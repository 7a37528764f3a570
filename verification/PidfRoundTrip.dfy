/** What is written of an element is read back as that element. */
module PidfRoundTrips {
  import opened Lists
  import opened PidfWriters
  import opened PidfReaders

  // ---------------------------------------------------------------- lines

  /** The list is empty, or begins with a tag of another name. */
  predicate BeginsOtherwise(xs: seq<Xml>, name: string) {
    xs != [] ==> xs[0].Tag? && xs[0].name != name
  }

  lemma {:induction false} OptionalLineReads(name: string, ds: seq<Declaration>, text: string, rest: seq<Xml>)
    requires BeginsOtherwise(rest, name)
    ensures TakeLine(OptionalLine(name, ds, text) + rest, name, ds) == (text, rest)
  {
    var xs := OptionalLine(name, ds, text) + rest;
    if text == "" {
      assert xs == rest;
    } else {
      assert xs[0] == Tag(name, ds, [Characters(text)]) && xs[1] == LF;
      assert xs[2..] == rest;
    }
  }

  lemma {:induction false} OtherLineFirst(other: string, ds: seq<Declaration>, text: string, rest: seq<Xml>, name: string)
    requires other != name && BeginsOtherwise(rest, name)
    ensures BeginsOtherwise(OptionalLine(other, ds, text) + rest, name)
  {
    var xs := OptionalLine(other, ds, text) + rest;
    if text == "" {
      assert xs == rest;
    } else {
      assert xs[0] == Tag(other, ds, [Characters(text)]);
    }
  }

  // ---------------------------------------------------------------- shapes and addresses

  lemma {:induction false} CircleReads(e: Element)
    requires e.Circle? && IsWritten(e)
    ensures ReadCircle([LF] + CircleContent(e)) == if IsClear(e) then Some(e) else None
  {
    var position := e.latitude + " " + e.longitude;
    var line, radius := OptionalLine("gml:pos", [], position), OptionalLine("gs:radius", IN_METRES, e.radius);
    assert ([LF] + CircleContent(e))[1..] == line + radius;
    assert radius + [] == radius;
    OptionalLineReads("gml:pos", [], position, radius);
    OptionalLineReads("gs:radius", IN_METRES, e.radius, []);
    PartsOfTwo(e.latitude, e.longitude);
    PartsOfOne(e.latitude);
    PartsOfOne(e.longitude);
  }

  lemma {:induction false} AxesRead(e: Element)
    requires e.Ellipsoid?
    ensures ReadAxes(Axes(e)) == Some(if e.radius == "" || e.verticalAccuracy == "" then ("", "")
                                      else (e.radius, e.verticalAccuracy))
    ensures BeginsOtherwise(Axes(e), "gml:pos")
  {
  }

  lemma {:induction false} EllipsoidReads(e: Element)
    requires e.Ellipsoid? && IsWritten(e)
    ensures ReadEllipsoid([LF] + EllipsoidContent(e)) == if IsClear(e) then Some(Written(e)) else None
  {
    var front := e.latitude + " " + e.longitude;
    var position := front + " " + e.altitude;
    assert ([LF] + EllipsoidContent(e))[1..] == OptionalLine("gml:pos", [], position) + Axes(e);
    AxesRead(e);
    OptionalLineReads("gml:pos", [], position, Axes(e));
    PartsOfTwo(front, e.altitude);
    PartsOfTwo(e.latitude, e.longitude);
    PartsOfOne(e.latitude);
    PartsOfOne(e.longitude);
    PartsOfOne(e.altitude);
  }

  lemma {:induction false} CivicReads(e: Element)
    requires e.CivicAddress?
    ensures ReadCivic([LF] + CivicContent(e)) == Some(e)
  {
    var country, state := OptionalLine("cl:country", [], e.country), OptionalLine("cl:A1", [], e.state);
    var city, postal := OptionalLine("cl:A2", [], e.city), OptionalLine("cl:PC", [], e.postal);
    assert ([LF] + CivicContent(e))[1..] == country + (state + (city + postal));
    assert postal + [] == postal;
    OptionalLineReads("cl:PC", [], e.postal, []);
    OptionalLineReads("cl:A2", [], e.city, postal);
    OtherLineFirst("cl:A2", [], e.city, postal, "cl:A1");
    OptionalLineReads("cl:A1", [], e.state, city + postal);
    OtherLineFirst("cl:A2", [], e.city, postal, "cl:country");
    OtherLineFirst("cl:A1", [], e.state, city + postal, "cl:country");
    OptionalLineReads("cl:country", [], e.country, state + (city + postal));
  }

  // ---------------------------------------------------------------- namespaces

  /** The list begins with an attribute, or a namespace with one of the prefixes. */
  predicate BeginsWith(ds: seq<Declaration>, prefixes: set<string>) {
    ds != [] && (ds[0].Attribute? || (ds[0].Namespace? && ds[0].prefix in prefixes))
  }

  lemma {:induction false} NamespaceReads(on: bool, prefix: string, uri: string, rest: seq<Declaration>,
                                          later: set<string>)
    requires BeginsWith(rest, later) && prefix !in later
    ensures TakeNamespace(OptionalNamespace(on, prefix, uri) + rest, prefix, uri) == (on, rest)
    ensures BeginsWith(OptionalNamespace(on, prefix, uri) + rest, later + {prefix})
  {
    var ds := OptionalNamespace(on, prefix, uri) + rest;
    if on {
      assert ds[0] == Namespace(prefix, uri) && ds[1..] == rest;
    } else {
      assert ds == rest;
    }
  }

  function FirstDeclarations(ns: set<PresenceNamespace>, rest: seq<Declaration>): seq<Declaration> {
    OptionalNamespace(DM in ns, "dm", "urn:ietf:params:xml:ns:pidf:data-model")
    + (OptionalNamespace(GP in ns, "gp", "urn:ietf:params:xml:ns:pidf:geopriv10")
       + (OptionalNamespace(GML in ns, "gml", "http://www.opengis.net/gml") + rest))
  }

  function LastDeclarations(ns: set<PresenceNamespace>, rest: seq<Declaration>): seq<Declaration> {
    OptionalNamespace(GS in ns, "gs", "http://www.opengis.net/pidflo/1.0")
    + (OptionalNamespace(CL in ns, "cl", "urn:ietf:params:xml:ns:pidf:geopriv10:civicAddr")
       + (OptionalNamespace(CON in ns, "con", "urn:ietf:params:xml:ns:geopriv:conf") + rest))
  }

  lemma {:induction false} ThreeNamespacesRead(a: (bool, string, string), b: (bool, string, string),
                                               c: (bool, string, string), rest: seq<Declaration>, later: set<string>)
    requires BeginsWith(rest, later) && c.1 !in later && b.1 !in later + {c.1} && a.1 !in later + {c.1} + {b.1}
    ensures var d3 := OptionalNamespace(c.0, c.1, c.2) + rest;
      var d2 := OptionalNamespace(b.0, b.1, b.2) + d3;
      && TakeNamespace(OptionalNamespace(a.0, a.1, a.2) + d2, a.1, a.2) == (a.0, d2)
      && TakeNamespace(d2, b.1, b.2) == (b.0, d3) && TakeNamespace(d3, c.1, c.2) == (c.0, rest)
      && BeginsWith(OptionalNamespace(a.0, a.1, a.2) + d2, later + {c.1} + {b.1} + {a.1})
  {
    var d3 := OptionalNamespace(c.0, c.1, c.2) + rest;
    NamespaceReads(c.0, c.1, c.2, rest, later);
    NamespaceReads(b.0, b.1, b.2, d3, later + {c.1});
    NamespaceReads(a.0, a.1, a.2, OptionalNamespace(b.0, b.1, b.2) + d3, later + {c.1} + {b.1});
  }

  lemma {:induction false} FirstNamespacesRead(ns: set<PresenceNamespace>, rest: seq<Declaration>)
    requires BeginsWith(rest, {"con", "cl", "gs"})
    ensures FirstNamespaces(FirstDeclarations(ns, rest))
         == (SetIf(DM in ns, DM) + SetIf(GP in ns, GP) + SetIf(GML in ns, GML), rest)
  {
    ThreeNamespacesRead((DM in ns, "dm", "urn:ietf:params:xml:ns:pidf:data-model"),
                        (GP in ns, "gp", "urn:ietf:params:xml:ns:pidf:geopriv10"),
                        (GML in ns, "gml", "http://www.opengis.net/gml"), rest, {"con", "cl", "gs"});
  }

  lemma {:induction false} LastNamespacesRead(ns: set<PresenceNamespace>, rest: seq<Declaration>)
    requires BeginsWith(rest, {})
    ensures LastNamespaces(LastDeclarations(ns, rest))
         == (SetIf(GS in ns, GS) + SetIf(CL in ns, CL) + SetIf(CON in ns, CON), rest)
    ensures BeginsWith(LastDeclarations(ns, rest), {"con", "cl", "gs"})
  {
    ThreeNamespacesRead((GS in ns, "gs", "http://www.opengis.net/pidflo/1.0"),
                        (CL in ns, "cl", "urn:ietf:params:xml:ns:pidf:geopriv10:civicAddr"),
                        (CON in ns, "con", "urn:ietf:params:xml:ns:geopriv:conf"), rest, {});
  }

  lemma {:induction false} Regrouped<T>(h: seq<T>, a: seq<T>, b: seq<T>, c: seq<T>, d: seq<T>, e: seq<T>, f: seq<T>,
                                        t: seq<T>)
    ensures h + a + b + c + d + e + f + t == h + (a + (b + (c + (d + (e + (f + t))))))
  {
    AppendAssociative(h + a + b + c + d + e, f, t);
    AppendAssociative(h + a + b + c + d, e, f + t);
    AppendAssociative(h + a + b + c, d, e + (f + t));
    AppendAssociative(h + a + b, c, d + (e + (f + t)));
    AppendAssociative(h + a, b, c + (d + (e + (f + t))));
    AppendAssociative(h, a, b + (c + (d + (e + (f + t)))));
  }

  lemma {:induction false} DeclarationsRegrouped(ns: set<PresenceNamespace>, uri: string)
    ensures PresenceDeclarations(ns, uri)
         == [DefaultNamespace("urn:ietf:params:xml:ns:pidf")]
            + FirstDeclarations(ns, LastDeclarations(ns, [Attribute("entity", uri)]))
  {
    Regrouped([DefaultNamespace("urn:ietf:params:xml:ns:pidf")],
              OptionalNamespace(DM in ns, "dm", "urn:ietf:params:xml:ns:pidf:data-model"),
              OptionalNamespace(GP in ns, "gp", "urn:ietf:params:xml:ns:pidf:geopriv10"),
              OptionalNamespace(GML in ns, "gml", "http://www.opengis.net/gml"),
              OptionalNamespace(GS in ns, "gs", "http://www.opengis.net/pidflo/1.0"),
              OptionalNamespace(CL in ns, "cl", "urn:ietf:params:xml:ns:pidf:geopriv10:civicAddr"),
              OptionalNamespace(CON in ns, "con", "urn:ietf:params:xml:ns:geopriv:conf"), [Attribute("entity", uri)]);
  }

  lemma {:induction false} SetOfAll(ns: set<PresenceNamespace>)
    ensures SetIf(DM in ns, DM) + SetIf(GP in ns, GP) + SetIf(GML in ns, GML)
            + (SetIf(GS in ns, GS) + SetIf(CL in ns, CL) + SetIf(CON in ns, CON)) == ns
  {
    forall n | n in ns ensures n in {DM, GP, GML} || n in {GS, CL, CON} {
      match n case DM => case GP => case GML => case GS => case CL => case CON =>
    }
  }

  lemma {:induction false} PresenceReads(ns: set<PresenceNamespace>, uri: string, children: seq<Element>)
    ensures ReadPresence(PresenceDeclarations(ns, uri), children) == Some(Presence(ns, uri, children))
  {
    var rest := [Attribute("entity", uri)];
    var last := LastDeclarations(ns, rest);
    DeclarationsRegrouped(ns, uri);
    assert PresenceDeclarations(ns, uri)[1..] == FirstDeclarations(ns, last);
    LastNamespacesRead(ns, rest);
    FirstNamespacesRead(ns, last);
    SetOfAll(ns);
  }

  // ---------------------------------------------------------------- elements

  function Result(e: Element): Option<Element> {
    if IsClear(e) then Some(Written(e)) else None
  }

  function ResultOfAll(es: seq<Element>): Option<seq<Element>> {
    if AllClear(es) then Some(AllWritten(es)) else None
  }

  /** What is shown of a written element other than a document: one tag on a line of its own. */
  predicate ShowsAs(e: Element, x: Xml) {
    Shown(e) == if e.PidfLoXml? then [x] else [x, Characters("\n")]
  }

  lemma {:induction false} TextReads(e: Element)
    requires IsWritten(e) && (e.Method? || e.Timestamp? || e.DeviceId? || e.Confidence? || e.UsageRules?)
    ensures ShowsAs(e, Shown(e)[0]) && !Shown(e)[0].Document? && ReadElement(Shown(e)[0]) == Result(e)
  {
  }

  lemma {:induction false} ShapeReads(e: Element)
    requires IsWritten(e) && (e.Circle? || e.Ellipsoid? || e.CivicAddress?)
    ensures ShowsAs(e, Shown(e)[0]) && !Shown(e)[0].Document? && ReadElement(Shown(e)[0]) == Result(e)
  {
    match e
    case Circle(_, _, _) => CircleReads(e);
    case Ellipsoid(_, _, _, _, _) => EllipsoidReads(e);
    case CivicAddress(_, _, _, _) => CivicReads(e);
  }

  lemma {:induction false} InsideReads(children: seq<Element>)
    ensures ReadInside([LF] + AllShown(children)) == ReadElements(AllShown(children))
  {
    assert ([LF] + AllShown(children))[1..] == AllShown(children);
  }

  lemma {:induction false} DocumentReads(e: Element)
    requires e.PidfLoXml? && ReadElements(AllShown(e.children)) == ResultOfAll(e.children)
    ensures ShowsAs(e, Shown(e)[0]) && Shown(e)[0].Document? && ReadElement(Shown(e)[0]) == Result(e)
  {
    InsideReads(e.children);
  }

  lemma {:induction false} TagAround(name: string, ds: seq<Declaration>, children: seq<Element>)
    requires IsContainer(name)
    ensures ReadElement(Tag(name, ds, [LF] + AllShown(children)))
         == match ReadElements(AllShown(children))
            case Some(es) => ReadContainer(name, ds, es)
            case None => None
  {
    InsideReads(children);
  }

  lemma {:induction false} ContainerReads(e: Element)
    requires !IsLeaf(e)
    ensures Shown(e) != [] && ShowsAs(e, Shown(e)[0]) && Shown(e)[0].Document? == e.PidfLoXml?
    ensures ReadElement(Shown(e)[0]) == Result(e)
    decreases e, 0
  {
    AllShownReads(e.Children());
    match e
    case PidfLoXml(_) => DocumentReads(e);
    case Presence(ns, uri, children) =>
      TagAround("presence", PresenceDeclarations(ns, uri), children);
      PresenceReads(ns, uri, AllWritten(children));
    case Person(id, children) => TagAround("dm:person", [Attribute("id", id)], children);
    case Device(id, children) => TagAround("dm:device", [Attribute("id", id)], children);
    case Tuple(id, children) => TagAround("tuple", [Attribute("id", id)], children);
    case Status(children) => TagAround("status", [], children);
    case Geopriv(children) => TagAround("gp:geopriv", [], children);
    case LocationInfo(children) => TagAround("gp:location-info", [], children);
  }

  lemma {:induction false} UnwrittenShowsNothing(e: Element)
    requires !IsWritten(e)
    ensures Shown(e) == [] && IsClear(e)
  {
  }

  predicate IsLeaf(e: Element) {
    || e.Method? || e.Timestamp? || e.DeviceId? || e.Confidence? || e.UsageRules? || e.Circle? || e.Ellipsoid?
    || e.CivicAddress?
  }

  lemma {:induction false} ShownReads(e: Element)
    requires IsWritten(e)
    ensures Shown(e) != [] && ShowsAs(e, Shown(e)[0]) && Shown(e)[0].Document? == e.PidfLoXml?
    ensures ReadElement(Shown(e)[0]) == Result(e)
    decreases e, 1
  {
    if !IsLeaf(e) {
      ContainerReads(e);
    } else if e.Circle? || e.Ellipsoid? || e.CivicAddress? {
      ShapeReads(e);
    } else {
      TextReads(e);
    }
  }

  lemma {:induction false} FirstReads(x: Xml, rest: seq<Xml>)
    ensures var xs := (if x.Document? then [x] else [x, Characters("\n")]) + rest;
      ReadElements(xs) == match ReadElement(x)
                          case None => None
                          case Some(e) => (match ReadElements(rest)
                                           case None => None
                                           case Some(es) => Some([e] + es))
  {
    var xs := (if x.Document? then [x] else [x, Characters("\n")]) + rest;
    assert xs[0] == x && (if x.Document? then xs[1..] else xs[2..]) == rest;
  }

  lemma {:induction false} ResultOfCons(es: seq<Element>)
    requires es != []
    ensures ResultOfAll(es) == if !IsWritten(es[0]) then ResultOfAll(es[1..])
                               else
                                 match Result(es[0])
                                 case None => None
                                 case Some(e) => (match ResultOfAll(es[1..])
                                                  case None => None
                                                  case Some(rest) => Some([e] + rest))
  {
    if !IsWritten(es[0]) {
      UnwrittenShowsNothing(es[0]);
      assert AllWritten(es) == AllWritten(es[1..]);
    }
  }

  /** What is written for some elements is read back as those elements, as far as they are written, exactly when no
      coordinate holds a space; otherwise nothing is read. */
  lemma {:induction false} AllShownReads(es: seq<Element>)
    ensures ReadElements(AllShown(es)) == ResultOfAll(es)
    decreases es
  {
    if es != [] {
      AllShownReads(es[1..]);
      ResultOfCons(es);
      if IsWritten(es[0]) {
        ShownReads(es[0]);
        var x := Shown(es[0])[0];
        assert Shown(es[0]) == if x.Document? then [x] else [x, Characters("\n")];
        FirstReads(x, AllShown(es[1..]));
      } else {
        UnwrittenShowsNothing(es[0]);
        assert AllShown(es) == AllShown(es[1..]);
      }
    }
  }

  // ---------------------------------------------------------------- the events

  /** The elements that a list of events is written for. */
  function ReadEvents(events: seq<Event>): Option<seq<Element>> {
    match ReadTrees(events)
    case Trees(content) => ReadElements(content)
    case NotWellFormed => None
  }

  /** All of the element is written. */
  predicate IsWhole(e: Element)
    decreases e
  {
    match e
    case PidfLoXml(children) => AllWhole(children)
    case Presence(_, _, children) => AllWhole(children)
    case Person(_, children) => AllWhole(children)
    case Device(_, children) => AllWhole(children)
    case Tuple(_, children) => AllWhole(children)
    case Status(children) => AllWhole(children)
    case Geopriv(children) => AllWhole(children)
    case LocationInfo(children) => AllWhole(children)
    case Ellipsoid(_, _, _, radius, vertical) => IsWritten(e) && (radius == "" <==> vertical == "")
    case _ => IsWritten(e)
  }

  predicate AllWhole(es: seq<Element>)
    decreases es
  {
    es == [] || (IsWhole(es[0]) && AllWhole(es[1..]))
  }

  lemma {:induction false} WrittenSize(es: seq<Element>)
    ensures |AllWritten(es)| <= |es|
    decreases es
  {
    if es != [] {
      WrittenSize(es[1..]);
    }
  }

  lemma {:induction false} AllWholeIff(es: seq<Element>)
    ensures AllWritten(es) == es <==> AllWhole(es)
    decreases es
  {
    if es != [] {
      WholeIff(es[0]);
      AllWholeIff(es[1..]);
      WrittenSize(es[1..]);
      var w, rest := AllWritten(es), AllWritten(es[1..]);
      assert es == [es[0]] + es[1..];
      if IsWritten(es[0]) {
        assert w[0] == Written(es[0]) && w[1..] == rest;
      } else {
        assert |w| < |es|;
      }
    }
  }

  lemma {:induction false} WholeIff(e: Element)
    ensures IsWritten(e) && Written(e) == e <==> IsWhole(e)
    decreases e, 0
  {
    if !IsLeaf(e) {
      AllWholeIff(e.Children());
    }
  }

  lemma {:induction false} OneReads(e: Element)
    ensures ReadEvents(AllEvents(Shown(e)))
         == if !IsWritten(e) then Some([]) else if IsClear(e) then Some([Written(e)]) else None
  {
    ReadExactlyThePrinted(AllEvents(Shown(e)), Shown(e));
    AllShownReads([e]);
    assert AllShown([e]) == Shown(e);
    ResultOfCons([e]);
    assert [e][1..] == [] && AllWritten([]) == [];
    assert [Written(e)] + [] == [Written(e)];
  }

  /** The events written for an element give it back as far as it is written, exactly when no coordinate holds a space. */
  lemma {:induction false} WrittenReadsBackIff(e: Element)
    ensures ReadEvents(AllEvents(Shown(e))) == Some(if IsWritten(e) then [Written(e)] else []) <==> IsClear(e)
  {
    OneReads(e);
    if !IsWritten(e) {
      UnwrittenShowsNothing(e);
    }
  }

  /** They give back the element itself exactly when all of it is written and no coordinate holds a space. */
  lemma {:induction false} ReadsBackIff(e: Element)
    ensures ReadEvents(AllEvents(Shown(e))) == Some([e]) <==> IsWhole(e) && IsClear(e)
  {
    OneReads(e);
    WholeIff(e);
  }

  /** A circle comes back with its own latitude, longitude and radius. */
  lemma {:induction false} CircleReadsBackIff(latitude: string, longitude: string, radius: string)
    ensures var e := Circle(latitude, longitude, radius);
      ReadEvents(AllEvents(Shown(e))) == Some([e])
      <==> latitude != "" && longitude != "" && ' ' !in latitude && ' ' !in longitude
  {
    ReadsBackIff(Circle(latitude, longitude, radius));
  }

  /** An ellipsoid does so when both accuracies are known, or none. */
  lemma {:induction false} EllipsoidReadsBackIff(latitude: string, longitude: string, altitude: string, radius: string,
                                                 vertical: string)
    ensures var e := Ellipsoid(latitude, longitude, altitude, radius, vertical);
      ReadEvents(AllEvents(Shown(e))) == Some([e])
      <==> latitude != "" && longitude != "" && altitude != "" && ' ' !in latitude && ' ' !in longitude
           && ' ' !in altitude && (radius == "" <==> vertical == "")
  {
    ReadsBackIff(Ellipsoid(latitude, longitude, altitude, radius, vertical));
  }
}
