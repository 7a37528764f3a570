/** Printing a PIDF-LO document: a tree of elements is written as XML events, and the events can be read back. */
module PidfWriters {

  // ---------------------------------------------------------------- XML

  datatype Declaration =
    | DefaultNamespace(uri: string)
    | Namespace(prefix: string, uri: string)
    | Attribute(name: string, value: string)

  datatype Xml =
    | Document(encoding: string, version: string, content: seq<Xml>)
    | Tag(name: string, declarations: seq<Declaration>, content: seq<Xml>)
    | EmptyTag(name: string)
    | Characters(text: string)

  datatype Event =
    | StartDocument(encoding: string, version: string)
    | EndDocument
    | StartElement(name: string)
    | Declare(declaration: Declaration)
    | Text(text: string)
    | EmptyElement(name: string)
    | EndElement

  function Declared(ds: seq<Declaration>): (r: seq<Event>)
    ensures |r| == |ds| && forall i | 0 <= i < |ds| :: r[i] == Declare(ds[i])
  {
    seq(|ds|, i requires 0 <= i < |ds| => Declare(ds[i]))
  }

  /** The events of a tree. */
  function Events(x: Xml): seq<Event>
    decreases x
  {
    match x
    case Document(encoding, version, content) => [StartDocument(encoding, version)] + AllEvents(content) + [EndDocument]
    case Tag(name, ds, content) => [StartElement(name)] + Declared(ds) + AllEvents(content) + [EndElement]
    case EmptyTag(name) => [EmptyElement(name)]
    case Characters(text) => [Text(text)]
  }

  function AllEvents(xs: seq<Xml>): seq<Event>
    decreases xs
  {
    if xs == [] then [] else Events(xs[0]) + AllEvents(xs[1..])
  }

  // ---------------------------------------------------------------- elements

  datatype PresenceNamespace = DM | GP | GML | GS | CL | CON

  datatype Element =
    | PidfLoXml(children: seq<Element>)
    | Presence(namespaces: set<PresenceNamespace>, entityUri: string, children: seq<Element>)
    | Person(id: string, children: seq<Element>)
    | Device(id: string, children: seq<Element>)
    | Tuple(id: string, children: seq<Element>)
    | Status(children: seq<Element>)
    | Geopriv(children: seq<Element>)
    | LocationInfo(children: seq<Element>)
    | UsageRules
    | Method(name: string)
    | Timestamp(timestamp: string)
    | DeviceId(deviceId: string)
    | Circle(latitude: string, longitude: string, radius: string)
    | Ellipsoid(latitude: string, longitude: string, altitude: string, radius: string, verticalAccuracy: string)
    | Confidence(confidence: string)
    | CivicAddress(country: string, state: string, city: string, postal: string)
  {
    function Children(): seq<Element> {
      if PidfLoXml? || Presence? || Person? || Device? || Tuple? || Status? || Geopriv? || LocationInfo? then children
      else []
    }
  }

  const LF: Xml := Characters("\n")

  const METRE := Attribute("uom", "urn:ogc:def:uom:EPSG::9001")

  const DEGREE := Attribute("uom", "urn:ogc:def:uom:EPSG::9102")

  function OptionalNamespace(on: bool, prefix: string, uri: string): seq<Declaration> {
    if on then [Namespace(prefix, uri)] else []
  }

  function PresenceDeclarations(ns: set<PresenceNamespace>, uri: string): seq<Declaration> {
    [DefaultNamespace("urn:ietf:params:xml:ns:pidf")]
    + OptionalNamespace(DM in ns, "dm", "urn:ietf:params:xml:ns:pidf:data-model")
    + OptionalNamespace(GP in ns, "gp", "urn:ietf:params:xml:ns:pidf:geopriv10")
    + OptionalNamespace(GML in ns, "gml", "http://www.opengis.net/gml")
    + OptionalNamespace(GS in ns, "gs", "http://www.opengis.net/pidflo/1.0")
    + OptionalNamespace(CL in ns, "cl", "urn:ietf:params:xml:ns:pidf:geopriv10:civicAddr")
    + OptionalNamespace(CON in ns, "con", "urn:ietf:params:xml:ns:geopriv:conf")
    + [Attribute("entity", uri)]
  }

  /** A tag around one text. */
  function TextTag(name: string, ds: seq<Declaration>, text: string): Xml {
    Tag(name, ds, [Characters(text)])
  }

  /** A tag on a line of its own, unless its text is empty. */
  function OptionalLine(name: string, ds: seq<Declaration>, text: string): seq<Xml> {
    if text == "" then [] else [TextTag(name, ds, text), LF]
  }

  function PosLine(text: string): seq<Xml> {
    [TextTag("gml:pos", [], text), LF]
  }

  function CircleContent(e: Element): seq<Xml>
    requires e.Circle?
  {
    PosLine(e.latitude + " " + e.longitude) + OptionalLine("gs:radius", [METRE], e.radius)
  }

  /** The axes are written only when both accuracies are known. */
  function Axes(e: Element): seq<Xml>
    requires e.Ellipsoid?
  {
    if e.radius == "" || e.verticalAccuracy == "" then []
    else
      [TextTag("gs:semiMajorAxis", [METRE], e.radius)] + [TextTag("gs:semiMinorAxis", [METRE], e.radius)]
      + [TextTag("gs:verticalAxis", [METRE], e.verticalAccuracy)] + [TextTag("gs:orientation", [DEGREE], "0")] + [LF]
  }

  function EllipsoidContent(e: Element): seq<Xml>
    requires e.Ellipsoid?
  {
    PosLine(e.latitude + " " + e.longitude + " " + e.altitude) + Axes(e)
  }

  function CivicContent(e: Element): seq<Xml>
    requires e.CivicAddress?
  {
    OptionalLine("cl:country", [], e.country) + OptionalLine("cl:A1", [], e.state)
    + OptionalLine("cl:A2", [], e.city) + OptionalLine("cl:PC", [], e.postal)
  }

  /** A tag on lines of its own around other elements. */
  function Container(name: string, ds: seq<Declaration>, content: seq<Xml>): seq<Xml> {
    [Tag(name, ds, [LF] + content), LF]
  }

  /** The XML of an element: nothing at all where its texts are empty. */
  function Shown(e: Element): seq<Xml>
    decreases e
  {
    match e
    case PidfLoXml(children) => [Document("UTF-8", "1.0", [LF] + AllShown(children))]
    case Presence(ns, uri, children) => Container("presence", PresenceDeclarations(ns, uri), AllShown(children))
    case Person(id, children) => Container("dm:person", [Attribute("id", id)], AllShown(children))
    case Device(id, children) => Container("dm:device", [Attribute("id", id)], AllShown(children))
    case Tuple(id, children) => Container("tuple", [Attribute("id", id)], AllShown(children))
    case Status(children) => Container("status", [], AllShown(children))
    case Geopriv(children) => Container("gp:geopriv", [], AllShown(children))
    case LocationInfo(children) => Container("gp:location-info", [], AllShown(children))
    case UsageRules => [EmptyTag("gp:usage-rules"), LF]
    case Method(text) => OptionalLine("gp:method", [], text)
    case Timestamp(text) => OptionalLine("dm:timestamp", [], text)
    case DeviceId(text) => OptionalLine("dm:deviceID", [], text)
    case Circle(latitude, longitude, _) =>
      if latitude == "" || longitude == "" then []
      else Container("gs:Circle", [Attribute("srsName", "urn:ogc:def:crs:EPSG::4326")], CircleContent(e))
    case Ellipsoid(latitude, longitude, altitude, _, _) =>
      if latitude == "" || longitude == "" || altitude == "" then []
      else Container("gs:Ellipsoid", [Attribute("srsName", "urn:ogc:def:crs:EPSG::4979")], EllipsoidContent(e))
    case Confidence(text) => OptionalLine("con:confidence", [Attribute("pdf", "normal")], text)
    case CivicAddress(country, state, city, postal) =>
      if country == "" && state == "" && city == "" && postal == "" then []
      else Container("cl:civicAddress", [], CivicContent(e))
  }

  function AllShown(es: seq<Element>): seq<Xml>
    decreases es
  {
    if es == [] then [] else Shown(es[0]) + AllShown(es[1..])
  }

  // ---------------------------------------------------------------- reading

  /** A tag or document whose end is still to come. */
  datatype Open = OpenDocument(encoding: string, version: string) | OpenTag(name: string, declarations: seq<Declaration>)

  datatype Frame = Frame(open: Open, before: seq<Xml>)

  /** The open tags, each with what came before it in the one around it, what came so far in the innermost, and
      whether that is a tag with nothing in it yet. */
  datatype Reader = Failed | Reading(stack: seq<Frame>, content: seq<Xml>, atStart: bool)

  function Closed(open: Open, content: seq<Xml>): Xml {
    match open
    case OpenDocument(encoding, version) => Document(encoding, version, content)
    case OpenTag(name, ds) => Tag(name, ds, content)
  }

  function Read(r: Reader, e: Event): Reader {
    if r.Failed? then r
    else
      var n := |r.stack|;
      match e
      case StartDocument(encoding, version) =>
        Reading(r.stack + [Frame(OpenDocument(encoding, version), r.content)], [], false)
      case StartElement(name) => Reading(r.stack + [Frame(OpenTag(name, []), r.content)], [], true)
      case Text(text) => Reading(r.stack, r.content + [Characters(text)], false)
      case EmptyElement(name) => Reading(r.stack, r.content + [EmptyTag(name)], false)
      case Declare(d) =>
        if !r.atStart || n == 0 || !r.stack[n - 1].open.OpenTag? then Failed
        else
          var f := r.stack[n - 1];
          r.(stack := r.stack[..n - 1] + [f.(open := f.open.(declarations := f.open.declarations + [d]))])
      case EndElement =>
        if n == 0 || !r.stack[n - 1].open.OpenTag? then Failed else Close(r)
      case EndDocument =>
        if n == 0 || !r.stack[n - 1].open.OpenDocument? then Failed else Close(r)
  }

  function Close(r: Reader): Reader
    requires r.Reading? && r.stack != []
  {
    var f := r.stack[|r.stack| - 1];
    Reading(r.stack[..|r.stack| - 1], f.before + [Closed(f.open, r.content)], false)
  }

  function ReadAll(r: Reader, es: seq<Event>): Reader
    decreases es
  {
    if es == [] then r else ReadAll(Read(r, es[0]), es[1..])
  }

  datatype Trees = NotWellFormed | Trees(content: seq<Xml>)

  /** The trees that a list of events stands for. */
  function ReadTrees(es: seq<Event>): Trees {
    var r := ReadAll(Reading([], [], false), es);
    if r.Reading? && r.stack == [] then Trees(r.content) else NotWellFormed
  }

  // ---------------------------------------------------------------- reading undoes printing

  lemma {:induction false} ReadConcat(r: Reader, a: seq<Event>, b: seq<Event>)
    ensures ReadAll(r, a + b) == ReadAll(ReadAll(r, a), b)
    decreases |a|
  {
    if a == [] {
      assert a + b == b;
    } else {
      assert (a + b)[1..] == a[1..] + b;
      ReadConcat(Read(r, a[0]), a[1..], b);
    }
  }

  lemma ReadSingle(r: Reader, e: Event)
    ensures ReadAll(r, [e]) == Read(r, e)
  {
    assert [e][1..] == [];
    assert ReadAll(Read(r, e), []) == Read(r, e);
  }

  lemma {:induction false} ReadDeclarations(stack: seq<Frame>, name: string, had: seq<Declaration>, before: seq<Xml>,
                                            ds: seq<Declaration>)
    ensures ReadAll(Reading(stack + [Frame(OpenTag(name, had), before)], [], true), Declared(ds))
         == Reading(stack + [Frame(OpenTag(name, had + ds), before)], [], true)
    decreases |ds|
  {
    if ds == [] {
      assert had + ds == had;
    } else {
      var r := Reading(stack + [Frame(OpenTag(name, had), before)], [], true);
      assert r.stack[..|r.stack| - 1] == stack;
      assert Read(r, Declare(ds[0])) == Reading(stack + [Frame(OpenTag(name, had + [ds[0]]), before)], [], true);
      assert Declared(ds)[1..] == Declared(ds[1..]);
      ReadDeclarations(stack, name, had + [ds[0]], before, ds[1..]);
      assert had + [ds[0]] + ds[1..] == had + ds;
    }
  }

  function Accept(r: Reader, xs: seq<Xml>): Reader
    requires r.Reading?
  {
    if xs == [] then r else Reading(r.stack, r.content + xs, false)
  }

  lemma CloseLast(stack: seq<Frame>, f: Frame, content: seq<Xml>, atStart: bool)
    ensures Close(Reading(stack + [f], content, atStart)) == Reading(stack, f.before + [Closed(f.open, content)], false)
  {
    assert (stack + [f])[..|stack|] == stack;
  }

  lemma {:induction false} ReadHead(r: Reader, name: string, declarations: seq<Declaration>)
    requires r.Reading?
    ensures ReadAll(r, [StartElement(name)] + Declared(declarations))
         == Reading(r.stack + [Frame(OpenTag(name, declarations), r.content)], [], true)
  {
    ReadConcat(r, [StartElement(name)], Declared(declarations));
    ReadSingle(r, StartElement(name));
    ReadDeclarations(r.stack, name, [], r.content, declarations);
    assert [] + declarations == declarations;
  }

  lemma {:induction false} ReadTag(r: Reader, x: Xml)
    requires r.Reading? && x.Tag?
    ensures ReadAll(r, Events(x)) == Accept(r, [x])
    decreases x, 0
  {
    var f := Frame(OpenTag(x.name, x.declarations), r.content);
    var head := [StartElement(x.name)] + Declared(x.declarations);
    ReadConcat(r, head + AllEvents(x.content), [EndElement]);
    ReadConcat(r, head, AllEvents(x.content));
    ReadHead(r, x.name, x.declarations);
    var inside := Reading(r.stack + [f], [], true);
    ReadMany(inside, x.content);
    assert [] + x.content == x.content;
    var last := Accept(inside, x.content);
    ReadSingle(last, EndElement);
    CloseLast(r.stack, f, x.content, last.atStart);
  }

  lemma {:induction false} ReadDocument(r: Reader, x: Xml)
    requires r.Reading? && x.Document?
    ensures ReadAll(r, Events(x)) == Accept(r, [x])
    decreases x, 0
  {
    var f := Frame(OpenDocument(x.encoding, x.version), r.content);
    var start := StartDocument(x.encoding, x.version);
    ReadConcat(r, [start] + AllEvents(x.content), [EndDocument]);
    ReadConcat(r, [start], AllEvents(x.content));
    ReadSingle(r, start);
    var inside := Reading(r.stack + [f], [], false);
    ReadMany(inside, x.content);
    assert [] + x.content == x.content;
    var last := Accept(inside, x.content);
    ReadSingle(last, EndDocument);
    CloseLast(r.stack, f, x.content, last.atStart);
  }

  lemma {:induction false} ReadMany(r: Reader, xs: seq<Xml>)
    requires r.Reading?
    ensures ReadAll(r, AllEvents(xs)) == Accept(r, xs)
    decreases xs
  {
    if xs != [] {
      var x := xs[0];
      ReadConcat(r, Events(x), AllEvents(xs[1..]));
      match x {
        case Tag(_, _, _) => ReadTag(r, x);
        case Document(_, _, _) => ReadDocument(r, x);
        case EmptyTag(name) => ReadSingle(r, EmptyElement(name));
        case Characters(text) => ReadSingle(r, Text(text));
      }
      ReadMany(Accept(r, [x]), xs[1..]);
      assert r.content + [x] + xs[1..] == r.content + xs;
    }
  }

  // ---------------------------------------------------------------- printing undoes reading

  function OpenEvents(o: Open): seq<Event> {
    match o
    case OpenDocument(encoding, version) => [StartDocument(encoding, version)]
    case OpenTag(name, ds) => [StartElement(name)] + Declared(ds)
  }

  function StackEvents(stack: seq<Frame>): seq<Event> {
    if stack == [] then []
    else
      var f := stack[|stack| - 1];
      StackEvents(stack[..|stack| - 1]) + AllEvents(f.before) + OpenEvents(f.open)
  }

  /** The events read so far. */
  function ReaderEvents(r: Reader): seq<Event>
    requires r.Reading?
  {
    StackEvents(r.stack) + AllEvents(r.content)
  }

  predicate Proper(r: Reader) {
    r.Reading? && (r.atStart ==> r.stack != [] && r.stack[|r.stack| - 1].open.OpenTag? && r.content == [])
  }

  lemma {:induction false} EventsOfAppend(xs: seq<Xml>, x: Xml)
    ensures AllEvents(xs + [x]) == AllEvents(xs) + Events(x)
    decreases |xs|
  {
    if xs == [] {
      assert [x][1..] == [];
      assert xs + [x] == [x];
    } else {
      assert (xs + [x])[1..] == xs[1..] + [x];
      EventsOfAppend(xs[1..], x);
    }
  }

  lemma EventsOfPush(stack: seq<Frame>, f: Frame)
    ensures StackEvents(stack + [f]) == StackEvents(stack) + AllEvents(f.before) + OpenEvents(f.open)
  {
    assert (stack + [f])[..|stack|] == stack;
  }

  lemma EventsOfClosed(o: Open, content: seq<Xml>)
    ensures Events(Closed(o, content)) == OpenEvents(o) + AllEvents(content) + [if o.OpenTag? then EndElement else EndDocument]
  {
  }

  lemma Regroup<T>(a: seq<T>, b: seq<T>, c: seq<T>, d: seq<T>, e: seq<T>)
    ensures a + (b + (c + d + e)) == a + b + c + d + e
  {
  }

  lemma ClosePrints(r: Reader, e: Event)
    requires Proper(r) && r.stack != []
    requires e == if r.stack[|r.stack| - 1].open.OpenTag? then EndElement else EndDocument
    ensures ReaderEvents(Close(r)) == ReaderEvents(r) + [e]
  {
    var n := |r.stack| - 1;
    var f := r.stack[n];
    EventsOfAppend(f.before, Closed(f.open, r.content));
    EventsOfClosed(f.open, r.content);
    Regroup(StackEvents(r.stack[..n]), AllEvents(f.before), OpenEvents(f.open), AllEvents(r.content), [e]);
  }

  lemma OneMoreDeclaration(name: string, ds: seq<Declaration>, d: Declaration)
    ensures OpenEvents(OpenTag(name, ds + [d])) == OpenEvents(OpenTag(name, ds)) + [Declare(d)]
  {
    assert Declared(ds + [d]) == Declared(ds) + [Declare(d)];
  }

  lemma AtEnd<T>(a: seq<T>, b: seq<T>, c: seq<T>)
    ensures a + (b + c) + [] == a + b + [] + c
  {
  }

  lemma DeclarePrints(r: Reader, d: Declaration)
    requires Proper(r) && r.atStart
    ensures ReaderEvents(Read(r, Declare(d))) == ReaderEvents(r) + [Declare(d)]
  {
    var n := |r.stack| - 1;
    var f := r.stack[n];
    var open := f.open.(declarations := f.open.declarations + [d]);
    OneMoreDeclaration(f.open.name, f.open.declarations, d);
    EventsOfPush(r.stack[..n], Frame(open, f.before));
    AtEnd(StackEvents(r.stack[..n]) + AllEvents(f.before), OpenEvents(f.open), [Declare(d)]);
    assert AllEvents([]) == [];
  }

  lemma StartPrints(stack: seq<Frame>, o: Open, content: seq<Xml>, e: Event)
    requires OpenEvents(o) == [e]
    ensures StackEvents(stack + [Frame(o, content)]) + AllEvents([]) == StackEvents(stack) + AllEvents(content) + [e]
  {
    EventsOfPush(stack, Frame(o, content));
  }

  lemma LeafPrints(r: Reader, x: Xml, e: Event)
    requires r.Reading? && Events(x) == [e]
    ensures StackEvents(r.stack) + AllEvents(r.content + [x]) == ReaderEvents(r) + [e]
  {
    EventsOfAppend(r.content, x);
  }

  lemma ReadPrints(r: Reader, e: Event)
    requires Proper(r) && Read(r, e).Reading?
    ensures Proper(Read(r, e)) && ReaderEvents(Read(r, e)) == ReaderEvents(r) + [e]
  {
    match e {
      case StartDocument(encoding, version) => StartPrints(r.stack, OpenDocument(encoding, version), r.content, e);
      case StartElement(name) =>
        assert OpenEvents(OpenTag(name, [])) == [e];
        StartPrints(r.stack, OpenTag(name, []), r.content, e);
      case Text(text) => LeafPrints(r, Characters(text), e);
      case EmptyElement(name) => LeafPrints(r, EmptyTag(name), e);
      case Declare(d) => DeclarePrints(r, d);
      case EndElement => ClosePrints(r, e);
      case EndDocument => ClosePrints(r, e);
    }
  }

  lemma {:induction false} FailedStays(es: seq<Event>)
    ensures ReadAll(Failed, es) == Failed
    decreases |es|
  {
    if es != [] {
      FailedStays(es[1..]);
    }
  }

  lemma OneByOne(done: seq<Event>, es: seq<Event>)
    requires es != []
    ensures done + [es[0]] + es[1..] == done + es
  {
  }

  lemma {:induction false} ReadAllPrints(r: Reader, es: seq<Event>)
    requires Proper(r) && ReadAll(r, es).Reading?
    ensures ReaderEvents(ReadAll(r, es)) == ReaderEvents(r) + es
    decreases |es|
  {
    if es == [] {
      assert ReaderEvents(r) + es == ReaderEvents(r);
    } else {
      var q := Read(r, es[0]);
      if q.Failed? {
        FailedStays(es[1..]);
      } else {
        ReadPrints(r, es[0]);
        ReadAllPrints(q, es[1..]);
        OneByOne(ReaderEvents(r), es);
      }
    }
  }

  /** A list of events is read as some trees exactly when it is what those trees print. */
  lemma ReadExactlyThePrinted(es: seq<Event>, xs: seq<Xml>)
    ensures ReadTrees(es) == Trees(xs) <==> es == AllEvents(xs)
  {
    var r := Reading([], [], false);
    if es == AllEvents(xs) {
      ReadMany(r, xs);
      assert [] + xs == xs;
    }
    if ReadTrees(es) == Trees(xs) {
      ReadAllPrints(r, es);
      assert ReaderEvents(r) == [];
      assert [] + es == es;
      assert [] + AllEvents(xs) == AllEvents(xs);
    }
  }

  // ---------------------------------------------------------------- where declarations are

  /** Every declaration directly follows a start tag or another declaration. */
  predicate DeclarationsFollowStart(es: seq<Event>) {
    forall i | 0 <= i < |es| && es[i].Declare? :: i > 0 && (es[i - 1].StartElement? || es[i - 1].Declare?)
  }

  lemma {:induction false} ReadAllFollows(r: Reader, es: seq<Event>)
    requires ReadAll(r, es).Reading?
    ensures r.Reading?
    ensures forall i | 0 < i < |es| && es[i].Declare? :: es[i - 1].StartElement? || es[i - 1].Declare?
    ensures es != [] && es[0].Declare? ==> r.atStart
    decreases |es|
  {
    FailedStays(es);
    if es != [] {
      ReadAllFollows(Read(r, es[0]), es[1..]);
      forall i | 0 < i < |es| && es[i].Declare? ensures es[i - 1].StartElement? || es[i - 1].Declare? {
        assert es[i] == es[1..][i - 1];
        if i > 1 {
          assert es[i - 1] == es[1..][i - 2];
        }
      }
    }
  }

  /** Whatever the element, its events are well nested, its namespaces and attributes stand directly behind a start
      tag, and reading the events gives exactly the tree of what is shown. */
  lemma ElementReadsBack(e: Element)
    ensures ReadTrees(AllEvents(Shown(e))) == Trees(Shown(e))
    ensures DeclarationsFollowStart(AllEvents(Shown(e)))
  {
    ReadExactlyThePrinted(AllEvents(Shown(e)), Shown(e));
    ReadAllFollows(Reading([], [], false), AllEvents(Shown(e)));
  }

  // ---------------------------------------------------------------- writing

  lemma {:induction false} EventsOfConcat(xs: seq<Xml>, ys: seq<Xml>)
    ensures AllEvents(xs + ys) == AllEvents(xs) + AllEvents(ys)
    decreases |xs|
  {
    if xs == [] {
      assert xs + ys == ys;
    } else {
      assert (xs + ys)[1..] == xs[1..] + ys;
      EventsOfConcat(xs[1..], ys);
    }
  }

  lemma {:induction false} ShownOfAppend(es: seq<Element>, e: Element)
    ensures AllShown(es + [e]) == AllShown(es) + Shown(e)
    decreases |es|
  {
    if es == [] {
      assert [e][1..] == [];
      assert es + [e] == [e];
    } else {
      assert (es + [e])[1..] == es[1..] + [e];
      ShownOfAppend(es[1..], e);
    }
  }

  lemma SingleEvents(x: Xml)
    ensures AllEvents([x]) == Events(x)
  {
    EventsOfAppend([], x);
    assert [] + [x] == [x];
  }

  /** One more piece behind what was written since `start`. */
  lemma More(start: seq<Event>, xs: seq<Xml>, ys: seq<Xml>)
    ensures start + AllEvents(xs) + AllEvents(ys) == start + AllEvents(xs + ys)
  {
    EventsOfConcat(xs, ys);
  }

  function Head(name: string, ds: seq<Declaration>): seq<Event> {
    [StartElement(name)] + Declared(ds)
  }

  const END_OF_LINE: seq<Event> := [EndElement, Text("\n")]

  lemma Nest<T>(a: seq<T>, b: seq<T>, c: seq<T>, d: seq<T>)
    ensures a + (b + c + d) == a + b + c + d
  {
  }

  /** The events of a tag on a line of its own. */
  lemma LineEvents(name: string, ds: seq<Declaration>, content: seq<Xml>)
    ensures AllEvents([Tag(name, ds, content), LF]) == Head(name, ds) + AllEvents(content) + END_OF_LINE
  {
    var x := Tag(name, ds, content);
    EventsOfAppend([x], LF);
    SingleEvents(x);
  }

  lemma ContainerEvents(start: seq<Event>, name: string, ds: seq<Declaration>, content: seq<Xml>)
    ensures start + Head(name, ds) + AllEvents([LF] + content) + END_OF_LINE
         == start + AllEvents(Container(name, ds, content))
  {
    LineEvents(name, ds, [LF] + content);
    Nest(start, Head(name, ds), AllEvents([LF] + content), END_OF_LINE);
  }

  /** Receives the events, in place of the printer of XML text. */
  class XmlStreamWriter {
    var events: seq<Event>

    constructor ()
      ensures events == []
    {
      events := [];
    }

    method Put(e: Event)
      modifies this
      ensures events == old(events) + [e]
    {
      events := events + [e];
    }

    method Start(name: string, ds: seq<Declaration>)
      modifies this
      ensures events == old(events) + Head(name, ds)
    {
      Put(StartElement(name));
      for i := 0 to |ds|
        invariant events == old(events) + [StartElement(name)] + Declared(ds)[..i]
      {
        Put(Declare(ds[i]));
      }
      assert Declared(ds)[..|ds|] == Declared(ds);
    }

    method NewLine()
      modifies this
      ensures events == old(events) + AllEvents([LF])
    {
      SingleEvents(LF);
      Put(Text("\n"));
    }

    /** The end tag and the end of the line. */
    method EndLine()
      modifies this
      ensures events == old(events) + END_OF_LINE
    {
      Put(EndElement);
      Put(Text("\n"));
    }

    method TextElement(name: string, ds: seq<Declaration>, text: string)
      modifies this
      ensures events == old(events) + AllEvents([TextTag(name, ds, text)])
    {
      Start(name, ds);
      Put(Text(text));
      Put(EndElement);
      SingleEvents(TextTag(name, ds, text));
      SingleEvents(Characters(text));
      Nest(old(events), Head(name, ds), [Text(text)], [EndElement]);
    }

    method TextLine(name: string, ds: seq<Declaration>, text: string)
      modifies this
      ensures events == old(events) + AllEvents([TextTag(name, ds, text), LF])
    {
      TextElement(name, ds, text);
      NewLine();
      More(old(events), [TextTag(name, ds, text)], [LF]);
      assert [TextTag(name, ds, text)] + [LF] == [TextTag(name, ds, text), LF];
    }

    method OptionalTextLine(name: string, ds: seq<Declaration>, text: string)
      modifies this
      ensures events == old(events) + AllEvents(OptionalLine(name, ds, text))
    {
      if |text| > 0 {
        TextLine(name, ds, text);
      }
    }
  }

  lemma OneMoreShown(start: seq<Event>, es: seq<Element>, i: nat)
    requires i < |es|
    ensures start + AllEvents(AllShown(es[..i])) + AllEvents(Shown(es[i])) == start + AllEvents(AllShown(es[..i + 1]))
  {
    More(start, AllShown(es[..i]), Shown(es[i]));
    ShownOfAppend(es[..i], es[i]);
    assert es[..i + 1] == es[..i] + [es[i]];
  }

  method WriteChildren(e: Element, w: XmlStreamWriter)
    modifies w
    ensures w.events == old(w.events) + AllEvents(AllShown(e.Children()))
    decreases e, 0
  {
    var children := e.Children();
    ghost var start := w.events;
    for i := 0 to |children|
      invariant w.events == start + AllEvents(AllShown(children[..i]))
    {
      Write(children[i], w);
      OneMoreShown(start, children, i);
    }
    assert children[..|children|] == children;
  }

  method WriteContainer(name: string, ds: seq<Declaration>, e: Element, w: XmlStreamWriter)
    modifies w
    ensures w.events == old(w.events) + AllEvents(Container(name, ds, AllShown(e.Children())))
    decreases e, 1
  {
    w.Start(name, ds);
    ghost var inside := w.events;
    w.NewLine();
    WriteChildren(e, w);
    More(inside, [LF], AllShown(e.Children()));
    w.EndLine();
    ContainerEvents(old(w.events), name, ds, AllShown(e.Children()));
  }

  method WriteDocument(e: Element, w: XmlStreamWriter)
    requires e.PidfLoXml?
    modifies w
    ensures w.events == old(w.events) + AllEvents(Shown(e))
    decreases e, 1
  {
    w.Put(StartDocument("UTF-8", "1.0"));
    ghost var inside := w.events;
    w.NewLine();
    WriteChildren(e, w);
    More(inside, [LF], AllShown(e.children));
    w.Put(EndDocument);
    SingleEvents(Document("UTF-8", "1.0", [LF] + AllShown(e.children)));
    Nest(old(w.events), [StartDocument("UTF-8", "1.0")], AllEvents([LF] + AllShown(e.children)), [EndDocument]);
  }

  method WithNamespace(ds: seq<Declaration>, on: bool, prefix: string, uri: string) returns (r: seq<Declaration>)
    ensures r == ds + OptionalNamespace(on, prefix, uri)
  {
    r := ds;
    if on {
      r := r + [Namespace(prefix, uri)];
    }
  }

  /** The declarations of a presence tag, written as they are found to be in use. */
  method PresenceStart(ns: set<PresenceNamespace>, uri: string, w: XmlStreamWriter)
    modifies w
    ensures w.events == old(w.events) + Head("presence", PresenceDeclarations(ns, uri))
  {
    var ds: seq<Declaration> := [DefaultNamespace("urn:ietf:params:xml:ns:pidf")];
    ds := WithNamespace(ds, DM in ns, "dm", "urn:ietf:params:xml:ns:pidf:data-model");
    ds := WithNamespace(ds, GP in ns, "gp", "urn:ietf:params:xml:ns:pidf:geopriv10");
    ds := WithNamespace(ds, GML in ns, "gml", "http://www.opengis.net/gml");
    ds := WithNamespace(ds, GS in ns, "gs", "http://www.opengis.net/pidflo/1.0");
    ds := WithNamespace(ds, CL in ns, "cl", "urn:ietf:params:xml:ns:pidf:geopriv10:civicAddr");
    ds := WithNamespace(ds, CON in ns, "con", "urn:ietf:params:xml:ns:geopriv:conf");
    ds := ds + [Attribute("entity", uri)];
    w.Start("presence", ds);
  }

  method WritePresence(e: Element, w: XmlStreamWriter)
    requires e.Presence?
    modifies w
    ensures w.events == old(w.events) + AllEvents(Shown(e))
    decreases e, 1
  {
    PresenceStart(e.namespaces, e.entityUri, w);
    ghost var inside := w.events;
    w.NewLine();
    WriteChildren(e, w);
    More(inside, [LF], AllShown(e.children));
    w.EndLine();
    ContainerEvents(old(w.events), "presence", PresenceDeclarations(e.namespaces, e.entityUri), AllShown(e.children));
  }

  method WriteCircle(e: Element, w: XmlStreamWriter)
    requires e.Circle?
    modifies w
    ensures w.events == old(w.events) + AllEvents(Shown(e))
  {
    if |e.latitude| == 0 || |e.longitude| == 0 {
      return;
    }
    var ds := [Attribute("srsName", "urn:ogc:def:crs:EPSG::4326")];
    w.Start("gs:Circle", ds);
    ghost var inside := w.events;
    w.NewLine();
    var position := e.latitude + " " + e.longitude;
    w.TextLine("gml:pos", [], position);
    w.OptionalTextLine("gs:radius", [METRE], e.radius);
    More(inside, [LF], PosLine(position));
    More(inside, [LF] + PosLine(position), OptionalLine("gs:radius", [METRE], e.radius));
    assert [LF] + CircleContent(e) == [LF] + PosLine(position) + OptionalLine("gs:radius", [METRE], e.radius);
    w.EndLine();
    ContainerEvents(old(w.events), "gs:Circle", ds, CircleContent(e));
  }

  method WriteAxes(e: Element, w: XmlStreamWriter)
    requires e.Ellipsoid?
    modifies w
    ensures w.events == old(w.events) + AllEvents(Axes(e))
  {
    if |e.radius| > 0 && |e.verticalAccuracy| > 0 {
      ghost var start := w.events;
      w.TextElement("gs:semiMajorAxis", [METRE], e.radius);
      ghost var xs := [TextTag("gs:semiMajorAxis", [METRE], e.radius)];
      w.TextElement("gs:semiMinorAxis", [METRE], e.radius);
      More(start, xs, [TextTag("gs:semiMinorAxis", [METRE], e.radius)]);
      xs := xs + [TextTag("gs:semiMinorAxis", [METRE], e.radius)];
      w.TextElement("gs:verticalAxis", [METRE], e.verticalAccuracy);
      More(start, xs, [TextTag("gs:verticalAxis", [METRE], e.verticalAccuracy)]);
      xs := xs + [TextTag("gs:verticalAxis", [METRE], e.verticalAccuracy)];
      w.TextElement("gs:orientation", [DEGREE], "0");
      More(start, xs, [TextTag("gs:orientation", [DEGREE], "0")]);
      xs := xs + [TextTag("gs:orientation", [DEGREE], "0")];
      w.NewLine();
      More(start, xs, [LF]);
    }
  }

  method WriteEllipsoid(e: Element, w: XmlStreamWriter)
    requires e.Ellipsoid?
    modifies w
    ensures w.events == old(w.events) + AllEvents(Shown(e))
  {
    if |e.latitude| == 0 || |e.longitude| == 0 || |e.altitude| == 0 {
      return;
    }
    var ds := [Attribute("srsName", "urn:ogc:def:crs:EPSG::4979")];
    w.Start("gs:Ellipsoid", ds);
    ghost var inside := w.events;
    w.NewLine();
    var position := e.latitude + " " + e.longitude + " " + e.altitude;
    w.TextLine("gml:pos", [], position);
    WriteAxes(e, w);
    More(inside, [LF], PosLine(position));
    More(inside, [LF] + PosLine(position), Axes(e));
    assert [LF] + EllipsoidContent(e) == [LF] + PosLine(position) + Axes(e);
    w.EndLine();
    ContainerEvents(old(w.events), "gs:Ellipsoid", ds, EllipsoidContent(e));
  }

  method WriteCivicContent(e: Element, w: XmlStreamWriter)
    requires e.CivicAddress?
    modifies w
    ensures w.events == old(w.events) + AllEvents(CivicContent(e))
  {
    ghost var start := w.events;
    w.OptionalTextLine("cl:country", [], e.country);
    ghost var xs := OptionalLine("cl:country", [], e.country);
    w.OptionalTextLine("cl:A1", [], e.state);
    More(start, xs, OptionalLine("cl:A1", [], e.state));
    xs := xs + OptionalLine("cl:A1", [], e.state);
    w.OptionalTextLine("cl:A2", [], e.city);
    More(start, xs, OptionalLine("cl:A2", [], e.city));
    xs := xs + OptionalLine("cl:A2", [], e.city);
    w.OptionalTextLine("cl:PC", [], e.postal);
    More(start, xs, OptionalLine("cl:PC", [], e.postal));
  }

  method WriteCivicAddress(e: Element, w: XmlStreamWriter)
    requires e.CivicAddress?
    modifies w
    ensures w.events == old(w.events) + AllEvents(Shown(e))
  {
    if |e.country| == 0 && |e.state| == 0 && |e.city| == 0 && |e.postal| == 0 {
      return;
    }
    w.Start("cl:civicAddress", []);
    ghost var inside := w.events;
    w.NewLine();
    WriteCivicContent(e, w);
    More(inside, [LF], CivicContent(e));
    w.EndLine();
    ContainerEvents(old(w.events), "cl:civicAddress", [], CivicContent(e));
  }

  method WriteUsageRules(w: XmlStreamWriter)
    modifies w
    ensures w.events == old(w.events) + AllEvents(Shown(UsageRules))
  {
    w.Put(EmptyElement("gp:usage-rules"));
    SingleEvents(EmptyTag("gp:usage-rules"));
    w.NewLine();
    More(old(w.events), [EmptyTag("gp:usage-rules")], [LF]);
    assert [EmptyTag("gp:usage-rules")] + [LF] == [EmptyTag("gp:usage-rules"), LF];
  }

  /** Writing an element adds exactly the events of what is shown of it. */
  method Write(e: Element, w: XmlStreamWriter)
    modifies w
    ensures w.events == old(w.events) + AllEvents(Shown(e))
    decreases e, 2
  {
    match e {
      case PidfLoXml(_) => WriteDocument(e, w);
      case Presence(_, _, _) => WritePresence(e, w);
      case Person(id, _) => WriteContainer("dm:person", [Attribute("id", id)], e, w);
      case Device(id, _) => WriteContainer("dm:device", [Attribute("id", id)], e, w);
      case Tuple(id, _) => WriteContainer("tuple", [Attribute("id", id)], e, w);
      case Status(_) => WriteContainer("status", [], e, w);
      case Geopriv(_) => WriteContainer("gp:geopriv", [], e, w);
      case LocationInfo(_) => WriteContainer("gp:location-info", [], e, w);
      case UsageRules => WriteUsageRules(w);
      case Method(text) => w.OptionalTextLine("gp:method", [], text);
      case Timestamp(text) => w.OptionalTextLine("dm:timestamp", [], text);
      case DeviceId(text) => w.OptionalTextLine("dm:deviceID", [], text);
      case Circle(_, _, _) => WriteCircle(e, w);
      case Ellipsoid(_, _, _, _, _) => WriteEllipsoid(e, w);
      case Confidence(text) => w.OptionalTextLine("con:confidence", [Attribute("pdf", "normal")], text);
      case CivicAddress(_, _, _, _) => WriteCivicAddress(e, w);
    }
  }
}
