/** Reading a PIDF-LO document back into its elements, by the names of the tags and the places of the numbers in a
    position. */
module PidfReaders {
  import opened Lists
  import opened PidfWriters
  import T = Text

  // ---------------------------------------------------------------- positions

  /** The texts between single spaces. */
  function Parts(s: string): (r: seq<string>)
    ensures |r| >= 1
    decreases |s|
  {
    var i := T.IndexOf(s, ' ');
    if i == |s| then [s] else [s[..i]] + Parts(s[i + 1..])
  }

  predicate NoBlank(s: string) {
    ' ' !in s
  }

  lemma {:induction false} PartsOfOne(s: string)
    ensures Parts(s) == [s] <==> NoBlank(s)
    ensures |Parts(s)| == 1 <==> NoBlank(s)
  {
  }

  lemma {:induction false} PartsFirst(a: string, b: string)
    requires NoBlank(a)
    ensures Parts(a + " " + b) == [a] + Parts(b)
  {
    var s := a + [' '] + b;
    T.IndexOfPrefix(a, ' ', b);
    assert s[..|a|] == a && s[|a| + 1..] == b;
  }

  lemma {:induction false} PartsOfTwo(a: string, b: string)
    ensures Parts(a + " " + b) == Parts(a) + Parts(b)
    decreases |a|
  {
    var i := T.IndexOf(a, ' ');
    if i == |a| {
      PartsFirst(a, b);
    } else {
      var first, rest := a[..i], a[i + 1..];
      assert a == first + " " + rest;
      AppendAssociative(first + " ", rest, " " + b);
      AppendAssociative(first + " " + rest, " ", b);
      AppendAssociative(rest, " ", b);
      PartsFirst(first, rest + " " + b);
      PartsOfTwo(rest, b);
      AppendAssociative([first], Parts(rest), Parts(b));
    }
  }

  // ---------------------------------------------------------------- lines

  /** The one text in a tag, unless it is empty. */
  function OneText(content: seq<Xml>): Option<string> {
    if |content| == 1 && content[0].Characters? && content[0].text != "" then Some(content[0].text) else None
  }

  /** The text of a tag of that name on a line of its own. */
  function LineText(xs: seq<Xml>, name: string, ds: seq<Declaration>): Option<string> {
    if |xs| >= 2 && xs[0].Tag? && xs[0].name == name && xs[0].declarations == ds && xs[1] == Characters("\n")
    then OneText(xs[0].content) else None
  }

  /** The text of that line if it comes first, and what is behind it. */
  function TakeLine(xs: seq<Xml>, name: string, ds: seq<Declaration>): (string, seq<Xml>) {
    match LineText(xs, name, ds)
    case Some(text) => (text, xs[2..])
    case None => ("", xs)
  }

  const IN_METRES := [Attribute("uom", "urn:ogc:def:uom:EPSG::9001")]

  const IN_DEGREES := [Attribute("uom", "urn:ogc:def:uom:EPSG::9102")]

  // ---------------------------------------------------------------- what stands in a tag

  function ReadCircle(content: seq<Xml>): Option<Element> {
    if content == [] || content[0] != Characters("\n") then None
    else
      var (position, more) := TakeLine(content[1..], "gml:pos", []);
      var (radius, rest) := TakeLine(more, "gs:radius", IN_METRES);
      var p := Parts(position);
      if |p| != 2 || rest != [] then None else Some(Circle(p[0], p[1], radius))
  }

  /** The radius is on both horizontal axes, and the orientation is zero. */
  function ReadAxes(xs: seq<Xml>): Option<(string, string)> {
    if xs == [] then Some(("", ""))
    else if |xs| != 5 || xs[4] != Characters("\n") || !xs[0].Tag? || !xs[2].Tag? then None
    else
      var radius, vertical := OneText(xs[0].content), OneText(xs[2].content);
      if radius.None? || vertical.None?
         || xs[0] != Tag("gs:semiMajorAxis", IN_METRES, [Characters(radius.value)])
         || xs[1] != Tag("gs:semiMinorAxis", IN_METRES, [Characters(radius.value)])
         || xs[2] != Tag("gs:verticalAxis", IN_METRES, [Characters(vertical.value)])
         || xs[3] != Tag("gs:orientation", IN_DEGREES, [Characters("0")])
      then None
      else Some((radius.value, vertical.value))
  }

  function ReadEllipsoid(content: seq<Xml>): Option<Element> {
    if content == [] || content[0] != Characters("\n") then None
    else
      var (position, more) := TakeLine(content[1..], "gml:pos", []);
      var p, axes := Parts(position), ReadAxes(more);
      if |p| != 3 || axes.None? then None else Some(Ellipsoid(p[0], p[1], p[2], axes.value.0, axes.value.1))
  }

  function ReadCivic(content: seq<Xml>): Option<Element> {
    if content == [] || content[0] != Characters("\n") then None
    else
      var (country, more) := TakeLine(content[1..], "cl:country", []);
      var (state, evenMore) := TakeLine(more, "cl:A1", []);
      var (city, last) := TakeLine(evenMore, "cl:A2", []);
      var (postal, rest) := TakeLine(last, "cl:PC", []);
      if rest != [] then None else Some(CivicAddress(country, state, city, postal))
  }

  /** Whether the first declaration is this namespace, and those behind it. */
  function TakeNamespace(ds: seq<Declaration>, prefix: string, uri: string): (bool, seq<Declaration>) {
    if ds != [] && ds[0] == Namespace(prefix, uri) then (true, ds[1..]) else (false, ds)
  }

  /** The value of the only declaration, an attribute of that name. */
  function OnlyAttribute(ds: seq<Declaration>, name: string): Option<string> {
    if |ds| == 1 && ds[0].Attribute? && ds[0].name == name then Some(ds[0].value) else None
  }

  function SetIf(on: bool, n: PresenceNamespace): set<PresenceNamespace> {
    if on then {n} else {}
  }

  /** The first three namespaces, each there or not, and what is behind them. */
  function FirstNamespaces(ds: seq<Declaration>): (set<PresenceNamespace>, seq<Declaration>) {
    var (dm, d1) := TakeNamespace(ds, "dm", "urn:ietf:params:xml:ns:pidf:data-model");
    var (gp, d2) := TakeNamespace(d1, "gp", "urn:ietf:params:xml:ns:pidf:geopriv10");
    var (gml, d3) := TakeNamespace(d2, "gml", "http://www.opengis.net/gml");
    (SetIf(dm, DM) + SetIf(gp, GP) + SetIf(gml, GML), d3)
  }

  function LastNamespaces(ds: seq<Declaration>): (set<PresenceNamespace>, seq<Declaration>) {
    var (gs, d1) := TakeNamespace(ds, "gs", "http://www.opengis.net/pidflo/1.0");
    var (cl, d2) := TakeNamespace(d1, "cl", "urn:ietf:params:xml:ns:pidf:geopriv10:civicAddr");
    var (con, d3) := TakeNamespace(d2, "con", "urn:ietf:params:xml:ns:geopriv:conf");
    (SetIf(gs, GS) + SetIf(cl, CL) + SetIf(con, CON), d3)
  }

  function ReadPresence(ds: seq<Declaration>, children: seq<Element>): Option<Element> {
    if ds == [] || ds[0] != DefaultNamespace("urn:ietf:params:xml:ns:pidf") then None
    else
      var (first, more) := FirstNamespaces(ds[1..]);
      var (last, rest) := LastNamespaces(more);
      match OnlyAttribute(rest, "entity")
      case Some(uri) => Some(Presence(first + last, uri, children))
      case None => None
  }

  // ---------------------------------------------------------------- tags

  predicate IsContainer(name: string) {
    name in {"presence", "dm:person", "dm:device", "tuple", "status", "gp:geopriv", "gp:location-info"}
  }

  function ReadContainer(name: string, ds: seq<Declaration>, children: seq<Element>): Option<Element> {
    var id := OnlyAttribute(ds, "id");
    match name
    case "presence" => ReadPresence(ds, children)
    case "dm:person" => if id.Some? then Some(Person(id.value, children)) else None
    case "dm:device" => if id.Some? then Some(Device(id.value, children)) else None
    case "tuple" => if id.Some? then Some(Tuple(id.value, children)) else None
    case "status" => if ds == [] then Some(Status(children)) else None
    case "gp:geopriv" => if ds == [] then Some(Geopriv(children)) else None
    case "gp:location-info" => if ds == [] then Some(LocationInfo(children)) else None
    case _ => None
  }

  function ReadLeaf(name: string, ds: seq<Declaration>, content: seq<Xml>): Option<Element> {
    var text := OneText(content);
    match name
    case "gs:Circle" => if ds == [Attribute("srsName", "urn:ogc:def:crs:EPSG::4326")] then ReadCircle(content) else None
    case "gs:Ellipsoid" =>
      if ds == [Attribute("srsName", "urn:ogc:def:crs:EPSG::4979")] then ReadEllipsoid(content) else None
    case "cl:civicAddress" => if ds == [] then ReadCivic(content) else None
    case "gp:method" => if ds == [] && text.Some? then Some(Method(text.value)) else None
    case "dm:timestamp" => if ds == [] && text.Some? then Some(Timestamp(text.value)) else None
    case "dm:deviceID" => if ds == [] && text.Some? then Some(DeviceId(text.value)) else None
    case "con:confidence" =>
      if ds == [Attribute("pdf", "normal")] && text.Some? then Some(Confidence(text.value)) else None
    case _ => None
  }

  function ReadElement(x: Xml): Option<Element>
    decreases x
  {
    match x
    case Document(encoding, version, content) =>
      if encoding != "UTF-8" || version != "1.0" then None
      else (
        match ReadInside(content)
        case Some(children) => Some(PidfLoXml(children))
        case None => None)
    case EmptyTag(name) => if name == "gp:usage-rules" then Some(UsageRules) else None
    case Characters(_) => None
    case Tag(name, ds, content) =>
      if IsContainer(name) then
        match ReadInside(content)
        case Some(children) => ReadContainer(name, ds, children)
        case None => None
      else
        ReadLeaf(name, ds, content)
  }

  /** The elements in a tag, behind a line feed. */
  function ReadInside(content: seq<Xml>): Option<seq<Element>>
    decreases content
  {
    if content == [] || content[0] != Characters("\n") then None else ReadElements(content[1..])
  }

  /** Elements one after the other, each but a document followed by a line feed. */
  function ReadElements(xs: seq<Xml>): Option<seq<Element>>
    decreases xs
  {
    if xs == [] then Some([])
    else if !xs[0].Document? && (|xs| == 1 || xs[1] != Characters("\n")) then None
    else
      match ReadElement(xs[0])
      case None => None
      case Some(e) =>
        match ReadElements(if xs[0].Document? then xs[1..] else xs[2..])
        case None => None
        case Some(es) => Some([e] + es)
  }

  // ---------------------------------------------------------------- what can be read back

  /** Something of the element is written. */
  predicate IsWritten(e: Element) {
    match e
    case Method(text) => text != ""
    case Timestamp(text) => text != ""
    case DeviceId(text) => text != ""
    case Confidence(text) => text != ""
    case Circle(latitude, longitude, _) => latitude != "" && longitude != ""
    case Ellipsoid(latitude, longitude, altitude, _, _) => latitude != "" && longitude != "" && altitude != ""
    case CivicAddress(country, state, city, postal) => country != "" || state != "" || city != "" || postal != ""
    case _ => true
  }

  /** The element as far as it is written: without the children of which nothing is written, and an ellipsoid without its
      axes unless both accuracies are there. */
  function Written(e: Element): Element
    decreases e
  {
    match e
    case PidfLoXml(children) => PidfLoXml(AllWritten(children))
    case Presence(ns, uri, children) => Presence(ns, uri, AllWritten(children))
    case Person(id, children) => Person(id, AllWritten(children))
    case Device(id, children) => Device(id, AllWritten(children))
    case Tuple(id, children) => Tuple(id, AllWritten(children))
    case Status(children) => Status(AllWritten(children))
    case Geopriv(children) => Geopriv(AllWritten(children))
    case LocationInfo(children) => LocationInfo(AllWritten(children))
    case Ellipsoid(latitude, longitude, altitude, radius, vertical) =>
      if radius == "" || vertical == "" then Ellipsoid(latitude, longitude, altitude, "", "") else e
    case _ => e
  }

  function AllWritten(es: seq<Element>): seq<Element>
    decreases es
  {
    if es == [] then [] else (if IsWritten(es[0]) then [Written(es[0])] else []) + AllWritten(es[1..])
  }

  /** No coordinate that is written holds a space. */
  predicate IsClear(e: Element)
    decreases e
  {
    match e
    case PidfLoXml(children) => AllClear(children)
    case Presence(_, _, children) => AllClear(children)
    case Person(_, children) => AllClear(children)
    case Device(_, children) => AllClear(children)
    case Tuple(_, children) => AllClear(children)
    case Status(children) => AllClear(children)
    case Geopriv(children) => AllClear(children)
    case LocationInfo(children) => AllClear(children)
    case Circle(latitude, longitude, _) => IsWritten(e) ==> ' ' !in latitude && ' ' !in longitude
    case Ellipsoid(latitude, longitude, altitude, _, _) =>
      IsWritten(e) ==> ' ' !in latitude && ' ' !in longitude && ' ' !in altitude
    case _ => true
  }

  predicate AllClear(es: seq<Element>)
    decreases es
  {
    es == [] || (IsClear(es[0]) && AllClear(es[1..]))
  }
}
