/** The configuration of one core service, built from its CoreService property and the properties naming it. */
module CoreServices {
  import opened Text
  import opened ImsProperties
  import opened ServiceIdentifiers
  import Q = QosProperties

  /** A flow specification with the content type it is for. */
  datatype FlowSpec = FlowSpec(contentType: string, qos: Q.Qos)

  const NO_QOS := Q.Flow(0, 0, 0, 0, 0, 0, 0)

  datatype Service = Service(id: string, iari: ServiceIdentifier, icsis: seq<ServiceIdentifier>,
                             featureTags: seq<ServiceIdentifier>, sends: seq<FlowSpec>, receives: seq<FlowSpec>,
                             regHeaders: seq<string>, mediaProfile: string, connection: bool)

  /** A service as it is after an attempt to add a property. */
  datatype Outcome = Outcome(ok: bool, service: Service)

  function Blank(id: string): Service {
    Service(id, NO_ID, [], [], [], [], [], "", false)
  }

  // ---------------------------------------------------------------- the CoreService property

  predicate IariAllowed(p: Property)
    requires |p| == 5
  {
    p[2] == "" || FlagsAllowed(p[2], false)
  }

  function Filled(s: Service, p: Property): Service
    requires |p| == 5
  {
    s.(iari := if p[2] == "" then s.iari else Created(p[2]),
       icsis := s.icsis + ReadIcsis(p[3]),
       featureTags := s.featureTags + ReadIcsis(p[4]))
  }

  /** The service that a CoreService property describes. */
  function NewService(p: Property): Service
    requires |p| == 5
  {
    Filled(Blank(p[1]), p)
  }

  // ---------------------------------------------------------------- the CoreService property there and back

  /** The CoreService property that ToRegistry writes. An IARI without a name counts as none. */
  function CoreProperty(s: Service): Property {
    ["CoreService", s.id, if s.iari.name == "" then "" else Printed(s.iari), IcsiField(s.icsis),
     TagField(s.icsis, s.featureTags)]
  }

  predicate SameIdentifiers(s: Service, t: Service) {
    s.id == t.id && s.iari == t.iari && s.icsis == t.icsis && s.featureTags == t.featureTags
  }

  /** An IARI that the loader can have read: trimmed, without semicolon and without flags. */
  predicate GoodIari(id: ServiceIdentifier) {
    !id.isExplicit && !id.isRequired && Trim(id.name) == id.name && ';' !in id.name
  }

  lemma IariRoundTripIff(s: Service)
    ensures var p := CoreProperty(s);
      IariAllowed(p) && NewService(p).iari == s.iari <==> GoodIari(s.iari)
  {
    if s.iari.name != "" {
      CreateUndoesPrint(s.iari);
      if ';' !in s.iari.name {
        PiecesOfPrinted(s.iari);
        FlagTexts();
      }
    }
  }

  /** The loader makes of a written CoreService property the service it was written for, exactly when its IARI is a
      good one, it has no ICSIs, and its feature tags are without blanks, white space and semicolons. */
  lemma CorePropertyRoundTripIff(s: Service)
    ensures var p := CoreProperty(s);
      IariAllowed(p) && SameIdentifiers(NewService(p), s)
      <==> GoodIari(s.iari) && s.icsis == [] && AllClean(s.featureTags) && NO_ID !in s.featureTags
  {
    IariRoundTripIff(s);
    IcsiFieldRoundTrip(s.icsis);
    ReadIsClean(TagField(s.icsis, s.featureTags));
    if AllClean(s.icsis) && AllClean(s.featureTags) {
      TagFieldRoundTripIff(s.icsis, s.featureTags);
    }
  }

  // ---------------------------------------------------------------- properties of an existing service

  /** The receiving side gets the sending specification, whatever the property says about receiving. */
  function AddQos(s: Service, p: Property): Outcome {
    if |p| != 5 then Outcome(false, s)
    else
      var f := FlowSpec(p[2], Q.SetTo(NO_QOS, p[3]));
      Outcome(true, s.(sends := s.sends + [f], receives := s.receives + [f]))
  }

  /** The specification that a Qos property asks for on the receiving side. */
  function ReceiveAsked(p: Property): Q.Qos
    requires |p| == 5
  {
    Q.SetTo(NO_QOS, if p[4] == "" then p[3] else p[4])
  }

  /** What is stored for the receiving side is what the property asks for, exactly when it asks for the same as
      on the sending side. */
  lemma ReceiveIsAsAskedIff(s: Service, p: Property)
    requires |p| == 5
    ensures var r := AddQos(s, p).service.receives;
      r == s.receives + [FlowSpec(p[2], ReceiveAsked(p))]
      <==> p[4] == "" || Q.SetTo(NO_QOS, p[4]) == Q.SetTo(NO_QOS, p[3])
  {
    var r := AddQos(s, p).service.receives;
    assert r[|s.receives|] == FlowSpec(p[2], Q.SetTo(NO_QOS, p[3]));
    assert (s.receives + [FlowSpec(p[2], ReceiveAsked(p))])[|s.receives|] == FlowSpec(p[2], ReceiveAsked(p));
  }

  /** The number of elements, from the third one on, up to the first one without a colon. */
  function HeadersBefore(p: Property, i: nat): (n: nat)
    requires i <= |p|
    ensures i <= n <= |p|
    ensures forall j | i <= j < n :: ':' in p[j]
    ensures n < |p| ==> ':' !in p[n]
    decreases |p| - i
  {
    if i < |p| && ':' in p[i] then HeadersBefore(p, i + 1) else i
  }

  /** A property with a bad header still leaves the headers before it in place. */
  function AddReg(s: Service, p: Property): Outcome {
    if s.regHeaders != [] || |p| < 3 then Outcome(false, s)
    else
      var n := HeadersBefore(p, 2);
      Outcome(n == |p|, s.(regHeaders := p[2..n]))
  }

  /** A service takes at most one Reg property, and takes it exactly when every header in it has a colon. */
  lemma RegIsTakenOnce(s: Service, p: Property, q: Property)
    requires s.regHeaders == [] && |p| >= 3
    ensures AddReg(s, p).ok <==> forall j | 2 <= j < |p| :: ':' in p[j]
    ensures AddReg(s, p).ok ==> AddReg(s, p).service.regHeaders == p[2..]
    ensures AddReg(s, p).ok ==> AddReg(AddReg(s, p).service, q) == Outcome(false, AddReg(s, p).service)
  {
    var n := HeadersBefore(p, 2);
    assert n == |p| ==> p[2..n] == p[2..];
  }

  function AddMediaProfile(s: Service, p: Property): Outcome {
    if |p| != 3 then Outcome(false, s) else Outcome(true, s.(mediaProfile := p[2]))
  }

  function AddConnection(s: Service, p: Property): Outcome {
    if |p| != 2 then Outcome(false, s) else Outcome(true, s.(connection := true))
  }

  function Applied(s: Service, p: Property): (r: Outcome)
    requires p != []
    ensures r.service.id == s.id
  {
    match StringToKey(p[0])
    case QosKey => AddQos(s, p)
    case Reg => AddReg(s, p)
    case Mprof => AddMediaProfile(s, p)
    case Connection => AddConnection(s, p)
    case _ => Outcome(false, s)
  }

  // ---------------------------------------------------------------- the class

  class CoreServiceConfig {
    const id: string
    var iari: ServiceIdentifier
    var icsis: seq<ServiceIdentifier>
    var featureTags: seq<ServiceIdentifier>
    var sends: seq<FlowSpec>
    var receives: seq<FlowSpec>
    var regHeaders: seq<string>
    var mediaProfile: string
    var connection: bool

    function View(): (s: Service)
      reads this
      ensures s.id == id
    {
      Service(id, iari, icsis, featureTags, sends, receives, regHeaders, mediaProfile, connection)
    }

    constructor (id: string)
      ensures View() == Blank(id)
    {
      this.id := id;
      iari := NO_ID;
      icsis, featureTags := [], [];
      sends, receives := [], [];
      regHeaders := [];
      mediaProfile := "";
      connection := false;
    }

    method Create(p: Property) returns (ok: bool)
      requires |p| == 5
      modifies this
      ensures ok <==> IariAllowed(p)
      ensures View() == if ok then Filled(old(View()), p) else old(View())
    {
      if |p[2]| != 0 {
        var allowed := CheckFeatureFlags(p[2], false);
        if !allowed {
          return false;
        }
        iari := ServiceIdentifiers.Create(p[2]);
      }
      var ids := ParseIcsis(p[3]);
      icsis := icsis + ids;
      var tags := ParseIcsis(p[4]);
      featureTags := featureTags + tags;
      return true;
    }

    /** The property that describes this service in a registry. */
    method WriteCoreProperty() returns (p: Property)
      ensures p == CoreProperty(View())
    {
      p := ["CoreService", id];
      if iari.name != "" {
        var text := ToString(iari);
        p := p + [text];
      } else {
        p := p + [""];
      }
      var icsiField, tagField := WriteFields(icsis, featureTags);
      p := p + [icsiField, tagField];
    }

    method AddQosProperty(p: Property) returns (ok: bool)
      modifies this
      ensures Outcome(ok, View()) == AddQos(old(View()), p)
    {
      if |p| != 5 {
        return false;
      }
      var send := new Q.QosProperty();
      var receive := new Q.QosProperty();
      var sent := send.SetQos(p[3]);
      var received := receive.SetQos(if |p[4]| == 0 then p[3] else p[4]);
      sends := sends + [FlowSpec(p[2], send.qos)];
      receives := receives + [FlowSpec(p[2], send.qos)];
      return true;
    }

    method AddRegistrationHeaderProperty(p: Property) returns (ok: bool)
      modifies this
      ensures Outcome(ok, View()) == AddReg(old(View()), p)
    {
      if |regHeaders| > 0 {
        return false;
      }
      if |p| < 3 {
        return false;
      }
      for i := 2 to |p|
        invariant regHeaders == p[2..i]
        invariant View() == old(View()).(regHeaders := regHeaders)
        invariant HeadersBefore(p, 2) == HeadersBefore(p, i)
      {
        if ':' !in p[i] {
          return false;
        }
        assert p[2..i + 1] == p[2..i] + [p[i]];
        regHeaders := regHeaders + [p[i]];
      }
      return true;
    }

    method AddProperty(p: Property) returns (ok: bool)
      requires p != []
      modifies this
      ensures Outcome(ok, View()) == Applied(old(View()), p)
    {
      var key := FindKey(p[0]);
      if key == QosKey {
        ok := AddQosProperty(p);
      } else if key == Reg {
        ok := AddRegistrationHeaderProperty(p);
      } else if key == Mprof {
        if |p| != 3 {
          return false;
        }
        mediaProfile := p[2];
        return true;
      } else if key == Connection {
        if |p| != 2 {
          return false;
        }
        connection := true;
        return true;
      } else {
        return false;
      }
    }
  }
}
