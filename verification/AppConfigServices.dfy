/** What the properties that name a service make of it, by the texts in them. */
module AppConfigServices {
  import opened Lists
  import opened Text
  import opened ImsProperties
  import opened CoreServices
  import opened AppConfigs
  import opened AppConfigOrders
  import opened AppConfigParts
  import opened AppConfigMeanings
  import opened AppConfigResults
  import Q = QosProperties

  /** A property with the key that names the service, ignoring case. */
  predicate IsFor(p: Property, key: string, id: string) {
    |p| >= 2 && p[0] == key && Lower(p[1]) == Lower(id)
  }

  predicate IsForService(p: Property, id: string) {
    |p| >= 2 && p[0] in {"Qos", "Reg", "Mprof", "Connection"} && Lower(p[1]) == Lower(id)
  }

  lemma {:induction false} ForServiceIff(p: Property, id: string)
    ensures IsForService(p, id) <==> IsRelated(p) && Names(p, id)
  {
    if p != [] {
      KeysOfServices(p);
    }
  }

  lemma {:induction false} ServiceKeys(s: string)
    ensures StringToKey(s) == QosKey <==> s == "Qos"
    ensures StringToKey(s) == Reg <==> s == "Reg"
    ensures StringToKey(s) == Mprof <==> s == "Mprof"
    ensures StringToKey(s) == Connection <==> s == "Connection"
  {
    KeyIs(s);
  }

  // ---------------------------------------------------------------- one property

  /** A property is good for a service without registration headers, or with some. */
  predicate GoodFor(p: Property, hasHeaders: bool)
    requires p != []
  {
    match p[0]
    case "Qos" => |p| == 5
    case "Reg" => !hasHeaders && |p| >= 3 && forall j | 2 <= j < |p| :: ':' in p[j]
    case "Mprof" => |p| == 3
    case "Connection" => |p| == 2
    case _ => false
  }

  /** The flow specification in a Qos property: what the sending text says, or no quality at all if it is malformed. */
  function FlowsIn(p: Property): seq<FlowSpec> {
    if |p| == 5 && p[0] == "Qos" then [FlowSpec(p[2], Q.SetTo(Q.Flow(0, 0, 0, 0, 0, 0, 0), p[3]))] else []
  }

  /** The service with one property taken into it. */
  function With(s: Service, p: Property): Service {
    s.(sends := s.sends + FlowsIn(p),
       receives := s.receives + FlowsIn(p),
       regHeaders := if |p| >= 3 && p[0] == "Reg" then p[2..] else s.regHeaders,
       mediaProfile := if |p| >= 3 && p[0] == "Mprof" then p[2] else s.mediaProfile,
       connection := s.connection || (|p| >= 2 && p[0] == "Connection"))
  }

  lemma {:induction false} HeadersIff(s: Service, p: Property)
    ensures AddReg(s, p).ok <==> s.regHeaders == [] && |p| >= 3 && forall j | 2 <= j < |p| :: ':' in p[j]
    ensures AddReg(s, p).ok ==> AddReg(s, p).service == s.(regHeaders := p[2..])
  {
    if s.regHeaders == [] && |p| >= 3 {
      RegIsTakenOnce(s, p, p);
    }
  }

  /** A service accepts a property exactly when it is good, and then it is taken into the service. */
  lemma {:induction false} AppliedIff(s: Service, p: Property)
    requires p != []
    ensures Applied(s, p).ok <==> GoodFor(p, s.regHeaders != [])
    ensures Applied(s, p).ok ==> Applied(s, p).service == With(s, p)
  {
    ServiceKeys(p[0]);
    HeadersIff(s, p);
    NothingAdded(s.sends);
    NothingAdded(s.receives);
  }

  lemma {:induction false} NothingAdded(fs: seq<FlowSpec>)
    ensures fs + [] == fs
  {
  }

  // ---------------------------------------------------------------- all properties

  /** No two of them are Reg properties of the service, and none is if it has headers already. */
  predicate HeadersOnce(reg: seq<Property>, id: string, hasHeaders: bool) {
    && (forall i, j | 0 <= i < j < |reg| && IsFor(reg[i], "Reg", id) :: !IsFor(reg[j], "Reg", id))
    && (hasHeaders ==> forall i | 0 <= i < |reg| :: !IsFor(reg[i], "Reg", id))
  }

  predicate AllGoodFor(reg: seq<Property>, id: string) {
    forall i | 0 <= i < |reg| && IsForService(reg[i], id) :: GoodFor(reg[i], false)
  }

  lemma {:induction false} TailIsLikeAll(reg: seq<Property>)
    requires reg != []
    ensures forall i | 1 <= i < |reg| :: reg[i] == reg[1..][i - 1]
    ensures forall i | 0 <= i < |reg[1..]| :: reg[1..][i] == reg[i + 1]
  {
  }

  lemma {:induction false} GoodStep(reg: seq<Property>, id: string, hasHeaders: bool)
    requires reg != []
    ensures AllGoodFor(reg, id)
            <==> (IsForService(reg[0], id) ==> GoodFor(reg[0], false)) && AllGoodFor(reg[1..], id)
    ensures HeadersOnce(reg, id, hasHeaders)
            <==> (IsFor(reg[0], "Reg", id) ==> !hasHeaders)
                 && HeadersOnce(reg[1..], id, hasHeaders || IsFor(reg[0], "Reg", id))
  {
    TailIsLikeAll(reg);
  }

  /** The properties that name a service succeed exactly when each is good and at most one gives registration headers. */
  lemma {:induction false} ServicePassOkIff(s: Service, reg: seq<Property>)
    requires AllKeyed(reg)
    ensures ServicePass(s, reg).ok <==> AllGoodFor(reg, s.id) && HeadersOnce(reg, s.id, s.regHeaders != [])
    decreases reg
  {
    if reg != [] {
      var p := reg[0];
      GoodStep(reg, s.id, s.regHeaders != []);
      ForServiceIff(p, s.id);
      if IsForService(p, s.id) {
        AppliedIff(s, p);
        if Applied(s, p).ok {
          ServicePassOkIff(Applied(s, p).service, reg[1..]);
        }
      } else {
        ServicePassOkIff(s, reg[1..]);
      }
    }
  }

  /** The flow specifications of the service's Qos properties in their order. */
  function Flows(reg: seq<Property>, id: string): seq<FlowSpec> {
    if reg == [] then []
    else (if IsForService(reg[0], id) then FlowsIn(reg[0]) else []) + Flows(reg[1..], id)
  }

  /** The index of the last property of the service with the key, or -1. */
  function LastFor(reg: seq<Property>, key: string, id: string): (r: int)
    ensures -1 <= r < |reg|
    ensures r >= 0 ==> IsFor(reg[r], key, id)
    ensures forall j | r < j < |reg| :: !IsFor(reg[j], key, id)
  {
    if reg == [] then -1
    else
      assert forall j | 1 <= j < |reg| :: reg[j] == reg[1..][j - 1];
      var r := LastFor(reg[1..], key, id);
      if r >= 0 then r + 1 else if IsFor(reg[0], key, id) then 0 else -1
  }

  /** What the properties of a registry make of a service. */
  function WithAll(s: Service, reg: seq<Property>): Service {
    var m, h := LastFor(reg, "Mprof", s.id), LastFor(reg, "Reg", s.id);
    s.(sends := s.sends + Flows(reg, s.id),
       receives := s.receives + Flows(reg, s.id),
       regHeaders := if h >= 0 && |reg[h]| >= 3 then reg[h][2..] else s.regHeaders,
       mediaProfile := if m >= 0 && |reg[m]| >= 3 then reg[m][2] else s.mediaProfile,
       connection := s.connection || LastFor(reg, "Connection", s.id) >= 0)
  }

  lemma {:induction false} NothingTaken(s: Service)
    ensures WithAll(s, []) == s
  {
  }

  lemma {:induction false} ListsOfStep(s: Service, reg: seq<Property>)
    requires reg != []
    ensures var first := if IsForService(reg[0], s.id) then FlowsIn(reg[0]) else [];
      && s.sends + first + Flows(reg[1..], s.id) == s.sends + Flows(reg, s.id)
      && s.receives + first + Flows(reg[1..], s.id) == s.receives + Flows(reg, s.id)
  {
    var first := if IsForService(reg[0], s.id) then FlowsIn(reg[0]) else [];
    AppendAssociative(s.sends, first, Flows(reg[1..], s.id));
    AppendAssociative(s.receives, first, Flows(reg[1..], s.id));
  }

  lemma {:induction false} OneThenRest(s: Service, reg: seq<Property>)
    requires reg != [] && IsForService(reg[0], s.id) && GoodFor(reg[0], s.regHeaders != [])
    requires AllGoodFor(reg[1..], s.id)
    ensures WithAll(With(s, reg[0]), reg[1..]) == WithAll(s, reg)
  {
    ListsOfStep(s, reg);
    TailIsLikeAll(reg);
  }

  lemma {:induction false} NoneThenRest(s: Service, reg: seq<Property>)
    requires reg != [] && !IsForService(reg[0], s.id)
    ensures WithAll(s, reg[1..]) == WithAll(s, reg)
  {
    TailIsLikeAll(reg);
  }

  /** Every service that succeeds is what its properties make of it: the flows in order, both ways the sending ones, the
      headers of its Reg property, the profile of its last Mprof property, and a connection if there is a property. */
  lemma {:induction false} ServicePassIs(s: Service, reg: seq<Property>)
    requires AllKeyed(reg) && ServicePass(s, reg).ok
    ensures ServicePass(s, reg).service == WithAll(s, reg)
    decreases reg
  {
    if reg == [] {
      NothingTaken(s);
    } else {
      var p := reg[0];
      ServicePassOkIff(s, reg);
      GoodStep(reg, s.id, s.regHeaders != []);
      ForServiceIff(p, s.id);
      if IsForService(p, s.id) {
        AppliedIff(s, p);
        ServicePassIs(With(s, p), reg[1..]);
        OneThenRest(s, reg);
      } else {
        ServicePassIs(s, reg[1..]);
        NoneThenRest(s, reg);
      }
    }
  }

  /** The services of a created configuration: one for each CoreService property in their order, each with the
      properties that name it taken into it. */
  lemma {:induction false} CreatedServices(reg: seq<Property>)
    requires CreatedFrom(FRESH, reg).ok
    ensures var t := TrimmedAll(reg);
      var services := CreatedFrom(FRESH, reg).config.services;
      && |services| == |Cores(t)|
      && forall i | 0 <= i < |services| :: |Cores(t)[i]| == 5 && services[i] == WithAll(NewService(Cores(t)[i]), t)
  {
    CreationComesApart(NO_PROPERTIES, reg);
    var t := TrimmedAll(reg);
    var services := NewServices(Cores(t));
    forall i | 0 <= i < |services| ensures ServicesAfter(services, t)[i] == WithAll(services[i], t) {
      ServicePassIs(services[i], t);
    }
  }

  /** A Qos property with a printed sending side gives the flow that was printed. */
  lemma {:induction false} PrintedFlowIsTaken(p: Property, q: Q.Qos)
    requires |p| == 5 && p[0] == "Qos" && q.Fits() && p[3] == Q.Printed(q)
    ensures FlowsIn(p) == [FlowSpec(p[2], q)]
  {
    Q.SetUndoesPrint(q, Q.Flow(0, 0, 0, 0, 0, 0, 0));
  }

  // ---------------------------------------------------------------- when creation succeeds

  predicate NamesDiffer(cores: seq<Property>)
    requires forall i | 0 <= i < |cores| :: |cores[i]| == 5
  {
    forall i, j | 0 <= i < j < |cores| :: Lower(cores[i][1]) != Lower(cores[j][1])
  }

  /** The CoreService properties are complete, have IARIs without flags, and their names differ ignoring case. */
  predicate GoodCores(cores: seq<Property>) {
    && (forall i | 0 <= i < |cores| :: |cores[i]| == 5 && IariAllowed(cores[i]))
    && NamesDiffer(cores)
  }

  /** A property about a service names one of them. */
  predicate NamesOne(cores: seq<Property>, p: Property) {
    |p| >= 2 && exists j | 0 <= j < |cores| :: |cores[j]| == 5 && Lower(cores[j][1]) == Lower(p[1])
  }

  predicate GoodServices(t: seq<Property>) {
    && GoodCores(Cores(t))
    && (forall i | 0 <= i < |t| && t[i] != [] && t[i][0] in {"Qos", "Reg", "Mprof", "Connection"} ::
          NamesOne(Cores(t), t[i]))
    && (forall j | 0 <= j < |Cores(t)| && |Cores(t)[j]| == 5 ::
          AllGoodFor(t, Cores(t)[j][1]) && HeadersOnce(t, Cores(t)[j][1], false))
  }

  /** Something is configured: some media, an event, or a service. */
  predicate HasSomething(t: seq<Property>) {
    var k := LastAt(t, "Event");
    || LastAt(t, "Stream") >= 0 || LastAt(t, "Framed") >= 0 || LastAt(t, "Basic") >= 0 || Cores(t) != []
    || (k >= 0 && |t[k]| == 2 && Tokens(t[k][1]) != [])
  }

  lemma {:induction false} DistinctIff(cores: seq<Property>)
    requires AllDescribed(cores)
    ensures Distinct(NewServices(cores)) <==> NamesDiffer(cores)
  {
    var services := NewServices(cores);
    if Distinct(services) {
      forall i, j | 0 <= i < j < |cores| ensures Lower(cores[i][1]) != Lower(cores[j][1]) {
        assert !EqualsIgnoreCase(services[i].id, services[j].id);
      }
    }
    if NamesDiffer(cores) {
      forall i, j | 0 <= i < j < |cores| ensures !EqualsIgnoreCase(services[i].id, services[j].id) {
        assert services[i].id == cores[i][1] && services[j].id == cores[j][1];
      }
    }
  }

  lemma {:induction false} GoodCoresIff(cores: seq<Property>)
    ensures CoresSucceed([], cores) <==> GoodCores(cores)
  {
    if AllDescribed(cores) {
      assert [] + NewServices(cores) == NewServices(cores);
      DistinctIff(cores);
    }
  }

  lemma {:induction false} NamesOneIff(cores: seq<Property>, p: Property)
    requires AllDescribed(cores)
    ensures SomeNamed(NewServices(cores), p) <==> NamesOne(cores, p)
  {
    assert forall i | 0 <= i < |cores| :: NewServices(cores)[i].id == cores[i][1];
    if j :| |p| >= 2 && 0 <= j < |cores| && |cores[j]| == 5 && Lower(cores[j][1]) == Lower(p[1]) {
      assert Names(p, NewServices(cores)[j].id);
    }
  }

  lemma {:induction false} AllNamedIff(cores: seq<Property>, t: seq<Property>)
    requires AllDescribed(cores) && AllKeyed(t)
    ensures AllNamed(NewServices(cores), t)
            <==> forall i | 0 <= i < |t| && t[i] != [] && t[i][0] in {"Qos", "Reg", "Mprof", "Connection"} ::
                   NamesOne(cores, t[i])
  {
    forall i | 0 <= i < |t|
      ensures IsRelated(t[i]) <==> t[i][0] in {"Qos", "Reg", "Mprof", "Connection"}
      ensures SomeNamed(NewServices(cores), t[i]) <==> NamesOne(cores, t[i]) {
      KeysOfServices(t[i]);
      NamesOneIff(cores, t[i]);
    }
  }

  lemma {:induction false} AllAppliedIff(cores: seq<Property>, t: seq<Property>)
    requires AllDescribed(cores) && AllKeyed(t)
    ensures AllApplied(NewServices(cores), t)
            <==> forall j | 0 <= j < |cores| && |cores[j]| == 5 ::
                   AllGoodFor(t, cores[j][1]) && HeadersOnce(t, cores[j][1], false)
  {
    var services := NewServices(cores);
    forall j | 0 <= j < |cores|
      ensures ServicePass(services[j], t).ok <==> AllGoodFor(t, cores[j][1]) && HeadersOnce(t, cores[j][1], false) {
      ServicePassOkIff(services[j], t);
      assert services[j].id == cores[j][1] && services[j].regHeaders == [];
    }
  }

  lemma {:induction false} GoodServicesIff(t: seq<Property>)
    requires AllKeyed(t)
    ensures CoresSucceed([], Cores(t)) && AllNamed(NewServices(Cores(t)), t) && AllApplied(NewServices(Cores(t)), t)
            <==> GoodServices(t)
  {
    GoodCoresIff(Cores(t));
    if AllDescribed(Cores(t)) {
      AllNamedIff(Cores(t), t);
      AllAppliedIff(Cores(t), t);
    }
  }

  lemma {:induction false} HasMandatoryIff(t: seq<Property>)
    requires AllKeyed(t) && EveryPartSucceeds(NO_PROPERTIES, t)
    ensures HasMandatory(FromParts(NO_PROPERTIES, t)) <==> HasSomething(t)
  {
    StreamAfter(NO_PROPERTIES, t);
    FramedAfter(NO_PROPERTIES, t);
    ListsAfter(NO_PROPERTIES, t);
  }

  /** Creation succeeds exactly when the keys are known and not repeated, each property of the application is good by
      itself, so are the services with the properties that name them, and there is something to configure. */
  lemma {:induction false} CreatedIff(reg: seq<Property>)
    ensures var t := TrimmedAll(reg);
      CreatedFrom(FRESH, reg).ok
      <==> GoodRegistry(reg) && (forall i | 0 <= i < |t| && IsOwn(t[i]) :: GoodOwn(t[i])) && GoodServices(t)
           && HasSomething(t)
  {
    CreationComesApart(NO_PROPERTIES, reg);
    if GoodRegistry(reg) {
      var t := TrimmedAll(reg);
      GoodIsKeyed(reg);
      OwnPassOkIff(NO_PROPERTIES, t);
      GoodServicesIff(t);
      if EveryPartSucceeds(NO_PROPERTIES, t) {
        HasMandatoryIff(t);
      }
    }
  }
}
