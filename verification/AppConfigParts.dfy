/** Creating a configuration comes apart into one computation for each service and one for the application. */
module AppConfigParts {
  import opened Text
  import opened Lists
  import opened ImsProperties
  import opened CoreServices
  import opened AppConfigs
  import opened AppConfigOrders

  // ---------------------------------------------------------------- the parts

  predicate Names(p: Property, id: string) {
    |p| >= 2 && EqualsIgnoreCase(id, p[1])
  }

  /** What the properties that name one service make of it, on their own. */
  function ServicePass(s: Service, reg: seq<Property>): (r: Outcome)
    requires AllKeyed(reg)
    ensures r.service.id == s.id
    decreases reg
  {
    if reg == [] then Outcome(true, s)
    else if IsRelated(reg[0]) && Names(reg[0], s.id) then
      var r := Applied(s, reg[0]);
      if r.ok then ServicePass(r.service, reg[1..]) else r
    else ServicePass(s, reg[1..])
  }

  /** What the application's own properties make of it, on their own. */
  function OwnPass(o: Own, reg: seq<Property>): OwnResult
    requires AllKeyed(reg)
    decreases reg
  {
    if reg == [] then OwnResult(true, o)
    else if IsCore(reg[0]) || IsRelated(reg[0]) then OwnPass(o, reg[1..])
    else
      var r := AddOwn(o, reg[0]);
      if r.ok then OwnPass(r.own, reg[1..]) else r
  }

  predicate Distinct(services: seq<Service>) {
    forall i, j | 0 <= i < j < |services| :: !EqualsIgnoreCase(services[i].id, services[j].id)
  }

  predicate SomeNamed(services: seq<Service>, p: Property) {
    exists i | 0 <= i < |services| :: Names(p, services[i].id)
  }

  /** Every property about a service names one. */
  predicate AllNamed(services: seq<Service>, reg: seq<Property>) {
    forall i | 0 <= i < |reg| && IsRelated(reg[i]) :: SomeNamed(services, reg[i])
  }

  predicate AllApplied(services: seq<Service>, reg: seq<Property>)
    requires AllKeyed(reg)
  {
    forall i | 0 <= i < |services| :: ServicePass(services[i], reg).ok
  }

  function ServicesAfter(services: seq<Service>, reg: seq<Property>): (r: seq<Service>)
    requires AllKeyed(reg)
    ensures |r| == |services| && forall i | 0 <= i < |services| :: r[i] == ServicePass(services[i], reg).service
  {
    seq(|services|, i requires 0 <= i < |services| => ServicePass(services[i], reg).service)
  }

  predicate SameIds(s: seq<Service>, t: seq<Service>) {
    |s| == |t| && forall i | 0 <= i < |s| :: s[i].id == t[i].id
  }

  // ---------------------------------------------------------------- the second pass

  predicate PartsSucceed(c: Config, reg: seq<Property>)
    requires AllKeyed(reg)
  {
    OwnPass(c.own, reg).ok && AllNamed(c.services, reg) && AllApplied(c.services, reg)
  }

  lemma IndexIsTheOne(services: seq<Service>, p: Property)
    requires |p| >= 2 && Distinct(services)
    ensures var k := IndexOfService(services, p[1]);
      && (k < |services| <==> SomeNamed(services, p))
      && forall i | 0 <= i < |services| :: Names(p, services[i].id) <==> i == k
  {
    var k := IndexOfService(services, p[1]);
    if k < |services| {
      assert Names(p, services[k].id);
    }
    forall i | k < i < |services| ensures !Names(p, services[i].id) {
      assert !EqualsIgnoreCase(services[k].id, services[i].id);
    }
  }

  lemma NamedBySameIds(s: seq<Service>, t: seq<Service>, reg: seq<Property>)
    requires SameIds(s, t)
    ensures AllNamed(s, reg) <==> AllNamed(t, reg)
    ensures Distinct(s) <==> Distinct(t)
  {
    forall p ensures SomeNamed(s, p) <==> SomeNamed(t, p) {
      if i :| 0 <= i < |s| && Names(p, s[i].id) {
        assert Names(p, t[i].id);
      }
      if i :| 0 <= i < |t| && Names(p, t[i].id) {
        assert Names(p, s[i].id);
      }
    }
  }

  lemma NamedTail(services: seq<Service>, reg: seq<Property>)
    requires reg != []
    ensures AllNamed(services, reg)
       <==> (IsRelated(reg[0]) ==> SomeNamed(services, reg[0])) && AllNamed(services, reg[1..])
  {
    var rest := reg[1..];
    assert forall i | 0 < i < |reg| :: reg[i] == rest[i - 1];
  }

  /** A property about a service: the step for the one it names, nothing for the rest. */
  lemma RelatedStep(c: Config, reg: seq<Property>, k: nat)
    requires AllKeyed(reg) && reg != [] && IsRelated(reg[0]) && |reg[0]| >= 2
    requires Distinct(c.services) && k == IndexOfService(c.services, reg[0][1]) < |c.services|
    ensures !Applied(c.services[k], reg[0]).ok ==> !AllApplied(c.services, reg)
    ensures var after := c.services[k := Applied(c.services[k], reg[0]).service];
      && SameIds(c.services, after)
      && (Applied(c.services[k], reg[0]).ok ==>
            (AllApplied(c.services, reg) <==> AllApplied(after, reg[1..]))
            && ServicesAfter(c.services, reg) == ServicesAfter(after, reg[1..]))
  {
    IndexIsTheOne(c.services, reg[0]);
    var after := c.services[k := Applied(c.services[k], reg[0]).service];
    if Applied(c.services[k], reg[0]).ok {
      forall i | 0 <= i < |c.services| ensures ServicePass(c.services[i], reg) == ServicePass(after[i], reg[1..]) {
      }
    } else {
      assert !ServicePass(c.services[k], reg).ok;
    }
  }

  /** A property about something else leaves the services alone. */
  lemma UnrelatedStep(services: seq<Service>, reg: seq<Property>)
    requires AllKeyed(reg) && reg != [] && !IsRelated(reg[0])
    ensures AllApplied(services, reg) <==> AllApplied(services, reg[1..])
    ensures ServicesAfter(services, reg) == ServicesAfter(services, reg[1..])
  {
    forall i | 0 <= i < |services| ensures ServicePass(services[i], reg) == ServicePass(services[i], reg[1..]) {
    }
  }

  /** The second pass succeeds exactly when each part does, and then every part of the result is its own. */
  lemma {:induction false} SecondPassParts(c: Config, reg: seq<Property>)
    requires AllKeyed(reg) && Distinct(c.services)
    ensures SecondPass(c, reg).ok <==> PartsSucceed(c, reg)
    ensures SecondPass(c, reg).ok
      ==> SecondPass(c, reg).config == Config(OwnPass(c.own, reg).own, ServicesAfter(c.services, reg))
    decreases |reg|
  {
    if reg == [] {
      assert ServicesAfter(c.services, reg) == c.services;
    } else {
      var p, rest := reg[0], reg[1..];
      NamedTail(c.services, reg);
      var r := SecondStep(c, p);
      if IsRelated(p) {
        if |p| >= 2 {
          IndexIsTheOne(c.services, p);
        }
        var k := if |p| >= 2 then IndexOfService(c.services, p[1]) else |c.services|;
        if k < |c.services| {
          RelatedStep(c, reg, k);
          NamedBySameIds(c.services, r.config.services, rest);
          SecondPassParts(r.config, rest);
        }
      } else {
        UnrelatedStep(c.services, reg);
        SecondPassParts(r.config, rest);
      }
    }
  }

  // ---------------------------------------------------------------- the first pass

  predicate AllDescribed(cores: seq<Property>) {
    forall i | 0 <= i < |cores| :: |cores[i]| == 5 && IariAllowed(cores[i])
  }

  function NewServices(cores: seq<Property>): (r: seq<Service>)
    requires AllDescribed(cores)
    ensures |r| == |cores| && forall i | 0 <= i < |cores| :: r[i] == NewService(cores[i])
  {
    seq(|cores|, i requires 0 <= i < |cores| => NewService(cores[i]))
  }

  predicate OnlyCores(reg: seq<Property>) {
    forall i | 0 <= i < |reg| :: IsCore(reg[i])
  }

  lemma {:induction false} CoresAreOnlyCores(reg: seq<Property>)
    ensures OnlyCores(Cores(reg))
    decreases |reg|
  {
    if reg != [] {
      CoresAreOnlyCores(reg[1..]);
    }
  }

  lemma DistinctWithOne(services: seq<Service>, s: Service)
    requires Distinct(services)
    ensures Distinct(services + [s]) <==> IndexOfService(services, s.id) == |services|
  {
    var all := services + [s];
    var k := IndexOfService(services, s.id);
    if k < |services| {
      assert EqualsIgnoreCase(all[k].id, all[|services|].id);
    }
  }

  lemma DistinctPrefix(services: seq<Service>, more: seq<Service>)
    requires Distinct(services + more)
    ensures Distinct(services)
  {
    var all := services + more;
    forall i, j | 0 <= i < j < |services| ensures !EqualsIgnoreCase(services[i].id, services[j].id) {
      assert all[i] == services[i] && all[j] == services[j];
    }
  }

  lemma {:induction false} DescribedCons(p: Property, rest: seq<Property>)
    ensures AllDescribed([p] + rest) <==> |p| == 5 && IariAllowed(p) && AllDescribed(rest)
    ensures AllDescribed([p] + rest) ==> NewServices([p] + rest) == [NewService(p)] + NewServices(rest)
  {
    var all := [p] + rest;
    assert all[0] == p;
    assert forall i | 0 < i < |all| :: all[i] == rest[i - 1];
    assert forall i | 0 <= i < |rest| :: rest[i] == all[i + 1];
    if AllDescribed(all) {
      NewServicesCons(p, rest);
    }
  }

  lemma {:induction false} NewServicesCons(p: Property, rest: seq<Property>)
    requires AllDescribed([p] + rest) && AllDescribed(rest) && |p| == 5 && IariAllowed(p)
    ensures NewServices([p] + rest) == [NewService(p)] + NewServices(rest)
  {
    var all := [p] + rest;
    var l, r := NewServices(all), [NewService(p)] + NewServices(rest);
    forall i | 0 <= i < |l| ensures l[i] == r[i] {
      assert all[i] == if i == 0 then p else rest[i - 1];
    }
  }

  lemma ManyDistinct(services: seq<Service>, s: Service, more: seq<Service>)
    requires Distinct(services)
    ensures Distinct(services + [s] + more) ==> Distinct(services + [s])
    ensures Distinct(services + [s]) <==> IndexOfService(services, s.id) == |services|
  {
    var all := services + [s];
    DistinctWithOne(services, s);
    if Distinct(all + more) {
      DistinctPrefix(all, more);
    }
  }

  predicate CoresSucceed(services: seq<Service>, cores: seq<Property>) {
    AllDescribed(cores) && Distinct(services + NewServices(cores))
  }

  lemma CoresSucceedCons(services: seq<Service>, p: Property, rest: seq<Property>)
    requires Distinct(services)
    ensures CoresSucceed(services, [p] + rest)
       <==> IsNew(services, p) && Distinct(services + [NewService(p)]) && CoresSucceed(services + [NewService(p)], rest)
    ensures CoresSucceed(services, [p] + rest)
      ==> services + NewServices([p] + rest) == services + [NewService(p)] + NewServices(rest)
  {
    DescribedCons(p, rest);
    if |p| == 5 && IariAllowed(p) && AllDescribed(rest) {
      AppendAssociative(services, [NewService(p)], NewServices(rest));
      ManyDistinct(services, NewService(p), NewServices(rest));
    }
  }

  lemma FirstPassCore(c: Config, p: Property, rest: seq<Property>)
    requires IsCore(p)
    ensures FirstPass(c, [p] + rest)
         == if IsNew(c.services, p) then FirstPass(Config(c.own, c.services + [NewService(p)]), rest) else Result(false, c)
  {
    FirstPassCons(c, p, rest);
  }

  lemma NewIsDistinct(services: seq<Service>, p: Property)
    requires Distinct(services) && IsNew(services, p)
    ensures Distinct(services + [NewService(p)])
  {
    DistinctWithOne(services, NewService(p));
  }

  lemma {:induction false} FirstPassOfCores(c: Config, cores: seq<Property>)
    requires OnlyCores(cores) && Distinct(c.services)
    ensures FirstPass(c, cores).ok <==> CoresSucceed(c.services, cores)
    ensures FirstPass(c, cores).ok ==> FirstPass(c, cores).config == Config(c.own, c.services + NewServices(cores))
    decreases |cores|
  {
    if cores == [] {
      assert c.services + [] == c.services;
    } else {
      var p, rest := cores[0], cores[1..];
      assert cores == [p] + rest;
      FirstPassCore(c, p, rest);
      CoresSucceedCons(c.services, p, rest);
      if IsNew(c.services, p) {
        NewIsDistinct(c.services, p);
        FirstPassOfCores(Config(c.own, c.services + [NewService(p)]), rest);
      }
    }
  }

  // ---------------------------------------------------------------- the whole

  /** The configuration that the parts give. */
  function FromParts(own: Own, reg: seq<Property>): Config
    requires AllKeyed(reg) && AllDescribed(Cores(reg))
  {
    Config(OwnPass(own, reg).own, ServicesAfter(NewServices(Cores(reg)), reg))
  }

  /** Every part succeeds: the CoreService properties are well formed with different names, every property about
      a service names one of them and is accepted by it, and so are the application's own properties. */
  predicate EveryPartSucceeds(own: Own, reg: seq<Property>)
    requires AllKeyed(reg)
  {
    && CoresSucceed([], Cores(reg))
    && PartsSucceed(Config(own, NewServices(Cores(reg))), reg)
  }

  lemma {:induction false} PassesComeApart(own: Own, reg: seq<Property>)
    requires AllKeyed(reg)
    ensures BothPasses(Config(own, []), reg).ok <==> EveryPartSucceeds(own, reg) && HasMandatory(FromParts(own, reg))
    ensures BothPasses(Config(own, []), reg).ok
      ==> BothPasses(Config(own, []), reg).config == FromParts(own, reg)
  {
    var c, cores := Config(own, []), Cores(reg);
    FirstPassOnCores(c, reg);
    CoresAreOnlyCores(reg);
    FirstPassOfCores(c, cores);
    if CoresSucceed([], cores) {
      assert [] + NewServices(cores) == NewServices(cores);
      SecondPassParts(Config(own, NewServices(cores)), reg);
    }
  }

  /** Creation from a fresh configuration succeeds exactly when every part does and there is something to
      configure. Each service is then what its own property and the properties naming it make of it, and the
      rest is what the application's properties make of it. */
  lemma CreationComesApart(own: Own, reg: seq<Property>)
    ensures CreatedFrom(Config(own, []), reg).ok
       <==> GoodRegistry(reg) && AllKeyed(TrimmedAll(reg)) && EveryPartSucceeds(own, TrimmedAll(reg))
            && HasMandatory(FromParts(own, TrimmedAll(reg)))
    ensures CreatedFrom(Config(own, []), reg).ok
      ==> CreatedFrom(Config(own, []), reg).config == FromParts(own, TrimmedAll(reg))
  {
    if GoodRegistry(reg) {
      GoodIsKeyed(reg);
      PassesComeApart(own, TrimmedAll(reg));
    }
  }

  lemma PartsAreDistinct(own: Own, reg: seq<Property>)
    requires AllKeyed(reg) && EveryPartSucceeds(own, reg)
    ensures Distinct(FromParts(own, reg).services)
  {
    var services := NewServices(Cores(reg));
    assert [] + services == services;
    NamedBySameIds(services, ServicesAfter(services, reg), reg);
  }

  /** In a configuration that was created, no two services have the same name, ignoring case. */
  lemma ServiceNamesAreDistinct(own: Own, reg: seq<Property>)
    requires CreatedFrom(Config(own, []), reg).ok
    ensures Distinct(CreatedFrom(Config(own, []), reg).config.services)
  {
    CreationComesApart(own, reg);
    PartsAreDistinct(own, TrimmedAll(reg));
  }

  // ---------------------------------------------------------------- the application's own properties

  lemma {:induction false} StreamKeepsReadHeaders(o: Own, types: seq<string>)
    ensures StreamTypes(o, types).own.readHeaders == o.readHeaders
    decreases |types|
  {
    if types != [] {
      StreamKeepsReadHeaders(o.(audio := true), types[1..]);
      StreamKeepsReadHeaders(o.(video := true), types[1..]);
      StreamKeepsReadHeaders(o.(text := true), types[1..]);
    }
  }

  lemma {:induction false} SdpsKeepReadHeaders(o: Own, sector: Sector, message: MessageType, fields: seq<string>)
    ensures AddSdps(o, sector, message, fields).own.readHeaders == o.readHeaders
    decreases |fields|
  {
    if fields != [] {
      SdpsKeepReadHeaders(o.(capabilities := WithSdp(o.capabilities, sector, message, fields[0])), sector, message,
                          fields[1..]);
    }
  }

  lemma OwnKeepsReadHeadersDistinct(o: Own, k: PKey, p: Property)
    requires NoneTwice(o.readHeaders, false) && AddKeyed(o, k, p).ok
    ensures NoneTwice(AddKeyed(o, k, p).own.readHeaders, false)
  {
    match k {
      case Stream => StreamKeepsReadHeaders(o.(stream := true), Tokens(p[1]));
      case Cap => SdpsKeepReadHeaders(o, SectorOf(p[1]).value, MessageOf(p[2]).value, p[3..]);
      case _ =>
    }
  }

  lemma {:induction false} ReadHeadersStayDistinct(o: Own, reg: seq<Property>)
    requires AllKeyed(reg) && NoneTwice(o.readHeaders, false) && OwnPass(o, reg).ok
    ensures NoneTwice(OwnPass(o, reg).own.readHeaders, false)
    decreases |reg|
  {
    if reg != [] {
      var p, rest := reg[0], reg[1..];
      if IsCore(p) || IsRelated(p) {
        ReadHeadersStayDistinct(o, rest);
      } else {
        OwnKeepsReadHeadersDistinct(o, StringToKey(p[0]), p);
        ReadHeadersStayDistinct(AddOwn(o, p).own, rest);
      }
    }
  }

  /** A list of writable headers is never refused for repeating one, whatever was read before. */
  lemma RepeatedWriteHeadersAreAccepted(reg: seq<Property>, p: Property)
    requires AllKeyed(reg) && OwnPass(NO_PROPERTIES, reg).ok
    ensures AddWrite(OwnPass(NO_PROPERTIES, reg).own, p).ok <==> |p| == 2
  {
    ReadHeadersStayDistinct(NO_PROPERTIES, reg);
  }

  /** No two capabilities share a key. */
  predicate CapsDistinct(caps: seq<Capability>) {
    forall i, j | 0 <= i < j < |caps| :: !SameKey(caps[j], caps[i].sector, caps[i].message)
  }

  lemma SameKeySymmetric(c: Capability, d: Capability)
    ensures SameKey(c, d.sector, d.message) <==> SameKey(d, c.sector, c.message)
  {
  }

  /** An SDP field joins the capability with its key, so that there is at most one for each sector and single
      message, and at most one for both messages among all sectors. */
  lemma CapsStayDistinct(caps: seq<Capability>, sector: Sector, message: MessageType, field: string)
    requires CapsDistinct(caps)
    ensures var r := WithSdp(caps, sector, message, field);
      && CapsDistinct(r)
      && exists i | 0 <= i < |r| ::
           SameKey(r[i], sector, message) && r[i].fields != [] && r[i].fields[|r[i].fields| - 1] == field
  {
    var r := WithSdp(caps, sector, message, field);
    var k := IndexOfCap(caps, sector, message);
    assert SameKey(r[k], sector, message) && r[k].fields[|r[k].fields| - 1] == field;
    forall i, j | 0 <= i < j < |r| ensures !SameKey(r[j], r[i].sector, r[i].message) {
      if j == |caps| {
        SameKeySymmetric(r[j], caps[i]);
      } else {
        assert !SameKey(caps[j], caps[i].sector, caps[i].message);
      }
    }
  }
}
