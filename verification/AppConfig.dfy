/** The configuration of an application, created from a registry of properties in two passes. */
module AppConfigs {
  import opened Lists
  import opened Text
  import opened ImsProperties
  import opened CoreServices

  datatype Sector = Session | FramedSector | StreamAudio | StreamVideo

  datatype MessageType = Request | Response | RequestResponse

  datatype Capability = Capability(sector: Sector, message: MessageType, fields: seq<string>)

  /** The properties of the application itself. */
  datatype Own = Own(stream: bool, audio: bool, video: bool, text: bool,
                     framed: bool, framedTypes: seq<string>, hasMaxSize: bool, maxSize: nat,
                     basic: bool, basicTypes: seq<string>, events: seq<string>,
                     writeHeaders: seq<string>, readHeaders: seq<string>, capabilities: seq<Capability>)

  /** Those properties as they are after an attempt to add one. */
  datatype OwnResult = OwnResult(ok: bool, own: Own)

  datatype Config = Config(own: Own, services: seq<Service>)

  datatype Result = Result(ok: bool, config: Config)

  const NO_PROPERTIES := Own(false, false, false, false, false, [], false, 0, false, [], [], [], [], [])

  // ---------------------------------------------------------------- media, events and headers

  const AUDIO := "Audio"
  const VIDEO := "Video"
  const TEXT := "Text"

  function StreamTypes(o: Own, types: seq<string>): OwnResult
    decreases types
  {
    if types == [] then OwnResult(true, o)
    else if EqualsIgnoreCase(types[0], AUDIO) then StreamTypes(o.(audio := true), types[1..])
    else if EqualsIgnoreCase(types[0], VIDEO) then StreamTypes(o.(video := true), types[1..])
    else if EqualsIgnoreCase(types[0], TEXT) then StreamTypes(o.(text := true), types[1..])
    else OwnResult(false, o)
  }

  function AddStream(o: Own, p: Property): OwnResult {
    if |p| != 2 then OwnResult(false, o)
    else if !NoneTwice(Tokens(p[1]), true) then OwnResult(false, o.(stream := true))
    else StreamTypes(o.(stream := true), Tokens(p[1]))
  }

  /** A size that is no number takes the media types away again, but the support stays. */
  function AddFramed(o: Own, p: Property): OwnResult {
    if |p| != 3 then OwnResult(false, o)
    else if !NoneTwice(Tokens(p[1]), false) then OwnResult(false, o.(framedTypes := Tokens(p[1])))
    else
      var d := o.(framedTypes := Tokens(p[1]), framed := true);
      if p[2] == "" then OwnResult(true, d.(maxSize := 0, hasMaxSize := false))
      else
        match Q.ToUInt32(p[2])
        case Number(n) => OwnResult(true, d.(maxSize := n, hasMaxSize := true))
        case NotANumber => OwnResult(false, d.(maxSize := 0, framedTypes := []))
  }

  function AddBasic(o: Own, p: Property): OwnResult {
    if |p| != 2 then OwnResult(false, o)
    else
      var d := o.(basicTypes := Tokens(p[1]));
      if NoneTwice(Tokens(p[1]), false) then OwnResult(true, d.(basic := true)) else OwnResult(false, d)
  }

  function AddEvent(o: Own, p: Property): OwnResult {
    if |p| != 2 then OwnResult(false, o)
    else OwnResult(NoneTwice(Tokens(p[1]), true), o.(events := Tokens(p[1])))
  }

  /** The list that is checked for duplicates is the one of the readable headers. */
  function AddWrite(o: Own, p: Property): OwnResult {
    if |p| != 2 then OwnResult(false, o)
    else OwnResult(NoneTwice(o.readHeaders, false), o.(writeHeaders := Tokens(p[1])))
  }

  function AddRead(o: Own, p: Property): OwnResult {
    if |p| != 2 then OwnResult(false, o)
    else OwnResult(NoneTwice(Tokens(p[1]), false), o.(readHeaders := Tokens(p[1])))
  }

  // ---------------------------------------------------------------- capabilities

  function SectorOf(s: string): Option<Sector> {
    if s == "Session" then Some(Session) else if s == "Framed" then Some(FramedSector)
    else if s == "StreamAudio" then Some(StreamAudio) else if s == "StreamVideo" then Some(StreamVideo) else None
  }

  function MessageOf(s: string): Option<MessageType> {
    if s == "Req" then Some(Request) else if s == "Resp" then Some(Response)
    else if s == "Req_Resp" then Some(RequestResponse) else None
  }

  /** Capabilities of both messages share one key, whatever their sector. */
  predicate SameKey(c: Capability, sector: Sector, message: MessageType) {
    c.message == message && (message == RequestResponse || c.sector == sector)
  }

  function IndexOfCap(caps: seq<Capability>, sector: Sector, message: MessageType): (i: nat)
    ensures i <= |caps|
    ensures forall j | 0 <= j < i :: !SameKey(caps[j], sector, message)
    ensures i < |caps| ==> SameKey(caps[i], sector, message)
  {
    if caps == [] || SameKey(caps[0], sector, message) then 0 else IndexOfCap(caps[1..], sector, message) + 1
  }

  function WithSdp(caps: seq<Capability>, sector: Sector, message: MessageType, field: string): seq<Capability> {
    var i := IndexOfCap(caps, sector, message);
    if i < |caps| then caps[i := caps[i].(fields := caps[i].fields + [field])]
    else caps + [Capability(sector, message, [field])]
  }

  const SESSION_TYPES := "vosiuepcbtrzka"
  const MEDIA_TYPES := "micbka"

  predicate GoodSdp(sector: Sector, field: string) {
    |field| >= 2 && field[1] == '=' && field[0] in (if sector == Session then SESSION_TYPES else MEDIA_TYPES)
  }

  function AddSdps(o: Own, sector: Sector, message: MessageType, fields: seq<string>): OwnResult
    decreases fields
  {
    if fields == [] then OwnResult(true, o)
    else if !GoodSdp(sector, fields[0]) then OwnResult(false, o)
    else AddSdps(o.(capabilities := WithSdp(o.capabilities, sector, message, fields[0])), sector, message, fields[1..])
  }

  function AddCap(o: Own, p: Property): OwnResult {
    if |p| < 3 || SectorOf(p[1]).None? || MessageOf(p[2]).None? then OwnResult(false, o)
    else AddSdps(o, SectorOf(p[1]).value, MessageOf(p[2]).value, p[3..])
  }

  // ---------------------------------------------------------------- core services

  /** The first service of that name, ignoring case, or the length. */
  function IndexOfService(services: seq<Service>, id: string): (i: nat)
    ensures i <= |services|
    ensures forall j | 0 <= j < i :: !EqualsIgnoreCase(services[j].id, id)
    ensures i < |services| ==> EqualsIgnoreCase(services[i].id, id)
  {
    if services == [] || EqualsIgnoreCase(services[0].id, id) then 0 else IndexOfService(services[1..], id) + 1
  }

  predicate IsNew(services: seq<Service>, p: Property) {
    |p| == 5 && IndexOfService(services, p[1]) == |services| && IariAllowed(p)
  }

  function AddService(c: Config, p: Property): Result {
    if IsNew(c.services, p) then Result(true, c.(services := c.services + [NewService(p)])) else Result(false, c)
  }

  function AddRelated(c: Config, p: Property): Result {
    if |p| < 2 || IndexOfService(c.services, p[1]) == |c.services| then Result(false, c)
    else
      var i := IndexOfService(c.services, p[1]);
      var r := Applied(c.services[i], p);
      Result(r.ok, c.(services := c.services[i := r.service]))
  }

  // ---------------------------------------------------------------- the two passes

  predicate IsCore(p: Property) {
    p != [] && StringToKey(p[0]) == CoreService
  }

  predicate IsRelated(p: Property) {
    p != [] && StringToKey(p[0]) in {QosKey, Reg, Mprof, Connection}
  }

  function FirstStep(c: Config, p: Property): Result {
    if IsCore(p) then AddService(c, p) else Result(true, c)
  }

  function FirstPass(c: Config, reg: seq<Property>): Result
    decreases reg
  {
    if reg == [] then Result(true, c)
    else
      var r := FirstStep(c, reg[0]);
      if r.ok then FirstPass(r.config, reg[1..]) else r
  }

  /** A property of the application itself. */
  function AddOwn(o: Own, p: Property): OwnResult
    requires p != []
  {
    AddKeyed(o, StringToKey(p[0]), p)
  }

  function AddKeyed(o: Own, k: PKey, p: Property): OwnResult {
    match k
    case Stream => AddStream(o, p)
    case Framed => AddFramed(o, p)
    case Basic => AddBasic(o, p)
    case EventKey => AddEvent(o, p)
    case ReadKey => AddRead(o, p)
    case WriteKey => AddWrite(o, p)
    case Cap => AddCap(o, p)
    case _ => OwnResult(false, o)
  }

  function SecondStep(c: Config, p: Property): Result
    requires p != []
  {
    if IsCore(p) then Result(true, c) else if IsRelated(p) then AddRelated(c, p)
    else
      var r := AddOwn(c.own, p);
      Result(r.ok, c.(own := r.own))
  }

  predicate AllKeyed(reg: seq<Property>) {
    forall i | 0 <= i < |reg| :: reg[i] != []
  }

  function SecondPass(c: Config, reg: seq<Property>): Result
    requires AllKeyed(reg)
    decreases reg
  {
    if reg == [] then Result(true, c)
    else
      var r := SecondStep(c, reg[0]);
      if r.ok then SecondPass(r.config, reg[1..]) else r
  }

  lemma FirstPassStep(c: Config, reg: seq<Property>, i: nat)
    requires i < |reg|
    ensures FirstPass(c, reg[i..]) == (var r := FirstStep(c, reg[i]); if r.ok then FirstPass(r.config, reg[i + 1..]) else r)
  {
    assert reg[i..][0] == reg[i] && reg[i..][1..] == reg[i + 1..];
  }

  lemma SecondPassStep(c: Config, reg: seq<Property>, i: nat)
    requires AllKeyed(reg) && i < |reg|
    ensures SecondPass(c, reg[i..])
         == (var r := SecondStep(c, reg[i]); if r.ok then SecondPass(r.config, reg[i + 1..]) else r)
  {
    assert reg[i..][0] == reg[i] && reg[i..][1..] == reg[i + 1..];
  }

  predicate HasMandatory(c: Config) {
    c.own.stream || c.own.framed || c.own.basic || c.own.events != [] || c.services != []
  }

  function BothPasses(c: Config, reg: seq<Property>): Result
    requires AllKeyed(reg)
  {
    var r := FirstPass(c, reg);
    if !r.ok then r
    else
      var q := SecondPass(r.config, reg);
      if q.ok then Result(HasMandatory(q.config), q.config) else q
  }

  lemma GoodIsKeyed(reg: seq<Property>)
    requires GoodRegistry(reg)
    ensures AllKeyed(reg) && AllKeyed(TrimmedAll(reg))
  {
    forall i | 0 <= i < |reg| ensures reg[i] != [] {
      assert GoodAt(reg, i);
    }
  }

  function CreatedFrom(c: Config, reg: seq<Property>): Result {
    if !GoodRegistry(reg) then Result(false, c)
    else
      GoodIsKeyed(reg);
      BothPasses(c, TrimmedAll(reg))
  }

  // ---------------------------------------------------------------- the class

  function Views(services: seq<CoreServiceConfig>): (v: seq<Service>)
    reads services
    ensures |v| == |services|
  {
    if services == [] then [] else Views(services[..|services| - 1]) + [services[|services| - 1].View()]
  }

  lemma {:induction false} ViewsAt(services: seq<CoreServiceConfig>, i: nat)
    requires i < |services|
    ensures Views(services)[i] == services[i].View()
  {
    if i < |services| - 1 {
      ViewsAt(services[..|services| - 1], i);
    }
  }

  lemma {:induction false} ViewsAre(services: seq<CoreServiceConfig>, v: seq<Service>)
    requires |v| == |services| && forall i | 0 <= i < |services| :: v[i] == services[i].View()
    ensures Views(services) == v
    decreases |services|
  {
    if services != [] {
      ViewsAre(services[..|services| - 1], v[..|services| - 1]);
      assert v == v[..|services| - 1] + [v[|services| - 1]];
    }
  }

  lemma ViewsAppend(services: seq<CoreServiceConfig>, s: CoreServiceConfig)
    ensures Views(services + [s]) == Views(services) + [s.View()]
  {
    assert (services + [s])[..|services|] == services;
  }

  class AppConfig {
    var stream: bool
    var audio: bool
    var video: bool
    var text: bool
    var framed: bool
    var framedTypes: seq<string>
    var hasMaxSize: bool
    var maxSize: nat
    var basic: bool
    var basicTypes: seq<string>
    var events: seq<string>
    var writeHeaders: seq<string>
    var readHeaders: seq<string>
    var capabilities: seq<Capability>
    var services: seq<CoreServiceConfig>

    ghost predicate Valid()
      reads this
    {
      forall i, j | 0 <= i < j < |services| :: services[i] != services[j]
    }

    function OwnView(): Own
      reads this
    {
      Own(stream, audio, video, text, framed, framedTypes, hasMaxSize, maxSize, basic, basicTypes, events,
          writeHeaders, readHeaders, capabilities)
    }

    function View(): Config
      reads this, services
    {
      Config(OwnView(), Views(services))
    }

    constructor ()
      ensures Valid() && View() == Config(NO_PROPERTIES, []) && services == []
    {
      stream, audio, video, text, framed, hasMaxSize, basic := false, false, false, false, false, false, false;
      framedTypes, basicTypes, events, writeHeaders, readHeaders := [], [], [], [], [];
      maxSize := 0;
      capabilities := [];
      services := [];
    }

    method GetCoreServiceConfig(id: string) returns (found: CoreServiceConfig?, ghost index: nat)
      requires Valid()
      ensures index == IndexOfService(Views(services), id)
      ensures found == if IndexOfService(Views(services), id) < |services|
                       then services[IndexOfService(Views(services), id)] else null
    {
      for i := 0 to |services|
        invariant forall j | 0 <= j < i :: !EqualsIgnoreCase(Views(services)[j].id, id)
      {
        ViewsAt(services, i);
        if EqualsIgnoreCase(services[i].id, id) {
          return services[i], i;
        }
      }
      return null, |services|;
    }

    lemma AllViews() returns (v: seq<Service>)
      ensures v == Views(services) && forall i | 0 <= i < |services| :: v[i] == services[i].View()
    {
      v := Views(services);
      forall i | 0 <= i < |services| ensures v[i] == services[i].View() {
        ViewsAt(services, i);
      }
    }

    method IsKnown(id: string) returns (known: bool)
      requires Valid()
      ensures known <==> IndexOfService(Views(services), id) < |services|
    {
      var found, index := GetCoreServiceConfig(id);
      return found != null;
    }

    /** A service from a CoreService property, if there can be one. */
    method MakeService(p: Property) returns (service: CoreServiceConfig?)
      requires Valid()
      ensures service != null <==> IsNew(Views(services), p)
      ensures service != null ==> fresh(service) && service.View() == NewService(p)
      ensures Views(services) == old(Views(services))
    {
      if |p| != 5 {
        return null;
      }
      var known := IsKnown(p[1]);
      if known {
        return null;
      }
      var made := new CoreServiceConfig(p[1]);
      var ok := made.Create(p);
      return if ok then made else null;
    }

    method Append(service: CoreServiceConfig)
      requires Valid() && service !in services
      modifies `services
      ensures Valid() && services == old(services) + [service]
      ensures Views(services) == old(Views(services)) + [service.View()]
    {
      ViewsAppend(services, service);
      services := services + [service];
    }

    method AddCoreServiceProperty(p: Property) returns (ok: bool)
      requires Valid()
      modifies `services
      ensures Valid() && forall i | 0 <= i < |services| :: services[i] in old(services) || fresh(services[i])
      ensures ok <==> IsNew(old(Views(services)), p)
      ensures Views(services) == if ok then old(Views(services)) + [NewService(p)] else old(Views(services))
    {
      var service := MakeService(p);
      if service == null {
        return false;
      }
      Append(service);
      return true;
    }

    method AddCoreServiceRelatedProperty(p: Property) returns (ok: bool)
      requires Valid()
      modifies services
      ensures Result(ok, View()) == AddRelated(old(View()), p)
    {
      if |p| < 2 {
        return false;
      }
      var found, index := GetCoreServiceConfig(p[1]);
      if found == null {
        return false;
      }
      ghost var before := AllViews();
      ok := found.AddProperty(p);
      ViewsAre(services, before[index := found.View()]);
    }

    method SupportStreamTypes(types: seq<string>) returns (ok: bool)
      modifies `audio, `video, `text
      ensures OwnResult(ok, OwnView()) == StreamTypes(old(OwnView()), types)
    {
      for i := 0 to |types|
        invariant StreamTypes(OwnView(), types[i..]) == StreamTypes(old(OwnView()), types)
      {
        assert types[i..][0] == types[i] && types[i..][1..] == types[i + 1..];
        if EqualsIgnoreCase(types[i], AUDIO) {
          audio := true;
        } else if EqualsIgnoreCase(types[i], VIDEO) {
          video := true;
        } else if EqualsIgnoreCase(types[i], TEXT) {
          text := true;
        } else {
          return false;
        }
      }
      return true;
    }

    method AddStreamMediaProperty(p: Property) returns (ok: bool)
      modifies `stream, `audio, `video, `text
      ensures OwnResult(ok, OwnView()) == AddStream(old(OwnView()), p)
    {
      if |p| != 2 {
        return false;
      }
      stream := true;
      var types := Decode(p[1]);
      if |types| == 0 {
        return true;
      }
      var distinct := CheckDuplicate(types, true);
      if !distinct {
        return false;
      }
      ok := SupportStreamTypes(types);
    }

    method AddFramedMediaProperty(p: Property) returns (ok: bool)
      modifies `framed, `framedTypes, `hasMaxSize, `maxSize
      ensures OwnResult(ok, OwnView()) == AddFramed(old(OwnView()), p)
    {
      if |p| != 3 {
        return false;
      }
      framedTypes := Decode(p[1]);
      var distinct := CheckDuplicate(framedTypes, false);
      if !distinct {
        return false;
      }
      framed := true;
      if |p[2]| == 0 {
        maxSize := 0;
        hasMaxSize := false;
      } else {
        var size := Q.ToUInt32(p[2]);
        maxSize := if size.Number? then size.n else 0;
        if size.NotANumber? {
          framedTypes := [];
          return false;
        }
        hasMaxSize := true;
      }
      return true;
    }

    method AddBasicMediaProperty(p: Property) returns (ok: bool)
      modifies `basic, `basicTypes
      ensures OwnResult(ok, OwnView()) == AddBasic(old(OwnView()), p)
    {
      if |p| != 2 {
        return false;
      }
      basicTypes := Decode(p[1]);
      ok := CheckDuplicate(basicTypes, false);
      if ok {
        basic := true;
      }
    }

    method AddEventProperty(p: Property) returns (ok: bool)
      modifies `events
      ensures OwnResult(ok, OwnView()) == AddEvent(old(OwnView()), p)
    {
      if |p| != 2 {
        return false;
      }
      events := Decode(p[1]);
      ok := CheckDuplicate(events, true);
    }

    method AddWriteHeaderProperty(p: Property) returns (ok: bool)
      modifies `writeHeaders
      ensures OwnResult(ok, OwnView()) == AddWrite(old(OwnView()), p)
    {
      if |p| != 2 {
        return false;
      }
      writeHeaders := Decode(p[1]);
      ok := CheckDuplicate(readHeaders, false);
    }

    method AddReadHeaderProperty(p: Property) returns (ok: bool)
      modifies `readHeaders
      ensures OwnResult(ok, OwnView()) == AddRead(old(OwnView()), p)
    {
      if |p| != 2 {
        return false;
      }
      readHeaders := Decode(p[1]);
      ok := CheckDuplicate(readHeaders, false);
    }

    method AddCapabilitySdp(sector: Sector, message: MessageType, field: string)
      modifies `capabilities
      ensures capabilities == WithSdp(old(capabilities), sector, message, field)
    {
      for i := 0 to |capabilities|
        invariant capabilities == old(capabilities)
        invariant forall j | 0 <= j < i :: !SameKey(capabilities[j], sector, message)
      {
        if SameKey(capabilities[i], sector, message) {
          var c := capabilities[i];
          capabilities := capabilities[i := c.(fields := c.fields + [field])];
          return;
        }
      }
      capabilities := capabilities + [Capability(sector, message, [field])];
    }

    method AddCapabilityProperty(p: Property) returns (ok: bool)
      modifies `capabilities
      ensures OwnResult(ok, OwnView()) == AddCap(old(OwnView()), p)
    {
      if |p| < 3 {
        return false;
      }
      var sector := SectorOf(p[1]);
      if sector.None? {
        return false;
      }
      var message := MessageOf(p[2]);
      if message.None? {
        return false;
      }
      for i := 3 to |p|
        invariant AddSdps(OwnView(), sector.value, message.value, p[i..]) == AddCap(old(OwnView()), p)
      {
        assert p[i..][0] == p[i] && p[i..][1..] == p[i + 1..];
        if |p[i]| < 2 || p[i][1] != '=' {
          return false;
        }
        if p[i][0] !in (if sector.value == Session then SESSION_TYPES else MEDIA_TYPES) {
          return false;
        }
        AddCapabilitySdp(sector.value, message.value, p[i]);
      }
      return true;
    }

    method AddOwnProperty(p: Property) returns (ok: bool)
      requires p != []
      modifies `stream, `audio, `video, `text, `framed, `framedTypes, `hasMaxSize, `maxSize, `basic, `basicTypes,
               `events, `writeHeaders, `readHeaders, `capabilities
      ensures OwnResult(ok, OwnView()) == AddOwn(old(OwnView()), p)
    {
      var key := FindKey(p[0]);
      match key {
        case Stream => ok := AddStreamMediaProperty(p);
        case Framed => ok := AddFramedMediaProperty(p);
        case Basic => ok := AddBasicMediaProperty(p);
        case EventKey => ok := AddEventProperty(p);
        case ReadKey => ok := AddReadHeaderProperty(p);
        case WriteKey => ok := AddWriteHeaderProperty(p);
        case Cap => ok := AddCapabilityProperty(p);
        case _ => ok := false;
      }
    }

    method AddFirst(p: Property) returns (ok: bool)
      requires Valid() && p != []
      modifies `services
      ensures Valid() && forall i | 0 <= i < |services| :: services[i] in old(services) || fresh(services[i])
      ensures Result(ok, View()) == FirstStep(old(View()), p)
    {
      var key := FindKey(p[0]);
      ok := true;
      if key == CoreService {
        ok := AddCoreServiceProperty(p);
      }
    }

    method AddCoreServices(reg: seq<Property>) returns (ok: bool)
      requires Valid() && AllKeyed(reg)
      modifies `services
      ensures Valid() && forall i | 0 <= i < |services| :: services[i] in old(services) || fresh(services[i])
      ensures Result(ok, View()) == FirstPass(old(View()), reg)
    {
      for i := 0 to |reg|
        invariant Valid() && forall i | 0 <= i < |services| :: services[i] in old(services) || fresh(services[i])
        invariant FirstPass(View(), reg[i..]) == FirstPass(old(View()), reg)
      {
        FirstPassStep(View(), reg, i);
        ok := AddFirst(reg[i]);
        if !ok {
          return;
        }
      }
      return true;
    }

    method AddOther(p: Property) returns (ok: bool)
      requires Valid() && p != []
      modifies this, services
      ensures Valid() && services == old(services)
      ensures Result(ok, View()) == SecondStep(old(View()), p)
    {
      var key := FindKey(p[0]);
      if key == CoreService {
        ok := true;
      } else if key == QosKey || key == Reg || key == Mprof || key == Connection {
        ok := AddCoreServiceRelatedProperty(p);
      } else {
        ok := AddOwnProperty(p);
      }
    }

    method AddOthers(reg: seq<Property>) returns (ok: bool)
      requires Valid() && AllKeyed(reg)
      modifies this, services
      ensures Valid() && services == old(services)
      ensures Result(ok, View()) == SecondPass(old(View()), reg)
    {
      for i := 0 to |reg|
        invariant Valid() && services == old(services)
        invariant SecondPass(View(), reg[i..]) == SecondPass(old(View()), reg)
      {
        SecondPassStep(View(), reg, i);
        ok := AddOther(reg[i]);
        if !ok {
          return;
        }
      }
      return true;
    }

    method CheckMandatoryProperty() returns (ok: bool)
      ensures ok <==> HasMandatory(View())
    {
      if !stream && !framed && !basic && |events| == 0 && |services| == 0 {
        return false;
      }
      return true;
    }

    method Create(reg: seq<Property>) returns (ok: bool)
      requires Valid()
      modifies this, services
      ensures Valid() && forall i | 0 <= i < |services| :: services[i] in old(services) || fresh(services[i])
      ensures Result(ok, View()) == CreatedFrom(old(View()), reg)
    {
      var trimmed;
      ok, trimmed := TrimAndCheckProperties(reg);
      if !ok {
        return;
      }
      GoodIsKeyed(reg);
      ok := AddCoreServices(trimmed);
      if !ok {
        return;
      }
      ok := AddOthers(trimmed);
      if !ok {
        return;
      }
      ok := CheckMandatoryProperty();
    }
  }
}
