/** The ISIM provisioning machine as a step relation on values.

    A state holds the fields of the subscriber configuration that decide its
    behaviour, the queue of messages it has posted to itself and a log of what it
    did. An event is one call into the configuration from outside, or the delivery
    of the oldest queued message. What the ISIM, the timers and the carrier
    configuration answer during one step is the record `Answers`, chosen freely at
    every step. */
module Provisioning {
  import opened Lists

  datatype Mode = Init | InProvisioning | Refreshing | Provisioned

  /** The ISIM records, in the order they are read. */
  datatype Record = Impi | Impu | Domain | Ist | Pcscf

  const MANDATORY: set<Record> := {Impi, Impu, Domain}

  const READ_ORDER: seq<Record> := [Impi, Impu, Domain, Ist, Pcscf]

  datatype IsimState = IsimIdle | IsimInit | IsimReady | IsimRefreshing | IsimRefreshed

  datatype IsimError =
    | InitFailed | StartFailed | ReadFailed(what: Record) | ReadDenied | CardError | CardRemoved
    | RefreshRegFailed | ChannelError | RefreshError | NoIsimApplication

  datatype Message =
    | StartProvisioningMsg(refresh: bool)
    | ReadRecordMsg(answered: bool)
    | InitCompletedMsg
    | RefreshCompletedMsg
    | RefreshStartedMsg
    | NotifyErrorMsg(target: Option<nat>, noApplication: bool)
    | UpdateAllMsg
    | InitRetryTimerMsg(seconds: int)
    | StartRetryTimerMsg(seconds: int)
    | RecoveryMsg(seconds: int)
    | RefreshIsimMsg(enforce: bool)

  datatype ReadAnswer = ReadRefused | NoRecords | Accepted

  datatype Timer = InitTimer | StartTimer

  datatype Answers = Answers(
    found: bool,                  // the phone service has an ISIM
    initOk: bool,                 // IIsim::Init succeeds
    startOk: bool,                // IIsim::Start succeeds
    readyBefore: bool,            // IIsim::IsReady, asked by a refresh
    stateBefore: IsimState,       // IIsim::GetState, asked by a refresh
    ready: bool,                  // IIsim::IsReady, asked after Start
    state: IsimState,             // IIsim::GetState, asked after Start or before a read
    read: ReadAnswer,             // the answer to the one read request of a step
    timerCreated: bool,           // TimerService::CreateTimer gives a timer
    isimConfigured: bool)         // the carrier configuration asks for the ISIM

  datatype Event =
    | Begin                                   // the start message from the configuration manager
    | Deliver                                 // the oldest queued message
    | OnImpi | OnImpu | OnDomain              // record callbacks
    | OnIst(pcscfBit: Option<bool>)           // the service table; None when it is empty
    | OnPcscf
    | OnOtherField
    | OnError(error: IsimError)
    | OnStateChanged(state: IsimState)
    | TimerExpired(timer: Timer)
    | CarrierConfigChanged(ownSlot: bool)
    | Refresh
    | SetListener(listener: nat)
    | RemoveListener(listener: nat)
    | UpdateSubscriberAll
    | UpdateIsimAttribute(enabled: bool)

  /** Where a state change is made. */
  datatype Site =
    | AtReadRecord | AtRecovery | AtRefreshError | AtReadFrom | AtUpdateAll
    | AtCarrierChange | AtRefresh | AtError | AtStateChange

  datatype Effect =
    | Entered(from: Mode, to: Mode, via: Site, complete: bool)
    | ToldInitCompleted
    | ToldRefreshCompleted
    | ToldRefreshStarted
    | ToldError(listener: Option<nat>)
    | Requested(what: Record, got: set<Record>, configured: set<Record>)
    | ReadWithoutIsim                         // the read goes through a null ISIM
    | Armed(timer: Timer, seconds: int)
    | StartRetryPlanned(seconds: int)

  /** Where the reading of the ISIM records stands. */
  datatype Reading = Reading(pending: bool, configured: set<Record>, records: set<Record>, istPcscf: bool)

  /** Failed Init calls, rounds of failed Start calls, failed Start calls of this round. */
  datatype Retry = Retry(init: int, rounds: int, start: int)

  datatype State = State(
    mode: Mode,
    allowed: bool,
    isim: bool,
    attached: bool,
    error: Option<IsimError>,
    reading: Reading,
    retry: Retry,
    timers: set<Timer>,
    listeners: seq<nat>,
    queue: seq<Message>,
    log: seq<Effect>)

  /** The retry counters index interval tables, so they are kept in this range. */
  predicate InRange(c: Retry) {
    0 <= c.start <= 5 && 0 <= c.init && 0 <= c.rounds
  }

  predicate Complete(r: Reading) {
    r.configured <= r.records
  }

  const INIT_INTERVAL: seq<int> := [2, 2, 4, 8, 16, 32]
  const START_INTERVAL: seq<int> := [1, 1, 2, 2, 4]

  function InitDelay(failures: int): int
    requires 0 <= failures
  {
    if failures > 5 then 60 else INIT_INTERVAL[failures]
  }

  function StartDelay(failures: int): int
    requires 0 <= failures
  {
    if failures < 5 then START_INTERVAL[failures] else 10
  }

  // ---------------------------------------------------------------- small updates

  function Post(s: State, m: Message): State {
    s.(queue := s.queue + [m])
  }

  function Log(s: State, e: Effect): State {
    s.(log := s.log + [e])
  }

  function Move(s: State, to: Mode, via: Site): State {
    Log(s, Entered(s.mode, to, via, Complete(s.reading))).(mode := to)
  }

  function Tell(s: State, e: Effect): State {
    if s.listeners == [] then s else Log(s, e)
  }

  function Idle(r: Reading): Reading {
    r.(pending := false)
  }

  function Got(r: Reading, what: Record): Reading {
    r.(records := r.records + {what})
  }

  function Reset(r: Reading): Reading {
    r.(records := r.records - r.configured)
  }

  // ---------------------------------------------------------------- provisioning steps

  function InitProvisioning(s: State, a: Answers): (r: State)
    requires InRange(s.retry)
    ensures InRange(r.retry)
  {
    if !s.allowed then
      s.(retry := s.retry.(init := 0))
    else if s.isim then
      var s1 := s.(error := None, attached := a.found);
      if !a.found || a.initOk then
        s1
      else
        Post(s1.(retry := s.retry.(init := s.retry.init + 1)), InitRetryTimerMsg(InitDelay(s.retry.init)))
    else
      s
  }

  predicate BlocksRecovery(e: IsimError) {
    e == StartFailed || e == ReadFailed(Impi) || e == ReadFailed(Impu) || e == ReadFailed(Domain)
  }

  function Recover(s: State, e: IsimError): (r: State)
    ensures r.retry == s.retry
  {
    if BlocksRecovery(e)
       && !(s.error.Some? && BlocksRecovery(s.error.value))
       && s.mode == Refreshing
    then Move(s, Provisioned, AtRecovery)
    else s
  }

  /** The record the next read asks for. */
  function NextRecord(r: Reading): Option<Record> {
    if Impi !in r.records then Some(Impi)
    else if Impu !in r.records then Some(Impu)
    else if Domain !in r.records then Some(Domain)
    else if Ist in r.configured && Ist !in r.records then Some(Ist)
    else if Pcscf in r.configured && Pcscf !in r.records then Some(Pcscf)
    else None
  }

  /** The service table says that the ISIM holds no P-CSCF address. */
  predicate SkipsPcscf(r: Reading) {
    Ist in r.configured && !r.istPcscf
  }

  function ReadOne(s: State, what: Record, answer: ReadAnswer): (r: State)
    ensures r.retry == s.retry
  {
    var s1 := Log(s, Requested(what, s.reading.records, s.reading.configured));
    match answer
    case Accepted => s1.(reading := s.reading.(pending := true))
    case NoRecords => Post(s1.(reading := Got(s.reading, what)), ReadRecordMsg(false))
    case ReadRefused =>
      Post(Recover(s1, ReadFailed(what)).(error := Some(ReadFailed(what))), NotifyErrorMsg(None, false))
  }

  function ReadIsim(s: State, a: Answers): (r: State)
    ensures r.retry == s.retry
  {
    var next := NextRecord(s.reading);
    if s.reading.pending then
      s
    else if !s.attached then
      Log(s, ReadWithoutIsim)
    else if a.state != IsimReady || next.None? then
      s
    else if next.value == Pcscf && SkipsPcscf(s.reading) then
      Post(s.(reading := Got(s.reading, Pcscf)), ReadRecordMsg(false))
    else
      ReadOne(s, next.value, a.read)
  }

  function PlanStartRetry(s: State): (r: State)
    requires InRange(s.retry)
    ensures InRange(r.retry)
  {
    var interval := StartDelay(s.retry.start);
    if s.retry.start + 1 > 5 then
      var rounds := s.retry.rounds + 1;
      var seconds := if rounds > 6 then 60 else interval * rounds;
      Post(Log(s.(retry := Retry(1, rounds, 0)), StartRetryPlanned(seconds)), InitRetryTimerMsg(seconds))
    else
      Post(Log(s.(retry := s.retry.(start := s.retry.start + 1)), StartRetryPlanned(interval)),
           StartRetryTimerMsg(interval))
  }

  function StartProvisioning(s: State, a: Answers): (r: State)
    requires InRange(s.retry)
    ensures InRange(r.retry)
  {
    var s0 := s.(reading := Idle(s.reading));
    if !s.allowed || !s.isim || !s.attached then
      s0
    else if !a.startOk then
      if a.state == IsimInit || a.state == IsimRefreshed then PlanStartRetry(s0) else s0
    else
      var s1 := s0.(retry := s.retry.(rounds := 0));
      if !a.ready || Complete(s.reading) then s1 else ReadIsim(s1, a)
  }

  function RefreshIsim(s: State, enforce: bool, a: Answers): (r: State)
    requires InRange(s.retry)
    ensures InRange(r.retry)
  {
    if !s.isim then
      s
    else if !s.attached then
      InitProvisioning(s, a)
    else if a.readyBefore && (Complete(s.reading) || enforce) then
      var s1 := if enforce then s.(reading := Reading(false, MANDATORY, {}, false), error := None) else s;
      ReadIsim(s1.(reading := Reset(s1.reading)), a)
    else if a.stateBefore == IsimInit then
      StartProvisioning(s, a)
    else
      s
  }

  function ReadFrom(s: State, a: Answers): (r: State)
    ensures r.retry == s.retry
  {
    var s1 := s.(error := None, allowed := true, isim := a.isimConfigured);
    if !a.isimConfigured then Move(s1, Provisioned, AtReadFrom)
    else if s.mode == Refreshing then s1
    else Move(s1, InProvisioning, AtReadFrom)
  }

  function UpdateAllConfigs(s: State, enforce: bool, a: Answers): (r: State)
    ensures r.retry == s.retry
  {
    if a.isimConfigured then Post(ReadFrom(s, a), RefreshIsimMsg(enforce)) else ReadFrom(s, a)
  }

  // ---------------------------------------------------------------- messages

  function OnReadRecord(s: State, answered: bool, a: Answers): (r: State)
    ensures r.retry == s.retry
  {
    if !s.isim then
      s
    else if !Complete(s.reading) then
      ReadIsim(if answered then s.(reading := Idle(s.reading)) else s, a)
    else if s.mode == Provisioned then
      s
    else
      Tell(Move(s, Provisioned, AtReadRecord),
           if s.mode == InProvisioning then ToldInitCompleted else ToldRefreshCompleted)
  }

  function OnNotifyError(s: State, target: Option<nat>): State {
    if target.None? then Tell(s, ToldError(None))
    else if target.value in s.listeners then Log(s, ToldError(target))
    else s
  }

  function OnUpdateAll(s: State, a: Answers): (r: State)
    ensures r.retry == s.retry
  {
    var s1 := UpdateAllConfigs(Tell(Move(s, Refreshing, AtUpdateAll), ToldRefreshStarted), false, a);
    if a.isimConfigured then s1 else Post(s1, RefreshCompletedMsg)
  }

  function Arm(s: State, t: Timer, seconds: int, a: Answers): State {
    if a.timerCreated then Log(s, Armed(t, seconds)).(timers := s.timers + {t})
    else s.(timers := s.timers - {t})
  }

  function OnRecovery(s: State, seconds: int, a: Answers): (r: State)
    requires InRange(s.retry)
    ensures InRange(r.retry)
  {
    if seconds == 0 then InitProvisioning(s.(retry := s.retry.(init := 0, start := 0)), a)
    else Post(s.(retry := s.retry.(init := 1)), InitRetryTimerMsg(seconds))
  }

  function HandleMessage(s: State, m: Message, a: Answers): (r: State)
    requires InRange(s.retry)
    ensures InRange(r.retry)
  {
    match m
    case StartProvisioningMsg(_) => StartProvisioning(s, a)
    case ReadRecordMsg(answered) => OnReadRecord(s, answered, a)
    case InitCompletedMsg => Tell(s, ToldInitCompleted)
    case RefreshCompletedMsg => Tell(s, ToldRefreshCompleted)
    case RefreshStartedMsg => Tell(s, ToldRefreshStarted)
    case NotifyErrorMsg(target, _) => OnNotifyError(s, target)
    case UpdateAllMsg => OnUpdateAll(s, a)
    case InitRetryTimerMsg(seconds) => Arm(s, InitTimer, seconds, a)
    case StartRetryTimerMsg(seconds) => Arm(s, StartTimer, seconds, a)
    case RecoveryMsg(seconds) => OnRecovery(s, seconds, a)
    case RefreshIsimMsg(enforce) => RefreshIsim(s, enforce, a)
  }

  // ---------------------------------------------------------------- events

  function RecordRead(s: State, what: Record): State {
    Post(s.(reading := Got(Idle(s.reading), what)), ReadRecordMsg(true))
  }

  predicate LosesCard(e: IsimError) {
    e == StartFailed || e == CardError || e == CardRemoved
  }

  /** An error other than the three that leave the records alone. */
  function HandleReadError(s: State, e: IsimError): (r: State)
    ensures r.retry == s.retry
  {
    var s1 := s.(reading := Reset(Idle(s.reading)));
    if e == ReadDenied then
      s1
    else
      var s2 := if LosesCard(e) && s.mode != Provisioned then Move(s1, InProvisioning, AtError) else s1;
      Post(Recover(s2, e).(error := Some(e)), NotifyErrorMsg(None, e == NoIsimApplication))
  }

  function HandleError(s: State, e: IsimError): (r: State)
    ensures r.retry == s.retry
  {
    if !s.isim || e == RefreshRegFailed then s
    else if e == ChannelError then Post(s, RecoveryMsg(0))
    else if e == RefreshError then
      if s.mode == Refreshing then Move(s, Provisioned, AtRefreshError) else s
    else HandleReadError(s, e)
  }

  /** The ISIM has registered its client, possibly after a restart of the modem. */
  function OnIsimInit(s: State): (r: State)
    ensures r.retry == s.retry || r.retry == s.retry.(init := 0)
  {
    if s.mode == Refreshing && s.error != Some(NoIsimApplication) then
      s
    else
      var s1 := if s.mode == Provisioned
                then Post(Move(s.(reading := Reset(s.reading)), Refreshing, AtStateChange), RefreshStartedMsg)
                else s;
      Post(s1.(retry := s.retry.(init := 0), error := None, reading := Idle(s1.reading)),
           StartProvisioningMsg(s.mode == Provisioned))
  }

  function OnIsimRefreshing(s: State): (r: State)
    ensures r.retry == s.retry
  {
    var s1 := s.(error := None);
    Post(if s.mode == InProvisioning then s1 else Move(s1, Refreshing, AtStateChange), RefreshStartedMsg)
  }

  function OnIsimRefreshed(s: State): (r: State)
    ensures r.retry == s.retry.(start := 0)
  {
    var s1 := s.(retry := s.retry.(start := 0), error := None, reading := Idle(s.reading));
    var s2 := if s.mode == Provisioned
              then Post(Move(s1, Refreshing, AtStateChange), RefreshStartedMsg)
              else s1;
    Post(s2.(reading := Reset(s1.reading)), StartProvisioningMsg(true))
  }

  function HandleStateChanged(s: State, st: IsimState): (r: State)
    ensures InRange(s.retry) ==> InRange(r.retry)
  {
    if !s.isim then
      s
    else
      match st
      case IsimIdle => s
      case IsimInit => OnIsimInit(s)
      case IsimReady => Post(s.(retry := s.retry.(start := 0), error := None), ReadRecordMsg(false))
      case IsimRefreshing => OnIsimRefreshing(s)
      case IsimRefreshed => OnIsimRefreshed(s)
  }

  function HandleTimer(s: State, t: Timer, a: Answers): (r: State)
    requires InRange(s.retry)
    ensures InRange(r.retry)
  {
    if t !in s.timers then
      s
    else
      var s1 := s.(timers := s.timers - {t});
      match t
      case InitTimer => if s.retry.init > 0 then InitProvisioning(s1, a) else s1
      case StartTimer => if s.retry.start > 0 then StartProvisioning(s1, a) else s1
  }

  function HandleCarrierChange(s: State, a: Answers): (r: State)
    ensures r.retry == s.retry
  {
    var s1 := UpdateAllConfigs(s, s.mode == Provisioned, a);
    if s.mode == Provisioned then
      if a.isimConfigured then Tell(Move(s1, Refreshing, AtCarrierChange), ToldRefreshStarted) else s1
    else if s.mode == Init then
      s1
    else
      Move(s1, s.mode, AtCarrierChange)
  }

  function HandleRefresh(s: State, a: Answers): (r: State)
    ensures InRange(r.retry)
  {
    var s1 := s.(allowed := true, isim := true, error := None, reading := Reading(false, MANDATORY, {}, false),
                 retry := Retry(0, 0, 0), timers := {});
    UpdateAllConfigs(Move(s1, Init, AtRefresh), true, a)
  }

  function AddListener(s: State, l: nat): State {
    if l in s.listeners then
      s
    else
      var s1 := s.(listeners := s.listeners + [l]);
      if s.allowed && s.isim && s.error.Some? then Post(s1, NotifyErrorMsg(Some(l), false)) else s1
  }

  function Step(s: State, e: Event, a: Answers): (r: State)
    requires InRange(s.retry)
    ensures InRange(r.retry)
  {
    match e
    case Begin => InitProvisioning(s, a)
    case Deliver => if s.queue == [] then s else HandleMessage(s.(queue := s.queue[1..]), s.queue[0], a)
    case OnImpi => if s.isim then RecordRead(s, Impi) else s
    case OnImpu => if s.isim then RecordRead(s, Impu) else s
    case OnDomain => if s.isim then RecordRead(s, Domain) else s
    case OnIst(bit) =>
      RecordRead(if bit.Some? then s.(reading := s.reading.(istPcscf := bit.value)) else s, Ist)
    case OnPcscf => RecordRead(s, Pcscf)
    case OnOtherField => s
    case OnError(err) => HandleError(s, err)
    case OnStateChanged(st) => HandleStateChanged(s, st)
    case TimerExpired(t) => HandleTimer(s, t, a)
    case CarrierConfigChanged(own) => if own then HandleCarrierChange(s, a) else s
    case Refresh => HandleRefresh(s, a)
    case SetListener(l) => AddListener(s, l)
    case RemoveListener(l) => s.(listeners := Without(s.listeners, l))
    case UpdateSubscriberAll => Post(s, UpdateAllMsg)
    case UpdateIsimAttribute(enabled) => s.(isim := enabled)
  }

  /** The state left by the constructor, for a given set of configured records. */
  function Constructed(configured: set<Record>): State {
    State(Init, true, true, false, None, Reading(false, configured, {}, false), Retry(0, 0, 0), {}, [], [], [])
  }

  datatype Happening = Happening(event: Event, answers: Answers)

  function Run(s: State, hs: seq<Happening>): (r: State)
    requires InRange(s.retry)
    ensures InRange(r.retry)
    decreases hs
  {
    if hs == [] then s else Run(Step(s, hs[0].event, hs[0].answers), hs[1..])
  }

  lemma RunOne(s: State, h: Happening, hs: seq<Happening>)
    requires InRange(s.retry)
    ensures Run(s, [h] + hs) == Run(Step(s, h.event, h.answers), hs)
  {
    assert ([h] + hs)[1..] == hs;
  }

  lemma RunThree(s: State, h1: Happening, h2: Happening, h3: Happening)
    requires InRange(s.retry)
    ensures var s1 := Step(s, h1.event, h1.answers);
      var s2 := Step(s1, h2.event, h2.answers);
      Run(s, [h1, h2, h3]) == Step(s2, h3.event, h3.answers)
  {
    var s1 := Step(s, h1.event, h1.answers);
    var s2 := Step(s1, h2.event, h2.answers);
    RunOne(s, h1, [h2, h3]);
    RunOne(s1, h2, [h3]);
    RunOne(s2, h3, []);
    assert [h1] + [h2, h3] == [h1, h2, h3] && [h2] + [h3] == [h2, h3] && [h3] + [] == [h3];
  }
}
