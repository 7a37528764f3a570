/** Each part of the state, and the steps that change it: the step relation seen from the fields instead of from the
    handlers. */
module ProvisioningEffects {
  import opened Lists
  import opened Provisioning

  // ---------------------------------------------------------------- where a step comes to read

  /** The reading with which a Start call comes to ask for a record. */
  function StartPoint(s: State, a: Answers): Option<Reading> {
    if s.allowed && s.isim && s.attached && a.startOk && a.ready && !Complete(s.reading) then Some(Idle(s.reading))
    else None
  }

  /** A refresh message makes the records due again: its own ones, or with `enforce` all of them. */
  predicate Renews(s: State, enforce: bool, a: Answers) {
    s.isim && s.attached && a.readyBefore && (Complete(s.reading) || enforce)
  }

  /** A refresh message comes to call Start. */
  predicate StartsInstead(s: State, enforce: bool, a: Answers) {
    s.isim && s.attached && !(a.readyBefore && (Complete(s.reading) || enforce)) && a.stateBefore == IsimInit
  }

  function Renewed(r: Reading, enforce: bool): Reading {
    if enforce then Reading(false, MANDATORY, {}, false) else r.(records := r.records - r.configured)
  }

  /** The reading with which a step comes to ask for a record, if it does. */
  function ReadPoint(s: State, h: Happening): Option<Reading> {
    match h.event
    case TimerExpired(t) =>
      if t == StartTimer && t in s.timers && s.retry.start > 0 then StartPoint(s, h.answers) else None
    case Deliver =>
      if s.queue == [] then None
      else (
        match s.queue[0]
        case StartProvisioningMsg(_) => StartPoint(s, h.answers)
        case ReadRecordMsg(answered) =>
          if s.isim && !Complete(s.reading) then Some(if answered then Idle(s.reading) else s.reading) else None
        case RefreshIsimMsg(enforce) =>
          if Renews(s, enforce, h.answers) then Some(Renewed(s.reading, enforce))
          else if StartsInstead(s, enforce, h.answers) then StartPoint(s, h.answers)
          else None
        case _ => None)
    case _ => None
  }

  /** The record that is tried there: the next one, with an ISIM that is ready and nothing out. */
  function Tried(p: Option<Reading>, attached: bool, a: Answers): Option<Record> {
    if p.Some? && !p.value.pending && attached && a.state == IsimReady then NextRecord(p.value) else None
  }

  /** The record is passed over, for the service table says that there is no P-CSCF address. */
  predicate PassedOver(p: Option<Reading>, attached: bool, a: Answers) {
    Tried(p, attached, a) == Some(Pcscf) && Ist in p.value.configured && !p.value.istPcscf
  }

  /** What the ISIM is asked for. */
  function Asked(p: Option<Reading>, attached: bool, a: Answers): Option<Record> {
    if PassedOver(p, attached, a) then None else Tried(p, attached, a)
  }

  // ---------------------------------------------------------------- the four functions that read

  /** The rest of the state, which reading does not touch. */
  predicate SameRest(s: State, r: State) {
    r.timers == s.timers && r.listeners == s.listeners && r.attached == s.attached && r.isim == s.isim
    && r.allowed == s.allowed
  }

  function ReadingFrom(p: Reading, attached: bool, a: Answers): Reading {
    var at := Some(p);
    if PassedOver(at, attached, a) then Got(p, Pcscf)
    else if Asked(at, attached, a).None? then p
    else
      match a.read
      case Accepted => p.(pending := true)
      case NoRecords => Got(p, Asked(at, attached, a).value)
      case ReadRefused => p
  }

  function ReadPosts(p: Option<Reading>, attached: bool, a: Answers): seq<Message> {
    if PassedOver(p, attached, a) then [ReadRecordMsg(false)]
    else if Asked(p, attached, a).None? || a.read == Accepted then []
    else if a.read == NoRecords then [ReadRecordMsg(false)]
    else [NotifyErrorMsg(None, false)]
  }

  predicate Refused(p: Option<Reading>, attached: bool, a: Answers) {
    Asked(p, attached, a).Some? && a.read == ReadRefused
  }

  lemma {:induction false} ReadOneDoes(s: State, what: Record, answer: ReadAnswer)
    ensures var r := ReadOne(s, what, answer);
      && r.reading == (match answer
                       case Accepted => s.reading.(pending := true)
                       case NoRecords => Got(s.reading, what)
                       case ReadRefused => s.reading)
      && r.queue == s.queue + (match answer
                               case Accepted => []
                               case NoRecords => [ReadRecordMsg(false)]
                               case ReadRefused => [NotifyErrorMsg(None, false)])
      && r.error == (if answer == ReadRefused then Some(ReadFailed(what)) else s.error)
      && r.retry == s.retry && SameRest(s, r)
  {
  }

  lemma {:induction false} ReadDoes(s: State, a: Answers)
    ensures var r := ReadIsim(s, a);
      var p := Some(s.reading);
      && r.reading == ReadingFrom(s.reading, s.attached, a)
      && r.queue == s.queue + ReadPosts(p, s.attached, a)
      && r.error == (if Refused(p, s.attached, a) then Some(ReadFailed(Asked(p, s.attached, a).value)) else s.error)
      && r.retry == s.retry && SameRest(s, r)
  {
    if Asked(Some(s.reading), s.attached, a).Some? {
      ReadOneDoes(s, Asked(Some(s.reading), s.attached, a).value, a.read);
    }
  }

  /** The fields as reading leaves them, from a reading with nothing decided yet. */
  predicate ReadsOn(s: State, r: State, p: Reading, a: Answers) {
    var at := Some(p);
    && r.reading == ReadingFrom(p, s.attached, a)
    && r.queue == s.queue + ReadPosts(at, s.attached, a)
    && r.error == (if Refused(at, s.attached, a) then Some(ReadFailed(Asked(at, s.attached, a).value)) else s.error)
    && SameRest(s, r)
  }

  /** Only the reading is what is given. */
  predicate OnlyReading(s: State, r: State, p: Reading) {
    r.reading == p && r.queue == s.queue && r.error == s.error && SameRest(s, r)
  }

  /** The counters and messages after a failed Start. */
  function Planned(c: Retry): Retry
    requires InRange(c)
  {
    if c.start == 5 then Retry(1, c.rounds + 1, 0) else Retry(c.init, c.rounds, c.start + 1)
  }

  function PlanMessage(c: Retry): Message
    requires InRange(c)
  {
    if c.start == 5 then InitRetryTimerMsg(if c.rounds + 1 > 6 then 60 else 10 * (c.rounds + 1))
    else StartRetryTimerMsg(if c.start <= 1 then 1 else if c.start <= 3 then 2 else 4)
  }

  lemma {:induction false} PlanDoes(s: State)
    requires InRange(s.retry)
    ensures var r := PlanStartRetry(s); AfterPlan(s, r) && r.reading == s.reading
  {
  }

  predicate AfterPlan(s: State, r: State)
    requires InRange(s.retry)
  {
    r.retry == Planned(s.retry) && r.error == s.error && SameRest(s, r) && r.queue == s.queue + [PlanMessage(s.retry)]
  }

  predicate AfterStart(s: State, r: State, a: Answers)
    requires InRange(s.retry)
  {
    var called := s.allowed && s.isim && s.attached;
    if called && !a.startOk && a.state in {IsimInit, IsimRefreshed} then
      AfterPlan(s, r) && r.reading == Idle(s.reading)
    else
      && r.retry == (if called && a.startOk then s.retry.(rounds := 0) else s.retry)
      && if StartPoint(s, a).Some? then ReadsOn(s, r, Idle(s.reading), a) else OnlyReading(s, r, Idle(s.reading))
  }

  lemma {:induction false} StartDoes(s: State, a: Answers)
    requires InRange(s.retry)
    ensures AfterStart(s, StartProvisioning(s, a), a)
  {
    var s0 := s.(reading := Idle(s.reading));
    PlanDoes(s0);
    ReadDoes(s0.(retry := s.retry.(rounds := 0)), a);
  }

  predicate AfterReadRecord(s: State, r: State, answered: bool, a: Answers) {
    && r.retry == s.retry
    && if s.isim && !Complete(s.reading) then ReadsOn(s, r, if answered then Idle(s.reading) else s.reading, a)
       else OnlyReading(s, r, s.reading)
  }

  lemma {:induction false} ReadRecordDoes(s: State, answered: bool, a: Answers)
    ensures AfterReadRecord(s, OnReadRecord(s, answered, a), answered, a)
  {
    ReadDoes(if answered then s.(reading := Idle(s.reading)) else s, a);
  }

  /** The delay after a failed Init, by the number of those before. */
  function InitSeconds(failures: int): int
    requires 0 <= failures
  {
    if failures < 6 then [2, 2, 4, 8, 16, 32][failures] else 60
  }

  /** The fields after looking for the ISIM and calling Init. */
  predicate Initialized(s: State, r: State, a: Answers)
    requires InRange(s.retry)
  {
    var fails := a.found && !a.initOk;
    && r.reading == s.reading && r.error == None && r.attached == a.found
    && r.timers == s.timers && r.listeners == s.listeners && r.isim == s.isim && r.allowed == s.allowed
    && r.retry == (if fails then s.retry.(init := s.retry.init + 1) else s.retry)
    && r.queue == s.queue + if fails then [InitRetryTimerMsg(InitSeconds(s.retry.init))] else []
  }

  predicate AfterInit(s: State, r: State, a: Answers)
    requires InRange(s.retry)
  {
    if !s.allowed then OnlyReading(s, r, s.reading) && r.retry == s.retry.(init := 0)
    else if !s.isim then OnlyReading(s, r, s.reading) && r.retry == s.retry
    else Initialized(s, r, a)
  }

  lemma {:induction false} InitDoes(s: State, a: Answers)
    requires InRange(s.retry)
    ensures AfterInit(s, InitProvisioning(s, a), a)
  {
  }

  predicate AfterRefreshIsim(s: State, r: State, enforce: bool, a: Answers)
    requires InRange(s.retry)
  {
    if s.isim && !s.attached then AfterInit(s, r, a)
    else if Renews(s, enforce, a) then
      ReadsOn(if enforce then s.(error := None) else s, r, Renewed(s.reading, enforce), a) && r.retry == s.retry
    else if StartsInstead(s, enforce, a) then AfterStart(s, r, a)
    else OnlyReading(s, r, s.reading) && r.retry == s.retry
  }

  lemma {:induction false} RefreshIsimDoes(s: State, enforce: bool, a: Answers)
    requires InRange(s.retry)
    ensures AfterRefreshIsim(s, RefreshIsim(s, enforce, a), enforce, a)
  {
    InitDoes(s, a);
    StartDoes(s, a);
    var s1 := if enforce then s.(reading := Reading(false, MANDATORY, {}, false), error := None) else s;
    ReadDoes(s1.(reading := Reset(s1.reading)), a);
  }

  predicate AfterLoad(s: State, r: State, enforce: bool, a: Answers) {
    && r.reading == s.reading && r.retry == s.retry && r.timers == s.timers && r.listeners == s.listeners
    && r.attached == s.attached && r.error == None && r.allowed && r.isim == a.isimConfigured
    && r.queue == s.queue + if a.isimConfigured then [RefreshIsimMsg(enforce)] else []
  }

  lemma {:induction false} LoadDoes(s: State, enforce: bool, a: Answers)
    ensures AfterLoad(s, UpdateAllConfigs(s, enforce, a), enforce, a)
  {
  }

  // ---------------------------------------------------------------- calls into the ISIM

  /** The step calls Start. */
  predicate CallsStart(s: State, h: Happening) {
    && s.allowed && s.isim && s.attached
    && match h.event
       case TimerExpired(t) => t == StartTimer && t in s.timers && s.retry.start > 0
       case Deliver =>
         s.queue != []
         && (s.queue[0].StartProvisioningMsg?
             || (s.queue[0].RefreshIsimMsg? && StartsInstead(s, s.queue[0].enforce, h.answers)))
       case _ => false
  }

  /** A failed Start that is tried again. */
  predicate FailsStart(s: State, h: Happening) {
    CallsStart(s, h) && !h.answers.startOk && h.answers.state in {IsimInit, IsimRefreshed}
  }

  /** The step looks for the ISIM and calls Init on one that it finds. */
  predicate LooksForIsim(s: State, h: Happening) {
    && s.allowed && s.isim
    && match h.event
       case Begin => true
       case TimerExpired(t) => t == InitTimer && t in s.timers && s.retry.init > 0
       case Deliver =>
         s.queue != [] && (s.queue[0] == RecoveryMsg(0) || (s.queue[0].RefreshIsimMsg? && !s.attached))
       case _ => false
  }

  predicate FailsInit(s: State, h: Happening) {
    LooksForIsim(s, h) && h.answers.found && !h.answers.initOk
  }

  // ---------------------------------------------------------------- records

  /** An error that makes the records be read again. */
  predicate IsReadError(e: IsimError) {
    e != RefreshRegFailed && e != ChannelError && e != RefreshError
  }

  /** The step makes the configured records due again. */
  predicate Forgets(s: State, h: Happening) {
    match h.event
    case OnError(e) => s.isim && IsReadError(e)
    case OnStateChanged(st) => s.isim && (st == IsimRefreshed || (st == IsimInit && s.mode == Provisioned))
    case Deliver => s.queue != [] && s.queue[0].RefreshIsimMsg? && Renews(s, s.queue[0].enforce, h.answers)
    case _ => false
  }

  /** The step forgets all records, and which ones were configured. */
  predicate StartsAfresh(s: State, h: Happening) {
    || h.event == Refresh
    || (h.event == Deliver && s.queue != [] && s.queue[0] == RefreshIsimMsg(true) && Renews(s, true, h.answers))
  }

  /** The record whose callback this is, if it is heard. */
  function Called(s: State, e: Event): Option<Record> {
    match e
    case OnImpi => if s.isim then Some(Impi) else None
    case OnImpu => if s.isim then Some(Impu) else None
    case OnDomain => if s.isim then Some(Domain) else None
    case OnIst(_) => Some(Ist)
    case OnPcscf => Some(Pcscf)
    case _ => None
  }

  /** The step sets the record: by its callback, because the ISIM holds none, or because it is passed over. */
  predicate Sets(s: State, h: Happening, x: Record) {
    var p := ReadPoint(s, h);
    || Called(s, h.event) == Some(x)
    || (x == Pcscf && PassedOver(p, s.attached, h.answers))
    || (Asked(p, s.attached, h.answers) == Some(x) && h.answers.read == NoRecords)
  }

  /** The INIT notice has an effect: not in a refresh, unless the ISIM had no application. */
  predicate HearsInit(s: State) {
    s.isim && (s.mode != Refreshing || s.error == Some(NoIsimApplication))
  }

  /** What was out is not waited for any more. */
  predicate GivesUpWaiting(s: State, h: Happening) {
    || Called(s, h.event).Some? || (Forgets(s, h) && h.event != Deliver) || StartsAfresh(s, h)
    || (h.event == OnStateChanged(IsimInit) && HearsInit(s))
    || (h.event == TimerExpired(StartTimer) && StartTimer in s.timers && s.retry.start > 0)
    || (h.event == Deliver && s.queue != []
        && match s.queue[0]
           case StartProvisioningMsg(_) => true
           case ReadRecordMsg(answered) => s.isim && !Complete(s.reading) && answered
           case RefreshIsimMsg(enforce) => StartsInstead(s, enforce, h.answers)
           case _ => false)
  }

  /** What the fields of the reading become. */
  predicate ReadingIs(s: State, h: Happening, r: Reading) {
    var p := ReadPoint(s, h);
    && (forall x: Record :: x in r.records <==>
          Sets(s, h, x) || (x in s.reading.records && !StartsAfresh(s, h)
                            && !(Forgets(s, h) && x in s.reading.configured)))
    && (r.pending <==>
          (Asked(p, s.attached, h.answers).Some? && h.answers.read == Accepted)
          || (s.reading.pending && !GivesUpWaiting(s, h) && !StartsAfresh(s, h)))
    && r.configured == (if StartsAfresh(s, h) then MANDATORY else s.reading.configured)
    && r.istPcscf == (if StartsAfresh(s, h) then false
                      else if h.event.OnIst? && h.event.pcscfBit.Some? then h.event.pcscfBit.value
                      else s.reading.istPcscf)
  }

  // ---------------------------------------------------------------- the error that stands

  /** The error that the step reports. */
  function Raised(s: State, h: Happening): Option<IsimError> {
    var p := ReadPoint(s, h);
    if h.event.OnError? then
      if s.isim && IsReadError(h.event.error) && h.event.error != ReadDenied then Some(h.event.error) else None
    else if Refused(p, s.attached, h.answers) then Some(ReadFailed(Asked(p, s.attached, h.answers).value))
    else None
  }

  /** The carrier configuration is loaded. */
  predicate Reloads(s: State, h: Happening) {
    || h.event == Refresh || h.event == CarrierConfigChanged(true)
    || (h.event == Deliver && s.queue != [] && s.queue[0] == UpdateAllMsg)
  }

  predicate ClearsError(s: State, h: Happening) {
    || LooksForIsim(s, h) || Reloads(s, h) || StartsAfresh(s, h)
    || (h.event == OnStateChanged(IsimInit) && HearsInit(s))
    || (h.event.OnStateChanged? && s.isim && h.event.state in {IsimReady, IsimRefreshing, IsimRefreshed})
  }

  predicate ErrorIs(s: State, h: Happening, r: State) {
    r.error == if Raised(s, h).Some? then Raised(s, h) else if ClearsError(s, h) then None else s.error
  }

  // ---------------------------------------------------------------- the counters

  /** The step takes a recovery message, at once or later. */
  predicate Recovers(s: State, h: Happening) {
    h.event == Deliver && s.queue != [] && s.queue[0].RecoveryMsg?
  }

  predicate RecoversAtOnce(s: State, h: Happening) {
    Recovers(s, h) && s.queue[0].seconds == 0
  }

  /** Init is due, but services are not allowed. */
  predicate IsDisallowed(s: State, h: Happening) {
    && !s.allowed
    && match h.event
       case Begin => true
       case TimerExpired(t) => t == InitTimer && t in s.timers && s.retry.init > 0
       case Deliver =>
         s.queue != [] && (s.queue[0] == RecoveryMsg(0) || (s.queue[0].RefreshIsimMsg? && s.isim && !s.attached))
       case _ => false
  }

  /** The count of failed Init calls before the step counts one. */
  function InitBase(s: State, h: Happening): int {
    if h.event == Refresh || RecoversAtOnce(s, h) || IsDisallowed(s, h)
       || (h.event == OnStateChanged(IsimInit) && HearsInit(s)) then 0
    else if Recovers(s, h) || (FailsStart(s, h) && s.retry.start == 5) then 1
    else s.retry.init
  }

  predicate CountersAre(s: State, h: Happening, r: Retry) {
    && r.init == InitBase(s, h) + (if FailsInit(s, h) then 1 else 0)
    && r.start == (if h.event == Refresh || RecoversAtOnce(s, h)
                      || (h.event.OnStateChanged? && s.isim && h.event.state in {IsimReady, IsimRefreshed}) then 0
                   else if FailsStart(s, h) then (if s.retry.start == 5 then 0 else s.retry.start + 1)
                   else s.retry.start)
    && r.rounds == (if h.event == Refresh || (CallsStart(s, h) && h.answers.startOk) then 0
                    else if FailsStart(s, h) && s.retry.start == 5 then s.retry.rounds + 1
                    else s.retry.rounds)
  }

  // ---------------------------------------------------------------- timers, listeners and flags

  /** The timer that a message asks for. */
  function TimerOf(m: Message): Option<Timer> {
    if m.InitRetryTimerMsg? then Some(InitTimer) else if m.StartRetryTimerMsg? then Some(StartTimer) else None
  }

  /** A timer runs when it was created now, or ran before and was not replaced, has not expired and was not stopped. */
  predicate TimersAre(s: State, h: Happening, timers: set<Timer>) {
    forall t: Timer ::
      var asked := h.event == Deliver && s.queue != [] && TimerOf(s.queue[0]) == Some(t);
      t in timers <==>
        if asked then h.answers.timerCreated
        else t in s.timers && h.event != TimerExpired(t) && h.event != Refresh
  }

  predicate ListenersAre(s: State, h: Happening, listeners: seq<nat>) {
    match h.event
    case SetListener(l) => listeners == if l in s.listeners then s.listeners else s.listeners + [l]
    case RemoveListener(l) => multiset(listeners) == multiset(s.listeners) - multiset{l}
    case _ => listeners == s.listeners
  }

  predicate FlagsAre(s: State, h: Happening, r: State) {
    && r.attached == (if LooksForIsim(s, h) then h.answers.found else s.attached)
    && r.allowed == (s.allowed || Reloads(s, h))
    && r.isim == (if Reloads(s, h) then h.answers.isimConfigured
                  else if h.event.UpdateIsimAttribute? then h.event.enabled
                  else s.isim)
  }

  // ---------------------------------------------------------------- messages

  /** The messages of events that neither call the ISIM nor read. */
  function OwnPosts(s: State, h: Happening): seq<Message> {
    var started := if s.mode == Provisioned then [RefreshStartedMsg] else [];
    match h.event
    case OnStateChanged(st) =>
      if !s.isim || st == IsimIdle || (st == IsimInit && !HearsInit(s)) then []
      else (
        match st
        case IsimReady => [ReadRecordMsg(false)]
        case IsimRefreshing => [RefreshStartedMsg]
        case IsimRefreshed => started + [StartProvisioningMsg(true)]
        case _ => started + [StartProvisioningMsg(s.mode == Provisioned)])
    case OnError(e) =>
      if !s.isim then []
      else if e == ChannelError then [RecoveryMsg(0)]
      else if IsReadError(e) && e != ReadDenied then [NotifyErrorMsg(None, e == NoIsimApplication)]
      else []
    case CarrierConfigChanged(own) =>
      if own && h.answers.isimConfigured then [RefreshIsimMsg(s.mode == Provisioned)] else []
    case Refresh => if h.answers.isimConfigured then [RefreshIsimMsg(true)] else []
    case SetListener(l) =>
      if l !in s.listeners && s.allowed && s.isim && s.error.Some? then [NotifyErrorMsg(Some(l), false)] else []
    case UpdateSubscriberAll => [UpdateAllMsg]
    case Deliver =>
      if s.queue != [] && s.queue[0] == UpdateAllMsg then
        if h.answers.isimConfigured then [RefreshIsimMsg(false)] else [RefreshCompletedMsg]
      else if Recovers(s, h) && s.queue[0].seconds != 0 then [InitRetryTimerMsg(s.queue[0].seconds)]
      else []
    case e => if Called(s, e).Some? then [ReadRecordMsg(true)] else []
  }

  function Posts(s: State, h: Happening): seq<Message>
    requires InRange(s.retry)
  {
    if FailsStart(s, h) then [PlanMessage(s.retry)]
    else if FailsInit(s, h) then [InitRetryTimerMsg(InitSeconds(if RecoversAtOnce(s, h) then 0 else s.retry.init))]
    else if ReadPoint(s, h).Some? then ReadPosts(ReadPoint(s, h), s.attached, h.answers)
    else OwnPosts(s, h)
  }

  function Left(s: State, h: Happening): seq<Message> {
    if h.event == Deliver && s.queue != [] then s.queue[1..] else s.queue
  }

  predicate StateIs(s: State, h: Happening, r: State)
    requires InRange(s.retry)
  {
    && ReadingIs(s, h, r.reading) && ErrorIs(s, h, r) && CountersAre(s, h, r.retry)
    && TimersAre(s, h, r.timers) && ListenersAre(s, h, r.listeners) && FlagsAre(s, h, r)
    && r.queue == Left(s, h) + Posts(s, h)
  }

  // ---------------------------------------------------------------- events other than messages

  predicate AfterError(s: State, e: IsimError, r: State) {
    && r.reading == (if s.isim && IsReadError(e) then Reset(Idle(s.reading)) else s.reading)
    && r.error == (if s.isim && IsReadError(e) && e != ReadDenied then Some(e) else s.error)
    && r.queue == s.queue + (if !s.isim then []
                             else if e == ChannelError then [RecoveryMsg(0)]
                             else if IsReadError(e) && e != ReadDenied then [NotifyErrorMsg(None, e == NoIsimApplication)]
                             else [])
    && r.retry == s.retry && SameRest(s, r)
  }

  lemma {:induction false} RecoverDoes(s: State, e: IsimError)
    ensures var r := Recover(s, e);
      r.reading == s.reading && r.queue == s.queue && r.error == s.error && r.retry == s.retry && SameRest(s, r)
  {
  }

  lemma {:induction false} ReadErrorDoes(s: State, e: IsimError)
    requires s.isim && IsReadError(e)
    ensures AfterError(s, e, HandleReadError(s, e))
  {
    var s1 := s.(reading := Reset(Idle(s.reading)));
    RecoverDoes(if LosesCard(e) && s.mode != Provisioned then Move(s1, InProvisioning, AtError) else s1, e);
  }

  lemma {:induction false} ErrorDoes(s: State, e: IsimError)
    ensures AfterError(s, e, HandleError(s, e))
  {
    if s.isim && IsReadError(e) {
      ReadErrorDoes(s, e);
    }
  }

  lemma {:induction false} ErrorFits(s: State, h: Happening, r: State)
    requires InRange(s.retry) && h.event.OnError? && AfterError(s, h.event.error, r)
    ensures StateIs(s, h, r)
  {
  }

  predicate AfterNotice(s: State, st: IsimState, r: State) {
    var started := if s.mode == Provisioned then [RefreshStartedMsg] else [];
    var heard := s.isim && st != IsimIdle && (st == IsimInit ==> HearsInit(s));
    && SameRest(s, r)
    && r.error == (if heard then None else s.error)
    && r.queue == s.queue + (if !heard then []
                             else if st == IsimReady then [ReadRecordMsg(false)]
                             else if st == IsimRefreshing then [RefreshStartedMsg]
                             else started + [StartProvisioningMsg(st == IsimRefreshed || s.mode == Provisioned)])
    && r.reading == (if !heard || st == IsimReady || st == IsimRefreshing then s.reading
                     else if st == IsimRefreshed || s.mode == Provisioned then Reset(Idle(s.reading))
                     else Idle(s.reading))
    && r.retry == (if !heard || st == IsimRefreshing then s.retry
                   else if st == IsimInit then s.retry.(init := 0) else s.retry.(start := 0))
  }

  lemma {:induction false} NoticeDoes(s: State, st: IsimState)
    ensures AfterNotice(s, st, HandleStateChanged(s, st))
  {
  }

  lemma {:induction false} NoticeFits(s: State, h: Happening, r: State)
    requires InRange(s.retry) && h.event.OnStateChanged? && AfterNotice(s, h.event.state, r)
    ensures StateIs(s, h, r)
  {
  }

  lemma {:induction false} BeginFits(s: State, h: Happening, r: State)
    requires InRange(s.retry) && h.event == Begin && AfterInit(s, r, h.answers)
    ensures StateIs(s, h, r)
  {
  }

  lemma {:induction false} InitTimerFits(s: State, h: Happening, r: State)
    requires InRange(s.retry) && h.event == TimerExpired(InitTimer)
    requires var s1 := s.(timers := s.timers - {InitTimer});
      if InitTimer in s.timers && s.retry.init > 0 then AfterInit(s1, r, h.answers) else r == s1
    ensures StateIs(s, h, r)
  {
  }

  lemma {:induction false} StartTimerFits(s: State, h: Happening, r: State)
    requires InRange(s.retry) && h.event == TimerExpired(StartTimer)
    requires var s1 := s.(timers := s.timers - {StartTimer});
      if StartTimer in s.timers && s.retry.start > 0 then AfterStart(s1, r, h.answers) else r == s1
    ensures StateIs(s, h, r)
  {
  }

  lemma {:induction false} CallbackFits(s: State, h: Happening, r: State)
    requires InRange(s.retry) && Called(s, h.event).Some?
    requires var p := if h.event.OnIst? && h.event.pcscfBit.Some?
                      then s.reading.(istPcscf := h.event.pcscfBit.value) else s.reading;
      r.reading == Got(Idle(p), Called(s, h.event).value)
    requires r.queue == s.queue + [ReadRecordMsg(true)] && r.error == s.error && r.retry == s.retry && SameRest(s, r)
    ensures StateIs(s, h, r)
  {
  }

  lemma {:induction false} LoadFits(s: State, h: Happening, r: State)
    requires InRange(s.retry) && h.event == CarrierConfigChanged(true)
    requires AfterLoad(s, r, s.mode == Provisioned, h.answers)
    ensures StateIs(s, h, r)
  {
  }

  lemma {:induction false} RefreshFits(s: State, h: Happening, r: State)
    requires InRange(s.retry) && h.event == Refresh
    requires AfterLoad(s.(reading := Reading(false, MANDATORY, {}, false), retry := Retry(0, 0, 0), timers := {}), r, true,
                       h.answers)
    ensures StateIs(s, h, r)
  {
  }

  /** An event that leaves everything but the list it names. */
  lemma {:induction false} ListenerFits(s: State, h: Happening, r: State)
    requires InRange(s.retry)
    requires match h.event
      case SetListener(l) =>
        && r.listeners == (if l in s.listeners then s.listeners else s.listeners + [l])
        && r.queue == s.queue + if l !in s.listeners && s.allowed && s.isim && s.error.Some?
                                then [NotifyErrorMsg(Some(l), false)] else []
      case RemoveListener(l) =>
        multiset(r.listeners) == multiset(s.listeners) - multiset{l} && r.queue == s.queue
      case _ => false
    requires OnlyReading(s, r.(listeners := s.listeners, queue := s.queue), s.reading) && r.retry == s.retry
    ensures StateIs(s, h, r)
  {
  }

  lemma {:induction false} RequestFits(s: State, h: Happening, r: State)
    requires InRange(s.retry)
    requires match h.event
      case UpdateSubscriberAll => r == s.(queue := s.queue + [UpdateAllMsg])
      case UpdateIsimAttribute(enabled) => r == s.(isim := enabled)
      case OnOtherField => r == s
      case CarrierConfigChanged(own) => !own && r == s
      case Deliver => s.queue == [] && r == s
      case e => (e.OnImpi? || e.OnImpu? || e.OnDomain?) && !s.isim && r == s
    ensures StateIs(s, h, r)
  {
  }

  // ---------------------------------------------------------------- messages

  predicate Delivers(s: State, h: Happening, t: State) {
    h.event == Deliver && s.queue != [] && t == s.(queue := s.queue[1..])
  }

  lemma {:induction false} StartMessageFits(s: State, h: Happening, t: State, r: State)
    requires InRange(s.retry) && Delivers(s, h, t) && s.queue[0].StartProvisioningMsg? && AfterStart(t, r, h.answers)
    ensures StateIs(s, h, r)
  {
  }

  lemma {:induction false} ReadMessageFits(s: State, h: Happening, t: State, r: State)
    requires InRange(s.retry) && Delivers(s, h, t) && s.queue[0].ReadRecordMsg?
    requires AfterReadRecord(t, r, s.queue[0].answered, h.answers)
    ensures StateIs(s, h, r)
  {
  }

  lemma {:induction false} RenewalFits(s: State, h: Happening, t: State, r: State)
    requires InRange(s.retry) && Delivers(s, h, t) && s.queue[0].RefreshIsimMsg?
    requires var enforce := s.queue[0].enforce;
      && Renews(t, enforce, h.answers) && r.retry == t.retry
      && ReadsOn(if enforce then t.(error := None) else t, r, Renewed(t.reading, enforce), h.answers)
    ensures StateIs(s, h, r)
  {
  }

  lemma {:induction false} StartInsteadFits(s: State, h: Happening, t: State, r: State)
    requires InRange(s.retry) && Delivers(s, h, t) && s.queue[0].RefreshIsimMsg?
    requires StartsInstead(t, s.queue[0].enforce, h.answers) && AfterStart(t, r, h.answers)
    ensures StateIs(s, h, r)
  {
  }

  lemma {:induction false} LookingFits(s: State, h: Happening, t: State, r: State)
    requires InRange(s.retry) && Delivers(s, h, t) && s.queue[0].RefreshIsimMsg?
    requires !Renews(t, s.queue[0].enforce, h.answers) && !StartsInstead(t, s.queue[0].enforce, h.answers)
    requires if t.isim && !t.attached then AfterInit(t, r, h.answers)
             else OnlyReading(t, r, t.reading) && r.retry == t.retry
    ensures StateIs(s, h, r)
  {
  }

  lemma {:induction false} RefreshMessageFits(s: State, h: Happening, t: State, r: State)
    requires InRange(s.retry) && Delivers(s, h, t) && s.queue[0].RefreshIsimMsg?
    requires AfterRefreshIsim(t, r, s.queue[0].enforce, h.answers)
    ensures StateIs(s, h, r)
  {
    if Renews(t, s.queue[0].enforce, h.answers) {
      RenewalFits(s, h, t, r);
    } else if StartsInstead(t, s.queue[0].enforce, h.answers) {
      StartInsteadFits(s, h, t, r);
    } else {
      LookingFits(s, h, t, r);
    }
  }

  lemma {:induction false} UpdateMessageFits(s: State, h: Happening, t: State, r: State)
    requires InRange(s.retry) && Delivers(s, h, t) && s.queue[0] == UpdateAllMsg
    requires var q := if h.answers.isimConfigured then r.queue else t.queue;
      && AfterLoad(t, r.(queue := q), false, h.answers)
      && (!h.answers.isimConfigured ==> r.queue == t.queue + [RefreshCompletedMsg])
    ensures StateIs(s, h, r)
  {
  }

  lemma {:induction false} RecoveryMessageFits(s: State, h: Happening, t: State, r: State)
    requires InRange(s.retry) && Delivers(s, h, t) && s.queue[0].RecoveryMsg?
    requires var seconds := s.queue[0].seconds;
      if seconds == 0 then AfterInit(t.(retry := t.retry.(init := 0, start := 0)), r, h.answers)
      else r == Post(t.(retry := t.retry.(init := 1)), InitRetryTimerMsg(seconds))
    ensures StateIs(s, h, r)
  {
  }

  lemma {:induction false} TimerMessageFits(s: State, h: Happening, t: State, r: State)
    requires InRange(s.retry) && Delivers(s, h, t) && TimerOf(s.queue[0]).Some?
    requires var timer := TimerOf(s.queue[0]).value;
      r.timers == if h.answers.timerCreated then t.timers + {timer} else t.timers - {timer}
    requires OnlyReading(t, r.(timers := t.timers), t.reading) && r.retry == t.retry
    ensures StateIs(s, h, r)
  {
  }

  lemma {:induction false} NoticeMessageFits(s: State, h: Happening, t: State, r: State)
    requires InRange(s.retry) && Delivers(s, h, t)
    requires var m := s.queue[0]; m.InitCompletedMsg? || m.RefreshCompletedMsg? || m.RefreshStartedMsg? || m.NotifyErrorMsg?
    requires OnlyReading(t, r, t.reading) && r.retry == t.retry
    ensures StateIs(s, h, r)
  {
  }

  // ---------------------------------------------------------------- all steps

  lemma {:induction false} ReadingMessageIs(s: State, h: Happening, t: State)
    requires InRange(s.retry) && Delivers(s, h, t)
    requires var m := s.queue[0]; m.StartProvisioningMsg? || m.ReadRecordMsg? || m.RefreshIsimMsg?
    ensures StateIs(s, h, HandleMessage(t, s.queue[0], h.answers))
  {
    var r := HandleMessage(t, s.queue[0], h.answers);
    match s.queue[0]
    case StartProvisioningMsg(_) =>
      StartDoes(t, h.answers);
      StartMessageFits(s, h, t, r);
    case ReadRecordMsg(answered) =>
      ReadRecordDoes(t, answered, h.answers);
      ReadMessageFits(s, h, t, r);
    case RefreshIsimMsg(enforce) =>
      RefreshIsimDoes(t, enforce, h.answers);
      RefreshMessageFits(s, h, t, r);
  }

  lemma {:induction false} LoadingMessageIs(s: State, h: Happening, t: State)
    requires InRange(s.retry) && Delivers(s, h, t)
    requires var m := s.queue[0]; m == UpdateAllMsg || m.RecoveryMsg?
    ensures StateIs(s, h, HandleMessage(t, s.queue[0], h.answers))
  {
    var r := HandleMessage(t, s.queue[0], h.answers);
    match s.queue[0]
    case UpdateAllMsg =>
      LoadDoes(Tell(Move(t, Refreshing, AtUpdateAll), ToldRefreshStarted), false, h.answers);
      UpdateMessageFits(s, h, t, r);
    case RecoveryMsg(_) =>
      InitDoes(t.(retry := t.retry.(init := 0, start := 0)), h.answers);
      RecoveryMessageFits(s, h, t, r);
  }

  lemma {:induction false} TimerMessageIs(s: State, h: Happening, t: State)
    requires InRange(s.retry) && Delivers(s, h, t) && TimerOf(s.queue[0]).Some?
    ensures StateIs(s, h, HandleMessage(t, s.queue[0], h.answers))
  {
    TimerMessageFits(s, h, t, HandleMessage(t, s.queue[0], h.answers));
  }

  lemma {:induction false} NoticeMessageIs(s: State, h: Happening, t: State)
    requires InRange(s.retry) && Delivers(s, h, t)
    requires var m := s.queue[0]; m.InitCompletedMsg? || m.RefreshCompletedMsg? || m.RefreshStartedMsg? || m.NotifyErrorMsg?
    ensures StateIs(s, h, HandleMessage(t, s.queue[0], h.answers))
  {
    NoticeMessageFits(s, h, t, HandleMessage(t, s.queue[0], h.answers));
  }

  lemma {:induction false} MessageIs(s: State, h: Happening, t: State)
    requires InRange(s.retry) && Delivers(s, h, t)
    ensures StateIs(s, h, HandleMessage(t, s.queue[0], h.answers))
  {
    var m := s.queue[0];
    if m.StartProvisioningMsg? || m.ReadRecordMsg? || m.RefreshIsimMsg? {
      ReadingMessageIs(s, h, t);
    } else if m == UpdateAllMsg || m.RecoveryMsg? {
      LoadingMessageIs(s, h, t);
    } else if TimerOf(m).Some? {
      TimerMessageIs(s, h, t);
    } else {
      NoticeMessageIs(s, h, t);
    }
  }

  lemma {:induction false} NoticeOrErrorIs(s: State, h: Happening)
    requires InRange(s.retry) && (h.event.OnError? || h.event.OnStateChanged?)
    ensures StateIs(s, h, Step(s, h.event, h.answers))
  {
    match h.event
    case OnError(e) =>
      ErrorDoes(s, e);
      ErrorFits(s, h, HandleError(s, e));
    case OnStateChanged(st) =>
      NoticeDoes(s, st);
      NoticeFits(s, h, HandleStateChanged(s, st));
  }

  lemma {:induction false} LoadingIs(s: State, h: Happening)
    requires InRange(s.retry) && (h.event == Refresh || h.event == CarrierConfigChanged(true))
    ensures StateIs(s, h, Step(s, h.event, h.answers))
  {
    var r := Step(s, h.event, h.answers);
    if h.event == Refresh {
      var s1 := s.(allowed := true, isim := true, error := None, reading := Reading(false, MANDATORY, {}, false),
                   retry := Retry(0, 0, 0), timers := {});
      LoadDoes(Move(s1, Init, AtRefresh), true, h.answers);
      RefreshFits(s, h, r);
    } else {
      LoadDoes(s, s.mode == Provisioned, h.answers);
      LoadFits(s, h, r);
    }
  }

  lemma {:induction false} TimerIs(s: State, h: Happening)
    requires InRange(s.retry) && h.event.TimerExpired?
    ensures StateIs(s, h, Step(s, h.event, h.answers))
  {
    var t, r := h.event.timer, Step(s, h.event, h.answers);
    var s1 := s.(timers := s.timers - {t});
    InitDoes(s1, h.answers);
    StartDoes(s1, h.answers);
    assert t !in s.timers ==> s1 == s;
    match t
    case InitTimer => InitTimerFits(s, h, r);
    case StartTimer => StartTimerFits(s, h, r);
  }

  lemma {:induction false} ListenerIs(s: State, h: Happening)
    requires InRange(s.retry) && (h.event.SetListener? || h.event.RemoveListener?)
    ensures StateIs(s, h, Step(s, h.event, h.answers))
  {
    if h.event.RemoveListener? {
      WithoutEntries(s.listeners, h.event.listener);
    }
    ListenerFits(s, h, Step(s, h.event, h.answers));
  }

  lemma {:induction false} CallIs(s: State, h: Happening)
    requires InRange(s.retry)
    requires var e := h.event; !(e.OnError? || e.OnStateChanged? || e.TimerExpired? || e == Refresh || e == Deliver)
    ensures StateIs(s, h, Step(s, h.event, h.answers))
  {
    var e, r := h.event, Step(s, h.event, h.answers);
    if e == Begin {
      InitDoes(s, h.answers);
      BeginFits(s, h, r);
    } else if e.SetListener? || e.RemoveListener? {
      ListenerIs(s, h);
    } else if e == CarrierConfigChanged(true) {
      LoadingIs(s, h);
    } else if Called(s, e).Some? {
      CallbackFits(s, h, r);
    } else {
      RequestFits(s, h, r);
    }
  }

  /** Every step changes each field as the definitions above say, and in no other way. */
  lemma {:induction false} StepIs(s: State, h: Happening)
    requires InRange(s.retry)
    ensures StateIs(s, h, Step(s, h.event, h.answers))
  {
    match h.event
    case OnError(_) => NoticeOrErrorIs(s, h);
    case OnStateChanged(_) => NoticeOrErrorIs(s, h);
    case TimerExpired(_) => TimerIs(s, h);
    case Refresh => LoadingIs(s, h);
    case Deliver =>
      if s.queue == [] {
        RequestFits(s, h, s);
      } else {
        MessageIs(s, h, s.(queue := s.queue[1..]));
      }
    case _ => CallIs(s, h);
  }

  // ---------------------------------------------------------------- the mode

  /** A read that is refused ends a refresh, unless an error of that sort stands already. */
  predicate RefusalEnds(s: State, error: Option<IsimError>, p: Option<Reading>, a: Answers) {
    && s.mode == Refreshing && Refused(p, s.attached, a) && Asked(p, s.attached, a).value in MANDATORY
    && (error.None? || !BlocksRecovery(error.value))
  }

  predicate RefusalEndsRefresh(s: State, h: Happening) {
    RefusalEnds(s, if StartsAfresh(s, h) then None else s.error, ReadPoint(s, h), h.answers)
  }

  /** The mode after a step. */
  function NextMode(s: State, h: Happening): Mode {
    match h.event
    case Refresh => if h.answers.isimConfigured then InProvisioning else Provisioned
    case CarrierConfigChanged(own) =>
      if !own then s.mode
      else if s.mode == Provisioned && h.answers.isimConfigured then Refreshing
      else if s.mode == Init then (if h.answers.isimConfigured then InProvisioning else Provisioned)
      else s.mode
    case OnStateChanged(st) =>
      if s.isim && s.mode == Provisioned && st in {IsimInit, IsimRefreshing, IsimRefreshed} then Refreshing
      else if s.isim && s.mode == Init && st == IsimRefreshing then Refreshing
      else s.mode
    case OnError(e) =>
      if !s.isim || s.mode == Provisioned then s.mode
      else if LosesCard(e) then InProvisioning
      else if s.mode == Refreshing
              && (e == RefreshError
                  || (e.ReadFailed? && e.what in MANDATORY && (s.error.None? || !BlocksRecovery(s.error.value))))
      then Provisioned
      else s.mode
    case Deliver =>
      if s.queue == [] then s.mode
      else if s.queue[0] == UpdateAllMsg then (if h.answers.isimConfigured then Refreshing else Provisioned)
      else if s.queue[0].ReadRecordMsg? && s.isim && s.reading.configured <= s.reading.records then Provisioned
      else if RefusalEndsRefresh(s, h) then Provisioned
      else s.mode
    case _ => if RefusalEndsRefresh(s, h) then Provisioned else s.mode
  }

  lemma {:induction false} ModeAfterRead(s: State, a: Answers)
    ensures ReadIsim(s, a).mode == if RefusalEnds(s, s.error, Some(s.reading), a) then Provisioned else s.mode
  {
  }

  lemma {:induction false} ModeAfterStart(s: State, a: Answers)
    requires InRange(s.retry)
    ensures StartProvisioning(s, a).mode == if RefusalEnds(s, s.error, StartPoint(s, a), a) then Provisioned else s.mode
  {
    ModeAfterRead(s.(reading := Idle(s.reading), retry := s.retry.(rounds := 0)), a);
  }

  lemma {:induction false} ModeAfterRefresh(s: State, enforce: bool, a: Answers)
    requires InRange(s.retry)
    ensures RefreshIsim(s, enforce, a).mode ==
      if Renews(s, enforce, a) then
        if RefusalEnds(s, if enforce then None else s.error, Some(Renewed(s.reading, enforce)), a) then Provisioned
        else s.mode
      else if StartsInstead(s, enforce, a) && RefusalEnds(s, s.error, StartPoint(s, a), a) then Provisioned
      else s.mode
  {
    var s1 := if enforce then s.(reading := Reading(false, MANDATORY, {}, false), error := None) else s;
    ModeAfterRead(s1.(reading := Reset(s1.reading)), a);
    ModeAfterStart(s, a);
  }

  lemma {:induction false} ModeAfterMessage(s: State, h: Happening, t: State)
    requires InRange(s.retry) && Delivers(s, h, t)
    ensures HandleMessage(t, s.queue[0], h.answers).mode == NextMode(s, h)
  {
    match s.queue[0]
    case StartProvisioningMsg(_) => ModeAfterStart(t, h.answers);
    case ReadRecordMsg(answered) =>
      ModeAfterRead(if answered then t.(reading := Idle(t.reading)) else t, h.answers);
    case RefreshIsimMsg(enforce) => ModeAfterRefresh(t, enforce, h.answers);
    case _ =>
  }

  lemma {:induction false} ModeAfterError(s: State, h: Happening)
    requires InRange(s.retry) && h.event.OnError?
    ensures Step(s, h.event, h.answers).mode == NextMode(s, h)
  {
  }

  lemma {:induction false} ModeAfterNotice(s: State, h: Happening)
    requires InRange(s.retry) && h.event.OnStateChanged?
    ensures Step(s, h.event, h.answers).mode == NextMode(s, h)
  {
  }

  lemma {:induction false} ModeAfterLoad(s: State, h: Happening)
    requires InRange(s.retry) && (h.event == Refresh || h.event.CarrierConfigChanged?)
    ensures Step(s, h.event, h.answers).mode == NextMode(s, h)
  {
  }

  /** Every step changes the mode as above and in no other way. */
  lemma {:induction false} ModeIs(s: State, h: Happening)
    requires InRange(s.retry)
    ensures Step(s, h.event, h.answers).mode == NextMode(s, h)
  {
    match h.event
    case Deliver =>
      if s.queue != [] {
        ModeAfterMessage(s, h, s.(queue := s.queue[1..]));
      }
    case TimerExpired(t) => ModeAfterStart(s.(timers := s.timers - {t}), h.answers);
    case OnError(_) => ModeAfterError(s, h);
    case OnStateChanged(_) => ModeAfterNotice(s, h);
    case Refresh => ModeAfterLoad(s, h);
    case CarrierConfigChanged(_) => ModeAfterLoad(s, h);
    case _ =>
  }

  // ---------------------------------------------------------------- errors, and what must be read again

  /** An error of an ISIM in use makes every configured record due again and ends the wait for an answer, except for
      three errors; these, and any error without an ISIM in use, leave the reading as it was. */
  lemma {:induction false} ErrorForgetsRecords(s: State, e: IsimError, a: Answers)
    requires InRange(s.retry)
    ensures var r := Step(s, OnError(e), a);
      if s.isim && e !in {RefreshRegFailed, ChannelError, RefreshError} then
        && r.reading.records !! r.reading.configured && !r.reading.pending
        && r.reading.configured == s.reading.configured && r.reading.istPcscf == s.reading.istPcscf
        && (forall x :: x !in s.reading.configured ==> (x in r.reading.records <==> x in s.reading.records))
      else
        r.reading == s.reading
  {
    StepIs(s, Happening(OnError(e), a));
  }

  /** The record is set at some step of the run. */
  predicate SetIn(s: State, hs: seq<Happening>, x: Record)
    requires InRange(s.retry)
    decreases hs
  {
    hs != [] && (Sets(s, hs[0], x) || SetIn(Step(s, hs[0].event, hs[0].answers), hs[1..], x))
  }

  /** A configured record that is due is set at the end of a run only if some step of the run set it, also when the run
      makes other records the configured ones. */
  lemma {:induction false} SetSince(s: State, hs: seq<Happening>, x: Record)
    requires InRange(s.retry)
    requires x in s.reading.records ==> x !in s.reading.configured
    ensures var r := Run(s, hs); x in r.reading.configured && x in r.reading.records ==> SetIn(s, hs, x)
    decreases hs
  {
    if hs != [] && !Sets(s, hs[0], x) {
      var s1 := Step(s, hs[0].event, hs[0].answers);
      StepIs(s, hs[0]);
      SetSince(s1, hs[1..], x);
    }
  }

  /** Reading ends at this step because every configured record is set. */
  predicate ReadingEnds(s: State, h: Happening) {
    && h.event == Deliver && s.queue != [] && s.queue[0].ReadRecordMsg?
    && s.isim && s.mode != Provisioned && s.reading.configured <= s.reading.records
  }

  /** After such an error, provisioning or a refresh ends by a complete read only when every record that is configured
      then was set again since the error. */
  lemma {:induction false} EndsOnlyWhenReadAgain(s: State, e: IsimError, a: Answers, hs: seq<Happening>, h: Happening)
    requires InRange(s.retry) && s.isim && e !in {RefreshRegFailed, ChannelError, RefreshError}
    requires ReadingEnds(Run(Step(s, OnError(e), a), hs), h)
    ensures var s1 := Step(s, OnError(e), a); forall x :: x in Run(s1, hs).reading.configured ==> SetIn(s1, hs, x)
  {
    var s1 := Step(s, OnError(e), a);
    ErrorForgetsRecords(s, e, a);
    forall x | x in Run(s1, hs).reading.configured ensures SetIn(s1, hs, x) {
      SetSince(s1, hs, x);
    }
  }

  /** The same after every other step that makes the records due again; that step itself may set one of them. */
  lemma {:induction false} RenewalEndsOnlyWhenReadAgain(s: State, h: Happening, hs: seq<Happening>, end: Happening)
    requires InRange(s.retry) && (Forgets(s, h) || StartsAfresh(s, h))
    requires ReadingEnds(Run(Step(s, h.event, h.answers), hs), end)
    ensures var s1 := Step(s, h.event, h.answers);
      forall x :: x in Run(s1, hs).reading.configured ==> Sets(s, h, x) || SetIn(s1, hs, x)
  {
    var s1 := Step(s, h.event, h.answers);
    StepIs(s, h);
    forall x | x in Run(s1, hs).reading.configured ensures Sets(s, h, x) || SetIn(s1, hs, x) {
      if !Sets(s, h, x) {
        SetSince(s1, hs, x);
      }
    }
  }
}
