/** What each step of the provisioning machine adds to its log: reads asked for, ends of provisioning, notices of
    completion, and reads through a null ISIM. */
module ProvisioningCounts {
  import opened Lists
  import opened Provisioning

  /** What is counted. */
  datatype Kind = Reads | ReadsOf(what: Record) | Ends | Told | RefreshEnds | RefreshTold | NullReads

  function Weight(e: Effect, k: Kind): nat {
    match k
    case Reads => if e.Requested? then 1 else 0
    case ReadsOf(what) => if e.Requested? && e.what == what then 1 else 0
    case Ends => if e.Entered? && e.from == InProvisioning && e.via == AtReadRecord then 1 else 0
    case Told => if e.ToldInitCompleted? then 1 else 0
    case RefreshEnds => if e.Entered? && e.from == Refreshing && e.via == AtReadRecord then 1 else 0
    case RefreshTold => if e.ToldRefreshCompleted? then 1 else 0
    case NullReads => if e.ReadWithoutIsim? then 1 else 0
  }

  function Count(log: seq<Effect>, k: Kind): nat {
    if log == [] then 0 else Count(log[..|log| - 1], k) + Weight(log[|log| - 1], k)
  }

  lemma {:induction false} CountAppend(log: seq<Effect>, e: Effect, k: Kind)
    ensures Count(log + [e], k) == Count(log, k) + Weight(e, k)
  {
    assert (log + [e])[..|log|] == log;
  }

  // ---------------------------------------------------------------- what a step adds

  predicate IsRequest(s: State, a: Answers) {
    && !s.reading.pending && s.attached && a.state == IsimReady
    && NextRecord(s.reading).Some? && !(NextRecord(s.reading).value == Pcscf && SkipsPcscf(s.reading))
  }

  /** What one read of a record counts for. */
  function OfRead(what: Record, k: Kind): nat {
    if k == Reads || k == ReadsOf(what) then 1 else 0
  }

  function ReadAdds(s: State, a: Answers, k: Kind): nat {
    if !s.reading.pending && !s.attached then (if k == NullReads then 1 else 0)
    else if IsRequest(s, a) then OfRead(NextRecord(s.reading).value, k)
    else 0
  }

  function StartAdds(s: State, a: Answers, k: Kind): nat {
    var s1 := s.(reading := Idle(s.reading));
    if s.allowed && s.isim && s.attached && a.startOk && a.ready && !Complete(s.reading) then ReadAdds(s1, a, k) else 0
  }

  function RefreshAdds(s: State, enforce: bool, a: Answers, k: Kind): nat {
    if !s.isim || !s.attached then 0
    else if a.readyBefore && (Complete(s.reading) || enforce) then
      var s1 := if enforce then s.(reading := Reading(false, MANDATORY, {}, false)) else s;
      ReadAdds(s1.(reading := Reset(s1.reading)), a, k)
    else if a.stateBefore == IsimInit then StartAdds(s, a, k)
    else 0
  }

  function ReadMessageAdds(s: State, answered: bool, a: Answers, k: Kind): nat {
    if !s.isim then 0
    else if !Complete(s.reading) then ReadAdds(if answered then s.(reading := Idle(s.reading)) else s, a, k)
    else EndAdds(s, k)
  }

  /** What the end of reading counts for: one of provisioning, or of a refresh, told if somebody listens. */
  function EndAdds(s: State, k: Kind): nat {
    if s.mode == Provisioned then 0
    else if s.mode == InProvisioning then (if k == Ends || (k == Told && s.listeners != []) then 1 else 0)
    else if (k == RefreshEnds && s.mode == Refreshing) || (k == RefreshTold && s.listeners != []) then 1
    else 0
  }

  function MessageAdds(s: State, m: Message, a: Answers, k: Kind): nat {
    match m
    case StartProvisioningMsg(_) => StartAdds(s, a, k)
    case ReadRecordMsg(answered) => ReadMessageAdds(s, answered, a, k)
    case RefreshIsimMsg(enforce) => RefreshAdds(s, enforce, a, k)
    case InitCompletedMsg => if k == Told && s.listeners != [] then 1 else 0
    case RefreshCompletedMsg => if k == RefreshTold && s.listeners != [] then 1 else 0
    case _ => 0
  }

  function StepAdds(s: State, h: Happening, k: Kind): nat {
    match h.event
    case Deliver =>
      if s.queue == [] then 0 else MessageAdds(s.(queue := s.queue[1..]), s.queue[0], h.answers, k)
    case TimerExpired(t) =>
      if t in s.timers && t == StartTimer && s.retry.start > 0 then StartAdds(s, h.answers, k) else 0
    case _ => 0
  }

  // ---------------------------------------------------------------- one function of the machine at a time

  predicate Adds(s: State, r: State, k: Kind, n: nat) {
    Count(r.log, k) == Count(s.log, k) + n
  }

  lemma {:induction false} LogAdds(s: State, e: Effect, k: Kind)
    ensures Adds(s, Log(s, e), k, Weight(e, k))
  {
    CountAppend(s.log, e, k);
  }

  lemma {:induction false} MoveAdds(s: State, mode: Mode, via: Site, k: Kind)
    requires via != AtReadRecord
    ensures Adds(s, Move(s, mode, via), k, 0)
  {
    CountAppend(s.log, Entered(s.mode, mode, via, Complete(s.reading)), k);
  }

  lemma {:induction false} RecoverAdds(s: State, e: IsimError, k: Kind)
    ensures Adds(s, Recover(s, e), k, 0)
  {
    MoveAdds(s, Provisioned, AtRecovery, k);
  }

  lemma {:induction false} ReadOneLogs(s: State, what: Record, answer: ReadAnswer)
    ensures var t := Log(s, Requested(what, s.reading.records, s.reading.configured));
      ReadOne(s, what, answer).log == if answer == ReadRefused then Recover(t, ReadFailed(what)).log else t.log
  {
  }

  lemma {:induction false} ReadOneAdds(s: State, what: Record, answer: ReadAnswer, k: Kind)
    ensures Adds(s, ReadOne(s, what, answer), k, OfRead(what, k))
  {
    var e := Requested(what, s.reading.records, s.reading.configured);
    ReadOneLogs(s, what, answer);
    LogAdds(s, e, k);
    RecoverAdds(Log(s, e), ReadFailed(what), k);
  }

  lemma {:induction false} ReadIsimAdds(s: State, a: Answers, k: Kind)
    ensures Adds(s, ReadIsim(s, a), k, ReadAdds(s, a, k))
  {
    var next := NextRecord(s.reading);
    if s.reading.pending {
    } else if !s.attached {
      LogAdds(s, ReadWithoutIsim, k);
    } else if a.state == IsimReady && next.Some? && !(next.value == Pcscf && SkipsPcscf(s.reading)) {
      ReadOneAdds(s, next.value, a.read, k);
    }
  }

  lemma {:induction false} PlanLogsOne(s: State)
    requires InRange(s.retry)
    ensures var log := PlanStartRetry(s).log;
      |log| == |s.log| + 1 && log[|s.log|].StartRetryPlanned? && log == s.log + [log[|s.log|]]
  {
  }

  lemma {:induction false} PlanAdds(s: State, k: Kind)
    requires InRange(s.retry)
    ensures Adds(s, PlanStartRetry(s), k, 0)
  {
    PlanLogsOne(s);
    CountAppend(s.log, PlanStartRetry(s).log[|s.log|], k);
  }

  lemma {:induction false} StartProvisioningAdds(s: State, a: Answers, k: Kind)
    requires InRange(s.retry)
    ensures Adds(s, StartProvisioning(s, a), k, StartAdds(s, a, k))
  {
    var s0 := s.(reading := Idle(s.reading));
    PlanAdds(s0, k);
    ReadIsimAdds(s0.(retry := s.retry.(rounds := 0)), a, k);
  }

  lemma {:induction false} RefreshIsimAdds(s: State, enforce: bool, a: Answers, k: Kind)
    requires InRange(s.retry)
    ensures Adds(s, RefreshIsim(s, enforce, a), k, RefreshAdds(s, enforce, a, k))
  {
    StartProvisioningAdds(s, a, k);
    var s1 := if enforce then s.(reading := Reading(false, MANDATORY, {}, false), error := None) else s;
    ReadIsimAdds(s1.(reading := Reset(s1.reading)), a, k);
  }

  lemma {:induction false} UpdateAdds(s: State, enforce: bool, a: Answers, k: Kind)
    ensures Adds(s, UpdateAllConfigs(s, enforce, a), k, 0)
  {
    var s1 := s.(error := None, allowed := true, isim := a.isimConfigured);
    MoveAdds(s1, Provisioned, AtReadFrom, k);
    MoveAdds(s1, InProvisioning, AtReadFrom, k);
  }

  lemma {:induction false} UpdateMessageAdds(s: State, a: Answers, k: Kind)
    ensures Adds(s, OnUpdateAll(s, a), k, 0)
  {
    RefreshingAdds(s, AtUpdateAll, k);
    UpdateAdds(Tell(Move(s, Refreshing, AtUpdateAll), ToldRefreshStarted), false, a, k);
  }

  lemma {:induction false} TellAdds(s: State, e: Effect, k: Kind)
    ensures Adds(s, Tell(s, e), k, if s.listeners == [] then 0 else Weight(e, k))
  {
    LogAdds(s, e, k);
  }

  lemma {:induction false} EndIsLogged(s: State, e: Effect, k: Kind)
    requires s.mode != Provisioned
    requires e == if s.mode == InProvisioning then ToldInitCompleted else ToldRefreshCompleted
    ensures Adds(s, Tell(Move(s, Provisioned, AtReadRecord), e), k, EndAdds(s, k))
  {
    LogAdds(s, Entered(s.mode, Provisioned, AtReadRecord, Complete(s.reading)), k);
    TellAdds(Move(s, Provisioned, AtReadRecord), e, k);
  }

  lemma {:induction false} ReadRecordAdds(s: State, answered: bool, a: Answers, k: Kind)
    ensures Adds(s, OnReadRecord(s, answered, a), k, ReadMessageAdds(s, answered, a, k))
  {
    if !Complete(s.reading) {
      ReadIsimAdds(if answered then s.(reading := Idle(s.reading)) else s, a, k);
    } else if s.mode != Provisioned {
      EndIsLogged(s, if s.mode == InProvisioning then ToldInitCompleted else ToldRefreshCompleted, k);
    }
  }

  lemma {:induction false} ArmAdds(s: State, t: Timer, seconds: int, a: Answers, k: Kind)
    ensures Adds(s, Arm(s, t, seconds, a), k, 0)
  {
    LogAdds(s, Armed(t, seconds), k);
  }

  /** The messages that only tell the listeners something. */
  predicate IsNoticeMessage(m: Message) {
    m.InitCompletedMsg? || m.RefreshCompletedMsg? || m.RefreshStartedMsg? || m.NotifyErrorMsg?
  }

  /** What a message of this kind tells, and whether anybody is told. */
  function NoticeOf(m: Message): Effect
    requires IsNoticeMessage(m)
  {
    match m
    case InitCompletedMsg => ToldInitCompleted
    case RefreshCompletedMsg => ToldRefreshCompleted
    case RefreshStartedMsg => ToldRefreshStarted
    case NotifyErrorMsg(target, _) => ToldError(target)
  }

  predicate IsHeard(s: State, m: Message)
    requires IsNoticeMessage(m)
  {
    if m.NotifyErrorMsg? && m.target.Some? then m.target.value in s.listeners else s.listeners != []
  }

  lemma {:induction false} NoticeIs(s: State, m: Message, a: Answers)
    requires InRange(s.retry) && IsNoticeMessage(m)
    ensures HandleMessage(s, m, a) == if IsHeard(s, m) then Log(s, NoticeOf(m)) else s
  {
  }

  lemma {:induction false} NoticeWeighs(s: State, m: Message, a: Answers, k: Kind)
    requires IsNoticeMessage(m)
    ensures MessageAdds(s, m, a, k) == if IsHeard(s, m) then Weight(NoticeOf(m), k) else 0
  {
  }

  lemma {:induction false} NoticeAdds(s: State, m: Message, a: Answers, k: Kind)
    requires InRange(s.retry) && IsNoticeMessage(m)
    ensures Adds(s, HandleMessage(s, m, a), k, MessageAdds(s, m, a, k))
  {
    NoticeIs(s, m, a);
    NoticeWeighs(s, m, a, k);
    LogAdds(s, NoticeOf(m), k);
  }

  lemma {:induction false} HandleMessageAdds(s: State, m: Message, a: Answers, k: Kind)
    requires InRange(s.retry)
    ensures Adds(s, HandleMessage(s, m, a), k, MessageAdds(s, m, a, k))
  {
    if IsNoticeMessage(m) {
      NoticeAdds(s, m, a, k);
    } else {
      match m
      case StartProvisioningMsg(_) => StartProvisioningAdds(s, a, k);
      case ReadRecordMsg(answered) => ReadRecordAdds(s, answered, a, k);
      case UpdateAllMsg => UpdateMessageAdds(s, a, k);
      case RefreshIsimMsg(enforce) => RefreshIsimAdds(s, enforce, a, k);
      case InitRetryTimerMsg(seconds) => ArmAdds(s, InitTimer, seconds, a, k);
      case StartRetryTimerMsg(seconds) => ArmAdds(s, StartTimer, seconds, a, k);
      case RecoveryMsg(_) =>
    }
  }

  lemma {:induction false} ReadErrorAdds(s: State, e: IsimError, k: Kind)
    ensures Adds(s, HandleReadError(s, e), k, 0)
  {
    var s1 := s.(reading := Reset(Idle(s.reading)));
    MoveAdds(s1, InProvisioning, AtError, k);
    RecoverAdds(if LosesCard(e) && s.mode != Provisioned then Move(s1, InProvisioning, AtError) else s1, e, k);
  }

  lemma {:induction false} ErrorAdds(s: State, e: IsimError, k: Kind)
    ensures Adds(s, HandleError(s, e), k, 0)
  {
    MoveAdds(s, Provisioned, AtRefreshError, k);
    ReadErrorAdds(s, e, k);
  }

  lemma {:induction false} StateChangeAdds(s: State, st: IsimState, k: Kind)
    ensures Adds(s, HandleStateChanged(s, st), k, 0)
  {
    MoveAdds(s.(reading := Reset(s.reading)), Refreshing, AtStateChange, k);
    MoveAdds(s.(error := None), Refreshing, AtStateChange, k);
  }

  lemma {:induction false} CarrierChangeAdds(s: State, a: Answers, k: Kind)
    ensures Adds(s, HandleCarrierChange(s, a), k, 0)
  {
    UpdateAdds(s, s.mode == Provisioned, a, k);
    var s1 := UpdateAllConfigs(s, s.mode == Provisioned, a);
    MoveAdds(s1, s.mode, AtCarrierChange, k);
    RefreshingAdds(s1, AtCarrierChange, k);
  }

  lemma {:induction false} RefreshingLogs(s: State, via: Site)
    ensures var t := Move(s, Refreshing, via);
      Tell(t, ToldRefreshStarted).log == if s.listeners == [] then t.log else Log(t, ToldRefreshStarted).log
  {
  }

  lemma {:induction false} RefreshingAdds(s: State, via: Site, k: Kind)
    requires via != AtReadRecord
    ensures Adds(s, Tell(Move(s, Refreshing, via), ToldRefreshStarted), k, 0)
  {
    var t := Move(s, Refreshing, via);
    MoveAdds(s, Refreshing, via, k);
    LogAdds(t, ToldRefreshStarted, k);
    RefreshingLogs(s, via);
  }

  lemma {:induction false} HandleRefreshAdds(s: State, a: Answers, k: Kind)
    ensures Adds(s, HandleRefresh(s, a), k, 0)
  {
    var s1 := s.(allowed := true, isim := true, error := None, reading := Reading(false, MANDATORY, {}, false),
                 retry := Retry(0, 0, 0), timers := {});
    MoveAdds(s1, Init, AtRefresh, k);
    UpdateAdds(Move(s1, Init, AtRefresh), true, a, k);
  }

  lemma {:induction false} TimerAdds(s: State, t: Timer, a: Answers, k: Kind)
    requires InRange(s.retry)
    ensures Adds(s, HandleTimer(s, t, a), k,
                 if t in s.timers && t == StartTimer && s.retry.start > 0 then StartAdds(s, a, k) else 0)
  {
    StartProvisioningAdds(s.(timers := s.timers - {t}), a, k);
  }

  lemma {:induction false} DeliverAdds(s: State, a: Answers, k: Kind)
    requires InRange(s.retry) && s.queue != []
    ensures Adds(s, Step(s, Deliver, a), k, MessageAdds(s.(queue := s.queue[1..]), s.queue[0], a, k))
  {
    HandleMessageAdds(s.(queue := s.queue[1..]), s.queue[0], a, k);
  }

  /** Events that leave the log as it is. */
  predicate IsSilent(e: Event) {
    e.Begin? || e.OnImpi? || e.OnImpu? || e.OnDomain? || e.OnIst? || e.OnPcscf? || e.OnOtherField? || e.SetListener?
    || e.RemoveListener? || e.UpdateSubscriberAll? || e.UpdateIsimAttribute?
  }

  lemma {:induction false} SilentAdds(s: State, h: Happening, k: Kind)
    requires InRange(s.retry) && IsSilent(h.event)
    ensures Adds(s, Step(s, h.event, h.answers), k, 0)
  {
    assert Step(s, h.event, h.answers).log == s.log;
  }

  lemma {:induction false} LoudAdds(s: State, h: Happening, k: Kind)
    requires InRange(s.retry) && !IsSilent(h.event) && !h.event.Deliver? && !h.event.TimerExpired?
    ensures Adds(s, Step(s, h.event, h.answers), k, 0)
  {
    match h.event
    case OnError(e) => ErrorAdds(s, e, k);
    case OnStateChanged(st) => StateChangeAdds(s, st, k);
    case CarrierConfigChanged(_) => CarrierChangeAdds(s, h.answers, k);
    case Refresh => HandleRefreshAdds(s, h.answers, k);
  }

  /** Every step adds exactly this. */
  lemma {:induction false} StepAddsExactly(s: State, h: Happening, k: Kind)
    requires InRange(s.retry)
    ensures Adds(s, Step(s, h.event, h.answers), k, StepAdds(s, h, k))
  {
    if h.event.Deliver? {
      if s.queue != [] {
        DeliverAdds(s, h.answers, k);
      }
    } else if h.event.TimerExpired? {
      TimerAdds(s, h.event.timer, h.answers, k);
    } else if IsSilent(h.event) {
      SilentAdds(s, h, k);
    } else {
      LoudAdds(s, h, k);
    }
  }

  // ---------------------------------------------------------------- reads without an ISIM, and notices

  /** The read message is to be acted on, nothing is out or the message says it was answered, and the ISIM was
      not found when it was last looked for. */
  predicate ReadsNull(s: State, h: Happening) {
    && h.event == Deliver && s.queue != [] && s.queue[0].ReadRecordMsg?
    && s.isim && !Complete(s.reading) && (s.queue[0].answered || !s.reading.pending)
    && !s.attached
  }

  /** A step reads through a null ISIM exactly under this condition. */
  lemma {:induction false} ReadMeetsNullIsimIff(s: State, h: Happening)
    requires InRange(s.retry)
    ensures Count(Step(s, h.event, h.answers).log, NullReads) == Count(s.log, NullReads) + if ReadsNull(s, h) then 1 else 0
  {
    StepAddsExactly(s, h, NullReads);
  }

  /** The read message, with every record set, in provisioning. */
  predicate Completes(s: State, h: Happening) {
    && h.event == Deliver && s.queue != [] && s.queue[0].ReadRecordMsg?
    && s.isim && Complete(s.reading) && s.mode == InProvisioning
  }

  /** The message that asks for the notice of completion, which no step posts. */
  predicate AsksToTell(s: State, h: Happening) {
    h.event == Deliver && s.queue != [] && s.queue[0] == InitCompletedMsg
  }

  /** Completion is told exactly when provisioning ends by a complete read, or a message asks for it, and somebody
      listens. */
  lemma {:induction false} CompletionIsToldIff(s: State, h: Happening)
    requires InRange(s.retry)
    ensures Count(Step(s, h.event, h.answers).log, Told)
         == Count(s.log, Told) + if (Completes(s, h) || AsksToTell(s, h)) && s.listeners != [] then 1 else 0
  {
    StepAddsExactly(s, h, Told);
  }

  /** The read message, with every record set, outside provisioning. */
  predicate CompletesRefresh(s: State, h: Happening) {
    && h.event == Deliver && s.queue != [] && s.queue[0].ReadRecordMsg?
    && s.isim && Complete(s.reading) && s.mode != InProvisioning && s.mode != Provisioned
  }

  /** The message that asks for the notice of a completed refresh. */
  predicate AsksToTellRefresh(s: State, h: Happening) {
    h.event == Deliver && s.queue != [] && s.queue[0] == RefreshCompletedMsg
  }

  /** The completion of a refresh is told exactly at a complete read outside provisioning, or when a message asks for
      it, and somebody listens. */
  lemma {:induction false} RefreshCompletionIsToldIff(s: State, h: Happening)
    requires InRange(s.retry)
    ensures Count(Step(s, h.event, h.answers).log, RefreshTold)
         == Count(s.log, RefreshTold)
            + if (CompletesRefresh(s, h) || AsksToTellRefresh(s, h)) && s.listeners != [] then 1 else 0
  {
    StepAddsExactly(s, h, RefreshTold);
  }

  lemma {:induction false} RecoveryIs(s: State, a: Answers)
    requires InRange(s.retry) && s.allowed && s.isim && s.queue != [] && s.queue[0] == RecoveryMsg(0) && !a.found
    ensures var r := Step(s, Deliver, a);
      !r.attached && r.isim && r.queue == s.queue[1..] && r.reading == s.reading
  {
  }

  /** A null read does happen: after a recovery that does not find the ISIM, at the answer to an earlier read. */
  lemma {:induction false} RecoveryLeadsToNullRead(s: State, a: Answers)
    requires InRange(s.retry) && s.allowed && s.isim && s.queue == [] && !a.found
    requires MANDATORY <= s.reading.configured && s.reading.records == {}
    ensures var hs := [Happening(OnError(ChannelError), a), Happening(OnImpi, a), Happening(Deliver, a)];
      ReadsNull(Run(s, hs), Happening(Deliver, a))
  {
    var h1, h2, h3 := Happening(OnError(ChannelError), a), Happening(OnImpi, a), Happening(Deliver, a);
    var s1 := Step(s, h1.event, a);
    assert s1 == Post(s, RecoveryMsg(0));
    var s2 := Step(s1, h2.event, a);
    assert s2 == RecordRead(s1, Impi);
    assert s2.queue == [RecoveryMsg(0), ReadRecordMsg(true)];
    RecoveryIs(s2, a);
    RunThree(s, h1, h2, h3);
    assert Impu in MANDATORY;
  }
}
