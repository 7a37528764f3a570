/** What every run of the provisioning machine keeps. */
module ProvisioningSafety {
  import opened Lists
  import opened Provisioning

  // ---------------------------------------------------------------- every run

  predicate InMinute(seconds: int) {
    1 <= seconds <= 60
  }

  predicate GoodMessage(m: Message) {
    match m
    case InitCompletedMsg => false
    case InitRetryTimerMsg(seconds) => InMinute(seconds)
    case StartRetryTimerMsg(seconds) => InMinute(seconds)
    case RecoveryMsg(seconds) => seconds == 0
    case _ => true
  }

  predicate InReadOrder(what: Record, got: set<Record>, configured: set<Record>) {
    && what !in got
    && (what in MANDATORY || what in configured)
    && forall i, j | 0 <= i < j < |READ_ORDER| && READ_ORDER[j] == what
         && (READ_ORDER[i] in MANDATORY || READ_ORDER[i] in configured) :: READ_ORDER[i] in got
  }

  predicate GoodEffect(e: Effect) {
    match e
    case Requested(what, got, configured) => InReadOrder(what, got, configured)
    case Armed(_, seconds) => InMinute(seconds)
    case StartRetryPlanned(seconds) => InMinute(seconds)
    case _ => true
  }

  predicate Sound(s: State) {
    && InRange(s.retry)
    && (forall m | m in s.queue :: GoodMessage(m))
    && (forall e | e in s.log :: GoodEffect(e))
  }

  lemma SoundInit(s: State, a: Answers)
    requires Sound(s)
    ensures Sound(InitProvisioning(s, a))
  {
  }

  lemma NextIsInOrder(r: Reading)
    requires NextRecord(r).Some?
    ensures InReadOrder(NextRecord(r).value, r.records, r.configured)
  {
  }

  lemma SoundPost(s: State, m: Message)
    requires Sound(s) && GoodMessage(m)
    ensures Sound(Post(s, m))
  {
  }

  lemma SoundLog(s: State, e: Effect)
    requires Sound(s) && GoodEffect(e)
    ensures Sound(Log(s, e))
  {
  }

  lemma SoundRecover(s: State, e: IsimError)
    requires Sound(s)
    ensures Sound(Recover(s, e))
  {
    SoundLog(s, Entered(s.mode, Provisioned, AtRecovery, Complete(s.reading)));
  }

  lemma SoundReadOne(s: State, what: Record, answer: ReadAnswer)
    requires Sound(s) && InReadOrder(what, s.reading.records, s.reading.configured)
    ensures Sound(ReadOne(s, what, answer))
  {
    var e := Requested(what, s.reading.records, s.reading.configured);
    SoundLog(s, e);
    var s1 := Log(s, e);
    SoundPost(s1.(reading := Got(s.reading, what)), ReadRecordMsg(false));
    SoundRecover(s1, ReadFailed(what));
    SoundPost(Recover(s1, ReadFailed(what)).(error := Some(ReadFailed(what))), NotifyErrorMsg(None, false));
  }

  lemma SoundRead(s: State, a: Answers)
    requires Sound(s)
    ensures Sound(ReadIsim(s, a))
  {
    var next := NextRecord(s.reading);
    SoundLog(s, ReadWithoutIsim);
    if next.Some? {
      NextIsInOrder(s.reading);
      SoundReadOne(s, next.value, a.read);
      SoundPost(s.(reading := Got(s.reading, Pcscf)), ReadRecordMsg(false));
    }
  }

  lemma SoundPlan(s: State)
    requires Sound(s)
    ensures Sound(PlanStartRetry(s))
  {
  }

  lemma SoundStart(s: State, a: Answers)
    requires Sound(s)
    ensures Sound(StartProvisioning(s, a))
  {
    var s0 := s.(reading := Idle(s.reading));
    SoundPlan(s0);
    SoundRead(s0.(retry := s.retry.(rounds := 0)), a);
  }

  lemma SoundRefreshIsim(s: State, enforce: bool, a: Answers)
    requires Sound(s)
    ensures Sound(RefreshIsim(s, enforce, a))
  {
    SoundInit(s, a);
    SoundStart(s, a);
    var s1 := if enforce then s.(reading := Reading(false, MANDATORY, {}, false), error := None) else s;
    SoundRead(s1.(reading := Reset(s1.reading)), a);
  }

  lemma SoundUpdateAll(s: State, enforce: bool, a: Answers)
    requires Sound(s)
    ensures Sound(UpdateAllConfigs(s, enforce, a))
  {
  }

  lemma SoundNotice(s: State, e: Effect)
    requires Sound(s) && GoodEffect(e)
    ensures Sound(Tell(s, e))
  {
    SoundLog(s, e);
  }

  lemma SoundReadRecord(s: State, answered: bool, a: Answers)
    requires Sound(s)
    ensures Sound(OnReadRecord(s, answered, a))
  {
    SoundRead(if answered then s.(reading := Idle(s.reading)) else s, a);
    SoundMove(s, Provisioned, AtReadRecord);
    SoundNotice(Move(s, Provisioned, AtReadRecord),
                if s.mode == InProvisioning then ToldInitCompleted else ToldRefreshCompleted);
  }

  lemma SoundUpdateMsg(s: State, a: Answers)
    requires Sound(s)
    ensures Sound(OnUpdateAll(s, a))
  {
    SoundMove(s, Refreshing, AtUpdateAll);
    var s1 := Move(s, Refreshing, AtUpdateAll);
    SoundNotice(s1, ToldRefreshStarted);
    SoundUpdateAll(Tell(s1, ToldRefreshStarted), false, a);
    SoundPost(UpdateAllConfigs(Tell(s1, ToldRefreshStarted), false, a), RefreshCompletedMsg);
  }

  lemma SoundMessage(s: State, m: Message, a: Answers)
    requires Sound(s) && GoodMessage(m)
    ensures Sound(HandleMessage(s, m, a))
  {
    match m
    case StartProvisioningMsg(_) => SoundStart(s, a);
    case ReadRecordMsg(answered) => SoundReadRecord(s, answered, a);
    case UpdateAllMsg => SoundUpdateMsg(s, a);
    case RecoveryMsg(_) => SoundInit(s.(retry := s.retry.(init := 0, start := 0)), a);
    case RefreshIsimMsg(enforce) => SoundRefreshIsim(s, enforce, a);
    case InitCompletedMsg => SoundNotice(s, ToldInitCompleted);
    case RefreshCompletedMsg => SoundNotice(s, ToldRefreshCompleted);
    case RefreshStartedMsg => SoundNotice(s, ToldRefreshStarted);
    case NotifyErrorMsg(target, _) =>
      SoundNotice(s, ToldError(None));
      SoundLog(s, ToldError(target));
    case InitRetryTimerMsg(seconds) => SoundLog(s, Armed(InitTimer, seconds));
    case StartRetryTimerMsg(seconds) => SoundLog(s, Armed(StartTimer, seconds));
  }

  lemma SoundMove(s: State, to: Mode, via: Site)
    requires Sound(s)
    ensures Sound(Move(s, to, via))
  {
  }

  lemma SoundReadError(s: State, e: IsimError)
    requires Sound(s)
    ensures Sound(HandleReadError(s, e))
  {
    var s1 := s.(reading := Reset(Idle(s.reading)));
    SoundMove(s1, InProvisioning, AtError);
    var s2 := if LosesCard(e) && s.mode != Provisioned then Move(s1, InProvisioning, AtError) else s1;
    SoundRecover(s2, e);
    SoundPost(Recover(s2, e).(error := Some(e)), NotifyErrorMsg(None, e == NoIsimApplication));
  }

  lemma SoundError(s: State, e: IsimError)
    requires Sound(s)
    ensures Sound(HandleError(s, e))
  {
    SoundMove(s, Provisioned, AtRefreshError);
    SoundReadError(s, e);
  }

  lemma SoundStateChanged(s: State, st: IsimState)
    requires Sound(s)
    ensures Sound(HandleStateChanged(s, st))
  {
  }

  lemma SoundTimer(s: State, t: Timer, a: Answers)
    requires Sound(s)
    ensures Sound(HandleTimer(s, t, a))
  {
    var s1 := s.(timers := s.timers - {t});
    SoundInit(s1, a);
    SoundStart(s1, a);
  }

  lemma SoundCarrierChange(s: State, a: Answers)
    requires Sound(s)
    ensures Sound(HandleCarrierChange(s, a))
  {
    SoundUpdateAll(s, s.mode == Provisioned, a);
  }

  lemma SoundRefresh(s: State, a: Answers)
    requires Sound(s)
    ensures Sound(HandleRefresh(s, a))
  {
  }

  lemma SoundStep(s: State, e: Event, a: Answers)
    requires Sound(s)
    ensures Sound(Step(s, e, a))
  {
    match e
    case Begin => SoundInit(s, a);
    case Deliver =>
      if s.queue != [] {
        SoundMessage(s.(queue := s.queue[1..]), s.queue[0], a);
      }
    case OnError(err) => SoundError(s, err);
    case OnStateChanged(st) => SoundStateChanged(s, st);
    case TimerExpired(t) => SoundTimer(s, t, a);
    case CarrierConfigChanged(_) => SoundCarrierChange(s, a);
    case Refresh => SoundRefresh(s, a);
    case _ =>
  }

  lemma {:induction false} EveryRunIsSound(s: State, hs: seq<Happening>)
    requires Sound(s)
    ensures Sound(Run(s, hs))
    decreases hs
  {
    if hs != [] {
      SoundStep(s, hs[0].event, hs[0].answers);
      EveryRunIsSound(Step(s, hs[0].event, hs[0].answers), hs[1..]);
    }
  }

  /** From any load of the carrier configuration, every run keeps the counters in range (so that both
      interval tables are indexed within bounds), schedules delays of one second to one minute only, and
      asks for a record only when every record due before it has been set. */
  lemma EveryRunFromLoadIsSound(configured: set<Record>, load: Answers, hs: seq<Happening>)
    ensures var r := Run(ReadFrom(Constructed(configured), load), hs);
            && InRange(r.retry)
            && (forall m | m in r.queue :: GoodMessage(m))
            && (forall e | e in r.log :: GoodEffect(e))
  {
    EveryRunIsSound(ReadFrom(Constructed(configured), load), hs);
  }

  // ---------------------------------------------------------------- runs in which the ISIM is used throughout

  /** The event and the answers leave the ISIM in use. */
  predicate KeepsIsim(h: Happening) {
    h.answers.isimConfigured && h.event != UpdateIsimAttribute(false)
  }

  const LEGAL_COMPLETION: Effect := Entered(InProvisioning, Provisioned, AtReadRecord, true)

  /** The state becomes Provisioned only by a complete read, or by giving up a refresh. */
  predicate LegalEntry(e: Effect) {
    e.Entered? && e.to == Provisioned ==>
      if e.via == AtReadRecord then e.complete && e.from in {InProvisioning, Refreshing}
      else e.from == Refreshing
  }

  /** The end of provisioning is told right after a complete read has ended it, and only then. */
  predicate LegalAt(log: seq<Effect>, i: nat)
    requires i < |log|
  {
    LegalEntry(log[i]) && (log[i] == ToldInitCompleted ==> i > 0 && log[i - 1] == LEGAL_COMPLETION)
  }

  predicate LegalLog(log: seq<Effect>) {
    forall i | 0 <= i < |log| :: LegalAt(log, i)
  }

  predicate InUse(s: State) {
    && Sound(s)
    && s.allowed && s.isim
    && s.mode != Init
    && LegalLog(s.log)
  }

  lemma LegalAppend(log: seq<Effect>, e: Effect)
    requires LegalLog(log) && LegalEntry(e)
    requires e == ToldInitCompleted ==> log != [] && log[|log| - 1] == LEGAL_COMPLETION
    ensures LegalLog(log + [e])
  {
    forall i | 0 <= i < |log + [e]| ensures LegalAt(log + [e], i) {
      if i < |log| {
        assert LegalAt(log, i);
      }
    }
  }

  lemma LegalRead(s: State, a: Answers)
    requires InUse(s)
    ensures InUse(ReadIsim(s, a))
  {
    SoundRead(s, a);
    LegalAppend(s.log, ReadWithoutIsim);
    if NextRecord(s.reading).Some? {
      var what := NextRecord(s.reading).value;
      var s1 := Log(s, Requested(what, s.reading.records, s.reading.configured));
      LegalAppend(s.log, Requested(what, s.reading.records, s.reading.configured));
      if s.mode == Refreshing {
        LegalAppend(s1.log, Entered(Refreshing, Provisioned, AtRecovery, Complete(s.reading)));
      }
    }
  }

  lemma LegalStart(s: State, a: Answers)
    requires InUse(s)
    ensures InUse(StartProvisioning(s, a))
  {
    SoundStart(s, a);
    LegalRead(s.(reading := Idle(s.reading), retry := s.retry.(rounds := 0)), a);
    forall seconds ensures LegalLog(s.log + [StartRetryPlanned(seconds)]) {
      LegalAppend(s.log, StartRetryPlanned(seconds));
    }
  }

  lemma LegalInit(s: State, a: Answers)
    requires InUse(s)
    ensures InUse(InitProvisioning(s, a))
  {
    SoundInit(s, a);
  }

  lemma LegalRefreshIsim(s: State, enforce: bool, a: Answers)
    requires InUse(s)
    ensures InUse(RefreshIsim(s, enforce, a))
  {
    SoundRefreshIsim(s, enforce, a);
    LegalInit(s, a);
    LegalStart(s, a);
    var s1 := if enforce then s.(reading := Reading(false, MANDATORY, {}, false), error := None) else s;
    LegalRead(s1.(reading := Reset(s1.reading)), a);
  }

  lemma LegalReadRecord(s: State, answered: bool, a: Answers)
    requires InUse(s)
    ensures InUse(OnReadRecord(s, answered, a))
  {
    if !Complete(s.reading) {
      LegalRead(if answered then s.(reading := Idle(s.reading)) else s, a);
    } else if s.mode != Provisioned {
      var e := Entered(s.mode, Provisioned, AtReadRecord, true);
      LegalAppend(s.log, e);
      LegalAppend(s.log + [e], if s.mode == InProvisioning then ToldInitCompleted else ToldRefreshCompleted);
    }
  }

  lemma LegalUpdateAll(s: State, a: Answers)
    requires InUse(s) && a.isimConfigured
    ensures InUse(OnUpdateAll(s, a))
  {
    SoundUpdateAll(Tell(Move(s, Refreshing, AtUpdateAll), ToldRefreshStarted), false, a);
    var e := Entered(s.mode, Refreshing, AtUpdateAll, Complete(s.reading));
    LegalAppend(s.log, e);
    LegalAppend(s.log + [e], ToldRefreshStarted);
  }

  /** Effects that are neither a state change nor the notice of completion. */
  lemma LegalNotices(log: seq<Effect>)
    requires LegalLog(log)
    ensures forall e: Effect | !e.Entered? && e != ToldInitCompleted :: LegalLog(log + [e])
  {
    forall e: Effect | !e.Entered? && e != ToldInitCompleted ensures LegalLog(log + [e]) {
      LegalAppend(log, e);
    }
  }

  lemma LegalMessage(s: State, m: Message, a: Answers)
    requires InUse(s) && GoodMessage(m) && a.isimConfigured
    ensures InUse(HandleMessage(s, m, a))
  {
    SoundMessage(s, m, a);
    match m
    case StartProvisioningMsg(_) => LegalStart(s, a);
    case ReadRecordMsg(answered) => LegalReadRecord(s, answered, a);
    case UpdateAllMsg => LegalUpdateAll(s, a);
    case RecoveryMsg(_) => LegalInit(s.(retry := s.retry.(init := 0, start := 0)), a);
    case RefreshIsimMsg(enforce) => LegalRefreshIsim(s, enforce, a);
    case _ => LegalNotices(s.log);
  }

  lemma LegalReadError(s: State, e: IsimError)
    requires InUse(s)
    ensures InUse(HandleReadError(s, e))
  {
    SoundReadError(s, e);
    var s1 := s.(reading := Reset(Idle(s.reading)));
    LegalAppend(s.log, Entered(s.mode, InProvisioning, AtError, Complete(s1.reading)));
    if s.mode == Refreshing {
      LegalAppend(s.log, Entered(Refreshing, Provisioned, AtRecovery, Complete(s1.reading)));
    }
  }

  lemma LegalStateChanged(s: State, st: IsimState)
    requires InUse(s)
    ensures InUse(HandleStateChanged(s, st))
  {
    SoundStateChanged(s, st);
    forall complete: bool ensures LegalLog(s.log + [Entered(s.mode, Refreshing, AtStateChange, complete)]) {
      LegalAppend(s.log, Entered(s.mode, Refreshing, AtStateChange, complete));
    }
  }

  lemma LegalCarrierChange(s: State, a: Answers)
    requires InUse(s) && a.isimConfigured
    ensures InUse(HandleCarrierChange(s, a))
  {
    SoundCarrierChange(s, a);
    var s1 := UpdateAllConfigs(s, s.mode == Provisioned, a);
    LegalAppend(s.log, Entered(s.mode, InProvisioning, AtReadFrom, Complete(s.reading)));
    if s.mode == Provisioned {
      var e := Entered(InProvisioning, Refreshing, AtCarrierChange, Complete(s.reading));
      LegalAppend(s1.log, e);
      LegalAppend(s1.log + [e], ToldRefreshStarted);
    } else {
      LegalAppend(s1.log, Entered(s1.mode, s.mode, AtCarrierChange, Complete(s.reading)));
    }
  }

  lemma LegalRefresh(s: State, a: Answers)
    requires InUse(s) && a.isimConfigured
    ensures InUse(HandleRefresh(s, a))
  {
    SoundRefresh(s, a);
    var e := Entered(s.mode, Init, AtRefresh, false);
    LegalAppend(s.log, e);
    LegalAppend(s.log + [e], Entered(Init, InProvisioning, AtReadFrom, false));
    assert Impi in MANDATORY;
  }

  lemma LegalError(s: State, e: IsimError)
    requires InUse(s)
    ensures InUse(HandleError(s, e))
  {
    if e == RefreshError && s.mode == Refreshing {
      LegalAppend(s.log, Entered(Refreshing, Provisioned, AtRefreshError, Complete(s.reading)));
    }
    LegalReadError(s, e);
  }

  lemma LegalTimer(s: State, t: Timer, a: Answers)
    requires InUse(s)
    ensures InUse(HandleTimer(s, t, a))
  {
    var s1 := s.(timers := s.timers - {t});
    LegalInit(s1, a);
    LegalStart(s1, a);
  }

  lemma LegalStep(s: State, h: Happening)
    requires InUse(s) && KeepsIsim(h)
    ensures InUse(Step(s, h.event, h.answers))
  {
    var a := h.answers;
    SoundStep(s, h.event, a);
    match h.event
    case Begin => LegalInit(s, a);
    case Deliver =>
      if s.queue != [] {
        LegalMessage(s.(queue := s.queue[1..]), s.queue[0], a);
      }
    case OnError(err) => LegalError(s, err);
    case OnStateChanged(st) => LegalStateChanged(s, st);
    case TimerExpired(t) => LegalTimer(s, t, a);
    case CarrierConfigChanged(_) => LegalCarrierChange(s, a);
    case Refresh => LegalRefresh(s, a);
    case _ =>
  }

  lemma {:induction false} RunInUse(s: State, hs: seq<Happening>)
    requires InUse(s) && forall h | h in hs :: KeepsIsim(h)
    ensures InUse(Run(s, hs))
    decreases hs
  {
    if hs != [] {
      LegalStep(s, hs[0]);
      RunInUse(Step(s, hs[0].event, hs[0].answers), hs[1..]);
    }
  }

  /** Provisioning ends by a complete read alone, any other way into Provisioned leaves a refresh,
      and the end of provisioning is told right after such a read. */
  predicate OnlyByCompleteRead(log: seq<Effect>) {
    && (forall e | e in log && e.Entered? && e.from == InProvisioning && e.to == Provisioned ::
          e == LEGAL_COMPLETION)
    && (forall e | e in log && e.Entered? && e.to == Provisioned && e != LEGAL_COMPLETION :: e.from == Refreshing)
    && (forall i | 0 <= i < |log| && log[i] == ToldInitCompleted :: i > 0 && log[i - 1] == LEGAL_COMPLETION)
  }

  lemma LegalLogMeans(log: seq<Effect>)
    requires LegalLog(log)
    ensures OnlyByCompleteRead(log)
  {
    forall e | e in log ensures LegalEntry(e) {
      var i :| 0 <= i < |log| && log[i] == e;
      assert LegalAt(log, i);
    }
    forall i | 0 <= i < |log| && log[i] == ToldInitCompleted ensures i > 0 && log[i - 1] == LEGAL_COMPLETION {
      assert LegalAt(log, i);
    }
  }

  /** From the moment the carrier configuration is loaded, for every run that keeps the ISIM in use. */
  lemma ProvisionedOnlyByCompleteRead(configured: set<Record>, load: Answers, hs: seq<Happening>)
    requires MANDATORY <= configured
    requires load.isimConfigured && forall h | h in hs :: KeepsIsim(h)
    ensures OnlyByCompleteRead(Run(ReadFrom(Constructed(configured), load), hs).log)
  {
    var s := ReadFrom(Constructed(configured), load);
    RunInUse(s, hs);
    LegalLogMeans(Run(s, hs).log);
  }

  // ---------------------------------------------------------------- the end of provisioning, in every run

  /** The steps that end provisioning: the read message with every record set, or a full reload without ISIM. */
  predicate EndsProvisioning(s: State, h: Happening) {
    || (h.event == Refresh && !h.answers.isimConfigured)
    || (h.event == Deliver && s.queue != [] && s.queue[0] == UpdateAllMsg && !h.answers.isimConfigured)
    || (h.event == Deliver && s.queue != [] && s.queue[0].ReadRecordMsg? && s.isim && Complete(s.reading))
  }

  lemma StartKeepsProvisioning(s: State, a: Answers)
    requires InRange(s.retry) && s.mode == InProvisioning
    ensures StartProvisioning(s, a).mode == InProvisioning
  {
  }

  lemma RefreshIsimKeepsProvisioning(s: State, enforce: bool, a: Answers)
    requires InRange(s.retry) && s.mode == InProvisioning
    ensures RefreshIsim(s, enforce, a).mode == InProvisioning
  {
    StartKeepsProvisioning(s, a);
  }

  lemma MessageEndsIff(s: State, m: Message, a: Answers)
    requires InRange(s.retry) && s.mode == InProvisioning
    ensures HandleMessage(s, m, a).mode == Provisioned
       <==> (m == UpdateAllMsg && !a.isimConfigured) || (m.ReadRecordMsg? && s.isim && Complete(s.reading))
  {
    match m
    case StartProvisioningMsg(_) => StartKeepsProvisioning(s, a);
    case RefreshIsimMsg(enforce) => RefreshIsimKeepsProvisioning(s, enforce, a);
    case _ =>
  }

  lemma StateChangeKeepsProvisioning(s: State, st: IsimState)
    requires s.mode == InProvisioning
    ensures HandleStateChanged(s, st).mode == InProvisioning
  {
  }

  lemma ProvisioningEndsIff(s: State, h: Happening)
    requires InRange(s.retry) && s.mode == InProvisioning
    ensures Step(s, h.event, h.answers).mode == Provisioned <==> EndsProvisioning(s, h)
  {
    match h.event
    case Deliver =>
      if s.queue != [] {
        MessageEndsIff(s.(queue := s.queue[1..]), s.queue[0], h.answers);
      }
    case OnStateChanged(st) => StateChangeKeepsProvisioning(s, st);
    case TimerExpired(t) => StartKeepsProvisioning(s.(timers := s.timers - {t}), h.answers);
    case _ =>
  }

  /** At every step of the run that finds the machine in provisioning, it is provisioned afterwards exactly for
      those steps. */
  ghost predicate EndsOnlyThere(s: State, hs: seq<Happening>)
    requires InRange(s.retry)
    decreases hs
  {
    hs == []
    || (var r := Step(s, hs[0].event, hs[0].answers);
        && (s.mode == InProvisioning ==> (r.mode == Provisioned <==> EndsProvisioning(s, hs[0])))
        && EndsOnlyThere(r, hs[1..]))
  }

  lemma {:induction false} EveryRunEndsOnlyThere(s: State, hs: seq<Happening>)
    requires InRange(s.retry)
    ensures EndsOnlyThere(s, hs)
    decreases hs
  {
    if hs != [] {
      if s.mode == InProvisioning {
        ProvisioningEndsIff(s, hs[0]);
      }
      EveryRunEndsOnlyThere(Step(s, hs[0].event, hs[0].answers), hs[1..]);
    }
  }

  /** From every load, over every run, whatever the carrier configuration answers at any time. */
  lemma ProvisioningEndsOnlyThere(configured: set<Record>, load: Answers, hs: seq<Happening>)
    ensures EndsOnlyThere(ReadFrom(Constructed(configured), load), hs)
  {
    EveryRunEndsOnlyThere(ReadFrom(Constructed(configured), load), hs);
  }

  /** A full reload, or the ISIM being configured again. */
  predicate Reconfigures(s: State, h: Happening) {
    || h.event == Refresh
    || (h.event == Deliver && s.queue != [] && s.queue[0] == UpdateAllMsg)
    || h.event == UpdateIsimAttribute(true)
    || (h.event == CarrierConfigChanged(true) && h.answers.isimConfigured)
  }

  predicate NeverReconfigured(s: State, hs: seq<Happening>)
    requires InRange(s.retry)
    decreases hs
  {
    hs == [] || (!Reconfigures(s, hs[0]) && NeverReconfigured(Step(s, hs[0].event, hs[0].answers), hs[1..]))
  }

  lemma DisusedStaysInProvisioning(s: State, h: Happening)
    requires InRange(s.retry) && s.mode == InProvisioning && !s.isim && !Reconfigures(s, h)
    ensures Step(s, h.event, h.answers).mode == InProvisioning && !Step(s, h.event, h.answers).isim
  {
  }

  lemma {:induction false} DisusedRun(s: State, hs: seq<Happening>)
    requires InRange(s.retry) && s.mode == InProvisioning && !s.isim && NeverReconfigured(s, hs)
    ensures Run(s, hs).mode == InProvisioning && !Run(s, hs).isim
    decreases hs
  {
    if hs != [] {
      DisusedStaysInProvisioning(s, hs[0]);
      DisusedRun(Step(s, hs[0].event, hs[0].answers), hs[1..]);
    }
  }

  /** A change of the carrier configuration that drops the ISIM leaves the machine in provisioning, with the records
      and messages as they were. From then on provisioning never ends, over any run, until everything is reloaded or
      the ISIM is configured again. */
  lemma CarrierChangeStaysInProvisioning(s: State, a: Answers, hs: seq<Happening>)
    requires InRange(s.retry) && s.mode == InProvisioning && !a.isimConfigured
    ensures var r := Step(s, CarrierConfigChanged(true), a);
      && r.mode == InProvisioning && !r.isim && r.queue == s.queue && r.reading == s.reading
      && (NeverReconfigured(r, hs) ==> Run(r, hs).mode == InProvisioning && !Run(r, hs).isim)
  {
    var r := Step(s, CarrierConfigChanged(true), a);
    if NeverReconfigured(r, hs) {
      DisusedRun(r, hs);
    }
  }

  /** Reloading everything without the ISIM ends provisioning with records missing. */
  lemma ReloadEndsProvisioningEarly(load: Answers, drop: Answers)
    requires load.isimConfigured && !drop.isimConfigured
    ensures var s := ReadFrom(Constructed(MANDATORY), load);
            var r := Run(s, [Happening(UpdateSubscriberAll, drop), Happening(Deliver, drop)]);
            s.mode == InProvisioning && r.mode == Provisioned && !Complete(r.reading)
  {
    var s := ReadFrom(Constructed(MANDATORY), load);
    var h := Happening(Deliver, drop);
    var t := Step(s, UpdateSubscriberAll, drop);
    assert t.queue == [UpdateAllMsg];
    var r := Step(t, Deliver, drop);
    assert Run(r, []) == r;
    assert [Happening(UpdateSubscriberAll, drop), h][1..] == [h] && [h][1..] == [];
    assert Run(t, [h]) == r;
    assert Impi in MANDATORY;
  }
}
