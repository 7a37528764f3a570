/** What a step of the provisioning machine tells the listeners, and the timers that it sets. */
module ProvisioningNotices {
  import opened Lists
  import opened Provisioning
  import opened ProvisioningEffects

  predicate IsNoticeOrTimer(e: Effect) {
    e.ToldInitCompleted? || e.ToldRefreshCompleted? || e.ToldRefreshStarted? || e.ToldError? || e.Armed?
  }

  function Heard(log: seq<Effect>): seq<Effect> {
    if log == [] then []
    else Heard(log[..|log| - 1]) + if IsNoticeOrTimer(log[|log| - 1]) then [log[|log| - 1]] else []
  }

  /** What the listeners are told and which timers are set, step by step. */
  function HeardNow(s: State, h: Happening): seq<Effect> {
    var someone := s.listeners != [];
    match h.event
    case CarrierConfigChanged(own) =>
      if own && someone && s.mode == Provisioned && h.answers.isimConfigured then [ToldRefreshStarted] else []
    case Deliver =>
      if s.queue == [] then []
      else (
        match s.queue[0]
        case InitCompletedMsg => if someone then [ToldInitCompleted] else []
        case RefreshCompletedMsg => if someone then [ToldRefreshCompleted] else []
        case RefreshStartedMsg => if someone then [ToldRefreshStarted] else []
        case UpdateAllMsg => if someone then [ToldRefreshStarted] else []
        case NotifyErrorMsg(target, _) =>
          if (if target.None? then someone else target.value in s.listeners) then [ToldError(target)] else []
        case ReadRecordMsg(_) =>
          if !someone || !s.isim || !(s.reading.configured <= s.reading.records) || s.mode == Provisioned then []
          else if s.mode == InProvisioning then [ToldInitCompleted] else [ToldRefreshCompleted]
        case InitRetryTimerMsg(seconds) => if h.answers.timerCreated then [Armed(InitTimer, seconds)] else []
        case StartRetryTimerMsg(seconds) => if h.answers.timerCreated then [Armed(StartTimer, seconds)] else []
        case _ => [])
    case _ => []
  }

  lemma {:induction false} HeardAppend(log: seq<Effect>, e: Effect)
    ensures Heard(log + [e]) == Heard(log) + if IsNoticeOrTimer(e) then [e] else []
  {
    assert (log + [e])[..|log|] == log;
  }

  lemma {:induction false} MoveIsSilent(s: State, to: Mode, via: Site)
    ensures Heard(Move(s, to, via).log) == Heard(s.log)
  {
    HeardAppend(s.log, Entered(s.mode, to, via, Complete(s.reading)));
  }

  lemma {:induction false} RecoverIsSilent(s: State, e: IsimError)
    ensures Heard(Recover(s, e).log) == Heard(s.log)
  {
    MoveIsSilent(s, Provisioned, AtRecovery);
  }

  lemma {:induction false} ReadOneIsSilent(s: State, what: Record, answer: ReadAnswer)
    ensures Heard(ReadOne(s, what, answer).log) == Heard(s.log)
  {
    var e := Requested(what, s.reading.records, s.reading.configured);
    HeardAppend(s.log, e);
    RecoverIsSilent(Log(s, e), ReadFailed(what));
  }

  lemma {:induction false} ReadIsSilent(s: State, a: Answers)
    ensures Heard(ReadIsim(s, a).log) == Heard(s.log)
  {
    HeardAppend(s.log, ReadWithoutIsim);
    if NextRecord(s.reading).Some? {
      ReadOneIsSilent(s, NextRecord(s.reading).value, a.read);
    }
  }

  lemma {:induction false} PlanIsSilent(s: State)
    requires InRange(s.retry)
    ensures Heard(PlanStartRetry(s).log) == Heard(s.log)
  {
    HeardAppend(s.log, PlanStartRetry(s).log[|s.log|]);
  }

  lemma {:induction false} StartIsSilent(s: State, a: Answers)
    requires InRange(s.retry)
    ensures Heard(StartProvisioning(s, a).log) == Heard(s.log)
  {
    PlanIsSilent(s.(reading := Idle(s.reading)));
    ReadIsSilent(s.(reading := Idle(s.reading), retry := s.retry.(rounds := 0)), a);
  }

  lemma {:induction false} LoadIsSilent(s: State, enforce: bool, a: Answers)
    ensures Heard(UpdateAllConfigs(s, enforce, a).log) == Heard(s.log)
  {
    MoveIsSilent(s.(error := None, allowed := true, isim := a.isimConfigured), Provisioned, AtReadFrom);
    MoveIsSilent(s.(error := None, allowed := true, isim := a.isimConfigured), InProvisioning, AtReadFrom);
  }

  lemma {:induction false} RefreshIsSilent(s: State, enforce: bool, a: Answers)
    requires InRange(s.retry)
    ensures Heard(RefreshIsim(s, enforce, a).log) == Heard(s.log)
  {
    var s1 := if enforce then s.(reading := Reading(false, MANDATORY, {}, false), error := None) else s;
    ReadIsSilent(s1.(reading := Reset(s1.reading)), a);
    StartIsSilent(s, a);
  }

  lemma {:induction false} TellIsHeard(s: State, e: Effect)
    requires IsNoticeOrTimer(e)
    ensures Heard(Tell(s, e).log) == Heard(s.log) + if s.listeners == [] then [] else [e]
  {
    HeardAppend(s.log, e);
  }

  lemma {:induction false} HeardOfReadMessage(s: State, answered: bool, a: Answers)
    ensures Heard(OnReadRecord(s, answered, a).log) ==
      Heard(s.log)
      + if s.listeners == [] || !s.isim || !Complete(s.reading) || s.mode == Provisioned then []
        else if s.mode == InProvisioning then [ToldInitCompleted] else [ToldRefreshCompleted]
  {
    ReadIsSilent(if answered then s.(reading := Idle(s.reading)) else s, a);
    MoveIsSilent(s, Provisioned, AtReadRecord);
    TellIsHeard(Move(s, Provisioned, AtReadRecord),
                if s.mode == InProvisioning then ToldInitCompleted else ToldRefreshCompleted);
  }

  lemma {:induction false} HeardOfTelling(s: State, h: Happening, t: State)
    requires InRange(s.retry) && Delivers(s, h, t)
    requires var m := s.queue[0]; m.InitCompletedMsg? || m.RefreshCompletedMsg? || m.RefreshStartedMsg? || m.NotifyErrorMsg?
    ensures Heard(HandleMessage(t, s.queue[0], h.answers).log) == Heard(s.log) + HeardNow(s, h)
  {
    match s.queue[0]
    case NotifyErrorMsg(target, _) => HeardAppend(t.log, ToldError(target));
    case InitCompletedMsg => TellIsHeard(t, ToldInitCompleted);
    case RefreshCompletedMsg => TellIsHeard(t, ToldRefreshCompleted);
    case RefreshStartedMsg => TellIsHeard(t, ToldRefreshStarted);
  }

  lemma {:induction false} HeardOfUpdate(s: State, a: Answers)
    ensures Heard(OnUpdateAll(s, a).log) == Heard(s.log) + if s.listeners == [] then [] else [ToldRefreshStarted]
  {
    MoveIsSilent(s, Refreshing, AtUpdateAll);
    TellIsHeard(Move(s, Refreshing, AtUpdateAll), ToldRefreshStarted);
    LoadIsSilent(Tell(Move(s, Refreshing, AtUpdateAll), ToldRefreshStarted), false, a);
  }

  lemma {:induction false} ArmIsHeard(s: State, t: Timer, seconds: int, a: Answers)
    ensures Heard(Arm(s, t, seconds, a).log) == Heard(s.log) + if a.timerCreated then [Armed(t, seconds)] else []
  {
    HeardAppend(s.log, Armed(t, seconds));
  }

  lemma {:induction false} RecoveryIsSilent(s: State, seconds: int, a: Answers)
    requires InRange(s.retry)
    ensures OnRecovery(s, seconds, a).log == s.log
  {
  }

  lemma {:induction false} HeardOfMessage(s: State, h: Happening, t: State)
    requires InRange(s.retry) && Delivers(s, h, t)
    ensures Heard(HandleMessage(t, s.queue[0], h.answers).log) == Heard(s.log) + HeardNow(s, h)
  {
    match s.queue[0]
    case StartProvisioningMsg(_) => StartIsSilent(t, h.answers);
    case RefreshIsimMsg(enforce) => RefreshIsSilent(t, enforce, h.answers);
    case ReadRecordMsg(answered) => HeardOfReadMessage(t, answered, h.answers);
    case UpdateAllMsg => HeardOfUpdate(t, h.answers);
    case InitRetryTimerMsg(seconds) => ArmIsHeard(t, InitTimer, seconds, h.answers);
    case StartRetryTimerMsg(seconds) => ArmIsHeard(t, StartTimer, seconds, h.answers);
    case RecoveryMsg(seconds) => RecoveryIsSilent(t, seconds, h.answers);
    case _ => HeardOfTelling(s, h, t);
  }

  lemma {:induction false} HeardOfRefresh(s: State, a: Answers)
    requires InRange(s.retry)
    ensures Heard(HandleRefresh(s, a).log) == Heard(s.log)
  {
    var s1 := s.(allowed := true, isim := true, error := None, reading := Reading(false, MANDATORY, {}, false),
                 retry := Retry(0, 0, 0), timers := {});
    MoveIsSilent(s1, Init, AtRefresh);
    LoadIsSilent(Move(s1, Init, AtRefresh), true, a);
  }

  lemma {:induction false} HeardOfCarrierChange(s: State, a: Answers)
    ensures Heard(HandleCarrierChange(s, a).log) ==
      Heard(s.log)
      + if s.listeners != [] && s.mode == Provisioned && a.isimConfigured then [ToldRefreshStarted] else []
  {
    var s1 := UpdateAllConfigs(s, s.mode == Provisioned, a);
    LoadIsSilent(s, s.mode == Provisioned, a);
    assert s1.listeners == s.listeners;
    if s.mode == Provisioned && a.isimConfigured {
      MoveIsSilent(s1, Refreshing, AtCarrierChange);
      TellIsHeard(Move(s1, Refreshing, AtCarrierChange), ToldRefreshStarted);
    } else if s.mode == Provisioned || s.mode == Init {
      assert HandleCarrierChange(s, a) == s1;
    } else {
      MoveIsSilent(s1, s.mode, AtCarrierChange);
    }
  }

  lemma {:induction false} HeardOfNotice(s: State, st: IsimState)
    ensures Heard(HandleStateChanged(s, st).log) == Heard(s.log)
  {
    var s1 := if st == IsimInit then s.(reading := Reset(s.reading))
              else if st == IsimRefreshing then s.(error := None)
              else s.(retry := s.retry.(start := 0), error := None, reading := Idle(s.reading));
    MoveIsSilent(s1, Refreshing, AtStateChange);
  }

  lemma {:induction false} ReadErrorIsSilent(s: State, e: IsimError)
    ensures Heard(HandleReadError(s, e).log) == Heard(s.log)
  {
    var s1 := s.(reading := Reset(Idle(s.reading)));
    var s2 := if LosesCard(e) && s.mode != Provisioned then Move(s1, InProvisioning, AtError) else s1;
    MoveIsSilent(s1, InProvisioning, AtError);
    RecoverIsSilent(s2, e);
  }

  lemma {:induction false} HeardOfError(s: State, e: IsimError)
    ensures Heard(HandleError(s, e).log) == Heard(s.log)
  {
    MoveIsSilent(s, Provisioned, AtRefreshError);
    ReadErrorIsSilent(s, e);
  }

  lemma {:induction false} CallIsSilent(s: State, h: Happening)
    requires InRange(s.retry)
    requires match h.event
      case Deliver => s.queue == []
      case CarrierConfigChanged(own) => !own
      case TimerExpired(t) => t == InitTimer
      case OnError(_) => false
      case OnStateChanged(_) => false
      case Refresh => false
      case _ => true
    ensures Step(s, h.event, h.answers).log == s.log
  {
  }

  lemma {:induction false} StartTimerIsSilent(s: State, a: Answers)
    requires InRange(s.retry)
    ensures Heard(HandleTimer(s, StartTimer, a).log) == Heard(s.log)
  {
    StartIsSilent(s.(timers := s.timers - {StartTimer}), a);
  }

  /** Every step tells the listeners and sets timers as above and in no other way. */
  lemma {:induction false} HeardIs(s: State, h: Happening)
    requires InRange(s.retry)
    ensures Heard(Step(s, h.event, h.answers).log) == Heard(s.log) + HeardNow(s, h)
  {
    var e := h.event;
    if e == Deliver && s.queue != [] {
      HeardOfMessage(s, h, s.(queue := s.queue[1..]));
    } else if e == TimerExpired(StartTimer) {
      StartTimerIsSilent(s, h.answers);
    } else if e.OnError? {
      HeardOfError(s, e.error);
    } else if e.OnStateChanged? {
      HeardOfNotice(s, e.state);
    } else if e == Refresh {
      HeardOfRefresh(s, h.answers);
    } else if e == CarrierConfigChanged(true) {
      HeardOfCarrierChange(s, h.answers);
    } else {
      CallIsSilent(s, h);
    }
  }
}
