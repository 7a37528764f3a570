/** The delays after failed Start calls, in closed form. */
module RetrySchedule {
  import opened Lists
  import opened Provisioning

  /** The delay after the n-th failed Start: five short ones, then a re-initialization whose delay grows by
      ten seconds a round, up to a minute. */
  function ClosedForm(n: int): int
    requires 1 <= n
  {
    if n % 6 == 0 then (if 10 * (n / 6) < 60 then 10 * (n / 6) else 60)
    else [1, 1, 2, 2, 4][(n - 1) % 6]
  }

  /** The delays planned after failed Start calls, oldest first. */
  function Delays(log: seq<Effect>): seq<int> {
    if log == [] then []
    else
      var last := log[|log| - 1];
      Delays(log[..|log| - 1]) + if last.StartRetryPlanned? then [last.seconds] else []
  }

  /** Failed Start calls since both counters were zero. */
  function Failures(s: State): int {
    6 * s.retry.rounds + s.retry.start
  }

  /** No Start call succeeds in this step, and nothing in it resets a counter of failed Start calls. */
  predicate Quiet(s: State, h: Happening) {
    && !h.answers.startOk
    && h.event != Refresh
    && h.event != OnStateChanged(IsimReady)
    && h.event != OnStateChanged(IsimRefreshed)
    && !(h.event == Deliver && s.queue != [] && s.queue[0].RecoveryMsg?)
  }

  predicate QuietRun(s: State, hs: seq<Happening>)
    requires InRange(s.retry)
    decreases hs
  {
    hs == [] || (Quiet(s, hs[0]) && QuietRun(Step(s, hs[0].event, hs[0].answers), hs[1..]))
  }

  lemma DelaysAppend(log: seq<Effect>, e: Effect)
    ensures Delays(log + [e]) == Delays(log) + if e.StartRetryPlanned? then [e.seconds] else []
  {
    assert (log + [e])[..|log|] == log;
  }

  /** No failed Start was counted and no delay planned. */
  predicate Uncounted(s: State, r: State) {
    r.retry.start == s.retry.start && r.retry.rounds == s.retry.rounds && Delays(r.log) == Delays(s.log)
  }

  /** One failed Start was counted, and its delay is the one in closed form. */
  predicate Counted(s: State, r: State)
    requires 0 <= Failures(s)
  {
    InRange(r.retry) && Failures(r) == Failures(s) + 1 && Delays(r.log) == Delays(s.log) + [ClosedForm(Failures(r))]
  }

  /** The delay planned after one more failed Start. */
  function NextDelay(c: Retry): int
    requires InRange(c)
  {
    if c.start < 5 then StartDelay(c.start) else if c.rounds + 1 > 6 then 60 else 10 * (c.rounds + 1)
  }

  lemma PlanLogsDelay(s: State)
    requires InRange(s.retry)
    ensures PlanStartRetry(s).log == s.log + [StartRetryPlanned(NextDelay(s.retry))]
    ensures Failures(PlanStartRetry(s)) == Failures(s) + 1
  {
  }

  lemma PlanIsClosedForm(s: State)
    requires InRange(s.retry)
    ensures Counted(s, PlanStartRetry(s))
  {
    PlanLogsDelay(s);
    ClosedFormByRound(s.retry.rounds, s.retry.start);
    DelaysAppend(s.log, StartRetryPlanned(NextDelay(s.retry)));
  }

  lemma ClosedFormByRound(rounds: int, start: int)
    requires 0 <= rounds && 0 <= start <= 5
    ensures ClosedForm(6 * rounds + start + 1) == NextDelay(Retry(0, rounds, start))
  {
    DivMod6(rounds, start);
    if start < 5 {
      DivMod6(rounds, start + 1);
    } else {
      DivMod6(rounds + 1, 0);
      assert 6 * rounds + start + 1 == 6 * (rounds + 1) + 0;
    }
  }

  lemma DivMod6(q: int, r: int)
    requires 0 <= r < 6
    ensures (6 * q + r) / 6 == q && (6 * q + r) % 6 == r
  {
  }

  lemma UncountedLog(s: State, e: Effect)
    requires !e.StartRetryPlanned?
    ensures Uncounted(s, Log(s, e))
  {
    DelaysAppend(s.log, e);
  }

  lemma UncountedMove(s: State, to: Mode, via: Site)
    ensures Uncounted(s, Move(s, to, via))
  {
    UncountedLog(s, Entered(s.mode, to, via, Complete(s.reading)));
  }

  lemma UncountedReadOne(s: State, what: Record, answer: ReadAnswer)
    ensures Uncounted(s, ReadOne(s, what, answer))
  {
    var e := Requested(what, s.reading.records, s.reading.configured);
    UncountedLog(s, e);
    UncountedRecovery(Log(s, e), ReadFailed(what));
  }

  lemma UncountedRead(s: State, a: Answers)
    ensures Uncounted(s, ReadIsim(s, a))
  {
    UncountedLog(s, ReadWithoutIsim);
    if NextRecord(s.reading).Some? {
      UncountedReadOne(s, NextRecord(s.reading).value, a.read);
    }
  }

  lemma UncountedRecovery(s: State, e: IsimError)
    ensures Uncounted(s, Recover(s, e))
  {
    UncountedMove(s, Provisioned, AtRecovery);
  }

  lemma FailedStart(s: State, a: Answers)
    requires InRange(s.retry) && !a.startOk
    ensures var r := StartProvisioning(s, a); Uncounted(s, r) || Counted(s, r)
  {
    PlanIsClosedForm(s.(reading := Idle(s.reading)));
  }

  lemma UncountedUpdate(s: State, enforce: bool, a: Answers)
    ensures Uncounted(s, UpdateAllConfigs(s, enforce, a))
  {
    var s1 := s.(error := None, allowed := true, isim := a.isimConfigured);
    UncountedMove(s1, Provisioned, AtReadFrom);
    UncountedMove(s1, InProvisioning, AtReadFrom);
  }

  lemma UncountedUpdateMsg(s: State, a: Answers)
    ensures Uncounted(s, OnUpdateAll(s, a))
  {
    UncountedMove(s, Refreshing, AtUpdateAll);
    var s1 := Move(s, Refreshing, AtUpdateAll);
    UncountedLog(s1, ToldRefreshStarted);
    UncountedUpdate(Tell(s1, ToldRefreshStarted), false, a);
  }

  lemma QuietRefreshIsim(s: State, enforce: bool, a: Answers)
    requires InRange(s.retry) && !a.startOk
    ensures var r := RefreshIsim(s, enforce, a); Uncounted(s, r) || Counted(s, r)
  {
    var s1 := if enforce then s.(reading := Reading(false, MANDATORY, {}, false), error := None) else s;
    UncountedRead(s1.(reading := Reset(s1.reading)), a);
    FailedStart(s, a);
  }

  lemma UncountedReadRecord(s: State, answered: bool, a: Answers)
    ensures Uncounted(s, OnReadRecord(s, answered, a))
  {
    UncountedRead(if answered then s.(reading := Idle(s.reading)) else s, a);
    UncountedMove(s, Provisioned, AtReadRecord);
    var s1 := Move(s, Provisioned, AtReadRecord);
    UncountedLog(s1, if s.mode == InProvisioning then ToldInitCompleted else ToldRefreshCompleted);
  }

  lemma UncountedNotice(s: State, m: Message, a: Answers)
    requires InRange(s.retry)
    requires m.InitCompletedMsg? || m.RefreshCompletedMsg? || m.RefreshStartedMsg? || m.NotifyErrorMsg?
    ensures Uncounted(s, HandleMessage(s, m, a))
  {
    match m
    case InitCompletedMsg => UncountedLog(s, ToldInitCompleted);
    case RefreshCompletedMsg => UncountedLog(s, ToldRefreshCompleted);
    case RefreshStartedMsg => UncountedLog(s, ToldRefreshStarted);
    case NotifyErrorMsg(target, _) =>
      UncountedLog(s, ToldError(None));
      UncountedLog(s, ToldError(target));
    case _ =>
  }

  lemma QuietMessage(s: State, m: Message, a: Answers)
    requires InRange(s.retry) && !a.startOk && !m.RecoveryMsg?
    ensures var r := HandleMessage(s, m, a); Uncounted(s, r) || Counted(s, r)
  {
    match m
    case StartProvisioningMsg(_) => FailedStart(s, a);
    case ReadRecordMsg(answered) => UncountedReadRecord(s, answered, a);
    case UpdateAllMsg => UncountedUpdateMsg(s, a);
    case RefreshIsimMsg(enforce) => QuietRefreshIsim(s, enforce, a);
    case InitRetryTimerMsg(seconds) => UncountedLog(s, Armed(InitTimer, seconds));
    case StartRetryTimerMsg(seconds) => UncountedLog(s, Armed(StartTimer, seconds));
    case _ => UncountedNotice(s, m, a);
  }

  lemma UncountedError(s: State, e: IsimError)
    ensures Uncounted(s, HandleError(s, e))
  {
    UncountedMove(s, Provisioned, AtRefreshError);
    UncountedReadError(s, e);
  }

  lemma UncountedReadError(s: State, e: IsimError)
    ensures Uncounted(s, HandleReadError(s, e))
  {
    var s1 := s.(reading := Reset(Idle(s.reading)));
    UncountedMove(s1, InProvisioning, AtError);
    var s2 := if LosesCard(e) && s.mode != Provisioned then Move(s1, InProvisioning, AtError) else s1;
    UncountedRecovery(s2, e);
  }

  lemma UncountedCarrierChange(s: State, a: Answers)
    ensures Uncounted(s, HandleCarrierChange(s, a))
  {
    UncountedUpdate(s, s.mode == Provisioned, a);
    var s1 := UpdateAllConfigs(s, s.mode == Provisioned, a);
    UncountedMove(s1, s.mode, AtCarrierChange);
    UncountedMove(s1, Refreshing, AtCarrierChange);
    UncountedLog(Move(s1, Refreshing, AtCarrierChange), ToldRefreshStarted);
  }

  lemma UncountedStateChanged(s: State, st: IsimState)
    requires st != IsimReady && st != IsimRefreshed
    ensures Uncounted(s, HandleStateChanged(s, st))
  {
    UncountedMove(s.(error := None), Refreshing, AtStateChange);
    UncountedMove(s.(reading := Reset(s.reading)), Refreshing, AtStateChange);
  }

  lemma QuietTimer(s: State, t: Timer, a: Answers)
    requires InRange(s.retry) && !a.startOk
    ensures var r := HandleTimer(s, t, a); Uncounted(s, r) || Counted(s, r)
  {
    FailedStart(s.(timers := s.timers - {t}), a);
  }

  lemma QuietDeliver(s: State, a: Answers)
    requires InRange(s.retry) && !a.startOk && s.queue != [] && !s.queue[0].RecoveryMsg?
    ensures var r := Step(s, Deliver, a); Uncounted(s, r) || Counted(s, r)
  {
    QuietMessage(s.(queue := s.queue[1..]), s.queue[0], a);
  }

  lemma QuietStep(s: State, h: Happening)
    requires InRange(s.retry) && Quiet(s, h)
    ensures var r := Step(s, h.event, h.answers); Uncounted(s, r) || Counted(s, r)
  {
    var a := h.answers;
    match h.event
    case Deliver =>
      if s.queue != [] {
        QuietDeliver(s, a);
      }
    case OnError(e) => UncountedError(s, e);
    case OnStateChanged(st) => UncountedStateChanged(s, st);
    case TimerExpired(t) => QuietTimer(s, t, a);
    case CarrierConfigChanged(_) => UncountedCarrierChange(s, a);
    case _ =>
  }

  /** The delays of failed Start calls number `lo` + 1 to `hi`. */
  function Schedule(lo: int, hi: int): seq<int>
    requires 0 <= lo <= hi
    decreases hi - lo
  {
    if lo == hi then [] else [ClosedForm(lo + 1)] + Schedule(lo + 1, hi)
  }

  /** What a step did, put before what the rest of the run did. */
  lemma StepThenRest(s: State, q: State, r: State)
    requires InRange(s.retry) && InRange(q.retry) && (Uncounted(s, q) || Counted(s, q))
    requires Failures(q) <= Failures(r) && Delays(r.log) == Delays(q.log) + Schedule(Failures(q), Failures(r))
    ensures Failures(s) <= Failures(r) && Delays(r.log) == Delays(s.log) + Schedule(Failures(s), Failures(r))
  {
    if !Uncounted(s, q) {
      assert Schedule(Failures(s), Failures(r)) == [ClosedForm(Failures(q))] + Schedule(Failures(q), Failures(r));
    }
  }

  lemma {:induction false} QuietRunFollowsSchedule(s: State, hs: seq<Happening>)
    requires InRange(s.retry) && QuietRun(s, hs)
    ensures var r := Run(s, hs);
            && Failures(s) <= Failures(r)
            && Delays(r.log) == Delays(s.log) + Schedule(Failures(s), Failures(r))
    decreases hs
  {
    if hs == [] {
      assert Delays(s.log) + [] == Delays(s.log);
    } else {
      var q := Step(s, hs[0].event, hs[0].answers);
      QuietStep(s, hs[0]);
      QuietRunFollowsSchedule(q, hs[1..]);
      StepThenRest(s, q, Run(s, hs));
    }
  }

  lemma {:induction false} ScheduleLength(lo: int, hi: int)
    requires 0 <= lo <= hi
    ensures |Schedule(lo, hi)| == hi - lo
    decreases hi - lo
  {
    if lo < hi {
      ScheduleLength(lo + 1, hi);
    }
  }

  lemma {:induction false} ScheduleAt(lo: int, hi: int, i: nat)
    requires 0 <= lo <= hi && i < hi - lo
    ensures |Schedule(lo, hi)| == hi - lo
    ensures Schedule(lo, hi)[i] == ClosedForm(lo + i + 1)
    decreases hi - lo
  {
    ScheduleLength(lo, hi);
    if i > 0 {
      ScheduleAt(lo + 1, hi, i - 1);
      assert lo + 1 + (i - 1) + 1 == lo + i + 1;
    }
  }

  /** With both counters at zero, the n-th failed Start of a quiet run is followed by the n-th delay of the
      closed form, whatever else happens in between. */
  lemma NthDelay(s: State, hs: seq<Happening>, n: nat)
    requires InRange(s.retry) && Failures(s) == 0 && Delays(s.log) == []
    requires QuietRun(s, hs)
    requires 1 <= n <= |Delays(Run(s, hs).log)|
    ensures Delays(Run(s, hs).log)[n - 1] == ClosedForm(n)
  {
    QuietRunFollowsSchedule(s, hs);
    var k := Failures(Run(s, hs));
    if k > 0 {
      ScheduleAt(0, k, 0);
      ScheduleAt(0, k, n - 1);
    }
  }
}
