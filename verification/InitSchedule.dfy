/** The schedule of retries after failed Init calls of the ISIM: in closed form, over every run between two resets of
    the count. */
module InitSchedule {
  import opened Lists
  import opened Provisioning

  /** The delay in seconds after the n-th failed Init. */
  function InitClosedForm(n: int): int
    requires 1 <= n
  {
    if n <= 2 then 2 else if n == 3 then 4 else if n == 4 then 8 else if n == 5 then 16 else if n == 6 then 32 else 60
  }

  lemma ClosedFormIsDelay(failures: int)
    requires 0 <= failures
    ensures InitDelay(failures) == InitClosedForm(failures + 1)
  {
  }

  /** Calls Init, without resetting the count of its failures first. */
  predicate TriesInit(s: State, h: Happening) {
    || h.event == Begin
    || (h.event == TimerExpired(InitTimer) && InitTimer in s.timers && s.retry.init > 0)
    || (h.event == Deliver && s.queue != [] && s.queue[0].RefreshIsimMsg? && !s.attached)
  }

  predicate FailsInit(s: State, h: Happening) {
    TriesInit(s, h) && s.isim && h.answers.found && !h.answers.initOk
  }

  /** The count of failed Init calls is not reset: by a full refresh, an INIT notice, a recovery, or a sixth failed
      Start in a row. */
  predicate KeepsCount(s: State, h: Happening) {
    && h.event != Refresh
    && h.event != OnStateChanged(IsimInit)
    && !(h.event == Deliver && s.queue != [] && s.queue[0].RecoveryMsg?)
    && (s.retry.start < 5 || h.answers.startOk)
  }

  predicate KeepsCountRun(s: State, hs: seq<Happening>)
    requires InRange(s.retry)
    decreases hs
  {
    hs == [] || (KeepsCount(s, hs[0]) && KeepsCountRun(Step(s, hs[0].event, hs[0].answers), hs[1..]))
  }

  // ---------------------------------------------------------------- one function of the machine at a time

  /** Messages were added, none of them for the Init timer. */
  predicate OthersPosted(q: seq<Message>, r: seq<Message>) {
    q <= r && forall i | |q| <= i < |r| :: !r[i].InitRetryTimerMsg?
  }

  /** Neither the count nor the messages for the Init timer change. */
  predicate Same(s: State, r: State) {
    r.retry.init == s.retry.init && OthersPosted(s.queue, r.queue) && (s.allowed ==> r.allowed)
  }

  /** A failed Init was counted, and its delay asked for. */
  predicate Failed(s: State, r: State) {
    && r.retry.init == s.retry.init + 1 && r.retry.init >= 1 && r.allowed
    && r.queue == s.queue + [InitRetryTimerMsg(InitClosedForm(r.retry.init))]
  }

  lemma InitFails(s: State, a: Answers)
    requires InRange(s.retry) && s.allowed
    ensures var r := InitProvisioning(s, a);
      if s.isim && a.found && !a.initOk then Failed(s, r) else Same(s, r)
  {
    ClosedFormIsDelay(s.retry.init);
  }

  lemma ReadOneSame(s: State, what: Record, answer: ReadAnswer)
    ensures Same(s, ReadOne(s, what, answer))
  {
  }

  lemma ReadSame(s: State, a: Answers)
    ensures Same(s, ReadIsim(s, a))
  {
    if NextRecord(s.reading).Some? {
      ReadOneSame(s, NextRecord(s.reading).value, a.read);
    }
  }

  lemma PlanSame(s: State)
    requires InRange(s.retry) && s.retry.start < 5
    ensures Same(s, PlanStartRetry(s))
  {
  }

  lemma StartSame(s: State, a: Answers)
    requires InRange(s.retry) && (s.retry.start < 5 || a.startOk)
    ensures Same(s, StartProvisioning(s, a))
  {
    var s0 := s.(reading := Idle(s.reading));
    if a.startOk {
      ReadSame(s0.(retry := s.retry.(rounds := 0)), a);
    } else {
      PlanSame(s0);
    }
  }

  lemma RefreshIsimTimes(s: State, enforce: bool, a: Answers)
    requires InRange(s.retry) && s.allowed && (s.retry.start < 5 || a.startOk)
    ensures var r := RefreshIsim(s, enforce, a);
      if s.isim && !s.attached && a.found && !a.initOk then Failed(s, r) else Same(s, r)
  {
    InitFails(s, a);
    StartSame(s, a);
    var s1 := if enforce then s.(reading := Reading(false, MANDATORY, {}, false), error := None) else s;
    ReadSame(s1.(reading := Reset(s1.reading)), a);
  }

  lemma ReadRecordSame(s: State, answered: bool, a: Answers)
    ensures Same(s, OnReadRecord(s, answered, a))
  {
    ReadSame(if answered then s.(reading := Idle(s.reading)) else s, a);
  }

  lemma UpdateSame(s: State, enforce: bool, a: Answers)
    ensures Same(s, UpdateAllConfigs(s, enforce, a))
  {
  }

  lemma UpdateMessageSame(s: State, a: Answers)
    ensures Same(s, OnUpdateAll(s, a))
  {
    var t := Tell(Move(s, Refreshing, AtUpdateAll), ToldRefreshStarted);
    UpdateSame(t, false, a);
  }

  lemma MessageTimes(s: State, m: Message, a: Answers)
    requires InRange(s.retry) && s.allowed && (s.retry.start < 5 || a.startOk) && !m.RecoveryMsg?
    ensures var r := HandleMessage(s, m, a);
      if m.RefreshIsimMsg? && s.isim && !s.attached && a.found && !a.initOk then Failed(s, r) else Same(s, r)
  {
    match m
    case StartProvisioningMsg(_) => StartSame(s, a);
    case ReadRecordMsg(answered) => ReadRecordSame(s, answered, a);
    case UpdateAllMsg => UpdateMessageSame(s, a);
    case RefreshIsimMsg(enforce) => RefreshIsimTimes(s, enforce, a);
    case _ =>
  }

  lemma RecoverKeepsQueue(s: State, e: IsimError)
    ensures Recover(s, e).queue == s.queue && Recover(s, e).allowed == s.allowed
  {
  }

  lemma ReadErrorSame(s: State, e: IsimError)
    ensures Same(s, HandleReadError(s, e))
  {
    var s1 := s.(reading := Reset(Idle(s.reading)));
    var s2 := if LosesCard(e) && s.mode != Provisioned then Move(s1, InProvisioning, AtError) else s1;
    RecoverKeepsQueue(s2, e);
  }

  lemma ErrorSame(s: State, e: IsimError)
    ensures Same(s, HandleError(s, e))
  {
    ReadErrorSame(s, e);
  }

  lemma StateChangeSame(s: State, st: IsimState)
    requires st != IsimInit
    ensures Same(s, HandleStateChanged(s, st))
  {
  }

  lemma TimerTimes(s: State, t: Timer, a: Answers)
    requires InRange(s.retry) && s.allowed && (s.retry.start < 5 || a.startOk)
    ensures var r := HandleTimer(s, t, a);
      if t in s.timers && t == InitTimer && s.retry.init > 0 && s.isim && a.found && !a.initOk then Failed(s, r)
      else Same(s, r)
  {
    var s1 := s.(timers := s.timers - {t});
    InitFails(s1, a);
    StartSame(s1, a);
  }

  lemma CarrierChangeSame(s: State, a: Answers)
    ensures Same(s, HandleCarrierChange(s, a))
  {
    UpdateSame(s, s.mode == Provisioned, a);
  }

  lemma CallbackSame(s: State, h: Happening)
    requires InRange(s.retry)
    requires h.event.OnImpi? || h.event.OnImpu? || h.event.OnDomain? || h.event.OnIst? || h.event.OnPcscf?
    ensures Same(s, Step(s, h.event, h.answers))
  {
  }

  lemma RequestSame(s: State, h: Happening)
    requires InRange(s.retry)
    requires || h.event.OnOtherField? || h.event.SetListener? || h.event.RemoveListener?
             || h.event.UpdateSubscriberAll? || h.event.UpdateIsimAttribute?
    ensures Same(s, Step(s, h.event, h.answers))
  {
    if h.event.SetListener? {
      }
  }

  /** The state whose queue is without the message that a step takes. */
  function Taken(s: State, h: Happening): State {
    if h.event == Deliver && s.queue != [] then s.(queue := s.queue[1..]) else s
  }

  lemma DeliverTimes(s: State, h: Happening)
    requires InRange(s.retry) && s.allowed && KeepsCount(s, h) && h.event == Deliver && s.queue != []
    ensures var r := Step(s, h.event, h.answers);
      if FailsInit(s, h) then Failed(Taken(s, h), r) else Same(Taken(s, h), r)
  {
    MessageTimes(Taken(s, h), s.queue[0], h.answers);
  }

  /** Every step that keeps the count either counts one failure and asks for its delay, or leaves both alone. */
  lemma KeepsCountStep(s: State, h: Happening)
    requires InRange(s.retry) && s.allowed && KeepsCount(s, h)
    ensures var r := Step(s, h.event, h.answers);
      if FailsInit(s, h) then Failed(Taken(s, h), r) else Same(Taken(s, h), r)
  {
    var a := h.answers;
    match h.event
    case Begin => InitFails(s, a);
    case Deliver =>
      if s.queue != [] {
        DeliverTimes(s, h);
      }
    case OnError(e) => ErrorSame(s, e);
    case OnStateChanged(st) => StateChangeSame(s, st);
    case TimerExpired(t) => TimerTimes(s, t, a);
    case CarrierConfigChanged(_) => CarrierChangeSame(s, a);
    case OnImpi => CallbackSame(s, h);
    case OnImpu => CallbackSame(s, h);
    case OnDomain => CallbackSame(s, h);
    case OnIst(_) => CallbackSame(s, h);
    case OnPcscf => CallbackSame(s, h);
    case _ => RequestSame(s, h);
  }

  // ---------------------------------------------------------------- runs

  /** The delays in the messages that ask for the Init timer. */
  function InitTimes(q: seq<Message>): seq<int> {
    if q == [] then []
    else
      var last := q[|q| - 1];
      InitTimes(q[..|q| - 1]) + if last.InitRetryTimerMsg? then [last.seconds] else []
  }

  lemma TimesOfPost(q: seq<Message>, m: Message)
    ensures InitTimes(q + [m]) == InitTimes(q) + if m.InitRetryTimerMsg? then [m.seconds] else []
  {
    assert (q + [m])[..|q|] == q;
  }

  lemma {:induction false} TimesOfOthers(q: seq<Message>, r: seq<Message>)
    requires OthersPosted(q, r)
    ensures InitTimes(r) == InitTimes(q)
    decreases |r|
  {
    if |r| > |q| {
      TimesOfOthers(q, r[..|r| - 1]);
    } else {
      assert r == q;
    }
  }

  /** What a step adds to the delays asked for. */
  lemma StepDelays(s: State, h: Happening)
    requires InRange(s.retry) && s.allowed && KeepsCount(s, h)
    ensures var r := Step(s, h.event, h.answers);
      && r.allowed
      && r.retry.init == s.retry.init + (if FailsInit(s, h) then 1 else 0)
      && NewDelays(s, h) == if FailsInit(s, h) then [InitClosedForm(r.retry.init)] else []
  {
    var r := Step(s, h.event, h.answers);
    var q := Taken(s, h).queue;
    KeepsCountStep(s, h);
    if FailsInit(s, h) {
      TimesOfPost(q, InitRetryTimerMsg(InitClosedForm(r.retry.init)));
    } else {
      TimesOfOthers(q, r.queue);
    }
  }

  /** The delays that a step asks for, whatever they are. */
  function NewDelays(s: State, h: Happening): seq<int>
    requires InRange(s.retry)
  {
    var before, after := InitTimes(Taken(s, h).queue), InitTimes(Step(s, h.event, h.answers).queue);
    if before <= after then after[|before|..] else after
  }

  function AskedDelays(s: State, hs: seq<Happening>): seq<int>
    requires InRange(s.retry)
    decreases hs
  {
    if hs == [] then [] else NewDelays(s, hs[0]) + AskedDelays(Step(s, hs[0].event, hs[0].answers), hs[1..])
  }

  function Failures(s: State, hs: seq<Happening>): nat
    requires InRange(s.retry)
    decreases hs
  {
    if hs == [] then 0
    else (if FailsInit(s, hs[0]) then 1 else 0) + Failures(Step(s, hs[0].event, hs[0].answers), hs[1..])
  }

  /** The delays of failed Init calls number `failures` + 1 and so on. */
  function DelaysFrom(failures: int, n: nat): (r: seq<int>)
    requires 0 <= failures
    ensures |r| == n && forall i | 0 <= i < n :: r[i] == InitClosedForm(failures + i + 1)
  {
    seq(n, i requires 0 <= i < n => InitClosedForm(failures + i + 1))
  }

  lemma DelaysFromNext(failures: int, n: nat)
    requires 0 <= failures
    ensures [InitClosedForm(failures + 1)] + DelaysFrom(failures + 1, n) == DelaysFrom(failures, n + 1)
  {
  }

  /** Over every run that does not reset the count, the delays asked for are those of the failed Init calls in turn,
      and nothing else asks for the Init timer. */
  lemma {:induction false} NthInitDelay(s: State, hs: seq<Happening>)
    requires InRange(s.retry) && s.allowed && KeepsCountRun(s, hs)
    ensures AskedDelays(s, hs) == DelaysFrom(s.retry.init, Failures(s, hs))
    ensures Run(s, hs).retry.init == s.retry.init + Failures(s, hs)
    decreases hs
  {
    if hs != [] {
      var r := Step(s, hs[0].event, hs[0].answers);
      StepDelays(s, hs[0]);
      NthInitDelay(r, hs[1..]);
      if FailsInit(s, hs[0]) {
        DelaysFromNext(s.retry.init, Failures(r, hs[1..]));
      }
    }
  }

  lemma LoadResetsTheCount(configured: set<Record>, load: Answers)
    ensures var s := ReadFrom(Constructed(configured), load); s.retry == Retry(0, 0, 0) && s.allowed
  {
  }

  /** While the count was zero at first, the n-th failed Init asks for 2, 2, 4, 8, 16, 32 and then always 60 seconds. */
  lemma {:induction false} InitDelaysFromZero(s: State, hs: seq<Happening>, n: nat)
    requires InRange(s.retry) && s.allowed && s.retry.init == 0 && KeepsCountRun(s, hs)
    ensures |AskedDelays(s, hs)| == Failures(s, hs)
    ensures n < Failures(s, hs) ==> AskedDelays(s, hs)[n] == [2, 2, 4, 8, 16, 32, 60][if n < 6 then n else 6]
  {
    NthInitDelay(s, hs);
  }

  /** That is so from every load. */
  lemma {:induction false} InitDelaysFromLoad(configured: set<Record>, load: Answers, hs: seq<Happening>, n: nat)
    requires KeepsCountRun(ReadFrom(Constructed(configured), load), hs)
    ensures var s := ReadFrom(Constructed(configured), load);
      && |AskedDelays(s, hs)| == Failures(s, hs)
      && (n < Failures(s, hs) ==> AskedDelays(s, hs)[n] == [2, 2, 4, 8, 16, 32, 60][if n < 6 then n else 6])
  {
    LoadResetsTheCount(configured, load);
    InitDelaysFromZero(ReadFrom(Constructed(configured), load), hs, n);
  }
}
