/** Provisioning without faults. The ISIM may answer at once, later or with nothing, be ready at its start or only
    tell so afterwards, and repeat itself; listeners, stale timers, notices and events for others come in between. */
module ProvisioningProgress {
  import opened Lists
  import opened Provisioning
  import opened ProvisioningCounts

  // ---------------------------------------------------------------- fault-free runs

  predicate IsWork(m: Message) {
    m.ReadRecordMsg? || m.StartProvisioningMsg?
  }

  /** Messages that neither restart nor refresh anything. */
  predicate IsHarmless(m: Message) {
    || IsWork(m) || m.RefreshCompletedMsg? || m.RefreshStartedMsg? || m.NotifyErrorMsg?
    || m.InitRetryTimerMsg? || m.StartRetryTimerMsg?
  }

  /** The queued messages that make the machine read, and those among them that ask for the next read. */
  function Work(q: seq<Message>): nat {
    if q == [] then 0 else (if IsWork(q[0]) then 1 else 0) + Work(q[1..])
  }

  predicate HasRead(q: seq<Message>) {
    exists i | 0 <= i < |q| :: q[i].ReadRecordMsg?
  }

  /** Reading goes on: a read is out, or a message asks for the next one. */
  predicate UnderWay(s: State) {
    s.reading.pending || HasRead(s.queue)
  }

  /** The record whose callback this is. */
  function CallbackOf(e: Event): Option<Record> {
    match e
    case OnImpi => Some(Impi)
    case OnImpu => Some(Impu)
    case OnDomain => Some(Domain)
    case OnIst(_) => Some(Ist)
    case OnPcscf => Some(Pcscf)
    case _ => None
  }

  predicate ReadyToRead(a: Answers) {
    a.state == IsimReady && a.read != ReadRefused
  }

  /** No error, refusal, restart, refresh or loss of the ISIM; and the ISIM calls back only once it was found. */
  predicate FaultFree(s: State, h: Happening) {
    var a := h.answers;
    match h.event
    case Begin => a.found && a.initOk
    case Deliver =>
      s.queue != [] ==>
        (s.queue[0].StartProvisioningMsg? ==> a.startOk && (a.ready ==> ReadyToRead(a)) && (UnderWay(s) ==> a.ready))
        && (s.queue[0].ReadRecordMsg? ==> ReadyToRead(a))
    case OnStateChanged(st) =>
      s.attached && (st == IsimIdle || st == IsimReady || (st == IsimInit && s.mode == InProvisioning && !UnderWay(s)))
    case OnError(e) => e == RefreshRegFailed
    case CarrierConfigChanged(own) => !own
    case UpdateIsimAttribute(enabled) => enabled
    case OnOtherField => true
    case SetListener(_) => true
    case RemoveListener(_) => true
    case TimerExpired(_) => true
    case Refresh => false
    case UpdateSubscriberAll => false
    case _ => s.attached
  }

  predicate FaultFreeRun(s: State, hs: seq<Happening>)
    requires InRange(s.retry)
    decreases hs
  {
    hs == [] || (FaultFree(s, hs[0]) && FaultFreeRun(Step(s, hs[0].event, hs[0].answers), hs[1..]))
  }

  /** Provisioning or a refresh goes on. */
  predicate IsReading(mode: Mode) {
    mode == InProvisioning || mode == Refreshing
  }

  /** A read can be out for the next record only. */
  predicate IsOut(r: Reading) {
    NextRecord(r).Some? && !(NextRecord(r).value == Pcscf && SkipsPcscf(r))
  }

  /** What fault-free steps keep. The timers that are left were armed for failures long overcome. */
  predicate Calm(s: State) {
    && InRange(s.retry) && s.allowed && s.isim && MANDATORY <= s.reading.configured
    && (IsReading(s.mode) || (s.mode == Provisioned && Complete(s.reading)))
    && (s.reading.pending ==> IsOut(s.reading))
    && (forall i | 0 <= i < |s.queue| :: IsHarmless(s.queue[i]))
    && s.retry.init == 0 && s.retry.start == 0
    && (s.reading.pending || Work(s.queue) > 0 ==> s.attached)
  }

  // ---------------------------------------------------------------- records and queues

  function Unset(r: Reading): nat {
    |r.configured - r.records|
  }

  lemma NextIsUnset(r: Reading)
    requires MANDATORY <= r.configured
    ensures NextRecord(r).Some? <==> !Complete(r)
    ensures NextRecord(r).Some? ==> NextRecord(r).value in r.configured - r.records
  {
    assert Impi in MANDATORY && Impu in MANDATORY && Domain in MANDATORY;
    if NextRecord(r).None? {
      forall x | x in r.configured ensures x in r.records {
        match x case Impi => case Impu => case Domain => case Ist => case Pcscf =>
      }
    }
  }

  lemma UnsetAfterGot(r: Reading, what: Record)
    ensures Unset(Got(r, what)) == Unset(r) - if what in r.configured - r.records then 1 else 0
  {
    var left := r.configured - r.records;
    assert Got(r, what).configured - Got(r, what).records == left - {what};
    if what !in left {
      assert left - {what} == left;
    }
  }

  lemma CompleteMeansNoneUnset(r: Reading)
    ensures Complete(r) <==> Unset(r) == 0
  {
    if Complete(r) {
      assert r.configured - r.records == {};
    } else {
      var x :| x in r.configured && x !in r.records;
      assert x in r.configured - r.records;
    }
  }

  lemma AtMostFiveRecords(r: Reading)
    ensures Unset(r) <= 5
  {
    var all := {Impi, Impu, Domain, Ist, Pcscf};
    forall x | x in r.configured - r.records ensures x in all {
      match x case Impi => case Impu => case Domain => case Ist => case Pcscf =>
    }
    SubsetSize(r.configured - r.records, all);
    assert |all| == 5;
  }

  lemma {:induction false} WorkOfPost(q: seq<Message>, m: Message)
    ensures Work(q + [m]) == Work(q) + if IsWork(m) then 1 else 0
    decreases |q|
  {
    if q == [] {
      assert q + [m] == [m] && [m][1..] == [];
    } else {
      assert (q + [m])[1..] == q[1..] + [m];
      WorkOfPost(q[1..], m);
    }
  }

  lemma HasReadOfPost(q: seq<Message>, m: Message)
    ensures HasRead(q + [m]) <==> HasRead(q) || m.ReadRecordMsg?
  {
    assert (q + [m])[|q|] == m;
    assert forall i | 0 <= i < |q| :: (q + [m])[i] == q[i];
  }

  lemma {:induction false} ReadIsWork(q: seq<Message>)
    requires HasRead(q)
    ensures Work(q) > 0
    decreases |q|
  {
    if !q[0].ReadRecordMsg? {
      var i :| 0 <= i < |q| && q[i].ReadRecordMsg?;
      assert q[1..][i - 1] == q[i];
      ReadIsWork(q[1..]);
    }
  }

  lemma HasReadTail(q: seq<Message>)
    requires q != []
    ensures HasRead(q) <==> q[0].ReadRecordMsg? || HasRead(q[1..])
  {
    assert forall i | 0 < i < |q| :: q[i] == q[1..][i - 1];
  }

  // ---------------------------------------------------------------- what fault-free steps do

  /** What became of the reading and the work in a step that set a record or not, asked for a read or not. */
  datatype Change = Change(reading: Reading, queue: seq<Message>, mode: Mode)

  /** A read made when nothing is out: it is out now, or nothing was there and the next one is due at once. */
  function AfterRead(mode: Mode, r: Reading, q: seq<Message>, a: Answers): Change
    requires NextRecord(r).Some?
  {
    if !IsOut(r) || a.read == NoRecords then
      Change(Got(r, NextRecord(r).value), q + [ReadRecordMsg(false)], mode)
    else Change(r.(pending := true), q, mode)
  }

  function AfterDelivery(s: State, a: Answers): Change
    requires s.queue != []
  {
    var q := s.queue[1..];
    var same := Change(s.reading, q, s.mode);
    var idle := Idle(s.reading);
    match s.queue[0]
    case StartProvisioningMsg(_) =>
      if a.ready && NextRecord(s.reading).Some? then AfterRead(s.mode, idle, q, a) else Change(idle, q, s.mode)
    case ReadRecordMsg(answered) =>
      if NextRecord(s.reading).None? then Change(s.reading, q, Provisioned)
      else if s.reading.pending && !answered then same
      else AfterRead(s.mode, idle, q, a)
    case _ => same
  }

  function After(s: State, h: Happening): Change {
    var same := Change(s.reading, s.queue, s.mode);
    match h.event
    case Deliver => if s.queue == [] then same else AfterDelivery(s, h.answers)
    case OnStateChanged(IsimReady) => Change(s.reading, s.queue + [ReadRecordMsg(false)], s.mode)
    case OnStateChanged(IsimInit) => Change(Idle(s.reading), s.queue + [StartProvisioningMsg(false)], s.mode)
    case SetListener(l) =>
      if l !in s.listeners && s.error.Some? then
        Change(s.reading, s.queue + [NotifyErrorMsg(Some(l), false)], s.mode)
      else same
    case OnIst(bit) =>
      var r := if bit.Some? then s.reading.(istPcscf := bit.value) else s.reading;
      Change(Got(Idle(r), Ist), s.queue + [ReadRecordMsg(true)], s.mode)
    case e =>
      if CallbackOf(e).Some? then Change(Got(Idle(s.reading), CallbackOf(e).value), s.queue + [ReadRecordMsg(true)], s.mode)
      else same
  }

  /** The part of the state that only its own events change. */
  predicate Steady(s: State, r: State) {
    r.allowed == s.allowed && r.isim == s.isim && r.retry.init == s.retry.init && r.retry.start == s.retry.start
  }

  predicate Becomes(s: State, r: State, c: Change) {
    Steady(s, r) && r.reading == c.reading && r.queue == c.queue && r.mode == c.mode && (s.attached ==> r.attached)
  }

  lemma ReadBecomes(s: State, a: Answers)
    requires s.attached && !s.reading.pending && IsReading(s.mode) && NextRecord(s.reading).Some? && ReadyToRead(a)
    ensures Becomes(s, ReadIsim(s, a), AfterRead(s.mode, s.reading, s.queue, a))
  {
  }

  lemma StartBecomes(s: State, a: Answers)
    requires Calm(s) && s.attached && a.startOk && (a.ready ==> ReadyToRead(a))
    ensures var c := if a.ready && NextRecord(s.reading).Some? then AfterRead(s.mode, Idle(s.reading), s.queue, a)
                     else Change(Idle(s.reading), s.queue, s.mode);
      Becomes(s, StartProvisioning(s, a), c)
  {
    NextIsUnset(s.reading);
    if a.ready && NextRecord(s.reading).Some? {
      ReadBecomes(s.(reading := Idle(s.reading), retry := s.retry.(rounds := 0)), a);
    }
  }

  lemma ReadMessageBecomes(s: State, answered: bool, a: Answers)
    requires Calm(s) && s.attached && ReadyToRead(a)
    ensures var c := if NextRecord(s.reading).None? then Change(s.reading, s.queue, Provisioned)
                     else if s.reading.pending && !answered then Change(s.reading, s.queue, s.mode)
                     else AfterRead(s.mode, Idle(s.reading), s.queue, a);
      Becomes(s, OnReadRecord(s, answered, a), c)
  {
    NextIsUnset(s.reading);
    if NextRecord(s.reading).Some? && !(s.reading.pending && !answered) {
      var t := if answered then s.(reading := Idle(s.reading)) else s;
      assert t.reading == Idle(s.reading);
      ReadBecomes(t, a);
    }
  }

  lemma WorkOfTail(q: seq<Message>)
    requires q != []
    ensures Work(q) == (if IsWork(q[0]) then 1 else 0) + Work(q[1..])
  {
  }

  lemma DeliveryBecomes(s: State, a: Answers)
    requires Calm(s) && FaultFree(s, Happening(Deliver, a)) && s.queue != []
    ensures Becomes(s, Step(s, Deliver, a), AfterDelivery(s, a))
  {
    var t := s.(queue := s.queue[1..]);
    var m := s.queue[0];
    WorkOfTail(s.queue);
    assert IsHarmless(m);
    CalmWithoutFirst(s);
    match m {
      case StartProvisioningMsg(_) => StartBecomes(t, a);
      case ReadRecordMsg(answered) => ReadMessageBecomes(t, answered, a);
      case _ => NoticeBecomes(t, m, a);
    }
    DeliverIs(s, a);
  }

  lemma DeliverIs(s: State, a: Answers)
    requires InRange(s.retry) && s.queue != []
    ensures Step(s, Deliver, a) == HandleMessage(s.(queue := s.queue[1..]), s.queue[0], a)
  {
  }

  lemma CalmWithoutFirst(s: State)
    requires Calm(s) && s.queue != []
    ensures Calm(s.(queue := s.queue[1..]))
  {
    WorkOfTail(s.queue);
  }

  lemma NoticeBecomes(s: State, m: Message, a: Answers)
    requires InRange(s.retry) && IsHarmless(m) && !IsWork(m)
    ensures Becomes(s, HandleMessage(s, m, a), Change(s.reading, s.queue, s.mode))
  {
  }

  lemma StaleTimerBecomes(s: State, t: Timer, a: Answers)
    requires InRange(s.retry) && s.retry.init == 0 && s.retry.start == 0
    ensures Becomes(s, HandleTimer(s, t, a), Change(s.reading, s.queue, s.mode))
  {
  }

  lemma StateNoticeBecomes(s: State, st: IsimState)
    requires s.isim && s.retry.init == 0 && s.retry.start == 0
    requires st == IsimIdle || st == IsimReady || (st == IsimInit && s.mode == InProvisioning)
    ensures Becomes(s, HandleStateChanged(s, st),
                    match st
                    case IsimIdle => Change(s.reading, s.queue, s.mode)
                    case IsimReady => Change(s.reading, s.queue + [ReadRecordMsg(false)], s.mode)
                    case _ => Change(Idle(s.reading), s.queue + [StartProvisioningMsg(false)], s.mode))
  {
  }

  /** What every fault-free step does to the reading, the queue and the mode. */
  lemma StepBecomes(s: State, h: Happening)
    requires Calm(s) && FaultFree(s, h)
    ensures Becomes(s, Step(s, h.event, h.answers), After(s, h))
  {
    match h.event
    case Deliver =>
      if s.queue != [] {
        DeliveryBecomes(s, h.answers);
      }
    case TimerExpired(t) => StaleTimerBecomes(s, t, h.answers);
    case OnStateChanged(st) => StateNoticeBecomes(s, st);
    case _ =>
  }

  // ---------------------------------------------------------------- one step: the invariant

  lemma AfterReadKeeps(mode: Mode, r: Reading, q: seq<Message>, a: Answers)
    requires MANDATORY <= r.configured && NextRecord(r).Some? && !r.pending
    ensures var c := AfterRead(mode, r, q, a);
      && c.reading.configured == r.configured && r.records <= c.reading.records
      && (c.reading.pending ==> IsOut(c.reading) && c.queue == q)
      && (!c.reading.pending ==> c.queue == q + [ReadRecordMsg(false)])
  {
  }

  /** The invariant on the part that a step changes. */
  predicate CalmChange(c: Change, configured: set<Record>) {
    && c.reading.configured == configured
    && (IsReading(c.mode) || (c.mode == Provisioned && Complete(c.reading)))
    && (c.reading.pending ==> IsOut(c.reading))
    && forall i | 0 <= i < |c.queue| :: IsHarmless(c.queue[i])
  }

  lemma DeliveryKeepsCalm(s: State, a: Answers)
    requires Calm(s) && s.queue != []
    ensures CalmChange(AfterDelivery(s, a), s.reading.configured)
  {
    NextIsUnset(s.reading);
    var q := s.queue[1..];
    assert forall i | 0 <= i < |q| :: q[i] == s.queue[i + 1];
    if NextRecord(s.reading).Some? {
      AfterReadKeeps(s.mode, Idle(s.reading), q, a);
    }
  }

  lemma OthersKeepCalm(s: State, h: Happening)
    requires Calm(s) && h.event != Deliver
    ensures CalmChange(After(s, h), s.reading.configured)
  {
  }

  /** Work is there only for an ISIM that was found. */
  lemma WorkNeedsIsim(s: State, h: Happening)
    requires Calm(s) && FaultFree(s, h) && !s.attached
    ensures var c := After(s, h); !c.reading.pending && Work(c.queue) == 0
  {
    if h.event == Deliver && s.queue != [] {
      WorkOfTail(s.queue);
    }
    if h.event.SetListener? {
      WorkOfPost(s.queue, NotifyErrorMsg(Some(h.event.listener), false));
    }
  }

  lemma CalmStep(s: State, h: Happening)
    requires Calm(s) && FaultFree(s, h)
    ensures Calm(Step(s, h.event, h.answers))
  {
    StepBecomes(s, h);
    if h.event == Deliver {
      if s.queue != [] {
        DeliveryKeepsCalm(s, h.answers);
      }
    } else {
      OthersKeepCalm(s, h);
    }
    if !s.attached {
      WorkNeedsIsim(s, h);
    }
  }

  // ---------------------------------------------------------------- one step: reads and ends

  /** A read is asked for in this step. */
  predicate Asks(s: State, h: Happening) {
    && h.event == Deliver && s.queue != [] && IsOut(s.reading)
    && match s.queue[0]
       case StartProvisioningMsg(_) => h.answers.ready
       case ReadRecordMsg(answered) => !s.reading.pending || answered
       case _ => false
  }

  lemma {:induction false} AsksIsAdded(s: State, h: Happening, k: Kind)
    requires Calm(s) && FaultFree(s, h) && (k == Reads || k.ReadsOf?)
    ensures StepAdds(s, h, k) == if Asks(s, h) then OfRead(NextRecord(s.reading).value, k) else 0
  {
    NextIsUnset(s.reading);
    if h.event == Deliver && s.queue != [] {
      WorkOfTail(s.queue);
      assert IsHarmless(s.queue[0]);
    }
  }

  lemma {:induction false} AsksIsCounted(s: State, h: Happening, k: Kind)
    requires Calm(s) && FaultFree(s, h) && (k == Reads || k.ReadsOf?)
    ensures Count(Step(s, h.event, h.answers).log, k)
         == Count(s.log, k) + if Asks(s, h) then OfRead(NextRecord(s.reading).value, k) else 0
  {
    StepAddsExactly(s, h, k);
    AsksIsAdded(s, h, k);
  }

  lemma {:induction false} EndIsAdded(s: State, h: Happening)
    requires Calm(s) && FaultFree(s, h)
    ensures StepAdds(s, h, Ends) == if Completes(s, h) then 1 else 0
    ensures StepAdds(s, h, Told) == if Completes(s, h) && s.listeners != [] then 1 else 0
    ensures StepAdds(s, h, RefreshEnds) == if CompletesRefresh(s, h) then 1 else 0
    ensures StepAdds(s, h, RefreshTold)
         == if (CompletesRefresh(s, h) || AsksToTellRefresh(s, h)) && s.listeners != [] then 1 else 0
  {
    if h.event == Deliver && s.queue != [] {
      assert IsHarmless(s.queue[0]);
    }
  }

  lemma {:induction false} EndIsCounted(s: State, h: Happening)
    requires Calm(s) && FaultFree(s, h)
    ensures Count(Step(s, h.event, h.answers).log, Ends) == Count(s.log, Ends) + if Completes(s, h) then 1 else 0
    ensures Count(Step(s, h.event, h.answers).log, Told)
         == Count(s.log, Told) + if Completes(s, h) && s.listeners != [] then 1 else 0
  {
    StepAddsExactly(s, h, Ends);
    StepAddsExactly(s, h, Told);
    EndIsAdded(s, h);
  }

  lemma {:induction false} RefreshEndIsCounted(s: State, h: Happening)
    requires Calm(s) && FaultFree(s, h)
    ensures Count(Step(s, h.event, h.answers).log, RefreshEnds)
         == Count(s.log, RefreshEnds) + if CompletesRefresh(s, h) then 1 else 0
    ensures Count(Step(s, h.event, h.answers).log, RefreshTold)
         == Count(s.log, RefreshTold)
            + if (CompletesRefresh(s, h) || AsksToTellRefresh(s, h)) && s.listeners != [] then 1 else 0
  {
    StepAddsExactly(s, h, RefreshEnds);
    StepAddsExactly(s, h, RefreshTold);
    EndIsAdded(s, h);
  }

  lemma {:induction false} EndsHere(s: State, h: Happening)
    requires Calm(s) && FaultFree(s, h)
    ensures Completes(s, h) <==> s.mode == InProvisioning && After(s, h).mode == Provisioned
    ensures CompletesRefresh(s, h) <==> s.mode == Refreshing && After(s, h).mode == Provisioned
  {
    NextIsUnset(s.reading);
    if h.event == Deliver && s.queue != [] {
      assert IsHarmless(s.queue[0]);
    }
  }

  // ---------------------------------------------------------------- one step: the account of reads

  /** A read that is out is given up: another callback, or a message that asks again. */
  predicate Abandons(s: State, h: Happening) {
    s.reading.pending && (Asks(s, h) || (CallbackOf(h.event).Some? && CallbackOf(h.event) != NextRecord(s.reading)))
  }

  /** A configured record is set without a read of it being out: by a callback nobody asked for, or because the
      service table says that there is no P-CSCF address. */
  predicate SetsUnasked(s: State, h: Happening) {
    || (CallbackOf(h.event).Some? && CallbackOf(h.event).value in s.reading.configured - s.reading.records
        && !(s.reading.pending && CallbackOf(h.event) == NextRecord(s.reading)))
    || (h.event == Deliver && s.queue != [] && NextRecord(s.reading).Some? && !IsOut(s.reading)
        && (s.queue[0].ReadRecordMsg? || (s.queue[0].StartProvisioningMsg? && h.answers.ready)))
  }

  function One(b: bool): int {
    if b then 1 else 0
  }

  lemma CallbackAccount(s: State, h: Happening)
    requires Calm(s) && CallbackOf(h.event).Some?
    ensures var r := After(s, h).reading;
      && Unset(r) == Unset(s.reading) - One(CallbackOf(h.event).value in s.reading.configured - s.reading.records)
      && !r.pending
  {
    var rd := if h.event.OnIst? && h.event.pcscfBit.Some?
              then s.reading.(istPcscf := h.event.pcscfBit.value) else s.reading;
    UnsetAfterGot(Idle(rd), CallbackOf(h.event).value);
  }

  lemma ReadAccount(mode: Mode, r: Reading, q: seq<Message>, a: Answers)
    requires MANDATORY <= r.configured && NextRecord(r).Some? && !r.pending
    ensures var c := AfterRead(mode, r, q, a).reading;
      Unset(c) + One(!c.pending) == Unset(r)
  {
    NextIsUnset(r);
    UnsetAfterGot(r, NextRecord(r).value);
  }

  /** Reads asked for, records left and the read that is out, before and after a step. */
  lemma AccountStep(s: State, h: Happening)
    requires Calm(s) && FaultFree(s, h)
    ensures var r := After(s, h).reading;
      One(Asks(s, h)) + Unset(r) - One(r.pending) == Unset(s.reading) - One(s.reading.pending)
        + One(Abandons(s, h)) - One(SetsUnasked(s, h))
  {
    NextIsUnset(s.reading);
    if CallbackOf(h.event).Some? {
      CallbackAccount(s, h);
    } else if h.event == Deliver && s.queue != [] {
      if NextRecord(s.reading).Some? {
        ReadAccount(s.mode, Idle(s.reading), s.queue[1..], h.answers);
      }
    }
  }

  // ---------------------------------------------------------------- one step: what can still be asked for

  predicate IsBusy(s: State) {
    s.reading.pending || Work(s.queue) > 0
  }

  /** The most reads that can be asked for without another notice: the first message brings all records, every
      further one a repetition. */
  function Load(r: Reading, q: seq<Message>): int {
    if !r.pending && Work(q) == 0 then Unset(r) else Unset(r) + Work(q) - 1
  }

  predicate IsNotice(h: Happening) {
    h.event == OnStateChanged(IsimReady) || h.event == OnStateChanged(IsimInit)
  }

  /** A callback for a record that is set already or not configured. */
  predicate IsStale(s: State, h: Happening) {
    CallbackOf(h.event).Some? && CallbackOf(h.event).value !in s.reading.configured - s.reading.records
  }

  /** A notice, or a stale callback, that comes while something is under way. */
  predicate Interferes(s: State, h: Happening) {
    IsBusy(s) && (IsNotice(h) || IsStale(s, h))
  }

  lemma WorkAfterRead(mode: Mode, r: Reading, q: seq<Message>, a: Answers)
    requires NextRecord(r).Some? && !r.pending
    ensures var c := AfterRead(mode, r, q, a); Work(c.queue) == Work(q) + One(!c.reading.pending)
  {
    WorkOfPost(q, ReadRecordMsg(false));
  }

  lemma WorkAfterDelivery(s: State, a: Answers)
    requires Calm(s) && s.queue != []
    ensures var c := AfterDelivery(s, a);
      Work(c.queue) == Work(s.queue) - One(IsWork(s.queue[0]))
        + One(NextRecord(s.reading).Some? && !c.reading.pending
              && ((s.queue[0].StartProvisioningMsg? && a.ready)
                  || (s.queue[0].ReadRecordMsg? && (s.queue[0].answered || !s.reading.pending))))
  {
    WorkOfTail(s.queue);
    if NextRecord(s.reading).Some? {
      WorkAfterRead(s.mode, Idle(s.reading), s.queue[1..], a);
    }
  }

  lemma WorkAfterOthers(s: State, h: Happening)
    requires Calm(s) && h.event != Deliver
    ensures Work(After(s, h).queue) == Work(s.queue) + One(IsNotice(h) || CallbackOf(h.event).Some?)
  {
    WorkOfPost(s.queue, ReadRecordMsg(false));
    WorkOfPost(s.queue, ReadRecordMsg(true));
    WorkOfPost(s.queue, StartProvisioningMsg(false));
    if h.event.SetListener? {
      WorkOfPost(s.queue, NotifyErrorMsg(Some(h.event.listener), false));
    }
  }

  lemma UnsetAfterDelivery(s: State, a: Answers)
    requires Calm(s) && s.queue != []
    ensures var c := AfterDelivery(s, a);
      Unset(c.reading) == Unset(s.reading)
        - One(NextRecord(s.reading).Some? && !c.reading.pending
              && ((s.queue[0].StartProvisioningMsg? && a.ready)
                  || (s.queue[0].ReadRecordMsg? && (s.queue[0].answered || !s.reading.pending))))
  {
    if NextRecord(s.reading).Some? {
      ReadAccount(s.mode, Idle(s.reading), s.queue[1..], a);
    }
  }

  lemma DeliveryLoad(s: State, a: Answers)
    requires Calm(s) && s.queue != []
    ensures var c := AfterDelivery(s, a);
      One(Asks(s, Happening(Deliver, a))) + Load(c.reading, c.queue) <= Load(s.reading, s.queue)
  {
    NextIsUnset(s.reading);
    CompleteMeansNoneUnset(s.reading);
    WorkAfterDelivery(s, a);
    UnsetAfterDelivery(s, a);
    WorkOfTail(s.queue);
  }

  lemma OthersLoad(s: State, h: Happening)
    requires Calm(s) && h.event != Deliver
    ensures var c := After(s, h);
      Load(c.reading, c.queue) <= Load(s.reading, s.queue) + One(Interferes(s, h))
  {
    NextIsUnset(s.reading);
    CompleteMeansNoneUnset(s.reading);
    WorkAfterOthers(s, h);
    if CallbackOf(h.event).Some? {
      CallbackAccount(s, h);
    }
  }

  lemma LoadStep(s: State, h: Happening)
    requires Calm(s)
    ensures var c := After(s, h);
      One(Asks(s, h)) + Load(c.reading, c.queue) <= Load(s.reading, s.queue) + One(Interferes(s, h))
  {
    if h.event == Deliver {
      if s.queue != [] {
        DeliveryLoad(s, h.answers);
        assert h == Happening(Deliver, h.answers);
      }
    } else {
      OthersLoad(s, h);
    }
  }

  // ---------------------------------------------------------------- one step: progress

  /** A delivery of work, or a callback that sets a configured record. */
  predicate IsProgress(s: State, h: Happening) {
    || (h.event == Deliver && s.queue != [] && IsWork(s.queue[0]))
    || (CallbackOf(h.event).Some? && !IsStale(s, h))
  }

  function Remaining(r: Reading, q: seq<Message>): nat {
    2 * Unset(r) + Work(q)
  }

  /** Steps of progress wear down the records and messages; only notices and stale callbacks add to them. */
  lemma ProgressStep(s: State, h: Happening)
    requires Calm(s)
    ensures var c := After(s, h);
      One(IsProgress(s, h)) + Remaining(c.reading, c.queue)
        <= Remaining(s.reading, s.queue) + One(IsNotice(h) || IsStale(s, h))
  {
    if h.event == Deliver {
      if s.queue != [] {
        WorkAfterDelivery(s, h.answers);
        UnsetAfterDelivery(s, h.answers);
      }
    } else {
      WorkAfterOthers(s, h);
      if CallbackOf(h.event).Some? {
        CallbackAccount(s, h);
      }
    }
  }

  /** Reading that is under way stays so until provisioning has ended. */
  lemma UnderWayStep(s: State, h: Happening)
    requires Calm(s) && FaultFree(s, h) && UnderWay(s) && IsReading(s.mode)
    ensures var r := Step(s, h.event, h.answers); UnderWay(r) || r.mode == Provisioned
  {
    StepBecomes(s, h);
    NextIsUnset(s.reading);
    if h.event == Deliver {
      if s.queue != [] {
        HasReadTail(s.queue);
        HasReadOfPost(s.queue[1..], ReadRecordMsg(false));
      }
    } else {
      HasReadOfPost(s.queue, ReadRecordMsg(true));
      HasReadOfPost(s.queue, ReadRecordMsg(false));
      if h.event.SetListener? {
        HasReadOfPost(s.queue, NotifyErrorMsg(Some(h.event.listener), false));
      }
    }
  }

  // ---------------------------------------------------------------- asking again

  /** While a read is out, its record is asked for again exactly when an answered read message is delivered, or
      the start message. */
  lemma {:induction false} AskedAgainIff(s: State, h: Happening)
    requires Calm(s) && FaultFree(s, h) && s.reading.pending
    ensures NextRecord(s.reading).Some?
    ensures var out := ReadsOf(NextRecord(s.reading).value);
      Count(Step(s, h.event, h.answers).log, out) == Count(s.log, out)
        + if h.event == Deliver && s.queue != [] && (s.queue[0] == ReadRecordMsg(true) || s.queue[0].StartProvisioningMsg?)
          then 1 else 0
  {
    AsksIsCounted(s, h, ReadsOf(NextRecord(s.reading).value));
  }

  function IsUnset(x: Record, r: Reading): int {
    One(x in r.configured - r.records)
  }

  function OutFor(x: Record, r: Reading): int {
    One(r.pending && NextRecord(r) == Some(x))
  }

  lemma AfterReadOf(x: Record, mode: Mode, r: Reading, q: seq<Message>, a: Answers)
    requires MANDATORY <= r.configured && NextRecord(r).Some? && !r.pending
    ensures var c := AfterRead(mode, r, q, a).reading;
      One(IsOut(r) && NextRecord(r).value == x) + IsUnset(x, c) - OutFor(x, c) <= IsUnset(x, r)
  {
    NextIsUnset(r);
  }

  lemma AccountOfStep(x: Record, s: State, h: Happening)
    requires Calm(s) && FaultFree(s, h) && !Abandons(s, h)
    ensures var r := After(s, h).reading;
      One(Asks(s, h) && NextRecord(s.reading).value == x) + IsUnset(x, r) - OutFor(x, r)
        <= IsUnset(x, s.reading) - OutFor(x, s.reading)
  {
    NextIsUnset(s.reading);
    if h.event == Deliver && s.queue != [] {
      if NextRecord(s.reading).Some? {
        AfterReadOf(x, s.mode, Idle(s.reading), s.queue[1..], h.answers);
      }
    }
  }

  // ---------------------------------------------------------------- runs

  /** What is counted over a run. */
  datatype Fact = Abandoned | Unasked | Interfered | Progressed | Noticed | Announced

  predicate Holds(s: State, h: Happening, f: Fact) {
    match f
    case Abandoned => Abandons(s, h)
    case Unasked => SetsUnasked(s, h)
    case Interfered => Interferes(s, h)
    case Progressed => IsProgress(s, h)
    case Noticed => IsNotice(h) || IsStale(s, h)
    case Announced => AsksToTellRefresh(s, h) && s.listeners != []
  }

  function Times(s: State, hs: seq<Happening>, f: Fact): nat
    requires InRange(s.retry)
    decreases hs
  {
    if hs == [] then 0
    else (if Holds(s, hs[0], f) then 1 else 0) + Times(Step(s, hs[0].event, hs[0].answers), hs[1..], f)
  }

  /** Somebody listens at every time of the run. */
  predicate AlwaysHeard(s: State, hs: seq<Happening>)
    requires InRange(s.retry)
    decreases hs
  {
    s.listeners != [] && (hs == [] || AlwaysHeard(Step(s, hs[0].event, hs[0].answers), hs[1..]))
  }

  lemma {:induction false} CalmRun(s: State, hs: seq<Happening>)
    requires Calm(s) && FaultFreeRun(s, hs)
    ensures Calm(Run(s, hs)) && Run(s, hs).reading.configured == s.reading.configured
    ensures Run(s, hs).mode == s.mode || Run(s, hs).mode == Provisioned
    decreases hs
  {
    if hs != [] {
      var t := Step(s, hs[0].event, hs[0].answers);
      CalmStep(s, hs[0]);
      StepBecomes(s, hs[0]);
      ConfiguredStays(s, hs[0]);
      NextIsUnset(s.reading);
      CalmRun(t, hs[1..]);
    }
  }

  lemma ConfiguredStays(s: State, h: Happening)
    requires Calm(s) && FaultFree(s, h)
    ensures After(s, h).reading.configured == s.reading.configured
    ensures After(s, h).mode == s.mode || After(s, h).mode == Provisioned
  {
    NextIsUnset(s.reading);
    if h.event == Deliver && s.queue != [] {
      DeliveryKeepsCalm(s, h.answers);
    }
  }

  /** The account of reads over a run. */
  lemma {:induction false} AccountRun(s: State, hs: seq<Happening>)
    requires Calm(s) && FaultFreeRun(s, hs)
    ensures var r := Run(s, hs);
      Count(r.log, Reads) + Unset(r.reading) - One(r.reading.pending) + Times(s, hs, Unasked)
      == Count(s.log, Reads) + Unset(s.reading) - One(s.reading.pending) + Times(s, hs, Abandoned)
    decreases hs
  {
    if hs != [] {
      CalmStep(s, hs[0]);
      StepBecomes(s, hs[0]);
      AsksIsCounted(s, hs[0], Reads);
      AccountStep(s, hs[0]);
      AccountRun(Step(s, hs[0].event, hs[0].answers), hs[1..]);
    }
  }

  lemma {:induction false} LoadRun(s: State, hs: seq<Happening>)
    requires Calm(s) && FaultFreeRun(s, hs)
    ensures var r := Run(s, hs);
      Count(r.log, Reads) + Load(r.reading, r.queue)
      <= Count(s.log, Reads) + Load(s.reading, s.queue) + Times(s, hs, Interfered)
    decreases hs
  {
    if hs != [] {
      CalmStep(s, hs[0]);
      StepBecomes(s, hs[0]);
      AsksIsCounted(s, hs[0], Reads);
      LoadStep(s, hs[0]);
      LoadRun(Step(s, hs[0].event, hs[0].answers), hs[1..]);
    }
  }

  lemma {:induction false} ProgressRun(s: State, hs: seq<Happening>)
    requires Calm(s) && FaultFreeRun(s, hs)
    ensures var r := Run(s, hs);
      Times(s, hs, Progressed) + Remaining(r.reading, r.queue) <= Remaining(s.reading, s.queue) + Times(s, hs, Noticed)
    decreases hs
  {
    if hs != [] {
      CalmStep(s, hs[0]);
      StepBecomes(s, hs[0]);
      ProgressStep(s, hs[0]);
      ProgressRun(Step(s, hs[0].event, hs[0].answers), hs[1..]);
    }
  }

  lemma {:induction false} EndRun(s: State, hs: seq<Happening>)
    requires Calm(s) && FaultFreeRun(s, hs)
    ensures var r := Run(s, hs);
      && Count(r.log, Ends) == Count(s.log, Ends) + One(s.mode == InProvisioning && r.mode == Provisioned)
      && Count(r.log, Told) - Count(s.log, Told) <= Count(r.log, Ends) - Count(s.log, Ends)
      && (AlwaysHeard(s, hs) ==> Count(r.log, Told) - Count(s.log, Told) == Count(r.log, Ends) - Count(s.log, Ends))
    decreases hs
  {
    if hs != [] {
      var t := Step(s, hs[0].event, hs[0].answers);
      CalmStep(s, hs[0]);
      StepBecomes(s, hs[0]);
      EndIsCounted(s, hs[0]);
      EndsHere(s, hs[0]);
      ConfiguredStays(s, hs[0]);
      EndRun(t, hs[1..]);
      CalmRun(t, hs[1..]);
    }
  }

  lemma {:induction false} RefreshEndStep(s: State, h: Happening)
    requires Calm(s) && FaultFree(s, h)
    ensures var t := Step(s, h.event, h.answers);
      var ended := One(s.mode == Refreshing && t.mode == Provisioned);
      && Count(t.log, RefreshEnds) == Count(s.log, RefreshEnds) + ended
      && Count(t.log, RefreshTold)
         == Count(s.log, RefreshTold) + (if s.listeners != [] then ended else 0) + One(Holds(s, h, Announced))
  {
    ModeIs(s, h);
    RefreshEndIsCounted(s, h);
    EndsHere(s, h);
  }

  lemma ModeIs(s: State, h: Happening)
    requires Calm(s) && FaultFree(s, h)
    ensures Step(s, h.event, h.answers).mode == After(s, h).mode
  {
    StepBecomes(s, h);
  }

  lemma {:induction false} RefreshEndRun(s: State, hs: seq<Happening>)
    requires Calm(s) && FaultFreeRun(s, hs)
    ensures var r := Run(s, hs);
      var ended := One(s.mode == Refreshing && r.mode == Provisioned);
      && Count(r.log, RefreshEnds) == Count(s.log, RefreshEnds) + ended
      && Count(r.log, RefreshTold) <= Count(s.log, RefreshTold) + ended + Times(s, hs, Announced)
      && (AlwaysHeard(s, hs) ==>
            Count(r.log, RefreshTold) == Count(s.log, RefreshTold) + ended + Times(s, hs, Announced))
    decreases hs
  {
    if hs != [] {
      var t := Step(s, hs[0].event, hs[0].answers);
      CalmStep(s, hs[0]);
      RefreshEndStep(s, hs[0]);
      ModeStays(s, hs[0]);
      RefreshEndRun(t, hs[1..]);
      CalmRun(t, hs[1..]);
    }
  }

  lemma ModeStays(s: State, h: Happening)
    requires Calm(s) && FaultFree(s, h)
    ensures var t := Step(s, h.event, h.answers); t.mode == s.mode || t.mode == Provisioned
  {
    StepBecomes(s, h);
    ConfiguredStays(s, h);
  }

  lemma {:induction false} AskedOnceRun(x: Record, s: State, hs: seq<Happening>)
    requires Calm(s) && FaultFreeRun(s, hs) && Times(s, hs, Abandoned) == 0
    ensures var r := Run(s, hs);
      Count(r.log, ReadsOf(x)) + IsUnset(x, r.reading) - OutFor(x, r.reading)
      <= Count(s.log, ReadsOf(x)) + IsUnset(x, s.reading) - OutFor(x, s.reading)
    decreases hs
  {
    if hs != [] {
      CalmStep(s, hs[0]);
      StepBecomes(s, hs[0]);
      AsksIsCounted(s, hs[0], ReadsOf(x));
      AccountOfStep(x, s, hs[0]);
      AskedOnceRun(x, Step(s, hs[0].event, hs[0].answers), hs[1..]);
    }
  }

  lemma {:induction false} UnderWayRun(s: State, hs: seq<Happening>)
    requires Calm(s) && FaultFreeRun(s, hs) && UnderWay(s)
    ensures var r := Run(s, hs); UnderWay(r) || r.mode == Provisioned
    decreases hs
  {
    if hs != [] {
      var t := Step(s, hs[0].event, hs[0].answers);
      CalmStep(s, hs[0]);
      if IsReading(s.mode) {
        UnderWayStep(s, hs[0]);
        if t.mode == Provisioned {
          CalmRun(t, hs[1..]);
        } else {
          UnderWayRun(t, hs[1..]);
        }
      } else {
        CalmRun(s, hs);
      }
    }
  }

  // ---------------------------------------------------------------- an ISIM that answers what it is asked

  /** Notices come while nothing is under way, and callbacks are for the read that is out. */
  predicate Prompt(s: State, h: Happening) {
    && (IsNotice(h) ==> !IsBusy(s))
    && (CallbackOf(h.event).Some? ==> s.reading.pending && CallbackOf(h.event) == NextRecord(s.reading))
  }

  predicate PromptRun(s: State, hs: seq<Happening>)
    requires InRange(s.retry)
    decreases hs
  {
    hs == [] || (Prompt(s, hs[0]) && PromptRun(Step(s, hs[0].event, hs[0].answers), hs[1..]))
  }

  /** Either a read is out or one message asks for the next one, never both. */
  predicate IsSingle(r: Reading, q: seq<Message>) {
    Work(q) <= 1 && (r.pending ==> Work(q) == 0)
  }

  lemma PromptStep(s: State, h: Happening)
    requires Calm(s) && FaultFree(s, h) && Prompt(s, h) && IsSingle(s.reading, s.queue)
    ensures !Abandons(s, h) && !Interferes(s, h)
    ensures var c := After(s, h); IsSingle(c.reading, c.queue)
  {
    NextIsUnset(s.reading);
    if h.event == Deliver {
      if s.queue != [] {
        WorkOfTail(s.queue);
        WorkAfterDelivery(s, h.answers);
      }
    } else {
      WorkAfterOthers(s, h);
    }
  }

  lemma {:induction false} PromptRunIsClean(s: State, hs: seq<Happening>)
    requires Calm(s) && FaultFreeRun(s, hs) && PromptRun(s, hs) && IsSingle(s.reading, s.queue)
    ensures Times(s, hs, Abandoned) == 0 && Times(s, hs, Interfered) == 0
    decreases hs
  {
    if hs != [] {
      CalmStep(s, hs[0]);
      StepBecomes(s, hs[0]);
      PromptStep(s, hs[0]);
      PromptRunIsClean(Step(s, hs[0].event, hs[0].answers), hs[1..]);
    }
  }

  // ---------------------------------------------------------------- nothing gets stuck

  const GOOD := Answers(true, true, true, true, IsimReady, true, IsimReady, Accepted, true, true)

  /** Provisioning that has not ended is never stuck: the oldest message can be delivered, or else the awaited
      callback can come; with nothing under way, a READY notice or the start message. */
  lemma NeverStuck(s: State) returns (h: Happening)
    requires Calm(s) && IsReading(s.mode)
    ensures FaultFree(s, h) && h.answers == GOOD
    ensures Next(s, h)
  {
    if s.queue != [] {
      h := Happening(Deliver, GOOD);
    } else if UnderWay(s) {
      NextIsUnset(s.reading);
      var e := match NextRecord(s.reading).value
        case Impi => OnImpi case Impu => OnImpu case Domain => OnDomain case Ist => OnIst(None) case Pcscf => OnPcscf;
      h := Happening(e, GOOD);
    } else {
      h := Happening(if s.attached then OnStateChanged(IsimReady) else Begin, GOOD);
    }
  }

  predicate Next(s: State, h: Happening) {
    if s.queue != [] then h.event == Deliver
    else if UnderWay(s) then CallbackOf(h.event) == NextRecord(s.reading) && IsProgress(s, h)
    else if s.attached then h.event == OnStateChanged(IsimReady)
    else h.event == Begin
  }

  lemma BeginAttaches(s: State)
    requires Calm(s)
    ensures Step(s, Begin, GOOD).attached
  {
  }

  function Phase(s: State): nat {
    (if s.attached then 0 else 2) + if UnderWay(s) then 0 else 1
  }

  /** Every such step brings the end closer. */
  lemma CloserToTheEnd(s: State, h: Happening)
    requires Calm(s) && IsReading(s.mode) && FaultFree(s, h) && h.answers == GOOD
    requires Next(s, h)
    ensures var r := Step(s, h.event, h.answers);
      || r.mode == Provisioned
      || Phase(r) < Phase(s)
      || (Phase(r) == Phase(s) && Remaining(r.reading, r.queue) < Remaining(s.reading, s.queue))
      || (Phase(r) == Phase(s) && Remaining(r.reading, r.queue) == Remaining(s.reading, s.queue) && |r.queue| < |s.queue|)
  {
    StepBecomes(s, h);
    if UnderWay(s) {
      UnderWayStep(s, h);
    } else if s.queue == [] {
      HasReadOfPost(s.queue, ReadRecordMsg(false));
      if !s.attached {
        BeginAttaches(s);
      }
    }
    if s.queue != [] || UnderWay(s) {
      ProgressStep(s, h);
      if s.queue != [] && !IsWork(s.queue[0]) {
        WorkAfterDelivery(s, GOOD);
        HasReadTail(s.queue);
      }
    }
  }

  /** From every state that a fault-free run can be in, provisioning can still be completed without a fault. */
  lemma {:induction false} CanComplete(s: State) returns (hs: seq<Happening>)
    requires Calm(s)
    ensures FaultFreeRun(s, hs) && Run(s, hs).mode == Provisioned
    decreases if s.mode == Provisioned then 0 else 1, Phase(s), Remaining(s.reading, s.queue), |s.queue|
  {
    if s.mode == Provisioned {
      hs := [];
    } else {
      var h := NeverStuck(s);
      CloserToTheEnd(s, h);
      CalmStep(s, h);
      var more := CanComplete(Step(s, h.event, h.answers));
      hs := [h] + more;
      assert hs[1..] == more;
    }
  }

  // ---------------------------------------------------------------- from load

  function Loaded(configured: set<Record>, load: Answers): State {
    ReadFrom(Constructed(configured), load)
  }

  lemma LoadedIsCalm(configured: set<Record>, load: Answers)
    requires MANDATORY <= configured && load.isimConfigured
    ensures var s := Loaded(configured, load);
      && Calm(s) && s.mode == InProvisioning && Unset(s.reading) == |configured| && Load(s.reading, s.queue) == |configured|
      && Remaining(s.reading, s.queue) == 2 * |configured|
      && forall k :: Count(s.log, k) == 0
  {
    var s := Loaded(configured, load);
    assert configured - {} == configured;
    var e := Entered(Init, InProvisioning, AtReadFrom, Complete(s.reading));
    assert s.log == [] + [e];
    forall k ensures Count(s.log, k) == 0 {
      CountAppend([], e, k);
    }
  }

  /** Every fault-free run from load, however the events come: the machine is in provisioning or provisioned with
      every record set. Provisioning has ended once or not at all, and was told as often to whoever listened. Reads
      asked for, records left and records set unasked balance the configured records and the reads given up. */
  lemma ProvisioningIsAccountedFor(configured: set<Record>, load: Answers, hs: seq<Happening>)
    requires MANDATORY <= configured && load.isimConfigured
    requires FaultFreeRun(Loaded(configured, load), hs)
    ensures var s := Loaded(configured, load);
      var r := Run(s, hs);
      && (r.mode == InProvisioning || (r.mode == Provisioned && Complete(r.reading)))
      && Count(r.log, Ends) == One(r.mode == Provisioned)
      && Count(r.log, Told) <= Count(r.log, Ends)
      && (AlwaysHeard(s, hs) ==> Count(r.log, Told) == Count(r.log, Ends))
      && Count(r.log, Reads) + Unset(r.reading) + Times(s, hs, Unasked)
         == |configured| + One(r.reading.pending) + Times(s, hs, Abandoned)
  {
    var s := Loaded(configured, load);
    LoadedIsCalm(configured, load);
    CalmRun(s, hs);
    EndRun(s, hs);
    AccountRun(s, hs);
  }

  /** At most one read for each configured record and each notice or stale callback that came while something was
      under way; without those, at most five. */
  lemma ReadsAreBounded(configured: set<Record>, load: Answers, hs: seq<Happening>)
    requires MANDATORY <= configured && load.isimConfigured
    requires FaultFreeRun(Loaded(configured, load), hs)
    ensures var s := Loaded(configured, load);
      Count(Run(s, hs).log, Reads) <= |configured| + Times(s, hs, Interfered) && |configured| <= 5
  {
    var s := Loaded(configured, load);
    LoadedIsCalm(configured, load);
    AtMostFiveRecords(s.reading);
    CalmRun(s, hs);
    LoadRun(s, hs);
    var r := Run(s, hs);
    NextIsUnset(r.reading);
    CompleteMeansNoneUnset(r.reading);
  }

  /** While no read is given up, every record is asked for at most once. */
  lemma AskedForOnceUnlessGivenUp(configured: set<Record>, load: Answers, hs: seq<Happening>, x: Record)
    requires MANDATORY <= configured && load.isimConfigured
    requires FaultFreeRun(Loaded(configured, load), hs) && Times(Loaded(configured, load), hs, Abandoned) == 0
    ensures Count(Run(Loaded(configured, load), hs).log, ReadsOf(x)) <= 1
  {
    var s := Loaded(configured, load);
    LoadedIsCalm(configured, load);
    CalmRun(s, hs);
    AskedOnceRun(x, s, hs);
    NextIsUnset(Run(s, hs).reading);
  }

  /** An ISIM that sends notices only while nothing is under way, and calls back only for the read that is out, is
      asked for every record at most once, and for no more than the configured ones in all. */
  lemma EachRecordIsAskedForOnce(configured: set<Record>, load: Answers, hs: seq<Happening>, x: Record)
    requires MANDATORY <= configured && load.isimConfigured
    requires FaultFreeRun(Loaded(configured, load), hs) && PromptRun(Loaded(configured, load), hs)
    ensures var log := Run(Loaded(configured, load), hs).log;
      Count(log, ReadsOf(x)) <= 1 && Count(log, Reads) <= |configured|
  {
    LoadedIsCalm(configured, load);
    PromptRunIsClean(Loaded(configured, load), hs);
    AskedForOnceUnlessGivenUp(configured, load, hs, x);
    ReadsAreBounded(configured, load, hs);
  }

  /** Deliveries of work and callbacks that set a record number at most two for each configured record and one for
      each notice and stale callback. */
  lemma ProgressIsBounded(configured: set<Record>, load: Answers, hs: seq<Happening>)
    requires MANDATORY <= configured && load.isimConfigured
    requires FaultFreeRun(Loaded(configured, load), hs)
    ensures var s := Loaded(configured, load);
      Times(s, hs, Progressed) <= 2 * |configured| + Times(s, hs, Noticed)
  {
    LoadedIsCalm(configured, load);
    ProgressRun(Loaded(configured, load), hs);
  }

  /** Once reading is under way in a fault-free run, only the end of provisioning stops it; and from every state of
      the run the end can be reached. */
  lemma ReadingGoesOnToTheEnd(configured: set<Record>, load: Answers, hs: seq<Happening>, more: seq<Happening>)
    requires MANDATORY <= configured && load.isimConfigured
    requires FaultFreeRun(Loaded(configured, load), hs)
    ensures var r := Run(Loaded(configured, load), hs);
      && (UnderWay(r) && FaultFreeRun(r, more) ==> UnderWay(Run(r, more)) || Run(r, more).mode == Provisioned)
      && exists es :: FaultFreeRun(r, es) && Run(r, es).mode == Provisioned
  {
    LoadedIsCalm(configured, load);
    CalmRun(Loaded(configured, load), hs);
    var r := Run(Loaded(configured, load), hs);
    if UnderWay(r) && FaultFreeRun(r, more) {
      UnderWayRun(r, more);
    }
    var es := CanComplete(r);
  }

  lemma FaultFreeOne(s: State, h: Happening, hs: seq<Happening>)
    requires InRange(s.retry)
    ensures FaultFreeRun(s, [h] + hs) <==> FaultFree(s, h) && FaultFreeRun(Step(s, h.event, h.answers), hs)
  {
    assert ([h] + hs)[1..] == hs;
  }

  lemma FaultFreeThree(s: State, h1: Happening, h2: Happening, h3: Happening)
    requires InRange(s.retry)
    ensures var s1 := Step(s, h1.event, h1.answers);
      var s2 := Step(s1, h2.event, h2.answers);
      && Run(s, [h1, h2, h3]) == Step(s2, h3.event, h3.answers)
      && (FaultFreeRun(s, [h1, h2, h3]) <==> FaultFree(s, h1) && FaultFree(s1, h2) && FaultFree(s2, h3))
  {
    var s1 := Step(s, h1.event, h1.answers);
    var s2 := Step(s1, h2.event, h2.answers);
    RunThree(s, h1, h2, h3);
    FaultFreeOne(s, h1, [h2, h3]);
    FaultFreeOne(s1, h2, [h3]);
    FaultFreeOne(s2, h3, []);
    assert [h1] + [h2, h3] == [h1, h2, h3] && [h2] + [h3] == [h2, h3] && [h3] + [] == [h3];
  }

  lemma FaultFreeStep(s: State, h: Happening)
    requires Calm(s) && FaultFree(s, h)
    ensures var r := Step(s, h.event, h.answers);
      Calm(r) && r.reading == After(s, h).reading && r.queue == After(s, h).queue && r.mode == After(s, h).mode
  {
    StepBecomes(s, h);
    CalmStep(s, h);
  }

  lemma FaultFreeFour(s: State, h1: Happening, h2: Happening, h3: Happening, h4: Happening)
    requires InRange(s.retry)
    ensures var r := Run(s, [h1, h2, h3]);
      && Run(s, [h1, h2, h3, h4]) == Step(r, h4.event, h4.answers)
      && (FaultFreeRun(s, [h1, h2, h3, h4]) <==> FaultFreeRun(s, [h1, h2, h3]) && FaultFree(r, h4))
  {
    var s1 := Step(s, h1.event, h1.answers);
    FaultFreeThree(s, h1, h2, h3);
    FaultFreeThree(s1, h2, h3, h4);
    RunOne(s, h1, [h2, h3, h4]);
    FaultFreeOne(s, h1, [h2, h3, h4]);
    assert [h1] + [h2, h3, h4] == [h1, h2, h3, h4];
  }

  /** With a READY notice too many, reading just begun and the first read answered. */
  lemma FirstReadWithExtraReady(s: State, answered: bool)
    requires Calm(s) && s.mode == InProvisioning && s.queue == [ReadRecordMsg(answered)]
    requires !s.reading.pending && s.reading.records == {}
    ensures var hs := [Happening(OnStateChanged(IsimReady), GOOD), Happening(Deliver, GOOD), Happening(OnImpi, GOOD)];
      var r := Run(s, hs);
      && FaultFreeRun(s, hs) && Calm(r) && r.mode == InProvisioning && !r.reading.pending
      && r.queue == [ReadRecordMsg(false), ReadRecordMsg(true)] && r.reading.records == {Impi}
  {
    var h1, h2, h3 := Happening(OnStateChanged(IsimReady), GOOD), Happening(Deliver, GOOD), Happening(OnImpi, GOOD);
    assert Impi in MANDATORY;
    WorkOfTail(s.queue);
    FaultFreeStep(s, h1);
    var s1 := Step(s, h1.event, GOOD);
    assert s1.queue == [ReadRecordMsg(answered), ReadRecordMsg(false)];
    FaultFreeStep(s1, h2);
    var s2 := Step(s1, h2.event, GOOD);
    assert s2.queue == [ReadRecordMsg(false)] && s2.reading.pending;
    FaultFreeStep(s2, h3);
    FaultFreeThree(s, h1, h2, h3);
  }

  /** An extra READY notice leads there: after it and the answer to the first read, the machine gives up the read of
      the next record and asks for it again. */
  lemma ExtraReadyRepeatsARead(s: State, answered: bool)
    requires Calm(s) && s.mode == InProvisioning && s.queue == [ReadRecordMsg(answered)]
    requires !s.reading.pending && s.reading.records == {}
    ensures var deliver := Happening(Deliver, GOOD);
      var hs := [Happening(OnStateChanged(IsimReady), GOOD), deliver, Happening(OnImpi, GOOD), deliver];
      var r := Run(s, hs);
      FaultFreeRun(s, hs) && Abandons(r, deliver) && Asks(r, deliver) && NextRecord(r.reading) == Some(Impu)
  {
    var h1, h2, h3 := Happening(OnStateChanged(IsimReady), GOOD), Happening(Deliver, GOOD), Happening(OnImpi, GOOD);
    assert Impu in MANDATORY;
    FirstReadWithExtraReady(s, answered);
    var t := Run(s, [h1, h2, h3]);
    FaultFreeStep(t, h2);
    FaultFreeFour(s, h1, h2, h3, h2);
    assert Step(t, Deliver, GOOD).queue == [ReadRecordMsg(true)];
  }

  /** After the start message and the INIT notice. */
  lemma BootIsNoticed(configured: set<Record>, load: Answers, a: Answers)
    requires MANDATORY <= configured && load.isimConfigured && a.found && a.initOk
    ensures var s := Loaded(configured, load);
      var h1, h2 := Happening(Begin, a), Happening(OnStateChanged(IsimInit), a);
      var s1 := Step(s, Begin, a);
      var s2 := Step(s1, h2.event, a);
      && FaultFree(s, h1) && FaultFree(s1, h2)
      && Calm(s2) && s2.attached && s2.mode == InProvisioning && s2.queue == [StartProvisioningMsg(false)]
      && s2.reading == Reading(false, configured, {}, false)
  {
    var s := Loaded(configured, load);
    LoadedIsCalm(configured, load);
    var h1, h2 := Happening(Begin, a), Happening(OnStateChanged(IsimInit), a);
    CalmStep(s, h1);
    StepBecomes(s, h1);
    var s1 := Step(s, Begin, a);
    CalmStep(s1, h2);
    StepBecomes(s1, h2);
  }

  lemma BootDelivers(s: State, a: Answers)
    requires Calm(s) && s.attached && s.mode == InProvisioning && s.queue == [StartProvisioningMsg(false)]
    requires !s.reading.pending && s.reading.records == {}
    requires a.startOk && (a.ready ==> ReadyToRead(a))
    ensures var ready := OnStateChanged(IsimReady);
      var r := Step(s, Deliver, a);
      && FaultFree(s, Happening(Deliver, a))
      && (a.ready ==> UnderWay(r))
      && (!a.ready ==> FaultFree(r, Happening(ready, a)) && UnderWay(Step(r, ready, a)))
  {
    var h := Happening(Deliver, a);
    assert Impi in MANDATORY;
    StepBecomes(s, h);
    CalmStep(s, h);
    var r := Step(s, Deliver, a);
    HasReadOfPost([], ReadRecordMsg(false));
    if !a.ready {
      StepBecomes(r, Happening(OnStateChanged(IsimReady), a));
      HasReadOfPost(r.queue, ReadRecordMsg(false));
    }
  }

  /** The usual start is such a run: the start message, the INIT notice and the message it posts. An ISIM that is
      ready then is read at once, any other one at its READY notice. */
  lemma BootIsFaultFree(configured: set<Record>, load: Answers, a: Answers)
    requires MANDATORY <= configured && load.isimConfigured
    requires a.found && a.initOk && a.startOk && (a.ready ==> ReadyToRead(a))
    ensures var s := Loaded(configured, load);
      var hs := [Happening(Begin, a), Happening(OnStateChanged(IsimInit), a), Happening(Deliver, a)];
      && FaultFreeRun(s, hs)
      && (a.ready ==> UnderWay(Run(s, hs)))
      && (!a.ready ==> FaultFree(Run(s, hs), Happening(OnStateChanged(IsimReady), a))
                       && UnderWay(Step(Run(s, hs), OnStateChanged(IsimReady), a)))
  {
    var s := Loaded(configured, load);
    var h1, h2, h3 := Happening(Begin, a), Happening(OnStateChanged(IsimInit), a), Happening(Deliver, a);
    BootIsNoticed(configured, load, a);
    BootDelivers(Step(Step(s, Begin, a), h2.event, a), a);
    FaultFreeThree(s, h1, h2, h3);
  }

  // ---------------------------------------------------------------- refreshes

  /** The notices that begin a refresh, once provisioning has ended, lead to a state from which everything said of
      fault-free runs holds: the ISIM is refreshing, it has refreshed and all records are due again, or it has
      restarted. */
  lemma RefreshBegins(s: State, st: IsimState, a: Answers)
    requires Calm(s) && s.attached && s.mode != InProvisioning
    requires st == IsimRefreshing || st == IsimRefreshed || (st == IsimInit && s.mode == Provisioned)
    ensures BeginsRefresh(s, st, Step(s, OnStateChanged(st), a))
  {
    assert Step(s, OnStateChanged(st), a) == HandleStateChanged(s, st);
    RefreshIsHandled(s, st);
  }

  /** In a refresh, with nothing out and everything due once the ISIM has refreshed or restarted. */
  predicate BeginsRefresh(s: State, st: IsimState, r: State) {
    && Calm(r) && r.mode == Refreshing
    && if st == IsimRefreshing then r.reading == s.reading && Work(r.queue) == Work(s.queue)
       else !r.reading.pending && Unset(r.reading) == |s.reading.configured| && Work(r.queue) == Work(s.queue) + 1
  }

  lemma RefreshIsHandled(s: State, st: IsimState)
    requires Calm(s) && s.attached && s.mode != InProvisioning
    requires st == IsimRefreshing || st == IsimRefreshed || (st == IsimInit && s.mode == Provisioned)
    ensures BeginsRefresh(s, st, HandleStateChanged(s, st))
  {
    AllDueAgain(s.reading);
    RefreshNotice(s, st);
    RefreshQueueIsHarmless(s, st);
    RefreshIsCalm(s, HandleStateChanged(s, st));
  }

  lemma {:induction false} RefreshIsCalm(s: State, r: State)
    requires Calm(s) && s.attached && r.attached && r.allowed && r.isim && r.mode == Refreshing
    requires InRange(r.retry) && r.retry.init == 0 && r.retry.start == 0
    requires r.reading.configured == s.reading.configured && (r.reading.pending ==> r.reading == s.reading)
    requires forall i | 0 <= i < |r.queue| :: IsHarmless(r.queue[i])
    ensures Calm(r)
  {
  }

  /** The messages after a notice that begins a refresh. */
  function RefreshQueue(s: State, st: IsimState): seq<Message> {
    var told := s.queue + [RefreshStartedMsg];
    if st == IsimRefreshing then told
    else (if s.mode == Provisioned then told else s.queue) + [StartProvisioningMsg(true)]
  }

  lemma RefreshQueueIsHarmless(s: State, st: IsimState)
    requires forall i | 0 <= i < |s.queue| :: IsHarmless(s.queue[i])
    ensures forall i | 0 <= i < |RefreshQueue(s, st)| :: IsHarmless(RefreshQueue(s, st)[i])
    ensures Work(RefreshQueue(s, st)) == Work(s.queue) + One(st != IsimRefreshing)
  {
    var told := s.queue + [RefreshStartedMsg];
    WorkOfPost(s.queue, RefreshStartedMsg);
    WorkOfPost(told, StartProvisioningMsg(true));
    WorkOfPost(s.queue, StartProvisioningMsg(true));
  }

  lemma AllDueAgain(r: Reading)
    ensures Unset(Reset(r)) == |r.configured| && Reset(Idle(r)) == Idle(Reset(r))
    ensures Reset(r).configured == r.configured
  {
    assert r.configured - (r.records - r.configured) == r.configured;
  }

  lemma {:induction false} RefreshNotice(s: State, st: IsimState)
    requires s.isim && (s.mode == Provisioned || s.mode == Refreshing)
    requires st == IsimRefreshing || st == IsimRefreshed || (st == IsimInit && s.mode == Provisioned)
    ensures var r := HandleStateChanged(s, st);
      && r.mode == Refreshing && r.allowed == s.allowed && r.isim && r.attached == s.attached
      && r.retry.init in {s.retry.init, 0} && r.retry.start in {s.retry.start, 0} && r.retry.rounds == s.retry.rounds
      && r.reading == (if st == IsimRefreshing then s.reading else Idle(Reset(s.reading)))
      && r.queue == RefreshQueue(s, st)
  {
    AllDueAgain(s.reading);
  }

  /** Every fault-free run of a refresh: it goes on, or it has ended with every record set. It has ended once or not
      at all, was told as often to whoever listened, besides the notices asked for by message, and reads no more
      than is due and interfering events bring; and its end stays within reach. */
  lemma RefreshIsAccountedFor(s: State, hs: seq<Happening>)
    requires Calm(s) && s.mode == Refreshing && FaultFreeRun(s, hs)
    ensures var r := Run(s, hs);
      && (r.mode == Refreshing || (r.mode == Provisioned && Complete(r.reading)))
      && Count(r.log, RefreshEnds) - Count(s.log, RefreshEnds) == One(r.mode == Provisioned)
      && Count(r.log, RefreshTold) - Count(s.log, RefreshTold) <= One(r.mode == Provisioned) + Times(s, hs, Announced)
      && (AlwaysHeard(s, hs) ==>
            Count(r.log, RefreshTold) - Count(s.log, RefreshTold) == One(r.mode == Provisioned) + Times(s, hs, Announced))
      && Count(r.log, Reads) - Count(s.log, Reads) <= Load(s.reading, s.queue) + Times(s, hs, Interfered)
      && (UnderWay(s) ==> UnderWay(r) || r.mode == Provisioned)
      && exists es :: FaultFreeRun(r, es) && Run(r, es).mode == Provisioned
  {
    var r := Run(s, hs);
    CalmRun(s, hs);
    RefreshEndRun(s, hs);
    LoadRun(s, hs);
    if UnderWay(s) {
      UnderWayRun(s, hs);
    }
    NextIsUnset(r.reading);
    CompleteMeansNoneUnset(r.reading);
    var es := CanComplete(r);
  }
}
