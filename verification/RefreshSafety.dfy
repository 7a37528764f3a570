/** Which steps end a refresh of the ISIM records, in every run. */
module RefreshSafety {
  import opened Lists
  import opened Provisioning
  import opened ProvisioningCounts

  /** The read asked for is refused, it is one of an identity, and no such failure stands already. */
  predicate GivesUpRead(s: State, a: Answers) {
    && IsRequest(s, a) && a.read == ReadRefused
    && BlocksRecovery(ReadFailed(NextRecord(s.reading).value))
    && !(s.error.Some? && BlocksRecovery(s.error.value))
  }

  /** The Start call reads at once, and that is given up. */
  predicate GivesUpStart(s: State, a: Answers) {
    && s.allowed && s.isim && s.attached && a.startOk && a.ready && !Complete(s.reading)
    && GivesUpRead(s.(reading := Idle(s.reading)), a)
  }

  predicate GivesUpRefresh(s: State, enforce: bool, a: Answers) {
    && s.isim && s.attached
    && if a.readyBefore && (Complete(s.reading) || enforce) then
         var s1 := if enforce then s.(reading := Reading(false, MANDATORY, {}, false), error := None) else s;
         GivesUpRead(s1.(reading := Reset(s1.reading)), a)
       else
         a.stateBefore == IsimInit && GivesUpStart(s, a)
  }

  /** The messages that end a refresh: the read message with every record set, one whose read is given up, and a
      reload that finds no ISIM. */
  predicate MessageEnds(s: State, m: Message, a: Answers) {
    match m
    case StartProvisioningMsg(_) => GivesUpStart(s, a)
    case ReadRecordMsg(answered) =>
      s.isim && (Complete(s.reading) || GivesUpRead(if answered then s.(reading := Idle(s.reading)) else s, a))
    case UpdateAllMsg => !a.isimConfigured
    case RefreshIsimMsg(enforce) => GivesUpRefresh(s, enforce, a)
    case _ => false
  }

  /** An error that gives a refresh up. */
  predicate ErrorEnds(s: State, e: IsimError) {
    s.isim
    && (e == RefreshError
        || (BlocksRecovery(e) && !LosesCard(e) && !(s.error.Some? && BlocksRecovery(s.error.value))))
  }

  /** The steps that lead from a refresh to the provisioned state. */
  predicate EndsRefresh(s: State, h: Happening) {
    match h.event
    case Deliver => s.queue != [] && MessageEnds(s, s.queue[0], h.answers)
    case OnError(e) => ErrorEnds(s, e)
    case TimerExpired(t) => t in s.timers && t == StartTimer && s.retry.start > 0 && GivesUpStart(s, h.answers)
    case Refresh => !h.answers.isimConfigured
    case _ => false
  }

  /** The steps that lead from a refresh back to provisioning. */
  predicate StartsOver(s: State, h: Happening) {
    (h.event == Refresh && h.answers.isimConfigured) || (h.event.OnError? && s.isim && LosesCard(h.event.error))
  }

  function ModeAfter(ends: bool): Mode {
    if ends then Provisioned else Refreshing
  }

  lemma ReadMode(s: State, a: Answers)
    requires s.mode == Refreshing
    ensures ReadIsim(s, a).mode == ModeAfter(GivesUpRead(s, a))
  {
  }

  lemma StartMode(s: State, a: Answers)
    requires InRange(s.retry) && s.mode == Refreshing
    ensures StartProvisioning(s, a).mode == ModeAfter(GivesUpStart(s, a))
  {
    ReadMode(s.(reading := Idle(s.reading), retry := s.retry.(rounds := 0)), a);
  }

  lemma RefreshMode(s: State, enforce: bool, a: Answers)
    requires InRange(s.retry) && s.mode == Refreshing
    ensures RefreshIsim(s, enforce, a).mode == ModeAfter(GivesUpRefresh(s, enforce, a))
  {
    var s1 := if enforce then s.(reading := Reading(false, MANDATORY, {}, false), error := None) else s;
    ReadMode(s1.(reading := Reset(s1.reading)), a);
    StartMode(s, a);
  }

  lemma ReadRecordMode(s: State, answered: bool, a: Answers)
    requires s.mode == Refreshing
    ensures OnReadRecord(s, answered, a).mode == ModeAfter(MessageEnds(s, ReadRecordMsg(answered), a))
  {
    ReadMode(if answered then s.(reading := Idle(s.reading)) else s, a);
  }

  lemma MessageMode(s: State, m: Message, a: Answers)
    requires InRange(s.retry) && s.mode == Refreshing
    ensures HandleMessage(s, m, a).mode == ModeAfter(MessageEnds(s, m, a))
  {
    match m
    case StartProvisioningMsg(_) => StartMode(s, a);
    case ReadRecordMsg(answered) => ReadRecordMode(s, answered, a);
    case RefreshIsimMsg(enforce) => RefreshMode(s, enforce, a);
    case _ =>
  }

  lemma ErrorMode(s: State, e: IsimError)
    requires s.mode == Refreshing
    ensures HandleError(s, e).mode
         == if s.isim && LosesCard(e) then InProvisioning else ModeAfter(ErrorEnds(s, e))
  {
  }

  lemma StateChangeMode(s: State, st: IsimState)
    requires s.mode == Refreshing
    ensures HandleStateChanged(s, st).mode == Refreshing
  {
  }

  lemma TimerMode(s: State, t: Timer, a: Answers)
    requires InRange(s.retry) && s.mode == Refreshing
    ensures HandleTimer(s, t, a).mode
         == ModeAfter(t in s.timers && t == StartTimer && s.retry.start > 0 && GivesUpStart(s, a))
  {
    var s1 := s.(timers := s.timers - {t});
    StartMode(s1, a);
    assert GivesUpStart(s1, a) == GivesUpStart(s, a);
  }

  /** Exactly these steps end a refresh, and exactly those lead back to provisioning. */
  lemma RefreshEndsIff(s: State, h: Happening)
    requires InRange(s.retry) && s.mode == Refreshing
    ensures var mode := Step(s, h.event, h.answers).mode;
      && (mode == Provisioned <==> EndsRefresh(s, h))
      && (mode == InProvisioning <==> StartsOver(s, h))
      && mode != Init
  {
    match h.event
    case Deliver =>
      if s.queue != [] {
        DeliverMode(s, h.answers);
      }
    case OnError(e) => ErrorMode(s, e);
    case OnStateChanged(st) => StateChangeMode(s, st);
    case TimerExpired(t) => TimerMode(s, t, h.answers);
    case _ =>
  }

  lemma DeliverMode(s: State, a: Answers)
    requires InRange(s.retry) && s.mode == Refreshing && s.queue != []
    ensures Step(s, Deliver, a).mode == ModeAfter(MessageEnds(s, s.queue[0], a))
  {
    var t := s.(queue := s.queue[1..]);
    MessageMode(t, s.queue[0], a);
    assert MessageEnds(t, s.queue[0], a) == MessageEnds(s, s.queue[0], a);
  }

  /** At every step of the run that finds the machine in a refresh. */
  ghost predicate RefreshesEndOnlyThere(s: State, hs: seq<Happening>)
    requires InRange(s.retry)
    decreases hs
  {
    hs == []
    || (var r := Step(s, hs[0].event, hs[0].answers);
        && (s.mode == Refreshing ==>
              && (r.mode == Provisioned <==> EndsRefresh(s, hs[0]))
              && (r.mode == InProvisioning <==> StartsOver(s, hs[0])))
        && RefreshesEndOnlyThere(r, hs[1..]))
  }

  /** From every state and over every run, whatever is answered at any time. */
  lemma {:induction false} EveryRefreshEndsOnlyThere(s: State, hs: seq<Happening>)
    requires InRange(s.retry)
    ensures RefreshesEndOnlyThere(s, hs)
    decreases hs
  {
    if hs != [] {
      if s.mode == Refreshing {
        RefreshEndsIff(s, hs[0]);
      }
      EveryRefreshEndsOnlyThere(Step(s, hs[0].event, hs[0].answers), hs[1..]);
    }
  }
}
