/** Several configurations behind one helper: a run of all of them is, for each, a run of its own. */
module SubscriberRuns {
  import opened P = Provisioning
  import opened Subscriber
  import S = ProvisioningSafety

  /** The thread of the helper takes its oldest message, or something else happens to one configuration. */
  datatype Call = Dispatch(answers: Answers) | Happens(config: SubscriberConfig, event: Event, answers: Answers)

  /** Every registered configuration is served by this helper. */
  ghost predicate Serving(h: AsyncConfigHelper)
    reads h, h.configs
  {
    h.Valid() && forall c | c in h.configs :: c.helper == h && c.Valid()
  }

  lemma {:induction false} RunSnoc(s: State, hs: seq<Happening>, h: Happening)
    requires InRange(s.retry)
    ensures Run(s, hs + [h]) == Step(Run(s, hs), h.event, h.answers)
    decreases hs
  {
    if hs == [] {
      assert [h][1..] == [];
    } else {
      RunSnoc(Step(s, hs[0].event, hs[0].answers), hs[1..], h);
      assert (hs + [h])[1..] == hs[1..] + [h];
    }
  }

  predicate IsCallback(e: Event) {
    e.OnImpi? || e.OnImpu? || e.OnDomain? || e.OnIst? || e.OnPcscf? || e.OnOtherField?
  }

  /** The callback of the ISIM for a record. */
  method HandleCallback(c: SubscriberConfig, e: Event, a: Answers)
    requires c.Valid() && IsCallback(e)
    modifies c, c.helper`actions
    ensures c.Valid() && c.OnlyMine()
    ensures c.View() == old(Step(c.View(), e, a))
  {
    match e
    case OnImpi | OnImpu | OnDomain => c.OnIdentity(e);
    case OnIst(_) => c.OnField(e);
    case OnPcscf | OnOtherField => c.OnField(e);
  }

  predicate IsRequest(e: Event) {
    || e.Refresh? || e.SetListener? || e.RemoveListener? || e.UpdateSubscriberAll? || e.UpdateIsimAttribute?
  }

  /** A request of the program around the configuration. */
  method HandleRequest(c: SubscriberConfig, e: Event, a: Answers)
    requires c.Valid() && IsRequest(e)
    modifies c, c.helper`actions
    ensures c.Valid() && c.OnlyMine()
    ensures c.View() == old(Step(c.View(), e, a))
  {
    match e
    case Refresh => c.Refresh(a);
    case SetListener(l) => c.SetListener(l);
    case RemoveListener(l) => c.RemoveListener(l);
    case UpdateSubscriberAll => c.UpdateSubscriber();
    case UpdateIsimAttribute(enabled) => c.UpdateIsim(enabled);
  }

  /** The entry point of the configuration for an event. */
  method Handle(c: SubscriberConfig, e: Event, a: Answers)
    requires c.Valid() && e != Deliver
    modifies c, c.helper`actions
    ensures c.Valid() && c.OnlyMine()
    ensures c.View() == old(Step(c.View(), e, a))
  {
    if IsCallback(e) {
      HandleCallback(c, e, a);
    } else if IsRequest(e) {
      HandleRequest(c, e, a);
    } else {
      match e
      case Begin => c.InitProvisioning(a);
      case OnError(error) => c.OnError(error);
      case OnStateChanged(state) => c.OnStateChanged(state);
      case TimerExpired(t) => c.TimerExpired(t, a);
      case CarrierConfigChanged(own) =>
        if own {
          c.CarrierConfigChanged(a);
        }
    }
  }

  // ---------------------------------------------------------------- one call

  /** What a call, made while the given actions are queued, is for one configuration. */
  ghost function Own(call: Call, actions: seq<Action>, c: SubscriberConfig): seq<Happening> {
    match call
    case Dispatch(a) => if actions != [] && actions[0].config == c then [Happening(Deliver, a)] else []
    case Happens(d, e, a) => if d == c then [Happening(e, a)] else []
  }

  ghost predicate Possible(call: Call, h: AsyncConfigHelper)
    reads h
  {
    call.Happens? ==> call.config in h.configs && call.event != Deliver
  }

  method Happen(h: AsyncConfigHelper, c: SubscriberConfig, e: Event, a: Answers)
    requires Serving(h) && c in h.configs && e != Deliver
    modifies h`actions, c
    ensures Serving(h) && h.configs == old(h.configs)
    ensures c.View() == old(Step(c.View(), e, a))
    ensures forall d | d in h.configs && d != c :: d.View() == old(d.View())
  {
    Handle(c, e, a);
  }

  method DeliverOldest(h: AsyncConfigHelper, a: Answers)
    requires Serving(h)
    modifies h`actions, h.configs
    ensures Serving(h) && h.configs == old(h.configs)
    ensures forall c | c in h.configs ::
              c.View() == old(if h.actions != [] && h.actions[0].config == c then Step(c.View(), Deliver, a) else c.View())
  {
    if h.actions != [] {
      h.OnMessage(a);
    }
  }

  /** One call is a step of its own for one configuration at most, and nothing for the others. */
  method Take(h: AsyncConfigHelper, call: Call)
    requires Serving(h) && Possible(call, h)
    modifies h`actions, h.configs
    ensures Serving(h) && h.configs == old(h.configs)
    ensures forall c | c in h.configs :: c.View() == old(Run(c.View(), Own(call, h.actions, c)))
  {
    ghost var actions := h.actions;
    forall c, e, a | c in h.configs ensures Run(c.View(), [Happening(e, a)]) == Step(c.View(), e, a) {
      RunOne(c.View(), Happening(e, a), []);
      assert [Happening(e, a)] + [] == [Happening(e, a)];
    }
    match call
    case Dispatch(a) => DeliverOldest(h, a);
    case Happens(c, e, a) => Happen(h, c, e, a);
  }

  // ---------------------------------------------------------------- a run of calls

  /** What is left of a run without its deliveries. */
  function Undelivered(hs: seq<Happening>): seq<Happening> {
    if hs == [] then []
    else
      var last := hs[|hs| - 1];
      Undelivered(hs[..|hs| - 1]) + if last.event == Deliver then [] else [last]
  }

  /** What happens to one configuration in the first calls, apart from the messages it takes. */
  ghost function HappensTo(calls: seq<Call>, n: nat, c: SubscriberConfig): seq<Happening>
    requires n <= |calls|
  {
    if n == 0 then []
    else HappensTo(calls, n - 1, c)
         + match calls[n - 1]
           case Dispatch(_) => []
           case Happens(d, e, a) => if d == c then [Happening(e, a)] else []
  }

  lemma UndeliveredSnoc(hs: seq<Happening>, h: Happening)
    ensures Undelivered(hs + [h]) == Undelivered(hs) + if h.event == Deliver then [] else [h]
  {
    assert (hs + [h])[..|hs|] == hs;
  }

  /** A configuration's own run, one call longer. */
  lemma OwnRunGrows(s: State, hs: seq<Happening>, calls: seq<Call>, n: nat, actions: seq<Action>, c: SubscriberConfig)
    requires n < |calls| && InRange(s.retry)
    requires calls[n].Happens? ==> calls[n].event != Deliver
    requires Undelivered(hs) == HappensTo(calls, n, c)
    ensures var all := hs + Own(calls[n], actions, c);
            && Run(s, all) == Run(Run(s, hs), Own(calls[n], actions, c))
            && Undelivered(all) == HappensTo(calls, n + 1, c)
  {
    var own := Own(calls[n], actions, c);
    if own == [] {
      assert hs + own == hs;
    } else {
      RunSnoc(s, hs, own[0]);
      RunOne(Run(s, hs), own[0], []);
      assert [own[0]] + [] == own;
      UndeliveredSnoc(hs, own[0]);
    }
  }

  /** Each configuration is where its own run leads from its start, after the first calls. */
  ghost predicate EachOnItsOwn(h: AsyncConfigHelper, starts: map<SubscriberConfig, State>,
                               runs: map<SubscriberConfig, seq<Happening>>, calls: seq<Call>, n: nat)
    requires n <= |calls|
    reads h, h.configs
  {
    Serving(h)
    && forall c | c in h.configs ::
         && c in starts && c in runs && InRange(starts[c].retry)
         && c.View() == Run(starts[c], runs[c])
         && Undelivered(runs[c]) == HappensTo(calls, n, c)
  }

  method ServeOne(h: AsyncConfigHelper, ghost starts: map<SubscriberConfig, State>,
                  ghost runs: map<SubscriberConfig, seq<Happening>>, calls: seq<Call>, n: nat)
    returns (ghost grown: map<SubscriberConfig, seq<Happening>>)
    requires n < |calls| && Possible(calls[n], h)
    requires EachOnItsOwn(h, starts, runs, calls, n)
    modifies h`actions, h.configs
    ensures h.configs == old(h.configs)
    ensures EachOnItsOwn(h, starts, grown, calls, n + 1)
  {
    ghost var actions := h.actions;
    grown := map c | c in h.configs :: runs[c] + Own(calls[n], actions, c);
    forall c | c in h.configs
      ensures Run(starts[c], grown[c]) == Run(c.View(), Own(calls[n], actions, c))
      ensures Undelivered(grown[c]) == HappensTo(calls, n + 1, c) {
      OwnRunGrows(starts[c], runs[c], calls, n, actions, c);
    }
    Take(h, calls[n]);
  }

  /** Whatever calls the helper and its configurations take, in whatever order: each configuration does a run of
      its own, of the events that happen to it, in their order, with deliveries in between. What holds of every
      run of one configuration therefore holds of each of them. */
  method Serve(h: AsyncConfigHelper, calls: seq<Call>) returns (ghost runs: map<SubscriberConfig, seq<Happening>>)
    requires Serving(h) && forall i | 0 <= i < |calls| :: Possible(calls[i], h)
    modifies h`actions, h.configs
    ensures Serving(h) && h.configs == old(h.configs)
    ensures forall c | c in h.configs ::
              && c in runs && c.View() == old(Run(c.View(), runs[c]))
              && Undelivered(runs[c]) == HappensTo(calls, |calls|, c)
    ensures forall c | c in h.configs :: old(S.Sound(c.View())) ==> S.Sound(c.View())
  {
    ghost var starts := map c | c in h.configs :: c.View();
    runs := map c | c in h.configs :: [];
    for n := 0 to |calls|
      invariant h.configs == old(h.configs) && EachOnItsOwn(h, starts, runs, calls, n)
    {
      runs := ServeOne(h, starts, runs, calls, n);
    }
    forall c | c in h.configs && old(S.Sound(c.View())) ensures S.Sound(c.View()) {
      S.EveryRunIsSound(starts[c], runs[c]);
    }
  }
}
