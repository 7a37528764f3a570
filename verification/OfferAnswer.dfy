/** Two endpoints exchanging offers and answers (section 4 of RFC 3264), each with the four negotiation states. */
module OfferAnswers {
  import opened MediaNegos

  datatype End = A | B

  function Peer(e: End): End {
    if e == A then B else A
  }

  /** What an endpoint sent, as its own state makes it. */
  datatype Sent = Offer(sender: End) | Answer(sender: End)

  /** The states of both ends, what is on its way, and all that was sent. */
  datatype System = System(a: NegoState, b: NegoState, flight: seq<Sent>, log: seq<Sent>)
  {
    function Of(e: End): NegoState {
      if e == A then a else b
    }

    function With(e: End, s: NegoState): System {
      if e == A then this.(a := s) else this.(b := s)
    }
  }

  /** An endpoint forms an SDP and sends it, or what arrives first is negotiated, with or without success. */
  datatype Event = Send(sender: End) | Deliver(success: bool)

  const START := System(Idle, Idle, [], [])

  function MessageOf(e: End, s: NegoState): Sent {
    if s == OfferReceived then Answer(e) else Offer(e)
  }

  function Step(y: System, e: Event): System {
    match e
    case Send(x) =>
      if y.Of(x) == OfferSent then y
      else
        var m := MessageOf(x, y.Of(x));
        y.With(x, AfterForm(y.Of(x))).(flight := y.flight + [m], log := y.log + [m])
    case Deliver(success) =>
      if y.flight == [] then y
      else
        var x := Peer(y.flight[0].sender);
        var z := y.(flight := y.flight[1..]);
        if success then z.With(x, AfterNegotiate(y.Of(x))) else z
  }

  function Run(y: System, es: seq<Event>): System
    decreases es
  {
    if es == [] then y else Run(Step(y, es[0]), es[1..])
  }

  /** Nothing is sent while something is on its way, and every delivery is negotiated successfully. */
  predicate OrderlyStep(y: System, e: Event) {
    match e
    case Send(x) => y.Of(x) == OfferSent || y.flight == []
    case Deliver(success) => success
  }

  predicate Orderly(y: System, es: seq<Event>)
    decreases es
  {
    es == [] || (OrderlyStep(y, es[0]) && Orderly(Step(y, es[0]), es[1..]))
  }

  // ---------------------------------------------------------------- the invariant

  /** Offers and answers alternate, and each answer is from the other end. */
  predicate Alternates(log: seq<Sent>) {
    && (forall i | 0 <= i < |log| :: log[i].Offer? <==> i % 2 == 0)
    && (forall i | 0 < i < |log| && i % 2 == 1 :: log[i].sender == Peer(log[i - 1].sender))
  }

  predicate Settled(y: System) {
    y.flight == [] && |y.log| % 2 == 0 && y.a == y.b == if y.log == [] then Idle else Negotiated
  }

  /** An offer is on its way, or waits to be answered, or its answer is on its way. */
  predicate OfferUnderWay(y: System) {
    && |y.log| % 2 == 1
    && var x := y.log[|y.log| - 1].sender;
    && y.Of(x) == OfferSent
    && ((y.flight == [Offer(x)] && y.Of(Peer(x)) == if |y.log| == 1 then Idle else Negotiated)
        || (y.flight == [] && y.Of(Peer(x)) == OfferReceived))
  }

  predicate AnswerUnderWay(y: System) {
    && |y.log| > 0 && |y.log| % 2 == 0
    && var x := y.log[|y.log| - 1].sender;
    && y.flight == [Answer(x)] && y.Of(x) == Negotiated && y.Of(Peer(x)) == OfferSent
  }

  predicate Good(y: System) {
    Alternates(y.log) && (Settled(y) || OfferUnderWay(y) || AnswerUnderWay(y))
  }

  lemma LogGrows(log: seq<Sent>, m: Sent)
    requires Alternates(log)
    requires m.Offer? <==> |log| % 2 == 0
    requires m.Answer? ==> m.sender == Peer(log[|log| - 1].sender)
    ensures Alternates(log + [m])
  {
    var all := log + [m];
    assert forall i | 0 <= i < |log| :: all[i] == log[i];
  }

  lemma GoodSend(y: System, x: End)
    requires Good(y) && y.Of(x) != OfferSent && y.flight == []
    ensures Good(Step(y, Send(x)))
  {
    var m := MessageOf(x, y.Of(x));
    LogGrows(y.log, m);
    assert (y.log + [m])[|y.log|] == m;
  }

  lemma GoodDelivery(y: System)
    requires Good(y) && y.flight != []
    ensures Good(Step(y, Deliver(true)))
  {
    assert y.flight[1..] == [];
  }

  lemma GoodStep(y: System, e: Event)
    requires Good(y) && OrderlyStep(y, e)
    ensures Good(Step(y, e))
  {
    if e.Send? && y.Of(e.sender) != OfferSent {
      GoodSend(y, e.sender);
    } else if e.Deliver? && y.flight != [] {
      GoodDelivery(y);
    }
  }

  lemma {:induction false} GoodRun(y: System, es: seq<Event>)
    requires Good(y) && Orderly(y, es)
    ensures Good(Run(y, es))
    decreases |es|
  {
    if es != [] {
      GoodStep(y, es[0]);
      GoodRun(Step(y, es[0]), es[1..]);
    }
  }

  // ---------------------------------------------------------------- what it means

  /** In every orderly run the two ends are never both waiting for an answer, every offer is answered by the other
      end before the next offer, and whenever nothing is on its way they are negotiated together, which is
      exactly when every offer has been answered. */
  lemma OffersAreAnsweredInTurn(es: seq<Event>)
    requires Orderly(START, es)
    ensures var y := Run(START, es);
      && !(y.a == OfferSent && y.b == OfferSent)
      && Alternates(y.log)
      && |y.flight| <= 1
      && (y.flight == [] ==> (y.a == NegoState.Negotiated <==> y.b == NegoState.Negotiated))
      && (y.flight == [] ==> (y.a == NegoState.Negotiated <==> y.log != [] && |y.log| % 2 == 0))
  {
    GoodRun(START, es);
  }

  /** In an orderly run, what an endpoint takes for an answer is one, and what it takes for an offer is one. */
  lemma MessagesAreTakenForWhatTheyAre(es: seq<Event>)
    requires Orderly(START, es) && Run(START, es).flight != []
    ensures var y := Run(START, es);
      var m := y.flight[0];
      m.Answer? <==> y.Of(Peer(m.sender)) == OfferSent
  {
    GoodRun(START, es);
  }

  /** An orderly run never gets stuck: something is on its way, or an endpoint may send. */
  lemma SomethingCanHappen(es: seq<Event>)
    requires Orderly(START, es)
    ensures var y := Run(START, es);
      y.flight != [] || exists x: End :: y.Of(x) != OfferSent
  {
    GoodRun(START, es);
    var y := Run(START, es);
    if y.flight == [] {
      assert y.Of(A) != OfferSent || y.Of(B) != OfferSent;
    }
  }

  predicate BothWait(y: System) {
    y.a == OfferSent && y.b == OfferSent
  }

  /** At no time of the run do both ends wait for an answer. */
  predicate NeverBothWait(y: System, es: seq<Event>)
    decreases es
  {
    !BothWait(y) && (es == [] || NeverBothWait(Step(y, es[0]), es[1..]))
  }

  /** Whether this step fails to negotiate what was on its way. */
  predicate Loses(y: System, e: Event) {
    e == Deliver(false) && y.flight != []
  }

  /** Nothing is sent while something is on its way, nor after something was lost. */
  predicate Careful(y: System, lost: bool, es: seq<Event>)
    decreases es
  {
    es == [] || (
      && (es[0].Send? ==> y.Of(es[0].sender) == OfferSent || (y.flight == [] && !lost))
      && Careful(Step(y, es[0]), lost || Loses(y, es[0]), es[1..]))
  }

  /** One end waits for an answer that will not come, and the other end has nothing to answer. */
  predicate Stranded(y: System) {
    y.flight == [] && exists x: End :: y.Of(x) == OfferSent && y.Of(Peer(x)) in {Idle, NegoState.Negotiated}
  }

  predicate GoodOrStranded(y: System, lost: bool) {
    if lost then Stranded(y) else Good(y)
  }

  /** Sending out of turn makes both ends wait, at once. */
  lemma OutOfTurn(y: System, lost: bool, x: End)
    requires GoodOrStranded(y, lost) && y.Of(x) != OfferSent
    ensures BothWait(Step(y, Send(x))) <==> y.flight != [] || lost
  {
  }

  lemma LossStrands(y: System)
    requires Good(y) && y.flight != []
    ensures Stranded(Step(y, Deliver(false)))
  {
    var z := Step(y, Deliver(false));
    var m := y.flight[0];
    var x := if m.Offer? then m.sender else Peer(m.sender);
    assert z.Of(x) == OfferSent && z.Of(Peer(x)) in {Idle, NegoState.Negotiated};
  }

  lemma CarefulStep(y: System, lost: bool, e: Event)
    requires GoodOrStranded(y, lost)
    requires e.Send? ==> y.Of(e.sender) == OfferSent || (y.flight == [] && !lost)
    ensures GoodOrStranded(Step(y, e), lost || Loses(y, e)) && !BothWait(y)
  {
    if !lost {
      if Loses(y, e) {
        LossStrands(y);
      } else if e.Send? && y.Of(e.sender) != OfferSent {
        GoodSend(y, e.sender);
      } else if e.Deliver? && y.flight != [] {
        GoodDelivery(y);
      }
    }
  }

  lemma {:induction false} NeverBothWaitFrom(y: System, lost: bool, es: seq<Event>)
    requires GoodOrStranded(y, lost)
    ensures NeverBothWait(y, es) <==> Careful(y, lost, es)
    decreases |es|
  {
    if es != [] {
      var e := es[0];
      if e.Send? && y.Of(e.sender) != OfferSent && (y.flight != [] || lost) {
        OutOfTurn(y, lost, e.sender);
      } else {
        CarefulStep(y, lost, e);
        NeverBothWaitFrom(Step(y, e), lost || Loses(y, e), es[1..]);
      }
    }
  }

  /** The runs in which the two ends never both wait, with failed deliveries or without, are exactly those where
      nothing is sent while something is on its way or after something was lost. */
  lemma NeverBothWaitIffCareful(es: seq<Event>)
    ensures NeverBothWait(START, es) <==> Careful(START, false, es)
  {
    NeverBothWaitFrom(START, false, es);
  }

  predicate AllDelivered(es: seq<Event>) {
    forall i | 0 <= i < |es| && es[i].Deliver? :: es[i].success
  }

  lemma {:induction false} CarefulIsOrderly(y: System, es: seq<Event>)
    requires AllDelivered(es)
    ensures Careful(y, false, es) <==> Orderly(y, es)
    decreases |es|
  {
    if es != [] {
      assert AllDelivered(es[1..]) by {
        assert forall i | 0 < i < |es| :: es[i] == es[1..][i - 1];
      }
      CarefulIsOrderly(Step(y, es[0]), es[1..]);
    }
  }

  /** Among the runs whose deliveries all succeed, those where the two ends never both wait are exactly those where
      nothing is sent while something is on its way. */
  lemma NeverBothWaitIffOrderly(es: seq<Event>)
    requires AllDelivered(es)
    ensures NeverBothWait(START, es) <==> Orderly(START, es)
  {
    NeverBothWaitIffCareful(es);
    CarefulIsOrderly(START, es);
  }

  /** When both ends send at once, each takes the other's offer for an answer: both are negotiated, and nothing was
      ever answered. */
  lemma CrossingOffersAreTakenForAnswers()
    ensures var y := Run(START, [Send(A), Send(B)]);
      y.a == y.b == OfferSent
    ensures var y := Run(START, [Send(A), Send(B), Deliver(true), Deliver(true)]);
      y.a == y.b == NegoState.Negotiated && y.flight == [] && y.log == [Offer(A), Offer(B)]
  {
    var y1 := Step(START, Send(A));
    var y2 := Step(y1, Send(B));
    var y3 := Step(y2, Deliver(true));
    var y4 := Step(y3, Deliver(true));
    assert y2.flight == [Offer(A), Offer(B)] == y2.log;
    assert Run(y2, []) == y2 && Run(y4, []) == y4;
    assert Run(START, [Send(A), Send(B)]) == Run(y1, [Send(B)]) == y2;
    var es := [Send(A), Send(B), Deliver(true), Deliver(true)];
    assert es[1..][1..] == [Deliver(true), Deliver(true)];
    assert Run(START, es) == Run(y1, es[1..]) == Run(y2, es[1..][1..]) == Run(y3, [Deliver(true)]) == Run(y4, []);
  }

  /** Whatever is lost, at whatever time of an orderly run: one end waits, the other may send, and when it does
      they both wait. As long as it does not, nothing happens any more. */
  lemma FailedDeliveryLeavesBothWaiting(es: seq<Event>, more: seq<Event>)
    requires Orderly(START, es) && Run(START, es).flight != []
    ensures var y := Step(Run(START, es), Deliver(false));
      && (exists x: End :: y.Of(x) != OfferSent)
      && (forall x: End | y.Of(x) != OfferSent :: BothWait(Step(y, Send(x))))
      && (Careful(y, true, more) ==> Run(y, more) == y)
  {
    GoodRun(START, es);
    LossStrands(Run(START, es));
    var y := Step(Run(START, es), Deliver(false));
    var x: End :| y.Of(x) == OfferSent && y.Of(Peer(x)) in {Idle, NegoState.Negotiated};
    assert y.Of(Peer(x)) != OfferSent;
    forall x: End | y.Of(x) != OfferSent ensures BothWait(Step(y, Send(x))) {
      OutOfTurn(y, true, x);
    }
    if Careful(y, true, more) {
      NothingMore(y, more);
    }
  }

  lemma {:induction false} NothingMore(y: System, es: seq<Event>)
    requires y.flight == [] && Careful(y, true, es)
    ensures Run(y, es) == y
    decreases |es|
  {
    if es != [] {
      assert Step(y, es[0]) == y;
      NothingMore(y, es[1..]);
    }
  }
}
