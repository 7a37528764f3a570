/** The loop that turns lines of an offer down and the loop that chooses lines for the answer agree. */
module MediaNegoAgreements {
  import opened Lists
  import opened MediaNegos

  // ---------------------------------------------------------------- turning lines down

  /** The line negotiated for a kind: the first one eligible, or the length. */
  function Negotiated(s: seq<Line>, k: Kind): (n: nat)
    ensures n <= |s|
    ensures n < |s| ==> Eligible(s[n], k)
    ensures forall j | 0 <= j < n :: !Eligible(s[j], k)
  {
    if s == [] || Eligible(s[0], k) then 0 else 1 + Negotiated(s[1..], k)
  }

  predicate SameButPort(l: Line, r: Line) {
    r == l || (l.Line? && r == TurnedDown(l))
  }

  /** Judging keeps number, order and kinds of the lines. A line of a known kind that still has a port is the
      one negotiated for its kind, and the negotiated one is untouched. */
  lemma OnlyTheNegotiatedKeepsItsPort(s: seq<Line>, i: nat)
    requires i < |s|
    ensures SameButPort(s[i], Judged(s)[i])
    ensures s[i].Line? && s[i].kind in MEDIA ==>
      && (Judged(s)[i].port != 0 <==> s[i].port != 0 && i == Negotiated(s, s[i].kind))
      && (i == Negotiated(s, s[i].kind) ==> Judged(s)[i] == s[i])
    ensures s[i].Line? && s[i].kind == Other ==> (Judged(s)[i].port != 0 <==> s[i].port != 0 && s[i].sameIp)
  {
    if s[i].Line? && s[i].kind in MEDIA {
      var n := Negotiated(s, s[i].kind);
      if EligibleBefore(s, i, s[i].kind) {
        assert n < i;
      } else if !Mismatch(s[i]) {
        assert Eligible(s[i], s[i].kind) && n == i;
      }
    }
  }

  /** At most one line of each known kind has a port after judging. */
  lemma OnePortForEachKind(s: seq<Line>, i: nat, j: nat)
    requires i < |s| && j < |s| && s[i].Line? && s[j].Line? && s[i].kind == s[j].kind && s[i].kind in MEDIA
    requires Judged(s)[i].port != 0 && Judged(s)[j].port != 0
    ensures i == j
  {
    OnlyTheNegotiatedKeepsItsPort(s, i);
    OnlyTheNegotiatedKeepsItsPort(s, j);
  }

  /** A kind keeps a line with a port exactly when the negotiated one has a port. */
  lemma KindKeepsAPortIff(s: seq<Line>, k: Kind)
    requires k in MEDIA
    ensures (exists i | 0 <= i < |s| :: s[i].Line? && s[i].kind == k && Judged(s)[i].port != 0)
            <==> Negotiated(s, k) < |s| && s[Negotiated(s, k)].port != 0
  {
    forall i | 0 <= i < |s| && s[i].Line? && s[i].kind == k
      ensures Judged(s)[i].port != 0 <==> s[i].port != 0 && i == Negotiated(s, k) {
      OnlyTheNegotiatedKeepsItsPort(s, i);
    }
    var n := Negotiated(s, k);
    if n < |s| && s[n].port != 0 {
      assert Judged(s)[n].port != 0;
    }
  }

  /** So a line without a port makes the kind lose every usable line behind it. */
  lemma LineWithoutPortEndsItsKind(k: Kind, first: seq<string>, sameIp: bool, rest: seq<Line>, i: nat)
    requires k in MEDIA
    ensures var s := [Line(k, 0, sameIp, first)] + rest;
      i < |s| && s[i].Line? && s[i].kind == k ==> Judged(s)[i].port == 0
  {
    var s := [Line(k, 0, sameIp, first)] + rest;
    assert Eligible(s[0], k);
    if i < |s| && s[i].Line? && s[i].kind == k {
      OnlyTheNegotiatedKeepsItsPort(s, i);
    }
  }

  // ---------------------------------------------------------------- choosing lines

  predicate AllThere(s: seq<Line>) {
    forall i | 0 <= i < |s| :: s[i].Line?
  }

  lemma AllThereMeans(s: seq<Line>)
    ensures AllThere(s) <==> FirstMissing(s) == |s|
  {
  }

  /** A line that can be chosen for good: for a kind it has, or for one that is needed if it has none. */
  predicate Takes(l: Line, k: Kind, need: set<Kind>, answering: bool) {
    l.Line? && (l.kind == k || (l.kind == Other && k in need)) && !(answering && l.port == 0)
  }

  function FirstTaking(s: seq<Line>, k: Kind, need: set<Kind>, answering: bool): (n: nat)
    ensures n <= |s|
    ensures n < |s| ==> Takes(s[n], k, need, answering)
    ensures forall j | 0 <= j < n :: !Takes(s[j], k, need, answering)
  {
    if s == [] || Takes(s[0], k, need, answering) then 0 else 1 + FirstTaking(s[1..], k, need, answering)
  }

  /** A kind's choice stands from the first line that takes it. */
  lemma {:induction false} ChoiceStands(s: seq<Line>, n: nat, k: Kind, need: set<Kind>, answering: bool)
    requires n <= FirstMissing(s) && need <= MEDIA && k in MEDIA
    ensures var c := ChosenUpTo(s, n, need, answering);
      var f := FirstTaking(s, k, need, answering);
      && (k in c.done <==> f < n)
      && (f < n ==> k in c.chosen && c.chosen[k] == f)
    decreases n
  {
    if n > 0 {
      ChoiceStands(s, n - 1, k, need, answering);
      ChoiceStep(ChosenUpTo(s, n - 1, need, answering), n - 1, k, need, answering);
    }
  }

  lemma ChoiceStep(c: Choice, i: nat, k: Kind, need: set<Kind>, answering: bool)
    requires i < |c.lines| && c.lines[i].Line? && need <= MEDIA && k in MEDIA
    ensures var r := Choose(c, i, need, answering);
      && (k in r.done <==> k in c.done || Takes(c.lines[i], k, need, answering))
      && (k in c.done ==> (k in r.chosen <==> k in c.chosen) && (k in c.chosen ==> r.chosen[k] == c.chosen[k]))
      && (k !in c.done && Takes(c.lines[i], k, need, answering) ==> k in r.chosen && r.chosen[k] == i)
  {
  }

  predicate NoOthers(s: seq<Line>) {
    forall i | 0 <= i < |s| :: s[i].Line? && s[i].kind != Other
  }

  /** The last line of a kind, or -1. */
  function LastOfKind(s: seq<Line>, n: nat, k: Kind): (i: int)
    requires n <= |s|
    ensures -1 <= i < n
    ensures i >= 0 ==> s[i].Line? && s[i].kind == k
    ensures forall j | i < j < n :: !(s[j].Line? && s[j].kind == k)
  {
    if n == 0 then -1 else if s[n - 1].Line? && s[n - 1].kind == k then n - 1 else LastOfKind(s, n - 1, k)
  }

  lemma NotDoneYet(s: seq<Line>, n: nat, k: Kind, need: set<Kind>, answering: bool)
    requires need <= MEDIA && k in MEDIA && n <= FirstMissing(s)
    requires n <= FirstTaking(s, k, need, answering)
    ensures k !in ChosenUpTo(s, n, need, answering).done
  {
    ChoiceStands(s, n, k, need, answering);
  }

  lemma KnownStep(c: Choice, i: nat, k: Kind, need: set<Kind>, answering: bool)
    requires i < |c.lines| && c.lines[i].Line? && c.lines[i].kind != Other && need <= MEDIA && k !in c.done
    ensures var r := Choose(c, i, need, answering).chosen;
      if c.lines[i].kind == k then k in r && r[k] == i
      else (k in r <==> k in c.chosen) && (k in r ==> r[k] == c.chosen[k])
  {
  }

  /** Without a line that takes it for good, a kind ends up with its last line. */
  lemma {:induction false} ElseTheLast(s: seq<Line>, n: nat, k: Kind, need: set<Kind>, answering: bool)
    requires NoOthers(s) && need <= MEDIA && k in MEDIA
    requires n <= |s| && n <= FirstMissing(s)
    requires n <= FirstTaking(s, k, need, answering)
    ensures var c := ChosenUpTo(s, n, need, answering);
      && (k in c.chosen <==> LastOfKind(s, n, k) >= 0)
      && (k in c.chosen ==> c.chosen[k] == LastOfKind(s, n, k))
    decreases n
  {
    if n > 0 {
      ElseTheLast(s, n - 1, k, need, answering);
      NotDoneYet(s, n - 1, k, need, answering);
      var c := ChosenUpTo(s, n - 1, need, answering);
      KnownStep(c, n - 1, k, need, answering);
      assert c.lines[n - 1] == s[n - 1];
    }
  }

  lemma JudgedKinds(s: seq<Line>)
    ensures AllThere(Judged(s)) <==> AllThere(s)
    ensures NoOthers(Judged(s)) <==> NoOthers(s)
    ensures forall i | 0 <= i < |s| && s[i].Line? :: Judged(s)[i].Line? && Judged(s)[i].kind == s[i].kind
  {
    assert forall i | 0 <= i < |s| :: Judged(s)[i].Line? <==> s[i].Line?;
    assert forall i | 0 <= i < |s| && s[i].Line? :: Judged(s)[i].kind == s[i].kind;
  }

  /** The lines chosen for the answer to an offer with these lines. */
  function Answer(s: seq<Line>, need: set<Kind>): map<Kind, nat>
    requires need <= MEDIA
  {
    Selected(Judged(s), OfferReceived, need).0
  }

  /** A line of no known kind that comes first and can be used. */
  predicate OtherBefore(s: seq<Line>, n: nat)
    requires n <= |s|
  {
    exists j | 0 <= j < n :: s[j].Line? && s[j].kind == Other && s[j].port != 0 && s[j].sameIp
  }

  lemma FirstTakingJudged(s: seq<Line>, k: Kind, need: set<Kind>)
    requires AllThere(s) && need <= MEDIA && k in MEDIA
    requires Negotiated(s, k) < |s| && s[Negotiated(s, k)].port != 0
    ensures FirstTaking(Judged(s), k, need, true) == Negotiated(s, k) <==> k !in need || !OtherBefore(s, Negotiated(s, k))
    ensures FirstTaking(Judged(s), k, need, true) <= Negotiated(s, k)
  {
    var r, n := Judged(s), Negotiated(s, k);
    forall j | 0 <= j < |s|
      ensures Takes(r[j], k, need, true) <==> j == n || (s[j].kind == Other && k in need && s[j].port != 0 && s[j].sameIp)
    {
      OnlyTheNegotiatedKeepsItsPort(s, j);
    }
  }

  /** When the line negotiated for a kind has a port, the answer uses exactly that line for it, unless the kind is
      needed and an earlier usable line has no known kind. */
  lemma AnswerUsesTheNegotiatedLineIff(s: seq<Line>, k: Kind, need: set<Kind>)
    requires AllThere(s) && need <= MEDIA && k in MEDIA
    requires Negotiated(s, k) < |s| && s[Negotiated(s, k)].port != 0
    ensures k in Answer(s, need)
    ensures Answer(s, need)[k] == Negotiated(s, k) <==> k !in need || !OtherBefore(s, Negotiated(s, k))
  {
    JudgedKinds(s);
    AllThereMeans(Judged(s));
    FirstTakingJudged(s, k, need);
    ChoiceStands(Judged(s), |s|, k, need, true);
  }

  /** When every line has a known kind, the answer has a line for exactly the kinds that were offered: the negotiated
      one if that has a port, and the last one of the kind otherwise. */
  lemma AnswerToKnownKinds(s: seq<Line>, k: Kind, need: set<Kind>)
    requires NoOthers(s) && need <= MEDIA && k in MEDIA
    ensures k in Answer(s, need) <==> LastOfKind(s, |s|, k) >= 0
    ensures var n := Negotiated(s, k);
      k in Answer(s, need) ==>
        Answer(s, need)[k] == if n < |s| && s[n].port != 0 then n else LastOfKind(s, |s|, k)
  {
    var r, n := Judged(s), Negotiated(s, k);
    JudgedKinds(s);
    AllThereMeans(r);
    if n < |s| && s[n].port != 0 {
      AnswerUsesTheNegotiatedLineIff(s, k, need);
    } else {
      forall j | 0 <= j < |s| ensures !Takes(r[j], k, need, true) {
        OnlyTheNegotiatedKeepsItsPort(s, j);
      }
      ElseTheLast(r, |s|, k, need, true);
      LastOfJudged(s, k);
    }
  }

  lemma LastOfJudged(s: seq<Line>, k: Kind)
    requires AllThere(s)
    ensures LastOfKind(Judged(s), |s|, k) == LastOfKind(s, |s|, k)
  {
    JudgedKinds(s);
  }

  /** Choosing lines changes nothing but the kind of lines without a known one, and those only to needed kinds. */
  lemma {:induction false} ChoosingKeepsTheLines(s: seq<Line>, n: nat, need: set<Kind>, answering: bool, i: nat)
    requires n <= FirstMissing(s) && need <= MEDIA && i < |s|
    ensures var r := ChosenUpTo(s, n, need, answering).lines[i];
      r == s[i] || (s[i].Line? && s[i].kind == Other && r.Line? && r == s[i].(kind := r.kind) && r.kind in need)
    decreases n
  {
    if n > 0 {
      ChoosingKeepsTheLines(s, n - 1, need, answering, i);
    }
  }

  /** A choice that does not stand is a line with port 0 in an answer, and no two kinds share such a line. */
  lemma {:induction false} LooseChoices(s: seq<Line>, n: nat, k: Kind, m: Kind, need: set<Kind>, answering: bool)
    requires n <= FirstMissing(s) && need <= MEDIA && k in MEDIA && m in MEDIA && k != m
    ensures var c := ChosenUpTo(s, n, need, answering);
      && (k in c.chosen ==> c.chosen[k] < n && (k in c.done || (answering && s[c.chosen[k]].port == 0)))
      && (m in c.chosen ==> c.chosen[m] < n && (m in c.done || (answering && s[c.chosen[m]].port == 0)))
      && (k in c.chosen && m in c.chosen && k !in c.done && m !in c.done ==> c.chosen[k] != c.chosen[m])
    decreases n
  {
    if n > 0 {
      LooseChoices(s, n - 1, k, m, need, answering);
      var c := ChosenUpTo(s, n - 1, need, answering);
      LooseStep(c, n - 1, k, need, answering);
      LooseStep(c, n - 1, m, need, answering);
      LooseToOne(c, n - 1, k, m, need, answering);
    }
  }

  lemma LooseStep(c: Choice, i: nat, k: Kind, need: set<Kind>, answering: bool)
    requires i < |c.lines| && c.lines[i].Line? && need <= MEDIA && k in MEDIA
    ensures var r := Choose(c, i, need, answering);
      && (k in c.done ==> k in r.done)
      && (k in r.chosen ==> r.chosen[k] == i || (k in c.chosen && r.chosen[k] == c.chosen[k]))
      && (k in r.chosen && k !in r.done && (k !in c.chosen || r.chosen[k] != c.chosen[k]) ==>
            r.chosen[k] == i && answering && c.lines[i].port == 0)
  {
  }

  lemma LooseToOne(c: Choice, i: nat, k: Kind, m: Kind, need: set<Kind>, answering: bool)
    requires i < |c.lines| && c.lines[i].Line? && need <= MEDIA && k in MEDIA && m in MEDIA && k != m
    ensures var r := Choose(c, i, need, answering);
      k in r.chosen && m in r.chosen && k !in r.done && m !in r.done ==>
        (k in c.chosen && r.chosen[k] == c.chosen[k]) || (m in c.chosen && r.chosen[m] == c.chosen[m])
  {
  }

  /** Every line of one of the two kinds before line `j` is one with port 0 in an answer. */
  predicate NoneKeptBefore(s: seq<Line>, j: nat, k: Kind, m: Kind, answering: bool)
    requires j <= |s|
  {
    forall i | 0 <= i < j && s[i].Line? && s[i].kind in {k, m} :: answering && s[i].port == 0
  }

  /** Two kinds are given one line exactly when both are needed, and the first usable line of no known kind comes
      before every usable line of theirs. */
  lemma KindsShareALineIff(s: seq<Line>, n: nat, k: Kind, m: Kind, need: set<Kind>, answering: bool)
    requires n <= FirstMissing(s) && need <= MEDIA && k in MEDIA && m in MEDIA && k != m
    ensures var c := ChosenUpTo(s, n, need, answering).chosen;
      var j := FirstTaking(s, Other, need, answering);
      (k in c && m in c && c[k] == c[m])
      <==> k in need && m in need && j < n && NoneKeptBefore(s, j, k, m, answering)
  {
    LooseChoices(s, n, k, m, need, answering);
    ChoiceStands(s, n, k, need, answering);
    ChoiceStands(s, n, m, need, answering);
    FirstTakingsMeetIff(s, k, m, need, answering);
    var c := ChosenUpTo(s, n, need, answering);
    if k in c.chosen && m in c.chosen && c.chosen[k] == c.chosen[m] {
      assert k in c.done || m in c.done;
      assert !(answering && s[c.chosen[k]].port == 0);
    }
  }

  lemma {:induction false} FirstTakingsMeetIff(s: seq<Line>, k: Kind, m: Kind, need: set<Kind>, answering: bool)
    requires k in MEDIA && m in MEDIA && k != m
    ensures var f, g := FirstTaking(s, k, need, answering), FirstTaking(s, m, need, answering);
      var j := FirstTaking(s, Other, need, answering);
      (f < |s| && f == g) <==> k in need && m in need && j < |s| && NoneKeptBefore(s, j, k, m, answering)
    ensures var j := FirstTaking(s, Other, need, answering);
      k in need && m in need && j < |s| && NoneKeptBefore(s, j, k, m, answering)
      ==> FirstTaking(s, k, need, answering) == j
  {
    var f, g := FirstTaking(s, k, need, answering), FirstTaking(s, m, need, answering);
    var j := FirstTaking(s, Other, need, answering);
    if f < |s| && f == g {
      assert Takes(s[f], Other, need, answering);
      assert j == f;
      forall i | 0 <= i < j && s[i].Line? && s[i].kind in {k, m} ensures answering && s[i].port == 0 {
        assert !Takes(s[i], k, need, answering) && !Takes(s[i], m, need, answering);
      }
    }
    if k in need && m in need && j < |s| && NoneKeptBefore(s, j, k, m, answering) {
      assert Takes(s[j], k, need, answering) && Takes(s[j], m, need, answering);
      assert forall i | 0 <= i < j :: !Takes(s[i], Other, need, answering);
    }
  }

  /** It does happen: the one usable line, of no known kind, is the answer's line for both kinds. */
  lemma OneUnknownLineForTwoKinds(k: Kind, m: Kind, need: set<Kind>, port: int, attributes: seq<string>)
    requires need <= MEDIA && k in need && m in need && k != m && port != 0
    ensures var chosen := Answer([Line(Other, port, true, attributes)], need);
      k in chosen && m in chosen && chosen[k] == chosen[m]
  {
    var s := [Line(Other, port, true, attributes)];
    assert Judged(s)[0] == s[0];
    assert Judged(s) == s;
    KindsShareALineIff(s, 1, k, m, need, true);
  }

  // ---------------------------------------------------------------- the next offer

  /** The lines as the answer leaves them. */
  function Answered(s: seq<Line>, need: set<Kind>): (r: seq<Line>)
    requires need <= MEDIA
    ensures |r| == |s|
  {
    Selected(Judged(s), OfferReceived, need).1
  }

  /** The lines chosen for the next offer: those of the answer, and behind them any that are created for it. */
  function NextOffer(s: seq<Line>, need: set<Kind>, created: seq<Line>, needNext: set<Kind>): map<Kind, nat>
    requires need <= MEDIA && needNext <= MEDIA
  {
    Selected(Answered(s, need) + created, NegoState.Negotiated, needNext).0
  }

  /** The kinds that take a line for good, as their first one. */
  function TakenBy(s: seq<Line>, j: nat, need: set<Kind>, answering: bool): set<Kind>
    requires need <= MEDIA
  {
    set m | m in need && FirstTaking(s, m, need, answering) == j
  }

  /** A line of no known kind becomes one of the last kind that takes it, and every other line stays as it is. */
  lemma {:induction false} RetypedTo(s: seq<Line>, n: nat, need: set<Kind>, answering: bool, j: nat)
    requires j < n <= FirstMissing(s) && need <= MEDIA
    ensures var open := TakenBy(s, j, need, answering);
      ChosenUpTo(s, n, need, answering).lines[j]
      == if s[j].kind == Other && open != {} then s[j].(kind := LastOf(open)) else s[j]
    decreases n
  {
    if j < n - 1 {
      RetypedTo(s, n - 1, need, answering, j);
    } else if s[j].kind == Other {
      OpenAt(s, j, need, answering);
    }
  }

  /** The kinds still open at a line that can be used are those that take it. */
  lemma {:induction false} OpenAt(s: seq<Line>, j: nat, need: set<Kind>, answering: bool)
    requires j < FirstMissing(s) && need <= MEDIA && s[j].kind == Other
    ensures var open := need - ChosenUpTo(s, j, need, answering).done;
      TakenBy(s, j, need, answering) == if answering && s[j].port == 0 then {} else open
  {
    forall m | m in need
      ensures FirstTaking(s, m, need, answering) == j
              <==> !(answering && s[j].port == 0) && m !in ChosenUpTo(s, j, need, answering).done {
      assert m in MEDIA;
      ChoiceStands(s, j, m, need, answering);
      assert Takes(s[j], m, need, answering) <==> !(answering && s[j].port == 0);
    }
  }

  /** A kind is given lines of its own, or lines of no known kind if it is needed. */
  lemma {:induction false} GivenOwnLine(s: seq<Line>, n: nat, k: Kind, need: set<Kind>, answering: bool)
    requires n <= FirstMissing(s) && need <= MEDIA && k in MEDIA
    ensures var chosen := ChosenUpTo(s, n, need, answering).chosen;
      k in chosen ==> chosen[k] < n && Takes(s[chosen[k]], k, need, false)
    decreases n
  {
    if n > 0 {
      GivenOwnLine(s, n - 1, k, need, answering);
      var c := ChosenUpTo(s, n - 1, need, answering);
      assert c.lines[n - 1] == s[n - 1];
      GivenOwnStep(c, n - 1, k, need, answering);
    }
  }

  lemma GivenOwnStep(c: Choice, i: nat, k: Kind, need: set<Kind>, answering: bool)
    requires i < |c.lines| && c.lines[i].Line? && need <= MEDIA && k in MEDIA
    ensures var r := Choose(c, i, need, answering).chosen;
      k in r ==> (k in c.chosen && r[k] == c.chosen[k]) || (r[k] == i && Takes(c.lines[i], k, need, false))
  {
    if c.lines[i].kind == Other && need - c.done != {} {
      assert FirstOf(need - c.done) in need;
    }
  }

  lemma AnsweredIsThere(s: seq<Line>, need: set<Kind>)
    requires AllThere(s) && need <= MEDIA
    ensures FirstMissing(Judged(s)) == |s| && AllThere(Answered(s, need))
    ensures Answered(s, need) == ChosenUpTo(Judged(s), |s|, need, true).lines
    ensures Answer(s, need) == ChosenUpTo(Judged(s), |s|, need, true).chosen
  {
    JudgedKinds(s);
    AllThereMeans(Judged(s));
    forall i | 0 <= i < |s| ensures Answered(s, need)[i].Line? {
      ChoosingKeepsTheLines(Judged(s), |s|, need, true, i);
    }
  }

  lemma {:induction false} FirstTakingFrom(s: seq<Line>, more: seq<Line>, k: Kind, need: set<Kind>, a: nat)
    requires a < |s|
    ensures FirstTaking(s + more, k, need, false) == a
            <==> Takes(s[a], k, need, false) && forall j | 0 <= j < a :: !Takes(s[j], k, need, false)
  {
    var f := FirstTaking(s + more, k, need, false);
    assert forall j | 0 <= j < |s| :: (s + more)[j] == s[j];
    if f < a {
      assert Takes((s + more)[f], k, need, false);
    } else if f > a {
      assert !Takes((s + more)[a], k, need, false);
    }
  }

  /** The next offer uses the line of the answer for a kind, whatever lines are created for it and whatever kinds it
      needs, exactly when that line still takes the kind after the answer, and no earlier one does. RetypedTo says
      what the answer does to the lines. */
  lemma {:induction false} NextOfferUsesTheSameLineIff(s: seq<Line>, k: Kind, need: set<Kind>, created: seq<Line>,
                                                       needNext: set<Kind>)
    requires AllThere(s) && need <= MEDIA && needNext <= MEDIA && k in MEDIA && k in Answer(s, need)
    ensures var next := NextOffer(s, need, created, needNext);
      var a, lines := Answer(s, need)[k], Answered(s, need);
      a < |lines|
      && (k in next && next[k] == a
          <==> Takes(lines[a], k, needNext, false) && forall j | 0 <= j < a :: !Takes(lines[j], k, needNext, false))
  {
    AnsweredIsThere(s, need);
    GivenOwnLine(Judged(s), |s|, k, need, true);
    ChosenInOfferIff(Answered(s, need), created, k, needNext, Answer(s, need)[k]);
  }

  /** In an offer a kind has line `a` exactly when that is the first one to take it. */
  lemma {:induction false} ChosenInOfferIff(s: seq<Line>, more: seq<Line>, k: Kind, need: set<Kind>, a: nat)
    requires AllThere(s) && need <= MEDIA && k in MEDIA && a < |s|
    ensures var chosen := Selected(s + more, NegoState.Negotiated, need).0;
      (k in chosen && chosen[k] == a)
      <==> Takes(s[a], k, need, false) && forall j | 0 <= j < a :: !Takes(s[j], k, need, false)
  {
    var all := s + more;
    var n := FirstMissing(all);
    assert n >= |s| by {
      assert forall i | 0 <= i < |s| :: all[i] == s[i];
    }
    ChoiceStands(all, n, k, need, false);
    LooseChoices(all, n, k, if k == Audio then Video else Audio, need, false);
    FirstTakingFrom(s, more, k, need, a);
  }

  /** The kinds in the order in which they are given lines. */
  predicate Later(m: Kind, k: Kind) {
    (k == Audio && (m == Video || m == Text)) || (k == Video && m == Text)
  }

  /** A later kind has the same line in the answer. */
  predicate SharedWithLater(s: seq<Line>, need: set<Kind>, k: Kind)
    requires need <= MEDIA && k in Answer(s, need)
  {
    exists m: Kind :: m in need && Later(m, k) && m in Answer(s, need) && Answer(s, need)[m] == Answer(s, need)[k]
  }

  /** A line of no known kind that some kind takes for good would be taken by every needed kind. */
  lemma {:induction false} TakenLineIsUsable(s: seq<Line>, j: nat, need: set<Kind>, k: Kind)
    requires need <= MEDIA && j < |s| && s[j].Line? && s[j].kind == Other && TakenBy(s, j, need, true) != {}
    ensures k in need ==> FirstTaking(s, k, need, true) <= j
  {
    var m :| m in TakenBy(s, j, need, true);
    assert Takes(s[j], m, need, true);
  }

  lemma {:induction false} AnsweredLine(s: seq<Line>, need: set<Kind>, j: nat)
    requires AllThere(s) && need <= MEDIA && j < |s|
    ensures var open := TakenBy(Judged(s), j, need, true);
      && (open != {} ==> LastOf(open) in open)
      && Answered(s, need)[j].Line?
      && Answered(s, need)[j].kind == if s[j].kind == Other && open != {} then LastOf(open) else s[j].kind
  {
    AnsweredIsThere(s, need);
    JudgedKinds(s);
    RetypedTo(Judged(s), |s|, need, true, j);
  }

  /** No kind of the answer has a line before its own that it takes for good. */
  lemma {:induction false} NotTakenEarlier(s: seq<Line>, k: Kind, need: set<Kind>, j: nat)
    requires AllThere(s) && need <= MEDIA && k in MEDIA && k in Answer(s, need)
    requires j < Answer(s, need)[k] && j < |s|
    ensures FirstTaking(Judged(s), k, need, true) > j
  {
    AnsweredIsThere(s, need);
    ChoiceStands(Judged(s), |s|, k, need, true);
  }

  /** A line before the one of the answer takes the kind after the answer exactly when it is one of the kind, or of
      no known kind if that is needed. */
  lemma {:induction false} EarlierTakes(s: seq<Line>, k: Kind, need: set<Kind>, needNext: set<Kind>, j: nat)
    requires AllThere(s) && need <= needNext <= MEDIA && k in MEDIA && k in Answer(s, need)
    requires k in need || k !in needNext
    requires j < Answer(s, need)[k] && j < |s|
    ensures Takes(Answered(s, need)[j], k, needNext, false) <==> Takes(s[j], k, need, false)
  {
    AnsweredLine(s, need, j);
    NotTakenEarlier(s, k, need, j);
    JudgedKinds(s);
    if s[j].kind == Other && TakenBy(Judged(s), j, need, true) != {} {
      TakenLineIsUsable(Judged(s), j, need, k);
    }
  }

  /** The answer's own line takes the kind afterwards, unless it is one of no known kind that a later kind shares. */
  lemma {:induction false} OwnStillTakes(s: seq<Line>, k: Kind, need: set<Kind>, needNext: set<Kind>)
    requires AllThere(s) && need <= needNext <= MEDIA && k in MEDIA && k in Answer(s, need)
    ensures var a := Answer(s, need)[k];
      a < |s|
      && (Takes(Answered(s, need)[a], k, needNext, false) <==> s[a].kind == k || !SharedWithLater(s, need, k))
  {
    AnsweredIsThere(s, need);
    JudgedKinds(s);
    GivenOwnLine(Judged(s), |s|, k, need, true);
    var a := Answer(s, need)[k];
    AnsweredLine(s, need, a);
    if s[a].kind == Other {
      SharedIff(s, k, need);
    }
  }

  /** A later kind shares the line exactly when k is not the last one that takes it. */
  lemma {:induction false} SharedIff(s: seq<Line>, k: Kind, need: set<Kind>)
    requires AllThere(s) && need <= MEDIA && k in MEDIA && k in Answer(s, need)
    requires Answer(s, need)[k] < |s| && s[Answer(s, need)[k]].kind == Other
    ensures var open := TakenBy(Judged(s), Answer(s, need)[k], need, true);
      SharedWithLater(s, need, k) <==> open != {} && LastOf(open) != k
  {
    TakersOfAnswer(s, k, need);
    var open := TakenBy(Judged(s), Answer(s, need)[k], need, true);
    if open != {} {
      assert LastOf(open) in open;
      assert LastOf(open) != k ==> Later(LastOf(open), k);
    }
  }

  /** Of a line of no known kind, the kinds that share it in the answer are those that take it for good. */
  lemma {:induction false} TakersOfAnswer(s: seq<Line>, k: Kind, need: set<Kind>)
    requires AllThere(s) && need <= MEDIA && k in MEDIA && k in Answer(s, need)
    requires Answer(s, need)[k] < |s| && s[Answer(s, need)[k]].kind == Other
    ensures var open := TakenBy(Judged(s), Answer(s, need)[k], need, true);
      && (open != {} ==> k in open)
      && (forall m | m in need && m != k ::
            m in open <==> m in Answer(s, need) && Answer(s, need)[m] == Answer(s, need)[k])
  {
    AnsweredIsThere(s, need);
    forall m | m in need && m != k
      ensures var open := TakenBy(Judged(s), Answer(s, need)[k], need, true);
        && (m in open ==> k in open)
        && (m in open <==> m in Answer(s, need) && Answer(s, need)[m] == Answer(s, need)[k]) {
      SharedLine(Judged(s), k, m, need);
    }
  }

  lemma {:induction false} SharedLine(s: seq<Line>, k: Kind, m: Kind, need: set<Kind>)
    requires FirstMissing(s) == |s| && need <= MEDIA && k in MEDIA && m in need && m != k
    ensures var chosen := ChosenUpTo(s, |s|, need, true).chosen;
      k in chosen ==>
        chosen[k] < |s|
        && (s[chosen[k]].kind == Other ==>
              var open := TakenBy(s, chosen[k], need, true);
              (m in open ==> k in open) && (m in open <==> m in chosen && chosen[m] == chosen[k]))
  {
    GivenOwnLine(s, |s|, k, need, true);
    ChoiceStands(s, |s|, k, need, true);
    ChoiceStands(s, |s|, m, need, true);
    LooseChoices(s, |s|, k, m, need, true);
  }

  /** When the next offer needs the kinds of the answer: it uses the line of the answer exactly when that is the
      first line of the kind, or of no known kind for one that is needed, with or without a port, and no later kind
      shares it unless it is one of the kind. */
  lemma {:induction false} NextOfferOfTheSameKindsIff(s: seq<Line>, k: Kind, need: set<Kind>, created: seq<Line>,
                                                      needNext: set<Kind>)
    requires AllThere(s) && need <= needNext <= MEDIA && k in MEDIA && k in Answer(s, need)
    requires k in need || k !in needNext
    ensures var next := NextOffer(s, need, created, needNext);
      var a := Answer(s, need)[k];
      a < |s|
      && (k in next && next[k] == a
          <==> a == FirstTaking(s, k, need, false) && (s[a].kind == k || !SharedWithLater(s, need, k)))
  {
    NextOfferUsesTheSameLineIff(s, k, need, created, needNext);
    OwnStillTakes(s, k, need, needNext);
    var a := Answer(s, need)[k];
    forall j | 0 <= j < a
      ensures Takes(Answered(s, need)[j], k, needNext, false) <==> Takes(s[j], k, need, false) {
      EarlierTakes(s, k, need, needNext, j);
    }
    AnsweredIsThere(s, need);
    GivenOwnLine(Judged(s), |s|, k, need, true);
    JudgedKinds(s);
    FirstTakingFrom(s, [], k, need, a);
    assert s + [] == s;
  }

  /** The first line of a kind, or the length. */
  function FirstOfKind(s: seq<Line>, k: Kind): (n: nat)
    ensures n <= |s|
    ensures n < |s| ==> s[n].Line? && s[n].kind == k
    ensures forall j | 0 <= j < n :: !(s[j].Line? && s[j].kind == k)
  {
    if s == [] || (s[0].Line? && s[0].kind == k) then 0 else 1 + FirstOfKind(s[1..], k)
  }

  /** With known kinds only: the answer uses the negotiated line if that has a port and the last one of the kind
      otherwise, and the next offer uses the first one. */
  lemma {:induction false} NextOfferOfKnownKinds(s: seq<Line>, k: Kind, need: set<Kind>, created: seq<Line>,
                                                 needNext: set<Kind>)
    requires NoOthers(s) && need <= MEDIA && needNext <= MEDIA && k in MEDIA && FirstOfKind(s, k) < |s|
    ensures var next := NextOffer(s, need, created, needNext);
      var n := Negotiated(s, k);
      && k in Answer(s, need)
      && (k in next && next[k] == Answer(s, need)[k]
          <==> FirstOfKind(s, k) == if n < |s| && s[n].port != 0 then n else LastOfKind(s, |s|, k))
  {
    AnswerToKnownKinds(s, k, need);
    NextOfferUsesTheSameLineIff(s, k, need, created, needNext);
    AnsweredIsThere(s, need);
    JudgedKinds(s);
    forall j | 0 <= j < |s| ensures Takes(Answered(s, need)[j], k, needNext, false) <==> s[j].kind == k {
      RetypedTo(Judged(s), |s|, need, true, j);
    }
  }

  /** Both ways in which it differs do happen: a line without a port comes back before the one that replaces it, ... */
  lemma NextOfferBringsADisabledLineBack(k: Kind, port: int)
    requires k in MEDIA && port != 0
    ensures var s := [Line(k, 0, true, []), Line(k, port, true, [])];
      var next := NextOffer(s, {k}, [], {k});
      k in Answer(s, {k}) && !(k in next && next[k] == Answer(s, {k})[k])
  {
    var s := [Line(k, 0, true, []), Line(k, port, true, [])];
    assert Eligible(s[0], k);
    NextOfferOfKnownKinds(s, k, {k}, [], {k});
  }

  /** ... and a line of no known kind that two kinds share is left to the later one. */
  lemma NextOfferLeavesASharedLine(attributes: seq<string>, port: int, other: int)
    requires port != 0 && other != 0
    ensures var s := [Line(Other, other, true, attributes), Line(Audio, port, true, [])];
      var need := {Audio, Video};
      var next := NextOffer(s, need, [], need);
      Audio in Answer(s, need) && !(Audio in next && next[Audio] == Answer(s, need)[Audio])
  {
    var s := [Line(Other, other, true, attributes), Line(Audio, port, true, [])];
    var need := {Audio, Video};
    AnsweredIsThere(s, need);
    assert Judged(s)[0] == s[0];
    KindsShareALineIff(Judged(s), 2, Audio, Video, need, true);
    assert Takes(s[0], Other, need, true);
    assert SharedWithLater(s, need, Audio);
    ChoiceStands(Judged(s), 2, Audio, need, true);
    NextOfferOfTheSameKindsIff(s, Audio, need, [], need);
  }

  // ---------------------------------------------------------------- the first offer

  lemma PlaceBelow(need: set<Kind>, k: Kind)
    requires need <= MEDIA && k in need
    ensures Place(k, need) < |need|
  {
    var before := (if Audio in need && k != Audio then {Audio} else {})
      + if Video in need && k == Text then {Video} else {};
    assert |before| == Place(k, need);
    Smaller(before, need, k);
  }

  lemma Smaller(a: set<Kind>, b: set<Kind>, k: Kind)
    requires a <= b && k in b && k !in a
    ensures |a| < |b|
  {
    assert a <= b - {k};
    SubsetSize(a, b - {k});
  }

  /** In a first offer a kind asked for gets the line at its place in the order audio, video, text. It gets none when
      that line is not there, as for a service whose lines are not counted out, or is without a descriptor. */
  lemma FirstOfferGivesEachKindItsLine(s: seq<Line>, asked: set<Kind>, active: set<Kind>, counted: bool, created: Line,
                                       k: Kind)
    requires asked <= MEDIA
    ensures var chosen := Selected(LinesFor(s, Idle, asked, active, counted, created), Idle, asked).0;
      var p := Place(k, asked);
      && (k in chosen <==> k in asked && if p < |s| then !s[p].NoDescriptor? else counted && !created.NoDescriptor?)
      && (k in chosen ==> chosen[k] == p)
  {
    if k in asked {
      PlaceBelow(asked, k);
    }
  }

  /** No two kinds are given the same line, and the order is that of the kinds. */
  lemma FirstOfferKeepsTheOrder(s: seq<Line>, asked: set<Kind>, active: set<Kind>, counted: bool, created: Line,
                                k: Kind, m: Kind)
    requires asked <= MEDIA && k != m
    ensures var chosen := Selected(LinesFor(s, Idle, asked, active, counted, created), Idle, asked).0;
      k in chosen && m in chosen ==> (chosen[k] < chosen[m] <==> Later(m, k)) && chosen[k] != chosen[m]
  {
    FirstOfferGivesEachKindItsLine(s, asked, active, counted, created, k);
    FirstOfferGivesEachKindItsLine(s, asked, active, counted, created, m);
  }
}
