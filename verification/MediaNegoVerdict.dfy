/** When an offer or answer is accepted and why it is turned down, and which kinds have a line of their own, read off the
    lines. */
module MediaNegoVerdicts {
  import opened MediaNegos
  import opened MediaNegoAgreements

  // ---------------------------------------------------------------- offers and answers that are received

  /** Some line of the kind has an address of the IP version in use, or port 0. */
  predicate HasLine(s: seq<Line>, k: Kind) {
    exists i | 0 <= i < |s| :: s[i].Line? && s[i].kind == k && (s[i].sameIp || s[i].port == 0)
  }

  /** The session is of this kind: some line of the kind has a port other than -1, or a descriptor is missing and it was
      before. */
  predicate Asks(s: seq<Line>, k: Kind, before: set<Kind>) {
    if exists i | 0 <= i < |s| :: s[i].NoDescriptor? then k in before
    else exists i | 0 <= i < |s| :: s[i].Line? && s[i].kind == k && s[i].port != -1
  }

  lemma {:induction false} AskedForIff(s: seq<Line>, k: Kind, before: set<Kind>)
    requires k in {Audio, Video, Text}
    ensures k in AskedFor(s, before) <==> Asks(s, k, before)
  {
  }

  lemma {:induction false} TakenIff(s: seq<Line>, k: Kind)
    requires k in {Audio, Video, Text}
    ensures k in Taken(s, |s|) <==> HasLine(s, k)
  {
    assert forall i | 0 <= i < |s| ::
        Eligible(s[i], k) <==> s[i].Line? && s[i].kind == k && (s[i].sameIp || s[i].port == 0);
  }

  /** A direction is valid: one of a kind other than audio, or of audio with a line for it. */
  predicate HasDirection(s: seq<Line>, report: Report) {
    exists k | k in report.directions :: k == Audio ==> HasLine(s, Audio)
  }

  lemma {:induction false} HasDirectionIff(s: seq<Line>, report: Report)
    ensures HasDirection(s, report)
            <==> (if HasLine(s, Audio) then report.directions else report.directions - {Audio}) != {}
  {
    if k :| k in report.directions && (k == Audio ==> HasLine(s, Audio)) {
      assert k in if HasLine(s, Audio) then report.directions else report.directions - {Audio};
    } else {
      forall k | k in report.directions ensures k == Audio && !HasLine(s, Audio) {
      }
    }
  }

  /** Negotiation succeeds exactly when there is a configuration, a call for audio is met by a line and a codec, and
      some direction is valid. With a configuration, each reason has its own condition; without one, the reason is that
      of the last line with a complaint. */
  lemma {:induction false} NegotiationSucceedsIff(s: seq<Line>, before: set<Kind>, report: Report, configured: bool,
                                                  given: Reason)
    ensures var (ok, reason) := Verdict(s, AskedFor(s, before), report, configured, given);
      var audio := Asks(s, Audio, before);
      && (ok <==> configured && (audio ==> HasLine(s, Audio) && report.audioCodec) && HasDirection(s, report))
      && (configured ==>
            && reason in {NoError, NoAudio, NoCodecMatched}
            && (reason == NoError <==> ok)
            && (reason == NoAudio <==> audio && !HasLine(s, Audio)))
      && (!configured ==> IsLastComplaint(s, |s|, given, reason))
  {
    AskedForIff(s, Audio, before);
    TakenIff(s, Audio);
    HasDirectionIff(s, report);
    LastComplaint(s, |s|, given);
  }

  predicate IsFaulty(l: Line) {
    l.NoDescriptor? || l.NoMedia? || (!l.sameIp && l.port != 0)
  }

  predicate IsLastFault(s: seq<Line>, n: nat, i: nat)
    requires n <= |s|
  {
    i < n && IsFaulty(s[i]) && forall j | i < j < n :: !IsFaulty(s[j])
  }

  /** The last line that has no descriptor, no media or an address of the other IP version gives the reason. */
  predicate IsLastComplaint(s: seq<Line>, n: nat, given: Reason, reason: Reason)
    requires n <= |s|
  {
    || (exists i | 0 <= i < n :: IsLastFault(s, n, i) && reason == if s[i].Line? then IpMismatch else InvalidDescriptor)
    || ((forall i | 0 <= i < n :: !IsFaulty(s[i])) && reason == given)
  }

  lemma {:induction false} LastComplaint(s: seq<Line>, n: nat, given: Reason)
    requires n <= |s|
    ensures IsLastComplaint(s, n, given, Complaint(s, n, given))
    decreases n
  {
    if n > 0 {
      if IsFaulty(s[n - 1]) {
        assert IsLastFault(s, n, n - 1);
      } else {
        LastComplaint(s, n - 1, given);
        forall i | IsLastFault(s, n - 1, i) ensures IsLastFault(s, n, i) {
        }
      }
    }
  }

  /** A line that is turned down keeps its kind and address and loses port and attributes; it happens to a line with a
      port and an address of the other IP version, and to one of a known kind with a usable line before it. */
  lemma {:induction false} TurnedDownIff(s: seq<Line>, i: nat)
    requires i < |s|
    ensures var r := Judged(s)[i];
      if s[i].Line?
         && ((!s[i].sameIp && s[i].port != 0) || (s[i].kind != Other && HasLine(s[..i], s[i].kind)))
      then r == Line(s[i].kind, 0, s[i].sameIp, [])
      else r == s[i]
  {
    assert forall j | 0 <= j < i :: s[..i][j] == s[j];
    if s[i].Line? {
      var k := s[i].kind;
      assert k.Audio? || k.Video? || k.Text? || k.Other?;
      assert EligibleBefore(s, i, k) <==> HasLine(s[..i], k) by {
        if EligibleBefore(s, i, k) {
          var j :| 0 <= j < i && Eligible(s[j], k);
          assert s[..i][j].kind == k;
        }
        if HasLine(s[..i], k) {
          var j :| 0 <= j < i && s[..i][j].Line? && s[..i][j].kind == k && (s[..i][j].sameIp || s[..i][j].port == 0);
          assert Eligible(s[j], k);
        }
      }
    }
  }

  // ---------------------------------------------------------------- offers and answers that are formed

  /** In an established session the kinds in use are formed as well. */
  lemma {:induction false} NeededIff(state: NegoState, asked: set<Kind>, active: set<Kind>, k: Kind)
    ensures k in Needed(state, asked, active)
            <==> k in asked || (state == NegoState.Negotiated && k in {Audio, Video, Text} && k in active)
  {
  }

  predicate ComesBefore(k: Kind, m: Kind) {
    (k == Audio && m in {Video, Text}) || (k == Video && m == Text)
  }

  /** The line can be this kind's: it is of the kind, or it is of no known kind and the kind is needed. Such a line with
      port 0, in an answer, is left to a kind only when each needed one before it has a line with a port already. */
  predicate IsLineFor(s: seq<Line>, i: nat, k: Kind, need: set<Kind>, answering: bool)
    requires i < |s|
  {
    && s[i].Line?
    && (s[i].kind == k
        || (s[i].kind == Other && k in need
            && (answering && s[i].port == 0 ==>
                  forall m | m in need && ComesBefore(m, k) :: exists j | 0 <= j < i :: Takes(s[j], m, need, true))))
  }

  predicate HasLineFor(s: seq<Line>, n: nat, k: Kind, need: set<Kind>, answering: bool)
    requires n <= |s|
  {
    exists i | 0 <= i < n :: IsLineFor(s, i, k, need, answering)
  }

  /** A kind has a line exactly when one of the lines can be its line. */
  lemma {:induction false} HasLineChosenIff(s: seq<Line>, n: nat, k: Kind, need: set<Kind>, answering: bool)
    requires n <= FirstMissing(s) && need <= MEDIA && k in MEDIA
    ensures k in ChosenUpTo(s, n, need, answering).chosen <==> HasLineFor(s, n, k, need, answering)
    decreases n
  {
    if n > 0 {
      HasLineChosenIff(s, n - 1, k, need, answering);
      ChosenAt(s, n - 1, k, need, answering);
    }
  }

  lemma {:induction false} ChosenAt(s: seq<Line>, i: nat, k: Kind, need: set<Kind>, answering: bool)
    requires i < FirstMissing(s) && need <= MEDIA && k in MEDIA
    ensures var c := ChosenUpTo(s, i, need, answering);
      k in Choose(c, i, need, answering).chosen <==> k in c.chosen || IsLineFor(s, i, k, need, answering)
  {
    var c := ChosenUpTo(s, i, need, answering);
    ChoiceStands(s, i, k, need, answering);
    var open := need - c.done;
    if s[i].kind == Other && answering && s[i].port == 0 && open != {} && k in need {
      forall m | m in need ensures m in c.done <==> exists j | 0 <= j < i :: Takes(s[j], m, need, true) {
        ChoiceStands(s, i, m, need, answering);
      }
      if k in open {
        assert FirstOf(open) == k <==> forall m | m in need && ComesBefore(m, k) :: m in c.done;
      }
    }
  }

  /** An offer or answer can be formed exactly when no kind fails that has a line, and, but for a first offer, every line
      is there. */
  lemma {:induction false} FormsIff(s: seq<Line>, state: NegoState, need: set<Kind>, failing: set<Kind>)
    requires need <= MEDIA
    ensures LinesUsable(s, state) && Selected(s, state, need).0.Keys !! failing
            <==> if state == Idle then
                   forall k | k in need && k in failing :: |s| <= Place(k, need) || s[Place(k, need)].NoDescriptor?
                 else
                   && (forall i | 0 <= i < |s| :: s[i].Line?)
                   && (forall k | k in failing && k in MEDIA ::
                         !HasLineFor(s, |s|, k, need, state == OfferReceived))
  {
    AllThereMeans(s);
    if state != Idle && AllThere(s) {
      var chosen := Selected(s, state, need).0;
      forall k | k in MEDIA ensures k in chosen <==> HasLineFor(s, |s|, k, need, state == OfferReceived) {
        HasLineChosenIff(s, |s|, k, need, state == OfferReceived);
      }
      assert chosen.Keys <= MEDIA;
    }
  }
}
