/** Offer and answer over media lines: which lines of an offer are turned down, and which lines an answer uses
    (sections 5, 6 and 8 of RFC 3264). */
module MediaNegos {

  datatype Kind = Audio | Video | Text | Other

  /** A media line. `attributes` stands for its attributes and bandwidths, `sameIp` for a remote address of the
      IP version in use. */
  datatype Line =
    | NoDescriptor
    | NoMedia
    | Line(kind: Kind, port: int, sameIp: bool, attributes: seq<string>)

  datatype NegoState = Idle | OfferSent | OfferReceived | Negotiated

  datatype Reason = NoError | InvalidDescriptor | IpMismatch | NoCodecMatched | NoAudio

  const MEDIA: set<Kind> := {Audio, Video, Text}

  function AfterForm(s: NegoState): NegoState {
    match s
    case Idle | Negotiated => OfferSent
    case OfferReceived => Negotiated
    case OfferSent => OfferSent
  }

  function AfterNegotiate(s: NegoState): NegoState {
    match s
    case Idle | Negotiated => OfferReceived
    case OfferSent => Negotiated
    case OfferReceived => OfferReceived
  }

  // ---------------------------------------------------------------- turning lines down

  function TurnedDown(l: Line): Line
    requires l.Line?
  {
    l.(port := 0, attributes := [])
  }

  predicate Mismatch(l: Line) {
    l.Line? && !l.sameIp && l.port != 0
  }

  /** A line that may be the one to negotiate for its kind. */
  predicate Eligible(l: Line, k: Kind) {
    l.Line? && l.kind == k && !Mismatch(l)
  }

  predicate EligibleBefore(s: seq<Line>, i: nat, k: Kind)
    requires i <= |s|
  {
    exists j | 0 <= j < i :: Eligible(s[j], k)
  }

  /** What becomes of one line of an offer. */
  function Fate(s: seq<Line>, i: nat): Line
    requires i < |s|
  {
    if !s[i].Line? then s[i]
    else if Mismatch(s[i]) || (s[i].kind in MEDIA && EligibleBefore(s, i, s[i].kind)) then TurnedDown(s[i])
    else s[i]
  }

  function Judged(s: seq<Line>): (r: seq<Line>)
    ensures |r| == |s| && forall i | 0 <= i < |s| :: r[i] == Fate(s, i)
  {
    seq(|s|, i requires 0 <= i < |s| => Fate(s, i))
  }

  /** The kinds that a line was negotiated for. */
  function Taken(s: seq<Line>, i: nat): set<Kind>
    requires i <= |s|
  {
    set k | k in MEDIA && EligibleBefore(s, i, k)
  }

  /** The last complaint made while going through the lines. */
  function Complaint(s: seq<Line>, i: nat, before: Reason): Reason
    requires i <= |s|
  {
    if i == 0 then before
    else if !s[i - 1].Line? then InvalidDescriptor
    else if Mismatch(s[i - 1]) then IpMismatch
    else Complaint(s, i - 1, before)
  }

  /** The kinds asked for: those of the lines with a port, unless a descriptor is missing. */
  function AskedFor(s: seq<Line>, before: set<Kind>): set<Kind> {
    if exists i | 0 <= i < |s| :: s[i].NoDescriptor? then before
    else set k | k in MEDIA && exists i | 0 <= i < |s| :: s[i].Line? && s[i].kind == k && s[i].port != -1
  }

  /** What the negotiators of the kinds report: whether an audio codec is in use, and the kinds with a valid
      direction. */
  datatype Report = Report(audioCodec: bool, directions: set<Kind>)

  /** Whether negotiation succeeds, and the reason given. */
  function Verdict(s: seq<Line>, asked: set<Kind>, report: Report, configured: bool, before: Reason): (bool, Reason) {
    var taken := Taken(s, |s|);
    if !configured then (false, Complaint(s, |s|, before))
    else if Audio in taken && Audio in asked && !report.audioCodec then (false, NoCodecMatched)
    else if Audio !in taken && Audio in asked then (false, NoAudio)
    else if (if Audio in taken then report.directions else report.directions - {Audio}) == {} then (false, NoCodecMatched)
    else (true, NoError)
  }

  // ---------------------------------------------------------------- choosing lines

  /** Lines chosen so far for each kind, and the kinds for which the choice stands. */
  datatype Choice = Choice(chosen: map<Kind, nat>, done: set<Kind>, lines: seq<Line>)

  /** The last of the kinds, in the order audio, video, text. */
  function LastOf(ks: set<Kind>): Kind
    requires ks <= MEDIA && ks != {}
  {
    if Text in ks then Text else if Video in ks then Video else Audio
  }

  function FirstOf(ks: set<Kind>): Kind
    requires ks <= MEDIA && ks != {}
  {
    if Audio in ks then Audio else if Video in ks then Video else Text
  }

  /** A line of no known kind goes to every kind that still needs one; with port 0, in an answer, only to the
      first of them, and not for good. */
  function ChooseOther(c: Choice, i: nat, need: set<Kind>, answering: bool): Choice
    requires i < |c.lines| && c.lines[i].Line? && need <= MEDIA
  {
    var open := need - c.done;
    if open == {} then c
    else if answering && c.lines[i].port == 0 then c.(chosen := c.chosen[FirstOf(open) := i])
    else
      Choice(c.chosen + map k | k in open :: i, c.done + open, c.lines[i := c.lines[i].(kind := LastOf(open))])
  }

  /** The choice after a line of no known kind was offered to one kind; only without port 0 it is for good. */
  function Given(c: Choice, i: nat, k: Kind, need: set<Kind>, port0: bool): (r: Choice)
    requires i < |c.lines| && c.lines[i].Line?
    ensures |r.lines| == |c.lines| && r.lines[i].Line?
  {
    if k !in need || k in c.done then c
    else if port0 then c.(chosen := c.chosen[k := i])
    else Choice(c.chosen[k := i], c.done + {k}, c.lines[i := c.lines[i].(kind := k)])
  }

  lemma OtherInTurn(c: Choice, i: nat, need: set<Kind>, port0: bool)
    requires i < |c.lines| && c.lines[i].Line? && need <= MEDIA
    requires port0 ==> c.lines[i].port == 0
    ensures var c1 := Given(c, i, Audio, need, port0);
            var c2 := Given(c1, i, Video, need, port0);
            ChooseOther(c, i, need, port0) == if port0 && Audio in need - c.done then c1
                                              else if port0 && Video in need - c.done then c2
                                              else Given(c2, i, Text, need, port0)
  {
    var open := need - c.done;
    assert open == (if Audio in open then {Audio} else {}) + (if Video in open then {Video} else {})
                   + if Text in open then {Text} else {};
    if port0 {
      assert open != {} ==> FirstOf(open) in open;
    } else {
      OtherForGood(c, i, need);
    }
  }

  lemma OtherForGood(c: Choice, i: nat, need: set<Kind>)
    requires i < |c.lines| && c.lines[i].Line? && need <= MEDIA
    ensures ChooseOther(c, i, need, false)
         == Given(Given(Given(c, i, Audio, need, false), i, Video, need, false), i, Text, need, false)
  {
    var open := need - c.done;
    var r := Given(Given(Given(c, i, Audio, need, false), i, Video, need, false), i, Text, need, false);
    assert r.done == c.done + open;
    assert r.chosen == c.chosen + map k | k in open :: i;
    if open == {} {
      assert r.lines == c.lines;
    } else {
      assert r.lines == c.lines[i := c.lines[i].(kind := LastOf(open))];
    }
  }

  function Choose(c: Choice, i: nat, need: set<Kind>, answering: bool): (r: Choice)
    requires i < |c.lines| && c.lines[i].Line? && need <= MEDIA
    ensures c.chosen.Keys <= MEDIA ==> r.chosen.Keys <= MEDIA
    ensures |r.lines| == |c.lines|
    ensures forall j | 0 <= j < |c.lines| && j != i :: r.lines[j] == c.lines[j]
  {
    var k := c.lines[i].kind;
    assert k.Audio? || k.Video? || k.Text? || k.Other?;
    if k == Other then ChooseOther(c, i, need, answering)
    else if k in c.done then c
    else c.(chosen := c.chosen[k := i], done := if answering && c.lines[i].port == 0 then c.done else c.done + {k})
  }

  /** The first line without a description, or the length. */
  function FirstMissing(s: seq<Line>): (n: nat)
    ensures n <= |s|
    ensures forall j | 0 <= j < n :: s[j].Line?
    ensures n < |s| ==> !s[n].Line?
  {
    if s == [] || !s[0].Line? then 0 else 1 + FirstMissing(s[1..])
  }

  /** The choice after the first `n` lines. */
  function ChosenUpTo(s: seq<Line>, n: nat, need: set<Kind>, answering: bool): (c: Choice)
    requires n <= FirstMissing(s) && need <= MEDIA
    ensures c.chosen.Keys <= MEDIA
    ensures |c.lines| == |s| && forall j | n <= j < |s| :: c.lines[j] == s[j]
  {
    if n == 0 then Choice(map[], {}, s) else Choose(ChosenUpTo(s, n - 1, need, answering), n - 1, need, answering)
  }

  /** The number of kinds needed before this one, in the order audio, video, text. */
  function Place(k: Kind, need: set<Kind>): nat {
    match k
    case Audio => 0
    case Video => if Audio in need then 1 else 0
    case _ => (if Audio in need then 1 else 0) + if Video in need then 1 else 0
  }

  /** In a first offer, the kinds take the lines in order, as far as there are lines with a descriptor. */
  function InOrder(s: seq<Line>, need: set<Kind>): map<Kind, nat> {
    map k | k in need && Place(k, need) < |s| && !s[Place(k, need)].NoDescriptor? :: Place(k, need)
  }

  /** The kinds an offer or answer is formed for: in an established session, also those in use. */
  function Needed(state: NegoState, asked: set<Kind>, active: set<Kind>): set<Kind> {
    if state == Negotiated then asked + active * MEDIA else asked
  }

  /** The lines that FormSDP works on, in an offer after creating some. */
  function LinesFor(s: seq<Line>, state: NegoState, asked: set<Kind>, active: set<Kind>, counted: bool, created: Line)
    : seq<Line>
  {
    WithCreated(s, Needed(state, asked, active), counted && state in {Idle, Negotiated}, created)
  }

  predicate LinesUsable(s: seq<Line>, state: NegoState) {
    state == Idle || FirstMissing(s) == |s|
  }

  /** The lines chosen to form, and the lines as they are then. */
  function Selected(s: seq<Line>, state: NegoState, need: set<Kind>): (map<Kind, nat>, seq<Line>)
    requires need <= MEDIA
  {
    if state == Idle then (InOrder(s, need), s)
    else
      var c := ChosenUpTo(s, FirstMissing(s), need, state == OfferReceived);
      (c.chosen, c.lines)
  }

  /** Lines are created until there is one for each kind, in an offer. */
  function WithCreated(s: seq<Line>, need: set<Kind>, offering: bool, created: Line): seq<Line> {
    if offering && |need| > |s| then s + seq(|need| - |s|, _ => created) else s
  }

  class Session {
    var lines: seq<Line>

    constructor (lines: seq<Line>)
      ensures this.lines == lines
    {
      this.lines := lines;
    }

    method CreateMedia(created: Line)
      modifies this
      ensures lines == old(lines) + [created]
    {
      lines := lines + [created];
    }
  }

  /** The negotiation of one session. The negotiators of the kinds are parameters: what they report, and the
      kinds whose line they fail to form. */
  class MediaNego {
    var negoState: NegoState
    var sessionType: set<Kind>
    var isForking: bool
    var hasProfile: bool

    constructor ()
      ensures negoState == Idle && !isForking && !hasProfile && sessionType == {}
    {
      negoState, sessionType, isForking, hasProfile := Idle, {}, false, false;
    }

    /** A profile is made for an environment, and once made it stays. */
    method CreateProfile(hasEnvironment: bool)
      modifies `hasProfile
      ensures hasProfile == (old(hasProfile) || hasEnvironment)
    {
      if !hasEnvironment {
        return;
      }
      hasProfile := true;
    }

    method Forking(other: MediaNego?) returns (ok: bool)
      modifies `negoState, `isForking
      ensures ok <==> other != null
      ensures if ok then negoState == OfferSent && isForking else unchanged(this)
    {
      if other == null {
        return false;
      }
      negoState := OfferSent;
      isForking := true;
      return true;
    }

    method SetSessionType(session: Session)
      modifies `sessionType
      ensures sessionType == AskedFor(session.lines, old(sessionType))
    {
      var kinds: set<Kind> := {};
      for i := 0 to |session.lines|
        invariant forall j | 0 <= j < i :: !session.lines[j].NoDescriptor?
        invariant forall k :: k in kinds <==>
          k in MEDIA
          && exists j | 0 <= j < i :: session.lines[j].Line? && session.lines[j].kind == k && session.lines[j].port != -1
      {
        var l := session.lines[i];
        if l.NoDescriptor? {
          return;
        }
        if l.Line? && l.kind == Audio && l.port != -1 {
          kinds := kinds + {Audio};
        } else if l.Line? && l.kind == Video && l.port != -1 {
          kinds := kinds + {Video};
        } else if l.Line? && l.kind == Text && l.port != -1 {
          kinds := kinds + {Text};
        }
      }
      sessionType := kinds;
    }

    /** The loop over the lines of an offer or answer that was received. */
    method JudgeLines(session: Session, before: Reason) returns (taken: set<Kind>, reason: Reason)
      modifies session
      ensures session.lines == Judged(old(session.lines))
      ensures taken == Taken(old(session.lines), |session.lines|)
      ensures reason == Complaint(old(session.lines), |session.lines|, before)
    {
      ghost var s := session.lines;
      taken := {};
      reason := before;
      for i := 0 to |session.lines|
        invariant |session.lines| == |s|
        invariant forall j | 0 <= j < i :: session.lines[j] == Fate(s, j)
        invariant forall j | i <= j < |s| :: session.lines[j] == s[j]
        invariant taken == Taken(s, i)
        invariant reason == Complaint(s, i, before)
      {
        TakenStep(s, i);
        var l := session.lines[i];
        if l.NoDescriptor? {
          reason := InvalidDescriptor;
        } else if l.NoMedia? {
          reason := InvalidDescriptor;
        } else if !l.sameIp && l.port != 0 {
          session.lines := session.lines[i := TurnedDown(l)];
          reason := IpMismatch;
        } else if l.kind != Other {
          if l.kind !in taken {
            taken := taken + {l.kind};
          } else {
            session.lines := session.lines[i := TurnedDown(l)];
          }
        }
      }
    }

    method NegotiateSDP(session: Session, hasService: bool, configured: bool, report: Report, before: Reason)
      returns (ok: bool, reason: Reason)
      modifies this, session
      ensures hasProfile == old(hasProfile)
      ensures !(hasProfile && hasService) ==> !ok && reason == before && unchanged(this) && unchanged(session)
      ensures hasProfile && hasService ==>
        && sessionType == AskedFor(old(session.lines), old(sessionType))
        && session.lines == Judged(old(session.lines))
        && !isForking
        && (ok, reason) == Verdict(old(session.lines), sessionType, report, configured, before)
        && negoState == if ok then AfterNegotiate(old(negoState)) else old(negoState)
    {
      if !hasProfile || !hasService {
        return false, before;
      }
      SetSessionType(session);
      var taken;
      taken, reason := JudgeLines(session, before);
      isForking := false;
      if !configured {
        return false, reason;
      }
      var directions := report.directions;
      if Audio in taken {
        if Audio in sessionType && !report.audioCodec {
          return false, NoCodecMatched;
        }
      } else {
        directions := directions - {Audio};
        if Audio in sessionType {
          return false, NoAudio;
        }
      }
      if directions == {} {
        return false, NoCodecMatched;
      }
      match negoState {
        case Idle => negoState := OfferReceived;
        case Negotiated => negoState := OfferReceived;
        case OfferSent => negoState := Negotiated;
        case OfferReceived =>
      }
      return true, NoError;
    }

    method GetMediaList(session: Session, need: set<Kind>, counted: bool, created: Line)
      modifies session
      ensures session.lines
           == WithCreated(old(session.lines), need, counted && negoState in {Idle, Negotiated}, created)
    {
      var required := 0;
      if negoState == Idle || negoState == Negotiated {
        if counted {
          required := |need|;
        }
      }
      if required > |session.lines| {
        var missing := required - |session.lines|;
        for i := 0 to missing
          invariant session.lines == old(session.lines) + seq(i, _ => created)
        {
          session.CreateMedia(created);
        }
      }
    }

    /** Chooses one line, for its kind or for the kinds that still need one. */
    method ChooseLine(session: Session, i: nat, need: set<Kind>, chosen0: map<Kind, nat>, done0: set<Kind>)
      returns (chosen: map<Kind, nat>, done: set<Kind>)
      requires i < |session.lines| && session.lines[i].Line? && need <= MEDIA
      modifies session
      ensures Choice(chosen, done, session.lines)
           == Choose(Choice(chosen0, done0, old(session.lines)), i, need, negoState == OfferReceived)
    {
      var l := session.lines[i];
      chosen, done := chosen0, done0;
      if l.kind == Other {
        var port0 := negoState == OfferReceived && l.port == 0;
        chosen, done := ChooseForOther(session, i, need, port0, chosen, done);
      } else if l.kind !in done {
        chosen := chosen[l.kind := i];
        if negoState == OfferReceived && l.port == 0 {
          return;
        }
        done := done + {l.kind};
      }
    }

    /** The loop that chooses lines for an answer, or for an offer in an established session. */
    method ChooseLines(session: Session, need: set<Kind>) returns (ok: bool, chosen: map<Kind, nat>)
      requires need <= MEDIA
      modifies session
      ensures ok <==> FirstMissing(old(session.lines)) == |session.lines|
      ensures var c := ChosenUpTo(old(session.lines), FirstMissing(old(session.lines)), need, negoState == OfferReceived);
        session.lines == c.lines && chosen == c.chosen
    {
      ghost var s := session.lines;
      var done: set<Kind> := {};
      chosen := map[];
      for i := 0 to |session.lines|
        invariant |session.lines| == |s| && i <= FirstMissing(s)
        invariant ChosenUpTo(s, i, need, negoState == OfferReceived) == Choice(chosen, done, session.lines)
      {
        if !session.lines[i].Line? {
          return false, chosen;
        }
        chosen, done := ChooseLine(session, i, need, chosen, done);
      }
      return true, chosen;
    }

    method ChooseInOrder(session: Session, need: set<Kind>) returns (chosen: map<Kind, nat>)
      requires need <= MEDIA
      ensures chosen == InOrder(session.lines, need)
    {
      var next := 0;
      chosen := map[];
      if Audio in need && next < |session.lines| {
        if !session.lines[next].NoDescriptor? {
          chosen := chosen[Audio := next];
        }
        next := next + 1;
      }
      if Video in need && next < |session.lines| {
        if !session.lines[next].NoDescriptor? {
          chosen := chosen[Video := next];
        }
        next := next + 1;
      }
      if Text in need && next < |session.lines| {
        if !session.lines[next].NoDescriptor? {
          chosen := chosen[Text := next];
        }
      }
    }

    method FormSDP(session: Session, asked: set<Kind>, active: set<Kind>, counted: bool, created: Line,
                   failing: set<Kind>)
      returns (ok: bool, chosen: map<Kind, nat>)
      requires asked <= MEDIA
      modifies this, session
      ensures hasProfile == old(hasProfile) && isForking == old(isForking)
      ensures !hasProfile || old(negoState) == OfferSent ==> !ok && unchanged(this) && unchanged(session)
      ensures hasProfile && old(negoState) != OfferSent ==>
        var need := Needed(old(negoState), asked, active);
        var s := LinesFor(old(session.lines), old(negoState), asked, active, counted, created);
        && sessionType == asked
        && (chosen, session.lines) == Selected(s, old(negoState), need)
        && (ok <==> LinesUsable(s, old(negoState)) && chosen.Keys !! failing)
        && negoState == if ok then AfterForm(old(negoState)) else old(negoState)
    {
      chosen := map[];
      if !hasProfile {
        return false, chosen;
      }
      if negoState == OfferSent {
        return false, chosen;
      }
      sessionType := asked;
      var need := asked;
      if negoState == Negotiated {
        need := need + active * MEDIA;
      }
      GetMediaList(session, need, counted, created);
      if negoState == Idle {
        chosen := ChooseInOrder(session, need);
      } else {
        ok, chosen := ChooseLines(session, need);
        if !ok {
          return false, chosen;
        }
      }
      ok := Form(chosen, failing);
      if !ok {
        return false, chosen;
      }
      match negoState {
        case Idle => negoState := OfferSent;
        case Negotiated => negoState := OfferSent;
        case OfferReceived => negoState := Negotiated;
        case OfferSent =>
      }
      return true, chosen;
    }

    /** The negotiators of the kinds with a line form it one after the other. */
    method Form(chosen: map<Kind, nat>, failing: set<Kind>) returns (ok: bool)
      requires chosen.Keys <= MEDIA
      ensures ok <==> chosen.Keys !! failing
    {
      if Audio in chosen {
        if Audio in failing {
          return false;
        }
      }
      if Video in chosen {
        if Video in failing {
          return false;
        }
      }
      if Text in chosen {
        if Text in failing {
          return false;
        }
      }
      return true;
    }

    /** Gives a line of no known kind to one kind, if that is needed and open. */
    method Give(session: Session, i: nat, k: Kind, need: set<Kind>, port0: bool, chosen0: map<Kind, nat>,
                done0: set<Kind>)
      returns (given: bool, chosen: map<Kind, nat>, done: set<Kind>)
      requires i < |session.lines| && session.lines[i].Line?
      modifies session
      ensures given <==> k in need && k !in done0
      ensures Choice(chosen, done, session.lines)
           == Given(Choice(chosen0, done0, old(session.lines)), i, k, need, port0)
    {
      given, chosen, done := false, chosen0, done0;
      if k in need && k !in done {
        given := true;
        chosen := chosen[k := i];
        if port0 {
          return;
        }
        done := done + {k};
        session.lines := session.lines[i := session.lines[i].(kind := k)];
      }
    }

    method ChooseForOther(session: Session, i: nat, need: set<Kind>, port0: bool, chosen0: map<Kind, nat>,
                          done0: set<Kind>)
      returns (chosen: map<Kind, nat>, done: set<Kind>)
      requires i < |session.lines| && session.lines[i].Line? && need <= MEDIA
      requires port0 ==> session.lines[i].port == 0
      modifies session
      ensures Choice(chosen, done, session.lines)
           == ChooseOther(Choice(chosen0, done0, old(session.lines)), i, need, port0)
    {
      OtherInTurn(Choice(chosen0, done0, session.lines), i, need, port0);
      var given;
      given, chosen, done := Give(session, i, Audio, need, port0, chosen0, done0);
      if given && port0 {
        return;
      }
      given, chosen, done := Give(session, i, Video, need, port0, chosen, done);
      if given && port0 {
        return;
      }
      given, chosen, done := Give(session, i, Text, need, port0, chosen, done);
    }
  }

  lemma TakenStep(s: seq<Line>, i: nat)
    requires i < |s|
    ensures Taken(s, i + 1) == Taken(s, i) + if s[i].Line? && s[i].kind in MEDIA && !Mismatch(s[i]) then {s[i].kind} else {}
  {
    forall k ensures EligibleBefore(s, i + 1, k) <==> EligibleBefore(s, i, k) || Eligible(s[i], k) {
    }
  }
}
