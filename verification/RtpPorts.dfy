/** The allocator of RTP ports: a cyclic scan over the even ports of a range, from a random start. */
module RtpPorts {
  import opened Lists

  const RTP_PORT_MAX := 0xffff

  predicate EvenIn(p: int, lo: int, hi: int) {
    p % 2 == 0 && lo <= p <= hi
  }

  function RoundUp(p: int): int {
    if p % 2 == 1 then p + 1 else p
  }

  /** Where the scan of [lo, hi] begins, for a random value. */
  function StartPort(lo: nat, hi: nat, random: nat): (p: int)
    requires lo < hi
    ensures EvenIn(p, lo, hi)
  {
    RoundUp(lo + random % (hi - lo))
  }

  function NextPort(p: int, lo: int, hi: int): int {
    if p + 2 > hi then RoundUp(lo) else p + 2
  }

  /** Steps of the scan still possible, counted in port numbers. */
  function ScanMeasure(p: int, start: int, hi: int): int {
    if p >= start then 2 * hi + 2 - p else start - p
  }

  /** What the scan gives from port `p` on: the first unused port, or 0 when it is back at the start. */
  function Scan(used: seq<int>, p: int, start: int, lo: nat, hi: nat): int
    requires EvenIn(p, lo, hi) && EvenIn(start, lo, hi)
    decreases ScanMeasure(p, start, hi)
  {
    if p !in used then p
    else
      var q := NextPort(p, lo, hi);
      if q == start then 0 else Scan(used, q, start, lo, hi)
  }

  /** The port AcquireRtpPort returns. */
  function Acquired(used: seq<int>, rangeStart: nat, rangeEnd: nat, random: nat): int {
    if rangeStart > RTP_PORT_MAX || rangeEnd > RTP_PORT_MAX then 0
    else if rangeStart == rangeEnd then rangeStart
    else
      var lo, hi := if rangeStart < rangeEnd then rangeStart else rangeEnd,
                    if rangeStart < rangeEnd then rangeEnd else rangeStart;
      var start := StartPort(lo, hi, random);
      Scan(used, start, start, lo, hi)
  }

  /** The list of used ports after AcquireRtpPort. */
  function UsedAfter(used: seq<int>, rangeStart: nat, rangeEnd: nat, random: nat): seq<int> {
    var p := Acquired(used, rangeStart, rangeEnd, random);
    if rangeStart == rangeEnd <= RTP_PORT_MAX || p != 0 then used + [p] else used
  }

  /** The scan that starts at `start` passes `q` before it reaches `p`. */
  predicate PassedBefore(start: int, p: int, q: int) {
    if start <= p then start <= q < p else q >= start || q < p
  }

  lemma {:induction false} ScanOutcome(used: seq<int>, p: int, start: int, lo: nat, hi: nat)
    requires EvenIn(p, lo, hi) && EvenIn(start, lo, hi)
    requires forall q | EvenIn(q, lo, hi) && PassedBefore(start, p, q) :: q in used
    ensures var r := Scan(used, p, start, lo, hi);
            || (EvenIn(r, lo, hi) && r !in used
                && forall q | EvenIn(q, lo, hi) && PassedBefore(start, r, q) :: q in used)
            || (r == 0 && forall q | EvenIn(q, lo, hi) :: q in used)
    decreases ScanMeasure(p, start, hi)
  {
    if p in used {
      var q := NextPort(p, lo, hi);
      if q != start {
        ScanOutcome(used, q, start, lo, hi);
      }
    }
  }

  lemma ScanStep(used: seq<int>, p: int, start: int, lo: nat, hi: nat)
    requires EvenIn(p, lo, hi) && EvenIn(start, lo, hi) && p in used
    ensures EvenIn(NextPort(p, lo, hi), lo, hi)
    ensures Scan(used, p, start, lo, hi)
         == if NextPort(p, lo, hi) == start then 0 else Scan(used, NextPort(p, lo, hi), start, lo, hi)
    ensures NextPort(p, lo, hi) != start ==> ScanMeasure(NextPort(p, lo, hi), start, hi) < ScanMeasure(p, start, hi)
  {
  }

  /** For two distinct bounds in range, in either order: the result is the first unused even port from the
      random start on, and it is appended; or it is 0 with the list unchanged. When 0 is outside the range,
      it is returned exactly when every even port of the range is used. */
  lemma AcquireIsCompleteAndFresh(used: seq<int>, rangeStart: nat, rangeEnd: nat, random: nat)
    requires rangeStart != rangeEnd && rangeStart <= RTP_PORT_MAX && rangeEnd <= RTP_PORT_MAX
    ensures var lo, hi := if rangeStart < rangeEnd then rangeStart else rangeEnd,
                          if rangeStart < rangeEnd then rangeEnd else rangeStart;
            var r := Acquired(used, rangeStart, rangeEnd, random);
            var after := UsedAfter(used, rangeStart, rangeEnd, random);
            && (r != 0 ==> EvenIn(r, lo, hi) && r !in used && after == used + [r]
                           && forall q | EvenIn(q, lo, hi) && PassedBefore(StartPort(lo, hi, random), r, q) :: q in used)
            && (r == 0 ==> after == used)
            && (lo > 0 ==> (r == 0 <==> forall q | EvenIn(q, lo, hi) :: q in used))
  {
    var lo, hi := if rangeStart < rangeEnd then rangeStart else rangeEnd,
                  if rangeStart < rangeEnd then rangeEnd else rangeStart;
    var start := StartPort(lo, hi, random);
    ScanOutcome(used, start, start, lo, hi);
  }

  /** The scan begins at the first even port from the random place on. */
  lemma {:induction false} StartIsFirstEven(lo: nat, hi: nat, random: nat, q: int)
    requires lo < hi && q % 2 == 0 && lo + random % (hi - lo) <= q
    ensures var p := StartPort(lo, hi, random); p % 2 == 0 && lo + random % (hi - lo) <= p <= q && p <= hi
  {
  }

  lemma {:induction false} ModOfSmall(x: nat, n: nat)
    requires x < n
    ensures x % n == x
  {
  }

  lemma {:induction false} StartAt(lo: nat, hi: nat, random: nat)
    requires lo < hi && random < hi - lo
    ensures StartPort(lo, hi, random) == RoundUp(lo + random)
  {
    ModOfSmall(random, hi - lo);
  }

  /** The scan can begin at exactly the even ports of the range. */
  lemma {:induction false} CanStartIff(lo: nat, hi: nat, p: int)
    requires lo < hi
    ensures (exists random: nat :: StartPort(lo, hi, random) == p) <==> p % 2 == 0 && lo <= p <= hi
  {
    if p % 2 == 0 && lo <= p <= hi {
      StartAt(lo, hi, if p < hi then p - lo else hi - lo - 1);
    }
  }

  /** A range that starts at 0 takes port 0 for failure: the result is 0, although ports are left, exactly
      when the scan meets an unused port 0 first. */
  lemma RangeFromZero(used: seq<int>, hi: nat, random: nat)
    requires 0 < hi <= RTP_PORT_MAX
    ensures (Acquired(used, 0, hi, random) == 0 && exists q :: EvenIn(q, 0, hi) && q !in used)
            <==> (0 !in used && forall q | EvenIn(q, 0, hi) && PassedBefore(StartPort(0, hi, random), 0, q) :: q in used)
  {
    var start := StartPort(0, hi, random);
    ScanOutcome(used, start, start, 0, hi);
    assert EvenIn(0, 0, hi);
  }

  /** A range that starts at 0 and has an unused even port is sure to yield one, whatever the random start,
      exactly while port 0 itself is in use. */
  lemma RangeFromZeroIsSureIff(used: seq<int>, hi: nat, free: nat)
    requires 0 < hi <= RTP_PORT_MAX && EvenIn(free, 0, hi) && free !in used
    ensures (forall random: nat :: Acquired(used, 0, hi, random) != 0) <==> 0 in used
  {
    forall random: nat
      ensures Acquired(used, 0, hi, random) == 0 <==>
              0 !in used && forall q | EvenIn(q, 0, hi) && PassedBefore(StartPort(0, hi, random), 0, q) :: q in used {
      RangeFromZero(used, hi, random);
    }
    if 0 !in used {
      assert StartPort(0, hi, 0) == 0;
      assert Acquired(used, 0, hi, 0) == 0;
    }
  }

  // ---------------------------------------------------------------- runs

  datatype Call = Acquire(rangeStart: nat, rangeEnd: nat, random: nat) | Release(port: int)

  function After(used: seq<int>, c: Call): seq<int> {
    match c
    case Acquire(s, e, r) => UsedAfter(used, s, e, r)
    case Release(p) => Without(used, p)
  }

  function Run(used: seq<int>, calls: seq<Call>): seq<int>
    decreases calls
  {
    if calls == [] then used else Run(After(used, calls[0]), calls[1..])
  }

  /** Acquiring a port keeps all held ports distinct, except where equal bounds name a port already held. */
  lemma AcquireKeepsDistinctIff(used: seq<int>, rangeStart: nat, rangeEnd: nat, random: nat)
    requires NoRepeats(used)
    ensures NoRepeats(UsedAfter(used, rangeStart, rangeEnd, random))
       <==> !(rangeStart == rangeEnd <= RTP_PORT_MAX && rangeStart in used)
  {
    if rangeStart == rangeEnd <= RTP_PORT_MAX {
      if i :| 0 <= i < |used| && used[i] == rangeStart {
        assert (used + [rangeStart])[i] == (used + [rangeStart])[|used|];
      }
    } else if rangeStart <= RTP_PORT_MAX && rangeEnd <= RTP_PORT_MAX {
      AcquireIsCompleteAndFresh(used, rangeStart, rangeEnd, random);
    }
  }

  /** While no range has equal bounds, no port is ever held twice. */
  lemma {:induction false} NoPortTwice(used: seq<int>, calls: seq<Call>)
    requires NoRepeats(used)
    requires forall c | c in calls && c.Acquire? :: c.rangeStart != c.rangeEnd
    ensures NoRepeats(Run(used, calls))
    decreases calls
  {
    if calls != [] {
      match calls[0] {
        case Acquire(s, e, r) => AcquireKeepsDistinctIff(used, s, e, r);
        case Release(p) => WithoutKeepsNoRepeats(used, p);
      }
      NoPortTwice(After(used, calls[0]), calls[1..]);
    }
  }

  /** With equal bounds one call more is enough to hold a port twice. */
  lemma EqualBoundsRepeat(p: nat)
    requires p <= RTP_PORT_MAX
    ensures !NoRepeats(Run([], [Acquire(p, p, 0), Acquire(p, p, 0)]))
  {
    var c := Acquire(p, p, 0);
    assert [c, c][1..] == [c];
    assert [c][1..] == [];
    assert After([], c) == [p];
    assert After([p], c) == [p, p];
    assert Run([p], [c]) == Run([p, p], []);
    assert Run([], [c, c]) == [p, p];
    assert [p, p][0] == [p, p][1];
  }

  // ---------------------------------------------------------------- the object

  class MediaResourceManager {
    var usedRtpPorts: seq<int>

    constructor ()
      ensures usedRtpPorts == []
    {
      usedRtpPorts := [];
    }

    static method PickInitialPort(rangeStart: nat, rangeEnd: nat, random: nat) returns (initial: int)
      requires rangeStart < rangeEnd
      ensures initial == StartPort(rangeStart, rangeEnd, random)
    {
      initial := rangeStart + random % (rangeEnd - rangeStart);
      if initial % 2 == 1 {
        initial := initial + 1;
      }
    }

    static method Advance(port: int, rangeStart: nat, rangeEnd: nat) returns (next: int)
      requires EvenIn(port, rangeStart, rangeEnd)
      ensures next == NextPort(port, rangeStart, rangeEnd) && EvenIn(next, rangeStart, rangeEnd)
    {
      next := port + 2;
      if next > rangeEnd {
        next := rangeStart;
        if next % 2 == 1 {
          next := next + 1;
        }
      }
    }

    method IsUsed(port: int) returns (found: bool)
      ensures found <==> port in usedRtpPorts
    {
      for i := 0 to |usedRtpPorts|
        invariant port !in usedRtpPorts[..i]
      {
        if usedRtpPorts[i] == port {
          return true;
        }
      }
      return false;
    }

    method AcquireRtpPort(start: nat, end: nat, random: nat) returns (port: int)
      modifies this
      ensures port == Acquired(old(usedRtpPorts), start, end, random)
      ensures usedRtpPorts == UsedAfter(old(usedRtpPorts), start, end, random)
    {
      var rangeStart, rangeEnd := start, end;
      if rangeStart > RTP_PORT_MAX || rangeEnd > RTP_PORT_MAX {
        return 0;
      } else if rangeStart > rangeEnd {
        rangeStart, rangeEnd := rangeEnd, rangeStart;
      } else if rangeStart == rangeEnd {
        usedRtpPorts := usedRtpPorts + [rangeStart];
        return rangeStart;
      }

      var initial := PickInitialPort(rangeStart, rangeEnd, random);
      var chosen := initial;
      var foundSamePort := true;
      while foundSamePort
        invariant usedRtpPorts == old(usedRtpPorts)
        invariant foundSamePort ==> EvenIn(chosen, rangeStart, rangeEnd)
        invariant Scan(usedRtpPorts, initial, initial, rangeStart, rangeEnd) ==
                  if foundSamePort then Scan(usedRtpPorts, chosen, initial, rangeStart, rangeEnd) else chosen
        decreases foundSamePort, ScanMeasure(chosen, initial, rangeEnd)
      {
        foundSamePort := IsUsed(chosen);
        if foundSamePort {
          ScanStep(usedRtpPorts, chosen, initial, rangeStart, rangeEnd);
          chosen := Advance(chosen, rangeStart, rangeEnd);
          if chosen == initial {
            chosen := 0;
            foundSamePort := false;
            break;
          }
        }
      }

      if chosen != 0 {
        usedRtpPorts := usedRtpPorts + [chosen];
      }
      return chosen;
    }

    method ReleaseRtpPort(port: int) returns (released: bool)
      modifies this
      ensures released <==> port in old(usedRtpPorts)
      ensures usedRtpPorts == Without(old(usedRtpPorts), port)
    {
      for i := 0 to |usedRtpPorts|
        invariant usedRtpPorts == old(usedRtpPorts)
        invariant port !in usedRtpPorts[..i]
      {
        if usedRtpPorts[i] == port {
          WithoutAt(usedRtpPorts, port, i);
          usedRtpPorts := usedRtpPorts[..i] + usedRtpPorts[i + 1..];
          return true;
        }
      }
      WithoutNone(usedRtpPorts, port);
      return false;
    }
  }
}
