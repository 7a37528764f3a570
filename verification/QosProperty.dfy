/** The quality of service of a flow, printed as seven decimal numbers. */
module QosProperties {
  import opened Text
  import opened ImsProperties

  const UINT_MAX := 0xFFFF_FFFF

  predicate IsSigned32(n: int) {
    -0x8000_0000 <= n < 0x8000_0000
  }

  /** A signed 32-bit number read as an unsigned one, and back. */
  function AsUnsigned(n: int): nat
    requires IsSigned32(n)
  {
    if n < 0 then n + 0x1_0000_0000 else n
  }

  function AsSigned(n: nat): int
    requires n <= UINT_MAX
  {
    if n >= 0x8000_0000 then n - 0x1_0000_0000 else n
  }

  // ---------------------------------------------------------------- decimal numbers

  function Digit(n: int): char
    requires 0 <= n < 10
  {
    ('0' as int + n) as char
  }

  function Digits(n: nat): string {
    if n == 0 then "" else Digits(n / 10) + [Digit(n % 10)]
  }

  function Decimal(n: nat): string {
    if n == 0 then "0" else Digits(n)
  }

  predicate AllDigits(s: string) {
    forall i | 0 <= i < |s| :: IsDigit(s[i])
  }

  function Value(s: string): nat
    requires AllDigits(s)
  {
    if s == "" then 0 else 10 * Value(s[..|s| - 1]) + (s[|s| - 1] as int - '0' as int)
  }

  datatype Parsed = NotANumber | Number(n: nat)

  /** Decimal parsing of an unsigned 32-bit number, with leading spaces and a plus sign allowed. */
  function ToUInt32(s: string): Parsed {
    var t := TrimLeft(s);
    var u := if t != "" && t[0] == '+' then t[1..] else t;
    if u == "" || !AllDigits(u) || Value(u) > UINT_MAX then NotANumber else Number(Value(u))
  }

  lemma {:induction false} DigitsValue(n: nat)
    ensures AllDigits(Digits(n)) && Value(Digits(n)) == n
    ensures n > 0 ==> Digits(n) != ""
  {
    if n != 0 {
      DigitsValue(n / 10);
      var s := Digits(n);
      assert s[..|s| - 1] == Digits(n / 10);
    }
  }

  lemma DigitsAreToken(s: string)
    requires AllDigits(s) && s != ""
    ensures IsToken(s) && TrimLeft(s) == s && s[0] != '+'
  {
    assert IsDigit(s[0]);
  }

  lemma ParseUndoesDecimal(n: nat)
    requires n <= UINT_MAX
    ensures ToUInt32(Decimal(n)) == Number(n) && IsToken(Decimal(n))
  {
    DigitsValue(n);
    var s := Decimal(n);
    if n == 0 {
      assert s[..0] == "";
    }
    assert AllDigits(s) && Value(s) == n && s != "";
    DigitsAreToken(s);
  }

  // ---------------------------------------------------------------- the property

  /** The seven fields in the order they are printed. */
  datatype Qos = Flow(averageRate: int, bufferSize: int, peakRate: int, delay: int, delayVariance: int,
                     maxChunkSize: int, minimalPolicedSize: int)
  {
    function Fields(): seq<int> {
      [averageRate, bufferSize, peakRate, delay, delayVariance, maxChunkSize, minimalPolicedSize]
    }

    predicate Fits() {
      && IsSigned32(averageRate) && IsSigned32(bufferSize) && IsSigned32(peakRate) && IsSigned32(delay)
      && IsSigned32(delayVariance) && IsSigned32(maxChunkSize) && IsSigned32(minimalPolicedSize)
    }
  }

  function FromFields(fs: seq<int>): (q: Qos)
    requires |fs| == 7
    ensures q.Fields() == fs
  {
    Flow(fs[0], fs[1], fs[2], fs[3], fs[4], fs[5], fs[6])
  }

  function Printed(q: Qos): string
    requires q.Fits()
  {
    Decimal(AsUnsigned(q.averageRate)) + " " + Decimal(AsUnsigned(q.bufferSize)) + " "
    + Decimal(AsUnsigned(q.peakRate)) + " " + Decimal(AsUnsigned(q.delay)) + " "
    + Decimal(AsUnsigned(q.delayVariance)) + " " + Decimal(AsUnsigned(q.maxChunkSize)) + " "
    + Decimal(AsUnsigned(q.minimalPolicedSize))
  }

  predicate AllNumbers(ts: seq<string>) {
    forall i | 0 <= i < |ts| :: ToUInt32(ts[i]).Number?
  }

  /** The values stored for a list of numbers: each passes through a signed 32-bit variable. */
  function Stored(ts: seq<string>): (r: seq<int>)
    requires AllNumbers(ts)
    ensures |r| == |ts|
  {
    seq(|ts|, i requires 0 <= i < |ts| => AsSigned(ParsedValue(ts[i])))
  }

  function ParsedValue(t: string): (n: nat)
    requires ToUInt32(t).Number?
    ensures n <= UINT_MAX
  {
    ToUInt32(t).n
  }

  predicate Accepts(s: string) {
    |Tokens(s)| == 7 && AllNumbers(Tokens(s))
  }

  /** The quality of service after SetQos. */
  function SetTo(q: Qos, s: string): Qos {
    if Accepts(s) then FromFields(Stored(Tokens(s))) else q
  }

  function PrintedTokens(q: Qos): (ts: seq<string>)
    requires q.Fits()
    ensures |ts| == 7
  {
    seq(7, i requires 0 <= i < 7 => Decimal(AsUnsigned(q.Fields()[i])))
  }

  lemma JoinSeven(t: seq<string>)
    requires |t| == 7
    ensures Join(t, ' ')
         == t[0] + " " + (t[1] + " " + (t[2] + " " + (t[3] + " " + (t[4] + " " + (t[5] + " " + t[6])))))
  {
    JoinTwo(t[5], t[6]);
    assert t[5..] == [t[5], t[6]];
    JoinStep(t, 4);
    JoinStep(t, 3);
    JoinStep(t, 2);
    JoinStep(t, 1);
    JoinStep(t, 0);
    assert t[0..] == t;
  }

  lemma Regroup(a: string, b: string, rest: string)
    ensures a + " " + (b + " " + rest) == a + " " + b + " " + rest
  {
  }

  lemma PrintedIsJoined(q: Qos)
    requires q.Fits()
    ensures Printed(q) == Join(PrintedTokens(q), ' ')
  {
    var t := PrintedTokens(q);
    JoinSeven(t);
    var two := t[0] + " " + t[1];
    var three := two + " " + t[2];
    var four := three + " " + t[3];
    Regroup(t[0], t[1], t[2] + " " + (t[3] + " " + (t[4] + " " + (t[5] + " " + t[6]))));
    Regroup(two, t[2], t[3] + " " + (t[4] + " " + (t[5] + " " + t[6])));
    Regroup(three, t[3], t[4] + " " + (t[5] + " " + t[6]));
    Regroup(four, t[4], t[5] + " " + t[6]);
    Regroup(four + " " + t[4], t[5], t[6]);
  }

  lemma JoinTwo(s: string, t: string)
    ensures Join([s, t], ' ') == s + " " + t
  {
    assert [s, t][1..] == [t];
    assert Join([t], ' ') == t;
  }

  lemma JoinStep(ts: seq<string>, i: nat)
    requires i + 1 < |ts|
    ensures Join(ts[i..], ' ') == ts[i] + " " + Join(ts[i + 1..], ' ')
  {
    assert ts[i..][1..] == ts[i + 1..];
  }

  lemma PrintedTokenParses(q: Qos, i: nat)
    requires q.Fits() && i < 7
    ensures var t := PrintedTokens(q)[i];
            && IsToken(t)
            && ToUInt32(t) == Number(AsUnsigned(q.Fields()[i]))
            && AsSigned(AsUnsigned(q.Fields()[i])) == q.Fields()[i]
  {
    ParseUndoesDecimal(AsUnsigned(q.Fields()[i]));
  }

  lemma PrintedTokensParse(q: Qos)
    requires q.Fits()
    ensures var ts := PrintedTokens(q); AllTokens(ts) && AllNumbers(ts) && Stored(ts) == q.Fields()
  {
    var ts := PrintedTokens(q);
    forall i | 0 <= i < 7 ensures IsToken(ts[i]) && ToUInt32(ts[i]).Number? {
      PrintedTokenParses(q, i);
    }
    forall i | 0 <= i < 7 ensures Stored(ts)[i] == q.Fields()[i] {
      PrintedTokenParses(q, i);
    }
  }

  /** Setting the quality of service from a printed one restores all seven fields, negative ones included. */
  lemma SetUndoesPrint(q: Qos, before: Qos)
    requires q.Fits()
    ensures Accepts(Printed(q)) && SetTo(before, Printed(q)) == q
  {
    PrintedIsJoined(q);
    PrintedTokensParse(q);
    TokensOfJoin(PrintedTokens(q));
  }

  class QosProperty {
    var qos: Qos

    constructor ()
      ensures qos == Flow(0, 0, 0, 0, 0, 0, 0)
    {
      qos := Flow(0, 0, 0, 0, 0, 0, 0);
    }

    method GetQosString() returns (s: string)
      requires qos.Fits()
      ensures s == Printed(qos)
      ensures Tokens(s) == PrintedTokens(qos)
      ensures forall before :: SetTo(before, s) == qos
    {
      s := Printed(qos);
      PrintedIsJoined(qos);
      PrintedTokensParse(qos);
      TokensOfJoin(PrintedTokens(qos));
      forall before ensures SetTo(before, s) == qos {
        SetUndoesPrint(qos, before);
      }
    }

    method SetQos(s: string) returns (ok: bool)
      modifies this
      ensures ok <==> Accepts(s)
      ensures qos == SetTo(old(qos), s)
    {
      var tokens := Decode(s);
      if |tokens| != 7 {
        return false;
      }
      var values := new int[7];
      for i := 0 to |tokens|
        invariant forall j | 0 <= j < i :: ToUInt32(tokens[j]).Number? && values[j] == AsSigned(ParsedValue(tokens[j]))
        invariant qos == old(qos)
      {
        var parsed := ToUInt32(tokens[i]);
        if parsed == NotANumber {
          return false;
        }
        values[i] := AsSigned(ParsedValue(tokens[i]));
      }
      assert values[..] == Stored(tokens);
      qos := Flow(values[0], values[1], values[2], values[3], values[4], values[5], values[6]);
      return true;
    }
  }
}
