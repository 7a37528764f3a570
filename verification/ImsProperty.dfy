/** The texts of registry properties: tokens between white space, keys, and the check of a whole registry. */
module ImsProperties {
  import opened Lists
  import opened Text

  // ---------------------------------------------------------------- tokens

  function Flush(token: string): seq<string> {
    if token == "" then [] else [token]
  }

  /** The tokens of `s`, where `token` has been read already. */
  function TokensFrom(s: string, token: string): seq<string>
    decreases |s|
  {
    if s == "" then Flush(token)
    else if IsSpace(s[0]) then Flush(token) + TokensFrom(s[1..], "")
    else TokensFrom(s[1..], token + [s[0]])
  }

  function Tokens(s: string): seq<string> {
    TokensFrom(s, "")
  }

  predicate IsToken(t: string) {
    t != "" && NoSpace(t)
  }

  predicate AllTokens(ts: seq<string>) {
    forall i | 0 <= i < |ts| :: IsToken(ts[i])
  }

  method Decode(s: string) returns (tokens: seq<string>)
    ensures tokens == Tokens(s)
  {
    tokens := [];
    if |s| == 0 {
      return;
    }
    var current := "";
    for i := 0 to |s|
      invariant tokens + TokensFrom(s[i..], current) == Tokens(s)
    {
      assert s[i..][1..] == s[i + 1..];
      if IsSpace(s[i]) {
        if |current| > 0 {
          tokens := tokens + [current];
          current := "";
        }
      } else {
        current := current + [s[i]];
      }
    }
    if |current| > 0 {
      tokens := tokens + [current];
    }
  }

  method Encode(values: seq<string>) returns (s: string)
    ensures s == Join(values, ' ')
  {
    if |values| == 0 {
      return "";
    }
    s := values[0];
    assert values[..1] == [values[0]];
    for i := 1 to |values|
      invariant s == Join(values[..i], ' ')
    {
      JoinSnoc(values[..i], values[i], ' ');
      assert values[..i + 1] == values[..i] + [values[i]];
      s := s + [' '];
      s := s + values[i];
    }
    assert values[..|values|] == values;
  }

  /** Reading a token up to a space, or to the end. */
  lemma {:induction false} TokensOfToken(done: string, t: string, rest: string)
    requires NoSpace(t) && (rest == "" || IsSpace(rest[0]))
    ensures TokensFrom(t + rest, done) == Flush(done + t) + (if rest == "" then [] else TokensFrom(rest[1..], ""))
    decreases |t|
  {
    if t == "" {
      assert t + rest == rest;
      assert done + t == done;
    } else {
      assert (t + rest)[1..] == t[1..] + rest;
      TokensOfToken(done + [t[0]], t[1..], rest);
      assert done + [t[0]] + t[1..] == done + t;
    }
  }

  lemma {:induction false} TokensOfJoin(ts: seq<string>)
    requires AllTokens(ts)
    ensures Tokens(Join(ts, ' ')) == ts
  {
    if |ts| == 1 {
      TokensOfToken("", ts[0], "");
      assert ts[0] + "" == ts[0];
      assert "" + ts[0] == ts[0];
    } else if |ts| > 1 {
      var rest := [' '] + Join(ts[1..], ' ');
      assert Join(ts, ' ') == ts[0] + rest;
      TokensOfToken("", ts[0], rest);
      assert "" + ts[0] == ts[0];
      assert rest[1..] == Join(ts[1..], ' ');
      TokensOfJoin(ts[1..]);
    }
  }

  lemma {:induction false} TokensAreTokens(s: string, token: string)
    requires NoSpace(token)
    ensures AllTokens(TokensFrom(s, token))
    decreases |s|
  {
    if s != "" {
      TokensAreTokens(s[1..], if IsSpace(s[0]) then "" else token + [s[0]]);
    }
  }

  /** Decoding undoes encoding exactly for lists of non-empty texts without white space. */
  lemma DecodeUndoesEncode(ts: seq<string>)
    ensures Tokens(Join(ts, ' ')) == ts <==> AllTokens(ts)
  {
    TokensAreTokens(Join(ts, ' '), "");
    if AllTokens(ts) {
      TokensOfJoin(ts);
    }
  }

  // ---------------------------------------------------------------- duplicates

  predicate Same(s: string, t: string, caseSensitive: bool) {
    if caseSensitive then s == t else EqualsIgnoreCase(s, t)
  }

  predicate NoneTwice(values: seq<string>, caseSensitive: bool) {
    forall i, j | 0 <= i < j < |values| :: !Same(values[i], values[j], caseSensitive)
  }

  method CheckDuplicate(values: seq<string>, caseSensitive: bool) returns (ok: bool)
    ensures ok <==> NoneTwice(values, caseSensitive)
  {
    for i := 0 to |values|
      invariant forall k, j | 0 <= k < i && k < j < |values| :: !Same(values[k], values[j], caseSensitive)
    {
      for j := i + 1 to |values|
        invariant forall k | i < k < j :: !Same(values[i], values[k], caseSensitive)
      {
        if Same(values[i], values[j], caseSensitive) {
          return false;
        }
      }
    }
    return true;
  }

  // ---------------------------------------------------------------- keys

  datatype PKey =
    | Custom | Stream | Framed | Basic | EventKey | CoreService | QosKey | Reg | WriteKey | ReadKey | Cap | Mprof
    | Connection | NoKey

  const KEY_STRINGS: seq<string> := ["Stream", "Framed", "Basic", "Event", "CoreService", "Qos", "Reg", "Write", "Read",
                                     "Cap", "Mprof", "Connection"]

  const KEYS: seq<PKey> := [Stream, Framed, Basic, EventKey, CoreService, QosKey, Reg, WriteKey, ReadKey, Cap, Mprof,
                            Connection]

  function KeyAmong(s: string, i: nat): PKey
    requires i <= |KEYS|
    decreases |KEYS| - i
  {
    if i == |KEYS| then Custom else if s == KEY_STRINGS[i] then KEYS[i] else KeyAmong(s, i + 1)
  }

  /** The empty text is not a custom key, and not a key either. */
  function StringToKey(s: string): PKey {
    if s == "" then NoKey else KeyAmong(s, 0)
  }

  method FindKey(s: string) returns (k: PKey)
    ensures k == StringToKey(s)
  {
    if |s| == 0 {
      return NoKey;
    }
    for i := 0 to |KEYS|
      invariant KeyAmong(s, 0) == KeyAmong(s, i)
    {
      if s == KEY_STRINGS[i] {
        return KEYS[i];
      }
    }
    return Custom;
  }

  /** Keys that may appear more than once in a registry. */
  predicate MayRepeat(k: PKey) {
    k in {CoreService, QosKey, Reg, Cap, Mprof, Connection}
  }

  // ---------------------------------------------------------------- the registry

  type Property = seq<string>

  function TrimAll(ts: seq<string>): (r: seq<string>)
    ensures |r| == |ts| && forall i | 0 <= i < |ts| :: r[i] == Trim(ts[i])
  {
    seq(|ts|, i requires 0 <= i < |ts| => Trim(ts[i]))
  }

  /** The property with every element but its key trimmed. */
  function Trimmed(p: Property): Property {
    if p == [] then [] else [p[0]] + TrimAll(p[1..])
  }

  function TrimmedAll(reg: seq<Property>): (r: seq<Property>)
    ensures |r| == |reg| && forall i | 0 <= i < |reg| :: r[i] == Trimmed(reg[i])
  {
    seq(|reg|, i requires 0 <= i < |reg| => Trimmed(reg[i]))
  }

  predicate GoodAt(reg: seq<Property>, i: nat)
    requires i < |reg|
  {
    && reg[i] != []
    && StringToKey(reg[i][0]) != Custom
    && (MayRepeat(StringToKey(reg[i][0])) || forall j | 0 <= j < i && reg[j] != [] :: reg[j][0] != reg[i][0])
  }

  predicate GoodUpTo(reg: seq<Property>, n: nat)
    requires n <= |reg|
  {
    forall i | 0 <= i < n :: GoodAt(reg, i)
  }

  function KeysUpTo(reg: seq<Property>, n: nat): seq<string>
    requires n <= |reg|
  {
    seq(n, j requires 0 <= j < n => if reg[j] == [] then "" else reg[j][0])
  }

  /** Every property has a known key, and the keys that may not repeat do not. */
  predicate GoodRegistry(reg: seq<Property>) {
    GoodUpTo(reg, |reg|)
  }

  method CheckProperty(ghost reg: seq<Property>, ghost i: nat, p: Property, keys: seq<string>) returns (good: bool)
    requires i < |reg| && p == reg[i]
    requires keys == KeysUpTo(reg, i) && GoodUpTo(reg, i)
    ensures good <==> GoodAt(reg, i)
  {
    assert forall j | 0 <= j < i :: GoodAt(reg, j) && keys[j] == reg[j][0];
    if |p| < 1 {
      return false;
    }
    var key := FindKey(p[0]);
    if key == Custom {
      return false;
    }
    if key != CoreService && key != QosKey && key != Reg && key != Cap && key != Mprof && key != Connection
       && p[0] in keys {
      return false;
    }
    return true;
  }

  lemma NotGood(reg: seq<Property>, i: nat)
    requires i < |reg| && !GoodAt(reg, i)
    ensures !GoodRegistry(reg)
  {
  }

  lemma OneMoreGood(reg: seq<Property>, i: nat)
    requires i < |reg| && GoodUpTo(reg, i) && GoodAt(reg, i)
    ensures GoodUpTo(reg, i + 1)
  {
  }

  lemma OneMoreKey(reg: seq<Property>, i: nat)
    requires i < |reg| && reg[i] != []
    ensures KeysUpTo(reg, i + 1) == KeysUpTo(reg, i) + [reg[i][0]]
  {
  }

  method TrimAndCheckProperties(reg: seq<Property>) returns (ok: bool, trimmed: seq<Property>)
    ensures ok <==> GoodRegistry(reg)
    ensures ok ==> trimmed == TrimmedAll(reg)
  {
    var keys: seq<string> := [];
    trimmed := [];
    for i := 0 to |reg|
      invariant GoodUpTo(reg, i)
      invariant keys == KeysUpTo(reg, i)
      invariant trimmed == TrimmedAll(reg)[..i]
    {
      var good := CheckProperty(reg, i, reg[i], keys);
      if !good {
        NotGood(reg, i);
        return false, trimmed;
      }
      OneMoreGood(reg, i);
      OneMoreKey(reg, i);
      PrefixStep(TrimmedAll(reg), i);
      keys := keys + [reg[i][0]];
      var q := TrimElements(reg[i]);
      trimmed := trimmed + [q];
    }
    assert TrimmedAll(reg)[..|reg|] == TrimmedAll(reg);
    return true, trimmed;
  }

  lemma TrimmedStep(p: Property, j: nat)
    requires j < |p|
    ensures |Trimmed(p)| == |p|
    ensures Trimmed(p)[..j + 1] == Trimmed(p)[..j] + [if j == 0 then p[0] else Trim(p[j])]
  {
    TrimmedAt(p, j);
    PrefixStep(Trimmed(p), j);
  }

  lemma {:induction false} TrimmedAt(p: Property, j: nat)
    requires j < |p|
    ensures |Trimmed(p)| == |p| && Trimmed(p)[j] == if j == 0 then p[0] else Trim(p[j])
  {
    var rest := TrimAll(p[1..]);
    assert Trimmed(p) == [p[0]] + rest;
    if j > 0 {
      assert rest[j - 1] == Trim(p[1..][j - 1]);
    }
  }

  method TrimElements(p: Property) returns (q: Property)
    requires p != []
    ensures q == Trimmed(p)
  {
    q := [];
    for j := 0 to |p|
      invariant q == Trimmed(p)[..j]
    {
      TrimmedStep(p, j);
      if j != 0 {
        q := q + [Trim(p[j])];
      } else {
        q := q + [p[j]];
      }
    }
  }
}
