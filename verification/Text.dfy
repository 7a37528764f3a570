/** The text operations of AString that the parsers and printers use. */
module Text {
  import opened Lists

  predicate IsSpace(c: char) {
    c == '\n' || c == '\t' || c as int == 0x0B || c == ' ' || c == '\r' || c as int == 0x0C
  }

  predicate IsDigit(c: char) {
    '0' <= c <= '9'
  }

  predicate IsAlpha(c: char) {
    'A' <= c <= 'Z' || 'a' <= c <= 'z'
  }

  function ToLower(c: char): char {
    if 'A' <= c <= 'Z' then (c as int + 32) as char else c
  }

  function Lower(s: string): (r: string)
    ensures |r| == |s|
  {
    seq(|s|, i requires 0 <= i < |s| => ToLower(s[i]))
  }

  predicate EqualsIgnoreCase(s: string, t: string) {
    Lower(s) == Lower(t)
  }

  function TrimLeft(s: string): string {
    if s != [] && IsSpace(s[0]) then TrimLeft(s[1..]) else s
  }

  function TrimRight(s: string): string {
    if s != [] && IsSpace(s[|s| - 1]) then TrimRight(s[..|s| - 1]) else s
  }

  function Trim(s: string): string {
    TrimRight(TrimLeft(s))
  }

  predicate NoSpace(s: string) {
    forall i | 0 <= i < |s| :: !IsSpace(s[i])
  }

  lemma TrimNoSpace(s: string)
    requires NoSpace(s)
    ensures Trim(s) == s
  {
  }

  /** The index of the first occurrence of `c`, or the length. */
  function IndexOf(s: string, c: char): (i: nat)
    ensures i <= |s|
    ensures c !in s[..i]
    ensures i < |s| ==> s[i] == c
    ensures i == |s| <==> c !in s
  {
    if s == [] || s[0] == c then 0
    else
      assert s == [s[0]] + s[1..];
      var i := IndexOf(s[1..], c) + 1;
      assert s[..i] == [s[0]] + s[1..][..i - 1];
      i
  }

  lemma {:induction false} IndexOfPrefix(before: string, c: char, after: string)
    requires c !in before
    ensures IndexOf(before + [c] + after, c) == |before|
  {
    var s := before + [c] + after;
    var i := IndexOf(s, c);
    assert s[|before|] == c;
  }

  /** The pieces between separators, each trimmed. */
  function Split(s: string, sep: char): (r: seq<string>)
    ensures |r| >= 1
    decreases |s|
  {
    var i := IndexOf(s, sep);
    if i == |s| then [Trim(s)] else [Trim(s[..i])] + Split(s[i + 1..], sep)
  }

  /** The texts one after the other, with a separator in between. */
  function Join(ts: seq<string>, sep: char): string {
    if ts == [] then [] else if |ts| == 1 then ts[0] else ts[0] + [sep] + Join(ts[1..], sep)
  }

  /** Splitting undoes joining, for texts without spaces and separators. */
  lemma {:induction false} SplitJoin(ts: seq<string>, sep: char)
    requires ts != []
    requires forall i | 0 <= i < |ts| :: NoSpace(ts[i]) && sep !in ts[i]
    ensures Split(Join(ts, sep), sep) == ts
    decreases |ts|
  {
    TrimNoSpace(ts[0]);
    if |ts| == 1 {
      assert Join(ts, sep) == ts[0];
    } else {
      SplitJoin(ts[1..], sep);
      SplitFirst(ts[0], sep, Join(ts[1..], sep));
    }
  }

  lemma SplitFirst(t: string, sep: char, rest: string)
    requires NoSpace(t) && sep !in t
    ensures Split(t + [sep] + rest, sep) == [t] + Split(rest, sep)
  {
    var s := t + [sep] + rest;
    IndexOfPrefix(t, sep, rest);
    TrimNoSpace(t);
    assert s[..|t|] == t;
    assert s[|t| + 1..] == rest;
  }

  lemma {:induction false} JoinSnoc(ts: seq<string>, t: string, sep: char)
    requires ts != []
    ensures Join(ts + [t], sep) == Join(ts, sep) + [sep] + t
  {
    var all := ts + [t];
    if |ts| == 1 {
      assert all[1..] == [t];
      assert Join([t], sep) == t;
    } else {
      JoinSnoc(ts[1..], t, sep);
      assert all[1..] == ts[1..] + [t];
      AppendAssociative(ts[0] + [sep], Join(ts[1..], sep), [sep] + t);
      AppendAssociative(Join(ts[1..], sep), [sep], t);
      AppendAssociative(Join(ts, sep), [sep], t);
    }
  }
}
