/** Service identifiers with their flags, and the list of ICSIs in a CoreService property. */
module ServiceIdentifiers {
  import opened Lists
  import opened Text
  import opened ImsProperties

  datatype ServiceIdentifier = Id(name: string, isExplicit: bool, isRequired: bool)

  const FLAG_EXPLICIT := "explicit"
  const FLAG_REQUIRE := "require"

  /** The flag is among the pieces after the name. */
  predicate HasFlag(pieces: seq<string>, flag: string) {
    flag in pieces[(if |pieces| == 0 then 0 else 1)..]
  }

  function Created(value: string): ServiceIdentifier {
    var pieces := Split(value, ';');
    Id(Trim(pieces[0]), HasFlag(pieces, FLAG_EXPLICIT), HasFlag(pieces, FLAG_REQUIRE))
  }

  function Printed(id: ServiceIdentifier): string {
    id.name + (if id.isRequired then ";" + FLAG_REQUIRE else "") + if id.isExplicit then ";" + FLAG_EXPLICIT else ""
  }

  /** Only the two known flags are ever refused, and only where they are not allowed. */
  predicate FlagsAllowed(value: string, allow: bool) {
    allow || (!HasFlag(Split(value, ';'), FLAG_EXPLICIT) && !HasFlag(Split(value, ';'), FLAG_REQUIRE))
  }

  method Create(value: string) returns (id: ServiceIdentifier)
    ensures id == Created(value)
  {
    var isExplicit, isRequired := false, false;
    var pieces := Split(value, ';');
    for i := 1 to |pieces|
      invariant isExplicit <==> FLAG_EXPLICIT in pieces[1..i]
      invariant isRequired <==> FLAG_REQUIRE in pieces[1..i]
    {
      assert pieces[1..i + 1] == pieces[1..i] + [pieces[i]];
      assert FLAG_EXPLICIT[0] != FLAG_REQUIRE[0];
      if pieces[i] == FLAG_EXPLICIT {
        isExplicit := true;
      } else if pieces[i] == FLAG_REQUIRE {
        isRequired := true;
      }
    }
    assert pieces[1..|pieces|] == pieces[1..];
    return Id(Trim(pieces[0]), isExplicit, isRequired);
  }

  method ToString(id: ServiceIdentifier) returns (s: string)
    ensures s == Printed(id)
  {
    s := id.name;
    if id.isRequired {
      s := s + ";";
      s := s + FLAG_REQUIRE;
    }
    if id.isExplicit {
      s := s + ";";
      s := s + FLAG_EXPLICIT;
    }
    AppendAssociative(id.name, ";", FLAG_REQUIRE);
    AppendAssociative(id.name + (if id.isRequired then ";" + FLAG_REQUIRE else ""), ";", FLAG_EXPLICIT);
  }

  method CheckFeatureFlags(value: string, allow: bool) returns (ok: bool)
    ensures ok <==> FlagsAllowed(value, allow)
  {
    var pieces := Split(value, ';');
    for i := 1 to |pieces|
      invariant allow || (FLAG_EXPLICIT !in pieces[1..i] && FLAG_REQUIRE !in pieces[1..i])
    {
      assert pieces[1..i + 1] == pieces[1..i] + [pieces[i]];
      var valid := true;
      if pieces[i] == FLAG_EXPLICIT || pieces[i] == FLAG_REQUIRE {
        valid := allow;
      }
      if !valid {
        assert pieces[i] in pieces[1..];
        return false;
      }
    }
    assert pieces[1..|pieces|] == pieces[1..];
    return true;
  }

  // ---------------------------------------------------------------- one identifier there and back

  lemma SplitOff(t: string, rest: string)
    requires ';' !in t
    ensures Split(t + ";" + rest, ';') == [Trim(t)] + Split(rest, ';')
  {
    var s := t + ";" + rest;
    IndexOfPrefix(t, ';', rest);
    assert s[..|t|] == t && s[|t| + 1..] == rest;
  }

  lemma SplitNone(t: string)
    requires ';' !in t
    ensures Split(t, ';') == [Trim(t)]
  {
  }

  lemma FlagTexts()
    ensures ';' !in FLAG_EXPLICIT && ';' !in FLAG_REQUIRE && FLAG_EXPLICIT != FLAG_REQUIRE
    ensures Trim(FLAG_EXPLICIT) == FLAG_EXPLICIT && Trim(FLAG_REQUIRE) == FLAG_REQUIRE
    ensures NoSpace(FLAG_EXPLICIT) && NoSpace(FLAG_REQUIRE)
  {
    assert FLAG_EXPLICIT[0] != FLAG_REQUIRE[0];
    TrimNoSpace(FLAG_EXPLICIT);
    TrimNoSpace(FLAG_REQUIRE);
  }

  /** The pieces after the name. */
  function FlagPieces(id: ServiceIdentifier): seq<string> {
    (if id.isRequired then [FLAG_REQUIRE] else []) + if id.isExplicit then [FLAG_EXPLICIT] else []
  }

  lemma SplitFlags()
    ensures Split(FLAG_REQUIRE, ';') == [FLAG_REQUIRE]
    ensures Split(FLAG_EXPLICIT, ';') == [FLAG_EXPLICIT]
    ensures Split(FLAG_REQUIRE + ";" + FLAG_EXPLICIT, ';') == [FLAG_REQUIRE, FLAG_EXPLICIT]
  {
    FlagTexts();
    SplitNone(FLAG_EXPLICIT);
    SplitNone(FLAG_REQUIRE);
    SplitOff(FLAG_REQUIRE, FLAG_EXPLICIT);
  }

  /** The flags as they stand behind the first semicolon. */
  function FlagText(id: ServiceIdentifier): string {
    if id.isRequired && id.isExplicit then FLAG_REQUIRE + ";" + FLAG_EXPLICIT
    else if id.isRequired then FLAG_REQUIRE
    else FLAG_EXPLICIT
  }

  lemma PrintedShape(n: string, r: string, e: string)
    ensures n + (";" + r) + (";" + e) == n + ";" + (r + ";" + e)
    ensures n + (";" + r) + "" == n + ";" + r
    ensures n + "" + (";" + e) == n + ";" + e
    ensures n + "" + "" == n
  {
  }

  lemma PrintedIs(id: ServiceIdentifier)
    ensures Printed(id) == if id.isRequired || id.isExplicit then id.name + ";" + FlagText(id) else id.name
  {
    PrintedShape(id.name, FLAG_REQUIRE, FLAG_EXPLICIT);
  }

  lemma SplitFlagText(id: ServiceIdentifier)
    requires id.isRequired || id.isExplicit
    ensures Split(FlagText(id), ';') == FlagPieces(id)
  {
    SplitFlags();
    PiecesInOrder(FLAG_REQUIRE, FLAG_EXPLICIT);
  }

  lemma PiecesInOrder(r: string, e: string)
    ensures [r] + [e] == [r, e] && [r] + [] == [r] && [] + [e] == [e]
  {
  }

  lemma PiecesOfPrinted(id: ServiceIdentifier)
    requires ';' !in id.name
    ensures Split(Printed(id), ';') == [Trim(id.name)] + FlagPieces(id)
  {
    PrintedIs(id);
    if id.isRequired || id.isExplicit {
      SplitFlagText(id);
      SplitOff(id.name, FlagText(id));
    } else {
      SplitNone(id.name);
    }
  }

  lemma CreatedFromPrinted(id: ServiceIdentifier)
    requires ';' !in id.name
    ensures Created(Printed(id)) == Id(Trim(id.name), id.isExplicit, id.isRequired)
  {
    PiecesOfPrinted(id);
    FlagTexts();
    TrimTwice(id.name);
    var pieces := Split(Printed(id), ';');
    assert pieces[1..] == FlagPieces(id);
  }

  /** The first piece never holds the separator. */
  lemma FirstPiece(s: string)
    ensures ';' !in Split(s, ';')[0]
  {
    var i := IndexOf(s, ';');
    TrimIsPart(if i == |s| then s else s[..i], ';');
  }

  lemma {:induction false} TrimLeftIsPart(s: string, c: char)
    requires c !in s
    ensures c !in TrimLeft(s)
    decreases |s|
  {
    if s != "" && IsSpace(s[0]) {
      TrimLeftIsPart(s[1..], c);
    }
  }

  lemma {:induction false} TrimRightIsPart(s: string, c: char)
    requires c !in s
    ensures c !in TrimRight(s)
    decreases |s|
  {
    if s != "" && IsSpace(s[|s| - 1]) {
      TrimRightIsPart(s[..|s| - 1], c);
    }
  }

  lemma TrimIsPart(s: string, c: char)
    requires c !in s
    ensures c !in Trim(s)
  {
    TrimLeftIsPart(s, c);
    TrimRightIsPart(TrimLeft(s), c);
  }

  /** Creating an identifier from its printed form gives it back, exactly when its name is trimmed and
      holds no semicolon. */
  lemma CreateUndoesPrint(id: ServiceIdentifier)
    ensures Created(Printed(id)) == id <==> ';' !in id.name && Trim(id.name) == id.name
  {
    FirstPiece(Printed(id));
    TrimIsPart(Split(Printed(id), ';')[0], ';');
    if ';' !in id.name {
      CreatedFromPrinted(id);
    }
  }

  lemma {:induction false} TrimRightEnd(s: string)
    ensures var t := TrimRight(s); t == "" || !IsSpace(t[|t| - 1])
    ensures TrimRight(s) != "" ==> s != "" && TrimRight(s)[0] == s[0]
    decreases |s|
  {
    if s != "" && IsSpace(s[|s| - 1]) {
      TrimRightEnd(s[..|s| - 1]);
    }
  }

  lemma {:induction false} TrimLeftStart(s: string)
    ensures var t := TrimLeft(s); t == "" || !IsSpace(t[0])
    decreases |s|
  {
    if s != "" && IsSpace(s[0]) {
      TrimLeftStart(s[1..]);
    }
  }

  lemma TrimTwice(s: string)
    ensures Trim(Trim(s)) == Trim(s)
  {
    TrimLeftStart(s);
    TrimRightEnd(TrimLeft(s));
  }

  // ---------------------------------------------------------------- the list of ICSIs there and back

  function PrintedAll(ids: seq<ServiceIdentifier>): (r: seq<string>)
    ensures |r| == |ids| && forall i | 0 <= i < |ids| :: r[i] == Printed(ids[i])
  {
    if ids == [] then [] else [Printed(ids[0])] + PrintedAll(ids[1..])
  }

  /** The ICSI field that ToRegistry writes. */
  function IcsiField(ids: seq<ServiceIdentifier>): string {
    Join(PrintedAll(ids), ' ')
  }

  function CreatedAll(ts: seq<string>): (r: seq<ServiceIdentifier>)
    ensures |r| == |ts| && forall i | 0 <= i < |ts| :: r[i] == Created(ts[i])
  {
    if ts == [] then [] else [Created(ts[0])] + CreatedAll(ts[1..])
  }

  /** The identifiers that AddCoreServiceProperty reads from a field. */
  function ReadIcsis(field: string): seq<ServiceIdentifier> {
    CreatedAll(Tokens(field))
  }

  predicate CleanName(s: string) {
    NoSpace(s) && ';' !in s
  }

  function NonEmpty(ts: seq<string>): (r: seq<string>)
    ensures |r| <= |ts|
    ensures |r| == |ts| <==> forall i | 0 <= i < |ts| :: ts[i] != ""
    ensures |r| == |ts| ==> r == ts
  {
    if ts == [] then []
    else
      var rest := NonEmpty(ts[1..]);
      assert ts == [ts[0]] + ts[1..];
      if ts[0] == "" then rest else [ts[0]] + rest
  }

  /** Tokens of a joined list: the empty texts are lost. */
  lemma {:induction false} TokensOfAnyJoin(ts: seq<string>)
    requires forall i | 0 <= i < |ts| :: NoSpace(ts[i])
    ensures Tokens(Join(ts, ' ')) == NonEmpty(ts)
    decreases |ts|
  {
    if |ts| == 1 {
      TokensOfToken("", ts[0], "");
      assert ts[0] + "" == ts[0];
      assert "" + ts[0] == ts[0];
      assert NonEmpty(ts[1..]) == [];
    } else if |ts| > 1 {
      var rest := [' '] + Join(ts[1..], ' ');
      assert Join(ts, ' ') == ts[0] + rest;
      TokensOfToken("", ts[0], rest);
      assert "" + ts[0] == ts[0];
      assert rest[1..] == Join(ts[1..], ' ');
      TokensOfAnyJoin(ts[1..]);
    }
  }

  lemma PrintedHasNoSpace(id: ServiceIdentifier)
    requires CleanName(id.name)
    ensures NoSpace(Printed(id)) && (Printed(id) == "" <==> id == NO_ID)
  {
    FlagTexts();
  }

  const NO_ID := Id("", false, false)

  /** The identifiers that leave a text behind. */
  function NonBlank(ids: seq<ServiceIdentifier>): (r: seq<ServiceIdentifier>)
    ensures |r| <= |ids| && NO_ID !in r
    ensures |r| == |ids| ==> r == ids
    ensures NO_ID !in ids ==> r == ids
    ensures r == [] ==> forall i | 0 <= i < |ids| :: ids[i] == NO_ID
  {
    if ids == [] then []
    else
      var rest := NonBlank(ids[1..]);
      assert ids == [ids[0]] + ids[1..];
      if ids[0] == NO_ID then rest else [ids[0]] + rest
  }

  predicate AllClean(ids: seq<ServiceIdentifier>) {
    forall i | 0 <= i < |ids| :: CleanName(ids[i].name)
  }

  lemma {:induction false} NonBlankOfConcat(ids: seq<ServiceIdentifier>, more: seq<ServiceIdentifier>)
    ensures NonBlank(ids + more) == NonBlank(ids) + NonBlank(more)
    decreases |ids|
  {
    if ids == [] {
      assert ids + more == more;
    } else {
      NonBlankOfConcat(ids[1..], more);
      AppendAssociative(if ids[0] == NO_ID then [] else [ids[0]], NonBlank(ids[1..]), NonBlank(more));
      assert (ids + more)[1..] == ids[1..] + more;
    }
  }

  lemma {:induction false} CreatedFromTexts(ids: seq<ServiceIdentifier>)
    requires AllClean(ids)
    ensures CreatedAll(NonEmpty(PrintedAll(ids))) == NonBlank(ids)
    decreases |ids|
  {
    if ids != [] {
      var rest := NonEmpty(PrintedAll(ids[1..]));
      assert PrintedAll(ids)[1..] == PrintedAll(ids[1..]);
      CreatedFromTexts(ids[1..]);
      PrintedHasNoSpace(ids[0]);
      TrimNoSpace(ids[0].name);
      CreateUndoesPrint(ids[0]);
      assert ([Printed(ids[0])] + rest)[1..] == rest;
    }
  }

  /** For names without white space and semicolons, a field is read back as the identifiers that are not blank. */
  lemma FieldReadsNonBlank(ids: seq<ServiceIdentifier>)
    requires AllClean(ids)
    ensures ReadIcsis(IcsiField(ids)) == NonBlank(ids)
  {
    var ts := PrintedAll(ids);
    forall i | 0 <= i < |ids| ensures NoSpace(ts[i]) {
      PrintedHasNoSpace(ids[i]);
    }
    TokensOfAnyJoin(ts);
    CreatedFromTexts(ids);
  }

  lemma CreatedIsClean(value: string)
    requires NoSpace(value)
    ensures CleanName(Created(value).name)
  {
    var i := IndexOf(value, ';');
    var first := if i == |value| then value else value[..i];
    TrimNoSpace(first);
    assert Split(value, ';')[0] == first;
  }

  /** Whatever a field holds, the names read from it are without white space and semicolons. */
  lemma ReadIsClean(field: string)
    ensures AllClean(ReadIcsis(field))
  {
    TokensAreTokens(field, "");
    var ts := Tokens(field);
    forall i | 0 <= i < |ts| ensures CleanName(Created(ts[i]).name) {
      CreatedIsClean(ts[i]);
    }
  }

  /** The ICSI field is read back as the same list of names and flags, exactly when no name holds white space or a
      semicolon and no identifier is blank. */
  lemma IcsiFieldRoundTrip(ids: seq<ServiceIdentifier>)
    ensures ReadIcsis(IcsiField(ids)) == ids <==> AllClean(ids) && NO_ID !in ids
  {
    ReadIsClean(IcsiField(ids));
    if AllClean(ids) {
      FieldReadsNonBlank(ids);
    }
  }

  /** The feature-tag field that ToRegistry writes: the texts of the ICSIs are still in the list. */
  function TagField(icsis: seq<ServiceIdentifier>, tags: seq<ServiceIdentifier>): string {
    IcsiField(icsis + tags)
  }

  /** The feature-tag field is read back as the ICSIs followed by the feature tags, without the blank ones. That is
      the list of feature tags exactly when every ICSI is blank and no feature tag is. */
  lemma TagFieldRoundTripIff(icsis: seq<ServiceIdentifier>, tags: seq<ServiceIdentifier>)
    requires AllClean(icsis) && AllClean(tags)
    ensures ReadIcsis(TagField(icsis, tags)) == NonBlank(icsis) + NonBlank(tags)
    ensures ReadIcsis(TagField(icsis, tags)) == tags <==> NonBlank(icsis) == [] && NO_ID !in tags
  {
    var all := icsis + tags;
    forall i | 0 <= i < |all| ensures CleanName(all[i].name) {
      assert all[i] == if i < |icsis| then icsis[i] else tags[i - |icsis|];
    }
    FieldReadsNonBlank(all);
    NonBlankOfConcat(icsis, tags);
    var r := NonBlank(icsis) + NonBlank(tags);
    if r == tags {
      forall t | t in tags ensures t != NO_ID {
        assert t in r;
      }
    }
  }

  lemma PrintedStep(done: seq<ServiceIdentifier>, ids: seq<ServiceIdentifier>, i: nat)
    requires i < |ids|
    ensures PrintedAll(done + ids[..i + 1]) == PrintedAll(done + ids[..i]) + [Printed(ids[i])]
  {
    var before, after := done + ids[..i], done + ids[..i + 1];
    assert after == before + [ids[i]];
    assert |PrintedAll(after)| == |PrintedAll(before)| + 1;
  }

  method AppendTexts(values: seq<string>, ids: seq<ServiceIdentifier>, ghost done: seq<ServiceIdentifier>)
    returns (r: seq<string>)
    requires values == PrintedAll(done)
    ensures r == PrintedAll(done + ids)
  {
    r := values;
    for i := 0 to |ids|
      invariant r == PrintedAll(done + ids[..i])
    {
      var s := ToString(ids[i]);
      PrintedStep(done, ids, i);
      r := r + [s];
    }
    assert ids[..|ids|] == ids;
  }

  method FieldOf(values: seq<string>) returns (field: string)
    ensures field == Join(values, ' ')
  {
    if |values| > 0 {
      field := Encode(values);
    } else {
      field := "";
    }
  }

  /** The loops of ToRegistry that write both fields, with one list of texts for the two. */
  method WriteFields(icsis: seq<ServiceIdentifier>, tags: seq<ServiceIdentifier>)
    returns (icsiField: string, tagField: string)
    ensures icsiField == IcsiField(icsis)
    ensures tagField == TagField(icsis, tags)
  {
    var values := AppendTexts([], icsis, []);
    assert [] + icsis == icsis;
    icsiField := FieldOf(values);
    values := AppendTexts(values, tags, icsis);
    tagField := FieldOf(values);
  }

  lemma CreatedStep(ts: seq<string>, i: nat)
    requires i < |ts|
    ensures CreatedAll(ts)[..i + 1] == CreatedAll(ts)[..i] + [Created(ts[i])]
  {
    PrefixStep(CreatedAll(ts), i);
  }

  method ParseIcsis(field: string) returns (ids: seq<ServiceIdentifier>)
    ensures ids == ReadIcsis(field)
  {
    var tokens := Decode(field);
    ids := [];
    for i := 0 to |tokens|
      invariant ids == CreatedAll(tokens)[..i]
    {
      var ok := CheckFeatureFlags(tokens[i], true);
      assert ok;
      var id := Create(tokens[i]);
      CreatedStep(tokens, i);
      ids := ids + [id];
    }
    assert CreatedAll(tokens)[..|tokens|] == CreatedAll(tokens);
  }
}
