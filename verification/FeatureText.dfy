/** Printing a feature set, and parsing it back from the name of a service identifier. */
module FeatureText {
  import opened Lists
  import opened Text
  import opened Features
  import opened FeatureSets
  import PC = PercentCoding

  predicate IsIdentifier(k: Kind) {
    k == Iari || k == Icsi
  }

  /** The characters of a value as a printer sees them. */
  predicate Printable(f: Feature) {
    IsIdentifier(f.kind) ==> PC.IsBytes(f.value.Str())
  }

  function ValueOnly(f: Feature, signed: bool): string
    requires Printable(f)
  {
    if IsIdentifier(f.kind) then PC.Encode(f.value.Str(), signed) else f.value.Str()
  }

  function PrintedFeature(f: Feature, signed: bool): string
    requires Printable(f)
  {
    if f.kind == Boolean || f.value.Str() == "" then f.tag.Str()
    else f.tag.Str() + "=" + "\"" + ValueOnly(f, signed) + "\""
  }

  predicate AllPrintable(fs: seq<Listed>) {
    forall i | 0 <= i < |fs| :: Printable(fs[i].feature)
  }

  function Values(fs: seq<Listed>, signed: bool): (r: seq<string>)
    requires AllPrintable(fs)
    ensures |r| == |fs| && forall i | 0 <= i < |fs| :: r[i] == ValueOnly(fs[i].feature, signed)
  {
    if fs == [] then [] else [ValueOnly(fs[0].feature, signed)] + Values(fs[1..], signed)
  }

  function Printed(fs: seq<Listed>, signed: bool): AText
    requires AllPrintable(fs)
  {
    if fs == [] then Null
    else if |fs| == 1 then Chars(PrintedFeature(fs[0].feature, signed))
    else Chars(fs[0].feature.tag.Str() + "=" + "\"" + Join(Values(fs, signed), ',') + "\"")
  }

  /** The tag in front of the first equals sign, or the whole name. */
  function ParsedTag(name: string): AText {
    Chars(name[..IndexOf(name, '=')])
  }

  /** The features of the values behind the equals sign. */
  function FeaturesOf(tag: AText, value: AText, signed: bool): seq<Feature> {
    if ',' in value.Str() then MadeAll(tag, Split(value.s, ','), signed) else [Made(tag, value, signed)]
  }

  function ParsedFeatures(name: string, signed: bool): seq<Feature> {
    var i := IndexOf(name, '=');
    if i == |name| then [Extract(Chars(name), signed)]
    else
      FeaturesOf(Chars(name[..i]), ValueBehind(name, i), signed)
  }

  /** The list of the feature set parsed from a name. */
  function Parsed(name: string, signed: bool): seq<Listed> {
    AddAll(ParsedTag(name), [], ParsedFeatures(name, signed))
  }

  // ---------------------------------------------------------------- one value there and back

  function TagOf(k: Kind): string {
    if k == Iari then IARI_TAG else ICSI_TAG
  }

  /** A tag that folds to one of the two identifier tags has their shape. */
  lemma IdentifierTag(tag: string, k: Kind)
    requires IsIdentifier(k) && EqualsIgnoreCase(tag, TagOf(k))
    ensures NoSpace(tag) && '=' !in tag && tag != "" && !IsBaseTag(tag)
    ensures k == Icsi ==> !EqualsIgnoreCase(tag, IARI_TAG)
  {
    TagsDiffer();
    var t := TagOf(k);
    assert |Lower(tag)| == |Lower(t)|;
    forall i | 0 <= i < |tag| ensures !IsSpace(tag[i]) && tag[i] != '=' {
      assert Lower(tag)[i] == Lower(t)[i];
      TagCharacter(t, k, i);
    }
    assert Lower(tag)[0] == Lower(t)[0] == '+';
  }

  lemma TagsDiffer()
    ensures Lower(IARI_TAG)[8] == 'i' && Lower(IARI_TAG)[9] == 'a' && Lower(ICSI_TAG)[9] == 'c'
    ensures Lower(IARI_TAG)[0] == '+' && Lower(ICSI_TAG)[0] == '+'
  {
  }

  lemma TagCharacter(t: string, k: Kind, i: nat)
    requires IsIdentifier(k) && t == TagOf(k) && i < |t|
    ensures !IsSpace(t[i]) && t[i] != '=' && ToLower(t[i]) == t[i]
  {
  }

  /** What becomes of a value when it is printed and parsed. */
  function Back(v: AText, signed: bool): AText
    requires PC.IsBytes(v.Str())
  {
    if v.Str() == "" then Null else Chars(PC.Decode(PC.Encode(v.s, signed), signed))
  }

  /** The values that the percent coding gives back: not the empty one, which comes back as null, and where
      characters are signed only bytes below 128. */
  predicate ComesBack(v: AText, signed: bool) {
    v != Chars("") && (!signed || PC.IsAscii(v.Str()))
  }

  lemma BackIsSameIff(v: AText, signed: bool)
    requires PC.IsBytes(v.Str())
    ensures Back(v, signed) == v <==> ComesBack(v, signed)
  {
    PC.DecodeUndoesEncode(v.Str(), signed);
  }

  lemma MadeFromText(tag: string, k: Kind, e: string, signed: bool)
    requires IsIdentifier(k) && EqualsIgnoreCase(tag, TagOf(k)) && '=' !in tag
    requires e != "" && NoSpace(e) && '"' !in e && '<' !in e
    ensures Made(Chars(tag), Chars(e), signed) == Feature(k, false, Chars(tag), Chars(PC.Decode(e, signed)))
  {
    IdentifierTag(tag, k);
    TrimNoSpace(tag);
    TrimNoSpace(e);
    var s := tag + "=" + e;
    SplitAtEqual(tag, e);
    assert e[0] in e;
    assert RightValue(s) == Chars(e) && !InAngles(Chars(e));
  }

  lemma SplitAtEqual(tag: string, e: string)
    requires '=' !in tag
    ensures var s := tag + "=" + e;
            IndexOf(s, '=') == |tag| && s[..|tag|] == tag && s[|tag| + 1..] == e
  {
    IndexOfPrefix(tag, '=', e);
  }

  /** Encoding a value and parsing it with its tag gives the value back, without case sensitivity. */
  lemma MadeFromEncoded(tag: string, k: Kind, v: AText, signed: bool)
    requires (k == Iari || k == Icsi) && EqualsIgnoreCase(tag, TagOf(k)) && PC.IsBytes(v.Str())
    ensures var f := Made(Chars(tag), Chars(PC.Encode(v.Str(), signed)), signed);
            f == Feature(k, false, Chars(tag), Back(v, signed)) && (f.value == v <==> ComesBack(v, signed))
  {
    IdentifierTag(tag, k);
    BackIsSameIff(v, signed);
    PC.EncodedIsInert(v.Str(), signed);
    if v.Str() == "" {
      TrimNoSpace(tag);
    } else {
      MadeFromText(tag, k, PC.Encode(v.s, signed), signed);
    }
  }

  // ---------------------------------------------------------------- the set there and back

  /** A list of features of one identifier tag. */
  predicate IdentifierList(fs: seq<Listed>, k: Kind) {
    forall i | 0 <= i < |fs| ::
      var f := fs[i].feature;
      f.kind == k && f.tag.Chars? && EqualsIgnoreCase(f.tag.s, TagOf(k)) && PC.IsBytes(f.value.Str())
  }

  /** The features as they come back: with the tag of the first one, and compared without case. */
  function Reread(fs: seq<Listed>, tag: AText, k: Kind, signed: bool): (r: seq<Feature>)
    requires IdentifierList(fs, k)
    ensures |r| == |fs|
    ensures forall i | 0 <= i < |fs| :: r[i] == Feature(k, false, tag, Back(fs[i].feature.value, signed))
  {
    if fs == [] then []
    else [Feature(k, false, tag, Back(fs[0].feature.value, signed))] + Reread(fs[1..], tag, k, signed)
  }

  lemma JoinHasSeparator(ts: seq<string>, sep: char)
    requires |ts| >= 2
    ensures sep in Join(ts, sep)
  {
    assert Join(ts, sep) == ts[0] + [sep] + Join(ts[1..], sep);
    assert (ts[0] + [sep] + Join(ts[1..], sep))[|ts[0]|] == sep;
  }

  lemma ParsedOfMany(tag: string, values: seq<string>, signed: bool)
    requires '=' !in tag && |values| >= 2
    requires forall i | 0 <= i < |values| :: NoSpace(values[i]) && ',' !in values[i]
    ensures var name := tag + "=" + "\"" + Join(values, ',') + "\"";
            ParsedTag(name) == Chars(tag) && ParsedFeatures(name, signed) == MadeAll(Chars(tag), values, signed)
  {
    var j := Join(values, ',');
    var name := tag + "=" + "\"" + j + "\"";
    NameParts(tag, j);
    JoinHasSeparator(values, ',');
    SplitJoin(values, ',');
  }

  lemma NameParts(tag: string, j: string)
    requires '=' !in tag
    ensures var name := tag + "=" + "\"" + j + "\"";
            && IndexOf(name, '=') == |tag| < |name| - 1
            && name[..|tag|] == tag
            && TrimDquot(Chars(name[|tag| + 1..])) == Chars(j)
  {
    var name := tag + "=" + "\"" + j + "\"";
    var rest := "\"" + j + "\"";
    assert name == tag + ['='] + rest;
    IndexOfPrefix(tag, '=', rest);
    assert name[|tag| + 1..] == rest;
    assert rest[1..|rest| - 1] == j;
  }

  lemma RereadIsMade(fs: seq<Listed>, tag: string, k: Kind, signed: bool)
    requires IsIdentifier(k) && IdentifierList(fs, k) && EqualsIgnoreCase(tag, TagOf(k))
    ensures AllPrintable(fs)
    ensures MadeAll(Chars(tag), Values(fs, signed), signed) == Reread(fs, Chars(tag), k, signed)
  {
    forall i | 0 <= i < |fs|
      ensures Made(Chars(tag), Chars(ValueOnly(fs[i].feature, signed)), signed) == Reread(fs, Chars(tag), k, signed)[i] {
      MadeFromEncoded(tag, k, fs[i].feature.value, signed);
    }
  }

  lemma PrintedParsesMany(fs: seq<Listed>, k: Kind, signed: bool)
    requires |fs| > 1 && IsIdentifier(k) && IdentifierList(fs, k)
    ensures AllPrintable(fs) && Printed(fs, signed).Chars?
    ensures ParsedTag(Printed(fs, signed).s) == fs[0].feature.tag
    ensures ParsedFeatures(Printed(fs, signed).s, signed) == MadeAll(fs[0].feature.tag, Values(fs, signed), signed)
  {
    IdentifierTag(fs[0].feature.tag.s, k);
    var values := Values(fs, signed);
    forall i | 0 <= i < |values| ensures NoSpace(values[i]) && ',' !in values[i] {
      PC.EncodedIsInert(fs[i].feature.value.Str(), signed);
    }
    ParsedOfMany(fs[0].feature.tag.s, values, signed);
  }

  lemma PrintedParses(fs: seq<Listed>, k: Kind, signed: bool)
    requires fs != [] && IsIdentifier(k) && IdentifierList(fs, k)
    ensures AllPrintable(fs) && Printed(fs, signed).Chars?
    ensures var tag := fs[0].feature.tag;
            Parsed(Printed(fs, signed).s, signed) == AddAll(tag, [], Reread(fs, tag, k, signed))
  {
    var tag := fs[0].feature.tag.s;
    RereadIsMade(fs, tag, k, signed);
    if |fs| > 1 {
      PrintedParsesMany(fs, k, signed);
    } else {
      IdentifierTag(tag, k);
      PrintedParsesOne(fs[0].feature, tag, Printed(fs, signed).s, signed);
      assert Values(fs, signed) == [ValueOnly(fs[0].feature, signed)];
      assert MadeAll(Chars(tag), Values(fs, signed), signed)
          == [Made(Chars(tag), Chars(ValueOnly(fs[0].feature, signed)), signed)];
    }
  }

  lemma {:induction false} PrintedParsesOne(f: Feature, tag: string, name: string, signed: bool)
    requires IsIdentifier(f.kind) && f.tag == Chars(tag) && '=' !in tag && PC.IsBytes(f.value.Str())
    requires name == PrintedFeature(f, signed)
    ensures ParsedTag(name) == Chars(tag)
    ensures ParsedFeatures(name, signed) == [Made(Chars(tag), Chars(ValueOnly(f, signed)), signed)]
  {
    var v := ValueOnly(f, signed);
    PC.EncodedIsInert(f.value.Str(), signed);
    if v == "" {
      ParsedWithoutEquals(tag, signed);
    } else {
      ParsedWithOne(tag, v, signed);
    }
  }

  lemma {:induction false} ParsedWithoutEquals(tag: string, signed: bool)
    requires '=' !in tag
    ensures ParsedTag(tag) == Chars(tag) && ParsedFeatures(tag, signed) == [Made(Chars(tag), Chars(""), signed)]
  {
    assert IndexOf(tag, '=') == |tag|;
    assert tag[..|tag|] == tag;
  }

  lemma {:induction false} ParsedWithOne(tag: string, v: string, signed: bool)
    requires '=' !in tag && ',' !in v
    ensures var name := tag + "=" + "\"" + v + "\"";
            ParsedTag(name) == Chars(tag) && ParsedFeatures(name, signed) == [Made(Chars(tag), Chars(v), signed)]
  {
    NameParts(tag, v);
  }

  predicate DifferIgnoringCase(fs: seq<Listed>) {
    forall i, j | 0 <= i < j < |fs| :: fs[i].feature.value.Folded() != fs[j].feature.value.Folded()
  }

  predicate SameValues(fs: seq<Listed>, gs: seq<Listed>) {
    |fs| == |gs| && forall i | 0 <= i < |fs| :: fs[i].feature.value == gs[i].feature.value
  }

  predicate AllComeBack(fs: seq<Listed>, signed: bool) {
    forall i | 0 <= i < |fs| :: ComesBack(fs[i].feature.value, signed)
  }

  /** Printing a non-empty IARI or ICSI set and parsing the text gives the same values in the same order, exactly
      when no two values differ in case alone, none is empty without being null, and none holds a byte of 128 or
      more where characters are signed. */
  lemma ParseUndoesPrint(fs: seq<Listed>, k: Kind, signed: bool)
    requires fs != [] && (k == Iari || k == Icsi) && IdentifierList(fs, k)
    ensures AllPrintable(fs) && Printed(fs, signed).Chars?
    ensures SameValues(fs, Parsed(Printed(fs, signed).s, signed))
            <==> DifferIgnoringCase(fs) && AllComeBack(fs, signed)
  {
    PrintedParses(fs, k, signed);
    RereadKeepsValuesIff(fs, fs[0].feature.tag, k, signed);
  }

  lemma RereadKeepsValuesIff(fs: seq<Listed>, tag: AText, k: Kind, signed: bool)
    requires IsIdentifier(k) && IdentifierList(fs, k)
    ensures SameValues(fs, AddAll(tag, [], Reread(fs, tag, k, signed)))
            <==> DifferIgnoringCase(fs) && AllComeBack(fs, signed)
  {
    RereadAdded(fs, tag, k, signed);
    AllComeBackIff(fs, tag, k, signed);
    if AllComeBack(fs, signed) {
      RereadDiffers(fs, tag, k, signed);
    }
  }

  lemma {:induction false} RereadAdded(fs: seq<Listed>, tag: AText, k: Kind, signed: bool)
    requires IdentifierList(fs, k)
    ensures var gs := Reread(fs, tag, k, signed);
            if PairwiseDiffer(gs) then AddAll(tag, [], gs) == ListedAll(gs) else |AddAll(tag, [], gs)| < |fs|
  {
    var gs := Reread(fs, tag, k, signed);
    AddAllFromNothing(tag, gs);
    forall i | 0 <= i < |gs| ensures tag.Folded() == gs[i].tag.Folded() {
    }
  }

  lemma AllComeBackIff(fs: seq<Listed>, tag: AText, k: Kind, signed: bool)
    requires IdentifierList(fs, k)
    ensures SameValues(fs, ListedAll(Reread(fs, tag, k, signed))) <==> AllComeBack(fs, signed)
  {
    var gs := Reread(fs, tag, k, signed);
    var rs := ListedAll(gs);
    forall i | 0 <= i < |fs|
      ensures rs[i].feature.value == fs[i].feature.value <==> ComesBack(fs[i].feature.value, signed) {
      assert rs[i].feature == gs[i];
      BackIsSameIff(fs[i].feature.value, signed);
    }
  }

  lemma EqualsOfOneTag(k: Kind, tag: AText, v: AText, w: AText)
    requires IsIdentifier(k)
    ensures Equals(Feature(k, false, tag, v), Feature(k, false, tag, w)) <==> v.Folded() == w.Folded()
  {
  }

  lemma {:induction false} RereadDiffers(fs: seq<Listed>, tag: AText, k: Kind, signed: bool)
    requires IsIdentifier(k) && IdentifierList(fs, k) && AllComeBack(fs, signed)
    ensures PairwiseDiffer(Reread(fs, tag, k, signed)) <==> DifferIgnoringCase(fs)
  {
    var gs := Reread(fs, tag, k, signed);
    forall i, j | 0 <= i < j < |fs|
      ensures Equals(gs[i], gs[j]) <==> fs[i].feature.value.Folded() == fs[j].feature.value.Folded() {
      var v, w := fs[i].feature.value, fs[j].feature.value;
      BackIsSameIff(v, signed);
      BackIsSameIff(w, signed);
      EqualsOfOneTag(k, tag, v, w);
      assert gs[i] == Feature(k, false, tag, v) && gs[j] == Feature(k, false, tag, w);
    }
  }

  /** In a well-formed set of values written without angle brackets, the values differ even without regard to
      case. */
  lemma PlainSetsDiffer(fs: seq<Listed>, k: Kind)
    requires (k == Iari || k == Icsi) && IdentifierList(fs, k) && WellFormed(fs)
    requires forall i | 0 <= i < |fs| :: Regular(fs[i].feature)
    ensures DifferIgnoringCase(fs)
  {
    forall i, j | 0 <= i < j < |fs| ensures fs[i].feature.value.Folded() != fs[j].feature.value.Folded() {
      assert Lower(fs[i].feature.tag.s) == Lower(fs[j].feature.tag.s);
      NotMethods(fs[i].feature, k);
    }
  }

  lemma NotMethods(f: Feature, k: Kind)
    requires IsIdentifier(k) && f.kind == k && f.tag.Chars? && EqualsIgnoreCase(f.tag.s, TagOf(k)) && Regular(f)
    ensures !f.caseSensitive
  {
    assert |Lower(f.tag.s)| == |TagOf(k)| != |METHODS_TAG|;
  }

  lemma ClassifiedValueNeverEmpty(tag: string, value: AText, hasValue: bool, signed: bool)
    ensures var f := Classify(tag, value, hasValue, signed); IsIdentifier(f.kind) ==> f.value != Chars("")
  {
    if value.Str() != "" {
      DecodedNotEmpty(value.s, signed);
    }
  }

  /** Parsing never gives an IARI or ICSI a value that is empty and not null. */
  lemma IdentifierValueNeverEmpty(t: AText, signed: bool)
    ensures var f := Extract(t, signed); IsIdentifier(f.kind) ==> f.value != Chars("")
  {
    if t.Str() != "" {
      var i := IndexOf(t.s, '=');
      if i == |t.s| {
        ClassifiedValueNeverEmpty(Trim(t.s), Null, false, signed);
      } else {
        ClassifiedValueNeverEmpty(Trim(t.s[..i]), RightValue(t.s), true, signed);
      }
    }
  }

  lemma DecodedNotEmpty(s: string, signed: bool)
    requires s != ""
    ensures PC.Decode(s, signed) != ""
  {
    if s[0] == '%' {
      var end := if |s| < 3 then |s| else 3;
      assert |PC.DecodeEscape(s[1..end], signed)| > 0;
    }
  }

  // ---------------------------------------------------------------- the loops

  method ToString(fs: FeatureSet, signed: bool) returns (t: AText)
    requires AllPrintable(fs.features)
    ensures t == Printed(fs.features, signed)
  {
    if |fs.features| == 0 {
      return Null;
    }
    if |fs.features| == 1 {
      return Chars(PrintedFeature(fs.features[0].feature, signed));
    }
    var values := Values(fs.features, signed);
    var text := fs.features[0].feature.tag.Str() + "=" + "\"";
    ghost var head := text;
    text := text + values[0];
    JoinUpTo(values, 1);
    for i := 1 to |fs.features|
      invariant text == head + Join(values[..i], ',')
    {
      JoinSnoc(values[..i], values[i], ',');
      assert values[..i + 1] == values[..i] + [values[i]];
      AppendAssociative(head, Join(values[..i], ','), [',']);
      AppendAssociative(head, Join(values[..i], ',') + [','], values[i]);
      text := text + [','];
      text := text + values[i];
    }
    assert values[..|values|] == values;
    return Chars(text + "\"");
  }

  lemma JoinUpTo(values: seq<string>, n: nat)
    requires n == 1 <= |values|
    ensures Join(values[..n], ',') == values[0]
  {
    assert values[..1] == [values[0]];
  }

  method AddOnly(r: FeatureSet, f: Feature)
    requires r.features == []
    modifies r
    ensures r.features == AddAll(r.tag, [], [f])
  {
    AddFirst(r.tag, [], [f]);
    assert [f][1..] == [];
    var _ := r.AddFeature(f);
  }

  method AddTokens(r: FeatureSet, tokens: seq<string>, signed: bool)
    requires r.features == []
    modifies r
    ensures r.features == AddAll(r.tag, [], MadeAll(r.tag, tokens, signed))
  {
    ghost var gs := MadeAll(r.tag, tokens, signed);
    assert gs[0..] == gs;
    for k := 0 to |tokens|
      invariant AddAll(r.tag, r.features, gs[k..]) == AddAll(r.tag, [], gs)
    {
      var f := Made(r.tag, Chars(tokens[k]), signed);
      AddFirst(r.tag, r.features, gs[k..]);
      assert gs[k..][1..] == gs[k + 1..];
      var _ := r.AddFeature(f);
    }
  }

  /** Adds the features of the values behind the equals sign. */
  method AddValues(r: FeatureSet, value: AText, signed: bool)
    requires r.features == []
    modifies r
    ensures r.features == AddAll(r.tag, [], FeaturesOf(r.tag, value, signed))
  {
    if ',' in value.Str() {
      var tokens := Split(value.s, ',');
      AddTokens(r, tokens, signed);
    } else {
      var f := Made(r.tag, value, signed);
      AddOnly(r, f);
    }
  }

  /** The value behind the equals sign at `i`, without quotes. */
  function ValueBehind(name: string, i: nat): AText
    requires i < |name|
  {
    TrimDquot(if i + 1 == |name| then Null else Chars(name[i + 1..]))
  }

  method FromServiceIdentifier(name: string, signed: bool) returns (r: FeatureSet)
    ensures fresh(r) && r.tag == ParsedTag(name)
    ensures r.features == Parsed(name, signed)
  {
    var i := IndexOf(name, '=');
    r := new FeatureSet(Chars(name[..i]));
    if i == |name| {
      assert name[..i] == name;
      var f := Extract(Chars(name), signed);
      AddOnly(r, f);
    } else {
      var value := ValueBehind(name, i);
      AddValues(r, value, signed);
    }
  }
}
