/** Feature tags (section 9 of RFC 3840): what a feature is made of, and when two are equal. */
module Features {
  import opened Text
  import PC = PercentCoding

  /** A text that may be null. The null text and the empty text have the same length, and differ. */
  datatype AText = Null | Chars(s: string) {
    function Str(): string {
      if Null? then "" else s
    }

    function Folded(): AText {
      if Null? then Null else Chars(Lower(s))
    }
  }

  datatype Kind = NoKind | Boolean | Numeric | TokenNoBang | StringValue | Iari | Icsi

  datatype Feature = Feature(kind: Kind, caseSensitive: bool, tag: AText, value: AText)

  const IARI_TAG := "+g.3gpp.iari-ref"
  const ICSI_TAG := "+g.3gpp.icsi-ref"
  const METHODS_TAG := "methods"
  const STR_TRUE := "TRUE"
  const STR_FALSE := "FALSE"

  const BASE_TAGS: seq<string> := [
    "audio", "application", "data", "control", "video", "text", "automata", "class", "duplex", "mobility",
    "description", "events", "priority", METHODS_TAG, "extensions", "schemes", "actor", "isfocus", "language", "type"]

  // ---------------------------------------------------------------- equality

  predicate ValuesEqual(f: Feature, g: Feature) {
    var sensitive := f.caseSensitive;
    if sensitive then f.value == g.value else f.value.Folded() == g.value.Folded()
  }

  /** Boolean values, where an absent value stands for TRUE. */
  predicate BooleansEqual(f: Feature, g: Feature) {
    var a, b := f.value.Str(), g.value.Str();
    if a == "" && b == "" then
      true
    else if f.caseSensitive && g.caseSensitive then
      (a == "" && b == STR_TRUE) || (b == "" && a == STR_TRUE) || f.value == g.value
    else
      || (a == "" && EqualsIgnoreCase(b, STR_TRUE))
      || (b == "" && EqualsIgnoreCase(a, STR_TRUE))
      || f.value.Folded() == g.value.Folded()
  }

  predicate Equals(f: Feature, g: Feature) {
    && f.kind == g.kind
    && f.tag.Folded() == g.tag.Folded()
    && if f.kind == Boolean then BooleansEqual(f, g) else ValuesEqual(f, g)
  }

  /** Case sensitivity as the type and the tag alone decide it. */
  predicate Regular(f: Feature) {
    f.caseSensitive <==> (f.kind == StringValue || f.tag.Folded() == Chars(METHODS_TAG))
  }

  datatype Key = Key(kind: Kind, tag: AText, value: AText)

  /** The value of a feature, where an absent boolean is written out. */
  function Explicit(f: Feature): AText {
    if f.kind == Boolean then Chars(if f.value.Str() == "" then STR_TRUE else f.value.Str()) else f.value
  }

  /** What two equal features have in common. */
  function KeyOf(f: Feature): Key {
    Key(f.kind, f.tag.Folded(), if f.caseSensitive then Explicit(f) else Explicit(f).Folded())
  }

  lemma LowerTrue()
    ensures Lower("") == "" && Lower(STR_TRUE) == "true" && Lower("true") == "true"
  {
  }

  lemma LowerEmpty(s: string)
    ensures Lower(s) == "" <==> s == ""
  {
  }

  lemma SameSenseMeansSameKey(f: Feature, g: Feature)
    requires f.caseSensitive == g.caseSensitive
    ensures Equals(f, g) <==> KeyOf(f) == KeyOf(g)
  {
    LowerTrue();
    LowerEmpty(f.value.Str());
    LowerEmpty(g.value.Str());
  }

  /** On regular features, equality is the sameness of keys, hence an equivalence. */
  lemma EqualsIsSameKey(f: Feature, g: Feature)
    requires Regular(f) && Regular(g)
    ensures Equals(f, g) <==> KeyOf(f) == KeyOf(g)
  {
    if f.caseSensitive == g.caseSensitive {
      SameSenseMeansSameKey(f, g);
    }
  }

  lemma EqualsIsAnEquivalence(f: Feature, g: Feature, h: Feature)
    requires Regular(f) && Regular(g) && Regular(h)
    ensures Equals(f, f)
    ensures Equals(f, g) ==> Equals(g, f)
    ensures Equals(f, g) && Equals(g, h) ==> Equals(f, h)
  {
    EqualsIsSameKey(f, f);
    EqualsIsSameKey(f, g);
    EqualsIsSameKey(g, f);
    EqualsIsSameKey(g, h);
    EqualsIsSameKey(f, h);
  }

  /** Two features that are equal one way round only: one of them is compared with regard to case, the other
      without, and their values differ in case alone. */
  predicate OneWay(f: Feature, g: Feature) {
    && f.kind == g.kind != Boolean
    && f.tag.Folded() == g.tag.Folded()
    && f.caseSensitive != g.caseSensitive
    && f.value != g.value && f.value.Folded() == g.value.Folded()
  }

  /** Two different booleans that both equal a third, which is compared without regard to case. */
  predicate Bridged(f: Feature, g: Feature, h: Feature) {
    && f.kind == g.kind == h.kind == Boolean
    && f.tag.Folded() == g.tag.Folded() == h.tag.Folded()
    && f.caseSensitive && !g.caseSensitive && h.caseSensitive
    && Explicit(f) != Explicit(h)
    && Explicit(f).Folded() == Explicit(g).Folded() == Explicit(h).Folded()
  }

  /** Exactly which pairs the asymmetric reading of the flag splits. */
  lemma EqualsIsSymmetricIff(f: Feature, g: Feature)
    ensures Equals(f, g) == Equals(g, f) <==> !OneWay(f, g)
  {
    if f.caseSensitive == g.caseSensitive {
      SameSenseMeansSameKey(f, g);
      SameSenseMeansSameKey(g, f);
    }
  }

  /** Equality of booleans, by what they stand for. */
  lemma BooleansEqualIff(f: Feature, g: Feature)
    requires f.kind == g.kind == Boolean
    ensures BooleansEqual(f, g) <==>
            if f.caseSensitive && g.caseSensitive then Explicit(f) == Explicit(g)
            else Explicit(f).Folded() == Explicit(g).Folded()
  {
    LowerTrue();
    LowerEmpty(f.value.Str());
    LowerEmpty(g.value.Str());
  }

  lemma EqualsIsTransitiveIff(f: Feature, g: Feature, h: Feature)
    requires !OneWay(f, g) && !OneWay(g, h) && !OneWay(f, h)
    ensures (Equals(f, g) && Equals(g, h) ==> Equals(f, h)) <==> !Bridged(f, g, h)
  {
    if f.kind == g.kind == h.kind == Boolean {
      BooleansEqualIff(f, g);
      BooleansEqualIff(g, h);
      BooleansEqualIff(f, h);
    }
  }

  ghost predicate IsEquivalence(fs: set<Feature>) {
    && (forall f, g | f in fs && g in fs :: Equals(f, g) ==> Equals(g, f))
    && (forall f, g, h | f in fs && g in fs && h in fs :: Equals(f, g) && Equals(g, h) ==> Equals(f, h))
  }

  /** Exactly on which features equality is an equivalence. */
  lemma EqualsIsAnEquivalenceIff(fs: set<Feature>)
    ensures IsEquivalence(fs) <==>
            && (forall f, g | f in fs && g in fs :: !OneWay(f, g))
            && (forall f, g, h | f in fs && g in fs && h in fs :: !Bridged(f, g, h))
  {
    forall f, g | f in fs && g in fs ensures Equals(f, g) == Equals(g, f) <==> !OneWay(f, g) {
      EqualsIsSymmetricIff(f, g);
    }
    if forall f, g | f in fs && g in fs :: !OneWay(f, g) {
      forall f, g, h | f in fs && g in fs && h in fs
        ensures (Equals(f, g) && Equals(g, h) ==> Equals(f, h)) <==> !Bridged(f, g, h) {
        EqualsIsTransitiveIff(f, g, h);
      }
    }
  }

  /** Features whose flags follow from kind and tag, whichever way, are told apart by their keys. */
  ghost predicate SameFlags(fs: set<Feature>) {
    forall f, g | f in fs && g in fs && f.kind == g.kind && f.tag.Folded() == g.tag.Folded() ::
      f.caseSensitive == g.caseSensitive
  }

  lemma SameFlagsMakeAnEquivalence(fs: set<Feature>)
    requires SameFlags(fs)
    ensures IsEquivalence(fs)
    ensures forall f, g | f in fs && g in fs :: Equals(f, g) <==> KeyOf(f) == KeyOf(g)
  {
    EqualsIsAnEquivalenceIff(fs);
    forall f, g | f in fs && g in fs ensures Equals(f, g) <==> KeyOf(f) == KeyOf(g) {
      if f.caseSensitive == g.caseSensitive {
        SameSenseMeansSameKey(f, g);
      }
    }
  }

  /** An identifier in angle brackets and the same in small letters: equal one way round only. */
  lemma AnglesBreakSymmetry(tag: AText)
    ensures var f, g := Feature(Iari, false, tag, Chars("<a>")), Feature(Iari, true, tag, Chars("<A>"));
      Equals(f, g) && !Equals(g, f)
  {
    assert Lower("<a>")[1] == Lower("<A>")[1];
    assert Lower("<a>") == Lower("<A>");
    assert "<a>"[1] != "<A>"[1];
  }

  // ---------------------------------------------------------------- parsing

  predicate StartsWith(s: string, p: string) {
    p <= s
  }

  predicate EndsWith(s: string, p: string) {
    |p| <= |s| && s[|s| - |p|..] == p
  }

  predicate IsBaseTag(name: string) {
    var low := Lower(name);
    if StartsWith(low, "+") then false
    else if StartsWith(low, "sip.") then exists i | 0 <= i < |BASE_TAGS| :: EndsWith(low, BASE_TAGS[i])
    else low in BASE_TAGS
  }

  function StripPrefixInSipTree(name: string): AText {
    var i := IndexOf(name, '.');
    if i == |name| then Chars(name) else if i + 1 == |name| then Null else Chars(name[i + 1..])
  }

  /** The text without a pair of quotes around it. A lone quote gives the null text. */
  function TrimDquot(t: AText): AText {
    if t.Null? || !StartsWith(t.s, "\"") || !EndsWith(t.s, "\"") then t
    else if |t.s| == 1 then Null
    else Chars(t.s[1..|t.s| - 1])
  }

  predicate InAngles(t: AText) {
    t.Chars? && StartsWith(t.s, "<") && EndsWith(t.s, ">")
  }

  function KindOfValue(v: AText): Kind {
    if EqualsIgnoreCase(v.Str(), STR_TRUE) || EqualsIgnoreCase(v.Str(), STR_FALSE) then Boolean
    else if InAngles(v) then StringValue
    else if v.Chars? && (StartsWith(v.s, "!#") || StartsWith(v.s, "#")) then Numeric
    else TokenNoBang
  }

  function DecodeValue(v: AText, signed: bool): AText {
    if v.Str() == "" then Null else Chars(PC.Decode(v.s, signed))
  }

  /** The value to the right of the first equals sign. */
  function RightValue(s: string): AText {
    var i := IndexOf(s, '=');
    if i + 1 >= |s| then Null else TrimDquot(Chars(Trim(s[i + 1..])))
  }

  /** The feature made of a tag and a value, whose kind and flag come from the way they are written. */
  function Classify(tag: string, value: AText, hasValue: bool, signed: bool): Feature {
    var kind := if hasValue then KindOfValue(value) else Boolean;
    var sensitive := hasValue && InAngles(value);
    if IsBaseTag(tag) then
      var stripped := StripPrefixInSipTree(tag);
      Feature(kind, sensitive || stripped.Folded() == Chars(METHODS_TAG), stripped, value)
    else if EqualsIgnoreCase(tag, IARI_TAG) then
      Feature(Iari, sensitive, Chars(tag), DecodeValue(value, signed))
    else if EqualsIgnoreCase(tag, ICSI_TAG) then
      Feature(Icsi, sensitive, Chars(tag), DecodeValue(value, signed))
    else
      Feature(kind, sensitive || EqualsIgnoreCase(tag, METHODS_TAG), Chars(tag), value)
  }

  /** Parsing `tag` or `tag=value`. */
  function Extract(t: AText, signed: bool): Feature {
    if t.Str() == "" then
      Feature(NoKind, false, Null, Null)
    else
      var i := IndexOf(t.s, '=');
      if i == |t.s| then Classify(Trim(t.s), Null, false, signed)
      else Classify(Trim(t.s[..i]), RightValue(t.s), true, signed)
  }

  /** The feature for a tag and a value given apart. */
  function Made(tag: AText, value: AText, signed: bool): Feature {
    if value.Str() == "" then Extract(tag, signed)
    else Extract(Chars(tag.Str() + "=" + value.s), signed)
  }

  /** A parsed feature is regular unless it is an IARI or ICSI written in angle brackets. */
  lemma ClassifiedIsRegularIff(tag: string, value: AText, hasValue: bool, signed: bool)
    ensures var f := Classify(tag, value, hasValue, signed);
            Regular(f) <==> !((f.kind == Iari || f.kind == Icsi) && hasValue && InAngles(value))
  {
    var f := Classify(tag, value, hasValue, signed);
    LowerTags();
    if hasValue && InAngles(value) {
      assert Lower(value.s)[0] == '<';
    }
    if !IsBaseTag(tag) && (EqualsIgnoreCase(tag, IARI_TAG) || EqualsIgnoreCase(tag, ICSI_TAG)) {
      assert |Lower(tag)| == |IARI_TAG|;
      assert |METHODS_TAG| != |IARI_TAG|;
    }
  }

  lemma LowerTags()
    ensures Lower(METHODS_TAG) == METHODS_TAG
    ensures Lower(STR_TRUE)[0] == 't' && Lower(STR_FALSE)[0] == 'f'
  {
  }

  lemma ExtractedIsRegularIff(t: AText, signed: bool)
    ensures var f := Extract(t, signed);
            Regular(f) <==>
            !((f.kind == Iari || f.kind == Icsi) && IndexOf(t.Str(), '=') < |t.Str()| && InAngles(RightValue(t.s)))
  {
    if t.Str() != "" {
      var i := IndexOf(t.s, '=');
      if i == |t.s| {
        ClassifiedIsRegularIff(Trim(t.s), Null, false, signed);
      } else {
        ClassifiedIsRegularIff(Trim(t.s[..i]), RightValue(t.s), true, signed);
      }
    }
  }
}
