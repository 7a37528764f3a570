/** What a parsed feature is, read off its text, and which parsed features a set of that name turns away. */
module FeatureKinds {
  import opened Lists
  import opened Text
  import opened Features
  import opened FeatureSets
  import opened FeatureText
  import PC = PercentCoding

  // ---------------------------------------------------------------- the kind of a value

  /** The kind of a value: a boolean is written as such, ignoring case, a string stands in angle brackets, a number behind
      "#" or "!#", and everything else is a token. */
  lemma {:induction false} KindOfValueIff(v: string)
    ensures var k := KindOfValue(Chars(v));
      && (k == Boolean <==> Lower(v) == "true" || Lower(v) == "false")
      && (k == StringValue <==> |v| >= 2 && v[0] == '<' && v[|v| - 1] == '>')
      && (k == Numeric <==> (|v| >= 1 && v[0] == '#') || (|v| >= 2 && v[0] == '!' && v[1] == '#'))
      && k in {Boolean, StringValue, Numeric, TokenNoBang}
  {
    LowerTrue();
    LowerFalse();
    if v != "" {
      FirstLower(v);
    }
    assert StartsWith(v, "!#") <==> |v| >= 2 && v[0] == '!' && v[1] == '#';
    assert EndsWith(v, ">") <==> |v| >= 1 && v[|v| - 1] == '>';
  }

  lemma {:induction false} LowerFalse()
    ensures Lower(STR_FALSE) == "false" && Lower(STR_TRUE) == "true"
  {
  }

  lemma {:induction false} FirstLower(v: string)
    requires v != ""
    ensures v[0] in {'#', '!', '<'} ==> Lower(v)[0] == v[0]
  {
  }

  // ---------------------------------------------------------------- tags

  /** A tag of the sip tree: "sip." in front, and one of the base tags at the end. */
  predicate IsSipTag(tag: string) {
    && StartsWith(Lower(tag), "sip.")
    && exists i | 0 <= i < |BASE_TAGS| :: EndsWith(Lower(tag), BASE_TAGS[i])
  }

  lemma {:induction false} BaseTagsHaveNoDot(i: nat)
    requires i < |BASE_TAGS|
    ensures '.' !in BASE_TAGS[i] && BASE_TAGS[i] != "" && BASE_TAGS[i][0] != '+'
  {
  }

  lemma {:induction false} DotOfLower(s: string)
    ensures '.' in Lower(s) <==> '.' in s
  {
    forall i | 0 <= i < |s| ensures Lower(s)[i] == '.' <==> s[i] == '.' {
    }
    if '.' in s {
      var i :| 0 <= i < |s| && s[i] == '.';
      assert Lower(s)[i] == '.';
    }
  }

  /** A base tag loses its prefix exactly when it is a tag of the sip tree. */
  lemma {:induction false} StrippedIff(tag: string)
    requires IsBaseTag(tag)
    ensures if IsSipTag(tag) then |StripPrefixInSipTree(tag).Str()| < |tag| else StripPrefixInSipTree(tag) == Chars(tag)
  {
    DotOfLower(tag);
    if StartsWith(Lower(tag), "sip.") {
      assert Lower(tag)[3] == '.';
    } else {
      var i :| 0 <= i < |BASE_TAGS| && Lower(tag) == BASE_TAGS[i];
      BaseTagsHaveNoDot(i);
    }
  }

  lemma {:induction false} SipTagIsBase(tag: string)
    ensures IsSipTag(tag) ==> IsBaseTag(tag)
  {
    if IsSipTag(tag) {
      assert Lower(tag)[0] == "sip."[0] != "+"[0];
    }
  }

  lemma {:induction false} TrimLeftShorter(s: string)
    ensures TrimLeft(s) == s || |TrimLeft(s)| < |s|
    decreases |s|
  {
    if s != [] && IsSpace(s[0]) {
      TrimLeftShorter(s[1..]);
    }
  }

  lemma {:induction false} TrimRightShorter(s: string)
    ensures TrimRight(s) == s || |TrimRight(s)| < |s|
    decreases |s|
  {
    if s != [] && IsSpace(s[|s| - 1]) {
      TrimRightShorter(s[..|s| - 1]);
    }
  }

  lemma {:induction false} TrimShorter(s: string)
    ensures Trim(s) == s || |Trim(s)| < |s|
  {
    TrimLeftShorter(s);
    TrimRightShorter(TrimLeft(s));
  }

  /** The tag of a feature read from the text of a tag is that tag when no blank is trimmed and no prefix stripped, and a
      shorter one otherwise. */
  lemma {:induction false} ClassifiedTag(tag: string, value: AText, hasValue: bool, signed: bool)
    ensures var f := Classify(Trim(tag), value, hasValue, signed);
      if Trim(tag) == tag && !IsSipTag(tag) then f.tag == Chars(tag) else |f.tag.Str()| < |tag|
  {
    TrimShorter(tag);
    var t := Trim(tag);
    SipTagIsBase(t);
    if IsBaseTag(t) {
      StrippedIff(t);
    }
  }

  lemma {:induction false} DotOfSip(tag: string)
    requires StartsWith(Lower(tag), "sip.")
    ensures |tag| >= 4 && IndexOf(tag, '.') == 3
  {
    var low := Lower(tag);
    assert low[0] == 's' && low[1] == 'i' && low[2] == 'p' && low[3] == '.';
    assert ToLower(tag[0]) != '.' && ToLower(tag[1]) != '.' && ToLower(tag[2]) != '.' && ToLower(tag[3]) == '.';
    assert tag[..3] == [tag[0], tag[1], tag[2]];
    assert tag == tag[..3] + ['.'] + tag[4..];
    IndexOfPrefix(tag[..3], '.', tag[4..]);
  }

  lemma {:induction false} StrippedOfSipTag(tag: string)
    requires IsSipTag(tag)
    ensures |tag| > 4 && StripPrefixInSipTree(tag) == Chars(tag[4..])
  {
    DotOfSip(tag);
    var low := Lower(tag);
    var b :| 0 <= b < |BASE_TAGS| && EndsWith(low, BASE_TAGS[b]);
    BaseTagsHaveNoDot(b);
    assert low[|low| - 1] == BASE_TAGS[b][|BASE_TAGS[b]| - 1] != '.';
    assert low[3] == '.';
  }

  lemma {:induction false} MadeByClassifying(tag: string, e: string, signed: bool)
    requires '=' !in tag && Trim(tag) == tag && e != "" && NoSpace(e) && '"' !in e
    ensures Made(Chars(tag), Chars(e), signed) == Classify(tag, Chars(e), true, signed)
  {
    SplitAtEqual(tag, e);
    TrimNoSpace(e);
    assert e[0] in e;
    assert RightValue(tag + "=" + e) == Chars(e);
  }

  predicate IsIdentifierTag(tag: string) {
    EqualsIgnoreCase(tag, "+g.3gpp.iari-ref") || EqualsIgnoreCase(tag, "+g.3gpp.icsi-ref")
  }

  /** An IARI or ICSI is made by its tag, with the value decoded. */
  lemma {:induction false} IdentifierIs(tag: string, e: string, signed: bool)
    requires IsIdentifierTag(tag) && '=' !in tag && Trim(tag) == tag && e != "" && NoSpace(e) && '"' !in e
    ensures Made(Chars(tag), Chars(e), signed)
         == Feature(if EqualsIgnoreCase(tag, "+g.3gpp.iari-ref") then Iari else Icsi, InAngles(Chars(e)),
                    Chars(tag), Chars(PC.Decode(e, signed)))
  {
    MadeByClassifying(tag, e, signed);
    IdentifierIsNoBaseTag(tag);
  }

  lemma {:induction false} MethodsIff(t: string)
    ensures Chars(t).Folded() == Chars(METHODS_TAG) <==> EqualsIgnoreCase(t, "methods")
  {
    LowerTags();
  }

  lemma {:induction false} ClassifyBase(tag: string, value: AText, signed: bool)
    requires IsBaseTag(tag)
    ensures var t := if IsSipTag(tag) then tag[4..] else tag;
      Classify(tag, value, true, signed)
      == Feature(KindOfValue(value), InAngles(value) || EqualsIgnoreCase(t, "methods"), Chars(t), value)
  {
    MethodsIff(if IsSipTag(tag) then tag[4..] else tag);
    StrippedIff(tag);
    if IsSipTag(tag) {
      StrippedOfSipTag(tag);
    }
  }

  /** Any other feature is of the kind of its value; angle brackets or the tag "methods" make it case sensitive, and a tag
      of the sip tree loses its prefix. */
  lemma {:induction false} OtherFeatureIs(tag: string, e: string, signed: bool)
    requires !IsIdentifierTag(tag) && '=' !in tag && Trim(tag) == tag && e != "" && NoSpace(e) && '"' !in e
    ensures var t := if IsSipTag(tag) then tag[4..] else tag;
      Made(Chars(tag), Chars(e), signed)
      == Feature(KindOfValue(Chars(e)), InAngles(Chars(e)) || EqualsIgnoreCase(t, "methods"), Chars(t), Chars(e))
  {
    MadeByClassifying(tag, e, signed);
    SipTagIsBase(tag);
    if IsBaseTag(tag) {
      ClassifyBase(tag, Chars(e), signed);
    }
  }

  lemma {:induction false} IdentifierIsNoBaseTag(tag: string)
    requires IsIdentifierTag(tag)
    ensures !IsBaseTag(tag)
  {
    assert Lower("+g.3gpp.iari-ref")[0] == Lower("+g.3gpp.icsi-ref")[0] == '+';
    assert Lower(tag)[0] == '+';
  }

  lemma {:induction false} FoldedIff(tag: string, a: AText)
    ensures a == Chars(tag) ==> Chars(tag).Folded() == a.Folded()
    ensures |a.Str()| < |tag| ==> Chars(tag).Folded() != a.Folded()
    ensures a.Null? ==> Chars(tag).Folded() != a.Folded()
  {
  }

  /** A feature made of a tag and a value keeps the tag exactly when one of them is there, no blank surrounds the tag, and
      it is not of the sip tree. */
  lemma {:induction false} TagIsKeptIff(tag: string, v: AText, signed: bool)
    requires '=' !in tag
    ensures var f := Made(Chars(tag), v, signed);
      Chars(tag).Folded() == f.tag.Folded()
      <==> (tag != "" || v.Str() != "") && Trim(tag) == tag && !IsSipTag(tag)
  {
    var f := Made(Chars(tag), v, signed);
    FoldedIff(tag, f.tag);
    if v.Str() != "" {
      SplitAtEqual(tag, v.s);
      ClassifiedTag(tag, RightValue(tag + "=" + v.s), true, signed);
    } else if tag != "" {
      ClassifiedTag(tag, Null, false, signed);
    }
  }

  // ---------------------------------------------------------------- one feature there and back

  /** A feature as it can have been made of a tag that keeps its name and a value of its own: not an IARI or ICSI. */
  predicate IsNatural(f: Feature, tag: string, e: string) {
    && f == Feature(KindOfValue(Chars(e)), InAngles(Chars(e)) || EqualsIgnoreCase(tag, "methods"), Chars(tag), Chars(e))
    && !IsIdentifierTag(tag) && !IsSipTag(tag) && '=' !in tag && tag != "" && Trim(tag) == tag
    && e != "" && NoSpace(e) && '"' !in e
  }

  lemma {:induction false} ExtractOfText(tag: string, v: string, signed: bool)
    requires '=' !in tag && Trim(tag) == tag && v != ""
    ensures Extract(Chars(tag + "=" + v), signed) == Classify(tag, TrimDquot(Chars(Trim(v))), true, signed)
  {
    SplitAtEqual(tag, v);
  }

  lemma {:induction false} Unquoted(e: string)
    requires e != "" && NoSpace(e)
    ensures TrimDquot(Chars(Trim("\"" + e + "\""))) == Chars(e)
  {
    var v := "\"" + e + "\"";
    assert NoSpace(v);
    TrimNoSpace(v);
    assert v[1..|v| - 1] == e;
  }

  lemma {:induction false} QuotedText(tag: string, e: string)
    ensures tag + "=" + "\"" + e + "\"" == tag + "=" + ("\"" + e + "\"")
  {
    AppendAssociative(tag + "=", "\"", e);
    AppendAssociative(tag + "=", "\"" + e, "\"");
  }

  lemma {:induction false} QuotedValue(tag: string, e: string, signed: bool)
    requires '=' !in tag && Trim(tag) == tag && e != "" && NoSpace(e) && '"' !in e
    ensures Extract(Chars(tag + "=" + "\"" + e + "\""), signed) == Made(Chars(tag), Chars(e), signed)
  {
    MadeByClassifying(tag, e, signed);
    Unquoted(e);
    ExtractOfText(tag, "\"" + e + "\"", signed);
    QuotedText(tag, e);
  }

  lemma {:induction false} PrintedNatural(f: Feature, tag: string, e: string, signed: bool)
    requires IsNatural(f, tag, e)
    ensures Printable(f)
    ensures PrintedFeature(f, signed) == if f.kind == Boolean then tag else tag + "=" + "\"" + e + "\""
  {
    KindOfValueIff(e);
  }

  /** A feature of any other kind than boolean is printed with its value and read back as it was. */
  lemma {:induction false} OtherFeatureRoundTrip(f: Feature, tag: string, e: string, signed: bool)
    requires IsNatural(f, tag, e) && f.kind != Boolean
    ensures Printable(f) && Extract(Chars(PrintedFeature(f, signed)), signed) == f
  {
    PrintedNatural(f, tag, e, signed);
    QuotedValue(tag, e, signed);
    OtherFeatureIs(tag, e, signed);
  }

  lemma {:induction false} TagAlone(tag: string, signed: bool)
    requires '=' !in tag && tag != "" && Trim(tag) == tag && !IsIdentifierTag(tag) && !IsSipTag(tag)
    ensures Extract(Chars(tag), signed) == Feature(Boolean, EqualsIgnoreCase(tag, "methods"), Chars(tag), Null)
  {
    assert IndexOf(tag, '=') == |tag|;
    MethodsIff(tag);
    if IsBaseTag(tag) {
      StrippedIff(tag);
    }
  }

  /** A boolean loses its value when it is printed: read back, it equals what it was exactly when it was true, so that a
      false one turns into a true one. For the tag "methods" the case of the value counts. */
  lemma {:induction false} BooleanRoundTripIff(f: Feature, tag: string, e: string, signed: bool)
    requires IsNatural(f, tag, e) && f.kind == Boolean
    ensures Printable(f) && PrintedFeature(f, signed) == tag
    ensures Equals(Extract(Chars(tag), signed), f)
            <==> if EqualsIgnoreCase(tag, "methods") then e == "TRUE" else EqualsIgnoreCase(e, "TRUE")
  {
    PrintedNatural(f, tag, e, signed);
    TagAlone(tag, signed);
    KindOfValueIff(e);
  }

  // ---------------------------------------------------------------- sets parsed from a name

  /** What is behind the equals sign is split at commas, once a pair of quotes around all of it is gone. */
  lemma {:induction false} ParsedValuesAre(tag: string, v: string, signed: bool)
    requires '=' !in tag
    ensures var quoted := |v| >= 2 && v[0] == '"' && v[|v| - 1] == '"';
      var inner := if quoted then v[1..|v| - 1] else v;
      v != "\"" ==>
        ParsedFeatures(tag + "=" + v, signed)
        == if ',' in inner then MadeAll(Chars(tag), Split(inner, ','), signed) else [Made(Chars(tag), Chars(inner), signed)]
  {
    SplitAtEqual(tag, v);
    assert StartsWith(v, "\"") <==> v != "" && v[0] == '"';
    assert EndsWith(v, "\"") <==> v != "" && v[|v| - 1] == '"';
    assert Made(Chars(tag), Null, signed) == Made(Chars(tag), Chars(""), signed);
  }

  /** The text in front of the first equals sign. */
  function TagText(name: string): string {
    name[..IndexOf(name, '=')]
  }

  /** The texts of the values: those between commas, or the one value without quotes; empty without an equals sign. */
  function ValueTexts(name: string): (r: seq<string>)
    ensures r != []
  {
    var i := IndexOf(name, '=');
    if i == |name| then [""]
    else
      var v := ValueBehind(name, i);
      if ',' in v.Str() then Split(v.s, ',') else [v.Str()]
  }

  lemma {:induction false} ParsedAsMade(name: string, signed: bool)
    ensures var gs := ParsedFeatures(name, signed);
      && |gs| == |ValueTexts(name)|
      && forall k | 0 <= k < |gs| :: gs[k] == Made(Chars(TagText(name)), Chars(ValueTexts(name)[k]), signed)
  {
    var i := IndexOf(name, '=');
    if i == |name| {
      assert TagText(name) == name;
    } else if ValueBehind(name, i).Null? {
      assert Made(Chars(TagText(name)), Null, signed) == Made(Chars(TagText(name)), Chars(""), signed);
    }
  }

  /** Adding features to a set leaves it empty exactly when none has its tag. */
  lemma {:induction false} AddAllEmptyIff(tag: AText, fs: seq<Listed>, gs: seq<Feature>)
    ensures AddAll(tag, fs, gs) == []
            <==> fs == [] && forall k | 0 <= k < |gs| :: tag.Folded() != gs[k].tag.Folded()
    decreases gs
  {
    if gs != [] {
      AddFirst(tag, fs, gs);
      AddListsIff(tag, fs, gs[0]);
      AddAllEmptyIff(tag, After(tag, fs, Add(gs[0])), gs[1..]);
      assert forall k | 1 <= k < |gs| :: gs[k] == gs[1..][k - 1];
    }
  }

  /** The set parsed from a name is empty exactly when its tag has blanks around it, is of the sip tree, or is empty with
      empty values: the features then have another tag than the set. */
  lemma {:induction false} ParsedIsEmptyIff(name: string, signed: bool)
    ensures var tag := TagText(name);
      Parsed(name, signed) == []
      <==> Trim(tag) != tag || IsSipTag(tag)
           || (tag == "" && forall k | 0 <= k < |ValueTexts(name)| :: ValueTexts(name)[k] == "")
  {
    var tag, gs := TagText(name), ParsedFeatures(name, signed);
    ParsedAsMade(name, signed);
    AddAllEmptyIff(Chars(tag), [], gs);
    forall k | 0 <= k < |gs|
      ensures Chars(tag).Folded() == gs[k].tag.Folded()
              <==> (tag != "" || ValueTexts(name)[k] != "") && Trim(tag) == tag && !IsSipTag(tag) {
      TagIsKeptIff(tag, Chars(ValueTexts(name)[k]), signed);
    }
    if Trim(tag) == tag && !IsSipTag(tag) && tag != "" {
      assert Chars(tag).Folded() == gs[0].tag.Folded();
    }
  }

  /** So the tags of the sip tree cannot be used: the set parsed from "sip.audio" is empty. */
  lemma {:induction false} SipAudioIsLost(signed: bool)
    ensures Parsed("sip.audio", signed) == []
  {
    var name := "sip.audio";
    assert '=' !in name;
    assert name[..|name|] == name;
    SipAudioIsASipTag();
    ParsedIsEmptyIff(name, signed);
  }

  lemma {:induction false} SipAudioIsASipTag()
    ensures IsSipTag("sip.audio")
  {
    assert Lower("sip.audio") == "sip.audio";
    assert "sip.audio"[4..] == BASE_TAGS[0];
  }
}
