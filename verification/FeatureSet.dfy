/** The reference-counted list of features of one tag, and the multiset it stands for. */
module FeatureSets {
  import opened Lists
  import opened Text
  import opened Features

  /** A feature in the list, with the references the set holds to it. */
  datatype Listed = Listed(feature: Feature, refs: int)

  datatype Outcome = OpFail | OpAdd | OpAddRef | OpRemove | OpRemoveRef

  function Added(fs: seq<Listed>, f: Feature): seq<Listed> {
    if fs == [] then [Listed(f, 1)]
    else if Equals(fs[0].feature, f) then [Listed(fs[0].feature, fs[0].refs + 1)] + fs[1..]
    else [fs[0]] + Added(fs[1..], f)
  }

  function Removed(fs: seq<Listed>, f: Feature): seq<Listed> {
    if fs == [] then []
    else if Equals(fs[0].feature, f) then
      (if fs[0].refs > 1 then [Listed(fs[0].feature, fs[0].refs - 1)] else []) + fs[1..]
    else [fs[0]] + Removed(fs[1..], f)
  }

  /** The index of the first listed feature equal to `f`, or the length. */
  function Position(fs: seq<Listed>, f: Feature): (i: nat)
    ensures i <= |fs|
    ensures i < |fs| ==> Equals(fs[i].feature, f)
    ensures forall j | 0 <= j < i :: !Equals(fs[j].feature, f)
  {
    if fs == [] || Equals(fs[0].feature, f) then 0 else Position(fs[1..], f) + 1
  }

  lemma {:induction false} AddedAt(fs: seq<Listed>, f: Feature)
    ensures var i := Position(fs, f);
            Added(fs, f) == if i == |fs| then fs + [Listed(f, 1)]
                            else fs[i := Listed(fs[i].feature, fs[i].refs + 1)]
  {
    if fs != [] && !Equals(fs[0].feature, f) {
      AddedAt(fs[1..], f);
      assert fs == [fs[0]] + fs[1..];
    }
  }

  lemma {:induction false} RemovedAt(fs: seq<Listed>, f: Feature)
    ensures var i := Position(fs, f);
            Removed(fs, f) == if i == |fs| then fs
                              else if fs[i].refs > 1 then fs[i := Listed(fs[i].feature, fs[i].refs - 1)]
                              else fs[..i] + fs[i + 1..]
  {
    if fs != [] && !Equals(fs[0].feature, f) {
      RemovedAt(fs[1..], f);
      if Position(fs[1..], f) < |fs| - 1 {
        RemovedBehind(fs[0], fs[1..], f);
      }
      assert fs == [fs[0]] + fs[1..];
    }
  }

  lemma {:induction false} RemovedBehind(first: Listed, fs: seq<Listed>, f: Feature)
    requires Position(fs, f) < |fs|
    ensures var i := Position(fs, f);
            var all := [first] + fs;
            && [first] + fs[i := Listed(fs[i].feature, fs[i].refs - 1)]
               == all[i + 1 := Listed(all[i + 1].feature, all[i + 1].refs - 1)]
            && [first] + (fs[..i] + fs[i + 1..]) == all[..i + 1] + all[i + 2..]
  {
  }

  // ---------------------------------------------------------------- references held

  /** The references held to the first listed feature equal to `f`. */
  function Held(fs: seq<Listed>, f: Feature): int {
    var i := Position(fs, f);
    if i == |fs| then 0 else fs[i].refs
  }

  /** No two listed features are equal, and every one of them is referred to. */
  predicate WellFormed(fs: seq<Listed>) {
    && (forall i | 0 <= i < |fs| :: fs[i].refs >= 1)
    && (forall i, j | 0 <= i < |fs| && 0 <= j < |fs| && i != j :: !Equals(fs[i].feature, fs[j].feature))
  }

  /** The listed features are among the given ones. */
  ghost predicate ListedFrom(fs: seq<Listed>, among: set<Feature>) {
    forall i | 0 <= i < |fs| :: fs[i].feature in among
  }

  /** Where equality is an equivalence, an equal listed feature is the only one. */
  lemma {:induction false} HeldAt(fs: seq<Listed>, among: set<Feature>, f: Feature, i: nat)
    requires WellFormed(fs) && ListedFrom(fs, among) && IsEquivalence(among) && f in among
    requires i < |fs| && Equals(fs[i].feature, f)
    ensures Held(fs, f) == fs[i].refs && Position(fs, f) == i
  {
    var p := Position(fs, f);
    assert Equals(fs[p].feature, f) && Equals(f, fs[i].feature);
  }

  lemma {:induction false} AddedIsWellFormed(fs: seq<Listed>, among: set<Feature>, g: Feature)
    requires WellFormed(fs) && ListedFrom(fs, among) && IsEquivalence(among) && g in among
    ensures WellFormed(Added(fs, g)) && ListedFrom(Added(fs, g), among)
  {
    AddedAt(fs, g);
  }

  /** The list with another number of references at one place. */
  function WithRefs(fs: seq<Listed>, i: nat, n: int): seq<Listed>
    requires i < |fs|
  {
    fs[i := Listed(fs[i].feature, n)]
  }

  lemma {:induction false} HeldWithRefs(fs: seq<Listed>, i: nat, n: int, f: Feature)
    requires i < |fs|
    ensures Position(WithRefs(fs, i, n), f) == Position(fs, f)
    ensures Held(WithRefs(fs, i, n), f) == if Position(fs, f) == i then n else Held(fs, f)
  {
    var after := WithRefs(fs, i, n);
    forall j | 0 <= j < |fs| ensures after[j].feature == fs[j].feature {
    }
    var p, q := Position(fs, f), Position(after, f);
    assert p < |fs| ==> Equals(after[p].feature, f);
    assert q < |fs| ==> Equals(fs[q].feature, f);
  }

  /** The first features equal to `f` and to `g` are the same one exactly when `g` equals `f`. */
  lemma {:induction false} SamePositionIff(fs: seq<Listed>, among: set<Feature>, g: Feature, f: Feature)
    requires WellFormed(fs) && ListedFrom(fs, among) && IsEquivalence(among) && g in among && f in among
    requires Position(fs, g) < |fs|
    ensures Position(fs, f) == Position(fs, g) <==> Equals(g, f)
  {
    var i, p := Position(fs, g), Position(fs, f);
    if Equals(g, f) {
      HeldAt(fs, among, f, i);
    } else {
      assert Equals(g, fs[i].feature);
    }
  }

  lemma {:induction false} HeldAfterAdd(fs: seq<Listed>, among: set<Feature>, g: Feature, f: Feature)
    requires WellFormed(fs) && ListedFrom(fs, among) && IsEquivalence(among) && g in among && f in among
    ensures Held(Added(fs, g), f) == Held(fs, f) + if Equals(g, f) then 1 else 0
  {
    AddedAt(fs, g);
    var i := Position(fs, g);
    if i < |fs| {
      SamePositionIff(fs, among, g, f);
      HeldWithRefs(fs, i, fs[i].refs + 1, f);
    } else {
      HeldAfterAppend(fs, among, g, f);
    }
  }

  lemma {:induction false} HeldAfterAppend(fs: seq<Listed>, among: set<Feature>, g: Feature, f: Feature)
    requires WellFormed(fs) && ListedFrom(fs, among) && IsEquivalence(among) && g in among && f in among
    requires Position(fs, g) == |fs|
    ensures Held(fs + [Listed(g, 1)], f) == Held(fs, f) + if Equals(g, f) then 1 else 0
  {
    var after := fs + [Listed(g, 1)];
    var p, q := Position(fs, f), Position(after, f);
    if p < |fs| {
      assert after[p] == fs[p];
      assert q == p;
      var x := fs[p].feature;
      assert Equals(g, f) ==> Equals(f, g);
      assert Equals(f, g) ==> Equals(x, g);
    } else {
      assert after[|fs|].feature == g;
      assert forall j | 0 <= j < |fs| :: after[j] == fs[j];
    }
  }

  /** The list without one of its entries. */
  function Dropped(fs: seq<Listed>, i: nat): seq<Listed>
    requires i < |fs|
  {
    fs[..i] + fs[i + 1..]
  }

  lemma {:induction false} DroppedIsWellFormed(fs: seq<Listed>, i: nat)
    requires WellFormed(fs) && i < |fs|
    ensures WellFormed(Dropped(fs, i))
  {
    var after := Dropped(fs, i);
    forall j | 0 <= j < |after| ensures after[j] == fs[if j < i then j else j + 1] {
    }
  }

  lemma {:induction false} RemovedIsWellFormed(fs: seq<Listed>, f: Feature)
    requires WellFormed(fs)
    ensures WellFormed(Removed(fs, f))
    ensures forall i | 0 <= i < |Removed(fs, f)| ::
              exists j | 0 <= j < |fs| :: Removed(fs, f)[i].feature == fs[j].feature
  {
    RemovedAt(fs, f);
    var i := Position(fs, f);
    if i < |fs| && fs[i].refs <= 1 {
      DroppedIsWellFormed(fs, i);
    }
  }

  lemma {:induction false} HeldAfterDrop(fs: seq<Listed>, among: set<Feature>, i: nat, f: Feature)
    requires WellFormed(fs) && ListedFrom(fs, among) && IsEquivalence(among) && f in among && i < |fs|
    ensures Held(Dropped(fs, i), f) == if Equals(fs[i].feature, f) then 0 else Held(fs, f)
  {
    DroppedIsWellFormed(fs, i);
    var after := Dropped(fs, i);
    var p := Position(fs, f);
    forall j | 0 <= j < |after| ensures after[j] == fs[if j < i then j else j + 1] {
    }
    var x := fs[i].feature;
    if Equals(x, f) {
      HeldAt(fs, among, f, i);
      forall j | 0 <= j < |after| ensures !Equals(after[j].feature, f) {
        var g := after[j].feature;
        assert Equals(g, f) ==> Equals(f, g);
        assert Equals(f, g) ==> Equals(x, g);
      }
    } else if p < |fs| {
      HeldAt(after, among, f, if p < i then p else p - 1);
    } else {
      assert Position(after, f) == |after|;
    }
  }

  lemma {:induction false} HeldAfterRemove(fs: seq<Listed>, among: set<Feature>, g: Feature, f: Feature)
    requires WellFormed(fs) && ListedFrom(fs, among) && IsEquivalence(among) && g in among && f in among
    ensures Held(Removed(fs, g), f) == Held(fs, f) - if Equals(g, f) && Held(fs, f) > 0 then 1 else 0
  {
    RemovedAt(fs, g);
    var i, p := Position(fs, g), Position(fs, f);
    if i == |fs| {
      assert p < |fs| ==> Equals(fs[p].feature, f) && !Equals(fs[p].feature, g);
    } else {
      SamePositionIff(fs, among, g, f);
      if fs[i].refs > 1 {
        HeldWithRefs(fs, i, fs[i].refs - 1, f);
      } else {
        HeldAfterDrop(fs, among, i, f);
        assert Equals(fs[i].feature, f) <==> Equals(g, f);
      }
    }
  }

  // ---------------------------------------------------------------- runs

  datatype Call = Add(f: Feature) | Remove(f: Feature)

  /** Features of another tag, ignoring case, are turned away. */
  function After(tag: AText, fs: seq<Listed>, c: Call): seq<Listed> {
    if tag.Folded() != c.f.tag.Folded() then fs
    else match c
      case Add(f) => Added(fs, f)
      case Remove(f) => Removed(fs, f)
  }

  function Run(tag: AText, fs: seq<Listed>, calls: seq<Call>): seq<Listed>
    decreases calls
  {
    if calls == [] then fs else Run(tag, After(tag, fs, calls[0]), calls[1..])
  }

  /** What one call does to the number of references to the features equal to `f`. */
  function Counted(n: int, tag: AText, c: Call, f: Feature): int {
    if tag.Folded() != c.f.tag.Folded() || !Equals(c.f, f) then n
    else if c.Add? then n + 1
    else if n > 0 then n - 1
    else n
  }

  /** The additions of features equal to `f`, less the removals that find one. */
  function Balance(n: int, tag: AText, calls: seq<Call>, f: Feature): int
    decreases calls
  {
    if calls == [] then n else Balance(Counted(n, tag, calls[0], f), tag, calls[1..], f)
  }

  /** The given features with the tag of the set. */
  function AcceptedOf(tag: AText, among: set<Feature>): set<Feature> {
    set f | f in among && tag.Folded() == f.tag.Folded()
  }

  ghost predicate CallsFrom(calls: seq<Call>, among: set<Feature>) {
    forall i | 0 <= i < |calls| :: calls[i].f in among
  }

  lemma CallKeepsCount(tag: AText, fs: seq<Listed>, among: set<Feature>, c: Call)
    requires c.f in among && IsEquivalence(AcceptedOf(tag, among))
    requires WellFormed(fs) && ListedFrom(fs, AcceptedOf(tag, among))
    ensures WellFormed(After(tag, fs, c)) && ListedFrom(After(tag, fs, c), AcceptedOf(tag, among))
    ensures forall f | f in AcceptedOf(tag, among) ::
              Held(After(tag, fs, c), f) == Counted(Held(fs, f), tag, c, f)
  {
    var accepted := AcceptedOf(tag, among);
    if tag.Folded() == c.f.tag.Folded() {
      AddedIsWellFormed(fs, accepted, c.f);
      RemovedIsWellFormed(fs, c.f);
      forall f | f in accepted ensures Held(After(tag, fs, c), f) == Counted(Held(fs, f), tag, c, f) {
        HeldAfterAdd(fs, accepted, c.f, f);
        HeldAfterRemove(fs, accepted, c.f, f);
      }
    }
  }

  /** From every well-formed list, over features on which equality is an equivalence: no two listed features are
      equal, each is referred to, and the references are the additions less the removals that find something. */
  lemma {:induction false} FeatureSetIsAMultiset(tag: AText, fs: seq<Listed>, among: set<Feature>, calls: seq<Call>)
    requires CallsFrom(calls, among) && IsEquivalence(AcceptedOf(tag, among))
    requires WellFormed(fs) && ListedFrom(fs, AcceptedOf(tag, among))
    ensures WellFormed(Run(tag, fs, calls)) && ListedFrom(Run(tag, fs, calls), AcceptedOf(tag, among))
    ensures forall f | f in AcceptedOf(tag, among) ::
              Held(Run(tag, fs, calls), f) == Balance(Held(fs, f), tag, calls, f)
    decreases calls
  {
    if calls != [] {
      CallKeepsCount(tag, fs, among, calls[0]);
      FeatureSetIsAMultiset(tag, After(tag, fs, calls[0]), among, calls[1..]);
    }
  }

  /** The run from the empty set lists no two equal features, and counts their references right. */
  ghost predicate CountsRight(tag: AText, among: set<Feature>, calls: seq<Call>) {
    var fs := Run(tag, [], calls);
    WellFormed(fs) && forall f | f in AcceptedOf(tag, among) :: Held(fs, f) == Balance(0, tag, calls, f)
  }

  lemma RunTwo(tag: AText, f: Feature, g: Feature)
    requires tag.Folded() == f.tag.Folded() && tag.Folded() == g.tag.Folded()
    ensures Run(tag, [], [Add(f), Add(g)])
            == if Equals(f, g) then [Listed(f, 2)] else [Listed(f, 1), Listed(g, 1)]
  {
    var fs := [Listed(f, 1)];
    assert [Add(f), Add(g)][1..] == [Add(g)] && [Add(g)][1..] == [];
    assert After(tag, [], Add(f)) == fs;
    assert Run(tag, Added(fs, g), []) == Added(fs, g);
    assert Run(tag, fs, [Add(g)]) == Run(tag, After(tag, fs, Add(g)), []);
    AddedAt(fs, g);
  }

  lemma BalanceOfTwo(tag: AText, f: Feature, g: Feature, h: Feature)
    requires tag.Folded() == f.tag.Folded() && tag.Folded() == g.tag.Folded()
    ensures Balance(0, tag, [Add(f), Add(g)], h) == (if Equals(f, h) then 1 else 0) + if Equals(g, h) then 1 else 0
  {
    assert [Add(f), Add(g)][1..] == [Add(g)] && [Add(g)][1..] == [];
    var n := Counted(0, tag, Add(f), h);
    assert Balance(n, tag, [Add(g)], h) == Balance(Counted(n, tag, Add(g), h), tag, [], h);
  }

  /** A feature that two unequal ones equal, both of them listed, is counted wrong. */
  lemma TwoThatEqualAThird(tag: AText, among: set<Feature>, f: Feature, h: Feature, g: Feature)
    requires {f, h, g} <= AcceptedOf(tag, among)
    requires !Equals(f, h) && Equals(f, g) && Equals(h, g)
    ensures CallsFrom([Add(f), Add(h)], among) && !CountsRight(tag, among, [Add(f), Add(h)])
  {
    RunTwo(tag, f, h);
    BalanceOfTwo(tag, f, h, g);
    assert Position([Listed(f, 1), Listed(h, 1)], g) == 0;
  }

  /** Every run over some features counts right exactly when equality is an equivalence on those of them that
      the set accepts. EqualsIsAnEquivalenceIff says when that is. */
  lemma FeatureSetIsAMultisetIff(tag: AText, among: set<Feature>)
    ensures (forall calls | CallsFrom(calls, among) :: CountsRight(tag, among, calls))
            <==> IsEquivalence(AcceptedOf(tag, among))
  {
    var accepted := AcceptedOf(tag, among);
    if IsEquivalence(accepted) {
      forall calls | CallsFrom(calls, among) ensures CountsRight(tag, among, calls) {
        FeatureSetIsAMultiset(tag, [], among, calls);
      }
    } else if f, g :| f in accepted && g in accepted && Equals(f, g) && !Equals(g, f) {
      TwoThatEqualAThird(tag, among, g, f, g);
    } else {
      var f, g, h :| f in accepted && g in accepted && h in accepted && Equals(f, g) && Equals(g, h) && !Equals(f, h);
      TwoThatEqualAThird(tag, among, f, h, g);
    }
  }

  /** Features with the same kind and tag and different flags: equality one way round makes the list depend on
      the order of the calls. Such are an IARI written in angle brackets and the same in other letters without. */
  lemma IrregularFeaturesDependOnOrder(f: Feature, g: Feature)
    requires Equals(f, g) && !Equals(g, f)
    ensures |Run(f.tag, [], [Add(f), Add(g)])| == 1 && |Run(f.tag, [], [Add(g), Add(f)])| == 2
  {
    RunTwo(f.tag, f, g);
    RunTwo(f.tag, g, f);
  }

  // ---------------------------------------------------------------- tags

  lemma {:induction false} CallKeepsTag(tag: AText, fs: seq<Listed>, c: Call)
    requires forall i | 0 <= i < |fs| :: fs[i].feature.tag.Folded() == tag.Folded()
    ensures forall i | 0 <= i < |After(tag, fs, c)| :: After(tag, fs, c)[i].feature.tag.Folded() == tag.Folded()
  {
    AddedAt(fs, c.f);
    RemovedAt(fs, c.f);
  }

  /** Every listed feature has the tag of the set, after every run from a list where that holds. */
  lemma {:induction false} ListedHaveTheTag(tag: AText, fs: seq<Listed>, calls: seq<Call>)
    requires forall i | 0 <= i < |fs| :: fs[i].feature.tag.Folded() == tag.Folded()
    ensures var r := Run(tag, fs, calls); forall i | 0 <= i < |r| :: r[i].feature.tag.Folded() == tag.Folded()
    decreases calls
  {
    if calls != [] {
      var next := After(tag, fs, calls[0]);
      CallKeepsTag(tag, fs, calls[0]);
      ListedHaveTheTag(tag, next, calls[1..]);
      assert Run(tag, fs, calls) == Run(tag, next, calls[1..]);
    }
  }

  /** A call whose feature has another tag leaves every list as it is, and an addition of one with the tag makes sure
      that an equal feature is listed. */
  lemma {:induction false} AddListsIff(tag: AText, fs: seq<Listed>, f: Feature)
    ensures if tag.Folded() == f.tag.Folded() then
              if exists i | 0 <= i < |fs| :: Equals(fs[i].feature, f) then |After(tag, fs, Add(f))| == |fs|
              else After(tag, fs, Add(f)) == fs + [Listed(f, 1)]
            else After(tag, fs, Add(f)) == fs && After(tag, fs, Remove(f)) == fs
  {
    AddedAt(fs, f);
  }

  // ---------------------------------------------------------------- the list of values

  /** The values in a text, with or without quotes around it. */
  function ValueTokens(values: AText): seq<string> {
    var t := TrimDquot(values);
    if t.Null? then [] else Split(t.s, ',')
  }

  function MadeAll(tag: AText, values: seq<string>, signed: bool): (r: seq<Feature>)
    ensures |r| == |values| && forall i | 0 <= i < |r| :: r[i] == Made(tag, Chars(values[i]), signed)
  {
    if values == [] then [] else [Made(tag, Chars(values[0]), signed)] + MadeAll(tag, values[1..], signed)
  }

  /** The list made by the constructor that takes the values of a tag. */
  function ListedAll(features: seq<Feature>): (r: seq<Listed>)
    ensures |r| == |features| && forall i | 0 <= i < |r| :: r[i] == Listed(features[i], 1)
  {
    if features == [] then [] else [Listed(features[0], 1)] + ListedAll(features[1..])
  }

  lemma MadeNext(tag: AText, tokens: seq<string>, i: nat, signed: bool)
    requires i < |tokens|
    ensures ListedAll(MadeAll(tag, tokens[i..], signed))
         == [Listed(Made(tag, Chars(tokens[i]), signed), 1)] + ListedAll(MadeAll(tag, tokens[i + 1..], signed))
  {
    assert tokens[i..][1..] == tokens[i + 1..];
    var gs := MadeAll(tag, tokens[i..], signed);
    assert gs[1..] == MadeAll(tag, tokens[i + 1..], signed);
  }

  /** The list constructor appends without looking for duplicates: its list is well formed only without them. */
  lemma ConstructorKeepsDuplicates(gs: seq<Feature>)
    ensures WellFormed(ListedAll(gs)) <==>
            forall i, j | 0 <= i < |gs| && 0 <= j < |gs| && i != j :: !Equals(gs[i], gs[j])
  {
    var fs := ListedAll(gs);
    forall i, j | 0 <= i < |gs| && 0 <= j < |gs|
      ensures Equals(fs[i].feature, fs[j].feature) == Equals(gs[i], gs[j]) {
    }
  }

  function AddEach(gs: seq<Feature>): (calls: seq<Call>)
    ensures |calls| == |gs| && forall i | 0 <= i < |gs| :: calls[i] == Add(gs[i])
  {
    if gs == [] then [] else [Add(gs[0])] + AddEach(gs[1..])
  }

  /** The list after the features are added one after the other. */
  function AddAll(tag: AText, fs: seq<Listed>, gs: seq<Feature>): seq<Listed> {
    Run(tag, fs, AddEach(gs))
  }

  lemma AddFirst(tag: AText, fs: seq<Listed>, gs: seq<Feature>)
    requires gs != []
    ensures AddAll(tag, fs, gs) == AddAll(tag, After(tag, fs, Add(gs[0])), gs[1..])
  {
    assert AddEach(gs)[1..] == AddEach(gs[1..]);
  }

  predicate PairwiseDiffer(gs: seq<Feature>) {
    forall i, j | 0 <= i < j < |gs| :: !Equals(gs[i], gs[j])
  }

  predicate AllAccepted(tag: AText, gs: seq<Feature>) {
    forall i | 0 <= i < |gs| :: tag.Folded() == gs[i].tag.Folded()
  }

  lemma {:induction false} AddAllLength(tag: AText, fs: seq<Listed>, gs: seq<Feature>)
    ensures |AddAll(tag, fs, gs)| <= |fs| + |gs|
    decreases gs
  {
    if gs != [] {
      AddedAt(fs, gs[0]);
      AddFirst(tag, fs, gs);
      AddAllLength(tag, After(tag, fs, Add(gs[0])), gs[1..]);
    }
  }

  lemma AddNew(done: seq<Feature>, g: Feature)
    requires Position(ListedAll(done), g) == |done|
    ensures Added(ListedAll(done), g) == ListedAll(done + [g])
  {
    AddedAt(ListedAll(done), g);
  }

  /** Adding features to a list of different ones lists them all if they all have the tag and differ from one
      another and from those before them, and otherwise leaves some out. */
  lemma {:induction false} AddAllTo(tag: AText, done: seq<Feature>, gs: seq<Feature>)
    requires PairwiseDiffer(done)
    ensures if AllAccepted(tag, gs) && PairwiseDiffer(done + gs)
            then AddAll(tag, ListedAll(done), gs) == ListedAll(done + gs)
            else |AddAll(tag, ListedAll(done), gs)| < |done| + |gs|
    decreases gs
  {
    if gs == [] {
      assert done + gs == done;
    } else {
      var fs := ListedAll(done);
      AddFirst(tag, fs, gs);
      AddedAt(fs, gs[0]);
      var i := Position(fs, gs[0]);
      if tag.Folded() != gs[0].tag.Folded() {
        AddAllLength(tag, fs, gs[1..]);
      } else if i < |fs| {
        AddAllLength(tag, Added(fs, gs[0]), gs[1..]);
        assert Equals((done + gs)[i], (done + gs)[|done|]);
      } else {
        AddNew(done, gs[0]);
        MovedOver(tag, done, gs);
        AddAllTo(tag, done + [gs[0]], gs[1..]);
      }
    }
  }

  lemma {:induction false} MovedOver(tag: AText, done: seq<Feature>, gs: seq<Feature>)
    requires gs != [] && tag.Folded() == gs[0].tag.Folded()
    requires PairwiseDiffer(done) && Position(ListedAll(done), gs[0]) == |done|
    ensures done + [gs[0]] + gs[1..] == done + gs && PairwiseDiffer(done + [gs[0]])
    ensures AllAccepted(tag, gs) <==> AllAccepted(tag, gs[1..])
  {
    var fs := ListedAll(done);
    assert forall i | 1 <= i < |gs| :: gs[i] == gs[1..][i - 1];
    forall i | 0 <= i < |done| ensures !Equals(done[i], gs[0]) {
      assert fs[i].feature == done[i];
    }
  }

  lemma {:induction false} AddAllFromNothing(tag: AText, gs: seq<Feature>)
    ensures if AllAccepted(tag, gs) && PairwiseDiffer(gs) then AddAll(tag, [], gs) == ListedAll(gs)
            else |AddAll(tag, [], gs)| < |gs|
  {
    AddAllTo(tag, [], gs);
    assert [] + gs == gs;
  }

  /** The list constructor makes the list that adding its values one by one makes, exactly when every one of them
      has the tag of the set and none equals an earlier one. */
  lemma ConstructorAddsAllIff(tag: AText, values: AText, signed: bool)
    ensures var gs := MadeAll(tag, ValueTokens(values), signed);
            AddAll(tag, [], gs) == ListedAll(gs) <==> AllAccepted(tag, gs) && PairwiseDiffer(gs)
  {
    AddAllFromNothing(tag, MadeAll(tag, ValueTokens(values), signed));
  }

  // ---------------------------------------------------------------- the object

  class FeatureSet {
    const tag: AText
    var features: seq<Listed>

    constructor (tag: AText)
      ensures this.tag == tag && features == []
    {
      this.tag := tag;
      features := [];
    }

    /** The set of the values in a text. */
    constructor WithValues(tag: AText, values: AText, signed: bool)
      ensures this.tag == tag && features == ListedAll(MadeAll(tag, ValueTokens(values), signed))
    {
      this.tag := tag;
      features := [];
      new;
      AddFeatures(values, signed);
    }

    method AddFeatures(values: AText, signed: bool)
      modifies this
      ensures features == old(features) + ListedAll(MadeAll(tag, ValueTokens(values), signed))
    {
      var tokens;
      if values.Chars? && StartsWith(values.s, "\"") && EndsWith(values.s, "\"") {
        var unquoted := TrimDquot(values);
        tokens := if unquoted.Null? then [] else Split(unquoted.s, ',');
      } else {
        tokens := if values.Null? then [] else Split(values.s, ',');
      }
      AppendAll(tokens, signed);
    }

    method AppendAll(tokens: seq<string>, signed: bool)
      modifies this
      ensures features == old(features) + ListedAll(MadeAll(tag, tokens, signed))
    {
      assert tokens[0..] == tokens;
      for i := 0 to |tokens|
        invariant features + ListedAll(MadeAll(tag, tokens[i..], signed))
               == old(features) + ListedAll(MadeAll(tag, tokens, signed))
      {
        MadeNext(tag, tokens, i, signed);
        var made := [Listed(Made(tag, Chars(tokens[i]), signed), 1)];
        AppendAssociative(features, made, ListedAll(MadeAll(tag, tokens[i + 1..], signed)));
        features := features + made;
      }
    }

    method Contains(f: Feature) returns (found: bool)
      ensures found <==> Position(features, f) < |features|
    {
      for i := 0 to |features|
        invariant forall j | 0 <= j < i :: !Equals(features[j].feature, f)
      {
        if Equals(features[i].feature, f) {
          return true;
        }
      }
      return false;
    }

    /** The first equal feature; with `detach`, it leaves the list when it is not shared. */
    method Lookup(f: Feature, detach: bool) returns (found: bool, at: nat, entry: Listed)
      modifies this
      ensures found <==> Position(old(features), f) < |old(features)|
      ensures found ==> at == Position(old(features), f) && entry == old(features)[at]
      ensures features == if found && detach && entry.refs <= 1
                          then old(features)[..at] + old(features)[at + 1..]
                          else old(features)
    {
      for i := 0 to |features|
        invariant features == old(features)
        invariant forall j | 0 <= j < i :: !Equals(features[j].feature, f)
      {
        if Equals(features[i].feature, f) {
          entry := features[i];
          if detach && entry.refs <= 1 {
            features := features[..i] + features[i + 1..];
          }
          return true, i, entry;
        }
      }
      return false, 0, Listed(f, 0);
    }

    method AddFeature(f: Feature) returns (r: Outcome)
      modifies this
      ensures features == After(tag, old(features), Add(f))
      ensures r == if tag.Folded() != f.tag.Folded() then OpFail
                   else if Position(old(features), f) < |old(features)| then OpAddRef
                   else OpAdd
    {
      if tag.Folded() != f.tag.Folded() {
        return OpFail;
      }
      AddedAt(features, f);
      var found, at, entry := Lookup(f, false);
      if found {
        features := features[at := Listed(entry.feature, entry.refs + 1)];
        return OpAddRef;
      }
      features := features + [Listed(f, 1)];
      return OpAdd;
    }

    method RemoveFeature(f: Feature) returns (r: Outcome)
      modifies this
      ensures features == After(tag, old(features), Remove(f))
      ensures r == if tag.Folded() != f.tag.Folded() || Position(old(features), f) == |old(features)| then OpFail
                   else if old(features)[Position(old(features), f)].refs > 1 then OpRemoveRef
                   else OpRemove
    {
      if tag.Folded() != f.tag.Folded() {
        return OpFail;
      }
      RemovedAt(features, f);
      var found, at, entry := Lookup(f, true);
      if !found {
        return OpFail;
      }
      if entry.refs > 1 {
        features := features[at := Listed(entry.feature, entry.refs - 1)];
        return OpRemoveRef;
      }
      return OpRemove;
    }
  }
}
