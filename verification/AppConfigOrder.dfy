/** Creating a configuration does not depend on where the CoreService properties stand among the others, and it
    comes apart into one computation for each service and one for the application itself. */
module AppConfigOrders {
  import opened Lists
  import opened ImsProperties
  import opened AppConfigs

  // ---------------------------------------------------------------- CoreService properties and the others

  function Cores(reg: seq<Property>): seq<Property> {
    if reg == [] then [] else (if IsCore(reg[0]) then [reg[0]] else []) + Cores(reg[1..])
  }

  function Others(reg: seq<Property>): seq<Property> {
    if reg == [] then [] else (if IsCore(reg[0]) then [] else [reg[0]]) + Others(reg[1..])
  }

  /** The registry with its CoreService properties moved to the front, nothing else reordered. */
  function CoresFirst(reg: seq<Property>): seq<Property> {
    Cores(reg) + Others(reg)
  }

  lemma {:induction false} CoresOfConcat(a: seq<Property>, b: seq<Property>)
    ensures Cores(a + b) == Cores(a) + Cores(b)
    decreases |a|
  {
    if a == [] {
      assert a + b == b;
    } else {
      assert (a + b)[1..] == a[1..] + b;
      CoresOfConcat(a[1..], b);
      AppendAssociative(if IsCore(a[0]) then [a[0]] else [], Cores(a[1..]), Cores(b));
    }
  }

  lemma {:induction false} OthersOfConcat(a: seq<Property>, b: seq<Property>)
    ensures Others(a + b) == Others(a) + Others(b)
    decreases |a|
  {
    if a == [] {
      assert a + b == b;
    } else {
      assert (a + b)[1..] == a[1..] + b;
      OthersOfConcat(a[1..], b);
      AppendAssociative(if IsCore(a[0]) then [] else [a[0]], Others(a[1..]), Others(b));
    }
  }

  lemma PartsOfConcat(a: seq<Property>, b: seq<Property>)
    ensures Cores(a + b) == Cores(a) + Cores(b) && Others(a + b) == Others(a) + Others(b)
  {
    CoresOfConcat(a, b);
    OthersOfConcat(a, b);
  }

  lemma PartsOfOne(p: Property)
    ensures Cores([p]) == (if IsCore(p) then [p] else []) && Others([p]) == if IsCore(p) then [] else [p]
  {
    assert [p][1..] == [];
  }

  lemma {:induction false} PartsOfParts(reg: seq<Property>)
    ensures Cores(Cores(reg)) == Cores(reg) && Others(Cores(reg)) == []
    ensures Cores(Others(reg)) == [] && Others(Others(reg)) == Others(reg)
    decreases |reg|
  {
    if reg != [] {
      PartsOfParts(reg[1..]);
      PartsOfOne(reg[0]);
      PartsOfConcat(if IsCore(reg[0]) then [reg[0]] else [], Cores(reg[1..]));
      PartsOfConcat(if IsCore(reg[0]) then [] else [reg[0]], Others(reg[1..]));
    }
  }

  lemma PartsOfCoresFirst(reg: seq<Property>)
    ensures Cores(CoresFirst(reg)) == Cores(reg) && Others(CoresFirst(reg)) == Others(reg)
  {
    PartsOfConcat(Cores(reg), Others(reg));
    PartsOfParts(reg);
  }

  lemma TrimmedKeepsCore(p: Property)
    ensures IsCore(Trimmed(p)) <==> IsCore(p)
  {
  }

  lemma TrimmedTail(reg: seq<Property>)
    requires reg != []
    ensures TrimmedAll(reg)[0] == Trimmed(reg[0]) && TrimmedAll(reg)[1..] == TrimmedAll(reg[1..])
  {
  }

  lemma TrimmedCons(p: Property, reg: seq<Property>)
    ensures TrimmedAll([p] + reg) == [Trimmed(p)] + TrimmedAll(reg)
  {
  }

  lemma {:induction false} PartsOfTrimmed(reg: seq<Property>)
    ensures Cores(TrimmedAll(reg)) == TrimmedAll(Cores(reg)) && Others(TrimmedAll(reg)) == TrimmedAll(Others(reg))
    decreases |reg|
  {
    if reg != [] {
      TrimmedTail(reg);
      TrimmedKeepsCore(reg[0]);
      PartsOfTrimmed(reg[1..]);
      TrimmedCons(reg[0], Cores(reg[1..]));
      TrimmedCons(reg[0], Others(reg[1..]));
    }
  }

  // ---------------------------------------------------------------- the check of the registry

  lemma {:induction false} OthersKeys(reg: seq<Property>, k: string)
    requires StringToKey(k) != CoreService
    ensures (exists j | 0 <= j < |reg| :: reg[j] != [] && reg[j][0] == k)
       <==> exists j | 0 <= j < |Others(reg)| :: Others(reg)[j] != [] && Others(reg)[j][0] == k
    decreases |reg|
  {
    if reg != [] {
      OthersKeys(reg[1..], k);
      var rest, o := reg[1..], Others(reg[1..]);
      forall j | 0 <= j < |rest| ensures rest[j] == reg[j + 1] {
      }
      if IsCore(reg[0]) {
        assert Others(reg) == o;
        FirstAside(reg, k);
      } else {
        assert Others(reg)[0] == reg[0] && Others(reg)[1..] == o;
        FirstAside(reg, k);
        FirstAside(Others(reg), k);
      }
    }
  }

  lemma FirstAside(reg: seq<Property>, k: string)
    requires reg != []
    ensures (exists j | 0 <= j < |reg| :: reg[j] != [] && reg[j][0] == k)
       <==> (reg[0] != [] && reg[0][0] == k)
            || exists j | 0 <= j < |reg[1..]| :: reg[1..][j] != [] && reg[1..][j][0] == k
  {
    var rest := reg[1..];
    if j :| 0 <= j < |reg| && reg[j] != [] && reg[j][0] == k {
      if j > 0 {
        assert rest[j - 1] == reg[j];
      }
    }
    if j :| 0 <= j < |rest| && rest[j] != [] && rest[j][0] == k {
      assert reg[j + 1] == rest[j];
    }
  }

  lemma GoodLast(reg: seq<Property>, p: Property)
    ensures GoodRegistry(reg + [p]) <==> GoodRegistry(reg) && GoodAt(reg + [p], |reg|)
  {
    var all := reg + [p];
    forall i | 0 <= i < |reg| ensures GoodAt(all, i) <==> GoodAt(reg, i) {
      assert all[i] == reg[i];
      assert forall j | 0 <= j < i :: all[j] == reg[j];
    }
  }

  /** The check depends on the other properties alone. */
  lemma {:induction false} GoodOthers(reg: seq<Property>)
    ensures GoodRegistry(reg) <==> GoodRegistry(Others(reg))
    decreases |reg|
  {
    if reg != [] {
      var init, p := reg[..|reg| - 1], reg[|reg| - 1];
      assert reg == init + [p];
      GoodOthers(init);
      GoodLast(init, p);
      PartsOfConcat(init, [p]);
      PartsOfOne(p);
      if IsCore(p) {
        assert Others(reg) == Others(init);
        assert reg[|init|] == p && GoodAt(init + [p], |init|);
      } else {
        GoodLast(Others(init), p);
        GoodAtEnd(init, p);
      }
    }
  }

  lemma GoodAtEnd(init: seq<Property>, p: Property)
    requires !IsCore(p)
    ensures GoodAt(init + [p], |init|) <==> GoodAt(Others(init) + [p], |Others(init)|)
  {
    if p != [] {
      OthersKeys(init, p[0]);
      GoodAtMeans(init, p);
      GoodAtMeans(Others(init), p);
    }
  }

  lemma GoodAtMeans(reg: seq<Property>, p: Property)
    requires p != []
    ensures GoodAt(reg + [p], |reg|)
       <==> StringToKey(p[0]) != Custom
            && (MayRepeat(StringToKey(p[0])) || !exists j | 0 <= j < |reg| :: reg[j] != [] && reg[j][0] == p[0])
  {
    assert forall j | 0 <= j < |reg| :: (reg + [p])[j] == reg[j];
  }

  // ---------------------------------------------------------------- the two passes

  lemma FirstPassCons(c: Config, p: Property, rest: seq<Property>)
    ensures FirstPass(c, [p] + rest) == (var r := FirstStep(c, p); if r.ok then FirstPass(r.config, rest) else r)
  {
    FirstPassStep(c, [p] + rest, 0);
    assert ([p] + rest)[0..] == [p] + rest && ([p] + rest)[1..] == rest;
  }

  lemma SecondPassCons(c: Config, p: Property, rest: seq<Property>)
    requires p != [] && AllKeyed(rest)
    ensures AllKeyed([p] + rest)
    ensures SecondPass(c, [p] + rest) == (var r := SecondStep(c, p); if r.ok then SecondPass(r.config, rest) else r)
  {
    SecondPassStep(c, [p] + rest, 0);
    assert ([p] + rest)[0..] == [p] + rest && ([p] + rest)[1..] == rest;
  }

  lemma {:induction false} FirstPassOnCores(c: Config, reg: seq<Property>)
    ensures FirstPass(c, reg) == FirstPass(c, Cores(reg))
    decreases |reg|
  {
    if reg != [] {
      var rest := reg[1..];
      assert reg == [reg[0]] + rest;
      FirstPassCons(c, reg[0], rest);
      FirstPassOnCores(FirstStep(c, reg[0]).config, rest);
      if IsCore(reg[0]) {
        FirstPassCons(c, reg[0], Cores(rest));
      } else {
        assert Cores(reg) == Cores(rest);
      }
    }
  }

  lemma {:induction false} OthersKeyed(reg: seq<Property>)
    requires AllKeyed(reg)
    ensures AllKeyed(Others(reg))
    decreases |reg|
  {
    if reg != [] {
      OthersKeyed(reg[1..]);
    }
  }

  lemma {:induction false} SecondPassOnOthers(c: Config, reg: seq<Property>)
    requires AllKeyed(reg)
    ensures AllKeyed(Others(reg)) && SecondPass(c, reg) == SecondPass(c, Others(reg))
    decreases |reg|
  {
    OthersKeyed(reg);
    if reg != [] {
      var rest := reg[1..];
      assert reg == [reg[0]] + rest;
      SecondPassCons(c, reg[0], rest);
      SecondPassOnOthers(SecondStep(c, reg[0]).config, rest);
      if IsCore(reg[0]) {
        assert Others(reg) == Others(rest);
      } else {
        SecondPassCons(c, reg[0], Others(rest));
      }
    }
  }

  /** Two registries with the same CoreService properties and the same other properties, each in the same order,
      give the same result and the same configuration, even where creation fails halfway. */
  lemma SamePartsSameConfig(c: Config, reg: seq<Property>, other: seq<Property>)
    requires Cores(reg) == Cores(other) && Others(reg) == Others(other)
    ensures CreatedFrom(c, reg) == CreatedFrom(c, other)
  {
    GoodOthers(reg);
    GoodOthers(other);
    if GoodRegistry(reg) {
      GoodIsKeyed(reg);
      GoodIsKeyed(other);
      PartsOfTrimmed(reg);
      PartsOfTrimmed(other);
      var s, t := TrimmedAll(reg), TrimmedAll(other);
      FirstPassOnCores(c, s);
      FirstPassOnCores(c, t);
      var r := FirstPass(c, s);
      if r.ok {
        SecondPassOnOthers(r.config, s);
        SecondPassOnOthers(r.config, t);
      }
    }
  }

  /** Moving the CoreService properties to the front changes nothing. */
  lemma CoresFirstChangesNothing(c: Config, reg: seq<Property>)
    ensures CreatedFrom(c, CoresFirst(reg)) == CreatedFrom(c, reg)
  {
    PartsOfCoresFirst(reg);
    SamePartsSameConfig(c, CoresFirst(reg), reg);
  }
}
