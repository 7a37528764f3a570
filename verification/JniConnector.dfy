/** The connector between enablers of both sides: one connection for each slot and type that has something set. */
module JniConnectors {

  datatype EnablerType = MtcService | MtcCall | MtsService | MediaSession | Uce | SipDelegate | OtherType

  /** Enablers by identity; 0 is the null one. */
  const NULL := 0

  type Target = (int, EnablerType)

  /** A connection as a value. The native enabler may be null, the others are not. */
  datatype Connection = Connection(target: Target, native: nat, jni: map<nat, nat>)
  {
    predicate IsEmpty() {
      native == NULL && jni == map[]
    }
  }

  function Blank(t: Target): Connection {
    Connection(t, NULL, map[])
  }

  function Put(m: map<nat, nat>, key: nat, enabler: nat): map<nat, nat> {
    if enabler == NULL then m - {key} else m[key := enabler]
  }

  // ---------------------------------------------------------------- operations

  function IndexOf(cs: seq<Connection>, t: Target): (i: nat)
    ensures i <= |cs|
    ensures i < |cs| ==> cs[i].target == t
    ensures forall j | 0 <= j < i :: cs[j].target != t
  {
    if cs == [] || cs[0].target == t then 0 else IndexOf(cs[1..], t) + 1
  }

  /** A connection for the target, added if there is none. */
  function WithTarget(cs: seq<Connection>, t: Target): (r: seq<Connection>)
    ensures IndexOf(cs, t) < |r| && r[IndexOf(cs, t)].target == t
  {
    if IndexOf(cs, t) < |cs| then cs else cs + [Blank(t)]
  }

  /** The connection goes away if nothing is left in it. */
  function Swept(cs: seq<Connection>, i: nat): seq<Connection>
    requires i < |cs|
  {
    if cs[i].IsEmpty() then cs[..i] + cs[i + 1..] else cs
  }

  function NativeSet(cs: seq<Connection>, t: Target, native: nat): seq<Connection> {
    var i := IndexOf(cs, t);
    var ds := WithTarget(cs, t);
    Swept(ds[i := ds[i].(native := native)], i)
  }

  function JniSet(cs: seq<Connection>, t: Target, key: nat, enabler: nat): seq<Connection> {
    var i := IndexOf(cs, t);
    var ds := WithTarget(cs, t);
    Swept(ds[i := ds[i].(jni := Put(ds[i].jni, key, enabler))], i)
  }

  /** What is set for a target. */
  function Get(cs: seq<Connection>, t: Target): Connection {
    var i := IndexOf(cs, t);
    if i < |cs| then cs[i] else Blank(t)
  }

  function NativeOf(cs: seq<Connection>, t: Target): nat {
    Get(cs, t).native
  }

  function JniOf(cs: seq<Connection>, t: Target, key: nat): nat {
    var m := Get(cs, t).jni;
    if key in m then m[key] else NULL
  }

  // ---------------------------------------------------------------- runs

  datatype Call = SetNative(target: Target, native: nat) | SetJni(target: Target, key: nat, enabler: nat)

  function Step(cs: seq<Connection>, c: Call): seq<Connection> {
    match c
    case SetNative(t, native) => NativeSet(cs, t, native)
    case SetJni(t, key, enabler) => JniSet(cs, t, key, enabler)
  }

  function Run(cs: seq<Connection>, calls: seq<Call>): seq<Connection>
    decreases calls
  {
    if calls == [] then cs else Run(Step(cs, calls[0]), calls[1..])
  }

  /** The last value that the calls set, or null. */
  function LastNative(calls: seq<Call>, t: Target): nat {
    if calls == [] then NULL
    else
      var c := calls[|calls| - 1];
      if c.SetNative? && c.target == t then c.native else LastNative(calls[..|calls| - 1], t)
  }

  function LastJni(calls: seq<Call>, t: Target, key: nat): nat {
    if calls == [] then NULL
    else
      var c := calls[|calls| - 1];
      if c.SetJni? && c.target == t && c.key == key then c.enabler else LastJni(calls[..|calls| - 1], t, key)
  }

  predicate NoNulls(m: map<nat, nat>) {
    forall k | k in m :: m[k] != NULL
  }

  /** At most one connection for each target, and nothing empty. */
  predicate Tidy(cs: seq<Connection>) {
    && (forall i, j | 0 <= i < j < |cs| :: cs[i].target != cs[j].target)
    && (forall i | 0 <= i < |cs| :: !cs[i].IsEmpty() && NoNulls(cs[i].jni))
  }

  lemma TheOne(cs: seq<Connection>, i: nat)
    requires Tidy(cs) && i < |cs|
    ensures IndexOf(cs, cs[i].target) == i && Get(cs, cs[i].target) == cs[i]
  {
  }

  /** The list after changing the connection at `i`, or adding it at the end. */
  function Changed(cs: seq<Connection>, i: nat, c: Connection): seq<Connection>
    requires i <= |cs|
  {
    if i < |cs| then cs[i := c] else cs + [c]
  }

  lemma ChangedTidy(cs: seq<Connection>, c: Connection)
    requires Tidy(cs) && NoNulls(c.jni) && !c.IsEmpty()
    ensures var r := Changed(cs, IndexOf(cs, c.target), c);
      Tidy(r) && forall u :: Get(r, u) == if u == c.target then c else Get(cs, u)
  {
    var i := IndexOf(cs, c.target);
    var r := Changed(cs, i, c);
    assert forall j | 0 <= j < |r| && j != i :: j < |cs| && r[j] == cs[j];
    assert forall j | 0 <= j < |cs| && j != i :: cs[j] == r[j];
    assert r[i] == c;
    forall j | 0 <= j < |cs| && cs[j].target == c.target ensures j == i {
      TheOne(cs, j);
    }
    assert Tidy(r);
    forall u ensures Get(r, u) == if u == c.target then c else Get(cs, u) {
      var k := IndexOf(r, u);
      if k < |r| {
        if k == i {
          assert u == c.target;
        } else {
          TheOne(cs, k);
        }
      } else {
        assert r[i].target != u;
      }
    }
  }

  lemma RemovedAt(cs: seq<Connection>, i: nat)
    requires i < |cs|
    ensures var r := cs[..i] + cs[i + 1..];
      && |r| == |cs| - 1
      && (forall j | 0 <= j < i :: r[j] == cs[j])
      && (forall j | i <= j < |r| :: r[j] == cs[j + 1])
      && (forall j | i < j < |cs| :: cs[j] == r[j - 1])
  {
  }

  lemma RemovedTidy(cs: seq<Connection>, i: nat)
    requires Tidy(cs) && i < |cs|
    ensures Tidy(cs[..i] + cs[i + 1..])
  {
    var r := cs[..i] + cs[i + 1..];
    RemovedAt(cs, i);
    forall j, k | 0 <= j < k < |r| ensures r[j].target != r[k].target {
      var a, b := if j < i then j else j + 1, if k < i then k else k + 1;
      assert cs[a].target != cs[b].target;
    }
  }

  lemma RemovedGet(cs: seq<Connection>, i: nat, u: Target)
    requires Tidy(cs) && i < |cs|
    ensures Get(cs[..i] + cs[i + 1..], u) == if u == cs[i].target then Blank(u) else Get(cs, u)
  {
    var r := cs[..i] + cs[i + 1..];
    RemovedAt(cs, i);
    RemovedTidy(cs, i);
    var k, n := IndexOf(r, u), IndexOf(cs, u);
    if k < |r| {
      TheOne(cs, if k < i then k else k + 1);
    }
  }

  lemma SweptIs(cs: seq<Connection>, c: Connection)
    ensures var i := IndexOf(cs, c.target);
      Swept(WithTarget(cs, c.target)[i := c], i)
      == if !c.IsEmpty() then Changed(cs, i, c) else if i < |cs| then cs[..i] + cs[i + 1..] else cs
  {
  }

  /** Changing what is set for one target and sweeping keeps the rest as it was. */
  lemma ChangeOne(cs: seq<Connection>, c: Connection)
    requires Tidy(cs) && NoNulls(c.jni)
    ensures var i := IndexOf(cs, c.target);
      var r := Swept(WithTarget(cs, c.target)[i := c], i);
      Tidy(r) && forall u :: Get(r, u) == if u == c.target then c else Get(cs, u)
  {
    var i := IndexOf(cs, c.target);
    SweptIs(cs, c);
    if !c.IsEmpty() {
      ChangedTidy(cs, c);
    } else if i < |cs| {
      RemovedTidy(cs, i);
      forall u ensures Get(cs[..i] + cs[i + 1..], u) == if u == c.target then c else Get(cs, u) {
        RemovedGet(cs, i, u);
      }
    }
  }

  lemma PutMeans(m: map<nat, nat>, k: nat, enabler: nat)
    requires NoNulls(m)
    ensures NoNulls(Put(m, k, enabler))
  {
  }

  lemma StepMeans(cs: seq<Connection>, call: Call, t: Target, key: nat)
    requires Tidy(cs)
    ensures Tidy(Step(cs, call))
    ensures NativeOf(Step(cs, call), t)
         == if call.SetNative? && call.target == t then call.native else NativeOf(cs, t)
    ensures JniOf(Step(cs, call), t, key)
         == if call.SetJni? && call.target == t && call.key == key then call.enabler else JniOf(cs, t, key)
  {
    var d := WithTarget(cs, call.target)[IndexOf(cs, call.target)];
    assert d == Get(cs, call.target);
    match call {
      case SetNative(_, native) => ChangeOne(cs, d.(native := native));
      case SetJni(_, k, enabler) =>
        PutMeans(d.jni, k, enabler);
        ChangeOne(cs, d.(jni := Put(d.jni, k, enabler)));
    }
  }

  lemma {:induction false} RunSplit(cs: seq<Connection>, calls: seq<Call>)
    requires calls != []
    ensures Run(cs, calls) == Step(Run(cs, calls[..|calls| - 1]), calls[|calls| - 1])
    decreases |calls|
  {
    if |calls| > 1 {
      var rest := calls[1..];
      RunSplit(Step(cs, calls[0]), rest);
      assert rest[..|rest| - 1] == calls[..|calls| - 1][1..];
      assert rest[|rest| - 1] == calls[|calls| - 1];
    } else {
      assert calls[1..] == [] && calls[..0] == [];
      assert Run(Step(cs, calls[0]), []) == Step(cs, calls[0]);
    }
  }

  /** After every run of calls there is at most one connection for each slot and type and none is empty, and both
      getters return what was set last. */
  lemma {:induction false} ConnectorAgreesWithLastCalls(calls: seq<Call>, t: Target, key: nat)
    ensures Tidy(Run([], calls))
    ensures NativeOf(Run([], calls), t) == LastNative(calls, t)
    ensures JniOf(Run([], calls), t, key) == LastJni(calls, t, key)
    decreases |calls|
  {
    if calls != [] {
      var before := calls[..|calls| - 1];
      ConnectorAgreesWithLastCalls(before, t, key);
      RunSplit([], calls);
      StepMeans(Run([], before), calls[|calls| - 1], t, key);
    }
  }

  /** A connection exists for exactly the targets with something set. */
  lemma ConnectionsAreForWhatIsSet(calls: seq<Call>, t: Target)
    ensures var cs := Run([], calls);
      IndexOf(cs, t) < |cs| <==> LastNative(calls, t) != NULL || exists k: nat :: LastJni(calls, t, k) != NULL
  {
    var cs := Run([], calls);
    ConnectorAgreesWithLastCalls(calls, t, 0);
    forall k: nat ensures JniOf(cs, t, k) == LastJni(calls, t, k) {
      ConnectorAgreesWithLastCalls(calls, t, k);
    }
    var i := IndexOf(cs, t);
    if i == |cs| {
      forall k: nat ensures LastJni(calls, t, k) == NULL {
        assert JniOf(cs, t, k) == NULL;
      }
    } else if cs[i].native == NULL {
      var k := SomeKey(cs[i].jni);
      assert NoNulls(cs[i].jni);
      assert LastJni(calls, t, k) == JniOf(cs, t, k) == cs[i].jni[k] != NULL;
    } else {
      assert LastNative(calls, t) == NativeOf(cs, t) == cs[i].native != NULL;
    }
  }

  lemma SomeKey<K, V>(m: map<K, V>) returns (k: K)
    requires m != map[]
    ensures k in m
  {
    k :| k in m;
  }

  // ---------------------------------------------------------------- the classes

  class JniConnection {
    const target: Target
    var native: nat
    var jni: map<nat, nat>

    function View(): Connection
      reads this
    {
      Connection(target, native, jni)
    }

    constructor (target: Target)
      ensures View() == Blank(target)
    {
      this.target := target;
      native := NULL;
      jni := map[];
    }

    /** Returns the native enabler that is told about it, if there is one. */
    method SetJniEnabler(key: nat, enabler: nat) returns (told: nat)
      modifies this
      ensures View() == old(View()).(jni := Put(old(jni), key, enabler))
      ensures told == native
    {
      if key !in jni {
        if enabler != NULL {
          jni := jni[key := enabler];
        }
      } else {
        if enabler == NULL {
          jni := jni - {key};
        } else {
          jni := jni[key := enabler];
        }
      }
      return native;
    }

    /** Returns the enablers of the other side, all of which are told about it. */
    method SetNativeEnabler(enabler: nat) returns (told: map<nat, nat>)
      modifies `native
      ensures View() == old(View()).(native := enabler)
      ensures told == jni
    {
      native := enabler;
      return jni;
    }

    method IsEmpty() returns (empty: bool)
      ensures empty <==> View().IsEmpty()
    {
      return native == NULL && |jni| == 0;
    }
  }

  function Views(cs: seq<JniConnection>): (v: seq<Connection>)
    reads cs
    ensures |v| == |cs|
  {
    if cs == [] then [] else Views(cs[..|cs| - 1]) + [cs[|cs| - 1].View()]
  }

  lemma {:induction false} ViewsAt(cs: seq<JniConnection>, i: nat)
    requires i < |cs|
    ensures Views(cs)[i] == cs[i].View()
  {
    if i < |cs| - 1 {
      ViewsAt(cs[..|cs| - 1], i);
    }
  }

  lemma {:induction false} ViewsAre(cs: seq<JniConnection>, v: seq<Connection>)
    requires |v| == |cs| && forall i | 0 <= i < |cs| :: v[i] == cs[i].View()
    ensures Views(cs) == v
    decreases |cs|
  {
    if cs != [] {
      ViewsAre(cs[..|cs| - 1], v[..|cs| - 1]);
      assert v == v[..|cs| - 1] + [v[|cs| - 1]];
    }
  }

  lemma ViewsWithout(cs: seq<JniConnection>, v: seq<Connection>, i: nat)
    requires |v| == |cs| && i < |cs| && forall j | 0 <= j < |cs| :: v[j] == cs[j].View()
    ensures Views(cs[..i] + cs[i + 1..]) == v[..i] + v[i + 1..]
  {
    var rest, left := cs[..i] + cs[i + 1..], v[..i] + v[i + 1..];
    forall j | 0 <= j < |rest| ensures left[j] == rest[j].View() {
      assert left[j] == v[if j < i then j else j + 1] && rest[j] == cs[if j < i then j else j + 1];
    }
    ViewsAre(rest, left);
  }

  class JniEnablerConnector {
    var connections: seq<JniConnection>

    ghost predicate Valid()
      reads this
    {
      forall i, j | 0 <= i < j < |connections| :: connections[i] != connections[j]
    }

    function View(): seq<Connection>
      reads this, connections
    {
      Views(connections)
    }

    constructor ()
      ensures Valid() && View() == [] && connections == []
    {
      connections := [];
    }

    lemma AllViews() returns (v: seq<Connection>)
      ensures v == View() && forall i | 0 <= i < |connections| :: v[i] == connections[i].View()
    {
      v := View();
      forall i | 0 <= i < |connections| ensures v[i] == connections[i].View() {
        ViewsAt(connections, i);
      }
    }

    method GetConnection(t: Target) returns (found: JniConnection?, ghost index: nat)
      ensures index == IndexOf(View(), t)
      ensures found == if IndexOf(View(), t) < |connections| then connections[IndexOf(View(), t)] else null
    {
      for i := 0 to |connections|
        invariant forall j | 0 <= j < i :: View()[j].target != t
      {
        ViewsAt(connections, i);
        if connections[i].target == t {
          return connections[i], i;
        }
      }
      return null, |connections|;
    }

    method CreateConnectionIfNotExist(t: Target) returns (c: JniConnection, ghost index: nat)
      requires Valid()
      modifies `connections
      ensures Valid() && index == IndexOf(old(View()), t) < |connections| && c == connections[index]
      ensures forall i | 0 <= i < |connections| :: connections[i] in old(connections) || fresh(connections[i])
      ensures View() == WithTarget(old(View()), t)
    {
      var found;
      found, index := GetConnection(t);
      if found != null {
        return found, index;
      }
      c := new JniConnection(t);
      ghost var before := AllViews();
      connections := connections + [c];
      ViewsAre(connections, before + [Blank(t)]);
    }

    method CheckAndRemoveConnection(c: JniConnection, ghost index: nat)
      requires Valid() && index < |connections| && c == connections[index]
      modifies `connections
      ensures Valid() && forall i | 0 <= i < |connections| :: connections[i] in old(connections)
      ensures View() == Swept(old(View()), index)
    {
      ViewsAt(connections, index);
      var empty := c.IsEmpty();
      if !empty {
        return;
      }
      ghost var before := AllViews();
      for i := 0 to |connections|
        invariant i <= index && connections == old(connections)
      {
        if c == connections[i] {
          assert i == index;
          ViewsWithout(connections, before, i);
          connections := connections[..i] + connections[i + 1..];
          return;
        }
      }
    }

    method SetNativeEnabler(t: Target, native: nat) returns (told: map<nat, nat>)
      requires Valid()
      modifies this, connections
      ensures Valid()
      ensures forall i | 0 <= i < |connections| :: connections[i] in old(connections) || fresh(connections[i])
      ensures View() == NativeSet(old(View()), t, native)
      ensures told == Get(old(View()), t).jni
    {
      var c, index := CreateConnectionIfNotExist(t);
      ghost var before := AllViews();
      told := c.SetNativeEnabler(native);
      ViewsAre(connections, before[index := c.View()]);
      CheckAndRemoveConnection(c, index);
    }

    method SetJniEnabler(t: Target, key: nat, enabler: nat) returns (told: nat)
      requires Valid()
      modifies this, connections
      ensures Valid()
      ensures forall i | 0 <= i < |connections| :: connections[i] in old(connections) || fresh(connections[i])
      ensures View() == JniSet(old(View()), t, key, enabler)
      ensures told == NativeOf(old(View()), t)
    {
      var c, index := CreateConnectionIfNotExist(t);
      ghost var before := AllViews();
      told := c.SetJniEnabler(key, enabler);
      ViewsAre(connections, before[index := c.View()]);
      CheckAndRemoveConnection(c, index);
    }

    method GetNativeEnabler(t: Target) returns (native: nat)
      ensures native == NativeOf(View(), t)
    {
      var found, index := GetConnection(t);
      if found == null {
        return NULL;
      }
      ViewsAt(connections, index);
      return found.native;
    }

    method GetJniEnabler(t: Target, key: nat) returns (enabler: nat)
      ensures enabler == JniOf(View(), t, key)
    {
      var found, index := GetConnection(t);
      if found == null {
        return NULL;
      }
      ViewsAt(connections, index);
      if key in found.jni {
        return found.jni[key];
      }
      return NULL;
    }
  }
}
