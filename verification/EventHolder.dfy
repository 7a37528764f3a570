/** The listeners of platform events: a list for each event, and the receiver armed for the events with a list. */
module EventHolders {
  import opened Lists

  /** Listeners by identity; a null one may be registered too. */
  type Listener = nat

  const NULL_LISTENER: Listener := 0

  datatype Post = Post(event: int, listener: Listener, wParam: int, lParam: int)

  datatype Holder = Holder(lists: map<int, seq<Listener>>, armed: set<int>, posts: seq<Post>)

  const EMPTY := Holder(map[], {}, [])

  // ---------------------------------------------------------------- operations

  function Added(h: Holder, e: int, l: Listener): Holder {
    if e !in h.lists then h.(lists := h.lists[e := [l]], armed := h.armed + {e})
    else if l in h.lists[e] then h
    else h.(lists := h.lists[e := h.lists[e] + [l]])
  }

  function Removed(h: Holder, e: int, l: Listener): Holder {
    if e !in h.lists then h
    else
      var rest := Without(h.lists[e], l);
      if rest == [] then h.(lists := h.lists - {e}, armed := h.armed - {e}) else h.(lists := h.lists[e := rest])
  }

  /** Every event with a list is armed again. */
  function Rearmed(h: Holder): Holder {
    h.(armed := h.armed + h.lists.Keys)
  }

  function PostsTo(ls: seq<Listener>, e: int, wParam: int, lParam: int): seq<Post> {
    if ls == [] then []
    else (if ls[0] == NULL_LISTENER then [] else [Post(e, ls[0], wParam, lParam)]) + PostsTo(ls[1..], e, wParam, lParam)
  }

  function Notified(h: Holder, e: int, wParam: int, lParam: int): Holder {
    if e in h.lists then h.(posts := h.posts + PostsTo(h.lists[e], e, wParam, lParam)) else h
  }

  // ---------------------------------------------------------------- runs

  /** Calls on the holder, and the receiver losing what it was armed for. */
  datatype Event =
    | Add(event: int, listener: Listener)
    | Remove(event: int, listener: Listener)
    | SetUnregistered
    | Notify(event: int, wParam: int, lParam: int)
    | Lose(events: set<int>)

  function Step(h: Holder, v: Event): Holder {
    match v
    case Add(e, l) => Added(h, e, l)
    case Remove(e, l) => Removed(h, e, l)
    case SetUnregistered => Rearmed(h)
    case Notify(e, w, p) => Notified(h, e, w, p)
    case Lose(es) => h.(armed := h.armed - es)
  }

  function Run(h: Holder, vs: seq<Event>): Holder
    decreases vs
  {
    if vs == [] then h else Run(Step(h, vs[0]), vs[1..])
  }

  /** The same run on a plain set of pairs; `lost` tells whether the receiver may have lost something. */
  datatype Plain = Plain(pairs: set<(int, Listener)>, lost: bool)

  function PlainStep(p: Plain, v: Event): Plain {
    match v
    case Add(e, l) => p.(pairs := p.pairs + {(e, l)})
    case Remove(e, l) => p.(pairs := p.pairs - {(e, l)})
    case SetUnregistered => p.(lost := false)
    case Notify(_, _, _) => p
    case Lose(_) => p.(lost := true)
  }

  function PlainRun(p: Plain, vs: seq<Event>): Plain
    decreases vs
  {
    if vs == [] then p else PlainRun(PlainStep(p, vs[0]), vs[1..])
  }

  predicate Proper(h: Holder) {
    && (forall e | e in h.lists :: h.lists[e] != [] && NoRepeats(h.lists[e]))
    && h.armed <= h.lists.Keys
  }

  /** The holder stands for the plain set, and is armed for its events unless something was lost. */
  ghost predicate Refines(h: Holder, p: Plain) {
    && Proper(h)
    && (forall e, l :: (e, l) in p.pairs <==> e in h.lists && l in h.lists[e])
    && (!p.lost ==> h.armed == h.lists.Keys)
  }

  lemma RefinesAdd(h: Holder, p: Plain, e: int, l: Listener)
    requires Refines(h, p)
    ensures Refines(Added(h, e, l), PlainStep(p, Add(e, l)))
  {
  }

  lemma RefinesRemove(h: Holder, p: Plain, e: int, l: Listener)
    requires Refines(h, p)
    ensures Refines(Removed(h, e, l), PlainStep(p, Remove(e, l)))
  {
    if e in h.lists {
      var ls := h.lists[e];
      var rest := Without(ls, l);
      WithoutKeepsNoRepeats(ls, l);
      forall m ensures m in rest <==> m in ls && m != l {
        WithoutHas(ls, l, m);
      }
      if rest == [] {
        assert forall m | m in h.lists[e] :: m == l;
      }
    }
  }

  lemma RefinesStep(h: Holder, p: Plain, v: Event)
    requires Refines(h, p)
    ensures Refines(Step(h, v), PlainStep(p, v))
  {
    match v {
      case Add(e, l) => RefinesAdd(h, p, e, l);
      case Remove(e, l) => RefinesRemove(h, p, e, l);
      case _ =>
    }
  }

  lemma {:induction false} RefinesRun(h: Holder, p: Plain, vs: seq<Event>)
    requires Refines(h, p)
    ensures Refines(Run(h, vs), PlainRun(p, vs))
    decreases |vs|
  {
    if vs != [] {
      RefinesStep(h, p, vs[0]);
      RefinesRun(Step(h, vs[0]), PlainStep(p, vs[0]), vs[1..]);
    }
  }

  /** After every run the holder stands for the set of pairs added and not removed since: its lists are not empty
      and without repeats, and unless the receiver lost something since the last rearming, it is armed for exactly
      the events with a list. */
  lemma HolderRefinesPairs(vs: seq<Event>)
    ensures Refines(Run(EMPTY, vs), PlainRun(Plain({}, false), vs))
  {
    RefinesRun(EMPTY, Plain({}, false), vs);
  }

  // ---------------------------------------------------------------- notices

  lemma {:induction false} PostsCount(ls: seq<Listener>, e: int, w: int, lp: int, q: Post)
    requires NoRepeats(ls)
    ensures multiset(PostsTo(ls, e, w, lp))[q]
         == if q.listener in ls && q.listener != NULL_LISTENER && q == Post(e, q.listener, w, lp) then 1 else 0
    decreases |ls|
  {
    if ls != [] {
      var rest := ls[1..];
      assert ls == [ls[0]] + rest;
      assert forall i | 0 <= i < |rest| :: rest[i] == ls[i + 1];
      PostsCount(rest, e, w, lp, q);
    }
  }

  /** An event received after any run is posted exactly once to every listener registered for it that is not null,
      and to nobody else. */
  lemma EachListenerIsPostedOnce(vs: seq<Event>, e: int, w: int, lp: int, q: Post)
    ensures var before := Run(EMPTY, vs);
      var posts := Step(before, Notify(e, w, lp)).posts;
      var pairs := PlainRun(Plain({}, false), vs).pairs;
      && before.posts <= posts
      && multiset(posts[|before.posts|..])[q]
         == if q.event == e && q.wParam == w && q.lParam == lp && (e, q.listener) in pairs && q.listener != NULL_LISTENER
            then 1 else 0
  {
    HolderRefinesPairs(vs);
    var before := Run(EMPTY, vs);
    var posts := Step(before, Notify(e, w, lp)).posts;
    if e in before.lists {
      assert posts[|before.posts|..] == PostsTo(before.lists[e], e, w, lp);
      PostsCount(before.lists[e], e, w, lp, q);
    } else {
      assert posts[|before.posts|..] == [];
    }
  }

  // ---------------------------------------------------------------- the order of notices

  lemma {:induction false} RunsLast(h: Holder, p: Plain, vs: seq<Event>)
    requires vs != []
    ensures Run(h, vs) == Step(Run(h, vs[..|vs| - 1]), vs[|vs| - 1])
    ensures PlainRun(p, vs) == PlainStep(PlainRun(p, vs[..|vs| - 1]), vs[|vs| - 1])
    decreases |vs|
  {
    if |vs| > 1 {
      var rest := vs[1..];
      RunsLast(Step(h, vs[0]), PlainStep(p, vs[0]), rest);
      assert rest[..|rest| - 1] == vs[..|vs| - 1][1..];
      assert rest[|rest| - 1] == vs[|vs| - 1];
    } else {
      assert vs[1..] == [] && vs[..0] == [];
      assert Run(Step(h, vs[0]), []) == Step(h, vs[0]);
      assert PlainRun(PlainStep(p, vs[0]), []) == PlainStep(p, vs[0]);
    }
  }

  /** The place of the call that registered the listener for the event last, when it was not registered. */
  function Since(vs: seq<Event>, e: int, l: Listener): nat {
    if vs == [] then 0
    else
      var before := vs[..|vs| - 1];
      if vs[|vs| - 1] == Add(e, l) && (e, l) !in PlainRun(Plain({}, false), before).pairs then |before|
      else Since(before, e, l)
  }

  predicate InOrder(ls: seq<Listener>, vs: seq<Event>, e: int) {
    && (forall i | 0 <= i < |ls| :: Since(vs, e, ls[i]) < |vs|)
    && (forall i, j | 0 <= i < j < |ls| :: Since(vs, e, ls[i]) < Since(vs, e, ls[j]))
  }

  function ListOf(h: Holder, e: int): seq<Listener> {
    if e in h.lists then h.lists[e] else []
  }

  lemma {:induction false} WithoutKeepsOrder(ls: seq<Listener>, l: Listener, vs: seq<Event>, e: int)
    requires InOrder(ls, vs, e)
    ensures InOrder(Without(ls, l), vs, e)
  {
    if l in ls {
      var i := FirstAt(ls, l);
      WithoutAt(ls, l, i);
    } else {
      WithoutNone(ls, l);
    }
  }

  lemma FirstAt(ls: seq<Listener>, l: Listener) returns (i: nat)
    requires l in ls
    ensures i < |ls| && ls[i] == l && l !in ls[..i]
  {
    i := 0;
    while ls[i] != l
      invariant i < |ls| && l !in ls[..i] && l in ls[i..]
      decreases |ls| - i
    {
      i := i + 1;
    }
  }

  /** What one call makes of the list of an event. */
  lemma {:induction false} ListOfStep(h: Holder, v: Event, e: int)
    ensures ListOf(Step(h, v), e)
         == if v.Add? && v.event == e && v.listener !in ListOf(h, e) then ListOf(h, e) + [v.listener]
            else if v.Remove? && v.event == e then Without(ListOf(h, e), v.listener)
            else ListOf(h, e)
  {
  }

  lemma {:induction false} SinceStep(vs: seq<Event>, e: int, l: Listener)
    requires vs != []
    ensures var before, v := vs[..|vs| - 1], vs[|vs| - 1];
      Since(vs, e, l) == if v == Add(e, l) && l !in ListOf(Run(EMPTY, before), e) then |before| else Since(before, e, l)
  {
    HolderRefinesPairs(vs[..|vs| - 1]);
  }

  /** The order after one more call that leaves the list, adds at its end or takes one out. */
  lemma {:induction false} OrderStep(ls: seq<Listener>, vs: seq<Event>, e: int)
    requires vs != [] && InOrder(ls, vs[..|vs| - 1], e)
    requires var before, v := vs[..|vs| - 1], vs[|vs| - 1];
      forall l :: Since(vs, e, l) == if v == Add(e, l) && l !in ls then |before| else Since(before, e, l)
    ensures InOrder(ls, vs, e)
    ensures var v := vs[|vs| - 1]; v.Add? && v.event == e && v.listener !in ls ==> InOrder(ls + [v.listener], vs, e)
  {
    var v := vs[|vs| - 1];
    assert forall i | 0 <= i < |ls| :: Since(vs, e, ls[i]) == Since(vs[..|vs| - 1], e, ls[i]);
    if v.Add? && v.event == e && v.listener !in ls {
      var all := ls + [v.listener];
      assert Since(vs, e, v.listener) == |vs| - 1;
      assert forall i | 0 <= i < |ls| :: all[i] == ls[i];
    }
  }

  /** The listeners of an event stand in the order in which they were registered. */
  lemma {:induction false} ListsKeepOrder(vs: seq<Event>, e: int)
    ensures InOrder(ListOf(Run(EMPTY, vs), e), vs, e)
    decreases |vs|
  {
    if vs != [] {
      var before, v := vs[..|vs| - 1], vs[|vs| - 1];
      var ls := ListOf(Run(EMPTY, before), e);
      ListsKeepOrder(before, e);
      RunsLast(EMPTY, Plain({}, false), vs);
      ListOfStep(Run(EMPTY, before), v, e);
      forall l ensures Since(vs, e, l) == if v == Add(e, l) && l !in ls then |before| else Since(before, e, l) {
        SinceStep(vs, e, l);
      }
      OrderStep(ls, vs, e);
      if v.Remove? && v.event == e {
        WithoutKeepsOrder(ls, v.listener, vs, e);
      }
    }
  }

  predicate PostsInOrder(posts: seq<Post>, vs: seq<Event>, e: int) {
    forall i, j | 0 <= i < j < |posts| :: Since(vs, e, posts[i].listener) < Since(vs, e, posts[j].listener)
  }

  lemma {:induction false} PostsAreToListed(ls: seq<Listener>, e: int, w: int, lp: int)
    ensures forall q | q in PostsTo(ls, e, w, lp) :: q.listener in ls
    decreases ls
  {
    if ls != [] {
      PostsAreToListed(ls[1..], e, w, lp);
    }
  }

  lemma {:induction false} FirstInOrder(q: Post, rest: seq<Post>, vs: seq<Event>, e: int)
    requires PostsInOrder(rest, vs, e)
    requires forall r | r in rest :: Since(vs, e, q.listener) < Since(vs, e, r.listener)
    ensures PostsInOrder([q] + rest, vs, e)
  {
    var posts := [q] + rest;
    assert forall i | 1 <= i < |posts| :: posts[i] == rest[i - 1] && posts[i] in rest;
  }

  lemma {:induction false} TailInOrder(ls: seq<Listener>, vs: seq<Event>, e: int)
    requires ls != [] && InOrder(ls, vs, e)
    ensures InOrder(ls[1..], vs, e)
    ensures forall l | l in ls[1..] :: Since(vs, e, ls[0]) < Since(vs, e, l)
  {
    assert forall i | 0 <= i < |ls[1..]| :: ls[1..][i] == ls[i + 1];
  }

  lemma {:induction false} PostsFollow(ls: seq<Listener>, vs: seq<Event>, e: int, w: int, lp: int)
    requires InOrder(ls, vs, e)
    ensures PostsInOrder(PostsTo(ls, e, w, lp), vs, e)
    decreases ls
  {
    if ls != [] {
      TailInOrder(ls, vs, e);
      PostsFollow(ls[1..], vs, e, w, lp);
      PostsAreToListed(ls[1..], e, w, lp);
      FirstInOrder(Post(e, ls[0], w, lp), PostsTo(ls[1..], e, w, lp), vs, e);
    }
  }

  /** An event that is received is posted to its listeners in the order in which they were registered, and nothing else is
      ever posted. */
  lemma {:induction false} NoticesFollowRegistrations(vs: seq<Event>, v: Event)
    ensures var before := Run(EMPTY, vs);
      var posts := Step(before, v).posts;
      if v.Notify? then before.posts <= posts && PostsInOrder(posts[|before.posts|..], vs, v.event)
      else posts == before.posts
  {
    if v.Notify? {
      var before := Run(EMPTY, vs);
      var ls := ListOf(before, v.event);
      ListsKeepOrder(vs, v.event);
      PostsFollow(ls, vs, v.event, v.wParam, v.lParam);
      var added := PostsTo(ls, v.event, v.wParam, v.lParam);
      assert Step(before, v).posts == before.posts + added;
      assert (before.posts + added)[|before.posts|..] == added;
    }
  }

  // ---------------------------------------------------------------- the class

  method AnyOf<T(==)>(s: set<T>) returns (x: T)
    requires s != {}
    ensures x in s
  {
    x :| x in s;
  }

  class EventHolder {
    var eventMap: map<int, seq<Listener>>
    /** What the receiver is armed for. */
    var armed: set<int>
    /** What was posted to the activities of the listeners. */
    var posts: seq<Post>

    function View(): Holder
      reads this
    {
      Holder(eventMap, armed, posts)
    }

    constructor ()
      ensures View() == EMPTY
    {
      eventMap, armed, posts := map[], {}, [];
    }

    method AddListener(e: int, l: Listener) returns (ok: bool)
      modifies this
      ensures ok && View() == Added(old(View()), e, l)
    {
      if e !in eventMap {
        eventMap := eventMap[e := [l]];
        armed := armed + {e};
        return true;
      }
      var ls := eventMap[e];
      for i := 0 to |ls|
        invariant l !in ls[..i]
        invariant View() == old(View())
      {
        if ls[i] == l {
          return true;
        }
      }
      assert ls[..|ls|] == ls;
      eventMap := eventMap[e := ls + [l]];
      return true;
    }

    method RemoveListener(e: int, l: Listener)
      modifies this
      ensures View() == Removed(old(View()), e, l)
    {
      if e !in eventMap {
        return;
      }
      var ls := eventMap[e];
      var i := 0;
      while i < |ls| && ls[i] != l
        invariant 0 <= i <= |ls| && l !in ls[..i]
      {
        i := i + 1;
      }
      if i < |ls| {
        WithoutAt(ls, l, i);
        eventMap := eventMap[e := ls[..i] + ls[i + 1..]];
      } else {
        assert ls[..|ls|] == ls;
        WithoutNone(ls, l);
        assert eventMap[e := ls] == eventMap;
      }
      if eventMap[e] == [] {
        eventMap := eventMap - {e};
        armed := armed - {e};
      }
    }

    method SetUnregisteredEvents()
      modifies `armed
      ensures View() == Rearmed(old(View()))
    {
      var left: set<int> := eventMap.Keys;
      while left != {}
        invariant left <= eventMap.Keys
        invariant armed == old(armed) + (eventMap.Keys - left)
        decreases |left|
      {
        var e := AnyOf(left);
        armed := armed + {e};
        left := left - {e};
      }
    }

    method NotifyEvent(e: int, wParam: int, lParam: int) returns (handled: bool)
      modifies `posts
      ensures View() == Notified(old(View()), e, wParam, lParam)
      ensures handled <==> e in eventMap && eventMap[e] != []
    {
      if e !in eventMap {
        return false;
      }
      var ls := eventMap[e];
      if ls == [] {
        return false;
      }
      for i := 0 to |ls|
        invariant posts + PostsTo(ls[i..], e, wParam, lParam) == old(posts) + PostsTo(ls, e, wParam, lParam)
      {
        assert ls[i..][1..] == ls[i + 1..];
        if ls[i] != NULL_LISTENER {
          posts := posts + [Post(e, ls[i], wParam, lParam)];
        }
      }
      return true;
    }
  }
}
