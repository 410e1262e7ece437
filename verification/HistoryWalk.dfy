/**
 The worklist walk behind live history. The inode graph may hold cycles and shared inodes; the
 walk terminates on every finite graph and fails exactly when an inode is reachable by two paths.
 */
module HistoryWalk {
  import opened Results
  import opened ManifestWalk

  const BATCH := 128

  predicate IsDir(store: Store, id: Id) {
    id in store.inodes && store.inodes[id].kind == DirInode
  }

  predicate IsLeaf(store: Store, id: Id) {
    id in store.inodes && (store.inodes[id].kind == FileInode || store.inodes[id].kind == LinkInode)
  }

  /** The inode a path of directory entries leads to. */
  function Reach(store: Store, route: Route): Option<Id> {
    if route == [] then Some(ROOT_INODE)
    else
      var parent, name := route[..|route| - 1], route[|route| - 1];
      match Reach(store, parent)
      case None => None
      case Some(id) => if IsDir(store, id) && name in Dirents(store, id) then Some(Dirents(store, id)[name]) else None
  }

  /** Every inode has at most one path from the root. */
  ghost predicate ReachedOnce(store: Store) {
    forall p, q :: Reach(store, p).Some? && Reach(store, p) == Reach(store, q) ==> p == q
  }

  /** The live files and symlinks, each at its directory-entry path. */
  ghost predicate LiveStates(store: Store, states: map<Route, Id>) {
    && (forall q :: q in states <==> Reach(store, q).Some? && IsLeaf(store, Reach(store, q).value))
    && (forall q :: q in states ==> Reach(store, q) == Some(states[q]))
  }

  /** A file or symlink at the end of a trail. */
  ghost predicate LiveAt(store: Store, route: Route, ids: seq<Id>) {
    && Trail(store, route, ids) && ids[|route|] in store.inodes
    && store.inodes[ids[|route|]].kind in {FileInode, LinkInode}
  }

  lemma {:induction false} TrailReaches(store: Store, route: Route, ids: seq<Id>)
    requires Trail(store, route, ids)
    ensures Reach(store, route) == Some(ids[|route|])
  {
    if route != [] {
      var n := |route| - 1;
      TrailPrefix(store, route, ids, n);
      TrailReaches(store, route[..n], ids[..n + 1]);
      assert ids[n] in store.inodes;
    }
  }

  lemma {:induction false} ReachHasTrail(store: Store, route: Route) returns (ids: seq<Id>)
    requires Reach(store, route).Some?
    ensures Trail(store, route, ids) && ids[|route|] == Reach(store, route).value
  {
    if route == [] {
      ids := [ROOT_INODE];
    } else {
      var n := |route| - 1;
      var before := ReachHasTrail(store, route[..n]);
      ids := before + [Reach(store, route).value];
      forall i | 0 <= i < |route| ensures TrailAt(store, route, ids, i) {
        if i < n {
          assert TrailAt(store, route[..n], before, i);
        }
      }
    }
  }

  /** What the walk lists is what some trail leads to: every live file and symlink, at every path it has. */
  lemma LiveIsTrail(store: Store, states: map<Route, Id>)
    requires LiveStates(store, states)
    ensures forall q, ids :: LiveAt(store, q, ids) ==> Lookup(states, q) == Some(ids[|q|])
    ensures forall q :: q in states ==> exists ids :: LiveAt(store, q, ids)
  {
    forall q, ids | LiveAt(store, q, ids) ensures Lookup(states, q) == Some(ids[|q|]) {
      TrailReaches(store, q, ids);
    }
    forall q | q in states ensures exists ids :: LiveAt(store, q, ids) {
      var ids := ReachHasTrail(store, q);
      assert LiveAt(store, q, ids);
    }
  }

  function Parent(q: Route): Route
    requires q != []
  {
    q[..|q| - 1]
  }

  /** Progress of the walk: `known` maps reached paths to inodes, `queued` holds paths still to visit,
      `open` those visited whose children are not listed yet. */
  datatype Progress = Progress(known: map<Route, Id>, queued: set<Route>, open: set<Route>) {
    ghost predicate Valid(store: Store) {
      && (forall q :: q in known ==> Reach(store, q) == Some(known[q]))
      && (forall q :: q in queued ==> Reach(store, q).Some?)
      && known.Keys !! queued && open <= known.Keys
      && (forall p, q :: p in known && q in known && known[p] == known[q] ==> p == q)
      && ([] in known || [] in queued)
      && (forall q {:trigger Parent(q)} ::
            q != [] && Reach(store, q).Some? && Parent(q) in known && Parent(q) !in open ==> q in known || q in queued)
      && (forall q {:trigger Parent(q)} :: (q in known || q in queued) && q != [] ==>
            Parent(q) in known && Parent(q) !in open)
    }
  }

  /** With nothing queued or open, every reachable path is known. */
  lemma {:induction false} AllKnown(store: Store, s: Progress, q: Route)
    requires s.Valid(store) && s.queued == {} && s.open == {} && Reach(store, q).Some?
    ensures q in s.known
  {
    if q != [] {
      AllKnown(store, s, Parent(q));
    }
  }

  lemma VisitNext(store: Store, s: Progress, q: Route, id: Id)
    requires s.Valid(store) && q in s.queued && Reach(store, q) == Some(id)
    requires forall p :: p in s.known ==> s.known[p] != id
    ensures Progress(s.known[q := id], s.queued - {q}, s.open + {q}).Valid(store)
  {
  }

  lemma ReachedTwice(store: Store, s: Progress, q: Route, p: Route)
    requires s.Valid(store) && q in s.queued && p in s.known && Reach(store, q) == Some(s.known[p])
    ensures !ReachedOnce(store)
  {
    assert Reach(store, p) == Reach(store, q) && p != q;
  }

  /** The paths of the children the walk lists for an inode. */
  ghost function ChildRoutes(store: Store, q: Route, id: Id): set<Route> {
    if IsDir(store, id) then set name | name in Dirents(store, id) :: q + [name] else {}
  }

  lemma ChildRouteFacts(store: Store, q: Route, id: Id, p: Route)
    requires Reach(store, q) == Some(id)
    ensures p in ChildRoutes(store, q, id) <==> p != [] && Parent(p) == q && Reach(store, p).Some?
  {
    if p in ChildRoutes(store, q, id) {
      assert p[..|p| - 1] == q;
    }
    if p != [] && Parent(p) == q && Reach(store, p).Some? {
      assert p == q + [p[|p| - 1]];
    }
  }

  lemma ListOpen(store: Store, s: Progress, q: Route, kids: set<Route>)
    requires s.Valid(store) && q in s.open
    requires forall p {:trigger Parent(p)} {:trigger p in kids} ::
               p in kids <==> p != [] && Parent(p) == q && Reach(store, p).Some?
    ensures kids !! s.known.Keys && kids !! s.queued
    ensures Progress(s.known, s.queued + kids, s.open - {q}).Valid(store)
  {
    forall p | p in kids
      ensures p !in s.known && p !in s.queued
    {
      assert Parent(p) == q;
    }
  }

  // ---- The loop ------------------------------------------------------------------

  ghost predicate QueueIs(store: Store, queue: seq<Item>, queued: set<Route>) {
    && (forall i :: 0 <= i < |queue| ==> Reach(store, queue[i].route) == Some(queue[i].id))
    && DistinctRoutes(queue)
    && Routes(queue) == queued
  }

  /** All inode identifiers the walk can meet. */
  ghost function Universe(store: Store): set<Id> {
    {ROOT_INODE} + set d, name | d in store.dirents && name in store.dirents[d] :: store.dirents[d][name]
  }

  lemma ReachInUniverse(store: Store, q: Route)
    requires Reach(store, q).Some?
    ensures Reach(store, q).value in Universe(store)
  {
  }

  lemma QueueTail(store: Store, queue: seq<Item>, queued: set<Route>)
    requires QueueIs(store, queue, queued) && queue != []
    ensures queue[0].route in queued && QueueIs(store, queue[1..], queued - {queue[0].route})
  {
    HeadRoute(queue);
  }

  lemma QueueAppend(store: Store, queue: seq<Item>, queued: set<Route>, kids: seq<Item>, more: set<Route>)
    requires QueueIs(store, queue, queued) && QueueIs(store, kids, more) && queued !! more
    ensures QueueIs(store, queue + kids, queued + more)
  {
    RoutesConcat(queue, kids);
    DistinctConcat(queue, kids);
  }

  /** The states collected so far: the leaves among the known paths that are no longer open. */
  ghost predicate StatesOf(store: Store, s: Progress, states: map<Route, Id>) {
    && (forall q :: q in states <==> q in s.known && q !in s.open && IsLeaf(store, s.known[q]))
    && (forall q :: q in states ==> states[q] == s.known[q])
  }

  function Mark(s: Progress, item: Item): Progress {
    Progress(s.known[item.route := item.id], s.queued - {item.route}, s.open + {item.route})
  }

  function MarkAll(s: Progress, batch: seq<Item>): Progress {
    if batch == [] then s else Mark(MarkAll(s, batch[..|batch| - 1]), batch[|batch| - 1])
  }

  lemma MarkStep(store: Store, s: Progress, item: Item, tail: seq<Item>, seen: set<Id>)
    requires s.Valid(store) && QueueIs(store, [item] + tail, s.queued) && seen == s.known.Values
    ensures item.id in seen ==> !ReachedOnce(store)
    ensures item.id !in seen ==> Mark(s, item).Valid(store) && QueueIs(store, tail, Mark(s, item).queued)
    ensures item.id !in seen ==> Mark(s, item).known.Values == seen + {item.id}
  {
    QueueTail(store, [item] + tail, s.queued);
    assert ([item] + tail)[1..] == tail && ([item] + tail)[0] == item;
    if item.id in seen {
      var p :| p in s.known && s.known[p] == item.id;
      ReachedTwice(store, s, item.route, p);
    } else {
      VisitNext(store, s, item.route, item.id);
      var known := s.known[item.route := item.id];
      forall id | id in seen + {item.id} ensures id in known.Values {
        if id == item.id {
          assert known[item.route] == id;
        } else {
          var p :| p in s.known && s.known[p] == id;
          assert known[p] == id;
        }
      }
    }
  }

  lemma NextMark(s: Progress, batch: seq<Item>, rest: seq<Item>, i: nat)
    requires i < |batch|
    ensures batch[i..] + rest == [batch[i]] + (batch[i + 1..] + rest)
    ensures MarkAll(s, batch[..i + 1]) == Mark(MarkAll(s, batch[..i]), batch[i])
  {
    assert batch[..i + 1][..i] == batch[..i];
  }

  /** Marks every inode of the batch, failing on one already seen. */
  method MarkBatch(store: Store, batch: seq<Item>, ghost rest: seq<Item>, seen: set<Id>, ghost s: Progress)
    returns (ok: bool, seen': set<Id>)
    requires s.Valid(store) && QueueIs(store, batch + rest, s.queued) && seen == s.known.Values
    ensures ok ==> MarkAll(s, batch).Valid(store) && QueueIs(store, rest, MarkAll(s, batch).queued)
    ensures ok ==> seen' == MarkAll(s, batch).known.Values && seen <= seen'
    ensures ok ==> forall i :: 0 <= i < |batch| ==> batch[i].id in seen' && batch[i].id !in seen
    ensures !ok ==> !ReachedOnce(store)
  {
    seen' := seen;
    assert batch[0..] == batch;
    for i := 0 to |batch|
      invariant MarkAll(s, batch[..i]).Valid(store) && QueueIs(store, batch[i..] + rest, MarkAll(s, batch[..i]).queued)
      invariant seen' == MarkAll(s, batch[..i]).known.Values && seen <= seen'
      invariant forall k :: 0 <= k < i ==> batch[k].id in seen' && batch[k].id !in seen
    {
      NextMark(s, batch, rest, i);
      MarkStep(store, MarkAll(s, batch[..i]), batch[i], batch[i + 1..] + rest, seen');
      if batch[i].id in seen' {
        return false, seen';
      }
      seen' := seen' + {batch[i].id};
    }
    assert batch[..|batch|] == batch && batch[|batch|..] + rest == rest;
    ok := true;
  }

  lemma {:induction false} MarkAllFacts(s: Progress, batch: seq<Item>)
    ensures MarkAll(s, batch).open == s.open + Routes(batch)
    ensures MarkAll(s, batch).known.Keys == s.known.Keys + Routes(batch)
    ensures forall q :: q in s.known && q !in Routes(batch) ==> MarkAll(s, batch).known[q] == s.known[q]
  {
    if batch != [] {
      var last := |batch| - 1;
      MarkAllFacts(s, batch[..last]);
      assert batch == batch[..last] + [batch[last]];
      RoutesConcat(batch[..last], [batch[last]]);
      assert Routes([batch[last]]) == {batch[last].route};
    }
  }

  lemma StatesUnaffected(store: Store, s: Progress, batch: seq<Item>, states: map<Route, Id>)
    requires s.Valid(store) && s.open == {} && StatesOf(store, s, states) && Routes(batch) !! s.known.Keys
    ensures StatesOf(store, MarkAll(s, batch), states)
  {
    MarkAllFacts(s, batch);
  }

  lemma KidReached(store: Store, dir: Item, kid: Item, name: Name)
    requires Reach(store, dir.route) == Some(dir.id) && IsDir(store, dir.id) && KidOf(store, dir, kid, name)
    ensures Reach(store, kid.route) == Some(kid.id)
  {
    assert kid.route[..|kid.route| - 1] == dir.route;
  }

  lemma KidsRoutes(store: Store, dir: Item, kids: seq<Item>, names: seq<Name>)
    requires IsDir(store, dir.id) && KidsOf(store, dir, kids, names)
    requires forall name :: name in Dirents(store, dir.id) ==> name in names
    ensures Routes(kids) == ChildRoutes(store, dir.route, dir.id)
  {
    forall route ensures route in Routes(kids) <==> route in ChildRoutes(store, dir.route, dir.id) {
      if route in Routes(kids) {
        var k :| 0 <= k < |kids| && kids[k].route == route;
        assert KidOf(store, dir, kids[k], names[k]);
      }
      if route in ChildRoutes(store, dir.route, dir.id) {
        var name :| name in Dirents(store, dir.id) && route == dir.route + [name];
        var k :| 0 <= k < |names| && names[k] == name;
        assert KidOf(store, dir, kids[k], names[k]);
        assert kids[k] in kids;
      }
    }
  }

  lemma KidsQueue(store: Store, dir: Item, kids: seq<Item>, names: seq<Name>)
    requires Reach(store, dir.route) == Some(dir.id) && IsDir(store, dir.id) && KidsOf(store, dir, kids, names)
    requires NamesOnce(names) && forall name :: name in Dirents(store, dir.id) ==> name in names
    ensures QueueIs(store, kids, ChildRoutes(store, dir.route, dir.id))
  {
    forall k | 0 <= k < |kids| ensures Reach(store, kids[k].route) == Some(kids[k].id) {
      KidReached(store, dir, kids[k], names[k]);
    }
    KidsDistinct(store, dir, kids, names);
    KidsRoutes(store, dir, kids, names);
  }

  /** One marked item: a directory lists its children, a file or symlink becomes a state. */
  method ExpandItem(store: Store, item: Item, queue: seq<Item>, states: map<Route, Id>, ghost s: Progress)
    returns (queue': seq<Item>, states': map<Route, Id>, ghost s': Progress)
    requires s.Valid(store) && item.route in s.open && s.known[item.route] == item.id
    requires QueueIs(store, queue, s.queued) && StatesOf(store, s, states)
    ensures s'.Valid(store) && s'.known == s.known && s'.open == s.open - {item.route}
    ensures QueueIs(store, queue', s'.queued) && StatesOf(store, s', states')
  {
    queue', states' := queue, states;
    ghost var more := ChildRoutes(store, item.route, item.id);
    forall p {:trigger Parent(p)} {:trigger p in more}
      ensures p in more <==> p != [] && Parent(p) == item.route && Reach(store, p).Some?
    {
      ChildRouteFacts(store, item.route, item.id, p);
    }
    ListOpen(store, s, item.route, more);
    s' := Progress(s.known, s.queued + more, s.open - {item.route});
    if IsDir(store, item.id) {
      var kids, names := ListChildren(store, item);
      KidsQueue(store, item, kids, names);
      QueueAppend(store, queue, s.queued, kids, more);
      queue' := queue + kids;
    } else {
      assert s.queued + more == s.queued;
      if IsLeaf(store, item.id) {
        states' := states[item.route := item.id];
      }
    }
  }

  method ExpandBatch(store: Store, batch: seq<Item>, queue: seq<Item>, states: map<Route, Id>, ghost s: Progress)
    returns (queue': seq<Item>, states': map<Route, Id>, ghost s': Progress)
    requires s.Valid(store) && s.open == Routes(batch) && QueueIs(store, queue, s.queued) && StatesOf(store, s, states)
    requires forall i :: 0 <= i < |batch| ==> batch[i].route in s.known && s.known[batch[i].route] == batch[i].id
    requires DistinctRoutes(batch)
    ensures s'.Valid(store) && s'.known == s.known && s'.open == {}
    ensures QueueIs(store, queue', s'.queued) && StatesOf(store, s', states')
  {
    queue', states', s' := queue, states, s;
    assert batch[0..] == batch;
    for i := 0 to |batch|
      invariant s'.Valid(store) && s'.known == s.known && s'.open == Routes(batch[i..]) && DistinctRoutes(batch[i..])
      invariant QueueIs(store, queue', s'.queued) && StatesOf(store, s', states')
    {
      HeadRoute(batch[i..]);
      assert batch[i..][1..] == batch[i + 1..];
      queue', states', s' := ExpandItem(store, batch[i], queue', states', s');
    }
  }

  lemma Finished(store: Store, s: Progress, states: map<Route, Id>)
    requires s.Valid(store) && s.queued == {} && s.open == {} && StatesOf(store, s, states)
    ensures ReachedOnce(store) && LiveStates(store, states)
  {
    forall q | Reach(store, q).Some?
      ensures q in s.known
    {
      AllKnown(store, s, q);
    }
  }

  lemma InitialProgress(store: Store)
    ensures var s := Progress(map[], {[]}, {});
            && s.Valid(store) && QueueIs(store, [Item(ROOT_INODE, [])], s.queued)
            && StatesOf(store, s, map[]) && s.known.Values == {}
  {
    var queue := [Item(ROOT_INODE, [])];
    assert queue[0] in queue;
  }

  /** A marked batch is open, known and distinct, and the states are as before. */
  lemma ReadyToExpand(store: Store, batch: seq<Item>, rest: seq<Item>, s: Progress, states: map<Route, Id>)
    requires s.Valid(store) && s.open == {} && QueueIs(store, batch + rest, s.queued) && StatesOf(store, s, states)
    requires MarkAll(s, batch).Valid(store)
    ensures var s' := MarkAll(s, batch);
            && s'.open == Routes(batch) && DistinctRoutes(batch) && StatesOf(store, s', states)
            && forall i :: 0 <= i < |batch| ==> batch[i].route in s'.known && s'.known[batch[i].route] == batch[i].id
  {
    MarkAllFacts(s, batch);
    MarkedRoutes(store, batch, rest, MarkAll(s, batch), s);
    RoutesConcat(batch, rest);
    StatesUnaffected(store, s, batch, states);
  }

  /** One round of the loop: mark a batch, then expand it. */
  method RunBatch(store: Store, batch: seq<Item>, rest: seq<Item>, states: map<Route, Id>, seen: set<Id>,
                  ghost s: Progress)
    returns (ok: bool, queue: seq<Item>, states': map<Route, Id>, seen': set<Id>, ghost s': Progress)
    requires s.Valid(store) && s.open == {} && QueueIs(store, batch + rest, s.queued)
    requires seen == s.known.Values && StatesOf(store, s, states)
    ensures !ok ==> !ReachedOnce(store)
    ensures ok ==> s'.Valid(store) && s'.open == {} && QueueIs(store, queue, s'.queued)
    ensures ok ==> seen' == s'.known.Values && StatesOf(store, s', states')
    ensures ok ==> seen <= seen' && forall i :: 0 <= i < |batch| ==> batch[i].id in seen' && batch[i].id !in seen
  {
    queue, states', s' := rest, states, s;
    ok, seen' := MarkBatch(store, batch, rest, seen, s);
    if !ok {
      return;
    }
    s' := MarkAll(s, batch);
    ReadyToExpand(store, batch, rest, s, states);
    queue, states', s' := ExpandBatch(store, batch, rest, states, s');
  }

  /** Terminates on every finite graph; succeeds exactly when no inode has two paths, and then
      returns exactly the live files and symlinks. */
  method LiveHistoryStates(store: Store) returns (result: Option<map<Route, Id>>)
    ensures result.Some? <==> ReachedOnce(store)
    ensures result.Some? ==> LiveStates(store, result.value)
    ensures result.Some? ==>
              && (forall q, ids :: LiveAt(store, q, ids) ==> Lookup(result.value, q) == Some(ids[|q|]))
              && (forall q :: q in result.value ==> exists ids :: LiveAt(store, q, ids))
  {
    result := WalkHistory(store);
    if result.Some? {
      LiveIsTrail(store, result.value);
    }
  }

  method WalkHistory(store: Store) returns (result: Option<map<Route, Id>>)
    ensures result.Some? <==> ReachedOnce(store)
    ensures result.Some? ==> LiveStates(store, result.value)
  {
    var queue := [Item(ROOT_INODE, [])];
    var states: map<Route, Id>, seen: set<Id> := map[], {};
    ghost var s := Progress(map[], {[]}, {});
    InitialProgress(store);
    while queue != []
      invariant s.Valid(store) && s.open == {} && QueueIs(store, queue, s.queued)
      invariant seen == s.known.Values && StatesOf(store, s, states)
      decreases |Universe(store) - seen|
    {
      var n := if |queue| > BATCH then BATCH else |queue|;
      var batch, rest := queue[..n], queue[n..];
      SplitQueue(queue, n);
      ReachInUniverse(store, batch[0].route);
      ghost var before := Universe(store) - seen;
      var ok;
      ok, queue, states, seen, s := RunBatch(store, batch, rest, states, seen, s);
      if !ok {
        return None;
      }
      Shrinks(Universe(store) - seen, before, batch[0].id);
    }
    Finished(store, s, states);
    return Some(states);
  }

  lemma SplitQueue(queue: seq<Item>, n: nat)
    requires n <= |queue|
    ensures queue == queue[..n] + queue[n..]
  {
  }

  lemma Shrinks(small: set<Id>, big: set<Id>, x: Id)
    requires small <= big && x in big && x !in small
    ensures |small| < |big|
  {
    assert small <= big - {x};
    Subset(small, big - {x});
  }

  lemma {:induction false} Subset(a: set<Id>, b: set<Id>)
    requires a <= b
    ensures |a| <= |b|
  {
    if a != {} {
      var x :| x in a;
      Subset(a - {x}, b - {x});
    }
  }

  lemma MarkedRoutes(store: Store, batch: seq<Item>, rest: seq<Item>, s': Progress, s: Progress)
    requires QueueIs(store, batch + rest, s.queued) && s'.Valid(store) && Routes(batch) <= s'.known.Keys
    ensures forall i :: 0 <= i < |batch| ==> batch[i].route in s'.known && s'.known[batch[i].route] == batch[i].id
    ensures DistinctRoutes(batch)
  {
    forall i | 0 <= i < |batch|
      ensures batch[i].route in s'.known && s'.known[batch[i].route] == batch[i].id
    {
      assert batch[i] in batch && (batch + rest)[i] == batch[i];
    }
    DistinctConcat(batch, rest);
  }
}
