/**
 The two trees, the baseline and the conflict copies of a recovery pass, the changes its steps make to
 them, and what every change keeps: no bytes that were not synchronised at their path beforehand are
 lost. They stay at that path on some side, or in a conflict copy moved from it.
 */
module RecoveryWorld {
  import opened Hashing
  import opened Paths
  import opened RecoveryPlan
  import opened Results

  /** `copies` sends a conflict copy to the path it was moved from; `known` are the paths of the pass,
      `done` those it has written. */
  datatype World = World(local: Tree, remote: Tree, base: Baseline, next: nat, copies: map<Path, Path>,
                         known: set<Path>, done: set<Path>)

  predicate Has(t: Tree, p: Path, content: Bytes) {
    p in t && t[p].File? && t[p].content == content
  }

  /** The bytes exist on some side at the path, or in a conflict copy of it. */
  ghost predicate Kept(w: World, p: Path, content: Bytes) {
    || Has(w.local, p, content) || Has(w.remote, p, content)
    || exists q :: q in w.copies && w.copies[q] == p && Has(w.local, q, content)
  }

  /** Bytes at a path that its baseline does not record. */
  ghost predicate Unsynchronised(w: World, p: Path, content: Bytes) {
    (Has(w.local, p, content) || Has(w.remote, p, content)) && !Synced(w.base, p, content)
  }

  ghost predicate NothingLost(w0: World, w: World) {
    forall p, content :: Unsynchronised(w0, p, content) ==> Kept(w, p, content)
  }

  // ---- What every step keeps ----------------------------------------------------------------

  /** Files not yet written by the pass are as they were. */
  ghost predicate Untouched(w0: World, w: World) {
    && (forall q :: q in w.local && w.local[q].File? ==>
          q in w.copies || q in w.done || Lookup(w0.local, q) == Some(w.local[q]))
    && (forall q :: q in w.remote && w.remote[q].File? ==> q in w.done || Lookup(w0.remote, q) == Some(w.remote[q]))
  }

  /** A recorded file is the one recorded before the pass, or what the pass left on the remote side. */
  ghost predicate Recorded(w0: World, w: World) {
    forall q :: q in w.base && w.base[q].content.Some? ==>
      Synced(w0.base, q, w.base[q].content.value) || (q in w.done && Has(w.remote, q, w.base[q].content.value))
  }

  /** One of the sides has a file there. */
  predicate FileAt(w: World, p: Path) {
    (p in w.local && w.local[p].File?) || (p in w.remote && w.remote[p].File?)
  }

  predicate HoldsNone(known: set<Path>, c: Path) {
    forall q :: q in known ==> !Within(q, c)
  }

  ghost predicate Inv(w0: World, w: World) {
    && w.known == w0.local.Keys + w0.remote.Keys + w0.base.Keys
    && w.base.Keys <= w.known && w.copies.Keys !! w.known
    && (forall c :: c in w.copies ==> HoldsNone(w.known, c)) && (forall q :: q in w.done ==> FileAt(w0, q))
    && Untouched(w0, w) && Recorded(w0, w) && NothingLost(w0, w)
  }

  ghost predicate SameFiles(t: Tree, t': Tree) {
    && (forall q :: q in t && t[q].File? ==> q in t' && t'[q] == t[q])
    && (forall q :: q in t' && t'[q].File? ==> q in t && t'[q] == t[q])
  }

  lemma DirectoriesKeep(w0: World, w: World, local: Tree, remote: Tree)
    requires Inv(w0, w) && SameFiles(w.local, local) && SameFiles(w.remote, remote)
    ensures Inv(w0, w.(local := local, remote := remote))
  {
    var w' := w.(local := local, remote := remote);
    forall p, content | Unsynchronised(w0, p, content) ensures Kept(w', p, content) {
      assert Kept(w, p, content);
    }
  }

  lemma BaselineKeeps(w0: World, w: World, base: Baseline, next: nat)
    requires Inv(w0, w) && base.Keys <= w.known && Recorded(w0, w.(base := base))
    ensures Inv(w0, w.(base := base, next := next))
  {
    var w' := w.(base := base, next := next);
    forall p, content | Unsynchronised(w0, p, content) ensures Kept(w', p, content) {
      assert Kept(w, p, content);
    }
  }

  function PutLocal(w: World, p: Path, n: Node): World {
    w.(local := w.local[p := n], done := w.done + {p})
  }

  lemma PutLocalKeeps(w0: World, w: World, p: Path, n: Node)
    requires Inv(w0, w) && p in w.known && n.File? && FileAt(w0, p)
    requires p in w.local && w.local[p].File? ==>
               Synced(w0.base, p, w.local[p].content) || w.local[p].content == n.content
    ensures Inv(w0, PutLocal(w, p, n))
  {
    var w' := PutLocal(w, p, n);
    forall q, content | Unsynchronised(w0, q, content) ensures Kept(w', q, content) {
      assert Kept(w, q, content);
      if c :| c in w.copies && w.copies[c] == q && Has(w.local, c, content) {
        assert c in w'.copies && w'.copies[c] == q && Has(w'.local, c, content);
      }
    }
  }

  function PutRemote(w: World, p: Path, n: Node): World {
    w.(remote := w.remote[p := n], done := w.done + {p})
  }

  lemma PutRemoteKeeps(w0: World, w: World, p: Path, n: Node)
    requires Inv(w0, w) && n.File? && p !in w.done && FileAt(w0, p)
    requires p in w.remote && w.remote[p].File? ==>
               Synced(w0.base, p, w.remote[p].content) || w.remote[p].content == n.content
    ensures Inv(w0, PutRemote(w, p, n))
  {
    var w' := PutRemote(w, p, n);
    forall q, content | Unsynchronised(w0, q, content) ensures Kept(w', q, content) {
      assert Kept(w, q, content);
    }
  }

  function RemoveRemote(w: World, p: Path): World {
    w.(remote := w.remote - {p})
  }

  lemma RemoveRemoteKeeps(w0: World, w: World, p: Path)
    requires Inv(w0, w) && p !in w.done
    requires p in w.remote && w.remote[p].File? ==> Synced(w0.base, p, w.remote[p].content)
    ensures Inv(w0, RemoveRemote(w, p))
  {
    var w' := RemoveRemote(w, p);
    forall q, content | Unsynchronised(w0, q, content) ensures Kept(w', q, content) {
      assert Kept(w, q, content);
    }
  }

  /** Removes a subtree, or all of it but what is in `left` and the directories that is in. */
  function RemoveLocalTree(w: World, p: Path, left: set<Path>): World {
    w.(local := map q | q in w.local && (!Within(q, p) || exists x :: x in left && x in w.local && Within(x, q)) ::
         w.local[q])
  }

  lemma RemoveLocalTreeKeeps(w0: World, w: World, p: Path, left: set<Path>)
    requires Inv(w0, w)
    requires forall q :: q in w.local && w.local[q].File? && Within(q, p) ==>
               q !in w.copies && (Synced(w0.base, q, w.local[q].content) || Has(w.remote, q, w.local[q].content))
    ensures Inv(w0, RemoveLocalTree(w, p, left))
  {
    var w' := RemoveLocalTree(w, p, left);
    forall q, content | Unsynchronised(w0, q, content) ensures Kept(w', q, content) {
      assert Kept(w, q, content);
      if Has(w.local, q, content) && q !in w'.local {
        assert Has(w'.remote, q, content);
      }
      if c :| c in w.copies && w.copies[c] == q && Has(w.local, c, content) {
        assert c in w'.copies && w'.copies[c] == q && Has(w'.local, c, content);
      }
    }
  }

  // ---- Moving a subtree aside ------------------------------------------------------------------

  function MovedFrom(p: Path, target: Path, r: Path): Path
    requires |target| <= |r|
  {
    p + r[|target|..]
  }

  lemma MoveRoundTrip(p: Path, target: Path, q: Path)
    requires Within(q, p)
    ensures MovedFrom(p, target, Relocate(p, target, q)) == q && Within(Relocate(p, target, q), target)
  {
    assert q == p + q[|p|..];
    var r := Relocate(p, target, q);
    assert r[|target|..] == q[|p|..] && r[..|target|] == target;
  }

  function Targets(t: Tree, p: Path, target: Path): set<Path> {
    set q | q in t && Within(q, p) :: Relocate(p, target, q)
  }

  /** Renames a subtree to a conflict copy, remembering where everything in it came from. */
  function MoveAside(w: World, p: Path, target: Path): World {
    var moved := Targets(w.local, p, target);
    var kept := map q | q in w.local && !Within(q, p) :: w.local[q];
    var copies := map q | q in w.copies && !Within(q, p) :: w.copies[q];
    w.(local := kept + map r | r in moved && |target| <= |r| && MovedFrom(p, target, r) in w.local ::
                         w.local[MovedFrom(p, target, r)],
       copies := copies + map r | r in moved && |target| <= |r| ::
                   var q := MovedFrom(p, target, r); if q in w.copies then w.copies[q] else q)
  }

  /** A name no path of the pass uses or lies below. */
  ghost predicate FreshName(w: World, target: Path) {
    forall q :: q in w.known + w.local.Keys + w.copies.Keys ==> !Within(q, target)
  }

  lemma MovedNode(w: World, p: Path, target: Path, q: Path)
    requires q in w.local && Within(q, p) && FreshName(w, target)
    ensures var w', r := MoveAside(w, p, target), Relocate(p, target, q);
            && r in w'.local && w'.local[r] == w.local[q]
            && r in w'.copies && w'.copies[r] == (if q in w.copies then w.copies[q] else q)
  {
    MoveRoundTrip(p, target, q);
    assert Relocate(p, target, q) in Targets(w.local, p, target);
  }

  lemma StayingNode(w: World, p: Path, target: Path, q: Path)
    requires q in w.local && !Within(q, p) && FreshName(w, target)
    ensures var w' := MoveAside(w, p, target);
            q in w'.local && w'.local[q] == w.local[q] && Lookup(w'.copies, q) == Lookup(w.copies, q)
  {
    assert !Within(q, target);
    if q in Targets(w.local, p, target) {
      var x :| x in w.local && Within(x, p) && Relocate(p, target, x) == q;
      MoveRoundTrip(p, target, x);
    }
  }

  lemma MovedTarget(w: World, p: Path, target: Path, r: Path)
    requires r in Targets(w.local, p, target)
    ensures Within(r, target)
  {
    var q :| q in w.local && Within(q, p) && Relocate(p, target, q) == r;
    MoveRoundTrip(p, target, q);
  }

  lemma CopyHoldsNone(w: World, p: Path, target: Path, r: Path)
    requires FreshName(w, target) && r in MoveAside(w, p, target).copies
    requires r in w.copies ==> HoldsNone(w.known, r)
    ensures HoldsNone(w.known, r) && r !in w.known
  {
    if r in Targets(w.local, p, target) {
      MovedTarget(w, p, target, r);
      forall q | q in w.known ensures !Within(q, r) {
        assert !Within(q, target);
        if Under(q, r) && Under(r, target) {
          UnderTransitive(q, r, target);
        }
      }
    }
    assert r in w.known ==> Within(r, r);
  }

  lemma MoveAsideKeeps(w0: World, w: World, p: Path, target: Path)
    requires Inv(w0, w) && FreshName(w, target)
    ensures Inv(w0, MoveAside(w, p, target))
  {
    var w' := MoveAside(w, p, target);
    forall r | r in w'.copies ensures HoldsNone(w.known, r) && r !in w.known {
      CopyHoldsNone(w, p, target, r);
    }
    forall q | q in w'.local && w'.local[q].File?
      ensures q in w'.copies || q in w'.done || Lookup(w0.local, q) == Some(w'.local[q])
    {
      if q !in w'.copies {
        assert q in w.local && !Within(q, p);
        StayingNode(w, p, target, q);
      }
    }
    forall q, content | Unsynchronised(w0, q, content) ensures Kept(w', q, content) {
      assert Kept(w, q, content);
      MoveKeepsBytes(w0, w, p, target, q, content);
    }
  }

  lemma MoveKeepsBytes(w0: World, w: World, p: Path, target: Path, q: Path, content: Bytes)
    requires Inv(w0, w) && FreshName(w, target) && q in w.known && Kept(w, q, content)
    ensures Kept(MoveAside(w, p, target), q, content)
  {
    if Has(w.local, q, content) {
      if Within(q, p) { MovedNode(w, p, target, q); } else { StayingNode(w, p, target, q); }
    } else if c :| c in w.copies && w.copies[c] == q && Has(w.local, c, content) {
      if Within(c, p) { MovedNode(w, p, target, c); } else { StayingNode(w, p, target, c); }
    }
  }

  // ---- Actions -----------------------------------------------------------------------------------

  /** A planned action, with the observations it was planned from. */
  datatype Action = Action(path: Path, decision: Decision, isDir: bool, mode: nat, stored: Option<Entry>,
                           localMeta: Option<Meta>, remoteMeta: Option<Meta>)

  predicate Acts(d: Decision) {
    !d.Nothing? && !d.Refresh?
  }

  function ActionAt(local: Tree, remote: Tree, base: Baseline, p: Path): Action {
    var l, r, d := MetaAt(local, p), MetaAt(remote, p), DecisionAt(local, remote, base, p);
    var from := if d.Upload? then l else r;
    Action(p, d, from.Some? && from.value.DirMeta?, if from.Some? then from.value.mode else 0, Lookup(base, p), l, r)
  }

  function PlanOf(local: Tree, remote: Tree, base: Baseline): map<Path, Action> {
    map p | p in local.Keys + remote.Keys && Acts(DecisionAt(local, remote, base, p)) ::
      ActionAt(local, remote, base, p)
  }

  /** A baseline whose records are those of another, up to deletion marks and versions. */
  ghost predicate SameRecords(base: Baseline, base': Baseline) {
    && base'.Keys == base.Keys
    && forall p :: p in base ==> base'[p] == base[p].(deleted := base'[p].deleted, version := base'[p].version)
  }

  /** The situation a pass starts from: bytes change only together with their recorded time. */
  ghost predicate Ready(w: World) {
    && TimesReveal(w.local, w.base, true) && TimesReveal(w.remote, w.base, false) && TimesKnown(w.base)
    && w.copies == map[] && w.done == {} && w.known == w.local.Keys + w.remote.Keys + w.base.Keys
  }

  ghost predicate Planned(w0: World, base: Baseline, a: Action) {
    && SameRecords(w0.base, base) && a == ActionAt(w0.local, w0.remote, base, a.path)
    && a.path in w0.local.Keys + w0.remote.Keys
  }

  ghost predicate AllPlanned(w0: World, base: Baseline, plan: map<Path, Action>) {
    forall p :: p in plan ==> plan[p].path == p && Planned(w0, base, plan[p])
  }

  /** What the step may replace or remove at its path is synchronised. */
  ghost predicate SafeAt(w0: World, w: World, a: Action) {
    && (a.decision == Download(false) && a.localMeta == MetaAt(w.local, a.path) &&
        a.path in w.local && w.local[a.path].File? ==>
          Synced(w0.base, a.path, w.local[a.path].content))
    && (a.decision == Upload && a.remoteMeta == MetaAt(w.remote, a.path) &&
        a.path in w.remote && w.remote[a.path].File? ==>
          Synced(w0.base, a.path, w.remote[a.path].content))
    && (a.stored.Some? && !a.stored.value.isDir && a.stored.value.content.Some? ==>
          Synced(w0.base, a.path, a.stored.value.content.value))
  }

  /** A planned write replaces only synchronised bytes, as long as its path is as it was observed. */
  lemma PlannedIsSafe(w0: World, w: World, base: Baseline, a: Action)
    requires Ready(w0) && Inv(w0, w) && Planned(w0, base, a) && a.path !in w.done
    ensures a.path in w.known && a.path !in w.copies && SafeAt(w0, w, a)
  {
    OverwritesOnlySynced(w0.local, w0.remote, base, a.path);
  }

  predicate StillCurrent(w: World, a: Action) {
    && (a.path in w.base <==> a.stored.Some?)
    && (a.path in w.base ==> w.base[a.path].version == a.stored.value.version)
    && MetaAt(w.local, a.path) == a.localMeta
  }

  predicate RemoteCurrent(w: World, a: Action) {
    MetaAt(w.remote, a.path) == a.remoteMeta
  }

  predicate MatchesStored(n: Node, stored: Option<Entry>) {
    stored.Some? &&
    match n
    case File(content, mode, _) =>
      !stored.value.isDir && mode == stored.value.mode && |content| == stored.value.size &&
      stored.value.content == Some(content)
    case Dir(mode) => stored.value.isDir && mode == stored.value.mode
  }

  predicate RemoteMatchesStored(remote: Tree, p: Path, stored: Option<Entry>) {
    p !in remote ||
    (stored.Some? && remote[p].Dir? == stored.value.isDir &&
     (stored.value.mode != 0 ==> remote[p].mode == stored.value.mode) &&
     (remote[p].File? ==> stored.value.content == Some(remote[p].content)))
  }

  predicate Blocked(t: Tree, p: Path) {
    exists d :: d in Ancestors(p) && d in t && t[d].File?
  }

  const DEFAULT_DIR_MODE := 0x1ED
  const DEFAULT_FILE_MODE := 0x1A4

  /** Missing parents are created with the default mode. */
  function WithParents(t: Tree, p: Path): Tree {
    t + map d | d in Ancestors(p) - t.Keys :: Dir(DEFAULT_DIR_MODE)
  }

  predicate HasChildren(t: Tree, p: Path) {
    exists q :: q in t && Under(q, p)
  }

  function FileEntry(content: Bytes, mode: nat, localMtime: int, remoteMtime: int): Entry {
    Entry(false, mode, |content|, Some(content), localMtime, remoteMtime, false, 0)
  }

  function DirEntry(mode: nat): Entry {
    Entry(true, mode, 0, None, 0, 0, false, 0)
  }

  /** The recorded baseline after an action, unless its entry changed since it was planned. */
  function UpdateState(w: World, a: Action, e: Entry): World {
    if (a.path in w.base) != a.stored.Some? ||
       (a.path in w.base && w.base[a.path].version != a.stored.value.version) then w
    else w.(base := w.base[a.path := e.(version := w.next)], next := w.next + 1)
  }

  lemma UpdateStateKeeps(w0: World, w: World, a: Action, e: Entry)
    requires Inv(w0, w) && a.path in w.known
    requires e.content.Some? ==> a.path in w.done && Has(w.remote, a.path, e.content.value)
    ensures Inv(w0, UpdateState(w, a, e))
  {
    var w' := UpdateState(w, a, e);
    if w' != w {
      assert Recorded(w0, w.(base := w'.base));
      BaselineKeeps(w0, w, w'.base, w'.next);
    }
  }

  lemma ParentsAreElsewhere(t: Tree, p: Path)
    ensures Lookup(WithParents(t, p), p) == Lookup(t, p)
  {
    AncestorsAreAbove(p, p);
  }

  lemma MovedAway(w: World, p: Path, target: Path)
    requires FreshName(w, target) && p in w.known
    ensures p !in MoveAside(w, p, target).local
  {
    if p in Targets(w.local, p, target) {
      MovedTarget(w, p, target, p);
    }
  }

  lemma ParentsKeep(w0: World, w: World, p: Path)
    requires Inv(w0, w)
    ensures Inv(w0, w.(local := WithParents(w.local, p))) && Inv(w0, w.(remote := WithParents(w.remote, p)))
  {
    DirectoriesKeep(w0, w, WithParents(w.local, p), w.remote);
    DirectoriesKeep(w0, w, w.local, WithParents(w.remote, p));
    assert w.(local := WithParents(w.local, p), remote := w.remote) == w.(local := WithParents(w.local, p));
    assert w.(local := w.local, remote := WithParents(w.remote, p)) == w.(remote := WithParents(w.remote, p));
  }

  /** A file at a path of the pass was one before, on some side. */
  lemma FilesStay(w0: World, w: World, p: Path)
    requires Inv(w0, w) && p in w.known && FileAt(w, p)
    ensures FileAt(w0, p)
  {
  }

  lemma MarkKeeps(w0: World, w: World, p: Path)
    requires Inv(w0, w) && FileAt(w0, p)
    ensures Inv(w0, w.(done := w.done + {p}))
  {
    var w' := w.(done := w.done + {p});
    forall q, content | Unsynchronised(w0, q, content) ensures Kept(w', q, content) {
      assert Kept(w, q, content);
    }
  }

  /** Removing a subtree its baseline describes loses nothing. */
  lemma MatchedTreeKeeps(w0: World, w: World, a: Action, left: set<Path>)
    requires Inv(w0, w) && a.path in w.known && a.path !in w.copies
    requires a.stored.Some? && !a.stored.value.isDir && a.stored.value.content.Some? ==>
               Synced(w0.base, a.path, a.stored.value.content.value)
    requires forall q :: q in w.local && Within(q, a.path) ==>
               MatchesStored(w.local[q], if q == a.path then a.stored else Lookup(w.base, q))
    ensures Inv(w0, RemoveLocalTree(w, a.path, left))
  {
    forall q | q in w.local && w.local[q].File? && Within(q, a.path)
      ensures q !in w.copies && (Synced(w0.base, q, w.local[q].content) || Has(w.remote, q, w.local[q].content))
    {
      assert MatchesStored(w.local[q], if q == a.path then a.stored else Lookup(w.base, q));
    }
    RemoveLocalTreeKeeps(w0, w, a.path, left);
  }

  // ---- The pass -------------------------------------------------------------------------------------

  type Namer = (World, Path) -> Path

  ghost predicate FreshNames(namer: Namer) {
    forall w, p :: FreshName(w, namer(w, p))
  }

  /** Both sides and the record hold the same bytes. */
  ghost predicate Agree(w: World, p: Path, content: Bytes) {
    Has(w.local, p, content) && Has(w.remote, p, content) && Synced(w.base, p, content) && !w.base[p].deleted
  }

  predicate CanUpload(w: World, a: Action, cap: nat) {
    && a.path in w.local && w.local[a.path].File? && |w.local[a.path].content| <= cap
    && StillCurrent(w, a) && RemoteCurrent(w, a)
    && !Blocked(w.remote, a.path) && !(a.path in w.remote && w.remote[a.path].Dir?)
  }

  predicate CanDownload(w: World, a: Action) {
    && a.decision.Download? && a.path in w.remote && w.remote[a.path].File? && StillCurrent(w, a)
    && !(a.path in w.base && w.base[a.path].deleted)
    && !Blocked(w.local, a.path) && !(a.path in w.local && w.local[a.path].Dir? && !a.decision.conflict)
  }

  function FileMode(a: Action): nat {
    if a.mode == 0 then DEFAULT_FILE_MODE else a.mode
  }

  /** The remote bytes are recorded as synchronised at a path that holds them. */
  function Adopted(w: World, a: Action, mtime: int): World
    requires a.path in w.remote && w.remote[a.path].File?
  {
    var seen := if a.remoteMeta.Some? && a.remoteMeta.value.FileMeta? then a.remoteMeta.value.mtime else 0;
    UpdateState(w.(done := w.done + {a.path}), a, FileEntry(w.remote[a.path].content, FileMode(a), mtime, seen))
  }

  lemma AdoptKeeps(w0: World, w: World, a: Action)
    requires Inv(w0, w) && a.path in w.known && a.path in w.remote && w.remote[a.path].File?
    ensures forall mtime :: Inv(w0, Adopted(w, a, mtime))
  {
    FilesStay(w0, w, a.path);
    MarkKeeps(w0, w, a.path);
    forall mtime: int ensures Inv(w0, Adopted(w, a, mtime)) {
      var seen := if a.remoteMeta.Some? && a.remoteMeta.value.FileMeta? then a.remoteMeta.value.mtime else 0;
      UpdateStateKeeps(w0, w.(done := w.done + {a.path}), a,
                       FileEntry(w.remote[a.path].content, FileMode(a), mtime, seen));
    }
  }

  /** The destination made ready: parents exist, and a conflicting version is moved aside. */
  function Cleared(w: World, a: Action, target: Path): World
    requires a.decision.Download?
  {
    var next := w.(local := WithParents(w.local, a.path));
    if a.decision.conflict && a.path in w.local then MoveAside(next, a.path, target) else next
  }

  lemma FreshWithParents(w: World, p: Path, target: Path)
    requires FreshName(w, target) && p in w.known
    ensures FreshName(w.(local := WithParents(w.local, p)), target)
  {
    forall d | d in Ancestors(p) ensures !Within(d, target) {
      AncestorsAreAbove(p, d);
      if Within(d, target) {
        if d != target { UnderTransitive(p, d, target); }
      }
    }
  }

  lemma StageKeeps(w0: World, w: World, a: Action, target: Path)
    requires Inv(w0, w) && a.decision.Download? && a.path in w.known && FreshName(w, target)
    ensures Inv(w0, Cleared(w, a, target)) && Cleared(w, a, target).remote == w.remote
    ensures Cleared(w, a, target).base == w.base
    ensures Cleared(w, a, target).known == w.known && Cleared(w, a, target).done == w.done
    ensures Lookup(Cleared(w, a, target).local, a.path) == if a.decision.conflict then None else Lookup(w.local, a.path)
  {
    var next := w.(local := WithParents(w.local, a.path));
    ParentsKeep(w0, w, a.path);
    ParentsAreElsewhere(w.local, a.path);
    FreshWithParents(w, a.path, target);
    if a.decision.conflict && a.path in w.local {
      MoveAsideKeeps(w0, next, a.path, target);
      MovedAway(next, a.path, target);
    }
  }

  lemma DownloadKeeps(w0: World, w: World, a: Action, target: Path, time: int)
    requires Inv(w0, w) && a.decision.Download? && a.path in w.known && FreshName(w, target) && CanDownload(w, a)
    requires !a.decision.conflict && a.path in w.local && w.local[a.path].File? ==>
               Synced(w0.base, a.path, w.local[a.path].content)
    ensures var n := File(w.remote[a.path].content, FileMode(a), time);
            var w' := Adopted(PutLocal(Cleared(w, a, target), a.path, n), a, time);
            && Inv(w0, w') && w'.remote == w.remote && w'.done == w.done + {a.path}
            && Agree(w', a.path, w.remote[a.path].content)
  {
    var n := File(w.remote[a.path].content, FileMode(a), time);
    var cleared := Cleared(w, a, target);
    StageKeeps(w0, w, a, target);
    FilesStay(w0, w, a.path);
    PutLocalKeeps(w0, cleared, a.path, n);
    AdoptKeeps(w0, PutLocal(cleared, a.path, n), a);
    AdoptAgrees(PutLocal(cleared, a.path, n), a, time);
  }

  lemma AdoptAgrees(w: World, a: Action, mtime: int)
    requires a.path in w.remote && w.remote[a.path].File? && Has(w.local, a.path, w.remote[a.path].content)
    requires (a.path in w.base <==> a.stored.Some?)
    requires (a.path in w.base ==> w.base[a.path].version == a.stored.value.version)
    ensures Agree(Adopted(w, a, mtime), a.path, w.remote[a.path].content)
    ensures Adopted(w, a, mtime).remote == w.remote && Adopted(w, a, mtime).done == w.done + {a.path}
  {
  }

  /** A recorded local time of 0 defeats the comparison: the planned download of a newer remote version
      then drops an edited local file of the same size, without a conflict copy. */
  lemma UnknownTimeLosesBytes(target: Path, time: int)
    ensures var w := World(map["a" := File([1], 420, 5)], map["a" := File([2, 3], 420, 7)],
                           map["a" := Entry(false, 420, 1, Some([9]), 0, 6, false, 1)], 2, map[], {"a"}, {});
            var a := ActionAt(w.local, w.remote, w.base, "a");
            && TimesReveal(w.local, w.base, true) && TimesReveal(w.remote, w.base, false) && Unsynchronised(w, "a", [1])
            && CanDownload(w, a)
            && var n := File(w.remote["a"].content, FileMode(a), time);
               !Kept(Adopted(PutLocal(Cleared(w, a, target), "a", n), a, time), "a", [1])
  {
  }

  /** The remote side after the local bytes are written there. */
  function Published(w: World, a: Action, time: int): World
    requires a.path in w.local && w.local[a.path].File?
  {
    PutRemote(w.(remote := WithParents(w.remote, a.path)), a.path, File(w.local[a.path].content, FileMode(a), time))
  }

  lemma PublishedKeeps(w0: World, w: World, a: Action, time: int)
    requires Inv(w0, w) && a.path in w.known && a.path !in w.done && a.path in w.local && w.local[a.path].File?
    requires a.path in w.remote && w.remote[a.path].File? ==> Synced(w0.base, a.path, w.remote[a.path].content)
    ensures Inv(w0, Published(w, a, time))
  {
    ParentsKeep(w0, w, a.path);
    ParentsAreElsewhere(w.remote, a.path);
    FilesStay(w0, w, a.path);
    PutRemoteKeeps(w0, w.(remote := WithParents(w.remote, a.path)), a.path,
                   File(w.local[a.path].content, FileMode(a), time));
  }

  lemma UploadKeeps(w0: World, w: World, a: Action, time: int)
    requires Inv(w0, w) && a.path in w.known && a.path !in w.done
    requires a.path in w.local && w.local[a.path].File? && StillCurrent(w, a)
    requires a.path in w.remote && w.remote[a.path].File? ==> Synced(w0.base, a.path, w.remote[a.path].content)
    ensures var e := FileEntry(w.local[a.path].content, FileMode(a), w.local[a.path].mtime, time);
            var w' := UpdateState(Published(w, a, time), a, e);
            Inv(w0, Published(w, a, time)) && Inv(w0, w') && Agree(w', a.path, w.local[a.path].content)
  {
    PublishedKeeps(w0, w, a, time);
    UpdateStateKeeps(w0, Published(w, a, time), a,
                     FileEntry(w.local[a.path].content, FileMode(a), w.local[a.path].mtime, time));
  }

  predicate CanMkdir(t: Tree, p: Path) {
    !Blocked(t, p) && !(p in t && t[p].File?)
  }

  /** The directory exists with the wanted mode, if one is wanted. */
  predicate MadeDir(t: Tree, a: Action) {
    a.path in t && t[a.path].Dir? && (a.mode != 0 ==> t[a.path].mode == a.mode)
  }

  function WithLocalDir(w: World, a: Action): World {
    var mode := if a.mode != 0 then a.mode else if a.path in w.local then w.local[a.path].mode else DEFAULT_DIR_MODE;
    w.(local := WithParents(w.local, a.path)[a.path := Dir(mode)])
  }

  function WithRemoteDir(w: World, a: Action): World {
    w.(remote := WithParents(w.remote, a.path)[a.path := Dir(a.mode)])
  }

  lemma MkdirLocalKeeps(w0: World, w: World, a: Action)
    requires Inv(w0, w) && a.path in w.known && CanMkdir(w.local, a.path)
    ensures Inv(w0, WithLocalDir(w, a)) && Inv(w0, UpdateState(WithLocalDir(w, a), a, DirEntry(a.mode)))
    ensures var w' := UpdateState(WithLocalDir(w, a), a, DirEntry(a.mode));
            MadeDir(w'.local, a) && w'.done == w.done && w'.remote == w.remote
  {
    var w' := WithLocalDir(w, a);
    DirectoriesKeep(w0, w, w'.local, w.remote);
    assert w.(local := w'.local, remote := w.remote) == w';
    UpdateStateKeeps(w0, w', a, DirEntry(a.mode));
  }

  lemma MkdirRemoteKeeps(w0: World, w: World, a: Action)
    requires Inv(w0, w) && a.path in w.known && CanMkdir(w.remote, a.path)
    ensures Inv(w0, UpdateState(WithRemoteDir(w, a), a, DirEntry(a.mode)))
  {
    var w' := WithRemoteDir(w, a);
    DirectoriesKeep(w0, w, w.local, w'.remote);
    assert w.(local := w.local, remote := w'.remote) == w';
    UpdateStateKeeps(w0, w', a, DirEntry(a.mode));
  }

  /** An observed remote file gets the directory's mode. */
  function WithRemoteMode(w: World, a: Action): World
    requires a.path in w.remote && w.remote[a.path].File?
  {
    PutRemote(w, a.path, w.remote[a.path].(mode := a.mode))
  }

  lemma ChmodRemoteKeeps(w0: World, w: World, a: Action)
    requires Inv(w0, w) && a.path in w.known && a.path !in w.done && a.path in w.remote && w.remote[a.path].File?
    ensures Inv(w0, UpdateState(WithRemoteMode(w, a), a, DirEntry(a.mode)))
  {
    FilesStay(w0, w, a.path);
    PutRemoteKeeps(w0, w, a.path, w.remote[a.path].(mode := a.mode));
    UpdateStateKeeps(w0, WithRemoteMode(w, a), a, DirEntry(a.mode));
  }

  /** Drops the records of a path and of everything below it. */
  function ForgetTree(w: World, p: Path): World {
    w.(base := map q | q in w.base && !Within(q, p) :: w.base[q])
  }

  /** Takes back a deletion mark. */
  function Revived(w: World, p: Path): World
    requires p in w.base
  {
    w.(base := w.base[p := w.base[p].(deleted := false, version := w.next)], next := w.next + 1)
  }

  lemma ForgetTreeKeeps(w0: World, w: World, p: Path)
    requires Inv(w0, w)
    ensures Inv(w0, ForgetTree(w, p))
  {
    BaselineKeeps(w0, w, ForgetTree(w, p).base, w.next);
    assert w.(base := ForgetTree(w, p).base, next := w.next) == ForgetTree(w, p);
  }

  lemma RevivedKeeps(w0: World, w: World, p: Path)
    requires Inv(w0, w) && p in w.base
    ensures Inv(w0, Revived(w, p))
  {
    var base := Revived(w, p).base;
    assert Recorded(w0, w.(base := base));
    BaselineKeeps(w0, w, base, w.next + 1);
  }

  /** Nothing stands in the way of a planned action. */
  predicate Can(w: World, a: Action, cap: nat) {
    StillCurrent(w, a) &&
    match a.decision
    case Upload => if a.isDir then RemoteCurrent(w, a) && CanMkdir(w.remote, a.path) else CanUpload(w, a, cap)
    case Download(_) => if a.isDir then CanMkdir(w.local, a.path) else CanDownload(w, a)
    case DeleteLocal => a.path !in w.remote
    case DeleteRemote => CanDeleteRemote(w, a)
    case _ => true
  }

  /** What a planned action achieves. */
  ghost predicate Achieved(w: World, a: Action, w': World, cap: nat)
    requires Can(w, a, cap)
  {
    match a.decision
    case Upload =>
      if a.isDir then a.path in w'.remote && w'.remote[a.path] == Dir(a.mode)
      else Agree(w', a.path, w.local[a.path].content)
    case Download(_) => if a.isDir then MadeDir(w'.local, a) else Agree(w', a.path, w.remote[a.path].content)
    case DeleteLocal => a.path !in w'.local && a.path !in w'.base
    case DeleteRemote => a.path !in w'.remote
    case _ => w' == w
  }

  predicate CanDeleteRemote(w: World, a: Action) {
    && StillCurrent(w, a) && RemoteCurrent(w, a)
    && RemoteMatchesStored(w.remote, a.path, a.stored) && !HasChildren(w.remote, a.path)
  }
}
