/**
 The strict save planner: a three-way comparison of the local tree, the Redis tree and the
 stored baseline that either reports a conflict or orders the removes and writes turning the
 Redis tree into the local one.
 */
module SavePlan {
  import opened Results
  import opened Paths
  import opened Hashing
  import opened Chunks

  datatype Kind = File | Dir | Symlink

  /** What a path holds. Symlink permissions are platform-specific and not part of a save. */
  datatype Node =
    | FileNode(data: Bytes, mode: nat)
    | DirNode(mode: nat)
    | LinkNode(target: string)

  type Tree = map<Path, Node>

  /** A stored baseline entry. */
  datatype SyncEntry = SyncEntry(kind: Kind, mode: nat, size: nat, remoteHash: Hash, target: string,
                                 chunkSize: nat, version: nat)

  type Baseline = map<Path, SyncEntry>

  /** A scanned entry. `baselineHash` is the composite hash at the baseline's chunk size. */
  datatype SaveEntry = SaveEntry(kind: Kind, mode: nat, size: nat, hash: Hash, target: string, baselineHash: Hash)

  type SaveTree = map<Path, SaveEntry>

  /** Parents exist and are directories. */
  ghost predicate WellFormed(t: Tree) {
    forall p, d :: p in t && Under(p, d) ==> d in t && t[d].DirNode?
  }

  // ---- Scanning --------------------------------------------------------------

  function Observe(sha: Sha, n: Node, stored: Option<SyncEntry>): SaveEntry {
    match n
    case FileNode(data, mode) =>
      SaveEntry(File, mode, |data|, sha(data), "",
                if stored.Some? && stored.value.chunkSize > 0
                then CompositeHash(sha, Manifest(sha, data, stored.value.chunkSize)) else [])
    case DirNode(mode) => SaveEntry(Dir, mode, 0, [], "", [])
    case LinkNode(target) => SaveEntry(Symlink, 0, 0, [], target, [])
  }

  function Scan(sha: Sha, t: Tree, baseline: Baseline): SaveTree {
    map p | p in t :: Observe(sha, t[p], Lookup(baseline, p))
  }

  // ---- Comparisons -----------------------------------------------------------

  predicate SameContent(a: SaveEntry, b: SaveEntry) {
    a.kind == b.kind && a.size == b.size && a.hash == b.hash && a.target == b.target
  }

  predicate EqualEntry(a: SaveEntry, b: SaveEntry) {
    a.mode == b.mode && SameContent(a, b)
  }

  function BaselineMode(stored: SyncEntry): nat {
    if stored.kind == Symlink then 0 else stored.mode
  }

  predicate BaselineContent(entry: SaveEntry, stored: SyncEntry) {
    entry.kind == stored.kind &&
    match entry.kind
    case Dir => true
    case Symlink => entry.target == stored.target
    case File => stored.remoteHash != [] && entry.size == stored.size
                 && (entry.hash == stored.remoteHash || entry.baselineHash == stored.remoteHash)
  }

  predicate MatchesBaseline(entry: SaveEntry, stored: SyncEntry) {
    entry.mode == BaselineMode(stored) && BaselineContent(entry, stored)
  }

  /** Scanned entries compare equal exactly when the scanned nodes are the same. */
  lemma EqualEntryIsEqualNode(sha: Sha, a: Node, b: Node, x: Option<SyncEntry>, y: Option<SyncEntry>)
    requires Ideal(sha)
    ensures EqualEntry(Observe(sha, a, x), Observe(sha, b, y)) <==> a == b
    ensures SameContent(Observe(sha, a, x), Observe(sha, b, y)) <==>
              (a.FileNode? && b.FileNode? && a.data == b.data) || (a.DirNode? && b.DirNode?) || (a.LinkNode? && a == b)
  {
  }

  /** Both directions of tree equality. */
  method CompareSyncSaveTrees(expected: SaveTree, actual: SaveTree) returns (equal: bool)
    ensures equal <==> expected.Keys == actual.Keys && forall p :: p in expected ==> EqualEntry(expected[p], actual[p])
  {
    var todo := expected.Keys;
    while todo != {}
      invariant todo <= expected.Keys
      invariant forall p :: p in expected && p !in todo ==> p in actual && EqualEntry(expected[p], actual[p])
      decreases |todo|
    {
      var rel :| rel in todo;
      if rel !in actual || !EqualEntry(expected[rel], actual[rel]) {
        return false;
      }
      todo := todo - {rel};
    }
    todo := actual.Keys;
    while todo != {}
      invariant todo <= actual.Keys
      invariant forall p :: p in actual && p !in todo ==> p in expected
      decreases |todo|
    {
      var rel :| rel in todo;
      if rel !in expected {
        return false;
      }
      todo := todo - {rel};
    }
    equal := true;
  }

  // ---- The decision at one path ------------------------------------------------

  datatype Decision = Keep | Create | Update | Replace | Delete | Conflict

  function Decide(intended: Option<SaveEntry>, observed: Option<SaveEntry>, stored: Option<SyncEntry>): Decision {
    if observed.None? then
      (if intended.Some? then Create else Keep)
    else if intended.Some? && EqualEntry(intended.value, observed.value) then Keep
    else
      var asStored := stored.Some? && MatchesBaseline(observed.value, stored.value);
      if intended.None? then
        (if asStored then Delete else Conflict)
      else if !asStored && !(ContentKnown(intended.value, observed.value, stored)
                              && ModeKnown(intended.value, observed.value, stored)) then Conflict
      else if intended.value.kind != observed.value.kind
              || (intended.value.kind == Symlink && intended.value.target != observed.value.target) then Replace
      else Update
  }

  /** After a partial apply the content may already be the intended one. */
  predicate ContentKnown(intended: SaveEntry, observed: SaveEntry, stored: Option<SyncEntry>) {
    SameContent(intended, observed) || (stored.Some? && BaselineContent(observed, stored.value))
  }

  predicate ModeKnown(intended: SaveEntry, observed: SaveEntry, stored: Option<SyncEntry>) {
    || observed.mode == intended.mode
    || (stored.Some? && observed.kind == stored.value.kind && observed.mode == BaselineMode(stored.value))
  }

  function At(local: SaveTree, remote: SaveTree, baseline: Baseline, p: Path): Decision {
    Decide(Lookup(local, p), Lookup(remote, p), Lookup(baseline, p))
  }

  predicate Removes(d: Decision) {
    d == Delete || d == Replace
  }

  predicate Writes(d: Decision) {
    d == Create || d == Update || d == Replace
  }

  function RemoveSet(local: SaveTree, remote: SaveTree, baseline: Baseline): set<Path> {
    set p | p in remote && Removes(At(local, remote, baseline, p))
  }

  function WriteSet(local: SaveTree, remote: SaveTree, baseline: Baseline): set<Path> {
    set p | p in local && Writes(At(local, remote, baseline, p))
  }

  ghost predicate NoConflict(local: SaveTree, remote: SaveTree, baseline: Baseline) {
    forall p :: p in remote ==> At(local, remote, baseline, p) != Conflict
  }

  // ---- What a conflict is, in terms of the trees --------------------------------

  /** The same kind and content, whatever the mode. */
  predicate Alike(a: Node, b: Node) {
    match (a, b)
    case (FileNode(x, _), FileNode(y, _)) => x == y
    case (DirNode(_), DirNode(_)) => true
    case (LinkNode(x), LinkNode(y)) => x == y
    case _ => false
  }

  function ModeOf(n: Node): nat {
    if n.LinkNode? then 0 else n.mode
  }

  /** The entry records the kind and the content of the node: a file by its length and the hash of its
      bytes, or of its chunks. */
  predicate RecordsContent(sha: Sha, e: SyncEntry, n: Node) {
    match n
    case FileNode(data, _) =>
      && e.kind == File && e.size == |data|
      && (e.remoteHash == sha(data) ||
          (e.chunkSize > 0 && e.remoteHash == CompositeHash(sha, Manifest(sha, data, e.chunkSize))))
    case DirNode(_) => e.kind == Dir
    case LinkNode(target) => e.kind == Symlink && e.target == target
  }

  predicate RecordsMode(e: SyncEntry, n: Node) {
    match n
    case FileNode(_, mode) => e.kind == File && e.mode == mode
    case DirNode(mode) => e.kind == Dir && e.mode == mode
    case LinkNode(_) => e.kind == Symlink
  }

  predicate Records(sha: Sha, stored: Option<SyncEntry>, n: Node) {
    stored.Some? && RecordsContent(sha, stored.value, n) && RecordsMode(stored.value, n)
  }

  /** Somebody else's change is in the way: a node Redis has that is not the local one. Without a local
      node it must be recorded as it is; otherwise its content must be the local or the recorded one, and
      its mode too. */
  predicate Clashes(sha: Sha, local: Option<Node>, remote: Node, stored: Option<SyncEntry>) {
    && local != Some(remote)
    && (if local.None? then !Records(sha, stored, remote)
        else
          || !(Alike(local.value, remote) || (stored.Some? && RecordsContent(sha, stored.value, remote)))
          || !(ModeOf(local.value) == ModeOf(remote) || (stored.Some? && RecordsMode(stored.value, remote))))
  }

  ghost predicate NoClash(sha: Sha, local: Tree, remote: Tree, baseline: Baseline) {
    forall p :: p in remote ==> !Clashes(sha, Lookup(local, p), remote[p], Lookup(baseline, p))
  }

  ghost predicate ClashAt(sha: Sha, local: Tree, remote: Tree, baseline: Baseline, p: Path) {
    p in remote && Clashes(sha, Lookup(local, p), remote[p], Lookup(baseline, p))
  }

  /** Content that went away, or made room for other content, was recorded. */
  ghost predicate OnlyRecordedLost(sha: Sha, before: Tree, baseline: Baseline, after: Tree) {
    forall p :: p in before && (p !in after || !Alike(after[p], before[p])) ==>
      p in baseline && RecordsContent(sha, baseline[p], before[p])
  }

  /** A node that is not to be there at all was recorded with its mode. */
  ghost predicate RemovedAsRecorded(sha: Sha, before: Tree, baseline: Baseline, after: Tree) {
    forall p :: p in before && p !in after ==> Records(sha, Lookup(baseline, p), before[p])
  }

  lemma NoClashLosesRecorded(sha: Sha, local: Tree, remote: Tree, baseline: Baseline)
    requires NoClash(sha, local, remote, baseline)
    ensures OnlyRecordedLost(sha, remote, baseline, local) && RemovedAsRecorded(sha, remote, baseline, local)
  {
    forall p | p in remote ensures !Clashes(sha, Lookup(local, p), remote[p], Lookup(baseline, p)) {
    }
  }

  lemma RecordsIsMatch(sha: Sha, e: SyncEntry, n: Node)
    requires Ideal(sha)
    ensures BaselineContent(Observe(sha, n, Some(e)), e) <==> RecordsContent(sha, e, n)
    ensures MatchesBaseline(Observe(sha, n, Some(e)), e) <==> Records(sha, Some(e), n)
    ensures Observe(sha, n, Some(e)).mode == ModeOf(n)
  {
    if n.FileNode? {
      assert Digest(sha(n.data));
      if e.chunkSize > 0 {
        var hashes := Manifest(sha, n.data, e.chunkSize);
        assert Digest(sha(Join(hashes))) && Digest(sha([]));
      }
    }
  }

  /** The planner reports a conflict at a path if and only if the nodes there clash. */
  lemma ConflictIff(sha: Sha, local: Tree, remote: Tree, baseline: Baseline, p: Path)
    requires Ideal(sha) && p in remote
    ensures At(Scan(sha, local, map[]), Scan(sha, remote, baseline), baseline, p) == Conflict <==>
              Clashes(sha, Lookup(local, p), remote[p], Lookup(baseline, p))
  {
    if p in baseline {
      RecordsIsMatch(sha, baseline[p], remote[p]);
    }
    if p in local {
      EqualEntryIsEqualNode(sha, local[p], remote[p], None, Lookup(baseline, p));
    }
  }

  lemma NoConflictIff(sha: Sha, local: Tree, remote: Tree, baseline: Baseline)
    requires Ideal(sha)
    ensures NoConflict(Scan(sha, local, map[]), Scan(sha, remote, baseline), baseline) <==>
              NoClash(sha, local, remote, baseline)
  {
    forall p | p in remote
      ensures At(Scan(sha, local, map[]), Scan(sha, remote, baseline), baseline, p) == Conflict <==>
                Clashes(sha, Lookup(local, p), remote[p], Lookup(baseline, p))
    {
      ConflictIff(sha, local, remote, baseline, p);
    }
  }

  // ---- The plan ----------------------------------------------------------------

  datatype Plan = Plan(remove: seq<Path>, write: seq<Path>)

  /** Exactly the paths to remove, each once, children before parents; exactly the paths to write,
      each once, parents before children. */
  ghost predicate IsPlan(plan: Plan, local: SaveTree, remote: SaveTree, baseline: Baseline) {
    && multiset(plan.remove) == multiset(RemoveSet(local, remote, baseline))
    && SortedBy(PathAfter, plan.remove)
    && multiset(plan.write) == multiset(WriteSet(local, remote, baseline))
    && SortedBy(PathBefore, plan.write)
  }

  ghost function Selected(paths: set<Path>, test: Path -> bool): set<Path> {
    set p | p in paths && test(p)
  }

  lemma SelectStep(paths: set<Path>, todo: set<Path>, rel: Path, test: Path -> bool, s: seq<Path>)
    requires todo <= paths && rel in todo
    requires multiset(s) == multiset(Selected(paths - todo, test))
    ensures multiset(s + if test(rel) then [rel] else []) == multiset(Selected(paths - (todo - {rel}), test))
  {
    var before, after := Selected(paths - todo, test), Selected(paths - (todo - {rel}), test);
    assert after == before + (if test(rel) then {rel} else {});
    assert rel !in before;
  }

  /** First loop: every path of the Redis tree, stopping at the first conflict. */
  method PlanRemotePaths(paths: set<Path>, decide: Path -> Decision) returns (r: Result<Plan, Path>)
    ensures r.Ok? <==> forall p :: p in paths ==> decide(p) != Conflict
    ensures r.Err? ==> r.error in paths && decide(r.error) == Conflict
    ensures r.Ok? ==> multiset(r.value.remove) == multiset(Selected(paths, p => Removes(decide(p))))
    ensures r.Ok? ==> multiset(r.value.write) == multiset(Selected(paths, p => Writes(decide(p))))
  {
    var remove: seq<Path>, write: seq<Path> := [], [];
    ghost var removed, written := p => Removes(decide(p)), p => Writes(decide(p));
    var todo := paths;
    while todo != {}
      invariant todo <= paths
      invariant forall p :: p in paths && p !in todo ==> decide(p) != Conflict
      invariant multiset(remove) == multiset(Selected(paths - todo, removed))
      invariant multiset(write) == multiset(Selected(paths - todo, written))
      decreases |todo|
    {
      var rel :| rel in todo;
      if decide(rel) == Conflict {
        return Err(rel);
      }
      SelectStep(paths, todo, rel, removed, remove);
      SelectStep(paths, todo, rel, written, write);
      remove := remove + if Removes(decide(rel)) then [rel] else [];
      write := write + if Writes(decide(rel)) then [rel] else [];
      todo := todo - {rel};
    }
    assert paths - todo == paths;
    return Ok(Plan(remove, write));
  }

  /** Second loop: local paths Redis does not have. */
  method PlanLocalPaths(local: set<Path>, remote: set<Path>, known: seq<Path>) returns (write: seq<Path>)
    ensures multiset(write) == multiset(known) + multiset(local - remote)
  {
    write := known;
    var todo := local;
    while todo != {}
      invariant todo <= local
      invariant multiset(write) == multiset(known) + multiset(local - todo - remote)
      decreases |todo|
    {
      var rel :| rel in todo;
      if rel !in remote {
        write := write + [rel];
        assert local - (todo - {rel}) - remote == (local - todo - remote) + {rel};
      } else {
        assert local - (todo - {rel}) - remote == local - todo - remote;
      }
      todo := todo - {rel};
    }
    assert local - todo - remote == local - remote;
  }

  /** Delete children before parents; create parents before their children. */
  method SortPlan(plan: Plan) returns (sorted: Plan)
    ensures multiset(sorted.remove) == multiset(plan.remove) && SortedBy(PathAfter, sorted.remove)
    ensures multiset(sorted.write) == multiset(plan.write) && SortedBy(PathBefore, sorted.write)
  {
    PathAfterOrder();
    PathOrder();
    SortSorts(PathAfter, plan.remove);
    SortSorts(PathBefore, plan.write);
    sorted := Plan(Sort(PathAfter, plan.remove), Sort(PathBefore, plan.write));
  }

  lemma SelectedSets(local: SaveTree, remote: SaveTree, baseline: Baseline)
    ensures Selected(remote.Keys, p => Removes(At(local, remote, baseline, p))) == RemoveSet(local, remote, baseline)
    ensures multiset(Selected(remote.Keys, p => Writes(At(local, remote, baseline, p)))) +
            multiset(local.Keys - remote.Keys)
            == multiset(WriteSet(local, remote, baseline))
  {
    var known := Selected(remote.Keys, p => Writes(At(local, remote, baseline, p)));
    forall p ensures p in WriteSet(local, remote, baseline) <==> p in known || p in local.Keys - remote.Keys {
    }
    assert WriteSet(local, remote, baseline) == known + (local.Keys - remote.Keys);
    DisjointSum(known, local.Keys - remote.Keys);
  }

  lemma DisjointSum(a: set<Path>, b: set<Path>)
    requires a !! b
    ensures multiset(a) + multiset(b) == multiset(a + b)
  {
  }

  method PlanSyncSave(local: SaveTree, remote: SaveTree, baseline: Baseline) returns (r: Result<Plan, Path>)
    ensures r.Ok? <==> NoConflict(local, remote, baseline)
    ensures r.Ok? ==> IsPlan(r.value, local, remote, baseline)
    ensures r.Err? ==> r.error in remote && At(local, remote, baseline, r.error) == Conflict
  {
    var decide := p => At(local, remote, baseline, p);
    r := PlanRemotePaths(remote.Keys, decide);
    if r.Err? {
      return;
    }
    var write := PlanLocalPaths(local.Keys, remote.Keys, r.value.write);
    SelectedSets(local, remote, baseline);
    assert Selected(remote.Keys, p => Removes(decide(p))) ==
           Selected(remote.Keys, p => Removes(At(local, remote, baseline, p)));
    assert Selected(remote.Keys, p => Writes(decide(p))) ==
           Selected(remote.Keys, p => Writes(At(local, remote, baseline, p)));
    var sorted := SortPlan(Plan(r.value.remove, write));
    return Ok(sorted);
  }
}
