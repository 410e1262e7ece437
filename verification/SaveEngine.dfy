/**
 The save engine: the client calls a plan makes, the apply loops, chunk metadata, and the
 published baseline. Any client call may fail, before or after its effect; `fault` is the schedule.
 */
module SaveEngine {
  import opened Results
  import opened Paths
  import opened Hashing
  import opened SavePlan
  import opened SaveStages
  import Chunks

  /** Chunk metadata stored beside a file: chunk size and chunk hashes. */
  type ChunkMeta = (nat, seq<Hash>)

  datatype Outcome =
    | Saved
    | ConflictAt(path: Path)
    | Interrupted            // a client call failed
    | Mismatch               // verification found another tree than the one saved

  /** Where an interrupted save stopped: at a remove, in the write of a path whose first call has the given
      number, or while normalising chunk metadata, from the given call on. */
  datatype Failure = InRemove | InWrite(path: Path, first: nat) | InNormalize(from: nat)

  /** The save is to create a directory at the path. */
  predicate NewDirectory(s: Save, p: Path) {
    p in s.local && s.local[p].DirNode? && (p !in s.remote || p in s.Removed())
  }

  ghost predicate ParentsReady(t: Tree, rel: Path) {
    forall d :: Under(rel, d) ==> d in t && t[d].DirNode?
  }

  /** The client creates missing parents with the default mode. */
  function EnsureParents(t: Tree, rel: Path): Tree {
    t + map d | d in Ancestors(rel) - t.Keys :: DirNode(MKDIR_MODE)
  }

  predicate ParentBlocked(t: Tree, rel: Path) {
    exists d :: d in Ancestors(rel) && d in t && !t[d].DirNode?
  }

  /** A node is put into a tree with its missing parents: it stays a tree, and nothing else changes. */
  lemma ClientKeepsTree(t: Tree, rel: Path, n: Node)
    requires WellFormed(t) && !ParentBlocked(t, rel) && (rel in t && t[rel].DirNode? ==> n.DirNode?)
    ensures WellFormed(EnsureParents(t, rel)) && WellFormed(EnsureParents(t, rel)[rel := n])
    ensures forall q :: q in t ==> Lookup(EnsureParents(t, rel), q) == Some(t[q])
    ensures forall q :: q in EnsureParents(t, rel) ==> q in t || Under(rel, q)
  {
    var t' := EnsureParents(t, rel);
    forall q ensures q in t' <==> q in t || Under(rel, q) {
      AncestorsAreAbove(rel, q);
    }
    forall q, d | q in t' && Under(q, d) ensures d in t' && t'[d].DirNode? {
      if q !in t {
        UnderTransitive(rel, q, d);
        AncestorsAreAbove(rel, d);
      }
    }
    forall d | Under(rel, d) ensures d in t' && t'[d].DirNode? {
      AncestorsAreAbove(rel, d);
    }
  }

  lemma ReadyParentsStay(t: Tree, rel: Path)
    requires ParentsReady(t, rel)
    ensures EnsureParents(t, rel) == t && !ParentBlocked(t, rel)
  {
    forall d
      ensures d in Ancestors(rel) ==> d in t && t[d].DirNode?
    {
      AncestorsAreAbove(rel, d);
    }
    assert Ancestors(rel) - t.Keys == {};
  }

  lemma PutKeepsWellFormed(t: Tree, rel: Path, n: Node)
    requires WellFormed(t) && ParentsReady(t, rel)
    requires n.DirNode? || rel !in t || !t[rel].DirNode?
    ensures WellFormed(t[rel := n])
  {
  }

  ghost predicate AllWellFormed(trees: seq<Tree>) {
    forall i :: 0 <= i < |trees| ==> WellFormed(trees[i])
  }

  datatype ScannedChunks = ScannedChunks(hasChunks: bool, current: bool)

  function MetaAt(metas: map<Path, ChunkMeta>, p: Path): ChunkMeta {
    if p in metas then metas[p] else (0, [])
  }

  /** A remove the client accepts: the path exists and has nothing below it. */
  ghost predicate RemoveStep(t: Tree, rel: Path, next: Tree) {
    rel in t && (forall q :: q in t ==> !Under(q, rel)) && next == t - {rel} && WellFormed(next)
  }

  ghost predicate RemovesThrough(stages: seq<Tree>, remove: seq<Path>) {
    |stages| == |remove| + 1 && forall k :: 0 <= k < |remove| ==> RemoveStep(stages[k], remove[k], stages[k + 1])
  }

  /** The state a planned write starts from: parents in place, and the path either free or holding
      the scanned node of the intended kind. */
  ghost predicate Writable(sha: Sha, t: Tree, local: Tree, rel: Path, previous: Option<SaveEntry>, baseline: Baseline) {
    && rel in local && ParentsReady(t, rel)
    && (previous.None? <==> rel !in t)
    && (previous.Some? ==> previous.value == Observe(sha, t[rel], Lookup(baseline, rel)))
    && (rel in t ==> (t[rel].FileNode? && local[rel].FileNode?) || (t[rel].DirNode? && local[rel].DirNode?))
  }

  ghost predicate WriteStep(sha: Sha, t: Tree, local: Tree, rel: Path, remaining: SaveTree, baseline: Baseline,
                            next: Tree) {
    Writable(sha, t, local, rel, Lookup(remaining, rel), baseline) && next == t[rel := local[rel]]
  }

  ghost predicate WritesThrough(sha: Sha, stages: seq<Tree>, local: Tree, write: seq<Path>, remaining: SaveTree,
                                baseline: Baseline) {
    && |stages| == |write| + 1
    && forall k :: 0 <= k < |write| ==> WriteStep(sha, stages[k], local, write[k], remaining, baseline, stages[k + 1])
  }

  /** The baseline notes the creation of a directory, and nothing else changes. */
  ghost predicate NotesCreation(baseline: Baseline, rel: Path, baseline': Baseline) {
    rel in baseline' && CreatedDir(baseline'[rel]) && baseline' == baseline[rel := baseline'[rel]]
  }

  /** A failed write changes nothing, or is complete all the same, or leaves a new directory whose
      creation the baseline notes unless the creation itself reported the failure. */
  ghost predicate AfterFailedWrite(t: Tree, local: Tree, rel: Path, baseline: Baseline, t': Tree, baseline': Baseline,
                                   unrecorded: bool) {
    || (t' == t && baseline' == baseline && !unrecorded)
    || (rel in local && t' == t[rel := local[rel]] && !unrecorded
        && (baseline' == baseline || NotesCreation(baseline, rel, baseline')))
    || (rel in local && local[rel].DirNode? && t' == t[rel := DirNode(MKDIR_MODE)]
        && (if unrecorded then baseline' == baseline else NotesCreation(baseline, rel, baseline')))
  }

  /** A failure between removes leaves a restartable tree. */
  lemma RemovingIsPartial(s: Save, gone: set<Path>, t: Tree)
    requires t == s.Stage(gone, {}) && gone <= s.Removed()
    ensures Partial(s, t, s.baseline, None)
  {
  }

  lemma RemovingFailed(s: Save, remove: seq<Path>, stages: seq<Tree>, t: Tree)
    requires |stages| == |remove| + 1 && t in stages && remove != [] && Elements(remove) == s.Removed()
    requires forall k :: 0 <= k <= |remove| ==> stages[k] == s.Stage(Elements(remove[..k]), {})
    ensures Partial(s, t, s.baseline, None) && s.Removed() != {}
  {
    var k :| 0 <= k < |stages| && stages[k] == t;
    RemovingIsPartial(s, Elements(remove[..k]), t);
    assert remove[0] in Elements(remove);
  }

  /** The trees the removes run through. */
  lemma RemovingStages(s: Save, plan: Plan) returns (stages: seq<Tree>)
    requires s.Valid() && s.Planned(plan)
    ensures RemovesThrough(stages, plan.remove) && stages[0] == s.remote
    ensures Elements(plan.remove) == s.Removed() && stages[|plan.remove|] == s.Stage(s.Removed(), {})
    ensures forall k :: 0 <= k <= |plan.remove| ==> stages[k] == s.Stage(Elements(plan.remove[..k]), {})
  {
    ListsOnce(plan.remove, s.Removed());
    stages := seq(|plan.remove| + 1, k requires 0 <= k <= |plan.remove| => s.Stage(Elements(plan.remove[..k]), {}));
    forall k | 0 <= k < |plan.remove|
      ensures RemoveStep(stages[k], plan.remove[k], stages[k + 1])
    {
      RemoveStageStep(s, plan, k);
    }
    assert plan.remove[..|plan.remove|] == plan.remove;
    assert Elements(plan.remove) == s.Removed();
    assert stages[0] == s.Stage({}, {});
  }

  /** The trees the writes run through. */
  lemma WritingStages(s: Save, plan: Plan) returns (stages: seq<Tree>)
    requires s.Valid() && s.Planned(plan)
    ensures WritesThrough(s.sha, stages, s.local, plan.write, Scan(s.sha, s.remote, s.baseline) - s.Removed(),
                          s.baseline)
    ensures stages[|plan.write|] == s.local
    ensures forall k :: 0 <= k <= |plan.write| ==> stages[k] == s.Stage(s.Removed(), Elements(plan.write[..k]))
  {
    stages := seq(|plan.write| + 1, k requires 0 <= k <= |plan.write| =>
        s.Stage(s.Removed(), Elements(plan.write[..k])));
    forall k | 0 <= k < |plan.write|
      ensures WriteStep(s.sha, stages[k], s.local, plan.write[k], Scan(s.sha, s.remote, s.baseline) - s.Removed(),
                        s.baseline, stages[k + 1])
    {
      WriteStageStep(s, plan, k);
    }
    ListsOnce(plan.write, s.Written());
    assert plan.write[..|plan.write|] == plan.write;
    assert Elements(plan.write) == s.Written();
    PlanReachesLocal(s);
  }

  lemma RemoveStageStep(s: Save, plan: Plan, k: nat)
    requires s.Valid() && s.Planned(plan) && k < |plan.remove|
    ensures RemoveStep(s.Stage(Elements(plan.remove[..k]), {}), plan.remove[k],
                       s.Stage(Elements(plan.remove[..k + 1]), {}))
  {
    RemoveStepSafe(s, plan, k);
    RemoveStageWellFormed(s, plan, k + 1);
    ElementsNext(plan.remove, k);
    RemoveOne(s, Elements(plan.remove[..k]), plan.remove[k]);
  }

  lemma ElementsNext(paths: seq<Path>, k: nat)
    requires k < |paths|
    ensures Elements(paths[..k + 1]) == Elements(paths[..k]) + {paths[k]}
  {
    assert paths[..k + 1] == paths[..k] + [paths[k]];
  }

  lemma RemoveOne(s: Save, gone: set<Path>, rel: Path)
    requires rel in s.Stage(gone, {}) && (forall q :: q in s.Stage(gone, {}) ==> !Under(q, rel))
    requires WellFormed(s.Stage(gone + {rel}, {}))
    ensures RemoveStep(s.Stage(gone, {}), rel, s.Stage(gone + {rel}, {}))
  {
    assert s.Stage(gone + {rel}, {}) == s.Stage(gone, {}) - {rel};
  }

  /** The next path to write: either free, or still holding a node of the intended kind. */
  lemma WriteTarget(s: Save, plan: Plan, k: nat)
    requires s.Valid() && s.Planned(plan) && k < |plan.write|
    ensures var rel, t := plan.write[k], s.Stage(s.Removed(), Elements(plan.write[..k]));
            && rel in s.local
            && (rel in t <==> rel in s.remote && rel !in s.Removed())
            && (rel in t ==> t[rel] == s.remote[rel])
            && (rel in t ==> (t[rel].FileNode? && s.local[rel].FileNode?) || (t[rel].DirNode? && s.local[rel].DirNode?))
  {
    ListsOnce(plan.write, s.Written());
    var rel := plan.write[k];
    assert rel in s.Written();
    assert rel !in Elements(plan.write[..k]);
    DecisionFacts(s, rel);
  }

  lemma NewAtWrite(s: Save, plan: Plan, k: nat)
    requires s.Valid() && s.Planned(plan) && k < |plan.write|
    ensures plan.write[k] in s.Written() && plan.write[k] in s.local
    ensures NewDirectory(s, plan.write[k]) <==>
              s.local[plan.write[k]].DirNode? && plan.write[k] !in s.Stage(s.Removed(), Elements(plan.write[..k]))
  {
    WriteTarget(s, plan, k);
    ListsOnce(plan.write, s.Written());
    assert plan.write[k] in plan.write;
  }

  lemma StageGrows(s: Save, gone: set<Path>, done: set<Path>, rel: Path)
    requires rel in s.local
    ensures s.Stage(gone, done + {rel}) == s.Stage(gone, done)[rel := s.local[rel]]
  {
  }

  lemma WriteStageStep(s: Save, plan: Plan, k: nat)
    requires s.Valid() && s.Planned(plan) && k < |plan.write|
    ensures WriteStep(s.sha, s.Stage(s.Removed(), Elements(plan.write[..k])), s.local, plan.write[k],
                      Scan(s.sha, s.remote, s.baseline) - s.Removed(), s.baseline,
                      s.Stage(s.Removed(), Elements(plan.write[..k + 1])))
  {
    WriteTarget(s, plan, k);
    WriteStepSafe(s, plan, k);
    assert Elements(plan.write[..k + 1]) == Elements(plan.write[..k]) + {plan.write[k]};
    StageGrows(s, s.Removed(), Elements(plan.write[..k]), plan.write[k]);
  }

  lemma PartialAfterWrite(s: Save, done: set<Path>, rel: Path, t: Tree, b: Baseline, unrecorded: bool)
    requires AfterFailedWrite(s.Stage(s.Removed(), done), s.local, rel, s.baseline, t, b, unrecorded)
    ensures Partial(s, t, b, if unrecorded then Some(rel) else None)
  {
  }

  /** Versions from the given range, none used twice. */
  ghost predicate FreshVersions(baseline: Baseline, first: nat, next: nat) {
    && (forall p :: p in baseline ==> first <= baseline[p].version < next)
    && (forall p, q :: p in baseline && q in baseline && p != q ==> baseline[p].version != baseline[q].version)
  }

  /** The entries built so far: one for each listed path, under the given versions. */
  ghost predicate Building(sha: Sha, saved: Tree, next: Baseline, built: set<Path>, first: nat, version: nat) {
    && first <= version
    && next.Keys == built && built <= saved.Keys
    && (forall p :: p in built ==> SavedAs(sha, saved[p], next[p]))
    && FreshVersions(next, first, version)
  }

  /** Chunk metadata of a node: none, or the manifest of its bytes. */
  predicate ChunksOf(sha: Sha, n: Node, chunks: ChunkMeta) {
    chunks.0 > 0 ==> n.FileNode? && chunks.1 == Chunks.Manifest(sha, n.data, chunks.0)
  }

  /** One entry per saved path, each with its own version. */
  method BuildBaseline(sha: Sha, saved: Tree, chunks: map<Path, ChunkMeta>, first: nat)
    returns (next: Baseline, version: nat)
    requires chunks.Keys == saved.Keys
    requires forall p :: p in chunks ==> ChunksOf(sha, saved[p], chunks[p])
    ensures version == first + |saved| && Building(sha, saved, next, saved.Keys, first, version)
  {
    var entry := (p: Path, v: nat) requires p in saved && p in chunks => SavedEntry(sha, saved[p], chunks[p], v);
    ghost var numbers, owners;
    next, version, numbers, owners := NumberPaths(saved.Keys, first, entry);
    forall p | p in saved
      ensures next[p] == SavedEntry(sha, saved[p], chunks[p], numbers[p])
      ensures NumberedAt(first, version, entry, next, numbers, owners, p)
    {
      assert NumberedAt(first, version, entry, next, numbers, owners, p);
    }
  }

  /** The entry of a path carries its number, which no other path has. */
  ghost predicate NumberedAt(first: nat, version: nat, entry: (Path, nat) --> SyncEntry, next: Baseline,
                             numbers: map<Path, nat>,
                             owners: map<nat, Path>, p: Path) {
    && p in next && p in numbers && first <= numbers[p] < version && numbers[p] in owners && owners[numbers[p]] == p
    && entry.requires(p, numbers[p]) && next[p] == entry(p, numbers[p])
  }

  method NumberPaths(paths: set<Path>, first: nat, entry: (Path, nat) --> SyncEntry)
    returns (next: Baseline, version: nat, ghost numbers: map<Path, nat>, ghost owners: map<nat, Path>)
    requires forall p, v: nat :: p in paths ==> entry.requires(p, v)
    ensures next.Keys == paths && version == first + |paths|
    ensures forall p :: p in paths ==> NumberedAt(first, version, entry, next, numbers, owners, p)
  {
    next, version, numbers, owners := map[], first, map[], map[];
    var todo := paths;
    while todo != {}
      invariant todo <= paths && next.Keys == paths - todo && version == first + |paths| - |todo|
      invariant forall p :: p in next ==> NumberedAt(first, version, entry, next, numbers, owners, p)
      decreases |todo|
    {
      var rel :| rel in todo;
      numbers, owners := numbers[rel := version], owners[version := rel];
      next := next[rel := entry(rel, version)];
      version := version + 1;
      todo := todo - {rel};
    }
  }

  class Engine {
    const sha: Sha
    const fault: nat -> Fault
    const chunkThreshold: int
    const chunkSize: int

    var nodes: Tree
    var manifests: map<Path, ChunkMeta>
    var baseline: Baseline
    var nextVersion: nat
    var calls: nat
    /** Every tree Redis has held so far. */
    ghost var history: seq<Tree>

    ghost predicate Valid()
      reads this
    {
      && Ideal(sha) && WellFormed(nodes) && AllWellFormed(history)
      && manifests.Keys <= nodes.Keys
      && forall p :: p in baseline ==> baseline[p].version < nextVersion
    }

    constructor (sha: Sha, fault: nat -> Fault, chunkThreshold: int, chunkSize: int,
                 nodes: Tree, manifests: map<Path, ChunkMeta>, baseline: Baseline, nextVersion: nat)
      requires Ideal(sha) && WellFormed(nodes) && manifests.Keys <= nodes.Keys
      requires forall p :: p in baseline ==> baseline[p].version < nextVersion
      ensures Valid() && this.nodes == nodes && this.manifests == manifests && this.baseline == baseline
      ensures this.nextVersion == nextVersion && calls == 0 && history == [nodes]
      ensures this.sha == sha && this.fault == fault && this.chunkThreshold == chunkThreshold
      ensures this.chunkSize == chunkSize
    {
      this.sha, this.fault, this.chunkThreshold, this.chunkSize := sha, fault, chunkThreshold, chunkSize;
      this.nodes, this.manifests, this.baseline, this.nextVersion := nodes, manifests, baseline, nextVersion;
      calls, history := 0, [nodes];
    }

    function Meta(p: Path): ChunkMeta
      reads this
    {
      MetaAt(manifests, p)
    }

    /** Some call since number `from` failed. */
    ghost predicate SomeCallFailed(from: nat)
      reads this
    {
      exists n :: from <= n < calls && fault(n) != NoFault
    }

    /** No call since number `from` failed. */
    ghost predicate NoCallFailed(from: nat)
      reads this
    {
      forall n :: from <= n < calls ==> fault(n) == NoFault
    }

    /** No call from number `from` on and before number `n` fails. */
    ghost predicate Clean(from: nat, n: nat) {
      forall i :: from <= i < n ==> fault(i) == NoFault
    }

    /** How a save that began at call `from` was interrupted, and the directory it created unrecorded:
        the failing write's, if that was to create a directory and Mkdir, its first call, failed late. */
    ghost predicate Explains(s: Save, from: nat, why: Failure, lost: Option<Path>)
      reads this
    {
      match why
      case InRemove => s.Removed() != {} && lost.None?
      case InWrite(p, first) =>
        && p in s.Written() && from <= first < calls && Clean(from, first)
        && lost == if NewDirectory(s, p) && fault(first) == Late then Some(p) else None
      case InNormalize(n) =>
        nodes == s.local && lost.None? && from <= n < calls && Clean(from, n) && (n == from ==> s.remote == s.local)
    }

    // ---- Client calls --------------------------------------------------------

    method Rm(rel: Path) returns (ok: bool)
      modifies this`nodes, this`manifests, this`calls, this`history
      ensures calls == old(calls) + 1 && history == old(history) + [nodes]
      ensures var accepted := rel in old(nodes) && forall q :: q in old(nodes) ==> !Under(q, rel);
              && (ok <==> accepted && fault(old(calls)) == NoFault)
              && nodes == (if accepted && fault(old(calls)) != Early then old(nodes) - {rel} else old(nodes))
              && manifests == (if accepted && fault(old(calls)) != Early then old(manifests) - {rel}
                               else old(manifests))
    {
      var accepted := rel in nodes && forall q | q in nodes :: !Under(q, rel);
      var now := fault(calls);
      calls := calls + 1;
      if accepted && now != Early {
        nodes := nodes - {rel};
        manifests := manifests - {rel};
      }
      history := history + [nodes];
      ok := accepted && now == NoFault;
    }

    /** Creates a directory and its missing parents; an existing directory is accepted as it is. */
    method Mkdir(rel: Path) returns (ok: bool)
      modifies this`nodes, this`calls, this`history
      ensures calls == old(calls) + 1 && history == old(history) + [nodes]
      ensures var accepted := !ParentBlocked(old(nodes), rel) && (rel in old(nodes) ==> old(nodes)[rel].DirNode?);
              && (ok <==> accepted && fault(old(calls)) == NoFault)
              && (accepted && fault(old(calls)) != Early ==>
                    nodes == if rel in old(nodes) then EnsureParents(old(nodes), rel)
                             else EnsureParents(old(nodes), rel)[rel := DirNode(MKDIR_MODE)])
      ensures fault(old(calls)) == Early ==> nodes == old(nodes)
      ensures WellFormed(old(nodes)) ==> WellFormed(nodes)
    {
      if WellFormed(nodes) && !ParentBlocked(nodes, rel) {
        ClientKeepsTree(nodes, rel, DirNode(MKDIR_MODE));
      }
      var now := fault(calls);
      var accepted := !ParentBlocked(nodes, rel) && (rel in nodes ==> nodes[rel].DirNode?);
      calls := calls + 1;
      if accepted && now != Early {
        var present := rel in nodes;
        nodes := EnsureParents(nodes, rel);
        if !present {
          nodes := nodes[rel := DirNode(MKDIR_MODE)];
        }
      }
      history := history + [nodes];
      ok := accepted && now == NoFault;
    }

    method Ln(target: string, rel: Path) returns (ok: bool)
      modifies this`nodes, this`calls, this`history
      ensures calls == old(calls) + 1 && history == old(history) + [nodes]
      ensures var accepted := !ParentBlocked(old(nodes), rel) && rel !in old(nodes);
              && (ok <==> accepted && fault(old(calls)) == NoFault)
              && nodes == if accepted && fault(old(calls)) != Early
                          then EnsureParents(old(nodes), rel)[rel := LinkNode(target)] else old(nodes)
      ensures WellFormed(old(nodes)) ==> WellFormed(nodes)
    {
      if WellFormed(nodes) && !ParentBlocked(nodes, rel) && rel !in nodes {
        ClientKeepsTree(nodes, rel, LinkNode(target));
      }
      var accepted := !ParentBlocked(nodes, rel) && rel !in nodes;
      var now := fault(calls);
      calls := calls + 1;
      if accepted && now != Early {
        nodes := EnsureParents(nodes, rel)[rel := LinkNode(target)];
      }
      history := history + [nodes];
      ok := accepted && now == NoFault;
    }

    /** Content and mode are published together; chunk metadata of an existing file is kept. */
    method EchoCreate(rel: Path, data: Bytes, mode: nat) returns (ok: bool)
      modifies this`nodes, this`calls, this`history
      ensures calls == old(calls) + 1 && history == old(history) + [nodes]
      ensures var accepted := !ParentBlocked(old(nodes), rel) && (rel in old(nodes) ==> old(nodes)[rel].FileNode?);
              && (ok <==> accepted && fault(old(calls)) == NoFault)
              && nodes == if accepted && fault(old(calls)) != Early
                          then EnsureParents(old(nodes), rel)[rel := FileNode(data, mode)] else old(nodes)
      ensures WellFormed(old(nodes)) ==> WellFormed(nodes)
    {
      if WellFormed(nodes) && !ParentBlocked(nodes, rel) && (rel in nodes ==> nodes[rel].FileNode?) {
        ClientKeepsTree(nodes, rel, FileNode(data, mode));
      }
      var accepted := !ParentBlocked(nodes, rel) && (rel in nodes ==> nodes[rel].FileNode?);
      var now := fault(calls);
      calls := calls + 1;
      if accepted && now != Early {
        nodes := EnsureParents(nodes, rel)[rel := FileNode(data, mode)];
      }
      history := history + [nodes];
      ok := accepted && now == NoFault;
    }

    method Chmod(rel: Path, mode: nat) returns (ok: bool)
      requires rel in nodes ==> !nodes[rel].LinkNode?
      modifies this`nodes, this`calls, this`history
      ensures calls == old(calls) + 1 && history == old(history) + [nodes]
      ensures ok <==> rel in old(nodes) && fault(old(calls)) == NoFault
      ensures nodes == if rel in old(nodes) && fault(old(calls)) != Early
                       then old(nodes)[rel := old(nodes)[rel].(mode := mode)] else old(nodes)
    {
      var now := fault(calls);
      ok := rel in nodes && now == NoFault;
      calls := calls + 1;
      if rel in nodes && now != Early {
        nodes := nodes[rel := nodes[rel].(mode := mode)];
      }
      history := history + [nodes];
    }

    /** Publishes chunk metadata only; no content is transferred. */
    method WriteChunkMeta(rel: Path, meta: ChunkMeta) returns (ok: bool)
      requires rel in nodes
      modifies this`manifests, this`calls
      ensures calls == old(calls) + 1
      ensures ok <==> fault(old(calls)) == NoFault
      ensures manifests == if fault(old(calls)) != Early then old(manifests)[rel := meta] else old(manifests)
    {
      var now := fault(calls);
      calls := calls + 1;
      if now != Early {
        manifests := manifests[rel := meta];
      }
      ok := now == NoFault;
    }

    // ---- One planned write -----------------------------------------------------

    method ChmodSyncSaveEntry(rel: Path, mode: nat, previousMode: nat) returns (ok: bool)
      requires Valid() && rel in nodes && !nodes[rel].LinkNode? && nodes[rel].mode == previousMode
      modifies this`nodes, this`calls, this`history
      ensures Valid() && calls >= old(calls) && old(history) <= history
      ensures ok ==> nodes == old(nodes)[rel := old(nodes)[rel].(mode := mode)] && NoCallFailed(old(calls))
      ensures !ok ==> nodes == old(nodes) || nodes == old(nodes)[rel := old(nodes)[rel].(mode := mode)]
      ensures !ok ==> calls > old(calls) && fault(calls - 1) != NoFault
      ensures calls == old(calls) ==> nodes == old(nodes)
    {
      if previousMode == mode {
        assert nodes == nodes[rel := nodes[rel].(mode := mode)];
        return true;
      }
      PutKeepsWellFormed(nodes, rel, nodes[rel].(mode := mode));
      ok := Chmod(rel, mode);
    }

    /** Creation and chmod are separate calls; a failed chmod records the created directory. */
    method FinishSyncSaveCreate(rel: Path, mode: nat) returns (ok: bool)
      requires Valid() && rel in nodes && nodes[rel] == DirNode(MKDIR_MODE)
      modifies this`nodes, this`calls, this`history, this`baseline, this`nextVersion
      ensures Valid() && calls >= old(calls) && old(history) <= history
      ensures ok ==>
                && nodes == old(nodes)[rel := DirNode(mode)]
                && baseline == old(baseline) && nextVersion == old(nextVersion)
      ensures ok ==> NoCallFailed(old(calls))
      ensures !ok ==> nodes == old(nodes) || nodes == old(nodes)[rel := DirNode(mode)]
      ensures !ok ==> calls > old(calls) && fault(calls - 1) != NoFault && NotesCreation(old(baseline), rel, baseline)
    {
      ok := ChmodSyncSaveEntry(rel, mode, MKDIR_MODE);
      if !ok {
        baseline := baseline[rel := SyncEntry(Dir, MKDIR_MODE, 0, [], "", 0, nextVersion)];
        nextVersion := nextVersion + 1;
      }
    }

    /** Mkdir, then the mode. A creation that fails after its effect leaves the directory unrecorded. */
    method CreateSyncSaveDir(rel: Path, mode: nat) returns (ok: bool, ghost unrecorded: bool)
      requires Valid() && ParentsReady(nodes, rel) && rel !in nodes
      modifies this`nodes, this`calls, this`history, this`baseline, this`nextVersion
      ensures Valid() && calls > old(calls) && old(history) <= history
      ensures ok ==>
                && nodes == old(nodes)[rel := DirNode(mode)]
                && baseline == old(baseline) && nextVersion == old(nextVersion)
      ensures ok ==> NoCallFailed(old(calls)) && !unrecorded
      ensures unrecorded <==> fault(old(calls)) == Late
      ensures unrecorded ==> nodes == old(nodes)[rel := DirNode(MKDIR_MODE)] && baseline == old(baseline)
      ensures fault(old(calls)) == Early ==> nodes == old(nodes) && baseline == old(baseline)
      ensures !ok && fault(old(calls)) == NoFault ==>
                && (nodes == old(nodes)[rel := DirNode(MKDIR_MODE)] || nodes == old(nodes)[rel := DirNode(mode)])
                && NotesCreation(old(baseline), rel, baseline)
      ensures !ok ==> fault(calls - 1) != NoFault
    {
      ReadyParentsStay(nodes, rel);
      PutKeepsWellFormed(nodes, rel, DirNode(MKDIR_MODE));
      unrecorded := fault(calls) == Late;
      ok := Mkdir(rel);
      if ok {
        ok := FinishSyncSaveCreate(rel, mode);
      }
    }

    /** `previous` is the scanned entry still at the path, if the removes left one. */
    method WriteSyncSaveEntry(local: Tree, rel: Path, previous: Option<SaveEntry>)
      returns (ok: bool, ghost unrecorded: bool)
      requires Valid() && Writable(sha, nodes, local, rel, previous, baseline)
      modifies this`nodes, this`calls, this`history, this`baseline, this`nextVersion
      ensures Valid() && calls >= old(calls) && old(history) <= history
      ensures ok ==>
                nodes == old(nodes)[rel := local[rel]] && baseline == old(baseline) && nextVersion == old(nextVersion)
      ensures ok ==> NoCallFailed(old(calls)) && !unrecorded
      ensures !ok ==> calls > old(calls) && fault(calls - 1) != NoFault
      ensures !ok ==> AfterFailedWrite(old(nodes), local, rel, old(baseline), nodes, baseline, unrecorded)
      ensures unrecorded <==> local[rel].DirNode? && rel !in old(nodes) && fault(old(calls)) == Late
      ensures calls == old(calls) ==> nodes == old(nodes)
    {
      ReadyParentsStay(nodes, rel);
      unrecorded := false;
      var entry := Observe(sha, local[rel], None);
      if previous.Some? && SameContent(entry, previous.value) {
        EqualEntryIsEqualNode(sha, local[rel], nodes[rel], None, Lookup(baseline, rel));
        ok := ChmodSyncSaveEntry(rel, entry.mode, previous.value.mode);
        return;
      }
      if local[rel].DirNode? {
        ok, unrecorded := CreateSyncSaveDir(rel, local[rel].mode);
      } else {
        ok := PublishNode(rel, local[rel]);
      }
    }

    /** Links and files are complete after one call. */
    method PublishNode(rel: Path, n: Node) returns (ok: bool)
      requires Valid() && ParentsReady(nodes, rel) && !n.DirNode?
      requires rel in nodes ==> n.FileNode? && nodes[rel].FileNode?
      modifies this`nodes, this`calls, this`history
      ensures Valid() && calls == old(calls) + 1 && old(history) <= history
      ensures ok <==> fault(old(calls)) == NoFault
      ensures nodes == if fault(old(calls)) == Early then old(nodes) else old(nodes)[rel := n]
    {
      ReadyParentsStay(nodes, rel);
      PutKeepsWellFormed(nodes, rel, n);
      if n.LinkNode? {
        ok := Ln(n.target, rel);
      } else {
        ok := EchoCreate(rel, n.data, n.mode);
      }
    }

    // ---- Applying a plan -------------------------------------------------------

    /** Removes run through the given stages; a failed call leaves one of them. */
    method ApplyRemoves(ghost stages: seq<Tree>, remove: seq<Path>) returns (ok: bool)
      requires Valid() && RemovesThrough(stages, remove) && nodes == stages[0]
      modifies this`nodes, this`manifests, this`calls, this`history
      ensures Valid() && calls >= old(calls) && old(history) <= history
      ensures ok ==> nodes == stages[|remove|] && NoCallFailed(old(calls))
      ensures ok ==> manifests == old(manifests) - Elements(remove)
      ensures !ok ==> nodes in stages && SomeCallFailed(old(calls)) && remove != []
      ensures calls == old(calls) ==> nodes == old(nodes)
    {
      for k := 0 to |remove|
        invariant Valid() && calls >= old(calls) && old(history) <= history && NoCallFailed(old(calls))
        invariant nodes == stages[k] && (calls == old(calls) ==> nodes == old(nodes))
        invariant manifests == old(manifests) - Elements(remove[..k])
      {
        assert RemoveStep(stages[k], remove[k], stages[k + 1]);
        ok := Rm(remove[k]);
        if !ok {
          assert nodes == stages[k] || nodes == stages[k + 1];
          return;
        }
        assert Elements(remove[..k + 1]) == Elements(remove[..k]) + {remove[k]};
      }
      assert remove[..|remove|] == remove;
      ok := true;
    }

    /** Writes run through the given stages; a failed call leaves what one failed write leaves, and
        `unrecorded` is the directory it created without noting it. `remaining` is the scanned Redis
        tree without the removed paths. */
    method ApplyWrites(ghost stages: seq<Tree>, local: Tree, write: seq<Path>, remaining: SaveTree)
      returns (ok: bool, ghost at: nat, ghost first: nat, ghost unrecorded: bool)
      requires Valid() && WritesThrough(sha, stages, local, write, remaining, baseline) && nodes == stages[0]
      modifies this`nodes, this`calls, this`history, this`baseline, this`nextVersion
      ensures Valid() && calls >= old(calls) && old(history) <= history
      ensures ok ==> nodes == stages[|write|] && baseline == old(baseline) && nextVersion == old(nextVersion)
      ensures ok ==> NoCallFailed(old(calls))
      ensures !ok ==> SomeCallFailed(old(calls)) && at < |write|
      ensures !ok ==> AfterFailedWrite(stages[at], local, write[at], old(baseline), nodes, baseline, unrecorded)
      ensures !ok ==> old(calls) <= first < calls && Clean(old(calls), first)
      ensures !ok ==> (unrecorded <==> write[at] in local && local[write[at]].DirNode? && write[at] !in stages[at] &&
                                       fault(first) == Late)
      ensures calls == old(calls) ==> nodes == old(nodes)
    {
      at, first, unrecorded := 0, calls, false;
      for k := 0 to |write|
        invariant Valid() && calls >= old(calls) && old(history) <= history && NoCallFailed(old(calls))
        invariant nodes == stages[k] && (calls == old(calls) ==> nodes == old(nodes))
        invariant baseline == old(baseline) && nextVersion == old(nextVersion)
      {
        assert WriteStep(sha, stages[k], local, write[k], remaining, baseline, stages[k + 1]);
        at, first := k, calls;
        ok, unrecorded := WriteSyncSaveEntry(local, write[k], Lookup(remaining, write[k]));
        if !ok {
          return;
        }
      }
      ok := true;
    }

    // ---- Chunk metadata --------------------------------------------------------

    /** What the scan notes about the chunk metadata of each file. */
    function ScanChunks(tree: Tree, metas: map<Path, ChunkMeta>): map<Path, ScannedChunks> {
      map p | p in tree && tree[p].FileNode? ::
        ScannedChunks(MetaAt(metas, p) != (0, []), MetaAt(metas, p) == SavedMeta(tree[p].data))
    }

    function SavedMeta(data: Bytes): ChunkMeta {
      Chunks.SavedManifest(sha, data, chunkThreshold, chunkSize)
    }

    /** The metadata still at a local file's path is what the scan saw of the node left there. */
    ghost predicate MetaAsScanned(local: Tree, remaining: SaveTree, scan: map<Path, ScannedChunks>, p: Path)
      requires p in local && local[p].FileNode?
      reads this
    {
      && (p !in remaining ==> Meta(p) == (0, []))
      && (p in remaining ==>
            p in scan
            && (scan[p].hasChunks <==> Meta(p) != (0, []))
            && (scan[p].current && SameContent(Observe(sha, local[p], None), remaining[p]) ==>
                  Meta(p) == SavedMeta(local[p].data)))
    }

    lemma MetasAsScanned(s: Save, metas: map<Path, ChunkMeta>, local: Tree, remaining: SaveTree)
      requires s.Valid() && s.sha == sha && s.local == local
      requires metas.Keys <= s.remote.Keys && manifests == metas - s.Removed()
      requires remaining == Scan(sha, s.remote, s.baseline) - s.Removed()
      ensures forall p :: p in local && local[p].FileNode? ==>
                MetaAsScanned(local, remaining, ScanChunks(s.remote, metas), p)
    {
      forall p | p in local && local[p].FileNode?
        ensures MetaAsScanned(local, remaining, ScanChunks(s.remote, metas), p)
      {
        DecisionFacts(s, p);
        if p in remaining {
          EqualEntryIsEqualNode(sha, local[p], s.remote[p], None, Lookup(s.baseline, p));
        }
      }
    }

    /** Whole-file publication keeps an older chunk manifest; bring every file's manifest up to date. */
    method NormalizeChunks(local: Tree, remaining: SaveTree, scan: map<Path, ScannedChunks>) returns (ok: bool)
      requires Valid() && nodes == local
      requires forall p :: p in local && local[p].FileNode? ==> MetaAsScanned(local, remaining, scan, p)
      modifies this`manifests, this`calls
      ensures Valid() && calls >= old(calls)
      ensures ok ==> forall p :: p in local && local[p].FileNode? ==> Meta(p) == SavedMeta(local[p].data)
      ensures if ok then NoCallFailed(old(calls)) else SomeCallFailed(old(calls))
    {
      var todo := local.Keys;
      while todo != {}
        invariant todo <= local.Keys && Valid() && calls >= old(calls) && NoCallFailed(old(calls))
        invariant forall p :: p in todo && local[p].FileNode? ==> MetaAsScanned(local, remaining, scan, p)
        invariant forall p :: p in local && p !in todo && local[p].FileNode? ==> Meta(p) == SavedMeta(local[p].data)
        decreases |todo|
      {
        var rel :| rel in todo;
        todo := todo - {rel};
        if !local[rel].FileNode? {
          continue;
        }
        assert MetaAsScanned(local, remaining, scan, rel);
        ok := NormalizeFile(local, remaining, scan, rel);
        if !ok {
          return;
        }
      }
      ok := true;
    }

    method NormalizeFile(local: Tree, remaining: SaveTree, scan: map<Path, ScannedChunks>, rel: Path) returns (ok: bool)
      requires Valid() && nodes == local && rel in local && local[rel].FileNode?
      requires MetaAsScanned(local, remaining, scan, rel)
      modifies this`manifests, this`calls
      ensures Valid() && calls >= old(calls)
      ensures ok ==> Meta(rel) == SavedMeta(local[rel].data)
      ensures forall p :: p != rel ==> MetaAt(manifests, p) == MetaAt(old(manifests), p)
      ensures if ok then NoCallFailed(old(calls)) else SomeCallFailed(old(calls))
    {
      var entry := Observe(sha, local[rel], None);
      var previous := rel in remaining;
      if entry.size <= Chunks.OrDefault(chunkThreshold, Chunks.DEFAULT_CHUNK_THRESHOLD) &&
         !(previous && scan[rel].hasChunks) {
        return true;
      }
      if previous && SameContent(entry, remaining[rel]) && scan[rel].current {
        return true;
      }
      var size, hashes := Chunks.SyncSaveChunks(sha, local[rel].data, chunkThreshold, chunkSize);
      ok := WriteChunkMeta(rel, (size, hashes));
    }

    method PublishBaseline(saved: Tree)
      requires Valid() && forall p :: p in saved && saved[p].FileNode? ==> Meta(p) == SavedMeta(saved[p].data)
      modifies this`baseline, this`nextVersion
      ensures Valid() && baseline.Keys == saved.Keys && PublishedBaseline(sha, saved, baseline)
      ensures nextVersion == old(nextVersion) + |saved| && FreshVersions(baseline, old(nextVersion), nextVersion)
    {
      var chunks := map p | p in saved :: if saved[p].FileNode? then Meta(p) else (0, []);
      baseline, nextVersion := BuildBaseline(sha, saved, chunks, nextVersion);
    }

    // ---- The whole save ----------------------------------------------------------

    /** Removes, then writes, in plan order. */
    method ApplyPlan(ghost s: Save, local: Tree, remote: SaveTree, plan: Plan)
      returns (ok: bool, remaining: SaveTree, ghost why: Failure, ghost lost: Option<Path>)
      requires Valid() && s == Save(sha, local, nodes, baseline) && s.Valid() && s.Planned(plan)
      requires remote == Scan(sha, nodes, baseline)
      modifies this`nodes, this`manifests, this`calls, this`history, this`baseline, this`nextVersion
      ensures Valid() && calls >= old(calls) && old(history) <= history
      ensures ok ==> nodes == local && baseline == s.baseline && manifests == old(manifests) - s.Removed()
      ensures remaining == remote - s.Removed()
      ensures if ok then NoCallFailed(old(calls)) else SomeCallFailed(old(calls)) && Partial(s, nodes, baseline, lost)
      ensures !ok ==> Explains(s, old(calls), why, lost)
      ensures calls == old(calls) ==> nodes == old(nodes)
    {
      why, lost := InRemove, None;
      ok := ApplyPlannedRemoves(s, plan);
      remaining := remote - Elements(plan.remove);
      if !ok {
        return;
      }
      ghost var between := calls;
      ok, why, lost := ApplyPlannedWrites(s, local, remaining, plan);
      assert !ok ==> Clean(old(calls), between) && Clean(between, why.first);
    }

    method ApplyPlannedRemoves(ghost s: Save, plan: Plan) returns (ok: bool)
      requires Valid() && s.Valid() && s.Planned(plan) && s.remote == nodes && s.baseline == baseline
      modifies this`nodes, this`manifests, this`calls, this`history
      ensures Valid() && calls >= old(calls) && old(history) <= history && Elements(plan.remove) == s.Removed()
      ensures ok ==> nodes == s.Stage(s.Removed(), {}) && manifests == old(manifests) - s.Removed()
      ensures ok ==> NoCallFailed(old(calls))
      ensures !ok ==> SomeCallFailed(old(calls)) && Partial(s, nodes, baseline, None) && s.Removed() != {}
      ensures calls == old(calls) ==> nodes == old(nodes)
    {
      ghost var removing := RemovingStages(s, plan);
      ok := ApplyRemoves(removing, plan.remove);
      assert !ok ==> Partial(s, nodes, s.baseline, None) && s.Removed() != {} by {
        if !ok {
          RemovingFailed(s, plan.remove, removing, nodes);
        }
      }
    }

    /** The writes of a plan whose removes are done. */
    method ApplyPlannedWrites(ghost s: Save, local: Tree, remaining: SaveTree, plan: Plan)
      returns (ok: bool, ghost why: Failure, ghost lost: Option<Path>)
      requires Valid() && s.Valid() && s.Planned(plan) && s.sha == sha && s.local == local && s.baseline == baseline
      requires nodes == s.Stage(s.Removed(), {}) && remaining == Scan(sha, s.remote, s.baseline) - s.Removed()
      modifies this`nodes, this`calls, this`history, this`baseline, this`nextVersion
      ensures Valid() && calls >= old(calls) && old(history) <= history
      ensures if ok then NoCallFailed(old(calls)) && nodes == local && baseline == s.baseline
              else SomeCallFailed(old(calls)) && Partial(s, nodes, baseline, lost)
      ensures !ok ==> why.InWrite? && Explains(s, old(calls), why, lost)
      ensures calls == old(calls) ==> nodes == old(nodes)
    {
      ghost var writing := WritingStages(s, plan);
      assert writing[0] == s.Stage(s.Removed(), Elements(plan.write[..0]));
      assert Elements(plan.write[..0]) == {};
      ghost var k, first, unrecorded;
      ok, k, first, unrecorded := ApplyWrites(writing, local, plan.write, remaining);
      if !ok {
        PartialAfterWrite(s, Elements(plan.write[..k]), plan.write[k], nodes, baseline, unrecorded);
        NewAtWrite(s, plan, k);
        why, lost := InWrite(plan.write[k], first), if unrecorded then Some(plan.write[k]) else None;
      } else {
        why, lost := InRemove, None;
      }
    }

    /** Normalise, verify, publish, once the nodes are the local ones. */
    method FinishSave(local: Tree, scanned: SaveTree, remaining: SaveTree, scan: map<Path, ScannedChunks>)
      returns (out: Outcome)
      requires Valid() && nodes == local && scanned == Scan(sha, local, map[])
      requires forall p :: p in local && local[p].FileNode? ==> MetaAsScanned(local, remaining, scan, p)
      modifies this`manifests, this`calls, this`baseline, this`nextVersion
      ensures Valid() && calls >= old(calls) && (out.Saved? || out.Interrupted?)
      ensures out.Saved? ==> baseline.Keys == local.Keys && PublishedBaseline(sha, local, baseline)
      ensures out.Saved? ==> forall p :: p in local && local[p].FileNode? ==> Meta(p) == SavedMeta(local[p].data)
      ensures out.Saved? ==> NoCallFailed(old(calls))
      ensures out.Interrupted? ==> SomeCallFailed(old(calls)) && baseline == old(baseline)
    {
      var ok := NormalizeChunks(local, remaining, scan);
      if !ok {
        return Interrupted;
      }
      var verified := Scan(sha, nodes, baseline);
      var equal := CompareSyncSaveTrees(scanned, verified);
      if !equal {
        return Mismatch;
      }
      PublishBaseline(local);
      out := Saved;
    }

    /** Plan, apply, normalise, verify, publish. The save succeeds exactly when there is no conflict and
        no call fails, so no step of the plan is ever refused by the client. `lost` is the directory an
        interrupted save created without noting it. */
    method SaveSyncTree(local: Tree) returns (out: Outcome, ghost why: Failure, ghost lost: Option<Path>)
      requires Valid() && WellFormed(local)
      modifies this
      ensures Valid() && calls >= old(calls) && old(history) <= history && out != Mismatch
      ensures out.ConflictAt? <==>
                !NoConflict(Scan(sha, local, map[]), Scan(sha, old(nodes), old(baseline)), old(baseline))
      ensures out.ConflictAt? <==> !NoClash(sha, local, old(nodes), old(baseline))
      ensures out.ConflictAt? ==> ClashAt(sha, local, old(nodes), old(baseline), out.path)
      ensures out.ConflictAt? ==> nodes == old(nodes) && baseline == old(baseline) && manifests == old(manifests)
      ensures OnlyRecordedLost(sha, old(nodes), old(baseline), nodes)
      ensures out.Saved? ==> RemovedAsRecorded(sha, old(nodes), old(baseline), nodes)
      ensures out.Saved? ==> nodes == local && baseline.Keys == local.Keys && PublishedBaseline(sha, local, baseline)
      ensures out.Saved? ==> forall p :: p in local && local[p].FileNode? ==> Meta(p) == SavedMeta(local[p].data)
      ensures out.Saved? ==> NoCallFailed(old(calls))
      ensures out.Interrupted? ==> SomeCallFailed(old(calls))
      ensures out.Interrupted? ==> Partial(Save(sha, local, old(nodes), old(baseline)), nodes, baseline, lost)
      ensures out.Interrupted? ==> Explains(Save(sha, local, old(nodes), old(baseline)), old(calls), why, lost)
      ensures calls == old(calls) ==> nodes == old(nodes)
    {
      why, lost := InRemove, None;
      var scanned := Scan(sha, local, map[]);
      var remote := Scan(sha, nodes, baseline);
      var scan := ScanChunks(nodes, manifests);
      var r := PlanSyncSave(scanned, remote, baseline);
      WhatPlanned(sha, local, nodes, baseline, r);
      if r.Err? {
        return ConflictAt(r.error), why, lost;
      }
      ghost var s := Save(sha, local, nodes, baseline);
      var ok, remaining;
      ok, remaining, why, lost := ApplyPlan(s, local, remote, r.value);
      if !ok {
        PartialLosesRecorded(s, nodes, baseline, lost);
        return Interrupted, why, lost;
      }
      why, lost := InNormalize(calls), None;
      MetasAsScanned(s, old(manifests), local, remaining);
      out := FinishSave(local, scanned, remaining, scan);
    }

    /** The attempt between two call numbers had a failing call. */
    ghost predicate Hindered(starts: seq<nat>, i: nat)
      requires i + 1 < |starts|
    {
      !Clean(starts[i], starts[i + 1])
    }

    /** Retrying an interrupted save; attempt `i` makes the calls from number `starts[i]` on and before
        number `starts[i + 1]`. Every attempt but the last had a failing call. The last one saves if no call
        of it failed, unless the one before left a conflict of its own making: a directory created
        unrecorded, with neither the intended mode nor the one the baseline has. */
    method SaveWithRetries(local: Tree, attempts: nat)
      returns (out: Outcome, ghost starts: seq<nat>, ghost lost: Option<Path>)
      requires Valid() && WellFormed(local)
      requires NoConflict(Scan(sha, local, map[]), Scan(sha, nodes, baseline), baseline)
      modifies this
      ensures Valid() && out != Mismatch && old(history) <= history
      ensures 0 < |starts| <= attempts + 1 && starts[0] == old(calls) && starts[|starts| - 1] == calls
      ensures forall i :: 0 <= i < |starts| - 2 ==> Hindered(starts, i)
      ensures out.Interrupted? ==> |starts| == attempts + 1 && forall i :: 0 <= i < attempts ==> Hindered(starts, i)
      ensures out.Saved? ==> |starts| >= 2 && !Hindered(starts, |starts| - 2)
      ensures out.Saved? ==> nodes == local && PublishedBaseline(sha, local, baseline)
      ensures out.ConflictAt? ==> |starts| >= 3 && lost.Some? && !Excused(local, baseline, lost.value)
      ensures !out.Saved? ==> (NoConflict(Scan(sha, local, map[]), Scan(sha, nodes, baseline), baseline) <==>
                                 lost.None? || Excused(local, baseline, lost.value))
      ensures !out.Saved? && lost.Some? ==> lost.value in local && local[lost.value].DirNode? &&
                                            lost.value in nodes && nodes[lost.value] == DirNode(MKDIR_MODE)
    {
      out, starts, lost := Interrupted, [calls], None;
      for i := 0 to attempts
        invariant Valid() && old(history) <= history && out.Interrupted?
        invariant |starts| == i + 1 && starts[0] == old(calls) && starts[i] == calls
        invariant forall j :: 0 <= j < i ==> Hindered(starts, j)
        invariant i == 0 ==> lost.None?
        invariant NoConflict(Scan(sha, local, map[]), Scan(sha, nodes, baseline), baseline) <==>
                    lost.None? || Excused(local, baseline, lost.value)
        invariant lost.Some? ==> lost.value in local && local[lost.value].DirNode? &&
                                 lost.value in nodes && nodes[lost.value] == DirNode(MKDIR_MODE)
      {
        ghost var s, before := Save(sha, local, nodes, baseline), starts;
        ghost var why, left;
        out, why, left := SaveSyncTree(local);
        starts := starts + [calls];
        forall j | 0 <= j < i ensures Hindered(starts, j) {
          assert Hindered(before, j);
        }
        if !out.Interrupted? {
          return;
        }
        RestartConflictsIff(s, nodes, baseline, left);
        lost := left;
      }
    }
  }

  lemma WhatPlanned(sha: Sha, local: Tree, remote: Tree, baseline: Baseline, r: Result<Plan, Path>)
    requires Ideal(sha)
    requires r.Ok? <==> NoConflict(Scan(sha, local, map[]), Scan(sha, remote, baseline), baseline)
    requires r.Err? ==> r.error in remote &&
                        At(Scan(sha, local, map[]), Scan(sha, remote, baseline), baseline, r.error) == Conflict
    ensures r.Ok? <==> NoClash(sha, local, remote, baseline)
    ensures r.Err? ==> ClashAt(sha, local, remote, baseline, r.error)
    ensures r.Ok? ==> OnlyRecordedLost(sha, remote, baseline, local) && RemovedAsRecorded(sha, remote, baseline, local)
  {
    NoConflictIff(sha, local, remote, baseline);
    if r.Err? {
      ConflictIff(sha, local, remote, baseline, r.error);
    } else {
      NoClashLosesRecorded(sha, local, remote, baseline);
    }
  }

  lemma NothingToRemove(s: Save)
    requires s.remote == map[]
    ensures s.Removed() == {} && s.Written() <= s.local.Keys
  {
  }

  /** An empty workspace, a local directory, and a save whose Mkdir fails after its effect: saving again
      is a conflict unless the directory has the mode Mkdir gives. */
  method LateMkdirThenRetry(sha: Sha, mode: nat) returns (first: Outcome, out: Outcome)
    requires Ideal(sha)
    ensures first.Interrupted?
    ensures out.ConflictAt? <==> mode != MKDIR_MODE
    ensures out.Saved? <==> mode == MKDIR_MODE
  {
    var local: Tree := map["dir" := DirNode(mode)];
    TopLevel("dir");
    var engine := new Engine(sha, n => if n == 0 then Late else NoFault, 0, 0, map[], map[], map[], 0);
    ghost var s := Save(sha, local, map[], map[]);
    ghost var why, lost;
    first, why, lost := engine.SaveSyncTree(local);
    assert engine.fault(0) == Late;
    NothingToRemove(s);
    assert "dir" in local && s.Valid();
    assert first.Interrupted? && why == InWrite("dir", 0) && lost == Some("dir");
    RestartConflictsIff(s, engine.nodes, engine.baseline, lost);
    out, why, lost := engine.SaveSyncTree(local);
  }
}
