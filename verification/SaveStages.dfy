/**
 What the Redis tree looks like while a plan is applied: every prefix of the removes and writes
 leaves a well-formed tree, the complete plan yields the local tree, and planning again from any
 prefix reports no conflict.
 */
module SaveStages {
  import opened Results
  import opened Paths
  import opened Hashing
  import opened SavePlan
  import Chunks

  /** A save in progress: the trees and baseline it was planned from. */
  datatype Save = Save(sha: Sha, local: Tree, remote: Tree, baseline: Baseline) {
    ghost predicate Valid() {
      && Ideal(sha) && WellFormed(local) && WellFormed(remote)
      && NoConflict(Scan(sha, local, map[]), Scan(sha, remote, baseline), baseline)
    }

    function DecisionAt(p: Path): Decision {
      At(Scan(sha, local, map[]), Scan(sha, remote, baseline), baseline, p)
    }

    function Removed(): set<Path> {
      RemoveSet(Scan(sha, local, map[]), Scan(sha, remote, baseline), baseline)
    }

    function Written(): set<Path> {
      WriteSet(Scan(sha, local, map[]), Scan(sha, remote, baseline), baseline)
    }

    ghost predicate Planned(plan: Plan) {
      IsPlan(plan, Scan(sha, local, map[]), Scan(sha, remote, baseline), baseline)
    }

    /** The tree once the paths in `gone` are removed and those in `done` written. */
    function Stage(gone: set<Path>, done: set<Path>): Tree {
      map p | p in (remote.Keys - gone) + (done * local.Keys) :: if p in done && p in local then local[p] else remote[p]
    }
  }

  function Elements(s: seq<Path>): set<Path> {
    set p | p in s
  }

  /** The decision at a path, in terms of what the trees hold there. */
  lemma DecisionFacts(s: Save, p: Path)
    requires s.Valid()
    ensures s.DecisionAt(p) != Conflict || p !in s.remote
    ensures s.DecisionAt(p) == Keep <==> Lookup(s.local, p) == Lookup(s.remote, p)
    ensures p in s.Removed() <==> Removes(s.DecisionAt(p)) && p in s.remote
    ensures p in s.Written() <==> Writes(s.DecisionAt(p)) && p in s.local
    ensures p in s.remote && p !in s.local ==> s.DecisionAt(p) == Delete
    ensures p in s.local && p !in s.remote ==> s.DecisionAt(p) == Create
    ensures p in s.local && p in s.remote ==>
              (p in s.Removed() <==> (s.local[p] != s.remote[p]
                 && !(s.local[p].FileNode? && s.remote[p].FileNode?) && !(s.local[p].DirNode? && s.remote[p].DirNode?)))
    ensures p in s.Written() <==> p in s.local && Lookup(s.remote, p) != Some(s.local[p])
  {
    if p in s.local && p in s.remote {
      EqualEntryIsEqualNode(s.sha, s.local[p], s.remote[p], None, Lookup(s.baseline, p));
    }
  }

  /** A path below a removed path is removed as well. */
  lemma RemovedIsClosed(s: Save, p: Path, q: Path)
    requires s.Valid() && p in s.Removed() && q in s.remote && Under(q, p)
    ensures q in s.Removed()
  {
    DecisionFacts(s, p);
    DecisionFacts(s, q);
    assert s.remote[p].DirNode?;
  }

  /** The parents of a kept or written path are directories and stay. */
  lemma KeptParents(s: Save, q: Path, d: Path)
    requires s.Valid() && q in s.local && Under(q, d)
    ensures d in s.local && s.local[d].DirNode?
    ensures d !in s.Written() ==> d in s.remote && d !in s.Removed() && s.remote[d] == s.local[d]
    ensures d in s.remote && s.remote[d].DirNode? ==> d !in s.Removed()
  {
    DecisionFacts(s, d);
  }

  lemma RemovedEarlier(s: Save, plan: Plan, p: Path, q: Path, k: nat)
    requires s.Valid() && s.Planned(plan) && k < |plan.remove| && plan.remove[k] == p
    requires q in s.remote && Under(q, p)
    ensures q in plan.remove[..k]
  {
    ListsOnce(plan.remove, s.Removed());
    RemovedIsClosed(s, p, q);
    var j :| 0 <= j < |plan.remove| && plan.remove[j] == q;
    UnderIsDeeper(q, p);
    assert plan.remove[j] == plan.remove[..k][j];
  }

  lemma WrittenEarlier(s: Save, plan: Plan, q: Path, d: Path, k: nat)
    requires s.Valid() && s.Planned(plan) && k < |plan.write| && plan.write[k] == q
    requires Under(q, d) && d in s.Written()
    ensures d in plan.write[..k]
  {
    ListsOnce(plan.write, s.Written());
    var j :| 0 <= j < |plan.write| && plan.write[j] == d;
    UnderIsDeeper(q, d);
    assert PathBefore(plan.write[j], plan.write[k]);
    assert plan.write[j] == plan.write[..k][j];
  }

  /** No directory is removed while it has children. */
  lemma RemoveStepSafe(s: Save, plan: Plan, k: nat)
    requires s.Valid() && s.Planned(plan) && k < |plan.remove|
    ensures var t := s.Stage(Elements(plan.remove[..k]), {});
            plan.remove[k] in t && t[plan.remove[k]] == s.remote[plan.remove[k]]
            && forall q :: q in t ==> !Under(q, plan.remove[k])
  {
    ListsOnce(plan.remove, s.Removed());
    assert plan.remove[k] in s.Removed();
    var t := s.Stage(Elements(plan.remove[..k]), {});
    forall q | q in t
      ensures !Under(q, plan.remove[k])
    {
      if Under(q, plan.remove[k]) {
        RemovedEarlier(s, plan, plan.remove[k], q, k);
      }
    }
  }

  lemma RemoveStageWellFormed(s: Save, plan: Plan, k: nat)
    requires s.Valid() && s.Planned(plan) && k <= |plan.remove|
    ensures WellFormed(s.Stage(Elements(plan.remove[..k]), {}))
  {
    var t := s.Stage(Elements(plan.remove[..k]), {});
    forall q, d | q in t && Under(q, d)
      ensures d in t && t[d].DirNode?
    {
      if d in plan.remove[..k] {
        var j :| 0 <= j < k && plan.remove[j] == d;
        RemovedEarlier(s, plan, d, q, j);
      }
    }
  }

  /** Nothing is written before its parent exists as a directory. */
  lemma WriteStepSafe(s: Save, plan: Plan, k: nat)
    requires s.Valid() && s.Planned(plan) && k < |plan.write|
    ensures var t := s.Stage(s.Removed(), Elements(plan.write[..k]));
            forall d :: Under(plan.write[k], d) ==> d in t && t[d].DirNode?
  {
    ListsOnce(plan.write, s.Written());
    var q := plan.write[k];
    assert q in s.Written();
    var t := s.Stage(s.Removed(), Elements(plan.write[..k]));
    forall d | Under(q, d)
      ensures d in t && t[d].DirNode?
    {
      KeptParents(s, q, d);
      if d in s.Written() {
        WrittenEarlier(s, plan, q, d, k);
      }
    }
  }

  lemma WriteStageWellFormed(s: Save, plan: Plan, k: nat)
    requires s.Valid() && s.Planned(plan) && k <= |plan.write|
    ensures WellFormed(s.Stage(s.Removed(), Elements(plan.write[..k])))
  {
    ListsOnce(plan.write, s.Written());
    var done := Elements(plan.write[..k]);
    var t := s.Stage(s.Removed(), done);
    forall q, d | q in t && Under(q, d)
      ensures d in t && t[d].DirNode?
    {
      DecisionFacts(s, q);
      KeptParents(s, q, d);
      if q in done {
        var j :| 0 <= j < k && plan.write[j] == q;
        if d in s.Written() {
          WrittenEarlier(s, plan, q, d, j);
          assert d in plan.write[..k];
        }
      }
    }
  }

  /** The complete plan turns the Redis tree into exactly the local tree. */
  lemma PlanReachesLocal(s: Save)
    requires s.Valid()
    ensures s.Stage(s.Removed(), s.Written()) == s.local
  {
    var t := s.Stage(s.Removed(), s.Written());
    forall p
      ensures p in t <==> p in s.local
      ensures p in t ==> t[p] == s.local[p]
    {
      DecisionFacts(s, p);
    }
  }

  // ---- Restart -----------------------------------------------------------------

  const MKDIR_MODE := 0x1ED   // 0755

  /** The baseline entry recorded when a directory was created but its chmod failed. */
  predicate CreatedDir(stored: SyncEntry) {
    stored.kind == Dir && stored.mode == MKDIR_MODE
  }

  /** What an interrupted apply can leave at a path: the planned-from node with its original baseline,
      the intended node, or a directory whose creation was recorded in the baseline. */
  ghost predicate PathPartial(s: Save, tree: Tree, baseline: Baseline, p: Path)
    requires p in tree
  {
    || (p in s.remote && tree[p] == s.remote[p] && Lookup(baseline, p) == Lookup(s.baseline, p))
    || (p in s.local && tree[p] == s.local[p])
    || (p in s.local && s.local[p].DirNode? && tree[p] == DirNode(MKDIR_MODE) &&
        p in baseline && CreatedDir(baseline[p]))
  }

  /** A directory that was created although its creation failed, so that nothing was recorded. */
  ghost predicate Unrecorded(s: Save, tree: Tree, baseline: Baseline, p: Path) {
    && p in s.local && s.local[p].DirNode? && p in tree && tree[p] == DirNode(MKDIR_MODE)
    && Lookup(baseline, p) == Lookup(s.baseline, p)
  }

  /** An interrupted apply stops at its first failing call, so at most one creation goes unrecorded. */
  ghost predicate Partial(s: Save, tree: Tree, baseline: Baseline, lost: Option<Path>) {
    && (forall p :: p in tree && Some(p) != lost ==> PathPartial(s, tree, baseline, p))
    && (lost.Some? ==> Unrecorded(s, tree, baseline, lost.value))
    && (forall p :: p in s.remote && p !in tree ==> p in s.Removed())
  }

  /** The unrecorded directory has the intended mode, or the mode the baseline expects. */
  predicate Excused(local: Tree, baseline: Baseline, p: Path) {
    || (p in local && local[p] == DirNode(MKDIR_MODE))
    || (p in baseline && CreatedDir(baseline[p]))
  }

  lemma PartialHasNoConflict(s: Save, tree: Tree, baseline: Baseline, p: Path)
    requires s.Valid() && p in tree && PathPartial(s, tree, baseline, p)
    ensures Save(s.sha, s.local, tree, baseline).DecisionAt(p) != Conflict
  {
    var again := Save(s.sha, s.local, tree, baseline);
    if p in s.remote && tree[p] == s.remote[p] && Lookup(baseline, p) == Lookup(s.baseline, p) {
      assert again.DecisionAt(p) == s.DecisionAt(p);
      DecisionFacts(s, p);
    } else if p in s.local && tree[p] == s.local[p] {
      EqualEntryIsEqualNode(s.sha, s.local[p], tree[p], None, Lookup(baseline, p));
    }
  }

  /** The retry is free of conflict at an unrecorded directory exactly when the intended or the stored
      mode is the creation mode. */
  lemma UnrecordedCreationConflicts(s: Save, tree: Tree, baseline: Baseline, p: Path)
    requires s.Valid() && Unrecorded(s, tree, baseline, p)
    ensures Save(s.sha, s.local, tree, baseline).DecisionAt(p) != Conflict <==> Excused(s.local, baseline, p)
  {
  }

  /** Planning again with the same local tree reports a conflict if and only if a directory was created
      unrecorded, under another mode than the intended one and the one the baseline has. */
  lemma RestartConflictsIff(s: Save, tree: Tree, baseline: Baseline, lost: Option<Path>)
    requires s.Valid() && WellFormed(tree) && Partial(s, tree, baseline, lost)
    ensures Save(s.sha, s.local, tree, baseline).Valid() <==> lost.None? || Excused(s.local, baseline, lost.value)
  {
    var again := Save(s.sha, s.local, tree, baseline);
    forall p | p in tree && Some(p) != lost
      ensures again.DecisionAt(p) != Conflict
    {
      PartialHasNoConflict(s, tree, baseline, p);
    }
    if lost.Some? {
      UnrecordedCreationConflicts(s, tree, baseline, lost.value);
    }
  }

  /** At a path that lost its content, that was to happen. */
  lemma LostWasPlanned(s: Save, tree: Tree, baseline: Baseline, lost: Option<Path>, p: Path)
    requires s.Valid() && Partial(s, tree, baseline, lost)
    requires p in s.remote && (p !in tree || !Alike(tree[p], s.remote[p]))
    ensures p !in s.local || !Alike(s.local[p], s.remote[p])
  {
    if p !in tree {
      DecisionFacts(s, p);
    } else if lost == Some(p) {
      assert Unrecorded(s, tree, baseline, p);
    } else {
      assert PathPartial(s, tree, baseline, p);
    }
  }

  /** An interrupted apply has lost recorded content only. */
  lemma PartialLosesRecorded(s: Save, tree: Tree, baseline: Baseline, lost: Option<Path>)
    requires s.Valid() && Partial(s, tree, baseline, lost)
    ensures OnlyRecordedLost(s.sha, s.remote, s.baseline, tree)
  {
    NoConflictIff(s.sha, s.local, s.remote, s.baseline);
    NoClashLosesRecorded(s.sha, s.local, s.remote, s.baseline);
    forall p | p in s.remote && (p !in tree || !Alike(tree[p], s.remote[p]))
      ensures p in s.baseline && RecordsContent(s.sha, s.baseline[p], s.remote[p])
    {
      LostWasPlanned(s, tree, baseline, lost, p);
    }
  }

  // ---- After a successful save -------------------------------------------------

  /** The entry installed for a saved node. */
  function SavedEntry(sha: Sha, n: Node, chunks: (nat, seq<Hash>), version: nat): SyncEntry {
    var e := Observe(sha, n, None);
    SyncEntry(e.kind, e.mode, e.size, if chunks.0 > 0 then CompositeHash(sha, chunks.1) else e.hash,
              e.target, chunks.0, version)
  }

  /** Every saved path has a baseline entry, and a recorded chunk manifest is that of the saved bytes. */
  ghost predicate PublishedBaseline(sha: Sha, saved: Tree, baseline: Baseline) {
    forall p :: p in saved ==> p in baseline && SavedAs(sha, saved[p], baseline[p])
  }

  predicate SavedAs(sha: Sha, n: Node, entry: SyncEntry) {
    && (entry.chunkSize > 0 ==> n.FileNode?)
    && entry == SavedEntry(sha, n, (entry.chunkSize, ChunkHashesOf(sha, n, entry.chunkSize)), entry.version)
  }

  function ChunkHashesOf(sha: Sha, n: Node, size: nat): seq<Hash> {
    if n.FileNode? && size > 0 then Chunks.Manifest(sha, n.data, size) else []
  }

  lemma SavedMatches(sha: Sha, saved: Tree, baseline: Baseline, p: Path)
    requires Ideal(sha) && PublishedBaseline(sha, saved, baseline) && p in saved
    ensures p in baseline && MatchesBaseline(Observe(sha, saved[p], Lookup(baseline, p)), baseline[p])
  {
    if saved[p].FileNode? {
      assert Digest(sha(saved[p].data));
      assert Digest(sha(Join(ChunkHashesOf(sha, saved[p], baseline[p].chunkSize)))) && Digest(sha([]));
    }
  }

  /** What an entry of a saved node records: that node's content, and where it was recorded by chunks also
      a file of the same length that holds the digests of the chunks. */
  lemma SavedRecords(sha: Sha, saved: Node, e: SyncEntry, n: Node)
    requires Ideal(sha) && SavedAs(sha, saved, e)
    ensures RecordsContent(sha, e, n) <==>
              || Alike(saved, n)
              || (e.chunkSize > 0 && saved.FileNode? && n.FileNode? && |n.data| == |saved.data| &&
                  n.data == Join(Chunks.Manifest(sha, saved.data, e.chunkSize)))
    ensures RecordsMode(e, saved)
  {
    if e.chunkSize > 0 && n.FileNode? {
      Chunks.CompositeIdentifiesBytes(sha, saved.data, n.data, e.chunkSize);
      var hashes := Chunks.Manifest(sha, saved.data, e.chunkSize);
      assert CompositeHash(sha, hashes) == sha(Join(hashes));
    }
  }

  /** After a save, whatever the local tree becomes, the next save starts without conflict. */
  lemma NextSaveHasNoConflict(sha: Sha, saved: Tree, baseline: Baseline, next: Tree)
    requires Ideal(sha) && WellFormed(saved) && WellFormed(next)
    requires PublishedBaseline(sha, saved, baseline)
    ensures Save(sha, next, saved, baseline).Valid()
  {
    var s := Save(sha, next, saved, baseline);
    forall p | p in saved
      ensures s.DecisionAt(p) != Conflict
    {
      SavedMatches(sha, saved, baseline, p);
    }
  }
}
