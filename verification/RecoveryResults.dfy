/**
 What a complete recovery pass does to a path nothing else disturbs, in terms of the two trees and the
 baseline it set out from: the three-way result for files and for directories.
 */
module RecoveryResults {
  import opened Hashing
  import opened Paths
  import opened RecoveryPlan
  import opened RecoveryWorld
  import opened RecoveryFrames
  import opened Results

  // ---- The promise --------------------------------------------------------------------------------

  /** All that lies above the path are directories on both sides. */
  ghost predicate Calm(w: World, p: Path) {
    forall q :: q in w.local.Keys + w.remote.Keys && Under(p, q) ==>
      q in w.local && q in w.remote && w.local[q].Dir? && w.remote[q].Dir?
  }

  /** Nothing lies below the path. */
  ghost predicate Bare(w: World, p: Path) {
    forall q :: q in w.local.Keys + w.remote.Keys ==> !Under(q, p)
  }

  predicate FilesAt(w: World, p: Path) {
    (p in w.local || p in w.remote) && (p in w.local ==> w.local[p].File?) && (p in w.remote ==> w.remote[p].File?)
  }

  predicate DirectoriesAt(w: World, p: Path) {
    (p in w.local || p in w.remote) && (p in w.local ==> w.local[p].Dir?) && (p in w.remote ==> w.remote[p].Dir?)
  }

  /** The file has the recorded size, mode and time. */
  predicate AsRecorded(n: Node, e: Entry, time: int) {
    n.File? && !e.isDir && |n.content| == e.size && n.mode == e.mode && n.mtime == time
  }

  /** The file has the recorded bytes and mode. */
  predicate HoldsRecorded(n: Node, e: Entry) {
    n.File? && !e.isDir && n.mode == e.mode && |n.content| == e.size && e.content == Some(n.content)
  }

  /** The remote file is the one that was recorded; a mode that was not recorded is not compared. */
  predicate RemoteRecorded(n: Node, e: Entry) {
    n.File? && !e.isDir && e.content == Some(n.content) && (e.mode != 0 ==> n.mode == e.mode)
  }

  /** Both files are as they were last seen, or got the same new mode. */
  predicate SeenBefore(x: Node, y: Node, e: Entry) {
    && x.File? && y.File? && |x.content| == |y.content| == e.size && x.mode == y.mode
    && x.mtime == e.localMtime && y.mtime == e.remoteMtime
  }

  predicate Stays(w0: World, w: World, p: Path) {
    Lookup(w.local, p) == Lookup(w0.local, p) && Lookup(w.remote, p) == Lookup(w0.remote, p)
  }

  /** Only the local side has the file: it was deleted on the remote side if it is recorded as live, and then
      goes, other bytes than the recorded ones into a copy; else it is new and goes to the remote side. */
  ghost predicate LocalOnly(w0: World, cap: nat, w: World, p: Path)
    requires p in w0.local && w0.local[p].File?
  {
    var x := w0.local[p];
    if p in w0.base && !w0.base[p].deleted then
      Gone(w, p) && (HoldsRecorded(x, w0.base[p]) || Copied(w, p, x.content))
    else if |x.content| <= cap then Agree(w, p, x.content)
    else Stays(w0, w, p)
  }

  /** Only the remote side has the file: if it is the recorded one, it was deleted on the local side, and
      goes; else it is new and goes to the local side. */
  ghost predicate RemoteOnly(w0: World, w: World, p: Path)
    requires p in w0.remote && w0.remote[p].File?
  {
    if p in w0.base && RemoteRecorded(w0.remote[p], w0.base[p]) then Gone(w, p)
    else Agree(w, p, w0.remote[p].content)
  }

  /** Both sides have a file: the side that changed wins. If both did, or nothing is recorded, the remote
      bytes win, and other local bytes are in a copy. */
  ghost predicate BothSides(w0: World, cap: nat, w: World, p: Path)
    requires p in w0.local && w0.local[p].File? && p in w0.remote && w0.remote[p].File?
  {
    var x, y := w0.local[p], w0.remote[p];
    if p !in w0.base then Agree(w, p, y.content) && (x.content != y.content ==> Copied(w, p, x.content))
    else
      var e := w0.base[p];
      if SeenBefore(x, y, e) then
        Stays(w0, w, p) && p in w.base && w.base[p].content == e.content && !w.base[p].deleted
      else if e.deleted then Stays(w0, w, p)
      else if AsRecorded(y, e, e.remoteMtime) then
        if |x.content| <= cap then Agree(w, p, x.content) else Stays(w0, w, p)
      else
        && Agree(w, p, y.content)
        && (!AsRecorded(x, e, e.localMtime) && x.content != y.content ==> Copied(w, p, x.content))
  }

  ghost predicate ThreeWay(w0: World, cap: nat, w: World, p: Path)
    requires FilesAt(w0, p)
  {
    if p !in w0.remote then LocalOnly(w0, cap, w, p)
    else if p !in w0.local then RemoteOnly(w0, w, p)
    else BothSides(w0, cap, w, p)
  }

  /** Something below the path is new on the remote side, or still there locally. */
  predicate LivesOn(w0: World, p: Path) {
    exists q :: q in w0.remote && Under(q, p) && (q !in w0.base || (q in w0.local && !w0.base[q].deleted))
  }

  /** No deletion is to be carried over, and no mode of 0 from the remote side. A directory missing locally is
      not deleted if it was never recorded, or if something below it lives on. */
  predicate Carried(w0: World, p: Path) {
    && DirectoriesAt(w0, p)
    && (p !in w0.remote ==> (p in w0.base ==> w0.base[p].deleted))
    && (p !in w0.local ==> p !in w0.base || LivesOn(w0, p))
    && (p in w0.remote ==> w0.remote[p].mode != 0)
  }

  /** A directory that only one side has is made on the other; of two modes the changed one wins, the remote
      one if both changed or nothing is recorded. */
  ghost predicate DirectoryWay(w0: World, w: World, p: Path)
    requires Carried(w0, p)
  {
    if p !in w0.remote then DirAgree(w, p, w0.local[p])
    else if p !in w0.local || w0.local[p] == w0.remote[p] then DirAgree(w, p, w0.remote[p])
    else if p in w0.base && !w0.base[p].deleted && w0.base[p].isDir && w0.base[p].mode == w0.remote[p].mode then
      DirAgree(w, p, w0.local[p])
    else DirAgree(w, p, w0.remote[p])
  }

  /** A directory deleted on the remote side, with nothing below it. */
  predicate RemotelyDeleted(w0: World, p: Path) {
    p in w0.local && w0.local[p].Dir? && p !in w0.remote && p in w0.base && !w0.base[p].deleted
  }

  // ---- The plan keeps it ----------------------------------------------------------------------------

  /** The marks are on what is missing locally, and the plan is made from them. */
  ghost predicate PlannedFrom(w0: World, marked: Baseline, start: World, plan: map<Path, Action>) {
    && start.local == w0.local && start.remote == w0.remote && start.known == w0.known
    && w0.known == w0.local.Keys + w0.remote.Keys + w0.base.Keys && TimesKnown(w0.base)
    && SameRecords(w0.base, marked)
    && (forall p :: p in marked ==> marked[p].deleted == (w0.base[p].deleted || p !in w0.local))
    && (forall p :: p in marked && p in w0.local ==> marked[p] == w0.base[p])
    && plan == PlanOf(w0.local, w0.remote, marked)
    && (forall p :: p in plan ==> Lookup(start.base, p) == Lookup(marked, p))
    && (forall p :: p in w0.local.Keys + w0.remote.Keys && p !in plan ==>
          InStep(start, p) && LiveRecord(w0, marked, start.base, p))
  }

  /** The record of a path that agrees is live, with the bytes it had. */
  ghost predicate LiveRecord(w0: World, marked: Baseline, base: Baseline, p: Path) {
    && p in w0.local && p in base && !base[p].deleted
    && base[p].isDir == w0.local[p].Dir? && base[p].mode == w0.local[p].mode
    && base[p].content == if p in marked then marked[p].content else None
  }

  /** Nothing is swept at a directory both sides have. */
  lemma SharedIsNotSwept(local: Tree, remote: Tree, base: Baseline, q: Path)
    requires q in local && q in remote && local[q].Dir? && remote[q].Dir?
    ensures !Sweeps(ActionAt(local, remote, base, q))
  {
  }

  lemma CalmIsClear(w0: World, marked: Baseline, start: World, plan: map<Path, Action>, p: Path)
    requires plan == PlanOf(w0.local, w0.remote, marked) && Calm(w0, p)
    requires p in plan && !MakesDir(plan[p]) ==> Bare(w0, p)
    ensures Clear(plan, p)
  {
    forall q | q in plan && q != p
      ensures !(Sweeps(plan[q]) && Under(p, q)) && (p in plan && !MakesDir(plan[p]) ==> !Under(q, p))
    {
      if Under(p, q) {
        SharedIsNotSwept(w0.local, w0.remote, marked, q);
      }
    }
  }

  lemma FileActionKinds(w0: World, marked: Baseline, start: World, plan: map<Path, Action>, cap: nat, p: Path)
    requires PlannedFrom(w0, marked, start, plan) && FilesAt(w0, p) && p in plan
    ensures plan[p].path == p && !plan[p].isDir && Will(start, plan[p], cap)
  {
  }

  lemma FilesSettle(w0: World, marked: Baseline, start: World, plan: map<Path, Action>, cap: nat, p: Path)
    requires PlannedFrom(w0, marked, start, plan) && FilesAt(w0, p) && Calm(w0, p) && Bare(w0, p)
    ensures Settleable(start, plan, cap, p)
  {
    CalmIsClear(w0, marked, start, plan, p);
    if p in plan {
      FileActionKinds(w0, marked, start, plan, cap, p);
    }
  }

  /** What is planned for a path only one side has. */
  lemma LocalDecided(x: Meta, e: Option<Entry>, liveBelow: bool)
    ensures Decide(Some(x), None, e, liveBelow) == if e.Some? && !e.value.deleted then DeleteLocal else Upload
  {
  }

  lemma RemoteDecided(y: Meta, e: Option<Entry>, liveBelow: bool)
    requires y.FileMeta?
    ensures Decide(None, Some(y), e, liveBelow) == if e.Some? && e.value.deleted then DeleteRemote else Download(false)
  {
  }

  lemma LocalOnlyHolds(w0: World, marked: Baseline, start: World, plan: map<Path, Action>, cap: nat, w: World, p: Path)
    requires PlannedFrom(w0, marked, start, plan) && FilesAt(w0, p) && p !in w0.remote
    requires Settled(start, w, plan, cap, p)
    ensures LocalOnly(w0, cap, w, p)
  {
    LocalDecided(MetaOf(w0.local[p]), Lookup(marked, p), LiveBelow(p, w0.remote, marked));
  }

  lemma RemoteOnlyHolds(w0: World, marked: Baseline, start: World, plan: map<Path, Action>, cap: nat, w: World, p: Path)
    requires PlannedFrom(w0, marked, start, plan) && FilesAt(w0, p) && p !in w0.local
    requires Settled(start, w, plan, cap, p)
    ensures RemoteOnly(w0, w, p)
  {
    RemoteDecided(MetaOf(w0.remote[p]), Lookup(marked, p), LiveBelow(p, w0.remote, marked));
  }

  /** What is planned for a file both sides have. */
  lemma BothDecided(x: Node, y: Node, e: Option<Entry>, liveBelow: bool)
    requires x.File? && y.File? && (e.Some? && !e.value.isDir ==> e.value.localMtime != 0 && e.value.remoteMtime != 0)
    ensures var d := Decide(Some(MetaOf(x)), Some(MetaOf(y)), e, liveBelow);
            if e.None? then d == Download(true)
            else if SeenBefore(x, y, e.value) then d == Refresh
            else if e.value.deleted then d == Download(true)
            else if AsRecorded(y, e.value, e.value.remoteMtime) then d == Upload
            else d == Download(!AsRecorded(x, e.value, e.value.localMtime))
  {
  }

  lemma BothSidesHolds(w0: World, marked: Baseline, start: World, plan: map<Path, Action>, cap: nat, w: World, p: Path)
    requires PlannedFrom(w0, marked, start, plan) && FilesAt(w0, p) && p in w0.local && p in w0.remote
    requires Settled(start, w, plan, cap, p)
    ensures BothSides(w0, cap, w, p)
  {
    var x, y, e := w0.local[p], w0.remote[p], Lookup(w0.base, p);
    assert Lookup(marked, p) == e;
    BothDecided(x, y, e, LiveBelow(p, w0.remote, marked));
    var d := DecisionAt(w0.local, w0.remote, marked, p);
    if d == Refresh {
      assert p !in plan;
    } else {
      assert p in plan && plan[p] == ActionAt(w0.local, w0.remote, marked, p);
      CarriedFile(w0, start, plan[p], cap, w, d);
    }
  }

  /** What carrying a file over leaves. */
  lemma CarriedFile(w0: World, start: World, a: Action, cap: nat, w: World, d: Decision)
    requires start.local == w0.local && start.remote == w0.remote && Brought(start, a, w, cap) && !a.isDir
    requires FilesAt(w0, a.path) && a.path in w0.local && a.path in w0.remote
    requires a.decision == d && (d.Upload? || d.Download?)
    ensures d.Download? && a.path in start.base && start.base[a.path].deleted ==> Stays(w0, w, a.path)
    ensures d.Download? && !(a.path in start.base && start.base[a.path].deleted) ==>
              && Agree(w, a.path, w0.remote[a.path].content)
              && (d.conflict && w0.local[a.path].content != w0.remote[a.path].content ==>
                    Copied(w, a.path, w0.local[a.path].content))
    ensures d.Upload? ==> if |w0.local[a.path].content| <= cap then Agree(w, a.path, w0.local[a.path].content)
                          else Stays(w0, w, a.path)
  {
  }

  lemma ThreeWayHolds(w0: World, marked: Baseline, start: World, plan: map<Path, Action>, cap: nat, w: World, p: Path)
    requires PlannedFrom(w0, marked, start, plan) && FilesAt(w0, p) && Settled(start, w, plan, cap, p)
    ensures ThreeWay(w0, cap, w, p)
  {
    if p !in w0.remote {
      LocalOnlyHolds(w0, marked, start, plan, cap, w, p);
    } else if p !in w0.local {
      RemoteOnlyHolds(w0, marked, start, plan, cap, w, p);
    } else {
      BothSidesHolds(w0, marked, start, plan, cap, w, p);
    }
  }

  /** What is planned for a directory both sides have. */
  lemma DirectoryDecided(x: Node, y: Node, e: Option<Entry>, liveBelow: bool)
    requires x.Dir? && y.Dir?
    ensures var d := Decide(Some(MetaOf(x)), Some(MetaOf(y)), e, liveBelow);
            if x == y then d == Refresh
            else if e.Some? && !e.value.deleted && e.value.isDir && e.value.mode == y.mode then d == Upload
            else d.Download?
  {
  }

  lemma LivesOnIff(w0: World, marked: Baseline, p: Path)
    requires SameRecords(w0.base, marked)
    requires forall q :: q in marked ==> marked[q].deleted == (w0.base[q].deleted || q !in w0.local)
    ensures LivesOn(w0, p) <==> LiveBelow(p, w0.remote, marked)
  {
    forall q | q in w0.remote && Under(q, p)
      ensures (q !in w0.base || (q in w0.local && !w0.base[q].deleted)) <==> !(q in marked && marked[q].deleted)
    {
    }
  }

  /** A recorded directory that is missing locally is planned for removal on the remote side if and only if
      nothing below it lives on. */
  lemma MissingDirectoryPlanned(w0: World, marked: Baseline, start: World, plan: map<Path, Action>, p: Path)
    requires PlannedFrom(w0, marked, start, plan)
    requires p !in w0.local && p in w0.remote && w0.remote[p].Dir? && p in w0.base
    ensures p in plan && plan[p].decision == if LivesOn(w0, p) then Download(false) else DeleteRemote
  {
    LivesOnIff(w0, marked, p);
  }

  /** The plan for a directory carries it, or finds nothing to do. */
  lemma DirectoryPlanned(w0: World, marked: Baseline, start: World, plan: map<Path, Action>, p: Path)
    requires PlannedFrom(w0, marked, start, plan) && Carried(w0, p)
    ensures p !in plan <==> p in w0.local && p in w0.remote && w0.local[p] == w0.remote[p]
    ensures p in plan ==> plan[p] == ActionAt(w0.local, w0.remote, marked, p) && MakesDir(plan[p])
    ensures p in plan ==>
              (plan[p].decision.Upload? <==>
                 || p !in w0.remote
                 || (p in w0.local && p in w0.base && !w0.base[p].deleted && w0.base[p].isDir &&
                     w0.base[p].mode == w0.remote[p].mode))
  {
    if p in w0.local && p in w0.remote {
      assert Lookup(marked, p) == Lookup(w0.base, p);
      DirectoryDecided(w0.local[p], w0.remote[p], Lookup(w0.base, p), LiveBelow(p, w0.remote, marked));
    } else if p in w0.remote {
      LivesOnIff(w0, marked, p);
    }
  }

  lemma DirectoriesSettle(w0: World, marked: Baseline, start: World, plan: map<Path, Action>, cap: nat, p: Path)
    requires PlannedFrom(w0, marked, start, plan) && Calm(w0, p) && Carried(w0, p)
    ensures Settleable(start, plan, cap, p)
  {
    DirectoryPlanned(w0, marked, start, plan, p);
    CalmIsClear(w0, marked, start, plan, p);
  }

  lemma DirectoryWayHolds(w0: World, marked: Baseline, start: World, plan: map<Path, Action>, cap: nat, w: World,
                          p: Path)
    requires PlannedFrom(w0, marked, start, plan) && Carried(w0, p) && Settled(start, w, plan, cap, p)
    ensures DirectoryWay(w0, w, p)
  {
    DirectoryPlanned(w0, marked, start, plan, p);
    if p in plan {
      CarriedDirectory(w0, start, plan[p], cap, w);
    }
  }

  lemma CarriedDirectory(w0: World, start: World, a: Action, cap: nat, w: World)
    requires start.local == w0.local && start.remote == w0.remote && Brought(start, a, w, cap) && MakesDir(a)
    ensures var from := if a.decision.Upload? then w0.local else w0.remote;
            a.path in from && DirAgree(w, a.path, from[a.path])
  {
  }

  lemma DeletedSettles(w0: World, marked: Baseline, start: World, plan: map<Path, Action>, cap: nat, p: Path)
    requires PlannedFrom(w0, marked, start, plan) && Calm(w0, p) && Bare(w0, p) && RemotelyDeleted(w0, p)
    ensures Settleable(start, plan, cap, p) && p in plan && plan[p].decision == DeleteLocal
  {
    LocalDecided(MetaOf(w0.local[p]), Lookup(marked, p), LiveBelow(p, w0.remote, marked));
    CalmIsClear(w0, marked, start, plan, p);
  }

  // ---- All paths ------------------------------------------------------------------------------------

  /** The paths of a pass whose result is settled. */
  ghost predicate AllSettled(start: World, w: World, plan: map<Path, Action>, cap: nat) {
    forall p :: p in start.local.Keys + start.remote.Keys && Settleable(start, plan, cap, p) ==>
      Settled(start, w, plan, cap, p)
  }

  ghost predicate FilesReconciled(w0: World, cap: nat, w: World) {
    forall p :: FilesAt(w0, p) && Calm(w0, p) && Bare(w0, p) ==> ThreeWay(w0, cap, w, p)
  }

  ghost predicate DirectoriesReconciled(w0: World, w: World) {
    && (forall p :: Carried(w0, p) && Calm(w0, p) ==> DirectoryWay(w0, w, p))
    && (forall p :: RemotelyDeleted(w0, p) && Calm(w0, p) && Bare(w0, p) ==> Gone(w, p))
  }

  lemma Reconciled(w0: World, marked: Baseline, start: World, plan: map<Path, Action>, cap: nat, w: World)
    requires PlannedFrom(w0, marked, start, plan) && AllSettled(start, w, plan, cap)
    ensures FilesReconciled(w0, cap, w) && DirectoriesReconciled(w0, w)
  {
    forall p | FilesAt(w0, p) && Calm(w0, p) && Bare(w0, p) ensures ThreeWay(w0, cap, w, p) {
      FilesSettle(w0, marked, start, plan, cap, p);
      ThreeWayHolds(w0, marked, start, plan, cap, w, p);
    }
    forall p | Carried(w0, p) && Calm(w0, p) ensures DirectoryWay(w0, w, p) {
      DirectoriesSettle(w0, marked, start, plan, cap, p);
      DirectoryWayHolds(w0, marked, start, plan, cap, w, p);
    }
    forall p | RemotelyDeleted(w0, p) && Calm(w0, p) && Bare(w0, p) ensures Gone(w, p) {
      DeletedSettles(w0, marked, start, plan, cap, p);
      assert Settled(start, w, plan, cap, p);
    }
  }
}
