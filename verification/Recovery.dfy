/**
 One recovery pass over the local tree, the remote tree and the baseline, with no concurrent writers.
 Any step may fail and end the pass.
 */
module Recovery {
  import opened Hashing
  import opened Paths
  import opened RecoveryPlan
  import opened RecoveryFrames
  import opened RecoveryResults
  import opened RecoveryWorld
  import opened Results

  function MakesDirectory(plan: map<Path, Action>): set<Path> {
    set p | p in plan && MakesDir(plan[p])
  }

  function Deletes(plan: map<Path, Action>): set<Path> {
    set p | p in plan && (plan[p].decision.DeleteLocal? || plan[p].decision.DeleteRemote?)
  }

  function FileActions(plan: map<Path, Action>): set<Path> {
    plan.Keys - MakesDirectory(plan) - Deletes(plan)
  }

  /** Directories from the top, then deletions from the bottom, each planned path once. */
  ghost predicate Ordered(plan: map<Path, Action>, first: seq<Path>, second: seq<Path>) {
    && multiset(first) == multiset(MakesDirectory(plan)) && SortedBy(PathBefore, first)
    && multiset(second) == multiset(Deletes(plan)) && SortedBy(PathAfter, second)
  }

  /** The three lists are the directories, from the top, the deletions and the files of the plan. */
  ghost predicate Parts(plan: map<Path, Action>, first: seq<Path>, second: seq<Path>, third: seq<Path>) {
    && Once(first) && Once(second) && Once(third) && SortedBy(PathBefore, first)
    && (forall p :: p in first <==> p in MakesDirectory(plan))
    && (forall p :: p in second <==> p in Deletes(plan))
    && (forall p :: p in third <==> p in FileActions(plan))
  }

  lemma GoalBegins(g: Goal, w: World, done: set<Path>)
    requires g.start == w && done == g.paths - g.plan.Keys
    requires forall p :: p in g.paths ==> Settleable(w, g.plan, g.cap, p)
    ensures g.Reached(w, done)
  {
    forall p ensures g.At(w, done, p) {
      assert p in g.paths ==> Settleable(w, g.plan, g.cap, p);
    }
  }

  /** No phase disturbs the goal. */
  lemma GoalSpared(g: Goal, first: seq<Path>, second: seq<Path>, third: seq<Path>, done: set<Path>)
    requires Parts(g.plan, first, second, third) && done == g.paths - g.plan.Keys
    requires forall p :: p in g.paths ==> Settleable(g.start, g.plan, g.cap, p)
    ensures forall i :: 0 <= i < |first| ==> g.Spares(done + Listed(first[..i]), first[i])
    ensures forall i :: 0 <= i < |second| ==> g.Spares(done + Listed(first) + Listed(second[..i]), second[i])
    ensures forall i :: 0 <= i < |third| ==>
              g.Spares(done + Listed(first) + Listed(second) + Listed(third[..i]), third[i])
  {
    forall p | p in g.paths
      ensures Clear(g.plan, p) && (p !in done ==> p in g.plan && (p in first || !g.plan[p].isDir))
    {
      assert Settleable(g.start, g.plan, g.cap, p);
    }
    forall i | 0 <= i < |first| ensures g.Spares(done + Listed(first[..i]), first[i]) {
      assert first[i] in first;
      SparesDirectories(g, done, first, i);
    }
    forall i | 0 <= i < |second| ensures g.Spares(done + Listed(first) + Listed(second[..i]), second[i]) {
      assert second[i] in second;
      SparesFiles(g, done + Listed(first) + Listed(second[..i]), second[i]);
    }
    forall i | 0 <= i < |third| ensures g.Spares(done + Listed(first) + Listed(second) + Listed(third[..i]), third[i]) {
      assert third[i] in third;
      SparesFiles(g, done + Listed(first) + Listed(second) + Listed(third[..i]), third[i]);
    }
  }

  lemma GoalEnds(g: Goal, w: World, done: set<Path>)
    requires g.Reached(w, done) && g.paths <= done
    ensures forall p :: p in g.paths ==> Settled(g.start, w, g.plan, g.cap, p)
  {
    forall p | p in g.paths ensures Settled(g.start, w, g.plan, g.cap, p) {
      assert g.At(w, done, p);
    }
  }

  /** What a subtree that its baseline describes does not hold. */
  lemma NoCopiesWithin(w0: World, w: World, a: Action)
    requires Inv(w0, w) && a.path in w.known
    requires forall q :: q in w.local && Within(q, a.path) ==>
               MatchesStored(w.local[q], if q == a.path then a.stored else Lookup(w.base, q))
    ensures forall c :: c in w.copies && c in w.local ==> !Within(c, a.path)
  {
    forall c | c in w.copies && c in w.local ensures !Within(c, a.path) {
      assert c !in w.known && c !in w.base;
    }
  }

  lemma ThreeRuns(before: seq<Path>, first: seq<Path>, second: seq<Path>, third: seq<Path>)
    ensures before + first + second + third == before + (first + second + third)
  {
  }

  lemma OneMore(all: set<Path>, todo: set<Path>, order: seq<Path>, p: Path)
    requires p in todo && multiset(order) + multiset(todo) == multiset(all)
    ensures multiset(order + [p]) + multiset(todo - {p}) == multiset(all)
  {
    assert multiset(todo) == multiset(todo - {p}) + multiset{p};
  }

  /** Workers pick file actions up in any order. */
  method AnyOrder(paths: set<Path>) returns (order: seq<Path>)
    ensures multiset(order) == multiset(paths) && Once(order) && forall p :: p in order <==> p in paths
  {
    order := [];
    var todo := paths;
    while todo != {}
      invariant todo <= paths && multiset(order) + multiset(todo) == multiset(paths)
      decreases |todo|
    {
      var p :| p in todo;
      OneMore(paths, todo, order, p);
      order, todo := order + [p], todo - {p};
    }
    ListsOnce(order, paths);
  }

  method PhaseOrders(plan: map<Path, Action>) returns (first: seq<Path>, second: seq<Path>)
    ensures Ordered(plan, first, second) && Once(first) && Once(second)
    ensures (forall p :: p in first <==> p in MakesDirectory(plan)) && (forall p :: p in second <==> p in Deletes(plan))
  {
    PathOrder();
    PathAfterOrder();
    first := SortedPaths(MakesDirectory(plan), PathBefore);
    second := SortedPaths(Deletes(plan), PathAfter);
  }

  class Pass {
    /** Faults and file times by step, what a removal that fails halfway leaves, the conflict-copy names,
        and the largest file uploaded. */
    const faults: nat -> Fault
    const times: nat -> int
    const leaves: nat -> set<Path>
    const namer: Namer
    const maxFileBytes: nat
    var w: World
    var step: nat
    /** The paths whose actions have been taken up, in order. */
    ghost var taken: seq<Path>

    constructor (faults: nat -> Fault, times: nat -> int, leaves: nat -> set<Path>, namer: Namer, maxFileBytes: nat,
                 w: World)
      ensures this.faults == faults && this.times == times && this.leaves == leaves && this.namer == namer
      ensures this.maxFileBytes == maxFileBytes && this.w == w && taken == []
    {
      this.faults, this.times, this.leaves, this.namer, this.maxFileBytes := faults, times, leaves, namer, maxFileBytes;
      this.w, step, taken := w, 0, [];
    }

    ghost predicate Faultless() {
      forall n :: faults(n) == NoFault
    }

    /** Writes the remote bytes at the local path; a conflicting local version is moved aside first. */
    method ExecDownload(a: Action, ghost w0: World) returns (ok: bool)
      requires FreshNames(namer) && Inv(w0, w) && a.decision.Download? && a.path in w.known && a.path !in w.copies
      requires !a.decision.conflict && a.localMeta == MetaAt(w.local, a.path) &&
               a.path in w.local && w.local[a.path].File? ==>
                 Synced(w0.base, a.path, w.local[a.path].content)
      modifies this`w, this`step
      ensures Inv(w0, w) && w.done <= old(w).done + {a.path} && w.remote == old(w).remote
      ensures Frame(old(w), w, a.path, a.decision.conflict)
      ensures faults(old(step)) == NoFault && CanDownload(old(w), a) ==>
                ok && Agree(w, a.path, old(w).remote[a.path].content)
      ensures ok && faults(old(step)) == NoFault && !a.isDir && Will(old(w), a, maxFileBytes) &&
              !Skips(old(w), a, maxFileBytes) ==>
                (a.mode != 0 ==> InStep(w, a.path)) && Taken(old(w), a, w)
      ensures faults(old(step)) == NoFault && !a.isDir && Sourced(a) && Free(old(w), a) ==> ok
      ensures Skips(old(w), a, maxFileBytes) ==> ok && w == old(w)
    {
      var p := a.path;
      var fault, time := faults(step), times(step);
      step := step + 1;
      if p in w.base && w.base[p].deleted {
        return true;
      }
      ok := Fetch(a, fault, time, w0);
    }

    /** The download of a path that is not marked deleted. */
    method Fetch(a: Action, fault: Fault, time: int, ghost w0: World) returns (ok: bool)
      requires FreshNames(namer) && Inv(w0, w) && a.decision.Download? && a.path in w.known && a.path !in w.copies
      requires !a.decision.conflict && a.localMeta == MetaAt(w.local, a.path) &&
               a.path in w.local && w.local[a.path].File? ==>
                 Synced(w0.base, a.path, w.local[a.path].content)
      requires !(a.path in w.base && w.base[a.path].deleted)
      modifies this`w
      ensures Inv(w0, w) && w.done <= old(w).done + {a.path} && w.remote == old(w).remote
      ensures Frame(old(w), w, a.path, a.decision.conflict)
      ensures fault == NoFault && CanDownload(old(w), a) ==> ok && Agree(w, a.path, old(w).remote[a.path].content)
      ensures ok && fault == NoFault && !a.isDir && Will(old(w), a, maxFileBytes) ==>
                (a.mode != 0 ==> InStep(w, a.path)) && Taken(old(w), a, w)
      ensures fault == NoFault && !a.isDir && Sourced(a) && Free(old(w), a) ==> ok
    {
      var p := a.path;
      if fault == Early {
        return false;
      }
      if p !in w.remote || !w.remote[p].File? || !StillCurrent(w, a) {
        return true;
      }
      ok := Place(a, fault, time, w0);
    }

    /** Puts the remote file at the path as it was observed. */
    method Place(a: Action, fault: Fault, time: int, ghost w0: World) returns (ok: bool)
      requires FreshNames(namer) && Inv(w0, w) && a.decision.Download? && a.path in w.known && a.path !in w.copies
      requires !a.decision.conflict && a.path in w.local && w.local[a.path].File? ==>
                 Synced(w0.base, a.path, w.local[a.path].content)
      requires !(a.path in w.base && w.base[a.path].deleted) && fault != Early
      requires a.path in w.remote && w.remote[a.path].File? && StillCurrent(w, a)
      modifies this`w
      ensures Inv(w0, w) && w.done <= old(w).done + {a.path} && w.remote == old(w).remote
      ensures Frame(old(w), w, a.path, a.decision.conflict)
      ensures ok ==> Taken(old(w), a, w)
      ensures ok && RemoteCurrent(old(w), a) && a.mode == old(w).remote[a.path].mode ==>
                (a.mode != 0 ==> InStep(w, a.path))
      ensures fault == NoFault && CanDownload(old(w), a) ==> ok
    {
      var p := a.path;
      if Has(w.local, p, w.remote[p].content) && w.local[p].mode == FileMode(a) {
        Adopt(a, w.local[p].mtime, w0);
        return true;
      }
      if Blocked(w.local, p) {
        return false;
      }
      var target := namer(w, p);
      StageKeeps(w0, w, a, target);
      if fault == Late || (p in w.local && w.local[p].Dir? && !a.decision.conflict) {
        ClearedFrame(w, a, target);
        w := Cleared(w, a, target);
        return false;
      }
      Replace(a, target, time, w0);
      return true;
    }

    /** The local file is the remote one already. */
    method Adopt(a: Action, mtime: int, ghost w0: World)
      requires Inv(w0, w) && a.path in w.known && StillCurrent(w, a) && a.path in w.remote && w.remote[a.path].File?
      requires a.path in w.local && w.local[a.path] == File(w.remote[a.path].content, FileMode(a), mtime)
      modifies this`w
      ensures Inv(w0, w) && w.done == old(w).done + {a.path} && w.remote == old(w).remote
      ensures Frame(old(w), w, a.path, a.decision.Download? && a.decision.conflict)
      ensures Agree(w, a.path, old(w).remote[a.path].content)
      ensures RemoteCurrent(old(w), a) && a.mode == old(w).remote[a.path].mode ==> (InStep(w, a.path) <==> a.mode != 0)
    {
      AdoptKeeps(w0, w, a);
      AdoptAgrees(w, a, mtime);
      AdoptedFrame(w, a, mtime);
      FrameWidens(w, Adopted(w, a, mtime), a.path, a.decision.Download? && a.decision.conflict);
      if RemoteCurrent(w, a) && a.mode == w.remote[a.path].mode {
        AdoptedInStep(w, a, mtime);
      }
      w := Adopted(w, a, mtime);
    }

    /** Clears the destination and writes the remote bytes there. */
    method Replace(a: Action, target: Path, time: int, ghost w0: World)
      requires Inv(w0, w) && a.decision.Download? && a.path in w.known && FreshName(w, target) && CanDownload(w, a)
      requires a.path !in w.copies
      requires !a.decision.conflict && a.path in w.local && w.local[a.path].File? ==>
                 Synced(w0.base, a.path, w.local[a.path].content)
      modifies this`w
      ensures Inv(w0, w) && w.done == old(w).done + {a.path} && w.remote == old(w).remote
      ensures Frame(old(w), w, a.path, a.decision.conflict) && Taken(old(w), a, w)
      ensures RemoteCurrent(old(w), a) && a.mode == old(w).remote[a.path].mode ==> (InStep(w, a.path) <==> a.mode != 0)
    {
      DownloadKeeps(w0, w, a, target, time);
      DownloadFrame(w, a, target, time);
      if RemoteCurrent(w, a) && a.mode == w.remote[a.path].mode {
        DownloadedInStep(w, a, target, time);
      }
      w := Adopted(PutLocal(Cleared(w, a, target), a.path, File(w.remote[a.path].content, FileMode(a), time)), a, time);
    }

    /** Publishes the local bytes over the observed remote version. */
    method ExecUpload(a: Action, ghost w0: World) returns (ok: bool)
      requires Inv(w0, w) && a.decision.Upload? && a.path in w.known && a.path !in w.done
      requires a.remoteMeta == MetaAt(w.remote, a.path) && a.path in w.remote && w.remote[a.path].File? ==>
                 Synced(w0.base, a.path, w.remote[a.path].content)
      modifies this`w, this`step
      ensures Inv(w0, w) && w.done <= old(w).done + {a.path} && w.local == old(w).local && w.copies == old(w).copies
      ensures Frame(old(w), w, a.path, false)
      ensures faults(old(step)) == NoFault && CanUpload(old(w), a, maxFileBytes) ==>
                ok && Agree(w, a.path, old(w).local[a.path].content)
      ensures ok && faults(old(step)) == NoFault && !a.isDir && Will(old(w), a, maxFileBytes) &&
              !Skips(old(w), a, maxFileBytes) ==>
                (a.mode != 0 ==> InStep(w, a.path)) && Agree(w, a.path, old(w).local[a.path].content)
      ensures Skips(old(w), a, maxFileBytes) ==> ok && w == old(w)
      ensures faults(old(step)) == NoFault && !a.isDir && Sourced(a) && Free(old(w), a) ==> ok
    {
      var p := a.path;
      var fault, time := faults(step), times(step);
      step := step + 1;
      if p !in w.local || !w.local[p].File? || |w.local[p].content| > maxFileBytes || !StillCurrent(w, a) {
        return true;
      }
      if fault == Early {
        return false;
      }
      if !RemoteCurrent(w, a) {
        return true;
      }
      if Blocked(w.remote, p) || (p in w.remote && w.remote[p].Dir?) {
        return false;
      }
      ok := Publish(a, fault == Late, time, w0);
    }

    method Publish(a: Action, late: bool, time: int, ghost w0: World) returns (ok: bool)
      requires Inv(w0, w) && a.path in w.known && a.path !in w.done && StillCurrent(w, a)
      requires a.path in w.local && w.local[a.path].File?
      requires a.path in w.remote && w.remote[a.path].File? ==> Synced(w0.base, a.path, w.remote[a.path].content)
      requires !Blocked(w.remote, a.path) && !(a.path in w.remote && w.remote[a.path].Dir?)
      modifies this`w
      ensures Inv(w0, w) && w.done <= old(w).done + {a.path} && w.local == old(w).local && w.copies == old(w).copies
      ensures Frame(old(w), w, a.path, false) && ok == !late
      ensures ok ==> Agree(w, a.path, old(w).local[a.path].content)
      ensures ok && a.mode == old(w).local[a.path].mode && a.mode != 0 ==> InStep(w, a.path)
    {
      var p := a.path;
      var entry := FileEntry(w.local[p].content, FileMode(a), w.local[p].mtime, time);
      UploadKeeps(w0, w, a, time);
      PublishedFrame(w, a, time, entry);
      if late {
        w := Published(w, a, time);
        return false;
      }
      if a.mode == w.local[p].mode {
        PublishedInStep(w, a, time);
      }
      w := UpdateState(Published(w, a, time), a, entry);
      return true;
    }

    method ExecMkdirLocal(a: Action, ghost w0: World) returns (ok: bool)
      requires Inv(w0, w) && a.path in w.known
      modifies this`w, this`step
      ensures Inv(w0, w) && w.done == old(w).done && w.remote == old(w).remote && Frame(old(w), w, a.path, false)
      ensures faults(old(step)) == NoFault && CanMkdir(old(w).local, a.path) ==> ok
      ensures ok ==> MadeDir(w.local, a)
      ensures ok && StillCurrent(old(w), a) ==> RecordsDir(w.base, a.path, a.mode)
    {
      var fault := faults(step);
      step := step + 1;
      if fault == Early || Blocked(w.local, a.path) || (a.path in w.local && w.local[a.path].File?) {
        return false;
      }
      MkdirLocalKeeps(w0, w, a);
      MkdirLocalFrame(w, a);
      MadeLocalAt(w, a);
      w := if fault == Late then WithLocalDir(w, a) else MadeLocal(w, a);
      return fault != Late;
    }

    /** Creates the directory with its mode, or changes the mode of what was observed there, even if that
        is a file; a directory is recorded either way. */
    method ExecMkdirRemote(a: Action, ghost w0: World) returns (ok: bool)
      requires Inv(w0, w) && a.path in w.known && a.path !in w.done
      modifies this`w, this`step
      ensures Inv(w0, w) && w.done <= old(w).done + {a.path} && w.local == old(w).local
      ensures Frame(old(w), w, a.path, false)
      ensures faults(old(step)) == NoFault && !Blocked(old(w).remote, a.path) ==> ok
      ensures ok && RemoteCurrent(old(w), a) ==> Lookup(w.remote, a.path) == Some(MadeNode(old(w).remote, a))
      ensures ok && RemoteCurrent(old(w), a) && StillCurrent(old(w), a) ==> RecordsDir(w.base, a.path, a.mode)
    {
      var p := a.path;
      var fault := faults(step);
      step := step + 1;
      if fault == Early {
        return false;
      }
      if !RemoteCurrent(w, a) {
        return true;
      }
      if Blocked(w.remote, p) {
        return false;
      }
      MadeRemoteKeeps(w0, w, a);
      MadeRemoteFrame(w, a);
      MadeRemoteAt(w, a);
      w := MadeRemote(w, a);
      return true;
    }

    /** Walks the local subtree for anything its baseline does not describe. */
    method SubtreeChanged(p: Path, stored: Option<Entry>) returns (changed: bool)
      ensures changed <==> exists q :: q in w.local && Within(q, p) &&
                                       !MatchesStored(w.local[q], if q == p then stored else Lookup(w.base, q))
    {
      var todo := w.local.Keys;
      while todo != {}
        invariant todo <= w.local.Keys
        invariant forall q :: q in w.local && Within(q, p) && q !in todo ==>
                    MatchesStored(w.local[q], if q == p then stored else Lookup(w.base, q))
        decreases |todo|
      {
        var q :| q in todo;
        if Within(q, p) && !MatchesStored(w.local[q], if q == p then stored else Lookup(w.base, q)) {
          return true;
        }
        todo := todo - {q};
      }
      return false;
    }

    /** Completes an inbound deletion; anything the baseline does not describe is moved aside first. */
    method ExecDeleteLocal(a: Action, ghost w0: World) returns (ok: bool)
      requires FreshNames(namer) && Inv(w0, w) && a.path in w.known && a.path !in w.copies
      requires a.stored.Some? && !a.stored.value.isDir && a.stored.value.content.Some? ==>
                 Synced(w0.base, a.path, a.stored.value.content.value)
      modifies this`w, this`step
      ensures Inv(w0, w) && w.done == old(w).done && w.remote == old(w).remote && Frame(old(w), w, a.path, true)
      ensures faults(old(step)) == NoFault ==> ok
      ensures faults(old(step)) == NoFault && StillCurrent(old(w), a) && a.path !in old(w).remote ==>
                a.path !in w.base && a.path !in w.local && Rescued(old(w), a, w) && Swept(w, a.path)
    {
      var p := a.path;
      var fault := faults(step);
      step := step + 1;
      if fault == Early {
        return false;
      }
      if p in w.remote || (p in w.base) != a.stored.Some? ||
         (p in w.base && w.base[p].version != a.stored.value.version) {
        return true;
      }
      var changed := SubtreeChanged(p, a.stored);
      Sweep(a, changed, fault == Late, leaves(step), w0);
      return fault != Late;
    }

    /** Moves the subtree aside or removes it, and then forgets its records; a late failure may leave part
        of a removed subtree, and leaves the records. */
    method Sweep(a: Action, changed: bool, late: bool, left: set<Path>, ghost w0: World)
      requires FreshNames(namer) && Inv(w0, w) && a.path in w.known && a.path !in w.copies
      requires a.stored.Some? && !a.stored.value.isDir && a.stored.value.content.Some? ==>
                 Synced(w0.base, a.path, a.stored.value.content.value)
      requires !changed ==> forall q :: q in w.local && Within(q, a.path) ==>
                 MatchesStored(w.local[q], if q == a.path then a.stored else Lookup(w.base, q))
      modifies this`w
      ensures Inv(w0, w) && w.done == old(w).done && w.remote == old(w).remote && Frame(old(w), w, a.path, true)
      ensures !late ==> Rescued(old(w), a, w) && Swept(w, a.path)
    {
      var p := a.path;
      var target, kept := namer(w, p), if late then left else {};
      var cleared := if changed then MoveAside(w, p, target) else RemoveLocalTree(w, p, kept);
      if changed {
        MoveAsideKeeps(w0, w, p, target);
        MoveAsideFrame(w, p, target);
        AsideSweeps(w, a, target);
      } else {
        MatchedTreeKeeps(w0, w, a, kept);
        NoCopiesWithin(w0, w, a);
        RemoveLocalTreeFrame(w, p, kept);
        RemovalSweeps(w, a);
      }
      ForgetTreeKeeps(w0, cleared, p);
      ForgottenFrame(w, cleared, p);
      w := if late then cleared else ForgetTree(cleared, p);
    }

    /** Propagates a local deletion, unless the remote version is newer than the one deleted: then it is
        taken back and downloaded. */
    method ExecDeleteRemote(a: Action, ghost w0: World) returns (ok: bool)
      requires FreshNames(namer) && Inv(w0, w) && a.path in w.known && a.path !in w.copies && a.path !in w.done
      requires a.stored.Some? && !a.stored.value.isDir && a.stored.value.content.Some? ==>
                 Synced(w0.base, a.path, a.stored.value.content.value)
      modifies this`w, this`step
      ensures Inv(w0, w) && w.done <= old(w).done + {a.path} && Frame(old(w), w, a.path, false)
      ensures faults(old(step)) == NoFault && CanDeleteRemote(old(w), a) ==>
                ok && a.path !in w.remote && w.local == old(w).local
      ensures ok && Faultless() && a.decision.DeleteRemote? && Will(old(w), a, maxFileBytes) ==>
                Brought(old(w), a, w, maxFileBytes)
      ensures Faultless() && a.decision.DeleteRemote? && Formed(a) && StillCurrent(old(w), a) && Free(old(w), a) ==> ok
      ensures !RemoteMatchesStored(old(w).remote, a.path, a.stored) ==> w.remote == old(w).remote
      ensures a.path in old(w).remote && old(w).remote[a.path].Dir? &&
              (exists q :: q in old(w).remote && Under(q, a.path)) ==>
                w.remote == old(w).remote
    {
      var p := a.path;
      var fault := faults(step);
      step := step + 1;
      if fault == Early {
        return false;
      }
      if !RemoteCurrent(w, a) {
        return true;
      }
      if !RemoteMatchesStored(w.remote, p, a.stored) {
        ok := TakeBack(p, w0);
        return;
      }
      if p in w.remote && w.remote[p].Dir? && HasChildren(w.remote, p) {
        return false;
      }
      RemoveMatched(a, fault == NoFault, w0);
      return fault == NoFault;
    }

    /** Removes the remote version that was deleted, and its mark unless the step fails. */
    method RemoveMatched(a: Action, acknowledged: bool, ghost w0: World)
      requires Inv(w0, w) && a.path !in w.done
      requires a.path in w.remote && w.remote[a.path].File? ==> Synced(w0.base, a.path, w.remote[a.path].content)
      requires !(a.path in w.remote && w.remote[a.path].Dir? && HasChildren(w.remote, a.path))
      modifies this`w
      ensures Inv(w0, w) && w.done == old(w).done && Frame(old(w), w, a.path, false)
      ensures a.path !in w.remote && w.local == old(w).local
      ensures acknowledged && StillCurrent(old(w), a) && a.path in old(w).base && old(w).base[a.path].deleted ==>
                a.path !in w.base
    {
      var p := a.path;
      DeletedKeeps(w0, w, p);
      RemoveRemoteFrame(w, p);
      var marked := p in w.base && w.base[p].deleted && a.stored.Some? && w.base[p].version == a.stored.value.version;
      var removed := RemoveRemote(w, p);
      w := if acknowledged && marked then removed.(base := w.base - {p}) else removed;
    }

    /** Drops the deletion mark and downloads the remote version. */
    method TakeBack(p: Path, ghost w0: World) returns (ok: bool)
      requires FreshNames(namer) && Inv(w0, w) && p in w.known && p !in w.copies && p in w.remote
      modifies this`w, this`step
      ensures Inv(w0, w) && w.done <= old(w).done + {p} && w.remote == old(w).remote && Frame(old(w), w, p, false)
      ensures ok && faults(old(step)) == NoFault && p !in old(w).local && old(w).remote[p].File? ==>
                Agree(w, p, old(w).remote[p].content)
      ensures faults(old(step)) == NoFault && p !in old(w).local ==> Blocked(old(w).local, p) || ok
    {
      ghost var before := w;
      if p in w.base && w.base[p].deleted {
        RevivedKeeps(w0, w, p);
        RevivedFrame(w, p);
        w := Revived(w, p);
      }
      ghost var revived := w;
      assert Frame(before, revived, p, false);
      ok := FetchAgain(p, w0);
      FrameTrans(before, revived, w, p, false);
    }

    method FetchAgain(p: Path, ghost w0: World) returns (ok: bool)
      requires FreshNames(namer) && Inv(w0, w) && p in w.known && p !in w.copies && p in w.remote
      requires !(p in w.base && w.base[p].deleted)
      modifies this`w, this`step
      ensures Inv(w0, w) && w.done <= old(w).done + {p} && w.remote == old(w).remote && Frame(old(w), w, p, false)
      ensures ok && faults(old(step)) == NoFault && p !in old(w).local && old(w).remote[p].File? ==>
                Agree(w, p, old(w).remote[p].content)
      ensures faults(old(step)) == NoFault && p !in old(w).local ==> Blocked(old(w).local, p) || ok
    {
      var remote := w.remote[p];
      var a := Action(p, Download(false), remote.Dir?, remote.mode, Lookup(w.base, p), None, Some(MetaOf(remote)));
      if !StillCurrent(w, a) {
        return true;
      }
      if a.isDir {
        ok := ExecMkdirLocal(a, w0);
      } else {
        assert !Skips(w, a, maxFileBytes) && Will(w, a, maxFileBytes);
        ok := ExecDownload(a, w0);
      }
    }

    /** Carries the local node to the remote side. */
    method ExecToRemote(a: Action, ghost w0: World) returns (ok: bool)
      requires Inv(w0, w) && a.decision.Upload? && a.path in w.known && a.path !in w.done && StillCurrent(w, a)
      requires a.remoteMeta == MetaAt(w.remote, a.path) && a.path in w.remote && w.remote[a.path].File? ==>
                 Synced(w0.base, a.path, w.remote[a.path].content)
      modifies this`w, this`step
      ensures Inv(w0, w) && w.done <= old(w).done + {a.path} && Frame(old(w), w, a.path, false)
      ensures faults(old(step)) == NoFault && Can(old(w), a, maxFileBytes) ==>
                ok && Achieved(old(w), a, w, maxFileBytes)
      ensures ok && faults(old(step)) == NoFault && Will(old(w), a, maxFileBytes) ==>
                Brought(old(w), a, w, maxFileBytes)
      ensures faults(old(step)) == NoFault && Sourced(a) && Free(old(w), a) ==> ok
    {
      if a.isDir {
        ok := ExecMkdirRemote(a, w0);
        if ok && Will(old(w), a, maxFileBytes) {
          DirectoriesInStep(w, a.path);
        }
      } else {
        ok := ExecUpload(a, w0);
      }
    }

    /** Carries the remote node to the local side. */
    method ExecToLocal(a: Action, ghost w0: World) returns (ok: bool)
      requires FreshNames(namer) && Inv(w0, w) && a.decision.Download? && a.path in w.known && a.path !in w.copies
      requires !a.decision.conflict && a.localMeta == MetaAt(w.local, a.path) &&
               a.path in w.local && w.local[a.path].File? ==>
                 Synced(w0.base, a.path, w.local[a.path].content)
      modifies this`w, this`step
      ensures Inv(w0, w) && w.done <= old(w).done + {a.path} && Frame(old(w), w, a.path, Sweeps(a))
      ensures faults(old(step)) == NoFault && Can(old(w), a, maxFileBytes) ==>
                ok && Achieved(old(w), a, w, maxFileBytes)
      ensures ok && faults(old(step)) == NoFault && Will(old(w), a, maxFileBytes) ==>
                Brought(old(w), a, w, maxFileBytes)
      ensures faults(old(step)) == NoFault && Sourced(a) && StillCurrent(old(w), a) && Free(old(w), a) ==> ok
    {
      if a.isDir {
        ok := ExecMkdirLocal(a, w0);
        if ok && Will(old(w), a, maxFileBytes) {
          DirectoriesInStep(w, a.path);
        }
      } else {
        ok := ExecDownload(a, w0);
      }
    }

    /** Runs the step of a current action. */
    method Dispatch(a: Action, ghost w0: World) returns (ok: bool)
      requires FreshNames(namer) && Inv(w0, w) && StillCurrent(w, a) && a.path in w.known && a.path !in w.copies
      requires a.path !in w.done
      requires SafeAt(w0, w, a)
      modifies this`w, this`step
      ensures Inv(w0, w) && w.done <= old(w).done + {a.path} && Frame(old(w), w, a.path, Sweeps(a))
      ensures faults(old(step)) == NoFault && Can(old(w), a, maxFileBytes) ==>
                ok && Achieved(old(w), a, w, maxFileBytes)
      ensures ok && Faultless() && Will(old(w), a, maxFileBytes) ==> Brought(old(w), a, w, maxFileBytes)
      ensures Faultless() && Formed(a) && Free(old(w), a) ==> ok
    {
      match a.decision
      case Nothing => ok := true;
      case Refresh => ok := true;
      case Upload => ok := ExecToRemote(a, w0);
      case Download(_) => ok := ExecToLocal(a, w0);
      case DeleteLocal => ok := ExecDeleteLocal(a, w0);
      case DeleteRemote => ok := ExecDeleteRemote(a, w0);
    }

    method ExecuteAction(a: Action, ghost w0: World, ghost base: Baseline) returns (ok: bool)
      requires FreshNames(namer) && Ready(w0) && Inv(w0, w) && Planned(w0, base, a) && a.path !in w.done
      modifies this
      ensures Inv(w0, w) && w.done <= old(w).done + {a.path} && Frame(old(w), w, a.path, Sweeps(a))
      ensures faults(old(step)) == NoFault && Can(old(w), a, maxFileBytes) ==>
                ok && Achieved(old(w), a, w, maxFileBytes)
      ensures ok && Faultless() && Will(old(w), a, maxFileBytes) ==> Brought(old(w), a, w, maxFileBytes)
      ensures Faultless() && Formed(a) && Free(old(w), a) ==> ok
      ensures taken == old(taken) + [a.path]
    {
      taken := taken + [a.path];
      PlannedIsSafe(w0, w, base, a);
      if !StillCurrent(w, a) {
        return true;
      }
      ok := Dispatch(a, w0);
    }

    /** Takes up one planned action, and with it one more path of the goal. */
    method TakeUp(plan: map<Path, Action>, q: Path, ghost w0: World, ghost base: Baseline, ghost g: Goal,
                  ghost done: set<Path>, ghost good: bool)
      returns (ok: bool)
      requires g.plan == plan
      requires FreshNames(namer) && Ready(w0) && Inv(w0, w) && AllPlanned(w0, base, g.plan) && q in g.plan
      requires q !in w.done
      requires g.cap == maxFileBytes && q !in done && g.Spares(done, q)
      requires good && Faultless() ==> g.Reached(w, done)
      modifies this
      ensures Inv(w0, w) && w.done <= old(w).done + {q} && taken == old(taken) + [q] && Tidy(old(w), w)
      ensures ok && good && Faultless() ==> g.Reached(w, done + {q})
      ensures Faultless() && AllFree(w0, g.plan) ==> ok
    {
      ghost var before := w;
      PlannedIsFormed(w0, base, plan[q]);
      if AllFree(w0, g.plan) {
        StaysFree(w0, w, plan[q]);
      }
      ok := ExecuteAction(plan[q], w0, base);
      if ok && good && Faultless() {
        assert g.At(before, done, q);
        if q in g.paths {
          WillStays(g.start, before, g.plan[q], g.cap);
          BroughtFrom(g.start, before, g.plan[q], w, g.cap);
        }
        GoalStep(g, before, w, done, q);
      }
    }

    /** Runs planned actions in a given order. In series the first failure ends the run; workers start no
        more actions once one has failed, but those that were started still finish. */
    method RunActions(plan: map<Path, Action>, order: seq<Path>, inSeries: bool, ghost w0: World, ghost base: Baseline,
                      ghost g: Goal, ghost done: set<Path>)
      returns (ok: bool)
      requires g.plan == plan
      requires FreshNames(namer) && Ready(w0) && Inv(w0, w) && AllPlanned(w0, base, g.plan) && g.cap == maxFileBytes
      requires Once(order) && forall p :: p in order ==> p in g.plan && p !in w.done && p !in done
      requires forall i :: 0 <= i < |order| ==> g.Spares(done + Listed(order[..i]), order[i])
      requires Faultless() ==> g.Reached(w, done)
      modifies this
      ensures Inv(w0, w) && w.done <= old(w).done + Listed(order) && Tidy(old(w), w)
      ensures ok ==> taken == old(taken) + order
      ensures ok && Faultless() ==> g.Reached(w, done + Listed(order))
      ensures Faultless() && AllFree(w0, g.plan) ==> ok
    {
      ok := true;
      TakenAll(taken, order);
      assert done + {} == done;
      for i := 0 to |order|
        invariant Inv(w0, w) && w.done <= old(w).done + Listed(order[..i]) && Tidy(old(w), w)
        invariant taken == old(taken) + order[..i]
        invariant ok && Faultless() ==> g.Reached(w, done + Listed(order[..i]))
        invariant Faultless() && AllFree(w0, g.plan) ==> ok
      {
        ListedNext(order, i);
        TakenNext(old(taken), order, i);
        ghost var before := w;
        ok := RunNext(plan, order, i, w0, base, g, done, ok);
        TidyTrans(old(w), before, w);
        if !ok {
          if inSeries {
            return;
          }
          if * {
            return;
          }
        }
      }
    }

    method RunNext(plan: map<Path, Action>, order: seq<Path>, i: nat, ghost w0: World, ghost base: Baseline,
                   ghost g: Goal, ghost done: set<Path>, good: bool)
      returns (ok: bool)
      requires g.plan == plan
      requires FreshNames(namer) && Ready(w0) && Inv(w0, w) && AllPlanned(w0, base, g.plan) && g.cap == maxFileBytes
      requires Once(order) && i < |order| && order[i] in g.plan && order[i] !in w.done && order[i] !in done
      requires g.Spares(done + Listed(order[..i]), order[i])
      requires good && Faultless() ==> g.Reached(w, done + Listed(order[..i]))
      modifies this
      ensures Inv(w0, w) && w.done <= old(w).done + {order[i]} && taken == old(taken) + [order[i]] && Tidy(old(w), w)
      ensures ok ==> good
      ensures good && Faultless() && AllFree(w0, g.plan) ==> ok
      ensures ok && Faultless() ==> g.Reached(w, done + Listed(order[..i + 1]))
    {
      assert order[i] !in order[..i];
      ListedNext(order, i);
      assert (done + Listed(order[..i])) + {order[i]} == done + Listed(order[..i + 1]);
      ok := TakeUp(plan, order[i], w0, base, g, done + Listed(order[..i]), good);
      ok := ok && good;
    }

    /** Directories first, then deletions deepest first, then files in any order. */
    method ExecutePlan(plan: map<Path, Action>, ghost w0: World, ghost base: Baseline, ghost g: Goal)
      returns (ok: bool, ghost first: seq<Path>, ghost second: seq<Path>, ghost third: seq<Path>)
      requires FreshNames(namer) && Ready(w0) && Inv(w0, w) && w.done == {} && AllPlanned(w0, base, plan)
      requires g.plan == plan && g.start == w && g.cap == maxFileBytes
      requires forall p :: p in g.paths ==> Settleable(w, g.plan, g.cap, p)
      modifies this
      ensures Inv(w0, w) && Tidy(old(w), w)
      ensures Ordered(g.plan, first, second)
      ensures ok ==> multiset(third) == multiset(FileActions(g.plan)) && taken == old(taken) + (first + second + third)
      ensures ok && Faultless() ==> forall p :: p in g.paths ==> Settled(g.start, w, g.plan, g.cap, p)
      ensures Faultless() && AllFree(w0, g.plan) ==> ok
    {
      var dirs, deletes := PhaseOrders(plan);
      var files := AnyOrder(FileActions(plan));
      first, second, third := dirs, deletes, files;
      ok := RunPhases(plan, dirs, deletes, files, w0, base, g);
    }

    method RunPhases(plan: map<Path, Action>, first: seq<Path>, second: seq<Path>, third: seq<Path>, ghost w0: World,
                     ghost base: Baseline, ghost g: Goal)
      returns (ok: bool)
      requires FreshNames(namer) && Ready(w0) && Inv(w0, w) && w.done == {} && AllPlanned(w0, base, plan)
      requires g.plan == plan && g.start == w && g.cap == maxFileBytes
      requires forall p :: p in g.paths ==> Settleable(w, g.plan, g.cap, p)
      requires Parts(g.plan, first, second, third)
      modifies this
      ensures Inv(w0, w) && Tidy(old(w), w)
      ensures ok ==> taken == old(taken) + (first + second + third)
      ensures ok && Faultless() ==> forall p :: p in g.paths ==> Settled(g.start, w, g.plan, g.cap, p)
      ensures Faultless() && AllFree(w0, g.plan) ==> ok
    {
      ghost var done0 := g.paths - g.plan.Keys;
      GoalBegins(g, w, done0);
      GoalSpared(g, first, second, third, done0);
      ok := RunActions(plan, first, true, w0, base, g, done0);
      if !ok {
        return;
      }
      ghost var done1, once := done0 + Listed(first), w;
      ok := RunActions(plan, second, true, w0, base, g, done1);
      TidyTrans(old(w), once, w);
      if !ok {
        return;
      }
      ghost var done2, twice := done1 + Listed(second), w;
      ok := RunActions(plan, third, false, w0, base, g, done2);
      TidyTrans(old(w), twice, w);
      ThreeRuns(old(taken), first, second, third);
      if ok && Faultless() {
        GoalEnds(g, w, done2 + Listed(third));
      }
    }

    /** Marks what is missing, plans every path, and refreshes what agrees. */
    method PlanPass() returns (plan: map<Path, Action>, ghost marked: Baseline)
      requires Ready(w)
      modifies this`w
      ensures PlannedFrom(old(w), marked, w, plan) && Tidy(old(w), w)
      ensures Inv(old(w), w) && w.done == {} && AllPlanned(old(w), marked, plan)
      ensures forall p :: p in plan ==> StillCurrent(w, plan[p]) && RemoteCurrent(w, plan[p])
    {
      ghost var w0 := w;
      var baseline, next := DetectOfflineDeletes(w.local, w.base, w.next);
      ghost var between := next;
      marked := baseline;
      var base;
      plan, base, next := BuildPlan(w.local, w.remote, baseline, next);
      PlanningKeeps(w0, baseline, base, next);
      PlanningSettles(w0, baseline, base, next);
      PlanningStarts(w0, baseline, base, next);
      PlanningStamps(w0, baseline, between, base, next);
      w := w.(base := base, next := next);
    }

    /** A whole pass, which may end at any failure, loses no bytes that were not synchronised, keeps both
        sides trees and gives every changed record a new version. If no step fails, every path that nothing
        else disturbs has its three-way result. Without faults no step fails if no file lies above a
        planned path, the sides agree about what is a directory and no remote directory is to be deleted. */
    method WarmStart() returns (ok: bool, ghost marked: Baseline, ghost plan: map<Path, Action>, ghost start: World)
      requires FreshNames(namer) && Ready(w)
      modifies this
      ensures NothingLost(old(w), w) && Tidy(old(w), w)
      ensures marked.Keys == old(w).base.Keys && plan == PlanOf(old(w).local, old(w).remote, marked)
      ensures forall p :: p in marked ==> marked[p].deleted == (old(w).base[p].deleted || p !in old(w).local)
      ensures start.local == old(w).local && start.remote == old(w).remote
      ensures forall p :: p in plan ==> StillCurrent(start, plan[p]) && RemoteCurrent(start, plan[p])
      ensures forall p :: p in old(w).local.Keys + old(w).remote.Keys && p !in plan ==> InStep(start, p)
      ensures ok && Faultless() ==> AllSettled(start, w, plan, maxFileBytes)
      ensures ok && Faultless() ==> FilesReconciled(old(w), maxFileBytes, w) && DirectoriesReconciled(old(w), w)
      ensures Faultless() && AllFree(start, plan) ==> ok
    {
      ghost var w0 := w;
      var steps;
      steps, marked := PlanPass();
      plan, start := steps, w;
      ghost var paths := set p | p in w.local.Keys + w.remote.Keys && Settleable(start, steps, maxFileBytes, p);
      ghost var g := Goal(start, steps, maxFileBytes, paths);
      ghost var first, second, third;
      ok, first, second, third := ExecutePlan(steps, w0, marked, g);
      TidyTrans(w0, start, w);
      if ok && Faultless() {
        Reconciled(w0, marked, start, plan, maxFileBytes, w);
      }
    }
  }

  /** An entry after the search: marked with a new version if its file is missing, else untouched. */
  ghost predicate MarkedFrom(e: Entry, missing: bool, first: nat, next: nat, e': Entry) {
    if missing && !e.deleted then e' == e.(deleted := true, version := e'.version) && first <= e'.version < next
    else e' == e
  }

  /** Marks the entries whose files disappeared while nothing watched. */
  method DetectOfflineDeletes(local: Tree, base0: Baseline, next0: nat) returns (base: Baseline, next: nat)
    ensures base.Keys == base0.Keys && next0 <= next
    ensures forall p :: p in base ==> MarkedFrom(base0[p], p !in local, next0, next, base[p])
    ensures SameRecords(base0, base)
  {
    base, next := base0, next0;
    var todo := base.Keys;
    while todo != {}
      invariant todo <= base0.Keys && base.Keys == base0.Keys && next0 <= next
      invariant forall p :: p in base ==>
                  if p in todo then base[p] == base0[p] else MarkedFrom(base0[p], p !in local, next0, next, base[p])
      decreases |todo|
    {
      var p :| p in todo;
      if !base[p].deleted && p !in local {
        base, next := base[p := base[p].(deleted := true, version := next)], next + 1;
      }
      todo := todo - {p};
    }
  }

  /** The record of a path both sides agree on. */
  function Refreshed(stored: Option<Entry>, l: Meta, r: Meta, version: nat): Entry {
    Entry(l.DirMeta?, l.mode, if l.FileMeta? then l.size else 0, if stored.Some? then stored.value.content else None,
          if l.FileMeta? then l.mtime else 0, if r.FileMeta? then r.mtime else 0, false, version)
  }

  /** The record of a path after planning: refreshed where the sides agree, else as it was. */
  ghost predicate PlannedEntry(local: Tree, remote: Tree, baseline: Baseline, base: Baseline, refreshes: bool,
                               p: Path) {
    if refreshes then
      && p in local && p in remote && p in base
      && base[p] == Refreshed(Lookup(baseline, p), MetaOf(local[p]), MetaOf(remote[p]), base[p].version)
    else Lookup(base, p) == Lookup(baseline, p)
  }

  /** An entry that is new or differs has a number given since. */
  ghost predicate NumberedSince(base: Baseline, first: nat, base': Baseline, next: nat, p: Path) {
    p in base' ==> Lookup(base, p) == Some(base'[p]) || first <= base'[p].version < next
  }

  lemma NumberedNext(base: Baseline, first: nat, base1: Baseline, next1: nat, base2: Baseline, next2: nat)
    requires first <= next1 <= next2
    requires forall p :: NumberedSince(base, first, base1, next1, p)
    requires forall p :: NumberedSince(base1, next1, base2, next2, p)
    ensures forall p :: NumberedSince(base, first, base2, next2, p)
  {
    forall p ensures NumberedSince(base, first, base2, next2, p) {
      assert NumberedSince(base, first, base1, next1, p) && NumberedSince(base1, next1, base2, next2, p);
    }
  }

  /** Plans every path, refreshing the records of those that agree. */
  method BuildPlan(local: Tree, remote: Tree, baseline: Baseline, next0: nat)
    returns (plan: map<Path, Action>, base: Baseline, next: nat)
    ensures plan == PlanOf(local, remote, baseline)
    ensures forall p :: PlannedEntry(local, remote, baseline, base, Agrees(local, remote, baseline, p), p)
    ensures next0 <= next && forall p :: NumberedSince(baseline, next0, base, next, p)
  {
    var decide, action := p => DecisionAt(local, remote, baseline, p), p => ActionAt(local, remote, baseline, p);
    plan, base, next := PlanPaths(local.Keys + remote.Keys, local, remote, baseline, next0, decide, action);
  }

  predicate Agrees(local: Tree, remote: Tree, baseline: Baseline, p: Path) {
    p in local.Keys + remote.Keys && DecisionAt(local, remote, baseline, p) == Refresh
  }

  function Chosen(decide: Path -> Decision, action: Path -> Action, paths: set<Path>): map<Path, Action> {
    map p | p in paths && Acts(decide(p)) :: action(p)
  }

  lemma ChosenGrows(decide: Path -> Decision, action: Path -> Action, seen: set<Path>, p: Path)
    ensures Chosen(decide, action, seen + {p}) ==
            if Acts(decide(p)) then Chosen(decide, action, seen)[p := action(p)] else Chosen(decide, action, seen)
  {
  }

  method PlanPaths(all: set<Path>, local: Tree, remote: Tree, baseline: Baseline, next0: nat, decide: Path -> Decision,
                   action: Path -> Action)
    returns (plan: map<Path, Action>, base: Baseline, next: nat)
    requires forall p :: decide(p) == Refresh ==> p in local && p in remote
    ensures plan == Chosen(decide, action, all)
    ensures forall p :: PlannedEntry(local, remote, baseline, base, p in all && decide(p) == Refresh, p)
    ensures next0 <= next && forall p :: NumberedSince(baseline, next0, base, next, p)
  {
    plan, base, next := map[], baseline, next0;
    var todo := all;
    while todo != {}
      invariant todo <= all && plan == Chosen(decide, action, all - todo)
      invariant forall p :: PlannedEntry(local, remote, baseline, base, p in all - todo && decide(p) == Refresh, p)
      invariant next0 <= next && forall p :: NumberedSince(baseline, next0, base, next, p)
      decreases |todo|
    {
      var p :| p in todo;
      OneSeen(all, todo, p);
      ghost var base', next' := base, next;
      plan, base, next := PlanPath(local, remote, baseline, plan, base, next, decide, action, all - todo, p);
      NumberedNext(baseline, next0, base', next', base, next);
      todo := todo - {p};
    }
    assert all - todo == all;
  }

  lemma OneSeen(all: set<Path>, todo: set<Path>, p: Path)
    requires p in todo && todo <= all
    ensures (all - todo) + {p} == all - (todo - {p}) && p !in all - todo && |todo - {p}| < |todo|
  {
  }

  method PlanPath(local: Tree, remote: Tree, baseline: Baseline, plan0: map<Path, Action>, base0: Baseline, next0: nat,
                  decide: Path -> Decision, action: Path -> Action, ghost seen: set<Path>, p: Path)
    returns (plan: map<Path, Action>, base: Baseline, next: nat)
    requires p !in seen && (decide(p) == Refresh ==> p in local && p in remote) && plan0 == Chosen(decide, action, seen)
    requires forall q :: PlannedEntry(local, remote, baseline, base0, q in seen && decide(q) == Refresh, q)
    ensures plan == Chosen(decide, action, seen + {p})
    ensures forall q :: PlannedEntry(local, remote, baseline, base, q in seen + {p} && decide(q) == Refresh, q)
    ensures next0 <= next && forall q :: NumberedSince(base0, next0, base, next, q)
  {
    plan, base, next := plan0, base0, next0;
    ChosenGrows(decide, action, seen, p);
    if Acts(decide(p)) {
      plan := plan[p := action(p)];
    } else if decide(p) == Refresh {
      base, next := base[p := Refreshed(Lookup(base, p), MetaOf(local[p]), MetaOf(remote[p]), next)], next + 1;
    }
    EntriesGrow(local, remote, baseline, base0, base, decide, seen, p);
  }

  lemma EntriesGrow(local: Tree, remote: Tree, baseline: Baseline, base: Baseline, base': Baseline,
                    decide: Path -> Decision, seen: set<Path>, p: Path)
    requires p !in seen && (decide(p) == Refresh ==> p in local && p in remote)
    requires forall q :: PlannedEntry(local, remote, baseline, base, q in seen && decide(q) == Refresh, q)
    requires if decide(p) == Refresh then p in base' && base' == base[p := base'[p]] &&
               base'[p] == Refreshed(Lookup(base, p), MetaOf(local[p]), MetaOf(remote[p]), base'[p].version)
             else base' == base
    ensures forall q :: PlannedEntry(local, remote, baseline, base', q in seen + {p} && decide(q) == Refresh, q)
  {
    forall q ensures PlannedEntry(local, remote, baseline, base', q in seen + {p} && decide(q) == Refresh, q) {
      assert PlannedEntry(local, remote, baseline, base, q in seen && decide(q) == Refresh, q);
    }
  }

  lemma PlanningKeeps(w0: World, baseline: Baseline, base: Baseline, next: nat)
    requires Ready(w0) && SameRecords(w0.base, baseline)
    requires forall p :: PlannedEntry(w0.local, w0.remote, baseline, base, Agrees(w0.local, w0.remote, baseline, p), p)
    ensures Inv(w0, w0.(base := base, next := next))
    ensures AllPlanned(w0, baseline, PlanOf(w0.local, w0.remote, baseline))
  {
    forall p | p in base
      ensures p in w0.known && (base[p].content.Some? ==> Synced(w0.base, p, base[p].content.value))
    {
      assert PlannedEntry(w0.local, w0.remote, baseline, base, Agrees(w0.local, w0.remote, baseline, p), p);
    }
  }

  /** A refreshed path is in step. */
  lemma RefreshedInStep(w: World, baseline: Baseline, p: Path)
    requires Agrees(w.local, w.remote, baseline, p) && PlannedEntry(w.local, w.remote, baseline, w.base, true, p)
    ensures InStep(w, p)
  {
  }

  /** Planned actions are current, and the other paths are in step. */
  lemma PlanningSettles(w0: World, baseline: Baseline, base: Baseline, next: nat)
    requires forall p :: PlannedEntry(w0.local, w0.remote, baseline, base, Agrees(w0.local, w0.remote, baseline, p), p)
    ensures var w, plan := w0.(base := base, next := next), PlanOf(w0.local, w0.remote, baseline);
            && (forall p :: p in plan ==> StillCurrent(w, plan[p]) && RemoteCurrent(w, plan[p]))
            && (forall p :: p in w.local.Keys + w.remote.Keys && p !in plan ==> InStep(w, p))
  {
    var w, plan := w0.(base := base, next := next), PlanOf(w0.local, w0.remote, baseline);
    forall p | p in plan ensures StillCurrent(w, plan[p]) && RemoteCurrent(w, plan[p]) {
      assert PlannedEntry(w0.local, w0.remote, baseline, base, Agrees(w0.local, w0.remote, baseline, p), p);
    }
    forall p | p in w.local.Keys + w.remote.Keys && p !in plan ensures InStep(w, p) {
      assert PlannedEntry(w0.local, w0.remote, baseline, base, Agrees(w0.local, w0.remote, baseline, p), p);
      assert Agrees(w.local, w.remote, baseline, p);
      RefreshedInStep(w, baseline, p);
    }
  }

  lemma PlanningStarts(w0: World, marked: Baseline, base: Baseline, next: nat)
    requires Ready(w0) && SameRecords(w0.base, marked)
    requires forall p :: p in marked ==> marked[p].deleted == (w0.base[p].deleted || p !in w0.local)
    requires forall p :: p in marked && p in w0.local ==> marked[p] == w0.base[p]
    requires forall p :: PlannedEntry(w0.local, w0.remote, marked, base, Agrees(w0.local, w0.remote, marked, p), p)
    ensures PlannedFrom(w0, marked, w0.(base := base, next := next), PlanOf(w0.local, w0.remote, marked))
  {
    PlanningSettles(w0, marked, base, next);
    forall p | p in PlanOf(w0.local, w0.remote, marked) ensures Lookup(base, p) == Lookup(marked, p) {
      assert PlannedEntry(w0.local, w0.remote, marked, base, Agrees(w0.local, w0.remote, marked, p), p);
    }
    forall p | p in w0.local.Keys + w0.remote.Keys && p !in PlanOf(w0.local, w0.remote, marked)
      ensures LiveRecord(w0, marked, base, p)
    {
      assert PlannedEntry(w0.local, w0.remote, marked, base, Agrees(w0.local, w0.remote, marked, p), p);
      assert Agrees(w0.local, w0.remote, marked, p);
    }
  }

  lemma PlanningStamps(w0: World, marked: Baseline, between: nat, base: Baseline, next: nat)
    requires w0.next <= between <= next && marked.Keys == w0.base.Keys
    requires forall p :: p in marked ==> MarkedFrom(w0.base[p], p !in w0.local, w0.next, between, marked[p])
    requires forall p :: NumberedSince(marked, between, base, next, p)
    ensures Tidy(w0, w0.(base := base, next := next))
  {
    var w := w0.(base := base, next := next);
    forall q ensures StampedAt(w0, w, q) {
      assert NumberedSince(marked, between, base, next, q);
      if q in marked {
        assert MarkedFrom(w0.base[q], q !in w0.local, w0.next, between, marked[q]);
      }
    }
  }
}
