/**
 Whole runs of saves and deletions: what the steps of a run say about the stored count of a blob, at the
 end of the run and all along it, and two runs of a new workspace that end with wrong counts.
 */
module CheckpointRuns {
  import opened Checkpoints

  /** The states a run goes through, the first and the last included. */
  function States(s: State, steps: seq<Step>): seq<State>
    decreases |steps|
  {
    [s] + if steps == [] then [] else States(Apply(s, steps[0]), steps[1..])
  }

  ghost predicate Execution(states: seq<State>, steps: seq<Step>) {
    |states| == |steps| + 1 && AtRest(states[0]) && forall i :: 0 <= i < |steps| ==> StepAt(states, steps, i)
  }

  ghost predicate StepAt(states: seq<State>, steps: seq<Step>, i: nat)
    requires i < |steps| < |states|
  {
    states[i + 1] == Apply(states[i], steps[i])
  }

  lemma {:induction false} StatesFollow(s: State, steps: seq<Step>)
    ensures var states := States(s, steps);
            && |states| == |steps| + 1 && states[0] == s && states[|steps|] == Run(s, steps)
            && forall i :: 0 <= i < |steps| ==> StepAt(states, steps, i)
    decreases |steps|
  {
    if steps != [] {
      var rest := States(Apply(s, steps[0]), steps[1..]);
      StatesFollow(Apply(s, steps[0]), steps[1..]);
      forall i | 0 <= i < |steps| ensures StepAt([s] + rest, steps, i) {
        assert i > 0 ==> StepAt(rest, steps[1..], i - 1);
      }
    }
  }

  lemma {:induction false} InvAlong(states: seq<State>, steps: seq<Step>, n: nat)
    requires Execution(states, steps) && n <= |steps|
    ensures Inv(states[n])
    decreases n
  {
    if n > 0 {
      InvAlong(states, steps, n - 1);
      assert StepAt(states, steps, n - 1);
      StepKeepsInv(states[n - 1], steps[n - 1]);
    }
  }

  // ---- A save overwrites decrements ------------------------------------------------------

  /** The last step before `n` at which client `c` reads the reference of `b`. */
  ghost function LastRead(states: seq<State>, steps: seq<Step>, n: nat, c: ClientId, b: BlobId): nat
    requires n <= |steps| < |states|
  {
    if n == 0 then 0
    else if Reads(states[n - 1], steps[n - 1], c, b) then n - 1 else LastRead(states, steps, n - 1, c, b)
  }

  /** How many steps from `lo` on and before `hi` count `b` down. */
  ghost function Falls(states: seq<State>, steps: seq<Step>, b: BlobId, lo: nat, hi: nat): nat
    requires hi <= |steps| < |states|
    decreases hi
  {
    if hi <= lo then 0
    else Falls(states, steps, b, lo, hi - 1) + if Lowers(states[hi - 1], steps[hi - 1], b) then 1 else 0
  }

  /** How many decrements of `b` the step overwrites: if it commits a save naming `b`, those since the
      save read the reference. */
  ghost function Overwrites(states: seq<State>, steps: seq<Step>, b: BlobId, e: nat): nat
    requires e < |steps| < |states|
  {
    if Commits(states[e], steps[e]) && b in states[e].txns[steps[e].c].req.blobs
    then Falls(states, steps, b, LastRead(states, steps, e, steps[e].c, b), e) else 0
  }

  lemma CountedStep(s: State, step: Step, c: ClientId, b: BlobId)
    requires c in Apply(s, step).txns && b in Apply(s, step).txns[c].counted
    ensures c in s.txns && Apply(s, step).txns[c].metaRev == s.txns[c].metaRev
    ensures if Reads(s, step, c, b) then Apply(s, step).txns[c].counted[b] == At(s.refs, b) + 1
            else b in s.txns[c].counted && Apply(s, step).txns[c].counted[b] == s.txns[c].counted[b]
  {
    match step
    case ReadRef(_, _) =>
    case Exec(_) =>
    case _ =>
  }

  /** What a save has read is what was stored at its last read. */
  lemma {:induction false} ReadBack(states: seq<State>, steps: seq<Step>, n: nat, c: ClientId, b: BlobId)
    requires Execution(states, steps) && n <= |steps| && c in states[n].txns && b in states[n].txns[c].counted
    ensures var r := LastRead(states, steps, n, c, b);
            && r < n && states[n].txns[c].counted[b] == At(states[r].refs, b) + 1
            && states[n].txns[c].metaRev <= states[r].metaRev
    decreases n
  {
    if n > 0 {
      var was, step := states[n - 1], steps[n - 1];
      assert StepAt(states, steps, n - 1);
      CountedStep(was, step, c, b);
      if Reads(was, step, c, b) {
        InvAlong(states, steps, n - 1);
        assert TxnValid(was, was.txns[c]);
      } else {
        ReadBack(states, steps, n - 1, c, b);
      }
    }
  }

  lemma RefStep(s: State, step: Step, b: BlobId)
    ensures s.metaRev <= Apply(s, step).metaRev
    ensures Apply(s, step).metaRev == s.metaRev ==>
              At(Apply(s, step).refs, b) == At(s.refs, b) - if Lowers(s, step, b) then 1 else 0
  {
    if !Removes(s, step) && !Commits(s, step) {
      QuietStore(s, step);
    }
  }

  /** While no save commits, a reference falls by the decrements. */
  lemma {:induction false} RefFalls(states: seq<State>, steps: seq<Step>, b: BlobId, r: nat, n: nat)
    requires Execution(states, steps) && r <= n <= |steps|
    ensures states[r].metaRev <= states[n].metaRev
    ensures states[r].metaRev == states[n].metaRev ==>
              At(states[n].refs, b) + Falls(states, steps, b, r, n) == At(states[r].refs, b)
    decreases n
  {
    if r < n {
      assert StepAt(states, steps, n - 1);
      RefFalls(states, steps, b, r, n - 1);
      RefStep(states[n - 1], steps[n - 1], b);
    }
  }

  /** A commit writes a count that is too high by the decrements it overwrites. */
  lemma OverwritesIsGain(states: seq<State>, steps: seq<Step>, b: BlobId, e: nat)
    requires Execution(states, steps) && e < |steps| && Commits(states[e], steps[e])
    ensures Error(states[e + 1], b) == Error(states[e], b) + Overwrites(states, steps, b, e)
  {
    var c := steps[e].c;
    assert StepAt(states, steps, e);
    InvAlong(states, steps, e);
    CommitError(states[e], c, b);
    if b in states[e].txns[c].req.blobs {
      ReadBack(states, steps, e, c, b);
      RefFalls(states, steps, b, LastRead(states, steps, e, c, b), e);
    }
  }

  // ---- A deletion goes by another manifest ------------------------------------------------

  /** The removed checkpoint does not name `b`, and the step counts it down all the same. */
  predicate Takes(s: State, step: Step, b: BlobId) {
    Lowers(s, step, b) && b !in s.checkpoints[s.deletions[step.d].id].blobs
  }

  /** The removed checkpoint names `b`, and the step does not count it down. */
  predicate Leaves(s: State, step: Step, b: BlobId) {
    Removes(s, step) && b in s.checkpoints[s.deletions[step.d].id].blobs && !Lowers(s, step, b)
  }

  /** The steps before `n` that take `b` wrongly. */
  ghost function Taken(states: seq<State>, steps: seq<Step>, b: BlobId, n: nat): nat
    requires n <= |steps| < |states|
  {
    if n == 0 then 0
    else Taken(states, steps, b, n - 1) + if Takes(states[n - 1], steps[n - 1], b) then 1 else 0
  }

  /** The steps before `n` that leave `b` wrongly, and the decrements overwritten before `n`. */
  ghost function Kept(states: seq<State>, steps: seq<Step>, b: BlobId, n: nat): nat
    requires n <= |steps| < |states|
  {
    if n == 0 then 0
    else Kept(states, steps, b, n - 1) + Overwrites(states, steps, b, n - 1)
         + if Leaves(states[n - 1], steps[n - 1], b) then 1 else 0
  }

  /** How one step changes the error of a count. */
  lemma ErrorStep(states: seq<State>, steps: seq<Step>, b: BlobId, e: nat)
    requires Execution(states, steps) && e < |steps|
    ensures Error(states[e + 1], b) ==
              Error(states[e], b) + Overwrites(states, steps, b, e)
              + (if Leaves(states[e], steps[e], b) then 1 else 0) - (if Takes(states[e], steps[e], b) then 1 else 0)
  {
    var s, step := states[e], steps[e];
    assert StepAt(states, steps, e);
    if Commits(s, step) {
      OverwritesIsGain(states, steps, b, e);
    } else if Removes(s, step) {
      RemoveError(s, step.d, b);
    } else {
      QuietStore(s, step);
    }
  }

  lemma {:induction false} BalanceAlong(states: seq<State>, steps: seq<Step>, b: BlobId, n: nat)
    requires Execution(states, steps) && n <= |steps|
    ensures Error(states[n], b) == Kept(states, steps, b, n) - Taken(states, steps, b, n)
    decreases n
  {
    if n > 0 {
      BalanceAlong(states, steps, b, n - 1);
      ErrorStep(states, steps, b, n - 1);
    } else {
      assert Error(states[0], b) == 0;
    }
  }

  /** After any run from rest, the stored count and the decrements taken wrongly are together the number
      of checkpoints naming the blob, the decrements overwritten by saves, and those deletions left out.
      So it is exact if and only if as much was taken wrongly as was overwritten or left out. */
  lemma CountsBalance(s: State, steps: seq<Step>, b: BlobId)
    requires AtRest(s)
    ensures |States(s, steps)| == |steps| + 1
    ensures At(Run(s, steps).refs, b) + Taken(States(s, steps), steps, b, |steps|) ==
              Count(Run(s, steps).checkpoints, b) + Kept(States(s, steps), steps, b, |steps|)
  {
    StatesFollow(s, steps);
    BalanceAlong(States(s, steps), steps, b, |steps|);
  }

  // ---- Names used again ------------------------------------------------------------------

  /** The last step before `n` at which the deletion of client `d` reads its manifest. */
  ghost function LastLook(states: seq<State>, steps: seq<Step>, n: nat, d: ClientId): nat
    requires n <= |steps| < |states|
  {
    if n == 0 then 0
    else if Looks(states[n - 1], steps[n - 1], d) then n - 1 else LastLook(states, steps, n - 1, d)
  }

  lemma LookStep(s: State, step: Step, d: ClientId)
    requires d in Apply(s, step).deletions
    ensures if Looks(s, step, d) then Apply(s, step).deletions[d] == Deletion(step.id, s.checkpoints[step.id].blobs)
            else d in s.deletions && Apply(s, step).deletions[d] == s.deletions[d]
  {
  }

  /** What a deletion goes by is what was stored when it looked. */
  lemma {:induction false} LookBack(states: seq<State>, steps: seq<Step>, n: nat, d: ClientId)
    requires Execution(states, steps) && n <= |steps| && d in states[n].deletions
    ensures var r, x := LastLook(states, steps, n, d), states[n].deletions[d];
            r < n && x.id in states[r].checkpoints && x.blobs == states[r].checkpoints[x.id].blobs
    decreases n
  {
    if n > 0 {
      assert StepAt(states, steps, n - 1);
      LookStep(states[n - 1], steps[n - 1], d);
      if !Looks(states[n - 1], steps[n - 1], d) {
        LookBack(states, steps, n - 1, d);
      }
    }
  }

  /** The step stores a checkpoint under the name. */
  predicate Stores(s: State, step: Step, id: CheckpointId) {
    Commits(s, step) && s.txns[step.c].req.id == id
  }

  /** A checkpoint of that name is stored at step `y` and is still there before step `n`. */
  ghost predicate StoredAt(states: seq<State>, steps: seq<Step>, n: nat, id: CheckpointId, y: nat) {
    && y < n <= |steps| < |states| && Stores(states[y], steps[y], id)
    && forall m :: y < m <= n ==> id in states[m].checkpoints
  }

  lemma CheckpointStep(s: State, step: Step, id: CheckpointId)
    requires Inv(s) && id in Apply(s, step).checkpoints
    ensures if Stores(s, step, id) then id !in s.checkpoints &&
              Apply(s, step).checkpoints[id].blobs == s.txns[step.c].req.blobs
            else id in s.checkpoints && Apply(s, step).checkpoints[id] == s.checkpoints[id]
  {
    if Commits(s, step) {
      assert TxnValid(s, s.txns[step.c]);
    } else if !Removes(s, step) {
      QuietStore(s, step);
    }
  }

  /** A checkpoint that stays is not changed. */
  lemma {:induction false} ManifestStays(states: seq<State>, steps: seq<Step>, from: nat, n: nat, id: CheckpointId)
    requires Execution(states, steps) && from <= n <= |steps|
    requires forall m :: from <= m <= n ==> id in states[m].checkpoints
    ensures states[n].checkpoints[id] == states[from].checkpoints[id]
    decreases n
  {
    if from < n {
      assert StepAt(states, steps, n - 1);
      InvAlong(states, steps, n - 1);
      CheckpointStep(states[n - 1], steps[n - 1], id);
      ManifestStays(states, steps, from, n - 1, id);
    }
  }

  /** A stored checkpoint has been there since `from`, or was stored at a step since. */
  lemma {:induction false} ManifestOrigin(states: seq<State>, steps: seq<Step>, from: nat, n: nat, id: CheckpointId)
    returns (y: nat)
    requires Execution(states, steps) && 0 < from <= n <= |steps| && id in states[n].checkpoints
    ensures if y < from then forall m :: from <= m <= n ==> id in states[m].checkpoints
            else StoredAt(states, steps, n, id, y)
    decreases n
  {
    y := 0;
    if from < n {
      assert StepAt(states, steps, n - 1);
      InvAlong(states, steps, n - 1);
      CheckpointStep(states[n - 1], steps[n - 1], id);
      if Stores(states[n - 1], steps[n - 1], id) {
        y := n - 1;
      } else {
        y := ManifestOrigin(states, steps, from, n - 1, id);
      }
    }
  }

  /** The deletion at step `e` removes a checkpoint that was stored under its name at step `y`, after the
      deletion had read the manifest of an earlier one, and only one of the two names `b`. */
  ghost predicate ReusedAt(states: seq<State>, steps: seq<Step>, b: BlobId, e: nat, y: nat) {
    && e < |steps| < |states| && Removes(states[e], steps[e])
    && var x := states[e].deletions[steps[e].d];
       && LastLook(states, steps, e, steps[e].d) < y && StoredAt(states, steps, e, x.id, y)
       && (b in states[y].txns[steps[y].c].req.blobs) != (b in x.blobs)
  }

  ghost predicate Reused(states: seq<State>, steps: seq<Step>, b: BlobId, e: nat) {
    exists y :: ReusedAt(states, steps, b, e, y)
  }

  /** The manifest a deletion goes by differs from the stored one in `b` exactly when the name was used
      again meanwhile. */
  lemma ReusedIff(states: seq<State>, steps: seq<Step>, b: BlobId, e: nat)
    requires Execution(states, steps) && e < |steps| && Removes(states[e], steps[e])
    ensures var x := states[e].deletions[steps[e].d];
            Reused(states, steps, b, e) <==> (b in x.blobs) != (b in states[e].checkpoints[x.id].blobs)
  {
    var x := states[e].deletions[steps[e].d];
    if y :| ReusedAt(states, steps, b, e, y) {
      StoredManifest(states, steps, e, x.id, y);
    }
    if (b in x.blobs) != (b in states[e].checkpoints[x.id].blobs) {
      var y := StoredAfterLook(states, steps, e);
      StoredManifest(states, steps, e, x.id, y);
      assert ReusedAt(states, steps, b, e, y);
    }
  }

  lemma StoredManifest(states: seq<State>, steps: seq<Step>, n: nat, id: CheckpointId, y: nat)
    requires Execution(states, steps) && StoredAt(states, steps, n, id, y)
    ensures states[n].checkpoints[id].blobs == states[y].txns[steps[y].c].req.blobs
  {
    assert StepAt(states, steps, y);
    InvAlong(states, steps, y);
    CheckpointStep(states[y], steps[y], id);
    ManifestStays(states, steps, y + 1, n, id);
  }

  /** If the manifests differ, the stored checkpoint is younger than the look. */
  lemma StoredAfterLook(states: seq<State>, steps: seq<Step>, e: nat) returns (y: nat)
    requires Execution(states, steps) && e < |steps| && Removes(states[e], steps[e])
    requires var x := states[e].deletions[steps[e].d]; x.blobs != states[e].checkpoints[x.id].blobs
    ensures var d := steps[e].d;
            LastLook(states, steps, e, d) < y && StoredAt(states, steps, e, states[e].deletions[d].id, y)
  {
    var d := steps[e].d;
    var r, x := LastLook(states, steps, e, d), states[e].deletions[d];
    LookBack(states, steps, e, d);
    assert StepAt(states, steps, r);
    LastLookLooks(states, steps, e, d);
    QuietStore(states[r], steps[r]);
    y := ManifestOrigin(states, steps, r + 1, e, x.id);
    if y <= r {
      ManifestStays(states, steps, r + 1, e, x.id);
    }
  }

  lemma {:induction false} LastLookLooks(states: seq<State>, steps: seq<Step>, n: nat, d: ClientId)
    requires Execution(states, steps) && n <= |steps| && d in states[n].deletions
    ensures var r := LastLook(states, steps, n, d);
            r < n && Looks(states[r], steps[r], d)
    decreases n
  {
    if n > 0 {
      assert StepAt(states, steps, n - 1);
      LookStep(states[n - 1], steps[n - 1], d);
      if !Looks(states[n - 1], steps[n - 1], d) {
        LastLookLooks(states, steps, n - 1, d);
      }
    }
  }

  lemma NamedCounts(checkpoints: map<CheckpointId, Checkpoint>, id: CheckpointId, b: BlobId)
    requires id in checkpoints && b in checkpoints[id].blobs
    ensures Count(checkpoints, b) > 0
  {
    assert id in Naming(checkpoints, b);
  }

  /** Such a deletion does harm when some checkpoint still names the blob. */
  ghost predicate Mistaken(states: seq<State>, steps: seq<Step>, b: BlobId, e: nat)
    requires e < |steps| < |states|
  {
    Reused(states, steps, b, e) && Count(states[e].checkpoints, b) > 0
  }

  lemma MistakenIff(states: seq<State>, steps: seq<Step>, b: BlobId, e: nat)
    requires Execution(states, steps) && e < |steps| && Error(states[e], b) >= 0
    ensures Leaves(states[e], steps[e], b) ==> Mistaken(states, steps, b, e)
    ensures Error(states[e], b) == 0 ==>
              (Mistaken(states, steps, b, e) <==> Takes(states[e], steps[e], b) || Leaves(states[e], steps[e], b))
  {
    var s, step := states[e], steps[e];
    if Removes(s, step) {
      var x := s.deletions[step.d];
      ReusedIff(states, steps, b, e);
      if b in s.checkpoints[x.id].blobs {
        NamedCounts(s.checkpoints, x.id, b);
      }
    }
  }

  // ---- When counts are exact ---------------------------------------------------------------

  /** The step overwrites no decrement of `b`, and is no deletion by another manifest. */
  ghost predicate Harmless(states: seq<State>, steps: seq<Step>, b: BlobId, e: nat)
    requires e < |steps| < |states|
  {
    Overwrites(states, steps, b, e) == 0 && !Mistaken(states, steps, b, e)
  }

  lemma {:induction false} ExactAlong(states: seq<State>, steps: seq<Step>, b: BlobId, n: nat)
    requires Execution(states, steps) && n <= |steps|
    ensures (forall m :: 0 <= m <= n ==> Error(states[m], b) == 0) <==>
              (forall e :: 0 <= e < n ==> Harmless(states, steps, b, e))
    decreases n
  {
    if n == 0 {
      assert Error(states[0], b) == 0;
    } else {
      ExactAlong(states, steps, b, n - 1);
      if forall m :: 0 <= m <= n - 1 ==> Error(states[m], b) == 0 {
        HarmlessIff(states, steps, b, n - 1);
      }
    }
  }

  /** A step keeps an exact count exact if and only if it is harmless. */
  lemma HarmlessIff(states: seq<State>, steps: seq<Step>, b: BlobId, e: nat)
    requires Execution(states, steps) && e < |steps| && Error(states[e], b) == 0
    ensures Error(states[e + 1], b) == 0 <==> Harmless(states, steps, b, e)
  {
    ErrorStep(states, steps, b, e);
    MistakenIff(states, steps, b, e);
    if Commits(states[e], steps[e]) {
      assert !Removes(states[e], steps[e]);
    }
  }

  /** In every run from rest, the count of a blob is exact all along if and only if no save commits
      after a decrement of the blob that came after the save read its reference, and no deletion removes
      a checkpoint stored, under a name used again, after the deletion had read the manifest of another,
      when only one of the two names the blob and some checkpoint still does. */
  lemma AlwaysExactIff(s: State, steps: seq<Step>, b: BlobId)
    requires AtRest(s)
    ensures |States(s, steps)| == |steps| + 1
    ensures (forall m :: 0 <= m <= |steps| ==> Error(States(s, steps)[m], b) == 0) <==>
              (forall e :: 0 <= e < |steps| ==> Harmless(States(s, steps), steps, b, e))
  {
    StatesFollow(s, steps);
    ExactAlong(States(s, steps), steps, b, |steps|);
  }

  lemma {:induction false} ErrorAlong(states: seq<State>, steps: seq<Step>, b: BlobId, n: nat)
    requires Execution(states, steps) && n <= |steps|
    requires forall e :: 0 <= e < |steps| ==> !Reused(states, steps, b, e)
    ensures Error(states[n], b) >= 0
    ensures Error(states[n], b) == 0 <==> forall e :: 0 <= e < n ==> Overwrites(states, steps, b, e) == 0
    decreases n
  {
    if n == 0 {
      assert Error(states[0], b) == 0;
    } else {
      ErrorAlong(states, steps, b, n - 1);
      ErrorStep(states, steps, b, n - 1);
      MistakenIff(states, steps, b, n - 1);
      if Removes(states[n - 1], steps[n - 1]) {
        ReusedIff(states, steps, b, n - 1);
      }
    }
  }

  /** As long as no deletion goes by another manifest, a count is never too small, and at the end it is
      exact if and only if no save has overwritten a decrement. */
  lemma ExactIffNotOverwritten(s: State, steps: seq<Step>, b: BlobId)
    requires AtRest(s) && |States(s, steps)| == |steps| + 1
    requires forall e :: 0 <= e < |steps| ==> !Reused(States(s, steps), steps, b, e)
    ensures At(Run(s, steps).refs, b) >= Count(Run(s, steps).checkpoints, b)
    ensures At(Run(s, steps).refs, b) == Count(Run(s, steps).checkpoints, b) <==>
              forall e :: 0 <= e < |steps| ==> Overwrites(States(s, steps), steps, b, e) == 0
  {
    StatesFollow(s, steps);
    ErrorAlong(States(s, steps), steps, b, |steps|);
  }

  /** That is so whenever no name is used twice. */
  lemma UniqueNamesAreSafe(states: seq<State>, steps: seq<Step>, b: BlobId, e: nat)
    requires Execution(states, steps)
    requires forall id, m: nat, y: nat :: m <= y < |steps| && Stores(states[y], steps[y], id) ==>
               id !in states[m].checkpoints
    ensures !Reused(states, steps, b, e)
  {
    if y: nat :| ReusedAt(states, steps, b, e, y) {
      LookBack(states, steps, e, steps[e].d);
    }
  }

  // ---- Two runs of a new workspace that end with wrong counts -------------------------------

  lemma {:induction false} RunConcat(s: State, a: seq<Step>, b: seq<Step>)
    ensures Run(s, a + b) == Run(Run(s, a), b)
    decreases |a|
  {
    if a == [] {
      assert a + b == b;
    } else {
      assert (a + b)[1..] == a[1..] + b;
      RunConcat(Apply(s, a[0]), a[1..], b);
    }
  }

  lemma RunOne(s: State, step: Step)
    ensures Run(s, [step]) == Apply(s, step)
  {
    assert [step][1..] == [];
  }

  /** The reads of a save of at most one blob. */
  function SaveReads(c: ClientId, req: Request, b: BlobId): seq<Step> {
    [Watch(c, req), ReadHead(c), CheckFree(c)] + if b in req.blobs then [ReadRef(c, b)] else []
  }

  function Saving(req: Request, b: BlobId): seq<Step> {
    SaveReads(0, req, b) + [Exec(0)]
  }

  /** The save once the reads are done. */
  function ReadTxn(s: State, req: Request, b: BlobId): Txn {
    Txn(req, s.metaRev, s.guardRev, Reading, if b in req.blobs then map[b := At(s.refs, b) + 1] else map[])
  }

  /** A workspace with the given contents, created with the checkpoint "initial", and no save under way. */
  ghost predicate Holds(s: State, head: CheckpointId, checkpoints: map<CheckpointId, Checkpoint>,
                        refs: map<BlobId, nat>, deletions: map<ClientId, Deletion>) {
    && s.txns == map[] && s.defaultId == "initial" && s.baseline == ""
    && s.head == head && s.checkpoints == checkpoints && s.refs == refs && s.deletions == deletions
  }

  lemma CheckedRun(s: State, c: ClientId, req: Request)
    requires s.txns == map[] && s.head == req.expectedHead && req.id !in s.checkpoints
    ensures Run(s, [Watch(c, req), ReadHead(c), CheckFree(c)]) ==
              s.(txns := map[c := Txn(req, s.metaRev, s.guardRev, Reading, map[])])
  {
    var s1 := s.(txns := map[c := Txn(req, s.metaRev, s.guardRev, Watched, map[])]);
    var s2 := s.(txns := map[c := Txn(req, s.metaRev, s.guardRev, HeadChecked, map[])]);
    assert Apply(s, Watch(c, req)) == s1;
    assert Apply(s1, ReadHead(c)) == s2;
    RunThree(s, Watch(c, req), ReadHead(c), CheckFree(c));
  }

  lemma RunThree(s: State, first: Step, second: Step, third: Step)
    ensures Run(s, [first, second, third]) == Apply(Apply(Apply(s, first), second), third)
  {
    var steps := [first, second, third];
    assert steps[1..] == [second, third] && steps[1..][1..] == [third];
    RunOne(Apply(Apply(s, first), second), third);
  }

  lemma ReadsRun(s: State, c: ClientId, req: Request, b: BlobId)
    requires s.txns == map[] && s.head == req.expectedHead && req.id !in s.checkpoints && req.blobs <= {b}
    ensures Run(s, SaveReads(c, req, b)) == s.(txns := map[c := ReadTxn(s, req, b)])
  {
    CheckedRun(s, c, req);
    if b in req.blobs {
      RunConcat(s, [Watch(c, req), ReadHead(c), CheckFree(c)], [ReadRef(c, b)]);
      RunOne(s.(txns := map[c := Txn(req, s.metaRev, s.guardRev, Reading, map[])]), ReadRef(c, b));
    } else {
      assert SaveReads(c, req, b) == [Watch(c, req), ReadHead(c), CheckFree(c)];
    }
  }

  /** A save nothing interferes with. */
  lemma SaveRun(s: State, req: Request, b: BlobId, head: CheckpointId, checkpoints: map<CheckpointId, Checkpoint>,
                refs: map<BlobId, nat>, deletions: map<ClientId, Deletion>)
    requires Holds(s, head, checkpoints, refs, deletions)
    requires head == req.expectedHead && req.id !in checkpoints && req.blobs <= {b}
    ensures Holds(Run(s, Saving(req, b)), req.id, checkpoints[req.id := Checkpoint(head, req.blobs)],
                  if b in req.blobs then refs[b := At(refs, b) + 1] else refs, deletions)
  {
    ReadsRun(s, 0, req, b);
    RunConcat(s, SaveReads(0, req, b), [Exec(0)]);
    SaveCommits(s, req, b);
    RunOne(s.(txns := map[0 := ReadTxn(s, req, b)]), Exec(0));
  }

  lemma SaveCommits(s: State, req: Request, b: BlobId)
    requires s.txns == map[] && s.head == req.expectedHead && req.id !in s.checkpoints && req.blobs <= {b}
    ensures var s1 := s.(txns := map[0 := ReadTxn(s, req, b)]);
            Commits(s1, Exec(0)) && Apply(s1, Exec(0)) == Commit(s1, 0)
    ensures var s' := Commit(s.(txns := map[0 := ReadTxn(s, req, b)]), 0);
            && s'.txns == map[] && s'.checkpoints == s.checkpoints[req.id := Checkpoint(s.head, req.blobs)]
            && s'.refs == (if b in req.blobs then s.refs[b := At(s.refs, b) + 1] else s.refs)
  {
  }

  lemma LookRun(s: State, d: ClientId, id: CheckpointId)
    requires d !in s.deletions && id in s.checkpoints
    ensures Run(s, [ReadManifest(d, id)]) == s.(deletions := s.deletions[d := Deletion(id, s.checkpoints[id].blobs)])
  {
    RunOne(s, ReadManifest(d, id));
  }

  lemma EraseRun(s: State, d: ClientId)
    requires Removes(s, DeleteExec(d))
    ensures Run(s, [DeleteExec(d)]) == Remove(s, d)
  {
    RunOne(s, DeleteExec(d));
  }

  const INITIAL := Checkpoint("", {})
  const MIDDLE := Request("initial", "middle", {"blob"})
  const TOP := Request("middle", "top", {})
  const LAST := Request("top", "last", {"blob"})

  /** A workspace is saved twice, and while a third save is under way the middle checkpoint is deleted. */
  function RaceSteps(): seq<Step> {
    Saving(MIDDLE, "blob") + (Saving(TOP, "blob") + ([ReadManifest(1, "middle")] +
    (SaveReads(0, LAST, "blob") + ([DeleteExec(1)] + [Exec(0)]))))
  }

  lemma RunFive(s: State, a: seq<Step>, b: seq<Step>, c: seq<Step>, d: seq<Step>, e: seq<Step>)
    ensures Run(s, a + (b + (c + (d + e)))) == Run(Run(Run(Run(Run(s, a), b), c), d), e)
  {
    RunConcat(s, a, b + (c + (d + e)));
    RunConcat(Run(s, a), b, c + (d + e));
    RunConcat(Run(Run(s, a), b), c, d + e);
    RunConcat(Run(Run(Run(s, a), b), c), d, e);
  }

  lemma RunFour(s: State, a: seq<Step>, b: seq<Step>, c: seq<Step>, d: seq<Step>)
    ensures Run(s, a + (b + (c + d))) == Run(Run(Run(Run(s, a), b), c), d)
  {
    RunConcat(s, a, b + (c + d));
    RunConcat(Run(s, a), b, c + d);
    RunConcat(Run(Run(s, a), b), c, d);
  }

  const RACE_CHECKPOINTS :=
    map["initial" := INITIAL, "middle" := Checkpoint("initial", {"blob"}), "top" := Checkpoint("middle", {})]

  /** The first two saves. */
  lemma RaceSaved()
    ensures Holds(Run(Run(Initial("initial", {}), Saving(MIDDLE, "blob")), Saving(TOP, "blob")),
                  "top", RACE_CHECKPOINTS, map["blob" := 1], map[])
  {
    var s0 := Initial("initial", {});
    assert s0.refs == map[];
    SaveRun(s0, MIDDLE, "blob", "initial", map["initial" := INITIAL], map[], map[]);
    SaveRun(Run(s0, Saving(MIDDLE, "blob")), TOP, "blob", "middle", RACE_CHECKPOINTS - {"top"}, map["blob" := 1],
            map[]);
  }

  /** The deletion looks. */
  lemma RaceLooked(s: State)
    requires Holds(s, "top", RACE_CHECKPOINTS, map["blob" := 1], map[])
    ensures Holds(Run(s, [ReadManifest(1, "middle")]), "top", RACE_CHECKPOINTS, map["blob" := 1],
                  map[1 := Deletion("middle", {"blob"})])
  {
    LookRun(s, 1, "middle");
  }

  /** The third save reads, the deletion goes through, and the save commits. */
  lemma RaceEnd(s: State)
    requires Holds(s, "top", RACE_CHECKPOINTS, map["blob" := 1], map[1 := Deletion("middle", {"blob"})])
    ensures var s' := Run(s, SaveReads(0, LAST, "blob") + ([DeleteExec(1)] + [Exec(0)]));
            && s'.head == "last" && s'.refs == map["blob" := 2]
            && s'.checkpoints == map["initial" := INITIAL, "top" := Checkpoint("middle", {}),
                                     "last" := Checkpoint("top", {"blob"})]
  {
    var s1 := s.(txns := map[0 := ReadTxn(s, LAST, "blob")]);
    ReadsRun(s, 0, LAST, "blob");
    RunConcat(s, SaveReads(0, LAST, "blob"), [DeleteExec(1)] + [Exec(0)]);
    RunConcat(s1, [DeleteExec(1)], [Exec(0)]);
    EraseRun(s1, 1);
    var s2 := Remove(s1, 1);
    RunOne(s2, Exec(0));
    assert Commits(s2, Exec(0));
  }

  /** From a new workspace: the blob is counted twice, and one checkpoint names it. */
  lemma RaceIsReachable()
    ensures var s := Run(Initial("initial", {}), RaceSteps());
            s.head == "last" && At(s.refs, "blob") == 2 && Count(s.checkpoints, "blob") == 1
  {
    var s0 := Initial("initial", {});
    var end := SaveReads(0, LAST, "blob") + ([DeleteExec(1)] + [Exec(0)]);
    RunFour(s0, Saving(MIDDLE, "blob"), Saving(TOP, "blob"), [ReadManifest(1, "middle")], end);
    var s2 := Run(Run(s0, Saving(MIDDLE, "blob")), Saving(TOP, "blob"));
    RaceSaved();
    RaceLooked(s2);
    RaceEnd(Run(s2, [ReadManifest(1, "middle")]));
    RaceCounted(Run(s0, RaceSteps()));
  }

  lemma RaceCounted(s: State)
    requires s.checkpoints == map["initial" := INITIAL, "top" := Checkpoint("middle", {}),
                                  "last" := Checkpoint("top", {"blob"})]
    ensures Count(s.checkpoints, "blob") == 1
  {
    assert Naming(s.checkpoints, "blob") == {"last"};
  }

  const FIRST_X := Request("initial", "x", {"old"})
  const OTHER := Request("x", "y", {"old"})
  const SECOND_X := Request("y", "x", {"new"})
  const MOVED_ON := Request("x", "z", {})

  /** Two deletions of "x" read its manifest; one goes through, "x" is saved again with other contents, and
      after another save the second deletion goes through as well. No save is under way at a deletion. */
  function ReuseSteps(): seq<Step> {
    Saving(FIRST_X, "old") + (Saving(OTHER, "old") + ([ReadManifest(0, "x")] + ([ReadManifest(1, "x")] +
    ([DeleteExec(1)] + (Saving(SECOND_X, "new") + (Saving(MOVED_ON, "new") + [DeleteExec(0)]))))))
  }

  const FIRST_CHECKPOINTS :=
    map["initial" := INITIAL, "x" := Checkpoint("initial", {"old"}), "y" := Checkpoint("x", {"old"})]

  /** The first two saves. */
  lemma ReuseSaved()
    ensures Holds(Run(Run(Initial("initial", {}), Saving(FIRST_X, "old")), Saving(OTHER, "old")),
                  "y", FIRST_CHECKPOINTS, map["old" := 2], map[])
  {
    var s0 := Initial("initial", {});
    assert s0.refs == map[];
    SaveRun(s0, FIRST_X, "old", "initial", map["initial" := INITIAL], map[], map[]);
    SaveRun(Run(s0, Saving(FIRST_X, "old")), OTHER, "old", "x", FIRST_CHECKPOINTS - {"y"}, map["old" := 1], map[]);
  }

  /** Both deletions look. */
  lemma ReuseLooked(s: State)
    requires Holds(s, "y", FIRST_CHECKPOINTS, map["old" := 2], map[])
    ensures Holds(Run(Run(s, [ReadManifest(0, "x")]), [ReadManifest(1, "x")]), "y", FIRST_CHECKPOINTS, map["old" := 2],
                  map[0 := Deletion("x", {"old"}), 1 := Deletion("x", {"old"})])
  {
    LookRun(s, 0, "x");
    LookRun(s.(deletions := map[0 := Deletion("x", {"old"})]), 1, "x");
  }

  /** One of them goes through. */
  lemma ReuseErased(s: State)
    requires Holds(s, "y", FIRST_CHECKPOINTS, map["old" := 2],
                   map[0 := Deletion("x", {"old"}), 1 := Deletion("x", {"old"})])
    ensures Holds(Run(s, [DeleteExec(1)]), "y", map["initial" := INITIAL, "y" := Checkpoint("x", {"old"})],
                  map["old" := 1], map[0 := Deletion("x", {"old"})])
  {
    EraseRun(s, 1);
  }

  const LATER_CHECKPOINTS :=
    map["initial" := INITIAL, "y" := Checkpoint("x", {"old"}), "x" := Checkpoint("y", {"new"}),
        "z" := Checkpoint("x", {})]

  /** The name is used again, and the head moves on. */
  lemma ReuseSavedAgain(s: State)
    requires Holds(s, "y", map["initial" := INITIAL, "y" := Checkpoint("x", {"old"})],
                   map["old" := 1], map[0 := Deletion("x", {"old"})])
    ensures Holds(Run(Run(s, Saving(SECOND_X, "new")), Saving(MOVED_ON, "new")), "z", LATER_CHECKPOINTS,
                  map["old" := 1, "new" := 1], map[0 := Deletion("x", {"old"})])
  {
    SaveRun(s, SECOND_X, "new", "y", s.checkpoints, s.refs, s.deletions);
    SaveRun(Run(s, Saving(SECOND_X, "new")), MOVED_ON, "new", "x", LATER_CHECKPOINTS - {"z"},
            map["old" := 1, "new" := 1], s.deletions);
  }

  /** The other deletion goes through. */
  lemma ReuseEnd(s: State)
    requires Holds(s, "z", LATER_CHECKPOINTS, map["old" := 1, "new" := 1], map[0 := Deletion("x", {"old"})])
    ensures var s' := Run(s, [DeleteExec(0)]);
            && At(s'.refs, "old") == 0 && Count(s'.checkpoints, "old") == 1
            && At(s'.refs, "new") == 1 && Count(s'.checkpoints, "new") == 0
  {
    EraseRun(s, 0);
    OldIsNamed(Remove(s, 0).checkpoints);
  }

  lemma OldIsNamed(checkpoints: map<CheckpointId, Checkpoint>)
    requires checkpoints == LATER_CHECKPOINTS - {"x"}
    ensures Count(checkpoints, "old") == 1 && Count(checkpoints, "new") == 0
  {
    assert Naming(checkpoints, "old") == {"y"} && Naming(checkpoints, "new") == {};
  }

  /** From a new workspace: one blob is counted 0 and named, another is counted 1 and not named. */
  lemma ReuseIsReachable()
    ensures var s := Run(Initial("initial", {}), ReuseSteps());
            && At(s.refs, "old") == 0 && Count(s.checkpoints, "old") == 1
            && At(s.refs, "new") == 1 && Count(s.checkpoints, "new") == 0
  {
    var s0 := Initial("initial", {});
    var first, second := Saving(FIRST_X, "old"), Saving(OTHER, "old");
    var third, fourth := Saving(SECOND_X, "new"), Saving(MOVED_ON, "new");
    ReuseParts(s0, first, second, third, fourth);
    ReuseSaved();
    var s2 := Run(Run(s0, first), second);
    ReuseLooked(s2);
    var s4 := Run(Run(s2, [ReadManifest(0, "x")]), [ReadManifest(1, "x")]);
    ReuseErased(s4);
    ReuseSavedAgain(Run(s4, [DeleteExec(1)]));
    ReuseEnd(Run(Run(Run(s4, [DeleteExec(1)]), third), fourth));
  }

  lemma ReuseParts(s: State, first: seq<Step>, second: seq<Step>, third: seq<Step>, fourth: seq<Step>)
    ensures var s4 := Run(Run(Run(Run(s, first), second), [ReadManifest(0, "x")]), [ReadManifest(1, "x")]);
            Run(s, first + (second + ([ReadManifest(0, "x")] + ([ReadManifest(1, "x")] +
                   ([DeleteExec(1)] + (third + (fourth + [DeleteExec(0)]))))))) ==
              Run(Run(Run(Run(s4, [DeleteExec(1)]), third), fourth), [DeleteExec(0)])
  {
    var end := [DeleteExec(1)] + (third + (fourth + [DeleteExec(0)]));
    RunFive(s, first, second, [ReadManifest(0, "x")], [ReadManifest(1, "x")], end);
    RunFour(Run(Run(Run(Run(s, first), second), [ReadManifest(0, "x")]), [ReadManifest(1, "x")]),
            [DeleteExec(1)], third, fourth, [DeleteExec(0)]);
  }
}
