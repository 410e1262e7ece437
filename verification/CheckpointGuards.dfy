/**
 Whole runs of saves and deletions: a save commits if and only if no watched key was written since it began,
 and a deletion removes its checkpoint if and only if nothing protects it. Both are stated by the steps of
 the run and by the stored checkpoints, not by the revisions a save carries.
 */
module CheckpointGuards {
  import opened Checkpoints
  import opened CheckpointRuns

  // ---- Where a save began -----------------------------------------------------------------

  /** The step begins a save of client `c`. */
  predicate Opens(s: State, step: Step, c: ClientId) {
    step.Watch? && step.c == c && c !in s.txns
  }

  /** The last step before `n` that begins a save of client `c`. */
  ghost function Opened(states: seq<State>, steps: seq<Step>, n: nat, c: ClientId): nat
    requires n <= |steps| < |states|
  {
    if n == 0 then 0
    else if Opens(states[n - 1], steps[n - 1], c) then n - 1 else Opened(states, steps, n - 1, c)
  }

  predicate SameSave(t: Txn, t': Txn) {
    t'.req == t.req && t'.metaRev == t.metaRev && t'.guardRev == t.guardRev
  }

  lemma OwnStep(s: State, step: Step, c: ClientId)
    requires step == ReadHead(c) || step == CheckFree(c) || (step.ReadRef? && step.c == c)
    requires c in Apply(s, step).txns
    ensures c in s.txns && SameSave(s.txns[c], Apply(s, step).txns[c])
  {
  }

  lemma EndStep(s: State, c: ClientId, x: ClientId)
    requires c in Apply(s, Exec(x)).txns
    ensures c in s.txns && SameSave(s.txns[c], Apply(s, Exec(x)).txns[c])
  {
  }

  /** A save under way keeps its request and the revisions it began with. */
  lemma TxnStep(s: State, step: Step, c: ClientId)
    requires c in Apply(s, step).txns
    ensures if Opens(s, step, c)
            then Apply(s, step).txns[c] == Txn(step.req, s.metaRev, s.guardRev, Watched, map[])
            else c in s.txns && SameSave(s.txns[c], Apply(s, step).txns[c])
  {
    if step == ReadHead(c) || step == CheckFree(c) || (step.ReadRef? && step.c == c) {
      OwnStep(s, step, c);
    } else if step.Exec? {
      EndStep(s, c, step.c);
    }
  }

  lemma {:induction false} OpenedBack(states: seq<State>, steps: seq<Step>, n: nat, c: ClientId)
    requires Execution(states, steps) && n <= |steps| && c in states[n].txns
    ensures var i, t := Opened(states, steps, n, c), states[n].txns[c];
            && i < n && Opens(states[i], steps[i], c) && t.req == steps[i].req
            && t.metaRev == states[i].metaRev && t.guardRev == states[i].guardRev
    decreases n
  {
    if n > 0 {
      assert StepAt(states, steps, n - 1);
      TxnStep(states[n - 1], steps[n - 1], c);
      if !Opens(states[n - 1], steps[n - 1], c) {
        OpenedBack(states, steps, n - 1, c);
      }
    }
  }

  // ---- The watched keys ---------------------------------------------------------------------

  /** The step writes a watched key: the generation, the change stream or the import lock, or, by
      committing a save, the meta key. */
  ghost predicate Disturbs(states: seq<State>, steps: seq<Step>, k: nat)
    requires k < |steps| < |states|
  {
    steps[k].TouchGuard? || states[k + 1].log != states[k].log
  }

  lemma RevStep(s: State, step: Step)
    ensures var s' := Apply(s, step);
            && s'.metaRev == s.metaRev + (if s'.log != s.log then 1 else 0)
            && s'.guardRev == s.guardRev + (if step.TouchGuard? then 1 else 0)
  {
    if Commits(s, step) {
      assert |Apply(s, step).log| == |s.log| + 1;
    }
  }

  /** The revisions are the same at two points of a run if and only if no step in between writes a watched
      key. */
  lemma {:induction false} RevsAlong(states: seq<State>, steps: seq<Step>, i: nat, n: nat)
    requires Execution(states, steps) && i <= n <= |steps|
    ensures states[i].metaRev <= states[n].metaRev && states[i].guardRev <= states[n].guardRev
    ensures states[n].metaRev == states[i].metaRev && states[n].guardRev == states[i].guardRev <==>
              forall k :: i <= k < n ==> !Disturbs(states, steps, k)
    decreases n
  {
    if i < n {
      RevsAlong(states, steps, i, n - 1);
      assert StepAt(states, steps, n - 1);
      RevStep(states[n - 1], steps[n - 1]);
      if Disturbs(states, steps, n - 1) {
        assert !(forall k :: i <= k < n ==> !Disturbs(states, steps, k));
      }
    }
  }

  /** The save has read everything it is to write. */
  ghost predicate Ready(s: State, c: ClientId) {
    c in s.txns && ReadyToExec(s.txns[c])
  }

  /** What a committed save leaves: a new head on top of the one it expected, and one more of each
      reference than it read. */
  ghost predicate SavedBy(s: State, req: Request, s': State) {
    && s.head == req.expectedHead && req.id !in s.checkpoints
    && s'.head == req.id && s'.log == s.log + [(s.head, req.id)]
    && s'.checkpoints == s.checkpoints[req.id := Checkpoint(s.head, req.blobs)]
    && (forall b :: b in req.blobs ==> At(s'.refs, b) > At(s.refs, b))
    && (forall b :: b !in req.blobs ==> At(s'.refs, b) == At(s.refs, b))
  }

  /** Nothing that is stored changes. */
  predicate SameStore(s: State, s': State) {
    s'.head == s.head && s'.checkpoints == s.checkpoints && s'.refs == s.refs && s'.log == s.log
  }

  lemma UnchangedSaves(s: State, c: ClientId)
    requires Inv(s) && Ready(s, c) && s.txns[c].metaRev == s.metaRev && s.txns[c].guardRev == s.guardRev
    ensures SavedBy(s, s.txns[c].req, Apply(s, Exec(c)))
  {
    assert TxnValid(s, s.txns[c]);
  }

  lemma ChangedFails(s: State, c: ClientId)
    requires Ready(s, c) && !(s.txns[c].metaRev == s.metaRev && s.txns[c].guardRev == s.guardRev)
    ensures SameStore(s, Apply(s, Exec(c))) && c !in Apply(s, Exec(c)).txns
  {
  }

  /** In every run, the EXEC of a save that is ready commits if and only if since its WATCH no import took
      or gave back the lock, the generation and the change stream did not move, and no save committed;
      otherwise it is given up, and nothing that is stored changes. */
  lemma ExecIff(states: seq<State>, steps: seq<Step>, e: nat)
    requires Execution(states, steps) && e < |steps| && steps[e].Exec? && Ready(states[e], steps[e].c)
    ensures var i := Opened(states, steps, e, steps[e].c);
            && i < e && Opens(states[i], steps[i], steps[e].c)
            && if forall k :: i < k < e ==> !Disturbs(states, steps, k)
               then SavedBy(states[e], steps[i].req, states[e + 1])
               else SameStore(states[e], states[e + 1]) && steps[e].c !in states[e + 1].txns
  {
    var c := steps[e].c;
    var i := Opened(states, steps, e, c);
    OpenedBack(states, steps, e, c);
    assert StepAt(states, steps, e) && StepAt(states, steps, i);
    assert !Disturbs(states, steps, i);
    RevsAlong(states, steps, i, e);
    InvAlong(states, steps, e);
    if forall k :: i < k < e ==> !Disturbs(states, steps, k) {
      UnchangedSaves(states[e], c);
    } else {
      ChangedFails(states[e], c);
    }
  }

  /** Only such an EXEC adds a checkpoint or moves the head. */
  lemma OnlyExecSaves(s: State, step: Step, id: CheckpointId)
    requires (id !in s.checkpoints && id in Apply(s, step).checkpoints) || Apply(s, step).head != s.head
    ensures step.Exec? && Ready(s, step.c)
  {
  }

  // ---- Protected checkpoints ---------------------------------------------------------------------

  /** Something stands on the checkpoint. */
  predicate Protected(s: State, id: CheckpointId) {
    id == s.head || id == s.defaultId || id == s.baseline
  }

  /** A deletion removes exactly its checkpoint, if and only if that is stored and not protected. */
  lemma DeletionIff(s: State, d: ClientId)
    requires Inv(s) && d in s.deletions
    ensures var s', id := Apply(s, DeleteExec(d)), s.deletions[d].id;
            && s'.checkpoints == (if Protected(s, id) then s.checkpoints else s.checkpoints - {id})
            && s'.head == s.head && s'.log == s.log && d !in s'.deletions
  {
    assert s.deletions[d].blobs <= s.refs.Keys;
    if s.deletions[d].id !in s.checkpoints {
      assert s.checkpoints - {s.deletions[d].id} == s.checkpoints;
    }
  }

  lemma ProtectedStep(s: State, step: Step, id: CheckpointId)
    requires Inv(s) && id in s.checkpoints && Protected(s, id)
    ensures id in Apply(s, step).checkpoints
  {
    if step.DeleteExec? && step.d in s.deletions {
      DeletionIff(s, step.d);
    }
  }

  /** A stored checkpoint stays for as long as it is the head, the default or what a restore started
      from. */
  lemma {:induction false} ProtectedStays(states: seq<State>, steps: seq<Step>, i: nat, n: nat, id: CheckpointId)
    requires Execution(states, steps) && i <= n <= |steps| && id in states[i].checkpoints
    requires forall k :: i <= k < n ==> Protected(states[k], id)
    ensures id in states[n].checkpoints
    decreases n
  {
    if i < n {
      ProtectedStays(states, steps, i, n - 1, id);
      InvAlong(states, steps, n - 1);
      assert StepAt(states, steps, n - 1);
      ProtectedStep(states[n - 1], steps[n - 1], id);
    }
  }

  lemma BaselineStep(s: State, step: Step)
    ensures Apply(s, step).baseline == if step.SetBaseline? then step.id else s.baseline
  {
  }

  /** What a restore started from stays stored until the restore names another checkpoint, or none. */
  lemma {:induction false} RestoreBaselineStays(states: seq<State>, steps: seq<Step>, i: nat, n: nat)
    requires Execution(states, steps) && i < n <= |steps| && steps[i].SetBaseline?
    requires steps[i].id in states[i].checkpoints && forall k :: i < k < n ==> !steps[k].SetBaseline?
    ensures states[n].baseline == steps[i].id && steps[i].id in states[n].checkpoints
    decreases n
  {
    assert StepAt(states, steps, n - 1);
    BaselineStep(states[n - 1], steps[n - 1]);
    if i + 1 < n {
      RestoreBaselineStays(states, steps, i, n - 1);
      InvAlong(states, steps, n - 1);
      ProtectedStep(states[n - 1], steps[n - 1], steps[i].id);
    }
  }
}
