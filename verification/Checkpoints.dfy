/**
 The optimistic checkpoint commit and checkpoint deletion. Any number of clients run the WATCH / read /
 EXEC sequence of a save, interleaved with each other, with writers of the other watched keys, and with
 deletions. A save watches the workspace meta key and the guard keys, but not the blob references it
 reads. A deletion reads the manifest of its checkpoint before it watches anything, and never watches it;
 everything it reads after that it watches, so that part of it is one step.
 */
module Checkpoints {
  type ClientId = nat
  type CheckpointId = string
  type BlobId = string

  datatype Checkpoint = Checkpoint(parent: CheckpointId, blobs: set<BlobId>)

  datatype Request = Request(expectedHead: CheckpointId, id: CheckpointId, blobs: set<BlobId>)

  /** How far a transaction has come. */
  datatype Phase = Watched | HeadChecked | Reading

  /** A save under way: revisions of the watched keys at WATCH, and the incremented references read so far. */
  datatype Txn = Txn(req: Request, metaRev: nat, guardRev: nat, phase: Phase, counted: map<BlobId, nat>)

  /** A deletion under way: its checkpoint, and the blobs of the manifest it has read. */
  datatype Deletion = Deletion(id: CheckpointId, blobs: set<BlobId>)

  datatype State = State(
    head: CheckpointId,
    defaultId: CheckpointId,                        // the checkpoint the workspace was created with
    baseline: CheckpointId,                         // what an interrupted restore started from, or ""
    metaRev: nat,                                   // writes of the workspace meta key
    guardRev: nat,                                  // writes of generation, change stream and import lock
    checkpoints: map<CheckpointId, Checkpoint>,
    refs: map<BlobId, nat>,
    txns: map<ClientId, Txn>,
    deletions: map<ClientId, Deletion>,
    log: seq<(CheckpointId, CheckpointId)>)         // committed (parent, id) pairs in commit order

  datatype Step =
    | Watch(c: ClientId, req: Request)
    | ReadHead(c: ClientId)
    | CheckFree(c: ClientId)
    | ReadRef(c: ClientId, blob: BlobId)
    | Exec(c: ClientId)
    | TouchGuard
    | SetBaseline(id: CheckpointId)
    | ReadManifest(d: ClientId, id: CheckpointId)
    | DeleteExec(d: ClientId)

  function At(m: map<BlobId, nat>, b: BlobId): nat {
    if b in m then m[b] else 0
  }

  /** The committed checkpoints whose manifests name a blob. */
  function Naming(checkpoints: map<CheckpointId, Checkpoint>, b: BlobId): set<CheckpointId> {
    set id | id in checkpoints && b in checkpoints[id].blobs
  }

  function Count(checkpoints: map<CheckpointId, Checkpoint>, b: BlobId): nat {
    |Naming(checkpoints, b)|
  }

  /** How far the stored count of a blob is above the number of checkpoints naming it. */
  function Error(s: State, b: BlobId): int {
    At(s.refs, b) - Count(s.checkpoints, b)
  }

  /** A manifest entry, as far as blob accounting reads it; an inline entry names no blob. */
  datatype ManifestEntry = ManifestEntry(blobId: BlobId, size: nat)

  /** Each blob a manifest names counts once, however many entries name it. */
  method ManifestBlobRefs(entries: map<string, ManifestEntry>) returns (refs: map<BlobId, nat>)
    ensures forall p :: p in entries && entries[p].blobId != "" ==> entries[p].blobId in refs
    ensures forall b :: b in refs ==> b != "" && exists p :: p in entries && entries[p] == ManifestEntry(b, refs[b])
  {
    refs := map[];
    var todo := entries.Keys;
    while todo != {}
      invariant todo <= entries.Keys
      invariant forall p :: p in entries && p !in todo && entries[p].blobId != "" ==> entries[p].blobId in refs
      invariant forall b :: b in refs ==> b != "" && exists p :: p in entries && entries[p] == ManifestEntry(b, refs[b])
      decreases |todo|
    {
      var p :| p in todo;
      if entries[p].blobId != "" {
        refs := refs[entries[p].blobId := entries[p].size];
      }
      todo := todo - {p};
    }
  }

  // ---- Steps -------------------------------------------------------------------

  predicate ReadyToExec(t: Txn) {
    t.phase == Reading && t.counted.Keys == t.req.blobs
  }

  /** EXEC goes through only when no watched key was written since WATCH. */
  predicate Unchanged(s: State, t: Txn) {
    t.metaRev == s.metaRev && t.guardRev == s.guardRev
  }

  function Commit(s: State, c: ClientId): State
    requires c in s.txns
  {
    var t := s.txns[c];
    s.(head := t.req.id,
       metaRev := s.metaRev + 1,
       checkpoints := s.checkpoints[t.req.id := Checkpoint(t.req.expectedHead, t.req.blobs)],
       refs := s.refs + t.counted,
       txns := s.txns - {c},
       log := s.log + [(t.req.expectedHead, t.req.id)])
  }

  /** A checkpoint can go when it is stored and nothing stands on it; a reference that is missing fails
      the deletion. */
  predicate Removable(s: State, x: Deletion) {
    && x.id in s.checkpoints && x.id != s.head && x.id != s.defaultId && x.id != s.baseline
    && x.blobs <= s.refs.Keys
  }

  function Lowered(refs: map<BlobId, nat>, blobs: set<BlobId>): map<BlobId, nat> {
    map b | b in refs :: if b in blobs && refs[b] > 0 then refs[b] - 1 else refs[b]
  }

  /** The checkpoint goes, and the blobs of the manifest that was read are counted down. */
  function Remove(s: State, d: ClientId): State
    requires d in s.deletions
  {
    s.(checkpoints := s.checkpoints - {s.deletions[d].id},
       refs := Lowered(s.refs, s.deletions[d].blobs),
       deletions := s.deletions - {d})
  }

  /** One step of the system; a step that is not enabled changes nothing. */
  function Apply(s: State, step: Step): State {
    match step
    case Watch(c, req) =>
      if c in s.txns then s
      else s.(txns := s.txns[c := Txn(req, s.metaRev, s.guardRev, Watched, map[])])
    case ReadHead(c) =>
      if c in s.txns && s.txns[c].phase == Watched then
        if s.head == s.txns[c].req.expectedHead then s.(txns := s.txns[c := s.txns[c].(phase := HeadChecked)])
        else s.(txns := s.txns - {c})
      else s
    case CheckFree(c) =>
      if c in s.txns && s.txns[c].phase == HeadChecked then
        if s.txns[c].req.id !in s.checkpoints then s.(txns := s.txns[c := s.txns[c].(phase := Reading)])
        else s.(txns := s.txns - {c})
      else s
    case ReadRef(c, b) =>
      if Reads(s, step, c, b) then
        s.(txns := s.txns[c := s.txns[c].(counted := s.txns[c].counted[b := At(s.refs, b) + 1])])
      else s
    case Exec(c) =>
      if c in s.txns && ReadyToExec(s.txns[c]) then
        if Unchanged(s, s.txns[c]) then Commit(s, c) else s.(txns := s.txns - {c})
      else s
    case TouchGuard => s.(guardRev := s.guardRev + 1)
    case SetBaseline(id) => s.(baseline := id)
    case ReadManifest(d, id) =>
      if Looks(s, step, d) then s.(deletions := s.deletions[d := Deletion(id, s.checkpoints[id].blobs)]) else s
    case DeleteExec(d) =>
      if d in s.deletions then
        if Removable(s, s.deletions[d]) then Remove(s, d) else s.(deletions := s.deletions - {d})
      else s
  }

  /** The step reads the reference of `b` for the save of client `c`. */
  predicate Reads(s: State, step: Step, c: ClientId, b: BlobId) {
    && step == ReadRef(c, b) && c in s.txns && s.txns[c].phase == Reading
    && b in s.txns[c].req.blobs && b !in s.txns[c].counted
  }

  /** The step reads the manifest that the deletion of client `d` goes by. */
  predicate Looks(s: State, step: Step, d: ClientId) {
    step.ReadManifest? && step.d == d && d !in s.deletions && step.id in s.checkpoints
  }

  /** The step commits a save. */
  predicate Commits(s: State, step: Step) {
    step.Exec? && step.c in s.txns && ReadyToExec(s.txns[step.c]) && Unchanged(s, s.txns[step.c])
  }

  /** The step removes a checkpoint. */
  predicate Removes(s: State, step: Step) {
    step.DeleteExec? && step.d in s.deletions && Removable(s, s.deletions[step.d])
  }

  /** The step counts `b` down. */
  predicate Lowers(s: State, step: Step, b: BlobId) {
    Removes(s, step) && b in s.deletions[step.d].blobs && At(s.refs, b) > 0
  }

  function Run(s: State, steps: seq<Step>): State
    decreases |steps|
  {
    if steps == [] then s else Run(Apply(s, steps[0]), steps[1..])
  }

  // ---- Invariant -----------------------------------------------------------------

  /** Parent links form one chain ending at the head. */
  ghost predicate LinearHistory(s: State) {
    && s.log != []
    && s.log[|s.log| - 1].1 == s.head
    && (forall i :: 0 < i < |s.log| ==> s.log[i].0 == s.log[i - 1].1)
  }

  /** While the meta key is unwritten, what the save has checked still holds, and a reference it has read
      can only have fallen. */
  ghost predicate TxnValid(s: State, t: Txn) {
    && t.metaRev <= s.metaRev && t.counted.Keys <= t.req.blobs
    && (t.metaRev == s.metaRev ==>
          && (t.phase != Watched ==> s.head == t.req.expectedHead)
          && (t.phase == Reading ==> t.req.id !in s.checkpoints)
          && (forall b :: b in t.counted ==> At(s.refs, b) < t.counted[b]))
  }

  /** Every blob a stored manifest names, or a deletion has read of, has a reference. */
  ghost predicate Referenced(s: State) {
    && (forall id :: id in s.checkpoints ==> s.checkpoints[id].blobs <= s.refs.Keys)
    && (forall d :: d in s.deletions ==> s.deletions[d].blobs <= s.refs.Keys)
  }

  ghost predicate Inv(s: State) {
    && LinearHistory(s) && s.head in s.checkpoints && s.defaultId in s.checkpoints && Referenced(s)
    && (forall c :: c in s.txns ==> TxnValid(s, s.txns[c]))
  }

  lemma CommitKeepsInv(s: State, c: ClientId)
    requires Inv(s) && c in s.txns && ReadyToExec(s.txns[c]) && Unchanged(s, s.txns[c])
    ensures Inv(Commit(s, c))
  {
    var s' := Commit(s, c);
    forall d | d in s'.txns
      ensures TxnValid(s', s'.txns[d])
    {
      assert TxnValid(s, s.txns[d]);
    }
    CommitReferenced(s, c);
  }

  lemma CommitReferenced(s: State, c: ClientId)
    requires Referenced(s) && c in s.txns && ReadyToExec(s.txns[c])
    ensures Referenced(Commit(s, c))
  {
    var s' := Commit(s, c);
    assert s'.refs.Keys == s.refs.Keys + s.txns[c].req.blobs;
  }

  lemma RemoveKeepsInv(s: State, d: ClientId)
    requires Inv(s) && d in s.deletions && Removable(s, s.deletions[d])
    ensures Inv(Remove(s, d))
  {
    var s' := Remove(s, d);
    forall c | c in s'.txns
      ensures TxnValid(s', s'.txns[c])
    {
      assert TxnValid(s, s.txns[c]);
    }
    assert s'.refs.Keys == s.refs.Keys;
  }

  lemma SetTxn(s: State, c: ClientId, t: Txn)
    requires Inv(s) && TxnValid(s, t)
    ensures Inv(s.(txns := s.txns[c := t]))
  {
    var s' := s.(txns := s.txns[c := t]);
    forall d | d in s'.txns
      ensures TxnValid(s', s'.txns[d])
    {
      assert d != c ==> TxnValid(s, s.txns[d]);
    }
  }

  lemma DropTxn(s: State, c: ClientId)
    requires Inv(s)
    ensures Inv(s.(txns := s.txns - {c}))
  {
    var s' := s.(txns := s.txns - {c});
    forall d | d in s'.txns
      ensures TxnValid(s', s'.txns[d])
    {
      assert TxnValid(s, s.txns[d]);
    }
  }

  /** Fields no save has read. */
  lemma AsideKeepsInv(s: State, guardRev: nat, baseline: CheckpointId, deletions: map<ClientId, Deletion>)
    requires Inv(s) && forall d :: d in deletions ==> deletions[d].blobs <= s.refs.Keys
    ensures Inv(s.(guardRev := guardRev, baseline := baseline, deletions := deletions))
  {
    var s' := s.(guardRev := guardRev, baseline := baseline, deletions := deletions);
    forall d | d in s.txns
      ensures TxnValid(s', s.txns[d])
    {
      assert TxnValid(s, s.txns[d]);
    }
  }

  lemma HeadReadKeepsInv(s: State, c: ClientId)
    requires Inv(s)
    ensures Inv(Apply(s, ReadHead(c)))
  {
    DropTxn(s, c);
    if c in s.txns && s.txns[c].phase == Watched && s.head == s.txns[c].req.expectedHead {
      SetTxn(s, c, s.txns[c].(phase := HeadChecked));
    }
  }

  lemma FreeCheckKeepsInv(s: State, c: ClientId)
    requires Inv(s)
    ensures Inv(Apply(s, CheckFree(c)))
  {
    DropTxn(s, c);
    if c in s.txns && s.txns[c].phase == HeadChecked && s.txns[c].req.id !in s.checkpoints {
      SetTxn(s, c, s.txns[c].(phase := Reading));
    }
  }

  lemma RefReadKeepsInv(s: State, c: ClientId, b: BlobId)
    requires Inv(s)
    ensures Inv(Apply(s, ReadRef(c, b)))
  {
    if Reads(s, ReadRef(c, b), c, b) {
      SetTxn(s, c, s.txns[c].(counted := s.txns[c].counted[b := At(s.refs, b) + 1]));
    }
  }

  lemma ExecKeepsInv(s: State, c: ClientId)
    requires Inv(s)
    ensures Inv(Apply(s, Exec(c)))
  {
    DropTxn(s, c);
    if Commits(s, Exec(c)) { CommitKeepsInv(s, c); }
  }

  lemma LookKeepsInv(s: State, d: ClientId, id: CheckpointId)
    requires Inv(s)
    ensures Inv(Apply(s, ReadManifest(d, id)))
  {
    if Looks(s, ReadManifest(d, id), d) {
      AsideKeepsInv(s, s.guardRev, s.baseline, s.deletions[d := Deletion(id, s.checkpoints[id].blobs)]);
    }
  }

  lemma DeleteKeepsInv(s: State, d: ClientId)
    requires Inv(s)
    ensures Inv(Apply(s, DeleteExec(d)))
  {
    if Removes(s, DeleteExec(d)) {
      RemoveKeepsInv(s, d);
    } else {
      AsideKeepsInv(s, s.guardRev, s.baseline, s.deletions - {d});
    }
  }

  lemma StepKeepsInv(s: State, step: Step)
    requires Inv(s)
    ensures Inv(Apply(s, step))
  {
    match step
    case Watch(c, req) => SetTxn(s, c, Txn(req, s.metaRev, s.guardRev, Watched, map[]));
    case ReadHead(c) => HeadReadKeepsInv(s, c);
    case CheckFree(c) => FreeCheckKeepsInv(s, c);
    case ReadRef(c, b) => RefReadKeepsInv(s, c, b);
    case Exec(c) => ExecKeepsInv(s, c);
    case TouchGuard => AsideKeepsInv(s, s.guardRev + 1, s.baseline, s.deletions);
    case SetBaseline(id) => AsideKeepsInv(s, s.guardRev, id, s.deletions);
    case ReadManifest(d, id) => LookKeepsInv(s, d, id);
    case DeleteExec(d) => DeleteKeepsInv(s, d);
  }

  /** Over every interleaving the history is linear, what an open save has checked holds for as long as
      its commit can go through, and no deletion fails for want of a reference. */
  lemma {:induction false} EveryRunKeepsInv(s: State, steps: seq<Step>)
    requires Inv(s)
    ensures Inv(Run(s, steps))
    decreases |steps|
  {
    if steps != [] {
      StepKeepsInv(s, steps[0]);
      EveryRunKeepsInv(Apply(s, steps[0]), steps[1..]);
    }
  }

  // ---- What a step does to the error of a count -------------------------------------

  lemma CountInsert(checkpoints: map<CheckpointId, Checkpoint>, id: CheckpointId, cp: Checkpoint, b: BlobId)
    requires id !in checkpoints
    ensures Count(checkpoints[id := cp], b) == Count(checkpoints, b) + (if b in cp.blobs then 1 else 0)
  {
    assert Naming(checkpoints[id := cp], b) == Naming(checkpoints, b) + (if b in cp.blobs then {id} else {});
  }

  lemma CountRemove(checkpoints: map<CheckpointId, Checkpoint>, id: CheckpointId, b: BlobId)
    requires id in checkpoints
    ensures Count(checkpoints, b) == Count(checkpoints - {id}, b) + (if b in checkpoints[id].blobs then 1 else 0)
  {
    assert checkpoints == (checkpoints - {id})[id := checkpoints[id]];
    CountInsert(checkpoints - {id}, id, checkpoints[id], b);
  }

  /** A commit writes back what it read: the error grows by how far the reference fell meanwhile. */
  lemma CommitError(s: State, c: ClientId, b: BlobId)
    requires Inv(s) && c in s.txns && ReadyToExec(s.txns[c]) && Unchanged(s, s.txns[c])
    ensures Error(Commit(s, c), b) ==
              Error(s, b) + if b in s.txns[c].req.blobs then s.txns[c].counted[b] - 1 - At(s.refs, b) else 0
  {
    var t := s.txns[c];
    assert TxnValid(s, t);
    CountInsert(s.checkpoints, t.req.id, Checkpoint(t.req.expectedHead, t.req.blobs), b);
  }

  /** A deletion counts down what it read of, and removes what is stored. */
  lemma RemoveError(s: State, d: ClientId, b: BlobId)
    requires d in s.deletions && Removable(s, s.deletions[d])
    ensures Error(Remove(s, d), b) ==
              Error(s, b) + (if b in s.checkpoints[s.deletions[d].id].blobs then 1 else 0)
                          - (if Lowers(s, DeleteExec(d), b) then 1 else 0)
  {
    CountRemove(s.checkpoints, s.deletions[d].id, b);
  }

  lemma QuietStore(s: State, step: Step)
    requires !Removes(s, step) && !Commits(s, step)
    ensures var s' := Apply(s, step);
            s'.checkpoints == s.checkpoints && s'.refs == s.refs && s'.log == s.log && s'.metaRev == s.metaRev
  {
  }

  // ---- Concurrent saves only -------------------------------------------------------

  /** Every count is exact, and no reference has fallen since an open save read it. */
  ghost predicate NoMisses(s: State) {
    && (forall b :: Error(s, b) == 0)
    && (forall c :: c in s.txns ==> NothingMissed(s, s.txns[c]))
  }

  ghost predicate NothingMissed(s: State, t: Txn) {
    t.metaRev == s.metaRev ==> forall b :: b in t.counted ==> t.counted[b] == At(s.refs, b) + 1
  }

  /** The log is the stored chain: every checkpoint once, each with its parent. */
  ghost predicate StoredChain(s: State) {
    && (forall i :: 0 <= i < |s.log| ==> s.log[i].1 in s.checkpoints && s.checkpoints[s.log[i].1].parent == s.log[i].0)
    && (forall i, j :: 0 <= i < j < |s.log| ==> s.log[i].1 != s.log[j].1)
    && |s.checkpoints| == |s.log|
  }

  lemma CommitChain(s: State, c: ClientId)
    requires Inv(s) && StoredChain(s) && c in s.txns && ReadyToExec(s.txns[c]) && Unchanged(s, s.txns[c])
    ensures StoredChain(Commit(s, c))
  {
    var t, s' := s.txns[c], Commit(s, c);
    assert TxnValid(s, t);
    assert s'.checkpoints.Keys == s.checkpoints.Keys + {t.req.id};
  }

  lemma CommitExact(s: State, c: ClientId)
    requires Inv(s) && NoMisses(s) && c in s.txns && ReadyToExec(s.txns[c]) && Unchanged(s, s.txns[c])
    ensures NoMisses(Commit(s, c))
  {
    var s' := Commit(s, c);
    forall b ensures Error(s', b) == 0 {
      assert NothingMissed(s, s.txns[c]) && Error(s, b) == 0;
      CommitError(s, c, b);
    }
    forall d | d in s'.txns
      ensures NothingMissed(s', s'.txns[d])
    {
      assert TxnValid(s, s.txns[d]);
    }
  }

  /** Steps that do not commit or delete leave the stored keys alone, and what saves read is current. */
  lemma QuietStep(s: State, step: Step)
    requires NoMisses(s) && !Removes(s, step) && !Commits(s, step)
    ensures NoMisses(Apply(s, step))
  {
    var s' := Apply(s, step);
    QuietStore(s, step);
    forall b ensures Error(s', b) == 0 {
      assert Error(s, b) == 0;
    }
    forall c | c in s'.txns
      ensures NothingMissed(s', s'.txns[c])
    {
      QuietTxn(s, step, c);
    }
  }

  lemma QuietTxn(s: State, step: Step, c: ClientId)
    requires !Removes(s, step) && !Commits(s, step) && c in Apply(s, step).txns
    requires c in s.txns ==> NothingMissed(s, s.txns[c])
    ensures NothingMissed(Apply(s, step), Apply(s, step).txns[c])
  {
    QuietStore(s, step);
  }

  lemma SaveStepExact(s: State, step: Step)
    requires Inv(s) && NoMisses(s) && StoredChain(s) && !step.DeleteExec?
    ensures NoMisses(Apply(s, step)) && StoredChain(Apply(s, step))
  {
    if Commits(s, step) {
      CommitExact(s, step.c);
      CommitChain(s, step.c);
    } else {
      QuietStep(s, step);
      QuietStore(s, step);
    }
  }

  /** Under every interleaving of concurrent saves, each reference count equals the number of
      committed manifests naming the blob, and the stored parent links are one chain to the head. */
  lemma {:induction false} ConcurrentSavesAreExact(s: State, steps: seq<Step>)
    requires Inv(s) && NoMisses(s) && StoredChain(s)
    requires forall i :: 0 <= i < |steps| ==> !steps[i].DeleteExec?
    ensures var s' := Run(s, steps);
            && LinearHistory(s') && StoredChain(s') && NoMisses(s')
            && forall b :: At(s'.refs, b) == Count(s'.checkpoints, b)
    decreases |steps|
  {
    if steps != [] {
      StepKeepsInv(s, steps[0]);
      SaveStepExact(s, steps[0]);
      ConcurrentSavesAreExact(Apply(s, steps[0]), steps[1..]);
    } else {
      forall b ensures At(s.refs, b) == Count(s.checkpoints, b) {
        assert Error(s, b) == 0;
      }
    }
  }

  /** Nothing is under way, and every count is exact. */
  ghost predicate AtRest(s: State) {
    Inv(s) && s.txns == map[] && s.deletions == map[] && forall b :: Error(s, b) == 0
  }

  /** A new workspace: its first checkpoint is also its default. */
  function Initial(id: CheckpointId, blobs: set<BlobId>): State {
    State(id, id, "", 0, 0, map[id := Checkpoint("", blobs)], map b | b in blobs :: 1, map[], map[], [("", id)])
  }

  lemma InitialHolds(id: CheckpointId, blobs: set<BlobId>)
    ensures AtRest(Initial(id, blobs)) && NoMisses(Initial(id, blobs)) && StoredChain(Initial(id, blobs))
  {
    var s := Initial(id, blobs);
    forall b
      ensures Error(s, b) == 0
    {
      assert Naming(s.checkpoints, b) == if b in blobs then {id} else {};
    }
  }

  /** Saves alone, from a new workspace on, keep every count exact. */
  lemma SavesFromInitialAreExact(id: CheckpointId, blobs: set<BlobId>, steps: seq<Step>, b: BlobId)
    requires forall i :: 0 <= i < |steps| ==> !steps[i].DeleteExec?
    ensures var s := Run(Initial(id, blobs), steps);
            At(s.refs, b) == Count(s.checkpoints, b) && LinearHistory(s) && StoredChain(s)
  {
    InitialHolds(id, blobs);
    ConcurrentSavesAreExact(Initial(id, blobs), steps);
  }

  // ---- The two races ------------------------------------------------------------------

  /** A deletion right before the commit of a save that has read the reference: the deletion does not
      write the meta key, so EXEC succeeds and writes back the old count. */
  lemma DeletionRaceOvercounts(s: State, c: ClientId, d: ClientId, b: BlobId)
    requires Inv(s) && c in s.txns && ReadyToExec(s.txns[c]) && Unchanged(s, s.txns[c]) && b in s.txns[c].counted
    requires Lowers(s, DeleteExec(d), b) && b in s.checkpoints[s.deletions[d].id].blobs
    ensures var s' := Apply(Apply(s, DeleteExec(d)), Exec(c));
            s'.head == s.txns[c].req.id && Error(s', b) > Error(s, b)
  {
    var s1 := Remove(s, d);
    RemoveKeepsInv(s, d);
    RemoveError(s, d, b);
    assert TxnValid(s, s.txns[c]);
    CommitError(s1, c, b);
  }

  /** A deletion that goes by the manifest of an earlier checkpoint of that name takes away a reference
      that another checkpoint needs. */
  lemma StaleDeletionUndercounts(s: State, d: ClientId, b: BlobId)
    requires Lowers(s, DeleteExec(d), b) && b !in s.checkpoints[s.deletions[d].id].blobs
    ensures Error(Apply(s, DeleteExec(d)), b) == Error(s, b) - 1
  {
    RemoveError(s, d, b);
  }
}
