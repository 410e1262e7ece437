/**
 The version-stamped sync baseline. Workers plan against an entry, do slow work without the lock, and
 come back with the version they saw; the guards below must never let them touch a newer entry.
 Every step is one lock section.
 */
module SyncVersions {
  import opened Paths
  import opened Results

  /** `meta` stands for the recorded type, size, hashes and times. */
  datatype Entry = Entry(version: nat, deleted: bool, isDir: bool, mode: nat, meta: string)

  datatype State = State(entries: map<Path, Entry>, next: nat)

  /** Work that carries the version it was planned against; no version means no entry was seen. */
  datatype Guarded =
    | RecoveryAction(path: Path, seen: Option<nat>, entry: Entry)
    | ConfirmedRemoteDelete(path: Path, seen: Option<nat>)
    | RecoveryDelete(path: Path, seen: Option<nat>)
    | RenameDiscard(path: Path, seen: Option<nat>)
    | DeleteAck(path: Path, seen: Option<nat>)
    | ChmodAck(path: Path, seen: Option<nat>, mode: nat)
    | RemoteMissing(path: Path, seen: Option<nat>)

  datatype Step =
    | Install(path: Path, entry: Entry)
    | RenameAck(source: Path, path: Path, entry: Entry)
    | LocalDelete(path: Path)
    | ForgetTombstones(aged: set<Path>)
    | ReviveTombstone(path: Path)
    | DeleteConflict(path: Path)
    | Guard(op: Guarded)

  function Stamp(s: State, p: Path, e: Entry): State {
    State(s.entries[p := e.(version := s.next)], s.next + 1)
  }

  function Forget(s: State, p: Path): State {
    s.(entries := s.entries - {p})
  }

  /** Drops a path and everything below it. */
  function ForgetTree(s: State, p: Path): State {
    s.(entries := map q | q in s.entries && q != p && !Under(q, p) :: s.entries[q])
  }

  function SeenVersion(s: State, p: Path): Option<nat> {
    if p in s.entries then Some(s.entries[p].version) else None
  }

  predicate Tombstoned(s: State, p: Path) {
    p in s.entries && s.entries[p].deleted
  }

  function ApplyGuarded(s: State, op: Guarded): State {
    var e := Lookup(s.entries, op.path);
    if SeenVersion(s, op.path) != op.seen then s else
    match op
    case RecoveryAction(p, _, entry) => Stamp(s, p, entry)
    case ConfirmedRemoteDelete(p, _) => ForgetTree(s, p)
    case RecoveryDelete(p, _) => if e.Some? && e.value.deleted then Forget(s, p) else s
    case RenameDiscard(p, _) => if e.Some? && !e.value.deleted && op.seen != Some(0) then Forget(s, p) else s
    case DeleteAck(p, _) => if e.Some? && e.value.deleted && op.seen != Some(0) then Forget(s, p) else s
    case ChmodAck(p, _, mode) =>
      if e.Some? && !e.value.deleted && e.value.isDir then Stamp(s, p, e.value.(mode := mode)) else s
    case RemoteMissing(p, _) => if e.Some? && !e.value.deleted then Stamp(s, p, e.value) else s
  }

  function Apply(s: State, step: Step): State {
    match step
    case Install(p, entry) => Stamp(s, p, entry)
    case RenameAck(source, p, entry) => Stamp(Forget(s, source), p, entry)
    case LocalDelete(p) =>
      if p in s.entries && !s.entries[p].deleted then Stamp(s, p, s.entries[p].(deleted := true)) else s
    case ForgetTombstones(aged) =>
      s.(entries := map q | q in s.entries && !(q in aged && s.entries[q].deleted) :: s.entries[q])
    case ReviveTombstone(p) => if Tombstoned(s, p) then Stamp(s, p, s.entries[p].(deleted := false)) else s
    case DeleteConflict(p) => if Tombstoned(s, p) then Forget(s, p) else s
    case Guard(op) => ApplyGuarded(s, op)
  }

  function Run(s: State, steps: seq<Step>): State
    decreases |steps|
  {
    if steps == [] then s else Run(Apply(s, steps[0]), steps[1..])
  }

  // ---- Stamps are never reused -------------------------------------------------------------

  ghost predicate Inv(s: State) {
    s.next > 0 && forall p :: p in s.entries ==> s.entries[p].version < s.next
  }

  /** Whatever differs from an earlier state carries a stamp issued since. */
  ghost predicate Succeeds(s: State, s': State) {
    && s.next <= s'.next
    && forall p :: p in s'.entries ==>
         Lookup(s.entries, p) == Some(s'.entries[p]) || s.next <= s'.entries[p].version < s'.next
  }

  lemma StepSucceeds(s: State, step: Step)
    requires Inv(s)
    ensures Succeeds(s, Apply(s, step)) && Inv(Apply(s, step))
  {
  }

  lemma {:induction false} RunSucceeds(s: State, steps: seq<Step>)
    requires Inv(s)
    ensures Succeeds(s, Run(s, steps)) && Inv(Run(s, steps))
    decreases |steps|
  {
    if steps != [] {
      StepSucceeds(s, steps[0]);
      RunSucceeds(Apply(s, steps[0]), steps[1..]);
    }
  }

  /** The stamps a run issues, in order. */
  function Stamps(s: State, steps: seq<Step>): seq<nat>
    decreases |steps|
  {
    if steps == [] then []
    else (if Apply(s, steps[0]).next > s.next then [s.next] else []) + Stamps(Apply(s, steps[0]), steps[1..])
  }

  /** No version is issued twice, and none that was already stored is issued again. */
  lemma {:induction false} StampsAreNew(s: State, steps: seq<Step>)
    requires Inv(s)
    ensures forall i :: 0 <= i < |Stamps(s, steps)| ==> Stamps(s, steps)[i] == s.next + i
    ensures Run(s, steps).next == s.next + |Stamps(s, steps)|
    decreases |steps|
  {
    if steps != [] {
      StepSucceeds(s, steps[0]);
      StampsAreNew(Apply(s, steps[0]), steps[1..]);
    }
  }

  // ---- Guards -----------------------------------------------------------------------------

  /** The work was planned in this state. */
  ghost predicate PlannedIn(s: State, op: Guarded) {
    op.seen == SeenVersion(s, op.path)
  }

  /** Guarded work takes effect only on the very entry it was planned against: whatever else happened
      in between, nothing installed, stamped or recreated at its path since is changed or removed. */
  lemma GuardedActsOnPlannedEntry(s: State, steps: seq<Step>, op: Guarded)
    requires Inv(s) && PlannedIn(s, op)
    ensures ApplyGuarded(Run(s, steps), op) != Run(s, steps) ==>
              Lookup(Run(s, steps).entries, op.path) == Lookup(s.entries, op.path)
    ensures op.path in Run(s, steps).entries && Run(s, steps).entries[op.path].version >= s.next ==>
              ApplyGuarded(Run(s, steps), op) == Run(s, steps)
  {
    RunSucceeds(s, steps);
  }

  /** Guarded work other than a subtree deletion leaves every other path alone. */
  lemma GuardedIsLocal(s: State, op: Guarded, q: Path)
    requires q != op.path && !(op.ConfirmedRemoteDelete? && Under(q, op.path))
    ensures Lookup(ApplyGuarded(s, op).entries, q) == Lookup(s.entries, q)
  {
  }

  /** An entry stamped since the work was planned is changed by it if and only if the work is the
      confirmed deletion of a directory above it whose own entry is still the planned one; it is then
      forgotten, because only the version of the directory is compared. */
  lemma NewerEntryForgottenIff(s: State, steps: seq<Step>, op: Guarded, q: Path)
    requires Inv(s) && PlannedIn(s, op)
    requires q in Run(s, steps).entries && Run(s, steps).entries[q].version >= s.next
    ensures var s' := Run(s, steps);
            var forgotten := op.ConfirmedRemoteDelete? && Under(q, op.path) && SeenVersion(s', op.path) == op.seen;
            Lookup(ApplyGuarded(s', op).entries, q) == if forgotten then None else Lookup(s'.entries, q)
  {
    RunSucceeds(s, steps);
    if q == op.path {
      GuardedActsOnPlannedEntry(s, steps, op);
    } else if !(op.ConfirmedRemoteDelete? && Under(q, op.path)) {
      GuardedIsLocal(Run(s, steps), op, q);
    }
  }

  /** So a file recorded while its directory was being removed is forgotten with it. */
  lemma NewerDescendantIsLost()
    ensures var planned := State(map["d" := Entry(1, false, true, 493, "")], 2);
            var op := ConfirmedRemoteDelete("d", Some(1));
            var s := Run(planned, [Install("d/f", Entry(0, false, false, 420, "new"))]);
            && Inv(planned) && PlannedIn(planned, op)
            && "d/f" in s.entries && s.entries["d/f"].version >= planned.next && "d/f" !in ApplyGuarded(s, op).entries
  {
    var planned := State(map["d" := Entry(1, false, true, 493, "")], 2);
    var steps := [Install("d/f", Entry(0, false, false, 420, "new"))];
    assert steps[1..] == [];
    assert Run(planned, steps) == Apply(planned, steps[0]);
    assert "d/f"[..1] == "d" && Under("d/f", "d");
    NewerEntryForgottenIff(planned, steps, ConfirmedRemoteDelete("d", Some(1)), "d/f");
  }

  /** Two steps carry no version: a refused remote deletion revives, and a refused upload of a deletion
      drops, whatever tombstone it finds. Either changes an entry stamped since it was planned if and only
      if that is a tombstone, whereas guarded work at the path never does. */
  lemma UnguardedTouchTombstones(s: State, steps: seq<Step>, op: Guarded, p: Path)
    requires Inv(s) && PlannedIn(s, op) && op.path == p
    requires p in Run(s, steps).entries && Run(s, steps).entries[p].version >= s.next
    ensures var s' := Run(s, steps);
            && (Lookup(Apply(s', DeleteConflict(p)).entries, p) != Lookup(s'.entries, p) <==> s'.entries[p].deleted)
            && (Lookup(Apply(s', ReviveTombstone(p)).entries, p) != Lookup(s'.entries, p) <==> s'.entries[p].deleted)
            && Lookup(ApplyGuarded(s', op).entries, p) == Lookup(s'.entries, p)
  {
    NewerEntryForgottenIff(s, steps, op, p);
  }

  /** So a deletion made after the work was planned can be forgotten by it. */
  lemma NewerTombstoneIsLost()
    ensures var old' := State(map["a" := Entry(1, true, false, 420, "")], 2);
            var steps := [Install("a", Entry(0, false, false, 420, "new")), LocalDelete("a")];
            && Inv(old') && Tombstoned(Run(old', steps), "a") && Run(old', steps).entries["a"].version >= old'.next
            && "a" !in Apply(Run(old', steps), DeleteConflict("a")).entries
  {
    var old' := State(map["a" := Entry(1, true, false, 420, "")], 2);
    var s1 := Apply(old', Install("a", Entry(0, false, false, 420, "new")));
    var s2 := Apply(s1, LocalDelete("a"));
    var steps := [Install("a", Entry(0, false, false, 420, "new")), LocalDelete("a")];
    assert steps[1..] == [LocalDelete("a")];
    assert [LocalDelete("a")][1..] == [];
    assert Run(old', steps) == Run(s1, [LocalDelete("a")]) == Run(s2, []) == s2;
  }

  /** The step takes a live entry at `q` away. */
  predicate Drops(s: State, step: Step, q: Path) {
    match step
    case RenameAck(source, p, _) => source == q && p != q
    case Guard(ConfirmedRemoteDelete(p, seen)) => (q == p || Under(q, p)) && SeenVersion(s, p) == seen
    case Guard(RenameDiscard(p, seen)) => q == p && SeenVersion(s, p) == seen && seen != Some(0)
    case _ => false
  }

  /** A live entry is forgotten if and only if the step completes a rename away from it, discards the rename
      that made it, or completes a remote deletion of it or of a directory above it; ageing and the
      acknowledgement of deletions never do it. */
  lemma LiveEntryDroppedIff(s: State, step: Step, q: Path)
    requires q in s.entries && !s.entries[q].deleted
    ensures q !in Apply(s, step).entries <==> Drops(s, step, q)
  {
  }

  // ---- The lock sections ----------------------------------------------------------------------

  class StateWriter {
    var entries: map<Path, Entry>
    var next: nat

    constructor (entries: map<Path, Entry>, next: nat)
      ensures View() == State(entries, next)
    {
      this.entries, this.next := entries, next;
    }

    function View(): State
      reads this
    {
      State(entries, next)
    }

    method NextVersion() returns (v: nat)
      modifies this`next
      ensures v == old(next) && next == v + 1
    {
      v := next;
      next := next + 1;
    }

    method StageSyncEntry(p: Path, entry: Entry) returns (version: nat)
      modifies this
      ensures View() == Apply(old(View()), Install(p, entry)) && SeenVersion(View(), p) == Some(version)
    {
      version := NextVersion();
      entries := entries[p := entry.(version := version)];
    }

    method UpdateActionState(p: Path, seen: Option<nat>, entry: Entry) returns (updated: bool)
      modifies this
      ensures View() == Apply(old(View()), Guard(RecoveryAction(p, seen, entry)))
      ensures updated == (SeenVersion(old(View()), p) == seen)
    {
      if (p in entries) != seen.Some? || (p in entries && entries[p].version != seen.value) {
        return false;
      }
      var version := NextVersion();
      entries := entries[p := entry.(version := version)];
      return true;
    }

    method DiscardPendingRename(p: Path, renameVersion: nat)
      modifies this
      ensures View() == Apply(old(View()), Guard(RenameDiscard(p, Some(renameVersion))))
    {
      if p in entries && !entries[p].deleted && renameVersion != 0 && entries[p].version == renameVersion {
        entries := entries - {p};
      }
    }

    method HandleLocalDelete(p: Path) returns (deleteVersion: Option<nat>)
      modifies this
      ensures View() == Apply(old(View()), LocalDelete(p))
      ensures deleteVersion.Some? ==> Tombstoned(View(), p) && SeenVersion(View(), p) == deleteVersion
    {
      if p !in entries || entries[p].deleted {
        return None;
      }
      var stored := entries[p];
      var version := NextVersion();
      entries := entries[p := stored.(deleted := true, version := version)];
      return Some(version);
    }

    method AcknowledgeDelete(p: Path, deleteVersion: nat)
      modifies this
      ensures View() == Apply(old(View()), Guard(DeleteAck(p, Some(deleteVersion))))
    {
      if p in entries && entries[p].deleted && deleteVersion != 0 && entries[p].version == deleteVersion {
        entries := entries - {p};
      }
    }

    method AcknowledgeChmod(p: Path, stored: Option<nat>, mode: nat) returns (current: bool)
      modifies this
      ensures View() == Apply(old(View()), Guard(ChmodAck(p, stored, mode)))
      ensures !current ==> View() == old(View())
    {
      if p !in entries || entries[p].deleted || !entries[p].isDir || stored.None? ||
         entries[p].version != stored.value {
        return false;
      }
      var entry := entries[p];
      var version := NextVersion();
      entries := entries[p := entry.(mode := mode, version := version)];
      return true;
    }

    method ConfirmMissing(p: Path, stored: nat) returns (current: bool)
      modifies this
      ensures View() == Apply(old(View()), Guard(RemoteMissing(p, Some(stored))))
      ensures !current ==> View() == old(View())
    {
      if p !in entries || entries[p].deleted || entries[p].version != stored {
        return false;
      }
      var entry := entries[p];
      var version := NextVersion();
      entries := entries[p := entry.(version := version)];
      return true;
    }

    /** Forgets the baseline of a completed inbound deletion and of everything below it. */
    method ApplySyncRemoteDelete(p: Path, seen: Option<nat>) returns (skipped: bool)
      modifies this
      ensures View() == Apply(old(View()), Guard(ConfirmedRemoteDelete(p, seen)))
      ensures skipped == (SeenVersion(old(View()), p) != seen)
    {
      if (p in entries) != seen.Some? || (p in entries && entries[p].version != seen.value) {
        return true;
      }
      var todo := entries.Keys;
      while todo != {}
        invariant todo <= old(entries).Keys && next == old(next)
        invariant entries == map q | q in old(entries) && (q in todo || (q != p && !Under(q, p))) :: old(entries)[q]
        decreases |todo|
      {
        var q :| q in todo;
        if q == p || Under(q, p) {
          entries := entries - {q};
        }
        todo := todo - {q};
      }
      return false;
    }
  }
}
