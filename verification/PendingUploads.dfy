/**
 Pending-upload accounting. Uploads in flight are counted per path, a scan that meets one is deferred,
 and the last upload to finish asks for the full sweep the deferred scan needs. Every lock section is
 one step; steps of concurrent workers interleave freely.
 */
module PendingUploads {
  import opened Paths
  import opened Results

  datatype Pending = Pending(count: int, rescan: bool)

  type Table = map<Path, Pending>

  /** A tracked upload; `source` is the previous path of a rename that has one. */
  datatype Upload = Upload(path: Path, source: Option<Path>)

  function Incremented(table: Table, p: Path): Table {
    table[p := if p in table then table[p].(count := table[p].count + 1) else Pending(1, false)]
  }

  function Tracked(table: Table, op: Upload): Table {
    var first := Incremented(table, op.path);
    if op.source.Some? then Incremented(first, op.source.value) else first
  }

  function Flagged(table: Table, p: Path): Table {
    if p in table then table[p := table[p].(rescan := true)] else table
  }

  function Finished(table: Table, p: Path): Table {
    if p !in table then table
    else if table[p].count == 1 then table - {p}
    else table[p := table[p].(count := table[p].count - 1)]
  }

  /** The last upload of a path must ask for the sweep its deferred scans need. */
  predicate OwesSweep(table: Table, p: Path) {
    p in table && table[p] == Pending(1, true)
  }

  class Reconciler {
    var pendingUploads: Table
    /** How many full sweeps have been requested. */
    var sweeps: nat

    constructor ()
      ensures pendingUploads == map[] && sweeps == 0
    {
      pendingUploads, sweeps := map[], 0;
    }

    /** The lock section that counts a tracked upload. */
    method TrackUpload(op: Upload)
      modifies this`pendingUploads
      ensures pendingUploads == Tracked(old(pendingUploads), op)
    {
      var pending := if op.path in pendingUploads then pendingUploads[op.path] else Pending(0, false);
      pendingUploads := pendingUploads[op.path := pending.(count := pending.count + 1)];
      if op.source.Some? {
        var previous := if op.source.value in pendingUploads then pendingUploads[op.source.value]
                        else Pending(0, false);
        pendingUploads := pendingUploads[op.source.value := previous.(count := previous.count + 1)];
      }
    }

    method DeferScanForPendingUpload(p: Path) returns (exists': bool)
      modifies this`pendingUploads
      ensures exists' == (p in old(pendingUploads)) && pendingUploads == Flagged(old(pendingUploads), p)
    {
      exists' := p in pendingUploads;
      if exists' {
        pendingUploads := pendingUploads[p := pendingUploads[p].(rescan := true)];
      }
    }

    method FinishPendingUpload(p: Path)
      modifies this`pendingUploads, this`sweeps
      ensures pendingUploads == Finished(old(pendingUploads), p)
      ensures sweeps == old(sweeps) + if OwesSweep(old(pendingUploads), p) then 1 else 0
    {
      if p !in pendingUploads {
        return;
      }
      var pending := pendingUploads[p].(count := pendingUploads[p].count - 1);
      if pending.count == 0 {
        pendingUploads := pendingUploads - {p};
      } else {
        pendingUploads := pendingUploads[p := pending];
      }
      if pending.count == 0 && pending.rescan {
        sweeps := sweeps + 1;
      }
    }

    /** An upload that could not be queued gives its counts back and asks for a sweep. */
    method EnqueueTrackedUpload(op: Upload, accepted: bool)
      requires forall p :: p in pendingUploads ==> pendingUploads[p].count > 0
      modifies this`pendingUploads, this`sweeps
      ensures accepted ==> pendingUploads == Tracked(old(pendingUploads), op) && sweeps == old(sweeps)
      ensures !accepted ==> pendingUploads == old(pendingUploads) && sweeps > old(sweeps)
    {
      TrackUpload(op);
      if !accepted {
        FinishPendingUpload(op.path);
        if op.source.Some? {
          FinishPendingUpload(op.source.value);
        }
        sweeps := sweeps + 1;
      }
    }
  }

  // ---- Interleaved workers --------------------------------------------------------------

  /** An unfinished operation's claim on a path, as its path or as its rename source. */
  datatype Hold = Hold(op: nat, isSource: bool, path: Path)

  /** `deferred` are scans put off at a path and time; `owed` are workers that have left the lock and
      must still request a sweep; `lastSweep` is the time of the latest request. */
  datatype World = World(table: Table, holds: set<Hold>, deferred: set<(Path, nat)>, owed: set<nat>, lastSweep: nat,
                         clock: nat, nextOp: nat)

  datatype Step =
    | Enqueue(op: Upload)
    | Defer(path: Path)
    | Finish(hold: Hold)
    | RequestOwed(worker: nat)
    | RequestSweep

  function HoldsOf(id: nat, op: Upload): set<Hold> {
    {Hold(id, false, op.path)} + (if op.source.Some? then {Hold(id, true, op.source.value)} else {})
  }

  function Apply(w: World, step: Step): World {
    var now := w.clock + 1;
    match step
    case Enqueue(op) =>
      w.(table := Tracked(w.table, op), holds := w.holds + HoldsOf(w.nextOp, op), nextOp := w.nextOp + 1, clock := now)
    case Defer(p) =>
      w.(table := Flagged(w.table, p), clock := now,
         deferred := if p in w.table then w.deferred + {(p, now)} else w.deferred)
    case Finish(hold) =>
      if hold !in w.holds then w
      else w.(table := Finished(w.table, hold.path), holds := w.holds - {hold},
              owed := if OwesSweep(w.table, hold.path) then w.owed + {now} else w.owed, clock := now)
    case RequestOwed(worker) =>
      if worker !in w.owed then w else w.(owed := w.owed - {worker}, lastSweep := now, clock := now)
    case RequestSweep =>
      w.(lastSweep := now, clock := now)
  }

  function Run(w: World, steps: seq<Step>): World
    decreases |steps|
  {
    if steps == [] then w else Run(Apply(w, steps[0]), steps[1..])
  }

  function Naming(holds: set<Hold>, p: Path): set<Hold> {
    set h | h in holds && h.path == p
  }

  ghost predicate CountedAt(w: World, p: Path) {
    && (p in w.table <==> Naming(w.holds, p) != {})
    && (p in w.table ==> w.table[p].count == |Naming(w.holds, p)|)
  }

  /** A deferred scan is still flagged, or a sweep was requested after it, or will be by a worker that
      finished after it. */
  ghost predicate Remembered(w: World, p: Path, at: nat) {
    || (p in w.table && w.table[p].rescan)
    || w.lastSweep > at
    || exists t :: t in w.owed && t > at
  }

  ghost predicate Inv(w: World) {
    && (forall p :: CountedAt(w, p))
    && (forall d :: d in w.deferred ==> d.1 <= w.clock && Remembered(w, d.0, d.1))
    && (forall h :: h in w.holds ==> h.op < w.nextOp)
  }

  lemma NamingAdd(holds: set<Hold>, h: Hold, p: Path)
    requires h !in holds
    ensures Naming(holds + {h}, p) == if h.path == p then Naming(holds, p) + {h} else Naming(holds, p)
    ensures |Naming(holds + {h}, p)| == |Naming(holds, p)| + if h.path == p then 1 else 0
  {
    assert Naming(holds + {h}, p) == if h.path == p then Naming(holds, p) + {h} else Naming(holds, p);
  }

  lemma NamingRemove(holds: set<Hold>, h: Hold, p: Path)
    requires h in holds
    ensures |Naming(holds - {h}, p)| == |Naming(holds, p)| - if h.path == p then 1 else 0
    ensures h.path == p ==> h in Naming(holds, p)
    ensures h.path != p ==> Naming(holds - {h}, p) == Naming(holds, p)
  {
    assert (holds - {h}) + {h} == holds;
    NamingAdd(holds - {h}, h, p);
  }

  lemma CountsOne(table: Table, holds: set<Hold>, h: Hold, p: Path)
    requires h !in holds
    requires forall q ::
               (q in table <==> Naming(holds, q) != {}) && (q in table ==> table[q].count == |Naming(holds, q)|)
    ensures var table' := Incremented(table, h.path);
            && (p in table' <==> Naming(holds + {h}, p) != {})
            && (p in table' ==> table'[p].count == |Naming(holds + {h}, p)|)
  {
    NamingAdd(holds, h, p);
    if h.path !in table { assert Naming(holds, h.path) == {}; }
  }

  lemma EnqueueKeeps(w: World, op: Upload)
    requires Inv(w)
    ensures Inv(Apply(w, Enqueue(op)))
  {
    var w' := Apply(w, Enqueue(op));
    var first, table1 := Hold(w.nextOp, false, op.path), Incremented(w.table, op.path);
    assert forall p :: CountedAt(w, p) ==>
        (p in w.table <==> Naming(w.holds, p) != {}) && (p in w.table ==> w.table[p].count == |Naming(w.holds, p)|);
    forall p
      ensures (p in table1 <==> Naming(w.holds + {first}, p) != {})
      ensures (p in table1 ==> table1[p].count == |Naming(w.holds + {first}, p)|)
    {
      CountsOne(w.table, w.holds, first, p);
    }
    if op.source.Some? {
      var second := Hold(w.nextOp, true, op.source.value);
      assert w.holds + {first} + {second} == w'.holds;
      forall p ensures CountedAt(w', p) {
        CountsOne(table1, w.holds + {first}, second, p);
      }
    } else {
      assert w'.holds == w.holds + {first};
    }
    forall d | d in w'.deferred ensures Remembered(w', d.0, d.1) {
      assert Remembered(w, d.0, d.1);
    }
  }

  lemma FinishKeeps(w: World, h: Hold)
    requires Inv(w) && h in w.holds
    ensures Inv(Apply(w, Finish(h)))
  {
    var w' := Apply(w, Finish(h));
    forall p ensures CountedAt(w', p) {
      assert CountedAt(w, p);
      NamingRemove(w.holds, h, p);
    }
    forall d | d in w'.deferred ensures Remembered(w', d.0, d.1) {
      assert Remembered(w, d.0, d.1);
      assert CountedAt(w, h.path);
      if OwesSweep(w.table, h.path) {
        assert w.clock + 1 in w'.owed;
      }
      if t :| t in w.owed && t > d.1 { assert t in w'.owed; }
    }
  }

  lemma DeferKeeps(w: World, p: Path)
    requires Inv(w)
    ensures Inv(Apply(w, Defer(p)))
  {
    var w' := Apply(w, Defer(p));
    forall q ensures CountedAt(w', q) {
      assert CountedAt(w, q);
    }
    forall d | d in w'.deferred ensures Remembered(w', d.0, d.1) {
      assert d in w.deferred ==> Remembered(w, d.0, d.1);
    }
  }

  lemma SweepKeeps(w: World, step: Step)
    requires Inv(w) && (step.RequestOwed? || step.RequestSweep?)
    ensures Inv(Apply(w, step))
  {
    var w' := Apply(w, step);
    forall q ensures CountedAt(w', q) {
      assert CountedAt(w, q);
    }
    forall d | d in w'.deferred ensures Remembered(w', d.0, d.1) {
      assert Remembered(w, d.0, d.1);
    }
  }

  /** In every reachable state the counts are the unfinished operations naming each path, no count is
      zero, and no deferred scan is forgotten. */
  lemma {:induction false} EveryRunKeepsCounts(w: World, steps: seq<Step>)
    requires Inv(w)
    ensures Inv(Run(w, steps))
    decreases |steps|
  {
    if steps != [] {
      match steps[0] {
        case Enqueue(op) => EnqueueKeeps(w, op);
        case Defer(p) => DeferKeeps(w, p);
        case Finish(h) => if h in w.holds { FinishKeeps(w, h); }
        case RequestOwed(_) => SweepKeeps(w, steps[0]);
        case RequestSweep => SweepKeeps(w, steps[0]);
      }
      EveryRunKeepsCounts(Apply(w, steps[0]), steps[1..]);
    }
  }

  const INITIAL := World(map[], {}, {}, {}, 0, 0, 0)

  /** Once every upload has finished and every worker has moved on, no count remains and a sweep was
      requested after each deferred scan. */
  lemma DeferredScansAreSwept(steps: seq<Step>)
    ensures var w := Run(INITIAL, steps);
            w.holds == {} && w.owed == {} ==> w.table == map[] && forall d :: d in w.deferred ==> w.lastSweep > d.1
  {
    assert forall p :: CountedAt(INITIAL, p);
    EveryRunKeepsCounts(INITIAL, steps);
    var w := Run(INITIAL, steps);
    if w.holds == {} && w.owed == {} {
      forall p ensures p !in w.table {
        assert CountedAt(w, p);
      }
    }
  }
}
