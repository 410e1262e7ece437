/**
 The comparison of the local tree before and after the old workers drained. Conflict moves
 recorded meanwhile may rename subtrees; everything else must be as it was.
 */
module SaveMoves {
  import opened Results
  import opened Paths
  import opened SavePlan

  /** A scanned local entry with the identity of the file behind it. */
  datatype Candidate = Candidate(entry: SaveEntry, identity: string)

  type Candidates = map<Path, Candidate>

  /** A recorded rename; `None` is a path outside the saved tree. */
  datatype Move = Move(source: Option<Path>, target: Option<Path>, identity: string)

  function RelocateAll(moves: seq<(Path, Path)>, p: Path): Path {
    if moves == [] then p
    else Relocate(moves[|moves| - 1].0, moves[|moves| - 1].1, RelocateAll(moves[..|moves| - 1], p))
  }

  // ---- The bijection kept while moves are replayed -----------------------------

  /** `at` sends every original path to where its entry now is, `from` is its inverse. */
  datatype Renaming = Renaming(at: map<Path, Path>, from: map<Path, Path>)

  ghost predicate Tracks(before: Candidates, expected: Candidates, r: Renaming) {
    && r.at.Keys == before.Keys && r.from.Keys == expected.Keys
    && (forall p :: p in before ==> r.at[p] in expected && r.from[r.at[p]] == p && expected[r.at[p]] == before[p])
    && (forall k :: k in expected ==> r.from[k] in before && r.at[r.from[k]] == k)
  }

  function Rebind(r: Renaming, rel: Path, dest: Path): Renaming
    requires rel in r.from
  {
    Renaming(r.at[r.from[rel] := dest], (r.from - {rel})[dest := r.from[rel]])
  }

  lemma RebindTracks(before: Candidates, expected: Candidates, r: Renaming, rel: Path, dest: Path)
    requires Tracks(before, expected, r) && rel in expected && dest !in expected
    ensures Tracks(before, expected[dest := expected[rel]] - {rel}, Rebind(r, rel, dest))
  {
  }

  lemma RelocateInjective(source: Path, target: Path, a: Path, b: Path)
    requires Within(a, source) && Within(b, source)
    ensures Relocate(source, target, a) == Relocate(source, target, b) <==> a == b
  {
    assert a == source + a[|source|..] && b == source + b[|source|..];
    assert Relocate(source, target, a)[|target|..] == a[|source|..];
    assert Relocate(source, target, b)[|target|..] == b[|source|..];
  }

  /** Neither end of the move lies inside the other, as for a conflict copy beside its original. */
  predicate Apart(source: Path, target: Path) {
    !Within(target, source) && !Within(source, target)
  }

  lemma Nested(p: Path, a: Path, b: Path)
    requires Within(p, a) && Within(p, b)
    ensures Within(a, b) || Within(b, a)
  {
    if |a| < |b| {
      assert b[..|a|] == p[..|a|] && b[|a|] == p[|a|];
    } else if |b| < |a| {
      assert a[..|b|] == p[..|b|] && a[|b|] == p[|b|];
    } else {
      assert a == p[..|a|] == b;
    }
  }

  lemma RelocatedOutside(source: Path, target: Path, p: Path)
    requires Within(p, source) && Apart(source, target)
    ensures !Within(Relocate(source, target, p), source)
  {
    var dest := Relocate(source, target, p);
    assert Within(dest, target) by {
      assert dest[..|target|] == target;
    }
    if Within(dest, source) {
      Nested(dest, source, target);
    }
  }

  /** Some destination is taken before the move. */
  ghost predicate Clash(expected: Candidates, source: Path, target: Path) {
    exists k :: k in expected && Within(k, source) && Relocate(source, target, k) in expected
  }

  // ---- One move ------------------------------------------------------------------

  datatype Replay = Replay(expected: Candidates, moved: set<Path>)

  /** Only entries that moved have left their original path, and moved entries are present. */
  ghost predicate Consistent(before: Candidates, state: Replay, r: Renaming) {
    && Tracks(before, state.expected, r) && state.moved <= state.expected.Keys
    && forall k :: k in state.expected && k !in state.moved ==> r.from[k] == k
  }

  /** Part of the subtree has been renamed: `done` holds the original paths already renamed. */
  ghost predicate Moving(before: Candidates, r: Renaming, state: Replay, source: Path, target: Path,
                         now: Replay, r': Renaming, todo: set<Path>) {
    && r'.at.Keys == r.at.Keys == before.Keys
    && (forall k :: k in todo ==> k in state.expected && Within(k, source))
    && (forall p :: p in before ==>
          r'.at[p] == if Renamed(r.at[p], source, todo) then Relocate(source, target, r.at[p]) else r.at[p])
    && (forall p :: p in before ==>
          (r'.at[p] in now.moved <==> r.at[p] in state.moved || Renamed(r.at[p], source, todo)))
  }

  predicate Renamed(k: Path, source: Path, todo: set<Path>) {
    Within(k, source) && k !in todo
  }

  lemma MoveStep(before: Candidates, r: Renaming, state: Replay, source: Path, target: Path,
                 now: Replay, r': Renaming, todo: set<Path>, rel: Path)
    requires Consistent(before, state, r) && Consistent(before, now, r')
    requires Moving(before, r, state, source, target, now, r', todo) && rel in todo
    requires rel in now.expected && Relocate(source, target, rel) !in now.expected
    ensures var dest := Relocate(source, target, rel);
            var next := Replay(now.expected[dest := now.expected[rel]] - {rel}, now.moved - {rel} + {dest});
            && Consistent(before, next, Rebind(r', rel, dest))
            && Moving(before, r, state, source, target, next, Rebind(r', rel, dest), todo - {rel})
  {
    var dest := Relocate(source, target, rel);
    RebindTracks(before, now.expected, r', rel, dest);
    var q := r.from[rel];
    assert r'.at[q] == rel;
  }

  /** In a move between separate subtrees a taken destination was taken from the start. */
  lemma TakenFromStart(before: Candidates, r: Renaming, state: Replay, source: Path, target: Path,
                       now: Replay, r': Renaming, todo: set<Path>, rel: Path)
    requires Consistent(before, state, r) && Consistent(before, now, r')
    requires Moving(before, r, state, source, target, now, r', todo) && rel in todo && Apart(source, target)
    ensures Relocate(source, target, rel) in now.expected <==> Relocate(source, target, rel) in state.expected
  {
    var dest := Relocate(source, target, rel);
    RelocatedOutside(source, target, rel);
    if dest in now.expected {
      var p := r'.from[dest];
      if Renamed(r.at[p], source, todo) {
        RelocateInjective(source, target, r.at[p], rel);
      }
    }
    if dest in state.expected {
      assert r'.at[r.from[dest]] == dest;
    }
  }

  /** Renames every entry of the subtree, in whatever order the map yields them. */
  method MoveSubtree(ghost before: Candidates, ghost r: Renaming, state: Replay, source: Path, target: Path)
    returns (out: Option<Replay>, ghost r': Renaming)
    requires Consistent(before, state, r)
    ensures out.Some? ==>
              Consistent(before, out.value, r') && Moving(before, r, state, source, target, out.value, r', {})
    ensures Apart(source, target) ==> (out.Some? <==> !Clash(state.expected, source, target))
  {
    var expected, moved := state.expected, state.moved;
    var todo := set rel | rel in expected && Within(rel, source);
    r' := r;
    while todo != {}
      invariant todo <= expected.Keys
      invariant Consistent(before, Replay(expected, moved), r')
      invariant Moving(before, r, state, source, target, Replay(expected, moved), r', todo)
      invariant Apart(source, target) ==>
                  forall k :: k in state.expected && Renamed(k, source, todo) ==>
                    Relocate(source, target, k) !in state.expected
      decreases |todo|
    {
      var rel :| rel in todo;
      var dest := Relocate(source, target, rel);
      if Apart(source, target) {
        TakenFromStart(before, r, state, source, target, Replay(expected, moved), r', todo, rel);
      }
      if dest in expected {
        return None, r';
      }
      MoveStep(before, r, state, source, target, Replay(expected, moved), r', todo, rel);
      r' := Rebind(r', rel, dest);
      expected := expected[dest := expected[rel]] - {rel};
      moved := moved - {rel} + {dest};
      todo := todo - {rel};
    }
    out := Some(Replay(expected, moved));
  }

  // ---- The whole comparison --------------------------------------------------------

  /** The after tree is the before tree under `at`: one-to-one, onto, with equal entries. */
  ghost predicate RenamedTree(before: Candidates, after: Candidates, at: map<Path, Path>) {
    && at.Keys == before.Keys
    && (forall p :: p in before ==> at[p] in after && EqualEntry(before[p].entry, after[at[p]].entry))
    && (forall p, q :: p in before && q in before && at[p] == at[q] ==> p == q)
    && (forall k :: k in after ==> exists p :: p in before && at[p] == k)
  }

  ghost predicate SameIdentity(before: Candidates, after: Candidates, at: map<Path, Path>, moved: set<Path>)
    requires RenamedTree(before, after, at)
  {
    forall p :: p in before && p in moved ==> after[at[p]].identity == before[p].identity
  }

  /** Where every entry is, and which original entries moved. */
  datatype Positions = Positions(at: map<Path, Path>, moved: set<Path>)

  /** The reference effect of a move between separate subtrees. `None` when the source has another
      identity or a destination is taken. */
  ghost function After(before: Candidates, pos: Option<Positions>, m: Move): Option<Positions> {
    if pos.None? || pos.value.at.Keys != before.Keys || m.source.None? || m.target.None? then None
    else
      var at := pos.value.at;
      if !Present(at, m.source.value) then pos
      else if !IdentityMatches(before, at, m) || Taken(at, m.source.value, m.target.value) then None
      else Some(Positions(map p | p in before :: Relocate(m.source.value, m.target.value, at[p]),
                          pos.value.moved + set p | p in before && Within(at[p], m.source.value)))
  }

  ghost function Replayed(before: Candidates, moves: seq<Move>): Option<Positions> {
    if moves == [] then Some(Positions(map p | p in before :: p, {}))
    else After(before, Replayed(before, moves[..|moves| - 1]), moves[|moves| - 1])
  }

  ghost predicate Present(at: map<Path, Path>, source: Path) {
    exists p :: p in at && at[p] == source
  }

  ghost predicate IdentityMatches(before: Candidates, at: map<Path, Path>, m: Move)
    requires at.Keys == before.Keys && m.source.Some?
  {
    forall p :: p in at && at[p] == m.source.value ==> before[p].identity != "" && before[p].identity == m.identity
  }

  ghost predicate Taken(at: map<Path, Path>, source: Path, target: Path) {
    exists p, q :: p in at && q in at && Within(at[p], source) && at[q] == Relocate(source, target, at[p])
  }

  predicate Separate(m: Move) {
    m.source.Some? && m.target.Some? ==> Apart(m.source.value, m.target.value)
  }

  ghost predicate AllSeparate(moves: seq<Move>) {
    forall i :: 0 <= i < |moves| ==> Separate(moves[i])
  }

  /** The original paths of the entries that moved. */
  ghost function MovedKeys(before: Candidates, r: Renaming, moved: set<Path>): set<Path>
    requires r.at.Keys == before.Keys
  {
    set p | p in before && r.at[p] in moved
  }

  /** The positions a replay state stands for. */
  ghost function Standing(before: Candidates, state: Replay, r: Renaming): Positions
    requires r.at.Keys == before.Keys
  {
    Positions(r.at, MovedKeys(before, r, state.moved))
  }

  /** The conditions of the reference, read off the replay state. */
  lemma ReplayConditions(before: Candidates, state: Replay, r: Renaming, m: Move)
    requires Consistent(before, state, r) && m.source.Some? && m.target.Some?
    ensures Present(r.at, m.source.value) <==> m.source.value in state.expected
    ensures m.source.value in state.expected ==>
              (IdentityMatches(before, r.at, m) <==>
               state.expected[m.source.value].identity != "" && state.expected[m.source.value].identity == m.identity)
    ensures Taken(r.at, m.source.value, m.target.value) <==> Clash(state.expected, m.source.value, m.target.value)
  {
    var source, target := m.source.value, m.target.value;
    if source in state.expected {
      assert r.at[r.from[source]] == source;
    }
    if Clash(state.expected, source, target) {
      var k :| k in state.expected && Within(k, source) && Relocate(source, target, k) in state.expected;
      assert r.at[r.from[k]] == k && r.at[r.from[Relocate(source, target, k)]] == Relocate(source, target, k);
    }
  }

  lemma MovedPositions(before: Candidates, r: Renaming, state: Replay, source: Path, target: Path, next: Replay,
                       r': Renaming)
    requires Consistent(before, state, r) && Consistent(before, next, r')
    requires Moving(before, r, state, source, target, next, r', {})
    ensures r'.at == map p | p in before :: Relocate(source, target, r.at[p])
    ensures MovedKeys(before, r', next.moved) ==
              MovedKeys(before, r, state.moved) + set p | p in before && Within(r.at[p], source)
  {
  }

  lemma EqualTreesAreRenamed(before: Candidates, r: Renaming, state: Replay, after: Candidates)
    requires Consistent(before, state, r)
    ensures RenamedTree(before, after, r.at) <==>
              && state.expected.Keys == after.Keys
              && forall k :: k in after ==> EqualEntry(state.expected[k].entry, after[k].entry)
  {
    if RenamedTree(before, after, r.at) {
      forall k ensures k in state.expected <==> k in after {
        if k in state.expected { assert r.at[r.from[k]] == k; }
      }
    }
    if state.expected.Keys == after.Keys {
      forall k | k in after ensures exists p :: p in before && r.at[p] == k {
        assert r.at[r.from[k]] == k;
      }
    }
  }

  method EqualCandidates(expected: Candidates, after: Candidates) returns (ok: bool)
    ensures ok <==>
              expected.Keys == after.Keys && forall k :: k in after ==> EqualEntry(expected[k].entry, after[k].entry)
  {
    var want: SaveTree := map k | k in expected :: expected[k].entry;
    var got: SaveTree := map k | k in after :: after[k].entry;
    assert want.Keys == expected.Keys && got.Keys == after.Keys;
    ok := CompareSyncSaveTrees(want, got);
  }

  method MovedKeepIdentity(expected: Candidates, moved: set<Path>, after: Candidates) returns (ok: bool)
    requires moved <= expected.Keys && moved <= after.Keys
    ensures ok <==> forall k :: k in moved ==> after[k].identity == expected[k].identity
  {
    var todo := moved;
    while todo != {}
      invariant todo <= moved
      invariant forall k :: k in moved && k !in todo ==> after[k].identity == expected[k].identity
      decreases |todo|
    {
      var rel :| rel in todo;
      if after[rel].identity != expected[rel].identity {
        return false;
      }
      todo := todo - {rel};
    }
    ok := true;
  }

  lemma MovedIdentities(before: Candidates, r: Renaming, state: Replay, after: Candidates)
    requires Consistent(before, state, r) && RenamedTree(before, after, r.at) && state.moved <= after.Keys
    ensures SameIdentity(before, after, r.at, MovedKeys(before, r, state.moved)) <==>
              forall k :: k in state.moved ==> after[k].identity == state.expected[k].identity
  {
    if SameIdentity(before, after, r.at, MovedKeys(before, r, state.moved)) {
      forall k | k in state.moved ensures after[k].identity == state.expected[k].identity {
        assert r.from[k] in MovedKeys(before, r, state.moved);
      }
    }
  }

  /** Ordinary tree equality, then the identity of everything that moved. */
  method MatchesAfter(ghost before: Candidates, ghost r: Renaming, state: Replay, after: Candidates) returns (ok: bool)
    requires Consistent(before, state, r)
    ensures ok <==>
              RenamedTree(before, after, r.at) && SameIdentity(before, after, r.at, MovedKeys(before, r, state.moved))
  {
    EqualTreesAreRenamed(before, r, state, after);
    ok := EqualCandidates(state.expected, after);
    if ok {
      MovedIdentities(before, r, state, after);
      ok := MovedKeepIdentity(state.expected, state.moved, after);
    }
  }

  /** The replay agrees with the reference. */
  ghost predicate AgreesWith(pos: Option<Positions>, before: Candidates, out: Option<Replay>, r: Renaming)
    requires out.Some? ==> Consistent(before, out.value, r)
  {
    if out.None? then pos.None? else pos == Some(Standing(before, out.value, r))
  }

  /** One recorded move; moves whose source is not in the tree change nothing. */
  method ReplayMove(ghost before: Candidates, ghost r: Renaming, state: Replay, move: Move)
    returns (out: Option<Replay>, ghost r': Renaming, ghost applied: bool)
    requires Consistent(before, state, r)
    ensures out.Some? ==> Consistent(before, out.value, r')
    ensures applied ==> move.source.Some? && move.target.Some?
    ensures out.Some? ==> forall p :: p in before ==>
              r'.at[p] == if applied then Relocate(move.source.value, move.target.value, r.at[p]) else r.at[p]
    ensures Separate(move) ==> AgreesWith(After(before, Some(Standing(before, state, r)), move), before, out, r')
  {
    r', applied := r, false;
    if move.source.None? || move.target.None? {
      return None, r', applied;
    }
    ReplayConditions(before, state, r, move);
    var source, target := move.source.value, move.target.value;
    if source !in state.expected {
      return Some(state), r', applied;
    }
    if state.expected[source].identity == "" || state.expected[source].identity != move.identity {
      return None, r', applied;
    }
    out, r' := MoveSubtree(before, r, state, source, target);
    applied := true;
    if out.Some? {
      MovedPositions(before, r, state, source, target, out.value, r');
    }
  }

  /** Replays the recorded moves on the before tree. */
  method ReplayMoves(before: Candidates, moves: seq<Move>)
    returns (out: Option<Replay>, ghost r: Renaming, ghost applied: seq<(Path, Path)>)
    ensures out.Some? ==>
              Consistent(before, out.value, r) && forall p :: p in before ==> r.at[p] == RelocateAll(applied, p)
    ensures forall a :: a in applied ==> RecordedIn(moves, a)
    ensures AllSeparate(moves) ==> AgreesWith(Replayed(before, moves), before, out, r)
  {
    var state := Replay(before, {});
    r := Renaming(map p | p in before :: p, map p | p in before :: p);
    applied := [];
    assert MovedKeys(before, r, {}) == {};
    for i := 0 to |moves|
      invariant Consistent(before, state, r)
      invariant forall p :: p in before ==> r.at[p] == RelocateAll(applied, p)
      invariant forall a :: a in applied ==> RecordedIn(moves, a)
      invariant AllSeparate(moves) ==> Replayed(before, moves[..i]) == Some(Standing(before, state, r))
    {
      NextMove(before, moves, i);
      var next, r', done := ReplayMove(before, r, state, moves[i]);
      if next.None? {
        return None, r', applied;
      }
      if done {
        applied := Recorded(before, moves, i, applied, r, r');
      }
      state, r := next.value, r';
    }
    assert moves[..|moves|] == moves;
    out := Some(state);
  }

  ghost predicate RecordedIn(moves: seq<Move>, step: (Path, Path)) {
    exists i :: 0 <= i < |moves| && moves[i].source == Some(step.0) && moves[i].target == Some(step.1)
  }

  lemma Recorded(before: Candidates, moves: seq<Move>, i: nat, applied: seq<(Path, Path)>, r: Renaming, r': Renaming)
    returns (longer: seq<(Path, Path)>)
    requires i < |moves| && moves[i].source.Some? && moves[i].target.Some?
    requires r.at.Keys == before.Keys == r'.at.Keys
    requires forall p :: p in before ==> r.at[p] == RelocateAll(applied, p)
    requires forall p :: p in before ==> r'.at[p] == Relocate(moves[i].source.value, moves[i].target.value, r.at[p])
    requires forall a :: a in applied ==> RecordedIn(moves, a)
    ensures forall p :: p in before ==> r'.at[p] == RelocateAll(longer, p)
    ensures forall a :: a in longer ==> RecordedIn(moves, a)
  {
    longer := applied + [(moves[i].source.value, moves[i].target.value)];
    assert longer[..|applied|] == applied;
  }

  ghost predicate Accepts(before: Candidates, after: Candidates, pos: Positions) {
    RenamedTree(before, after, pos.at) && SameIdentity(before, after, pos.at, pos.moved)
  }

  /** An accepted drain is a renaming of the before tree built from the recorded moves; for moves
      between separate subtrees the comparison accepts exactly the replayed tree. */
  method CompareSyncSaveDrainTrees(before: Candidates, after: Candidates, moves: seq<Move>)
    returns (ok: bool, ghost at: map<Path, Path>, ghost applied: seq<(Path, Path)>)
    ensures ok ==> RenamedTree(before, after, at)
    ensures ok ==> forall p :: p in before ==> at[p] == RelocateAll(applied, p)
    ensures ok ==> forall p :: p in before && at[p] != p ==> after[at[p]].identity == before[p].identity
    ensures forall a :: a in applied ==> RecordedIn(moves, a)
    ensures AllSeparate(moves) ==>
              (ok <==> Replayed(before, moves).Some? && Accepts(before, after, Replayed(before, moves).value))
  {
    var out, r, list := ReplayMoves(before, moves);
    at, applied := r.at, list;
    if out.None? {
      return false, at, applied;
    }
    ok := MatchesAfter(before, r, out.value, after);
  }

  lemma NextMove(before: Candidates, moves: seq<Move>, i: nat)
    requires i < |moves|
    ensures moves[..i + 1][..i] == moves[..i]
    ensures Replayed(before, moves[..i + 1]).None? ==> Replayed(before, moves).None?
  {
    NoneStays(before, moves, i + 1);
  }

  lemma {:induction false} NoneStays(before: Candidates, moves: seq<Move>, i: nat)
    requires i <= |moves|
    ensures Replayed(before, moves[..i]).None? ==> Replayed(before, moves).None?
    decreases |moves| - i
  {
    if i < |moves| {
      assert moves[..i + 1][..i] == moves[..i];
      NoneStays(before, moves, i + 1);
    } else {
      assert moves[..i] == moves;
    }
  }
}
