/**
 Temporary owner access to read-only directories during a recovery pass, and its restoration from
 deepest to shallowest.
 */
module DirectoryModes {
  import opened Results
  import opened Paths

  /** A file mode: the owner's three bits (0o700) and all the others. */
  datatype Mode = Mode(read: bool, write: bool, search: bool, others: nat)

  datatype Entry = Entry(inode: nat, isDir: bool, mode: Mode)

  /** Everything below the mount root, whose own access is managed elsewhere. */
  type Fs = map<Path, Entry>

  datatype Stat = Found(entry: Entry) | Missing | NotADirectory | Denied

  datatype PrepareError = Inaccessible | NotADir | ChmodFailed

  predicate HasOwner(mode: Mode) {
    mode.read && mode.write && mode.search
  }

  function WithOwner(mode: Mode): Mode {
    mode.(read := true, write := true, search := true)
  }

  function Opened(e: Entry): Entry {
    e.(mode := WithOwner(e.mode))
  }

  // ---- Paths and access ------------------------------------------------------------

  function LastSlash(p: Path): (i: nat)
    ensures i <= |p| && (p != "" ==> i < |p|)
  {
    if p == "" then 0 else if p[|p| - 1] == '/' then |p| - 1 else LastSlash(p[..|p| - 1])
  }

  function Parent(p: Path): (q: Path)
    requires p != ""
    ensures |q| < |p| && q == p[..|q|]
  {
    p[..LastSlash(p)]
  }

  /** `a` is a directory on the way to `p`, below the root. */
  ghost predicate Above(a: Path, p: Path)
    decreases |p|
  {
    p != "" && Parent(p) != "" && (a == Parent(p) || Above(a, Parent(p)))
  }

  lemma {:induction false} AboveSortsFirst(a: Path, p: Path)
    requires Above(a, p)
    ensures |a| < |p| && a == p[..|a|] && StringLess(a, p)
    decreases |p|
  {
    if a != Parent(p) {
      AboveSortsFirst(a, Parent(p));
    }
    UnderIsStringLess(p, a);
  }

  /** What the owner of the tree sees at a path. */
  function Lstat(fs: Fs, p: Path): Stat
    requires p != ""
    decreases |p|
  {
    if Parent(p) == "" then (if p in fs then Found(fs[p]) else Missing)
    else match Lstat(fs, Parent(p))
      case Found(e) =>
        if !e.isDir then NotADirectory
        else if !e.mode.search then Denied
        else if p in fs then Found(fs[p]) else Missing
      case other => other
  }

  lemma {:induction false} FoundIsThere(fs: Fs, p: Path)
    requires p != "" && Lstat(fs, p).Found?
    ensures p in fs && fs[p] == Lstat(fs, p).entry
  {
  }

  /** Something on the way, or the path itself, is not a directory. */
  ghost predicate Blocked(fs: Fs, p: Path) {
    exists a :: (a == p || Above(a, p)) && a in fs && !fs[a].isDir
  }

  lemma BlockedBelow(fs: Fs, p: Path)
    requires p != "" && Parent(p) != "" && Blocked(fs, Parent(p))
    ensures Blocked(fs, p)
  {
    var a :| (a == Parent(p) || Above(a, Parent(p))) && a in fs && !fs[a].isDir;
    assert Above(a, p);
  }

  lemma {:induction false} NotADirectoryIsBlocked(fs: Fs, p: Path)
    requires p != "" && Lstat(fs, p).NotADirectory?
    ensures Blocked(fs, p)
    decreases |p|
  {
    if Lstat(fs, Parent(p)).NotADirectory? {
      NotADirectoryIsBlocked(fs, Parent(p));
    } else {
      FoundIsThere(fs, Parent(p));
    }
    BlockedBelow(fs, p);
  }

  lemma {:induction false} StatFrame(fs: Fs, fs': Fs, p: Path)
    requires p != "" && Lookup(fs, p) == Lookup(fs', p) && forall a :: Above(a, p) ==> Lookup(fs, a) == Lookup(fs', a)
    ensures Lstat(fs, p) == Lstat(fs', p)
    decreases |p|
  {
    if Parent(p) != "" {
      assert Above(Parent(p), p);
      StatFrame(fs, fs', Parent(p));
    }
  }

  // ---- What a pass has opened --------------------------------------------------------

  /** Prepared directories have their ancestors prepared; opened ones are prepared, and lacked access. */
  ghost predicate Nested(prepared: set<Path>, changed: map<Path, Entry>) {
    && "" !in prepared
    && (forall p :: p in prepared && Parent(p) != "" ==> Parent(p) in prepared)
    && (forall p :: p in changed ==> p in prepared && changed[p].isDir && !HasOwner(changed[p].mode))
  }

  /** Nobody else has touched the prepared directories. */
  ghost predicate Undisturbed(fs: Fs, prepared: set<Path>, changed: map<Path, Entry>) {
    && (forall p :: p in prepared ==> p in fs && fs[p].isDir && HasOwner(fs[p].mode))
    && (forall p :: p in changed ==> p in fs && fs[p] == Opened(changed[p]))
  }

  /** The tree with every opened directory back in its recorded mode. */
  ghost function Original(fs: Fs, changed: map<Path, Entry>): Fs {
    map p | p in fs :: if p in changed then changed[p] else fs[p]
  }

  lemma {:induction false} PreparedIsReachable(fs: Fs, prepared: set<Path>, changed: map<Path, Entry>, p: Path)
    requires Nested(prepared, changed) && Undisturbed(fs, prepared, changed) && p in prepared
    ensures p != "" && Lstat(fs, p) == Found(fs[p])
    decreases |p|
  {
    if Parent(p) != "" {
      PreparedIsReachable(fs, prepared, changed, Parent(p));
    }
  }

  // ---- What restoring must do --------------------------------------------------------

  /** The directory is still the one that was opened, in the mode it was given. */
  predicate Restorable(fs: Fs, changed: map<Path, Entry>, p: Path) {
    p != "" && p in changed && Lstat(fs, p) == Found(Opened(changed[p]))
  }

  /** The restorable directories of `which` are back in their modes; nothing else differs. */
  ghost function Restored(fs: Fs, changed: map<Path, Entry>, which: set<Path>): Fs {
    map p | p in fs :: if p in which && Restorable(fs, changed, p) then changed[p] else fs[p]
  }

  /** Undisturbed, restoring undoes preparing. */
  lemma RestoringUndoes(fs: Fs, prepared: set<Path>, changed: map<Path, Entry>)
    requires Nested(prepared, changed) && Undisturbed(fs, prepared, changed)
    ensures Restored(fs, changed, changed.Keys) == Original(fs, changed)
    ensures forall p :: p in changed ==> Restorable(fs, changed, p)
  {
    forall p | p in changed ensures Restorable(fs, changed, p) {
      PreparedIsReachable(fs, prepared, changed, p);
    }
  }

  /** Restoring later directories does not change how an earlier one is seen. */
  lemma SeenAsBefore(fs: Fs, changed: map<Path, Entry>, which: set<Path>, p: Path)
    requires p != "" && p !in which && forall q :: q in which ==> !StringLess(q, p)
    ensures Lstat(Restored(fs, changed, which), p) == Lstat(fs, p)
  {
    forall a | Above(a, p) ensures a !in which {
      AboveSortsFirst(a, p);
    }
    StatFrame(fs, Restored(fs, changed, which), p);
  }

  predicate StringAfter(a: Path, b: Path) {
    StringLess(b, a)
  }

  lemma StringAfterOrder()
    ensures StrictOrder(StringAfter)
  {
    forall a, b, c
      ensures StringAfter(a, b) ==> !StringAfter(b, a)
      ensures !StringAfter(b, a) && !StringAfter(c, b) ==> !StringAfter(c, a)
    {
      StringLessIsOrder(a, b, a);
      StringLessIsOrder(c, b, a);
    }
  }

  /** The opened directories, descendants before ancestors. */
  method ReversePaths(changed: map<Path, Entry>) returns (paths: seq<Path>)
    ensures multiset(paths) == multiset(changed.Keys) && SortedBy(StringAfter, paths)
  {
    StringAfterOrder();
    paths := SortedPaths(changed.Keys, StringAfter);
  }

  lemma NextPath(paths: seq<Path>, which: set<Path>, i: nat)
    requires multiset(paths) == multiset(which) && SortedBy(StringAfter, paths) && i < |paths|
    ensures paths[i] in which && paths[i] !in paths[..i] && forall q :: q in paths[..i] ==> !StringLess(q, paths[i])
  {
    ListsOnce(paths, which);
    assert paths[i] in paths;
    forall q | q in paths[..i] ensures q != paths[i] && !StringLess(q, paths[i]) {
      var j :| 0 <= j < i && paths[j] == q;
      assert !StringAfter(paths[i], paths[j]);
    }
  }

  class TemporaryModes {
    /** Whether the n-th mode change fails. */
    const fails: nat -> bool
    var fs: Fs
    var calls: nat
    var prepared: set<Path>
    var changed: map<Path, Entry>
    /** Held markers, and whether each awaits a retry. */
    var held: map<Path, bool>

    constructor (fails: nat -> bool, fs: Fs)
      ensures this.fails == fails && this.fs == fs && prepared == {} && changed == map[] && held == map[] && calls == 0
    {
      this.fails, this.fs, calls, prepared, changed, held := fails, fs, 0, {}, map[], map[];
    }

    method Chmod(p: Path, mode: Mode) returns (ok: bool)
      requires p in fs
      modifies this`fs, this`calls
      ensures calls == old(calls) + 1 && ok == !fails(old(calls))
      ensures fs == if ok then old(fs)[p := old(fs)[p].(mode := mode)] else old(fs)
    {
      ok := !fails(calls);
      calls := calls + 1;
      if ok {
        fs := fs[p := fs[p].(mode := mode)];
      }
    }

    /** Gives one directory its recorded mode back, unless it was replaced or changed meanwhile. */
    method RestoreDirectory(p: Path) returns (failed: bool)
      requires p != "" && p in changed
      modifies this`fs, this`calls, this`held
      ensures calls >= old(calls)
      ensures fs == if Restorable(old(fs), changed, p) && !failed then old(fs)[p := changed[p]] else old(fs)
      ensures Lstat(old(fs), p).Denied? ==> failed
      ensures failed ==>
                || Lstat(old(fs), p).Denied?
                || (Restorable(old(fs), changed, p) && exists i :: old(calls) <= i < calls && fails(i))
      ensures held == if !failed then old(held) - {p} else if p in old(held) then old(held)[p := true] else old(held)
    {
      failed := false;
      match Lstat(fs, p) {
        case Missing =>
        case NotADirectory =>
        case Denied =>
          failed := true;
        case Found(e) =>
          FoundIsThere(fs, p);
          if e.inode == changed[p].inode && e.isDir == changed[p].isDir && e.mode == WithOwner(changed[p].mode) {
            var ok := Chmod(p, changed[p].mode);
            failed := !ok;
            assert failed ==> fails(old(calls));
          }
      }
      if !failed {
        held := held - {p};
      } else if p in held {
        held := held[p := true];
      }
    }

    /** Restores every opened directory. Each is judged by the tree as it was when restoring began; a
        failed one keeps its marker for a retry. */
    method Restore() returns (failed: set<Path>, ghost faultless: bool)
      requires Nested(prepared, changed) && changed.Keys <= held.Keys
      modifies this`fs, this`calls, this`held
      ensures fs == Restored(old(fs), changed, changed.Keys - failed)
      ensures failed <= changed.Keys && held == HeldAfter(old(held), changed.Keys, failed)
      ensures forall p :: p in changed ==> Judged(old(fs), changed, p, p in failed, faultless)
      ensures !faultless ==> exists n :: old(calls) <= n < calls && fails(n)
    {
      var paths := ReversePaths(changed);
      failed, faultless := {}, true;
      var i := 0;
      while i < |paths|
        invariant 0 <= i <= |paths| && calls >= old(calls)
        invariant Restoring(old(fs), old(held), changed, paths, i, fs, held, failed, faultless)
        invariant !faultless ==> exists n :: old(calls) <= n < calls && fails(n)
      {
        var p := paths[i];
        NextIsUntouched(old(fs), changed, paths, i, failed);
        ghost var fs0, held0 := fs, held;
        var bad := RestoreDirectory(p);
        RestoringStep(old(fs), old(held), changed, paths, i, fs0, held0, fs, held, failed, faultless, bad);
        if bad && Restorable(old(fs), changed, p) {
          faultless := false;
        }
        if bad {
          failed := failed + {p};
        }
        i := i + 1;
      }
      AllRestored(old(fs), old(held), changed, paths, fs, held, failed, faultless);
    }

    /** A pass that prepares directories and then restores them leaves the tree as it was, unless a mode
        change failed. */
    method PrepareAndRestore(paths: seq<Path>) returns (failed: set<Path>)
      requires prepared == {} && changed == map[]
      modifies this`fs, this`calls, this`prepared, this`changed, this`held
      ensures (forall n :: old(calls) <= n < calls ==> !fails(n)) ==> fs == old(fs) && failed == {}
    {
      held := map[];
      assert Original(fs, changed) == fs;
      for i := 0 to |paths|
        invariant Nested(prepared, changed) && changed.Keys <= held.Keys && calls >= old(calls)
        invariant Undisturbed(fs, prepared, changed) && Original(fs, changed) == old(fs)
      {
        var r := Prepare(paths[i]);
      }
      RestoringUndoes(fs, prepared, changed);
      ghost var faultless;
      failed, faultless := Restore();
      assert faultless ==> failed == {};
    }

    /** Opens one directory and records its mode. */
    method Open(p: Path, e: Entry) returns (ok: bool)
      requires Lookup(fs, p) == Some(e)
      modifies this`fs, this`calls, this`prepared, this`changed, this`held
      ensures calls >= old(calls) && (!ok ==> calls > old(calls) && fails(old(calls)))
      ensures !ok ==> fs == old(fs) && prepared == old(prepared) && changed == old(changed) && held == old(held)
      ensures ok ==>
                && prepared == old(prepared) + {p}
                && held.Keys == (if HasOwner(e.mode) then old(held).Keys else old(held).Keys + {p})
      ensures ok ==> fs == OpenedFs(old(fs), p) && changed == OpenedModes(old(changed), p, e)
    {
      ok := true;
      if !HasOwner(e.mode) {
        ok := Chmod(p, WithOwner(e.mode));
        if !ok {
          return;
        }
        changed := changed[p := e];
        held := held[p := false];
      }
      prepared := prepared + {p};
    }

    /** Gives the owner access to a directory and to every directory above it. */
    method Prepare(p: Path) returns (r: Result<(), PrepareError>)
      requires Nested(prepared, changed) && changed.Keys <= held.Keys
      modifies this`fs, this`calls, this`prepared, this`changed, this`held
      ensures Nested(prepared, changed) && old(prepared) <= prepared && changed.Keys <= held.Keys
      ensures fs.Keys == old(fs).Keys && calls >= old(calls)
      ensures forall q :: q in prepared && q !in old(prepared) ==> |q| <= |p|
      ensures r.Ok? ==> p == "" || p in prepared || Lstat(fs, p).Missing?
      ensures old(Undisturbed(fs, prepared, changed)) ==>
                Undisturbed(fs, prepared, changed) && Original(fs, changed) == old(Original(fs, changed))
      ensures r.Err? && old(Undisturbed(fs, prepared, changed)) ==>
                p != "" && ((exists n :: old(calls) <= n < calls && fails(n)) || Blocked(fs, p))
      decreases |p|
    {
      if p == "" || p in prepared {
        return Ok(());
      }
      r := Prepare(Parent(p));
      if r.Err? {
        if Blocked(fs, Parent(p)) && Parent(p) != "" {
          BlockedBelow(fs, p);
        }
        return;
      }
      if Parent(p) in prepared && Undisturbed(fs, prepared, changed) {
        PreparedIsReachable(fs, prepared, changed, Parent(p));
      }
      match Lstat(fs, p)
      case Missing =>
        return Ok(());
      case Denied =>
        return Err(Inaccessible);
      case NotADirectory =>
        NotADirectoryIsBlocked(fs, p);
        return Err(Inaccessible);
      case Found(e) =>
        FoundIsThere(fs, p);
        if !e.isDir {
          return Err(NotADir);
        }
        OpeningKeeps(fs, prepared, changed, p);
        ghost var count := calls;
        var ok := Open(p, e);
        return if ok then Ok(()) else Err(ChmodFailed);
    }
  }

  ghost function Done(paths: seq<Path>, i: nat): set<Path>
    requires i <= |paths|
  {
    set p | p in paths[..i]
  }

  /** The verdict on one directory: a failure is denied access or, unless faultless, a failed mode change. */
  ghost predicate Judged(fs: Fs, changed: map<Path, Entry>, p: Path, failed: bool, faultless: bool) {
    && p != "" && p in changed
    && (Lstat(fs, p).Denied? ==> failed)
    && (failed ==> Lstat(fs, p).Denied? || (Restorable(fs, changed, p) && !faultless))
  }

  lemma NextIsUntouched(fs: Fs, changed: map<Path, Entry>, paths: seq<Path>, i: nat, failed: set<Path>)
    requires multiset(paths) == multiset(changed.Keys) && SortedBy(StringAfter, paths) && i < |paths| && "" !in changed
    ensures paths[i] in changed && paths[i] !in paths[..i]
    ensures Lstat(Restored(fs, changed, Done(paths, i) - failed), paths[i]) == Lstat(fs, paths[i])
  {
    NextPath(paths, changed.Keys, i);
    SeenAsBefore(fs, changed, Done(paths, i) - failed, paths[i]);
  }

  /** Restoration through the first `i` directories. */
  ghost predicate Restoring(fs0: Fs, held0: map<Path, bool>, changed: map<Path, Entry>, paths: seq<Path>, i: nat,
                            fs: Fs, held: map<Path, bool>, failed: set<Path>, faultless: bool) {
    && i <= |paths|
    && fs == Restored(fs0, changed, Done(paths, i) - failed)
    && failed <= Done(paths, i)
    && (forall q :: q in Done(paths, i) ==> Judged(fs0, changed, q, q in failed, faultless))
    && held == HeldAfter(held0, Done(paths, i), failed)
  }

  ghost function HeldAfter(held: map<Path, bool>, done: set<Path>, failed: set<Path>): map<Path, bool> {
    map p | p in held && (p in done ==> p in failed) :: if p in failed then true else held[p]
  }

  lemma RestoringStep(fs0: Fs, held0: map<Path, bool>, changed: map<Path, Entry>, paths: seq<Path>, i: nat,
                      fs: Fs, held: map<Path, bool>, fs': Fs, held': map<Path, bool>, failed: set<Path>,
                      faultless: bool, bad: bool)
    requires i < |paths| && Restoring(fs0, held0, changed, paths, i, fs, held, failed, faultless)
    requires var p := paths[i];
             && p != "" && p in changed && p !in paths[..i] && Lstat(fs, p) == Lstat(fs0, p)
             && fs' == (if Restorable(fs, changed, p) && !bad then fs[p := changed[p]] else fs)
             && (Lstat(fs, p).Denied? ==> bad) && (bad ==> Lstat(fs, p).Denied? || Restorable(fs, changed, p))
             && held' == (if !bad then held - {p} else if p in held then held[p := true] else held)
    ensures var p := paths[i];
            Restoring(fs0, held0, changed, paths, i + 1, fs', held', if bad then failed + {p} else failed,
                      faultless && !(bad && Restorable(fs0, changed, p)))
  {
    var p := paths[i];
    var failed' := if bad then failed + {p} else failed;
    assert Done(paths, i + 1) == Done(paths, i) + {p} by {
      assert paths[..i + 1] == paths[..i] + [p];
    }
    RestoredOne(fs0, changed, paths, i, failed, bad);
    assert held' == HeldAfter(held0, Done(paths, i + 1), failed');
    assert Restorable(fs, changed, p) == Restorable(fs0, changed, p);
    if Restorable(fs0, changed, p) { FoundIsThere(fs, p); }
  }

  lemma AllRestored(fs0: Fs, held0: map<Path, bool>, changed: map<Path, Entry>, paths: seq<Path>,
                    fs: Fs, held: map<Path, bool>, failed: set<Path>, faultless: bool)
    requires multiset(paths) == multiset(changed.Keys)
    requires Restoring(fs0, held0, changed, paths, |paths|, fs, held, failed, faultless)
    ensures fs == Restored(fs0, changed, changed.Keys - failed) && held == HeldAfter(held0, changed.Keys, failed)
    ensures failed <= changed.Keys
    ensures forall p :: p in changed ==> Judged(fs0, changed, p, p in failed, faultless)
  {
    assert paths[..|paths|] == paths;
    ListsOnce(paths, changed.Keys);
    assert Done(paths, |paths|) == changed.Keys;
  }

  lemma RestoredOne(fs: Fs, changed: map<Path, Entry>, paths: seq<Path>, i: nat, failed: set<Path>, bad: bool)
    requires i < |paths| && paths[i] !in paths[..i] && failed <= Done(paths, i)
    ensures var p := paths[i];
            var before := Restored(fs, changed, Done(paths, i) - failed);
            && Restored(fs, changed, Done(paths, i + 1) - (if bad then failed + {p} else failed))
               == (if Restorable(fs, changed, p) && !bad && p in before then before[p := changed[p]] else before)
            && Lookup(before, p) == Lookup(fs, p)
  {
    assert paths[..i + 1] == paths[..i] + [paths[i]];
  }

  function OpenedFs(fs: Fs, p: Path): Fs
    requires p in fs
  {
    fs[p := Opened(fs[p])]
  }

  function OpenedModes(changed: map<Path, Entry>, p: Path, e: Entry): map<Path, Entry> {
    if HasOwner(e.mode) then changed else changed[p := e]
  }

  lemma OpeningKeeps(fs: Fs, prepared: set<Path>, changed: map<Path, Entry>, p: Path)
    requires Nested(prepared, changed) && p != "" && p !in prepared && p in fs && fs[p].isDir
    requires Parent(p) == "" || Parent(p) in prepared
    ensures var changed' := OpenedModes(changed, p, fs[p]);
            && Nested(prepared + {p}, changed')
            && (Undisturbed(fs, prepared, changed) ==>
                  && Undisturbed(OpenedFs(fs, p), prepared + {p}, changed')
                  && Original(OpenedFs(fs, p), changed') == Original(fs, changed))
  {
    var changed' := OpenedModes(changed, p, fs[p]);
    if Undisturbed(fs, prepared, changed) {
      forall q | q in fs ensures Original(OpenedFs(fs, p), changed')[q] == Original(fs, changed)[q] {
      }
    }
  }
}
