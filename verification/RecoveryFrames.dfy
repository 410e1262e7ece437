/**
 What a step of a recovery pass leaves alone, and what it leaves in step: a path is in step when both
 sides hold it and planning it again finds nothing to do.
 */
module RecoveryFrames {
  import opened Hashing
  import opened Paths
  import opened RecoveryPlan
  import opened RecoveryWorld
  import opened Results

  /** A step at `p` changes no other known path, except that it may create missing parents of `p`, and
      that one which sweeps may also change what lies below `p`. */
  ghost predicate FrameAt(w: World, w': World, p: Path, sweeps: bool, q: Path) {
    q in w.known && q != p && !(sweeps && Under(q, p)) ==>
      && (q in w.local ==> Lookup(w'.local, q) == Some(w.local[q]))
      && (q in w.remote ==> Lookup(w'.remote, q) == Some(w.remote[q]))
      && Lookup(w'.base, q) == Lookup(w.base, q)
      && (!Under(p, q) ==> Lookup(w'.local, q) == Lookup(w.local, q) && Lookup(w'.remote, q) == Lookup(w.remote, q))
  }

  // ---- Trees stay trees, and versions are new -----------------------------------------------------

  /** All that is above the path is there, as directories. */
  ghost predicate Parented(t: Tree, p: Path) {
    forall d :: d in Ancestors(p) ==> d in t && t[d].Dir?
  }

  ghost predicate Rooted(t: Tree, known: set<Path>) {
    forall p {:trigger Parented(t, p)} :: p in t && p in known ==> Parented(t, p)
  }

  /** Both sides are trees, conflict copies aside. */
  ghost predicate Shaped(w: World) {
    Rooted(w.local, w.known) && Rooted(w.remote, w.known)
  }

  /** An entry that is new or differs carries a version issued since. */
  ghost predicate StampedAt(w: World, w': World, q: Path) {
    q in w'.base ==> Lookup(w.base, q) == Some(w'.base[q]) || w.next <= w'.base[q].version < w'.next
  }

  ghost predicate Stamped(w: World, w': World) {
    w.next <= w'.next && forall q :: StampedAt(w, w', q)
  }

  ghost predicate Tidy(w: World, w': World) {
    (Shaped(w) ==> Shaped(w')) && Stamped(w, w')
  }

  lemma TidyTrans(w: World, w1: World, w2: World)
    requires Tidy(w, w1) && Tidy(w1, w2)
    ensures Tidy(w, w2)
  {
    forall q ensures StampedAt(w, w2, q) {
      assert StampedAt(w, w1, q) && StampedAt(w1, w2, q);
    }
  }

  lemma AncestorAbove(p: Path, d: Path, e: Path)
    requires d in Ancestors(p) && e in Ancestors(d)
    ensures e in Ancestors(p)
  {
    AncestorsAreAbove(p, d);
    AncestorsAreAbove(d, e);
    UnderTransitive(p, d, e);
    AncestorsAreAbove(p, e);
  }

  lemma ParentsRooted(t: Tree, known: set<Path>, p: Path)
    requires Rooted(t, known) && !Blocked(t, p)
    ensures Rooted(WithParents(t, p), known) && Parented(WithParents(t, p), p)
  {
    var t' := WithParents(t, p);
    forall q | q in t' && q in known ensures Parented(t', q) {
      if q in t {
        assert Parented(t, q);
      } else {
        forall d | d in Ancestors(q) ensures d in Ancestors(p) {
          AncestorAbove(p, q, d);
        }
      }
    }
  }

  /** In a tree nothing is below a path that has no directory. */
  lemma NothingUnder(t: Tree, known: set<Path>, p: Path, q: Path)
    requires Rooted(t, known) && !(p in t && t[p].Dir?) && q in t && q in known
    ensures p !in Ancestors(q)
  {
    assert Parented(t, q);
  }

  lemma PutRooted(t: Tree, known: set<Path>, p: Path, n: Node)
    requires Rooted(t, known) && Parented(t, p) && (n.Dir? || !(p in t && t[p].Dir?))
    ensures Rooted(t[p := n], known)
  {
    AncestorsAreAbove(p, p);
    forall q | q in t[p := n] && q in known ensures Parented(t[p := n], q) {
      if q != p {
        assert Parented(t, q);
        if n.File? {
          NothingUnder(t, known, p, q);
        }
      }
    }
  }

  /** Taking away a node that has nothing below it keeps the tree. */
  lemma TakeRooted(t: Tree, known: set<Path>, p: Path)
    requires Rooted(t, known) && !(p in t && t[p].Dir? && HasChildren(t, p))
    ensures Rooted(t - {p}, known)
  {
    forall q | q in t - {p} && q in known ensures Parented(t - {p}, q) {
      assert Parented(t, q);
      AncestorsAreAbove(q, p);
    }
  }

  lemma SweptRooted(w: World, p: Path, left: set<Path>)
    requires Rooted(w.local, w.known)
    ensures Rooted(RemoveLocalTree(w, p, left).local, w.known)
  {
    var t := RemoveLocalTree(w, p, left).local;
    forall q | q in t && q in w.known ensures Parented(t, q) {
      assert Parented(w.local, q);
      forall d | d in Ancestors(q) ensures d in t {
        AncestorsAreAbove(q, d);
        if Within(d, p) {
          if d != p { UnderTransitive(q, d, p); }
          var x :| x in left && x in w.local && Within(x, q);
          if x != q { UnderTransitive(x, q, d); }
        }
      }
    }
  }

  lemma MovedRooted(w: World, p: Path, target: Path)
    requires Rooted(w.local, w.known) && FreshName(w, target)
    ensures Rooted(MoveAside(w, p, target).local, w.known)
  {
    var t := MoveAside(w, p, target).local;
    forall q | q in t && q in w.known ensures Parented(t, q) {
      if q in Targets(w.local, p, target) { MovedTarget(w, p, target, q); }
      assert q in w.local && !Within(q, p) && Parented(w.local, q);
      forall d | d in Ancestors(q) ensures d in t && t[d].Dir? {
        AncestorsAreAbove(q, d);
        if Within(d, p) && d != p { UnderTransitive(q, d, p); }
        StayingNode(w, p, target, d);
      }
    }
  }

  /** The bytes are in a conflict copy of the path. */
  ghost predicate Copied(w: World, p: Path, content: Bytes) {
    exists q :: q in w.copies && w.copies[q] == p && Has(w.local, q, content)
  }

  ghost predicate CopiesStay(w: World, w': World) {
    forall p, content :: Copied(w, p, content) ==> Copied(w', p, content)
  }

  ghost predicate Frame(w: World, w': World, p: Path, sweeps: bool) {
    w'.known == w.known && CopiesStay(w, w') && Tidy(w, w') && forall q :: FrameAt(w, w', p, sweeps, q)
  }

  lemma SameCopies(w: World, w': World)
    requires w'.copies == w.copies
    requires forall c :: c in w.copies && c in w.local ==> Lookup(w'.local, c) == Some(w.local[c])
    ensures CopiesStay(w, w')
  {
    forall p, content | Copied(w, p, content) ensures Copied(w', p, content) {
      var c :| c in w.copies && w.copies[c] == p && Has(w.local, c, content);
      assert c in w'.copies && w'.copies[c] == p && Has(w'.local, c, content);
    }
  }

  /** A copy that is moved aside itself stays a copy of the same path. */
  lemma MovedCopies(w: World, p: Path, target: Path)
    requires FreshName(w, target)
    ensures CopiesStay(w, MoveAside(w, p, target))
  {
    var w' := MoveAside(w, p, target);
    forall q, content | Copied(w, q, content) ensures Copied(w', q, content) {
      var c :| c in w.copies && w.copies[c] == q && Has(w.local, c, content);
      if Within(c, p) {
        MovedNode(w, p, target, c);
        var c' := Relocate(p, target, c);
        assert c' in w'.copies && w'.copies[c'] == q && Has(w'.local, c', content);
      } else {
        StayingNode(w, p, target, c);
        assert c in w'.copies && w'.copies[c] == q && Has(w'.local, c, content);
      }
    }
  }

  /** A file that is moved aside is in a copy then. */
  lemma MovedIsCopied(w: World, p: Path, target: Path)
    requires FreshName(w, target) && p in w.local && w.local[p].File? && p !in w.copies
    ensures Copied(MoveAside(w, p, target), p, w.local[p].content)
  {
    MovedNode(w, p, target, p);
    var w', c := MoveAside(w, p, target), Relocate(p, target, p);
    assert c in w'.copies && w'.copies[c] == p && Has(w'.local, c, w.local[p].content);
  }

  lemma MovedElsewhere(w: World, p: Path, target: Path)
    requires FreshName(w, target) && p in w.known && p !in w.copies
    ensures p !in MoveAside(w, p, target).copies
  {
    if p in Targets(w.local, p, target) {
      MovedTarget(w, p, target, p);
    }
  }

  lemma FrameTrans(w: World, w1: World, w2: World, p: Path, sweeps: bool)
    requires Frame(w, w1, p, sweeps) && Frame(w1, w2, p, sweeps)
    ensures Frame(w, w2, p, sweeps)
  {
    TidyTrans(w, w1, w2);
    forall q ensures FrameAt(w, w2, p, sweeps, q) {
      assert FrameAt(w, w1, p, sweeps, q) && FrameAt(w1, w2, p, sweeps, q);
    }
  }

  lemma FrameWidens(w: World, w': World, p: Path, sweeps: bool)
    requires Frame(w, w', p, false)
    ensures Frame(w, w', p, sweeps)
  {
    forall q ensures FrameAt(w, w', p, sweeps, q) {
      assert FrameAt(w, w', p, false, q);
    }
  }

  /** The entry, the node on either side and the parents of one path. */
  lemma OnePathFrame(w: World, w': World, p: Path)
    requires w'.known == w.known && w'.copies == w.copies
    requires p in w.copies ==> Lookup(w'.local, p) == Lookup(w.local, p)
    requires w.next <= w'.next && StampedAt(w, w', p) && (Shaped(w) ==> Shaped(w'))
    requires forall q :: q != p ==> Lookup(w'.base, q) == Lookup(w.base, q)
    requires forall q :: q != p && (q in w.local || !Under(p, q)) ==> Lookup(w'.local, q) == Lookup(w.local, q)
    requires forall q :: q != p && (q in w.remote || !Under(p, q)) ==> Lookup(w'.remote, q) == Lookup(w.remote, q)
    ensures Frame(w, w', p, false)
  {
    SameCopies(w, w');
    forall q ensures StampedAt(w, w', q) {
    }
    forall q ensures FrameAt(w, w', p, false, q) {
    }
  }

  lemma ParentsFrame(t: Tree, p: Path)
    ensures forall q :: q in t || !Under(p, q) ==> Lookup(WithParents(t, p), q) == Lookup(t, q)
  {
    forall q | q in t || !Under(p, q) ensures Lookup(WithParents(t, p), q) == Lookup(t, q) {
      AncestorsAreAbove(p, q);
    }
  }

  lemma MoveAsideFrame(w: World, p: Path, target: Path)
    requires FreshName(w, target)
    ensures Frame(w, MoveAside(w, p, target), p, true)
  {
    var w' := MoveAside(w, p, target);
    MovedCopies(w, p, target);
    if Shaped(w) {
      MovedRooted(w, p, target);
    }
    forall q ensures FrameAt(w, w', p, true, q) {
      if q in w.known && q != p && !Under(q, p) {
        if q in w.local { StayingNode(w, p, target, q); }
        if q in Targets(w.local, p, target) { MovedTarget(w, p, target, q); }
      }
    }
  }

  lemma MovedParents(w: World, p: Path, target: Path)
    requires FreshName(w, target)
    ensures Parented(w.local, p) ==> Parented(MoveAside(w, p, target).local, p)
  {
    if Parented(w.local, p) {
      forall d | d in Ancestors(p)
        ensures d in MoveAside(w, p, target).local && MoveAside(w, p, target).local[d].Dir?
      {
        AncestorsAreAbove(p, d);
        StayingNode(w, p, target, d);
      }
    }
  }

  lemma ClearedFrame(w: World, a: Action, target: Path)
    requires a.decision.Download? && a.path in w.known && FreshName(w, target) && !Blocked(w.local, a.path)
    ensures Frame(w, Cleared(w, a, target), a.path, a.decision.conflict)
    ensures Shaped(w) ==> Parented(Cleared(w, a, target).local, a.path)
    ensures a.path !in w.copies ==> a.path !in Cleared(w, a, target).copies
    ensures a.path !in w.copies && a.decision.conflict && a.path in w.local && w.local[a.path].File? ==>
              Copied(Cleared(w, a, target), a.path, w.local[a.path].content)
  {
    var next := w.(local := WithParents(w.local, a.path));
    ParentsFrame(w.local, a.path);
    if Shaped(w) {
      ParentsRooted(w.local, w.known, a.path);
    }
    OnePathFrame(w, next, a.path);
    FrameWidens(w, next, a.path, a.decision.conflict);
    FreshWithParents(w, a.path, target);
    if a.decision.conflict && a.path in w.local {
      MoveAsideFrame(next, a.path, target);
      FrameTrans(w, next, MoveAside(next, a.path, target), a.path, true);
      MovedParents(next, a.path, target);
      if a.path !in w.copies {
        MovedElsewhere(next, a.path, target);
        if w.local[a.path].File? {
          MovedIsCopied(next, a.path, target);
        }
      }
    }
  }

  lemma AdoptedFrame(w: World, a: Action, mtime: int)
    requires a.path in w.remote && w.remote[a.path].File?
    ensures Frame(w, Adopted(w, a, mtime), a.path, false)
  {
    OnePathFrame(w, Adopted(w, a, mtime), a.path);
  }

  lemma ClearedPath(w: World, a: Action, target: Path)
    requires a.decision.Download? && a.path in w.known && FreshName(w, target)
    ensures Lookup(Cleared(w, a, target).local, a.path) == if a.decision.conflict then None else Lookup(w.local, a.path)
  {
    ParentsAreElsewhere(w.local, a.path);
    FreshWithParents(w, a.path, target);
    if a.decision.conflict && a.path in w.local {
      MovedAway(w.(local := WithParents(w.local, a.path)), a.path, target);
    }
  }

  lemma PutFrame(w: World, cleared: World, p: Path, sweeps: bool, n: Node)
    requires p !in cleared.copies && n.File? && Frame(w, cleared, p, sweeps)
    requires Shaped(w) ==> Parented(cleared.local, p) && !(p in cleared.local && cleared.local[p].Dir?)
    ensures Frame(w, PutLocal(cleared, p, n), p, sweeps)
  {
    var put := PutLocal(cleared, p, n);
    SameCopies(cleared, put);
    if Shaped(w) {
      PutRooted(cleared.local, cleared.known, p, n);
    }
    forall q ensures FrameAt(w, put, p, sweeps, q) && StampedAt(w, put, q) {
      assert FrameAt(w, cleared, p, sweeps, q) && StampedAt(w, cleared, q);
    }
  }

  lemma DownloadFrame(w: World, a: Action, target: Path, time: int)
    requires a.decision.Download? && a.path in w.known && a.path !in w.copies && FreshName(w, target)
    requires a.path in w.remote && w.remote[a.path].File? && !Blocked(w.local, a.path)
    requires !(a.path in w.local && w.local[a.path].Dir? && !a.decision.conflict)
    ensures var n := File(w.remote[a.path].content, FileMode(a), time);
            var w' := Adopted(PutLocal(Cleared(w, a, target), a.path, n), a, time);
            && Frame(w, w', a.path, a.decision.conflict)
            && (a.decision.conflict && a.path in w.local && w.local[a.path].File? ==>
                  Copied(w', a.path, w.local[a.path].content))
  {
    var n := File(w.remote[a.path].content, FileMode(a), time);
    var cleared := Cleared(w, a, target);
    ClearedFrame(w, a, target);
    assert cleared.remote == w.remote;
    var put := PutLocal(cleared, a.path, n);
    ClearedPath(w, a, target);
    PutFrame(w, cleared, a.path, a.decision.conflict, n);
    AdoptedFrame(put, a, time);
    FrameWidens(put, Adopted(put, a, time), a.path, a.decision.conflict);
    FrameTrans(w, put, Adopted(put, a, time), a.path, a.decision.conflict);
    PutKeepsCopies(cleared, a.path, n);
  }

  lemma PutKeepsCopies(w: World, p: Path, n: Node)
    requires p !in w.copies
    ensures CopiesStay(w, PutLocal(w, p, n))
  {
    SameCopies(w, PutLocal(w, p, n));
  }

  lemma PublishedFrame(w: World, a: Action, time: int, e: Entry)
    requires a.path in w.local && w.local[a.path].File?
    requires !Blocked(w.remote, a.path) && !(a.path in w.remote && w.remote[a.path].Dir?)
    ensures Frame(w, Published(w, a, time), a.path, false)
    ensures Frame(w, UpdateState(Published(w, a, time), a, e), a.path, false)
    ensures forall w' :: w' == Published(w, a, time) || w' == UpdateState(Published(w, a, time), a, e) ==>
              w'.local == w.local && w'.copies == w.copies && w'.done == w.done + {a.path}
  {
    ParentsFrame(w.remote, a.path);
    ParentsAreElsewhere(w.remote, a.path);
    if Shaped(w) {
      ParentsRooted(w.remote, w.known, a.path);
      PutRooted(WithParents(w.remote, a.path), w.known, a.path, File(w.local[a.path].content, FileMode(a), time));
    }
    OnePathFrame(w, Published(w, a, time), a.path);
    OnePathFrame(w, UpdateState(Published(w, a, time), a, e), a.path);
  }

  lemma MkdirLocalFrame(w: World, a: Action)
    requires a.path !in w.copies && CanMkdir(w.local, a.path)
    ensures Frame(w, WithLocalDir(w, a), a.path, false)
    ensures Frame(w, MadeLocal(w, a), a.path, false)
  {
    ParentsFrame(w.local, a.path);
    if Shaped(w) {
      ParentsRooted(w.local, w.known, a.path);
      PutRooted(WithParents(w.local, a.path), w.known, a.path, WithLocalDir(w, a).local[a.path]);
    }
    OnePathFrame(w, WithLocalDir(w, a), a.path);
    OnePathFrame(w, UpdateState(WithLocalDir(w, a), a, DirEntry(a.mode)), a.path);
  }

  /** The local side after a directory is made. */
  function MadeLocal(w: World, a: Action): World {
    UpdateState(WithLocalDir(w, a), a, DirEntry(a.mode))
  }

  lemma MadeLocalAt(w: World, a: Action)
    ensures var w' := MadeLocal(w, a);
            && MadeDir(w'.local, a) && w'.done == w.done && w'.remote == w.remote
            && (StillCurrent(w, a) ==> RecordsDir(w'.base, a.path, a.mode))
    ensures var w' := WithLocalDir(w, a); w'.done == w.done && w'.remote == w.remote
  {
  }

  /** The remote side after a directory is made, or the mode of what was observed there changed. */
  function MadeRemote(w: World, a: Action): World {
    var changed := if a.path in w.remote && w.remote[a.path].File? then WithRemoteMode(w, a) else WithRemoteDir(w, a);
    UpdateState(changed, a, DirEntry(a.mode))
  }

  lemma MadeRemoteKeeps(w0: World, w: World, a: Action)
    requires Inv(w0, w) && a.path in w.known && a.path !in w.done && !Blocked(w.remote, a.path)
    ensures Inv(w0, MadeRemote(w, a))
  {
    if a.path in w.remote && w.remote[a.path].File? {
      ChmodRemoteKeeps(w0, w, a);
    } else {
      MkdirRemoteKeeps(w0, w, a);
    }
  }

  lemma MkdirRemoteFrame(w: World, a: Action)
    requires CanMkdir(w.remote, a.path)
    ensures var w' := UpdateState(WithRemoteDir(w, a), a, DirEntry(a.mode));
            Frame(w, w', a.path, false) && w'.local == w.local && w'.done == w.done
  {
    ParentsFrame(w.remote, a.path);
    if Shaped(w) {
      ParentsRooted(w.remote, w.known, a.path);
      PutRooted(WithParents(w.remote, a.path), w.known, a.path, Dir(a.mode));
    }
    OnePathFrame(w, UpdateState(WithRemoteDir(w, a), a, DirEntry(a.mode)), a.path);
  }

  lemma ModeRooted(t: Tree, known: set<Path>, p: Path, mode: nat)
    requires Rooted(t, known) && p in t && t[p].File?
    ensures Rooted(t[p := t[p].(mode := mode)], known)
  {
    var t' := t[p := t[p].(mode := mode)];
    forall q | q in t' && q in known ensures Parented(t', q) {
      assert Parented(t, q);
    }
  }

  lemma ChmodRemoteFrame(w: World, a: Action)
    requires a.path in w.remote && w.remote[a.path].File?
    ensures var w' := UpdateState(WithRemoteMode(w, a), a, DirEntry(a.mode));
            Frame(w, w', a.path, false) && w'.local == w.local && w'.done == w.done + {a.path}
  {
    if Shaped(w) {
      ModeRooted(w.remote, w.known, a.path, a.mode);
    }
    OnePathFrame(w, UpdateState(WithRemoteMode(w, a), a, DirEntry(a.mode)), a.path);
  }

  lemma MadeRemoteFrame(w: World, a: Action)
    requires !Blocked(w.remote, a.path)
    ensures var w' := MadeRemote(w, a);
            Frame(w, w', a.path, false) && w'.local == w.local && w'.done <= w.done + {a.path}
  {
    if a.path in w.remote && w.remote[a.path].File? {
      ChmodRemoteFrame(w, a);
    } else {
      MkdirRemoteFrame(w, a);
    }
  }

  /** A live directory of that mode is recorded. */
  predicate RecordsDir(base: Baseline, p: Path, mode: nat) {
    p in base && base[p].isDir && base[p].mode == mode && !base[p].deleted
  }

  /** Both sides have the directory, and it is recorded. */
  predicate DirAgree(w: World, p: Path, n: Node) {
    n.Dir? && Lookup(w.local, p) == Some(n) && Lookup(w.remote, p) == Some(n) && RecordsDir(w.base, p, n.mode)
  }

  /** What is at the remote path then. */
  function MadeNode(remote: Tree, a: Action): Node {
    if a.path in remote && remote[a.path].File? then remote[a.path].(mode := a.mode) else Dir(a.mode)
  }

  lemma MadeRemoteAt(w: World, a: Action)
    ensures Lookup(MadeRemote(w, a).remote, a.path) == Some(MadeNode(w.remote, a))
    ensures StillCurrent(w, a) ==> RecordsDir(MadeRemote(w, a).base, a.path, a.mode)
  {
  }

  lemma RemoveLocalTreeFrame(w: World, p: Path, left: set<Path>)
    requires forall c :: c in w.copies && c in w.local ==> !Within(c, p)
    ensures Frame(w, RemoveLocalTree(w, p, left), p, true)
  {
    SameCopies(w, RemoveLocalTree(w, p, left));
    if Shaped(w) {
      SweptRooted(w, p, left);
    }
    forall q ensures FrameAt(w, RemoveLocalTree(w, p, left), p, true, q) {
    }
  }

  lemma ForgetTreeFrame(w: World, p: Path)
    ensures Frame(w, ForgetTree(w, p), p, true)
  {
    SameCopies(w, ForgetTree(w, p));
    forall q ensures FrameAt(w, ForgetTree(w, p), p, true, q) {
    }
  }

  /** The remote version is removed, and then its deletion mark. */
  lemma RemoveRemoteFrame(w: World, p: Path)
    requires !(p in w.remote && w.remote[p].Dir? && HasChildren(w.remote, p))
    ensures Frame(w, RemoveRemote(w, p), p, false)
    ensures Frame(w, RemoveRemote(w, p).(base := w.base - {p}), p, false)
  {
    if Shaped(w) {
      TakeRooted(w.remote, w.known, p);
    }
    OnePathFrame(w, RemoveRemote(w, p), p);
    OnePathFrame(w, RemoveRemote(w, p).(base := w.base - {p}), p);
  }

  lemma DeletedKeeps(w0: World, w: World, p: Path)
    requires Inv(w0, w) && p !in w.done
    requires p in w.remote && w.remote[p].File? ==> Synced(w0.base, p, w.remote[p].content)
    ensures Inv(w0, RemoveRemote(w, p)) && Inv(w0, RemoveRemote(w, p).(base := w.base - {p}))
  {
    RemoveRemoteKeeps(w0, w, p);
    BaselineKeeps(w0, RemoveRemote(w, p), w.base - {p}, w.next);
  }

  lemma ForgottenFrame(w: World, cleared: World, p: Path)
    requires Frame(w, cleared, p, true)
    ensures Frame(w, ForgetTree(cleared, p), p, true)
  {
    ForgetTreeFrame(cleared, p);
    FrameTrans(w, cleared, ForgetTree(cleared, p), p, true);
  }

  /** A subtree moved aside and forgotten. */
  lemma AsideSweeps(w: World, a: Action, target: Path)
    requires FreshName(w, target) && a.path in w.known && a.path !in w.copies
    ensures var w' := ForgetTree(MoveAside(w, a.path, target), a.path);
            Rescued(w, a, w') && Swept(w', a.path) && w'.remote == w.remote && w'.done == w.done
  {
    MovedSweeps(w, a.path, target);
    if a.path in w.local && w.local[a.path].File? {
      MovedIsCopied(w, a.path, target);
      SameCopies(MoveAside(w, a.path, target), ForgetTree(MoveAside(w, a.path, target), a.path));
    }
  }

  /** A subtree removed and forgotten, which was the recorded one. */
  lemma RemovalSweeps(w: World, a: Action)
    requires forall q :: q in w.local && Within(q, a.path) ==>
               MatchesStored(w.local[q], if q == a.path then a.stored else Lookup(w.base, q))
    ensures var w' := ForgetTree(RemoveLocalTree(w, a.path, {}), a.path);
            Rescued(w, a, w') && Swept(w', a.path) && w'.remote == w.remote && w'.done == w.done
  {
  }

  lemma RevivedFrame(w: World, p: Path)
    requires p in w.base
    ensures Frame(w, Revived(w, p), p, false)
  {
    OnePathFrame(w, Revived(w, p), p);
  }

  // ---- In step ---------------------------------------------------------------------------------

  /** Both sides hold the path, and planning it again finds nothing to do. */
  predicate InStep(w: World, p: Path) {
    p in w.local && p in w.remote && DecisionAt(w.local, w.remote, w.base, p) == Refresh
  }

  /** The action copies the mode of the side it starts from. */
  predicate Sourced(a: Action) {
    var from := if a.decision.Upload? then a.localMeta else a.remoteMeta;
    from.Some? && a.mode == from.value.mode && a.isDir == from.value.DirMeta?
  }

  /** A carried file is in step, unless its mode is 0: the default recorded in its place then differs
      from what the scan sees, and the next pass carries the file again. */
  lemma AdoptedInStep(w: World, a: Action, mtime: int)
    requires a.path in w.remote && w.remote[a.path].File? && RemoteCurrent(w, a) && a.mode == w.remote[a.path].mode
    requires a.path in w.local && w.local[a.path] == File(w.remote[a.path].content, FileMode(a), mtime)
    requires (a.path in w.base <==> a.stored.Some?)
    requires (a.path in w.base ==> w.base[a.path].version == a.stored.value.version)
    ensures InStep(Adopted(w, a, mtime), a.path) <==> a.mode != 0
  {
  }

  lemma DownloadedInStep(w: World, a: Action, target: Path, time: int)
    requires a.decision.Download? && a.path in w.known && FreshName(w, target)
    requires a.path in w.remote && w.remote[a.path].File? && StillCurrent(w, a) && RemoteCurrent(w, a)
    requires a.mode == w.remote[a.path].mode
    ensures var n := File(w.remote[a.path].content, FileMode(a), time);
            InStep(Adopted(PutLocal(Cleared(w, a, target), a.path, n), a, time), a.path) <==> a.mode != 0
  {
    var cleared := Cleared(w, a, target);
    assert cleared.remote == w.remote && cleared.base == w.base;
    AdoptedInStep(PutLocal(cleared, a.path, File(w.remote[a.path].content, FileMode(a), time)), a, time);
  }

  lemma PublishedInStep(w: World, a: Action, time: int)
    requires a.path in w.local && w.local[a.path].File? && StillCurrent(w, a) && a.mode == w.local[a.path].mode
    ensures var w' := UpdateState(Published(w, a, time), a,
                                  FileEntry(w.local[a.path].content, FileMode(a), w.local[a.path].mtime, time));
            InStep(w', a.path) <==> a.mode != 0
  {
  }

  lemma DirectoriesInStep(w: World, p: Path)
    requires p in w.local && p in w.remote && w.local[p].Dir? && w.remote[p] == w.local[p]
    ensures InStep(w, p)
  {
  }

  // ---- A pass that brings paths in step ---------------------------------------------------------

  /** The step may change more than one path. */
  predicate Sweeps(a: Action) {
    a.decision.DeleteLocal? || (a.decision.Download? && a.decision.conflict && !a.isDir)
  }

  predicate MakesDir(a: Action) {
    a.isDir && (a.decision.Upload? || a.decision.Download?)
  }

  /** The step leaves its path alone: a download of a file finds it marked deleted, or the file to upload
      is too large. */
  predicate Skips(w: World, a: Action, cap: nat) {
    && !a.isDir
    && ((a.decision.Download? && a.path in w.base && w.base[a.path].deleted)
        || (a.decision.Upload? && Large(w.local, a.path, cap)))
  }

  predicate Large(t: Tree, p: Path, cap: nat) {
    p in t && t[p].File? && |t[p].content| > cap
  }

  /** Once it succeeds, the step at an unchanged path has its effect. */
  predicate Will(w: World, a: Action, cap: nat) {
    && StillCurrent(w, a) && RemoteCurrent(w, a)
    && match a.decision
       case Upload => Sourced(a) && (a.isDir ==> !(a.path in w.remote && w.remote[a.path].File?))
       case Download(_) => Sourced(a) && (a.isDir ==> a.mode != 0)
       case DeleteLocal => !a.isDir && a.path !in w.remote
       case DeleteRemote =>
         && !a.isDir && a.path !in w.local && a.path in w.remote && w.remote[a.path].File?
         && a.path in w.base && w.base[a.path].deleted
       case _ => false
  }

  /** No path of the pass is left there or below, and none is recorded. */
  ghost predicate Swept(w: World, p: Path) {
    forall q :: q in w.known && Within(q, p) ==> q !in w.local && q !in w.base
  }

  lemma MovedSweeps(w: World, p: Path, target: Path)
    requires FreshName(w, target)
    ensures forall q :: q in w.known && Within(q, p) ==> q !in MoveAside(w, p, target).local
  {
    forall q | q in w.known && Within(q, p) ensures q !in MoveAside(w, p, target).local {
      if q in Targets(w.local, p, target) {
        MovedTarget(w, p, target, q);
      }
    }
  }

  predicate Gone(w: World, p: Path) {
    p !in w.local && p !in w.remote && p !in w.base
  }

  /** The remote bytes are on both sides, and other local bytes they conflicted with are in a copy. */
  ghost predicate Taken(w: World, a: Action, w': World) {
    && a.path in w.remote && w.remote[a.path].File? && Agree(w', a.path, w.remote[a.path].content)
    && (a.decision == Download(true) && a.path in w.local && w.local[a.path].File? &&
        w.local[a.path].content != w.remote[a.path].content ==>
          Copied(w', a.path, w.local[a.path].content))
  }

  /** A file that is not the recorded one is in a copy. */
  ghost predicate Rescued(w: World, a: Action, w': World) {
    a.path in w.local && w.local[a.path].File? && !MatchesStored(w.local[a.path], a.stored) ==>
      Copied(w', a.path, w.local[a.path].content)
  }

  /** The effect: a deleted path is gone, unless the remote version is not the one deleted, which is then
      taken; a skipped path is as it was; a carried directory is the same on both sides, and a carried
      file has the bytes of the side it came from. What is carried is in step, but for a file of mode 0. */
  ghost predicate Brought(w: World, a: Action, w': World, cap: nat) {
    if a.decision.DeleteLocal? then Gone(w', a.path) && Rescued(w, a, w')
    else if a.decision.DeleteRemote? then
      if RemoteMatchesStored(w.remote, a.path, a.stored) then Gone(w', a.path) else Taken(w, a, w')
    else if Skips(w, a, cap) then Same(w, w', a.path)
    else
      var from := if a.decision.Upload? then w.local else w.remote;
      && a.path in from && (a.isDir || a.mode != 0 ==> InStep(w', a.path))
      && (if a.isDir then DirAgree(w', a.path, from[a.path])
          else if a.decision.Download? then Taken(w, a, w')
          else from[a.path].File? && Agree(w', a.path, from[a.path].content))
  }

  predicate Same(w: World, w': World, p: Path) {
    && Lookup(w'.local, p) == Lookup(w.local, p) && Lookup(w'.remote, p) == Lookup(w.remote, p)
    && Lookup(w'.base, p) == Lookup(w.base, p)
  }

  /** What the pass leaves at the path. */
  ghost predicate Settled(start: World, w: World, plan: map<Path, Action>, cap: nat, p: Path) {
    if p in plan then plan[p].path == p && Brought(start, plan[p], w, cap) else InStep(w, p) && Same(start, w, p)
  }

  /** The paths a pass settles, and the world it set out from. */
  datatype Goal = Goal(start: World, plan: map<Path, Action>, cap: nat, paths: set<Path>) {
    ghost predicate At(w: World, done: set<Path>, p: Path) {
      p in paths ==>
        && p in w.known
        && (if p in done then Settled(start, w, plan, cap, p)
            else p in plan && plan[p].path == p && Will(start, plan[p], cap) && Same(start, w, p))
    }

    /** The paths in `done` are settled, the others as they were. */
    ghost predicate Reached(w: World, done: set<Path>) {
      forall p :: At(w, done, p)
    }

    /** The step at `q` touches no path of the goal that matters. */
    ghost predicate Spares(done: set<Path>, q: Path) {
      q in plan && forall p :: p in paths && p != q ==> !(Sweeps(plan[q]) && Under(p, q)) && SparesBelow(done, p, q)
    }

    /** What is below a path is acted on only once it is there on both sides. */
    ghost predicate SparesBelow(done: set<Path>, p: Path, q: Path) {
      Under(q, p) ==> p in done && (p in plan ==> MakesDir(plan[p]))
    }
  }

  lemma SettledStays(start: World, w: World, w': World, plan: map<Path, Action>, cap: nat, p: Path)
    requires Settled(start, w, plan, cap, p) && Same(w, w', p) && CopiesStay(w, w')
    ensures Settled(start, w', plan, cap, p)
  {
  }

  lemma BroughtFrom(start: World, w: World, a: Action, w': World, cap: nat)
    requires Same(start, w, a.path) && Brought(w, a, w', cap)
    ensures Brought(start, a, w', cap)
  {
  }

  lemma GoalStep(g: Goal, w: World, w': World, done: set<Path>, q: Path)
    requires g.Reached(w, done) && q in g.plan && q !in done && Frame(w, w', q, Sweeps(g.plan[q])) && g.Spares(done, q)
    requires q in g.paths ==> Settled(g.start, w', g.plan, g.cap, q)
    ensures g.Reached(w', done + {q})
  {
    forall p ensures g.At(w', done + {q}, p) {
      assert g.At(w, done, p) && FrameAt(w, w', q, Sweeps(g.plan[q]), p) && g.At(w, done, q);
      if p in g.paths && p != q && p in done {
        assert g.SparesBelow(done, p, q) && Same(w, w', p);
        SettledStays(g.start, w, w', g.plan, g.cap, p);
      }
    }
  }

  lemma WillStays(w: World, w': World, a: Action, cap: nat)
    requires Will(w, a, cap) && Same(w, w', a.path)
    ensures Will(w', a, cap)
  {
  }

  /** No planned step sweeps over the path, and none acts below a file or a deletion. */
  ghost predicate Clear(plan: map<Path, Action>, p: Path) {
    forall q :: q in plan && q != p ==>
      && !(Sweeps(plan[q]) && Under(p, q))
      && (p in plan && !MakesDir(plan[p]) ==> !Under(q, p))
  }

  /** The path is in step already, or its planned step will have its effect. */
  ghost predicate Settleable(start: World, plan: map<Path, Action>, cap: nat, p: Path) {
    && Clear(plan, p) && p in start.known
    && (if p in plan then plan[p].path == p && Will(start, plan[p], cap) else InStep(start, p))
  }

  function Listed(order: seq<Path>): set<Path> {
    set p | p in order
  }

  lemma ListedNext(order: seq<Path>, i: nat)
    requires i < |order|
    ensures Listed(order[..i + 1]) == Listed(order[..i]) + {order[i]} && Listed(order[..i + 1]) <= Listed(order)
  {
    assert order[..i + 1] == order[..i] + [order[i]];
  }

  lemma TakenNext(before: seq<Path>, order: seq<Path>, i: nat)
    requires i < |order|
    ensures before + order[..i + 1] == before + order[..i] + [order[i]]
  {
  }

  lemma TakenAll(before: seq<Path>, order: seq<Path>)
    ensures before + order[..0] == before && order[..|order|] == order && Listed(order[..0]) == {}
  {
  }

  lemma NotBelowLater(order: seq<Path>, i: nat, j: nat)
    requires SortedBy(PathBefore, order) && i < j < |order|
    ensures !Under(order[i], order[j])
  {
    if Under(order[i], order[j]) {
      UnderIsDeeper(order[i], order[j]);
    }
  }

  /** Directories are made from the top, so none is made below one of the goal that is still to come. */
  lemma SparesDirectories(g: Goal, done: set<Path>, order: seq<Path>, i: nat)
    requires SortedBy(PathBefore, order) && i < |order| && order[i] in g.plan
    requires forall p :: p in g.paths ==> Clear(g.plan, p)
    requires forall p :: p in g.paths && p !in done ==> p in g.plan && (p in order || !g.plan[p].isDir)
    ensures g.Spares(done + Listed(order[..i]), order[i])
  {
    var q := order[i];
    forall p | p in g.paths && p != q
      ensures !(Sweeps(g.plan[q]) && Under(p, q)) && g.SparesBelow(done + Listed(order[..i]), p, q)
    {
      assert Clear(g.plan, p);
      if p in order && p !in Listed(order[..i]) {
        var j :| 0 <= j < |order| && order[j] == p;
        assert i < j;
        NotBelowLater(order, i, j);
      }
    }
  }

  lemma SparesFiles(g: Goal, done: set<Path>, q: Path)
    requires q in g.plan
    requires forall p :: p in g.paths ==> Clear(g.plan, p) && (p in done || (p in g.plan && !g.plan[p].isDir))
    ensures g.Spares(done, q)
  {
    forall p | p in g.paths && p != q
      ensures !(Sweeps(g.plan[q]) && Under(p, q)) && g.SparesBelow(done, p, q)
    {
      assert Clear(g.plan, p);
    }
  }

  /** A file that is on both sides and marked deleted is planned for download unless the metadata match,
      and no other marked file is. The step skips it, so that the next pass plans the same again. */
  lemma SkippedIff(w: World, p: Path, cap: nat)
    requires p in w.remote && w.remote[p].File?
    ensures var a := ActionAt(w.local, w.remote, w.base, p);
            a.decision.Download? && Skips(w, a, cap) <==>
              && p in w.local && p in w.base && w.base[p].deleted
              && !MetaMatch(MetaOf(w.local[p]), MetaOf(w.remote[p]), Some(w.base[p]))
    ensures forall w' :: Same(w, w', p) && Skips(w, ActionAt(w.local, w.remote, w.base, p), cap) ==>
              ActionAt(w'.local, w'.remote, w'.base, p) == ActionAt(w.local, w.remote, w.base, p)
  {
  }

  // ---- A pass that completes ----------------------------------------------------------------------

  /** What planning fixes of an action. */
  predicate Formed(a: Action) {
    match a.decision
    case Upload => Sourced(a)
    case Download(_) => Sourced(a)
    case DeleteRemote => a.localMeta.None? && a.remoteMeta.Some? && a.isDir == a.remoteMeta.value.DirMeta?
    case _ => true
  }

  lemma PlannedIsFormed(w0: World, base: Baseline, a: Action)
    requires Planned(w0, base, a)
    ensures Formed(a)
  {
  }

  /** The two sides do not disagree about what is a file and what a directory, and no remote directory is
      to be deleted. */
  predicate Level(a: Action) {
    && !(a.localMeta.Some? && a.remoteMeta.Some? && a.localMeta.value.DirMeta? != a.remoteMeta.value.DirMeta?)
    && !(a.decision.DeleteRemote? && a.isDir)
  }

  /** Nothing is in the way of the step: no file above its path on either side. */
  predicate Free(w: World, a: Action) {
    Level(a) && !Blocked(w.local, a.path) && !Blocked(w.remote, a.path)
  }

  ghost predicate AllFree(w: World, plan: map<Path, Action>) {
    forall p :: p in plan ==> Free(w, plan[p])
  }

  /** Nothing gets in the way during the pass. */
  lemma StaysFree(w0: World, w: World, a: Action)
    requires Inv(w0, w) && a.path in w.known && Free(w0, a)
    ensures Free(w, a)
  {
    forall d | d in Ancestors(a.path) ensures !FileAt(w, d) {
      AncestorsAreAbove(a.path, d);
      assert d in w.copies ==> HoldsNone(w.known, d);
    }
  }
}
