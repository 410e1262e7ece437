/**
 What a recovery pass plans for one path: the three-way comparison of the local tree, the remote tree
 and the recorded baseline by metadata alone. Hashes identify bytes, so an entry holds the bytes its
 recorded hash stands for.
 */
module RecoveryPlan {
  import opened Hashing
  import opened Paths
  import opened Results

  datatype Node = File(content: Bytes, mode: nat, mtime: int) | Dir(mode: nat)

  type Tree = map<Path, Node>

  datatype Entry = Entry(isDir: bool, mode: nat, size: nat, content: Option<Bytes>, localMtime: int, remoteMtime: int,
                         deleted: bool, version: nat)

  type Baseline = map<Path, Entry>

  /** What a scan records of a node. */
  datatype Meta = FileMeta(size: nat, mode: nat, mtime: int) | DirMeta(mode: nat)

  function MetaOf(n: Node): Meta {
    match n
    case File(content, mode, mtime) => FileMeta(|content|, mode, mtime)
    case Dir(mode) => DirMeta(mode)
  }

  function MetaAt(t: Tree, p: Path): Option<Meta> {
    if p in t then Some(MetaOf(t[p])) else None
  }

  /** A recorded time of 0 is unknown, and is not compared. */
  predicate ObservedChanged(meta: Meta, stored: Entry, localSide: bool) {
    || stored.deleted || meta.DirMeta? != stored.isDir
    || (match meta
        case DirMeta(mode) => stored.mode != 0 && mode != 0 && mode != stored.mode
        case FileMeta(size, _, mtime) =>
          var recorded := if localSide then stored.localMtime else stored.remoteMtime;
          size != stored.size || (recorded != 0 && mtime != recorded))
  }

  predicate Changed(meta: Meta, stored: Entry, localSide: bool) {
    ObservedChanged(meta, stored, localSide) || meta.mode != stored.mode
  }

  predicate MetaMatch(l: Meta, r: Meta, stored: Option<Entry>) {
    match (l, r)
    case (DirMeta(lm), DirMeta(rm)) => lm == rm
    case (FileMeta(ls, lm, lt), FileMeta(rs, rm, rt)) =>
      && ls == rs && lm == rm && stored.Some? && stored.value.size == ls
      && lt == stored.value.localMtime && rt == stored.value.remoteMtime
    case _ => false
  }

  datatype Decision = Nothing | Refresh | Upload | Download(conflict: bool) | DeleteLocal | DeleteRemote

  function Decide(l: Option<Meta>, r: Option<Meta>, stored: Option<Entry>, liveBelow: bool): Decision {
    match (l, r)
    case (None, None) => Nothing
    case (Some(_), None) => if stored.Some? && !stored.value.deleted then DeleteLocal else Upload
    case (None, Some(there)) =>
      if stored.Some? && stored.value.deleted && !(there.DirMeta? && liveBelow) then DeleteRemote else Download(false)
    case (Some(here), Some(there)) =>
      if MetaMatch(here, there, stored) then Refresh
      else if stored.Some? && !stored.value.deleted then
        var localChanged, remoteChanged := Changed(here, stored.value, true), Changed(there, stored.value, false);
        if localChanged && !remoteChanged then Upload
        else if remoteChanged then Download(localChanged)
        else Refresh
      else Download(true)
  }

  /** A remote entry below a directory that is not awaiting deletion. */
  predicate LiveBelow(p: Path, remote: Tree, base: Baseline) {
    exists q :: q in remote && Under(q, p) && !(q in base && base[q].deleted)
  }

  function DecisionAt(local: Tree, remote: Tree, base: Baseline, p: Path): Decision {
    Decide(MetaAt(local, p), MetaAt(remote, p), Lookup(base, p), LiveBelow(p, remote, base))
  }

  // ---- When metadata is enough ------------------------------------------------------------

  /** The bytes of a file are the ones recorded as synchronised at its path. */
  predicate Synced(base: Baseline, p: Path, content: Bytes) {
    p in base && base[p].content == Some(content)
  }

  /** A file whose size and time are the recorded ones still holds the recorded bytes. */
  ghost predicate TimesReveal(t: Tree, base: Baseline, localSide: bool) {
    forall p :: p in t && t[p].File? && p in base && !base[p].isDir &&
                |t[p].content| == base[p].size &&
                t[p].mtime == (if localSide then base[p].localMtime else base[p].remoteMtime) ==>
      base[p].content == Some(t[p].content)
  }

  ghost predicate TimesKnown(base: Baseline) {
    forall p :: p in base && !base[p].isDir ==> base[p].localMtime != 0 && base[p].remoteMtime != 0
  }

  /** A plain download replaces, and an upload overwrites, only synchronised bytes. */
  lemma OverwritesOnlySynced(local: Tree, remote: Tree, base: Baseline, p: Path)
    requires TimesReveal(local, base, true) && TimesReveal(remote, base, false) && TimesKnown(base)
    ensures DecisionAt(local, remote, base, p) == Download(false) && p in local && local[p].File? ==>
              Synced(base, p, local[p].content)
    ensures DecisionAt(local, remote, base, p) == Upload && p in remote && remote[p].File? ==>
              Synced(base, p, remote[p].content)
  {
  }

  /** Without known times this fails exactly when the recorded time of the overwritten side is 0: the
      side's new bytes have the recorded size and mode, and the other side was seen to change. */
  lemma OverwritesUnsyncedIff(local: Tree, remote: Tree, base: Baseline, p: Path)
    requires TimesReveal(local, base, true) && TimesReveal(remote, base, false)
    requires p in local && p in remote && local[p].File? && remote[p].File?
    ensures DecisionAt(local, remote, base, p) == Download(false) && !Synced(base, p, local[p].content) <==>
            && p in base && !base[p].deleted && !base[p].isDir && base[p].localMtime == 0
            && base[p].content != Some(local[p].content)
            && |local[p].content| == base[p].size && local[p].mode == base[p].mode
            && Changed(MetaOf(remote[p]), base[p], false)
    ensures DecisionAt(local, remote, base, p) == Upload && !Synced(base, p, remote[p].content) <==>
            && p in base && !base[p].deleted && !base[p].isDir && base[p].remoteMtime == 0
            && base[p].content != Some(remote[p].content)
            && |remote[p].content| == base[p].size && remote[p].mode == base[p].mode
            && Changed(MetaOf(local[p]), base[p], true)
  {
  }
}
