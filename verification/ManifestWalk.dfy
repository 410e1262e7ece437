/**
 Building a manifest from the inode tree: the pipelined level-order walk against the recursive
 walk it replaces. Paths are component lists; "/" is the empty list.
 */
module ManifestWalk {
  import opened Results
  import opened Hashing

  type Id = string
  type Name = string
  type Route = seq<Name>

  const ROOT_INODE: Id := "1"
  const INLINE_THRESHOLD := 4096

  datatype InodeKind = DirInode | FileInode | LinkInode | OtherInode

  /** `external` marks content held under a separate key. */
  datatype Inode = Inode(kind: InodeKind, mode: nat, mtime: int, target: string, content: Bytes, external: bool)

  datatype Store = Store(inodes: map<Id, Inode>, dirents: map<Id, map<Name, Id>>, contents: map<Id, Bytes>)

  datatype Entry = Entry(kind: InodeKind, mode: nat, mtime: int, size: nat, inline: Bytes, blobId: Hash, target: string)

  datatype Stats = Stats(files: nat, dirs: nat, bytes: nat)

  datatype Built = Built(entries: map<Route, Entry>, blobs: map<Hash, Bytes>, stats: Stats)

  const EMPTY := Built(map[], map[], Stats(0, 0, 0))

  // ---- Reading -------------------------------------------------------------------

  predicate IgnoredName(name: Name) {
    || "._" <= name
    || name in {".DS_Store", ".Spotlight-V100", ".TemporaryItems", ".Trashes", ".fseventsd", ".nfs-check"}
  }

  predicate Ignored(route: Route) {
    exists i :: 0 <= i < |route| && IgnoredName(route[i])
  }

  function Dirents(store: Store, id: Id): map<Name, Id> {
    if id in store.dirents then store.dirents[id] else map[]
  }

  /** The walk lists the children of this inode at this path. */
  predicate Descends(store: Store, id: Id, route: Route) {
    id in store.inodes && store.inodes[id].kind == DirInode && !Ignored(route)
  }

  /** The inode a path leads to through listed directories. */
  function Resolve(store: Store, route: Route): Option<Id> {
    if route == [] then Some(ROOT_INODE)
    else
      var parent, name := route[..|route| - 1], route[|route| - 1];
      match Resolve(store, parent)
      case None => None
      case Some(id) =>
        if Descends(store, id, parent) && name in Dirents(store, id) then Some(Dirents(store, id)[name]) else None
  }

  /** External content that cannot be loaded. */
  predicate Unloadable(store: Store, id: Id) {
    id in store.inodes && store.inodes[id].kind == FileInode && store.inodes[id].external && id !in store.contents
  }

  function Data(store: Store, id: Id): Bytes
    requires id in store.inodes
  {
    var inode := store.inodes[id];
    if inode.kind == FileInode && inode.external && id in store.contents then store.contents[id] else inode.content
  }

  function EntryOf(sha: Sha, inode: Inode, data: Bytes): Entry {
    match inode.kind
    case DirInode => Entry(DirInode, inode.mode, inode.mtime, 0, [], [], "")
    case FileInode =>
      if |data| <= INLINE_THRESHOLD then Entry(FileInode, inode.mode, inode.mtime, |data|, data, [], "")
      else Entry(FileInode, inode.mode, inode.mtime, |data|, [], sha(data), "")
    case LinkInode => Entry(LinkInode, inode.mode, inode.mtime, |inode.target|, [], [], inode.target)
    case OtherInode => Entry(OtherInode, inode.mode, inode.mtime, 0, [], [], "")
  }

  /** What either walk does on reaching a known inode. */
  function Add(sha: Sha, b: Built, route: Route, inode: Inode, data: Bytes): Built {
    var entry := EntryOf(sha, inode, data);
    var blobs := if entry.blobId != [] && entry.blobId !in b.blobs then b.blobs[entry.blobId := data] else b.blobs;
    Built(b.entries[route := entry], blobs, AddStats(b.stats, StatsOfEntry(route, entry)))
  }

  function StatsOfEntry(route: Route, entry: Entry): Stats {
    match entry.kind
    case DirInode => Stats(0, if route == [] then 0 else 1, 0)
    case FileInode => Stats(1, 0, entry.size)
    case _ => Stats(0, 0, 0)
  }

  function AddStats(a: Stats, b: Stats): Stats {
    Stats(a.files + b.files, a.dirs + b.dirs, a.bytes + b.bytes)
  }

  // ---- The specification of a manifest --------------------------------------------

  /** The path is in the manifest. */
  predicate Recorded(store: Store, route: Route) {
    var r := Resolve(store, route);
    r.Some? && r.value in store.inodes && !Ignored(route) && store.inodes[r.value].kind != OtherInode
  }

  /** The recursive walk stops here with an error. */
  predicate Broken(store: Store, route: Route) {
    var r := Resolve(store, route);
    r.Some? && (r.value !in store.inodes || (!Ignored(route) && store.inodes[r.value].kind == OtherInode))
  }

  function EntryAt(sha: Sha, store: Store, route: Route): Entry
    requires Recorded(store, route)
  {
    var id := Resolve(store, route).value;
    EntryOf(sha, store.inodes[id], Data(store, id))
  }

  ghost function Pick(m: map<Route, Entry>): (r: Route)
    requires m != map[]
    ensures r in m
  {
    var r :| r in m;
    r
  }

  /** The total weight of a set of entries. */
  ghost function Total(m: map<Route, Entry>, w: (Route, Entry) -> nat): nat
    decreases |m|
  {
    if m == map[] then 0 else w(Pick(m), m[Pick(m)]) + Total(m - {Pick(m)}, w)
  }

  /** The total does not depend on the order entries were added in. */
  lemma {:induction false} TotalInsert(m: map<Route, Entry>, w: (Route, Entry) -> nat, r: Route, e: Entry)
    requires r !in m
    ensures Total(m[r := e], w) == Total(m, w) + w(r, e)
    decreases |m|
  {
    var all := m[r := e];
    assert r in all;
    var q := Pick(all);
    if q == r {
      assert all - {q} == m;
    } else {
      var rest := m - {q};
      assert all - {q} == rest[r := e];
      TotalInsert(rest, w, r, e);
      assert m == rest[q := m[q]];
      TotalInsert(rest, w, q, m[q]);
    }
  }

  ghost function StatsOf(entries: map<Route, Entry>): Stats {
    Stats(Total(entries, (r, e) => StatsOfEntry(r, e).files),
          Total(entries, (r, e) => StatsOfEntry(r, e).dirs),
          Total(entries, (r, e) => StatsOfEntry(r, e).bytes))
  }

  lemma StatsOfInsert(entries: map<Route, Entry>, r: Route, e: Entry)
    requires r !in entries
    ensures StatsOf(entries[r := e]) == AddStats(StatsOf(entries), StatsOfEntry(r, e))
  {
    TotalInsert(entries, (r, e) => StatsOfEntry(r, e).files, r, e);
    TotalInsert(entries, (r, e) => StatsOfEntry(r, e).dirs, r, e);
    TotalInsert(entries, (r, e) => StatsOfEntry(r, e).bytes, r, e);
  }

  /** The blobs are exactly those the entries name, under their own hash. */
  ghost predicate BlobsMatch(sha: Sha, entries: map<Route, Entry>, blobs: map<Hash, Bytes>) {
    && (forall h :: h in blobs ==> h != [] && sha(blobs[h]) == h && Named(entries, h))
    && (forall r :: r in entries && entries[r].blobId != [] ==> entries[r].blobId in blobs)
  }

  ghost predicate Named(entries: map<Route, Entry>, h: Hash) {
    exists r :: r in entries && entries[r].blobId == h
  }

  /** Blobs and counters are those of the entries. */
  ghost predicate Coherent(sha: Sha, b: Built) {
    b.stats == StatsOf(b.entries) && BlobsMatch(sha, b.entries, b.blobs)
  }

  lemma AddKeepsBlobs(sha: Sha, entries: map<Route, Entry>, blobs: map<Hash, Bytes>, route: Route, entry: Entry,
                      data: Bytes)
    requires BlobsMatch(sha, entries, blobs) && route !in entries
    requires entry.blobId != [] ==> entry.blobId == sha(data)
    ensures BlobsMatch(sha, entries[route := entry],
                       if entry.blobId != [] && entry.blobId !in blobs then blobs[entry.blobId := data] else blobs)
  {
    var entries' := entries[route := entry];
    forall h | Named(entries, h) || h == entry.blobId
      ensures Named(entries', h)
    {
      if Named(entries, h) {
        var r :| r in entries && entries[r].blobId == h;
        assert r in entries' && entries'[r].blobId == h;
      } else {
        assert route in entries' && entries'[route].blobId == h;
      }
    }
  }

  lemma AddIsCoherent(sha: Sha, b: Built, route: Route, inode: Inode, data: Bytes)
    requires Coherent(sha, b) && route !in b.entries
    ensures Coherent(sha, Add(sha, b, route, inode, data))
  {
    StatsOfInsert(b.entries, route, EntryOf(sha, inode, data));
    AddKeepsBlobs(sha, b.entries, b.blobs, route, EntryOf(sha, inode, data), data);
  }

  /** Coherent manifests with the same entries are the same manifest. */
  lemma CoherentUnique(sha: Sha, a: Built, b: Built)
    requires Ideal(sha) && Coherent(sha, a) && Coherent(sha, b) && a.entries == b.entries
    ensures a == b
  {
    forall h | h in a.blobs
      ensures h in b.blobs && a.blobs[h] == b.blobs[h]
    {
      assert Named(a.entries, h);
      assert sha(a.blobs[h]) == sha(b.blobs[h]);
    }
    forall h | h in b.blobs
      ensures h in a.blobs
    {
      assert Named(b.entries, h);
    }
    assert a.blobs == b.blobs;
  }

  // ---- What a manifest keeps of the store ---------------------------------------------

  /** The bytes a reader of the manifest finds for an entry: its blob if it has one. */
  function Restored(b: Built, e: Entry): Bytes {
    if e.blobId in b.blobs then b.blobs[e.blobId] else e.inline
  }

  /** The bytes the store has for a file: those under the separate key, or the inode's own. */
  predicate HasBytes(store: Store, id: Id, data: Bytes)
    requires id in store.inodes
  {
    if store.inodes[id].external then id in store.contents ==> data == store.contents[id]
    else data == store.inodes[id].content
  }

  /** The entry tells all the inode does: a reader gets a file's bytes and a link's target back. */
  predicate Keeps(store: Store, b: Built, id: Id, e: Entry) {
    && id in store.inodes
    && e.kind == store.inodes[id].kind && e.mode == store.inodes[id].mode && e.mtime == store.inodes[id].mtime
    && (e.kind == FileInode ==> HasBytes(store, id, Restored(b, e)) && e.size == |Restored(b, e)|)
    && (e.kind == LinkInode ==> e.target == store.inodes[id].target)
  }

  ghost predicate KeepsAt(store: Store, b: Built, q: Route)
    requires q in b.entries
  {
    Resolve(store, q).Some? && Keeps(store, b, Resolve(store, q).value, b.entries[q])
  }

  /** Entries made from the store keep it, with the blobs they name. */
  lemma EntryKeeps(sha: Sha, store: Store, b: Built, q: Route)
    requires Ideal(sha) && BlobsMatch(sha, b.entries, b.blobs)
    requires Recorded(store, q) && q in b.entries && b.entries[q] == EntryAt(sha, store, q)
    ensures KeepsAt(store, b, q)
  {
    var id := Resolve(store, q).value;
    var e := b.entries[q];
    if e.kind == FileInode && e.blobId != [] {
      assert sha(b.blobs[e.blobId]) == sha(Data(store, id));
    }
    assert Digest(sha(Data(store, id)));
  }

  ghost function Chosen(m: map<Route, Entry>, chosen: (Route, Entry) -> bool): set<Route> {
    set r | r in m && chosen(r, m[r])
  }

  lemma ChosenStep(m: map<Route, Entry>, chosen: (Route, Entry) -> bool, q: Route)
    requires q in m
    ensures |Chosen(m, chosen)| == |Chosen(m - {q}, chosen)| + if chosen(q, m[q]) then 1 else 0
  {
    var others := Chosen(m - {q}, chosen);
    assert Chosen(m, chosen) == if chosen(q, m[q]) then others + {q} else others;
  }

  lemma {:induction false} TotalCounts(m: map<Route, Entry>, w: (Route, Entry) -> nat, chosen: (Route, Entry) -> bool)
    requires forall r, e :: w(r, e) == if chosen(r, e) then 1 else 0
    ensures Total(m, w) == |Chosen(m, chosen)|
    decreases |m|
  {
    if m == map[] {
      assert Chosen(m, chosen) == {};
    } else {
      TotalCounts(m - {Pick(m)}, w, chosen);
      ChosenStep(m, chosen, Pick(m));
    }
  }

  /** The counters are the number of files, the number of directories besides the root, and the bytes of
      all files. */
  lemma CountersCount(sha: Sha, b: Built)
    requires Coherent(sha, b)
    ensures b.stats.files == |set q | q in b.entries && b.entries[q].kind == FileInode|
    ensures b.stats.dirs == |set q | q in b.entries && q != [] && b.entries[q].kind == DirInode|
    ensures b.stats.bytes == Total(b.entries, FileBytes)
  {
    var file := (q: Route, e: Entry) => e.kind == FileInode;
    var dir := (q: Route, e: Entry) => q != [] && e.kind == DirInode;
    TotalCounts(b.entries, (r, e) => StatsOfEntry(r, e).files, file);
    TotalCounts(b.entries, (r, e) => StatsOfEntry(r, e).dirs, dir);
    SameTotal(b.entries, (r, e) => StatsOfEntry(r, e).bytes, FileBytes);
    assert Chosen(b.entries, file) ==
           set q | q in b.entries && b.entries[q].kind == FileInode;
    assert Chosen(b.entries, dir) ==
           set q | q in b.entries && q != [] && b.entries[q].kind == DirInode;
  }

  function FileBytes(q: Route, e: Entry): nat {
    if e.kind == FileInode then e.size else 0
  }

  lemma {:induction false} SameTotal(m: map<Route, Entry>, w: (Route, Entry) -> nat, w': (Route, Entry) -> nat)
    requires forall r, e :: w(r, e) == w'(r, e)
    ensures Total(m, w) == Total(m, w')
    decreases |m|
  {
    if m != map[] {
      SameTotal(m - {Pick(m)}, w, w');
    }
  }

  /** A name that no system keeps for itself: it does not begin with a dot, or it is a name in lower case
      behind a dot, such as that of a repository or of a configuration file. */
  predicate OrdinaryName(name: Name) {
    name != "" && (name[0] != '.' || (|name| > 1 && 'a' <= name[1] <= 'z' && name !in {".fseventsd", ".nfs-check"}))
  }

  /** A path followed from name to name: each is an entry of the directory before it. */
  ghost predicate Trail(store: Store, route: Route, ids: seq<Id>) {
    |ids| == |route| + 1 && ids[0] == ROOT_INODE && forall i :: 0 <= i < |route| ==> TrailAt(store, route, ids, i)
  }

  ghost predicate TrailAt(store: Store, route: Route, ids: seq<Id>, i: nat)
    requires i < |route| < |ids|
  {
    && ids[i] in store.inodes && store.inodes[ids[i]].kind == DirInode && ids[i] in store.dirents
    && route[i] in store.dirents[ids[i]] && store.dirents[ids[i]][route[i]] == ids[i + 1]
  }

  lemma TrailPrefix(store: Store, route: Route, ids: seq<Id>, n: nat)
    requires Trail(store, route, ids) && n < |route|
    ensures Trail(store, route[..n], ids[..n + 1]) && TrailAt(store, route, ids, n)
  {
    var first, before := route[..n], ids[..n + 1];
    forall i | 0 <= i < n ensures TrailAt(store, first, before, i) {
      assert TrailAt(store, route, ids, i);
    }
  }

  /** A path of ordinary names is resolved to where its trail leads. */
  lemma {:induction false} TrailResolves(store: Store, route: Route, ids: seq<Id>)
    requires Trail(store, route, ids) && forall i :: 0 <= i < |route| ==> OrdinaryName(route[i])
    ensures Resolve(store, route) == Some(ids[|route|])
  {
    if route != [] {
      var n := |route| - 1;
      TrailPrefix(store, route, ids, n);
      TrailResolves(store, route[..n], ids[..n + 1]);
      NotIgnored(route[..n]);
    }
  }

  lemma NotIgnored(route: Route)
    requires forall i :: 0 <= i < |route| ==> OrdinaryName(route[i])
    ensures !Ignored(route)
  {
    forall i | 0 <= i < |route| ensures !IgnoredName(route[i]) {
      assert OrdinaryName(route[i]);
    }
  }

  /** What is at the end of a trail of ordinary names is recorded, unless its type is unknown. */
  lemma TrailIsRecorded(store: Store, route: Route, ids: seq<Id>)
    requires Trail(store, route, ids) && (forall i :: 0 <= i < |route| ==> OrdinaryName(route[i]))
    requires ids[|route|] in store.inodes
    ensures Recorded(store, route) <==> store.inodes[ids[|route|]].kind != OtherInode
    ensures Resolve(store, route) == Some(ids[|route|])
  {
    TrailResolves(store, route, ids);
    NotIgnored(route);
  }

  /** Every edge leads to a smaller rank: the inode graph has no cycle. */
  ghost predicate Acyclic(store: Store, rank: Id -> nat) {
    forall id, name :: id in store.dirents && name in store.dirents[id] ==> rank(store.dirents[id][name]) < rank(id)
  }

  lemma {:induction false} ResolvePrefix(store: Store, route: Route, n: nat)
    requires Resolve(store, route).Some? && n <= |route|
    ensures Resolve(store, route[..n]).Some?
  {
    if n < |route| {
      ResolvePrefix(store, route[..|route| - 1], n);
      assert route[..|route| - 1][..n] == route[..n];
    } else {
      assert route[..n] == route;
    }
  }

  // ---- The recursive walk -----------------------------------------------------------

  /** A path and what lies below it, through all names or through the listed ones. */
  datatype Region = Region(route: Route, names: Option<set<Name>>) {
    predicate Has(q: Route) {
      route <= q && (|q| == |route| || names.None? || q[|route|] in names.value)
    }
  }

  function Below(route: Route): Region {
    Region(route, None)
  }

  /** `now` is `before` plus the recorded paths of a region that was empty before. */
  ghost predicate Extended(sha: Sha, store: Store, before: map<Route, Entry>, now: map<Route, Entry>, region: Region) {
    && (forall q :: q in now <==> q in before || (region.Has(q) && Recorded(store, q)))
    && (forall q :: q in before ==> now[q] == before[q])
    && (forall q :: q in now && q !in before ==> now[q] == EntryAt(sha, store, q))
  }

  ghost predicate NoneBroken(store: Store, region: Region) {
    forall q :: region.Has(q) ==> !Broken(store, q)
  }

  lemma NothingBelow(store: Store, route: Route, q: Route)
    requires Resolve(store, route).Some? && !Descends(store, Resolve(store, route).value, route)
    requires route < q
    ensures Resolve(store, q).None?
  {
    var child := q[..|route| + 1];
    assert child[..|route|] == route;
    if Resolve(store, q).Some? {
      ResolvePrefix(store, q, |route| + 1);
    }
  }

  lemma OnlyDirents(store: Store, route: Route, q: Route)
    requires Resolve(store, route).Some? && route < q && Resolve(store, q).Some?
    ensures q[|route|] in Dirents(store, Resolve(store, route).value)
  {
    var child := q[..|route| + 1];
    assert child[..|route|] == route;
    ResolvePrefix(store, q, |route| + 1);
  }

  /** A path the walk does not descend into stands for its whole region. */
  lemma LeafRegion(sha: Sha, store: Store, route: Route, before: map<Route, Entry>)
    requires Resolve(store, route).Some? && !Descends(store, Resolve(store, route).value, route) && route !in before
    ensures NoneBroken(store, Below(route)) <==> !Broken(store, route)
    ensures Extended(sha, store, before,
                     if Recorded(store, route) then before[route := EntryAt(sha, store, route)] else before,
                     Below(route))
  {
    forall q | Below(route).Has(q) && q != route
      ensures Resolve(store, q).None?
    {
      NothingBelow(store, route, q);
    }
    assert Below(route).Has(route);
  }

  /** A directory starts with no child visited. */
  lemma DirectoryRegion(sha: Sha, store: Store, route: Route, before: map<Route, Entry>)
    requires Recorded(store, route) && route !in before
    ensures NoneBroken(store, Region(route, Some({})))
    ensures Extended(sha, store, before, before[route := EntryAt(sha, store, route)], Region(route, Some({})))
  {
    forall q | Region(route, Some({})).Has(q)
      ensures q == route
    {
    }
  }

  lemma ChildRegion(route: Route, done: set<Name>, name: Name, q: Route)
    ensures Region(route, Some(done + {name})).Has(q) <==>
              Region(route, Some(done)).Has(q) || Below(route + [name]).Has(q)
  {
    if Below(route + [name]).Has(q) {
      assert q[|route|] == name && q[..|route|] == route;
    }
    if |q| > |route| && route <= q && q[|route|] == name {
      assert q[..|route| + 1] == route + [name];
    }
  }

  lemma AddChild(sha: Sha, store: Store, route: Route, done: set<Name>, name: Name,
                 before: map<Route, Entry>, mid: map<Route, Entry>, now: map<Route, Entry>)
    requires Extended(sha, store, before, mid, Region(route, Some(done)))
    requires Extended(sha, store, mid, now, Below(route + [name]))
    ensures Extended(sha, store, before, now, Region(route, Some(done + {name})))
  {
    forall q
      ensures Region(route, Some(done + {name})).Has(q) <==>
                Region(route, Some(done)).Has(q) || Below(route + [name]).Has(q)
    {
      ChildRegion(route, done, name, q);
    }
  }

  lemma AddChildUnbroken(store: Store, route: Route, done: set<Name>, name: Name)
    ensures NoneBroken(store, Region(route, Some(done + {name}))) <==>
              NoneBroken(store, Region(route, Some(done))) && NoneBroken(store, Below(route + [name]))
  {
    forall q
      ensures Region(route, Some(done + {name})).Has(q) <==>
                Region(route, Some(done)).Has(q) || Below(route + [name]).Has(q)
    {
      ChildRegion(route, done, name, q);
    }
  }

  /** All directory entries visited: the whole region. */
  lemma AllChildren(sha: Sha, store: Store, route: Route, before: map<Route, Entry>, now: map<Route, Entry>)
    requires Resolve(store, route).Some?
    ensures var names := Dirents(store, Resolve(store, route).value).Keys;
            && (NoneBroken(store, Region(route, Some(names))) <==> NoneBroken(store, Below(route)))
            && (Extended(sha, store, before, now, Region(route, Some(names))) ==>
                  Extended(sha, store, before, now, Below(route)))
  {
    var names := Dirents(store, Resolve(store, route).value).Keys;
    forall q | Resolve(store, q).Some?
      ensures Below(route).Has(q) <==> Region(route, Some(names)).Has(q)
    {
      if route < q {
        OnlyDirents(store, route, q);
      }
    }
  }

  class RecursiveWalk {
    const sha: Sha
    const store: Store
    var built: Built

    constructor (sha: Sha, store: Store)
      ensures built == EMPTY && this.sha == sha && this.store == store
    {
      this.sha, this.store, built := sha, store, EMPTY;
    }

    /** Fails exactly when a path at or below `route` is missing its inode or of an unknown type. */
    method AppendWorkspaceRootManifest(id: Id, route: Route, ghost rank: Id -> nat) returns (ok: bool)
      requires Acyclic(store, rank) && Resolve(store, route) == Some(id)
      requires Coherent(sha, built) && forall q :: Below(route).Has(q) ==> q !in built.entries
      modifies this
      ensures ok <==> NoneBroken(store, Below(route))
      ensures ok ==> Coherent(sha, built) && Extended(sha, store, old(built.entries), built.entries, Below(route))
      ensures ok && Ideal(sha) ==>
                forall q :: q in built.entries && q !in old(built.entries) ==> KeepsAt(store, built, q)
      decreases rank(id), 1
    {
      ok := Append(id, route, rank);
      if ok && Ideal(sha) {
        forall q | q in built.entries && q !in old(built.entries) ensures KeepsAt(store, built, q) {
          EntryKeeps(sha, store, built, q);
        }
      }
    }

    method Append(id: Id, route: Route, ghost rank: Id -> nat) returns (ok: bool)
      requires Acyclic(store, rank) && Resolve(store, route) == Some(id)
      requires Coherent(sha, built) && forall q :: Below(route).Has(q) ==> q !in built.entries
      modifies this
      ensures ok <==> NoneBroken(store, Below(route))
      ensures ok ==> Coherent(sha, built) && Extended(sha, store, old(built.entries), built.entries, Below(route))
      decreases rank(id), 1
    {
      assert Below(route).Has(route);
      if id !in store.inodes {
        return false;
      }
      var inode := store.inodes[id];
      if Ignored(route) {
        LeafRegion(sha, store, route, built.entries);
        return true;
      }
      if inode.kind == OtherInode {
        return false;
      }
      AddIsCoherent(sha, built, route, inode, Data(store, id));
      built := Add(sha, built, route, inode, Data(store, id));
      if inode.kind != DirInode {
        LeafRegion(sha, store, route, old(built.entries));
        return true;
      }
      DirectoryRegion(sha, store, route, old(built.entries));
      ok := AppendChildren(id, route, old(built.entries), rank);
      AllChildren(sha, store, route, old(built.entries), built.entries);
    }

    method AppendChildren(id: Id, route: Route, ghost before: map<Route, Entry>, ghost rank: Id -> nat)
      returns (ok: bool)
      requires Acyclic(store, rank) && Resolve(store, route) == Some(id) && Descends(store, id, route)
      requires Coherent(sha, built) && forall q :: Below(route).Has(q) ==> q !in before
      requires Extended(sha, store, before, built.entries, Region(route, Some({})))
      requires NoneBroken(store, Region(route, Some({})))
      modifies this
      ensures ok <==> NoneBroken(store, Region(route, Some(Dirents(store, id).Keys)))
      ensures ok ==> Coherent(sha, built)
                     && Extended(sha, store, before, built.entries, Region(route, Some(Dirents(store, id).Keys)))
      decreases rank(id), 0
    {
      var children := Dirents(store, id);
      var done: set<Name> := {};
      while done != children.Keys
        invariant done <= children.Keys
        invariant Coherent(sha, built) && NoneBroken(store, Region(route, Some(done)))
        invariant Extended(sha, store, before, built.entries, Region(route, Some(done)))
        decreases |children.Keys - done|
      {
        var name :| name in children.Keys - done;
        var child := route + [name];
        ChildIsFree(route, done, name);
        ghost var mid := built.entries;
        ok := Append(children[name], child, rank);
        AddChildUnbroken(store, route, done, name);
        if !ok {
          StillBroken(store, route, done + {name}, children.Keys);
          return;
        }
        AddChild(sha, store, route, done, name, before, mid, built.entries);
        done := done + {name};
      }
      ok := true;
    }
  }

  /** Nothing below a child lies in what is done so far. */
  lemma ChildIsFree(route: Route, done: set<Name>, name: Name)
    requires name !in done
    ensures forall q :: Below(route + [name]).Has(q) ==> Below(route).Has(q) && !Region(route, Some(done)).Has(q)
  {
    assert (route + [name])[..|route|] == route;
  }

  lemma StillBroken(store: Store, route: Route, some: set<Name>, all: set<Name>)
    requires some <= all && !NoneBroken(store, Region(route, Some(some)))
    ensures !NoneBroken(store, Region(route, Some(all)))
  {
    var q :| Region(route, Some(some)).Has(q) && Broken(store, q);
    assert Region(route, Some(all)).Has(q);
  }

  // ---- The level-order walk -----------------------------------------------------------

  datatype Item = Item(id: Id, route: Route)

  ghost function Routes(items: seq<Item>): set<Route> {
    set item | item in items :: item.route
  }

  lemma RoutesConcat(a: seq<Item>, b: seq<Item>)
    ensures Routes(a + b) == Routes(a) + Routes(b)
  {
    forall q ensures q in Routes(a + b) <==> q in Routes(a) || q in Routes(b) {
      if q in Routes(a) || q in Routes(b) {
        var item :| (item in a || item in b) && item.route == q;
        assert item in a + b;
      }
    }
  }

  /** No path twice. */
  ghost predicate DistinctRoutes(queue: seq<Item>) {
    queue == [] || (queue[0].route !in Routes(queue[1..]) && DistinctRoutes(queue[1..]))
  }

  lemma HeadRoute(queue: seq<Item>)
    requires queue != []
    ensures Routes(queue) == {queue[0].route} + Routes(queue[1..])
  {
    assert queue == [queue[0]] + queue[1..];
    RoutesConcat([queue[0]], queue[1..]);
    assert Routes([queue[0]]) == {queue[0].route};
  }

  lemma {:induction false} DistinctConcat(a: seq<Item>, b: seq<Item>)
    ensures DistinctRoutes(a + b) <==> DistinctRoutes(a) && DistinctRoutes(b) && Routes(a) !! Routes(b)
  {
    if a == [] {
      assert a + b == b;
    } else {
      assert (a + b)[0] == a[0] && (a + b)[1..] == a[1..] + b;
      DistinctConcat(a[1..], b);
      RoutesConcat(a[1..], b);
      HeadRoute(a);
    }
  }

  lemma {:induction false} DistinctByIndex(queue: seq<Item>)
    requires forall i, j :: 0 <= i < j < |queue| ==> queue[i].route != queue[j].route
    ensures DistinctRoutes(queue)
  {
    if queue != [] {
      DistinctByIndex(queue[1..]);
      forall item | item in queue[1..] ensures item.route != queue[0].route {
        var j :| 0 <= j < |queue[1..]| && queue[1..][j] == item;
        assert queue[j + 1] == item;
      }
    }
  }

  ghost predicate PlacedAt(store: Store, depth: nat, item: Item) {
    |item.route| == depth && Resolve(store, item.route) == Some(item.id)
  }

  /** Items at their paths, all of one depth, no path twice. */
  ghost predicate AtDepth(store: Store, depth: nat, items: seq<Item>) {
    (forall i :: 0 <= i < |items| ==> PlacedAt(store, depth, items[i])) && DistinctRoutes(items)
  }

  lemma AtDepthSnoc(store: Store, depth: nat, items: seq<Item>, item: Item)
    ensures AtDepth(store, depth, items + [item]) <==>
              AtDepth(store, depth, items) && PlacedAt(store, depth, item) && item.route !in Routes(items)
  {
    DistinctConcat(items, [item]);
    assert Routes([item]) == {item.route} by { HeadRoute([item]); }
    assert [item][1..] == [] && (items + [item])[|items|] == item;
    forall i | 0 <= i < |items| ensures (items + [item])[i] == items[i] {}
  }

  lemma AtDepthPrefix(store: Store, depth: nat, items: seq<Item>, i: nat)
    requires AtDepth(store, depth, items) && i < |items|
    ensures AtDepth(store, depth, items[..i]) && PlacedAt(store, depth, items[i])
    ensures items[i].route !in Routes(items[..i])
    ensures items[..i + 1] == items[..i] + [items[i]] && Routes(items[..i + 1]) == Routes(items[..i]) + {items[i].route}
  {
    assert items == items[..i + 1] + items[i + 1..] && items[..i + 1] == items[..i] + [items[i]];
    DistinctConcat(items[..i + 1], items[i + 1..]);
    AtDepthSnoc(store, depth, items[..i], items[i]);
    RoutesConcat(items[..i], [items[i]]);
    HeadRoute([items[i]]);
  }

  /** The queue holds exactly the paths of one depth. */
  ghost predicate Level(store: Store, depth: nat, queue: seq<Item>) {
    AtDepth(store, depth, queue) && forall q :: |q| == depth && Resolve(store, q).Some? ==> q in Routes(queue)
  }

  /** The directories of a level whose children form the next one. */
  ghost predicate DirLevel(store: Store, depth: nat, dirs: seq<Item>) {
    && AtDepth(store, depth, dirs)
    && (forall i :: 0 <= i < |dirs| ==> Descends(store, dirs[i].id, dirs[i].route))
    && (forall q :: |q| == depth && Resolve(store, q).Some? && Descends(store, Resolve(store, q).value, q) ==>
          q in Routes(dirs))
  }

  /** The entries hold exactly the recorded paths below a depth, and the listed ones at that depth. */
  ghost predicate Visited(sha: Sha, store: Store, depth: nat, listed: set<Route>, entries: map<Route, Entry>) {
    && (forall q :: q in entries <==> Recorded(store, q) && (|q| < depth || (|q| == depth && q in listed)))
    && (forall q :: q in entries ==> entries[q] == EntryAt(sha, store, q))
  }

  lemma VisitOne(sha: Sha, store: Store, depth: nat, listed: set<Route>, route: Route, entries: map<Route, Entry>)
    requires |route| == depth && Visited(sha, store, depth, listed, entries)
    ensures Visited(sha, store, depth, listed + {route},
                    if Recorded(store, route) then entries[route := EntryAt(sha, store, route)] else entries)
  {
  }

  lemma LevelVisited(sha: Sha, store: Store, depth: nat, queue: seq<Item>, entries: map<Route, Entry>)
    requires Level(store, depth, queue) && Visited(sha, store, depth, Routes(queue), entries)
    ensures Visited(sha, store, depth + 1, {}, entries)
  {
  }

  /** Reads the content of every externally stored file of the level. */
  method LoadLevel(store: Store, queue: seq<Item>) returns (ok: bool)
    ensures ok <==> forall i :: 0 <= i < |queue| ==> !Unloadable(store, queue[i].id)
  {
    for i := 0 to |queue|
      invariant forall k :: 0 <= k < i ==> !Unloadable(store, queue[k].id)
    {
      if Unloadable(store, queue[i].id) {
        return false;
      }
    }
    ok := true;
  }

  /** Records every known inode of the level; missing inodes and unknown types are passed over. */
  method RecordLevel(sha: Sha, store: Store, ghost depth: nat, queue: seq<Item>, b: Built) returns (b': Built)
    requires Level(store, depth, queue) && Coherent(sha, b) && Visited(sha, store, depth, {}, b.entries)
    ensures Coherent(sha, b') && Visited(sha, store, depth + 1, {}, b'.entries)
  {
    b' := b;
    for i := 0 to |queue|
      invariant Coherent(sha, b') && Visited(sha, store, depth, Routes(queue[..i]), b'.entries)
    {
      AtDepthPrefix(store, depth, queue, i);
      b' := RecordItem(sha, store, depth, Routes(queue[..i]), queue[i], b');
    }
    assert queue[..|queue|] == queue;
    LevelVisited(sha, store, depth, queue, b'.entries);
  }

  method RecordItem(sha: Sha, store: Store, ghost depth: nat, ghost listed: set<Route>, item: Item, b: Built)
    returns (b': Built)
    requires PlacedAt(store, depth, item) && item.route !in listed
    requires Coherent(sha, b) && Visited(sha, store, depth, listed, b.entries)
    ensures Coherent(sha, b') && Visited(sha, store, depth, listed + {item.route}, b'.entries)
  {
    VisitOne(sha, store, depth, listed, item.route, b.entries);
    if item.id in store.inodes && !Ignored(item.route) && store.inodes[item.id].kind != OtherInode {
      AddIsCoherent(sha, b, item.route, store.inodes[item.id], Data(store, item.id));
      b' := Add(sha, b, item.route, store.inodes[item.id], Data(store, item.id));
    } else {
      b' := b;
    }
  }

  /** The directories among the items, in order. */
  function DirsOf(store: Store, items: seq<Item>): seq<Item> {
    if items == [] then []
    else
      var before, last := DirsOf(store, items[..|items| - 1]), items[|items| - 1];
      if Descends(store, last.id, last.route) then before + [last] else before
  }

  lemma {:induction false} DirsMembers(store: Store, items: seq<Item>)
    ensures forall x :: x in DirsOf(store, items) <==> x in items && Descends(store, x.id, x.route)
    ensures Routes(DirsOf(store, items)) <= Routes(items)
  {
    if items != [] {
      var before, last := items[..|items| - 1], items[|items| - 1];
      DirsMembers(store, before);
      assert items == before + [last];
      assert forall x :: x in items <==> x in before || x == last;
    }
  }

  lemma {:induction false} DirsAtDepth(store: Store, depth: nat, items: seq<Item>)
    requires AtDepth(store, depth, items)
    ensures AtDepth(store, depth, DirsOf(store, items))
  {
    if items != [] {
      var n := |items| - 1;
      AtDepthPrefix(store, depth, items, n);
      DirsAtDepth(store, depth, items[..n]);
      DirsMembers(store, items[..n]);
      AtDepthSnoc(store, depth, DirsOf(store, items[..n]), items[n]);
    }
  }

  /** The directories of the level, in queue order. */
  method CollectDirs(store: Store, ghost depth: nat, queue: seq<Item>) returns (dirs: seq<Item>)
    requires Level(store, depth, queue)
    ensures DirLevel(store, depth, dirs) && dirs == DirsOf(store, queue)
    ensures forall k :: 0 <= k < |dirs| ==> dirs[k] in queue
  {
    dirs := FilterDirs(store, queue);
    DirsLevel(store, depth, queue);
  }

  method FilterDirs(store: Store, queue: seq<Item>) returns (dirs: seq<Item>)
    ensures dirs == DirsOf(store, queue)
  {
    dirs := [];
    for i := 0 to |queue|
      invariant dirs == DirsOf(store, queue[..i])
    {
      assert queue[..i + 1][..i] == queue[..i];
      if Descends(store, queue[i].id, queue[i].route) {
        dirs := dirs + [queue[i]];
      }
    }
    assert queue[..|queue|] == queue;
  }

  lemma DirsLevel(store: Store, depth: nat, queue: seq<Item>)
    requires Level(store, depth, queue)
    ensures DirLevel(store, depth, DirsOf(store, queue))
    ensures forall k :: 0 <= k < |DirsOf(store, queue)| ==> DirsOf(store, queue)[k] in queue
  {
    var dirs := DirsOf(store, queue);
    DirsMembers(store, queue);
    assert AtDepth(store, depth, dirs) by { DirsAtDepth(store, depth, queue); }
    forall k | 0 <= k < |dirs| ensures dirs[k] in queue && Descends(store, dirs[k].id, dirs[k].route) {
      assert dirs[k] in dirs;
    }
    DirsComplete(store, depth, queue, dirs);
  }

  lemma DirsComplete(store: Store, depth: nat, queue: seq<Item>, dirs: seq<Item>)
    requires Level(store, depth, queue)
    requires forall x :: x in queue && Descends(store, x.id, x.route) ==> x in dirs
    ensures forall q :: |q| == depth && Resolve(store, q).Some? && Descends(store, Resolve(store, q).value, q) ==>
              q in Routes(dirs)
  {
    forall q | |q| == depth && Resolve(store, q).Some? && Descends(store, Resolve(store, q).value, q)
      ensures q in Routes(dirs)
    {
      var item :| item in queue && item.route == q;
      var k :| 0 <= k < |queue| && queue[k] == item;
      assert PlacedAt(store, depth, queue[k]);
    }
  }

  /** The listed children of a directory, one for each name. */
  ghost predicate KidsOf(store: Store, dir: Item, kids: seq<Item>, names: seq<Name>) {
    |kids| == |names| && forall k :: 0 <= k < |kids| ==> KidOf(store, dir, kids[k], names[k])
  }

  ghost predicate KidOf(store: Store, dir: Item, kid: Item, name: Name) {
    name in Dirents(store, dir.id) && kid == Item(Dirents(store, dir.id)[name], dir.route + [name])
  }

  ghost predicate NamesOnce(names: seq<Name>) {
    forall i :: 0 <= i < |names| ==> names[i] !in names[..i]
  }

  lemma KidsDistinct(store: Store, dir: Item, kids: seq<Item>, names: seq<Name>)
    requires KidsOf(store, dir, kids, names) && NamesOnce(names)
    ensures DistinctRoutes(kids)
  {
    forall i, j | 0 <= i < j < |kids| ensures kids[i].route != kids[j].route {
      assert names[i] in names[..j];
      assert KidOf(store, dir, kids[i], names[i]) && KidOf(store, dir, kids[j], names[j]);
      assert kids[i].route[|dir.route|] == names[i] && kids[j].route[|dir.route|] == names[j];
    }
    DistinctByIndex(kids);
  }

  /** The children of one directory, each once. */
  method ListChildren(store: Store, dir: Item) returns (kids: seq<Item>, ghost names: seq<Name>)
    ensures KidsOf(store, dir, kids, names) && NamesOnce(names)
    ensures forall name :: name in Dirents(store, dir.id) ==> name in names
  {
    kids, names := [], [];
    var children := Dirents(store, dir.id);
    var todo := children.Keys;
    while todo != {}
      invariant todo <= children.Keys && KidsOf(store, dir, kids, names) && NamesOnce(names)
      invariant forall name :: name in names <==> name in children.Keys - todo
      decreases |todo|
    {
      var name :| name in todo;
      kids := kids + [Item(children[name], dir.route + [name])];
      names := names + [name];
      todo := todo - {name};
    }
  }

  /** The queue holds exactly the children of the directories handled so far. */
  ghost predicate ChildrenOf(store: Store, depth: nat, dirs: seq<Item>, queue: seq<Item>) {
    && AtDepth(store, depth + 1, queue)
    && (forall q :: q in Routes(queue) ==> |q| == depth + 1 && q[..depth] in Routes(dirs))
    && ChildrenIn(store, dirs, queue)
  }

  ghost predicate ChildrenIn(store: Store, dirs: seq<Item>, queue: seq<Item>) {
    forall i, name :: 0 <= i < |dirs| && name in Dirents(store, dirs[i].id) ==> dirs[i].route + [name] in Routes(queue)
  }

  lemma KidPlaced(store: Store, depth: nat, dir: Item, kid: Item, name: Name)
    requires PlacedAt(store, depth, dir) && Descends(store, dir.id, dir.route) && KidOf(store, dir, kid, name)
    ensures PlacedAt(store, depth + 1, kid) && kid.route[..depth] == dir.route
  {
    assert kid.route[..|kid.route| - 1] == dir.route;
  }

  lemma KidsPlaced(store: Store, depth: nat, dir: Item, kids: seq<Item>, names: seq<Name>)
    requires PlacedAt(store, depth, dir) && Descends(store, dir.id, dir.route)
    requires KidsOf(store, dir, kids, names) && NamesOnce(names)
    ensures AtDepth(store, depth + 1, kids)
    ensures forall q :: q in Routes(kids) ==> |q| == depth + 1 && q[..depth] == dir.route
  {
    forall k | 0 <= k < |kids| ensures PlacedAt(store, depth + 1, kids[k]) && kids[k].route[..depth] == dir.route {
      KidPlaced(store, depth, dir, kids[k], names[k]);
    }
    KidsDistinct(store, dir, kids, names);
  }

  lemma KidsListed(store: Store, dir: Item, kids: seq<Item>, names: seq<Name>, name: Name)
    requires KidsOf(store, dir, kids, names) && name in names
    ensures dir.route + [name] in Routes(kids)
  {
    var k :| 0 <= k < |names| && names[k] == name;
    assert KidOf(store, dir, kids[k], names[k]);
    assert kids[k] in kids;
  }

  lemma AppendAtDepth(store: Store, depth: nat, a: seq<Item>, b: seq<Item>)
    requires AtDepth(store, depth, a) && AtDepth(store, depth, b) && Routes(a) !! Routes(b)
    ensures AtDepth(store, depth, a + b)
  {
    DistinctConcat(a, b);
  }

  lemma AppendChildrenOf(store: Store, depth: nat, dirs: seq<Item>, dir: Item, queue: seq<Item>, kids: seq<Item>,
                         names: seq<Name>)
    requires ChildrenOf(store, depth, dirs, queue) && PlacedAt(store, depth, dir) && dir.route !in Routes(dirs)
    requires Descends(store, dir.id, dir.route) && KidsOf(store, dir, kids, names) && NamesOnce(names)
    requires forall name :: name in Dirents(store, dir.id) ==> name in names
    ensures ChildrenOf(store, depth, dirs + [dir], queue + kids)
  {
    assert Routes(queue + kids) == Routes(queue) + Routes(kids) by { RoutesConcat(queue, kids); }
    assert Routes(dirs + [dir]) == Routes(dirs) + {dir.route} by {
      RoutesConcat(dirs, [dir]);
      HeadRoute([dir]);
    }
    KidsPlaced(store, depth, dir, kids, names);
    AppendAtDepth(store, depth + 1, queue, kids);
    AppendChildrenIn(store, dirs, dir, queue, kids, names);
  }

  lemma AppendChildrenIn(store: Store, dirs: seq<Item>, dir: Item, queue: seq<Item>, kids: seq<Item>, names: seq<Name>)
    requires ChildrenIn(store, dirs, queue) && KidsOf(store, dir, kids, names)
    requires forall name :: name in Dirents(store, dir.id) ==> name in names
    ensures ChildrenIn(store, dirs + [dir], queue + kids)
  {
    RoutesConcat(queue, kids);
    forall i, name | 0 <= i < |dirs + [dir]| && name in Dirents(store, (dirs + [dir])[i].id)
      ensures (dirs + [dir])[i].route + [name] in Routes(queue + kids)
    {
      if i == |dirs| {
        KidsListed(store, dir, kids, names, name);
      } else {
        assert (dirs + [dir])[i] == dirs[i];
      }
    }
  }

  /** The next level: all children of all listed directories. */
  method NextLevel(store: Store, ghost depth: nat, dirs: seq<Item>) returns (queue: seq<Item>)
    requires DirLevel(store, depth, dirs)
    ensures Level(store, depth + 1, queue)
  {
    queue := [];
    for i := 0 to |dirs|
      invariant ChildrenOf(store, depth, dirs[..i], queue)
    {
      var kids, names := ListChildren(store, dirs[i]);
      AtDepthPrefix(store, depth, dirs, i);
      AppendChildrenOf(store, depth, dirs[..i], dirs[i], queue, kids, names);
      queue := queue + kids;
    }
    assert dirs[..|dirs|] == dirs;
    forall q | |q| == depth + 1 && Resolve(store, q).Some?
      ensures q in Routes(queue)
    {
      var i := ParentListed(store, depth, dirs, q);
      ChildListed(store, depth, dirs, i, queue, q);
    }
  }

  lemma ParentListed(store: Store, depth: nat, dirs: seq<Item>, q: Route) returns (i: nat)
    requires DirLevel(store, depth, dirs) && |q| == depth + 1 && Resolve(store, q).Some?
    ensures i < |dirs| && dirs[i].route == q[..depth] && q[depth] in Dirents(store, dirs[i].id)
  {
    var parent := q[..depth];
    assert parent in Routes(dirs);
    i :| 0 <= i < |dirs| && dirs[i].route == parent;
    assert PlacedAt(store, depth, dirs[i]);
  }

  lemma ChildListed(store: Store, depth: nat, dirs: seq<Item>, i: nat, queue: seq<Item>, q: Route)
    requires ChildrenIn(store, dirs, queue) && |q| == depth + 1
    requires i < |dirs| && dirs[i].route == q[..depth] && q[depth] in Dirents(store, dirs[i].id)
    ensures q in Routes(queue)
  {
    assert q == dirs[i].route + [q[depth]];
  }

  /** In a graph without cycles no path is longer than the rank of the root. */
  lemma {:induction false} DepthBound(store: Store, rank: Id -> nat, q: Route)
    requires Acyclic(store, rank) && Resolve(store, q).Some?
    ensures |q| + rank(Resolve(store, q).value) <= rank(ROOT_INODE)
  {
    if q != [] {
      DepthBound(store, rank, q[..|q| - 1]);
    }
  }

  /** The manifest of the tree: every recorded path, with matching blobs and counters. */
  ghost predicate IsManifest(sha: Sha, store: Store, b: Built) {
    && Coherent(sha, b)
    && (forall q :: q in b.entries <==> Recorded(store, q))
    && (forall q :: q in b.entries ==> b.entries[q] == EntryAt(sha, store, q))
  }

  lemma NoDeeper(sha: Sha, store: Store, depth: nat, b: Built)
    requires Coherent(sha, b) && Visited(sha, store, depth, {}, b.entries)
    requires forall q :: |q| == depth ==> Resolve(store, q).None?
    ensures IsManifest(sha, store, b)
    ensures forall q :: Resolve(store, q).Some? ==> |q| < depth
  {
    forall q | Resolve(store, q).Some?
      ensures |q| < depth
    {
      if |q| >= depth {
        ResolvePrefix(store, q, depth);
      }
    }
  }

  lemma NoChildren(store: Store, depth: nat, dirs: seq<Item>, q: Route)
    requires DirLevel(store, depth, dirs) && dirs == [] && |q| == depth + 1
    ensures Resolve(store, q).None?
  {
    assert |q[..depth]| == depth;
    assert q[..depth] !in Routes(dirs);
  }

  /** A directory stands in for a root that is missing or of unknown type. */
  const DEFAULT_ROOT := Entry(DirInode, 0x1ED, 0, 0, [], [], "")

  ghost predicate SomeUnloadable(store: Store) {
    exists q :: Resolve(store, q).Some? && Unloadable(store, Resolve(store, q).value)
  }

  /** One pass per level. It fails exactly when some external content cannot be loaded. */
  method BuildManifestLevels(sha: Sha, store: Store, ghost rank: Id -> nat) returns (ok: bool, b: Built)
    requires Acyclic(store, rank)
    ensures ok <==> !SomeUnloadable(store)
    ensures ok ==> IsManifest(sha, store, b)
  {
    b := EMPTY;
    var queue := [Item(ROOT_INODE, [])];
    ghost var depth := 0;
    assert queue[0] in queue;
    while queue != []
      invariant Level(store, depth, queue) && Coherent(sha, b) && Visited(sha, store, depth, {}, b.entries)
      invariant forall q :: |q| < depth && Resolve(store, q).Some? ==> !Unloadable(store, Resolve(store, q).value)
      decreases rank(ROOT_INODE) - depth
    {
      DepthBound(store, rank, queue[0].route);
      var loaded := LoadLevel(store, queue);
      if !loaded {
        ghost var i :| 0 <= i < |queue| && Unloadable(store, queue[i].id);
        assert Resolve(store, queue[i].route).Some?;
        return false, b;
      }
      LevelLoads(store, depth, queue);
      b := RecordLevel(sha, store, depth, queue, b);
      var dirs := CollectDirs(store, depth, queue);
      if dirs == [] {
        forall q | |q| == depth + 1 ensures Resolve(store, q).None? {
          NoChildren(store, depth, dirs, q);
        }
        NoDeeper(sha, store, depth + 1, b);
        return true, b;
      }
      queue := NextLevel(store, depth, dirs);
      depth := depth + 1;
    }
    NoDeeper(sha, store, depth, b);
    return true, b;
  }

  lemma LevelLoads(store: Store, depth: nat, queue: seq<Item>)
    requires Level(store, depth, queue) && forall i :: 0 <= i < |queue| ==> !Unloadable(store, queue[i].id)
    ensures forall q :: |q| == depth && Resolve(store, q).Some? ==> !Unloadable(store, Resolve(store, q).value)
  {
    forall q | |q| == depth && Resolve(store, q).Some?
      ensures !Unloadable(store, Resolve(store, q).value)
    {
      var item :| item in queue && item.route == q;
      var i :| 0 <= i < |queue| && queue[i] == item;
    }
  }

  /** Content under a separate key has been loaded from there. */
  ghost predicate LoadedAt(store: Store, q: Route) {
    && Resolve(store, q).Some? && Resolve(store, q).value in store.inodes
    && var id := Resolve(store, q).value;
       store.inodes[id].kind == FileInode && store.inodes[id].external ==> id in store.contents
  }

  lemma ManifestKeeps(sha: Sha, store: Store, b: Built)
    requires Ideal(sha) && IsManifest(sha, store, b) && !SomeUnloadable(store)
    ensures forall q :: q in b.entries ==> KeepsAt(store, b, q) && LoadedAt(store, q)
  {
    forall q | q in b.entries ensures KeepsAt(store, b, q) && LoadedAt(store, q) {
      EntryKeeps(sha, store, b, q);
      assert Resolve(store, q).Some?;
    }
  }

  method BuildManifestFromWorkspaceRoot(sha: Sha, store: Store, ghost rank: Id -> nat) returns (ok: bool, b: Built)
    requires Acyclic(store, rank)
    ensures ok <==> !SomeUnloadable(store)
    ensures ok && Recorded(store, []) ==> IsManifest(sha, store, b)
    ensures ok && !Recorded(store, []) ==>
              b.entries == map[[] := DEFAULT_ROOT] && b.blobs == map[] && b.stats == Stats(0, 0, 0)
    ensures ok && Ideal(sha) && Recorded(store, []) ==>
              forall q :: q in b.entries ==> KeepsAt(store, b, q) && LoadedAt(store, q)
  {
    ok, b := BuildManifestLevels(sha, store, rank);
    if ok && Ideal(sha) {
      ManifestKeeps(sha, store, b);
    }
    if ok && [] !in b.entries {
      forall q ensures q !in b.entries {
        RootFirst(store, q);
      }
      assert b.entries == map[];
      forall h ensures h !in b.blobs {
        assert !Named(b.entries, h);
      }
      assert b.blobs == map[];
      b := b.(entries := b.entries[[] := DEFAULT_ROOT]);
    }
  }

  /** Nothing is recorded below an unrecorded root. */
  lemma RootFirst(store: Store, q: Route)
    requires !Recorded(store, [])
    ensures !Recorded(store, q)
  {
    if q != [] && Recorded(store, q) {
      NothingBelow(store, [], q);
    }
  }

  /** There is only one manifest. */
  lemma ManifestUnique(sha: Sha, store: Store, a: Built, b: Built)
    requires Ideal(sha) && IsManifest(sha, store, a) && IsManifest(sha, store, b)
    ensures a == b
  {
    assert a.entries == b.entries;
    CoherentUnique(sha, a, b);
  }

  /** Whenever the recursive walk succeeds and all content loads, the level-order walk returns the
      same entries, blobs and counters. */
  method WalksAgree(sha: Sha, store: Store, ghost rank: Id -> nat)
    returns (recursive: Option<Built>, levels: Option<Built>)
    requires Ideal(sha) && Acyclic(store, rank)
    ensures recursive.Some? <==> forall q :: !Broken(store, q)
    ensures levels.Some? <==> !SomeUnloadable(store)
    ensures recursive.Some? && levels.Some? ==> recursive == levels && IsManifest(sha, store, levels.value)
  {
    var walk := new RecursiveWalk(sha, store);
    assert Coherent(sha, walk.built);
    var ok := walk.AppendWorkspaceRootManifest(ROOT_INODE, [], rank);
    assert forall q :: Below([]).Has(q);
    recursive := if ok then Some(walk.built) else None;
    var loaded, b := BuildManifestFromWorkspaceRoot(sha, store, rank);
    levels := if loaded then Some(b) else None;
    if ok && loaded {
      assert IsManifest(sha, store, walk.built);
      assert !Broken(store, []);
      ManifestUnique(sha, store, walk.built, b);
    }
  }
}
