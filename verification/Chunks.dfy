/**
 Chunk-level delta sync: the manifest of fixed-size chunk hashes, the index-by-index
 diff of two manifests, and the two places that apply such a diff (the downloader's
 staged file and the client's staged Redis value).
 */
module Chunks {
  import opened Hashing
  import opened Results

  const DEFAULT_CHUNK_SIZE: nat := 262144
  const DEFAULT_CHUNK_THRESHOLD: nat := 1048576

  function Min(a: int, b: int): int {
    if a < b then a else b
  }

  function Max(a: int, b: int): int {
    if a < b then b else a
  }

  /** A configured size that is not positive selects the default. */
  function OrDefault(configured: int, default: nat): nat {
    if configured <= 0 then default else configured
  }

  /** Where chunk `i` starts: `i * size`, written additively. */
  function Offset(i: nat, size: nat): nat {
    if i == 0 then 0 else Offset(i - 1, size) + size
  }

  /** The chunk holding byte `j`: `j / size`, written additively. */
  function Index(j: nat, size: int): nat
    requires size > 0
  {
    if j < size then 0 else 1 + Index(j - size, size)
  }

  /** How many chunks of `size` bytes cover `n` bytes. */
  function ChunkCount(n: nat, size: int): nat
    requires size > 0
  {
    if n == 0 then 0 else if n <= size then 1 else 1 + ChunkCount(n - size, size)
  }

  /** The bytes of chunk `i`; shorter than `size` at the end of the data. */
  function Chunk(data: Bytes, size: nat, i: nat): Bytes {
    data[Min(Offset(i, size), |data|)..Min(Offset(i, size) + size, |data|)]
  }

  /** The reference definition of a chunk manifest. */
  function Manifest(sha: Sha, data: Bytes, size: int): seq<Hash>
    requires size > 0
  {
    seq(ChunkCount(|data|, size), i requires i >= 0 => sha(Chunk(data, size, i)))
  }

  lemma {:induction false} OffsetMonotone(i: nat, k: nat, size: nat)
    requires i < k
    ensures Offset(i, size) + size <= Offset(k, size)
  {
    if i < k - 1 {
      OffsetMonotone(i, k - 1, size);
    }
  }

  lemma {:induction false} OffsetShift(i: nat, size: nat)
    ensures Offset(i + 1, size) == size + Offset(i, size)
  {
  }

  lemma {:induction false} Locate(j: nat, size: int)
    requires size > 0
    ensures Offset(Index(j, size), size) <= j < Offset(Index(j, size), size) + size
  {
    if j >= size {
      Locate(j - size, size);
      OffsetShift(Index(j - size, size), size);
    }
  }

  lemma LocateUnique(j: nat, size: int, i: nat)
    requires size > 0 && Offset(i, size) <= j < Offset(i, size) + size
    ensures Index(j, size) == i
  {
    Locate(j, size);
    var q := Index(j, size);
    if q < i { OffsetMonotone(q, i, size); }
    if i < q { OffsetMonotone(i, q, size); }
  }

  lemma {:induction false} ChunkCountCovers(n: nat, size: int, i: nat)
    requires size > 0
    ensures i < ChunkCount(n, size) <==> Offset(i, size) < n
    decreases n
  {
    if n > size && i > 0 {
      ChunkCountCovers(n - size, size, i - 1);
      OffsetShift(i - 1, size);
    }
  }

  /** No chunk of a manifest is empty, and none is longer than the chunk size. */
  lemma ChunksNonEmpty(data: Bytes, size: int, i: nat)
    requires size > 0 && i < ChunkCount(|data|, size)
    ensures 0 < |Chunk(data, size, i)| <= size
  {
    ChunkCountCovers(|data|, size, i);
  }

  /** Every byte lies in the chunk its offset names. */
  lemma ChunkAt(data: Bytes, size: int, j: nat)
    requires size > 0 && j < |data|
    ensures var i := Index(j, size); var k := j - Offset(i, size);
            i < ChunkCount(|data|, size) && 0 <= k < |Chunk(data, size, i)| && Chunk(data, size, i)[k] == data[j]
  {
    Locate(j, size);
    ChunkCountCovers(|data|, size, Index(j, size));
  }

  /** Two contents that agree on the hash of the chunk holding byte `j` agree on that byte. */
  lemma SameChunkSameByte(sha: Sha, a: Bytes, b: Bytes, size: int, j: nat)
    requires Ideal(sha) && size > 0 && j < |a|
    requires sha(Chunk(a, size, Index(j, size))) == sha(Chunk(b, size, Index(j, size)))
    ensures j < |b| && a[j] == b[j]
  {
    ChunkAt(a, size, j);
    Locate(j, size);
    assert Chunk(a, size, Index(j, size)) == Chunk(b, size, Index(j, size));
  }

  lemma ManifestByte(sha: Sha, a: Bytes, b: Bytes, size: int, j: nat)
    requires Ideal(sha) && size > 0 && j < |a|
    requires Manifest(sha, a, size) == Manifest(sha, b, size)
    ensures j < |b| && a[j] == b[j]
  {
    ChunkAt(a, size, j);
    var i := Index(j, size);
    assert Manifest(sha, a, size)[i] == Manifest(sha, b, size)[i];
    SameChunkSameByte(sha, a, b, size, j);
  }

  lemma ManifestPrefix(sha: Sha, a: Bytes, b: Bytes, size: int)
    requires Ideal(sha) && size > 0
    requires Manifest(sha, a, size) == Manifest(sha, b, size)
    ensures |a| <= |b| && forall j :: 0 <= j < |a| ==> a[j] == b[j]
  {
    forall j | 0 <= j < |a|
      ensures j < |b| && a[j] == b[j]
    {
      ManifestByte(sha, a, b, size, j);
    }
    if |a| > 0 {
      ManifestByte(sha, a, b, size, |a| - 1);
    }
  }

  /** Equal manifests at one chunk size mean equal bytes. */
  lemma ManifestInjective(sha: Sha, a: Bytes, b: Bytes, size: int)
    requires Ideal(sha) && size > 0
    ensures Manifest(sha, a, size) == Manifest(sha, b, size) <==> a == b
  {
    if Manifest(sha, a, size) == Manifest(sha, b, size) {
      ManifestPrefix(sha, a, b, size);
      ManifestPrefix(sha, b, a, size);
    }
  }

  lemma ManifestDigests(sha: Sha, a: Bytes, size: int)
    requires Ideal(sha) && size > 0
    ensures Digests(Manifest(sha, a, size))
  {
    forall i | 0 <= i < |Manifest(sha, a, size)|
      ensures Digest(Manifest(sha, a, size)[i])
    {
      assert Digest(sha(Chunk(a, size, i)));
    }
  }

  /** Composite hashes taken at one chunk size agree exactly when the bytes agree. */
  lemma CompositeIdentifiesBytes(sha: Sha, a: Bytes, b: Bytes, size: int)
    requires Ideal(sha) && size > 0
    ensures CompositeHash(sha, Manifest(sha, a, size)) == CompositeHash(sha, Manifest(sha, b, size)) <==> a == b
  {
    ManifestDigests(sha, a, size);
    ManifestDigests(sha, b, size);
    CompositeInjective(sha, Manifest(sha, a, size), Manifest(sha, b, size));
    ManifestInjective(sha, a, b, size);
  }

  // ---- The three chunkers ----------------------------------------------------

  /** Read-loop chunker: fill a buffer until a short read signals the end of the file. */
  method StreamChunkHashes(sha: Sha, file: Bytes, configured: int) returns (hashes: seq<Hash>, total: nat)
    ensures hashes == Manifest(sha, file, if configured > 0 then configured else DEFAULT_CHUNK_SIZE)
    ensures total == |file|
  {
    var size := OrDefault(configured, DEFAULT_CHUNK_SIZE);
    hashes, total := [], 0;
    var eof := false;
    while !eof
      invariant total == Min(Offset(|hashes|, size), |file|)
      invariant forall k :: 0 <= k < |hashes| ==> hashes[k] == sha(Chunk(file, size, k))
      invariant |hashes| <= ChunkCount(|file|, size)
      invariant eof ==> |hashes| == ChunkCount(|file|, size)
      decreases |file| - total, !eof
    {
      ChunkCountCovers(|file|, size, |hashes|);
      ChunkCountCovers(|file|, size, |hashes| + 1);
      var n := Min(size, |file| - total);
      if n > 0 {
        hashes := hashes + [sha(file[total..total + n])];
        total := total + n;
      }
      eof := n < size;
    }
    ChunkCountCovers(|file|, size, |hashes|);
  }

  /** In-memory chunker. */
  method UploadChunkHashes(sha: Sha, data: Bytes, configured: int) returns (hashes: seq<Hash>)
    ensures hashes == Manifest(sha, data, if configured > 0 then configured else DEFAULT_CHUNK_SIZE)
  {
    var size := OrDefault(configured, DEFAULT_CHUNK_SIZE);
    hashes := [];
    var offset := 0;
    while offset < |data|
      invariant offset == Offset(|hashes|, size)
      invariant forall k :: 0 <= k < |hashes| ==> hashes[k] == sha(Chunk(data, size, k))
      invariant |hashes| <= ChunkCount(|data|, size)
    {
      ChunkCountCovers(|data|, size, |hashes|);
      var end := Min(offset + size, |data|);
      hashes := hashes + [sha(data[offset..end])];
      offset := offset + size;
    }
    ChunkCountCovers(|data|, size, |hashes|);
  }

  /** Save chunker: files up to the threshold carry no manifest. */
  method SyncSaveChunks(sha: Sha, data: Bytes, chunkThreshold: int, chunkSize: int)
    returns (size: nat, hashes: seq<Hash>)
    ensures (size, hashes) == SavedManifest(sha, data, chunkThreshold, chunkSize)
    ensures size > 0 <==> |data| > if chunkThreshold > 0 then chunkThreshold else DEFAULT_CHUNK_THRESHOLD
    ensures size > 0 ==> size == if chunkSize > 0 then chunkSize else DEFAULT_CHUNK_SIZE
    ensures hashes == if size > 0 then Manifest(sha, data, size) else []
  {
    if |data| <= OrDefault(chunkThreshold, DEFAULT_CHUNK_THRESHOLD) {
      return 0, [];
    }
    size := OrDefault(chunkSize, DEFAULT_CHUNK_SIZE);
    hashes := UploadChunkHashes(sha, data, chunkSize);
  }

  function SavedManifest(sha: Sha, data: Bytes, chunkThreshold: int, chunkSize: int): (nat, seq<Hash>) {
    if |data| <= OrDefault(chunkThreshold, DEFAULT_CHUNK_THRESHOLD) then (0, [])
    else (OrDefault(chunkSize, DEFAULT_CHUNK_SIZE),
          Manifest(sha, data, OrDefault(chunkSize, DEFAULT_CHUNK_SIZE)))
  }

  // ---- Diff ------------------------------------------------------------------

  /** `i` must be transferred to turn the old content into the new one. */
  predicate Dirty(prev: seq<Hash>, next: seq<Hash>, i: nat) {
    i < |next| && (i >= |prev| || prev[i] != next[i])
  }

  method DiffChunkManifests(prev: seq<Hash>, next: seq<Hash>) returns (changed: seq<nat>, truncated: bool)
    ensures forall i: nat :: i in changed <==> Dirty(prev, next, i)
    ensures forall a, b :: 0 <= a < b < |changed| ==> changed[a] < changed[b]
    ensures truncated <==> |next| < |prev|
  {
    changed := [];
    for i := 0 to |next|
      invariant forall k: nat :: k in changed <==> k < i && Dirty(prev, next, k)
      invariant forall a :: 0 <= a < |changed| ==> changed[a] < i
      invariant forall a, b :: 0 <= a < b < |changed| ==> changed[a] < changed[b]
    {
      if i >= |prev| || prev[i] != next[i] {
        changed := changed + [i];
      }
    }
    truncated := |next| < |prev|;
  }

  // ---- Applying a delta ------------------------------------------------------

  /** Writing past the end fills the gap with zero bytes; an empty write changes nothing. */
  function WriteAt(file: Bytes, data: Bytes, offset: nat): Bytes {
    if data == [] then file
    else
      var padded := if |file| < offset then file + seq(offset - |file|, _ => 0) else file;
      padded[..offset] + data + (if offset + |data| < |padded| then padded[offset + |data|..] else [])
  }

  function Truncate(file: Bytes, n: nat): Bytes {
    if n <= |file| then file[..n] else file + seq(n - |file|, _ => 0)
  }

  /** The byte at offset `j` once every chunk has been written over `base`. */
  function OverlayByte(base: Bytes, chunks: map<nat, Bytes>, size: int, j: nat): Byte
    requires size > 0
  {
    var i := Index(j, size);
    var k := j - Offset(i, size);
    if i in chunks && 0 <= k < |chunks[i]| then chunks[i][k]
    else if j < |base| then base[j] else 0
  }

  /** The reference meaning of patch and truncate. */
  function Overlay(base: Bytes, chunks: map<nat, Bytes>, size: int, length: nat): Bytes
    requires size > 0
  {
    seq(length, j requires j >= 0 => OverlayByte(base, chunks, size, j))
  }

  ghost predicate ChunksFit(chunks: map<nat, Bytes>, size: int) {
    forall i: nat :: i in chunks ==> |chunks[i]| <= size
  }

  /** Length after the writes: no shorter than the base, reaching every written chunk's end. */
  ghost predicate Extent(length: nat, base: Bytes, chunks: map<nat, Bytes>, size: nat) {
    && |base| <= length
    && (forall i: nat :: i in chunks && chunks[i] != [] ==> Offset(i, size) + |chunks[i]| <= length)
    && (length == |base| || exists i: nat :: i in chunks && chunks[i] != [] && Offset(i, size) + |chunks[i]| == length)
  }

  lemma WriteChunkOverlays(file: Bytes, base: Bytes, done: map<nat, Bytes>, size: int, i: nat, data: Bytes)
    requires size > 0 && |data| <= size && i !in done
    requires Extent(|file|, base, done, size)
    requires file == Overlay(base, done, size, |file|)
    ensures var file' := WriteAt(file, data, Offset(i, size));
            Extent(|file'|, base, done[i := data], size)
            && file' == Overlay(base, done[i := data], size, |file'|)
  {
    var file' := WriteAt(file, data, Offset(i, size));
    forall j | 0 <= j < |file'|
      ensures file'[j] == OverlayByte(base, done[i := data], size, j)
    {
      WrittenByte(file, base, done, size, i, data, j);
    }
    WrittenExtent(|file|, |file'|, base, done, size, i, data);
  }

  lemma WriteAtByte(file: Bytes, data: Bytes, offset: nat, j: nat)
    requires j < |WriteAt(file, data, offset)|
    ensures WriteAt(file, data, offset)[j] ==
            if offset <= j < offset + |data| then data[j - offset] else if j < |file| then file[j] else 0
  {
  }

  lemma OverlayChunk(base: Bytes, done: map<nat, Bytes>, size: int, i: nat, data: Bytes, j: nat)
    requires size > 0 && |data| <= size && i !in done
    ensures var offset := Offset(i, size);
            OverlayByte(base, done[i := data], size, j) ==
            if offset <= j < offset + |data| then data[j - offset] else OverlayByte(base, done, size, j)
  {
    Locate(j, size);
    if Offset(i, size) <= j < Offset(i, size) + |data| {
      LocateUnique(j, size, i);
    }
  }

  lemma OldByte(file: Bytes, base: Bytes, done: map<nat, Bytes>, size: int, j: nat)
    requires size > 0 && Extent(|file|, base, done, size) && file == Overlay(base, done, size, |file|)
    ensures OverlayByte(base, done, size, j) == if j < |file| then file[j] else 0
  {
    if j >= |file| {
      BeyondExtent(|file|, base, done, size, j);
    }
  }

  lemma WrittenByte(file: Bytes, base: Bytes, done: map<nat, Bytes>, size: int, i: nat, data: Bytes, j: nat)
    requires size > 0 && |data| <= size && i !in done
    requires Extent(|file|, base, done, size) && file == Overlay(base, done, size, |file|)
    requires j < |WriteAt(file, data, Offset(i, size))|
    ensures WriteAt(file, data, Offset(i, size))[j] == OverlayByte(base, done[i := data], size, j)
  {
    var written := OverlayByte(base, done[i := data], size, j);
    assert written == if Offset(i, size) <= j < Offset(i, size) + |data| then data[j - Offset(i, size)]
                      else if j < |file| then file[j] else 0 by {
      OverlayChunk(base, done, size, i, data, j);
      OldByte(file, base, done, size, j);
    }
    WriteAtByte(file, data, Offset(i, size), j);
  }

  lemma BeyondExtent(length: nat, base: Bytes, chunks: map<nat, Bytes>, size: int, j: nat)
    requires size > 0 && Extent(length, base, chunks, size) && j >= length
    ensures OverlayByte(base, chunks, size, j) == 0
  {
    var i := Index(j, size);
    if i in chunks && chunks[i] != [] {
      assert Offset(i, size) + |chunks[i]| <= length;
    }
  }

  lemma WrittenExtent(length: nat, length': nat, base: Bytes, done: map<nat, Bytes>, size: nat, i: nat, data: Bytes)
    requires i !in done && Extent(length, base, done, size)
    requires length' == if data == [] then length else Max(length, Offset(i, size) + |data|)
    ensures Extent(length', base, done[i := data], size)
  {
    var done' := done[i := data];
    if length' != |base| {
      if data != [] && length' == Offset(i, size) + |data| {
        assert i in done' && done'[i] != [] && Offset(i, size) + |done'[i]| == length';
      } else {
        var k: nat :| k in done && done[k] != [] && Offset(k, size) + |done[k]| == length;
        assert k in done' && done'[k] != [] && Offset(k, size) + |done'[k]| == length';
      }
    }
  }

  /** Writes every chunk at its offset. The order is whatever iteration yields, so the result
      holds for the downloader's map order and for the client's ascending order alike. */
  method WriteRanges(base: Bytes, chunks: map<nat, Bytes>, size: nat) returns (file: Bytes)
    requires size > 0 && ChunksFit(chunks, size)
    ensures Extent(|file|, base, chunks, size)
    ensures file == Overlay(base, chunks, size, |file|)
  {
    file := base;
    var todo := chunks.Keys;
    ghost var done: map<nat, Bytes> := map[];
    assert base == Overlay(base, done, size, |base|);
    while todo != {}
      invariant todo <= chunks.Keys && done.Keys == chunks.Keys - todo
      invariant forall i: nat :: i in done ==> done[i] == chunks[i]
      invariant Extent(|file|, base, done, size)
      invariant file == Overlay(base, done, size, |file|)
      decreases |todo|
    {
      var i: nat :| i in todo;
      WriteChunkOverlays(file, base, done, size, i, chunks[i]);
      file := WriteAt(file, chunks[i], Offset(i, size));
      done := done[i := chunks[i]];
      todo := todo - {i};
    }
    assert done == chunks;
  }

  /** The downloader's staged file: copy the base, write the chunks, set the final length. */
  method PatchStagedFile(base: Bytes, chunks: map<nat, Bytes>, size: nat, length: nat) returns (file: Bytes)
    requires size > 0 && ChunksFit(chunks, size)
    ensures file == Overlay(base, chunks, size, length)
  {
    file := WriteRanges(base, chunks, size);
    forall j | |file| <= j < length
      ensures OverlayByte(base, chunks, size, j) == 0
    {
      Locate(j, size);
      assert Index(j, size) in chunks && chunks[Index(j, size)] != [] ==>
          Offset(Index(j, size), size) + |chunks[Index(j, size)]| <= |file|;
    }
    file := Truncate(file, length);
  }

  /** Every chunk of a file of `length` bytes is there, in full. */
  ghost predicate CompleteChunks(chunks: map<nat, Bytes>, size: int, length: nat)
    requires size > 0
  {
    forall i: nat :: i < ChunkCount(length, size) ==> HoldsChunk(chunks, size, length, i)
  }

  predicate HoldsChunk(chunks: map<nat, Bytes>, size: int, length: nat, i: nat) {
    size >= 0 && i in chunks && |chunks[i]| == Min(size, length - Offset(i, size))
  }

  /** A new file has no unchanged chunks to copy, so all of them must be given. */
  method CheckComplete(chunks: map<nat, Bytes>, size: nat, length: nat) returns (complete: bool)
    requires size > 0
    ensures complete <==> CompleteChunks(chunks, size, length)
  {
    var offset, i := 0, 0;
    while offset < length
      invariant offset == Offset(i, size) && i <= ChunkCount(length, size)
      invariant forall k: nat :: k < i ==> HoldsChunk(chunks, size, length, k)
      decreases length - offset
    {
      ChunkCountCovers(length, size, i);
      var want := if length - offset < size then length - offset else size;
      if i !in chunks || |chunks[i]| != want {
        assert !HoldsChunk(chunks, size, length, i);
        return false;
      }
      offset, i := offset + size, i + 1;
    }
    ChunkCountCovers(length, size, i);
    complete := true;
  }

  /** The client's staged value: write the chunks, then cut the value only when the new size is
      below the size of the content it replaces. A file is created from complete chunks only. */
  method PublishChunks(base: Bytes, creating: bool, chunks: map<nat, Bytes>, size: nat, newSize: nat)
    returns (r: Option<Bytes>)
    requires size > 0 && ChunksFit(chunks, size) && (creating ==> base == [])
    ensures r.None? <==> creating && !CompleteChunks(chunks, size, newSize)
    ensures r.Some? ==> r.value == Overlay(base, chunks, size, |r.value|)
    ensures r.Some? && newSize < |base| ==> |r.value| == newSize
    ensures r.Some? && newSize >= |base| ==> Extent(|r.value|, base, chunks, size)
  {
    if creating {
      var complete := CheckComplete(chunks, size, newSize);
      if !complete {
        return None;
      }
    }
    var value := WriteRanges(base, chunks, size);
    if newSize < |base| {
      value := value[..newSize];
    }
    return Some(value);
  }

  /** The chunks a delta transfers: those of `next`, at `size`, which the diff against the old
      manifest reports. */
  function DeltaChunks(sha: Sha, prev: seq<Hash>, next: Bytes, size: int): map<nat, Bytes>
    requires size > 0
  {
    map i | 0 <= i < ChunkCount(|next|, size) && Dirty(prev, Manifest(sha, next, size), i)
      :: Chunk(next, size, i)
  }

  /** The manifest the delta was computed against is that of the content it is applied to, or empty. */
  predicate Against(sha: Sha, manifest: seq<Hash>, prev: Bytes, size: int)
    requires size > 0
  {
    manifest == [] || manifest == Manifest(sha, prev, size)
  }

  lemma DeltaByte(sha: Sha, prev: Bytes, manifest: seq<Hash>, next: Bytes, size: int, j: nat)
    requires Ideal(sha) && size > 0 && Against(sha, manifest, prev, size) && j < |next|
    ensures OverlayByte(prev, DeltaChunks(sha, manifest, next, size), size, j) == next[j]
    ensures Index(j, size) in DeltaChunks(sha, manifest, next, size) || j < |prev|
  {
    ChunkAt(next, size, j);
    Locate(j, size);
    if Index(j, size) !in DeltaChunks(sha, manifest, next, size) {
      SameChunkSameByte(sha, next, prev, size, j);
    }
  }

  /** Delta equals full copy. */
  lemma DeltaEqualsCopy(sha: Sha, prev: Bytes, manifest: seq<Hash>, next: Bytes, size: int)
    requires Ideal(sha) && size > 0 && Against(sha, manifest, prev, size)
    ensures Overlay(prev, DeltaChunks(sha, manifest, next, size), size, |next|) == next
  {
    forall j | 0 <= j < |next|
      ensures OverlayByte(prev, DeltaChunks(sha, manifest, next, size), size, j) == next[j]
    {
      DeltaByte(sha, prev, manifest, next, size, j);
    }
  }

  /** The published value has exactly the new length as well. */
  lemma DeltaExtent(sha: Sha, prev: Bytes, manifest: seq<Hash>, next: Bytes, size: int, length: nat)
    requires Ideal(sha) && size > 0 && Against(sha, manifest, prev, size) && |prev| <= |next|
    requires Extent(length, prev, DeltaChunks(sha, manifest, next, size), size)
    ensures length == |next|
  {
    var chunks := DeltaChunks(sha, manifest, next, size);
    forall i | i in chunks
      ensures Offset(i, size) + |chunks[i]| <= |next|
    {
      ChunkCountCovers(|next|, size, i);
    }
    if |prev| < |next| {
      var j := |next| - 1;
      ChunkAt(next, size, j);
      Locate(j, size);
      DeltaByte(sha, prev, manifest, next, size, j);
    }
  }
}
