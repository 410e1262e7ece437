/** The chunked download and the chunked upload, end to end. */
module DeltaSync {
  import opened Hashing
  import opened Chunks
  import opened Results

  /** The chunk fields of a stored baseline entry. `LocalHash` and `RemoteHash` coincide in every
      baseline a chunked transfer installs; `hash` is that common value. */
  datatype Stored = NoEntry | Entry(size: nat, hash: Hash, chunkSize: nat, chunkHashes: seq<Hash>)

  datatype Transfer = Transfer(fileSize: nat, chunkSize: nat, chunkHashes: seq<Hash>, dirty: seq<nat>)

  /** The entry is the baseline of content `data`, recorded chunk-wise. */
  ghost predicate Describes(sha: Sha, stored: Stored, data: Bytes) {
    && stored.Entry? && stored.chunkSize > 0
    && stored.size == |data|
    && stored.chunkHashes == Manifest(sha, data, stored.chunkSize)
    && stored.hash == CompositeHash(sha, stored.chunkHashes)
  }

  /** The entry is the baseline of content `data`, recorded whole. */
  ghost predicate Inline(sha: Sha, stored: Stored, data: Bytes) {
    stored.Entry? && stored.chunkSize == 0 && stored.hash == sha(data)
  }

  /** What passes for the content `prev` of a baseline when the uploader compares: `prev` itself; for a
      chunked baseline the text of its digests; for a whole one a file whose own digests read `prev`. */
  predicate Passes(sha: Sha, stored: Stored, op: Transfer, prev: Bytes, data: Bytes)
    requires stored.Entry? && op.chunkSize > 0
  {
    || data == prev
    || (if stored.chunkSize > 0 then data == Join(stored.chunkHashes)
        else Join(Manifest(sha, data, op.chunkSize)) == prev)
  }

  /** The operation moves to content `next`. */
  ghost predicate Aims(sha: Sha, op: Transfer, next: Bytes) {
    op.chunkSize > 0 && op.fileSize == |next| && op.chunkHashes == Manifest(sha, next, op.chunkSize)
  }

  /** It lists the chunks the diff reports. */
  ghost predicate Targets(sha: Sha, op: Transfer, stored: Stored, next: Bytes) {
    && stored.Entry? && Aims(sha, op, next)
    && (forall i: nat :: i in op.dirty <==> Dirty(stored.chunkHashes, op.chunkHashes, i))
  }

  /** Baseline comparison of whole bytes: either representation of the hash is accepted. */
  predicate MatchesHash(sha: Sha, data: Bytes, stored: Stored)
    requires stored.Entry?
  {
    && stored.hash != []
    && (sha(data) == stored.hash
        || (stored.chunkSize > 0 && CompositeHash(sha, Manifest(sha, data, stored.chunkSize)) == stored.hash))
  }

  /** What passes the baseline comparison: the baseline's content, and the one file that holds exactly
      the comma-separated digests of its chunks, whose whole-file hash is the composite hash. */
  lemma MatchIsBaseline(sha: Sha, stored: Stored, prev: Bytes, data: Bytes)
    requires Ideal(sha) && Describes(sha, stored, prev)
    ensures MatchesHash(sha, data, stored) <==> data == prev || data == Join(stored.chunkHashes)
  {
    ManifestDigests(sha, prev, stored.chunkSize);
    CompositeIdentifiesBytes(sha, data, prev, stored.chunkSize);
    assert stored.hash == sha(Join(stored.chunkHashes));
  }

  // ---- Download --------------------------------------------------------------

  datatype Download =
    | WholeFile          // fall back to materialising the complete remote file
    | Skipped            // local or fetched bytes are not what the plan expected
    | Removed            // the remote file is gone, so the local one is deleted
    | Unchanged          // the local file already has the target content
    | Patched(file: Bytes)

  /** A delta has a base: the local file is there, and the baseline was recorded at the same chunk size. */
  predicate HasBase(conflict: bool, localPresent: bool, stored: Stored, op: Transfer) {
    !conflict && localPresent && stored.Entry? && stored.chunkSize > 0 && stored.chunkSize == op.chunkSize
  }

  /** The local file passes the baseline comparison. */
  predicate AtBaseline(sha: Sha, local: Bytes, stored: Stored)
    requires stored.Entry?
  {
    |local| == stored.size && MatchesHash(sha, local, stored)
  }

  /** Every chunk the plan lists was fetched, with the digest the plan has for it. */
  predicate FetchedAsPlanned(sha: Sha, op: Transfer, fetched: map<nat, Bytes>) {
    forall k :: 0 <= k < |op.dirty| ==>
      && op.dirty[k] < |op.chunkHashes| && op.dirty[k] in fetched
      && sha(fetched[op.dirty[k]]) == op.chunkHashes[op.dirty[k]]
  }

  /** The local bytes and mode are the target's already. */
  predicate IsTarget(sha: Sha, op: Transfer, local: Bytes, modeEqual: bool)
    requires op.chunkSize > 0
  {
    && CompositeHash(sha, Manifest(sha, local, op.chunkSize)) == CompositeHash(sha, op.chunkHashes)
    && |local| == op.fileSize && modeEqual
  }

  /** `fetched` is what reading the dirty chunks returned; a range read never exceeds the chunk size. */
  method ProcessChunkedDownload(sha: Sha, conflict: bool, stored: Stored, op: Transfer, local: Bytes,
                                localPresent: bool, remotePresent: bool, modeEqual: bool, fetched: map<nat, Bytes>)
    returns (out: Download)
    requires Ideal(sha)
    requires ChunksFit(fetched, op.chunkSize) && forall i :: i in fetched ==> i in op.dirty
    ensures out.WholeFile? <==> !HasBase(conflict, localPresent, stored, op)
    ensures HasBase(conflict, localPresent, stored, op) ==>
              var current := AtBaseline(sha, local, stored);
              && (out.Skipped? <==> !current || (remotePresent && !FetchedAsPlanned(sha, op, fetched)))
              && (out.Removed? <==> current && !remotePresent)
              && (out.Unchanged? <==> current && remotePresent && FetchedAsPlanned(sha, op, fetched) &&
                                      IsTarget(sha, op, local, modeEqual))
    ensures out.Patched? ==> out.file == Overlay(local, fetched, op.chunkSize, op.fileSize)
    ensures forall prev, next {:trigger Describes(sha, stored, prev), Targets(sha, op, stored, next)} ::
              Describes(sha, stored, prev) && Targets(sha, op, stored, next) ==>
                (out.Patched? && (local == prev || local != Join(stored.chunkHashes)) ==> out.file == next)
    ensures forall next :: Targets(sha, op, stored, next) ==>
              && (out.Patched? ==>
                    (out.file == next <==> UnsentAgree(sha, stored.chunkHashes, op.chunkSize, local, next)))
              && (out.Unchanged? ==> local == next)
  {
    if conflict || !localPresent || stored.NoEntry? || stored.chunkSize == 0 || stored.chunkSize != op.chunkSize {
      return WholeFile;
    }
    if |local| != stored.size || !MatchesHash(sha, local, stored) {
      return Skipped;
    }
    if !remotePresent {
      return Removed;
    }
    var fit := CheckFetched(sha, op, fetched);
    if !fit {
      return Skipped;
    }
    var composite := CompositeHash(sha, Manifest(sha, local, stored.chunkSize));
    if composite == CompositeHash(sha, op.chunkHashes) && |local| == op.fileSize && modeEqual {
      forall next | Targets(sha, op, stored, next)
        ensures local == next
      {
        CompositeIdentifiesBytes(sha, local, next, op.chunkSize);
      }
      return Unchanged;
    }
    var file := PatchStagedFile(local, fetched, op.chunkSize, op.fileSize);
    forall next | Targets(sha, op, stored, next)
      ensures file == next <==> UnsentAgree(sha, stored.chunkHashes, op.chunkSize, local, next)
    {
      FetchedAreDelta(sha, stored, op, next, fetched);
      PatchedIsTargetIff(sha, stored.chunkHashes, op.chunkSize, local, next);
    }
    forall prev, next | Describes(sha, stored, prev) && Targets(sha, op, stored, next)
      ensures local == prev || local != Join(stored.chunkHashes) ==> file == next
    {
      MatchIsBaseline(sha, stored, prev, local);
      FetchedAreDelta(sha, stored, op, next, fetched);
      DeltaEqualsCopy(sha, prev, stored.chunkHashes, next, op.chunkSize);
    }
    return Patched(file);
  }

  method CheckFetched(sha: Sha, op: Transfer, fetched: map<nat, Bytes>) returns (fit: bool)
    ensures fit <==> FetchedAsPlanned(sha, op, fetched)
  {
    var i := 0;
    while i < |op.dirty|
      invariant 0 <= i <= |op.dirty|
      invariant forall k :: 0 <= k < i ==> op.dirty[k] < |op.chunkHashes| && op.dirty[k] in fetched
                                           && sha(fetched[op.dirty[k]]) == op.chunkHashes[op.dirty[k]]
    {
      var idx := op.dirty[i];
      if idx >= |op.chunkHashes| || idx !in fetched || sha(fetched[idx]) != op.chunkHashes[idx] {
        return false;
      }
      i := i + 1;
    }
    return true;
  }

  lemma FetchedAreDelta(sha: Sha, stored: Stored, op: Transfer, next: Bytes, fetched: map<nat, Bytes>)
    requires Ideal(sha) && Targets(sha, op, stored, next)
    requires forall i :: i in fetched ==> i in op.dirty
    requires FetchedAsPlanned(sha, op, fetched)
    ensures fetched == DeltaChunks(sha, stored.chunkHashes, next, op.chunkSize)
  {
    var delta := DeltaChunks(sha, stored.chunkHashes, next, op.chunkSize);
    forall i: nat | i in fetched
      ensures i in delta && fetched[i] == delta[i]
    {
      assert i in op.dirty;
      assert sha(fetched[i]) == sha(Chunk(next, op.chunkSize, i));
    }
    forall i: nat | i in delta
      ensures i in fetched
    {
      assert i in op.dirty;
    }
  }

  // ---- Upload ----------------------------------------------------------------

  datatype Upload =
    | AlreadyThere       // the remote bytes are the target already
    | Conflict           // the remote bytes are neither target nor baseline
    | Stale              // the bytes on disk are not the ones the operation was planned for
    | Refused            // the client was to create a file and did not get all its chunks
    | Published(value: Bytes)

  /** Which chunk indices are read from disk and sent: a missing remote file has no unchanged chunks. */
  function SentIndices(op: Transfer, remoteMissing: bool): seq<nat> {
    if remoteMissing then seq(|op.chunkHashes|, i => i) else op.dirty
  }

  /** Every listed chunk on disk still has the digest the plan has for it. */
  predicate DiskAsPlanned(sha: Sha, op: Transfer, disk: Bytes, indices: seq<nat>) {
    forall k :: 0 <= k < |indices| ==>
      indices[k] < |op.chunkHashes| && sha(Chunk(disk, op.chunkSize, indices[k])) == op.chunkHashes[indices[k]]
  }

  function ChunksOn(op: Transfer, disk: Bytes, indices: seq<nat>): map<nat, Bytes> {
    map i | i in indices :: Chunk(disk, op.chunkSize, i)
  }

  /** Reads the listed chunks, giving up as soon as one no longer has its planned hash. */
  method ReadChunksFromDisk(sha: Sha, op: Transfer, disk: Bytes, indices: seq<nat>)
    returns (current: bool, chunks: map<nat, Bytes>)
    requires op.chunkSize > 0
    ensures current <==> DiskAsPlanned(sha, op, disk, indices)
    ensures current ==> chunks == ChunksOn(op, disk, indices)
  {
    chunks := map[];
    for k := 0 to |indices|
      invariant chunks == ChunksOn(op, disk, indices[..k])
      invariant DiskAsPlanned(sha, op, disk, indices[..k])
    {
      var i := indices[k];
      var data := Chunk(disk, op.chunkSize, i);
      if i >= |op.chunkHashes| || sha(data) != op.chunkHashes[i] {
        return false, chunks;
      }
      chunks := chunks[i := data];
    }
    current := true;
  }

  /** The remote file has the target bytes already. */
  predicate RemoteIsTarget(sha: Sha, op: Transfer, remote: Bytes, remoteMissing: bool)
    requires op.chunkSize > 0
  {
    !remoteMissing && CompositeHash(sha, Manifest(sha, remote, op.chunkSize)) == CompositeHash(sha, op.chunkHashes)
  }

  /** Nothing is recorded of the remote file, or something else. An entry without a hash accepts any. */
  predicate RemoteDiffers(sha: Sha, stored: Stored, op: Transfer, remote: Bytes, remoteMissing: bool)
    requires op.chunkSize > 0
  {
    !remoteMissing && (stored.NoEntry? || (stored.hash != [] && !MatchesBaseline(sha, remote, stored, op)))
  }

  method ProcessChunkedUpload(sha: Sha, stored: Stored, op: Transfer, disk: Bytes, remote: Bytes, remoteMissing: bool)
    returns (out: Upload)
    requires Ideal(sha) && op.chunkSize > 0 && (remoteMissing ==> remote == [])
    ensures out.AlreadyThere? <==> RemoteIsTarget(sha, op, remote, remoteMissing)
    ensures out.Conflict? <==> !out.AlreadyThere? && RemoteDiffers(sha, stored, op, remote, remoteMissing)
    ensures out.Stale? <==> !out.AlreadyThere? && !out.Conflict? &&
                            !DiskAsPlanned(sha, op, disk, SentIndices(op, remoteMissing))
    ensures var chunks := ChunksOn(op, disk, SentIndices(op, remoteMissing));
            && (out.Refused? <==> !out.AlreadyThere? && !out.Conflict? && !out.Stale? &&
                                  remoteMissing && !CompleteChunks(chunks, op.chunkSize, op.fileSize))
            && (out.Published? ==> Written(remote, chunks, op.chunkSize, op.fileSize, out.value))
    ensures forall next :: Aims(sha, op, next) ==>
              && !out.Refused? && (out.AlreadyThere? <==> !remoteMissing && remote == next)
              && (remoteMissing && out.Published? ==> out.value == next)
    ensures forall prev :: Describes(sha, stored, prev) || Inline(sha, stored, prev) ==>
              (out.Conflict? <==> !remoteMissing && !out.AlreadyThere? && !Passes(sha, stored, op, prev, remote))
    ensures stored.NoEntry? ==> (out.Conflict? <==> !remoteMissing && !out.AlreadyThere?)
    ensures forall next :: Targets(sha, op, stored, next) && !remoteMissing && out.Published? ==>
              (out.value == next <==> Suits(sha, stored.chunkHashes, op.chunkSize, remote, next))
    ensures forall next ::
              Targets(sha, op, stored, next) && Against(sha, stored.chunkHashes, remote, op.chunkSize) ==>
                (out.Published? ==> out.value == next)
  {
    forall next | Aims(sha, op, next)
      ensures CompositeHash(sha, Manifest(sha, remote, op.chunkSize)) == CompositeHash(sha, op.chunkHashes) <==>
                remote == next
    {
      CompositeIdentifiesBytes(sha, remote, next, op.chunkSize);
    }
    forall prev | Describes(sha, stored, prev) || Inline(sha, stored, prev)
      ensures !RemoteDiffers(sha, stored, op, remote, false) <==> Passes(sha, stored, op, prev, remote)
    {
      RemoteIsBaseline(sha, stored, op, prev, remote);
    }
    if !remoteMissing {
      if CompositeHash(sha, Manifest(sha, remote, op.chunkSize)) == CompositeHash(sha, op.chunkHashes) {
        return AlreadyThere;
      }
      if stored.NoEntry? || (stored.hash != [] && !MatchesBaseline(sha, remote, stored, op)) {
        return Conflict;
      }
    }
    var current, chunks := ReadChunksFromDisk(sha, op, disk, SentIndices(op, remoteMissing));
    if !current {
      return Stale;
    }
    var r := PublishChunks(remote, remoteMissing, chunks, op.chunkSize, op.fileSize);
    forall next | Aims(sha, op, next) && (remoteMissing || Targets(sha, op, stored, next))
      ensures chunks == DeltaChunks(sha, if remoteMissing then [] else stored.chunkHashes, next, op.chunkSize)
      ensures remoteMissing ==> r.Some?
    {
      forall i: nat { SentAreDirty(sha, stored, op, next, remoteMissing, i); }
      SentAreDelta(sha, if remoteMissing then [] else stored.chunkHashes, op, next, disk,
                   SentIndices(op, remoteMissing), chunks);
      if remoteMissing { AllChunksComplete(sha, next, op.chunkSize); }
    }
    if r.None? {
      return Refused;
    }
    forall next, manifest | Aims(sha, op, next) && chunks == DeltaChunks(sha, manifest, next, op.chunkSize)
      ensures r.value == next <==> Suits(sha, manifest, op.chunkSize, remote, next)
    {
      WrittenIsTargetIff(sha, manifest, op.chunkSize, remote, next, r.value);
    }
    forall next, manifest | Aims(sha, op, next) && Against(sha, manifest, remote, op.chunkSize)
      ensures Suits(sha, manifest, op.chunkSize, remote, next)
    {
      AgainstSuits(sha, manifest, op.chunkSize, remote, next);
    }
    return Published(r.value);
  }

  /** The uploader's comparison; an inline baseline is compared at the operation's chunk size. */
  predicate MatchesBaseline(sha: Sha, data: Bytes, stored: Stored, op: Transfer)
    requires stored.Entry? && op.chunkSize > 0
  {
    var size := if stored.chunkSize > 0 then stored.chunkSize else op.chunkSize;
    sha(data) == stored.hash || CompositeHash(sha, Manifest(sha, data, size)) == stored.hash
  }

  /** The sent indices are those the diff against a manifest reports. */
  lemma SentAreDirty(sha: Sha, stored: Stored, op: Transfer, next: Bytes, remoteMissing: bool, i: nat)
    requires Aims(sha, op, next) && (remoteMissing || Targets(sha, op, stored, next))
    ensures i in SentIndices(op, remoteMissing) <==>
              Dirty(if remoteMissing then [] else stored.chunkHashes, op.chunkHashes, i)
  {
    if remoteMissing && i < |op.chunkHashes| {
      assert SentIndices(op, true)[i] == i;
    }
  }

  lemma SentAreDelta(sha: Sha, manifest: seq<Hash>, op: Transfer, next: Bytes, disk: Bytes, indices: seq<nat>,
                     chunks: map<nat, Bytes>)
    requires Ideal(sha) && Aims(sha, op, next)
    requires forall i: nat :: i in indices <==> Dirty(manifest, op.chunkHashes, i)
    requires DiskAsPlanned(sha, op, disk, indices) && chunks == ChunksOn(op, disk, indices)
    ensures chunks == DeltaChunks(sha, manifest, next, op.chunkSize)
  {
    var delta := DeltaChunks(sha, manifest, next, op.chunkSize);
    forall i: nat | i in chunks
      ensures i in delta && chunks[i] == delta[i]
    {
      var k :| 0 <= k < |indices| && indices[k] == i;
      assert Dirty(manifest, op.chunkHashes, i);
      assert sha(chunks[i]) == sha(Chunk(next, op.chunkSize, i));
    }
    forall i: nat | i in delta
      ensures i in chunks
    {
      assert Dirty(manifest, op.chunkHashes, i);
    }
  }

  lemma AllChunksComplete(sha: Sha, next: Bytes, size: int)
    requires size > 0
    ensures CompleteChunks(DeltaChunks(sha, [], next, size), size, |next|)
  {
    var chunks := DeltaChunks(sha, [], next, size);
    forall i: nat | i < ChunkCount(|next|, size)
      ensures HoldsChunk(chunks, size, |next|, i)
    {
      ChunkCountCovers(|next|, size, i);
    }
  }

  // ---- When a published delta is the target -------------------------------------

  /** What the client leaves of a file it had, or of none: the chunks written over it, cut only when the new
      size is smaller. */
  ghost predicate Written(base: Bytes, chunks: map<nat, Bytes>, size: nat, newSize: nat, value: Bytes)
    requires size > 0
  {
    && value == Overlay(base, chunks, size, |value|)
    && (if newSize < |base| then |value| == newSize else Extent(|value|, base, chunks, size))
  }

  lemma ExtentUnique(base: Bytes, chunks: map<nat, Bytes>, size: nat, a: nat, b: nat)
    requires Extent(a, base, chunks, size) && Extent(b, base, chunks, size)
    ensures a == b
  {
  }

  lemma WrittenUnique(base: Bytes, chunks: map<nat, Bytes>, size: nat, newSize: nat, a: Bytes, b: Bytes)
    requires size > 0 && Written(base, chunks, size, newSize, a) && Written(base, chunks, size, newSize, b)
    ensures a == b
  {
    if newSize >= |base| {
      ExtentUnique(base, chunks, size, |a|, |b|);
    }
  }

  /** What is at an offset before the writes. */
  function BaseByte(base: Bytes, j: nat): Byte {
    if j < |base| then base[j] else 0
  }

  /** The chunks that are not sent are in place already. */
  ghost predicate UnsentAgree(sha: Sha, manifest: seq<Hash>, size: nat, base: Bytes, next: Bytes)
    requires size > 0
  {
    forall j :: 0 <= j < |next| && !Dirty(manifest, Manifest(sha, next, size), Index(j, size)) ==>
      BaseByte(base, j) == next[j]
  }

  /** The writes end where the target does: it is not longer, or its last chunk is sent. */
  predicate EndsRight(sha: Sha, manifest: seq<Hash>, size: nat, base: Bytes, next: Bytes)
    requires size > 0
  {
    |next| <= |base| || Dirty(manifest, Manifest(sha, next, size), ChunkCount(|next|, size) - 1)
  }

  ghost predicate Suits(sha: Sha, manifest: seq<Hash>, size: nat, base: Bytes, next: Bytes)
    requires size > 0
  {
    UnsentAgree(sha, manifest, size, base, next) && EndsRight(sha, manifest, size, base, next)
  }

  function SentOrBase(sha: Sha, manifest: seq<Hash>, size: nat, base: Bytes, next: Bytes, j: nat): Byte
    requires size > 0 && j < |next|
  {
    if Dirty(manifest, Manifest(sha, next, size), Index(j, size)) then next[j] else BaseByte(base, j)
  }

  lemma SentByte(sha: Sha, manifest: seq<Hash>, size: nat, base: Bytes, next: Bytes, j: nat)
    requires size > 0 && j < |next|
    ensures OverlayByte(base, DeltaChunks(sha, manifest, next, size), size, j) ==
              SentOrBase(sha, manifest, size, base, next, j)
  {
    ChunkAt(next, size, j);
    Locate(j, size);
  }

  lemma ChunkEnd(next: Bytes, size: nat, i: nat)
    requires size > 0 && i < ChunkCount(|next|, size)
    ensures Chunk(next, size, i) != [] && Offset(i, size) + |Chunk(next, size, i)| <= |next|
    ensures Offset(i, size) + |Chunk(next, size, i)| == |next| <==> i == ChunkCount(|next|, size) - 1
  {
    ChunksNonEmpty(next, size, i);
    ChunkCountCovers(|next|, size, i);
    ChunkCountCovers(|next|, size, i + 1);
  }

  /** The value has the target's length if and only if the writes end right. */
  lemma LengthIff(sha: Sha, manifest: seq<Hash>, size: nat, base: Bytes, next: Bytes, value: Bytes)
    requires size > 0 && Written(base, DeltaChunks(sha, manifest, next, size), size, |next|, value)
    ensures |value| == |next| <==> EndsRight(sha, manifest, size, base, next)
  {
    var chunks := DeltaChunks(sha, manifest, next, size);
    forall i: nat | i in chunks
      ensures Offset(i, size) + |chunks[i]| <= |next|
      ensures Offset(i, size) + |chunks[i]| == |next| <==> i == ChunkCount(|next|, size) - 1
    {
      ChunkEnd(next, size, i);
    }
    if |next| > |base| && EndsRight(sha, manifest, size, base, next) {
      var last := ChunkCount(|next|, size) - 1;
      ChunkEnd(next, size, last);
      assert last in chunks && chunks[last] != [];
    }
  }

  /** A published value is the target if and only if what was not sent is in place and the writes end where
      the target does. */
  lemma WrittenIsTargetIff(sha: Sha, manifest: seq<Hash>, size: nat, base: Bytes, next: Bytes, value: Bytes)
    requires size > 0 && Written(base, DeltaChunks(sha, manifest, next, size), size, |next|, value)
    ensures value == next <==> Suits(sha, manifest, size, base, next)
  {
    LengthIff(sha, manifest, size, base, next, value);
    forall j | 0 <= j < |value| && j < |next|
      ensures value[j] == SentOrBase(sha, manifest, size, base, next, j)
    {
      SentByte(sha, manifest, size, base, next, j);
    }
  }

  /** A patched file, which always has the target's length, needs the first half only. */
  lemma PatchedIsTargetIff(sha: Sha, manifest: seq<Hash>, size: nat, base: Bytes, next: Bytes)
    requires size > 0
    ensures Overlay(base, DeltaChunks(sha, manifest, next, size), size, |next|) == next <==>
              UnsentAgree(sha, manifest, size, base, next)
  {
    var file := Overlay(base, DeltaChunks(sha, manifest, next, size), size, |next|);
    forall j | 0 <= j < |next|
      ensures file[j] == SentOrBase(sha, manifest, size, base, next, j)
    {
      SentByte(sha, manifest, size, base, next, j);
    }
  }

  /** A chunk that is not sent has its bytes at the same place in the content the delta is computed against. */
  lemma UnsentByte(sha: Sha, manifest: seq<Hash>, size: nat, base: Bytes, next: Bytes, j: nat)
    requires Ideal(sha) && size > 0 && Against(sha, manifest, base, size)
    requires j < |next| && !Dirty(manifest, Manifest(sha, next, size), Index(j, size))
    ensures j < |base| && base[j] == next[j]
  {
    ChunkAt(next, size, j);
    SameChunkSameByte(sha, next, base, size, j);
  }

  lemma LastIndex(n: nat, size: nat)
    requires size > 0 && n > 0
    ensures Index(n - 1, size) == ChunkCount(n, size) - 1
  {
    Locate(n - 1, size);
    ChunkCountCovers(n, size, Index(n - 1, size));
    ChunkCountCovers(n, size, Index(n - 1, size) + 1);
  }

  lemma AgainstEndsRight(sha: Sha, manifest: seq<Hash>, size: nat, base: Bytes, next: Bytes)
    requires Ideal(sha) && size > 0 && Against(sha, manifest, base, size)
    ensures EndsRight(sha, manifest, size, base, next)
  {
    if |next| > |base| {
      LastIndex(|next|, size);
      if !Dirty(manifest, Manifest(sha, next, size), Index(|next| - 1, size)) {
        UnsentByte(sha, manifest, size, base, next, |next| - 1);
      }
    }
  }

  /** That is so over the content the delta was computed against, and for a delta against no manifest over
      any content. */
  lemma AgainstSuits(sha: Sha, manifest: seq<Hash>, size: nat, base: Bytes, next: Bytes)
    requires Ideal(sha) && size > 0 && Against(sha, manifest, base, size)
    ensures Suits(sha, manifest, size, base, next)
  {
    forall j | 0 <= j < |next| && !Dirty(manifest, Manifest(sha, next, size), Index(j, size))
      ensures BaseByte(base, j) == next[j]
    {
      UnsentByte(sha, manifest, size, base, next, j);
    }
    AgainstEndsRight(sha, manifest, size, base, next);
  }

  lemma CompositeOfJoin(sha: Sha, hs: seq<Hash>)
    ensures CompositeHash(sha, hs) == sha(Join(hs))
  {
  }

  /** A remote file gets past the comparison with a baseline of `prev` if and only if it passes for it. */
  lemma RemoteIsBaseline(sha: Sha, stored: Stored, op: Transfer, prev: Bytes, remote: Bytes)
    requires Ideal(sha) && op.chunkSize > 0 && (Describes(sha, stored, prev) || Inline(sha, stored, prev))
    ensures !RemoteDiffers(sha, stored, op, remote, false) <==> Passes(sha, stored, op, prev, remote)
  {
    if stored.chunkSize > 0 {
      MatchIsBaseline(sha, stored, prev, remote);
      CompositeOfJoin(sha, stored.chunkHashes);
      assert Digest(sha(Join(stored.chunkHashes)));
    } else {
      CompositeOfJoin(sha, Manifest(sha, remote, op.chunkSize));
      assert Digest(sha(prev));
    }
  }

  /** A delta published over the content it was computed against is the target content; computed
      against no manifest at all, it is so over any content. */
  lemma PublishedIsExact(sha: Sha, size: nat, prev: Bytes, manifest: seq<Hash>, next: Bytes, value: Bytes)
    requires Ideal(sha) && size > 0 && Against(sha, manifest, prev, size)
    requires MayPublish(sha, manifest, size, prev, next, value)
    ensures value == next
  {
    AgainstSuits(sha, manifest, size, prev, next);
    WrittenIsTargetIff(sha, manifest, size, prev, next, value);
  }

  // ---- The upload diff never compares chunk sizes ----------------------------

  /** What publishing a delta computed against a manifest may leave behind. */
  ghost predicate MayPublish(sha: Sha, manifest: seq<Hash>, size: nat, prev: Bytes, next: Bytes, value: Bytes)
    requires size > 0
  {
    Written(prev, DeltaChunks(sha, manifest, next, size), size, |next|, value)
  }

  /** The value of an upload of `next` over `prev`, both long enough to be chunked. */
  ghost predicate MayUpload(sha: Sha, storedSize: nat, size: nat, threshold: nat, prev: Bytes, next: Bytes,
                            value: Bytes)
    requires storedSize > 0 && size > 0
  {
    && threshold < |prev| && threshold < |next|
    && MayPublish(sha, Manifest(sha, prev, storedSize), size, prev, next, value)
  }

  ghost predicate AlwaysExact(sha: Sha, storedSize: nat, size: nat, threshold: nat)
    requires storedSize > 0 && size > 0
  {
    forall prev, next, value :: MayUpload(sha, storedSize, size, threshold, prev, next, value) ==> value == next
  }

  /** Whatever the chunking threshold, a delta against a manifest of another chunk size is exact for all
      contents only when the two sizes are equal. */
  lemma ExactIffSizesAgree(sha: Sha, storedSize: nat, size: nat, threshold: nat)
    requires Ideal(sha) && storedSize > 0 && size > 0
    ensures AlwaysExact(sha, storedSize, size, threshold) <==> storedSize == size
  {
    if storedSize == size {
      forall prev, next, value | MayUpload(sha, storedSize, size, threshold, prev, next, value)
        ensures value == next
      {
        PublishedIsExact(sha, size, prev, Manifest(sha, prev, size), next, value);
      }
    } else {
      var k := threshold + 1;
      MisalignedLosesTail(sha, storedSize, size, k);
      OffsetAtLeast(k, storedSize);
      OffsetAtLeast(k, size);
      var value := LostTail(storedSize, size, k);
      assert MayUpload(sha, storedSize, size, threshold, Tailed(k, storedSize), Tailed(k, size), value);
    }
  }

  lemma {:induction false} OffsetAtLeast(i: nat, size: nat)
    requires size > 0
    ensures Offset(i, size) >= i
  {
    if i > 0 {
      OffsetAtLeast(i - 1, size);
    }
  }

  function Zeros(n: nat): Bytes {
    seq(n, _ => 0)
  }

  /** `k` full chunks of zeros, and one byte more. */
  function Tailed(k: nat, size: nat): Bytes {
    Zeros(Offset(k, size)) + [1]
  }

  /** What is left of the content after the misaligned upload. */
  function LostTail(storedSize: nat, size: nat, k: nat): Bytes {
    if storedSize < size then Zeros(Offset(k, size)) else Zeros(Offset(k, size) + 1)
  }

  /** The failing family: any number of full chunks of zeros followed by a single byte, at either size.
      The diff sees the same last chunk and leaves it alone, although it sits at another offset. */
  lemma MisalignedLosesTail(sha: Sha, storedSize: nat, size: nat, k: nat)
    requires Ideal(sha) && storedSize > 0 && size > 0 && storedSize != size && k > 0
    ensures var prev, next, value := Tailed(k, storedSize), Tailed(k, size), LostTail(storedSize, size, k);
            MayPublish(sha, Manifest(sha, prev, storedSize), size, prev, next, value) && value != next
  {
    var prev, next, value := Tailed(k, storedSize), Tailed(k, size), LostTail(storedSize, size, k);
    var chunks := DeltaChunks(sha, Manifest(sha, prev, storedSize), next, size);
    MisalignedDelta(sha, storedSize, size, k);
    OffsetsCompare(k, storedSize, size);
    forall j | 0 <= j < |value|
      ensures OverlayByte(prev, chunks, size, j) == 0
    {
      MisalignedByte(prev, chunks, size, k, j);
    }
    assert value == Overlay(prev, chunks, size, |value|);
    if storedSize < size {
      LastFullChunk(prev, chunks, size, k);
    }
    assert next[Offset(k, size)] == 1;
  }

  lemma {:induction false} OffsetsCompare(k: nat, a: nat, b: nat)
    ensures k > 0 && a < b ==> Offset(k, a) < Offset(k, b)
    ensures k > 0 && b < a ==> Offset(k, b) < Offset(k, a)
    ensures a == b ==> Offset(k, a) == Offset(k, b)
  {
    if k > 1 { OffsetsCompare(k - 1, a, b); }
  }

  /** The delta is every chunk of zeros, and not the tail. */
  ghost predicate AllButTail(chunks: map<nat, Bytes>, size: nat, k: nat) {
    forall i: nat :: (i in chunks <==> i < k) && (i in chunks ==> chunks[i] == Zeros(size))
  }

  lemma LastFullChunk(prev: Bytes, chunks: map<nat, Bytes>, size: nat, k: nat)
    requires AllButTail(chunks, size, k) && k > 0 && size > 0 && |prev| <= Offset(k, size)
    ensures Extent(Offset(k, size), prev, chunks, size)
  {
    assert k - 1 in chunks && chunks[k - 1] != [] && Offset(k - 1, size) + |chunks[k - 1]| == Offset(k, size);
    forall i: nat | i in chunks && chunks[i] != [] ensures Offset(i, size) + |chunks[i]| <= Offset(k, size) {
      OffsetMonotone(i, k, size);
    }
  }

  lemma MisalignedByte(prev: Bytes, chunks: map<nat, Bytes>, size: nat, k: nat, j: nat)
    requires size > 0 && AllButTail(chunks, size, k) && j <= Offset(k, size)
    requires j == Offset(k, size) ==> j < |prev| && prev[j] == 0
    ensures OverlayByte(prev, chunks, size, j) == 0
  {
    Locate(j, size);
    var i := Index(j, size);
    if i < k {
      assert i in chunks;
    } else {
      if k < i { OffsetMonotone(k, i, size); }
      assert i !in chunks;
    }
  }

  lemma MisalignedDelta(sha: Sha, storedSize: nat, size: nat, k: nat)
    requires Ideal(sha) && storedSize > 0 && size > 0 && storedSize != size
    ensures AllButTail(DeltaChunks(sha, Manifest(sha, Tailed(k, storedSize), storedSize), Tailed(k, size), size),
                       size, k)
  {
    var stored := Manifest(sha, Tailed(k, storedSize), storedSize);
    var chunks := DeltaChunks(sha, stored, Tailed(k, size), size);
    forall i: nat
      ensures (i in chunks <==> i < k) && (i in chunks ==> chunks[i] == Zeros(size))
    {
      MisalignedChunk(sha, storedSize, size, k, i);
    }
  }

  lemma MisalignedChunk(sha: Sha, storedSize: nat, size: nat, k: nat, i: nat)
    requires Ideal(sha) && storedSize > 0 && size > 0 && storedSize != size
    ensures i < k ==> i < ChunkCount(|Tailed(k, size)|, size) && Chunk(Tailed(k, size), size, i) == Zeros(size)
    ensures Dirty(Manifest(sha, Tailed(k, storedSize), storedSize), Manifest(sha, Tailed(k, size), size), i) <==> i < k
  {
    TailedChunk(k, storedSize, i);
    TailedChunk(k, size, i);
    assert |Zeros(storedSize)| != |Zeros(size)|;
  }

  lemma TailedChunk(k: nat, size: nat, i: nat)
    requires size > 0
    ensures i < ChunkCount(|Tailed(k, size)|, size) <==> i <= k
    ensures i < k ==> Chunk(Tailed(k, size), size, i) == Zeros(size)
    ensures i == k ==> Chunk(Tailed(k, size), size, i) == [1]
  {
    ChunkCountCovers(|Tailed(k, size)|, size, i);
    if i < k { OffsetMonotone(i, k, size); }
    if k < i { OffsetMonotone(k, i, size); }
  }

  /** An upload that does it: the remote file is the baseline, recorded at another chunk size, the file on
      disk is the target, and the uploader publishes a file without its last byte. */
  method MisalignedUpload(sha: Sha, storedSize: nat, size: nat, k: nat) returns (out: Upload)
    requires Ideal(sha) && storedSize > 0 && size > 0 && storedSize != size && k > 0
    ensures out == Published(LostTail(storedSize, size, k)) && LostTail(storedSize, size, k) != Tailed(k, size)
  {
    var prev, next := Tailed(k, storedSize), Tailed(k, size);
    var old', new' := Manifest(sha, prev, storedSize), Manifest(sha, next, size);
    var dirty, _ := DiffChunkManifests(old', new');
    var stored := Entry(|prev|, CompositeHash(sha, old'), storedSize, old');
    var op := Transfer(|next|, size, new', dirty);
    MisalignedLosesTail(sha, storedSize, size, k);
    OffsetsCompare(k, storedSize, size);
    CompositeIdentifiesBytes(sha, prev, next, size);
    assert DiskAsPlanned(sha, op, next, dirty) by {
      forall i | 0 <= i < |dirty|
        ensures dirty[i] < |new'| && sha(Chunk(next, size, dirty[i])) == new'[dirty[i]]
      {
        assert Dirty(old', new', dirty[i]);
      }
    }
    out := ProcessChunkedUpload(sha, stored, op, next, prev, false);
    assert ChunksOn(op, next, dirty) == DeltaChunks(sha, old', next, size);
    WrittenUnique(prev, DeltaChunks(sha, old', next, size), size, |next|, out.value, LostTail(storedSize, size, k));
  }
}
