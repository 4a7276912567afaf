// src/network/smoke-store.ts: large files are split into 8 MB chunks, each stored (and encrypted) on its own,
// and range requests read only the chunks they touch.
module SmokeStore {
  import opened Basics

  const STREAM_CHUNK_SIZE := 8 * 1024 * 1024

  type Bytes = seq<Byte>

  // The content hash and the cipher. `encrypt` takes the fresh initialisation vector as a number.
  datatype Codec = Codec(cid: Bytes -> string, encrypt: (Bytes, nat) -> Bytes, decrypt: Bytes -> Option<Bytes>)

  // Decryption inverts encryption under every initialisation vector, and content hashes do not collide.
  ghost predicate Faithful(c: Codec) {
    && (forall plain: Bytes, iv: nat :: c.decrypt(c.encrypt(plain, iv)) == Some(plain))
    && (forall x: Bytes, y: Bytes :: c.cid(x) == c.cid(y) ==> x == y)
  }

  datatype StreamChunk = StreamChunk(cid: string, size: nat)

  datatype Meta = Meta(size: nat, encrypted: bool, streamChunks: seq<StreamChunk>)

  type Blobs = map<string, Bytes>

  function Plain(c: Codec, raw: Bytes, encrypted: bool): Option<Bytes> {
    if encrypted then c.decrypt(raw) else Some(raw)
  }

  // The plaintext of a stored chunk.
  function ReadChunk(c: Codec, blobs: Blobs, chunk: StreamChunk, encrypted: bool): Option<Bytes> {
    if chunk.cid in blobs then Plain(c, blobs[chunk.cid], encrypted) else None
  }

  function ChunkCount(size: nat): nat {
    (size + STREAM_CHUNK_SIZE - 1) / STREAM_CHUNK_SIZE
  }

  // The i-th piece of the data: STREAM_CHUNK_SIZE bytes, or what is left.
  function Piece(data: Bytes, i: nat): Bytes
    requires i * STREAM_CHUNK_SIZE <= |data|
  {
    data[i * STREAM_CHUNK_SIZE..Min((i + 1) * STREAM_CHUNK_SIZE, |data|)]
  }

  // The chunk names its stored bytes, which read back as the plaintext.
  ghost predicate Stored(c: Codec, blobs: Blobs, chunk: StreamChunk, plain: Bytes, encrypted: bool) {
    && chunk.cid in blobs && c.cid(blobs[chunk.cid]) == chunk.cid && chunk.size == |blobs[chunk.cid]|
    && ReadChunk(c, blobs, chunk, encrypted) == Some(plain)
  }

  ghost predicate AllStored(c: Codec, blobs: Blobs, chunks: seq<StreamChunk>, encrypted: bool, data: Bytes) {
    forall i :: 0 <= i < |chunks| ==> i * STREAM_CHUNK_SIZE < |data| && Stored(c, blobs, chunks[i], Piece(data, i), encrypted)
  }

  // The store holds the data under the chunk list.
  ghost predicate Holds(c: Codec, blobs: Blobs, chunks: seq<StreamChunk>, encrypted: bool, data: Bytes) {
    |chunks| == ChunkCount(|data|) && AllStored(c, blobs, chunks, encrypted, data)
  }

  lemma PieceReads(c: Codec, blobs: Blobs, chunks: seq<StreamChunk>, encrypted: bool, data: Bytes, i: nat)
    requires Holds(c, blobs, chunks, encrypted, data) && i < |chunks|
    ensures i * STREAM_CHUNK_SIZE < |data| && ReadChunk(c, blobs, chunks[i], encrypted) == Some(Piece(data, i))
  {
  }

  // ----- Reads as functions --------------------------------------------------------------------

  function Flatten(parts: seq<Bytes>): Bytes {
    if parts == [] then [] else Flatten(parts[..|parts| - 1]) + parts[|parts| - 1]
  }

  // JavaScript subarray for 0 <= from: empty when the bounds cross.
  function SubArray(b: Bytes, from: int, to: int): Bytes {
    if 0 <= from < to <= |b| then b[from..to] else []
  }

  function Joined(first: Option<Bytes>, rest: Option<Bytes>): Option<Bytes> {
    if first.Some? && rest.Some? then Some(first.value + rest.value) else None
  }

  // What one chunk at `offset` contributes to the range [start, end]; None when it cannot be read.
  function Contribution(c: Codec, blobs: Blobs, m: Meta, chunk: StreamChunk, offset: int, start: nat, end: nat): Option<Bytes> {
    var chunkEnd := offset + Min(STREAM_CHUNK_SIZE, m.size - offset) - 1;
    if chunkEnd >= start && offset <= end then
      var plain := ReadChunk(c, blobs, chunk, m.encrypted);
      if plain.None? then None
      else Some(SubArray(plain.value, Max(0, start - offset), Min(|plain.value|, end - offset + 1)))
    else Some([])
  }

  // getChunkBytes over the remaining chunks, the first of which starts at `offset`.
  function Fetch(c: Codec, blobs: Blobs, m: Meta, chunks: seq<StreamChunk>, offset: int, start: nat, end: nat): Option<Bytes>
    decreases |chunks|
  {
    if chunks == [] then Some([])
    else
      var next := offset + Min(STREAM_CHUNK_SIZE, m.size - offset);
      Joined(Contribution(c, blobs, m, chunks[0], offset, start, end),
             if next > end then Some([]) else Fetch(c, blobs, m, chunks[1..], next, start, end))
  }

  function Assemble(c: Codec, blobs: Blobs, chunks: seq<StreamChunk>, encrypted: bool): Option<Bytes> {
    if chunks == [] then Some([])
    else Joined(Assemble(c, blobs, chunks[..|chunks| - 1], encrypted), ReadChunk(c, blobs, chunks[|chunks| - 1], encrypted))
  }

  // The bytes from start to end, both included, as far as the data goes.
  function Range(data: Bytes, start: nat, end: nat): Bytes {
    SubArray(data, start, Min(|data|, end + 1))
  }

  // ----- Reads return the original bytes -------------------------------------------------------

  lemma ContributionIsRange(c: Codec, blobs: Blobs, m: Meta, data: Bytes, i: nat, start: nat, end: nat)
    requires Holds(c, blobs, m.streamChunks, m.encrypted, data) && m.size == |data| && i < |m.streamChunks|
    ensures var offset, next := i * STREAM_CHUNK_SIZE, Min((i + 1) * STREAM_CHUNK_SIZE, |data|);
            && 0 <= offset < next
            && Contribution(c, blobs, m, m.streamChunks[i], offset, start, end) ==
               Some(Range(data, Max(start, offset), Min(end, next - 1)))
  {
    var offset, next := i * STREAM_CHUNK_SIZE, Min((i + 1) * STREAM_CHUNK_SIZE, |data|);
    PieceReads(c, blobs, m.streamChunks, m.encrypted, data, i);
    assert offset + Min(STREAM_CHUNK_SIZE, m.size - offset) == next;
    SubArrayOfPiece(data, offset, next, start, end);
  }

  lemma SliceOfSlice(s: Bytes, a: nat, b: nat, from: nat, to: nat)
    requires a <= b <= |s| && from <= to <= b - a
    ensures s[a..b][from..to] == s[a + from..a + to]
  {
    var left, right := s[a..b][from..to], s[a + from..a + to];
    forall k | 0 <= k < to - from
      ensures left[k] == right[k]
    {
      assert left[k] == s[a..b][from + k] == s[a + from + k];
    }
  }

  lemma SubArrayOfPiece(data: Bytes, offset: nat, next: nat, start: nat, end: nat)
    requires offset < next <= |data|
    ensures next - 1 >= start && offset <= end ==>
              SubArray(data[offset..next], Max(0, start - offset), Min(next - offset, end - offset + 1)) ==
              Range(data, Max(start, offset), Min(end, next - 1))
    ensures !(next - 1 >= start && offset <= end) ==> Range(data, Max(start, offset), Max(0, Min(end, next - 1))) == []
  {
    var from, to := Max(0, start - offset), Min(next - offset, end - offset + 1);
    if next - 1 >= start && offset <= end && from < to {
      SliceOfSlice(data, offset, next, from, to);
    }
  }

  lemma RangesJoin(data: Bytes, start: nat, middle: nat, end: nat)
    requires 0 < middle <= |data| && middle <= end
    ensures Range(data, start, middle - 1) + Range(data, Max(start, middle), end) == Range(data, start, end)
  {
  }

  lemma JoinedLaws(a: Option<Bytes>, b: Option<Bytes>, c: Option<Bytes>)
    ensures Joined(Joined(a, b), c) == Joined(a, Joined(b, c))
    ensures Joined(a, Some([])) == a == Joined(Some([]), a)
  {
    if a.Some? {
      assert a.value + [] == a.value == [] + a.value;
      if b.Some? && c.Some? {
        assert (a.value + b.value) + c.value == a.value + (b.value + c.value);
      }
    }
  }

  // What the loop of getChunkBytes still has to read: nothing once it has passed the end of the range.
  function Rest(c: Codec, blobs: Blobs, m: Meta, i: nat, offset: int, start: nat, end: nat): Option<Bytes>
    requires i <= |m.streamChunks|
  {
    if i > 0 && offset > end then Some([]) else Fetch(c, blobs, m, m.streamChunks[i..], offset, start, end)
  }

  lemma FetchFirst(c: Codec, blobs: Blobs, m: Meta, i: nat, offset: int, start: nat, end: nat)
    requires i < |m.streamChunks|
    ensures var next := offset + Min(STREAM_CHUNK_SIZE, m.size - offset);
            Fetch(c, blobs, m, m.streamChunks[i..], offset, start, end) ==
            Joined(Contribution(c, blobs, m, m.streamChunks[i], offset, start, end), Rest(c, blobs, m, i + 1, next, start, end))
  {
  }

  lemma ChunkBounds(size: nat, i: nat)
    requires i < ChunkCount(size)
    ensures i * STREAM_CHUNK_SIZE < size
    ensures i + 1 < ChunkCount(size) ==> (i + 1) * STREAM_CHUNK_SIZE < size
    ensures i + 1 == ChunkCount(size) ==> (i + 1) * STREAM_CHUNK_SIZE >= size
  {
  }

  lemma {:induction false} FetchIsRange(c: Codec, blobs: Blobs, m: Meta, data: Bytes, i: nat, start: nat, end: nat)
    requires Holds(c, blobs, m.streamChunks, m.encrypted, data) && m.size == |data| && i < |m.streamChunks|
    ensures Fetch(c, blobs, m, m.streamChunks[i..], i * STREAM_CHUNK_SIZE, start, end) ==
            Some(Range(data, Max(start, i * STREAM_CHUNK_SIZE), end))
    decreases |m.streamChunks| - i
  {
    var offset, next := i * STREAM_CHUNK_SIZE, Min((i + 1) * STREAM_CHUNK_SIZE, |data|);
    ChunkBounds(|data|, i);
    ContributionIsRange(c, blobs, m, data, i, start, end);
    FetchFirst(c, blobs, m, i, offset, start, end);
    if next > end {
      JoinedLaws(Some(Range(data, Max(start, offset), end)), None, None);
    } else {
      RangesJoin(data, Max(start, offset), next, end);
      if i + 1 < |m.streamChunks| {
        FetchIsRange(c, blobs, m, data, i + 1, start, end);
      } else {
        assert m.streamChunks[i + 1..] == [] && Range(data, Max(start, next), end) == [];
      }
    }
  }

  lemma PrefixGrows(data: Bytes, a: nat, b: nat)
    requires a <= b <= |data|
    ensures data[..a] + data[a..b] == data[..b]
  {
  }

  // The whole-file read.
  lemma {:induction false} AssembleIsPrefix(c: Codec, blobs: Blobs, chunks: seq<StreamChunk>, encrypted: bool, data: Bytes, n: nat)
    requires Holds(c, blobs, chunks, encrypted, data) && n <= |chunks|
    ensures Assemble(c, blobs, chunks[..n], encrypted) == Some(data[..Min(n * STREAM_CHUNK_SIZE, |data|)])
  {
    if n > 0 {
      AssembleIsPrefix(c, blobs, chunks, encrypted, data, n - 1);
      ChunkBounds(|data|, n - 1);
      assert chunks[..n][..n - 1] == chunks[..n - 1];
      PieceReads(c, blobs, chunks, encrypted, data, n - 1);
      PrefixGrows(data, (n - 1) * STREAM_CHUNK_SIZE, Min(n * STREAM_CHUNK_SIZE, |data|));
    }
  }

  // ----- Theorems ------------------------------------------------------------------------------

  // A range read returns exactly the requested bytes, and ranges that meet join up.
  lemma RangeReadsAreExact(c: Codec, blobs: Blobs, m: Meta, data: Bytes, start: nat, end: nat)
    requires Holds(c, blobs, m.streamChunks, m.encrypted, data) && m.size == |data| && data != []
    ensures Fetch(c, blobs, m, m.streamChunks, 0, start, end) == Some(Range(data, start, end))
    ensures start <= end < |data| ==> Range(data, start, end) == data[start..end + 1]
  {
    assert m.streamChunks[0..] == m.streamChunks;
    FetchIsRange(c, blobs, m, data, 0, start, end);
  }

  lemma AdjacentRangesJoin(c: Codec, blobs: Blobs, m: Meta, data: Bytes, start: nat, middle: nat, end: nat)
    requires Holds(c, blobs, m.streamChunks, m.encrypted, data) && m.size == |data| && data != []
    requires start <= middle < end
    ensures Joined(Fetch(c, blobs, m, m.streamChunks, 0, start, middle), Fetch(c, blobs, m, m.streamChunks, 0, middle + 1, end))
            == Fetch(c, blobs, m, m.streamChunks, 0, start, end)
  {
    RangeReadsAreExact(c, blobs, m, data, start, middle);
    RangeReadsAreExact(c, blobs, m, data, middle + 1, end);
    RangeReadsAreExact(c, blobs, m, data, start, end);
    if middle < |data| {
      RangesJoin(data, start, middle + 1, end);
    } else {
      JoinedLaws(Some(Range(data, start, end)), None, None);
    }
  }

  lemma WholeFileReads(c: Codec, blobs: Blobs, chunks: seq<StreamChunk>, encrypted: bool, data: Bytes)
    requires Holds(c, blobs, chunks, encrypted, data)
    ensures Assemble(c, blobs, chunks, encrypted) == Some(data)
  {
    AssembleIsPrefix(c, blobs, chunks, encrypted, data, |chunks|);
    assert chunks[..|chunks|] == chunks && data[..|data|] == data;
    if |chunks| > 0 {
      ChunkBounds(|data|, |chunks| - 1);
    }
  }

  // Writes lose nothing that is stored under its own content hash.
  ghost predicate Grows(c: Codec, before: Blobs, after: Blobs) {
    forall k :: k in before ==> k in after && (c.cid(before[k]) == k ==> after[k] == before[k])
  }

  lemma OneMoreStored(c: Codec, before: Blobs, after: Blobs, chunks: seq<StreamChunk>, chunk: StreamChunk, encrypted: bool, data: Bytes)
    requires AllStored(c, before, chunks, encrypted, data) && Grows(c, before, after)
    requires |chunks| * STREAM_CHUNK_SIZE < |data| && Stored(c, after, chunk, Piece(data, |chunks|), encrypted)
    ensures AllStored(c, after, chunks + [chunk], encrypted, data)
  {
  }

  lemma GrowsTransitive(c: Codec, a: Blobs, b: Blobs, d: Blobs)
    requires Grows(c, a, b) && Grows(c, b, d)
    ensures Grows(c, a, d)
  {
  }

  lemma CoveringCount(size: nat, n: nat)
    requires size <= n * STREAM_CHUNK_SIZE < size + STREAM_CHUNK_SIZE
    ensures n == ChunkCount(size)
  {
  }

  // Every chunk but the last holds eight mebibytes of the file, and the last what is left.
  lemma ChunkSizes(c: Codec, blobs: Blobs, chunks: seq<StreamChunk>, encrypted: bool, data: Bytes, i: nat)
    requires Holds(c, blobs, chunks, encrypted, data) && i < |chunks|
    ensures ReadChunk(c, blobs, chunks[i], encrypted).Some?
    ensures var plain := ReadChunk(c, blobs, chunks[i], encrypted).value;
            && (i < |chunks| - 1 ==> |plain| == 8_388_608) && 0 < |plain| <= 8_388_608
            && (i == |chunks| - 1 ==> |plain| == |data| - 8_388_608 * i)
  {
    PieceReads(c, blobs, chunks, encrypted, data, i);
    ChunkBounds(|data|, i);
  }

  // What the store holds it keeps holding, whatever is written later.
  lemma LaterWritesKeepFiles(c: Codec, before: Blobs, after: Blobs, chunks: seq<StreamChunk>, encrypted: bool, data: Bytes)
    requires Holds(c, before, chunks, encrypted, data) && Grows(c, before, after)
    ensures Holds(c, after, chunks, encrypted, data)
  {
  }

  // A file the store holds is read from the store, whatever other places answer.
  lemma StoredFilesAreRead(c: Codec, elsewhere: Blobs, opfs: Blobs, m: Meta, data: Bytes, start: nat, end: nat)
    requires Holds(c, opfs, m.streamChunks, m.encrypted, data) && m.size == |data| && data != []
    ensures Fetch(c, elsewhere + opfs, m, m.streamChunks, 0, start, end) == Some(Range(data, start, end))
    ensures Assemble(c, elsewhere + opfs, m.streamChunks, m.encrypted) == Some(data)
  {
    LaterWritesKeepFiles(c, opfs, elsewhere + opfs, m.streamChunks, m.encrypted, data);
    RangeReadsAreExact(c, elsewhere + opfs, m, data, start, end);
    WholeFileReads(c, elsewhere + opfs, m.streamChunks, m.encrypted, data);
  }

  // ----- The store -----------------------------------------------------------------------------

  class SmokeStore {
    const codec: Codec
    // What `retrieve` answers for chunks that are not here: from the smaller local store, or from peers.
    const elsewhere: Blobs
    var opfs: Blobs
    var nextIv: nat

    // A chunk is looked for here first.
    function Available(): Blobs
      reads this
    {
      elsewhere + opfs
    }

    constructor (codec: Codec, elsewhere: Blobs)
      ensures this.codec == codec && this.elsewhere == elsewhere && opfs == map[]
    {
      this.codec, this.elsewhere, opfs, nextIv := codec, elsewhere, map[], 0;
    }

    method StoreChunk(slice: Bytes, encrypted: bool) returns (chunk: StreamChunk)
      requires Faithful(codec)
      modifies this
      ensures Stored(codec, opfs, chunk, slice, encrypted) && Grows(codec, old(opfs), opfs)
      ensures opfs[chunk.cid] == (if encrypted then codec.encrypt(slice, old(nextIv)) else slice)
      ensures nextIv == old(nextIv) + (if encrypted then 1 else 0)
    {
      var stored := slice;
      if encrypted {
        stored := codec.encrypt(slice, nextIv);
        nextIv := nextIv + 1;
      }
      var cid := codec.cid(stored);
      opfs := opfs[cid := stored];
      chunk := StreamChunk(cid, |stored|);
    }

    // storeChunks: afterwards the store holds the data, and whatever it held under content hashes before.
    method StoreChunks(data: Bytes, encrypted: bool) returns (chunks: seq<StreamChunk>)
      requires Faithful(codec)
      modifies this
      ensures Holds(codec, opfs, chunks, encrypted, data) && Grows(codec, old(opfs), opfs)
    {
      chunks := [];
      var offset := 0;
      while offset < |data|
        invariant offset == |chunks| * STREAM_CHUNK_SIZE && offset < |data| + STREAM_CHUNK_SIZE
        invariant AllStored(codec, opfs, chunks, encrypted, data) && Grows(codec, old(opfs), opfs)
        decreases |data| + STREAM_CHUNK_SIZE - offset
      {
        var slice := data[offset..Min(offset + STREAM_CHUNK_SIZE, |data|)];
        assert slice == Piece(data, |chunks|);
        ghost var before := opfs;
        var chunk := StoreChunk(slice, encrypted);
        OneMoreStored(codec, before, opfs, chunks, chunk, encrypted, data);
        GrowsTransitive(codec, old(opfs), before, opfs);
        chunks := chunks + [chunk];
        offset := offset + STREAM_CHUNK_SIZE;
      }
      CoveringCount(|data|, |chunks|);
    }

    method ReadPlain(chunk: StreamChunk, encrypted: bool) returns (plain: Option<Bytes>)
      ensures plain == ReadChunk(codec, Available(), chunk, encrypted)
    {
      if chunk.cid !in opfs && chunk.cid !in elsewhere { return None; }
      var raw := if chunk.cid in opfs then opfs[chunk.cid] else elsewhere[chunk.cid];
      if !encrypted { return Some(raw); }
      plain := codec.decrypt(raw);
    }

    method RetrieveWithMeta(m: Meta) returns (data: Option<Bytes>)
      ensures data == if m.streamChunks == [] then None else Assemble(codec, Available(), m.streamChunks, m.encrypted)
    {
      if m.streamChunks == [] { return None; }
      var parts: seq<Bytes> := [];
      for i := 0 to |m.streamChunks|
        invariant Assemble(codec, Available(), m.streamChunks[..i], m.encrypted) == Some(Flatten(parts))
      {
        assert m.streamChunks[..i + 1][..i] == m.streamChunks[..i];
        var plain := ReadPlain(m.streamChunks[i], m.encrypted);
        if plain.None? {
          AssembleFails(codec, Available(), m.streamChunks, m.encrypted, i);
          return None;
        }
        FlattenMore(parts, plain.value);
        parts := parts + [plain.value];
      }
      assert m.streamChunks[..|m.streamChunks|] == m.streamChunks;
      var bytes := ConcatBytes(parts);
      return Some(bytes);
    }

    // What one chunk adds to the range, and whether it overlaps the range at all.
    method ReadPart(m: Meta, chunk: StreamChunk, plainOffset: int, start: nat, end: nat) returns (part: Option<Bytes>, overlaps: bool)
      ensures part == Contribution(codec, Available(), m, chunk, plainOffset, start, end)
      ensures !overlaps ==> part == Some([])
    {
      var plainChunkSize := Min(STREAM_CHUNK_SIZE, m.size - plainOffset);
      var chunkEnd := plainOffset + plainChunkSize - 1;
      overlaps := chunkEnd >= start && plainOffset <= end;
      if !overlaps { return Some([]), false; }
      var plain := ReadPlain(chunk, m.encrypted);
      if plain.None? { return None, true; }
      var sliceStart, sliceEnd := Max(0, start - plainOffset), Min(|plain.value|, end - plainOffset + 1);
      part := Some(SubArray(plain.value, sliceStart, sliceEnd));
    }

    method GetChunkBytes(m: Meta, start: nat, end: nat) returns (bytes: Option<Bytes>)
      ensures bytes == if m.streamChunks == [] then None else Fetch(codec, Available(), m, m.streamChunks, 0, start, end)
    {
      var chunks := m.streamChunks;
      if chunks == [] { return None; }
      var parts: seq<Bytes> := [];
      var plainOffset, i := 0, 0;
      assert chunks[0..] == chunks;
      JoinedLaws(Fetch(codec, Available(), m, chunks, 0, start, end), None, None);
      while i < |chunks| && (i == 0 || plainOffset <= end)
        invariant 0 <= i <= |chunks|
        invariant Fetch(codec, Available(), m, chunks, 0, start, end) ==
                  Joined(Some(Flatten(parts)), Rest(codec, Available(), m, i, plainOffset, start, end))
      {
        FetchFirst(codec, Available(), m, i, plainOffset, start, end);
        ghost var rest := Rest(codec, Available(), m, i + 1, plainOffset + Min(STREAM_CHUNK_SIZE, m.size - plainOffset), start, end);
        var part, overlaps := ReadPart(m, chunks[i], plainOffset, start, end);
        if part.None? { return None; }
        plainOffset := plainOffset + Min(STREAM_CHUNK_SIZE, m.size - plainOffset);
        i := i + 1;
        JoinedLaws(Some(Flatten(parts)), part, rest);
        if overlaps {
          FlattenMore(parts, part.value);
          parts := parts + [part.value];
        } else {
          JoinedLaws(Some(Flatten(parts)), None, None);
        }
      }
      JoinedLaws(Some(Flatten(parts)), None, None);
      if |parts| == 1 {
        assert [] + [parts[0]] == parts && [] + parts[0] == parts[0];
        FlattenMore([], parts[0]);
        return Some(parts[0]);
      }
      var joined := ConcatBytes(parts);
      return Some(joined);
    }
  }

  lemma FlattenMore(parts: seq<Bytes>, part: Bytes)
    ensures Flatten(parts + [part]) == Flatten(parts) + part
  {
  }

  lemma {:induction false} AssembleFails(c: Codec, blobs: Blobs, chunks: seq<StreamChunk>, encrypted: bool, i: nat)
    requires i < |chunks| && ReadChunk(c, blobs, chunks[i], encrypted).None?
    ensures Assemble(c, blobs, chunks, encrypted).None?
  {
    if i < |chunks| - 1 {
      AssembleFails(c, blobs, chunks[..|chunks| - 1], encrypted, i);
    }
  }

  lemma {:induction false} FlattenLength(parts: seq<Bytes>, i: nat)
    requires i < |parts|
    ensures |Flatten(parts[..i])| + |parts[i]| <= |Flatten(parts)|
  {
    if i < |parts| - 1 {
      FlattenLength(parts[..|parts| - 1], i);
      assert parts[..|parts| - 1][..i] == parts[..i];
    }
  }

  // concatBytes: one buffer of the total length, filled part by part.
  method ConcatBytes(parts: seq<Bytes>) returns (bytes: Bytes)
    ensures bytes == Flatten(parts)
  {
    var total := 0;
    for i := 0 to |parts|
      invariant total == |Flatten(parts[..i])|
    {
      assert parts[..i + 1][..i] == parts[..i];
      total := total + |parts[i]|;
    }
    assert parts[..|parts|] == parts;
    var out := new Byte[total];
    var offset := 0;
    for i := 0 to |parts|
      invariant offset == |Flatten(parts[..i])| <= total && out[..offset] == Flatten(parts[..i])
    {
      assert parts[..i + 1][..i] == parts[..i];
      FlattenLength(parts, i);
      SetAt(out, parts[i], offset);
      assert out[..offset + |parts[i]|] == out[..offset] + out[offset..offset + |parts[i]|];
      offset := offset + |parts[i]|;
    }
    assert out[..offset] == out[..];
    return out[..];
  }

  // Uint8Array.set: the part is copied into the buffer from the offset on.
  method SetAt(out: array<Byte>, part: Bytes, offset: nat)
    requires offset + |part| <= out.Length
    modifies out
    ensures out[..offset] == old(out[..offset]) && out[offset..offset + |part|] == part
    ensures out[offset + |part|..] == old(out[offset + |part|..])
  {
    for j := 0 to |part|
      invariant out[..offset] == old(out[..offset]) && out[offset..offset + j] == part[..j]
      invariant out[offset + |part|..] == old(out[offset + |part|..])
    {
      out[offset + j] := part[j];
      assert out[offset..offset + j + 1] == out[offset..offset + j] + [part[j]];
    }
  }
}
