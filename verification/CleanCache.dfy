// The chunk index of the clean cache: building it, and the two ways of checking a payload against it.
module CleanCache {
  import opened Wrappers
  import opened Bytes
  import opened Hex

  const CHUNK_SIZE: nat := 0x10_0000
  const MIDDLE_SAMPLES: nat := 3
  const VERIFY_PARALLELISM: nat := 3
  const HASH_DIGITS: nat := 16

  // xxh3-64, of which nothing but being a function is used.
  type ChunkHash = Bytes -> u64

  datatype Chunk = Chunk(start: u64, end: u64, hash: Bytes)

  function HashHex(hash: ChunkHash, bytes: Bytes): Bytes {
    HexDigits(hash(bytes), HASH_DIGITS)
  }

  function Decode(hash: Bytes): Option<nat> {
    if |hash| != HASH_DIGITS then None else FromRadix16(hash)
  }

  lemma {:induction false} DecodeRoundTrip(hash: ChunkHash, bytes: Bytes)
    ensures Decode(HashHex(hash, bytes)) == Some(hash(bytes))
  {
    assert Pow16(4) == 0x1_0000;
    assert Pow16(8) == 0x1_0000_0000;
    assert Pow16(12) == 0x1_0000_0000_0000;
    assert Pow16(HASH_DIGITS) == U64_LIMIT;
    HexRoundTrip(hash(bytes), HASH_DIGITS);
  }

  // ---- Building the index ----

  function WindowEnd(size: nat, pos: nat): (end: nat)
    requires pos < size
    ensures pos < end <= size
  {
    if size - pos < CHUNK_SIZE then size else pos + CHUNK_SIZE
  }

  // The windows of the first `size` bytes, from `pos` on.
  function ChunksFrom(hash: ChunkHash, bytes: Bytes, size: u64, pos: nat): seq<Chunk>
    requires pos <= size <= |bytes|
    decreases size - pos
  {
    if pos == size then []
    else
      var end := WindowEnd(size, pos);
      [Chunk(pos, end, HashHex(hash, bytes[pos..end]))] + ChunksFrom(hash, bytes, size, end)
  }

  // An empty payload has one empty chunk.
  function ChunksOf(hash: ChunkHash, bytes: Bytes, size: u64): seq<Chunk>
    requires size <= |bytes|
  {
    if size == 0 then [Chunk(0, 0, HashHex(hash, []))] else ChunksFrom(hash, bytes, size, 0)
  }

  // The windows read so far and those still to come.
  predicate IndexedUpTo(hash: ChunkHash, bytes: Bytes, size: u64, pos: nat, chunks: seq<Chunk>)
    requires pos <= size <= |bytes|
  {
    chunks + ChunksFrom(hash, bytes, size, pos) == ChunksFrom(hash, bytes, size, 0)
  }

  lemma {:induction false} NextWindow(hash: ChunkHash, bytes: Bytes, size: u64, pos: nat, chunks: seq<Chunk>)
    requires pos < size <= |bytes| && IndexedUpTo(hash, bytes, size, pos, chunks)
    ensures var end := WindowEnd(size, pos);
            IndexedUpTo(hash, bytes, size, end, chunks + [Chunk(pos, end, HashHex(hash, bytes[pos..end]))])
  {
    var end := WindowEnd(size, pos);
    var next := [Chunk(pos, end, HashHex(hash, bytes[pos..end]))];
    assert chunks + (next + ChunksFrom(hash, bytes, size, end)) == (chunks + next) + ChunksFrom(hash, bytes, size, end);
  }

  lemma {:induction false} AllIndexed(hash: ChunkHash, bytes: Bytes, size: u64, chunks: seq<Chunk>)
    requires size <= |bytes| && IndexedUpTo(hash, bytes, size, size, chunks)
    ensures ChunksOf(hash, bytes, size) == if size == 0 then [Chunk(0, 0, HashHex(hash, []))] else chunks
  {
    assert chunks + [] == chunks;
  }

  method ComputeChunksFromSlice(hash: ChunkHash, bytes: Bytes) returns (chunks: seq<Chunk>)
    requires |bytes| < U64_LIMIT
    ensures chunks == ChunksOf(hash, bytes, |bytes|)
  {
    chunks := [];
    var size, pos := |bytes|, 0;
    while pos < size
      invariant pos <= size
      invariant IndexedUpTo(hash, bytes, size, pos, chunks)
      invariant pos > 0 <==> chunks != []
    {
      var end := if pos + CHUNK_SIZE < size then pos + CHUNK_SIZE else size;
      NextWindow(hash, bytes, size, pos, chunks);
      chunks := chunks + [Chunk(pos, end, HashHex(hash, bytes[pos..end]))];
      pos := end;
    }
    AllIndexed(hash, bytes, size, chunks);
    if chunks == [] {
      chunks := [Chunk(0, 0, HashHex(hash, []))];
    }
  }

  // Reads `size` bytes of the file, window by window; fails when the file is shorter.
  method ComputeChunks(hash: ChunkHash, file: Bytes, size: u64) returns (ok: bool, chunks: seq<Chunk>)
    ensures ok <==> size <= |file|
    ensures ok ==> chunks == ChunksOf(hash, file, size)
  {
    chunks := [];
    var pos: nat := 0;
    while pos < size
      invariant pos <= size && pos <= |file|
      invariant size <= |file| ==> IndexedUpTo(hash, file, size, pos, chunks)
      invariant pos > 0 <==> chunks != []
    {
      var toRead := if size - pos < CHUNK_SIZE then size - pos else CHUNK_SIZE;
      if |file| - pos < toRead {
        return false, [];
      }
      if size <= |file| {
        NextWindow(hash, file, size, pos, chunks);
      }
      chunks := chunks + [Chunk(pos, pos + toRead, HashHex(hash, file[pos..pos + toRead]))];
      pos := pos + toRead;
    }
    AllIndexed(hash, file, size, chunks);
    if chunks == [] {
      chunks := [Chunk(0, 0, HashHex(hash, []))];
    }
    return true, chunks;
  }

  // The index said outright: one chunk for each MiB begun, each from a multiple of a MiB to the next
  // one or to the end.
  ghost predicate IsIndexOf(hash: ChunkHash, bytes: Bytes, size: u64, pos: nat, chunks: seq<Chunk>)
    requires pos <= size <= |bytes|
  {
    && |chunks| == (size - pos + 0xF_FFFF) / 0x10_0000
    && forall i :: 0 <= i < |chunks| ==>
         var start := pos + i * 0x10_0000;
         var end := if start + 0x10_0000 < size then start + 0x10_0000 else size;
         start <= end && chunks[i] == Chunk(start, end, HashHex(hash, bytes[start..end]))
  }

  lemma {:induction false} OneMoreWindow(hash: ChunkHash, bytes: Bytes, size: u64, pos: nat, rest: seq<Chunk>)
    requires pos < size <= |bytes| && IsIndexOf(hash, bytes, size, WindowEnd(size, pos), rest)
    ensures var end := WindowEnd(size, pos);
            IsIndexOf(hash, bytes, size, pos, [Chunk(pos, end, HashHex(hash, bytes[pos..end]))] + rest)
  {
    var end := WindowEnd(size, pos);
    var chunks := [Chunk(pos, end, HashHex(hash, bytes[pos..end]))] + rest;
    if end < size {
      assert size - pos + 0xF_FFFF == size - end + 0xF_FFFF + 0x10_0000;
      forall i | 0 < i < |chunks|
        ensures var start := pos + i * 0x10_0000;
                var to := if start + 0x10_0000 < size then start + 0x10_0000 else size;
                start <= to && chunks[i] == Chunk(start, to, HashHex(hash, bytes[start..to]))
      {
        assert chunks[i] == rest[i - 1] && pos + i * 0x10_0000 == end + (i - 1) * 0x10_0000;
      }
    }
  }

  lemma {:induction false} ChunksFromAreIndex(hash: ChunkHash, bytes: Bytes, size: u64, pos: nat)
    requires pos <= size <= |bytes|
    ensures IsIndexOf(hash, bytes, size, pos, ChunksFrom(hash, bytes, size, pos))
    decreases size - pos
  {
    if pos < size {
      ChunksFromAreIndex(hash, bytes, size, WindowEnd(size, pos));
      OneMoreWindow(hash, bytes, size, pos, ChunksFrom(hash, bytes, size, WindowEnd(size, pos)));
    }
  }

  // ... but for an empty payload, which has one empty chunk.
  lemma {:induction false} ChunksAreIndex(hash: ChunkHash, bytes: Bytes, size: u64)
    requires size <= |bytes|
    ensures if size == 0 then ChunksOf(hash, bytes, size) == [Chunk(0, 0, HashHex(hash, []))]
            else IsIndexOf(hash, bytes, size, 0, ChunksOf(hash, bytes, size))
  {
    ChunksFromAreIndex(hash, bytes, size, 0);
  }

  // ---- What the verifiers accept ----

  predicate WellOrdered(cached: seq<Chunk>) {
    forall i :: 0 <= i < |cached| ==> cached[i].start <= cached[i].end
  }

  // The u64 sum of the chunk lengths, which wraps.
  function Covered(cached: seq<Chunk>): nat
    requires WellOrdered(cached)
  {
    if cached == [] then 0 else (cached[0].end - cached[0].start + Covered(cached[1..])) % U64_LIMIT
  }

  function TotalLength(chunks: seq<Chunk>): nat
    requires WellOrdered(chunks)
  {
    if chunks == [] then 0
    else
      var last := chunks[|chunks| - 1];
      TotalLength(chunks[..|chunks| - 1]) + last.end - last.start
  }

  lemma {:induction false} TotalLengthHead(chunks: seq<Chunk>)
    requires WellOrdered(chunks) && chunks != []
    ensures TotalLength(chunks) == chunks[0].end - chunks[0].start + TotalLength(chunks[1..])
    decreases |chunks|
  {
    var n := |chunks| - 1;
    if n > 0 {
      TotalLengthHead(chunks[..n]);
      assert chunks[..n][1..] == chunks[1..][..n - 1];
    } else {
      assert chunks[1..] == [] && chunks[..0] == [];
    }
  }

  // The sum of the lengths, modulo 2^64.
  lemma {:induction false} CoveredWraps(chunks: seq<Chunk>)
    requires WellOrdered(chunks)
    ensures Covered(chunks) == TotalLength(chunks) % 0x1_0000_0000_0000_0000
    decreases |chunks|
  {
    if chunks != [] {
      TotalLengthHead(chunks);
      CoveredWraps(chunks[1..]);
      WrapTwice(chunks[0].end - chunks[0].start, TotalLength(chunks[1..]));
    }
  }

  lemma {:induction false} WrapTwice(a: nat, b: nat)
    ensures (a + b % U64_LIMIT) % U64_LIMIT == (a + b) % U64_LIMIT
  {
  }

  // Bytes `[start..end)` of a file through positional reads: an empty range is never read.
  function ReadRange(file: Bytes, start: nat, len: nat): Option<Bytes> {
    if len == 0 then Some([])
    else if start + len <= |file| then Some(file[start..start + len])
    else None
  }

  predicate MatchesOnDisk(hash: ChunkHash, c: Chunk, file: Bytes)
    requires c.start <= c.end
  {
    var read := ReadRange(file, c.start, c.end - c.start);
    Decode(c.hash).Some? && read.Some? && hash(read.value) == Decode(c.hash).value
  }

  predicate MatchesInMemory(hash: ChunkHash, c: Chunk, bytes: Bytes)
    requires c.start <= c.end
  {
    && Decode(c.hash).Some? && c.end <= |bytes|
    && hash(bytes[c.start..c.end]) == Decode(c.hash).value
  }

  ghost predicate AcceptsInMemory(hash: ChunkHash, cached: seq<Chunk>, bytes: Bytes)
    requires WellOrdered(cached)
  {
    && cached != [] && Covered(cached) == |bytes|
    && forall i :: 0 <= i < |cached| ==> MatchesInMemory(hash, cached[i], bytes)
  }

  ghost predicate AcceptsOnDisk(hash: ChunkHash, cached: seq<Chunk>, file: Bytes, size: nat)
    requires WellOrdered(cached)
  {
    && cached != [] && Covered(cached) == size
    && forall i :: 0 <= i < |cached| ==> MatchesOnDisk(hash, cached[i], file)
  }

  // An empty chunk that starts behind the end of the file: the in-memory check refuses its
  // `end`, the parallel one never reads it.
  predicate EmptyPastEnd(cached: seq<Chunk>, size: nat) {
    exists i :: 0 <= i < |cached| && cached[i].start == cached[i].end > size
  }

  // The two verifiers agree on every index without such a chunk. On one that has it the
  // in-memory verifier always refuses, whatever the parallel one says.
  lemma {:induction false} VerifiersAgree(hash: ChunkHash, cached: seq<Chunk>, bytes: Bytes)
    requires WellOrdered(cached)
    ensures AcceptsInMemory(hash, cached, bytes) <==>
            AcceptsOnDisk(hash, cached, bytes, |bytes|) && !EmptyPastEnd(cached, |bytes|)
  {
    forall i | 0 <= i < |cached|
      ensures MatchesInMemory(hash, cached[i], bytes) <==>
              MatchesOnDisk(hash, cached[i], bytes) && !(cached[i].start == cached[i].end > |bytes|)
    {
    }
    if AcceptsInMemory(hash, cached, bytes) {
      forall i | 0 <= i < |cached|
        ensures MatchesOnDisk(hash, cached[i], bytes) && !(cached[i].start == cached[i].end > |bytes|)
      {
        assert MatchesInMemory(hash, cached[i], bytes);
      }
    }
    if AcceptsOnDisk(hash, cached, bytes, |bytes|) && !EmptyPastEnd(cached, |bytes|) {
      forall i | 0 <= i < |cached| ensures MatchesInMemory(hash, cached[i], bytes) {
        assert MatchesOnDisk(hash, cached[i], bytes);
      }
    }
  }

  // They do disagree: with an index that has one extra empty chunk behind the end.
  lemma {:induction false} VerifiersCanDisagree(hash: ChunkHash)
    ensures var cached, bytes := [Chunk(0, 1, HashHex(hash, [7])), Chunk(5, 5, HashHex(hash, []))], [7];
            && WellOrdered(cached)
            && AcceptsOnDisk(hash, cached, bytes, |bytes|) && !AcceptsInMemory(hash, cached, bytes)
  {
    var cached, bytes: Bytes := [Chunk(0, 1, HashHex(hash, [7])), Chunk(5, 5, HashHex(hash, []))], [7];
    DecodeRoundTrip(hash, [7]);
    DecodeRoundTrip(hash, []);
    assert bytes[0..1] == [7];
    assert Covered(cached[1..]) == 0;
    assert !MatchesInMemory(hash, cached[1], bytes);
  }

  // ---- What an index built from one payload says of another ----

  predicate WindowAgrees(hash: ChunkHash, a: Bytes, b: Bytes, pos: nat)
    requires pos < |a| == |b|
  {
    var end := WindowEnd(|a|, pos);
    hash(a[pos..end]) == hash(b[pos..end])
  }

  // The 1 MiB windows from `pos` on hash alike.
  ghost predicate WindowsAgree(hash: ChunkHash, a: Bytes, b: Bytes, pos: nat)
    requires |a| == |b|
  {
    forall p :: pos <= p < |a| && p % CHUNK_SIZE == 0 ==> WindowAgrees(hash, a, b, p)
  }

  lemma {:induction false} FirstWindowAgrees(hash: ChunkHash, a: Bytes, b: Bytes, pos: nat)
    requires pos < |a| == |b| && pos % CHUNK_SIZE == 0
    ensures WindowEnd(|a|, pos) % CHUNK_SIZE == 0 || WindowEnd(|a|, pos) == |a|
    ensures WindowsAgree(hash, a, b, pos) <==>
            WindowAgrees(hash, a, b, pos) && WindowsAgree(hash, a, b, WindowEnd(|a|, pos))
  {
    var end := WindowEnd(|a|, pos);
    forall p | pos < p < |a| && p % CHUNK_SIZE == 0 ensures end <= p {
    }
  }

  lemma {:induction false} IndexCovers(hash: ChunkHash, a: Bytes, pos: nat)
    requires pos <= |a| < U64_LIMIT
    ensures WellOrdered(ChunksFrom(hash, a, |a|, pos)) && Covered(ChunksFrom(hash, a, |a|, pos)) == |a| - pos
    decreases |a| - pos
  {
    if pos < |a| {
      var end := WindowEnd(|a|, pos);
      IndexCovers(hash, a, end);
      assert ChunksFrom(hash, a, |a|, pos)[1..] == ChunksFrom(hash, a, |a|, end);
    }
  }

  lemma {:induction false} IndexInBounds(hash: ChunkHash, a: Bytes, pos: nat)
    requires pos <= |a| < U64_LIMIT
    ensures !EmptyPastEnd(ChunksFrom(hash, a, |a|, pos), |a|)
    decreases |a| - pos
  {
    if pos < |a| {
      var chunks, end := ChunksFrom(hash, a, |a|, pos), WindowEnd(|a|, pos);
      IndexInBounds(hash, a, end);
      forall i | 0 <= i < |chunks| ensures !(chunks[i].start == chunks[i].end > |a|) {
        assert i > 0 ==> chunks[i] == ChunksFrom(hash, a, |a|, end)[i - 1];
      }
    }
  }

  ghost predicate AllMatch(hash: ChunkHash, cached: seq<Chunk>, file: Bytes)
    requires WellOrdered(cached)
  {
    forall i :: 0 <= i < |cached| ==> MatchesOnDisk(hash, cached[i], file)
  }

  lemma {:induction false} FirstMatches(hash: ChunkHash, cached: seq<Chunk>, file: Bytes)
    requires WellOrdered(cached) && cached != []
    ensures WellOrdered(cached[1..])
    ensures AllMatch(hash, cached, file) <==> MatchesOnDisk(hash, cached[0], file) && AllMatch(hash, cached[1..], file)
  {
    if MatchesOnDisk(hash, cached[0], file) && AllMatch(hash, cached[1..], file) {
      forall i | 0 < i < |cached| ensures MatchesOnDisk(hash, cached[i], file) {
        assert cached[i] == cached[1..][i - 1];
      }
    }
    if AllMatch(hash, cached, file) {
      forall i | 0 <= i < |cached| - 1 ensures MatchesOnDisk(hash, cached[1..][i], file) {
        assert cached[1..][i] == cached[i + 1];
      }
    }
  }

  lemma {:induction false} ChunkIsWindow(hash: ChunkHash, a: Bytes, b: Bytes, pos: nat)
    requires pos < |a| == |b| < U64_LIMIT
    ensures var end := WindowEnd(|a|, pos);
            MatchesOnDisk(hash, Chunk(pos, end, HashHex(hash, a[pos..end])), b) <==> WindowAgrees(hash, a, b, pos)
  {
    DecodeRoundTrip(hash, a[pos..WindowEnd(|a|, pos)]);
  }

  lemma {:induction false} IndexMatches(hash: ChunkHash, a: Bytes, b: Bytes, pos: nat)
    requires pos <= |a| == |b| < U64_LIMIT && (pos % CHUNK_SIZE == 0 || pos == |a|)
    requires WellOrdered(ChunksFrom(hash, a, |a|, pos))
    ensures AllMatch(hash, ChunksFrom(hash, a, |a|, pos), b) <==> WindowsAgree(hash, a, b, pos)
    decreases |a| - pos
  {
    if pos < |a| {
      var chunks, end := ChunksFrom(hash, a, |a|, pos), WindowEnd(|a|, pos);
      FirstWindowAgrees(hash, a, b, pos);
      IndexCovers(hash, a, end);
      IndexMatches(hash, a, b, end);
      FirstMatches(hash, chunks, b);
      assert chunks[1..] == ChunksFrom(hash, a, |a|, end);
      ChunkIsWindow(hash, a, b, pos);
    }
  }

  // Checked against the index of another payload, a payload passes, with either verifier,
  // exactly if the lengths and the hashes of all windows agree.
  lemma {:induction false} IndexDecides(hash: ChunkHash, a: Bytes, b: Bytes)
    requires |a| < U64_LIMIT
    ensures WellOrdered(ChunksOf(hash, a, |a|))
    ensures AcceptsOnDisk(hash, ChunksOf(hash, a, |a|), b, |b|) <==> |a| == |b| && WindowsAgree(hash, a, b, 0)
    ensures AcceptsInMemory(hash, ChunksOf(hash, a, |a|), b) <==> |a| == |b| && WindowsAgree(hash, a, b, 0)
  {
    var chunks := ChunksOf(hash, a, |a|);
    IndexCovers(hash, a, 0);
    IndexInBounds(hash, a, 0);
    DecodeRoundTrip(hash, []);
    if a == [] {
      assert Covered(chunks[1..]) == 0;
    }
    assert |chunks| > 0 && Covered(chunks) == |a|;
    if |a| == |b| {
      if a == [] {
        assert MatchesOnDisk(hash, chunks[0], b);
      } else {
        IndexMatches(hash, a, b, 0);
      }
    }
    VerifiersAgree(hash, chunks, b);
  }

  // Windows of two payloads of one length are equal where their hashes are.
  ghost predicate NoWindowCollides(hash: ChunkHash, a: Bytes, b: Bytes)
    requires |a| == |b|
  {
    forall p :: 0 <= p < |a| && p % CHUNK_SIZE == 0 && WindowAgrees(hash, a, b, p) ==>
      a[p..WindowEnd(|a|, p)] == b[p..WindowEnd(|a|, p)]
  }

  // Hence, unless two of its windows collide with the indexed ones, only the very payload that was
  // indexed passes.
  lemma {:induction false} OnlyTheIndexedPayloadPasses(hash: ChunkHash, a: Bytes, b: Bytes)
    requires |a| < U64_LIMIT && (|a| == |b| ==> NoWindowCollides(hash, a, b))
    ensures WellOrdered(ChunksOf(hash, a, |a|))
    ensures AcceptsOnDisk(hash, ChunksOf(hash, a, |a|), b, |b|) <==> a == b
    ensures AcceptsInMemory(hash, ChunksOf(hash, a, |a|), b) <==> a == b
  {
    IndexDecides(hash, a, b);
    if |a| == |b| && WindowsAgree(hash, a, b, 0) {
      forall i | 0 <= i < |a| ensures a[i] == b[i] {
        AgreeingWindowsAreEqual(hash, a, b, i);
      }
    }
  }

  lemma {:induction false} AgreeingWindowsAreEqual(hash: ChunkHash, a: Bytes, b: Bytes, i: nat)
    requires |a| == |b| && WindowsAgree(hash, a, b, 0) && i < |a| && NoWindowCollides(hash, a, b)
    ensures a[i] == b[i]
  {
    var p := i - i % CHUNK_SIZE;
    var end := WindowEnd(|a|, p);
    assert WindowAgrees(hash, a, b, p) && a[p..end] == b[p..end];
    assert a[p..end][i - p] == a[i] && b[p..end][i - p] == b[i];
  }

  // Of more numbers than values, two have the same value.
  lemma {:induction false} Pigeonhole(f: nat -> nat, n: nat) returns (i: nat, j: nat)
    requires forall k: nat :: k <= n ==> f(k) < n
    ensures i < j <= n && f(i) == f(j)
    decreases n
  {
    assert f(0) < n;
    if k: nat :| k < n && f(k) == f(n) {
      i, j := k, n;
    } else {
      var g: nat -> nat := k => if f(k) == n - 1 then f(n) else f(k);
      forall k: nat | k <= n - 1 ensures g(k) < n - 1 {
        assert f(k) < n && f(n) < n && f(k) != f(n);
      }
      i, j := Pigeonhole(g, n - 1);
      assert f(i) != f(n) && f(j) != f(n);
    }
  }

  // The condition is needed: whatever the hash function, another payload passes for some payload.
  lemma {:induction false} SomeOtherPayloadPasses(hash: ChunkHash) returns (a: Bytes, b: Bytes)
    ensures |a| == |b| == 9 && a != b && WellOrdered(ChunksOf(hash, a, |a|))
    ensures AcceptsOnDisk(hash, ChunksOf(hash, a, |a|), b, |b|) && AcceptsInMemory(hash, ChunksOf(hash, a, |a|), b)
  {
    var f: nat -> nat := k => hash(LittleEndian(k, 9));
    forall k: nat ensures f(k) < U64_LIMIT {
      assert f(k) == hash(LittleEndian(k, 9));
    }
    var i, j := Pigeonhole(f, U64_LIMIT);
    a, b := LittleEndian(i, 9), LittleEndian(j, 9);
    Pow256Values();
    assert Pow256(9) == 256 * Pow256(8);
    OccursWhole(a);
    OccursWhole(b);
    NumberRoundTrip(a, 0, i, 9);
    NumberRoundTrip(b, 0, j, 9);
    assert a[0..9] == a && b[0..9] == b;
    assert WindowEnd(9, 0) == 9;
    IndexDecides(hash, a, b);
  }

  // ---- The verifiers ----

  method VerifyChunksInMemory(hash: ChunkHash, cached: seq<Chunk>, bytes: Bytes) returns (ok: bool)
    requires WellOrdered(cached)
    ensures ok == AcceptsInMemory(hash, cached, bytes)
    ensures ok <==>
            && cached != [] && Covered(cached) == |bytes|
            && forall i :: 0 <= i < |cached| ==>
                 && cached[i].end <= |bytes| && |cached[i].hash| == 16
                 && FromRadix16(cached[i].hash) == Some(hash(bytes[cached[i].start..cached[i].end]))
  {
    assert forall i :: 0 <= i < |cached| ==>
      (MatchesInMemory(hash, cached[i], bytes) <==>
       && cached[i].end <= |bytes| && |cached[i].hash| == 16
       && FromRadix16(cached[i].hash) == Some(hash(bytes[cached[i].start..cached[i].end])));
    if cached == [] || Covered(cached) != |bytes| {
      return false;
    }
    for i := 0 to |cached|
      invariant forall j :: 0 <= j < i ==> MatchesInMemory(hash, cached[j], bytes)
    {
      var c := cached[i];
      var expected := Decode(c.hash);
      if expected == None || c.end > |bytes| || hash(bytes[c.start..c.end]) != expected.value {
        assert !MatchesInMemory(hash, cached[i], bytes);
        return false;
      }
    }
    return true;
  }

  // Each positional read may come up short; one that returns nothing is the end of the file.
  method ReadExactAt(file: Bytes, start: nat, len: nat) returns (read: Option<Bytes>)
    ensures read == ReadRange(file, start, len)
    ensures read.Some? <==> len == 0 || start + len <= |file|
    ensures read.Some? ==> |read.value| == len && forall i :: 0 <= i < len ==> read.value[i] == file[start + i]
  {
    var buf: Bytes := [];
    while |buf| < len
      invariant |buf| <= len && (buf != [] ==> start + |buf| <= |file| && buf == file[start..start + |buf|])
      decreases len - |buf|
    {
      var offset := start + |buf|;
      if offset >= |file| {
        return None;
      }
      var n :| 0 < n <= len - |buf| && offset + n <= |file|;
      buf := buf + file[offset..offset + n];
    }
    return Some(buf);
  }

  // 0, 1, ..., n - 1.
  function Range(n: nat): seq<nat> {
    seq(n, i => i)
  }

  // Fisher-Yates with an xorshift generator, in place.
  method Shuffle(middle: array<nat>, seed: bv64)
    modifies middle
    ensures multiset(middle[..]) == multiset(old(middle[..]))
  {
    var state := if seed == 0 then 1 else seed;
    var i := middle.Length;
    while i > 1
      invariant 0 <= i <= middle.Length
      invariant multiset(middle[..]) == multiset(old(middle[..]))
    {
      i := i - 1;
      state := state ^ (state << 13);
      state := state ^ (state >> 7);
      state := state ^ (state << 17);
      var j := state as int % (i + 1);
      middle[i], middle[j] := middle[j], middle[i];
    }
  }

  // First, last, a random sample of the middle, then the rest of the middle: every index once.
  method PriorityOrder(n: nat, seed: bv64) returns (order: seq<nat>)
    ensures multiset(order) == multiset(Range(n))
    ensures n > 0 ==> order[0] == 0
    ensures n > 1 ==> order[1] == n - 1
  {
    if n <= 2 {
      order := Range(n);
      return;
    }
    var middle := new nat[n - 2](i requires 0 <= i => i + 1);
    ghost var sorted := middle[..];
    Shuffle(middle, seed);
    var take := if middle.Length < MIDDLE_SAMPLES then middle.Length else MIDDLE_SAMPLES;
    order := [0, n - 1] + middle[..take];
    order := order + middle[take..];
    PermutedOrder(n, sorted, middle[..], take);
  }

  lemma {:induction false} PermutedOrder(n: nat, sorted: seq<nat>, shuffled: seq<nat>, take: nat)
    requires n > 2 && sorted == seq(n - 2, i requires 0 <= i => i + 1)
    requires multiset(shuffled) == multiset(sorted) && take <= |shuffled|
    ensures multiset([0, n - 1] + shuffled[..take] + shuffled[take..]) == multiset(Range(n))
  {
    assert shuffled[..take] + shuffled[take..] == shuffled;
    assert [0, n - 1] + shuffled[..take] + shuffled[take..] == [0, n - 1] + shuffled;
    assert Range(n) == [0] + sorted + [n - 1];
    assert multiset([0, n - 1]) == multiset([0]) + multiset([n - 1]);
  }

  // `order.chunks(size)`: consecutive pieces, the last possibly shorter.
  function Stripes(order: seq<nat>, size: nat): seq<seq<nat>>
    requires size > 0
    decreases |order|
  {
    if order == [] then []
    else if |order| <= size then [order]
    else [order[..size]] + Stripes(order[size..], size)
  }

  ghost predicate InSome(stripes: seq<seq<nat>>, idx: nat) {
    exists k :: 0 <= k < |stripes| && idx in stripes[k]
  }

  lemma {:induction false} InSomeOfMore(first: seq<nat>, rest: seq<seq<nat>>, idx: nat)
    ensures InSome([first] + rest, idx) <==> idx in first || InSome(rest, idx)
  {
    var all := [first] + rest;
    if idx in first {
      assert idx in all[0];
    }
    if k :| 0 <= k < |rest| && idx in rest[k] {
      assert idx in all[k + 1];
    }
  }

  lemma {:induction false} StripesPartition(order: seq<nat>, size: nat, idx: nat)
    requires size > 0
    ensures idx in order <==> InSome(Stripes(order, size), idx)
    decreases |order|
  {
    if |order| > size {
      assert order == order[..size] + order[size..];
      StripesPartition(order[size..], size, idx);
      InSomeOfMore(order[..size], Stripes(order[size..], size), idx);
    } else if order != [] {
      InSomeOfMore(order, [], idx);
      assert [order] + [] == [order];
    }
  }

  datatype Phase = Looking | Checking | Finished

  // A worker has found everything before `at` in its stripe to match.
  datatype Worker = Worker(stripe: seq<nat>, at: nat, phase: Phase)

  predicate WorkerValid(w: Worker, n: nat) {
    && w.at <= |w.stripe| && (w.phase == Checking ==> w.at < |w.stripe|)
    && forall k :: 0 <= k < |w.stripe| ==> w.stripe[k] < n
  }

  function WorkLeft(w: Worker): nat
    requires w.at <= |w.stripe|
  {
    3 * (|w.stripe| - w.at) + if w.phase == Finished then 0 else if w.phase == Checking then 1 else 2
  }

  function AllWorkLeft(workers: seq<Worker>): nat
    requires forall w :: w in workers ==> w.at <= |w.stripe|
  {
    if workers == [] then 0 else WorkLeft(workers[0]) + AllWorkLeft(workers[1..])
  }

  lemma {:induction false} WorkShrinks(workers: seq<Worker>, w: nat, step: Worker)
    requires w < |workers| && step.at <= |step.stripe| && forall v :: v in workers ==> v.at <= |v.stripe|
    requires WorkLeft(step) < WorkLeft(workers[w])
    ensures AllWorkLeft(workers[w := step]) < AllWorkLeft(workers)
    decreases w
  {
    if w > 0 {
      assert workers[w := step][1..] == workers[1..][w - 1 := step];
      WorkShrinks(workers[1..], w - 1, step);
    } else {
      assert workers[w := step][1..] == workers[1..];
    }
  }

  // The workers share a flag and stop at the first mismatch. The loop picks any unfinished worker
  // for its next step, and a look at the flag may miss a mismatch already found (the loads are
  // relaxed). Whatever the shuffle, the split and the schedule: the answer is the same.
  method VerifyChunks(hash: ChunkHash, cached: seq<Chunk>, file: Bytes, size: nat, seed: bv64) returns (ok: bool)
    requires WellOrdered(cached)
    ensures ok == AcceptsOnDisk(hash, cached, file, size)
    ensures ok <==>
            && cached != [] && Covered(cached) == size
            && forall i :: 0 <= i < |cached| ==>
                 && |cached[i].hash| == 16
                 && if cached[i].start == cached[i].end then FromRadix16(cached[i].hash) == Some(hash([]))
                    else cached[i].end <= |file| &&
                         FromRadix16(cached[i].hash) == Some(hash(file[cached[i].start..cached[i].end]))
  {
    AcceptsOnDiskIs(hash, cached, file, size);
    if cached == [] || Covered(cached) != size {
      return false;
    }
    var decoded: seq<nat> := [];
    for i := 0 to |cached|
      invariant |decoded| == i && forall j :: 0 <= j < i ==> Decode(cached[j].hash) == Some(decoded[j])
    {
      var d := Decode(cached[i].hash);
      if d == None {
        assert !MatchesOnDisk(hash, cached[i], file);
        return false;
      }
      decoded := decoded + [d.value];
    }
    var order := PriorityOrder(|cached|, seed);
    var stripeSize := (|order| + VERIFY_PARALLELISM - 1) / VERIFY_PARALLELISM;
    if stripeSize < 1 {
      stripeSize := 1;
    }
    var stripes := Stripes(order, stripeSize);
    StripesCover(order, stripeSize, |cached|);
    ok := RunWorkers(hash, cached, decoded, file, stripes);
  }

  lemma {:induction false} AcceptsOnDiskIs(hash: ChunkHash, cached: seq<Chunk>, file: Bytes, size: nat)
    requires WellOrdered(cached)
    ensures AcceptsOnDisk(hash, cached, file, size) <==>
            && cached != [] && Covered(cached) == size
            && forall i :: 0 <= i < |cached| ==>
                 && |cached[i].hash| == 16
                 && if cached[i].start == cached[i].end then FromRadix16(cached[i].hash) == Some(hash([]))
                    else cached[i].end <= |file| &&
                         FromRadix16(cached[i].hash) == Some(hash(file[cached[i].start..cached[i].end]))
  {
    forall i | 0 <= i < |cached|
      ensures MatchesOnDisk(hash, cached[i], file) <==>
              |cached[i].hash| == 16 &&
              if cached[i].start == cached[i].end then FromRadix16(cached[i].hash) == Some(hash([]))
              else cached[i].end <= |file| &&
                   FromRadix16(cached[i].hash) == Some(hash(file[cached[i].start..cached[i].end]))
    {
    }
  }

  lemma {:induction false} StripesCover(order: seq<nat>, size: nat, n: nat)
    requires size > 0 && multiset(order) == multiset(Range(n))
    ensures forall idx: nat :: idx < n <==> InSome(Stripes(order, size), idx)
  {
    forall idx: nat ensures idx < n <==> InSome(Stripes(order, size), idx) {
      assert idx in Range(n) <==> idx in multiset(Range(n));
      assert idx < n ==> Range(n)[idx] == idx;
      assert idx in order <==> idx in multiset(order);
      StripesPartition(order, size, idx);
    }
  }

  ghost predicate Progress(hash: ChunkHash, cached: seq<Chunk>, file: Bytes, stripes: seq<seq<nat>>, w: nat,
          worker: Worker, mismatch: bool)
    requires WellOrdered(cached) && w < |stripes|
  {
    && WorkerValid(worker, |cached|) && worker.stripe == stripes[w]
    && (forall k :: 0 <= k < worker.at ==> MatchesOnDisk(hash, cached[worker.stripe[k]], file))
    && (worker.phase == Finished && !mismatch ==> worker.at == |worker.stripe|)
  }

  // The state of the workers between two steps.
  ghost predicate Working(hash: ChunkHash, cached: seq<Chunk>, file: Bytes, stripes: seq<seq<nat>>,
          workers: seq<Worker>, mismatch: bool)
    requires WellOrdered(cached)
  {
    && |workers| == |stripes|
    && (forall w :: 0 <= w < |stripes| ==> Progress(hash, cached, file, stripes, w, workers[w], mismatch))
    && (mismatch ==> !AllMatch(hash, cached, file))
  }

  lemma {:induction false} StartWorking(hash: ChunkHash, cached: seq<Chunk>, file: Bytes, stripes: seq<seq<nat>>,
          workers: seq<Worker>)
    requires WellOrdered(cached) && |workers| == |stripes|
    requires forall w :: 0 <= w < |workers| ==> workers[w] == Worker(stripes[w], 0, Looking)
    requires forall idx: nat :: idx < |cached| <==> InSome(stripes, idx)
    ensures Working(hash, cached, file, stripes, workers, false)
  {
    forall w | 0 <= w < |stripes| ensures WorkerValid(workers[w], |cached|) {
      forall k | 0 <= k < |stripes[w]| ensures stripes[w][k] < |cached| {
        assert InSome(stripes, stripes[w][k]);
      }
    }
  }

  // What worker `w` may have done in one step, with `found` for a mismatch.
  ghost predicate Stepped(hash: ChunkHash, cached: seq<Chunk>, file: Bytes, w: Worker, step: Worker, flag: bool,
          found: bool)
    requires WellOrdered(cached) && WorkerValid(w, |cached|) && w.phase != Finished
  {
    && WorkerValid(step, |cached|) && step.stripe == w.stripe && WorkLeft(step) < WorkLeft(w)
    && (step.at == w.at || (step.at == w.at + 1 <= |w.stripe| && MatchesOnDisk(hash, cached[w.stripe[w.at]], file)))
    && (found ==> w.at < |w.stripe| && !MatchesOnDisk(hash, cached[w.stripe[w.at]], file))
    && (step.phase == Finished ==> found || flag || step.at == |w.stripe|)
  }

  lemma {:induction false} KeepWorking(hash: ChunkHash, cached: seq<Chunk>, file: Bytes, stripes: seq<seq<nat>>,
          workers: seq<Worker>, mismatch: bool, w: nat, step: Worker, flag: bool, found: bool)
    requires WellOrdered(cached) && Working(hash, cached, file, stripes, workers, mismatch)
    requires w < |workers| && WorkerValid(workers[w], |cached|) && workers[w].phase != Finished && (flag ==> mismatch)
    requires Stepped(hash, cached, file, workers[w], step, flag, found)
    ensures Working(hash, cached, file, stripes, workers[w := step], mismatch || found)
  {
    assert Progress(hash, cached, file, stripes, w, workers[w], mismatch);
  }

  lemma {:induction false} AllPassed(hash: ChunkHash, cached: seq<Chunk>, file: Bytes, stripes: seq<seq<nat>>,
          workers: seq<Worker>)
    requires WellOrdered(cached) && Working(hash, cached, file, stripes, workers, false)
    requires forall w :: 0 <= w < |workers| ==> workers[w].phase == Finished
    requires forall idx: nat :: idx < |cached| <==> InSome(stripes, idx)
    ensures AllMatch(hash, cached, file)
  {
    forall i | 0 <= i < |cached| ensures MatchesOnDisk(hash, cached[i], file) {
      assert InSome(stripes, i);
      var k :| 0 <= k < |stripes| && i in stripes[k];
      assert Progress(hash, cached, file, stripes, k, workers[k], false);
    }
  }

  method RunWorkers(hash: ChunkHash, cached: seq<Chunk>, decoded: seq<nat>, file: Bytes, stripes: seq<seq<nat>>)
    returns (ok: bool)
    requires WellOrdered(cached) && |decoded| == |cached|
    requires forall i :: 0 <= i < |cached| ==> Decode(cached[i].hash) == Some(decoded[i])
    requires forall idx: nat :: idx < |cached| <==> InSome(stripes, idx)
    ensures ok == AllMatch(hash, cached, file)
  {
    var mismatch := false;
    var workers := seq(|stripes|, w requires 0 <= w < |stripes| => Worker(stripes[w], 0, Looking));
    StartWorking(hash, cached, file, stripes, workers);
    var running: set<nat> := set w: nat {:trigger stripes[w]} | w < |stripes|;
    while running != {}
      invariant Working(hash, cached, file, stripes, workers, mismatch)
      invariant forall w :: w in running <==> 0 <= w < |stripes| && workers[w].phase != Finished
      decreases AllWorkLeft(workers)
    {
      var w :| w in running;
      var flagSeen: bool := *;
      var step, found := StepWorker(hash, cached, decoded, file, workers[w], mismatch && flagSeen);
      KeepWorking(hash, cached, file, stripes, workers, mismatch, w, step, mismatch && flagSeen, found);
      WorkShrinks(workers, w, step);
      workers := workers[w := step];
      mismatch := mismatch || found;
      if step.phase == Finished {
        running := running - {w};
      }
    }
    if !mismatch {
      AllPassed(hash, cached, file, stripes, workers);
    }
    return !mismatch;
  }

  // One step of one worker: look at the flag, or read and hash the next chunk.
  method StepWorker(hash: ChunkHash, cached: seq<Chunk>, decoded: seq<nat>, file: Bytes, w: Worker, flag: bool)
    returns (step: Worker, found: bool)
    requires WellOrdered(cached) && |decoded| == |cached| && WorkerValid(w, |cached|) && w.phase != Finished
    requires forall i :: 0 <= i < |cached| ==> Decode(cached[i].hash) == Some(decoded[i])
    ensures Stepped(hash, cached, file, w, step, flag, found)
  {
    found := false;
    match w.phase
    case Looking =>
      step := w.(phase := if w.at == |w.stripe| || flag then Finished else Checking);
    case Checking =>
      var idx := w.stripe[w.at];
      var read := ReadExactAt(file, cached[idx].start, cached[idx].end - cached[idx].start);
      if read.Some? && hash(read.value) == decoded[idx] {
        step := w.(at := w.at + 1, phase := Looking);
      } else {
        found := true;
        step := w.(phase := Finished);
      }
  }
}
