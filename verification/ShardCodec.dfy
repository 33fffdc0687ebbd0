// The shard parser, a cursor moving over the input, and the serializer.
module ShardCodec {
  import opened Wrappers
  import opened Bytes
  import opened ShardFormat

  type Read<+T> = Result<T, ShardError>

  lemma {:induction false} ReadLEStep(s: Bytes, pos: nat, n: nat)
    requires n > 0 && pos + n <= |s|
    ensures ReadLE(s, pos, n) == s[pos] as nat + 256 * ReadLE(s, pos + 1, n - 1)
  {
  }

  lemma {:induction false} FourBytes(s: Bytes, pos: nat)
    requires pos + 4 <= |s|
    ensures U32At(s, pos) ==
            s[pos] as nat + 0x100 * s[pos + 1] as nat + 0x1_0000 * s[pos + 2] as nat + 0x100_0000 * s[pos + 3] as nat
  {
    ReadLEStep(s, pos, 4);
    ReadLEStep(s, pos + 1, 3);
    ReadLEStep(s, pos + 2, 2);
    ReadLEStep(s, pos + 3, 1);
  }

  lemma {:induction false} TwoWords(s: Bytes, pos: nat)
    requires pos + 8 <= |s|
    ensures U64At(s, pos) == U32At(s, pos) + U32_LIMIT * U32At(s, pos + 4)
  {
    ReadLEStep(s, pos, 8);
    ReadLEStep(s, pos + 1, 7);
    ReadLEStep(s, pos + 2, 6);
    ReadLEStep(s, pos + 3, 5);
    FourBytes(s, pos);
  }

  class Cursor {
    const buf: Bytes
    var pos: nat

    constructor (buf: Bytes)
      ensures this.buf == buf && pos == 0
    {
      this.buf := buf;
      pos := 0;
    }

    predicate Valid()
      reads this
    {
      pos <= |buf|
    }

    function Remaining(): nat
      requires Valid()
      reads this
    {
      |buf| - pos
    }

    // Takes `n` bytes, or reports how many are missing and stays where it is.
    method Take(n: nat) returns (r: Read<Bytes>)
      requires Valid()
      modifies this
      ensures Valid()
      ensures old(pos) + n <= |buf| ==> r == Ok(buf[old(pos)..old(pos) + n]) && pos == old(pos) + n
      ensures old(pos) + n > |buf| ==> r == Err(Short(buf, old(pos), n)) && pos == old(pos)
    {
      if |buf| - pos < n {
        return Err(ShardTruncated(pos, n - (|buf| - pos)));
      }
      r := Ok(buf[pos..pos + n]);
      pos := pos + n;
    }

    method U32() returns (r: Read<u32>)
      requires Valid()
      modifies this
      ensures Valid()
      ensures old(pos) + 4 <= |buf| ==> r == Ok(U32At(buf, old(pos))) && pos == old(pos) + 4
      ensures old(pos) + 4 > |buf| ==> r == Err(Short(buf, old(pos), 4)) && pos == old(pos)
    {
      var s :- Take(4);
      FourBytes(buf, old(pos));
      r := Ok(s[0] as nat + 0x100 * s[1] as nat + 0x1_0000 * s[2] as nat + 0x100_0000 * s[3] as nat);
    }

    method U64() returns (r: Read<u64>)
      requires Valid()
      modifies this
      ensures Valid()
      ensures old(pos) + 8 <= |buf| ==> r == Ok(U64At(buf, old(pos))) && pos == old(pos) + 8
      ensures old(pos) + 8 > |buf| ==> r == Err(Short(buf, old(pos), 8)) && pos == old(pos)
    {
      var s :- Take(8);
      TwoWords(buf, old(pos));
      FourBytes(buf, old(pos));
      FourBytes(buf, old(pos) + 4);
      var low := s[0] as nat + 0x100 * s[1] as nat + 0x1_0000 * s[2] as nat + 0x100_0000 * s[3] as nat;
      var high := s[4] as nat + 0x100 * s[5] as nat + 0x1_0000 * s[6] as nat + 0x100_0000 * s[7] as nat;
      r := Ok(low + U32_LIMIT * high);
    }

    method Hash() returns (r: Read<Hash32>)
      requires Valid()
      modifies this
      ensures Valid()
      ensures old(pos) + HASH_LEN <= |buf| ==> r == Ok(HashAt(buf, old(pos))) && pos == old(pos) + HASH_LEN
      ensures old(pos) + HASH_LEN > |buf| ==> r == Err(Short(buf, old(pos), HASH_LEN)) && pos == old(pos)
    {
      var s :- Take(HASH_LEN);
      assert s == HashAt(buf, old(pos));
      r := Ok(s);
    }

    method Skip(n: nat) returns (r: Read<()>)
      requires Valid()
      modifies this
      ensures Valid()
      ensures old(pos) + n <= |buf| ==> r == Ok(()) && pos == old(pos) + n
      ensures old(pos) + n > |buf| ==> r == Err(Short(buf, old(pos), n)) && pos == old(pos)
    {
      var _ :- Take(n);
      r := Ok(());
    }
  }

  // The two nested loops that reverse each 8-byte group.
  method SwapU64Groups(input: Hash32) returns (out: Hash32)
    ensures out == Swapped(input)
    ensures forall k, l :: 0 <= k < 32 && 0 <= l < 32 && k / 8 == l / 8 && k % 8 + l % 8 == 7 ==> out[k] == input[l]
  {
    var bytes := new byte[HASH_LEN](_ => 0);
    for group := 0 to 4
      invariant forall k :: 0 <= k < 8 * group ==> bytes[k] == input[k / 8 * 8 + (7 - k % 8)]
    {
      for i := 0 to 8
        invariant forall k :: 0 <= k < 8 * group + i ==> bytes[k] == input[k / 8 * 8 + (7 - k % 8)]
      {
        assert (8 * group + i) / 8 == group && (8 * group + i) % 8 == i;
        bytes[group * 8 + i] := input[group * 8 + (7 - i)];
      }
    }
    out := bytes[..];
  }

  // ---- Parsing ----

  // The callers of the next three have made sure that the input holds all entries, so none of
  // these reads fails.

  method ParseTerms(c: Cursor, n: nat) returns (entries: seq<Term>)
    requires c.Valid() && c.pos + ENTRY_SIZE * n <= |c.buf|
    modifies c
    ensures c.Valid() && c.pos == old(c.pos) + ENTRY_SIZE * n
    ensures entries == TermsAt(c.buf, old(c.pos), n)
  {
    entries := [];
    for i := 0 to n
      invariant c.pos == old(c.pos) + ENTRY_SIZE * i
      invariant entries == TermsAt(c.buf, old(c.pos), i)
    {
      var xorb := c.Hash();
      var casFlags := c.U32();
      var unpackedBytes := c.U32();
      var chunkStart := c.U32();
      var chunkEnd := c.U32();
      entries := entries + [Term(xorb.value, casFlags.value, unpackedBytes.value, chunkStart.value, chunkEnd.value)];
    }
  }

  method ParseVerifications(c: Cursor, n: nat) returns (hashes: seq<Hash32>)
    requires c.Valid() && c.pos + ENTRY_SIZE * n <= |c.buf|
    modifies c
    ensures c.Valid() && c.pos == old(c.pos) + ENTRY_SIZE * n
    ensures hashes == HashesAt(c.buf, old(c.pos), n)
  {
    hashes := [];
    for i := 0 to n
      invariant c.pos == old(c.pos) + ENTRY_SIZE * i
      invariant hashes == HashesAt(c.buf, old(c.pos), i)
    {
      var rangeHash := c.Hash();
      var _ := c.Skip(16);
      hashes := hashes + [rangeHash.value];
    }
  }

  method ParseChunks(c: Cursor, n: nat) returns (chunks: seq<ChunkEntry>)
    requires c.Valid() && c.pos + ENTRY_SIZE * n <= |c.buf|
    modifies c
    ensures c.Valid() && c.pos == old(c.pos) + ENTRY_SIZE * n
    ensures chunks == ChunksAt(c.buf, old(c.pos), n)
  {
    chunks := [];
    for i := 0 to n
      invariant c.pos == old(c.pos) + ENTRY_SIZE * i
      invariant chunks == ChunksAt(c.buf, old(c.pos), i)
    {
      var hash := c.Hash();
      var byteStart := c.U32();
      var unpackedBytes := c.U32();
      var _ := c.Skip(8);
      chunks := chunks + [ChunkEntry(hash.value, byteStart.value, unpackedBytes.value)];
    }
  }

  method ParseMetadata(c: Cursor, f: ParsedFile) returns (r: Read<ParsedFile>)
    requires c.Valid()
    modifies c
    ensures c.Valid()
    ensures match FileTailAt(c.buf, old(c.pos), f) {
              case AFile(file, next) => r == Ok(file) && c.pos == next
              case BadFile(e) => r == Err(e)
            }
  {
    if !HasMetadataExt(f.flags) {
      return Ok(f);
    }
    var h :- c.Hash();
    var _ :- c.Skip(16);
    var swapped := SwapU64Groups(h);
    return Ok(f.(sha256 := Some(swapped)));
  }

  method ParseFileBody(c: Cursor, hash: Hash32, flags: u32, n: u32) returns (r: Read<ParsedFile>)
    requires c.Valid()
    modifies c
    ensures c.Valid()
    ensures match FileBodyAt(c.buf, old(c.pos), hash, flags, n) {
              case AFile(file, next) => r == Ok(file) && c.pos == next
              case BadFile(e) => r == Err(e)
            }
  {
    if n > c.Remaining() / ENTRY_SIZE {
      return Err(ShardTruncated(c.pos, n * ENTRY_SIZE - c.Remaining()));
    }
    var entries := ParseTerms(c, n);
    var verifications: seq<Hash32> := [];
    if HasVerification(flags) {
      if n > c.Remaining() / ENTRY_SIZE {
        return Err(ShardTruncated(c.pos, n * ENTRY_SIZE - c.Remaining()));
      }
      verifications := ParseVerifications(c, n);
    }
    r := ParseMetadata(c, ParsedFile(hash, flags, entries, verifications, None));
  }

  // The next file, or None at the bookend.
  method ParseFile(c: Cursor) returns (r: Read<Option<ParsedFile>>)
    requires c.Valid()
    modifies c
    ensures c.Valid()
    ensures match FileAt(c.buf, old(c.pos)) {
              case AFile(file, next) => r == Ok(Some(file)) && c.pos == next
              case NoMoreFiles(next) => r == Ok(None) && c.pos == next
              case BadFile(e) => r == Err(e)
            }
  {
    var hash :- c.Hash();
    var flags :- c.U32();
    var n :- c.U32();
    var _ :- c.Skip(8);
    if IsBookend(hash) {
      return Ok(None);
    }
    var file :- ParseFileBody(c, hash, flags, n);
    return Ok(Some(file));
  }

  method ParseFiles(c: Cursor) returns (r: Read<seq<ParsedFile>>)
    requires c.Valid()
    modifies c
    ensures c.Valid()
    ensures match FilesAt(c.buf, old(c.pos), []) {
              case Files(files, next) => r == Ok(files) && c.pos == next
              case BadFiles(e) => r == Err(e)
            }
  {
    var files: seq<ParsedFile> := [];
    while true
      invariant c.Valid() && FilesAt(c.buf, c.pos, files) == FilesAt(c.buf, old(c.pos), [])
      decreases |c.buf| - c.pos
    {
      var file :- ParseFile(c);
      if file == None {
        break;
      }
      files := files + [file.value];
    }
    return Ok(files);
  }

  method ParseBlock(c: Cursor) returns (r: Read<Option<CasBlock>>)
    requires c.Valid()
    modifies c
    ensures c.Valid()
    ensures match BlockAt(c.buf, old(c.pos)) {
              case ABlock(block, next) => r == Ok(Some(block)) && c.pos == next
              case NoMoreBlocks(next) => r == Ok(None) && c.pos == next
              case BadBlock(e) => r == Err(e)
            }
  {
    var xorb :- c.Hash();
    var casFlags :- c.U32();
    var n :- c.U32();
    var bytesInCas :- c.U32();
    var bytesOnDisk :- c.U32();
    if IsBookend(xorb) {
      return Ok(None);
    }
    if n > c.Remaining() / ENTRY_SIZE {
      return Err(ShardTruncated(c.pos, n * ENTRY_SIZE - c.Remaining()));
    }
    var chunks := ParseChunks(c, n);
    return Ok(Some(CasBlock(xorb, casFlags, bytesInCas, bytesOnDisk, chunks)));
  }

  method ParseBlocks(c: Cursor) returns (r: Read<seq<CasBlock>>)
    requires c.Valid()
    modifies c
    ensures c.Valid()
    ensures match BlocksAt(c.buf, old(c.pos), []) {
              case Blocks(blocks, next) => r == Ok(blocks) && c.pos == next
              case BadBlocks(e) => r == Err(e)
            }
  {
    var blocks: seq<CasBlock> := [];
    while true
      invariant c.Valid() && BlocksAt(c.buf, c.pos, blocks) == BlocksAt(c.buf, old(c.pos), [])
      decreases |c.buf| - c.pos
    {
      var block :- ParseBlock(c);
      if block == None {
        break;
      }
      blocks := blocks + [block.value];
    }
    return Ok(blocks);
  }

  method ParseFooter(c: Cursor) returns (r: Read<Footer>)
    requires c.Valid()
    modifies c
    ensures c.Valid()
    ensures match FooterAt(c.buf, old(c.pos)) {
              case AFooter(footer, next) => r == Ok(footer) && c.pos == next
              case BadFooter(e) => r == Err(e)
            }
  {
    var version :- c.U64();
    if version != FOOTER_VERSION {
      return Err(BadFooterVersion(version));
    }
    var fileInfoOffset :- c.U64();
    var casInfoOffset :- c.U64();
    var _ :- c.Skip(48);
    var hmacKey :- c.Hash();
    var created :- c.U64();
    var keyExpiry :- c.U64();
    var _ :- c.Skip(72);
    var footerOffset :- c.U64();
    if footerOffset > |c.buf| {
      return Err(BadFooterOffset(footerOffset, |c.buf|));
    }
    return Ok(Footer(version, fileInfoOffset, casInfoOffset, hmacKey, created, keyExpiry, footerOffset));
  }

  // `consumed` is where the cursor stops.
  method Parse(bytes: Bytes) returns (r: Read<Shard>, consumed: nat)
    ensures match ParsedShard(bytes) {
              case AShard(shard, end) => r == Ok(shard) && consumed == end
              case BadShard(e) => r == Err(e)
            }
  {
    consumed := 0;
    if |bytes| > MAX_SHARD_BYTES {
      return Err(ShardTooLarge(|bytes|)), 0;
    }
    var c := new Cursor(bytes);
    var tag :- c.Hash();
    var version :- c.U64();
    if version != HEADER_VERSION {
      return Err(BadHeaderVersion(version)), 0;
    }
    var footerSize :- c.U64();
    var header := Header(tag, version, footerSize);
    var files :- ParseFiles(c);
    var blocks :- ParseBlocks(c);
    var footer: Option<Footer> := None;
    if footerSize == FOOTER_SIZE {
      var f :- ParseFooter(c);
      footer := Some(f);
    }
    return Ok(Shard(header, files, blocks, footer)), c.pos;
  }

  // ---- Serializing ----

  // Writes the fields of an entry. Unused trailing bytes are written as zeros, which is what two
  // zero numbers are.
  method PutEntry(before: Bytes, e: RawEntry) returns (out: Bytes)
    ensures out == before + EntryBytes(e)
  {
    out := before + e.hash;
    out := out + LittleEndian(e.a, 4);
    out := out + LittleEndian(e.b, 4);
    out := out + LittleEndian(e.c, 4);
    out := out + LittleEndian(e.d, 4);
  }

  method PutTerms(before: Bytes, ts: seq<Term>) returns (out: Bytes)
    ensures out == before + TermsBytes(ts, 0)
  {
    out := before;
    for i := 0 to |ts|
      invariant out + TermsBytes(ts, i) == before + TermsBytes(ts, 0)
    {
      Regroup(out, EntryBytes(TermEntry(ts[i])), TermsBytes(ts, i + 1));
      out := PutEntry(out, TermEntry(ts[i]));
    }
    NothingLeft(out, TermsBytes(ts, |ts|));
  }

  method PutHashes(before: Bytes, hs: seq<Hash32>) returns (out: Bytes)
    ensures out == before + HashesBytes(hs, 0)
  {
    out := before;
    for i := 0 to |hs|
      invariant out + HashesBytes(hs, i) == before + HashesBytes(hs, 0)
    {
      Regroup(out, EntryBytes(HashEntry(hs[i])), HashesBytes(hs, i + 1));
      out := PutEntry(out, HashEntry(hs[i]));
    }
    NothingLeft(out, HashesBytes(hs, |hs|));
  }

  method PutChunks(before: Bytes, cs: seq<ChunkEntry>) returns (out: Bytes)
    ensures out == before + ChunksBytes(cs, 0)
  {
    out := before;
    for i := 0 to |cs|
      invariant out + ChunksBytes(cs, i) == before + ChunksBytes(cs, 0)
    {
      Regroup(out, EntryBytes(ChunkToEntry(cs[i])), ChunksBytes(cs, i + 1));
      out := PutEntry(out, ChunkToEntry(cs[i]));
    }
    NothingLeft(out, ChunksBytes(cs, |cs|));
  }

  method PutChecks(before: Bytes, f: ParsedFile) returns (out: Bytes)
    ensures out == before + ChecksBytes(f)
  {
    out := before;
    if HasVerification(f.flags) {
      out := PutHashes(out, f.verifications);
    }
  }

  method PutMetadata(before: Bytes, f: ParsedFile) returns (out: Bytes)
    ensures out == before + MetadataBytes(f)
  {
    out := before;
    if HasMetadataExt(f.flags) {
      var sha := if f.sha256.Some? then f.sha256.value else Zeros(HASH_LEN);
      var swapped := SwapU64Groups(sha);
      out := PutEntry(out, HashEntry(swapped));
    }
  }

  lemma {:induction false} FourMore(before: Bytes, a: Bytes, b: Bytes, c: Bytes, d: Bytes)
    ensures before + a + b + c + d == before + (a + b + c + d)
  {
  }

  method PutFile(before: Bytes, f: ParsedFile) returns (out: Bytes)
    ensures out == before + FileBytes(f)
  {
    out := PutEntry(before, FileHead(f));
    out := PutTerms(out, f.entries);
    out := PutChecks(out, f);
    out := PutMetadata(out, f);
    FourMore(before, EntryBytes(FileHead(f)), TermsBytes(f.entries, 0), ChecksBytes(f), MetadataBytes(f));
  }

  method PutBlock(before: Bytes, b: CasBlock) returns (out: Bytes)
    ensures out == before + BlockBytes(b)
  {
    out := PutEntry(before, BlockHead(b));
    out := PutChunks(out, b.chunks);
  }

  method PutFooter(before: Bytes, f: Footer) returns (out: Bytes)
    ensures out == before + FooterBytes(f)
  {
    out := before + FooterStart(f);
    for i := 0 to 3
      invariant out == before + FooterStart(f) + Lookup(f.footerOffset, i)
    {
      out := out + LittleEndian(f.footerOffset, 8);
      out := out + Zeros(8);
    }
    out := out + f.hmacKey;
    out := out + LittleEndian(f.created, 8);
    out := out + LittleEndian(f.keyExpiry, 8);
    out := out + Zeros(72);
    out := out + LittleEndian(f.footerOffset, 8);
  }

  method Serialize(s: Shard) returns (out: Bytes)
    requires SectionsSize(s) < U64_LIMIT
    ensures out == ShardBytes(s)
  {
    out := s.header.tag;
    out := out + LittleEndian(s.header.version, 8);
    out := out + LittleEndian(s.header.footerSize, 8);
    assert out == HeaderBytes(s.header);
    var fileInfoOffset := |out|;
    out := PutFiles(out, s.files);
    var casInfoOffset := |out|;
    out := PutBlocks(out, s.blocks);
    var footerOffset := |out|;
    if s.footer.Some? {
      out := PutFooter(out, s.footer.value.(
        fileInfoOffset := fileInfoOffset, casInfoOffset := casInfoOffset, footerOffset := footerOffset));
    }
  }

  method PutFiles(before: Bytes, fs: seq<ParsedFile>) returns (out: Bytes)
    ensures out == before + FilesBytes(fs, 0)
  {
    out := before;
    for i := 0 to |fs|
      invariant out + FilesBytes(fs, i) == before + FilesBytes(fs, 0)
    {
      Regroup(out, FileBytes(fs[i]), FilesBytes(fs, i + 1));
      out := PutFile(out, fs[i]);
    }
    out := PutEntry(out, Bookend());
  }

  method PutBlocks(before: Bytes, bs: seq<CasBlock>) returns (out: Bytes)
    ensures out == before + BlocksBytes(bs, 0)
  {
    out := before;
    for i := 0 to |bs|
      invariant out + BlocksBytes(bs, i) == before + BlocksBytes(bs, 0)
    {
      Regroup(out, BlockBytes(bs[i]), BlocksBytes(bs, i + 1));
      out := PutBlock(out, bs[i]);
    }
    out := PutEntry(out, Bookend());
  }
}
