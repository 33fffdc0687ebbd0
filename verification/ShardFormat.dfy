// The MDB shard format: what the parser reads at each position and what the serializer writes.
module ShardFormat {
  import opened Wrappers
  import opened Bytes

  const HASH_LEN: nat := 32
  const ENTRY_SIZE: nat := 48
  const HEADER_SIZE: nat := 48
  const FOOTER_SIZE: nat := 200
  const HEADER_VERSION: nat := 2
  const FOOTER_VERSION: nat := 1
  const MAX_SHARD_BYTES: nat := 64 * 1024 * 1024
  const FLAG_WITH_VERIFICATION: nat := 0x8000_0000
  const FLAG_WITH_METADATA_EXT: nat := 0x4000_0000

  type Hash32 = h: Bytes | |h| == HASH_LEN witness Zeros(HASH_LEN)

  datatype ShardError =
    | ShardTruncated(offset: nat, needed: nat)
    | BadHeaderVersion(found: nat)
    | BadFooterVersion(found: nat)
    | BadFooterOffset(declared: nat, len: nat)
    | ShardTooLarge(len: nat)

  datatype Header = Header(tag: Hash32, version: u64, footerSize: u64)

  datatype Term = Term(xorb: Hash32, casFlags: u32, unpackedBytes: u32, chunkStart: u32, chunkEnd: u32)

  datatype ParsedFile = ParsedFile(
    hash: Hash32, flags: u32, entries: seq<Term>, verifications: seq<Hash32>, sha256: Option<Hash32>)

  datatype ChunkEntry = ChunkEntry(hash: Hash32, byteStart: u32, unpackedBytes: u32)

  datatype CasBlock = CasBlock(
    xorb: Hash32, casFlags: u32, bytesInCas: u32, bytesOnDisk: u32, chunks: seq<ChunkEntry>)

  datatype Footer = Footer(
    version: u64, fileInfoOffset: u64, casInfoOffset: u64, hmacKey: Hash32, created: u64, keyExpiry: u64,
        footerOffset: u64)

  datatype Shard = Shard(header: Header, files: seq<ParsedFile>, blocks: seq<CasBlock>, footer: Option<Footer>)

  // Bits 31 and 30.
  predicate HasVerification(flags: u32) {
    flags / FLAG_WITH_VERIFICATION % 2 == 1
  }

  predicate HasMetadataExt(flags: u32) {
    flags / FLAG_WITH_METADATA_EXT % 2 == 1
  }

  function BookendHash(): Hash32 {
    seq(HASH_LEN, _ => 0xFF)
  }

  predicate IsBookend(h: Hash32) {
    forall i :: 0 <= i < HASH_LEN ==> h[i] == 0xFF
  }

  // The bytes of each 8-byte group in reverse.
  function Swapped(h: Hash32): Hash32 {
    seq(HASH_LEN, i requires 0 <= i < HASH_LEN => h[i / 8 * 8 + (7 - i % 8)])
  }

  lemma {:induction false} SwappedTwice(h: Hash32)
    ensures Swapped(Swapped(h)) == h
  {
    forall i | 0 <= i < HASH_LEN ensures Swapped(Swapped(h))[i] == h[i] {
      var j := i / 8 * 8 + (7 - i % 8);
      assert j / 8 == i / 8 && j % 8 == 7 - i % 8;
    }
  }

  // ---- 48-byte entries: a hash and four numbers ----

  datatype RawEntry = RawEntry(hash: Hash32, a: u32, b: u32, c: u32, d: u32)

  function EntryBytes(e: RawEntry): (r: Bytes)
    ensures |r| == ENTRY_SIZE
  {
    e.hash + (LittleEndian(e.a, 4) + (LittleEndian(e.b, 4) + (LittleEndian(e.c, 4) + LittleEndian(e.d, 4))))
  }

  function EntryAt(s: Bytes, pos: nat): RawEntry
    requires pos + ENTRY_SIZE <= |s|
  {
    RawEntry(HashAt(s, pos), U32At(s, pos + 32), U32At(s, pos + 36), U32At(s, pos + 40), U32At(s, pos + 44))
  }

  function HashAt(s: Bytes, pos: nat): Hash32
    requires pos + HASH_LEN <= |s|
  {
    seq(HASH_LEN, i requires 0 <= i < HASH_LEN => s[pos + i])
  }

  function U32At(s: Bytes, pos: nat): u32
    requires pos + 4 <= |s|
  {
    Pow256Values();
    ReadLEBound(s, pos, 4);
    ReadLE(s, pos, 4)
  }

  function U64At(s: Bytes, pos: nat): u64
    requires pos + 8 <= |s|
  {
    Pow256Values();
    ReadLEBound(s, pos, 8);
    ReadLE(s, pos, 8)
  }

  // ---- Reading ----

  function Short(s: Bytes, pos: nat, n: nat): ShardError
    requires pos <= |s| < pos + n
  {
    ShardTruncated(pos, n - (|s| - pos))
  }

  // More entries declared than the input can hold.
  predicate TooMany(s: Bytes, pos: nat, n: nat)
    requires pos <= |s|
  {
    n > (|s| - pos) / ENTRY_SIZE
  }

  function TermAt(s: Bytes, pos: nat): Term
    requires pos + ENTRY_SIZE <= |s|
  {
    var e := EntryAt(s, pos);
    Term(e.hash, e.a, e.b, e.c, e.d)
  }

  function TermsAt(s: Bytes, pos: nat, n: nat): (r: seq<Term>)
    requires pos + ENTRY_SIZE * n <= |s|
    ensures |r| == n
  {
    seq(n, i requires 0 <= i < n => TermAt(s, pos + ENTRY_SIZE * i))
  }

  function HashesAt(s: Bytes, pos: nat, n: nat): (r: seq<Hash32>)
    requires pos + ENTRY_SIZE * n <= |s|
    ensures |r| == n
  {
    seq(n, i requires 0 <= i < n => EntryAt(s, pos + ENTRY_SIZE * i).hash)
  }

  function ChunkAt(s: Bytes, pos: nat): ChunkEntry
    requires pos + ENTRY_SIZE <= |s|
  {
    var e := EntryAt(s, pos);
    ChunkEntry(e.hash, e.a, e.b)
  }

  function ChunksAt(s: Bytes, pos: nat, n: nat): (r: seq<ChunkEntry>)
    requires pos + ENTRY_SIZE * n <= |s|
    ensures |r| == n
  {
    seq(n, i requires 0 <= i < n => ChunkAt(s, pos + ENTRY_SIZE * i))
  }

  datatype FileScan = AFile(file: ParsedFile, next: nat) | NoMoreFiles(next: nat) | BadFile(error: ShardError)

  function FileAt(s: Bytes, pos: nat): (r: FileScan)
    requires pos <= |s|
    ensures r.AFile? || r.NoMoreFiles? ==> pos + ENTRY_SIZE <= r.next <= |s|
  {
    if |s| < pos + ENTRY_SIZE then BadFile(FileHeadError(s, pos))
    else
      var head := EntryAt(s, pos);
      if IsBookend(head.hash) then NoMoreFiles(pos + ENTRY_SIZE)
      else FileBodyAt(s, pos + ENTRY_SIZE, head.hash, head.a, head.b)
  }

  // The fields are read one after the other: a hash, two numbers and eight unused bytes.
  function FileHeadError(s: Bytes, pos: nat): ShardError
    requires pos <= |s| < pos + ENTRY_SIZE
  {
    if |s| < pos + 32 then Short(s, pos, 32)
    else if |s| < pos + 36 then Short(s, pos + 32, 4)
    else if |s| < pos + 40 then Short(s, pos + 36, 4)
    else Short(s, pos + 40, 8)
  }

  // Terms, then verification entries, then the metadata entry, as the flags say.
  function FileBodyAt(s: Bytes, pos: nat, hash: Hash32, flags: u32, n: u32): (r: FileScan)
    requires pos <= |s|
    ensures r.AFile? || r.NoMoreFiles? ==> pos <= r.next <= |s|
  {
    if TooMany(s, pos, n) then BadFile(Short(s, pos, ENTRY_SIZE * n))
    else
      var afterTerms := pos + ENTRY_SIZE * n;
      if HasVerification(flags) && TooMany(s, afterTerms, n) then BadFile(Short(s, afterTerms, ENTRY_SIZE * n))
      else
        var checks := if HasVerification(flags) then n else 0;
        FileTailAt(s, afterTerms + ENTRY_SIZE * checks,
                   ParsedFile(hash, flags, TermsAt(s, pos, n), HashesAt(s, afterTerms, checks), None))
  }

  function FileTailAt(s: Bytes, pos: nat, f: ParsedFile): (r: FileScan)
    requires pos <= |s|
    ensures r.AFile? || r.NoMoreFiles? ==> pos <= r.next <= |s|
  {
    if !HasMetadataExt(f.flags) then AFile(f, pos)
    else if |s| < pos + ENTRY_SIZE then BadFile(if |s| < pos + 32 then Short(s, pos, 32) else Short(s, pos + 32, 16))
    else AFile(f.(sha256 := Some(Swapped(EntryAt(s, pos).hash))), pos + ENTRY_SIZE)
  }

  datatype FilesScan = Files(files: seq<ParsedFile>, next: nat) | BadFiles(error: ShardError)

  // The file section from `pos` on, `files` having been read before.
  function FilesAt(s: Bytes, pos: nat, files: seq<ParsedFile>): (r: FilesScan)
    requires pos <= |s|
    ensures r.Files? ==> r.next <= |s|
    decreases |s| - pos
  {
    match FileAt(s, pos)
    case BadFile(e) => BadFiles(e)
    case NoMoreFiles(next) => Files(files, next)
    case AFile(file, next) => FilesAt(s, next, files + [file])
  }

  datatype BlockScan = ABlock(block: CasBlock, next: nat) | NoMoreBlocks(next: nat) | BadBlock(error: ShardError)

  function BlockAt(s: Bytes, pos: nat): (r: BlockScan)
    requires pos <= |s|
    ensures r.ABlock? || r.NoMoreBlocks? ==> pos + ENTRY_SIZE <= r.next <= |s|
  {
    if |s| < pos + ENTRY_SIZE then BadBlock(BlockHeadError(s, pos))
    else
      var head, start := EntryAt(s, pos), pos + ENTRY_SIZE;
      if IsBookend(head.hash) then NoMoreBlocks(start)
      else if TooMany(s, start, head.b) then BadBlock(Short(s, start, ENTRY_SIZE * head.b))
      else ABlock(CasBlock(head.hash, head.a, head.c, head.d, ChunksAt(s, start, head.b)), start + ENTRY_SIZE * head.b)
  }

  // A hash and four numbers.
  function BlockHeadError(s: Bytes, pos: nat): ShardError
    requires pos <= |s| < pos + ENTRY_SIZE
  {
    if |s| < pos + 32 then Short(s, pos, 32)
    else if |s| < pos + 36 then Short(s, pos + 32, 4)
    else if |s| < pos + 40 then Short(s, pos + 36, 4)
    else if |s| < pos + 44 then Short(s, pos + 40, 4)
    else Short(s, pos + 44, 4)
  }

  datatype BlocksScan = Blocks(blocks: seq<CasBlock>, next: nat) | BadBlocks(error: ShardError)

  function BlocksAt(s: Bytes, pos: nat, blocks: seq<CasBlock>): (r: BlocksScan)
    requires pos <= |s|
    ensures r.Blocks? ==> r.next <= |s|
    decreases |s| - pos
  {
    match BlockAt(s, pos)
    case BadBlock(e) => BadBlocks(e)
    case NoMoreBlocks(next) => Blocks(blocks, next)
    case ABlock(block, next) => BlocksAt(s, next, blocks + [block])
  }

  datatype FooterScan = AFooter(footer: Footer, next: nat) | BadFooter(error: ShardError)

  function FooterAt(s: Bytes, pos: nat): (r: FooterScan)
    requires pos <= |s|
    ensures r.AFooter? ==> r.next == pos + FOOTER_SIZE <= |s|
  {
    if |s| < pos + 8 then BadFooter(Short(s, pos, 8))
    else if U64At(s, pos) != FOOTER_VERSION then BadFooter(BadFooterVersion(U64At(s, pos)))
    else if |s| < pos + FOOTER_SIZE then BadFooter(FooterTailError(s, pos))
    else if U64At(s, pos + 192) > |s| then BadFooter(BadFooterOffset(U64At(s, pos + 192), |s|))
    else
      AFooter(Footer(U64At(s, pos), U64At(s, pos + 8), U64At(s, pos + 16), HashAt(s, pos + 72),
                     U64At(s, pos + 104), U64At(s, pos + 112), U64At(s, pos + 192)),
              pos + FOOTER_SIZE)
  }

  // Behind the version: two offsets, the skipped tables, the key, two times, padding, an offset.
  function FooterTailError(s: Bytes, pos: nat): ShardError
    requires pos + 8 <= |s| < pos + FOOTER_SIZE
  {
    if |s| < pos + 16 then Short(s, pos + 8, 8)
    else if |s| < pos + 24 then Short(s, pos + 16, 8)
    else if |s| < pos + 72 then Short(s, pos + 24, 48)
    else if |s| < pos + 104 then Short(s, pos + 72, 32)
    else if |s| < pos + 112 then Short(s, pos + 104, 8)
    else if |s| < pos + 120 then Short(s, pos + 112, 8)
    else if |s| < pos + 192 then Short(s, pos + 120, 72)
    else Short(s, pos + 192, 8)
  }

  // `consumed` is where the parser stops: behind the footer, or behind the last bookend.
  datatype ShardScan = AShard(shard: Shard, consumed: nat) | BadShard(error: ShardError)

  function ParsedShard(s: Bytes): (r: ShardScan)
    ensures r.AShard? ==> r.consumed <= |s| <= MAX_SHARD_BYTES
  {
    if |s| > MAX_SHARD_BYTES then BadShard(ShardTooLarge(|s|))
    else if |s| < HASH_LEN then BadShard(Short(s, 0, HASH_LEN))
    else if |s| < HASH_LEN + 8 then BadShard(Short(s, HASH_LEN, 8))
    else if U64At(s, HASH_LEN) != HEADER_VERSION then BadShard(BadHeaderVersion(U64At(s, HASH_LEN)))
    else if |s| < HEADER_SIZE then BadShard(Short(s, HASH_LEN + 8, 8))
    else
      var header := Header(HashAt(s, 0), U64At(s, HASH_LEN), U64At(s, HASH_LEN + 8));
      match FilesAt(s, HEADER_SIZE, [])
      case BadFiles(e) => BadShard(e)
      case Files(files, afterFiles) =>
        match BlocksAt(s, afterFiles, [])
        case BadBlocks(e) => BadShard(e)
        case Blocks(blocks, afterBlocks) =>
          if header.footerSize != FOOTER_SIZE then AShard(Shard(header, files, blocks, None), afterBlocks)
          else
            match FooterAt(s, afterBlocks)
            case BadFooter(e) => BadShard(e)
            case AFooter(footer, end) => AShard(Shard(header, files, blocks, Some(footer)), end)
  }

  // ---- Writing ----

  function TermEntry(t: Term): RawEntry {
    RawEntry(t.xorb, t.casFlags, t.unpackedBytes, t.chunkStart, t.chunkEnd)
  }

  function HashEntry(h: Hash32): RawEntry {
    RawEntry(h, 0, 0, 0, 0)
  }

  function ChunkToEntry(c: ChunkEntry): RawEntry {
    RawEntry(c.hash, c.byteStart, c.unpackedBytes, 0, 0)
  }

  function Bookend(): RawEntry {
    HashEntry(BookendHash())
  }

  // Lengths go through a cast to u32.
  function Count(n: nat): u32 {
    n % U32_LIMIT
  }

  function FileHead(f: ParsedFile): RawEntry {
    RawEntry(f.hash, f.flags, Count(|f.entries|), 0, 0)
  }

  // A set flag without a digest writes zeros.
  function Metadata(f: ParsedFile): RawEntry {
    HashEntry(Swapped(if f.sha256.Some? then f.sha256.value else Zeros(HASH_LEN)))
  }

  function BlockHead(b: CasBlock): RawEntry {
    RawEntry(b.xorb, b.casFlags, Count(|b.chunks|), b.bytesInCas, b.bytesOnDisk)
  }

  // The entries from the `i`th on.
  function TermsBytes(ts: seq<Term>, i: nat): (r: Bytes)
    requires i <= |ts|
    ensures |r| == ENTRY_SIZE * (|ts| - i)
    decreases |ts| - i
  {
    if i == |ts| then [] else EntryBytes(TermEntry(ts[i])) + TermsBytes(ts, i + 1)
  }

  function HashesBytes(hs: seq<Hash32>, i: nat): (r: Bytes)
    requires i <= |hs|
    ensures |r| == ENTRY_SIZE * (|hs| - i)
    decreases |hs| - i
  {
    if i == |hs| then [] else EntryBytes(HashEntry(hs[i])) + HashesBytes(hs, i + 1)
  }

  function ChunksBytes(cs: seq<ChunkEntry>, i: nat): (r: Bytes)
    requires i <= |cs|
    ensures |r| == ENTRY_SIZE * (|cs| - i)
    decreases |cs| - i
  {
    if i == |cs| then [] else EntryBytes(ChunkToEntry(cs[i])) + ChunksBytes(cs, i + 1)
  }

  function FileSize(f: ParsedFile): nat {
    ENTRY_SIZE + ENTRY_SIZE * |f.entries| + ENTRY_SIZE * Checks(f) + if HasMetadataExt(f.flags) then ENTRY_SIZE else 0
  }

  function Checks(f: ParsedFile): nat {
    if HasVerification(f.flags) then |f.verifications| else 0
  }

  function ChecksBytes(f: ParsedFile): Bytes {
    if HasVerification(f.flags) then HashesBytes(f.verifications, 0) else []
  }

  function MetadataBytes(f: ParsedFile): Bytes {
    if HasMetadataExt(f.flags) then EntryBytes(Metadata(f)) else []
  }

  function FileBytes(f: ParsedFile): (r: Bytes)
    ensures |r| == FileSize(f)
  {
    EntryBytes(FileHead(f)) + TermsBytes(f.entries, 0) + ChecksBytes(f) + MetadataBytes(f)
  }

  function FilesSize(fs: seq<ParsedFile>, i: nat): nat
    requires i <= |fs|
    decreases |fs| - i
  {
    if i == |fs| then ENTRY_SIZE else FileSize(fs[i]) + FilesSize(fs, i + 1)
  }

  // The files from the `i`th on, with the closing bookend.
  function FilesBytes(fs: seq<ParsedFile>, i: nat): (r: Bytes)
    requires i <= |fs|
    ensures |r| == FilesSize(fs, i)
    decreases |fs| - i
  {
    if i == |fs| then EntryBytes(Bookend()) else FileBytes(fs[i]) + FilesBytes(fs, i + 1)
  }

  function BlockSize(b: CasBlock): nat {
    ENTRY_SIZE + ENTRY_SIZE * |b.chunks|
  }

  function BlockBytes(b: CasBlock): (r: Bytes)
    ensures |r| == BlockSize(b)
  {
    EntryBytes(BlockHead(b)) + ChunksBytes(b.chunks, 0)
  }

  function BlocksSize(bs: seq<CasBlock>, i: nat): nat
    requires i <= |bs|
    decreases |bs| - i
  {
    if i == |bs| then ENTRY_SIZE else BlockSize(bs[i]) + BlocksSize(bs, i + 1)
  }

  function BlocksBytes(bs: seq<CasBlock>, i: nat): (r: Bytes)
    requires i <= |bs|
    ensures |r| == BlocksSize(bs, i)
    decreases |bs| - i
  {
    if i == |bs| then EntryBytes(Bookend()) else BlockBytes(bs[i]) + BlocksBytes(bs, i + 1)
  }

  function HeaderBytes(h: Header): (r: Bytes)
    ensures |r| == HEADER_SIZE
  {
    h.tag + (LittleEndian(h.version, 8) + LittleEndian(h.footerSize, 8))
  }

  // The skipped lookup tables: an offset, the end of the sections, and a zero count each.
  function Lookup(footerOffset: nat, n: nat): (r: Bytes)
    ensures |r| == 16 * n
  {
    if n == 0 then [] else Lookup(footerOffset, n - 1) + LittleEndian(footerOffset, 8) + Zeros(8)
  }

  function FooterBytes(f: Footer): (r: Bytes)
    ensures |r| == FOOTER_SIZE
  {
    FooterStart(f) + (Lookup(f.footerOffset, 3) + FooterEnd(f))
  }

  function FooterStart(f: Footer): (r: Bytes)
    ensures |r| == 24
  {
    LittleEndian(f.version, 8) + (LittleEndian(f.fileInfoOffset, 8) + LittleEndian(f.casInfoOffset, 8))
  }

  function FooterEnd(f: Footer): (r: Bytes)
    ensures |r| == 128
  {
    f.hmacKey
    + (LittleEndian(f.created, 8) + (LittleEndian(f.keyExpiry, 8) + (Zeros(72) + LittleEndian(f.footerOffset, 8))))
  }

  function SectionsSize(s: Shard): nat {
    HEADER_SIZE + FilesSize(s.files, 0) + BlocksSize(s.blocks, 0)
  }

  function SectionsBytes(s: Shard): (r: Bytes)
    ensures |r| == SectionsSize(s)
  {
    HeaderBytes(s.header) + FilesBytes(s.files, 0) + BlocksBytes(s.blocks, 0)
  }

  // The shard that is written for `s`: the offsets in the footer are those of the sections just
  // written.
  function Relocated(s: Shard): Shard
    requires SectionsSize(s) < U64_LIMIT
  {
    if s.footer.None? then s
    else
      s.(footer := Some(s.footer.value.(
        fileInfoOffset := HEADER_SIZE,
        casInfoOffset := HEADER_SIZE + FilesSize(s.files, 0),
        footerOffset := SectionsSize(s))))
  }

  function ShardSize(s: Shard): nat {
    SectionsSize(s) + if s.footer.Some? then FOOTER_SIZE else 0
  }

  function ShardBytes(s: Shard): (r: Bytes)
    requires SectionsSize(s) < U64_LIMIT
    ensures |r| == ShardSize(s)
  {
    SectionsBytes(s) + if s.footer.Some? then FooterBytes(Relocated(s).footer.value) else []
  }
}
