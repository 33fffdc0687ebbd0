// Writing a shard and parsing it back, and parsing bytes and writing them back.
module ShardRoundTrip {
  import opened Wrappers
  import opened Bytes
  import opened ShardFormat

  // ---- Well-formed shards ----

  predicate WellFormedFile(f: ParsedFile) {
    && !IsBookend(f.hash)
    && |f.verifications| == (if HasVerification(f.flags) then |f.entries| else 0)
    && (f.sha256.Some? <==> HasMetadataExt(f.flags))
  }

  predicate WellFormed(s: Shard) {
    && s.header.version == HEADER_VERSION
    && (forall i :: 0 <= i < |s.files| ==> WellFormedFile(s.files[i]))
    && (forall i :: 0 <= i < |s.blocks| ==> !IsBookend(s.blocks[i].xorb))
    && (s.footer.Some? <==> s.header.footerSize == FOOTER_SIZE)
    && (s.footer.Some? ==> s.footer.value.version == FOOTER_VERSION)
  }

  // ---- Reading back what was written ----

  lemma {:induction false} U32Reads(s: Bytes, pos: nat, x: u32)
    requires Occurs(s, pos, LittleEndian(x, 4))
    ensures U32At(s, pos) == x
  {
    Pow256Values();
    NumberRoundTrip(s, pos, x, 4);
  }

  lemma {:induction false} U64Reads(s: Bytes, pos: nat, x: u64)
    requires Occurs(s, pos, LittleEndian(x, 8))
    ensures U64At(s, pos) == x
  {
    Pow256Values();
    NumberRoundTrip(s, pos, x, 8);
  }

  lemma {:induction false} EntryReads(s: Bytes, pos: nat, e: RawEntry)
    requires Occurs(s, pos, EntryBytes(e))
    ensures EntryAt(s, pos) == e
  {
    var la, lb, lc, ld := LittleEndian(e.a, 4), LittleEndian(e.b, 4), LittleEndian(e.c, 4), LittleEndian(e.d, 4);
    OccursSplit(s, pos, e.hash, la + (lb + (lc + ld)));
    OccursSplit(s, pos + 32, la, lb + (lc + ld));
    OccursSplit(s, pos + 36, lb, lc + ld);
    OccursSplit(s, pos + 40, lc, ld);
    U32Reads(s, pos + 32, e.a);
    U32Reads(s, pos + 36, e.b);
    U32Reads(s, pos + 40, e.c);
    U32Reads(s, pos + 44, e.d);
  }

  lemma {:induction false} TermsRead(s: Bytes, pos: nat, ts: seq<Term>, i: nat)
    requires i <= |ts| && Occurs(s, pos + ENTRY_SIZE * i, TermsBytes(ts, i))
    ensures pos + ENTRY_SIZE * |ts| <= |s|
    ensures forall k :: i <= k < |ts| ==> EntryAt(s, pos + ENTRY_SIZE * k) == TermEntry(ts[k])
    decreases |ts| - i
  {
    if i < |ts| {
      OccursSplit(s, pos + ENTRY_SIZE * i, EntryBytes(TermEntry(ts[i])), TermsBytes(ts, i + 1));
      EntryReads(s, pos + ENTRY_SIZE * i, TermEntry(ts[i]));
      TermsRead(s, pos, ts, i + 1);
    }
  }

  lemma {:induction false} HashesRead(s: Bytes, pos: nat, hs: seq<Hash32>, i: nat)
    requires i <= |hs| && Occurs(s, pos + ENTRY_SIZE * i, HashesBytes(hs, i))
    ensures pos + ENTRY_SIZE * |hs| <= |s|
    ensures forall k :: i <= k < |hs| ==> EntryAt(s, pos + ENTRY_SIZE * k) == HashEntry(hs[k])
    decreases |hs| - i
  {
    if i < |hs| {
      OccursSplit(s, pos + ENTRY_SIZE * i, EntryBytes(HashEntry(hs[i])), HashesBytes(hs, i + 1));
      EntryReads(s, pos + ENTRY_SIZE * i, HashEntry(hs[i]));
      HashesRead(s, pos, hs, i + 1);
    }
  }

  lemma {:induction false} ChunksRead(s: Bytes, pos: nat, cs: seq<ChunkEntry>, i: nat)
    requires i <= |cs| && Occurs(s, pos + ENTRY_SIZE * i, ChunksBytes(cs, i))
    ensures pos + ENTRY_SIZE * |cs| <= |s|
    ensures forall k :: i <= k < |cs| ==> EntryAt(s, pos + ENTRY_SIZE * k) == ChunkToEntry(cs[k])
    decreases |cs| - i
  {
    if i < |cs| {
      OccursSplit(s, pos + ENTRY_SIZE * i, EntryBytes(ChunkToEntry(cs[i])), ChunksBytes(cs, i + 1));
      EntryReads(s, pos + ENTRY_SIZE * i, ChunkToEntry(cs[i]));
      ChunksRead(s, pos, cs, i + 1);
    }
  }

  // The entries of a file stand at `pos`.
  ghost predicate FileStands(s: Bytes, pos: nat, f: ParsedFile) {
    var terms := pos + ENTRY_SIZE;
    var checks := terms + ENTRY_SIZE * |f.entries|;
    && pos + FileSize(f) <= |s|
    && EntryAt(s, pos) == FileHead(f)
    && (forall k :: 0 <= k < |f.entries| ==> EntryAt(s, terms + ENTRY_SIZE * k) == TermEntry(f.entries[k]))
    && (forall k :: 0 <= k < Checks(f) ==> EntryAt(s, checks + ENTRY_SIZE * k) == HashEntry(f.verifications[k]))
    && (HasMetadataExt(f.flags) ==> EntryAt(s, checks + ENTRY_SIZE * Checks(f)) == Metadata(f))
  }

  ghost predicate FilesStand(s: Bytes, pos: nat, fs: seq<ParsedFile>, i: nat)
    requires i <= |fs|
    decreases |fs| - i
  {
    if i == |fs| then pos + ENTRY_SIZE <= |s| && EntryAt(s, pos) == Bookend()
    else FileStands(s, pos, fs[i]) && FilesStand(s, pos + FileSize(fs[i]), fs, i + 1)
  }

  ghost predicate BlockStands(s: Bytes, pos: nat, b: CasBlock) {
    && pos + BlockSize(b) <= |s|
    && EntryAt(s, pos) == BlockHead(b)
    && (forall k :: 0 <= k < |b.chunks| ==> EntryAt(s, pos + ENTRY_SIZE + ENTRY_SIZE * k) == ChunkToEntry(b.chunks[k]))
  }

  ghost predicate BlocksStand(s: Bytes, pos: nat, bs: seq<CasBlock>, i: nat)
    requires i <= |bs|
    decreases |bs| - i
  {
    if i == |bs| then pos + ENTRY_SIZE <= |s| && EntryAt(s, pos) == Bookend()
    else BlockStands(s, pos, bs[i]) && BlocksStand(s, pos + BlockSize(bs[i]), bs, i + 1)
  }

  // From bytes to entries.

  lemma {:induction false} FilePartsOccur(s: Bytes, pos: nat, f: ParsedFile)
    requires Occurs(s, pos, FileBytes(f))
    ensures Occurs(s, pos, EntryBytes(FileHead(f))) && Occurs(s, pos + ENTRY_SIZE, TermsBytes(f.entries, 0))
    ensures var checks := pos + ENTRY_SIZE + ENTRY_SIZE * |f.entries|;
            Occurs(s, checks, ChecksBytes(f)) && Occurs(s, checks + ENTRY_SIZE * Checks(f), MetadataBytes(f))
  {
    var head, terms := EntryBytes(FileHead(f)), TermsBytes(f.entries, 0);
    OccursSplit(s, pos, head + terms + ChecksBytes(f), MetadataBytes(f));
    OccursSplit(s, pos, head + terms, ChecksBytes(f));
    OccursSplit(s, pos, head, terms);
  }

  lemma {:induction false} ChecksStand(s: Bytes, pos: nat, f: ParsedFile)
    requires Occurs(s, pos, ChecksBytes(f))
    ensures pos + ENTRY_SIZE * Checks(f) <= |s|
    ensures forall k :: 0 <= k < Checks(f) ==> EntryAt(s, pos + ENTRY_SIZE * k) == HashEntry(f.verifications[k])
  {
    if HasVerification(f.flags) {
      HashesRead(s, pos, f.verifications, 0);
    }
  }

  lemma {:induction false} MetadataStands(s: Bytes, pos: nat, f: ParsedFile)
    requires Occurs(s, pos, MetadataBytes(f))
    ensures HasMetadataExt(f.flags) ==> pos + ENTRY_SIZE <= |s| && EntryAt(s, pos) == Metadata(f)
  {
    if HasMetadataExt(f.flags) {
      EntryReads(s, pos, Metadata(f));
    }
  }

  lemma {:induction false} HeadAndTermsStand(s: Bytes, pos: nat, f: ParsedFile)
    requires Occurs(s, pos, EntryBytes(FileHead(f))) && Occurs(s, pos + ENTRY_SIZE, TermsBytes(f.entries, 0))
    ensures pos + ENTRY_SIZE + ENTRY_SIZE * |f.entries| <= |s| && EntryAt(s, pos) == FileHead(f)
    ensures forall k :: 0 <= k < |f.entries| ==>
              EntryAt(s, pos + ENTRY_SIZE + ENTRY_SIZE * k) == TermEntry(f.entries[k])
  {
    EntryReads(s, pos, FileHead(f));
    TermsRead(s, pos + ENTRY_SIZE, f.entries, 0);
  }

  lemma {:induction false} EntriesStand(s: Bytes, pos: nat, f: ParsedFile, checks: nat)
    requires checks == pos + ENTRY_SIZE + ENTRY_SIZE * |f.entries| && pos + FileSize(f) <= |s|
    requires EntryAt(s, pos) == FileHead(f)
    requires forall k :: 0 <= k < |f.entries| ==>
               EntryAt(s, pos + ENTRY_SIZE + ENTRY_SIZE * k) == TermEntry(f.entries[k])
    requires forall k :: 0 <= k < Checks(f) ==> EntryAt(s, checks + ENTRY_SIZE * k) == HashEntry(f.verifications[k])
    requires HasMetadataExt(f.flags) ==> EntryAt(s, checks + ENTRY_SIZE * Checks(f)) == Metadata(f)
    ensures FileStands(s, pos, f)
  {
  }

  lemma {:induction false} FilePartsStand(s: Bytes, pos: nat, f: ParsedFile, checks: nat)
    requires checks == pos + ENTRY_SIZE + ENTRY_SIZE * |f.entries|
    requires Occurs(s, pos, EntryBytes(FileHead(f))) && Occurs(s, pos + ENTRY_SIZE, TermsBytes(f.entries, 0))
    requires Occurs(s, checks, ChecksBytes(f)) && Occurs(s, checks + ENTRY_SIZE * Checks(f), MetadataBytes(f))
    ensures FileStands(s, pos, f)
  {
    HeadAndTermsStand(s, pos, f);
    ChecksStand(s, checks, f);
    MetadataStands(s, checks + ENTRY_SIZE * Checks(f), f);
    EntriesStand(s, pos, f, checks);
  }

  lemma {:induction false} FileBytesStand(s: Bytes, pos: nat, f: ParsedFile)
    requires Occurs(s, pos, FileBytes(f))
    ensures FileStands(s, pos, f)
  {
    FilePartsOccur(s, pos, f);
    FilePartsStand(s, pos, f, pos + ENTRY_SIZE + ENTRY_SIZE * |f.entries|);
  }

  lemma {:induction false} FilesBytesStand(s: Bytes, pos: nat, fs: seq<ParsedFile>, i: nat)
    requires i <= |fs| && Occurs(s, pos, FilesBytes(fs, i))
    ensures FilesStand(s, pos, fs, i)
    decreases |fs| - i
  {
    if i == |fs| {
      EntryReads(s, pos, Bookend());
    } else {
      OccursSplit(s, pos, FileBytes(fs[i]), FilesBytes(fs, i + 1));
      FileBytesStand(s, pos, fs[i]);
      FilesBytesStand(s, pos + FileSize(fs[i]), fs, i + 1);
    }
  }

  lemma {:induction false} BlockBytesStand(s: Bytes, pos: nat, b: CasBlock)
    requires Occurs(s, pos, BlockBytes(b))
    ensures BlockStands(s, pos, b)
  {
    OccursSplit(s, pos, EntryBytes(BlockHead(b)), ChunksBytes(b.chunks, 0));
    EntryReads(s, pos, BlockHead(b));
    ChunksRead(s, pos + ENTRY_SIZE, b.chunks, 0);
  }

  lemma {:induction false} BlocksBytesStand(s: Bytes, pos: nat, bs: seq<CasBlock>, i: nat)
    requires i <= |bs| && Occurs(s, pos, BlocksBytes(bs, i))
    ensures BlocksStand(s, pos, bs, i)
    decreases |bs| - i
  {
    if i == |bs| {
      EntryReads(s, pos, Bookend());
    } else {
      OccursSplit(s, pos, BlockBytes(bs[i]), BlocksBytes(bs, i + 1));
      BlockBytesStand(s, pos, bs[i]);
      BlocksBytesStand(s, pos + BlockSize(bs[i]), bs, i + 1);
    }
  }

  // From entries to values.

  lemma {:induction false} FileTailReads(s: Bytes, pos: nat, f: ParsedFile)
    requires WellFormedFile(f) && pos <= |s|
    requires HasMetadataExt(f.flags) ==> pos + ENTRY_SIZE <= |s| && EntryAt(s, pos) == Metadata(f)
    ensures FileTailAt(s, pos, f.(sha256 := None)) == AFile(f, if HasMetadataExt(f.flags)
        then pos + ENTRY_SIZE else pos)
  {
    if HasMetadataExt(f.flags) {
      SwappedTwice(f.sha256.value);
    }
  }

  lemma {:induction false} StandingTermsRead(s: Bytes, pos: nat, ts: seq<Term>)
    requires pos + ENTRY_SIZE * |ts| <= |s|
    requires forall k :: 0 <= k < |ts| ==> EntryAt(s, pos + ENTRY_SIZE * k) == TermEntry(ts[k])
    ensures TermsAt(s, pos, |ts|) == ts
  {
  }

  lemma {:induction false} StandingHashesRead(s: Bytes, pos: nat, hs: seq<Hash32>)
    requires pos + ENTRY_SIZE * |hs| <= |s|
    requires forall k :: 0 <= k < |hs| ==> EntryAt(s, pos + ENTRY_SIZE * k) == HashEntry(hs[k])
    ensures HashesAt(s, pos, |hs|) == hs
  {
  }

  lemma {:induction false} FileBodyReads(s: Bytes, pos: nat, f: ParsedFile, end: nat)
    requires WellFormedFile(f) && |f.entries| < U32_LIMIT
    requires pos + ENTRY_SIZE * |f.entries| + ENTRY_SIZE * |f.verifications| <= |s|
    requires TermsAt(s, pos, |f.entries|) == f.entries
    requires HashesAt(s, pos + ENTRY_SIZE * |f.entries|, |f.verifications|) == f.verifications
    requires FileTailAt(s, pos + ENTRY_SIZE * |f.entries| + ENTRY_SIZE * |f.verifications|, f.(sha256 := None)) ==
        AFile(f, end)
    ensures FileBodyAt(s, pos, f.hash, f.flags, |f.entries|) == AFile(f, end)
  {
  }

  lemma {:induction false} FileHeadReads(s: Bytes, pos: nat, f: ParsedFile)
    requires pos + ENTRY_SIZE <= |s| && EntryAt(s, pos) == FileHead(f)
    requires !IsBookend(f.hash) && |f.entries| < U32_LIMIT
    ensures FileAt(s, pos) == FileBodyAt(s, pos + ENTRY_SIZE, f.hash, f.flags, |f.entries|)
  {
  }

  lemma {:induction false} FileReads(s: Bytes, pos: nat, f: ParsedFile)
    requires WellFormedFile(f) && |s| <= MAX_SHARD_BYTES && FileStands(s, pos, f)
    ensures FileAt(s, pos) == AFile(f, pos + FileSize(f))
  {
    var terms := pos + ENTRY_SIZE;
    var checks := terms + ENTRY_SIZE * |f.entries|;
    StandingTermsRead(s, terms, f.entries);
    StandingHashesRead(s, checks, f.verifications);
    FileTailReads(s, checks + ENTRY_SIZE * |f.verifications|, f);
    FileBodyReads(s, terms, f, pos + FileSize(f));
    FileHeadReads(s, pos, f);
  }

  // The file parser reads these files, one behind the other, and then the bookend.
  ghost predicate FilesParse(s: Bytes, pos: nat, fs: seq<ParsedFile>, i: nat)
    requires i <= |fs|
    decreases |fs| - i
  {
    && pos <= |s|
    && if i == |fs| then FileAt(s, pos) == NoMoreFiles(pos + ENTRY_SIZE)
       else FileAt(s, pos) == AFile(fs[i], pos + FileSize(fs[i])) && FilesParse(s, pos + FileSize(fs[i]), fs, i + 1)
  }

  lemma {:induction false} StandingFilesParse(s: Bytes, pos: nat, fs: seq<ParsedFile>, i: nat)
    requires i <= |fs| && forall k :: i <= k < |fs| ==> WellFormedFile(fs[k])
    requires |s| <= MAX_SHARD_BYTES && FilesStand(s, pos, fs, i)
    ensures FilesParse(s, pos, fs, i)
    decreases |fs| - i
  {
    if i < |fs| {
      FileReads(s, pos, fs[i]);
      StandingFilesParse(s, pos + FileSize(fs[i]), fs, i + 1);
    }
  }

  lemma {:induction false} FilesStep(s: Bytes, pos: nat, fs: seq<ParsedFile>, i: nat, next: nat)
    requires i < |fs| && pos <= |s| && FileAt(s, pos) == AFile(fs[i], next)
    ensures FilesAt(s, pos, fs[..i]) == FilesAt(s, next, fs[..i + 1])
  {
    assert fs[..i] + [fs[i]] == fs[..i + 1];
  }

  lemma {:induction false} FilesRead(s: Bytes, pos: nat, fs: seq<ParsedFile>, i: nat)
    requires i <= |fs| && FilesParse(s, pos, fs, i)
    ensures pos + FilesSize(fs, i) <= |s| && FilesAt(s, pos, fs[..i]) == Files(fs, pos + FilesSize(fs, i))
    decreases |fs| - i
  {
    if i == |fs| {
      assert fs[..i] == fs;
    } else {
      var next := pos + FileSize(fs[i]);
      FilesRead(s, next, fs, i + 1);
      FilesStep(s, pos, fs, i, next);
    }
  }

  lemma {:induction false} BlockReads(s: Bytes, pos: nat, b: CasBlock)
    requires !IsBookend(b.xorb) && |s| <= MAX_SHARD_BYTES && BlockStands(s, pos, b)
    ensures BlockAt(s, pos) == ABlock(b, pos + BlockSize(b))
  {
    assert ChunksAt(s, pos + ENTRY_SIZE, |b.chunks|) == b.chunks;
  }

  lemma {:induction false} BlocksStep(s: Bytes, pos: nat, bs: seq<CasBlock>, i: nat, next: nat)
    requires i < |bs| && pos <= |s| && BlockAt(s, pos) == ABlock(bs[i], next)
    ensures BlocksAt(s, pos, bs[..i]) == BlocksAt(s, next, bs[..i + 1])
  {
    assert bs[..i] + [bs[i]] == bs[..i + 1];
  }

  lemma {:induction false} BlocksRead(s: Bytes, pos: nat, bs: seq<CasBlock>, i: nat)
    requires i <= |bs| && forall k :: 0 <= k < |bs| ==> !IsBookend(bs[k].xorb)
    requires |s| <= MAX_SHARD_BYTES && BlocksStand(s, pos, bs, i)
    ensures pos + BlocksSize(bs, i) <= |s| && BlocksAt(s, pos, bs[..i]) == Blocks(bs, pos + BlocksSize(bs, i))
    decreases |bs| - i
  {
    if i == |bs| {
      assert bs[..i] == bs;
    } else {
      BlockReads(s, pos, bs[i]);
      BlocksRead(s, pos + BlockSize(bs[i]), bs, i + 1);
      BlocksStep(s, pos, bs, i, pos + BlockSize(bs[i]));
    }
  }

  lemma {:induction false} HeaderReads(s: Bytes, pos: nat, h: Header)
    requires Occurs(s, pos, HeaderBytes(h))
    ensures HashAt(s, pos) == h.tag && U64At(s, pos + HASH_LEN) == h.version &&
        U64At(s, pos + HASH_LEN + 8) == h.footerSize
  {
    OccursSplit(s, pos, h.tag, LittleEndian(h.version, 8) + LittleEndian(h.footerSize, 8));
    OccursSplit(s, pos + 32, LittleEndian(h.version, 8), LittleEndian(h.footerSize, 8));
    U64Reads(s, pos + 32, h.version);
    U64Reads(s, pos + 40, h.footerSize);
  }

  lemma {:induction false} FooterStartReads(s: Bytes, pos: nat, f: Footer)
    requires Occurs(s, pos, FooterStart(f))
    ensures U64At(s, pos) == f.version && U64At(s, pos + 8) == f.fileInfoOffset && U64At(s, pos + 16) == f.casInfoOffset
  {
    OccursSplit(s, pos, LittleEndian(f.version, 8),
                LittleEndian(f.fileInfoOffset, 8) + LittleEndian(f.casInfoOffset, 8));
    OccursSplit(s, pos + 8, LittleEndian(f.fileInfoOffset, 8), LittleEndian(f.casInfoOffset, 8));
    U64Reads(s, pos, f.version);
    U64Reads(s, pos + 8, f.fileInfoOffset);
    U64Reads(s, pos + 16, f.casInfoOffset);
  }

  lemma {:induction false} FooterEndReads(s: Bytes, pos: nat, f: Footer)
    requires Occurs(s, pos, FooterEnd(f))
    ensures HashAt(s, pos) == f.hmacKey && U64At(s, pos + 32) == f.created && U64At(s, pos + 40) == f.keyExpiry
    ensures U64At(s, pos + 120) == f.footerOffset
  {
    var created, expiry, offset := LittleEndian(f.created, 8), LittleEndian(f.keyExpiry, 8),
        LittleEndian(f.footerOffset, 8);
    OccursSplit(s, pos, f.hmacKey, created + (expiry + (Zeros(72) + offset)));
    OccursSplit(s, pos + 32, created, expiry + (Zeros(72) + offset));
    OccursSplit(s, pos + 40, expiry, Zeros(72) + offset);
    OccursSplit(s, pos + 48, Zeros(72), offset);
    U64Reads(s, pos + 32, f.created);
    U64Reads(s, pos + 40, f.keyExpiry);
    U64Reads(s, pos + 120, f.footerOffset);
  }

  lemma {:induction false} FooterReads(s: Bytes, pos: nat, f: Footer)
    requires f.version == FOOTER_VERSION && f.footerOffset <= |s| && Occurs(s, pos, FooterBytes(f))
    ensures FooterAt(s, pos) == AFooter(f, pos + FOOTER_SIZE)
  {
    OccursSplit(s, pos, FooterStart(f), Lookup(f.footerOffset, 3) + FooterEnd(f));
    OccursSplit(s, pos + 24, Lookup(f.footerOffset, 3), FooterEnd(f));
    FooterStartReads(s, pos, f);
    FooterEndReads(s, pos + 72, f);
  }

  lemma {:induction false} FileSectionReads(b: Bytes, pos: nat, fs: seq<ParsedFile>)
    requires |b| <= MAX_SHARD_BYTES && Occurs(b, pos, FilesBytes(fs, 0))
    requires forall k :: 0 <= k < |fs| ==> WellFormedFile(fs[k])
    ensures pos + FilesSize(fs, 0) <= |b| && FilesAt(b, pos, []) == Files(fs, pos + FilesSize(fs, 0))
  {
    FilesBytesStand(b, pos, fs, 0);
    StandingFilesParse(b, pos, fs, 0);
    FilesRead(b, pos, fs, 0);
    assert fs[..0] == [];
  }

  lemma {:induction false} BlockSectionReads(b: Bytes, pos: nat, bs: seq<CasBlock>)
    requires |b| <= MAX_SHARD_BYTES && Occurs(b, pos, BlocksBytes(bs, 0))
    requires forall k :: 0 <= k < |bs| ==> !IsBookend(bs[k].xorb)
    ensures pos + BlocksSize(bs, 0) <= |b| && BlocksAt(b, pos, []) == Blocks(bs, pos + BlocksSize(bs, 0))
  {
    BlocksBytesStand(b, pos, bs, 0);
    BlocksRead(b, pos, bs, 0);
    assert bs[..0] == [];
  }

  lemma {:induction false} HeaderOccurs(b: Bytes, s: Shard)
    requires Occurs(b, 0, SectionsBytes(s))
    ensures Occurs(b, 0, HeaderBytes(s.header))
  {
    OccursSplit(b, 0, HeaderBytes(s.header) + FilesBytes(s.files, 0), BlocksBytes(s.blocks, 0));
    OccursSplit(b, 0, HeaderBytes(s.header), FilesBytes(s.files, 0));
  }

  lemma {:induction false} FilesOccur(b: Bytes, s: Shard)
    requires Occurs(b, 0, SectionsBytes(s))
    ensures Occurs(b, HEADER_SIZE, FilesBytes(s.files, 0))
  {
    OccursSplit(b, 0, HeaderBytes(s.header) + FilesBytes(s.files, 0), BlocksBytes(s.blocks, 0));
    OccursSplit(b, 0, HeaderBytes(s.header), FilesBytes(s.files, 0));
  }

  lemma {:induction false} BlocksOccur(b: Bytes, s: Shard)
    requires Occurs(b, 0, SectionsBytes(s))
    ensures Occurs(b, HEADER_SIZE + FilesSize(s.files, 0), BlocksBytes(s.blocks, 0))
  {
    OccursSplit(b, 0, HeaderBytes(s.header) + FilesBytes(s.files, 0), BlocksBytes(s.blocks, 0));
  }

  lemma {:induction false} ShardOccurs(b: Bytes, s: Shard)
    requires SectionsSize(s) < U64_LIMIT && Occurs(b, 0, ShardBytes(s))
    ensures Occurs(b, 0, SectionsBytes(s))
    ensures s.footer.Some? ==> Occurs(b, SectionsSize(s), FooterBytes(Relocated(s).footer.value))
  {
    OccursSplit(b, 0, SectionsBytes(s), if s.footer.Some? then FooterBytes(Relocated(s).footer.value) else []);
  }

  // What the parser finds in `b`, part by part.
  ghost predicate SectionsRead(b: Bytes, s: Shard) {
    && |b| >= SectionsSize(s) >= HEADER_SIZE
    && HashAt(b, 0) == s.header.tag
    && U64At(b, HASH_LEN) == s.header.version && U64At(b, HASH_LEN + 8) == s.header.footerSize
    && FilesAt(b, HEADER_SIZE, []) == Files(s.files, HEADER_SIZE + FilesSize(s.files, 0))
    && BlocksAt(b, HEADER_SIZE + FilesSize(s.files, 0), []) == Blocks(s.blocks, SectionsSize(s))
  }

  ghost predicate FooterRead(b: Bytes, s: Shard)
    requires SectionsSize(s) < U64_LIMIT
  {
    s.footer.Some? ==> |b| >= SectionsSize(s) && FooterAt(b, SectionsSize(s)) == AFooter(Relocated(s).footer.value, |b|)
  }

  lemma {:induction false} ShardReads(b: Bytes, s: Shard)
    requires WellFormed(s) && |b| == ShardSize(s) <= MAX_SHARD_BYTES && SectionsSize(s) < U64_LIMIT
    requires SectionsRead(b, s) && FooterRead(b, s)
    ensures ParsedShard(b) == AShard(Relocated(s), |b|)
  {
  }

  lemma {:induction false} HeaderPart(b: Bytes, s: Shard)
    requires Occurs(b, 0, SectionsBytes(s))
    ensures |b| >= SectionsSize(s) >= HEADER_SIZE && HashAt(b, 0) == s.header.tag
    ensures U64At(b, HASH_LEN) == s.header.version && U64At(b, HASH_LEN + 8) == s.header.footerSize
  {
    HeaderOccurs(b, s);
    HeaderReads(b, 0, s.header);
  }

  lemma {:induction false} FilesPart(b: Bytes, s: Shard)
    requires forall k :: 0 <= k < |s.files| ==> WellFormedFile(s.files[k])
    requires |b| <= MAX_SHARD_BYTES && Occurs(b, 0, SectionsBytes(s))
    ensures HEADER_SIZE + FilesSize(s.files, 0) <= |b|
    ensures FilesAt(b, HEADER_SIZE, []) == Files(s.files, HEADER_SIZE + FilesSize(s.files, 0))
  {
    FilesOccur(b, s);
    FileSectionReads(b, HEADER_SIZE, s.files);
  }

  lemma {:induction false} BlocksPart(b: Bytes, s: Shard, pos: nat)
    requires forall k :: 0 <= k < |s.blocks| ==> !IsBookend(s.blocks[k].xorb)
    requires pos == HEADER_SIZE + FilesSize(s.files, 0)
    requires |b| <= MAX_SHARD_BYTES && Occurs(b, 0, SectionsBytes(s))
    ensures pos + BlocksSize(s.blocks, 0) <= |b| &&
        BlocksAt(b, pos, []) == Blocks(s.blocks, pos + BlocksSize(s.blocks, 0))
  {
    BlocksOccur(b, s);
    BlockSectionReads(b, pos, s.blocks);
  }

  lemma {:induction false} FooterPart(b: Bytes, s: Shard)
    requires WellFormed(s) && SectionsSize(s) < U64_LIMIT && s.footer.Some? && |b| == ShardSize(s)
    requires Occurs(b, SectionsSize(s), FooterBytes(Relocated(s).footer.value))
    ensures FooterAt(b, SectionsSize(s)) == AFooter(Relocated(s).footer.value, |b|)
  {
    FooterReads(b, SectionsSize(s), Relocated(s).footer.value);
  }

  lemma {:induction false} SectionsPart(b: Bytes, s: Shard)
    requires WellFormed(s) && |b| <= MAX_SHARD_BYTES && Occurs(b, 0, SectionsBytes(s))
    ensures SectionsRead(b, s)
  {
    var afterFiles := HEADER_SIZE + FilesSize(s.files, 0);
    HeaderPart(b, s);
    assert FilesAt(b, HEADER_SIZE, []) == Files(s.files, afterFiles) by {
      FilesPart(b, s);
    }
    assert afterFiles <= |b| && BlocksAt(b, afterFiles, []) == Blocks(s.blocks, SectionsSize(s)) by {
      BlocksPart(b, s, afterFiles);
    }
  }

  lemma {:induction false} WrittenReads(b: Bytes, s: Shard)
    requires WellFormed(s) && SectionsSize(s) < U64_LIMIT && |b| == ShardSize(s) <= MAX_SHARD_BYTES
    requires b == ShardBytes(s)
    ensures SectionsRead(b, s) && FooterRead(b, s)
  {
    OccursWhole(b);
    ShardOccurs(b, s);
    SectionsPart(b, s);
    if s.footer.Some? {
      FooterPart(b, s);
    }
  }

  // For every well-formed shard of at most 64 MiB: parsing what was written gives the shard back,
  // but for the offsets in the footer, which now are those of the written sections.
  lemma {:induction false} ShardRoundTrip(s: Shard)
    requires WellFormed(s) && ShardSize(s) <= MAX_SHARD_BYTES
    ensures ParsedShard(ShardBytes(s)) == AShard(Relocated(s), ShardSize(s))
  {
    WrittenReads(ShardBytes(s), s);
    ShardReads(ShardBytes(s), s);
  }

  // Files are read from the first offset of the footer, blocks from the second, and the last one is
  // where the footer stands itself.
  ghost predicate PointsHome(b: Bytes, pos: nat, files: seq<ParsedFile>, blocks: seq<CasBlock>) {
    && 48 <= pos && pos + 200 == |b|
    && ReadLE(b, pos + 8, 8) == 48 <= ReadLE(b, pos + 16, 8) <= ReadLE(b, pos + 192, 8) == pos
    && FilesAt(b, 48, []) == Files(files, ReadLE(b, pos + 16, 8))
    && BlocksAt(b, ReadLE(b, pos + 16, 8), []) == Blocks(blocks, pos)
  }

  lemma {:induction false} FooterNumbers(b: Bytes, pos: nat)
    requires pos <= |b| && FooterAt(b, pos).AFooter?
    ensures pos + 200 <= |b| && ReadLE(b, pos + 8, 8) == FooterAt(b, pos).footer.fileInfoOffset
    ensures ReadLE(b, pos + 16, 8) == FooterAt(b, pos).footer.casInfoOffset
    ensures ReadLE(b, pos + 192, 8) == FooterAt(b, pos).footer.footerOffset
  {
  }

  lemma {:induction false} ReadPointsHome(b: Bytes, s: Shard)
    requires SectionsSize(s) < U64_LIMIT && s.footer.Some? && |b| == ShardSize(s)
    requires SectionsRead(b, s) && FooterRead(b, s)
    ensures PointsHome(b, SectionsSize(s), s.files, s.blocks)
  {
    FooterNumbers(b, SectionsSize(s));
  }

  // Said of bytes: the written footer says where the sections are.
  lemma {:induction false} FooterPointsHome(s: Shard, b: Bytes)
    requires WellFormed(s) && ShardSize(s) <= MAX_SHARD_BYTES && s.footer.Some? && b == ShardBytes(s)
    ensures |b| >= 200 && PointsHome(b, |b| - 200, s.files, s.blocks)
  {
    WrittenReads(b, s);
    ReadPointsHome(b, s);
  }

  // ---- Writing back what was read ----

  lemma {:induction false} FileWritesBack(b: Bytes, pos: nat)
    requires pos <= |b| <= MAX_SHARD_BYTES && FileAt(b, pos).AFile?
    ensures var f := FileAt(b, pos).file;
            && WellFormedFile(f) && FileSize(f) == FileAt(b, pos).next - pos
            && ENTRY_SIZE * |f.entries| <= |b|
  {
  }

  // `files` came first in `fs`; what follows is well-formed and takes `size` bytes.
  ghost predicate Continues(fs: seq<ParsedFile>, files: seq<ParsedFile>, limit: nat, size: int) {
    && |files| <= |fs| && fs[..|files|] == files
    && (forall k :: |files| <= k < |fs| ==> WellFormedFile(fs[k]) && ENTRY_SIZE * |fs[k].entries| <= limit)
    && FilesSize(fs, |files|) == size
  }

  lemma {:induction false} ContinuesBefore(fs: seq<ParsedFile>, files: seq<ParsedFile>, f: ParsedFile, limit: nat,
          size: int)
    requires Continues(fs, files + [f], limit, size) && WellFormedFile(f) && ENTRY_SIZE * |f.entries| <= limit
    ensures Continues(fs, files, limit, FileSize(f) + size)
  {
    assert fs[..|files|] == fs[..|files| + 1][..|files|];
    assert fs[|files|] == fs[..|files| + 1][|files|];
  }

  lemma {:induction false} FilesWriteBack(b: Bytes, pos: nat, files: seq<ParsedFile>)
    requires pos <= |b| <= MAX_SHARD_BYTES && FilesAt(b, pos, files).Files?
    ensures Continues(FilesAt(b, pos, files).files, files, |b|, FilesAt(b, pos, files).next - pos)
    decreases |b| - pos
  {
    var r := FilesAt(b, pos, files);
    if FileAt(b, pos).AFile? {
      var f, next := FileAt(b, pos).file, FileAt(b, pos).next;
      FileWritesBack(b, pos);
      FilesWriteBack(b, next, files + [f]);
      ContinuesBefore(r.files, files, f, |b|, r.next - next);
    }
  }

  lemma {:induction false} BlocksWriteBack(b: Bytes, pos: nat, blocks: seq<CasBlock>)
    requires pos <= |b| <= MAX_SHARD_BYTES && BlocksAt(b, pos, blocks).Blocks?
    ensures var bs := BlocksAt(b, pos, blocks).blocks;
            && |blocks| <= |bs| && bs[..|blocks|] == blocks
            && (forall k :: |blocks| <= k < |bs| ==> !IsBookend(bs[k].xorb))
            && BlocksSize(bs, |blocks|) == BlocksAt(b, pos, blocks).next - pos
    decreases |b| - pos
  {
    if BlockAt(b, pos).ABlock? {
      var block, bs := BlockAt(b, pos).block, BlocksAt(b, pos, blocks).blocks;
      BlocksWriteBack(b, BlockAt(b, pos).next, blocks + [block]);
      assert bs[..|blocks|] == bs[..|blocks| + 1][..|blocks|];
      assert bs[|blocks|] == bs[..|blocks| + 1][|blocks|];
    }
  }

  // For all bytes that parse: writing the result takes exactly as many bytes as the parser read,
  // and they parse to the same shard, but for the offsets in the footer.
  lemma {:induction false} ParsedWritesBack(b: Bytes)
    requires ParsedShard(b).AShard?
    ensures var s := ParsedShard(b).shard;
            && WellFormed(s) && ShardSize(s) == ParsedShard(b).consumed
            && ParsedShard(ShardBytes(s)) == AShard(Relocated(s), ParsedShard(b).consumed)
  {
    var s := ParsedShard(b).shard;
    FilesWriteBack(b, HEADER_SIZE, []);
    BlocksWriteBack(b, FilesAt(b, HEADER_SIZE, []).next, []);
    ShardRoundTrip(s);
  }

  // ---- Sizes ----

  function TermTotal(ts: seq<Term>): nat {
    if ts == [] then 0 else ts[0].unpackedBytes + TermTotal(ts[1..])
  }

  lemma {:induction false} TermTotalBound(ts: seq<Term>)
    ensures TermTotal(ts) <= |ts| * U32_LIMIT
  {
    if ts != [] {
      TermTotalBound(ts[1..]);
    }
  }

  // The total of a parsed file's terms fits in i64, so casting it for the database loses nothing.
  lemma {:induction false} ParsedTotalsFit(b: Bytes, i: nat)
    requires ParsedShard(b).AShard? && i < |ParsedShard(b).shard.files|
    ensures TermTotal(ParsedShard(b).shard.files[i].entries) < 0x8000_0000_0000_0000
  {
    FilesWriteBack(b, HEADER_SIZE, []);
    TermTotalBound(ParsedShard(b).shard.files[i].entries);
  }
}
