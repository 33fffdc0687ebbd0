// The shard format by byte offsets: where each field of a parsed shard stands in the input.
module ShardLayout {
  import opened Wrappers
  import opened Bytes
  import opened ShardFormat

  // A little-endian number of `n` bytes.
  predicate NumberAt(s: Bytes, pos: nat, n: nat, x: nat) {
    pos + n <= |s| && ReadLE(s, pos, n) == x
  }

  lemma {:induction false} HashIsSlice(s: Bytes, pos: nat)
    requires pos + 32 <= |s|
    ensures HashAt(s, pos) == s[pos..pos + 32]
  {
  }

  predicate TermStands(s: Bytes, pos: nat, t: Term) {
    && pos + 48 <= |s| && t.xorb == s[pos..pos + 32]
    && NumberAt(s, pos + 32, 4, t.casFlags) && NumberAt(s, pos + 36, 4, t.unpackedBytes)
    && NumberAt(s, pos + 40, 4, t.chunkStart) && NumberAt(s, pos + 44, 4, t.chunkEnd)
  }

  predicate ChunkStands(s: Bytes, pos: nat, c: ChunkEntry) {
    && pos + 48 <= |s| && c.hash == s[pos..pos + 32]
    && NumberAt(s, pos + 32, 4, c.byteStart) && NumberAt(s, pos + 36, 4, c.unpackedBytes)
  }

  ghost predicate AllOnes(s: Bytes, pos: nat) {
    pos + 32 <= |s| && forall k :: pos <= k < pos + 32 ==> s[k] == 0xFF
  }

  lemma {:induction false} BookendIsOnes(s: Bytes, pos: nat)
    requires pos + 32 <= |s|
    ensures IsBookend(HashAt(s, pos)) <==> AllOnes(s, pos)
  {
    if IsBookend(HashAt(s, pos)) {
      forall k | pos <= k < pos + 32 ensures s[k] == 0xFF {
        assert HashAt(s, pos)[k - pos] == s[k];
      }
    }
  }

  // The two highest bits.
  lemma {:induction false} FlagBits(flags: u32)
    ensures HasVerification(flags) <==> flags >= 0x8000_0000
    ensures HasMetadataExt(flags) <==> flags % 0x8000_0000 >= 0x4000_0000
  {
  }

  // ---- A file section ----

  ghost predicate HeadStands(s: Bytes, pos: nat, f: ParsedFile) {
    && pos + 48 <= |s| && f.hash == s[pos..pos + 32] && !AllOnes(s, pos)
    && NumberAt(s, pos + 32, 4, f.flags) && NumberAt(s, pos + 36, 4, |f.entries|)
  }

  ghost predicate TermsStand(s: Bytes, pos: nat, terms: seq<Term>) {
    && pos + 48 * |terms| <= |s|
    && forall i :: 0 <= i < |terms| ==> TermStands(s, pos + 48 * i, terms[i])
  }

  ghost predicate HashesStand(s: Bytes, pos: nat, hashes: seq<Hash32>) {
    && pos + 48 * |hashes| <= |s|
    && forall i :: 0 <= i < |hashes| ==> hashes[i] == s[pos + 48 * i..pos + 48 * i + 32]
  }

  // Each 8-byte group is stored in reverse.
  ghost predicate DigestStands(s: Bytes, pos: nat, digest: Hash32) {
    && pos + 48 <= |s|
    && var stored := s[pos..pos + 32];
       forall k, l :: 0 <= k < 32 && 0 <= l < 32 && k / 8 == l / 8 && k % 8 + l % 8 == 7 ==> digest[k] == stored[l]
  }

  // As many verifications as terms if the highest flag is set, and the digest if the second highest is.
  ghost predicate TailStands(s: Bytes, pos: nat, f: ParsedFile, next: nat) {
    var digest := pos + 48 * |f.verifications|;
    && HashesStand(s, pos, f.verifications)
    && |f.verifications| == (if f.flags >= 0x8000_0000 then |f.entries| else 0)
    && (f.sha256.Some? <==> f.flags % 0x8000_0000 >= 0x4000_0000)
    && (f.sha256.Some? ==> DigestStands(s, digest, f.sha256.value))
    && next == digest + if f.sha256.Some? then 48 else 0
  }

  ghost predicate FileStands(s: Bytes, pos: nat, f: ParsedFile, next: nat) {
    && HeadStands(s, pos, f) && TermsStand(s, pos + 48, f.entries)
    && TailStands(s, pos + 48 + 48 * |f.entries|, f, next)
  }

  lemma {:induction false} TermsAtStand(s: Bytes, pos: nat, n: nat)
    requires pos + ENTRY_SIZE * n <= |s|
    ensures TermsStand(s, pos, TermsAt(s, pos, n))
  {
    forall i | 0 <= i < n ensures TermStands(s, pos + 48 * i, TermsAt(s, pos, n)[i]) {
      HashIsSlice(s, pos + 48 * i);
    }
  }

  lemma {:induction false} HashesAtStand(s: Bytes, pos: nat, n: nat)
    requires pos + ENTRY_SIZE * n <= |s|
    ensures HashesStand(s, pos, HashesAt(s, pos, n))
  {
    forall i | 0 <= i < n ensures HashesAt(s, pos, n)[i] == s[pos + 48 * i..pos + 48 * i + 32] {
      HashIsSlice(s, pos + 48 * i);
    }
  }

  lemma {:induction false} DigestAtStands(s: Bytes, pos: nat)
    requires pos + ENTRY_SIZE <= |s|
    ensures DigestStands(s, pos, Swapped(EntryAt(s, pos).hash))
  {
    HashIsSlice(s, pos);
  }

  lemma {:induction false} FileTailIsThere(s: Bytes, pos: nat, f: ParsedFile, checks: nat)
    requires pos <= |s| && f.sha256 == None && FileTailAt(s, pos, f).AFile?
    requires checks + 48 * |f.verifications| == pos && HashesStand(s, checks, f.verifications)
    requires |f.verifications| == if HasVerification(f.flags) then |f.entries| else 0
    ensures TailStands(s, checks, FileTailAt(s, pos, f).file, FileTailAt(s, pos, f).next)
  {
    FlagBits(f.flags);
    if HasMetadataExt(f.flags) {
      DigestAtStands(s, pos);
    }
  }

  lemma {:induction false} FileBodyIsThere(s: Bytes, pos: nat, hash: Hash32, flags: u32, n: u32)
    requires pos <= |s| && FileBodyAt(s, pos, hash, flags, n).AFile?
    ensures var r := FileBodyAt(s, pos, hash, flags, n);
            && r.file.hash == hash && r.file.flags == flags && |r.file.entries| == n
            && TermsStand(s, pos, r.file.entries) && TailStands(s, pos + 48 * n, r.file, r.next)
  {
    var checks: nat := if HasVerification(flags) then n else 0;
    var afterTerms := pos + 48 * n;
    TermsAtStand(s, pos, n);
    HashesAtStand(s, afterTerms, checks);
    var f := ParsedFile(hash, flags, TermsAt(s, pos, n), HashesAt(s, afterTerms, checks), None);
    FileTailIsThere(s, afterTerms + 48 * checks, f, afterTerms);
  }

  // What is parsed as a file stands there, field by field, and takes exactly these bytes.
  lemma {:induction false} FileIsThere(s: Bytes, pos: nat)
    requires pos <= |s| && FileAt(s, pos).AFile?
    ensures FileStands(s, pos, FileAt(s, pos).file, FileAt(s, pos).next)
  {
    var head := EntryAt(s, pos);
    HashIsSlice(s, pos);
    BookendIsOnes(s, pos);
    FileBodyIsThere(s, pos + 48, head.hash, head.a, head.b);
  }

  // ---- A xorb block ----

  ghost predicate BlockStands(s: Bytes, pos: nat, b: CasBlock, next: nat) {
    && pos + 48 <= |s| && b.xorb == s[pos..pos + 32] && !AllOnes(s, pos)
    && NumberAt(s, pos + 32, 4, b.casFlags) && NumberAt(s, pos + 36, 4, |b.chunks|)
    && NumberAt(s, pos + 40, 4, b.bytesInCas) && NumberAt(s, pos + 44, 4, b.bytesOnDisk)
    && next == pos + 48 + 48 * |b.chunks| <= |s|
    && forall i :: 0 <= i < |b.chunks| ==> ChunkStands(s, pos + 48 + 48 * i, b.chunks[i])
  }

  lemma {:induction false} BlockIsThere(s: Bytes, pos: nat)
    requires pos <= |s| && BlockAt(s, pos).ABlock?
    ensures BlockStands(s, pos, BlockAt(s, pos).block, BlockAt(s, pos).next)
  {
    var b := BlockAt(s, pos).block;
    HashIsSlice(s, pos);
    BookendIsOnes(s, pos);
    forall i | 0 <= i < |b.chunks| ensures ChunkStands(s, pos + 48 + 48 * i, b.chunks[i]) {
      HashIsSlice(s, pos + 48 + 48 * i);
    }
  }

  // ---- The sections, one behind the other ----

  // The files from the `i`th on, then a bookend that ends at `end`.
  ghost predicate FilesStand(s: Bytes, pos: nat, files: seq<ParsedFile>, i: nat, end: nat)
    requires i <= |files|
    decreases |files| - i
  {
    if i == |files| then AllOnes(s, pos) && end == pos + 48 <= |s|
    else exists next :: FileStands(s, pos, files[i], next) && FilesStand(s, next, files, i + 1, end)
  }

  ghost predicate BlocksStand(s: Bytes, pos: nat, blocks: seq<CasBlock>, i: nat, end: nat)
    requires i <= |blocks|
    decreases |blocks| - i
  {
    if i == |blocks| then AllOnes(s, pos) && end == pos + 48 <= |s|
    else exists next :: BlockStands(s, pos, blocks[i], next) && BlocksStand(s, next, blocks, i + 1, end)
  }

  lemma {:induction false} FilesGrow(s: Bytes, pos: nat, files: seq<ParsedFile>)
    requires pos <= |s| && FilesAt(s, pos, files).Files?
    ensures |files| <= |FilesAt(s, pos, files).files| && FilesAt(s, pos, files).files[..|files|] == files
    decreases |s| - pos
  {
    var r := FileAt(s, pos);
    if r.AFile? {
      FilesGrow(s, r.next, files + [r.file]);
      assert (files + [r.file])[..|files|] == files;
    }
  }

  lemma {:induction false} FilesAreThere(s: Bytes, pos: nat, files: seq<ParsedFile>)
    requires pos <= |s| && FilesAt(s, pos, files).Files?
    ensures |files| <= |FilesAt(s, pos, files).files|
    ensures FilesStand(s, pos, FilesAt(s, pos, files).files, |files|, FilesAt(s, pos, files).next)
    decreases |s| - pos
  {
    var r := FileAt(s, pos);
    if r.AFile? {
      FileIsThere(s, pos);
      FilesGrow(s, r.next, files + [r.file]);
      FilesAreThere(s, r.next, files + [r.file]);
      assert FilesAt(s, pos, files).files[..|files| + 1][|files|] == r.file;
    } else {
      BookendIsOnes(s, pos);
    }
  }

  lemma {:induction false} BlocksGrow(s: Bytes, pos: nat, blocks: seq<CasBlock>)
    requires pos <= |s| && BlocksAt(s, pos, blocks).Blocks?
    ensures |blocks| <= |BlocksAt(s, pos, blocks).blocks| && BlocksAt(s, pos, blocks).blocks[..|blocks|] == blocks
    decreases |s| - pos
  {
    var r := BlockAt(s, pos);
    if r.ABlock? {
      BlocksGrow(s, r.next, blocks + [r.block]);
      assert (blocks + [r.block])[..|blocks|] == blocks;
    }
  }

  lemma {:induction false} BlocksAreThere(s: Bytes, pos: nat, blocks: seq<CasBlock>)
    requires pos <= |s| && BlocksAt(s, pos, blocks).Blocks?
    ensures |blocks| <= |BlocksAt(s, pos, blocks).blocks|
    ensures BlocksStand(s, pos, BlocksAt(s, pos, blocks).blocks, |blocks|, BlocksAt(s, pos, blocks).next)
    decreases |s| - pos
  {
    var r := BlockAt(s, pos);
    if r.ABlock? {
      BlockIsThere(s, pos);
      BlocksGrow(s, r.next, blocks + [r.block]);
      BlocksAreThere(s, r.next, blocks + [r.block]);
      assert BlocksAt(s, pos, blocks).blocks[..|blocks| + 1][|blocks|] == r.block;
    } else {
      BookendIsOnes(s, pos);
    }
  }

  predicate FooterStands(s: Bytes, pos: nat, f: Footer) {
    && pos + 200 <= |s| && f.version == 1 && NumberAt(s, pos, 8, 1)
    && NumberAt(s, pos + 8, 8, f.fileInfoOffset) && NumberAt(s, pos + 16, 8, f.casInfoOffset)
    && f.hmacKey == s[pos + 72..pos + 104]
    && NumberAt(s, pos + 104, 8, f.created) && NumberAt(s, pos + 112, 8, f.keyExpiry)
    && NumberAt(s, pos + 192, 8, f.footerOffset) && f.footerOffset <= |s|
  }

  lemma {:induction false} FooterIsThere(s: Bytes, pos: nat)
    requires pos <= |s| && FooterAt(s, pos).AFooter?
    ensures FooterStands(s, pos, FooterAt(s, pos).footer)
  {
    HashIsSlice(s, pos + 72);
  }

  // Header, files, blocks, and a footer exactly if the header announces 200 bytes of it.
  ghost predicate ShardStands(s: Bytes, shard: Shard, consumed: nat) {
    && 48 <= |s| <= 0x400_0000
    && shard.header.tag == s[0..32] && shard.header.version == 2 && NumberAt(s, 32, 8, 2)
    && NumberAt(s, 40, 8, shard.header.footerSize)
    && exists blocks: nat, end: nat ::
         && FilesStand(s, 48, shard.files, 0, blocks) && BlocksStand(s, blocks, shard.blocks, 0, end)
         && (shard.footer.Some? <==> shard.header.footerSize == 200)
         && (shard.footer.Some? ==> FooterStands(s, end, shard.footer.value))
         && consumed == end + if shard.footer.Some? then 200 else 0
  }

  // Whatever parses stands in the input, every field at its offset.
  lemma {:induction false} ShardIsThere(s: Bytes)
    requires ParsedShard(s).AShard?
    ensures ShardStands(s, ParsedShard(s).shard, ParsedShard(s).consumed)
  {
    var shard := ParsedShard(s).shard;
    var files := FilesAt(s, 48, []);
    var blocks := BlocksAt(s, files.next, []);
    HashIsSlice(s, 0);
    FilesAreThere(s, 48, []);
    BlocksAreThere(s, files.next, []);
    if shard.footer.Some? {
      FooterIsThere(s, blocks.next);
    }
  }
}
