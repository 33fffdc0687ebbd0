// The metadata tables: registering files, looking them up, and accounting for stored bytes.
//
// The rows of `file_terms` are grouped by file: module WriteOnce shows that what is stored for a
// hash is one registered list.
module MetadataStore {
  import opened Wrappers
  import opened Bytes
  import opened Sums
  import opened FileTerms
  import Reconstruction

  datatype FileKey = FileKey(hash: FileHash, repo: string)

  datatype FileRow = FileRow(totalBytes: int, owner: string)

  // `xorbs` holds the bytes on disk of every registered xorb.
  datatype Tables = Tables(files: map<FileKey, FileRow>, terms: map<FileHash, seq<FileTerm>>, xorbs: map<XorbHash, nat>)

  const EMPTY: Tables := Tables(map[], map[], map[])

  // The part of a repo id before the first slash, or all of it.
  function Owner(repo: string): string {
    if repo == [] || repo[0] == '/' then [] else [repo[0]] + Owner(repo[1..])
  }

  const I64_LIMIT: nat := 0x8000_0000_0000_0000

  // A u64 sum, which wraps, cast to i64.
  function AsI64(n: nat): (i: int)
    ensures -0x8000_0000_0000_0000 <= i < 0x8000_0000_0000_0000 && (n - i) % 0x1_0000_0000_0000_0000 == 0
  {
    var low := n % U64_LIMIT;
    if low < I64_LIMIT then low else low - U64_LIMIT
  }

  // ---- Writing ----

  function WithFile(t: Tables, repo: string, r: Registration): Tables {
    t.(files := t.files[FileKey(r.hash, repo) := FileRow(AsI64(SizeOf(r.terms)), Owner(repo))],
       terms := WithList(t.terms, r))
  }

  function WithFiles(t: Tables, repo: string, files: seq<Registration>): Tables {
    if files == [] then t
    else WithFile(WithFiles(t, repo, files[..|files| - 1]), repo, files[|files| - 1])
  }

  datatype XorbInfo = XorbInfo(xorb: XorbHash, bytesOnDisk: nat)

  // `INSERT OR IGNORE`.
  function WithXorbs(t: Tables, infos: seq<XorbInfo>): Tables {
    if infos == [] then t
    else
      var before, last := WithXorbs(t, infos[..|infos| - 1]), infos[|infos| - 1];
      if last.xorb in before.xorbs then before else before.(xorbs := before.xorbs[last.xorb := last.bytesOnDisk])
  }

  predicate IsFirst(infos: seq<XorbInfo>, i: nat)
    requires i < |infos|
  {
    forall j :: 0 <= j < i ==> infos[j].xorb != infos[i].xorb
  }

  // A xorb that is recorded keeps its size, a new one gets the size of its first entry, and no other
  // is recorded.
  ghost predicate FirstSizesStay(before: map<XorbHash, nat>, infos: seq<XorbInfo>, after: map<XorbHash, nat>) {
    && (forall x :: x in before ==> x in after && after[x] == before[x])
    && (forall x :: x in after && x !in before ==> exists i :: 0 <= i < |infos| && infos[i].xorb == x)
    && (forall i :: 0 <= i < |infos| ==> infos[i].xorb in after)
    && (forall i :: 0 <= i < |infos| && IsFirst(infos, i) && infos[i].xorb !in before ==>
          after[infos[i].xorb] == infos[i].bytesOnDisk)
  }

  lemma {:induction false} IsFirstAmongMore(first: seq<XorbInfo>, last: XorbInfo, i: nat)
    requires i < |first|
    ensures IsFirst(first + [last], i) <==> IsFirst(first, i)
  {
    var infos := first + [last];
    if IsFirst(infos, i) {
      forall j | 0 <= j < i ensures first[j].xorb != first[i].xorb {
        assert infos[j].xorb != infos[i].xorb;
      }
    }
  }

  lemma {:induction false} OneMoreInfo(before: map<XorbHash, nat>, first: seq<XorbInfo>, last: XorbInfo,
          middle: map<XorbHash, nat>)
    requires FirstSizesStay(before, first, middle)
    ensures FirstSizesStay(before, first + [last],
                           if last.xorb in middle then middle else middle[last.xorb := last.bytesOnDisk])
  {
    var infos, n := first + [last], |first|;
    var after := if last.xorb in middle then middle else middle[last.xorb := last.bytesOnDisk];
    forall x | x in after && x !in before ensures exists i :: 0 <= i < |infos| && infos[i].xorb == x {
      if x in middle {
        var i :| 0 <= i < n && first[i].xorb == x;
        assert infos[i].xorb == x;
      } else {
        assert infos[n].xorb == x;
      }
    }
    if last.xorb in middle && last.xorb !in before {
      var j :| 0 <= j < n && first[j].xorb == last.xorb;
      assert infos[j].xorb == infos[n].xorb && !IsFirst(infos, n);
    }
    forall i | 0 <= i < |infos| && IsFirst(infos, i) && infos[i].xorb !in before
      ensures after[infos[i].xorb] == infos[i].bytesOnDisk
    {
      if i < n {
        IsFirstAmongMore(first, last, i);
      }
    }
  }

  lemma {:induction false} XorbsAreFirst(t: Tables, infos: seq<XorbInfo>)
    ensures FirstSizesStay(t.xorbs, infos, WithXorbs(t, infos).xorbs)
  {
    if infos != [] {
      var n := |infos| - 1;
      XorbsAreFirst(t, infos[..n]);
      OneMoreInfo(t.xorbs, infos[..n], infos[n], WithXorbs(t, infos[..n]).xorbs);
      assert infos[..n] + [infos[n]] == infos;
    }
  }

  // ---- Accounting ----

  // The xorbs of the files of these rows.
  function Referenced(t: Tables, keys: set<FileKey>): set<XorbHash> {
    set k, i | k in keys && k.hash in t.terms && 0 <= i < |t.terms[k.hash]| :: t.terms[k.hash][i].xorb
  }

  function OwnerRows(t: Tables, owner: string): set<FileKey> {
    set k | k in t.files && t.files[k].owner == owner
  }

  function RepoRows(t: Tables, repo: string): set<FileKey> {
    set k | k in t.files && k.repo == repo
  }

  function SiblingRows(t: Tables, owner: string, repo: string): set<FileKey> {
    set k | k in t.files && t.files[k].owner == owner && k.repo != repo
  }

  ghost function StoredForOwner(t: Tables, owner: string): nat {
    Total(Referenced(t, OwnerRows(t, owner)), t.xorbs)
  }

  ghost function StoredForRepo(t: Tables, repo: string): nat {
    Total(Referenced(t, RepoRows(t, repo)), t.xorbs)
  }

  ghost function ExclusiveForRepo(t: Tables, repo: string): nat {
    Total(Referenced(t, RepoRows(t, repo)) - Referenced(t, SiblingRows(t, Owner(repo), repo)), t.xorbs)
  }

  ghost function Unaccounted(t: Tables, owner: string, candidates: set<XorbHash>): nat {
    Total(candidates - Referenced(t, OwnerRows(t, owner)), t.xorbs)
  }

  function WithoutRepo(t: Tables, repo: string): Tables {
    t.(files := t.files - RepoRows(t, repo))
  }

  // Kept by every write: the owner of a row is the prefix of its repo id.
  ghost predicate OwnersArePrefixes(t: Tables) {
    forall k :: k in t.files ==> t.files[k].owner == Owner(k.repo)
  }

  lemma {:induction false} WritesKeepOwners(t: Tables, repo: string, files: seq<Registration>)
    requires OwnersArePrefixes(t)
    ensures OwnersArePrefixes(WithFiles(t, repo, files))
  {
    if files != [] {
      WritesKeepOwners(t, repo, files[..|files| - 1]);
    }
  }

  // The exclusive bytes of a repo are exactly what its owner's stored bytes drop by when the
  // repo's file rows go, and never more than the repo stores.
  lemma {:induction false} ExclusiveIsTheDrop(t: Tables, repo: string)
    requires OwnersArePrefixes(t)
    ensures StoredForOwner(t, Owner(repo)) - StoredForOwner(WithoutRepo(t, repo), Owner(repo)) ==
        ExclusiveForRepo(t, repo)
    ensures ExclusiveForRepo(t, repo) <= StoredForRepo(t, repo)
  {
    var owner, t' := Owner(repo), WithoutRepo(t, repo);
    var mine, siblings := Referenced(t, RepoRows(t, repo)), Referenced(t, SiblingRows(t, owner, repo));
    assert OwnerRows(t', owner) == SiblingRows(t, owner, repo);
    assert Referenced(t', OwnerRows(t', owner)) == siblings;
    assert OwnerRows(t, owner) == SiblingRows(t, owner, repo) + RepoRows(t, repo);
    ReferencedUnion(t, SiblingRows(t, owner, repo), RepoRows(t, repo));
    assert siblings + mine == siblings + (mine - siblings);
    TotalUnion(siblings, mine - siblings, t.xorbs);
    TotalSubset(mine - siblings, mine, t.xorbs);
  }

  lemma {:induction false} ReferencedUnion(t: Tables, a: set<FileKey>, b: set<FileKey>)
    ensures Referenced(t, a + b) == Referenced(t, a) + Referenced(t, b)
  {
    forall x | x in Referenced(t, a + b) ensures x in Referenced(t, a) + Referenced(t, b) {
      var k, i :| k in a + b && k.hash in t.terms && 0 <= i < |t.terms[k.hash]| && t.terms[k.hash][i].xorb == x;
      assert k in a || k in b;
    }
  }

  // ---- Quota ----

  // The xorbs the terms of a shard mention.
  function Candidates(files: seq<Registration>): set<XorbHash> {
    if files == [] then {} else Candidates(files[..|files| - 1]) + XorbsOf(files[|files| - 1].terms)
  }

  lemma {:induction false} FilesOnly(t: Tables, repo: string, files: seq<Registration>)
    ensures WithFiles(t, repo, files).terms == WithLists(t.terms, files) && WithFiles(t, repo, files).xorbs == t.xorbs
  {
    if files != [] {
      FilesOnly(t, repo, files[..|files| - 1]);
    }
  }

  // The xorbs of the lists that will stand for the shard's files: the list already stored for a
  // hash, else the first one the shard sends that is not empty.
  function Effective(terms: map<FileHash, seq<FileTerm>>, files: seq<Registration>): set<XorbHash> {
    var after := WithLists(terms, files);
    set i, j | 0 <= i < |files| && files[i].hash in after && 0 <= j < |after[files[i].hash]| ::
        after[files[i].hash][j].xorb
  }

  lemma {:induction false} RowsAdded(t: Tables, repo: string, files: seq<Registration>, k: FileKey)
    requires OwnersArePrefixes(t)
    ensures k in OwnerRows(WithFiles(t, repo, files), Owner(repo)) <==>
            || k in OwnerRows(t, Owner(repo))
            || (k.repo == repo && exists i :: 0 <= i < |files| && files[i].hash == k.hash)
  {
    if files != [] {
      var n := |files| - 1;
      var first := files[..n];
      RowsAdded(t, repo, first, k);
      WritesKeepOwners(t, repo, first);
      forall i | 0 <= i < n ensures first[i] == files[i] {
      }
      if i :| 0 <= i < n && first[i].hash == k.hash {
        assert files[i].hash == k.hash;
      }
    }
  }

  // A xorb that the owner's rows refer to afterwards was referred to before, or is in a list that
  // stands for a file of the shard.
  lemma {:induction false} UsedWasThereOrSent(t: Tables, repo: string, files: seq<Registration>, x: XorbHash)
    requires OwnersArePrefixes(t)
    requires var t' := WithFiles(t, repo, files); x in Referenced(t', OwnerRows(t', Owner(repo)))
    ensures x in Referenced(t, OwnerRows(t, Owner(repo))) || x in Effective(t.terms, files)
  {
    var t' := WithFiles(t, repo, files);
    FilesOnly(t, repo, files);
    var k, j :| k in OwnerRows(t', Owner(repo)) && k.hash in t'.terms && 0 <= j < |t'.terms[k.hash]| &&
        t'.terms[k.hash][j].xorb == x;
    RowsAdded(t, repo, files, k);
    ListsComeFrom(t.terms, files, k.hash);
    if i :| 0 <= i < |files| && files[i].hash == k.hash {
      assert t'.terms[files[i].hash][j].xorb in Effective(t.terms, files);
    } else {
      assert t.terms[k.hash][j].xorb == x;
    }
  }

  lemma {:induction false} ThereOrSentIsUsed(t: Tables, repo: string, files: seq<Registration>, x: XorbHash)
    requires OwnersArePrefixes(t)
    requires x in Referenced(t, OwnerRows(t, Owner(repo))) || x in Effective(t.terms, files)
    ensures var t' := WithFiles(t, repo, files); x in Referenced(t', OwnerRows(t', Owner(repo)))
  {
    var t' := WithFiles(t, repo, files);
    FilesOnly(t, repo, files);
    if x in Effective(t.terms, files) {
      var i, j :| 0 <= i < |files| && files[i].hash in t'.terms && 0 <= j < |t'.terms[files[i].hash]| &&
          t'.terms[files[i].hash][j].xorb == x;
      var k := FileKey(files[i].hash, repo);
      RowsAdded(t, repo, files, k);
      assert t'.terms[k.hash][j].xorb == x;
    } else {
      var k, j :| k in OwnerRows(t, Owner(repo)) && k.hash in t.terms && 0 <= j < |t.terms[k.hash]| &&
          t.terms[k.hash][j].xorb == x;
      RowsAdded(t, repo, files, k);
      ListsComeFrom(t.terms, files, k.hash);
      assert t'.terms[k.hash][j].xorb == x;
    }
  }

  // What registering a shard adds to its owner's stored bytes, whatever lists are there already: the
  // xorbs of the lists that stand for its files, as far as the owner does not refer to them yet.
  lemma {:induction false} StoredAfter(t: Tables, repo: string, files: seq<Registration>)
    requires OwnersArePrefixes(t)
    ensures StoredForOwner(WithFiles(t, repo, files), Owner(repo))
            == StoredForOwner(t, Owner(repo)) + Unaccounted(t, Owner(repo), Effective(t.terms, files))
  {
    var t' := WithFiles(t, repo, files);
    var used, sent := Referenced(t, OwnerRows(t, Owner(repo))), Effective(t.terms, files);
    forall x ensures x in Referenced(t', OwnerRows(t', Owner(repo))) <==> x in used + (sent - used) {
      if x in Referenced(t', OwnerRows(t', Owner(repo))) {
        UsedWasThereOrSent(t, repo, files, x);
      } else if x in used + sent {
        ThereOrSentIsUsed(t, repo, files, x);
      }
    }
    assert Referenced(t', OwnerRows(t', Owner(repo))) == used + (sent - used);
    FilesOnly(t, repo, files);
    TotalUnion(used, sent - used, t.xorbs);
  }

  // What the quota check adds up is what the owner's stored bytes are afterwards exactly if the
  // lists that stand add as many bytes as the lists that were sent.
  lemma {:induction false} ChargeIsExact(t: Tables, repo: string, files: seq<Registration>)
    requires OwnersArePrefixes(t)
    ensures var owner := Owner(repo);
            StoredForOwner(WithFiles(t, repo, files), owner) ==
                StoredForOwner(t, owner) + Unaccounted(t, owner, Candidates(files))
            <==> Unaccounted(t, owner, Effective(t.terms, files)) == Unaccounted(t, owner, Candidates(files))
    ensures OneListEach(t, files) ==> Effective(t.terms, files) == Candidates(files)
  {
    StoredAfter(t, repo, files);
    if OneListEach(t, files) {
      SentListsStand(t, files);
    }
  }

  // No file hash with two different lists, neither stored and in the shard nor twice in the shard.
  ghost predicate OneListEach(t: Tables, files: seq<Registration>) {
    && (forall i :: 0 <= i < |files| && files[i].hash in t.terms ==> t.terms[files[i].hash] == files[i].terms)
    && (forall i, j :: 0 <= i < j < |files| && files[i].hash == files[j].hash ==> files[i].terms == files[j].terms)
  }

  lemma {:induction false} CandidateOf(files: seq<Registration>, x: XorbHash)
    ensures x in Candidates(files) <==>
        exists i, j :: 0 <= i < |files| && 0 <= j < |files[i].terms| && files[i].terms[j].xorb == x
  {
    if files != [] {
      var n := |files| - 1;
      var first := files[..n];
      CandidateOf(first, x);
      forall i | 0 <= i < n ensures first[i] == files[i] {
      }
      if x in Candidates(first) {
        var i, j :| 0 <= i < n && 0 <= j < |first[i].terms| && first[i].terms[j].xorb == x;
        assert files[i].terms[j].xorb == x;
      } else if x in XorbsOf(files[n].terms) {
        var j :| 0 <= j < |files[n].terms| && files[n].terms[j].xorb == x;
        assert files[n].terms[j].xorb == x;
      }
    }
  }

  // With one list each, the list that stands for a file is the one the shard has for it.
  lemma {:induction false} SentListsStand(t: Tables, files: seq<Registration>)
    requires OneListEach(t, files)
    ensures Effective(t.terms, files) == Candidates(files)
  {
    var after := WithLists(t.terms, files);
    forall i | 0 <= i < |files|
      ensures if files[i].hash in after then after[files[i].hash] == files[i].terms else files[i].terms == []
    {
      ListsComeFrom(t.terms, files, files[i].hash);
    }
    forall x ensures x in Effective(t.terms, files) <==> x in Candidates(files) {
      CandidateOf(files, x);
      if x in Candidates(files) {
        var i, j :| 0 <= i < |files| && 0 <= j < |files[i].terms| && files[i].terms[j].xorb == x;
        assert after[files[i].hash][j].xorb == x;
      }
    }
  }

  lemma {:induction false} OneRow(t: Tables, key: FileKey)
    ensures Referenced(t, {key}) == if key.hash in t.terms then XorbsOf(t.terms[key.hash]) else {}
  {
    if key.hash in t.terms {
      var terms := t.terms[key.hash];
      forall x | x in XorbsOf(terms) ensures x in Referenced(t, {key}) {
        var i :| 0 <= i < |terms| && terms[i].xorb == x;
        assert t.terms[key.hash][i].xorb == x;
      }
    }
  }

  const BIG: FileTerm := FileTerm(1, 0, 1, 10, None)
  const SMALL: FileTerm := FileTerm(2, 0, 1, 10, None)

  // Ann stored the file first, in a xorb of 100 bytes. Bob sends it in one of a single byte.
  const ANNS: Tables := Tables(map[FileKey(7, "ann/a") := FileRow(10, "ann")], map[7 := [BIG]], map[1 := 100, 2 := 1])
  const BOBS: Registration := Registration(7, [SMALL])

  lemma {:induction false} BobIsChargedOne()
    ensures StoredForOwner(ANNS, "bob") + Unaccounted(ANNS, "bob", Candidates([BOBS])) == 1
  {
    OneFile(ANNS, "bob/b", BOBS);
    OneXorb(SMALL);
    assert OwnerRows(ANNS, "bob") == {};
    TotalOfOne(2, ANNS.xorbs);
    assert {2} - {} == {2};
  }

  lemma {:induction false} BobStoresHundred()
    ensures StoredForOwner(WithFiles(ANNS, "bob/b", [BOBS]), "bob") == 100
  {
    OneFile(ANNS, "bob/b", BOBS);
    var t := WithFile(ANNS, "bob/b", BOBS);
    OwnerOf("bob", "b");
    assert "bob" + "/" + "b" == "bob/b";
    assert OwnerRows(t, "bob") == {FileKey(7, "bob/b")};
    OneRow(t, FileKey(7, "bob/b"));
    OneXorb(BIG);
    TotalOfOne(1, t.xorbs);
  }

  // With two lists for a hash the check can be wrong: the list stored first is the one that counts,
  // and here it names a larger xorb than the list that was charged.
  lemma {:induction false} ChargeCanBeTooLow()
    ensures OwnersArePrefixes(ANNS) && Owner("bob/b") == "bob"
    ensures StoredForOwner(ANNS, "bob") + Unaccounted(ANNS, "bob", Candidates([BOBS])) == 1
    ensures StoredForOwner(WithFiles(ANNS, "bob/b", [BOBS]), "bob") == 100
  {
    OwnerOf("ann", "a");
    OwnerOf("bob", "b");
    assert "ann" + "/" + "a" == "ann/a" && "bob" + "/" + "b" == "bob/b";
    BobIsChargedOne();
    BobStoresHundred();
  }

  lemma {:induction false} OneFile(t: Tables, repo: string, r: Registration)
    ensures Candidates([r]) == XorbsOf(r.terms) && WithFiles(t, repo, [r]) == WithFile(t, repo, r)
  {
    assert [r][..0] == [];
    assert Candidates([r][..0]) == {};
  }

  lemma {:induction false} OneXorb(term: FileTerm)
    ensures XorbsOf([term]) == {term.xorb}
  {
    assert [term][0].xorb in XorbsOf([term]);
  }

  lemma {:induction false} OwnerOf(owner: string, name: string)
    requires forall i :: 0 <= i < |owner| ==> owner[i] != '/'
    ensures Owner(owner + "/" + name) == owner
    decreases |owner|
  {
    var repo := owner + "/" + name;
    if owner != [] {
      assert repo[1..] == owner[1..] + "/" + name;
      OwnerOf(owner[1..], name);
    }
  }

  // ---- Lookup ----

  datatype LookupError = NegativeTotal | SizeMismatch(sum: nat, recorded: int)

  datatype Lookup = Absent | Served(terms: seq<FileTerm>) | Refused(error: LookupError)

  // The stored list checked against the size that one row of the file records.
  function Checked(terms: seq<FileTerm>, row: FileRow): Lookup {
    if row.totalBytes < 0 then Refused(NegativeTotal)
    else if SizeOf(terms) % U64_LIMIT != row.totalBytes
        then Refused(SizeMismatch(SizeOf(terms) % U64_LIMIT, row.totalBytes))
    else Served(terms)
  }

  // Registrations in the order in which they committed.
  datatype Registered = Registered(repo: string, file: Registration)

  function Replayed(history: seq<Registered>): Tables {
    if history == [] then EMPTY
    else
      var last := history[|history| - 1];
      WithFile(Replayed(history[..|history| - 1]), last.repo, last.file)
  }

  // The first non-empty list registered for a hash.
  function FirstList(history: seq<Registered>, h: FileHash): Option<seq<FileTerm>> {
    if history == [] then None
    else
      var earlier, last := FirstList(history[..|history| - 1], h), history[|history| - 1];
      if earlier.None? && last.file.hash == h && last.file.terms != [] then Some(last.file.terms) else earlier
  }

  lemma {:induction false} FirstListIsStored(history: seq<Registered>, h: FileHash)
    ensures match FirstList(history, h) {
              case None => h !in Replayed(history).terms
              case Some(terms) => h in Replayed(history).terms && Replayed(history).terms[h] == terms
            }
    ensures OwnersArePrefixes(Replayed(history))
  {
    if history != [] {
      FirstListIsStored(history[..|history| - 1], h);
    }
  }

  // The last registration of a file in a repo.
  function Latest(history: seq<Registered>, k: FileKey): Option<Registration> {
    if history == [] then None
    else
      var last := history[|history| - 1];
      if FileKey(last.file.hash, last.repo) == k then Some(last.file) else Latest(history[..|history| - 1], k)
  }

  lemma {:induction false} RowIsLatest(history: seq<Registered>, k: FileKey)
    ensures k in Replayed(history).files <==> Latest(history, k).Some?
    ensures k in Replayed(history).files ==>
        Replayed(history).files[k].totalBytes == AsI64(SizeOf(Latest(history, k).value.terms))
  {
    if history != [] {
      RowIsLatest(history[..|history| - 1], k);
    }
  }

  lemma {:induction false} LatestIsRegistered(history: seq<Registered>, k: FileKey)
    requires Latest(history, k).Some?
    ensures exists i ::
              && 0 <= i < |history| && history[i].file == Latest(history, k).value
              && FileKey(history[i].file.hash, history[i].repo) == k
  {
    var n := |history| - 1;
    if FileKey(history[n].file.hash, history[n].repo) != k {
      LatestIsRegistered(history[..n], k);
      var i :| 0 <= i < n && history[..n][i].file == Latest(history, k).value &&
          FileKey(history[..n][i].file.hash, history[..n][i].repo) == k;
      assert history[i] == history[..n][i];
    } else {
      assert history[n].file == Latest(history, k).value;
    }
  }

  lemma {:induction false} RegisteredHasLatest(history: seq<Registered>, i: nat)
    requires i < |history|
    ensures Latest(history, FileKey(history[i].file.hash, history[i].repo)).Some?
  {
    if i < |history| - 1 {
      RegisteredHasLatest(history[..|history| - 1], i);
    }
  }

  // All registrations of a hash agree on the size.
  ghost predicate SizesAgree(history: seq<Registered>, h: FileHash) {
    forall i, j ::
      0 <= i < |history| && 0 <= j < |history| && history[i].file.hash == h && history[j].file.hash == h ==>
      SizeOf(history[i].file.terms) == SizeOf(history[j].file.terms)
  }

  lemma {:induction false} FirstListIsRegistered(history: seq<Registered>, h: FileHash)
    requires FirstList(history, h).Some?
    ensures exists i ::
              0 <= i < |history| && history[i].file.hash == h && history[i].file.terms == FirstList(history, h).value
  {
    var first := history[..|history| - 1];
    if FirstList(first, h).Some? {
      FirstListIsRegistered(first, h);
      var i :| 0 <= i < |first| && first[i].file.hash == h && first[i].file.terms == FirstList(first, h).value;
      assert history[i] == first[i];
    } else {
      assert history[|history| - 1].file.hash == h;
    }
  }

  // Whichever row of the file is picked: if all registrations agree on a size an i64 can hold, the
  // lookup serves the first non-empty list.
  lemma {:induction false} AgreeingSizesAreServed(history: seq<Registered>, h: FileHash, k: FileKey)
    requires SizesAgree(history, h) && FirstList(history, h).Some? && SizeOf(FirstList(history, h).value) < I64_LIMIT
    requires k.hash == h && k in Replayed(history).files
    ensures Checked(FirstList(history, h).value, Replayed(history).files[k]) == Served(FirstList(history, h).value)
  {
    FirstListIsRegistered(history, h);
    RowIsLatest(history, k);
    LatestIsRegistered(history, k);
  }

  // A stored list has a row, so it is never served unchecked.
  lemma {:induction false} StoredListHasRow(history: seq<Registered>, h: FileHash)
    requires FirstList(history, h).Some?
    ensures exists k :: k in Replayed(history).files && k.hash == h
  {
    FirstListIsRegistered(history, h);
    var i :| 0 <= i < |history| && history[i].file.hash == h && history[i].file.terms == FirstList(history, h).value;
    RegisteredHasLatest(history, i);
    RowIsLatest(history, FileKey(h, history[i].repo));
  }

  // For every history: the lookup serves the first list whichever row is picked exactly if the last
  // registration in every repo that has the file is of the first list's size.
  lemma {:induction false} ServedForEveryRow(history: seq<Registered>, h: FileHash)
    requires FirstList(history, h).Some?
    ensures var list := FirstList(history, h).value;
            (forall k: FileKey :: k in Replayed(history).files && k.hash == h ==>
                Checked(list, Replayed(history).files[k]) == Served(list))
            <==> (forall k: FileKey :: k.hash == h && Latest(history, k).Some? ==>
                    AsI64(SizeOf(Latest(history, k).value.terms)) == SizeOf(list) % U64_LIMIT)
  {
    var list, files := FirstList(history, h).value, Replayed(history).files;
    forall k: FileKey | k.hash == h
      ensures k in files <==> Latest(history, k).Some?
      ensures k in files ==> (Checked(list, files[k]) == Served(list)
                              <==> AsI64(SizeOf(Latest(history, k).value.terms)) == SizeOf(list) % U64_LIMIT)
    {
      RowIsLatest(history, k);
    }
  }

  const LONGER: FileTerm := FileTerm(3, 0, 1, 20, None)

  // Ann registers ten bytes under a hash, Bob twenty: a lookup that picks Bob's row is refused.
  lemma {:induction false} LookupCanBeRefused()
    ensures var history := [Registered("ann/a", Registration(7, [BIG])),
                            Registered("bob/b", Registration(7, [LONGER]))];
            var k := FileKey(7, "bob/b");
            && FirstList(history, 7) == Some([BIG]) && k in Replayed(history).files
            && Checked([BIG], Replayed(history).files[k]) == Refused(SizeMismatch(10, 20))
  {
    var first := [Registered("ann/a", Registration(7, [BIG]))];
    var history := first + [Registered("bob/b", Registration(7, [LONGER]))];
    assert first[..0] == [] && history[..1] == first;
    assert FirstList(first, 7) == Some([BIG]);
    RowIsLatest(history, FileKey(7, "bob/b"));
    SizeOfOne(BIG);
    SizeOfOne(LONGER);
  }

  lemma {:induction false} SizeOfOne(term: FileTerm)
    ensures SizeOf([term]) == term.unpackedBytes
  {
    assert [term][..0] == [];
  }

  // ---- What a shard upload writes ----

  // A xorb block of a shard, with the size on disk that the shard claims.
  datatype CasBlock = CasBlock(xorb: XorbHash, claimedBytes: nat)

  // The size recorded for a xorb is that of its stored frames; the shard's claim only stands in.
  function Infos(blocks: seq<CasBlock>, layouts: map<XorbHash, seq<Reconstruction.LayoutRow>>): seq<XorbInfo> {
    if blocks == [] then []
    else
      var last := blocks[|blocks| - 1];
      var derived := if last.xorb in layouts then Reconstruction.RowBytes(layouts[last.xorb]) else 0;
      Infos(blocks[..|blocks| - 1], layouts) + [XorbInfo(last.xorb, if derived > 0 then derived else last.claimedBytes)]
  }

  // The rows follow each other without gap from 0.
  predicate FromZero(rows: seq<Reconstruction.LayoutRow>) {
    && rows != [] && rows[0].start == 0
    && forall i :: 0 <= i < |rows| - 1 ==> rows[i].start + rows[i].length == rows[i + 1].start
  }

  lemma {:induction false} RowsEndAt(rows: seq<Reconstruction.LayoutRow>)
    requires rows != [] && forall i :: 0 <= i < |rows| - 1 ==> rows[i].start + rows[i].length == rows[i + 1].start
    ensures rows[0].start + Reconstruction.RowBytes(rows) == rows[|rows| - 1].start + rows[|rows| - 1].length
  {
    if |rows| > 1 {
      var rest := rows[1..];
      forall i | 0 <= i < |rest| - 1 ensures rest[i].start + rest[i].length == rest[i + 1].start {
        assert rest[i] == rows[i + 1] && rest[i + 1] == rows[i + 2];
      }
      RowsEndAt(rest);
      assert rows[0].start + rows[0].length == rows[0 + 1].start;
    } else {
      assert rows[1..] == [];
    }
  }

  // The end of the stored frames, if there are any; what the shard claims, if there are none.
  predicate IsSizeOf(layouts: map<XorbHash, seq<Reconstruction.LayoutRow>>, b: CasBlock, info: XorbInfo) {
    && info.xorb == b.xorb
    && (b.xorb !in layouts || layouts[b.xorb] == [] ==> info.bytesOnDisk == b.claimedBytes)
    && (b.xorb in layouts && FromZero(layouts[b.xorb]) ==>
          var last := layouts[b.xorb][|layouts[b.xorb]| - 1];
          last.start + last.length > 0 ==> info.bytesOnDisk == last.start + last.length)
  }

  lemma {:induction false} InfosAreSizes(blocks: seq<CasBlock>, layouts: map<XorbHash, seq<Reconstruction.LayoutRow>>)
    ensures |Infos(blocks, layouts)| == |blocks|
    ensures forall i :: 0 <= i < |blocks| ==> IsSizeOf(layouts, blocks[i], Infos(blocks, layouts)[i])
  {
    if blocks != [] {
      var n := |blocks| - 1;
      InfosAreSizes(blocks[..n], layouts);
      forall i | 0 <= i < n ensures blocks[..n][i] == blocks[i] {
      }
      if blocks[n].xorb in layouts && layouts[blocks[n].xorb] != [] && FromZero(layouts[blocks[n].xorb]) {
        RowsEndAt(layouts[blocks[n].xorb]);
      }
    }
  }

  predicate IsFirstBlock(blocks: seq<CasBlock>, i: nat)
    requires i < |blocks|
  {
    forall j :: 0 <= j < i ==> blocks[j].xorb != blocks[i].xorb
  }

  // What stands for the blocks' xorbs: their recorded size, or that of their first block.
  ghost predicate BlocksRecorded(before: map<XorbHash, nat>, blocks: seq<CasBlock>,
          layouts: map<XorbHash, seq<Reconstruction.LayoutRow>>, after: map<XorbHash, nat>) {
    && (forall x :: x in before ==> x in after && after[x] == before[x])
    && (forall x :: x in after && x !in before ==> exists i :: 0 <= i < |blocks| && blocks[i].xorb == x)
    && (forall i :: 0 <= i < |blocks| ==> blocks[i].xorb in after)
    && (forall i :: 0 <= i < |blocks| && IsFirstBlock(blocks, i) && blocks[i].xorb !in before ==>
          IsSizeOf(layouts, blocks[i], XorbInfo(blocks[i].xorb, after[blocks[i].xorb])))
  }

  lemma {:induction false} BlocksAreRecorded(t: Tables, blocks: seq<CasBlock>,
          layouts: map<XorbHash, seq<Reconstruction.LayoutRow>>)
    ensures BlocksRecorded(t.xorbs, blocks, layouts, WithXorbs(t, Infos(blocks, layouts)).xorbs)
  {
    var infos := Infos(blocks, layouts);
    var after := WithXorbs(t, infos).xorbs;
    InfosAreSizes(blocks, layouts);
    XorbsAreFirst(t, infos);
    forall i | 0 <= i < |blocks| ensures infos[i].xorb == blocks[i].xorb && blocks[i].xorb in after {
      assert IsSizeOf(layouts, blocks[i], infos[i]);
    }
    forall i | 0 <= i < |blocks| && IsFirstBlock(blocks, i) && blocks[i].xorb !in t.xorbs
      ensures IsSizeOf(layouts, blocks[i], XorbInfo(blocks[i].xorb, after[blocks[i].xorb]))
    {
      assert IsFirst(infos, i);
      assert infos[i] == XorbInfo(blocks[i].xorb, after[blocks[i].xorb]);
    }
  }

  // A file as it stands in a shard, its terms still without their verifications.
  datatype SentFile = SentFile(hash: FileHash, terms: seq<FileTerm>, verifications: seq<nat>)

  predicate CountsMatch(f: SentFile) {
    f.verifications == [] || |f.verifications| == |f.terms|
  }

  function Materialized(f: SentFile): (r: Registration)
    ensures r.hash == f.hash && |r.terms| == |f.terms|
    ensures forall i :: 0 <= i < |f.terms| ==> r.terms[i].(verification := None) == f.terms[i].(verification := None)
    ensures f.verifications == [] ==> forall i :: 0 <= i < |f.terms| ==> r.terms[i].verification == None
    ensures |f.verifications| == |f.terms| ==>
              forall i :: 0 <= i < |f.terms| ==> r.terms[i].verification == Some(f.verifications[i])
  {
    Registration(f.hash,
                 seq(|f.terms|, i requires 0 <= i < |f.terms| =>
                   f.terms[i].(verification := if i < |f.verifications| then Some(f.verifications[i]) else None)))
  }

  function Registrations(files: seq<SentFile>): (r: seq<Registration>)
    ensures |r| == |files| && forall i :: 0 <= i < |files| ==> r[i] == Materialized(files[i])
  {
    if files == [] then [] else Registrations(files[..|files| - 1]) + [Materialized(files[|files| - 1])]
  }

  method CandidatesOf(files: seq<SentFile>) returns (candidates: set<XorbHash>)
    ensures candidates == Candidates(Registrations(files))
  {
    candidates := {};
    for i := 0 to |files|
      invariant candidates == Candidates(Registrations(files[..i]))
    {
      candidates := candidates + XorbsOf(files[i].terms);
      SameXorbs(files[i]);
      var last := Materialized(files[i]);
      assert files[..i + 1][..i] == files[..i];
      assert Registrations(files[..i + 1]) == Registrations(files[..i]) + [last];
      assert (Registrations(files[..i]) + [last])[..i] == Registrations(files[..i]);
    }
    assert files[..|files|] == files;
  }

  lemma {:induction false} SameXorbs(f: SentFile)
    ensures XorbsOf(Materialized(f).terms) == XorbsOf(f.terms)
  {
    var terms := Materialized(f).terms;
    forall i | 0 <= i < |terms| ensures terms[i].xorb == f.terms[i].xorb {
      assert terms[i].(verification := None) == f.terms[i].(verification := None);
    }
    forall x | x in XorbsOf(f.terms) ensures x in XorbsOf(terms) {
      var i :| 0 <= i < |f.terms| && f.terms[i].xorb == x;
      assert terms[i].xorb == x;
    }
  }

  datatype Admission = Admitted | OverQuota(used: nat, delta: nat) | BadVerificationCount

  // The quota goes first, then the verification counts; the xorbs stay registered in any case.
  ghost function Verdict(t: Tables, owner: string, files: seq<SentFile>, quota: Option<nat>): Admission {
    var used, delta := StoredForOwner(t, owner), Unaccounted(t, owner, Candidates(Registrations(files)));
    if quota.Some? && used + delta > quota.value then OverQuota(used, delta)
    else if forall i :: 0 <= i < |files| ==> CountsMatch(files[i]) then Admitted
    else BadVerificationCount
  }

  // After registering the files the owner is within the quota exactly if the lists that stand for
  // them keep it there, and in any case if no hash has two lists.
  ghost predicate StaysWithin(t: Tables, repo: string, sent: seq<Registration>, quota: nat) {
    var owner, after := Owner(repo), StoredForOwner(WithFiles(t, repo, sent), Owner(repo));
    && (after <= quota <==> StoredForOwner(t, owner) + Unaccounted(t, owner, Effective(t.terms, sent)) <= quota)
    && (OneListEach(t, sent) ==> after <= quota)
  }

  lemma {:induction false} AdmittedStaysWithin(t: Tables, repo: string, sent: seq<Registration>, quota: nat)
    requires OwnersArePrefixes(t)
    requires StoredForOwner(t, Owner(repo)) + Unaccounted(t, Owner(repo), Candidates(sent)) <= quota
    ensures StaysWithin(t, repo, sent, quota)
  {
    StoredAfter(t, repo, sent);
    ChargeIsExact(t, repo, sent);
  }

  method BlockInfos(blocks: seq<CasBlock>, layouts: map<XorbHash, seq<Reconstruction.LayoutRow>>)
    returns (infos: seq<XorbInfo>)
    ensures infos == Infos(blocks, layouts)
    ensures |infos| == |blocks| && forall i :: 0 <= i < |blocks| ==> IsSizeOf(layouts, blocks[i], infos[i])
  {
    InfosAreSizes(blocks, layouts);
    infos := [];
    for i := 0 to |blocks|
      invariant infos == Infos(blocks[..i], layouts)
    {
      var derived := if blocks[i].xorb in layouts then Reconstruction.RowBytes(layouts[blocks[i].xorb]) else 0;
      infos := infos + [XorbInfo(blocks[i].xorb, if derived > 0 then derived else blocks[i].claimedBytes)];
      assert blocks[..i + 1][..i] == blocks[..i];
    }
    assert blocks[..|blocks|] == blocks;
  }

  method Materialize(files: seq<SentFile>) returns (ok: bool, batch: seq<Registration>)
    ensures ok <==> forall i :: 0 <= i < |files| ==> CountsMatch(files[i])
    ensures ok ==> batch == Registrations(files)
  {
    batch := [];
    for i := 0 to |files|
      invariant batch == Registrations(files[..i])
      invariant forall j :: 0 <= j < i ==> CountsMatch(files[j])
    {
      if !CountsMatch(files[i]) {
        return false, [];
      }
      batch := batch + [Materialized(files[i])];
      assert files[..i + 1][..i] == files[..i];
    }
    assert files[..|files|] == files;
    ok := true;
  }

  // A list that was there stays, and each file with terms has one, sent or there before.
  ghost predicate ListsRecorded(terms: map<FileHash, seq<FileTerm>>, sent: seq<SentFile>,
          terms': map<FileHash, seq<FileTerm>>) {
    && (forall h :: h in terms ==> h in terms' && terms'[h] == terms[h])
    && (forall i :: 0 <= i < |sent| && sent[i].terms != [] ==> sent[i].hash in terms')
    && (forall h :: h in terms' && h !in terms ==>
          exists i :: 0 <= i < |sent| && sent[i].hash == h && terms'[h] == Materialized(sent[i]).terms)
  }

  // Each file sent has a row of its repo, and no other row is new or changed.
  ghost predicate FilesRecorded(files: map<FileKey, FileRow>, terms: map<FileHash, seq<FileTerm>>, repo: string,
          sent: seq<SentFile>, files': map<FileKey, FileRow>, terms': map<FileHash, seq<FileTerm>>) {
    RowsOfBatch(files, repo, Registrations(sent), files') && ListsRecorded(terms, sent, terms')
  }

  lemma {:induction false} ListsAreRecorded(terms: map<FileHash, seq<FileTerm>>, sent: seq<SentFile>)
    ensures ListsRecorded(terms, sent, WithLists(terms, Registrations(sent)))
  {
    var batch := Registrations(sent);
    var terms' := WithLists(terms, batch);
    forall h
      ensures h in terms ==> h in terms' && terms'[h] == terms[h]
      ensures h in terms' && h !in terms ==>
                exists i :: 0 <= i < |sent| && sent[i].hash == h && terms'[h] == Materialized(sent[i]).terms
      ensures forall i :: 0 <= i < |sent| && sent[i].hash == h && sent[i].terms != [] ==> h in terms'
    {
      ListsComeFrom(terms, batch, h);
      if h in terms' && h !in terms {
        var i :| 0 <= i < |batch| && batch[i].hash == h && batch[i].terms == terms'[h];
        assert batch[i] == Materialized(sent[i]);
      }
      forall i | 0 <= i < |sent| && sent[i].hash == h && sent[i].terms != [] ensures h in terms' {
        assert batch[i] == Materialized(sent[i]);
      }
    }
  }

  lemma {:induction false} SentAreRecorded(t: Tables, repo: string, sent: seq<SentFile>)
    ensures var t' := WithFiles(t, repo, Registrations(sent));
            FilesRecorded(t.files, t.terms, repo, sent, t'.files, t'.terms)
  {
    RowsRecorded(t, repo, Registrations(sent));
    FilesOnly(t, repo, Registrations(sent));
    ListsAreRecorded(t.terms, sent);
  }

  ghost predicate RowsOfBatch(files: map<FileKey, FileRow>, repo: string, batch: seq<Registration>,
          files': map<FileKey, FileRow>) {
    && (forall i :: 0 <= i < |batch| ==>
          FileKey(batch[i].hash, repo) in files' && files'[FileKey(batch[i].hash, repo)].owner == Owner(repo))
    && (forall k :: k in files && (forall i :: 0 <= i < |batch| ==> k != FileKey(batch[i].hash, repo)) ==>
          k in files' && files'[k] == files[k])
    && (forall k :: k in files' && k !in files ==>
          k.repo == repo && exists i :: 0 <= i < |batch| && batch[i].hash == k.hash)
  }

  lemma {:induction false} OneMoreRow(files: map<FileKey, FileRow>, repo: string, first: seq<Registration>,
          last: Registration, middle: map<FileKey, FileRow>, row: FileRow)
    requires RowsOfBatch(files, repo, first, middle) && row.owner == Owner(repo)
    ensures RowsOfBatch(files, repo, first + [last], middle[FileKey(last.hash, repo) := row])
  {
    var batch, n := first + [last], |first|;
    var files' := middle[FileKey(last.hash, repo) := row];
    forall k | k in files && (forall i :: 0 <= i < |batch| ==> k != FileKey(batch[i].hash, repo))
      ensures k in files' && files'[k] == files[k]
    {
      assert k != FileKey(batch[n].hash, repo);
      forall i | 0 <= i < n ensures k != FileKey(first[i].hash, repo) {
        assert k != FileKey(batch[i].hash, repo);
      }
    }
    forall k | k in files' && k !in files
      ensures k.repo == repo && exists i :: 0 <= i < |batch| && batch[i].hash == k.hash
    {
      if k == FileKey(last.hash, repo) {
        assert batch[n].hash == k.hash;
      } else {
        var i :| 0 <= i < n && first[i].hash == k.hash;
        assert batch[i].hash == k.hash;
      }
    }
  }

  lemma {:induction false} RowsRecorded(t: Tables, repo: string, batch: seq<Registration>)
    ensures RowsOfBatch(t.files, repo, batch, WithFiles(t, repo, batch).files)
  {
    if batch != [] {
      var n := |batch| - 1;
      RowsRecorded(t, repo, batch[..n]);
      OneMoreRow(t.files, repo, batch[..n], batch[n], WithFiles(t, repo, batch[..n]).files,
                 FileRow(AsI64(SizeOf(batch[n].terms)), Owner(repo)));
      assert batch[..n] + [batch[n]] == batch;
    }
  }

  // ---- The store ----

  class Store {
    var files: map<FileKey, FileRow>
    var terms: map<FileHash, seq<FileTerm>>
    var xorbs: map<XorbHash, nat>

    constructor ()
      ensures Contents() == EMPTY
    {
      files, terms, xorbs := map[], map[], map[];
    }

    function Contents(): Tables
      reads this
    {
      Tables(files, terms, xorbs)
    }

    method WriteFileInTx(repo: string, r: Registration)
      modifies this
      ensures Contents() == WithFile(old(Contents()), repo, r)
    {
      var total := 0;
      for i := 0 to |r.terms|
        invariant total == SizeOf(r.terms[..i])
      {
        total := total + r.terms[i].unpackedBytes;
        assert r.terms[..i + 1][..i] == r.terms[..i];
      }
      assert r.terms[..|r.terms|] == r.terms;
      files := files[FileKey(r.hash, repo) := FileRow(AsI64(total), Owner(repo))];
      if r.hash in terms {
        return;
      }
      var rows: seq<FileTerm>, done := [], 0;
      while done < |r.terms|
        invariant done <= |r.terms| && rows == r.terms[..done]
      {
        var end := if |r.terms| - done < INSERT_BATCH then |r.terms| else done + INSERT_BATCH;
        rows := rows + r.terms[done..end];
        done := end;
      }
      if rows != [] {
        terms := terms[r.hash := rows];
      }
    }

    // One transaction. If a statement fails, after `failAfter` files, everything is rolled back.
    method RegisterFiles(repo: string, batch: seq<Registration>, failAfter: Option<nat>) returns (ok: bool)
      modifies this
      ensures ok <==> failAfter == None || failAfter.value >= |batch|
      ensures Contents() == if ok then WithFiles(old(Contents()), repo, batch) else old(Contents())
    {
      var savedFiles, savedTerms, savedXorbs := files, terms, xorbs;
      for i := 0 to |batch|
        invariant Contents() == WithFiles(old(Contents()), repo, batch[..i])
        invariant failAfter.Some? ==> failAfter.value >= i
      {
        if failAfter == Some(i) {
          files, terms, xorbs := savedFiles, savedTerms, savedXorbs;
          return false;
        }
        WriteFileInTx(repo, batch[i]);
        assert batch[..i + 1][..i] == batch[..i];
      }
      assert batch[..|batch|] == batch;
      return true;
    }

    method RegisterXorbs(infos: seq<XorbInfo>)
      modifies this
      ensures Contents() == WithXorbs(old(Contents()), infos)
      ensures FirstSizesStay(old(xorbs), infos, xorbs)
    {
      XorbsAreFirst(Contents(), infos);
      for i := 0 to |infos|
        invariant Contents() == WithXorbs(old(Contents()), infos[..i])
      {
        if infos[i].xorb !in xorbs {
          xorbs := xorbs[infos[i].xorb := infos[i].bytesOnDisk];
        }
        assert infos[..i + 1][..i] == infos[..i];
      }
      assert infos[..|infos|] == infos;
    }

    // `LIMIT 1` without an order: any row of the file may be picked.
    method LookupFile(h: FileHash) returns (r: Lookup)
      ensures h !in terms ==> r == Absent
      ensures h in terms && (forall k :: k in files ==> k.hash != h) ==> r == Served(terms[h])
      ensures h in terms && (exists k :: k in files && k.hash == h) ==>
                exists k :: k in files && k.hash == h && r == Checked(terms[h], files[k])
      // Only the stored list is ever served, and only if some row records its size, or none is there.
      ensures r.Served? ==>
                && h in terms && r.terms == terms[h]
                && ((forall k :: k in files ==> k.hash != h) ||
                    exists k :: k in files && k.hash == h && files[k].totalBytes == SizeOf(terms[h]) % U64_LIMIT)
      ensures h in terms ==>
                (forall k :: k in files && k.hash == h ==> files[k].totalBytes == SizeOf(terms[h]) < U64_LIMIT) ==>
                  r == Served(terms[h])
    {
      if h !in terms {
        return Absent;
      }
      var rows := set k | k in files && k.hash == h;
      if rows == {} {
        assert forall k :: k in files && k.hash == h ==> k in rows;
        return Served(terms[h]);
      }
      var k :| k in rows;
      return Checked(terms[h], files[k]);
    }

    method SumBytes(wanted: set<XorbHash>) returns (n: nat)
      ensures n == Total(wanted, xorbs)
      ensures wanted !! xorbs.Keys ==> n == 0
      ensures forall x :: x in xorbs && wanted == {x} ==> n == xorbs[x]
    {
      if wanted !! xorbs.Keys {
        TotalOfUnknown(wanted, xorbs);
      }
      forall x | x in xorbs && wanted == {x} ensures Total(wanted, xorbs) == xorbs[x] {
        TotalOfOne(x, xorbs);
      }
      n := 0;
      var left := wanted;
      while left != {}
        invariant left <= wanted && n + Total(left, xorbs) == Total(wanted, xorbs)
        decreases left
      {
        var x :| x in left;
        TotalWithout(left, xorbs, x);
        n := n + Weight(xorbs, x);
        left := left - {x};
      }
    }

    // What the owner stores and what the shard would add.
    method Charge(owner: string, files: seq<SentFile>) returns (used: nat, delta: nat)
      ensures used == StoredForOwner(Contents(), owner)
      ensures delta == Unaccounted(Contents(), owner, Candidates(Registrations(files)))
    {
      var candidates := CandidatesOf(files);
      var owned := Referenced(Contents(), OwnerRows(Contents(), owner));
      used := SumBytes(owned);
      delta := SumBytes(candidates - owned);
    }

    // Registers the xorbs, checks the quota and the verification counts, registers the files.
    method RecordShard(repo: string, blocks: seq<CasBlock>, layouts: map<XorbHash, seq<Reconstruction.LayoutRow>>,
                       files: seq<SentFile>, quota: Option<nat>)
      returns (r: Admission)
      modifies this
      ensures var t := WithXorbs(old(Contents()), Infos(blocks, layouts));
              && r == Verdict(t, Owner(repo), files, quota)
              && Contents() == if r == Admitted then WithFiles(t, repo, Registrations(files)) else t
      ensures r == Admitted && quota.Some? && OwnersArePrefixes(old(Contents())) ==>
                StaysWithin(WithXorbs(old(Contents()), Infos(blocks, layouts)), repo, Registrations(files), quota.value)
    {
      var infos := BlockInfos(blocks, layouts);
      RegisterXorbs(infos);
      ghost var t := Contents();
      XorbsOnly(old(Contents()), infos);
      if quota.Some? {
        var used, delta := Charge(Owner(repo), files);
        if used + delta > quota.value {
          return OverQuota(used, delta);
        }
      }
      var ok, batch := Materialize(files);
      if !ok {
        return BadVerificationCount;
      }
      var _ := RegisterFiles(repo, batch, None);
      if OwnersArePrefixes(t) && quota.Some? {
        AdmittedStaysWithin(t, repo, batch, quota.value);
      }
      return Admitted;
    }

    // The metadata half of a shard upload. The xorbs are recorded whatever the verdict. Admitted, each
    // file has its row and, if it has terms, a list: the one there was or one that was sent. Then the
    // owner is within the quota exactly if the lists that stand for the files keep it there, hence
    // always if no hash has two lists. Refused, no file is touched.
    method AdmitShard(repo: string, blocks: seq<CasBlock>, layouts: map<XorbHash, seq<Reconstruction.LayoutRow>>,
                      files: seq<SentFile>, quota: Option<nat>)
      returns (r: Admission)
      modifies this
      ensures var t := WithXorbs(old(Contents()), Infos(blocks, layouts));
              && r == Verdict(t, Owner(repo), files, quota)
              && Contents() == if r == Admitted then WithFiles(t, repo, Registrations(files)) else t
      ensures r == Admitted && quota.Some? && OwnersArePrefixes(old(Contents())) ==>
                StaysWithin(WithXorbs(old(Contents()), Infos(blocks, layouts)), repo, Registrations(files), quota.value)
      ensures var t, owner := WithXorbs(old(Contents()), Infos(blocks, layouts)), Owner(repo);
              var used, delta := StoredForOwner(t, owner), Unaccounted(t, owner, Candidates(Registrations(files)));
              r == OverQuota(used, delta) <==> quota.Some? && used + delta > quota.value
      ensures r.OverQuota? ==> quota.Some?
      ensures BlocksRecorded(old(xorbs), blocks, layouts, xorbs)
      ensures r == Admitted ==>
                && (forall i :: 0 <= i < |files| ==>
                      files[i].verifications == [] || |files[i].verifications| == |files[i].terms|)
                && FilesRecorded(old(this.files), old(terms), repo, files, this.files, terms)
      ensures r != Admitted ==> this.files == old(this.files) && terms == old(terms)
      ensures r == BadVerificationCount ==>
                exists i :: 0 <= i < |files| && files[i].verifications != [] &&
                  |files[i].verifications| != |files[i].terms|
    {
      ghost var t := WithXorbs(Contents(), Infos(blocks, layouts));
      BlocksAreRecorded(Contents(), blocks, layouts);
      XorbsOnly(Contents(), Infos(blocks, layouts));
      SentAreRecorded(t, repo, files);
      FilesOnly(t, repo, Registrations(files));
      r := RecordShard(repo, blocks, layouts, files, quota);
    }
  }

  lemma {:induction false} XorbsOnly(t: Tables, infos: seq<XorbInfo>)
    ensures WithXorbs(t, infos).files == t.files && WithXorbs(t, infos).terms == t.terms
  {
    if infos != [] {
      XorbsOnly(t, infos[..|infos| - 1]);
    }
  }
}
