// Xorb and shard uploads interleaved, with a crash possible after every store write.
module UploadProtocol {
  import opened Wrappers
  import opened Bytes
  import opened FileTerms
  import opened XorbFrames
  import opened Reconstruction

  const MAX_BODY_BYTES: nat := 64 * 1024 * 1024

  type ProcId = nat
  type ArchiveHash = nat

  // How bodies are decompressed and hashed.
  datatype Codec = Codec(decompress: Decompressor, dataHash: Bytes -> nat, merkle: seq<MerkleLeaf> -> nat)

  datatype Shard = Shard(archive: ArchiveHash, blocks: set<XorbHash>, files: seq<Registration>)

  datatype Proc =
    | XorbVerified(hash: XorbHash, body: Bytes)
    | LayoutWritten(hash: XorbHash, body: Bytes)
    | BlobAbsent(hash: XorbHash, body: Bytes)
    | ShardChecking(shard: Shard, unchecked: set<XorbHash>)
    | ArchivePut(shard: Shard)

  // `origin` is the archive of the shard that last registered a file.
  datatype Server = Server(
    layouts: map<XorbHash, seq<LayoutRow>>,
    blobs: map<XorbHash, Bytes>,
    archives: set<ArchiveHash>,
    terms: map<FileHash, seq<FileTerm>>,
    origin: map<FileHash, ArchiveHash>,
    procs: map<ProcId, Proc>)

  const EMPTY: Server := Server(map[], map[], {}, map[], map[], map[])

  datatype Event =
    | StartXorb(id: ProcId, hash: XorbHash, body: Bytes)
    | WriteLayout(id: ProcId)
    | CheckBlob(id: ProcId)
    | PutBlob(id: ProcId)
    | StartShard(id: ProcId, shard: Shard)
    | CheckXorb(id: ProcId, xorb: XorbHash)
    | PutArchive(id: ProcId)
    | RegisterFiles(id: ProcId)
    | Crash(id: ProcId)

  predicate Accepts(c: Codec, hash: XorbHash, body: Bytes) {
    |body| <= MAX_BODY_BYTES && Verdict(c.decompress, c.dataHash, c.merkle, body, hash) == None
  }

  function XorbsOfFiles(files: seq<Registration>): set<XorbHash> {
    set i, j | 0 <= i < |files| && 0 <= j < |files[i].terms| :: files[i].terms[j].xorb
  }

  predicate RangesOrdered(terms: seq<FileTerm>) {
    forall j :: 0 <= j < |terms| ==> terms[j].chunkStart < terms[j].chunkEnd
  }

  predicate Allowed(c: Codec, s: Server, e: Event) {
    match e
    case StartXorb(id, hash, body) => id !in s.procs && Accepts(c, hash, body)
    case WriteLayout(id) => id in s.procs && s.procs[id].XorbVerified?
    case CheckBlob(id) => id in s.procs && s.procs[id].LayoutWritten?
    case PutBlob(id) => id in s.procs && s.procs[id].BlobAbsent?
    case StartShard(id, shard) =>
      id !in s.procs && forall i :: 0 <= i < |shard.files| ==> RangesOrdered(shard.files[i].terms)
    case CheckXorb(id, x) =>
      id in s.procs && s.procs[id].ShardChecking? && x in s.procs[id].unchecked && x in s.blobs
    case PutArchive(id) => id in s.procs && s.procs[id].ShardChecking? && s.procs[id].unchecked == {}
    case RegisterFiles(id) => id in s.procs && s.procs[id].ArchivePut?
    case Crash(id) => id in s.procs
  }

  // `INSERT OR IGNORE` keyed by frame index: rows that are there stay, a longer list adds its tail.
  function Merged(there: seq<LayoutRow>, sent: seq<LayoutRow>): seq<LayoutRow> {
    if there == [] then sent
    else if |sent| <= |there| then there
    else there + sent[|there|..]
  }

  function BodyLayout(body: Bytes): seq<LayoutRow>
    requires ParseFrames(body).Frames?
  {
    LayoutOf(ParseFrames(body).frames)
  }

  function WithOrigins(origin: map<FileHash, ArchiveHash>, shard: Shard): map<FileHash, ArchiveHash> {
    origin + map i | 0 <= i < |shard.files| :: shard.files[i].hash := shard.archive
  }

  function Apply(c: Codec, s: Server, e: Event): Server
    requires Allowed(c, s, e)
  {
    match e
    case StartXorb(id, hash, body) => s.(procs := s.procs[id := XorbVerified(hash, body)])
    case WriteLayout(id) =>
      var XorbVerified(hash, body) := s.procs[id];
      if ParseFrames(body).Malformed? then s
      else
        var there := if hash in s.layouts then s.layouts[hash] else [];
        s.(layouts := s.layouts[hash := Merged(there, BodyLayout(body))],
           procs := s.procs[id := LayoutWritten(hash, body)])
    case CheckBlob(id) =>
      var LayoutWritten(hash, body) := s.procs[id];
      s.(procs := if hash in s.blobs then s.procs - {id} else s.procs[id := BlobAbsent(hash, body)])
    // Replaces what a racing upload has put since the check. A rename that fails because of it ends
    // the upload as `Crash` does.
    case PutBlob(id) =>
      var BlobAbsent(hash, body) := s.procs[id];
      s.(blobs := s.blobs[hash := body], procs := s.procs - {id})
    case StartShard(id, shard) =>
      s.(procs := s.procs[id := ShardChecking(shard, shard.blocks + XorbsOfFiles(shard.files))])
    case CheckXorb(id, x) => s.(procs := s.procs[id := s.procs[id].(unchecked := s.procs[id].unchecked - {x})])
    case PutArchive(id) =>
      var shard := s.procs[id].shard;
      s.(archives := s.archives + {shard.archive}, procs := s.procs[id := ArchivePut(shard)])
    case RegisterFiles(id) =>
      var shard := s.procs[id].shard;
      s.(terms := WithLists(s.terms, shard.files),
         origin := WithOrigins(s.origin, shard),
         procs := s.procs - {id})
    case Crash(id) => s.(procs := s.procs - {id})
  }

  // ---- What no interleaving and no crash breaks ----

  // The stored layout has a row for every frame of the body.
  predicate Complete(s: Server, x: XorbHash, body: Bytes) {
    x in s.layouts && ParseFrames(body).Frames? && |s.layouts[x]| >= |ParseFrames(body).frames|
  }

  ghost predicate Backed(s: Server, terms: seq<FileTerm>) {
    forall j :: 0 <= j < |terms| ==> terms[j].xorb in s.blobs
  }

  ghost predicate ListsOk(s: Server, terms: map<FileHash, seq<FileTerm>>) {
    forall h :: h in terms ==> terms[h] != [] && RangesOrdered(terms[h]) && Backed(s, terms[h])
  }

  ghost predicate ProcOk(c: Codec, s: Server, p: Proc) {
    match p
    case XorbVerified(hash, body) => Accepts(c, hash, body)
    case LayoutWritten(hash, body) => Accepts(c, hash, body) && Complete(s, hash, body)
    case BlobAbsent(hash, body) => Accepts(c, hash, body) && Complete(s, hash, body)
    case ShardChecking(shard, unchecked) =>
      && (forall i :: 0 <= i < |shard.files| ==> RangesOrdered(shard.files[i].terms))
      && (forall x :: x in shard.blocks + XorbsOfFiles(shard.files) && x !in unchecked ==> x in s.blobs)
    case ArchivePut(shard) =>
      && shard.archive in s.archives && shard.blocks <= s.blobs.Keys
      && forall i :: 0 <= i < |shard.files| ==> RangesOrdered(shard.files[i].terms) && Backed(s, shard.files[i].terms)
  }

  ghost predicate Inv(c: Codec, s: Server) {
    && (forall x :: x in s.blobs ==> Complete(s, x, s.blobs[x]))
    && ListsOk(s, s.terms)
    && (forall h :: h in s.terms ==> h in s.origin)
    && (forall h :: h in s.origin ==> s.origin[h] in s.archives)
    && (forall id :: id in s.procs ==> ProcOk(c, s, s.procs[id]))
  }

  lemma {:induction false} AcceptedHasFrames(c: Codec, hash: XorbHash, body: Bytes)
    requires Accepts(c, hash, body)
    ensures ParseFrames(body).Frames? && BodyLayout(body) != [] && Contents(c.decompress, body).Chunks?
  {
  }

  lemma {:induction false} NewListsBacked(s: Server, terms: map<FileHash, seq<FileTerm>>, files: seq<Registration>)
    requires ListsOk(s, terms)
    requires forall i :: 0 <= i < |files| ==> RangesOrdered(files[i].terms) && Backed(s, files[i].terms)
    ensures ListsOk(s, WithLists(terms, files))
  {
    if files != [] {
      NewListsBacked(s, terms, files[..|files| - 1]);
      assert RangesOrdered(files[|files| - 1].terms);
    }
  }

  // A stored layout only grows, and covers the body it is written for.
  lemma {:induction false} LayoutGrows(c: Codec, s: Server, id: ProcId)
    requires Allowed(c, s, WriteLayout(id)) && ProcOk(c, s, s.procs[id])
    ensures var s', p := Apply(c, s, WriteLayout(id)), s.procs[id];
            && s' == s.(layouts := s'.layouts, procs := s.procs[id := LayoutWritten(p.hash, p.body)])
            && Complete(s', p.hash, p.body)
            && forall x, body :: Complete(s, x, body) ==> Complete(s', x, body)
  {
    AcceptedHasFrames(c, s.procs[id].hash, s.procs[id].body);
  }

  lemma {:induction false} WriteLayoutKeepsInv(c: Codec, s: Server, id: ProcId)
    requires Inv(c, s) && Allowed(c, s, WriteLayout(id))
    ensures Inv(c, Apply(c, s, WriteLayout(id)))
  {
    assert ProcOk(c, s, s.procs[id]);
    LayoutGrows(c, s, id);
    var s' := Apply(c, s, WriteLayout(id));
    forall other | other in s'.procs ensures ProcOk(c, s', s'.procs[other]) {
      assert other != id ==> ProcOk(c, s, s.procs[other]);
    }
  }

  lemma {:induction false} PutBlobKeepsInv(c: Codec, s: Server, id: ProcId)
    requires Inv(c, s) && Allowed(c, s, PutBlob(id))
    ensures Inv(c, Apply(c, s, PutBlob(id)))
  {
    assert ProcOk(c, s, s.procs[id]);
    var s' := Apply(c, s, PutBlob(id));
    forall other | other in s'.procs ensures ProcOk(c, s', s'.procs[other]) {
      assert ProcOk(c, s, s.procs[other]);
    }
  }

  lemma {:induction false} PutArchiveKeepsInv(c: Codec, s: Server, id: ProcId)
    requires Inv(c, s) && Allowed(c, s, PutArchive(id))
    ensures Inv(c, Apply(c, s, PutArchive(id)))
  {
    var s', shard := Apply(c, s, PutArchive(id)), s.procs[id].shard;
    assert ProcOk(c, s, s.procs[id]);
    forall i, j | 0 <= i < |shard.files| && 0 <= j < |shard.files[i].terms|
      ensures shard.files[i].terms[j].xorb in s.blobs
    {
      assert shard.files[i].terms[j].xorb in XorbsOfFiles(shard.files);
    }
    forall other | other in s'.procs ensures ProcOk(c, s', s'.procs[other]) {
      assert other != id ==> ProcOk(c, s, s.procs[other]);
    }
  }

  lemma {:induction false} OriginsKept(s: Server, shard: Shard)
    requires shard.archive in s.archives
    requires forall h :: h in s.terms ==> h in s.origin
    requires forall h :: h in s.origin ==> s.origin[h] in s.archives
    ensures forall h :: h in WithLists(s.terms, shard.files) ==> h in WithOrigins(s.origin, shard)
    ensures forall h :: h in WithOrigins(s.origin, shard) ==> WithOrigins(s.origin, shard)[h] in s.archives
  {
    forall h | h in WithLists(s.terms, shard.files) ensures h in WithOrigins(s.origin, shard) {
      if h !in s.terms {
        ListsComeFrom(s.terms, shard.files, h);
      }
    }
  }

  lemma {:induction false} RegisterFilesKeepsInv(c: Codec, s: Server, id: ProcId)
    requires Inv(c, s) && Allowed(c, s, RegisterFiles(id))
    ensures Inv(c, Apply(c, s, RegisterFiles(id)))
  {
    var s', shard := Apply(c, s, RegisterFiles(id)), s.procs[id].shard;
    assert ProcOk(c, s, s.procs[id]);
    NewListsBacked(s, s.terms, shard.files);
    OriginsKept(s, shard);
    assert ListsOk(s', s'.terms) by {
      forall h | h in s'.terms ensures Backed(s', s'.terms[h]) {
        assert Backed(s, s'.terms[h]);
      }
    }
    forall other | other in s'.procs ensures ProcOk(c, s', s'.procs[other]) {
      assert ProcOk(c, s, s.procs[other]);
    }
  }

  lemma {:induction false} QuietStepKeepsInv(c: Codec, s: Server, e: Event)
    requires Inv(c, s) && Allowed(c, s, e) &&
        (e.StartXorb? || e.CheckBlob? || e.StartShard? || e.CheckXorb? || e.Crash?)
    ensures Inv(c, Apply(c, s, e))
  {
    var s' := Apply(c, s, e);
    forall id | id in s'.procs ensures ProcOk(c, s', s'.procs[id]) {
      if id in s.procs {
        assert ProcOk(c, s, s.procs[id]);
      }
    }
  }

  lemma {:induction false} StepKeepsInv(c: Codec, s: Server, e: Event)
    requires Inv(c, s) && Allowed(c, s, e)
    ensures Inv(c, Apply(c, s, e))
  {
    match e
    case WriteLayout(id) => WriteLayoutKeepsInv(c, s, id);
    case PutBlob(id) => PutBlobKeepsInv(c, s, id);
    case PutArchive(id) => PutArchiveKeepsInv(c, s, id);
    case RegisterFiles(id) => RegisterFilesKeepsInv(c, s, id);
    case _ => QuietStepKeepsInv(c, s, e);
  }

  ghost predicate Runs(c: Codec, s: Server, run: seq<Event>)
    decreases |run|
  {
    run != [] ==> Allowed(c, s, run[0]) && Runs(c, Apply(c, s, run[0]), run[1..])
  }

  ghost function After(c: Codec, s: Server, run: seq<Event>): Server
    requires Runs(c, s, run)
    decreases |run|
  {
    if run == [] then s else After(c, Apply(c, s, run[0]), run[1..])
  }

  lemma {:induction false} RunKeepsInv(c: Codec, s: Server, run: seq<Event>)
    requires Inv(c, s) && Runs(c, s, run)
    ensures Inv(c, After(c, s, run))
    decreases |run|
  {
    if run != [] {
      StepKeepsInv(c, s, run[0]);
      RunKeepsInv(c, Apply(c, s, run[0]), run[1..]);
    }
  }

  // A shard that is about to be registered refers to stored xorbs only, as blocks or in terms.
  lemma {:induction false} ShardsReferToStoredXorbs(c: Codec, run: seq<Event>, id: ProcId)
    requires Runs(c, EMPTY, run) && Allowed(c, After(c, EMPTY, run), RegisterFiles(id))
    ensures var s := After(c, EMPTY, run);
            var shard := s.procs[id].shard;
            && shard.archive in s.archives
            && (forall x :: x in shard.blocks ==> x in s.blobs)
            && (forall i, j :: 0 <= i < |shard.files| && 0 <= j < |shard.files[i].terms| ==>
                  var t := shard.files[i].terms[j]; t.xorb in s.blobs && t.chunkStart < t.chunkEnd)
  {
    RunKeepsInv(c, EMPTY, run);
    var s := After(c, EMPTY, run);
    assert ProcOk(c, s, s.procs[id]);
    var files := s.procs[id].shard.files;
    forall i | 0 <= i < |files| ensures RangesOrdered(files[i].terms) && Backed(s, files[i].terms) {
    }
  }

  // In every reachable state, for every registered file: its shard archive exists, every xorb of its
  // terms has a blob and a complete layout for it, a range of frames of that blob is never invalid,
  // and reconstruction does not report a missing layout.
  lemma {:induction false} NoLayoutIsMissing(c: Codec, run: seq<Event>, h: FileHash)
    requires Runs(c, EMPTY, run) && h in After(c, EMPTY, run).terms
    ensures var s := After(c, EMPTY, run);
            && h in s.origin && s.origin[h] in s.archives
            && (forall j :: 0 <= j < |s.terms[h]| ==>
                  var t := s.terms[h][j];
                  && t.xorb in s.blobs && Complete(s, t.xorb, s.blobs[t.xorb])
                  && (t.chunkEnd <= |ParseFrames(s.blobs[t.xorb]).frames| ==> RangeOk(s.layouts[t.xorb], t)))
            && FirstError(s.layouts, s.terms[h], 0) != Some(LayoutMissing)
  {
    RunKeepsInv(c, EMPTY, run);
    var s := After(c, EMPTY, run);
    NoMissing(s.layouts, s.terms[h], 0);
  }

  lemma {:induction false} NoMissing(layouts: map<XorbHash, seq<LayoutRow>>, terms: seq<FileTerm>, i: nat)
    requires i <= |terms| && forall j :: 0 <= j < |terms| ==> terms[j].xorb in layouts
    ensures FirstError(layouts, terms, i) != Some(LayoutMissing)
    decreases |terms| - i
  {
    if i < |terms| {
      NoMissing(layouts, terms, i + 1);
    }
  }

  // ---- When a hash stands for one body ----

  // Every accepted body is the one its hash stands for.
  predicate Canonical(bodyOf: XorbHash -> Bytes, run: seq<Event>) {
    forall i :: 0 <= i < |run| && run[i].StartXorb? ==> run[i].body == bodyOf(run[i].hash)
  }

  // An upload of a xorb.
  predicate HasBody(p: Proc) {
    p.XorbVerified? || p.LayoutWritten? || p.BlobAbsent?
  }

  ghost predicate ProcFaithful(bodyOf: XorbHash -> Bytes, p: Proc) {
    HasBody(p) ==> p.body == bodyOf(p.hash)
  }

  // Layouts and blobs are those of that body.
  ghost predicate Faithful(c: Codec, bodyOf: XorbHash -> Bytes, s: Server) {
    && (forall x :: x in s.layouts ==>
        Accepts(c, x, bodyOf(x)) && ParseFrames(bodyOf(x)).Frames? && s.layouts[x] == BodyLayout(bodyOf(x)))
    && (forall x :: x in s.blobs ==> s.blobs[x] == bodyOf(x))
    && (forall id :: id in s.procs ==> ProcFaithful(bodyOf, s.procs[id]))
  }

  lemma {:induction false} WriteLayoutKeepsFaithful(c: Codec, bodyOf: XorbHash -> Bytes, s: Server, id: ProcId)
    requires Inv(c, s) && Faithful(c, bodyOf, s) && Allowed(c, s, WriteLayout(id))
    ensures Faithful(c, bodyOf, Apply(c, s, WriteLayout(id)))
  {
    var s', x := Apply(c, s, WriteLayout(id)), s.procs[id].hash;
    assert ProcOk(c, s, s.procs[id]) && ProcFaithful(bodyOf, s.procs[id]);
    AcceptedHasFrames(c, x, bodyOf(x));
    assert s'.layouts == s.layouts[x := BodyLayout(bodyOf(x))];
    forall other | other in s'.procs ensures ProcFaithful(bodyOf, s'.procs[other]) {
      assert ProcFaithful(bodyOf, s.procs[other]);
    }
  }

  lemma {:induction false} OtherStepKeepsFaithful(c: Codec, bodyOf: XorbHash -> Bytes, s: Server, e: Event)
    requires Faithful(c, bodyOf, s) && Allowed(c, s, e) && !e.WriteLayout?
    requires e.StartXorb? ==> e.body == bodyOf(e.hash)
    ensures Faithful(c, bodyOf, Apply(c, s, e))
  {
    var s' := Apply(c, s, e);
    if e.PutBlob? {
      assert ProcFaithful(bodyOf, s.procs[e.id]);
    }
    forall id | id in s'.procs ensures ProcFaithful(bodyOf, s'.procs[id]) {
      assert id in s.procs ==> ProcFaithful(bodyOf, s.procs[id]);
    }
  }

  lemma {:induction false} StepKeepsFaithful(c: Codec, bodyOf: XorbHash -> Bytes, s: Server, e: Event)
    requires Inv(c, s) && Faithful(c, bodyOf, s) && Allowed(c, s, e)
    requires e.StartXorb? ==> e.body == bodyOf(e.hash)
    ensures Faithful(c, bodyOf, Apply(c, s, e))
  {
    if e.WriteLayout? {
      WriteLayoutKeepsFaithful(c, bodyOf, s, e.id);
    } else {
      OtherStepKeepsFaithful(c, bodyOf, s, e);
    }
  }

  lemma {:induction false} RunKeepsFaithful(c: Codec, bodyOf: XorbHash -> Bytes, s: Server, run: seq<Event>)
    requires Inv(c, s) && Faithful(c, bodyOf, s) && Runs(c, s, run) && Canonical(bodyOf, run)
    ensures Faithful(c, bodyOf, After(c, s, run))
    decreases |run|
  {
    if run != [] {
      assert run[0].StartXorb? ==> run[0].body == bodyOf(run[0].hash);
      StepKeepsFaithful(c, bodyOf, s, run[0]);
      StepKeepsInv(c, s, run[0]);
      forall i | 0 <= i < |run[1..]| && run[1..][i].StartXorb? ensures run[1..][i].body == bodyOf(run[1..][i].hash) {
        assert run[1..][i] == run[i + 1];
      }
      RunKeepsFaithful(c, bodyOf, Apply(c, s, run[0]), run[1..]);
    }
  }

  // A term of an intact blob with its own layout is served, if it ends within the frames: the range
  // is in bounds and decompresses to exactly the term's chunks.
  ghost predicate ServedInFull(d: Decompressor, blob: Bytes, layout: seq<LayoutRow>, t: FileTerm) {
    t.chunkEnd <= |layout| ==>
      && RangeOk(layout, t)
      && var range := RangeOf(layout, t);
         && 0 <= range.first <= range.last < |blob|
         && Contents(d, blob).Chunks? && t.chunkEnd <= |Contents(d, blob).chunks|
         && Contents(d, blob[range.first..range.last + 1]) == Chunks(Contents(d, blob).chunks[t.chunkStart..t.chunkEnd])
  }

  lemma {:induction false} IntactIsServed(c: Codec, hash: XorbHash, blob: Bytes, t: FileTerm)
    requires Accepts(c, hash, blob) && ParseFrames(blob).Frames? && t.chunkStart < t.chunkEnd
    ensures ServedInFull(c.decompress, blob, BodyLayout(blob), t)
  {
    AcceptedHasFrames(c, hash, blob);
    if t.chunkEnd <= |BodyLayout(blob)| {
      TermIsServed(c.decompress, blob, t);
    }
  }

  // Then every blob's layout is complete and its own, and the terms of every registered file are
  // served in full.
  lemma {:induction false} ServedTermsAreTheirChunks(c: Codec, bodyOf: XorbHash -> Bytes, run: seq<Event>,
          h: FileHash, j: nat)
    requires Runs(c, EMPTY, run) && Canonical(bodyOf, run)
    requires h in After(c, EMPTY, run).terms && j < |After(c, EMPTY, run).terms[h]|
    ensures var s := After(c, EMPTY, run); var t := s.terms[h][j];
            && t.xorb in s.blobs && t.xorb in s.layouts
            && ParseFrames(s.blobs[t.xorb]).Frames? && s.layouts[t.xorb] == BodyLayout(s.blobs[t.xorb])
            && ServedInFull(c.decompress, s.blobs[t.xorb], s.layouts[t.xorb], t)
  {
    RunKeepsInv(c, EMPTY, run);
    RunKeepsFaithful(c, bodyOf, EMPTY, run);
    var s := After(c, EMPTY, run);
    var t := s.terms[h][j];
    assert Complete(s, t.xorb, s.blobs[t.xorb]);
    IntactIsServed(c, t.xorb, s.blobs[t.xorb], t);
  }

  // ---- When it does not: the first layout and the last blob ----

  // The hash covers the chunks, not their encoding, so it may stand for many bodies. Those that are
  // uploaded have equally many frames.
  ghost predicate SameCounts(run: seq<Event>) {
    forall i, j ::
      0 <= i < |run| && 0 <= j < |run| && run[i].StartXorb? && run[j].StartXorb? && run[i].hash == run[j].hash ==>
      CountOf(run[i].body) == CountOf(run[j].body)
  }

  function CountOf(body: Bytes): nat {
    match ParseFrames(body)
    case Frames(frames) => |frames|
    case Malformed(_) => 0
  }

  function LeavesOf(c: Codec, body: Bytes): seq<MerkleLeaf> {
    match Contents(c.decompress, body)
    case Chunks(chunks) => Leaves(c.dataHash, chunks)
    case Broken(_) => []
  }

  lemma {:induction false} StartsAccepted(c: Codec, s: Server, run: seq<Event>, i: nat)
    requires Runs(c, s, run) && i < |run| && run[i].StartXorb?
    ensures Accepts(c, run[i].hash, run[i].body)
    decreases i
  {
    if i > 0 {
      StartsAccepted(c, Apply(c, s, run[0]), run[1..], i - 1);
    }
  }

  lemma {:induction false} AcceptedCount(c: Codec, hash: XorbHash, body: Bytes)
    requires Accepts(c, hash, body)
    ensures CountOf(body) == |LeavesOf(c, body)| && c.merkle(LeavesOf(c, body)) == hash
  {
    AcceptedHasFrames(c, hash, body);
    ParsedInBounds(body);
    UnpackCounts(c.decompress, body, ParseFrames(body).frames, 0);
  }

  predicate Collide(c: Codec, a: Bytes, b: Bytes) {
    LeavesOf(c, a) != LeavesOf(c, b) && c.merkle(LeavesOf(c, a)) == c.merkle(LeavesOf(c, b))
  }

  // They do if the merkle hash does not collide on what is uploaded.
  lemma {:induction false} NoCollisionFixesCounts(c: Codec, run: seq<Event>)
    requires Runs(c, EMPTY, run)
    requires forall i, j :: 0 <= i < |run| && 0 <= j < |run| && run[i].StartXorb? && run[j].StartXorb? ==>
               !Collide(c, run[i].body, run[j].body)
    ensures SameCounts(run)
  {
    forall i | 0 <= i < |run| && run[i].StartXorb?
      ensures CountOf(run[i].body) == |LeavesOf(c, run[i].body)| && c.merkle(LeavesOf(c, run[i].body)) == run[i].hash
    {
      StartsAccepted(c, EMPTY, run, i);
      AcceptedCount(c, run[i].hash, run[i].body);
    }
    forall i, j | 0 <= i < |run| && 0 <= j < |run| && run[i].StartXorb? && run[j].StartXorb? &&
        run[i].hash == run[j].hash
      ensures CountOf(run[i].body) == CountOf(run[j].body)
    {
      assert !Collide(c, run[i].body, run[j].body);
    }
  }

  ghost predicate Counted(count: XorbHash -> nat, run: seq<Event>) {
    forall i :: 0 <= i < |run| && run[i].StartXorb? ==> CountOf(run[i].body) == count(run[i].hash)
  }

  lemma {:induction false} CountsChosen(run: seq<Event>) returns (count: XorbHash -> nat)
    requires SameCounts(run)
    ensures Counted(count, run)
  {
    count := x => if i: nat :| i < |run| && run[i].StartXorb? && run[i].hash == x then CountOf(run[i].body) else 0;
  }

  // The body of the first upload that writes a layout for `x`.
  ghost function FirstWritten(c: Codec, s: Server, run: seq<Event>, x: XorbHash): Option<Bytes>
    requires Runs(c, s, run)
    decreases |run|
  {
    if run == [] then None
    else if run[0].WriteLayout? && s.procs[run[0].id].hash == x then Some(s.procs[run[0].id].body)
    else FirstWritten(c, Apply(c, s, run[0]), run[1..], x)
  }

  // The body of the last upload that puts a blob for `x`.
  ghost function LastPut(c: Codec, s: Server, run: seq<Event>, x: XorbHash): Option<Bytes>
    requires Runs(c, s, run)
    decreases |run|
  {
    if run == [] then None
    else
      var later := LastPut(c, Apply(c, s, run[0]), run[1..], x);
      if later.None? && run[0].PutBlob? && s.procs[run[0].id].hash == x then Some(s.procs[run[0].id].body) else later
  }

  ghost predicate StateCounted(count: XorbHash -> nat, s: Server) {
    && (forall x :: x in s.layouts ==> |s.layouts[x]| == count(x))
    && (forall id :: id in s.procs && HasBody(s.procs[id]) ==> CountOf(s.procs[id].body) == count(s.procs[id].hash))
  }

  // What one event does to the layout of `x`, and to its blob.
  lemma {:induction false} LayoutStep(c: Codec, count: XorbHash -> nat, s: Server, e: Event, x: XorbHash)
    requires Inv(c, s) && StateCounted(count, s) && Allowed(c, s, e)
    requires e.StartXorb? ==> CountOf(e.body) == count(e.hash)
    ensures var s' := Apply(c, s, e);
            && StateCounted(count, s')
            && (x in s.layouts ==> x in s'.layouts && s'.layouts[x] == s.layouts[x])
            && (x !in s.layouts ==>
                  if e.WriteLayout? && s.procs[e.id].hash == x
                  then Accepts(c, x, s.procs[e.id].body) && ParseFrames(s.procs[e.id].body).Frames? &&
                       x in s'.layouts && s'.layouts[x] == BodyLayout(s.procs[e.id].body)
                  else x !in s'.layouts)
  {
    if e.WriteLayout? {
      assert ProcOk(c, s, s.procs[e.id]) && HasBody(s.procs[e.id]);
      AcceptedHasFrames(c, s.procs[e.id].hash, s.procs[e.id].body);
    }
  }

  lemma {:induction false} BlobStep(c: Codec, s: Server, e: Event, x: XorbHash)
    requires Inv(c, s) && Allowed(c, s, e)
    ensures var s' := Apply(c, s, e);
            if e.PutBlob? && s.procs[e.id].hash == x
            then Accepts(c, x, s.procs[e.id].body) && x in s'.blobs && s'.blobs[x] == s.procs[e.id].body
            else (x in s'.blobs <==> x in s.blobs) && (x in s.blobs ==> s'.blobs[x] == s.blobs[x])
  {
    if e.PutBlob? {
      assert ProcOk(c, s, s.procs[e.id]);
    }
  }

  // Whatever is uploaded under `x`: the layout stays that of the first body whose layout was written,
  // the blob is the last body that was put.
  lemma {:induction false} FirstLayoutLastBlob(c: Codec, count: XorbHash -> nat, s: Server, run: seq<Event>,
          x: XorbHash)
    requires Inv(c, s) && StateCounted(count, s) && Runs(c, s, run) && Counted(count, run)
    ensures var s', a := After(c, s, run), FirstWritten(c, s, run, x);
            if x in s.layouts then x in s'.layouts && s'.layouts[x] == s.layouts[x]
            else match a {
              case None => x !in s'.layouts
              case Some(body) =>
                Accepts(c, x, body) && ParseFrames(body).Frames? && x in s'.layouts && s'.layouts[x] == BodyLayout(body)
            }
    ensures var s', b := After(c, s, run), LastPut(c, s, run, x);
            match b {
              case None => (x in s'.blobs <==> x in s.blobs) && (x in s.blobs ==> s'.blobs[x] == s.blobs[x])
              case Some(body) => Accepts(c, x, body) && x in s'.blobs && s'.blobs[x] == body
            }
    decreases |run|
  {
    if run != [] {
      LayoutStep(c, count, s, run[0], x);
      BlobStep(c, s, run[0], x);
      StepKeepsInv(c, s, run[0]);
      forall i | 0 <= i < |run| - 1 ensures run[1..][i] == run[i + 1] {
      }
      FirstLayoutLastBlob(c, count, Apply(c, s, run[0]), run[1..], x);
    }
  }

  // In every reachable state a stored blob has its own layout exactly if the first body whose layout
  // was written and the last body that was put have equal layouts. Then terms are served in full.
  lemma {:induction false} LayoutIsTheBlobsOwn(c: Codec, run: seq<Event>, x: XorbHash)
    requires SameCounts(run) && Runs(c, EMPTY, run) && x in After(c, EMPTY, run).blobs
    ensures var s, a, b := After(c, EMPTY, run), FirstWritten(c, EMPTY, run, x), LastPut(c, EMPTY, run, x);
            && a.Some? && b.Some? && ParseFrames(a.value).Frames? && ParseFrames(b.value).Frames?
            && x in s.layouts && s.blobs[x] == b.value
            && (s.layouts[x] == BodyLayout(s.blobs[x]) <==> BodyLayout(a.value) == BodyLayout(b.value))
            && (BodyLayout(a.value) == BodyLayout(b.value) ==>
                  forall t: FileTerm :: t.chunkStart < t.chunkEnd ==>
                      ServedInFull(c.decompress, s.blobs[x], s.layouts[x], t))
  {
    var count := CountsChosen(run);
    FirstLayoutLastBlob(c, count, EMPTY, run, x);
    RunKeepsInv(c, EMPTY, run);
    var s := After(c, EMPTY, run);
    assert Complete(s, x, s.blobs[x]);
    if s.layouts[x] == BodyLayout(s.blobs[x]) {
      forall t: FileTerm | t.chunkStart < t.chunkEnd ensures ServedInFull(c.decompress, s.blobs[x], s.layouts[x], t) {
        IntactIsServed(c, x, s.blobs[x], t);
      }
    }
  }

  // The on-disk size that a shard upload derives from the stored rows: it is where the last row
  // ends, at most what was charged for the body that wrote them, and fits in u32.
  lemma {:induction false} StoredRowsAddUp(c: Codec, run: seq<Event>, x: XorbHash)
    requires SameCounts(run) && Runs(c, EMPTY, run) && x in After(c, EMPTY, run).layouts
    ensures var rows, a := After(c, EMPTY, run).layouts[x], FirstWritten(c, EMPTY, run, x);
            && rows != [] && a.Some?
            && var last := rows[|rows| - 1];
               RowBytes(rows) == last.start + last.length <= |a.value| <= MAX_BODY_BYTES < U32_LIMIT
  {
    var count := CountsChosen(run);
    FirstLayoutLastBlob(c, count, EMPTY, run, x);
    var body := FirstWritten(c, EMPTY, run, x).value;
    AcceptedSizes(body);
    RowsOfFrames(ParseFrames(body).frames);
  }

  lemma {:induction false} RowsOfFrames(frames: seq<Frame>)
    ensures RowBytes(LayoutOf(frames)) == OnDiskBytes(frames)
  {
    if frames != [] {
      assert LayoutOf(frames)[1..] == LayoutOf(frames[1..]);
      RowsOfFrames(frames[1..]);
    }
  }

  // ---- Two bodies mixed up ----

  // Two uploads of one hash: both write their layouts, then the second one its blob.
  function MixUp(x: XorbHash, a: Bytes, b: Bytes): seq<Event> {
    [StartXorb(1, x, a), StartXorb(2, x, b), WriteLayout(1), WriteLayout(2)] + [CheckBlob(2), PutBlob(2)]
  }

  lemma {:induction false} FirstStep(c: Codec, s: Server, run: seq<Event>, end: Server)
    requires run != [] && Allowed(c, s, run[0])
    requires run[1..] == [] ==> Apply(c, s, run[0]) == end
    requires run[1..] != [] ==> Runs(c, Apply(c, s, run[0]), run[1..]) && After(c, Apply(c, s, run[0]), run[1..]) == end
    ensures Runs(c, s, run) && After(c, s, run) == end
  {
  }

  lemma {:induction false} RunsConcat(c: Codec, s: Server, first: seq<Event>, second: seq<Event>)
    requires Runs(c, s, first) && Runs(c, After(c, s, first), second)
    ensures Runs(c, s, first + second) && After(c, s, first + second) == After(c, After(c, s, first), second)
    decreases |first|
  {
    if first == [] {
      assert first + second == second;
    } else {
      assert (first + second)[0] == first[0] && (first + second)[1..] == first[1..] + second;
      RunsConcat(c, Apply(c, s, first[0]), first[1..], second);
    }
  }

  lemma {:induction false} BothWriteLayouts(c: Codec, x: XorbHash, a: Bytes, b: Bytes) returns (end: Server)
    requires Accepts(c, x, a) && Accepts(c, x, b)
    requires ParseFrames(a).Frames? && ParseFrames(b).Frames?
    requires |ParseFrames(a).frames| == |ParseFrames(b).frames|
    ensures var run := [StartXorb(1, x, a), StartXorb(2, x, b), WriteLayout(1), WriteLayout(2)];
            Runs(c, EMPTY, run) && After(c, EMPTY, run) == end
    ensures end.layouts == map[x := BodyLayout(a)] && x !in end.blobs
    ensures 2 in end.procs && end.procs[2] == LayoutWritten(x, b)
  {
    var s1 := Apply(c, EMPTY, StartXorb(1, x, a));
    var s2 := Apply(c, s1, StartXorb(2, x, b));
    var s3 := Apply(c, s2, WriteLayout(1));
    assert s3.layouts == map[x := BodyLayout(a)];
    end := Apply(c, s3, WriteLayout(2));
    assert Merged(BodyLayout(a), BodyLayout(b)) == BodyLayout(a);
    assert end.layouts == s3.layouts;
    var run3 := [WriteLayout(2)];
    var run2 := [WriteLayout(1)] + run3;
    var run1 := [StartXorb(2, x, b)] + run2;
    FirstStep(c, s3, run3, end);
    FirstStep(c, s2, run2, end);
    FirstStep(c, s1, run1, end);
    FirstStep(c, EMPTY, [StartXorb(1, x, a)] + run1, end);
    assert [StartXorb(1, x, a)] + run1 == [StartXorb(1, x, a), StartXorb(2, x, b), WriteLayout(1), WriteLayout(2)];
  }

  lemma {:induction false} SecondPutsBlob(c: Codec, s: Server, x: XorbHash, b: Bytes) returns (end: Server)
    requires 2 in s.procs && s.procs[2] == LayoutWritten(x, b) && x !in s.blobs
    ensures var run := [CheckBlob(2), PutBlob(2)]; Runs(c, s, run) && After(c, s, run) == end
    ensures end.layouts == s.layouts && x in end.blobs && end.blobs[x] == b
  {
    var s1 := Apply(c, s, CheckBlob(2));
    end := Apply(c, s1, PutBlob(2));
    FirstStep(c, s1, [PutBlob(2)], end);
    FirstStep(c, s, [CheckBlob(2), PutBlob(2)], end);
  }

  // Two accepted bodies of one hash, uploaded at the same time, can leave the layout of the one with
  // the blob of the other.
  lemma {:induction false} TwoBodiesMixUp(c: Codec, x: XorbHash, a: Bytes, b: Bytes)
    requires Accepts(c, x, a) && Accepts(c, x, b)
    requires ParseFrames(a).Frames? && ParseFrames(b).Frames?
    requires |ParseFrames(a).frames| == |ParseFrames(b).frames|
    ensures Runs(c, EMPTY, MixUp(x, a, b))
    ensures var s := After(c, EMPTY, MixUp(x, a, b));
            && x in s.blobs && s.blobs[x] == b
            && x in s.layouts && s.layouts[x] == BodyLayout(a)
  {
    var first := [StartXorb(1, x, a), StartXorb(2, x, b), WriteLayout(1), WriteLayout(2)];
    var s := BothWriteLayouts(c, x, a, b);
    var _ := SecondPutsBlob(c, s, x, b);
    RunsConcat(c, EMPTY, first, [CheckBlob(2), PutBlob(2)]);
  }

  // The chunk [7], once stored as it is and once in a longer encoding.
  const PLAIN: Bytes := [0, 1, 0, 0, 0, 1, 0, 0, 7]
  const LONGER: Bytes := [0, 2, 0, 0, 1, 1, 0, 0, 7, 7]

  // Scheme 1 drops the last byte.
  function DropLast(scheme: nat, payload: Bytes): Option<Bytes> {
    if scheme == 0 || |payload| == 0 then Some(payload) else Some(payload[..|payload| - 1])
  }

  // Whatever the hash functions, there are two such bodies.
  lemma {:induction false} TwoBodiesExist(dataHash: Bytes -> nat, merkle: seq<MerkleLeaf> -> nat)
    ensures var c, x := Codec(DropLast, dataHash, merkle), merkle(Leaves(dataHash, [[7]]));
            && Accepts(c, x, PLAIN) && Accepts(c, x, LONGER)
            && ParseFrames(PLAIN) == Frames([Frame(0, 9, 1, 0)])
            && ParseFrames(LONGER) == Frames([Frame(0, 10, 1, 1)])
  {
    var c := Codec(DropLast, dataHash, merkle);
    assert FramesFrom(PLAIN, 9, 1) == Frames([]);
    assert FramesFrom(LONGER, 10, 1) == Frames([]);
    assert FrameAt(PLAIN, 0) == Frame(0, 9, 1, 0);
    assert FrameAt(LONGER, 0) == Frame(0, 10, 1, 1);
    OneChunk(c, PLAIN, Frame(0, 9, 1, 0));
    OneChunk(c, LONGER, Frame(0, 10, 1, 1));
    assert PLAIN[8..9] == [7] && LONGER[8..10] == [7, 7] && [7, 7][..1] == [7];
  }

  // With these two, and whatever the hash functions, the only frame of the stored blob is cut short.
  lemma {:induction false} MixedUpTermFails(dataHash: Bytes -> nat, merkle: seq<MerkleLeaf> -> nat)
    ensures var c, x := Codec(DropLast, dataHash, merkle), merkle(Leaves(dataHash, [[7]]));
            var t := FileTerm(x, 0, 1, 1, None);
            && Runs(c, EMPTY, MixUp(x, PLAIN, LONGER))
            && var s := After(c, EMPTY, MixUp(x, PLAIN, LONGER));
               && x in s.blobs && s.blobs[x] == LONGER && x in s.layouts
               && RangeOk(s.layouts[x], t) && RangeOf(s.layouts[x], t) == ByteRange(0, 8)
               && Contents(c.decompress, LONGER[0..9]) == Broken(Parse(Truncated(0, 10, 9)))
               && !ServedInFull(c.decompress, s.blobs[x], s.layouts[x], t)
  {
    var c, x := Codec(DropLast, dataHash, merkle), merkle(Leaves(dataHash, [[7]]));
    TwoBodiesExist(dataHash, merkle);
    TwoBodiesMixUp(c, x, PLAIN, LONGER);
    assert LONGER[0..9] == [0, 2, 0, 0, 1, 1, 0, 0, 7];
    assert FrameAt(LONGER[0..9], 0) == Frame(0, 10, 1, 1);
    assert FramesFrom(LONGER[0..9], 0, 0) == Malformed(Truncated(0, 10, 9));
  }

  lemma {:induction false} OneChunk(c: Codec, body: Bytes, f: Frame)
    requires ParseFrames(body) == Frames([f]) && HEADER_LEN <= f.length && EndOf(f) <= |body|
    requires InBounds(body, [f])
    ensures var chunk := c.decompress(f.scheme, Payload(body, f));
            chunk.Some? && |chunk.value| == f.unpacked ==> Contents(c.decompress, body) == Chunks([chunk.value])
  {
    assert Unpack(c.decompress, body, [f], 1) == Chunks([]);
  }
}
