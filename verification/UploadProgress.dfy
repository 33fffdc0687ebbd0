// Uploads that nobody holds up run to their end, and what they leave in the stores.
module UploadProgress {
  import opened Bytes
  import opened FileTerms
  import opened XorbFrames
  import opened Reconstruction
  import opened UploadProtocol

  lemma {:induction false} Prepend(c: Codec, s: Server, e: Event, rest: seq<Event>) returns (run: seq<Event>)
    requires Allowed(c, s, e) && Runs(c, Apply(c, s, e), rest)
    ensures Runs(c, s, run) && After(c, s, run) == After(c, Apply(c, s, e), rest)
  {
    run := [e] + rest;
    assert run[0] == e && run[1..] == rest;
  }

  // ---- A xorb ----

  // From the layout on.
  lemma {:induction false} BlobIsPut(c: Codec, s: Server, id: ProcId) returns (run: seq<Event>)
    requires id in s.procs && s.procs[id].LayoutWritten?
    ensures Runs(c, s, run)
    ensures var p := s.procs[id];
            After(c, s, run) == s.(procs := s.procs - {id},
                                   blobs := if p.hash in s.blobs then s.blobs else s.blobs[p.hash := p.body])
  {
    var p, s1 := s.procs[id], Apply(c, s, CheckBlob(id));
    run := [];
    if p.hash !in s.blobs {
      run := Prepend(c, s1, PutBlob(id), run);
      assert s1.procs - {id} == s.procs - {id};
    }
    run := Prepend(c, s, CheckBlob(id), run);
  }

  // The row that the frame is registered with.
  predicate IsRowOf(row: LayoutRow, f: Frame) {
    row.start == f.start && row.length == f.length && row.unpacked == f.unpacked
  }

  // The rows there were stay; each frame without one gets its own.
  ghost predicate IsFilled(there: seq<LayoutRow>, frames: seq<Frame>, rows: seq<LayoutRow>) {
    && |rows| >= |there| && |rows| >= |frames| && (|rows| == |there| || |rows| == |frames|)
    && (forall i :: 0 <= i < |there| ==> rows[i] == there[i])
    && (forall i :: |there| <= i < |rows| ==> IsRowOf(rows[i], frames[i]))
  }

  lemma {:induction false} LayoutIsFilled(there: seq<LayoutRow>, frames: seq<Frame>)
    ensures IsFilled(there, frames, Merged(there, LayoutOf(frames)))
  {
  }

  // An accepted body that is uploaded ends as a blob with a row for each of its frames. A blob that is
  // there stays, and so do rows.
  lemma {:induction false} XorbIsUploaded(c: Codec, s: Server, id: ProcId, hash: XorbHash, body: Bytes)
    returns (run: seq<Event>)
    requires id !in s.procs && Accepts(c, hash, body)
    ensures Runs(c, s, run) && ParseFrames(body).Frames?
    ensures var s' := After(c, s, run);
            && s' == s.(layouts := s'.layouts, blobs := s'.blobs)
            && s'.blobs == (if hash in s.blobs then s.blobs else s.blobs[hash := body])
            && hash in s'.layouts && s'.layouts == s.layouts[hash := s'.layouts[hash]]
            && IsFilled(if hash in s.layouts then s.layouts[hash] else [], ParseFrames(body).frames, s'.layouts[hash])
  {
    AcceptedHasFrames(c, hash, body);
    var s1 := Apply(c, s, StartXorb(id, hash, body));
    var s2 := Apply(c, s1, WriteLayout(id));
    LayoutIsFilled(if hash in s.layouts then s.layouts[hash] else [], ParseFrames(body).frames);
    run := BlobIsPut(c, s2, id);
    assert s2.procs - {id} == s.procs;
    run := Prepend(c, s1, WriteLayout(id), run);
    run := Prepend(c, s, StartXorb(id, hash, body), run);
  }

  // ---- A shard ----

  // After its last step, each file of the shard with terms has a list: the one there was, or the first
  // that the shard sends.
  lemma {:induction false} FilesAreRegistered(c: Codec, s: Server, id: ProcId)
    requires Allowed(c, s, RegisterFiles(id))
    ensures var s', shard := Apply(c, s, RegisterFiles(id)), s.procs[id].shard;
            && (forall i :: 0 <= i < |shard.files| && shard.files[i].terms != [] ==> shard.files[i].hash in s'.terms)
            && (forall i :: 0 <= i < |shard.files| ==>
                  shard.files[i].hash in s'.origin && s'.origin[shard.files[i].hash] == shard.archive)
            && (forall h :: h in s.terms ==> h in s'.terms && s'.terms[h] == s.terms[h])
            && (forall h :: h in s'.terms && h !in s.terms ==>
                  exists i :: 0 <= i < |shard.files| && shard.files[i].hash == h && shard.files[i].terms == s'.terms[h])
  {
    var files := s.procs[id].shard.files;
    forall h
      ensures h in s.terms ==> h in WithLists(s.terms, files) && WithLists(s.terms, files)[h] == s.terms[h]
      ensures h in WithLists(s.terms, files) && h !in s.terms ==>
                exists i :: 0 <= i < |files| && files[i].hash == h && files[i].terms == WithLists(s.terms, files)[h]
      ensures forall i :: 0 <= i < |files| && files[i].hash == h && files[i].terms != [] ==>
                h in WithLists(s.terms, files)
    {
      ListsComeFrom(s.terms, files, h);
    }
  }

  lemma {:induction false} XorbsAreChecked(c: Codec, s: Server, id: ProcId) returns (run: seq<Event>)
    requires id in s.procs && s.procs[id].ShardChecking? && s.procs[id].unchecked <= s.blobs.Keys
    ensures Runs(c, s, run) && After(c, s, run) == s.(procs := s.procs[id := s.procs[id].(unchecked := {})])
    decreases |s.procs[id].unchecked|
  {
    var p := s.procs[id];
    if x :| x in p.unchecked {
      var s' := Apply(c, s, CheckXorb(id, x));
      run := XorbsAreChecked(c, s', id);
      run := Prepend(c, s, CheckXorb(id, x), run);
    } else {
      run := [];
      assert p.unchecked == {};
      assert s.procs[id := p.(unchecked := {})] == s.procs;
    }
  }

  // The lists of `terms` stay, and each file with terms has one.
  ghost predicate HasLists(terms: map<FileHash, seq<FileTerm>>, files: seq<Registration>,
          terms': map<FileHash, seq<FileTerm>>) {
    && (forall i :: 0 <= i < |files| && files[i].terms != [] ==> files[i].hash in terms')
    && (forall h :: h in terms ==> h in terms' && terms'[h] == terms[h])
  }

  lemma {:induction false} CheckedIsRegistered(c: Codec, s: Server, id: ProcId) returns (run: seq<Event>)
    requires id in s.procs && s.procs[id].ShardChecking? && s.procs[id].unchecked == {}
    ensures Runs(c, s, run)
    ensures var s', shard := After(c, s, run), s.procs[id].shard;
            && s' == s.(archives := s.archives + {shard.archive}, terms := s'.terms, origin := s'.origin,
                        procs := s.procs - {id})
            && HasLists(s.terms, shard.files, s'.terms)
  {
    var s' := Apply(c, s, PutArchive(id));
    FilesAreRegistered(c, s', id);
    run := Prepend(c, s', RegisterFiles(id), []);
    run := Prepend(c, s, PutArchive(id), run);
    assert s'.procs - {id} == s.procs - {id};
  }

  // A shard whose xorbs are all stored is registered: its archive is there, and every file of it
  // that has terms.
  lemma {:induction false} ShardIsUploaded(c: Codec, s: Server, id: ProcId, shard: Shard) returns (run: seq<Event>)
    requires id !in s.procs && shard.blocks <= s.blobs.Keys
    requires forall i, j :: 0 <= i < |shard.files| && 0 <= j < |shard.files[i].terms| ==>
               var t := shard.files[i].terms[j]; t.xorb in s.blobs && t.chunkStart < t.chunkEnd
    ensures Runs(c, s, run)
    ensures var s' := After(c, s, run);
            && s' == s.(archives := s.archives + {shard.archive}, terms := s'.terms, origin := s'.origin)
            && HasLists(s.terms, shard.files, s'.terms)
  {
    var s1 := Apply(c, s, StartShard(id, shard));
    var first := XorbsAreChecked(c, s1, id);
    var rest := CheckedIsRegistered(c, After(c, s1, first), id);
    RunsConcat(c, s1, first, rest);
    run := Prepend(c, s, StartShard(id, shard), first + rest);
    assert After(c, s1, first).procs - {id} == s.procs;
  }
}
