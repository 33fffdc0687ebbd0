// The on-disk staging area as the code handles it: markers, objects and clean cache changed
// in place, one file at a time.
module StagingStore {
  import opened Wrappers
  import opened CommitWalk
  import opened StagingProtocol
  import opened StagingSafety

  // What one undisturbed gc makes of the disk.
  ghost function Reconciled(d: Disk, local: bool, r: Repo, gitLocked: bool, now: Time, grace: Time): Disk {
    var want := d.markers.Keys;
    var dead := Expired(d.markers, now, grace, want - LiveHashes(local, r, want));
    if gitLocked || dead == {} then d
    else
      var markers := d.markers - dead;
      var cache := WithoutHashes(d.cache, Orphaned(local, r, r.index, want, dead));
      if markers.Keys == {} then Disk(markers, {}, map[], cache) else Disk(markers, d.xorbs, d.shards, cache)
  }

  // `d'` is `d` with what gc may reclaim gone. A marker goes exactly if there is no git lock, it is
  // past the grace, and neither the index nor unpushed history (in local mode: any history) mentions
  // its hash. A cache entry goes exactly if its marker went and no history at all mentions its hash.
  // The objects go exactly if the last marker went.
  ghost predicate Reclaims(d: Disk, d': Disk, local: bool, r: Repo, gitLocked: bool, now: Time, grace: Time) {
    && (forall h :: h in d'.markers ==> h in d.markers && d'.markers[h] == d.markers[h])
    && (forall h :: h in d.markers ==> (h !in d'.markers <==>
          && !gitLocked && now > d.markers[h] + grace && !IndexHolds(r.index, h)
          && !(if local then Reachable(r.localTips + r.remoteTips, h)
               else IntroducedBetween(r.localTips, r.remoteTips, h))))
    && (forall k :: k in d'.cache ==> k in d.cache && d'.cache[k] == d.cache[k])
    && (forall k :: k in d.cache ==> (k !in d'.cache <==>
          && d.cache[k] in d.markers && d.cache[k] !in d'.markers
          && !Reachable(r.localTips + r.remoteTips, d.cache[k])))
    && (if d'.markers == map[] && d.markers != map[] then d'.xorbs == {} && d'.shards == map[]
        else d'.xorbs == d.xorbs && d'.shards == d.shards)
  }

  lemma {:induction false} DeadIsUnmentioned(d: Disk, local: bool, r: Repo, now: Time, grace: Time)
    ensures var want := d.markers.Keys;
            var dead := Expired(d.markers, now, grace, want - LiveHashes(local, r, want));
            && (forall h :: h in dead <==>
                  && h in want && now > d.markers[h] + grace && !IndexHolds(r.index, h)
                  && !(if local then Reachable(r.localTips + r.remoteTips, h)
                       else IntroducedBetween(r.localTips, r.remoteTips, h)))
            && (forall h :: h in Orphaned(local, r, r.index, want, dead) <==>
                  h in dead && !Reachable(r.localTips + r.remoteTips, h))
  {
    var want := d.markers.Keys;
    WalkExactWithoutHiding(r.index, want, r.localTips + r.remoteTips);
    if r.remoteTips == {} {
      assert r.localTips + r.remoteTips == r.localTips;
    }
  }

  lemma {:induction false} ReconciledReclaims(d: Disk, local: bool, r: Repo, gitLocked: bool, now: Time, grace: Time)
    ensures Reclaims(d, Reconciled(d, local, r, gitLocked, now, grace), local, r, gitLocked, now, grace)
  {
    DeadIsUnmentioned(d, local, r, now, grace);
    var want := d.markers.Keys;
    var dead := Expired(d.markers, now, grace, want - LiveHashes(local, r, want));
    if !gitLocked && dead != {} {
      var h :| h in dead;
      assert h in d.markers;
    }
  }

  function WithoutHashes(cache: map<PathKey, FileHash>, hashes: set<FileHash>): map<PathKey, FileHash> {
    map k | k in cache && cache[k] !in hashes :: cache[k]
  }

  // What the drain at the end of a push makes of it.
  function Drained(d: Disk, staged: set<FileHash>): Disk {
    var markers := d.markers - staged;
    if staged == {} then d
    else if markers.Keys == {} then Disk(markers, {}, map[], d.cache)
    else d.(markers := markers)
  }

  // One clean: `verified` says whether the payload passes the chunk index cached for its path. A
  // miss packs it into the xorbs `added` and a shard naming `refs`.
  datatype Cleaning = Cleaning(key: PathKey, verified: bool, hash: FileHash, added: set<Xorb>, refs: set<Xorb>,
          saved: bool)

  predicate IsHit(d: Disk, c: Cleaning) {
    c.key in d.cache && c.verified
  }

  // The hash in the pointer that git gets.
  function Emitted(d: Disk, c: Cleaning): FileHash {
    if IsHit(d, c) then d.cache[c.key] else c.hash
  }

  function Touched(d: Disk, h: FileHash, now: Time): Disk {
    if h in d.markers then d.(markers := d.markers[h := now]) else d
  }

  function Staged(d: Disk, c: Cleaning, now: Time): Disk {
    Disk(d.markers[c.hash := now], d.xorbs + c.added, d.shards[c.hash := c.refs],
         if c.saved then d.cache[c.key := c.hash] else d.cache)
  }

  function Cleaned(d: Disk, c: Cleaning, now: Time): Disk {
    if IsHit(d, c) then Touched(d, d.cache[c.key], now) else Staged(d, c, now)
  }

  class StagingArea {
    var markers: map<FileHash, Time>
    var xorbs: set<Xorb>
    var shards: map<FileHash, set<Xorb>>
    var cache: map<PathKey, FileHash>

    constructor ()
      ensures OnDisk() == Disk(map[], {}, map[], map[])
    {
      markers, xorbs, shards, cache := map[], {}, map[], map[];
    }

    function OnDisk(): Disk
      reads this
    {
      Disk(markers, xorbs, shards, cache)
    }

    method MarkFileStaged(h: FileHash, now: Time)
      modifies `markers
      ensures markers == old(markers)[h := now]
    {
      markers := markers[h := now];
    }

    // Never creates a marker: the content may have been drained.
    method TouchMarkerIfExists(h: FileHash, now: Time) returns (present: bool)
      modifies `markers
      ensures present == (h in old(markers))
      ensures markers == if present then old(markers)[h := now] else old(markers)
    {
      present := h in markers;
      if present {
        markers := markers[h := now];
      }
    }

    // A clean that nobody disturbs: touch on a hit, otherwise objects before the marker.
    method Clean(c: Cleaning, now: Time) returns (emitted: FileHash)
      modifies this
      ensures emitted == Emitted(old(OnDisk()), c)
      ensures OnDisk() == Cleaned(old(OnDisk()), c, now)
      // Only a verified payload gets the cached pointer, and then nothing but a marker is touched.
      ensures c.verified && c.key in old(cache) ==>
        && emitted == old(cache)[c.key] && xorbs == old(xorbs) && shards == old(shards) && cache == old(cache)
        && markers == if emitted in old(markers) then old(markers)[emitted := now] else old(markers)
      // Any other is staged under its own hash, with its objects and a marker of now.
      ensures !c.verified || c.key !in old(cache) ==>
        && emitted == c.hash && xorbs == old(xorbs) + c.added && shards == old(shards)[c.hash := c.refs]
        && markers == old(markers)[c.hash := now]
        && cache == if c.saved then old(cache)[c.key := c.hash] else old(cache)
    {
      if c.key in cache && c.verified {
        emitted := cache[c.key];
        var _ := TouchMarkerIfExists(emitted, now);
        return;
      }
      xorbs := xorbs + c.added;
      shards := shards[c.hash := c.refs];
      MarkFileStaged(c.hash, now);
      if c.saved {
        cache := cache[c.key := c.hash];
      }
      return c.hash;
    }

    method RemoveMarker(h: FileHash)
      modifies `markers
      ensures markers == old(markers) - {h}
    {
      markers := markers - {h};
    }

    method ForgetHashes(hashes: set<FileHash>) returns (removed: nat)
      modifies `cache
      ensures cache == WithoutHashes(old(cache), hashes)
      ensures forall k :: k in cache <==> k in old(cache) && old(cache)[k] !in hashes
      ensures forall k :: k in cache ==> cache[k] == old(cache)[k]
      ensures removed == |old(cache)| - |cache|
    {
      removed := 0;
      if hashes == {} {
        return;
      }
      var todo := cache.Keys;
      while todo != {}
        invariant todo <= cache.Keys <= old(cache).Keys
        invariant forall k :: k in cache ==> cache[k] == old(cache)[k]
        invariant forall k :: k in cache && k !in todo ==> cache[k] !in hashes
        invariant forall k :: k in old(cache) && old(cache)[k] !in hashes ==> k in cache
        invariant removed == |old(cache)| - |cache|
        decreases |todo|
      {
        var k :| k in todo;
        todo := todo - {k};
        if cache[k] in hashes {
          assert cache.Keys == (cache - {k}).Keys + {k};
          cache := cache - {k};
          removed := removed + 1;
        }
      }
    }

    method RemoveAllStagedObjects()
      modifies `xorbs, `shards
      ensures xorbs == {} && shards == map[]
    {
      while xorbs != {}
        decreases |xorbs|
      {
        var x :| x in xorbs;
        xorbs := xorbs - {x};
      }
      while shards.Keys != {}
        invariant xorbs == {}
        decreases |shards.Keys|
      {
        var h :| h in shards.Keys;
        assert (shards - {h}).Keys == shards.Keys - {h};
        shards := shards - {h};
      }
    }

    method RemoveMarkers(hashes: set<FileHash>)
      modifies `markers
      ensures markers == old(markers) - hashes
    {
      var todo := hashes;
      while todo != {}
        invariant todo <= hashes && markers == old(markers) - (hashes - todo)
        decreases |todo|
      {
        var h :| h in todo;
        RemoveMarker(h);
        todo := todo - {h};
      }
      assert hashes - {} == hashes;
    }

    // gc, run while nobody else touches the disk or the repository.
    method Reconcile(local: bool, r: Repo, gitLocked: bool, now: Time, grace: Time)
      modifies this
      ensures OnDisk() == Reconciled(old(OnDisk()), local, r, gitLocked, now, grace)
      ensures Reclaims(old(OnDisk()), OnDisk(), local, r, gitLocked, now, grace)
    {
      ReconciledReclaims(OnDisk(), local, r, gitLocked, now, grace);
      if !gitLocked {
        DropDead(local, r, now, grace);
      }
    }

    // Past the check for git locks.
    method DropDead(local: bool, r: Repo, now: Time, grace: Time)
      modifies this
      ensures OnDisk() == Reconciled(old(OnDisk()), local, r, false, now, grace)
    {
      if markers.Keys == {} {
        return;
      }
      var want := markers.Keys;
      var live: set<FileHash>;
      if local {
        live := ReachableHashes(r.index, want, r.localTips + r.remoteTips, {});
      } else {
        live := ReachableHashes(r.index, want, r.localTips, r.remoteTips);
      }
      var dead := Expired(markers, now, grace, want - live);
      if dead == {} {
        return;
      }
      RemoveMarkers(dead);
      var orphaned := dead;
      if !local && r.remoteTips != {} {
        var anywhere := ReachableHashes(r.index, want, r.localTips + r.remoteTips, {});
        orphaned := dead - anywhere;
      }
      var _ := ForgetHashes(orphaned);
      if markers.Keys == {} {
        RemoveAllStagedObjects();
      }
    }

    // The end of push-pending: drop the uploaded markers, sweep once none is left.
    method Drain(staged: set<FileHash>)
      modifies this
      ensures OnDisk() == Drained(old(OnDisk()), staged)
      ensures markers == old(markers) - staged && cache == old(cache)
      ensures if staged != {} && markers == map[] then xorbs == {} && shards == map[]
              else xorbs == old(xorbs) && shards == old(shards)
    {
      if staged == {} {
        return;
      }
      RemoveMarkers(staged);
      if markers.Keys == {} {
        RemoveAllStagedObjects();
      }
    }
  }

  // ---- The methods are runs of the protocol ----

  // The run ends in `end` without spoiling the cache; if `kept`, the environment has kept its side.
  ghost predicate Leads(s: State, run: seq<Event>, end: State, kept: bool) {
    Runs(s, run) && After(s, run) == end && KeepsCache(s, run) && (kept ==> Permitted(s, run))
  }

  lemma {:induction false} Prepend(s: State, e: Event, rest: seq<Event>, end: State, kept: bool)
    returns (run: seq<Event>)
    requires CodeAllows(s, e) && CacheGuard(s, e) && (kept ==> EnvironmentGuard(s, e))
    requires Leads(Apply(s, e), rest, end, kept)
    ensures run == [e] + rest && Leads(s, run, end, kept)
  {
    run := [e] + rest;
    assert run[0] == e && run[1..] == rest;
  }

  // The process has left `d` on the disk and is gone.
  function Gone(s: State, id: ProcId, d: Disk): State {
    Exit(s, id).(disk := d)
  }

  // Neither a step of its own nor the disk matters for what is left of a process that is gone.
  lemma {:induction false} SameGone(s: State, s': State, id: ProcId, d: Disk)
    requires s' == s.(procs := s'.procs, disk := s'.disk, lock := s'.lock)
    requires s'.procs - {id} == s.procs - {id} && Exit(s', id).lock == Exit(s, id).lock
    ensures Gone(s', id, d) == Gone(s, id, d)
  {
  }

  // ---- gc and drain ----

  predicate Sweeps(p: Proc) {
    p.GcSweeping? || p.PushSweeping?
  }

  function SweepsXorb(p: Proc, id: ProcId, x: Xorb): Event {
    if p.GcSweeping? then Gc(id, SweepXorb(x)) else Push(id, DrainXorb(x))
  }

  function SweepsShard(p: Proc, id: ProcId, h: FileHash): Event {
    if p.GcSweeping? then Gc(id, SweepShard(h)) else Push(id, DrainShard(h))
  }

  function SweepEnds(p: Proc, id: ProcId): Event {
    if p.GcSweeping? then Gc(id, SweepDone) else Push(id, PushDone)
  }

  lemma {:induction false} SweepEndsIt(s: State, id: ProcId) returns (run: seq<Event>)
    requires id in s.procs && Sweeps(s.procs[id])
    ensures Leads(s, run, Exit(s, id), true)
  {
    run := Prepend(s, SweepEnds(s.procs[id], id), [], Exit(s, id), true);
  }

  lemma {:induction false} SweepShards(s: State, id: ProcId) returns (run: seq<Event>)
    requires id in s.procs && Sweeps(s.procs[id])
    ensures Leads(s, run, Gone(s, id, s.disk.(shards := map[])), true)
    decreases |s.disk.shards|
  {
    var end := Gone(s, id, s.disk.(shards := map[]));
    if h :| h in s.disk.shards.Keys {
      assert s.disk.shards.Keys == (s.disk.shards - {h}).Keys + {h};
      run := SweepShards(s.(disk := s.disk.(shards := s.disk.shards - {h})), id);
      run := Prepend(s, SweepsShard(s.procs[id], id, h), run, end, true);
    } else {
      assert s.disk == s.disk.(shards := map[]);
      run := SweepEndsIt(s, id);
    }
  }

  lemma {:induction false} SweepCompletes(s: State, id: ProcId) returns (run: seq<Event>)
    requires id in s.procs && Sweeps(s.procs[id])
    ensures Leads(s, run, Gone(s, id, s.disk.(xorbs := {}, shards := map[])), true)
    decreases |s.disk.xorbs|
  {
    var end := Gone(s, id, s.disk.(xorbs := {}, shards := map[]));
    if x :| x in s.disk.xorbs {
      run := SweepCompletes(s.(disk := s.disk.(xorbs := s.disk.xorbs - {x})), id);
      run := Prepend(s, SweepsXorb(s.procs[id], id, x), run, end, true);
    } else {
      assert s.disk.(shards := map[]) == s.disk.(xorbs := {}, shards := map[]);
      run := SweepShards(s, id);
    }
  }

  function Swept(d: Disk): Disk {
    if d.markers.Keys == {} then d.(xorbs := {}, shards := map[]) else d
  }

  lemma {:induction false} ForgetDoneCompletes(s: State, id: ProcId) returns (run: seq<Event>)
    requires id in s.procs && s.procs[id].GcForgetting? && s.procs[id].unseen == {}
    ensures Leads(s, run, Gone(s, id, Swept(s.disk)), true)
  {
    var s' := ApplyGc(s, id, ForgetDone);
    run := [];
    if s.disk.markers.Keys == {} {
      run := SweepCompletes(s', id);
      SameGone(s, s', id, Swept(s.disk));
    }
    run := Prepend(s, Gc(id, ForgetDone), run, Gone(s, id, Swept(s.disk)), true);
  }

  function Forgotten(d: Disk, forget: set<FileHash>): Disk {
    Swept(d.(cache := WithoutHashes(d.cache, forget)))
  }

  // gc comes by the entry of `key`.
  lemma {:induction false} ForgetStep(s: State, id: ProcId, key: PathKey) returns (e: Event)
    requires id in s.procs && s.procs[id].GcForgetting? && key in s.procs[id].unseen
    requires forall k :: k in s.disk.cache && s.disk.cache[k] in s.procs[id].forget ==> k in s.procs[id].unseen
    ensures e.Gc? && CodeAllows(s, e) && EnvironmentGuard(s, e) && CacheGuard(s, e)
    ensures var s' := Apply(s, e);
            && id in s'.procs && s'.procs[id] == s.procs[id].(unseen := s.procs[id].unseen - {key})
            && (forall k :: k in s'.disk.cache && s'.disk.cache[k] in s'.procs[id].forget ==> k in s'.procs[id].unseen)
            && Forgotten(s'.disk, s.procs[id].forget) == Forgotten(s.disk, s.procs[id].forget)
            && forall d :: Gone(s', id, d) == Gone(s, id, d)
  {
    var cache, forget := s.disk.cache, s.procs[id].forget;
    var gone := key in cache && cache[key] in forget;
    e := Gc(id, ForgetEntry(key, gone));
    var s' := Apply(s, e);
    assert WithoutHashes(s'.disk.cache, forget) == WithoutHashes(cache, forget);
    forall d ensures Gone(s', id, d) == Gone(s, id, d) {
      assert s'.procs - {id} == s.procs - {id};
    }
  }

  lemma {:induction false} ForgetCompletes(s: State, id: ProcId) returns (run: seq<Event>)
    requires id in s.procs && s.procs[id].GcForgetting?
    requires forall k :: k in s.disk.cache && s.disk.cache[k] in s.procs[id].forget ==> k in s.procs[id].unseen
    ensures Leads(s, run, Gone(s, id, Forgotten(s.disk, s.procs[id].forget)), true)
    decreases |s.procs[id].unseen|
  {
    var forget := s.procs[id].forget;
    if k :| k in s.procs[id].unseen {
      var e := ForgetStep(s, id, k);
      run := ForgetCompletes(Apply(s, e), id);
      run := Prepend(s, e, run, Gone(s, id, Forgotten(s.disk, forget)), true);
    } else {
      assert WithoutHashes(s.disk.cache, forget) == s.disk.cache;
      run := ForgetDoneCompletes(s, id);
    }
  }

  ghost function Dropped(s: State, p: Proc): Disk
    requires p.GcDropping?
  {
    Forgotten(s.disk.(markers := s.disk.markers - p.todo), Orphaned(s.local, p.snap, s.repo.index, p.want, p.dead))
  }

  lemma {:induction false} DropDoneCompletes(s: State, id: ProcId) returns (run: seq<Event>)
    requires id in s.procs && s.procs[id].GcDropping? && s.procs[id].todo == {}
    ensures Leads(s, run, Gone(s, id, Dropped(s, s.procs[id])), true)
  {
    assert s.disk.markers - {} == s.disk.markers;
    var s' := ApplyGc(s, id, DropDone);
    run := ForgetCompletes(s', id);
    SameGone(s, s', id, Dropped(s, s.procs[id]));
    run := Prepend(s, Gc(id, DropDone), run, Gone(s, id, Dropped(s, s.procs[id])), true);
  }

  lemma {:induction false} DropStep(s: State, id: ProcId, h: FileHash)
    requires id in s.procs && s.procs[id].GcDropping? && h in s.procs[id].todo
    ensures var s' := ApplyGc(s, id, DropMarker(h));
            && id in s'.procs && s'.procs[id] == s.procs[id].(todo := s.procs[id].todo - {h})
            && Dropped(s', s'.procs[id]) == Dropped(s, s.procs[id])
            && Gone(s', id, Dropped(s, s.procs[id])) == Gone(s, id, Dropped(s, s.procs[id]))
  {
    var s', todo := ApplyGc(s, id, DropMarker(h)), s.procs[id].todo;
    assert (s.disk.markers - {h}) - (todo - {h}) == s.disk.markers - todo;
    SameGone(s, s', id, Dropped(s, s.procs[id]));
  }

  lemma {:induction false} DropCompletes(s: State, id: ProcId) returns (run: seq<Event>)
    requires id in s.procs && s.procs[id].GcDropping?
    ensures Leads(s, run, Gone(s, id, Dropped(s, s.procs[id])), true)
    decreases |s.procs[id].todo|
  {
    var p := s.procs[id];
    if p.todo == {} {
      run := DropDoneCompletes(s, id);
    } else {
      var h :| h in p.todo;
      DropStep(s, id, h);
      run := DropCompletes(ApplyGc(s, id, DropMarker(h)), id);
      run := Prepend(s, Gc(id, DropMarker(h)), run, Gone(s, id, Dropped(s, p)), true);
    }
  }

  // What gc, run without interruption, makes of the disk once it has found no git lock.
  ghost function Outcome(s: State): Disk {
    Reconciled(s.disk, s.local, s.repo, false, s.now, s.grace)
  }

  lemma {:induction false} ReadClockCompletes(s: State, id: ProcId, kept: bool) returns (run: seq<Event>)
    requires id in s.procs && s.procs[id].GcSnapshot?
    requires s.procs[id].want == s.disk.markers.Keys && s.procs[id].snap == s.repo
    requires kept ==> ExposedSpared(s, s.procs[id])
    ensures Leads(s, run, Gone(s, id, Outcome(s)), kept)
  {
    var s' := ApplyGc(s, id, ReadClock);
    run := [];
    if id in s'.procs {
      run := DropCompletes(s', id);
      SameGone(s, s', id, Outcome(s));
    }
    run := Prepend(s, Gc(id, ReadClock), run, Gone(s, id, Outcome(s)), kept);
  }

  lemma {:induction false} ReadRepoCompletes(s: State, id: ProcId, kept: bool) returns (run: seq<Event>)
    requires id in s.procs && s.procs[id] == GcListed(s.disk.markers.Keys)
    requires kept ==> AllCovered(s) && GcCommitted(s)
    ensures Leads(s, run, Gone(s, id, Outcome(s)), kept)
  {
    var s' := ApplyGc(s, id, ReadRepo);
    if kept {
      forall h | h in s'.procs[id].exposed ensures h in s'.server || Young(s', h) {
        var e :| e in s.pending && e.hash == h;
        assert Covered(s, e);
      }
      YoungIsSpared(s', s'.procs[id]);
    }
    run := ReadClockCompletes(s', id, kept);
    SameGone(s, s', id, Outcome(s));
    run := Prepend(s, Gc(id, ReadRepo), run, Gone(s, id, Outcome(s)), kept);
  }

  lemma {:induction false} CheckedCompletes(s: State, id: ProcId, kept: bool) returns (run: seq<Event>)
    requires id in s.procs && s.procs[id].GcChecked?
    requires kept ==> AllCovered(s) && GcCommitted(s)
    ensures Leads(s, run, Gone(s, id, Outcome(s)), kept)
  {
    var s' := ApplyGc(s, id, ListMarkers);
    run := [];
    if s.disk.markers.Keys != {} {
      run := ReadRepoCompletes(s', id, kept);
      SameGone(s, s', id, Outcome(s));
    }
    run := Prepend(s, Gc(id, ListMarkers), run, Gone(s, id, Outcome(s)), kept);
  }

  lemma {:induction false} LockedCompletes(s: State, id: ProcId, kept: bool) returns (run: seq<Event>)
    requires id in s.procs && s.procs[id] == GcLocked && s.lock == Some(id)
    requires kept ==> AllCovered(s)
    ensures Leads(s, run, Gone(s, id, Reconciled(s.disk, s.local, s.repo, s.gitLocks != {}, s.now, s.grace)), kept)
  {
    var d := Reconciled(s.disk, s.local, s.repo, s.gitLocks != {}, s.now, s.grace);
    var s' := ApplyGc(s, id, CheckGit);
    run := [];
    if s.gitLocks == {} {
      assert AllCovered(s) ==> AllCovered(s');
      run := CheckedCompletes(s', id, kept);
      SameGone(s, s', id, d);
    }
    run := Prepend(s, Gc(id, CheckGit), run, Gone(s, id, d), kept);
  }

  // The method `Reconcile` is the protocol's gc run without interruption, whatever the state. If what
  // is pending is covered, every step is one the safety theorem covers.
  lemma {:induction false} ReconcileIsAGcRun(s: State, id: ProcId) returns (run: seq<Event>)
    requires s.lock == None && id !in s.procs
    ensures Runs(s, run) && KeepsCache(s, run)
    ensures After(s, run) == s.(disk := Reconciled(s.disk, s.local, s.repo, s.gitLocks != {}, s.now, s.grace))
    ensures AllCovered(s) ==> Permitted(s, run)
  {
    var end := s.(disk := Reconciled(s.disk, s.local, s.repo, s.gitLocks != {}, s.now, s.grace));
    var s' := ApplyGc(s, id, TryLock);
    assert s'.procs - {id} == s.procs;
    assert AllCovered(s) ==> AllCovered(s') by {
      if AllCovered(s) {
        forall e | e in s'.pending ensures Covered(s', e) {
          assert Covered(s, e);
        }
      }
    }
    run := LockedCompletes(s', id, AllCovered(s));
    run := Prepend(s, Gc(id, TryLock), run, end, AllCovered(s));
  }

  lemma {:induction false} DrainDoneCompletes(s: State, id: ProcId) returns (run: seq<Event>)
    requires id in s.procs && s.procs[id].PushDraining? && s.procs[id].todo == {}
    ensures Leads(s, run, Gone(s, id, Swept(s.disk)), true)
  {
    var s' := ApplyPush(s, id, DrainDone);
    run := [];
    if s.disk.markers.Keys == {} {
      run := SweepCompletes(s', id);
      SameGone(s, s', id, Swept(s.disk));
    }
    run := Prepend(s, Push(id, DrainDone), run, Gone(s, id, Swept(s.disk)), true);
  }

  lemma {:induction false} DrainCompletes(s: State, id: ProcId) returns (run: seq<Event>)
    requires id in s.procs && s.procs[id].PushDraining?
    ensures Leads(s, run, Gone(s, id, Swept(s.disk.(markers := s.disk.markers - s.procs[id].todo))), true)
    decreases |s.procs[id].todo|
  {
    var todo := s.procs[id].todo;
    var d := Swept(s.disk.(markers := s.disk.markers - todo));
    if h :| h in todo {
      var s' := ApplyPush(s, id, Drain(h));
      assert (s.disk.markers - {h}) - (todo - {h}) == s.disk.markers - todo;
      run := DrainCompletes(s', id);
      SameGone(s, s', id, d);
      run := Prepend(s, Push(id, Drain(h)), run, Gone(s, id, d), true);
    } else {
      assert s.disk.markers - todo == s.disk.markers;
      run := DrainDoneCompletes(s, id);
    }
  }

  // The method `Drain` is what a push does after its upload, every step one the theorem covers.
  lemma {:induction false} DrainIsAPushRun(s: State, id: ProcId) returns (run: seq<Event>)
    requires LockOk(s) && s.lock == None && id in s.procs && s.procs[id].PushFinalized?
    ensures Permitted(s, run) && KeepsCache(s, run) && After(s, run) == Gone(s, id, Drained(s.disk, s.procs[id].staged))
  {
    var staged := s.procs[id].staged;
    var end := Gone(s, id, Drained(s.disk, staged));
    if staged == {} {
      run := Prepend(s, Crash(id), [], end, true);
    } else {
      var s' := ApplyPush(s, id, LockStore);
      run := DrainCompletes(s', id);
      SameGone(s, s', id, Drained(s.disk, staged));
      run := Prepend(s, Push(id, LockStore), run, end, true);
    }
  }

  // ---- Pushes ----

  ghost predicate CanUpload(s: State, id: ProcId) {
    && LockOk(s) && s.lock == None && id in s.procs && s.procs[id].PushUploading?
    && s.procs[id].uploaded <= s.procs[id].staged && s.procs[id].sourced <= s.procs[id].fromRefs
    && (forall h :: h in s.procs[id].staged ==> Backed(s.disk, h))
    && s.procs[id].fromRefs <= s.server + s.elsewhere
  }

  // What a push leaves behind: all it has listed is on the server, and drained.
  function Pushed(s: State, id: ProcId, staged: set<FileHash>, fromRefs: set<FileHash>): State {
    Gone(s, id, Drained(s.disk, staged)).(server := s.server + staged + fromRefs)
  }

  lemma {:induction false} UploadedCompletes(s: State, id: ProcId) returns (run: seq<Event>)
    requires CanUpload(s, id)
    requires s.procs[id].uploaded == s.procs[id].staged && s.procs[id].sourced == s.procs[id].fromRefs
    ensures Leads(s, run, Pushed(s, id, s.procs[id].staged, s.procs[id].fromRefs), true)
  {
    var p := s.procs[id];
    var s' := ApplyPush(s, id, Finalize);
    run := DrainIsAPushRun(s', id);
    run := Prepend(s, Push(id, Finalize), run, Pushed(s, id, p.staged, p.fromRefs), true);
  }

  predicate IsNext(p: Proc, e: PushEvent, h: FileHash)
    requires p.PushUploading?
  {
    (e == Upload(h) && h in p.staged - p.uploaded) || (e == Source(h) && h in p.fromRefs - p.sourced)
  }

  function FilesLeft(p: Proc): nat
    requires p.PushUploading?
  {
    |p.staged - p.uploaded| + |p.fromRefs - p.sourced|
  }

  function WithFile(p: Proc, e: PushEvent, h: FileHash): Proc
    requires p.PushUploading?
  {
    if e == Upload(h) then p.(uploaded := p.uploaded + {h}) else p.(sourced := p.sourced + {h})
  }

  lemma {:induction false} FewerLeft(p: Proc, e: PushEvent, h: FileHash)
    requires p.PushUploading? && IsNext(p, e, h)
    ensures FilesLeft(WithFile(p, e, h)) < FilesLeft(p)
  {
    assert p.staged - (p.uploaded + {h}) == p.staged - p.uploaded - {h};
    assert p.fromRefs - (p.sourced + {h}) == p.fromRefs - p.sourced - {h};
  }

  // One file more, whatever else is left.
  lemma {:induction false} UploadStep(s: State, id: ProcId, e: PushEvent, h: FileHash)
    requires CanUpload(s, id) && IsNext(s.procs[id], e, h)
    ensures CodeAllows(s, Push(id, e)) && EnvironmentGuard(s, Push(id, e)) && CacheGuard(s, Push(id, e))
    ensures Apply(s, Push(id, e)) == Goto(s, id, WithFile(s.procs[id], e, h))
    ensures CanUpload(Goto(s, id, WithFile(s.procs[id], e, h)), id)
  {
  }

  lemma {:induction false} SamePushed(s: State, id: ProcId, p: Proc, staged: set<FileHash>, fromRefs: set<FileHash>)
    requires !HoldsLock(p)
    ensures Pushed(Goto(s, id, p), id, staged, fromRefs) == Pushed(s, id, staged, fromRefs)
  {
    assert Goto(s, id, p).procs - {id} == s.procs - {id};
  }

  lemma {:induction false} UploadCompletes(s: State, id: ProcId) returns (run: seq<Event>)
    requires CanUpload(s, id)
    ensures Leads(s, run, Pushed(s, id, s.procs[id].staged, s.procs[id].fromRefs), true)
    decreases FilesLeft(s.procs[id])
  {
    var p := s.procs[id];
    if p.uploaded == p.staged && p.sourced == p.fromRefs {
      run := UploadedCompletes(s, id);
    } else {
      var e, h := NextFile(p);
      UploadStep(s, id, e, h);
      FewerLeft(p, e, h);
      SamePushed(s, id, WithFile(p, e, h), p.staged, p.fromRefs);
      run := UploadCompletes(Goto(s, id, WithFile(p, e, h)), id);
      run := Prepend(s, Push(id, e), run, Pushed(s, id, p.staged, p.fromRefs), true);
    }
  }

  lemma {:induction false} NextFile(p: Proc) returns (e: PushEvent, h: FileHash)
    requires p.PushUploading? && p.uploaded <= p.staged && p.sourced <= p.fromRefs
    requires !(p.uploaded == p.staged && p.sourced == p.fromRefs)
    ensures IsNext(p, e, h)
  {
    if p.uploaded != p.staged {
      assert p.uploaded + (p.staged - p.uploaded) == p.staged;
      h :| h in p.staged - p.uploaded;
      e := Upload(h);
    } else {
      assert p.sourced + (p.fromRefs - p.sourced) == p.fromRefs;
      h :| h in p.fromRefs - p.sourced;
      e := Source(h);
    }
  }

  // An undisturbed push whose pointers are staged or to be found elsewhere: it succeeds, everything
  // staged and everything the pushed commits add is on the server, and the store is empty.
  lemma {:induction false} PushIsARun(s: State, id: ProcId, tips: set<Commit>, reported: set<Commit>)
    returns (run: seq<Event>)
    requires LockOk(s) && s.lock == None && id !in s.procs && !s.local && MarkersBacked(s)
    requires SizedPointers(tips, reported) - s.disk.markers.Keys <= s.server + s.elsewhere
    ensures Permitted(s, run) && KeepsCache(s, run)
    ensures After(s, run).server == s.server + s.disk.markers.Keys + SizedPointers(tips, reported)
    ensures var d := if s.disk.markers == map[] then s.disk else Disk(map[], {}, map[], s.disk.cache);
            After(s, run) == s.(server := After(s, run).server, disk := d)
  {
    var staged := s.disk.markers.Keys;
    var fromRefs := SizedPointers(tips, reported) - staged;
    var s1 := ApplyPush(s, id, ListStaged(tips, reported));
    var s2 := ApplyPush(s1, id, ReadRefs);
    var end := Pushed(s2, id, staged, fromRefs);
    run := UploadCompletes(s2, id);
    assert s2.procs - {id} == s.procs;
    assert s.disk.markers - staged == map[];
    assert s.server + staged + fromRefs == s.server + staged + SizedPointers(tips, reported);
    run := Prepend(s1, Push(id, ReadRefs), run, end, true);
    run := Prepend(s, Push(id, ListStaged(tips, reported)), run, end, true);
  }

  // ---- Cleans ----

  // The state after an undisturbed clean: the disk has changed and git has the pointer.
  function AfterClean(s: State, op: OpId, c: Cleaning): State {
    s.(disk := Cleaned(s.disk, c, s.now), pending := s.pending + {Emission(op, Emitted(s.disk, c))})
  }

  lemma {:induction false} HitIsARun(s: State, id: ProcId, op: OpId, c: Cleaning) returns (run: seq<Event>)
    requires s.lock == None && id !in s.procs && IsHit(s.disk, c)
    ensures Leads(s, run, AfterClean(s, op, c), Safe(s, s.disk.cache[c.key]))
  {
    var end, kept := AfterClean(s, op, c), Safe(s, s.disk.cache[c.key]);
    var s1 := ApplyClean(s, id, LoadHit(op, c.key));
    var s2 := ApplyClean(s1, id, LockHit);
    var s3 := ApplyClean(s2, id, TouchMarker);
    assert s3.procs - {id} == s.procs;
    run := Prepend(s3, Clean(id, EmitHit), [], end, kept);
    run := Prepend(s2, Clean(id, TouchMarker), run, end, kept);
    run := Prepend(s1, Clean(id, LockHit), run, end, kept);
    run := Prepend(s, Clean(id, LoadHit(op, c.key)), run, end, kept);
  }

  // From the marker on.
  lemma {:induction false} MarkedIsEmitted(s: State, id: ProcId, op: OpId, key: PathKey, h: FileHash, saved: bool)
    returns (run: seq<Event>, end: State)
    requires id in s.procs && s.procs[id] == MissMarked(op, key, h) && s.lock == Some(id)
    ensures Leads(s, run, end, true)
    ensures end == Gone(s, id, if saved then s.disk.(cache := s.disk.cache[key := h]) else s.disk)
                   .(pending := s.pending + {Emission(op, h)})
  {
    var s1 := ApplyClean(s, id, EmitMiss);
    end := ApplyClean(s1, id, EndMiss(saved));
    assert s1.procs - {id} == s.procs - {id};
    run := Prepend(s1, Clean(id, EndMiss(saved)), [], end, true);
    run := Prepend(s, Clean(id, EmitMiss), run, end, true);
  }

  lemma {:induction false} MissIsARun(s: State, id: ProcId, op: OpId, c: Cleaning) returns (run: seq<Event>)
    requires s.lock == None && id !in s.procs && !IsHit(s.disk, c) && c.refs <= s.disk.xorbs + c.added
    ensures Leads(s, run, AfterClean(s, op, c), true)
  {
    var s1 := ApplyClean(s, id, BeginMiss(op, c.key, c.hash));
    var s2 := ApplyClean(s1, id, WriteObjects(c.added, c.refs));
    var s3 := ApplyClean(s2, id, WriteMarker);
    var end;
    run, end := MarkedIsEmitted(s3, id, op, c.key, c.hash, c.saved);
    assert s3.procs - {id} == s.procs;
    assert end == AfterClean(s, op, c);
    run := Prepend(s2, Clean(id, WriteMarker), run, end, true);
    run := Prepend(s1, Clean(id, WriteObjects(c.added, c.refs)), run, end, true);
    run := Prepend(s, Clean(id, BeginMiss(op, c.key, c.hash)), run, end, true);
  }

  // The method `Clean` is the protocol's clean run without interruption, hit or miss. Where the
  // invariant holds and the cache is good, it needs nothing of the environment, and the pointer it
  // returns names safe content.
  lemma {:induction false} CleanIsARun(s: State, id: ProcId, op: OpId, c: Cleaning) returns (run: seq<Event>)
    requires s.lock == None && id !in s.procs && c.refs <= s.disk.xorbs + c.added
    ensures Runs(s, run) && KeepsCache(s, run) && After(s, run) == AfterClean(s, op, c)
    ensures CacheSafe(s) ==> Permitted(s, run)
    ensures Inv(s) && CacheSafe(s) ==> Safe(After(s, run), Emitted(s.disk, c))
  {
    if IsHit(s.disk, c) {
      run := HitIsARun(s, id, op, c);
    } else {
      run := MissIsARun(s, id, op, c);
    }
    if Inv(s) && CacheSafe(s) {
      RunKeepsInv(s, run);
      assert Emission(op, Emitted(s.disk, c)) in After(s, run).pending;
    }
  }
}
