// Why the protocol needs its guards: with one of them dropped, content is lost. The states that
// show it are reached by the code alone.
module StagingHazards {
  import opened Wrappers
  import opened CommitWalk
  import opened StagingProtocol
  import opened StagingSafety
  import opened StagingStore

  function HitRest(hit: ProcId): seq<Event> {
    [Clean(hit, LockHit), Clean(hit, TouchMarker), Clean(hit, EmitHit)]
  }

  // The rest of the hit goes through, and git has been promised content that is gone.
  ghost predicate PromisesLost(s: State, hit: ProcId, h: FileHash) {
    Runs(s, HitRest(hit)) && IsPending(After(s, HitRest(hit)), h) && !Safe(After(s, HitRest(hit)), h)
  }

  // A clean-cache hit reads its entry before it takes the store lock. Whenever what it has loaded is
  // no longer safe when it takes the lock, it touches nothing and promises git what is lost.
  lemma {:induction false} UnseenHitLosesContent(s: State, hit: ProcId)
    requires Inv(s) && CodeAllows(s, Clean(hit, LockHit)) && !EnvironmentGuard(s, Clean(hit, LockHit))
    ensures PromisesLost(s, hit, s.procs[hit].hash)
  {
    var op, h := s.procs[hit].op, s.procs[hit].hash;
    assert h !in s.disk.markers;
    var a := ApplyClean(s, hit, LockHit);
    var b := ApplyClean(a, hit, TouchMarker);
    var c := ApplyClean(b, hit, EmitHit);
    assert Emission(op, h) in c.pending;
    var run := Prepend(b, Clean(hit, EmitHit), [], c, false);
    run := Prepend(a, Clean(hit, TouchMarker), run, c, false);
    run := Prepend(s, Clean(hit, LockHit), run, c, false);
    assert run == HitRest(hit);
  }

  // With the lock free, a cache entry for content that is not safe is enough: the next hit of its
  // path promises it.
  lemma {:induction false} BadEntryLosesContent(s: State, hit: ProcId, op: OpId, key: PathKey)
    requires Inv(s) && s.lock == None && hit !in s.procs
    requires key in s.disk.cache && !Safe(s, s.disk.cache[key])
    ensures var load := Clean(hit, LoadHit(op, key));
            CodeAllows(s, load) && PromisesLost(Apply(s, load), hit, s.disk.cache[key])
  {
    var load := Clean(hit, LoadHit(op, key));
    StepKeepsInv(s, load);
    UnseenHitLosesContent(Apply(s, load), hit);
  }

  // A gc that dies against the guard of `Crash` leaves the lock free and such an entry.
  lemma {:induction false} CrashWhileReclaimingLosesContent(s: State, gc: ProcId, hit: ProcId, op: OpId)
    returns (key: PathKey)
    requires Inv(s) && gc in s.procs && hit !in s.procs && !CacheGuard(s, Crash(gc))
    ensures var s' := Apply(s, Crash(gc));
            && s'.lock == None && key in s'.disk.cache && !Safe(s', s'.disk.cache[key])
            && PromisesLost(Apply(s', Clean(hit, LoadHit(op, key))), hit, s'.disk.cache[key])
  {
    key :| key in s.disk.cache && Forgets(s.procs[gc], key, s.disk.cache[key]) && !Safe(s, s.disk.cache[key]);
    StepKeepsInv(s, Crash(gc));
    BadEntryLosesContent(Apply(s, Crash(gc)), hit, op, key);
  }

  // So does a smudge against its guard, while nobody has the lock.
  lemma {:induction false} SmudgeLosesContent(s: State, key: PathKey, h: FileHash, hit: ProcId, op: OpId)
    requires Inv(s) && s.lock == None && hit !in s.procs && !CacheGuard(s, Smudge(key, h))
    ensures var s' := Apply(s, Smudge(key, h));
            PromisesLost(Apply(s', Clean(hit, LoadHit(op, key))), hit, h)
  {
    StepKeepsInv(s, Smudge(key, h));
    BadEntryLosesContent(Apply(s, Smudge(key, h)), hit, op, key);
  }

  // gc's walk has not seen a pointer that git has recorded, or is about to, and its marker has aged
  // past the grace before gc reads the clock: gc drops the marker, and the content is lost.
  lemma {:induction false} SlowWalkLosesContent(s: State, gc: ProcId) returns (h: FileHash)
    requires Inv(s) && gc in s.procs && s.procs[gc].GcSnapshot? && !EnvironmentGuard(s, Gc(gc, ReadClock))
    ensures var run := [Gc(gc, ReadClock), Gc(gc, DropMarker(h))];
            && Runs(s, run)
            && var s' := After(s, run);
               (Referenced(s'.local, s'.repo, h) || IsPending(s', h)) && !Safe(s', h)
  {
    h :| h in s.procs[gc].exposed && h in DoomedHashes(s, s.procs[gc]) && h !in s.server && !Abandoned(s, h);
    var s1 := ApplyGc(s, gc, ReadClock);
    var s2 := ApplyGc(s1, gc, DropMarker(h));
    var run := Prepend(s1, Gc(gc, DropMarker(h)), [], s2, false);
    run := Prepend(s, Gc(gc, ReadClock), run, s2, false);
    assert run == [Gc(gc, ReadClock), Gc(gc, DropMarker(h))];
  }

  // ---- Such states are reached ----

  const BARE := State(false, 600, 0, Disk(map[], {}, map[], map[]), Repo([], {}, {}), {}, {}, {}, {}, map[], None)

  // One file of one xorb, added at time 0.
  const ADDED := Disk(map[7 := 0], {5}, map[7 := {5}], map[1 := 7])

  lemma {:induction false} BareIsInitial()
    ensures Initial(BARE) && forall h :: !Reachable({}, h)
  {
    NothingBelowNothing();
  }

  lemma {:induction false} AddOneFile() returns (run: seq<Event>)
    ensures Permitted(BARE, run) && KeepsCache(BARE, run)
    ensures After(BARE, run) == BARE.(disk := ADDED, pending := {Emission(1, 7)})
  {
    BareIsInitial();
    run := CleanIsARun(BARE, 1, 1, Cleaning(1, false, 7, {5}, {5}, true));
  }

  function Pending(s: State): set<FileHash> {
    set e | e in s.pending :: e.hash
  }

  lemma {:induction false} GcReads(s: State) returns (run: seq<Event>)
    requires s.lock == Some(2) && s.procs == map[2 := GcChecked] && s.disk == ADDED
    ensures Permitted(s, run) && KeepsCache(s, run) && After(s, run) == Enter(s, 2, GcSnapshot({7}, s.repo, Pending(s)))
  {
    var end := Enter(s, 2, GcSnapshot({7}, s.repo, Pending(s)));
    var s1 := ApplyGc(s, 2, ListMarkers);
    assert s.disk.markers.Keys == {7};
    run := Prepend(s1, Gc(2, ReadRepo), [], end, true);
    run := Prepend(s, Gc(2, ListMarkers), run, end, true);
  }

  // gc up to the point where it has read index and refs.
  lemma {:induction false} GcWalks(s: State) returns (run: seq<Event>)
    requires s.lock == None && s.procs == map[] && s.disk == ADDED && s.gitLocks == {}
    ensures Permitted(s, run) && KeepsCache(s, run) && After(s, run) == Enter(s, 2, GcSnapshot({7}, s.repo, Pending(s)))
  {
    var s1 := ApplyGc(s, 2, TryLock);
    var s2 := ApplyGc(s1, 2, CheckGit);
    run := GcReads(s2);
    var end := After(s2, run);
    run := Prepend(s1, Gc(2, CheckGit), run, end, true);
    run := Prepend(s, Gc(2, TryLock), run, end, true);
  }

  lemma {:induction false} NothingLiveWhenBare()
    ensures LiveHashes(false, Repo([], {}, {}), {7}) == {}
  {
    NothingBelowNothing();
  }

  // The pointer leaves the index again, its marker ages past the grace, and gc drops it; git takes a
  // lock meanwhile.
  lemma {:induction false} AbandonIt(s: State) returns (run: seq<Event>)
    requires s == BARE.(disk := ADDED, pending := {Emission(1, 7)})
    ensures Permitted(s, run) && KeepsCache(s, run) && After(s, run) == BARE.(disk := ADDED, now := 601)
  {
    BareIsInitial();
    var abandon := GitRecord(s.repo, {Emission(1, 7)});
    var s1 := Apply(s, abandon);
    assert s1.pending == {};
    var end := BARE.(disk := ADDED, now := 601);
    run := Prepend(s1, Tick(601), [], end, true);
    run := Prepend(s, abandon, run, end, true);
  }

  // gc has dropped the only marker of a hash that is nowhere else, and the cache still offers it.
  ghost predicate Doomed(s: State) {
    && s.procs == map[2 := GcForgetting({7}, {1})] && s.lock == Some(2) && s.server == {}
    && s.disk == ADDED.(markers := map[]) && 9 in s.gitLocks
  }

  lemma {:induction false} GcDrops(s: State) returns (run: seq<Event>)
    requires s == Enter(BARE.(disk := ADDED, now := 601), 2, GcSnapshot({7}, BARE.repo, {}))
    ensures Permitted(s, run) && KeepsCache(s, run) && Doomed(After(s, run))
  {
    var s1 := Apply(s, GitLock(9));
    NothingLiveWhenBare();
    assert DoomedHashes(s1, s1.procs[2]) == {7};
    var s2 := ApplyGc(s1, 2, ReadClock);
    var s3 := ApplyGc(s2, 2, DropMarker(7));
    assert s3.procs[2].todo == {} && s3.disk.markers == map[] && s3.disk.cache.Keys == {1};
    var s4 := ApplyGc(s3, 2, DropDone);
    assert s4.procs == map[2 := GcForgetting({7}, {1})];
    run := Prepend(s3, Gc(2, DropDone), [], s4, true);
    run := Prepend(s2, Gc(2, DropMarker(7)), run, s4, true);
    run := Prepend(s1, Gc(2, ReadClock), run, s4, true);
    run := Prepend(s, GitLock(9), run, s4, true);
  }

  lemma {:induction false} GcReclaims(s: State) returns (run: seq<Event>)
    requires s == BARE.(disk := ADDED, now := 601)
    ensures Permitted(s, run) && KeepsCache(s, run) && Doomed(After(s, run))
  {
    var first := GcWalks(s);
    assert Pending(s) == {};
    var second := GcDrops(After(s, first));
    RunsConcat(s, first, second);
    run := first + second;
  }

  // Where a crash does harm, all guards met until then.
  lemma {:induction false} DoomedIsReachable() returns (run: seq<Event>)
    ensures Initial(BARE) && Permitted(BARE, run) && KeepsCache(BARE, run)
    ensures var s := After(BARE, run); Inv(s) && Doomed(s) && !CacheGuard(s, Crash(2))
  {
    BareIsInitial();
    var first := AddOneFile();
    var second := AbandonIt(After(BARE, first));
    RunsConcat(BARE, first, second);
    var third := GcReclaims(After(BARE, first + second));
    RunsConcat(BARE, first + second, third);
    run := first + second + third;
    RunKeepsInv(BARE, run);
    var s := After(BARE, run);
    assert 1 in s.disk.cache && Forgets(s.procs[2], 1, s.disk.cache[1]);
  }

  // A hit loads the entry, gc finishes.
  lemma {:induction false} LoadsTooLate(s: State) returns (run: seq<Event>)
    requires Doomed(s)
    ensures Permitted(s, run) && KeepsCache(s, run)
    ensures var s' := After(s, run);
            CodeAllows(s', Clean(3, LockHit)) && !EnvironmentGuard(s', Clean(3, LockHit)) && 9 in s'.gitLocks
  {
    var s' := ApplyClean(s, 3, LoadHit(9, 1));
    run := ForgetCompletes(s', 2);
    run := Prepend(s, Clean(3, LoadHit(9, 1)), run, After(s', run), true);
  }

  // Where a hit does harm, all guards met until then: it has loaded its entry under a git lock, but
  // gc had looked for locks before.
  lemma {:induction false} UnseenHitIsReachable() returns (run: seq<Event>)
    ensures Initial(BARE) && Permitted(BARE, run) && KeepsCache(BARE, run)
    ensures var s := After(BARE, run);
            Inv(s) && CodeAllows(s, Clean(3, LockHit)) && !EnvironmentGuard(s, Clean(3, LockHit))
  {
    var first := DoomedIsReachable();
    var second := LoadsTooLate(After(BARE, first));
    RunsConcat(BARE, first, second);
    run := first + second;
    RunKeepsInv(BARE, run);
  }

  const RECORDED := Entry(File, Blob("7", Some(Pointer(7, Some(1)))))

  // After gc's walk, git records the pointer and lets 601 seconds pass.
  lemma {:induction false} RecordLate(s: State) returns (run: seq<Event>)
    requires s == Enter(BARE.(disk := ADDED, pending := {Emission(1, 7)}), 2, GcSnapshot({7}, BARE.repo, {7}))
    ensures Permitted(s, run) && KeepsCache(s, run)
    ensures After(s, run) == s.(repo := Repo([RECORDED], {}, {}), pending := {}, now := 601)
  {
    BareIsInitial();
    var record := GitRecord(Repo([RECORDED], {}, {}), {Emission(1, 7)});
    var s1 := s.(repo := Repo([RECORDED], {}, {}), pending := {});
    forall h | IndexHolds([RECORDED], h) ensures IsPending(s, h) {
      assert Emission(1, 7) in s.pending;
    }
    run := Prepend(s1, Tick(601), [], s1.(now := 601), true);
    run := Prepend(s, record, run, s1.(now := 601), true);
  }

  ghost predicate LateRecorded(s: State) {
    && s.disk == ADDED && !s.local && s.now == 601 && s.grace == 600 && s.server == {}
    && s.repo == Repo([RECORDED], {}, {}) && 2 in s.procs && s.procs[2] == GcSnapshot({7}, BARE.repo, {7})
  }

  lemma {:induction false} RecordedLateIsDoomed(s: State)
    requires LateRecorded(s)
    ensures IndexHolds(s.repo.index, 7) && !EnvironmentGuard(s, Gc(2, ReadClock))
  {
    NothingLiveWhenBare();
    assert Names(s.repo.index[0], 7);
    assert 7 in DoomedHashes(s, s.procs[2]);
  }

  lemma {:induction false} WalkThenRecord(s: State) returns (run: seq<Event>)
    requires s == BARE.(disk := ADDED, pending := {Emission(1, 7)})
    ensures Permitted(s, run) && KeepsCache(s, run) && LateRecorded(After(s, run))
  {
    var first := GcWalks(s);
    assert Pending(s) == {7} by {
      assert Emission(1, 7) in s.pending;
    }
    var second := RecordLate(After(s, first));
    RunsConcat(s, first, second);
    run := first + second;
  }

  // Where the third hazard starts, all guards met: the pointer is in the index, gc is about to read
  // the clock.
  lemma {:induction false} SlowWalkIsReachable() returns (run: seq<Event>)
    ensures Initial(BARE) && Permitted(BARE, run) && KeepsCache(BARE, run) && LateRecorded(After(BARE, run))
    ensures Inv(After(BARE, run)) && IndexHolds(After(BARE, run).repo.index, 7)
    ensures !EnvironmentGuard(After(BARE, run), Gc(2, ReadClock))
  {
    BareIsInitial();
    var first := AddOneFile();
    var second := WalkThenRecord(After(BARE, first));
    RunsConcat(BARE, first, second);
    run := first + second;
    RunKeepsInv(BARE, run);
    RecordedLateIsDoomed(After(BARE, run));
  }

  // ---- A smudge in local mode, where reading the store is not gated by a marker ----

  const LOCAL := BARE.(local := true)
  const OTHER := Entry(File, Blob("8", Some(Pointer(8, Some(1)))))

  // Two files in the store, the second one in the index, both markers past the grace.
  const TWO := Disk(map[7 := 0, 8 := 0], {5, 6}, map[7 := {5}, 8 := {6}], map[1 := 7, 2 := 8])

  lemma {:induction false} AddTwoFiles() returns (run: seq<Event>)
    ensures Permitted(LOCAL, run) && KeepsCache(LOCAL, run)
    ensures After(LOCAL, run) == LOCAL.(disk := TWO, pending := {Emission(1, 7), Emission(1, 8)})
  {
    BareIsInitial();
    var first := CleanIsARun(LOCAL, 1, 1, Cleaning(1, false, 7, {5}, {5}, true));
    var s := After(LOCAL, first);
    RunKeepsInv(LOCAL, first);
    RunKeepsCache(LOCAL, first);
    var second := CleanIsARun(s, 1, 1, Cleaning(2, false, 8, {6}, {6}, true));
    RunsConcat(LOCAL, first, second);
    assert After(s, second).disk == TWO;
    assert After(s, second).pending == {Emission(1, 7), Emission(1, 8)};
    run := first + second;
  }

  lemma {:induction false} KeepSecond(s: State) returns (run: seq<Event>)
    requires s == LOCAL.(disk := TWO, pending := {Emission(1, 7), Emission(1, 8)})
    ensures Permitted(s, run) && KeepsCache(s, run)
    ensures After(s, run) == LOCAL.(disk := TWO, repo := Repo([OTHER], {}, {}), now := 601)
  {
    BareIsInitial();
    var record := GitRecord(Repo([OTHER], {}, {}), s.pending);
    var s1 := LOCAL.(disk := TWO, repo := Repo([OTHER], {}, {}));
    assert s.pending - s.pending == {};
    forall h | IndexHolds([OTHER], h) ensures IsPending(s, h) {
      assert Emission(1, 8) in s.pending;
    }
    run := Prepend(s1, Tick(601), [], s1.(now := 601), true);
    run := Prepend(s, record, run, s1.(now := 601), true);
  }

  lemma {:induction false} OnlySecondLives()
    ensures LiveHashes(true, Repo([OTHER], {}, {}), {7, 8}) == {8}
  {
    NothingBelowNothing();
    assert Names([OTHER][0], 8);
  }

  lemma {:induction false} FirstIsReclaimed()
    ensures Reconciled(TWO, true, Repo([OTHER], {}, {}), false, 601, 600)
            == Disk(map[8 := 0], {5, 6}, map[7 := {5}, 8 := {6}], map[2 := 8])
  {
    OnlySecondLives();
    assert TWO.markers.Keys == {7, 8};
    assert Expired(TWO.markers, 601, 600, {7, 8} - {8}) == {7};
    assert TWO.markers - {7} == map[8 := 0];
    assert WithoutHashes(TWO.cache, {7}) == map[2 := 8];
    assert 8 in map[8 := 0].Keys;
  }

  // Where a smudge does harm, all guards met until then: gc has dropped the marker of the first file,
  // but the second one keeps the objects, so the first can still be read.
  lemma {:induction false} SmudgeIsReachable() returns (run: seq<Event>)
    ensures Initial(LOCAL) && Permitted(LOCAL, run) && KeepsCache(LOCAL, run)
    ensures var s := After(LOCAL, run);
            Inv(s) && s.lock == None && Backed(s.disk, 7) && !CacheGuard(s, Smudge(1, 7))
  {
    BareIsInitial();
    var first := AddTwoFiles();
    var second := KeepSecond(After(LOCAL, first));
    RunsConcat(LOCAL, first, second);
    var third := ReconcileIsAGcRun(After(LOCAL, first + second), 2);
    RunsConcat(LOCAL, first + second, third);
    run := first + second + third;
    FirstIsReclaimed();
    RunKeepsInv(LOCAL, run);
  }
}
