// Safety of the staging protocol over every run.
module StagingSafety {
  import opened Wrappers
  import opened CommitWalk
  import opened StagingProtocol

  // ---- The invariant ----

  function AllTips(r: Repo): set<Commit> {
    r.localTips + r.remoteTips
  }

  // Dropping the marker of `h` loses nothing.
  ghost predicate Droppable(s: State, snap: Repo, h: FileHash) {
    h in s.server || (Abandoned(s, h) && !Reachable(AllTips(snap), h))
  }

  // As above, for a hash that was still pending when the repository was read.
  ghost predicate DroppableUnlessExposed(s: State, snap: Repo, exposed: set<FileHash>, h: FileHash) {
    Droppable(s, snap, h) || (h in exposed && !Reachable(AllTips(snap), h))
  }

  ghost predicate ProcOk(s: State, p: Proc) {
    match p
    case MissLocked(_, _, _) => true
    case MissWritten(_, _, h) => Backed(s.disk, h)
    case MissMarked(_, _, h) => h in s.disk.markers && Backed(s.disk, h)
    case MissEmitted(_, _, h) => h in s.disk.markers && Backed(s.disk, h)
    case HitLoaded(_, _) => true
    case HitLocked(_, h) => Safe(s, h)
    case HitTouched(_, h) => Safe(s, h)
    case GcLocked => true
    case GcChecked => true
    case GcListed(want) => want == s.disk.markers.Keys
    case GcSnapshot(want, snap, exposed) =>
      && want == s.disk.markers.Keys
      && forall h :: h in want - LiveHashes(s.local, snap, want) ==> DroppableUnlessExposed(s, snap, exposed, h)
    case GcDropping(want, snap, dead, todo) =>
      todo <= dead <= want && todo <= s.disk.markers.Keys && forall h :: h in dead ==> Droppable(s, snap, h)
    case GcForgetting(_, _) => true
    case GcSweeping => s.disk.markers.Keys == {}
    case PushListed(_, _, _) => !s.local
    case PushUploading(staged, tips, reported, fromRefs, _, _) =>
      !s.local && fromRefs == SizedPointers(tips, reported) - staged
    case PushFinalized(staged, tips, reported) =>
      !s.local && staged <= s.server && SizedPointers(tips, reported) <= s.server
    case PushDraining(todo) => todo <= s.server
    case PushSweeping => s.disk.markers.Keys == {}
  }

  ghost predicate LockOk(s: State) {
    && (s.lock.Some? ==> s.lock.value in s.procs)
    && (forall id :: id in s.procs ==> (HoldsLock(s.procs[id]) <==> s.lock == Some(id)))
  }

  predicate MarkersBacked(s: State) {
    forall h :: h in s.disk.markers ==> Backed(s.disk, h)
  }

  predicate PendingSafe(s: State) {
    forall e :: e in s.pending ==> Safe(s, e.hash)
  }

  ghost predicate ReferencedSafe(s: State) {
    forall h :: Referenced(s.local, s.repo, h) ==> Safe(s, h)
  }

  ghost predicate Inv(s: State) {
    && LockOk(s)
    && MarkersBacked(s)
    && ReferencedSafe(s) && PendingSafe(s)
    && RemotePushed(s.local, s.repo, s.server)
    && (forall id :: id in s.procs ==> ProcOk(s, s.procs[id]))
  }

  predicate CacheSafe(s: State) {
    forall k :: k in s.disk.cache ==> Safe(s, s.disk.cache[k]) || BeingForgotten(s, k, s.disk.cache[k])
  }

  // ---- Preservation, one conjunct at a time ----

  function Actor(e: Event): Option<ProcId> {
    match e
    case Crash(id) => Some(id)
    case Clean(id, _) => Some(id)
    case Gc(id, _) => Some(id)
    case Push(id, _) => Some(id)
    case _ => None
  }

  ghost predicate ActorOk(s: State, e: Event) {
    Actor(e).Some? && Actor(e).value in s.procs ==> ProcOk(s, s.procs[Actor(e).value])
  }

  lemma {:induction false} CleanLockKept(s: State, id: ProcId, c: CleanEvent)
    requires LockOk(s) && CleanAllowed(s, id, c)
    ensures LockOk(ApplyClean(s, id, c))
  {
  }

  lemma {:induction false} GcLockKept(s: State, id: ProcId, g: GcEvent)
    requires LockOk(s) && GcAllowed(s, id, g)
    ensures LockOk(ApplyGc(s, id, g))
  {
  }

  lemma {:induction false} PushLockKept(s: State, id: ProcId, p: PushEvent)
    requires LockOk(s) && PushAllowed(s, id, p)
    ensures LockOk(ApplyPush(s, id, p))
  {
  }

  lemma {:induction false} LockKept(s: State, e: Event)
    requires LockOk(s) && CodeAllows(s, e)
    ensures LockOk(Apply(s, e))
  {
    match e
    case Clean(id, c) => CleanLockKept(s, id, c);
    case Gc(id, g) => GcLockKept(s, id, g);
    case Push(id, p) => PushLockKept(s, id, p);
    case _ =>
  }

  // gc's marker removal is the only event that takes the protection of a hash away.
  predicate Unprotects(s: State, e: Event, h: FileHash) {
    e.Gc? && e.gc == DropMarker(h) && h !in s.server
  }

  ghost predicate NothingLost(s: State, e: Event, s': State) {
    && MarkersBacked(s')
    && s.server <= s'.server
    && (forall h :: Safe(s, h) && !Unprotects(s, e, h) ==> Safe(s', h))
  }

  // An event of process `id`, as the others see it.
  ghost predicate Unnoticed(s: State, s': State, id: ProcId) {
    && s'.local == s.local && s'.repo == s.repo && s'.gitLocks == s.gitLocks && s'.now == s.now
    && (forall other :: other != id ==> (other in s'.procs <==> other in s.procs))
    && (forall other :: other != id && other in s.procs ==> s'.procs[other] == s.procs[other])
    && (s.lock.Some? && s.lock.value != id ==> s'.disk == s.disk && s'.lock == s.lock && s'.pending == s.pending)
  }

  lemma {:induction false} CleanLosesNothing(s: State, id: ProcId, c: CleanEvent)
    requires LockOk(s) && MarkersBacked(s) && ActorOk(s, Clean(id, c)) && CleanAllowed(s, id, c)
    ensures NothingLost(s, Clean(id, c), ApplyClean(s, id, c))
  {
  }

  lemma {:induction false} CleanUnnoticed(s: State, id: ProcId, c: CleanEvent)
    requires LockOk(s) && CleanAllowed(s, id, c)
    ensures Unnoticed(s, ApplyClean(s, id, c), id)
  {
  }

  lemma {:induction false} GcLosesNothing(s: State, id: ProcId, g: GcEvent)
    requires LockOk(s) && MarkersBacked(s) && ActorOk(s, Gc(id, g)) && GcAllowed(s, id, g)
    ensures NothingLost(s, Gc(id, g), ApplyGc(s, id, g))
  {
  }

  lemma {:induction false} GcUnnoticed(s: State, id: ProcId, g: GcEvent)
    requires LockOk(s) && GcAllowed(s, id, g)
    ensures Unnoticed(s, ApplyGc(s, id, g), id)
  {
  }

  lemma {:induction false} PushLosesNothing(s: State, id: ProcId, p: PushEvent)
    requires LockOk(s) && MarkersBacked(s) && ActorOk(s, Push(id, p)) && PushAllowed(s, id, p)
    ensures NothingLost(s, Push(id, p), ApplyPush(s, id, p))
  {
  }

  lemma {:induction false} PushUnnoticed(s: State, id: ProcId, p: PushEvent)
    requires LockOk(s) && PushAllowed(s, id, p)
    ensures Unnoticed(s, ApplyPush(s, id, p), id)
  {
  }

  lemma {:induction false} Effect(s: State, e: Event)
    requires LockOk(s) && MarkersBacked(s) && ActorOk(s, e) && CodeAllows(s, e)
    ensures NothingLost(s, e, Apply(s, e))
    ensures Actor(e).Some? ==> Unnoticed(s, Apply(s, e), Actor(e).value)
  {
    match e
    case Clean(id, c) => CleanLosesNothing(s, id, c); CleanUnnoticed(s, id, c);
    case Gc(id, g) => GcLosesNothing(s, id, g); GcUnnoticed(s, id, g);
    case Push(id, p) => PushLosesNothing(s, id, p); PushUnnoticed(s, id, p);
    case _ =>
  }

  // What gc unprotects, nothing mentions and nothing has promised; gc is past its check.
  lemma {:induction false} UnprotectedIsAbandoned(s: State, e: Event, h: FileHash)
    requires LockOk(s) && CodeAllows(s, e) && ActorOk(s, e) && Unprotects(s, e, h)
    ensures Abandoned(s, h) && GcCommitted(s) && s.lock == Actor(e)
  {
  }

  lemma {:induction false} ReferencedKept(s: State, e: Event)
    requires LockOk(s) && MarkersBacked(s) && ActorOk(s, e) && CodeAllows(s, e) && EnvironmentGuard(s, e)
    requires ReferencedSafe(s) && PendingSafe(s) && RemotePushed(s.local, s.repo, s.server)
    ensures ReferencedSafe(Apply(s, e))
    ensures RemotePushed(s.local, Apply(s, e).repo, Apply(s, e).server)
  {
    var s' := Apply(s, e);
    Effect(s, e);
    forall h | Referenced(s'.local, s'.repo, h) ensures Safe(s', h) {
      if !e.GitRecord? && Unprotects(s, e, h) {
        UnprotectedIsAbandoned(s, e, h);
      }
    }
  }

  // Only a clean adds a promise, and only of content it has secured.
  lemma {:induction false} NewEmission(s: State, e: Event, em: Emission)
    requires CodeAllows(s, e) && ActorOk(s, e) && em in Apply(s, e).pending && em !in s.pending
    ensures Safe(s, em.hash) && e.Clean? && (e.clean.EmitMiss? || e.clean.EmitHit?)
  {
    match e
    case Clean(_, _) =>
    case Gc(_, _) =>
    case Push(_, _) =>
    case _ =>
  }

  lemma {:induction false} PendingKept(s: State, e: Event)
    requires LockOk(s) && MarkersBacked(s) && ActorOk(s, e) && CodeAllows(s, e) && PendingSafe(s)
    ensures PendingSafe(Apply(s, e))
  {
    var s' := Apply(s, e);
    Effect(s, e);
    forall em | em in s'.pending ensures Safe(s', em.hash) {
      if em !in s.pending {
        NewEmission(s, e, em);
      } else if Unprotects(s, e, em.hash) {
        UnprotectedIsAbandoned(s, e, em.hash);
      }
    }
  }

  // What a process relies on survives what it can notice of another one's event.
  lemma {:induction false} OtherKept(s: State, e: Event, s': State, id: ProcId, other: ProcId)
    requires LockOk(s) && NothingLost(s, e, s') && Unnoticed(s, s', id)
    requires other != id && other in s.procs && ProcOk(s, s.procs[other])
    requires forall h :: Unprotects(s, e, h) ==> s.lock == Some(id)
    ensures ProcOk(s', s.procs[other])
  {
  }

  lemma {:induction false} OthersKept(s: State, e: Event, other: ProcId)
    requires LockOk(s) && MarkersBacked(s) && ActorOk(s, e) && CodeAllows(s, e) && Actor(e).Some?
    requires other in s.procs && Actor(e) != Some(other) && ProcOk(s, s.procs[other])
    ensures other in Apply(s, e).procs && Apply(s, e).procs[other] == s.procs[other]
    ensures ProcOk(Apply(s, e), s.procs[other])
  {
    Effect(s, e);
    forall h | Unprotects(s, e, h) ensures s.lock == Actor(e) {
      UnprotectedIsAbandoned(s, e, h);
    }
    OtherKept(s, e, Apply(s, e), Actor(e).value, other);
  }

  // A gc that has read index and refs keeps what it knows of its dead, as git records none of them.
  lemma {:induction false} RecordKeepsProcs(s: State, e: Event, other: ProcId)
    requires LockOk(s) && CodeAllows(s, e) && EnvironmentGuard(s, e) && e.GitRecord?
    requires other in s.procs && ProcOk(s, s.procs[other])
    ensures ProcOk(Apply(s, e), s.procs[other])
  {
    var s', p := Apply(s, e), s.procs[other];
    if p.GcSnapshot? {
      forall h | h in p.want - LiveHashes(s.local, p.snap, p.want)
        ensures DroppableUnlessExposed(s', p.snap, p.exposed, h)
      {
        assert h in p.exposed || TakenForDead(s, h);
      }
    } else if p.GcDropping? {
      forall h | h in p.dead ensures Droppable(s', p.snap, h) {
        assert TakenForDead(s, h);
      }
    }
  }

  lemma {:induction false} EnvironmentKeepsProcs(s: State, e: Event, other: ProcId)
    requires LockOk(s) && MarkersBacked(s) && CodeAllows(s, e) && EnvironmentGuard(s, e) && Actor(e) == None
    requires other in s.procs && ProcOk(s, s.procs[other])
    ensures ProcOk(Apply(s, e), s.procs[other])
  {
    if e.GitRecord? {
      RecordKeepsProcs(s, e, other);
    } else {
      Effect(s, e);
    }
  }

  // ---- The acting process ----

  lemma {:induction false} CleanActorKept(s: State, id: ProcId, c: CleanEvent)
    requires LockOk(s) && MarkersBacked(s) && ActorOk(s, Clean(id, c)) && CleanAllowed(s, id, c)
    requires EnvironmentGuard(s, Clean(id, c))
    ensures var s' := ApplyClean(s, id, c); id in s'.procs ==> ProcOk(s', s'.procs[id])
  {
  }

  lemma {:induction false} PushActorKept(s: State, id: ProcId, p: PushEvent)
    requires LockOk(s) && ActorOk(s, Push(id, p)) && PushAllowed(s, id, p)
    ensures var s' := ApplyPush(s, id, p); id in s'.procs ==> ProcOk(s', s'.procs[id])
  {
  }

  lemma {:induction false} UnionReachable(a: set<Commit>, b: set<Commit>, h: FileHash)
    ensures Reachable(a + b, h) <==> Reachable(a, h) || Reachable(b, h)
  {
    if Reachable(a + b, h) {
      var c :| Below(a + b, c) && Holds(c.tree, h);
      var line :| IsLine(line) && line[0] in a + b && line[|line| - 1] == c;
      assert Below(if line[0] in a then a else b, c);
    }
    if Reachable(a, h) {
      BelowMore(a, a + b, h);
    }
    if Reachable(b, h) {
      BelowMore(b, a + b, h);
    }
  }

  lemma {:induction false} BelowMore(some: set<Commit>, tips: set<Commit>, h: FileHash)
    requires some <= tips && Reachable(some, h)
    ensures Reachable(tips, h)
  {
    var c :| Below(some, c) && Holds(c.tree, h);
    var line :| IsLine(line) && line[0] in some && line[|line| - 1] == c;
    assert Below(tips, c);
  }

  // The liveness read: what it does not report live is on the server, or nothing mentions it.
  lemma {:induction false} UnlistedIsUnreferenced(s: State, want: set<FileHash>, h: FileHash)
    requires RemotePushed(s.local, s.repo, s.server)
    requires h in want - LiveHashes(s.local, s.repo, want)
    ensures h in s.server || (!Referenced(s.local, s.repo, h) && !Reachable(AllTips(s.repo), h))
  {
    var r := s.repo;
    UnionReachable(r.localTips, r.remoteTips, h);
    if s.local {
      WalkMissesOnlyHidden(r.index, want, AllTips(r), {}, h);
    } else {
      WalkMissesOnlyHidden(r.index, want, r.localTips, r.remoteTips, h);
    }
  }

  // The orphan split: a dead hash whose cache entry is kept is on the server.
  lemma {:induction false} KeptIsPushed(s: State, snap: Repo, want: set<FileHash>, dead: set<FileHash>, h: FileHash)
    requires h in dead && dead <= want && Droppable(s, snap, h)
    requires h !in Orphaned(s.local, snap, s.repo.index, want, dead)
    ensures h in s.server
  {
    WalkMissesOnlyHidden(s.repo.index, want, AllTips(snap), {}, h);
  }

  // And it is kept where remote history mentions it: a later smudge falls back on the server.
  lemma {:induction false} PushedEntryIsKept(s: State, snap: Repo, want: set<FileHash>, dead: set<FileHash>,
          h: FileHash)
    requires !s.local && h in dead && h in want && Reachable(snap.remoteTips, h)
    ensures h !in Orphaned(s.local, snap, s.repo.index, want, dead)
  {
    assert snap.remoteTips != {} by {
      if snap.remoteTips == {} {
        NothingBelowNothing();
      }
    }
    UnionReachable(snap.localTips, snap.remoteTips, h);
    WalkMissesOnlyHidden(s.repo.index, want, AllTips(snap), {}, h);
    NothingBelowNothing();
  }

  lemma {:induction false} ReadRepoKept(s: State, id: ProcId)
    requires LockOk(s) && ActorOk(s, Gc(id, ReadRepo)) && GcAllowed(s, id, ReadRepo)
    requires RemotePushed(s.local, s.repo, s.server)
    ensures var s' := ApplyGc(s, id, ReadRepo); ProcOk(s', s'.procs[id])
  {
    var s' := ApplyGc(s, id, ReadRepo);
    var want, exposed := s.procs[id].want, set em | em in s.pending :: em.hash;
    forall h | h in want - LiveHashes(s.local, s.repo, want)
      ensures DroppableUnlessExposed(s', s.repo, exposed, h)
    {
      UnlistedIsUnreferenced(s, want, h);
    }
  }

  // gc dooms only what may go exactly when the environment keeps its side.
  lemma {:induction false} ReadClockKept(s: State, id: ProcId)
    requires ActorOk(s, Gc(id, ReadClock)) && GcAllowed(s, id, ReadClock)
    ensures var p := s.procs[id];
            (forall h :: h in DoomedHashes(s, p) ==> Droppable(s, p.snap, h)) <==> ExposedSpared(s, p)
    ensures var s' := ApplyGc(s, id, ReadClock);
            (id in s'.procs ==> ProcOk(s', s'.procs[id])) <==> ExposedSpared(s, s.procs[id])
  {
    var p, s' := s.procs[id], ApplyGc(s, id, ReadClock);
    forall h | h in DoomedHashes(s, p) ensures DroppableUnlessExposed(s, p.snap, p.exposed, h) {
    }
    if id in s'.procs {
      assert s'.procs[id].dead == DoomedHashes(s, p);
      forall h ensures Droppable(s', p.snap, h) <==> Droppable(s, p.snap, h) {
      }
    }
  }

  lemma {:induction false} GcActorKept(s: State, id: ProcId, g: GcEvent)
    requires LockOk(s) && ActorOk(s, Gc(id, g)) && GcAllowed(s, id, g) && EnvironmentGuard(s, Gc(id, g))
    requires RemotePushed(s.local, s.repo, s.server)
    ensures var s' := ApplyGc(s, id, g); id in s'.procs ==> ProcOk(s', s'.procs[id])
  {
    match g
    case ReadRepo => ReadRepoKept(s, id);
    case ReadClock => ReadClockKept(s, id);
    case _ =>
  }

  lemma {:induction false} ProcsKept(s: State, e: Event, id: ProcId)
    requires Inv(s) && CodeAllows(s, e) && EnvironmentGuard(s, e) && id in Apply(s, e).procs
    ensures ProcOk(Apply(s, e), Apply(s, e).procs[id])
  {
    Effect(s, e);
    if Actor(e) == None {
      EnvironmentKeepsProcs(s, e, id);
    } else if Actor(e) != Some(id) {
      OthersKept(s, e, id);
    } else {
      match e
      case Clean(_, c) => CleanActorKept(s, id, c);
      case Gc(_, g) => GcActorKept(s, id, g);
      case Push(_, p) => PushActorKept(s, id, p);
      case Crash(_) =>
    }
  }

  lemma {:induction false} StepKeepsInv(s: State, e: Event)
    requires Inv(s) && CodeAllows(s, e) && EnvironmentGuard(s, e)
    ensures Inv(Apply(s, e))
  {
    Effect(s, e);
    LockKept(s, e);
    ReferencedKept(s, e);
    PendingKept(s, e);
    forall id | id in Apply(s, e).procs ensures ProcOk(Apply(s, e), Apply(s, e).procs[id]) {
      ProcsKept(s, e, id);
    }
  }

  // ---- The guards are exact ----

  lemma {:induction false} DeadAreAbandoned(s: State)
    requires Inv(s)
    ensures forall h :: TakenForDead(s, h) ==> h in s.server || Abandoned(s, h)
  {
    forall h | TakenForDead(s, h) ensures h in s.server || Abandoned(s, h) {
      assert ProcOk(s, s.procs[s.lock.value]);
    }
  }

  // Git may change index and refs exactly if it then mentions safe content only, and nothing that a
  // running gc takes for dead.
  lemma {:induction false} RecordKeepsInv(s: State, r: Repo, settled: set<Emission>)
    requires Inv(s) && settled <= s.pending
    ensures Inv(Apply(s, GitRecord(r, settled))) <==> EnvironmentGuard(s, GitRecord(r, settled))
  {
    var e := GitRecord(r, settled);
    var s' := Apply(s, e);
    if Inv(s') {
      DeadAreAbandoned(s');
      forall h | Referenced(s.local, r, h) && h !in s.server ensures Safe(s, h) && !TakenForDead(s, h) {
        assert Referenced(s'.local, s'.repo, h) && Safe(s', h);
        assert TakenForDead(s', h) <==> TakenForDead(s, h);
      }
    }
    if EnvironmentGuard(s, e) {
      StepKeepsInv(s, e);
    }
  }

  // A step in which nothing changes but the process that takes it and the lock.
  lemma {:induction false} OwnStepKeepsRest(s: State, s': State, id: ProcId)
    requires Inv(s) && LockOk(s')
    requires s' == s.(procs := s'.procs, lock := s'.lock) && s'.procs - {id} == s.procs - {id}
    ensures Inv(s') <==> (id in s'.procs ==> ProcOk(s', s'.procs[id]))
  {
    forall h ensures Safe(s', h) <==> Safe(s, h) {
    }
    forall other | other in s'.procs && other != id ensures ProcOk(s', s'.procs[other]) {
      assert other in s'.procs - {id} && s'.procs[other] == (s'.procs - {id})[other];
      assert ProcOk(s, s.procs[other]);
    }
  }

  // A hit that takes the lock keeps the invariant exactly if what it has loaded is still safe.
  lemma {:induction false} LockHitKeepsInv(s: State, id: ProcId)
    requires Inv(s) && CleanAllowed(s, id, LockHit)
    ensures Inv(ApplyClean(s, id, LockHit)) <==> Safe(s, s.procs[id].hash)
  {
    var s' := ApplyClean(s, id, LockHit);
    LockKept(s, Clean(id, LockHit));
    assert s'.procs - {id} == s.procs - {id};
    OwnStepKeepsRest(s, s', id);
  }

  // gc keeps it when it reads the clock exactly if what was pending during its walk is spared.
  lemma {:induction false} ReadClockKeepsInv(s: State, id: ProcId)
    requires Inv(s) && GcAllowed(s, id, ReadClock)
    ensures Inv(ApplyGc(s, id, ReadClock)) <==> ExposedSpared(s, s.procs[id])
  {
    var s' := ApplyGc(s, id, ReadClock);
    LockKept(s, Gc(id, ReadClock));
    assert ProcOk(s, s.procs[id]);
    assert s'.procs - {id} == s.procs - {id};
    ReadClockKept(s, id);
    OwnStepKeepsRest(s, s', id);
  }

  // ---- The clean cache ----

  // The guard is exact: a step that the code allows keeps the invariant exactly if the environment
  // keeps its side.
  lemma {:induction false} GuardIsExact(s: State, e: Event)
    requires Inv(s) && CodeAllows(s, e)
    ensures Inv(Apply(s, e)) <==> EnvironmentGuard(s, e)
  {
    if EnvironmentGuard(s, e) {
      StepKeepsInv(s, e);
    } else {
      match e
      case GitRecord(r, settled) => RecordKeepsInv(s, r, settled);
      case Clean(id, _) => LockHitKeepsInv(s, id);
      case Gc(id, _) => ReadClockKeepsInv(s, id);
    }
  }

  lemma {:induction false} CleanCacheKept(s: State, id: ProcId, c: CleanEvent)
    requires LockOk(s) && MarkersBacked(s) && ActorOk(s, Clean(id, c)) && CleanAllowed(s, id, c) && CacheSafe(s)
    ensures CacheSafe(ApplyClean(s, id, c))
  {
    CleanLosesNothing(s, id, c);
  }

  lemma {:induction false} PushCacheKept(s: State, id: ProcId, p: PushEvent)
    requires LockOk(s) && MarkersBacked(s) && ActorOk(s, Push(id, p)) && PushAllowed(s, id, p) && CacheSafe(s)
    ensures CacheSafe(ApplyPush(s, id, p))
  {
    PushLosesNothing(s, id, p);
  }

  lemma {:induction false} DropDoneKeepsCache(s: State, id: ProcId)
    requires LockOk(s) && ActorOk(s, Gc(id, DropDone)) && GcAllowed(s, id, DropDone) && CacheSafe(s)
    ensures CacheSafe(ApplyGc(s, id, DropDone))
  {
    var s', p := ApplyGc(s, id, DropDone), s.procs[id];
    forall h | h in p.dead && h !in s'.procs[id].forget ensures h in s.server {
      KeptIsPushed(s, p.snap, p.want, p.dead, h);
    }
  }

  lemma {:induction false} GcCacheKept(s: State, id: ProcId, g: GcEvent)
    requires LockOk(s) && MarkersBacked(s) && ActorOk(s, Gc(id, g)) && GcAllowed(s, id, g) && CacheSafe(s)
    ensures CacheSafe(ApplyGc(s, id, g))
  {
    if g.DropDone? {
      DropDoneKeepsCache(s, id);
    } else {
      GcLosesNothing(s, id, g);
    }
  }

  // A process may die anywhere without harm to the cache, but for a gc that is about to invalidate an
  // entry whose content is not safe any more: then the entry stays.
  lemma {:induction false} CrashKeepsCache(s: State, id: ProcId)
    requires LockOk(s) && CacheSafe(s) && id in s.procs
    ensures CacheSafe(Exit(s, id)) <==> (s.lock == Some(id) ==> NothingToForget(s, s.procs[id]))
  {
    var s' := Exit(s, id);
    forall k | k in s.disk.cache
      ensures Safe(s', s.disk.cache[k]) <==> Safe(s, s.disk.cache[k])
      ensures s.lock != Some(id) ==> (BeingForgotten(s', k, s.disk.cache[k]) <==> BeingForgotten(s, k, s.disk.cache[k]))
      ensures s.lock == Some(id) ==> !BeingForgotten(s', k, s.disk.cache[k])
    {
    }
  }

  // A smudge may fill the cache, without the lock, exactly if the content is safe or gc has still to
  // come by this entry and will remove it.
  lemma {:induction false} SmudgeKeepsCache(s: State, key: PathKey, h: FileHash)
    requires CacheSafe(s)
    ensures CacheSafe(Apply(s, Smudge(key, h))) <==> Safe(s, h) || BeingForgotten(s, key, h)
  {
    var s' := Apply(s, Smudge(key, h));
    forall g ensures Safe(s', g) <==> Safe(s, g) {
    }
    forall k, g ensures BeingForgotten(s', k, g) <==> BeingForgotten(s, k, g) {
    }
    forall k | k in s'.disk.cache && k != key ensures s'.disk.cache[k] == s.disk.cache[k] && k in s.disk.cache {
    }
    assert key in s'.disk.cache && s'.disk.cache[key] == h;
  }

  lemma {:induction false} CacheKept(s: State, e: Event)
    requires LockOk(s) && MarkersBacked(s) && ActorOk(s, e) && CodeAllows(s, e) && CacheGuard(s, e) && CacheSafe(s)
    ensures CacheSafe(Apply(s, e))
  {
    match e
    case Clean(id, c) => CleanCacheKept(s, id, c);
    case Gc(id, g) => GcCacheKept(s, id, g);
    case Push(id, p) => PushCacheKept(s, id, p);
    case Crash(id) => CrashKeepsCache(s, id);
    case Smudge(key, h) => SmudgeKeepsCache(s, key, h);
    case _ => Effect(s, e);
  }

  // Exact as well: a step keeps the cache good exactly if its guard holds.
  lemma {:induction false} CacheGuardIsExact(s: State, e: Event)
    requires Inv(s) && CacheSafe(s) && CodeAllows(s, e)
    ensures CacheSafe(Apply(s, e)) <==> CacheGuard(s, e)
  {
    if CacheGuard(s, e) {
      CacheKept(s, e);
    } else {
      match e
      case Crash(id) => CrashKeepsCache(s, id);
      case Smudge(key, h) => SmudgeKeepsCache(s, key, h);
    }
  }

  // ---- Premises that imply the guards ----

  // Git keeps its side when pointers enter the index or a local ref only from a clean or from content
  // already there, or are on the server.
  lemma {:induction false} KnownContentIsSafe(s: State, r: Repo)
    requires Inv(s) && RecordsKnownContent(s, r)
    ensures RecordsSafeContent(s, r)
  {
    DeadAreAbandoned(s);
  }

  // gc keeps its side when its walk does not outlast the grace of a pointer recorded meanwhile.
  lemma {:induction false} YoungIsSpared(s: State, p: Proc)
    requires p.GcSnapshot? && forall h :: h in p.exposed ==> h in s.server || Young(s, h)
    ensures ExposedSpared(s, p)
  {
  }

  // In detail: what was pending during the walk and still is, is covered; what git has recorded
  // since is on the server or young; the rest it has let go of.
  lemma {:induction false} CoveredIsSpared(s: State, p: Proc)
    requires p.GcSnapshot? && GcCommitted(s) && AllCovered(s)
    requires forall h :: h in p.exposed && Referenced(s.local, s.repo, h) ==> h in s.server || Young(s, h)
    ensures ExposedSpared(s, p)
  {
    forall h | h in p.exposed && IsPending(s, h) ensures h in s.server || Young(s, h) {
      var e :| e in s.pending && e.hash == h;
      assert Covered(s, e);
    }
  }

  // What cache hits without the lock have loaded is safe, and on the server while a gc runs that is
  // past its check.
  ghost predicate HitsSafe(s: State) {
    forall id :: id in s.procs && s.procs[id].HitLoaded? ==>
      Safe(s, s.procs[id].hash) && (GcCommitted(s) ==> s.procs[id].hash in s.server)
  }

  lemma {:induction false} CheckSeesHits(s: State, e: Event)
    requires LockOk(s) && CodeAllows(s, e) && OverlapGuard(s, e) && GcCommitted(Apply(s, e))
    ensures GcCommitted(s) || LoadedHitsPushed(s)
  {
    match e
    case Clean(_, _) =>
    case Gc(_, _) =>
    case Push(_, _) =>
    case _ =>
  }

  lemma {:induction false} NewlyLoaded(s: State, e: Event, id: ProcId)
    requires CodeAllows(s, e) && id in Apply(s, e).procs && Apply(s, e).procs[id].HitLoaded?
    ensures (e.Clean? && e.id == id && e.clean.LoadHit?) || (id in s.procs && s.procs[id] == Apply(s, e).procs[id])
  {
    match e
    case Clean(_, _) =>
    case Gc(_, _) =>
    case Push(_, _) =>
    case _ =>
  }

  lemma {:induction false} HitsKept(s: State, e: Event)
    requires Inv(s) && CacheSafe(s) && HitsSafe(s) && CodeAllows(s, e) && OverlapGuard(s, e)
    ensures HitsSafe(Apply(s, e))
  {
    var s' := Apply(s, e);
    Effect(s, e);
    if GcCommitted(s') {
      CheckSeesHits(s, e);
    }
    forall id | id in s'.procs && s'.procs[id].HitLoaded?
      ensures Safe(s', s'.procs[id].hash) && (GcCommitted(s') ==> s'.procs[id].hash in s'.server)
    {
      NewlyLoaded(s, e, id);
      var h := s'.procs[id].hash;
      if id in s.procs && s.procs[id] == s'.procs[id] && Unprotects(s, e, h) {
        UnprotectedIsAbandoned(s, e, h);
      }
    }
  }

  // ---- Every run ----

  // A repository before its first clean: whatever it mentions is on the server already.
  ghost predicate Initial(s: State) {
    && s.procs == map[] && s.lock == None && s.pending == {}
    && s.disk.markers == map[] && s.disk.cache == map[]
    && (forall h :: Referenced(s.local, s.repo, h) ==> h in s.server)
    && RemotePushed(s.local, s.repo, s.server)
  }

  // A run the code allows, each event on the state the one before left.
  ghost predicate Runs(s: State, run: seq<Event>)
    decreases |run|
  {
    run != [] ==> CodeAllows(s, run[0]) && Runs(Apply(s, run[0]), run[1..])
  }

  ghost function After(s: State, run: seq<Event>): State
    requires Runs(s, run)
    decreases |run|
  {
    if run == [] then s else After(Apply(s, run[0]), run[1..])
  }

  // ... in which the environment also keeps its side.
  ghost predicate Permitted(s: State, run: seq<Event>)
    ensures Permitted(s, run) ==> Runs(s, run)
    decreases |run|
  {
    run != [] ==> CodeAllows(s, run[0]) && EnvironmentGuard(s, run[0]) && Permitted(Apply(s, run[0]), run[1..])
  }

  // ... and in which nothing spoils the clean cache.
  ghost predicate KeepsCache(s: State, run: seq<Event>)
    requires Runs(s, run)
    decreases |run|
  {
    run != [] ==> CacheGuard(s, run[0]) && KeepsCache(Apply(s, run[0]), run[1..])
  }

  lemma {:induction false} RunsConcat(s: State, first: seq<Event>, second: seq<Event>)
    requires Runs(s, first) && Runs(After(s, first), second)
    ensures Runs(s, first + second) && After(s, first + second) == After(After(s, first), second)
    ensures Permitted(s, first) && Permitted(After(s, first), second) ==> Permitted(s, first + second)
    ensures KeepsCache(s, first) && KeepsCache(After(s, first), second) ==> KeepsCache(s, first + second)
    decreases |first|
  {
    if first == [] {
      assert first + second == second;
    } else {
      assert (first + second)[0] == first[0] && (first + second)[1..] == first[1..] + second;
      RunsConcat(Apply(s, first[0]), first[1..], second);
    }
  }

  lemma {:induction false} RunKeepsInv(s: State, run: seq<Event>)
    requires Inv(s) && Permitted(s, run)
    ensures Inv(After(s, run))
    decreases |run|
  {
    if run != [] {
      StepKeepsInv(s, run[0]);
      RunKeepsInv(Apply(s, run[0]), run[1..]);
    }
  }

  lemma {:induction false} RunKeepsCache(s: State, run: seq<Event>)
    requires Inv(s) && CacheSafe(s) && Permitted(s, run) && KeepsCache(s, run)
    ensures CacheSafe(After(s, run))
    decreases |run|
  {
    if run != [] {
      StepKeepsInv(s, run[0]);
      CacheKept(s, run[0]);
      RunKeepsCache(Apply(s, run[0]), run[1..]);
    }
  }

  // No interleaving loses content: whatever the index or a ref mentions, and whatever a clean
  // has promised git, is on the server or rebuildable from the marked store.
  lemma {:induction false} NoContentIsLost(s: State, run: seq<Event>, h: FileHash)
    requires Initial(s) && Permitted(s, run)
    ensures var s' := After(s, run);
            Referenced(s.local, s'.repo, h) || Reachable(AllTips(s'.repo), h) || IsPending(s', h) ==>
              h in s'.server || (h in s'.disk.markers && h in s'.disk.shards && s'.disk.shards[h] <= s'.disk.xorbs)
  {
    RunKeepsInv(s, run);
    RunKeepsMode(s, run);
    UnionReachable(After(s, run).repo.localTips, After(s, run).repo.remoteTips, h);
  }

  // Said of entries: a regular file or an executable of 1 to 4096 bytes that holds a pointer, in the
  // index or in any tree below any ref, names content that is still there.
  lemma {:induction false} NoFileIsLost(s: State, run: seq<Event>, mode: Mode, content: string, pointer: Pointer)
    requires Initial(s) && Permitted(s, run)
    requires (mode == File || mode == Executable) && 1 <= |content| <= 4096
    ensures var s' := After(s, run);
            var h, e := pointer.hash, Entry(mode, Blob(content, Some(pointer)));
            StandsIn(s'.repo.index, s'.repo.localTips + s'.repo.remoteTips, e) ==>
              h in s'.server || (h in s'.disk.markers && h in s'.disk.shards && s'.disk.shards[h] <= s'.disk.xorbs)
  {
    var r := After(s, run).repo;
    var e := Entry(mode, Blob(content, Some(pointer)));
    if StandsIn(r.index, r.localTips + r.remoteTips, e) {
      StandingIsHeld(r.index, r.localTips + r.remoteTips, e, pointer.hash);
      NoContentIsLost(s, run, pointer.hash);
    }
  }

  lemma {:induction false} RunKeepsMode(s: State, run: seq<Event>)
    requires Runs(s, run)
    ensures After(s, run).local == s.local
    decreases |run|
  {
    if run != [] {
      RunKeepsMode(Apply(s, run[0]), run[1..]);
    }
  }

  // Whenever the store lock is free, every clean-cache entry names content that is safe, so a
  // later hit may promise it to git without writing anything.
  lemma {:induction false} CacheNamesSafeContent(s: State, run: seq<Event>, key: PathKey)
    requires Initial(s) && Permitted(s, run) && KeepsCache(s, run)
    ensures var s' := After(s, run);
            s'.lock == None && key in s'.disk.cache ==>
              var h := s'.disk.cache[key];
              h in s'.server || (h in s'.disk.markers && h in s'.disk.shards && s'.disk.shards[h] <= s'.disk.xorbs)
  {
    RunKeepsCache(s, run);
  }

  // A run in which nothing is assumed of a hit that takes the lock, only of what it overlaps.
  ghost predicate SeesHits(s: State, run: seq<Event>)
    requires Runs(s, run)
    decreases |run|
  {
    run != [] ==>
      && OverlapGuard(s, run[0]) && (!(run[0].Clean? && run[0].clean.LockHit?) ==> EnvironmentGuard(s, run[0]))
      && SeesHits(Apply(s, run[0]), run[1..])
  }

  // Then what it has loaded is safe when it takes the lock.
  lemma {:induction false} SeenHitsAreSafe(s: State, run: seq<Event>)
    requires Inv(s) && CacheSafe(s) && HitsSafe(s) && Runs(s, run) && KeepsCache(s, run) && SeesHits(s, run)
    ensures Permitted(s, run)
    decreases |run|
  {
    if run != [] {
      var e := run[0];
      StepKeepsInv(s, e);
      CacheKept(s, e);
      HitsKept(s, e);
      SeenHitsAreSafe(Apply(s, e), run[1..]);
    }
  }

  // A push that has uploaded everything, from commits whose pointers all carry a size, to a remote
  // whose reported history is on the server.
  ghost predicate HasPushed(s: State, id: ProcId) {
    && id in s.procs && s.procs[id].PushFinalized? && AllSized(s.procs[id].tips)
    && forall h :: Reachable(s.procs[id].reported, h) ==> h in s.server
  }

  lemma {:induction false} PushedIsOnServer(s: State, id: ProcId, h: FileHash)
    requires Inv(s) && HasPushed(s, id) && Reachable(s.procs[id].tips, h)
    ensures h in s.server
  {
    var p := s.procs[id];
    assert ProcOk(s, p);
    SizedPointersCoverHistory(p.tips, p.reported, h);
  }

  // When the pre-push hook has finished, the pushed history holds only content the server has.
  lemma {:induction false} PushedHistoryIsOnServer(s: State, run: seq<Event>, id: ProcId, h: FileHash)
    requires Initial(s) && Permitted(s, run)
    requires HasPushed(After(s, run), id) && Reachable(After(s, run).procs[id].tips, h)
    ensures h in After(s, run).server
  {
    RunKeepsInv(s, run);
    PushedIsOnServer(After(s, run), id, h);
  }

  // And git may then record it: the remote-tracking refs can move to the pushed tips.
  lemma {:induction false} PushedTipsMayBeRecorded(s: State, run: seq<Event>, id: ProcId)
    requires Initial(s) && Permitted(s, run) && HasPushed(After(s, run), id)
    ensures var s' := After(s, run);
            var repo := s'.repo.(remoteTips := s'.repo.remoteTips + s'.procs[id].tips);
            EnvironmentGuard(s', GitRecord(repo, {}))
  {
    RunKeepsInv(s, run);
    MoveRemoteTips(After(s, run), id);
  }

  lemma {:induction false} MoveRemoteTips(s: State, id: ProcId)
    requires Inv(s) && HasPushed(s, id)
    ensures EnvironmentGuard(s, GitRecord(s.repo.(remoteTips := s.repo.remoteTips + s.procs[id].tips), {}))
  {
    var tips := s.procs[id].tips;
    var r := s.repo.(remoteTips := s.repo.remoteTips + tips);
    assert ProcOk(s, s.procs[id]);
    forall h | Reachable(s.repo.remoteTips + tips, h) ensures h in s.server {
      PushedTipReachable(s, id, h);
    }
    assert RecordsKnownContent(s, r);
    KnownContentIsSafe(s, r);
  }

  lemma {:induction false} PushedTipReachable(s: State, id: ProcId, h: FileHash)
    requires Inv(s) && HasPushed(s, id) && Reachable(s.repo.remoteTips + s.procs[id].tips, h)
    ensures h in s.server
  {
    assert ProcOk(s, s.procs[id]);
    UnionReachable(s.repo.remoteTips, s.procs[id].tips, h);
    if Reachable(s.procs[id].tips, h) {
      PushedIsOnServer(s, id, h);
    }
  }
}
