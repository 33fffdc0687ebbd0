// The client staging protocol: every interleaving of clean, git, gc and push-pending.
//
// A state holds what the processes share (store, index, refs, server, locks) and where each
// process stands. One event is one atomic action of one process. `CodeAllows` says what the
// code and the operating system permit; `EnvironmentGuard` and `CacheGuard` list, event by event,
// what the protocol assumes of its surroundings.
module StagingProtocol {
  import opened Wrappers
  import opened CommitWalk

  type Time = nat
  type Xorb = nat
  type PathKey = nat
  type OpId = nat
  type ProcId = nat

  // `.git/bale`: markers with their mtimes, xorbs, one shard per file naming the xorbs it needs,
  // and the clean cache (path key to the hash in the cached pointer).
  datatype Disk = Disk(markers: map<FileHash, Time>,
                       xorbs: set<Xorb>,
                       shards: map<FileHash, set<Xorb>>,
                       cache: map<PathKey, FileHash>)

  datatype Repo = Repo(index: seq<Entry>, localTips: set<Commit>, remoteTips: set<Commit>)

  // A pointer handed to git by a clean of operation `op`, not yet recorded or dropped.
  datatype Emission = Emission(op: OpId, hash: FileHash)

  datatype Proc =
    | MissLocked(op: OpId, key: PathKey, hash: FileHash)
    | MissWritten(op: OpId, key: PathKey, hash: FileHash)
    | MissMarked(op: OpId, key: PathKey, hash: FileHash)
    | MissEmitted(op: OpId, key: PathKey, hash: FileHash)
    | HitLoaded(op: OpId, hash: FileHash)
    | HitLocked(op: OpId, hash: FileHash)
    | HitTouched(op: OpId, hash: FileHash)
    | GcLocked
    | GcChecked
    | GcListed(want: set<FileHash>)
    | GcSnapshot(want: set<FileHash>, snap: Repo, exposed: set<FileHash>)
    | GcDropping(want: set<FileHash>, snap: Repo, dead: set<FileHash>, todo: set<FileHash>)
    | GcForgetting(forget: set<FileHash>, unseen: set<PathKey>)
    | GcSweeping
    | PushListed(staged: set<FileHash>, tips: set<Commit>, reported: set<Commit>)
    | PushUploading(staged: set<FileHash>, tips: set<Commit>, reported: set<Commit>,
                    fromRefs: set<FileHash>, uploaded: set<FileHash>, sourced: set<FileHash>)
    | PushFinalized(staged: set<FileHash>, tips: set<Commit>, reported: set<Commit>)
    | PushDraining(todo: set<FileHash>)
    | PushSweeping

  // `elsewhere` is what the other remotes hold.
  datatype State = State(local: bool,
                         grace: Time,
                         now: Time,
                         disk: Disk,
                         repo: Repo,
                         server: set<FileHash>,
                         elsewhere: set<FileHash>,
                         gitLocks: set<OpId>,
                         pending: set<Emission>,
                         procs: map<ProcId, Proc>,
                         lock: Option<ProcId>)

  datatype Event =
    | Tick(to: Time)
    | GitLock(op: OpId)
    | GitUnlock(op: OpId)
    | GitRecord(repo: Repo, settled: set<Emission>)
    | Smudge(key: PathKey, hash: FileHash)
    | Crash(id: ProcId)
    | Clean(id: ProcId, clean: CleanEvent)
    | Gc(id: ProcId, gc: GcEvent)
    | Push(id: ProcId, push: PushEvent)

  datatype CleanEvent =
    | BeginMiss(op: OpId, key: PathKey, hash: FileHash)
    | WriteObjects(added: set<Xorb>, refs: set<Xorb>)
    | WriteMarker
    | EmitMiss
    | EndMiss(saved: bool)
    | LoadHit(op: OpId, key: PathKey)
    | LockHit
    | TouchMarker
    | EmitHit

  datatype GcEvent =
    | TryLock
    | CheckGit
    | ListMarkers
    | ReadRepo
    | ReadClock
    | DropMarker(hash: FileHash)
    | DropDone
    | ForgetEntry(key: PathKey, gone: bool)
    | ForgetDone
    | SweepXorb(xorb: Xorb)
    | SweepShard(hash: FileHash)
    | SweepDone

  datatype PushEvent =
    | ListStaged(tips: set<Commit>, reported: set<Commit>)
    | ReadRefs
    | Upload(hash: FileHash)
    | Source(hash: FileHash)
    | Finalize
    | LockStore
    | Drain(hash: FileHash)
    | DrainDone
    | DrainXorb(xorb: Xorb)
    | DrainShard(hash: FileHash)
    | PushDone

  // ---- Observations ----

  // The store alone can rebuild the file.
  predicate Backed(d: Disk, h: FileHash) {
    h in d.shards && d.shards[h] <= d.xorbs
  }

  // The content of `h` cannot be lost: the server has it, or the store has it and the marker says so.
  predicate Safe(s: State, h: FileHash) {
    h in s.server || (h in s.disk.markers && Backed(s.disk, h))
  }

  // Every tip counts in local mode, where the store is the only copy.
  function OwnTips(local: bool, r: Repo): set<Commit> {
    if local then r.localTips + r.remoteTips else r.localTips
  }

  ghost predicate Referenced(local: bool, r: Repo, h: FileHash) {
    IndexHolds(r.index, h) || Reachable(OwnTips(local, r), h)
  }

  ghost predicate RemotePushed(local: bool, r: Repo, server: set<FileHash>) {
    !local ==> forall h :: Reachable(r.remoteTips, h) ==> h in server
  }

  predicate IsPending(s: State, h: FileHash) {
    exists e :: e in s.pending && e.hash == h
  }

  // The marker is within the reclaim grace. A marker from the future is young as well.
  predicate Young(s: State, h: FileHash) {
    h in s.disk.markers && s.now <= s.disk.markers[h] + s.grace
  }

  predicate HoldsLock(p: Proc) {
    !(p.HitLoaded? || p.PushListed? || p.PushUploading? || p.PushFinalized?)
  }

  // A gc that has looked for git locks and found none.
  predicate PastCheck(p: Proc) {
    p.GcChecked? || p.GcListed? || p.GcSnapshot? || p.GcDropping? || p.GcForgetting? || p.GcSweeping?
  }

  predicate GcCommitted(s: State) {
    s.lock.Some? && s.lock.value in s.procs && PastCheck(s.procs[s.lock.value])
  }

  // gc's liveness: in local mode nothing is hidden, otherwise remote history is.
  ghost function LiveHashes(local: bool, r: Repo, want: set<FileHash>): set<FileHash> {
    if local then Live(r.index, want, r.localTips + r.remoteTips, {})
    else Live(r.index, want, r.localTips, r.remoteTips)
  }

  function Expired(markers: map<FileHash, Time>, now: Time, grace: Time, hs: set<FileHash>): set<FileHash> {
    set h | h in hs && h in markers && now > markers[h] + grace
  }

  // What gc takes for dead: not live in the snapshot, and past the grace now.
  ghost function DoomedHashes(s: State, p: Proc): set<FileHash>
    requires p.GcSnapshot?
  {
    Expired(s.disk.markers, s.now, s.grace, p.want - LiveHashes(s.local, p.snap, p.want))
  }

  // Dead hashes whose cache entries must go: those no ref and no index mentions. The index is
  // read again here, the tips are the ones of the liveness read.
  ghost function Orphaned(local: bool, snap: Repo, index: seq<Entry>, want: set<FileHash>,
          dead: set<FileHash>): set<FileHash> {
    if local || snap.remoteTips == {} then dead
    else dead - Live(index, want, snap.localTips + snap.remoteTips, {})
  }

  // ---- The environment's side of the bargain ----

  // Nothing mentions `h` and no clean has promised it: it can only come back through a new clean.
  ghost predicate Abandoned(s: State, h: FileHash) {
    !Referenced(s.local, s.repo, h) && !IsPending(s, h)
  }

  // A pointer that was pending when gc read the repository may be missing from what gc has read. By
  // the time gc reads the clock, it is too young to be doomed, on the server, or git has let go of it.
  ghost predicate ExposedSpared(s: State, p: Proc)
    requires p.GcSnapshot?
  {
    forall h :: h in p.exposed && h in DoomedHashes(s, p) ==> h in s.server || Abandoned(s, h)
  }

  // A running gc has read index and refs without `h`, and did not see it promised either.
  ghost predicate TakenForDead(s: State, h: FileHash) {
    && s.lock.Some? && s.lock.value in s.procs
    && var p := s.procs[s.lock.value];
       || (p.GcSnapshot? && h in p.want - LiveHashes(s.local, p.snap, p.want) && h !in p.exposed)
       || (p.GcDropping? && h in p.dead)
  }

  // What index and local refs mention from now on is safe, and stays so.
  ghost predicate RecordsSafeContent(s: State, r: Repo) {
    forall h :: Referenced(s.local, r, h) ==> h in s.server || (Safe(s, h) && !TakenForDead(s, h))
  }

  // What keeps content safe. What a clean-cache hit has loaded is still safe when it gets the lock.
  ghost predicate EnvironmentGuard(s: State, e: Event)
    requires CodeAllows(s, e)
  {
    match e
    case GitRecord(r, _) => RecordsSafeContent(s, r) && RemotePushed(s.local, r, s.server)
    case Clean(id, LockHit) => Safe(s, s.procs[id].hash)
    case Gc(id, ReadClock) => ExposedSpared(s, s.procs[id])
    case _ => true
  }

  // gc is about to invalidate the cache entry of `key`, should it name `h`.
  predicate Forgets(p: Proc, key: PathKey, h: FileHash) {
    (p.GcDropping? && h in p.dead) || (p.GcForgetting? && h in p.forget && key in p.unseen)
  }

  predicate BeingForgotten(s: State, key: PathKey, h: FileHash) {
    s.lock.Some? && s.lock.value in s.procs && Forgets(s.procs[s.lock.value], key, h)
  }

  // The entries that the process is about to invalidate name content that is safe all the same.
  predicate NothingToForget(s: State, p: Proc) {
    forall k :: k in s.disk.cache && Forgets(p, k, s.disk.cache[k]) ==> Safe(s, s.disk.cache[k])
  }

  // What keeps the clean cache good besides.
  ghost predicate CacheGuard(s: State, e: Event)
    requires CodeAllows(s, e)
  {
    match e
    case Smudge(key, h) => Safe(s, h) || BeingForgotten(s, key, h)
    case Crash(id) => s.lock == Some(id) ==> NothingToForget(s, s.procs[id])
    case _ => true
  }

  // ---- Premises that imply these guards ----

  // Pointers enter the index or a local ref only from a clean, or from content already there.
  ghost predicate RecordsKnownContent(s: State, r: Repo) {
    forall h :: Referenced(s.local, r, h) ==> Referenced(s.local, s.repo, h) || IsPending(s, h) || h in s.server
  }

  // Until git records it, an emitted pointer is covered by a git lock gc can see, by a young
  // marker, or by the server. A lock taken after gc's check is invisible to that gc.
  predicate Covered(s: State, e: Emission) {
    || e.hash in s.server
    || Young(s, e.hash)
    || (e.op in s.gitLocks && !GcCommitted(s))
  }

  predicate AllCovered(s: State) {
    forall e :: e in s.pending ==> Covered(s, e)
  }

  // What cache hits that do not have the lock yet have loaded is on the server.
  predicate LoadedHitsPushed(s: State) {
    forall id :: id in s.procs && s.procs[id].HitLoaded? ==> s.procs[id].hash in s.server
  }

  // A gc that has found no git lock overlaps no cache hit between its load and its lock, unless
  // what is loaded is on the server.
  ghost predicate OverlapGuard(s: State, e: Event)
    requires CodeAllows(s, e)
  {
    match e
    case Clean(_, LoadHit(_, key)) => GcCommitted(s) ==> s.disk.cache[key] in s.server
    case Gc(_, CheckGit) => s.gitLocks == {} ==> LoadedHitsPushed(s)
    case _ => true
  }

  // ---- Steps ----

  ghost predicate CodeAllows(s: State, e: Event) {
    match e
    case Tick(to) => s.now <= to
    case GitLock(op) => true
    case GitUnlock(op) => op in s.gitLocks
    case GitRecord(_, settled) => settled <= s.pending
    // Without the lock; the content was read at some earlier time.
    case Smudge(_, _) => true
    case Crash(id) => id in s.procs
    case Clean(id, c) => CleanAllowed(s, id, c)
    case Gc(id, g) => GcAllowed(s, id, g)
    case Push(id, p) => PushAllowed(s, id, p)
  }

  ghost predicate CleanAllowed(s: State, id: ProcId, c: CleanEvent) {
    match c
    case BeginMiss(_, _, _) => id !in s.procs && s.lock == None
    // Local dedup may point at any xorb present, plus the ones written now.
    case WriteObjects(added, refs) => id in s.procs && s.procs[id].MissLocked? && refs <= s.disk.xorbs + added
    case WriteMarker => id in s.procs && s.procs[id].MissWritten?
    case EmitMiss => id in s.procs && s.procs[id].MissMarked?
    case EndMiss(_) => id in s.procs && s.procs[id].MissEmitted?
    case LoadHit(_, key) => id !in s.procs && key in s.disk.cache
    case LockHit => id in s.procs && s.procs[id].HitLoaded? && s.lock == None
    case TouchMarker => id in s.procs && s.procs[id].HitLocked?
    case EmitHit => id in s.procs && s.procs[id].HitTouched?
  }

  ghost predicate GcAllowed(s: State, id: ProcId, g: GcEvent) {
    match g
    case TryLock => id !in s.procs && s.lock == None
    case CheckGit => id in s.procs && s.procs[id].GcLocked?
    case ListMarkers => id in s.procs && s.procs[id].GcChecked?
    case ReadRepo => id in s.procs && s.procs[id].GcListed?
    case ReadClock => id in s.procs && s.procs[id].GcSnapshot?
    case DropMarker(h) => id in s.procs && s.procs[id].GcDropping? && h in s.procs[id].todo
    case DropDone => id in s.procs && s.procs[id].GcDropping? && s.procs[id].todo == {}
    // A removal may hit an entry that has been replaced since it was read.
    case ForgetEntry(key, gone) =>
      && id in s.procs && s.procs[id].GcForgetting?
      && (key in s.disk.cache && s.disk.cache[key] in s.procs[id].forget ==> gone)
    // The listing is through. An entry saved meanwhile may or may not have been in it.
    case ForgetDone => id in s.procs && s.procs[id].GcForgetting? && s.procs[id].unseen == {}
    case SweepXorb(_) => id in s.procs && s.procs[id].GcSweeping?
    case SweepShard(_) => id in s.procs && s.procs[id].GcSweeping?
    case SweepDone => id in s.procs && s.procs[id].GcSweeping?
  }

  ghost predicate PushAllowed(s: State, id: ProcId, p: PushEvent) {
    match p
    // `reported` is what the walk hides: nothing, if the remote has a commit that is not here.
    case ListStaged(_, _) => id !in s.procs && !s.local
    case ReadRefs => id in s.procs && s.procs[id].PushListed?
    // Reads without the lock: a file swept meanwhile fails the push instead.
    case Upload(h) => id in s.procs && s.procs[id].PushUploading? && h in s.procs[id].staged && Backed(s.disk, h)
    // Skipped when the server has it, otherwise fetched from another remote. Not found: no push.
    case Source(h) =>
      id in s.procs && s.procs[id].PushUploading? && h in s.procs[id].fromRefs && h in s.server + s.elsewhere
    case Finalize =>
      && id in s.procs && s.procs[id].PushUploading?
      && s.procs[id].staged == s.procs[id].uploaded && s.procs[id].fromRefs == s.procs[id].sourced
    // With nothing staged there is nothing to drain.
    case LockStore => id in s.procs && s.procs[id].PushFinalized? && s.procs[id].staged != {} && s.lock == None
    case Drain(h) => id in s.procs && s.procs[id].PushDraining? && h in s.procs[id].todo
    case DrainDone => id in s.procs && s.procs[id].PushDraining? && s.procs[id].todo == {}
    case DrainXorb(_) => id in s.procs && s.procs[id].PushSweeping?
    case DrainShard(_) => id in s.procs && s.procs[id].PushSweeping?
    case PushDone => id in s.procs && s.procs[id].PushSweeping?
  }

  ghost function Apply(s: State, e: Event): State
    requires CodeAllows(s, e)
  {
    match e
    case Tick(to) => s.(now := to)
    case GitLock(op) => s.(gitLocks := s.gitLocks + {op})
    case GitUnlock(op) => s.(gitLocks := s.gitLocks - {op})
    case GitRecord(r, settled) => s.(repo := r, pending := s.pending - settled)
    case Smudge(key, h) => s.(disk := s.disk.(cache := s.disk.cache[key := h]))
    case Crash(id) => Exit(s, id)
    case Clean(id, c) => ApplyClean(s, id, c)
    case Gc(id, g) => ApplyGc(s, id, g)
    case Push(id, p) => ApplyPush(s, id, p)
  }

  // The process has ended or died, and the operating system drops its lock.
  function Exit(s: State, id: ProcId): State {
    s.(procs := s.procs - {id}, lock := if s.lock == Some(id) then None else s.lock)
  }

  function Goto(s: State, id: ProcId, p: Proc): State {
    s.(procs := s.procs[id := p])
  }

  function Enter(s: State, id: ProcId, p: Proc): State {
    s.(procs := s.procs[id := p], lock := Some(id))
  }

  ghost function ApplyClean(s: State, id: ProcId, c: CleanEvent): State
    requires CleanAllowed(s, id, c)
  {
    match c
    case BeginMiss(op, key, h) => Enter(s, id, MissLocked(op, key, h))
    case WriteObjects(added, refs) =>
      var p := s.procs[id];
      Goto(s, id, MissWritten(p.op, p.key, p.hash))
      .(disk := s.disk.(xorbs := s.disk.xorbs + added, shards := s.disk.shards[p.hash := refs]))
    case WriteMarker =>
      var p := s.procs[id];
      Goto(s, id, MissMarked(p.op, p.key, p.hash)).(disk := s.disk.(markers := s.disk.markers[p.hash := s.now]))
    case EmitMiss =>
      var p := s.procs[id];
      Goto(s, id, MissEmitted(p.op, p.key, p.hash)).(pending := s.pending + {Emission(p.op, p.hash)})
    case EndMiss(saved) =>
      var p := s.procs[id];
      Exit(s, id).(disk := if saved then s.disk.(cache := s.disk.cache[p.key := p.hash]) else s.disk)
    case LoadHit(op, key) => Goto(s, id, HitLoaded(op, s.disk.cache[key]))
    case LockHit => Enter(s, id, HitLocked(s.procs[id].op, s.procs[id].hash))
    case TouchMarker =>
      var p := s.procs[id];
      Goto(s, id, HitTouched(p.op, p.hash))
      .(disk := if p.hash in s.disk.markers then s.disk.(markers := s.disk.markers[p.hash := s.now]) else s.disk)
    case EmitHit =>
      var p := s.procs[id];
      Exit(s, id).(pending := s.pending + {Emission(p.op, p.hash)})
  }

  ghost function ApplyGc(s: State, id: ProcId, g: GcEvent): State
    requires GcAllowed(s, id, g)
  {
    match g
    case TryLock => Enter(s, id, GcLocked)
    case CheckGit => if s.gitLocks != {} then Exit(s, id) else Goto(s, id, GcChecked)
    case ListMarkers =>
      if s.disk.markers.Keys == {} then Exit(s, id) else Goto(s, id, GcListed(s.disk.markers.Keys))
    case ReadRepo =>
      Goto(s, id, GcSnapshot(s.procs[id].want, s.repo, set e | e in s.pending :: e.hash))
    case ReadClock =>
      var p := s.procs[id];
      var dead := DoomedHashes(s, p);
      if dead == {} then Exit(s, id) else Goto(s, id, GcDropping(p.want, p.snap, dead, dead))
    case DropMarker(h) =>
      Goto(s, id, s.procs[id].(todo := s.procs[id].todo - {h}))
      .(disk := s.disk.(markers := s.disk.markers - {h}))
    case DropDone =>
      var p := s.procs[id];
      Goto(s, id, GcForgetting(Orphaned(s.local, p.snap, s.repo.index, p.want, p.dead), s.disk.cache.Keys))
    case ForgetEntry(key, gone) =>
      Goto(s, id, s.procs[id].(unseen := s.procs[id].unseen - {key}))
      .(disk := if gone then s.disk.(cache := s.disk.cache - {key}) else s.disk)
    case ForgetDone => if s.disk.markers.Keys == {} then Goto(s, id, GcSweeping) else Exit(s, id)
    case SweepXorb(x) => s.(disk := s.disk.(xorbs := s.disk.xorbs - {x}))
    case SweepShard(h) => s.(disk := s.disk.(shards := s.disk.shards - {h}))
    case SweepDone => Exit(s, id)
  }

  ghost function ApplyPush(s: State, id: ProcId, p: PushEvent): State
    requires PushAllowed(s, id, p)
  {
    match p
    case ListStaged(tips, reported) => Goto(s, id, PushListed(s.disk.markers.Keys, tips, reported))
    case ReadRefs =>
      var q := s.procs[id];
      Goto(s, id, PushUploading(q.staged, q.tips, q.reported, SizedPointers(q.tips, q.reported) - q.staged, {}, {}))
    case Upload(h) => Goto(s, id, s.procs[id].(uploaded := s.procs[id].uploaded + {h}))
    case Source(h) => Goto(s, id, s.procs[id].(sourced := s.procs[id].sourced + {h}))
    case Finalize =>
      var q := s.procs[id];
      Goto(s, id, PushFinalized(q.staged, q.tips, q.reported)).(server := s.server + q.uploaded + q.sourced)
    case LockStore => Enter(s, id, PushDraining(s.procs[id].staged))
    case Drain(h) =>
      Goto(s, id, s.procs[id].(todo := s.procs[id].todo - {h}))
      .(disk := s.disk.(markers := s.disk.markers - {h}))
    case DrainDone => if s.disk.markers.Keys == {} then Goto(s, id, PushSweeping) else Exit(s, id)
    case DrainXorb(x) => s.(disk := s.disk.(xorbs := s.disk.xorbs - {x}))
    case DrainShard(h) => s.(disk := s.disk.(shards := s.disk.shards - {h}))
    case PushDone => Exit(s, id)
  }
}
