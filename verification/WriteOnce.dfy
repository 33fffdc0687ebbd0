// Concurrent registration of files: term lists are written once.
//
// Transactions run statement by statement. A transaction takes a lock on each file it writes, keeps
// it until it ends, and only then do others see its rows. Postgres locks by the first eight bytes of
// the hash; SQLite has one write lock, which is the same with a constant key.
module WriteOnce {
  import opened FileTerms

  type LockKey = nat
  type TxId = nat

  datatype RowKey = RowKey(hash: FileHash, index: nat)

  type Rows = map<RowKey, FileTerm>

  // Where a transaction stands with the file at the head of its list.
  datatype Phase = Locking | Probing | Inserting(done: nat)

  // `batch` is what it has begun with.
  datatype Tx = Tx(batch: seq<Registration>, todo: seq<Registration>, phase: Phase, own: Rows, locks: set<LockKey>,
          written: set<Registration>)

  // `registered` are the registrations of committed transactions.
  datatype State = State(committed: Rows, txs: map<TxId, Tx>, registered: set<Registration>)

  datatype Event =
    | Begin(id: TxId, files: seq<Registration>)
    | TakeLock(id: TxId)
    | Probe(id: TxId)
    | InsertBatch(id: TxId)
    | Commit(id: TxId)
    | Rollback(id: TxId)

  ghost predicate HasRows(rows: Rows, h: FileHash) {
    exists i: nat :: RowKey(h, i) in rows
  }

  // The rows of `h` are exactly this list.
  ghost predicate ListIs(rows: Rows, h: FileHash, terms: seq<FileTerm>) {
    forall i: nat :: (RowKey(h, i) in rows <==> i < |terms|) && (i < |terms| ==> rows[RowKey(h, i)] == terms[i])
  }

  // `INSERT ... ON CONFLICT DO NOTHING` of terms `from` to `to`.
  function Inserted(rows: Rows, visible: Rows, r: Registration, from: nat, to: nat): Rows
    requires from <= to <= |r.terms|
  {
    rows + map i | from <= i < to && RowKey(r.hash, i) !in visible :: RowKey(r.hash, i) := r.terms[i]
  }

  function Visible(s: State, tx: Tx): Rows {
    s.committed + tx.own
  }

  function BatchEnd(r: Registration, done: nat): nat
    requires done <= |r.terms|
  {
    if |r.terms| - done < INSERT_BATCH then |r.terms| else done + INSERT_BATCH
  }

  predicate LockFree(s: State, id: TxId, key: LockKey) {
    forall other :: other in s.txs && other != id ==> key !in s.txs[other].locks
  }

  ghost predicate Allowed(keyOf: FileHash -> LockKey, s: State, e: Event) {
    match e
    case Begin(id, _) => id !in s.txs
    case TakeLock(id) =>
      && id in s.txs && s.txs[id].todo != [] && s.txs[id].phase.Locking?
      && LockFree(s, id, keyOf(s.txs[id].todo[0].hash))
    case Probe(id) => id in s.txs && s.txs[id].todo != [] && s.txs[id].phase.Probing?
    case InsertBatch(id) =>
      id in s.txs && s.txs[id].todo != [] && s.txs[id].phase.Inserting? &&
          s.txs[id].phase.done <= |s.txs[id].todo[0].terms|
    case Commit(id) => id in s.txs && s.txs[id].todo == []
    case Rollback(id) => id in s.txs
  }

  ghost function Apply(keyOf: FileHash -> LockKey, s: State, e: Event): State
    requires Allowed(keyOf, s, e)
  {
    match e
    case Begin(id, files) => s.(txs := s.txs[id := Tx(files, files, Locking, map[], {}, {})])
    case TakeLock(id) =>
      var tx := s.txs[id];
      s.(txs := s.txs[id := tx.(phase := Probing, locks := tx.locks + {keyOf(tx.todo[0].hash)})])
    case Probe(id) =>
      var tx := s.txs[id];
      if HasRows(Visible(s, tx), tx.todo[0].hash) then s.(txs := s.txs[id := Next(tx)])
      else s.(txs := s.txs[id := tx.(phase := Inserting(0))])
    case InsertBatch(id) =>
      var tx := s.txs[id];
      var r, done := tx.todo[0], tx.phase.done;
      if done == |r.terms| then s.(txs := s.txs[id := Next(tx)])
      else
        var end := BatchEnd(r, done);
        s.(txs := s.txs[id := tx.(own := Inserted(tx.own, Visible(s, tx), r, done, end), phase := Inserting(end))])
    case Commit(id) =>
      var tx := s.txs[id];
      s.(committed := s.committed + tx.own, txs := s.txs - {id}, registered := s.registered + tx.written)
    case Rollback(id) => s.(txs := s.txs - {id})
  }

  function Next(tx: Tx): Tx
    requires tx.todo != []
  {
    tx.(todo := tx.todo[1..], phase := Locking, written := tx.written + {tx.todo[0]})
  }

  // ---- The invariant ----

  ghost predicate OneList(rows: Rows, h: FileHash, registered: set<Registration>) {
    HasRows(rows, h) ==> exists r :: r in registered && r.hash == h && ListIs(rows, h, r.terms)
  }

  // What a transaction has written stays out of sight of the others, under its locks.
  ghost predicate TxOk(keyOf: FileHash -> LockKey, s: State, tx: Tx) {
    && (forall h :: HasRows(tx.own, h) ==> keyOf(h) in tx.locks && !HasRows(s.committed, h))
    && (tx.todo != [] && !tx.phase.Locking? ==> keyOf(tx.todo[0].hash) in tx.locks)
    && (forall h :: !Busy(tx, h) ==> OneList(tx.own, h, tx.written))
    && (forall r :: r in tx.written && r.terms != [] ==> HasRows(s.committed, r.hash) || HasRows(tx.own, r.hash))
    && (forall r :: r in tx.batch ==> r in tx.written || r in tx.todo)
    && (tx.todo == [] ==> tx.phase.Locking?)
    && (tx.todo != [] && tx.phase.Inserting? ==>
         && !HasRows(s.committed, tx.todo[0].hash)
         && tx.phase.done <= |tx.todo[0].terms|
         && ListIs(tx.own, tx.todo[0].hash, tx.todo[0].terms[..tx.phase.done]))
  }

  // The list of `h` is being written.
  predicate Busy(tx: Tx, h: FileHash) {
    tx.todo != [] && tx.phase.Inserting? && tx.todo[0].hash == h
  }

  ghost predicate Inv(keyOf: FileHash -> LockKey, s: State) {
    && (forall h :: OneList(s.committed, h, s.registered))
    && (forall r :: r in s.registered && r.terms != [] ==> HasRows(s.committed, r.hash))
    && (forall id, other :: id in s.txs && other in s.txs && id != other ==> s.txs[id].locks !! s.txs[other].locks)
    && (forall id :: id in s.txs ==> TxOk(keyOf, s, s.txs[id]))
  }

  lemma {:induction false} OneListGrows(rows: Rows, h: FileHash, registered: set<Registration>, more: set<Registration>)
    requires OneList(rows, h, registered)
    ensures OneList(rows, h, registered + more)
  {
    if HasRows(rows, h) {
      var r :| r in registered && r.hash == h && ListIs(rows, h, r.terms);
      assert r in registered + more;
    }
  }

  lemma {:induction false} SameRowsOneList(rows: Rows, rows': Rows, h: FileHash, registered: set<Registration>)
    requires OneList(rows, h, registered)
    requires forall i: nat :: RowKey(h, i) in rows <==> RowKey(h, i) in rows'
    requires forall i: nat :: RowKey(h, i) in rows ==> rows[RowKey(h, i)] == rows'[RowKey(h, i)]
    ensures OneList(rows', h, registered)
  {
    if HasRows(rows', h) {
      var i: nat :| RowKey(h, i) in rows';
      assert HasRows(rows, h);
      var r :| r in registered && r.hash == h && ListIs(rows, h, r.terms);
      assert ListIs(rows', h, r.terms);
    }
  }

  lemma {:induction false} FinishedList(tx: Tx)
    requires tx.todo != [] && tx.phase.Inserting? && tx.phase.done == |tx.todo[0].terms|
    requires ListIs(tx.own, tx.todo[0].hash, tx.todo[0].terms[..tx.phase.done])
    ensures OneList(tx.own, tx.todo[0].hash, tx.written + {tx.todo[0]})
  {
    assert tx.todo[0].terms[..tx.phase.done] == tx.todo[0].terms;
  }

  lemma {:induction false} NextOk(keyOf: FileHash -> LockKey, s: State, tx: Tx)
    requires tx.todo != [] && TxOk(keyOf, s, tx)
    requires tx.phase.Inserting? ==> tx.phase.done == |tx.todo[0].terms|
    requires !tx.phase.Inserting? ==> HasRows(Visible(s, tx), tx.todo[0].hash)
    ensures TxOk(keyOf, s, Next(tx))
  {
    var first := tx.todo[0];
    if tx.phase.Inserting? {
      assert first.terms[..tx.phase.done] == first.terms;
      assert first.terms != [] ==> RowKey(first.hash, 0) in tx.own;
    } else {
      var i: nat :| RowKey(first.hash, i) in Visible(s, tx);
    }
    forall r | r in tx.batch ensures r in Next(tx).written || r in Next(tx).todo {
      assert r in tx.todo ==> r == first || r in tx.todo[1..];
    }
    forall h ensures OneList(tx.own, h, tx.written + {tx.todo[0]}) {
      if Busy(tx, h) {
        FinishedList(tx);
      } else {
        OneListGrows(tx.own, h, tx.written, {tx.todo[0]});
      }
    }
  }

  lemma {:induction false} BatchOk(keyOf: FileHash -> LockKey, s: State, tx: Tx)
    requires tx.todo != [] && tx.phase.Inserting? && TxOk(keyOf, s, tx) && tx.phase.done < |tx.todo[0].terms|
    ensures var r := tx.todo[0]; var end := BatchEnd(r, tx.phase.done);
            TxOk(keyOf, s, tx.(own := Inserted(tx.own, Visible(s, tx), r, tx.phase.done, end), phase := Inserting(end)))
  {
    var r, done := tx.todo[0], tx.phase.done;
    var end := BatchEnd(r, done);
    var own' := Inserted(tx.own, Visible(s, tx), r, done, end);
    forall i: nat
      ensures RowKey(r.hash, i) in own' <==> i < end
      ensures i < end ==> own'[RowKey(r.hash, i)] == r.terms[i]
    {
      assert RowKey(r.hash, i) !in s.committed;
      assert RowKey(r.hash, i) in tx.own <==> i < done;
    }
    forall h | HasRows(tx.own, h) ensures HasRows(own', h) {
      var i: nat :| RowKey(h, i) in tx.own;
      assert RowKey(h, i) in own';
    }
    forall h | h != r.hash ensures OneList(own', h, tx.written) {
      SameRowsOneList(tx.own, own', h, tx.written);
    }
    forall h | HasRows(own', h) ensures keyOf(h) in tx.locks && !HasRows(s.committed, h) {
      if h != r.hash {
        var i: nat :| RowKey(h, i) in own';
        assert RowKey(h, i) in tx.own;
      }
    }
  }

  lemma {:induction false} RowsStay(rows: Rows, more: Rows)
    ensures forall h :: HasRows(rows, h) || HasRows(more, h) ==> HasRows(rows + more, h)
  {
    forall h | HasRows(rows, h) || HasRows(more, h) ensures HasRows(rows + more, h) {
      var i: nat :| RowKey(h, i) in rows || RowKey(h, i) in more;
      assert RowKey(h, i) in rows + more;
    }
  }

  lemma {:induction false} CommitKeepsLists(keyOf: FileHash -> LockKey, s: State, tx: Tx, h: FileHash)
    requires TxOk(keyOf, s, tx) && tx.todo == [] && OneList(s.committed, h, s.registered)
    ensures OneList(s.committed + tx.own, h, s.registered + tx.written)
  {
    if HasRows(tx.own, h) {
      OneListGrows(tx.own, h, tx.written, s.registered);
      assert tx.written + s.registered == s.registered + tx.written;
      SameRowsOneList(tx.own, s.committed + tx.own, h, s.registered + tx.written);
    } else {
      OneListGrows(s.committed, h, s.registered, tx.written);
      SameRowsOneList(s.committed, s.committed + tx.own, h, s.registered + tx.written);
    }
  }

  // What commits was locked, so the others have not begun writing it and have not relied on its absence.
  lemma {:induction false} OthersUnmoved(keyOf: FileHash -> LockKey, s: State, tx: Tx, other: Tx)
    requires TxOk(keyOf, s, tx) && TxOk(keyOf, s, other) && tx.locks !! other.locks
    ensures TxOk(keyOf, s.(committed := s.committed + tx.own), other)
  {
    RowsStay(s.committed, tx.own);
    forall h | HasRows(other.own, h) || Busy(other, h) ensures !HasRows(s.committed + tx.own, h) {
      assert keyOf(h) !in tx.locks && !HasRows(tx.own, h) && !HasRows(s.committed, h);
      forall i: nat ensures RowKey(h, i) !in s.committed + tx.own {
        assert RowKey(h, i) !in tx.own && RowKey(h, i) !in s.committed;
      }
    }
  }

  lemma {:induction false} TakeLockKeepsInv(keyOf: FileHash -> LockKey, s: State, id: TxId)
    requires Inv(keyOf, s) && Allowed(keyOf, s, TakeLock(id))
    ensures Inv(keyOf, Apply(keyOf, s, TakeLock(id)))
  {
    var tx, s' := s.txs[id], Apply(keyOf, s, TakeLock(id));
    assert TxOk(keyOf, s', s'.txs[id]) by {
      assert TxOk(keyOf, s, tx);
    }
    forall other | other in s'.txs && other != id ensures TxOk(keyOf, s', s'.txs[other]) {
      assert TxOk(keyOf, s, s'.txs[other]);
    }
  }

  lemma {:induction false} BeginKeepsInv(keyOf: FileHash -> LockKey, s: State, id: TxId, files: seq<Registration>)
    requires Inv(keyOf, s) && Allowed(keyOf, s, Begin(id, files))
    ensures Inv(keyOf, Apply(keyOf, s, Begin(id, files)))
  {
    var s' := Apply(keyOf, s, Begin(id, files));
    forall other | other in s'.txs && other != id ensures TxOk(keyOf, s', s'.txs[other]) {
      assert TxOk(keyOf, s, s'.txs[other]);
    }
  }

  lemma {:induction false} RollbackKeepsInv(keyOf: FileHash -> LockKey, s: State, id: TxId)
    requires Inv(keyOf, s) && Allowed(keyOf, s, Rollback(id))
    ensures Inv(keyOf, Apply(keyOf, s, Rollback(id)))
  {
    var s' := Apply(keyOf, s, Rollback(id));
    forall other | other in s'.txs ensures TxOk(keyOf, s', s'.txs[other]) {
      assert TxOk(keyOf, s, s'.txs[other]);
    }
  }

  // A step that changes nothing but the transaction that takes it, not even its locks.
  lemma {:induction false} OwnStepKeepsInv(keyOf: FileHash -> LockKey, s: State, id: TxId, tx': Tx)
    requires Inv(keyOf, s) && id in s.txs && TxOk(keyOf, s, tx') && tx'.locks == s.txs[id].locks
    ensures Inv(keyOf, s.(txs := s.txs[id := tx']))
  {
    var s' := s.(txs := s.txs[id := tx']);
    forall other | other in s'.txs ensures TxOk(keyOf, s', s'.txs[other]) {
      assert TxOk(keyOf, s, s'.txs[other]);
    }
  }

  lemma {:induction false} CommitKeepsInv(keyOf: FileHash -> LockKey, s: State, id: TxId)
    requires Inv(keyOf, s) && Allowed(keyOf, s, Commit(id))
    ensures Inv(keyOf, Apply(keyOf, s, Commit(id)))
  {
    var tx, s' := s.txs[id], Apply(keyOf, s, Commit(id));
    RowsStay(s.committed, tx.own);
    forall h ensures OneList(s'.committed, h, s'.registered) {
      CommitKeepsLists(keyOf, s, tx, h);
    }
    forall other | other in s'.txs ensures TxOk(keyOf, s', s'.txs[other]) {
      OthersUnmoved(keyOf, s, tx, s.txs[other]);
    }
  }

  lemma {:induction false} StepKeepsInv(keyOf: FileHash -> LockKey, s: State, e: Event)
    requires Inv(keyOf, s) && Allowed(keyOf, s, e)
    ensures Inv(keyOf, Apply(keyOf, s, e))
  {
    match e
    case Begin(id, files) => BeginKeepsInv(keyOf, s, id, files);
    case TakeLock(id) => TakeLockKeepsInv(keyOf, s, id);
    case Probe(id) =>
      var tx := s.txs[id];
      if HasRows(Visible(s, tx), tx.todo[0].hash) {
        NextOk(keyOf, s, tx);
        OwnStepKeepsInv(keyOf, s, id, Next(tx));
      } else {
        ProbeOk(keyOf, s, tx);
        OwnStepKeepsInv(keyOf, s, id, tx.(phase := Inserting(0)));
      }
    case InsertBatch(id) =>
      var tx := s.txs[id];
      if tx.phase.done == |tx.todo[0].terms| {
        NextOk(keyOf, s, tx);
        OwnStepKeepsInv(keyOf, s, id, Next(tx));
      } else {
        BatchOk(keyOf, s, tx);
        OwnStepKeepsInv(keyOf, s, id, Apply(keyOf, s, e).txs[id]);
      }
    case Commit(id) => CommitKeepsInv(keyOf, s, id);
    case Rollback(id) => RollbackKeepsInv(keyOf, s, id);
  }

  lemma {:induction false} ProbeOk(keyOf: FileHash -> LockKey, s: State, tx: Tx)
    requires tx.todo != [] && tx.phase.Probing? && TxOk(keyOf, s, tx) && !HasRows(Visible(s, tx), tx.todo[0].hash)
    ensures TxOk(keyOf, s, tx.(phase := Inserting(0)))
  {
    var h := tx.todo[0].hash;
    forall i: nat ensures RowKey(h, i) !in s.committed && RowKey(h, i) !in tx.own {
      assert RowKey(h, i) !in Visible(s, tx);
    }
    assert tx.todo[0].terms[..0] == [];
  }

  // A committed list never changes again, whoever registers what.
  lemma {:induction false} StepKeepsList(keyOf: FileHash -> LockKey, s: State, e: Event, h: FileHash,
          terms: seq<FileTerm>)
    requires Inv(keyOf, s) && Allowed(keyOf, s, e) && HasRows(s.committed, h) && ListIs(s.committed, h, terms)
    ensures HasRows(Apply(keyOf, s, e).committed, h) && ListIs(Apply(keyOf, s, e).committed, h, terms)
  {
    if e.Commit? {
      var tx := s.txs[e.id];
      assert TxOk(keyOf, s, tx) && !HasRows(tx.own, h);
      assert forall i: nat :: RowKey(h, i) !in tx.own;
      var i: nat :| RowKey(h, i) in s.committed;
      assert RowKey(h, i) in s.committed + tx.own;
    }
  }

  // ---- Every run ----

  const EMPTY: State := State(map[], map[], {})

  ghost predicate Runs(keyOf: FileHash -> LockKey, s: State, run: seq<Event>)
    decreases |run|
  {
    run != [] ==> Allowed(keyOf, s, run[0]) && Runs(keyOf, Apply(keyOf, s, run[0]), run[1..])
  }

  ghost function After(keyOf: FileHash -> LockKey, s: State, run: seq<Event>): State
    requires Runs(keyOf, s, run)
    decreases |run|
  {
    if run == [] then s else After(keyOf, Apply(keyOf, s, run[0]), run[1..])
  }

  lemma {:induction false} RunKeepsInv(keyOf: FileHash -> LockKey, s: State, run: seq<Event>)
    requires Inv(keyOf, s) && Runs(keyOf, s, run)
    ensures Inv(keyOf, After(keyOf, s, run))
    decreases |run|
  {
    if run != [] {
      StepKeepsInv(keyOf, s, run[0]);
      RunKeepsInv(keyOf, Apply(keyOf, s, run[0]), run[1..]);
    }
  }

  // In every interleaving, what is stored for a hash is nothing or exactly one list that a committed
  // transaction registered for it.
  lemma {:induction false} StoredListIsRegistered(keyOf: FileHash -> LockKey, run: seq<Event>, h: FileHash)
    requires Runs(keyOf, EMPTY, run) && HasRows(After(keyOf, EMPTY, run).committed, h)
    ensures exists r :: r in After(keyOf, EMPTY, run).registered && r.hash == h && r.terms != []
                        && ListIs(After(keyOf, EMPTY, run).committed, h, r.terms)
  {
    RunKeepsInv(keyOf, EMPTY, run);
    var s := After(keyOf, EMPTY, run);
    assert OneList(s.committed, h, s.registered);
    var r :| r in s.registered && r.hash == h && ListIs(s.committed, h, r.terms);
    var i: nat :| RowKey(h, i) in s.committed;
    assert i < |r.terms|;
  }

  // And it is stored: of every list that a committed transaction has registered, exactly one, complete
  // and in order, is there for its hash.
  lemma {:induction false} RegisteredListIsStored(keyOf: FileHash -> LockKey, run: seq<Event>, r: Registration)
    requires Runs(keyOf, EMPTY, run) && r in After(keyOf, EMPTY, run).registered && r.terms != []
    ensures var s := After(keyOf, EMPTY, run);
            exists first :: first in s.registered && first.hash == r.hash && first.terms != [] &&
              forall i: nat ::
                && (RowKey(r.hash, i) in s.committed <==> i < |first.terms|)
                && (i < |first.terms| ==> s.committed[RowKey(r.hash, i)] == first.terms[i])
  {
    RunKeepsInv(keyOf, EMPTY, run);
    StoredListIsRegistered(keyOf, run, r.hash);
  }

  // A transaction that commits has registered every file of its batch.
  lemma {:induction false} CommitRegistersBatch(keyOf: FileHash -> LockKey, run: seq<Event>, id: TxId)
    requires Runs(keyOf, EMPTY, run) && Allowed(keyOf, After(keyOf, EMPTY, run), Commit(id))
    ensures var s := After(keyOf, EMPTY, run);
            forall r :: r in s.txs[id].batch ==>
              && r in Apply(keyOf, s, Commit(id)).registered
              && (r.terms != [] ==> HasRows(Apply(keyOf, s, Commit(id)).committed, r.hash))
  {
    RunKeepsInv(keyOf, EMPTY, run);
    StepKeepsInv(keyOf, After(keyOf, EMPTY, run), Commit(id));
    assert TxOk(keyOf, After(keyOf, EMPTY, run), After(keyOf, EMPTY, run).txs[id]);
  }

  // Once there, it stays.
  lemma {:induction false} StoredListStays(keyOf: FileHash -> LockKey, s: State, run: seq<Event>, h: FileHash,
          terms: seq<FileTerm>)
    requires Inv(keyOf, s) && Runs(keyOf, s, run) && HasRows(s.committed, h) && ListIs(s.committed, h, terms)
    ensures ListIs(After(keyOf, s, run).committed, h, terms)
    decreases |run|
  {
    if run != [] {
      StepKeepsList(keyOf, s, run[0], h, terms);
      StepKeepsInv(keyOf, s, run[0]);
      StoredListStays(keyOf, Apply(keyOf, s, run[0]), run[1..], h, terms);
    }
  }

  // ---- A transaction that nobody holds up ----

  lemma {:induction false} Prepend(keyOf: FileHash -> LockKey, s: State, e: Event, rest: seq<Event>)
    returns (run: seq<Event>)
    requires Allowed(keyOf, s, e) && Runs(keyOf, Apply(keyOf, s, e), rest)
    ensures run == [e] + rest && Runs(keyOf, s, run)
    ensures After(keyOf, s, run) == After(keyOf, Apply(keyOf, s, e), rest)
  {
    run := [e] + rest;
    assert run[0] == e && run[1..] == rest;
  }

  // Nobody else has a lock on a file that the transaction has still to take.
  ghost predicate Unblocked(keyOf: FileHash -> LockKey, s: State, id: TxId) {
    id in s.txs && forall r :: r in s.txs[id].todo ==> LockFree(s, id, keyOf(r.hash))
  }

  function WorkLeft(tx: Tx): nat {
    if tx.todo == [] then 0
    else match tx.phase
      case Locking => |tx.todo[0].terms| + 4
      case Probing => |tx.todo[0].terms| + 3
      case Inserting(done) => if done <= |tx.todo[0].terms| then |tx.todo[0].terms| - done + 1 else 0
  }

  // The statement it executes next.
  function NextStatement(id: TxId, tx: Tx): Event {
    if tx.todo == [] then Commit(id)
    else match tx.phase
      case Locking => TakeLock(id)
      case Probing => Probe(id)
      case Inserting(_) => InsertBatch(id)
  }

  lemma {:induction false} StatementProgresses(keyOf: FileHash -> LockKey, s: State, id: TxId)
    requires Inv(keyOf, s) && Unblocked(keyOf, s, id) && s.txs[id].todo != []
    ensures var e := NextStatement(id, s.txs[id]);
            && Allowed(keyOf, s, e)
            && var s' := Apply(keyOf, s, e);
               && id in s'.txs && s'.txs == s.txs[id := s'.txs[id]] && s'.txs[id].batch == s.txs[id].batch
               && (|s'.txs[id].todo| < |s.txs[id].todo|
                   || (s'.txs[id].todo == s.txs[id].todo && WorkLeft(s'.txs[id]) < WorkLeft(s.txs[id])))
               && (forall r :: r in s'.txs[id].todo ==> r in s.txs[id].todo)
               && s' == s.(txs := s'.txs)
  {
    assert TxOk(keyOf, s, s.txs[id]);
    assert LockFree(s, id, keyOf(s.txs[id].todo[0].hash));
  }

  lemma {:induction false} StaysUnblocked(keyOf: FileHash -> LockKey, s: State, id: TxId, tx: Tx)
    requires Unblocked(keyOf, s, id) && forall r :: r in tx.todo ==> r in s.txs[id].todo
    ensures Unblocked(keyOf, s.(txs := s.txs[id := tx]), id)
  {
    forall r | r in tx.todo ensures LockFree(s.(txs := s.txs[id := tx]), id, keyOf(r.hash)) {
      assert LockFree(s, id, keyOf(r.hash));
    }
  }

  lemma {:induction false} UnblockedCommits(keyOf: FileHash -> LockKey, s: State, id: TxId) returns (run: seq<Event>)
    requires Inv(keyOf, s) && Unblocked(keyOf, s, id)
    ensures Runs(keyOf, s, run) && After(keyOf, s, run).txs == s.txs - {id}
    ensures forall r :: r in s.txs[id].batch ==> r in After(keyOf, s, run).registered
    decreases |s.txs[id].todo|, WorkLeft(s.txs[id])
  {
    assert TxOk(keyOf, s, s.txs[id]);
    var e := NextStatement(id, s.txs[id]);
    run := [];
    if s.txs[id].todo != [] {
      StatementProgresses(keyOf, s, id);
      StepKeepsInv(keyOf, s, e);
      StaysUnblocked(keyOf, s, id, Apply(keyOf, s, e).txs[id]);
      run := UnblockedCommits(keyOf, Apply(keyOf, s, e), id);
    }
    run := Prepend(keyOf, s, e, run);
  }

  // A batch whose files nobody else is writing can be registered, with the others where they are.
  lemma {:induction false} FreeBatchCommits(keyOf: FileHash -> LockKey, s: State, id: TxId, files: seq<Registration>)
    returns (run: seq<Event>)
    requires Inv(keyOf, s) && id !in s.txs && forall r :: r in files ==> LockFree(s, id, keyOf(r.hash))
    ensures Runs(keyOf, s, run) && After(keyOf, s, run).txs == s.txs
    ensures forall r :: r in files ==>
              && r in After(keyOf, s, run).registered
              && (r.terms != [] ==> HasRows(After(keyOf, s, run).committed, r.hash))
  {
    var s' := Apply(keyOf, s, Begin(id, files));
    forall r | r in files ensures LockFree(s', id, keyOf(r.hash)) {
      assert LockFree(s, id, keyOf(r.hash));
    }
    BeginKeepsInv(keyOf, s, id, files);
    run := UnblockedCommits(keyOf, s', id);
    run := Prepend(keyOf, s, Begin(id, files), run);
    RunKeepsInv(keyOf, s, run);
    assert s'.txs - {id} == s.txs;
  }

  // ---- Why the lock ----

  lemma {:induction false} FirstStep(keyOf: FileHash -> LockKey, s: State, run: seq<Event>, end: State)
    requires run != [] && Allowed(keyOf, s, run[0])
    requires run[1..] == [] ==> Apply(keyOf, s, run[0]) == end
    requires run[1..] != [] ==>
               Runs(keyOf, Apply(keyOf, s, run[0]), run[1..]) && After(keyOf, Apply(keyOf, s, run[0]), run[1..]) == end
    ensures Runs(keyOf, s, run) && After(keyOf, s, run) == end
  {
  }

  const TAIL_RUN: seq<Event> := [InsertBatch(2), InsertBatch(2), Commit(2)]

  // It had found nothing before the first row was committed; now it skips that row and adds the next.
  lemma {:induction false} SecondAddsItsTail(keyOf: FileHash -> LockKey, s: State, h: FileHash, t: FileTerm,
          u: FileTerm, v: FileTerm)
    requires s.committed == map[RowKey(h, 0) := t]
    requires s.txs == map[2 := Tx([], [Registration(h, [u, v])], Inserting(0), map[], {}, {})]
    ensures Runs(keyOf, s, TAIL_RUN) && ListIs(After(keyOf, s, TAIL_RUN).committed, h, [t, v])
  {
    var s1 := Apply(keyOf, s, InsertBatch(2));
    assert s1.txs[2].own == map[RowKey(h, 1) := v];
    var s2 := Apply(keyOf, s1, InsertBatch(2));
    var s3 := Apply(keyOf, s2, Commit(2));
    var run2 := [Commit(2)];
    var run1 := [InsertBatch(2)] + run2;
    assert TAIL_RUN == [InsertBatch(2)] + run1;
    FirstStep(keyOf, s2, run2, s3);
    FirstStep(keyOf, s1, run1, s3);
    FirstStep(keyOf, s, TAIL_RUN, s3);
  }

  // Two transactions that have both found nothing, which the lock rules out; the first has written
  // its one-term list already. When it commits, the second adds the tail of its own: they merge.
  lemma {:induction false} WithoutTheLockListsMerge(keyOf: FileHash -> LockKey, h: FileHash, t: FileTerm,
          u: FileTerm, v: FileTerm)
    ensures var first := Tx([], [], Locking, map[RowKey(h, 0) := t], {}, {Registration(h, [t])});
            var second := Tx([], [Registration(h, [u, v])], Inserting(0), map[], {}, {});
            var s := State(map[], map[1 := first, 2 := second], {});
            && Runs(keyOf, s, [Commit(1)] + TAIL_RUN)
            && ListIs(After(keyOf, s, [Commit(1)] + TAIL_RUN).committed, h, [t, v])
  {
    var first := Tx([], [], Locking, map[RowKey(h, 0) := t], {}, {Registration(h, [t])});
    var second := Tx([], [Registration(h, [u, v])], Inserting(0), map[], {}, {});
    var s := State(map[], map[1 := first, 2 := second], {});
    var s1 := Apply(keyOf, s, Commit(1));
    SecondAddsItsTail(keyOf, s1, h, t, u, v);
    var run := [Commit(1)] + TAIL_RUN;
    assert run[0] == Commit(1) && run[1..] == TAIL_RUN;
    FirstStep(keyOf, s, run, After(keyOf, s1, TAIL_RUN));
  }
}
