// The byte-budgeted LRU of the read-only mount (`BaleLru`).
module BlobLru {
  import opened Wrappers
  import opened Sums

  type Data = seq<bv8>

  // The value of the cache. `order` runs from the oldest to the newest use. A key put twice while
  // resident stands in it twice, and its bytes are counted twice.
  datatype Lru = Lru(budget: nat, entries: map<string, Data>, order: seq<string>, used: nat)

  function Position(order: seq<string>, key: string): (i: nat)
    ensures i <= |order| && (i < |order| <==> key in order)
    ensures i < |order| ==> order[i] == key
  {
    if order == [] || order[0] == key then 0 else 1 + Position(order[1..], key)
  }

  function Touched(order: seq<string>, key: string): seq<string> {
    var i := Position(order, key);
    if i < |order| then order[..i] + order[i + 1..] + [key] else order
  }

  function AfterGet(l: Lru, key: string): Lru {
    if key in l.entries then l.(order := Touched(l.order, key)) else l
  }

  function DropOldest(l: Lru): Lru
    requires l.order != []
  {
    var victim := l.order[0];
    var size := if victim in l.entries then |l.entries[victim]| else 0;
    l.(order := l.order[1..], entries := l.entries - {victim}, used := if l.used >= size then l.used - size else 0)
  }

  function Evicted(l: Lru, size: nat): Lru
    decreases |l.order|
  {
    if l.used + size <= l.budget || l.order == [] then l else Evicted(DropOldest(l), size)
  }

  function AfterPut(l: Lru, key: string, data: Data): Lru {
    if |data| > l.budget then l
    else
      var e := Evicted(l, |data|);
      e.(entries := e.entries[key := data], order := e.order + [key], used := e.used + |data|)
  }

  class BaleLru {
    const budget: nat
    var entries: map<string, Data>
    var order: seq<string>
    var bytesUsed: nat

    constructor (budget: nat)
      ensures Value() == Lru(budget, map[], [], 0)
    {
      this.budget := budget;
      entries, order, bytesUsed := map[], [], 0;
    }

    function Value(): Lru
      reads this
    {
      Lru(budget, entries, order, bytesUsed)
    }

    method Get(key: string) returns (r: Option<Data>)
      modifies this
      ensures Value() == AfterGet(old(Value()), key)
      ensures r == if key in old(entries) then Some(old(entries)[key]) else None
    {
      if key !in entries {
        return None;
      }
      var i := 0;
      while i < |order| && order[i] != key
        invariant 0 <= i <= |order| && i + Position(order[i..], key) == Position(order, key)
      {
        i := i + 1;
      }
      if i < |order| {
        order := order[..i] + order[i + 1..] + [key];
      }
      return Some(entries[key]);
    }

    method Put(key: string, data: Data)
      modifies this
      ensures Value() == AfterPut(old(Value()), key, data)
      // Data that is kept is what the next get returns. It costs nothing else if there is room, and
      // otherwise the fewest of the keys that have gone unused longest.
      ensures |data| > budget ==> Value() == old(Value())
      ensures |data| <= budget ==> key in entries && entries[key] == data
      ensures old(bytesUsed) + |data| <= budget ==>
        entries == old(entries)[key := data] && order == old(order) + [key] && bytesUsed == old(bytesUsed) + |data|
      ensures |data| <= budget && Sane(old(Value())) ==>
        exists n: nat :: EvictsFewest(old(Value()), |data|, n) && order == old(order)[n..] + [key] &&
                    entries == (old(entries) - Oldest(old(order), n))[key := data]
    {
      if Sane(Value()) {
        var n := EvictedAreOldest(Value(), |data|);
      }
      if |data| > budget {
        return;
      }
      while bytesUsed + |data| > budget
        invariant Evicted(Value(), |data|) == Evicted(old(Value()), |data|)
        decreases |order|
      {
        if order == [] {
          break;
        }
        var victim := order[0];
        order := order[1..];
        if victim in entries {
          var size := |entries[victim]|;
          bytesUsed := if bytesUsed >= size then bytesUsed - size else 0;
          entries := entries - {victim};
        }
        assert victim !in old(entries) ==> entries - {victim} == entries;
      }
      bytesUsed := bytesUsed + |data|;
      order := order + [key];
      entries := entries[key := data];
    }
  }

  // ---- Resident bytes ----

  function Sizes(m: map<string, Data>): map<string, nat> {
    map k | k in m :: |m[k]|
  }

  ghost function Resident(m: map<string, Data>): nat {
    Total(m.Keys, Sizes(m))
  }

  lemma {:induction false} ResidentWithout(m: map<string, Data>, k: string)
    ensures Resident(m) == Resident(m - {k}) + if k in m then |m[k]| else 0
  {
    assert (m - {k}).Keys == m.Keys - {k};
    TotalSameWeights(m.Keys - {k}, Sizes(m), Sizes(m - {k}));
    if k in m {
      TotalWithout(m.Keys, Sizes(m), k);
    } else {
      assert m.Keys - {k} == m.Keys;
    }
  }

  lemma {:induction false} ResidentWith(m: map<string, Data>, k: string, d: Data)
    ensures Resident(m[k := d]) == Resident(m - {k}) + |d|
  {
    ResidentWithout(m[k := d], k);
    assert m[k := d] - {k} == m - {k};
  }

  // ---- What every run keeps ----

  ghost predicate Sane(l: Lru) {
    && (forall k :: k in l.entries ==> k in l.order)
    && Resident(l.entries) <= l.used
    && Resident(l.entries) <= l.budget
    && l.used - Resident(l.entries) <= l.budget
  }

  // No key was put again while resident.
  ghost predicate Exact(l: Lru) {
    && (forall k :: k in l.order ==> k in l.entries)
    && (forall i, j :: 0 <= i < j < |l.order| ==> l.order[i] != l.order[j])
    && l.used == Resident(l.entries)
  }

  lemma {:induction false} DropOldestOk(l: Lru)
    requires Sane(l) && l.order != []
    ensures Sane(DropOldest(l)) && (Exact(l) ==> Exact(DropOldest(l)))
  {
    var d := DropOldest(l);
    ResidentWithout(l.entries, l.order[0]);
    forall k | k in d.entries ensures k in d.order {
      assert k in l.order && k != l.order[0];
    }
    if Exact(l) {
      forall k | k in d.order ensures k in d.entries {
        var i :| 0 <= i < |d.order| && d.order[i] == k;
        assert l.order[i + 1] == k && l.order[0] != k;
      }
    }
  }

  lemma {:induction false} EvictedOk(l: Lru, size: nat)
    requires Sane(l)
    ensures Sane(Evicted(l, size)) && (Exact(l) ==> Exact(Evicted(l, size)))
    ensures Evicted(l, size).budget == l.budget && Evicted(l, size).entries.Keys <= l.entries.Keys
    ensures Evicted(l, size).used + size <= l.budget || Evicted(l, size).order == []
    decreases |l.order|
  {
    if l.used + size > l.budget && l.order != [] {
      DropOldestOk(l);
      EvictedOk(DropOldest(l), size);
    }
  }

  function Oldest(order: seq<string>, n: nat): set<string>
    requires n <= |order|
  {
    set i | 0 <= i < n :: order[i]
  }

  // The bytes counted when the first `n` keys of the queue have gone.
  ghost function UsedWithout(l: Lru, n: nat): int
    requires n <= |l.order|
  {
    l.used - Resident(l.entries) + Resident(l.entries - Oldest(l.order, n))
  }

  // To make room for `size` bytes, the first `n` keys of the queue must go, and need to.
  ghost predicate EvictsFewest(l: Lru, size: nat, n: nat) {
    && n <= |l.order|
    && (n < |l.order| ==> UsedWithout(l, n) + size <= l.budget)
    && (n > 0 ==> UsedWithout(l, n - 1) + size > l.budget)
  }

  lemma {:induction false} OldestOfRest(l: Lru, n: nat)
    requires Sane(l) && 0 < n <= |l.order|
    ensures DropOldest(l).entries - Oldest(DropOldest(l).order, n - 1) == l.entries - Oldest(l.order, n)
    ensures UsedWithout(DropOldest(l), n - 1) == UsedWithout(l, n)
  {
    var d := DropOldest(l);
    assert Oldest(l.order, n) == {l.order[0]} + Oldest(d.order, n - 1) by {
      forall k | k in Oldest(l.order, n) ensures k in {l.order[0]} + Oldest(d.order, n - 1) {
        var i :| 0 <= i < n && l.order[i] == k;
        assert i > 0 ==> d.order[i - 1] == k;
      }
      forall k | k in Oldest(d.order, n - 1) ensures k in Oldest(l.order, n) {
        var i :| 0 <= i < n - 1 && d.order[i] == k;
        assert l.order[i + 1] == k;
      }
    }
    assert d.entries - Oldest(d.order, n - 1) == l.entries - Oldest(l.order, n);
    ResidentWithout(l.entries, l.order[0]);
  }

  lemma {:induction false} EvictedAreOldest(l: Lru, size: nat) returns (n: nat)
    requires Sane(l)
    ensures EvictsFewest(l, size, n)
    ensures Evicted(l, size).order == l.order[n..] && Evicted(l, size).entries == l.entries - Oldest(l.order, n)
    decreases |l.order|
  {
    assert l.entries - Oldest(l.order, 0) == l.entries;
    if l.used + size > l.budget && l.order != [] {
      DropOldestOk(l);
      var m := EvictedAreOldest(DropOldest(l), size);
      n := m + 1;
      OldestOfRest(l, n);
      if m > 0 {
        OldestOfRest(l, m);
      }
      assert l.order[1..][m..] == l.order[n..];
    } else {
      n := 0;
      assert l.order[0..] == l.order;
    }
  }

  lemma {:induction false} PutOk(l: Lru, key: string, data: Data)
    requires Sane(l)
    ensures Sane(AfterPut(l, key, data))
    ensures Exact(l) && key !in l.entries ==> Exact(AfterPut(l, key, data))
  {
    if |data| <= l.budget {
      EvictedOk(l, |data|);
      var e := Evicted(l, |data|);
      ResidentWith(e.entries, key, data);
      ResidentWithout(e.entries, key);
      if e.order == [] {
        assert e.entries.Keys == {};
      }
    }
  }

  // Bytes counted that nothing resident accounts for.
  ghost function Leak(l: Lru): int {
    l.used - Resident(l.entries)
  }

  lemma {:induction false} EvictionKeepsLeak(l: Lru, size: nat)
    requires Sane(l)
    ensures Leak(Evicted(l, size)) == Leak(l)
    decreases |l.order|
  {
    if l.used + size > l.budget && l.order != [] {
      DropOldestOk(l);
      ResidentWithout(l.entries, l.order[0]);
      EvictionKeepsLeak(DropOldest(l), size);
    }
  }

  // The counter goes wrong exactly when a put finds its key still resident after the eviction:
  // then the old bytes stay counted for good.
  lemma {:induction false} PutLeaksOldBytes(l: Lru, key: string, data: Data)
    requires Sane(l) && |data| <= l.budget
    ensures var e := Evicted(l, |data|);
            Leak(AfterPut(l, key, data)) == Leak(l) + if key in e.entries then |e.entries[key]| else 0
  {
    var e := Evicted(l, |data|);
    EvictionKeepsLeak(l, |data|);
    ResidentWith(e.entries, key, data);
    ResidentWithout(e.entries, key);
  }

  // A touch moves one element to the back.
  lemma {:induction false} TouchedElements(order: seq<string>, key: string)
    requires key in order
    ensures var i := Position(order, key);
            |Touched(order, key)| == |order| && Touched(order, key)[|order| - 1] == key &&
            forall j :: 0 <= j < |order| - 1 ==> Touched(order, key)[j] == order[if j < i then j else j + 1]
    ensures forall k :: k in order <==> k in Touched(order, key)
  {
    var i := Position(order, key);
    assert order == order[..i] + [order[i]] + order[i + 1..];
  }

  lemma {:induction false} GetOk(l: Lru, key: string)
    requires Sane(l)
    ensures Sane(AfterGet(l, key)) && (Exact(l) ==> Exact(AfterGet(l, key)))
  {
    if key in l.entries {
      TouchedElements(l.order, key);
    }
  }

  datatype Op = Get(key: string) | Put(key: string, data: Data)

  function AfterOp(l: Lru, op: Op): Lru {
    match op
    case Get(key) => AfterGet(l, key)
    case Put(key, data) => AfterPut(l, key, data)
  }

  function AfterOps(l: Lru, ops: seq<Op>): Lru {
    if ops == [] then l else AfterOp(AfterOps(l, ops[..|ops| - 1]), ops[|ops| - 1])
  }

  // Every put was of a key not resident at that point.
  ghost predicate NoRePut(l: Lru, ops: seq<Op>) {
    forall i :: 0 <= i < |ops| && ops[i].Put? ==> ops[i].key !in AfterOps(l, ops[..i]).entries
  }

  lemma {:induction false} NoRePutPrefix(budget: nat, ops: seq<Op>)
    requires ops != [] && NoRePut(Lru(budget, map[], [], 0), ops)
    ensures NoRePut(Lru(budget, map[], [], 0), ops[..|ops| - 1])
    ensures var op := ops[|ops| - 1];
            op.Put? ==> op.key !in AfterOps(Lru(budget, map[], [], 0), ops[..|ops| - 1]).entries
  {
    var before := ops[..|ops| - 1];
    forall i | 0 <= i < |before| && before[i].Put?
      ensures before[i].key !in AfterOps(Lru(budget, map[], [], 0), before[..i]).entries
    {
      assert before[..i] == ops[..i] && ops[i].Put?;
    }
  }

  // For every sequence of gets and puts, re-puts included: what is held fits the budget, the
  // counter never falls below it and never exceeds twice the budget; without re-puts it is exact.
  lemma {:induction false} BudgetHolds(budget: nat, ops: seq<Op>)
    ensures var l := AfterOps(Lru(budget, map[], [], 0), ops);
            Sane(l) && l.budget == budget && Resident(l.entries) <= budget &&
            Resident(l.entries) <= l.used <= 2 * budget &&
            (NoRePut(Lru(budget, map[], [], 0), ops) ==> Exact(l))
    decreases |ops|
  {
    var start := Lru(budget, map[], [], 0);
    if ops != [] {
      var l := AfterOps(start, ops[..|ops| - 1]);
      BudgetHolds(budget, ops[..|ops| - 1]);
      if NoRePut(start, ops) {
        NoRePutPrefix(budget, ops);
      }
      match ops[|ops| - 1]
      case Get(key) => GetOk(l, key);
      case Put(key, data) => PutOk(l, key, data); EvictedOk(l, |data|);
    }
  }

  // What one operation adds to the counter for good.
  function Leaked(l: Lru, op: Op): nat {
    match op
    case Get(_) => 0
    case Put(key, data) =>
      if |data| > l.budget then 0
      else
        var e := Evicted(l, |data|);
        if key in e.entries then |e.entries[key]| else 0
  }

  ghost predicate NoOpLeaks(l: Lru, ops: seq<Op>) {
    forall i :: 0 <= i < |ops| ==> Leaked(AfterOps(l, ops[..i]), ops[i]) == 0
  }

  lemma {:induction false} NoOpLeaksSplit(l: Lru, ops: seq<Op>, op: Op)
    ensures NoOpLeaks(l, ops + [op]) <==> NoOpLeaks(l, ops) && Leaked(AfterOps(l, ops), op) == 0
  {
    var all := ops + [op];
    assert all[..|ops|] == ops && all[|ops|] == op;
    forall i | 0 <= i < |ops| ensures all[..i] == ops[..i] && all[i] == ops[i] {
    }
    if NoOpLeaks(l, all) {
      assert Leaked(AfterOps(l, all[..|ops|]), all[|ops|]) == 0;
      forall i | 0 <= i < |ops| ensures Leaked(AfterOps(l, ops[..i]), ops[i]) == 0 {
        assert Leaked(AfterOps(l, all[..i]), all[i]) == 0;
      }
    }
  }

  // After any operations the counter equals the resident bytes exactly if no put that fits ever found
  // its key still resident, with data, after the eviction.
  lemma {:induction false} CounterIsExact(budget: nat, ops: seq<Op>)
    ensures var start := Lru(budget, map[], [], 0);
            Leak(AfterOps(start, ops)) >= 0 && (Leak(AfterOps(start, ops)) == 0 <==> NoOpLeaks(start, ops))
    decreases |ops|
  {
    var start := Lru(budget, map[], [], 0);
    if ops != [] {
      var before, op := ops[..|ops| - 1], ops[|ops| - 1];
      assert before + [op] == ops;
      CounterIsExact(budget, before);
      BudgetHolds(budget, before);
      NoOpLeaksSplit(start, before, op);
      if op.Put? && |op.data| <= budget {
        PutLeaksOldBytes(AfterOps(start, before), op.key, op.data);
      }
    }
  }

  // ---- Least recently used goes first ----

  ghost function LastUse(ops: seq<Op>, key: string): int {
    if ops == [] then -1 else if ops[|ops| - 1].key == key then |ops| - 1 else LastUse(ops[..|ops| - 1], key)
  }

  ghost predicate ByRecency(order: seq<string>, ops: seq<Op>) {
    forall i, j :: 0 <= i < j < |order| ==> LastUse(ops, order[i]) < LastUse(ops, order[j])
  }

  lemma {:induction false} LastUseBound(ops: seq<Op>, key: string)
    ensures LastUse(ops, key) < |ops|
    decreases |ops|
  {
    if ops != [] {
      LastUseBound(ops[..|ops| - 1], key);
    }
  }

  lemma {:induction false} EvictedIsSuffix(l: Lru, size: nat) returns (n: nat)
    ensures n <= |l.order|
    ensures Evicted(l, size).order == l.order[n..]
    decreases |l.order|
  {
    if l.used + size > l.budget && l.order != [] {
      var m := EvictedIsSuffix(DropOldest(l), size);
      n := m + 1;
      assert l.order[1..][m..] == l.order[m + 1..];
    } else {
      n := 0;
      assert l.order[0..] == l.order;
    }
  }

  lemma {:induction false} TouchKeepsRecency(order: seq<string>, ops: seq<Op>, op: Op)
    requires ByRecency(order, ops) && op.key in order
    ensures ByRecency(Touched(order, op.key), ops + [op])
  {
    TouchedElements(order, op.key);
    NextLastUse(ops, op);
    var touched, p := Touched(order, op.key), Position(order, op.key);
    forall i, j | 0 <= i < j < |touched| ensures LastUse(ops + [op], touched[i]) < LastUse(ops + [op], touched[j]) {
      var i' := if i < p then i else i + 1;
      var j' := if j < p then j else j + 1;
      assert touched[i] == order[i'] && LastUse(ops, order[i']) != LastUse(ops, order[p]);
      if j < |order| - 1 {
        assert LastUse(ops, order[j']) != LastUse(ops, order[p]);
      }
    }
  }

  lemma {:induction false} NextLastUse(ops: seq<Op>, op: Op)
    ensures forall k :: LastUse(ops + [op], k) == if k == op.key then |ops| else LastUse(ops, k)
    ensures forall k :: LastUse(ops, k) < |ops|
  {
    assert (ops + [op])[..|ops|] == ops;
    forall k ensures LastUse(ops, k) < |ops| {
      LastUseBound(ops, k);
    }
  }

  lemma {:induction false} AppendKeepsRecency(order: seq<string>, n: nat, ops: seq<Op>, op: Op)
    requires ByRecency(order, ops) && n <= |order| && op.key !in order[n..]
    ensures ByRecency(order[n..], ops + [op]) && ByRecency(order[n..] + [op.key], ops + [op])
  {
    NextLastUse(ops, op);
    forall i | n <= i < |order| ensures order[i] != op.key {
      assert order[n..][i - n] == order[i];
    }
  }

  lemma {:induction false} OpKeepsRecency(l: Lru, ops: seq<Op>, op: Op)
    requires ByRecency(l.order, ops) && Sane(l) && Exact(l)
    requires op.Put? ==> op.key !in l.entries
    ensures ByRecency(AfterOp(l, op).order, ops + [op])
  {
    if op.Get? && op.key in l.entries {
      TouchKeepsRecency(l.order, ops, op);
    } else {
      var n := 0;
      if op.Put? {
        n := EvictedIsSuffix(l, |op.data|);
      }
      assert op.key !in l.order;
      AppendKeepsRecency(l.order, n, ops, op);
      AppendKeepsRecency(l.order, 0, ops, op);
      assert l.order[0..] == l.order;
    }
  }

  // Without re-puts the queue is sorted by last use, so an eviction always takes the entry that
  // has gone unused longest.
  lemma {:induction false} OrderIsRecency(budget: nat, ops: seq<Op>)
    requires NoRePut(Lru(budget, map[], [], 0), ops)
    ensures ByRecency(AfterOps(Lru(budget, map[], [], 0), ops).order, ops)
    decreases |ops|
  {
    if ops != [] {
      var before, op := ops[..|ops| - 1], ops[|ops| - 1];
      NoRePutPrefix(budget, ops);
      OrderIsRecency(budget, before);
      BudgetHolds(budget, before);
      OpKeepsRecency(AfterOps(Lru(budget, map[], [], 0), before), before, op);
      assert before + [op] == ops;
    }
  }
}
