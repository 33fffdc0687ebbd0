// The reachability walk of `git-bale gc` and `git-bale push-pending`.
//
// Git objects are content addressed, so an object is modelled by its value: two
// equal commits are the same commit, and a blob stands for its own object id.
// A commit holds its parents, hence histories are acyclic by construction.
module CommitWalk {
  import opened Wrappers

  // File hashes are only ever compared for equality.
  type FileHash = nat

  const POINTER_MAX_BYTES: nat := 4096

  datatype Pointer = Pointer(hash: FileHash, fileSize: Option<nat>)

  // `pointer` is the verdict of parsing `content` as a bale pointer.
  datatype Blob = Blob(content: string, pointer: Option<Pointer>)

  datatype Mode = File | Executable | Symlink | Submodule

  datatype Entry = Entry(mode: Mode, blob: Blob)

  // A tree flattened to its leaves. The tree diff recurses into subtrees, so it sees exactly these.
  type Tree = map<string, Entry>

  datatype Commit = Commit(parents: seq<Commit>, tree: Tree, message: string)

  // ---- What a repository mentions ----

  // A regular file or an executable of 1 to 4096 bytes whose content parses as a pointer to `h`.
  predicate Names(e: Entry, h: FileHash) {
    && (e.mode == File || e.mode == Executable) && 1 <= |e.blob.content| <= 4096
    && e.blob.pointer.Some? && e.blob.pointer.value.hash == h
  }

  ghost predicate Holds(t: Tree, h: FileHash) {
    exists p :: p in t && Names(t[p], h)
  }

  ghost predicate IndexHolds(index: seq<Entry>, h: FileHash) {
    exists i :: 0 <= i < |index| && Names(index[i], h)
  }

  // Each commit of the line is a parent of the one before it.
  ghost predicate IsLine(line: seq<Commit>) {
    line != [] && forall i :: 0 <= i < |line| - 1 ==> line[i + 1] in line[i].parents
  }

  ghost predicate Below(tips: set<Commit>, c: Commit) {
    exists line :: IsLine(line) && line[0] in tips && line[|line| - 1] == c
  }

  // Some tree of the history below `tips` holds a pointer to `h`.
  ghost predicate Reachable(tips: set<Commit>, h: FileHash) {
    exists c :: Below(tips, c) && Holds(c.tree, h)
  }

  // Added or changed against the first parent.
  predicate ChangesPath(c: Commit, p: string) {
    && p in c.tree
    && (c.parents == [] || p !in c.parents[0].tree || c.parents[0].tree[p] != c.tree[p])
  }

  ghost predicate Introduces(c: Commit, h: FileHash) {
    exists p :: ChangesPath(c, p) && Names(c.tree[p], h)
  }

  ghost predicate IntroducedBetween(tips: set<Commit>, hidden: set<Commit>, h: FileHash) {
    exists c :: Below(tips, c) && !Below(hidden, c) && Introduces(c, h)
  }

  // Wanted hashes in the index or introduced by a commit of the walk.
  ghost function Live(index: seq<Entry>, want: set<FileHash>, tips: set<Commit>, hidden: set<Commit>): set<FileHash> {
    set h | h in want && (IndexHolds(index, h) || IntroducedBetween(tips, hidden, h))
  }

  // ---- What the code goes by ----

  predicate IsBlobMode(mode: Mode) {
    mode == File || mode == Executable
  }

  // The header filter (size) and the parse, without the `seen` filter.
  function PointerIn(b: Blob): Option<Pointer> {
    if |b.content| == 0 || |b.content| > POINTER_MAX_BYTES then None else b.pointer
  }

  // Paths added or modified from `before` to `after`, renames not tracked.
  function Changed(before: Tree, after: Tree): set<string> {
    set p | p in after && (p !in before || before[p] != after[p])
  }

  function FirstParentTree(c: Commit): Tree {
    if c.parents == [] then map[] else c.parents[0].tree
  }

  function Ancestors(c: Commit): set<Commit> {
    {c} + set p, a | p in c.parents && a in Ancestors(p) :: a
  }

  function AncestorsOf(tips: set<Commit>): set<Commit> {
    set t, a | t in tips && a in Ancestors(t) :: a
  }

  // What `rev_walk(tips).with_hidden(hidden)` visits, in some order.
  function Walked(tips: set<Commit>, hidden: set<Commit>): set<Commit> {
    AncestorsOf(tips) - AncestorsOf(hidden)
  }

  lemma {:induction false} LineToAncestor(c: Commit, a: Commit) returns (line: seq<Commit>)
    requires a in Ancestors(c)
    ensures IsLine(line) && line[0] == c && line[|line| - 1] == a
    decreases c
  {
    if a == c {
      line := [c];
    } else {
      var p :| p in c.parents && a in Ancestors(p);
      var rest := LineToAncestor(p, a);
      line := [c] + rest;
    }
  }

  lemma {:induction false} LineEndsInAncestor(line: seq<Commit>)
    requires IsLine(line)
    ensures line[|line| - 1] in Ancestors(line[0])
    decreases |line|
  {
    if |line| > 1 {
      var rest := line[1..];
      assert IsLine(rest) by {
        forall i | 0 <= i < |rest| - 1 ensures rest[i + 1] in rest[i].parents {
          assert line[i + 1 + 1] in line[i + 1].parents;
        }
      }
      LineEndsInAncestor(rest);
      assert line[0 + 1] in line[0].parents;
    }
  }

  // The walk visits what lies on a line from a tip.
  lemma {:induction false} BelowIsAncestor(tips: set<Commit>, c: Commit)
    ensures Below(tips, c) <==> c in AncestorsOf(tips)
  {
    if Below(tips, c) {
      var line :| IsLine(line) && line[0] in tips && line[|line| - 1] == c;
      LineEndsInAncestor(line);
    }
    if c in AncestorsOf(tips) {
      var t :| t in tips && c in Ancestors(t);
      var line := LineToAncestor(t, c);
    }
  }

  lemma {:induction false} WalkedIsBetween(tips: set<Commit>, hidden: set<Commit>)
    ensures forall c :: c in Walked(tips, hidden) <==> Below(tips, c) && !Below(hidden, c)
  {
    forall c ensures c in Walked(tips, hidden) <==> Below(tips, c) && !Below(hidden, c) {
      BelowIsAncestor(tips, c);
      BelowIsAncestor(hidden, c);
    }
  }

  lemma {:induction false} NothingBelowNothing()
    ensures forall c :: !Below({}, c)
  {
  }

  // ---- The completeness theorem ----

  lemma {:induction false} ParentIsBelow(tips: set<Commit>, c: Commit, p: Commit)
    requires Below(tips, c) && p in c.parents
    ensures Below(tips, p)
  {
    var line :| IsLine(line) && line[0] in tips && line[|line| - 1] == c;
    assert IsLine(line + [p]);
  }

  // Follow the path that holds the pointer back along first parents: either some commit on
  // the way introduced it, or the chain runs into hidden history that still holds it.
  lemma {:induction false} IntroducedOrHidden(c: Commit, tips: set<Commit>, hidden: set<Commit>, h: FileHash)
    requires Below(tips, c) && Holds(c.tree, h)
    ensures IntroducedBetween(tips, hidden, h) || Reachable(hidden, h)
    decreases c
  {
    if !Below(hidden, c) {
      var p :| p in c.tree && Names(c.tree[p], h);
      if ChangesPath(c, p) {
        assert Introduces(c, h);
      } else {
        ParentIsBelow(tips, c, c.parents[0]);
        IntroducedOrHidden(c.parents[0], tips, hidden, h);
      }
    }
  }

  // A wanted hash the walk misses is, if reachable at all, reachable from a hidden tip;
  // and everything the walk finds is really there.
  lemma {:induction false} WalkMissesOnlyHidden(index: seq<Entry>, want: set<FileHash>, tips: set<Commit>,
          hidden: set<Commit>, h: FileHash)
    requires h in want
    ensures (IndexHolds(index, h) || Reachable(tips, h)) && h !in Live(index, want, tips, hidden) ==>
        Reachable(hidden, h)
    ensures h in Live(index, want, tips, hidden) ==> IndexHolds(index, h) || Reachable(tips, h)
  {
    if Reachable(tips, h) {
      var c :| Below(tips, c) && Holds(c.tree, h);
      IntroducedOrHidden(c, tips, hidden, h);
    }
    if IntroducedBetween(tips, hidden, h) {
      IntroducedIsReachable(tips, hidden, h);
    }
  }

  lemma {:induction false} IntroducedIsReachable(tips: set<Commit>, hidden: set<Commit>, h: FileHash)
    requires IntroducedBetween(tips, hidden, h)
    ensures Reachable(tips, h)
  {
    var c :| Below(tips, c) && !Below(hidden, c) && Introduces(c, h);
    var p :| ChangesPath(c, p) && Names(c.tree[p], h);
    assert p in c.tree && Holds(c.tree, h);
  }

  // With nothing hidden the walk is exact: it reads only what each commit changed, yet finds
  // every wanted pointer of every reachable tree.
  lemma {:induction false} WalkExactWithoutHiding(index: seq<Entry>, want: set<FileHash>, tips: set<Commit>)
    ensures Live(index, want, tips, {}) == set h | h in want && (IndexHolds(index, h) || Reachable(tips, h))
  {
    forall h | h in want
      ensures h in Live(index, want, tips, {}) <==> IndexHolds(index, h) || Reachable(tips, h)
    {
      WalkMissesOnlyHidden(index, want, tips, {}, h);
    }
  }

  // ---- The loops ----

  lemma {:induction false} FullSubsetIsAll<T>(part: set<T>, whole: set<T>)
    requires part <= whole && |part| == |whole|
    ensures part == whole
  {
    if x :| x in whole - part {
      SubsetSize(part, whole - {x});
    } else {
      assert whole - part == {};
    }
  }

  lemma {:induction false} SubsetSize<T>(part: set<T>, whole: set<T>)
    requires part <= whole
    ensures |part| <= |whole|
    decreases part
  {
    if part != {} {
      var x :| x in part;
      SubsetSize(part - {x}, whole - {x});
    }
  }

  // `live` holds exactly the wanted pointers of the blobs in `seen`.
  ghost predicate Collected(seen: set<Blob>, live: set<FileHash>, want: set<FileHash>) {
    && live <= want
    && (forall b :: b in seen && PointerIn(b).Some? && PointerIn(b).value.hash in want ==>
        PointerIn(b).value.hash in live)
  }

  method ConsiderBlob(blob: Blob, want: set<FileHash>, seen: set<Blob>, live: set<FileHash>)
    returns (seen': set<Blob>, live': set<FileHash>)
    requires Collected(seen, live, want)
    ensures Collected(seen', live', want)
    ensures seen' == seen + {blob} && live <= live'
    ensures forall h :: h in live' && h !in live ==> PointerIn(blob).Some? && h == PointerIn(blob).value.hash
  {
    seen', live' := seen, live;
    if blob in seen {
      return;
    }
    seen' := seen + {blob};
    if |blob.content| == 0 || |blob.content| > POINTER_MAX_BYTES {
      return;
    }
    if blob.pointer.Some? && blob.pointer.value.hash in want {
      live' := live + {blob.pointer.value.hash};
    }
  }

  // One commit's diff against its first parent. Visits the changed paths in any order and
  // stops early once everything wanted was found.
  method CollectChangedPointers(c: Commit, want: set<FileHash>, seen: set<Blob>, live: set<FileHash>)
    returns (seen': set<Blob>, live': set<FileHash>)
    requires Collected(seen, live, want)
    ensures Collected(seen', live', want) && live <= live'
    ensures forall h :: h in want && Introduces(c, h) ==> h in live'
    ensures forall h :: h in live' && h !in live ==> Introduces(c, h)
  {
    seen', live' := seen, live;
    var changed := Changed(FirstParentTree(c), c.tree);
    var todo := changed;
    while todo != {}
      invariant todo <= changed && live <= live'
      invariant Collected(seen', live', want)
      invariant forall p :: p in changed - todo && IsBlobMode(c.tree[p].mode) ==> c.tree[p].blob in seen'
      invariant forall h :: h in live' && h !in live ==> Introduces(c, h)
      decreases |todo|
    {
      var p :| p in todo;
      todo := todo - {p};
      if IsBlobMode(c.tree[p].mode) {
        seen', live' := ConsiderBlob(c.tree[p].blob, want, seen', live');
        if |live'| == |want| {
          FullSubsetIsAll(live', want);
          return;
        }
      }
    }
  }

  // The entry is in the index or in some tree of the history.
  ghost predicate StandsIn(index: seq<Entry>, tips: set<Commit>, e: Entry) {
    e in index || exists c, p :: Below(tips, c) && p in c.tree && c.tree[p] == e
  }

  lemma {:induction false} StandingIsHeld(index: seq<Entry>, tips: set<Commit>, e: Entry, h: FileHash)
    requires StandsIn(index, tips, e) && Names(e, h)
    ensures IndexHolds(index, h) || Reachable(tips, h)
  {
    if e in index {
      var i :| 0 <= i < |index| && index[i] == e;
    } else {
      var c, p :| Below(tips, c) && p in c.tree && c.tree[p] == e;
      assert Holds(c.tree, h);
    }
  }

  lemma {:induction false} HeldStands(index: seq<Entry>, tips: set<Commit>, h: FileHash) returns (e: Entry)
    requires IndexHolds(index, h) || Reachable(tips, h)
    ensures StandsIn(index, tips, e) && Names(e, h)
  {
    if IndexHolds(index, h) {
      var i :| 0 <= i < |index| && Names(index[i], h);
      e := index[i];
    } else {
      var c :| Below(tips, c) && Holds(c.tree, h);
      var p :| p in c.tree && Names(c.tree[p], h);
      e := c.tree[p];
    }
  }

  // `live` said of entries alone: a regular file or an executable of 1 to 4096 bytes that holds a
  // wanted pointer makes it live if it is in the index or, with nothing hidden, in any tree of the
  // history. A symlink, a submodule, an empty or an oversized file makes nothing live.
  ghost predicate IsMentioned(index: seq<Entry>, want: set<FileHash>, tips: set<Commit>, hidden: set<Commit>,
          live: set<FileHash>) {
    && (forall mode, content: string, pointer: Pointer ::
          (mode == File || mode == Executable) && 1 <= |content| <= 4096 && pointer.hash in want &&
          StandsIn(index, if hidden == {} then tips else {}, Entry(mode, Blob(content, Some(pointer)))) ==>
            pointer.hash in live)
    && (forall h :: h in live ==>
          h in want && exists mode, content: string, pointer: Pointer ::
            (mode == File || mode == Executable) && 1 <= |content| <= 4096 && pointer.hash == h &&
            StandsIn(index, tips, Entry(mode, Blob(content, Some(pointer)))))
  }

  lemma {:induction false} LiveIsMentioned(index: seq<Entry>, want: set<FileHash>, tips: set<Commit>,
          hidden: set<Commit>)
    ensures IsMentioned(index, want, tips, hidden, Live(index, want, tips, hidden))
  {
    forall mode, content: string, pointer: Pointer |
        (mode == File || mode == Executable) && 1 <= |content| <= 4096 && pointer.hash in want &&
        StandsIn(index, if hidden == {} then tips else {}, Entry(mode, Blob(content, Some(pointer))))
      ensures pointer.hash in Live(index, want, tips, hidden)
    {
      var e, h := Entry(mode, Blob(content, Some(pointer))), pointer.hash;
      StandingIsHeld(index, if hidden == {} then tips else {}, e, h);
      WalkMissesOnlyHidden(index, want, tips, hidden, h);
    }
    forall h | h in Live(index, want, tips, hidden)
      ensures exists mode, content: string, pointer: Pointer ::
          (mode == File || mode == Executable) && 1 <= |content| <= 4096 && pointer.hash == h &&
          StandsIn(index, tips, Entry(mode, Blob(content, Some(pointer))))
    {
      WalkMissesOnlyHidden(index, want, tips, hidden, h);
      var e := HeldStands(index, tips, h);
      assert e == Entry(e.mode, Blob(e.blob.content, Some(e.blob.pointer.value)));
    }
  }

  method ConsiderIndex(index: seq<Entry>, want: set<FileHash>) returns (seen: set<Blob>, live: set<FileHash>)
    ensures Collected(seen, live, want)
    ensures forall h :: h in live <==> h in want && IndexHolds(index, h)
  {
    live := {};
    seen := {};
    for i := 0 to |index|
      invariant Collected(seen, live, want)
      invariant forall j :: 0 <= j < i && IsBlobMode(index[j].mode) ==> index[j].blob in seen
      invariant forall h :: h in live ==> IndexHolds(index, h)
    {
      if !IsBlobMode(index[i].mode) {
        continue;
      }
      seen, live := ConsiderBlob(index[i].blob, want, seen, live);
      if |live| == |want| {
        FullSubsetIsAll(live, want);
        return;
      }
    }
  }

  method ConsiderHistory(tips: set<Commit>, hidden: set<Commit>, want: set<FileHash>, found: set<Blob>,
          indexed: set<FileHash>) returns (live: set<FileHash>)
    requires Collected(found, indexed, want)
    ensures forall h :: h in live <==> h in indexed || (h in want && IntroducedBetween(tips, hidden, h))
  {
    var seen;
    seen, live := found, indexed;
    var walk := Walked(tips, hidden);
    WalkedIsBetween(tips, hidden);
    var todo := walk;
    while todo != {}
      invariant todo <= walk && Collected(seen, live, want) && indexed <= live
      invariant forall h :: h in live ==> h in indexed || IntroducedBetween(tips, hidden, h)
      invariant forall c, h :: c in walk - todo && h in want && Introduces(c, h) ==> h in live
      decreases |todo|
    {
      var c :| c in todo;
      todo := todo - {c};
      seen, live := CollectChangedPointers(c, want, seen, live);
      if |live| == |want| {
        FullSubsetIsAll(live, want);
        return;
      }
    }
  }

  // The whole reachability pass: index, then the walk, with the `seen` set and every early
  // exit. For every visiting order the result is the same set.
  method ReachableHashes(index: seq<Entry>, want: set<FileHash>, tips: set<Commit>, hidden: set<Commit>)
    returns (live: set<FileHash>)
    ensures live == Live(index, want, tips, hidden)
    ensures IsMentioned(index, want, tips, hidden, live)
  {
    LiveIsMentioned(index, want, tips, hidden);
    var seen;
    seen, live := ConsiderIndex(index, want);
    if |live| == |want| {
      FullSubsetIsAll(live, want);
      return;
    }
    if tips == {} {
      return;
    }
    live := ConsiderHistory(tips, hidden, want, seen, live);
  }

  // ---- push-pending's walk: every sized pointer, no `want`, no `seen` ----

  // A pointer to `h` that carries the size.
  predicate NamesSized(e: Entry, h: FileHash, size: nat) {
    && (e.mode == File || e.mode == Executable) && 1 <= |e.blob.content| <= 4096
    && e.blob.pointer == Some(Pointer(h, Some(size)))
  }

  // Some commit of the walk introduces it.
  ghost predicate Sent(tips: set<Commit>, hidden: set<Commit>, h: FileHash, size: nat) {
    exists c, p :: Below(tips, c) && !Below(hidden, c) && ChangesPath(c, p) && NamesSized(c.tree[p], h, size)
  }

  predicate IsSized(e: Entry) {
    IsBlobMode(e.mode) && PointerIn(e.blob).Some? && PointerIn(e.blob).value.fileSize.Some?
  }

  function SizedPointers(tips: set<Commit>, hidden: set<Commit>): set<FileHash> {
    set c, p | c in Walked(tips, hidden) && p in Changed(FirstParentTree(c), c.tree) && IsSized(c.tree[p]) ::
      PointerIn(c.tree[p].blob).value.hash
  }

  lemma {:induction false} SizedPointersAreSent(tips: set<Commit>, hidden: set<Commit>, h: FileHash)
    ensures h in SizedPointers(tips, hidden) <==> exists size :: Sent(tips, hidden, h, size)
  {
    WalkedIsBetween(tips, hidden);
    if h in SizedPointers(tips, hidden) {
      var c, p :| c in Walked(tips, hidden) && p in Changed(FirstParentTree(c), c.tree) && IsSized(c.tree[p]) &&
        PointerIn(c.tree[p].blob).value.hash == h;
      assert NamesSized(c.tree[p], h, PointerIn(c.tree[p].blob).value.fileSize.value);
      assert Sent(tips, hidden, h, PointerIn(c.tree[p].blob).value.fileSize.value);
    }
    if size :| Sent(tips, hidden, h, size) {
      var c, p :| Below(tips, c) && !Below(hidden, c) && ChangesPath(c, p) && NamesSized(c.tree[p], h, size);
      assert c in Walked(tips, hidden) && IsSized(c.tree[p]) && PointerIn(c.tree[p].blob).value.hash == h;
    }
  }

  // All pointers carry their size: clean always writes it, and the drain ignores those without.
  ghost predicate AllSized(tips: set<Commit>) {
    forall c, p, h :: Below(tips, c) && p in c.tree && Names(c.tree[p], h) ==>
      c.tree[p].blob.pointer.value.fileSize.Some?
  }

  // Every pointer with a size that a commit of the walk introduces, and nothing else.
  method CollectDelta(tips: set<Commit>, hidden: set<Commit>) returns (out: map<FileHash, nat>)
    ensures out.Keys == SizedPointers(tips, hidden)
    ensures forall h, size :: Sent(tips, hidden, h, size) ==> h in out
    ensures forall h :: h in out ==> Sent(tips, hidden, h, out[h])
  {
    out := map[];
    var walk := Walked(tips, hidden);
    WalkedIsBetween(tips, hidden);
    var todo := walk;
    while todo != {}
      invariant todo <= walk
      invariant forall h :: h in out ==> Sent(tips, hidden, h, out[h])
      invariant forall c, p, h, size :: c in walk - todo && ChangesPath(c, p) && NamesSized(c.tree[p], h, size) ==>
        h in out
      decreases |todo|
    {
      var c :| c in todo;
      todo := todo - {c};
      out := CollectSized(tips, hidden, c, out);
    }
    forall h ensures h in out.Keys <==> h in SizedPointers(tips, hidden) {
      SizedPointersAreSent(tips, hidden, h);
    }
  }

  // The changed paths of one commit.
  method CollectSized(ghost tips: set<Commit>, ghost hidden: set<Commit>, c: Commit, found: map<FileHash, nat>)
    returns (out: map<FileHash, nat>)
    requires Below(tips, c) && !Below(hidden, c)
    requires forall h :: h in found ==> Sent(tips, hidden, h, found[h])
    ensures forall h :: h in out ==> Sent(tips, hidden, h, out[h])
    ensures found.Keys <= out.Keys
    ensures forall p, h, size :: ChangesPath(c, p) && NamesSized(c.tree[p], h, size) ==> h in out
  {
    out := found;
    var changed := Changed(FirstParentTree(c), c.tree);
    var paths := changed;
    while paths != {}
      invariant paths <= changed && found.Keys <= out.Keys
      invariant forall h :: h in out ==> Sent(tips, hidden, h, out[h])
      invariant forall p :: p in changed - paths && IsSized(c.tree[p]) ==> PointerIn(c.tree[p].blob).value.hash in out
      decreases |paths|
    {
      var p :| p in paths;
      paths := paths - {p};
      if IsSized(c.tree[p]) {
        var Pointer(h, size) := PointerIn(c.tree[p].blob).value;
        assert ChangesPath(c, p) && NamesSized(c.tree[p], h, size.value);
        out := out[h := size.value];
      }
    }
    forall p, h, size | ChangesPath(c, p) && NamesSized(c.tree[p], h, size) ensures h in out {
      assert p in changed && IsSized(c.tree[p]);
    }
  }

  // What the remote has for the ref being pushed: nothing, a commit, or one not present locally.
  datatype Reported = NewRef | Known(commit: Commit) | Unknown

  // A commit that is not present fails the walk, and then nothing is hidden.
  function HiddenTips(reported: seq<Reported>): set<Commit> {
    if Unknown in reported then {} else set i | 0 <= i < |reported| && reported[i].Known? :: reported[i].commit
  }

  // Nothing is missing that the remote has not reported, whatever it has reported.
  method ReachablePointers(tips: set<Commit>, reported: seq<Reported>) returns (out: map<FileHash, nat>)
    ensures out.Keys == SizedPointers(tips, HiddenTips(reported))
    ensures forall h, size :: Sent(tips, HiddenTips(reported), h, size) ==> h in out
    ensures forall h :: h in out ==> Sent(tips, HiddenTips(reported), h, out[h])
    ensures AllSized(tips) ==> forall h :: Reachable(tips, h) ==>
        h in out || exists c :: Known(c) in reported && Reachable({c}, h)
    ensures AllSized(tips) && Unknown in reported ==> forall h :: Reachable(tips, h) ==> h in out
  {
    ReportedCoverHistory(tips, reported);
    if tips == {} {
      assert SizedPointers(tips, HiddenTips(reported)) == {};
      forall h, size ensures !Sent(tips, HiddenTips(reported), h, size) {
      }
      return map[];
    }
    out := CollectDelta(tips, HiddenTips(reported));
  }

  lemma {:induction false} ReportedCoverHistory(tips: set<Commit>, reported: seq<Reported>)
    ensures AllSized(tips) ==> forall h :: Reachable(tips, h) ==>
        || h in SizedPointers(tips, HiddenTips(reported))
        || (Unknown !in reported && exists c :: Known(c) in reported && Reachable({c}, h))
  {
    if AllSized(tips) {
      forall h | Reachable(tips, h) && h !in SizedPointers(tips, HiddenTips(reported))
        ensures Unknown !in reported && exists c :: Known(c) in reported && Reachable({c}, h)
      {
        SizedPointersCoverHistory(tips, HiddenTips(reported), h);
        var d :| Below(HiddenTips(reported), d) && Holds(d.tree, h);
        var line :| IsLine(line) && line[0] in HiddenTips(reported) && line[|line| - 1] == d;
        assert Below({line[0]}, d) && Known(line[0]) in reported;
      }
    }
  }

  // Every hash a pushed history mentions is either found by the walk or below a reported remote tip.
  lemma {:induction false} SizedPointersCoverHistory(tips: set<Commit>, hidden: set<Commit>, h: FileHash)
    requires AllSized(tips) && Reachable(tips, h)
    ensures h in SizedPointers(tips, hidden) || Reachable(hidden, h)
  {
    var c :| Below(tips, c) && Holds(c.tree, h);
    IntroducedOrHidden(c, tips, hidden, h);
    if !Reachable(hidden, h) {
      var d :| Below(tips, d) && !Below(hidden, d) && Introduces(d, h);
      var p :| ChangesPath(d, p) && Names(d.tree[p], h);
      assert NamesSized(d.tree[p], h, d.tree[p].blob.pointer.value.fileSize.value);
      SizedPointersAreSent(tips, hidden, h);
      assert Sent(tips, hidden, h, d.tree[p].blob.pointer.value.fileSize.value);
    }
  }
}
