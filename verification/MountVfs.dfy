// The lazily populated, read-only mount of one revision.
module MountVfs {
  import opened Wrappers

  type Inode = nat
  type Oid = nat

  const ROOT_INODE: Inode := 1

  // ---- Git trees ----

  datatype GitNode = Tree(entries: seq<TreeEntry>) | Blob(oid: Oid) | Other

  datatype TreeEntry = TreeEntry(name: string, node: GitNode)

  function Find(entries: seq<TreeEntry>, name: string): Option<GitNode> {
    if entries == [] then None
    else if entries[|entries| - 1].name == name then Some(entries[|entries| - 1].node)
    else Find(entries[..|entries| - 1], name)
  }

  type Path = seq<string>

  // What stands at a path below the root.
  function At(root: GitNode, path: Path): Option<GitNode> {
    if path == [] then Some(root)
    else
      match At(root, path[..|path| - 1])
      case Some(Tree(entries)) => Find(entries, path[|path| - 1])
      case _ => None
  }

  // Names in a git tree are unique, not empty, and free of slashes.
  predicate NameOk(name: string) {
    name != [] && '/' !in name
  }

  predicate EntriesOk(entries: seq<TreeEntry>) {
    && (forall i :: 0 <= i < |entries| ==> NameOk(entries[i].name))
    && (forall i, j :: 0 <= i < j < |entries| ==> entries[i].name != entries[j].name)
  }

  ghost predicate TreeOk(root: GitNode) {
    root.Tree? && forall path :: At(root, path).Some? && At(root, path).value.Tree? ==>
        EntriesOk(At(root, path).value.entries)
  }

  function JoinName(prefix: string, name: string): string {
    if prefix == [] then name else prefix + "/" + name
  }

  function FullPath(path: Path): string {
    if path == [] then [] else JoinName(FullPath(path[..|path| - 1]), path[|path| - 1])
  }

  // ---- Pathspecs ----

  function Trimmed(filter: string): string {
    if filter != [] && filter[|filter| - 1] == '/' then Trimmed(filter[..|filter| - 1]) else filter
  }

  // `dir` followed by a slash starts `path`.
  predicate Under(path: string, dir: string) {
    dir + "/" <= path
  }

  predicate MatchesFile(path: string, filters: seq<string>) {
    filters == [] || exists i :: 0 <= i < |filters| && (path == Trimmed(filters[i]) || Under(path, Trimmed(filters[i])))
  }

  predicate IntersectsDir(path: string, filters: seq<string>) {
    filters == []
    || exists i :: (0 <= i < |filters|
                    && (path == Trimmed(filters[i]) || Under(path, Trimmed(filters[i])) ||
                        Under(Trimmed(filters[i]), path)))
  }

  // The filter is `dir`, with any number of slashes behind it and none at its end.
  ghost predicate Spells(filter: string, dir: string) {
    && dir <= filter && (forall k :: |dir| <= k < |filter| ==> filter[k] == '/')
    && (dir == [] || dir[|dir| - 1] != '/')
  }

  lemma {:induction false} NoOtherSpelling(filter: string)
    requires filter == [] || filter[|filter| - 1] != '/'
    ensures forall dir :: Spells(filter, dir) ==> dir == filter
  {
    if filter != [] {
      var last := filter[|filter| - 1];
      assert forall dir :: Spells(filter, dir) && |dir| < |filter| ==> last == '/';
    }
  }

  lemma {:induction false} TrimmedIsSpelled(filter: string)
    ensures Spells(filter, Trimmed(filter))
    ensures forall dir :: Spells(filter, dir) ==> dir == Trimmed(filter)
    decreases |filter|
  {
    if filter != [] && filter[|filter| - 1] == '/' {
      var shorter := filter[..|filter| - 1];
      TrimmedIsSpelled(shorter);
      assert Spells(filter, Trimmed(filter)) by {
        forall k | |Trimmed(filter)| <= k < |filter| ensures filter[k] == '/' {
          assert k < |shorter| ==> shorter[k] == filter[k];
        }
      }
      forall dir | Spells(filter, dir) ensures Spells(shorter, dir) {
        assert dir != filter;
        assert dir <= shorter;
      }
    } else {
      assert Spells(filter, filter);
      NoOtherSpelling(filter);
    }
  }

  // An empty pathspec selects every file; otherwise one that is named, or lies in a directory that is
  // named, with slashes at the end or without.
  ghost predicate Selects(filters: seq<string>, path: string) {
    filters == [] ||
    exists filter, dir :: filter in filters && Spells(filter, dir) && (path == dir || dir + "/" <= path)
  }

  lemma {:induction false} PathspecSelects(filters: seq<string>, path: string)
    ensures MatchesFile(path, filters) <==> Selects(filters, path)
  {
    forall filter | filter in filters
      ensures Spells(filter, Trimmed(filter)) && forall dir :: Spells(filter, dir) ==> dir == Trimmed(filter)
    {
      TrimmedIsSpelled(filter);
    }
    if filters != [] && MatchesFile(path, filters) {
      var i :| 0 <= i < |filters| && (path == Trimmed(filters[i]) || Under(path, Trimmed(filters[i])));
      assert filters[i] in filters && Spells(filters[i], Trimmed(filters[i]));
    }
    if filters != [] && Selects(filters, path) {
      var filter, dir :| filter in filters && Spells(filter, dir) && (path == dir || dir + "/" <= path);
      var i :| 0 <= i < |filters| && filters[i] == filter;
    }
  }

  lemma {:induction false} PathspecIntersects(filters: seq<string>, path: string)
    ensures IntersectsDir(path, filters) <==>
            filters == [] ||
            exists filter, dir ::
              filter in filters && Spells(filter, dir) && (path == dir || dir + "/" <= path || path + "/" <= dir)
  {
    forall filter | filter in filters
      ensures Spells(filter, Trimmed(filter)) && forall dir :: Spells(filter, dir) ==> dir == Trimmed(filter)
    {
      TrimmedIsSpelled(filter);
    }
    if filters != [] && IntersectsDir(path, filters) {
      var i :| 0 <= i < |filters| &&
        (path == Trimmed(filters[i]) || Under(path, Trimmed(filters[i])) || Under(Trimmed(filters[i]), path));
      assert filters[i] in filters && Spells(filters[i], Trimmed(filters[i]));
    }
    if filter, dir :|
      filter in filters && Spells(filter, dir) && (path == dir || dir + "/" <= path || path + "/" <= dir)
    {
      var i :| 0 <= i < |filters| && filters[i] == filter;
    }
  }

  // The files a pathspec matches are below directories it intersects.
  lemma {:induction false} MatchedBelowIntersected(dir: string, path: string, filters: seq<string>)
    requires Under(path, dir) && MatchesFile(path, filters)
    ensures IntersectsDir(dir, filters)
  {
    if filters != [] {
      var i :| 0 <= i < |filters| && (path == Trimmed(filters[i]) || Under(path, Trimmed(filters[i])));
      var f := Trimmed(filters[i]);
      if path != f {
        PrefixesCompare(dir, f, path);
      }
      assert dir == f || Under(dir, f) || Under(f, dir);
    }
  }

  lemma {:induction false} PrefixesCompare(a: string, b: string, path: string)
    requires Under(path, a) && Under(path, b)
    ensures a == b || Under(a, b) || Under(b, a)
  {
    assert a == path[..|a|] && b == path[..|b|];
    assert path[|a|] == '/' && path[|b|] == '/';
    if |a| < |b| {
      assert b[..|a| + 1] == a + "/";
    } else if |b| < |a| {
      assert a[..|b| + 1] == b + "/";
    }
  }

  lemma {:induction false} IntersectedBelowIntersected(dir: string, path: string, filters: seq<string>)
    requires Under(path, dir) && IntersectsDir(path, filters)
    ensures IntersectsDir(dir, filters)
  {
    if filters != [] {
      var i :| 0 <= i < |filters| &&
        (path == Trimmed(filters[i]) || Under(path, Trimmed(filters[i])) || Under(Trimmed(filters[i]), path));
      var f := Trimmed(filters[i]);
      if Under(f, path) {
        assert dir + "/" <= path <= f;
      } else if path != f {
        PrefixesCompare(dir, f, path);
      }
      assert dir == f || Under(dir, f) || Under(f, dir);
    }
  }

  // ---- What the mount shows ----

  predicate Passes(node: GitNode, fullPath: string, filters: seq<string>) {
    match node
    case Tree(_) => IntersectsDir(fullPath, filters)
    case Blob(_) => MatchesFile(fullPath, filters)
    case Other => false
  }

  // Entry by entry from the root down to the node.
  ghost predicate Leads(root: GitNode, path: Path, node: GitNode, line: seq<GitNode>) {
    && |line| == |path| + 1 && line[0] == root && line[|path|] == node
    && forall k :: 0 <= k < |path| ==> line[k].Tree? && TreeEntry(path[k], line[k + 1]) in line[k].entries
  }

  ghost predicate StandsAt(root: GitNode, path: Path, node: GitNode) {
    exists line :: Leads(root, path, node, line)
  }

  lemma {:induction false} AtStands(root: GitNode, path: Path) returns (line: seq<GitNode>)
    requires At(root, path).Some?
    ensures Leads(root, path, At(root, path).value, line)
  {
    if path == [] {
      line := [root];
    } else {
      var n := |path| - 1;
      var above := AtStands(root, path[..n]);
      line := above + [At(root, path).value];
      FindIsEntry(At(root, path[..n]).value.entries, path[n]);
      forall k | 0 <= k < |path| ensures line[k].Tree? && TreeEntry(path[k], line[k + 1]) in line[k].entries {
        if k < n {
          assert path[..n][k] == path[k];
          assert above[k].Tree? && TreeEntry(path[..n][k], above[k + 1]) in above[k].entries;
        }
      }
    }
  }

  lemma {:induction false} StandingIsAt(root: GitNode, path: Path, line: seq<GitNode>)
    requires TreeOk(root) && |line| == |path| + 1 && Leads(root, path, line[|path|], line)
    ensures At(root, path) == Some(line[|path|])
  {
    if path != [] {
      var n := |path| - 1;
      assert Leads(root, path[..n], line[n], line[..n + 1]) by {
        forall k | 0 <= k < n ensures TreeEntry(path[..n][k], line[k + 1]) in line[k].entries {
          assert TreeEntry(path[k], line[k + 1]) in line[k].entries;
        }
      }
      StandingIsAt(root, path[..n], line[..n + 1]);
      assert TreeEntry(path[n], line[n + 1]) in line[n].entries;
      var i :| 0 <= i < |line[n].entries| && line[n].entries[i] == TreeEntry(path[n], line[n + 1]);
      EntryIsFound(line[n].entries, i);
    }
  }

  // What stands at a path is what the entries lead to.
  lemma {:induction false} AtIsStanding(root: GitNode, path: Path, node: GitNode)
    requires TreeOk(root)
    ensures At(root, path) == Some(node) <==> StandsAt(root, path, node)
  {
    if At(root, path) == Some(node) {
      var line := AtStands(root, path);
    }
    if StandsAt(root, path, node) {
      var line :| Leads(root, path, node, line);
      StandingIsAt(root, path, line);
    }
  }

  // What the mount shows at a path: every step on the way is an entry that passes the filter.
  function View(root: GitNode, filters: seq<string>, path: Path): Option<GitNode> {
    if path == [] then Some(root)
    else
      match View(root, filters, path[..|path| - 1])
      case Some(Tree(entries)) =>
        var node := Find(entries, path[|path| - 1]);
        if node.Some? && Passes(node.value, FullPath(path), filters) then node else None
      case _ => None
  }

  lemma {:induction false} FindIsEntry(entries: seq<TreeEntry>, name: string)
    ensures Find(entries, name).Some? <==> exists i :: 0 <= i < |entries| && entries[i].name == name
    ensures Find(entries, name).Some? ==>
        exists i :: 0 <= i < |entries| && entries[i] == TreeEntry(name, Find(entries, name).value)
  {
    if entries != [] {
      var first, n := entries[..|entries| - 1], |entries| - 1;
      FindIsEntry(first, name);
      if entries[n].name != name {
        if i :| 0 <= i < |entries| && entries[i].name == name {
          assert first[i].name == name;
        }
        if Find(first, name).Some? {
          var i :| 0 <= i < |first| && first[i] == TreeEntry(name, Find(first, name).value);
          assert entries[i] == first[i];
        }
      } else {
        assert entries[n] == TreeEntry(name, Find(entries, name).value);
      }
    }
  }

  lemma {:induction false} EntryIsFound(entries: seq<TreeEntry>, i: nat)
    requires EntriesOk(entries) && i < |entries|
    ensures Find(entries, entries[i].name) == Some(entries[i].node)
  {
    FindIsEntry(entries, entries[i].name);
    var j :| 0 <= j < |entries| && entries[j] == TreeEntry(entries[i].name, Find(entries, entries[i].name).value);
    assert i == j;
  }

  lemma {:induction false} FullPathNotEmpty(root: GitNode, path: Path)
    requires TreeOk(root) && path != [] && At(root, path).Some?
    ensures FullPath(path) != []
  {
    var dir := path[..|path| - 1];
    FindIsEntry(At(root, dir).value.entries, path[|path| - 1]);
  }

  // A file below a directory has a path below the directory's.
  lemma {:induction false} StepIsUnder(root: GitNode, path: Path)
    requires TreeOk(root) && |path| > 1 && At(root, path).Some?
    ensures Under(FullPath(path), FullPath(path[..|path| - 1]))
  {
    FullPathNotEmpty(root, path[..|path| - 1]);
  }

  lemma {:induction false} IntersectedIsShown(root: GitNode, filters: seq<string>, path: Path)
    requires TreeOk(root) && At(root, path).Some? && At(root, path).value.Tree?
    requires path == [] || IntersectsDir(FullPath(path), filters)
    ensures View(root, filters, path) == At(root, path)
  {
    if path != [] {
      var dir := path[..|path| - 1];
      if dir != [] {
        StepIsUnder(root, path);
        IntersectedBelowIntersected(FullPath(dir), FullPath(path), filters);
      }
      IntersectedIsShown(root, filters, dir);
    }
  }

  lemma {:induction false} ShownIsThere(root: GitNode, filters: seq<string>, path: Path)
    requires View(root, filters, path).Some?
    ensures At(root, path) == View(root, filters, path)
    ensures path != [] ==> Passes(At(root, path).value, FullPath(path), filters)
  {
    if path != [] {
      ShownIsThere(root, filters, path[..|path| - 1]);
    }
  }

  // The files the mount shows are exactly the blobs whose path matches the pathspec: pruning
  // directories on the way loses none.
  lemma {:induction false} ShownFilesMatch(root: GitNode, filters: seq<string>, path: Path, oid: Oid)
    requires TreeOk(root)
    ensures View(root, filters, path) == Some(Blob(oid)) <==>
            At(root, path) == Some(Blob(oid)) && MatchesFile(FullPath(path), filters)
  {
    if View(root, filters, path).Some? {
      ShownIsThere(root, filters, path);
    }
    if At(root, path) == Some(Blob(oid)) && MatchesFile(FullPath(path), filters) {
      var dir := path[..|path| - 1];
      if dir != [] {
        StepIsUnder(root, path);
        MatchedBelowIntersected(FullPath(dir), FullPath(path), filters);
      }
      IntersectedIsShown(root, filters, dir);
    }
  }

  // And the directories it shows are those that are named, lie in one that is named, or have a named
  // path below them.
  lemma {:induction false} ShownDirsIntersect(root: GitNode, filters: seq<string>, path: Path)
    requires TreeOk(root) && path != [] && At(root, path).Some? && At(root, path).value.Tree?
    ensures View(root, filters, path).Some? <==>
            filters == [] ||
            exists filter, dir ::
              filter in filters && Spells(filter, dir) &&
              (FullPath(path) == dir || dir + "/" <= FullPath(path) || FullPath(path) + "/" <= dir)
  {
    if IntersectsDir(FullPath(path), filters) {
      IntersectedIsShown(root, filters, path);
    }
    if View(root, filters, path).Some? {
      ShownIsThere(root, filters, path);
    }
    PathspecIntersects(filters, FullPath(path));
  }

  // ---- The state ----

  datatype NodeKind = Dir | File(oid: Oid)

  datatype LazyDir = LazyDir(tree: GitNode, prefix: string)

  datatype DirState = DirState(children: map<string, Inode>, pending: Option<LazyDir>)

  datatype Node = Node(inode: Inode, kind: NodeKind)

  // `paths`, its inverse `byPath`, and `parents` are bookkeeping for the proof.
  datatype Contents = Contents(
    nodes: map<Inode, NodeKind>, dirs: map<Inode, DirState>, nextInode: nat,
    paths: map<Inode, Path>, byPath: map<Path, Inode>, parents: map<Inode, Inode>)

  function KindOf(node: GitNode): NodeKind
    requires !node.Other?
  {
    if node.Blob? then File(node.oid) else Dir
  }

  ghost predicate NodeOk(root: GitNode, filters: seq<string>, c: Contents, i: Inode)
    requires i in c.nodes && i in c.paths
  {
    var node := View(root, filters, c.paths[i]);
    && i < c.nextInode && node.Some? && !node.value.Other?
    && c.nodes[i] == KindOf(node.value) && (i in c.dirs <==> node.value.Tree?)
  }

  // Every node but the root is a child of its parent.
  ghost predicate ParentOk(c: Contents, i: Inode)
    requires i in c.paths
  {
    i == ROOT_INODE ||
      (i in c.parents && c.parents[i] in c.dirs && c.parents[i] in c.paths
       && exists name :: name in c.dirs[c.parents[i]].children && c.dirs[c.parents[i]].children[name] == i
                         && c.paths[i] == c.paths[c.parents[i]] + [name])
  }

  // A directory has not been read and knows its tree, or has exactly the children the mount shows.
  ghost predicate DirOk(root: GitNode, filters: seq<string>, c: Contents, d: Inode)
    requires d in c.dirs && d in c.paths
  {
    match c.dirs[d].pending
    case Some(dir) =>
      && c.dirs[d].children == map[]
      && View(root, filters, c.paths[d]) == Some(dir.tree) && dir.prefix == FullPath(c.paths[d])
    case None =>
      && (forall name :: name in c.dirs[d].children <==> View(root, filters, c.paths[d] + [name]).Some?)
      && ChildrenOk(c, d)
  }

  ghost predicate ChildrenOk(c: Contents, d: Inode)
    requires d in c.dirs && d in c.paths
  {
    forall name :: name in c.dirs[d].children ==>
      c.dirs[d].children[name] in c.paths && c.paths[c.dirs[d].children[name]] == c.paths[d] + [name]
  }

  ghost predicate Shape(c: Contents) {
    && ROOT_INODE in c.dirs && c.nodes.Keys == c.paths.Keys && c.dirs.Keys <= c.nodes.Keys
    && c.paths[ROOT_INODE] == []
  }

  ghost predicate NodesOk(root: GitNode, filters: seq<string>, c: Contents)
    requires Shape(c)
  {
    forall i :: i in c.nodes ==> NodeOk(root, filters, c, i) && ParentOk(c, i)
  }

  ghost predicate PathsDistinct(c: Contents) {
    forall i :: i in c.paths ==> c.paths[i] in c.byPath && c.byPath[c.paths[i]] == i
  }

  ghost predicate Sound(root: GitNode, filters: seq<string>, c: Contents) {
    && Shape(c) && NodesOk(root, filters, c) && PathsDistinct(c)
    && forall d :: d in c.dirs ==> DirOk(root, filters, c, d)
  }

  // Nodes stay, with inode, kind and path; new ones get inodes that were never used.
  ghost predicate Extends(before: Contents, after: Contents) {
    && before.nextInode <= after.nextInode
    && (forall i :: i in before.nodes ==> i in after.nodes && after.nodes[i] == before.nodes[i])
    && (forall i :: i in before.paths ==> i in after.paths && after.paths[i] == before.paths[i])
    && (forall i :: i in after.nodes && i !in before.nodes ==> before.nextInode <= i < after.nextInode)
  }

  // ---- Reading a directory ----

  // The entries that pass, of the first `n`.
  function Passing(entries: seq<TreeEntry>, prefix: string, filters: seq<string>, n: nat): seq<TreeEntry>
    requires n <= |entries|
  {
    if n == 0 then []
    else
      var before, e := Passing(entries, prefix, filters, n - 1), entries[n - 1];
      if Passes(e.node, JoinName(prefix, e.name), filters) then before + [e] else before
  }

  lemma {:induction false} PassingArePassing(entries: seq<TreeEntry>, prefix: string, filters: seq<string>, n: nat,
          k: nat)
    requires n <= |entries| && k < |Passing(entries, prefix, filters, n)|
    ensures exists i :: 0 <= i < n && entries[i] == Passing(entries, prefix, filters, n)[k]
    ensures var e := Passing(entries, prefix, filters, n)[k]; Passes(e.node, JoinName(prefix, e.name), filters)
  {
    var before := Passing(entries, prefix, filters, n - 1);
    if k < |before| {
      PassingArePassing(entries, prefix, filters, n - 1, k);
    } else {
      assert Passing(entries, prefix, filters, n)[k] == entries[n - 1];
    }
  }

  lemma {:induction false} AllPassing(entries: seq<TreeEntry>, prefix: string, filters: seq<string>, n: nat, i: nat)
    requires i < n <= |entries| && Passes(entries[i].node, JoinName(prefix, entries[i].name), filters)
    ensures entries[i] in Passing(entries, prefix, filters, n)
  {
    var before := Passing(entries, prefix, filters, n - 1);
    var last := if Passes(entries[n - 1].node, JoinName(prefix, entries[n - 1].name), filters)
      then [entries[n - 1]] else [];
    if i < n - 1 {
      AllPassing(entries, prefix, filters, n - 1, i);
    }
    assert entries[i] in before + last;
    assert before + [] == before;
  }

  lemma {:induction false} PassingDistinct(entries: seq<TreeEntry>, prefix: string, filters: seq<string>, n: nat,
          j: nat, k: nat)
    requires n <= |entries| && EntriesOk(entries) && j < k < |Passing(entries, prefix, filters, n)|
    ensures Passing(entries, prefix, filters, n)[j].name != Passing(entries, prefix, filters, n)[k].name
  {
    var before := Passing(entries, prefix, filters, n - 1);
    if k < |before| {
      PassingDistinct(entries, prefix, filters, n - 1, j, k);
    } else {
      PassingArePassing(entries, prefix, filters, n - 1, j);
      var i :| 0 <= i < n - 1 && entries[i] == before[j];
      assert Passing(entries, prefix, filters, n) == before + [entries[n - 1]];
    }
  }

  lemma {:induction false} TakeNext<T>(s: seq<T>, k: nat)
    requires k < |s|
    ensures s[..k] + [s[k]] == s[..k + 1]
  {
  }

  lemma {:induction false} TakeNone<T>(s: seq<T>)
    ensures s[..0] == []
  {
  }

  // The next child of `parent`: a new inode, and for a directory a tree still to be read.
  function Inserted(c: Contents, parent: Inode, prefix: string, e: TreeEntry): Contents
    requires parent in c.dirs && parent in c.paths && !e.node.Other?
  {
    var i := c.nextInode;
    var dirs := if e.node.Tree?
        then c.dirs[i := DirState(map[], Some(LazyDir(e.node, JoinName(prefix, e.name))))] else c.dirs;
    Contents(c.nodes[i := KindOf(e.node)],
             dirs[parent := c.dirs[parent].(children := c.dirs[parent].children[e.name := i])],
             i + 1, c.paths[i := c.paths[parent] + [e.name]],
             c.byPath[c.paths[parent] + [e.name] := i], c.parents[i := parent])
  }

  // `parent` is being read: it has the children in `done` so far.
  ghost predicate ParentReading(root: GitNode, filters: seq<string>, c: Contents, parent: Inode, dir: LazyDir,
          done: seq<TreeEntry>) {
    && parent in c.dirs && parent in c.paths && c.dirs[parent].pending == Some(dir)
    && View(root, filters, c.paths[parent]) == Some(dir.tree) && dir.prefix == FullPath(c.paths[parent])
    && (forall name :: name in c.dirs[parent].children <==> Named(done, name))
    && ChildrenOk(c, parent)
  }

  ghost predicate Named(entries: seq<TreeEntry>, name: string) {
    exists k :: 0 <= k < |entries| && entries[k].name == name
  }

  ghost predicate OthersOk(root: GitNode, filters: seq<string>, c: Contents, parent: Inode)
    requires Shape(c)
  {
    forall d :: d in c.dirs && d != parent ==> DirOk(root, filters, c, d)
  }

  // ... and all else is as it should be.
  ghost predicate Reading(root: GitNode, filters: seq<string>, c: Contents, parent: Inode, dir: LazyDir,
          done: seq<TreeEntry>) {
    && Shape(c) && NodesOk(root, filters, c) && PathsDistinct(c)
    && OthersOk(root, filters, c, parent)
    && ParentReading(root, filters, c, parent, dir, done)
  }

  lemma {:induction false} StartReading(root: GitNode, filters: seq<string>, c: Contents, parent: Inode)
    requires Sound(root, filters, c) && parent in c.dirs && c.dirs[parent].pending.Some?
    ensures Reading(root, filters, c, parent, c.dirs[parent].pending.value, [])
  {
    assert DirOk(root, filters, c, parent);
  }

  lemma {:induction false} NewInode(root: GitNode, filters: seq<string>, c: Contents)
    requires Shape(c) && NodesOk(root, filters, c)
    ensures c.nextInode !in c.nodes && c.nextInode !in c.dirs
    ensures forall i :: i in c.nodes ==> i < c.nextInode
  {
    forall i | i in c.nodes ensures i < c.nextInode {
      assert NodeOk(root, filters, c, i);
    }
  }

  lemma {:induction false} LastStep(a: Path, n: string, b: Path, m: string)
    ensures a + [n] == b + [m] ==> a == b && n == m
  {
    if a + [n] == b + [m] {
      assert (a + [n])[..|a|] == a && (b + [m])[..|b|] == b;
      assert (a + [n])[|a|] == n && (b + [m])[|b|] == m;
    }
  }

  // An entry that is still to come has no inode yet.
  lemma {:induction false} NoInodeYet(c: Contents, parent: Inode, name: string, i: Inode)
    requires Shape(c) && PathsDistinct(c) && i in c.paths && ParentOk(c, i)
    requires parent in c.dirs && name !in c.dirs[parent].children
    ensures c.paths[i] != c.paths[parent] + [name]
  {
    if i != ROOT_INODE {
      var p := c.parents[i];
      var n :| n in c.dirs[p].children && c.dirs[p].children[n] == i && c.paths[i] == c.paths[p] + [n];
      LastStep(c.paths[p], n, c.paths[parent], name);
    }
  }

  lemma {:induction false} InsertKeepsNode(root: GitNode, filters: seq<string>, c: Contents, parent: Inode,
          prefix: string, e: TreeEntry, i: Inode)
    requires parent in c.dirs && parent in c.paths && !e.node.Other? && e.name !in c.dirs[parent].children
    requires i in c.nodes && i in c.paths && NodeOk(root, filters, c, i) && ParentOk(c, i)
    requires c.nextInode !in c.nodes && c.nextInode !in c.dirs && c.nextInode !in c.paths
    ensures var c' := Inserted(c, parent, prefix, e);
            i in c'.nodes && i in c'.paths && NodeOk(root, filters, c', i) && ParentOk(c', i)
  {
    var c' := Inserted(c, parent, prefix, e);
    if i != ROOT_INODE {
      var p := c.parents[i];
      var n :| n in c.dirs[p].children && c.dirs[p].children[n] == i && c.paths[i] == c.paths[p] + [n];
      assert c'.dirs[p].children[n] == i && c'.paths[p] == c.paths[p];
    }
  }

  lemma {:induction false} InsertKeepsDir(root: GitNode, filters: seq<string>, c: Contents, parent: Inode,
          prefix: string, e: TreeEntry, d: Inode)
    requires parent in c.dirs && parent in c.paths && !e.node.Other?
    requires d in c.dirs && d in c.paths && d != parent && DirOk(root, filters, c, d)
    requires c.nextInode !in c.dirs && c.nextInode !in c.paths
    ensures var c' := Inserted(c, parent, prefix, e);
            d in c'.dirs && d in c'.paths && DirOk(root, filters, c', d)
  {
    var c' := Inserted(c, parent, prefix, e);
    assert c'.dirs[d] == c.dirs[d] && c'.paths[d] == c.paths[d];
  }

  lemma {:induction false} NewNodeOk(root: GitNode, filters: seq<string>, c: Contents, parent: Inode, dir: LazyDir,
          done: seq<TreeEntry>, e: TreeEntry)
    requires ParentReading(root, filters, c, parent, dir, done) && parent < c.nextInode && c.nextInode != ROOT_INODE
    requires c.nextInode !in c.dirs && !e.node.Other?
    requires View(root, filters, c.paths[parent] + [e.name]) == Some(e.node)
    ensures var c' := Inserted(c, parent, dir.prefix, e); var i := c.nextInode;
            && i in c'.nodes && i in c'.paths && NodeOk(root, filters, c', i) && ParentOk(c', i)
            && (e.node.Tree? ==> DirOk(root, filters, c', i))
  {
    var c', path := Inserted(c, parent, dir.prefix, e), c.paths[parent] + [e.name];
    assert path[..|path| - 1] == c.paths[parent] && path[|path| - 1] == e.name;
    assert c'.dirs[parent].children[e.name] == c.nextInode && c'.paths[parent] == c.paths[parent];
  }

  lemma {:induction false} ParentKeepsReading(root: GitNode, filters: seq<string>, c: Contents, parent: Inode,
          dir: LazyDir, done: seq<TreeEntry>, e: TreeEntry)
    requires ParentReading(root, filters, c, parent, dir, done) && !e.node.Other?
    requires c.nextInode !in c.dirs && c.nextInode !in c.paths
    ensures ParentReading(root, filters, Inserted(c, parent, dir.prefix, e), parent, dir, done + [e])
  {
    var c', more := Inserted(c, parent, dir.prefix, e), done + [e];
    forall name ensures name in c'.dirs[parent].children <==> Named(more, name) {
      if Named(done, name) {
        var k :| 0 <= k < |done| && done[k].name == name;
        assert more[k].name == name;
      }
      assert more[|done|] == e;
      if Named(more, name) {
        var k :| 0 <= k < |more| && more[k].name == name;
        assert k < |done| ==> done[k].name == name;
      }
    }
  }

  lemma {:induction false} InsertKeepsPaths(root: GitNode, filters: seq<string>, c: Contents, parent: Inode,
          prefix: string, e: TreeEntry)
    requires Shape(c) && NodesOk(root, filters, c) && PathsDistinct(c)
    requires parent in c.dirs && !e.node.Other? && e.name !in c.dirs[parent].children
    ensures PathsDistinct(Inserted(c, parent, prefix, e))
  {
    var c', i := Inserted(c, parent, prefix, e), c.nextInode;
    forall j | j in c.paths ensures c.paths[j] != c'.paths[i] {
      assert ParentOk(c, j);
      NoInodeYet(c, parent, e.name, j);
    }
  }

  lemma {:induction false} InsertKeepsNodes(root: GitNode, filters: seq<string>, c: Contents, parent: Inode,
          dir: LazyDir, done: seq<TreeEntry>, e: TreeEntry)
    requires Shape(c) && NodesOk(root, filters, c) && ParentReading(root, filters, c, parent, dir, done)
    requires !e.node.Other? && !Named(done, e.name)
    requires View(root, filters, c.paths[parent] + [e.name]) == Some(e.node)
    ensures Shape(Inserted(c, parent, dir.prefix, e)) && NodesOk(root, filters, Inserted(c, parent, dir.prefix, e))
    ensures e.node.Tree? ==> DirOk(root, filters, Inserted(c, parent, dir.prefix, e), c.nextInode)
  {
    var c', i := Inserted(c, parent, dir.prefix, e), c.nextInode;
    NewInode(root, filters, c);
    NewNodeOk(root, filters, c, parent, dir, done, e);
    forall j | j in c'.nodes ensures NodeOk(root, filters, c', j) && ParentOk(c', j) {
      if j != i {
        InsertKeepsNode(root, filters, c, parent, dir.prefix, e, j);
      }
    }
  }

  lemma {:induction false} InsertKeepsDirs(root: GitNode, filters: seq<string>, c: Contents, parent: Inode,
          prefix: string, e: TreeEntry)
    requires Shape(c) && parent in c.dirs && !e.node.Other? && OthersOk(root, filters, c, parent)
    requires c.nextInode !in c.dirs && c.nextInode !in c.paths
    requires Shape(Inserted(c, parent, prefix, e))
    requires e.node.Tree? ==> DirOk(root, filters, Inserted(c, parent, prefix, e), c.nextInode)
    ensures OthersOk(root, filters, Inserted(c, parent, prefix, e), parent)
  {
    var c' := Inserted(c, parent, prefix, e);
    forall d | d in c'.dirs && d != parent ensures DirOk(root, filters, c', d) {
      if d != c.nextInode {
        InsertKeepsDir(root, filters, c, parent, prefix, e, d);
      }
    }
  }

  lemma {:induction false} InsertExtends(c: Contents, parent: Inode, prefix: string, e: TreeEntry)
    requires parent in c.dirs && parent in c.paths && !e.node.Other?
    requires c.nextInode !in c.nodes && c.nextInode !in c.paths
    ensures Extends(c, Inserted(c, parent, prefix, e))
  {
  }

  lemma {:induction false} InsertKeepsReading(root: GitNode, filters: seq<string>, c: Contents, parent: Inode,
          dir: LazyDir, done: seq<TreeEntry>, e: TreeEntry)
    requires Reading(root, filters, c, parent, dir, done) && !e.node.Other? && !Named(done, e.name)
    requires View(root, filters, c.paths[parent] + [e.name]) == Some(e.node)
    ensures Reading(root, filters, Inserted(c, parent, dir.prefix, e), parent, dir, done + [e])
  {
    NewInode(root, filters, c);
    InsertKeepsNodes(root, filters, c, parent, dir, done, e);
    InsertKeepsDirs(root, filters, c, parent, dir.prefix, e);
    InsertKeepsPaths(root, filters, c, parent, dir.prefix, e);
    ParentKeepsReading(root, filters, c, parent, dir, done, e);
  }

  function Finished(c: Contents, parent: Inode): Contents
    requires parent in c.dirs
  {
    c.(dirs := c.dirs[parent := c.dirs[parent].(pending := None)])
  }

  lemma {:induction false} ChildIsShown(root: GitNode, filters: seq<string>, path: Path, dir: LazyDir, name: string)
    requires View(root, filters, path) == Some(dir.tree) && dir.prefix == FullPath(path)
    requires dir.tree.Tree? && EntriesOk(dir.tree.entries)
    ensures View(root, filters, path + [name]).Some? <==>
            Named(Passing(dir.tree.entries, dir.prefix, filters, |dir.tree.entries|), name)
  {
    var entries, child := dir.tree.entries, path + [name];
    var shown := Passing(entries, dir.prefix, filters, |entries|);
    assert child[..|child| - 1] == path && child[|child| - 1] == name;
    if View(root, filters, child).Some? {
      FindIsEntry(entries, name);
      var i :| 0 <= i < |entries| && entries[i] == TreeEntry(name, Find(entries, name).value);
      AllPassing(entries, dir.prefix, filters, |entries|, i);
      var k :| 0 <= k < |shown| && shown[k] == entries[i];
      assert shown[k].name == name;
    }
    if Named(shown, name) {
      var k :| 0 <= k < |shown| && shown[k].name == name;
      EntryIsShown(root, filters, path, dir, k);
    }
  }

  lemma {:induction false} EntryIsShown(root: GitNode, filters: seq<string>, path: Path, dir: LazyDir, k: nat)
    requires View(root, filters, path) == Some(dir.tree) && dir.prefix == FullPath(path)
    requires dir.tree.Tree? && EntriesOk(dir.tree.entries)
    requires k < |Passing(dir.tree.entries, dir.prefix, filters, |dir.tree.entries|)|
    ensures var e := Passing(dir.tree.entries, dir.prefix, filters, |dir.tree.entries|)[k];
            View(root, filters, path + [e.name]) == Some(e.node) && !e.node.Other?
  {
    var entries := dir.tree.entries;
    var e := Passing(entries, dir.prefix, filters, |entries|)[k];
    PassingArePassing(entries, dir.prefix, filters, |entries|, k);
    var i :| 0 <= i < |entries| && entries[i] == e;
    EntryIsFound(entries, i);
    var child := path + [e.name];
    assert child[..|child| - 1] == path && child[|child| - 1] == e.name;
  }

  lemma {:induction false} ParentFinished(root: GitNode, filters: seq<string>, c: Contents, parent: Inode, dir: LazyDir)
    requires dir.tree.Tree? && EntriesOk(dir.tree.entries)
    requires ParentReading(root, filters, c, parent, dir,
                           Passing(dir.tree.entries, dir.prefix, filters, |dir.tree.entries|))
    ensures DirOk(root, filters, Finished(c, parent), parent)
  {
    forall name ensures name in c.dirs[parent].children <==> View(root, filters, c.paths[parent] + [name]).Some? {
      ChildIsShown(root, filters, c.paths[parent], dir, name);
    }
  }

  lemma {:induction false} FinishKeepsRest(root: GitNode, filters: seq<string>, c: Contents, parent: Inode, i: Inode)
    requires parent in c.dirs && i in c.nodes && i in c.paths
    ensures NodeOk(root, filters, c, i) ==> NodeOk(root, filters, Finished(c, parent), i)
    ensures ParentOk(c, i) ==> ParentOk(Finished(c, parent), i)
    ensures i in c.dirs && i != parent && DirOk(root, filters, c, i) ==> DirOk(root, filters, Finished(c, parent), i)
  {
    var c' := Finished(c, parent);
    if ParentOk(c, i) && i != ROOT_INODE {
      var p := c.parents[i];
      var n :| n in c.dirs[p].children && c.dirs[p].children[n] == i && c.paths[i] == c.paths[p] + [n];
      assert c'.dirs[p].children[n] == i;
    }
  }

  lemma {:induction false} FinishReading(root: GitNode, filters: seq<string>, c: Contents, parent: Inode, dir: LazyDir)
    requires dir.tree.Tree? && EntriesOk(dir.tree.entries)
    requires Reading(root, filters, c, parent, dir, Passing(dir.tree.entries, dir.prefix, filters, |dir.tree.entries|))
    ensures Sound(root, filters, Finished(c, parent)) && Extends(c, Finished(c, parent))
  {
    var c' := Finished(c, parent);
    ParentFinished(root, filters, c, parent, dir);
    NewInode(root, filters, c);
    forall i | i in c'.nodes ensures NodeOk(root, filters, c', i) && ParentOk(c', i) {
      FinishKeepsRest(root, filters, c, parent, i);
    }
    forall d | d in c'.dirs ensures DirOk(root, filters, c', d) {
      if d != parent {
        FinishKeepsRest(root, filters, c, parent, d);
      }
    }
  }

  // A path keeps the inode it was first given.
  lemma {:induction false} PathKeepsInode(before: Contents, after: Contents, i: Inode, j: Inode)
    requires Extends(before, after) && PathsDistinct(after)
    requires i in before.paths && j in after.paths && after.paths[j] == before.paths[i]
    ensures i == j
  {
  }

  lemma {:induction false} ExtendsTransitive(a: Contents, b: Contents, c: Contents)
    requires Extends(a, b) && Extends(b, c)
    ensures Extends(a, c)
  {
  }

  // Nothing is shown below what is not shown as a directory.
  lemma {:induction false} NothingBelow(root: GitNode, filters: seq<string>, path: Path, k: nat)
    requires k < |path|
    requires View(root, filters, path[..k]).None? || !View(root, filters, path[..k]).value.Tree?
    ensures View(root, filters, path).None?
    decreases |path|
  {
    var dir := path[..|path| - 1];
    if k < |dir| {
      assert dir[..k] == path[..k];
      NothingBelow(root, filters, dir, k);
    } else {
      assert dir == path[..k];
    }
  }

  // ---- The mount ----

  // What a lookup of `path` must return.
  ghost predicate Answers(root: GitNode, filters: seq<string>, c: Contents, path: Path, r: Option<Node>) {
    match View(root, filters, path)
    case None => r == None
    case Some(node) =>
      && r.Some? && r.value.inode in c.nodes && r.value.inode in c.paths && c.paths[r.value.inode] == path
      && !node.Other? && r.value.kind == c.nodes[r.value.inode] == KindOf(node)
      && (r.value.inode in c.dirs <==> node.Tree?)
  }

  lemma {:induction false} ChildAnswers(root: GitNode, filters: seq<string>, c: Contents, d: Inode, name: string)
    requires Sound(root, filters, c) && d in c.dirs && c.dirs[d].pending == None
    ensures name in c.dirs[d].children ==>
              && c.dirs[d].children[name] in c.nodes
              && Answers(root, filters, c, c.paths[d] + [name],
                         Some(Node(c.dirs[d].children[name], c.nodes[c.dirs[d].children[name]])))
    ensures name !in c.dirs[d].children ==> Answers(root, filters, c, c.paths[d] + [name], None)
  {
    assert DirOk(root, filters, c, d);
    if name in c.dirs[d].children {
      assert NodeOk(root, filters, c, c.dirs[d].children[name]);
    }
  }

  class DiffVfs {
    const root: GitNode
    const filters: seq<string>
    var nodes: map<Inode, NodeKind>
    var dirs: map<Inode, DirState>
    var nextInode: nat
    ghost var paths: map<Inode, Path>
    ghost var byPath: map<Path, Inode>
    ghost var parents: map<Inode, Inode>

    ghost function State(): Contents
      reads this
    {
      Contents(nodes, dirs, nextInode, paths, byPath, parents)
    }

    ghost predicate Valid()
      reads this
    {
      TreeOk(root) && Sound(root, filters, State())
    }

    // Only the root is there, still to be read.
    constructor BuildSingleLazy(root: GitNode, filters: seq<string>)
      requires TreeOk(root)
      ensures Valid() && this.root == root && this.filters == filters
      ensures nodes == map[ROOT_INODE := Dir] && paths == map[ROOT_INODE := []]
    {
      this.root, this.filters := root, filters;
      nodes := map[ROOT_INODE := Dir];
      dirs := map[ROOT_INODE := DirState(map[], Some(LazyDir(root, [])))];
      nextInode := ROOT_INODE + 1;
      paths, byPath, parents := map[ROOT_INODE := []], map[[] := ROOT_INODE], map[];
    }

    // The entries that pass, before any inode is given out.
    method CollectPending(dir: LazyDir) returns (pending: seq<TreeEntry>)
      requires dir.tree.Tree?
      ensures pending == Passing(dir.tree.entries, dir.prefix, filters, |dir.tree.entries|)
    {
      pending := [];
      for i := 0 to |dir.tree.entries|
        invariant pending == Passing(dir.tree.entries, dir.prefix, filters, i)
      {
        var entry := dir.tree.entries[i];
        var fullPath := if dir.prefix == [] then entry.name else dir.prefix + "/" + entry.name;
        match entry.node {
          case Tree(_) =>
            if !IntersectsDir(fullPath, filters) {
              continue;
            }
            pending := pending + [entry];
          case Blob(_) =>
            if !MatchesFile(fullPath, filters) {
              continue;
            }
            pending := pending + [entry];
          case Other =>
        }
      }
    }

    method InsertChild(parent: Inode, prefix: string, e: TreeEntry)
      requires parent in dirs && parent in paths && !e.node.Other?
      modifies this
      ensures State() == Inserted(old(State()), parent, prefix, e)
    {
      var inode, above := nextInode, dirs[parent];
      nextInode := nextInode + 1;
      nodes := nodes[inode := KindOf(e.node)];
      if e.node.Tree? {
        dirs := dirs[inode := DirState(map[], Some(LazyDir(e.node, JoinName(prefix, e.name))))];
      }
      dirs := dirs[parent := above.(children := above.children[e.name := inode])];
      byPath := byPath[paths[parent] + [e.name] := inode];
      paths, parents := paths[inode := paths[parent] + [e.name]], parents[inode := parent];
    }

    // The entries that pass become children, and the directory has been read.
    method Populate(parent: Inode, dir: LazyDir)
      requires parent in dirs && parent in paths && dir.tree.Tree?
      requires NoOther(Passing(dir.tree.entries, dir.prefix, filters, |dir.tree.entries|))
      modifies this
      ensures var pending := Passing(dir.tree.entries, dir.prefix, filters, |dir.tree.entries|);
              State() == Finished(AllInserted(old(State()), parent, dir.prefix, pending, |pending|), parent)
    {
      var pending := CollectPending(dir);
      for k := 0 to |pending|
        invariant State() == AllInserted(old(State()), parent, dir.prefix, pending, k)
      {
        InsertChild(parent, dir.prefix, pending[k]);
      }
      dirs := dirs[parent := dirs[parent].(pending := None)];
    }

    method PopulateIfLazy(parent: Inode)
      requires Valid()
      modifies this
      ensures Valid() && Extends(old(State()), State())
      ensures parent in dirs <==> parent in old(dirs)
      ensures parent in dirs ==> dirs[parent].pending == None
    {
      if parent !in dirs || dirs[parent].pending == None {
        ExtendsItself(State());
        return;
      }
      Populates(root, filters, State(), parent);
      Populate(parent, dirs[parent].pending.value);
    }

    method LookupChild(parent: Inode, name: string) returns (r: Option<Node>)
      requires Valid()
      modifies this
      ensures Valid() && Extends(old(State()), State())
      ensures parent !in old(dirs) ==> r == None
      ensures parent in old(dirs) ==> parent in paths && Answers(root, filters, State(), paths[parent] + [name], r)
    {
      PopulateIfLazy(parent);
      if parent !in dirs {
        return None;
      }
      ChildAnswers(root, filters, State(), parent, name);
      if name !in dirs[parent].children {
        return None;
      }
      var inode := dirs[parent].children[name];
      return Some(Node(inode, nodes[inode]));
    }

    // A listing, by name.
    method Readdir(parent: Inode) returns (r: Option<map<string, Node>>)
      requires Valid()
      modifies this
      ensures Valid() && Extends(old(State()), State())
      ensures r.Some? <==> parent in old(dirs)
      ensures r.Some? ==>
                && parent in paths
                && forall name :: Answers(root, filters, State(), paths[parent] + [name],
                                          if name in r.value then Some(r.value[name]) else None)
    {
      PopulateIfLazy(parent);
      if parent !in dirs {
        return None;
      }
      var children := dirs[parent].children;
      forall name
        ensures name in children ==> children[name] in nodes
        ensures Answers(root, filters, State(), paths[parent] + [name],
                        if name in children then Some(Node(children[name], nodes[children[name]])) else None)
      {
        ChildAnswers(root, filters, State(), parent, name);
      }
      return Some(map name | name in children :: Node(children[name], nodes[children[name]]));
    }

    method Walk(path: Path) returns (r: Option<Node>)
      requires Valid()
      modifies this
      ensures Valid() && Extends(old(State()), State())
      ensures Answers(root, filters, State(), path, r)
    {
      RootAnswers(root, filters, State());
      ExtendsItself(State());
      r := Some(Node(ROOT_INODE, nodes[ROOT_INODE]));
      for k := 0 to |path|
        invariant Valid() && Extends(old(State()), State())
        invariant r.Some? && Answers(root, filters, State(), path[..k], r)
      {
        if r.value.kind != Dir {
          NothingBelow(root, filters, path, k);
          return None;
        }
        ghost var before := State();
        r := LookupChild(r.value.inode, path[k]);
        ExtendsTransitive(old(State()), before, State());
        TakeNext(path, k);
        if r == None {
          NothingFrom(root, filters, path, k + 1);
          return None;
        }
      }
      assert path[..|path|] == path;
    }

    // The kernel's walk along a path. Whatever was looked up or listed before, it ends at a file
    // exactly if the tree has a blob there and the pathspec matches.
    method Resolve(path: Path) returns (r: Option<Node>)
      requires Valid()
      modifies this
      ensures Valid() && Extends(old(State()), State())
      ensures forall oid :: (r.Some? && r.value.kind == File(oid)) <==>
                (StandsAt(root, path, Blob(oid)) && Selects(filters, FullPath(path)))
    {
      r := Walk(path);
      forall oid ensures (r.Some? && r.value.kind == File(oid)) <==>
                         (StandsAt(root, path, Blob(oid)) && Selects(filters, FullPath(path)))
      {
        AnsweredFile(root, filters, State(), path, r, oid);
      }
    }
  }

  lemma {:induction false} AnsweredFile(root: GitNode, filters: seq<string>, c: Contents, path: Path,
          r: Option<Node>, oid: Oid)
    requires TreeOk(root) && Answers(root, filters, c, path, r)
    ensures (r.Some? && r.value.kind == File(oid)) <==>
            (StandsAt(root, path, Blob(oid)) && Selects(filters, FullPath(path)))
  {
    ShownFilesMatch(root, filters, path, oid);
    AtIsStanding(root, path, Blob(oid));
    PathspecSelects(filters, FullPath(path));
  }

  lemma {:induction false} NothingFrom(root: GitNode, filters: seq<string>, path: Path, k: nat)
    requires k <= |path| && View(root, filters, path[..k]).None?
    ensures View(root, filters, path).None?
  {
    if k < |path| {
      NothingBelow(root, filters, path, k);
    } else {
      assert path[..k] == path;
    }
  }

  lemma {:induction false} ExtendsItself(c: Contents)
    ensures Extends(c, c)
  {
  }

  ghost predicate NoOther(entries: seq<TreeEntry>) {
    forall k :: 0 <= k < |entries| ==> !entries[k].node.Other?
  }

  // The first `k` entries inserted.
  ghost function AllInserted(c: Contents, parent: Inode, prefix: string, entries: seq<TreeEntry>, k: nat): (r: Contents)
    requires parent in c.dirs && parent in c.paths && NoOther(entries) && k <= |entries|
    ensures parent in r.dirs && parent in r.paths
  {
    if k == 0 then c else Inserted(AllInserted(c, parent, prefix, entries, k - 1), parent, prefix, entries[k - 1])
  }

  // Entries that the mount shows below `path`, each once.
  ghost predicate ToInsert(root: GitNode, filters: seq<string>, path: Path, pending: seq<TreeEntry>) {
    && NoOther(pending)
    && (forall k :: 0 <= k < |pending| ==> View(root, filters, path + [pending[k].name]) == Some(pending[k].node))
    && (forall k :: 0 <= k < |pending| ==> !Named(pending[..k], pending[k].name))
  }

  lemma {:induction false} PassingToInsert(root: GitNode, filters: seq<string>, path: Path, dir: LazyDir)
    requires View(root, filters, path) == Some(dir.tree) && dir.prefix == FullPath(path)
    requires dir.tree.Tree? && EntriesOk(dir.tree.entries)
    ensures ToInsert(root, filters, path, Passing(dir.tree.entries, dir.prefix, filters, |dir.tree.entries|))
  {
    var pending := Passing(dir.tree.entries, dir.prefix, filters, |dir.tree.entries|);
    forall k | 0 <= k < |pending|
      ensures View(root, filters, path + [pending[k].name]) == Some(pending[k].node) && !pending[k].node.Other?
      ensures !Named(pending[..k], pending[k].name)
    {
      EntryIsShown(root, filters, path, dir, k);
      NotNamedYet(dir, filters, k);
    }
  }

  // Some inserts on from `start`.
  ghost predicate Inserting(root: GitNode, filters: seq<string>, start: Contents, c: Contents, parent: Inode,
          dir: LazyDir, done: seq<TreeEntry>) {
    Reading(root, filters, c, parent, dir, done) && Extends(start, c)
  }

  lemma {:induction false} InsertingStep(root: GitNode, filters: seq<string>, start: Contents, c: Contents,
          parent: Inode, dir: LazyDir, pending: seq<TreeEntry>, k: nat)
    requires parent in start.dirs && parent in start.paths && k < |pending| && parent in start.nodes
    requires ToInsert(root, filters, start.paths[parent], pending)
    requires Inserting(root, filters, start, c, parent, dir, pending[..k])
    ensures parent in c.dirs && parent in c.paths
    ensures Inserting(root, filters, start, Inserted(c, parent, dir.prefix, pending[k]), parent, dir, pending[..k + 1])
  {
    NewInode(root, filters, c);
    InsertExtends(c, parent, dir.prefix, pending[k]);
    InsertKeepsReading(root, filters, c, parent, dir, pending[..k], pending[k]);
    TakeNext(pending, k);
    ExtendsTransitive(start, c, Inserted(c, parent, dir.prefix, pending[k]));
  }

  lemma {:induction false} InsertingNone(root: GitNode, filters: seq<string>, c: Contents, parent: Inode,
          dir: LazyDir, pending: seq<TreeEntry>)
    requires Reading(root, filters, c, parent, dir, [])
    ensures Inserting(root, filters, c, c, parent, dir, pending[..0])
  {
    TakeNone(pending);
    ExtendsItself(c);
  }

  lemma {:induction false} AllInsertedReading(root: GitNode, filters: seq<string>, c: Contents, parent: Inode,
          dir: LazyDir, pending: seq<TreeEntry>, k: nat) returns (r: Contents)
    requires Reading(root, filters, c, parent, dir, [])
    requires ToInsert(root, filters, c.paths[parent], pending) && k <= |pending|
    ensures Inserting(root, filters, c, r, parent, dir, pending[..k])
    ensures r == AllInserted(c, parent, dir.prefix, pending, k)
  {
    if k == 0 {
      r := c;
      InsertingNone(root, filters, c, parent, dir, pending);
    } else {
      var before := AllInsertedReading(root, filters, c, parent, dir, pending, k - 1);
      InsertingStep(root, filters, c, before, parent, dir, pending, k - 1);
      r := Inserted(before, parent, dir.prefix, pending[k - 1]);
    }
  }

  // Reading a directory leaves everything in order.
  lemma {:induction false} Populates(root: GitNode, filters: seq<string>, c: Contents, parent: Inode)
    requires TreeOk(root) && Sound(root, filters, c) && parent in c.dirs && c.dirs[parent].pending.Some?
    ensures var dir := c.dirs[parent].pending.value;
            && dir.tree.Tree? && parent in c.paths
            && var pending := Passing(dir.tree.entries, dir.prefix, filters, |dir.tree.entries|);
               && NoOther(pending)
               && Sound(root, filters, Finished(AllInserted(c, parent, dir.prefix, pending, |pending|), parent))
               && Extends(c, Finished(AllInserted(c, parent, dir.prefix, pending, |pending|), parent))
  {
    var dir := c.dirs[parent].pending.value;
    StartReading(root, filters, c, parent);
    TreeIsRead(root, filters, c, parent);
    var pending := Passing(dir.tree.entries, dir.prefix, filters, |dir.tree.entries|);
    PassingToInsert(root, filters, c.paths[parent], dir);
    var r := AllInsertedReading(root, filters, c, parent, dir, pending, |pending|);
    assert pending[..|pending|] == pending;
    FinishReading(root, filters, r, parent, dir);
    ExtendsTransitive(c, r, Finished(r, parent));
  }

  lemma {:induction false} TreeIsRead(root: GitNode, filters: seq<string>, c: Contents, parent: Inode)
    requires TreeOk(root) && Sound(root, filters, c) && parent in c.dirs && c.dirs[parent].pending.Some?
    ensures c.dirs[parent].pending.value.tree.Tree? && EntriesOk(c.dirs[parent].pending.value.tree.entries)
  {
    assert DirOk(root, filters, c, parent) && NodeOk(root, filters, c, parent);
    ShownIsThere(root, filters, c.paths[parent]);
  }

  lemma {:induction false} NotNamedYet(dir: LazyDir, filters: seq<string>, k: nat)
    requires dir.tree.Tree? && EntriesOk(dir.tree.entries)
    requires k < |Passing(dir.tree.entries, dir.prefix, filters, |dir.tree.entries|)|
    ensures var pending := Passing(dir.tree.entries, dir.prefix, filters, |dir.tree.entries|);
            !Named(pending[..k], pending[k].name)
  {
    var pending := Passing(dir.tree.entries, dir.prefix, filters, |dir.tree.entries|);
    forall j | 0 <= j < k ensures pending[..k][j].name != pending[k].name {
      PassingDistinct(dir.tree.entries, dir.prefix, filters, |dir.tree.entries|, j, k);
    }
  }

  lemma {:induction false} RootAnswers(root: GitNode, filters: seq<string>, c: Contents)
    requires TreeOk(root) && Sound(root, filters, c)
    ensures ROOT_INODE in c.nodes && Answers(root, filters, c, [], Some(Node(ROOT_INODE, c.nodes[ROOT_INODE])))
  {
    assert NodeOk(root, filters, c, ROOT_INODE);
  }
}
