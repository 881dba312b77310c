/**
 * `ImageDb` of src/diff.js: the index of every screenshot found under the
 * input directories.  `addFile` files one screenshot in three nested
 * objects:
 *
 *   tree   model -> browser -> content hash -> list of paths
 *   keys   "models" / "browsers" / "engines" -> name -> 1
 *   tree2  model -> browser -> variant -> engine -> { hash, pathname }
 *
 * All three are built with `Helpers.add`, so nothing already present is
 * ever overwritten.  Reading a file, listing a directory and hashing are
 * supplied from outside: a file's contents are given with its path, a
 * directory is a value of `FsNode`, and md5 is a function the database is
 * built with.
 */
module ImageDatabase {
  import opened Wrappers
  import opened Dict
  import opened Seqs
  import opened NestedTree
  import opened ArtifactKey
  import opened ImageDiff
  import opened Report
  import opened Sorting
  import opened Consistency
  import opened Strings

  /** The three nested objects of an `ImageDb`. */
  datatype Db = Db(tree: Tree<seq<string>>, keys: Tree<int>, tree2: Tree<Shot>)

  const Models := "models"
  const Browsers := "browsers"
  const Engines := "engines"

  /** A new `ImageDb`: three empty objects. */
  const Empty := Db([], [], [])

  /** The list of screenshots at a node of the hash-grouped tree; none where there is no list. */
  function PathsAt(t: Tree<seq<string>>, q: seq<string>): seq<string> {
    var r := Get(t, q);
    if r.Some? && r.value.Leaf? then r.value.value else []
  }

  function HashPath(k: Key, hash: string): seq<string> {
    [k.model, k.browser, hash]
  }

  function IdentityPath(k: Key): seq<string> {
    [k.model, k.browser, k.variant, k.engine]
  }

  /** The first two steps of `addFile`: the path is appended to the list of its content hash. */
  function Filed(tree: Tree<seq<string>>, q: seq<string>, pathname: string): Tree<seq<string>> {
    var t := Added(tree, q, []);
    Set(t, q, Leaf(PathsAt(t, q) + [pathname]))
  }

  /** The next three steps of `addFile`: the model, browser and engine are recorded. */
  function Noted(keys: Tree<int>, k: Key): Tree<int> {
    Added(Added(Added(keys, [Models, k.model], 1), [Browsers, k.browser], 1), [Engines, k.engine], 1)
  }

  /** `addFile` for a screenshot with key `k` and content hash `hash`. */
  function IngestKey(db: Db, k: Key, pathname: string, hash: string): Db {
    Db(Filed(db.tree, HashPath(k, hash), pathname),
       Noted(db.keys, k),
       Added(db.tree2, IdentityPath(k), Shot(hash, pathname)))
  }

  /** `addFile(pathname)` on a file whose contents are `contents`. */
  function Ingest(db: Db, pathname: string, contents: seq<byte>, md5: seq<byte> -> string): Db {
    match ExtractKey(pathname)
    case None => db
    case Some(k) => IngestKey(db, k, pathname, md5(contents))
  }

  /** `addFile` on each file in turn. */
  function IngestAll(db: Db, files: seq<(string, seq<byte>)>, md5: seq<byte> -> string): Db
    decreases |files|
  {
    if files == [] then db else IngestAll(Ingest(db, files[0].0, files[0].1, md5), files[1..], md5)
  }

  lemma {:induction false} IngestAllAppend(db: Db, a: seq<(string, seq<byte>)>, b: seq<(string, seq<byte>)>, md5: seq<byte> -> string)
    ensures IngestAll(db, a + b, md5) == IngestAll(IngestAll(db, a, md5), b, md5)
    decreases |a|
  {
    if a != [] {
      var db' := Ingest(db, a[0].0, a[0].1, md5);
      assert (a + b)[0] == a[0] && (a + b)[1..] == a[1..] + b;
      IngestAllAppend(db', a[1..], b, md5);
    } else {
      assert a + b == b;
    }
  }

  lemma IngestAllSnoc(db: Db, files: seq<(string, seq<byte>)>, pathname: string, contents: seq<byte>, md5: seq<byte> -> string)
    ensures IngestAll(db, files + [(pathname, contents)], md5) == Ingest(IngestAll(db, files, md5), pathname, contents, md5)
  {
    IngestAllAppend(db, files, [(pathname, contents)], md5);
    assert [(pathname, contents)][1..] == [];
  }

  /** Every list of the hash-grouped tree is non-empty and holds only paths with a key. */
  ghost predicate GroupsOk(t: Tree<seq<string>>) {
    forall q {:trigger Has(t, q)} :: Has(t, q) && |q| == 3 ==> PathsAt(t, q) != [] && Keyed(PathsAt(t, q))
  }

  /**
   * The three key sets are created together, and every recorded model has
   * its object in the hash-grouped tree.
   */
  ghost predicate KeysOk(db: Db) {
    (Has(db.keys, [Models]) <==> Has(db.keys, [Browsers]))
    && (Has(db.keys, [Models]) <==> Has(db.keys, [Engines]))
    && forall m :: Has(db.keys, [Models, m]) ==> Has(db.tree, [m])
  }

  /** The hash-grouped tree is well formed: model -> browser -> hash -> non-empty list of keyed paths. */
  ghost predicate Grouped(t: Tree<seq<string>>) {
    Valid(t) && Shaped(t, 3) && GroupsOk(t)
  }

  /** What `addFile` keeps true of the three objects. */
  ghost predicate Wf(db: Db) {
    Valid(db.tree) && Valid(db.keys) && Valid(db.tree2)
    && Shaped(db.tree, 3) && Shaped(db.tree2, 4)
    && GroupsOk(db.tree) && KeysOk(db)
  }

  lemma EmptyWf()
    ensures Wf(Empty)
  {
  }

  lemma AddedHas<V>(t: Tree<V>, path: seq<string>, value: V, q: seq<string>)
    ensures Has(Added(t, path, value), q) <==> Has(t, q) || OnPath(path, q)
  {
    AddedGet(t, path, value, q);
  }

  /**
   * Filing a path: its list gains the path at the end, the objects on the
   * way to it are created if missing, and every other node is unchanged.
   */
  function FiledNode(tree: Tree<seq<string>>, q: seq<string>, pathname: string, r: seq<string>): Option<Node<seq<string>>> {
    if r == q then Some(Leaf(PathsAt(tree, q) + [pathname]))
    else if Has(tree, r) || !OnPath(q, r) then Get(tree, r)
    else Some(if |r| == |q| then Leaf([]) else Inner)
  }

  lemma FiledGet(tree: Tree<seq<string>>, q: seq<string>, pathname: string, r: seq<string>)
    requires |q| >= 1
    ensures Get(Filed(tree, q, pathname), r) == FiledNode(tree, q, pathname, r)
  {
    AddedAtPath(tree, q, []);
    AddedGet(tree, q, [], r);
    SetGet(Added(tree, q, []), q, Leaf(PathsAt(Added(tree, q, []), q) + [pathname]), r);
  }

  /**
   * The path lists after `addFile`: the new path is appended to the list of
   * its (model, browser, hash), after the paths already there; every other
   * list is unchanged; a file without a key changes nothing.
   */
  lemma IngestPaths(db: Db, pathname: string, contents: seq<byte>, md5: seq<byte> -> string, q: seq<string>)
    ensures PathsAt(Ingest(db, pathname, contents, md5).tree, q)
         == match ExtractKey(pathname)
            case None => PathsAt(db.tree, q)
            case Some(k) => PathsAt(db.tree, q) + (if q == HashPath(k, md5(contents)) then [pathname] else [])
  {
    if ExtractKey(pathname).Some? {
      var k := ExtractKey(pathname).value;
      FiledGet(db.tree, HashPath(k, md5(contents)), pathname, q);
    }
  }

  /** The node `addFile` pushes onto is a list: the one already there, or a new empty one. */
  lemma FiledLeaf(tree: Tree<seq<string>>, q: seq<string>, node: Node<seq<string>>)
    requires Shaped(tree, 3) && |q| == 3 && Get(Added(tree, q, []), q) == Some(node)
    ensures node == Leaf(PathsAt(Added(tree, q, []), q))
  {
    AddedAtPath(tree, q, []);
  }

  lemma KeyedSnoc(images: seq<string>, pathname: string)
    requires Keyed(images) && ExtractKey(pathname).Some?
    ensures Keyed(images + [pathname])
  {
  }

  /** A tree that answers lookups as filing does keeps every list non-empty and keyed. */
  lemma FiledGroups(tree: Tree<seq<string>>, q: seq<string>, pathname: string, t': Tree<seq<string>>)
    requires GroupsOk(tree) && |q| == 3 && ExtractKey(pathname).Some?
    requires forall r :: Get(t', r) == FiledNode(tree, q, pathname, r)
    ensures GroupsOk(t')
  {
    forall r | Has(t', r) && |r| == 3 ensures PathsAt(t', r) != [] && Keyed(PathsAt(t', r)) {
      assert Get(t', r) == FiledNode(tree, q, pathname, r);
      if r == q {
        assert Has(tree, q) || PathsAt(tree, q) == [];
        KeyedSnoc(PathsAt(tree, q), pathname);
      }
    }
  }

  /** Filing a path with a key keeps the hash-grouped tree well formed. */
  lemma FiledWf(tree: Tree<seq<string>>, q: seq<string>, pathname: string)
    requires Grouped(tree)
    requires |q| == 3 && ExtractKey(pathname).Some?
    ensures var t := Filed(tree, q, pathname); Valid(t) && Shaped(t, 3) && GroupsOk(t)
  {
    var t := Added(tree, q, []);
    AddedValid(tree, q, []);
    SetValid(t, q, Leaf(PathsAt(t, q) + [pathname]));
    AddedShaped(tree, q, []);
    AddedAtPath(tree, q, []);
    SetLeafShaped(t, q, PathsAt(t, q) + [pathname]);
    forall r ensures Get(Filed(tree, q, pathname), r) == FiledNode(tree, q, pathname, r) {
      FiledGet(tree, q, pathname, r);
    }
    FiledGroups(tree, q, pathname, Filed(tree, q, pathname));
  }

  lemma OnPathPair(a: string, m: string, b: string, x: string)
    ensures OnPath([a, m], [b, x]) <==> a == b && m == x
  {
    assert [a, m][..2] == [a, m];
  }

  lemma OnPathSingle(a: string, m: string, b: string)
    ensures OnPath([a, m], [b]) <==> a == b
  {
    assert [a, m][..1] == [a];
  }

  /** The key sets after `addFile`: the screenshot's model, browser and engine are added. */
  lemma NotedHas(keys: Tree<int>, k: Key, a: string, x: string)
    ensures Has(Noted(keys, k), [a, x])
        <==> Has(keys, [a, x]) || (a == Models && x == k.model) || (a == Browsers && x == k.browser)
             || (a == Engines && x == k.engine)
  {
    var k1 := Added(keys, [Models, k.model], 1);
    var k2 := Added(k1, [Browsers, k.browser], 1);
    AddedHas(keys, [Models, k.model], 1, [a, x]);
    AddedHas(k1, [Browsers, k.browser], 1, [a, x]);
    AddedHas(k2, [Engines, k.engine], 1, [a, x]);
    OnPathPair(Models, k.model, a, x);
    OnPathPair(Browsers, k.browser, a, x);
    OnPathPair(Engines, k.engine, a, x);
  }

  /** After `addFile` the three key objects all exist. */
  lemma NotedHasRoot(keys: Tree<int>, k: Key, a: string)
    ensures Has(Noted(keys, k), [a]) <==> Has(keys, [a]) || a == Models || a == Browsers || a == Engines
  {
    var k1 := Added(keys, [Models, k.model], 1);
    var k2 := Added(k1, [Browsers, k.browser], 1);
    AddedHas(keys, [Models, k.model], 1, [a]);
    AddedHas(k1, [Browsers, k.browser], 1, [a]);
    AddedHas(k2, [Engines, k.engine], 1, [a]);
    OnPathSingle(Models, k.model, a);
    OnPathSingle(Browsers, k.browser, a);
    OnPathSingle(Engines, k.engine, a);
  }

  lemma NotedValid(keys: Tree<int>, k: Key)
    requires Valid(keys)
    ensures Valid(Noted(keys, k))
  {
    var k1 := Added(keys, [Models, k.model], 1);
    var k2 := Added(k1, [Browsers, k.browser], 1);
    AddedValid(keys, [Models, k.model], 1);
    AddedValid(k1, [Browsers, k.browser], 1);
    AddedValid(k2, [Engines, k.engine], 1);
  }

  /**
   * `addFile` records the screenshot's model, browser and engine among the
   * names of `keys`, and adds no other name.
   */
  lemma IngestNames(db: Db, k: Key, pathname: string, hash: string, x: string)
    ensures var keys := IngestKey(db, k, pathname, hash).keys;
      (x in Names(keys, [Models]) <==> x in Names(db.keys, [Models]) || x == k.model)
      && (x in Names(keys, [Browsers]) <==> x in Names(db.keys, [Browsers]) || x == k.browser)
      && (x in Names(keys, [Engines]) <==> x in Names(db.keys, [Engines]) || x == k.engine)
  {
    var keys := Noted(db.keys, k);
    assert [Models] + [x] == [Models, x] && [Browsers] + [x] == [Browsers, x] && [Engines] + [x] == [Engines, x];
    NamesMember(keys, [Models], x);
    NamesMember(db.keys, [Models], x);
    NamesMember(keys, [Browsers], x);
    NamesMember(db.keys, [Browsers], x);
    NamesMember(keys, [Engines], x);
    NamesMember(db.keys, [Engines], x);
    NotedHas(db.keys, k, Models, x);
    NotedHas(db.keys, k, Browsers, x);
    NotedHas(db.keys, k, Engines, x);
  }

  lemma KeysOkFrom(db: Db, db': Db, model: string)
    requires KeysOk(db)
    requires Has(db'.keys, [Models]) && Has(db'.keys, [Browsers]) && Has(db'.keys, [Engines])
    requires forall m :: Has(db'.keys, [Models, m]) ==> Has(db.keys, [Models, m]) || m == model
    requires forall r :: Has(db.tree, r) ==> Has(db'.tree, r)
    requires Has(db'.tree, [model])
    ensures KeysOk(db')
  {
  }

  /** `addFile` creates the three key sets together and files every recorded model. */
  lemma IngestKeysOk(db: Db, k: Key, pathname: string, hash: string)
    requires KeysOk(db)
    ensures KeysOk(IngestKey(db, k, pathname, hash))
  {
    var db' := IngestKey(db, k, pathname, hash);
    var q := HashPath(k, hash);
    NotedHasRoot(db.keys, k, Models);
    NotedHasRoot(db.keys, k, Browsers);
    NotedHasRoot(db.keys, k, Engines);
    forall m | Has(db'.keys, [Models, m]) ensures Has(db.keys, [Models, m]) || m == k.model {
      NotedHas(db.keys, k, Models, m);
    }
    forall r | Has(db.tree, r) ensures Has(db'.tree, r) {
      FiledGet(db.tree, q, pathname, r);
    }
    FiledGet(db.tree, q, pathname, [k.model]);
    OnPathHead(q);
    KeysOkFrom(db, db', k.model);
  }

  /** `addFile` keeps the database well formed. */
  lemma IngestWf(db: Db, pathname: string, contents: seq<byte>, md5: seq<byte> -> string)
    requires Wf(db)
    ensures Wf(Ingest(db, pathname, contents, md5))
  {
    if ExtractKey(pathname).Some? {
      var k := ExtractKey(pathname).value;
      var hash := md5(contents);
      FiledWf(db.tree, HashPath(k, hash), pathname);
      NotedValid(db.keys, k);
      AddedValid(db.tree2, IdentityPath(k), Shot(hash, pathname));
      AddedShaped(db.tree2, IdentityPath(k), Shot(hash, pathname));
      IngestKeysOk(db, k, pathname, hash);
    }
  }

  lemma {:induction false} IngestAllWf(db: Db, files: seq<(string, seq<byte>)>, md5: seq<byte> -> string)
    requires Wf(db)
    ensures Wf(IngestAll(db, files, md5))
    decreases |files|
  {
    if files != [] {
      IngestWf(db, files[0].0, files[0].1, md5);
      IngestAllWf(Ingest(db, files[0].0, files[0].1, md5), files[1..], md5);
    }
  }

  /**
   * The identity tree is first-write-wins: once a (model, browser, variant,
   * engine) has a record, a later screenshot with the same identity leaves
   * the identity tree as it was.
   */
  lemma IdentityFirstWins(db: Db, k: Key, pathname: string, hash: string)
    requires Shaped(db.tree2, 4) && Has(db.tree2, IdentityPath(k))
    ensures IngestKey(db, k, pathname, hash).tree2 == db.tree2
  {
    AddedExisting(db.tree2, IdentityPath(k), Shot(hash, pathname));
  }

  /** How `genReport` ends: with a return code, or by throwing a `TypeError`. */
  datatype Exit = Code(n: int) | Crashed

  /** One axis of the report: the keys recorded under `name`, sorted. */
  function Axis(db: Db, name: string): seq<string> {
    Sort(Names(db.keys, [name]))
  }

  /** An axis lists each key recorded under `name`, and nothing else, in ascending order. */
  lemma AxisMembers(db: Db, name: string)
    ensures forall x :: x in Axis(db, name) <==> x in Names(db.keys, [name])
    ensures Sorted(Axis(db, name))
  {
    SortElementsAll(Names(db.keys, [name]));
    SortSorted(Names(db.keys, [name]));
  }

  lemma SortElementsAll(s: seq<string>)
    ensures forall x :: x in Sort(s) <==> x in s
  {
    forall x ensures x in Sort(s) <==> x in s {
      SortElements(s, x);
    }
  }

  /** The hash groups of one object of the hash-grouped tree, as `Object.entries` lists them. */
  function GroupsOf(e: Dict<string, Node<seq<string>>>): (g: Groups)
    ensures |g| == |e|
    ensures forall k :: 0 <= k < |e| ==> g[k].0 == e[k].0 && (e[k].1.Leaf? ==> g[k].1 == e[k].1.value)
  {
    seq(|e|, k requires 0 <= k < |e| => (e[k].0, if e[k].1.Leaf? then e[k].1.value else []))
  }

  /** `this.tree[m][b]`: the hash groups of (m, b), or `undefined`. */
  function CellOf(db: Db, m: string, b: string): Option<Groups> {
    if Has(db.tree, [m, b]) then Some(GroupsOf(ChildEntries(db.tree, [m, b]))) else None
  }

  /** Row `m` of the table once `entry` has been called for every browser. */
  function CellMap(db: Db, m: string, bs: seq<string>): (row: map<nat, Option<Groups>>)
    ensures forall j: nat :: j in row <==> j < |bs|
    ensures forall j :: 0 <= j < |bs| ==> row[j] == CellOf(db, m, bs[j])
  {
    map j: nat | j < |bs| :: CellOf(db, m, bs[j])
  }

  /** The hash groups of every (model, browser) pair of the given axes. */
  function Grid(db: Db, ms: seq<string>, bs: seq<string>): (rows: seq<seq<Groups>>)
    requires Grouped(db.tree)
    ensures |rows| == |ms| && RowsRenderable(rows)
    ensures forall i :: 0 <= i < |ms| ==> |rows[i]| == |bs|
  {
    CellsRenderable(db.tree, ms, bs);
    seq(|ms|, i requires 0 <= i < |ms| =>
      seq(|bs|, j requires 0 <= j < |bs| => GroupsOf(ChildEntries(db.tree, [ms[i], bs[j]]))))
  }

  /** Every group of a (model, browser) object lists at least one screenshot, each with a key. */
  lemma CellRenderable(tree: Tree<seq<string>>, p: seq<string>)
    requires Grouped(tree) && |p| == 2
    ensures Renderable(GroupsOf(ChildEntries(tree, p)))
  {
    var e := ChildEntries(tree, p);
    var g := GroupsOf(e);
    ChildEntriesValid(tree, p);
    forall k | 0 <= k < |g| ensures g[k].1 != [] && Keyed(g[k].1) {
      GetAt(e, k);
      ChildEntriesGet(tree, p, e[k].0);
      var q := p + [e[k].0];
      assert Get(tree, q) == Some(e[k].1);
      assert Has(tree, q);
      assert PathsAt(tree, q) == g[k].1;
    }
  }

  lemma CellsRenderable(tree: Tree<seq<string>>, ms: seq<string>, bs: seq<string>)
    requires Grouped(tree)
    ensures forall i, j :: 0 <= i < |ms| && 0 <= j < |bs| ==> Renderable(GroupsOf(ChildEntries(tree, [ms[i], bs[j]])))
  {
    forall i, j | 0 <= i < |ms| && 0 <= j < |bs| ensures Renderable(GroupsOf(ChildEntries(tree, [ms[i], bs[j]]))) {
      CellRenderable(tree, [ms[i], bs[j]]);
    }
  }

  /** The matrix `done` renders: one row per model, one cell per browser, each cell its hash groups. */
  function Matrix(db: Db): (rows: seq<seq<Groups>>)
    requires Wf(db)
    ensures |rows| == |Axis(db, Models)| && RowsRenderable(rows)
  {
    Grid(db, Axis(db, Models), Axis(db, Browsers))
  }

  /**
   * `genReport` throws: there is no `models` key set (nothing was added),
   * or some recorded model has no screenshot from some recorded browser,
   * so `done` meets an `undefined` cell.
   */
  predicate Crashes(db: Db) {
    !Has(db.keys, [Models])
    || exists m, b :: m in Names(db.keys, [Models]) && b in Names(db.keys, [Browsers]) && !Has(db.tree, [m, b])
  }

  /** The problems reported by the consistency check, with the engines sorted. */
  function Reported(db: Db, decode: string -> Png): seq<Violation> {
    Violations(db.tree2, Axis(db, Engines), decode)
  }

  /** Every (model, browser) pair of the axes has an object in the hash-grouped tree. */
  predicate AllCells(tree: Tree<seq<string>>, ms: seq<string>, bs: seq<string>) {
    forall i, j {:trigger Has(tree, [ms[i], bs[j]])} :: 0 <= i < |ms| && 0 <= j < |bs| ==> Has(tree, [ms[i], bs[j]])
  }

  /** The table `entry` builds holds, in each cell, what `this.tree[m][b]` was. */
  predicate Entered(db: Db, ms: seq<string>, bs: seq<string>, table: seq<map<nat, Option<Groups>>>) {
    |ms| <= |table|
    && forall i, j :: 0 <= i < |ms| && 0 <= j < |bs| ==> j in table[i] && table[i][j] == CellOf(db, ms[i], bs[j])
  }

  lemma CellMapsEntered(db: Db, ms: seq<string>, bs: seq<string>, table: seq<map<nat, Option<Groups>>>)
    requires |ms| <= |table| && forall i :: 0 <= i < |ms| ==> table[i] == CellMap(db, ms[i], bs)
    ensures Entered(db, ms, bs, table)
  {
  }

  /** The table `entry` builds is complete exactly when no cell is `undefined`. */
  lemma EnteredFilled(db: Db, ms: seq<string>, bs: seq<string>, table: seq<map<nat, Option<Groups>>>)
    requires Grouped(db.tree) && Entered(db, ms, bs, table)
    ensures Filled(ms, bs, table) <==> AllCells(db.tree, ms, bs)
  {
    if AllCells(db.tree, ms, bs) {
      forall i, j | 0 <= i < |ms| && 0 <= j < |bs|
        ensures j in table[i] && table[i][j].Some? && Renderable(table[i][j].value)
      {
        assert Has(db.tree, [ms[i], bs[j]]);
        CellRenderable(db.tree, [ms[i], bs[j]]);
      }
    }
    if Filled(ms, bs, table) {
      forall i, j | 0 <= i < |ms| && 0 <= j < |bs| ensures Has(db.tree, [ms[i], bs[j]]) {
        assert table[i][j].Some?;
      }
    }
  }

  /** A complete table holds the matrix of hash groups. */
  lemma EnteredRows(db: Db, ms: seq<string>, bs: seq<string>, table: seq<map<nat, Option<Groups>>>)
    requires Grouped(db.tree) && Entered(db, ms, bs, table) && Filled(ms, bs, table)
    ensures TableRows(ms, bs, table) == Grid(db, ms, bs)
  {
    var rows := TableRows(ms, bs, table);
    var grid := Grid(db, ms, bs);
    forall i | 0 <= i < |ms| ensures rows[i] == grid[i] {
      assert |rows[i]| == |bs| == |grid[i]|;
    }
  }

  /** A directory entry as `readdirSync` lists it; anything that is not a directory is read as a file. */
  datatype FsNode = Directory(children: seq<Dirent>) | File(contents: seq<byte>)
  datatype Dirent = Dirent(name: string, node: FsNode)

  function Size(n: FsNode): nat {
    match n
    case File(_) => 1
    case Directory(cs) => 1 + SizeAll(cs)
  }

  function SizeAll(cs: seq<Dirent>): nat {
    if cs == [] then 0 else SizeAll(cs[..|cs| - 1]) + Size(cs[|cs| - 1].node)
  }

  /** The work left in the `paths` queue: its directories and everything below them. */
  function QueueSize(q: seq<(string, seq<Dirent>)>): nat {
    if q == [] then 0 else QueueSize(q[..|q| - 1]) + 1 + SizeAll(q[|q| - 1].1)
  }

  lemma {:induction false} QueueSizeAppend(a: seq<(string, seq<Dirent>)>, b: seq<(string, seq<Dirent>)>)
    ensures QueueSize(a + b) == QueueSize(a) + QueueSize(b)
    decreases |b|
  {
    if b != [] {
      assert (a + b)[..|a + b| - 1] == a + b[..|b| - 1];
      QueueSizeAppend(a, b[..|b| - 1]);
    } else {
      assert a + b == a;
    }
  }

  lemma {:induction false} QueueSizeFront(q: seq<(string, seq<Dirent>)>)
    requires q != []
    ensures QueueSize(q) == 1 + SizeAll(q[0].1) + QueueSize(q[1..])
  {
    assert q == [q[0]] + q[1..];
    QueueSizeAppend([q[0]], q[1..]);
    assert [q[0]][..0] == [];
  }

  /** The files of one listing, in listing order, with their full paths. */
  function FilesOf(join: (string, string) -> string, p: string, cs: seq<Dirent>): seq<(string, seq<byte>)> {
    if cs == [] then []
    else
      var c := cs[|cs| - 1];
      FilesOf(join, p, cs[..|cs| - 1]) + if c.node.File? then [(join(p, c.name), c.node.contents)] else []
  }

  /** The subdirectories of one listing, in listing order, as they are pushed on the queue. */
  function DirsOf(join: (string, string) -> string, p: string, cs: seq<Dirent>): seq<(string, seq<Dirent>)> {
    if cs == [] then []
    else
      var c := cs[|cs| - 1];
      DirsOf(join, p, cs[..|cs| - 1]) + if c.node.Directory? then [(join(p, c.name), c.node.children)] else []
  }

  /** One more entry of a listing: a file extends the files, a directory the queue. */
  lemma ListingSnocFile(join: (string, string) -> string, p: string, cs: seq<Dirent>, i: nat)
    requires i < |cs| && cs[i].node.File?
    ensures FilesOf(join, p, cs[..i + 1]) == FilesOf(join, p, cs[..i]) + [(join(p, cs[i].name), cs[i].node.contents)]
    ensures DirsOf(join, p, cs[..i + 1]) == DirsOf(join, p, cs[..i])
  {
    assert cs[..i + 1][..i] == cs[..i];
    assert DirsOf(join, p, cs[..i]) + [] == DirsOf(join, p, cs[..i]);
  }

  lemma ListingSnocDirectory(join: (string, string) -> string, p: string, cs: seq<Dirent>, i: nat)
    requires i < |cs| && cs[i].node.Directory?
    ensures FilesOf(join, p, cs[..i + 1]) == FilesOf(join, p, cs[..i])
    ensures DirsOf(join, p, cs[..i + 1]) == DirsOf(join, p, cs[..i]) + [(join(p, cs[i].name), cs[i].node.children)]
  {
    assert cs[..i + 1][..i] == cs[..i];
    assert FilesOf(join, p, cs[..i]) + [] == FilesOf(join, p, cs[..i]);
  }

  lemma ListingWhole(join: (string, string) -> string, p: string, cs: seq<Dirent>)
    ensures FilesOf(join, p, cs[..|cs|]) == FilesOf(join, p, cs)
    ensures DirsOf(join, p, cs[..|cs|]) == DirsOf(join, p, cs)
  {
    assert cs[..|cs|] == cs;
  }

  lemma {:induction false} DirsOfSmaller(join: (string, string) -> string, p: string, cs: seq<Dirent>)
    ensures QueueSize(DirsOf(join, p, cs)) <= SizeAll(cs)
  {
    if cs != [] {
      var c := cs[|cs| - 1];
      DirsOfSmaller(join, p, cs[..|cs| - 1]);
      var tail: seq<(string, seq<Dirent>)> := if c.node.Directory? then [(join(p, c.name), c.node.children)] else [];
      QueueSizeAppend(DirsOf(join, p, cs[..|cs| - 1]), tail);
      if c.node.Directory? {
        assert tail[..0] == [];
      }
    }
  }

  /**
   * The files `addDirectory` visits, in the order it visits them: breadth
   * first, each directory's files in listing order before any directory
   * queued after it.
   */
  function Bfs(join: (string, string) -> string, q: seq<(string, seq<Dirent>)>): seq<(string, seq<byte>)>
    decreases QueueSize(q)
  {
    if q == [] then []
    else
      QueueSizeFront(q);
      DirsOfSmaller(join, q[0].0, q[0].1);
      QueueSizeAppend(q[1..], DirsOf(join, q[0].0, q[0].1));
      FilesOf(join, q[0].0, q[0].1) + Bfs(join, q[1..] + DirsOf(join, q[0].0, q[0].1))
  }

  /** A file directly in the scanned directory is visited before anything in its subdirectories. */
  lemma BfsTopFirst(join: (string, string) -> string, dir: string, cs: seq<Dirent>)
    ensures Bfs(join, [(dir, cs)])[..|FilesOf(join, dir, cs)|] == FilesOf(join, dir, cs)
  {
    assert [(dir, cs)][1..] == [];
  }

  /**
   * Every file below a directory whose full path is `p`, found by
   * descending each subdirectory where it is listed: the reference the
   * queue of `addDirectory` is measured against.
   */
  function AllFiles(join: (string, string) -> string, p: string, cs: seq<Dirent>): seq<(string, seq<byte>)>
    decreases cs
  {
    if cs == [] then [] else AllFiles(join, p, cs[..|cs| - 1]) + EntryFiles(join, p, cs[|cs| - 1])
  }

  /** The files of one entry of a listing: the file itself, or every file below the directory. */
  function EntryFiles(join: (string, string) -> string, p: string, c: Dirent): seq<(string, seq<byte>)>
    decreases c
  {
    match c.node
    case File(contents) => [(join(p, c.name), contents)]
    case Directory(children) => AllFiles(join, join(p, c.name), children)
  }

  /** Every file below each directory of a queue, in queue order. */
  function QueueFiles(join: (string, string) -> string, q: seq<(string, seq<Dirent>)>): seq<(string, seq<byte>)> {
    if q == [] then [] else QueueFiles(join, q[..|q| - 1]) + AllFiles(join, q[|q| - 1].0, q[|q| - 1].1)
  }

  lemma {:induction false} QueueFilesAppend(join: (string, string) -> string, a: seq<(string, seq<Dirent>)>, b: seq<(string, seq<Dirent>)>)
    ensures QueueFiles(join, a + b) == QueueFiles(join, a) + QueueFiles(join, b)
    decreases |b|
  {
    if b == [] {
      assert a + b == a;
    } else {
      var front := b[..|b| - 1];
      var last := AllFiles(join, b[|b| - 1].0, b[|b| - 1].1);
      assert (a + b)[..|a + b| - 1] == a + front;
      assert (a + b)[|a + b| - 1] == b[|b| - 1];
      assert QueueFiles(join, a + b) == QueueFiles(join, a + front) + last;
      assert QueueFiles(join, b) == QueueFiles(join, front) + last;
      QueueFilesAppend(join, a, front);
      AppendAssoc(QueueFiles(join, a), QueueFiles(join, front), last);
    }
  }

  lemma QueueFilesFront(join: (string, string) -> string, q: seq<(string, seq<Dirent>)>)
    requires q != []
    ensures QueueFiles(join, q) == AllFiles(join, q[0].0, q[0].1) + QueueFiles(join, q[1..])
  {
    assert q == [q[0]] + q[1..];
    QueueFilesAppend(join, [q[0]], q[1..]);
    assert [q[0]][..0] == [];
  }

  /** Below one listing lie its own files and everything below the subdirectories it queues. */
  lemma {:induction false} AllFilesListing(join: (string, string) -> string, p: string, cs: seq<Dirent>)
    ensures multiset(AllFiles(join, p, cs)) == multiset(FilesOf(join, p, cs)) + multiset(QueueFiles(join, DirsOf(join, p, cs)))
  {
    if cs != [] {
      var front := cs[..|cs| - 1];
      var c := cs[|cs| - 1];
      var files := FilesOf(join, p, front);
      var dirs := DirsOf(join, p, front);
      var entry := EntryFiles(join, p, c);
      assert AllFiles(join, p, cs) == AllFiles(join, p, front) + entry;
      AllFilesListing(join, p, front);
      match c.node
      case File(contents) =>
        assert entry == [(join(p, c.name), contents)];
        assert FilesOf(join, p, cs) == files + entry;
        assert DirsOf(join, p, cs) == dirs + [];
        assert dirs + [] == dirs;
      case Directory(children) =>
        var d := (join(p, c.name), children);
        assert entry == AllFiles(join, d.0, d.1);
        assert FilesOf(join, p, cs) == files + [];
        assert files + [] == files;
        assert DirsOf(join, p, cs) == dirs + [d];
        assert (dirs + [d])[..|dirs|] == dirs;
        assert QueueFiles(join, dirs + [d]) == QueueFiles(join, dirs) + entry;
    }
  }

  /** The breadth-first queue visits exactly the files below its directories, each as often as the walk lists it. */
  lemma {:induction false} BfsQueueFiles(join: (string, string) -> string, q: seq<(string, seq<Dirent>)>)
    ensures multiset(Bfs(join, q)) == multiset(QueueFiles(join, q))
    decreases QueueSize(q)
  {
    if q != [] {
      var dirs := DirsOf(join, q[0].0, q[0].1);
      QueueSizeFront(q);
      DirsOfSmaller(join, q[0].0, q[0].1);
      QueueSizeAppend(q[1..], dirs);
      BfsQueueFiles(join, q[1..] + dirs);
      QueueFilesAppend(join, q[1..], dirs);
      QueueFilesFront(join, q);
      AllFilesListing(join, q[0].0, q[0].1);
    }
  }

  /**
   * `addDirectory` visits every file below `dir` and nothing else: as a
   * multiset its breadth-first order is the depth-first walk's.
   */
  lemma BfsCoversTree(join: (string, string) -> string, dir: string, cs: seq<Dirent>)
    ensures multiset(Bfs(join, [(dir, cs)])) == multiset(AllFiles(join, dir, cs))
    ensures forall f :: f in Bfs(join, [(dir, cs)]) <==> f in AllFiles(join, dir, cs)
  {
    BfsQueueFiles(join, [(dir, cs)]);
    QueueFilesFront(join, [(dir, cs)]);
    assert [(dir, cs)][1..] == [];
    var b := Bfs(join, [(dir, cs)]);
    var a := AllFiles(join, dir, cs);
    forall f ensures f in b <==> f in a {
      assert f in b <==> f in multiset(b);
      assert f in a <==> f in multiset(a);
    }
  }

  class ImageDb {
    var tree: Tree<seq<string>>
    var keys: Tree<int>
    var tree2: Tree<Shot>
    /** The hex md5 digest of a file's contents. */
    const md5: seq<byte> -> string

    function State(): Db
      reads this
    {
      Db(tree, keys, tree2)
    }

    ghost predicate Valid()
      reads this
    {
      Wf(State())
    }

    constructor(md5: seq<byte> -> string)
      ensures State() == Empty && this.md5 == md5
      ensures Valid()
    {
      tree := [];
      keys := [];
      tree2 := [];
      this.md5 := md5;
      EmptyWf();
    }

    /** `addFile(pathname)`, the file's contents being `contents`. */
    method AddFile(pathname: string, contents: seq<byte>)
      requires Valid()
      modifies this
      ensures State() == Ingest(old(State()), pathname, contents, md5)
      ensures Valid()
    {
      IngestWf(State(), pathname, contents, md5);
      var key := ExtractKey(pathname);
      if key.Some? {
        FileShot(key.value, pathname, md5(contents));
      }
    }

    /** The five `Helpers.add` steps of `addFile`, for a screenshot with key `k` and content hash `hash`. */
    method FileShot(k: Key, pathname: string, hash: string)
      requires Shaped(tree, 3)
      modifies this
      ensures State() == IngestKey(old(State()), k, pathname, hash)
    {
      var q := [k.model, k.browser, hash];
      var t, node := Add(tree, q, []);
      FiledLeaf(tree, q, node);
      tree := Set(t, q, Leaf(node.value + [pathname]));
      var k1, _ := Add(keys, [Models, k.model], 1);
      var k2, _ := Add(k1, [Browsers, k.browser], 1);
      var k3, _ := Add(k2, [Engines, k.engine], 1);
      keys := k3;
      var t2, _ := Add(tree2, [k.model, k.browser, k.variant, k.engine], Shot(hash, pathname));
      tree2 := t2;
    }

    /**
     * `addDirectory(dir)`, the listing of `dir` being `root`: every file
     * below `dir` is added, breadth first.
     */
    method AddDirectory(dir: string, root: seq<Dirent>, join: (string, string) -> string)
      requires Valid()
      modifies this
      ensures State() == IngestAll(old(State()), Bfs(join, [(dir, root)]), md5)
      ensures Valid()
    {
      var paths := [(dir, root)];
      while paths != []
        invariant Valid()
        invariant IngestAll(old(State()), Bfs(join, [(dir, root)]), md5) == IngestAll(State(), Bfs(join, paths), md5)
        decreases QueueSize(paths)
      {
        ghost var before := State();
        ghost var q := paths;
        var p := paths[0].0;
        var children := paths[0].1;
        paths := paths[1..];
        paths := ScanListing(p, children, paths, join);
        IngestAllAppend(before, FilesOf(join, p, children), Bfs(join, paths), md5);
        QueueSizeFront(q);
        DirsOfSmaller(join, p, children);
        QueueSizeAppend(q[1..], DirsOf(join, p, children));
      }
    }

    /** The `forEach` over one listing: files are added, subdirectories queued on `paths`. */
    method ScanListing(p: string, children: seq<Dirent>, paths: seq<(string, seq<Dirent>)>, join: (string, string) -> string)
      returns (paths': seq<(string, seq<Dirent>)>)
      requires Valid()
      modifies this
      ensures State() == IngestAll(old(State()), FilesOf(join, p, children), md5)
      ensures paths' == paths + DirsOf(join, p, children)
      ensures Valid()
    {
      paths' := paths;
      for i := 0 to |children|
        invariant Valid()
        invariant State() == IngestAll(old(State()), FilesOf(join, p, children[..i]), md5)
        invariant paths' == paths + DirsOf(join, p, children[..i])
      {
        var child := children[i];
        var full := join(p, child.name);
        match child.node
        case Directory(cs) =>
          ListingSnocDirectory(join, p, children, i);
          AppendAssoc(paths, DirsOf(join, p, children[..i]), [(full, cs)]);
          paths' := paths' + [(full, cs)];
        case File(contents) =>
          ListingSnocFile(join, p, children, i);
          IngestAllSnoc(old(State()), FilesOf(join, p, children[..i]), full, contents, md5);
          AddFile(full, contents);
      }
      ListingWhole(join, p, children);
    }
  
    /**
     * `genReport(visitor)`, `decode` reading a screenshot file as an image:
     * renders the matrix of sorted models and browsers through the visitor,
     * then reports every missing or mismatched screenshot on its error
     * stream and returns 1 if there was any, 0 otherwise.
     */
    method GenReport(visitor: ReportVisitor, decode: string -> Png) returns (exit: Exit)
      requires Valid()
      modifies visitor, visitor.html
      ensures Valid()
      ensures exit.Crashed? <==> Crashes(State())
      ensures exit.Crashed? ==> visitor.errors == old(visitor.errors)
      ensures !exit.Crashed? ==>
                visitor.html.items == old(visitor.html.items)
                + Page(visitor.outputDir, visitor.relative, Axis(State(), Models), Axis(State(), Browsers), Matrix(State()))
      ensures !exit.Crashed? ==> visitor.written == Some(Join(visitor.html.items, "\n"))
      ensures !exit.Crashed? ==> visitor.errors == old(visitor.errors) + Messages(Reported(State(), decode))
      ensures !exit.Crashed? ==> exit == Code(if Reported(State(), decode) == [] then 0 else 1)
    {
      if !Has(keys, [Models]) {
        return Crashed;
      }
      NoCrashIff(State());
      exit := Run(visitor, State(), decode);
    }
  }

  /** `genReport` once the key sets exist: the report, then the consistency check. */
  method Run(visitor: ReportVisitor, db: Db, decode: string -> Png) returns (exit: Exit)
    requires Grouped(db.tree) && Has(db.keys, [Models])
    modifies visitor, visitor.html
    ensures exit.Crashed? <==> !AllCells(db.tree, Axis(db, Models), Axis(db, Browsers))
    ensures exit.Crashed? ==> visitor.errors == old(visitor.errors)
    ensures !exit.Crashed? ==>
              visitor.html.items == old(visitor.html.items)
              + Page(visitor.outputDir, visitor.relative, Axis(db, Models), Axis(db, Browsers),
                     Grid(db, Axis(db, Models), Axis(db, Browsers)))
    ensures !exit.Crashed? ==> visitor.written == Some(Join(visitor.html.items, "\n"))
    ensures !exit.Crashed? ==> visitor.errors == old(visitor.errors) + Messages(Reported(db, decode))
    ensures !exit.Crashed? ==> exit == Code(if Reported(db, decode) == [] then 0 else 1)
  {
    var models := Axis(db, Models);
    var browsers := Axis(db, Browsers);
    var crashed := Render(visitor, db, models, browsers);
    if crashed {
      exit := Crashed;
    } else {
      var rc := Check(visitor, db, decode);
      exit := Code(rc);
    }
  }

  /** The checking half of `genReport`, over the sorted engines. */
  method Check(visitor: ReportVisitor, db: Db, decode: string -> Png) returns (rc: int)
    modifies visitor
    ensures visitor.errors == old(visitor.errors) + Messages(Reported(db, decode))
    ensures rc == if Reported(db, decode) == [] then 0 else 1
    ensures visitor.written == old(visitor.written)
  {
    var engines := Axis(db, Engines);
    rc := CheckAll(visitor, db.tree2, engines, decode);
  }

  /** The rendering half of `genReport`: `init`, an `entry` per cell, then `done`. */
  method Render(visitor: ReportVisitor, db: Db, ms: seq<string>, bs: seq<string>) returns (crashed: bool)
    requires Grouped(db.tree)
    modifies visitor, visitor.html
    ensures crashed <==> !AllCells(db.tree, ms, bs)
    ensures !crashed ==> visitor.html.items == old(visitor.html.items) + Page(visitor.outputDir, visitor.relative, ms, bs, Grid(db, ms, bs))
    ensures !crashed ==> visitor.written == Some(Join(visitor.html.items, "\n"))
    ensures visitor.errors == old(visitor.errors)
  {
    visitor.Init(ms, bs);
    FillTable(visitor, db, ms, bs);
    CellMapsEntered(db, ms, bs, visitor.table);
    EnteredFilled(db, ms, bs, visitor.table);
    if Filled(ms, bs, visitor.table) {
      EnteredRows(db, ms, bs, visitor.table);
    }
    crashed := visitor.Done();
  }

  /** The `entry` calls of `genReport`, for every (model, browser) pair. */
  method FillTable(visitor: ReportVisitor, db: Db, ms: seq<string>, bs: seq<string>)
    requires |ms| <= |visitor.table| && forall i :: 0 <= i < |ms| ==> visitor.table[i] == map[]
    modifies visitor
    ensures |visitor.table| == |old(visitor.table)|
    ensures forall i :: 0 <= i < |ms| ==> visitor.table[i] == CellMap(db, ms[i], bs)
    ensures visitor.models == old(visitor.models) && visitor.browsers == old(visitor.browsers)
    ensures visitor.errors == old(visitor.errors) && visitor.written == old(visitor.written)
  {
    for m := 0 to |ms|
      invariant |visitor.table| == |old(visitor.table)|
      invariant forall i :: 0 <= i < m ==> visitor.table[i] == CellMap(db, ms[i], bs)
      invariant forall i :: m <= i < |ms| ==> visitor.table[i] == map[]
      invariant visitor.models == old(visitor.models) && visitor.browsers == old(visitor.browsers)
      invariant visitor.errors == old(visitor.errors) && visitor.written == old(visitor.written)
    {
      FillRow(visitor, db, m, ms[m], bs);
    }
  }

  /** The `entry` calls for one model, into the empty row `m`. */
  method FillRow(visitor: ReportVisitor, db: Db, m: nat, model: string, bs: seq<string>)
    requires m < |visitor.table| && visitor.table[m] == map[]
    modifies visitor
    ensures |visitor.table| == |old(visitor.table)|
    ensures visitor.table[m] == CellMap(db, model, bs)
    ensures forall i :: 0 <= i < |visitor.table| && i != m ==> visitor.table[i] == old(visitor.table)[i]
    ensures visitor.models == old(visitor.models) && visitor.browsers == old(visitor.browsers)
    ensures visitor.errors == old(visitor.errors) && visitor.written == old(visitor.written)
  {
    for b := 0 to |bs|
      invariant |visitor.table| == |old(visitor.table)|
      invariant visitor.table[m] == map j: nat | j < b :: CellOf(db, model, bs[j])
      invariant forall i :: 0 <= i < |visitor.table| && i != m ==> visitor.table[i] == old(visitor.table)[i]
      invariant visitor.models == old(visitor.models) && visitor.browsers == old(visitor.browsers)
      invariant visitor.errors == old(visitor.errors) && visitor.written == old(visitor.written)
    {
      visitor.Entry(m, b, CellOf(db, model, bs[b]));
    }
  }

  /** The consistency check over every model of the identity tree, in insertion order. */
  method CheckAll(visitor: ReportVisitor, t2: Tree<Shot>, engines: seq<string>, decode: string -> Png) returns (rc: int)
    modifies visitor
    ensures visitor.errors == old(visitor.errors) + Messages(Violations(t2, engines, decode))
    ensures rc == if Violations(t2, engines, decode) == [] then 0 else 1
    ensures visitor.written == old(visitor.written)
  {
    var ms := Names(t2, []);
    ghost var f := Below(t2, engines, decode, []);
    rc := 0;
    for i := 0 to |ms|
      invariant visitor.errors == old(visitor.errors) + Messages(Joined(f, ms[..i]))
      invariant rc == if Joined(f, ms[..i]) == [] then 0 else 1
      invariant visitor.written == old(visitor.written)
    {
      var found := CheckModel(visitor, t2, engines, decode, ms[i]);
      if found {
        rc := 1;
      }
      ModelAt(t2, engines, decode, ms[i]);
      PieceReported(old(visitor.errors), f, ms, i);
    }
    WholeSlice(ms);
  }

  method CheckModel(visitor: ReportVisitor, t2: Tree<Shot>, engines: seq<string>, decode: string -> Png, m: string) returns (found: bool)
    modifies visitor
    ensures visitor.errors == old(visitor.errors) + Messages(ModelViolations(t2, engines, decode, m))
    ensures found == (ModelViolations(t2, engines, decode, m) != [])
    ensures visitor.written == old(visitor.written)
  {
    var bs := Names(t2, [m]);
    ghost var f := Below(t2, engines, decode, [m]);
    found := false;
    for i := 0 to |bs|
      invariant visitor.errors == old(visitor.errors) + Messages(Joined(f, bs[..i]))
      invariant found == (Joined(f, bs[..i]) != [])
      invariant visitor.written == old(visitor.written)
    {
      var fi := CheckBrowser(visitor, t2, engines, decode, m, bs[i]);
      if fi {
        found := true;
      }
      BrowserAt(t2, engines, decode, m, bs[i]);
      PieceReported(old(visitor.errors), f, bs, i);
    }
    WholeSlice(bs);
  }

  method CheckBrowser(visitor: ReportVisitor, t2: Tree<Shot>, engines: seq<string>, decode: string -> Png, m: string, b: string) returns (found: bool)
    modifies visitor
    ensures visitor.errors == old(visitor.errors) + Messages(BrowserViolations(t2, engines, decode, m, b))
    ensures found == (BrowserViolations(t2, engines, decode, m, b) != [])
    ensures visitor.written == old(visitor.written)
  {
    var vs := Names(t2, [m, b]);
    ghost var f := Below(t2, engines, decode, [m, b]);
    found := false;
    for i := 0 to |vs|
      invariant visitor.errors == old(visitor.errors) + Messages(Joined(f, vs[..i]))
      invariant found == (Joined(f, vs[..i]) != [])
      invariant visitor.written == old(visitor.written)
    {
      var fi := CheckVariant(visitor, t2, engines, decode, m, b, vs[i]);
      if fi {
        found := true;
      }
      VariantAt(t2, engines, decode, m, b, vs[i]);
      PieceReported(old(visitor.errors), f, vs, i);
    }
    WholeSlice(vs);
  }

  /** The checks of one (model, browser, variant): missing engines first, then the comparisons with the first engine. */
  method CheckVariant(visitor: ReportVisitor, t2: Tree<Shot>, engines: seq<string>, decode: string -> Png, m: string, b: string, v: string)
    returns (found: bool)
    modifies visitor
    ensures visitor.errors == old(visitor.errors) + Messages(VariantViolations(t2, engines, decode, m, b, v))
    ensures found == (VariantViolations(t2, engines, decode, m, b, v) != [])
    ensures visitor.written == old(visitor.written)
  {
    ghost var start := visitor.errors;
    var missing := CheckMissing(visitor, t2, engines, m, b, v);
    ghost var mid := visitor.errors;
    var shots := ShotsOf(t2, m, b, v);
    var mismatched := CheckMatches(visitor, shots, decode);
    found := missing || mismatched;
    ghost var x := MissingFor(t2, m, b, v, engines);
    ghost var y := Mismatches(shots, decode, |shots|);
    assert mid == start + Messages(x);
    assert visitor.errors == mid + Messages(y);
    MessagesAppend(x, y);
    AppendAssoc(start, Messages(x), Messages(y));
    assert VariantViolations(t2, engines, decode, m, b, v) == x + y;
  }

  /** The `forEach` over the known engines: one error per engine with no screenshot for (m, b, v). */
  method CheckMissing(visitor: ReportVisitor, t2: Tree<Shot>, engines: seq<string>, m: string, b: string, v: string) returns (found: bool)
    modifies visitor
    ensures visitor.errors == old(visitor.errors) + Messages(MissingFor(t2, m, b, v, engines))
    ensures found == (MissingFor(t2, m, b, v, engines) != [])
    ensures visitor.written == old(visitor.written)
  {
    found := false;
    for i := 0 to |engines|
      invariant visitor.errors == old(visitor.errors) + Messages(MissingFor(t2, m, b, v, engines[..i]))
      invariant found == (MissingFor(t2, m, b, v, engines[..i]) != [])
      invariant visitor.written == old(visitor.written)
    {
      var engine := engines[i];
      MissingForSnoc(t2, m, b, v, engines, i);
      if !Has(t2, [m, b, v, engine]) {
        Logged(old(visitor.errors), MissingFor(t2, m, b, v, engines[..i]), Missing(m, b, v, engine));
        visitor.Error(Message(Missing(m, b, v, engine)));
        found := true;
      } else {
        NothingLogged(MissingFor(t2, m, b, v, engines[..i]));
      }
    }
    WholeSlice(engines);
  }

  /**
   * The loop comparing the screenshot of each engine present for a
   * (model, browser, variant), in sorted order of engine, with the first.
   */
  method CheckMatches(visitor: ReportVisitor, shots: seq<Shot>, decode: string -> Png) returns (found: bool)
    modifies visitor
    ensures visitor.errors == old(visitor.errors) + Messages(Mismatches(shots, decode, |shots|))
    ensures found == (Mismatches(shots, decode, |shots|) != [])
    ensures visitor.written == old(visitor.written)
  {
    found := false;
    if |shots| <= 1 {
      assert Mismatches(shots, decode, |shots|) == [];
      return;
    }
    found := CompareWithFirst(visitor, shots, decode);
  }

  /** The comparison loop proper, for two or more screenshots. */
  method CompareWithFirst(visitor: ReportVisitor, shots: seq<Shot>, decode: string -> Png) returns (found: bool)
    requires |shots| >= 2
    modifies visitor
    ensures visitor.errors == old(visitor.errors) + Messages(Mismatches(shots, decode, |shots|))
    ensures found == (Mismatches(shots, decode, |shots|) != [])
    ensures visitor.written == old(visitor.written)
  {
    found := false;
    ghost var start := visitor.errors;
    for i := 1 to |shots|
      invariant visitor.errors == start + Messages(Mismatches(shots, decode, i))
      invariant found == (Mismatches(shots, decode, i) != [])
      invariant visitor.written == old(visitor.written)
    {
      found := CompareNext(visitor, shots, decode, i, found, start);
    }
  }

  /** One turn of the loop of `CompareWithFirst`: screenshot `i` against the first. */
  method CompareNext(visitor: ReportVisitor, shots: seq<Shot>, decode: string -> Png, i: nat, found: bool, ghost start: seq<string>)
    returns (found': bool)
    requires 1 <= i < |shots|
    requires visitor.errors == start + Messages(Mismatches(shots, decode, i))
    requires found == (Mismatches(shots, decode, i) != [])
    modifies visitor
    ensures visitor.errors == start + Messages(Mismatches(shots, decode, i + 1))
    ensures found' == (Mismatches(shots, decode, i + 1) != [])
    ensures visitor.written == old(visitor.written)
  {
    ghost var before := visitor.errors;
    var f := Compare(visitor, shots[0], shots[i], decode);
    ComparedStep(start, before, visitor.errors, found, f, shots, decode, i);
    found' := found || f;
  }

  /** The loop step of `CheckMatches`, apart from the heap: the lines and the flag after one more comparison. */
  lemma ComparedStep(start: seq<string>, before: seq<string>, after: seq<string>, found: bool, f: bool,
                     shots: seq<Shot>, decode: string -> Png, i: nat)
    requires 1 <= i < |shots|
    requires before == start + Messages(Mismatches(shots, decode, i)) && found == (Mismatches(shots, decode, i) != [])
    requires after == before + Messages(Compared(shots[0], shots[i], decode)) && f == (Compared(shots[0], shots[i], decode) != [])
    ensures after == start + Messages(Mismatches(shots, decode, i + 1))
    ensures (found || f) == (Mismatches(shots, decode, i + 1) != [])
  {
    ComparedNext(start, shots, decode, i);
  }

  /** One comparison with the first screenshot: the hashes first, the pixels only when they differ. */
  method Compare(visitor: ReportVisitor, entry0: Shot, entryI: Shot, decode: string -> Png) returns (found: bool)
    modifies visitor
    ensures visitor.errors == old(visitor.errors) + Messages(Compared(entry0, entryI, decode))
    ensures found == (Compared(entry0, entryI, decode) != [])
    ensures visitor.written == old(visitor.written)
  {
    found := false;
    if entryI.hash != entry0.hash {
      var diffText := Diff(decode(entry0.pathname), decode(entryI.pathname));
      if diffText.Some? {
        var x := Mismatch(diffText.value, entry0.pathname, entryI.pathname);
        Logged(old(visitor.errors), [], x);
        visitor.Error(Message(x));
        found := true;
      }
    }
  }

  /** One more comparison: its problems follow those of the earlier ones. */
  lemma ComparedNext(start: seq<string>, shots: seq<Shot>, decode: string -> Png, i: nat)
    requires 1 <= i < |shots|
    ensures start + Messages(Mismatches(shots, decode, i + 1))
         == start + Messages(Mismatches(shots, decode, i)) + Messages(Compared(shots[0], shots[i], decode))
    ensures Mismatches(shots, decode, i + 1) != [] <==> Mismatches(shots, decode, i) != [] || Compared(shots[0], shots[i], decode) != []
  {
    MessagesAppend(Mismatches(shots, decode, i), Compared(shots[0], shots[i], decode));
  }

  /** One more problem: its line follows those of the earlier ones. */
  lemma Logged(start: seq<string>, before: seq<Violation>, x: Violation)
    ensures start + Messages(before + [x]) == start + Messages(before) + [Message(x)]
    ensures before + [x] != []
  {
    MessagesAppend(before, [x]);
    assert [x][..0] == [];
  }

  lemma NothingLogged(before: seq<Violation>)
    ensures before + [] == before
  {
  }

  /** One more step of the walk: its lines follow the earlier ones, and it reports iff any step does. */
  lemma PieceReported(start: seq<string>, f: string -> seq<Violation>, xs: seq<string>, i: nat)
    requires i < |xs|
    ensures start + Messages(Joined(f, xs[..i + 1])) == start + Messages(Joined(f, xs[..i])) + Messages(f(xs[i]))
    ensures Joined(f, xs[..i + 1]) != [] <==> Joined(f, xs[..i]) != [] || f(xs[i]) != []
  {
    JoinedSnoc(f, xs, i);
    MessagesAppend(Joined(f, xs[..i]), f(xs[i]));
  }

  /** `done` finds every cell filled exactly when `genReport` does not crash. */
  lemma NoCrashIff(db: Db)
    requires Has(db.keys, [Models])
    ensures !Crashes(db) <==> AllCells(db.tree, Axis(db, Models), Axis(db, Browsers))
  {
    var ms := Axis(db, Models);
    var bs := Axis(db, Browsers);
    AxisMembers(db, Models);
    AxisMembers(db, Browsers);
    if Crashes(db) {
      var m, b :| m in Names(db.keys, [Models]) && b in Names(db.keys, [Browsers]) && !Has(db.tree, [m, b]);
      var i :| 0 <= i < |ms| && ms[i] == m;
      var j :| 0 <= j < |bs| && bs[j] == b;
      assert !Has(db.tree, [ms[i], bs[j]]);
    } else {
      forall i, j | 0 <= i < |ms| && 0 <= j < |bs| ensures Has(db.tree, [ms[i], bs[j]]) {
        assert ms[i] in Names(db.keys, [Models]) && bs[j] in Names(db.keys, [Browsers]);
      }
    }
  }
}
