/** The bounded breadth-first walk of a directory tree that makes a listing. */
module Walk {
  import opened Strs
  import opened Framing
  import opened Sorting
  import opened InventorySpec
  import opened InventoryReports

  datatype DirItem = DirItem(name: Str, isDir: bool, size: Option<u64>, modifiedAtMs: Option<i64>)

  /** The pattern is any predicate on keys; `None` keeps every file. */
  datatype WalkOptions = WalkOptions(recursive: bool, pattern: Option<Str -> bool>, maxFiles: nat, maxDirs: nat)

  /** What the lister answers to its call of a number, for one directory given by
      its path relative to the root: it need not answer alike twice. */
  type Lister = (nat, Str) -> Result<seq<DirItem>, Str>

  /** What the walk makes of one directory: where to go next, what to keep. */
  datatype Dir = Dir(subs: seq<Str>, files: seq<ObjectEntry>)

  type Tree = (nat, Str) -> Result<Dir, Str>

  const SLASH: byte := 47
  const DOT: byte := 46

  function ItemName(item: DirItem): Str {
    item.name
  }

  function EntryKey(entry: ObjectEntry): Str {
    entry.key
  }

  predicate Ignored(name: Str) {
    name == [] || name == [DOT] || name == [DOT, DOT]
  }

  function Join(dir: Str, name: Str): Str {
    if dir == [] then name else dir + [SLASH] + name
  }

  predicate Keeps(o: WalkOptions, item: DirItem, key: Str) {
    !Ignored(item.name) && !item.isDir && (o.pattern.Some? ==> (o.pattern.value)(key))
  }

  predicate Enters(o: WalkOptions, item: DirItem) {
    !Ignored(item.name) && item.isDir && o.recursive
  }

  function EntryOf(item: DirItem, key: Str): ObjectEntry {
    ObjectEntry(key, item.size, item.modifiedAtMs, None, None)
  }

  // ---- One directory ----

  function SubDirs(o: WalkOptions, dir: Str, items: seq<DirItem>): seq<Str> {
    if items == [] then []
    else
      var item := items[|items| - 1];
      SubDirs(o, dir, items[..|items| - 1]) + (if Enters(o, item) then [Join(dir, item.name)] else [])
  }

  function Files(o: WalkOptions, dir: Str, items: seq<DirItem>): seq<ObjectEntry> {
    if items == [] then []
    else
      var item := items[|items| - 1];
      Files(o, dir, items[..|items| - 1])
      + (if Keeps(o, item, Join(dir, item.name)) then [EntryOf(item, Join(dir, item.name))] else [])
  }

  /** A directory, its items taken in name order. */
  function Scanned(o: WalkOptions, lister: Lister, n: nat, dir: Str): Result<Dir, Str> {
    match lister(n, dir)
    case Err(e) => Err(e)
    case Ok(items) =>
      var sorted := StableSort(ItemName, items);
      Ok(Dir(SubDirs(o, dir, sorted), Files(o, dir, sorted)))
  }

  function TreeOf(o: WalkOptions, lister: Lister): Tree {
    (n, dir) => Scanned(o, lister, n, dir)
  }

  method ScanDir(o: WalkOptions, lister: Lister, n: nat, dir: Str) returns (r: Result<Dir, Str>)
    ensures r == Scanned(o, lister, n, dir)
  {
    var listed := lister(n, dir);
    if listed.Err? {
      return Err(listed.error);
    }
    var items := StableSort(ItemName, listed.value);
    var subs: seq<Str>, entries: seq<ObjectEntry> := [], [];
    for i := 0 to |items|
      invariant subs == SubDirs(o, dir, items[..i])
      invariant entries == Files(o, dir, items[..i])
    {
      var item := items[i];
      assert items[..i + 1][..i] == items[..i];
      if Ignored(item.name) {
        continue;
      }
      var key := Join(dir, item.name);
      if item.isDir {
        if o.recursive {
          subs := subs + [key];
        }
        continue;
      }
      if o.pattern.Some? && !(o.pattern.value)(key) {
        continue;
      }
      entries := entries + [EntryOf(item, key)];
    }
    assert items[..|items|] == items;
    return Ok(Dir(subs, entries));
  }

  // ---- What a walk computes ----

  /** The directories listed from `queue` on, from the `n`th call on, at most
      `budget` of them, or the first error. */
  ghost function Explore(t: Tree, queue: seq<Str>, n: nat, budget: nat): Result<seq<Str>, Str>
    decreases budget
  {
    if queue == [] || budget == 0 then Ok([])
    else
      match t(n, queue[0])
      case Err(e) => Err(e)
      case Ok(dir) => Prepend([queue[0]], Explore(t, queue[1..] + dir.subs, n + 1, budget - 1))
  }

  ghost function Prepend(front: seq<Str>, r: Result<seq<Str>, Str>): Result<seq<Str>, Str> {
    match r
    case Err(e) => Err(e)
    case Ok(rest) => Ok(front + rest)
  }

  ghost function FilesOf(t: Tree, n: nat, dir: Str): seq<ObjectEntry> {
    match t(n, dir)
    case Err(_) => []
    case Ok(d) => d.files
  }

  ghost function SubsOf(t: Tree, n: nat, dir: Str): seq<Str> {
    match t(n, dir)
    case Err(_) => []
    case Ok(d) => d.subs
  }

  /** The files of `dirs`, in the order found. */
  ghost function Found(t: Tree, dirs: seq<Str>): seq<ObjectEntry> {
    if dirs == [] then [] else Found(t, dirs[..|dirs| - 1]) + FilesOf(t, |dirs| - 1, dirs[|dirs| - 1])
  }

  function Cut<T>(s: seq<T>, n: nat): seq<T> {
    if |s| <= n then s else s[..n]
  }

  /** Sorted by key, the first of each key kept, cut at `max`. */
  function Listing(found: seq<ObjectEntry>, max: nat): seq<ObjectEntry> {
    Cut(Dedup(EntryKey, StableSort(EntryKey, found)), max)
  }

  ghost function Walked(o: WalkOptions, lister: Lister): Result<seq<ObjectEntry>, Str> {
    var t := TreeOf(o, lister);
    match Explore(t, [[]], 0, o.maxDirs)
    case Err(e) => Err(e)
    case Ok(dirs) => Ok(Listing(Found(t, dirs), o.maxFiles))
  }

  // ---- The loop ----

  /** Directories from the root on, breadth first, until none is left or the
      budget is used: the files found, and the directories asked for. */
  method Collect(o: WalkOptions, lister: Lister, ghost t: Tree) returns (r: Result<seq<ObjectEntry>, Str>, asked: seq<Str>)
    requires forall n, d {:trigger Scanned(o, lister, n, d)} :: t(n, d) == Scanned(o, lister, n, d)
    ensures |asked| <= o.maxDirs
    ensures r.Ok? ==> Explore(t, [[]], 0, o.maxDirs) == Ok(asked) && r.value == Found(t, asked)
    ensures r.Err? ==> Explore(t, [[]], 0, o.maxDirs) == Err(r.error) && asked != [] && t(|asked| - 1, asked[|asked| - 1]) == Err(r.error)
  {
    ghost var all := Explore(t, [[]], 0, o.maxDirs);
    var entries: seq<ObjectEntry> := [];
    var dirs: seq<Str> := [[]];
    asked := [];
    PrependNothing(all);
    while dirs != []
      invariant |asked| <= o.maxDirs
      invariant entries == Found(t, asked)
      invariant all == Prepend(asked, Explore(t, dirs, |asked|, o.maxDirs - |asked|))
      decreases o.maxDirs - |asked|
    {
      if |asked| == o.maxDirs {
        break;
      }
      var dir := dirs[0];
      ExploreStep(t, all, asked, dirs, o.maxDirs - |asked|);
      dirs := dirs[1..];
      var listed := ScanDir(o, lister, |asked|, dir);
      asked := asked + [dir];
      if listed.Err? {
        return Err(listed.error), asked;
      }
      dirs := dirs + listed.value.subs;
      entries := entries + listed.value.files;
    }
    PrependEnd(asked);
    return Ok(entries), asked;
  }

  /** The listing under the root, and the directories that were asked for; any
      error of the lister leaves no listing. */
  method WalkTree(o: WalkOptions, lister: Lister) returns (r: Result<seq<ObjectEntry>, Str>, asked: seq<Str>)
    ensures r == Walked(o, lister)
    ensures |asked| <= o.maxDirs
    ensures r.Ok? ==> Explore(TreeOf(o, lister), [[]], 0, o.maxDirs) == Ok(asked)
    ensures r.Ok? && Unchanging(TreeOf(o, lister)) && |asked| < o.maxDirs && |r.value| < o.maxFiles ==>
              ListsAll(o, lister, r.value)
    ensures r.Err? ==> asked != [] && lister(|asked| - 1, asked[|asked| - 1]) == Err(r.error)
  {
    var entries;
    entries, asked := Collect(o, lister, TreeOf(o, lister));
    if entries.Err? {
      return Err(entries.error), asked;
    }
    r := Ok(Listing(entries.value, o.maxFiles));
    if Unchanging(TreeOf(o, lister)) && |asked| < o.maxDirs && |r.value| < o.maxFiles {
      UncutListsAll(o, lister, TreeOf(o, lister), asked);
    }
  }

  lemma PrependNothing(r: Result<seq<Str>, Str>)
    ensures Prepend([], r) == r
  {
    if r.Ok? {
      assert [] + r.value == r.value;
    }
  }

  lemma PrependEnd(front: seq<Str>)
    ensures Prepend(front, Ok([])) == Ok(front)
  {
    assert front + [] == front;
  }

  lemma PrependTwice(a: seq<Str>, b: seq<Str>, r: Result<seq<Str>, Str>)
    ensures Prepend(a, Prepend(b, r)) == Prepend(a + b, r)
  {
    if r.Ok? {
      assert a + (b + r.value) == a + b + r.value;
    }
  }

  lemma FoundAppend(t: Tree, dirs: seq<Str>, dir: Str)
    ensures Found(t, dirs + [dir]) == Found(t, dirs) + FilesOf(t, |dirs|, dir)
  {
  }

  /** One turn of the loop. */
  lemma ExploreStep(t: Tree, all: Result<seq<Str>, Str>, asked: seq<Str>, queue: seq<Str>, budget: nat)
    requires queue != [] && budget > 0 && all == Prepend(asked, Explore(t, queue, |asked|, budget))
    ensures match t(|asked|, queue[0])
            case Err(e) => all == Err(e)
            case Ok(dir) =>
              && all == Prepend(asked + [queue[0]], Explore(t, queue[1..] + dir.subs, |asked| + 1, budget - 1))
              && Found(t, asked + [queue[0]]) == Found(t, asked) + dir.files
  {
    if t(|asked|, queue[0]).Ok? {
      FoundAppend(t, asked, queue[0]);
      PrependTwice(asked, [queue[0]], Explore(t, queue[1..] + t(|asked|, queue[0]).value.subs, |asked| + 1, budget - 1));
    }
  }

  // ---- Breadth-first order ----

  /** The subdirectories of `dirs`, listed from the `n`th call on, in order. */
  ghost function Children(t: Tree, n: nat, dirs: seq<Str>): seq<Str>
    decreases |dirs|
  {
    if dirs == [] then [] else SubsOf(t, n, dirs[0]) + Children(t, n + 1, dirs[1..])
  }

  ghost predicate Answered(t: Tree, n: nat, dirs: seq<Str>) {
    forall i | 0 <= i < |dirs| :: t(n + i, dirs[i]).Ok?
  }

  /** The directories listed are the queue followed by the subdirectories of
      those listed, in order, cut at the budget: breadth-first name order. */
  lemma {:induction false} ExploreIsBreadthFirst(t: Tree, queue: seq<Str>, n: nat, budget: nat)
    requires Explore(t, queue, n, budget).Ok?
    ensures var v := Explore(t, queue, n, budget).value;
            v == Cut(queue + Children(t, n, v), budget) && Answered(t, n, v)
    decreases budget
  {
    if queue != [] && budget > 0 {
      var next := queue[1..] + t(n, queue[0]).value.subs;
      ExploreIsBreadthFirst(t, next, n + 1, budget - 1);
      var rest := Explore(t, next, n + 1, budget - 1).value;
      ChildrenStep(t, queue, n, rest);
      CutCons(queue[0], next + Children(t, n + 1, rest), budget);
      AnsweredCons(t, n, queue[0], rest);
    } else {
      assert Children(t, n, []) == [];
    }
  }

  lemma AnsweredCons(t: Tree, n: nat, dir: Str, rest: seq<Str>)
    requires t(n, dir).Ok? && Answered(t, n + 1, rest)
    ensures Answered(t, n, [dir] + rest)
  {
    forall i | 0 <= i < |[dir] + rest|
      ensures t(n + i, ([dir] + rest)[i]).Ok?
    {
      if i > 0 {
        assert t(n + 1 + (i - 1), rest[i - 1]).Ok?;
      }
    }
  }

  lemma ChildrenStep(t: Tree, queue: seq<Str>, n: nat, rest: seq<Str>)
    requires queue != []
    ensures queue + Children(t, n, [queue[0]] + rest)
         == [queue[0]] + (queue[1..] + SubsOf(t, n, queue[0]) + Children(t, n + 1, rest))
  {
    assert ([queue[0]] + rest)[1..] == rest;
    Regroup(queue, SubsOf(t, n, queue[0]), Children(t, n + 1, rest));
  }

  lemma Regroup(queue: seq<Str>, subs: seq<Str>, rest: seq<Str>)
    requires queue != []
    ensures queue + (subs + rest) == [queue[0]] + (queue[1..] + subs + rest)
  {
  }

  lemma CutCons(x: Str, s: seq<Str>, n: nat)
    requires n > 0
    ensures Cut([x] + s, n) == [x] + Cut(s, n - 1)
  {
  }

  /** A larger budget lists the same directories first. */
  lemma {:induction false} ExploreBudget(t: Tree, queue: seq<Str>, n: nat, budget: nat, more: nat)
    requires budget <= more && Explore(t, queue, n, more).Ok?
    ensures Explore(t, queue, n, budget) == Ok(Cut(Explore(t, queue, n, more).value, budget))
    decreases budget
  {
    if queue != [] && budget > 0 {
      var next := queue[1..] + t(n, queue[0]).value.subs;
      ExploreBudget(t, next, n + 1, budget - 1, more - 1);
      var rest := Explore(t, next, n + 1, more - 1).value;
      CutCons(queue[0], rest, budget);
    }
  }

  // ---- Completeness, of a tree that stays as it is ----

  /** Every call about a directory gets the same answer. */
  ghost predicate Unchanging(t: Tree) {
    forall n, d :: t(n, d) == t(0, d)
  }

  /** Each directory is a subdirectory of the one before, from the root. */
  ghost predicate PathTo(t: Tree, path: seq<Str>, dir: Str) {
    && path != [] && path[0] == [] && path[|path| - 1] == dir
    && forall i | 0 < i < |path| :: path[i] in SubsOf(t, 0, path[i - 1])
  }

  ghost predicate Reachable(t: Tree, dir: Str) {
    exists path :: PathTo(t, path, dir)
  }

  /** The walk listed everything there was to list. */
  ghost predicate Complete(t: Tree, dirs: seq<Str>) {
    dirs == [[]] + Children(t, 0, dirs)
  }

  lemma {:induction false} ChildrenHas(t: Tree, n: nat, dirs: seq<Str>, dir: Str, k: Str)
    requires Unchanging(t) && dir in dirs && k in SubsOf(t, 0, dir)
    ensures k in Children(t, n, dirs)
    decreases |dirs|
  {
    if dirs[0] != dir {
      assert dir in dirs[1..];
      ChildrenHas(t, n + 1, dirs[1..], dir, k);
    } else {
      assert t(n, dir) == t(0, dir);
    }
  }

  lemma {:induction false} ReachableListed(t: Tree, dirs: seq<Str>, path: seq<Str>, dir: Str)
    requires Unchanging(t) && Complete(t, dirs) && PathTo(t, path, dir)
    ensures dir in dirs
  {
    if |path| > 1 {
      var init, prev := path[..|path| - 1], path[|path| - 2];
      ReachableListed(t, dirs, init, prev);
      ChildrenHas(t, 0, dirs, prev, dir);
    } else {
      assert dirs[0] == [];
    }
  }

  lemma RootReachable(t: Tree)
    ensures Reachable(t, [])
  {
    assert PathTo(t, [[]], []);
  }

  lemma ReachableStep(t: Tree, dir: Str, sub: Str)
    requires Reachable(t, dir) && sub in SubsOf(t, 0, dir)
    ensures Reachable(t, sub)
  {
    var path :| PathTo(t, path, dir);
    var longer := path + [sub];
    assert forall i | 0 <= i < |path| :: longer[i] == path[i];
    assert PathTo(t, longer, sub);
  }

  lemma {:induction false} ListedReachable(t: Tree, queue: seq<Str>, n: nat, budget: nat)
    requires Unchanging(t) && Explore(t, queue, n, budget).Ok?
    requires forall d <- queue :: Reachable(t, d)
    ensures forall d <- Explore(t, queue, n, budget).value :: Reachable(t, d)
    decreases budget
  {
    if queue != [] && budget > 0 {
      assert queue[0] in queue && t(n, queue[0]) == t(0, queue[0]);
      forall d <- SubsOf(t, 0, queue[0])
        ensures Reachable(t, d)
      {
        ReachableStep(t, queue[0], d);
      }
      assert forall d <- queue[1..] :: d in queue;
      ListedReachable(t, queue[1..] + t(n, queue[0]).value.subs, n + 1, budget - 1);
    }
  }

  lemma {:induction false} FoundHas(t: Tree, dirs: seq<Str>, dir: Str, e: ObjectEntry)
    requires Unchanging(t) && dir in dirs && e in FilesOf(t, 0, dir)
    ensures e in Found(t, dirs)
  {
    if dirs[|dirs| - 1] != dir {
      assert dir in dirs[..|dirs| - 1];
      FoundHas(t, dirs[..|dirs| - 1], dir, e);
    } else {
      assert t(|dirs| - 1, dir) == t(0, dir);
    }
  }

  lemma {:induction false} FoundOnly(t: Tree, dirs: seq<Str>, e: ObjectEntry) returns (dir: Str)
    requires Unchanging(t) && e in Found(t, dirs)
    ensures dir in dirs && e in FilesOf(t, 0, dir)
  {
    dir := dirs[|dirs| - 1];
    assert t(|dirs| - 1, dir) == t(0, dir);
    if e !in FilesOf(t, 0, dir) {
      dir := FoundOnly(t, dirs[..|dirs| - 1], e);
    }
  }

  lemma {:induction false} FilesAre(o: WalkOptions, dir: Str, items: seq<DirItem>, e: ObjectEntry)
    ensures e in Files(o, dir, items)
            <==> exists item :: item in items && Keeps(o, item, Join(dir, item.name)) && e == EntryOf(item, Join(dir, item.name))
  {
    if items != [] {
      FilesAre(o, dir, items[..|items| - 1], e);
      assert items == items[..|items| - 1] + [items[|items| - 1]];
    }
  }

  // What the options mean, in terms of what the lister answers.

  /** An item with a name of its own, and its path under `dir`. */
  ghost predicate NamedUnder(dir: Str, item: DirItem, path: Str) {
    && item.name != [] && item.name != Ascii(".") && item.name != Ascii("..")
    && path == if dir == [] then item.name else dir + Ascii("/") + item.name
  }

  /** A subdirectory is entered only by a recursive walk. */
  ghost predicate Subdirectory(o: WalkOptions, lister: Lister, dir: Str, sub: Str) {
    && o.recursive && lister(0, dir).Ok?
    && exists item :: item in lister(0, dir).value && item.isDir && NamedUnder(dir, item, sub)
  }

  ghost predicate LeadsTo(o: WalkOptions, lister: Lister, path: seq<Str>, dir: Str) {
    && path != [] && path[0] == [] && path[|path| - 1] == dir
    && forall i | 0 < i < |path| :: Subdirectory(o, lister, path[i - 1], path[i])
  }

  /** The root leads to the directory. */
  ghost predicate Reaches(o: WalkOptions, lister: Lister, dir: Str) {
    exists path :: LeadsTo(o, lister, path, dir)
  }

  /** `e` is the entry of a file of a directory the root leads to, under its path,
      which matches the pattern if there is one. */
  ghost predicate IsFile(o: WalkOptions, lister: Lister, dir: Str, item: DirItem, e: ObjectEntry) {
    && Reaches(o, lister, dir)
    && lister(0, dir).Ok? && item in lister(0, dir).value && !item.isDir
    && NamedUnder(dir, item, e.key) && (o.pattern.Some? ==> (o.pattern.value)(e.key))
    && e.size == item.size && e.modifiedAtMs == item.modifiedAtMs && e.etag.None? && e.version.None?
  }

  lemma Names(dir: Str, item: DirItem, path: Str)
    ensures NamedUnder(dir, item, path) <==> !Ignored(item.name) && path == Join(dir, item.name)
  {
    assert Ascii(".") == [46] && Ascii("..") == [46, 46] && Ascii("/") == [47];
  }

  lemma {:induction false} SubDirsAre(o: WalkOptions, dir: Str, items: seq<DirItem>, sub: Str)
    ensures sub in SubDirs(o, dir, items) <==> exists item :: item in items && Enters(o, item) && sub == Join(dir, item.name)
  {
    if items != [] {
      SubDirsAre(o, dir, items[..|items| - 1], sub);
      assert items == items[..|items| - 1] + [items[|items| - 1]];
    }
  }

  lemma SubsAre(o: WalkOptions, lister: Lister, dir: Str, sub: Str)
    ensures sub in SubsOf(TreeOf(o, lister), 0, dir) <==> Subdirectory(o, lister, dir, sub)
  {
    if lister(0, dir).Ok? {
      var items := lister(0, dir).value;
      SortMembers(ItemName, items);
      SubDirsAre(o, dir, StableSort(ItemName, items), sub);
      forall item: DirItem
        ensures NamedUnder(dir, item, sub) <==> !Ignored(item.name) && sub == Join(dir, item.name)
      {
        Names(dir, item, sub);
      }
    }
  }

  lemma ReachesIs(o: WalkOptions, lister: Lister, dir: Str)
    ensures Reachable(TreeOf(o, lister), dir) <==> Reaches(o, lister, dir)
  {
    var t := TreeOf(o, lister);
    forall path: seq<Str>
      ensures PathTo(t, path, dir) <==> LeadsTo(o, lister, path, dir)
    {
      forall i | 0 < i < |path|
        ensures path[i] in SubsOf(t, 0, path[i - 1]) <==> Subdirectory(o, lister, path[i - 1], path[i])
      {
        SubsAre(o, lister, path[i - 1], path[i]);
      }
    }
  }

  lemma KeptIs(o: WalkOptions, lister: Lister, dir: Str, item: DirItem, e: ObjectEntry)
    requires Reaches(o, lister, dir) && lister(0, dir).Ok?
    ensures IsFile(o, lister, dir, item, e)
       <==> item in lister(0, dir).value && Keeps(o, item, Join(dir, item.name)) && e == EntryOf(item, Join(dir, item.name))
  {
    Names(dir, item, e.key);
  }

  lemma SortedFilesAre(o: WalkOptions, dir: Str, items: seq<DirItem>, e: ObjectEntry)
    ensures e in Files(o, dir, StableSort(ItemName, items))
            <==> exists item :: item in items && Keeps(o, item, Join(dir, item.name)) && e == EntryOf(item, Join(dir, item.name))
  {
    var sorted := StableSort(ItemName, items);
    SortMembers(ItemName, items);
    FilesAre(o, dir, sorted, e);
    if item :| item in items && Keeps(o, item, Join(dir, item.name)) && e == EntryOf(item, Join(dir, item.name)) {
      assert item in sorted;
    }
    if item :| item in sorted && Keeps(o, item, Join(dir, item.name)) && e == EntryOf(item, Join(dir, item.name)) {
      assert item in items;
    }
  }

  lemma FilesOfDir(o: WalkOptions, lister: Lister, dir: Str, e: ObjectEntry)
    requires Reaches(o, lister, dir)
    ensures e in FilesOf(TreeOf(o, lister), 0, dir) <==> exists item :: IsFile(o, lister, dir, item, e)
  {
    if lister(0, dir).Ok? {
      SortedFilesAre(o, dir, lister(0, dir).value, e);
      FilesOfOk(o, lister, dir);
      forall item
        ensures IsFile(o, lister, dir, item, e)
           <==> item in lister(0, dir).value && Keeps(o, item, Join(dir, item.name)) && e == EntryOf(item, Join(dir, item.name))
      {
        KeptIs(o, lister, dir, item, e);
      }
    }
  }

  lemma FilesOfOk(o: WalkOptions, lister: Lister, dir: Str)
    requires lister(0, dir).Ok?
    ensures FilesOf(TreeOf(o, lister), 0, dir) == Files(o, dir, StableSort(ItemName, lister(0, dir).value))
  {
  }

  /** What a walk finds of a tree that stays as it is when `max_dirs` does not cut
      it: exactly the matching files of the directories the root leads to, all of
      which were listed. */
  lemma FoundIsComplete(o: WalkOptions, lister: Lister, e: ObjectEntry)
    requires var t := TreeOf(o, lister);
             && Unchanging(t) && Explore(t, [[]], 0, o.maxDirs).Ok?
             && |Explore(t, [[]], 0, o.maxDirs).value| < o.maxDirs
    ensures var t := TreeOf(o, lister);
            var dirs := Explore(t, [[]], 0, o.maxDirs).value;
            && (e in Found(t, dirs) <==> exists dir, item :: IsFile(o, lister, dir, item, e))
            && (forall d :: d in dirs <==> Reaches(o, lister, d))
            && (forall d | Reaches(o, lister, d) :: lister(0, d).Ok?)
  {
    var t := TreeOf(o, lister);
    var dirs := Explore(t, [[]], 0, o.maxDirs).value;
    RootReachable(t);
    ListedReachable(t, [[]], 0, o.maxDirs);
    ExploreIsBreadthFirst(t, [[]], 0, o.maxDirs);
    assert Complete(t, dirs);
    forall d | Reachable(t, d)
      ensures d in dirs && lister(0, d).Ok?
    {
      var path :| PathTo(t, path, d);
      ReachableListed(t, dirs, path, d);
      var i :| 0 <= i < |dirs| && dirs[i] == d;
      assert t(0 + i, dirs[i]).Ok? && t(i, d) == t(0, d);
    }
    forall d
      ensures Reachable(t, d) <==> Reaches(o, lister, d)
    {
      ReachesIs(o, lister, d);
    }
    if e in Found(t, dirs) {
      var dir := FoundOnly(t, dirs, e);
      FilesOfDir(o, lister, dir, e);
    }
    if dir, item :| IsFile(o, lister, dir, item, e) {
      FilesOfDir(o, lister, dir, e);
      FoundHas(t, dirs, dir, e);
    }
  }

  ghost predicate IsAFile(o: WalkOptions, lister: Lister, e: ObjectEntry) {
    exists dir, item :: IsFile(o, lister, dir, item, e)
  }

  /** A listing of everything: files that are there, one for every key that has one,
      strictly sorted. */
  ghost predicate ListsAll(o: WalkOptions, lister: Lister, r: seq<ObjectEntry>) {
    && StrictlyAscending(EntryKey, r)
    && (forall e <- r :: IsAFile(o, lister, e))
    && (forall e | IsAFile(o, lister, e) :: e.key in KeysIn(EntryKey, r))
  }

  lemma UncutListsAll(o: WalkOptions, lister: Lister, t: Tree, dirs: seq<Str>)
    requires t == TreeOf(o, lister) && Unchanging(t) && Explore(t, [[]], 0, o.maxDirs) == Ok(dirs)
    requires |dirs| < o.maxDirs
    ensures var r := Listing(Found(t, dirs), o.maxFiles); |r| < o.maxFiles ==> ListsAll(o, lister, r)
  {
    var found := Found(t, dirs);
    var r := Listing(found, o.maxFiles);
    if |r| < o.maxFiles {
      forall e
        ensures e in found <==> IsAFile(o, lister, e)
      {
        FoundIsComplete(o, lister, e);
      }
      AllListed(o, lister, found, r);
    }
  }

  lemma AllListed(o: WalkOptions, lister: Lister, found: seq<ObjectEntry>, r: seq<ObjectEntry>)
    requires forall e :: e in found <==> IsAFile(o, lister, e)
    requires r == Listing(found, o.maxFiles) && |r| < o.maxFiles
    ensures ListsAll(o, lister, r)
  {
    ListingIsFirstKeys(found, o.maxFiles, []);
    forall e | IsAFile(o, lister, e)
      ensures e.key in KeysIn(EntryKey, r)
    {
      assert e in found && EntryKey(e) == e.key;
      ListingIsFirstKeys(found, o.maxFiles, e.key);
    }
  }

  /** The listing made of what was found: strictly sorted by key, one entry a
      key, the first found; when `max_files` cuts it, nothing smaller is left out. */
  lemma ListingIsFirstKeys(found: seq<ObjectEntry>, max: nat, k: Str)
    ensures var r := Listing(found, max);
            && StrictlyAscending(EntryKey, r) && |r| <= max
            && (forall e <- r :: e in found && FirstWith(EntryKey, found, e.key) == Some(e))
            && (k in KeysIn(EntryKey, found) && k !in KeysIn(EntryKey, r) ==>
                  |r| == max && forall e <- r :: Lt(e.key, k))
  {
    var all := Dedup(EntryKey, StableSort(EntryKey, found));
    SortDedupCanonical(EntryKey, found);
    var r := Listing(found, max);
    forall e <- r
      ensures e in found && FirstWith(EntryKey, found, e.key) == Some(e)
    {
      var i :| 0 <= i < |r| && r[i] == e;
      assert all[i] == e;
      FirstWithSome(EntryKey, found, EntryKey(e));
    }
    if k in KeysIn(EntryKey, found) && k !in KeysIn(EntryKey, r) {
      assert k in KeysIn(EntryKey, all);
      var i :| 0 <= i < |all| && EntryKey(all[i]) == k;
      assert forall j | 0 <= j < |r| :: r[j] == all[j];
    }
  }

  // ---- Independence of the lister's order ----

  /** The same items in every answer, in any order, names distinct. */
  ghost predicate SameTree(a: Lister, b: Lister) {
    forall n, d :: match (a(n, d), b(n, d))
                   case (Ok(x), Ok(y)) => multiset(x) == multiset(y) && DistinctBy(ItemName, x)
                   case (Err(e), Err(f)) => e == f
                   case _ => false
  }

  lemma SameScan(o: WalkOptions, a: Lister, b: Lister, n: nat, dir: Str)
    requires SameTree(a, b)
    ensures TreeOf(o, a)(n, dir) == TreeOf(o, b)(n, dir)
  {
    if a(n, dir).Ok? {
      assert b(n, dir).Ok?;
      SortPermutation(ItemName, a(n, dir).value, b(n, dir).value);
    }
  }

  lemma {:induction false} SameExplore(s: Tree, t: Tree, queue: seq<Str>, n: nat, budget: nat)
    requires forall m, d :: s(m, d) == t(m, d)
    ensures Explore(s, queue, n, budget) == Explore(t, queue, n, budget)
    decreases budget
  {
    if queue != [] && budget > 0 && s(n, queue[0]).Ok? {
      SameExplore(s, t, queue[1..] + s(n, queue[0]).value.subs, n + 1, budget - 1);
    }
  }

  lemma {:induction false} SameFound(s: Tree, t: Tree, dirs: seq<Str>)
    requires forall n, d :: s(n, d) == t(n, d)
    ensures Found(s, dirs) == Found(t, dirs)
  {
    if dirs != [] {
      SameFound(s, t, dirs[..|dirs| - 1]);
    }
  }

  /** The order in which directories are answered never shows, cut or not. */
  lemma WalkIgnoresOrder(o: WalkOptions, a: Lister, b: Lister)
    requires SameTree(a, b)
    ensures Walked(o, a) == Walked(o, b)
  {
    var s, t := TreeOf(o, a), TreeOf(o, b);
    forall n, d
      ensures s(n, d) == t(n, d)
    {
      SameScan(o, a, b, n, d);
    }
    SameExplore(s, t, [[]], 0, o.maxDirs);
    if Explore(s, [[]], 0, o.maxDirs).Ok? {
      SameFound(s, t, Explore(s, [[]], 0, o.maxDirs).value);
    }
  }

  /** So walking an unchanged tree again reports nothing, even cut. */
  lemma UnchangedTreeIsSilent(wo: WalkOptions, a: Lister, b: Lister, o: Options, s: State, now: nat)
    requires SameTree(a, b) && Walked(wo, a).Ok? && !s.gap && !s.baseline.Silent?
    requires s.confirmed == Digests(o.env, Current(Walked(wo, a).value))
    ensures Walked(wo, b).Ok? && Polled(o, s, Walked(wo, b).value, now).1 == []
  {
    WalkIgnoresOrder(wo, a, b);
    NothingDue(o, s, Current(Walked(wo, a).value), now);
  }
}
