/**
  Recursive removal of rust/src/provider_fs.rs (`remove_directory_tree`), on a
  filesystem that is a tree and may fail anywhere: `read_dir`, then one child
  after another, emptied first if it is a directory, up to the first failure.
*/
module DirectoryTree {
  import opened Bytes
  import opened PackageFiles

  /** Everything in a filesystem. */
  function Nodes(directories: set<Path>, files: set<Path>): set<Path> {
    directories + files
  }

  /** Every node but the root is in a directory, and none is both. */
  ghost predicate IsTree(directories: set<Path>, files: set<Path>) {
    && [] in directories
    && directories !! files
    && forall p | p in Nodes(directories, files) && p != [] :: p[..|p| - 1] in directories
  }

  predicate AtOrBelow(c: Path, p: Path) {
    c <= p
  }

  function Children(nodes: set<Path>, path: Path): set<Path> {
    set p | p in nodes && Above(path, p) && |p| == |path| + 1
  }

  function Below(nodes: set<Path>, path: Path): set<Path> {
    set p | p in nodes && Above(path, p)
  }

  /** Whatever is below a path is at or below one of its children. */
  lemma {:induction false} UnderAChild(directories: set<Path>, files: set<Path>, path: Path, p: Path)
    requires IsTree(directories, files) && p in Nodes(directories, files) && Above(path, p)
    ensures p[..|path| + 1] in Children(Nodes(directories, files), path) && AtOrBelow(p[..|path| + 1], p)
    decreases |p|
  {
    if |p| > |path| + 1 {
      var parent := p[..|p| - 1];
      UnderAChild(directories, files, path, parent);
      assert parent[..|path| + 1] == p[..|path| + 1];
    } else {
      assert p[..|path| + 1] == p;
    }
  }

  /** Two children have nothing below them in common. */
  lemma ChildrenAreApart(path: Path, c: Path, d: Path, p: Path)
    requires Above(path, c) && Above(path, d) && |c| == |d| == |path| + 1
    requires AtOrBelow(c, p) && AtOrBelow(d, p)
    ensures c == d
  {
    assert c == p[..|c|] && d == p[..|d|];
  }

  /** What is left when some children, and all below them, are gone. */
  ghost predicate Pruned(was: set<Path>, now: set<Path>, gone: set<Path>) {
    forall p :: p in now <==> p in was && forall c | c in gone :: !AtOrBelow(c, p)
  }

  /** What is left when a node, and all below it, is gone. */
  ghost predicate Without(now: set<Path>, next: set<Path>, c: Path) {
    forall p :: p in next <==> p in now && !AtOrBelow(c, p)
  }

  lemma PruneMore(was: set<Path>, now: set<Path>, next: set<Path>, gone: set<Path>, c: Path)
    requires Pruned(was, now, gone) && Without(now, next, c)
    ensures Pruned(was, next, gone + {c})
  {
  }

  /** Removing a node and all below it leaves a tree. */
  lemma StaysATree(directories: set<Path>, files: set<Path>, directories': set<Path>, files': set<Path>, gone: set<Path>)
    requires IsTree(directories, files) && [] !in gone
    requires Pruned(directories, directories', gone) && Pruned(files, files', gone)
    ensures IsTree(directories', files')
  {
    forall p | p in Nodes(directories', files') && p != [] ensures p[..|p| - 1] in directories' {
      assert forall c | c in gone :: AtOrBelow(c, p[..|p| - 1]) ==> AtOrBelow(c, p);
    }
    assert forall c | c in gone :: !AtOrBelow(c, []);
  }

  /** The files that are left have the bytes they had. */
  ghost predicate Keeps(was: map<Path, seq<Byte>>, now: map<Path, seq<Byte>>) {
    forall p | p in now :: p in was && now[p] == was[p]
  }

  lemma KeepsOn(was: map<Path, seq<Byte>>, now: map<Path, seq<Byte>>, next: map<Path, seq<Byte>>)
    requires Keeps(was, now) && Keeps(now, next)
    ensures Keeps(was, next)
  {
  }

  /** The loop stands where the children in `gone` are removed and those in `rest` are not. */
  ghost predicate Clearing(directories: set<Path>, files: set<Path>, directories': set<Path>, files': set<Path>, path: Path,
                           gone: set<Path>, rest: set<Path>) {
    && rest !! gone && rest + gone == Children(Nodes(directories, files), path)
    && Pruned(directories, directories', gone) && Pruned(files, files', gone)
  }

  lemma ClearMore(directories: set<Path>, files: set<Path>, directories': set<Path>, files': set<Path>, path: Path,
                  gone: set<Path>, rest: set<Path>, c: Path, directories'': set<Path>, files'': set<Path>)
    requires Clearing(directories, files, directories', files', path, gone, rest) && c in rest
    requires Without(directories', directories'', c) && Without(files', files'', c)
    ensures Clearing(directories, files, directories'', files'', path, gone + {c}, rest - {c})
  {
    PruneMore(directories, directories', directories'', gone, c);
    PruneMore(files, files', files'', gone, c);
  }

  // ----- a filesystem that may fail -----

  /** The nodes that cannot be listed or looked up, and those that cannot be removed. What fails changes nothing. */
  datatype Faults = Faults(unreadable: set<Path>, stuck: set<Path>)

  predicate Faulty(faults: Faults, p: Path) {
    p in faults.unreadable || p in faults.stuck
  }

  /** Nothing fails at a node or below it. */
  ghost predicate Removable(faults: Faults, nodes: set<Path>, c: Path) {
    forall p | p in nodes && AtOrBelow(c, p) :: !Faulty(faults, p)
  }

  /** A node can be listed, and nothing fails below it. */
  ghost predicate Clearable(faults: Faults, nodes: set<Path>, path: Path) {
    path !in faults.unreadable && forall p | p in nodes && Above(path, p) :: !Faulty(faults, p)
  }

  /** Whatever happens, a node at which the filesystem fails is still there. */
  ghost predicate FaultyStay(faults: Faults, was: set<Path>, now: set<Path>) {
    forall p | p in was && Faulty(faults, p) :: p in now
  }

  /** Some of what is below a path may be gone, and nothing else. */
  ghost predicate Spares(was: set<Path>, now: set<Path>, path: Path) {
    now <= was && forall p | p in was && !Above(path, p) :: p in now
  }

  /** Some of what is at or below a node may be gone, and nothing else. */
  ghost predicate SparesAround(was: set<Path>, now: set<Path>, c: Path) {
    now <= was && forall p | p in was && !AtOrBelow(c, p) :: p in now
  }

  /** The attempt at one more child keeps to what is below their parent. */
  lemma SparesBelow(was: set<Path>, now: set<Path>, next: set<Path>, path: Path, gone: set<Path>, c: Path)
    requires Pruned(was, now, gone) && SparesAround(now, next, c) && Above(path, c)
    requires forall d | d in gone :: Above(path, d)
    ensures Spares(was, next, path)
  {
    assert forall d, p | d in gone && AtOrBelow(d, p) :: Above(path, p);
    assert forall p | AtOrBelow(c, p) :: Above(path, p);
  }

  method ReadDir(fs: FileSystem, faults: Faults, path: Path) returns (children: Option<set<Path>>)
    ensures children == if path in fs.directories && path !in faults.unreadable
                        then Some(Children(Nodes(fs.directories, fs.files.Keys), path)) else None
  {
    if path !in fs.directories || path in faults.unreadable { return None; }
    children := Some(Children(fs.directories + fs.files.Keys, path));
  }

  /** `metadata().is_dir()` of an entry. */
  method IsDirectory(fs: FileSystem, faults: Faults, c: Path) returns (answer: Option<bool>)
    requires c in Nodes(fs.directories, fs.files.Keys)
    ensures answer == if c in faults.unreadable then None else Some(c in fs.directories)
  {
    answer := if c in faults.unreadable then None else Some(c in fs.directories);
  }

  /** `remove_dir` of an empty directory. */
  method RemoveDir(fs: FileSystem, faults: Faults, path: Path) returns (ok: bool)
    modifies fs`directories
    ensures ok <==> path in old(fs.directories) && path !in faults.stuck
                    && Children(Nodes(old(fs.directories), fs.files.Keys), path) == {}
    ensures fs.directories == if ok then old(fs.directories) - {path} else old(fs.directories)
  {
    ok := path in fs.directories && path !in faults.stuck && Children(fs.directories + fs.files.Keys, path) == {};
    if ok { fs.directories := fs.directories - {path}; }
  }

  method RemoveFile(fs: FileSystem, faults: Faults, path: Path) returns (ok: bool)
    modifies fs`files
    ensures ok <==> path in old(fs.files) && path !in faults.stuck
    ensures fs.files == if ok then old(fs.files) - {path} else old(fs.files)
  {
    ok := path in fs.files && path !in faults.stuck;
    if ok { fs.files := fs.files - {path}; }
  }

  lemma FewerBelow(nodes: set<Path>, now: set<Path>, path: Path, c: Path)
    requires now <= nodes && c in nodes && Above(path, c)
    ensures |Below(now, c)| < |Below(nodes, path)|
  {
    assert Below(now, c) <= Below(nodes, path) - {c};
    Smaller(Below(now, c), Below(nodes, path) - {c});
    assert c in Below(nodes, path);
  }

  lemma {:induction false} Smaller(a: set<Path>, b: set<Path>)
    requires a <= b
    ensures |a| <= |b|
  {
    if a != {} {
      var x :| x in a;
      Smaller(a - {x}, b - {x});
    }
  }

  /** When all children are gone, so is everything below, and nothing else. */
  lemma AllBelowIsGone(directories: set<Path>, files: set<Path>, was: set<Path>, now: set<Path>, path: Path, gone: set<Path>)
    requires IsTree(directories, files) && (was == directories || was == files)
    requires gone == Children(Nodes(directories, files), path) && Pruned(was, now, gone)
    ensures forall p :: p in now <==> p in was && !Above(path, p)
  {
    forall p | p in was && Above(path, p) ensures p !in now {
      UnderAChild(directories, files, path, p);
    }
    assert forall p, c | c in gone && AtOrBelow(c, p) :: Above(path, p);
  }

  /** A child that is still to come has lost nothing: it is there, and has less below it than its parent had. */
  lemma NextChild(directories: set<Path>, files: set<Path>, directories': set<Path>, files': set<Path>,
                  path: Path, gone: set<Path>, c: Path)
    requires IsTree(directories, files) && gone <= Children(Nodes(directories, files), path)
    requires c in Children(Nodes(directories, files), path) && c !in gone
    requires Pruned(directories, directories', gone) && Pruned(files, files', gone)
    ensures IsTree(directories', files') && c in Nodes(directories', files') && c != []
    ensures |Below(Nodes(directories', files'), c)| < |Below(Nodes(directories, files), path)|
  {
    StaysATree(directories, files, directories', files', gone);
    forall d | d in gone ensures !AtOrBelow(d, c) {
      if AtOrBelow(d, c) { ChildrenAreApart(path, c, d, c); }
    }
    FewerBelow(Nodes(directories, files), Nodes(directories', files'), path, c);
  }

  lemma NothingBelowAFile(directories: set<Path>, files: set<Path>, c: Path, p: Path)
    requires IsTree(directories, files) && c in files && p in Nodes(directories, files)
    ensures !Above(c, p)
  {
    if Above(c, p) {
      UnderAChild(directories, files, c, p);
      HoldsAChild(directories, files, c, p[..|c| + 1]);
    }
  }

  lemma HoldsAChild(directories: set<Path>, files: set<Path>, path: Path, c: Path)
    requires IsTree(directories, files) && c in Children(Nodes(directories, files), path)
    ensures path in directories
  {
    assert c[..|c| - 1] == path;
  }

  /** What is at or below a child that is still to come is what was there at first. */
  lemma RemovableStill(faults: Faults, directories: set<Path>, files: set<Path>, directories': set<Path>, files': set<Path>,
                       path: Path, gone: set<Path>, c: Path)
    requires gone <= Children(Nodes(directories, files), path)
    requires c in Children(Nodes(directories, files), path) && c !in gone
    requires Pruned(directories, directories', gone) && Pruned(files, files', gone)
    ensures Removable(faults, Nodes(directories', files'), c) <==> Removable(faults, Nodes(directories, files), c)
  {
    forall p, d | p in Nodes(directories, files) && AtOrBelow(c, p) && d in gone ensures !AtOrBelow(d, p) {
      if AtOrBelow(d, p) { ChildrenAreApart(path, c, d, p); }
    }
  }

  /** Everything below a path can be removed if and only if every child can. */
  lemma ClearableByChildren(faults: Faults, directories: set<Path>, files: set<Path>, path: Path)
    requires IsTree(directories, files) && path !in faults.unreadable
    ensures Clearable(faults, Nodes(directories, files), path)
       <==> forall c | c in Children(Nodes(directories, files), path) :: Removable(faults, Nodes(directories, files), c)
  {
    var nodes := Nodes(directories, files);
    forall p | p in nodes && Above(path, p)
      ensures p[..|path| + 1] in Children(nodes, path) && AtOrBelow(p[..|path| + 1], p)
    {
      UnderAChild(directories, files, path, p);
    }
    assert forall c, p | c in Children(nodes, path) && AtOrBelow(c, p) :: Above(path, p);
  }

  /**
    `remove_directory_tree`: it succeeds if and only if there is a directory
    that can be listed and the filesystem fails nowhere below it; then nothing
    is left below. Otherwise it stops halfway: the filesystem is a tree as
    before, and only nodes below the path are gone, none at which it fails.
  */
  method RemoveTree(fs: FileSystem, faults: Faults, path: Path) returns (ok: bool)
    requires IsTree(fs.directories, fs.files.Keys)
    modifies fs
    ensures ok <==> path in old(fs.directories) && Clearable(faults, Nodes(old(fs.directories), old(fs.files.Keys)), path)
    ensures IsTree(fs.directories, fs.files.Keys)
    ensures Spares(old(fs.directories), fs.directories, path) && Spares(old(fs.files.Keys), fs.files.Keys, path)
    ensures ok ==> forall p | p in Nodes(fs.directories, fs.files.Keys) :: !Above(path, p)
    ensures FaultyStay(faults, Nodes(old(fs.directories), old(fs.files.Keys)), Nodes(fs.directories, fs.files.Keys))
    ensures Keeps(old(fs.files), fs.files)
    decreases |Below(Nodes(fs.directories, fs.files.Keys), path)|, 1
  {
    var children := ReadDir(fs, faults, path);
    if children.None? { return false; }
    ghost var directories, files := fs.directories, fs.files.Keys;
    ClearableByChildren(faults, directories, files, path);
    ok := RemoveAll(fs, faults, path, children.value);
    if ok {
      AllBelowIsGone(directories, files, directories, fs.directories, path, children.value);
      AllBelowIsGone(directories, files, files, fs.files.Keys, path, children.value);
    }
  }

  /** The loop over the children of a directory; it ends at the first failure. */
  method RemoveAll(fs: FileSystem, faults: Faults, ghost path: Path, children: set<Path>) returns (ok: bool)
    requires IsTree(fs.directories, fs.files.Keys)
    requires children == Children(Nodes(fs.directories, fs.files.Keys), path)
    modifies fs
    ensures ok <==> forall c | c in children :: Removable(faults, Nodes(old(fs.directories), old(fs.files.Keys)), c)
    ensures IsTree(fs.directories, fs.files.Keys)
    ensures ok ==> Pruned(old(fs.directories), fs.directories, children) && Pruned(old(fs.files.Keys), fs.files.Keys, children)
    ensures Spares(old(fs.directories), fs.directories, path) && Spares(old(fs.files.Keys), fs.files.Keys, path)
    ensures FaultyStay(faults, Nodes(old(fs.directories), old(fs.files.Keys)), Nodes(fs.directories, fs.files.Keys))
    ensures Keeps(old(fs.files), fs.files)
    decreases |Below(Nodes(fs.directories, fs.files.Keys), path)|, 0
  {
    ghost var directories, files := fs.directories, fs.files.Keys;
    ghost var gone: set<Path> := {};
    var rest := children;
    while rest != {}
      invariant Clearing(directories, files, fs.directories, fs.files.Keys, path, gone, rest)
      invariant Spares(directories, fs.directories, path) && Spares(files, fs.files.Keys, path)
      invariant FaultyStay(faults, Nodes(directories, files), Nodes(fs.directories, fs.files.Keys))
      invariant forall c | c in gone :: Removable(faults, Nodes(directories, files), c)
      invariant Keeps(old(fs.files), fs.files)
      decreases |rest|
    {
      var c :| c in rest;
      NextChild(directories, files, fs.directories, fs.files.Keys, path, gone, c);
      RemovableStill(faults, directories, files, fs.directories, fs.files.Keys, path, gone, c);
      ghost var directories', files' := fs.directories, fs.files;
      ok := RemoveChild(fs, faults, c);
      SparesBelow(directories, directories', fs.directories, path, gone, c);
      SparesBelow(files, files'.Keys, fs.files.Keys, path, gone, c);
      KeepsOn(old(fs.files), files', fs.files);
      if !ok { return; }
      ClearMore(directories, files, directories', files'.Keys, path, gone, rest, c, fs.directories, fs.files.Keys);
      rest, gone := rest - {c}, gone + {c};
    }
    assert gone == children;
    StaysATree(directories, files, fs.directories, fs.files.Keys, gone);
    ok := true;
  }

  /** One child, with all below it. */
  method RemoveChild(fs: FileSystem, faults: Faults, c: Path) returns (ok: bool)
    requires IsTree(fs.directories, fs.files.Keys) && c != []
    requires c in Nodes(fs.directories, fs.files.Keys)
    modifies fs
    ensures ok <==> Removable(faults, Nodes(old(fs.directories), old(fs.files.Keys)), c)
    ensures ok ==> Without(old(fs.directories), fs.directories, c) && Without(old(fs.files.Keys), fs.files.Keys, c)
    ensures !ok ==> IsTree(fs.directories, fs.files.Keys)
    ensures SparesAround(old(fs.directories), fs.directories, c) && SparesAround(old(fs.files.Keys), fs.files.Keys, c)
    ensures FaultyStay(faults, Nodes(old(fs.directories), old(fs.files.Keys)), Nodes(fs.directories, fs.files.Keys))
    ensures Keeps(old(fs.files), fs.files)
    decreases |Below(Nodes(fs.directories, fs.files.Keys), c)|, 2
  {
    assert forall p :: AtOrBelow(c, p) <==> Above(c, p) || p == c;
    var isDirectory := IsDirectory(fs, faults, c);
    if isDirectory.None? { return false; }
    if isDirectory.value {
      ok := RemoveTree(fs, faults, c);
      if !ok { return; }
      assert Children(Nodes(fs.directories, fs.files.Keys), c) == {};
      ok := RemoveDir(fs, faults, c);
    } else {
      forall p | p in Nodes(fs.directories, fs.files.Keys) ensures !Above(c, p) {
        NothingBelowAFile(fs.directories, fs.files.Keys, c, p);
      }
      ok := RemoveFile(fs, faults, c);
    }
  }
}
