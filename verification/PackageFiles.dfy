/**
  Building the in-memory filesystem of a package definition
  (rust/src/package/definition.rs): the path checks of `validate` are exactly
  what the construction needs.
*/
module PackageFiles {
  import opened Bytes
  import opened PackageDefinition

  // ----- paths as strings and as parts -----

  type Path = seq<Name>

  function Join(parts: seq<Name>): Name
    requires parts != []
  {
    if |parts| == 1 then parts[0] else parts[0] + [SLASH] + Join(parts[1..])
  }

  lemma {:induction false} JoinSplit(path: Name)
    ensures Join(Split(path)) == path
  {
    if path != [] {
      JoinSplit(path[1..]);
      var rest := Split(path[1..]);
      if path[0] == SLASH {
        assert ([[]] + rest)[1..] == rest;
      } else if |rest| > 1 {
        assert ([[path[0]] + rest[0]] + rest[1..])[1..] == rest[1..];
        assert path == [path[0]] + (rest[0] + [SLASH] + Join(rest[1..]));
      }
    }
  }

  /** A byte in front of a string joins its first part, or starts a part of its own. */
  function WithHead(b: Byte, parts: seq<Name>): seq<Name>
    requires parts != []
  {
    if b == SLASH then [[]] + parts else [[b] + parts[0]] + parts[1..]
  }

  lemma SplitHead(b: Byte, rest: Name)
    ensures Split([b] + rest) == WithHead(b, Split(rest))
  {
    assert ([b] + rest)[1..] == rest;
  }

  lemma PrependAppend(b: Byte, x: seq<Name>, y: seq<Name>)
    requires x != []
    ensures WithHead(b, x + y) == WithHead(b, x) + y
  {
    assert (x + y)[1..] == x[1..] + y;
  }

  lemma {:induction false} SplitAt(a: Name, b: Name)
    ensures Split(a + [SLASH] + b) == Split(a) + Split(b)
  {
    if a == [] {
      assert a + [SLASH] + b == [SLASH] + b && ([SLASH] + b)[1..] == b;
    } else {
      SplitAt(a[1..], b);
      SplitHead(a[0], a[1..] + [SLASH] + b);
      SplitHead(a[0], a[1..]);
      assert a + [SLASH] + b == [a[0]] + (a[1..] + [SLASH] + b) && a == [a[0]] + a[1..];
      PrependAppend(a[0], Split(a[1..]), Split(b));
    }
  }

  lemma {:induction false} JoinAppend(a: seq<Name>, b: seq<Name>)
    requires a != [] && b != []
    ensures Join(a + b) == Join(a) + [SLASH] + Join(b)
  {
    if |a| == 1 {
      assert (a + b)[1..] == b;
    } else {
      JoinAppend(a[1..], b);
      assert (a + b)[1..] == a[1..] + b;
      assert Join(a + b) == a[0] + [SLASH] + (Join(a[1..]) + [SLASH] + Join(b));
    }
  }

  /** The parts of a canonical path. */
  function Parts(path: Name): (parts: Path)
    ensures parts != []
  {
    Split(if path == [] then [] else path[1..])
  }

  lemma AncestorHasFewerParts(a: Name, b: Name)
    requires CanonicalPath(a) && CanonicalPath(b) && IsAncestor(a, b)
    ensures Parts(a) < Parts(b)
  {
    var rest := b[|a| + 1..];
    assert b[1..] == a[1..] + [SLASH] + rest;
    SplitAt(a[1..], rest);
  }

  lemma FewerPartsAreAncestor(a: Name, b: Name)
    requires CanonicalPath(a) && CanonicalPath(b) && Parts(a) < Parts(b)
    ensures IsAncestor(a, b)
  {
    var rest := Parts(b)[|Parts(a)|..];
    assert Parts(b) == Parts(a) + rest;
    JoinSplit(a[1..]);
    JoinSplit(b[1..]);
    JoinAppend(Parts(a), rest);
    BelowSlash(a, b, Join(rest));
  }

  lemma BelowSlash(a: Name, b: Name, rest: Name)
    requires a != [] && b != [] && a[0] == b[0] == SLASH && b[1..] == a[1..] + [SLASH] + rest
    ensures IsAncestor(a, b)
  {
    assert forall k | 1 <= k < |b| :: b[k] == b[1..][k - 1];
    assert forall k | 1 <= k < |a| :: a[k] == a[1..][k - 1];
  }

  /** One path is an ancestor of another as strings exactly if its parts are a proper prefix. */
  lemma AncestorsArePrefixes(a: Name, b: Name)
    requires CanonicalPath(a) && CanonicalPath(b)
    ensures IsAncestor(a, b) <==> Parts(a) < Parts(b)
  {
    if IsAncestor(a, b) { AncestorHasFewerParts(a, b); }
    if Parts(a) < Parts(b) { FewerPartsAreAncestor(a, b); }
  }

  /** A part of a canonical path: not empty, not `.` or `..`, and without slash, backslash and zero. */
  predicate IsPart(part: Name) {
    && part != [] && part != [46] && part != [46, 46]
    && forall k | 0 <= k < |part| :: part[k] != 47 && part[k] != 92 && part[k] != 0
  }

  predicate AreParts(parts: seq<Name>) {
    parts != [] && forall k | 0 <= k < |parts| :: IsPart(parts[k])
  }

  lemma {:induction false} SplitOne(part: Name)
    requires forall k | 0 <= k < |part| :: part[k] != SLASH
    ensures Split(part) == [part]
  {
    if part != [] {
      SplitOne(part[1..]);
      assert [part[0]] + part[1..] == part;
    }
  }

  lemma {:induction false} SplitJoin(parts: seq<Name>)
    requires AreParts(parts)
    ensures Split(Join(parts)) == parts
    ensures forall k | 0 <= k < |Join(parts)| :: Join(parts)[k] != 92 && Join(parts)[k] != 0
  {
    SplitOne(parts[0]);
    if |parts| > 1 {
      SplitJoin(parts[1..]);
      SplitAt(parts[0], Join(parts[1..]));
    }
  }

  lemma {:induction false} PartsAreClean(path: Name, k: nat)
    requires k < |Split(path)| && forall i | 0 <= i < |path| :: path[i] != 92 && path[i] != 0
    ensures forall i | 0 <= i < |Split(path)[k]| :: Split(path)[k][i] != 47 && Split(path)[k][i] != 92 && Split(path)[k][i] != 0
  {
    if path != [] {
      var rest := Split(path[1..]);
      if path[0] == SLASH {
        if k > 0 { PartsAreClean(path[1..], k - 1); }
      } else if k == 0 {
        PartsAreClean(path[1..], 0);
      } else {
        PartsAreClean(path[1..], k);
      }
    }
  }

  /** Canonical paths are the strings of a slash and of sound parts with slashes between them, and no others. */
  lemma CanonicalExactly(path: Name, parts: seq<Name>)
    ensures CanonicalPath(path) && parts == Parts(path) <==> AreParts(parts) && path == [SLASH] + Join(parts)
  {
    if AreParts(parts) && path == [SLASH] + Join(parts) {
      SplitJoin(parts);
      assert path[1..] == Join(parts);
    }
    if CanonicalPath(path) && parts == Parts(path) {
      JoinSplit(path[1..]);
      assert path == [SLASH] + path[1..];
      forall k | 0 <= k < |parts| ensures IsPart(parts[k]) {
        PartsAreClean(path[1..], k);
      }
    }
  }

  lemma PartsAreUnique(a: Name, b: Name)
    requires CanonicalPath(a) && CanonicalPath(b) && Parts(a) == Parts(b)
    ensures a == b
  {
    JoinSplit(a[1..]);
    JoinSplit(b[1..]);
    assert a == [SLASH] + a[1..] && b == [SLASH] + b[1..];
  }

  // ----- the filesystem -----

  /** A `mem_fs::FileSystem`: its directories and files by their parts, the root being `[]`. */
  class FileSystem {
    var directories: set<Path>
    var files: map<Path, seq<Byte>>

    constructor ()
      ensures directories == {[]} && files == map[]
    {
      directories, files := {[]}, map[];
    }

    /** `create_dir_all` of the parent of a file: create what is missing on the way; a file there is an error. */
    method CreateDirAll(path: Path) returns (ok: bool)
      requires path != []
      modifies this`directories
      ensures ok <==> Ancestors(path) !! files.Keys
      ensures ok ==> directories == old(directories) + Ancestors(path)
    {
      for i := 0 to |path|
        invariant directories == old(directories) + set k | 0 <= k < i :: path[..k]
        invariant forall k | 0 <= k < i :: path[..k] !in files
      {
        if path[..i] in files {
          assert path[..i] in Ancestors(path);
          return false;
        }
        directories := directories + {path[..i]};
      }
      ok := true;
    }

    /** Open with `create_new` and write: the parent must be a directory and nothing may be there yet. */
    method CreateNew(path: Path, bytes: seq<Byte>) returns (ok: bool)
      requires path != []
      modifies this`files
      ensures ok <==> path !in directories && path !in old(files) && path[..|path| - 1] in directories
      ensures files == if ok then old(files)[path := bytes] else old(files)
    {
      if path in directories || path in files || path[..|path| - 1] !in directories {
        return false;
      }
      files := files[path := bytes];
      ok := true;
    }
  }

  predicate Above(d: Path, path: Path) {
    d < path
  }

  /** The directories on the way to a file: its proper prefixes, from the root. */
  function Ancestors(path: Path): (ds: set<Path>)
    ensures forall d :: d in ds <==> Above(d, path)
  {
    var ds := set k | 0 <= k < |path| :: path[..k];
    assert forall d | Above(d, path) :: d == path[..|d|];
    ds
  }

  // ----- build_filesystem -----

  datatype Item = Item(path: Path, bytes: seq<Byte>)

  /** Files at distinct paths below the root. */
  ghost predicate Distinct(items: seq<Item>) {
    && (forall k | 0 <= k < |items| :: items[k].path != [])
    && (forall j, k | 0 <= j < k < |items| :: items[j].path != items[k].path)
  }

  /** One of the first `n` files is named by a directory on the way to another of them. */
  ghost predicate Conflict(items: seq<Item>, n: nat)
    requires n <= |items|
  {
    exists j, k :: 0 <= j < n && 0 <= k < n && Above(items[j].path, items[k].path)
  }

  /** Exactly the first `n` files, and exactly the directories on the way to them. */
  ghost predicate Holds(directories: set<Path>, files: map<Path, seq<Byte>>, items: seq<Item>, n: nat)
    requires n <= |items|
  {
    && (forall k | 0 <= k < n :: items[k].path in files && files[items[k].path] == items[k].bytes)
    && (forall p | p in files :: exists k :: 0 <= k < n && items[k].path == p)
    && (forall d :: d in directories <==> d == [] || exists k :: 0 <= k < n && Above(d, items[k].path))
  }

  /** Neither path is on the way to the other. */
  predicate Apart(a: Path, b: Path) {
    !Above(a, b) && !Above(b, a)
  }

  lemma HoldsNothing(items: seq<Item>)
    ensures Holds({[]}, map[], items, 0) && !Conflict(items, 0)
  {
  }

  /** What stands in the way of the next file. */
  lemma CanAdd(directories: set<Path>, files: map<Path, seq<Byte>>, items: seq<Item>, n: nat)
    requires Distinct(items) && n < |items| && Holds(directories, files, items, n)
    ensures items[n].path !in files
    ensures items[n].path in directories <==> exists k :: 0 <= k < n && Above(items[n].path, items[k].path)
    ensures Ancestors(items[n].path) !! files.Keys <==> forall k | 0 <= k < n :: !Above(items[k].path, items[n].path)
  {
  }

  lemma HoldsOneMore(directories: set<Path>, files: map<Path, seq<Byte>>, items: seq<Item>, n: nat)
    requires Distinct(items) && n < |items| && Holds(directories, files, items, n) && items[n].path !in files
    ensures Holds(directories + Ancestors(items[n].path), files[items[n].path := items[n].bytes], items, n + 1)
  {
    var d', f' := directories + Ancestors(items[n].path), files[items[n].path := items[n].bytes];
    forall p | p in f'
      ensures exists k :: 0 <= k < n + 1 && items[k].path == p
    {
      if p == items[n].path {
        assert 0 <= n < n + 1;
      } else {
        var k :| 0 <= k < n && items[k].path == p;
      }
    }
    forall d
      ensures d in d' <==> d == [] || exists k :: 0 <= k < n + 1 && Above(d, items[k].path)
    {
      if Above(d, items[n].path) {
        assert 0 <= n < n + 1 && Above(d, items[n].path);
      }
      assert d in Ancestors(items[n].path) <==> Above(d, items[n].path);
    }
  }

  /** One file: it goes in exactly if it is in nobody's way and nobody is in its. */
  method AddFile(fs: FileSystem, items: seq<Item>, n: nat) returns (ok: bool)
    requires Distinct(items) && n < |items| && Holds(fs.directories, fs.files, items, n)
    modifies fs
    ensures ok <==> forall k | 0 <= k < n :: Apart(items[k].path, items[n].path)
    ensures ok ==> Holds(fs.directories, fs.files, items, n + 1)
  {
    CanAdd(fs.directories, fs.files, items, n);
    HoldsOneMore(fs.directories, fs.files, items, n);
    var made := fs.CreateDirAll(items[n].path);
    if !made {
      return false;
    }
    ok := fs.CreateNew(items[n].path, items[n].bytes);
  }

  lemma ConflictWithNext(items: seq<Item>, n: nat)
    requires Distinct(items) && n < |items|
    ensures Conflict(items, n + 1) <==> Conflict(items, n) || exists k :: 0 <= k < n && !Apart(items[k].path, items[n].path)
  {
  }

  lemma ConflictRemains(items: seq<Item>, n: nat)
    requires n <= |items| && Conflict(items, n)
    ensures Conflict(items, |items|)
  {
  }

  /** Building succeeds exactly when no path is an ancestor of another, and then holds the files and the directories on the way to them. */
  method Build(items: seq<Item>) returns (fs: FileSystem, ok: bool)
    requires Distinct(items)
    ensures fresh(fs)
    ensures ok <==> !Conflict(items, |items|)
    ensures ok ==> Holds(fs.directories, fs.files, items, |items|)
  {
    fs := new FileSystem();
    ok := true;
    HoldsNothing(items);
    var i := 0;
    while i < |items|
      invariant 0 <= i <= |items|
      invariant Holds(fs.directories, fs.files, items, i) && !Conflict(items, i)
    {
      ConflictWithNext(items, i);
      ok := AddFile(fs, items, i);
      if !ok {
        ConflictRemains(items, i + 1);
        return;
      }
      i := i + 1;
    }
    ok := true;
  }

  // ----- what validate promises -----

  function Items(files: seq<Entry<seq<Byte>>>): seq<Item> {
    seq(|files|, k requires 0 <= k < |files| => Item(Parts(files[k].key), files[k].value))
  }

  lemma ItemsAreDistinct(files: Table<seq<Byte>>)
    requires forall k | 0 <= k < |files| :: CanonicalPath(files[k].key)
    ensures Distinct(Items(files))
  {
    forall j, k | 0 <= j < k < |files|
      ensures Items(files)[j].path != Items(files)[k].path
    {
      KeysDiffer(files, j, k);
      if Parts(files[j].key) == Parts(files[k].key) {
        PartsAreUnique(files[j].key, files[k].key);
      }
    }
  }

  /** With canonical paths, the checks of `validate` are exactly the absence of conflicts. */
  lemma ValidatedFilesDoNotConflict(files: Table<seq<Byte>>)
    requires forall k | 0 <= k < |files| :: CanonicalPath(files[k].key)
    ensures ValidFiles(files) <==> !Conflict(Items(files), |files|)
  {
    forall j, k | 0 <= j < |files| && 0 <= k < |files|
      ensures IsAncestor(files[j].key, files[k].key) <==> Items(files)[j].path < Items(files)[k].path
    {
      AncestorsArePrefixes(files[j].key, files[k].key);
    }
  }

  /** Each path of a file map reads back its bytes, nothing else is a file, and the directories are those on the way to one. */
  ghost predicate ReadsBack(directories: set<Path>, tree: map<Path, seq<Byte>>, files: seq<Entry<seq<Byte>>>) {
    && (forall k | 0 <= k < |files| :: Parts(files[k].key) in tree && tree[Parts(files[k].key)] == files[k].value)
    && (forall p | p in tree :: exists k :: 0 <= k < |files| && Parts(files[k].key) == p)
    && (forall d :: d in directories <==> d == [] || exists k :: 0 <= k < |files| && Above(d, Parts(files[k].key)))
  }

  lemma HeldReadsBack(directories: set<Path>, tree: map<Path, seq<Byte>>, files: seq<Entry<seq<Byte>>>)
    requires Holds(directories, tree, Items(files), |files|)
    ensures ReadsBack(directories, tree, files)
  {
    assert forall k | 0 <= k < |files| :: Items(files)[k] == Item(Parts(files[k].key), files[k].value);
    forall p | p in tree ensures exists k :: 0 <= k < |files| && Parts(files[k].key) == p {
      var k :| 0 <= k < |files| && Items(files)[k].path == p;
      assert Parts(files[k].key) == p;
    }
    forall d: Path ensures d in directories <==> d == [] || exists k :: 0 <= k < |files| && Above(d, Parts(files[k].key)) {
      if k :| 0 <= k < |files| && Above(d, Items(files)[k].path) { assert Above(d, Parts(files[k].key)); }
      if k :| 0 <= k < |files| && Above(d, Parts(files[k].key)) { assert Above(d, Items(files)[k].path); }
    }
  }

  /** A validated file map always builds. */
  method BuildFilesystem(files: Table<seq<Byte>>) returns (fs: FileSystem, ok: bool)
    requires forall k | 0 <= k < |files| :: CanonicalPath(files[k].key)
    ensures ok <==> ValidFiles(files)
    ensures ok ==> fresh(fs) && ReadsBack(fs.directories, fs.files, files)
  {
    ItemsAreDistinct(files);
    ValidatedFilesDoNotConflict(files);
    fs, ok := Build(Items(files));
    if ok { HeldReadsBack(fs.directories, fs.files, files); }
  }
}
