/**
  In-memory package definitions of rust/src/package/definition.rs: what they
  may contain, and the byte string whose digest is a package's identity.
  Strings are their UTF-8 bytes; WebAssembly parsing and SHA-256 are parameters.
*/
module PackageDefinition {
  import opened Bytes

  type Name = seq<Byte>

  // ----- ordered maps -----

  /** The order of Rust strings. */
  predicate Less(a: Name, b: Name) {
    b != [] && (a == [] || a[0] < b[0] || (a[0] == b[0] && Less(a[1..], b[1..])))
  }

  lemma LessIsStrict(a: Name)
    ensures !Less(a, a)
  {
  }

  datatype Entry<V> = Entry(key: Name, value: V)

  /** A `BTreeMap`, as the entries it iterates over: keys ascend. */
  type Table<V> = t: seq<Entry<V>> | Ascending(t)

  ghost predicate Ascending<V>(t: seq<Entry<V>>) {
    forall i, j | 0 <= i < j < |t| :: Less(t[i].key, t[j].key)
  }

  predicate Has<V>(t: seq<Entry<V>>, key: Name) {
    exists i :: 0 <= i < |t| && t[i].key == key
  }

  lemma KeysDiffer<V>(t: Table<V>, i: nat, j: nat)
    requires i < j < |t|
    ensures t[i].key != t[j].key
  {
    LessIsStrict(t[i].key);
  }

  datatype Definition = Definition(
    modules: Table<seq<Byte>>, commands: Table<Name>, entrypoint: Option<Name>, files: Table<seq<Byte>>)

  // ----- validate -----

  predicate IsNameByte(c: int) {
    || '0' as int <= c <= '9' as int || 'A' as int <= c <= 'Z' as int || 'a' as int <= c <= 'z' as int
    || c == '-' as int || c == '_' as int || c == '.' as int || c == '+' as int
  }

  const DIGITS: set<int> := {48, 49, 50, 51, 52, 53, 54, 55, 56, 57}
  const CAPITALS: set<int> := {
    65, 66, 67, 68, 69, 70, 71, 72, 73, 74, 75, 76, 77, 78, 79, 80, 81, 82, 83, 84, 85, 86, 87, 88, 89, 90}
  const SMALL_LETTERS: set<int> := {
    97, 98, 99, 100, 101, 102, 103, 104, 105, 106, 107, 108, 109, 110, 111, 112, 113, 114, 115, 116, 117, 118, 119, 120, 121, 122}

  /** Plus, minus, dot, underscore. */
  const SIGNS: set<int> := {43, 45, 46, 95}

  lemma NameBytesAre(b: Byte)
    ensures IsNameByte(b) <==> b in DIGITS || b in CAPITALS || b in SMALL_LETTERS || b in SIGNS
  {
    assert b in DIGITS <==> 48 <= b <= 57;
    assert b in CAPITALS <==> 65 <= b <= 90;
    assert b in SMALL_LETTERS <==> 97 <= b <= 122;
  }

  /** A name is made of these bytes, and is neither empty nor a dot or two. */
  lemma NamesAreSpelled(name: Name)
    ensures ValidName(name) <==> |name| > 0 && name != [46] && name != [46, 46] && forall b | b in name :: b in DIGITS || b in CAPITALS || b in SMALL_LETTERS || b in SIGNS
  {
    forall k | 0 <= k < |name|
      ensures IsNameByte(name[k]) <==> name[k] in DIGITS || name[k] in CAPITALS || name[k] in SMALL_LETTERS || name[k] in SIGNS
    {
      NameBytesAre(name[k]);
    }
  }

  const DOT: Byte := 46
  const SLASH: Byte := 47
  const BACKSLASH: Byte := 92

  /** `validate_name`. */
  predicate ValidName(name: Name) {
    name != [] && name != [DOT] && name != [DOT, DOT] && forall k | 0 <= k < |name| :: IsNameByte(name[k])
  }

  /** The parts of a string between slashes; there is always at least one. */
  function Split(path: Name): (parts: seq<Name>)
    ensures parts != []
  {
    if path == [] then [[]]
    else
      var rest := Split(path[1..]);
      if path[0] == SLASH then [[]] + rest else [[path[0]] + rest[0]] + rest[1..]
  }

  predicate CanonicalPart(part: Name) {
    part != [] && part != [DOT] && part != [DOT, DOT]
  }

  /** A canonical absolute guest path. */
  predicate CanonicalPath(path: Name) {
    && path != [] && path[0] == SLASH
    && (forall k | 0 <= k < |path| :: path[k] != BACKSLASH && path[k] != 0)
    && (forall k | 0 <= k < |Split(path[1..])| :: CanonicalPart(Split(path[1..])[k]))
  }

  /** `parent` is `path` cut before one of its slashes. */
  predicate IsAncestor(parent: Name, path: Name) {
    |parent| < |path| && parent == path[..|parent|] && path[|parent|] == SLASH
  }

  ghost predicate ValidFiles(files: seq<Entry<seq<Byte>>>) {
    && (forall i | 0 <= i < |files| :: CanonicalPath(files[i].key))
    && (forall i, j | 0 <= i < |files| && 0 <= j < |files| :: !IsAncestor(files[i].key, files[j].key))
  }

  /** Whether a module exports `_start`; `None` if it is not a module that commands can use at all. */
  type StartCheck = (Name, seq<Byte>) -> Option<bool>

  predicate Runnable(d: Definition, hasStart: StartCheck, m: Name) {
    exists i :: 0 <= i < |d.modules| && d.modules[i].key == m && hasStart(m, d.modules[i].value) == Some(true)
  }

  /** What `validate` accepts. */
  ghost predicate Valid(d: Definition, hasStart: StartCheck) {
    && d.commands != []
    && (forall i | 0 <= i < |d.modules| :: ValidName(d.modules[i].key) && hasStart(d.modules[i].key, d.modules[i].value).Some?)
    && (forall i | 0 <= i < |d.commands| :: ValidName(d.commands[i].key) && Runnable(d, hasStart, d.commands[i].value))
    && (d.entrypoint.Some? ==> Has(d.commands, d.entrypoint.value))
    && ValidFiles(d.files)
  }

  /** The command's module is there, and exports a start. */
  ghost predicate RunsModule(d: Definition, hasStart: StartCheck, name: Name) {
    && Has(d.modules, name)
    && forall m | m in d.modules && m.key == name :: hasStart(m.key, m.value) == Some(true)
  }

  lemma RunsItsModule(d: Definition, hasStart: StartCheck, name: Name)
    ensures Runnable(d, hasStart, name) <==> RunsModule(d, hasStart, name)
  {
    if Has(d.modules, name) {
      var i :| 0 <= i < |d.modules| && d.modules[i].key == name;
      forall m | m in d.modules && m.key == name ensures m == d.modules[i] {
        var j :| 0 <= j < |d.modules| && d.modules[j] == m;
        if i < j { KeysDiffer(d.modules, i, j); } else if j < i { KeysDiffer(d.modules, j, i); }
      }
      assert d.modules[i] in d.modules;
    }
  }

  /**
    In a valid definition each command names a module that is there and exports a
    start; and only a sound definition in which every command does is valid.
  */
  lemma CommandsRun(d: Definition, hasStart: StartCheck)
    ensures Valid(d, hasStart) <==>
      && d.commands != [] && ValidFiles(d.files)
      && (forall i | 0 <= i < |d.modules| :: ValidName(d.modules[i].key) && hasStart(d.modules[i].key, d.modules[i].value).Some?)
      && (forall i | 0 <= i < |d.commands| :: ValidName(d.commands[i].key) && RunsModule(d, hasStart, d.commands[i].value))
      && (d.entrypoint.Some? ==> exists i :: 0 <= i < |d.commands| && Some(d.commands[i].key) == d.entrypoint)
  {
    forall i | 0 <= i < |d.commands|
      ensures Runnable(d, hasStart, d.commands[i].value) <==> RunsModule(d, hasStart, d.commands[i].value)
    {
      RunsItsModule(d, hasStart, d.commands[i].value);
    }
  }

  /** The order of strings: one is less than another if it is a proper prefix, or has the lesser byte where they first differ. */
  lemma {:induction false} LessExactly(a: Name, b: Name)
    ensures Less(a, b) <==> a < b || exists k :: 0 <= k < |a| && k < |b| && a[..k] == b[..k] && a[k] < b[k]
  {
    if a != [] && b != [] && a[0] == b[0] {
      LessExactly(a[1..], b[1..]);
      if k :| 0 <= k < |a[1..]| && k < |b[1..]| && a[1..][..k] == b[1..][..k] && a[1..][k] < b[1..][k] {
        assert a[..k + 1] == [a[0]] + a[1..][..k] && b[..k + 1] == [b[0]] + b[1..][..k];
        assert a[..k + 1] == b[..k + 1] && a[k + 1] < b[k + 1];
      }
      if k :| 0 <= k < |a| && k < |b| && a[..k] == b[..k] && a[k] < b[k] {
        assert a[1..][..k - 1] == a[..k][1..] && b[1..][..k - 1] == b[..k][1..];
        assert a[1..][k - 1] < b[1..][k - 1];
      }
      assert a[1..] < b[1..] ==> a < b by {
        assert a == [a[0]] + a[1..] && b == [b[0]] + b[1..];
      }
      assert a < b ==> a[1..] < b[1..];
    } else if a != [] && b != [] {
      assert a[..0] == b[..0];
    }
  }

  /** The last slash of a string, as `rsplit_once` finds it. */
  function LastSlash(path: Name): (k: Option<nat>)
    ensures k.Some? ==> k.value < |path| && path[k.value] == SLASH && forall j | k.value < j < |path| :: path[j] != SLASH
    ensures k.None? ==> forall j | 0 <= j < |path| :: path[j] != SLASH
  {
    if path == [] then None
    else if path[|path| - 1] == SLASH then Some(|path| - 1)
    else LastSlash(path[..|path| - 1])
  }

  /** The walk from a path up through its ancestors. */
  method FindAncestor(files: seq<Entry<seq<Byte>>>, path: Name) returns (found: bool)
    ensures found <==> exists parent :: IsAncestor(parent, path) && Has(files, parent)
  {
    var ancestor := path;
    found := false;
    while LastSlash(ancestor).Some?
      invariant ancestor == path || IsAncestor(ancestor, path)
      invariant forall parent | IsAncestor(parent, path) && |parent| >= |ancestor| :: !Has(files, parent)
      decreases |ancestor|
    {
      var parent := ancestor[..LastSlash(ancestor).value];
      assert IsAncestor(parent, path);
      assert forall p | IsAncestor(p, path) && |parent| < |p| < |ancestor| :: path[|p|] == ancestor[|p|];
      if Has(files, parent) {
        return true;
      }
      assert forall p | IsAncestor(p, path) && |p| == |parent| :: p == parent;
      ancestor := parent;
    }
    assert forall p | IsAncestor(p, path) && |p| < |ancestor| :: path[|p|] == ancestor[|p|];
  }

  /** The file checks of `validate`. */
  method ValidateFiles(files: seq<Entry<seq<Byte>>>) returns (ok: bool)
    ensures ok <==> ValidFiles(files)
  {
    for i := 0 to |files|
      invariant forall j | 0 <= j < i :: CanonicalPath(files[j].key)
      invariant forall j, k | 0 <= j < |files| && 0 <= k < i :: !IsAncestor(files[j].key, files[k].key)
    {
      if !CanonicalPath(files[i].key) {
        return false;
      }
      var found := FindAncestor(files, files[i].key);
      if found {
        ghost var parent :| IsAncestor(parent, files[i].key) && Has(files, parent);
        return false;
      }
      assert forall j | 0 <= j < |files| :: Has(files, files[j].key);
    }
    ok := true;
  }

  method Validate(d: Definition, hasStart: StartCheck) returns (ok: bool)
    ensures ok <==> Valid(d, hasStart)
  {
    if d.commands == [] {
      return false;
    }
    for i := 0 to |d.modules|
      invariant forall k | 0 <= k < i :: ValidName(d.modules[k].key) && hasStart(d.modules[k].key, d.modules[k].value).Some?
    {
      if !ValidName(d.modules[i].key) || hasStart(d.modules[i].key, d.modules[i].value).None? {
        return false;
      }
    }
    for i := 0 to |d.commands|
      invariant forall k | 0 <= k < i :: ValidName(d.commands[k].key) && Runnable(d, hasStart, d.commands[k].value)
    {
      if !ValidName(d.commands[i].key) || !Runnable(d, hasStart, d.commands[i].value) {
        return false;
      }
    }
    if d.entrypoint.Some? && !Has(d.commands, d.entrypoint.value) {
      return false;
    }
    ok := ValidateFiles(d.files);
  }
}
