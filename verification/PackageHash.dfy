/**
  The byte string whose SHA-256 identifies a package definition, and a decoder
  for it: the string determines the definition, so equal identities come from
  equal definitions as long as the digest has no collisions.
*/
module PackageHash {
  import opened Bytes
  import opened PackageDefinition

  const MODULUS: nat := 0x1_0000_0000_0000_0000

  /** `b"wasmer-sdk:package-definition:v2\\0"`. */
  const TAG: seq<Byte> := [
    119, 97, 115, 109, 101, 114, 45, 115, 100, 107, 58, 112, 97, 99, 107, 97, 103, 101, 45,
    100, 101, 102, 105, 110, 105, 116, 105, 111, 110, 58, 118, 50, 0]

  // ----- lengths -----

  /** `to_le_bytes`, `k` bytes of it. */
  function Little(n: nat, k: nat): (bytes: seq<Byte>)
    ensures |bytes| == k
  {
    if k == 0 then [] else [n % 256] + Little(n / 256, k - 1)
  }

  function FromLittle(bytes: seq<Byte>): nat {
    if bytes == [] then 0 else bytes[0] + 256 * FromLittle(bytes[1..])
  }

  function Power256(k: nat): nat {
    if k == 0 then 1 else 256 * Power256(k - 1)
  }

  lemma {:induction false} LittleIsRead(n: nat, k: nat)
    requires n < Power256(k)
    ensures FromLittle(Little(n, k)) == n
  {
    if k > 0 {
      LittleIsRead(n / 256, k - 1);
    }
  }

  /** A length as the hasher sees it: `(len as u64).to_le_bytes()`. */
  function Length(n: nat): seq<Byte> {
    Little(n % MODULUS, 8)
  }

  // ----- the preimage -----

  function Field(bytes: seq<Byte>): seq<Byte> {
    Length(|bytes|) + bytes
  }

  /** What of a definition the identity covers: modules by their digests. */
  datatype Identity = Identity(
    modules: seq<Entry<seq<Byte>>>, commands: seq<Entry<Name>>, entrypoint: Option<Name>, files: seq<Entry<seq<Byte>>>)

  function Fields(t: seq<Entry<seq<Byte>>>): seq<Byte> {
    if t == [] then [] else Field(t[0].key) + Field(t[0].value) + Fields(t[1..])
  }

  /** How a table is written. */
  function Written(t: seq<Entry<seq<Byte>>>): seq<Byte> {
    Length(|t|) + Fields(t)
  }

  function Preimage(id: Identity): seq<Byte> {
    TAG + Written(id.modules) + Written(id.commands)
    + Field(if id.entrypoint.Some? then id.entrypoint.value else [])
    + Written(id.files)
  }

  // ----- the decoder -----

  datatype Read<+T> = Read(value: T, rest: seq<Byte>)

  function ReadLength(bytes: seq<Byte>): Option<Read<nat>> {
    if |bytes| < 8 then None else Some(Read(FromLittle(bytes[..8]), bytes[8..]))
  }

  function ReadField(bytes: seq<Byte>): Option<Read<seq<Byte>>> {
    match ReadLength(bytes)
    case None => None
    case Some(Read(n, rest)) => if n > |rest| then None else Some(Read(rest[..n], rest[n..]))
  }

  function ReadFields(count: nat, bytes: seq<Byte>): Option<Read<seq<Entry<seq<Byte>>>>> {
    if count == 0 then Some(Read([], bytes))
    else
      match ReadField(bytes)
      case None => None
      case Some(Read(key, afterKey)) =>
        match ReadField(afterKey)
        case None => None
        case Some(Read(value, afterValue)) =>
          match ReadFields(count - 1, afterValue)
          case None => None
          case Some(Read(more, rest)) => Some(Read([Entry(key, value)] + more, rest))
  }

  function ReadTable(bytes: seq<Byte>): Option<Read<seq<Entry<seq<Byte>>>>> {
    match ReadLength(bytes)
    case None => None
    case Some(Read(count, rest)) => ReadFields(count, rest)
  }

  /** An empty entrypoint field means that there is none. */
  function Decode(bytes: seq<Byte>): Option<Identity> {
    if !(TAG <= bytes) then None
    else
      match ReadTable(bytes[|TAG|..])
      case None => None
      case Some(Read(modules, afterModules)) =>
        match ReadTable(afterModules)
        case None => None
        case Some(Read(commands, afterCommands)) =>
          match ReadField(afterCommands)
          case None => None
          case Some(Read(entry, afterEntry)) =>
            match ReadTable(afterEntry)
            case None => None
            case Some(Read(files, rest)) =>
              if rest != [] then None
              else Some(Identity(modules, commands, if entry == [] then None else Some(entry), files))
  }

  // ----- round trip -----

  ghost predicate Fits(t: seq<Entry<seq<Byte>>>) {
    |t| < MODULUS && forall i | 0 <= i < |t| :: |t[i].key| < MODULUS && |t[i].value| < MODULUS
  }

  /** Every length fits a `u64`, and an entrypoint is not empty. */
  ghost predicate Encodable(id: Identity) {
    && Fits(id.modules) && Fits(id.commands) && Fits(id.files)
    && (id.entrypoint.Some? ==> 0 < |id.entrypoint.value| < MODULUS)
  }

  lemma EightBytes()
    ensures Power256(8) == MODULUS
  {
    assert Power256(4) == 0x1_0000_0000;
    assert Power256(8) == 256 * (256 * (256 * (256 * Power256(4))));
  }

  lemma SplitFront(a: seq<Byte>, b: seq<Byte>)
    ensures (a + b)[..|a|] == a && (a + b)[|a|..] == b
  {
  }

  lemma SmallIsItself(n: nat, k: nat)
    requires n < MODULUS
    ensures Little(n % MODULUS, k) == Little(n, k)
  {
    assert n % MODULUS == n;
  }

  lemma LengthFromLittle(n: nat)
    requires n < MODULUS
    ensures FromLittle(Length(n)) == n
  {
    SmallIsItself(n, 8);
    EightBytes();
    LittleIsRead(n, 8);
  }

  lemma FrontIsRead(bytes: seq<Byte>, n: nat, rest: seq<Byte>)
    requires |bytes| == 8 && FromLittle(bytes) == n
    ensures ReadLength(bytes + rest) == Some(Read(n, rest))
  {
    SplitFront(bytes, rest);
  }

  lemma LengthIsRead(n: nat, rest: seq<Byte>)
    requires n < MODULUS
    ensures ReadLength(Length(n) + rest) == Some(Read(n, rest))
  {
    LengthFromLittle(n);
    FrontIsRead(Length(n), n, rest);
  }

  lemma FieldIsRead(bytes: seq<Byte>, rest: seq<Byte>)
    requires |bytes| < MODULUS
    ensures ReadField(Field(bytes) + rest) == Some(Read(bytes, rest))
  {
    LengthIsRead(|bytes|, bytes + rest);
    Associate(Length(|bytes|), bytes, rest);
    SplitFront(bytes, rest);
  }

  lemma EntryThenFields(count: nat, bytes: seq<Byte>, afterKey: seq<Byte>, afterValue: seq<Byte>,
                        e: Entry<seq<Byte>>, more: seq<Entry<seq<Byte>>>, rest: seq<Byte>)
    requires ReadField(bytes) == Some(Read(e.key, afterKey))
    requires ReadField(afterKey) == Some(Read(e.value, afterValue))
    requires ReadFields(count, afterValue) == Some(Read(more, rest))
    ensures ReadFields(count + 1, bytes) == Some(Read([e] + more, rest))
  {
  }

  lemma FirstEntryIsRead(e: Entry<seq<Byte>>, more: seq<Entry<seq<Byte>>>, tail: seq<Byte>, rest: seq<Byte>)
    requires |e.key| < MODULUS && |e.value| < MODULUS
    requires ReadFields(|more|, tail + rest) == Some(Read(more, rest))
    ensures ReadFields(|more| + 1, Field(e.key) + Field(e.value) + tail + rest) == Some(Read([e] + more, rest))
  {
    FieldIsRead(e.key, Field(e.value) + (tail + rest));
    FieldIsRead(e.value, tail + rest);
    AssociateFour(Field(e.key), Field(e.value), tail, rest);
    EntryThenFields(|more|, Field(e.key) + (Field(e.value) + (tail + rest)), Field(e.value) + (tail + rest), tail + rest, e, more, rest);
  }

  lemma {:induction false} FieldsAreRead(t: seq<Entry<seq<Byte>>>, rest: seq<Byte>)
    requires Fits(t)
    ensures ReadFields(|t|, Fields(t) + rest) == Some(Read(t, rest))
  {
    if t == [] {
      assert Fields(t) + rest == rest;
    } else {
      FieldsAreRead(t[1..], rest);
      FirstEntryIsRead(t[0], t[1..], Fields(t[1..]), rest);
      assert [t[0]] + t[1..] == t;
    }
  }

  lemma TableIsRead(t: seq<Entry<seq<Byte>>>, rest: seq<Byte>)
    requires Fits(t)
    ensures ReadTable(Written(t) + rest) == Some(Read(t, rest))
  {
    LengthIsRead(|t|, Fields(t) + rest);
    FieldsAreRead(t, rest);
    Associate(Length(|t|), Fields(t), rest);
  }

  lemma PartsDecode(id: Identity, entry: seq<Byte>, b0: seq<Byte>, b1: seq<Byte>, b2: seq<Byte>, b3: seq<Byte>)
    requires ReadTable(b0) == Some(Read(id.modules, b1))
    requires ReadTable(b1) == Some(Read(id.commands, b2))
    requires ReadField(b2) == Some(Read(entry, b3))
    requires ReadTable(b3) == Some(Read(id.files, []))
    requires id.entrypoint == if entry == [] then None else Some(entry)
    ensures Decode(TAG + b0) == Some(id)
  {
    assert (TAG + b0)[|TAG|..] == b0;
  }

  /** Round trip: the identity can be read back from the bytes that are hashed. */
  lemma PreimageDecodes(id: Identity)
    requires Encodable(id)
    ensures Decode(Preimage(id)) == Some(id)
  {
    var entry := if id.entrypoint.Some? then id.entrypoint.value else [];
    var b3 := Written(id.files);
    var b2 := Field(entry) + b3;
    var b1 := Written(id.commands) + b2;
    var b0 := Written(id.modules) + b1;
    TableIsRead(id.modules, b1);
    TableIsRead(id.commands, b2);
    FieldIsRead(entry, b3);
    TableIsRead(id.files, []);
    assert b3 + [] == b3;
    PartsDecode(id, entry, b0, b1, b2, b3);
    AssociateFive(TAG, Written(id.modules), Written(id.commands), Field(entry), b3);
  }

  // ----- definitions and their identities -----

  function InferEntrypoint(d: Definition): Option<Name> {
    if d.entrypoint.None? && |d.commands| == 1 then Some(d.commands[0].key) else d.entrypoint
  }

  /** The identity of a definition, with each module standing for its digest. */
  function IdentityOf(d: Definition, digest: seq<Byte> -> seq<Byte>): Identity {
    Identity(seq(|d.modules|, i requires 0 <= i < |d.modules| => Entry(d.modules[i].key, digest(d.modules[i].value))),
             d.commands, InferEntrypoint(d), d.files)
  }

  /** Lengths below 2^64, as every allocation has. */
  ghost predicate Sized(d: Definition) {
    && |d.modules| < MODULUS && |d.commands| < MODULUS && |d.files| < MODULUS
    && (forall i | 0 <= i < |d.modules| :: |d.modules[i].key| < MODULUS)
    && (forall i | 0 <= i < |d.commands| :: |d.commands[i].key| < MODULUS && |d.commands[i].value| < MODULUS)
    && (forall i | 0 <= i < |d.files| :: |d.files[i].key| < MODULUS && |d.files[i].value| < MODULUS)
  }

  lemma ValidIsEncodable(d: Definition, hasStart: StartCheck, digest: seq<Byte> -> seq<Byte>)
    requires Valid(d, hasStart) && Sized(d) && forall b: seq<Byte> :: |digest(b)| == 32
    ensures Encodable(IdentityOf(d, digest))
  {
    assert InferEntrypoint(d).Some? ==> Has(d.commands, InferEntrypoint(d).value) by {
      assert |d.commands| == 1 ==> d.commands[0].key == d.commands[0].key;
    }
  }

  predicate OnlyCommand(d: Definition, name: Name) {
    Has(d.commands, name) && forall c | c in d.commands :: c.key == name
  }

  /** Left out, the entrypoint is the only command, if there is only one; the package is then the same as with that name written out. */
  lemma InferredIsExplicit(d: Definition, hasStart: StartCheck, name: Name, digest: seq<Byte> -> seq<Byte>)
    requires d.entrypoint.None?
    ensures InferEntrypoint(d) == Some(name) <==> OnlyCommand(d, name)
    ensures var explicit := d.(entrypoint := Some(name));
      && InferEntrypoint(explicit) == Some(name)
      && (OnlyCommand(d, name) && Valid(d, hasStart) ==> Valid(explicit, hasStart))
      && (OnlyCommand(d, name) ==> Preimage(IdentityOf(explicit, digest)) == Preimage(IdentityOf(d, digest)))
  {
    if |d.commands| > 1 {
      KeysDiffer(d.commands, 0, 1);
      assert d.commands[0] in d.commands && d.commands[1] in d.commands;
    }
    if |d.commands| == 1 { assert d.commands[0] in d.commands; }
    var explicit := d.(entrypoint := Some(name));
    assert forall m :: Runnable(explicit, hasStart, m) <==> Runnable(d, hasStart, m);
  }

  /**
    Two validated definitions that hash the same bytes have the same modules up
    to their digests, and the same commands, entrypoint and files.
  */
  lemma EqualPreimages(d: Definition, e: Definition, hasStart: StartCheck, digest: seq<Byte> -> seq<Byte>)
    requires Valid(d, hasStart) && Sized(d) && Valid(e, hasStart) && Sized(e)
    requires forall b: seq<Byte> :: |digest(b)| == 32
    requires Preimage(IdentityOf(d, digest)) == Preimage(IdentityOf(e, digest))
    ensures |d.modules| == |e.modules| && d.commands == e.commands && d.files == e.files
    ensures forall i | 0 <= i < |d.modules| ::
      d.modules[i].key == e.modules[i].key && digest(d.modules[i].value) == digest(e.modules[i].value)
    ensures InferEntrypoint(d) == InferEntrypoint(e)
  {
    ValidIsEncodable(d, hasStart, digest);
    ValidIsEncodable(e, hasStart, digest);
    PreimageDecodes(IdentityOf(d, digest));
    PreimageDecodes(IdentityOf(e, digest));
    var x, y := IdentityOf(d, digest).modules, IdentityOf(e, digest).modules;
    assert x == y;
    forall i | 0 <= i < |d.modules|
      ensures d.modules[i].key == e.modules[i].key && digest(d.modules[i].value) == digest(e.modules[i].value)
    {
      assert x[i] == y[i];
    }
  }

  // ----- the hashing itself -----

  /** A SHA-256 state, as the bytes it has been given. */
  class Hasher {
    var fed: seq<Byte>

    constructor ()
      ensures fed == []
    {
      fed := [];
    }

    method Update(bytes: seq<Byte>)
      modifies this
      ensures fed == old(fed) + bytes
    {
      fed := fed + bytes;
    }

    method HashField(bytes: seq<Byte>)
      modifies this
      ensures fed == old(fed) + Field(bytes)
    {
      Update(Length(|bytes|));
      Update(bytes);
    }

    method HashTable(t: seq<Entry<seq<Byte>>>)
      modifies this
      ensures fed == old(fed) + Written(t)
    {
      Update(Length(|t|));
      ghost var start := fed;
      assert t[0..] == t;
      for i := 0 to |t|
        invariant fed + Fields(t[i..]) == start + Fields(t)
      {
        ghost var before := fed;
        HashField(t[i].key);
        HashField(t[i].value);
        assert t[i..][1..] == t[i + 1..];
        AssociateFour(before, Field(t[i].key), Field(t[i].value), Fields(t[i + 1..]));
      }
      assert fed + [] == fed;
      Associate(old(fed), Length(|t|), Fields(t));
    }

    /** `hash`, up to the digest. */
    method HashDefinition(id: Identity)
      requires fed == []
      modifies this
      ensures fed == Preimage(id)
    {
      Update(TAG);
      assert fed == TAG;
      HashTable(id.modules);
      HashTable(id.commands);
      HashField(if id.entrypoint.Some? then id.entrypoint.value else []);
      HashTable(id.files);
    }
  }
}
