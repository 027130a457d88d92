/**
  A cursor over a positional file: `ProviderFile` of rust/src/provider_fs.rs.
  The provider may read and write less than it is asked to, may fail after some
  effect, and may claim to have written more than it was given; other handles
  may change the file meanwhile.
*/
module ProviderFile {
  import opened Bytes

  datatype SeekFrom = Start(offset: U64) | End(delta: int) | Current(delta: int)

  datatype Error = BrokenPipe | PermissionDenied | InvalidData | InvalidInput | Provider

  datatype Outcome = Data(bytes: seq<Byte>) | Count(n: nat) | Done | Failed(error: Error)

  /** What a provider answers: how many bytes, or that it failed. */
  type Answer = Option<nat>

  /**
    `left` is the content that the provider leaves when it does not do as it was
    asked: when it fails, or claims what cannot be. `Outside` is a change that
    comes from elsewhere.
  */
  datatype Operation =
    | Read(room: nat, answer: Answer)
    | Write(data: seq<Byte>, answer: Answer, left: seq<Byte>)
    | Seek(position: SeekFrom)
    | SetLen(length: U64, answer: Answer, left: seq<Byte>)
    | Shutdown
    | Outside(left: seq<Byte>)

  /** The handle, and the content its provider holds. */
  datatype State = State(content: seq<Byte>, cursor: U64, len: U64, writable: bool, closed: bool)

  function Zeros(n: nat): (bytes: seq<Byte>)
    ensures |bytes| == n && forall k | 0 <= k < n :: bytes[k] == 0
  {
    seq(n, _ => 0)
  }

  /** `write_at` of these bytes: a gap before them is filled, nothing else changes; no bytes, no change. */
  function Overlay(content: seq<Byte>, offset: nat, bytes: seq<Byte>): seq<Byte> {
    if bytes == [] then content
    else
      var head := if offset <= |content| then content[..offset] else content + Zeros(offset - |content|);
      head + bytes + if offset + |bytes| <= |content| then content[offset + |bytes|..] else []
  }

  /** `read_at`: at most what is there. */
  function ReadAt(content: seq<Byte>, offset: nat, n: nat): seq<Byte> {
    if offset >= |content| then [] else content[offset..Min(offset + n, |content|)]
  }

  /** What a provider can have written at this offset of a 64-bit file. */
  predicate Writes(offset: U64, data: seq<Byte>, n: nat) {
    n <= |data| && offset + n <= U64_MAX
  }

  /** `start_seek`, in 128-bit arithmetic. */
  function Target(s: State, position: SeekFrom): int {
    match position
    case Start(offset) => offset
    case End(delta) => s.len + delta
    case Current(delta) => s.cursor + delta
  }

  function Step(s: State, op: Operation): (State, Outcome) {
    match op
    case Read(room, answer) =>
      if s.closed then (s, Failed(BrokenPipe))
      else if answer.None? then (s, Failed(Provider))
      else
        var bytes := ReadAt(s.content, s.cursor, Min(room, answer.value));
        (s.(cursor := Min(s.cursor + |bytes|, U64_MAX)), Data(bytes))
    case Write(data, answer, left) =>
      if s.closed then (s, Failed(BrokenPipe))
      else if !s.writable then (s, Failed(PermissionDenied))
      else if answer.None? then (s.(content := left), Failed(Provider))
      else if answer.value > |data| then (s.(content := left), Failed(InvalidData))
      else if !Writes(s.cursor, data, answer.value) then (s.(content := left), Failed(Provider))
      else
        var cursor := s.cursor + answer.value;
        (s.(content := Overlay(s.content, s.cursor, data[..answer.value]), cursor := cursor, len := Max(s.len, cursor)),
         Count(answer.value))
    case Seek(position) =>
      if 0 <= Target(s, position) <= U64_MAX then (s.(cursor := Target(s, position)), Done) else (s, Failed(InvalidInput))
    case SetLen(length, answer, left) =>
      if !s.writable then (s, Failed(PermissionDenied))
      else if answer.None? then (s.(content := left), Failed(Provider))
      else (s.(content := if length <= |s.content| then s.content[..length] else s.content + Zeros(length - |s.content|),
               len := length), Done)
    case Shutdown => (s.(closed := true), Done)
    case Outside(left) => (s.(content := left), Done)
  }

  function Run(s: State, ops: seq<Operation>): State
    decreases |ops|
  {
    if ops == [] then s else Run(Step(s, ops[0]).0, ops[1..])
  }

  // ----- the tracked length -----

  /** The handle knows the length of its file. */
  predicate Tracked(s: State) {
    s.len == |s.content|
  }

  /** A write that is accepted with no bytes, past the end of the file. */
  predicate StretchesNothing(s: State, op: Operation) {
    op.Write? && op.answer == Some(0) && !s.closed && s.writable && s.cursor > s.len
  }

  /** The operation reaches the provider, which does something else, or it comes from elsewhere. */
  predicate Unforeseen(s: State, op: Operation) {
    || op.Outside?
    || (op.SetLen? && s.writable && op.answer.None?)
    || (op.Write? && !s.closed && s.writable && (op.answer.None? || !Writes(s.cursor, op.data, op.answer.value)))
  }

  lemma OverlayLength(content: seq<Byte>, offset: nat, bytes: seq<Byte>)
    ensures |Overlay(content, offset, bytes)| == if bytes == [] then |content| else Max(|content|, offset + |bytes|)
  {
  }

  /**
    The length stays right over an operation if and only if it is neither an
    empty write past the end, nor one by which the provider, or somebody else,
    changes the size of the file unforeseen.
  */
  lemma LengthIsTracked(s: State, op: Operation)
    requires Tracked(s)
    ensures Tracked(Step(s, op).0) <==>
            !StretchesNothing(s, op) && (Unforeseen(s, op) ==> |op.left| == |s.content|)
  {
    if op.Write? && op.answer.Some? && op.answer.value <= |op.data| {
      OverlayLength(s.content, s.cursor, op.data[..op.answer.value]);
    }
  }

  /** However wrong the length has become, setting it sets it right. */
  lemma SettingRestores(s: State, length: U64, n: nat, left: seq<Byte>)
    requires s.writable
    ensures Tracked(Step(s, SetLen(length, Some(n), left)).0)
  {
  }

  /** An empty write past the end can be reached: seek past the end of an empty file and write nothing. */
  lemma AnEmptyWriteStretchesTheLength() returns (ops: seq<Operation>)
    ensures var s := Run(State([], 0, 0, true, false), ops);
      s.content == [] && s.len == 1
  {
    ops := [Seek(Start(1)), Write([], Some(0), [])];
    var s0 := State([], 0, 0, true, false);
    var s1 := Step(s0, ops[0]).0;
    assert s1 == State([], 1, 0, true, false);
    assert ops[1..][0] == ops[1] && ops[1..][1..] == [];
    assert Run(s0, ops) == Run(s1, ops[1..]) == Run(Step(s1, ops[1]).0, []);
    assert ops[1].data[..0] == [];
  }

  /** Where a seek goes: to an offset, or so far from the end of the file or from the cursor; what is outside 64 bits is refused. */
  lemma SeeksGo(s: State, offset: U64, delta: int)
    requires Tracked(s)
    ensures Step(s, Seek(Start(offset))) == (s.(cursor := offset), Done)
    ensures Step(s, Seek(End(delta))) ==
      if 0 <= |s.content| + delta <= U64_MAX then (s.(cursor := |s.content| + delta), Done) else (s, Failed(InvalidInput))
    ensures Step(s, Seek(Current(delta))) ==
      if 0 <= s.cursor + delta <= U64_MAX then (s.(cursor := s.cursor + delta), Done) else (s, Failed(InvalidInput))
  {
  }

  /** Why an operation fails: the handle is closed or not writable, the provider failed, or it claims more than it was given. */
  lemma FailuresAre(s: State, room: nat, data: seq<Byte>, length: U64, answer: Answer, left: seq<Byte>)
    ensures Step(s, Read(room, answer)).1.Failed? <==> s.closed || answer.None?
    ensures Step(s, Read(room, answer)).1 == Failed(BrokenPipe) <==> s.closed
    ensures Step(s, Write(data, answer, left)).1 == Failed(BrokenPipe) <==> s.closed
    ensures Step(s, Write(data, answer, left)).1 == Failed(PermissionDenied) <==> !s.closed && !s.writable
    ensures Step(s, Write(data, answer, left)).1 == Failed(InvalidData) <==>
      !s.closed && s.writable && answer.Some? && answer.value > |data|
    ensures Step(s, Write(data, answer, left)).1.Count? <==>
      !s.closed && s.writable && answer.Some? && answer.value <= |data| && s.cursor + answer.value <= U64_MAX
    ensures Step(s, SetLen(length, answer, left)).1 == Failed(PermissionDenied) <==> !s.writable
    ensures Step(s, SetLen(length, answer, left)).1 == Done <==> s.writable && answer.Some?
    ensures Step(s, Read(room, answer)).1.Failed? ==> Step(s, Read(room, answer)).0 == s
    ensures s.closed || !s.writable ==> Step(s, Write(data, answer, left)).0 == s
    ensures Step(s, Shutdown) == (s.(closed := true), Done)
  {
  }

  /** A length that is set cuts the file or fills it with zeros. */
  lemma SettingCutsOrFills(s: State, length: U64, n: nat, left: seq<Byte>, k: nat)
    requires s.writable && k < length
    ensures var t := Step(s, SetLen(length, Some(n), left)).0;
      && |t.content| == length && t.content[k] == (if k < |s.content| then s.content[k] else 0)
      && t.cursor == s.cursor && t.closed == s.closed && t.writable == s.writable
  {
  }

  // ----- opening -----

  datatype Options = Options(createNew: bool, truncate: bool, append: bool)

  /**
    `open` with the size that `stat` answered before it, or none if `stat`
    failed; `found` is the content the provider opens.
  */
  function Open(found: seq<Byte>, stat: Option<U64>, options: Options, writable: bool): State {
    var empty := options.truncate || options.createNew;
    var initial := if empty || stat.None? then 0 else stat.value;
    State(if empty then [] else found, if options.append then initial else 0, initial, writable, false)
  }

  /**
    The handle starts with the right length if and only if the file is opened
    empty or `stat` answered its size, where a failed `stat` counts as an answer
    of zero. Only then does an append start at the end.
  */
  lemma OpensTracked(found: seq<Byte>, stat: Option<U64>, options: Options, writable: bool)
    ensures var s := Open(found, stat, options, writable);
      && (Tracked(s) <==> options.truncate || options.createNew || |found| == if stat.None? then 0 else stat.value)
      && (options.append ==> (s.cursor == |s.content| <==> Tracked(s)))
  {
  }

  // ----- sequential reading and writing -----

  /** Two writes one after the other are one write. */
  lemma OverlayTwice(content: seq<Byte>, offset: nat, a: seq<Byte>, b: seq<Byte>)
    ensures Overlay(Overlay(content, offset, a), offset + |a|, b) == Overlay(content, offset, a + b)
  {
    if a == [] {
      assert a + b == b;
    } else if b == [] {
      assert a + b == a;
    } else {
      var once, both := Overlay(content, offset, a), Overlay(content, offset, a + b);
      var twice := Overlay(once, offset + |a|, b);
      OverlayLength(content, offset, a);
      OverlayLength(once, offset + |a|, b);
      OverlayLength(content, offset, a + b);
      forall k | 0 <= k < |both| ensures twice[k] == both[k] {
        OverlayAt(content, offset, a, Min(k, |once| - 1));
        OverlayAt(once, offset + |a|, b, k);
        OverlayAt(content, offset, a + b, k);
      }
    }
  }

  /** A byte of the written file: the new one where it was written, zero in a gap, the old one elsewhere. */
  lemma OverlayAt(content: seq<Byte>, offset: nat, bytes: seq<Byte>, k: nat)
    requires bytes != [] && k < |Overlay(content, offset, bytes)|
    ensures Overlay(content, offset, bytes)[k] ==
            if offset <= k < offset + |bytes| then bytes[k - offset]
            else if k < |content| then content[k] else 0
  {
  }

  /** A chunk, and how much of it the provider took. */
  datatype Offer = Offer(data: seq<Byte>, taken: nat)

  predicate SoundOffers(offers: seq<Offer>) {
    forall k | 0 <= k < |offers| :: offers[k].taken <= |offers[k].data|
  }

  /** What was taken of each. */
  function Taken(offers: seq<Offer>): seq<seq<Byte>>
    requires SoundOffers(offers)
  {
    if offers == [] then [] else [offers[0].data[..offers[0].taken]] + Taken(offers[1..])
  }

  function Writing(offers: seq<Offer>): seq<Operation> {
    if offers == [] then [] else [Write(offers[0].data, Some(offers[0].taken), [])] + Writing(offers[1..])
  }

  /** However the chunks are cut and however little of each is taken, the file holds what was taken, from the first cursor on. */
  lemma {:induction false} WritesAreSequential(s: State, offers: seq<Offer>)
    requires SoundOffers(offers) && !s.closed && s.writable && s.cursor + |Concat(Taken(offers))| <= U64_MAX
    ensures var t := Run(s, Writing(offers));
      && t.content == Overlay(s.content, s.cursor, Concat(Taken(offers)))
      && t.cursor == s.cursor + |Concat(Taken(offers))|
    decreases |offers|
  {
    if offers != [] {
      var piece := offers[0].data[..offers[0].taken];
      var rest := Concat(Taken(offers[1..]));
      assert Taken(offers)[1..] == Taken(offers[1..]);
      assert Concat(Taken(offers)) == piece + rest;
      assert Writing(offers)[1..] == Writing(offers[1..]);
      WritesAreSequential(Step(s, Write(offers[0].data, Some(offers[0].taken), [])).0, offers[1..]);
      OverlayTwice(s.content, s.cursor, piece, rest);
    }
  }

  /** How many bytes each read has room for, and how many the provider is willing to give. */
  datatype Demand = Demand(room: nat, willing: nat)

  /** The bytes that a list of reads hands out. */
  function Reading(s: State, demands: seq<Demand>): seq<Byte>
    decreases |demands|
  {
    if demands == [] then []
    else
      var (next, outcome) := Step(s, Read(demands[0].room, Some(demands[0].willing)));
      (if outcome.Data? then outcome.bytes else []) + Reading(next, demands[1..])
  }

  /** However short the reads are, they hand out the file from the cursor on, without a gap or a repetition. */
  lemma {:induction false} ReadsAreSequential(s: State, demands: seq<Demand>)
    requires !s.closed && |s.content| <= U64_MAX
    ensures Reading(s, demands) == ReadAt(s.content, s.cursor, |Reading(s, demands)|)
    decreases |demands|
  {
    if demands != [] {
      var (next, outcome) := Step(s, Read(demands[0].room, Some(demands[0].willing)));
      ReadsAreSequential(next, demands[1..]);
      ReadTwice(s.content, s.cursor, outcome.bytes, Reading(next, demands[1..]));
    }
  }

  lemma ReadTwice(content: seq<Byte>, offset: nat, a: seq<Byte>, b: seq<Byte>)
    requires a == ReadAt(content, offset, |a|) && b == ReadAt(content, offset + |a|, |b|)
    ensures a + b == ReadAt(content, offset, |a + b|)
  {
    if offset < |content| {
      assert offset + |a| <= |content|;
      if offset + |a| < |content| {
        assert content[offset..offset + |a|] + content[offset + |a|..offset + |a| + |b|] == content[offset..offset + |a| + |b|];
      } else {
        assert b == [] && a + b == a;
      }
    } else {
      assert a == [] && b == [];
    }
  }

  /** What was written can be read back from where it was written. */
  lemma WrittenIsRead(s: State, data: seq<Byte>)
    requires !s.closed && s.writable && data != [] && s.cursor + |data| <= U64_MAX
    ensures var written := Step(s, Write(data, Some(|data|), [])).0;
      var back := Step(written, Seek(Current(-|data|))).0;
      Step(back, Read(|data|, Some(|data|))).1 == Data(data)
  {
    assert data[..|data|] == data;
    var content := Overlay(s.content, s.cursor, data);
    OverlayLength(s.content, s.cursor, data);
    forall k | 0 <= k < |data| ensures content[s.cursor..s.cursor + |data|][k] == data[k] {
      OverlayAt(s.content, s.cursor, data, s.cursor + k);
    }
    assert content[s.cursor..s.cursor + |data|] == data;
  }

  // ----- the handle -----

  /** `ProviderFile`, with the content that its provider holds. */
  class ProviderFile {
    var content: seq<Byte>
    var cursor: U64
    var len: U64
    const writable: bool
    var closed: bool

    function View(): State
      reads this
    {
      State(content, cursor, len, writable, closed)
    }

    constructor (found: seq<Byte>, stat: Option<U64>, options: Options, writable: bool)
      ensures View() == Open(found, stat, options, writable)
    {
      var initial: U64 := 0;
      var bytes := found;
      if options.truncate || options.createNew {
        bytes := [];
      } else if stat.Some? {
        initial := stat.value;
      }
      content, len, this.writable, closed := bytes, initial, writable, false;
      cursor := if options.append then initial else 0;
    }

    method PollRead(room: nat, answer: Answer) returns (outcome: Outcome)
      modifies this`cursor
      ensures (View(), outcome) == Step(old(View()), Read(room, answer))
    {
      if closed { return Failed(BrokenPipe); }
      if answer.None? { return Failed(Provider); }
      var bytes := ReadAt(content, cursor, Min(room, answer.value));
      cursor := if cursor + |bytes| > U64_MAX then U64_MAX else cursor + |bytes|;
      outcome := Data(bytes);
    }

    method PollWrite(data: seq<Byte>, answer: Answer, left: seq<Byte>) returns (outcome: Outcome)
      modifies this`content, this`cursor, this`len
      ensures (View(), outcome) == Step(old(View()), Write(data, answer, left))
    {
      if closed { return Failed(BrokenPipe); }
      if !writable { return Failed(PermissionDenied); }
      if answer.None? || answer.value > |data| || cursor + answer.value > U64_MAX {
        content := left;
        return Failed(if answer.Some? && answer.value > |data| then InvalidData else Provider);
      }
      var written := answer.value;
      content := Overlay(content, cursor, data[..written]);
      cursor := cursor + written;
      if cursor > len { len := cursor; }
      outcome := Count(written);
    }

    method SetLength(length: U64, answer: Answer, left: seq<Byte>) returns (outcome: Outcome)
      modifies this`content, this`len
      ensures (View(), outcome) == Step(old(View()), SetLen(length, answer, left))
    {
      if !writable { return Failed(PermissionDenied); }
      if answer.None? {
        content := left;
        return Failed(Provider);
      }
      content := if length <= |content| then content[..length] else content + Zeros(length - |content|);
      len := length;
      outcome := Done;
    }

    method StartSeek(position: SeekFrom) returns (outcome: Outcome)
      modifies this`cursor
      ensures (View(), outcome) == Step(old(View()), Seek(position))
    {
      var next: int;
      match position {
        case Start(offset) => next := offset;
        case End(delta) => next := len + delta;
        case Current(delta) => next := cursor + delta;
      }
      if next < 0 || next > U64_MAX { return Failed(InvalidInput); }
      cursor := next;
      outcome := Done;
    }
  }
}
