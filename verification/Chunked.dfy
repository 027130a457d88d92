/**
  The chunked transfer coding of RFC 9112 section 7.1 as
  js/bindgen/src/browser_http.rs decodes it.
*/
module Chunked {
  import opened Bytes

  const CR: Byte := 13
  const LF: Byte := 10
  const CRLF: seq<Byte> := [CR, LF]
  const SEMICOLON := 59
  const PLUS := 43

  /** `usize::MAX` of wasm32, the target this code is built for. */
  const USIZE_MAX: nat := 0xFFFF_FFFF

  // ----- text: from_utf8, trim, from_str_radix -----

  predicate Continues(b: Byte) {
    0x80 <= b < 0xC0
  }

  /** The bits of a continuation byte appended to those before it. */
  function Join(high: int, b: int): int {
    high * 64 + b - 0x80
  }

  /** `str::from_utf8` as code points; `None` for bytes that are not UTF-8. */
  function Utf8(bytes: seq<Byte>): Option<seq<int>> {
    if bytes == [] then Some([])
    else
      var a := bytes[0];
      if a < 0x80 then Before([a], Utf8(bytes[1..]))
      else if 0xC2 <= a < 0xE0 && |bytes| >= 2 && Continues(bytes[1]) then
        Before([Join(a - 0xC0, bytes[1])], Utf8(bytes[2..]))
      else if 0xE0 <= a < 0xF0 && |bytes| >= 3 && Continues(bytes[1]) && Continues(bytes[2])
              && (a == 0xE0 ==> bytes[1] >= 0xA0) && (a == 0xED ==> bytes[1] < 0xA0) then
        Before([Join(Join(a - 0xE0, bytes[1]), bytes[2])], Utf8(bytes[3..]))
      else if 0xF0 <= a < 0xF5 && |bytes| >= 4 && Continues(bytes[1]) && Continues(bytes[2]) && Continues(bytes[3])
              && (a == 0xF0 ==> bytes[1] >= 0x90) && (a == 0xF4 ==> bytes[1] < 0x90) then
        Before([Join(Join(Join(a - 0xF0, bytes[1]), bytes[2]), bytes[3])], Utf8(bytes[4..]))
      else None
  }

  function Before(head: seq<int>, tail: Option<seq<int>>): Option<seq<int>> {
    if tail.Some? then Some(head + tail.value) else None
  }

  lemma {:induction false} Utf8OfAscii(bytes: seq<Byte>)
    requires forall k | 0 <= k < |bytes| :: bytes[k] < 0x80
    ensures Utf8(bytes) == Some(bytes)
  {
    if bytes != [] {
      Utf8OfAscii(bytes[1..]);
      var codes: seq<int> := bytes;
      assert [codes[0]] + codes[1..] == codes;
    }
  }

  /** `char::is_whitespace`, the Unicode property White_Space. */
  predicate IsSpace(c: int) {
    || 9 <= c <= 13 || c == 0x20 || c == 0x85 || c == 0xA0 || c == 0x1680 || 0x2000 <= c <= 0x200A
    || c == 0x2028 || c == 0x2029 || c == 0x202F || c == 0x205F || c == 0x3000
  }

  function Trim(text: seq<int>): seq<int> {
    if text == [] then []
    else if IsSpace(text[0]) then Trim(text[1..])
    else if IsSpace(text[|text| - 1]) then Trim(text[..|text| - 1])
    else text
  }

  /** `split(';').next()`. */
  function UpToSemicolon(text: seq<int>): seq<int> {
    if text == [] || text[0] == SEMICOLON then [] else [text[0]] + UpToSemicolon(text[1..])
  }

  function DigitOf(c: int): Option<nat> {
    if '0' as int <= c <= '9' as int then Some(c - '0' as int)
    else if 'a' as int <= c <= 'f' as int then Some(c - 'a' as int + 10)
    else if 'A' as int <= c <= 'F' as int then Some(c - 'A' as int + 10)
    else None
  }

  function Digits(text: seq<int>, radix: nat): Option<nat> {
    if text == [] then Some(0)
    else
      var high, low := Digits(text[..|text| - 1], radix), DigitOf(text[|text| - 1]);
      if high.Some? && low.Some? && low.value < radix then Some(high.value * radix + low.value) else None
  }

  /** `usize::from_str_radix`: an optional plus sign, at least one digit, and no overflow. */
  function ParseUsize(text: seq<int>, radix: nat): Option<nat> {
    var digits := if text != [] && text[0] == PLUS then text[1..] else text;
    if digits == [] then None
    else
      var value := Digits(digits, radix);
      if value.Some? && value.value > USIZE_MAX then None else value
  }

  /** The size that a chunk's first line announces. */
  function SizeOf(line: seq<Byte>): Option<nat> {
    var text := Utf8(line);
    if text.None? then None else ParseUsize(Trim(UpToSemicolon(text.value)), 16)
  }

  // ----- decoding -----

  predicate CrlfAt(bytes: seq<Byte>, k: int) {
    0 <= k && k + 2 <= |bytes| && bytes[k] == CR && bytes[k + 1] == LF
  }

  /** Where the first line ends. */
  function LineEnd(bytes: seq<Byte>): (end: Option<nat>)
    ensures end.Some? ==> CrlfAt(bytes, end.value) && forall k | 0 <= k < end.value :: !CrlfAt(bytes, k)
    ensures end.None? ==> forall k :: !CrlfAt(bytes, k)
  {
    if |bytes| < 2 then None
    else if CrlfAt(bytes, 0) then Some(0)
    else
      var end := LineEnd(bytes[1..]);
      assert forall k | k >= 1 :: CrlfAt(bytes, k) == CrlfAt(bytes[1..], k - 1);
      if end.Some? then Some(end.value + 1) else None
  }

  /** What must follow the last chunk: an empty line at once, or one after the trailers. */
  predicate Ended(rest: seq<Byte>) {
    CrlfAt(rest, 0) || exists k :: 0 <= k < |rest| && CrlfAt(rest, k) && CrlfAt(rest, k + 2)
  }

  datatype Decoded = Incomplete | Invalid | Body(bytes: seq<Byte>)

  function Prepend(data: seq<Byte>, rest: Decoded): Decoded {
    if rest.Body? then Body(data + rest.bytes) else rest
  }

  function Decode(bytes: seq<Byte>): Decoded
    decreases |bytes|
  {
    var end := LineEnd(bytes);
    if end.None? then Incomplete
    else
      var size, rest := SizeOf(bytes[..end.value]), bytes[end.value + 2..];
      if size.None? then Invalid
      else if size.value == 0 then (if Ended(rest) then Body([]) else Incomplete)
      else if |rest| < size.value + 2 then Incomplete
      else if !CrlfAt(rest, size.value) then Invalid
      else Prepend(rest[..size.value], Decode(rest[size.value + 2..]))
  }

  /** A chunk that is all there goes before what follows it. */
  lemma ChunkThenRest(decoded: seq<Byte>, bytes: seq<Byte>, end: nat, size: nat)
    requires LineEnd(bytes) == Some(end) && SizeOf(bytes[..end]) == Some(size) && size > 0
    requires |bytes[end + 2..]| >= size + 2 && CrlfAt(bytes[end + 2..], size)
    ensures Prepend(decoded, Decode(bytes)) ==
            Prepend(decoded + bytes[end + 2..][..size], Decode(bytes[end + 2..][size + 2..]))
  {
    PrependTwice(decoded, bytes[end + 2..][..size], Decode(bytes[end + 2..][size + 2..]));
  }

  lemma PrependNothing(data: seq<Byte>, rest: Decoded)
    ensures Prepend([], rest) == rest && Prepend(data, Body([])) == Body(data)
  {
    assert data + [] == data;
    if rest.Body? { assert [] + rest.bytes == rest.bytes; }
  }

  /** `decode_chunked`: the loop over the shrinking input. */
  method DecodeChunked(input: seq<Byte>) returns (result: Decoded)
    ensures result == Decode(input)
  {
    var bytes, decoded := input, [];
    PrependNothing([], Decode(bytes));
    while true
      invariant Decode(input) == Prepend(decoded, Decode(bytes))
      decreases |bytes|
    {
      var end := LineEnd(bytes);
      if end.None? {
        return Incomplete;
      }
      var size := SizeOf(bytes[..end.value]);
      if size.None? {
        return Invalid;
      }
      ghost var before := bytes;
      bytes := bytes[end.value + 2..];
      if size.value == 0 {
        var ended := HasEnd(bytes);
        PrependNothing(decoded, Incomplete);
        return if ended then Body(decoded) else Incomplete;
      }
      if |bytes| < size.value + 2 {
        return Incomplete;
      }
      var data := bytes[..size.value];
      if !CrlfAt(bytes, size.value) {
        return Invalid;
      }
      ChunkThenRest(decoded, before, end.value, size.value);
      bytes := bytes[size.value + 2..];
      decoded := decoded + data;
    }
  }

  lemma PrependTwice(a: seq<Byte>, b: seq<Byte>, rest: Decoded)
    ensures Prepend(a, Prepend(b, rest)) == Prepend(a + b, rest)
  {
    if rest.Body? {
      assert a + (b + rest.bytes) == a + b + rest.bytes;
    }
  }

  /** The search of the last step, window by window. */
  method HasEnd(rest: seq<Byte>) returns (ended: bool)
    ensures ended == Ended(rest)
  {
    if CrlfAt(rest, 0) {
      return true;
    }
    var k := 0;
    while k + 4 <= |rest|
      invariant forall j | 0 <= j < k :: !(CrlfAt(rest, j) && CrlfAt(rest, j + 2))
      invariant 0 <= k
    {
      if CrlfAt(rest, k) && CrlfAt(rest, k + 2) {
        return true;
      }
      k := k + 1;
    }
    return false;
  }

  // ----- answers are final -----

  lemma LineEndStable(bytes: seq<Byte>, more: seq<Byte>)
    requires LineEnd(bytes).Some?
    ensures LineEnd(bytes + more) == LineEnd(bytes)
  {
    var all := bytes + more;
    var k := LineEnd(bytes).value;
    assert forall j | 0 <= j <= k :: CrlfAt(all, j) == CrlfAt(bytes, j);
    assert CrlfAt(all, LineEnd(all).value);
  }

  lemma EndedStable(rest: seq<Byte>, more: seq<Byte>)
    requires Ended(rest)
    ensures Ended(rest + more)
  {
    assert forall k :: CrlfAt(rest, k) ==> CrlfAt(rest + more, k);
    if k :| 0 <= k < |rest| && CrlfAt(rest, k) && CrlfAt(rest, k + 2) {
      assert CrlfAt(rest + more, k) && CrlfAt(rest + more, k + 2);
    }
  }

  /** Once the decoder has answered, more input does not change its answer. */
  lemma {:induction false} AnswersAreFinal(bytes: seq<Byte>, more: seq<Byte>)
    requires !Decode(bytes).Incomplete?
    ensures Decode(bytes + more) == Decode(bytes)
    decreases |bytes|
  {
    LineEndStable(bytes, more);
    var e := LineEnd(bytes).value;
    var rest := bytes[e + 2..];
    assert (bytes + more)[..e] == bytes[..e] && (bytes + more)[e + 2..] == rest + more;
    var size := SizeOf(bytes[..e]);
    if size.Some? && size.value == 0 {
      EndedStable(rest, more);
    } else if size.Some? {
      assert CrlfAt(rest + more, size.value) == CrlfAt(rest, size.value);
      if CrlfAt(rest, size.value) {
        assert (rest + more)[..size.value] == rest[..size.value];
        assert (rest + more)[size.value + 2..] == rest[size.value + 2..] + more;
        AnswersAreFinal(rest[size.value + 2..], more);
      }
    }
  }

  // ----- the decoder accepts exactly the chunked form -----

  /** One chunk as it is spelled: its size line, with any extensions, and its data. */
  datatype Piece = Piece(line: seq<Byte>, data: seq<Byte>)

  /** A line that ends where its own CRLF begins. */
  predicate OneLine(line: seq<Byte>) {
    LineEnd(line).None?
  }

  predicate WellSpelled(piece: Piece) {
    OneLine(piece.line) && SizeOf(piece.line) == Some(|piece.data|) && piece.data != []
  }

  function Spell(pieces: seq<Piece>): seq<Byte> {
    if pieces == [] then []
    else pieces[0].line + CRLF + pieces[0].data + CRLF + Spell(pieces[1..])
  }

  function DataOf(pieces: seq<Piece>): seq<Byte> {
    if pieces == [] then [] else pieces[0].data + DataOf(pieces[1..])
  }

  /** A whole message: the chunks, the last size line, and what follows it. */
  function Message(pieces: seq<Piece>, last: seq<Byte>, tail: seq<Byte>): seq<Byte> {
    Spell(pieces) + last + CRLF + tail
  }

  predicate IsLast(line: seq<Byte>) {
    OneLine(line) && SizeOf(line) == Some(0)
  }

  lemma LineEndAt(line: seq<Byte>, rest: seq<Byte>)
    requires OneLine(line)
    ensures LineEnd(line + CRLF + rest) == Some(|line|)
  {
    var all := line + CRLF + rest;
    assert CrlfAt(all, |line|);
    forall k | 0 <= k < |line|
      ensures !CrlfAt(all, k)
    {
      assert CrlfAt(all, k) ==> CrlfAt(line, k);
    }
  }

  lemma MessageHead(pieces: seq<Piece>, last: seq<Byte>, tail: seq<Byte>)
    requires pieces != []
    ensures Message(pieces, last, tail)
         == pieces[0].line + CRLF + (pieces[0].data + CRLF + Message(pieces[1..], last, tail))
  {
  }

  /** Decoding undoes the coding, with anything after the end of the message. */
  lemma {:induction false} DecodesMessages(pieces: seq<Piece>, last: seq<Byte>, tail: seq<Byte>)
    requires forall k | 0 <= k < |pieces| :: WellSpelled(pieces[k])
    requires IsLast(last) && Ended(tail)
    ensures Decode(Message(pieces, last, tail)) == Body(DataOf(pieces))
    decreases |pieces|
  {
    var all := Message(pieces, last, tail);
    if pieces == [] {
      assert all == last + CRLF + tail;
      LineEndAt(last, tail);
      assert all[..|last|] == last && all[|last| + 2..] == tail;
    } else {
      var p, after := pieces[0], Message(pieces[1..], last, tail);
      MessageHead(pieces, last, tail);
      var rest := p.data + CRLF + after;
      LineEndAt(p.line, rest);
      assert all[..|p.line|] == p.line && all[|p.line| + 2..] == rest;
      assert WellSpelled(p) && CrlfAt(rest, |p.data|);
      assert rest[..|p.data|] == p.data && rest[|p.data| + 2..] == after;
      DecodesMessages(pieces[1..], last, tail);
    }
  }

  lemma FirstLine(bytes: seq<Byte>) returns (line: seq<Byte>, rest: seq<Byte>)
    requires LineEnd(bytes).Some?
    ensures OneLine(line) && bytes == line + CRLF + rest
    ensures line == bytes[..LineEnd(bytes).value] && rest == bytes[LineEnd(bytes).value + 2..]
  {
    var e := LineEnd(bytes).value;
    line, rest := bytes[..e], bytes[e + 2..];
    assert forall k :: CrlfAt(line, k) ==> CrlfAt(bytes, k) && k < e;
  }

  /** Whatever decodes has the chunked form: its chunks, last line and tail can be recovered. */
  lemma {:induction false} DecodedIsMessage(bytes: seq<Byte>)
      returns (pieces: seq<Piece>, last: seq<Byte>, tail: seq<Byte>)
    requires Decode(bytes).Body?
    ensures forall k | 0 <= k < |pieces| :: WellSpelled(pieces[k])
    ensures IsLast(last) && Ended(tail)
    ensures bytes == Message(pieces, last, tail) && Decode(bytes) == Body(DataOf(pieces))
    decreases |bytes|
  {
    var line, rest := FirstLine(bytes);
    var size := SizeOf(line).value;
    if size == 0 {
      pieces, last, tail := [], line, rest;
    } else {
      var after := rest[size + 2..];
      var piece := Piece(line, rest[..size]);
      var more;
      more, last, tail := DecodedIsMessage(after);
      pieces := [piece] + more;
      PieceThen(piece, more, last, tail, rest);
    }
  }

  lemma PieceThen(piece: Piece, more: seq<Piece>, last: seq<Byte>, tail: seq<Byte>, rest: seq<Byte>)
    requires CrlfAt(rest, |piece.data|) && rest[..|piece.data|] == piece.data
    requires rest[|piece.data| + 2..] == Message(more, last, tail)
    ensures piece.line + CRLF + rest == Message([piece] + more, last, tail)
    ensures DataOf([piece] + more) == piece.data + DataOf(more)
  {
    assert ([piece] + more)[1..] == more;
    assert rest == piece.data + CRLF + Message(more, last, tail);
    MessageHead([piece] + more, last, tail);
  }

  /** A line cut short is no line. */
  lemma CutLine(line: seq<Byte>, rest: seq<Byte>, n: nat)
    requires OneLine(line) && n < |line| + 2
    ensures LineEnd((line + CRLF + rest)[..n]).None?
  {
    var all := line + CRLF + rest;
    LineEndAt(line, rest);
    assert forall k :: CrlfAt(all[..n], k) ==> CrlfAt(all, k) && k < |line|;
  }

  /** Cut inside its data a piece is incomplete; cut after it, what follows decides. */
  lemma CutPiece(piece: Piece, after: seq<Byte>, m: nat)
    requires WellSpelled(piece) && m <= |piece.data| + 2 + |after|
    requires m >= |piece.data| + 2 ==> Decode(after[..m - |piece.data| - 2]).Incomplete?
    ensures Decode(piece.line + CRLF + (piece.data + CRLF + after)[..m]) == Incomplete
  {
    var rest := (piece.data + CRLF + after)[..m];
    var all := piece.line + CRLF + rest;
    LineEndAt(piece.line, rest);
    assert all[..|piece.line|] == piece.line && all[|piece.line| + 2..] == rest;
    if m >= |piece.data| + 2 {
      assert rest == piece.data + CRLF + after[..m - |piece.data| - 2];
      assert rest[|piece.data| + 2..] == after[..m - |piece.data| - 2];
    }
  }

  lemma CutLast(last: seq<Byte>, rest: seq<Byte>)
    requires IsLast(last) && !Ended(rest)
    ensures Decode(last + CRLF + rest) == Incomplete
  {
    LineEndAt(last, rest);
    assert (last + CRLF + rest)[..|last|] == last && (last + CRLF + rest)[|last| + 2..] == rest;
  }

  /** Nothing shorter than the whole message is taken for it. */
  lemma {:induction false} PrefixesAreIncomplete(pieces: seq<Piece>, last: seq<Byte>, tail: seq<Byte>, n: nat)
    requires forall k | 0 <= k < |pieces| :: WellSpelled(pieces[k])
    requires IsLast(last) && forall k | 0 <= k < |tail| :: !Ended(tail[..k])
    requires n < |Message(pieces, last, tail)|
    ensures Decode(Message(pieces, last, tail)[..n]) == Incomplete
    decreases |pieces|
  {
    var line := if pieces == [] then last else pieces[0].line;
    var rest := if pieces == [] then tail else pieces[0].data + CRLF + Message(pieces[1..], last, tail);
    assert Message(pieces, last, tail) == line + CRLF + rest by {
      if pieces != [] { MessageHead(pieces, last, tail); }
    }
    assert pieces != [] ==> WellSpelled(pieces[0]);
    if n < |line| + 2 {
      CutLine(line, rest, n);
    } else {
      var m := n - |line| - 2;
      assert (line + CRLF + rest)[..n] == line + CRLF + rest[..m];
      if pieces == [] {
        CutLast(last, tail[..m]);
      } else {
        if m >= |pieces[0].data| + 2 {
          PrefixesAreIncomplete(pieces[1..], last, tail, m - |pieces[0].data| - 2);
        }
        CutPiece(pieces[0], Message(pieces[1..], last, tail), m);
      }
    }
  }

  // ----- the coding of RFC 9112 -----

  function HexDigit(d: nat): Byte
    requires d < 16
  {
    if d < 10 then '0' as int + d else 'a' as int + d - 10
  }

  /** `chunk-size`: the size in hexadecimal. */
  function Hex(n: nat): seq<Byte> {
    if n < 16 then [HexDigit(n)] else Hex(n / 16) + [HexDigit(n % 16)]
  }

  predicate IsHexDigit(b: int) {
    '0' as int <= b <= '9' as int || 'a' as int <= b <= 'f' as int
  }

  lemma {:induction false} HexIsRead(n: nat)
    ensures Hex(n) != [] && forall k | 0 <= k < |Hex(n)| :: IsHexDigit(Hex(n)[k])
    ensures Digits(Hex(n), 16) == Some(n)
  {
    if n >= 16 {
      HexIsRead(n / 16);
      assert Hex(n)[..|Hex(n)| - 1] == Hex(n / 16);
    } else {
      assert Digits([], 16) == Some(0) && Hex(n)[..0] == [];
    }
  }

  /** A size line may carry extensions after a semicolon; they are ignored. */
  lemma SizeLineIsRead(n: nat, extension: seq<Byte>)
    requires n <= USIZE_MAX
    requires extension == [] || extension[0] == SEMICOLON
    requires forall k | 0 <= k < |extension| :: extension[k] < 0x80
    ensures SizeOf(Hex(n) + extension) == Some(n)
  {
    HexIsRead(n);
    Utf8OfAscii(Hex(n) + extension);
    StopsAtSemicolon(Hex(n), extension);
    var digits: seq<int> := Hex(n);
    assert digits[0] != PLUS && !IsSpace(digits[0]) && !IsSpace(digits[|digits| - 1]);
  }

  lemma {:induction false} StopsAtSemicolon(text: seq<int>, extension: seq<int>)
    requires forall k | 0 <= k < |text| :: text[k] != SEMICOLON
    requires extension == [] || extension[0] == SEMICOLON
    ensures UpToSemicolon(text + extension) == text
  {
    if text == [] {
      assert text + extension == extension;
    } else {
      StopsAtSemicolon(text[1..], extension);
      assert (text + extension)[1..] == text[1..] + extension;
    }
  }

  function Pieces(chunks: seq<seq<Byte>>): seq<Piece> {
    if chunks == [] then [] else [Piece(Hex(|chunks[0]|), chunks[0])] + Pieces(chunks[1..])
  }

  /** A trailer section: its lines, then the empty line that ends the message. */
  function Trailers(lines: seq<seq<Byte>>): seq<Byte> {
    if lines == [] then CRLF else lines[0] + CRLF + Trailers(lines[1..])
  }

  function Encode(chunks: seq<seq<Byte>>, trailers: seq<seq<Byte>>): seq<Byte> {
    Message(Pieces(chunks), Hex(0), Trailers(trailers))
  }

  predicate IsTrailer(line: seq<Byte>) {
    line != [] && OneLine(line)
  }

  lemma {:induction false} TrailersEnd(lines: seq<seq<Byte>>)
    requires forall k | 0 <= k < |lines| :: IsTrailer(lines[k])
    ensures lines == [] ==> CrlfAt(Trailers(lines), 0)
    ensures lines != [] ==> exists k :: 0 <= k < |Trailers(lines)| && CrlfAt(Trailers(lines), k) && CrlfAt(Trailers(lines), k + 2)
  {
    if lines != [] {
      var n, rest := |lines[0]|, Trailers(lines[1..]);
      var all := Trailers(lines);
      assert forall k :: CrlfAt(rest, k) ==> CrlfAt(all, n + 2 + k);
      assert CrlfAt(all, n);
      TrailersEnd(lines[1..]);
      if lines[1..] == [] {
        assert CrlfAt(all, n + 2);
      } else {
        var k :| 0 <= k < |rest| && CrlfAt(rest, k) && CrlfAt(rest, k + 2);
        assert CrlfAt(all, n + 2 + k) && CrlfAt(all, n + 4 + k);
      }
    }
  }

  /** No end in the first line, and none after it, is no end at all. */
  lemma NoEndAfterLine(all: seq<Byte>, rest: seq<Byte>, m: nat, n: nat)
    requires m + 2 < n <= |all| && rest == all[m + 2..]
    requires forall k | 0 <= k < m :: !CrlfAt(all, k)
    requires CrlfAt(all, m)
    requires m > 0 && !Ended(rest[..n - m - 2])
    ensures !Ended(all[..n])
  {
    var part := rest[..n - m - 2];
    forall k: int ensures CrlfAt(all[..n], k) ==> CrlfAt(all, k) && (k >= m + 2 ==> CrlfAt(part, k - m - 2)) {
    }
    assert forall k: int :: CrlfAt(all[..n], k) && k >= m ==> k == m || k >= m + 2;
  }

  lemma NoEndBefore(lines: seq<seq<Byte>>, n: nat)
    requires forall k | 0 <= k < |lines| :: IsTrailer(lines[k])
    requires n < |Trailers(lines)|
    ensures !Ended(Trailers(lines)[..n])
  {
    if lines != [] {
      var line, rest := lines[0], Trailers(lines[1..]);
      var all := Trailers(lines);
      var m := |line|;
      LineEndAt(line, rest);
      assert all == line + CRLF + rest;
      if n <= m + 2 {
        assert forall k | 0 <= k :: CrlfAt(all[..n], k) ==> CrlfAt(all, k);
      } else {
        NoEndBefore(lines[1..], n - m - 2);
        NoEndAfterLine(all, rest, m, n);
      }
      assert !CrlfAt(all, 0);
    }
  }

  lemma PiecesSpell(chunks: seq<seq<Byte>>)
    requires forall k | 0 <= k < |chunks| :: 0 < |chunks[k]| <= USIZE_MAX
    ensures forall k | 0 <= k < |Pieces(chunks)| :: WellSpelled(Pieces(chunks)[k])
    ensures DataOf(Pieces(chunks)) == Concat(chunks)
  {
    if chunks != [] {
      PiecesSpell(chunks[1..]);
      HexLine(|chunks[0]|);
      assert Pieces(chunks)[1..] == Pieces(chunks[1..]);
    }
  }

  lemma HexLine(n: nat)
    requires n <= USIZE_MAX
    ensures OneLine(Hex(n)) && SizeOf(Hex(n)) == Some(n)
  {
    HexIsRead(n);
    SizeLineIsRead(n, []);
    assert Hex(n) + [] == Hex(n);
  }

  /**
    Round trip: decoding gives back the data of every list of non-empty chunks,
    whatever trailers and further bytes follow, and takes no shorter input for
    the whole message.
  */
  lemma DecodeUndoesEncode(chunks: seq<seq<Byte>>, trailers: seq<seq<Byte>>, more: seq<Byte>, n: nat)
    requires forall k | 0 <= k < |chunks| :: 0 < |chunks[k]| <= USIZE_MAX
    requires forall k | 0 <= k < |trailers| :: IsTrailer(trailers[k])
    requires n < |Encode(chunks, trailers)|
    ensures Decode(Encode(chunks, trailers) + more) == Body(Concat(chunks))
    ensures Decode(Encode(chunks, trailers)[..n]) == Incomplete
  {
    PiecesSpell(chunks);
    HexLine(0);
    TrailersEnd(trailers);
    forall k | 0 <= k < |Trailers(trailers)|
      ensures !Ended(Trailers(trailers)[..k])
    {
      NoEndBefore(trailers, k);
    }
    DecodesMessages(Pieces(chunks), Hex(0), Trailers(trailers));
    AnswersAreFinal(Encode(chunks, trailers), more);
    PrefixesAreIncomplete(Pieces(chunks), Hex(0), Trailers(trailers), n);
  }
}
