/** Which inputs `decode_chunked` of js/bindgen/src/browser_http.rs refuses: exactly those that break off from the chunked form. */
module ChunkedErrors {
  import opened Bytes
  import opened Chunked

  /** A line that is no size, or a chunk that does not end where its size says. */
  predicate Breaks(line: seq<Byte>, rest: seq<Byte>) {
    && OneLine(line)
    && (SizeOf(line).None? || (SizeOf(line).value > 0 && |rest| >= SizeOf(line).value + 2 && !CrlfAt(rest, SizeOf(line).value)))
  }

  lemma BreakIsInvalid(line: seq<Byte>, rest: seq<Byte>)
    requires Breaks(line, rest)
    ensures Decode(line + CRLF + rest) == Invalid
  {
    LineEndAt(line, rest);
    assert (line + CRLF + rest)[..|line|] == line && (line + CRLF + rest)[|line| + 2..] == rest;
  }

  lemma PieceFirst(piece: Piece, rest: seq<Byte>)
    requires WellSpelled(piece)
    ensures Decode(piece.line + CRLF + (piece.data + CRLF + rest)) == Prepend(piece.data, Decode(rest))
  {
    var after := piece.data + CRLF + rest;
    var all := piece.line + CRLF + after;
    LineEndAt(piece.line, after);
    assert all[..|piece.line|] == piece.line && all[|piece.line| + 2..] == after;
    assert CrlfAt(after, |piece.data|) && after[..|piece.data|] == piece.data && after[|piece.data| + 2..] == rest;
  }

  lemma SpellFirst(piece: Piece, more: seq<Piece>, rest: seq<Byte>)
    ensures Spell([piece] + more) + rest == piece.line + CRLF + (piece.data + CRLF + (Spell(more) + rest))
    ensures DataOf([piece] + more) == piece.data + DataOf(more)
  {
    assert ([piece] + more)[1..] == more;
  }

  /** Pieces at the front are decoded, whatever comes after them. */
  lemma {:induction false} PiecesFirst(pieces: seq<Piece>, rest: seq<Byte>)
    requires forall k | 0 <= k < |pieces| :: WellSpelled(pieces[k])
    ensures Decode(Spell(pieces) + rest) == Prepend(DataOf(pieces), Decode(rest))
  {
    if pieces == [] {
      assert Spell(pieces) + rest == rest;
      PrependNothing([], Decode(rest));
    } else {
      var p, more := pieces[0], pieces[1..];
      assert pieces == [p] + more && WellSpelled(p);
      PiecesFirst(more, rest);
      PieceFirst(p, Spell(more) + rest);
      SpellFirst(p, more, rest);
      PrependTwice(p.data, DataOf(more), Decode(rest));
    }
  }

  /** After any chunks, a break is an error. */
  lemma BreaksAreInvalid(pieces: seq<Piece>, line: seq<Byte>, rest: seq<Byte>)
    requires forall k | 0 <= k < |pieces| :: WellSpelled(pieces[k])
    requires Breaks(line, rest)
    ensures Decode(Spell(pieces) + (line + CRLF + rest)) == Invalid
  {
    BreakIsInvalid(line, rest);
    PiecesFirst(pieces, line + CRLF + rest);
  }

  lemma LineAndRest(line: seq<Byte>, rest: seq<Byte>)
    requires OneLine(line)
    ensures var all := line + CRLF + rest;
      LineEnd(all) == Some(|line|) && all[..|line|] == line && all[|line| + 2..] == rest
  {
    LineEndAt(line, rest);
  }

  lemma LastIsNotInvalid(bytes: seq<Byte>, e: nat, line: seq<Byte>, rest: seq<Byte>)
    requires LineEnd(bytes) == Some(e) && bytes[..e] == line && bytes[e + 2..] == rest
    requires SizeOf(line).Some? && (SizeOf(line).value == 0 || |rest| < SizeOf(line).value + 2)
    ensures !Decode(bytes).Invalid?
  {
  }

  lemma ChunkGoesOn(bytes: seq<Byte>, e: nat, line: seq<Byte>, rest: seq<Byte>, n: nat)
    requires LineEnd(bytes) == Some(e) && bytes[..e] == line && bytes[e + 2..] == rest
    requires SizeOf(line) == Some(n) && n > 0 && |rest| >= n + 2 && CrlfAt(rest, n)
    ensures Decode(bytes) == Prepend(rest[..n], Decode(rest[n + 2..]))
  {
  }

  /** Where a line does not break, and the input is invalid all the same, a chunk stands and what comes after it is invalid. */
  lemma NoBreakYet(bytes: seq<Byte>, line: seq<Byte>, rest: seq<Byte>, size: Option<nat>)
    requires LineEnd(bytes) == Some(|line|) && bytes[..|line|] == line && bytes[|line| + 2..] == rest
    requires OneLine(line) && SizeOf(line) == size && !Breaks(line, rest)
    ensures Decode(bytes).Invalid? ==>
      && size.Some? && size.value > 0 && |rest| >= size.value + 2 && CrlfAt(rest, size.value)
      && Decode(rest[size.value + 2..]).Invalid?
  {
    if size.Some? {
      if size.value == 0 || |rest| < size.value + 2 {
        LastIsNotInvalid(bytes, |line|, line, rest);
      } else if CrlfAt(rest, size.value) {
        ChunkGoesOn(bytes, |line|, line, rest, size.value);
      }
    }
  }

  lemma DataThenRest(rest: seq<Byte>, n: nat)
    requires |rest| >= n + 2 && CrlfAt(rest, n)
    ensures rest == rest[..n] + CRLF + rest[n + 2..]
  {
  }

  /** An invalid input breaks in its first line, or has a piece in front of an invalid one. */
  lemma FirstBreak(bytes: seq<Byte>) returns (breaks: bool, line: seq<Byte>, rest: seq<Byte>, data: seq<Byte>, after: seq<Byte>)
    requires Decode(bytes).Invalid?
    ensures bytes == line + CRLF + rest && breaks == Breaks(line, rest)
    ensures !breaks ==> WellSpelled(Piece(line, data)) && rest == data + CRLF + after && Decode(after).Invalid?
  {
    line, rest := FirstLine(bytes);
    breaks, data, after := Breaks(line, rest), [], [];
    if !breaks {
      LineAndRest(line, rest);
      NoBreakYet(bytes, line, rest, SizeOf(line));
      var n := SizeOf(line).value;
      DataThenRest(rest, n);
      data, after := rest[..n], rest[n + 2..];
    }
  }

  /** And every error is a break. */
  lemma {:induction false} InvalidIsBroken(bytes: seq<Byte>) returns (pieces: seq<Piece>, line: seq<Byte>, rest: seq<Byte>)
    requires Decode(bytes).Invalid?
    ensures forall k | 0 <= k < |pieces| :: WellSpelled(pieces[k])
    ensures Breaks(line, rest) && bytes == Spell(pieces) + (line + CRLF + rest)
    decreases |bytes|
  {
    var breaks, first, next, data, after := FirstBreak(bytes);
    if breaks {
      pieces, line, rest := [], first, next;
      assert Spell([]) + bytes == bytes;
    } else {
      var more;
      more, line, rest := InvalidIsBroken(after);
      pieces := [Piece(first, data)] + more;
      SpellFirst(Piece(first, data), more, line + CRLF + rest);
    }
  }
}
