/**
  Incremental line splitting, written twice: js/src/index.ts (`lines` splits the
  pending text at a pattern) and python/src/wasmer_sdk/_api.py (`lines` cuts at
  one newline at a time). Chunks are already decoded; the decoder's last output
  has no newline, since a UTF-8 decoder can only report a truncated character.
*/
module Lines {
  import opened Bytes

  /** Text split at every CR LF and every LF without a CR before it, as `split(/\\r?\\n/)` does. There is always a last piece. */
  function Split(text: string): (pieces: seq<string>)
    ensures pieces != []
    decreases |text|
  {
    if text == "" then [""]
    else if text[0] == '\n' then [""] + Split(text[1..])
    else if text[0] == '\r' && |text| > 1 && text[1] == '\n' then [""] + Split(text[2..])
    else
      var rest := Split(text[1..]);
      [[text[0]] + rest[0]] + rest[1..]
  }

  function Last(pieces: seq<string>): string
    requires pieces != []
  {
    pieces[|pieces| - 1]
  }

  function Front(pieces: seq<string>): seq<string>
    requires pieces != []
  {
    pieces[..|pieces| - 1]
  }

  /** The lines of a text: its pieces, without an empty last one. */
  function LinesOf(text: string): seq<string> {
    var pieces := Split(text);
    if Last(pieces) == "" then Front(pieces) else pieces
  }

  // ----- what splitting means -----

  /** The pieces with the separators between them. */
  function Join(pieces: seq<string>, separators: seq<string>): string
    requires |pieces| == |separators| + 1
  {
    if separators == [] then pieces[0]
    else pieces[0] + separators[0] + Join(pieces[1..], separators[1..])
  }

  /** Separators are LF or CR LF, and no CR that belongs to a separator is left in a piece. */
  predicate Separates(pieces: seq<string>, separators: seq<string>) {
    && |pieces| == |separators| + 1
    && (forall k | 0 <= k < |pieces| :: '\n' !in pieces[k])
    && (forall k | 0 <= k < |separators| ::
          || separators[k] == "\r\n"
          || (separators[k] == "\n" && (pieces[k] == "" || pieces[k][|pieces[k]| - 1] != '\r')))
  }

  lemma {:induction false} SplitBefore(piece: string, separator: string, rest: string)
    requires '\n' !in piece
    requires separator == "\r\n" || (separator == "\n" && (piece == "" || piece[|piece| - 1] != '\r'))
    ensures Split(piece + separator + rest) == [piece] + Split(rest)
  {
    var text := piece + separator + rest;
    if piece == "" {
      assert text == separator + rest;
      assert text[|separator|..] == rest;
    } else {
      assert text[1..] == piece[1..] + separator + rest;
      SplitBefore(piece[1..], separator, rest);
      if |piece| == 1 && separator == "\n" { assert text[0] != '\r'; }
      if |piece| > 1 { assert text[1] == piece[1]; }
      assert [piece[0]] + piece[1..] == piece;
    }
  }

  lemma {:induction false} SplitNone(text: string)
    requires '\n' !in text
    ensures Split(text) == [text]
  {
    if text != "" {
      SplitNone(text[1..]);
      assert [text[0]] + text[1..] == text;
    }
  }

  /** Splitting undoes joining. */
  lemma {:induction false} SplitUndoesJoin(pieces: seq<string>, separators: seq<string>)
    requires Separates(pieces, separators)
    ensures Split(Join(pieces, separators)) == pieces
  {
    if separators == [] {
      SplitNone(pieces[0]);
    } else {
      SplitUndoesJoin(pieces[1..], separators[1..]);
      SplitBefore(pieces[0], separators[0], Join(pieces[1..], separators[1..]));
      assert pieces == [pieces[0]] + pieces[1..];
    }
  }

  /** The lines of a text are what its line ends terminate, and what comes after the last of them unless that is empty. */
  lemma LinesAreTerminated(lines: seq<string>, separators: seq<string>, tail: string)
    requires Separates(lines + [tail], separators)
    ensures LinesOf(Join(lines + [tail], separators)) == if tail == "" then lines else lines + [tail]
  {
    SplitUndoesJoin(lines + [tail], separators);
    assert (lines + [tail])[..|lines|] == lines;
  }

  lemma EmptyFirst(separator: string, pieces: seq<string>, separators: seq<string>)
    requires Separates(pieces, separators) && (separator == "\n" || separator == "\r\n")
    ensures Separates([""] + pieces, [separator] + separators)
    ensures Join([""] + pieces, [separator] + separators) == separator + Join(pieces, separators)
  {
    assert ([""] + pieces)[1..] == pieces && ([separator] + separators)[1..] == separators;
    assert "" + separator == separator;
  }

  /** Every text is its pieces joined: nothing but the separators is lost. */
  lemma {:induction false} JoinUndoesSplit(text: string) returns (separators: seq<string>)
    ensures Separates(Split(text), separators) && Join(Split(text), separators) == text
    decreases |text|
  {
    if text == "" {
      separators := [];
    } else if text[0] == '\n' {
      var rest := JoinUndoesSplit(text[1..]);
      separators := ["\n"] + rest;
      EmptyFirst("\n", Split(text[1..]), rest);
      assert text == "\n" + text[1..];
    } else if text[0] == '\r' && |text| > 1 && text[1] == '\n' {
      var rest := JoinUndoesSplit(text[2..]);
      separators := ["\r\n"] + rest;
      EmptyFirst("\r\n", Split(text[2..]), rest);
      assert text == "\r\n" + text[2..];
    } else {
      separators := JoinUndoesSplit(text[1..]);
      FirstPieceGrows(text, separators);
    }
  }

  lemma JoinGrows(c: char, first: string, rest: seq<string>, separators: seq<string>)
    requires |rest| == |separators|
    ensures Join([[c] + first] + rest, separators) == [c] + Join([first] + rest, separators)
  {
    assert ([[c] + first] + rest)[1..] == rest && ([first] + rest)[1..] == rest;
    if separators != [] {
      AssociateFour([c], first, separators[0], Join(rest, separators[1..]));
    }
  }

  lemma SeparatesGrows(c: char, first: string, rest: seq<string>, separators: seq<string>)
    requires Separates([first] + rest, separators) && c != '\n'
    requires separators != [] && first == "" && separators[0] == "\n" ==> c != '\r'
    ensures Separates([[c] + first] + rest, separators)
  {
    var was, now := [first] + rest, [[c] + first] + rest;
    forall k | 0 <= k < |now| ensures '\n' !in now[k] {
      assert '\n' !in was[k];
    }
    forall k | 0 <= k < |separators|
      ensures separators[k] == "\r\n" || (separators[k] == "\n" && (now[k] == "" || now[k][|now[k]| - 1] != '\r'))
    {
      if k > 0 { assert now[k] == was[k]; }
    }
  }

  lemma FirstPieceGrows(text: string, separators: seq<string>)
    requires text != "" && text[0] != '\n' && !(text[0] == '\r' && |text| > 1 && text[1] == '\n')
    requires Separates(Split(text[1..]), separators) && Join(Split(text[1..]), separators) == text[1..]
    ensures Separates(Split(text), separators) && Join(Split(text), separators) == text
  {
    var pieces := Split(text[1..]);
    assert pieces == [pieces[0]] + pieces[1..];
    if separators != [] && pieces[0] == "" && separators[0] == "\n" {
      assert text[1..][0] == '\n';
    }
    SeparatesGrows(text[0], pieces[0], pieces[1..], separators);
    JoinGrows(text[0], pieces[0], pieces[1..], separators);
    assert [text[0]] + text[1..] == text;
  }

  // ----- chunks -----

  /** Splitting what has come so far, then the unfinished piece with what comes next, is splitting the whole. */
  lemma {:induction false} SplitAppend(text: string, more: string)
    ensures Split(text + more) == Front(Split(text)) + Split(Last(Split(text)) + more)
    decreases |text|
  {
    if text == "" {
      assert text + more == more;
      assert Split(text) == [""];
      assert "" + more == more;
    } else if text[0] == '\n' {
      assert (text + more)[1..] == text[1..] + more;
      SplitAppend(text[1..], more);
      assert Split(text) == [""] + Split(text[1..]);
    } else if text[0] == '\r' && |text| > 1 && text[1] == '\n' {
      assert (text + more)[2..] == text[2..] + more;
      SplitAppend(text[2..], more);
      assert Split(text) == [""] + Split(text[2..]);
    } else {
      SplitAppendCharacter(text, more);
    }
  }

  lemma GrowFirst(c: char, rest: seq<string>, ending: seq<string>)
    requires |rest| > 1
    ensures var whole := Front(rest) + ending;
      [[c] + whole[0]] + whole[1..] == Front([[c] + rest[0]] + rest[1..]) + ending
  {
  }

  lemma {:induction false} SplitAppendCharacter(text: string, more: string)
    requires text != "" && text[0] != '\n' && !(text[0] == '\r' && |text| > 1 && text[1] == '\n')
    ensures Split(text + more) == Front(Split(text)) + Split(Last(Split(text)) + more)
    decreases |text|, 0
  {
    var c, rest := text[0], Split(text[1..]);
    if |rest| == 1 {
      UnfinishedStays(text, more);
    } else {
      assert |text| > 1;
      assert (text + more)[1..] == text[1..] + more;
      SplitAppend(text[1..], more);
      GrowFirst(c, rest, Split(Last(rest) + more));
      assert Last(Split(text)) == Last(rest);
    }
  }

  lemma UnfinishedStays(text: string, more: string)
    requires text != "" && text[0] != '\n' && !(text[0] == '\r' && |text| > 1 && text[1] == '\n')
    requires |Split(text[1..])| == 1
    ensures Split(text + more) == Front(Split(text)) + Split(Last(Split(text)) + more)
  {
    UnfinishedIsAll(text[1..]);
    assert [text[0]] + text[1..] == text;
    var pieces := Split(text);
    assert pieces == [text];
    assert Front(pieces) == [];
  }

  /** A text with one piece is that piece. */
  lemma {:induction false} UnfinishedIsAll(text: string)
    requires |Split(text)| == 1
    ensures Split(text) == [text] && '\n' !in text
  {
    if text != "" {
      UnfinishedIsAll(text[1..]);
      assert [text[0]] + text[1..] == text;
    }
  }

  lemma {:induction false} LastHasNoNewline(text: string)
    ensures '\n' !in Last(Split(text))
    decreases |text|
  {
    var separators := JoinUndoesSplit(text);
    assert '\n' !in Split(text)[|Split(text)| - 1];
  }

  // ----- the two loops -----

  /** `lines` of js/src/index.ts. */
  method LinesJs(chunks: seq<string>, tail: string) returns (yielded: seq<string>)
    requires '\n' !in tail
    ensures yielded == LinesOf(Concat(chunks) + tail)
  {
    var pending := "";
    yielded := [];
    for i := 0 to |chunks|
      invariant Split(Concat(chunks[..i])) == yielded + [pending]
    {
      ghost var before := Concat(chunks[..i]);
      assert chunks[..i + 1] == chunks[..i] + [chunks[i]];
      ConcatSnoc(chunks[..i], chunks[i]);
      SplitAppend(before, chunks[i]);
      pending := pending + chunks[i];
      var lines := Split(pending);
      pending := Last(lines);
      yielded := yielded + Front(lines);
    }
    assert chunks[..|chunks|] == chunks;
    Finish(Concat(chunks), tail);
    pending := pending + tail;
    if pending != "" { yielded := yielded + [pending]; }
  }

  /** The end of both loops: what is pending is the last line, if it is not empty. */
  lemma Finish(text: string, tail: string)
    requires '\n' !in tail
    ensures Split(text + tail) == Front(Split(text)) + [Last(Split(text)) + tail]
  {
    SplitAppend(text, tail);
    LastHasNoNewline(text);
    SplitNone(Last(Split(text)) + tail);
  }

  /** `pending.split("\\n", 1)`: where the first newline is. */
  function FirstNewline(text: string): (k: Option<nat>)
    ensures k.None? ==> '\n' !in text
    ensures k.Some? ==> k.value < |text| && text[k.value] == '\n' && '\n' !in text[..k.value]
  {
    if text == "" then None
    else if text[0] == '\n' then Some(0)
    else
      var rest := FirstNewline(text[1..]);
      if rest.None? then None
      else
        assert text[..rest.value + 1] == [text[0]] + text[1..][..rest.value];
        Some(rest.value + 1)
  }

  /** `line[:-1] if line.endswith("\\r") else line` */
  function WithoutReturn(line: string): string {
    if line != "" && line[|line| - 1] == '\r' then line[..|line| - 1] else line
  }

  lemma CutAt(text: string, k: nat)
    requires k < |text| && text[k] == '\n'
    ensures text == text[..k] + "\n" + text[k + 1..]
  {
  }

  lemma CutReturn(line: string, rest: string)
    requires line != "" && line[|line| - 1] == '\r'
    ensures line + "\n" + rest == line[..|line| - 1] + "\r\n" + rest
  {
  }

  lemma CutAtNewline(text: string, k: nat)
    requires k < |text| && text[k] == '\n' && '\n' !in text[..k]
    ensures Split(text) == [WithoutReturn(text[..k])] + Split(text[k + 1..])
  {
    var line := text[..k];
    CutAt(text, k);
    if WithoutReturn(line) == line {
      SplitBefore(line, "\n", text[k + 1..]);
    } else {
      CutReturn(line, text[k + 1..]);
      SplitBefore(line[..k - 1], "\r\n", text[k + 1..]);
    }
  }

  /** `lines` of python/src/wasmer_sdk/_api.py. */
  method LinesPy(chunks: seq<string>, tail: string) returns (yielded: seq<string>)
    requires '\n' !in tail
    ensures yielded == LinesOf(Concat(chunks) + tail)
  {
    var pending := "";
    yielded := [];
    for i := 0 to |chunks|
      invariant Split(Concat(chunks[..i])) == yielded + [pending]
    {
      ghost var before := Concat(chunks[..i]);
      assert chunks[..i + 1] == chunks[..i] + [chunks[i]];
      ConcatSnoc(chunks[..i], chunks[i]);
      SplitAppend(before, chunks[i]);
      pending := pending + chunks[i];
      while FirstNewline(pending).Some?
        invariant yielded + Split(pending) == Split(before + chunks[i])
        decreases |pending|
      {
        var k := FirstNewline(pending).value;
        CutAtNewline(pending, k);
        yielded := yielded + [WithoutReturn(pending[..k])];
        pending := pending[k + 1..];
      }
      SplitNone(pending);
    }
    assert chunks[..|chunks|] == chunks;
    Finish(Concat(chunks), tail);
    pending := pending + tail;
    if pending != "" { yielded := yielded + [pending]; }
  }

  /** The two loops agree, on the same text however it was cut for either of them. */
  method BothAgree(js: seq<string>, py: seq<string>, jsTail: string, pyTail: string)
    returns (fromJs: seq<string>, fromPy: seq<string>)
    requires '\n' !in jsTail && '\n' !in pyTail && Concat(js) + jsTail == Concat(py) + pyTail
    ensures fromJs == fromPy == LinesOf(Concat(js) + jsTail)
  {
    fromJs := LinesJs(js, jsTail);
    fromPy := LinesPy(py, pyTail);
  }
}
