/**
  Shell templates of js/src/index.ts: `escapeShellWord`, `escapeShellValue` and
  `Sandbox.sh`, against the quoting rules of the shell command language
  (POSIX.1-2017, XCU sections 2.2.1 to 2.2.3).
*/
module ShellQuoting {
  import opened Bytes

  // ----- quoting -----

  /** `value.replaceAll("'", "'\\''")` */
  function QuotesReplaced(value: string): string {
    if value == "" then ""
    else (if value[0] == '\'' then "'\\''" else [value[0]]) + QuotesReplaced(value[1..])
  }

  function EscapeWord(value: string): string {
    "'" + QuotesReplaced(value) + "'"
  }

  /** An array becomes its words with spaces between them. */
  function EscapeWords(values: seq<string>): string {
    if values == [] then ""
    else if |values| == 1 then EscapeWord(values[0])
    else EscapeWord(values[0]) + " " + EscapeWords(values[1..])
  }

  datatype Value = One(word: string) | Many(words: seq<string>)

  function EscapeValue(value: Value): string {
    match value
    case One(word) => EscapeWord(word)
    case Many(words) => EscapeWords(words)
  }

  /** The script of a template, whose literal parts stand around its values. */
  function Script(strings: seq<string>, values: seq<Value>): string
    requires |strings| == |values| + 1
  {
    if values == [] then strings[0]
    else strings[0] + EscapeValue(values[0]) + Script(strings[1..], values[1..])
  }

  // ----- the shell's rules -----

  /** A character of a word. A literal one was quoted and has lost any special meaning. */
  datatype Cell = Cell(c: char, literal: bool)

  /**
    Where a lexer is. `Name` and `Brace` are inside a parameter expansion between
    double quotes, or in braces, where only a name is followed. `Beyond` is sticky: the text has used something
    that is not followed here, and nothing is said of what comes after it.
  */
  datatype Mode =
    | Unquoted
    | Escape
    | Comment
    | Single
    | Double
    | DoubleEscape
    | DoubleDollar
    | Name
    | Brace(quoted: bool)
    | Beyond

  /**
    The unquoted character just read, where it matters for the next one. After
    a closing parenthesis a word goes on if it closed a substitution, and not
    if it closed a subshell or a pattern; the two are not told apart.
  */
  datatype After = Plain | Dollar | Less | Paren | Closed

  /**
    A lexer in the middle of a script: the words so far, and the word it is in,
    if it is in one. Operators and newlines are words of their own; so are the
    parentheses of a command substitution.
  */
  datatype Lexer = Lexer(mode: Mode, after: After, started: bool, word: seq<Cell>, words: seq<seq<Cell>>)

  const START := Lexer(Unquoted, Plain, false, [], [])

  predicate IsBlank(c: char) {
    c == ' ' || c == '\t'
  }

  predicate IsOperator(c: char) {
    c == ';' || c == '&' || c == '|' || c == '(' || c == ')' || c == '<' || c == '>' || c == '\n'
  }

  predicate IsNameCharacter(c: char) {
    'a' <= c <= 'z' || 'A' <= c <= 'Z' || '0' <= c <= '9' || c == '_'
  }

  /** What may follow a dollar sign as a parameter; what follows it otherwise, XCU section 2.6 leaves open. */
  predicate IsParameter(c: char) {
    IsNameCharacter(c) || c == '@' || c == '*' || c == '#' || c == '?' || c == '-' || c == '$' || c == '!'
  }

  function Put(l: Lexer, mode: Mode, c: char, literal: bool): Lexer {
    l.(mode := mode, after := Plain, started := true, word := l.word + [Cell(c, literal)])
  }

  /** The end of a word, if there is one. */
  function EndWord(l: Lexer): Lexer {
    if l.started then Lexer(Unquoted, Plain, false, [], l.words + [l.word]) else l.(mode := Unquoted, after := Plain)
  }

  /** An operator ends the word before it. */
  function Operator(l: Lexer, c: char): Lexer {
    var ended := EndWord(l);
    ended.(words := ended.words + [[Cell(c, false)]],
           after := if c == '<' then Less else if c == '(' then Paren else if c == ')' then Closed else Plain)
  }

  /** After a dollar sign that nothing quotes. */
  function AfterDollar(l: Lexer, c: char): Lexer {
    if c == '{' then Put(l, Brace(false), c, false)
    else if c == '(' then Operator(l, c)
    else if IsParameter(c) then Put(l, Unquoted, c, false)
    else l.(mode := Beyond)
  }

  /**
    A backquote, a here-document, an arithmetic expression, and a parenthesis
    inside a word, as arrays have it, are not followed; nor is a `#` that is a
    comment or not by what was closed before it.
  */
  predicate LeadsBeyond(l: Lexer, c: char) {
    || c == '`'
    || (c == '<' && l.after.Less?)
    || (c == '(' && (l.after.Paren? || l.started))
    || (c == '#' && l.after.Closed?)
  }

  /** Nothing is quoted. */
  function NextUnquoted(l: Lexer, c: char): Lexer {
    if l.after.Dollar? then AfterDollar(l, c)
    else if LeadsBeyond(l, c) then l.(mode := Beyond)
    else if c == '\\' then l.(mode := Escape)
    else if c == '\'' then l.(mode := Single, after := Plain, started := true)
    else if c == '"' then l.(mode := Double, after := Plain, started := true)
    else if c == '#' && !l.started then l.(mode := Comment, after := Plain)
    else if IsBlank(c) then EndWord(l)
    else if IsOperator(c) then Operator(l, c)
    else if c == '$' then Put(l, Unquoted, c, false).(after := Dollar)
    else Put(l, Unquoted, c, false)
  }

  /** Between double quotes. A backquote or a substitution there is not followed. */
  function NextDouble(l: Lexer, c: char): Lexer {
    if c == '"' then l.(mode := Unquoted, after := Plain)
    else if c == '\\' then l.(mode := DoubleEscape)
    else if c == '`' then l.(mode := Beyond)
    else if c == '$' then Put(l, DoubleDollar, c, false)
    else Put(l, Double, c, true)
  }

  function Next(l: Lexer, c: char): Lexer {
    match l.mode
    case Unquoted => NextUnquoted(l, c)
    case Escape => if c == '\n' then l.(mode := Unquoted) else Put(l, Unquoted, c, true)
    case Comment => if c == '\n' then Operator(l, c) else l
    case Single => if c == '\'' then l.(mode := Unquoted, after := Plain) else Put(l, Single, c, true)
    case Double => NextDouble(l, c)
    case DoubleEscape =>
      if c == '\n' then l.(mode := Double)
      else if c == '$' || c == '`' || c == '"' || c == '\\' then Put(l, Double, c, true)
      else Put(Put(l, Double, '\\', true), Double, c, true)
    case DoubleDollar =>
      if c == '{' then Put(l, Brace(true), c, false)
      else if IsNameCharacter(c) then Put(l, Name, c, false)
      else if IsParameter(c) then Put(l, Double, c, false)
      else l.(mode := Beyond)
    case Name => if IsNameCharacter(c) then Put(l, Name, c, false) else NextDouble(l, c)
    case Brace(quoted) =>
      if c == '}' then Put(l, if quoted then Double else Unquoted, c, false)
      else if IsNameCharacter(c) then Put(l, Brace(quoted), c, false)
      else l.(mode := Beyond)
    case Beyond => l
  }

  function Lex(l: Lexer, text: string): Lexer
    decreases |text|
  {
    if text == "" then l else Lex(Next(l, text[0]), text[1..])
  }

  /** The words of a complete script; none if a quotation is left open, or if the text went beyond what is followed. */
  function Words(l: Lexer): Option<seq<seq<Cell>>> {
    if (l.mode.Unquoted? && !l.after.Dollar?) || l.mode.Comment? then Some(EndWord(l).words) else None
  }

  /** Nothing is quoted, nor about to be, and no comment is open. */
  predicate IsOpen(l: Lexer) {
    l.mode.Unquoted? && !l.after.Dollar?
  }

  // ----- splicing -----

  function Literal(value: string): seq<Cell> {
    seq(|value|, k requires 0 <= k < |value| => Cell(value[k], true))
  }

  /** A word of data goes on with the word at its place. */
  function SpliceWord(l: Lexer, value: string): Lexer {
    l.(after := Plain, started := true, word := l.word + Literal(value))
  }

  function SpliceWords(l: Lexer, values: seq<string>): Lexer
    decreases |values|
  {
    if values == [] then l
    else if |values| == 1 then SpliceWord(l, values[0])
    else SpliceWords(EndWord(SpliceWord(l, values[0])), values[1..])
  }

  function Splice(l: Lexer, value: Value): Lexer {
    match value
    case One(word) => SpliceWord(l, word)
    case Many(words) => SpliceWords(l, words)
  }

  lemma {:induction false} LexAppend(l: Lexer, a: string, b: string)
    ensures Lex(l, a + b) == Lex(Lex(l, a), b)
    decreases |a|
  {
    if a == "" {
      assert a + b == b;
    } else {
      assert (a + b)[1..] == a[1..] + b;
      LexAppend(Next(l, a[0]), a[1..], b);
    }
  }

  lemma LexOne(l: Lexer, c: char)
    ensures Lex(l, [c]) == Next(l, c)
  {
    assert Lex(Next(l, c), [c][1..]) == Next(l, c);
  }

  lemma LiteralCons(value: string)
    requires value != ""
    ensures Literal(value) == [Cell(value[0], true)] + Literal(value[1..])
  {
  }

  /** Inside single quotes, a quote is left, escaped and entered again. */
  lemma QuoteInside(l: Lexer)
    requires l.mode.Single? && l.started && l.after.Plain?
    ensures Lex(l, "'\\''") == l.(word := l.word + [Cell('\'', true)])
  {
    var s := "'\\''";
    assert s[1..] == "\\''" && s[1..][1..] == "''" && s[1..][1..][1..] == "'" && s[1..][1..][1..][1..] == "";
    var l1 := Next(l, '\'');
    var l2 := Next(l1, '\\');
    var l3 := Next(l2, '\'');
    assert Lex(l, s) == Lex(l1, "\\''");
    assert Lex(l1, "\\''") == Lex(l2, "''");
    assert Lex(l2, "''") == Lex(l3, "'");
    LexOne(l3, '\'');
  }

  lemma {:induction false} InsideIsLiteral(l: Lexer, value: string)
    requires l.mode.Single? && l.started && l.after.Plain?
    ensures Lex(l, QuotesReplaced(value)) == l.(word := l.word + Literal(value))
    decreases |value|
  {
    if value == "" {
      assert l.word + Literal(value) == l.word;
    } else {
      var head := if value[0] == '\'' then "'\\''" else [value[0]];
      LexAppend(l, head, QuotesReplaced(value[1..]));
      var l1 := l.(word := l.word + [Cell(value[0], true)]);
      if value[0] == '\'' { QuoteInside(l); } else { LexOne(l, value[0]); }
      assert Lex(l, head) == l1;
      InsideIsLiteral(l1, value[1..]);
      LiteralCons(value);
      assert l1.word + Literal(value[1..]) == l.word + Literal(value);
    }
  }

  /** Where nothing is quoted, an escaped word is its characters as data, and leaves nothing quoted. */
  lemma EscapedIsData(l: Lexer, value: string)
    requires IsOpen(l)
    ensures Lex(l, EscapeWord(value)) == SpliceWord(l, value)
  {
    var inside := l.(mode := Single, after := Plain, started := true);
    LexAppend(l, "'" + QuotesReplaced(value), "'");
    LexAppend(l, "'", QuotesReplaced(value));
    LexOne(l, '\'');
    InsideIsLiteral(inside, value);
    LexOne(inside.(word := inside.word + Literal(value)), '\'');
  }

  lemma {:induction false} EscapedWordsAreData(l: Lexer, values: seq<string>)
    requires IsOpen(l)
    ensures Lex(l, EscapeWords(values)) == SpliceWords(l, values)
    ensures IsOpen(SpliceWords(l, values))
    decreases |values|
  {
    if values != [] {
      EscapedIsData(l, values[0]);
      if |values| > 1 {
        var spliced := SpliceWord(l, values[0]);
        LexAppend(l, EscapeWord(values[0]) + " ", EscapeWords(values[1..]));
        LexAppend(l, EscapeWord(values[0]), " ");
        LexOne(spliced, ' ');
        EscapedWordsAreData(EndWord(spliced), values[1..]);
      }
    }
  }

  // ----- main results -----

  lemma {:induction false} SplicedWords(l: Lexer, values: seq<string>)
    requires IsOpen(l) && !l.started && l.word == []
    ensures Words(SpliceWords(l, values)) == Some(l.words + seq(|values|, k requires 0 <= k < |values| => Literal(values[k])))
    decreases |values|
  {
    var all := seq(|values|, k requires 0 <= k < |values| => Literal(values[k]));
    if values == [] {
      assert l.words + all == l.words;
    } else {
      assert [] + Literal(values[0]) == Literal(values[0]);
      var next := EndWord(SpliceWord(l, values[0]));
      assert next.words == l.words + [Literal(values[0])];
      if |values| == 1 {
        assert all == [Literal(values[0])];
      } else {
        var rest := seq(|values[1..]|, k requires 0 <= k < |values[1..]| => Literal(values[1..][k]));
        SplicedWords(next, values[1..]);
        assert all == [Literal(values[0])] + rest;
        assert next.words + rest == l.words + all;
      }
    }
  }

  /** The shell reads an escaped array as exactly its words, every character of them data. */
  lemma RoundTrip(values: seq<string>)
    ensures Words(Lex(START, EscapeWords(values))) == Some(seq(|values|, k requires 0 <= k < |values| => Literal(values[k])))
  {
    EscapedWordsAreData(START, values);
    SplicedWords(START, values);
    var all := seq(|values|, k requires 0 <= k < |values| => Literal(values[k]));
    assert [] + all == all;
  }

  /** What a template means: its literal parts are read as shell text, its values are data. */
  function Meaning(l: Lexer, strings: seq<string>, values: seq<Value>): Lexer
    requires |strings| == |values| + 1
    decreases |values|
  {
    if values == [] then Lex(l, strings[0])
    else Meaning(Splice(Lex(l, strings[0]), values[0]), strings[1..], values[1..])
  }

  /** Every value of the template stands where nothing is quoted and no comment is open, in text that is followed that far. */
  predicate HolesAreOpen(l: Lexer, strings: seq<string>, values: seq<Value>)
    requires |strings| == |values| + 1
    decreases |values|
  {
    values == [] ||
    (IsOpen(Lex(l, strings[0])) && HolesAreOpen(Splice(Lex(l, strings[0]), values[0]), strings[1..], values[1..]))
  }

  /** A template whose values stand in the open means what it says: no value is read as shell text. */
  lemma {:induction false} ValuesAreData(l: Lexer, strings: seq<string>, values: seq<Value>)
    requires |strings| == |values| + 1 && HolesAreOpen(l, strings, values)
    ensures Lex(l, Script(strings, values)) == Meaning(l, strings, values)
    decreases |values|
  {
    if values != [] {
      var hole := Lex(l, strings[0]);
      LexAppend(l, strings[0] + EscapeValue(values[0]), Script(strings[1..], values[1..]));
      LexAppend(l, strings[0], EscapeValue(values[0]));
      match values[0] {
        case One(word) => EscapedIsData(hole, word);
        case Many(words) => EscapedWordsAreData(hole, words);
      }
      ValuesAreData(Splice(hole, values[0]), strings[1..], values[1..]);
    }
  }

  /**
    As far as the text is followed, every value is data at a place if and only
    if nothing is quoted there, no dollar sign precedes it, and no comment is open.
  */
  lemma DataExactlyInTheOpen(l: Lexer)
    requires !l.mode.Beyond?
    ensures (forall value: string :: Lex(l, EscapeWord(value)) == SpliceWord(l, value)) <==> IsOpen(l)
  {
    if IsOpen(l) {
      forall value: string ensures Lex(l, EscapeWord(value)) == SpliceWord(l, value) {
        EscapedIsData(l, value);
      }
    } else {
      ElsewhereIsNotData(l);
    }
  }

  /** Once the text has gone beyond what is followed, no place in it counts as open. */
  lemma {:induction false} BeyondStays(l: Lexer, text: string)
    requires l.mode.Beyond?
    ensures Lex(l, text) == l && !IsOpen(l)
    decreases |text|
  {
    if text != "" { BeyondStays(l, text[1..]); }
  }

  lemma LexThree(l: Lexer, a: char, b: char, c: char)
    ensures Lex(l, [a, b, c]) == Next(Next(Next(l, a), b), c)
  {
    assert [a, b, c][1..] == [b, c] && [b, c][1..] == [c];
    LexOne(Next(Next(l, a), b), c);
    assert Lex(l, [a, b, c]) == Lex(Next(l, a), [b, c]);
    assert Lex(Next(l, a), [b, c]) == Lex(Next(Next(l, a), b), [c]);
  }

  /** Between double quotes a single quote is a character like others. */
  lemma QuotesAreKept(l: Lexer)
    requires l.mode.Double? || l.mode.Name?
    ensures |Next(Next(Next(l, '\''), ';'), '\'').word| == |l.word| + 3
  {
    assert Next(l, '\'') == Put(l, Double, '\'', true);
  }

  lemma QuotesAreNotKept(l: Lexer)
    requires !l.mode.Beyond? && !l.mode.Double? && !l.mode.Name? && !IsOpen(l)
    ensures Next(Next(Next(l, '\''), ';'), '\'') != SpliceWord(l, ";")
  {
    assert |SpliceWord(l, ";").word| == |l.word| + 1;
    var first := Next(l, '\'');
    match l.mode
    case Single => assert first.mode.Unquoted? && first.words == l.words;
    case Escape => assert |first.word| == |l.word| + 1;
    case DoubleEscape => assert |first.word| == |l.word| + 2;
    case Comment => assert first == l;
    case _ =>
  }

  lemma ElsewhereIsNotData(l: Lexer)
    requires !l.mode.Beyond? && !IsOpen(l)
    ensures Lex(l, EscapeWord(";")) != SpliceWord(l, ";")
  {
    assert QuotesReplaced(";") == ";" by { assert ";"[1..] == ""; }
    assert EscapeWord(";") == ['\'', ';', '\''];
    LexThree(l, '\'', ';', '\'');
    assert Literal(";") == [Cell(';', true)];
    assert |SpliceWord(l, ";").word| == |l.word| + 1;
    if l.mode.Double? || l.mode.Name? {
      QuotesAreKept(l);
    } else {
      QuotesAreNotKept(l);
    }
  }

  // ----- a value in a comment -----

  lemma {:induction false} CommentGoesOn(l: Lexer, text: string)
    requires l.mode.Comment? && '\n' !in text
    ensures Lex(l, text) == l
    decreases |text|
  {
    if text != "" { CommentGoesOn(l, text[1..]); }
  }

  lemma {:induction false} ReplacedAppend(a: string, b: string)
    ensures QuotesReplaced(a + b) == QuotesReplaced(a) + QuotesReplaced(b)
    ensures '\n' !in a ==> '\n' !in QuotesReplaced(a)
  {
    if a == "" {
      assert a + b == b;
      assert QuotesReplaced(a) + QuotesReplaced(b) == QuotesReplaced(b);
    } else {
      assert (a + b)[1..] == a[1..] + b;
      ReplacedAppend(a[1..], b);
      Associate(if a[0] == '\'' then "'\\''" else [a[0]], QuotesReplaced(a[1..]), QuotesReplaced(b));
    }
  }

  /** In a comment, what a value has after its first newline is read as shell text, whatever it is. */
  lemma CommentedValueIsRead(l: Lexer, before: string, rest: string)
    requires l.mode.Comment? && '\n' !in before
    ensures Lex(l, EscapeWord(before + (['\n'] + rest))) == Lex(Lex(Operator(l, '\n'), QuotesReplaced(rest)), "'")
  {
    var value := before + (['\n'] + rest);
    ReplacedAppend(before, ['\n'] + rest);
    ReplacedAppend(['\n'], rest);
    NothingReplaced(['\n']);
    LexAppend(l, "'" + QuotesReplaced(value), "'");
    LexAppend(l, "'", QuotesReplaced(value));
    LexAppend(l, QuotesReplaced(before), ['\n'] + QuotesReplaced(rest));
    LexAppend(l, ['\n'], QuotesReplaced(rest));
    LexOne(l, '\'');
    CommentGoesOn(l, QuotesReplaced(before));
    LexOne(l, '\n');
  }

  const COMMENTED := Lexer(Comment, Plain, false, [], [])

  lemma CommandIsRead()
    ensures var ended := Lex(Lex(Operator(COMMENTED, '\n'), ['l', 's', ' ', '#']), ['\'']);
      ended == Lexer(Comment, Plain, false, [], [[Cell('\n', false)], [Cell('l', false), Cell('s', false)]])
  {
    var line := Operator(COMMENTED, '\n');
    assert ['l', 's', ' ', '#'] == ['l', 's', ' '] + ['#'];
    LexAppend(line, ['l', 's', ' '], ['#']);
    LexThree(line, 'l', 's', ' ');
    assert line == Lexer(Unquoted, Plain, false, [], [[Cell('\n', false)]]);
    var one := Next(line, 'l');
    assert one == Lexer(Unquoted, Plain, true, [Cell('l', false)], [[Cell('\n', false)]]);
    var two := Next(one, 's');
    assert two == Lexer(Unquoted, Plain, true, [Cell('l', false), Cell('s', false)], [[Cell('\n', false)]]);
    var ended := Next(two, ' ');
    assert ended.words == [[Cell('\n', false)], [Cell('l', false), Cell('s', false)]];
    LexOne(ended, '#');
    LexOne(Next(ended, '#'), '\'');
  }

  /** A template that is a comment with a value in it. */
  const COMMENT_TEMPLATE: seq<string> := ["#", ""]

  const TWO_LINES: string := ['\n', 'l', 's', ' ', '#']

  lemma ScriptOfOne(value: string)
    ensures Lex(START, Script(COMMENT_TEMPLATE, [One(value)])) == Lex(COMMENTED, EscapeWord(value))
  {
    assert COMMENT_TEMPLATE[1..] == [""] && [One(value)][1..] == [];
    LexAppend(START, "#" + EscapeWord(value), "");
    LexAppend(START, "#", EscapeWord(value));
    LexOne(START, '#');
  }

  /** A template whose value stands in a comment does not have it in the open. */
  lemma CommentsAreNotOpen(value: string)
    ensures !HolesAreOpen(START, COMMENT_TEMPLATE, [One(value)])
  {
    LexOne(START, '#');
  }

  /** A `#` directly after a substitution, with a quotation in what is no comment. */
  const SUBSTITUTION_TEMPLATE: seq<string> := [['$', '(', 'x', ')', '#', '\'', '\n'], ""]

  /** Whether such a value stands in the open is not said, and so it does not count as open. */
  lemma ClosedSubstitutionsAreNotOpen(value: string)
    ensures Lex(START, SUBSTITUTION_TEMPLATE[0]).mode.Beyond?
    ensures !HolesAreOpen(START, SUBSTITUTION_TEMPLATE, [One(value)])
  {
    var front, back := ['$', '(', 'x'], [')', '#'] + ['\'', '\n'];
    assert SUBSTITUTION_TEMPLATE[0] == front + back;
    LexAppend(START, front, back);
    LexThree(START, '$', '(', 'x');
    var inside := Lex(START, front);
    LexAppend(inside, [')', '#'], ['\'', '\n']);
    LexAppend(inside, [')'], ['#']);
    assert [')'] + ['#'] == [')', '#'];
    LexOne(inside, ')');
    LexOne(Next(inside, ')'), '#');
    BeyondStays(Next(Next(inside, ')'), '#'), ['\'', '\n']);
  }

  /** What follows a closing parenthesis otherwise is followed: the value is data there. */
  lemma DataAfterASubstitution(l: Lexer, value: string)
    requires l.mode.Unquoted? && l.after.Closed?
    ensures Lex(l, EscapeWord(value)) == SpliceWord(l, value)
  {
    EscapedIsData(l, value);
  }

  lemma TwoLinesAreRead()
    ensures Lex(COMMENTED, EscapeWord(TWO_LINES)) == Lex(Lex(Operator(COMMENTED, '\n'), ['l', 's', ' ', '#']), "'")
  {
    CommentedValueIsRead(COMMENTED, "", ['l', 's', ' ', '#']);
    NothingReplaced(['l', 's', ' ', '#']);
    assert "" + (['\n'] + ['l', 's', ' ', '#']) == TWO_LINES;
  }

  /** And with a value of two lines, the script it makes runs a command of the value's. */
  lemma ACommentedValueRuns()
    ensures Words(Lex(START, Script(COMMENT_TEMPLATE, [One(TWO_LINES)])))
         == Some([[Cell('\n', false)], [Cell('l', false), Cell('s', false)]])
  {
    ScriptOfOne(TWO_LINES);
    TwoLinesAreRead();
    CommandIsRead();
  }

  lemma {:induction false} NothingReplaced(text: string)
    requires '\'' !in text
    ensures QuotesReplaced(text) == text
  {
    if text != "" {
      NothingReplaced(text[1..]);
      assert [text[0]] + text[1..] == text;
    }
  }

  /** `Sandbox.sh`. */
  method Sh(strings: seq<string>, values: seq<Value>) returns (script: string)
    requires |strings| == |values| + 1
    ensures script == Script(strings, values)
  {
    script := strings[0];
    for i := 0 to |values|
      invariant Script(strings, values) == Prefix(script, strings[i..], values[i..])
    {
      var next := script + (EscapeValue(values[i]) + strings[i + 1]);
      PrefixGrows(script, strings[i..], values[i..]);
      assert strings[i..][1..] == strings[i + 1..] && values[i..][1..] == values[i + 1..];
      script := next;
    }
  }

  /** What the script becomes when `script` is what has been put together before the first value left. */
  function Prefix(script: string, strings: seq<string>, values: seq<Value>): string
    requires |strings| == |values| + 1
  {
    if values == [] then script else script + EscapeValue(values[0]) + Script(strings[1..], values[1..])
  }

  lemma PrefixGrows(script: string, strings: seq<string>, values: seq<Value>)
    requires |strings| == |values| + 1 && values != []
    ensures Prefix(script, strings, values) == Prefix(script + (EscapeValue(values[0]) + strings[1]), strings[1..], values[1..])
  {
    var e := EscapeValue(values[0]);
    if values[1..] == [] {
      Associate(script, e, strings[1]);
    } else {
      var f, rest := EscapeValue(values[1..][0]), Script(strings[1..][1..], values[1..][1..]);
      Associate(script, e, strings[1]);
      AssociateFour(script + e, strings[1], f, rest);
    }
  }
}
