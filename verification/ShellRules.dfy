/** The quoting rules of POSIX.1-2017, XCU sections 2.2 and 2.3, as they come out of the lexer that shell templates are read with. */
module ShellRules {
  import opened Bytes
  import opened ShellQuoting

  lemma LexTwo(l: Lexer, a: char, b: char)
    ensures Lex(l, [a, b]) == Next(Next(l, a), b)
  {
    assert [a, b][1..] == [b];
    LexOne(Next(l, a), b);
  }

  /** A backslash makes the next character literal; before a newline both go. */
  lemma BackslashQuotes(l: Lexer, c: char)
    requires IsOpen(l)
    ensures Lex(l, ['\\', c]) ==
      if c == '\n' then l else l.(after := Plain, started := true, word := l.word + [Cell(c, true)])
  {
    LexTwo(l, '\\', c);
  }

  /** Single quotes make every character between them literal. */
  lemma SingleQuotesQuote(l: Lexer, text: string)
    requires IsOpen(l) && '\'' !in text
    ensures Lex(l, "'" + text + "'") == l.(after := Plain, started := true, word := l.word + Literal(text))
  {
    var inside := l.(mode := Single, after := Plain, started := true);
    NothingReplaced(text);
    LexAppend(l, "'" + text, "'");
    LexAppend(l, "'", text);
    LexOne(l, '\'');
    InsideIsLiteral(inside, text);
    LexOne(inside.(word := inside.word + Literal(text)), '\'');
  }

  /** What keeps its meaning between double quotes. */
  predicate KeepsMeaning(c: char) {
    c == '"' || c == '\\' || c == '$' || c == '`'
  }

  lemma {:induction false} PlainInDouble(l: Lexer, text: string)
    requires l.mode.Double? && l.started && l.after.Plain?
    requires forall k | 0 <= k < |text| :: !KeepsMeaning(text[k])
    ensures Lex(l, text) == l.(word := l.word + Literal(text))
    decreases |text|
  {
    if text == "" {
      assert l.word + Literal(text) == l.word;
    } else {
      var l1 := l.(word := l.word + [Cell(text[0], true)]);
      assert Next(l, text[0]) == l1;
      PlainInDouble(l1, text[1..]);
      LiteralCons(text);
      assert l1.word + Literal(text[1..]) == l.word + Literal(text);
    }
  }

  /** Double quotes make all characters literal but those that keep their meaning. */
  lemma DoubleQuotesQuote(l: Lexer, text: string)
    requires IsOpen(l) && forall k | 0 <= k < |text| :: !KeepsMeaning(text[k])
    ensures Lex(l, "\"" + text + "\"") == l.(after := Plain, started := true, word := l.word + Literal(text))
  {
    var inside := l.(mode := Double, after := Plain, started := true);
    LexAppend(l, "\"" + text, "\"");
    LexAppend(l, "\"", text);
    LexOne(l, '"');
    PlainInDouble(inside, text);
    LexOne(inside.(word := inside.word + Literal(text)), '"');
  }

  /** Between them, a backslash quotes only what keeps its meaning, and joins lines; before anything else it is a character. */
  lemma BackslashInDouble(l: Lexer, c: char)
    requires l.mode.Double? && l.started && l.after.Plain?
    ensures Lex(l, ['\\', c]) ==
      if c == '\n' then l
      else l.(word := l.word + if KeepsMeaning(c) then [Cell(c, true)] else [Cell('\\', true), Cell(c, true)])
  {
    LexTwo(l, '\\', c);
    assert l.word + [Cell('\\', true)] + [Cell(c, true)] == l.word + [Cell('\\', true), Cell(c, true)];
  }

  /** A `#` at the start of a word begins a comment, which ends before the next newline; inside a word it is a character. */
  lemma CommentsGo(l: Lexer, text: string)
    requires IsOpen(l) && !l.after.Closed? && '\n' !in text
    ensures l.started ==> Lex(l, ['#']) == l.(after := Plain, word := l.word + [Cell('#', false)])
    ensures !l.started ==> Lex(l, ['#'] + text + ['\n']) == Lex(l, ['\n'])
  {
    LexOne(l, '#');
    LexOne(l, '\n');
    if !l.started {
      LexAppend(l, ['#'] + text, ['\n']);
      LexAppend(l, ['#'], text);
      CommentGoesOn(Next(l, '#'), text);
      LexOne(Next(l, '#'), '\n');
    }
  }

  const OPERATORS := ";&|()<>\n"

  /** Blanks end a word; so do operators and newlines, which are words of their own. */
  lemma WordsEnd(l: Lexer, c: char)
    requires IsOpen(l)
    ensures c == ' ' || c == '\t' ==>
      Lex(l, [c]) == if l.started then Lexer(Unquoted, Plain, false, [], l.words + [l.word]) else l.(after := Plain)
    ensures c == ';' || c == '&' || c == '|' || c == '>' || c == '\n' ==>
      var ended := if l.started then Lexer(Unquoted, Plain, false, [], l.words + [l.word]) else l.(after := Plain);
      Lex(l, [c]) == ended.(words := ended.words + [Active([c])])
  {
    LexOne(l, c);
    assert Active([c]) == [Cell(c, false)];
  }

  // ----- expansions -----

  /** Letters, digits and the underscore, by their codes in ASCII. */
  predicate InNames(c: char) {
    0x41 <= c as int <= 0x5A || 0x61 <= c as int <= 0x7A || 0x30 <= c as int <= 0x39 || c as int == 0x5F
  }

  const SPECIALS := "@*#?-$!"

  /** Text that keeps its meaning. */
  function Active(text: string): seq<Cell> {
    seq(|text|, k requires 0 <= k < |text| => Cell(text[k], false))
  }

  function Kept(l: Lexer, mode: Mode, text: string): Lexer {
    l.(mode := mode, after := Plain, started := true, word := l.word + Active(text))
  }

  lemma CharactersAre(c: char)
    ensures IsNameCharacter(c) <==> InNames(c)
    ensures IsParameter(c) <==> InNames(c) || c in SPECIALS
  {
  }

  /** A dollar sign and what follows it, where nothing is quoted: a parameter, a brace, a command; the rest is not followed. */
  lemma ExpansionsBegin(l: Lexer, c: char)
    requires IsOpen(l)
    ensures Lex(l, ['$', c]) ==
      if c == '{' then Kept(l, Brace(false), "${")
      else if c == '(' then Lexer(Unquoted, Paren, false, [], l.words + [l.word + Active("$")] + [Active("(")])
      else if InNames(c) || c in SPECIALS then Kept(l, Unquoted, ['$', c])
      else Lex(l, ['$']).(mode := Beyond)
  {
    LexTwo(l, '$', c);
    LexOne(l, '$');
    CharactersAre(c);
    assert Active("$") == [Cell('$', false)] && Active("(") == [Cell('(', false)];
    assert l.word + [Cell('$', false)] + [Cell(c, false)] == l.word + Active(['$', c]);
  }

  /** Between double quotes a name goes on as far as its characters do, and a command is not followed. */
  lemma ExpansionsInDouble(l: Lexer, c: char, next: char)
    requires l.mode.Double? && l.started && l.after.Plain?
    ensures Lex(l, ['$', c]) ==
      if c == '{' then Kept(l, Brace(true), "${")
      else if InNames(c) then Kept(l, Name, ['$', c])
      else if c in SPECIALS then Kept(l, Double, ['$', c])
      else Lex(l, ['$']).(mode := Beyond)
    ensures Lex(l.(mode := Name), [next]) == if InNames(next) then Kept(l, Name, [next]) else Lex(l, [next])
  {
    LexTwo(l, '$', c);
    LexOne(l, '$');
    CharactersAre(c);
    CharactersAre(next);
    LexOne(l, next);
    LexOne(l.(mode := Name), next);
    assert l.word + [Cell('$', false)] + [Cell(c, false)] == l.word + Active(['$', c]);
  }

  lemma NamesGoOn(l: Lexer, c: char)
    requires l.mode.Brace? && InNames(c)
    ensures Next(l, c) == Kept(l, l.mode, [c])
  {
    CharactersAre(c);
    assert Active([c]) == [Cell(c, false)];
  }

  /** Braces hold a name, and leave what is around them as it was; any other expansion in them is not followed. */
  lemma {:induction false} BracesClose(l: Lexer, name: string, c: char)
    requires l.mode.Brace? && l.started && l.after.Plain?
    requires (forall k | 0 <= k < |name| :: InNames(name[k])) && !InNames(c)
    ensures c == '}' ==> Lex(l, name + [c]) == Kept(l, if l.mode.quoted then Double else Unquoted, name + [c])
    ensures c != '}' ==> Lex(l, name + [c]).mode.Beyond?
    decreases |name|
  {
    CharactersAre(c);
    if name == "" {
      assert name + [c] == [c];
      LexOne(l, c);
    } else {
      NamesGoOn(l, name[0]);
      var l1 := Kept(l, l.mode, [name[0]]);
      assert (name + [c])[1..] == name[1..] + [c];
      BracesClose(l1, name[1..], c);
      assert l1.word + Active(name[1..] + [c]) == l.word + Active(name + [c]);
    }
  }

  /** What is not followed, of two characters the first of which is an operator; and a parenthesis inside a word. */
  lemma NotFollowed(l: Lexer, a: char, b: char)
    requires IsOpen(l) && l.after.Plain?
    ensures !l.started && a in OPERATORS ==>
      IsOpen(Lex(l, [a])) && (Lex(l, [a, b]).mode.Beyond? <==> b == '`' || [a, b] == "<<" || [a, b] == "((" || [a, b] == ")#")
    ensures Lex(l, ['`']).mode.Beyond?
    ensures Lex(l.(mode := Double, started := true), ['`']).mode.Beyond?
    ensures Lex(l, ['(']).mode.Beyond? <==> l.started
  {
    LexTwo(l, a, b);
    LexOne(l, a);
    LexOne(l, '`');
    LexOne(l, '(');
    LexOne(l.(mode := Double, started := true), '`');
  }

  // ----- the end of a script -----

  /** A script that ends inside a quotation, or with a dollar sign or a backslash, has no words. */
  lemma UnfinishedHasNoWords(l: Lexer, text: string)
    requires IsOpen(l)
    ensures '\'' !in text ==> Words(Lex(l, "'" + text)) == None
    ensures (forall k | 0 <= k < |text| :: !KeepsMeaning(text[k])) ==> Words(Lex(l, "\"" + text)) == None
    ensures !LeadsBeyond(l, '$') ==> Words(Lex(l, "$")) == None
    ensures Words(Lex(l, ['\\'])) == None
  {
    LexOne(l, '$');
    LexOne(l, '\\');
    if '\'' !in text {
      NothingReplaced(text);
      LexAppend(l, "'", text);
      LexOne(l, '\'');
      InsideIsLiteral(l.(mode := Single, after := Plain, started := true), text);
    }
    if forall k | 0 <= k < |text| :: !KeepsMeaning(text[k]) {
      LexAppend(l, "\"", text);
      LexOne(l, '"');
      PlainInDouble(l.(mode := Double, after := Plain, started := true), text);
    }
  }

  /** One that ends in the open has the words so far and the one it is in, also if a comment is open. */
  lemma FinishedHasWords(l: Lexer)
    requires IsOpen(l)
    ensures Words(l) == Some(if l.started then l.words + [l.word] else l.words)
    ensures !l.started ==> Words(l.(mode := Comment)) == Some(l.words)
  {
  }
}
