/**
  What the library functions under the decoders read: UTF-8 (RFC 3629 section 3),
  white space, numerals in any spelling, and words in any case.
*/
module Spelling {
  import opened Bytes
  import opened Chunked

  // ----- UTF-8 -----

  predicate IsScalar(c: int) {
    0 <= c < 0xD800 || 0xE000 <= c < 0x11_0000
  }

  /** The bytes of one character, by the table of RFC 3629. */
  function EncodeScalar(c: int): seq<Byte>
    requires IsScalar(c)
  {
    if c < 0x80 then [c]
    else if c < 0x800 then [0xC0 + c / 0x40, 0x80 + c % 0x40]
    else if c < 0x1_0000 then [0xE0 + c / 0x1000, 0x80 + c / 0x40 % 0x40, 0x80 + c % 0x40]
    else [0xF0 + c / 0x4_0000, 0x80 + c / 0x1000 % 0x40, 0x80 + c / 0x40 % 0x40, 0x80 + c % 0x40]
  }

  predicate AllScalars(text: seq<int>) {
    forall k | 0 <= k < |text| :: IsScalar(text[k])
  }

  function EncodeText(text: seq<int>): seq<Byte>
    requires AllScalars(text)
  {
    if text == [] then [] else EncodeScalar(text[0]) + EncodeText(text[1..])
  }

  lemma OneIsRead(a: Byte, rest: seq<Byte>)
    requires a < 0x80
    ensures Utf8([a] + rest) == Before([a], Utf8(rest))
  {
    assert ([a] + rest)[1..] == rest;
  }

  lemma TwoAreRead(a: Byte, b: Byte, rest: seq<Byte>)
    requires 0xC2 <= a < 0xE0 && Continues(b)
    ensures Utf8([a, b] + rest) == Before([Join(a - 0xC0, b)], Utf8(rest))
  {
    assert ([a, b] + rest)[2..] == rest;
  }

  lemma ThreeAreRead(a: Byte, b: Byte, d: Byte, rest: seq<Byte>)
    requires 0xE0 <= a < 0xF0 && Continues(b) && Continues(d) && (a == 0xE0 ==> b >= 0xA0) && (a == 0xED ==> b < 0xA0)
    ensures Utf8([a, b, d] + rest) == Before([Join(Join(a - 0xE0, b), d)], Utf8(rest))
  {
    assert ([a, b, d] + rest)[3..] == rest;
  }

  lemma FourAreRead(a: Byte, b: Byte, d: Byte, e: Byte, rest: seq<Byte>)
    requires 0xF0 <= a < 0xF5 && Continues(b) && Continues(d) && Continues(e) && (a == 0xF0 ==> b >= 0x90) && (a == 0xF4 ==> b < 0x90)
    ensures Utf8([a, b, d, e] + rest) == Before([Join(Join(Join(a - 0xF0, b), d), e)], Utf8(rest))
  {
    assert ([a, b, d, e] + rest)[4..] == rest;
  }

  lemma ThreePlaces(c: int)
    requires 0x800 <= c < 0x1_0000
    ensures Join(Join(c / 0x1000, 0x80 + c / 0x40 % 0x40), 0x80 + c % 0x40) == c
    ensures c / 0x40 == c / 0x1000 * 0x40 + c / 0x40 % 0x40
  {
    assert c / 0x40 == c / 0x1000 * 0x40 + c / 0x40 % 0x40;
  }

  lemma FourPlaces(c: int)
    requires 0x1_0000 <= c < 0x11_0000
    ensures Join(Join(Join(c / 0x4_0000, 0x80 + c / 0x1000 % 0x40), 0x80 + c / 0x40 % 0x40), 0x80 + c % 0x40) == c
    ensures c / 0x1000 == c / 0x4_0000 * 0x40 + c / 0x1000 % 0x40
  {
    assert c / 0x1000 == c / 0x4_0000 * 0x40 + c / 0x1000 % 0x40;
    assert c / 0x40 == c / 0x1000 * 0x40 + c / 0x40 % 0x40;
  }

  /** The first character of a text that begins with its bytes. */
  lemma FirstIsRead(c: int, rest: seq<Byte>)
    requires IsScalar(c)
    ensures Utf8(EncodeScalar(c) + rest) == Before([c], Utf8(rest))
  {
    var bytes := EncodeScalar(c);
    if c < 0x80 {
      OneIsRead(c, rest);
    } else if c < 0x800 {
      TwoAreRead(bytes[0], bytes[1], rest);
    } else if c < 0x1_0000 {
      ThreePlaces(c);
      ThreeAreRead(bytes[0], bytes[1], bytes[2], rest);
    } else {
      FourPlaces(c);
      FourAreRead(bytes[0], bytes[1], bytes[2], bytes[3], rest);
    }
  }

  lemma {:induction false} TextIsRead(text: seq<int>)
    requires AllScalars(text)
    ensures Utf8(EncodeText(text)) == Some(text)
  {
    if text != [] {
      TextIsRead(text[1..]);
      FirstIsRead(text[0], EncodeText(text[1..]));
      assert [text[0]] + text[1..] == text;
    }
  }

  lemma TwoAgain(a: Byte, b: Byte)
    requires 0xC2 <= a < 0xE0 && Continues(b)
    ensures var c := Join(a - 0xC0, b);
      IsScalar(c) && EncodeScalar(c) == [a, b]
  {
    assert Join(a - 0xC0, b) / 0x40 == a - 0xC0;
  }

  lemma ThreeAgain(a: Byte, b: Byte, d: Byte)
    requires 0xE0 <= a < 0xF0 && Continues(b) && Continues(d) && (a == 0xE0 ==> b >= 0xA0) && (a == 0xED ==> b < 0xA0)
    ensures var c := Join(Join(a - 0xE0, b), d);
      IsScalar(c) && EncodeScalar(c) == [a, b, d]
  {
    var c := Join(Join(a - 0xE0, b), d);
    assert c / 0x40 == Join(a - 0xE0, b) && c % 0x40 == d - 0x80;
    assert c / 0x1000 == a - 0xE0;
  }

  lemma FourAgain(a: Byte, b: Byte, d: Byte, e: Byte)
    requires 0xF0 <= a < 0xF5 && Continues(b) && Continues(d) && Continues(e) && (a == 0xF0 ==> b >= 0x90) && (a == 0xF4 ==> b < 0x90)
    ensures var c := Join(Join(Join(a - 0xF0, b), d), e);
      IsScalar(c) && EncodeScalar(c) == [a, b, d, e]
  {
    var c := Join(Join(Join(a - 0xF0, b), d), e);
    assert c / 0x40 == Join(Join(a - 0xF0, b), d) && c % 0x40 == e - 0x80;
    assert c / 0x1000 == Join(a - 0xF0, b);
    assert c / 0x4_0000 == a - 0xF0;
  }

  /** What is read first is a character, and its bytes are at the front. */
  lemma FirstIsThere(bytes: seq<Byte>) returns (c: int, rest: seq<Byte>)
    requires Utf8(bytes).Some? && bytes != []
    ensures IsScalar(c) && bytes == EncodeScalar(c) + rest && Utf8(rest).Some? && Utf8(bytes) == Some([c] + Utf8(rest).value)
  {
    var a := bytes[0];
    var n := if a < 0x80 then 1 else if a < 0xE0 then 2 else if a < 0xF0 then 3 else 4;
    rest := bytes[n..];
    c := if n == 1 then a
         else if n == 2 then Join(a - 0xC0, bytes[1])
         else if n == 3 then Join(Join(a - 0xE0, bytes[1]), bytes[2])
         else Join(Join(Join(a - 0xF0, bytes[1]), bytes[2]), bytes[3]);
    if n == 2 {
      TwoAgain(a, bytes[1]);
    } else if n == 3 {
      ThreeAgain(a, bytes[1], bytes[2]);
    } else if n == 4 {
      FourAgain(a, bytes[1], bytes[2], bytes[3]);
    }
    assert bytes[..n] == EncodeScalar(c);
    assert bytes == bytes[..n] + rest;
  }

  /** `from_utf8` accepts exactly the encodings of characters, and gives the characters. */
  lemma {:induction false} Utf8Exactly(bytes: seq<Byte>, text: seq<int>)
    ensures Utf8(bytes) == Some(text) <==> AllScalars(text) && EncodeText(text) == bytes
    decreases |bytes|
  {
    if AllScalars(text) && EncodeText(text) == bytes {
      TextIsRead(text);
    } else if Utf8(bytes) == Some(text) {
      if bytes != [] {
        var c, rest := FirstIsThere(bytes);
        assert text == [c] + text[1..] && text[1..] == Utf8(rest).value;
        Utf8Exactly(rest, text[1..]);
        assert false;
      }
    }
  }

  // ----- white space -----

  /** The 25 characters with the property White_Space of Unicode. */
  const WHITE_SPACE: set<int> := {
    9, 10, 11, 12, 13, 32, 0x85, 0xA0, 0x1680, 0x2000, 0x2001, 0x2002, 0x2003, 0x2004, 0x2005, 0x2006, 0x2007, 0x2008,
    0x2009, 0x200A, 0x2028, 0x2029, 0x202F, 0x205F, 0x3000}

  lemma SpacesAreWhite(c: int)
    ensures IsSpace(c) <==> c in WHITE_SPACE
  {
  }

  predicate Blank(text: seq<int>) {
    forall k | 0 <= k < |text| :: text[k] in WHITE_SPACE
  }

  /** `trim` takes off white space at both ends, all of it and nothing else. */
  lemma {:induction false} TrimExactly(text: seq<int>) returns (left: seq<int>, right: seq<int>)
    ensures text == left + Trim(text) + right && Blank(left) && Blank(right)
    ensures Trim(text) != [] ==> Trim(text)[0] !in WHITE_SPACE && Trim(text)[|Trim(text)| - 1] !in WHITE_SPACE
    decreases |text|
  {
    left, right := [], [];
    if text != [] {
      SpacesAreWhite(text[0]);
      SpacesAreWhite(text[|text| - 1]);
      if IsSpace(text[0]) {
        left, right := TrimExactly(text[1..]);
        left := [text[0]] + left;
        assert text == [text[0]] + text[1..];
        AssociateFour([text[0]], left[1..], Trim(text), right);
      } else if IsSpace(text[|text| - 1]) {
        left, right := TrimExactly(text[..|text| - 1]);
        assert text == text[..|text| - 1] + [text[|text| - 1]];
        Associate(left + Trim(text), right, [text[|text| - 1]]);
        right := right + [text[|text| - 1]];
      }
    }
  }

  lemma FirstGoes(c: int, text: seq<int>)
    requires c in WHITE_SPACE
    ensures Trim([c] + text) == Trim(text)
  {
    SpacesAreWhite(c);
    assert ([c] + text)[1..] == text;
  }

  lemma LastGoes(text: seq<int>, c: int)
    requires c in WHITE_SPACE && text != [] && text[0] !in WHITE_SPACE
    ensures Trim(text + [c]) == Trim(text)
  {
    SpacesAreWhite(c);
    SpacesAreWhite(text[0]);
    assert (text + [c])[..|text|] == text;
  }

  /** So padding around a word goes. */
  lemma {:induction false} PaddingGoes(left: seq<int>, word: seq<int>, right: seq<int>)
    requires Blank(left) && Blank(right)
    requires word != [] && word[0] !in WHITE_SPACE && word[|word| - 1] !in WHITE_SPACE
    ensures Trim(left + word + right) == word
    decreases |left|, |right|
  {
    if left != [] {
      PaddingGoes(left[1..], word, right);
      assert left == [left[0]] + left[1..];
      AssociateFour([left[0]], left[1..], word, right);
      FirstGoes(left[0], left[1..] + word + right);
    } else if right != [] {
      var n := |right| - 1;
      PaddingGoes([], word, right[..n]);
      assert right == right[..n] + [right[n]];
      Associate(left + word, right[..n], [right[n]]);
      LastGoes([] + word + right[..n], right[n]);
    } else {
      assert left + word + right == word;
      SpacesAreWhite(word[0]);
      SpacesAreWhite(word[|word| - 1]);
    }
  }

  // ----- numerals -----

  /** A character that stands for a digit, in either case. */
  predicate StandsFor(c: int, d: nat) {
    || (d < 10 && c == '0' as int + d)
    || (10 <= d < 16 && (c == 'a' as int + (d - 10) || c == 'A' as int + (d - 10)))
  }

  predicate Spells(text: seq<int>, digits: seq<nat>, radix: nat) {
    |text| == |digits| && forall k | 0 <= k < |text| :: digits[k] < radix && StandsFor(text[k], digits[k])
  }

  /** The number that digits are for, the greatest place first. */
  function Value(digits: seq<nat>, radix: nat): nat {
    if digits == [] then 0 else digits[0] * Power(radix, |digits| - 1) + Value(digits[1..], radix)
  }

  function Power(radix: nat, n: nat): nat {
    if n == 0 then 1 else radix * Power(radix, n - 1)
  }

  lemma {:induction false} ValueSnoc(digits: seq<nat>, radix: nat)
    requires digits != []
    ensures Value(digits, radix) == Value(digits[..|digits| - 1], radix) * radix + digits[|digits| - 1]
  {
    if |digits| > 1 {
      var front, rest := digits[..|digits| - 1], digits[1..];
      ValueSnoc(rest, radix);
      assert front[1..] == rest[..|rest| - 1];
      PowersTimes(digits[0], radix, |digits| - 2, Value(front[1..], radix));
    }
  }

  lemma PowersTimes(d: nat, radix: nat, n: nat, v: nat)
    ensures d * Power(radix, n + 1) + v * radix == (d * Power(radix, n) + v) * radix
  {
    var p := Power(radix, n);
    assert Power(radix, n + 1) == radix * p;
    assert d * (radix * p) == (d * p) * radix;
  }

  lemma DigitExactly(c: int, d: nat)
    ensures DigitOf(c) == Some(d) <==> StandsFor(c, d)
  {
  }

  lemma {:induction false} NumeralIsRead(text: seq<int>, digits: seq<nat>, radix: nat)
    requires Spells(text, digits, radix)
    ensures Digits(text, radix) == Some(Value(digits, radix))
  {
    if text != [] {
      var n := |text| - 1;
      NumeralIsRead(text[..n], digits[..n], radix);
      DigitExactly(text[n], digits[n]);
      ValueSnoc(digits, radix);
    }
  }

  lemma {:induction false} ReadIsNumeral(text: seq<int>, radix: nat) returns (digits: seq<nat>)
    requires Digits(text, radix).Some?
    ensures Spells(text, digits, radix)
  {
    digits := [];
    if text != [] {
      var n := |text| - 1;
      var front := ReadIsNumeral(text[..n], radix);
      digits := front + [DigitOf(text[n]).value];
      DigitExactly(text[n], digits[n]);
    }
  }

  /** `from_str_radix` reads every numeral, with or without a plus sign, unless its number overflows. */
  lemma NumeralsAreParsed(sign: seq<int>, text: seq<int>, digits: seq<nat>, radix: nat)
    requires sign == [] || sign == ['+' as int]
    requires text != [] && Spells(text, digits, radix)
    ensures ParseUsize(sign + text, radix) == if Value(digits, radix) <= 4_294_967_295 then Some(Value(digits, radix)) else None
  {
    NumeralIsRead(text, digits, radix);
    assert StandsFor(text[0], digits[0]);
    if sign == [] { assert sign + text == text; } else { assert (sign + text)[1..] == text; }
  }

  /** And nothing else. */
  lemma ParsedIsNumeral(text: seq<int>, radix: nat) returns (sign: seq<int>, digits: seq<nat>)
    requires ParseUsize(text, radix).Some?
    ensures sign == [] || sign == ['+' as int]
    ensures sign <= text && text[|sign|..] != [] && Spells(text[|sign|..], digits, radix)
    ensures ParseUsize(text, radix) == Some(Value(digits, radix))
  {
    sign := if text[0] == PLUS then [PLUS] else [];
    digits := ReadIsNumeral(text[|sign|..], radix);
    NumeralIsRead(text[|sign|..], digits, radix);
  }

  // ----- size lines -----

  predicate IsAscii(text: seq<int>) {
    forall k | 0 <= k < |text| :: 0 <= text[k] < 0x80
  }

  /**
    A size line may be padded, may have a plus sign, leading zeros and letters in
    either case, and an extension after a semicolon; it is read as its number.
  */
  lemma SizeLinesAreRead(left: seq<Byte>, sign: seq<Byte>, numeral: seq<Byte>, digits: seq<nat>, right: seq<Byte>, extension: seq<Byte>)
    requires Blank(left) && Blank(right) && IsAscii(left) && IsAscii(right)
    requires (sign == [] || sign == ['+' as int]) && numeral != [] && Spells(numeral, digits, 16)
    requires IsAscii(extension) && (extension == [] || extension[0] == ';' as int)
    ensures SizeOf(left + (sign + numeral) + right + extension)
         == if Value(digits, 16) <= 4_294_967_295 then Some(Value(digits, 16)) else None
  {
    var size := left + (sign + numeral) + right;
    NumeralIsAscii(numeral, digits);
    Utf8OfAscii(size + extension);
    var text: seq<int> := size;
    forall k | 0 <= k < |text| ensures text[k] != SEMICOLON {
      if |left| + |sign| <= k < |left| + |sign| + |numeral| { assert text[k] == numeral[k - |left| - |sign|]; }
    }
    StopsAtSemicolon(text, extension);
    var word: seq<int> := sign + numeral;
    PaddingGoes(left, word, right);
    NumeralsAreParsed(sign, numeral, digits, 16);
  }

  lemma NumeralIsAscii(numeral: seq<int>, digits: seq<nat>)
    requires Spells(numeral, digits, 16)
    ensures IsAscii(numeral) && forall k | 0 <= k < |numeral| :: numeral[k] !in WHITE_SPACE && numeral[k] != SEMICOLON && numeral[k] != PLUS
  {
    forall k | 0 <= k < |numeral|
      ensures 0 <= numeral[k] < 0x80 && numeral[k] !in WHITE_SPACE && numeral[k] != SEMICOLON && numeral[k] != PLUS
    {
      assert StandsFor(numeral[k], digits[k]);
    }
  }
}
