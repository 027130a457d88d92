/**
  What `parse_response` of js/bindgen/src/browser_http.rs answers: the rules of
  RFC 9112 section 6.3 for the length of a response's body, each as a round trip
  through the socket that the guest writes to.
*/
module ResponseFraming {
  import opened Bytes
  import opened Chunked
  import opened HttpResponse
  import opened Spelling

  // ----- words in any case -----

  /** A lower-case word, with any of its letters in upper case. */
  predicate SpelledAs(text: seq<int>, word: string) {
    |text| == |word| && forall k | 0 <= k < |text| ::
      text[k] == word[k] as int || ('a' <= word[k] <= 'z' && text[k] == word[k] as int - ('a' as int - 'A' as int))
  }

  predicate IsLower(word: string) {
    forall k | 0 <= k < |word| :: !('A' <= word[k] <= 'Z')
  }

  lemma LowerExactly(text: seq<int>, word: string)
    requires IsLower(word)
    ensures LowerAll(text) == Codes(word) <==> SpelledAs(text, word)
  {
    if SpelledAs(text, word) {
      assert forall k | 0 <= k < |text| :: LowerAll(text)[k] == Codes(word)[k];
    } else if |text| == |word| {
      var k :| 0 <= k < |text| && !(text[k] == word[k] as int || ('a' <= word[k] <= 'z' && text[k] == word[k] as int - 32));
      assert LowerAll(text)[k] != Codes(word)[k];
    } else {
      assert |LowerAll(text)| != |Codes(word)|;
    }
  }

  lemma NamedExactly(h: Header, word: string)
    requires IsLower(word)
    ensures Named(h, word) <==> SpelledAs(h.name, word)
  {
    LowerExactly(h.name, word);
  }

  predicate IsAt(text: seq<int>, word: seq<int>, i: int) {
    0 <= i && i + |word| <= |text| && text[i..i + |word|] == word
  }

  lemma {:induction false} ContainsExactly(text: seq<int>, word: seq<int>)
    ensures Contains(text, word) <==> exists i :: IsAt(text, word, i)
  {
    if word <= text {
      assert IsAt(text, word, 0);
    } else if text != [] {
      ContainsExactly(text[1..], word);
      assert forall i :: IsAt(text[1..], word, i) ==> IsAt(text, word, i + 1);
      forall i | IsAt(text, word, i) ensures IsAt(text[1..], word, i - 1) {
        assert i != 0;
      }
    }
  }

  predicate SpelledAt(text: seq<int>, word: string, i: int) {
    0 <= i && i + |word| <= |text| && SpelledAs(text[i..i + |word|], word)
  }

  /** The text has the word in it, in any case. */
  ghost predicate Mentions(text: seq<int>, word: string) {
    exists i :: SpelledAt(text, word, i)
  }

  lemma LowerAt(text: seq<int>, word: string, i: int)
    requires IsLower(word)
    ensures IsAt(LowerAll(text), Codes(word), i) <==> SpelledAt(text, word, i)
  {
    if 0 <= i && i + |word| <= |text| {
      assert LowerAll(text)[i..i + |word|] == LowerAll(text[i..i + |word|]);
      LowerExactly(text[i..i + |word|], word);
    }
  }

  lemma LowerMentions(text: seq<int>, word: string)
    requires IsLower(word)
    ensures Contains(LowerAll(text), Codes(word)) <==> Mentions(text, word)
  {
    ContainsExactly(LowerAll(text), Codes(word));
    forall i: int ensures IsAt(LowerAll(text), Codes(word), i) <==> SpelledAt(text, word, i) {
      LowerAt(text, word, i);
    }
  }

  // ----- what the headers announce -----

  /** A transfer coding whose name has `chunked` in it. */
  ghost predicate IsCoded(h: Header) {
    SpelledAs(h.name, "transfer-encoding") && Utf8(h.value).Some? && Mentions(Utf8(h.value).value, "chunked")
  }

  lemma CodedExactly(headers: seq<Header>)
    ensures IsChunked(headers) <==> exists k :: 0 <= k < |headers| && IsCoded(headers[k])
  {
    forall k | 0 <= k < |headers|
      ensures Named(headers[k], "transfer-encoding") && SaysChunked(headers[k].value) <==> IsCoded(headers[k])
    {
      NamedExactly(headers[k], "transfer-encoding");
      if Utf8(headers[k].value).Some? { LowerMentions(Utf8(headers[k].value).value, "chunked"); }
    }
    if k :| 0 <= k < |headers| && IsCoded(headers[k]) {
      assert Named(headers[k], "transfer-encoding") && SaysChunked(headers[k].value);
    }
    if k :| 0 <= k < |headers| && Named(headers[k], "transfer-encoding") && SaysChunked(headers[k].value) {
      assert IsCoded(headers[k]);
    }
  }

  predicate IsLength(h: Header) {
    SpelledAs(h.name, "content-length")
  }

  /** The first length among the headers says this; or there is none. */
  ghost predicate Announces(headers: seq<Header>, n: Option<nat>) {
    if n.None? then forall k | 0 <= k < |headers| :: !IsLength(headers[k])
    else exists k ::
      && 0 <= k < |headers| && IsLength(headers[k]) && LengthValue(headers[k].value) == n
      && forall j | 0 <= j < k :: !IsLength(headers[j])
  }

  lemma {:induction false} FindExactly(headers: seq<Header>, word: string)
    requires IsLower(word)
    ensures var found := Find(headers, word);
      if found.None? then forall k | 0 <= k < |headers| :: !SpelledAs(headers[k].name, word)
      else exists k :: 0 <= k < |headers| && headers[k] == found.value && SpelledAs(headers[k].name, word)
             && forall j | 0 <= j < k :: !SpelledAs(headers[j].name, word)
  {
    if headers != [] {
      NamedExactly(headers[0], word);
      if !Named(headers[0], word) {
        FindExactly(headers[1..], word);
        if Find(headers[1..], word).Some? {
          var k :| 0 <= k < |headers[1..]| && headers[1..][k] == Find(headers[1..], word).value
            && SpelledAs(headers[1..][k].name, word) && forall j | 0 <= j < k :: !SpelledAs(headers[1..][j].name, word);
          assert headers[k + 1] == headers[1..][k];
          assert forall j | 0 <= j < k + 1 :: !SpelledAs(headers[j].name, word) by {
            assert forall j | 1 <= j < k + 1 :: headers[j] == headers[1..][j - 1];
          }
        } else {
          assert forall j | 1 <= j < |headers| :: headers[j] == headers[1..][j - 1];
        }
      }
    }
  }

  lemma AnnouncedIsFound(headers: seq<Header>, n: Option<nat>)
    requires Announces(headers, n)
    ensures var found := Find(headers, "content-length");
      if n.None? then found.None? else found.Some? && LengthValue(found.value.value) == n
  {
    FindExactly(headers, "content-length");
  }

  /** A length is read from its decimal numeral, padded or not, unless it overflows. */
  lemma LengthsAreRead(left: seq<Byte>, sign: seq<Byte>, numeral: seq<Byte>, digits: seq<nat>, right: seq<Byte>)
    requires Blank(left) && Blank(right) && IsAscii(left) && IsAscii(right)
    requires (sign == [] || sign == ['+' as int]) && numeral != [] && Spelling.Spells(numeral, digits, 10)
    ensures LengthValue(left + (sign + numeral) + right)
         == if Value(digits, 10) <= 4_294_967_295 then Some(Value(digits, 10)) else None
  {
    assert Spelling.Spells(numeral, digits, 16);
    NumeralIsAscii(numeral, digits);
    Utf8OfAscii(left + (sign + numeral) + right);
    var word: seq<int> := sign + numeral;
    PaddingGoes(left, word, right);
    NumeralsAreParsed(sign, numeral, digits, 10);
  }

  /** And only numerals are lengths. */
  lemma LengthsAreNumerals(value: seq<Byte>) returns (left: seq<int>, sign: seq<int>, numeral: seq<int>, digits: seq<nat>, right: seq<int>)
    requires LengthValue(value).Some?
    ensures Blank(left) && Blank(right) && (sign == [] || sign == ['+' as int]) && numeral != []
    ensures Spelling.Spells(numeral, digits, 10) && LengthValue(value) == Some(Value(digits, 10))
    ensures Utf8(value) == Some(left + (sign + numeral) + right)
  {
    var text := Utf8(value).value;
    left, right := TrimExactly(text);
    sign, digits := ParsedIsNumeral(Trim(text), 10);
    numeral := Trim(text)[|sign|..];
    assert Trim(text) == sign + numeral;
  }

  predicate IsHopByHop(h: Header) {
    SpelledAs(h.name, "connection") || SpelledAs(h.name, "transfer-encoding") || SpelledAs(h.name, "host")
  }

  /** Of the headers all are passed on, in order, but those about the connection. */
  lemma {:induction false} ForwardsTheOthers(before: seq<Header>, h: Header, after: seq<Header>)
    ensures ForwardedHeaders(before + [h] + after)
         == ForwardedHeaders(before) + (if IsHopByHop(h) then [] else [h]) + ForwardedHeaders(after)
    ensures ForwardedHeaders([]) == []
  {
    NamedExactly(h, "connection");
    NamedExactly(h, "transfer-encoding");
    NamedExactly(h, "host");
    ForwardsBoth(before, [h] + after);
    Associate(before, [h], after);
    assert ([h] + after)[1..] == after;
    Associate(ForwardedHeaders(before), if IsHopByHop(h) then [] else [h], ForwardedHeaders(after));
  }

  lemma {:induction false} ForwardsBoth(a: seq<Header>, b: seq<Header>)
    ensures ForwardedHeaders(a + b) == ForwardedHeaders(a) + ForwardedHeaders(b)
  {
    if a == [] {
      assert a + b == b;
    } else {
      var first := if Forwarded(a[0]) then [a[0]] else [];
      assert (a + b)[0] == a[0] && (a + b)[1..] == a[1..] + b;
      assert ForwardedHeaders(a + b) == first + ForwardedHeaders(a[1..] + b);
      ForwardsBoth(a[1..], b);
      Associate(first, ForwardedHeaders(a[1..]), ForwardedHeaders(b));
    }
  }

  // ----- the head -----

  /** These bytes are a complete head, of a response that the library builds. */
  ghost predicate IsHead(lib: Library, head: seq<Byte>, status: nat, headers: seq<Header>) {
    && Sound(lib)
    && lib.head(head) == Complete(|head|, Some(status), headers)
    && lib.builds(status, ForwardedHeaders(headers))
  }

  lemma HeadInFront(lib: Library, head: seq<Byte>, status: nat, headers: seq<Header>, rest: seq<Byte>)
    requires IsHead(lib, head, status, headers)
    ensures lib.head(head + rest) == Complete(|head|, Some(status), headers) && (head + rest)[|head|..] == rest
  {
    assert lib.head(head + rest) == lib.head(head);
  }

  lemma CutHeadIsPartial(lib: Library, head: seq<Byte>, status: nat, headers: seq<Header>, n: nat)
    requires IsHead(lib, head, status, headers) && n < |head|
    ensures lib.head(head[..n]).Partial?
  {
    var part, more := head[..n], head[n..];
    assert head == part + more;
    assert lib.head(part).Complete? ==> lib.head(part).length <= n;
    assert !lib.head(part).Partial? ==> lib.head(part + more) == lib.head(part);
  }

  // ----- framing -----

  /**
    The message is answered with this response as soon as it is complete,
    whatever follows and however the stream ends; and while it is not, it is
    waited for, or has failed when the stream ends.
  */
  ghost predicate Frames(lib: Library, isHead: bool, message: seq<Byte>, response: Response) {
    && (forall more: seq<Byte>, eof: bool :: Parse(lib, message + more, isHead, eof) == Answer(response))
    && (forall n: nat, eof: bool | n < |message| :: Parse(lib, message[..n], isHead, eof) == if eof then Failed else NeedMore)
  }

  lemma WholeIsAnswered(lib: Library, isHead: bool, head: seq<Byte>, status: nat, headers: seq<Header>, n: Option<nat>,
                        coded: seq<Byte>, body: seq<Byte>, more: seq<Byte>, eof: bool)
    requires IsHead(lib, head, status, headers) && Announces(headers, n)
    requires BodyOf(headers, isHead, status, coded + more, eof) == Body(body)
    ensures Parse(lib, head + coded + more, isHead, eof) == Answer(Response(status, ForwardedHeaders(headers), body))
  {
    AnnouncedIsFound(headers, n);
    Associate(head, coded, more);
    HeadInFront(lib, head, status, headers, coded + more);
  }

  lemma PartIsNotAnswered(lib: Library, isHead: bool, head: seq<Byte>, status: nat, headers: seq<Header>, n: Option<nat>,
                          coded: seq<Byte>, m: nat, eof: bool)
    requires IsHead(lib, head, status, headers) && Announces(headers, n) && m < |head + coded|
    requires m >= |head| ==> BodyOf(headers, isHead, status, coded[..m - |head|], eof) == if eof then Invalid else Incomplete
    ensures Parse(lib, (head + coded)[..m], isHead, eof) == if eof then Failed else NeedMore
  {
    if m < |head| {
      CutHeadIsPartial(lib, head, status, headers, m);
      assert (head + coded)[..m] == head[..m];
    } else {
      AnnouncedIsFound(headers, n);
      assert (head + coded)[..m] == head + coded[..m - |head|];
      HeadInFront(lib, head, status, headers, coded[..m - |head|]);
    }
  }

  /** A message is framed when what its body's bytes come to is decided by them alone. */
  lemma FramedByBody(lib: Library, isHead: bool, head: seq<Byte>, status: nat, headers: seq<Header>, n: Option<nat>,
                     coded: seq<Byte>, body: seq<Byte>)
    requires IsHead(lib, head, status, headers) && Announces(headers, n)
    requires forall more: seq<Byte>, eof: bool :: BodyOf(headers, isHead, status, coded + more, eof) == Body(body)
    requires forall m: nat, eof: bool | m < |coded| ::
      BodyOf(headers, isHead, status, coded[..m], eof) == if eof then Invalid else Incomplete
    ensures Frames(lib, isHead, head + coded, Response(status, ForwardedHeaders(headers), body))
  {
    forall more: seq<Byte>, eof: bool
      ensures Parse(lib, head + coded + more, isHead, eof) == Answer(Response(status, ForwardedHeaders(headers), body))
    {
      WholeIsAnswered(lib, isHead, head, status, headers, n, coded, body, more, eof);
    }
    forall m: nat, eof: bool | m < |head + coded|
      ensures Parse(lib, (head + coded)[..m], isHead, eof) == if eof then Failed else NeedMore
    {
      PartIsNotAnswered(lib, isHead, head, status, headers, n, coded, m, eof);
    }
  }

  /** Rule 1: a response to HEAD, and one of status 1xx, 204 or 304, ends with its head. */
  lemma EndsWithItsHead(lib: Library, isHead: bool, head: seq<Byte>, status: nat, headers: seq<Header>, n: Option<nat>)
    requires IsHead(lib, head, status, headers) && Announces(headers, n)
    requires isHead || 100 <= status <= 199 || status == 204 || status == 304
    ensures Frames(lib, isHead, head, Response(status, ForwardedHeaders(headers), []))
  {
    FramedByBody(lib, isHead, head, status, headers, n, [], []);
    assert head + [] == head;
  }

  /** Rule 4: else a chunked one ends with its last chunk and trailers, whatever length is announced. */
  lemma EndsWithItsChunks(lib: Library, head: seq<Byte>, status: nat, headers: seq<Header>, n: Option<nat>,
                          chunks: seq<seq<Byte>>, trailers: seq<seq<Byte>>)
    requires IsHead(lib, head, status, headers) && Announces(headers, n)
    requires !(100 <= status <= 199) && status != 204 && status != 304
    requires exists k :: 0 <= k < |headers| && IsCoded(headers[k])
    requires forall k | 0 <= k < |chunks| :: 0 < |chunks[k]| <= USIZE_MAX
    requires forall k | 0 <= k < |trailers| :: IsTrailer(trailers[k])
    ensures Frames(lib, false, head + Encode(chunks, trailers), Response(status, ForwardedHeaders(headers), Concat(chunks)))
  {
    CodedExactly(headers);
    var coded := Encode(chunks, trailers);
    forall more: seq<Byte>, eof: bool ensures BodyOf(headers, false, status, coded + more, eof) == Body(Concat(chunks)) {
      DecodeUndoesEncode(chunks, trailers, more, 0);
    }
    forall m: nat, eof: bool | m < |coded|
      ensures BodyOf(headers, false, status, coded[..m], eof) == if eof then Invalid else Incomplete
    {
      DecodeUndoesEncode(chunks, trailers, [], m);
    }
    FramedByBody(lib, false, head, status, headers, n, coded, Concat(chunks));
  }

  lemma BodyByLength(headers: seq<Header>, status: nat, n: nat, bytes: seq<Byte>, eof: bool)
    requires !(100 <= status <= 199) && status != 204 && status != 304 && !IsChunked(headers)
    requires Find(headers, "content-length").Some? && LengthValue(Find(headers, "content-length").value.value) == Some(n)
    ensures BodyOf(headers, false, status, bytes, eof)
         == if n <= |bytes| then Body(bytes[..n]) else if eof then Invalid else Incomplete
  {
  }

  lemma BodyByTheEnd(headers: seq<Header>, status: nat, bytes: seq<Byte>, eof: bool)
    requires !(100 <= status <= 199) && status != 204 && status != 304 && !IsChunked(headers)
    requires Find(headers, "content-length").None?
    ensures BodyOf(headers, false, status, bytes, eof) == if eof then Body(bytes) else Incomplete
  {
  }

  /** Rule 6: else one with a length ends after that many bytes. */
  lemma EndsAfterItsLength(lib: Library, head: seq<Byte>, status: nat, headers: seq<Header>, body: seq<Byte>)
    requires IsHead(lib, head, status, headers) && Announces(headers, Some(|body|))
    requires !(100 <= status <= 199) && status != 204 && status != 304
    requires forall k | 0 <= k < |headers| :: !IsCoded(headers[k])
    ensures Frames(lib, false, head + body, Response(status, ForwardedHeaders(headers), body))
  {
    CodedExactly(headers);
    AnnouncedIsFound(headers, Some(|body|));
    forall more: seq<Byte>, eof: bool ensures BodyOf(headers, false, status, body + more, eof) == Body(body) {
      assert (body + more)[..|body|] == body;
      BodyByLength(headers, status, |body|, body + more, eof);
    }
    forall m: nat, eof: bool | m < |body|
      ensures BodyOf(headers, false, status, body[..m], eof) == if eof then Invalid else Incomplete
    {
      BodyByLength(headers, status, |body|, body[..m], eof);
    }
    FramedByBody(lib, false, head, status, headers, Some(|body|), body, body);
  }

  /** Rule 8: else it ends with the stream. */
  lemma EndsWithTheStream(lib: Library, head: seq<Byte>, status: nat, headers: seq<Header>, body: seq<Byte>)
    requires IsHead(lib, head, status, headers) && Announces(headers, None)
    requires !(100 <= status <= 199) && status != 204 && status != 304
    requires forall k | 0 <= k < |headers| :: !IsCoded(headers[k])
    ensures Parse(lib, head + body, false, true) == Answer(Response(status, ForwardedHeaders(headers), body))
    ensures Parse(lib, head + body, false, false) == NeedMore
  {
    CodedExactly(headers);
    AnnouncedIsFound(headers, None);
    HeadInFront(lib, head, status, headers, body);
    BodyByTheEnd(headers, status, body, true);
    BodyByTheEnd(headers, status, body, false);
  }

  /** The first length among the headers is no numeral, or overflows. */
  ghost predicate BadLength(headers: seq<Header>) {
    exists k ::
      && 0 <= k < |headers| && IsLength(headers[k]) && LengthValue(headers[k].value).None?
      && forall j | 0 <= j < k :: !IsLength(headers[j])
  }

  /** Refused are a head that is none, one without a status, and one with a bad length. */
  lemma BadHeadsAreRefused(lib: Library, isHead: bool, bytes: seq<Byte>, eof: bool)
    requires lib.head(bytes).Malformed?
          || (lib.head(bytes).Complete? && (lib.head(bytes).code.None? || BadLength(lib.head(bytes).headers)))
    ensures Parse(lib, bytes, isHead, eof) == Failed
  {
    if lib.head(bytes).Complete? { FindExactly(lib.head(bytes).headers, "content-length"); }
  }

  /** And, once it is complete, a response that the library does not build. */
  lemma UnbuildableIsRefused(lib: Library, isHead: bool, bytes: seq<Byte>)
    requires lib.head(bytes).Complete? && lib.head(bytes).code.Some?
    requires !lib.builds(lib.head(bytes).code.value, ForwardedHeaders(lib.head(bytes).headers))
    ensures Parse(lib, bytes, isHead, true) == Failed
  {
    if !Parse(lib, bytes, isHead, true).Failed? { EofAnswers(lib, bytes, isHead); }
  }

  /**
    However the guest cuts a framed message into writes, the waiting request is
    answered with the response once the message is complete, and not before; if
    it ends its writing early, the request has failed.
  */
  lemma FramedIsServed(lib: Library, isHead: bool, ops: seq<HttpResponse.Operation>, message: seq<Byte>, response: Response)
    requires Sound(lib) && Frames(lib, isHead, message, response)
    requires message <= HttpResponse.Written(ops) || HttpResponse.Written(ops) < message
    ensures After(lib, isHead, ops).fired ==
            if message <= HttpResponse.Written(ops) then [Answer(response)] else if Over(ops) then [Failed] else []
  {
    AnsweredByTheBytes(lib, isHead, ops);
    var bytes := HttpResponse.Written(ops);
    if message <= bytes {
      assert bytes == message + bytes[|message|..];
    } else {
      assert bytes == message[..|bytes|];
    }
  }

  /**
    A guest ends its writing by shutting down its writing half or both, or by
    letting go of the socket; each settles the request, and nothing after it is
    heard. Shutting down only the reading half is without effect.
  */
  lemma WritingEnds(lib: Library, isHead: bool, ops: seq<HttpResponse.Operation>, op: HttpResponse.Operation, later: HttpResponse.Operation)
    requires Sound(lib) && op in {ShutdownWrite, ShutdownBoth, DropSocket}
    ensures var x := After(lib, isHead, ops + [op]);
      !x.open && |x.fired| == 1 && Apply(lib, isHead, x, later) == x && After(lib, isHead, ops).fired <= x.fired
    ensures After(lib, isHead, ops + [ShutdownRead]) == After(lib, isHead, ops)
  {
    RunAnswers(lib, isHead, ops);
    assert (ops + [op])[..|ops|] == ops && (ops + [ShutdownRead])[..|ops|] == ops;
    EofAnswers(lib, After(lib, isHead, ops).bytes, isHead);
  }
}
