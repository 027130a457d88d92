/**
  The guest's HTTP response as js/bindgen/src/browser_http.rs collects it:
  `parse_response` (RFC 9112 section 6.3) and the socket the guest writes to.
  The header parser and the response builder belong to libraries and are given
  by contract only.
*/
module HttpResponse {
  import opened Bytes
  import opened Chunked

  /** A header as the library leaves it: name in any case, value as bytes. */
  datatype Header = Header(name: seq<Byte>, value: seq<Byte>)

  datatype HeadResult =
    | Partial
    | Malformed
    | Complete(length: nat, code: Option<nat>, headers: seq<Header>)

  /** `httparse::Response::parse` and whether `http::Response` accepts a status and headers. */
  datatype Library = Library(head: seq<Byte> -> HeadResult, builds: (nat, seq<Header>) -> bool)

  /** What is required of the header parser: it starts out partial, stays within its input, and keeps its answers. */
  ghost predicate Sound(lib: Library) {
    && lib.head([]) == Partial
    && (forall b: seq<Byte> :: lib.head(b).Complete? ==> lib.head(b).length <= |b|)
    && (forall b: seq<Byte>, more: seq<Byte> {:trigger lib.head(b + more)} :: !lib.head(b).Partial? ==> lib.head(b + more) == lib.head(b))
  }

  datatype Response = Response(status: nat, headers: seq<Header>, body: seq<Byte>)

  /** `Ok(None)`, `Err(InvalidData)` and `Ok(Some(_))`. */
  datatype Parsed = NeedMore | Failed | Answer(response: Response)

  // ----- header names and values -----

  function Lower(c: int): int {
    if 'A' as int <= c <= 'Z' as int then c + 32 else c
  }

  function LowerAll(text: seq<int>): seq<int> {
    seq(|text|, i requires 0 <= i < |text| => Lower(text[i]))
  }

  function Codes(s: string): seq<int> {
    seq(|s|, i requires 0 <= i < |s| => s[i] as int)
  }

  predicate Named(h: Header, lowerName: string) {
    LowerAll(h.name) == Codes(lowerName)
  }

  predicate Contains(text: seq<int>, word: seq<int>) {
    word <= text || (text != [] && Contains(text[1..], word))
  }

  function Find(headers: seq<Header>, lowerName: string): Option<Header> {
    if headers == [] then None
    else if Named(headers[0], lowerName) then Some(headers[0])
    else Find(headers[1..], lowerName)
  }

  /** `value.trim().parse::<usize>()`. */
  function LengthValue(value: seq<Byte>): Option<nat> {
    var text := Utf8(value);
    if text.None? then None else ParseUsize(Trim(text.value), 10)
  }

  predicate IsChunked(headers: seq<Header>) {
    exists k :: 0 <= k < |headers| && Named(headers[k], "transfer-encoding") && SaysChunked(headers[k].value)
  }

  predicate SaysChunked(value: seq<Byte>) {
    var text := Utf8(value);
    text.Some? && Contains(LowerAll(text.value), Codes("chunked"))
  }

  predicate Forwarded(h: Header) {
    !Named(h, "connection") && !Named(h, "transfer-encoding") && !Named(h, "host")
  }

  function ForwardedHeaders(headers: seq<Header>): seq<Header> {
    if headers == [] then []
    else (if Forwarded(headers[0]) then [headers[0]] else []) + ForwardedHeaders(headers[1..])
  }

  // ----- parse_response -----

  predicate NoBody(isHead: bool, status: nat) {
    isHead || 100 <= status < 200 || status == 204 || status == 304
  }

  /** The body at the front of `bytes`, by the rules that decide how long it is. */
  function BodyOf(headers: seq<Header>, isHead: bool, status: nat, bytes: seq<Byte>, eof: bool): Decoded {
    var length := Find(headers, "content-length");
    if NoBody(isHead, status) then Body([])
    else if IsChunked(headers) then
      var decoded := Decode(bytes);
      if decoded.Incomplete? && eof then Invalid else decoded
    else if length.Some? && LengthValue(length.value.value).Some? then
      var n := LengthValue(length.value.value).value;
      if n <= |bytes| then Body(bytes[..n]) else if eof then Invalid else Incomplete
    else if eof then Body(bytes)
    else Incomplete
  }

  function Parse(lib: Library, bytes: seq<Byte>, isHead: bool, eof: bool): Parsed {
    match lib.head(bytes)
    case Malformed => Failed
    case Partial => if eof then Failed else NeedMore
    case Complete(n, code, headers) =>
      var length := Find(headers, "content-length");
      if code.None? || n > |bytes| || (length.Some? && LengthValue(length.value.value).None?) then Failed
      else
        match BodyOf(headers, isHead, code.value, bytes[n..], eof)
        case Incomplete => NeedMore
        case Invalid => Failed
        case Body(body) =>
          if lib.builds(code.value, ForwardedHeaders(headers))
          then Answer(Response(code.value, ForwardedHeaders(headers), body))
          else Failed
  }

  /** At end of file there is always an answer. */
  lemma EofAnswers(lib: Library, bytes: seq<Byte>, isHead: bool)
    ensures !Parse(lib, bytes, isHead, true).NeedMore?
  {
  }

  lemma BodyIsFinal(headers: seq<Header>, isHead: bool, status: nat, bytes: seq<Byte>, more: seq<Byte>, eof: bool)
    requires !BodyOf(headers, isHead, status, bytes, false).Incomplete?
    ensures BodyOf(headers, isHead, status, bytes + more, eof) == BodyOf(headers, isHead, status, bytes, false)
  {
    if !NoBody(isHead, status) && IsChunked(headers) {
      AnswersAreFinal(bytes, more);
    } else if Find(headers, "content-length").Some? && LengthValue(Find(headers, "content-length").value.value).Some? {
      var n := LengthValue(Find(headers, "content-length").value.value).value;
      assert n <= |bytes| ==> (bytes + more)[..n] == bytes[..n];
    }
  }

  /** An answer given before end of file is kept, whatever else is written and however the stream ends. */
  lemma AnswersAreKept(lib: Library, bytes: seq<Byte>, more: seq<Byte>, isHead: bool, eof: bool)
    requires Sound(lib) && !Parse(lib, bytes, isHead, false).NeedMore?
    ensures Parse(lib, bytes + more, isHead, eof) == Parse(lib, bytes, isHead, false)
  {
    assert lib.head(bytes + more) == lib.head(bytes);
    if lib.head(bytes).Complete? {
      var n, headers := lib.head(bytes).length, lib.head(bytes).headers;
      assert (bytes + more)[n..] == bytes[n..] + more;
      if lib.head(bytes).code.Some? && !BodyOf(headers, isHead, lib.head(bytes).code.value, bytes[n..], false).Incomplete? {
        BodyIsFinal(headers, isHead, lib.head(bytes).code.value, bytes[n..], more, eof);
      }
    }
  }

  // ----- the socket the guest writes its response to -----

  /** `open`: the socket still takes data. `waiting`: the oneshot sender is still there. `fired`: what it was sent. */
  datatype Exchange = Exchange(open: bool, bytes: seq<Byte>, waiting: bool, fired: seq<Parsed>)

  datatype Operation = Send(data: seq<Byte>) | ShutdownRead | ShutdownWrite | ShutdownBoth | DropSocket

  const FRESH := Exchange(true, [], true, [])

  /** `finish_response`. */
  function Finish(lib: Library, isHead: bool, x: Exchange, eof: bool): Exchange {
    if !x.open || !x.waiting then x
    else
      var parsed := Parse(lib, x.bytes, isHead, eof);
      if parsed.NeedMore? then x else x.(waiting := false, fired := x.fired + [parsed])
  }

  predicate EndsWriting(op: Operation) {
    op.ShutdownWrite? || op.ShutdownBoth? || op.DropSocket?
  }

  function Apply(lib: Library, isHead: bool, x: Exchange, op: Operation): Exchange {
    if op.Send? then (if x.open then Finish(lib, isHead, x.(bytes := x.bytes + op.data), false) else x)
    else if EndsWriting(op) then Finish(lib, isHead, x, true).(open := false)
    else x
  }

  function After(lib: Library, isHead: bool, ops: seq<Operation>): Exchange {
    if ops == [] then FRESH else Apply(lib, isHead, After(lib, isHead, ops[..|ops| - 1]), ops[|ops| - 1])
  }

  /** `BrowserHttpSocket`, as far as the response goes. */
  class BrowserHttpSocket {
    const lib: Library
    const isHead: bool
    var open: bool
    var bytes: seq<Byte>
    var waiting: bool
    var fired: seq<Parsed>

    constructor (lib: Library, isHead: bool)
      ensures this.lib == lib && this.isHead == isHead && View() == After(lib, isHead, [])
    {
      this.lib, this.isHead := lib, isHead;
      open, bytes, waiting, fired := true, [], true, [];
    }

    function View(): Exchange
      reads this
    {
      Exchange(open, bytes, waiting, fired)
    }

    method FinishResponse(eof: bool)
      modifies this
      ensures View() == Finish(lib, isHead, old(View()), eof)
    {
      if !open || !waiting {
        return;
      }
      waiting := false;
      match Parse(lib, bytes, isHead, eof) {
        case NeedMore => waiting := true;
        case Failed => fired := fired + [Failed];
        case Answer(response) => fired := fired + [Answer(response)];
      }
    }

    /** `None` is `NotConnected`. */
    method TrySend(data: seq<Byte>) returns (written: Option<nat>)
      modifies this
      ensures View() == Apply(lib, isHead, old(View()), Send(data))
      ensures written == if old(open) then Some(|data|) else None
    {
      if !open {
        return None;
      }
      bytes := bytes + data;
      FinishResponse(false);
      written := Some(|data|);
    }

    method Shutdown(read: bool, write: bool)
      modifies this
      ensures write ==> View() == Apply(lib, isHead, old(View()), if read then ShutdownBoth else ShutdownWrite)
      ensures !write ==> View() == Apply(lib, isHead, old(View()), ShutdownRead)
    {
      if write {
        FinishResponse(true);
        open := false;
      }
    }
  }

  // ----- one answer, however the response was written -----

  /** The bytes written before writing ended, and whether it has. */
  function Written(ops: seq<Operation>): seq<Byte> {
    if ops == [] || EndsWriting(ops[0]) then []
    else (if ops[0].Send? then ops[0].data else []) + Written(ops[1..])
  }

  predicate Over(ops: seq<Operation>) {
    exists k :: 0 <= k < |ops| && EndsWriting(ops[k])
  }

  lemma {:induction false} WrittenSnoc(ops: seq<Operation>, op: Operation)
    ensures Over(ops + [op]) == (Over(ops) || EndsWriting(op))
    ensures Written(ops + [op]) == if Over(ops) || !op.Send? then Written(ops) else Written(ops) + op.data
  {
    if ops == [] {
      assert ops + [op] == [op] && [op][1..] == [];
    } else {
      WrittenSnoc(ops[1..], op);
      assert (ops + [op])[1..] == ops[1..] + [op];
      assert Over(ops) == (EndsWriting(ops[0]) || Over(ops[1..])) by {
        if k :| 0 <= k < |ops| && EndsWriting(ops[k]) { assert k == 0 || EndsWriting(ops[1..][k - 1]); }
        if k :| 0 <= k < |ops[1..]| && EndsWriting(ops[1..][k]) { assert EndsWriting(ops[k + 1]); }
      }
      assert Over(ops + [op]) == (EndsWriting(ops[0]) || Over((ops + [op])[1..])) by {
        if k :| 0 <= k < |ops + [op]| && EndsWriting((ops + [op])[k]) { assert k == 0 || EndsWriting((ops + [op])[1..][k - 1]); }
        if k :| 0 <= k < |(ops + [op])[1..]| && EndsWriting((ops + [op])[1..][k]) { assert EndsWriting((ops + [op])[k + 1]); }
      }
    }
  }

  /** What must have been sent to the waiting request after writing `bytes`, with or without the end. */
  function Expected(lib: Library, isHead: bool, bytes: seq<Byte>, over: bool): seq<Parsed> {
    var parsed := Parse(lib, bytes, isHead, over);
    if parsed.NeedMore? then [] else [parsed]
  }

  /** The request has been answered by the parse of `bytes`, if that has an answer; `over` says that writing has ended. */
  predicate Answers(lib: Library, isHead: bool, x: Exchange, bytes: seq<Byte>, over: bool) {
    && x.fired == Expected(lib, isHead, bytes, over)
    && x.open == !over
    && (!over ==> x.bytes == bytes)
    && x.waiting == (x.fired == [])
  }

  lemma SendAnswers(lib: Library, isHead: bool, x: Exchange, bytes: seq<Byte>, over: bool, data: seq<Byte>)
    requires Sound(lib) && Answers(lib, isHead, x, bytes, over)
    ensures Answers(lib, isHead, Apply(lib, isHead, x, Send(data)), if over then bytes else bytes + data, over)
  {
    if !over && !Parse(lib, bytes, isHead, false).NeedMore? {
      AnswersAreKept(lib, bytes, data, isHead, false);
    }
  }

  lemma EndAnswers(lib: Library, isHead: bool, x: Exchange, bytes: seq<Byte>, over: bool, op: Operation)
    requires Sound(lib) && Answers(lib, isHead, x, bytes, over) && !op.Send?
    ensures Answers(lib, isHead, Apply(lib, isHead, x, op), bytes, over || EndsWriting(op))
  {
    if !over && !Parse(lib, bytes, isHead, false).NeedMore? {
      AnswersAreKept(lib, bytes, [], isHead, true);
      assert bytes + [] == bytes;
    }
  }

  lemma {:induction false} RunAnswers(lib: Library, isHead: bool, ops: seq<Operation>)
    requires Sound(lib)
    ensures Answers(lib, isHead, After(lib, isHead, ops), Written(ops), Over(ops))
  {
    if ops != [] {
      var before, op := ops[..|ops| - 1], ops[|ops| - 1];
      RunAnswers(lib, isHead, before);
      WrittenSnoc(before, op);
      assert ops == before + [op];
      if op.Send? {
        SendAnswers(lib, isHead, After(lib, isHead, before), Written(before), Over(before), op.data);
      } else {
        EndAnswers(lib, isHead, After(lib, isHead, before), Written(before), Over(before), op);
      }
    }
  }

  /**
    Whatever the guest does with the socket, the request has been answered by
    the parse of what was written so far: at most once, the same for every way
    of cutting the same bytes into writes, and exactly once when writing ends.
  */
  lemma AnsweredByTheBytes(lib: Library, isHead: bool, ops: seq<Operation>)
    requires Sound(lib)
    ensures After(lib, isHead, ops).fired == Expected(lib, isHead, Written(ops), Over(ops))
    ensures |After(lib, isHead, ops).fired| <= 1
    ensures Over(ops) ==> |After(lib, isHead, ops).fired| == 1
    ensures After(lib, isHead, ops).open == !Over(ops)
  {
    RunAnswers(lib, isHead, ops);
  }

  lemma SplitsAgree(lib: Library, isHead: bool, ops: seq<Operation>, others: seq<Operation>)
    requires Sound(lib) && Over(ops) && Over(others) && Written(ops) == Written(others)
    ensures After(lib, isHead, ops).fired == After(lib, isHead, others).fired == [Parse(lib, Written(ops), isHead, true)]
  {
    AnsweredByTheBytes(lib, isHead, ops);
    AnsweredByTheBytes(lib, isHead, others);
  }
}
