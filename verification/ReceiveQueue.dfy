/**
  The receive queues of js/src/node-network.ts and js/src/wisp-network.ts, and
  the mailbox in which a read's result crosses to the worker that asked for it
  (js/src/node-network-rpc.ts, js/src/node-worker-adapter.ts,
  js/src/node-worker.ts).
*/
module ReceiveQueue {
  import opened Bytes

  const RECEIVE_HIGH_WATER_BYTES := 1024 * 1024
  const RECEIVE_RESUME_BYTES := 256 * 1024
  const RECEIVE_LIMIT_BYTES := 16 * 1024 * 1024

  /** `SocketState`, and whether the socket below is paused. */
  datatype Queue = Queue(chunks: seq<seq<Byte>>, offset: nat, buffered: int, ended: bool, paused: bool)

  const EMPTY := Queue([], 0, 0, false, false)

  /** `socketRead` answers null at the end, undefined while there is nothing, else bytes. */
  datatype Answer = AtEnd | Nothing | Data(bytes: seq<Byte>)

  /** The bytes that have arrived and were not read. */
  function Unread(chunks: seq<seq<Byte>>, offset: nat): seq<Byte> {
    if offset <= |Concat(chunks)| then Concat(chunks)[offset..] else []
  }

  function Size(chunks: seq<seq<Byte>>): nat {
    if chunks == [] then 0 else |chunks[0]| + Size(chunks[1..])
  }

  /** `buffered` is the size of the chunks less what was read of the first. */
  predicate Valid(q: Queue) {
    && (if q.chunks == [] then q.offset == 0 else q.offset <= |q.chunks[0]|)
    && q.buffered == Size(q.chunks) - q.offset
  }

  lemma {:induction false} SizeIsLength(chunks: seq<seq<Byte>>)
    ensures Size(chunks) == |Concat(chunks)|
  {
    if chunks != [] { SizeIsLength(chunks[1..]); }
  }

  /** One turn of the read loop: bytes of the first chunk, which goes when it is used up. */
  function Took(q: Queue, count: nat): Queue
    requires q.chunks != []
  {
    var next := q.(offset := q.offset + count, buffered := q.buffered - count);
    if next.offset == |q.chunks[0]| then next.(chunks := q.chunks[1..], offset := 0) else next
  }

  /** How much the first chunk gives when this much is wanted. */
  function Turn(q: Queue, want: nat): nat
    requires q.chunks != [] && q.offset <= |q.chunks[0]|
  {
    Min(want, |q.chunks[0]| - q.offset)
  }

  /** What the read loop leaves of a queue when this much is wanted. */
  function Rest(q: Queue, want: nat): Queue
    decreases want, |q.chunks|
  {
    if want == 0 || q.chunks == [] || q.offset > |q.chunks[0]| then q
    else Rest(Took(q, Turn(q, want)), want - Turn(q, want))
  }

  /** A Node socket that was paused goes on once it is drained far enough. */
  function Resumed(q: Queue): Queue {
    if q.paused && q.buffered <= RECEIVE_RESUME_BYTES then q.(paused := false) else q
  }

  function Read(q: Queue, maximum: nat): (Queue, Answer) {
    if q.buffered <= 0 then (q, if q.ended then AtEnd else Nothing)
    else
      var want := Min(maximum, q.buffered);
      (Resumed(Rest(q, want)), Data(if want <= |Unread(q.chunks, q.offset)| then Unread(q.chunks, q.offset)[..want] else []))
  }

  /** The `data` handler of a Node socket. */
  function NodeData(q: Queue, chunk: seq<Byte>): Queue {
    var next := q.(chunks := q.chunks + [chunk], buffered := q.buffered + |chunk|);
    if next.buffered >= RECEIVE_HIGH_WATER_BYTES && !q.paused then next.(paused := true) else next
  }

  /** The `onmessage` handler of a WISP stream: what would overflow ends the stream. */
  function WispMessage(q: Queue, chunk: seq<Byte>): Queue {
    if q.ended then q
    else if q.buffered + |chunk| > RECEIVE_LIMIT_BYTES then q.(ended := true)
    else q.(chunks := q.chunks + [chunk], buffered := q.buffered + |chunk|)
  }

  // ----- the loop is a byte queue's read -----

  lemma UnreadFirst(chunks: seq<seq<Byte>>, offset: nat, count: nat)
    requires chunks != [] && offset + count <= |chunks[0]|
    ensures Unread(chunks, offset) == chunks[0][offset..offset + count] + Unread(chunks, offset + count)
  {
    var first, rest := chunks[0], Concat(chunks[1..]);
    assert Concat(chunks) == first + rest;
    assert (first + rest)[offset..] == first[offset..] + rest;
    assert (first + rest)[offset + count..] == first[offset + count..] + rest;
    assert first[offset..] == first[offset..offset + count] + first[offset + count..];
  }

  lemma UnreadNext(chunks: seq<seq<Byte>>)
    requires chunks != []
    ensures Unread(chunks, |chunks[0]|) == Unread(chunks[1..], 0)
  {
    assert Concat(chunks) == chunks[0] + Concat(chunks[1..]);
  }

  lemma SplitAt(u: seq<Byte>, k: nat)
    requires k <= |u|
    ensures u[..k] + u[k..] == u && u[0..] == u && [] + u == u
  {
  }

  lemma TakeOne(q: Queue, count: nat)
    requires q.chunks != [] && q.offset + count <= |q.chunks[0]|
    ensures Unread(q.chunks, q.offset) ==
            q.chunks[0][q.offset..q.offset + count] + Unread(Took(q, count).chunks, Took(q, count).offset)
  {
    UnreadFirst(q.chunks, q.offset, count);
    UnreadNext(q.chunks);
  }

  /** While bytes are wanted there is a chunk to take them from, and each turn takes some or uses up a chunk. */
  lemma TurnMoves(q: Queue, want: nat)
    requires Valid(q) && 0 < want <= q.buffered
    ensures q.chunks != [] && q.offset <= |q.chunks[0]|
    ensures var count := Turn(q, want);
      var next := Took(q, count);
      && 0 <= count <= want
      && Valid(next) && next.buffered == q.buffered - count && next.ended == q.ended && next.paused == q.paused
      && (count > 0 || |next.chunks| < |q.chunks|)
  {
  }

  lemma DropBoth(all: seq<Byte>, piece: seq<Byte>, rest: seq<Byte>, want: nat)
    requires all == piece + rest && |piece| <= want <= |all|
    ensures all[want..] == rest[want - |piece|..]
  {
  }

  lemma {:induction false} RestDrops(q: Queue, want: nat)
    requires Valid(q) && want <= q.buffered
    ensures var next := Rest(q, want);
      && Valid(next) && next.buffered == q.buffered - want && next.ended == q.ended && next.paused == q.paused
      && |Unread(q.chunks, q.offset)| == q.buffered
      && Unread(next.chunks, next.offset) == Unread(q.chunks, q.offset)[want..]
    decreases want, |q.chunks|
  {
    UnreadIsBuffered(q);
    SplitAt(Unread(q.chunks, q.offset), 0);
    if want > 0 {
      TurnMoves(q, want);
      var count := Turn(q, want);
      var next := Took(q, count);
      TakeOne(q, count);
      RestDrops(next, want - count);
      DropBoth(Unread(q.chunks, q.offset), q.chunks[0][q.offset..q.offset + count], Unread(next.chunks, next.offset), want);
    }
  }

  lemma UnreadIsBuffered(q: Queue)
    requires Valid(q)
    ensures |Unread(q.chunks, q.offset)| == q.buffered
  {
    SizeIsLength(q.chunks);
  }

  /** A read takes the oldest unread bytes, as many as were asked for or are there, and leaves the rest in order. */
  lemma ReadTakesOldest(q: Queue, maximum: nat)
    requires Valid(q)
    ensures var (next, answer) := Read(q, maximum);
      && Valid(next) && next.ended == q.ended
      && (next.paused <==> q.paused && (answer.Data? ==> next.buffered > RECEIVE_RESUME_BYTES))
      && (answer.Data? <==> Unread(q.chunks, q.offset) != [])
      && (answer.AtEnd? ==> q.ended)
      && (answer.Nothing? ==> !q.ended)
      && (answer.Data? ==>
            && |answer.bytes| == Min(maximum, |Unread(q.chunks, q.offset)|)
            && answer.bytes + Unread(next.chunks, next.offset) == Unread(q.chunks, q.offset))
      && (!answer.Data? ==> next == q)
  {
    UnreadIsBuffered(q);
    if q.buffered > 0 {
      RestDrops(q, Min(maximum, q.buffered));
      SplitAt(Unread(q.chunks, q.offset), Min(maximum, q.buffered));
    }
  }

  lemma {:induction false} SizeSnoc(chunks: seq<seq<Byte>>, last: seq<Byte>)
    ensures Size(chunks + [last]) == Size(chunks) + |last|
  {
    if chunks == [] {
      assert chunks + [last] == [last];
    } else {
      assert (chunks + [last])[1..] == chunks[1..] + [last];
      SizeSnoc(chunks[1..], last);
    }
  }

  lemma ArrivalAppends(q: Queue, chunk: seq<Byte>)
    requires Valid(q)
    ensures var next := q.(chunks := q.chunks + [chunk], buffered := q.buffered + |chunk|);
      Valid(next) && Unread(next.chunks, next.offset) == Unread(q.chunks, q.offset) + chunk
  {
    ConcatSnoc(q.chunks, chunk);
    SizeSnoc(q.chunks, chunk);
    SizeIsLength(q.chunks);
    assert (Concat(q.chunks) + chunk)[q.offset..] == Concat(q.chunks)[q.offset..] + chunk;
  }

  // ----- runs -----

  datatype Event = Arrives(chunk: seq<Byte>) | Ends | Reads(maximum: nat)

  /** A socket's history: its queue, and the bytes that were read. */
  datatype History = History(queue: Queue, delivered: seq<Byte>)

  function Happens(h: History, e: Event, wisp: bool): History {
    match e
    case Arrives(chunk) => h.(queue := if wisp then WispMessage(h.queue, chunk) else NodeData(h.queue, chunk))
    case Ends => h.(queue := h.queue.(ended := true))
    case Reads(maximum) =>
      var (next, answer) := Read(h.queue, maximum);
      h.(queue := next, delivered := if answer.Data? then h.delivered + answer.bytes else h.delivered)
  }

  function Run(events: seq<Event>, wisp: bool): History {
    if events == [] then History(EMPTY, []) else Happens(Run(events[..|events| - 1], wisp), events[|events| - 1], wisp)
  }

  /**
    What the events alone say: the bytes that have arrived, how many of them
    were read, whether more may come, and whether the sender is held back.
  */
  datatype Tally = Tally(arrived: seq<Byte>, read: nat, open: bool, held: bool)

  function Waiting(t: Tally): int {
    |t.arrived| - t.read
  }

  /**
    A WISP message is taken if the stream has not ended and the unread bytes with
    it are at most 16 MiB; the first that does not fit ends the stream. Node data
    is always taken, and holds the sender back at 1 MiB unread until a read
    leaves no more than 256 KiB.
  */
  function Counts(t: Tally, e: Event, wisp: bool): Tally {
    match e
    case Arrives(chunk) =>
      if !wisp then t.(arrived := t.arrived + chunk, held := t.held || Waiting(t) + |chunk| >= 1024 * 1024)
      else if t.open && Waiting(t) + |chunk| <= 16 * 1024 * 1024 then t.(arrived := t.arrived + chunk)
      else t.(open := false)
    case Ends => t.(open := false)
    case Reads(maximum) =>
      var given := Min(maximum, Max(Waiting(t), 0));
      t.(read := t.read + given, held := t.held && (Waiting(t) <= 0 || Waiting(t) - given > 256 * 1024))
  }

  function Counted(events: seq<Event>, wisp: bool): Tally {
    if events == [] then Tally([], 0, true, false) else Counts(Counted(events[..|events| - 1], wisp), events[|events| - 1], wisp)
  }

  /** The queue holds what has arrived and was not read, and what was read is what arrived before that. */
  predicate Agrees(h: History, t: Tally) {
    && Valid(h.queue) && t.read <= |t.arrived|
    && Unread(h.queue.chunks, h.queue.offset) == t.arrived[t.read..]
    && h.delivered == t.arrived[..t.read]
    && h.queue.ended == !t.open && h.queue.paused == t.held
  }

  lemma ArrivalAgrees(h: History, t: Tally, chunk: seq<Byte>, wisp: bool)
    requires Agrees(h, t)
    ensures Agrees(Happens(h, Arrives(chunk), wisp), Counts(t, Arrives(chunk), wisp))
  {
    ArrivalAppends(h.queue, chunk);
    UnreadIsBuffered(h.queue);
    assert (t.arrived + chunk)[t.read..] == t.arrived[t.read..] + chunk;
    assert (t.arrived + chunk)[..t.read] == t.arrived[..t.read];
  }

  lemma ReadAgrees(h: History, t: Tally, maximum: nat, wisp: bool)
    requires Agrees(h, t)
    ensures Agrees(Happens(h, Reads(maximum), wisp), Counts(t, Reads(maximum), wisp))
  {
    ReadTakesOldest(h.queue, maximum);
    var (next, answer) := Read(h.queue, maximum);
    UnreadIsBuffered(h.queue);
    UnreadIsBuffered(next);
    if answer.Data? { Moved(t.arrived, t.read, answer.bytes, Unread(next.chunks, next.offset)); }
  }

  lemma Moved(all: seq<Byte>, read: nat, piece: seq<Byte>, rest: seq<Byte>)
    requires read <= |all| && all[read..] == piece + rest
    ensures all[..read] + piece == all[..read + |piece|] && all[read + |piece|..] == rest
  {
    assert all == all[..read] + all[read..];
  }

  lemma {:induction false} RunsAgree(events: seq<Event>, wisp: bool)
    ensures Agrees(Run(events, wisp), Counted(events, wisp))
  {
    if events == [] {
      SplitAt(Unread([], 0), 0);
    } else {
      var before := events[..|events| - 1];
      RunsAgree(before, wisp);
      match events[|events| - 1]
      case Arrives(chunk) => ArrivalAgrees(Run(before, wisp), Counted(before, wisp), chunk, wisp);
      case Ends =>
      case Reads(maximum) => ReadAgrees(Run(before, wisp), Counted(before, wisp), maximum, wisp);
    }
  }

  lemma AnswerIsNext(h: History, t: Tally, maximum: nat)
    requires Agrees(h, t)
    ensures Read(h.queue, maximum).1 ==
            if t.read < |t.arrived| then Data(t.arrived[t.read..Min(t.read + maximum, |t.arrived|)])
            else if t.open then Nothing else AtEnd
  {
    ReadTakesOldest(h.queue, maximum);
    var (next, answer) := Read(h.queue, maximum);
    if answer.Data? {
      Moved(t.arrived, t.read, answer.bytes, Unread(next.chunks, next.offset));
      assert t.arrived[..t.read + |answer.bytes|][t.read..] == answer.bytes;
    }
  }

  /**
    In every run, what was read is the front of what arrived, the queue holds the
    rest in order, and `buffered` is its size; and a read answers with the next
    bytes, with the end when all is read and no more may come, or with nothing yet.
  */
  lemma QueuesAreFifo(events: seq<Event>, wisp: bool, maximum: nat)
    ensures var h, t := Run(events, wisp), Counted(events, wisp);
      && t.read <= |t.arrived|
      && h.delivered == t.arrived[..t.read]
      && Unread(h.queue.chunks, h.queue.offset) == t.arrived[t.read..]
      && h.queue.buffered == |t.arrived| - t.read
      && Read(h.queue, maximum).1 ==
           if t.read < |t.arrived| then Data(t.arrived[t.read..Min(t.read + maximum, |t.arrived|)])
           else if t.open then Nothing else AtEnd
  {
    RunsAgree(events, wisp);
    UnreadIsBuffered(Run(events, wisp).queue);
    AnswerIsNext(Run(events, wisp), Counted(events, wisp), maximum);
  }

  predicate WithinMarks(t: Tally, wisp: bool) {
    && t.read <= |t.arrived|
    && (t.held ==> !wisp && Waiting(t) > RECEIVE_RESUME_BYTES)
    && (!wisp && !t.held ==> Waiting(t) < RECEIVE_HIGH_WATER_BYTES)
    && (wisp ==> Waiting(t) <= RECEIVE_LIMIT_BYTES)
  }

  lemma CountsWithin(t: Tally, e: Event, wisp: bool)
    requires WithinMarks(t, wisp)
    ensures WithinMarks(Counts(t, e, wisp), wisp)
  {
  }

  lemma {:induction false} CountedWithin(events: seq<Event>, wisp: bool)
    ensures WithinMarks(Counted(events, wisp), wisp)
  {
    if events != [] {
      CountedWithin(events[..|events| - 1], wisp);
      CountsWithin(Counted(events[..|events| - 1], wisp), events[|events| - 1], wisp);
    }
  }

  /** A socket that is read to the end is not paused. */
  lemma DrainedGoesOn(q: Queue, maximum: nat)
    requires Valid(q) && maximum >= q.buffered && (q.paused ==> q.buffered > 0)
    ensures !Read(q, maximum).0.paused
  {
    ReadTakesOldest(q, maximum);
    UnreadIsBuffered(q);
    UnreadIsBuffered(Read(q, maximum).0);
  }

  /**
    A paused Node socket holds more than 256 KiB unread, so reading on always
    resumes it, and one that is not paused less than 1 MiB; a WISP queue never
    holds more than 16 MiB.
  */
  lemma WatermarksHold(events: seq<Event>, wisp: bool)
    ensures var h, t := Run(events, wisp), Counted(events, wisp);
      && t.read <= |t.arrived| && h.queue.paused == t.held
      && (h.queue.paused ==> |t.arrived| - t.read > RECEIVE_RESUME_BYTES)
      && (!wisp && !h.queue.paused ==> |t.arrived| - t.read < RECEIVE_HIGH_WATER_BYTES)
      && (wisp ==> |t.arrived| - t.read <= RECEIVE_LIMIT_BYTES && !h.queue.paused)
      && !Read(h.queue, |t.arrived|).0.paused
  {
    RunsAgree(events, wisp);
    CountedWithin(events, wisp);
    UnreadIsBuffered(Run(events, wisp).queue);
    DrainedGoesOn(Run(events, wisp).queue, |Counted(events, wisp).arrived|);
  }

  /** On a WISP stream that takes each of these messages, reading gives all of them, in order. */
  lemma {:induction false} MessagesAreRead(messages: seq<seq<Byte>>)
    requires |Concat(messages)| <= RECEIVE_LIMIT_BYTES
    ensures var h := Run(Arrivals(messages), true);
      && Counted(Arrivals(messages), true) == Tally(Concat(messages), 0, true, false)
      && (Concat(messages) != [] ==> Read(h.queue, |Concat(messages)|).1 == Data(Concat(messages)))
  {
    if messages != [] {
      var n := |messages| - 1;
      assert messages == messages[..n] + [messages[n]];
      ConcatSnoc(messages[..n], messages[n]);
      MessagesAreRead(messages[..n]);
      assert Arrivals(messages)[..n] == Arrivals(messages[..n]);
    }
    QueuesAreFifo(Arrivals(messages), true, |Concat(messages)|);
  }

  function Arrivals(messages: seq<seq<Byte>>): seq<Event> {
    seq(|messages|, k requires 0 <= k < |messages| => Arrives(messages[k]))
  }

  // ----- the socket -----

  /** What one turn gives. */
  function Piece(q: Queue, count: nat): seq<Byte>
    requires q.chunks != [] && q.offset + count <= |q.chunks[0]|
  {
    q.chunks[0][q.offset..q.offset + count]
  }

  /** The loop is at `q`, with `output` copied, in a read of `want` bytes from `start`. */
  predicate IsAt(start: Queue, want: nat, q: Queue, output: seq<Byte>) {
    && Valid(q)
    && |output| <= want <= |output| + q.buffered
    && Rest(q, want - |output|) == Rest(start, want)
    && output + Unread(q.chunks, q.offset) == Unread(start.chunks, start.offset)
  }

  lemma TurnKeeps(start: Queue, want: nat, q: Queue, output: seq<Byte>)
    requires IsAt(start, want, q, output) && |output| < want
    ensures q.chunks != [] && q.offset <= |q.chunks[0]|
    ensures var count := Turn(q, want - |output|);
      && IsAt(start, want, Took(q, count), output + Piece(q, count))
      && (count > 0 || |Took(q, count).chunks| < |q.chunks|)
  {
    TurnMoves(q, want - |output|);
    var count := Turn(q, want - |output|);
    TakeOne(q, count);
    Associate(output, Piece(q, count), Unread(Took(q, count).chunks, Took(q, count).offset));
  }

  method TakePiece(q: Queue, limit: nat) returns (next: Queue, piece: seq<Byte>)
    requires q.chunks != [] && q.offset <= |q.chunks[0]|
    ensures next == Took(q, Turn(q, limit)) && piece == Piece(q, Turn(q, limit))
  {
    var chunk := q.chunks[0];
    var count := Min(limit, |chunk| - q.offset);
    piece := chunk[q.offset..q.offset + count];
    next := q.(offset := q.offset + count, buffered := q.buffered - count);
    if next.offset == |chunk| {
      next := next.(chunks := q.chunks[1..], offset := 0);
    }
  }

  /** The read loop, on a socket's queue. */
  method ReadLoop(start: Queue, want: nat) returns (q: Queue, output: seq<Byte>)
    requires Valid(start) && want <= start.buffered
    ensures q == Rest(start, want)
    ensures |output| == want && output + Unread(q.chunks, q.offset) == Unread(start.chunks, start.offset)
  {
    q, output := start, [];
    SplitAt(Unread(q.chunks, q.offset), 0);
    while |output| < want
      invariant IsAt(start, want, q, output)
      decreases want - |output|, |q.chunks|
    {
      TurnKeeps(start, want, q, output);
      var next, piece := TakePiece(q, want - |output|);
      q, output := next, output + piece;
    }
  }

  class SocketState {
    var chunks: seq<seq<Byte>>
    var offset: nat
    var buffered: int
    var ended: bool
    var paused: bool

    function View(): Queue
      reads this
    {
      Queue(chunks, offset, buffered, ended, paused)
    }

    constructor ()
      ensures View() == EMPTY
    {
      chunks, offset, buffered, ended, paused := [], 0, 0, false, false;
    }

    method OnData(chunk: seq<Byte>)
      modifies this
      ensures View() == NodeData(old(View()), chunk)
    {
      chunks := chunks + [chunk];
      buffered := buffered + |chunk|;
      if buffered >= RECEIVE_HIGH_WATER_BYTES && !paused { paused := true; }
    }

    method OnMessage(chunk: seq<Byte>)
      modifies this
      ensures View() == WispMessage(old(View()), chunk)
    {
      if ended { return; }
      if buffered + |chunk| > RECEIVE_LIMIT_BYTES {
        ended := true;
        return;
      }
      chunks := chunks + [chunk];
      buffered := buffered + |chunk|;
    }

    /** `socketRead`. */
    method SocketRead(maximum: nat) returns (answer: Answer)
      requires Valid(View())
      modifies this
      ensures Valid(View())
      ensures (View(), answer) == Read(old(View()), maximum)
    {
      ReadTakesOldest(View(), maximum);
      if buffered == 0 { return if ended then AtEnd else Nothing; }
      var next, output := ReadLoop(View(), Min(maximum, buffered));
      RestDrops(View(), Min(maximum, buffered));
      chunks, offset, buffered := next.chunks, next.offset, next.buffered;
      if paused && buffered <= RECEIVE_RESUME_BYTES { paused := false; }
      answer := Data(output);
    }
  }

  // ----- the mailbox of one call -----

  const NETWORK_RPC_CONTROL_BYTES := 16
  const NETWORK_RPC_ERROR_BYTES := 512

  /** `networkResponseBufferBytes`; only reads ask for room. */
  function ResponseBufferBytes(requested: Option<int>): nat {
    NETWORK_RPC_CONTROL_BYTES + Max(NETWORK_RPC_ERROR_BYTES, if requested.Some? then Max(0, requested.value) else 0)
  }

  /** What a call answers across the mailbox. */
  datatype Response = Json(text: seq<Byte>) | Raw(bytes: seq<Byte>) | Undefined | Null | Error(text: seq<Byte>)

  function ResponseTo(answer: Answer): Response {
    match answer
    case AtEnd => Null
    case Nothing => Undefined
    case Data(bytes) => Raw(bytes)
  }

  /** The control words after the flag, and the payload. */
  datatype Mail = Mail(kind: nat, length: nat, payload: seq<Byte>)

  function Put(payload: seq<Byte>, bytes: seq<Byte>): seq<Byte>
    requires |bytes| <= |payload|
  {
    bytes + payload[|bytes|..]
  }

  /** `respondToNetworkRequest`: a result that does not fit becomes an error text, cut to fit. */
  function Encode(mail: Mail, response: Response, tooLong: seq<Byte>): Mail {
    match response
    case Undefined => mail.(kind := 3)
    case Null => mail.(kind := 4)
    case Raw(bytes) => if |bytes| > |mail.payload| then Encoded(mail, tooLong) else Mail(2, |bytes|, Put(mail.payload, bytes))
    case Json(text) => if |text| > |mail.payload| then Encoded(mail, tooLong) else Mail(1, |text|, Put(mail.payload, text))
    case Error(text) => Encoded(mail, text)
  }

  function Encoded(mail: Mail, text: seq<Byte>): Mail {
    var length := Min(|text|, |mail.payload|);
    Mail(5, length, Put(mail.payload, text[..length]))
  }

  /** What `callNetwork` makes of it; none for an unknown kind. */
  function Decode(mail: Mail): Option<Response> {
    if mail.length > |mail.payload| then None
    else
      var bytes := mail.payload[..mail.length];
      if mail.kind == 1 then Some(Json(bytes))
      else if mail.kind == 2 then Some(Raw(bytes))
      else if mail.kind == 3 then Some(Undefined)
      else if mail.kind == 4 then Some(Null)
      else if mail.kind == 5 then Some(Error(bytes))
      else None
  }

  lemma PutIsThere(payload: seq<Byte>, bytes: seq<Byte>)
    requires |bytes| <= |payload|
    ensures Put(payload, bytes)[..|bytes|] == bytes && |Put(payload, bytes)| == |payload|
  {
  }

  lemma ErrorComesThrough(mail: Mail, text: seq<Byte>)
    ensures Decode(Encoded(mail, text)) == Some(Error(text[..Min(|text|, |mail.payload|)]))
    ensures |Encoded(mail, text).payload| == |mail.payload|
  {
    PutIsThere(mail.payload, text[..Min(|text|, |mail.payload|)]);
  }

  /** A result comes through unchanged exactly when it fits; an error text is cut to fit; nothing else is lost. */
  lemma ComesThrough(mail: Mail, response: Response, tooLong: seq<Byte>)
    requires mail.length <= |mail.payload|
    ensures |Encode(mail, response, tooLong).payload| == |mail.payload|
    ensures response.Undefined? || response.Null? ==> Decode(Encode(mail, response, tooLong)) == Some(response)
    ensures response.Raw? ==>
      (Decode(Encode(mail, response, tooLong)) == Some(response) <==> |response.bytes| <= |mail.payload|)
    ensures response.Json? ==>
      (Decode(Encode(mail, response, tooLong)) == Some(response) <==> |response.text| <= |mail.payload|)
    ensures (response.Raw? && |response.bytes| > |mail.payload|) || (response.Json? && |response.text| > |mail.payload|) ==>
      Decode(Encode(mail, response, tooLong)) == Some(Error(tooLong[..Min(|tooLong|, |mail.payload|)]))
    ensures response.Error? ==>
      Decode(Encode(mail, response, tooLong)) == Some(Error(response.text[..Min(|response.text|, |mail.payload|)]))
  {
    match response
    case Raw(bytes) => if |bytes| <= |mail.payload| { PutIsThere(mail.payload, bytes); } else { ErrorComesThrough(mail, tooLong); }
    case Json(text) => if |text| <= |mail.payload| { PutIsThere(mail.payload, text); } else { ErrorComesThrough(mail, tooLong); }
    case Error(text) => ErrorComesThrough(mail, text);
    case _ =>
  }

  /** The mailbox a read allocates always has room for its answer, so no byte taken from the queue is lost on the way. */
  lemma ReadsComeThrough(q: Queue, maximum: nat, payload: seq<Byte>, tooLong: seq<Byte>)
    requires Valid(q)
    requires |payload| == ResponseBufferBytes(Some(maximum)) - NETWORK_RPC_CONTROL_BYTES
    ensures var (next, answer) := Read(q, maximum);
      Decode(Encode(Mail(0, 0, payload), ResponseTo(answer), tooLong)) == Some(ResponseTo(answer))
  {
    ReadTakesOldest(q, maximum);
    ComesThrough(Mail(0, 0, payload), ResponseTo(Read(q, maximum).1), tooLong);
  }
}
