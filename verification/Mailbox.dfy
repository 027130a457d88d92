/**
  The shared-memory mailbox of js/src/host-filesystem.ts. A worker blocks on one
  call at a time and reuses its response buffer; the host writes the reply in
  four steps, and after a timeout it may still be writing an older one. Steps
  of the two sides interleave freely.
*/
module Mailbox {
  import opened Bytes

  const RESPONSE_BYTES := 512 * 1024
  const HEADER_BYTES := 8
  const CAPACITY: nat := RESPONSE_BYTES - HEADER_BYTES

  /** What the host answers: raw bytes, or the UTF-8 text of a JSON reply. */
  datatype Reply = Reply(binary: bool, bytes: seq<Byte>)

  const OVERSIZED_TEXT := "{\"error\":{\"code\":\"EIO\",\"message\":\"Native response exceeds bridge limit\"}}"

  /** The UTF-8 bytes of ASCII text. */
  function Ascii(text: string): (bytes: seq<Byte>)
    ensures |bytes| == |text|
  {
    seq(|text|, k requires 0 <= k < |text| => text[k] as int % 128)
  }

  const OVERSIZED: seq<Byte> := Ascii(OVERSIZED_TEXT)

  lemma AsciiIsItsText(text: string, k: nat)
    requires k < |text| && text[k] as int < 128
    ensures Ascii(text)[k] == text[k] as int
  {
  }

  /** What `respondToHostFileSystem` stores for a reply. */
  function Stored(reply: Reply): (r: Reply)
    ensures |r.bytes| <= CAPACITY
    ensures |reply.bytes| <= CAPACITY ==> r == reply
    ensures |reply.bytes| > CAPACITY ==> !r.binary && r.bytes == OVERSIZED
  {
    if |reply.bytes| > CAPACITY then Reply(false, OVERSIZED) else reply
  }

  /** Control words and payload of one `SharedArrayBuffer`. */
  datatype Buffer = Buffer(flag: int, length: nat, bytes: seq<Byte>)

  datatype Phase = Sent | Copied | Measured | Flagged | Notified

  datatype Outcome = Pending | Returned(reply: Reply) | TimedOut

  datatype Request = Request(buffer: nat, reply: Option<Reply>, phase: Phase, outcome: Outcome)

  datatype Worker = Idle | Checking(request: nat) | Sleeping(request: nat)

  datatype State = State(buffers: seq<Buffer>, requests: seq<Request>, responseBuffer: Option<nat>, worker: Worker, timeouts: nat)

  datatype Event =
    | Call
    | Check
    | Sleep
    | TimeOut
    | Copy(request: nat, reply: Reply)
    | Measure(request: nat)
    | Flag(request: nat)
    | Notify(request: nat)

  const INIT := State([], [], None, Idle, 0)

  /** A new buffer's payload. */
  function Blank(n: nat): (bytes: seq<Byte>)
    ensures |bytes| == n
  {
    seq(n, _ => 0)
  }

  function Overwrite(was: seq<Byte>, bytes: seq<Byte>): seq<Byte> {
    if |bytes| <= |was| then bytes + was[|bytes|..] else was
  }

  /** The head of a call: its buffer, its control words cleared, and its request posted. */
  function Called(s: State): State {
    var needed := s.responseBuffer.None? || s.responseBuffer.value >= |s.buffers|;
    var b := if needed then |s.buffers| else s.responseBuffer.value;
    State(
      if needed then s.buffers + [Buffer(0, 0, Blank(CAPACITY))] else s.buffers[b := s.buffers[b].(flag := 0, length := 0)],
      s.requests + [Request(b, None, Sent, Pending)], Some(b), Checking(|s.requests|), s.timeouts)
  }

  function Conclude(s: State, q: nat, outcome: Outcome): State
    requires q < |s.requests|
  {
    s.(requests := s.requests[q := s.requests[q].(outcome := outcome)], worker := Idle)
  }

  function WorkerStep(s: State, e: Event): State {
    match e
    case Call => if s.worker.Idle? then Called(s) else s
    case Check =>
      if s.worker.Checking? && s.worker.request < |s.requests| && s.requests[s.worker.request].buffer < |s.buffers| then
        var b := s.buffers[s.requests[s.worker.request].buffer];
        if b.flag != 0 && b.length <= |b.bytes|
        then Conclude(s, s.worker.request, Returned(Reply(b.flag == 2, b.bytes[..b.length])))
        else s
      else s
    case Sleep =>
      if s.worker.Checking? && s.worker.request < |s.requests| && s.requests[s.worker.request].buffer < |s.buffers|
         && s.buffers[s.requests[s.worker.request].buffer].flag == 0
      then s.(worker := Sleeping(s.worker.request)) else s
    case TimeOut =>
      if !s.worker.Idle? && s.worker.request < |s.requests|
      then Conclude(s, s.worker.request, TimedOut).(responseBuffer := None, timeouts := s.timeouts + 1) else s
    case _ => s
  }

  function Write(s: State, q: nat, request: Request, buffer: Buffer): State
    requires q < |s.requests| && s.requests[q].buffer < |s.buffers|
  {
    s.(requests := s.requests[q := request], buffers := s.buffers[s.requests[q].buffer := buffer])
  }

  function HostStep(s: State, e: Event): State {
    if e.Call? || e.Check? || e.Sleep? || e.TimeOut? || e.request >= |s.requests| || s.requests[e.request].buffer >= |s.buffers| then s
    else
      var q := s.requests[e.request];
      var b := s.buffers[q.buffer];
      match e
      case Copy(k, reply) =>
        if q.phase.Sent?
        then Write(s, k, q.(phase := Copied, reply := Some(reply)), b.(bytes := Overwrite(b.bytes, Stored(reply).bytes))) else s
      case Measure(k) =>
        if q.phase.Copied? && q.reply.Some? then Write(s, k, q.(phase := Measured), b.(length := |Stored(q.reply.value).bytes|)) else s
      case Flag(k) =>
        if q.phase.Measured? && q.reply.Some?
        then Write(s, k, q.(phase := Flagged), b.(flag := if Stored(q.reply.value).binary then 2 else 1)) else s
      case Notify(k) =>
        if q.phase.Flagged?
        then Write(s, k, q.(phase := Notified), b).(
               worker := if s.worker.Sleeping? && s.worker.request < |s.requests| && s.requests[s.worker.request].buffer == q.buffer
                         then Checking(s.worker.request) else s.worker)
        else s
      case _ => s
  }

  function Step(s: State, e: Event): State {
    if e.Call? || e.Check? || e.Sleep? || e.TimeOut? then WorkerStep(s, e) else HostStep(s, e)
  }

  function Run(events: seq<Event>): State {
    if events == [] then INIT else Step(Run(events[..|events| - 1]), events[|events| - 1])
  }

  // ----- what every step keeps -----

  predicate Waits(s: State, q: nat) {
    !s.worker.Idle? && s.worker.request == q
  }

  predicate Replied(q: Request) {
    q.phase.Flagged? || q.phase.Notified?
  }

  /** Everything but the call in progress is over, and the buffer kept for reuse carries no reply that is still to come. */
  predicate SoundRequest(s: State, k: nat)
    requires k < |s.requests|
  {
    var q := s.requests[k];
    && q.buffer < |s.buffers|
    && (q.phase.Sent? <==> q.reply.None?)
    && (q.outcome.Pending? <==> Waits(s, k))
    && (q.outcome.Returned? ==> Replied(q) && q.outcome.reply == Stored(q.reply.value))
    && (s.responseBuffer == Some(q.buffer) && !Waits(s, k) ==> q.outcome.Returned?)
  }

  /** The buffer holds as much of the reply as the host has written. */
  predicate Holds(q: Request, b: Buffer) {
    && |b.bytes| == CAPACITY
    && (b.flag != 0 <==> Replied(q))
    && (!q.phase.Sent? && q.reply.Some? ==>
          var stored := Stored(q.reply.value);
          && b.bytes[..|stored.bytes|] == stored.bytes
          && (!q.phase.Copied? ==> b.length == |stored.bytes|)
          && (Replied(q) ==> b.flag == if stored.binary then 2 else 1))
  }

  predicate SoundWorker(s: State) {
    && (s.responseBuffer.Some? ==> s.responseBuffer.value < |s.buffers|)
    && (!s.worker.Idle? ==>
          && s.worker.request < |s.requests|
          && s.requests[s.worker.request].buffer < |s.buffers|
          && s.responseBuffer == Some(s.requests[s.worker.request].buffer)
          && Holds(s.requests[s.worker.request], s.buffers[s.requests[s.worker.request].buffer]))
    && (s.worker.Sleeping? ==>
          s.buffers[s.requests[s.worker.request].buffer].flag == 0 || s.requests[s.worker.request].phase.Flagged?)
    && |s.buffers| == s.timeouts + if s.responseBuffer.Some? then 1 else 0
  }

  ghost predicate Inv(s: State) {
    && (forall b | 0 <= b < |s.buffers| :: |s.buffers[b].bytes| == CAPACITY)
    && (forall q: nat | q < |s.requests| :: SoundRequest(s, q))
    && SoundWorker(s)
  }

  lemma CallKeeps(s: State)
    requires Inv(s)
    ensures Inv(WorkerStep(s, Call))
  {
    var t := WorkerStep(s, Call);
    if s.worker.Idle? {
      forall q: nat | q < |t.requests| ensures SoundRequest(t, q) {
        if q < |s.requests| { assert SoundRequest(s, q); }
      }
    }
  }

  lemma WorkerKeeps(s: State, e: Event)
    requires Inv(s)
    ensures Inv(WorkerStep(s, e))
  {
    if e.Call? {
      CallKeeps(s);
    } else {
      var t := WorkerStep(s, e);
      forall q: nat | q < |t.requests| ensures SoundRequest(t, q) {
        assert SoundRequest(s, q);
      }
    }
  }

  lemma CopyHolds(b: Buffer, bytes: seq<Byte>)
    requires |b.bytes| == CAPACITY && |bytes| <= CAPACITY
    ensures |Overwrite(b.bytes, bytes)| == CAPACITY && Overwrite(b.bytes, bytes)[..|bytes|] == bytes
  {
  }

  lemma HostKeeps(s: State, e: Event)
    requires Inv(s)
    ensures Inv(HostStep(s, e))
  {
    var t := HostStep(s, e);
    if t != s {
      var k := e.request;
      assert SoundRequest(s, k);
      if e.Copy? { CopyHolds(s.buffers[s.requests[k].buffer], Stored(e.reply).bytes); }
      forall q: nat | q < |t.requests| ensures SoundRequest(t, q) {
        assert SoundRequest(s, q);
      }
    }
  }

  lemma {:induction false} RunsKeep(events: seq<Event>)
    ensures Inv(Run(events))
  {
    if events != [] {
      RunsKeep(events[..|events| - 1]);
      WorkerKeeps(Run(events[..|events| - 1]), events[|events| - 1]);
      HostKeeps(Run(events[..|events| - 1]), events[|events| - 1]);
    }
  }

  // ----- main results -----

  /** What the host replied to a request, by the events alone but for when the request was posted. */
  function ReplyTo(events: seq<Event>, q: nat): Option<Reply> {
    if events == [] then None
    else
      var front, e := events[..|events| - 1], events[|events| - 1];
      if ReplyTo(front, q).Some? then ReplyTo(front, q)
      else if e.Copy? && e.request == q && q < |Run(front).requests| then Some(e.reply)
      else None
  }

  lemma StepRecords(s: State, e: Event, q: nat)
    requires Inv(s)
    ensures |s.requests| <= |Step(s, e).requests|
    ensures q < |Step(s, e).requests| ==>
      Step(s, e).requests[q].reply ==
        if q >= |s.requests| then None
        else if s.requests[q].reply.Some? then s.requests[q].reply
        else if e.Copy? && e.request == q then Some(e.reply)
        else None
  {
    if q < |s.requests| { assert SoundRequest(s, q); }
  }

  lemma {:induction false} RepliesAreRecorded(events: seq<Event>, q: nat)
    ensures ReplyTo(events, q) == if q < |Run(events).requests| then Run(events).requests[q].reply else None
  {
    if events != [] {
      RepliesAreRecorded(events[..|events| - 1], q);
      RunsKeep(events[..|events| - 1]);
      StepRecords(Run(events[..|events| - 1]), events[|events| - 1], q);
    }
  }

  /**
    Whatever calls, replies, timeouts and stale notifications came before, the
    value a call returns is the host's reply to that same request, or the error
    that stands for a reply too long for the buffer.
  */
  lemma RepliesMatch(events: seq<Event>, q: nat)
    requires q < |Run(events).requests| && Run(events).requests[q].outcome.Returned?
    ensures ReplyTo(events, q).Some? && Run(events).requests[q].outcome.reply == Stored(ReplyTo(events, q).value)
  {
    RunsKeep(events);
    RepliesAreRecorded(events, q);
    assert SoundRequest(Run(events), q);
  }

  /** A call is posted on a clean buffer, the one kept for reuse if there is one, and is checked. */
  lemma CallsStartClean(events: seq<Event>)
    requires Run(events).worker.Idle?
    ensures var s := Run(events);
      var t := Step(s, Call);
      var b := if s.responseBuffer.Some? then s.responseBuffer.value else |s.buffers|;
      && t.worker == Checking(|s.requests|) && t.responseBuffer == Some(b) && t.timeouts == s.timeouts
      && t.requests == s.requests + [Request(b, None, Sent, Pending)]
      && b < |t.buffers| && t.buffers[b].flag == 0 && t.buffers[b].length == 0
      && |t.buffers| == (if s.responseBuffer.Some? then |s.buffers| else |s.buffers| + 1)
      && (forall k | 0 <= k < |s.buffers| && k != b :: t.buffers[k] == s.buffers[k])
  {
    RunsKeep(events);
  }

  /** A timeout ends the call and gives its buffer up, for the host may still write to it. */
  lemma TimeoutsGiveUp(events: seq<Event>, q: nat)
    requires Waits(Run(events), q)
    ensures var s := Run(events);
      && q < |s.requests|
      && Step(s, TimeOut) == s.(requests := s.requests[q := s.requests[q].(outcome := TimedOut)], worker := Idle,
                                responseBuffer := None, timeouts := s.timeouts + 1)
  {
    RunsKeep(events);
  }

  /** The worker goes to sleep only while the flag is clear. */
  lemma SleepsWhileClear(events: seq<Event>, q: nat)
    requires Run(events).worker == Checking(q)
    ensures var s := Run(events);
      && q < |s.requests| && s.requests[q].buffer < |s.buffers|
      && Step(s, Sleep) == if Replied(s.requests[q]) then s else s.(worker := Sleeping(q))
  {
    RunsKeep(events);
    assert SoundRequest(Run(events), q);
  }

  /** A reply to the call in progress, in its four steps, and a check: the call returns it, whether the worker slept meanwhile or not. */
  lemma RepliedCallsReturn(events: seq<Event>, q: nat, reply: Reply)
    requires Waits(Run(events), q) && q < |Run(events).requests| && Run(events).requests[q].phase.Sent?
    ensures var s1 := Step(Run(events), Copy(q, reply));
      var s4 := Step(Step(Step(s1, Measure(q)), Flag(q)), Notify(q));
      var t := Step(s4, Check);
      q < |t.requests| && t.requests[q].outcome == Returned(Stored(reply)) && t.worker.Idle?
  {
    RunsKeep(events);
    var s := Run(events);
    assert SoundRequest(s, q);
    var s1 := Step(s, Copy(q, reply));
    HostKeeps(s, Copy(q, reply));
    HostMovesOn(s, Copy(q, reply), q);
    var s2 := Step(s1, Measure(q));
    HostKeeps(s1, Measure(q));
    HostMovesOn(s1, Measure(q), q);
    var s3 := Step(s2, Flag(q));
    HostKeeps(s2, Flag(q));
    HostMovesOn(s2, Flag(q), q);
    var s4 := Step(s3, Notify(q));
    HostKeeps(s3, Notify(q));
    HostMovesOn(s3, Notify(q), q);
    WorkerKeeps(s4, Check);
    assert SoundRequest(Step(s4, Check), q);
  }

  /** One of the host's steps for the call in progress, in its turn. */
  lemma HostMovesOn(s: State, e: Event, q: nat)
    requires Inv(s) && Waits(s, q) && q < |s.requests|
    requires match e
      case Copy(k, _) => k == q && s.requests[q].phase.Sent?
      case Measure(k) => k == q && s.requests[q].phase.Copied?
      case Flag(k) => k == q && s.requests[q].phase.Measured?
      case Notify(k) => k == q && s.requests[q].phase.Flagged?
      case _ => false
    ensures var t := Step(s, e);
      && Waits(t, q) && q < |t.requests|
      && t.requests[q].reply == (if e.Copy? then Some(e.reply) else s.requests[q].reply)
      && t.requests[q].phase == (match e case Copy(_, _) => Copied case Measure(_) => Measured case Flag(_) => Flagged case _ => Notified)
      && (e.Notify? ==> t.worker == Checking(q))
  {
    assert SoundRequest(s, q);
  }

  /** A call takes over a buffer only when every earlier call on it returned its reply: no host still writes to it. */
  lemma ReusedOnlyWhenConsumed(events: seq<Event>, q: nat)
    requires q < |Run(events).requests| && Run(events).worker.Idle?
    ensures var s := Run(events);
      var t := Step(s, Call);
      && |t.requests| == |s.requests| + 1
      && (t.requests[|s.requests|].buffer == s.requests[q].buffer ==>
            s.requests[q].outcome.Returned? && Replied(s.requests[q]))
  {
    RunsKeep(events);
    assert SoundRequest(Run(events), q);
  }

  /** One buffer serves any number of calls; only a timeout gives one up. */
  lemma BuffersAreTimeouts(events: seq<Event>)
    ensures |Run(events).buffers| <= Run(events).timeouts + 1
  {
    RunsKeep(events);
  }

  /** A reply that was stored wakes the worker: it is awake, or the notification is still to come and wakes it. */
  lemma RepliesWake(events: seq<Event>, q: nat)
    requires Waits(Run(events), q) && q < |Run(events).requests| && Replied(Run(events).requests[q])
    ensures var s := Run(events);
      s.worker == Checking(q) || Step(s, Notify(q)).worker == Checking(q)
  {
    RunsKeep(events);
  }

  /** Once it is awake, a stored reply is returned. */
  lemma StoredRepliesReturn(events: seq<Event>, q: nat)
    requires Run(events).worker == Checking(q) && q < |Run(events).requests| && Replied(Run(events).requests[q])
    ensures var s := Run(events);
      |Step(s, Check).requests| == |s.requests| && Step(s, Check).requests[q].outcome.Returned?
  {
    RunsKeep(events);
    assert SoundRequest(Run(events), q);
  }

  /** A notification for an older reply ends no call: while the flag is clear, checking it changes nothing. */
  lemma StaleWakesAreHarmless(events: seq<Event>, q: nat)
    requires Waits(Run(events), q) && q < |Run(events).requests| && !Replied(Run(events).requests[q])
    ensures Step(Run(events), Check) == Run(events)
  {
    RunsKeep(events);
    assert SoundRequest(Run(events), q);
  }

  /** A notification wakes a worker that sleeps on its buffer, and no other. */
  lemma WakesItsOwn(events: seq<Event>, q: nat, k: nat)
    requires k < |Run(events).requests| && Run(events).requests[k].phase.Flagged? && Run(events).worker == Sleeping(q)
    ensures q < |Run(events).requests|
    ensures Step(Run(events), Notify(k)).worker ==
            if Run(events).requests[q].buffer == Run(events).requests[k].buffer then Checking(q) else Sleeping(q)
  {
    RunsKeep(events);
    assert SoundRequest(Run(events), k);
  }

  // ----- the shared buffer -----

  /** `TypedArray.set` at the start of a payload. */
  method Set(payload: array<Byte>, bytes: seq<Byte>)
    requires |bytes| <= payload.Length
    modifies payload
    ensures payload[..] == Overwrite(old(payload[..]), bytes)
  {
    for i := 0 to |bytes|
      invariant forall k | 0 <= k < i :: payload[k] == bytes[k]
      invariant forall k | i <= k < payload.Length :: payload[k] == old(payload[k])
    {
      payload[i] := bytes[i];
    }
  }

  /** One shared buffer: control words and a fixed payload, written in place. */
  class ResponseBuffer {
    var flag: int
    var length: nat
    const payload: array<Byte>

    ghost predicate Valid()
      reads this
    {
      payload.Length == CAPACITY && length <= CAPACITY
    }

    constructor ()
      ensures Valid() && flag == 0 && length == 0 && fresh(payload)
    {
      flag, length := 0, 0;
      payload := new Byte[CAPACITY](_ => 0);
    }

    method Clear()
      requires Valid()
      modifies this
      ensures Valid() && flag == 0 && length == 0
    {
      flag, length := 0, 0;
    }

    /** `respondToHostFileSystem`. */
    method Respond(reply: Reply)
      requires Valid()
      modifies this, payload
      ensures Valid()
      ensures var stored := Stored(reply);
        && flag == (if stored.binary then 2 else 1)
        && length == |stored.bytes|
        && payload[..] == Overwrite(old(payload[..]), stored.bytes)
    {
      var binary, bytes := reply.binary, reply.bytes;
      if |bytes| > payload.Length {
        binary, bytes := false, OVERSIZED;
      }
      Set(payload, bytes);
      length := |bytes|;
      flag := if binary then 2 else 1;
    }

    /** The end of a call: nothing while the flag is clear, else a copy of the reply. */
    method Consume() returns (reply: Option<Reply>)
      requires Valid()
      ensures reply == if flag == 0 then None else Some(Reply(flag == 2, payload[..length]))
    {
      if flag == 0 { return None; }
      reply := Some(Reply(flag == 2, payload[..length]));
    }

    /** One exchange over a used buffer: what is consumed is the reply that was stored, whatever was there before. */
    method Exchange(reply: Reply) returns (received: Option<Reply>)
      requires Valid()
      modifies this, payload
      ensures Valid() && received == Some(Stored(reply))
    {
      Clear();
      Respond(reply);
      received := Consume();
    }
  }
}
