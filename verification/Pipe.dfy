/**
  The byte-bounded pipe of rust/src/stream.rs as a machine of atomic steps.

  Every access to an atomic, to the waiter queue or to the channel is one step
  of one thread; purely local work is folded into the access next to it. The
  threads are the reader, any number of writers (the owner and its taps) and
  any number of closers, and they interleave in every order.
*/
module Pipe {
  import opened Bytes

  const MAX_PIPE_CHUNK_BYTES: nat := 64 * 1024

  datatype Message = Data(from: nat, bytes: seq<Byte>) | Close

  datatype Thread = ReaderThread | WriterThread(index: nat) | CloserThread(index: nat)

  /** A `WriterWaiter`: `registered` says that its `AtomicWaker` holds a waker. */
  datatype Waiter = Waiter(queued: bool, registered: bool)

  /** How far one call of `wake_writers` has come. `left` is what remains of its `len()` budget. */
  datatype Drain =
    | Owed
    | Scan(left: nat)
    | Unqueue(writer: nat, left: nat)
    | Wake(writer: nat, left: nat)

  /** The waiters of all writers, the queue of those to wake, and the drains under way. */
  datatype Hub = Hub(queue: seq<nat>, waiters: seq<Waiter>, drains: map<Thread, Drain>)

  datatype Operation = Write(bytes: seq<Byte>) | Readiness

  /** The next atomic access of a writer. */
  datatype WriterPc =
    | Rest
    | Parked
    | Dropped
    | LoadClosed
    | LoadBuffered
    | Register
    | SwapQueued
    | PushWaiter
    | RecheckClosed
    | RecheckBuffered
    | Reserve(available: int)
    | Exchange(seen: int, size: int)
    | ConfirmOpen(size: int)
    | SendData(size: int)
    | Release(size: int)
    | SendClose
    | WriterDraining

  /** A write that was answered with `Ok`: its argument, and the count it was told. */
  datatype Answer = Answer(argument: seq<Byte>, count: int)

  datatype Writer = Writer(active: bool, owns: bool, op: Operation, answers: seq<Answer>, pc: WriterPc)

  datatype ReaderPc =
    | ReaderRest
    | Reading(room: nat)
    | ReadDraining(room: nat)
    | Probing
    | StoreClosed
    | DropDraining
    | ReaderGone

  datatype Reader = Reader(pending: Option<seq<Byte>>, offset: nat, eof: bool, pc: ReaderPc)

  datatype CloserPc = CloserRest | CloserSendClose | CloserDraining | CloserGone

  /**
    `sent` is everything ever put on the channel and `taken` how much of it the
    reader has received, so the channel holds `sent[taken..]`. `delivered` is
    every byte the reader has handed to its callers.
  */
  datatype State = State(
    capacity: nat, buffered: int, closed: bool, receiving: bool, hub: Hub,
    sent: seq<Message>, taken: nat, delivered: seq<Byte>,
    reader: Reader, writers: seq<Writer>, closers: seq<CloserPc>)

  datatype WriterCommand = Go(lucky: bool) | Poll(op: Operation) | Shutdown | DropWriter | Tap
  datatype ReaderCommand = GoReader | PollRead(room: nat) | PollReady | DropReader
  datatype CloserCommand = GoCloser | CallClose | CloneCloser | DropCloser

  datatype Action =
    | WriterAct(index: nat, writerCommand: WriterCommand)
    | ReaderAct(readerCommand: ReaderCommand)
    | CloserAct(closer: nat, closerCommand: CloserCommand)

  function NewWriter(active: bool, owns: bool): Writer {
    Writer(active, owns, Readiness, [], Rest)
  }

  function Init(capacity: nat): State {
    State(Max(capacity, 1), 0, false, true, Hub([], [Waiter(false, false)], map[]), [], 0, [],
          Reader(None, 0, false, ReaderRest), [NewWriter(true, true)], [CloserRest])
  }

  // ----- wake_writers -----

  /** One atomic access of the drain run by `t`. */
  function DrainStep(h: Hub, t: Thread): Hub {
    if t !in h.drains then h else
    match h.drains[t]
    case Owed => h.(drains := h.drains[t := Scan(|h.queue|)])
    case Scan(left) =>
      if left == 0 then h
      else if h.queue == [] then h.(drains := h.drains[t := Scan(left - 1)])
      else h.(queue := h.queue[1..], drains := h.drains[t := Unqueue(h.queue[0], left - 1)])
    case Unqueue(x, left) => SetQueued(h, x, false).(drains := h.drains[t := Wake(x, left)])
    case Wake(x, left) => SetRegistered(h, x, false).(drains := h.drains[t := Scan(left)])
  }

  predicate DrainDone(h: Hub, t: Thread) {
    t in h.drains && h.drains[t] == Scan(0)
  }

  /** `t` has made a change that obliges it to call `wake_writers`. */
  function Owe(h: Hub, t: Thread): Hub {
    h.(drains := h.drains[t := Owed])
  }

  function EndDrain(h: Hub, t: Thread): Hub {
    h.(drains := h.drains - {t})
  }

  function SetQueued(h: Hub, i: nat, queued: bool): Hub {
    if i < |h.waiters| then h.(waiters := h.waiters[i := h.waiters[i].(queued := queued)]) else h
  }

  function SetRegistered(h: Hub, i: nat, registered: bool): Hub {
    if i < |h.waiters| then h.(waiters := h.waiters[i := h.waiters[i].(registered := registered)]) else h
  }

  predicate Flagged(h: Hub, i: nat) {
    i < |h.waiters| && h.waiters[i].queued
  }

  // ----- PipeWriter -----

  /** `poll_capacity` has found room: a readiness poll ends there, a write goes on to reserve. */
  function Granted(s: State, w: Writer): WriterPc {
    if w.op.Readiness? then Rest else Reserve(s.capacity - s.buffered)
  }

  /** The compare-and-exchange to try for what is to be written. */
  function Sized(s: State, w: Writer, available: int): WriterPc {
    if w.op.Readiness? then LoadClosed
    else Exchange(s.buffered, Min(Min(Min(|w.op.bytes|, available), MAX_PIPE_CHUNK_BYTES), s.capacity - s.buffered))
  }

  /** The first `size` bytes of the write in progress. */
  function Chunk(w: Writer, size: int): seq<Byte> {
    if w.op.Write? && 0 <= size <= |w.op.bytes| then w.op.bytes[..size] else []
  }

  predicate Exchanges(s: State, w: Writer, lucky: bool) {
    w.pc.Exchange? && lucky && s.buffered == w.pc.seen
  }

  /** The program of a writer: which access follows the one it is at. */
  function NextPc(s: State, i: nat, lucky: bool): WriterPc
    requires i < |s.writers|
  {
    var w := s.writers[i];
    match w.pc
    case Rest => Rest
    case Parked => Parked
    case Dropped => Dropped
    case LoadClosed => if s.closed then Rest else LoadBuffered
    case LoadBuffered => if s.buffered < s.capacity then Granted(s, w) else Register
    case Register => SwapQueued
    case SwapQueued => if Flagged(s.hub, i) then RecheckClosed else PushWaiter
    case PushWaiter => RecheckClosed
    case RecheckClosed => if s.closed then Rest else RecheckBuffered
    case RecheckBuffered => if s.buffered < s.capacity then Granted(s, w) else Parked
    case Reserve(available) => if s.buffered >= s.capacity then LoadClosed else Sized(s, w, available)
    case Exchange(seen, size) => if Exchanges(s, w, lucky) then ConfirmOpen(size) else LoadClosed
    case ConfirmOpen(size) => if s.closed then Release(size) else SendData(size)
    case SendData(size) => if s.receiving then Rest else Release(size)
    case Release(size) => Rest
    case SendClose => WriterDraining
    case WriterDraining => if DrainDone(s.hub, WriterThread(i)) then Rest else WriterDraining
  }

  /** Its accesses to its waiter, to the queue and to the waiters it wakes. */
  function HubAfter(s: State, i: nat): Hub
    requires i < |s.writers|
  {
    match s.writers[i].pc
    case Register => SetRegistered(s.hub, i, true)
    case SwapQueued => SetQueued(s.hub, i, true)
    case PushWaiter => s.hub.(queue := s.hub.queue + [i])
    case WriterDraining =>
      if DrainDone(s.hub, WriterThread(i)) then EndDrain(s.hub, WriterThread(i)) else DrainStep(s.hub, WriterThread(i))
    case _ => s.hub
  }

  /** Its accesses to the byte counter. */
  function BufferedAfter(s: State, w: Writer, lucky: bool): int {
    match w.pc
    case Exchange(seen, size) => if Exchanges(s, w, lucky) then seen + size else s.buffered
    case Release(size) => s.buffered - size
    case _ => s.buffered
  }

  /** What it puts on the channel; a closed receiver takes nothing. */
  function Sends(s: State, i: nat): seq<Message>
    requires i < |s.writers|
  {
    if !s.receiving then []
    else if s.writers[i].pc.SendData? then [Data(i, Chunk(s.writers[i], s.writers[i].pc.size))]
    else if s.writers[i].pc.SendClose? then [Close]
    else []
  }

  /** Its own fields: the answers it gave, and `active`, which `close` clears last. */
  function WriterAfter(s: State, i: nat, lucky: bool): Writer
    requires i < |s.writers|
  {
    var w := s.writers[i];
    var pc := NextPc(s, i, lucky);
    Writer(w.active && !(w.pc.WriterDraining? && pc.Rest?), w.owns, w.op,
           if w.pc.SendData? && s.receiving && w.op.Write? then w.answers + [Answer(w.op.bytes, w.pc.size)] else w.answers, pc)
  }

  /** The next atomic access of writer `i`; `lucky` lets a weak compare-and-exchange fail for no reason. */
  function WriterGo(s: State, i: nat, lucky: bool): State
    requires i < |s.writers|
  {
    s.(buffered := BufferedAfter(s, s.writers[i], lucky), hub := HubAfter(s, i), sent := s.sent + Sends(s, i),
       writers := s.writers[i := WriterAfter(s, i, lucky)])
  }

  function SetPc(s: State, i: nat, pc: WriterPc): State
    requires i < |s.writers|
  {
    s.(writers := s.writers[i := s.writers[i].(pc := pc)])
  }

  /** `close` sets `closed` only through an active writer that owns the pipe's lifetime, and only once. */
  predicate Closes(s: State, w: Writer, command: WriterCommand) {
    command.Shutdown? && w.active && w.owns && !s.closed
  }

  function CalledWriter(s: State, w: Writer, command: WriterCommand): Writer {
    match command
    case Poll(op) => if op == Write([]) || !w.active then w.(pc := Rest) else w.(op := op, pc := LoadClosed)
    case Shutdown => if Closes(s, w, command) then w.(pc := SendClose) else w.(active := false, pc := Rest)
    case DropWriter => if w.active then w else w.(pc := Dropped)
    case Go(_) => w
    case Tap => w
  }

  /** Calls made on a writer between its polls. Dropping an active writer is `Shutdown` followed by `DropWriter`. */
  function WriterCall(s: State, i: nat, command: WriterCommand): State
    requires i < |s.writers|
  {
    var w := s.writers[i];
    if !(w.pc.Rest? || w.pc.Parked?) then s
    else if command.Tap? then
      s.(writers := s.writers + [NewWriter(w.active, false)],
         hub := s.hub.(waiters := s.hub.waiters + [Waiter(false, false)]))
    else
      s.(writers := s.writers[i := CalledWriter(s, w, command)],
         closed := s.closed || Closes(s, w, command),
         hub := if Closes(s, w, command) then Owe(s.hub, WriterThread(i)) else s.hub)
  }

  // ----- PipeReader -----

  predicate NoSenders(s: State) {
    && (forall i | 0 <= i < |s.writers| :: s.writers[i].pc.Dropped?)
    && (forall i | 0 <= i < |s.closers| :: s.closers[i].CloserGone?)
  }

  /** The bytes of the pending chunk that a read with `room` hands out. */
  function Handed(r: Reader, room: nat): seq<Byte> {
    if r.pending.Some? && r.offset <= |r.pending.value|
    then r.pending.value[r.offset..r.offset + Min(|r.pending.value| - r.offset, room)]
    else []
  }

  /** What this access hands to the caller and gives back to the writers. */
  function Reads(r: Reader): seq<Byte> {
    if r.pc.Reading? then Handed(r, r.pc.room) else []
  }

  predicate Receives(r: Reader) {
    r.pc.Probing? || (r.pc.Reading? && r.pending.None?)
  }

  /** `poll_recv`, and what the two polls do with its answer. */
  function Received(s: State): Reader {
    var r := s.reader;
    if s.taken < |s.sent| then
      match s.sent[s.taken]
      case Data(_, bytes) =>
        if r.pc.Probing? && bytes == [] then r
        else if r.pc.Probing? then r.(pending := Some(bytes), offset := 0, pc := ReaderRest)
        else r.(pending := Some(bytes))
      case Close => r.(eof := true, pc := ReaderRest)
    else if NoSenders(s) then r.(eof := true, pc := ReaderRest)
    else r.(pc := ReaderRest)
  }

  /** After the drain of a read: keep what is left of the chunk, and read on while there is room. */
  function Settled(r: Reader, room: nat): Reader {
    var pc := if room == 0 then ReaderRest else Reading(room);
    if r.pending.Some? && r.offset < |r.pending.value| then r.(pc := pc)
    else r.(pending := None, offset := 0, pc := pc)
  }

  function NextReader(s: State): Reader {
    var r := s.reader;
    match r.pc
    case ReaderRest => r
    case Reading(room) =>
      if Receives(r) then Received(s)
      else
        var read := |Reads(r)|;
        r.(offset := r.offset + read, pc := ReadDraining(Max(room - read, 0)))
    case ReadDraining(room) =>
      if DrainDone(s.hub, ReaderThread) then Settled(r, room) else r
    case Probing => Received(s)
    case StoreClosed => r.(pc := DropDraining)
    case DropDraining => if DrainDone(s.hub, ReaderThread) then r.(pc := ReaderGone) else r
    case ReaderGone => r
  }

  function ReaderHubAfter(s: State): Hub {
    match s.reader.pc
    case Reading(_) => if Receives(s.reader) then s.hub else Owe(s.hub, ReaderThread)
    case ReadDraining(_) =>
      if DrainDone(s.hub, ReaderThread) then EndDrain(s.hub, ReaderThread) else DrainStep(s.hub, ReaderThread)
    case DropDraining =>
      if DrainDone(s.hub, ReaderThread) then EndDrain(s.hub, ReaderThread) else DrainStep(s.hub, ReaderThread)
    case _ => s.hub
  }

  function ReaderGo(s: State): State {
    s.(delivered := s.delivered + Reads(s.reader),
       buffered := s.buffered - |Reads(s.reader)|,
       taken := if Receives(s.reader) && s.taken < |s.sent| then s.taken + 1 else s.taken,
       closed := s.closed || s.reader.pc.StoreClosed?,
       hub := ReaderHubAfter(s),
       reader := NextReader(s))
  }

  function CalledReader(r: Reader, command: ReaderCommand): Reader {
    match command
    case GoReader => r
    case PollRead(room) => if room == 0 || r.eof then r else r.(pc := Reading(room))
    case PollReady => if r.pending.Some? || r.eof then r else r.(pc := Probing)
    case DropReader => r.(pc := StoreClosed)
  }

  /** Calls made on the reader between its polls; dropping it begins by closing the channel. */
  function ReaderCall(s: State, command: ReaderCommand): State {
    if !s.reader.pc.ReaderRest? then s
    else
      s.(reader := CalledReader(s.reader, command),
         receiving := s.receiving && !command.DropReader?,
         hub := if command.DropReader? then Owe(s.hub, ReaderThread) else s.hub)
  }

  // ----- PipeCloser -----

  function CloserGo(s: State, i: nat): State
    requires i < |s.closers|
  {
    match s.closers[i]
    case CloserRest => s
    case CloserSendClose =>
      s.(closers := s.closers[i := CloserDraining], sent := if s.receiving then s.sent + [Close] else s.sent)
    case CloserDraining =>
      if DrainDone(s.hub, CloserThread(i)) then
        s.(closers := s.closers[i := CloserRest], hub := EndDrain(s.hub, CloserThread(i)))
      else s.(hub := DrainStep(s.hub, CloserThread(i)))
    case CloserGone => s
  }

  function CloserCall(s: State, i: nat, command: CloserCommand): State
    requires i < |s.closers|
  {
    if !s.closers[i].CloserRest? then s else
    match command
    case GoCloser => s
    case CallClose =>
      if s.closed then s
      else s.(closed := true, closers := s.closers[i := CloserSendClose], hub := Owe(s.hub, CloserThread(i)))
    case CloneCloser => s.(closers := s.closers + [CloserRest])
    case DropCloser => s.(closers := s.closers[i := CloserGone])
  }

  // ----- runs -----

  /** One step; an action that is not enabled changes nothing. */
  function Step(s: State, a: Action): State {
    match a
    case WriterAct(i, command) =>
      if i >= |s.writers| then s
      else if command.Go? then WriterGo(s, i, command.lucky) else WriterCall(s, i, command)
    case ReaderAct(command) => if command.GoReader? then ReaderGo(s) else ReaderCall(s, command)
    case CloserAct(i, command) =>
      if i >= |s.closers| then s
      else if command.GoCloser? then CloserGo(s, i) else CloserCall(s, i, command)
  }

  /** The state a schedule of actions leads to. Every reachable state is `Run(capacity, schedule)` for some schedule. */
  function Run(capacity: nat, schedule: seq<Action>): State {
    if schedule == [] then Init(capacity)
    else Step(Run(capacity, schedule[..|schedule| - 1]), schedule[|schedule| - 1])
  }
}
