/**
  Readiness on a WISP bridge: the waker lists of js/bindgen/src/node_network.rs
  on the guest's threads, and the sockets and wake events of
  js/src/wisp-network.ts on the main thread. Each step is one query of a level,
  one acquisition of the handler lock, one critical section, or one turn of the
  main thread; steps interleave freely.
*/
module Readiness {
  import opened Bytes

  const RECEIVE_LIMIT_BYTES := 16 * 1024 * 1024

  datatype Interest = Readable | Writable

  /** The strings passed to `#emitWake`. */
  datatype Event = Data | Room | Ended | Failed

  /** `InterestState`. */
  datatype Entry = Entry(handler: bool, read: seq<nat>, write: seq<nat>)

  type Handlers = map<nat, Entry>

  // ----- the handler map -----

  function Wakers(handlers: Handlers, id: nat, i: Interest): seq<nat> {
    if id !in handlers then [] else if i.Readable? then handlers[id].read else handlers[id].write
  }

  function EntryAt(handlers: Handlers, id: nat): Entry {
    if id in handlers then handlers[id] else Entry(false, [], [])
  }

  function SetWakers(e: Entry, i: Interest, wakers: seq<nat>): Entry {
    if i.Readable? then e.(read := wakers) else e.(write := wakers)
  }

  function Without(wakers: seq<nat>, w: nat): (r: seq<nat>)
    ensures forall v :: v in r <==> v in wakers && v != w
  {
    if wakers == [] then []
    else
      var rest := Without(wakers[..|wakers| - 1], w);
      assert wakers == wakers[..|wakers| - 1] + [wakers[|wakers| - 1]];
      if wakers[|wakers| - 1] == w then rest else rest + [wakers[|wakers| - 1]]
  }

  function RegisterWaker(handlers: Handlers, id: nat, i: Interest, w: nat): Handlers {
    var e := EntryAt(handlers, id);
    var wakers := Wakers(handlers, id, i);
    handlers[id := if w in wakers then e else SetWakers(e, i, wakers + [w])]
  }

  function UnregisterWaker(handlers: Handlers, id: nat, i: Interest, w: nat): Handlers {
    if id !in handlers then handlers
    else
      var e := SetWakers(handlers[id], i, Without(Wakers(handlers, id, i), w));
      if !e.handler && e.read == [] && e.write == [] then handlers - {id} else handlers[id := e]
  }

  function RegisterHandler(handlers: Handlers, id: nat): Handlers {
    handlers[id := EntryAt(handlers, id).(handler := true)]
  }

  function RemoveHandler(handlers: Handlers, id: nat): Handlers {
    if id !in handlers then handlers
    else if handlers[id].read == [] && handlers[id].write == [] then handlers - {id}
    else handlers[id := handlers[id].(handler := false)]
  }

  /** Whether an event takes the wakers of an interest. */
  predicate Takes(event: Event, i: Interest) {
    match event
    case Data => i.Readable?
    case Room => i.Writable?
    case _ => true
  }

  function Taken(handlers: Handlers, id: nat, event: Event): seq<nat> {
    (if Takes(event, Readable) then Wakers(handlers, id, Readable) else []) +
    (if Takes(event, Writable) then Wakers(handlers, id, Writable) else [])
  }

  function AfterTaking(handlers: Handlers, id: nat, event: Event): Handlers {
    if id !in handlers then handlers
    else
      handlers[id := handlers[id].(read := if Takes(event, Readable) then [] else handlers[id].read,
                                   write := if Takes(event, Writable) then [] else handlers[id].write)]
  }

  // ----- the machine -----

  datatype Operation = Register | Unregister | SetHandler | ClearHandler | DropEntry

  /** Where a task is. Between `Wants` and its critical section it may hold the lock. */
  datatype Pc =
    | Asleep
    | Running
    | First(id: nat, i: Interest)
    | Wants(op: Operation, id: nat, i: Interest)
    | Second(id: nat, i: Interest)

  /** A task, and the polls that last answered Pending. */
  datatype Task = Task(pc: Pc, parked: set<(nat, Interest)>)

  datatype Socket = Socket(buffered: nat, ended: bool)

  /**
    `waking`: wakers taken from the map and not yet called; `woken`: tasks whose
    waker was called since they last ran. `owed`: events to be emitted, or to be
    retried by a timer.
  */
  datatype State = State(
    tasks: seq<Task>, woken: set<nat>, waking: multiset<nat>,
    handlers: Handlers, lock: Option<nat>,
    sockets: map<nat, Socket>, nextSocketId: nat, closed: bool, owed: multiset<(nat, Event)>)

  datatype Action =
    | RunTask(w: nat)
    | Poll(w: nat, id: nat, i: Interest)
    | Query(w: nat)
    | HandlerCall(w: nat, op: Operation, id: nat)
    | Acquire(w: nat)
    | Critical(w: nat)
    | Sleep(w: nat)
    | CallWaker(w: nat)
    | Connect
    | Message(id: nat, length: nat)
    | StreamClosed(id: nat)
    | SocketRead(id: nat, maximum: nat)
    | SocketRefresh(id: nat)
    | SocketClose(id: nat)
    | SwitchEndpoint
    | Emit(id: nat, event: Event)
    | CloseBridge

  function Init(tasks: nat): State {
    State(seq(tasks, _ => Task(Asleep, {})), {}, multiset{}, map[], None, map[], 0, false, multiset{})
  }

  /** `socketReadable` and `socketWritable` answer a level, or -1 when there is none. */
  predicate Ready(s: State, id: nat, i: Interest) {
    i.Writable? || id !in s.sockets || s.sockets[id].buffered > 0 || s.sockets[id].ended
  }

  function SetPc(s: State, w: nat, pc: Pc): State
    requires w < |s.tasks|
  {
    s.(tasks := s.tasks[w := s.tasks[w].(pc := pc)])
  }

  /** One query of `poll_ready`; a closed bridge makes it fail, which ends the poll like an answer. */
  function Ask(s: State, w: nat): State
    requires w < |s.tasks|
  {
    match s.tasks[w].pc
    case First(id, i) =>
      SetPc(s, w, if s.closed || Ready(s, id, i) then Wants(Unregister, id, i) else Wants(Register, id, i))
    case Second(id, i) =>
      if s.closed || Ready(s, id, i) then SetPc(s, w, Wants(Unregister, id, i))
      else s.(tasks := s.tasks[w := Task(Running, s.tasks[w].parked + {(id, i)})])
    case _ => s
  }

  function Operate(handlers: Handlers, w: nat, op: Operation, id: nat, i: Interest): Handlers {
    match op
    case Register => RegisterWaker(handlers, id, i, w)
    case Unregister => UnregisterWaker(handlers, id, i, w)
    case SetHandler => RegisterHandler(handlers, id)
    case ClearHandler => RemoveHandler(handlers, id)
    case DropEntry => handlers - {id}
  }

  function Operated(s: State, w: nat): State
    requires w < |s.tasks| && s.tasks[w].pc.Wants?
  {
    var pc := s.tasks[w].pc;
    SetPc(s, w, if pc.op.Register? then Second(pc.id, pc.i) else Running).(
      lock := None, handlers := Operate(s.handlers, w, pc.op, pc.id, pc.i))
  }

  /** What a task does. */
  function TaskStep(s: State, a: Action): State {
    match a
    case RunTask(w) =>
      if w < |s.tasks| && s.tasks[w].pc.Asleep?
      then s.(tasks := s.tasks[w := Task(Running, {})], woken := s.woken - {w}) else s
    case Poll(w, id, i) =>
      if w < |s.tasks| && s.tasks[w].pc.Running? && id < s.nextSocketId
      then s.(tasks := s.tasks[w := Task(First(id, i), s.tasks[w].parked - {(id, i)})]) else s
    case Query(w) => if w < |s.tasks| then Ask(s, w) else s
    case HandlerCall(w, op, id) =>
      if w < |s.tasks| && s.tasks[w].pc.Running? && id < s.nextSocketId
         && (op.SetHandler? || op.ClearHandler? || (op.DropEntry? && id !in s.sockets))
      then SetPc(s, w, Wants(op, id, Readable)) else s
    case Acquire(w) =>
      if w < |s.tasks| && s.tasks[w].pc.Wants? && s.lock.None? then s.(lock := Some(w)) else s
    case Critical(w) =>
      if w < |s.tasks| && s.tasks[w].pc.Wants? && s.lock == Some(w) then Operated(s, w) else s
    case Sleep(w) =>
      if w < |s.tasks| && s.tasks[w].pc.Running? then SetPc(s, w, Asleep) else s
    case _ => s
  }

  /** `#closeSockets`. */
  function EndAll(sockets: map<nat, Socket>): map<nat, Socket> {
    map id | id in sockets :: sockets[id].(ended := true)
  }

  function EndedEvents(sockets: map<nat, Socket>): multiset<(nat, Event)> {
    multiset(set id | id in sockets :: (id, Ended))
  }

  /** One attempt of `#emitWake`. The main thread may not block: when the lock is held, the attempt is repeated later. */
  function Attempt(s: State, id: nat, event: Event): State {
    if (id, event) !in s.owed then s
    else if s.closed then s.(owed := s.owed - multiset{(id, event)})
    else if s.lock.Some? then s
    else s.(owed := s.owed - multiset{(id, event)}, handlers := AfterTaking(s.handlers, id, event),
            waking := s.waking + multiset(Taken(s.handlers, id, event)))
  }

  /** What the main thread does. */
  function BridgeStep(s: State, a: Action): State {
    match a
    case CallWaker(w) => if w in s.waking then s.(waking := s.waking - multiset{w}, woken := s.woken + {w}) else s
    case Connect =>
      if s.closed then s
      else s.(sockets := s.sockets[s.nextSocketId := Socket(0, false)], nextSocketId := s.nextSocketId + 1,
              owed := s.owed + multiset{(s.nextSocketId, Room)})
    case Message(id, n) =>
      if id !in s.sockets || s.sockets[id].ended then s
      else if s.sockets[id].buffered + n > RECEIVE_LIMIT_BYTES then
        s.(sockets := s.sockets[id := s.sockets[id].(ended := true)], owed := s.owed + multiset{(id, Failed)})
      else s.(sockets := s.sockets[id := s.sockets[id].(buffered := s.sockets[id].buffered + n)],
              owed := s.owed + multiset{(id, Data)})
    case StreamClosed(id) =>
      s.(sockets := if id in s.sockets then s.sockets[id := s.sockets[id].(ended := true)] else s.sockets,
         owed := s.owed + multiset{(id, Ended)})
    case SocketRead(id, maximum) =>
      if id !in s.sockets then s
      else s.(sockets := s.sockets[id := s.sockets[id].(buffered := s.sockets[id].buffered - Min(maximum, s.sockets[id].buffered))])
    case SocketRefresh(id) =>
      if id !in s.sockets then s
      else s.(owed := s.owed + (if s.sockets[id].buffered > 0 then multiset{(id, Data)} else multiset{})
                             + multiset{(id, if s.sockets[id].ended then Ended else Room)})
    case SocketClose(id) => s.(sockets := s.sockets - {id})
    case SwitchEndpoint =>
      if s.closed then s
      else s.(sockets := EndAll(s.sockets), owed := s.owed + EndedEvents(s.sockets))
    case Emit(id, event) => Attempt(s, id, event)
    case CloseBridge => if s.closed then s else s.(closed := true, sockets := EndAll(s.sockets))
    case _ => s
  }

  predicate ByTask(a: Action) {
    a.RunTask? || a.Poll? || a.Query? || a.HandlerCall? || a.Acquire? || a.Critical? || a.Sleep?
  }

  function Step(s: State, a: Action): State {
    if ByTask(a) then TaskStep(s, a) else BridgeStep(s, a)
  }

  function Run(tasks: nat, schedule: seq<Action>): State {
    if schedule == [] then Init(tasks)
    else Step(Run(tasks, schedule[..|schedule| - 1]), schedule[|schedule| - 1])
  }

  // ----- what every step keeps -----

  /** The waker of task `w` has been called, or is about to be. */
  predicate Roused(s: State, w: nat) {
    w in s.woken || w in s.waking
  }

  predicate Listed(s: State, w: nat, id: nat, i: Interest) {
    w in Wakers(s.handlers, id, i)
  }

  /** An event that takes these wakers is to be emitted, or retried. */
  predicate Coming(s: State, id: nat, i: Interest) {
    (id, Ended) in s.owed || (id, Failed) in s.owed || (i.Readable? && (id, Data) in s.owed) || (i.Writable? && (id, Room) in s.owed)
  }

  /** The task waits for this level: its poll answered Pending, or has registered and is about to query again. */
  predicate Waits(t: Task, id: nat, i: Interest) {
    (id, i) in t.parked || t.pc == Second(id, i)
  }

  /** A task that waits is listed or roused; one that waits for a level that came is roused or about to be. */
  predicate Covered(s: State, w: nat, id: nat, i: Interest)
    requires w < |s.tasks|
  {
    id in s.sockets && Waits(s.tasks[w], id, i) ==>
      && (Roused(s, w) || Listed(s, w, id, i))
      && ((id, i) in s.tasks[w].parked && Ready(s, id, i) ==> Roused(s, w) || Coming(s, id, i))
  }

  /** The poll a task is making is not one that it counts as pending. */
  predicate SoundTask(s: State, t: Task) {
    && (t.pc.First? || t.pc.Wants? || t.pc.Second? ==> t.pc.id < s.nextSocketId)
    && (t.pc.First? || t.pc.Second? || (t.pc.Wants? && (t.pc.op.Register? || t.pc.op.Unregister?)) ==> (t.pc.id, t.pc.i) !in t.parked)
    && (t.pc.Second? || (t.pc.Wants? && t.pc.op.Register?) ==> t.pc.i.Readable?)
    && (t.pc.Wants? && t.pc.op.DropEntry? ==> t.pc.id !in s.sockets)
    && (forall p | p in t.parked :: p.0 < s.nextSocketId && p.1.Readable?)
  }

  ghost predicate Inv(s: State) {
    && (forall w | 0 <= w < |s.tasks| :: SoundTask(s, s.tasks[w]))
    && (forall id | id in s.sockets :: id < s.nextSocketId)
    && (s.lock.Some? ==> s.lock.value < |s.tasks| && s.tasks[s.lock.value].pc.Wants?)
  }

  ghost predicate AllCovered(s: State) {
    forall w: nat, id: nat, i | w < |s.tasks| :: Covered(s, w, id, i)
  }

  /** Two states that differ in task `w` at most, apart from the lock and the handler map. */
  ghost predicate OnlyTask(s: State, t: State, w: nat) {
    && w < |s.tasks| == |t.tasks|
    && (forall v | 0 <= v < |s.tasks| && v != w :: t.tasks[v] == s.tasks[v])
    && t.sockets == s.sockets && t.nextSocketId == s.nextSocketId && t.closed == s.closed
    && t.owed == s.owed && t.waking == s.waking
  }

  function Actor(a: Action): nat
    requires ByTask(a)
  {
    a.w
  }

  lemma TaskStepIsLocal(s: State, a: Action)
    requires ByTask(a)
    ensures TaskStep(s, a) == s || OnlyTask(s, TaskStep(s, a), Actor(a))
  {
  }

  lemma TaskStepIsSound(s: State, a: Action)
    requires Inv(s) && ByTask(a)
    ensures Inv(TaskStep(s, a))
  {
    var t := TaskStep(s, a);
    TaskStepIsLocal(s, a);
    if t != s {
      assert SoundTask(s, s.tasks[Actor(a)]);
      assert SoundTask(t, t.tasks[Actor(a)]);
      forall v | 0 <= v < |t.tasks| ensures SoundTask(t, t.tasks[v]) {
        if v != Actor(a) { assert SoundTask(s, s.tasks[v]); }
      }
    }
  }

  /** What the main thread leaves alone. */
  ghost predicate OnlyBridge(s: State, t: State) {
    && t.tasks == s.tasks && t.lock == s.lock
    && s.nextSocketId <= t.nextSocketId
    && (forall id | id in t.sockets :: id in s.sockets || (id == s.nextSocketId && id < t.nextSocketId))
  }

  lemma BridgeStepIsLocal(s: State, a: Action)
    requires !ByTask(a)
    ensures OnlyBridge(s, BridgeStep(s, a))
  {
  }

  lemma StepIsSound(s: State, a: Action)
    requires Inv(s)
    ensures Inv(Step(s, a))
  {
    if ByTask(a) {
      TaskStepIsSound(s, a);
    } else {
      BridgeStepIsLocal(s, a);
      var t := BridgeStep(s, a);
      forall v | 0 <= v < |t.tasks| ensures SoundTask(t, t.tasks[v]) {
        assert SoundTask(s, s.tasks[v]);
      }
    }
  }

  lemma OperateKeeps(handlers: Handlers, v: nat, op: Operation, id: nat, i: Interest, w: nat, id': nat, i': Interest)
    requires w in Wakers(handlers, id', i')
    requires op.DropEntry? ==> id != id'
    requires op.Unregister? ==> v != w || id != id' || i != i'
    ensures w in Wakers(Operate(handlers, v, op, id, i), id', i')
  {
  }

  lemma RegisterLists(handlers: Handlers, v: nat, id: nat, i: Interest)
    ensures v in Wakers(RegisterWaker(handlers, id, i, v), id, i)
  {
  }

  lemma CriticalCovers(s: State, v: nat, w: nat, id: nat, i: Interest)
    requires Inv(s) && v < |s.tasks| && w < |s.tasks| && s.tasks[v].pc.Wants? && Covered(s, w, id, i)
    ensures Covered(Operated(s, v), w, id, i)
  {
    var pc := s.tasks[v].pc;
    assert SoundTask(s, s.tasks[v]);
    RegisterLists(s.handlers, v, pc.id, pc.i);
    if id in s.sockets && Waits(s.tasks[w], id, i) && Listed(s, w, id, i) {
      OperateKeeps(s.handlers, v, pc.op, pc.id, pc.i, w, id, i);
    }
  }

  lemma AskCovers(s: State, v: nat, w: nat, id: nat, i: Interest)
    requires v < |s.tasks| && w < |s.tasks| && Covered(s, w, id, i)
    ensures Covered(Ask(s, v), w, id, i)
  {
  }

  lemma TaskStepCovers(s: State, a: Action, w: nat, id: nat, i: Interest)
    requires Inv(s) && ByTask(a) && !s.closed && w < |s.tasks| && Covered(s, w, id, i)
    ensures w < |TaskStep(s, a).tasks| && Covered(TaskStep(s, a), w, id, i)
  {
    if a.Critical? && TaskStep(s, a) != s {
      CriticalCovers(s, a.w, w, id, i);
    } else if a.Query? && a.w < |s.tasks| {
      AskCovers(s, a.w, w, id, i);
    }
  }

  lemma TakenHas(handlers: Handlers, id: nat, event: Event, w: nat, i: Interest)
    requires w in Wakers(handlers, id, i) && Takes(event, i)
    ensures w in multiset(Taken(handlers, id, event))
  {
    assert w in Taken(handlers, id, event);
  }

  lemma TakingKeeps(handlers: Handlers, id: nat, event: Event, id': nat, i': Interest)
    requires id != id' || !Takes(event, i')
    ensures Wakers(AfterTaking(handlers, id, event), id', i') == Wakers(handlers, id', i')
  {
  }

  /** An event that takes other wakers was not the one that is coming for these. */
  lemma StillComing(s: State, t: State, id: nat, event: Event, id': nat, i': Interest)
    requires t.owed == s.owed - multiset{(id, event)}
    requires id != id' || !Takes(event, i')
    requires Coming(s, id', i')
    ensures Coming(t, id', i')
  {
    assert forall e | e != (id, event) :: e in s.owed ==> e in t.owed;
  }

  lemma AttemptCovers(s: State, id: nat, event: Event, w: nat, id': nat, i': Interest)
    requires !s.closed && w < |s.tasks| && Covered(s, w, id', i')
    ensures Covered(Attempt(s, id, event), w, id', i')
  {
    var t := Attempt(s, id, event);
    if t != s && id' in s.sockets && Waits(s.tasks[w], id', i') {
      assert Roused(s, w) ==> Roused(t, w);
      if id == id' && Takes(event, i') {
        if Listed(s, w, id', i') { TakenHas(s.handlers, id, event, w, i'); }
      } else {
        TakingKeeps(s.handlers, id, event, id', i');
        if Coming(s, id', i') { StillComing(s, t, id, event, id', i'); }
      }
    }
  }

  /** Nothing is forgotten, and a level that comes is announced. */
  ghost predicate Announces(s: State, t: State, w: nat, id: nat) {
    && t.tasks == s.tasks && t.handlers == s.handlers
    && (Roused(s, w) ==> Roused(t, w))
    && (Coming(s, id, Readable) ==> Coming(t, id, Readable))
    && (id in t.sockets && id < s.nextSocketId ==>
          id in s.sockets && (Ready(t, id, Readable) ==> Ready(s, id, Readable) || Coming(t, id, Readable)))
  }

  lemma SwitchAnnounces(s: State, w: nat, id: nat)
    ensures Announces(s, BridgeStep(s, SwitchEndpoint), w, id)
  {
    if id in s.sockets {
      assert (id, Ended) in (set k | k in s.sockets :: (k, Ended));
    }
  }

  lemma MessageAnnounces(s: State, id': nat, n: nat, w: nat, id: nat)
    ensures Announces(s, BridgeStep(s, Message(id', n)), w, id)
  {
    assert (id', Data) in s.owed + multiset{(id', Data)};
    assert (id', Failed) in s.owed + multiset{(id', Failed)};
  }

  lemma CloseAnnounces(s: State, id': nat, w: nat, id: nat)
    ensures Announces(s, BridgeStep(s, StreamClosed(id')), w, id)
  {
    assert (id', Ended) in s.owed + multiset{(id', Ended)};
  }

  lemma RefreshAnnounces(s: State, id': nat, w: nat, id: nat)
    ensures Announces(s, BridgeStep(s, SocketRefresh(id')), w, id)
  {
  }

  lemma ConnectAnnounces(s: State, w: nat, id: nat)
    ensures Announces(s, BridgeStep(s, Connect), w, id)
  {
  }

  lemma CallAnnounces(s: State, v: nat, w: nat, id: nat)
    ensures Announces(s, BridgeStep(s, CallWaker(v)), w, id)
  {
  }

  lemma GuestAnnounces(s: State, a: Action, w: nat, id: nat)
    requires a.SocketRead? || a.SocketClose?
    ensures Announces(s, BridgeStep(s, a), w, id)
  {
  }

  lemma BridgeStepAnnounces(s: State, a: Action, w: nat, id: nat)
    requires !ByTask(a) && !a.Emit? && !a.CloseBridge?
    ensures Announces(s, BridgeStep(s, a), w, id)
  {
    match a
    case SwitchEndpoint => SwitchAnnounces(s, w, id);
    case Message(k, n) => MessageAnnounces(s, k, n, w, id);
    case StreamClosed(k) => CloseAnnounces(s, k, w, id);
    case SocketRefresh(k) => RefreshAnnounces(s, k, w, id);
    case Connect => ConnectAnnounces(s, w, id);
    case CallWaker(v) => CallAnnounces(s, v, w, id);
    case _ => GuestAnnounces(s, a, w, id);
  }

  lemma BridgeStepCovers(s: State, a: Action, w: nat, id: nat, i: Interest)
    requires Inv(s) && !ByTask(a) && !s.closed && !BridgeStep(s, a).closed && w < |s.tasks| && Covered(s, w, id, i)
    ensures w < |BridgeStep(s, a).tasks| && Covered(BridgeStep(s, a), w, id, i)
  {
    assert SoundTask(s, s.tasks[w]);
    if a.Emit? {
      AttemptCovers(s, a.id, a.event, w, id, i);
    } else {
      BridgeStepAnnounces(s, a, w, id);
      if Waits(s.tasks[w], id, i) { assert id < s.nextSocketId && i.Readable?; }
    }
  }

  lemma {:induction false} RunsKeep(tasks: nat, schedule: seq<Action>)
    ensures var s := Run(tasks, schedule);
      |s.tasks| == tasks && Inv(s) && (!s.closed ==> AllCovered(s))
  {
    if schedule != [] {
      RunsKeep(tasks, schedule[..|schedule| - 1]);
      var s, a := Run(tasks, schedule[..|schedule| - 1]), schedule[|schedule| - 1];
      StepIsSound(s, a);
      if ByTask(a) { TaskStepIsLocal(s, a); } else { BridgeStepIsLocal(s, a); }
      if !Step(s, a).closed {
        forall w: nat, id: nat, i | w < |s.tasks| ensures Covered(Step(s, a), w, id, i) {
          if ByTask(a) { TaskStepCovers(s, a, w, id, i); } else { BridgeStepCovers(s, a, w, id, i); }
        }
      }
    }
  }

  // ----- main results -----

  /**
    Readiness is never lost while the bridge is open. In every run, a task
    whose last poll of an open socket answered Pending has been woken, is being
    woken, or is in the waker list; and when the level has come since, an event
    that takes that list is to be emitted or retried.
  */
  lemma ReadinessIsNotLost(tasks: nat, schedule: seq<Action>, w: nat, id: nat, i: Interest)
    requires w < tasks
    ensures var s := Run(tasks, schedule);
      w < |s.tasks| && (!s.closed && id in s.sockets && (id, i) in s.tasks[w].parked ==>
        || Roused(s, w)
        || (Listed(s, w, id, i) && (Ready(s, id, i) ==> Coming(s, id, i))))
  {
    RunsKeep(tasks, schedule);
    var s := Run(tasks, schedule);
    if !s.closed { assert Covered(s, w, id, i); }
  }

  lemma ComingWakes(s: State, w: nat, id: nat, i: Interest) returns (event: Event)
    requires !s.closed && s.lock.None? && Listed(s, w, id, i) && Coming(s, id, i)
    ensures w in Step(s, Emit(id, event)).waking
  {
    event := if (id, Ended) in s.owed then Ended else if (id, Failed) in s.owed then Failed
             else if i.Readable? then Data else Room;
    TakenHas(s.handlers, id, event, w, i);
  }

  /** A failed `try_lock` loses nothing: the lock's holder releases it in its next step, changing neither level nor event. */
  lemma TheLockIsReleased(tasks: nat, schedule: seq<Action>)
    ensures var s := Run(tasks, schedule);
      s.lock.Some? ==>
        && (forall id, event | !s.closed :: Step(s, Emit(id, event)) == s)
        && var t := Step(s, Critical(s.lock.value));
           t.lock.None? && t.owed == s.owed && t.sockets == s.sockets && t.closed == s.closed && t.waking == s.waking
  {
    RunsKeep(tasks, schedule);
  }

  lemma RunAppends(tasks: nat, schedule: seq<Action>, a: Action)
    ensures Run(tasks, schedule + [a]) == Step(Run(tasks, schedule), a)
  {
    assert (schedule + [a])[..|schedule|] == schedule;
  }

  /** The steps that carry a wake to a task: leaving a critical section, an attempt at an event, a waker's call. */
  predicate Carries(a: Action) {
    a.Critical? || a.Emit? || a.CallWaker?
  }

  /** The state some steps later. */
  function Later(s: State, steps: seq<Action>): State
    decreases |steps|
  {
    if steps == [] then s else Later(Step(s, steps[0]), steps[1..])
  }

  lemma LaterFirst(s: State, a: Action, rest: seq<Action>)
    ensures Later(s, [a] + rest) == Later(Step(s, a), rest)
  {
    assert ([a] + rest)[1..] == rest;
  }

  /** Task `w` waits for a level that has come. */
  predicate Due(s: State, w: nat, id: nat, i: Interest) {
    w < |s.tasks| && !s.closed && id in s.sockets && (id, i) in s.tasks[w].parked && Ready(s, id, i)
  }

  lemma CallingWakes(s: State, w: nat) returns (steps: seq<Action>)
    requires Roused(s, w)
    ensures |steps| <= 1 && (forall a | a in steps :: Carries(a)) && w in Later(s, steps).woken
  {
    if w in s.woken { return []; }
    LaterFirst(s, CallWaker(w), []);
    assert [CallWaker(w)] + [] == [CallWaker(w)];
    return [CallWaker(w)];
  }

  lemma EmittingWakes(s: State, w: nat, id: nat, i: Interest) returns (steps: seq<Action>)
    requires Due(s, w, id, i) && Covered(s, w, id, i) && s.lock.None?
    ensures |steps| <= 2 && (forall a | a in steps :: Carries(a)) && w in Later(s, steps).woken
  {
    if Roused(s, w) {
      steps := CallingWakes(s, w);
      return;
    }
    var event := ComingWakes(s, w, id, i);
    var rest := CallingWakes(Step(s, Emit(id, event)), w);
    LaterFirst(s, Emit(id, event), rest);
    steps := [Emit(id, event)] + rest;
  }

  lemma StillDue(s: State, w: nat, id: nat, i: Interest)
    requires Inv(s) && s.lock.Some? && Due(s, w, id, i)
    ensures var t := Step(s, Critical(s.lock.value));
      Due(t, w, id, i) && t.lock.None?
  {
  }

  /**
    A task that waits for a level that has come is at most three steps from being
    woken: the lock's holder, if there is one, leaves its critical section, an
    owed event is emitted, and the waker is called.
  */
  lemma AWakeIsNear(tasks: nat, schedule: seq<Action>, w: nat, id: nat, i: Interest) returns (steps: seq<Action>)
    requires Due(Run(tasks, schedule), w, id, i)
    ensures |steps| <= 3 && (forall a | a in steps :: Carries(a)) && w in Later(Run(tasks, schedule), steps).woken
  {
    RunsKeep(tasks, schedule);
    var s := Run(tasks, schedule);
    if s.lock.None? {
      steps := EmittingWakes(s, w, id, i);
    } else {
      var release := Critical(s.lock.value);
      StillDue(s, w, id, i);
      TaskStepCovers(s, release, w, id, i);
      var rest := EmittingWakes(Step(s, release), w, id, i);
      LaterFirst(s, release, rest);
      steps := [release] + rest;
    }
  }

  /** `socketWritable` never answers -1, so no task ever waits for room. */
  lemma WritersNeverWait(tasks: nat, schedule: seq<Action>, w: nat, id: nat)
    requires w < tasks
    ensures var s := Run(tasks, schedule);
      w < |s.tasks| && !Waits(s.tasks[w], id, Writable)
  {
    RunsKeep(tasks, schedule);
    assert SoundTask(Run(tasks, schedule), Run(tasks, schedule).tasks[w]);
  }

  /** `socketClose` makes the level ready, and touches neither the waker lists nor the events to come. */
  lemma ClosingIsSilent(s: State, id: nat)
    ensures var t := Step(s, SocketClose(id));
      && Ready(t, id, Readable)
      && t.handlers == s.handlers && t.owed == s.owed && t.waking == s.waking && t.woken == s.woken && t.tasks == s.tasks
      && Coming(Step(t, StreamClosed(id)), id, Readable)
  {
    assert (id, Ended) in s.owed + multiset{(id, Ended)};
  }

  /** What the promise of readiness asks of a state, for a task parked on a level that has come. */
  predicate Served(s: State, w: nat, id: nat, i: Interest) {
    Roused(s, w) || (Listed(s, w, id, i) && Coming(s, id, i))
  }

  /**
    In every run of an open bridge, a reader whose socket is closed under it is
    still served if and only if, before the close, it was roused or an event
    for that socket was already to come.
  */
  lemma ServedAfterClosing(tasks: nat, schedule: seq<Action>, w: nat, id: nat)
    requires w < tasks && w < |Run(tasks, schedule).tasks| && !Run(tasks, schedule).closed
    requires id in Run(tasks, schedule).sockets && (id, Readable) in Run(tasks, schedule).tasks[w].parked
    ensures var s := Run(tasks, schedule);
      var t := Step(s, SocketClose(id));
      && Ready(t, id, Readable) && (id, Readable) in t.tasks[w].parked
      && (Served(t, w, id, Readable) <==> Roused(s, w) || Coming(s, id, Readable))
  {
    ReadinessIsNotLost(tasks, schedule, w, id, Readable);
    ClosingIsSilent(Run(tasks, schedule), id);
  }

  predicate Drops(pc: Pc, id: nat) {
    pc.Wants? && pc.op.DropEntry? && pc.id == id
  }

  /** A reader that sleeps on a socket closed under it, with a wake to come, and nobody about to remove the entry. */
  ghost predicate SleepsServed(s: State, w: nat, id: nat) {
    && Inv(s) && !s.closed && w < |s.tasks| && s.tasks[w].pc.Asleep?
    && id !in s.sockets && id < s.nextSocketId
    && (forall v | 0 <= v < |s.tasks| :: !Drops(s.tasks[v].pc, id))
    && Served(s, w, id, Readable)
  }

  /** What may undo that: the removal of the socket's entry, and the close of the bridge. */
  predicate Undoes(a: Action, id: nat) {
    a.CloseBridge? || (a.HandlerCall? && a.op.DropEntry? && a.id == id)
  }

  /** Nothing of the kind happens, and the task does not run of itself. */
  ghost predicate Undisturbed(more: seq<Action>, w: nat, id: nat) {
    RunTask(w) !in more && forall a | a in more :: !Undoes(a, id)
  }

  lemma TaskStepServes(s: State, a: Action, w: nat, id: nat)
    requires SleepsServed(s, w, id) && ByTask(a) && a != RunTask(w)
    ensures Served(TaskStep(s, a), w, id, Readable)
  {
    if a.Critical? && TaskStep(s, a) != s {
      var pc := s.tasks[a.w].pc;
      assert !Drops(pc, id);
      if Listed(s, w, id, Readable) {
        OperateKeeps(s.handlers, a.w, pc.op, pc.id, pc.i, w, id, Readable);
      }
    }
  }

  lemma TaskStepSleeps(s: State, a: Action, w: nat, id: nat)
    requires SleepsServed(s, w, id) && ByTask(a) && a != RunTask(w) && !Undoes(a, id)
    ensures SleepsServed(TaskStep(s, a), w, id)
  {
    TaskStepServes(s, a, w, id);
    TaskStepIsLocal(s, a);
    TaskStepIsSound(s, a);
    var t := TaskStep(s, a);
    if t != s {
      assert !Drops(s.tasks[Actor(a)].pc, id);
      assert !Drops(t.tasks[Actor(a)].pc, id);
    }
  }

  lemma AttemptServes(s: State, id': nat, event: Event, w: nat, id: nat)
    requires !s.closed && Served(s, w, id, Readable)
    ensures Served(Attempt(s, id', event), w, id, Readable)
  {
    var t := Attempt(s, id', event);
    if t != s {
      assert Roused(s, w) ==> Roused(t, w);
      if id == id' && Takes(event, Readable) {
        if Listed(s, w, id, Readable) { TakenHas(s.handlers, id, event, w, Readable); }
      } else {
        TakingKeeps(s.handlers, id', event, id, Readable);
        if Coming(s, id, Readable) { StillComing(s, t, id', event, id, Readable); }
      }
    }
  }

  lemma BridgeStepSleeps(s: State, a: Action, w: nat, id: nat)
    requires SleepsServed(s, w, id) && !ByTask(a) && !a.CloseBridge?
    ensures SleepsServed(BridgeStep(s, a), w, id)
  {
    StepIsSound(s, a);
    BridgeStepIsLocal(s, a);
    if a.Emit? {
      AttemptServes(s, a.id, a.event, w, id);
    } else {
      BridgeStepAnnounces(s, a, w, id);
    }
  }

  lemma {:induction false} RunSleeps(s: State, more: seq<Action>, w: nat, id: nat)
    requires SleepsServed(s, w, id) && Undisturbed(more, w, id)
    ensures SleepsServed(Later(s, more), w, id)
    decreases |more|
  {
    if more != [] {
      assert more[0] in more && !Undoes(more[0], id);
      if ByTask(more[0]) { TaskStepSleeps(s, more[0], w, id); } else { BridgeStepSleeps(s, more[0], w, id); }
      RunSleeps(Step(s, more[0]), more[1..], w, id);
    }
  }

  lemma EmittingServes(s: State, w: nat, id: nat) returns (steps: seq<Action>)
    requires SleepsServed(s, w, id) && s.lock.None?
    ensures |steps| <= 2 && (forall a | a in steps :: Carries(a)) && w in Later(s, steps).woken
  {
    if Roused(s, w) {
      steps := CallingWakes(s, w);
      return;
    }
    var event := ComingWakes(s, w, id, Readable);
    var rest := CallingWakes(Step(s, Emit(id, event)), w);
    LaterFirst(s, Emit(id, event), rest);
    steps := [Emit(id, event)] + rest;
  }

  /** At most three carrying steps away, the task is woken. */
  predicate WakesSoon(s: State, steps: seq<Action>, w: nat) {
    |steps| <= 3 && (forall a | a in steps :: Carries(a)) && w in Later(s, steps).woken
  }

  lemma ServedWakes(s: State, w: nat, id: nat) returns (steps: seq<Action>)
    requires SleepsServed(s, w, id)
    ensures WakesSoon(s, steps, w)
  {
    if s.lock.None? {
      steps := EmittingServes(s, w, id);
    } else {
      var release := Critical(s.lock.value);
      TaskStepSleeps(s, release, w, id);
      var rest := EmittingServes(Step(s, release), w, id);
      LaterFirst(s, release, rest);
      steps := [release] + rest;
    }
  }

  /** No event that takes the readers of this socket is to come, and the socket is gone. */
  predicate IsSilent(s: State, id: nat) {
    id !in s.sockets && id < s.nextSocketId && !Coming(s, id, Readable)
  }

  lemma RefreshStaysSilent(s: State, k: nat, id: nat)
    requires IsSilent(s, id)
    ensures IsSilent(BridgeStep(s, SocketRefresh(k)), id)
  {
  }

  lemma MessageStaysSilent(s: State, k: nat, n: nat, id: nat)
    requires IsSilent(s, id)
    ensures IsSilent(BridgeStep(s, Message(k, n)), id)
  {
  }

  lemma SwitchStaysSilent(s: State, id: nat)
    requires IsSilent(s, id)
    ensures IsSilent(BridgeStep(s, SwitchEndpoint), id)
  {
  }

  lemma OtherwiseStaysSilent(s: State, a: Action, id: nat)
    requires IsSilent(s, id) && a != StreamClosed(id) && !ByTask(a)
    requires !a.SocketRefresh? && !a.Message? && !a.SwitchEndpoint?
    ensures IsSilent(BridgeStep(s, a), id)
  {
  }

  lemma StepStaysSilent(s: State, a: Action, id: nat)
    requires IsSilent(s, id) && a != StreamClosed(id)
    ensures IsSilent(Step(s, a), id)
  {
    if ByTask(a) {
      TaskStepIsLocal(s, a);
    } else {
      match a
      case SocketRefresh(k) => RefreshStaysSilent(s, k, id);
      case Message(k, n) => MessageStaysSilent(s, k, n, id);
      case SwitchEndpoint => SwitchStaysSilent(s, id);
      case _ => OtherwiseStaysSilent(s, a, id);
    }
  }

  lemma {:induction false} RunStaysSilent(s: State, more: seq<Action>, id: nat)
    requires IsSilent(s, id) && StreamClosed(id) !in more
    ensures IsSilent(Later(s, more), id)
    decreases |more|
  {
    if more != [] {
      StepStaysSilent(s, more[0], id);
      RunStaysSilent(Step(s, more[0]), more[1..], id);
    }
  }

  lemma ClosedUnderASleeper(tasks: nat, schedule: seq<Action>, w: nat, id: nat)
    requires w < tasks && w < |Run(tasks, schedule).tasks| && !Run(tasks, schedule).closed
    requires id in Run(tasks, schedule).sockets && (id, Readable) in Run(tasks, schedule).tasks[w].parked
    requires Run(tasks, schedule).tasks[w].pc.Asleep?
    ensures var s := Run(tasks, schedule);
      var t := Step(s, SocketClose(id));
      && (Served(t, w, id, Readable) ==> SleepsServed(t, w, id))
      && (!Coming(s, id, Readable) ==> IsSilent(t, id))
  {
    RunsKeep(tasks, schedule);
    var s := Run(tasks, schedule);
    ClosingIsSilent(s, id);
    StepIsSound(s, SocketClose(id));
    forall v | 0 <= v < |s.tasks| ensures !Drops(s.tasks[v].pc, id) {
      assert SoundTask(s, s.tasks[v]);
    }
  }

  /**
    And a task that sleeps on the socket stays served, however the run goes on
    without a removal of the socket's entry or a close of the bridge, under the
    same condition; it is then never more than three steps from being woken. If
    there was no such event, none comes any more unless the stream itself
    reports its close.
  */
  lemma ServedEverAfter(tasks: nat, schedule: seq<Action>, w: nat, id: nat)
    requires w < tasks && w < |Run(tasks, schedule).tasks| && !Run(tasks, schedule).closed
    requires id in Run(tasks, schedule).sockets && (id, Readable) in Run(tasks, schedule).tasks[w].parked
    requires Run(tasks, schedule).tasks[w].pc.Asleep?
    ensures var s := Run(tasks, schedule);
      var t := Step(s, SocketClose(id));
      && ((forall more: seq<Action> | Undisturbed(more, w, id) :: Served(Later(t, more), w, id, Readable)) <==>
          Roused(s, w) || Coming(s, id, Readable))
      && (Roused(s, w) || Coming(s, id, Readable) ==>
          forall more: seq<Action> | Undisturbed(more, w, id) :: exists steps :: WakesSoon(Later(t, more), steps, w))
      && (!Coming(s, id, Readable) ==>
          forall more: seq<Action> | StreamClosed(id) !in more :: !Coming(Later(t, more), id, Readable))
  {
    ServedAfterClosing(tasks, schedule, w, id);
    ClosedUnderASleeper(tasks, schedule, w, id);
    var s := Run(tasks, schedule);
    var t := Step(s, SocketClose(id));
    if Roused(s, w) || Coming(s, id, Readable) {
      forall more: seq<Action> | Undisturbed(more, w, id)
        ensures Served(Later(t, more), w, id, Readable) && exists steps :: WakesSoon(Later(t, more), steps, w)
      {
        RunSleeps(t, more, w, id);
        var steps := ServedWakes(Later(t, more), w, id);
      }
    } else {
      var none: seq<Action> := [];
      assert Undisturbed(none, w, id) && Later(t, none) == t;
    }
    if !Coming(s, id, Readable) {
      forall more: seq<Action> | StreamClosed(id) !in more ensures !Coming(Later(t, more), id, Readable) {
        RunStaysSilent(t, more, id);
      }
    }
  }

  /** A task that sleeps on a closed bridge, and is not roused. */
  predicate Stranded(s: State, w: nat) {
    s.closed && w < |s.tasks| && s.tasks[w].pc.Asleep? && !Roused(s, w)
  }

  lemma ClosedTaskStepRousesNobody(s: State, a: Action, w: nat)
    requires Stranded(s, w) && ByTask(a) && a != RunTask(w)
    ensures Stranded(TaskStep(s, a), w) && TaskStep(s, a).tasks[w] == s.tasks[w]
  {
    TaskStepIsLocal(s, a);
  }

  lemma ClosedBridgeStepRousesNobody(s: State, a: Action, w: nat)
    requires Stranded(s, w) && !ByTask(a)
    ensures Stranded(BridgeStep(s, a), w) && BridgeStep(s, a).tasks[w] == s.tasks[w]
  {
    BridgeStepIsLocal(s, a);
  }

  /** Once the bridge is closed, no event rouses anybody any more. */
  lemma ClosedStepRousesNobody(s: State, a: Action, w: nat)
    requires Stranded(s, w) && a != RunTask(w)
    ensures Stranded(Step(s, a), w) && Step(s, a).tasks[w] == s.tasks[w]
  {
    if ByTask(a) { ClosedTaskStepRousesNobody(s, a, w); } else { ClosedBridgeStepRousesNobody(s, a, w); }
  }

  lemma {:induction false} ClosedRunRousesNobody(s: State, more: seq<Action>, w: nat)
    requires Stranded(s, w) && RunTask(w) !in more
    ensures Stranded(Later(s, more), w) && Later(s, more).tasks[w] == s.tasks[w]
    decreases |more|
  {
    if more != [] {
      ClosedStepRousesNobody(s, more[0], w);
      ClosedRunRousesNobody(Step(s, more[0]), more[1..], w);
    }
  }

  /** `more` wakes task `w` before it runs of itself. */
  ghost predicate Wakes(s: State, more: seq<Action>, w: nat) {
    RunTask(w) !in more && w in Later(s, more).woken
  }

  /**
    `close` sets the closed flag before it ends the sockets, so it announces
    nothing either: every level is then ready, and a task that sleeps on one can
    still be woken if and only if it was roused before the close.
  */
  lemma ClosingTheBridgeIsSilent(s: State, w: nat, id: nat)
    requires !s.closed && w < |s.tasks| && s.tasks[w].pc.Asleep?
    ensures Ready(Step(s, CloseBridge), id, Readable)
    ensures (exists more: seq<Action> :: Wakes(Step(s, CloseBridge), more, w)) <==> Roused(s, w)
  {
    var t := Step(s, CloseBridge);
    if Roused(s, w) {
      var more := CallingWakes(t, w);
      assert Wakes(t, more, w);
    } else {
      forall more: seq<Action> ensures !Wakes(t, more, w) {
        if RunTask(w) !in more { ClosedRunRousesNobody(t, more, w); }
      }
    }
  }

  /** One task and one idle socket. */
  function Idle(pc: Pc, parked: set<(nat, Interest)>, handlers: Handlers, lock: Option<nat>): State {
    State([Task(pc, parked)], {}, multiset{}, handlers, lock, map[0 := Socket(0, false)], 1, false, multiset{})
  }

  const LISTED: Handlers := map[0 := Entry(false, [0], [])]

  lemma PollSteps()
    ensures Step(Idle(Asleep, {}, map[], None), RunTask(0)) == Idle(Running, {}, map[], None)
    ensures Step(Idle(Running, {}, map[], None), Poll(0, 0, Readable)) == Idle(First(0, Readable), {}, map[], None)
    ensures Step(Idle(First(0, Readable), {}, map[], None), Query(0)) == Idle(Wants(Register, 0, Readable), {}, map[], None)
    ensures Step(Idle(Wants(Register, 0, Readable), {}, map[], None), Acquire(0)) == Idle(Wants(Register, 0, Readable), {}, map[], Some(0))
  {
    assert Task(Running, {}).parked - {(0, Readable)} == {};
  }

  lemma RegisterSteps()
    ensures Step(Idle(Wants(Register, 0, Readable), {}, map[], Some(0)), Critical(0)) == Idle(Second(0, Readable), {}, LISTED, None)
    ensures Step(Idle(Second(0, Readable), {}, LISTED, None), Query(0)) == Idle(Running, {(0, Readable)}, LISTED, None)
    ensures Step(Idle(Running, {(0, Readable)}, LISTED, None), Sleep(0)) == Idle(Asleep, {(0, Readable)}, LISTED, None)
  {
    var none: seq<nat> := [];
    assert none + [0] == [0];
    assert RegisterWaker(map[], 0, Readable, 0) == LISTED;
    assert Task(Running, {}).parked + {(0, Readable)} == {(0, Readable)};
  }

  lemma ConnectSteps()
    ensures Step(Step(Init(1), Connect), Emit(0, Room)) == Idle(Asleep, {}, map[], None)
  {
    var s := Step(Init(1), Connect);
    assert s.tasks == [Task(Asleep, {})];
    assert s.sockets == map[0 := Socket(0, false)];
    assert s.owed == multiset{(0, Room)};
  }

  /** The run `schedule` ends in `s`; one step more ends in `t`. */
  lemma Extend(schedule: seq<Action>, a: Action, s: State, t: State)
    requires Run(1, schedule) == s && Step(s, a) == t
    ensures Run(1, schedule + [a]) == t
  {
    RunAppends(1, schedule, a);
  }

  lemma AReaderParks() returns (schedule: seq<Action>)
    ensures Run(1, schedule) == Idle(Asleep, {(0, Readable)}, LISTED, None)
  {
    ConnectSteps();
    PollSteps();
    RegisterSteps();
    var wants := Wants(Register, 0, Readable);
    Extend([], Connect, Init(1), Step(Init(1), Connect));
    var r1 := [] + [Connect];
    Extend(r1, Emit(0, Room), Step(Init(1), Connect), Idle(Asleep, {}, map[], None));
    var r2 := r1 + [Emit(0, Room)];
    Extend(r2, RunTask(0), Idle(Asleep, {}, map[], None), Idle(Running, {}, map[], None));
    var r3 := r2 + [RunTask(0)];
    Extend(r3, Poll(0, 0, Readable), Idle(Running, {}, map[], None), Idle(First(0, Readable), {}, map[], None));
    var r4 := r3 + [Poll(0, 0, Readable)];
    Extend(r4, Query(0), Idle(First(0, Readable), {}, map[], None), Idle(wants, {}, map[], None));
    var r5 := r4 + [Query(0)];
    Extend(r5, Acquire(0), Idle(wants, {}, map[], None), Idle(wants, {}, map[], Some(0)));
    var r6 := r5 + [Acquire(0)];
    Extend(r6, Critical(0), Idle(wants, {}, map[], Some(0)), Idle(Second(0, Readable), {}, LISTED, None));
    var r7 := r6 + [Critical(0)];
    Extend(r7, Query(0), Idle(Second(0, Readable), {}, LISTED, None), Idle(Running, {(0, Readable)}, LISTED, None));
    var r8 := r7 + [Query(0)];
    Extend(r8, Sleep(0), Idle(Running, {(0, Readable)}, LISTED, None), Idle(Asleep, {(0, Readable)}, LISTED, None));
    schedule := r8 + [Sleep(0)];
  }

  /** So a reader can be left asleep: nothing more comes for it when its socket is closed under it. */
  lemma AReaderCanBeLeftAsleep() returns (schedule: seq<Action>)
    ensures var s := Run(1, schedule);
      && |s.tasks| == 1 && s.tasks[0].pc.Asleep? && (0, Readable) in s.tasks[0].parked
      && !s.closed && Ready(s, 0, Readable) && !Roused(s, 0) && !Coming(s, 0, Readable)
  {
    var parks := AReaderParks();
    RunAppends(1, parks, SocketClose(0));
    schedule := parks + [SocketClose(0)];
  }

  // ----- the handler map in place -----

  /** The shared map under its lock; each method is one critical section. */
  class HandlerMap {
    var entries: Handlers
    var contended: bool

    constructor ()
      ensures entries == map[] && !contended
    {
      entries, contended := map[], false;
    }

    method Register(id: nat, i: Interest, waker: nat)
      modifies this`entries
      ensures entries == RegisterWaker(old(entries), id, i, waker)
      ensures waker in Wakers(entries, id, i)
    {
      var e := EntryAt(entries, id);
      var wakers := if i.Readable? then e.read else e.write;
      var found, k := false, 0;
      while k < |wakers| && !found
        invariant k <= |wakers|
        invariant found <==> waker in wakers[..k]
      {
        found := wakers[k] == waker;
        k := k + 1;
      }
      assert found ==> waker in wakers;
      assert k == |wakers| ==> wakers[..k] == wakers;
      entries := entries[id := if found then e else SetWakers(e, i, wakers + [waker])];
    }

    method Unregister(id: nat, i: Interest, waker: nat)
      modifies this`entries
      ensures entries == UnregisterWaker(old(entries), id, i, waker)
      ensures waker !in Wakers(entries, id, i)
    {
      if id !in entries { return; }
      var wakers := if i.Readable? then entries[id].read else entries[id].write;
      var kept, k := [], 0;
      while k < |wakers|
        invariant k <= |wakers|
        invariant kept == Without(wakers[..k], waker)
      {
        assert wakers[..k + 1][..k] == wakers[..k];
        if wakers[k] != waker { kept := kept + [wakers[k]]; }
        k := k + 1;
      }
      assert wakers[..k] == wakers;
      var e := SetWakers(entries[id], i, kept);
      if !e.handler && e.read == [] && e.write == [] { entries := entries - {id}; } else { entries := entries[id := e]; }
    }

    /** `notify_handler`: false asks the bridge to try again. */
    method Notify(id: nat, event: Event) returns (done: bool, wakers: seq<nat>, interest: bool)
      modifies this`entries
      ensures done <==> !contended
      ensures !done ==> entries == old(entries) && wakers == []
      ensures done ==> entries == AfterTaking(old(entries), id, event) && wakers == Taken(old(entries), id, event)
      ensures interest <==> done && id in old(entries) && old(entries)[id].handler
    {
      if contended { return false, [], false; }
      if id !in entries { return true, [], false; }
      var e := entries[id];
      done, interest := true, e.handler;
      match event
      case Data =>
        wakers := e.read;
        entries := entries[id := e.(read := [])];
      case Room =>
        wakers := e.write;
        entries := entries[id := e.(write := [])];
      case _ =>
        wakers := e.read + e.write;
        entries := entries[id := e.(read := [], write := [])];
    }
  }
}
