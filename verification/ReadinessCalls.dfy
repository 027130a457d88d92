/**
  What one call does with readiness on a WISP bridge: an undisturbed poll of
  js/bindgen/src/node_network.rs from its beginning to its answer, the entries of
  its waker map, and the levels of js/src/wisp-network.ts.
*/
module ReadinessCalls {
  import opened Bytes
  import opened Readiness

  // ----- the map -----

  predicate HasHandler(handlers: Handlers, id: nat) {
    id in handlers && handlers[id].handler
  }

  /** Only this list differs, and no handler. */
  ghost predicate OnlyList(before: Handlers, after: Handlers, id: nat, i: Interest) {
    && (forall id': nat, i' | id' != id || i' != i :: Wakers(after, id', i') == Wakers(before, id', i'))
    && (forall id': nat :: HasHandler(after, id') <==> HasHandler(before, id'))
  }

  /** Registering adds a waker to its list, once. */
  lemma RegisteringAdds(handlers: Handlers, id: nat, i: Interest, w: nat)
    ensures var after := RegisterWaker(handlers, id, i, w);
      && OnlyList(handlers, after, id, i)
      && Wakers(after, id, i) == if w in Wakers(handlers, id, i) then Wakers(handlers, id, i) else Wakers(handlers, id, i) + [w]
  {
  }

  /** Unregistering takes it off; the entry stays if it has a handler or another waker. */
  lemma UnregisteringRemoves(handlers: Handlers, id: nat, i: Interest, w: nat, v: nat)
    ensures var after := UnregisterWaker(handlers, id, i, w);
      && OnlyList(handlers, after, id, i)
      && (v in Wakers(after, id, i) <==> v in Wakers(handlers, id, i) && v != w)
      && (id in handlers ==>
            (id in after <==> handlers[id].handler || Wakers(after, id, Readable) != [] || Wakers(after, id, Writable) != []))
  {
  }

  /** A handler comes and goes without a change to any list; with the last of it and the wakers, the entry goes. */
  lemma HandlersComeAndGo(handlers: Handlers, id: nat, id': nat, i: Interest)
    ensures var added, cleared := RegisterHandler(handlers, id), RemoveHandler(handlers, id);
      && Wakers(added, id', i) == Wakers(handlers, id', i) == Wakers(cleared, id', i)
      && (HasHandler(added, id') <==> id' == id || HasHandler(handlers, id'))
      && (HasHandler(cleared, id') <==> id' != id && HasHandler(handlers, id'))
      && (id in cleared <==> Wakers(handlers, id, Readable) != [] || Wakers(handlers, id, Writable) != [])
  {
  }

  /** Data takes the readers, room the writers, an end or a failure all of them, of this socket and of no other. */
  lemma EventsTake(handlers: Handlers, id: nat, event: Event, id': nat, i: Interest)
    ensures var after := AfterTaking(handlers, id, event);
      var takes := event == Ended || event == Failed || (event == Data && i == Readable) || (event == Room && i == Writable);
      && Wakers(after, id', i) == (if id' == id && takes then [] else Wakers(handlers, id', i))
      && (HasHandler(after, id') <==> HasHandler(handlers, id'))
      && (takes ==> forall w | w in Wakers(handlers, id, i) :: w in Taken(handlers, id, event))
      && (forall w | w in Taken(handlers, id, event) :: w in Wakers(handlers, id, Readable) || w in Wakers(handlers, id, Writable))
  {
  }

  // ----- the levels -----

  /** A socket is readable while it has unread bytes or has ended, and one that is not in the table always is. */
  lemma LevelsAre(s: State, id: nat, n: nat)
    ensures !s.closed ==> !Ready(Step(s, Connect), s.nextSocketId, Readable)
    ensures id in s.sockets && !s.sockets[id].ended && n > 0 ==> Ready(Step(s, Message(id, n)), id, Readable)
    ensures Ready(Step(s, StreamClosed(id)), id, Readable)
    ensures Ready(Step(s, SocketClose(id)), id, Readable)
    ensures id in s.sockets && !s.sockets[id].ended && n >= s.sockets[id].buffered ==> !Ready(Step(s, SocketRead(id, n)), id, Readable)
    ensures id in s.sockets && n < s.sockets[id].buffered ==> Ready(Step(s, SocketRead(id, n)), id, Readable)
    ensures Ready(s, id, Writable)
  {
  }

  // ----- an undisturbed poll -----

  predicate CanPoll(s: State, w: nat, id: nat) {
    w < |s.tasks| && s.tasks[w].pc == Running && id < s.nextSocketId && s.lock.None? && !s.closed
  }

  function Polling(s: State, w: nat, pc: Pc, parked: set<(nat, Interest)>): State
    requires w < |s.tasks|
  {
    s.(tasks := s.tasks[w := Task(pc, parked)])
  }

  /** One that finds the level ready answers, and leaves no waker of its own in the list. */
  lemma ReadyPollsAnswer(s: State, w: nat, id: nat, i: Interest)
    requires CanPoll(s, w, id) && Ready(s, id, i)
    ensures var t := Step(Step(Step(Step(s, Poll(w, id, i)), Query(w)), Acquire(w)), Critical(w));
      && w < |t.tasks| && t.tasks[w] == Task(Running, s.tasks[w].parked - {(id, i)})
      && t.lock.None? && w !in Wakers(t.handlers, id, i) && OnlyList(s.handlers, t.handlers, id, i)
  {
    var parked := s.tasks[w].parked - {(id, i)};
    var s1 := Step(s, Poll(w, id, i));
    assert s1 == Polling(s, w, First(id, i), parked);
    var s2 := Step(s1, Query(w));
    assert s2 == Polling(s, w, Wants(Unregister, id, i), parked);
    var s3 := Step(s2, Acquire(w));
    assert s3 == Polling(s, w, Wants(Unregister, id, i), parked).(lock := Some(w));
    UnregisteringRemoves(s.handlers, id, i, w, w);
  }

  /** One that does not registers, looks once more, and then counts as pending, with its waker in the list. */
  lemma OtherPollsPark(s: State, w: nat, id: nat, i: Interest)
    requires CanPoll(s, w, id) && !Ready(s, id, i)
    ensures var t := Step(Step(Step(Step(Step(s, Poll(w, id, i)), Query(w)), Acquire(w)), Critical(w)), Query(w));
      && w < |t.tasks| && t.tasks[w] == Task(Running, s.tasks[w].parked + {(id, i)})
      && t.lock.None? && w in Wakers(t.handlers, id, i) && OnlyList(s.handlers, t.handlers, id, i)
  {
    var parked := s.tasks[w].parked - {(id, i)};
    var s1 := Step(s, Poll(w, id, i));
    assert s1 == Polling(s, w, First(id, i), parked);
    var s2 := Step(s1, Query(w));
    assert s2 == Polling(s, w, Wants(Register, id, i), parked);
    var s3 := Step(s2, Acquire(w));
    assert s3 == Polling(s, w, Wants(Register, id, i), parked).(lock := Some(w));
    var s4 := Step(s3, Critical(w));
    assert s4 == Polling(s, w, Second(id, i), parked).(handlers := RegisterWaker(s.handlers, id, i, w));
    RegisteringAdds(s.handlers, id, i, w);
    assert parked + {(id, i)} == s.tasks[w].parked + {(id, i)};
  }

  /** A handler, or the removal of an entry, is one critical section of its own. */
  lemma HandlerCallsOperate(s: State, w: nat, id: nat, op: Operation)
    requires CanPoll(s, w, id) && (op == SetHandler || op == ClearHandler || (op == DropEntry && id !in s.sockets))
    ensures var t := Step(Step(Step(s, HandlerCall(w, op, id)), Acquire(w)), Critical(w));
      t == s.(handlers := if op == SetHandler then RegisterHandler(s.handlers, id)
                          else if op == ClearHandler then RemoveHandler(s.handlers, id) else s.handlers - {id})
  {
    var task := s.tasks[w];
    var s1 := Step(s, HandlerCall(w, op, id));
    assert s1 == Polling(s, w, Wants(op, id, Readable), task.parked);
    var s2 := Step(s1, Acquire(w));
    assert s2 == s1.(lock := Some(w));
    var s3 := Step(s2, Critical(w));
    assert s3.tasks == s1.tasks[w := task] == s.tasks;
  }
}
