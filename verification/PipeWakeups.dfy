/**
  No writer of the pipe sleeps through freed capacity or a close, in any
  interleaving, although each drain stops after the `len()` it read at its
  start and writers re-register while it runs.
*/
module PipeWakeups {
  import opened Bytes
  import opened Pipe
  import opened PipeHub

  // ----- who owes a drain -----

  datatype Phase = Working | Announcing | Draining

  /** Announcing: the thread has made the change but not yet entered `wake_writers`. */
  function PhaseOf(s: State, t: Thread): Phase {
    match t
    case ReaderThread => (
      match s.reader.pc
      case StoreClosed => Announcing
      case ReadDraining(_) => Draining
      case DropDraining => Draining
      case _ => Working)
    case WriterThread(i) =>
      if i >= |s.writers| then Working
      else if s.writers[i].pc.SendClose? then Announcing
      else if s.writers[i].pc.WriterDraining? then Draining
      else Working
    case CloserThread(i) =>
      if i >= |s.closers| then Working
      else if s.closers[i].CloserSendClose? then Announcing
      else if s.closers[i].CloserDraining? then Draining
      else Working
  }

  predicate ThreadMatches(s: State, t: Thread) {
    && (t in s.hub.drains <==> PhaseOf(s, t) != Working)
    && (PhaseOf(s, t) == Announcing ==> s.hub.drains[t] == Owed)
  }

  // ----- what a writer must not miss -----

  function Pushing(s: State): set<nat> {
    set i: nat | i < |s.writers| && s.writers[i].pc.PushWaiter?
  }

  /** Writer `i` has registered its waker and passed the point where a drain must be able to find it. */
  predicate Waiting(s: State, i: nat) {
    && i < |s.writers|
    && Registered(s.hub, i)
    && (s.writers[i].pc.RecheckClosed? || s.writers[i].pc.RecheckBuffered? || s.writers[i].pc.Parked?)
  }

  /** What a sleeping or about-to-sleep writer has already missed. */
  predicate Missed(s: State, i: nat)
    requires i < |s.writers|
  {
    var pc := s.writers[i].pc;
    || ((pc.RecheckBuffered? || pc.Parked?) && (s.closed || !s.receiving))
    || (pc.Parked? && s.buffered < s.capacity)
  }

  ghost predicate WillBeWoken(s: State, i: nat) {
    Waiting(s, i) ==> Findable(s.hub, i) && (Missed(s, i) ==> Covered(s.hub, i))
  }

  /** Reservations are never empty, and capacity is only given back without a drain of its own once a close is owed or done. */
  predicate SoundWriter(s: State, w: Writer) {
    && w.op != Write([])
    && (w.pc.Reserve? ==> w.op.Write? && w.pc.available > 0)
    && (w.pc.Exchange? || w.pc.ConfirmOpen? || w.pc.SendData? ==> w.op.Write? && 0 < w.pc.size <= |w.op.bytes|)
    && (w.pc.Release? ==> w.pc.size > 0 && (s.closed || !s.receiving))
  }

  ghost predicate WakeInv(s: State) {
    && |s.hub.waiters| == |s.writers|
    && QueuedOnce(s.hub, Pushing(s))
    && (forall t :: ThreadMatches(s, t))
    && (forall i :: WillBeWoken(s, i))
    && (!s.receiving && !s.closed ==> s.reader.pc.StoreClosed?)
    && (forall i | 0 <= i < |s.writers| :: SoundWriter(s, s.writers[i]))
  }

  // ----- a drain's step -----

  lemma DrainKeeps(s: State, t: Thread)
    requires WakeInv(s) && PhaseOf(s, t) == Draining
    ensures WakeInv(s.(hub := DrainStep(s.hub, t)))
  {
    var s' := s.(hub := DrainStep(s.hub, t));
    DrainKeepsQueuedOnce(s.hub, Pushing(s), t);
    assert ThreadMatches(s, t) && Pushing(s') == Pushing(s);
    forall u
      ensures ThreadMatches(s', u)
    {
      assert ThreadMatches(s, u) && PhaseOf(s', u) == PhaseOf(s, u);
    }
    forall i
      ensures WillBeWoken(s', i)
    {
      assert WillBeWoken(s, i);
      if Waiting(s', i) {
        DrainKeepsFindable(s.hub, t, i);
        if Missed(s, i) {
          var u :| Covers(s.hub, u, i);
          DrainKeepsCovers(s.hub, t, u, i);
        }
      }
    }
    forall i | 0 <= i < |s'.writers|
      ensures SoundWriter(s', s'.writers[i])
    {
      assert SoundWriter(s, s.writers[i]);
    }
  }

  // ----- any other step -----

  /** What a step must show about the writers it concerns; everyone else keeps what they had. */
  ghost predicate MissesNothing(s: State, s': State, i: nat) {
    Waiting(s', i) ==>
      && (Waiting(s, i) || Findable(s'.hub, i))
      && (Missed(s', i) ==> (Waiting(s, i) && Missed(s, i)) || Covered(s'.hub, i))
  }

  lemma QuietKeepsWoken(s: State, s': State, t: Thread, i: nat)
    requires WillBeWoken(s, i) && Quiet(s.hub, s'.hub, t) && MissesNothing(s, s', i)
    ensures WillBeWoken(s', i)
  {
    if Waiting(s', i) && Waiting(s, i) {
      QuietKeepsFindable(s.hub, s'.hub, t, i);
      if Missed(s, i) {
        QuietKeepsCovered(s.hub, s'.hub, t, i);
      }
    }
  }

  /** A step that leaves the flags and the queue alone. */
  lemma PlainStepKeeps(s: State, s': State, t: Thread)
    requires WakeInv(s) && Quiet(s.hub, s'.hub, t)
    requires |s'.hub.waiters| == |s'.writers| && s'.hub.queue == s.hub.queue
    requires Pushing(s') == Pushing(s) && forall i: nat :: Flagged(s'.hub, i) == Flagged(s.hub, i)
    requires forall u | u != t :: PhaseOf(s', u) == PhaseOf(s, u)
    requires ThreadMatches(s', t)
    requires forall i :: MissesNothing(s, s', i)
    requires !s'.receiving && !s'.closed ==> s'.reader.pc.StoreClosed?
    requires forall i | 0 <= i < |s'.writers| :: SoundWriter(s', s'.writers[i])
    ensures WakeInv(s')
  {
    QuietKeepsQueuedOnce(s.hub, s'.hub, Pushing(s), Pushing(s'), t);
    forall u
      ensures ThreadMatches(s', u)
    {
      assert ThreadMatches(s, u);
    }
    forall i
      ensures WillBeWoken(s', i)
    {
      assert WillBeWoken(s, i) && MissesNothing(s, s', i);
      QuietKeepsWoken(s, s', t, i);
    }
  }

  // ----- writers -----

  /** The step of writer `i` is not a step of a drain it runs. */
  predicate OwnStep(s: State, i: nat) {
    && i < |s.writers|
    && (s.writers[i].pc.WriterDraining? ==> DrainDone(s.hub, WriterThread(i)))
  }

  lemma WriterGoIsQuiet(s: State, i: nat, lucky: bool)
    requires OwnStep(s, i) && ThreadMatches(s, WriterThread(i)) && |s.hub.waiters| == |s.writers|
    ensures Quiet(s.hub, WriterGo(s, i, lucky).hub, WriterThread(i))
    ensures ThreadMatches(WriterGo(s, i, lucky), WriterThread(i))
    ensures |WriterGo(s, i, lucky).hub.waiters| == |s.writers|
  {
  }

  lemma WriterGoKeepsSound(s: State, i: nat, lucky: bool)
    requires OwnStep(s, i) && SoundWriter(s, s.writers[i])
    ensures SoundWriter(s, WriterAfter(s, i, lucky))
  {
  }

  lemma WriterGoMissesNothing(s: State, i: nat, lucky: bool)
    requires WakeInv(s) && i < |s.writers|
    ensures MissesNothing(s, WriterGo(s, i, lucky), i)
  {
    var s' := WriterGo(s, i, lucky);
    if s.writers[i].pc.SwapQueued? && Waiting(s', i) {
      assert Held(s.hub, Pushing(s), i);
      if u :| Unqueues(s.hub, u, i) {
        assert Popped(s'.hub, u, i);
      }
    } else if s.writers[i].pc.PushWaiter? {
      assert s'.hub.queue[|s.hub.queue|] == i;
    } else if s.writers[i].pc.RecheckClosed? && !s.closed && !s.receiving {
      assert ThreadMatches(s, ReaderThread);
      assert Covers(s'.hub, ReaderThread, i);
    }
  }

  lemma WriterGoKeeps(s: State, i: nat, lucky: bool)
    requires WakeInv(s) && i < |s.writers|
    ensures WakeInv(WriterGo(s, i, lucky))
  {
    var s' := WriterGo(s, i, lucky);
    var t := WriterThread(i);
    assert ThreadMatches(s, t) && SoundWriter(s, s.writers[i]);
    if !OwnStep(s, i) {
      DrainKeeps(s, t);
      assert s' == s.(hub := DrainStep(s.hub, t));
    } else {
      WriterGoIsQuiet(s, i, lucky);
      WriterGoKeepsSound(s, i, lucky);
      WriterGoMissesNothing(s, i, lucky);
      WriterGoMoves(s, i, lucky);
      WriterMoveKeeps(s, s', i);
    }
  }

  /** What a step of writer `i` outside a drain may do to the flags, the queue and the counter. */
  ghost predicate WriterMove(s: State, s': State, i: nat) {
    && i < |s.writers| && |s'.writers| == |s.writers| == |s.hub.waiters| == |s'.hub.waiters|
    && (forall j | 0 <= j < |s.writers| && j != i :: s'.writers[j] == s.writers[j] && s'.hub.waiters[j] == s.hub.waiters[j])
    && s' == s.(buffered := s'.buffered, hub := s'.hub, sent := s'.sent, writers := s'.writers)
    && (s'.buffered < s.buffered ==> s.closed || !s.receiving)
    && (if i in Pushing(s) then i !in Pushing(s') && Flagged(s'.hub, i) == Flagged(s.hub, i) && s'.hub.queue == s.hub.queue + [i]
        else if i in Pushing(s') then !Flagged(s.hub, i) && Flagged(s'.hub, i) && s'.hub.queue == s.hub.queue
        else Flagged(s'.hub, i) == Flagged(s.hub, i) && s'.hub.queue == s.hub.queue)
  }

  lemma WriterGoMoves(s: State, i: nat, lucky: bool)
    requires OwnStep(s, i) && SoundWriter(s, s.writers[i]) && |s.hub.waiters| == |s.writers|
    ensures WriterMove(s, WriterGo(s, i, lucky), i)
  {
  }

  lemma WriterMoveKeeps(s: State, s': State, i: nat)
    requires WakeInv(s) && WriterMove(s, s', i)
    requires Quiet(s.hub, s'.hub, WriterThread(i)) && ThreadMatches(s', WriterThread(i))
    requires |s'.hub.waiters| == |s'.writers|
    requires MissesNothing(s, s', i) && SoundWriter(s', s'.writers[i])
    ensures WakeInv(s')
  {
    assert forall j | j != i :: j in Pushing(s') <==> j in Pushing(s);
    QuietKeepsQueuedOnce(s.hub, s'.hub, Pushing(s), Pushing(s'), WriterThread(i));
    forall u
      ensures ThreadMatches(s', u)
    {
      assert ThreadMatches(s, u);
    }
    forall j
      ensures WillBeWoken(s', j)
    {
      assert WillBeWoken(s, j);
      QuietKeepsWoken(s, s', WriterThread(i), j);
    }
    forall j | 0 <= j < |s'.writers|
      ensures SoundWriter(s', s'.writers[j])
    {
      assert j != i ==> SoundWriter(s, s.writers[j]);
    }
  }

  // ----- calls on a writer, the reader and the closers -----

  /** A step of `t` that leaves the waiters and every other writer's place in its program alone. */
  ghost predicate CallMove(s: State, s': State, t: Thread) {
    && |s'.hub.waiters| == |s'.writers| && |s.hub.waiters| == |s.writers| <= |s'.writers|
    && s'.hub.queue == s.hub.queue
    && (forall j | 0 <= j < |s.hub.waiters| :: s'.hub.waiters[j] == s.hub.waiters[j])
    && (forall j | |s.hub.waiters| <= j < |s'.hub.waiters| :: s'.hub.waiters[j] == Waiter(false, false))
    && (forall j | 0 <= j < |s.writers| :: s'.writers[j].pc == s.writers[j].pc || Outside(s.writers[j], s'.writers[j]))
    && (forall j | |s.writers| <= j < |s'.writers| :: s'.writers[j].pc.Rest?)
    && s'.capacity == s.capacity
    && (|| (t in s'.hub.drains && s'.hub.drains[t].Owed?)
        || ((s'.closed ==> s.closed) && (s.receiving ==> s'.receiving) && s'.buffered >= s.buffered))
  }

  /** The writer was called between its polls, and no longer waits for anything. */
  predicate Outside(w: Writer, w': Writer) {
    && (w.pc.Rest? || w.pc.Parked?)
    && (w'.pc.Rest? || w'.pc.Dropped? || w'.pc.LoadClosed? || w'.pc.SendClose?)
  }

  lemma CallMoveKeeps(s: State, s': State, t: Thread)
    requires WakeInv(s) && CallMove(s, s', t)
    requires Quiet(s.hub, s'.hub, t) && ThreadMatches(s', t)
    requires forall u | u != t :: PhaseOf(s', u) == PhaseOf(s, u)
    requires !s'.receiving && !s'.closed ==> s'.reader.pc.StoreClosed?
    requires forall i | 0 <= i < |s'.writers| :: SoundWriter(s', s'.writers[i])
    ensures WakeInv(s')
  {
    assert Pushing(s') == Pushing(s);
    forall j: nat
      ensures MissesNothing(s, s', j)
    {
      assert t in s'.hub.drains && s'.hub.drains[t].Owed? ==> Covers(s'.hub, t, j);
    }
    PlainStepKeeps(s, s', t);
  }

  lemma WriterCallMoves(s: State, i: nat, command: WriterCommand)
    requires |s.hub.waiters| == |s.writers| && i < |s.writers|
    requires ThreadMatches(s, WriterThread(i)) && ThreadMatches(s, WriterThread(|s.writers|))
    ensures var s' := WriterCall(s, i, command);
      && CallMove(s, s', WriterThread(i)) && Quiet(s.hub, s'.hub, WriterThread(i)) && ThreadMatches(s', WriterThread(i))
      && s'.reader == s.reader && s'.closers == s.closers
      && (s.closed ==> s'.closed) && s'.receiving == s.receiving
      && (forall j | 0 <= j < |s.writers| && j != i :: s'.writers[j] == s.writers[j])
  {
  }

  lemma WriterCallKeepsSound(s: State, i: nat, command: WriterCommand)
    requires i < |s.writers| && forall j | 0 <= j < |s.writers| :: SoundWriter(s, s.writers[j])
    ensures forall j | 0 <= j < |WriterCall(s, i, command).writers| ::
      SoundWriter(WriterCall(s, i, command), WriterCall(s, i, command).writers[j])
  {
    assert SoundWriter(s, s.writers[i]);
  }

  lemma WriterCallKeeps(s: State, i: nat, command: WriterCommand)
    requires WakeInv(s) && i < |s.writers|
    ensures WakeInv(WriterCall(s, i, command))
  {
    assert ThreadMatches(s, WriterThread(i)) && ThreadMatches(s, WriterThread(|s.writers|));
    WriterCallMoves(s, i, command);
    WriterCallKeepsSound(s, i, command);
    CallMoveKeeps(s, WriterCall(s, i, command), WriterThread(i));
  }

  lemma ReaderMoves(s: State, command: ReaderCommand)
    requires |s.hub.waiters| == |s.writers|
    requires ThreadMatches(s, ReaderThread)
    requires !s.receiving && !s.closed ==> s.reader.pc.StoreClosed?
    requires !command.GoReader? || PhaseOf(s, ReaderThread) != Draining || DrainDone(s.hub, ReaderThread)
    ensures var s' := Step(s, ReaderAct(command));
      && CallMove(s, s', ReaderThread) && Quiet(s.hub, s'.hub, ReaderThread) && ThreadMatches(s', ReaderThread)
      && (!s'.receiving && !s'.closed ==> s'.reader.pc.StoreClosed?)
      && s'.writers == s.writers && s'.closers == s.closers
      && (s.closed ==> s'.closed) && (!s.receiving ==> !s'.receiving)
  {
  }

  lemma CloserMoves(s: State, i: nat, command: CloserCommand)
    requires |s.hub.waiters| == |s.writers| && i < |s.closers|
    requires ThreadMatches(s, CloserThread(i)) && ThreadMatches(s, CloserThread(|s.closers|))
    requires !command.GoCloser? || PhaseOf(s, CloserThread(i)) != Draining || DrainDone(s.hub, CloserThread(i))
    ensures var s' := Step(s, CloserAct(i, command));
      && CallMove(s, s', CloserThread(i)) && Quiet(s.hub, s'.hub, CloserThread(i)) && ThreadMatches(s', CloserThread(i))
      && s'.writers == s.writers && s'.reader == s.reader
      && (s.closed ==> s'.closed) && s'.receiving == s.receiving
      && (forall u | u != CloserThread(i) :: PhaseOf(s', u) == PhaseOf(s, u))
  {
  }

  lemma StaysSound(s: State, s': State)
    requires WakeInv(s) && s'.writers == s.writers
    requires (s.closed ==> s'.closed) && (!s.receiving ==> !s'.receiving)
    ensures forall i | 0 <= i < |s'.writers| :: SoundWriter(s', s'.writers[i])
  {
    forall i | 0 <= i < |s'.writers|
      ensures SoundWriter(s', s'.writers[i])
    {
      assert SoundWriter(s, s.writers[i]);
    }
  }

  lemma ReaderKeeps(s: State, command: ReaderCommand)
    requires WakeInv(s)
    ensures WakeInv(Step(s, ReaderAct(command)))
  {
    assert ThreadMatches(s, ReaderThread);
    if command.GoReader? && PhaseOf(s, ReaderThread) == Draining && !DrainDone(s.hub, ReaderThread) {
      DrainKeeps(s, ReaderThread);
      assert s.delivered + [] == s.delivered;
      assert Step(s, ReaderAct(command)) == s.(hub := DrainStep(s.hub, ReaderThread));
    } else {
      ReaderMoves(s, command);
      StaysSound(s, Step(s, ReaderAct(command)));
      CallMoveKeeps(s, Step(s, ReaderAct(command)), ReaderThread);
    }
  }

  lemma CloserKeeps(s: State, i: nat, command: CloserCommand)
    requires WakeInv(s) && i < |s.closers|
    ensures WakeInv(Step(s, CloserAct(i, command)))
  {
    assert ThreadMatches(s, CloserThread(i)) && ThreadMatches(s, CloserThread(|s.closers|));
    if command.GoCloser? && PhaseOf(s, CloserThread(i)) == Draining && !DrainDone(s.hub, CloserThread(i)) {
      DrainKeeps(s, CloserThread(i));
    } else {
      CloserMoves(s, i, command);
      StaysSound(s, Step(s, CloserAct(i, command)));
      CallMoveKeeps(s, Step(s, CloserAct(i, command)), CloserThread(i));
    }
  }

  lemma StepKeeps(s: State, a: Action)
    requires WakeInv(s)
    ensures WakeInv(Step(s, a))
  {
    match a
    case WriterAct(i, command) =>
      if i < |s.writers| {
        if command.Go? { WriterGoKeeps(s, i, command.lucky); } else { WriterCallKeeps(s, i, command); }
      }
    case ReaderAct(command) => ReaderKeeps(s, command);
    case CloserAct(i, command) => if i < |s.closers| { CloserKeeps(s, i, command); }
  }

  lemma {:induction false} RunsKeep(capacity: nat, schedule: seq<Action>)
    ensures WakeInv(Run(capacity, schedule))
  {
    if schedule == [] {
      var s := Init(capacity);
      assert Pushing(s) == {};
    } else {
      RunsKeep(capacity, schedule[..|schedule| - 1]);
      StepKeeps(Run(capacity, schedule[..|schedule| - 1]), schedule[|schedule| - 1]);
    }
  }

  // ----- main results -----

  /** Thread `t` wakes the sleeping writer `i` within `n` more of its own steps. */
  ghost predicate Due(s: State, t: Thread, i: nat, n: int) {
    Reaches(s.hub, t, i, if PhaseOf(s, t) == Announcing then n - 1 else n)
  }

  ghost predicate DueWithin(s: State, i: nat, n: int) {
    exists t :: Due(s, t, i, n)
  }

  /** Writer `i` is asleep: its last poll answered Pending and nothing has woken it since. */
  predicate Asleep(s: State, i: nat) {
    i < |s.writers| && s.writers[i].pc.Parked? && Registered(s.hub, i)
  }

  /** In every run, a sleeping writer that could proceed, or must fail, is covered by a drain that is owed or under way. */
  lemma NoLostWakeup(capacity: nat, schedule: seq<Action>, i: nat)
    requires Asleep(Run(capacity, schedule), i)
    requires Run(capacity, schedule).buffered < Run(capacity, schedule).capacity || Run(capacity, schedule).closed
    ensures exists t :: Covers(Run(capacity, schedule).hub, t, i)
    ensures DueWithin(Run(capacity, schedule), i, 3 * |Run(capacity, schedule).hub.queue| + 3)
  {
    RunsKeep(capacity, schedule);
    var s := Run(capacity, schedule);
    assert WillBeWoken(s, i) && Waiting(s, i) && Missed(s, i);
    CoveredIsReached(s.hub, i);
    var t :| Reaches(s.hub, t, i, 3 * |s.hub.queue| + 2);
    assert Due(s, t, i, 3 * |s.hub.queue| + 3) by {
      ReachesLater(s.hub, t, i, 3 * |s.hub.queue| + 2);
    }
  }

  /** Once every call has returned, only writers of a full, open pipe are asleep. */
  lemma SleepersOfAQuietPipeAreBlocked(capacity: nat, schedule: seq<Action>, i: nat)
    requires forall t :: PhaseOf(Run(capacity, schedule), t) == Working
    requires Asleep(Run(capacity, schedule), i)
    ensures Run(capacity, schedule).buffered >= Run(capacity, schedule).capacity
    ensures !Run(capacity, schedule).closed && Run(capacity, schedule).receiving
  {
    RunsKeep(capacity, schedule);
    var s := Run(capacity, schedule);
    forall t
      ensures !Covers(s.hub, t, i)
    {
      assert ThreadMatches(s, t);
    }
    assert WillBeWoken(s, i) && Waiting(s, i);
  }

  predicate IsStepOf(a: Action, t: Thread) {
    match t
    case ReaderThread => a == ReaderAct(GoReader)
    case WriterThread(k) => a.WriterAct? && a.index == k && a.writerCommand.Go?
    case CloserThread(k) => a == CloserAct(k, GoCloser)
  }

  lemma QuietKeepsDue(s: State, s': State, t: Thread, u: Thread, i: nat, n: int)
    requires Due(s, u, i, n) && Quiet(s.hub, s'.hub, t)
    requires PhaseOf(s', u) == PhaseOf(s, u)
    ensures Due(s', u, i, n)
  {
    QuietKeepsReached(s.hub, s'.hub, t, u, i, if PhaseOf(s, u) == Announcing then n - 1 else n);
  }

  /** A thread announcing its change reaches `wake_writers` with its next step. */
  lemma AnnouncingEnters(s: State, a: Action, t: Thread)
    requires WakeInv(s) && PhaseOf(s, t) == Announcing && IsStepOf(a, t)
    ensures PhaseOf(Step(s, a), t) == Draining && Step(s, a).hub == s.hub
  {
  }

  lemma DrainApproachesDue(s: State, s': State, u: Thread, t: Thread, i: nat, n: int)
    requires Due(s, t, i, n) && Registered(s'.hub, i)
    requires s'.hub == DrainStep(s.hub, u) && PhaseOf(s, u) == Draining
    requires PhaseOf(s', t) == PhaseOf(s, t) && PhaseOf(s', u) == PhaseOf(s, u)
    ensures DueWithin(s', i, if u == t then n - 1 else n)
  {
    var m := if PhaseOf(s, t) == Announcing then n - 1 else n;
    DrainApproaches(s.hub, u, t, i, m);
    if u != t && PhaseOf(s, t) == Announcing && Reaches(s'.hub, u, i, m) {
      ReachesLater(s'.hub, u, i, m);
    }
    assert Due(s', t, i, if u == t then n - 1 else n) || Due(s', u, i, if u == t then n - 1 else n);
  }

  /**
    Between its falling asleep and its waking, no step of anybody puts writer
    `i` further off, and each step of the thread that is to wake it, or of the
    one that takes this over, brings it nearer.
  */
  lemma WakeupsApproach(s: State, a: Action, t: Thread, i: nat, n: int)
    requires WakeInv(s) && Asleep(s, i) && Due(s, t, i, n)
    requires Asleep(Step(s, a), i)
    ensures DueWithin(Step(s, a), i, if IsStepOf(a, t) then n - 1 else n)
  {
    var s' := Step(s, a);
    var u := ThreadOf(a);
    assert ThreadMatches(s, t) && ThreadMatches(s, u);
    if IsStep(a) && PhaseOf(s, u) == Draining && !DrainDone(s.hub, u) {
      StepDrains(s, a, u);
      DrainApproachesDue(s, s', u, t, i, n);
    } else if IsStepOf(a, t) {
      AnnouncingEnters(s, a, t);
      assert Due(s', t, i, n - 1);
    } else {
      StepIsQuiet(s, a);
      StepKeepsPhase(s, a, t);
      QuietKeepsDue(s, s', u, t, i, n);
    }
  }

  function ThreadOf(a: Action): Thread {
    match a
    case WriterAct(k, _) => WriterThread(k)
    case ReaderAct(_) => ReaderThread
    case CloserAct(k, _) => CloserThread(k)
  }

  predicate IsStep(a: Action) {
    IsStepOf(a, ThreadOf(a))
  }

  lemma StepDrains(s: State, a: Action, u: Thread)
    requires IsStepOf(a, u) && PhaseOf(s, u) == Draining && !DrainDone(s.hub, u)
    ensures Step(s, a).hub == DrainStep(s.hub, u)
    ensures forall t :: PhaseOf(Step(s, a), t) == PhaseOf(s, t)
  {
  }

  lemma StepIsQuiet(s: State, a: Action)
    requires WakeInv(s) && !(IsStep(a) && PhaseOf(s, ThreadOf(a)) == Draining && !DrainDone(s.hub, ThreadOf(a)))
    ensures Quiet(s.hub, Step(s, a).hub, ThreadOf(a))
  {
    assert ThreadMatches(s, ThreadOf(a)) && ThreadMatches(s, WriterThread(|s.writers|)) && ThreadMatches(s, CloserThread(|s.closers|));
    match a
    case WriterAct(i, command) =>
      if i < |s.writers| {
        if command.Go? { WriterGoIsQuiet(s, i, command.lucky); } else { WriterCallMoves(s, i, command); }
      }
    case ReaderAct(command) => ReaderMoves(s, command);
    case CloserAct(i, command) => if i < |s.closers| { CloserMoves(s, i, command); }
  }

  lemma StepKeepsPhase(s: State, a: Action, t: Thread)
    requires !IsStepOf(a, t) && ThreadMatches(s, t) && t in s.hub.drains
    ensures PhaseOf(Step(s, a), t) == PhaseOf(s, t)
  {
  }
}
