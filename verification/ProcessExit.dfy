/**
  How a process ends, in rust/src/process.rs: requests to terminate, kill or
  time out race with each other and with the guest's own exit, while its owner
  waits. Each atomic access or signal is one step; steps interleave freely.
*/
module ProcessExit {
  import opened Bytes

  datatype Request = Terminate | Kill | TimeOut

  datatype Reason = Exited | Terminated | TimedOut

  datatype Output = Output(reason: Reason, code: int)

  /** How far a request has come: `record_exit_if_running` is a check and an exchange. */
  datatype Progress = Asked | FoundRunning | Recorded | Signalled | Done | FoundExited

  datatype Requester = Requester(request: Request, progress: Progress)

  /**
    `exitCode`: what the backend's join answers. `exit`: the write-once record.
    `outputs`: what `wait` and `try_wait` have returned, in order.
  */
  datatype State = State(
    exitCode: Option<int>, exit: Option<Request>, requesters: seq<Requester>,
    terminateSignalled: bool, forced: bool, stdinClosed: bool,
    completed: Option<Output>, outputs: seq<Output>)

  datatype Event =
    | Ask(request: Request)
    | Go(requester: nat)
    | GuestExits(code: int)
    | Wait

  const INIT := State(None, None, [], false, false, false, None, [])

  /** `exit_state` */
  function ExitState(exit: Option<Request>, backend: int): Output {
    match exit
    case None => Output(Exited, backend)
    case Some(Terminate) => Output(Terminated, 143)
    case Some(Kill) => Output(Terminated, 137)
    case Some(TimeOut) => Output(TimedOut, 137)
  }

  function NextProgress(s: State, r: Requester): Progress {
    match r.progress
    case Asked => if s.exitCode.Some? then FoundExited else FoundRunning
    case FoundRunning => Recorded
    case Recorded => Signalled
    case Signalled => Done
    case _ => r.progress
  }

  /** Whether this step sends the request's signal: SIGTERM, or a forced exit. */
  predicate Signals(r: Requester, terminate: bool) {
    r.progress.Recorded? && r.request.Terminate? == terminate
  }

  /** One step of `signal_terminate`, `kill` or `kill_timed_out`. In WebAssembly a forced exit completes the join state itself. */
  function Proceed(s: State, i: nat, wasm: bool): State
    requires i < |s.requesters|
  {
    var r := s.requesters[i];
    s.(requesters := s.requesters[i := r.(progress := NextProgress(s, r))],
       exit := if r.progress.FoundRunning? && s.exit.None? then Some(r.request) else s.exit,
       exitCode := if Signals(r, false) && wasm && s.exitCode.None? then Some(137) else s.exitCode,
       terminateSignalled := s.terminateSignalled || Signals(r, true),
       forced := s.forced || Signals(r, false),
       stdinClosed := s.stdinClosed || r.progress.Signalled?)
  }

  function Step(s: State, e: Event, wasm: bool): State {
    match e
    case Ask(request) => s.(requesters := s.requesters + [Requester(request, Asked)])
    case Go(i) => if i < |s.requesters| then Proceed(s, i, wasm) else s
    case GuestExits(code) => if s.exitCode.None? then s.(exitCode := Some(code)) else s
    case Wait =>
      if s.completed.Some? then s.(outputs := s.outputs + [s.completed.value])
      else if s.exitCode.Some? then
        var output := ExitState(s.exit, s.exitCode.value);
        s.(completed := Some(output), outputs := s.outputs + [output])
      else s
  }

  function Run(events: seq<Event>, wasm: bool): State {
    if events == [] then INIT else Step(Run(events[..|events| - 1], wasm), events[|events| - 1], wasm)
  }

  // ----- what every step keeps -----

  predicate PastCheck(r: Requester) {
    r.progress.FoundRunning? || PastRecord(r)
  }

  predicate PastRecord(r: Requester) {
    r.progress.Recorded? || PastSignal(r)
  }

  predicate PastSignal(r: Requester) {
    r.progress.Signalled? || r.progress.Done?
  }

  predicate SoundRequester(s: State, r: Requester) {
    && (r.progress.FoundExited? ==> s.exitCode.Some?)
    && (PastRecord(r) ==> s.exit.Some?)
    && (PastSignal(r) ==> if r.request.Terminate? then s.terminateSignalled else s.forced)
    && (r.progress.Done? ==> s.stdinClosed)
  }

  /** The record names a request that found the process running. */
  ghost predicate Owned(s: State) {
    s.exit.Some? ==> exists i :: 0 <= i < |s.requesters| && PastRecord(s.requesters[i]) && s.requesters[i].request == s.exit.value
  }

  ghost predicate Inv(s: State) {
    && (forall i | 0 <= i < |s.requesters| :: SoundRequester(s, s.requesters[i]))
    && Owned(s)
    && (forall k | 0 <= k < |s.outputs| :: s.completed == Some(s.outputs[k]))
    && (s.completed.Some? ==> s.exitCode.Some? && s.completed.value == ExitStateThen(s))
  }

  /** What was returned: the backend's code if nothing was recorded then, else what is recorded now as well. */
  function ExitStateThen(s: State): Output
    requires s.completed.Some? && s.exitCode.Some?
  {
    if s.completed.value.reason.Exited? then Output(Exited, s.exitCode.value) else ExitState(s.exit, s.exitCode.value)
  }

  lemma ProceedIsSound(s: State, i: nat, wasm: bool, k: nat)
    requires i < |s.requesters| && k < |s.requesters|
    requires SoundRequester(s, s.requesters[i]) && SoundRequester(s, s.requesters[k])
    ensures SoundRequester(Proceed(s, i, wasm), Proceed(s, i, wasm).requesters[k])
  {
  }

  lemma ProceedIsOwned(s: State, i: nat, wasm: bool)
    requires i < |s.requesters| && Owned(s)
    ensures Owned(Proceed(s, i, wasm))
  {
    var t := Proceed(s, i, wasm);
    if s.exit.Some? {
      var k :| 0 <= k < |s.requesters| && PastRecord(s.requesters[k]) && s.requesters[k].request == s.exit.value;
      assert PastRecord(t.requesters[k]) && t.requesters[k].request == t.exit.value;
    } else if t.exit.Some? {
      assert PastRecord(t.requesters[i]);
    }
  }

  lemma ProceedKeeps(s: State, i: nat, wasm: bool)
    requires Inv(s) && i < |s.requesters|
    ensures Inv(Proceed(s, i, wasm))
  {
    ProceedIsOwned(s, i, wasm);
    forall k | 0 <= k < |s.requesters| ensures SoundRequester(Proceed(s, i, wasm), Proceed(s, i, wasm).requesters[k]) {
      ProceedIsSound(s, i, wasm, k);
    }
  }

  lemma StepKeeps(s: State, e: Event, wasm: bool)
    requires Inv(s)
    ensures Inv(Step(s, e, wasm))
  {
    var t := Step(s, e, wasm);
    if e.Go? && e.requester < |s.requesters| {
      ProceedKeeps(s, e.requester, wasm);
    } else {
      forall k | 0 <= k < |t.requesters| ensures SoundRequester(t, t.requesters[k]) {
        if k < |s.requesters| { assert SoundRequester(s, s.requesters[k]); }
      }
      if s.exit.Some? {
        var k :| 0 <= k < |s.requesters| && PastRecord(s.requesters[k]) && s.requesters[k].request == s.exit.value;
        assert PastRecord(t.requesters[k]);
      }
    }
  }

  lemma {:induction false} RunsKeep(events: seq<Event>, wasm: bool)
    ensures Inv(Run(events, wasm))
  {
    if events != [] {
      RunsKeep(events[..|events| - 1], wasm);
      StepKeeps(Run(events[..|events| - 1], wasm), events[|events| - 1], wasm);
    }
  }

  // ----- main results -----

  /** The first request on record is never replaced: a terminate that escalates to a kill still reports a terminate. */
  lemma {:induction false} FirstRequestStays(events: seq<Event>, more: seq<Event>, wasm: bool)
    requires Run(events, wasm).exit.Some?
    ensures Run(events + more, wasm).exit == Run(events, wasm).exit
  {
    if more == [] {
      assert events + more == events;
    } else {
      assert (events + more)[..|events + more| - 1] == events + more[..|more| - 1];
      FirstRequestStays(events, more[..|more| - 1], wasm);
    }
  }

  /** However requests and waits race, every wait that returns gives the same output. */
  lemma WaitsAgree(events: seq<Event>, wasm: bool, j: nat, k: nat)
    requires j < |Run(events, wasm).outputs| && k < |Run(events, wasm).outputs|
    ensures Run(events, wasm).outputs[j] == Run(events, wasm).outputs[k]
  {
    RunsKeep(events, wasm);
  }

  /** How a request is reported: 128 and SIGTERM, or 128 and SIGKILL. */
  predicate Reports(o: Output, request: Request) {
    match request
    case Terminate => o == Output(Terminated, 128 + 15)
    case Kill => o == Output(Terminated, 128 + 9)
    case TimeOut => o == Output(TimedOut, 128 + 9)
  }

  /** The first wait that finds the process exited reports what is on record, or else the process's own code; later ones repeat it. */
  lemma WaitsReport(s: State, wasm: bool)
    ensures var t := Step(s, Wait, wasm);
      if s.completed.Some? then t == s.(outputs := s.outputs + [s.completed.value])
      else if s.exitCode.None? then t == s
      else
        && t.completed.Some? && t == s.(completed := t.completed, outputs := s.outputs + [t.completed.value])
        && (if s.exit.Some? then Reports(t.completed.value, s.exit.value) else t.completed == Some(Output(Exited, s.exitCode.value)))
  {
  }

  /** A request that nothing disturbs: on a running process it is put on record, sends its signal and closes the input, in four steps. */
  lemma RequestsGoThrough(s: State, request: Request, wasm: bool)
    ensures var n := |s.requesters|;
      var s0 := Step(s, Ask(request), wasm);
      var s1 := Step(s0, Go(n), wasm);
      var s4 := Step(Step(Step(s1, Go(n), wasm), Go(n), wasm), Go(n), wasm);
      if s.exitCode.Some? then s1 == s4 == s.(requesters := s.requesters + [Requester(request, FoundExited)])
      else s4 == s.(requesters := s.requesters + [Requester(request, Done)],
                    exit := if s.exit.Some? then s.exit else Some(request),
                    terminateSignalled := s.terminateSignalled || request == Terminate,
                    forced := s.forced || request != Terminate,
                    exitCode := if wasm && request != Terminate then Some(128 + 9) else None,
                    stdinClosed := true)
  {
    var n := |s.requesters|;
    var s0 := Step(s, Ask(request), wasm);
    var was := s0.requesters;
    assert was[n] == Requester(request, Asked);
    assert forall p, q :: was[n := Requester(request, p)][n := Requester(request, q)] == was[n := Requester(request, q)];
    assert forall p :: was[n := Requester(request, p)] == s.requesters + [Requester(request, p)];
  }

  /** Nothing is signalled, closed or ended but by a request that is that far, or by the guest itself. */
  ghost predicate HasCauses(s: State, events: seq<Event>, wasm: bool) {
    && (s.terminateSignalled ==> exists i :: 0 <= i < |s.requesters| && PastSignal(s.requesters[i]) && s.requesters[i].request == Terminate)
    && (s.forced ==> exists i :: 0 <= i < |s.requesters| && PastSignal(s.requesters[i]) && s.requesters[i].request != Terminate)
    && (s.stdinClosed ==> exists i :: 0 <= i < |s.requesters| && s.requesters[i].progress == Done)
    && (s.exitCode.Some? ==> GuestExits(s.exitCode.value) in events || (wasm && s.forced && s.exitCode.value == 128 + 9))
  }

  lemma CausesRemain(s: State, e: Event, wasm: bool, i: nat)
    requires i < |s.requesters|
    ensures var t := Step(s, e, wasm);
      && i < |t.requesters| && t.requesters[i].request == s.requesters[i].request
      && (PastSignal(s.requesters[i]) ==> PastSignal(t.requesters[i]))
      && (s.requesters[i].progress == Done ==> t.requesters[i].progress == Done)
  {
  }

  lemma StepHasCauses(s: State, events: seq<Event>, e: Event, wasm: bool)
    requires HasCauses(s, events, wasm)
    ensures HasCauses(Step(s, e, wasm), events + [e], wasm)
  {
    var t := Step(s, e, wasm);
    if s.terminateSignalled {
      var i :| 0 <= i < |s.requesters| && PastSignal(s.requesters[i]) && s.requesters[i].request == Terminate;
      CausesRemain(s, e, wasm, i);
    } else if t.terminateSignalled {
      assert PastSignal(t.requesters[e.requester]);
    }
    if s.forced {
      var i :| 0 <= i < |s.requesters| && PastSignal(s.requesters[i]) && s.requesters[i].request != Terminate;
      CausesRemain(s, e, wasm, i);
    } else if t.forced {
      assert PastSignal(t.requesters[e.requester]);
    }
    if s.stdinClosed {
      var i :| 0 <= i < |s.requesters| && s.requesters[i].progress == Done;
      CausesRemain(s, e, wasm, i);
    } else if t.stdinClosed {
      assert t.requesters[e.requester].progress == Done;
    }
  }

  /** Over every run: a signal was sent, the input closed or the process ended only by a request that got that far, or by the guest. */
  lemma {:induction false} EffectsHaveCauses(events: seq<Event>, wasm: bool)
    ensures HasCauses(Run(events, wasm), events, wasm)
  {
    if events != [] {
      var front, e := events[..|events| - 1], events[|events| - 1];
      EffectsHaveCauses(front, wasm);
      StepHasCauses(Run(front, wasm), front, e, wasm);
      assert front + [e] == events;
    }
  }

  /**
    A process is reported as terminated or timed out only for a request that
    found it running, and with that request's code; otherwise with its own.
  */
  lemma ReasonsAreTrue(events: seq<Event>, wasm: bool)
    requires Run(events, wasm).completed.Some?
    ensures var s := Run(events, wasm);
      var o := s.completed.value;
      && (o.reason.Exited? ==> s.exitCode == Some(o.code))
      && (!o.reason.Exited? ==> exists i :: 0 <= i < |s.requesters| && PastCheck(s.requesters[i])
                                            && Reports(o, s.requesters[i].request))
  {
    RunsKeep(events, wasm);
    var s := Run(events, wasm);
    if !s.completed.value.reason.Exited? {
      var i :| 0 <= i < |s.requesters| && PastRecord(s.requesters[i]) && s.requesters[i].request == s.exit.value;
      assert PastCheck(s.requesters[i]);
    }
  }

  /**
    A request that is through found the process already exited, or has sent its
    own signal and closed the input, even when another was on record first.
  */
  lemma RequestsAreCarriedOut(events: seq<Event>, wasm: bool, i: nat)
    requires i < |Run(events, wasm).requesters|
    ensures var s := Run(events, wasm);
      && (s.requesters[i].progress.FoundExited? ==> s.exitCode.Some?)
      && (s.requesters[i].progress.Done? ==>
            s.exit.Some? && s.stdinClosed && if s.requesters[i].request.Terminate? then s.terminateSignalled else s.forced)
  {
    RunsKeep(events, wasm);
    assert SoundRequester(Run(events, wasm), Run(events, wasm).requesters[i]);
  }

  /** An exit between a request's check and its record is reported as that request's, if it is the first and nobody waited in between. */
  lemma ExitInTheWindow(s: State, i: nat, code: int, wasm: bool)
    requires i < |s.requesters| && s.requesters[i].progress.FoundRunning?
    requires s.exit.None? && s.exitCode.None? && s.completed.None?
    ensures var exited := Step(s, GuestExits(code), wasm);
      && Step(Step(exited, Go(i), wasm), Wait, wasm).completed.Some?
      && Reports(Step(Step(exited, Go(i), wasm), Wait, wasm).completed.value, s.requesters[i].request)
      && Step(Step(exited, Wait, wasm), Go(i), wasm).completed == Some(Output(Exited, code))
  {
  }

  // ----- the control -----

  /** `ProcessControl` and what its owner has cached. */
  class ProcessControl {
    const wasm: bool
    var exitCode: Option<int>
    var exit: Option<Request>
    var terminateSignalled: bool
    var forced: bool
    var stdinClosed: bool
    var completed: Option<Output>

    constructor (wasm: bool)
      ensures this.wasm == wasm && exitCode.None? && exit.None? && completed.None?
      ensures !terminateSignalled && !forced && !stdinClosed
    {
      this.wasm := wasm;
      exitCode, exit, completed := None, None, None;
      terminateSignalled, forced, stdinClosed := false, false, false;
    }

    method RecordExitIfRunning(requested: Request) returns (running: bool)
      modifies this`exit
      ensures running <==> exitCode.None?
      ensures exit == if running && old(exit).None? then Some(requested) else old(exit)
    {
      if exitCode.Some? { return false; }
      if exit.None? { exit := Some(requested); }
      running := true;
    }

    /** A request carried out without interruption. */
    method Carry(requested: Request)
      modifies this
      ensures completed == old(completed)
      ensures old(exitCode).Some? ==> unchanged(this)
      ensures old(exitCode).None? ==> stdinClosed && exit == if old(exit).None? then Some(requested) else old(exit)
      ensures old(exitCode).None? ==>
        if requested.Terminate? then terminateSignalled && forced == old(forced) && exitCode.None?
        else forced && terminateSignalled == old(terminateSignalled) && exitCode == if wasm then Some(137) else None
    {
      var running := RecordExitIfRunning(requested);
      if !running { return; }
      if requested.Terminate? {
        terminateSignalled := true;
      } else {
        forced := true;
        if wasm && exitCode.None? { exitCode := Some(137); }
      }
      stdinClosed := true;
    }

    method TryWait() returns (output: Option<Output>)
      modifies this`completed
      ensures old(completed).Some? ==> output == completed == old(completed)
      ensures old(completed).None? ==>
        output == completed == if exitCode.Some? then Some(ExitState(exit, exitCode.value)) else None
    {
      if completed.Some? { return completed; }
      if exitCode.None? { return None; }
      completed := Some(ExitState(exit, exitCode.value));
      output := completed;
    }
  }
}
