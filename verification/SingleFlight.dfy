/**
  Single-flight acquisition of rust/src/package_progress.rs: callers of one
  package hash share one future, held weakly by the loader. A step is one
  critical section of `load`, the completion of a shared future, or a caller
  returning or being dropped; steps interleave freely.
*/
module SingleFlight {
  import opened Bytes

  type Hash = string

  datatype Outcome = Loaded(package: nat) | Failed(error: nat)

  /** A `Shared` future with its strong count. At zero the future is gone, finished or not. */
  datatype Acquisition = Acquisition(hash: Hash, strong: nat, outcome: Option<Outcome>)

  /** One call of `load`: it holds the future of its flight while it waits. */
  datatype Caller =
    | Waiting(hash: Hash, flight: nat)
    | Returned(hash: Hash, flight: nat, outcome: Outcome)
    | Dropped(hash: Hash, flight: nat)

  /** `flights` maps a hash to a weak reference. Acquisitions are never forgotten here, so that they can be counted. */
  datatype State = State(flights: map<Hash, nat>, acquisitions: seq<Acquisition>, callers: seq<Caller>)

  datatype Event =
    | Join(hash: Hash)
    | Complete(flight: nat, outcome: Outcome)
    | Return(caller: nat)
    | Drop(caller: nat)

  const INIT := State(map[], [], [])

  /** Whether a weak reference can be upgraded. */
  predicate Live(acquisitions: seq<Acquisition>, f: nat) {
    f < |acquisitions| && acquisitions[f].strong > 0
  }

  function Retained(flights: map<Hash, nat>, acquisitions: seq<Acquisition>): map<Hash, nat> {
    map h | h in flights && Live(acquisitions, flights[h]) :: flights[h]
  }

  /** The critical section of `load`. */
  function Joined(s: State, h: Hash): State {
    if h in s.flights && Live(s.acquisitions, s.flights[h]) then
      var f := s.flights[h];
      State(s.flights, s.acquisitions[f := s.acquisitions[f].(strong := s.acquisitions[f].strong + 1)],
            s.callers + [Waiting(h, f)])
    else
      var f := |s.acquisitions|;
      State(Retained(s.flights, s.acquisitions)[h := f], s.acquisitions + [Acquisition(h, 1, None)],
            s.callers + [Waiting(h, f)])
  }

  /** A holder lets go of the future. */
  function Released(acquisitions: seq<Acquisition>, f: nat): seq<Acquisition> {
    if Live(acquisitions, f) then acquisitions[f := acquisitions[f].(strong := acquisitions[f].strong - 1)] else acquisitions
  }

  function Leave(s: State, c: nat, caller: Caller): State
    requires c < |s.callers|
  {
    s.(acquisitions := Released(s.acquisitions, s.callers[c].flight), callers := s.callers[c := caller])
  }

  function Step(s: State, e: Event): State {
    match e
    case Join(h) => Joined(s, h)
    case Complete(f, outcome) =>
      if Live(s.acquisitions, f) && s.acquisitions[f].outcome.None?
      then s.(acquisitions := s.acquisitions[f := s.acquisitions[f].(outcome := Some(outcome))])
      else s
    case Return(c) =>
      if c < |s.callers| && s.callers[c].Waiting? && s.callers[c].flight < |s.acquisitions|
         && s.acquisitions[s.callers[c].flight].outcome.Some?
      then Leave(s, c, Returned(s.callers[c].hash, s.callers[c].flight, s.acquisitions[s.callers[c].flight].outcome.value))
      else s
    case Drop(c) =>
      if c < |s.callers| && s.callers[c].Waiting?
      then Leave(s, c, Dropped(s.callers[c].hash, s.callers[c].flight))
      else s
  }

  function Run(events: seq<Event>): State {
    if events == [] then INIT else Step(Run(events[..|events| - 1]), events[|events| - 1])
  }

  // ----- counting -----

  function Count<T>(s: seq<T>, p: T -> bool): (n: nat)
    ensures n > 0 <==> exists k :: 0 <= k < |s| && p(s[k])
  {
    if s == [] then 0 else Count(s[..|s| - 1], p) + (if p(s[|s| - 1]) then 1 else 0)
  }

  lemma CountSnoc<T>(s: seq<T>, x: T, p: T -> bool)
    ensures Count(s + [x], p) == Count(s, p) + (if p(x) then 1 else 0)
  {
    assert (s + [x])[..|s|] == s;
  }

  lemma {:induction false} CountUpdate<T>(s: seq<T>, k: nat, x: T, p: T -> bool)
    requires k < |s|
    ensures Count(s[k := x], p) == Count(s, p) - (if p(s[k]) then 1 else 0) + (if p(x) then 1 else 0)
  {
    if k == |s| - 1 {
      assert s[k := x][..k] == s[..k];
    } else {
      assert s[k := x][..|s| - 1] == s[..|s| - 1][k := x];
      CountUpdate(s[..|s| - 1], k, x, p);
    }
  }

  function HoldsFlight(f: nat): Caller -> bool {
    (c: Caller) => c.Waiting? && c.flight == f
  }

  function WaitsFor(h: Hash): Caller -> bool {
    (c: Caller) => c.Waiting? && c.hash == h
  }

  function Acquires(h: Hash): Acquisition -> bool {
    (a: Acquisition) => a.hash == h
  }

  /** How many callers hold a future for this hash. */
  function Holders(s: State, h: Hash): nat {
    Count(s.callers, WaitsFor(h))
  }

  /** How many times the inner loader was started for this hash. */
  function Loads(s: State, h: Hash): nat {
    Count(s.acquisitions, Acquires(h))
  }

  /** How many times in this run the holder count of this hash rose from zero. */
  function Rises(events: seq<Event>, h: Hash): nat {
    if events == [] then 0
    else
      var front := events[..|events| - 1];
      Rises(front, h) + (if Holders(Run(front), h) == 0 && Holders(Run(events), h) > 0 then 1 else 0)
  }

  // ----- what every step keeps -----

  /** The strong count is the number of callers that hold the future. */
  ghost predicate Counted(s: State) {
    forall f | 0 <= f < |s.acquisitions| :: s.acquisitions[f].strong == Count(s.callers, HoldsFlight(f))
  }

  predicate SoundCaller(s: State, c: Caller) {
    && c.flight < |s.acquisitions|
    && s.acquisitions[c.flight].hash == c.hash
    && (c.Returned? ==> s.acquisitions[c.flight].outcome == Some(c.outcome))
  }

  /** A live acquisition is the one its hash is mapped to. */
  ghost predicate Mapped(s: State) {
    && (forall h | h in s.flights :: s.flights[h] < |s.acquisitions| && s.acquisitions[s.flights[h]].hash == h)
    && (forall f | 0 <= f < |s.acquisitions| && s.acquisitions[f].strong > 0 ::
          s.acquisitions[f].hash in s.flights && s.flights[s.acquisitions[f].hash] == f)
  }

  ghost predicate Inv(s: State) {
    && Counted(s)
    && Mapped(s)
    && SoundCallers(s)
  }

  lemma JoinedCounts(s: State, h: Hash)
    requires Inv(s)
    ensures Counted(Joined(s, h))
  {
    var t := Joined(s, h);
    var c := t.callers[|s.callers|];
    forall f | 0 <= f < |t.acquisitions| ensures t.acquisitions[f].strong == Count(t.callers, HoldsFlight(f)) {
      CountSnoc(s.callers, c, HoldsFlight(f));
      if f == |s.acquisitions| {
        assert Count(s.callers, HoldsFlight(f)) == 0;
      }
    }
  }

  ghost predicate SoundCallers(s: State) {
    forall c | 0 <= c < |s.callers| :: SoundCaller(s, s.callers[c])
  }

  lemma JoinedIsMapped(s: State, h: Hash)
    requires Mapped(s)
    ensures Mapped(Joined(s, h))
  {
  }

  lemma JoinedIsSound(s: State, h: Hash)
    requires Mapped(s) && SoundCallers(s)
    ensures SoundCallers(Joined(s, h))
  {
    var t := Joined(s, h);
    forall c | 0 <= c < |t.callers| ensures SoundCaller(t, t.callers[c]) {
      if c < |s.callers| { assert SoundCaller(s, s.callers[c]); }
    }
  }

  lemma LeaveCounts(s: State, c: nat, caller: Caller)
    requires Counted(s) && c < |s.callers| && s.callers[c].Waiting? && !caller.Waiting?
    ensures Counted(Leave(s, c, caller))
  {
    var t := Leave(s, c, caller);
    forall f | 0 <= f < |t.acquisitions| ensures t.acquisitions[f].strong == Count(t.callers, HoldsFlight(f)) {
      CountUpdate(s.callers, c, caller, HoldsFlight(f));
    }
  }

  lemma LeaveIsMapped(s: State, c: nat, caller: Caller)
    requires Mapped(s) && c < |s.callers|
    ensures Mapped(Leave(s, c, caller))
  {
  }

  lemma LeaveIsSound(s: State, c: nat, caller: Caller)
    requires SoundCallers(s) && c < |s.callers| && SoundCaller(s, caller)
    ensures SoundCallers(Leave(s, c, caller))
  {
    var t := Leave(s, c, caller);
    forall k | 0 <= k < |t.callers| ensures SoundCaller(t, t.callers[k]) {
      assert SoundCaller(s, s.callers[k]);
    }
  }

  lemma LeaveKeeps(s: State, c: nat, caller: Caller)
    requires Inv(s) && c < |s.callers| && s.callers[c].Waiting? && !caller.Waiting? && SoundCaller(s, caller)
    ensures Inv(Leave(s, c, caller))
  {
    LeaveCounts(s, c, caller);
    LeaveIsMapped(s, c, caller);
    LeaveIsSound(s, c, caller);
  }

  lemma CompleteKeeps(s: State, f: nat, outcome: Outcome)
    requires Inv(s)
    ensures Inv(Step(s, Complete(f, outcome)))
  {
  }

  lemma StepKeeps(s: State, e: Event)
    requires Inv(s)
    ensures Inv(Step(s, e))
  {
    match e
    case Join(h) =>
      JoinedCounts(s, h);
      JoinedIsMapped(s, h);
      JoinedIsSound(s, h);
    case Complete(f, outcome) => CompleteKeeps(s, f, outcome);
    case Return(c) =>
      if Step(s, e) != s { LeaveKeeps(s, c, Step(s, e).callers[c]); }
    case Drop(c) =>
      if Step(s, e) != s { LeaveKeeps(s, c, Step(s, e).callers[c]); }
  }

  lemma {:induction false} RunsKeep(events: seq<Event>)
    ensures Inv(Run(events))
  {
    if events != [] {
      RunsKeep(events[..|events| - 1]);
      StepKeeps(Run(events[..|events| - 1]), events[|events| - 1]);
    }
  }

  /** Somebody waits for a hash exactly when its flight can be joined. */
  lemma HeldIsLive(s: State, h: Hash)
    requires Inv(s)
    ensures Holders(s, h) > 0 <==> h in s.flights && Live(s.acquisitions, s.flights[h])
  {
    if Holders(s, h) > 0 {
      var k :| 0 <= k < |s.callers| && WaitsFor(h)(s.callers[k]);
      assert SoundCaller(s, s.callers[k]);
      assert HoldsFlight(s.callers[k].flight)(s.callers[k]);
    }
    if h in s.flights && Live(s.acquisitions, s.flights[h]) {
      var k :| 0 <= k < |s.callers| && HoldsFlight(s.flights[h])(s.callers[k]);
      assert SoundCaller(s, s.callers[k]);
      assert WaitsFor(h)(s.callers[k]);
    }
  }

  /** One step starts the inner loader for a hash exactly when its holder count rises from zero. */
  lemma StepLoads(s: State, e: Event, h: Hash)
    requires Inv(s)
    ensures Loads(Step(s, e), h) == Loads(s, h) + (if Holders(s, h) == 0 && Holders(Step(s, e), h) > 0 then 1 else 0)
  {
    HeldIsLive(s, h);
    var t := Step(s, e);
    match e
    case Join(k) =>
      CountSnoc(s.callers, t.callers[|s.callers|], WaitsFor(h));
      HeldIsLive(s, k);
      if Holders(s, k) > 0 {
        CountUpdate(s.acquisitions, s.flights[k], t.acquisitions[s.flights[k]], Acquires(h));
      } else {
        CountSnoc(s.acquisitions, Acquisition(k, 1, None), Acquires(h));
      }
    case Complete(f, outcome) =>
      if t != s { CountUpdate(s.acquisitions, f, t.acquisitions[f], Acquires(h)); }
    case Return(c) =>
      if t != s { LeaveLoads(s, c, t.callers[c], h); }
    case Drop(c) =>
      if t != s { LeaveLoads(s, c, t.callers[c], h); }
  }

  lemma LeaveLoads(s: State, c: nat, caller: Caller, h: Hash)
    requires c < |s.callers| && !caller.Waiting?
    ensures Loads(Leave(s, c, caller), h) == Loads(s, h)
    ensures Holders(Leave(s, c, caller), h) <= Holders(s, h)
  {
    CountUpdate(s.callers, c, caller, WaitsFor(h));
    var f := s.callers[c].flight;
    if Live(s.acquisitions, f) {
      CountUpdate(s.acquisitions, f, Released(s.acquisitions, f)[f], Acquires(h));
    }
  }

  // ----- main results -----

  /** In every run, at most one acquisition per hash is live, and callers that wait for one hash share it. */
  lemma OneLiveAcquisition(events: seq<Event>)
    ensures var s := Run(events);
      && (forall f, g | 0 <= f < |s.acquisitions| && 0 <= g < |s.acquisitions| ::
            Live(s.acquisitions, f) && Live(s.acquisitions, g) && s.acquisitions[f].hash == s.acquisitions[g].hash ==> f == g)
      && (forall b, c | 0 <= b < |s.callers| && 0 <= c < |s.callers| ::
            s.callers[b].Waiting? && s.callers[c].Waiting? && s.callers[b].hash == s.callers[c].hash
            ==> s.callers[b].flight == s.callers[c].flight)
  {
    RunsKeep(events);
    var s := Run(events);
    forall b, c | 0 <= b < |s.callers| && 0 <= c < |s.callers| && s.callers[b].Waiting? && s.callers[c].Waiting?
                  && s.callers[b].hash == s.callers[c].hash
      ensures s.callers[b].flight == s.callers[c].flight
    {
      WaitingIsLive(s, b);
      WaitingIsLive(s, c);
    }
  }

  lemma WaitingIsLive(s: State, c: nat)
    requires Inv(s) && c < |s.callers| && s.callers[c].Waiting?
    ensures Live(s.acquisitions, s.callers[c].flight)
    ensures s.acquisitions[s.callers[c].flight].hash == s.callers[c].hash
  {
    assert SoundCaller(s, s.callers[c]);
    assert HoldsFlight(s.callers[c].flight)(s.callers[c]);
  }

  /** In every run, the inner loader was started for a hash as many times as its holder count rose from zero. */
  lemma {:induction false} LoadsAreRises(events: seq<Event>, h: Hash)
    ensures Loads(Run(events), h) == Rises(events, h)
  {
    if events != [] {
      var front := events[..|events| - 1];
      LoadsAreRises(front, h);
      RunsKeep(front);
      StepLoads(Run(front), events[|events| - 1], h);
    }
  }

  /**
    A caller that leaves changes nothing for the others. If it was not the last
    holder, the acquisition goes on; if it was, the acquisition is gone.
  */
  lemma DroppingOne(events: seq<Event>, c: nat)
    requires c < |Run(events).callers| && Run(events).callers[c].Waiting?
    ensures var s := Run(events);
      var t := Step(s, Drop(c));
      var f := s.callers[c].flight;
      && |t.callers| == |s.callers|
      && (forall b | 0 <= b < |s.callers| && b != c :: t.callers[b] == s.callers[b])
      && |t.acquisitions| == |s.acquisitions| && f < |s.acquisitions|
      && (forall g | 0 <= g < |s.acquisitions| && g != f :: t.acquisitions[g] == s.acquisitions[g])
      && t.acquisitions[f].outcome == s.acquisitions[f].outcome
      && t.flights == s.flights
      && (Live(t.acquisitions, f) <==> exists b :: 0 <= b < |s.callers| && b != c && HoldsFlight(f)(s.callers[b]))
  {
    RunsKeep(events);
    var s := Run(events);
    StepKeeps(s, Drop(c));
    WaitingIsLive(s, c);
    var t := Step(s, Drop(c));
    var f := s.callers[c].flight;
    assert t.acquisitions[f].strong == Count(t.callers, HoldsFlight(f));
    forall b | 0 <= b < |s.callers| && b != c ensures HoldsFlight(f)(t.callers[b]) == HoldsFlight(f)(s.callers[b]) {
    }
  }

  lemma GoneStays(s: State, e: Event, f: nat)
    requires Inv(s) && f < |s.acquisitions| && !Live(s.acquisitions, f)
    ensures f < |Step(s, e).acquisitions| && Step(s, e).acquisitions[f] == s.acquisitions[f]
  {
  }

  /** An acquisition whose last holder has left is aborted for good: it never completes, and nobody joins it. */
  lemma {:induction false} AbortedForGood(events: seq<Event>, more: seq<Event>, f: nat)
    requires f < |Run(events).acquisitions| && !Live(Run(events).acquisitions, f)
    ensures f < |Run(events + more).acquisitions| && Run(events + more).acquisitions[f] == Run(events).acquisitions[f]
  {
    if more == [] {
      assert events + more == events;
    } else {
      var front := events + more[..|more| - 1];
      assert (events + more)[..|events + more| - 1] == front;
      AbortedForGood(events, more[..|more| - 1], f);
      RunsKeep(front);
      GoneStays(Run(front), more[|more| - 1], f);
    }
  }

  /** Callers that shared an acquisition return the same package or the same error: the one it completed with. */
  lemma SharersAgree(events: seq<Event>, b: nat, c: nat)
    requires var s := Run(events);
      && b < |s.callers| && c < |s.callers| && s.callers[b].Returned? && s.callers[c].Returned?
      && s.callers[b].flight == s.callers[c].flight
    ensures Run(events).callers[b].outcome == Run(events).callers[c].outcome
    ensures Run(events).callers[b].hash == Run(events).callers[c].hash
  {
    RunsKeep(events);
    assert SoundCaller(Run(events), Run(events).callers[b]);
    assert SoundCaller(Run(events), Run(events).callers[c]);
  }

  /** What the loader first gave for an acquisition while somebody held it, by the events alone but for who holds it. */
  function Completion(events: seq<Event>, f: nat): Option<Outcome> {
    if events == [] then None
    else
      var front, e := events[..|events| - 1], events[|events| - 1];
      var was := Completion(front, f);
      if was.Some? then was
      else if e.Complete? && e.flight == f && f < |Run(front).acquisitions| && Run(front).acquisitions[f].strong > 0 then Some(e.outcome)
      else None
  }

  lemma StepCompletes(s: State, e: Event, f: nat)
    ensures |s.acquisitions| <= |Step(s, e).acquisitions|
    ensures f < |Step(s, e).acquisitions| ==>
      Step(s, e).acquisitions[f].outcome ==
        if f >= |s.acquisitions| then None
        else if s.acquisitions[f].outcome.Some? then s.acquisitions[f].outcome
        else if e.Complete? && e.flight == f && s.acquisitions[f].strong > 0 then Some(e.outcome)
        else None
  {
  }

  lemma {:induction false} CompletedFirst(events: seq<Event>, f: nat)
    ensures var s := Run(events);
      Completion(events, f) == if f < |s.acquisitions| then s.acquisitions[f].outcome else None
  {
    if events != [] {
      CompletedFirst(events[..|events| - 1], f);
      StepCompletes(Run(events[..|events| - 1]), events[|events| - 1], f);
    }
  }

  /** Who joins waits for the live acquisition of the hash, whether it was there or is begun. */
  lemma JoinersWait(events: seq<Event>, h: Hash)
    ensures var s := Run(events);
      var t := Step(s, Join(h));
      && h in t.flights && t.flights[h] < |t.acquisitions|
      && t.callers == s.callers + [Waiting(h, t.flights[h])]
      && t.acquisitions[t.flights[h]].hash == h && t.acquisitions[t.flights[h]].strong > 0
  {
    RunsKeep(events);
    JoinedIsMapped(Run(events), h);
  }

  lemma LeavingIsRecorded(s: State, c: nat)
    requires c < |s.callers| && s.callers[c].Waiting? && s.callers[c].flight < |s.acquisitions|
    ensures var f := s.callers[c].flight;
      && (if s.acquisitions[f].outcome.Some?
          then Step(s, Return(c)).callers == s.callers[c := Returned(s.callers[c].hash, f, s.acquisitions[f].outcome.value)]
          else Step(s, Return(c)) == s)
      && Step(s, Drop(c)).callers == s.callers[c := Dropped(s.callers[c].hash, f)]
  {
  }

  /**
    A caller that waits returns once its acquisition has completed, with what the
    loader first gave for it; until then its return changes nothing. It can
    always be dropped.
  */
  lemma CallersReturnTheCompletion(events: seq<Event>, c: nat)
    requires c < |Run(events).callers| && Run(events).callers[c].Waiting?
    ensures var s := Run(events);
      var f := s.callers[c].flight;
      && (if Completion(events, f).Some?
          then Step(s, Return(c)).callers == s.callers[c := Returned(s.callers[c].hash, f, Completion(events, f).value)]
          else Step(s, Return(c)) == s)
      && Step(s, Drop(c)).callers == s.callers[c := Dropped(s.callers[c].hash, f)]
  {
    RunsKeep(events);
    CompletedFirst(events, Run(events).callers[c].flight);
    assert SoundCaller(Run(events), Run(events).callers[c]);
    LeavingIsRecorded(Run(events), c);
  }

  // ----- the loader -----

  /** `SharedPackageLoader`: the critical section of `load`, with the map of flights updated in place. */
  class SharedPackageLoader {
    var flights: map<Hash, nat>
    var acquisitions: seq<Acquisition>
    var callers: seq<Caller>

    function View(): State
      reads this
    {
      State(flights, acquisitions, callers)
    }

    constructor ()
      ensures View() == INIT
    {
      flights, acquisitions, callers := map[], [], [];
    }

    method Upgrade(f: nat) returns (ok: bool)
      modifies this`acquisitions
      ensures ok <==> Live(old(acquisitions), f)
      ensures acquisitions ==
        if ok then old(acquisitions)[f := old(acquisitions)[f].(strong := old(acquisitions)[f].strong + 1)] else old(acquisitions)
    {
      ok := f < |acquisitions| && acquisitions[f].strong > 0;
      if ok { acquisitions := acquisitions[f := acquisitions[f].(strong := acquisitions[f].strong + 1)]; }
    }

    /** `flights.retain(..)` */
    method RetainLive()
      modifies this`flights
      ensures flights == Retained(old(flights), acquisitions)
    {
      var rest, kept := flights, map[];
      while rest != map[]
        invariant flights == old(flights)
        invariant forall h | h in rest :: h in flights && rest[h] == flights[h]
        invariant forall h :: h in kept <==> h in flights && h !in rest && Live(acquisitions, flights[h])
        invariant forall h | h in kept :: kept[h] == flights[h]
        decreases |rest|
      {
        var h :| h in rest;
        if rest[h] < |acquisitions| && acquisitions[rest[h]].strong > 0 { kept := kept[h := rest[h]]; }
        ghost var before := rest;
        rest := rest - {h};
        assert before.Keys == rest.Keys + {h};
      }
      flights := kept;
    }

    method Load(h: Hash) returns (caller: nat)
      modifies this
      ensures View() == Step(old(View()), Join(h))
      ensures caller == |old(callers)|
    {
      caller := |callers|;
      if h in flights {
        var f := flights[h];
        var ok := Upgrade(f);
        if ok {
          callers := callers + [Waiting(h, f)];
          return;
        }
      }
      RetainLive();
      flights := flights[h := |acquisitions|];
      callers := callers + [Waiting(h, |acquisitions|)];
      acquisitions := acquisitions + [Acquisition(h, 1, None)];
    }
  }
}
