/**
  Routing of js/src/service-worker.ts: registrations, recovery of a route from
  the host documents, requests forwarded over the active route, and its close.
  A step is one turn of the worker between two awaits; steps interleave freely.
  What the host documents of js/src/service-worker-host.ts send is arbitrary.
*/
module ServiceWorker {
  import opened Bytes

  type Id = string

  /** A route and its end of the message channel. */
  datatype Route = Route(id: Id, open: bool, pending: set<nat>)

  datatype How = Answered | Failed | TimedOut | Closed

  /**
    A fetch: waiting for a recovery, reading the body of its request, forwarded,
    settled; taken off its route and never settled; or left to the network.
  */
  datatype Request =
    | Recovering(discovery: nat)
    | Reading(route: nat)
    | Pending(route: nat)
    | Settled(how: How)
    | Lost
    | PassedOn

  /** What a host replies: an error, or a status, and whether `Headers` and `Response` accept its headers and status text. */
  datatype Reply = Error | Reply(status: nat, accepted: bool)

  /** `new Response` makes a response of the reply; otherwise it throws. */
  predicate Constructible(reply: Reply) {
    reply.Reply? && reply.accepted && 200 <= reply.status <= 599
  }

  datatype Registration = Waiting(id: Id, discovery: Option<nat>) | Registered(route: nat) | Refused

  /** One run of `discoverRoute`: the hosts still to answer, what it returned, and whether its promise has resolved. */
  datatype Discovery = Discovery(hosts: Option<nat>, result: Option<Option<nat>>, resolved: bool)

  /** `settlements` counts the calls of `resolve` and `reject` per request. */
  datatype State = State(
    active: Option<nat>, recovery: Option<nat>,
    routes: seq<Route>, discoveries: seq<Discovery>, registrations: seq<Registration>,
    requests: seq<Request>, timers: set<nat>, settlements: multiset<nat>)

  datatype Event =
    | Register(id: Id)
    | ResumeRegister(registration: nat)
    | Matched(discovery: nat, hosts: nat)
    | HostAnswers(discovery: nat, id: Id)
    | HostHasNone(discovery: nat)
    | Discovered(discovery: nat)
    | Resolves(discovery: nat)
    | Fetch
    | ResumeFetch(request: nat)
    | BodyRead(request: nat)
    | Response(route: nat, serverId: Id, request: nat, reply: Reply)
    | CloseMessage(route: nat, serverId: Id)
    | Timer(request: nat)

  const INIT := State(None, None, [], [], [], [], {}, multiset{})

  function RegisterRoute(s: State, id: Id): State {
    s.(active := Some(|s.routes|), routes := s.routes + [Route(id, true, {})])
  }

  /** `recoverRoute` with no active route: one discovery at a time. */
  function Recover(s: State): State {
    if s.recovery.Some? then s
    else s.(recovery := Some(|s.discoveries|), discoveries := s.discoveries + [Discovery(None, None, false)])
  }

  /** The promise of a discovery has resolved. */
  predicate Resolved(s: State, d: nat) {
    d < |s.discoveries| && s.discoveries[d].resolved && s.discoveries[d].result.Some?
  }

  function OnRegistration(s: State, e: Event): State {
    match e
    case Register(id) =>
      if s.active.Some? then s.(registrations := s.registrations + [Waiting(id, None)])
      else
        var t := Recover(s);
        t.(registrations := s.registrations + [Waiting(id, t.recovery)])
    case ResumeRegister(k) =>
      if k >= |s.registrations| || !s.registrations[k].Waiting?
         || (s.registrations[k].discovery.Some? && !Resolved(s, s.registrations[k].discovery.value)) then s
      else if s.active.Some? then s.(registrations := s.registrations[k := Refused])
      else RegisterRoute(s, s.registrations[k].id).(registrations := s.registrations[k := Registered(|s.routes|)])
    case _ => s
  }

  function OnDiscovery(s: State, e: Event): State {
    match e
    case Matched(d, hosts) =>
      if d < |s.discoveries| && s.discoveries[d].hosts.None?
      then s.(discoveries := s.discoveries[d := s.discoveries[d].(hosts := Some(hosts))]) else s
    case HostAnswers(d, id) =>
      if d < |s.discoveries| && s.discoveries[d].hosts.Some? && s.discoveries[d].hosts.value > 0
      then
        var t := s.(discoveries := s.discoveries[d := s.discoveries[d].(hosts := Some(s.discoveries[d].hosts.value - 1))]);
        if s.active.None? then RegisterRoute(t, id) else t
      else s
    case HostHasNone(d) =>
      if d < |s.discoveries| && s.discoveries[d].hosts.Some? && s.discoveries[d].hosts.value > 0
      then s.(discoveries := s.discoveries[d := s.discoveries[d].(hosts := Some(s.discoveries[d].hosts.value - 1))])
      else s
    case Discovered(d) =>
      if d < |s.discoveries| && s.discoveries[d].hosts == Some(0) && s.discoveries[d].result.None?
      then s.(discoveries := s.discoveries[d := s.discoveries[d].(result := Some(s.active))]) else s
    case Resolves(d) =>
      if d < |s.discoveries| && s.discoveries[d].result.Some? && !s.discoveries[d].resolved
      then s.(discoveries := s.discoveries[d := s.discoveries[d].(resolved := true)], recovery := None) else s
    case _ => s
  }

  /** A request leaves the map of its route, and its timer is cleared. */
  function TakeOff(s: State, q: nat, r: nat, next: Request): State
    requires q < |s.requests| && r < |s.routes|
  {
    s.(requests := s.requests[q := next], timers := s.timers - {q},
       routes := s.routes[r := s.routes[r].(pending := s.routes[r].pending - {q})])
  }

  function Settle(s: State, q: nat, r: nat, how: How): State
    requires q < |s.requests| && r < |s.routes|
  {
    TakeOff(s, q, r, Settled(how)).(settlements := s.settlements + multiset{q})
  }

  /** `receiveResponse` for a pending request: it is off the map before the response is made, which may throw. */
  function Receive(s: State, q: nat, r: nat, reply: Reply): State
    requires q < |s.requests| && r < |s.routes|
  {
    if reply.Error? then Settle(s, q, r, Failed)
    else if Constructible(reply) then Settle(s, q, r, Answered)
    else TakeOff(s, q, r, Lost)
  }

  /** `closeRoute`: it closes the active route if that has this identity. */
  function CloseRoute(s: State, id: Id): State {
    if s.active.None? || s.active.value >= |s.routes| || s.routes[s.active.value].id != id then s
    else
      var r := s.active.value;
      var pending := s.routes[r].pending;
      s.(active := None, routes := s.routes[r := Route(id, false, {})], timers := s.timers - pending,
         settlements := s.settlements + multiset(pending), requests := AllClosed(s.requests, pending))
  }

  function AllClosed(requests: seq<Request>, pending: set<nat>): seq<Request> {
    seq(|requests|, q requires 0 <= q < |requests| => if q in pending then Settled(Closed) else requests[q])
  }

  function OnRequest(s: State, e: Event): State {
    match e
    case Fetch =>
      if s.active.Some? then s.(requests := s.requests + [Reading(s.active.value)])
      else
        var t := Recover(s);
        if t.recovery.Some? then t.(requests := s.requests + [Recovering(t.recovery.value)]) else t
    case ResumeFetch(q) =>
      if q < |s.requests| && s.requests[q].Recovering? && Resolved(s, s.requests[q].discovery) then
        var result := s.discoveries[s.requests[q].discovery].result.value;
        s.(requests := s.requests[q := if result.Some? then Reading(result.value) else PassedOn])
      else s
    case BodyRead(q) =>
      if q < |s.requests| && s.requests[q].Reading? && s.requests[q].route < |s.routes| then
        var r := s.requests[q].route;
        s.(requests := s.requests[q := Pending(r)], timers := s.timers + {q},
           routes := s.routes[r := s.routes[r].(pending := s.routes[r].pending + {q})])
      else s
    case Response(r, serverId, q, reply) =>
      if r < |s.routes| && s.routes[r].open && s.routes[r].id == serverId && q in s.routes[r].pending && q < |s.requests|
      then Receive(s, q, r, reply) else s
    case CloseMessage(r, serverId) =>
      if r < |s.routes| && s.routes[r].open && s.routes[r].id == serverId then CloseRoute(s, serverId) else s
    case Timer(q) =>
      if q in s.timers && q < |s.requests| && s.requests[q].Pending? && s.requests[q].route < |s.routes|
      then Settle(s, q, s.requests[q].route, TimedOut) else s
    case _ => s
  }

  function Step(s: State, e: Event): State {
    if e.Register? || e.ResumeRegister? then OnRegistration(s, e)
    else if e.Matched? || e.HostAnswers? || e.HostHasNone? || e.Discovered? || e.Resolves? then OnDiscovery(s, e)
    else OnRequest(s, e)
  }

  function Run(events: seq<Event>): State {
    if events == [] then INIT else Step(Run(events[..|events| - 1]), events[|events| - 1])
  }

  // ----- what every step keeps -----

  /** The active route is the one whose port is open. */
  ghost predicate OneRoute(s: State) {
    && (s.active.Some? ==> s.active.value < |s.routes|)
    && (forall r | 0 <= r < |s.routes| :: s.routes[r].open <==> s.active == Some(r))
  }

  /** There is no discovery but the one behind `recovery`. */
  ghost predicate OneDiscovery(s: State) {
    && (s.recovery.Some? ==> s.recovery.value < |s.discoveries|)
    && (forall d | 0 <= d < |s.discoveries| :: !s.discoveries[d].resolved <==> s.recovery == Some(d))
    && (forall d | 0 <= d < |s.discoveries| ::
          && (s.discoveries[d].resolved ==> s.discoveries[d].result.Some?)
          && (s.discoveries[d].result.Some? && s.discoveries[d].result.value.Some? ==> s.discoveries[d].result.value.value < |s.routes|))
  }

  predicate SoundRegistration(s: State, k: Registration) {
    && (k.Waiting? && k.discovery.Some? ==> k.discovery.value < |s.discoveries|)
    && (k.Registered? ==> k.route < |s.routes|)
  }

  predicate SoundRequest(s: State, q: Request) {
    && (q.Recovering? ==> q.discovery < |s.discoveries|)
    && (q.Reading? || q.Pending? ==> q.route < |s.routes|)
  }

  predicate IsPending(s: State, q: nat, r: nat) {
    q < |s.requests| && s.requests[q] == Pending(r)
  }

  /** A request is in the `pending` map of the route it was forwarded on. */
  predicate Held(s: State, q: nat, r: nat) {
    r < |s.routes| ==> (q in s.routes[r].pending <==> IsPending(s, q, r))
  }

  /** A request has a timer while it is pending, and is settled once after that. */
  predicate Timed(s: State, q: nat) {
    && (q in s.timers <==> q < |s.requests| && s.requests[q].Pending?)
    && s.settlements[q] == if q < |s.requests| && s.requests[q].Settled? then 1 else 0
  }

  ghost predicate Accounted(s: State) {
    && (forall q: nat, r: nat :: Held(s, q, r))
    && (forall q: nat :: Timed(s, q))
  }

  ghost predicate Sound(s: State) {
    && (forall k: nat | k < |s.registrations| :: SoundRegistration(s, s.registrations[k]))
    && (forall q: nat | q < |s.requests| :: SoundRequest(s, s.requests[q]))
  }

  ghost predicate Inv(s: State) {
    OneRoute(s) && OneDiscovery(s) && Accounted(s) && Sound(s)
  }

  /** The same requests, routes with the same pending maps, timers and settlements. */
  lemma AccountsAlike(s: State, t: State)
    requires Accounted(s) && t.requests == s.requests && t.timers == s.timers && t.settlements == s.settlements
    requires |s.routes| <= |t.routes| && forall r | 0 <= r < |t.routes| ::
               t.routes[r].pending == if r < |s.routes| then s.routes[r].pending else {}
    requires Sound(s)
    ensures Accounted(t)
  {
    forall q: nat, r: nat ensures Held(t, q, r) {
      assert Held(s, q, r);
      if q < |s.requests| { assert SoundRequest(s, s.requests[q]); }
    }
    forall q: nat ensures Timed(t, q) {
      assert Timed(s, q);
    }
  }

  /** A request that is not forwarded yet, or passed on, is not accounted for. */
  lemma AccountsPhase(s: State, t: State, q: nat)
    requires Accounted(s) && t.routes == s.routes && t.timers == s.timers && t.settlements == s.settlements
    requires |s.requests| <= |t.requests| && q < |t.requests|
    requires forall k: nat | k < |t.requests| && k != q :: k < |s.requests| && t.requests[k] == s.requests[k]
    requires q < |s.requests| ==> !s.requests[q].Pending? && !s.requests[q].Settled?
    requires !t.requests[q].Pending? && !t.requests[q].Settled?
    ensures Accounted(t)
  {
    forall k: nat, r: nat ensures Held(t, k, r) {
      assert Held(s, k, r);
    }
    forall k: nat ensures Timed(t, k) {
      assert Timed(s, k);
    }
  }

  /** Nothing is referred to that is not there. */
  lemma SoundAlike(s: State, t: State)
    requires Sound(s) && |s.routes| <= |t.routes| && |s.discoveries| <= |t.discoveries|
    requires forall k: nat | k < |t.registrations| ::
               (k < |s.registrations| && t.registrations[k] == s.registrations[k]) || SoundRegistration(t, t.registrations[k])
    requires forall q: nat | q < |t.requests| :: (q < |s.requests| && t.requests[q] == s.requests[q]) || SoundRequest(t, t.requests[q])
    ensures Sound(t)
  {
    forall k: nat | k < |t.registrations| ensures SoundRegistration(t, t.registrations[k]) {
      if k < |s.registrations| { assert SoundRegistration(s, s.registrations[k]); }
    }
    forall q: nat | q < |t.requests| ensures SoundRequest(t, t.requests[q]) {
      if q < |s.requests| { assert SoundRequest(s, s.requests[q]); }
    }
  }

  lemma RegisterRouteKeeps(s: State, id: Id)
    requires Inv(s) && s.active.None?
    ensures Inv(RegisterRoute(s, id))
  {
    AccountsAlike(s, RegisterRoute(s, id));
    SoundAlike(s, RegisterRoute(s, id));
  }

  lemma RecoverKeeps(s: State)
    requires Inv(s)
    ensures Inv(Recover(s))
  {
    AccountsAlike(s, Recover(s));
    SoundAlike(s, Recover(s));
  }

  lemma WaitKeeps(s: State, next: Registration)
    requires Inv(s) && SoundRegistration(s, next)
    ensures Inv(s.(registrations := s.registrations + [next]))
  {
    var t := s.(registrations := s.registrations + [next]);
    AccountsAlike(s, t);
    SoundAlike(s, t);
  }

  lemma ResumeKeeps(s: State, k: nat, next: Registration)
    requires Inv(s) && k < |s.registrations| && SoundRegistration(s, next)
    ensures Inv(s.(registrations := s.registrations[k := next]))
  {
    var t := s.(registrations := s.registrations[k := next]);
    AccountsAlike(s, t);
    SoundAlike(s, t);
  }

  lemma RegistrationKeeps(s: State, e: Event)
    requires Inv(s)
    ensures Inv(OnRegistration(s, e))
  {
    if OnRegistration(s, e) != s {
      match e
      case Register(id) =>
        RecoverKeeps(s);
        if s.active.Some? { WaitKeeps(s, Waiting(id, None)); } else { WaitKeeps(Recover(s), Waiting(id, Recover(s).recovery)); }
      case ResumeRegister(k) =>
        if s.active.Some? {
          ResumeKeeps(s, k, Refused);
        } else {
          RegisterRouteKeeps(s, s.registrations[k].id);
          ResumeKeeps(RegisterRoute(s, s.registrations[k].id), k, Registered(|s.routes|));
        }
      case _ =>
    }
  }

  /** A discovery that still runs goes on, or ends with the active route. */
  lemma DiscoveryGoesOn(s: State, d: nat, next: Discovery)
    requires Inv(s) && d < |s.discoveries|
    requires next.resolved == s.discoveries[d].resolved
    requires next.result == s.discoveries[d].result || next.result == Some(s.active)
    ensures Inv(s.(discoveries := s.discoveries[d := next]))
  {
    var t := s.(discoveries := s.discoveries[d := next]);
    AccountsAlike(s, t);
    SoundAlike(s, t);
  }

  lemma DiscoveryEnds(s: State, d: nat)
    requires Inv(s) && d < |s.discoveries| && s.discoveries[d].result.Some? && !s.discoveries[d].resolved
    ensures Inv(s.(discoveries := s.discoveries[d := s.discoveries[d].(resolved := true)], recovery := None))
  {
    var t := s.(discoveries := s.discoveries[d := s.discoveries[d].(resolved := true)], recovery := None);
    AccountsAlike(s, t);
    SoundAlike(s, t);
  }

  lemma DiscoveryKeeps(s: State, e: Event)
    requires Inv(s)
    ensures Inv(OnDiscovery(s, e))
  {
    var t := OnDiscovery(s, e);
    if t != s {
      var d := e.discovery;
      var was := s.discoveries[d];
      match e
      case Matched(_, hosts) => DiscoveryGoesOn(s, d, was.(hosts := Some(hosts)));
      case HostAnswers(_, id) =>
        DiscoveryGoesOn(s, d, was.(hosts := Some(was.hosts.value - 1)));
        if s.active.None? { RegisterRouteKeeps(s.(discoveries := s.discoveries[d := was.(hosts := Some(was.hosts.value - 1))]), id); }
      case HostHasNone(_) => DiscoveryGoesOn(s, d, was.(hosts := Some(was.hosts.value - 1)));
      case Discovered(_) => DiscoveryGoesOn(s, d, was.(result := Some(s.active)));
      case Resolves(_) => DiscoveryEnds(s, d);
    }
  }

  lemma LoseKeeps(s: State, q: nat, r: nat)
    requires Inv(s) && q < |s.requests| && r < |s.routes| && s.requests[q] == Pending(r)
    ensures Inv(TakeOff(s, q, r, Lost))
  {
    var t := TakeOff(s, q, r, Lost);
    forall k: nat, j: nat ensures Held(t, k, j) {
      assert Held(s, k, j);
    }
    forall k: nat ensures Timed(t, k) {
      assert Timed(s, k);
    }
    SoundAlike(s, t);
  }

  lemma SettleKeeps(s: State, q: nat, r: nat, how: How)
    requires Inv(s) && q < |s.requests| && r < |s.routes| && s.requests[q] == Pending(r)
    ensures Inv(Settle(s, q, r, how))
  {
    var t := Settle(s, q, r, how);
    forall k: nat, j: nat ensures Held(t, k, j) {
      assert Held(s, k, j);
    }
    forall k: nat ensures Timed(t, k) {
      assert Timed(s, k);
    }
    SoundAlike(s, t);
  }

  lemma CloseKeeps(s: State, id: Id)
    requires Inv(s)
    ensures Inv(CloseRoute(s, id))
  {
    var t := CloseRoute(s, id);
    if t != s {
      var r := s.active.value;
      forall k: nat, j: nat ensures Held(t, k, j) {
        assert Held(s, k, j) && Held(s, k, r);
      }
      forall k: nat ensures Timed(t, k) {
        assert Timed(s, k) && Held(s, k, r);
      }
      SoundAlike(s, t);
    }
  }

  lemma ForwardKeeps(s: State, q: nat)
    requires Inv(s)
    ensures Inv(OnRequest(s, BodyRead(q)))
  {
    var t := OnRequest(s, BodyRead(q));
    if t != s {
      forall k: nat, j: nat ensures Held(t, k, j) {
        assert Held(s, k, j);
      }
      forall k: nat ensures Timed(t, k) {
        assert Timed(s, k);
      }
      SoundAlike(s, t);
    }
  }

  /** A request that is not forwarded yet, or any more, changes nothing that is counted. */
  lemma PhaseKeeps(s: State, q: nat, next: Request)
    requires Inv(s) && q < |s.requests| && s.requests[q].Recovering? && !next.Pending? && !next.Settled? && SoundRequest(s, next)
    ensures Inv(s.(requests := s.requests[q := next]))
  {
    var t := s.(requests := s.requests[q := next]);
    AccountsPhase(s, t, q);
    SoundAlike(s, t);
  }

  lemma FetchKeeps(s: State, next: Request)
    requires Inv(s) && !next.Pending? && !next.Settled? && SoundRequest(s, next)
    ensures Inv(s.(requests := s.requests + [next]))
  {
    var t := s.(requests := s.requests + [next]);
    AccountsPhase(s, t, |s.requests|);
    SoundAlike(s, t);
  }

  lemma RequestKeeps(s: State, e: Event)
    requires Inv(s)
    ensures Inv(OnRequest(s, e))
  {
    if OnRequest(s, e) != s {
      match e
      case Fetch =>
        RecoverKeeps(s);
        if s.active.Some? {
          FetchKeeps(s, Reading(s.active.value));
        } else {
          FetchKeeps(Recover(s), Recovering(Recover(s).recovery.value));
        }
      case ResumeFetch(q) => PhaseKeeps(s, q, OnRequest(s, e).requests[q]);
      case BodyRead(q) => ForwardKeeps(s, q);
      case Response(r, _, q, reply) =>
        assert Held(s, q, r);
        LoseKeeps(s, q, r);
        SettleKeeps(s, q, r, if reply.Error? then Failed else Answered);
      case CloseMessage(_, serverId) => CloseKeeps(s, serverId);
      case Timer(q) => SettleKeeps(s, q, s.requests[q].route, TimedOut);
      case _ =>
    }
  }

  lemma StepKeeps(s: State, e: Event)
    requires Inv(s)
    ensures Inv(Step(s, e))
  {
    RegistrationKeeps(s, e);
    DiscoveryKeeps(s, e);
    RequestKeeps(s, e);
  }

  lemma {:induction false} RunsKeep(events: seq<Event>)
    ensures Inv(Run(events))
  {
    if events != [] {
      RunsKeep(events[..|events| - 1]);
      StepKeeps(Run(events[..|events| - 1]), events[|events| - 1]);
    }
  }

  // ----- main results -----

  /** In every run at most one route has an open port, and it is the active one: no request or reply travels over another. */
  lemma OneRouteServes(events: seq<Event>, r: nat)
    requires r < |Run(events).routes|
    ensures Run(events).routes[r].open <==> Run(events).active == Some(r)
  {
    RunsKeep(events);
  }

  lemma OnlyCloseDisplaces(s: State, e: Event)
    requires Inv(s) && s.active.Some?
    ensures var r := s.active.value;
      r < |s.routes| && (Step(s, e).active == s.active || (Step(s, e).active.None? && e == CloseMessage(r, s.routes[r].id)))
  {
  }

  /** The active route stays until its own host closes it; it is never displaced by a registration or a recovery. */
  lemma NeverDisplaced(events: seq<Event>, e: Event)
    requires Run(events).active.Some?
    ensures var s := Run(events);
      var r := s.active.value;
      r < |s.routes| && (Step(s, e).active == s.active || (Step(s, e).active.None? && e == CloseMessage(r, s.routes[r].id)))
  {
    RunsKeep(events);
    OnlyCloseDisplaces(Run(events), e);
  }

  /** No two registrations were given the same route. */
  ghost predicate Distinct(s: State) {
    forall j: nat, k: nat | j < k < |s.registrations| && s.registrations[j].Registered? && s.registrations[k].Registered? ::
      s.registrations[j].route != s.registrations[k].route
  }

  lemma StepIsDistinct(s: State, e: Event)
    requires Inv(s) && Distinct(s)
    ensures Distinct(Step(s, e))
  {
    if e.ResumeRegister? {
      forall j: nat | j < |s.registrations| && s.registrations[j].Registered? ensures s.registrations[j].route < |s.routes| {
        assert SoundRegistration(s, s.registrations[j]);
      }
    } else {
      var t := Step(s, e);
      assert forall k | 0 <= k < |t.registrations| && t.registrations[k].Registered? ::
               k < |s.registrations| && s.registrations[k] == t.registrations[k];
    }
  }

  lemma {:induction false} RunsAreDistinct(events: seq<Event>)
    ensures Distinct(Run(events))
  {
    if events != [] {
      RunsKeep(events[..|events| - 1]);
      RunsAreDistinct(events[..|events| - 1]);
      StepIsDistinct(Run(events[..|events| - 1]), events[|events| - 1]);
    }
  }

  /** It waits for no recovery, or for one whose promise has resolved. */
  predicate CanResume(s: State, registration: Registration) {
    && registration.Waiting?
    && (registration.discovery.Some? ==>
          registration.discovery.value < |s.discoveries| && s.discoveries[registration.discovery.value].resolved)
  }

  predicate OwnsOpenRoute(s: State, k: nat)
    requires k < |s.registrations|
  {
    && s.registrations[k].Registered?
    && s.registrations[k].route < |s.routes|
    && s.routes[s.registrations[k].route].open
  }

  /**
    However registrations and recoveries interleave, at most one registration
    owns an open route; one that resumes while a route is active is refused,
    and one that resumes while none is becomes the active route.
  */
  lemma OneRegistrationWins(events: seq<Event>, j: nat, k: nat)
    requires j < |Run(events).registrations| && k < |Run(events).registrations|
    ensures var s := Run(events);
      && (OwnsOpenRoute(s, j) && OwnsOpenRoute(s, k) ==> j == k)
      && (var t := Step(s, ResumeRegister(k));
          if CanResume(s, s.registrations[k])
          then
            && |t.registrations| == |s.registrations|
            && (s.active.Some? ==> t.registrations[k].Refused? && t.active == s.active && t.routes == s.routes)
            && (s.active.None? ==>
                  && t.registrations[k] == Registered(|s.routes|) && t.active == Some(|s.routes|)
                  && t.routes == s.routes + [Route(s.registrations[k].id, true, {})])
          else t == s)
  {
    RunsKeep(events);
    RunsAreDistinct(events);
  }

  /** A reply to a pending request of which no response can be made: its status is not one of 200 to 599, or something else of it is refused. */
  predicate Loses(s: State, e: Event, q: nat) {
    && e.Response? && e.request == q && e.reply.Reply? && !(200 <= e.reply.status <= 599 && e.reply.accepted)
    && e.route < |s.routes| && s.routes[e.route].open && s.routes[e.route].id == e.serverId
    && q < |s.requests| && s.requests[q] == Pending(e.route)
  }

  predicate LosesAt(events: seq<Event>, k: nat, q: nat) {
    k < |events| && Loses(Run(events[..k]), events[k], q)
  }

  /** There was such a reply in the course of a run. */
  ghost predicate WasLost(events: seq<Event>, q: nat) {
    exists k: nat :: LosesAt(events, k, q)
  }

  /** Registrations and discoveries leave the requests alone. */
  lemma OnlyRequestStepsChange(s: State, e: Event)
    ensures OnRegistration(s, e).requests == s.requests && OnDiscovery(s, e).requests == s.requests
  {
  }

  predicate LosesNow(s: State, e: Event, q: nat) {
    q < |Step(s, e).requests| ==>
      (Step(s, e).requests[q].Lost? <==> (q < |s.requests| && s.requests[q].Lost?) || Loses(s, e, q))
  }

  lemma ReplyLoses(s: State, e: Event, q: nat)
    requires Inv(s) && e.Response?
    ensures LosesNow(s, e, q)
  {
    assert Held(s, q, e.route) && Held(s, e.request, e.route);
  }

  lemma OthersLoseNothing(s: State, e: Event, q: nat)
    requires Inv(s) && !e.Response?
    ensures LosesNow(s, e, q)
  {
    OnlyRequestStepsChange(s, e);
    assert Timed(s, q);
    if s.active.Some? { assert Held(s, q, s.active.value); }
  }

  lemma StepKeepsRequests(s: State, e: Event)
    ensures |s.requests| <= |Step(s, e).requests|
  {
  }

  lemma FrontLosesAt(events: seq<Event>, k: nat, q: nat)
    requires k < |events| - 1
    ensures LosesAt(events[..|events| - 1], k, q) <==> LosesAt(events, k, q)
  {
    assert events[..|events| - 1][..k] == events[..k];
  }

  /** A run and one event more: the request was lost before, or is lost now. */
  lemma WasLostSnoc(events: seq<Event>, q: nat)
    requires events != []
    ensures var front, e := events[..|events| - 1], events[|events| - 1];
      WasLost(events, q) <==> WasLost(front, q) || Loses(Run(front), e, q)
  {
    var n := |events| - 1;
    if WasLost(events[..n], q) {
      var k: nat :| LosesAt(events[..n], k, q);
      FrontLosesAt(events, k, q);
    }
    if WasLost(events, q) {
      var k: nat :| LosesAt(events, k, q);
      if k < n { FrontLosesAt(events, k, q); }
    }
    assert Loses(Run(events[..n]), events[n], q) <==> LosesAt(events, n, q);
  }

  /** A request is lost if and only if a reply came, while it was pending, of which no response can be made. */
  lemma {:induction false} LostExactly(events: seq<Event>, q: nat)
    ensures WasLost(events, q) <==> q < |Run(events).requests| && Run(events).requests[q].Lost?
  {
    if events != [] {
      var front, e := events[..|events| - 1], events[|events| - 1];
      LostExactly(front, q);
      WasLostSnoc(events, q);
      RunsKeep(front);
      StepKeepsRequests(Run(front), e);
      if e.Response? { ReplyLoses(Run(front), e, q); } else { OthersLoseNothing(Run(front), e, q); }
    }
  }

  predicate IsForwarded(q: Request) {
    q.Pending? || q.Settled? || q.Lost?
  }

  /**
    A request that was forwarded is settled at most once, and once it is not
    pending any more it has been settled if and only if no reply came, while it
    was pending, of which no response can be made. While it is pending it is in
    its route's map and has a live timer, which would settle it; before and
    after, it has neither.
  */
  lemma SettledOnce(events: seq<Event>, q: nat)
    requires q < |Run(events).requests|
    ensures var s := Run(events);
      && (IsForwarded(s.requests[q]) && !s.requests[q].Pending? ==> s.settlements[q] == if WasLost(events, q) then 0 else 1)
      && s.settlements[q] == (if s.requests[q].Settled? then 1 else 0)
      && (q in s.timers <==> s.requests[q].Pending?)
      && (forall r: nat | r < |s.routes| :: q in s.routes[r].pending <==> s.requests[q] == Pending(r))
      && (s.requests[q].Pending? ==> |Step(s, Timer(q)).requests| == |s.requests| && Step(s, Timer(q)).requests[q] == Settled(TimedOut))
  {
    RunsKeep(events);
    LostExactly(events, q);
    var s := Run(events);
    assert Timed(s, q);
    assert SoundRequest(s, s.requests[q]);
    forall r: nat | r < |s.routes| ensures q in s.routes[r].pending <==> s.requests[q] == Pending(r) {
      assert Held(s, q, r);
    }
  }

  // ----- what settled a request -----

  /** How an event settles a pending request: its host's reply, its timer, or the close of its route. */
  function Ending(s: State, e: Event, q: nat): Option<How> {
    if q >= |s.requests| || !s.requests[q].Pending? then None
    else
      var r := s.requests[q].route;
      if r >= |s.routes| then None
      else
        match e
        case Timer(k) => if k == q then Some(TimedOut) else None
        case Response(j, serverId, k, reply) =>
          if j != r || k != q || !s.routes[r].open || serverId != s.routes[r].id then None
          else if reply.Error? then Some(Failed)
          else if reply.accepted && 200 <= reply.status <= 599 then Some(Answered)
          else None
        case CloseMessage(j, serverId) =>
          if s.active == Some(r) && j == r && serverId == s.routes[r].id then Some(Closed) else None
        case _ => None
  }

  predicate EndsAt(events: seq<Event>, k: nat, q: nat, how: How) {
    k < |events| && Ending(Run(events[..k]), events[k], q) == Some(how)
  }

  predicate SettlesAs(s: State, e: Event, q: nat, how: How) {
    q < |Step(s, e).requests| ==>
      (Step(s, e).requests[q] == Settled(how) <==>
       (q < |s.requests| && s.requests[q] == Settled(how)) || Ending(s, e, q) == Some(how))
  }

  lemma ReplyEnds(s: State, e: Event, q: nat, how: How)
    requires Inv(s) && e.Response?
    ensures SettlesAs(s, e, q, how)
  {
    assert Held(s, q, e.route) && Held(s, e.request, e.route);
  }

  lemma TimerEnds(s: State, e: Event, q: nat, how: How)
    requires Inv(s) && e.Timer?
    ensures SettlesAs(s, e, q, how)
  {
    assert Timed(s, q) && Timed(s, e.request);
    if q < |s.requests| { assert SoundRequest(s, s.requests[q]); }
  }

  lemma CloseEnds(s: State, e: Event, q: nat, how: How)
    requires Inv(s) && e.CloseMessage?
    ensures SettlesAs(s, e, q, how)
  {
    if s.active.Some? { assert Held(s, q, s.active.value); }
    if e.route < |s.routes| { assert s.routes[e.route].open <==> s.active == Some(e.route); }
  }

  lemma OthersEndNothing(s: State, e: Event, q: nat, how: How)
    requires Inv(s) && !e.Response? && !e.Timer? && !e.CloseMessage?
    ensures SettlesAs(s, e, q, how)
  {
    OnlyRequestStepsChange(s, e);
  }

  lemma StepEnds(s: State, e: Event, q: nat, how: How)
    requires Inv(s)
    ensures SettlesAs(s, e, q, how)
  {
    match e
    case Response(_, _, _, _) => ReplyEnds(s, e, q, how);
    case Timer(_) => TimerEnds(s, e, q, how);
    case CloseMessage(_, _) => CloseEnds(s, e, q, how);
    case _ => OthersEndNothing(s, e, q, how);
  }

  lemma FrontEndsAt(events: seq<Event>, k: nat, q: nat, how: How)
    requires k < |events| - 1
    ensures EndsAt(events[..|events| - 1], k, q, how) <==> EndsAt(events, k, q, how)
  {
    assert events[..|events| - 1][..k] == events[..k];
  }

  ghost predicate Happened(events: seq<Event>, q: nat, how: How) {
    exists k: nat :: EndsAt(events, k, q, how)
  }

  lemma HappenedSnoc(events: seq<Event>, q: nat, how: How)
    requires events != []
    ensures var n := |events| - 1;
      Happened(events, q, how) <==> Happened(events[..n], q, how) || Ending(Run(events[..n]), events[n], q) == Some(how)
  {
    var n := |events| - 1;
    if Happened(events[..n], q, how) {
      var k: nat :| EndsAt(events[..n], k, q, how);
      FrontEndsAt(events, k, q, how);
    }
    if Happened(events, q, how) {
      var k: nat :| EndsAt(events, k, q, how);
      if k < n { FrontEndsAt(events, k, q, how); }
    }
    assert Ending(Run(events[..n]), events[n], q) == Some(how) <==> EndsAt(events, n, q, how);
  }

  /**
    A request is settled in one way if and only if, in the course of the run,
    that happened to it while it was pending: answered by a reply of which a
    response can be made, failed by an error, timed out by its own timer, or
    closed with its route.
  */
  lemma {:induction false} SettledAsItHappened(events: seq<Event>, q: nat, how: How)
    ensures q < |Run(events).requests| && Run(events).requests[q] == Settled(how) <==> Happened(events, q, how)
  {
    if events != [] {
      var n := |events| - 1;
      var front, e := events[..n], events[n];
      SettledAsItHappened(front, q, how);
      HappenedSnoc(events, q, how);
      RunsKeep(front);
      StepKeepsRequests(Run(front), e);
      StepEnds(Run(front), e, q, how);
    }
  }

  // ----- where a fetch goes -----

  /**
    A fetch goes to the active route at once; with none it waits for the one
    recovery under way, or for a new one. A recovery that resolves sends it to
    the route that it found, or leaves it to the network.
  */
  lemma FetchesFollowRecovery(events: seq<Event>, q: nat)
    ensures var s := Run(events);
      var t := Step(s, Fetch);
      && |t.requests| == |s.requests| + 1 && t.requests[..|s.requests|] == s.requests && t.routes == s.routes
      && (if s.active.Some? then t.requests[|s.requests|] == Reading(s.active.value) && t.discoveries == s.discoveries
          else
            && t.recovery.Some? && t.requests[|s.requests|] == Recovering(t.recovery.value)
            && (if s.recovery.Some? then t.recovery == s.recovery && t.discoveries == s.discoveries
                else t.recovery == Some(|s.discoveries|) && t.discoveries == s.discoveries + [Discovery(None, None, false)]))
    ensures var s := Run(events);
      var t := Step(s, ResumeFetch(q));
      if q < |s.requests| && s.requests[q].Recovering? && s.requests[q].discovery < |s.discoveries|
         && s.discoveries[s.requests[q].discovery].resolved
      then
        var found := s.discoveries[s.requests[q].discovery].result;
        found.Some? && t == s.(requests := s.requests[q := if found.value.Some? then Reading(found.value.value) else PassedOn])
      else t == s
  {
    RunsKeep(events);
  }

  /** A registration waits for no recovery while a route is active; else for the one under way, or a new one. */
  lemma RegistrationsWait(events: seq<Event>, id: Id)
    ensures var s := Run(events);
      var t := Step(s, Register(id));
      && |t.registrations| == |s.registrations| + 1 && t.registrations[..|s.registrations|] == s.registrations && t.routes == s.routes
      && t.registrations[|s.registrations|] == Waiting(id, if s.active.Some? then None else t.recovery)
      && (s.active.None? ==> t.recovery.Some?)
      && (s.active.Some? || s.recovery.Some? ==> t.discoveries == s.discoveries && t.recovery == s.recovery)
      && (s.active.None? && s.recovery.None? ==> t.discoveries == s.discoveries + [Discovery(None, None, false)])
  {
  }

  /** How many hosts a discovery still waits for, by the events alone. */
  function HostsLeft(events: seq<Event>, d: nat): Option<nat> {
    if events == [] then None
    else
      var before, e := events[..|events| - 1], events[|events| - 1];
      var left := HostsLeft(before, d);
      if left.None? then (if e.Matched? && e.discovery == d && d < |Run(before).discoveries| then Some(e.hosts) else None)
      else if left.value > 0 && (e.HostAnswers? || e.HostHasNone?) && e.discovery == d then Some(left.value - 1)
      else left
  }

  lemma StepCountsHosts(s: State, e: Event, d: nat)
    requires d < |Step(s, e).discoveries|
    ensures d < |s.discoveries| ==>
      var left := s.discoveries[d].hosts;
      Step(s, e).discoveries[d].hosts ==
        if left.None? then (if e.Matched? && e.discovery == d then Some(e.hosts) else None)
        else if left.value > 0 && (e.HostAnswers? || e.HostHasNone?) && e.discovery == d then Some(left.value - 1)
        else left
    ensures d >= |s.discoveries| ==> Step(s, e).discoveries[d].hosts == None && !e.Matched?
  {
  }

  lemma {:induction false} NoHostsYet(events: seq<Event>, d: nat)
    requires d >= |Run(events).discoveries|
    ensures HostsLeft(events, d) == None
  {
    if events != [] {
      DiscoveriesStay(Run(events[..|events| - 1]), events[|events| - 1]);
      NoHostsYet(events[..|events| - 1], d);
    }
  }

  lemma DiscoveriesStay(s: State, e: Event)
    ensures |s.discoveries| <= |Step(s, e).discoveries|
  {
  }

  lemma {:induction false} HostsAreCounted(events: seq<Event>, d: nat)
    requires d < |Run(events).discoveries|
    ensures Run(events).discoveries[d].hosts == HostsLeft(events, d)
  {
    if events != [] {
      var before, e := events[..|events| - 1], events[|events| - 1];
      StepCountsHosts(Run(before), e, d);
      if d < |Run(before).discoveries| { HostsAreCounted(before, d); } else { NoHostsYet(before, d); }
    }
  }

  /**
    A discovery ends only when every host it asked has answered or been given
    up, and then with the route that is active at that moment; a host's route
    becomes active if and only if none is.
  */
  lemma DiscoveriesAskAll(events: seq<Event>, d: nat, id: Id)
    requires d < |Run(events).discoveries|
    ensures var s := Run(events);
      && (var t := Step(s, Discovered(d));
          if HostsLeft(events, d) == Some(0) && s.discoveries[d].result.None?
          then t == s.(discoveries := s.discoveries[d := s.discoveries[d].(result := Some(s.active))]) else t == s)
      && (var t := Step(s, HostAnswers(d, id));
          if HostsLeft(events, d).Some? && HostsLeft(events, d).value > 0 && s.active.None?
          then t.active == Some(|s.routes|) && t.routes == s.routes + [Route(id, true, {})]
          else t.active == s.active && t.routes == s.routes)
      && (var t := Step(s, Resolves(d));
          if s.discoveries[d].result.Some? && s.recovery == Some(d)
          then t == s.(recovery := None, discoveries := s.discoveries[d := s.discoveries[d].(resolved := true)]) else t == s)
  {
    RunsKeep(events);
    HostsAreCounted(events, d);
  }

  /** Replies and timers for a request that is not pending change nothing. */
  lemma StrayRepliesChangeNothing(events: seq<Event>, r: nat, serverId: Id, q: nat, reply: Reply)
    requires q < |Run(events).requests| ==> !Run(events).requests[q].Pending?
    ensures Step(Run(events), Response(r, serverId, q, reply)) == Run(events)
    ensures Step(Run(events), Timer(q)) == Run(events)
  {
    RunsKeep(events);
    assert Held(Run(events), q, r);
    assert Timed(Run(events), q);
  }

  lemma StepSettles(s: State, e: Event, q: nat)
    requires Inv(s) && q < |s.requests| && (s.requests[q].Settled? || s.requests[q].Lost?)
    ensures q < |Step(s, e).requests| && Step(s, e).requests[q] == s.requests[q]
  {
    OnlyRequestStepsChange(s, e);
    assert Timed(s, q);
    if s.active.Some? { assert Held(s, q, s.active.value); }
    if e.Response? { assert Held(s, q, e.route); }
  }

  /** How a request was settled never changes, and one that is lost is never settled: by no reply, timer or close. */
  lemma {:induction false} SettledForGood(events: seq<Event>, more: seq<Event>, q: nat)
    requires q < |Run(events).requests| && (Run(events).requests[q].Settled? || Run(events).requests[q].Lost?)
    ensures q < |Run(events + more).requests| && Run(events + more).requests[q] == Run(events).requests[q]
  {
    if more == [] {
      assert events + more == events;
    } else {
      var front := events + more[..|more| - 1];
      assert (events + more)[..|events + more| - 1] == front;
      SettledForGood(events, more[..|more| - 1], q);
      RunsKeep(front);
      StepSettles(Run(front), more[|more| - 1], q);
    }
  }

  /** Closing the active route settles every request pending on it, and no other. */
  lemma ClosingSettlesAll(events: seq<Event>, q: nat)
    requires Run(events).active.Some? && q < |Run(events).requests|
    ensures var s := Run(events);
      var r := s.active.value;
      && r < |s.routes|
      && var t := Step(s, CloseMessage(r, s.routes[r].id));
         && t.active.None? && |t.requests| == |s.requests|
         && t.requests[q] == if s.requests[q] == Pending(r) then Settled(Closed) else s.requests[q]
  {
    RunsKeep(events);
    assert Held(Run(events), q, Run(events).active.value);
  }

  /** A request is pending on a route that is closed. */
  predicate IsLate(s: State, q: nat) {
    q < |s.requests| && s.requests[q].Pending? && s.active != Some(s.requests[q].route)
  }

  lemma LateStays(s: State, e: Event, q: nat, r: nat)
    requires q < |s.requests| && s.requests[q] == Pending(r) && r < |s.routes| && !s.routes[r].open && e != Timer(q)
    requires forall j: nat | j < |s.routes| && j != r :: q !in s.routes[j].pending
    requires s.active != Some(r)
    ensures q < |Step(s, e).requests| && Step(s, e).requests[q] == s.requests[q] && Step(s, e).active != Some(r)
  {
  }

  lemma LateGoesOn(s: State, e: Event, q: nat)
    requires Inv(s) && IsLate(s, q) && e != Timer(q)
    ensures IsLate(Step(s, e), q) && Step(s, e).requests[q] == s.requests[q]
  {
    assert SoundRequest(s, s.requests[q]);
    forall j: nat | j < |s.routes| && Pending(j) != s.requests[q] ensures q !in s.routes[j].pending {
      assert Held(s, q, j);
    }
    LateStays(s, e, q, s.requests[q].route);
  }

  /**
    A request whose body was still being read when its route closed is
    forwarded on the closed route all the same. Over every run from there on,
    nothing but its own timer settles it, and its timer does.
  */
  lemma {:induction false} LateRequestsOnlyTimeOut(events: seq<Event>, more: seq<Event>, q: nat)
    requires IsLate(Run(events), q) && Timer(q) !in more
    ensures var s := Run(events + more);
      && IsLate(s, q) && s.requests[q] == Run(events).requests[q]
      && |Step(s, Timer(q)).requests| == |s.requests| && Step(s, Timer(q)).requests[q] == Settled(TimedOut)
  {
    if more == [] {
      assert events + more == events;
    } else {
      var front := events + more[..|more| - 1];
      assert (events + more)[..|events + more| - 1] == front;
      LateRequestsOnlyTimeOut(events, more[..|more| - 1], q);
      RunsKeep(front);
      LateGoesOn(Run(front), more[|more| - 1], q);
    }
    SettledOnce(events + more, q);
  }

  /** One route, opened by a registration, and one request on it. */
  function WithRoute(active: Option<nat>, open: bool, pending: set<nat>, requests: seq<Request>, timers: set<nat>): State {
    State(active, None, [Route("a", open, pending)], [Discovery(Some(0), Some(None), true)], [Registered(0)],
          requests, timers, multiset{})
  }

  lemma RunSnoc(events: seq<Event>, e: Event)
    ensures Run(events + [e]) == Step(Run(events), e)
  {
    assert (events + [e])[..|events|] == events;
  }

  lemma ARegistration() returns (events: seq<Event>)
    ensures Run(events) == WithRoute(Some(0), true, {}, [], {})
  {
    var start := [];
    RunSnoc(start, Register("a"));
    var s1 := Run(start + [Register("a")]);
    assert s1 == State(None, Some(0), [], [Discovery(None, None, false)], [Waiting("a", Some(0))], [], {}, multiset{});
    RunSnoc(start + [Register("a")], Matched(0, 0));
    var e2 := start + [Register("a")] + [Matched(0, 0)];
    assert Run(e2) == s1.(discoveries := [Discovery(Some(0), None, false)]);
    RunSnoc(e2, Discovered(0));
    assert Run(e2 + [Discovered(0)]) == s1.(discoveries := [Discovery(Some(0), Some(None), false)]);
    RunSnoc(e2 + [Discovered(0)], Resolves(0));
    var e4 := e2 + [Discovered(0)] + [Resolves(0)];
    assert Run(e4) == s1.(discoveries := [Discovery(Some(0), Some(None), true)], recovery := None);
    RunSnoc(e4, ResumeRegister(0));
    events := e4 + [ResumeRegister(0)];
  }

  /** Such a request can be reached: a fetch on the active route, the close of that route, and the rest of the body. */
  lemma ARequestCanBeLate() returns (events: seq<Event>)
    ensures IsLate(Run(events), 0)
  {
    var registered := ARegistration();
    RunSnoc(registered, Fetch);
    var fetched := registered + [Fetch];
    assert Run(fetched) == WithRoute(Some(0), true, {}, [Reading(0)], {});
    RunSnoc(fetched, CloseMessage(0, "a"));
    var closed := fetched + [CloseMessage(0, "a")];
    assert AllClosed([Reading(0)], {}) == [Reading(0)];
    assert Run(closed) == WithRoute(None, false, {}, [Reading(0)], {});
    RunSnoc(closed, BodyRead(0));
    events := closed + [BodyRead(0)];
  }

  lemma ForwardingSteps()
    ensures var forwarded := WithRoute(Some(0), true, {0}, [Pending(0)], {0});
      && Step(WithRoute(Some(0), true, {}, [Reading(0)], {}), BodyRead(0)) == forwarded
      && Step(forwarded, Response(0, "a", 0, Reply(101, true))) == WithRoute(Some(0), true, {}, [Lost], {})
  {
    assert Route("a", true, {}).(pending := {} + {0}) == Route("a", true, {0});
    assert Route("a", true, {0}).(pending := {0} - {0}) == Route("a", true, {});
    assert {0} - {0} == {} && {} + {0} == {0};
  }

  /** And so can a lost one: the host passes on the interim response that a guest began with. */
  lemma ARequestCanBeLost() returns (events: seq<Event>)
    ensures |Run(events).requests| == 1 && Run(events).requests[0].Lost?
    ensures Run(events).timers == {} && Run(events).settlements == multiset{}
  {
    var registered := ARegistration();
    RunSnoc(registered, Fetch);
    var fetched := registered + [Fetch];
    assert Run(fetched) == WithRoute(Some(0), true, {}, [Reading(0)], {});
    RunSnoc(fetched, BodyRead(0));
    var forwarded := fetched + [BodyRead(0)];
    ForwardingSteps();
    var switching := Response(0, "a", 0, Reply(101, true));
    RunSnoc(forwarded, switching);
    events := forwarded + [switching];
  }

  // ----- the worker -----

  lemma CloseOne(requests: seq<Request>, closed: set<nat>, q: nat)
    requires q < |requests| && q !in closed
    ensures AllClosed(requests, closed + {q}) == AllClosed(requests, closed)[q := Settled(Closed)]
    ensures multiset(closed + {q}) == multiset(closed) + multiset{q}
  {
  }

  /** The module's variables, and the maps and promises of its routes, with its handlers run one at a time. */
  class Worker {
    var activeRoute: Option<nat>
    var recovery: Option<nat>
    var routes: seq<Route>
    var discoveries: seq<Discovery>
    var registrations: seq<Registration>
    var requests: seq<Request>
    var timers: set<nat>
    var settlements: multiset<nat>

    function View(): State
      reads this
    {
      State(activeRoute, recovery, routes, discoveries, registrations, requests, timers, settlements)
    }

    ghost predicate Valid()
      reads this
    {
      Inv(View())
    }

    constructor ()
      ensures Valid() && View() == INIT
    {
      activeRoute, recovery, routes, discoveries, registrations, requests := None, None, [], [], [], [];
      timers, settlements := {}, multiset{};
    }

    method Activate(id: Id)
      modifies this`activeRoute, this`routes
      ensures View() == RegisterRoute(old(View()), id)
    {
      activeRoute := Some(|routes|);
      routes := routes + [Route(id, true, {})];
    }

    method ResumeRegistration(k: nat)
      requires Valid() && k < |registrations| && registrations[k].Waiting?
      requires registrations[k].discovery.Some? ==> Resolved(View(), registrations[k].discovery.value)
      modifies this
      ensures Valid() && View() == Step(old(View()), ResumeRegister(k))
    {
      StepKeeps(View(), ResumeRegister(k));
      if activeRoute.Some? {
        registrations := registrations[k := Refused];
        return;
      }
      var r := |routes|;
      Activate(registrations[k].id);
      registrations := registrations[k := Registered(r)];
    }

    /** A host's answer to a probe of a discovery. */
    method ReceiveHost(d: nat, id: Id)
      requires Valid() && d < |discoveries| && discoveries[d].hosts.Some? && discoveries[d].hosts.value > 0
      modifies this
      ensures Valid() && View() == Step(old(View()), HostAnswers(d, id))
    {
      StepKeeps(View(), HostAnswers(d, id));
      if activeRoute.None? { Activate(id); }
      discoveries := discoveries[d := discoveries[d].(hosts := Some(discoveries[d].hosts.value - 1))];
    }

    /** A response that cannot be made throws after the request has been taken off its route. */
    method ReceiveResponse(r: nat, serverId: Id, q: nat, reply: Reply)
      requires Valid() && r < |routes| && routes[r].open
      modifies this
      ensures Valid() && View() == Step(old(View()), Response(r, serverId, q, reply))
    {
      StepKeeps(View(), Response(r, serverId, q, reply));
      assert Held(View(), q, r);
      if serverId != routes[r].id || q !in routes[r].pending { return; }
      routes := routes[r := routes[r].(pending := routes[r].pending - {q})];
      timers := timers - {q};
      if !reply.Error? && !Constructible(reply) {
        requests := requests[q := Lost];
        return;
      }
      requests := requests[q := Settled(if reply.Error? then Failed else Answered)];
      settlements := settlements + multiset{q};
    }

    /** The loop of `closeRoute` over the pending requests. */
    method SettlePending(pending: set<nat>)
      requires forall q | q in pending :: q < |requests|
      modifies this`timers, this`settlements, this`requests
      ensures timers == old(timers) - pending
      ensures settlements == old(settlements) + multiset(pending)
      ensures requests == AllClosed(old(requests), pending)
    {
      var rest := pending;
      ghost var done: set<nat> := {};
      while rest != {}
        invariant rest !! done && rest + done == pending
        invariant timers == old(timers) - done
        invariant settlements == old(settlements) + multiset(done)
        invariant requests == AllClosed(old(requests), done)
        decreases |rest|
      {
        var q :| q in rest;
        CloseOne(old(requests), done, q);
        timers := timers - {q};
        settlements := settlements + multiset{q};
        requests := requests[q := Settled(Closed)];
        rest, done := rest - {q}, done + {q};
      }
      assert done == pending;
    }

    method Close(serverId: Id)
      requires Valid()
      modifies this
      ensures Valid() && View() == CloseRoute(old(View()), serverId)
    {
      CloseKeeps(View(), serverId);
      if activeRoute.None? || routes[activeRoute.value].id != serverId { return; }
      var r := activeRoute.value;
      forall q | q in routes[r].pending ensures q < |requests| {
        assert Held(View(), q, r);
      }
      activeRoute := None;
      SettlePending(routes[r].pending);
      routes := routes[r := Route(routes[r].id, false, {})];
    }
  }
}
