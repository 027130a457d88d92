/**
  The replaceable connection of js/src/wisp-network.ts. Every step runs one
  handler, or one stretch of `#connect` between two awaits, to completion;
  these steps interleave in any order, and connections may report opening,
  failing and closing at any time, in any order and late.
*/
module WispConnection {
  import opened Bytes

  type Url = nat

  /** Where the URL of a connection attempt came from: `#url`, or the provider's answer to a request at some revision. */
  datatype Origin = Configured | Answered(requestRevision: nat)

  /** A `wisp.ClientConnection`, with the revision at which it was opened. */
  datatype Connection = Connection(endpoint: Url, revision: nat, origin: Origin, settled: bool)

  /** One run of `#connect` and the `#getConnection` that started it. */
  datatype Call =
    | Asking(revision: nat)
    | ProviderDone(revision: nat, answer: Option<Url>)
    | Awaiting(connection: nat, revision: nat)
    | Opened(connection: nat)
    | Rejected(revision: nat)
    | Settled(result: Option<nat>)
    | Finished

  datatype State = State(
    url: Option<Url>, revision: nat, closed: bool,
    connection: Option<nat>, opening: Option<nat>, promise: Option<nat>,
    connections: seq<Connection>, calls: seq<Call>)

  /** What stays the same: whether there is a provider, and `validateWispUrl(url).href`. */
  datatype Config = Config(hasProvider: bool, validate: Url -> Option<Url>)

  datatype Event =
    | GetConnection
    | ProviderAnswers(call: nat, answer: Option<Url>)
    | Resume(call: nat)
    | Finally(call: nat)
    | OnOpen(connection: nat)
    | OnError(connection: nat)
    | OnClose(connection: nat)
    | SetUrl(url: Url)
    | CloseBridge

  function Init(url: Option<Url>): State {
    State(url, 0, false, None, None, None, [], [])
  }

  function SetCall(s: State, k: nat, call: Call): State {
    if k < |s.calls| then s.(calls := s.calls[k := call]) else s
  }

  /** Nothing to try: ask the provider, or fail. */
  function Ask(cfg: Config, s: State, k: nat): State {
    SetCall(s, k, if cfg.hasProvider then Asking(s.revision) else Settled(None))
  }

  /** Around the loop of `#connect` with this URL, up to its next await. */
  function Try(cfg: Config, s: State, k: nat, url: Option<Url>, origin: Origin): State {
    if url.None? then Ask(cfg, s, k)
    else if cfg.validate(url.value).None? then (if s.closed then SetCall(s, k, Settled(None)) else Ask(cfg, s, k))
    else
      var c := |s.connections|;
      SetCall(s, k, Awaiting(c, s.revision)).(
        connections := s.connections + [Connection(cfg.validate(url.value).value, s.revision, origin, false)],
        opening := Some(c))
  }

  /** `#getConnection`: the installed connection and a pending promise are shared; otherwise a new `#connect` starts. */
  function Get(cfg: Config, s: State): State {
    if s.closed || s.connection.Some? || s.promise.Some? then s
    else Try(cfg, s.(promise := Some(|s.calls|), calls := s.calls + [Settled(None)]), |s.calls|, s.url, Configured)
  }

  /** `#connect` after an await. */
  function Continue(cfg: Config, s: State, k: nat): State {
    if k >= |s.calls| then s
    else
      match s.calls[k]
      case ProviderDone(revision, answer) =>
        if answer.None? then SetCall(s, k, Settled(None))
        else if revision != s.revision then Try(cfg, s, k, s.url, Configured)
        else Try(cfg, s, k, answer, Answered(revision))
      case Opened(c) => SetCall(s, k, Settled(Some(c)))
      case Rejected(revision) =>
        if s.closed then SetCall(s, k, Settled(None))
        else if revision != s.revision then Try(cfg, s, k, s.url, Configured)
        else Ask(cfg, s, k)
      case _ => s
  }

  function Settle(s: State, c: nat): State {
    if c < |s.connections| then s.(connections := s.connections[c := s.connections[c].(settled := true)]) else s
  }

  /** Where a call that waits for connection `c` goes on once the handshake is over. */
  function Notified(call: Call, c: nat, success: bool): Call {
    if call.Awaiting? && call.connection == c then (if success then Opened(c) else Rejected(call.revision)) else call
  }

  function Notify(calls: seq<Call>, c: nat, success: bool): seq<Call> {
    seq(|calls|, k requires 0 <= k < |calls| => Notified(calls[k], c, success))
  }

  /** `rejectHandshake`. */
  function RejectHandshake(s: State, c: nat): State {
    if c >= |s.connections| || s.connections[c].settled then s
    else Settle(s, c).(opening := if s.opening == Some(c) then None else s.opening, calls := Notify(s.calls, c, false))
  }

  function Open(s: State, c: nat): State {
    if c >= |s.connections| then s
    else if s.closed || s.opening != Some(c) then RejectHandshake(s, c)
    else Settle(s, c).(opening := None, url := Some(s.connections[c].endpoint), connection := Some(c),
                       calls := Notify(s.calls, c, true))
  }

  function Close(s: State, c: nat): State {
    if c >= |s.connections| then s
    else if !s.connections[c].settled then RejectHandshake(s, c)
    else if s.connection == Some(c) then s.(connection := None)
    else s
  }

  function Step(cfg: Config, s: State, e: Event): State {
    match e
    case GetConnection => Get(cfg, s)
    case ProviderAnswers(k, answer) =>
      if k < |s.calls| && s.calls[k].Asking? then SetCall(s, k, ProviderDone(s.calls[k].revision, answer)) else s
    case Resume(k) => Continue(cfg, s, k)
    case Finally(k) =>
      if k < |s.calls| && s.calls[k].Settled?
      then SetCall(s, k, Finished).(promise := if s.promise == Some(k) then None else s.promise)
      else s
    case OnOpen(c) => Open(s, c)
    case OnError(c) => RejectHandshake(s, c)
    case OnClose(c) => Close(s, c)
    case SetUrl(url) =>
      if s.closed || cfg.validate(url).None? then s
      else s.(url := cfg.validate(url), revision := s.revision + 1, opening := None, connection := None)
    case CloseBridge => if s.closed then s else s.(closed := true, opening := None, connection := None)
  }

  function Run(cfg: Config, url: Option<Url>, events: seq<Event>): State {
    if events == [] then Init(url)
    else Step(cfg, Run(cfg, url, events[..|events| - 1]), events[|events| - 1])
  }

  // ----- what every step keeps -----

  /** The call is still looking for a connection. */
  predicate Seeking(call: Call) {
    call.Asking? || call.ProviderDone? || call.Awaiting? || call.Rejected?
  }

  /** The live call is the one behind `#connectionPromise`, and there is no other. */
  ghost predicate OneCall(s: State) {
    && (s.promise.Some? ==> s.promise.value < |s.calls|)
    && (forall k | 0 <= k < |s.calls| :: !s.calls[k].Finished? <==> s.promise == Some(k))
  }

  /** A connection records the revision of the moment it was opened, which is that of the request that produced its URL. */
  predicate SoundConnection(s: State, c: Connection) {
    && c.revision <= s.revision
    && (c.origin.Answered? ==> c.origin.requestRevision == c.revision)
  }

  predicate SoundCall(s: State, call: Call) {
    && (Seeking(call) ==> s.connection.None?)
    && (call.Awaiting? ==>
          && call.connection < |s.connections|
          && !s.connections[call.connection].settled
          && call.revision == s.connections[call.connection].revision)
    && (call.Opened? ==> call.connection < |s.connections|)
    && (call.Settled? && call.result.Some? ==> call.result.value < |s.connections|)
  }

  /** Someone waits for the handshake of connection `c`. */
  predicate Awaited(s: State, c: nat) {
    && s.promise.Some?
    && s.promise.value < |s.calls|
    && s.calls[s.promise.value].Awaiting?
    && s.calls[s.promise.value].connection == c
  }

  predicate SoundOpening(s: State) {
    s.opening.Some? ==>
      && s.opening.value < |s.connections|
      && !s.connections[s.opening.value].settled
      && s.connections[s.opening.value].revision == s.revision
  }

  predicate SoundInstalled(s: State) {
    s.connection.Some? ==>
      && !s.closed
      && s.connection.value < |s.connections|
      && s.connections[s.connection.value].settled
      && s.connections[s.connection.value].revision == s.revision
      && s.url == Some(s.connections[s.connection.value].endpoint)
  }

  ghost predicate Inv(s: State) {
    && OneCall(s)
    && (forall c | 0 <= c < |s.connections| :: SoundConnection(s, s.connections[c]))
    && (forall k | 0 <= k < |s.calls| :: SoundCall(s, s.calls[k]))
    && (forall c: nat | c < |s.connections| :: s.connections[c].settled || Awaited(s, c))
    && SoundOpening(s)
    && SoundInstalled(s)
  }

  /** A live call may look for another connection when it has none. */
  lemma TryKeeps(cfg: Config, s: State, k: nat, url: Option<Url>, origin: Origin)
    requires Inv(s) && s.promise == Some(k) && s.connection.None? && !s.calls[k].Awaiting?
    requires origin.Answered? ==> origin.requestRevision == s.revision
    ensures Inv(Try(cfg, s, k, url, origin))
  {
  }

  lemma GetKeeps(cfg: Config, s: State)
    requires Inv(s)
    ensures Inv(Get(cfg, s))
  {
    if !s.closed && s.connection.None? && s.promise.None? {
      var t := s.(promise := Some(|s.calls|), calls := s.calls + [Settled(None)]);
      assert Inv(t);
      TryKeeps(cfg, t, |s.calls|, s.url, Configured);
    }
  }

  lemma ContinueKeeps(cfg: Config, s: State, k: nat)
    requires Inv(s)
    ensures Inv(Continue(cfg, s, k))
  {
    if k < |s.calls| && (s.calls[k].ProviderDone? || s.calls[k].Rejected?) {
      TryKeeps(cfg, s, k, s.url, Configured);
      if s.calls[k].ProviderDone? && s.calls[k].revision == s.revision {
        TryKeeps(cfg, s, k, s.calls[k].answer, Answered(s.revision));
      }
    }
  }

  lemma RejectKeeps(s: State, c: nat)
    requires Inv(s)
    ensures Inv(RejectHandshake(s, c))
  {
  }

  lemma OpenKeeps(s: State, c: nat)
    requires Inv(s)
    ensures Inv(Open(s, c))
  {
    RejectKeeps(s, c);
  }

  lemma StepKeeps(cfg: Config, s: State, e: Event)
    requires Inv(s)
    ensures Inv(Step(cfg, s, e))
  {
    match e
    case GetConnection => GetKeeps(cfg, s);
    case Resume(k) => ContinueKeeps(cfg, s, k);
    case OnOpen(c) => OpenKeeps(s, c);
    case OnError(c) => RejectKeeps(s, c);
    case OnClose(c) => RejectKeeps(s, c);
    case _ =>
  }

  lemma {:induction false} RunsKeep(cfg: Config, url: Option<Url>, events: seq<Event>)
    ensures Inv(Run(cfg, url, events))
  {
    if events != [] {
      RunsKeep(cfg, url, events[..|events| - 1]);
      StepKeeps(cfg, Run(cfg, url, events[..|events| - 1]), events[|events| - 1]);
    }
  }

  // ----- main results -----

  /**
    In every run at most one `#connect` is live and at most one handshake is
    under way. A pending connection promise is never stuck: its call can go on,
    or waits for the provider, or for a handshake that has not been answered.
  */
  lemma OneConnectAtATime(cfg: Config, url: Option<Url>, events: seq<Event>)
    ensures var s := Run(cfg, url, events);
      && (forall j, k | 0 <= j < |s.calls| && 0 <= k < |s.calls| :: !s.calls[j].Finished? && !s.calls[k].Finished? ==> j == k)
      && (forall c, d | 0 <= c < |s.connections| && 0 <= d < |s.connections| ::
            !s.connections[c].settled && !s.connections[d].settled ==> c == d)
      && (s.promise.Some? ==>
            && s.promise.value < |s.calls|
            && !s.calls[s.promise.value].Finished?
            && (s.calls[s.promise.value].Awaiting? ==>
                  && s.calls[s.promise.value].connection < |s.connections|
                  && !s.connections[s.calls[s.promise.value].connection].settled))
  {
    RunsKeep(cfg, url, events);
  }

  /**
    The installed connection is the one for `#url`, opened since the last
    change of endpoint; if the provider named it, the provider was asked since
    then too. A closed bridge has none.
  */
  lemma InstalledIsCurrent(cfg: Config, url: Option<Url>, events: seq<Event>)
    ensures var s := Run(cfg, url, events);
      s.connection.Some? ==>
        && !s.closed
        && s.connection.value < |s.connections|
        && var c := s.connections[s.connection.value];
           && s.url == Some(c.endpoint)
           && c.revision == s.revision
           && (c.origin.Answered? ==> c.origin.requestRevision == s.revision)
  {
    RunsKeep(cfg, url, events);
  }

  /** While a handshake is under way, no connection is installed. */
  lemma OpeningOrInstalled(s: State)
    requires Inv(s) && s.opening.Some?
    ensures s.connection.None?
  {
    assert Awaited(s, s.opening.value);
  }

  lemma StepInstalls(cfg: Config, s: State, e: Event)
    requires Step(cfg, s, e).connection.Some? && Step(cfg, s, e).connection != s.connection
    ensures !s.closed && s.opening.Some? && e == OnOpen(s.opening.value) && Step(cfg, s, e).connection == s.opening
  {
  }

  /** A connection is installed by its own `onopen`, while it is the one being opened on an open bridge, and in no other way. */
  lemma InstalledOnlyByOpening(cfg: Config, url: Option<Url>, events: seq<Event>, e: Event)
    ensures var s := Run(cfg, url, events);
      var t := Step(cfg, s, e);
      t.connection.Some? && t.connection != s.connection ==>
        && e == OnOpen(t.connection.value)
        && s.opening == t.connection
        && !s.closed
        && s.connection.None?
  {
    RunsKeep(cfg, url, events);
    var s := Run(cfg, url, events);
    var t := Step(cfg, s, e);
    if t.connection.Some? && t.connection != s.connection {
      StepInstalls(cfg, s, e);
      OpeningOrInstalled(s);
    }
  }

  /** What is known of the past stays known. */
  predicate Since(s: State, t: State) {
    && s.revision <= t.revision
    && (s.closed ==> t.closed)
    && |s.connections| <= |t.connections|
    && forall c | 0 <= c < |s.connections| ::
         && s.connections[c].endpoint == t.connections[c].endpoint
         && s.connections[c].revision == t.connections[c].revision
         && s.connections[c].origin == t.connections[c].origin
  }

  lemma StepIsSince(cfg: Config, s: State, e: Event)
    ensures Since(s, Step(cfg, s, e))
  {
  }

  lemma {:induction false} RunIsSince(cfg: Config, url: Option<Url>, events: seq<Event>, more: seq<Event>)
    ensures Since(Run(cfg, url, events), Run(cfg, url, events + more))
  {
    if more == [] {
      assert events + more == events;
    } else {
      var front := events + more[..|more| - 1];
      assert (events + more)[..|events + more| - 1] == front;
      RunIsSince(cfg, url, events, more[..|more| - 1]);
      StepIsSince(cfg, Run(cfg, url, front), more[|more| - 1]);
    }
  }

  /**
    Once the endpoint has been replaced, or the bridge closed, no connection
    opened before is installed again, whatever it reports and however late.
  */
  lemma SupersededIsNeverInstalled(cfg: Config, url: Option<Url>, events: seq<Event>, more: seq<Event>, c: nat)
    requires c < |Run(cfg, url, events).connections|
    requires Run(cfg, url, events).closed || Run(cfg, url, events).connections[c].revision < Run(cfg, url, events).revision
    ensures Run(cfg, url, events + more).connection != Some(c)
  {
    RunsKeep(cfg, url, events + more);
    RunIsSince(cfg, url, events, more);
  }

  // ----- what a call goes through -----

  /** The call has an endpoint to try, and waits for its connection, the latest one; or it has none. */
  predicate Attempts(cfg: Config, s: State, t: State, k: nat, goal: Option<Url>, origin: Origin, finds: bool) {
    && k < |t.calls|
    && (if goal.Some? && cfg.validate(goal.value).Some?
        then
          && t.calls[k] == Awaiting(|s.connections|, s.revision) && t.opening == Some(|s.connections|)
          && t.connections == s.connections + [Connection(cfg.validate(goal.value).value, s.revision, origin, false)]
        else
          && t.connections == s.connections && t.opening == s.opening
          && t.calls[k] == if cfg.hasProvider && (finds || goal.None?) then Asking(s.revision) else Settled(None))
  }

  lemma TryAttempts(cfg: Config, s: State, k: nat, goal: Option<Url>, origin: Origin)
    requires k < |s.calls|
    ensures Attempts(cfg, s, Try(cfg, s, k, goal, origin), k, goal, origin, !s.closed)
  {
  }

  /** A call for a connection joins what is there; else it tries `#url`, or asks the provider for another, or fails if there is none. */
  lemma CallsJoinOrTry(cfg: Config, s: State)
    ensures var t := Step(cfg, s, GetConnection);
      if s.closed || s.connection.Some? || s.promise.Some? then t == s
      else t.promise == Some(|s.calls|) && |t.calls| == |s.calls| + 1 && Attempts(cfg, s, t, |s.calls|, s.url, Configured, !s.closed)
  {
    TryAttempts(cfg, s.(promise := Some(|s.calls|), calls := s.calls + [Settled(None)]), |s.calls|, s.url, Configured);
  }

  /**
    After the provider's answer a call tries that answer, and after a failed
    handshake it asks again; but if the endpoint was replaced meanwhile it tries
    the new one. It fails when the provider does, and on a closed bridge when
    its endpoint fails.
  */
  lemma CallsGoOn(cfg: Config, s: State, k: nat)
    requires k < |s.calls|
    ensures var t := Step(cfg, s, Resume(k));
      match s.calls[k]
      case ProviderDone(revision, None) => t == s.(calls := s.calls[k := Settled(None)])
      case ProviderDone(revision, Some(answer)) =>
        if revision == s.revision then Attempts(cfg, s, t, k, Some(answer), Answered(s.revision), !s.closed)
        else Attempts(cfg, s, t, k, s.url, Configured, !s.closed)
      case Rejected(revision) =>
        if s.closed then t == s.(calls := s.calls[k := Settled(None)])
        else Attempts(cfg, s, t, k, if revision == s.revision then None else s.url, Configured, true)
      case Opened(c) => t == s.(calls := s.calls[k := Settled(Some(c))])
      case _ => t == s
  {
    TryAttempts(cfg, s, k, s.url, Configured);
    TryAttempts(cfg, s, k, None, Configured);
    if s.calls[k].ProviderDone? { TryAttempts(cfg, s, k, s.calls[k].answer, Answered(s.revision)); }
  }

  /** What a call that waits for a handshake hears of it, and what the provider is told to have answered. */
  lemma HandshakesAreReported(cfg: Config, url: Option<Url>, events: seq<Event>, k: nat, answer: Option<Url>)
    requires k < |Run(cfg, url, events).calls|
    ensures var s := Run(cfg, url, events);
      && (s.calls[k].Awaiting? ==>
            var c, revision := s.calls[k].connection, s.calls[k].revision;
            && c < |s.connections| && revision == s.connections[c].revision
            && (var t := Step(cfg, s, OnOpen(c));
                if !s.closed && s.opening == Some(c)
                then t.calls[k] == Opened(c) && t.connection == Some(c) && t.opening == None && t.url == Some(s.connections[c].endpoint)
                else t.calls[k] == Rejected(revision) && t.connection == s.connection && t.url == s.url)
            && Step(cfg, s, OnError(c)).calls[k] == Rejected(revision)
            && Step(cfg, s, OnClose(c)).calls[k] == Rejected(revision)
            && (s.opening == Some(c) ==> Step(cfg, s, OnError(c)).opening == None && Step(cfg, s, OnClose(c)).opening == None))
      && (s.calls[k].Asking? ==>
            Step(cfg, s, ProviderAnswers(k, answer)) == s.(calls := s.calls[k := ProviderDone(s.calls[k].revision, answer)]))
  {
    RunsKeep(cfg, url, events);
    assert SoundCall(Run(cfg, url, events), Run(cfg, url, events).calls[k]);
  }

  /** The installed connection is uninstalled by its own close, and no other closes anything. */
  lemma ClosesItself(cfg: Config, url: Option<Url>, events: seq<Event>, c: nat)
    ensures var s := Run(cfg, url, events);
      var t := Step(cfg, s, OnClose(c));
      && t.connection == (if s.connection == Some(c) then None else s.connection)
      && t.url == s.url && t.revision == s.revision && t.closed == s.closed
  {
    RunsKeep(cfg, url, events);
  }

  /** Replacing the endpoint takes its validated form, and leaves nothing open or opening; an invalid one changes nothing. */
  lemma ReplacingDrops(cfg: Config, s: State, url: Url)
    ensures var t := Step(cfg, s, SetUrl(url));
      if s.closed || cfg.validate(url).None? then t == s
      else t == s.(url := cfg.validate(url), revision := s.revision + 1, opening := None, connection := None)
  {
  }

  ghost predicate WasInstalled(cfg: Config, url: Option<Url>, events: seq<Event>, c: nat) {
    exists i: nat :: InstalledAt(cfg, url, events, i, c)
  }

  predicate InstalledAt(cfg: Config, url: Option<Url>, events: seq<Event>, i: nat, c: nat) {
    i <= |events| && Run(cfg, url, events[..i]).connection == Some(c)
  }

  predicate Returns(call: Call, c: nat) {
    call == Opened(c) || call == Settled(Some(c))
  }

  lemma StepReturns(cfg: Config, s: State, e: Event, k: nat, c: nat)
    requires k < |Step(cfg, s, e).calls| && Returns(Step(cfg, s, e).calls[k], c)
    ensures (k < |s.calls| && Returns(s.calls[k], c)) || Step(cfg, s, e).connection == Some(c)
  {
  }

  lemma InstalledBefore(cfg: Config, url: Option<Url>, events: seq<Event>, c: nat)
    requires events != [] && WasInstalled(cfg, url, events[..|events| - 1], c)
    ensures WasInstalled(cfg, url, events, c)
  {
    var i: nat :| InstalledAt(cfg, url, events[..|events| - 1], i, c);
    assert events[..|events| - 1][..i] == events[..i];
    assert InstalledAt(cfg, url, events, i, c);
  }

  /** A call returns only a connection that was the installed one. */
  lemma {:induction false} ReturnedWasInstalled(cfg: Config, url: Option<Url>, events: seq<Event>, k: nat, c: nat)
    requires k < |Run(cfg, url, events).calls| && Returns(Run(cfg, url, events).calls[k], c)
    ensures WasInstalled(cfg, url, events, c)
  {
    if events != [] {
      var front, e := events[..|events| - 1], events[|events| - 1];
      StepReturns(cfg, Run(cfg, url, front), e, k, c);
      if k < |Run(cfg, url, front).calls| && Returns(Run(cfg, url, front).calls[k], c) {
        ReturnedWasInstalled(cfg, url, front, k, c);
        InstalledBefore(cfg, url, events, c);
      } else {
        assert events[..|events|] == events;
        assert InstalledAt(cfg, url, events, |events|, c);
      }
    }
  }

  predicate IsAnswer(e: Event, answer: Url) {
    e.ProviderAnswers? && e.answer == Some(answer)
  }

  /** An endpoint that is tried as the provider's answer is one, by its validated form. */
  predicate WasAnswered(cfg: Config, events: seq<Event>, endpoint: Url) {
    exists i :: 0 <= i < |events| && events[i].ProviderAnswers? && events[i].answer.Some? && cfg.validate(events[i].answer.value) == Some(endpoint)
  }

  predicate HasAnswered(events: seq<Event>, answer: Url) {
    exists i :: 0 <= i < |events| && IsAnswer(events[i], answer)
  }

  lemma StepAnswers(cfg: Config, s: State, e: Event, k: nat)
    requires k < |Step(cfg, s, e).calls| && Step(cfg, s, e).calls[k].ProviderDone? && Step(cfg, s, e).calls[k].answer.Some?
    ensures (k < |s.calls| && s.calls[k] == Step(cfg, s, e).calls[k]) || IsAnswer(e, Step(cfg, s, e).calls[k].answer.value)
  {
  }

  lemma {:induction false} AnswersWereGiven(cfg: Config, url: Option<Url>, events: seq<Event>, k: nat)
    requires k < |Run(cfg, url, events).calls|
    requires Run(cfg, url, events).calls[k].ProviderDone? && Run(cfg, url, events).calls[k].answer.Some?
    ensures HasAnswered(events, Run(cfg, url, events).calls[k].answer.value)
  {
    var front, e := events[..|events| - 1], events[|events| - 1];
    StepAnswers(cfg, Run(cfg, url, front), e, k);
    var answer := Run(cfg, url, events).calls[k].answer.value;
    if IsAnswer(e, answer) {
      assert IsAnswer(events[|events| - 1], answer);
    } else {
      AnswersWereGiven(cfg, url, front, k);
      var i :| 0 <= i < |front| && IsAnswer(front[i], answer);
      assert IsAnswer(events[i], answer);
    }
  }

  lemma StepTries(cfg: Config, s: State, e: Event, c: nat)
    requires c < |Step(cfg, s, e).connections| && Step(cfg, s, e).connections[c].origin.Answered?
    ensures c < |s.connections| ==> s.connections[c].origin.Answered? && s.connections[c].endpoint == Step(cfg, s, e).connections[c].endpoint
    ensures c >= |s.connections| ==>
      && e.Resume? && e.call < |s.calls| && s.calls[e.call].ProviderDone? && s.calls[e.call].answer.Some?
      && cfg.validate(s.calls[e.call].answer.value) == Some(Step(cfg, s, e).connections[c].endpoint)
  {
  }

  /** Over every run, an endpoint that counts as the provider's is one that the provider named. */
  lemma {:induction false} TriedAsAnswered(cfg: Config, url: Option<Url>, events: seq<Event>, c: nat)
    requires c < |Run(cfg, url, events).connections| && Run(cfg, url, events).connections[c].origin.Answered?
    ensures WasAnswered(cfg, events, Run(cfg, url, events).connections[c].endpoint)
  {
    var front, e := events[..|events| - 1], events[|events| - 1];
    var s := Run(cfg, url, front);
    StepTries(cfg, s, e, c);
    if c < |s.connections| {
      TriedAsAnswered(cfg, url, front, c);
      var i :| 0 <= i < |front| && front[i].ProviderAnswers? && front[i].answer.Some?
        && cfg.validate(front[i].answer.value) == Some(s.connections[c].endpoint);
      assert events[i] == front[i];
    } else {
      AnswersWereGiven(cfg, url, front, e.call);
      var i :| 0 <= i < |front| && IsAnswer(front[i], s.calls[e.call].answer.value);
      assert events[i] == front[i];
    }
  }

  lemma RunSnoc(cfg: Config, url: Option<Url>, events: seq<Event>, e: Event)
    ensures Run(cfg, url, events + [e]) == Step(cfg, Run(cfg, url, events), e)
  {
    assert (events + [e])[..|events|] == events;
  }

  /** The bridge is closed by its `close`, and by nothing else. */
  lemma {:induction false} ClosedExactly(cfg: Config, url: Option<Url>, events: seq<Event>)
    ensures Run(cfg, url, events).closed <==> CloseBridge in events
  {
    if events != [] {
      var front, e := events[..|events| - 1], events[|events| - 1];
      ClosedExactly(cfg, url, front);
      assert events == front + [e];
      assert Step(cfg, Run(cfg, url, front), e).closed <==> Run(cfg, url, front).closed || e == CloseBridge;
    }
  }

  /** At any time before, a call that finds nothing connects to the configured endpoint, if the handshake succeeds undisturbed. */
  lemma ConnectsUndisturbed(cfg: Config, url: Option<Url>, events: seq<Event>, endpoint: Url)
    requires CloseBridge !in events
    requires var s := Run(cfg, url, events);
      s.connection.None? && s.promise.None? && s.url.Some? && cfg.validate(s.url.value) == Some(endpoint)
    ensures var s := Run(cfg, url, events);
      var t := Run(cfg, url, events + [GetConnection] + [OnOpen(|s.connections|)] + [Resume(|s.calls|)]);
      && t.connection == Some(|s.connections|) && t.url == Some(endpoint) && t.opening.None?
      && |t.connections| == |s.connections| + 1 && t.connections[|s.connections|].endpoint == endpoint
      && |t.calls| == |s.calls| + 1 && t.calls[|s.calls|] == Settled(Some(|s.connections|))
  {
    ClosedExactly(cfg, url, events);
    var s := Run(cfg, url, events);
    var c, k := |s.connections|, |s.calls|;
    RunSnoc(cfg, url, events, GetConnection);
    RunSnoc(cfg, url, events + [GetConnection], OnOpen(c));
    RunSnoc(cfg, url, events + [GetConnection] + [OnOpen(c)], Resume(k));
    var s1 := Get(cfg, s);
    assert s1.opening == Some(c) && s1.calls[k] == Awaiting(c, s.revision) && |s1.connections| == c + 1;
    var s2 := Open(s1, c);
    assert s2.calls[k] == Opened(c);
  }

  // ----- the bridge -----

  /** The connection fields of `WispNetworkBridge`, with its handlers run one at a time. */
  class WispNetworkBridge {
    const cfg: Config
    var url: Option<Url>
    var endpointRevision: nat
    var closed: bool
    var connection: Option<nat>
    var openingConnection: Option<nat>
    var connectionPromise: Option<nat>
    var connections: seq<Connection>
    var calls: seq<Call>

    function View(): State
      reads this
    {
      State(url, endpointRevision, closed, connection, openingConnection, connectionPromise, connections, calls)
    }

    constructor (cfg: Config, url: Option<Url>)
      ensures View() == Init(url) && this.cfg == cfg
    {
      this.cfg, this.url := cfg, url;
      endpointRevision, closed, connections, calls := 0, false, [], [];
      connection, openingConnection, connectionPromise := None, None, None;
    }

    method SetUrl(newUrl: Url) returns (ok: bool)
      modifies this
      ensures View() == Step(cfg, old(View()), Event.SetUrl(newUrl))
      ensures ok <==> !old(closed) && cfg.validate(newUrl).Some?
      ensures ok ==> url == cfg.validate(newUrl) && connection.None? && openingConnection.None?
    {
      if closed { return false; }
      var endpoint := cfg.validate(newUrl);
      if endpoint.None? { return false; }
      url := endpoint;
      endpointRevision := endpointRevision + 1;
      openingConnection := None;
      connection := None;
      return true;
    }

    method Close()
      modifies this
      ensures View() == Step(cfg, old(View()), CloseBridge)
    {
      if closed { return; }
      closed := true;
      openingConnection := None;
      connection := None;
    }

    method SetCall(k: nat, call: Call)
      requires k < |calls|
      modifies this`calls
      ensures calls == old(calls)[k := call]
    {
      calls := calls[k := call];
    }

    /** The loop of `#connect`, from its head to its next await or its end. */
    method Connect(k: nat, first: Option<Url>, origin: Origin)
      requires k < |calls|
      modifies this
      ensures View() == Try(cfg, old(View()), k, first, origin)
    {
      var candidate := first;
      while true
        invariant unchanged(this)
        invariant candidate == first || (candidate.None? && first.Some? && cfg.validate(first.value).None? && !closed)
        decreases candidate.Some?
      {
        if candidate.None? {
          SetCall(k, if cfg.hasProvider then Asking(endpointRevision) else Settled(None));
          return;
        }
        var endpoint := cfg.validate(candidate.value);
        if endpoint.Some? {
          OpenConnection(k, endpoint.value, origin);
          return;
        }
        if closed {
          SetCall(k, Settled(None));
          return;
        }
        candidate := None;
      }
    }

    method OpenConnection(k: nat, endpoint: Url, origin: Origin)
      requires k < |calls|
      modifies this`connections, this`openingConnection, this`calls
      ensures connections == old(connections) + [Connection(endpoint, endpointRevision, origin, false)]
      ensures openingConnection == Some(|old(connections)|)
      ensures calls == old(calls)[k := Awaiting(|old(connections)|, endpointRevision)]
    {
      var c := |connections|;
      connections := connections + [Connection(endpoint, endpointRevision, origin, false)];
      openingConnection := Some(c);
      SetCall(k, Awaiting(c, endpointRevision));
    }

    method GetConnection()
      modifies this
      ensures View() == Step(cfg, old(View()), Event.GetConnection)
    {
      if closed || connection.Some? || connectionPromise.Some? { return; }
      var k := |calls|;
      connectionPromise := Some(k);
      calls := calls + [Settled(None)];
      Connect(k, url, Configured);
    }

    /** The waiting call is resumed with the outcome of its handshake. */
    method SettleHandshake(c: nat, success: bool)
      requires c < |connections|
      modifies this`connections, this`calls
      ensures connections == old(connections)[c := old(connections)[c].(settled := true)]
      ensures calls == Notify(old(calls), c, success)
    {
      connections := connections[c := connections[c].(settled := true)];
      calls := Notify(calls, c, success);
    }

    method RejectHandshake(c: nat)
      requires c < |connections|
      modifies this
      ensures View() == Step(cfg, old(View()), Event.OnError(c))
    {
      if connections[c].settled { return; }
      if openingConnection == Some(c) { openingConnection := None; }
      SettleHandshake(c, false);
    }

    method OnOpen(c: nat)
      requires c < |connections|
      modifies this
      ensures View() == Step(cfg, old(View()), Event.OnOpen(c))
      ensures !old(closed) && old(openingConnection) == Some(c) ==> connection == Some(c)
    {
      if closed || openingConnection != Some(c) {
        RejectHandshake(c);
        return;
      }
      openingConnection := None;
      url := Some(connections[c].endpoint);
      connection := Some(c);
      SettleHandshake(c, true);
    }

    method OnError(c: nat)
      requires c < |connections|
      modifies this
      ensures View() == Step(cfg, old(View()), Event.OnError(c))
    {
      RejectHandshake(c);
    }

    method OnClose(c: nat)
      requires c < |connections|
      modifies this
      ensures View() == Step(cfg, old(View()), Event.OnClose(c))
    {
      if !connections[c].settled {
        RejectHandshake(c);
        return;
      }
      if connection == Some(c) { connection := None; }
    }
  }
}
