/**
 The LISTEN/NOTIFY broker's supervised connection: one event is one await-free
 stretch of `start`, `stop`, the reconnect loop, or the connection dying.
 */
module BrokerSupervisor {
  import opened Options

  type Conn = nat

  const INITIAL_DELAY: real := 0.5
  const MAX_DELAY: real := 30.0
  const MAX_NOTIFY_PAYLOAD_BYTES := 7999

  /** Where the reconnect task is; `Retrying(k, d)` is about to make attempt `k`, and would sleep `d` after it fails. */
  datatype Supervisor =
    | NoTask
    | Waiting
    | ClosingOld(conn: Conn)
    | Retrying(attempt: nat, delay: real)
    | Sleeping(attempt: nat, delay: real)
    | Ended

  /** Where a `start` is. */
  datatype Starting = NotStarting | Connecting | Pooling

  /** Which close a `stop` awaits. */
  datatype Tearing = NotTearing | TearingListener | TearingPool

  datatype State = State(
    listenConn: Option<Conn>,
    publishPool: bool,
    connectionLost: bool,
    stopping: bool,
    supervisor: Supervisor,
    starting: Starting,
    tearing: Tearing,
    open: set<Conn>,      // connections the server still has
    watched: set<Conn>,   // connections whose termination listener is installed
    nextConn: Conn)

  const INIT := State(None, false, false, false, NoTask, NotStarting, NotTearing, {}, {}, 0)

  /**
   `raises` is an exception past the handlers of a close in `stop`; `leaks` a connection that was opened
   before setting up its listener failed.
   */
  datatype Event =
    | StartCall
    | StartConnected(live: bool)
    | StartConnectFails(leaks: bool)
    | PoolCreated
    | PoolFails
    | StopCall
    | ListenerTornDown(raises: bool)
    | PoolTornDown(raises: bool)
    | Dies(conn: Conn)
    | Wake
    | OldClosed(closed: bool)
    | Reconnected(live: bool)
    | ReconnectFails(leaks: bool)
    | SleepDone

  /** No `start` and no `stop` is under way. */
  predicate Idle(s: State) {
    s.starting.NotStarting? && s.tearing.NotTearing?
  }

  predicate Enabled(s: State, e: Event) {
    match e
    case StartCall => Idle(s) || (s.starting.NotStarting? && (s.listenConn.Some? || s.publishPool))
    case StartConnected(_) => s.starting.Connecting?
    case StartConnectFails(_) => s.starting.Connecting? && s.tearing.NotTearing?
    case PoolCreated => s.starting.Pooling?
    case PoolFails => s.starting.Pooling? && s.tearing.NotTearing?
    case StopCall => s.tearing.NotTearing?
    case ListenerTornDown(raises) => s.tearing.TearingListener? && (raises ==> s.listenConn.Some?)
    case PoolTornDown(raises) => s.tearing.TearingPool? && (raises ==> s.publishPool)
    case Dies(c) => c in s.open
    case Wake => s.supervisor.Waiting? && s.connectionLost
    case OldClosed(_) => s.supervisor.ClosingOld?
    case Reconnected(_) => s.supervisor.Retrying?
    case ReconnectFails(_) => s.supervisor.Retrying?
    case SleepDone => s.supervisor.Sleeping?
  }

  function Min(a: real, b: real): real {
    if a <= b then a else b
  }

  /** `_connect_listener` in its last stretch: the termination listener and the field are set together. */
  function Install(s: State, live: bool): State {
    var c := s.nextConn;
    s.(listenConn := Some(c), watched := s.watched + {c}, nextConn := c + 1,
       open := if live then s.open + {c} else s.open)
  }

  /** A connect that fails after the server has taken the connection leaves it behind, with nobody to close it. */
  function Leak(s: State, leaks: bool): State {
    if leaks then s.(open := s.open + {s.nextConn}, nextConn := s.nextConn + 1) else s
  }

  /** `stop` up to its first await: the supervisor is cancelled at whatever await it is in. */
  function BeginStop(s: State): State {
    s.(stopping := true, supervisor := NoTask, tearing := TearingListener)
  }

  /** `close` runs the termination listener if it is still installed. */
  function CloseConn(s: State, c: Conn): State {
    s.(open := s.open - {c}, watched := s.watched - {c}, connectionLost := s.connectionLost || c in s.watched)
  }

  /** The head of a supervisor loop. */
  function Unless(s: State, next: Supervisor): State {
    s.(supervisor := if s.stopping then Ended else next)
  }

  function Next(s: State, e: Event): State
    requires Enabled(s, e)
  {
    match e
    case StartCall =>
      if s.listenConn.Some? || s.publishPool then s
      else s.(stopping := false, connectionLost := false, starting := Connecting)
    case StartConnected(live) => Install(s, live).(starting := Pooling)
    case StartConnectFails(leaks) => BeginStop(Leak(s, leaks)).(starting := NotStarting)
    case PoolCreated => Unless(s.(publishPool := true, starting := NotStarting), Waiting)
    case PoolFails => BeginStop(s).(starting := NotStarting)
    case StopCall => BeginStop(s)
    case ListenerTornDown(raises) =>
      if s.listenConn.None? then s.(tearing := TearingPool)
      else
        var detached := s.(watched := s.watched - {s.listenConn.value});
        if raises then detached.(tearing := NotTearing)
        else CloseConn(detached.(listenConn := None, tearing := TearingPool), s.listenConn.value)
    case PoolTornDown(raises) => s.(publishPool := raises, tearing := NotTearing)
    case Dies(c) => CloseConn(s, c)
    case Wake =>
      var awake := s.(connectionLost := false);
      if s.stopping then awake.(supervisor := Ended)
      else if s.listenConn.Some? then
        var previous := s.listenConn.value;
        var detached := awake.(listenConn := None, watched := s.watched - {previous});
        if previous in s.open then detached.(supervisor := ClosingOld(previous))
          else Unless(detached, Retrying(0, INITIAL_DELAY))
      else Unless(awake.(listenConn := None), Retrying(0, INITIAL_DELAY))
    case OldClosed(closed) =>
      Unless(if closed then CloseConn(s, s.supervisor.conn) else s, Retrying(0, INITIAL_DELAY))
    case Reconnected(live) => Unless(Install(s, live), Waiting)
    case ReconnectFails(leaks) => Leak(s, leaks).(supervisor := Sleeping(s.supervisor.attempt, s.supervisor.delay))
    case SleepDone => Unless(s, Retrying(s.supervisor.attempt + 1, Min(s.supervisor.delay * 2.0, MAX_DELAY)))
  }

  ghost predicate Legal(s: State, events: seq<Event>)
    decreases |events|
  {
    events == [] || (Enabled(s, events[0]) && Legal(Next(s, events[0]), events[1..]))
  }

  ghost function Run(s: State, events: seq<Event>): State
    requires Legal(s, events)
    decreases |events|
  {
    if events == [] then s else Run(Next(s, events[0]), events[1..])
  }

  // ------------------------------------------------------------- backoff

  function Pow2(k: nat): (p: real)
    ensures p >= 1.0
  {
    if k == 0 then 1.0 else 2.0 * Pow2(k - 1)
  }

  /** The delay after the k-th failed attempt, in closed form. */
  function Delay(k: nat): real {
    Min(INITIAL_DELAY * Pow2(k), MAX_DELAY)
  }

  /** Doubling under the cap, step by step, is the capped exponential. */
  lemma DelayDoubles(k: nat)
    ensures Min(Delay(k) * 2.0, MAX_DELAY) == Delay(k + 1)
  {
  }

  // ----------------------------------------------------- no lost wake-up

  /** The current LISTEN connection is up and its end will be noticed. */
  predicate Listening(s: State) {
    s.listenConn.Some? && s.listenConn.value in s.open && s.listenConn.value in s.watched
  }

  /** A supervisor blocked on the event, with nobody stopping it, has a live connection or its wake-up pending. */
  predicate NoLostWakeup(s: State) {
    s.supervisor.Waiting? && !s.stopping ==> Listening(s) || s.connectionLost
  }

  predicate Reconnecting(s: State) {
    s.supervisor.ClosingOld? || s.supervisor.Retrying? || s.supervisor.Sleeping?
  }

  /** Listener, pool and supervisor are all in place, or none is. */
  predicate AllOrNothing(s: State) {
    if s.publishPool then s.supervisor.Waiting? || Reconnecting(s) else s.supervisor.NoTask? && s.listenConn.None?
  }

  /** A stop has ended with the listener or the pool still in its field, and no supervisor. */
  predicate LeftOver(s: State) {
    Idle(s) && s.stopping && s.supervisor.NoTask? && (s.listenConn.Some? || s.publishPool)
  }

  ghost predicate Inv(s: State) {
    && NoLostWakeup(s)
    && (s.starting.Pooling? ==> s.listenConn.Some? && (Listening(s) || s.connectionLost))
    // only the current connection is watched, so no other can raise the flag
    && (forall c :: c in s.watched ==> s.listenConn == Some(c))
    && (forall c :: c in s.open || c in s.watched ==> c < s.nextConn)
    && (s.listenConn.Some? ==> s.listenConn.value < s.nextConn)
    && (Reconnecting(s) ==> s.listenConn.None? && !s.connectionLost)
    && (s.supervisor.ClosingOld? ==> s.supervisor.conn !in s.watched)
    && (s.supervisor.Retrying? || s.supervisor.Sleeping? ==> s.supervisor.delay == Delay(s.supervisor.attempt))
    // up or down as a whole between calls, or left over by a stop
    && (Idle(s) ==> AllOrNothing(s) || LeftOver(s))
    && (!s.supervisor.NoTask? ==> s.publishPool && Idle(s) && !s.stopping)
    && (s.starting.Connecting? ==> s.listenConn.None? && !s.connectionLost)
    && (!s.starting.NotStarting? ==> !s.publishPool && !s.stopping && s.tearing.NotTearing?)
    && (!s.tearing.NotTearing? ==> s.stopping)
    && (s.tearing.TearingPool? ==> s.listenConn.None?)
  }

  /** Installing a connection that is already gone is the one way to lose a wake-up. */
  predicate DeadOnArrival(e: Event) {
    (e.StartConnected? || e.Reconnected?) && !e.live
  }

  /** A `stop` called while a `start` is under way. */
  predicate Overlaps(s: State, e: Event) {
    e.StopCall? && !s.starting.NotStarting?
  }

  /**
   Every event keeps the invariant if and only if it neither installs a dead connection nor stops a start
   under way.
   */
  lemma NextKeepsInvIff(s: State, e: Event)
    requires Inv(s) && Enabled(s, e)
    ensures Inv(Next(s, e)) <==> !DeadOnArrival(e) && !Overlaps(s, e)
    ensures e.Reconnected? ==> (NoLostWakeup(Next(s, e)) <==> e.live)
  {
    var n := Next(s, e);
    match e
    case SleepDone => DelayDoubles(s.supervisor.attempt);
    case _ =>
  }

  predicate Raises(e: Event) {
    (e.ListenerTornDown? || e.PoolTornDown?) && e.raises
  }

  /**
   Something is left over exactly from a teardown that raises until the next stop: a start in between does
   nothing.
   */
  lemma LeftOverIff(s: State, e: Event)
    requires Inv(s) && Enabled(s, e) && !DeadOnArrival(e) && !Overlaps(s, e)
    ensures LeftOver(Next(s, e)) <==> Raises(e) || (LeftOver(s) && !e.StopCall?)
    ensures LeftOver(s) && e.StartCall? ==> Next(s, e) == s
  {
  }

  /** The run installs no dead connection and stops no start under way. */
  ghost predicate Orderly(s: State, events: seq<Event>)
    requires Legal(s, events)
    decreases |events|
  {
    events == [] || (!DeadOnArrival(events[0]) && !Overlaps(s, events[0]) && Orderly(Next(s, events[0]), events[1..]))
  }

  lemma {:induction false} RunKeepsInv(s: State, events: seq<Event>)
    requires Inv(s) && Legal(s, events) && Orderly(s, events)
    ensures Inv(Run(s, events))
    decreases |events|
  {
    if events != [] {
      NextKeepsInvIff(s, events[0]);
      RunKeepsInv(Next(s, events[0]), events[1..]);
    }
  }

  /** Whether a run ends with something left over: the last stop that ended, if any, ended in a raise. */
  ghost function LeavesOver(s: State, events: seq<Event>, before: bool): bool
    requires Legal(s, events)
    decreases |events|
  {
    if events == [] then before
    else LeavesOver(Next(s, events[0]), events[1..], Raises(events[0]) || (before && !events[0].StopCall?))
  }

  lemma {:induction false} RunLeavesOverIff(s: State, events: seq<Event>)
    requires Inv(s) && Legal(s, events) && Orderly(s, events)
    ensures LeftOver(Run(s, events)) <==> LeavesOver(s, events, LeftOver(s))
    decreases |events|
  {
    if events != [] {
      NextKeepsInvIff(s, events[0]);
      LeftOverIff(s, events[0]);
      RunLeavesOverIff(Next(s, events[0]), events[1..]);
    }
  }

  /**
   In every state reached by an orderly run: no wake-up is lost; the k-th retry sleeps min(0.5 * 2^k, 30)
   seconds; and between calls the broker is up as a whole or down as a whole if and only if the teardown
   of the last stop did not raise.
   */
  lemma ReachableStates(events: seq<Event>)
    requires Legal(INIT, events) && Orderly(INIT, events)
    ensures var s := Run(INIT, events);
            && NoLostWakeup(s)
            && (s.supervisor.Sleeping? ==> s.supervisor.delay == Min(0.5 * Pow2(s.supervisor.attempt), 30.0))
            && (Idle(s) ==> (AllOrNothing(s) <==> !LeavesOver(INIT, events, false)))
  {
    RunKeepsInv(INIT, events);
    RunLeavesOverIff(INIT, events);
  }

  /**
   A raise is possible, and final: the pool fails, the close in the start's own stop raises, and no later
   start does anything.
   */
  lemma RaisingStopBlocksStart()
    ensures var events := [StartCall, StartConnected(true), PoolFails, ListenerTornDown(true)];
            && Legal(INIT, events) && Orderly(INIT, events)
            && var s := Run(INIT, events);
               LeftOver(s) && s.listenConn.Some? && !s.publishPool && Enabled(s, StartCall) && Next(s, StartCall) == s
  {
    var s3 := Next(Next(Next(INIT, StartCall), StartConnected(true)), PoolFails);
    Unroll1(s3, ListenerTornDown(true));
    Unroll(Next(Next(INIT, StartCall), StartConnected(true)), PoolFails, [ListenerTornDown(true)]);
    Unroll(Next(INIT, StartCall), StartConnected(true), [PoolFails] + [ListenerTornDown(true)]);
    Unroll(INIT, StartCall, [StartConnected(true)] + ([PoolFails] + [ListenerTornDown(true)]));
    assert [StartCall] + ([StartConnected(true)] + ([PoolFails] + [ListenerTornDown(true)]))
           == [StartCall, StartConnected(true), PoolFails, ListenerTornDown(true)];
  }

  /**
   A stop during the connect of a start returns before there is anything to stop: listener and pool come up
   with an ended supervisor.
   */
  lemma StopDuringStartEndsSupervisor()
    ensures var events := [StopCall, ListenerTornDown(false), PoolTornDown(false)]
                          + [StartConnected(true), PoolCreated];
            var s := Next(INIT, StartCall);
            && Legal(s, events) && Overlaps(s, StopCall)
            && var n := Run(s, events);
               Idle(n) && n.publishPool && Listening(n) && n.supervisor.Ended? && !AllOrNothing(n)
  {
    var s := Next(INIT, StartCall);
    var m := Next(Next(Next(s, StopCall), ListenerTornDown(false)), PoolTornDown(false));
    Unroll1(Next(m, StartConnected(true)), PoolCreated);
    Unroll(m, StartConnected(true), [PoolCreated]);
    var rest := [StartConnected(true)] + [PoolCreated];
    Unroll(Next(Next(s, StopCall), ListenerTornDown(false)), PoolTornDown(false), rest);
    Unroll(Next(s, StopCall), ListenerTornDown(false), [PoolTornDown(false)] + rest);
    Unroll(s, StopCall, [ListenerTornDown(false)] + ([PoolTornDown(false)] + rest));
    assert [StopCall] + ([ListenerTornDown(false)] + ([PoolTornDown(false)] + rest))
           == [StopCall, ListenerTornDown(false), PoolTornDown(false)] + [StartConnected(true), PoolCreated];
  }

  /**
   The exception is real: a connection that is dead when `start` installs it leaves the supervisor waiting
   for good.
   */
  lemma DeadConnectionLosesWakeup()
    ensures var events := [StartCall, StartConnected(false), PoolCreated];
            && Legal(INIT, events)
            && Run(INIT, events).supervisor.Waiting? && !NoLostWakeup(Run(INIT, events))
  {
    Unroll3(INIT, StartCall, StartConnected(false), PoolCreated);
  }

  /** A deliberate close, by the loop or by `stop`, never arms the flag. */
  lemma ClosingNeverRearms(s: State, e: Event)
    requires Inv(s) && Enabled(s, e) && (e.OldClosed? || e.ListenerTornDown?)
    ensures Next(s, e).connectionLost == s.connectionLost
  {
  }

  /** Losing the current connection wakes a waiting supervisor, and only that does. */
  lemma OnlyTheListenerWakes(s: State, c: Conn)
    requires Inv(s) && c in s.open && !s.connectionLost
    ensures Next(s, Dies(c)).connectionLost <==> s.listenConn == Some(c) && Listening(s)
  {
  }

  predicate OfSupervisor(e: Event) {
    e.Wake? || e.OldClosed? || e.SleepDone? || e.Reconnected?
  }

  /** A started broker without a live listener is never stuck: its own supervisor gets it listening
      again with the first connection attempt that succeeds. */
  lemma SupervisorRecovers(s: State) returns (events: seq<Event>)
    requires Inv(s) && Idle(s) && !LeftOver(s) && s.publishPool && !Listening(s)
    ensures forall i :: 0 <= i < |events| ==> OfSupervisor(events[i])
    ensures |events| <= 3 && Legal(s, events) && Listening(Run(s, events)) && Run(s, events).supervisor.Waiting?
  {
    var again := Reconnected(true);
    if s.supervisor.Retrying? {
      events := [again];
      Unroll1(s, again);
    } else if s.supervisor.Sleeping? {
      events := [SleepDone, again];
      Unroll1(Next(s, SleepDone), again);
      Unroll(s, SleepDone, [again]);
    } else if s.supervisor.ClosingOld? {
      events := [OldClosed(true), again];
      Unroll1(Next(s, OldClosed(true)), again);
      Unroll(s, OldClosed(true), [again]);
    } else {
      var w := Next(s, Wake);
      if w.supervisor.ClosingOld? {
        events := [Wake, OldClosed(true), again];
        Unroll1(Next(w, OldClosed(true)), again);
        Unroll(w, OldClosed(true), [again]);
        Unroll(s, Wake, [OldClosed(true), again]);
      } else {
        events := [Wake, again];
        Unroll1(w, again);
        Unroll(s, Wake, [again]);
      }
    }
  }

  lemma Unroll(s: State, e: Event, rest: seq<Event>)
    requires Enabled(s, e) && Legal(Next(s, e), rest)
    ensures Legal(s, [e] + rest) && Run(s, [e] + rest) == Run(Next(s, e), rest)
  {
  }

  lemma Unroll1(s: State, e: Event)
    requires Enabled(s, e)
    ensures Legal(s, [e]) && Run(s, [e]) == Next(s, e)
  {
  }

  lemma Unroll3(s: State, e0: Event, e1: Event, e2: Event)
    requires Enabled(s, e0) && Enabled(Next(s, e0), e1) && Enabled(Next(Next(s, e0), e1), e2)
    ensures Legal(s, [e0, e1, e2]) && Run(s, [e0, e1, e2]) == Next(Next(Next(s, e0), e1), e2)
  {
    Unroll1(Next(Next(s, e0), e1), e2);
    Unroll(Next(s, e0), e1, [e2]);
    Unroll(s, e0, [e1, e2]);
    assert [e0] + ([e1] + [e2]) == [e0, e1, e2];
  }

  /** Which closes of a `stop` raise; a close that is not needed cannot. */
  datatype Closes = Closes(listenerRaises: bool, poolRaises: bool)

  /** The close at which a `stop` from `s` raises, if any: it goes no further then. */
  predicate ListenerStops(s: State, closes: Closes) {
    s.listenConn.Some? && closes.listenerRaises
  }

  predicate PoolStops(s: State, closes: Closes) {
    !ListenerStops(s, closes) && s.publishPool && closes.poolRaises
  }

  function StopEvents(s: State, closes: Closes): seq<Event> {
    if ListenerStops(s, closes) then [StopCall] + [ListenerTornDown(true)]
    else [StopCall] + ([ListenerTornDown(false)] + [PoolTornDown(PoolStops(s, closes))])
  }

  /** What `stop` leaves, whatever it found. */
  function Stopped(s: State, closes: Closes): State {
    var own := if s.listenConn.Some? then {s.listenConn.value} else {};
    var detached := s.(stopping := true, supervisor := NoTask, watched := s.watched - own);
    if ListenerStops(s, closes) then detached
    else detached.(listenConn := None, open := s.open - own, publishPool := PoolStops(s, closes))
  }

  lemma StopRuns(s: State, closes: Closes)
    requires s.tearing.NotTearing?
    ensures Legal(s, StopEvents(s, closes)) && Run(s, StopEvents(s, closes)) == Stopped(s, closes)
  {
    var s1 := Next(s, StopCall);
    if ListenerStops(s, closes) {
      Unroll1(s1, ListenerTornDown(true));
      Unroll(s, StopCall, [ListenerTornDown(true)]);
    } else {
      var s2 := Next(s1, ListenerTornDown(false));
      var last := PoolTornDown(PoolStops(s, closes));
      assert s2.open == Stopped(s, closes).open && s2.watched == Stopped(s, closes).watched;
      Unroll1(s2, last);
      Unroll(s1, ListenerTornDown(false), [last]);
      Unroll(s, StopCall, [ListenerTornDown(false)] + [last]);
    }
  }

  /** A stop with nothing else under way leaves nothing if and only if no needed close raises. */
  lemma StopLeavesNothingIff(s: State, closes: Closes)
    requires Inv(s) && Idle(s)
    ensures var n := Stopped(s, closes);
            && Inv(n) && (AllOrNothing(n) <==> !ListenerStops(s, closes) && !PoolStops(s, closes))
            && (AllOrNothing(n) ==> n.listenConn.None? && !n.publishPool)
  {
  }

  /** How a connect ends; a leak is a connection that opened and could not be listened on. */
  datatype ConnectOutcome = Connected(live: bool) | Refused | Leaked

  /** What a `start` that succeeds leaves. */
  function Started(s: State, live: bool): State {
    Install(s.(stopping := false, connectionLost := false), live).(publishPool := true, supervisor := Waiting)
  }

  lemma StartRuns(s: State, live: bool)
    requires Idle(s) && s.listenConn.None? && !s.publishPool
    ensures var events := [StartCall, StartConnected(live), PoolCreated];
            Legal(s, events) && Run(s, events) == Started(s, live)
    ensures Inv(s) ==> (Inv(Started(s, live)) <==> live)
  {
    Unroll3(s, StartCall, StartConnected(live), PoolCreated);
  }

  /**
   What a failed `start` leaves: nothing of a connect that failed but what it leaked, and of one that
   succeeded what stop cannot close.
   */
  function Failed(s: State, connect: ConnectOutcome, listenerRaises: bool): State {
    var base := s.(connectionLost := false, stopping := true);
    match connect
    case Refused => base
    case Leaked => Leak(base, true)
    case Connected(live) =>
      if listenerRaises then Install(base, live).(watched := s.watched) else base.(nextConn := s.nextConn + 1)
  }

  /** The events of a `start` whose connect, or whose pool, fails. */
  function FailingStart(connect: ConnectOutcome, listenerRaises: bool): seq<Event> {
    var down := [ListenerTornDown(false)] + [PoolTornDown(false)];
    [StartCall] + match connect
                  case Connected(live) =>
                    [StartConnected(live)] + ([PoolFails] + if listenerRaises then [ListenerTornDown(true)] else down)
                  case _ => [StartConnectFails(connect.Leaked?)] + down
  }

  lemma TearsDown(s: State)
    requires s.tearing.TearingListener? && !s.publishPool
    ensures var down := [ListenerTornDown(false)] + [PoolTornDown(false)];
            Legal(s, down) && Run(s, down) == Next(Next(s, ListenerTornDown(false)), PoolTornDown(false))
  {
    Unroll1(Next(s, ListenerTornDown(false)), PoolTornDown(false));
    Unroll(s, ListenerTornDown(false), [PoolTornDown(false)]);
  }

  lemma TearsDownOrRaises(s: State, listenerRaises: bool)
    requires s.tearing.TearingListener? && s.starting.NotStarting? && !s.publishPool && s.stopping && s.listenConn.Some?
    ensures var down := if listenerRaises then [ListenerTornDown(true)]
      else [ListenerTornDown(false)] + [PoolTornDown(false)];
            var own := {s.listenConn.value};
            && Legal(s, down)
            && Run(s, down) == if listenerRaises then s.(watched := s.watched - own, tearing := NotTearing)
                               else s.(listenConn := None, watched := s.watched - own, open := s.open - own,
                                 tearing := NotTearing)
  {
    if listenerRaises {
      Unroll1(s, ListenerTornDown(true));
    } else {
      TearsDown(s);
      var own := {s.listenConn.value};
      assert s.watched - own - own == s.watched - own;
    }
  }

  lemma ConnectedStartFails(s: State, live: bool, listenerRaises: bool)
    requires Inv(s) && Idle(s) && s.listenConn.None? && !s.publishPool
    ensures var events := FailingStart(Connected(live), listenerRaises);
            Legal(s, events) && Run(s, events) == Failed(s, Connected(live), listenerRaises)
  {
    var s1 := Next(s, StartCall);
    var s2 := Next(s1, StartConnected(live));
    var s3 := Next(s2, PoolFails);
    var c := s.nextConn;
    assert s.open + {c} - {c} == s.open && s.watched + {c} - {c} == s.watched && s.open - {c} == s.open;
    var down := if listenerRaises then [ListenerTornDown(true)] else [ListenerTornDown(false)] + [PoolTornDown(false)];
    TearsDownOrRaises(s3, listenerRaises);
    Unroll(s2, PoolFails, down);
    Unroll(s1, StartConnected(live), [PoolFails] + down);
    Unroll(s, StartCall, [StartConnected(live)] + ([PoolFails] + down));
  }

  lemma UnconnectedIsFailed(s: State, leaks: bool, listenerRaises: bool)
    requires Inv(s) && Idle(s) && s.listenConn.None? && !s.publishPool
    ensures var s2 := Next(Next(s, StartCall), StartConnectFails(leaks));
            Next(Next(s2, ListenerTornDown(false)), PoolTornDown(false))
            == Failed(s, if leaks then Leaked else Refused, listenerRaises)
  {
  }

  lemma UnconnectedStartFails(s: State, connect: ConnectOutcome, listenerRaises: bool)
    requires Inv(s) && Idle(s) && s.listenConn.None? && !s.publishPool && !connect.Connected?
    ensures var events := FailingStart(connect, listenerRaises);
            Legal(s, events) && Run(s, events) == Failed(s, connect, listenerRaises)
  {
    var s1 := Next(s, StartCall);
    var fails := StartConnectFails(connect.Leaked?);
    UnconnectedIsFailed(s, connect.Leaked?, listenerRaises);
    TearsDown(Next(s1, fails));
    Unroll(s1, fails, [ListenerTornDown(false)] + [PoolTornDown(false)]);
    Unroll(s, StartCall, [fails] + ([ListenerTornDown(false)] + [PoolTornDown(false)]));
  }

  /**
   A failed start is a run of the machine; it leaves no listener, pool or supervisor if and only if no close
   in its own stop raises.
   */
  lemma FailedStartLeavesNothingIff(s: State, connect: ConnectOutcome, listenerRaises: bool)
    requires Inv(s) && Idle(s) && s.listenConn.None? && !s.publishPool
    ensures var events := FailingStart(connect, listenerRaises);
            && Legal(s, events) && Run(s, events) == Failed(s, connect, listenerRaises)
            && Inv(Run(s, events)) && Idle(Run(s, events))
            && (AllOrNothing(Run(s, events)) <==> !(connect.Connected? && listenerRaises))
            && Run(s, events).open == s.open + (if connect.Leaked? || (connect == Connected(true) && listenerRaises)
                                                then {s.nextConn} else {})
  {
    if connect.Connected? {
      ConnectedStartFails(s, connect.live, listenerRaises);
    } else {
      UnconnectedStartFails(s, connect, listenerRaises);
    }
  }

  function FailedAttempts(k: nat): seq<Event> {
    if k == 0 then [] else [ReconnectFails(false)] + ([SleepDone] + FailedAttempts(k - 1))
  }

  lemma {:induction false} FailedAttemptsRun(s: State, k: nat, rest: seq<Event>)
    requires s.supervisor.Retrying? && !s.stopping && s.supervisor.delay == Delay(s.supervisor.attempt)
    requires var a := s.supervisor.attempt; Legal(s.(supervisor := Retrying(a + k, Delay(a + k))), rest)
    ensures var a := s.supervisor.attempt;
            var events := FailedAttempts(k) + rest;
            Legal(s, events) && Run(s, events) == Run(s.(supervisor := Retrying(a + k, Delay(a + k))), rest)
    decreases k
  {
    var a := s.supervisor.attempt;
    if k == 0 {
      assert FailedAttempts(0) + rest == rest && s.(supervisor := Retrying(a, Delay(a))) == s;
    } else {
      var asleep := Next(s, ReconnectFails(false));
      var again := Next(asleep, SleepDone);
      DelayDoubles(a);
      assert again == s.(supervisor := Retrying(a + 1, Delay(a + 1)));
      assert again.(supervisor := Retrying(a + k, Delay(a + k))) == s.(supervisor := Retrying(a + k, Delay(a + k)));
      FailedAttemptsRun(again, k - 1, rest);
      Unroll(asleep, SleepDone, FailedAttempts(k - 1) + rest);
      Unroll(s, ReconnectFails(false), [SleepDone] + (FailedAttempts(k - 1) + rest));
      assert FailedAttempts(k) + rest == [ReconnectFails(false)] + ([SleepDone] + (FailedAttempts(k - 1) + rest));
    }
  }

  /** One pass of the reconnect loop; whether the old connection `closes` matters only while it is open. */
  function ReconnectEvents(s: State, closes: bool, failures: nat): seq<Event> {
    var attempts := FailedAttempts(failures) + [Reconnected(true)];
    [Wake] + if s.listenConn.Some? && s.listenConn.value in s.open then [OldClosed(closes)] + attempts else attempts
  }

  /** What a pass of the reconnect loop leaves: a new connection, watched and the only one, and the old one closed. */
  function Relistening(s: State, closes: bool): State {
    var closed := if s.listenConn.Some? && closes then {s.listenConn.value} else {};
    s.(listenConn := Some(s.nextConn), connectionLost := false, open := s.open - closed + {s.nextConn},
       watched := {s.nextConn}, nextConn := s.nextConn + 1)
  }

  lemma WakesUp(s: State, closes: bool)
    requires Inv(s) && s.supervisor.Waiting? && s.connectionLost
    ensures var w := Next(s, Wake);
            var closing := s.listenConn.Some? && s.listenConn.value in s.open;
            && (closing <==> w.supervisor.ClosingOld?)
            && var r := if closing then Next(w, OldClosed(closes)) else w;
               var closed := if s.listenConn.Some? && closes then {s.listenConn.value} else {};
               r == s.(listenConn := None, connectionLost := false, open := s.open - closed, watched := {},
                       supervisor := Retrying(0, INITIAL_DELAY))
  {
    var closed := if s.listenConn.Some? && closes then {s.listenConn.value} else {};
    assert s.listenConn.Some? && s.listenConn.value !in s.open ==> s.open - closed == s.open;
    assert s.watched - (if s.listenConn.Some? then {s.listenConn.value} else {}) == {};
    assert s.open - {} == s.open;
  }

  /**
   Woken by the lost flag, the loop gets the broker listening again after any number of failed attempts,
   with nothing of the old connection left but what a failed close leaves open.
   */
  lemma ReconnectRuns(s: State, closes: bool, failures: nat)
    requires Inv(s) && s.supervisor.Waiting? && s.connectionLost
    ensures var events := ReconnectEvents(s, closes, failures);
            Legal(s, events) && Run(s, events) == Relistening(s, closes)
  {
    var w, again := Next(s, Wake), Reconnected(true);
    var r := if w.supervisor.ClosingOld? then Next(w, OldClosed(closes)) else w;
    WakesUp(s, closes);
    var last := r.(supervisor := Retrying(failures, Delay(failures)));
    assert Next(last, again) == Relistening(s, closes);
    Unroll1(last, again);
    FailedAttemptsRun(r, failures, [again]);
    if w.supervisor.ClosingOld? {
      Unroll(w, OldClosed(closes), FailedAttempts(failures) + [again]);
      Unroll(s, Wake, [OldClosed(closes)] + (FailedAttempts(failures) + [again]));
    } else {
      Unroll(s, Wake, FailedAttempts(failures) + [again]);
    }
  }

  // ------------------------------------------------------------ the broker

  datatype PublishError = NotStarted | TooLarge

  /** The broker object; `open`, `watched` and `nextConn` stand for the server and the driver. */
  class PostgresNotifyBroker {
    var listenConn: Option<Conn>
    var publishPool: bool
    var connectionLost: bool
    var stopping: bool
    var reconnectTask: Supervisor
    var open: set<Conn>
    var watched: set<Conn>
    var nextConn: Conn
    /** Sizes of the payloads handed to pg_notify. */
    var notified: seq<nat>

    ghost function Model(): State
      reads this
    {
      State(listenConn, publishPool, connectionLost, stopping, reconnectTask, NotStarting, NotTearing, open, watched,
        nextConn)
    }

    ghost predicate Valid()
      reads this
    {
      Inv(Model())
    }

    constructor ()
      ensures Valid() && Model() == INIT && notified == []
    {
      listenConn, publishPool, connectionLost, stopping := None, false, false, false;
      reconnectTask, open, watched, nextConn, notified := NoTask, {}, {}, 0, [];
    }

    /** The termination listener. */
    method OnListenConnectionLost()
      modifies this`connectionLost
      ensures connectionLost
    {
      connectionLost := true;
    }

    /**
     An open connection dies, and the driver runs its termination listener if it is installed: this
     is one event of the machine, and a supervisor waiting on the current connection can wake.
     */
    method LoseConnection(c: Conn)
      requires Valid() && c in open
      modifies this`connectionLost, this`open, this`watched
      ensures Valid() && Model() == Next(old(Model()), Dies(c))
      ensures connectionLost <==> old(connectionLost) || (old(Listening(Model())) && listenConn == Some(c))
      ensures open == old(open) - {c} && watched == old(watched) - {c}
      ensures reconnectTask.Waiting? && listenConn == Some(c) ==> Enabled(Model(), Wake)
    {
      NextKeepsInvIff(Model(), Dies(c));
      open := open - {c};
      if c in watched {
        watched := watched - {c};
        OnListenConnectionLost();
      } else {
        assert watched - {c} == watched;
      }
    }

    /** Connects and listens; the field and the termination listener are set in the last stretch. */
    method ConnectListener(connect: ConnectOutcome) returns (raised: bool)
      modifies this`listenConn, this`watched, this`open, this`nextConn
      ensures raised <==> !connect.Connected?
      ensures Model() == if raised then Leak(old(Model()), connect.Leaked?) else Install(old(Model()), connect.live)
    {
      if connect.Refused? {
        return true;
      }
      var conn := nextConn;
      nextConn := nextConn + 1;
      if connect.Leaked? || connect.live {
        open := open + {conn};
      }
      if connect.Leaked? {
        return true;
      }
      watched := watched + {conn};
      listenConn := Some(conn);
      raised := false;
    }

    /**
     `start`, when no stop runs meanwhile: all three parts are set up, or after a failure what its own stop
     leaves, which is nothing if and only if the close of a connected listener does not raise.
     */
    method Start(connect: ConnectOutcome, poolOpens: bool, listenerRaises: bool) returns (raised: bool)
      requires Valid()
      modifies this
      ensures notified == old(notified) && (Valid() || connect == Connected(false))
      ensures old(listenConn.Some? || publishPool) ==> !raised && Model() == old(Model())
      ensures old(listenConn.None? && !publishPool) ==> (raised <==> !(connect.Connected? && poolOpens))
      ensures !raised && old(listenConn.None? && !publishPool) ==>
        publishPool && listenConn.Some? && reconnectTask.Waiting?
      ensures !raised && old(listenConn.None? && !publishPool) ==> (Listening(Model()) <==> connect.live)
      ensures !raised && old(listenConn.None? && !publishPool) ==>
        var events := [StartCall, StartConnected(connect.live), PoolCreated];
        Legal(old(Model()), events) && Model() == Run(old(Model()), events)
      ensures raised ==> Model() == Failed(old(Model()), connect, listenerRaises)
      ensures raised ==> (AllOrNothing(Model()) <==> !(connect.Connected? && listenerRaises))
    {
      ghost var was := Model();
      raised := SetUp(connect, poolOpens, listenerRaises);
      if raised {
        FailedStartLeavesNothingIff(was, connect, listenerRaises);
      } else if was.listenConn.None? && !was.publishPool {
        StartRuns(was, connect.live);
      }
    }

    method SetUp(connect: ConnectOutcome, poolOpens: bool, listenerRaises: bool) returns (raised: bool)
      requires Valid()
      modifies this
      ensures notified == old(notified)
      ensures old(listenConn.Some? || publishPool) ==> !raised && Model() == old(Model())
      ensures old(listenConn.None? && !publishPool) ==>
        && (raised <==> !(connect.Connected? && poolOpens))
        && Model() == if raised then Failed(old(Model()), connect, listenerRaises)
          else Started(old(Model()), connect.live)
    {
      ghost var was := Model();
      if listenConn.Some? || publishPool {
        return false;
      }
      stopping := false;
      connectionLost := false;
      raised := ConnectListener(connect);
      if raised || !poolOpens {
        assert was.nextConn !in was.open && was.nextConn !in was.watched;
        assert was.open + {was.nextConn} - {was.nextConn} == was.open - {was.nextConn} == was.open;
        assert was.watched + {was.nextConn} - {was.nextConn} == was.watched;
        var _ := TearDown(Closes(listenerRaises, false));
        return true;
      }
      publishPool := true;
      reconnectTask := Waiting;
    }

    /** A close that raises ends the stop there, with its field and what comes after it as they were. */
    method Stop(closes: Closes) returns (raised: bool)
      modifies this
      ensures notified == old(notified) && Model() == Stopped(old(Model()), closes)
      ensures raised <==> ListenerStops(old(Model()), closes) || PoolStops(old(Model()), closes)
      ensures old(Valid()) ==> Valid() && (AllOrNothing(Model()) <==> !raised)
      ensures connectionLost == old(connectionLost)
      ensures Legal(old(Model()), StopEvents(old(Model()), closes))
      ensures Model() == Run(old(Model()), StopEvents(old(Model()), closes))
    {
      ghost var was := Model();
      raised := TearDown(closes);
      StopRuns(was, closes);
      if Inv(was) {
        StopLeavesNothingIff(was, closes);
      }
    }

    method TearDown(closes: Closes) returns (raised: bool)
      modifies this
      ensures notified == old(notified) && Model() == Stopped(old(Model()), closes)
      ensures raised <==> ListenerStops(old(Model()), closes) || PoolStops(old(Model()), closes)
    {
      stopping := true;
      reconnectTask := NoTask;
      assert watched - {} == watched && open - {} == open;
      if listenConn.Some? {
        // The termination listener goes first, so that this close does not arm a reconnect.
        watched := watched - {listenConn.value};
        if closes.listenerRaises {
          return true;
        }
        open := open - {listenConn.value};
        listenConn := None;
      }
      if publishPool && closes.poolRaises {
        return true;
      }
      publishPool := false;
      raised := false;
    }

    /** The inner loop: the sleeps between the failed attempts before the one that succeeds. */
    static method RetryUntilConnected(failures: nat) returns (slept: seq<real>)
      ensures |slept| == failures
      ensures forall k: nat :: k < failures ==> slept[k] == Min(0.5 * Pow2(k), 30.0)
    {
      var delay := INITIAL_DELAY;
      slept := [];
      var attempt := 0;
      while attempt < failures
        invariant 0 <= attempt <= failures && |slept| == attempt && delay == Delay(attempt)
        invariant forall k: nat :: k < attempt ==> slept[k] == Min(0.5 * Pow2(k), 30.0)
      {
        slept := slept + [delay];
        DelayDoubles(attempt);
        delay := Min(delay * 2.0, MAX_DELAY);
        attempt := attempt + 1;
      }
    }

    /**
     One pass of the reconnect loop from the moment the flag wakes it: `failures` attempts
     fail before one succeeds. Returns the delays slept. It is a run of the machine.
     */
    method Reconnect(closes: bool, failures: nat) returns (slept: seq<real>)
      requires Valid() && reconnectTask.Waiting? && connectionLost && !stopping
      modifies this
      ensures Valid() && Listening(Model()) && reconnectTask.Waiting? && !connectionLost
      ensures publishPool && !stopping && notified == old(notified)
      ensures listenConn == Some(old(nextConn)) && watched == {old(nextConn)}
      ensures open == old(open - (if listenConn.Some? && closes then {listenConn.value} else {}) + {nextConn})
      ensures Legal(old(Model()), ReconnectEvents(old(Model()), closes, failures))
      ensures Model() == Run(old(Model()), ReconnectEvents(old(Model()), closes, failures))
      ensures |slept| == failures
      ensures forall k: nat :: k < failures ==> slept[k] == Min(0.5 * Pow2(k), 30.0)
    {
      ReconnectRuns(Model(), closes, failures);
      connectionLost := false;
      var previous := listenConn;
      listenConn := None;
      if previous.Some? {
        watched := watched - {previous.value};
        if previous.value in open && closes {
          open := open - {previous.value};
        }
      }
      slept := RetryUntilConnected(failures);
      var _ := ConnectListener(Connected(true));
    }

    /** A payload over the pg_notify cap is refused here, before the server sees it. */
    method Publish(payloadSize: nat) returns (outcome: Result<(), PublishError>)
      modifies this`notified
      ensures outcome.Ok? <==> publishPool && payloadSize <= 7999
      ensures outcome == Err(NotStarted) <==> !publishPool
      ensures notified == old(notified) + (if outcome.Ok? then [payloadSize] else [])
    {
      if !publishPool {
        return Err(NotStarted);
      }
      if payloadSize > MAX_NOTIFY_PAYLOAD_BYTES {
        return Err(TooLarge);
      }
      notified := notified + [payloadSize];
      outcome := Ok(());
    }
  }
}
