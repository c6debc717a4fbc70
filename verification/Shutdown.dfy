/**
  The accept loop, the connection handlers and Close (internal/runtime/embedded.go), as a state machine
  whose steps interleave freely. A step is what happens under one lock, or one call on the listener, the
  wait group or a connection.
*/
module Shutdown {
  type Conn = nat

  datatype Listener = Unset | Open | Shut

  /** The accept loop: at Accept, with a connection in hand before and after wg.Add, or gone. */
  datatype Loop = NotStarted | Accepting | Holding(conn: Conn) | Counted(conn: Conn) | Exited

  /** A handler: spawned, after registerConn, after unregisterConn, after wg.Done. */
  datatype Handler = Spawned | Registered | Unregistered | Finished

  /** The body of closeOnce.Do, run by the first caller of Close. */
  datatype Closer = Idle | Entered | Snapshotting | Closing(todo: set<Conn>) | Waiting | Ended

  /** `snapshot` are the connections closeActiveConns found; `returned` is whether some Close call returned. */
  datatype State = State(listener: Listener, loop: Loop, handlers: map<Conn, Handler>, active: set<Conn>,
                         closed: set<Conn>, wg: int, closer: Closer, snapshot: set<Conn>, returned: bool)

  datatype Event =
    | Start | Accept(conn: Conn) | AcceptFails | AddHandler | Spawn | LoopExit
    | Register(conn: Conn) | HandlerCloses(conn: Conn) | Unregister(conn: Conn) | Finish(conn: Conn)
    | CallClose | CloseListener | TakeSnapshot | CloseNext(conn: Conn) | AllClosed | WaitOver | Return

  const INITIAL := State(Unset, NotStarted, map[], {}, {}, 0, Idle, {}, false)

  predicate At(s: State, c: Conn, h: Handler) { c in s.handlers && s.handlers[c] == h }

  predicate Enabled(s: State, e: Event) {
    match e
    case Start => s.listener == Unset
    case Accept(c) => s.loop == Accepting && s.listener == Open && c !in s.handlers
    case AcceptFails => s.loop == Accepting
    case AddHandler => s.loop.Holding?
    case Spawn => s.loop.Counted?
    case LoopExit => s.loop == Accepting && s.listener == Shut
    case Register(c) => At(s, c, Spawned)
    case HandlerCloses(c) => At(s, c, Registered)
    case Unregister(c) => At(s, c, Registered)
    case Finish(c) => At(s, c, Unregistered)
    case CallClose => true
    case CloseListener => s.closer == Entered
    case TakeSnapshot => s.closer == Snapshotting
    case CloseNext(c) => s.closer.Closing? && c in s.closer.todo
    case AllClosed => s.closer == Closing({})
    case WaitOver => s.closer == Waiting && s.wg == 0
    case Return => s.closer == Ended
  }

  function Apply(s: State, e: Event): State
    requires Enabled(s, e)
  {
    match e
    case Start => s.(listener := Open, loop := Accepting, wg := s.wg + 1)
    case Accept(c) => s.(loop := Holding(c))
    case AcceptFails => s
    case AddHandler => s.(loop := Counted(s.loop.conn), wg := s.wg + 1)
    case Spawn => s.(loop := Accepting, handlers := s.handlers[s.loop.conn := Spawned])
    case LoopExit => s.(loop := Exited, wg := s.wg - 1)
    case Register(c) => s.(handlers := s.handlers[c := Registered], active := s.active + {c})
    case HandlerCloses(c) => s.(closed := s.closed + {c})
    case Unregister(c) => s.(handlers := s.handlers[c := Unregistered], active := s.active - {c}, closed := s.closed + {c})
    case Finish(c) => s.(handlers := s.handlers[c := Finished], wg := s.wg - 1)
    case CallClose => if s.closer == Idle then s.(closer := Entered) else s
    case CloseListener => s.(closer := Snapshotting, listener := if s.listener == Open then Shut else s.listener)
    case TakeSnapshot => s.(closer := Closing(s.active), snapshot := s.active)
    case CloseNext(c) => s.(closer := Closing(s.closer.todo - {c}), closed := s.closed + {c})
    case AllClosed => s.(closer := Waiting)
    case WaitOver => s.(closer := Ended)
    case Return => s.(returned := true)
  }

  ghost predicate Run(s: State, events: seq<Event>, t: State)
    decreases |events|
  {
    if events == [] then s == t else Enabled(s, events[0]) && Run(Apply(s, events[0]), events[1..], t)
  }

  ghost predicate Reachable(s: State) { exists events :: Run(INITIAL, events, s) }

  // ---- the wait group ----

  function Unfinished(handlers: map<Conn, Handler>): set<Conn> { set c <- handlers | handlers[c] != Finished }

  predicate Alive(loop: Loop) { loop.Accepting? || loop.Holding? || loop.Counted? }

  /** One for the loop, one for each handler not yet done, and one counted for a handler about to be spawned. */
  predicate Counts(s: State) {
    s.wg == (if Alive(s.loop) then 1 else 0) + (if s.loop.Counted? then 1 else 0) + |Unfinished(s.handlers)|
  }

  predicate Tracked(s: State) {
    && s.active == (set c <- s.handlers | s.handlers[c] == Registered)
    && (forall c <- s.handlers :: s.handlers[c] in {Unregistered, Finished} ==> c in s.closed)
    && (s.loop.Holding? || s.loop.Counted? ==> s.loop.conn !in s.handlers)
  }

  predicate Ordered(s: State) {
    && (s.listener == Unset <==> s.loop == NotStarted)
    && (s.loop == NotStarted ==> s.handlers == map[])
    && (s.loop == Exited ==> s.listener == Shut)
    && (s.listener == Shut ==> s.closer !in {Idle, Entered})
    && (s.closer in {Idle, Entered, Snapshotting} ==> s.snapshot == {})
    && (s.closer.Closing? ==> s.snapshot - s.closer.todo <= s.closed)
    && (s.closer in {Waiting, Ended} ==> s.snapshot <= s.closed)
    && (s.returned ==> s.closer == Ended)
    && (s.closer == Ended && s.listener == Shut ==> s.wg == 0)
  }

  predicate Sound(s: State) { Counts(s) && Tracked(s) && Ordered(s) }

  lemma UnfinishedMoves(handlers: map<Conn, Handler>, c: Conn, h: Handler)
    ensures Unfinished(handlers[c := h]) == if h == Finished then Unfinished(handlers) - {c} else Unfinished(handlers) + {c}
    ensures c in Unfinished(handlers) <==> c in handlers && handlers[c] != Finished
  {
  }

  /** A handler that moves on without finishing leaves the count as it is. */
  lemma MovesOn(handlers: map<Conn, Handler>, c: Conn, h: Handler)
    requires c in handlers && handlers[c] != Finished && h != Finished
    ensures Unfinished(handlers[c := h]) == Unfinished(handlers)
  {
    UnfinishedMoves(handlers, c, h);
    assert Unfinished(handlers) + {c} == Unfinished(handlers);
  }

  lemma StepCounts(s: State, e: Event)
    requires Counts(s) && Tracked(s) && Ordered(s) && Enabled(s, e)
    ensures Counts(Apply(s, e))
  {
    hide Ordered, Unfinished;
    if e.Spawn? {
      UnfinishedMoves(s.handlers, s.loop.conn, Spawned);
    } else if e.Register? {
      MovesOn(s.handlers, e.conn, Registered);
    } else if e.Unregister? {
      MovesOn(s.handlers, e.conn, Unregistered);
    } else if e.Finish? {
      UnfinishedMoves(s.handlers, e.conn, Finished);
    } else if e.Start? {
      StartsCold(s);
    }
  }

  lemma StartsCold(s: State)
    requires Ordered(s) && s.listener == Unset
    ensures s.loop == NotStarted
  {
  }

  lemma StepTracked(s: State, e: Event)
    requires Sound(s) && Enabled(s, e)
    ensures Tracked(Apply(s, e))
  {
  }

  /** With the wait group at zero neither the loop nor a handler can move. */
  lemma IdleWhenZero(s: State)
    requires Counts(s) && s.wg == 0
    ensures !Alive(s.loop) && forall c <- s.handlers :: s.handlers[c] == Finished
  {
    forall c <- s.handlers ensures s.handlers[c] == Finished {
      assert c in Unfinished(s.handlers) ==> |Unfinished(s.handlers)| > 0;
    }
  }

  lemma StepOrdered(s: State, e: Event)
    requires Sound(s) && Enabled(s, e)
    ensures Ordered(Apply(s, e))
  {
    if s.closer == Ended && s.listener == Shut { IdleWhenZero(s); }
  }

  /** Every step keeps the wait group exact. */
  lemma StepSound(s: State, e: Event)
    requires Sound(s) && Enabled(s, e)
    ensures Sound(Apply(s, e))
  {
    StepCounts(s, e);
    StepTracked(s, e);
    StepOrdered(s, e);
  }

  lemma {:induction false} RunSound(s: State, events: seq<Event>, t: State)
    requires Sound(s) && Run(s, events, t)
    ensures Sound(t)
    decreases |events|
  {
    if events != [] {
      StepSound(s, events[0]);
      RunSound(Apply(s, events[0]), events[1..], t);
    }
  }

  /** In every interleaving the wait group is (accept loop alive) + (handlers running or about to be spawned). */
  lemma ReachableSound(s: State)
    requires Reachable(s)
    ensures Sound(s)
  {
    var events :| Run(INITIAL, events, s);
    assert Unfinished(INITIAL.handlers) == {};
    RunSound(INITIAL, events, s);
  }

  // ---- what Close promises ----

  /** Every connection Accept returned. */
  function Accepted(s: State): set<Conn> {
    s.handlers.Keys + if s.loop.Holding? || s.loop.Counted? then {s.loop.conn} else {}
  }

  predicate Quiet(s: State) {
    !Alive(s.loop) && Unfinished(s.handlers) == {} && s.active == {} && Accepted(s) <= s.closed
  }

  /**
    When a Close call has returned, the loop is gone, no handler runs, no connection is active and every
    accepted connection is closed, exactly when the listener is not open: that is, unless Start came
    only after Close had looked for a listener.
  */
  lemma CloseIsComplete(s: State)
    requires Reachable(s) && s.returned
    ensures Quiet(s) <==> s.listener != Open
  {
    ReachableSound(s);
    if s.listener == Shut { IdleWhenZero(s); }
  }

  /** A server started before the first Close call never has its listener open once Close returned. */
  lemma {:induction false} StartedStaysShut(s: State, events: seq<Event>, t: State)
    requires Run(s, events, t) && s.listener != Unset && (s.listener == Open ==> s.closer in {Idle, Entered})
    ensures t.listener != Unset && (t.listener == Open ==> t.closer in {Idle, Entered})
    decreases |events|
  {
    if events != [] { StartedStaysShut(Apply(s, events[0]), events[1..], t); }
  }

  /** So Close on a server that was started first is complete in every interleaving. */
  lemma StartedThenClosed(events: seq<Event>, t: State)
    requires Run(Apply(INITIAL, Start), events, t) && t.returned
    ensures Quiet(t) && t.listener == Shut && t.loop == Exited
  {
    StartedStaysShut(Apply(INITIAL, Start), events, t);
    assert Run(INITIAL, [Start] + events, t) by { assert ([Start] + events)[1..] == events; }
    CloseIsComplete(t);
    ReachableSound(t);
  }

  /** Close closes what was registered when it looked; a connection still open while it waits registered later. */
  lemma WaitsForLateConnections(s: State, c: Conn)
    requires Reachable(s) && s.closer in {Waiting, Ended} && c !in s.closed
    ensures c !in s.snapshot && (c in s.handlers ==> s.handlers[c] in {Spawned, Registered})
    ensures c in s.handlers && s.listener == Shut ==> s.closer == Waiting
  {
    ReachableSound(s);
    if s.closer == Ended && s.listener == Shut { IdleWhenZero(s); }
  }

  const ONE_SPAWNED := State(Open, Accepting, map[0 := Spawned], {}, {}, 2, Idle, {}, false)

  lemma OneSpawned()
    ensures Reachable(ONE_SPAWNED)
  {
    assert Run(INITIAL, [], INITIAL);
    var s := Next(INITIAL, Start);
    s := Next(s, Accept(0));
    s := Next(s, AddHandler);
    s := Next(s, Spawn);
    assert s == ONE_SPAWNED;
  }

  lemma LookedTooSoon()
    ensures Reachable(ONE_SPAWNED.(closer := Waiting, listener := Shut))
  {
    OneSpawned();
    var s := Next(ONE_SPAWNED, CallClose);
    s := Next(s, CloseListener);
    s := Next(s, TakeSnapshot);
    s := Next(s, AllClosed);
  }

  /** Such a connection exists: accepted before Close, registered after the snapshot, closed by nobody. */
  lemma LateConnectionStaysOpen() returns (s: State)
    ensures Reachable(s) && s == State(Shut, Exited, map[0 := Registered], {0}, {}, 1, Waiting, {}, false)
  {
    LookedTooSoon();
    s := Next(ONE_SPAWNED.(closer := Waiting, listener := Shut), LoopExit);
    s := Next(s, Register(0));
    assert map[0 := Spawned][0 := Registered] == map[0 := Registered];
  }

  lemma Next(s: State, e: Event) returns (t: State)
    requires Reachable(s) && Enabled(s, e)
    ensures Reachable(t) && t == Apply(s, e)
  {
    t := Apply(s, e);
    var events :| Run(INITIAL, events, s);
    RunLonger(INITIAL, events, s, e);
  }

  lemma {:induction false} RunLonger(r: State, events: seq<Event>, s: State, e: Event)
    requires Run(r, events, s) && Enabled(s, e)
    ensures Run(r, events + [e], Apply(s, e))
    decreases |events|
  {
    if events == [] {
      assert ([] + [e])[1..] == [];
    } else {
      RunLonger(Apply(r, events[0]), events[1..], s, e);
      assert (events + [e])[1..] == events[1..] + [e];
    }
  }

  // ---- Close ends once the handlers do ----

  function In(handlers: map<Conn, Handler>, h: Handler): set<Conn> { set c <- handlers | handlers[c] == h }

  function HandlerWork(handlers: map<Conn, Handler>): nat {
    3 * |In(handlers, Spawned)| + 2 * |In(handlers, Registered)| + |In(handlers, Unregistered)|
  }

  /** Steps the loop and the handlers have left once nothing is accepted any more. */
  function Work(s: State): nat {
    HandlerWork(s.handlers) + match s.loop case Holding(_) => 6 case Counted(_) => 5 case Accepting => 1 case _ => 0
  }

  /** The steps that bring the wait group down. */
  predicate Drains(e: Event) {
    e.AddHandler? || e.Spawn? || e.LoopExit? || e.Register? || e.Unregister? || e.Finish?
  }

  lemma Moved(handlers: map<Conn, Handler>, c: Conn, g: Handler)
    requires c in handlers && handlers[c] != g
    ensures var moved, h := handlers[c := g], handlers[c];
      && |In(moved, h)| == |In(handlers, h)| - 1 && |In(moved, g)| == |In(handlers, g)| + 1
      && forall k | k != h && k != g :: In(moved, k) == In(handlers, k)
  {
    MovedSets(handlers, c, g);
    hide In;
  }

  lemma MovedSets(handlers: map<Conn, Handler>, c: Conn, g: Handler)
    requires c in handlers && handlers[c] != g
    ensures var moved, h := handlers[c := g], handlers[c];
      && c in In(handlers, h) && In(moved, h) == In(handlers, h) - {c}
      && c !in In(handlers, g) && In(moved, g) == In(handlers, g) + {c}
      && forall k | k != h && k != g :: In(moved, k) == In(handlers, k)
  {
    forall k | k != handlers[c] && k != g ensures In(handlers[c := g], k) == In(handlers, k) {}
  }

  /** A handler's next step leaves it less to do. */
  lemma MovedWork(handlers: map<Conn, Handler>, c: Conn, g: Handler)
    requires c in handlers
    requires (handlers[c], g) in {(Spawned, Registered), (Registered, Unregistered), (Unregistered, Finished)}
    ensures HandlerWork(handlers[c := g]) == HandlerWork(handlers) - 1
  {
    hide In;
    Moved(handlers, c, g);
  }

  lemma SpawnedWork(handlers: map<Conn, Handler>, c: Conn)
    requires c !in handlers
    ensures HandlerWork(handlers[c := Spawned]) == HandlerWork(handlers) + 3
  {
    var more := handlers[c := Spawned];
    assert In(more, Spawned) == In(handlers, Spawned) + {c};
    assert In(more, Registered) == In(handlers, Registered) && In(more, Unregistered) == In(handlers, Unregistered);
  }

  /** Once the listener is shut each such step leaves less to do, and no other step adds any. */
  lemma DrainStep(s: State, e: Event)
    requires Sound(s) && Enabled(s, e) && s.listener == Shut
    ensures Work(Apply(s, e)) == Work(s) - if Drains(e) then 1 else 0
    ensures Apply(s, e).listener == Shut
  {
    hide HandlerWork, Counts, Ordered;
    if e.Register? {
      MovedWork(s.handlers, e.conn, Registered);
    } else if e.Unregister? {
      MovedWork(s.handlers, e.conn, Unregistered);
    } else if e.Finish? {
      MovedWork(s.handlers, e.conn, Finished);
    } else if e.Spawn? {
      SpawnedWork(s.handlers, s.loop.conn);
    }
  }

  /** While the wait group is positive such a step is possible: Close waits for handlers, never for itself. */
  lemma NeverStuck(s: State) returns (e: Event)
    requires Sound(s) && s.listener == Shut && s.wg > 0
    ensures Drains(e) && Enabled(s, e)
  {
    if s.loop.Accepting? {
      e := LoopExit;
    } else if s.loop.Holding? {
      e := AddHandler;
    } else if s.loop.Counted? {
      e := Spawn;
    } else {
      var c :| c in Unfinished(s.handlers);
      e := if At(s, c, Spawned) then Register(c) else if At(s, c, Registered) then Unregister(c) else Finish(c);
    }
  }

  /** Hence from any state with the listener shut a run of exactly the steps left, and two more, lets Close return. */
  lemma {:induction false} CloseCanReturn(s: State) returns (events: seq<Event>, t: State)
    requires Sound(s) && s.listener == Shut && s.closer == Waiting
    ensures Run(s, events, t) && |events| == Work(s) + 2 && t.returned && Quiet(t)
    decreases Work(s)
  {
    if s.wg > 0 {
      var e := NeverStuck(s);
      StepSound(s, e);
      DrainStep(s, e);
      var rest;
      rest, t := CloseCanReturn(Apply(s, e));
      events := [e] + rest;
      assert events[1..] == rest;
    } else {
      var u := Apply(s, WaitOver);
      StepSound(s, WaitOver);
      t := Apply(u, Return);
      StepSound(u, Return);
      IdleWhenZero(t);
      events := [WaitOver, Return];
      assert Run(u, [Return], t) by { assert Run(t, [], t); }
      assert events[1..] == [Return];
    }
  }

  // ---- the code of the steps ----

  /** The active set and the connections; each method takes the protocol state it starts from. */
  class Connections {
    var active: set<Conn>
    var closed: set<Conn>

    ghost predicate Matches(s: State)
      reads this
    {
      active == s.active && closed == s.closed
    }

    constructor ()
      ensures Matches(INITIAL)
    {
      active, closed := {}, {};
    }

    method RegisterConn(c: Conn, ghost s: State)
      requires Matches(s) && Enabled(s, Register(c))
      modifies this
      ensures Matches(Apply(s, Register(c)))
    {
      active := active + {c};
    }

    method UnregisterConn(c: Conn, ghost s: State)
      requires Matches(s) && Enabled(s, Unregister(c))
      modifies this
      ensures Matches(Apply(s, Unregister(c)))
    {
      active := active - {c};
      closed := closed + {c};
    }

    /** With nothing in between, closing the active connections is a run from the snapshot to waiting. */
    method CloseActiveConns(ghost s: State) returns (ghost events: seq<Event>, ghost t: State)
      requires Matches(s) && s.closer == Snapshotting
      modifies this`closed
      ensures Run(s, events, t) && Matches(t) && t == s.(closer := Waiting, snapshot := s.active, closed := s.closed + s.active)
    {
      var conns := active;
      t := Apply(s, TakeSnapshot);
      events := [TakeSnapshot];
      assert Run(t, [], t);
      while conns != {}
        modifies this`closed
        invariant conns <= s.active && Run(s, events, t) && Matches(t)
        invariant t == s.(closer := Closing(conns), snapshot := s.active, closed := s.closed + (s.active - conns))
        decreases conns
      {
        var conn :| conn in conns;
        RunLonger(s, events, t, CloseNext(conn));
        events, t := events + [CloseNext(conn)], Apply(t, CloseNext(conn));
        conns := conns - {conn};
        closed := closed + {conn};
      }
      RunLonger(s, events, t, AllClosed);
      events, t := events + [AllClosed], Apply(t, AllClosed);
    }
  }
}
