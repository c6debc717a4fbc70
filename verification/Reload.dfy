/**
  One node's controllers over its lifetime (main.go), the reload channel they share with their tasks
  (internal/controller/controller.go, internal/task/task.go), and the task object itself.
*/
module Reload {
  import opened Panel

  /** Controllers are numbered in the order runNode creates them; 0 is none yet. */
  type Generation = nat

  /** Where runNode is. `why` says whether it is closing for a token or for the end of the context. */
  datatype Pc = Checking | Creating | Starting | Serving | Selecting | Closing(why: Why) | Sleeping | Stopped
  datatype Why = Token | Shutdown

  /**
    `channel` holds the sender of the token in it; `live` are the generations whose server listens,
    `started` those whose tasks were started, `asked` those that ever tried to send; `sent` and `taken` count tokens into and out of the channel.
  */
  datatype State = State(pc: Pc, generation: Generation, channel: Option<Generation>, live: set<Generation>,
                         started: set<Generation>, asked: set<Generation>, cancelled: bool, sent: nat, taken: nat)

  datatype Event =
    | Cancel
    | Look | ClientFails | ClientMade | StartFails | ServerUp | TasksUp | Take | SeeDone | ServerDown | Wake
    | Send(from: Generation)

  const INITIAL := State(Checking, 0, None, {}, {}, {}, false, 0, 0)

  /**
    Any generation whose tasks ever started may send at any time: Task.Close stops its loop, but neither an
    execution in progress nor one abandoned after its time limit.
  */
  predicate Enabled(s: State, e: Event) {
    match e
    case Cancel => true
    case Look => s.pc == Checking
    case ClientFails => s.pc == Creating
    case ClientMade => s.pc == Creating
    case StartFails => s.pc == Starting
    case ServerUp => s.pc == Starting
    case TasksUp => s.pc == Serving
    case Take => s.pc == Selecting && s.channel.Some?
    case SeeDone => s.pc == Selecting && s.cancelled
    case ServerDown => s.pc.Closing?
    case Wake => s.pc == Sleeping
    case Send(g) => g in s.started
  }

  function Apply(s: State, e: Event): State
    requires Enabled(s, e)
  {
    match e
    case Cancel => s.(cancelled := true)
    case Look => s.(pc := if s.cancelled then Stopped else Creating)
    case ClientFails => s.(pc := Sleeping)
    case ClientMade => s.(pc := Starting, generation := s.generation + 1)
    case StartFails => s.(pc := Sleeping)
    case ServerUp => s.(pc := Serving, live := s.live + {s.generation})
    case TasksUp => s.(pc := Selecting, started := s.started + {s.generation})
    case Take => s.(pc := Closing(Token), channel := None, taken := s.taken + 1)
    case SeeDone => s.(pc := Closing(Shutdown))
    case ServerDown => s.(pc := if s.pc.why == Token then Sleeping else Stopped, live := s.live - {s.generation})
    case Wake => s.(pc := Checking)
    case Send(g) =>
      var t := s.(asked := s.asked + {g});
      if s.channel.None? then t.(channel := Some(g), sent := s.sent + 1) else t
  }

  ghost predicate Run(s: State, events: seq<Event>, t: State)
    decreases |events|
  {
    if events == [] then s == t else Enabled(s, events[0]) && Run(Apply(s, events[0]), events[1..], t)
  }

  ghost predicate Reachable(s: State) { exists events :: Run(INITIAL, events, s) }

  predicate Sound(s: State) {
    && s.live == (if s.pc in {Serving, Selecting} || s.pc.Closing? then {s.generation} else {})
    && (forall g <- s.started :: 0 < g <= s.generation)
    && (s.pc.Starting? || s.pc.Serving? ==> s.generation > 0 && s.generation !in s.started)
    && (s.pc.Selecting? || s.pc.Closing? ==> s.generation in s.started)
    && (s.channel.Some? ==> s.channel.value in s.asked) && s.asked <= s.started
    && s.sent == s.taken + (if s.channel.Some? then 1 else 0)
    && s.taken <= |s.started|
    && (s.pc.Selecting? ==> s.taken < |s.started|)
    && (s.pc == Stopped || s.pc == Closing(Shutdown) ==> s.cancelled)
  }

  lemma StepSound(s: State, e: Event)
    requires Sound(s) && Enabled(s, e)
    ensures Sound(Apply(s, e))
  {
    if e.TasksUp? { assert |s.started + {s.generation}| == |s.started| + 1; }
  }

  lemma {:induction false} RunSound(s: State, events: seq<Event>, t: State)
    requires Sound(s) && Run(s, events, t)
    ensures Sound(t)
    decreases |events|
  {
    if events != [] {
      StepSound(s, events[0]);
      RunSound(Apply(s, events[0]), events[1..], t);
    }
  }

  /**
    In every interleaving at most one controller has a live server, the newest; every accepted token is in
    the channel or was taken; and each controller is replaced for at most one token.
  */
  lemma OneLiveServer(s: State)
    requires Reachable(s)
    ensures s.live <= {s.generation}
    ensures s.sent == s.taken + (if s.channel.Some? then 1 else 0) && s.taken <= |s.started| <= s.generation
  {
    var events :| Run(INITIAL, events, s);
    RunSound(INITIAL, events, s);
    StartedCount(s.started, s.generation);
  }

  lemma StartedCount(started: set<Generation>, n: nat)
    requires forall g <- started :: 0 < g <= n
    ensures |started| <= n
    decreases n
  {
    if n == 0 {
      assert started == {};
    } else {
      StartedCount(started - {n}, n - 1);
    }
  }

  // ---- a reload is not lost ----

  /** runNode is between two controllers, or about to be. */
  predicate Replacing(s: State) { s.pc == Closing(Token) || s.pc in {Sleeping, Checking, Creating} }

  /** The reload generation `g` asked for is on its way, done, or overtaken by the end of the context. */
  predicate Answered(s: State, g: Generation) {
    s.channel.Some? || Replacing(s) || s.generation > g || s.cancelled
  }

  lemma {:induction false} AnswerLasts(s: State, events: seq<Event>, t: State, g: Generation)
    requires Sound(s) && g <= s.generation && Answered(s, g) && Run(s, events, t)
    ensures Answered(t, g)
    decreases |events|
  {
    if events != [] {
      StepSound(s, events[0]);
      AnswerLasts(Apply(s, events[0]), events[1..], t, g);
    }
  }

  /** A reload requested by the live controller is never lost, whatever happens afterwards. */
  lemma ReloadNotLost(s: State, g: Generation, events: seq<Event>, t: State)
    requires Reachable(s) && g in s.live && Enabled(s, Send(g)) && Run(Apply(s, Send(g)), events, t)
    ensures Answered(t, g)
  {
    var before :| Run(INITIAL, before, s);
    RunSound(INITIAL, before, s);
    StepSound(s, Send(g));
    AnswerLasts(Apply(s, Send(g)), events, t, g);
  }

  /** And it is served: with a token in the channel runNode's own next steps lead to a newer controller. */
  lemma ReloadIsServed(s: State) returns (events: seq<Event>, t: State)
    requires Sound(s) && s.pc == Selecting && s.channel.Some? && !s.cancelled
    ensures Run(s, events, t) && |events| == 6 && forall e <- events :: !e.Send? && !e.Cancel?
    ensures t.pc == Serving && t.live == {s.generation + 1} && t.channel == None
  {
    events := [];
    t := s;
    t, events := Next(s, events, t, Take);
    t, events := Next(s, events, t, ServerDown);
    t, events := Next(s, events, t, Wake);
    t, events := Next(s, events, t, Look);
    t, events := Next(s, events, t, ClientMade);
    t, events := Next(s, events, t, ServerUp);
  }

  lemma Next(r: State, events: seq<Event>, s: State, e: Event) returns (t: State, more: seq<Event>)
    requires Run(r, events, s) && Enabled(s, e)
    ensures t == Apply(s, e) && more == events + [e] && Run(r, more, t)
  {
    t, more := Apply(s, e), events + [e];
    RunLonger(r, events, s, e);
  }

  lemma {:induction false} RunLonger(r: State, events: seq<Event>, s: State, e: Event)
    requires Run(r, events, s) && Enabled(s, e)
    ensures Run(r, events + [e], Apply(s, e))
    decreases |events|
  {
    if events == [] {
      assert ([] + [e])[1..] == [];
    } else {
      RunLonger(Apply(r, events[0]), events[1..], s, e);
      assert (events + [e])[1..] == events[1..] + [e];
    }
  }

  /** A controller about to be replaced that never asked for it is replaced for an older one's token. */
  lemma SpuriousReloadIsStale(s: State)
    requires Reachable(s) && Enabled(s, Take) && s.generation !in s.asked
    ensures s.channel.value < s.generation && s.channel.value !in s.live
  {
    var events :| Run(INITIAL, events, s);
    RunSound(INITIAL, events, s);
  }

  const FIRST_UP := State(Selecting, 1, None, {1}, {1}, {}, false, 0, 0)

  lemma FirstUp() returns (events: seq<Event>)
    ensures Run(INITIAL, events, FIRST_UP)
  {
    events := [];
    var t := INITIAL;
    t, events := Next(INITIAL, events, t, Look);
    t, events := Next(INITIAL, events, t, ClientMade);
    t, events := Next(INITIAL, events, t, ServerUp);
    t, events := Next(INITIAL, events, t, TasksUp);
    assert t == FIRST_UP;
  }

  // ---- the end of the context ----

  predicate Own(e: Event) { !e.Send? && !e.Cancel? }

  /** How many steps runNode still takes at most once the context ended. */
  function Remaining(pc: Pc): nat {
    match pc
    case Stopped => 0
    case Checking => 1
    case Sleeping => 2
    case Closing(why) => if why == Token then 3 else 1
    case Selecting => 4
    case Serving => 5
    case Starting => 6
    case Creating => 7
  }

  function OwnSteps(events: seq<Event>): nat {
    if events == [] then 0 else (if Own(events[0]) then 1 else 0) + OwnSteps(events[1..])
  }

  lemma StepAfterCancel(s: State, e: Event)
    requires Sound(s) && s.cancelled && Enabled(s, e)
    ensures var t := Apply(s, e);
      && t.cancelled && Remaining(t.pc) <= Remaining(s.pc) && (Own(e) ==> Remaining(t.pc) < Remaining(s.pc))
      && t.generation + (if t.pc == Creating then 1 else 0) <= s.generation + (if s.pc == Creating then 1 else 0)
  {
  }

  /** Only a stopped runNode has no step of its own. */
  lemma OwnStepIfRunning(s: State) returns (e: Event)
    requires Sound(s) && s.cancelled
    ensures s.pc != Stopped ==> Own(e) && Enabled(s, e)
    ensures s.pc == Stopped ==> s.live == {} && forall x: Event :: Own(x) ==> !Enabled(s, x)
  {
    match s.pc
    case Checking => e := Look;
    case Creating => e := ClientFails;
    case Starting => e := StartFails;
    case Serving => e := TasksUp;
    case Selecting => e := SeeDone;
    case Closing(_) => e := ServerDown;
    case Sleeping => e := Wake;
    case Stopped => e := Wake;
  }

  /**
    Once the context ended runNode takes at most seven more steps, whatever the tasks do, creates a controller
    only if it was just about to, and where it has no step left it has stopped with no server up.
  */
  lemma CancelStopsTheNode(s: State, events: seq<Event>, t: State)
    requires Reachable(s) && s.cancelled && Run(s, events, t)
    ensures OwnSteps(events) + Remaining(t.pc) <= 7
    ensures t.generation <= s.generation + if s.pc == Creating then 1 else 0
    ensures (forall e: Event :: Own(e) ==> !Enabled(t, e)) <==> t.pc == Stopped
    ensures t.pc == Stopped ==> t.live == {}
  {
    var before :| Run(INITIAL, before, s);
    RunSound(INITIAL, before, s);
    RunAfterCancel(s, events, t);
    RunSound(s, events, t);
    var e := OwnStepIfRunning(t);
  }

  lemma {:induction false} RunAfterCancel(s: State, events: seq<Event>, t: State)
    requires Sound(s) && s.cancelled && Run(s, events, t)
    ensures t.cancelled && OwnSteps(events) + Remaining(t.pc) <= Remaining(s.pc)
    ensures t.generation + (if t.pc == Creating then 1 else 0) <= s.generation + (if s.pc == Creating then 1 else 0)
    decreases |events|
  {
    if events != [] {
      StepSound(s, events[0]);
      StepAfterCancel(s, events[0]);
      RunAfterCancel(Apply(s, events[0]), events[1..], t);
    }
  }

  const STALE := State(Sleeping, 1, Some(1), {}, {1}, {1}, false, 2, 1)

  /** An execution of the first controller outlives it and sends a second token. */
  lemma StaleToken() returns (events: seq<Event>)
    ensures Run(INITIAL, events, STALE)
  {
    events := FirstUp();
    var t := FIRST_UP;
    t, events := Next(INITIAL, events, t, Send(1));
    t, events := Next(INITIAL, events, t, Take);
    t, events := Next(INITIAL, events, t, ServerDown);
    t, events := Next(INITIAL, events, t, Send(1));
    assert t == STALE;
  }

  /** It then costs the second controller, which never asked, its life: the channel is not drained in between. */
  lemma StaleTokenReplacesNext() returns (s: State)
    ensures Reachable(s) && Enabled(s, Take) && s.live == {2} && 2 !in s.asked
  {
    var events := StaleToken();
    s := STALE;
    s, events := Next(INITIAL, events, s, Wake);
    s, events := Next(INITIAL, events, s, Look);
    s, events := Next(INITIAL, events, s, ClientMade);
    s, events := Next(INITIAL, events, s, ServerUp);
    s, events := Next(INITIAL, events, s, TasksUp);
  }

  // ---- the task ----

  class StopChannel {
    var closed: bool

    constructor ()
      ensures !closed
    {
      closed := false;
    }

    /** Closing a closed channel panics. */
    method Close()
      requires !closed
      modifies this
      ensures closed
    {
      closed := true;
    }
  }

  /** How an execution ends within its time limit, or not. */
  datatype Outcome = Success | Cancelled | Failure | TimedOut

  /** What ends a wait of the loop: its timer, with the execution that follows, or the stop channel. */
  datatype Wakeup = Timer(outcome: Outcome) | StopSeen

  /** The executions of a loop so far, and whether it is gone. */
  function Loop(script: seq<Wakeup>): (seq<Outcome>, bool) {
    if script == [] then ([], false)
    else
      var (done, gone) := Loop(script[..|script| - 1]);
      if gone then (done, true)
      else match script[|script| - 1]
        case StopSeen => (done, true)
        case Timer(outcome) => (done + [outcome], outcome == Failure)
  }

  /** The loop is gone. */
  predicate Ends(w: Wakeup) { w == StopSeen || w == Timer(Failure) }

  /**
    A loop ends exactly at the first stop or failed execution; every wake-up before that is an execution,
    time-outs and cancellations included, and none follows.
  */
  lemma {:induction false} LoopEnds(script: seq<Wakeup>)
    ensures var (done, gone) := Loop(script);
      && (gone <==> exists w <- script :: Ends(w))
      && |done| <= |script| && (!gone ==> |done| == |script|)
      && (forall i | 0 <= i < |done| :: script[i] == Timer(done[i]))
      && (forall i | 0 <= i < |done| - 1 :: done[i] != Failure)
      && (gone ==> (|done| > 0 && done[|done| - 1] == Failure) || (|done| < |script| && script[|done|] == StopSeen))
  {
    if script != [] {
      var n := |script| - 1;
      LoopEnds(script[..n]);
      assert script == script[..n] + [script[n]];
      assert script[n] in script && forall w <- script[..n] :: w in script;
    }
  }

  class ReloadChannel {
    var full: bool

    constructor ()
      ensures !full
    {
      full := false;
    }

    /** The non-blocking send: afterwards there is one token, and it is new unless there was one before. */
    method TrySend() returns (accepted: bool)
      modifies this
      ensures full && accepted == !old(full)
    {
      accepted := !full;
      if accepted { full := true; }
    }
  }

  class Task {
    const reload: ReloadChannel?
    var running: bool
    var stop: StopChannel?

    /** Running means exactly that the stop channel of the last start is still open. */
    ghost predicate Valid()
      reads this, stop
    {
      running <==> stop != null && !stop.closed
    }

    constructor (reload: ReloadChannel?)
      ensures Valid() && !running && this.reload == reload
    {
      this.reload, running, stop := reload, false, null;
    }

    /** Starts a loop, on a stop channel of its own, unless one was started and not closed since. */
    method Start() returns (loop: StopChannel?)
      requires Valid()
      modifies this
      ensures Valid() && running
      ensures if old(running) then loop == null && stop == old(stop) else loop != null && fresh(loop) && stop == loop
    {
      if running { return null; }
      running := true;
      loop := new StopChannel();
      stop := loop;
    }

    /** Closes the stop channel of the running loop, once: a second call finds nothing to do. */
    method Close()
      requires Valid()
      modifies this, stop
      ensures Valid() && !running && stop == old(stop) && (stop != null ==> stop.closed)
    {
      if running {
        running := false;
        stop.Close();
      }
    }

    /** One execution: only a time-out asks for a reload, and only a failure ends the loop. */
    method ExecuteWithTimeout(outcome: Outcome) returns (ok: bool)
      modifies reload
      ensures ok == (outcome != Failure)
      ensures reload != null ==> reload.full == (old(reload.full) || outcome == TimedOut)
    {
      if outcome == TimedOut {
        if reload != null {
          var _ := reload.TrySend();
        }
        return true;
      }
      if outcome == Cancelled { return true; }
      ok := outcome == Success;
    }

    /** The goroutine of Start: the first execution, if asked for, then one per tick until a stop or a failure. */
    method RunLoop(first: Option<Outcome>, script: seq<Wakeup>) returns (ghost executed: seq<Outcome>, gone: bool)
      modifies reload
      ensures (executed, gone) == Loop((if first.Some? then [Timer(first.value)] else []) + script)
      ensures reload != null ==> reload.full == (old(reload.full) || TimedOut in executed)
    {
      var wakeups := (if first.Some? then [Timer(first.value)] else []) + script;
      executed, gone := [], false;
      assert wakeups[..0] == [];
      for i := 0 to |wakeups|
        invariant (executed, gone) == Loop(wakeups[..i])
        invariant reload != null ==> reload.full == (old(reload.full) || TimedOut in executed)
      {
        assert wakeups[..i + 1][..i] == wakeups[..i];
        if !gone {
          match wakeups[i]
          case StopSeen => gone := true;
          case Timer(outcome) =>
            var ok := ExecuteWithTimeout(outcome);
            executed := executed + [outcome];
            gone := !ok;
        }
      }
      assert wakeups[..|wakeups|] == wakeups;
    }
  }
}
