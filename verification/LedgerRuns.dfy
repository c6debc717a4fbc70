/** Whole runs of the ledger: what one report in flight guarantees, and what two break. */
module LedgerRuns {
  import opened Panel
  import opened Accounting
  import opened Ledger

  /** At most one execution of the report task is between its scan and its last confirm. */
  ghost predicate OneInFlight<C>(s: State<C>) {
    forall i, j | 0 <= i < |s.tasks| && 0 <= j < |s.tasks| && !s.tasks[i].Idle? && !s.tasks[j].Idle? :: i == j
  }

  ghost predicate Distinct<C>(es: seq<Entry<C>>) {
    && (forall a, b | a in es && b in es && a.traffic.uuid == b.traffic.uuid :: a == b)
    && (forall a <- es :: multiset(es)[a] == 1)
  }

  /** The counter a line was read from is still the user's counter and still holds the line's bytes. */
  ghost predicate Backed<C>(s: Server<C>, x: Entry<C>) {
    x.Amount() == ZERO ||
    (&& x.traffic.uuid in s.counters && s.counters[x.traffic.uuid] == x.counter
     && x.counter in s.store && x.Amount().AtMost(s.store[x.counter].bytes))
  }

  ghost predicate Pledged<C>(s: Server<C>, p: Phase<C>) {
    && Distinct(p.Entries())
    && (forall x <- p.Entries() :: Backed(s, x))
    && (p.Scanning? ==> forall x <- p.Entries() :: x.traffic.uuid !in p.todo)
  }

  ghost predicate AllPledged<C>(s: State<C>) {
    forall p <- s.tasks :: Pledged(s.server, p)
  }

  /** Counters that hold bytes stay where they are and only grow. */
  ghost predicate Grows<C>(s: Server<C>, t: Server<C>) {
    forall u <- s.counters ::
      s.counters[u] in s.store && s.store[s.counters[u]].bytes != ZERO ==>
        && u in t.counters && t.counters[u] == s.counters[u]
        && t.counters[u] in t.store && s.store[s.counters[u]].bytes.AtMost(t.store[t.counters[u]].bytes)
  }

  lemma GrowsPledged<C>(s: Server<C>, t: Server<C>, p: Phase<C>)
    requires s.WellFormed() && Grows(s, t) && PhaseOk(s, p) && Pledged(s, p)
    ensures Pledged(t, p)
  {
    forall x <- p.Entries() ensures Backed(t, x) {
      assert EntryOk(s, x) && Backed(s, x);
    }
  }

  lemma UpdateOrMoveGrows<C>(s: State<C>, e: Event<C>)
    requires Sound(s) && Enabled(s, e) && (IsUpdate(s, e) || e.Read? || e.Write?)
    ensures Grows(s.server, Apply(s, e).server) && Apply(s, e).tasks == s.tasks
  {
    if IsUpdate(s, e) {
      UpdateEffect(s, e);
    } else {
      MoveEffect(s, e.conn, if e.Read? then Bytes(Positive(e.n), 0) else Bytes(0, Positive(e.n)));
    }
  }

  lemma AppendDistinct<C>(es: seq<Entry<C>>, x: Entry<C>)
    requires Distinct(es) && forall y <- es :: y.traffic.uuid != x.traffic.uuid
    ensures Distinct(es + [x])
  {
    assert multiset(es + [x]) == multiset(es) + multiset{x};
  }

  lemma ScanPledged<C>(s: State<C>, e: Event<C>)
    requires Sound(s) && Enabled(s, e) && e.ScanOne? && Pledged(s.server, s.tasks[e.task])
    ensures Pledged(s.server, Apply(s, e).tasks[e.task])
  {
    var p, q := s.tasks[e.task], Apply(s, e).tasks[e.task];
    if Reportable(s.server, e.uuid, p.threshold) {
      var x := Entry(TrafficOf(s.server, e.uuid), s.server.counters[e.uuid]);
      assert q.lines == p.lines + [x] && Backed(s.server, x);
      AppendDistinct(p.lines, x);
    } else {
      assert q.lines == p.lines;
    }
  }

  lemma SortPledged<C>(s: Server<C>, p: Phase<C>, report: seq<Entry<C>>)
    requires p.Scanning? && Pledged(s, p) && multiset(report) == multiset(p.lines)
    ensures Pledged(s, Waiting(report))
  {
    forall x <- report ensures x in p.Entries() && multiset(report)[x] == 1 {
      assert x in multiset(report);
    }
  }

  lemma TailDistinct<C>(rest: seq<Entry<C>>)
    requires rest != [] && Distinct(rest)
    ensures Distinct(rest[1..])
    ensures forall y <- rest[1..] :: y in rest && y.traffic.uuid != rest[0].traffic.uuid
  {
    assert rest == [rest[0]] + rest[1..];
    assert multiset(rest) == multiset{rest[0]} + multiset(rest[1..]);
    forall y <- rest[1..] ensures y in rest && multiset(rest[1..])[y] == 1 && y != rest[0] {
      assert multiset(rest)[y] == 1;
    }
  }

  /** A confirm of one user's line leaves every other line backed. */
  lemma ConfirmOthers<C>(s: Server<C>, uuid: string, take: Bytes, y: Entry<C>)
    requires s.WellFormed() && EntryOk(s, y) && Backed(s, y) && y.traffic.uuid != uuid
    ensures Backed(Confirm(s, uuid, take), y)
  {
  }

  /** With one report in flight a confirm saturates nothing: the same object loses exactly the line's bytes. */
  lemma ConfirmExact<C>(s: State<C>, task: nat)
    requires Sound(s) && MayConfirm(s, task) && Pledged(s.server, s.tasks[task])
    ensures var x := s.tasks[task].rest[0]; var t := Confirm(s.server, x.traffic.uuid, x.Amount());
      && x.Amount().AtMost(s.server.Held(x.traffic.uuid))
      && (x.Amount() != ZERO ==>
            && x.traffic.uuid in t.counters && t.counters[x.traffic.uuid] == x.counter
            && t.store[x.counter].bytes.Plus(x.Amount()) == s.server.store[x.counter].bytes)
  {
    HeadOk(s, task);
    var x := s.tasks[task].rest[0];
    assert x in s.tasks[task].Entries() && Backed(s.server, x);
  }

  lemma ConfirmPledged<C>(s: State<C>, task: nat)
    requires Sound(s) && MayConfirm(s, task) && Pledged(s.server, s.tasks[task])
    ensures var t := ConfirmHead(s, task); Pledged(t.server, t.tasks[task])
  {
    var rest := s.tasks[task].rest;
    var t := ConfirmHead(s, task);
    TailDistinct(rest);
    assert PhaseOk(s.server, s.tasks[task]) && s.tasks[task].Entries() == rest;
    assert t.tasks[task].Entries() == rest[1..];
    forall y <- rest[1..] ensures Backed(t.server, y) {
      ConfirmOthers(s.server, rest[0].traffic.uuid, rest[0].Amount(), y);
    }
  }

  lemma StepPledged<C>(s: State<C>, e: Event<C>)
    requires Sound(s) && Enabled(s, e) && OneInFlight(s) && AllPledged(s)
    ensures AllPledged(Apply(s, e))
  {
    var t := Apply(s, e);
    forall i | 0 <= i < |t.tasks| ensures Pledged(t.server, t.tasks[i]) {
      assert i < |s.tasks| ==> s.tasks[i] in s.tasks && PhaseOk(s.server, s.tasks[i]) && Pledged(s.server, s.tasks[i]);
      if IsUpdate(s, e) || e.Read? || e.Write? {
        UpdateOrMoveGrows(s, e);
        GrowsPledged(s.server, t.server, s.tasks[i]);
      } else {
        TaskPledged(s, e, i);
      }
    }
  }

  lemma TaskPledged<C>(s: State<C>, e: Event<C>, i: nat)
    requires Sound(s) && Enabled(s, e) && OneInFlight(s)
    requires i < |s.tasks| ==> Pledged(s.server, s.tasks[i])
    requires !IsUpdate(s, e) && !e.Read? && !e.Write? && i < |Apply(s, e).tasks|
    ensures Pledged(Apply(s, e).server, Apply(s, e).tasks[i])
  {
    match e
    case Spawn =>
    case BeginScan(_, _) =>
    case ScanOne(task, _) => if i == task { ScanPledged(s, e); }
    case EndScan(task, report) => if i == task { SortPledged(s.server, s.tasks[i], report); }
    case Fail(_) =>
    case Ack(task) => assert s.tasks[task].Entries() == s.tasks[task].report;
    case BeginConfirm(task) => assert s.tasks[task].Entries() == s.tasks[task].report;
    case ConfirmOne(task) => if i == task { ConfirmPledged(s, task); }
  }

  // ---- runs ----

  ghost predicate Run<C(!new)>(states: seq<State<C>>, events: seq<Event<C>>) {
    && |states| == |events| + 1 && Initial(states[0])
    && forall i | 0 <= i < |events| :: Enabled(states[i], events[i]) && states[i + 1] == Apply(states[i], events[i])
  }

  /** `s` ends some run; with `single`, one that never has two reports in flight. */
  ghost predicate Reachable<C(!new)>(s: State<C>, single: bool) {
    exists states: seq<State<C>>, events: seq<Event<C>> ::
      && Run(states, events) && states[|states| - 1] == s
      && (single ==> forall x <- states :: OneInFlight(x))
  }

  lemma ReachableStep<C(!new)>(s: State<C>, e: Event<C>, single: bool)
    requires Reachable(s, single) && Enabled(s, e) && (single ==> OneInFlight(Apply(s, e)))
    ensures Reachable(Apply(s, e), single)
  {
    hide Apply, Enabled, Initial;
    var states: seq<State<C>>, events: seq<Event<C>> :|
      && Run(states, events) && states[|states| - 1] == s && (single ==> forall x <- states :: OneInFlight(x));
    var states', events' := states + [Apply(s, e)], events + [e];
    forall i | 0 <= i < |events'|
      ensures Enabled(states'[i], events'[i]) && states'[i + 1] == Apply(states'[i], events'[i])
    {
      if i < |events| {
        assert events'[i] == events[i] && states'[i] == states[i] && states'[i + 1] == states[i + 1];
      } else {
        assert events'[i] == e && states'[i] == s;
      }
    }
    assert states'[0] == states[0] && Run(states', events');
    assert states'[|states'| - 1] == Apply(s, e);
  }

  lemma {:induction false} RunSound<C(!new)>(states: seq<State<C>>, events: seq<Event<C>>, i: nat)
    requires Run(states, events) && i < |states|
    ensures Sound(states[i])
  {
    if i > 0 {
      RunSound(states, events, i - 1);
      StepSound(states[i - 1], events[i - 1]);
    }
  }

  /** The user's bytes sit on the resident counter or on counters that left the map. */
  lemma OwnedSplit<C>(s: Server<C>, u: string)
    requires s.WellFormed()
    ensures Sum(s.store, Owned(s, u)) == s.Held(u).Plus(Sum(s.store, Orphans(s, u)))
  {
    hide Sum;
    if u in s.counters {
      SumSplit(s.store, Owned(s, u), s.counters[u]);
      assert Owned(s, u) - {s.counters[u]} == Orphans(s, u);
    } else {
      assert Owned(s, u) == Orphans(s, u);
    }
  }

  lemma {:induction false} RunInvariant<C(!new)>(states: seq<State<C>>, events: seq<Event<C>>, i: nat)
    requires Run(states, events) && i < |states|
    requires forall k | 0 <= k < i :: OneInFlight(states[k])
    ensures Conserved(states[i]) && StraysOnOrphans(states[i]) && AllPledged(states[i])
  {
    hide Sum, Conserved, StraysOnOrphans, Pledged, Apply, Enabled;
    if i == 0 {
      RunStart(states[0]);
    } else {
      var s, e := states[i - 1], events[i - 1];
      RunInvariant(states, events, i - 1);
      RunSound(states, events, i - 1);
      StepConserves(s, e);
      StepPledged(s, e);
      if e.ConfirmOne? { NoOverdraft(s, e); }
    }
  }

  lemma RunStart<C(!new)>(s: State<C>)
    requires Initial(s)
    ensures Conserved(s) && StraysOnOrphans(s) && AllPledged(s)
  {
    forall u ensures ConservedAt(s, u) && StraysAt(s, u) {
      assert Owned(s.server, u) == {} && Orphans(s.server, u) == {};
    }
  }

  lemma NoOverdraft<C>(s: State<C>, e: Event<C>)
    requires Sound(s) && Enabled(s, e) && e.ConfirmOne? && AllPledged(s)
    ensures !Overdraws(s, e)
  {
    assert Pledged(s.server, s.tasks[e.task]);
    ConfirmExact(s, e.task);
  }

  lemma Regroup(counted: Bytes, confirmed: Bytes, owned: Bytes, held: Bytes, strayed: Bytes)
    requires counted == confirmed.Plus(owned) && owned == held.Plus(strayed)
    ensures counted == confirmed.Plus(held).Plus(strayed)
  {
  }

  lemma ThreeAccounts<C>(s: State<C>, u: string)
    requires s.server.WellFormed() && ConservedAt(s, u) && StraysAt(s, u)
    ensures Tally(s.counted, u) == Tally(s.confirmed, u).Plus(s.server.Held(u)).Plus(Tally(s.strayed, u))
  {
    hide Sum, Tally, Bytes.Plus, Server.Held;
    OwnedSplit(s.server, u);
    Regroup(Tally(s.counted, u), Tally(s.confirmed, u), Sum(s.server.store, Owned(s.server, u)), s.server.Held(u), Tally(s.strayed, u));
  }

  /**
    Traffic conservation: as long as one report is in flight at a time, every user's bytes are
    confirmed, on the resident counter, or were moved on a counter that had left the map.
  */
  lemma TrafficConservation<C(!new)>(states: seq<State<C>>, events: seq<Event<C>>, i: nat, u: string)
    requires Run(states, events) && i < |states|
    requires forall k | 0 <= k < i :: OneInFlight(states[k])
    ensures Sound(states[i])
    ensures var s := states[i];
      Tally(s.counted, u) == Tally(s.confirmed, u).Plus(s.server.Held(u)).Plus(Tally(s.strayed, u))
  {
    hide Apply, Enabled, ConservedAt, StraysAt, Pledged, Initial;
    RunSound(states, events, i);
    RunInvariant(states, events, i);
    assert ConservedAt(states[i], u) && StraysAt(states[i], u);
    ThreeAccounts(states[i], u);
  }

  /**
    Whatever user updates, admissions and traffic happen in between, a counter behind a non-zero line
    of an in-flight report is still the user's counter, the same object, and holds at least the line.
  */
  lemma InFlightCounterKept<C(!new)>(states: seq<State<C>>, events: seq<Event<C>>, i: nat, task: nat, x: Entry<C>)
    requires Run(states, events) && i < |states|
    requires forall k | 0 <= k < i :: OneInFlight(states[k])
    requires task < |states[i].tasks| && x in states[i].tasks[task].Entries() && x.Amount() != ZERO
    ensures var s := states[i].server;
      && x.traffic.uuid in s.counters && s.counters[x.traffic.uuid] == x.counter
      && x.counter in s.store && x.Amount().AtMost(s.store[x.counter].bytes)
  {
    RunInvariant(states, events, i);
    assert Pledged(states[i].server, states[i].tasks[task]);
    assert Backed(states[i].server, x);
  }

  // ---- orphans ----

  lemma OrphanStep<C>(s: State<C>, e: Event<C>, c: C)
    requires Sound(s) && Enabled(s, e) && c in s.server.store && !s.server.Resident(c)
    ensures var t := Apply(s, e);
      c in t.server.store && !t.server.Resident(c) && s.server.store[c].bytes.AtMost(t.server.store[c].bytes)
  {
    if IsUpdate(s, e) {
      UpdateEffect(s, e);
    } else if e.Read? || e.Write? {
      MoveEffect(s, e.conn, if e.Read? then Bytes(Positive(e.n), 0) else Bytes(0, Positive(e.n)));
    } else if e.ConfirmOne? {
      HeadOk(s, e.task);
    }
  }

  /** A counter that left the map never returns to it, and its bytes are never given back. */
  lemma {:induction false} OrphansStay<C(!new)>(states: seq<State<C>>, events: seq<Event<C>>, i: nat, j: nat, c: C)
    requires Run(states, events) && i <= j < |states|
    requires c in states[i].server.store && !states[i].server.Resident(c)
    ensures var s, t := states[i].server, states[j].server;
      c in t.store && !t.Resident(c) && s.store[c].bytes.AtMost(t.store[c].bytes)
    decreases j
  {
    hide Apply, Enabled;
    if i < j {
      OrphansStay(states, events, i, j - 1, c);
      RunSound(states, events, j - 1);
      OrphanStep(states[j - 1], events[j - 1], c);
    }
  }
}
