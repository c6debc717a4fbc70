/** What a report contains, with bytes arriving while it is put together (internal/runtime/embedded.go). */
module Scans {
  import opened Panel
  import opened Accounting
  import opened Ledger
  import opened LedgerRuns

  /** No user's two directions together reach 2^63 bytes. */
  ghost predicate SumsFit<C>(s: Server<C>) {
    s.WellFormed() && forall u <- s.counters :: s.Held(u).up + s.Held(u).down <= MAX_INT64
  }

  /** A current user with an id and more than `minimum` bytes. */
  ghost predicate Due<C>(s: Server<C>, u: string, minimum: int)
    requires s.WellFormed()
  {
    u in s.users && s.users[u].id != 0 && s.Held(u).up + s.Held(u).down > minimum
  }

  /** The line is for `u`, under its id, with at least the bytes of `low` and at most those of `high`. */
  ghost predicate LineFor<C>(low: Server<C>, high: Server<C>, x: Entry<C>, u: string)
    requires low.WellFormed() && high.WellFormed() && u in low.users
  {
    x.traffic.uuid == u && x.traffic.uid == low.users[u].id && low.Held(u).AtMost(x.Amount()) && x.Amount().AtMost(high.Held(u))
  }

  /** Between two states of one scan users and counters are the same and bytes only arrive. */
  ghost predicate Later<C>(s: Server<C>, t: Server<C>) {
    && s.WellFormed() && t.WellFormed() && t.users == s.users && t.counters == s.counters
    && forall u <- s.counters :: s.Held(u).AtMost(t.Held(u))
  }

  /** The lines so far: right ones only, and one for every user that was due and has been looked at. */
  ghost predicate Covers<C>(start: Server<C>, now: Server<C>, p: Phase<C>, minimum: int)
    requires Later(start, now)
  {
    && p.Scanning? && p.todo <= start.counters.Keys
    && (forall x <- p.lines :: x.traffic.uuid in start.users && LineFor(start, now, x, x.traffic.uuid)
                               && start.users[x.traffic.uuid].id != 0 && x.traffic.upload + x.traffic.download > minimum)
    && (forall u <- start.counters :: u !in p.todo && Due(start, u, minimum) ==> exists x <- p.lines :: x.traffic.uuid == u)
  }

  lemma CoversLater<C>(start: Server<C>, s: Server<C>, t: Server<C>, p: Phase<C>, minimum: int)
    requires Later(start, s) && Later(s, t) && Covers(start, s, p, minimum)
    ensures Later(start, t) && Covers(start, t, p, minimum)
  {
    forall u <- start.counters ensures start.Held(u).AtMost(t.Held(u)) {}
    forall x <- p.lines ensures LineFor(start, t, x, x.traffic.uuid) {
      assert s.Held(x.traffic.uuid).AtMost(t.Held(x.traffic.uuid));
    }
  }

  lemma SameLater<C>(s: Server<C>)
    requires s.WellFormed()
    ensures Later(s, s)
  {
  }

  /** While a scan holds the lock and no other report is in flight, only traffic moves. */
  lemma ScanningLater<C>(s: State<C>, e: Event<C>, task: nat)
    requires Sound(s) && Enabled(s, e) && OneInFlight(s) && task < |s.tasks| && s.tasks[task].Scanning?
    ensures Later(s.server, Apply(s, e).server)
  {
    assert ReadLocked(s);
    SameLater(s.server);
    if e.Read? || e.Write? {
      var delta := if e.Read? then Bytes(Positive(e.n), 0) else Bytes(0, Positive(e.n));
      MoveEffect(s, e.conn, delta);
      MoveSound(s, e.conn, delta);
      MoveLater(s.server, Apply(s, e).server, s.conns[e.conn], delta);
    }
  }

  lemma MoveLater<C>(s: Server<C>, t: Server<C>, c: C, delta: Bytes)
    requires s.WellFormed() && t.WellFormed() && SameShape(s, t) && c in s.store && delta.NonNegative()
    requires t.store == s.store[c := s.store[c].(bytes := s.store[c].bytes.Plus(delta))]
    ensures Later(s, t)
  {
  }

  /** Looking at one counter. */
  lemma LookCovers<C>(start: Server<C>, s: State<C>, task: nat, uuid: string, minimum: int)
    requires Later(start, s.server) && SumsFit(s.server) && task < |s.tasks| && Covers(start, s.server, s.tasks[task], minimum)
    requires s.tasks[task].threshold == minimum && uuid in s.tasks[task].todo && uuid in s.server.counters
    ensures var p := s.tasks[task];
      var line := if Reportable(s.server, uuid, p.threshold) then [Entry(TrafficOf(s.server, uuid), s.server.counters[uuid])] else [];
      Covers(start, s.server, p.(todo := p.todo - {uuid}, lines := p.lines + line), minimum)
  {
    var p, b := s.tasks[task], s.server.Held(uuid);
    assert start.Held(uuid).AtMost(b) && b.NonNegative();
    assert Wrap64(b.up + b.down) == b.up + b.down by { assert b.up + b.down <= MAX_INT64; }
    hide Wrap64;
    if Reportable(s.server, uuid, p.threshold) {
      var x := Entry(TrafficOf(s.server, uuid), s.server.counters[uuid]);
      assert LineFor(start, s.server, x, uuid);
      assert x in p.lines + [x] && forall y <- p.lines :: y in p.lines + [x];
    } else {
      assert !Due(start, uuid, minimum);
      assert p.lines + [] == p.lines;
    }
  }

  /** One step of a run in which the task keeps scanning. */
  lemma ScanStepCovers<C>(start: Server<C>, s: State<C>, e: Event<C>, task: nat, minimum: int)
    requires Sound(s) && Enabled(s, e) && OneInFlight(s) && Later(start, s.server) && SumsFit(s.server)
    requires task < |s.tasks| && Covers(start, s.server, s.tasks[task], minimum) && s.tasks[task].threshold == minimum
    requires task < |Apply(s, e).tasks| && Apply(s, e).tasks[task].Scanning? && !e.BeginScan?
    ensures Later(start, Apply(s, e).server) && Covers(start, Apply(s, e).server, Apply(s, e).tasks[task], minimum)
    ensures Apply(s, e).tasks[task].threshold == minimum
  {
    var t := Apply(s, e);
    ScanningLater(s, e, task);
    if e.ScanOne? && e.task == task {
      LookCovers(start, s, task, e.uuid, minimum);
      assert t.server == s.server;
    } else {
      KeepsScanning(s, e, task);
      CoversLater(start, s.server, t.server, s.tasks[task], minimum);
    }
  }

  lemma KeepsScanning<C>(s: State<C>, e: Event<C>, task: nat)
    requires Enabled(s, e) && OneInFlight(s) && task < |s.tasks| && s.tasks[task].Scanning?
    requires task < |Apply(s, e).tasks| && Apply(s, e).tasks[task].Scanning? && !e.BeginScan? && !(e.ScanOne? && e.task == task)
    ensures Apply(s, e).tasks[task] == s.tasks[task]
  {
  }

  /** In a run with one report in flight the task scans from step `k`, where it began, to state `j`. */
  ghost predicate ScanRun<C(!new)>(states: seq<State<C>>, events: seq<Event<C>>, k: nat, j: nat, task: nat, reportMin: int) {
    && Run(states, events) && k < j < |states| && events[k] == BeginScan(task, reportMin)
    && MIN_INT64 <= reportMin * 1000 <= MAX_INT64
    && (forall i | k <= i <= j :: OneInFlight(states[i]) && SumsFit(states[i].server))
    && (forall i | k < i <= j :: task < |states[i].tasks| && states[i].tasks[task].Scanning?)
    && (forall i | k < i < j :: !events[i].BeginScan?)
  }

  lemma ScanRunLast<C(!new)>(states: seq<State<C>>, events: seq<Event<C>>, k: nat, j: nat, task: nat, reportMin: int)
    requires ScanRun(states, events, k, j, task, reportMin)
    ensures k < j < |states| && |states| == |events| + 1
    ensures ScanLast(states[j - 1], events[j - 1], states[j], task, reportMin)
    ensures (events[j - 1].BeginScan? <==> j == k + 1) && (j == k + 1 ==> events[k] == BeginScan(task, reportMin))
    ensures j > k + 1 ==> ScanRun(states, events, k, j - 1, task, reportMin)
  {
    hide Apply, Enabled, SumsFit, OneInFlight, Sound;
    RunSound(states, events, j - 1);
  }

  /** The task scans for this minimum, and its lines are right and cover what it has looked at since `start`. */
  ghost predicate Covering<C>(start: Server<C>, t: State<C>, task: nat, minimum: int) {
    && Later(start, t.server) && task < |t.tasks|
    && Covers(start, t.server, t.tasks[task], minimum) && t.tasks[task].threshold == minimum
  }

  /** The last step of such a run. */
  ghost predicate ScanLast<C(!new)>(s: State<C>, e: Event<C>, t: State<C>, task: nat, reportMin: int) {
    && Sound(s) && Enabled(s, e) && t == Apply(s, e) && OneInFlight(s) && SumsFit(s.server)
    && task < |t.tasks| && t.tasks[task].Scanning? && MIN_INT64 <= reportMin * 1000 <= MAX_INT64
  }

  /** The lines of a scan from its start in step `k`, over every run. */
  lemma {:induction false} RunCovers<C(!new)>(states: seq<State<C>>, events: seq<Event<C>>, k: nat, j: nat, task: nat, reportMin: int)
    requires ScanRun(states, events, k, j, task, reportMin)
    ensures k < j < |states| && Covering(states[k].server, states[j], task, reportMin * 1000)
    decreases j
  {
    hide ScanRun, ScanLast, Covering;
    ScanRunLast(states, events, k, j, task, reportMin);
    if j == k + 1 {
      CoveringBegins(states[k], events[k], states[j], task, reportMin);
    } else {
      RunCovers(states, events, k, j - 1, task, reportMin);
      CoveringStep(states[k].server, states[j - 1], events[j - 1], states[j], task, reportMin);
    }
  }

  lemma CoveringBegins<C(!new)>(s: State<C>, e: Event<C>, t: State<C>, task: nat, reportMin: int)
    requires ScanLast(s, e, t, task, reportMin) && e == BeginScan(task, reportMin)
    ensures Covering(s.server, t, task, reportMin * 1000)
  {
    hide Apply, Enabled, Later, Covers, SumsFit, OneInFlight, Sound;
    ScanBegins(s, e, task, reportMin);
  }

  lemma CoveringStep<C(!new)>(start: Server<C>, s: State<C>, e: Event<C>, t: State<C>, task: nat, reportMin: int)
    requires ScanLast(s, e, t, task, reportMin) && !e.BeginScan? && Covering(start, s, task, reportMin * 1000)
    ensures Covering(start, t, task, reportMin * 1000)
  {
    hide Apply, Enabled, Later, Covers, SumsFit, OneInFlight, Sound;
    ScanStepCovers(start, s, e, task, reportMin * 1000);
  }

  lemma ScanBegins<C>(s: State<C>, e: Event<C>, task: nat, reportMin: int)
    requires Sound(s) && Enabled(s, e) && e == BeginScan(task, reportMin) && MIN_INT64 <= reportMin * 1000 <= MAX_INT64
    ensures var t := Apply(s, e);
      && Later(s.server, t.server) && t.tasks[task].Scanning? && t.tasks[task].threshold == reportMin * 1000
      && Covers(s.server, t.server, t.tasks[task], reportMin * 1000)
  {
    hide Wrap64;
  }

  /**
    A report is right and complete: every line is for a current user with an id, under that id, with more
    than the minimum, counted in thousands, and every user who was due when the scan began has a line with
    at least the bytes held then.
  */
  lemma ReportIsComplete<C(!new)>(states: seq<State<C>>, events: seq<Event<C>>, k: nat, j: nat, task: nat, reportMin: int, report: seq<Entry<C>>)
    requires ScanRun(states, events, k, j, task, reportMin) && j < |events| && events[j] == EndScan(task, report)
    ensures Later(states[k].server, states[j].server)
    ensures var s, t := states[k].server, states[j].server;
      && (forall x <- report :: x.traffic.uuid in s.users && LineFor(s, t, x, x.traffic.uuid)
                                && s.users[x.traffic.uuid].id != 0 && x.traffic.upload + x.traffic.download > reportMin * 1000)
      && (forall u <- s.users :: Due(s, u, reportMin * 1000) ==> exists x <- report :: LineFor(s, t, x, u))
  {
    RunCovers(states, events, k, j, task, reportMin);
    assert Enabled(states[j], events[j]);
    assert Covers(states[k].server, states[j].server, states[j].tasks[task], reportMin * 1000);
    hide Run, Apply, SumsFit, OneInFlight;
    ScanReports(states[k].server, states[j].server, states[j].tasks[task], report, reportMin * 1000);
  }

  lemma ScanReports<C>(s: Server<C>, t: Server<C>, p: Phase<C>, report: seq<Entry<C>>, minimum: int)
    requires Later(s, t) && Covers(s, t, p, minimum) && p.todo == {} && multiset(report) == multiset(p.lines)
    ensures forall x <- report :: x.traffic.uuid in s.users && LineFor(s, t, x, x.traffic.uuid)
                                  && s.users[x.traffic.uuid].id != 0 && x.traffic.upload + x.traffic.download > minimum
    ensures forall u <- s.users :: Due(s, u, minimum) ==> exists x <- report :: LineFor(s, t, x, u)
  {
    SameLines(report, p.lines);
    assert forall u <- s.users :: u in s.counters;
  }

  lemma SameLines<T>(a: seq<T>, b: seq<T>)
    requires multiset(a) == multiset(b)
    ensures forall x :: x in a <==> x in b
  {
    assert forall x :: (x in a <==> x in multiset(a)) && (x in b <==> x in multiset(b));
  }
}
