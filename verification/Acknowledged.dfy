/** What is confirmed is what the panel acknowledged, over every run (internal/controller/controller.go). */
module Acknowledged {
  import opened Panel
  import opened Accounting
  import opened Ledger
  import opened LedgerRuns

  /** Bytes of `u` in some lines. */
  function Lines<C>(es: seq<Entry<C>>, u: string): Bytes {
    if es == [] then ZERO
    else (if es[0].traffic.uuid == u then es[0].Amount() else ZERO).Plus(Lines(es[1..], u))
  }

  /** Bytes of `u` that are acknowledged and not yet confirmed. */
  function Owed<C>(p: Phase<C>, u: string): Bytes {
    if p.Acked? then Lines(p.report, u) else if p.Confirming? then Lines(p.rest, u) else ZERO
  }

  function AllOwed<C>(tasks: seq<Phase<C>>, u: string): Bytes {
    if tasks == [] then ZERO else Owed(tasks[0], u).Plus(AllOwed(tasks[1..], u))
  }

  /** Bytes of `u` in the reports the panel acknowledged in the first `i` steps. */
  ghost function Acknowledged<C>(states: seq<State<C>>, events: seq<Event<C>>, i: nat, u: string): Bytes
    requires i <= |events| && |states| == |events| + 1
    requires forall k | 0 <= k < |events| :: Enabled(states[k], events[k])
  {
    if i == 0 then ZERO
    else
      var before := Acknowledged(states, events, i - 1, u);
      var s, e := states[i - 1], events[i - 1];
      if e.Ack? then before.Plus(Lines(s.tasks[e.task].report, u)) else before
  }

  lemma {:induction false} OwedMoves<C>(tasks: seq<Phase<C>>, i: nat, p: Phase<C>, u: string)
    requires i < |tasks|
    ensures AllOwed(tasks[i := p], u).Plus(Owed(tasks[i], u)) == AllOwed(tasks, u).Plus(Owed(p, u))
  {
    hide Owed;
    var after := tasks[i := p];
    if i == 0 {
      assert after[1..] == tasks[1..];
    } else {
      OwedMoves(tasks[1..], i - 1, p, u);
      assert after[1..] == tasks[1..][i - 1 := p];
    }
  }

  lemma {:induction false} OwedSpawn<C>(tasks: seq<Phase<C>>, u: string)
    ensures AllOwed(tasks + [Idle], u) == AllOwed(tasks, u)
  {
    if tasks == [] {
      assert (tasks + [Idle])[1..] == [];
    } else {
      OwedSpawn(tasks[1..], u);
      assert (tasks + [Idle])[1..] == tasks[1..] + [Idle];
    }
  }

  /** Confirmed and owed bytes together, the quantity an acknowledgement alone adds to. */
  function Settled<C>(s: State<C>, u: string): Bytes { Tally(s.confirmed, u).Plus(AllOwed(s.tasks, u)) }

  /** Of two sums that differ by the same amount. */
  lemma Cancel(a: Bytes, b: Bytes, p: Bytes, q: Bytes, c: Bytes)
    requires a.Plus(p) == b.Plus(q)
    ensures p == q ==> a == b
    ensures p == ZERO ==> c.Plus(a) == c.Plus(b).Plus(q)
    ensures c.Plus(p).Plus(a) == c.Plus(b).Plus(q)
  {
  }

  /** Steps that touch neither the tasks nor what is confirmed. */
  lemma QuietStep<C>(s: State<C>, e: Event<C>)
    requires Enabled(s, e) && (IsUpdateOrMove(e) || e.Spawn?)
    ensures Apply(s, e).confirmed == s.confirmed && Apply(s, e).tasks == if e.Spawn? then s.tasks + [Idle] else s.tasks
  {
  }

  predicate IsUpdateOrMove<C(==)>(e: Event<C>) { e.Read? || e.Write? || e.Connect? || e.ReplaceUsers? || e.PatchUsers? }

  /** Where a step of the report task leads. */
  lemma TaskStep<C>(s: State<C>, e: Event<C>, u: string)
    requires Enabled(s, e) && !IsUpdateOrMove(e) && !e.Spawn? && !e.ConfirmOne?
    ensures e.task < |s.tasks| && |Apply(s, e).tasks| == |s.tasks| && Apply(s, e).confirmed == s.confirmed
    ensures Apply(s, e).tasks == s.tasks[e.task := Apply(s, e).tasks[e.task]]
    ensures Owed(Apply(s, e).tasks[e.task], u) == if e.Ack? then Lines(s.tasks[e.task].report, u) else Owed(s.tasks[e.task], u)
    ensures e.Ack? ==> Owed(s.tasks[e.task], u) == ZERO
  {
    hide Lines;
  }

  lemma ConfirmTask<C>(s: State<C>, task: nat, u: string)
    requires MayConfirm(s, task)
    ensures var x, t := s.tasks[task].rest[0], ConfirmHead(s, task);
      && t.tasks == s.tasks[task := t.tasks[task]]
      && Owed(s.tasks[task], u) == (if x.traffic.uuid == u then x.Amount() else ZERO).Plus(Owed(t.tasks[task], u))
  {
    hide Confirm, Credit, Bytes.Plus;
    var rest, p := s.tasks[task].rest, ConfirmHead(s, task).tasks[task];
    assert Owed(s.tasks[task], u) == (if rest[0].traffic.uuid == u then rest[0].Amount() else ZERO).Plus(Lines(rest[1..], u));
    if |rest| == 1 {
      assert rest[1..] == [] && p == Idle;
    } else {
      assert p == Confirming(rest[1..]);
    }
  }

  lemma ConfirmTally<C>(s: State<C>, task: nat, u: string)
    requires MayConfirm(s, task)
    ensures var x := s.tasks[task].rest[0];
      Tally(ConfirmHead(s, task).confirmed, u) == Tally(s.confirmed, u).Plus(if x.traffic.uuid == u then x.Amount() else ZERO)
  {
    hide Confirm, Credit, Tally, Bytes.Plus, Server.Linked;
    CreditTally(s.confirmed, s.tasks[task].rest[0].traffic.uuid, s.tasks[task].rest[0].Amount(), u);
    PlusZero(Tally(s.confirmed, u));
  }

  lemma Shift(conf: Bytes, amount: Bytes, before: Bytes, after: Bytes, was: Bytes, now: Bytes)
    requires now.Plus(before) == was.Plus(after) && before == amount.Plus(after)
    ensures conf.Plus(amount).Plus(now) == conf.Plus(was)
  {
  }

  /** A step settles nothing new, except an acknowledgement, which adds its report. */
  lemma StepSettles<C>(s: State<C>, e: Event<C>, u: string)
    requires Enabled(s, e)
    ensures Settled(Apply(s, e), u) == if e.Ack? then Settled(s, u).Plus(Lines(s.tasks[e.task].report, u)) else Settled(s, u)
  {
    var t := Apply(s, e);
    if IsUpdateOrMove(e) || e.Spawn? {
      QuietStep(s, e);
      OwedSpawn(s.tasks, u);
    } else if e.ConfirmOne? {
      ConfirmTask(s, e.task, u);
      ConfirmTally(s, e.task, u);
      OwedMoves(s.tasks, e.task, t.tasks[e.task], u);
      var x := s.tasks[e.task].rest[0];
      Shift(Tally(s.confirmed, u), if x.traffic.uuid == u then x.Amount() else ZERO, Owed(s.tasks[e.task], u), Owed(t.tasks[e.task], u),
            AllOwed(s.tasks, u), AllOwed(t.tasks, u));
    } else {
      TaskStep(s, e, u);
      OwedMoves(s.tasks, e.task, t.tasks[e.task], u);
      Cancel(AllOwed(t.tasks, u), AllOwed(s.tasks, u), Owed(s.tasks[e.task], u), Owed(t.tasks[e.task], u), Tally(s.confirmed, u));
    }
  }

  /**
    Over every run: what is confirmed for a user, with what is acknowledged and still to be confirmed, is
    what the acknowledged reports carry. Nothing is confirmed for a report that failed or is unanswered.
  */
  lemma {:induction false} ConfirmedIsAcknowledged<C(!new)>(states: seq<State<C>>, events: seq<Event<C>>, i: nat, u: string)
    requires Run(states, events) && i <= |events|
    ensures Settled(states[i], u) == Acknowledged(states, events, i, u)
  {
    hide Apply, Enabled, Lines;
    if i == 0 {
      NothingSettled(states[0], u);
    } else {
      ConfirmedIsAcknowledged(states, events, i - 1, u);
      StepSettles(states[i - 1], events[i - 1], u);
    }
  }

  lemma NothingSettled<C(!new)>(s: State<C>, u: string)
    requires Initial(s)
    ensures Settled(s, u) == ZERO
  {
  }

  /** Without an acknowledgement nothing is confirmed and no task is about to. */
  lemma {:induction false} NothingWithoutAck<C(!new)>(states: seq<State<C>>, events: seq<Event<C>>, i: nat)
    requires Run(states, events) && i <= |events| && forall k | 0 <= k < i :: !events[k].Ack?
    ensures states[i].confirmed == map[] && forall p <- states[i].tasks :: !p.Acked? && !p.Confirming?
  {
    if i > 0 {
      NothingWithoutAck(states, events, i - 1);
      StepWithoutAck(states[i - 1], events[i - 1]);
    }
  }

  lemma StepWithoutAck<C>(s: State<C>, e: Event<C>)
    requires Enabled(s, e) && !e.Ack? && forall p <- s.tasks :: !p.Acked? && !p.Confirming?
    ensures var t := Apply(s, e);
      t.confirmed == s.confirmed && forall p <- t.tasks :: !p.Acked? && !p.Confirming?
  {
    if IsUpdateOrMove(e) || e.Spawn? {
      QuietStep(s, e);
    } else {
      assert s.tasks[e.task] in s.tasks;
    }
  }

  /**
    With one report in flight, then: bytes counted are bytes of acknowledged reports, plus bytes on the
    resident counter, plus bytes moved on counters that left the map, less what is still to be confirmed.
  */
  lemma CountedIsAcknowledged<C(!new)>(states: seq<State<C>>, events: seq<Event<C>>, i: nat, u: string)
    requires Run(states, events) && i <= |events|
    requires forall k | 0 <= k < i :: OneInFlight(states[k])
    ensures Sound(states[i])
    ensures var s := states[i];
      Tally(s.counted, u).Plus(AllOwed(s.tasks, u))
      == Acknowledged(states, events, i, u).Plus(s.server.Held(u)).Plus(Tally(s.strayed, u))
  {
    hide Apply, Enabled, AllOwed, Tally, Acknowledged, OneInFlight;
    TrafficConservation(states, events, i, u);
    ConfirmedIsAcknowledged(states, events, i, u);
    var s := states[i];
    Regrouped(Tally(s.counted, u), Tally(s.confirmed, u), s.server.Held(u), Tally(s.strayed, u), AllOwed(s.tasks, u));
  }

  lemma Regrouped(counted: Bytes, confirmed: Bytes, held: Bytes, strayed: Bytes, owed: Bytes)
    requires counted == confirmed.Plus(held).Plus(strayed)
    ensures counted.Plus(owed) == confirmed.Plus(owed).Plus(held).Plus(strayed)
  {
  }

  // ---- what connections moved ----

  /** The bytes of `u` one step moves: a read uploads, a write downloads. */
  ghost function Moved<C>(s: State<C>, e: Event<C>, u: string): Bytes
    requires Enabled(s, e)
  {
    match e
    case Read(conn, n) => if s.server.store[s.conns[conn]].uuid == u && n > 0 then Bytes(n, 0) else ZERO
    case Write(conn, n) => if s.server.store[s.conns[conn]].uuid == u && n > 0 then Bytes(0, n) else ZERO
    case _ => ZERO
  }

  /** What connections of `u` moved in the first `i` steps. */
  ghost function Transferred<C>(states: seq<State<C>>, events: seq<Event<C>>, i: nat, u: string): Bytes
    requires i <= |events| && |states| == |events| + 1
    requires forall k | 0 <= k < |events| :: Enabled(states[k], events[k])
  {
    if i == 0 then ZERO else Transferred(states, events, i - 1, u).Plus(Moved(states[i - 1], events[i - 1], u))
  }

  lemma StepCounts<C>(s: State<C>, e: Event<C>, u: string)
    requires Enabled(s, e)
    ensures Tally(Apply(s, e).counted, u) == Tally(s.counted, u).Plus(Moved(s, e, u))
  {
    hide Move, Fits, Tally, Bytes.Plus;
    if e.Read? {
      MoveCounts(s, e.conn, Bytes(Positive(e.n), 0), u);
    } else if e.Write? {
      MoveCounts(s, e.conn, Bytes(0, Positive(e.n)), u);
    } else {
      CountsNothing(s, e);
      PlusZero(Tally(s.counted, u));
    }
  }

  lemma MoveCounts<C>(s: State<C>, conn: nat, delta: Bytes, u: string)
    requires Fits(s, conn, delta)
    ensures Tally(Move(s, conn, delta).counted, u) == Tally(s.counted, u).Plus(if s.server.store[s.conns[conn]].uuid == u then delta else ZERO)
  {
    hide Added, Server.Resident, Tally, Credit, Bytes.Plus;
    CreditTally(s.counted, s.server.store[s.conns[conn]].uuid, delta, u);
    PlusZero(Tally(s.counted, u));
  }

  lemma CountsNothing<C>(s: State<C>, e: Event<C>)
    requires Enabled(s, e) && !e.Read? && !e.Write?
    ensures Apply(s, e).counted == s.counted
  {
  }

  lemma {:induction false} CountedIsTransferred<C(!new)>(states: seq<State<C>>, events: seq<Event<C>>, i: nat, u: string)
    requires Run(states, events) && i <= |events|
    ensures Tally(states[i].counted, u) == Transferred(states, events, i, u)
  {
    hide Apply, Enabled, Moved;
    if i > 0 {
      CountedIsTransferred(states, events, i - 1, u);
      StepCounts(states[i - 1], events[i - 1], u);
    }
  }

  /**
    Over every run with one report in flight: the bytes a user's connections moved are those of acknowledged
    reports, less what is still to be confirmed, plus those on its counter, plus those moved on counters that
    left the map.
  */
  lemma TransferredIsAccountedFor<C(!new)>(states: seq<State<C>>, events: seq<Event<C>>, i: nat, u: string)
    requires Run(states, events) && i <= |events|
    requires forall k | 0 <= k < i :: OneInFlight(states[k])
    ensures Sound(states[i])
    ensures var s := states[i];
      Transferred(states, events, i, u).Plus(AllOwed(s.tasks, u))
      == Acknowledged(states, events, i, u).Plus(s.server.Held(u)).Plus(Tally(s.strayed, u))
  {
    hide Apply, Enabled, AllOwed, Tally, Acknowledged, OneInFlight, Bytes.Plus;
    CountedIsAcknowledged(states, events, i, u);
    CountedIsTransferred(states, events, i, u);
  }

  // ---- the way of one report ----

  /** A finished scan with lines is put to the panel; without any the task is free again. */
  lemma ReportIsOffered<C>(s: State<C>, task: nat, report: seq<Entry<C>>, reportMin: int)
    requires Enabled(s, EndScan(task, report))
    ensures var t := Apply(s, EndScan(task, report));
      && t == s.(tasks := t.tasks)
      && (report != [] ==> t.tasks[task].Entries() == report && Enabled(t, Ack(task)) && Enabled(t, Fail(task)))
      && (report == [] ==> Enabled(t, BeginScan(task, reportMin)))
  {
  }

  /** A report that fails changes nothing but its task, which may scan the same bytes again. */
  lemma FailedReportIsKept<C>(s: State<C>, task: nat, reportMin: int)
    requires Enabled(s, Fail(task))
    ensures var t := Apply(s, Fail(task)); t == s.(tasks := t.tasks) && t.tasks[task].Entries() == [] && Enabled(t, BeginScan(task, reportMin))
  {
  }

  /** The confirm steps of one task, to the last line. */
  ghost function ConfirmRest<C>(s: State<C>, task: nat): State<C>
    requires MayConfirm(s, task)
    decreases |s.tasks[task].rest|
  {
    var t := ConfirmHead(s, task);
    if t.tasks[task].Idle? then t else ConfirmRest(t, task)
  }

  /** `t` is `s` with the task free and these lines credited. */
  ghost predicate Credited<C>(s: State<C>, task: nat, lines: seq<Entry<C>>, t: State<C>, u: string) {
    && task < |s.tasks| && t.tasks == s.tasks[task := Idle] && t.counted == s.counted
    && Tally(t.confirmed, u) == Tally(s.confirmed, u).Plus(Lines(lines, u))
  }

  /** An acknowledged report is confirmed line by line to its end, after which every line is credited and the task free. */
  lemma AckedReportIsConfirmed<C>(s: State<C>, task: nat, u: string)
    requires Enabled(s, Ack(task)) && s.tasks[task].report != [] && s.server.Linked()
    ensures var acked := Apply(s, Ack(task));
      && Enabled(acked, BeginConfirm(task))
      && var confirming := Apply(acked, BeginConfirm(task));
      && MayConfirm(confirming, task) && Credited(s, task, s.tasks[task].report, ConfirmRest(confirming, task), u)
  {
    var report := s.tasks[task].report;
    var confirming := Acking(s, task);
    hide Enabled, Apply, ConfirmRest, Server.Linked, Lines, Tally, Bytes.Plus;
    RestIsConfirmed(confirming, task, u);
    assert s.tasks[task := Confirming(report)][task := Idle] == s.tasks[task := Idle];
  }

  lemma Acking<C>(s: State<C>, task: nat) returns (t: State<C>)
    requires Enabled(s, Ack(task)) && s.tasks[task].report != [] && s.server.Linked()
    ensures Enabled(Apply(s, Ack(task)), BeginConfirm(task)) && t == Apply(Apply(s, Ack(task)), BeginConfirm(task))
    ensures MayConfirm(t, task) && t == s.(tasks := s.tasks[task := Confirming(s.tasks[task].report)])
  {
    t := Apply(Apply(s, Ack(task)), BeginConfirm(task));
  }

  lemma {:induction false} RestIsConfirmed<C>(s: State<C>, task: nat, u: string)
    requires MayConfirm(s, task)
    ensures Credited(s, task, s.tasks[task].rest, ConfirmRest(s, task), u)
    decreases |s.tasks[task].rest|
  {
    hide ConfirmHead, ConfirmRest, Credited, HeadCredited, Server.Linked, Tally, Lines;
    RestSteps(s, task);
    if |s.tasks[task].rest| == 1 {
      LastIs(s, task, u);
    } else {
      var t := ConfirmHead(s, task);
      RestIsConfirmed(t, task, u);
      HeadIs(s, task, u);
      CreditedMore(s, task, t, ConfirmRest(t, task), u);
    }
  }

  lemma RestSteps<C>(s: State<C>, task: nat)
    requires MayConfirm(s, task)
    ensures |s.tasks[task].rest| == 1 ==> ConfirmRest(s, task) == ConfirmHead(s, task)
    ensures |s.tasks[task].rest| > 1 ==>
      var t := ConfirmHead(s, task);
      MayConfirm(t, task) && t.tasks[task].rest == s.tasks[task].rest[1..] && ConfirmRest(s, task) == ConfirmRest(t, task)
  {
    HeadFields(s, task);
    hide ConfirmHead, Server.Linked;
  }

  lemma HeadIs<C>(s: State<C>, task: nat, u: string)
    requires MayConfirm(s, task)
    ensures HeadCredited(s, task, ConfirmHead(s, task), u)
  {
    hide Tally, Bytes.Plus, ConfirmHead, Server.Linked;
    HeadFields(s, task);
    ConfirmTally(s, task, u);
    var p := if |s.tasks[task].rest| == 1 then Idle else Confirming(s.tasks[task].rest[1..]);
    assert s.tasks[task := p][task := Idle] == s.tasks[task := Idle];
  }

  lemma LastIs<C>(s: State<C>, task: nat, u: string)
    requires MayConfirm(s, task) && |s.tasks[task].rest| == 1
    ensures Credited(s, task, s.tasks[task].rest, ConfirmHead(s, task), u)
  {
    HeadFields(s, task);
    ConfirmTally(s, task, u);
    OneLine(s.tasks[task].rest, u);
    hide Tally, Bytes.Plus, ConfirmHead, Server.Linked, Lines;
  }

  lemma HeadFields<C>(s: State<C>, task: nat)
    requires MayConfirm(s, task)
    ensures var rest, t := s.tasks[task].rest, ConfirmHead(s, task);
      && t.counted == s.counted && t.server.Linked()
      && t.tasks == s.tasks[task := if |rest| == 1 then Idle else Confirming(rest[1..])]
  {
    hide Credit;
  }

  lemma OneLine<C>(es: seq<Entry<C>>, u: string)
    requires |es| == 1
    ensures Lines(es, u) == if es[0].traffic.uuid == u then es[0].Amount() else ZERO
  {
    assert es[1..] == [];
  }

  /** `t` is `s` with the head of the task's lines credited, whatever the task is now. */
  ghost predicate HeadCredited<C>(s: State<C>, task: nat, t: State<C>, u: string)
    requires MayConfirm(s, task)
  {
    var x := s.tasks[task].rest[0];
    && task < |t.tasks| && t.tasks[task := Idle] == s.tasks[task := Idle] && t.counted == s.counted
    && Tally(t.confirmed, u) == Tally(s.confirmed, u).Plus(if x.traffic.uuid == u then x.Amount() else ZERO)
  }

  lemma CreditedMore<C>(s: State<C>, task: nat, t: State<C>, end: State<C>, u: string)
    requires MayConfirm(s, task) && HeadCredited(s, task, t, u) && Credited(t, task, s.tasks[task].rest[1..], end, u)
    ensures Credited(s, task, s.tasks[task].rest, end, u)
  {
    hide Tally, Bytes.Plus, Server.Linked;
    var rest := s.tasks[task].rest;
    PlusAssociates(Tally(s.confirmed, u), if rest[0].traffic.uuid == u then rest[0].Amount() else ZERO, Lines(rest[1..], u));
  }

  lemma PlusAssociates(a: Bytes, b: Bytes, c: Bytes)
    ensures a.Plus(b).Plus(c) == a.Plus(b.Plus(c))
  {
  }
}
