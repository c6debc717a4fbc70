/** Concrete runs showing that the two conditions of the conservation theorem are needed. */
module LedgerWitness {
  import opened Panel
  import opened Accounting
  import opened Ledger
  import opened LedgerRuns

  const ALICE := UserInfo(7, "u", "", 0, 0)
  const ONLINE: map<string, OnlineState> := map["u" := OnlineState(0, "")]

  function Serving(b: Bytes): Server<int> {
    Server(map["u" := ALICE], map["h" := "u"], map["u" := 0], map[0 := Counter(7, "u", b)], ONLINE)
  }

  const START: State<int> := State(Server(map[], map[], map[], map[], map[]), [], [], map[], map[], map[])
  const LOADED := START.(server := Serving(ZERO).(online := map[]))
  const CONNECTED := LOADED.(server := Serving(ZERO), conns := [0])
  const LOAD := ReplaceUsers([ALICE], map["u" := 0], Some(map["h" := "u"]))

  lemma LoadStep()
    ensures Enabled(START, LOAD) && Apply(START, LOAD) == LOADED
  {
    var users, alloc := [ALICE], map["u" := 0];
    assert forall i | 0 <= i < |users| :: HasCounter(START.server, users[i].uuid, alloc);
    assert users[..0] == [];
    assert UpsertAll(START.server, users[..0], alloc) == START.server;
    var full := UpsertAll(START.server, users, alloc);
    assert full.counters == map["u" := 0] && full.users == map["u" := ALICE];
    assert Sweep(full) == full;
    assert START.server.(users := map[]) == START.server;
  }

  lemma ConnectStep()
    ensures Enabled(LOADED, Connect("h", 0, "", 0)) && Apply(LOADED, Connect("h", 0, "", 0)) == CONNECTED
  {
    var s := LOADED.server;
    assert s.index["h"] == "u" && Admitted(s, "h") == Some("u");
    assert s.store[0 := Counter(7, "u", ZERO)] == s.store;
    assert s.counters["u" := 0] == s.counters;
    assert Admit(s, "h", 0, "", 0) == Serving(ZERO);
    assert LOADED.conns + [0] == [0];
  }

  const DROP: Event<int> := ReplaceUsers([], map[], Some(map[]))
  const DROPPED := CONNECTED.(server := Server(map[], map[], map[], map[0 := Counter(7, "u", ZERO)], ONLINE))
  const STRAYED := DROPPED.(
    server := DROPPED.server.(store := map[0 := Counter(7, "u", Bytes(100, 0))]),
    counted := map["u" := Bytes(100, 0)],
    strayed := map["u" := Bytes(100, 0)])

  lemma DropStep()
    ensures Enabled(CONNECTED, DROP) && Apply(CONNECTED, DROP) == DROPPED
  {
    var empty := CONNECTED.server.(users := map[]);
    assert UpsertAll(empty, [], map[]) == empty;
    assert Sweep(empty).counters == map[];
  }

  lemma ReadIs(s: State<int>, conn: nat, n: nat)
    requires Fits(s, conn, Bytes(n, 0))
    ensures Enabled(s, Read(conn, n)) && Apply(s, Read(conn, n)) == Move(s, conn, Bytes(n, 0))
  {
  }

  /** `n` uploaded bytes on the only connection, spelled out. */
  lemma MoveIs(s: State<int>, held: nat, n: nat)
    requires s.conns == [0] && s.server.store == map[0 := Counter(7, "u", Bytes(held, 0))] && held + n <= MAX_INT64
    ensures Fits(s, 0, Bytes(n, 0))
    ensures Move(s, 0, Bytes(n, 0)) == s.(
      server := s.server.(store := map[0 := Counter(7, "u", Bytes(held + n, 0))]),
      counted := Credit(s.counted, "u", Bytes(n, 0)),
      strayed := if s.server.Resident(0) then s.strayed else Credit(s.strayed, "u", Bytes(n, 0)))
  {
    hide Credit;
    var t := Move(s, 0, Bytes(n, 0));
    assert t.server.store == map[0 := Counter(7, "u", Bytes(held + n, 0))];
  }

  lemma MoveServing(s: State<int>, held: nat, n: nat)
    requires s.conns == [0] && s.server == Serving(Bytes(held, 0)) && held + n <= MAX_INT64
    ensures Enabled(s, Read(0, n))
    ensures Apply(s, Read(0, n)) == s.(server := Serving(Bytes(held + n, 0)), counted := Credit(s.counted, "u", Bytes(n, 0)))
  {
    MoveIs(s, held, n);
    ReadIs(s, 0, n);
  }

  lemma CreditFirst(m: Tallies, had: Bytes, n: nat)
    requires m == map[] || m == map["u" := had]
    ensures Credit(m, "u", Bytes(n, 0)) == map["u" := Tally(m, "u").Plus(Bytes(n, 0))]
  {
  }

  lemma StrayStep()
    ensures Enabled(DROPPED, Read(0, 100)) && Apply(DROPPED, Read(0, 100)) == STRAYED
  {
    hide Apply, Enabled, Move, Credit, Fits, Server.Resident, Server.WellFormed, Server.Linked;
    NotResident();
    FirstCredit();
    MoveIs(DROPPED, 0, 100);
    ReadIs(DROPPED, 0, 100);
  }

  lemma FirstCredit()
    ensures Credit(map[], "u", Bytes(100, 0)) == map["u" := Bytes(100, 0)]
  {
    CreditEmpty(map[], Bytes(100, 0));
  }

  lemma CreditEmpty(m: Tallies, b: Bytes)
    requires m == map[]
    ensures Credit(m, "u", b) == map["u" := b]
  {
  }

  lemma NotResident()
    ensures !DROPPED.server.Resident(0)
  {
  }

  lemma Connected(single: bool)
    ensures Reachable(CONNECTED, single)
  {
    LoadStep();
    ConnectStep();
    assert Run([START], []) && [START][|[START]| - 1] == START;
    ReachableStep(START, LOAD, single);
    ReachableStep(LOADED, Connect("h", 0, "", 0), single);
  }

  /** A user without traffic is removed while connected: the connection's later bytes are never billed. */
  lemma BytesAfterRemovalStray()
    ensures Reachable(STRAYED, true)
    ensures Tally(STRAYED.counted, "u") == Bytes(100, 0)
    ensures Tally(STRAYED.confirmed, "u") == ZERO && "u" !in STRAYED.server.counters
  {
    hide Reachable, Apply, Enabled;
    Connected(true);
    DropStep();
    StrayStep();
    ReachableStep(CONNECTED, DROP, true);
    ReachableStep(DROPPED, Read(0, 100), true);
  }

  // ---- two reports in flight ----

  const LINE := Entry(UserTraffic(7, "u", 100, 0), 0)
  const MOVED := CONNECTED.(server := Serving(Bytes(100, 0)), counted := map["u" := Bytes(100, 0)])

  /** CONNECTED with traffic, `held` bytes on the counter, and two executions of the report task. */
  function Busy(held: int, counted: int, confirmed: Tallies, a: Phase<int>, b: Phase<int>): State<int> {
    State(Serving(Bytes(held, 0)), [0], [a, b], map["u" := Bytes(counted, 0)], confirmed, map[])
  }

  lemma Ready()
    ensures Reachable(Busy(100, 100, map[], Idle, Idle), false)
  {
    Connected(false);
    FirstBytes(CONNECTED);
    SpawnStep(MOVED);
    var one := MOVED.(tasks := MOVED.tasks + [Idle]);
    SpawnStep(one);
    var two := one.(tasks := one.tasks + [Idle]);
    assert two.tasks == [Idle, Idle];
    assert two == Busy(100, 100, map[], Idle, Idle);
  }

  lemma FirstBytes(s: State<int>)
    requires Reachable(s, false) && s.server == Serving(Bytes(0, 0)) && s.conns == [0] && s.counted == map[]
    ensures Reachable(s.(server := Serving(Bytes(100, 0)), counted := map["u" := Bytes(100, 0)]), false)
  {
    hide Reachable, Apply, Enabled, Credit;
    MoveServing(s, 0, 100);
    ReachableStep(s, Read(0, 100), false);
    CreditFirst(map[], ZERO, 100);
  }

  lemma SpawnStep(s: State<int>)
    requires Reachable(s, false)
    ensures Reachable(s.(tasks := s.tasks + [Idle]), false)
  {
    ReachableStep(s, Spawn, false);
  }

  /** A scan of the only counter, holding 100 bytes, puts LINE in flight. */
  lemma Scanned(s: State<int>, t: nat)
    requires Reachable(s, false) && s.server == Serving(Bytes(100, 0)) && t < |s.tasks| && s.tasks[t] == Idle
    ensures Reachable(WithTask(s, t, Waiting([LINE])), false)
  {
    var s1 := WithTask(s, t, Scanning(0, {"u"}, []));
    assert s.server.counters.Keys == {"u"};
    assert Apply(s, BeginScan(t, 0)) == s1;
    ReachableStep(s, BeginScan(t, 0), false);
    assert Reportable(s1.server, "u", 0) && TrafficOf(s1.server, "u") == LINE.traffic;
    ScanEnds(s, s1, t);
  }

  lemma ScanEnds(s: State<int>, s1: State<int>, t: nat)
    requires t < |s.tasks| && s1 == WithTask(s, t, Scanning(0, {"u"}, [])) && Reachable(s1, false)
    requires s.server == Serving(Bytes(100, 0))
    requires Reportable(s1.server, "u", 0) && TrafficOf(s1.server, "u") == LINE.traffic
    ensures Reachable(WithTask(s, t, Waiting([LINE])), false)
  {
    var s2 := WithTask(s, t, Scanning(0, {}, [LINE]));
    assert {"u"} - {"u"} == {} && [] + [LINE] == [LINE];
    assert s1.tasks[t := Scanning(0, {}, [LINE])] == s2.tasks;
    assert Apply(s1, ScanOne(t, "u")) == s2;
    ReachableStep(s1, ScanOne(t, "u"), false);
    assert s2.tasks[t := Waiting([LINE])] == s.tasks[t := Waiting([LINE])];
    ReachableStep(s2, EndScan(t, [LINE]), false);
  }

  /** Confirming LINE empties a counter that holds no more than it, and credits the whole line. */
  lemma Confirmed(s: State<int>, t: nat, held: nat, done: int)
    requires Reachable(s, false) && s.server == Serving(Bytes(held, 0)) && held <= 100
    requires t < |s.tasks| && s.tasks[t] == Waiting([LINE]) && Tally(s.confirmed, "u") == Bytes(done, 0)
    ensures Reachable(WithTask(s, t, Idle).(server := Serving(ZERO), confirmed := s.confirmed["u" := Bytes(done + 100, 0)]), false)
  {
    var s1, s2 := WithTask(s, t, Acked([LINE])), WithTask(s, t, Confirming([LINE]));
    ReachableStep(s, Ack(t), false);
    assert s1.tasks[t := Confirming([LINE])] == s2.tasks;
    assert s1.tasks[t].report == [LINE];
    assert Apply(s1, BeginConfirm(t)) == s2;
    ReachableStep(s1, BeginConfirm(t), false);
    ConfirmedLast(s, s2, t, held, done);
  }

  lemma ConfirmedLast(s: State<int>, s2: State<int>, t: nat, held: nat, done: int)
    requires s.server == Serving(Bytes(held, 0)) && held <= 100
    requires t < |s.tasks| && s2 == WithTask(s, t, Confirming([LINE])) && Reachable(s2, false)
    requires Tally(s.confirmed, "u") == Bytes(done, 0)
    ensures Reachable(WithTask(s, t, Idle).(server := Serving(ZERO), confirmed := s.confirmed["u" := Bytes(done + 100, 0)]), false)
  {
    hide Reachable, Apply, Enabled, ConfirmHead;
    ConfirmIs(s2, t);
    ReachableStep(s2, ConfirmOne(t), false);
    HeadIs(s2, t, held);
    assert Credit(s.confirmed, "u", Bytes(100, 0)) == s.confirmed["u" := Bytes(done + 100, 0)];
    assert s2.tasks[t := Idle] == s.tasks[t := Idle];
  }

  lemma HeadIs(s: State<int>, t: nat, held: nat)
    requires s.server == Serving(Bytes(held, 0)) && held <= 100
    requires t < |s.tasks| && s.tasks[t] == Confirming([LINE])
    ensures MayConfirm(s, t)
    ensures ConfirmHead(s, t) == s.(server := Serving(ZERO), confirmed := Credit(s.confirmed, "u", Bytes(100, 0)),
                                    tasks := s.tasks[t := Idle])
  {
    assert LINE.Amount() == Bytes(100, 0);
    assert Confirm(s.server, "u", Bytes(100, 0)).store == Serving(ZERO).store;
  }

  lemma ConfirmIs(s: State<int>, t: nat)
    requires MayConfirm(s, t)
    ensures Enabled(s, ConfirmOne(t)) && Apply(s, ConfirmOne(t)) == ConfirmHead(s, t)
  {
  }

  /**
    Two reports in flight at once: 100 bytes are billed twice and the 50 bytes that arrived between
    the confirms are wiped from the counter, so 150 counted bytes end as 200 confirmed.
  */
  lemma TwoReportsBreakConservation()
    ensures var last := Busy(0, 150, map["u" := Bytes(200, 0)], Idle, Idle); Reachable(last, false) && !Conserved(last)
  {
    hide Reachable, Apply, Enabled, Conserved;
    var ready := Busy(100, 100, map[], Idle, Idle);
    Ready();
    Scanned(ready, 0);
    Scanned(WithTask(ready, 0, Waiting([LINE])), 1);
    var both := Busy(100, 100, map[], Waiting([LINE]), Waiting([LINE]));
    assert WithTask(WithTask(ready, 0, Waiting([LINE])), 1, Waiting([LINE])).tasks == both.tasks;
    Confirmed(both, 0, 100, 0);
    LateBytes(both);
    LastConfirm();
    Wiped();
  }

  lemma LateBytes(both: State<int>)
    requires both == Busy(100, 100, map[], Waiting([LINE]), Waiting([LINE]))
    requires Reachable(WithTask(both, 0, Idle).(server := Serving(ZERO), confirmed := both.confirmed["u" := Bytes(100, 0)]), false)
    ensures Reachable(Busy(50, 150, map["u" := Bytes(100, 0)], Idle, Waiting([LINE])), false)
  {
    var billed := Busy(0, 100, map["u" := Bytes(100, 0)], Idle, Waiting([LINE]));
    assert WithTask(both, 0, Idle).tasks == billed.tasks;
    assert both.confirmed["u" := Bytes(100, 0)] == billed.confirmed;
    LateStep(billed);
  }

  lemma LateStep(billed: State<int>)
    requires billed == Busy(0, 100, map["u" := Bytes(100, 0)], Idle, Waiting([LINE])) && Reachable(billed, false)
    ensures Reachable(Busy(50, 150, map["u" := Bytes(100, 0)], Idle, Waiting([LINE])), false)
  {
    hide Reachable, Apply, Enabled, Credit;
    MoveServing(billed, 0, 50);
    ReachableStep(billed, Read(0, 50), false);
    CreditFirst(billed.counted, Bytes(100, 0), 50);
  }

  lemma LastConfirm()
    requires Reachable(Busy(50, 150, map["u" := Bytes(100, 0)], Idle, Waiting([LINE])), false)
    ensures Reachable(Busy(0, 150, map["u" := Bytes(200, 0)], Idle, Idle), false)
  {
    var late := Busy(50, 150, map["u" := Bytes(100, 0)], Idle, Waiting([LINE]));
    Confirmed(late, 1, 50, 100);
    assert WithTask(late, 1, Idle).tasks == [Idle, Idle];
    assert late.confirmed["u" := Bytes(200, 0)] == map["u" := Bytes(200, 0)];
  }

  lemma SumOfOne(store: map<int, Counter>, c: int)
    requires c in store
    ensures Sum(store, {c}) == store[c].bytes
  {
    SumSplit(store, {c}, c);
    assert {c} - {c} == {};
  }

  lemma Wiped()
    ensures !Conserved(Busy(0, 150, map["u" := Bytes(200, 0)], Idle, Idle))
  {
    var last := Busy(0, 150, map["u" := Bytes(200, 0)], Idle, Idle);
    assert Owned(last.server, "u") == {0};
    SumOfOne(last.server.store, 0);
    assert !ConservedAt(last, "u");
  }
}
