/**
  Traffic accounting over whole runs: the atomic steps of connections, reporters, the panel and
  user updates (internal/runtime/embedded.go, internal/controller/controller.go), interleaved freely.
  GetUserTrafficSlice and ConfirmUserTraffic hold a read lock, so user updates and admissions are
  excluded while one is in progress, but bytes keep arriving between two of its iterations.
*/
module Ledger {
  import opened Panel
  import opened Accounting

  // ---- sums over sets of counters ----

  ghost function Sum<C>(store: map<C, Counter>, cs: set<C>): Bytes
    requires cs <= store.Keys
  {
    if cs == {} then ZERO else
      var c :| c in cs;
      store[c].bytes.Plus(Sum(store, cs - {c}))
  }

  lemma {:induction false} SumSplit<C>(store: map<C, Counter>, cs: set<C>, c: C)
    requires cs <= store.Keys && c in cs
    ensures Sum(store, cs) == store[c].bytes.Plus(Sum(store, cs - {c}))
    decreases cs
  {
    var d :| d in cs && Sum(store, cs) == store[d].bytes.Plus(Sum(store, cs - {d}));
    if d != c {
      SumSplit(store, cs - {d}, c);
      SumSplit(store, cs - {c}, d);
      var rest := cs - {c, d};
      assert cs - {d} - {c} == rest && cs - {c} - {d} == rest;
      assert Sum(store, cs) == store[d].bytes.Plus(store[c].bytes.Plus(Sum(store, rest)));
    }
  }

  lemma {:induction false} SumSame<C>(store: map<C, Counter>, store': map<C, Counter>, cs: set<C>)
    requires cs <= store.Keys && cs <= store'.Keys
    requires forall c <- cs :: store'[c].bytes == store[c].bytes
    ensures Sum(store', cs) == Sum(store, cs)
    decreases cs
  {
    if cs != {} {
      var c :| c in cs;
      SumSplit(store, cs, c);
      SumSplit(store', cs, c);
      SumSame(store, store', cs - {c});
    }
  }

  /** Counters that hold nothing do not change a sum. */
  lemma {:induction false} SumZeros<C>(store: map<C, Counter>, cs: set<C>, cs': set<C>)
    requires cs <= cs' <= store.Keys
    requires forall c <- cs' :: c in cs || store[c].bytes == ZERO
    ensures Sum(store, cs') == Sum(store, cs)
    decreases cs'
  {
    if cs != cs' {
      var c :| c in cs' && c !in cs;
      SumSplit(store, cs', c);
      SumZeros(store, cs, cs' - {c});
    }
  }

  lemma SumExtend<C>(store: map<C, Counter>, cs: set<C>, store': map<C, Counter>, cs': set<C>)
    requires cs <= store.Keys && cs <= cs' <= store'.Keys
    requires forall c <- cs :: store'[c].bytes == store[c].bytes
    requires forall c <- cs' :: c in cs || store'[c].bytes == ZERO
    ensures Sum(store', cs') == Sum(store, cs)
  {
    SumZeros(store', cs, cs');
    SumSame(store, store', cs);
  }

  /** Changing one counter moves the sum by the same amount, exactly when the sum contains it. */
  lemma SumBump<C>(store: map<C, Counter>, cs: set<C>, c: C, b: Bytes, delta: Bytes)
    requires cs <= store.Keys && c in store && b == store[c].bytes.Plus(delta)
    ensures Sum(store[c := store[c].(bytes := b)], cs) == if c in cs then Sum(store, cs).Plus(delta) else Sum(store, cs)
  {
    var store' := store[c := store[c].(bytes := b)];
    if c in cs {
      SumSplit(store, cs, c);
      SumSplit(store', cs, c);
    }
    SumSame(store, store', cs - {c});
    assert c !in cs ==> cs - {c} == cs;
  }

  // ---- state ----

  /** One reported line, with the counter object it was read from. */
  datatype Entry<C(==)> = Entry(traffic: UserTraffic, counter: C) {
    function Amount(): Bytes { Bytes(traffic.upload, traffic.download) }
  }

  /** Where one execution of reportUserTrafficTask stands. */
  datatype Phase<C(==)> =
    | Idle
    | Scanning(threshold: int, todo: set<string>, lines: seq<Entry<C>>)
    | Waiting(report: seq<Entry<C>>)
    | Acked(report: seq<Entry<C>>)
    | Confirming(rest: seq<Entry<C>>)
  {
    function Entries(): seq<Entry<C>> {
      match this
      case Idle => []
      case Scanning(_, _, lines) => lines
      case Waiting(report) => report
      case Acked(report) => report
      case Confirming(rest) => rest
    }
  }

  type Tallies = map<string, Bytes>

  function Tally(m: Tallies, u: string): Bytes { if u in m then m[u] else ZERO }
  function Credit(m: Tallies, u: string, b: Bytes): Tallies { m[u := Tally(m, u).Plus(b)] }

  lemma CreditTally(m: Tallies, owner: string, b: Bytes, u: string)
    ensures Tally(Credit(m, owner, b), u) == if u == owner then Tally(m, u).Plus(b) else Tally(m, u)
  {
  }

  /**
    `conns[i]` is the counter handed to the i-th admitted connection; `tasks` are the executions
    of the report task. The tallies are history: bytes moved by connections, bytes subtracted on
    behalf of acknowledged reports, and bytes moved on counters no longer in the map.
  */
  datatype State<C(==)> = State(
    server: Server<C>,
    conns: seq<C>,
    tasks: seq<Phase<C>>,
    counted: Tallies,
    confirmed: Tallies,
    strayed: Tallies)

  ghost predicate Initial<C(!new)>(s: State<C>) {
    s == State(Server(map[], map[], map[], map[], map[]), [], [], map[], map[], map[])
  }

  datatype Event<C(==)> =
    | Read(conn: nat, n: int)
    | Write(conn: nat, n: int)
    | Connect(hash: string, now: int, ip: string, created: C)
    | ReplaceUsers(full: seq<UserInfo>, alloc: map<string, C>, index: Option<map<string, string>>)
    | PatchUsers(added: seq<UserInfo>, deleted: seq<UserInfo>, modified: seq<UserInfo>,
                 alloc: map<string, C>, index: Option<map<string, string>>)
    | Spawn
    | BeginScan(task: nat, reportMin: int)
    | ScanOne(task: nat, uuid: string)
    | EndScan(task: nat, report: seq<Entry<C>>)
    | Fail(task: nat)
    | Ack(task: nat)
    | BeginConfirm(task: nat)
    | ConfirmOne(task: nat)

  /** Some reporter holds the server's read lock. */
  ghost predicate ReadLocked<C>(s: State<C>) {
    exists i | 0 <= i < |s.tasks| :: s.tasks[i].Scanning? || s.tasks[i].Confirming?
  }

  ghost predicate SortedByUid<C>(es: seq<Entry<C>>) {
    forall i, j | 0 <= i < j < |es| :: es[i].traffic.uid <= es[j].traffic.uid
  }

  /** No counter reaches 2^63 bytes in one direction. */
  ghost predicate Fits<C>(s: State<C>, conn: nat, delta: Bytes) {
    && conn < |s.conns| && s.conns[conn] in s.server.store
    && var b := s.server.store[s.conns[conn]].bytes.Plus(delta);
    b.up <= MAX_INT64 && b.down <= MAX_INT64
  }

  ghost predicate MayConfirm<C>(s: State<C>, task: nat) {
    task < |s.tasks| && s.tasks[task].Confirming? && s.tasks[task].rest != [] && s.server.Linked()
  }

  function Positive(n: int): nat { if n <= 0 then 0 else n }

  ghost predicate Enabled<C>(s: State<C>, e: Event<C>) {
    match e
    case Read(conn, n) => Fits(s, conn, Bytes(Positive(n), 0))
    case Write(conn, n) => Fits(s, conn, Bytes(0, Positive(n)))
    case Connect(_, _, _, _) => !ReadLocked(s) && s.server.WellFormed()
    case ReplaceUsers(full, alloc, _) =>
      !ReadLocked(s) && s.server.WellFormed() && Covered(s.server, full, alloc) && Fresh(s.server, alloc)
    case PatchUsers(added, deleted, modified, alloc, _) =>
      && !ReadLocked(s) && s.server.WellFormed()
      && Covered(DeleteAll(s.server, deleted), added + modified, alloc) && Fresh(DeleteAll(s.server, deleted), alloc)
    case Spawn => true
    case BeginScan(task, _) => task < |s.tasks| && s.tasks[task].Idle?
    case ScanOne(task, uuid) =>
      && task < |s.tasks| && s.tasks[task].Scanning? && uuid in s.tasks[task].todo
      && s.server.Linked() && uuid in s.server.counters
    case EndScan(task, report) =>
      && task < |s.tasks| && s.tasks[task].Scanning? && s.tasks[task].todo == {}
      && multiset(report) == multiset(s.tasks[task].lines) && SortedByUid(report)
    case Fail(task) => task < |s.tasks| && s.tasks[task].Waiting?
    case Ack(task) => task < |s.tasks| && s.tasks[task].Waiting?
    case BeginConfirm(task) => task < |s.tasks| && s.tasks[task].Acked?
    case ConfirmOne(task) => MayConfirm(s, task)
  }

  /** Read/Write of countingConn: `delta` bytes go to the counter the connection holds. */
  ghost function Move<C>(s: State<C>, conn: nat, delta: Bytes): State<C>
    requires Fits(s, conn, delta)
  {
    var c := s.conns[conn];
    var rec := s.server.store[c];
    var bytes := Bytes(Added(rec.bytes.up, delta.up), Added(rec.bytes.down, delta.down));
    s.(server := s.server.(store := s.server.store[c := rec.(bytes := bytes)]),
       counted := Credit(s.counted, rec.uuid, delta),
       strayed := if s.server.Resident(c) then s.strayed else Credit(s.strayed, rec.uuid, delta))
  }

  ghost function WithTask<C>(s: State<C>, task: nat, p: Phase<C>): State<C>
    requires task < |s.tasks|
  {
    s.(tasks := s.tasks[task := p])
  }

  /** One iteration of ConfirmUserTraffic. */
  ghost function ConfirmHead<C>(s: State<C>, task: nat): State<C>
    requires MayConfirm(s, task)
  {
    var rest := s.tasks[task].rest;
    var uuid, amount := rest[0].traffic.uuid, rest[0].Amount();
    s.(server := Confirm(s.server, uuid, amount),
       confirmed := Credit(s.confirmed, uuid, amount),
       tasks := s.tasks[task := if |rest| == 1 then Idle else Confirming(rest[1..])])
  }

  ghost function Apply<C>(s: State<C>, e: Event<C>): State<C>
    requires Enabled(s, e)
  {
    match e
    case Read(conn, n) => Move(s, conn, Bytes(Positive(n), 0))
    case Write(conn, n) => Move(s, conn, Bytes(0, Positive(n)))
    case Connect(hash, now, ip, created) =>
      var server := Admit(s.server, hash, now, ip, created);
      var who := Admitted(s.server, hash);
      if who.None? then s
      else s.(server := server, conns := s.conns + [server.counters[who.value]])
    case ReplaceUsers(full, alloc, index) => s.(server := Reindex(Replace(s.server, full, alloc), index))
    case PatchUsers(added, deleted, modified, alloc, index) =>
      s.(server := Reindex(Patch(s.server, added, deleted, modified, alloc), index))
    case Spawn => s.(tasks := s.tasks + [Idle])
    case BeginScan(task, reportMin) =>
      WithTask(s, task, Scanning(Threshold(reportMin), s.server.counters.Keys, []))
    case ScanOne(task, uuid) =>
      var p := s.tasks[task];
      var line := if Reportable(s.server, uuid, p.threshold)
                  then [Entry(TrafficOf(s.server, uuid), s.server.counters[uuid])] else [];
      WithTask(s, task, p.(todo := p.todo - {uuid}, lines := p.lines + line))
    case EndScan(task, report) => WithTask(s, task, if report == [] then Idle else Waiting(report))
    case Fail(task) => WithTask(s, task, Idle)
    case Ack(task) => WithTask(s, task, Acked(s.tasks[task].report))
    case BeginConfirm(task) => WithTask(s, task, Confirming(s.tasks[task].report))
    case ConfirmOne(task) => ConfirmHead(s, task)
  }

  // ---- what holds in every run ----

  ghost predicate EntryOk<C>(s: Server<C>, e: Entry<C>) {
    && e.traffic.uuid != "" && e.Amount().NonNegative()
    && e.counter in s.store && s.store[e.counter].uuid == e.traffic.uuid
  }

  ghost predicate PhaseOk<C>(s: Server<C>, p: Phase<C>) {
    && (forall e <- p.Entries() :: EntryOk(s, e))
    && (p.Scanning? ==> p.todo <= s.counters.Keys)
  }

  ghost predicate Sound<C>(s: State<C>) {
    && s.server.WellFormed()
    && (forall c <- s.conns :: c in s.server.store)
    && (forall p <- s.tasks :: PhaseOk(s.server, p))
  }

  ghost function Owned<C>(s: Server<C>, u: string): (r: set<C>)
    ensures r <= s.store.Keys
  {
    set c | c in s.store && s.store[c].uuid == u
  }

  ghost function Orphans<C>(s: Server<C>, u: string): (r: set<C>)
    ensures r <= s.store.Keys
  {
    set c | c in s.store && s.store[c].uuid == u && !s.Resident(c)
  }

  ghost predicate StraysAt<C>(s: State<C>, u: string) {
    Tally(s.strayed, u) == Sum(s.server.store, Orphans(s.server, u))
  }

  /** Bytes moved on counters outside the map are exactly the bytes those counters hold. */
  ghost predicate StraysOnOrphans<C>(s: State<C>) {
    forall u :: StraysAt(s, u)
  }

  ghost predicate ConservedAt<C>(s: State<C>, u: string) {
    Tally(s.counted, u) == Tally(s.confirmed, u).Plus(Sum(s.server.store, Owned(s.server, u)))
  }

  /** Bytes counted are bytes confirmed plus bytes on the user's counters. */
  ghost predicate Conserved<C>(s: State<C>) {
    forall u :: ConservedAt(s, u)
  }

  /** The user updates: their effect on the server alone. */
  ghost predicate IsUpdate<C>(s: State<C>, e: Event<C>) {
    e.Connect? || e.ReplaceUsers? || e.PatchUsers?
  }

  lemma UpdateEffect<C>(s: State<C>, e: Event<C>)
    requires Sound(s) && Enabled(s, e) && IsUpdate(s, e)
    ensures var t := Apply(s, e);
      && t.server.WellFormed() && Preserves(s.server, t.server)
      && t == s.(server := t.server, conns := t.conns)
      && (forall c <- t.conns :: c in t.server.store)
  {
    match e
    case Connect(hash, now, ip, created) => AdmitOk(s.server, hash, now, ip, created);
    case ReplaceUsers(full, alloc, _) => ReplaceOk(s.server, full, alloc);
    case PatchUsers(added, deleted, modified, alloc, _) => PatchOk(s.server, added, deleted, modified, alloc);
  }

  /** Everything about a server except how many bytes each counter holds. */
  ghost predicate SameShape<C>(s: Server<C>, t: Server<C>) {
    && t.users == s.users && t.counters == s.counters && t.store.Keys == s.store.Keys
    && (forall c <- s.store :: t.store[c].uuid == s.store[c].uuid)
    && (forall c <- t.store :: t.store[c].bytes.NonNegative())
  }

  lemma MoveEffect<C>(s: State<C>, conn: nat, delta: Bytes)
    requires Sound(s) && Fits(s, conn, delta) && delta.NonNegative()
    ensures var t := Move(s, conn, delta); var c := s.conns[conn];
      && SameShape(s.server, t.server)
      && t.server.store == s.server.store[c := s.server.store[c].(bytes := s.server.store[c].bytes.Plus(delta))]
  {
    hide Wrap64, Added, Credit, Server.Resident;
    assert s.conns[conn] in s.conns;
    var b := s.server.store[s.conns[conn]].bytes;
    AddedFits(b.up, delta.up);
    AddedFits(b.down, delta.down);
  }

  lemma AddedFits(total: int, n: int)
    requires 0 <= n && 0 <= total + n <= MAX_INT64
    ensures Added(total, n) == total + n
  {
    hide Wrap64;
  }

  lemma ConfirmEffect<C>(s: Server<C>, uuid: string, take: Bytes)
    requires s.WellFormed() && take.NonNegative()
    ensures SameShape(s, Confirm(s, uuid, take))
  {
  }

  lemma ShapeSound<C>(s: State<C>, t: State<C>)
    requires Sound(s) && SameShape(s.server, t.server) && t.conns == s.conns
    requires forall p <- t.tasks :: exists q <- s.tasks ::
               (forall e <- p.Entries() :: e in q.Entries()) && (p.Scanning? ==> q.Scanning? && p.todo <= q.todo)
    ensures Sound(t)
  {
    forall p <- t.tasks ensures PhaseOk(t.server, p) {
      var q :| q in s.tasks && (forall e <- p.Entries() :: e in q.Entries()) && (p.Scanning? ==> q.Scanning? && p.todo <= q.todo);
      assert PhaseOk(s.server, q);
    }
  }

  lemma MoveSound<C>(s: State<C>, conn: nat, delta: Bytes)
    requires Sound(s) && Fits(s, conn, delta) && delta.NonNegative()
    ensures Sound(Move(s, conn, delta))
  {
    MoveEffect(s, conn, delta);
    ShapeSound(s, Move(s, conn, delta));
  }

  lemma UpdateSound<C>(s: State<C>, e: Event<C>)
    requires Sound(s) && Enabled(s, e) && IsUpdate(s, e)
    ensures Sound(Apply(s, e))
  {
    UpdateEffect(s, e);
    var t := Apply(s, e);
    forall p <- t.tasks ensures PhaseOk(t.server, p) {
      assert PhaseOk(s.server, p);
      forall x <- p.Entries() ensures EntryOk(t.server, x) { assert EntryOk(s.server, x); }
    }
  }

  lemma TaskSound<C>(s: State<C>, task: nat, p: Phase<C>)
    requires Sound(s) && task < |s.tasks| && PhaseOk(s.server, p)
    ensures Sound(WithTask(s, task, p))
  {
  }

  lemma ConfirmOneSound<C>(s: State<C>, e: Event<C>)
    requires Sound(s) && Enabled(s, e) && e.ConfirmOne?
    ensures Sound(Apply(s, e))
  {
    var rest := s.tasks[e.task].rest;
    assert PhaseOk(s.server, s.tasks[e.task]);
    assert EntryOk(s.server, rest[0]);
    ConfirmEffect(s.server, rest[0].traffic.uuid, rest[0].Amount());
    var p := if |rest| == 1 then Idle else Confirming(rest[1..]);
    TaskSound(s, e.task, p);
    ShapeSound(WithTask(s, e.task, p), Apply(s, e));
  }

  lemma ScanOneSound<C>(s: State<C>, e: Event<C>)
    requires Sound(s) && Enabled(s, e) && e.ScanOne?
    ensures Sound(Apply(s, e))
  {
    assert PhaseOk(s.server, s.tasks[e.task]);
    TaskSound(s, e.task, Apply(s, e).tasks[e.task]);
  }

  lemma EndScanSound<C>(s: State<C>, e: Event<C>)
    requires Sound(s) && Enabled(s, e) && e.EndScan?
    ensures Sound(Apply(s, e))
  {
    var lines := s.tasks[e.task].lines;
    assert PhaseOk(s.server, s.tasks[e.task]);
    forall x <- e.report ensures x in lines { assert x in multiset(e.report) && x in multiset(lines); }
    TaskSound(s, e.task, if e.report == [] then Idle else Waiting(e.report));
  }

  lemma StepSound<C>(s: State<C>, e: Event<C>)
    requires Sound(s) && Enabled(s, e)
    ensures Sound(Apply(s, e))
  {
    match e
    case Read(conn, n) => MoveSound(s, conn, Bytes(Positive(n), 0));
    case Write(conn, n) => MoveSound(s, conn, Bytes(0, Positive(n)));
    case Connect(_, _, _, _) => UpdateSound(s, e);
    case ReplaceUsers(_, _, _) => UpdateSound(s, e);
    case PatchUsers(_, _, _, _, _) => UpdateSound(s, e);
    case Spawn =>
    case BeginScan(task, reportMin) =>
    case ScanOne(_, _) => ScanOneSound(s, e);
    case EndScan(_, _) => EndScanSound(s, e);
    case Fail(task) =>
    case Ack(task) =>
      assert PhaseOk(s.server, s.tasks[task]) && s.tasks[task].Entries() == s.tasks[task].report;
    case BeginConfirm(task) =>
      assert PhaseOk(s.server, s.tasks[task]) && s.tasks[task].Entries() == s.tasks[task].report;
    case ConfirmOne(_) => ConfirmOneSound(s, e);
  }

  // ---- bytes on dropped counters ----

  /** One counter changes by `delta`; the sums of its owner follow. */
  lemma BumpSums<C>(s: Server<C>, t: Server<C>, c: C, delta: Bytes, u: string)
    requires c in s.store && t.counters == s.counters
    requires t.store == s.store[c := s.store[c].(bytes := s.store[c].bytes.Plus(delta))]
    ensures Sum(t.store, Owned(t, u)) ==
            if u == s.store[c].uuid then Sum(s.store, Owned(s, u)).Plus(delta) else Sum(s.store, Owned(s, u))
    ensures Sum(t.store, Orphans(t, u)) ==
            if u == s.store[c].uuid && !s.Resident(c) then Sum(s.store, Orphans(s, u)).Plus(delta)
            else Sum(s.store, Orphans(s, u))
  {
    var b := s.store[c].bytes.Plus(delta);
    assert Owned(t, u) == Owned(s, u);
    assert Orphans(t, u) == Orphans(s, u);
    SumBump(s.store, Owned(s, u), c, b, delta);
    SumBump(s.store, Orphans(s, u), c, b, delta);
  }

  lemma MoveStrays<C>(s: State<C>, conn: nat, delta: Bytes, u: string)
    requires Sound(s) && Fits(s, conn, delta) && delta.NonNegative()
    ensures StraysAt(s, u) ==> StraysAt(Move(s, conn, delta), u)
  {
    hide Sum, Owned, Orphans, Credit;
    MoveEffect(s, conn, delta);
    var c := s.conns[conn];
    BumpSums(s.server, Move(s, conn, delta).server, c, delta, u);
    CreditTally(s.strayed, s.server.store[c].uuid, delta, u);
  }

  lemma MoveConserves<C>(s: State<C>, conn: nat, delta: Bytes, u: string)
    requires Sound(s) && Fits(s, conn, delta) && delta.NonNegative()
    ensures ConservedAt(s, u) ==> ConservedAt(Move(s, conn, delta), u)
  {
    hide Sum, Owned, Orphans, Credit, Tally, Bytes.Plus, Added;
    MoveEffect(s, conn, delta);
    var c, t := s.conns[conn], Move(s, conn, delta);
    BumpSums(s.server, t.server, c, delta, u);
    CreditTally(s.counted, s.server.store[c].uuid, delta, u);
    PlusMoves(Tally(s.confirmed, u), Sum(s.server.store, Owned(s.server, u)), delta);
  }

  lemma PlusMoves(a: Bytes, b: Bytes, delta: Bytes)
    ensures a.Plus(b).Plus(delta) == a.Plus(b.Plus(delta))
  {
  }

  lemma UpdateAt<C>(s: State<C>, t: State<C>, u: string)
    requires s.server.WellFormed() && t.server.WellFormed() && Preserves(s.server, t.server)
    requires t.counted == s.counted && t.confirmed == s.confirmed && t.strayed == s.strayed
    ensures StraysAt(s, u) ==> StraysAt(t, u)
    ensures ConservedAt(t, u) <==> ConservedAt(s, u)
  {
    SumExtend(s.server.store, Orphans(s.server, u), t.server.store, Orphans(t.server, u));
    SumExtend(s.server.store, Owned(s.server, u), t.server.store, Owned(t.server, u));
  }

  /** What the confirm at the head of `task` takes from a counter that holds less. */
  ghost predicate Overdraws<C>(s: State<C>, e: Event<C>)
    requires Sound(s) && Enabled(s, e)
  {
    e.ConfirmOne? &&
    var x := s.tasks[e.task].rest[0];
    !x.Amount().AtMost(s.server.Held(x.traffic.uuid))
  }

  /** What one confirm does to the sums of `u`, whatever it asks for. */
  lemma ConfirmSums<C>(s: Server<C>, uuid: string, take: Bytes, u: string)
    requires s.WellFormed() && take.NonNegative()
    ensures var t := Confirm(s, uuid, take);
      && Sum(t.store, Orphans(t, u)) == Sum(s.store, Orphans(s, u))
      && (Sum(s.store, Owned(s, u)) == (if u == uuid then take else ZERO).Plus(Sum(t.store, Owned(t, u)))
          <==> u != uuid || take.AtMost(s.Held(uuid)))
  {
    hide Sum;
    if uuid in s.counters {
      var t := Confirm(s, uuid, take);
      var c := s.counters[uuid];
      var had, has := s.store[c].bytes, Subtract(s.store[c].bytes, take);
      BumpSums(s, t, c, Bytes(has.up - had.up, has.down - had.down), u);
      assert s.Resident(c) && s.store[c].uuid == uuid;
    } else {
      assert Confirm(s, uuid, take) == s;
    }
  }

  lemma HeadOk<C>(s: State<C>, task: nat)
    requires Sound(s) && MayConfirm(s, task)
    ensures EntryOk(s.server, s.tasks[task].rest[0])
  {
    var p := s.tasks[task];
    assert PhaseOk(s.server, p) && p.rest[0] in p.Entries();
  }

  lemma ConfirmStrays<C>(s: State<C>, task: nat, u: string)
    requires s.server.WellFormed() && MayConfirm(s, task) && EntryOk(s.server, s.tasks[task].rest[0])
    ensures StraysAt(s, u) ==> StraysAt(ConfirmHead(s, task), u)
  {
    var x := s.tasks[task].rest[0];
    ConfirmSums(s.server, x.traffic.uuid, x.Amount(), u);
  }

  lemma ConfirmConserves<C>(s: State<C>, task: nat, u: string)
    requires s.server.WellFormed() && MayConfirm(s, task) && EntryOk(s.server, s.tasks[task].rest[0])
    requires ConservedAt(s, u)
    ensures var x := s.tasks[task].rest[0];
      ConservedAt(ConfirmHead(s, task), u) <==> u != x.traffic.uuid || x.Amount().AtMost(s.server.Held(u))
  {
    hide Sum, Owned, Orphans, Confirm, Tally, Credit, Bytes.Plus, Bytes.AtMost, Server.Held;
    var x, t := s.tasks[task].rest[0], ConfirmHead(s, task);
    ConfirmSums(s.server, x.traffic.uuid, x.Amount(), u);
    CreditTally(s.confirmed, x.traffic.uuid, x.Amount(), u);
    Settled(Tally(s.counted, u), Tally(s.confirmed, u), if u == x.traffic.uuid then x.Amount() else ZERO,
            Sum(s.server.store, Owned(s.server, u)), Sum(t.server.store, Owned(t.server, u)));
    PlusZero(Tally(s.confirmed, u));
  }

  lemma PlusZero(b: Bytes)
    ensures b.Plus(ZERO) == b
  {
  }

  /** `took` moves from the counters to the confirmed bytes exactly when the counters lost just that. */
  lemma Settled(counted: Bytes, confirmed: Bytes, took: Bytes, owned: Bytes, left: Bytes)
    requires counted == confirmed.Plus(owned)
    ensures counted == confirmed.Plus(took).Plus(left) <==> owned == took.Plus(left)
  {
  }

  lemma OtherAt<C>(s: State<C>, e: Event<C>, u: string)
    requires Sound(s) && Enabled(s, e) && !e.ConfirmOne? && StraysAt(s, u) && ConservedAt(s, u)
    ensures StraysAt(Apply(s, e), u) && ConservedAt(Apply(s, e), u)
  {
    if IsUpdate(s, e) {
      UpdateEffect(s, e);
      UpdateAt(s, Apply(s, e), u);
    } else {
      if e.Read? || e.Write? {
        var delta := if e.Read? then Bytes(Positive(e.n), 0) else Bytes(0, Positive(e.n));
        MoveStrays(s, e.conn, delta, u);
        MoveConserves(s, e.conn, delta, u);
      }
    }
  }

  lemma ConfirmAt<C>(s: State<C>, task: nat, u: string)
    requires Sound(s) && MayConfirm(s, task) && StraysAt(s, u) && ConservedAt(s, u)
    ensures StraysAt(ConfirmHead(s, task), u)
    ensures var x := s.tasks[task].rest[0];
      ConservedAt(ConfirmHead(s, task), u) <==> u != x.traffic.uuid || x.Amount().AtMost(s.server.Held(x.traffic.uuid))
  {
    hide StraysAt, ConservedAt;
    HeadOk(s, task);
    ConfirmStrays(s, task, u);
    ConfirmConserves(s, task, u);
  }

  /** No step loses or invents a byte, except a confirm that takes more than the counter holds. */
  lemma StepConserves<C>(s: State<C>, e: Event<C>)
    requires Sound(s) && Conserved(s) && StraysOnOrphans(s) && Enabled(s, e)
    ensures StraysOnOrphans(Apply(s, e))
    ensures Conserved(Apply(s, e)) <==> !Overdraws(s, e)
  {
    if e.ConfirmOne? {
      ConfirmStep(s, e.task);
    } else {
      hide Apply, StraysAt, ConservedAt, Sound;
      forall u ensures StraysAt(Apply(s, e), u) && ConservedAt(Apply(s, e), u) {
        assert StraysAt(s, u) && ConservedAt(s, u);
        OtherAt(s, e, u);
      }
    }
  }

  /** A confirm conserves exactly when the counter holds the line. */
  lemma ConfirmStep<C>(s: State<C>, task: nat)
    requires Sound(s) && Conserved(s) && StraysOnOrphans(s) && MayConfirm(s, task)
    ensures StraysOnOrphans(ConfirmHead(s, task))
    ensures var x := s.tasks[task].rest[0];
      Conserved(ConfirmHead(s, task)) <==> x.Amount().AtMost(s.server.Held(x.traffic.uuid))
  {
    ConfirmStepStrays(s, task);
    ConfirmStepConserves(s, task);
  }

  lemma ConfirmStepStrays<C>(s: State<C>, task: nat)
    requires Sound(s) && Conserved(s) && StraysOnOrphans(s) && MayConfirm(s, task)
    ensures StraysOnOrphans(ConfirmHead(s, task))
  {
    hide ConfirmHead, StraysAt, ConservedAt;
    forall u ensures StraysAt(ConfirmHead(s, task), u) {
      assert StraysAt(s, u) && ConservedAt(s, u);
      ConfirmAt(s, task, u);
    }
  }

  lemma ConfirmStepConserves<C>(s: State<C>, task: nat)
    requires Sound(s) && Conserved(s) && StraysOnOrphans(s) && MayConfirm(s, task)
    ensures var x := s.tasks[task].rest[0];
      Conserved(ConfirmHead(s, task)) <==> x.Amount().AtMost(s.server.Held(x.traffic.uuid))
  {
    hide ConfirmHead, StraysAt, ConservedAt;
    var x, t := s.tasks[task].rest[0], ConfirmHead(s, task);
    var holds := x.Amount().AtMost(s.server.Held(x.traffic.uuid));
    forall u ensures ConservedAt(t, u) <==> u != x.traffic.uuid || holds {
      assert StraysAt(s, u) && ConservedAt(s, u);
      ConfirmAt(s, task, u);
    }
    AllButOne(t, x.traffic.uuid, holds);
  }

  lemma AllButOne<C>(t: State<C>, who: string, holds: bool)
    requires forall u :: ConservedAt(t, u) <==> u != who || holds
    ensures Conserved(t) <==> holds
  {
    hide ConservedAt;
    assert ConservedAt(t, who) <==> holds;
  }
}
