/** Online reporting with lazy eviction (internal/runtime/embedded.go) against a log that is never pruned. */
module Online {
  import opened Panel
  import opened Accounting
  import opened Text

  type Log = map<string, OnlineState>

  /**
    How long an entry outlives its last-seen time: two push intervals, two minutes without one. The product
    -2 * interval is a 64-bit one, so the window of an interval above 2^62 nanoseconds is negative.
  */
  function Window(pushInterval: int): int {
    if pushInterval <= 0 then 2 * MINUTE else -Wrap64(-2 * pushInterval)
  }

  lemma WindowIs(pushInterval: int)
    requires pushInterval <= MAX_INT64
    ensures Window(pushInterval) ==
            if pushInterval <= 0 then 2 * MINUTE
            else if pushInterval <= 0x4000_0000_0000_0000 then 2 * pushInterval else 2 * pushInterval - TWO_64
    ensures Window(pushInterval) < 0 <==> pushInterval > 0x4000_0000_0000_0000
  {
    if pushInterval > 0x4000_0000_0000_0000 {
      assert Wrap64(-2 * pushInterval) == Wrap64(-2 * pushInterval + TWO_64);
    }
  }

  function Evict(log: Log, cutoff: int): Log {
    map u | u in log && log[u].seenAt >= cutoff :: log[u]
  }

  /** The lines of GetOnlineDevice, by uuid. */
  function Devices(log: Log, users: map<string, UserInfo>, cutoff: int, nodeId: int): map<string, OnlineUser> {
    map u | u in log && log[u].seenAt >= cutoff && u in users && users[u].id != 0 ::
      OnlineUser(users[u].id, if log[u].ip == "" then "unknown_" + Itoa(nodeId) else log[u].ip)
  }

  /** markOffline: the last-seen time moves to `now` if the entry is still there. */
  function Touch(log: Log, uuid: string, now: int): Log {
    if uuid in log then log[uuid := OnlineState(now, log[uuid].ip)] else log
  }

  datatype Event =
    | Seen(uuid: string, now: int, ip: string)
    | Closed(uuid: string, now: int)
    | Removed(uuid: string)
    | Polled(now: int)

  /** `pruned` is what the server keeps, `full` what it would keep without eviction. */
  datatype State = State(pruned: Log, full: Log, clock: int, cutoff: int)

  function Next(s: State, e: Event, window: int): State {
    match e
    case Seen(u, now, ip) =>
      s.(pruned := s.pruned[u := OnlineState(now, ip)], full := s.full[u := OnlineState(now, ip)], clock := now)
    case Closed(u, now) => s.(pruned := Touch(s.pruned, u, now), full := Touch(s.full, u, now), clock := now)
    case Removed(u) => s.(pruned := s.pruned - {u}, full := s.full - {u})
    case Polled(now) => s.(pruned := Evict(s.pruned, now - window), clock := now, cutoff := now - window)
  }

  predicate Monotone(s: State, e: Event) {
    e.Removed? || s.clock <= e.now
  }

  /** The connection closes no later than `window` after the entry was last refreshed. */
  predicate Prompt(s: State, e: Event, window: int) {
    e.Closed? && e.uuid in s.full ==> e.now <= s.full[e.uuid].seenAt + window
  }

  ghost predicate Agree(s: State, window: int) {
    && s.cutoff <= s.clock - window
    && (forall u <- s.full :: s.full[u].seenAt <= s.clock)
    && s.pruned == Evict(s.full, s.cutoff)
  }

  /** Eviction stays invisible in one step, unless a connection closes after its entry was evicted. */
  lemma StepAgrees(s: State, e: Event, window: int)
    requires Agree(s, window) && Monotone(s, e) && window >= 0
    ensures Agree(Next(s, e, window), window) <==> !(e.Closed? && e.uuid in s.full && e.uuid !in s.pruned)
    ensures Prompt(s, e, window) ==> Agree(Next(s, e, window), window)
  {
    var t := Next(s, e, window);
    match e
    case Seen(u, now, ip) => assert t.pruned == Evict(t.full, t.cutoff);
    case Closed(u, now) =>
      if u in s.full && u !in s.pruned {
        assert u in Evict(t.full, t.cutoff);
      } else {
        assert t.pruned == Evict(t.full, t.cutoff);
      }
    case Removed(u) => assert t.pruned == Evict(t.full, t.cutoff);
    case Polled(now) => assert t.pruned == Evict(t.full, t.cutoff);
  }

  function Play(s: State, events: seq<Event>, window: int): State {
    if events == [] then s else Next(Play(s, events[..|events| - 1], window), events[|events| - 1], window)
  }

  ghost predicate GoodRun(s: State, events: seq<Event>, window: int) {
    forall i | 0 <= i < |events| ::
      Monotone(Play(s, events[..i], window), events[i]) && Prompt(Play(s, events[..i], window), events[i], window)
  }

  lemma {:induction false} PlayAgrees(s: State, events: seq<Event>, window: int)
    requires Agree(s, window) && window >= 0 && GoodRun(s, events, window)
    ensures Agree(Play(s, events, window), window)
  {
    if events != [] {
      var n := |events| - 1;
      var init := events[..n];
      forall i | 0 <= i < n ensures init[..i] == events[..i] {}
      PlayAgrees(s, init, window);
      StepAgrees(Play(s, init, window), events[n], window);
    }
  }

  /** No entry was seen after the clock. */
  ghost predicate NotAhead(log: Log, now: int) { forall u <- log :: log[u].seenAt <= now }

  lemma {:induction false} PlayNotAhead(s: State, events: seq<Event>, window: int)
    requires NotAhead(s.pruned, s.clock) && NotAhead(s.full, s.clock)
    requires forall i | 0 <= i < |events| :: Monotone(Play(s, events[..i], window), events[i])
    ensures var t := Play(s, events, window); NotAhead(t.pruned, t.clock) && NotAhead(t.full, t.clock)
  {
    if events != [] {
      var n := |events| - 1;
      var init := events[..n];
      forall i | 0 <= i < n ensures init[..i] == events[..i] && init[i] == events[i] {}
      PlayNotAhead(s, init, window);
    }
  }

  /** With a push interval above 2^62 nanoseconds the cutoff is in the future and nobody is ever reported. */
  lemma HugeIntervalReportsNobody(log: Log, users: map<string, UserInfo>, pushInterval: int, now: int, nodeId: int)
    requires 0x4000_0000_0000_0000 < pushInterval <= MAX_INT64 && NotAhead(log, now)
    ensures Devices(log, users, now - Window(pushInterval), nodeId) == map[]
  {
    WindowIs(pushInterval);
  }

  /** After any run of prompt closes a poll reports the same devices as the log that was never pruned. */
  lemma LazyEvictionInvisible(clock: int, cutoff: int, events: seq<Event>, pushInterval: int, now: int,
                              users: map<string, UserInfo>, nodeId: int)
    requires cutoff <= clock - Window(pushInterval)
    requires GoodRun(State(map[], map[], clock, cutoff), events, Window(pushInterval))
    requires Play(State(map[], map[], clock, cutoff), events, Window(pushInterval)).clock <= now
    ensures var s := Play(State(map[], map[], clock, cutoff), events, Window(pushInterval));
      Devices(s.pruned, users, now - Window(pushInterval), nodeId) == Devices(s.full, users, now - Window(pushInterval), nodeId)
  {
    var s := State(map[], map[], clock, cutoff);
    if Window(pushInterval) >= 0 {
      PlayAgrees(s, events, Window(pushInterval));
    } else {
      PlayNotAhead(s, events, Window(pushInterval));
      var t := Play(s, events, Window(pushInterval));
      assert Devices(t.pruned, users, now - Window(pushInterval), nodeId) == map[];
      assert Devices(t.full, users, now - Window(pushInterval), nodeId) == map[];
    }
  }

  /** A close that comes late: the evicted entry is not refreshed, and the connected user goes unreported. */
  lemma LateCloseHidesUser()
    ensures
      var events := [Seen("u", 0, "ip"), Polled(3 * MINUTE), Closed("u", 3 * MINUTE)];
      var s := Play(State(map[], map[], 0, -3 * MINUTE), events, Window(MINUTE));
      var users := map["u" := UserInfo(7, "u", "", 0, 0)];
      "u" in Devices(s.full, users, MINUTE, 1) && "u" !in Devices(s.pruned, users, MINUTE, 1)
  {
    WindowIs(MINUTE);
    var w := Window(MINUTE);
    var s0 := State(map[], map[], 0, -3 * MINUTE);
    var events := [Seen("u", 0, "ip"), Polled(3 * MINUTE), Closed("u", 3 * MINUTE)];
    assert events[..2] == [Seen("u", 0, "ip"), Polled(3 * MINUTE)] && events[..2][..1] == [Seen("u", 0, "ip")];
    assert events[..2][..1][..0] == [];
    var s1 := Next(s0, events[0], w);
    assert Play(s0, events[..2][..1], w) == s1;
    var s2 := Next(s1, events[1], w);
    assert Play(s0, events[..2], w) == s2 && s2.pruned == map[];
  }

  /**
    A poll reports exactly the current users with an id that were seen within the last two push intervals,
    or two minutes without one, each with the address it was last seen from.
  */
  lemma DevicesAreRecent(log: Log, users: map<string, UserInfo>, pushInterval: int, now: int, nodeId: int, u: string)
    requires pushInterval <= 0x4000_0000_0000_0000
    ensures var devices := Devices(log, users, now - Window(pushInterval), nodeId);
      && (u in devices <==> u in log && u in users && users[u].id != 0
                            && now - log[u].seenAt <= if pushInterval > 0 then 2 * pushInterval else 120_000_000_000)
      && (u in devices ==> devices[u].uid == users[u].id)
      && (u in devices && log[u].ip != "" ==> devices[u].ip == log[u].ip)
      && (u in devices && log[u].ip == "" ==> devices[u].ip == "unknown_" + Itoa(nodeId))
  {
    WindowIs(pushInterval);
    hide Itoa;
  }

  /** A close that finds its entry keeps the user online, from the same address, for a whole window more. */
  lemma CloseRefreshes(s: State, u: string, closing: int, polling: int, pushInterval: int, users: map<string, UserInfo>, nodeId: int)
    requires u in s.pruned && u in users && users[u].id != 0 && polling - closing <= Window(pushInterval)
    ensures var t := Next(s, Closed(u, closing), Window(pushInterval)); var devices := Devices(t.pruned, users, polling - Window(pushInterval), nodeId);
      && u in devices && (s.pruned[u].ip != "" ==> devices[u] == OnlineUser(users[u].id, s.pruned[u].ip))
      && forall v <- s.pruned :: v != u ==> v in t.pruned && t.pruned[v] == s.pruned[v]
  {
    hide Itoa, Window;
  }
}
