/** On a fixed user list the embedded and the external ledger report the same traffic. */
module TwoLedgers {
  import opened Panel
  import opened Accounting
  import opened EmbeddedServer
  import opened ExternalServer
  import opened UserFolds
  import UserSync
  import K = KeyStore
  import R = TwoRebuilds

  ghost predicate DistinctIds(users: map<string, UserInfo>) {
    && (forall u <- users :: u != "" && users[u].uuid == u && users[u].id != 0)
    && (forall u, v | u in users && v in users && users[u].id == users[v].id :: u == v)
  }

  /** Zero counters on one side are missing entries on the other. */
  ghost predicate Matches<C>(s: Server<C>, b: Book) {
    && s.WellFormed() && DistinctIds(s.users)
    && s.users == b.users && s.index == b.index && s.counters.Keys == s.users.Keys
    && (forall u <- s.users :: s.Held(u) == b.At(u).bytes)
    && (forall u <- b.pending :: EntryOf(b, u))
  }

  /** The entry of `u` is that of a current user, under the user's id. */
  ghost predicate EntryOf(b: Book, u: string)
    requires u in b.pending
  {
    u in b.users && b.pending[u].uid == b.users[u].id && b.pending[u].uuid == u
  }

  datatype Op = Traffic(hash: string, upload: int, download: int) | Confirmed(reported: seq<UserTraffic>)

  /** `upload` and `download` bytes on a connection admitted with `hash`. */
  ghost function Charge<C>(s: Server<C>, hash: string, upload: int, download: int): Server<C>
    requires s.WellFormed()
  {
    match Admitted(s, hash)
    case None => s
    case Some(u) =>
      var c := s.counters[u];
      var b := s.store[c].bytes;
      s.(store := s.store[c := s.store[c].(bytes := Bytes(Added(b.up, upload), Added(b.down, download)))])
  }

  ghost predicate Targets(users: map<string, UserInfo>, reported: seq<UserTraffic>, targets: seq<string>) {
    |targets| == |reported| && forall i | 0 <= i < |reported| :: Resolves(users, reported[i], targets[i])
  }

  ghost predicate EmbeddedStep<C>(s: Server<C>, op: Op, t: Server<C>)
    requires s.WellFormed()
  {
    match op
    case Traffic(hash, up, down) => t == Charge(s, hash, up, down)
    case Confirmed(reported) => exists targets :: Targets(s.users, reported, targets) && t == ConfirmAll(s, reported, targets)
  }

  ghost predicate ExternalStep(b: Book, op: Op, c: Book) {
    match op
    case Traffic(hash, up, down) => c == Import(b, EventLine("traffic", hash, "", up, down), 0)
    case Confirmed(reported) => exists targets :: Targets(b.users, reported, targets) && c == SettleAll(b, reported, targets)
  }

  /** Amounts are not negative and no counter reaches 2^63 bytes. */
  ghost predicate Regular<C>(s: Server<C>, op: Op)
    requires s.WellFormed()
  {
    match op
    case Traffic(hash, up, down) =>
      0 <= up && 0 <= down && (Admitted(s, hash).Some? ==>
        var b := s.Held(Admitted(s, hash).value); b.up + up <= MAX_INT64 && b.down + down <= MAX_INT64)
    case Confirmed(reported) => forall t <- reported :: 0 <= t.upload && 0 <= t.download
  }

  /** One counter of a well-formed server takes a new amount. */
  lemma BytesSet<C>(s: Server<C>, u: string, bytes: Bytes)
    requires s.WellFormed() && u in s.counters && bytes.NonNegative()
    ensures var k := s.counters[u]; var t := s.(store := s.store[k := s.store[k].(bytes := bytes)]);
      t.WellFormed() && t.Held(u) == bytes && forall v <- s.counters :: v != u ==> t.Held(v) == s.Held(v)
  {
    assert forall v <- s.counters :: v != u ==> s.store[s.counters[v]].uuid != s.store[s.counters[u]].uuid;
  }

  /** One user's counter and entry change alike. */
  lemma OneUserMatches<C>(s: Server<C>, b: Book, u: string, bytes: Bytes, t: Server<C>, c: Book)
    requires Matches(s, b) && u in s.users && bytes.NonNegative()
    requires var k := s.counters[u]; t == s.(store := s.store[k := s.store[k].(bytes := bytes)])
    requires c == b.(pending := c.pending) && c.At(u).bytes == bytes && c.pending.Keys <= b.pending.Keys + {u}
    requires forall v <- b.pending :: v != u ==> v in c.pending && c.pending[v] == b.pending[v]
    requires u in c.pending ==> EntryOf(c, u)
    ensures Matches(t, c)
  {
    hide Server.WellFormed, Server.Held, DistinctIds, Book.At;
    BytesSet(s, u, bytes);
    forall v <- t.users ensures t.Held(v) == c.At(v).bytes {
      if v != u { OtherEntry(b, c, u, v); }
    }
  }

  lemma OtherEntry(b: Book, c: Book, u: string, v: string)
    requires v != u && c.pending.Keys <= b.pending.Keys + {u}
    requires forall v <- b.pending :: v != u ==> v in c.pending && c.pending[v] == b.pending[v]
    ensures c.At(v) == b.At(v)
  {
  }

  lemma SameOwner<C>(s: Server<C>, b: Book, hash: string)
    requires Matches(s, b)
    ensures Admitted(s, hash) == b.Owner(hash)
    ensures Admitted(s, hash).Some? ==> Admitted(s, hash).value in s.users
  {
    hide Server.WellFormed, Server.Held, Book.At, DistinctIds;
  }

  lemma BothAdd(total: int, n: int)
    requires 0 <= total && 0 <= n && total + n <= MAX_INT64
    ensures Added(total, n) == Wrap64(total + n) == total + n
  {
    hide Wrap64;
  }

  lemma HeldNonNegative<C>(s: Server<C>, u: string)
    requires s.WellFormed()
    ensures s.Held(u).NonNegative()
  {
  }

  /** What Add does to the book, said entry by entry. */
  lemma AddedEntry(b: Book, u: string, upload: int, download: int, bytes: Bytes)
    requires u in b.users && b.users[u].uuid == u
    requires bytes == Bytes(Wrap64(b.At(u).bytes.up + upload), Wrap64(b.At(u).bytes.down + download))
    ensures var c := Add(b, u, upload, download);
      && c == b.(pending := c.pending) && c.pending.Keys == b.pending.Keys + {u} && c.At(u).bytes == bytes && EntryOf(c, u)
      && forall v <- b.pending :: v != u ==> v in c.pending && c.pending[v] == b.pending[v]
  {
    hide Wrap64;
  }

  lemma ImportIs(b: Book, hash: string, up: int, down: int)
    ensures Import(b, EventLine("traffic", hash, "", up, down), 0) ==
            if b.Owner(hash).Some? then Add(b, b.Owner(hash).value, up, down) else b
  {
    hide Add, Wrap64;
  }

  lemma ChargeIs<C>(s: Server<C>, hash: string, up: int, down: int, u: string, bytes: Bytes)
    requires s.WellFormed() && Admitted(s, hash) == Some(u) && u in s.users
    requires bytes == Bytes(Added(s.Held(u).up, up), Added(s.Held(u).down, down))
    ensures u in s.counters && s.counters[u] in s.store
    ensures var k := s.counters[u]; Charge(s, hash, up, down) == s.(store := s.store[k := s.store[k].(bytes := bytes)])
  {
    hide Added, Admitted;
    OwnUuid(s, u);
  }

  lemma TrafficMatches<C>(s: Server<C>, b: Book, hash: string, up: int, down: int)
    requires Matches(s, b) && Regular(s, Traffic(hash, up, down))
    ensures Matches(Charge(s, hash, up, down), Import(b, EventLine("traffic", hash, "", up, down), 0))
  {
    SameOwner(s, b, hash);
    ImportIs(b, hash, up, down);
    if Admitted(s, hash).Some? {
      var u := Admitted(s, hash).value;
      HeldNonNegative(s, u);
      hide Server.WellFormed, Server.Held, Book.At, Import, Add, Charge, Added, Admitted, Wrap64, Matches, DistinctIds;
      var had := s.Held(u);
      BothAdd(had.up, up);
      BothAdd(had.down, down);
      var bytes := Bytes(had.up + up, had.down + down);
      ChargeIs(s, hash, up, down, u, bytes);
      ChargeMatches(s, b, u, up, down, bytes);
    }
  }

  lemma ChargeMatches<C>(s: Server<C>, b: Book, u: string, up: int, down: int, bytes: Bytes)
    requires Matches(s, b) && u in s.users && bytes.NonNegative()
    requires bytes == Bytes(Wrap64(s.Held(u).up + up), Wrap64(s.Held(u).down + down))
    ensures var k := s.counters[u];
      Matches(s.(store := s.store[k := s.store[k].(bytes := bytes)]), Add(b, u, up, down))
  {
    OwnUuid(s, u);
    hide Server.WellFormed, Server.Held, Book.At, Add, Wrap64;
    AddedEntry(b, u, up, down, bytes);
    var k := s.counters[u];
    OneUserMatches(s, b, u, bytes, s.(store := s.store[k := s.store[k].(bytes := bytes)]), Add(b, u, up, down));
  }

  lemma OwnUuid<C>(s: Server<C>, u: string)
    requires s.WellFormed() && u in s.users
    ensures s.users[u].uuid == u && u in s.counters && s.counters[u] in s.store && s.store[s.counters[u]].bytes == s.Held(u)
  {
  }

  /** What Settle does to the book, said entry by entry. */
  lemma SettledEntry(b: Book, u: string, take: Bytes, bytes: Bytes)
    requires u in b.users && take.NonNegative() && bytes == Subtract(b.At(u).bytes, take) && (u in b.pending ==> EntryOf(b, u))
    ensures var c := Settle(b, u, take);
      && c == b.(pending := c.pending) && c.pending.Keys <= b.pending.Keys + {u} && c.At(u).bytes == bytes
      && (u in c.pending ==> u in b.pending && EntryOf(c, u))
      && forall v <- b.pending :: v != u ==> v in c.pending && c.pending[v] == b.pending[v]
  {
  }

  lemma LineMatches<C>(s: Server<C>, b: Book, target: string, take: Bytes)
    requires Matches(s, b) && take.NonNegative()
    ensures Matches(Confirm(s, target, take), Settle(b, target, take))
  {
    if target in s.users {
      HeldNonNegative(s, target);
      OwnUuid(s, target);
      LineOfUser(s, b, target, take, Subtract(s.Held(target), take));
    } else {
      NoLine(s, b, target, take);
    }
  }

  lemma LineOfUser<C>(s: Server<C>, b: Book, u: string, take: Bytes, bytes: Bytes)
    requires Matches(s, b) && u in s.users && take.NonNegative() && bytes.NonNegative() && bytes == Subtract(s.Held(u), take)
    ensures var k := s.counters[u];
      Matches(s.(store := s.store[k := s.store[k].(bytes := bytes)]), Settle(b, u, take))
  {
    OwnUuid(s, u);
    hide Server.WellFormed, Server.Held, Book.At, Settle, Subtract;
    SettledEntry(b, u, take, bytes);
    var k := s.counters[u];
    OneUserMatches(s, b, u, bytes, s.(store := s.store[k := s.store[k].(bytes := bytes)]), Settle(b, u, take));
  }

  lemma NoLine<C>(s: Server<C>, b: Book, target: string, take: Bytes)
    requires Matches(s, b) && take.NonNegative() && target !in s.users
    ensures Confirm(s, target, take) == s && Settle(b, target, take) == b
  {
    hide Server.WellFormed, Server.Held, DistinctIds;
    assert target !in b.pending;
    assert b.pending - {target} == b.pending;
  }

  lemma {:induction false} ConfirmMatches<C>(s: Server<C>, b: Book, reported: seq<UserTraffic>, targets: seq<string>)
    requires Matches(s, b) && |targets| == |reported| && forall t <- reported :: 0 <= t.upload && 0 <= t.download
    ensures Matches(ConfirmAll(s, reported, targets), SettleAll(b, reported, targets))
  {
    if reported != [] {
      var n := |reported| - 1;
      ConfirmMatches(s, b, reported[..n], targets[..n]);
      assert reported[n] in reported;
      LineMatches(ConfirmAll(s, reported[..n], targets[..n]), SettleAll(b, reported[..n], targets[..n]), targets[n],
                  Bytes(reported[n].upload, reported[n].download));
    }
  }

  /** With distinct ids both servers resolve a line to the same user. */
  lemma TargetsUnique(users: map<string, UserInfo>, reported: seq<UserTraffic>, a: seq<string>, b: seq<string>)
    requires DistinctIds(users) && Targets(users, reported, a) && Targets(users, reported, b)
    ensures a == b
  {
    forall i | 0 <= i < |a| ensures a[i] == b[i] {
      assert Resolves(users, reported[i], a[i]) && Resolves(users, reported[i], b[i]);
    }
  }

  lemma StepMatches<C>(s: Server<C>, b: Book, op: Op, t: Server<C>, c: Book)
    requires Matches(s, b) && Regular(s, op) && EmbeddedStep(s, op, t) && ExternalStep(b, op, c)
    ensures Matches(t, c)
  {
    match op
    case Traffic(hash, up, down) => TrafficMatches(s, b, hash, up, down);
    case Confirmed(reported) =>
      var ts :| Targets(s.users, reported, ts) && t == ConfirmAll(s, reported, ts);
      var tc :| Targets(b.users, reported, tc) && c == SettleAll(b, reported, tc);
      TargetsUnique(s.users, reported, ts, tc);
      ConfirmMatches(s, b, reported, ts);
  }

  // ---- slices ----

  ghost predicate StrictByUid(a: seq<UserTraffic>) {
    forall i, j | 0 <= i < j < |a| :: a[i].uid < a[j].uid
  }

  /** Sorted lines without a repeated uid are determined by what they contain. */
  lemma {:induction false} StrictUnique(a: seq<UserTraffic>, b: seq<UserTraffic>)
    requires StrictByUid(a) && StrictByUid(b) && forall t :: t in a <==> t in b
    ensures a == b
  {
    assert (a != [] ==> a[0] in b) && (b != [] ==> b[0] in a);
    if a != [] {
      assert a[0].uid == b[0].uid && a[0] == b[0];
      assert a == [a[0]] + a[1..] && b == [b[0]] + b[1..];
      forall t ensures t in a[1..] <==> t in b[1..] {
        assert t in a[1..] ==> t in a && t != a[0];
        assert t in b[1..] ==> t in b && t != b[0];
      }
      StrictUnique(a[1..], b[1..]);
    }
  }

  lemma NoRepeats(a: seq<UserTraffic>, i: nat, j: nat)
    requires i < j < |a| && multiset(a)[a[i]] == 1
    ensures a[i] != a[j]
  {
    assert a == a[..j] + a[j..];
    assert a[i] in a[..j] && a[j] in a[j..];
    assert multiset(a) == multiset(a[..j]) + multiset(a[j..]);
    assert multiset(a[..j])[a[i]] >= 1 && multiset(a[j..])[a[j]] >= 1;
  }

  ghost function Reports<C>(s: Server<C>, threshold: int): set<string>
    requires s.Linked()
  {
    set u | u in s.counters && Reportable(s, u, threshold)
  }

  /** The embedded slice: the lines of `Reports`, strictly ordered. */
  lemma EmbeddedSlice<C>(s: Server<C>, b: Book, threshold: int, a: seq<UserTraffic>)
    requires Matches(s, b) && IsSlice(s, threshold, a) && SortedByUid(a)
    ensures StrictByUid(a)
    ensures forall t :: t in a <==> t.uuid in Reports(s, threshold) && t == TrafficOf(s, t.uuid)
  {
    forall i, j | 0 <= i < j < |a| ensures a[i].uid < a[j].uid {
      assert a[i] in a && a[j] in a;
      NoRepeats(a, i, j);
    }
    forall u | u in Reports(s, threshold) ensures TrafficOf(s, u) in a {
      assert TrafficOf(s, u) in multiset(a);
    }
  }

  lemma KeyOfLine<C>(s: Server<C>, b: Book, threshold: int, t: UserTraffic)
    requires Matches(s, b)
    ensures KeysOfLine(b.pending, DueKeys(b, threshold), t) ==
            if t.uuid in DueKeys(b, threshold) && t == TrafficOf(s, t.uuid) then {t.uuid} else {}
  {
  }

  /** The external slice: the lines of `DueKeys`, strictly ordered. */
  lemma ExternalSlice<C>(s: Server<C>, b: Book, threshold: int, a: seq<UserTraffic>)
    requires Matches(s, b) && IsBookSlice(b, threshold, a) && SortedByUid(a)
    ensures StrictByUid(a)
    ensures forall t :: t in a <==> t.uuid in DueKeys(b, threshold) && t == TrafficOf(s, t.uuid)
  {
    forall t ensures multiset(a)[t] == if t.uuid in DueKeys(b, threshold) && t == TrafficOf(s, t.uuid) then 1 else 0 {
      KeyOfLine(s, b, threshold, t);
    }
    forall t ensures t in a <==> t.uuid in DueKeys(b, threshold) && t == TrafficOf(s, t.uuid) {
      assert t in a <==> t in multiset(a);
    }
    forall i, j | 0 <= i < j < |a| ensures a[i].uid < a[j].uid {
      assert a[i] in a && a[j] in a;
      NoRepeats(a, i, j);
    }
  }

  /** Which users each side lists. */
  lemma DueAgree<C>(s: Server<C>, b: Book, threshold: int)
    requires Matches(s, b)
    ensures DueKeys(b, threshold) <= Reports(s, threshold)
    ensures DueKeys(b, threshold) == Reports(s, threshold) <==> threshold >= 0 || b.pending.Keys == s.users.Keys
  {
    if threshold < 0 && b.pending.Keys != s.users.Keys {
      var u :| u in s.users && u !in b.pending;
      assert u in Reports(s, threshold);
    }
  }

  /** The two slices are the same sequence exactly when the threshold is not negative or every user has an entry. */
  lemma SlicesAgree<C>(s: Server<C>, b: Book, threshold: int, a: seq<UserTraffic>, c: seq<UserTraffic>)
    requires Matches(s, b) && SortedByUid(a) && SortedByUid(c)
    requires IsSlice(s, threshold, a) && IsBookSlice(b, threshold, c)
    ensures a == c <==> threshold >= 0 || b.pending.Keys == s.users.Keys
  {
    EmbeddedSlice(s, b, threshold, a);
    ExternalSlice(s, b, threshold, c);
    DueAgree(s, b, threshold);
    if DueKeys(b, threshold) == Reports(s, threshold) {
      StrictUnique(a, c);
    } else {
      var u :| u in Reports(s, threshold) && u !in DueKeys(b, threshold);
      assert TrafficOf(s, u) in a && TrafficOf(s, u) !in c;
    }
  }

  // ---- two servers built from one list ----

  /**
    What the two servers are built from: the list, the counters the embedded one makes, and for each
    server the rebuild in which the key store answered for its users, with any calls between the two.
  */
  datatype Launch<C> = Launch(list: seq<UserInfo>, alloc: map<string, C>, cfg: K.Config, crypto: K.Crypto, node: K.Node,
                              w: K.World, was: K.Store, now: K.Store, out: seq<UserKey>, between: seq<K.Call>,
                              w2: K.World, was2: K.Store, now2: K.Store, out2: seq<UserKey>)

  const EMPTY_BOOK := Book(map[], map[], map[], map[])

  function EmptyServer<C>(): Server<C> { Server(map[], map[], map[], map[], map[]) }

  /** The list has distinct non-zero ids, and both servers were built from it. */
  ghost predicate Launchable<C>(l: Launch<C>) {
    && DistinctIds(UsersOf(l.list)) && Covered(EmptyServer<C>(), l.list, l.alloc) && Fresh(EmptyServer<C>(), l.alloc)
    && K.Rebuilds(l.cfg, l.crypto, l.node, l.w, UsersOf(l.list), l.was, l.now, Some(l.out))
    && K.Rebuilds(l.cfg, l.crypto, l.node, l.w2, UsersOf(l.list), l.was2, l.now2, Some(l.out2))
    && R.Continues(l.cfg, l.crypto, l.was, l.w, l.now, l.between, l.w2, l.was2)
  }

  ghost function LaunchedServer<C>(l: Launch<C>): Server<C>
    requires Launchable(l)
  {
    EmptyOk<C>();
    Reindex(Replace(EmptyServer<C>(), l.list, l.alloc), Some(IndexOf(l.out)))
  }

  lemma EmptyOk<C>()
    ensures EmptyServer<C>().WellFormed()
  {
  }

  function LaunchedBook<C>(l: Launch<C>): Book { EMPTY_BOOK.(users := UsersOf(l.list), index := ExternalIndex(l.out2)) }

  /** The two rebuilds differ only on mappings with an empty hash or uuid. */
  lemma {:induction false} SameIndexing(keys: seq<UserKey>)
    requires forall k <- keys :: k.userHash != "" && k.uuid != ""
    ensures ExternalIndex(keys) == IndexOf(keys)
  {
    if keys != [] {
      var n := |keys| - 1;
      forall k <- keys[..n] ensures k in keys {}
      SameIndexing(keys[..n]);
      assert keys[n] in keys;
    }
  }

  lemma BuiltUsable(crypto: K.Crypto, users: seq<UserInfo>, keys: seq<string>, out: seq<UserKey>)
    requires |users| == |keys| && K.Built(crypto, users, keys, out)
    ensures forall k <- out :: k.userHash != "" && k.uuid != ""
  {
    forall k <- out ensures k.userHash != "" && k.uuid != "" {
      K.BuiltMember(crypto, users, keys, out, k);
      var i: nat :| K.IsMapping(crypto, users, keys, k, i);
      assert users[i] in users;
    }
  }

  lemma SameLaunchIndex<C>(l: Launch<C>)
    requires Launchable(l)
    ensures IndexOf(l.out) == ExternalIndex(l.out2)
  {
    assert R.DistinctUserIds(UsersOf(l.list)) && "" !in UsersOf(l.list);
    hide UsersOf, IndexOf, ExternalIndex, DistinctIds, K.Rebuilds, K.Built, R.Continues, R.DistinctUserIds;
    R.RebuildsSameIndex(l.cfg, l.crypto, l.node, UsersOf(l.list), l.w, l.was, l.now, l.out, l.between, l.w2, l.was2, l.now2, l.out2);
    var users, keys := K.RebuiltKeys(l.cfg, l.crypto, l.node, l.w2, UsersOf(l.list), l.was2, l.now2, l.out2);
    BuiltUsable(l.crypto, users, keys, l.out2);
    SameIndexing(l.out2);
  }

  /** The embedded server right after its first replacement. */
  lemma FirstReplace<C>(list: seq<UserInfo>, alloc: map<string, C>)
    requires EmptyServer<C>().WellFormed() && Covered(EmptyServer<C>(), list, alloc) && Fresh(EmptyServer<C>(), alloc)
    ensures var t := Replace(EmptyServer<C>(), list, alloc);
      && t.WellFormed() && t.users == UsersOf(list) && t.counters.Keys == t.users.Keys && forall u :: t.Held(u) == ZERO
  {
    UsersOfKeys(list);
    ReplaceIs(EmptyServer<C>(), list, alloc);
    NothingHeld(Replace(EmptyServer<C>(), list, alloc));
    hide UsersOf, Replace, UserSync.Uuids, Fresh, Covered, Preserves;
  }

  lemma IndexedStart<C>(t: Server<C>, index: map<string, string>)
    requires t.WellFormed() && DistinctIds(t.users) && t.counters.Keys == t.users.Keys && forall u :: t.Held(u) == ZERO
    ensures Matches(Reindex(t, Some(index)), EMPTY_BOOK.(users := t.users, index := index))
  {
    hide DistinctIds;
    var s := Reindex(t, Some(index));
    assert s.WellFormed();
    forall u <- s.users ensures s.Held(u) == ZERO { assert t.Held(u) == ZERO; }
  }

  /** Built from one list, the two servers match: same users, same index, nothing counted. */
  lemma LaunchMatches<C>(l: Launch<C>)
    requires Launchable(l)
    ensures Matches(LaunchedServer(l), LaunchedBook(l))
  {
    EmptyOk<C>();
    SameLaunchIndex(l);
    FirstReplace(l.list, l.alloc);
    hide UsersOf, IndexOf, ExternalIndex, DistinctIds, Replace, Matches, Reindex, Server.WellFormed, Server.Held;
    IndexedStart(Replace(EmptyServer<C>(), l.list, l.alloc), IndexOf(l.out));
  }

  lemma NothingHeld<C>(t: Server<C>)
    requires t.WellFormed() && Preserves(EmptyServer<C>(), t)
    ensures forall u :: t.Held(u) == ZERO
  {
  }

  // ---- runs ----

  /** A run of both servers, built from one list, over the same operations. */
  ghost predicate Trace<C(!new)>(l: Launch<C>, ss: seq<Server<C>>, bs: seq<Book>, ops: seq<Op>) {
    && Launchable(l) && |ss| == |bs| == |ops| + 1 && ss[0] == LaunchedServer(l) && bs[0] == LaunchedBook(l)
    && forall i | 0 <= i < |ops| ::
         && ss[i].WellFormed() && Regular(ss[i], ops[i])
         && EmbeddedStep(ss[i], ops[i], ss[i + 1]) && ExternalStep(bs[i], ops[i], bs[i + 1])
  }

  /** After every step of every run the two servers match. */
  lemma {:induction false} RunMatches<C(!new)>(l: Launch<C>, ss: seq<Server<C>>, bs: seq<Book>, ops: seq<Op>, i: nat)
    requires Trace(l, ss, bs, ops) && i < |ss|
    ensures Matches(ss[i], bs[i])
  {
    hide Launchable, Matches, Regular, EmbeddedStep, ExternalStep;
    if i == 0 {
      LaunchMatches(l);
    } else {
      RunMatches(l, ss, bs, ops, i - 1);
      StepMatches(ss[i - 1], bs[i - 1], ops[i - 1], ss[i], bs[i]);
    }
  }

  /** And both return the same slice for every non-negative threshold. */
  lemma LedgersAgree<C(!new)>(l: Launch<C>, ss: seq<Server<C>>, bs: seq<Book>, ops: seq<Op>, i: nat)
    requires Trace(l, ss, bs, ops) && i < |ss|
    ensures Matches(ss[i], bs[i])
    ensures forall threshold, a, c ::
      threshold >= 0 && IsSlice(ss[i], threshold, a) && IsBookSlice(bs[i], threshold, c) && SortedByUid(a) && SortedByUid(c)
      ==> a == c
  {
    RunMatches(l, ss, bs, ops, i);
    hide Trace, IsSlice, IsBookSlice, SortedByUid, DistinctIds;
    forall threshold, a, c |
      threshold >= 0 && IsSlice(ss[i], threshold, a) && IsBookSlice(bs[i], threshold, c) && SortedByUid(a) && SortedByUid(c)
      ensures a == c
    {
      SlicesAgree(ss[i], bs[i], threshold, a, c);
    }
  }
}
