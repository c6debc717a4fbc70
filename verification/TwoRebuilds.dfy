/** Two rebuilds of the hash index for the same users resolve the same keys (internal/runtime/key_store.go). */
module TwoRebuilds {
  import opened Panel
  import opened Accounting
  import opened KeyStore
  import opened Scalars
  import opened Text
  import UserSync

  /** Without a key file a successful rebuild resolved every key from its user alone. */
  lemma RebuiltStateless(cfg: Config, crypto: Crypto, node: Node, users: seq<UserInfo>, w: World, was: Store, now: Store, keys: seq<string>)
    requires !FileBacked(SourceOf(cfg.source)) && Build(cfg, crypto, was, CallOf(node, users, w)) == (now, Done(keys))
    ensures StatelessKeys(cfg, crypto, node, users, keys)
  {
    hide Scan, SourceOf, StatelessKeys;
    ScanStateless(cfg, crypto, node, was.table, users, CallOf(node, users, w).draws);
  }

  /** The keys are what the table holds for the users, trimmed. */
  ghost predicate TableKeys(t: Table, users: seq<UserInfo>, keys: seq<string>) {
    |keys| == |users| && forall i | 0 <= i < |keys| :: keys[i] == TrimSpace(At(t, users[i].id))
  }

  /** A file is only read. */
  lemma {:induction false} ScanFile(cfg: Config, crypto: Crypto, node: Node, t: Table, users: seq<UserInfo>, draws: seq<KeyResult>)
    requires |users| == |draws| && SourceOf(cfg.source) == File
    ensures var p := Scan(cfg, crypto, node, t, users, draws); p.table == t && (!p.failed ==> TableKeys(t, users, p.keys))
  {
    if users != [] {
      var n := |users| - 1;
      ScanFile(cfg, crypto, node, t, users[..n], draws[..n]);
      var p := Scan(cfg, crypto, node, t, users[..n], draws[..n]);
      if !p.failed {
        StepFile(cfg, crypto, node, p, users[n], draws[n]);
        TableKeysMore(t, users, p.keys, TrimSpace(At(t, users[n].id)));
      }
    }
  }

  lemma StepFile(cfg: Config, crypto: Crypto, node: Node, p: Progress, user: UserInfo, draw: KeyResult)
    requires SourceOf(cfg.source) == File && !p.failed
    ensures Step(cfg, crypto, node, p, user, draw) == p.(keys := p.keys + [TrimSpace(At(p.table, user.id))])
  {
    hide SourceOf, Itoa;
    assert TrimSpace("") == "";
  }

  lemma TableKeysMore(t: Table, users: seq<UserInfo>, keys: seq<string>, key: string)
    requires |users| == |keys| + 1 && TableKeys(t, users[..|keys|], keys) && key == TrimSpace(At(t, users[|keys|].id))
    ensures TableKeys(t, users, keys + [key])
  {
    hide TrimSpace, Itoa;
    forall i | 0 <= i < |keys| ensures users[..|keys|][i] == users[i] {}
  }

  /** A source that generates keys leaves no user without one. */
  lemma {:induction false} ScanAuto(cfg: Config, crypto: Crypto, node: Node, t: Table, users: seq<UserInfo>, draws: seq<KeyResult>)
    requires |users| == |draws| && SourceOf(cfg.source) == Auto && CleanDraws(draws) && !Scan(cfg, crypto, node, t, users, draws).failed
    ensures forall key <- Scan(cfg, crypto, node, t, users, draws).keys :: key != ""
  {
    hide SourceOf, Itoa, TrimSpace;
    if users != [] {
      var n := |users| - 1;
      forall d <- draws[..n] ensures d in draws {}
      assert draws[n] in draws;
      ScanAuto(cfg, crypto, node, t, users[..n], draws[..n]);
    }
  }

  /** After a successful scan over a key file the table holds exactly the keys handed out. */
  lemma ScanTableKeys(cfg: Config, crypto: Crypto, node: Node, t: Table, users: seq<UserInfo>, draws: seq<KeyResult>)
    requires |users| == |draws| && FileBacked(SourceOf(cfg.source)) && NoBlank(t) && CleanDraws(draws)
    requires !Scan(cfg, crypto, node, t, users, draws).failed
    ensures var p := Scan(cfg, crypto, node, t, users, draws);
      TableKeys(p.table, users, p.keys) && (SourceOf(cfg.source) == Auto ==> forall key <- p.keys :: key != "")
  {
    hide Scan, SourceOf, Itoa, TrimSpace, NoBlank, CleanDraws;
    if SourceOf(cfg.source) == File {
      ScanFile(cfg, crypto, node, t, users, draws);
    } else {
      ScanTable(cfg, crypto, node, t, users, draws);
      ScanAuto(cfg, crypto, node, t, users, draws);
      var keys := Scan(cfg, crypto, node, t, users, draws).keys;
      assert forall i | 0 <= i < |keys| :: keys[i] in keys;
    }
  }

  /** `t` was left by a rebuild for `users`; nothing a later rebuild does changes what it says about them. */
  ghost predicate SameEntries(t: Table, u: Table, users: seq<UserInfo>) {
    forall user <- users :: At(u, user.id) == At(t, user.id)
  }

  ghost predicate CleanWorld(w: World) {
    forall n :: w.draw(n).Key? ==> w.draw(n).value != "" && TrimSpace(w.draw(n).value) == w.draw(n).value
  }

  lemma CleanCall(node: Node, users: seq<UserInfo>, w: World)
    requires CleanWorld(w)
    ensures CleanDraws(CallOf(node, users, w).draws)
  {
    hide TrimSpace;
  }

  /**
    How two rebuilds hang together where a key file is involved: the second comes from the store the first
    one left, after any other calls, failed ones included, under the conditions that make keys sticky; or
    the file is only read and both are alternatives from one store.
  */
  ghost predicate Continues(cfg: Config, crypto: Crypto, was: Store, w: World, now: Store, between: seq<Call>, w2: World, was2: Store) {
    FileBacked(SourceOf(cfg.source)) ==>
      && CleanStore(was) && CleanWorld(w) && CleanWorld(w2) && CleanCalls(between)
      && (was2 == After(cfg, crypto, now, between) || (SourceOf(cfg.source) == File && was2 == was))
  }

  /** A successful rebuild over a key file leaves a table with its keys. */
  lemma RebuiltTable(cfg: Config, crypto: Crypto, node: Node, users: seq<UserInfo>, w: World, was: Store, now: Store, keys: seq<string>)
    requires FileBacked(SourceOf(cfg.source)) && CleanStore(was) && CleanWorld(w)
    requires Build(cfg, crypto, was, CallOf(node, users, w)) == (now, Done(keys))
    ensures now.loaded && CleanStore(now) && TableKeys(now.table, users, keys)
    ensures SourceOf(cfg.source) == Auto ==> forall key <- keys :: key != ""
    ensures was.loaded ==> Keeps(was.table, now.table)
    ensures SourceOf(cfg.source) == File ==> now.table == if was.loaded then was.table else OnDisk(was.disk)
  {
    CleanCall(node, users, w);
    var c := CallOf(node, users, w);
    BuildKeeps(cfg, crypto, was, c);
    hide Scan, SourceOf, TableKeys, Keeps, CleanDraws, NoBlank;
    var (s1, ok) := Load(was, c.readable);
    LoadClean(was, c.readable);
    ScanTableKeys(cfg, crypto, node, s1.table, users, c.draws);
    if SourceOf(cfg.source) == File { ScanFile(cfg, crypto, node, s1.table, users, c.draws); }
  }

  lemma LoadClean(s: Store, readable: bool)
    requires CleanStore(s)
    ensures NoBlank(Load(s, readable).0.table)
    ensures Load(s, readable).1 ==> Load(s, readable).0.table == if s.loaded then s.table else OnDisk(s.disk)
  {
  }

  lemma {:induction false} AfterFile(cfg: Config, crypto: Crypto, s: Store, calls: seq<Call>)
    requires SourceOf(cfg.source) == File && s.loaded && forall c <- calls :: |c.users| == |c.draws|
    ensures After(cfg, crypto, s, calls).table == s.table && After(cfg, crypto, s, calls).loaded
  {
    hide SourceOf, Scan;
    if calls != [] {
      var n := |calls| - 1;
      forall c <- calls[..n] ensures c in calls {}
      assert calls[n] in calls;
      AfterFile(cfg, crypto, s, calls[..n]);
      var t := After(cfg, crypto, s, calls[..n]);
      ScanFile(cfg, crypto, calls[n].node, t.table, calls[n].users, calls[n].draws);
    }
  }

  lemma KeptEntries(t: Table, u: Table, users: seq<UserInfo>, keys: seq<string>)
    requires TableKeys(t, users, keys) && Keeps(t, u) && forall key <- keys :: key != ""
    ensures SameEntries(t, u, users)
  {
    assert TrimSpace("") == "";
    forall user <- users ensures At(u, user.id) == At(t, user.id) {
      var i :| 0 <= i < |users| && users[i] == user;
      assert keys[i] in keys;
    }
  }

  lemma TablePaired(t: Table, u: Table, users: seq<UserInfo>, keys: seq<string>, users2: seq<UserInfo>, keys2: seq<string>)
    requires TableKeys(t, users, keys) && TableKeys(u, users2, keys2) && (SameEntries(t, u, users) || SameEntries(u, t, users))
    requires forall user <- users :: user in users2
    ensures PairedIn(users, keys, users2, keys2)
  {
    hide TrimSpace, Itoa;
    forall i: nat | i < |users| ensures HasTwin(users, keys, users2, keys2, i) {
      assert users[i] in users;
      var j :| 0 <= j < |users2| && users2[j] == users[i];
      assert Twin(users, keys, users2, keys2, i, j);
    }
  }

  lemma SameUsers(users: seq<UserInfo>, users2: seq<UserInfo>, m: map<string, UserInfo>)
    requires UserSync.Enumerates(users, m) && UserSync.Enumerates(users2, m)
    ensures forall u :: u in users <==> u in users2
  {
    forall u | u in users ensures u in users2 {
      assert u.uuid in UserSync.Uuids(users) && u.uuid in UserSync.Uuids(users2);
    }
    forall u | u in users2 ensures u in users {
      assert u.uuid in UserSync.Uuids(users2) && u.uuid in UserSync.Uuids(users);
    }
  }

  /** Over a key file the second rebuild's table says of the users what the first one's did. */
  lemma TablesAgree(cfg: Config, crypto: Crypto, node: Node, users: seq<UserInfo>, users2: seq<UserInfo>, w: World, was: Store, now: Store,
                    keys: seq<string>, between: seq<Call>, w2: World, was2: Store, now2: Store, keys2: seq<string>)
    requires FileBacked(SourceOf(cfg.source)) && Continues(cfg, crypto, was, w, now, between, w2, was2)
    requires Build(cfg, crypto, was, CallOf(node, users, w)) == (now, Done(keys))
    requires Build(cfg, crypto, was2, CallOf(node, users2, w2)) == (now2, Done(keys2))
    ensures TableKeys(now.table, users, keys) && TableKeys(now2.table, users2, keys2) && SameEntries(now.table, now2.table, users)
  {
    hide Build, SourceOf, After, TableKeys, Keeps, CleanStore, CleanWorld, SameEntries, CleanCalls, OnDisk;
    RebuiltTable(cfg, crypto, node, users, w, was, now, keys);
    AfterKeeps(cfg, crypto, now, between);
    RebuiltTable(cfg, crypto, node, users2, w2, was2, now2, keys2);
    if SourceOf(cfg.source) == Auto {
      KeepsTransitive(now.table, was2.table, now2.table);
      KeptEntries(now.table, now2.table, users, keys);
    } else {
      Counts(between);
      AfterFile(cfg, crypto, now, between);
      Unchanged(now.table, users);
      assert now2.table == now.table;
    }
  }

  lemma Counts(calls: seq<Call>)
    requires CleanCalls(calls)
    ensures forall c <- calls :: |c.users| == |c.draws|
  {
  }

  lemma Unchanged(t: Table, users: seq<UserInfo>)
    ensures SameEntries(t, t, users)
  {
  }

  /** Whatever the source and the order of the users: both rebuilds resolve the same key for every user. */
  lemma RebuildsPaired(cfg: Config, crypto: Crypto, node: Node, m: map<string, UserInfo>, w: World, was: Store, now: Store, out: seq<UserKey>,
                       between: seq<Call>, w2: World, was2: Store, now2: Store, out2: seq<UserKey>)
      returns (users: seq<UserInfo>, keys: seq<string>, users2: seq<UserInfo>, keys2: seq<string>)
    requires Rebuilds(cfg, crypto, node, w, m, was, now, Some(out)) && Rebuilds(cfg, crypto, node, w2, m, was2, now2, Some(out2)) && "" !in m
    requires Continues(cfg, crypto, was, w, now, between, w2, was2)
    ensures |users| == |keys| && |users2| == |keys2| && UserSync.Enumerates(users, m) && UserSync.Enumerates(users2, m)
    ensures Built(crypto, users, keys, out) && Built(crypto, users2, keys2, out2)
    ensures PairedIn(users, keys, users2, keys2) && PairedIn(users2, keys2, users, keys)
  {
    users, keys := RebuiltKeys(cfg, crypto, node, w, m, was, now, out);
    users2, keys2 := RebuiltKeys(cfg, crypto, node, w2, m, was2, now2, out2);
    SameUsers(users, users2, m);
    hide Build, SourceOf, Continues, Rebuilds, Built, PairedIn, StatelessKeys, TableKeys, UserSync.Enumerates;
    if FileBacked(SourceOf(cfg.source)) {
      TablesAgree(cfg, crypto, node, users, users2, w, was, now, keys, between, w2, was2, now2, keys2);
      TablePaired(now.table, now2.table, users, keys, users2, keys2);
      TablePaired(now2.table, now.table, users2, keys2, users, keys);
    } else {
      RebuiltStateless(cfg, crypto, node, users, w, was, now, keys);
      RebuiltStateless(cfg, crypto, node, users2, w2, was2, now2, keys2);
      StatelessPaired(cfg, crypto, node, users, keys, users2, keys2);
      StatelessPaired(cfg, crypto, node, users2, keys2, users, keys);
    }
  }

  ghost predicate DistinctUserIds(m: map<string, UserInfo>) {
    forall u, v | u in m && v in m && m[u].id == m[v].id :: u == v
  }

  lemma EnumeratedIds(users: seq<UserInfo>, m: map<string, UserInfo>)
    requires UserSync.Enumerates(users, m) && DistinctUserIds(m)
    ensures SameIdSameUser(users)
  {
    forall i, j | 0 <= i < |users| && 0 <= j < |users| && users[i].id == users[j].id ensures users[i] == users[j] {
      assert users[i] in users && users[j] in users;
    }
  }

  /**
    With distinct ids two rebuilds for the same users give the same index, whatever order the user map
    yields them in and however the sort breaks ties.
  */
  lemma RebuildsSameIndex(cfg: Config, crypto: Crypto, node: Node, m: map<string, UserInfo>, w: World, was: Store, now: Store, out: seq<UserKey>,
                          between: seq<Call>, w2: World, was2: Store, now2: Store, out2: seq<UserKey>)
    requires Rebuilds(cfg, crypto, node, w, m, was, now, Some(out)) && Rebuilds(cfg, crypto, node, w2, m, was2, now2, Some(out2)) && "" !in m
    requires Continues(cfg, crypto, was, w, now, between, w2, was2) && DistinctUserIds(m)
    ensures IndexOf(out) == IndexOf(out2)
  {
    hide Rebuilds, Continues, Built, PairedIn, DistinctUserIds, UserSync.Enumerates, SameIdSameUser, IndexOf;
    var users, keys, users2, keys2 := RebuildsPaired(cfg, crypto, node, m, w, was, now, out, between, w2, was2, now2, out2);
    EnumeratedIds(users, m);
    EnumeratedIds(users2, m);
    PairedSameIndex(crypto, users, keys, out, users2, keys2, out2);
  }
}
