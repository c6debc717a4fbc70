/** The traffic counters and user tables of the embedded server, updated in place. */
module EmbeddedServer {
  import opened Panel
  import opened Accounting
  import opened Online
  import opened Sorting
  import opened Text
  import K = KeyStore
  import UserFolds
  import UserSync

  /** internal/runtime/counting.go */
  class TrafficCounter {
    var uid: int
    var uuid: string
    var up: int
    var down: int

    ghost function Value(): Counter
      reads this
    {
      Counter(uid, uuid, Bytes(up, down))
    }

    constructor (uid: int, uuid: string)
      ensures Value() == Counter(uid, uuid, ZERO)
    {
      this.uid, this.uuid := uid, uuid;
      up, down := 0, 0;
    }

    method SetOwner(uid: int, uuid: string)
      modifies this`uid, this`uuid
      ensures Value() == Counter(uid, uuid, old(Value()).bytes)
    {
      this.uid, this.uuid := uid, uuid;
    }

    method AddUpload(n: int)
      modifies this`up
      ensures up == Added(old(up), n)
    {
      if n <= 0 { return; }
      up := Wrap64(up + n);
    }

    method AddDownload(n: int)
      modifies this`down
      ensures down == Added(old(down), n)
    {
      if n <= 0 { return; }
      down := Wrap64(down + n);
    }

    method Snapshot() returns (u: int, d: int)
      ensures Bytes(u, d) == Value().bytes
    {
      u, d := up, down;
    }

    method Subtract(u: int, d: int)
      modifies this`up, this`down
      ensures Value() == old(Value()).(bytes := Accounting.Subtract(old(Value()).bytes, Bytes(u, d)))
    {
      if u >= up { up := 0; } else { up := up - u; }
      if d >= down { down := 0; } else { down := down - d; }
    }
  }

  ghost predicate SortedByUid(lines: seq<UserTraffic>) {
    SortedBy((t: UserTraffic) => t.uid, lines)
  }

  ghost function Values(pool: set<TrafficCounter>): map<TrafficCounter, Counter>
    reads pool
  {
    map c | c in pool :: c.Value()
  }

  /** The map while the entries of `todo` have not been looked at. */
  ghost function Unswept<C>(s: Server<C>, todo: set<string>): map<string, C>
    requires s.Linked()
  {
    map u | u in s.counters && (u in todo || u in s.users || s.store[s.counters[u]].bytes != ZERO) :: s.counters[u]
  }

  lemma UnsweptStep<C>(s: Server<C>, todo: set<string>, uuid: string)
    requires s.WellFormed() && uuid in todo && todo <= s.counters.Keys
    ensures Unswept(s, todo - {uuid}) ==
            if uuid !in s.users && s.Held(uuid) == ZERO then Unswept(s, todo) - {uuid} else Unswept(s, todo)
    ensures uuid in Unswept(s, todo) && Unswept(s, todo)[uuid] == s.counters[uuid]
  {
  }

  lemma DeleteOk<C>(s: Server<C>, user: UserInfo)
    requires s.WellFormed()
    ensures Delete(s, user).WellFormed()
  {
  }

  lemma ReindexOk<C>(s: Server<C>, index: Option<map<string, string>>)
    requires s.WellFormed()
    ensures Reindex(s, index).WellFormed()
  {
  }

  class Embedded {
    const node: K.Node
    const pushInterval: int
    const keyStore: K.ClientKeyStore
    var users: map<string, UserInfo>
    var userHashToUUID: map<string, string>
    var counters: map<string, TrafficCounter>
    var online: map<string, OnlineState>
    /** Every counter this server ever made, in the map or not. */
    ghost var pool: set<TrafficCounter>

    ghost function View(): Server<TrafficCounter>
      reads this, pool
    {
      Server(users, userHashToUUID, counters, Values(pool), online)
    }

    ghost predicate Valid()
      reads this, pool
    {
      View().WellFormed()
    }

    constructor (node: K.Node, pushInterval: int, keyStore: K.ClientKeyStore)
      ensures this.node == node && this.pushInterval == pushInterval && this.keyStore == keyStore
      ensures Valid() && View() == Server(map[], map[], map[], map[], map[])
    {
      this.node, this.pushInterval, this.keyStore := node, pushInterval, keyStore;
      users, userHashToUUID, counters, online, pool := map[], map[], map[], map[], {};
      new;
      assert View().store == map[];
    }

    /** The resident counter of `uuid`, a new one if there is none. */
    method EnsureCounter(uuid: string) returns (counter: TrafficCounter, ghost made: map<string, TrafficCounter>)
      requires Valid()
      modifies this`counters, this`pool
      ensures counters == old(counters)[uuid := counter] && pool == old(pool) + {counter} && fresh(pool - old(pool))
      ensures uuid in old(counters) ==> counter == old(counters)[uuid] && made == map[]
      ensures uuid !in old(counters) ==>
                fresh(counter) && counter.Value() == Counter(0, "", ZERO) && made == map[uuid := counter]
    {
      if uuid in counters {
        counter, made := counters[uuid], map[];
        assert counter in View().store;
      } else {
        counter := new TrafficCounter(0, "");
        made := map[uuid := counter];
      }
      counters := counters[uuid := counter];
      pool := pool + {counter};
    }

    method UpsertUserLocked(user: UserInfo) returns (ghost made: map<string, TrafficCounter>)
      requires Valid()
      modifies this, pool
      ensures old(pool) <= pool && fresh(pool - old(pool))
      ensures HasCounter(old(View()), user.uuid, made) && Fresh(old(View()), made)
      ensures forall u <- made :: made[u] !in old(pool) && made[u] in pool && u == user.uuid && u !in old(counters)
      ensures View() == Upsert(old(View()), user, made)
      ensures Valid()
    {
      made := map[];
      if user.uuid == "" { return; }
      ghost var was := View();
      var counter: TrafficCounter;
      counter, made := EnsureCounter(user.uuid);
      users := users[user.uuid := user];
      counter.SetOwner(user.id, user.uuid);
      UpsertView(was, user, made, counter);
      UpsertOk(was, user, made);
    }

    /** The fields after an upsert, read back as a value. */
    lemma UpsertView(was: Server<TrafficCounter>, user: UserInfo, made: map<string, TrafficCounter>, counter: TrafficCounter)
      requires was.WellFormed() && user.uuid != ""
      requires users == was.users[user.uuid := user] && userHashToUUID == was.index && online == was.online
      requires counters == was.counters[user.uuid := counter] && pool == was.store.Keys + {counter}
      requires user.uuid in was.counters ==> counter == was.counters[user.uuid] && made == map[]
      requires user.uuid !in was.counters ==> counter !in was.store && made == map[user.uuid := counter]
      requires counter.Value() == Counter(user.id, user.uuid, if counter in was.store then was.store[counter].bytes else ZERO)
      requires forall c <- was.store :: c != counter ==> c.Value() == was.store[c]
      ensures View() == Upsert(was, user, made)
    {
      var spec := Upsert(was, user, made);
      assert user.uuid in was.counters ==> was.counters[user.uuid := counter] == was.counters;
      assert View().store == spec.store;
    }

    method UpsertUsersLocked(list: seq<UserInfo>) returns (ghost made: map<string, TrafficCounter>)
      requires Valid()
      modifies this, pool
      ensures Valid() && old(pool) <= pool && fresh(pool - old(pool))
      ensures Covered(old(View()), list, made) && Fresh(old(View()), made)
      ensures View() == UpsertAll(old(View()), list, made)
    {
      made := map[];
      ghost var was := View();
      assert list[..0] == [];
      for i := 0 to |list|
        invariant old(pool) <= pool && fresh(pool - old(pool))
        invariant Folded(was, list[..i], made, View())
      {
        ghost var mid := View();
        ghost var one := UpsertUserLocked(list[i]);
        FoldStep(was, list[..i], made, mid, list[i], one, View());
        assert list[..i + 1] == list[..i] + [list[i]];
        made := made + one;
      }
      assert list[..|list|] == list;
    }

    method DeleteUserLocked(user: UserInfo)
      requires Valid()
      modifies this`users, this`online, this`counters
      ensures View() == Delete(old(View()), user)
      ensures Valid()
    {
      ghost var was := View();
      DeleteOk(was, user);
      HeldNow(user.uuid);
      hide Values, Server.WellFormed, Server.Held;
      users := users - {user.uuid};
      online := online - {user.uuid};
      DropEmptyCounter(user.uuid);
    }

    method DropEmptyCounter(uuid: string)
      modifies this`counters
      ensures counters == if uuid in old(counters) && old(counters)[uuid].Value().bytes != ZERO then old(counters) else old(counters) - {uuid}
    {
      if uuid in counters {
        var up, down := counters[uuid].Snapshot();
        if up == 0 && down == 0 {
          counters := counters - {uuid};
        }
      } else {
        assert counters == counters - {uuid};
      }
    }

    /** What the value holds for `uuid` is what the counter object holds. */
    lemma HeldNow(uuid: string)
      requires Valid()
      ensures View().Held(uuid) == if uuid in counters then counters[uuid].Value().bytes else ZERO
    {
      assert uuid in counters ==> counters[uuid] in View().store;
    }

    method DeleteUsersLocked(list: seq<UserInfo>)
      requires Valid()
      modifies this`users, this`online, this`counters
      ensures Valid() && View() == DeleteAll(old(View()), list)
    {
      assert list[..0] == [];
      for i := 0 to |list|
        invariant Valid() && View() == DeleteAll(old(View()), list[..i])
      {
        DeleteUserLocked(list[i]);
        assert list[..i + 1][..i] == list[..i];
      }
      assert list[..|list|] == list;
    }

    /** The second loop of replaceUsersLocked, in whatever order the map yields its keys. */
    method SweepLocked()
      requires Valid()
      modifies this`counters
      ensures View() == Sweep(old(View()))
    {
      ghost var was := View();
      var todo := counters.Keys;
      assert counters == Unswept(was, todo);
      while todo != {}
        invariant todo <= was.counters.Keys && counters == Unswept(was, todo)
        decreases todo
      {
        var uuid :| uuid in todo;
        UnsweptStep(was, todo, uuid);
        todo := todo - {uuid};
        if uuid !in users {
          var up, down := counters[uuid].Snapshot();
          if up == 0 && down == 0 {
            counters := counters - {uuid};
          }
        }
      }
    }

    /** The index a rebuild writes, key by key. */
    method WriteIndex(keys: seq<UserKey>)
      modifies this`userHashToUUID
      ensures userHashToUUID == IndexOf(keys)
    {
      userHashToUUID := map[];
      assert keys[..0] == [];
      for i := 0 to |keys|
        invariant userHashToUUID == IndexOf(keys[..i])
      {
        assert keys[..i + 1][..i] == keys[..i];
        if keys[i].userHash != "" && keys[i].uuid != "" {
          userHashToUUID := userHashToUUID[keys[i].userHash := keys[i].uuid];
        }
      }
      assert keys[..|keys|] == keys;
    }

    /** Asks the key store for the mappings of the current users; `keys` are what it answered, if it succeeded. */
    method AskKeyStore(w: K.World) returns (keys: Option<seq<UserKey>>)
      requires forall u <- users :: users[u].uuid == u
      modifies keyStore
      ensures K.Rebuilds(keyStore.cfg, keyStore.crypto, node, w, users, old(keyStore.View()), keyStore.View(), keys)
    {
      hide K.Answers;
      var list := UserSync.ListRest(users);
      var ok, out := keyStore.BuildMappings(K.CallOf(node, list, w));
      keys := if ok then Some(out) else None;
    }

    method RebuildUserHashesLocked(w: K.World) returns (ok: bool, ghost keys: Option<seq<UserKey>>)
      requires Valid()
      modifies this`userHashToUUID, keyStore
      ensures ok == keys.Some?
      ensures Valid() && View() == Reindex(old(View()), if ok then Some(IndexOf(keys.value)) else None)
      ensures K.Rebuilds(keyStore.cfg, keyStore.crypto, node, w, users, old(keyStore.View()), keyStore.View(), keys)
    {
      ghost var was := View();
      assert forall u <- users :: users[u].uuid == u;
      hide K.Rebuilds, IndexOf, Server.WellFormed;
      var answer := AskKeyStore(w);
      keys, ok := answer, answer.Some?;
      assert View() == was;
      if ok {
        ReindexOk(was, Some(IndexOf(answer.value)));
        WriteIndex(answer.value);
        assert View() == was.(index := IndexOf(answer.value));
      }
    }

    method ReplaceUsersLocked(list: seq<UserInfo>, w: K.World)
        returns (ok: bool, ghost made: map<string, TrafficCounter>, ghost keys: Option<seq<UserKey>>)
      requires Valid()
      modifies this, pool, keyStore
      ensures Valid() && ok == keys.Some?
      ensures Covered(old(View()), list, made) && Fresh(old(View()), made)
      ensures View() == Reindex(Replace(old(View()), list, made), if ok then Some(IndexOf(keys.value)) else None)
      ensures users == UsersOf(list)
      ensures K.Rebuilds(keyStore.cfg, keyStore.crypto, node, w, users, old(keyStore.View()), keyStore.View(), keys)
    {
      ghost var was := View();
      users := map[];
      ghost var empty := View();
      assert empty == was.(users := map[]);
      made := UpsertUsersLocked(list);
      assert Covered(was, list, made) && Fresh(was, made) by {
        forall i | 0 <= i < |list| ensures HasCounter(was, list[i].uuid, made) { assert HasCounter(empty, list[i].uuid, made); }
      }
      SweepLocked();
      UserFolds.ReplaceIs(was, list, made);
      ok, keys := RebuildUserHashesLocked(w);
    }

    /**
      UpdateUsers: a full list replaces, otherwise deletions come first and modifications last; then the
      index is rebuilt from the key store's answer for the new users.
    */
    method UpdateUsers(added: seq<UserInfo>, deleted: seq<UserInfo>, modified: seq<UserInfo>,
                       full: Option<seq<UserInfo>>, w: K.World)
        returns (ok: bool, ghost made: map<string, TrafficCounter>, ghost keys: Option<seq<UserKey>>)
      requires Valid()
      modifies this, pool, keyStore
      ensures Valid() && ok == keys.Some?
      ensures var index := if ok then Some(IndexOf(keys.value)) else None;
        if full.Some? then
          && Covered(old(View()), full.value, made) && Fresh(old(View()), made)
          && View() == Reindex(Replace(old(View()), full.value, made), index) && users == UsersOf(full.value)
        else
          && Covered(DeleteAll(old(View()), deleted), added + modified, made)
          && Fresh(DeleteAll(old(View()), deleted), made)
          && View() == Reindex(Patch(old(View()), added, deleted, modified, made), index)
      ensures K.Rebuilds(keyStore.cfg, keyStore.crypto, node, w, users, old(keyStore.View()), keyStore.View(), keys)
    {
      if full.Some? {
        ok, made, keys := ReplaceUsersLocked(full.value, w);
        return;
      }
      DeleteUsersLocked(deleted);
      made := UpsertUsersLocked(added + modified);
      ok, keys := RebuildUserHashesLocked(w);
    }

    /** One iteration of the scan: the line of `uuid`, if it is due. */
    method LineOf(uuid: string, threshold: int) returns (line: seq<UserTraffic>)
      requires Valid() && uuid in counters
      ensures line == if Reportable(View(), uuid, threshold) then [TrafficOf(View(), uuid)] else []
    {
      assert counters[uuid] in View().store;
      var up, down := counters[uuid].Snapshot();
      if Wrap64(up + down) <= threshold || uuid !in users || users[uuid].id == 0 { return []; }
      line := [UserTraffic(users[uuid].id, uuid, up, down)];
    }

    method GetUserTrafficSlice(reportMin: int) returns (out: seq<UserTraffic>)
      requires Valid()
      ensures IsSlice(View(), Threshold(reportMin), out) && SortedByUid(out)
    {
      var threshold := Threshold(reportMin);
      var lines: seq<UserTraffic> := [];
      var todo := counters.Keys;
      while todo != {}
        invariant todo <= counters.Keys && ScannedExcept(View(), threshold, todo, lines)
        decreases todo
      {
        var uuid :| uuid in todo;
        var line := LineOf(uuid, threshold);
        ScanStep(View(), threshold, todo, lines, uuid);
        todo, lines := todo - {uuid}, lines + line;
      }
      out := Sort((t: UserTraffic) => t.uid, lines);
      SliceSorted(View(), threshold, lines, out);
    }

    method UuidByUidLocked(uid: int) returns (uuid: string)
      requires Valid()
      ensures Resolves(users, UserTraffic(uid, "", 0, 0), uuid)
    {
      var todo := users.Keys;
      while todo != {}
        invariant todo <= users.Keys && forall u <- users :: u in todo || users[u].id != uid
        decreases todo
      {
        uuid :| uuid in todo;
        if users[uuid].id == uid { return; }
        todo := todo - {uuid};
      }
      uuid := "";
    }

    /** One iteration of the confirm loop. */
    method ConfirmLine(t: UserTraffic) returns (ghost target: string)
      requires Valid()
      modifies pool
      ensures Resolves(users, t, target)
      ensures View() == Confirm(old(View()), target, Bytes(t.upload, t.download))
      ensures Valid()
    {
      ghost var was := View();
      var uuid := t.uuid;
      if uuid == "" {
        uuid := UuidByUidLocked(t.uid);
      }
      if uuid in counters {
        assert counters[uuid] in was.store;
        counters[uuid].Subtract(t.upload, t.download);
      }
      target := uuid;
      ConfirmView(was, uuid, t);
      ConfirmWellFormed(was, uuid, Bytes(t.upload, t.download));
    }

    method ConfirmUserTraffic(reported: seq<UserTraffic>) returns (ghost targets: seq<string>)
      requires Valid()
      modifies pool
      ensures |targets| == |reported| && forall i | 0 <= i < |reported| :: Resolves(users, reported[i], targets[i])
      ensures View() == ConfirmAll(old(View()), reported, targets)
      ensures Valid()
    {
      targets := [];
      assert reported[..0] == [];
      for i := 0 to |reported|
        invariant |targets| == i && forall k | 0 <= k < i :: Resolves(users, reported[k], targets[k])
        invariant Valid() && View() == ConfirmAll(old(View()), reported[..i], targets)
      {
        ghost var target := ConfirmLine(reported[i]);
        assert reported[..i + 1][..i] == reported[..i] && (targets + [target])[..i] == targets;
        targets := targets + [target];
      }
      assert reported[..|reported|] == reported;
    }

    lemma ConfirmView(mid: Server<TrafficCounter>, uuid: string, t: UserTraffic)
      requires mid.WellFormed() && pool == mid.store.Keys
      requires users == mid.users && userHashToUUID == mid.index && counters == mid.counters && online == mid.online
      requires forall c <- mid.store :: c.Value() ==
                 if uuid in mid.counters && c == mid.counters[uuid]
                 then mid.store[c].(bytes := Accounting.Subtract(mid.store[c].bytes, Bytes(t.upload, t.download)))
                 else mid.store[c]
      ensures View() == Confirm(mid, uuid, Bytes(t.upload, t.download))
    {
      assert View().store == Confirm(mid, uuid, Bytes(t.upload, t.download)).store;
    }

    /** The counter a connection presenting `hash` is charged to; nothing is charged to a hash of no current user. */
    method CounterForUserHash(hash: string, now: int, ip: string)
        returns (uuid: string, counter: TrafficCounter?, ok: bool)
      requires Valid()
      modifies this`counters, this`online, this`pool, pool
      ensures ok == Admitted(old(View()), hash).Some?
      ensures ok ==> counter != null && uuid in counters && counters[uuid] == counter
      ensures ok ==> hash in userHashToUUID && uuid == userHashToUUID[hash] && uuid in users && users[uuid].id != 0
      ensures ok ==> View() == Admit(old(View()), hash, now, ip, counter)
      ensures !ok ==> counter == null && View() == old(View())
      ensures Valid()
    {
      uuid, counter, ok := "", null, false;
      if hash !in userHashToUUID || userHashToUUID[hash] == "" { return; }
      if userHashToUUID[hash] !in users || users[userHashToUUID[hash]].id == 0 { return; }
      ghost var was := View();
      uuid := userHashToUUID[hash];
      ghost var made;
      var c: TrafficCounter;
      c, made := EnsureCounter(uuid);
      c.SetOwner(users[uuid].id, uuid);
      online := online[uuid := OnlineState(now, ip)];
      counter, ok := c, true;
      AdmitView(was, hash, now, ip, c);
      AdmitOk(was, hash, now, ip, c);
    }

    lemma AdmitView(was: Server<TrafficCounter>, hash: string, now: int, ip: string, c: TrafficCounter)
      requires was.WellFormed() && Admitted(was, hash).Some?
      requires var u := was.index[hash];
        && c == was.counters[u] && online == was.online[u := OnlineState(now, ip)]
        && c.Value() == Counter(was.users[u].id, u, was.store[c].bytes)
      requires users == was.users && userHashToUUID == was.index && counters == was.counters && pool == was.store.Keys
      requires forall d <- was.store :: d != c ==> d.Value() == was.store[d]
      ensures View() == Admit(was, hash, now, ip, c)
    {
      var spec := Admit(was, hash, now, ip, c);
      assert View().store == spec.store && spec.counters == was.counters;
    }

    method MarkOffline(uuid: string, now: int)
      modifies this`online
      ensures online == Touch(old(online), uuid, now)
    {
      if uuid in online {
        online := online[uuid := OnlineState(now, online[uuid].ip)];
      }
    }

    /** Evicts what is too old and lists the rest, in whatever order the map yields its keys. */
    method GetOnlineDevice(now: int) returns (out: seq<OnlineUser>, ghost order: seq<string>)
      modifies this`online
      ensures online == Evict(old(online), now - Window(pushInterval))
      ensures var devices := Devices(old(online), users, now - Window(pushInterval), node.id);
        && |order| == |out| && (forall i, j | 0 <= i < j < |order| :: order[i] != order[j])
        && (forall u :: u in devices <==> u in order)
        && (forall i | 0 <= i < |out| :: out[i] == devices[order[i]])
    {
      var cutoff := now - Window(pushInterval);
      ghost var devices := Devices(online, users, cutoff, node.id);
      var todo := online.Keys;
      out, order := [], [];
      while todo != {}
        invariant todo <= old(online).Keys
        invariant online == map u | u in old(online) && (u in todo || old(online)[u].seenAt >= cutoff) :: old(online)[u]
        invariant |order| == |out| && (forall i, j | 0 <= i < j < |order| :: order[i] != order[j])
        invariant forall u :: u in order <==> u in devices && u !in todo
        invariant forall i | 0 <= i < |out| :: order[i] in devices && out[i] == devices[order[i]]
        decreases todo
      {
        var uuid :| uuid in todo;
        todo := todo - {uuid};
        if online[uuid].seenAt < cutoff {
          online := online - {uuid};
        } else if uuid in users && users[uuid].id != 0 {
          var ip := if online[uuid].ip == "" then "unknown_" + Itoa(node.id) else online[uuid].ip;
          out, order := out + [OnlineUser(users[uuid].id, ip)], order + [uuid];
        }
      }
    }
  }

  /** Every counter outside `todo` has been looked at. */
  ghost predicate ScannedExcept<C>(s: Server<C>, threshold: int, todo: set<string>, lines: seq<UserTraffic>)
    requires s.Linked()
  {
    && (forall t <- lines :: t.uuid in s.counters && t.uuid !in todo && Reportable(s, t.uuid, threshold) && t == TrafficOf(s, t.uuid))
    && (forall u <- s.counters :: u !in todo && Reportable(s, u, threshold) ==> multiset(lines)[TrafficOf(s, u)] == 1)
  }

  lemma ScanStep<C>(s: Server<C>, threshold: int, todo: set<string>, lines: seq<UserTraffic>, uuid: string)
    requires s.WellFormed() && ScannedExcept(s, threshold, todo, lines) && uuid in todo && todo <= s.counters.Keys
    ensures ScannedExcept(s, threshold, todo - {uuid},
              lines + if Reportable(s, uuid, threshold) then [TrafficOf(s, uuid)] else [])
  {
    if Reportable(s, uuid, threshold) {
      var t := TrafficOf(s, uuid);
      assert t !in lines;
      assert multiset(lines + [t]) == multiset(lines) + multiset{t};
    } else {
      assert lines + [] == lines;
    }
  }

  lemma SliceSorted<C>(s: Server<C>, threshold: int, lines: seq<UserTraffic>, out: seq<UserTraffic>)
    requires s.Linked() && ScannedExcept(s, threshold, {}, lines) && multiset(out) == multiset(lines)
    ensures IsSlice(s, threshold, out)
  {
    forall t <- out ensures t in lines { assert t in multiset(out); }
  }

  lemma ConfirmWellFormed<C>(s: Server<C>, uuid: string, take: Bytes)
    requires s.WellFormed()
    ensures Confirm(s, uuid, take).WellFormed()
  {
  }

  ghost predicate Folded<C>(was: Server<C>, done: seq<UserInfo>, made: map<string, C>, now: Server<C>) {
    && was.WellFormed() && now.WellFormed()
    && Covered(was, done, made) && Fresh(was, made) && now == UpsertAll(was, done, made)
    && (forall u <- made :: u in now.counters && made[u] in now.store && made[u] !in was.store)
  }

  lemma FoldStep<C>(was: Server<C>, done: seq<UserInfo>, made: map<string, C>, mid: Server<C>,
                    user: UserInfo, one: map<string, C>, now: Server<C>)
    requires Folded(was, done, made, mid) && HasCounter(mid, user.uuid, one) && Fresh(mid, one)
    requires now.WellFormed() && now == Upsert(mid, user, one)
    requires forall u <- one :: u == user.uuid && u !in mid.counters && one[u] in now.store && one[u] !in mid.store
    ensures Folded(was, done + [user], made + one, now)
  {
    hide UpsertAll, Upsert, Fresh, Covered, Preserves;
    UpsertAllStep(was, done, user, made, one);
    UpsertGrows(mid, user, one);
    assert was.store.Keys <= mid.store.Keys by { UpsertAllGrows(was, done, made); }
    FreshMerge(was, made, one, mid.store.Keys, user.uuid);
    MadePlaced(was, made, one, mid, now);
  }

  lemma UpsertGrows<C>(s: Server<C>, user: UserInfo, one: map<string, C>)
    requires s.Linked() && HasCounter(s, user.uuid, one)
    ensures var t := Upsert(s, user, one);
      && s.store.Keys <= t.store.Keys && s.counters.Keys <= t.counters.Keys
      && forall u <- one :: u == user.uuid && one[u] in t.store && one[u] !in s.store ==> u in t.counters
  {
  }

  lemma UpsertAllGrows<C>(s: Server<C>, users: seq<UserInfo>, alloc: map<string, C>)
    requires s.WellFormed() && Covered(s, users, alloc) && Fresh(s, alloc)
    ensures s.store.Keys <= UpsertAll(s, users, alloc).store.Keys
  {
    hide UpsertAll, Fresh, Covered;
    UpsertAllOk(s, users, alloc);
  }

  lemma MadePlaced<C>(was: Server<C>, made: map<string, C>, one: map<string, C>, mid: Server<C>, now: Server<C>)
    requires was.store.Keys <= mid.store.Keys <= now.store.Keys && mid.counters.Keys <= now.counters.Keys
    requires forall u <- made :: u in mid.counters && made[u] in mid.store && made[u] !in was.store
    requires forall u <- one :: u in now.counters && one[u] in now.store && one[u] !in mid.store
    ensures forall u <- made + one :: u in now.counters && (made + one)[u] in now.store && (made + one)[u] !in was.store
  {
  }

  lemma FreshMerge<C>(was: Server<C>, made: map<string, C>, one: map<string, C>, taken: set<C>, uuid: string)
    requires Fresh(was, made) && was.store.Keys <= taken
    requires forall u <- made :: made[u] in taken
    requires forall u <- one :: one[u] !in taken && u == uuid
    ensures Fresh(was, made + one)
  {
    var all := made + one;
    forall u, v | u in all && v in all && all[u] == all[v] ensures u == v {
      assert u in one ==> all[u] !in taken;
      assert v in one ==> all[v] !in taken;
    }
  }

  /** Folding one more user in, with the counter it created added to the allocation. */
  lemma UpsertAllStep<C>(s: Server<C>, users: seq<UserInfo>, user: UserInfo, made: map<string, C>, one: map<string, C>)
    requires s.Linked() && Covered(s, users, made) && one.Keys !! made.Keys
    requires HasCounter(UpsertAll(s, users, made), user.uuid, one)
    ensures Covered(s, users + [user], made + one)
    ensures UpsertAll(s, users + [user], made + one) == Upsert(UpsertAll(s, users, made), user, one)
  {
    var all, list := made + one, users + [user];
    assert list[..|list| - 1] == users && list[|list| - 1] == user;
    forall i | 0 <= i < |list| ensures HasCounter(s, list[i].uuid, all) {
      if i < |users| { assert HasCounter(s, users[i].uuid, made); }
    }
    UpsertAllExtend(s, users, made, all);
  }

  lemma {:induction false} UpsertAllExtend<C>(s: Server<C>, users: seq<UserInfo>, made: map<string, C>, all: map<string, C>)
    requires s.Linked() && Covered(s, users, made) && Covered(s, users, all)
    requires forall u <- made :: u in all && all[u] == made[u]
    ensures UpsertAll(s, users, all) == UpsertAll(s, users, made)
  {
    if users != [] {
      var n := |users| - 1;
      assert forall i | 0 <= i < n :: users[..n][i] == users[i];
      UpsertAllExtend(s, users[..n], made, all);
      assert HasCounter(s, users[n].uuid, made);
    }
  }
}
