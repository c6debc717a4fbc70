/**
  The accounting state of one embedded server (internal/runtime/embedded.go), as a value.
  `C` is the type of counter identities: object references in the class `Embedded`,
  anything else in the run-level theorems.
*/
module Accounting {
  import opened Panel

  datatype Bytes = Bytes(up: int, down: int) {
    function Plus(that: Bytes): Bytes { Bytes(up + that.up, down + that.down) }
    predicate AtMost(that: Bytes) { up <= that.up && down <= that.down }
    predicate NonNegative() { 0 <= up && 0 <= down }
  }

  const ZERO := Bytes(0, 0)

  datatype Counter = Counter(uid: int, uuid: string, bytes: Bytes)

  datatype OnlineState = OnlineState(seenAt: int, ip: string)

  datatype Server<C(==)> = Server(
    users: map<string, UserInfo>,
    index: map<string, string>,
    counters: map<string, C>,
    store: map<C, Counter>,
    online: map<string, OnlineState>)
  {
    ghost predicate Linked() {
      forall u <- counters :: counters[u] in store
    }

    /** Every map entry points at a live counter that carries the entry's own uuid. */
    ghost predicate WellFormed() {
      && Linked()
      && (forall u <- counters :: store[counters[u]].uuid == u)
      && "" !in counters
      && (forall u <- users :: u in counters && users[u].uuid == u)
      && (forall c <- store :: store[c].bytes.NonNegative())
    }

    /** The map still points at `c`, under the uuid `c` carries. */
    ghost predicate Resident(c: C)
      requires c in store
    {
      store[c].uuid in counters && counters[store[c].uuid] == c
    }

    /** What a confirm finds for `uuid`: the resident counter's bytes, or nothing. */
    ghost function Held(uuid: string): Bytes
      requires WellFormed()
    {
      if uuid in counters then store[counters[uuid]].bytes else ZERO
    }
  }

  // ---- counter arithmetic (internal/runtime/counting.go) ----

  /** One addUpload/addDownload: non-positive amounts are ignored. */
  function Added(total: int, n: int): int {
    if n <= 0 then total else Wrap64(total + n)
  }

  function Less(total: int, n: int): int {
    if n >= total then 0 else total - n
  }

  /** The saturating `subtract`. */
  function Subtract(have: Bytes, take: Bytes): Bytes {
    Bytes(Less(have.up, take.up), Less(have.down, take.down))
  }

  // ---- user updates ----

  ghost predicate HasCounter<C>(s: Server<C>, uuid: string, alloc: map<string, C>) {
    uuid == "" || uuid in s.counters || uuid in alloc
  }

  ghost predicate Covered<C>(s: Server<C>, users: seq<UserInfo>, alloc: map<string, C>) {
    forall i | 0 <= i < |users| :: HasCounter(s, users[i].uuid, alloc)
  }

  /** `alloc` names, per uuid, the object a counter created in this call will be. */
  ghost predicate Fresh<C>(s: Server<C>, alloc: map<string, C>) {
    && (forall u <- alloc :: u in s.counters || alloc[u] !in s.store)
    && (forall u, v | u in alloc && v in alloc && alloc[u] == alloc[v] :: u == v)
  }

  /** upsertUserLocked, and the body of the first loop of replaceUsersLocked. */
  ghost function Upsert<C>(s: Server<C>, user: UserInfo, alloc: map<string, C>): (r: Server<C>)
    requires s.Linked() && HasCounter(s, user.uuid, alloc)
  {
    if user.uuid == "" then s
    else if user.uuid in s.counters then
      var c := s.counters[user.uuid];
      s.(users := s.users[user.uuid := user], store := s.store[c := Counter(user.id, user.uuid, s.store[c].bytes)])
    else
      var c := alloc[user.uuid];
      s.(users := s.users[user.uuid := user],
         counters := s.counters[user.uuid := c],
         store := s.store[c := Counter(user.id, user.uuid, ZERO)])
  }

  ghost function UpsertAll<C>(s: Server<C>, users: seq<UserInfo>, alloc: map<string, C>): (r: Server<C>)
    requires s.Linked() && Covered(s, users, alloc)
    ensures r.Linked() && s.counters.Keys <= r.counters.Keys <= s.counters.Keys + alloc.Keys
  {
    if users == [] then s
    else
      var n := |users| - 1;
      var init := UpsertAll(s, users[..n], alloc);
      assert HasCounter(s, users[n].uuid, alloc);
      Upsert(init, users[n], alloc)
  }

  /** deleteUserLocked. */
  ghost function Delete<C>(s: Server<C>, user: UserInfo): Server<C>
    requires s.WellFormed()
  {
    s.(users := s.users - {user.uuid},
       online := s.online - {user.uuid},
       counters := if s.Held(user.uuid) == ZERO then s.counters - {user.uuid} else s.counters)
  }

  ghost function DeleteAll<C>(s: Server<C>, users: seq<UserInfo>): (r: Server<C>)
    requires s.WellFormed()
    ensures r.WellFormed() && r.store == s.store && r.index == s.index
  {
    if users == [] then s else Delete(DeleteAll(s, users[..|users| - 1]), users[|users| - 1])
  }

  /** The second loop of replaceUsersLocked: zero counters of non-users are dropped. */
  ghost function Sweep<C>(s: Server<C>): Server<C>
    requires s.Linked()
  {
    s.(counters := map u | u in s.counters && (u in s.users || s.store[s.counters[u]].bytes != ZERO) :: s.counters[u])
  }

  ghost function Replace<C>(s: Server<C>, users: seq<UserInfo>, alloc: map<string, C>): Server<C>
    requires s.WellFormed() && Covered(s, users, alloc) && Fresh(s, alloc)
  {
    var empty := s.(users := map[]);
    UpsertAllOk(empty, users, alloc);
    Sweep(UpsertAll(empty, users, alloc))
  }

  ghost function Patch<C>(s: Server<C>, added: seq<UserInfo>, deleted: seq<UserInfo>, modified: seq<UserInfo>,
                              alloc: map<string, C>): Server<C>
    requires s.WellFormed()
    requires Covered(DeleteAll(s, deleted), added + modified, alloc)
  {
    UpsertAll(DeleteAll(s, deleted), added + modified, alloc)
  }

  /** rebuildUserHashesLocked: a failed rebuild leaves the old index in place. */
  ghost function Reindex<C>(s: Server<C>, index: Option<map<string, string>>): Server<C> {
    if index.Some? then s.(index := index.value) else s
  }

  function Listed(users: map<string, UserInfo>, user: UserInfo): map<string, UserInfo> {
    if user.uuid == "" then users else users[user.uuid := user]
  }

  function ListedAll(users: map<string, UserInfo>, list: seq<UserInfo>): map<string, UserInfo> {
    if list == [] then users else Listed(ListedAll(users, list[..|list| - 1]), list[|list| - 1])
  }

  /** A user list as the server's map: the last entry of a uuid wins, empty uuids are dropped. */
  function UsersOf(list: seq<UserInfo>): map<string, UserInfo> {
    ListedAll(map[], list)
  }

  datatype UserKey = UserKey(uid: int, uuid: string, key: string, userHash: string)

  /** The index the rebuild writes, key by key: a later key overwrites an earlier one with its hash. */
  function IndexOf(keys: seq<UserKey>): map<string, string> {
    if keys == [] then map[]
    else
      var init, k := IndexOf(keys[..|keys| - 1]), keys[|keys| - 1];
      if k.userHash != "" && k.uuid != "" then init[k.userHash := k.uuid] else init
  }

  // ---- admission and confirmation ----

  /** The user a presented hash is charged to, if any. */
  ghost function Admitted<C>(s: Server<C>, hash: string): Option<string> {
    if hash in s.index && s.index[hash] != "" && s.index[hash] in s.users && s.users[s.index[hash]].id != 0
    then Some(s.index[hash]) else None
  }

  /** counterForUserHash. */
  ghost function Admit<C>(s: Server<C>, hash: string, now: int, ip: string, created: C): Server<C>
    requires s.Linked()
  {
    match Admitted(s, hash)
    case None => s
    case Some(u) =>
      var c := if u in s.counters then s.counters[u] else created;
      var bytes := if u in s.counters then s.store[c].bytes else ZERO;
      s.(counters := s.counters[u := c],
         store := s.store[c := Counter(s.users[u].id, u, bytes)],
         online := s.online[u := OnlineState(now, ip)])
  }

  /** One iteration of ConfirmUserTraffic, the uuid already resolved. */
  ghost function Confirm<C>(s: Server<C>, uuid: string, take: Bytes): Server<C>
    requires s.Linked()
  {
    if uuid in s.counters then
      var c := s.counters[uuid];
      s.(store := s.store[c := s.store[c].(bytes := Subtract(s.store[c].bytes, take))])
    else s
  }

  /** The user a confirmed line is charged back to: its uuid, or any user with its uid. */
  ghost predicate Resolves(users: map<string, UserInfo>, t: UserTraffic, target: string) {
    if t.uuid != "" then target == t.uuid
    else if exists u <- users :: users[u].id == t.uid then target in users && users[target].id == t.uid
    else target == ""
  }

  ghost function ConfirmAll<C>(s: Server<C>, reported: seq<UserTraffic>, targets: seq<string>): (r: Server<C>)
    requires s.Linked() && |reported| == |targets|
    ensures r.Linked() && r.counters == s.counters && r.users == s.users
  {
    if reported == [] then s
    else
      var n := |reported| - 1;
      Confirm(ConfirmAll(s, reported[..n], targets[..n]), targets[n], Bytes(reported[n].upload, reported[n].download))
  }

  // ---- the traffic slice ----

  /** GetUserTrafficSlice's test for one entry of `counters`. */
  ghost predicate Reportable<C>(s: Server<C>, uuid: string, threshold: int)
    requires s.Linked() && uuid in s.counters
  {
    var b := s.store[s.counters[uuid]].bytes;
    && Wrap64(b.up + b.down) > threshold
    && uuid in s.users && s.users[uuid].id != 0
  }

  ghost function TrafficOf<C>(s: Server<C>, uuid: string): UserTraffic
    requires s.Linked() && uuid in s.counters && uuid in s.users
  {
    var b := s.store[s.counters[uuid]].bytes;
    UserTraffic(s.users[uuid].id, uuid, b.up, b.down)
  }

  /** `out` is the slice for `threshold`: one line per reportable counter and nothing else. */
  ghost predicate IsSlice<C>(s: Server<C>, threshold: int, out: seq<UserTraffic>)
    requires s.Linked()
  {
    && (forall t <- out :: t.uuid in s.counters && Reportable(s, t.uuid, threshold) && t == TrafficOf(s, t.uuid))
    && (forall u <- s.counters :: Reportable(s, u, threshold) ==> multiset(out)[TrafficOf(s, u)] == 1)
  }

  // ---- what every user update keeps ----

  /**
    `t` accounts for everything `s` did: old counters keep owner and bytes, new counters start at
    zero, a counter holding bytes keeps its map entry, and a counter that left the map stays out.
  */
  ghost predicate Preserves<C>(s: Server<C>, t: Server<C>) {
    && (forall c <- s.store :: c in t.store && t.store[c].uuid == s.store[c].uuid && t.store[c].bytes == s.store[c].bytes)
    && (forall c <- t.store :: c in s.store || t.store[c].bytes == ZERO)
    && (forall u <- s.counters :: s.counters[u] in s.store && s.store[s.counters[u]].bytes != ZERO
          ==> u in t.counters && t.counters[u] == s.counters[u])
    && (forall u <- t.counters :: t.counters[u] in s.store ==> u in s.counters && s.counters[u] == t.counters[u])
  }

  lemma PreservesTransitive<C>(s: Server<C>, t: Server<C>, r: Server<C>)
    requires s.WellFormed() && Preserves(s, t) && Preserves(t, r)
    ensures Preserves(s, r)
  {
  }

  lemma UpsertOk<C>(s: Server<C>, user: UserInfo, alloc: map<string, C>)
    requires s.WellFormed() && HasCounter(s, user.uuid, alloc) && Fresh(s, alloc)
    ensures var t := Upsert(s, user, alloc); t.WellFormed() && Fresh(t, alloc) && Preserves(s, t)
  {
    if user.uuid in s.counters {
      UpsertExisting(s, user, alloc);
    } else if user.uuid != "" {
      UpsertNew(s, user, alloc);
    }
  }

  lemma UpsertExisting<C>(s: Server<C>, user: UserInfo, alloc: map<string, C>)
    requires s.WellFormed() && user.uuid in s.counters && Fresh(s, alloc)
    ensures var t := Upsert(s, user, alloc); t.WellFormed() && Fresh(t, alloc) && Preserves(s, t)
  {
    var t := Upsert(s, user, alloc);
    assert t.store.Keys == s.store.Keys;
  }

  lemma UpsertNew<C>(s: Server<C>, user: UserInfo, alloc: map<string, C>)
    requires s.WellFormed() && user.uuid != "" && user.uuid in alloc && user.uuid !in s.counters && Fresh(s, alloc)
    ensures var t := Upsert(s, user, alloc); t.WellFormed() && Fresh(t, alloc) && Preserves(s, t)
  {
    var t := Upsert(s, user, alloc);
    var c := alloc[user.uuid];
    assert forall d <- s.store :: d != c && t.store[d] == s.store[d];
    assert forall v <- alloc :: alloc[v] == c ==> v == user.uuid;
  }

  lemma {:induction false} UpsertAllOk<C>(s: Server<C>, users: seq<UserInfo>, alloc: map<string, C>)
    requires s.WellFormed() && Covered(s, users, alloc) && Fresh(s, alloc)
    ensures var t := UpsertAll(s, users, alloc); t.WellFormed() && Fresh(t, alloc) && Preserves(s, t)
  {
    if users != [] {
      var n := |users| - 1;
      var init := UpsertAll(s, users[..n], alloc);
      UpsertAllOk(s, users[..n], alloc);
      assert HasCounter(s, users[n].uuid, alloc);
      UpsertOk(init, users[n], alloc);
      PreservesTransitive(s, init, Upsert(init, users[n], alloc));
    }
  }

  lemma {:induction false} DeleteAllOk<C>(s: Server<C>, users: seq<UserInfo>)
    requires s.WellFormed()
    ensures Preserves(s, DeleteAll(s, users))
  {
    if users != [] {
      var init := DeleteAll(s, users[..|users| - 1]);
      DeleteAllOk(s, users[..|users| - 1]);
      PreservesTransitive(s, init, Delete(init, users[|users| - 1]));
    }
  }

  /** A full replacement never drops, swaps or alters a counter that holds bytes. */
  lemma ReplaceOk<C>(s: Server<C>, users: seq<UserInfo>, alloc: map<string, C>)
    requires s.WellFormed() && Covered(s, users, alloc) && Fresh(s, alloc)
    ensures var t := Replace(s, users, alloc); t.WellFormed() && Preserves(s, t)
  {
    var empty := s.(users := map[]);
    UpsertAllOk(empty, users, alloc);
    var full := UpsertAll(empty, users, alloc);
    assert Preserves(s, empty);
    PreservesTransitive(s, empty, full);
    assert Preserves(full, Sweep(full));
    PreservesTransitive(s, full, Sweep(full));
  }

  /** Nor does an incremental update. */
  lemma PatchOk<C>(s: Server<C>, added: seq<UserInfo>, deleted: seq<UserInfo>, modified: seq<UserInfo>, alloc: map<string, C>)
    requires s.WellFormed() && Covered(DeleteAll(s, deleted), added + modified, alloc) && Fresh(DeleteAll(s, deleted), alloc)
    ensures var t := Patch(s, added, deleted, modified, alloc); t.WellFormed() && Preserves(s, t)
  {
    DeleteAllOk(s, deleted);
    var d := DeleteAll(s, deleted);
    UpsertAllOk(d, added + modified, alloc);
    PreservesTransitive(s, d, UpsertAll(d, added + modified, alloc));
  }

  lemma AdmitOk<C>(s: Server<C>, hash: string, now: int, ip: string, created: C)
    requires s.WellFormed()
    ensures var t := Admit(s, hash, now, ip, created); t.WellFormed() && Preserves(s, t)
    ensures var t := Admit(s, hash, now, ip, created); t.store.Keys == s.store.Keys && t.counters == s.counters
  {
    if Admitted(s, hash).Some? {
      var u := s.index[hash];
      assert s.store.Keys + {s.counters[u]} == s.store.Keys;
    }
  }

  /** What a successful admission leaves: the user seen now from this address, on a counter that carries its id. */
  lemma AdmitIs<C>(s: Server<C>, hash: string, now: int, ip: string, created: C)
    requires s.WellFormed() && Admitted(s, hash).Some?
    ensures var t, u := Admit(s, hash, now, ip, created), s.index[hash];
      && t.users == s.users && t.index == s.index && t.counters == s.counters && u in t.counters
      && t.online == s.online[u := OnlineState(now, ip)]
      && t.store == s.store[s.counters[u] := Counter(s.users[u].id, u, s.Held(u))]
  {
  }
}
