/** What the loops over user lists leave in a server, entry by entry (internal/runtime/embedded.go). */
module UserFolds {
  import opened Panel
  import opened Accounting
  import opened UserSync

  lemma {:induction false} ListedMiss(users: map<string, UserInfo>, list: seq<UserInfo>, k: string)
    requires forall x <- list :: x.uuid != k || k == ""
    ensures k in ListedAll(users, list) <==> k in users
    ensures k in users ==> ListedAll(users, list)[k] == users[k]
  {
    if list != [] {
      var n := |list| - 1;
      assert list == list[..n] + [list[n]];
      ListedMiss(users, list[..n], k);
    }
  }

  lemma {:induction false} ListedHit(users: map<string, UserInfo>, list: seq<UserInfo>, v: UserInfo)
    requires v in list && v.uuid != "" && forall x <- list :: x.uuid == v.uuid ==> x == v
    ensures v.uuid in ListedAll(users, list) && ListedAll(users, list)[v.uuid] == v
  {
    var n := |list| - 1;
    assert list == list[..n] + [list[n]];
    if list[n] != v { ListedHit(users, list[..n], v); }
  }

  lemma {:induction false} UsersOfLast(list: seq<UserInfo>)
    ensures UsersOf(list) == Last(list) - {""}
  {
    if list != [] { UsersOfLast(list[..|list| - 1]); }
  }

  lemma UsersOfKeys(list: seq<UserInfo>)
    ensures UsersOf(list).Keys == Uuids(list) - {""}
  {
    hide UsersOf, Uuids;
    UsersOfLast(list);
    LastKeys(list);
  }

  lemma LastKeys(list: seq<UserInfo>)
    ensures Last(list).Keys == Uuids(list)
  {
    hide Last;
    forall u <- list ensures u.uuid in Last(list) {}
  }

  /** What upserting a list leaves: users listed, old counters kept, missing ones taken from `alloc`. */
  ghost predicate Upserted<C>(s: Server<C>, list: seq<UserInfo>, alloc: map<string, C>, t: Server<C>) {
    && t.users == ListedAll(s.users, list) && t.index == s.index && t.online == s.online
    && (forall u :: u in t.counters <==> u in s.counters || (u != "" && u in Uuids(list)))
    && (forall u <- t.counters :: u in s.counters || u in alloc)
    && (forall u <- t.counters :: t.counters[u] == if u in s.counters then s.counters[u] else alloc[u])
  }

  lemma ListedMore(users: map<string, UserInfo>, init: seq<UserInfo>, user: UserInfo)
    ensures ListedAll(users, init + [user]) == Listed(ListedAll(users, init), user)
    ensures Uuids(init + [user]) == Uuids(init) + {user.uuid}
  {
    var list := init + [user];
    assert list[..|list| - 1] == init && list[|list| - 1] == user;
  }

  lemma UpsertedOne<C>(s: Server<C>, init: seq<UserInfo>, user: UserInfo, alloc: map<string, C>, mid: Server<C>)
    requires s.Linked() && mid.Linked() && Upserted(s, init, alloc, mid) && HasCounter(s, user.uuid, alloc)
    ensures HasCounter(mid, user.uuid, alloc) && Upserted(s, init + [user], alloc, Upsert(mid, user, alloc))
  {
    hide ListedAll, Uuids, Server.Linked;
    ListedMore(s.users, init, user);
    var t := UpsertFields(mid, user, alloc);
  }

  /** The fields an upsert leaves. */
  lemma UpsertFields<C>(s: Server<C>, user: UserInfo, alloc: map<string, C>) returns (t: Server<C>)
    requires s.Linked() && HasCounter(s, user.uuid, alloc)
    ensures t == Upsert(s, user, alloc)
    ensures t.users == Listed(s.users, user) && t.index == s.index && t.online == s.online
    ensures t.counters == if user.uuid == "" || user.uuid in s.counters then s.counters else s.counters[user.uuid := alloc[user.uuid]]
  {
    t := Upsert(s, user, alloc);
  }

  lemma {:induction false} UpsertAllIs<C>(s: Server<C>, list: seq<UserInfo>, alloc: map<string, C>)
    requires s.Linked() && Covered(s, list, alloc)
    ensures Upserted(s, list, alloc, UpsertAll(s, list, alloc))
  {
    hide Upserted;
    if list == [] {
      UpsertedNone(s, alloc);
    } else {
      var n := |list| - 1;
      assert forall i | 0 <= i < n :: list[..n][i] == list[i];
      UpsertAllIs(s, list[..n], alloc);
      assert HasCounter(s, list[n].uuid, alloc);
      UpsertedOne(s, list[..n], list[n], alloc, UpsertAll(s, list[..n], alloc));
      assert list == list[..n] + [list[n]];
    }
  }

  lemma UpsertedNone<C>(s: Server<C>, alloc: map<string, C>)
    ensures Upserted(s, [], alloc, s)
  {
  }

  /** What deleting a list leaves: its users are gone, and with them their empty counters. */
  ghost predicate Deleted<C>(s: Server<C>, list: seq<UserInfo>, t: Server<C>)
    requires s.WellFormed()
  {
    && t.users == s.users - Uuids(list) && t.online == s.online - Uuids(list)
    && t.counters == map u | u in s.counters && (u !in Uuids(list) || s.Held(u) != ZERO) :: s.counters[u]
  }

  lemma DeletedOne<C>(s: Server<C>, init: seq<UserInfo>, user: UserInfo, mid: Server<C>)
    requires s.WellFormed() && mid.WellFormed() && mid.store == s.store && Deleted(s, init, mid)
    ensures Deleted(s, init + [user], Delete(mid, user))
  {
    var t, uuids := Delete(mid, user), Uuids(init);
    ListedMore(map[], init, user);
    assert user.uuid in mid.counters ==> mid.Held(user.uuid) == s.Held(user.uuid);
    hide Uuids, Server.WellFormed, Server.Held;
    Without(s.users, uuids, user.uuid);
    Without(s.online, uuids, user.uuid);
  }

  lemma Without<V>(m: map<string, V>, uuids: set<string>, k: string)
    ensures m - uuids - {k} == m - (uuids + {k})
  {
  }

  lemma {:induction false} DeleteAllIs<C>(s: Server<C>, list: seq<UserInfo>)
    requires s.WellFormed()
    ensures Deleted(s, list, DeleteAll(s, list))
  {
    if list != [] {
      var n := |list| - 1;
      DeleteAllIs(s, list[..n]);
      DeletedOne(s, list[..n], list[n], DeleteAll(s, list[..n]));
      assert list == list[..n] + [list[n]];
    }
  }

  // ---- the whole updates ----

  /** What sweeping leaves of the old server's counters and the ones added for `uuids`. */
  lemma SweptIs<C>(s: Server<C>, up: Server<C>, uuids: set<string>, alloc: map<string, C>)
    requires s.WellFormed() && up.WellFormed() && Preserves(s.(users := map[]), up) && up.users.Keys == uuids - {""}
    requires forall u :: u in up.counters <==> u in s.counters || (u != "" && u in uuids)
    requires forall u <- up.counters :: u in s.counters || u in alloc
    requires forall u <- up.counters :: up.counters[u] == if u in s.counters then s.counters[u] else alloc[u]
    ensures var t := Sweep(up);
      && (forall u :: u in t.counters <==> (u != "" && u in uuids) || (u in s.counters && s.Held(u) != ZERO))
      && (forall u <- t.counters :: u in s.counters || u in alloc)
      && (forall u <- t.counters :: t.counters[u] == if u in s.counters then s.counters[u] else alloc[u])
  {
    forall u | u in s.counters ensures up.store[up.counters[u]].bytes == s.Held(u) {}
    assert "" !in s.counters;
  }

  /** A full replacement, whatever the list repeats: its last entries are the users, and only empty counters of others go. */
  lemma ReplaceIs<C>(s: Server<C>, list: seq<UserInfo>, alloc: map<string, C>)
    requires s.WellFormed() && Covered(s, list, alloc) && Fresh(s, alloc)
    ensures var t := Replace(s, list, alloc);
      && t.WellFormed() && Preserves(s, t) && t.users == UsersOf(list) && t.index == s.index && t.online == s.online
      && (forall u :: u in t.counters <==> (u != "" && u in Uuids(list)) || (u in s.counters && s.Held(u) != ZERO))
      && (forall u <- t.counters :: u in s.counters || u in alloc)
      && (forall u <- t.counters :: t.counters[u] == if u in s.counters then s.counters[u] else alloc[u])
  {
    hide ListedAll, Uuids, UpsertAll;
    var empty := s.(users := map[]);
    ReplaceOk(s, list, alloc);
    UpsertAllIs(empty, list, alloc);
    UpsertAllOk(empty, list, alloc);
    UsersOfKeys(list);
    SweptIs(s, UpsertAll(empty, list, alloc), Uuids(list), alloc);
  }

  // ---- which counters leave the map ----

  /** A counter in the map stays in it through a replacement exactly when its user is listed or it holds bytes. */
  lemma ReplaceKeeps<C>(s: Server<C>, list: seq<UserInfo>, alloc: map<string, C>, c: C)
    requires s.WellFormed() && Covered(s, list, alloc) && Fresh(s, alloc) && c in s.store && s.Resident(c)
    ensures var t := Replace(s, list, alloc);
      c in t.store && (t.Resident(c) <==> s.store[c].uuid in UsersOf(list) || s.store[c].bytes != ZERO)
  {
    ReplaceIs(s, list, alloc);
    UsersOfKeys(list);
    hide Replace, UsersOf, Uuids, Fresh, Covered;
  }

  /** And through an incremental update exactly when its user is not deleted or it holds bytes. */
  lemma PatchKeeps<C>(s: Server<C>, added: seq<UserInfo>, deleted: seq<UserInfo>, modified: seq<UserInfo>, alloc: map<string, C>, c: C)
    requires s.WellFormed() && Covered(DeleteAll(s, deleted), added + modified, alloc) && Fresh(DeleteAll(s, deleted), alloc)
    requires c in s.store && s.Resident(c)
    ensures var t := Patch(s, added, deleted, modified, alloc);
      c in t.store && (t.Resident(c) <==> s.store[c].uuid !in Uuids(deleted) || s.store[c].bytes != ZERO)
  {
    PatchOk(s, added, deleted, modified, alloc);
    DeleteAllIs(s, deleted);
    UpsertAllIs(DeleteAll(s, deleted), added + modified, alloc);
    hide UpsertAll, DeleteAll, Uuids, Covered, ListedAll;
  }
}
