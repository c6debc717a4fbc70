/** Applying a list difference against replacing the whole list. */
module IncrementalUpdate {
  import opened Panel
  import opened Accounting
  import opened UserSync
  import opened UserFolds
  import K = KeyStore
  import R = TwoRebuilds

  // ---- the two updates side by side ----

  /** A server in step with `before`, the panel's new list, and the difference the controller found. */
  ghost predicate AnySetting<C>(s: Server<C>, before: seq<UserInfo>, after: seq<UserInfo>, deleted: seq<UserInfo>, alloc: map<string, C>) {
    && s.WellFormed() && s.users == UsersOf(before)
    && Enumerates(deleted, Walk(Last(before), after).rest)
    && Covered(s, after, alloc)
    && (forall u <- alloc :: alloc[u] !in s.store)
    && (forall u, v | u in alloc && v in alloc && alloc[u] == alloc[v] :: u == v)
  }

  /** The same for a new list that repeats no uuid. */
  ghost predicate Setting<C>(s: Server<C>, before: seq<UserInfo>, after: seq<UserInfo>, deleted: seq<UserInfo>, alloc: map<string, C>) {
    AnySetting(s, before, after, deleted, alloc) && DistinctUuids(after)
  }

  lemma SettingOk<C>(s: Server<C>, before: seq<UserInfo>, after: seq<UserInfo>, deleted: seq<UserInfo>, alloc: map<string, C>)
    requires AnySetting(s, before, after, deleted, alloc)
    ensures var d := Walk(Last(before), after);
      && Fresh(s, alloc) && Fresh(DeleteAll(s, deleted), alloc)
      && Covered(DeleteAll(s, deleted), d.added + d.modified, alloc)
  {
    var d := Walk(Last(before), after);
    WalkTakes(Last(before), after);
    WalkRest(Last(before), after);
    DeleteAllIs(s, deleted);
    var list := d.added + d.modified;
    forall i | 0 <= i < |list| ensures HasCounter(DeleteAll(s, deleted), list[i].uuid, alloc) {
      var u := list[i];
      assert u in list && u in after;
      var j :| 0 <= j < |after| && after[j] == u;
      assert HasCounter(s, after[j].uuid, alloc) && u.uuid in Uuids(after);
      assert u.uuid !in Uuids(deleted);
    }
  }

  /** The added and modified users come from the new list. */
  lemma {:induction false} WalkTakes(table: map<string, UserInfo>, users: seq<UserInfo>)
    ensures var d := Walk(table, users); forall u <- d.added + d.modified :: u in users
  {
    if users != [] {
      var n := |users| - 1;
      WalkTakes(table, users[..n]);
      assert users == users[..n] + [users[n]];
    }
  }

  ghost function Full<C>(s: Server<C>, before: seq<UserInfo>, after: seq<UserInfo>, deleted: seq<UserInfo>, alloc: map<string, C>): Server<C>
    requires AnySetting(s, before, after, deleted, alloc)
  {
    SettingOk(s, before, after, deleted, alloc);
    Replace(s, after, alloc)
  }

  ghost function Incremental<C>(s: Server<C>, before: seq<UserInfo>, after: seq<UserInfo>, deleted: seq<UserInfo>, alloc: map<string, C>): Server<C>
    requires AnySetting(s, before, after, deleted, alloc)
  {
    SettingOk(s, before, after, deleted, alloc);
    var d := Walk(Last(before), after);
    Patch(s, d.added, deleted, d.modified, alloc)
  }

  /** The comparison calls `u` unchanged. */
  predicate Kept(before: seq<UserInfo>, u: UserInfo) {
    u.uuid in Last(before) && ProfileOf(Last(before)[u.uuid]) == ProfileOf(u)
  }

  /** A uuid in both lists that the comparison calls unchanged keeps its id. */
  ghost predicate StableIds(before: seq<UserInfo>, after: seq<UserInfo>) {
    forall u <- after :: u.uuid != "" && Kept(before, u) ==> Last(before)[u.uuid].id == u.id
  }

  /** Which users the incremental update lists, and which it removes first. */
  lemma ChangedUsers(before: seq<UserInfo>, after: seq<UserInfo>, deleted: seq<UserInfo>)
    requires DistinctUuids(after) && Enumerates(deleted, Walk(Last(before), after).rest)
    ensures var d := Walk(Last(before), after);
      && (forall u: UserInfo :: u in d.added + d.modified <==> u in after && !Kept(before, u))
      && Uuids(deleted) == Last(before).Keys - Uuids(after)
  {
    hide Walk, Last, DistinctUuids, Enumerates;
    DiffExact(before, after, deleted);
    var m := Last(before);
    forall k | k in m && k !in Uuids(after) ensures k in Uuids(deleted) { assert m[k] in deleted; }
  }

  lemma PatchedHit(users: map<string, UserInfo>, before: seq<UserInfo>, after: seq<UserInfo>, list: seq<UserInfo>, u: UserInfo)
    requires DistinctUuids(after) && forall x: UserInfo :: x in list <==> x in after && !Kept(before, x)
    requires u in after && u.uuid != "" && !Kept(before, u)
    ensures u.uuid in ListedAll(users, list) && ListedAll(users, list)[u.uuid] == u
  {
    hide Kept, DistinctUuids;
    forall x <- list ensures x.uuid == u.uuid ==> x == u { SameUuid(after, x, u); }
    ListedHit(users, list, u);
  }

  lemma PatchedMiss(users: map<string, UserInfo>, before: seq<UserInfo>, after: seq<UserInfo>, list: seq<UserInfo>, k: string)
    requires forall x: UserInfo :: x in list <==> x in after && !Kept(before, x)
    requires forall x <- after :: x.uuid == k && k != "" ==> Kept(before, x)
    ensures k in ListedAll(users, list) <==> k in users
    ensures k in users ==> ListedAll(users, list)[k] == users[k]
  {
    hide Kept;
    ListedMiss(users, list, k);
  }

  /** The user the incremental update ends with for `k`. */
  lemma PatchedUser<C>(s: Server<C>, before: seq<UserInfo>, after: seq<UserInfo>, deleted: seq<UserInfo>, alloc: map<string, C>, k: string)
    requires Setting(s, before, after, deleted, alloc)
    ensures var t, m := Incremental(s, before, after, deleted, alloc), Last(before);
      && (k in t.users <==> k != "" && k in Uuids(after))
      && (forall u <- after :: u.uuid == k && k != "" ==> t.users[k] == if Kept(before, u) then m[k] else u)
  {
    hide AnySetting, Incremental, DistinctUuids, Enumerates, Walk, Kept, UsersOf, Last, Uuids, ListedAll;
    IncrementalList(s, before, after, deleted, alloc);
    ChangedUsers(before, after, deleted);
    UsersOfLast(before);
    PatchedEntry(before, after, Walk(Last(before), after), Uuids(deleted), k);
  }

  lemma PatchedEntry(before: seq<UserInfo>, after: seq<UserInfo>, d: Delta, gone: set<string>, k: string)
    requires DistinctUuids(after) && gone == Last(before).Keys - Uuids(after)
    requires forall x: UserInfo :: x in d.added + d.modified <==> x in after && !Kept(before, x)
    ensures var t, m := ListedAll(Last(before) - {""} - gone, d.added + d.modified), Last(before);
      && (k in t <==> k != "" && k in Uuids(after))
      && (forall u <- after :: u.uuid == k && k != "" ==> t[k] == if Kept(before, u) then m[k] else u)
  {
    hide DistinctUuids, ListedAll, Last;
    var list, base := d.added + d.modified, Last(before) - {""} - gone;
    if u :| u in after && u.uuid == k && k != "" && !Kept(before, u) {
      PatchedHit(base, before, after, list, u);
      forall x <- after ensures x.uuid == k ==> x == u { SameUuid(after, x, u); }
    } else {
      PatchedMiss(base, before, after, list, k);
    }
  }

  /** The users of the incremental update, as one fold over the changed users. */
  lemma IncrementalList<C>(s: Server<C>, before: seq<UserInfo>, after: seq<UserInfo>, deleted: seq<UserInfo>, alloc: map<string, C>)
    requires AnySetting(s, before, after, deleted, alloc)
    ensures Enumerates(deleted, Walk(Last(before), after).rest)
    ensures var d := Walk(Last(before), after);
      Incremental(s, before, after, deleted, alloc).users == ListedAll(UsersOf(before) - Uuids(deleted), d.added + d.modified)
  {
    hide Walk, UsersOf, Uuids, ListedAll;
    SettingOk(s, before, after, deleted, alloc);
    DeleteAllIs(s, deleted);
    var d := Walk(Last(before), after);
    UpsertAllIs(DeleteAll(s, deleted), d.added + d.modified, alloc);
  }

  lemma SameUuid(list: seq<UserInfo>, a: UserInfo, b: UserInfo)
    requires DistinctUuids(list) && a in list && b in list
    ensures a.uuid == b.uuid ==> a == b
  {
    var i :| 0 <= i < |list| && list[i] == a;
    var j :| 0 <= j < |list| && list[j] == b;
  }

  lemma FullIs<C>(s: Server<C>, before: seq<UserInfo>, after: seq<UserInfo>, deleted: seq<UserInfo>, alloc: map<string, C>)
    requires Setting(s, before, after, deleted, alloc)
    ensures var t := Full(s, before, after, deleted, alloc);
      && t.WellFormed() && Preserves(s, t) && t.users == UsersOf(after) && t.index == s.index && t.online == s.online
      && (forall u :: u in t.counters <==> (u != "" && u in Uuids(after)) || (u in s.counters && s.Held(u) != ZERO))
      && (forall u <- t.counters :: u in s.counters || u in alloc)
      && (forall u <- t.counters :: t.counters[u] == if u in s.counters then s.counters[u] else alloc[u])
  {
    SettingOk(s, before, after, deleted, alloc);
    hide AnySetting, UsersOf, Uuids, Server.WellFormed, Preserves;
    ReplaceIs(s, after, alloc);
  }

  lemma IncrementalIs<C>(s: Server<C>, before: seq<UserInfo>, after: seq<UserInfo>, deleted: seq<UserInfo>, alloc: map<string, C>)
    requires Setting(s, before, after, deleted, alloc)
    ensures var t := Incremental(s, before, after, deleted, alloc);
      && t.WellFormed() && Preserves(s, t) && t.index == s.index && t.online == s.online - Uuids(deleted)
      && (forall u :: u in t.counters <==>
            (u != "" && u in Uuids(after)) || (u in s.counters && (u !in Uuids(deleted) || s.Held(u) != ZERO)))
      && (forall u <- t.counters :: u in s.counters || u in alloc)
      && (forall u <- t.counters :: t.counters[u] == if u in s.counters then s.counters[u] else alloc[u])
  {
    SettingOk(s, before, after, deleted, alloc);
    DiffExact(before, after, deleted);
    var d := Walk(Last(before), after);
    PatchOk(s, d.added, deleted, d.modified, alloc);
    DeleteAllIs(s, deleted);
    UpsertAllIs(DeleteAll(s, deleted), d.added + d.modified, alloc);
    KnownUsersHaveCounters(s, before, after, deleted, alloc);
    forall u | u in Uuids(d.added + d.modified) ensures u in Uuids(after) {}
    forall u | u in Uuids(deleted) ensures u !in Uuids(after) {}
  }

  /** A new user is added, modified, or already has a counter. */
  lemma KnownUsersHaveCounters<C>(s: Server<C>, before: seq<UserInfo>, after: seq<UserInfo>, deleted: seq<UserInfo>, alloc: map<string, C>)
    requires Setting(s, before, after, deleted, alloc)
    ensures var d := Walk(Last(before), after);
      forall u | u in Uuids(after) && u != "" :: u in Uuids(d.added + d.modified) || u in s.counters
  {
    var d := Walk(Last(before), after);
    WalkDistinct(Last(before), after);
    UsersOfLast(before);
    forall k | k in Uuids(after) && k != "" ensures k in Uuids(d.added + d.modified) || k in s.counters {
      var u :| u in after && u.uuid == k;
      if k !in Last(before) {
        assert u in d.added && u in d.added + d.modified;
      } else {
        assert k in s.users;
      }
    }
  }

  // ---- the refinement ----

  /** The two user maps, entry by entry. */
  lemma BothUsers<C>(s: Server<C>, before: seq<UserInfo>, after: seq<UserInfo>, deleted: seq<UserInfo>, alloc: map<string, C>, u: UserInfo)
    requires Setting(s, before, after, deleted, alloc) && u in after && u.uuid != ""
    ensures u.uuid in UsersOf(after) && UsersOf(after)[u.uuid] == u
    ensures var inc, m := Incremental(s, before, after, deleted, alloc).users, Last(before);
      && u.uuid in inc
      && inc[u.uuid] == if u.uuid in m && ProfileOf(m[u.uuid]) == ProfileOf(u) then m[u.uuid] else u
  {
    UsersOfLast(after);
    LastDistinct(after, u);
    assert u.uuid in Uuids(after);
    PatchedUser(s, before, after, deleted, alloc, u.uuid);
  }

  /** The incremental update gives the full update's users exactly when unchanged entries keep their ids. */
  lemma IncrementalUsers<C>(s: Server<C>, before: seq<UserInfo>, after: seq<UserInfo>, deleted: seq<UserInfo>, alloc: map<string, C>)
    requires Setting(s, before, after, deleted, alloc)
    ensures Incremental(s, before, after, deleted, alloc).users == Full(s, before, after, deleted, alloc).users
            <==> StableIds(before, after)
  {
    hide Incremental, Full, AnySetting;
    var inc, full := Incremental(s, before, after, deleted, alloc).users, UsersOf(after);
    FullIs(s, before, after, deleted, alloc);
    if inc == full {
      forall u <- after
        ensures u.uuid != "" && u.uuid in Last(before) && ProfileOf(Last(before)[u.uuid]) == ProfileOf(u)
                ==> Last(before)[u.uuid].id == u.id
      {
        if u.uuid != "" { BothUsers(s, before, after, deleted, alloc, u); }
      }
    }
    if StableIds(before, after) { StableUsers(s, before, after, deleted, alloc); }
  }

  lemma StableUsers<C>(s: Server<C>, before: seq<UserInfo>, after: seq<UserInfo>, deleted: seq<UserInfo>, alloc: map<string, C>)
    requires Setting(s, before, after, deleted, alloc) && StableIds(before, after)
    ensures Incremental(s, before, after, deleted, alloc).users == UsersOf(after)
  {
    hide Incremental, AnySetting;
    var inc, full := Incremental(s, before, after, deleted, alloc).users, UsersOf(after);
    UsersOfLast(after);
    forall k ensures k in inc <==> k in full { PatchedUser(s, before, after, deleted, alloc, k); }
    forall k | k in full ensures inc[k] == full[k] {
      BothUsers(s, before, after, deleted, alloc, full[k]);
    }
  }

  /** Why distinct uuids are required: a repeated uuid is first modified, then added, and the fold applies them the other way round. */
  lemma RepeatedUuidDiverges()
    ensures var a, b, c := UserInfo(1, "u", "a", 0, 0), UserInfo(1, "u", "b", 0, 0), UserInfo(1, "u", "c", 0, 0);
      var d := Walk(Last([a]), [b, c]);
      ListedAll(UsersOf([a]), d.added + d.modified) != UsersOf([b, c])
  {
    var a, b, c := UserInfo(1, "u", "a", 0, 0), UserInfo(1, "u", "b", 0, 0), UserInfo(1, "u", "c", 0, 0);
    var m := map["u" := a];
    assert [a][..0] == [] && [b, c][..1] == [b] && [b][..0] == [] && [c, b][..1] == [c];
    assert Last([a]) == m;
    assert Walk(m, []) == Delta(m, [], []);
    var d1 := Walk(m, [b]);
    assert d1 == Compare(Delta(m, [], []), b);
    assert d1.rest == map[] && d1.added == [] && d1.modified == [b];
    var d := Walk(m, [b, c]);
    assert d == Compare(d1, c) && d.added + d.modified == [c, b];
    ListedHit(UsersOf([a]), [c], c);
    assert ListedAll(UsersOf([a]), [c, b])["u"] == b;
    assert UsersOf([b, c])["u"] == c;
  }

  /**
    Every counter of the full update is there after the incremental one, the same object with the same
    bytes; what is left over is an empty counter of somebody who is not a user. Only the online
    entries of deleted users differ otherwise.
  */
  lemma IncrementalCounters<C>(s: Server<C>, before: seq<UserInfo>, after: seq<UserInfo>, deleted: seq<UserInfo>, alloc: map<string, C>)
    requires Setting(s, before, after, deleted, alloc)
    ensures var inc, full := Incremental(s, before, after, deleted, alloc), Full(s, before, after, deleted, alloc);
      && inc.WellFormed() && full.WellFormed() && inc.index == full.index
      && (forall u <- full.counters :: u in inc.counters && inc.counters[u] == full.counters[u] && inc.Held(u) == full.Held(u))
      && (forall u <- inc.counters :: u !in full.counters ==> u !in inc.users && u !in full.users && inc.Held(u) == ZERO)
      && inc.online == full.online - Uuids(deleted)
  {
    FullIs(s, before, after, deleted, alloc);
    IncrementalIs(s, before, after, deleted, alloc);
    DiffExact(before, after, deleted);
    UsersOfLast(after);
    var inc, full := Incremental(s, before, after, deleted, alloc), Full(s, before, after, deleted, alloc);
    forall u <- inc.counters ensures inc.Held(u) == if u in s.counters then s.Held(u) else ZERO {}
    forall u <- full.counters ensures full.Held(u) == if u in s.counters then s.Held(u) else ZERO {}
    forall k ensures k in inc.users <==> k != "" && k in Uuids(after) { PatchedUser(s, before, after, deleted, alloc, k); }
  }

  /** With stable ids both updates report the same traffic, for every threshold. */
  lemma IncrementalTraffic<C>(s: Server<C>, before: seq<UserInfo>, after: seq<UserInfo>, deleted: seq<UserInfo>, alloc: map<string, C>,
                              threshold: int, out: seq<UserTraffic>)
    requires Setting(s, before, after, deleted, alloc) && StableIds(before, after)
    ensures var inc, full := Incremental(s, before, after, deleted, alloc), Full(s, before, after, deleted, alloc);
      && inc.users == full.users && inc.Linked() && full.Linked()
      && (IsSlice(inc, threshold, out) <==> IsSlice(full, threshold, out))
  {
    IncrementalUsers(s, before, after, deleted, alloc);
    IncrementalCounters(s, before, after, deleted, alloc);
    var inc, full := Incremental(s, before, after, deleted, alloc), Full(s, before, after, deleted, alloc);
    SameSlices(inc, full, threshold, out);
  }

  lemma SameSlices<C>(inc: Server<C>, full: Server<C>, threshold: int, out: seq<UserTraffic>)
    requires inc.WellFormed() && full.WellFormed() && inc.users == full.users
    requires forall u <- full.counters :: u in inc.counters && inc.Held(u) == full.Held(u)
    requires forall u <- inc.counters :: u !in full.counters ==> u !in inc.users
    ensures IsSlice(inc, threshold, out) <==> IsSlice(full, threshold, out)
  {
    forall u | u in full.counters
      ensures Reportable(inc, u, threshold) <==> Reportable(full, u, threshold)
      ensures u in inc.users ==> TrafficOf(inc, u) == TrafficOf(full, u)
    {
      assert inc.Held(u) == full.Held(u);
    }
  }

  // ---- the hash index ----

  /** With stable and distinct ids the rebuilds after the two updates give the same index. */
  lemma IncrementalIndex<C>(s: Server<C>, before: seq<UserInfo>, after: seq<UserInfo>, deleted: seq<UserInfo>, alloc: map<string, C>,
                            cfg: K.Config, crypto: K.Crypto, node: K.Node,
                            w: K.World, was: K.Store, now: K.Store, out: seq<UserKey>,
                            between: seq<K.Call>, w2: K.World, was2: K.Store, now2: K.Store, out2: seq<UserKey>)
    requires Setting(s, before, after, deleted, alloc) && StableIds(before, after) && R.DistinctUserIds(UsersOf(after))
    requires K.Rebuilds(cfg, crypto, node, w, Incremental(s, before, after, deleted, alloc).users, was, now, Some(out))
    requires K.Rebuilds(cfg, crypto, node, w2, Full(s, before, after, deleted, alloc).users, was2, now2, Some(out2))
    requires R.Continues(cfg, crypto, was, w, now, between, w2, was2)
    ensures IndexOf(out) == IndexOf(out2)
  {
    StableUsers(s, before, after, deleted, alloc);
    IncrementalUsers(s, before, after, deleted, alloc);
    UsersOfKeys(after);
    hide AnySetting, Incremental, Full, StableIds, K.Rebuilds, R.Continues, R.DistinctUserIds, UsersOf, IndexOf;
    R.RebuildsSameIndex(cfg, crypto, node, UsersOf(after), w, was, now, out, between, w2, was2, now2, out2);
  }
}
