/** Incremental against full updates for any new list, repeated uuids included. */
module RepeatedUuids {
  import opened Panel
  import opened Accounting
  import opened UserSync
  import opened UserFolds
  import opened IncrementalUpdate

  /** The first entry of every uuid. */
  function First(list: seq<UserInfo>): (m: map<string, UserInfo>)
    ensures m.Keys == Uuids(list)
    ensures forall k <- m :: m[k].uuid == k && m[k] in list
  {
    if list == [] then map[]
    else
      var n := |list| - 1;
      var init := First(list[..n]);
      assert list == list[..n] + [list[n]];
      if list[n].uuid in init then init else init[list[n].uuid := list[n]]
  }

  function Count(list: seq<UserInfo>, k: string): nat {
    if list == [] then 0 else Count(list[..|list| - 1], k) + if list[|list| - 1].uuid == k then 1 else 0
  }

  lemma {:induction false} Counted(list: seq<UserInfo>, k: string)
    ensures Count(list, k) == 0 <==> k !in Uuids(list)
    ensures Count(list, k) == 1 ==> First(list)[k] == Last(list)[k]
  {
    if list != [] {
      var n := |list| - 1;
      Counted(list[..n], k);
      assert list == list[..n] + [list[n]];
    }
  }

  lemma UuidsMore(init: seq<UserInfo>, user: UserInfo)
    ensures Uuids(init + [user]) == Uuids(init) + {user.uuid}
  {
  }

  /** The modified users are first entries whose profile the table gives otherwise. */
  lemma {:induction false} WalkModified(table: map<string, UserInfo>, users: seq<UserInfo>, x: UserInfo)
    requires forall k <- table :: table[k].uuid == k
    ensures x in Walk(table, users).modified <==>
              x.uuid in table && x.uuid in First(users) && First(users)[x.uuid] == x && ProfileOf(table[x.uuid]) != ProfileOf(x)
  {
    hide Uuids;
    if users != [] {
      var n := |users| - 1;
      WalkModified(table, users[..n], x);
      WalkRest(table, users[..n]);
      assert users == users[..n] + [users[n]];
      UuidsMore(users[..n], users[n]);
    }
  }

  /** What folding the added users in leaves of `k`: the last entry, unless the table has `k` and the list does not repeat it. */
  ghost predicate AddedEnds(table: map<string, UserInfo>, users: seq<UserInfo>, base: map<string, UserInfo>, k: string) {
    var t := ListedAll(base, Walk(table, users).added);
    if k in Uuids(users) && (k !in table || Count(users, k) > 1) then k in t && t[k] == Last(users)[k]
    else (k in t <==> k in base) && (k in base ==> t[k] == base[k])
  }

  /** One more user, definition by definition. */
  lemma OneMore(table: map<string, UserInfo>, init: seq<UserInfo>, u: UserInfo, k: string)
    ensures Walk(table, init + [u]) == Compare(Walk(table, init), u)
    ensures Count(init + [u], k) == Count(init, k) + if u.uuid == k then 1 else 0
    ensures Last(init + [u]) == Last(init)[u.uuid := u]
  {
    var users := init + [u];
    assert users[..|users| - 1] == init && users[|users| - 1] == u;
  }

  lemma AddedStep(table: map<string, UserInfo>, init: seq<UserInfo>, u: UserInfo, base: map<string, UserInfo>, k: string)
    requires (forall j <- table :: table[j].uuid == j) && k != "" && AddedEnds(table, init, base, k)
    ensures AddedEnds(table, init + [u], base, k)
  {
    var list, d := init + [u], Walk(table, init);
    hide Walk, Count, Last, ListedAll, Uuids;
    OneMore(table, init, u, k);
    RestAt(table, init, u.uuid);
    Repeats(init, u, k);
    if u.uuid in d.rest {
      TakesNothing(table, init, u);
    } else {
      TakesLast(table, init, u, base);
    }
  }

  lemma RestAt(table: map<string, UserInfo>, users: seq<UserInfo>, k: string)
    requires forall j <- table :: table[j].uuid == j
    ensures k in Walk(table, users).rest <==> k in table && k !in Uuids(users)
  {
    WalkRest(table, users);
  }

  lemma Repeats(init: seq<UserInfo>, u: UserInfo, k: string)
    ensures k in Uuids(init + [u]) <==> k in Uuids(init) || u.uuid == k
    ensures Count(init, k) == 0 <==> k !in Uuids(init)
  {
    UuidsMore(init, u);
    Counted(init, k);
  }

  lemma TakesNothing(table: map<string, UserInfo>, init: seq<UserInfo>, u: UserInfo)
    requires u.uuid in Walk(table, init).rest
    ensures Walk(table, init + [u]).added == Walk(table, init).added
  {
    OneMore(table, init, u, "");
  }

  lemma TakesLast(table: map<string, UserInfo>, init: seq<UserInfo>, u: UserInfo, base: map<string, UserInfo>)
    requires u.uuid !in Walk(table, init).rest
    ensures ListedAll(base, Walk(table, init + [u]).added) == Listed(ListedAll(base, Walk(table, init).added), u)
  {
    OneMore(table, init, u, "");
    ListedMore(base, Walk(table, init).added, u);
  }

  lemma {:induction false} WalkAdded(table: map<string, UserInfo>, users: seq<UserInfo>, base: map<string, UserInfo>, k: string)
    requires (forall j <- table :: table[j].uuid == j) && k != ""
    ensures AddedEnds(table, users, base, k)
  {
    hide AddedEnds;
    if users == [] {
      AddedNone(table, base, k);
    } else {
      var n := |users| - 1;
      WalkAdded(table, users[..n], base, k);
      AddedStep(table, users[..n], users[n], base, k);
      assert users == users[..n] + [users[n]];
    }
  }

  lemma AddedNone(table: map<string, UserInfo>, base: map<string, UserInfo>, k: string)
    ensures AddedEnds(table, [], base, k)
  {
  }

  lemma {:induction false} ListedTwice(users: map<string, UserInfo>, a: seq<UserInfo>, b: seq<UserInfo>)
    ensures ListedAll(users, a + b) == ListedAll(ListedAll(users, a), b)
  {
    if b == [] {
      assert a + b == a;
    } else {
      var n := |b| - 1;
      ListedTwice(users, a, b[..n]);
      assert a + b == (a + b[..n]) + [b[n]] && b == b[..n] + [b[n]];
      ListedMore(users, a + b[..n], b[n]);
      ListedMore(ListedAll(users, a), b[..n], b[n]);
    }
  }

  /** The first new entry of `k` changes the profile the old list had for it. */
  predicate Modifies(before: seq<UserInfo>, after: seq<UserInfo>, k: string)
    requires k in First(after)
  {
    k in Last(before) && ProfileOf(Last(before)[k]) != ProfileOf(First(after)[k])
  }

  /** The entry the incremental update ends with: a modification is applied after all additions. */
  function PatchedTo(before: seq<UserInfo>, after: seq<UserInfo>, k: string): UserInfo
    requires k in First(after)
  {
    if Modifies(before, after, k) then First(after)[k]
    else if k in Last(before) && Count(after, k) == 1 then Last(before)[k]
    else Last(after)[k]
  }

  lemma PatchedAt<C>(s: Server<C>, before: seq<UserInfo>, after: seq<UserInfo>, deleted: seq<UserInfo>, alloc: map<string, C>, k: string)
    requires AnySetting(s, before, after, deleted, alloc)
    ensures var t := Incremental(s, before, after, deleted, alloc).users;
      && (k in t <==> k != "" && k in First(after))
      && (k in t ==> t[k] == PatchedTo(before, after, k))
  {
    IncrementalList(s, before, after, deleted, alloc);
    hide AnySetting, Incremental;
    PatchedFold(before, after, deleted, k);
  }

  lemma PatchedFold(before: seq<UserInfo>, after: seq<UserInfo>, deleted: seq<UserInfo>, k: string)
    requires Enumerates(deleted, Walk(Last(before), after).rest)
    ensures var d := Walk(Last(before), after); var t := ListedAll(UsersOf(before) - Uuids(deleted), d.added + d.modified);
      && (k in t <==> k != "" && k in First(after))
      && (k in t ==> t[k] == PatchedTo(before, after, k))
  {
    var d, base := Walk(Last(before), after), UsersOf(before) - Uuids(deleted);
    WalkRest(Last(before), after);
    UsersOfLast(before);
    ListedTwice(base, d.added, d.modified);
    if k == "" {
      NeverListed(base, d.added + d.modified);
    } else {
      WalkAdded(Last(before), after, base, k);
      Counted(after, k);
      var mid := ListedAll(base, d.added);
      hide Walk, ListedAll, UsersOf, Uuids, Last, First, Count, Enumerates;
      if k in First(after) && Modifies(before, after, k) {
        var x := First(after)[k];
        forall y ensures y in d.modified && y.uuid == k ==> y == x { WalkModified(Last(before), after, y); }
        WalkModified(Last(before), after, x);
        ListedHit(mid, d.modified, x);
      } else {
        forall y ensures y in d.modified ==> y.uuid != k { WalkModified(Last(before), after, y); }
        ListedMiss(mid, d.modified, k);
      }
    }
  }

  lemma NeverListed(base: map<string, UserInfo>, list: seq<UserInfo>)
    requires "" !in base
    ensures "" !in ListedAll(base, list)
  {
    ListedMiss(base, list, "");
  }

  /** The incremental update leaves `k` the entry the replacement leaves it. */
  predicate Faithful(before: seq<UserInfo>, after: seq<UserInfo>, k: string)
    requires k in First(after)
  {
    if Modifies(before, after, k) then First(after)[k] == Last(after)[k]
    else k in Last(before) && Count(after, k) == 1 ==> Last(before)[k].id == Last(after)[k].id
  }

  /**
    For any new list the incremental update gives the replacement's users exactly when every uuid of the
    old list whose first new entry modifies it ends with that entry, and every unchanged one keeps its id.
  */
  lemma IncrementalUsersExactly<C>(s: Server<C>, before: seq<UserInfo>, after: seq<UserInfo>, deleted: seq<UserInfo>, alloc: map<string, C>)
    requires AnySetting(s, before, after, deleted, alloc)
    ensures Incremental(s, before, after, deleted, alloc).users == Full(s, before, after, deleted, alloc).users
            <==> forall k <- First(after) :: k != "" ==> Faithful(before, after, k)
  {
    var inc := Incremental(s, before, after, deleted, alloc).users;
    FullUsers(s, before, after, deleted, alloc);
    forall k ensures (k in inc <==> k != "" && k in First(after)) && (k in inc ==> inc[k] == PatchedTo(before, after, k)) {
      PatchedAt(s, before, after, deleted, alloc, k);
    }
    hide AnySetting, Incremental, Full, UsersOf, Uuids, PatchedTo, Faithful;
    UsersIff(inc, before, after);
  }

  lemma UsersIff(inc: map<string, UserInfo>, before: seq<UserInfo>, after: seq<UserInfo>)
    requires forall k :: (k in inc <==> k != "" && k in First(after)) && (k in inc ==> inc[k] == PatchedTo(before, after, k))
    ensures inc == UsersOf(after) <==> forall k <- First(after) :: k != "" ==> Faithful(before, after, k)
  {
    UsersOfLast(after);
    LastKeys(after);
    hide UsersOf, Uuids, Last, First, PatchedTo, Faithful;
    assert inc.Keys == UsersOf(after).Keys;
    forall k | k in inc ensures inc[k] == UsersOf(after)[k] <==> Faithful(before, after, k) {
      FaithfulIs(before, after, k);
    }
  }

  lemma FullUsers<C>(s: Server<C>, before: seq<UserInfo>, after: seq<UserInfo>, deleted: seq<UserInfo>, alloc: map<string, C>)
    requires AnySetting(s, before, after, deleted, alloc)
    ensures Full(s, before, after, deleted, alloc).users == UsersOf(after)
  {
    SettingOk(s, before, after, deleted, alloc);
    ReplaceIs(s, after, alloc);
  }

  lemma FaithfulIs(before: seq<UserInfo>, after: seq<UserInfo>, k: string)
    requires k in First(after)
    ensures k in Last(after) && (PatchedTo(before, after, k) == Last(after)[k] <==> Faithful(before, after, k))
  {
    LastKeys(after);
    Counted(after, k);
  }
}
