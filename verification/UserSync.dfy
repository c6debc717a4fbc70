/** The list difference (internal/controller/controller.go) and what applying it to a server means. */
module UserSync {
  import opened Panel
  import opened Accounting

  datatype Profile = Profile(speedLimit: int, deviceLimit: int, email: string)

  function ProfileOf(u: UserInfo): Profile { Profile(u.speedLimit, u.deviceLimit, u.email) }

  /** The controller's lookup table: the last entry of a uuid wins; the empty uuid is a uuid like any other. */
  function Last(list: seq<UserInfo>): (m: map<string, UserInfo>)
    ensures forall k <- m :: m[k].uuid == k && m[k] in list
    ensures forall u <- list :: u.uuid in m
  {
    if list == [] then map[]
    else
      var n := |list| - 1;
      assert list == list[..n] + [list[n]];
      Last(list[..n])[list[n].uuid := list[n]]
  }

  function Profiles(list: seq<UserInfo>): map<string, Profile> {
    map k | k in Last(list) :: ProfileOf(Last(list)[k])
  }

  ghost predicate DistinctUuids(list: seq<UserInfo>) {
    forall i, j | 0 <= i < j < |list| :: list[i].uuid != list[j].uuid
  }

  function Uuids(list: seq<UserInfo>): set<string> {
    set u | u in list :: u.uuid
  }

  /** The comparison loop after some new users: what is left of the table and what was collected. */
  datatype Delta = Delta(rest: map<string, UserInfo>, added: seq<UserInfo>, modified: seq<UserInfo>)

  function Compare(d: Delta, user: UserInfo): Delta {
    if user.uuid !in d.rest then d.(added := d.added + [user])
    else d.(rest := d.rest - {user.uuid},
            modified := if ProfileOf(d.rest[user.uuid]) != ProfileOf(user) then d.modified + [user] else d.modified)
  }

  function Walk(table: map<string, UserInfo>, users: seq<UserInfo>): Delta {
    if users == [] then Delta(table, [], []) else Compare(Walk(table, users[..|users| - 1]), users[|users| - 1])
  }

  /** `list` holds each entry of `m` once, in some order. */
  ghost predicate Enumerates(list: seq<UserInfo>, m: map<string, UserInfo>) {
    && DistinctUuids(list) && Uuids(list) == m.Keys
    && (forall u <- list :: u.uuid in m && m[u.uuid] == u)
  }

  /** The first loop: the old list as a table. */
  method TableOf(users: seq<UserInfo>) returns (m: map<string, UserInfo>)
    ensures m == Last(users)
  {
    m := map[];
    assert users[..0] == [];
    for i := 0 to |users|
      invariant m == Last(users[..i])
    {
      assert users[..i + 1][..i] == users[..i];
      m := m[users[i].uuid := users[i]];
    }
    assert users[..|users|] == users;
  }

  /** The last loop: what is left in the table, in whatever order the map yields it. */
  method ListRest(m: map<string, UserInfo>) returns (deleted: seq<UserInfo>)
    requires forall k <- m :: m[k].uuid == k
    ensures Enumerates(deleted, m)
  {
    deleted := [];
    var todo := m.Keys;
    while todo != {}
      invariant todo <= m.Keys && Uuids(deleted) == m.Keys - todo && DistinctUuids(deleted)
      invariant forall u <- deleted :: u.uuid in m && m[u.uuid] == u
      decreases todo
    {
      var uuid :| uuid in todo;
      todo := todo - {uuid};
      assert Uuids(deleted + [m[uuid]]) == Uuids(deleted) + {uuid};
      forall i | 0 <= i < |deleted| ensures deleted[i].uuid != uuid { assert deleted[i].uuid in Uuids(deleted); }
      deleted := deleted + [m[uuid]];
    }
  }

  method CompareUserList(oldUsers: seq<UserInfo>, newUsers: seq<UserInfo>)
      returns (deleted: seq<UserInfo>, added: seq<UserInfo>, modified: seq<UserInfo>)
    ensures var d := Walk(Last(oldUsers), newUsers);
      added == d.added && modified == d.modified && Enumerates(deleted, d.rest)
  {
    var oldMap := TableOf(oldUsers);
    added, modified := [], [];
    assert newUsers[..0] == [];
    for i := 0 to |newUsers|
      invariant Delta(oldMap, added, modified) == Walk(Last(oldUsers), newUsers[..i])
    {
      assert newUsers[..i + 1][..i] == newUsers[..i];
      var user := newUsers[i];
      if user.uuid !in oldMap {
        added := added + [user];
      } else {
        var existing := oldMap[user.uuid];
        if existing.speedLimit != user.speedLimit || existing.deviceLimit != user.deviceLimit || existing.email != user.email {
          modified := modified + [user];
        }
        oldMap := oldMap - {user.uuid};
      }
    }
    assert newUsers[..|newUsers|] == newUsers;
    WalkRest(Last(oldUsers), newUsers);
    deleted := ListRest(oldMap);
  }

  lemma {:induction false} WalkRest(table: map<string, UserInfo>, users: seq<UserInfo>)
    requires forall k <- table :: table[k].uuid == k
    ensures var d := Walk(table, users);
      d.rest == (map k | k in table && k !in Uuids(users) :: table[k])
  {
    if users != [] {
      var n := |users| - 1;
      WalkRest(table, users[..n]);
      assert users == users[..n] + [users[n]];
      assert Uuids(users) == Uuids(users[..n]) + {users[n].uuid};
    }
  }

  /** With distinct uuids the walk classifies every new user by the table alone. */
  lemma {:induction false} WalkDistinct(table: map<string, UserInfo>, users: seq<UserInfo>)
    requires DistinctUuids(users) && forall k <- table :: table[k].uuid == k
    ensures var d := Walk(table, users);
      && (forall u: UserInfo :: u in d.added <==> u in users && u.uuid !in table)
      && (forall u: UserInfo :: u in d.modified <==> u in users && u.uuid in table && ProfileOf(table[u.uuid]) != ProfileOf(u))
  {
    if users != [] {
      var n := |users| - 1;
      WalkDistinct(table, users[..n]);
      WalkRest(table, users[..n]);
      assert users == users[..n] + [users[n]];
      assert users[n].uuid !in Uuids(users[..n]);
    }
  }

  /** Nothing added means nothing repeated and nothing unknown. */
  lemma {:induction false} NothingAdded(table: map<string, UserInfo>, users: seq<UserInfo>)
    requires Walk(table, users).added == [] && forall k <- table :: table[k].uuid == k
    ensures DistinctUuids(users) && Uuids(users) <= table.Keys
  {
    if users != [] {
      var n := |users| - 1;
      NothingAdded(table, users[..n]);
      WalkRest(table, users[..n]);
      assert users == users[..n] + [users[n]];
      forall i | 0 <= i < n ensures users[i].uuid != users[n].uuid { assert users[..n][i].uuid in Uuids(users[..n]); }
    }
  }

  lemma {:induction false} LastDistinct(users: seq<UserInfo>, u: UserInfo)
    requires DistinctUuids(users) && u in users
    ensures Last(users)[u.uuid] == u
  {
    var v := Last(users)[u.uuid];
    var i :| 0 <= i < |users| && users[i] == u;
    var j :| 0 <= j < |users| && users[j] == v;
  }

  /**
    The three lists are empty exactly when the new list repeats no uuid and both lists
    give the same uuid to (speed, device, email) map.
  */
  lemma DiffEmptyIff(before: seq<UserInfo>, after: seq<UserInfo>)
    ensures var d := Walk(Last(before), after);
      (d.rest == map[] && d.added == [] && d.modified == []) <==> DistinctUuids(after) && Profiles(before) == Profiles(after)
  {
    var d := Walk(Last(before), after);
    if d.rest == map[] && d.added == [] && d.modified == [] {
      NothingAdded(Last(before), after);
      EmptyDiffAgrees(before, after);
    }
    if DistinctUuids(after) && Profiles(before) == Profiles(after) {
      AgreeingDiffEmpty(before, after);
    }
  }

  lemma EmptyDiffAgrees(before: seq<UserInfo>, after: seq<UserInfo>)
    requires DistinctUuids(after) && Uuids(after) <= Last(before).Keys
    requires Walk(Last(before), after).rest == map[] && Walk(Last(before), after).modified == []
    ensures Profiles(before) == Profiles(after)
  {
    hide Walk, Last, DistinctUuids, Uuids;
    forall k ensures k in Last(before) <==> k in Last(after) { EmptyDiffAt(before, after, k); }
    forall k | k in Last(before) ensures ProfileOf(Last(before)[k]) == ProfileOf(Last(after)[k]) { EmptyDiffAt(before, after, k); }
    SameProfiles(before, after);
  }

  lemma SameProfiles(before: seq<UserInfo>, after: seq<UserInfo>)
    requires forall k :: k in Last(before) <==> k in Last(after)
    requires forall k <- Last(before) :: ProfileOf(Last(before)[k]) == ProfileOf(Last(after)[k])
    ensures Profiles(before) == Profiles(after)
  {
    hide Last, ProfileOf;
    assert Profiles(before).Keys == Profiles(after).Keys;
  }

  lemma EmptyDiffAt(before: seq<UserInfo>, after: seq<UserInfo>, k: string)
    requires DistinctUuids(after) && Uuids(after) <= Last(before).Keys
    requires Walk(Last(before), after).rest == map[] && Walk(Last(before), after).modified == []
    ensures k in Last(before) <==> k in Last(after)
    ensures k in Last(before) ==> ProfileOf(Last(before)[k]) == ProfileOf(Last(after)[k])
  {
    var was, now := Last(before), Last(after);
    WalkRest(was, after);
    WalkDistinct(was, after);
    assert k in now ==> now[k] in after && k in Uuids(after);
    if k in was {
      assert k in Uuids(after) || k in Walk(was, after).rest;
      var u :| u in after && u.uuid == k;
      LastDistinct(after, u);
      assert u !in Walk(was, after).modified;
    }
  }

  lemma SomeMember(list: seq<UserInfo>)
    ensures list == [] || exists u :: u in list
  {
    assert list == [] || list[0] in list;
  }

  lemma AgreeingDiffEmpty(before: seq<UserInfo>, after: seq<UserInfo>)
    requires DistinctUuids(after) && Profiles(before) == Profiles(after)
    ensures Walk(Last(before), after) == Delta(map[], [], [])
  {
    var was, now, d := Last(before), Last(after), Walk(Last(before), after);
    WalkRest(was, after);
    WalkDistinct(was, after);
    assert was.Keys == Profiles(before).Keys == Profiles(after).Keys == now.Keys;
    forall u <- after ensures u.uuid in was && ProfileOf(was[u.uuid]) == ProfileOf(u) {
      LastDistinct(after, u);
      assert Profiles(after)[u.uuid] == Profiles(before)[u.uuid];
    }
    assert forall k <- now :: now[k] in after && now[k].uuid == k;
    SomeMember(d.added);
    SomeMember(d.modified);
  }

  /** With distinct new uuids the outputs are disjoint and cover exactly the change; ids are not compared. */
  lemma DiffExact(before: seq<UserInfo>, after: seq<UserInfo>, deleted: seq<UserInfo>)
    requires DistinctUuids(after) && Enumerates(deleted, Walk(Last(before), after).rest)
    ensures var d := Walk(Last(before), after);
      && Uuids(deleted) !! Uuids(d.added) && Uuids(deleted) !! Uuids(d.modified) && Uuids(d.added) !! Uuids(d.modified)
      && (forall u: UserInfo :: u in deleted <==> u.uuid in Last(before) && Last(before)[u.uuid] == u && u.uuid !in Uuids(after))
      && (forall u: UserInfo :: u in d.added <==> u in after && u.uuid !in Last(before))
      && (forall u: UserInfo :: u in d.modified <==> u in after && u.uuid in Last(before) && ProfileOf(Last(before)[u.uuid]) != ProfileOf(u))
  {
    WalkRest(Last(before), after);
    WalkDistinct(Last(before), after);
    forall u: UserInfo | u.uuid in Last(before) && Last(before)[u.uuid] == u && u.uuid !in Uuids(after) ensures u in deleted {
      assert u.uuid in Uuids(deleted);
    }
  }
}
