/** The second ledger (internal/runtime/external.go): pending totals, zero entries removed. */
module ExternalServer {
  import opened Panel
  import opened Accounting
  import opened Online
  import opened EmbeddedServer
  import opened Sorting
  import opened UserSync
  import K = KeyStore

  datatype Pending = Pending(uid: int, uuid: string, bytes: Bytes)

  const NOTHING := Pending(0, "", ZERO)

  /** One decoded JSON event line. */
  datatype EventLine = EventLine(kind: string, userHash: string, ip: string, upload: int, download: int)

  datatype Book = Book(
    users: map<string, UserInfo>,
    index: map<string, string>,
    pending: map<string, Pending>,
    online: Log)
  {
    function At(uuid: string): Pending { if uuid in pending then pending[uuid] else NOTHING }

    /** The user an event with this hash belongs to. */
    function Owner(hash: string): Option<string> {
      if hash in index && index[hash] != "" && index[hash] in users && users[index[hash]].id != 0
      then Some(index[hash]) else None
    }
  }

  function Add(b: Book, uuid: string, upload: int, download: int): Book
    requires uuid in b.users
  {
    var d := b.At(uuid).bytes;
    b.(pending := b.pending[uuid := Pending(b.users[uuid].id, uuid, Bytes(Wrap64(d.up + upload), Wrap64(d.down + download)))])
  }

  /** ImportEventLine on a line that parsed. */
  function Import(b: Book, e: EventLine, now: int): Book {
    match b.Owner(e.userHash)
    case None => b
    case Some(u) =>
      if e.kind == "open" then b.(online := b.online[u := OnlineState(now, e.ip)])
      else if e.kind == "close" then b.(online := b.online - {u})
      else if e.kind == "traffic" then Add(b, u, e.upload, e.download)
      else b
  }

  /**
    What one event does to a book, by its kind: "open" notes the owner as seen now from the event's address,
    "close" forgets it, "traffic" adds to its entry under its present id, as long as the sums fit.
  */
  lemma ImportEffects(b: Book, e: EventLine, now: int, u: string)
    requires b.Owner(e.userHash) == Some(u)
    ensures var t := Import(b, e, now); var was := b.At(u).bytes;
      && t.users == b.users && t.index == b.index
      && (e.kind == "open" ==> t.online == b.online[u := OnlineState(now, e.ip)])
      && (e.kind == "close" ==> t.online == b.online - {u})
      && (e.kind != "open" && e.kind != "close" ==> t.online == b.online)
      && (e.kind != "traffic" ==> t.pending == b.pending)
      && (e.kind == "traffic" && InInt64(was.up + e.upload) && InInt64(was.down + e.download) ==>
            t.pending == b.pending[u := Pending(b.users[u].id, u, Bytes(was.up + e.upload, was.down + e.download))])
  {
    hide Wrap64;
  }

  predicate InInt64(x: int) { MIN_INT64 <= x <= MAX_INT64 }

  /** An open that is closed again leaves the owner offline and everybody else as before. */
  lemma OpenThenClose(b: Book, hash: string, ip: string, since: int, until: int, up: int, down: int)
    ensures var t := Import(Import(b, EventLine("open", hash, ip, up, down), since), EventLine("close", hash, ip, up, down), until);
      && t.pending == b.pending && (b.Owner(hash).None? ==> t == b)
      && (b.Owner(hash).Some? ==> t.online == b.online - {b.Owner(hash).value})
  {
  }

  /** One iteration of ConfirmUserTraffic, the uuid already resolved. */
  function Settle(b: Book, uuid: string, take: Bytes): Book {
    var left := Subtract(b.At(uuid).bytes, take);
    if left == ZERO then b.(pending := b.pending - {uuid})
    else b.(pending := b.pending[uuid := b.At(uuid).(bytes := left)])
  }

  function SettleAll(b: Book, reported: seq<UserTraffic>, targets: seq<string>): (r: Book)
    requires |reported| == |targets|
    ensures r.users == b.users
  {
    if reported == [] then b
    else
      var n := |reported| - 1;
      Settle(SettleAll(b, reported[..n], targets[..n]), targets[n], Bytes(reported[n].upload, reported[n].download))
  }

  predicate Due(p: Pending, threshold: int) { Wrap64(p.bytes.up + p.bytes.down) > threshold }

  function LineFor(p: Pending): UserTraffic { UserTraffic(p.uid, p.uuid, p.bytes.up, p.bytes.down) }

  function DueKeys(b: Book, threshold: int): set<string> {
    set u | u in b.pending && Due(b.pending[u], threshold)
  }

  function KeysOfLine(pending: map<string, Pending>, keys: set<string>, t: UserTraffic): set<string> {
    set u | u in keys && u in pending && LineFor(pending[u]) == t
  }

  /** `out` is the slice for `threshold`: one line per due entry and nothing else. */
  ghost predicate IsBookSlice(b: Book, threshold: int, out: seq<UserTraffic>) {
    forall t :: multiset(out)[t] == |KeysOfLine(b.pending, DueKeys(b, threshold), t)|
  }

  class External {
    const node: K.Node
    const pushInterval: int
    const keyStore: K.ClientKeyStore
    /** The hash of the configuration built from the node and the settings, if it can be built. */
    const configHash: Option<string>
    var users: map<string, UserInfo>
    var userHashToUUID: map<string, string>
    var pending: map<string, Pending>
    var online: Log
    var lastConfigHash: string
    /** Whether the process runs. */
    var running: bool
    ghost var restarts: nat

    ghost function View(): Book
      reads this
    {
      Book(users, userHashToUUID, pending, online)
    }

    /** The tables of users are keyed by uuid. */
    ghost predicate Valid()
      reads this
    {
      forall u <- users :: u != "" && users[u].uuid == u
    }

    /** The configuration file is the one this server asks for. */
    predicate Applied()
      reads this
    {
      configHash == Some(lastConfigHash)
    }

    constructor (node: K.Node, pushInterval: int, keyStore: K.ClientKeyStore, configHash: Option<string>)
      ensures this.node == node && this.pushInterval == pushInterval && this.keyStore == keyStore && this.configHash == configHash
      ensures View() == Book(map[], map[], map[], map[]) && Valid() && lastConfigHash == "" && !running
    {
      this.node, this.pushInterval, this.keyStore, this.configHash := node, pushInterval, keyStore, configHash;
      users, userHashToUUID, pending, online := map[], map[], map[], map[];
      lastConfigHash, running, restarts := "", false, 0;
    }

    /** `line` is the decoded event, or nothing when the text is not valid JSON. */
    method ImportEventLine(line: Option<EventLine>, now: int) returns (ok: bool)
      modifies this`online, this`pending
      ensures ok == line.Some?
      ensures View() == if ok then Import(old(View()), line.value, now) else old(View())
    {
      if line.None? { return false; }
      ok := true;
      var e := line.value;
      if e.userHash !in userHashToUUID || userHashToUUID[e.userHash] == "" { return; }
      var uuid := userHashToUUID[e.userHash];
      if uuid !in users || users[uuid].id == 0 { return; }
      if e.kind == "open" {
        online := online[uuid := OnlineState(now, e.ip)];
      } else if e.kind == "close" {
        online := online - {uuid};
      } else if e.kind == "traffic" {
        var d := if uuid in pending then pending[uuid] else NOTHING;
        var bytes := Bytes(Wrap64(d.bytes.up + e.upload), Wrap64(d.bytes.down + e.download));
        pending := pending[uuid := Pending(users[uuid].id, uuid, bytes)];
      }
    }

    method GetUserTrafficSlice(reportMin: int) returns (out: seq<UserTraffic>)
      ensures IsBookSlice(View(), Threshold(reportMin), out) && SortedByUid(out)
    {
      var threshold := Threshold(reportMin);
      var lines: seq<UserTraffic> := [];
      ghost var seen: set<string> := {};
      var todo := pending.Keys;
      while todo != {}
        invariant todo <= pending.Keys
        invariant seen == set u | u in pending && u !in todo && Due(pending[u], threshold)
        invariant forall t :: multiset(lines)[t] == |KeysOfLine(pending, seen, t)|
        decreases todo
      {
        var uuid :| uuid in todo;
        todo := todo - {uuid};
        if Due(pending[uuid], threshold) {
          SeeLine(pending, seen, lines, uuid);
          lines := lines + [LineFor(pending[uuid])];
          seen := seen + {uuid};
        }
      }
      assert seen == DueKeys(View(), threshold);
      out := Sort((t: UserTraffic) => t.uid, lines);
    }

    method UuidByUidLocked(uid: int) returns (uuid: string)
      ensures Resolves(users, UserTraffic(uid, "", 0, 0), uuid)
    {
      var todo := users.Keys;
      while todo != {}
        invariant todo <= users.Keys && forall u <- users :: u in todo || users[u].id != uid
        decreases todo
      {
        uuid :| uuid in todo;
        if users[uuid].id == uid { return; }
        todo := todo - {uuid};
      }
      uuid := "";
    }

    /** One iteration of the confirm loop. */
    method ConfirmLine(t: UserTraffic) returns (ghost target: string)
      modifies this`pending
      ensures Resolves(users, t, target)
      ensures View() == Settle(old(View()), target, Bytes(t.upload, t.download))
    {
      var uuid := t.uuid;
      if uuid == "" {
        uuid := UuidByUidLocked(t.uid);
      }
      var delta := if uuid in pending then pending[uuid] else NOTHING;
      var up := if t.upload >= delta.bytes.up then 0 else delta.bytes.up - t.upload;
      var down := if t.download >= delta.bytes.down then 0 else delta.bytes.down - t.download;
      if up == 0 && down == 0 {
        pending := pending - {uuid};
      } else {
        pending := pending[uuid := delta.(bytes := Bytes(up, down))];
      }
      target := uuid;
    }

    method ConfirmUserTraffic(reported: seq<UserTraffic>) returns (ghost targets: seq<string>)
      modifies this`pending
      ensures |targets| == |reported| && forall i | 0 <= i < |reported| :: Resolves(users, reported[i], targets[i])
      ensures View() == SettleAll(old(View()), reported, targets)
    {
      targets := [];
      assert reported[..0] == [];
      for i := 0 to |reported|
        invariant |targets| == i && forall k | 0 <= k < i :: Resolves(users, reported[k], targets[k])
        invariant View() == SettleAll(old(View()), reported[..i], targets)
      {
        ghost var target := ConfirmLine(reported[i]);
        assert reported[..i + 1][..i] == reported[..i] && (targets + [target])[..i] == targets;
        targets := targets + [target];
      }
      assert reported[..|reported|] == reported;
    }

    method UpsertUsers(list: seq<UserInfo>)
      requires Valid()
      modifies this`users
      ensures users == ListedAll(old(users), list) && Valid()
    {
      assert list[..0] == [];
      for i := 0 to |list|
        invariant users == ListedAll(old(users), list[..i]) && Valid()
      {
        assert list[..i + 1][..i] == list[..i];
        if list[i].uuid != "" {
          users := users[list[i].uuid := list[i]];
        }
      }
      assert list[..|list|] == list;
    }

    method DeleteUsers(list: seq<UserInfo>)
      requires Valid()
      modifies this`users, this`online
      ensures users == old(users) - Uuids(list) && online == old(online) - Uuids(list) && Valid()
    {
      for i := 0 to |list|
        invariant users == old(users) - Uuids(list[..i]) && Valid()
        invariant online == old(online) - Uuids(list[..i])
      {
        assert list[..i + 1] == list[..i] + [list[i]];
        assert Uuids(list[..i + 1]) == Uuids(list[..i]) + {list[i].uuid};
        users := users - {list[i].uuid};
        online := online - {list[i].uuid};
      }
      assert list[..|list|] == list;
    }

    method ChangeUsers(added: seq<UserInfo>, deleted: seq<UserInfo>, modified: seq<UserInfo>, full: Option<seq<UserInfo>>)
      requires Valid()
      modifies this`users, this`online
      ensures Valid()
      ensures users == if full.Some? then UsersOf(full.value)
                       else ListedAll(old(users) - Uuids(deleted), added + modified)
      ensures online == if full.Some? then old(online) else old(online) - Uuids(deleted)
    {
      if full.Some? {
        users := map[];
        UpsertUsers(full.value);
      } else {
        DeleteUsers(deleted);
        UpsertUsers(added + modified);
      }
    }

    method WriteIndex(keys: seq<UserKey>)
      modifies this`userHashToUUID
      ensures userHashToUUID == ExternalIndex(keys)
    {
      userHashToUUID := map[];
      assert keys[..0] == [];
      for i := 0 to |keys|
        invariant userHashToUUID == ExternalIndex(keys[..i])
      {
        assert keys[..i + 1][..i] == keys[..i];
        userHashToUUID := userHashToUUID[keys[i].userHash := keys[i].uuid];
      }
      assert keys[..|keys|] == keys;
    }

    method RebuildUserHashesLocked(w: K.World) returns (ok: bool, ghost keys: Option<seq<UserKey>>)
      requires Valid()
      modifies this`userHashToUUID, keyStore
      ensures ok == keys.Some?
      ensures userHashToUUID == if ok then ExternalIndex(keys.value) else old(userHashToUUID)
      ensures K.Rebuilds(keyStore.cfg, keyStore.crypto, node, w, users, old(keyStore.View()), keyStore.View(), keys)
    {
      hide K.Answers, ExternalIndex;
      var list := ListRest(users);
      var out;
      ok, out := keyStore.BuildMappings(K.CallOf(node, list, w));
      keys := if ok then Some(out) else None;
      if ok { WriteIndex(out); }
    }

    /** Writes the configuration when it changed, and restarts a running process to read it. */
    method ApplyConfigLocked(writable: bool, startable: bool) returns (ok: bool)
      modifies this`lastConfigHash, this`running, this`restarts
      ensures old(Applied()) ==> ok && running == old(running) && restarts == old(restarts)
      ensures !old(Applied()) ==> Applied() == (configHash.Some? && writable)
      ensures !old(Applied()) && Applied() && old(running) ==> ok == running == startable && restarts == old(restarts) + 1
      ensures !old(Applied()) && !(Applied() && old(running)) ==> ok == Applied() && running == old(running) && restarts == old(restarts)
      ensures old(Applied()) ==> Applied()
    {
      if configHash.None? { return false; }
      if configHash.value == lastConfigHash { return true; }
      if !writable { return false; }
      lastConfigHash := configHash.value;
      ok := true;
      if running {
        restarts := restarts + 1;
        running := startable;
        ok := startable;
      }
    }

    /** A start that succeeds leaves the configuration applied and the process running. */
    method Start(writable: bool, startable: bool) returns (ok: bool)
      modifies this`lastConfigHash, this`running, this`restarts
      ensures ok ==> Applied() && running
    {
      ok := ApplyConfigLocked(writable, startable);
      if ok && !running {
        running := startable;
        ok := startable;
      }
    }

    /**
      UpdateUsers: on a server that started, the configuration depends on nothing an update changes, so the
      process is never restarted and the only error is that of the key store.
    */
    method UpdateUsers(added: seq<UserInfo>, deleted: seq<UserInfo>, modified: seq<UserInfo>,
                       full: Option<seq<UserInfo>>, w: K.World, writable: bool, startable: bool)
        returns (ok: bool, ghost keys: Option<seq<UserKey>>)
      requires Valid()
      modifies this`users, this`online, this`userHashToUUID, this`lastConfigHash, this`running, this`restarts, keyStore
      ensures Valid()
      ensures users == if full.Some? then UsersOf(full.value)
                       else ListedAll(old(users) - Uuids(deleted), added + modified)
      ensures online == if full.Some? then old(online) else old(online) - Uuids(deleted)
      ensures userHashToUUID == if keys.Some? then ExternalIndex(keys.value) else old(userHashToUUID)
      ensures K.Rebuilds(keyStore.cfg, keyStore.crypto, node, w, users, old(keyStore.View()), keyStore.View(), keys)
      ensures keys.None? ==> !ok
      ensures old(Applied()) ==> Applied() && ok == keys.Some? && running == old(running) && restarts == old(restarts)
      ensures ok ==> Applied()
    {
      hide K.Rebuilds, UsersOf, ListedAll, Uuids, ExternalIndex;
      ChangeUsers(added, deleted, modified, full);
      ok, keys := RebuildUserHashesLocked(w);
      if ok {
        ok := ApplyConfigLocked(writable, startable);
      }
    }
  }

  lemma SeeLine(pending: map<string, Pending>, seen: set<string>, lines: seq<UserTraffic>, uuid: string)
    requires uuid in pending && uuid !in seen
    requires forall t :: multiset(lines)[t] == |KeysOfLine(pending, seen, t)|
    ensures forall t :: multiset(lines + [LineFor(pending[uuid])])[t] == |KeysOfLine(pending, seen + {uuid}, t)|
  {
    var line := LineFor(pending[uuid]);
    assert multiset(lines + [line]) == multiset(lines) + multiset{line};
    forall t ensures |KeysOfLine(pending, seen + {uuid}, t)| == |KeysOfLine(pending, seen, t)| + if t == line then 1 else 0 {
      OneMoreKey(pending, seen, uuid, t);
    }
    hide KeysOfLine, LineFor;
  }

  lemma OneMoreKey(pending: map<string, Pending>, seen: set<string>, uuid: string, t: UserTraffic)
    requires uuid in pending && uuid !in seen
    ensures |KeysOfLine(pending, seen + {uuid}, t)| == |KeysOfLine(pending, seen, t)| + if t == LineFor(pending[uuid]) then 1 else 0
  {
    assert KeysOfLine(pending, seen + {uuid}, t) == KeysOfLine(pending, seen, t) + if t == LineFor(pending[uuid]) then {uuid} else {};
  }

  /** The external rebuild writes every key, without the embedded server's checks for empty fields. */
  function ExternalIndex(keys: seq<UserKey>): map<string, string> {
    if keys == [] then map[]
    else ExternalIndex(keys[..|keys| - 1])[keys[|keys| - 1].userHash := keys[|keys| - 1].uuid]
  }
}
