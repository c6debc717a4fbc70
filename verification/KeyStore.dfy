/** Per-user client keys, the key file behind them and the hash index (internal/runtime/key_store.go). */
module KeyStore {
  import opened Panel
  import opened Accounting
  import opened Scalars
  import opened Sorting
  import opened Text
  import UserSync

  type Sum256 = s: seq<Byte> | |s| == 32 witness seq(32, _ => 0)

  /** The hash functions and the string encoding, uninterpreted. */
  datatype Crypto = Crypto(sha256: seq<Byte> -> Sum256, sha512: string -> seq<Byte>, utf8: string -> seq<Byte>)

  datatype Source = Split | Uuid | Deterministic | File | Auto | Unsupported

  function Lower(s: string): string {
    if s == "" then ""
    else [if 'A' <= s[0] <= 'Z' then (s[0] as int + 32) as char else s[0]] + Lower(s[1..])
  }

  /** normalizedClientKeySource, followed by the switch of resolveKeyLocked. */
  function SourceOf(source: string): Source {
    var s := Lower(TrimSpace(source));
    if s == "" || s == "deterministic_split" || s == "split" then Split
    else if s == "uuid" then Uuid
    else if s == "deterministic" then Deterministic
    else if s == "file" then File
    else if s == "auto" then Auto
    else Unsupported
  }

  datatype Config = Config(source: string, seed: string, limit: int)

  datatype Node = Node(id: int, masterPrivateKey: string)

  type Table = map<string, string>

  function At(t: Table, id: int): string { if Itoa(id) in t then t[Itoa(id)] else "" }

  /** userHashHex: eight bytes of the hash of the decoded key, or of its text when it is not hexadecimal. */
  function UserHash(crypto: Crypto, key: string): (h: string)
    ensures |h| == 16
  {
    var k := TrimSpace(key);
    var raw := if HexDecode(k).Some? && HexDecode(k).value != [] then HexDecode(k).value else crypto.utf8(k);
    HexEncode(crypto.sha256(raw)[..8])
  }

  function UserKeyHex(crypto: Crypto, seed: string, node: Node, user: UserInfo): string {
    HexEncode(crypto.sha256(crypto.utf8(UserSeed(seed, node.id, user.id, user.uuid))))
  }

  predicate FileBacked(source: Source) { source == File || source == Auto }

  /** resolveKeyLocked; `draw` is what parsing and splitting the master at random would answer. */
  function Resolve(cfg: Config, crypto: Crypto, t: Table, node: Node, user: UserInfo, draw: KeyResult): KeyResult {
    match SourceOf(cfg.source)
    case Split => SplitKey(node.masterPrivateKey, node.id, user.id, user.uuid, crypto.sha512)
    case Uuid => Key(TrimSpace(user.uuid))
    case Deterministic => Key(UserKeyHex(crypto, cfg.seed, node, user))
    case File => Key(TrimSpace(At(t, user.id)))
    case Auto =>
      if TrimSpace(At(t, user.id)) != "" then Key(TrimSpace(At(t, user.id)))
      else if |t| >= cfg.limit then KeyError
      else if node.masterPrivateKey == "" then KeyError
      else draw
    case Unsupported => KeyError
  }

  /** The loop of BuildMappings: the table, the key of each user so far ("" for none), and how it goes. */
  datatype Progress = Progress(table: Table, keys: seq<string>, changed: bool, failed: bool)

  function Step(cfg: Config, crypto: Crypto, node: Node, p: Progress, user: UserInfo, draw: KeyResult): Progress {
    match Resolve(cfg, crypto, p.table, node, user, draw)
    case KeyError => p.(failed := true)
    case Key(k) =>
      if k != "" && FileBacked(SourceOf(cfg.source)) && At(p.table, user.id) == ""
      then Progress(p.table[Itoa(user.id) := k], p.keys + [k], true, false)
      else p.(keys := p.keys + [k])
  }

  function Scan(cfg: Config, crypto: Crypto, node: Node, t: Table, users: seq<UserInfo>, draws: seq<KeyResult>): (p: Progress)
    requires |users| == |draws|
    ensures !p.failed ==> |p.keys| == |users|
  {
    if users == [] then Progress(t, [], false, false)
    else
      var n := |users| - 1;
      var p := Scan(cfg, crypto, node, t, users[..n], draws[..n]);
      if p.failed then p else Step(cfg, crypto, node, p, users[n], draws[n])
  }

  /** The mappings of the users that have a key. */
  function Mappings(crypto: Crypto, users: seq<UserInfo>, keys: seq<string>): seq<UserKey>
    requires |users| == |keys|
  {
    if users == [] then []
    else
      var n := |users| - 1;
      var out := Mappings(crypto, users[..n], keys[..n]);
      if keys[n] == "" then out else out + [UserKey(users[n].id, users[n].uuid, keys[n], UserHash(crypto, keys[n]))]
  }

  // ---- the key file ----

  /** The file: missing, white space, a decoded table (or none in it), or something that does not decode. */
  datatype Disk = Absent | Blank | Keys(table: Table) | NoTable | Garbage(partial: Table)

  function OnDisk(d: Disk): Table { if d.Keys? then d.table else map[] }

  /** `loaded` is whether the in-memory table exists. */
  datatype Store = Store(loaded: bool, table: Table, disk: Disk)

  function Load(s: Store, readable: bool): (Store, bool) {
    if s.loaded then (s, true)
    else
      var empty := Store(true, map[], s.disk);
      if s.disk == Absent then (empty, true)
      else if !readable then (empty, false)
      else match s.disk
        case Keys(t) => (empty.(table := t), true)
        case Garbage(partial) => (empty.(table := partial), false)
        case _ => (empty, true)
  }

  /** One call of BuildMappings, and what the environment does meanwhile. */
  datatype Call = Call(node: Node, users: seq<UserInfo>, draws: seq<KeyResult>, readable: bool, writable: bool)

  datatype Outcome = Failed | Done(keys: seq<string>)

  function Build(cfg: Config, crypto: Crypto, s: Store, c: Call): (Store, Outcome)
    requires |c.users| == |c.draws|
  {
    var (s1, ok) := if FileBacked(SourceOf(cfg.source)) then Load(s, c.readable) else (s, true);
    if !ok then (s1, Failed)
    else
      var p := Scan(cfg, crypto, c.node, s1.table, c.users, c.draws);
      var s2 := s1.(table := p.table);
      if p.failed then (s2, Failed)
      else if p.changed && !c.writable then (s2, Failed)
      else (if p.changed then s2.(disk := Keys(p.table)) else s2, Done(p.keys))
  }

  /** What the environment does during a rebuild, whatever order the users come in. */
  datatype World = World(draw: nat -> KeyResult, readable: bool, writable: bool)

  function CallOf(node: Node, users: seq<UserInfo>, w: World): (c: Call)
    ensures |c.users| == |c.draws|
  {
    Call(node, users, seq(|users|, i requires 0 <= i < |users| => w.draw(i)), w.readable, w.writable)
  }

  /** `out` are the mappings of a call that succeeded, nothing for one that failed. */
  ghost predicate Answers(cfg: Config, crypto: Crypto, was: Store, c: Call, now: Store, out: Option<seq<UserKey>>)
    requires |c.users| == |c.draws|
  {
    var (t, r) := Build(cfg, crypto, was, c);
    && now == t && out.Some? == r.Done?
    && (r.Done? ==>
          && |r.keys| == |c.users| && SortedBy((k: UserKey) => k.uid, out.value)
          && multiset(out.value) == multiset(Mappings(crypto, c.users, r.keys)))
  }

  /** A server's rebuild: the store is asked for the mappings of the users in some order. */
  ghost predicate Rebuilds(cfg: Config, crypto: Crypto, node: Node, w: World, users: map<string, UserInfo>,
                           was: Store, now: Store, out: Option<seq<UserKey>>) {
    exists list: seq<UserInfo> :: UserSync.Enumerates(list, users) && Answers(cfg, crypto, was, CallOf(node, list, w), now, out)
  }

  class ClientKeyStore {
    const cfg: Config
    const crypto: Crypto
    var loaded: bool
    var table: Table
    var disk: Disk

    ghost function View(): Store
      reads this
    {
      Store(loaded, table, disk)
    }

    constructor (cfg: Config, crypto: Crypto, disk: Disk)
      ensures this.cfg == cfg && this.crypto == crypto && View() == Store(false, map[], disk)
    {
      this.cfg, this.crypto, this.disk := cfg, crypto, disk;
      loaded, table := false, map[];
    }

    method LoadFileLocked(readable: bool) returns (ok: bool)
      modifies this`loaded, this`table
      ensures (View(), ok) == Load(old(View()), readable)
    {
      if loaded { return true; }
      loaded, table := true, map[];
      if disk == Absent { return true; }
      if !readable { return false; }
      if disk.Garbage? {
        table := disk.partial;
        return false;
      }
      if disk.Keys? { table := disk.table; }
      ok := true;
    }

    method SaveFileLocked(writable: bool) returns (ok: bool)
      modifies this`disk
      ensures ok == writable && disk == if writable then Keys(table) else old(disk)
    {
      if writable { disk := Keys(table); }
      ok := writable;
    }

    /** The body of the loop for one user, up to the mapping; `keys` are those handed out before. */
    method ScanUser(node: Node, user: UserInfo, draw: KeyResult, before: bool, ghost keys: seq<string>)
      returns (key: KeyResult, changed: bool)
      modifies this`table
      ensures key == Resolve(cfg, crypto, old(table), node, user, draw)
      ensures key.KeyError? ==> table == old(table) && changed == before
      ensures Step(cfg, crypto, node, Progress(old(table), keys, before, false), user, draw) ==
              if key.KeyError? then Progress(table, keys, before, true) else Progress(table, keys + [key.value], changed, false)
    {
      hide Resolve, SourceOf, Itoa;
      changed := before;
      key := Resolve(cfg, crypto, table, node, user, draw);
      if key.Key? && key.value != "" && FileBacked(SourceOf(cfg.source)) && At(table, user.id) == "" {
        table := table[Itoa(user.id) := key.value];
        changed := true;
      }
    }

    /** The loop over the users. */
    method ScanUsers(c: Call) returns (ok: bool, out: seq<UserKey>, changed: bool)
      requires |c.users| == |c.draws|
      modifies this`table
      ensures var p := Scan(cfg, crypto, c.node, old(table), c.users, c.draws);
        && table == p.table && ok == !p.failed
        && (ok ==> changed == p.changed && out == Mappings(crypto, c.users, p.keys))
    {
      hide UserHash, Resolve, Step;
      ok, out, changed := true, [], false;
      ghost var t, keys: seq<string> := table, [];
      assert c.users[..0] == [] && c.draws[..0] == [];
      for i := 0 to |c.users|
        invariant |keys| == i && out == Mappings(crypto, c.users[..i], keys)
        invariant Scan(cfg, crypto, c.node, t, c.users[..i], c.draws[..i]) == Progress(table, keys, changed, false)
      {
        ScanSplit(cfg, crypto, c.node, t, c.users, c.draws, i);
        var key;
        key, changed := ScanUser(c.node, c.users[i], c.draws[i], changed, keys);
        if key.KeyError? {
          ScanStuck(cfg, crypto, c.node, t, c.users, c.draws, i + 1);
          return false, [], false;
        }
        MappingsSplit(crypto, c.users, keys, key.value, i);
        keys := keys + [key.value];
        if key.value != "" {
          out := out + [UserKey(c.users[i].id, c.users[i].uuid, key.value, UserHash(crypto, key.value))];
        }
      }
      assert c.users[..|c.users|] == c.users && c.draws[..|c.draws|] == c.draws;
    }

    method BuildMappings(c: Call) returns (ok: bool, out: seq<UserKey>)
      requires |c.users| == |c.draws|
      modifies this
      ensures Answers(cfg, crypto, old(View()), c, View(), if ok then Some(out) else None)
    {
      ok, out := true, [];
      if FileBacked(SourceOf(cfg.source)) {
        ok := LoadFileLocked(c.readable);
        if !ok { return; }
      }
      var changed;
      ok, out, changed := ScanUsers(c);
      if !ok { return; }
      out := Sort((k: UserKey) => k.uid, out);
      if changed {
        ok := SaveFileLocked(c.writable);
      }
    }
  }

  lemma ScanSplit(cfg: Config, crypto: Crypto, node: Node, t: Table, users: seq<UserInfo>, draws: seq<KeyResult>, i: nat)
    requires |users| == |draws| && i < |users|
    ensures var p := Scan(cfg, crypto, node, t, users[..i], draws[..i]);
      Scan(cfg, crypto, node, t, users[..i + 1], draws[..i + 1]) ==
      if p.failed then p else Step(cfg, crypto, node, p, users[i], draws[i])
  {
    assert users[..i + 1][..i] == users[..i] && draws[..i + 1][..i] == draws[..i];
  }

  lemma MappingsSplit(crypto: Crypto, users: seq<UserInfo>, keys: seq<string>, key: string, i: nat)
    requires i < |users| && |keys| == i
    ensures Mappings(crypto, users[..i + 1], keys + [key]) == Mappings(crypto, users[..i], keys) +
      if key == "" then [] else [UserKey(users[i].id, users[i].uuid, key, UserHash(crypto, key))]
  {
    assert users[..i + 1][..i] == users[..i] && (keys + [key])[..i] == keys;
  }

  lemma {:induction false} ScanStuck(cfg: Config, crypto: Crypto, node: Node, t: Table, users: seq<UserInfo>, draws: seq<KeyResult>, i: nat)
    requires |users| == |draws| && i <= |users| && Scan(cfg, crypto, node, t, users[..i], draws[..i]).failed
    ensures Scan(cfg, crypto, node, t, users, draws) == Scan(cfg, crypto, node, t, users[..i], draws[..i])
    decreases |users| - i
  {
    if i < |users| {
      ScanSplit(cfg, crypto, node, t, users, draws, i);
      ScanStuck(cfg, crypto, node, t, users, draws, i + 1);
    } else {
      assert users[..i] == users && draws[..i] == draws;
    }
  }

  // ---- sticky keys ----

  /** No entry consists of white space only. */
  ghost predicate NoBlank(t: Table) {
    forall id <- t :: TrimSpace(t[id]) == "" ==> t[id] == ""
  }

  /** Generated keys carry no surrounding white space. */
  ghost predicate CleanDraws(draws: seq<KeyResult>) {
    forall d <- draws :: d.Key? ==> d.value != "" && TrimSpace(d.value) == d.value
  }

  /** `u` extends `t`: keys once there stay as they are. */
  ghost predicate Keeps(t: Table, u: Table) {
    forall id <- t :: t[id] != "" ==> id in u && u[id] == t[id]
  }

  /** `keys` are what the table now says, trimmed. */
  ghost predicate Recorded(t: Table, users: seq<UserInfo>, keys: seq<string>) {
    |keys| <= |users| && forall i | 0 <= i < |keys| :: keys[i] != "" ==> TrimSpace(At(t, users[i].id)) == keys[i]
  }

  lemma StepTable(cfg: Config, crypto: Crypto, node: Node, p: Progress, user: UserInfo, draw: KeyResult)
    requires FileBacked(SourceOf(cfg.source)) && NoBlank(p.table) && !p.failed
    requires draw.Key? ==> draw.value != "" && TrimSpace(draw.value) == draw.value
    ensures var q := Step(cfg, crypto, node, p, user, draw);
      && Keeps(p.table, q.table) && NoBlank(q.table)
      && (q.failed ==> q == p.(failed := true))
      && (!q.failed ==> exists k :: q.keys == p.keys + [k] && (k != "" ==> TrimSpace(At(q.table, user.id)) == k))
  {
    var q := Step(cfg, crypto, node, p, user, draw);
    if !q.failed {
      var k := Resolve(cfg, crypto, p.table, node, user, draw).value;
      assert q.keys == p.keys + [k];
    }
  }

  /** A key handed out is on record afterwards exactly when the entry was not white space only. */
  lemma RecordedUnlessBlank(cfg: Config, crypto: Crypto, node: Node, p: Progress, user: UserInfo, draw: KeyResult)
    requires FileBacked(SourceOf(cfg.source)) && !p.failed && !Step(cfg, crypto, node, p, user, draw).failed
    requires draw.Key? ==> draw.value != "" && TrimSpace(draw.value) == draw.value
    ensures var q := Step(cfg, crypto, node, p, user, draw); var had := At(p.table, user.id);
      && |q.keys| == |p.keys| + 1
      && var key := q.keys[|p.keys|];
      key != "" ==> (TrimSpace(At(q.table, user.id)) == key <==> !(had != "" && TrimSpace(had) == ""))
  {
    hide SourceOf, Itoa;
    var k := Resolve(cfg, crypto, p.table, node, user, draw).value;
    var q := Step(cfg, crypto, node, p, user, draw);
    assert q.keys == p.keys + [k];
  }

  /** So over an entry of white space every call hands out whatever it draws, and records nothing. */
  lemma BlankEntryIsNotSticky(cfg: Config, crypto: Crypto, s: Store, c: Call, user: UserInfo, k: string)
    requires SourceOf(cfg.source) == Auto && s.loaded && |s.table| < cfg.limit && c.node.masterPrivateKey != "" && k != ""
    requires At(s.table, user.id) != "" && TrimSpace(At(s.table, user.id)) == ""
    requires c.users == [user] && c.draws == [Key(k)]
    ensures Build(cfg, crypto, s, c) == (s, Done([k]))
  {
    hide SourceOf, Itoa, TrimSpace;
    var t := s.table;
    assert c.users[..0] == [] && c.draws[..0] == [];
    assert Step(cfg, crypto, c.node, Progress(t, [], false, false), user, Key(k)) == Progress(t, [k], false, false);
    assert Scan(cfg, crypto, c.node, t, c.users, c.draws) == Progress(t, [k], false, false);
  }

  lemma RecordedGrows(t: Table, u: Table, users: seq<UserInfo>, keys: seq<string>)
    requires Recorded(t, users, keys) && Keeps(t, u)
    ensures Recorded(u, users, keys)
  {
    assert TrimSpace("") == "";
    forall i | 0 <= i < |keys| && keys[i] != "" ensures TrimSpace(At(u, users[i].id)) == keys[i] {
      assert At(t, users[i].id) != "";
    }
  }

  /** What one scan does to the table: it keeps keys, stays free of blanks, records what it hands out. */
  lemma {:induction false} ScanTable(cfg: Config, crypto: Crypto, node: Node, t: Table, users: seq<UserInfo>, draws: seq<KeyResult>)
    requires |users| == |draws| && FileBacked(SourceOf(cfg.source)) && NoBlank(t) && CleanDraws(draws)
    ensures var p := Scan(cfg, crypto, node, t, users, draws);
      Keeps(t, p.table) && NoBlank(p.table) && Recorded(p.table, users, p.keys)
  {
    hide Step, SourceOf, Keeps, Recorded, NoBlank;
    if users != [] {
      var n := |users| - 1;
      forall d <- draws[..n] ensures d in draws {}
      ScanTable(cfg, crypto, node, t, users[..n], draws[..n]);
      var p := Scan(cfg, crypto, node, t, users[..n], draws[..n]);
      RecordedLonger(p.table, users, n, p.keys);
      if !p.failed {
        var q := Step(cfg, crypto, node, p, users[n], draws[n]);
        assert draws[n] in draws;
        StepTable(cfg, crypto, node, p, users[n], draws[n]);
        KeepsTransitive(t, p.table, q.table);
        StepRecords(p, q, users, n);
      }
    } else {
      NothingScanned(t, users);
    }
  }

  lemma NothingScanned(t: Table, users: seq<UserInfo>)
    ensures Keeps(t, t) && Recorded(t, users, [])
  {
  }

  lemma RecordedLonger(t: Table, users: seq<UserInfo>, n: nat, keys: seq<string>)
    requires n <= |users| && Recorded(t, users[..n], keys)
    ensures Recorded(t, users, keys)
  {
    forall i | 0 <= i < |keys| ensures users[..n][i] == users[i] {}
  }

  lemma StepRecords(p: Progress, q: Progress, users: seq<UserInfo>, n: nat)
    requires n < |users| && |p.keys| == n && Recorded(p.table, users, p.keys) && Keeps(p.table, q.table)
    requires q.failed ==> q.keys == p.keys
    requires !q.failed ==> exists k :: q.keys == p.keys + [k] && (k != "" ==> TrimSpace(At(q.table, users[n].id)) == k)
    ensures Recorded(q.table, users, q.keys)
  {
    RecordedGrows(p.table, q.table, users, p.keys);
    forall i | 0 <= i < |q.keys| && q.keys[i] != "" ensures TrimSpace(At(q.table, users[i].id)) == q.keys[i] {
      if i < n { assert q.keys[i] == p.keys[i]; }
    }
  }

  lemma KeepsTransitive(t: Table, u: Table, v: Table)
    requires Keeps(t, u) && Keeps(u, v)
    ensures Keeps(t, v)
  {
  }

  lemma StepReads(cfg: Config, crypto: Crypto, node: Node, p: Progress, user: UserInfo, draw: KeyResult)
    requires FileBacked(SourceOf(cfg.source)) && !p.failed && TrimSpace(At(p.table, user.id)) != ""
    ensures Step(cfg, crypto, node, p, user, draw) == p.(keys := p.keys + [TrimSpace(At(p.table, user.id))])
  {
    assert TrimSpace("") == "";
  }

  /** Every user with this id was handed `key`. */
  ghost predicate Reads(users: seq<UserInfo>, keys: seq<string>, id: int, key: string) {
    |keys| <= |users| && forall i | 0 <= i < |keys| :: users[i].id == id ==> keys[i] == key
  }

  lemma ReadsAppend(users: seq<UserInfo>, keys: seq<string>, k: string, id: int, key: string)
    requires |users| == |keys| + 1 && Reads(users[..|keys|], keys, id, key) && (users[|keys|].id == id ==> k == key)
    ensures Reads(users, keys + [k], id, key)
  {
    forall i | 0 <= i < |keys| + 1 && users[i].id == id ensures (keys + [k])[i] == key {
      if i < |keys| { assert users[..|keys|][i] == users[i]; }
    }
  }

  lemma ReadsLonger(users: seq<UserInfo>, n: nat, keys: seq<string>, id: int, key: string)
    requires n <= |users| && Reads(users[..n], keys, id, key)
    ensures Reads(users, keys, id, key)
  {
    forall i | 0 <= i < |keys| ensures users[..n][i] == users[i] {}
  }

  /** A scan hands out the key the table holds. */
  lemma {:induction false} ScanReads(cfg: Config, crypto: Crypto, node: Node, t: Table, users: seq<UserInfo>, draws: seq<KeyResult>, id: int)
    requires |users| == |draws| && FileBacked(SourceOf(cfg.source)) && NoBlank(t) && CleanDraws(draws) && At(t, id) != ""
    ensures Reads(users, Scan(cfg, crypto, node, t, users, draws).keys, id, TrimSpace(At(t, id)))
  {
    hide Step, SourceOf, Itoa, TrimSpace, Reads, NoBlank;
    if users == [] {
      NothingRead(id, TrimSpace(At(t, id)));
    } else {
      var n := |users| - 1;
      var p := Scan(cfg, crypto, node, t, users[..n], draws[..n]);
      forall d <- draws[..n] ensures d in draws {}
      ScanReads(cfg, crypto, node, t, users[..n], draws[..n], id);
      ReadsLonger(users, n, p.keys, id, TrimSpace(At(t, id)));
      if !p.failed {
        ScanTable(cfg, crypto, node, t, users[..n], draws[..n]);
        assert draws[n] in draws;
        StepHandsOut(cfg, crypto, node, t, p, users, draws[n], id);
      }
    }
  }

  lemma NothingRead(id: int, key: string)
    ensures Reads([], [], id, key)
  {
  }

  lemma StepHandsOut(cfg: Config, crypto: Crypto, node: Node, t: Table, p: Progress, users: seq<UserInfo>, draw: KeyResult, id: int)
    requires FileBacked(SourceOf(cfg.source)) && NoBlank(t) && NoBlank(p.table) && Keeps(t, p.table) && !p.failed && At(t, id) != ""
    requires draw.Key? ==> draw.value != "" && TrimSpace(draw.value) == draw.value
    requires |users| == |p.keys| + 1 && Reads(users[..|p.keys|], p.keys, id, TrimSpace(At(t, id)))
    ensures Reads(users, Step(cfg, crypto, node, p, users[|p.keys|], draw).keys, id, TrimSpace(At(t, id)))
  {
    hide Step, SourceOf, Itoa, Reads;
    var user, key := users[|p.keys|], TrimSpace(At(t, id));
    var q := Step(cfg, crypto, node, p, user, draw);
    StepTable(cfg, crypto, node, p, user, draw);
    if q.failed {
      ReadsLonger(users, |p.keys|, p.keys, id, key);
    } else {
      var k :| q.keys == p.keys + [k] && (k != "" ==> TrimSpace(At(q.table, user.id)) == k);
      if user.id == id {
        assert At(p.table, id) == At(t, id) && key != "";
        StepReads(cfg, crypto, node, p, user, draw);
        assert q.keys[|p.keys|] == k;
      }
      ReadsAppend(users, p.keys, k, id, key);
    }
  }

  // ---- whole processes ----

  function After(cfg: Config, crypto: Crypto, s: Store, calls: seq<Call>): Store
    requires forall c <- calls :: |c.users| == |c.draws|
  {
    if calls == [] then s
    else
      var n := |calls| - 1;
      Build(cfg, crypto, After(cfg, crypto, s, calls[..n]), calls[n]).0
  }

  /** What the file would be decoded to holds no blank entry either. */
  ghost predicate CleanStore(s: Store) {
    && (s.loaded ==> NoBlank(s.table)) && NoBlank(OnDisk(s.disk)) && (s.disk.Garbage? ==> NoBlank(s.disk.partial))
  }

  ghost predicate CleanCalls(calls: seq<Call>) {
    forall c <- calls :: |c.users| == |c.draws| && CleanDraws(c.draws)
  }

  lemma BuildKeeps(cfg: Config, crypto: Crypto, s: Store, c: Call)
    requires CleanStore(s) && |c.users| == |c.draws| && CleanDraws(c.draws) && FileBacked(SourceOf(cfg.source))
    ensures var (t, r) := Build(cfg, crypto, s, c);
      && CleanStore(t) && t.loaded && (s.loaded ==> Keeps(s.table, t.table))
      && (r.Done? ==> |r.keys| == |c.users| && Recorded(t.table, c.users, r.keys))
  {
    hide Scan, SourceOf, Keeps, Recorded, CleanDraws;
    NothingScanned(s.table, c.users);
    var (s1, ok) := Load(s, c.readable);
    if ok { ScanTable(cfg, crypto, c.node, s1.table, c.users, c.draws); }
  }

  lemma {:induction false} AfterKeeps(cfg: Config, crypto: Crypto, s: Store, calls: seq<Call>)
    requires CleanStore(s) && CleanCalls(calls) && FileBacked(SourceOf(cfg.source))
    ensures var t := After(cfg, crypto, s, calls);
      CleanStore(t) && (s.loaded ==> t.loaded && Keeps(s.table, t.table))
  {
    if calls != [] {
      var n := |calls| - 1;
      forall c <- calls[..n] ensures c in calls {}
      assert calls[n] in calls;
      AfterKeeps(cfg, crypto, s, calls[..n]);
      BuildKeeps(cfg, crypto, After(cfg, crypto, s, calls[..n]), calls[n]);
    }
  }

  /**
    Sticky keys: once a call gave user id `a.users[i].id` a key, every later successful call in the
    process gives that id the same key, whatever calls came before and whatever failed in between.
  */
  lemma KeysAreSticky(cfg: Config, crypto: Crypto, disk: Disk, before: seq<Call>, a: Call, between: seq<Call>, b: Call, i: nat, j: nat)
    requires FileBacked(SourceOf(cfg.source)) && CleanStore(Store(false, map[], disk))
    requires CleanCalls(before) && CleanCalls([a]) && CleanCalls(between) && CleanCalls([b])
    requires var s := After(cfg, crypto, Store(false, map[], disk), before);
      var (t, ra) := Build(cfg, crypto, s, a);
      var (_, rb) := Build(cfg, crypto, After(cfg, crypto, t, between), b);
      && ra.Done? && i < |ra.keys| && i < |a.users| && ra.keys[i] != ""
      && rb.Done? && j < |rb.keys| && j < |b.users| && b.users[j].id == a.users[i].id
    ensures var s := After(cfg, crypto, Store(false, map[], disk), before);
      var (t, ra) := Build(cfg, crypto, s, a);
      Build(cfg, crypto, After(cfg, crypto, t, between), b).1.keys[j] == ra.keys[i]
  {
    assert a in [a] && b in [b];
    var s := After(cfg, crypto, Store(false, map[], disk), before);
    AfterKeeps(cfg, crypto, Store(false, map[], disk), before);
    BuildKeeps(cfg, crypto, s, a);
    var (t, ra) := Build(cfg, crypto, s, a);
    AfterKeeps(cfg, crypto, t, between);
    var u := After(cfg, crypto, t, between);
    var id := a.users[i].id;
    assert At(t.table, id) != "" by { assert TrimSpace("") == ""; }
    assert At(u.table, id) == At(t.table, id);
    ScanReads(cfg, crypto, b.node, u.table, b.users, b.draws, id);
  }

  // ---- bounded table ----

  function Max(a: int, b: int): int { if a >= b then a else b }

  lemma {:induction false} ScanBounded(cfg: Config, crypto: Crypto, node: Node, t: Table, users: seq<UserInfo>, draws: seq<KeyResult>)
    requires |users| == |draws|
    ensures |Scan(cfg, crypto, node, t, users, draws).table| <= Max(|t|, cfg.limit)
  {
    if users != [] {
      var n := |users| - 1;
      ScanBounded(cfg, crypto, node, t, users[..n], draws[..n]);
      var p := Scan(cfg, crypto, node, t, users[..n], draws[..n]);
      if !p.failed {
        var q := Step(cfg, crypto, node, p, users[n], draws[n]);
        Grown(p.table, Itoa(users[n].id), if Itoa(users[n].id) in q.table then q.table[Itoa(users[n].id)] else "");
      }
    }
  }

  lemma Grown(t: Table, k: string, v: string)
    ensures |t[k := v]| == if k in t then |t| else |t| + 1
  {
    assert t[k := v].Keys == t.Keys + {k};
  }

  /** The size the table has once the file is loaded. */
  function LoadedSize(s: Store): nat {
    if s.loaded then |s.table|
    else if s.disk.Garbage? then |s.disk.partial| else |OnDisk(s.disk)|
  }

  lemma BuildBounded(cfg: Config, crypto: Crypto, s: Store, c: Call)
    requires |c.users| == |c.draws| && FileBacked(SourceOf(cfg.source))
    ensures var t := Build(cfg, crypto, s, c).0;
      t.loaded && |t.table| <= Max(LoadedSize(s), cfg.limit)
  {
    hide Scan, SourceOf;
    var (s1, ok) := Load(s, c.readable);
    if ok { ScanBounded(cfg, crypto, c.node, s1.table, c.users, c.draws); }
  }

  /** Over any calls, failed ones included, the table never outgrows its loaded size and the limit. */
  lemma {:induction false} TableBounded(cfg: Config, crypto: Crypto, disk: Disk, calls: seq<Call>)
    requires FileBacked(SourceOf(cfg.source)) && forall c <- calls :: |c.users| == |c.draws|
    ensures var s := Store(false, map[], disk); var t := After(cfg, crypto, s, calls);
      |t.table| <= Max(LoadedSize(s), cfg.limit) && (t.loaded <==> calls != [])
  {
    if calls != [] {
      var n := |calls| - 1;
      TableBounded(cfg, crypto, disk, calls[..n]);
      assert calls[n] in calls;
      BuildBounded(cfg, crypto, After(cfg, crypto, Store(false, map[], disk), calls[..n]), calls[n]);
    }
  }

  // ---- memory and file ----

  /** The table in memory is what the file would be decoded to. */
  predicate Synced(s: Store) {
    s.loaded ==> !s.disk.Garbage? && OnDisk(s.disk) == s.table
  }

  /** Some id without a key in `t` has one in `u`. */
  ghost predicate GainsKey(t: Table, u: Table) {
    exists id <- u :: u[id] != "" && (id !in t || t[id] == "")
  }

  lemma {:induction false} ScanChanges(cfg: Config, crypto: Crypto, node: Node, t: Table, users: seq<UserInfo>, draws: seq<KeyResult>)
    requires |users| == |draws|
    ensures var p := Scan(cfg, crypto, node, t, users, draws);
      if p.changed then GainsKey(t, p.table) && p.table != t else p.table == t
  {
    if users != [] {
      var n := |users| - 1;
      ScanChanges(cfg, crypto, node, t, users[..n], draws[..n]);
      var p := Scan(cfg, crypto, node, t, users[..n], draws[..n]);
      if !p.failed { StepChanges(cfg, crypto, node, t, p, users[n], draws[n]); }
    }
  }

  lemma StepChanges(cfg: Config, crypto: Crypto, node: Node, t: Table, p: Progress, user: UserInfo, draw: KeyResult)
    requires if p.changed then GainsKey(t, p.table) else p.table == t
    ensures var q := Step(cfg, crypto, node, p, user, draw);
      if q.changed then GainsKey(t, q.table) else q.table == t
  {
    hide Resolve, SourceOf;
    var q, id := Step(cfg, crypto, node, p, user, draw), Itoa(user.id);
    if q.table != p.table {
      assert q.table[id] != "" && (id in p.table ==> p.table[id] == "");
      if p.changed {
        var w :| w in p.table && p.table[w] != "" && (w !in t || t[w] == "");
        assert w != id && q.table[w] == p.table[w];
      }
    }
  }

  /**
    From a synced store a successful call ends synced. A failed one does exactly when the file loaded and
    no key was generated before the failure, or the file could not be read but held no key anyway.
  */
  lemma SyncedExactly(cfg: Config, crypto: Crypto, s: Store, c: Call)
    requires |c.users| == |c.draws| && FileBacked(SourceOf(cfg.source)) && Synced(s)
    ensures var (s1, loads) := Load(s, c.readable); var (t, r) := Build(cfg, crypto, s, c);
      Synced(t) <==> (r.Done? ||
        (if loads then !Scan(cfg, crypto, c.node, s1.table, c.users, c.draws).changed
         else !s.disk.Garbage? && OnDisk(s.disk) == map[]))
  {
    hide Scan, SourceOf, GainsKey;
    var (s1, ok) := Load(s, c.readable);
    if ok { ScanChanges(cfg, crypto, c.node, s1.table, c.users, c.draws); }
  }

  /** As long as every earlier call succeeded, memory and file agree after each call. */
  lemma {:induction false} SuccessfulRunsStaySynced(cfg: Config, crypto: Crypto, disk: Disk, calls: seq<Call>)
    requires FileBacked(SourceOf(cfg.source)) && forall c <- calls :: |c.users| == |c.draws|
    requires forall i | 0 <= i < |calls| ::
               |calls[i].users| == |calls[i].draws| &&
               (forall c <- calls[..i] :: |c.users| == |c.draws|) &&
               Build(cfg, crypto, After(cfg, crypto, Store(false, map[], disk), calls[..i]), calls[i]).1.Done?
    ensures Synced(After(cfg, crypto, Store(false, map[], disk), calls))
  {
    if calls != [] {
      var n := |calls| - 1;
      var init := calls[..n];
      forall i | 0 <= i < n ensures init[..i] == calls[..i] && init[i] == calls[i] {}
      hide Build, Synced;
      SuccessfulRunsStaySynced(cfg, crypto, disk, init);
      SyncedExactly(cfg, crypto, After(cfg, crypto, Store(false, map[], disk), init), calls[n]);
    }
  }

  predicate IsUser(users: seq<UserInfo>, id: string) { exists u <- users :: Itoa(u.id) == id }

  /** A scan only adds entries of its users. */
  lemma {:induction false} ScanAddsUsers(cfg: Config, crypto: Crypto, node: Node, t: Table, users: seq<UserInfo>, draws: seq<KeyResult>, id: string)
    requires |users| == |draws|
    ensures id in Scan(cfg, crypto, node, t, users, draws).table ==> id in t || IsUser(users, id)
  {
    hide Resolve, SourceOf, Itoa;
    if users != [] {
      var n := |users| - 1;
      ScanAddsUsers(cfg, crypto, node, t, users[..n], draws[..n], id);
      assert users == users[..n] + [users[n]];
      assert users[n] in users && forall u <- users[..n] :: u in users;
    }
  }

  /**
    A file that cannot be read once is forgotten: the failed call leaves an empty table that counts as
    loaded. The next call overwrites the file exactly when it succeeds and generates a key, and then the
    keys of all ids that are not among its users are gone from table and file.
  */
  lemma UnreadableFileIsForgotten(cfg: Config, crypto: Crypto, stored: Table, c: Call, d: Call)
    requires |c.users| == |c.draws| && |d.users| == |d.draws| && FileBacked(SourceOf(cfg.source)) && !c.readable
    ensures var (t, r) := Build(cfg, crypto, Store(false, map[], Keys(stored)), c);
      && r.Failed? && t == Store(true, map[], Keys(stored))
      && var (u, q) := Build(cfg, crypto, t, d);
      && u.table == Scan(cfg, crypto, d.node, map[], d.users, d.draws).table
      && u.disk == (if q.Done? && u.table != map[] then Keys(u.table) else Keys(stored))
      && forall id <- stored :: !IsUser(d.users, id) ==> id !in u.table
  {
    hide Scan, SourceOf, Itoa;
    ScanChanges(cfg, crypto, d.node, map[], d.users, d.draws);
    forall id | id in stored && !IsUser(d.users, id) ensures id !in Scan(cfg, crypto, d.node, map[], d.users, d.draws).table {
      ScanAddsUsers(cfg, crypto, d.node, map[], d.users, d.draws, id);
    }
  }

  // ---- the hash index ----

  /** The loop's last write for a hash. */
  lemma {:induction false} IndexSound(keys: seq<UserKey>, h: string)
    ensures h in IndexOf(keys) ==>
      exists i | 0 <= i < |keys| :: keys[i].userHash == h && h != "" && keys[i].uuid == IndexOf(keys)[h] && keys[i].uuid != ""
        && forall j | i < j < |keys| :: keys[j].userHash == h ==> keys[j].uuid == ""
    ensures h !in IndexOf(keys) ==> forall i | 0 <= i < |keys| :: keys[i].userHash == h ==> h == "" || keys[i].uuid == ""
  {
    if keys != [] {
      var n := |keys| - 1;
      IndexSound(keys[..n], h);
      if keys[n].userHash == h && h != "" && keys[n].uuid != "" {
        assert IndexOf(keys)[h] == keys[n].uuid;
      } else if h in IndexOf(keys) {
        var i :| 0 <= i < n && keys[..n][i].userHash == h && h != "" && keys[..n][i].uuid == IndexOf(keys[..n])[h]
          && keys[..n][i].uuid != "" && forall j | i < j < n :: keys[..n][j].userHash == h ==> keys[..n][j].uuid == "";
        assert keys[i] == keys[..n][i];
        forall j | i < j < |keys| ensures keys[j].userHash == h ==> keys[j].uuid == "" {
          if j < n { assert keys[..n][j] == keys[j]; }
        }
      } else {
        forall i | 0 <= i < |keys| ensures keys[i].userHash == h ==> h == "" || keys[i].uuid == "" {
          if i < n { assert keys[..n][i] == keys[i]; }
        }
      }
    }
  }

  /** Among sorted keys the index picks, for every hash, an entry with the largest uid. */
  lemma IndexPicksLargest(keys: seq<UserKey>, h: string)
    requires SortedBy((k: UserKey) => k.uid, keys) && h in IndexOf(keys)
    requires forall k <- keys :: k.uuid != ""
    ensures exists i | 0 <= i < |keys| ::
      keys[i].userHash == h && keys[i].uuid == IndexOf(keys)[h] && forall k <- keys :: k.userHash == h ==> k.uid <= keys[i].uid
  {
    IndexSound(keys, h);
    var i :| 0 <= i < |keys| && keys[i].userHash == h && keys[i].uuid == IndexOf(keys)[h]
      && forall j | i < j < |keys| :: keys[j].userHash == h ==> keys[j].uuid == "";
    var uid := (k: UserKey) => k.uid;
    forall k | k in keys && k.userHash == h ensures k.uid <= keys[i].uid {
      var j :| 0 <= j < |keys| && keys[j] == k;
      assert k.uuid != "" && j <= i;
      assert j < i ==> uid(keys[j]) <= uid(keys[i]);
    }
  }

  /** `k` is the mapping of user `i`. */
  predicate IsMapping(crypto: Crypto, users: seq<UserInfo>, keys: seq<string>, k: UserKey, i: nat)
    requires |users| == |keys|
  {
    i < |users| && keys[i] != "" && k == UserKey(users[i].id, users[i].uuid, keys[i], UserHash(crypto, keys[i]))
  }

  lemma {:induction false} MappingsAre(crypto: Crypto, users: seq<UserInfo>, keys: seq<string>, k: UserKey)
    requires |users| == |keys|
    ensures k in Mappings(crypto, users, keys) <==> exists i: nat :: IsMapping(crypto, users, keys, k, i)
  {
    hide UserHash;
    if users != [] {
      var n := |users| - 1;
      MappingsAre(crypto, users[..n], keys[..n], k);
      if i: nat :| IsMapping(crypto, users, keys, k, i) {
        assert i < n ==> IsMapping(crypto, users[..n], keys[..n], k, i);
      }
      if i: nat :| IsMapping(crypto, users[..n], keys[..n], k, i) {
        assert IsMapping(crypto, users, keys, k, i);
      }
      assert IsMapping(crypto, users, keys, k, n) ==> k in Mappings(crypto, users, keys);
    }
  }

  /** User `i` has a key with hash `h`, and no user sharing the hash has a larger id. */
  ghost predicate Owns(crypto: Crypto, users: seq<UserInfo>, keys: seq<string>, h: string, i: nat)
    requires |users| == |keys|
  {
    && i < |users| && keys[i] != "" && UserHash(crypto, keys[i]) == h
    && forall j | 0 <= j < |users| :: keys[j] != "" && UserHash(crypto, keys[j]) == h ==> users[j].id <= users[i].id
  }

  /** What BuildMappings returned for `users` and their `keys`. */
  ghost predicate Built(crypto: Crypto, users: seq<UserInfo>, keys: seq<string>, out: seq<UserKey>)
    requires |users| == |keys|
  {
    && (forall u <- users :: u.uuid != "")
    && SortedBy((k: UserKey) => k.uid, out) && multiset(out) == multiset(Mappings(crypto, users, keys))
  }

  lemma BuiltMember(crypto: Crypto, users: seq<UserInfo>, keys: seq<string>, out: seq<UserKey>, k: UserKey)
    requires |users| == |keys| && Built(crypto, users, keys, out)
    ensures k in out <==> exists i: nat :: IsMapping(crypto, users, keys, k, i)
  {
    MappingsAre(crypto, users, keys, k);
    assert k in multiset(out) <==> k in multiset(Mappings(crypto, users, keys));
  }

  lemma Indexed(crypto: Crypto, users: seq<UserInfo>, keys: seq<string>, out: seq<UserKey>, i: nat)
    requires |users| == |keys| && Built(crypto, users, keys, out) && i < |users| && keys[i] != ""
    ensures UserHash(crypto, keys[i]) in IndexOf(out)
    ensures UserKey(users[i].id, users[i].uuid, keys[i], UserHash(crypto, keys[i])) in out
  {
    var k := UserKey(users[i].id, users[i].uuid, keys[i], UserHash(crypto, keys[i]));
    assert IsMapping(crypto, users, keys, k, i);
    BuiltMember(crypto, users, keys, out, k);
    IndexSound(out, k.userHash);
    assert users[i] in users;
  }

  lemma Billed(crypto: Crypto, users: seq<UserInfo>, keys: seq<string>, out: seq<UserKey>, h: string) returns (i: nat)
    requires |users| == |keys| && Built(crypto, users, keys, out) && h in IndexOf(out)
    ensures Owns(crypto, users, keys, h, i) && users[i].uuid == IndexOf(out)[h]
  {
    forall k | k in out ensures k.uuid != "" {
      BuiltMember(crypto, users, keys, out, k);
      var j: nat :| IsMapping(crypto, users, keys, k, j);
      assert users[j] in users;
    }
    IndexPicksLargest(out, h);
    var p :| 0 <= p < |out| && out[p].userHash == h && out[p].uuid == IndexOf(out)[h]
      && forall k <- out :: k.userHash == h ==> k.uid <= out[p].uid;
    assert out[p] in out;
    BuiltMember(crypto, users, keys, out, out[p]);
    i :| IsMapping(crypto, users, keys, out[p], i);
    forall j | 0 <= j < |users| && keys[j] != "" && UserHash(crypto, keys[j]) == h ensures users[j].id <= users[i].id {
      Indexed(crypto, users, keys, out, j);
    }
  }

  /**
    The rebuilt index is sound and complete: every indexed hash is the hash of the key of the user it
    names, a user with the largest id among those sharing the hash, and every user with a key is indexed.
  */
  lemma IndexBillsOwner(crypto: Crypto, users: seq<UserInfo>, keys: seq<string>, out: seq<UserKey>)
    requires |users| == |keys| && Built(crypto, users, keys, out)
    ensures forall h <- IndexOf(out) :: exists i: nat :: Owns(crypto, users, keys, h, i) && users[i].uuid == IndexOf(out)[h]
    ensures forall i | 0 <= i < |users| :: keys[i] != "" ==> UserHash(crypto, keys[i]) in IndexOf(out)
  {
    forall i | 0 <= i < |users| && keys[i] != "" ensures UserHash(crypto, keys[i]) in IndexOf(out) {
      Indexed(crypto, users, keys, out, i);
    }
    forall h | h in IndexOf(out)
      ensures exists i: nat :: Owns(crypto, users, keys, h, i) && users[i].uuid == IndexOf(out)[h]
    {
      var i := Billed(crypto, users, keys, out, h);
    }
  }

  /**
    From a rebuild to an admission: a presented hash is admitted exactly when the user the index names for
    it owns it, that is has a key with this hash and a largest id among those that do, and has a non-zero id.
  */
  lemma AdmissionBillsOwner<C>(crypto: Crypto, s: Server<C>, users: seq<UserInfo>, keys: seq<string>, out: seq<UserKey>, h: string)
    requires |users| == |keys| && Built(crypto, users, keys, out) && s.index == IndexOf(out) && UserSync.Enumerates(users, s.users)
    ensures Admitted(s, h).Some? <==>
              h in s.index && exists i: nat :: Owns(crypto, users, keys, h, i) && s.index[h] == users[i].uuid && users[i].id != 0
    ensures Admitted(s, h).Some? ==> Admitted(s, h).value == s.index[h]
  {
    hide UserHash, IndexOf;
    if h in s.index {
      var i := Billed(crypto, users, keys, out, h);
      assert users[i] in users;
      forall j: nat | Owns(crypto, users, keys, h, j) && s.index[h] == users[j].uuid ensures users[j] == users[i] {
        assert users[j] in users;
      }
    }
  }

  /** So it is after every rebuild that succeeds: `keys` are what the key store resolved for the server's users. */
  lemma RebuildBillsOwner<C>(cfg: Config, crypto: Crypto, node: Node, w: World, s: Server<C>, was: Store, now: Store, out: seq<UserKey>)
      returns (users: seq<UserInfo>, keys: seq<string>)
    requires Rebuilds(cfg, crypto, node, w, s.users, was, now, Some(out)) && s.index == IndexOf(out) && "" !in s.users
    ensures UserSync.Enumerates(users, s.users) && Build(cfg, crypto, was, CallOf(node, users, w)) == (now, Done(keys))
    ensures |users| == |keys|
    ensures forall h :: Admitted(s, h).Some? <==>
              h in s.index && exists i: nat :: Owns(crypto, users, keys, h, i) && s.index[h] == users[i].uuid && users[i].id != 0
  {
    users, keys := RebuiltKeys(cfg, crypto, node, w, s.users, was, now, out);
    forall h ensures Admitted(s, h).Some? <==>
        h in s.index && exists i: nat :: Owns(crypto, users, keys, h, i) && s.index[h] == users[i].uuid && users[i].id != 0 {
      AdmissionBillsOwner(crypto, s, users, keys, out, h);
    }
  }

  lemma RebuiltKeys(cfg: Config, crypto: Crypto, node: Node, w: World, m: map<string, UserInfo>, was: Store, now: Store, out: seq<UserKey>)
      returns (users: seq<UserInfo>, keys: seq<string>)
    requires Rebuilds(cfg, crypto, node, w, m, was, now, Some(out)) && "" !in m
    ensures UserSync.Enumerates(users, m) && Build(cfg, crypto, was, CallOf(node, users, w)) == (now, Done(keys))
    ensures |users| == |keys| && Built(crypto, users, keys, out)
  {
    users :| UserSync.Enumerates(users, m) && Answers(cfg, crypto, was, CallOf(node, users, w), now, Some(out));
    keys := Build(cfg, crypto, was, CallOf(node, users, w)).1.keys;
  }

  // ---- the order of the user map ----

  /** User `i` of the first list is user `j` of the second, with the same key. */
  ghost predicate Twin(users: seq<UserInfo>, keys: seq<string>, users2: seq<UserInfo>, keys2: seq<string>, i: nat, j: nat)
    requires |users| == |keys| && |users2| == |keys2|
  {
    i < |users| && j < |users2| && users2[j] == users[i] && keys2[j] == keys[i]
  }

  ghost predicate HasTwin(users: seq<UserInfo>, keys: seq<string>, users2: seq<UserInfo>, keys2: seq<string>, i: nat)
    requires |users| == |keys| && |users2| == |keys2|
  {
    exists j: nat :: Twin(users, keys, users2, keys2, i, j)
  }

  ghost predicate PairedIn(users: seq<UserInfo>, keys: seq<string>, users2: seq<UserInfo>, keys2: seq<string>)
    requires |users| == |keys| && |users2| == |keys2|
  {
    forall i: nat | i < |users| :: HasTwin(users, keys, users2, keys2, i)
  }

  /** Owner `i` appears as `k` in the second list, owner `j` of the second list as `m` in the first. */
  lemma OwnersAgree(crypto: Crypto, users: seq<UserInfo>, keys: seq<string>, users2: seq<UserInfo>, keys2: seq<string>, h: string,
                    i: nat, j: nat, k: nat, m: nat)
    requires |users| == |keys| && |users2| == |keys2|
    requires Owns(crypto, users, keys, h, i) && Owns(crypto, users2, keys2, h, j)
    requires Twin(users, keys, users2, keys2, i, k) && Twin(users2, keys2, users, keys, j, m)
    ensures users[m].id == users[i].id
  {
    hide UserHash;
  }

  ghost predicate SameIdSameUser(users: seq<UserInfo>) {
    forall i, j | 0 <= i < |users| && 0 <= j < |users| && users[i].id == users[j].id :: users[i] == users[j]
  }

  /** Two builds whose users and keys pair up both ways. */
  ghost predicate Paired(crypto: Crypto, users: seq<UserInfo>, keys: seq<string>, out: seq<UserKey>,
                         users2: seq<UserInfo>, keys2: seq<string>, out2: seq<UserKey>) {
    && |users| == |keys| && |users2| == |keys2| && Built(crypto, users, keys, out) && Built(crypto, users2, keys2, out2)
    && SameIdSameUser(users) && PairedIn(users, keys, users2, keys2) && PairedIn(users2, keys2, users, keys)
  }

  /** The user billed for `h` by the first build, and the place of its twin. */
  lemma BilledTwin(crypto: Crypto, users: seq<UserInfo>, keys: seq<string>, out: seq<UserKey>,
                   users2: seq<UserInfo>, keys2: seq<string>, h: string) returns (i: nat, k: nat)
    requires |users| == |keys| && |users2| == |keys2| && Built(crypto, users, keys, out) && h in IndexOf(out)
    requires PairedIn(users, keys, users2, keys2)
    ensures Owns(crypto, users, keys, h, i) && users[i].uuid == IndexOf(out)[h]
    ensures Twin(users, keys, users2, keys2, i, k)
  {
    hide UserHash, Built, IndexOf;
    i := Billed(crypto, users, keys, out, h);
    assert HasTwin(users, keys, users2, keys2, i) by { assert i < |users|; }
    k :| Twin(users, keys, users2, keys2, i, k);
  }

  lemma IndexIncluded(crypto: Crypto, users: seq<UserInfo>, keys: seq<string>, out: seq<UserKey>,
                      users2: seq<UserInfo>, keys2: seq<string>, out2: seq<UserKey>, h: string)
    requires Paired(crypto, users, keys, out, users2, keys2, out2) && h in IndexOf(out)
    ensures h in IndexOf(out2)
  {
    hide UserHash, Built, IndexOf, PairedIn, SameIdSameUser;
    var i, k := BilledTwin(crypto, users, keys, out, users2, keys2, h);
    Indexed(crypto, users2, keys2, out2, k);
  }

  lemma IndexAgrees(crypto: Crypto, users: seq<UserInfo>, keys: seq<string>, out: seq<UserKey>,
                    users2: seq<UserInfo>, keys2: seq<string>, out2: seq<UserKey>, h: string)
    requires Paired(crypto, users, keys, out, users2, keys2, out2) && h in IndexOf(out) && h in IndexOf(out2)
    ensures IndexOf(out2)[h] == IndexOf(out)[h]
  {
    hide UserHash, Built, IndexOf, PairedIn;
    var i, k := BilledTwin(crypto, users, keys, out, users2, keys2, h);
    var j, m := BilledTwin(crypto, users2, keys2, out2, users, keys, h);
    OwnersAgree(crypto, users, keys, users2, keys2, h, i, j, k, m);
    assert users[m] == users[i];
  }

  /** `keys` are the users' keys when no key file is involved. */
  ghost predicate StatelessKeys(cfg: Config, crypto: Crypto, node: Node, users: seq<UserInfo>, keys: seq<string>) {
    |keys| == |users| && forall i | 0 <= i < |users| :: Resolve(cfg, crypto, map[], node, users[i], KeyError) == Key(keys[i])
  }

  /** Without a key file each user's key depends on that user alone. */
  lemma {:induction false} ScanStateless(cfg: Config, crypto: Crypto, node: Node, t: Table, users: seq<UserInfo>, draws: seq<KeyResult>)
    requires |users| == |draws| && !FileBacked(SourceOf(cfg.source)) && !Scan(cfg, crypto, node, t, users, draws).failed
    ensures StatelessKeys(cfg, crypto, node, users, Scan(cfg, crypto, node, t, users, draws).keys)
  {
    if users != [] {
      var n := |users| - 1;
      ScanStateless(cfg, crypto, node, t, users[..n], draws[..n]);
      var p := Scan(cfg, crypto, node, t, users[..n], draws[..n]);
      StepStateless(cfg, crypto, node, p, users, n, draws[n]);
    }
  }

  lemma StepStateless(cfg: Config, crypto: Crypto, node: Node, p: Progress, users: seq<UserInfo>, n: nat, draw: KeyResult)
    requires n + 1 == |users| && !FileBacked(SourceOf(cfg.source)) && StatelessKeys(cfg, crypto, node, users[..n], p.keys)
    requires !p.failed && !Step(cfg, crypto, node, p, users[n], draw).failed
    ensures StatelessKeys(cfg, crypto, node, users, Step(cfg, crypto, node, p, users[n], draw).keys)
  {
    hide SplitKey, UserKeyHex, TrimSpace, SourceOf;
    var q := Step(cfg, crypto, node, p, users[n], draw);
    assert Resolve(cfg, crypto, p.table, node, users[n], draw) == Resolve(cfg, crypto, map[], node, users[n], KeyError);
    forall i | 0 <= i < |users| ensures Resolve(cfg, crypto, map[], node, users[i], KeyError) == Key(q.keys[i]) {
      if i < n { assert users[..n][i] == users[i] && q.keys[i] == p.keys[i]; }
    }
  }

  lemma StatelessTwin(cfg: Config, crypto: Crypto, node: Node, users: seq<UserInfo>, keys: seq<string>, users2: seq<UserInfo>,
                      keys2: seq<string>, i: nat) returns (j: nat)
    requires StatelessKeys(cfg, crypto, node, users, keys) && StatelessKeys(cfg, crypto, node, users2, keys2)
    requires i < |users| && users[i] in users2
    ensures Twin(users, keys, users2, keys2, i, j)
  {
    hide Resolve;
    j :| 0 <= j < |users2| && users2[j] == users[i];
    assert Key(keys2[j]) == Resolve(cfg, crypto, map[], node, users2[j], KeyError) == Key(keys[i]);
  }

  lemma StatelessPaired(cfg: Config, crypto: Crypto, node: Node, users: seq<UserInfo>, keys: seq<string>, users2: seq<UserInfo>, keys2: seq<string>)
    requires StatelessKeys(cfg, crypto, node, users, keys) && StatelessKeys(cfg, crypto, node, users2, keys2)
    requires forall u <- users :: u in users2
    ensures PairedIn(users, keys, users2, keys2)
  {
    hide Resolve;
    forall i: nat | i < |users| ensures HasTwin(users, keys, users2, keys2, i) {
      assert users[i] in users;
      var j := StatelessTwin(cfg, crypto, node, users, keys, users2, keys2, i);
    }
  }

  lemma PairedSameIndex(crypto: Crypto, users: seq<UserInfo>, keys: seq<string>, out: seq<UserKey>,
                        users2: seq<UserInfo>, keys2: seq<string>, out2: seq<UserKey>)
    requires Paired(crypto, users, keys, out, users2, keys2, out2) && Paired(crypto, users2, keys2, out2, users, keys, out)
    ensures IndexOf(out) == IndexOf(out2)
  {
    hide Paired, IndexOf;
    forall h | h in IndexOf(out) ensures h in IndexOf(out2) { IndexIncluded(crypto, users, keys, out, users2, keys2, out2, h); }
    forall h | h in IndexOf(out2) ensures h in IndexOf(out) { IndexIncluded(crypto, users2, keys2, out2, users, keys, out, h); }
    forall h | h in IndexOf(out) ensures IndexOf(out2)[h] == IndexOf(out)[h] {
      IndexAgrees(crypto, users, keys, out, users2, keys2, out2, h);
    }
    SameMap(IndexOf(out), IndexOf(out2));
  }

  lemma SameIdElsewhere(users: seq<UserInfo>, users2: seq<UserInfo>)
    requires SameIdSameUser(users) && forall u <- users2 :: u in users
    ensures SameIdSameUser(users2)
  {
    forall i, j | 0 <= i < |users2| && 0 <= j < |users2| && users2[i].id == users2[j].id ensures users2[i] == users2[j] {
      assert users2[i] in users2 && users2[j] in users2;
      var k :| 0 <= k < |users| && users[k] == users2[i];
      var m :| 0 <= m < |users| && users[m] == users2[j];
    }
  }

  /**
    With distinct ids and keys derived from the configuration, the index does not depend on the order in
    which the server's map yields its users nor on how the sort breaks ties.
  */
  lemma IndexOrderIrrelevant(cfg: Config, crypto: Crypto, node: Node, users: seq<UserInfo>, keys: seq<string>, out: seq<UserKey>,
                             users2: seq<UserInfo>, keys2: seq<string>, out2: seq<UserKey>)
    requires StatelessKeys(cfg, crypto, node, users, keys) && Built(crypto, users, keys, out)
    requires StatelessKeys(cfg, crypto, node, users2, keys2) && Built(crypto, users2, keys2, out2)
    requires forall u :: u in users <==> u in users2
    requires SameIdSameUser(users)
    ensures IndexOf(out) == IndexOf(out2)
  {
    hide Resolve, Built, IndexOf, PairedIn, SameIdSameUser;
    StatelessPaired(cfg, crypto, node, users, keys, users2, keys2);
    StatelessPaired(cfg, crypto, node, users2, keys2, users, keys);
    SameIdElsewhere(users, users2);
    PairedSameIndex(crypto, users, keys, out, users2, keys2, out2);
  }

  lemma SameMap(m: map<string, string>, n: map<string, string>)
    requires (forall k <- m :: k in n && n[k] == m[k]) && forall k <- n :: k in m
    ensures m == n
  {
  }
}
