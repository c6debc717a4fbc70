/**
  NodeInfo with Normalize (internal/panel/client.go) and the cached panel snapshot
  (internal/controller/controller.go).
*/
module Snapshot {
  import opened Panel
  import opened Text
  import opened Json
  import opened Settings

  datatype Base = Base(pushInterval: Json, pullInterval: Json, deviceOnlineMinTraffic: int, nodeReportMinTraffic: int)

  /** `networkSettings` is the raw member, None when there was none; intervals are in nanoseconds. */
  datatype Node = Node(id: int, tag: string, protocol: string, host: string, listenIP: string, port: Json, serverPort: int,
                       network: string, networkSettings: Option<Json>, encryption: string, settings: Settings,
                       base: Base, pushInterval: int, pullInterval: int)

  // ---- intervals ----

  const SECOND: int := 1_000_000_000

  /** Conversion of a float64 to int64: towards zero; out of range as amd64 answers. */
  function Truncate(r: real): (i: int)
    ensures InRange(i)
  {
    var i := if r >= 0.0 then r.Floor else -((-r).Floor);
    if InRange(i) then i else MIN_INT64
  }

  /** intervalToDuration on the values JSON decodes to. */
  function IntervalToDuration(value: Json): (d: int)
    ensures InRange(d)
  {
    match value
    case JNum(r) => Wrap64(Truncate(r) * SECOND)
    case JStr(s) => Wrap64(Atoi(s) * SECOND)
    case _ => 0
  }

  function Interval(configured: Json, current: int): int {
    var d := if configured.JNull? then current else IntervalToDuration(configured);
    if d <= 0 then MINUTE else d
  }

  /**
    A number of seconds and its decimal text configure the same interval, and it is that many seconds
    exactly when positive and within 64 bits of nanoseconds; otherwise it wraps or falls back to a minute.
  */
  lemma IntervalIsSeconds(i: int, current: int)
    requires InRange(i)
    ensures Interval(OfInt(i), current) == Interval(JStr(Itoa(i)), current)
    ensures Interval(OfInt(i), current) == i * SECOND <==> 0 < i && InRange(i * SECOND)
  {
    AtoiOfItoa(i);
    assert Truncate(i as real) == i;
  }

  // ---- Normalize ----

  datatype Config = Config(apiHost: string, nodeID: int)

  function TagOf(conf: Config): string { "[" + conf.apiHost + "]-sudoku:" + Itoa(conf.nodeID) }

  /** What Normalize leaves behind, also when it stops at an error. */
  function Normalized(n: Node, conf: Config): (Node, bool) {
    if n.protocol != "sudoku" then (n, false)
    else
      var m := n.(id := conf.nodeID, tag := TagOf(conf), listenIP := if n.listenIP == "" then "0.0.0.0" else n.listenIP);
      if m.serverPort <= 0 then (m, false)
      else
        (m.(pushInterval := Interval(m.base.pushInterval, m.pushInterval), pullInterval := Interval(m.base.pullInterval, m.pullInterval)),
         m.settings.masterPublicKey != "" || m.settings.masterPrivateKey != "")
  }

  class NodeInfo {
    var value: Node

    constructor (value: Node)
      ensures this.value == value
    {
      this.value := value;
    }

    method Normalize(conf: Config) returns (ok: bool)
      modifies this
      ensures (value, ok) == Normalized(old(value), conf)
    {
      hide IntervalToDuration, TagOf;
      var cfg := value;
      if cfg.protocol != "sudoku" { return false; }
      cfg := cfg.(id := conf.nodeID);
      cfg := cfg.(tag := TagOf(conf));
      if cfg.listenIP == "" { cfg := cfg.(listenIP := "0.0.0.0"); }
      value := cfg;
      if cfg.serverPort <= 0 { return false; }
      if !cfg.base.pushInterval.JNull? { cfg := cfg.(pushInterval := IntervalToDuration(cfg.base.pushInterval)); }
      if cfg.pushInterval <= 0 { cfg := cfg.(pushInterval := MINUTE); }
      if !cfg.base.pullInterval.JNull? { cfg := cfg.(pullInterval := IntervalToDuration(cfg.base.pullInterval)); }
      if cfg.pullInterval <= 0 { cfg := cfg.(pullInterval := MINUTE); }
      value := cfg;
      ok := cfg.settings.masterPublicKey != "" || cfg.settings.masterPrivateKey != "";
    }
  }

  /** Normalize succeeds exactly on a sudoku node with a port and a key; it is idempotent, failing runs included. */
  lemma NormalizeSettles(n: Node, conf: Config)
    ensures var (m, ok) := Normalized(n, conf);
      && Normalized(m, conf) == (m, ok)
      && (ok <==> n.protocol == "sudoku" && n.serverPort > 0 && (n.settings.masterPublicKey != "" || n.settings.masterPrivateKey != ""))
      && (ok ==> m.pushInterval > 0 && m.pullInterval > 0 && m.listenIP != "" && m.id == conf.nodeID)
      && m == n.(id := m.id, tag := m.tag, listenIP := m.listenIP, pushInterval := m.pushInterval, pullInterval := m.pullInterval)
  {
    hide IntervalToDuration;
  }

  /** `value` names `i` whole seconds: a number of them with any fraction, or their decimal text. */
  ghost predicate NamesSeconds(value: Json, i: int) {
    (value.JNum? && i as real <= value.number < (i + 1) as real) || value == JStr(Itoa(i))
  }

  /** `value` is no positive number of seconds: a smaller number, a text without one, or another kind of value. */
  ghost predicate NamesNone(value: Json) {
    match value
    case JNull => false
    case JNum(r) => -1_000_000_000.0 < r < 1.0
    case JStr(s) => !Numeral(s) || -1_000_000_000 < Signed(s) <= 0
    case _ => true
  }

  /** `interval` is what `value` asks for; null asks for what there was, and the default is a minute. */
  ghost predicate Honours(interval: int, value: Json, was: int) {
    && (forall i | NamesSeconds(value, i) && 0 < i && InRange(i * 1_000_000_000) :: interval == i * 1_000_000_000)
    && (NamesNone(value) || (value.JNull? && was <= 0) ==> interval == 60_000_000_000)
    && (value.JNull? && was > 0 ==> interval == was)
  }

  lemma IntervalHonours(value: Json, was: int)
    ensures Honours(Interval(value, was), value, was)
  {
    forall i | NamesSeconds(value, i) && 0 < i && InRange(i * 1_000_000_000) ensures Interval(value, was) == i * 1_000_000_000 {
      IntervalIsSeconds(i, was);
      if value.JNum? { assert Truncate(value.number) == i; }
    }
    hide Signed, Numeral;
    if value.JNum? && NamesNone(value) { assert -1_000_000_000 <= Truncate(value.number) <= 0; }
  }

  /**
    A sudoku node with a port gets the panel's push interval as its push interval and the pull interval as
    its pull interval, its own listen address or every interface, and the identity of this configuration.
  */
  lemma NormalizeHonoursThePanel(n: Node, conf: Config)
    requires n.protocol == "sudoku" && n.serverPort > 0
    ensures var m := Normalized(n, conf).0;
      && Honours(m.pushInterval, n.base.pushInterval, n.pushInterval)
      && Honours(m.pullInterval, n.base.pullInterval, n.pullInterval)
      && (n.listenIP != "" ==> m.listenIP == n.listenIP) && (n.listenIP == "" ==> m.listenIP == "0.0.0.0")
      && m.id == conf.nodeID && m.tag == "[" + conf.apiHost + "]-sudoku:" + Itoa(conf.nodeID)
  {
    hide Interval, Honours, Itoa;
    IntervalHonours(n.base.pushInterval, n.pushInterval);
    IntervalHonours(n.base.pullInterval, n.pullInterval);
  }

  // ---- decoding and encoding ----

  predicate BaseOk(j: Json) {
    IsObject(j) && IntOk(Members(j), DeviceOnlineMinTraffic) && IntOk(Members(j), NodeReportMinTraffic)
  }

  function BaseOf(j: Json): Base {
    var o := Members(j);
    Base(Get(o, PushInterval), Get(o, PullInterval), IntAt(o, DeviceOnlineMinTraffic), IntAt(o, NodeReportMinTraffic))
  }

  predicate NodeOk(j: Json) {
    IsObject(j) &&
    var o := Members(j);
    && IntOk(o, Id) && StringOk(o, Tag) && StringOk(o, Protocol) && StringOk(o, Host) && StringOk(o, ListenIp)
    && IntOk(o, ServerPort) && StringOk(o, Network) && StringOk(o, Encryption) && SettingsOk(Get(o, EncryptionSettings))
    && BaseOk(Get(o, BaseConfig)) && IntOk(o, PushNs) && IntOk(o, PullNs)
  }

  function NodeOf(sprint: Json -> string, j: Json): Node {
    var o := Members(j);
    Node(IntAt(o, Id), StringAt(o, Tag), StringAt(o, Protocol), StringAt(o, Host), StringAt(o, ListenIp), Get(o, Port),
         IntAt(o, ServerPort), StringAt(o, Network), if NetworkSettings in o then Some(o[NetworkSettings]) else None,
         StringAt(o, Encryption), SettingsOf(sprint, Get(o, EncryptionSettings)), BaseOf(Get(o, BaseConfig)),
         IntAt(o, PushNs), IntAt(o, PullNs))
  }

  /** From the panel's document to the node: each interval and each minimum is the one named for it. */
  lemma PanelConfigures(sprint: Json -> string, o: Object, b: Object, push: int, pull: int, device: int, report: int, conf: Config)
    requires StringAt(o, Protocol) == "sudoku" && IntAt(o, ServerPort) > 0 && Get(o, BaseConfig) == JObj(b)
    requires NamesSeconds(Get(b, PushInterval), push) && 0 < push && InRange(push * 1_000_000_000)
    requires NamesSeconds(Get(b, PullInterval), pull) && 0 < pull && InRange(pull * 1_000_000_000)
    requires Get(b, DeviceOnlineMinTraffic) == OfInt(device) && Get(b, NodeReportMinTraffic) == OfInt(report)
    ensures var m := Normalized(NodeOf(sprint, JObj(o)), conf).0;
      && m.pushInterval == push * 1_000_000_000 && m.pullInterval == pull * 1_000_000_000
      && m.base.deviceOnlineMinTraffic == device && m.base.nodeReportMinTraffic == report
      && m.settings == SettingsOf(sprint, Get(o, EncryptionSettings)) && m.serverPort == IntAt(o, ServerPort)
      && (StringAt(o, ListenIp) != "" ==> m.listenIP == StringAt(o, ListenIp))
  {
    hide Normalized, NamesSeconds, SettingsOf;
    var n := NodeOf(sprint, JObj(o));
    NormalizeHonoursThePanel(n, conf);
    NormalizeSettles(n, conf);
  }

  function JsonOfBase(b: Base): Json {
    JObj(map[PushInterval := b.pushInterval, PullInterval := b.pullInterval,
             DeviceOnlineMinTraffic := OfInt(b.deviceOnlineMinTraffic), NodeReportMinTraffic := OfInt(b.nodeReportMinTraffic)])
  }

  /** A missing raw member is written as null. */
  function JsonOfNode(n: Node): Json {
    JObj(map[Id := OfInt(n.id), Tag := JStr(n.tag), Protocol := JStr(n.protocol), Host := JStr(n.host), ListenIp := JStr(n.listenIP),
             Port := n.port, ServerPort := OfInt(n.serverPort), Network := JStr(n.network),
             NetworkSettings := if n.networkSettings.Some? then n.networkSettings.value else JNull,
             Encryption := JStr(n.encryption), EncryptionSettings := JsonOfSettings(n.settings), BaseConfig := JsonOfBase(n.base),
             PushNs := OfInt(n.pushInterval), PullNs := OfInt(n.pullInterval)])
  }

  predicate UserOk(j: Json) {
    IsObject(j) &&
    var o := Members(j);
    IntOk(o, Id) && StringOk(o, Uuid) && StringOk(o, Email) && IntOk(o, SpeedLimit) && IntOk(o, DeviceLimit)
  }

  function UserOf(j: Json): UserInfo {
    var o := Members(j);
    UserInfo(IntAt(o, Id), StringAt(o, Uuid), StringAt(o, Email), IntAt(o, SpeedLimit), IntAt(o, DeviceLimit))
  }

  function JsonOfUser(u: UserInfo): Json {
    JObj(map[Id := OfInt(u.id), Uuid := JStr(u.uuid), Email := JStr(u.email), SpeedLimit := OfInt(u.speedLimit), DeviceLimit := OfInt(u.deviceLimit)])
  }

  /** A user is read from the members of those names, whatever else the object holds. */
  lemma UserFields(o: Object, u: UserInfo)
    requires Get(o, Id) == OfInt(u.id) && Get(o, Uuid) == JStr(u.uuid) && Get(o, Email) == JStr(u.email)
    requires Get(o, SpeedLimit) == OfInt(u.speedLimit) && Get(o, DeviceLimit) == OfInt(u.deviceLimit)
    requires InRange(u.id) && InRange(u.speedLimit) && InRange(u.deviceLimit)
    ensures UserOk(JObj(o)) && UserOf(JObj(o)) == u
  {
  }

  predicate UsersOk(j: Json) { j.JNull? || (j.JArr? && forall u <- j.items :: UserOk(u)) }

  function UsersOf(j: Json): seq<UserInfo> {
    if j.JArr? then seq(|j.items|, i requires 0 <= i < |j.items| => UserOf(j.items[i])) else []
  }

  function JsonOfUsers(users: seq<UserInfo>): Json {
    JArr(seq(|users|, i requires 0 <= i < |users| => JsonOfUser(users[i])))
  }

  predicate AliveOk(j: Json) {
    IsObject(j) && forall n <- Members(j) :: n.Key? && Parses(n.text) && IntOk(Members(j), n)
  }

  /** Of several spellings of one id some one counts. */
  ghost function AliveOf(j: Json): map<int, int> {
    var o := Members(j);
    var ids := set n <- o | n.Key? :: Atoi(n.text);
    map id <- ids :: var n :| n in o && n.Key? && Atoi(n.text) == id; IntAt(o, n)
  }

  function JsonOfAlive(alive: map<int, int>): Json {
    ItoaIsInjective();
    JObj(map id <- alive :: Key(Itoa(id)) := OfInt(alive[id]))
  }

  lemma ItoaIsInjective()
    ensures forall m, n :: Itoa(m) == Itoa(n) ==> m == n
  {
    forall m, n | Itoa(m) == Itoa(n) ensures m == n { ItoaInjective(m, n); }
  }

  // ---- saving and reading ----

  datatype Snapshot = Snapshot(node: Option<Node>, users: seq<UserInfo>, alive: map<int, int>)

  /** What savePanelSnapshot leaves in the snapshot's node, and what it writes, if anything. */
  function Saved(s: Snapshot, conf: Config): (Snapshot, Option<Json>) {
    if s.node.None? then (s, None)
    else
      var (m, ok) := Normalized(s.node.value, conf);
      var t := s.(node := Some(m));
      (t, if ok then Some(JObj(map[ApiHost := JStr(conf.apiHost), NodeId := OfInt(conf.nodeID), Name.NodeInfo := JsonOfNode(m),
                                   Users := JsonOfUsers(s.users), Alive := JsonOfAlive(s.alive)])) else None)
  }

  predicate SnapshotOk(j: Json) {
    IsObject(j) &&
    var o := Members(j);
    StringOk(o, ApiHost) && IntOk(o, NodeId) && NodeOk(Get(o, Name.NodeInfo)) && UsersOk(Get(o, Users)) && AliveOk(Get(o, Alive))
  }

  /** readPanelSnapshot on the cached body. */
  ghost function ReadBack(sprint: Json -> string, body: Option<Json>, conf: Config): Option<Snapshot> {
    if body.None? || !SnapshotOk(body.value) then None
    else
      var o := Members(body.value);
      if Get(o, Name.NodeInfo).JNull? then None
      else if StringAt(o, ApiHost) != "" && StringAt(o, ApiHost) != conf.apiHost then None
      else if IntAt(o, NodeId) != 0 && IntAt(o, NodeId) != conf.nodeID then None
      else
        var (m, ok) := Normalized(NodeOf(sprint, Get(o, Name.NodeInfo)), conf);
        if ok then Some(Snapshot(Some(m), UsersOf(Get(o, Users)), AliveOf(Get(o, Alive)))) else None
  }

  // ---- the round trip ----

  lemma BaseReadsBack(b: Base)
    requires InRange(b.deviceOnlineMinTraffic) && InRange(b.nodeReportMinTraffic)
    ensures BaseOk(JsonOfBase(b)) && BaseOf(JsonOfBase(b)) == b
  {
  }

  /** The nodes decoding and Normalize can produce. */
  predicate CanonicalNode(n: Node) {
    && InRange(n.id) && InRange(n.serverPort) && Canonical(n.settings) && InRange(n.pushInterval) && InRange(n.pullInterval)
    && InRange(n.base.deviceOnlineMinTraffic) && InRange(n.base.nodeReportMinTraffic)
  }

  lemma DecodedNodeIsCanonical(sprint: Json -> string, j: Json)
    requires NodeOk(j)
    ensures CanonicalNode(NodeOf(sprint, j))
  {
    hide Canonical, SettingsOk, SettingsOf;
    DecodedIsCanonical(sprint, Get(Members(j), EncryptionSettings));
  }

  lemma NormalizedIsCanonical(n: Node, conf: Config)
    requires CanonicalNode(n) && InRange(conf.nodeID)
    ensures CanonicalNode(Normalized(n, conf).0)
  {
    hide Canonical;
  }

  /** The raw member comes back, as null when there was none. */
  function Filled(n: Node): Node { if n.networkSettings.None? then n.(networkSettings := Some(JNull)) else n }

  ghost predicate EncodesIdentity(o: Object, n: Node) {
    && Get(o, Id) == OfInt(n.id) && Get(o, Tag) == JStr(n.tag) && Get(o, Protocol) == JStr(n.protocol) && Get(o, Host) == JStr(n.host)
    && Get(o, ListenIp) == JStr(n.listenIP) && Get(o, Port) == n.port && Get(o, ServerPort) == OfInt(n.serverPort)
  }

  ghost predicate EncodesOptions(o: Object, n: Node) {
    && Get(o, Network) == JStr(n.network) && NetworkSettings in o && Some(o[NetworkSettings]) == Filled(n).networkSettings
    && Get(o, Encryption) == JStr(n.encryption) && Get(o, EncryptionSettings) == JsonOfSettings(n.settings)
    && Get(o, BaseConfig) == JsonOfBase(n.base) && Get(o, PushNs) == OfInt(n.pushInterval) && Get(o, PullNs) == OfInt(n.pullInterval)
  }

  lemma NodeIsAnObject(n: Node)
    ensures JsonOfNode(n).JObj?
  {
  }

  lemma EncodingHasIdentity(n: Node)
    ensures EncodesIdentity(Members(JsonOfNode(n)), n)
  {
    hide JsonOfSettings, JsonOfBase, OfInt;
  }

  lemma EncodingHasOptions(n: Node)
    ensures EncodesOptions(Members(JsonOfNode(n)), n)
  {
    hide JsonOfSettings, JsonOfBase, OfInt;
  }

  lemma NodeReadsBack(sprint: Json -> string, n: Node)
    requires CanonicalNode(n)
    ensures NodeOk(JsonOfNode(n)) && NodeOf(sprint, JsonOfNode(n)) == Filled(n)
  {
    hide Canonical, JsonOfNode, JsonOfSettings, JsonOfBase, SettingsOk, SettingsOf, BaseOk, BaseOf, Get;
    NodeIsAnObject(n);
    EncodingHasIdentity(n);
    EncodingHasOptions(n);
    EncodedReadsBack(sprint, n.settings);
    BaseReadsBack(n.base);
  }

  predicate UserInRange(u: UserInfo) { InRange(u.id) && InRange(u.speedLimit) && InRange(u.deviceLimit) }

  lemma UserReadsBack(u: UserInfo)
    requires UserInRange(u)
    ensures UserOk(JsonOfUser(u)) && UserOf(JsonOfUser(u)) == u
  {
  }

  lemma UsersReadBack(users: seq<UserInfo>)
    requires forall u <- users :: UserInRange(u)
    ensures UsersOk(JsonOfUsers(users)) && UsersOf(JsonOfUsers(users)) == users
  {
    hide JsonOfUser, UserOk, UserOf, UserInRange;
    forall i | 0 <= i < |users| ensures UserOk(JsonOfUser(users[i])) && UserOf(JsonOfUser(users[i])) == users[i] {
      assert users[i] in users;
      UserReadsBack(users[i]);
    }
  }

  predicate AliveInRange(alive: map<int, int>) { forall id <- alive :: InRange(id) && InRange(alive[id]) }

  lemma AliveEncodes(alive: map<int, int>, id: int)
    requires id in alive
    ensures var o := Members(JsonOfAlive(alive)); Key(Itoa(id)) in o && o[Key(Itoa(id))] == OfInt(alive[id])
  {
    hide Itoa;
    ItoaIsInjective();
  }

  lemma AliveReadsBack(alive: map<int, int>)
    requires AliveInRange(alive)
    ensures AliveOk(JsonOfAlive(alive)) && AliveOf(JsonOfAlive(alive)) == alive
  {
    hide Itoa, Atoi, Parses, OfInt;
    var o := Members(JsonOfAlive(alive));
    forall n | n in o ensures n.Key? && Parses(n.text) && Atoi(n.text) in alive && IntOk(o, n) && IntAt(o, n) == alive[Atoi(n.text)] {
      var id :| id in alive && n == Key(Itoa(id));
      AtoiOfItoa(id);
      AliveEncodes(alive, id);
      IntReadsBack(o, n, alive[id]);
    }
    forall id | id in alive ensures Key(Itoa(id)) in o && Atoi(Itoa(id)) == id {
      AliveEncodes(alive, id);
      AtoiOfItoa(id);
    }
    AliveDecodes(o, alive);
  }

  lemma AliveDecodes(o: Object, alive: map<int, int>)
    requires forall n <- o :: n.Key? && Atoi(n.text) in alive && IntAt(o, n) == alive[Atoi(n.text)]
    requires forall id <- alive :: Key(Itoa(id)) in o && Atoi(Itoa(id)) == id
    ensures AliveOf(JObj(o)) == alive
  {
    hide Itoa, Atoi, IntAt;
    forall id | id in alive ensures id in AliveOf(JObj(o)) {
      assert Key(Itoa(id)) in o && Key(Itoa(id)).Key?;
    }
  }

  /** A snapshot as fetchPanelSnapshot returns it: the panel's document decoded and normalized. */
  ghost predicate Fetched(sprint: Json -> string, s: Snapshot, conf: Config) {
    && InRange(conf.nodeID) && (forall u <- s.users :: UserInRange(u)) && AliveInRange(s.alive)
    && exists j :: NodeOk(j) && (s.node, true) == (Some(Normalized(NodeOf(sprint, j), conf).0), Normalized(NodeOf(sprint, j), conf).1)
  }

  lemma FetchedNode(sprint: Json -> string, s: Snapshot, conf: Config)
    requires Fetched(sprint, s, conf)
    ensures s.node.Some? && CanonicalNode(s.node.value) && Normalized(s.node.value, conf) == (s.node.value, true)
  {
    hide NodeOk, NodeOf, Normalized, CanonicalNode;
    var j :| NodeOk(j) && (s.node, true) == (Some(Normalized(NodeOf(sprint, j), conf).0), Normalized(NodeOf(sprint, j), conf).1);
    DecodedNodeIsCanonical(sprint, j);
    NormalizedIsCanonical(NodeOf(sprint, j), conf);
    NormalizeSettles(NodeOf(sprint, j), conf);
  }

  /** The members readPanelSnapshot finds in what savePanelSnapshot wrote. */
  lemma SavedMembers(s: Snapshot, conf: Config)
    requires s.node.Some? && Normalized(s.node.value, conf) == (s.node.value, true)
    ensures var (t, body) := Saved(s, conf);
      && t == s && body.Some? && body.value.JObj?
      && var o := Members(body.value);
      && Get(o, ApiHost) == JStr(conf.apiHost) && Get(o, NodeId) == OfInt(conf.nodeID) && Get(o, Name.NodeInfo) == JsonOfNode(s.node.value)
      && Get(o, Users) == JsonOfUsers(s.users) && Get(o, Alive) == JsonOfAlive(s.alive)
  {
    hide Normalized, JsonOfNode, JsonOfUsers, JsonOfAlive, OfInt;
  }

  /** The two identity checks of readPanelSnapshot, for a cache written under `written`. */
  predicate Foreign(written: Config, conf: Config) {
    (written.apiHost != "" && written.apiHost != conf.apiHost) || (written.nodeID != 0 && written.nodeID != conf.nodeID)
  }

  /**
    A fetched snapshot saved under one configuration is refused under another exactly when panel or node
    differ and were named; otherwise users and alive map come back and the node as normalized there.
  */
  lemma ReadElsewhere(sprint: Json -> string, s: Snapshot, written: Config, conf: Config)
    requires Fetched(sprint, s, written)
    ensures var body := Saved(s, written).1;
      && body.Some? && Saved(s, written).0 == s
      && ReadBack(sprint, body, conf) ==
         if Foreign(written, conf) then None
         else Some(Snapshot(Some(Normalized(Filled(s.node.value), conf).0), s.users, s.alive))
  {
    hide Normalized, CanonicalNode, Saved, JsonOfNode, NodeOk, NodeOf, Filled, JsonOfUsers, UsersOk, UsersOf, JsonOfAlive, AliveOk, AliveOf;
    FetchedNode(sprint, s, written);
    SavedMembers(s, written);
    var n, o := s.node.value, Members(Saved(s, written).1.value);
    NodeReadsBack(sprint, n);
    UsersReadBack(s.users);
    AliveReadsBack(s.alive);
    IntReadsBack(o, NodeId, written.nodeID);
    FilledSettles(n, written, conf);
    assert !JsonOfNode(n).JNull? by { NodeIsAnObject(n); }
  }

  /** Normalize looks neither at the raw member nor at what identifies the node. */
  lemma FilledSettles(n: Node, written: Config, conf: Config)
    requires Normalized(n, written) == (n, true)
    ensures Normalized(Filled(n), conf).1
    ensures Normalized(Filled(n), written) == (Filled(n), true)
  {
    hide IntervalToDuration, TagOf;
  }

  /**
    A cached start gives back the settings, intervals, users and alive map of the live start that wrote
    the cache. The one exception is a node without network settings, which comes back with null for them:
    the snapshots are equal exactly when the panel sent that member.
  */
  lemma CacheRoundTrip(sprint: Json -> string, s: Snapshot, conf: Config)
    requires Fetched(sprint, s, conf)
    ensures var r := ReadBack(sprint, Saved(s, conf).1, conf);
      && s.node.Some? && r == Some(s.(node := Some(Filled(s.node.value))))
      && (r == Some(s) <==> s.node.value.networkSettings.Some?)
  {
    hide Normalized, Saved, ReadBack, Fetched;
    ReadElsewhere(sprint, s, conf, conf);
    FetchedNode(sprint, s, conf);
    FilledSettles(s.node.value, conf, conf);
  }

  /** Saving what was read writes the same document again. */
  lemma CacheIsStable(sprint: Json -> string, s: Snapshot, conf: Config)
    requires Fetched(sprint, s, conf)
    ensures var body := Saved(s, conf).1; var r := ReadBack(sprint, body, conf);
      r.Some? && Saved(r.value, conf) == (r.value, body)
  {
    hide Normalized, ReadBack, JsonOfUsers, JsonOfAlive, JsonOfBase, JsonOfSettings, Fetched, CanonicalNode;
    CacheRoundTrip(sprint, s, conf);
    FetchedNode(sprint, s, conf);
    FilledSettles(s.node.value, conf, conf);
  }

  /** The cache file, replaced as a whole or not at all. */
  class PanelCache {
    const conf: Config
    var file: Option<Json>

    constructor (conf: Config)
      ensures this.conf == conf && file == None
    {
      this.conf, file := conf, None;
    }

    method SavePanelSnapshot(node: NodeInfo?, users: seq<UserInfo>, alive: map<int, int>, writable: bool) returns (ok: bool)
      modifies this`file, node
      ensures var before := Snapshot(if node == null then None else Some(old(node.value)), users, alive);
        var (after, body) := Saved(before, conf);
        && (node != null ==> after.node == Some(node.value))
        && ok == (body.Some? && writable) && file == if ok then body else old(file)
    {
      hide Normalized, JsonOfNode, JsonOfUsers, JsonOfAlive;
      if node == null { return false; }
      ok := node.Normalize(conf);
      if !ok { return; }
      var body := JObj(map[ApiHost := JStr(conf.apiHost), NodeId := OfInt(conf.nodeID), Name.NodeInfo := JsonOfNode(node.value),
                           Users := JsonOfUsers(users), Alive := JsonOfAlive(alive)]);
      ok := writable;
      if ok { file := Some(body); }
    }
  }
}
