/** What a client has to present to be admitted, from its user's fields (internal/runtime/key_store.go). */
module Clients {
  import opened Panel
  import opened Accounting
  import opened Text
  import opened Scalars
  import opened KeyStore
  import opened TwoRebuilds
  import UserSync

  // ---- white space and hexadecimal ----

  predicate Spaces(s: string) { forall c <- s :: IsSpace(c) }

  /** Trimming takes white space off both ends and nothing else. */
  lemma TrimSpaceIs(s: string) returns (a: string, b: string)
    ensures Spaces(a) && Spaces(b) && s == a + TrimSpace(s) + b
  {
    a := LeftSpaces(s);
    b := RightSpaces(TrimLeft(s));
  }

  lemma {:induction false} LeftSpaces(s: string) returns (a: string)
    ensures Spaces(a) && s == a + TrimLeft(s)
  {
    a := "";
    if s != "" && IsSpace(s[0]) {
      var rest := LeftSpaces(s[1..]);
      a := [s[0]] + rest;
    }
  }

  lemma {:induction false} RightSpaces(s: string) returns (b: string)
    ensures Spaces(b) && s == TrimRight(s) + b
  {
    b := "";
    if s != "" && IsSpace(s[|s| - 1]) {
      var rest := RightSpaces(s[..|s| - 1]);
      b := rest + [s[|s| - 1]];
      assert s == TrimRight(s) + b;
    }
  }

  predicate HexText(s: string) { forall c <- s :: '0' <= c <= '9' || 'a' <= c <= 'f' || 'A' <= c <= 'F' }

  /** Exactly the texts of an even number of hexadecimal digits decode. */
  lemma {:induction false} DecodesExactly(s: string)
    ensures HexDecode(s).Some? <==> |s| % 2 == 0 && HexText(s)
  {
    if |s| >= 2 {
      var init := s[..|s| - 2];
      DecodesExactly(init);
      OneByte(init, s[|s| - 2], s[|s| - 1]);
      OneByteText(init, s[|s| - 2], s[|s| - 1]);
      assert s == init + [s[|s| - 2], s[|s| - 1]];
      hide HexDecode, HexText, HexByte;
    }
  }

  lemma OneByte(s: string, hi: char, lo: char)
    ensures var last := HexByte(hi, lo);
      HexDecode(s + [hi, lo]) == if HexDecode(s).None? || last.None? then None else Some(HexDecode(s).value + [last.value])
  {
    hide HexByte;
    var t := s + [hi, lo];
    assert t[..|t| - 2] == s && t[|t| - 2] == hi && t[|t| - 1] == lo;
  }

  lemma OneByteText(s: string, hi: char, lo: char)
    ensures HexText(s + [hi, lo]) <==> HexText(s) && HexByte(hi, lo).Some?
  {
    var t := s + [hi, lo];
    assert t[|s|] == hi && t[|s| + 1] == lo && forall i | 0 <= i < |s| :: t[i] == s[i];
    assert hi in t && lo in t && forall c <- s :: c in t;
  }

  /** Upper-case digits decode as lower-case ones do. */
  lemma {:induction false} CaseOfHex(s: string)
    ensures |Lower(s)| == |s| && HexDecode(Lower(s)) == HexDecode(s)
  {
    if |s| == 1 {
      assert Lower(s[1..]) == "";
    } else if |s| >= 2 {
      var init, hi, lo := s[..|s| - 2], s[|s| - 2], s[|s| - 1];
      CaseOfHex(init);
      LowerPair(init, hi, lo);
      assert s == init + [hi, lo];
      OneByte(init, hi, lo);
      OneByte(Lower(init), LowerChar(hi), LowerChar(lo));
      LowerDigit(hi, lo);
      hide HexByte, HexDecode, Lower, LowerChar;
    }
  }

  function LowerChar(c: char): char { if 'A' <= c <= 'Z' then c + ' ' else c }

  lemma {:induction false} LowerPair(s: string, hi: char, lo: char)
    ensures Lower(s + [hi, lo]) == Lower(s) + [LowerChar(hi), LowerChar(lo)]
  {
    if s == "" {
      assert s + [hi, lo] == [hi, lo] && [hi, lo][1..] == [lo] && [lo][1..] == "";
    } else {
      LowerPair(s[1..], hi, lo);
      assert (s + [hi, lo])[1..] == s[1..] + [hi, lo];
    }
  }

  lemma LowerDigit(hi: char, lo: char)
    ensures HexByte(LowerChar(hi), LowerChar(lo)) == HexByte(hi, lo)
  {
  }

  lemma HexIsNoSpace(s: string)
    requires HexText(s)
    ensures Trimmed(s) && TrimSpace(s) == s
  {
    assert s != "" ==> s[0] in s && s[|s| - 1] in s;
  }

  // ---- what is hashed ----

  /** Eight bytes of the hash, as text. */
  function Short(crypto: Crypto, bs: seq<Byte>): string { HexEncode(crypto.sha256(bs)[..8]) }

  /** A key that is the text of some bytes is hashed as those bytes, whatever white space surrounds it. */
  lemma HashOfBytes(crypto: Crypto, bs: seq<Byte>)
    requires bs != []
    ensures UserHash(crypto, HexEncode(bs)) == Short(crypto, bs)
  {
    HexRoundTrip(bs);
    DecodesExactly(HexEncode(bs));
    HexIsNoSpace(HexEncode(bs));
  }

  /** Any other key is hashed as its text, without the white space around it. */
  lemma HashOfText(crypto: Crypto, key: string)
    requires var k := TrimSpace(key); k == "" || |k| % 2 == 1 || !HexText(k)
    ensures UserHash(crypto, key) == Short(crypto, crypto.utf8(TrimSpace(key)))
  {
    DecodesExactly(TrimSpace(key));
  }

  /** The master key is used exactly when it is 64 hexadecimal digits, in either case, up to white space around them. */
  lemma MasterIs64Digits(masterHex: string)
    ensures MasterBytes(masterHex).Some? <==> |TrimSpace(masterHex)| == 64 && HexText(TrimSpace(masterHex))
    ensures MasterBytes(masterHex).Some? ==> |MasterBytes(masterHex).value| == 32
  {
    DecodesExactly(TrimSpace(masterHex));
  }

  // ---- what each source makes of a user ----

  /** The 64 bytes of a user's split key. */
  function SplitBytes(crypto: Crypto, node: Node, user: UserInfo, master: seq<Byte>): seq<Byte> {
    var r := LittleEndian(crypto.sha512("v2sudoku|node:" + Itoa(node.id) + "|uid:" + Itoa(user.id) + "|uuid:" + user.uuid
                                        + "|master:" + TrimSpace(node.masterPrivateKey))) % ORDER;
    LittleEndianBytes(r, 32) + LittleEndianBytes((LittleEndian(master) - r) % ORDER, 32)
  }

  /** The 32 bytes of a user's deterministic key. */
  function SeedBytes(crypto: Crypto, seed: string, node: Node, user: UserInfo): seq<Byte> {
    crypto.sha256(crypto.utf8((if seed == "" then "v2sudoku" else seed) + "|node:" + Itoa(node.id) + "|uid:" + Itoa(user.id)
                              + "|uuid:" + user.uuid))
  }

  /** The bytes of a text that is hexadecimal, the encoding of any other. */
  function TextBytes(crypto: Crypto, text: string): seq<Byte> {
    if |text| % 2 == 0 && HexText(text) then
      DecodesExactly(text);
      HexDecode(text).value
    else crypto.utf8(text)
  }

  /** The bytes the client of a user hashes, by the configured name of the key source and the table `t` of stored keys. */
  function Secret(cfg: Config, crypto: Crypto, node: Node, t: Table, user: UserInfo): Option<seq<Byte>> {
    var name := Lower(TrimSpace(cfg.source));
    if name in {"", "split", "deterministic_split"} then
      (match MasterBytes(node.masterPrivateKey)
       case None => None
       case Some(master) => Some(SplitBytes(crypto, node, user, master)))
    else if name == "deterministic" then Some(SeedBytes(crypto, cfg.seed, node, user))
    else if name == "uuid" && TrimSpace(user.uuid) != "" then Some(TextBytes(crypto, TrimSpace(user.uuid)))
    else if name in {"file", "auto"} && Itoa(user.id) in t && TrimSpace(t[Itoa(user.id)]) != "" then
      Some(TextBytes(crypto, TrimSpace(t[Itoa(user.id)])))
    else None
  }

  /** The hash the client of this user presents. */
  predicate Presents(cfg: Config, crypto: Crypto, node: Node, t: Table, user: UserInfo, h: string) {
    Secret(cfg, crypto, node, t, user).Some? && h == Short(crypto, Secret(cfg, crypto, node, t, user).value)
  }

  lemma SplitHash(crypto: Crypto, node: Node, user: UserInfo)
    ensures var key := SplitKey(node.masterPrivateKey, node.id, user.id, user.uuid, crypto.sha512);
      && (key.KeyError? <==> MasterBytes(node.masterPrivateKey).None?)
      && (key.Key? ==>
            key.value != "" && UserHash(crypto, key.value) == Short(crypto, SplitBytes(crypto, node, user, MasterBytes(node.masterPrivateKey).value)))
  {
    SplitSeedText(node.id, user.id, user.uuid, TrimSpace(node.masterPrivateKey));
    hide LittleEndian, LittleEndianBytes, HexEncode, SplitSeed, TrimSpace, MasterBytes, UserHash, Short;
    if MasterBytes(node.masterPrivateKey).Some? {
      HashOfBytes(crypto, SplitBytes(crypto, node, user, MasterBytes(node.masterPrivateKey).value));
    }
  }

  lemma SeedHash(crypto: Crypto, seed: string, node: Node, user: UserInfo)
    ensures UserKeyHex(crypto, seed, node, user) != ""
    ensures UserHash(crypto, UserKeyHex(crypto, seed, node, user)) == Short(crypto, SeedBytes(crypto, seed, node, user))
  {
    UserSeedText(seed, node.id, user.id, user.uuid);
    hide HexEncode, UserSeed, UserHash, Short;
    HashOfBytes(crypto, SeedBytes(crypto, seed, node, user));
  }

  lemma TextHash(crypto: Crypto, text: string)
    requires TrimSpace(text) != ""
    ensures UserHash(crypto, TrimSpace(text)) == Short(crypto, TextBytes(crypto, TrimSpace(text)))
  {
    var k := TrimSpace(text);
    DecodesExactly(k);
    assert TrimSpace(k) == k;
    hide TrimSpace, HexText, HexEncode;
  }

  /** The key and the secret of its client go together. */
  ghost predicate Fits(cfg: Config, crypto: Crypto, node: Node, t: Table, user: UserInfo, key: string) {
    && (key == "" <==> Secret(cfg, crypto, node, t, user).None?)
    && (key != "" ==> Presents(cfg, crypto, node, t, user, UserHash(crypto, key)))
  }

  lemma StatelessFits(cfg: Config, crypto: Crypto, node: Node, t: Table, user: UserInfo, key: string)
    requires !FileBacked(SourceOf(cfg.source)) && Resolve(cfg, crypto, map[], node, user, KeyError) == Key(key)
    ensures Fits(cfg, crypto, node, t, user, key)
  {
    hide UserHash, Short, SplitKey, SplitBytes, SeedBytes, TextBytes, TrimSpace, Lower, MasterBytes, UserKeyHex;
    SplitHash(crypto, node, user);
    SeedHash(crypto, cfg.seed, node, user);
    if TrimSpace(user.uuid) != "" { TextHash(crypto, user.uuid); }
  }

  lemma StoredFits(cfg: Config, crypto: Crypto, node: Node, t: Table, user: UserInfo)
    requires FileBacked(SourceOf(cfg.source))
    ensures Fits(cfg, crypto, node, t, user, TrimSpace(At(t, user.id)))
  {
    assert TrimSpace("") == "";
    hide UserHash, Short, TextBytes, TrimSpace, Lower;
    if TrimSpace(At(t, user.id)) != "" { TextHash(crypto, At(t, user.id)); }
  }

  /** A key is drawn only for a user without one, while the file has room and the node a master key. */
  lemma AutoDraws(cfg: Config, crypto: Crypto, node: Node, t: Table, user: UserInfo, draw: KeyResult)
    requires Lower(TrimSpace(cfg.source)) == "auto"
    ensures var stored := if Itoa(user.id) in t then TrimSpace(t[Itoa(user.id)]) else "";
      && (stored != "" ==> Resolve(cfg, crypto, t, node, user, draw) == Key(stored))
      && (stored == "" && |t| < cfg.limit && node.masterPrivateKey != "" ==> Resolve(cfg, crypto, t, node, user, draw) == draw)
      && (stored == "" && (|t| >= cfg.limit || node.masterPrivateKey == "") ==> Resolve(cfg, crypto, t, node, user, draw) == KeyError)
  {
    assert TrimSpace("") == "";
    hide TrimSpace, Lower, Itoa;
  }

  /** The file source hands out what is stored and nothing else; a source of any other name is an error. */
  lemma FileOnlyReads(cfg: Config, crypto: Crypto, node: Node, t: Table, user: UserInfo, draw: KeyResult)
    ensures var name := Lower(TrimSpace(cfg.source));
      && (name == "file" ==>
            Resolve(cfg, crypto, t, node, user, draw) == Key(if Itoa(user.id) in t then TrimSpace(t[Itoa(user.id)]) else ""))
      && (name !in {"", "split", "deterministic_split", "deterministic", "uuid", "file", "auto"} ==>
            Resolve(cfg, crypto, t, node, user, draw) == KeyError)
  {
    assert TrimSpace("") == "";
    hide TrimSpace, Lower, Itoa;
  }

  // ---- the key file ----

  /** Sources without a key file neither read nor write one. */
  lemma StatelessLeavesStore(cfg: Config, crypto: Crypto, s: Store, c: Call)
    requires Lower(TrimSpace(cfg.source)) !in {"file", "auto"} && |c.users| == |c.draws|
    ensures Build(cfg, crypto, s, c).0 == s
  {
    hide Lower, TrimSpace, Scan;
    StatelessScan(cfg, crypto, c.node, s.table, c.users, c.draws);
  }

  lemma {:induction false} StatelessScan(cfg: Config, crypto: Crypto, node: Node, t: Table, users: seq<UserInfo>, draws: seq<KeyResult>)
    requires !FileBacked(SourceOf(cfg.source)) && |users| == |draws|
    ensures var p := Scan(cfg, crypto, node, t, users, draws); p.table == t && !p.changed
  {
    hide SourceOf, Resolve;
    if users != [] { StatelessScan(cfg, crypto, node, t, users[..|users| - 1], draws[..|users| - 1]); }
  }

  /** The first call loads the file: it succeeds unless the file is there and cannot be read or does not decode. */
  lemma FirstCallLoads(cfg: Config, crypto: Crypto, disk: Disk, node: Node, readable: bool, writable: bool)
    requires Lower(TrimSpace(cfg.source)) in {"file", "auto"}
    ensures var (t, r) := Build(cfg, crypto, Store(false, map[], disk), Call(node, [], [], readable, writable));
      && t.loaded && t.disk == disk
      && (r == Done([]) <==> disk == Absent || (readable && !disk.Garbage?)) && (r == Done([]) ==> t.table == OnDisk(disk))
  {
    hide Lower, TrimSpace;
  }

  // ---- the index ----

  ghost predicate AllFit(cfg: Config, crypto: Crypto, node: Node, t: Table, list: seq<UserInfo>, keys: seq<string>) {
    |list| == |keys| && forall i | 0 <= i < |list| :: Fits(cfg, crypto, node, t, list[i], keys[i])
  }

  /** Stored and drawn keys are clean, as far as there are any. */
  ghost predicate Clean(cfg: Config, was: Store, w: World) {
    FileBacked(SourceOf(cfg.source)) ==> CleanStore(was) && CleanWorld(w)
  }

  /**
    After every rebuild that succeeds, whatever the source, the index holds exactly the hashes the users'
    clients present, and names for each a user whose client presents it, with a largest id.
  */
  lemma IndexIsWhatClientsPresent(cfg: Config, crypto: Crypto, node: Node, w: World, users: map<string, UserInfo>,
                                  was: Store, now: Store, out: seq<UserKey>)
    requires Rebuilds(cfg, crypto, node, w, users, was, now, Some(out)) && "" !in users && Clean(cfg, was, w)
    ensures forall h :: h in IndexOf(out) <==> exists u <- users :: Presents(cfg, crypto, node, now.table, users[u], h)
    ensures forall h <- IndexOf(out) ::
      && IndexOf(out)[h] in users && Presents(cfg, crypto, node, now.table, users[IndexOf(out)[h]], h)
      && forall u <- users :: Presents(cfg, crypto, node, now.table, users[u], h) ==> users[u].id <= users[IndexOf(out)[h]].id
  {
    hide Presents, IndexOf, Rebuilds, Clean, AllFit, Built;
    var t := now.table;
    var list, keys := Resolved(cfg, crypto, node, w, users, was, now, out);
    forall h ensures h in IndexOf(out) <==> exists u <- users :: Presents(cfg, crypto, node, t, users[u], h) {
      if h in IndexOf(out) {
        var v := Named(cfg, crypto, node, t, users, list, keys, out, h);
      } else if u :| u in users && Presents(cfg, crypto, node, t, users[u], h) {
        Found(cfg, crypto, node, t, users, list, keys, out, u, h);
      }
    }
    forall h | h in IndexOf(out)
      ensures IndexOf(out)[h] in users && Presents(cfg, crypto, node, t, users[IndexOf(out)[h]], h)
      ensures forall u <- users :: Presents(cfg, crypto, node, t, users[u], h) ==> users[u].id <= users[IndexOf(out)[h]].id
    {
      var v := Named(cfg, crypto, node, t, users, list, keys, out, h);
    }
  }

  /** The list the store was asked for and the keys it resolved. */
  lemma Resolved(cfg: Config, crypto: Crypto, node: Node, w: World, users: map<string, UserInfo>, was: Store, now: Store, out: seq<UserKey>)
      returns (list: seq<UserInfo>, keys: seq<string>)
    requires Rebuilds(cfg, crypto, node, w, users, was, now, Some(out)) && "" !in users && Clean(cfg, was, w)
    ensures UserSync.Enumerates(list, users) && AllFit(cfg, crypto, node, now.table, list, keys) && Built(crypto, list, keys, out)
  {
    hide SourceOf, Resolve, Built, UserSync.Enumerates, Build, Fits, At, TrimSpace, CleanStore, CleanWorld;
    list, keys := RebuiltKeys(cfg, crypto, node, w, users, was, now, out);
    if FileBacked(SourceOf(cfg.source)) {
      RebuiltTable(cfg, crypto, node, list, w, was, now, keys);
      forall i | 0 <= i < |list| ensures Fits(cfg, crypto, node, now.table, list[i], keys[i]) {
        StoredFits(cfg, crypto, node, now.table, list[i]);
      }
    } else {
      RebuiltStateless(cfg, crypto, node, list, w, was, now, keys);
      forall i | 0 <= i < |list| ensures Fits(cfg, crypto, node, now.table, list[i], keys[i]) {
        StatelessFits(cfg, crypto, node, now.table, list[i], keys[i]);
      }
    }
  }

  /** A presented hash is indexed. */
  lemma Found(cfg: Config, crypto: Crypto, node: Node, t: Table, users: map<string, UserInfo>, list: seq<UserInfo>, keys: seq<string>,
              out: seq<UserKey>, u: string, h: string)
    requires UserSync.Enumerates(list, users) && AllFit(cfg, crypto, node, t, list, keys) && Built(crypto, list, keys, out)
    requires u in users && Presents(cfg, crypto, node, t, users[u], h)
    ensures h in IndexOf(out)
    ensures exists i: nat :: i < |list| && list[i] == users[u] && keys[i] != "" && UserHash(crypto, keys[i]) == h
  {
    hide Secret, Built, IndexOf, UserHash, Short;
    assert u in UserSync.Uuids(list);
    var i :| 0 <= i < |list| && list[i] == users[u];
    assert Fits(cfg, crypto, node, t, list[i], keys[i]);
    Indexed(crypto, list, keys, out, i);
  }

  /** An indexed hash is presented by the client of the user it names. */
  lemma Named(cfg: Config, crypto: Crypto, node: Node, t: Table, users: map<string, UserInfo>, list: seq<UserInfo>, keys: seq<string>,
              out: seq<UserKey>, h: string) returns (v: string)
    requires UserSync.Enumerates(list, users) && AllFit(cfg, crypto, node, t, list, keys) && Built(crypto, list, keys, out)
    requires h in IndexOf(out)
    ensures v == IndexOf(out)[h] && v in users && Presents(cfg, crypto, node, t, users[v], h)
    ensures forall u <- users :: Presents(cfg, crypto, node, t, users[u], h) ==> users[u].id <= users[v].id
  {
    hide Secret, Built, IndexOf, UserHash, Presents;
    var i := Billed(crypto, list, keys, out, h);
    v := list[i].uuid;
    assert list[i] in list;
    assert Fits(cfg, crypto, node, t, list[i], keys[i]);
    forall u | u in users && Presents(cfg, crypto, node, t, users[u], h) ensures users[u].id <= users[v].id {
      Found(cfg, crypto, node, t, users, list, keys, out, u, h);
    }
  }

  /** So in a rebuild over a split source every user's client is admitted by the hash of its own 64 bytes. */
  lemma SplitClientsAreIndexed(cfg: Config, crypto: Crypto, node: Node, w: World, users: map<string, UserInfo>,
                               was: Store, now: Store, out: seq<UserKey>, u: string)
    requires Rebuilds(cfg, crypto, node, w, users, was, now, Some(out)) && "" !in users && u in users
    requires Lower(TrimSpace(cfg.source)) in {"", "split", "deterministic_split"}
    ensures MasterBytes(node.masterPrivateKey).Some?
    ensures HexEncode(crypto.sha256(SplitBytes(crypto, node, users[u], MasterBytes(node.masterPrivateKey).value))[..8]) in IndexOf(out)
  {
    hide Rebuilds, IndexOf, SplitBytes, HexEncode, MasterBytes, TrimSpace, Lower, Built, SplitKey, UserHash;
    var list, keys := RebuiltKeys(cfg, crypto, node, w, users, was, now, out);
    RebuiltStateless(cfg, crypto, node, list, w, was, now, keys);
    assert u in UserSync.Uuids(list);
    var i :| 0 <= i < |list| && list[i] == users[u];
    assert Resolve(cfg, crypto, map[], node, list[i], KeyError) == Key(keys[i]);
    SplitHash(crypto, node, users[u]);
    Indexed(crypto, list, keys, out, i);
  }
}
