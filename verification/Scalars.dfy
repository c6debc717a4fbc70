/** Little-endian scalars and the deterministic split key (internal/runtime/key_store.go). */
module Scalars {
  import opened Panel
  import opened Text

  // ---- math/big ----

  /** big.Int.SetBytes: big-endian bytes as a number. */
  function SetBytes(bs: seq<Byte>): nat {
    if bs == [] then 0 else SetBytes(bs[..|bs| - 1]) * 256 + bs[|bs| - 1]
  }

  /** big.Int.Bytes: the number as big-endian bytes without leading zeros. */
  function BigEndian(v: nat): seq<Byte> {
    if v == 0 then [] else BigEndian(v / 256) + [v % 256]
  }

  // ---- the specification ----

  function LittleEndian(bs: seq<Byte>): nat {
    if bs == [] then 0 else bs[0] + 256 * LittleEndian(bs[1..])
  }

  function LittleEndianBytes(v: nat, n: nat): (r: seq<Byte>)
    ensures |r| == n
  {
    if n == 0 then [] else [v % 256] + LittleEndianBytes(v / 256, n - 1)
  }

  /** The first byte weighs one, every further one 256 times the byte before it. */
  lemma {:induction false} LittleEndianWeights(bs: seq<Byte>, b: Byte)
    ensures LittleEndian(bs + [b]) == LittleEndian(bs) + b * Pow256(|bs|)
  {
    if bs == [] {
      assert [b][1..] == [];
    } else {
      LittleEndianWeights(bs[1..], b);
      assert (bs + [b])[1..] == bs[1..] + [b];
      Scaled(b, Pow256(|bs| - 1));
    }
  }

  lemma Scaled(b: int, p: int)
    ensures 256 * (b * p) == b * (256 * p)
  {
  }

  function Pow256(n: nat): (r: nat)
    ensures r > 0
  {
    if n == 0 then 1 else 256 * Pow256(n - 1)
  }

  function Reversed(bs: seq<Byte>): (r: seq<Byte>)
    ensures |r| == |bs| && forall i | 0 <= i < |bs| :: r[|bs| - 1 - i] == bs[i]
  {
    if bs == [] then [] else Reversed(bs[1..]) + [bs[0]]
  }

  lemma {:induction false} SetBytesReversed(bs: seq<Byte>)
    ensures SetBytes(Reversed(bs)) == LittleEndian(bs)
  {
    if bs != [] {
      SetBytesReversed(bs[1..]);
      assert Reversed(bs)[..|bs| - 1] == Reversed(bs[1..]);
    }
  }

  lemma {:induction false} BigEndianDigit(v: nat, n: nat, i: nat)
    requires i < n
    ensures LittleEndianBytes(v, n)[i] == if i < |BigEndian(v)| then BigEndian(v)[|BigEndian(v)| - 1 - i] else 0
  {
    if i > 0 {
      BigEndianDigit(v / 256, n - 1, i - 1);
    }
  }

  // ---- the two loops ----

  method LittleEndianScalar(input: seq<Byte>) returns (v: nat)
    ensures v == LittleEndian(input)
  {
    var buf := new int[|input|](_ => 0);
    for i := 0 to |input|
      invariant forall k | 0 <= k < i :: buf[|input| - 1 - k] == input[k]
    {
      buf[|input| - 1 - i] := input[i];
    }
    forall k | 0 <= k < |input| ensures buf[k] == Reversed(input)[k] {
      assert buf[|input| - 1 - (|input| - 1 - k)] == input[|input| - 1 - k];
    }
    assert buf[..] == Reversed(input);
    SetBytesReversed(input);
    v := SetBytes(Reversed(input));
  }

  method ScalarLittleEndian(v: nat) returns (out: seq<Byte>)
    ensures out == LittleEndianBytes(v, 32)
  {
    var bigEndian := BigEndian(v);
    var buf := new int[32](_ => 0);
    var i := 0;
    while i < |bigEndian| && i < 32
      invariant 0 <= i <= 32 && i <= |bigEndian|
      invariant forall k | 0 <= k < 32 :: buf[k] == if k < i then bigEndian[|bigEndian| - 1 - k] else 0
    {
      buf[i] := bigEndian[|bigEndian| - 1 - i];
      i := i + 1;
    }
    forall k | 0 <= k < 32 ensures buf[k] == LittleEndianBytes(v, 32)[k] { BigEndianDigit(v, 32, k); }
    out := buf[..];
  }

  // ---- the codec ----

  /** Writing a number and reading it back keeps it modulo 256^n. */
  lemma {:induction false} CodecTruncates(v: nat, n: nat)
    ensures LittleEndian(LittleEndianBytes(v, n)) == v % Pow256(n)
  {
    if n > 0 {
      CodecTruncates(v / 256, n - 1);
      ModStep(v, Pow256(n - 1));
    }
  }

  lemma ModStep(v: nat, p: nat)
    requires p > 0
    ensures v % (256 * p) == v % 256 + 256 * ((v / 256) % p)
  {
    var q, r := (v / 256) / p, (v / 256) % p;
    assert v / 256 == q * p + r;
    assert v == 256 * (q * p + r) + v % 256;
    assert v == q * (256 * p) + (256 * r + v % 256);
    Divides(v, 256 * p, q, 256 * r + v % 256);
  }

  lemma Divides(v: nat, d: nat, q: nat, r: nat)
    requires d > 0 && v == q * d + r && r < d
    ensures v % d == r
  {
    var p := v / d;
    assert v == p * d + v % d;
    Multiples(p + 1, q, d);
    Multiples(q + 1, p, d);
  }

  lemma Multiples(a: nat, b: nat, d: nat)
    ensures a <= b ==> a * d <= b * d
  {
    if a <= b { assert b * d == a * d + (b - a) * d; }
  }

  /** Reading bytes and writing the number back keeps every byte, trailing zeros included. */
  lemma {:induction false} CodecRoundTrip(bs: seq<Byte>)
    ensures LittleEndianBytes(LittleEndian(bs), |bs|) == bs
  {
    if bs != [] {
      CodecRoundTrip(bs[1..]);
      var v := LittleEndian(bs);
      assert v % 256 == bs[0] && v / 256 == LittleEndian(bs[1..]);
    }
  }

  // ---- the group order ----

  /** The order of the Ed25519 group, section 5.1 of RFC 8032. */
  const ORDER: nat := 0x1000000000000000000000000000000014def9dea2f79cd65812631a5cf5d3ed

  lemma OrderIsRfc8032()
    ensures ORDER == 0x1000_0000_0000_0000_0000_0000_0000_0000_0000_0000_0000_0000_0000_0000_0000_0000
                     + 27742317777372353535851937790883648493
  {
  }

  lemma EightBytes()
    ensures Pow256(8) == 0x1_0000_0000_0000_0000
  {
    assert Pow256(1) == 0x100;
    hide Pow256;
    PowerAdds(1, 1);
    PowerAdds(2, 2);
    PowerAdds(4, 4);
  }

  lemma OrderFits()
    ensures ORDER < Pow256(32)
  {
    hide Pow256;
    EightBytes();
    PowerAdds(8, 8);
    PowerAdds(16, 16);
  }

  lemma {:induction false} PowerAdds(m: nat, n: nat)
    ensures Pow256(m + n) == Pow256(m) * Pow256(n)
  {
    if m > 0 { PowerAdds(m - 1, n); }
  }

  /** A scalar below the order survives the 32-byte codec. */
  lemma ScalarFits(r: nat)
    requires r < ORDER
    ensures LittleEndian(LittleEndianBytes(r, 32)) == r
  {
    CodecTruncates(r, 32);
    OrderFits();
    Divides(r, Pow256(32), 0, r);
  }

  // ---- seeds ----

  /** Two numbers and a text under fixed labels, separated by bars. */
  function Labelled(p: string, n: int, q: string, u: int, t: string, x: string): string {
    p + (Itoa(n) + "|" + (q + (Itoa(u) + "|" + (t + x))))
  }

  function SplitSeed(nodeId: int, userId: int, uuid: string, master: string): string {
    Labelled("v2sudoku|node:", nodeId, "uid:", userId, "uuid:", uuid + ("|master:" + master))
  }

  function UserSeed(seed: string, nodeId: int, userId: int, uuid: string): string {
    Labelled((if seed == "" then "v2sudoku" else seed) + "|node:", nodeId, "uid:", userId, "uuid:", uuid)
  }

  /** The text that is hashed for a split key. */
  lemma SplitSeedText(nodeId: int, userId: int, uuid: string, master: string)
    ensures SplitSeed(nodeId, userId, uuid, master) ==
            "v2sudoku|node:" + Itoa(nodeId) + "|uid:" + Itoa(userId) + "|uuid:" + uuid + "|master:" + master
  {
    hide Itoa;
  }

  /** The text that is hashed for a deterministic key; an empty configured seed is the program's name. */
  lemma UserSeedText(seed: string, nodeId: int, userId: int, uuid: string)
    ensures UserSeed(seed, nodeId, userId, uuid) ==
            (if seed == "" then "v2sudoku" else seed) + "|node:" + Itoa(nodeId) + "|uid:" + Itoa(userId) + "|uuid:" + uuid
  {
    hide Itoa;
  }

  /** What precedes the first separator is determined. */
  lemma {:induction false} HeadsEqual(a: string, x: string, b: string, y: string, sep: char)
    requires sep !in a && sep !in b && a + [sep] + x == b + [sep] + y
    ensures a == b && x == y
  {
    assert (a + [sep] + x)[0] == if a == "" then sep else a[0];
    assert (b + [sep] + y)[0] == if b == "" then sep else b[0];
    assert (a == "") == (b == "");
    if a == "" {
      assert a + [sep] + x == [sep] + x && b + [sep] + y == [sep] + y;
      PrefixCancels([sep], x, y);
    } else {
      assert (a + [sep] + x)[1..] == a[1..] + [sep] + x;
      assert (b + [sep] + y)[1..] == b[1..] + [sep] + y;
      HeadsEqual(a[1..], x, b[1..], y, sep);
    }
  }

  lemma NumberedTail(n: int, x: string, m: int, y: string)
    requires Itoa(n) + "|" + x == Itoa(m) + "|" + y
    ensures n == m && x == y
  {
    ItoaHasNo(n, '|');
    ItoaHasNo(m, '|');
    HeadsEqual(Itoa(n), x, Itoa(m), y, '|');
    ItoaInjective(n, m);
  }

  lemma PrefixCancels(p: string, x: string, y: string)
    requires p + x == p + y
    ensures x == y
  {
    assert x == (p + x)[|p|..] && y == (p + y)[|p|..];
  }

  lemma LabelledInjective(p: string, n: int, q: string, u: int, t: string, x: string, m: int, w: int, y: string)
    requires Labelled(p, n, q, u, t, x) == Labelled(p, m, q, w, t, y)
    ensures n == m && u == w && x == y
  {
    var a, b := Itoa(u) + "|" + (t + x), Itoa(w) + "|" + (t + y);
    PrefixCancels(p, Itoa(n) + "|" + (q + a), Itoa(m) + "|" + (q + b));
    NumberedTail(n, q + a, m, q + b);
    PrefixCancels(q, a, b);
    NumberedTail(u, t + x, w, t + y);
    PrefixCancels(t, x, y);
  }

  lemma SuffixCancels(x: string, k: string, y: string, l: string)
    requires |k| == |l| && x + k == y + l
    ensures x == y && k == l
  {
    assert x == (x + k)[..|x|] && y == (y + l)[..|y|];
    PrefixCancels(x, k, l);
  }

  /** The split seed determines its four fields, whatever separators the uuids contain. */
  lemma SplitSeedInjective(n: int, u: int, x: string, k: string, m: int, w: int, y: string, l: string)
    requires |k| == 64 && |l| == 64
    requires SplitSeed(n, u, x, k) == SplitSeed(m, w, y, l)
    ensures n == m && u == w && x == y && k == l
  {
    LabelledInjective("v2sudoku|node:", n, "uid:", u, "uuid:", x + ("|master:" + k), m, w, y + ("|master:" + l));
    SuffixCancels(x, "|master:" + k, y, "|master:" + l);
    PrefixCancels("|master:", k, l);
  }

  /** So does the deterministic seed, for a fixed configured seed. */
  lemma UserSeedInjective(seed: string, n: int, u: int, x: string, m: int, w: int, y: string)
    requires UserSeed(seed, n, u, x) == UserSeed(seed, m, w, y)
    ensures n == m && u == w && x == y
  {
    LabelledInjective((if seed == "" then "v2sudoku" else seed) + "|node:", n, "uid:", u, "uuid:", x, m, w, y);
  }

  // ---- the split key ----

  datatype KeyResult = Key(value: string) | KeyError

  /** The master key the configuration carries, if it is 32 bytes of hexadecimal. */
  function MasterBytes(masterHex: string): Option<seq<Byte>> {
    var m := HexDecode(TrimSpace(masterHex));
    if m.None? || |m.value| != 32 then None else m
  }

  /** deterministicSplitKey; `sha512` stands for the hash of the seed's bytes. */
  method DeterministicSplitKey(masterHex: string, nodeId: int, userId: int, uuid: string, sha512: string -> seq<Byte>)
      returns (result: KeyResult)
    ensures result == SplitKey(masterHex, nodeId, userId, uuid, sha512)
  {
    hide LittleEndian, LittleEndianBytes, HexEncode, Labelled, TrimSpace;
    var trimmed := TrimSpace(masterHex);
    if trimmed == "" { return KeyError; }
    var decoded := HexDecode(trimmed);
    if decoded.None? { return KeyError; }
    if |decoded.value| != 32 { return KeyError; }
    var master := LittleEndianScalar(decoded.value);
    var r := LittleEndianScalar(sha512(SplitSeed(nodeId, userId, uuid, trimmed)));
    r := r % ORDER;
    var k := (master - r) % ORDER;
    var first := ScalarLittleEndian(r);
    var second := ScalarLittleEndian(k);
    result := Key(HexEncode(first + second));
  }

  function SplitKey(masterHex: string, nodeId: int, userId: int, uuid: string, sha512: string -> seq<Byte>): KeyResult {
    var m := MasterBytes(masterHex);
    if m.None? then KeyError
    else
      var r := LittleEndian(sha512(SplitSeed(nodeId, userId, uuid, TrimSpace(masterHex)))) % ORDER;
      var k := (LittleEndian(m.value) - r) % ORDER;
      Key(HexEncode(LittleEndianBytes(r, 32) + LittleEndianBytes(k, 32)))
  }

  lemma SplitSums(m: nat, r: nat)
    requires r < ORDER
    ensures (r + (m - r) % ORDER) % ORDER == m % ORDER
  {
    var k := (m - r) % ORDER;
    var q := (m - r) / ORDER;
    assert m == q * ORDER + (r + k);
  }

  /**
    Every 32-byte master splits, reduced or not: the key is 128 hexadecimal digits that decode to two
    scalars below the order whose sum is the master modulo the order. Anything else is an error.
  */
  lemma SplitKeyCorrect(masterHex: string, nodeId: int, userId: int, uuid: string, sha512: string -> seq<Byte>)
    ensures SplitKey(masterHex, nodeId, userId, uuid, sha512).KeyError? <==> MasterBytes(masterHex).None?
    ensures MasterBytes(masterHex).Some? ==>
      var key := SplitKey(masterHex, nodeId, userId, uuid, sha512).value;
      && |key| == 128 && HexDecode(key).Some?
      && var bs := HexDecode(key).value;
      && |bs| == 64
      && var r, k := LittleEndian(bs[..32]), LittleEndian(bs[32..]);
      && r < ORDER && k < ORDER
      && (r + k) % ORDER == LittleEndian(MasterBytes(masterHex).value) % ORDER
      && r == LittleEndian(sha512("v2sudoku|node:" + Itoa(nodeId) + "|uid:" + Itoa(userId) + "|uuid:" + uuid + "|master:" + TrimSpace(masterHex))) % ORDER
  {
    SplitSeedText(nodeId, userId, uuid, TrimSpace(masterHex));
    hide LittleEndian, LittleEndianBytes, HexEncode, HexDecode, SplitSeed, TrimSpace, MasterBytes;
    if MasterBytes(masterHex).Some? {
      var m := LittleEndian(MasterBytes(masterHex).value);
      var r := LittleEndian(sha512(SplitSeed(nodeId, userId, uuid, TrimSpace(masterHex)))) % ORDER;
      var k := (m - r) % ORDER;
      KeyHalves(r, k);
      SplitSums(m, r);
    }
  }

  lemma KeyHalves(r: nat, k: nat)
    requires r < ORDER && k < ORDER
    ensures var key := HexEncode(LittleEndianBytes(r, 32) + LittleEndianBytes(k, 32));
      && |key| == 128 && HexDecode(key).Some? && |HexDecode(key).value| == 64
      && LittleEndian(HexDecode(key).value[..32]) == r && LittleEndian(HexDecode(key).value[32..]) == k
  {
    var a, b := LittleEndianBytes(r, 32), LittleEndianBytes(k, 32);
    HexRoundTrip(a + b);
    assert (a + b)[..32] == a && (a + b)[32..] == b;
    ScalarFits(r);
    ScalarFits(k);
  }
}
