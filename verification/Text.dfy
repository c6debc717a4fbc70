/** The string conversions the node relies on: strconv, strings.TrimSpace and encoding/hex. */
module Text {
  import opened Panel

  // ---- decimal ----

  function Digit(d: nat): char
    requires d < 10
  {
    '0' + d as char
  }

  predicate IsDigit(c: char) { '0' <= c <= '9' }

  function Digits(n: nat): (r: string)
    ensures r != "" && forall c <- r :: IsDigit(c)
  {
    if n < 10 then [Digit(n)] else Digits(n / 10) + [Digit(n % 10)]
  }

  function Number(s: string): nat
    requires forall c <- s :: IsDigit(c)
  {
    if s == "" then 0 else
      assert IsDigit(s[|s| - 1]);
      Number(s[..|s| - 1]) * 10 + (s[|s| - 1] as int - '0' as int)
  }

  /** strconv.Itoa, and the %d verb. */
  function Itoa(n: int): string {
    if n < 0 then "-" + Digits(-n) else Digits(n)
  }

  function Unsigned(s: string): string { if s != "" && (s[0] == '-' || s[0] == '+') then s[1..] else s }

  predicate Numeral(s: string) { Unsigned(s) != "" && forall c <- Unsigned(s) :: IsDigit(c) }

  function Signed(s: string): int
    requires Numeral(s)
  {
    var n: int := Number(Unsigned(s));
    if s[0] == '-' then -n else n
  }

  /** strconv.Atoi with its error ignored: 0 on a syntax error, the nearest bound when out of range. */
  function Atoi(s: string): int {
    if !Numeral(s) then 0
    else if Signed(s) > MAX_INT64 then MAX_INT64
    else if Signed(s) < MIN_INT64 then MIN_INT64
    else Signed(s)
  }

  /** strconv.ParseInt succeeds. */
  predicate Parses(s: string) { Numeral(s) && MIN_INT64 <= Signed(s) <= MAX_INT64 }

  lemma {:induction false} NumberOfDigits(n: nat)
    ensures Number(Digits(n)) == n
  {
    if n >= 10 {
      NumberOfDigits(n / 10);
      assert Digits(n)[..|Digits(n)| - 1] == Digits(n / 10);
    } else {
      assert [Digit(n)][..0] == "";
    }
  }

  lemma AtoiOfItoa(n: int)
    requires MIN_INT64 <= n <= MAX_INT64
    ensures Parses(Itoa(n)) && Atoi(Itoa(n)) == n
  {
    var d := Digits(if n < 0 then -n else n);
    NumberOfDigits(if n < 0 then -n else n);
    assert IsDigit(d[0]);
    assert ("-" + d)[1..] == d;
    assert Unsigned(Itoa(n)) == d;
  }

  lemma ItoaInjective(m: int, n: int)
    requires Itoa(m) == Itoa(n)
    ensures m == n
  {
    var a, b := Digits(if m < 0 then -m else m), Digits(if n < 0 then -n else n);
    NumberOfDigits(if m < 0 then -m else m);
    NumberOfDigits(if n < 0 then -n else n);
    assert IsDigit(a[0]) && IsDigit(b[0]);
    assert ("-" + a)[1..] == a && ("-" + b)[1..] == b;
  }

  lemma ItoaHasNo(n: int, c: char)
    requires c != '-' && !IsDigit(c)
    ensures c !in Itoa(n)
  {
  }

  // ---- white space ----

  /** unicode.IsSpace */
  predicate IsSpace(c: char) {
    || '\t' <= c <= '\r' || c == ' ' || c == '\U{0085}' || c == '\U{00A0}' || c == '\U{1680}'
    || '\U{2000}' <= c <= '\U{200A}' || c == '\U{2028}' || c == '\U{2029}' || c == '\U{202F}'
    || c == '\U{205F}' || c == '\U{3000}'
  }

  function TrimLeft(s: string): (r: string)
    ensures r == "" || !IsSpace(r[0])
  {
    if s != "" && IsSpace(s[0]) then TrimLeft(s[1..]) else s
  }

  function TrimRight(s: string): string {
    if s != "" && IsSpace(s[|s| - 1]) then TrimRight(s[..|s| - 1]) else s
  }

  predicate Trimmed(s: string) {
    s == "" || (!IsSpace(s[0]) && !IsSpace(s[|s| - 1]))
  }

  /** strings.TrimSpace */
  function TrimSpace(s: string): (r: string)
    ensures Trimmed(r)
    ensures Trimmed(s) ==> r == s
  {
    var l := TrimLeft(s);
    TrimRightKeepsHead(l);
    TrimRight(l)
  }

  lemma {:induction s} TrimRightKeepsHead(s: string)
    ensures var r := TrimRight(s); r == "" || (r[0] == s[0] && !IsSpace(r[|r| - 1]))
  {
  }

  // ---- hexadecimal ----

  type Byte = x: int | 0 <= x < 256

  function HexChar(d: int): char
    requires 0 <= d < 16
  {
    if d < 10 then '0' + d as char else 'a' + (d - 10) as char
  }

  function HexPair(b: Byte): (r: string)
    ensures |r| == 2
  {
    [HexChar(b / 16), HexChar(b % 16)]
  }

  function HexEncode(bs: seq<Byte>): (r: string)
    ensures |r| == 2 * |bs|
  {
    if bs == [] then "" else HexEncode(bs[..|bs| - 1]) + HexPair(bs[|bs| - 1])
  }

  /** The value of one hexadecimal digit in either case. */
  function HexDigit(c: char): Option<int> {
    if '0' <= c <= '9' then Some((c - '0') as int)
    else if 'a' <= c <= 'f' then Some((c - 'a') as int + 10)
    else if 'A' <= c <= 'F' then Some((c - 'A') as int + 10)
    else None
  }

  function HexByte(hi: char, lo: char): (r: Option<Byte>)
    ensures r.Some? <==> HexDigit(hi).Some? && HexDigit(lo).Some?
  {
    if HexDigit(hi).Some? && HexDigit(lo).Some? then Some(HexDigit(hi).value * 16 + HexDigit(lo).value) else None
  }

  /** hex.DecodeString: nothing unless the string is an even number of hexadecimal digits. */
  function HexDecode(s: string): (r: Option<seq<Byte>>)
    ensures r.Some? ==> |s| == 2 * |r.value|
  {
    if s == "" then Some([])
    else if |s| == 1 then None
    else
      var init := HexDecode(s[..|s| - 2]);
      var last := HexByte(s[|s| - 2], s[|s| - 1]);
      if init.None? || last.None? then None else Some(init.value + [last.value])
  }

  lemma HexDigitInverse(d: int)
    requires 0 <= d < 16
    ensures HexDigit(HexChar(d)) == Some(d)
  {
  }

  lemma HexByteInverse(b: Byte)
    ensures HexByte(HexChar(b / 16), HexChar(b % 16)) == Some(b)
  {
    HexDigitInverse(b / 16);
    HexDigitInverse(b % 16);
  }

  lemma HexDecodePair(s: string, b: Byte)
    requires HexDecode(s).Some?
    ensures HexDecode(s + HexPair(b)) == Some(HexDecode(s).value + [b])
  {
    var t := s + HexPair(b);
    assert t[..|t| - 2] == s && t[|t| - 2] == HexPair(b)[0] && t[|t| - 1] == HexPair(b)[1];
    HexByteInverse(b);
  }

  lemma HexOfNothing()
    ensures HexDecode(HexEncode([])) == Some([])
  {
  }

  lemma {:induction false} HexRoundTrip(bs: seq<Byte>)
    ensures HexDecode(HexEncode(bs)) == Some(bs)
  {
    hide HexPair, HexByte, HexDecode;
    if bs == [] {
      HexOfNothing();
    } else {
      var init, b := bs[..|bs| - 1], bs[|bs| - 1];
      HexRoundTrip(init);
      HexDecodePair(HexEncode(init), b);
      assert init + [b] == bs;
    }
  }

  /** Decimal digits most significant first, hexadecimal ones in lower case. */
  lemma Spelled()
    ensures Itoa(-1203) == "-1203" && HexEncode([0x0f, 0xa3]) == "0fa3"
  {
    assert Digits(1) == "1" && Digits(12) == "12" && Digits(120) == "120";
    assert [0x0f, 0xa3][..1] == [0x0f] && [0x0f][..0] == [] && HexEncode([0x0f]) == "0f";
  }
}
