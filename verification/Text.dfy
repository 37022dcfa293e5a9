/**
 Byte strings and the few textual codecs the archive formats are built from:
 decimal numbers, lower-case hexadecimal, chunk file names and big-endian integers.

 One `char` stands for one byte. A Rust `String` is the sequence of its UTF-8 bytes,
 so strings and byte vectors share a type here, as they share a representation there.
 */
module Text {

  type Bytes = string

  datatype Option<+T> = None | Some(value: T)

  const U32_LIMIT: nat := 0x1_0000_0000
  const U64_LIMIT: nat := 0x1_0000_0000_0000_0000

  /** The value of a `u32` after an unchecked increment or cast. */
  function U32(n: nat): (r: nat)
    ensures r < U32_LIMIT && (n < U32_LIMIT ==> r == n)
  {
    n % U32_LIMIT
  }

  /** The value of a `u64` after an unchecked increment. */
  function U64(n: nat): (r: nat)
    ensures r < U64_LIMIT && (n < U64_LIMIT ==> r == n)
  {
    n % U64_LIMIT
  }

  lemma U32Step(n: nat)
    ensures U32(U32(n) + 1) == U32(n + 1)
  {
  }

  predicate IsByte(c: char) { c as int < 256 }

  predicate AllBytes(s: Bytes) {
    forall i :: 0 <= i < |s| ==> IsByte(s[i])
  }

  // ── Decimal ────────────────────────────────────────────────────────────────

  predicate IsDigit(c: char) { '0' <= c <= '9' }

  predicate AllDigits(s: Bytes) {
    forall i :: 0 <= i < |s| ==> IsDigit(s[i])
  }

  function Digit(d: nat): char
    requires d < 10
  {
    (48 + d) as char
  }

  /** `format!("{n}")`. */
  function Dec(n: nat): (s: Bytes)
    ensures s != [] && AllDigits(s)
  {
    if n < 10 then [Digit(n)] else Dec(n / 10) + [Digit(n % 10)]
  }

  function DecValue(s: Bytes): nat
    requires AllDigits(s)
  {
    if s == [] then 0 else DecValue(s[..|s| - 1]) * 10 + (s[|s| - 1] as int - 48)
  }

  lemma {:induction false} DecRoundTrip(n: nat)
    ensures DecValue(Dec(n)) == n
  {
    if n >= 10 {
      DecRoundTrip(n / 10);
      assert Dec(n)[..|Dec(n)| - 1] == Dec(n / 10);
    }
  }

  function ParseDec(s: Bytes): Option<nat> {
    if s != [] && AllDigits(s) then Some(DecValue(s)) else None
  }

  // ── Chunk file names ───────────────────────────────────────────────────────

  function Zeros(n: nat): Bytes { seq(n, _ => '0') }

  const BIN: Bytes := ".bin"

  /** `format!("{:05}.bin", index)`. */
  function ChunkName(index: nat): Bytes {
    var d := Dec(index);
    (if |d| < 5 then Zeros(5 - |d|) else "") + d + BIN
  }

  predicate EndsWithBin(name: Bytes) {
    4 <= |name| && name[|name| - 4..] == BIN
  }

  lemma {:induction false} LeadingZeros(n: nat, s: Bytes)
    requires AllDigits(s)
    ensures AllDigits(Zeros(n) + s) && DecValue(Zeros(n) + s) == DecValue(s)
    decreases n + |s|
  {
    if s == [] {
      assert Zeros(n) + s == Zeros(n);
      if n > 0 {
        LeadingZeros(n - 1, []);
        assert Zeros(n)[..n - 1] == Zeros(n - 1) + [];
      }
    } else {
      LeadingZeros(n, s[..|s| - 1]);
      assert (Zeros(n) + s)[..n + |s| - 1] == Zeros(n) + s[..|s| - 1];
    }
  }

  /** Distinct chunks have distinct files, whatever the number of digits. */
  lemma ChunkNameInjective(i: nat, j: nat)
    requires ChunkName(i) == ChunkName(j)
    ensures i == j
  {
    ChunkNameDigits(i);
    ChunkNameDigits(j);
  }

  lemma ChunkNameDigits(i: nat)
    ensures EndsWithBin(ChunkName(i))
    ensures var d := ChunkName(i)[..|ChunkName(i)| - 4]; AllDigits(d) && DecValue(d) == i
  {
    DecRoundTrip(i);
    var d := Dec(i);
    var pad := if |d| < 5 then Zeros(5 - |d|) else "";
    assert pad == Zeros(|pad|);
    LeadingZeros(|pad|, d);
    assert ChunkName(i)[..|ChunkName(i)| - 4] == pad + d;
  }

  // ── Hexadecimal ────────────────────────────────────────────────────────────

  function HexDigit(d: nat): char
    requires d < 16
  {
    if d < 10 then (48 + d) as char else (87 + d) as char
  }

  function HexValue(c: char): Option<nat> {
    if '0' <= c <= '9' then Some(c as int - 48)
    else if 'a' <= c <= 'f' then Some(c as int - 87)
    else if 'A' <= c <= 'F' then Some(c as int - 55)
    else None
  }

  /** `hex::encode`. */
  function Hex(s: Bytes): Bytes {
    if s == [] then "" else [HexDigit(s[0] as int / 16 % 16), HexDigit(s[0] as int % 16)] + Hex(s[1..])
  }

  /** `hex::decode`: both cases accepted, odd length or a foreign digit refused. */
  function HexDecode(t: Bytes): Option<Bytes> {
    if t == [] then Some("")
    else if |t| == 1 then None
    else
      match (HexValue(t[0]), HexValue(t[1]), HexDecode(t[2..]))
      case (Some(h), Some(l), Some(rest)) => Some([(h * 16 + l) as char] + rest)
      case _ => None
  }

  lemma HexByte(c: char)
    requires IsByte(c)
    ensures HexValue(HexDigit(c as int / 16 % 16)) == Some(c as int / 16)
    ensures HexValue(HexDigit(c as int % 16)) == Some(c as int % 16)
  {
  }

  lemma {:induction false} HexRoundTrip(s: Bytes)
    requires AllBytes(s)
    ensures |Hex(s)| == 2 * |s| && HexDecode(Hex(s)) == Some(s)
    ensures forall i :: 0 <= i < |Hex(s)| ==> HexValue(Hex(s)[i]).Some?
  {
    if s != [] {
      hide HexDigit, HexValue;
      HexRoundTrip(s[1..]);
      HexByte(s[0]);
      assert Hex(s)[2..] == Hex(s[1..]);
      assert s == [s[0]] + s[1..];
      forall i | 0 <= i < |Hex(s)| ensures HexValue(Hex(s)[i]).Some? {
        if i >= 2 { assert Hex(s)[i] == Hex(s[1..])[i - 2]; }
      }
    }
  }

  /** A chunk file is named by its number in decimal, padded with zeros to five digits and no further. */
  lemma ChunkNameShape(i: nat)
    ensures var name := ChunkName(i);
            && EndsWithBin(name) && AllDigits(name[..|name| - 4]) && DecValue(name[..|name| - 4]) == i
            && |name| >= 9 && (|name| > 9 ==> name[0] != '0')
  {
    ChunkNameDigits(i);
    DecStart(i);
  }

  lemma {:induction false} DecStart(n: nat)
    ensures Dec(n)[0] == '0' <==> n == 0
  {
    if n >= 10 { DecStart(n / 10); }
  }

  /** `hex::encode` writes lower case. */
  lemma {:induction false} HexLowerCase(s: Bytes, i: nat)
    requires i < |Hex(s)|
    ensures '0' <= Hex(s)[i] <= '9' || 'a' <= Hex(s)[i] <= 'f'
  {
    if i >= 2 { HexLowerCase(s[1..], i - 2); }
  }

  // ── Big-endian integers ────────────────────────────────────────────────────

  /** `to_be_bytes` of an unsigned integer of `width` bytes; higher bytes are cut off. */
  function BigEndian(n: nat, width: nat): Bytes {
    if width == 0 then "" else BigEndian(n / 256, width - 1) + [(n % 256) as char]
  }

  function BigEndianValue(s: Bytes): nat {
    if s == [] then 0 else BigEndianValue(s[..|s| - 1]) * 256 + s[|s| - 1] as int
  }

  function Pow256(width: nat): nat {
    if width == 0 then 1 else 256 * Pow256(width - 1)
  }

  lemma {:induction false} BigEndianRoundTrip(n: nat, width: nat)
    requires n < Pow256(width)
    ensures |BigEndian(n, width)| == width && BigEndianValue(BigEndian(n, width)) == n
  {
    if width > 0 {
      BigEndianRoundTrip(n / 256, width - 1);
      assert BigEndian(n, width)[..width - 1] == BigEndian(n / 256, width - 1);
    }
  }
}
