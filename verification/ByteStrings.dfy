/** Byte strings with the byte-wise order that Go's strings.Compare and SQLite's BINARY
    collation use, the encodings the order keys are built from, and a few definitions shared by all modules. */
module ByteStrings {

  type byte = b: int | 0 <= b < 256
  type Bytes = seq<byte>

  datatype Option<+T> = None | Some(value: T)

  function Pow2(n: nat): (p: nat)
    ensures p > 0
  {
    if n == 0 then 1 else 2 * Pow2(n - 1)
  }

  function Reversed<T>(s: seq<T>): (r: seq<T>)
    ensures |r| == |s| && forall i | 0 <= i < |s| :: r[i] == s[|s| - 1 - i]
  {
    seq(|s|, i requires 0 <= i < |s| => s[|s| - 1 - i])
  }

  /** Byte-wise lexicographic order; a proper prefix is smaller. */
  predicate Less(a: Bytes, b: Bytes) {
    b != [] && (a == [] || a[0] < b[0] || (a[0] == b[0] && Less(a[1..], b[1..])))
  }

  lemma {:induction false} LessIrreflexive(a: Bytes)
    ensures !Less(a, a)
  {
    if a != [] { LessIrreflexive(a[1..]); }
  }

  lemma {:induction false} LessTotal(a: Bytes, b: Bytes)
    ensures Less(a, b) || a == b || Less(b, a)
  {
    if a != [] && b != [] && a[0] == b[0] {
      LessTotal(a[1..], b[1..]);
      assert a == [a[0]] + a[1..] && b == [b[0]] + b[1..];
    }
  }

  lemma {:induction false} LessTransitive(a: Bytes, b: Bytes, c: Bytes)
    requires Less(a, b) && Less(b, c)
    ensures Less(a, c)
  {
    if a != [] && a[0] == b[0] == c[0] { LessTransitive(a[1..], b[1..], c[1..]); }
  }

  lemma LessAsymmetric(a: Bytes, b: Bytes)
    requires Less(a, b)
    ensures !Less(b, a) && a != b
  {
    if Less(b, a) { LessTransitive(a, b, a); }
    LessIrreflexive(a);
  }

  /** A common prefix does not affect the order. */
  lemma {:induction false} LessCommonPrefix(p: Bytes, a: Bytes, b: Bytes)
    ensures Less(p + a, p + b) <==> Less(a, b)
    decreases |p|
  {
    if p == [] {
      assert p + a == a && p + b == b;
    } else {
      LessCommonPrefix(p[1..], a, b);
      assert (p + a)[1..] == p[1..] + a && (p + b)[1..] == p[1..] + b;
    }
  }

  /** Appending one byte to strings of equal length orders by the strings first. */
  lemma {:induction false} LessAppend(a: Bytes, x: byte, b: Bytes, y: byte)
    requires |a| == |b|
    ensures Less(a + [x], b + [y]) <==> Less(a, b) || (a == b && x < y)
    decreases |a|
  {
    if a != [] {
      LessAppend(a[1..], x, b[1..], y);
      assert (a + [x])[1..] == a[1..] + [x] && (b + [y])[1..] == b[1..] + [y];
      assert a == [a[0]] + a[1..] && b == [b[0]] + b[1..];
    }
  }

  // ----- hexadecimal

  /** Lower-case hexadecimal digit, as hex.EncodeToString writes it. */
  function HexDigit(n: int): (d: byte)
    requires 0 <= n < 16
    ensures 48 <= d <= 57 || 97 <= d <= 102  // 0-9, a-f
  {
    if n < 10 then 48 + n else 87 + n
  }

  function HexByte(b: byte): (h: Bytes) {
    [HexDigit(b / 16), HexDigit(b % 16)]
  }

  function Hex(a: Bytes): (h: Bytes) {
    if a == [] then [] else HexByte(a[0]) + Hex(a[1..])
  }

  /** Hexadecimal text keeps both the order and the identity of the bytes it spells. */
  lemma {:induction false} HexKeepsOrder(a: Bytes, b: Bytes)
    ensures Less(Hex(a), Hex(b)) <==> Less(a, b)
    ensures Hex(a) == Hex(b) <==> a == b
  {
    if a != [] && b != [] {
      HexKeepsOrder(a[1..], b[1..]);
      assert a == [a[0]] + a[1..] && b == [b[0]] + b[1..];
      assert a[0] == 16 * (a[0] / 16) + a[0] % 16;
      assert b[0] == 16 * (b[0] / 16) + b[0] % 16;
    }
  }

  lemma {:induction false} HexConcat(a: Bytes, b: Bytes)
    ensures Hex(a + b) == Hex(a) + Hex(b)
  {
    if a == [] {
      assert a + b == b;
    } else {
      var head := HexByte(a[0]);
      HexConcat(a[1..], b);
      assert (a + b)[1..] == a[1..] + b;
      assert Hex(a + b) == head + Hex(a[1..] + b);
      assert head + (Hex(a[1..]) + Hex(b)) == (head + Hex(a[1..])) + Hex(b);
    }
  }

  // ----- fixed-width integers

  /** The n-byte big-endian spelling of u modulo 256^n. */
  function BigEndian(n: nat, u: nat): (b: Bytes)
    ensures |b| == n
  {
    if n == 0 then [] else BigEndian(n - 1, u / 256) + [u % 256]
  }

  function Pow256(n: nat): (p: nat)
    ensures p > 0
  {
    if n == 0 then 1 else 256 * Pow256(n - 1)
  }

  /** Big-endian bytes of equal width order as the integers they spell. */
  lemma {:induction false} BigEndianKeepsOrder(n: nat, u: nat, v: nat)
    requires u < Pow256(n) && v < Pow256(n)
    ensures Less(BigEndian(n, u), BigEndian(n, v)) <==> u < v
    ensures BigEndian(n, u) == BigEndian(n, v) <==> u == v
  {
    if n > 0 {
      var hu, hv := BigEndian(n - 1, u / 256), BigEndian(n - 1, v / 256);
      BigEndianKeepsOrder(n - 1, u / 256, v / 256);
      LessAppend(hu, u % 256, hv, v % 256);
      assert (hu + [u % 256])[..n - 1] == hu && (hv + [v % 256])[..n - 1] == hv;
      assert (hu + [u % 256])[n - 1] == u % 256 && (hv + [v % 256])[n - 1] == v % 256;
    }
  }

  /** The unsigned integer that little-endian bytes spell. */
  function LittleEndian(b: Bytes): (u: nat)
    ensures u < Pow256(|b|)
  {
    if b == [] then 0 else
      var rest := LittleEndian(b[1..]);
      b[0] + 256 * rest
  }

  /** The n-byte little-endian spelling of u modulo 256^n. */
  function ToLittleEndian(n: nat, u: nat): (b: Bytes)
    ensures |b| == n
  {
    if n == 0 then [] else [u % 256] + ToLittleEndian(n - 1, u / 256)
  }

  lemma {:induction false} LittleEndianOfTo(n: nat, u: nat)
    requires u < Pow256(n)
    ensures LittleEndian(ToLittleEndian(n, u)) == u
  {
    if n > 0 {
      LittleEndianOfTo(n - 1, u / 256);
      assert ToLittleEndian(n, u)[1..] == ToLittleEndian(n - 1, u / 256);
    }
  }

  lemma {:induction false} ToLittleEndianOf(b: Bytes)
    ensures ToLittleEndian(|b|, LittleEndian(b)) == b
  {
    if b != [] {
      ToLittleEndianOf(b[1..]);
      assert LittleEndian(b) % 256 == b[0] && LittleEndian(b) / 256 == LittleEndian(b[1..]);
      assert b == [b[0]] + b[1..];
    }
  }

  lemma Pow256Of8()
    ensures Pow256(8) == 0x1_0000_0000_0000_0000
  {
    assert Pow256(1) == 256;
    assert Pow256(2) == 0x1_0000;
    assert Pow256(3) == 0x100_0000;
    assert Pow256(4) == 0x1_0000_0000;
    assert Pow256(5) == 0x100_0000_0000;
    assert Pow256(6) == 0x1_0000_0000_0000;
    assert Pow256(7) == 0x100_0000_0000_0000;
  }
}
