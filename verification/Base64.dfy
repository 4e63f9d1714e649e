/** The standard padded base64 alphabet of section 4 of RFC 4648, with the decoder of Go's
    base64.StdEncoding: line breaks are skipped and unused trailing bits are not checked. */
module Base64 {
  import opened ByteStrings

  const PAD: byte := 61

  type sextet = n: int | 0 <= n < 64

  predicate IsDigit(c: byte) {
    65 <= c <= 90 || 97 <= c <= 122 || 48 <= c <= 57 || c == 43 || c == 47
  }

  function Digit(n: sextet): (c: byte)
    ensures IsDigit(c) && Value(c) == n
  {
    if n < 26 then 65 + n else if n < 52 then 71 + n else if n < 62 then n - 4 else if n == 62 then 43 else 47
  }

  function Value(c: byte): sextet
    requires IsDigit(c)
  {
    if 65 <= c <= 90 then c - 65 else if 97 <= c <= 122 then c - 71
    else if 48 <= c <= 57 then c + 4 else if c == 43 then 62 else 63
  }

  // The four digits of three bytes, and the three bytes of four digits.
  function D0(x: byte): sextet { x / 4 }
  function D1(x: byte, y: byte): sextet { x % 4 * 16 + y / 16 }
  function D2(y: byte, z: byte): sextet { y % 16 * 4 + z / 64 }
  function D3(z: byte): sextet { z % 64 }
  function B0(p: sextet, q: sextet): byte { p * 4 + q / 16 }
  function B1(q: sextet, r: sextet): byte { q % 16 * 16 + r / 4 }
  function B2(r: sextet, t: sextet): byte { r % 4 * 64 + t }

  lemma BytesOfDigits(x: byte, y: byte, z: byte)
    ensures B0(D0(x), D1(x, y)) == x
    ensures B1(D1(x, y), D2(y, z)) == y
    ensures B2(D2(y, z), D3(z)) == z
  {
  }

  function Quantum(x: byte, y: byte, z: byte): (s: Bytes)
    ensures |s| == 4 && forall i | 0 <= i < 4 :: IsDigit(s[i])
  {
    [Digit(D0(x)), Digit(D1(x, y)), Digit(D2(y, z)), Digit(D3(z))]
  }

  function Encode(b: Bytes): Bytes {
    if |b| == 0 then []
    else if |b| == 1 then [Digit(D0(b[0])), Digit(D1(b[0], 0)), PAD, PAD]
    else if |b| == 2 then [Digit(D0(b[0])), Digit(D1(b[0], b[1])), Digit(D2(b[1], 0)), PAD]
    else Quantum(b[0], b[1], b[2]) + Encode(b[3..])
  }

  function EncodedLen(n: nat): nat { (n + 2) / 3 * 4 }

  lemma {:induction false} EncodedLength(b: Bytes)
    ensures |Encode(b)| == EncodedLen(|b|)
  {
    if |b| > 2 {
      EncodedLength(b[3..]);
      assert (|b| - 3 + 2) / 3 + 1 == (|b| + 2) / 3;
    }
  }

  /** Drops the carriage returns and line feeds the decoder skips. */
  function StripBreaks(s: Bytes): (r: Bytes) {
    if s == [] then [] else (if s[0] == 10 || s[0] == 13 then [] else [s[0]]) + StripBreaks(s[1..])
  }

  function DecodeQuanta(s: Bytes): Option<Bytes> {
    if s == [] then Some([])
    else if |s| < 4 || !IsDigit(s[0]) || !IsDigit(s[1]) then None
    else
      var first := B0(Value(s[0]), Value(s[1]));
      if s[2] == PAD then
        if s[3] == PAD && |s| == 4 then Some([first]) else None
      else if !IsDigit(s[2]) then None
      else
        var second := B1(Value(s[1]), Value(s[2]));
        if s[3] == PAD then
          if |s| == 4 then Some([first, second]) else None
        else if !IsDigit(s[3]) then None
        else
          match DecodeQuanta(s[4..])
          case None => None
          case Some(rest) => Some([first, second, B2(Value(s[2]), Value(s[3]))] + rest)
  }

  function Decode(s: Bytes): Option<Bytes> {
    DecodeQuanta(StripBreaks(s))
  }

  /** The source's canonical-spelling test: it decodes, and the bytes encode back to it. */
  predicate Canonical(s: Bytes) {
    Decode(s).Some? && Encode(Decode(s).value) == s
  }

  predicate InAlphabet(s: Bytes) {
    forall i | 0 <= i < |s| :: IsDigit(s[i]) || s[i] == PAD
  }

  lemma {:induction false} NothingToStrip(s: Bytes)
    requires InAlphabet(s)
    ensures StripBreaks(s) == s
  {
    if s != [] {
      NothingToStrip(s[1..]);
      assert s == [s[0]] + s[1..];
    }
  }

  lemma {:induction false} EncodedAlphabet(b: Bytes)
    ensures InAlphabet(Encode(b))
  {
    if |b| > 2 {
      EncodedAlphabet(b[3..]);
      assert InAlphabet(Quantum(b[0], b[1], b[2]) + Encode(b[3..]));
    }
  }

  lemma DecodeOne(p: sextet, q: sextet)
    ensures DecodeQuanta([Digit(p), Digit(q), PAD, PAD]) == Some([B0(p, q)])
  {
  }

  lemma DecodeTwo(p: sextet, q: sextet, r: sextet)
    ensures DecodeQuanta([Digit(p), Digit(q), Digit(r), PAD]) == Some([B0(p, q), B1(q, r)])
  {
    assert Digit(r) != PAD;
  }

  lemma DecodeThree(p: sextet, q: sextet, r: sextet, t: sextet, rest: Bytes)
    requires DecodeQuanta(rest).Some?
    ensures DecodeQuanta([Digit(p), Digit(q), Digit(r), Digit(t)] + rest)
         == Some([B0(p, q), B1(q, r), B2(r, t)] + DecodeQuanta(rest).value)
  {
    var s := [Digit(p), Digit(q), Digit(r), Digit(t)] + rest;
    assert s[4..] == rest;
    assert s[2] == Digit(r) != PAD && s[3] == Digit(t) != PAD;
  }

  lemma {:induction false} QuantaUndoEncode(b: Bytes)
    ensures DecodeQuanta(Encode(b)) == Some(b)
  {
    assert |b| == 1 ==> b == [b[0]]; assert |b| == 2 ==> b == [b[0], b[1]]; assert |b| > 2 ==> b == [b[0], b[1], b[2]] + b[3..];
    if |b| == 1 {
      BytesOfDigits(b[0], 0, 0);
      DecodeOne(D0(b[0]), D1(b[0], 0));
    } else if |b| == 2 {
      BytesOfDigits(b[0], b[1], 0);
      DecodeTwo(D0(b[0]), D1(b[0], b[1]), D2(b[1], 0));
    } else if |b| > 2 {
      QuantaUndoEncode(b[3..]);
      BytesOfDigits(b[0], b[1], b[2]);
      DecodeThree(D0(b[0]), D1(b[0], b[1]), D2(b[1], b[2]), D3(b[2]), Encode(b[3..]));
    }
  }

  /** Decoding undoes encoding on every byte string, so distinct byte strings never share a spelling. */
  lemma DecodeUndoesEncode(b: Bytes)
    ensures Decode(Encode(b)) == Some(b)
    ensures Canonical(Encode(b))
  {
    EncodedAlphabet(b);
    NothingToStrip(Encode(b));
    QuantaUndoEncode(b);
  }

  lemma {:induction false} StripConcat(a: Bytes, b: Bytes)
    ensures StripBreaks(a + b) == StripBreaks(a) + StripBreaks(b)
  {
    if a == [] {
      assert a + b == b;
    } else {
      StripConcat(a[1..], b);
      assert (a + b)[1..] == a[1..] + b && (a + b)[0] == a[0];
    }
  }

  /** A carriage return or a line feed anywhere changes nothing. */
  lemma BreaksAreIgnored(a: Bytes, c: byte, b: Bytes)
    requires c == 10 || c == 13
    ensures Decode(a + [c] + b) == Decode(a + b)
  {
    StripConcat(a, b);
    StripConcat(a + [c], b);
    StripConcat(a, [c]);
    assert StripBreaks([c]) == [] by { assert [c][1..] == []; }
    assert StripBreaks(a) + [] == StripBreaks(a);
  }
}
