/** The base64 encoding of section 4 of RFC 4648, and 4-byte little-endian lengths. */
module Base64 {
  import opened Wrappers

  type Byte = b: int | 0 <= b < 256
  type Bytes = seq<Byte>
  type Sextet = q: int | 0 <= q < 64

  function CharOf(q: Sextet): char {
    if q < 26 then 'A' + q as char
    else if q < 52 then 'a' + (q - 26) as char
    else if q < 62 then '0' + (q - 52) as char
    else if q == 62 then '+'
    else '/'
  }

  function SextetOf(c: char): Option<Sextet> {
    if 'A' <= c <= 'Z' then Some((c - 'A') as int)
    else if 'a' <= c <= 'z' then Some((c - 'a') as int + 26)
    else if '0' <= c <= '9' then Some((c - '0') as int + 52)
    else if c == '+' then Some(62)
    else if c == '/' then Some(63)
    else None
  }

  function Encode(b: Bytes): string {
    if b == [] then ""
    else if |b| == 1 then [CharOf(b[0] / 4), CharOf(b[0] % 4 * 16), '=', '=']
    else if |b| == 2 then [CharOf(b[0] / 4), CharOf(b[0] % 4 * 16 + b[1] / 16), CharOf(b[1] % 16 * 4), '=']
    else
      [CharOf(b[0] / 4), CharOf(b[0] % 4 * 16 + b[1] / 16), CharOf(b[1] % 16 * 4 + b[2] / 64), CharOf(b[2] % 64)]
      + Encode(b[3..])
  }

  /** Strict decoding: whole groups of four, padding only in the last one. */
  function Decode(s: string): Option<Bytes> {
    if s == "" then Some([])
    else if |s| < 4 then None
    else
      var q0, q1, q2, q3 := SextetOf(s[0]), SextetOf(s[1]), SextetOf(s[2]), SextetOf(s[3]);
      if q0.None? || q1.None? then None
      else if |s| == 4 && s[2] == '=' && s[3] == '=' then Some([First(q0.value, q1.value)])
      else if q2.None? then None
      else if |s| == 4 && s[3] == '=' then Some([First(q0.value, q1.value), Second(q1.value, q2.value)])
      else if q3.None? then None
      else
        var rest := Decode(s[4..]);
        if rest.None? then None
        else Some([First(q0.value, q1.value), Second(q1.value, q2.value), Third(q2.value, q3.value)] + rest.value)
  }

  function First(q0: Sextet, q1: Sextet): Byte { q0 * 4 + q1 / 16 }

  function Second(q1: Sextet, q2: Sextet): Byte { q1 % 16 * 16 + q2 / 4 }

  function Third(q2: Sextet, q3: Sextet): Byte { q2 % 4 * 64 + q3 }

  lemma SextetOfChar(q: Sextet)
    ensures SextetOf(CharOf(q)) == Some(q) && CharOf(q) != '='
  {}

  lemma GroupRoundTrip(b0: Byte, b1: Byte, b2: Byte)
    ensures First(b0 / 4, b0 % 4 * 16 + b1 / 16) == b0
    ensures Second(b0 % 4 * 16 + b1 / 16, b1 % 16 * 4 + b2 / 64) == b1
    ensures Third(b1 % 16 * 4 + b2 / 64, b2 % 64) == b2
  {
    assert (b0 % 4 * 16 + b1 / 16) / 16 == b0 % 4 && (b0 % 4 * 16 + b1 / 16) % 16 == b1 / 16;
    assert (b1 % 16 * 4 + b2 / 64) / 4 == b1 % 16 && (b1 % 16 * 4 + b2 / 64) % 4 == b2 / 64;
  }

  /** What decoding does with a group of four alphabet characters. */
  lemma DecodeGroup(q0: Sextet, q1: Sextet, q2: Sextet, q3: Sextet, s: string)
    requires Decode(s).Some?
    ensures Decode([CharOf(q0), CharOf(q1), CharOf(q2), CharOf(q3)] + s)
         == Some([First(q0, q1), Second(q1, q2), Third(q2, q3)] + Decode(s).value)
  {
    var t := [CharOf(q0), CharOf(q1), CharOf(q2), CharOf(q3)] + s;
    SextetOfChar(q0);
    SextetOfChar(q1);
    SextetOfChar(q2);
    SextetOfChar(q3);
    assert t[4..] == s;
  }

  lemma DecodePaddedGroup(q0: Sextet, q1: Sextet, q2: Sextet)
    ensures Decode([CharOf(q0), CharOf(q1), '=', '=']) == Some([First(q0, q1)])
    ensures Decode([CharOf(q0), CharOf(q1), CharOf(q2), '=']) == Some([First(q0, q1), Second(q1, q2)])
  {
    SextetOfChar(q0);
    SextetOfChar(q1);
    SextetOfChar(q2);
  }

  lemma DecodeOneByte(b: Bytes)
    requires |b| == 1
    ensures Decode(Encode(b)) == Some(b)
  {
    hide CharOf, SextetOf;
    GroupRoundTrip(b[0], 0, 0);
    DecodePaddedGroup(b[0] / 4, b[0] % 4 * 16, 0);
    assert b == [b[0]];
  }

  lemma DecodeTwoBytes(b: Bytes)
    requires |b| == 2
    ensures Decode(Encode(b)) == Some(b)
  {
    hide CharOf, SextetOf;
    GroupRoundTrip(b[0], b[1], 0);
    DecodePaddedGroup(b[0] / 4, b[0] % 4 * 16 + b[1] / 16, b[1] % 16 * 4);
    assert b == [b[0], b[1]];
  }

  lemma DecodeThreeBytes(b: Bytes, s: string, t: string, q0: Sextet, q1: Sextet, q2: Sextet, q3: Sextet)
    requires |b| >= 3 && Decode(t) == Some(b[3..])
    requires s == [CharOf(q0), CharOf(q1), CharOf(q2), CharOf(q3)] + t
    requires First(q0, q1) == b[0] && Second(q1, q2) == b[1] && Third(q2, q3) == b[2]
    ensures Decode(s) == Some(b)
  {
    hide CharOf, SextetOf;
    DecodeGroup(q0, q1, q2, q3, t);
    assert b == [b[0], b[1], b[2]] + b[3..];
  }

  lemma {:induction false} DecodeOfEncode(b: Bytes)
    ensures Decode(Encode(b)) == Some(b)
  {
    hide CharOf, SextetOf, First, Second, Third;
    if |b| == 1 {
      DecodeOneByte(b);
    } else if |b| == 2 {
      DecodeTwoBytes(b);
    } else if |b| >= 3 {
      DecodeOfEncode(b[3..]);
      GroupRoundTrip(b[0], b[1], b[2]);
      DecodeThreeBytes(b, Encode(b), Encode(b[3..]), b[0] / 4, b[0] % 4 * 16 + b[1] / 16, b[1] % 16 * 4 + b[2] / 64,
        b[2] % 64);
    }
  }

  // ---- The text, as the RFC describes it --------------------------------------------------------

  /** The alphabet by code points: capitals, small letters, digits, plus and slash; padding is none of them. */
  lemma AlphabetByCodePoints(q: Sextet)
    ensures CharOf(q) as int ==
            if q < 26 then 65 + q else if q < 52 then 97 + (q - 26) else if q < 62 then 48 + (q - 52)
            else if q == 62 then 43 else 47
    ensures CharOf(q) != '='
  {
  }

  lemma QuotientAndRest(q: nat, rest: nat, m: nat)
    requires rest < m
    ensures (m * q + rest) / m == q && (m * q + rest) % m == rest
  {
    var found := (m * q + rest) / m;
    assert m * found <= m * q + rest < m * found + m;
    if found > q {
      ProductGrows(q + 1, found, m);
    } else if found < q {
      ProductGrows(found + 1, q, m);
    }
  }

  lemma ProductGrows(a: nat, b: nat, m: nat)
    requires a <= b
    ensures m * a <= m * b
  {
    assert m * (b - a) >= 0;
  }

  lemma GroupBits(b0: Byte, b1: Byte, b2: Byte)
    ensures var n := 65536 * b0 + 256 * b1 + b2;
            && n / 262144 == b0 / 4 && n / 4096 % 64 == b0 % 4 * 16 + b1 / 16
            && n / 64 % 64 == b1 % 16 * 4 + b2 / 64 && n % 64 == b2 % 64
  {
    QuotientAndRest(b0 / 4, 65536 * (b0 % 4) + 256 * b1 + b2, 262144);
    QuotientAndRest(16 * b0 + b1 / 16, 256 * (b1 % 16) + b2, 4096);
    QuotientAndRest(b0 / 4, b0 % 4 * 16 + b1 / 16, 64);
    QuotientAndRest(1024 * b0 + 4 * b1 + b2 / 64, b2 % 64, 64);
    QuotientAndRest(16 * b0 + b1 / 16, b1 % 16 * 4 + b2 / 64, 64);
  }

  /** Bytes behind the end count as zero. */
  function ByteOrZero(b: Bytes, i: nat): Byte {
    if i < |b| then b[i] else 0
  }

  /** The k-th group of three bytes is a number of 24 bits, and the k-th group of the text its four digits
      to base 64; digits of which no byte has a bit are padding. */
  lemma {:induction false} GroupOfText(b: Bytes, k: nat)
    requires 3 * k < |b|
    ensures |Encode(b)| == (|b| + 2) / 3 * 4
    ensures var n := 65536 * ByteOrZero(b, 3 * k) + 256 * ByteOrZero(b, 3 * k + 1) + ByteOrZero(b, 3 * k + 2);
            && Encode(b)[4 * k] == CharOf(n / 262144) && Encode(b)[4 * k + 1] == CharOf(n / 4096 % 64)
            && Encode(b)[4 * k + 2] == (if 3 * k + 1 < |b| then CharOf(n / 64 % 64) else '=')
            && Encode(b)[4 * k + 3] == if 3 * k + 2 < |b| then CharOf(n % 64) else '='
    decreases |b|
  {
    hide CharOf;
    LengthOfText(b);
    if k == 0 {
      GroupBits(b[0], ByteOrZero(b, 1), ByteOrZero(b, 2));
    } else {
      GroupOfText(b[3..], k - 1);
      assert forall i: nat :: ByteOrZero(b[3..], i) == ByteOrZero(b, i + 3);
      hide ByteOrZero;
    }
  }

  lemma {:induction false} LengthOfText(b: Bytes)
    ensures |Encode(b)| == (|b| + 2) / 3 * 4
  {
    hide CharOf;
    if |b| > 2 {
      LengthOfText(b[3..]);
    }
  }

  // ---- Lengths ----------------------------------------------------------------------------

  const LENGTH_LIMIT: nat := 0x1_0000_0000

  /** The 4-byte form of a length; longer values raise an overflow error. */
  function LengthPrefix(n: nat): Option<Bytes> {
    if n < LENGTH_LIMIT then Some([n % 256, n / 256 % 256, n / 65536 % 256, n / 16777216])
    else None
  }

  function FromLittleEndian(b: Bytes): nat {
    if b == [] then 0 else b[0] + 256 * FromLittleEndian(b[1..])
  }

  lemma {:induction false} FourDigits(b: Bytes)
    requires |b| == 4
    ensures FromLittleEndian(b) == b[0] as int + 256 * b[1] as int + 65536 * b[2] as int + 16777216 * b[3] as int
  {
    assert FromLittleEndian(b[1..][1..][1..]) == b[3];
    assert FromLittleEndian(b[1..][1..]) == b[2] as int + 256 * b[3] as int;
  }

  lemma Digits(n: nat)
    ensures n == n % 256 + 256 * (n / 256 % 256) + 65536 * (n / 65536 % 256) + 16777216 * (n / 16777216)
  {
    assert n / 65536 == n / 256 / 256;
    assert n / 16777216 == n / 65536 / 256;
  }

  lemma LengthRoundTrip(n: nat, tail: Bytes)
    requires n < LENGTH_LIMIT
    ensures |LengthPrefix(n).value| == 4
    ensures FromLittleEndian((LengthPrefix(n).value + tail)[..4]) == n
  {
    assert (LengthPrefix(n).value + tail)[..4] == LengthPrefix(n).value;
    FourDigits(LengthPrefix(n).value);
    Digits(n);
  }
}
