/** base64 with padding: `base64.StdEncoding`, section 4 of RFC 4648. */
module Base64 {
  import opened Bytes
  import opened GoTypes

  const PAD: byte := 61

  /** The character for six bits. */
  function Char(v: nat): (c: byte)
    requires v < 64
    ensures c != PAD && Value(c) == v
  {
    if v < 26 then (65 + v) as byte
    else if v < 52 then (71 + v) as byte
    else if v < 62 then (v - 4) as byte
    else if v == 62 then 43 else 47
  }

  /** The six bits of a character; 0 for padding and anything else. */
  function Value(c: byte): (v: nat)
    ensures v < 64
  {
    var n := c as int;
    if 65 <= n <= 90 then n - 65
    else if 97 <= n <= 122 then n - 71
    else if 48 <= n <= 57 then n + 4
    else if n == 43 then 62 else if n == 47 then 63 else 0
  }

  const UPPER := "ABCDEFGHIJKLMNOPQRSTUVWXYZ"
  const LOWER := "abcdefghijklmnopqrstuvwxyz"
  const ALPHABET := UPPER + LOWER + "0123456789+/"

  /** The characters, in the order of table 1 of RFC 4648. */
  lemma Alphabet(v: nat)
    requires v < 64
    ensures |ALPHABET| == 64 && Char(v) as int == ALPHABET[v] as int
  {
    assert ALPHABET[v] == if v < 26 then UPPER[v] else if v < 52 then LOWER[v - 26] else "0123456789+/"[v - 52];
  }

  predicate InAlphabet(c: byte) {
    65 <= c <= 90 || 97 <= c <= 122 || 48 <= c <= 57 || c == 43 || c == 47
  }

  lemma CharOfValue(c: byte)
    requires InAlphabet(c)
    ensures Char(Value(c)) == c
  {
  }

  lemma AlphabetIs(c: byte)
    ensures InAlphabet(c) <==> exists i :: 0 <= i < |ALPHABET| && ALPHABET[i] as int == c as int
  {
    if InAlphabet(c) {
      Alphabet(Value(c));
    } else {
      forall i | 0 <= i < |ALPHABET|
        ensures ALPHABET[i] as int != c as int
      {
        Alphabet(i);
      }
    }
  }

  function Quad(x: byte, y: byte, z: byte): (q: Bytes)
    ensures |q| == 4 && q[2] != PAD && q[3] != PAD
  {
    var a, b, c := x as int, y as int, z as int;
    [Char(a / 4), Char(a % 4 * 16 + b / 16), Char(b % 16 * 4 + c / 64), Char(c % 64)]
  }

  function Encode(b: Bytes): Bytes {
    if b == [] then []
    else if |b| == 1 then Quad(b[0], 0, 0)[..2] + [PAD, PAD]
    else if |b| == 2 then Quad(b[0], b[1], 0)[..3] + [PAD]
    else Quad(b[0], b[1], b[2]) + Encode(b[3..])
  }

  /** The three bytes of four characters. */
  function Triple(q: Bytes): (t: Bytes)
    requires |q| == 4
    ensures |t| == 3
  {
    var a, b, c, d := Value(q[0]), Value(q[1]), Value(q[2]), Value(q[3]);
    [(a * 4 + b / 16) as byte, (b % 16 * 16 + c / 4) as byte, (c % 4 * 64 + d) as byte]
  }

  function Decode(s: Bytes): Bytes {
    if |s| < 4 then []
    else
      var t := Triple(s[..4]);
      if s[2] == PAD then t[..1] else if s[3] == PAD then t[..2] else t + Decode(s[4..])
  }

  /** Four characters and their three bytes are the same 24 bits. */
  lemma TripleBits(q: Bytes)
    requires |q| == 4
    ensures var t := Triple(q);
            (t[0] as int * 256 + t[1] as int) * 256 + t[2] as int
            == ((Value(q[0]) * 64 + Value(q[1])) * 64 + Value(q[2])) * 64 + Value(q[3])
  {
  }

  /** Padded to groups of four, with every bit that stands for nothing zero. */
  predicate Canonical(s: Bytes) {
    if |s| == 0 then true
    else |s| >= 4 && InAlphabet(s[0]) && InAlphabet(s[1])
         && if s[2] == PAD then |s| == 4 && s[3] == PAD && Value(s[1]) % 16 == 0
            else if s[3] == PAD then |s| == 4 && InAlphabet(s[2]) && Value(s[2]) % 4 == 0
            else InAlphabet(s[2]) && InAlphabet(s[3]) && Canonical(s[4..])
  }

  lemma TripleOfQuad(x: byte, y: byte, z: byte)
    ensures Triple(Quad(x, y, z)) == [x, y, z]
  {
  }

  /** Four characters whose last one or two are padding still give the first bytes. */
  lemma TripleOfPadded(x: byte, y: byte)
    ensures Triple(Quad(x, y, 0)[..3] + [PAD])[..2] == [x, y]
    ensures Triple(Quad(x, 0, 0)[..2] + [PAD, PAD])[..1] == [x]
  {
    TripleOfQuad(x, y, 0);
    TripleOfQuad(x, 0, 0);
  }

  lemma {:induction false} DecodeOfEncode(b: Bytes)
    ensures Decode(Encode(b)) == b
    decreases |b|
  {
    if |b| == 1 || |b| == 2 {
      TripleOfPadded(b[0], if |b| == 2 then b[1] else 0);
      assert Encode(b)[..4] == Encode(b);
    } else if |b| >= 3 {
      TripleOfQuad(b[0], b[1], b[2]);
      DecodeOfEncode(b[3..]);
      assert Encode(b)[..4] == Quad(b[0], b[1], b[2]) && Encode(b)[4..] == Encode(b[3..]);
      assert b == [b[0], b[1], b[2]] + b[3..];
    }
  }

  lemma EncodeInjective(a: Bytes, b: Bytes)
    ensures Encode(a) == Encode(b) <==> a == b
  {
    DecodeOfEncode(a);
    DecodeOfEncode(b);
  }

  lemma QuadCanonical(x: byte, y: byte, z: byte)
    ensures forall i :: 0 <= i < 4 ==> InAlphabet(Quad(x, y, z)[i])
    ensures y == 0 ==> Value(Quad(x, y, z)[1]) % 16 == 0
    ensures z == 0 ==> Value(Quad(x, y, z)[2]) % 4 == 0
  {
    forall i | 0 <= i < 4
      ensures InAlphabet(Quad(x, y, z)[i])
    {
    }
  }

  lemma {:induction false} EncodeCanonical(b: Bytes)
    ensures Canonical(Encode(b))
    decreases |b|
  {
    if b != [] {
      QuadCanonical(b[0], if |b| > 1 then b[1] else 0, if |b| > 2 then b[2] else 0);
      if |b| >= 3 {
        EncodeCanonical(b[3..]);
        assert Encode(b)[4..] == Encode(b[3..]);
      }
    }
  }

  /** Regrouping 24 bits: four sixes from three eights. */
  lemma SixBits(a: nat, b: nat, c: nat, d: nat)
    requires a < 64 && b < 64 && c < 64 && d < 64
    ensures var x, y, z := a * 4 + b / 16, b % 16 * 16 + c / 4, c % 4 * 64 + d;
            x / 4 == a && x % 4 * 16 + y / 16 == b && y % 16 * 4 + z / 64 == c && z % 64 == d
  {
  }

  lemma QuadOfBits(a: nat, b: nat, c: nat, d: nat, x: byte, y: byte, z: byte)
    requires a < 64 && b < 64 && c < 64 && d < 64
    requires x as int == a * 4 + b / 16 && y as int == b % 16 * 16 + c / 4 && z as int == c % 4 * 64 + d
    ensures Quad(x, y, z) == [Char(a), Char(b), Char(c), Char(d)]
  {
    SixBits(a, b, c, d);
  }

  lemma QuadOfTriple(a: byte, b: byte, c: byte, d: byte)
    requires InAlphabet(a) && InAlphabet(b) && InAlphabet(c) && InAlphabet(d)
    ensures var t := Triple([a, b, c, d]); Quad(t[0], t[1], t[2]) == [a, b, c, d]
  {
    var t := Triple([a, b, c, d]);
    QuadOfBits(Value(a), Value(b), Value(c), Value(d), t[0], t[1], t[2]);
    CharOfValue(a);
    CharOfValue(b);
    CharOfValue(c);
    CharOfValue(d);
  }

  lemma OnePadded(a: byte, b: byte)
    requires InAlphabet(a) && InAlphabet(b) && Value(b) % 16 == 0
    ensures Encode(Decode([a, b, PAD, PAD])) == [a, b, PAD, PAD]
  {
    var s, t := [a, b, PAD, PAD], Triple([a, b, 65, 65]);
    QuadOfTriple(a, b, 65, 65);
    assert s[..4] == s;
    assert Triple(s) == t && t[1] == 0 && t[2] == 0;
    assert Decode(s) == [t[0]];
  }

  lemma TwoPadded(a: byte, b: byte, c: byte)
    requires InAlphabet(a) && InAlphabet(b) && InAlphabet(c) && Value(c) % 4 == 0
    ensures Encode(Decode([a, b, c, PAD])) == [a, b, c, PAD]
  {
    var s, t := [a, b, c, PAD], Triple([a, b, c, 65]);
    QuadOfTriple(a, b, c, 65);
    assert s[..4] == s;
    assert Triple(s) == t && t[2] == 0;
    assert Decode(s) == [t[0], t[1]];
  }

  lemma {:induction false} EncodeOfDecode(s: Bytes)
    requires Canonical(s)
    ensures Encode(Decode(s)) == s
    decreases |s|
  {
    if s != [] {
      if s[2] == PAD {
        assert s == [s[0], s[1], PAD, PAD];
        OnePadded(s[0], s[1]);
      } else if s[3] == PAD {
        assert s == [s[0], s[1], s[2], PAD];
        TwoPadded(s[0], s[1], s[2]);
      } else {
        var t := Triple(s[..4]);
        QuadOfTriple(s[0], s[1], s[2], s[3]);
        EncodeOfDecode(s[4..]);
        assert s[..4] == [s[0], s[1], s[2], s[3]] && s == s[..4] + s[4..];
        assert (t + Decode(s[4..]))[3..] == Decode(s[4..]);
      }
    }
  }

  /** A text is the encoding of `b` if and only if it is canonical and decodes to `b`. */
  lemma EncodeMeans(b: Bytes, s: Bytes)
    ensures s == Encode(b) <==> Canonical(s) && Decode(s) == b
  {
    EncodeCanonical(b);
    DecodeOfEncode(b);
    if Canonical(s) {
      EncodeOfDecode(s);
    }
  }
}
