/** The decimal encoders of `internal/formatter/avro`: big-endian two's complement of fixed width. */
module AvroDecimal {
  import opened GoTypes
  import opened Wrappers

  const TWO_135 := 0x80_0000_0000_0000_0000_0000_0000_0000_0000
  const TWO_136 := 0x1_00_0000_0000_0000_0000_0000_0000_0000_0000

  function Pow256(n: nat): (p: nat)
    ensures p > 0
  {
    if n == 0 then 1 else 256 * Pow256(n - 1)
  }

  // ---------- What a reader of the format sees

  /** The bytes as an unsigned number, most significant first. */
  function Unsigned(b: seq<byte>): nat {
    if b == [] then 0 else Unsigned(b[..|b| - 1]) * 256 + b[|b| - 1] as int
  }

  /** The bytes as two's complement: the first bit is the sign. */
  function Signed(b: seq<byte>): int {
    if b != [] && b[0] >= 128 then Unsigned(b) - Pow256(|b|) else Unsigned(b)
  }

  lemma {:induction false} UnsignedHead(b: seq<byte>)
    requires b != []
    ensures Unsigned(b) == b[0] as int * Pow256(|b| - 1) + Unsigned(b[1..])
    ensures Unsigned(b[1..]) < Pow256(|b| - 1)
    decreases |b|
  {
    var init, last := b[..|b| - 1], b[|b| - 1] as int;
    if |b| > 1 {
      UnsignedHead(init);
      assert init[1..] == b[1..][..|b| - 2] && b[1..][|b| - 2] == b[|b| - 1];
      var high := b[0] as int;
      assert high * Pow256(|b| - 2) * 256 == high * Pow256(|b| - 1);
    } else {
      assert init == [];
    }
  }

  // ---------- The encoders

  /** The last `n` bytes of a number. */
  function BigEndian(x: nat, n: nat): (b: seq<byte>)
    ensures |b| == n
  {
    if n == 0 then [] else BigEndian(x / 256, n - 1) + [(x % 256) as byte]
  }

  lemma {:induction false} UnsignedOfBigEndian(x: nat, n: nat)
    requires x < Pow256(n)
    ensures Unsigned(BigEndian(x, n)) == x
    decreases n
  {
    if n > 0 {
      UnsignedOfBigEndian(x / 256, n - 1);
      assert BigEndian(x, n)[..n - 1] == BigEndian(x / 256, n - 1);
    }
  }

  /** Fills `buf` from position `from` to its end with a number, last byte first; what lies before is untouched. */
  method PutBigEndian(buf: array<byte>, from: nat, x: nat)
    requires from <= buf.Length
    modifies buf
    ensures buf[..from] == old(buf[..from])
    ensures buf[from..] == BigEndian(x, buf.Length - from)
  {
    var i, rest := buf.Length, x;
    while i > from
      invariant from <= i <= buf.Length
      invariant buf[..from] == old(buf[..from])
      invariant BigEndian(rest, i - from) + buf[i..] == BigEndian(x, buf.Length - from)
    {
      ghost var tail := buf[i..];
      i := i - 1;
      buf[i] := (rest % 256) as byte;
      assert buf[i..] == [(rest % 256) as byte] + tail;
      assert BigEndian(rest, i + 1 - from) + tail == BigEndian(rest / 256, i - from) + buf[i..];
      rest := rest / 256;
    }
  }

  /** `hugeIntToDecimalBytes` on a number; None when it overflows the buffer and the encoder panics. */
  function Huge(n: int): Option<seq<byte>> {
    var x := if n < 0 then n + TWO_136 else n;
    var size: nat := if x < 0 then -x else x;
    if size < TWO_136 then Some(BigEndian(size, 17)) else None
  }

  /** A null value stays null; a number fills 17 bytes, a negative one after adding 2^136. */
  method HugeIntToDecimalBytes(v: Option<int>) returns (r: Result<Option<seq<byte>>, ()>)
    ensures v.None? ==> r == Ok(None)
    ensures v.Some? ==> r == if Huge(v.value).Some? then Ok(Huge(v.value)) else Err(())
  {
    if v.None? {
      return Ok(None);
    }
    var n := v.value;
    var buf := new byte[17](_ => 0);
    var x := n;
    if n < 0 {
      x := n + TWO_136;
    }
    var size: nat := if x < 0 then -x else x;
    if size >= TWO_136 {
      return Err(());
    }
    PutBigEndian(buf, 0, size);
    assert buf[0..] == buf[..];
    return Ok(Some(buf[..]));
  }

  function Ubig(n: uint64): seq<byte> { [0] + BigEndian(n as int, 8) }

  /** A null value stays null; a number fills the last 8 of 9 bytes, the first stays 0 for the sign. */
  method Uint64ToDecimalBytes(v: Option<uint64>) returns (r: Option<seq<byte>>)
    ensures r == if v.None? then None else Some(Ubig(v.value))
  {
    if v.None? {
      return None;
    }
    var buf := new byte[9](_ => 0);
    assert buf[..1] == [0];
    PutBigEndian(buf, 1, v.value as int);
    assert buf[..] == buf[..1] + buf[1..];
    return Some(buf[..]);
  }

  // ---------- What they promise

  lemma Powers()
    ensures Pow256(16) == 0x1_0000_0000_0000_0000_0000_0000_0000_0000
    ensures Pow256(17) == TWO_136 && Pow256(8) == 0x1_0000_0000_0000_0000
  {
  }

  lemma SignedOfBigEndian(x: nat)
    requires x < TWO_136
    ensures Signed(BigEndian(x, 17)) == if x < TWO_135 then x else x - TWO_136
  {
    Powers();
    var b := BigEndian(x, 17);
    UnsignedOfBigEndian(x, 17);
    UnsignedHead(b);
  }

  /** For all integers: the 17 bytes decode to the number if and only if it is one of 136 bits, sign included. */
  lemma HugeRoundTrip(n: int)
    ensures Huge(n).Some? && Signed(Huge(n).value) == n <==> -TWO_135 <= n < TWO_135
  {
    var x := if n < 0 then n + TWO_136 else n;
    var size := if x < 0 then -x else x;
    if size < TWO_136 {
      SignedOfBigEndian(size);
    }
  }

  /** That range holds HUGEINT, UHUGEINT and every number of the declared precision, 39 digits. */
  lemma HugeCoversTypes(n: int)
    requires -0x8000_0000_0000_0000_0000_0000_0000_0000 <= n < 0x1_0000_0000_0000_0000_0000_0000_0000_0000
             || -1_000_000_000_000_000_000_000_000_000_000_000_000_000 < n < 1_000_000_000_000_000_000_000_000_000_000_000_000_000
    ensures Huge(n).Some? && |Huge(n).value| == 17 && Signed(Huge(n).value) == n
  {
    HugeRoundTrip(n);
  }

  function Zeros(k: nat): (z: seq<byte>)
    ensures |z| == k && forall i :: 0 <= i < k ==> z[i] == 0
  {
    seq(k, _ => 0)
  }

  lemma {:induction false} BigEndianPads(x: nat, n: nat, k: nat)
    requires x < Pow256(n)
    ensures BigEndian(x, n + k) == Zeros(k) + BigEndian(x, n)
    decreases n + k
  {
    if n > 0 {
      BigEndianPads(x / 256, n - 1, k);
    } else if k > 0 {
      BigEndianPads(0, 0, k - 1);
      assert Zeros(k) == Zeros(k - 1) + [0];
    }
  }

  /** Every uint64 decodes from its 9 bytes, and the 17-byte form is eight zero bytes and the 9-byte form. */
  lemma WidthsAgree(n: uint64)
    ensures |Ubig(n)| == 9 && Signed(Ubig(n)) == n as int
    ensures Huge(n as int) == Some(Zeros(8) + Ubig(n))
  {
    Powers();
    UnsignedOfBigEndian(n as int, 8);
    UnsignedHead(Ubig(n));
    assert Ubig(n)[1..] == BigEndian(n as int, 8);
    BigEndianPads(n as int, 8, 9);
    assert Zeros(9) + BigEndian(n as int, 8) == Zeros(8) + Ubig(n);
  }

  /** Outside it: which numbers make the encoder panic, and what the others decode to instead. */
  lemma HugeOutside(n: int)
    requires n < -TWO_135 || TWO_135 <= n
    ensures Huge(n).None? <==> n <= -2 * TWO_136 || TWO_136 <= n
    ensures TWO_135 <= n < TWO_136 ==> Signed(Huge(n).value) == n - TWO_136
    ensures -TWO_136 <= n < -TWO_135 ==> Signed(Huge(n).value) == n + TWO_136
    ensures -2 * TWO_136 < n < -TWO_136 ==> Signed(Huge(n).value) in {-n - TWO_136, -n - 2 * TWO_136}
  {
    var x := if n < 0 then n + TWO_136 else n;
    var size := if x < 0 then -x else x;
    if size < TWO_136 {
      SignedOfBigEndian(size);
    }
  }
}
