/** Hexadecimal numerals as `fmt` prints them and `strconv` reads them. */
module Hex {

  predicate IsLower(c: char) { '0' <= c <= '9' || 'a' <= c <= 'f' }

  predicate IsHex(c: char) { IsLower(c) || 'A' <= c <= 'F' }

  function Value(c: char): (v: nat)
    requires IsHex(c)
    ensures v < 16
  {
    if '0' <= c <= '9' then c as int - '0' as int
    else if 'a' <= c <= 'f' then c as int - 'a' as int + 10
    else c as int - 'A' as int + 10
  }

  function Digit(v: nat): (c: char)
    requires v < 16
    ensures IsLower(c) && Value(c) == v
  {
    if v < 10 then ('0' as int + v) as char else ('a' as int + v - 10) as char
  }

  predicate AllHex(s: string) { forall i :: 0 <= i < |s| ==> IsHex(s[i]) }

  predicate AllLower(s: string) { forall i :: 0 <= i < |s| ==> IsLower(s[i]) }

  /** The number a numeral stands for, whatever the case of its letters. */
  function Number(s: string): nat
    requires AllHex(s)
  {
    if s == [] then 0 else Number(s[..|s| - 1]) * 16 + Value(s[|s| - 1])
  }

  function Pow16(w: nat): nat { if w == 0 then 1 else 16 * Pow16(w - 1) }

  /** The last `w` digits of `n`: the verb %0*x, for an `n` of at most `w` digits. */
  function Padded(n: nat, w: nat): (s: string)
    ensures |s| == w && AllLower(s)
  {
    if w == 0 then "" else Padded(n / 16, w - 1) + [Digit(n % 16)]
  }

  lemma {:induction false} NumberOfPadded(n: nat, w: nat)
    requires n < Pow16(w)
    ensures Number(Padded(n, w)) == n
    decreases w
  {
    if w > 0 {
      NumberOfPadded(n / 16, w - 1);
      assert Padded(n, w)[..w - 1] == Padded(n / 16, w - 1);
    }
  }

  lemma DigitOfValue(c: char)
    requires IsLower(c)
    ensures Digit(Value(c)) == c
  {
  }

  /** A lower-case numeral of `w` digits is what its own number prints as. */
  lemma {:induction false} PaddedOfNumber(s: string)
    requires AllLower(s)
    ensures Padded(Number(s), |s|) == s
    decreases |s|
  {
    if s != [] {
      var init, last := s[..|s| - 1], s[|s| - 1];
      PaddedOfNumber(init);
      DigitOfValue(last);
      assert Number(s) / 16 == Number(init) && Number(s) % 16 == Value(last);
      assert s == init + [last];
    }
  }

  /** A prefix of a numeral is no larger than the numeral. */
  lemma {:induction false} PrefixNoLarger(s: string, k: nat)
    requires AllHex(s) && k <= |s|
    ensures Number(s[..k]) <= Number(s)
    decreases |s| - k
  {
    if k < |s| {
      assert s[..k + 1][..k] == s[..k];
      PrefixNoLarger(s, k + 1);
    } else {
      assert s[..k] == s;
    }
  }

  const LOWER := "0123456789abcdef"
  const UPPER := "0123456789ABCDEF"

  /** The sixteen digits and their values, in both cases. */
  lemma SixteenDigits(i: nat)
    requires i < 16
    ensures IsHex(LOWER[i]) && Value(LOWER[i]) == i
    ensures IsHex(UPPER[i]) && Value(UPPER[i]) == i
  {
  }

  /** The same digit, in whatever case. */
  ghost predicate SameDigit(c: char, d: char) {
    exists i :: 0 <= i < 16 && (c == LOWER[i] || c == UPPER[i]) && (d == LOWER[i] || d == UPPER[i])
  }

  lemma SameValue(c: char, d: char)
    requires SameDigit(c, d)
    ensures IsHex(c) && IsHex(d) && Value(c) == Value(d)
  {
    var i :| 0 <= i < 16 && (c == LOWER[i] || c == UPPER[i]) && (d == LOWER[i] || d == UPPER[i]);
    SixteenDigits(i);
  }

  /** The case of its letters does not matter to a numeral. */
  lemma {:induction false} CaseFree(s: string, t: string)
    requires |s| == |t| && forall i :: 0 <= i < |s| ==> SameDigit(s[i], t[i])
    ensures AllHex(s) && AllHex(t) && Number(s) == Number(t)
    decreases |s|
  {
    forall i | 0 <= i < |s|
      ensures IsHex(s[i]) && IsHex(t[i]) && Value(s[i]) == Value(t[i])
    {
      SameValue(s[i], t[i]);
    }
    if s != "" {
      CaseFree(s[..|s| - 1], t[..|s| - 1]);
    }
  }

  /** Base sixteen: one more digit at the end. */
  lemma NumberAppend(s: string, c: char)
    requires AllHex(s) && IsHex(c)
    ensures AllHex(s + [c]) && Number(s + [c]) == 16 * Number(s) + Value(c)
  {
    assert (s + [c])[..|s|] == s;
  }
}
