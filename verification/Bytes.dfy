/** Go strings as bytes, and what the standard library does to them. */
module Bytes {

  import opened GoTypes

  type Bytes = seq<byte>

  /** The bytes of a text of plain ASCII. */
  function Ascii(s: string): (b: Bytes)
    requires forall i :: 0 <= i < |s| ==> s[i] as int < 128
    ensures |b| == |s| && forall i :: 0 <= i < |s| ==> b[i] as int == s[i] as int
  {
    seq(|s|, i requires 0 <= i < |s| => s[i] as int as byte)
  }

  // ---------- strings.TrimSpace

  /** From position `i` the next `k` bytes are the UTF-8 form of one white-space character. */
  predicate SpaceAt(b: Bytes, i: nat, k: nat)
    requires i + k <= |b|
  {
    || (k == 1 && (9 <= b[i] <= 13 || b[i] == 32))
    || (k == 2 && b[i] == 0xC2 && (b[i + 1] == 0x85 || b[i + 1] == 0xA0))
    || (k == 3 && ((b[i] == 0xE1 && b[i + 1] == 0x9A && b[i + 2] == 0x80)
                   || (b[i] == 0xE2 && b[i + 1] == 0x81 && b[i + 2] == 0x9F)
                   || (b[i] == 0xE3 && b[i + 1] == 0x80 && b[i + 2] == 0x80)
                   || (b[i] == 0xE2 && b[i + 1] == 0x80
                       && (0x80 <= b[i + 2] <= 0x8A || b[i + 2] == 0xA8 || b[i + 2] == 0xA9 || b[i + 2] == 0xAF))))
  }

  /** The length of the white-space character that `b` starts with; 0 when there is none. */
  function FrontSpace(b: Bytes): (k: nat)
    ensures k <= |b|
  {
    if |b| >= 1 && SpaceAt(b, 0, 1) then 1
    else if |b| >= 2 && SpaceAt(b, 0, 2) then 2
    else if |b| >= 3 && SpaceAt(b, 0, 3) then 3 else 0
  }

  /** The length of the white-space character that `b` ends with; 0 when there is none. */
  function EndSpace(b: Bytes): (k: nat)
    ensures k <= |b|
  {
    if |b| >= 1 && SpaceAt(b, |b| - 1, 1) then 1
    else if |b| >= 2 && SpaceAt(b, |b| - 2, 2) then 2
    else if |b| >= 3 && SpaceAt(b, |b| - 3, 3) then 3 else 0
  }

  function TrimLeft(b: Bytes): Bytes
    decreases |b|
  {
    if FrontSpace(b) > 0 then TrimLeft(b[FrontSpace(b)..]) else b
  }

  function TrimRight(b: Bytes): Bytes
    decreases |b|
  {
    if EndSpace(b) > 0 then TrimRight(b[..|b| - EndSpace(b)]) else b
  }

  function TrimSpace(b: Bytes): Bytes { TrimRight(TrimLeft(b)) }

  /** White space from end to end. */
  predicate White(b: Bytes)
    decreases |b|
  {
    b == [] || (FrontSpace(b) > 0 && White(b[FrontSpace(b)..]))
  }

  /** The first, or the last, `k` bytes are a white-space character. */
  ghost predicate SpaceEither(b: Bytes, k: nat) {
    0 < k <= |b| && (SpaceAt(b, 0, k) || SpaceAt(b, |b| - k, k))
  }

  /** No white space at either end. */
  ghost predicate Tight(b: Bytes) {
    forall k :: !SpaceEither(b, k)
  }

  /** `b` is `t` between runs of white space. */
  ghost predicate Around(l: Bytes, t: Bytes, r: Bytes, b: Bytes) {
    White(l) && White(r) && b == l + (t + r)
  }

  /** Where a white-space character starts, or ends, only that one does. */
  lemma OneSpace(b: Bytes, k: nat)
    requires 0 < k <= |b|
    ensures SpaceAt(b, 0, k) <==> FrontSpace(b) == k
    ensures SpaceAt(b, |b| - k, k) <==> EndSpace(b) == k
  {
  }

  lemma TightEnds(t: Bytes)
    ensures Tight(t) <==> FrontSpace(t) == 0 && EndSpace(t) == 0
  {
    if Tight(t) {
      assert !SpaceEither(t, FrontSpace(t)) && !SpaceEither(t, EndSpace(t));
    } else {
      var k: nat :| SpaceEither(t, k);
      OneSpace(t, k);
    }
  }

  lemma Assoc(a: Bytes, b: Bytes, c: Bytes)
    ensures (a + b) + c == a + (b + c)
  {
  }

  lemma Cut(b: Bytes, k: nat)
    requires k <= |b|
    ensures b[..k] + b[k..] == b
  {
  }

  /** One white-space character, put before or after. */
  ghost predicate Space(u: Bytes) { u != [] && SpaceAt(u, 0, |u|) }

  lemma SpaceInFront(u: Bytes, b: Bytes)
    requires Space(u)
    ensures FrontSpace(u + b) == |u| && (u + b)[|u|..] == b
  {
    assert SpaceAt(u + b, 0, |u|);
    OneSpace(u + b, |u|);
  }

  lemma SpaceBehind(b: Bytes, u: Bytes)
    requires Space(u)
    ensures EndSpace(b + u) == |u| && (b + u)[..|b|] == b
  {
    assert SpaceAt(b + u, |b|, |u|);
    OneSpace(b + u, |u|);
  }

  lemma FrontIsSpace(b: Bytes)
    ensures FrontSpace(b) > 0 ==> Space(b[..FrontSpace(b)])
  {
  }

  lemma EndIsSpace(b: Bytes)
    ensures EndSpace(b) > 0 ==> Space(b[|b| - EndSpace(b)..])
  {
  }

  lemma {:induction false} TrimLeftWhite(l: Bytes, b: Bytes)
    requires White(l)
    ensures TrimLeft(l + b) == TrimLeft(b)
    decreases |l|
  {
    if l == [] {
      assert l + b == b;
    } else {
      var k := FrontSpace(l);
      FrontIsSpace(l);
      SpaceInFront(l[..k], l[k..] + b);
      Assoc(l[..k], l[k..], b);
      Cut(l, k);
      TrimLeftWhite(l[k..], b);
    }
  }

  lemma {:induction false} TrimRightWhite(b: Bytes, r: Bytes)
    requires White(r)
    ensures TrimRight(b + r) == TrimRight(b)
    decreases |r|
  {
    if r == [] {
      assert b + r == b;
    } else {
      var k := FrontSpace(r);
      FrontIsSpace(r);
      Assoc(b, r[..k], r[k..]);
      Cut(r, k);
      TrimRightWhite(b + r[..k], r[k..]);
      SpaceBehind(b, r[..k]);
    }
  }

  lemma WhitePrepend(u: Bytes, b: Bytes)
    requires Space(u) && White(b)
    ensures White(u + b)
  {
    SpaceInFront(u, b);
  }

  lemma {:induction false} WhiteAppend(b: Bytes, u: Bytes)
    requires White(b) && Space(u)
    ensures White(b + u)
    decreases |b|
  {
    if b == [] {
      WhitePrepend(u, []);
      assert u + [] == u && b + u == u;
    } else {
      var k := FrontSpace(b);
      FrontIsSpace(b);
      WhiteAppend(b[k..], u);
      WhitePrepend(b[..k], b[k..] + u);
      Assoc(b[..k], b[k..], u);
      Cut(b, k);
    }
  }

  /** What TrimLeft takes off is white space, and none is left in front. */
  lemma {:induction false} TrimLeftSplits(b: Bytes) returns (l: Bytes)
    ensures White(l) && b == l + TrimLeft(b) && FrontSpace(TrimLeft(b)) == 0
    decreases |b|
  {
    var k := FrontSpace(b);
    if k == 0 {
      l := [];
    } else {
      FrontIsSpace(b);
      var rest := TrimLeftSplits(b[k..]);
      WhitePrepend(b[..k], rest);
      l := b[..k] + rest;
      Assoc(b[..k], rest, TrimLeft(b));
      Cut(b, k);
    }
  }

  lemma OneMoreBehind(b: Bytes, t: Bytes, init: Bytes, k: nat)
    requires 0 < k == EndSpace(b) && b[..|b| - k] == t + init && White(init)
    ensures White(init + b[|b| - k..]) && b == t + (init + b[|b| - k..])
  {
    EndIsSpace(b);
    WhiteAppend(init, b[|b| - k..]);
    Assoc(t, init, b[|b| - k..]);
    Cut(b, |b| - k);
  }

  lemma {:induction false} TrimRightSplits(b: Bytes) returns (r: Bytes)
    ensures White(r) && b == TrimRight(b) + r && EndSpace(TrimRight(b)) == 0
    decreases |b|
  {
    var k := EndSpace(b);
    if k == 0 {
      r := [];
    } else {
      var init := TrimRightSplits(b[..|b| - k]);
      OneMoreBehind(b, TrimRight(b), init, k);
      r := init + b[|b| - k..];
    }
  }

  /** White space that follows changes nothing at the front. */
  lemma TightBefore(t: Bytes, r: Bytes)
    requires t != [] && White(r)
    ensures FrontSpace(t + r) == FrontSpace(t)
  {
    if r != [] {
      assert (t + r)[|t|] == r[0];
    }
    if |r| >= 2 {
      assert (t + r)[|t| + 1] == r[1];
    }
  }

  lemma TrimTight(l: Bytes, t: Bytes, r: Bytes)
    requires White(l) && FrontSpace(t) == 0 && EndSpace(t) == 0 && White(r)
    ensures TrimSpace(l + (t + r)) == t
  {
    TrimLeftWhite(l, t + r);
    if t == [] {
      TrimLeftWhite(r, []);
      assert t + r == r && r + [] == r;
    } else {
      TightBefore(t, r);
      TrimRightWhite(t, r);
    }
  }

  lemma TrimmedParts(b: Bytes) returns (l: Bytes, r: Bytes)
    ensures Around(l, TrimSpace(b), r, b) && Tight(TrimSpace(b))
  {
    l := TrimLeftSplits(b);
    r := TrimRightSplits(TrimLeft(b));
    if TrimSpace(b) != [] {
      TightBefore(TrimSpace(b), r);
    }
    TightEnds(TrimSpace(b));
  }

  /** Trimming takes off all white space at both ends and nothing else. */
  lemma TrimSpaceMeans(b: Bytes, t: Bytes)
    ensures TrimSpace(b) == t <==> Tight(t) && exists l, r :: Around(l, t, r, b)
  {
    var l, r := TrimmedParts(b);
    forall x, y | Around(x, t, y, b) && Tight(t)
      ensures TrimSpace(b) == t
    {
      TightEnds(t);
      TrimTight(x, t, y);
    }
  }
}
