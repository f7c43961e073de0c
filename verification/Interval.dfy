/** Intervals as text: `IntervalToStr` of `internal/formatter`, and a reader that undoes it. */
module Interval {
  import opened GoTypes
  import opened Wrappers
  import opened Text

  datatype Interval = Interval(months: int32, days: int32, micros: int64)

  const HOUR := 3_600_000_000
  const MIN := 60_000_000
  const SEC := 1_000_000
  const MSEC := 1_000

  // ---------- What is to be printed

  datatype Clock = Clock(h: int, m: int, s: int, ms: int, us: int)

  /** The components add up to `t`; each below the hours is smaller than its radix, and all have the sign of `t`. */
  ghost predicate SplitsTime(t: int, c: Clock) {
    && c.h * HOUR + c.m * MIN + c.s * SEC + c.ms * MSEC + c.us == t
    && (t >= 0 ==> c.h >= 0 && 0 <= c.m < 60 && 0 <= c.s < 60 && 0 <= c.ms < 1000 && 0 <= c.us < 1000)
    && (t <= 0 ==> c.h <= 0 && -60 < c.m <= 0 && -60 < c.s <= 0 && -1000 < c.ms <= 0 && -1000 < c.us <= 0)
  }

  /** Months as years and months, under the same rule. */
  ghost predicate SplitsMonths(t: int, y: int, mo: int) {
    && y * 12 + mo == t
    && (t >= 0 ==> y >= 0 && 0 <= mo < 12)
    && (t <= 0 ==> y <= 0 && -12 < mo <= 0)
  }

  /** Quotient and remainder are determined by the divisor, the range and the sign. */
  lemma SameQuotient(b: int, q: int, r: int, p: int, s: int)
    requires b > 0 && q * b + r == p * b + s
    requires (0 <= r < b && 0 <= s < b) || (-b < r <= 0 && -b < s <= 0)
    ensures p == q && r == s
  {
    if p > q {
      MulAtLeast(b, p - q);
    } else if p < q {
      MulAtLeast(b, q - p);
    }
  }

  /** There is only one way to split a time. */
  lemma SplitTimeUnique(t: int, c: Clock, d: Clock)
    requires SplitsTime(t, c) && SplitsTime(t, d)
    ensures c == d
  {
    SameQuotient(HOUR, c.h, c.m * MIN + c.s * SEC + c.ms * MSEC + c.us, d.h, d.m * MIN + d.s * SEC + d.ms * MSEC + d.us);
    SameQuotient(MIN, c.m, c.s * SEC + c.ms * MSEC + c.us, d.m, d.s * SEC + d.ms * MSEC + d.us);
    SameQuotient(SEC, c.s, c.ms * MSEC + c.us, d.s, d.ms * MSEC + d.us);
    SameQuotient(MSEC, c.ms, c.us, d.ms, d.us);
  }

  /** Go's `/`: truncates toward zero. */
  function Quo(a: int, b: int): int
    requires b > 0
  {
    if a >= 0 then a / b else -((-a) / b)
  }

  /** Go's `%`: what such a division leaves. */
  function Rem(a: int, b: int): int
    requires b > 0
  {
    a - Quo(a, b) * b
  }

  /** One division toward zero: what it takes and what it leaves. */
  ghost predicate Takes(a: int, b: int, q: int, rest: int) {
    && a == q * b + rest
    && (a >= 0 ==> 0 <= q <= a && 0 <= rest < b)
    && (a <= 0 ==> a <= q <= 0 && -b < rest <= 0)
  }

  lemma QuoOfNat(n: nat, b: nat)
    requires b > 0
    ensures 0 <= n / b <= n && 0 <= n - (n / b) * b < b
  {
    assert n == (n / b) * b + n % b;
    MulAtLeast(n / b, b);
  }

  lemma QuoTakes(a: int, b: nat)
    requires b > 0
    ensures Takes(a, b, Quo(a, b), Rem(a, b))
  {
    if a >= 0 {
      QuoOfNat(a, b);
    } else {
      QuoOfNat(-a, b);
      var q := (-a) / b;
      assert (-q) * b == -(q * b);
    }
  }

  /** Dividing by ever smaller units splits the time. */
  lemma TakesSplit(t: int, h: int, r1: int, m: int, r2: int, s: int, r3: int, ms: int, us: int)
    requires Takes(t, HOUR, h, r1) && Takes(r1, MIN, m, r2) && Takes(r2, SEC, s, r3) && Takes(r3, MSEC, ms, us)
    ensures SplitsTime(t, Clock(h, m, s, ms, us))
  {
  }

  lemma SplitTimeExists(t: int)
    ensures exists c :: SplitsTime(t, c)
  {
    var h := Quo(t, HOUR);
    QuoTakes(t, HOUR);
    var r1 := t - h * HOUR;
    SplitBelowHour(t, h, r1);
  }

  lemma SplitBelowHour(t: int, h: int, r1: int)
    requires Takes(t, HOUR, h, r1)
    ensures exists c :: SplitsTime(t, c)
  {
    var m := Quo(r1, MIN);
    QuoTakes(r1, MIN);
    SplitBelowMinute(t, h, r1, m, r1 - m * MIN);
  }

  lemma SplitBelowMinute(t: int, h: int, r1: int, m: int, r2: int)
    requires Takes(t, HOUR, h, r1) && Takes(r1, MIN, m, r2)
    ensures exists c :: SplitsTime(t, c)
  {
    var s := Quo(r2, SEC);
    QuoTakes(r2, SEC);
    var r3 := r2 - s * SEC;
    var ms := Quo(r3, MSEC);
    QuoTakes(r3, MSEC);
    TakesSplit(t, h, r1, m, r2, s, r3, ms, r3 - ms * MSEC);
  }

  /** The time split into hours, minutes, seconds, milliseconds and microseconds. */
  ghost function ClockOf(t: int): (c: Clock)
    ensures SplitsTime(t, c)
  {
    SplitTimeExists(t);
    var c :| SplitsTime(t, c);
    c
  }

  datatype Unit = Year | Month | Day | Hour | Minute | Second | Milli | Micro

  datatype Part = Part(value: int, unit: Unit)

  function UnitText(unit: Unit): string {
    match unit
    case Year => "y"
    case Month => "mo"
    case Day => "d"
    case Hour => "h"
    case Minute => "m"
    case Second => "s"
    case Milli => "ms"
    case Micro => "\U{03bc}s"
  }

  function PartText(p: Part): string { IntText(p.value) + UnitText(p.unit) }

  ghost function TimeParts(t: int): (ps: seq<Part>)
    ensures |ps| == 5
  {
    var c := ClockOf(t);
    [Part(c.h, Hour), Part(c.m, Minute), Part(c.s, Second), Part(c.ms, Milli), Part(c.us, Micro)]
  }

  ghost function DateParts(months: int, days: int): (ps: seq<Part>)
    ensures |ps| == 3
  {
    [Part(Quo(months, 12), Year), Part(Rem(months, 12), Month), Part(days, Day)]
  }

  /** The eight components of an interval, zero or not. */
  ghost function Parts(iv: Interval): (ps: seq<Part>)
    ensures |ps| == 8
  {
    DateParts(iv.months as int, iv.days as int) + TimeParts(iv.micros as int)
  }

  /** `parts` grows by the next component unless that is zero. */
  function Grown(parts: seq<string>, p: Part): seq<string> {
    if p.value != 0 then parts + [PartText(p)] else parts
  }

  /** The texts of the components that are not zero, in order. */
  function Shown(ps: seq<Part>): seq<string> {
    if ps == [] then [] else Grown(Shown(ps[..|ps| - 1]), ps[|ps| - 1])
  }

  /** The non-zero components, separated by spaces; "0" when there are none. */
  ghost function IntervalText(iv: Interval): string {
    var shown := Shown(Parts(iv));
    if shown == [] then "0" else Join(shown, ' ')
  }

  lemma ShownStep(ps: seq<Part>, k: nat)
    requires k < |ps|
    ensures Shown(ps[..k + 1]) == Grown(Shown(ps[..k]), ps[k])
  {
    assert ps[..k + 1][..k] == ps[..k];
  }

  lemma ShownDate(ps: seq<Part>)
    requires |ps| >= 3
    ensures Shown(ps[..3]) == Grown(Grown(Grown([], ps[0]), ps[1]), ps[2])
  {
    ShownStep(ps, 0);
    ShownStep(ps, 1);
    ShownStep(ps, 2);
  }

  ghost function AllGrown(parts: seq<string>, ps: seq<Part>): seq<string>
    requires |ps| == 5
  {
    Grown(Grown(Grown(Grown(Grown(parts, ps[0]), ps[1]), ps[2]), ps[3]), ps[4])
  }

  lemma ShownTime(ps: seq<Part>)
    requires |ps| == 8
    ensures Shown(ps) == AllGrown(Shown(ps[..3]), ps[3..])
  {
    ShownStep(ps, 3);
    ShownStep(ps, 4);
    ShownStep(ps, 5);
    ShownStep(ps, 6);
    ShownStep(ps, 7);
    assert ps[..8] == ps;
  }

  // ---------- The printer

  /** One unit: what it takes is appended unless zero, and subtracted; all in int64. */
  method TakeUnit(parts: seq<string>, us: int64, size: int64, unit: Unit)
    returns (more: seq<string>, rest: int64, q: int64)
    requires size > 0
    ensures Takes(us as int, size as int, q as int, rest as int)
    ensures more == Grown(parts, Part(q as int, unit))
  {
    QuoTakes(us as int, size as int);
    q := Quo(us as int, size as int) as int64;
    more, rest := parts, us;
    if q != 0 {
      rest := us - q * size;
      more := parts + [IntText(q as int) + UnitText(unit)];
    }
  }

  /** The years, months and days. */
  method DateToParts(iv: Interval) returns (parts: seq<string>)
    ensures parts == Shown(DateParts(iv.months as int, iv.days as int))
  {
    ghost var ps := DateParts(iv.months as int, iv.days as int);
    ShownDate(ps);
    assert ps[..3] == ps;
    QuoTakes(iv.months as int, 12);
    parts := [];
    if iv.months != 0 {
      var y: int32, m: int32 := Quo(iv.months as int, 12) as int32, Rem(iv.months as int, 12) as int32;
      if y != 0 {
        parts := parts + [IntText(y as int) + UnitText(Year)];
      }
      if m != 0 {
        parts := parts + [IntText(m as int) + UnitText(Month)];
      }
    }
    if iv.days != 0 {
      parts := parts + [IntText(iv.days as int) + UnitText(Day)];
    }
  }

  /** The time, unit by unit from what the larger units leave. */
  method TimeToParts(parts: seq<string>, micros: int64) returns (more: seq<string>)
    ensures more == AllGrown(parts, TimeParts(micros as int))
  {
    ghost var t := micros as int;
    more := parts;
    if micros != 0 {
      var us: int64 := micros;
      var h, m, s, ms: int64;
      more, us, h := TakeUnit(more, us, HOUR as int64, Hour);
      ghost var r1 := us as int;
      more, us, m := TakeUnit(more, us, MIN as int64, Minute);
      ghost var r2 := us as int;
      more, us, s := TakeUnit(more, us, SEC as int64, Second);
      ghost var r3 := us as int;
      more, us, ms := TakeUnit(more, us, MSEC as int64, Milli);
      TakesSplit(t, h as int, r1, m as int, r2, s as int, r3, ms as int, us as int);
      SplitTimeUnique(t, ClockOf(t), Clock(h as int, m as int, s as int, ms as int, us as int));
      if us != 0 {
        more := more + [IntText(us as int) + UnitText(Micro)];
      }
    } else {
      SplitTimeUnique(0, ClockOf(0), Clock(0, 0, 0, 0, 0));
    }
  }

  method IntervalToStr(iv: Interval) returns (text: string)
    ensures text == IntervalText(iv)
  {
    ShownTime(Parts(iv));
    assert Parts(iv)[..3] == DateParts(iv.months as int, iv.days as int);
    assert Parts(iv)[3..] == TimeParts(iv.micros as int);
    var parts := DateToParts(iv);
    parts := TimeToParts(parts, iv.micros);
    if |parts| == 0 {
      return "0";
    }
    return Join(parts, ' ');
  }

  // ---------- The reader

  datatype Amount = Amount(months: int, days: int, micros: int)

  /** How much of each unit has been read. */
  datatype Tally = Tally(y: int, mo: int, d: int, h: int, m: int, s: int, ms: int, us: int)

  const NOTHING := Tally(0, 0, 0, 0, 0, 0, 0, 0)

  function Weigh(t: Tally): Amount {
    Amount(12 * t.y + t.mo, t.d, t.h * HOUR + t.m * MIN + t.s * SEC + t.ms * MSEC + t.us)
  }

  /** How many digits `s` starts with. */
  function Digits(s: string): (n: nat)
    ensures n <= |s| && AllDigits(s[..n]) && (n < |s| ==> !IsDigit(s[n]))
  {
    if s == "" || !IsDigit(s[0]) then 0 else
      assert forall i :: 0 < i < 1 + Digits(s[1..]) ==> s[i] == s[1..][i - 1];
      1 + Digits(s[1..])
  }

  function ReadUnit(s: string): Option<Unit> {
    if s == "y" then Some(Year)
    else if s == "mo" then Some(Month)
    else if s == "d" then Some(Day)
    else if s == "h" then Some(Hour)
    else if s == "m" then Some(Minute)
    else if s == "s" then Some(Second)
    else if s == "ms" then Some(Milli)
    else if s == "\U{03bc}s" then Some(Micro)
    else None
  }

  lemma ReadUnitText(unit: Unit)
    ensures ReadUnit(UnitText(unit)) == Some(unit)
    ensures UnitText(unit) != "" && !IsDigit(UnitText(unit)[0]) && ' ' !in UnitText(unit)
  {
  }

  /** A token: an optional minus, digits, and a unit. */
  function ReadPart(s: string): Option<Part> {
    var body := if s != "" && s[0] == '-' then s[1..] else s;
    var n := Digits(body);
    var unit := ReadUnit(body[n..]);
    if n == 0 || unit.None? then None
    else Some(Part(if body == s then Number(body[..n]) else 0 - Number(body[..n]), unit.value))
  }

  function Add(t: Tally, p: Part): Tally {
    match p.unit
    case Year => t.(y := t.y + p.value)
    case Month => t.(mo := t.mo + p.value)
    case Day => t.(d := t.d + p.value)
    case Hour => t.(h := t.h + p.value)
    case Minute => t.(m := t.m + p.value)
    case Second => t.(s := t.s + p.value)
    case Milli => t.(ms := t.ms + p.value)
    case Micro => t.(us := t.us + p.value)
  }

  /** The tokens added up, unit by unit. */
  function ReadAll(tokens: seq<string>): Option<Tally> {
    if tokens == [] then Some(NOTHING)
    else match ReadAll(tokens[..|tokens| - 1])
      case None => None
      case Some(t) =>
        match ReadPart(tokens[|tokens| - 1])
        case None => None
        case Some(p) => Some(Add(t, p))
  }

  function ReadInterval(s: string): Option<Amount> {
    match if s == "0" then Some(NOTHING) else ReadAll(Split(s, ' '))
    case None => None
    case Some(t) => Some(Weigh(t))
  }

  lemma {:induction false} DigitsOf(a: string, b: string)
    requires AllDigits(a) && b != "" && !IsDigit(b[0])
    ensures Digits(a + b) == |a|
    decreases |a|
  {
    if a != "" {
      assert (a + b)[1..] == a[1..] + b && (a + b)[0] == a[0] && IsDigit(a[0]);
      DigitsOf(a[1..], b);
      assert Digits(a + b) == 1 + Digits((a + b)[1..]);
    } else {
      assert a + b == b;
    }
  }

  lemma ReadPartText(p: Part)
    ensures ReadPart(PartText(p)) == Some(p)
    ensures ' ' !in PartText(p) && |PartText(p)| >= 2
  {
    var n := if p.value < 0 then -p.value else p.value;
    var unit := UnitText(p.unit);
    var body := NatText(n) + unit;
    ReadUnitText(p.unit);
    DigitsOf(NatText(n), unit);
    NumberOfNatText(n);
    assert body[..|NatText(n)|] == NatText(n) && body[|NatText(n)|..] == unit;
    assert ' ' !in NatText(n);
    if p.value < 0 {
      assert PartText(p)[1..] == body;
    } else {
      assert PartText(p) == body && body[0] == NatText(n)[0];
    }
  }

  /** The components added up, zero or not. */
  ghost function Sum(ps: seq<Part>): Tally {
    if ps == [] then NOTHING else Add(Sum(ps[..|ps| - 1]), ps[|ps| - 1])
  }

  lemma ReadGrown(parts: seq<string>, p: Part, t: Tally)
    requires ReadAll(parts) == Some(t)
    ensures ReadAll(Grown(parts, p)) == Some(Add(t, p))
  {
    if p.value != 0 {
      ReadPartText(p);
      assert (parts + [PartText(p)])[..|parts|] == parts;
    }
  }

  lemma {:induction false} ReadShown(ps: seq<Part>)
    ensures ReadAll(Shown(ps)) == Some(Sum(ps))
    decreases |ps|
  {
    if ps != [] {
      ReadShown(ps[..|ps| - 1]);
      ReadGrown(Shown(ps[..|ps| - 1]), ps[|ps| - 1], Sum(ps[..|ps| - 1]));
    }
  }

  lemma {:induction false} ShownTokens(ps: seq<Part>)
    ensures forall t :: t in Shown(ps) ==> ' ' !in t && |t| >= 2
    decreases |ps|
  {
    if ps != [] {
      ShownTokens(ps[..|ps| - 1]);
      ReadPartText(ps[|ps| - 1]);
    }
  }

  lemma SumStep(ps: seq<Part>, k: nat)
    requires k < |ps|
    ensures Sum(ps[..k + 1]) == Add(Sum(ps[..k]), ps[k])
  {
    assert ps[..k + 1][..k] == ps[..k];
  }

  lemma SumOfEight(ps: seq<Part>)
    requires |ps| == 8 && ps[0].unit == Year && ps[1].unit == Month && ps[2].unit == Day && ps[3].unit == Hour
    requires ps[4].unit == Minute && ps[5].unit == Second && ps[6].unit == Milli && ps[7].unit == Micro
    ensures Sum(ps) == Tally(ps[0].value, ps[1].value, ps[2].value, ps[3].value,
                             ps[4].value, ps[5].value, ps[6].value, ps[7].value)
  {
    assert ps[..0] == [];
    SumStep(ps, 0);
    SumStep(ps, 1);
    SumStep(ps, 2);
    SumStep(ps, 3);
    SumStep(ps, 4);
    SumStep(ps, 5);
    SumStep(ps, 6);
    SumStep(ps, 7);
    assert ps[..8] == ps;
  }

  /** Tokens joined by spaces split into those tokens, and are never "0". */
  lemma SplitJoined(shown: seq<string>)
    requires shown != [] && forall x :: x in shown ==> ' ' !in x && |x| >= 2
    ensures Split(Join(shown, ' '), ' ') == shown && Join(shown, ' ') != "0"
  {
    SplitOfJoin(shown, ' ');
    assert shown[0] in shown;
  }

  lemma ReadSplit(s: string, tokens: seq<string>)
    requires s != "0" && Split(s, ' ') == tokens && ReadAll(tokens).Some?
    ensures ReadInterval(s) == Some(Weigh(ReadAll(tokens).value))
  {
  }

  lemma WeighParts(iv: Interval)
    ensures Weigh(Sum(Parts(iv))) == Amount(iv.months as int, iv.days as int, iv.micros as int)
  {
    SumOfEight(Parts(iv));
  }

  /** Reading what was printed gives back the interval. */
  lemma RoundTrip(iv: Interval)
    ensures ReadInterval(IntervalText(iv)) == Some(Amount(iv.months as int, iv.days as int, iv.micros as int))
  {
    WeighParts(iv);
    ReadPrinted(Parts(iv));
  }

  lemma ReadPrinted(ps: seq<Part>)
    ensures ReadInterval(if Shown(ps) == [] then "0" else Join(Shown(ps), ' ')) == Some(Weigh(Sum(ps)))
  {
    ReadShown(ps);
    ShownTokens(ps);
    if Shown(ps) != [] {
      SplitJoined(Shown(ps));
      ReadSplit(Join(Shown(ps), ' '), Shown(ps));
    }
  }

  /** Different intervals print differently. */
  lemma PrintingIsInjective(a: Interval, b: Interval)
    ensures IntervalText(a) == IntervalText(b) <==> a == b
  {
    RoundTrip(a);
    RoundTrip(b);
  }

  lemma ZeroPrints()
    ensures IntervalText(Interval(0, 0, 0)) == "0"
  {
    var ps := Parts(Interval(0, 0, 0));
    SplitTimeUnique(0, ClockOf(0), Clock(0, 0, 0, 0, 0));
    ShownDate(ps);
    ShownTime(ps);
  }

  /** Only the zero interval prints as "0". */
  lemma ZeroText(iv: Interval)
    ensures IntervalText(iv) == "0" <==> iv == Interval(0, 0, 0)
  {
    ZeroPrints();
    PrintingIsInjective(iv, Interval(0, 0, 0));
  }

  /** The components of every interval: they add up, keep the sign of their field and stay below their radix. */
  lemma Decomposition(iv: Interval)
    ensures var ps := Parts(iv);
            && SplitsMonths(iv.months as int, ps[0].value, ps[1].value) && ps[2].value == iv.days as int
            && SplitsTime(iv.micros as int, Clock(ps[3].value, ps[4].value, ps[5].value, ps[6].value, ps[7].value))
  {
  }

  // ---------- The tokens, one by one

  const LETTERS := ["y", "mo", "d", "h", "m", "s", "ms", "\U{03bc}s"]

  /** A minus for negative values, the decimal numeral without leading zeros, and the letters of the unit. */
  ghost predicate TokenOf(token: string, value: int, letters: string) {
    exists digits: string ::
      && digits != "" && AllDigits(digits) && digits[0] != '0'
      && Number(digits) == (if value < 0 then -value else value)
      && token == (if value < 0 then "-" else "") + digits + letters
  }

  lemma PartIsToken(p: Part)
    requires p.value != 0
    ensures TokenOf(PartText(p), p.value, UnitText(p.unit))
  {
    var n := if p.value < 0 then -p.value else p.value;
    var digits := NatText(n);
    NumberOfNatText(n);
    NoLeadingZero(n);
    assert PartText(p) == (if p.value < 0 then "-" else "") + digits + UnitText(p.unit);
  }

  /** The i-th token is the component number `ranks[i]`: increasing, and all that are not zero. */
  ghost predicate Tokens(tokens: seq<string>, ranks: seq<nat>, values: seq<int>) {
    && |tokens| == |ranks| && |values| <= 8
    && (forall i, j :: 0 <= i < j < |ranks| ==> ranks[i] < ranks[j])
    && (forall i :: 0 <= i < |ranks| ==>
          ranks[i] < |values| && values[ranks[i]] != 0 && TokenOf(tokens[i], values[ranks[i]], LETTERS[ranks[i]]))
    && (forall k :: 0 <= k < |values| && values[k] != 0 ==> k in ranks)
  }

  ghost function Values(ps: seq<Part>): (vs: seq<int>)
    ensures |vs| == |ps| && forall i :: 0 <= i < |ps| ==> vs[i] == ps[i].value
  {
    seq(|ps|, i requires 0 <= i < |ps| => ps[i].value)
  }

  lemma {:induction false} ShownAreTokens(ps: seq<Part>) returns (ranks: seq<nat>)
    requires |ps| <= 8 && forall i :: 0 <= i < |ps| ==> UnitText(ps[i].unit) == LETTERS[i]
    ensures Tokens(Shown(ps), ranks, Values(ps))
    decreases |ps|
  {
    ranks := [];
    if ps != [] {
      var last := |ps| - 1;
      var less := ShownAreTokens(ps[..last]);
      ranks := less;
      if ps[last].value != 0 {
        PartIsToken(ps[last]);
        ranks := less + [last];
      }
      forall k | 0 <= k < |ps| && ps[k].value != 0
        ensures k in ranks
      {
        assert k < last ==> Values(ps[..last])[k] != 0 && k in less;
        assert k == last ==> ranks[|less|] == k;
      }
    }
  }

  /** Eight numbers that add up to the interval, the parts of a field with its sign and below their radix. */
  ghost predicate Components(iv: Interval, v: seq<int>) {
    && |v| == 8
    && v[0] * 12 + v[1] == iv.months as int && v[2] == iv.days as int
    && v[3] * 3_600_000_000 + v[4] * 60_000_000 + v[5] * 1_000_000 + v[6] * 1000 + v[7] == iv.micros as int
    && -12 < v[1] < 12 && -60 < v[4] < 60 && -60 < v[5] < 60 && -1000 < v[6] < 1000 && -1000 < v[7] < 1000
    && (iv.months >= 0 ==> v[0] >= 0 && v[1] >= 0) && (iv.months <= 0 ==> v[0] <= 0 && v[1] <= 0)
    && (iv.micros >= 0 ==> v[3] >= 0 && v[4] >= 0 && v[5] >= 0 && v[6] >= 0 && v[7] >= 0)
    && (iv.micros <= 0 ==> v[3] <= 0 && v[4] <= 0 && v[5] <= 0 && v[6] <= 0 && v[7] <= 0)
  }

  lemma PartsAreComponents(iv: Interval)
    ensures Components(iv, Values(Parts(iv)))
  {
    Decomposition(iv);
  }

  /**
    Split at its spaces, the text of an interval other than zero has one token for each of
    its components that is not zero, from years to microseconds.
   */
  lemma TextTokens(iv: Interval) returns (ranks: seq<nat>, v: seq<int>)
    requires iv != Interval(0, 0, 0)
    ensures Components(iv, v) && Tokens(Split(IntervalText(iv), ' '), ranks, v)
  {
    var ps := Parts(iv);
    v := Values(ps);
    PartsAreComponents(iv);
    UnitsInOrder(iv);
    ranks := ShownAreTokens(ps);
    ShownTokens(ps);
    ZeroText(iv);
    SplitJoined(Shown(ps));
  }

  lemma UnitsInOrder(iv: Interval)
    ensures forall i :: 0 <= i < 8 ==> UnitText(Parts(iv)[i].unit) == LETTERS[i]
  {
  }
}
