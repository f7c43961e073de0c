/** File sizes in a directory listing: `formatSize` of `internal/fileserver`. */
module SizeText {
  import opened GoTypes
  import opened Text

  const UNITS := ["K", "M", "G", "T"]

  function Power(exp: nat): (p: nat)
    ensures p > 0
  {
    if exp == 0 then 1024 else 1024 * Power(exp - 1)
  }

  /** The largest unit that fits `n`, T at most: the unit is reached, and the next one is not unless there is none. */
  ghost predicate FitsUnit(n: int, exp: nat) {
    exp < 4 && Power(exp) <= n && (exp < 3 ==> n < Power(exp + 1))
  }

  lemma Powers()
    ensures Power(0) == 1024 && Power(1) == 1024 * 1024 && Power(2) == 1024 * 1024 * 1024
    ensures Power(3) == 1024 * 1024 * 1024 * 1024
  {
  }

  /** The text is a plain number below 1024, and otherwise the whole number of units that fit. */
  method FormatSize(n: int64) returns (text: string, ghost exp: nat)
    ensures n < 1024 ==> text == IntText(n as int)
    ensures n >= 1024 ==> FitsUnit(n as int, exp) && text == IntText(n as int / Power(exp)) + UNITS[exp]
    ensures Stands(text, n as int)
  {
    exp := 0;
    if n < 1024 {
      StandsPlain(n as int);
      return IntText(n as int), 0;
    }
    Powers();
    var div: int64, e: nat := 1024, 0;
    while n >= div * 1024 && e < |UNITS| - 1
      invariant e < 4 && div as int == Power(e) <= n as int
      invariant div <= 1024 * 1024 * 1024 * 1024
      decreases 4 - e
    {
      div := div * 1024;
      e := e + 1;
    }
    exp := e;
    StandsInUnits(n as int, exp);
    text := IntText((n / div) as int) + UNITS[e];
  }

  /** The number shown is at least 1, below 1024 unless the unit is T, and what it stands for is within one unit of `n`. */
  lemma ShownNumber(n: int, exp: nat)
    requires FitsUnit(n, exp)
    ensures var q := n / Power(exp); 1 <= q && q * Power(exp) <= n < (q + 1) * Power(exp) && (exp < 3 ==> q < 1024)
  {
    Quotient(n, Power(exp));
  }

  lemma Quotient(n: int, p: nat)
    requires p > 0 && p <= n
    ensures var q := n / p; 1 <= q && q * p <= n < (q + 1) * p && (n < 1024 * p ==> q < 1024)
  {
    var q := n / p;
    assert n == q * p + n % p && (q + 1) * p == q * p + p;
    if q >= 1024 {
      MulAtMost(1024, q, p);
    }
  }

  lemma MulAtMost(a: nat, b: nat, p: nat)
    requires a <= b
    ensures a * p <= b * p
  {
    assert b * p - a * p == (b - a) * p;
  }

  /** A larger size never shows a smaller unit, nor a smaller number of the same unit. */
  lemma Monotone(n: int, exp: nat, n': int, exp': nat)
    requires FitsUnit(n, exp) && FitsUnit(n', exp') && n <= n'
    ensures exp <= exp' && (exp == exp' ==> n / Power(exp) <= n' / Power(exp'))
  {
    Powers();
    if exp == exp' {
      QuotientMonotone(n, n', Power(exp));
    }
  }

  lemma QuotientMonotone(n: int, n': int, p: nat)
    requires 0 <= n <= n' && p > 0
    ensures n / p <= n' / p
  {
    var q, q' := n / p, n' / p;
    assert n == q * p + n % p && n' == q' * p + n' % p;
    if q > q' {
      MulAtLeast(p, q - q');
    }
  }

  // ---------- A reader

  function ReadInt(s: string): int {
    if s != "" && s[0] == '-' && AllDigits(s[1..]) then 0 - Number(s[1..])
    else if AllDigits(s) then Number(s) else 0
  }

  /** What a size text says: the least size it can stand for, and the size of its unit. */
  function ReadSize(text: string): (int, int) {
    if text == "" then (0, 1)
    else
      var init, last := text[..|text| - 1], text[|text| - 1];
      if last == 'K' then (ReadInt(init) * 1024, 1024)
      else if last == 'M' then (ReadInt(init) * 1_048_576, 1_048_576)
      else if last == 'G' then (ReadInt(init) * 1_073_741_824, 1_073_741_824)
      else if last == 'T' then (ReadInt(init) * 1_099_511_627_776, 1_099_511_627_776)
      else (ReadInt(text), 1)
  }

  lemma ReadIntText(n: int)
    ensures ReadInt(IntText(n)) == n && IntText(n) != "" && IsDigit(IntText(n)[|IntText(n)| - 1])
  {
    NumberOfNatText(if n < 0 then -n else n);
    if n < 0 {
      assert IntText(n)[1..] == NatText(-n);
    }
  }

  /** The text as the reader sees it: exact below 1024, otherwise less than one of its units below the size. */
  ghost predicate Stands(text: string, n: int) {
    var (least, unit) := ReadSize(text);
    least <= n < least + unit && (n < 1024 ==> unit == 1)
  }

  lemma StandsPlain(n: int)
    ensures Stands(IntText(n), n)
  {
    ReadIntText(n);
    assert IntText(n)[..|IntText(n)| - 1] + [IntText(n)[|IntText(n)| - 1]] == IntText(n);
  }

  lemma StandsInUnits(n: int, exp: nat)
    requires FitsUnit(n, exp)
    ensures Stands(IntText(n / Power(exp)) + UNITS[exp], n)
    ensures ReadSize(IntText(n / Power(exp)) + UNITS[exp]).1 == Power(exp)
  {
    var q := n / Power(exp);
    ShownNumber(n, exp);
    ReadIntText(q);
    Powers();
    var text := IntText(q) + UNITS[exp];
    assert text[..|text| - 1] == IntText(q);
  }
}
