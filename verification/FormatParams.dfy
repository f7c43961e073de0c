/** The format string of a request, `format,name:value,...`, and the writer it selects (`internal/formatter`). */
module FormatParams {
  import opened Wrappers
  import opened Text

  type Params = map<string, string>

  /** `strings.SplitN(s, ":", 2)`: the text before the first colon, and what follows it if there is one. */
  function Cut(s: string): (r: (string, Option<string>))
    ensures ':' !in r.0
    ensures s == r.0 + if r.1.Some? then ":" + r.1.value else ""
  {
    if s == "" then ("", None)
    else if s[0] == ':' then ("", Some(s[1..]))
    else
      var rest := Cut(s[1..]);
      ([s[0]] + rest.0, rest.1)
  }

  lemma {:induction false} CutOfPair(k: string, v: string)
    requires ':' !in k
    ensures Cut(k + ":" + v) == (k, Some(v))
    decreases |k|
  {
    var s := k + ":" + v;
    if k == "" {
      assert s[1..] == v;
    } else {
      assert s[1..] == k[1..] + ":" + v;
      CutOfPair(k[1..], v);
      assert k == [k[0]] + k[1..];
    }
  }

  function ValueOf(part: string): string {
    var value := Cut(part).1;
    if value.Some? then value.value else ""
  }

  /** The parameters of a list of parts, each later one taking precedence; parts without a name are skipped. */
  function Fold(parts: seq<string>): Params {
    if parts == [] then map[]
    else
      var last := parts[|parts| - 1];
      var m := Fold(parts[..|parts| - 1]);
      if Cut(last).0 == "" then m else m[Cut(last).0 := ValueOf(last)]
  }

  /** A parameter is set exactly when some part has its name, and the empty name has none. */
  lemma {:induction false} FoldNames(parts: seq<string>, k: string)
    ensures k in Fold(parts) <==> k != "" && exists i :: 0 <= i < |parts| && Cut(parts[i]).0 == k
    decreases |parts|
  {
    if parts != [] {
      FoldNames(parts[..|parts| - 1], k);
    }
  }

  /** Its value is that of the last part with its name. */
  lemma {:induction false} FoldLastWins(parts: seq<string>, k: string, i: nat)
    requires i < |parts| && k != "" && Cut(parts[i]).0 == k
    requires forall j :: i < j < |parts| ==> Cut(parts[j]).0 != k
    ensures k in Fold(parts) && Fold(parts)[k] == ValueOf(parts[i])
    decreases |parts|
  {
    if i < |parts| - 1 {
      FoldLastWins(parts[..|parts| - 1], k, i);
    }
  }

  function FormatOf(s: string): string { Split(s, ',')[0] }

  function ParamsOf(s: string): Params { Fold(Split(s, ',')[1..]) }

  datatype Error = ErrUnsupportedFormat | ErrParams

  /** Parses the format string and lets the factory of the format, found by its lower-case name, create a writer. */
  method FindAndCreate<W>(s: string, factories: map<string, Params -> Option<W>>, lower: string -> string)
    returns (r: Result<W, Error>)
    ensures r == if lower(FormatOf(s)) !in factories then Err(ErrUnsupportedFormat)
                 else var w := factories[lower(FormatOf(s))](ParamsOf(s));
                      if w.None? then Err(ErrParams) else Ok(w.value)
  {
    var parts := Split(s, ',');
    var format := parts[0];
    var params: Params := map[];
    ghost var rest := parts[1..];
    for i := 1 to |parts|
      invariant params == Fold(rest[..i - 1])
    {
      assert rest[..i][..i - 1] == rest[..i - 1] && rest[i - 1] == parts[i];
      var p := Cut(parts[i]);
      if p.0 == "" {
        continue;
      }
      if p.1.None? {
        params := params[p.0 := ""];
        continue;
      }
      params := params[p.0 := p.1.value];
    }
    assert rest[..|parts| - 1] == rest;
    if lower(format) !in factories {
      return Err(ErrUnsupportedFormat);
    }
    var w := factories[lower(format)](params);
    if w.None? {
      return Err(ErrParams);
    }
    return Ok(w.value);
  }

  // ---------- Round trip

  function Pairs(kvs: seq<(string, string)>): (ps: seq<string>)
    ensures |ps| == |kvs| && forall i :: 0 <= i < |kvs| ==> ps[i] == kvs[i].0 + ":" + kvs[i].1
  {
    seq(|kvs|, i requires 0 <= i < |kvs| => kvs[i].0 + ":" + kvs[i].1)
  }

  /** The format string as the documentation writes it. */
  function Print(format: string, kvs: seq<(string, string)>): string { Join([format] + Pairs(kvs), ',') }

  /** `kvs` lists the entries of `m`, in any order. */
  ghost predicate Lists(kvs: seq<(string, string)>, m: Params) {
    && (forall i :: 0 <= i < |kvs| ==> kvs[i].0 in m && m[kvs[i].0] == kvs[i].1)
    && (forall k :: k in m ==> (k, m[k]) in kvs)
  }

  lemma FoldOfPairs(kvs: seq<(string, string)>, m: Params)
    requires Lists(kvs, m) && forall k :: k in m ==> k != "" && ':' !in k
    ensures Fold(Pairs(kvs)) == m
  {
    forall k
      ensures k in Fold(Pairs(kvs)) <==> k in m
      ensures k in m ==> k in Fold(Pairs(kvs)) && Fold(Pairs(kvs))[k] == m[k]
    {
      FoldAt(kvs, m, k);
    }
  }

  lemma {:induction false} FoldAt(kvs: seq<(string, string)>, m: Params, k: string)
    requires forall i :: 0 <= i < |kvs| ==> kvs[i].0 in m && m[kvs[i].0] == kvs[i].1
    requires forall k :: k in m ==> k != "" && ':' !in k
    ensures k in Fold(Pairs(kvs)) <==> exists i :: 0 <= i < |kvs| && kvs[i].0 == k
    ensures k in Fold(Pairs(kvs)) ==> k in m && Fold(Pairs(kvs))[k] == m[k]
    decreases |kvs|
  {
    if kvs != [] {
      var last := kvs[|kvs| - 1];
      FoldAt(kvs[..|kvs| - 1], m, k);
      CutOfPair(last.0, last.1);
      assert Pairs(kvs)[..|kvs| - 1] == Pairs(kvs[..|kvs| - 1]);
    }
  }

  /** Any format without a comma and any parameters with plain names and comma-free values come back from the text. */
  lemma RoundTrip(format: string, m: Params, kvs: seq<(string, string)>)
    requires ',' !in format && Lists(kvs, m)
    requires forall k :: k in m ==> k != "" && ',' !in k && ':' !in k && ',' !in m[k]
    ensures FormatOf(Print(format, kvs)) == format && ParamsOf(Print(format, kvs)) == m
  {
    var parts := [format] + Pairs(kvs);
    forall p | p in parts
      ensures ',' !in p
    {
    }
    SplitOfJoin(parts, ',');
    assert parts[1..] == Pairs(kvs);
    FoldOfPairs(kvs, m);
  }

  // ---------- Arbitrary text

  /** The part is the name alone, or the name, a colon and the value; the name has no colon. */
  ghost predicate Says(part: string, name: string, value: string) {
    ':' !in name && (part == name + ":" + value || (part == name && value == ""))
  }

  lemma CutMeans(part: string, name: string)
    ensures Cut(part).0 == name <==> exists value :: Says(part, name, value)
    ensures forall value :: Says(part, name, value) ==> value == ValueOf(part)
  {
    if Cut(part).0 == name {
      assert Says(part, name, ValueOf(part));
    }
    forall value | Says(part, name, value)
      ensures Cut(part).0 == name && value == ValueOf(part)
    {
      if part == name + ":" + value {
        CutOfPair(name, value);
      } else {
        CutOfName(part);
      }
    }
  }

  lemma {:induction false} CutOfName(s: string)
    requires ':' !in s
    ensures Cut(s) == (s, None)
    decreases |s|
  {
    if s != "" {
      CutOfName(s[1..]);
      assert s == [s[0]] + s[1..];
    }
  }

  /** Some part of the list, the last that names `k`, gives it value `v`. */
  ghost predicate Gives(parts: seq<string>, k: string, v: string) {
    exists i :: 0 <= i < |parts| && Says(parts[i], k, v)
                && forall j, w :: i < j < |parts| ==> !Says(parts[j], k, w)
  }

  /**
    For every text, split at its commas: the first part is the format, and a parameter is
    set, to v, exactly when its name is not empty and the last part that names it says v.
   */
  lemma TextMeans(format: string, parts: seq<string>, k: string, v: string)
    requires ',' !in format && forall p :: p in parts ==> ',' !in p
    ensures var text := Join([format] + parts, ',');
            && FormatOf(text) == format
            && (k in ParamsOf(text) && ParamsOf(text)[k] == v <==> k != "" && Gives(parts, k, v))
  {
    var all := [format] + parts;
    SplitOfJoin(all, ',');
    assert all[1..] == parts;
    FoldGives(parts, k, v);
  }

  lemma {:induction false} FoldGives(parts: seq<string>, k: string, v: string)
    ensures k in Fold(parts) && Fold(parts)[k] == v <==> k != "" && Gives(parts, k, v)
  {
    forall part
      ensures Cut(part).0 == k <==> exists w :: Says(part, k, w)
      ensures forall w :: Says(part, k, w) ==> w == ValueOf(part)
    {
      CutMeans(part, k);
    }
    FoldNames(parts, k);
    if k != "" && Gives(parts, k, v) {
      var i :| 0 <= i < |parts| && Says(parts[i], k, v) && forall j, w :: i < j < |parts| ==> !Says(parts[j], k, w);
      FoldLastWins(parts, k, i);
    }
    if k in Fold(parts) {
      var i := LastNamed(parts, k);
      FoldLastWins(parts, k, i);
      assert Says(parts[i], k, ValueOf(parts[i]));
    }
  }

  lemma {:induction false} LastNamed(parts: seq<string>, k: string) returns (i: nat)
    requires exists i :: 0 <= i < |parts| && Cut(parts[i]).0 == k
    ensures i < |parts| && Cut(parts[i]).0 == k && forall j :: i < j < |parts| ==> Cut(parts[j]).0 != k
    decreases |parts|
  {
    i := |parts| - 1;
    if Cut(parts[i]).0 != k {
      i := LastNamed(parts[..i], k);
    }
  }

  /** Every text is such a list of parts. */
  lemma TextIsParts(s: string)
    ensures s == Join([FormatOf(s)] + Split(s, ',')[1..], ',')
    ensures forall p :: p in [FormatOf(s)] + Split(s, ',')[1..] ==> ',' !in p
  {
    JoinOfSplit(s, ',');
    assert [FormatOf(s)] + Split(s, ',')[1..] == Split(s, ',');
  }
}
