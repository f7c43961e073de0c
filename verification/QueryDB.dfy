/** The query table of `internal/querydb` with its query IDs; interleavings are the subject of QueryProtocol. */
module QueryDB {
  import opened GoTypes
  import opened Wrappers
  import opened Hex
  import A = Authn

  type ID = Uint32

  datatype ParseError = ErrPrefix | ErrSyntax | ErrRange

  /** The text of an ID: "Q_" and eight hexadecimal digits. */
  function Text(id: ID): string { "Q_" + Padded(id, 8) }

  /** `s` is "Q_" and a numeral below 2^32, of any length and case. */
  predicate Accepted(s: string) {
    "Q_" <= s && |s| > 2 && AllHex(s[2..]) && Number(s[2..]) < 0x1_0000_0000
  }

  /** When the digits before position `i` stay in range and no digit follows, no numeral at the front is out of range. */
  lemma NoneOutOfRange(s: string, i: nat)
    requires i <= |s| && AllHex(s[..i]) && Number(s[..i]) < 0x1_0000_0000 && (i == |s| || !IsHex(s[i]))
    ensures forall k :: 0 < k <= |s| && AllHex(s[..k]) ==> Number(s[..k]) < 0x1_0000_0000
  {
    forall k | 0 < k <= |s| && AllHex(s[..k])
      ensures Number(s[..k]) < 0x1_0000_0000
    {
      assert k <= i;
      assert s[..k] == s[..i][..k];
      PrefixNoLarger(s[..i], k);
    }
  }

  /** `strconv.ParseUint(s, 16, 32)`: reads digit by digit and stops at the first that does not fit. */
  method ParseUint(s: string) returns (r: Result<ID, ParseError>)
    ensures r.Ok? <==> s != "" && AllHex(s) && Number(s) < 0x1_0000_0000
    ensures r.Ok? ==> r.value == Number(s)
    ensures r == Err(ErrRange) <==> exists k :: 0 < k <= |s| && AllHex(s[..k]) && Number(s[..k]) >= 0x1_0000_0000
    ensures r != Err(ErrPrefix)
  {
    if s == "" {
      return Err(ErrSyntax);
    }
    var n: ID := 0;
    for i := 0 to |s|
      invariant AllHex(s[..i]) && n == Number(s[..i])
    {
      if !IsHex(s[i]) {
        NoneOutOfRange(s, i);
        return Err(ErrSyntax);
      }
      assert s[..i + 1][..i] == s[..i];
      var next := n * 16 + Value(s[i]);
      if next >= 0x1_0000_0000 {
        assert AllHex(s[..i + 1]) && Number(s[..i + 1]) == next;
        if AllHex(s) {
          PrefixNoLarger(s, i + 1);
        }
        return Err(ErrRange);
      }
      n := next;
    }
    assert s[..|s|] == s;
    NoneOutOfRange(s, |s|);
    return Ok(n);
  }

  method ParseID(s: string) returns (r: Result<ID, ParseError>)
    ensures r.Ok? <==> Accepted(s)
    ensures r.Ok? ==> r.value == Number(s[2..])
    ensures r == Err(ErrPrefix) <==> !("Q_" <= s)
  {
    if !("Q_" <= s) {
      return Err(ErrPrefix);
    }
    r := ParseUint(s[2..]);
  }

  /** Every ID survives printing and parsing. */
  lemma TextRoundTrip(id: ID)
    ensures Accepted(Text(id)) && Number(Text(id)[2..]) == id && |Text(id)| == 10 && Text(id)[..2] == "Q_"
  {
    assert Text(id)[2..] == Padded(id, 8);
    assert Pow16(8) == 0x1_0000_0000;
    NumberOfPadded(id, 8);
  }

  /** Of all texts accepted for an ID exactly one has eight lower-case digits: the one printed. */
  lemma TextIsCanonical(s: string)
    requires Accepted(s)
    ensures Text(Number(s[2..])) == s <==> |s| == 10 && AllLower(s[2..])
  {
    var id := Number(s[2..]);
    assert Text(id)[2..] == Padded(id, 8);
    if |s| == 10 && AllLower(s[2..]) {
      PaddedOfNumber(s[2..]);
      assert s == "Q_" + s[2..];
    }
  }

  // ---------- The table

  class Query {
    const id: ID
    const db: Database
    var cancels: nat

    constructor (id: ID, db: Database)
      ensures this.id == id && this.db == db && cancels == 0
    {
      this.id, this.db, cancels := id, db, 0;
    }

    /** Delists whatever has this query's ID, and cancels this query only if something was listed. */
    method Close()
      modifies this, db
      ensures db.queries == old(db.queries) - {id} && (old(db.Valid()) ==> db.Valid())
      ensures cancels == old(cancels) + if id in old(db.queries) then 1 else 0
    {
      var found := db.Remove(id);
      if !found {
        return;
      }
      cancels := cancels + 1;
    }
  }

  class Database {
    var queries: map<ID, Query>

    /** Each entry is a query of this table under its own ID. */
    ghost predicate Valid()
      reads this
    {
      forall id :: id in queries ==> queries[id].id == id && queries[id].db == this
    }

    constructor ()
      ensures Valid() && queries == map[]
    {
      queries := map[];
    }

    /** An ID no listed query has: the first such one drawn. */
    method NewID(draws: seq<ID>) returns (id: ID)
      requires exists i :: 0 <= i < |draws| && draws[i] !in queries
      ensures exists i :: 0 <= i < |draws| && draws[i] == id && forall j :: 0 <= j < i ==> draws[j] in queries
      ensures id !in queries
    {
      var i := 0;
      while draws[i] in queries
        invariant i < |draws| && forall j :: 0 <= j < i ==> draws[j] in queries
        decreases |draws| - i
      {
        i := i + 1;
      }
      id := draws[i];
    }

    method Add(draws: seq<ID>) returns (q: Query)
      requires exists i :: 0 <= i < |draws| && draws[i] !in queries
      modifies this
      ensures fresh(q) && q.db == this && q.cancels == 0 && q.id !in old(queries) && q.id in draws
      ensures queries == old(queries)[q.id := q] && (old(Valid()) ==> Valid())
    {
      var id := NewID(draws);
      q := new Query(id, this);
      queries := queries[id := q];
    }

    method Remove(id: ID) returns (found: bool)
      modifies this
      ensures found <==> id in old(queries)
      ensures queries == old(queries) - {id} && (old(Valid()) ==> Valid())
    {
      if id !in queries {
        return false;
      }
      queries := queries - {id};
      return true;
    }

    method Find(id: ID) returns (q: Option<Query>)
      ensures q.Some? <==> id in queries
      ensures q.Some? ==> q.value == queries[id]
    {
      q := if id in queries then Some(queries[id]) else None;
    }

    /** Every listed query, once for each ID. */
    method Queries() returns (out: seq<Query>)
      ensures |out| == |queries| && forall q :: q in out <==> q in queries.Values
    {
      out := [];
      ghost var done: set<ID> := {};
      var todo := queries.Keys;
      while todo != {}
        invariant done + todo == queries.Keys && done !! todo && |out| == |done|
        invariant forall q :: q in out <==> exists id :: id in done && queries[id] == q
        decreases todo
      {
        var id :| id in todo;
        todo := todo - {id};
        done := done + {id};
        out := out + [queries[id]];
      }
    }
  }

  /**
    Interrupting a query by its ID text, as the HTTP handler does for a request that has
    presented `entry` or none; the status is the one it answers with.
   */
  method Interrupt(db: Database, authn: Option<A.Authenticator>, withoutAuthz: bool, entry: Option<A.Entry>, s: string)
    returns (status: nat)
    requires db.Valid()
    modifies db, db.queries.Values
    ensures db.Valid()
    ensures status == if authn.Some? && entry.None? && !withoutAuthz then 401
                      else if !Accepted(s) then 400
                      else if Number(s[2..]) !in old(db.queries) then 404
                      else 204
    ensures db.queries == if status == 204 then old(db.queries) - {Number(s[2..])} else old(db.queries)
    ensures forall q :: q in old(db.queries.Values) ==>
              q.cancels == old(q.cancels) + if status == 204 && q.id == Number(s[2..]) then 1 else 0
  {
    var authz := A.CheckAuthz(authn, withoutAuthz, entry);
    if authz.Err? {
      return authz.error;
    }
    var id := ParseID(s);
    if id.Err? {
      return 400;
    }
    var q := db.Find(id.value);
    if q.None? {
      return 404;
    }
    assert q.value in db.queries.Values;
    q.value.Close();
    return 204;
  }
}
