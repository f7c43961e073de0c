/** Authentication entries, the header index, and who is let through (`internal/authn`, `duckserver`). */
module Authn {
  import opened Wrappers
  import opened Base64
  import opened Bytes
  import opened GoTypes

  datatype User = User(name: Bytes, password: Bytes)

  datatype Entry = Entry(id: Bytes, kind: string, user: Option<User>, token: Option<Bytes>, initQuery: Bytes)

  datatype Error = DuplicatedID(id: Bytes) | NoUser | NoUserName | NoPassword | NoToken | EmptyToken

  const COLON: byte := 58

  function Credentials(u: User): Bytes { u.name + [COLON] + u.password }

  /** The Authorization header that presents an entry, section 2 of RFC 7617; empty when there is none. */
  function HeaderValue(e: Entry): Bytes {
    if e.kind == "basic" && e.user.Some? then Ascii("Basic ") + Encode(Credentials(e.user.value))
    else if e.kind == "bearer" && e.token.Some? then Ascii("Bearer ") + TrimSpace(e.token.value)
    else []
  }

  function Validate(e: Entry): Option<Error> {
    if e.kind == "basic" then
      if e.user.None? then Some(NoUser)
      else if e.user.value.name == [] then Some(NoUserName)
      else if e.user.value.password == [] then Some(NoPassword)
      else None
    else if e.kind == "bearer" then
      if e.token.None? then Some(NoToken)
      else if e.token.value == [] then Some(EmptyToken)
      else None
    else None
  }

  /** `index` maps a header to the position of its entry. */
  datatype Authenticator = Authenticator(entries: seq<Entry>, index: map<Bytes, nat>)

  function IDs(entries: seq<Entry>): set<Bytes> { set e | e in entries :: e.id }

  /** What is wrong with entry `i` as it is reached: its ID was seen before, or else a field. */
  function Fault(entries: seq<Entry>, i: nat): Option<Error>
    requires i < |entries|
  {
    if entries[i].id in IDs(entries[..i]) then Some(DuplicatedID(entries[i].id))
    else Validate(entries[i])
  }

  /** The entries before `n` have no fault. */
  ghost predicate Faultless(entries: seq<Entry>, n: nat)
    requires n <= |entries|
  {
    forall i :: 0 <= i < n ==> Fault(entries, i).None?
  }

  /** Entry `i` has the first fault of the list. */
  ghost predicate FirstFault(entries: seq<Entry>, i: nat, error: Error) {
    i < |entries| && Faultless(entries, i) && Fault(entries, i) == Some(error)
  }

  /** The headers of the entries, in order; an entry without one has the empty header. */
  function Headers(entries: seq<Entry>): (hs: seq<Bytes>)
    ensures |hs| == |entries| && forall i :: 0 <= i < |entries| ==> hs[i] == HeaderValue(entries[i])
  {
    seq(|entries|, i requires 0 <= i < |entries| => HeaderValue(entries[i]))
  }

  /** The simple form of a lookup: a scan from the end for `h`; the empty header is nobody's. */
  function LastMatch(headers: seq<Bytes>, h: Bytes): (r: Option<nat>)
    ensures r.Some? ==> r.value < |headers|
  {
    if headers == [] then None
    else
      var last := |headers| - 1;
      if headers[last] == h && h != [] then Some(last) else LastMatch(headers[..last], h)
  }

  lemma {:induction false} LastMatchIsLast(headers: seq<Bytes>, h: Bytes)
    ensures LastMatch(headers, h).Some? <==> h != [] && h in headers
    ensures LastMatch(headers, h).Some? ==>
              var n := LastMatch(headers, h).value;
              headers[n] == h && forall i :: n < i < |headers| ==> headers[i] != h
    decreases |headers|
  {
    if headers != [] {
      var last := |headers| - 1;
      LastMatchIsLast(headers[..last], h);
      assert headers == headers[..last] + [headers[last]];
    }
  }

  function Lookup(index: map<Bytes, nat>, h: Bytes): Option<nat> { if h in index then Some(index[h]) else None }

  ghost predicate Agrees(index: map<Bytes, nat>, headers: seq<Bytes>) {
    forall x {:trigger Lookup(index, x)} :: Lookup(index, x) == LastMatch(headers, x)
  }

  /** The index of an authenticator answers every header as a scan of its entries does. */
  ghost predicate Indexed(a: Authenticator) { Agrees(a.index, Headers(a.entries)) }

  /** One more header, entered unless it is empty. */
  lemma AgreesStep(index: map<Bytes, nat>, headers: seq<Bytes>, i: nat)
    requires i < |headers| && Agrees(index, headers[..i])
    ensures Agrees(if headers[i] != [] then index[headers[i] := i] else index, headers[..i + 1])
  {
    var next := if headers[i] != [] then index[headers[i] := i] else index;
    assert headers[..i + 1][..i] == headers[..i];
    forall x
      ensures Lookup(next, x) == LastMatch(headers[..i + 1], x)
    {
      assert Lookup(index, x) == LastMatch(headers[..i], x);
    }
  }

  /** Loads an entry list: stops at the first fault, otherwise indexes every entry that has a header. */
  method ReadAuthenticator(entries: seq<Entry>) returns (r: Result<Authenticator, Error>)
    ensures r.Ok? <==> Faultless(entries, |entries|)
    ensures r.Ok? ==> r.value.entries == entries && Indexed(r.value)
    ensures r.Err? ==> exists i :: FirstFault(entries, i, r.error)
  {
    var ids: set<Bytes> := {};
    var index: map<Bytes, nat> := map[];
    ghost var headers := Headers(entries);
    for i := 0 to |entries|
      invariant ids == IDs(entries[..i])
      invariant Faultless(entries, i)
      invariant Agrees(index, headers[..i])
    {
      var e := entries[i];
      assert entries[..i + 1] == entries[..i] + [e];
      AgreesStep(index, headers, i);
      if e.id in ids {
        assert FirstFault(entries, i, DuplicatedID(e.id));
        return Err(DuplicatedID(e.id));
      }
      ids := ids + {e.id};
      var err := Validate(e);
      assert Fault(entries, i) == err;
      if err.Some? {
        assert FirstFault(entries, i, err.value);
        return Err(err.value);
      }
      var x := HeaderValue(e);
      if x != [] {
        index := index[x := i];
      }
    }
    assert headers[..|entries|] == headers;
    return Ok(Authenticator(entries, index));
  }

  /** Every header of the index leads to an entry. */
  ghost predicate InRange(a: Authenticator) {
    forall x :: x in a.index ==> a.index[x] < |a.entries|
  }

  /** The entry a request's Authorization header selects; a missing header reads as the empty one. */
  function ExtractEntry(a: Option<Authenticator>, header: Bytes): Option<Entry>
    requires a.Some? ==> InRange(a.value)
  {
    if a.None? || header !in a.value.index then None else Some(a.value.entries[a.value.index[header]])
  }

  /** `checkAuthz`: Ok carries the ID put in the response, if any; Err is the status. */
  function CheckAuthz(a: Option<Authenticator>, withoutAuthz: bool, entry: Option<Entry>): Result<Option<Bytes>, nat> {
    if a.None? then Ok(None)
    else if entry.Some? then Ok(Some(entry.value.id))
    else if withoutAuthz then Ok(None)
    else Err(401)
  }

  /** What becomes of a request with header `h`. */
  function Answer(a: Authenticator, withoutAuthz: bool, h: Bytes): Result<Option<Bytes>, nat>
    requires InRange(a)
  {
    CheckAuthz(Some(a), withoutAuthz, ExtractEntry(Some(a), h))
  }

  lemma LastMatchAt(headers: seq<Bytes>, h: Bytes, i: nat)
    requires i < |headers| && h != [] && headers[i] == h && h !in headers[i + 1..]
    ensures LastMatch(headers, h) == Some(i)
  {
    LastMatchIsLast(headers, h);
    assert forall n :: i < n < |headers| ==> headers[n] in headers[i + 1..];
  }

  lemma IndexInRange(a: Authenticator)
    requires Indexed(a)
    ensures InRange(a)
  {
    forall x | x in a.index
      ensures a.index[x] < |a.entries|
    {
      assert Lookup(a.index, x) == LastMatch(Headers(a.entries), x);
    }
  }

  /** With an authenticator loaded a request passes if and only if its header presents an entry. */
  lemma AuthorizedIff(a: Authenticator, h: Bytes)
    requires Indexed(a)
    ensures InRange(a)
    ensures Answer(a, false, h).Ok? <==> h != [] && h in Headers(a.entries)
  {
    IndexInRange(a);
    assert Lookup(a.index, h) == LastMatch(Headers(a.entries), h);
    LastMatchIsLast(Headers(a.entries), h);
  }

  /** The request is named after the last entry its header presents, with authorization switched off as well. */
  lemma AuthorizedAs(a: Authenticator, withoutAuthz: bool, h: Bytes, i: nat)
    requires Indexed(a) && i < |a.entries| && h != []
    requires Headers(a.entries)[i] == h && h !in Headers(a.entries)[i + 1..]
    ensures InRange(a)
    ensures Answer(a, withoutAuthz, h) == Ok(Some(a.entries[i].id))
  {
    IndexInRange(a);
    assert Lookup(a.index, h) == LastMatch(Headers(a.entries), h);
    LastMatchAt(Headers(a.entries), h, i);
  }

  // ---------- Which headers present an entry

  /** `h` is "Basic " and the base64 text of the name, a colon and the password, section 2 of RFC 7617. */
  ghost predicate PresentsBasic(e: Entry, h: Bytes) {
    e.kind == "basic" && e.user.Some? && [66, 97, 115, 105, 99, 32] <= h
    && Canonical(h[6..]) && Decode(h[6..]) == e.user.value.name + [58] + e.user.value.password
  }

  /** `h` is "Bearer " and the token without the white space around it, section 2.1 of RFC 6750. */
  ghost predicate PresentsBearer(e: Entry, h: Bytes) {
    e.kind == "bearer" && e.token.Some? && [66, 101, 97, 114, 101, 114, 32] <= h
    && Tight(h[7..]) && exists l, r :: Around(l, h[7..], r, e.token.value)
  }

  ghost predicate Presents(e: Entry, h: Bytes) { PresentsBasic(e, h) || PresentsBearer(e, h) }

  /** A prefix, and what follows it. */
  lemma PrefixAndRest(prefix: Bytes, rest: Bytes, h: Bytes)
    ensures h == prefix + rest <==> prefix <= h && h[|prefix|..] == rest
  {
    if prefix <= h {
      assert h == prefix + h[|prefix|..];
    }
  }

  lemma HeaderPresents(e: Entry, h: Bytes)
    ensures Presents(e, h) <==> h != [] && h == HeaderValue(e)
  {
    var basic: Bytes, bearer: Bytes := [66, 97, 115, 105, 99, 32], [66, 101, 97, 114, 101, 114, 32];
    assert Ascii("Basic ") == basic && Ascii("Bearer ") == bearer;
    if e.kind == "basic" && e.user.Some? {
      var c := e.user.value.name + [58] + e.user.value.password;
      PrefixAndRest(basic, Encode(c), h);
      if basic <= h {
        EncodeMeans(c, h[6..]);
      }
    } else if e.kind == "bearer" && e.token.Some? {
      PrefixAndRest(bearer, TrimSpace(e.token.value), h);
      if bearer <= h {
        TrimSpaceMeans(e.token.value, h[7..]);
      }
    }
  }

  /** No entry after the i-th is presented by `h`, which presents that one. */
  ghost predicate LastPresented(entries: seq<Entry>, h: Bytes, i: nat) {
    i < |entries| && Presents(entries[i], h) && forall j :: i < j < |entries| ==> !Presents(entries[j], h)
  }

  /**
    Who is let through, and as whom: a request passes if and only if its header presents
    an entry, and as the last such; others get 401, or pass unnamed without authorization.
   */
  lemma WhoPasses(a: Authenticator, h: Bytes)
    requires Indexed(a)
    ensures InRange(a)
    ensures Answer(a, false, h).Ok? <==> exists i :: 0 <= i < |a.entries| && Presents(a.entries[i], h)
    ensures Answer(a, false, h).Err? ==> Answer(a, false, h) == Err(401) && Answer(a, true, h) == Ok(None)
    ensures forall i: nat :: LastPresented(a.entries, h, i) ==>
              Answer(a, false, h) == Answer(a, true, h) == Ok(Some(a.entries[i].id))
  {
    var hs := Headers(a.entries);
    forall i | 0 <= i < |a.entries|
      ensures Presents(a.entries[i], h) <==> h != [] && h == hs[i]
    {
      HeaderPresents(a.entries[i], h);
    }
    AuthorizedIff(a, h);
    forall i: nat | LastPresented(a.entries, h, i)
      ensures Answer(a, false, h) == Answer(a, true, h) == Ok(Some(a.entries[i].id))
    {
      AuthorizedAs(a, false, h, i);
      AuthorizedAs(a, true, h, i);
    }
  }

  /** Which entries are valid, and the fault found first otherwise. */
  lemma ValidateMeans(e: Entry)
    ensures Validate(e).None? <==>
              (e.kind == "basic" ==> e.user.Some? && |e.user.value.name| > 0 && |e.user.value.password| > 0)
              && (e.kind == "bearer" ==> e.token.Some? && |e.token.value| > 0)
    ensures Validate(e) == Some(NoUser) <==> e.kind == "basic" && e.user.None?
    ensures Validate(e) == Some(NoUserName) <==> e.kind == "basic" && e.user.Some? && e.user.value.name == []
    ensures Validate(e) == Some(NoPassword) <==>
              e.kind == "basic" && e.user.Some? && e.user.value.name != [] && e.user.value.password == []
    ensures Validate(e) == Some(NoToken) <==> e.kind == "bearer" && e.token.None?
    ensures Validate(e) == Some(EmptyToken) <==> e.kind == "bearer" && e.token == Some([])
  {
  }

  // ---------- Which entries share a header

  /** Section 2 of RFC 7617 keeps colons out of user names: then the split is unambiguous. */
  lemma CredentialsInjective(u: User, v: User)
    requires COLON !in u.name && COLON !in v.name && Credentials(u) == Credentials(v)
    ensures u == v
  {
    var s, t := Credentials(u), Credentials(v);
    assert s[|u.name|] == t[|u.name|] == COLON && s[|v.name|] == t[|v.name|] == COLON;
    assert s[..|u.name|] == u.name && t[..|v.name|] == v.name;
    assert s[|u.name| + 1..] == u.password && t[|v.name| + 1..] == v.password;
  }

  /** Basic entries share a header exactly when name and password, joined by a colon, agree. */
  lemma BasicCollision(e: Entry, f: Entry)
    requires e.kind == f.kind == "basic" && e.user.Some? && f.user.Some?
    ensures HeaderValue(e) == HeaderValue(f) <==> Credentials(e.user.value) == Credentials(f.user.value)
    ensures COLON !in e.user.value.name && COLON !in f.user.value.name ==>
              (HeaderValue(e) == HeaderValue(f) <==> e.user == f.user)
  {
    var c, d := Credentials(e.user.value), Credentials(f.user.value);
    EncodeInjective(c, d);
    assert HeaderValue(e)[6..] == Encode(c) && HeaderValue(f)[6..] == Encode(d);
    if c == d && COLON !in e.user.value.name && COLON !in f.user.value.name {
      CredentialsInjective(e.user.value, f.user.value);
    }
  }

  /** Two users whose names have or lack a colon, so that their joined credentials agree. */
  lemma SharedCredentials() returns (u: User, v: User)
    ensures u != v && Credentials(u) == Credentials(v)
    ensures u.name != [] && u.password != [] && v.name != [] && v.password != []
  {
    u, v := User(Ascii("a:b"), Ascii("c")), User(Ascii("a"), Ascii("b:c"));
    assert Credentials(u) == Ascii("a:b:c");
    assert Credentials(v) == Ascii("a:b:c");
    assert u.name != v.name;
  }

  /**
    With colons in names an accepted list can hold two users with one header: the
    right credentials of the first are answered with the ID of the second.
   */
  lemma ColonCollision(id: Bytes, id': Bytes) returns (entries: seq<Entry>)
    requires id != id'
    ensures |entries| == 2 && Faultless(entries, 2)
    ensures entries[0].kind == entries[1].kind == "basic" && entries[0].user.Some? && entries[1].user.Some?
    ensures entries[0].user != entries[1].user && entries[0].id == id && entries[1].id == id'
    ensures LastMatch(Headers(entries), HeaderValue(entries[0])) == Some(1)
    ensures forall a: Authenticator :: a.entries == entries && Indexed(a) ==>
              InRange(a) && Answer(a, false, HeaderValue(entries[0])) == Ok(Some(id'))
  {
    var u, v := SharedCredentials();
    entries := [Entry(id, "basic", Some(u), None, []), Entry(id', "basic", Some(v), None, [])];
    TwoFaultless(entries);
    BasicCollision(entries[0], entries[1]);
    var h := HeaderValue(entries[0]);
    assert h[0] == 66;
    assert Headers(entries)[2..] == [];
    LastMatchAt(Headers(entries), h, 1);
    forall a: Authenticator | a.entries == entries && Indexed(a)
      ensures InRange(a) && Answer(a, false, h) == Ok(Some(id'))
    {
      AuthorizedAs(a, false, h, 1);
    }
  }

  lemma TwoFaultless(entries: seq<Entry>)
    requires |entries| == 2 && entries[0].id != entries[1].id
    requires Validate(entries[0]).None? && Validate(entries[1]).None?
    ensures Faultless(entries, 2)
  {
    assert entries[..1] == [entries[0]];
  }

  /** An accepted entry is answered with its own ID if and only if no later entry has its header. */
  lemma AnsweredAsItself(a: Authenticator, i: nat)
    requires Indexed(a) && Faultless(a.entries, |a.entries|) && i < |a.entries| && HeaderValue(a.entries[i]) != []
    ensures InRange(a)
    ensures Answer(a, false, HeaderValue(a.entries[i])) == Ok(Some(a.entries[i].id))
            <==> HeaderValue(a.entries[i]) !in Headers(a.entries)[i + 1..]
  {
    var hs, h := Headers(a.entries), HeaderValue(a.entries[i]);
    assert hs[i] == h;
    LastMatchIsLast(hs, h);
    var n := LastMatch(hs, h).value;
    assert h !in hs[n + 1..];
    AuthorizedAs(a, false, h, n);
    if h !in hs[i + 1..] {
      LastMatchAt(hs, h, i);
    } else {
      var j :| i + 1 <= j < |hs| && hs[j] == h;
      assert n > i;
      assert Fault(a.entries, n).None?;
      assert a.entries[i] in a.entries[..n];
    }
  }

  /** Bearer entries share a header exactly when their tokens agree up to surrounding white space. */
  lemma BearerCollision(e: Entry, f: Entry)
    requires e.kind == f.kind == "bearer" && e.token.Some? && f.token.Some?
    ensures HeaderValue(e) == HeaderValue(f) <==> TrimSpace(e.token.value) == TrimSpace(f.token.value)
  {
    assert HeaderValue(e)[7..] == TrimSpace(e.token.value) && HeaderValue(f)[7..] == TrimSpace(f.token.value);
  }

  /** The second letter of a header tells the kind. */
  lemma SecondLetter(e: Entry)
    requires HeaderValue(e) != []
    ensures |HeaderValue(e)| >= 6 && HeaderValue(e)[1] == if e.kind == "basic" then 97 else 101
  {
  }

  /** Entries of different kinds never share a header. */
  lemma KindsNeverCollide(e: Entry, f: Entry)
    requires e.kind != f.kind && HeaderValue(e) != []
    ensures HeaderValue(e) != HeaderValue(f)
  {
    if HeaderValue(f) != [] {
      SecondLetter(e);
      SecondLetter(f);
    }
  }

  /** An entry of a kind other than basic and bearer is accepted, and no header ever selects it. */
  lemma OtherKindsMatchNobody(entries: seq<Entry>, i: nat, h: Bytes)
    requires i < |entries| && entries[i].kind != "basic" && entries[i].kind != "bearer"
    ensures Validate(entries[i]).None? && LastMatch(Headers(entries), h) != Some(i)
  {
    LastMatchIsLast(Headers(entries), h);
  }
}
