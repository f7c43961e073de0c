/**
  `Manager` and `Client` as one thread sees them when nobody else runs: the classes
  of `internal/conndb`, updated in place.  Interleavings are the subject of ConnProtocol.

  The Opener and the Closer are code outside the package.  An Opener call is given
  by its outcome, the number of the instance it made or None; a Closer call is
  recorded in `closed`.
 */
module ConnManager {
  import opened GoTypes
  import opened Wrappers
  import opened SyncMap

  type ID = Uint32

  datatype Error = ErrNoID | ErrNoConnection | ErrMaxDB | ErrNoOpener | ErrOpen

  class Client {
    const m: Manager
    var id: ID
    var db: Option<nat>
    var conn: Option<nat>

    constructor (m: Manager)
      ensures this.m == m && db == None && conn == None
    {
      this.m := m;
      id := 0;
      db, conn := None, None;
    }

    /** Opens at most once: an open client answers from its own field and changes nothing. */
    method Conn(opener: Option<nat>) returns (r: Result<nat, Error>)
      requires m.Valid() && this in m.all
      modifies this`db, this`conn, m`dbCount
      ensures m.Valid()
      ensures old(conn).Some? ==> r == Ok(old(conn).value)
      ensures old(conn).None? ==>
                r == if old(m.dbCount) >= m.maxDB then Err(ErrMaxDB)
                     else if !m.hasOpener then Err(ErrNoOpener)
                     else if opener.None? then Err(ErrOpen) else Ok(opener.value)
      ensures conn == (if r.Ok? then Some(r.value) else None) && db == conn
      ensures m.dbCount == old(m.dbCount) + if old(conn).None? && r.Ok? then 1 else 0
    {
      if conn.Some? {
        return Ok(conn.value);
      }
      if db.None? {
        r := m.OpenDB(opener);
        if r.Err? {
          return;
        }
        db := Some(r.value);
        conn := Some(r.value);
        assert m.Open() == old(m.Open()) + {this};
      }
      return Ok(conn.value);
    }

    /** The body of the close goroutine: it empties the client and gives its instance to the Closer. */
    method Close()
      requires m.Valid() && this in m.all
      modifies this`db, this`conn, m`dbCount, m`closed
      ensures m.Valid() && db == None && conn == None
      ensures m.closed == old(m.closed) + if old(db).Some? then [old(db).value] else []
      ensures m.dbCount == old(m.dbCount) - if old(db).Some? then 1 else 0
    {
      conn := None;
      if db.Some? {
        assert this in m.Open();
        m.CloseDB(db.value);
        db := None;
        assert m.Open() == old(m.Open()) - {this};
      }
    }
  }

  class Manager {
    const maxDB: int
    const hasOpener: bool
    const connToID: Map<nat, ID>
    const clients: Map<ID, Client>
    var dbCount: int
    var closed: seq<nat>
    /** Every client made, registered or not. */
    ghost var all: set<Client>

    constructor (maxDB: int, hasOpener: bool)
      ensures Valid() && fresh(connToID) && fresh(clients) && all == {}
      ensures this.maxDB == maxDB && this.hasOpener == hasOpener
      ensures connToID.m == map[] && clients.m == map[] && dbCount == 0 && closed == []
    {
      this.maxDB, this.hasOpener := maxDB, hasOpener;
      connToID := new Map();
      clients := new Map();
      dbCount, closed, all := 0, [], {};
    }

    /** The clients that hold an instance. */
    ghost function Open(): set<Client>
      reads this, all
    {
      set c | c in all && c.db.Some?
    }

    ghost predicate Valid()
      reads this, connToID, clients, all
    {
      && (forall c :: c in all ==> c.m == this && c.db == c.conn)
      && (forall id :: id in clients.m ==> clients.m[id] in all && clients.m[id].id == id)
      && (forall c :: c in connToID.m ==> connToID.m[c] in clients.m)
      && (forall c, d :: c in connToID.m && d in connToID.m && connToID.m[c] == connToID.m[d] ==> c == d)
      && dbCount == |Open()|
      && dbCount <= if maxDB < 0 then 0 else maxDB
    }

    /** Registers a connection under the first drawn ID that is free; one registered before is linked anew. */
    method WithNewClient(c: nat, draws: seq<ID>) returns (client: Client)
      requires Valid()
      requires exists i :: 0 <= i < |draws| && draws[i] !in clients.m
      modifies this`all, connToID, clients
      ensures Valid() && fresh(client) && client.db == None && all == old(all) + {client}
      ensures client.id !in old(clients.m)
      ensures exists i :: 0 <= i < |draws| && draws[i] == client.id && forall j :: 0 <= j < i ==> draws[j] in old(clients.m)
      ensures clients.m == old(clients.m)[client.id := client] && connToID.m == old(connToID.m)[c := client.id]
    {
      client := new Client(this);
      var i := 0;
      while true
        invariant i < |draws| && clients.m == old(clients.m) && connToID.m == old(connToID.m) && all == old(all)
        invariant forall j :: 0 <= j < i ==> draws[j] in clients.m
        invariant client.db == None && client.conn == None
        decreases |draws| - i
      {
        var _, loaded := clients.LoadOrStore(draws[i], client);
        if !loaded {
          connToID.Store(c, draws[i]);
          client.id := draws[i];
          all := all + {client};
          assert Open() == old(Open());
          return;
        }
        i := i + 1;
      }
    }

    /** Forgets a connection; the client returned is the one a goroutine is then started to close. */
    method CloseConn(c: nat) returns (client: Option<Client>)
      requires Valid()
      modifies connToID, clients
      ensures Valid() && connToID.m == old(connToID.m) - {c}
      ensures client.Some? <==> c in old(connToID.m)
      ensures client.None? ==> clients.m == old(clients.m)
      ensures client.Some? ==> client.value == old(clients.m)[old(connToID.m)[c]] && client.value in all
                               && clients.m == old(clients.m) - {old(connToID.m)[c]}
    {
      var id := connToID.LoadAndDelete(c);
      if id.None? {
        assert connToID.m == old(connToID.m);
        return None;
      }
      client := clients.LoadAndDelete(id.value);
    }

    /** The client registered under the ID that a context carries, if it carries one. */
    method ClientOf(ctxID: Option<ID>) returns (r: Result<Client, Error>)
      requires Valid()
      ensures r.Ok? <==> ctxID.Some? && ctxID.value in clients.m
      ensures r.Ok? ==> r.value in all && r.value.id == ctxID.value && clients.m[ctxID.value] == r.value
      ensures r.Err? ==> r.error == if ctxID.None? then ErrNoID else ErrNoConnection
    {
      if ctxID.None? {
        return Err(ErrNoID);
      }
      var client := clients.Load(ctxID.value);
      r := if client.None? then Err(ErrNoConnection) else Ok(client.value);
    }

    method OpenDB(opener: Option<nat>) returns (r: Result<nat, Error>)
      modifies this`dbCount
      ensures r == if old(dbCount) >= maxDB then Err(ErrMaxDB)
                   else if !hasOpener then Err(ErrNoOpener)
                   else if opener.None? then Err(ErrOpen) else Ok(opener.value)
      ensures dbCount == old(dbCount) + if r.Ok? then 1 else 0
    {
      if dbCount >= maxDB {
        return Err(ErrMaxDB);
      }
      if !hasOpener {
        return Err(ErrNoOpener);
      }
      if opener.None? {
        return Err(ErrOpen);
      }
      dbCount := dbCount + 1;
      return Ok(opener.value);
    }

    method CloseDB(db: nat)
      modifies this`dbCount, this`closed
      ensures dbCount == if old(dbCount) > 0 then old(dbCount) - 1 else old(dbCount)
      ensures closed == old(closed) + [db]
    {
      if dbCount > 0 {
        dbCount := dbCount - 1;
      }
      closed := closed + [db];
    }

    /**
      Hands out the registered clients that hold an instance, once each, in no particular
      order, for as long as the body of the loop, `more`, asks for another.
     */
    method Databases(more: (ID, nat) -> bool) returns (out: seq<(ID, nat)>)
      requires Valid()
      ensures forall id, db :: (id, db) in out ==> id in clients.m && clients.m[id].db == Some(db)
      ensures forall i, j :: 0 <= i < j < |out| ==> out[i].0 != out[j].0
      ensures forall i :: 0 <= i < |out| - 1 ==> more(out[i].0, out[i].1)
      ensures out == [] || more(out[|out| - 1].0, out[|out| - 1].1) ==>
                forall id, db :: id in clients.m && clients.m[id].db == Some(db) ==> (id, db) in out
    {
      out := [];
      var todo := clients.m.Keys;
      while todo != {}
        invariant todo <= clients.m.Keys
        invariant forall id, db :: (id, db) in out <==> id in clients.m && id !in todo && clients.m[id].db == Some(db)
        invariant forall i, j :: 0 <= i < j < |out| ==> out[i].0 != out[j].0
        invariant forall i :: 0 <= i < |out| ==> more(out[i].0, out[i].1)
        decreases todo
      {
        var id :| id in todo;
        todo := todo - {id};
        var client := clients.m[id];
        if client.db.Some? {
          assert forall i :: 0 <= i < |out| ==> (out[i].0, out[i].1) in out;
          out := out + [(id, client.db.value)];
          if !more(id, client.db.value) {
            return;
          }
        }
      }
    }
  }
}
