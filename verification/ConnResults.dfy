/** The guarantees of the connection manager, over all runs and all interleavings. */
module ConnResults {
  import opened Wrappers
  import opened ConnProtocol
  import opened ConnLocks
  import opened ConnRegistry
  import opened ConnBooks
  import opened ConnTheorems

  // ---------- Accounting

  /** Clients whose instance is no longer counted although its Closer call has not returned. */
  ghost function BeingClosed(s: State): set<nat> {
    set c | 0 <= c < |s.objs| && Inside(s, c).GoCloser?
  }

  /** Clients whose Opener call has succeeded but is not yet counted. */
  ghost function BeingCounted(s: State): set<nat> {
    set c | 0 <= c < |s.objs| && Inside(s, c).OpenCount?
  }

  lemma Accounting(cfg: Config, s: State)
    requires Reachable(cfg, s)
    ensures s.g.dbCount == |CountedClients(s)|
    ensures 0 <= s.g.dbCount <= Cap(cfg)
    ensures forall t :: 0 <= t < |s.threads| && s.threads[t].GoCount? ==> s.g.dbCount > 0
  {
    InvReachable(cfg, s);
    forall t | 0 <= t < |s.threads| && s.threads[t].GoCount?
      ensures s.g.dbCount > 0
    {
      TargetBooks(s, t);
    }
  }

  lemma DisjointUnion(a: set<nat>, b: set<nat>, c: set<nat>)
    requires a !! b !! c
    ensures |a + b + c| == |a| + |b| + |c|
  {
  }

  /** Instances opened and not yet closed. */
  ghost function Alive(s: State): int { |s.g.opens| - |s.g.closes| }

  /** At most one Open is waiting to be counted, and there is room for it. */
  lemma RoomForCounting(cfg: Config, s: State)
    requires Inv(cfg, s)
    ensures s.g.dbCount + |BeingCounted(s)| <= Cap(cfg)
    ensures BeingCounted(s) != {} ==> s.g.dbMutex.Some? && s.g.dbMutex.value < |s.threads|
                                      && s.threads[s.g.dbMutex.value].OpenCount?
  {
    if c :| c in BeingCounted(s) {
      forall d | d in BeingCounted(s)
        ensures d == c
      {
        assert ClientLock(s, c) && ClientLock(s, d);
        assert ThreadLocks(s, s.objs[c].mu.value) && ThreadLocks(s, s.objs[d].mu.value);
      }
      assert BeingCounted(s) == {c};
      assert ClientLock(s, c) && ThreadLocks(s, s.objs[c].mu.value) && ThreadCap(cfg, s, s.objs[c].mu.value);
    }
  }

  /** A client that carries an instance is in exactly one of three situations. */
  lemma CarryingSplits(cfg: Config, s: State, c: nat)
    requires Inv(cfg, s) && c < |s.objs|
    ensures Carrying(s, c).Some? <==> c in CountedClients(s) || c in BeingClosed(s) || c in BeingCounted(s)
    ensures !(c in CountedClients(s) && c in BeingClosed(s)) && !(c in CountedClients(s) && c in BeingCounted(s))
  {
    assert ClientFields(s, c) && ClientLock(s, c);
  }

  lemma AliveSplits(cfg: Config, s: State)
    requires Inv(cfg, s)
    ensures Alive(s) == s.g.dbCount + |BeingClosed(s)| + |BeingCounted(s)|
  {
    var a, b, d := CountedClients(s), BeingClosed(s), BeingCounted(s);
    forall c | 0 <= c < |s.objs|
      ensures c in CarryingClients(s) <==> c in a || c in b || c in d
      ensures !(c in a && c in b) && !(c in a && c in d)
    {
      CarryingSplits(cfg, s, c);
    }
    assert CarryingClients(s) == a + b + d;
    DisjointUnion(a, b, d);
  }

  /**
    Instances alive are those the counter knows and those in transit.  They exceed the
    cap by no more than the instances whose Closer is running, so not at all when none is.
   */
  lemma LiveInstances(cfg: Config, s: State)
    requires Reachable(cfg, s)
    ensures Alive(s) == s.g.dbCount + |BeingClosed(s)| + |BeingCounted(s)|
    ensures s.g.dbCount + |BeingCounted(s)| <= Cap(cfg)
    ensures Alive(s) <= Cap(cfg) + |BeingClosed(s)|
    ensures BeingClosed(s) == {} ==> Alive(s) <= Cap(cfg)
  {
    InvReachable(cfg, s);
    AliveSplits(cfg, s);
    RoomForCounting(cfg, s);
  }

  // ---------- The two maps

  lemma MapsAgree(cfg: Config, s: State)
    requires Reachable(cfg, s)
    ensures forall c :: c in s.g.connToID ==> s.g.connToID[c] in s.g.clients && s.g.clients[s.g.connToID[c]] == c
    ensures forall c, d :: c in s.g.connToID && d in s.g.connToID && s.g.connToID[c] == s.g.connToID[d] ==> c == d
    ensures forall i, j :: i in s.g.clients && j in s.g.clients && s.g.clients[i] == s.g.clients[j] ==> i == j
    ensures forall t :: 0 <= t < |s.threads| && s.threads[t].CloseDrop? ==>
                          s.threads[t].id in s.g.clients && s.g.clients[s.threads[t].id] == s.threads[t].c
    ensures forall id :: id in s.g.clients ==> s.g.clients[id] < |s.objs| && s.objs[s.g.clients[id]].name in {None, Some(id)}
  {
    InvReachable(cfg, s);
    forall c | c in s.g.connToID
      ensures s.g.connToID[c] in s.g.clients && s.g.clients[s.g.connToID[c]] == c
    {
      assert ConnEntry(s, c) && ClientPlace(s, c);
    }
    forall i, j | i in s.g.clients && j in s.g.clients && s.g.clients[i] == s.g.clients[j]
      ensures i == j
    {
      assert ClientEntry(s, i) && ClientEntry(s, j);
    }
    forall t | 0 <= t < |s.threads| && s.threads[t].CloseDrop?
      ensures s.threads[t].id in s.g.clients && s.g.clients[s.threads[t].id] == s.threads[t].c
    {
      assert ThreadPlace(s, t) && ClientPlace(s, s.threads[t].c);
    }
    forall id | id in s.g.clients
      ensures s.g.clients[id] < |s.objs| && s.objs[s.g.clients[id]].name in {None, Some(id)}
    {
      assert ClientEntry(s, id) && ClientPlace(s, s.g.clients[id]);
    }
  }

  /** A request that carries the ID of a connection still linked is served by the client of that connection. */
  lemma RequestFindsItsClient(cfg: Config, s: State, t: nat, ch: Choice, c: nat, s': State)
    requires Reachable(cfg, s) && t < |s.threads| && c in s.g.connToID && s.threads[t] == ReqLoad(s.g.connToID[c])
    requires Apply(cfg, s, Run(t, ch)) == Some(s')
    ensures s'.threads[t] == ConnLock(c) && s'.objs == s.objs && s'.g == s.g
  {
    MapsAgree(cfg, s);
  }

  /**
    A request is served by client `c` if and only if `c` holds its ID: from the entry in
    `clients` until closeConn takes that away.  Without such a client the request ends.
   */
  lemma RequestServedIff(cfg: Config, s: State, t: nat, ch: Choice, id: ID, s': State)
    requires Reachable(cfg, s) && t < |s.threads| && s.threads[t] == ReqLoad(id)
    requires Apply(cfg, s, Run(t, ch)) == Some(s')
    ensures forall c: nat :: s'.threads[t] == ConnLock(c) <==> c < |s.objs| && Held(s.objs[c].phase, Driver(s, c)) == Some(id)
    ensures s'.threads[t].Done? || s'.threads[t].ConnLock?
    ensures s'.objs == s.objs && s'.g == s.g
  {
    InvReachable(cfg, s);
    forall c: nat
      ensures s'.threads[t] == ConnLock(c) <==> c < |s.objs| && Held(s.objs[c].phase, Driver(s, c)) == Some(id)
    {
      assert c < |s.objs| ==> ClientPlace(s, c);
      assert id in s.g.clients ==> ClientEntry(s, id);
    }
  }

  /** What a loop over Databases hands out is registered under that ID, open, counted, and held still meanwhile. */
  lemma DatabasesYieldsOpen(cfg: Config, s: State, t: nat)
    requires Reachable(cfg, s) && t < |s.threads| && s.threads[t].RangeVisit? && s.threads[t].c < |s.objs|
    requires s.objs[s.threads[t].c].db.Some?
    ensures var c, id, k := s.threads[t].c, s.threads[t].id, s.objs[s.threads[t].c].db.value;
            && id in s.g.clients && s.g.clients[id] == c
            && c in CountedClients(s) && k < |s.g.opens| && s.g.opens[k].c == c && k !in s.g.closes
            && s.objs[c].conn == Some(k)
  {
    InvReachable(cfg, s);
    var c := s.threads[t].c;
    assert ThreadRange(s, t) && ThreadLocks(s, t) && ClientFields(s, c) && Rightful(s, c);
  }

  /** Only a thread that finds no reader inside changes the entries of `clients`. */
  lemma ActClients(cfg: Config, g: Shared, o: Client, n: nat, t: nat, pc: Pc, ch: Choice, m: Move)
    requires Act(cfg, g, o, n, t, pc, ch) == Some(m)
    ensures m.g.clients == g.clients || g.readers == {}
  {
  }

  /** While a loop over Databases runs, in any thread, nobody enters or leaves `clients`. */
  lemma ClientsStandStill(cfg: Config, s: State, e: Event, s': State)
    requires Reachable(cfg, s) && Apply(cfg, s, e) == Some(s')
    requires exists t :: 0 <= t < |s.threads| && s.threads[t].HoldsRead()
    ensures s'.g.clients == s.g.clients
  {
    match e
    case Begin(_) =>
    case Run(t, ch) =>
      ReaderInside(cfg, s);
      ActClients(cfg, s.g, s.TargetObject(t), |s.threads|, t, s.threads[t], ch, Effect(cfg, s, t, ch).value);
  }

  lemma ReaderInside(cfg: Config, s: State)
    requires Reachable(cfg, s) && exists t :: 0 <= t < |s.threads| && s.threads[t].HoldsRead()
    ensures s.g.readers != {}
  {
    InvReachable(cfg, s);
    var r :| 0 <= r < |s.threads| && s.threads[r].HoldsRead();
    assert ThreadLocks(s, r);
  }

  // ---------- Deadlock freedom

  ghost predicate CanStep(cfg: Config, s: State, t: nat) {
    exists ch :: Apply(cfg, s, Run(t, ch)).Some?
  }

  lemma MayStep(cfg: Config, s: State, t: nat, ch: Choice)
    requires Apply(cfg, s, Run(t, ch)).Some?
    ensures CanStep(cfg, s, t)
  {
  }

  /** Every lock free that its next step wants: the thread can move. */
  lemma Unblocked(cfg: Config, s: State, t: nat)
    requires Inv(cfg, s) && t < |s.threads| && !s.threads[t].Done?
    requires s.threads[t].HoldsDB() || s.g.dbMutex.None?
    requires s.threads[t].Mu().Some? || (s.Target(t).Some? ==> s.objs[s.Target(t).value].mu.None?)
    requires s.threads[t].Mu().Some? || s.threads[t].HoldsRead() || s.g.readers == {}
    requires s.threads[t].Mu().Some? || s.threads[t].HoldsRead() || s.threads[t].HoldsWrite() || s.g.writer.None?
    ensures CanStep(cfg, s, t)
  {
    assert ThreadRange(s, t);
    var pc := s.threads[t];
    var id: ID := if pc.RangeNext? && pc.todo != {} then var i :| i in pc.todo; i else 0;
    MayStep(cfg, s, t, Choice(id, true));
  }

  /** As long as an operation is unfinished, some operation can step. */
  lemma DeadlockFree(cfg: Config, s: State)
    requires Reachable(cfg, s)
    requires exists t :: 0 <= t < |s.threads| && !s.threads[t].Done?
    ensures exists t: nat :: CanStep(cfg, s, t)
  {
    InvReachable(cfg, s);
    var t: nat;
    if s.g.dbMutex.Some? {
      t := s.g.dbMutex.value;
    } else if exists c :: 0 <= c < |s.objs| && s.objs[c].mu.Some? {
      var c :| 0 <= c < |s.objs| && s.objs[c].mu.Some?;
      assert ClientLock(s, c);
      t := s.objs[c].mu.value;
    } else if s.g.readers != {} {
      t :| t in s.g.readers;
    } else if s.g.writer.Some? {
      t := s.g.writer.value;
    } else {
      t :| t < |s.threads| && !s.threads[t].Done?;
    }
    assert ThreadLocks(s, t);
    Unblocked(cfg, s, t);
  }
}
