/**
  Operations that run without interruption, and from them runs that show the limits
  of the guarantees: what the counter does not bound, and what stays open.
 */
module ConnSolo {
  import opened Wrappers
  import opened ConnProtocol
  import opened ConnLocks
  import opened ConnTheorems
  import opened ConnProgress
  import opened ConnResults
  import opened ConnBooks
  import opened ConnHistory
  import opened ConnLimits

  lemma Go(cfg: Config, s: State, e: Event) returns (s': State)
    requires Reachable(cfg, s) && Apply(cfg, s, e).Some?
    ensures Apply(cfg, s, e) == Some(s') && Reachable(cfg, s') && s'.Shape()
  {
    s' := Apply(cfg, s, e).value;
    ReachableStep(cfg, s, e, s');
    InvReachable(cfg, s');
  }

  lemma InitReachable(cfg: Config)
    ensures Reachable(cfg, INIT)
  {
    assert Exec(cfg, INIT, []) == Some(INIT);
  }

  /** No thread is inside `clients`, so that a call started now need not wait there. */
  ghost predicate MapFree(s: State) { s.g.writer == None && s.g.readers == {} }

  /** ConnContext alone, up to the entry in `clients`. */
  lemma RegisterAloneInserts(cfg: Config, s: State, id: ID) returns (s': State)
    requires Reachable(cfg, s) && MapFree(s) && id !in s.g.clients
    ensures Reachable(cfg, s') && s'.Shape()
    ensures s'.g == s.g.(clients := s.g.clients[id := |s.objs|])
    ensures s'.objs == s.objs + [Client(None, None, None, None, Joining(|s.threads|))]
    ensures s'.threads == s.threads + [RegLink(|s.objs|, id)]
  {
    var t, c, ch := |s.threads|, |s.objs|, Choice(id, true);
    s' := Go(cfg, s, Begin(ConnContext));
    s' := Go(cfg, s', Run(t, ch));
    assert s'.threads == s.threads + [RegInsert(c, id)];
    s' := Go(cfg, s', Run(t, ch));
  }

  /** ConnContext alone: the drawn ID leads to a new client, and the new connection to that ID. */
  lemma RegisterAlone(cfg: Config, s: State, id: ID) returns (s': State)
    requires Reachable(cfg, s) && MapFree(s) && id !in s.g.clients
    ensures Reachable(cfg, s') && s'.Shape()
    ensures s'.g == s.g.(connToID := s.g.connToID[|s.objs| := id], clients := s.g.clients[id := |s.objs|])
    ensures s'.objs == s.objs + [Client(Some(id), None, None, None, Linked(id))]
    ensures s'.threads == s.threads + [Done]
  {
    var t, c, ch := |s.threads|, |s.objs|, Choice(id, true);
    s' := RegisterAloneInserts(cfg, s, id);
    s' := Go(cfg, s', Run(t, ch));
    assert s'.threads == s.threads + [RegName(c, id)] && s'.objs == s.objs + [Client(None, None, None, None, Linked(id))];
    s' := Go(cfg, s', Run(t, ch));
  }

  /** Conn alone, up to the lock of the counter: the client has no connection yet. */
  lemma ConnAloneEnters(cfg: Config, s: State, c: nat) returns (s': State)
    requires Reachable(cfg, s) && c < |s.objs| && s.objs[c].mu == s.objs[c].db == s.objs[c].conn == None
    ensures Reachable(cfg, s') && s'.Shape() && s'.g == s.g
    ensures s'.objs == s.objs[c := s.objs[c].(mu := Some(|s.threads|))]
    ensures s'.threads == s.threads + [OpenLock(c)]
  {
    var t, ch := |s.threads|, Choice(0, true);
    s' := Go(cfg, s, Begin(ConnOn(c)));
    s' := Go(cfg, s', Run(t, ch));
    assert s'.threads == s.threads + [ConnCheck(c)];
    s' := Go(cfg, s', Run(t, ch));
  }

  /** Conn alone, up to the call of the Opener. */
  lemma ConnAloneAsks(cfg: Config, s: State, c: nat) returns (s': State)
    requires Reachable(cfg, s) && c < |s.objs| && s.objs[c].mu == s.objs[c].db == s.objs[c].conn == None
    requires s.g.dbMutex == None && s.g.dbCount < cfg.maxDB && cfg.hasOpener
    ensures Reachable(cfg, s') && s'.Shape()
    ensures s'.g == s.g.(dbMutex := Some(|s.threads|))
    ensures s'.objs == s.objs[c := s.objs[c].(mu := Some(|s.threads|))]
    ensures s'.threads == s.threads + [Opening(c)]
  {
    var t, ch := |s.threads|, Choice(0, true);
    s' := ConnAloneEnters(cfg, s, c);
    s' := Go(cfg, s', Run(t, ch));
    assert s'.threads == s.threads + [OpenCheck(c)];
    s' := Go(cfg, s', Run(t, ch));
  }

  /** The Opener succeeds. */
  lemma OpenerSucceeds(cfg: Config, s: State, t: nat, c: nat) returns (s': State)
    requires Reachable(cfg, s) && s.Shape() && t < |s.threads| && s.threads[t] == Opening(c) && c < |s.objs|
    ensures Reachable(cfg, s') && s'.Shape()
    ensures s'.g == s.g.(dbMutex := None, dbCount := s.g.dbCount + 1,
                         opens := s.g.opens + [Opened(c, s.objs[c].phase.Closed?)])
    ensures s'.objs == s.objs && s'.threads == s.threads[t := Install(c, |s.g.opens|)]
  {
    var ch := Choice(0, true);
    s' := Go(cfg, s, Run(t, ch));
    assert s'.threads == s.threads[t := OpenCount(c, |s.g.opens|)] && s'.objs == s.objs;
    s' := Go(cfg, s', Run(t, ch));
  }

  lemma InstallAlone(cfg: Config, s: State, t: nat, c: nat, k: nat) returns (s': State)
    requires Reachable(cfg, s) && s.Shape() && t < |s.threads| && s.threads[t] == Install(c, k) && c < |s.objs|
    ensures Reachable(cfg, s') && s'.Shape() && s'.g == s.g
    ensures s'.objs == s.objs[c := s.objs[c].(mu := None, db := Some(k), conn := Some(k))]
    ensures s'.threads == s.threads[t := Done]
  {
    var ch := Choice(0, true);
    s' := Go(cfg, s, Run(t, ch));
    assert s'.threads == s.threads[t := ConnReturn(c, ConnOK(k))];
    s' := Go(cfg, s', Run(t, ch));
  }

  /** Conn alone, with an Opener that succeeds: the new instance is counted and stays with the client. */
  lemma ConnAlone(cfg: Config, s: State, c: nat) returns (s': State)
    requires Reachable(cfg, s) && c < |s.objs| && s.objs[c].mu == s.objs[c].db == s.objs[c].conn == None
    requires s.g.dbMutex == None && s.g.dbCount < cfg.maxDB && cfg.hasOpener
    ensures Reachable(cfg, s') && s'.Shape()
    ensures s'.g == s.g.(dbCount := s.g.dbCount + 1, opens := s.g.opens + [Opened(c, s.objs[c].phase.Closed?)])
    ensures s'.objs == s.objs[c := s.objs[c].(db := Some(|s.g.opens|), conn := Some(|s.g.opens|))]
    ensures s'.threads == s.threads + [Done]
  {
    s' := ConnAloneAsks(cfg, s, c);
    s' := OpenerSucceeds(cfg, s', |s.threads|, c);
    s' := InstallAlone(cfg, s', |s.threads|, c, |s.g.opens|);
  }

  lemma ConnIsClient(cfg: Config, s: State, c: nat)
    requires Reachable(cfg, s) && c in s.g.connToID
    ensures c < |s.objs| && s.g.connToID[c] in s.g.clients && s.g.clients[s.g.connToID[c]] == c
  {
    InvReachable(cfg, s);
    MapsAgree(cfg, s);
  }

  /** closeConn alone, first half: the connection is forgotten. */
  lemma CloseAloneTakes(cfg: Config, s: State, c: nat) returns (s': State)
    requires Reachable(cfg, s) && c in s.g.connToID && c < |s.objs|
    ensures Reachable(cfg, s') && s'.Shape()
    ensures s'.g == s.g.(connToID := s.g.connToID - {c})
    ensures s'.objs == s.objs[c := s.objs[c].(phase := Leaving(|s.threads|, s.g.connToID[c]))]
    ensures s'.threads == s.threads + [CloseLookup(c, s.g.connToID[c])]
  {
    s' := Go(cfg, s, Begin(CloseConn(c)));
    s' := Go(cfg, s', Run(|s.threads|, Choice(0, true)));
  }

  /** closeConn alone, second half: the client leaves `clients` too, and a goroutine is left to close it. */
  lemma CloseAloneDrops(cfg: Config, s: State, t: nat, c: nat, id: ID) returns (s': State)
    requires Reachable(cfg, s) && s.Shape() && MapFree(s) && t < |s.threads| && s.threads[t] == CloseLookup(c, id)
    requires id in s.g.clients && s.g.clients[id] == c && c < |s.objs|
    ensures Reachable(cfg, s') && s'.Shape()
    ensures s'.g == s.g.(clients := s.g.clients - {id})
    ensures s'.objs == s.objs[c := s.objs[c].(phase := Detached(|s.threads|, id))]
    ensures s'.threads == s.threads[t := Done] + [GoLock(c)]
  {
    s' := Go(cfg, s, Run(t, Choice(0, true)));
    assert s'.threads == s.threads[t := CloseDrop(c, id)] && s'.objs == s.objs;
    s' := Go(cfg, s', Run(t, Choice(0, true)));
  }

  lemma CloseAlone(cfg: Config, s: State, c: nat) returns (s': State)
    requires Reachable(cfg, s) && MapFree(s) && c in s.g.connToID
    ensures Reachable(cfg, s') && s'.Shape() && c < |s.objs|
    ensures s'.g == s.g.(connToID := s.g.connToID - {c}, clients := s.g.clients - {s.g.connToID[c]})
    ensures s'.objs == s.objs[c := s.objs[c].(phase := Detached(|s.threads| + 1, s.g.connToID[c]))]
    ensures s'.threads == s.threads + [Done, GoLock(c)]
  {
    ConnIsClient(cfg, s, c);
    s' := CloseAloneTakes(cfg, s, c);
    s' := CloseAloneDrops(cfg, s', |s.threads|, c, s.g.connToID[c]);
  }

  /** The close goroutine `t` alone, up to the call of the Closer. */
  lemma GoroutineAlone(cfg: Config, s: State, t: nat, c: nat, k: nat) returns (s': State)
    requires Reachable(cfg, s) && t < |s.threads| && s.threads[t] == GoLock(c) && c < |s.objs|
    requires s.objs[c].mu == None && s.objs[c].db == Some(k) && s.g.dbMutex == None && s.g.dbCount > 0
    ensures Reachable(cfg, s') && s'.Shape()
    ensures s'.g == s.g.(dbCount := s.g.dbCount - 1)
    ensures s'.objs == s.objs[c := s.objs[c].(mu := Some(t), conn := None)]
    ensures s'.threads == s.threads[t := GoCloser(c, k)]
  {
    var ch := Choice(0, true);
    InvReachable(cfg, s);
    s' := Go(cfg, s, Run(t, ch));
    assert s'.threads == s.threads[t := GoConn(c)];
    s' := Go(cfg, s', Run(t, ch));
    assert s'.threads == s.threads[t := GoCount(c, k)];
    s' := Go(cfg, s', Run(t, ch));
  }

  /** The close goroutine alone, when its client has no instance. */
  lemma GoroutineAloneIdle(cfg: Config, s: State, t: nat, c: nat) returns (s': State)
    requires Reachable(cfg, s) && s.Shape() && t < |s.threads| && s.threads[t] == GoLock(c) && c < |s.objs|
    requires s.objs[c].mu == None && s.objs[c].db == None && s.objs[c].phase.Detached?
    ensures Reachable(cfg, s') && s'.Shape() && s'.g == s.g
    ensures s'.objs == s.objs[c := s.objs[c].(conn := None, phase := Closed(s.objs[c].phase.id))]
    ensures s'.threads == s.threads[t := Done]
  {
    var ch := Choice(0, true);
    s' := Go(cfg, s, Run(t, ch));
    assert s'.threads == s.threads[t := GoConn(c)];
    s' := Go(cfg, s', Run(t, ch));
    assert s'.threads == s.threads[t := GoUnlock(c)];
    s' := Go(cfg, s', Run(t, ch));
  }

  /** A run with one slot: client 0 is being closed when client 1, under the same ID, opens. */
  lemma OverlapRun(id: ID) returns (s: State)
    ensures Reachable(Config(1, true), s) && s.Shape()
    ensures s.g == Shared(map[1 := id], map[id := 1], {}, None, 1, None, [Opened(0, false), Opened(1, false)], [])
    ensures s.objs == [Client(Some(id), Some(3), Some(0), None, Detached(3, id)),
                       Client(Some(id), None, Some(1), Some(1), Linked(id))]
    ensures s.threads == [Done, Done, Done, GoCloser(0, 0), Done, Done]
  {
    var cfg := Config(1, true);
    InitReachable(cfg);
    s := RegisterAlone(cfg, INIT, id);
    s := ConnAlone(cfg, s, 0);
    s := CloseAlone(cfg, s, 0);
    assert s.g.connToID == map[] && s.g.clients == map[];
    s := GoroutineAlone(cfg, s, 3, 0, 0);
    s := RegisterAlone(cfg, s, id);
    s := ConnAlone(cfg, s, 1);
  }

  /** The cap does not bound the instances alive, and instances alive can share an ID: one slot, two instances. */
  lemma CapAndIDsOverlap(id: ID)
    ensures exists s :: Reachable(Config(1, true), s) && |s.g.opens| - |s.g.closes| == 2
                        && |s.objs| == 2 && s.objs[0].name == s.objs[1].name == Some(id)
                        && s.objs[0].db.Some? && s.objs[1].db.Some?
  {
    var s := OverlapRun(id);
  }

  /**
    A Conn on a client whose close has finished opens an instance that nothing closes
    any more: everything has ended, and in no continuation is it closed or, with one
    slot, any other instance opened.
   */
  lemma LateConnLeaks(id: ID) returns (s: State)
    ensures Reachable(Config(1, true), s) && Quiescent(s) && s.g.dbCount == 1 && s.g.opens == [Opened(0, true)]
    ensures forall es, end :: Exec(Config(1, true), s, es) == Some(end) ==> 0 !in end.g.closes && end.g.opens == s.g.opens
  {
    var cfg := Config(1, true);
    InitReachable(cfg);
    s := RegisterAlone(cfg, INIT, id);
    s := CloseAlone(cfg, s, 0);
    s := GoroutineAloneIdle(cfg, s, 2, 0);
    s := ConnAlone(cfg, s, 0);
    LeakStays(cfg, s);
  }

  lemma LeakStays(cfg: Config, s: State)
    requires cfg.maxDB == 1 && Reachable(cfg, s) && s.g.opens == [Opened(0, true)]
    ensures forall es, end :: Exec(cfg, s, es) == Some(end) ==> 0 !in end.g.closes && end.g.opens == s.g.opens
  {
    assert LateOpens(s) == {0};
    forall es, end | Exec(cfg, s, es) == Some(end)
      ensures 0 !in end.g.closes && end.g.opens == s.g.opens
    {
      LateForGood(cfg, s, es, end, 0);
      SlotsLost(cfg, s, es, end);
    }
  }
}
