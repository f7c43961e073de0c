/** Properties of whole runs: one instance per client, and what is left when everything has ended. */
module ConnHistory {
  import opened Wrappers
  import opened ConnProtocol
  import opened ConnLocks
  import opened ConnRegistry
  import opened ConnBooks
  import opened ConnTheorems
  import opened ConnResults
  import opened ConnProgress

  // ---------- One instance per client between two closes

  /** The event is a step of the close goroutine of client `c` inside `Client.close`. */
  ghost predicate CloseStep(s: State, e: Event, c: nat) {
    e.Run? && e.t < |s.threads|
    && var pc := s.threads[e.t]; (pc.GoConn? || pc.GoCount? || pc.GoCloser?) && pc.c == c
  }

  /** A run from `s` to `end` in which client `c` is not being closed. */
  ghost predicate OpenRun(cfg: Config, s: State, es: seq<Event>, c: nat, end: State)
    decreases es
  {
    if es == [] then s == end
    else !CloseStep(s, es[0], c) && Apply(cfg, s, es[0]).Some? && OpenRun(cfg, Apply(cfg, s, es[0]).value, es[1..], c, end)
  }

  /** How often the Opener succeeded for client `c`. */
  ghost function OpensOf(opens: seq<Opened>, c: nat): nat {
    if opens == [] then 0 else OpensOf(opens[..|opens| - 1], c) + (if opens[|opens| - 1].c == c then 1 else 0)
  }

  ghost predicate ConnKept(o: Client, m: Move) { o.conn.Some? ==> m.o.conn == o.conn }

  lemma ActConn(cfg: Config, g: Shared, o: Client, inside: Pc, n: nat, t: nat, pc: Pc, ch: Choice, m: Move)
    requires Act(cfg, g, o, n, t, pc, ch) == Some(m)
    requires Seat(o, t, pc, inside) && Fields(o, inside)
    ensures !pc.GoConn? ==> ConnKept(o, m)
    ensures !pc.GoCloser? ==> m.g.closes == g.closes
  {
  }

  /** An Open for `c` uses up the room of its client: room comes back only when the client is closed. */
  ghost function Spent(s: State, c: nat): nat
    requires c < |s.objs|
  {
    OpensOf(s.g.opens, c) + if Carrying(s, c).None? then 1 else 0
  }

  lemma OpensAfter(opens: seq<Opened>, r: Opened, c: nat)
    ensures OpensOf(opens + [r], c) == OpensOf(opens, c) + if r.c == c then 1 else 0
  {
    assert (opens + [r])[..|opens|] == opens;
  }

  /** A step that does not close client `c` keeps its connection and leaves no more room for Opens. */
  ghost predicate Unclosed(s: State, s': State, c: nat)
    requires c < |s.objs| && c < |s'.objs|
  {
    && (s.objs[c].conn.Some? ==> s'.objs[c].conn == s.objs[c].conn)
    && Spent(s', c) <= Spent(s, c)
  }

  lemma UnclosedMove(cfg: Config, s: State, t: nat, ch: Choice, m: Move, c: nat)
    requires Inv(cfg, s) && t < |s.threads| && Effect(cfg, s, t, ch) == Some(m) && LockMove(s, t, m) && BookMove(s, t, m)
    requires c < |s.objs| && !CloseStep(s, Run(t, ch), c)
    ensures Unclosed(s, Commit(s, t, m), c)
  {
    InsideCommit(s, t, m, c);
    if s.Target(t).Some? {
      var d := s.Target(t).value;
      TargetBooks(s, t);
      ActConn(cfg, s.g, s.objs[d], TargetInside(s, t), |s.threads|, t, s.threads[t], ch, m);
      OpensAfter(s.g.opens, Opened(d, s.objs[d].phase.Closed?), c);
    }
  }

  lemma OpenStep(cfg: Config, s: State, e: Event, s': State, c: nat)
    requires Inv(cfg, s) && Apply(cfg, s, e) == Some(s') && c < |s.objs| && !CloseStep(s, e, c)
    ensures Inv(cfg, s') && |s.objs| <= |s'.objs| && Unclosed(s, s', c)
  {
    match e
    case Begin(call) =>
      InvKeptByStart(cfg, s, call, s');
      assert ClientLock(s, c);
    case Run(t, ch) =>
      var m := Effect(cfg, s, t, ch).value;
      InvKept(cfg, s, t, ch, m);
      UnclosedMove(cfg, s, t, ch, m, c);
  }

  lemma {:induction false} OpenRunKeeps(cfg: Config, s: State, es: seq<Event>, c: nat, end: State)
    requires Inv(cfg, s) && c < |s.objs| && OpenRun(cfg, s, es, c, end)
    ensures Inv(cfg, end) && c < |end.objs| && Unclosed(s, end, c)
    decreases es
  {
    if es != [] {
      var next := Apply(cfg, s, es[0]).value;
      OpenStep(cfg, s, es[0], next, c);
      OpenRunKeeps(cfg, next, es[1..], c, end);
    }
  }

  /** Some thread is about to return connection k from Conn on client `c`. */
  ghost predicate Returns(s: State, c: nat, k: nat) {
    exists t :: 0 <= t < |s.threads| && s.threads[t] == ConnReturn(c, ConnOK(k))
  }

  lemma ReturnsConn(cfg: Config, s: State, c: nat, k: nat)
    requires Inv(cfg, s) && c < |s.objs| && Returns(s, c, k)
    ensures s.objs[c].conn == Some(k) && Carrying(s, c) == Some(k)
  {
    var t :| 0 <= t < |s.threads| && s.threads[t] == ConnReturn(c, ConnOK(k));
    assert ThreadLocks(s, t) && ClientFields(s, c);
  }

  /**
    Between two closes of a client at most one Open succeeds, none once a Conn call has
    succeeded, and all successful Conn calls, in any threads, return the same connection.
   */
  lemma OneInstance(cfg: Config, s: State, es: seq<Event>, c: nat, end: State)
    requires Reachable(cfg, s) && c < |s.objs| && OpenRun(cfg, s, es, c, end)
    ensures OpensOf(end.g.opens, c) <= OpensOf(s.g.opens, c) + 1
    ensures forall i: nat :: Returns(s, c, i) ==> OpensOf(end.g.opens, c) <= OpensOf(s.g.opens, c)
    ensures forall i: nat, j: nat :: Returns(s, c, i) && Returns(end, c, j) ==> i == j
  {
    InvReachable(cfg, s);
    OpenRunKeeps(cfg, s, es, c, end);
    forall i: nat | Returns(s, c, i)
      ensures s.objs[c].conn == Some(i) && Carrying(s, c) == Some(i)
    {
      ReturnsConn(cfg, s, c, i);
    }
    forall j: nat | Returns(end, c, j)
      ensures end.objs[c].conn == Some(j)
    {
      ReturnsConn(cfg, end, c, j);
    }
  }

  /** With the mutex free db and conn come together; Conn never returns a nil connection without an error. */
  lemma FieldsTogether(cfg: Config, s: State)
    requires Reachable(cfg, s)
    ensures forall c :: 0 <= c < |s.objs| && s.objs[c].mu.None? ==> s.objs[c].db == s.objs[c].conn
    ensures forall t :: 0 <= t < |s.threads| && s.threads[t].ConnReturn? ==> s.threads[t].out != ConnNil
  {
    InvReachable(cfg, s);
    forall c | 0 <= c < |s.objs| && s.objs[c].mu.None?
      ensures s.objs[c].db == s.objs[c].conn
    {
      assert ClientFields(s, c);
    }
    forall t | 0 <= t < |s.threads| && s.threads[t].ConnReturn?
      ensures s.threads[t].out != ConnNil
    {
      assert ThreadLocks(s, t) && ClientFields(s, s.threads[t].c);
    }
  }

  // ---------- Conservation and quiescence

  /** Every instance goes to the Closer at most once, and only instances that were opened do. */
  lemma ClosedAtMostOnce(cfg: Config, s: State)
    requires Reachable(cfg, s)
    ensures Distinct(s.g.closes)
    ensures forall k :: k in s.g.closes ==> k < |s.g.opens|
    ensures forall k :: 0 <= k < |s.g.opens| ==>
              s.g.opens[k].c < |s.objs| && (k in s.g.closes <==> Carrying(s, s.g.opens[k].c) != Some(k))
  {
    InvReachable(cfg, s);
    forall k | 0 <= k < |s.g.opens|
      ensures s.g.opens[k].c < |s.objs| && (k in s.g.closes <==> Carrying(s, s.g.opens[k].c) != Some(k))
    {
      assert Conserved(s, k) && Rightful(s, s.g.opens[k].c);
    }
  }

  /** Every operation and goroutine has ended and every connection has been closed. */
  ghost predicate Quiescent(s: State) {
    && (forall t :: 0 <= t < |s.threads| ==> s.threads[t].Done?)
    && s.g.connToID == map[]
  }

  /**
    At quiescence both maps are empty, and exactly the instances opened on a client
    before its close have been closed, once each.  The counter is zero if and only
    if nobody opened an instance on a client already closed.
   */
  lemma AtQuiescence(cfg: Config, s: State)
    requires Reachable(cfg, s) && Quiescent(s)
    ensures s.g.clients == map[]
    ensures forall c :: 0 <= c < |s.objs| ==> s.objs[c].phase.Closed?
    ensures Distinct(s.g.closes)
    ensures forall k :: k in s.g.closes <==> 0 <= k < |s.g.opens| && !s.g.opens[k].late
    ensures s.g.dbCount == |s.g.opens| - |s.g.closes|
    ensures s.g.dbCount == 0 <==> forall k :: 0 <= k < |s.g.opens| ==> !s.g.opens[k].late
  {
    InvReachable(cfg, s);
    forall c | 0 <= c < |s.objs|
      ensures s.objs[c].phase.Closed? && Inside(s, c) == Done
    {
      assert ClientPlace(s, c) && ClientLock(s, c);
    }
    if id :| id in s.g.clients {
      assert false;
    }
    forall k | 0 <= k < |s.g.opens|
      ensures k in s.g.closes <==> !s.g.opens[k].late
      ensures s.g.opens[k].c < |s.objs| && (s.g.opens[k].late ==> s.g.opens[k].c in CountedClients(s))
    {
      assert Conserved(s, k) && Rightful(s, s.g.opens[k].c);
    }
    forall c | c in CountedClients(s)
      ensures exists k :: 0 <= k < |s.g.opens| && s.g.opens[k].late
    {
      assert Rightful(s, c) && s.g.opens[Carrying(s, c).value].late;
    }
    assert CountedClients(s) == CarryingClients(s);
  }

  /** The event lets a Conn call into the mutex of a client whose close has finished. */
  ghost predicate LateConn(s: State, e: Event) {
    e.Run? && e.t < |s.threads|
    && var pc := s.threads[e.t]; pc.ConnLock? && pc.c < |s.objs| && s.objs[pc.c].phase.Closed?
  }

  ghost predicate NoLateConn(cfg: Config, s: State, es: seq<Event>)
    decreases es
  {
    es == [] || (!LateConn(s, es[0])
                 && (Apply(cfg, s, es[0]).Some? ==> NoLateConn(cfg, Apply(cfg, s, es[0]).value, es[1..])))
  }

  ghost predicate InConn(pc: Pc) {
    pc.ConnCheck? || pc.OpenLock? || pc.OpenCheck? || pc.Opening? || pc.OpenCount? || pc.Install? || pc.ConnReturn?
  }

  /** No Conn call is inside a closed client and no Open came late. */
  ghost predicate Calm(s: State) {
    && (forall c :: 0 <= c < |s.objs| && s.objs[c].phase.Closed? ==> !InConn(Inside(s, c)))
    && (forall k :: 0 <= k < |s.g.opens| ==> !s.g.opens[k].late)
  }

  lemma ActCalm(cfg: Config, g: Shared, o: Client, inside: Pc, n: nat, t: nat, pc: Pc, ch: Choice, m: Move)
    requires Act(cfg, g, o, n, t, pc, ch) == Some(m) && Seat(o, t, pc, inside)
    requires o.phase.Closed? ==> !InConn(inside) && !pc.ConnLock?
    requires pc.Goroutine() || pc.RegLink? || pc.CloseDrop? || (pc.CloseTake? && pc.c in g.connToID) ==> !o.phase.Closed?
    ensures m.o.phase.Closed? ==> !InConn(InsideAfter(inside, t, m))
    ensures m.g.opens == g.opens || (|m.g.opens| == |g.opens| + 1 && m.g.opens == g.opens + [m.g.opens[|g.opens|]]
                                     && !m.g.opens[|g.opens|].late)
  {
  }

  lemma CalmKept(cfg: Config, s: State, e: Event, s': State)
    requires Inv(cfg, s) && Apply(cfg, s, e) == Some(s') && Calm(s) && !LateConn(s, e)
    ensures Inv(cfg, s') && Calm(s')
  {
    match e
    case Begin(call) =>
      InvKeptByStart(cfg, s, call, s');
      forall c | 0 <= c < |s'.objs| && s'.objs[c].phase.Closed?
        ensures !InConn(Inside(s', c))
      {
        assert ClientLock(s, c);
      }
    case Run(t, ch) =>
      var m := Effect(cfg, s, t, ch).value;
      InvKept(cfg, s, t, ch, m);
      if s.Target(t).Some? {
        TargetBooks(s, t);
        ActCalm(cfg, s.g, s.TargetObject(t), TargetInside(s, t), |s.threads|, t, s.threads[t], ch, m);
      }
      forall c | 0 <= c < |s'.objs| && s'.objs[c].phase.Closed?
        ensures !InConn(Inside(s', c))
      {
        InsideCommit(s, t, m, c);
      }
  }

  lemma {:induction false} CalmOverRuns(cfg: Config, s: State, es: seq<Event>, end: State)
    requires Inv(cfg, s) && Calm(s) && Exec(cfg, s, es) == Some(end) && NoLateConn(cfg, s, es)
    ensures Calm(end)
    decreases es
  {
    if es != [] {
      var next := Apply(cfg, s, es[0]).value;
      CalmKept(cfg, s, es[0], next);
      CalmOverRuns(cfg, next, es[1..], end);
    }
  }

  /** When no Conn ran after its client's close, nothing is left: every instance opened was closed exactly once. */
  lemma NothingLeft(cfg: Config, es: seq<Event>, s: State)
    requires Exec(cfg, INIT, es) == Some(s) && NoLateConn(cfg, INIT, es) && Quiescent(s)
    ensures s.g.dbCount == 0 && s.g.clients == map[] && s.g.connToID == map[]
    ensures Distinct(s.g.closes) && |s.g.closes| == |s.g.opens|
    ensures forall k :: k in s.g.closes <==> 0 <= k < |s.g.opens|
  {
    InvInit(cfg);
    CalmOverRuns(cfg, INIT, es, s);
    AtQuiescence(cfg, s);
  }
}
