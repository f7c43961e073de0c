/** What each call of Conn answers, and why. */
module ConnAnswers {
  import opened Wrappers
  import opened ConnProtocol
  import opened ConnLocks
  import opened ConnRegistry
  import opened ConnBooks
  import opened ConnTheorems
  import opened ConnResults
  import opened ConnProgress
  import opened ConnHistory

  /** A Conn call answers with the connection of its client, or with an error when the client has none. */
  lemma AnswerIsConnection(cfg: Config, s: State, t: nat)
    requires Reachable(cfg, s) && t < |s.threads| && s.threads[t].ConnReturn?
    ensures var c, out := s.threads[t].c, s.threads[t].out;
            && c < |s.objs| && s.objs[c].db == s.objs[c].conn
            && (out.ConnOK? <==> s.objs[c].conn.Some?)
            && (out.ConnOK? ==> s.objs[c].conn == Some(out.k))
            && (!out.ConnOK? ==> out == ErrMaxDB || out == ErrNoOpener || out == ErrOpen)
  {
    InvReachable(cfg, s);
    assert ThreadLocks(s, t) && ClientFields(s, s.threads[t].c);
  }

  // ---------- Why

  /**
    What is so when a step of thread `t` settles that its Conn call on client `c` answers
    `out`: the connection was there; or this call's own Open has made it; or the slots
    are all taken; or there is a slot and no Opener; or the Opener has failed.
   */
  ghost predicate Reason(cfg: Config, s: State, t: nat, ch: Choice, c: nat, out: Outcome) {
    t < |s.threads| && c < |s.objs|
    && match out
       case ConnOK(k) =>
         || (s.threads[t] == ConnCheck(c) && s.objs[c].conn == Some(k))
         || (s.threads[t] == Install(c, k) && s.objs[c].conn.None? && k < |s.g.opens| && s.g.opens[k].c == c)
       case ErrMaxDB =>
         s.threads[t] == OpenCheck(c) && s.objs[c].conn.None? && |CountedClients(s)| == Cap(cfg)
       case ErrNoOpener =>
         s.threads[t] == OpenCheck(c) && s.objs[c].conn.None? && |CountedClients(s)| < Cap(cfg) && !cfg.hasOpener
       case ErrOpen =>
         s.threads[t] == Opening(c) && s.objs[c].conn.None? && cfg.hasOpener && !ch.ok
       case ConnNil => false
  }

  /** What a move sees when it settles an answer. */
  ghost predicate Settles(cfg: Config, g: Shared, o: Client, pc: Pc, ch: Choice, out: Outcome) {
    match out
    case ConnOK(k) => (pc.ConnCheck? && o.conn == Some(k)) || (pc.Install? && pc.k == k)
    case ErrMaxDB => pc.OpenCheck? && g.dbCount >= cfg.maxDB
    case ErrNoOpener => pc.OpenCheck? && g.dbCount < cfg.maxDB && !cfg.hasOpener
    case ErrOpen => pc.Opening? && !ch.ok
    case ConnNil => false
  }

  lemma ActSettles(cfg: Config, g: Shared, o: Client, n: nat, t: nat, pc: Pc, ch: Choice, m: Move, out: Outcome)
    requires Act(cfg, g, o, n, t, pc, ch) == Some(m)
    requires pc.ConnCheck? ==> o.db == o.conn
    ensures m.pc.ConnReturn? && m.pc.out == out <==> Settles(cfg, g, o, pc, ch, out)
    ensures m.pc.ConnReturn? ==> pc.Ref() == Some(m.pc.c)
  {
  }

  /** The invariants at a thread inside Conn. */
  lemma InsideConn(cfg: Config, s: State, t: nat)
    requires Inv(cfg, s) && t < |s.threads|
    requires s.threads[t].ConnCheck? || s.threads[t].OpenCheck? || s.threads[t].Opening? || s.threads[t].Install?
    ensures var pc, o := s.threads[t], s.TargetObject(t);
            && pc.c < |s.objs| && o == s.objs[pc.c] && o.mu == Some(t) && o.db == o.conn
            && (!pc.ConnCheck? ==> o.conn == None)
            && (pc.Opening? ==> cfg.hasOpener)
            && (pc.Install? ==> pc.k < |s.g.opens| && s.g.opens[pc.k].c == pc.c)
    ensures s.g.dbCount == |CountedClients(s)| <= Cap(cfg)
  {
    var c := s.threads[t].c;
    assert ThreadLocks(s, t) && ThreadCap(cfg, s, t) && ClientFields(s, c) && Rightful(s, c);
  }

  /** A step settles an answer if and only if there is the reason for it. */
  lemma AnswerStep(cfg: Config, s: State, t: nat, ch: Choice, s': State, c: nat, out: Outcome)
    requires Reachable(cfg, s) && Apply(cfg, s, Run(t, ch)) == Some(s')
    ensures s'.threads[t] == ConnReturn(c, out) <==> Reason(cfg, s, t, ch, c, out)
  {
    InvReachable(cfg, s);
    var pc := s.threads[t];
    if pc.ConnCheck? || pc.OpenCheck? || pc.Opening? || pc.Install? {
      InsideConn(cfg, s, t);
    }
    ActSettles(cfg, s.g, s.TargetObject(t), |s.threads|, t, pc, ch, Effect(cfg, s, t, ch).value, out);
  }

  /** Some step of thread `t` in the run had the reason to answer `out`. */
  ghost predicate Settled(cfg: Config, s: State, es: seq<Event>, t: nat, c: nat, out: Outcome)
    decreases es
  {
    es != [] && Apply(cfg, s, es[0]).Some?
    && (|| (es[0].Run? && es[0].t == t && Reason(cfg, s, t, es[0].ch, c, out))
        || Settled(cfg, Apply(cfg, s, es[0]).value, es[1..], t, c, out))
  }

  /** An event of another thread leaves thread `t` where it stands. */
  lemma OthersStay(cfg: Config, s: State, e: Event, s': State, t: nat)
    requires Apply(cfg, s, e) == Some(s') && t < |s.threads| && !(e.Run? && e.t == t)
    ensures t < |s'.threads| && s'.threads[t] == s.threads[t]
  {
  }

  lemma {:induction false} SettledOverRuns(cfg: Config, s: State, es: seq<Event>, end: State, t: nat, c: nat, out: Outcome)
    requires Reachable(cfg, s) && Exec(cfg, s, es) == Some(end)
    requires t < |end.threads| && end.threads[t] == ConnReturn(c, out)
    ensures (t < |s.threads| && s.threads[t] == ConnReturn(c, out)) || Settled(cfg, s, es, t, c, out)
    decreases es
  {
    if es != [] {
      var next := Apply(cfg, s, es[0]).value;
      ReachableStep(cfg, s, es[0], next);
      SettledOverRuns(cfg, next, es[1..], end, t, c, out);
      if t < |next.threads| && next.threads[t] == ConnReturn(c, out) {
        if es[0].Run? && es[0].t == t {
          AnswerStep(cfg, s, t, es[0].ch, next, c, out);
        } else {
          BeginsElsewhere(cfg, s, es[0], next, t);
        }
      }
    }
  }

  /** A thread that answers was not started by this event. */
  lemma BeginsElsewhere(cfg: Config, s: State, e: Event, s': State, t: nat)
    requires Reachable(cfg, s) && Apply(cfg, s, e) == Some(s')
    requires t < |s'.threads| && s'.threads[t].ConnReturn? && !(e.Run? && e.t == t)
    ensures t < |s.threads| && s'.threads[t] == s.threads[t]
  {
    InvReachable(cfg, s);
    match e
    case Begin(call) => StartStarts(s, call, s');
    case Run(u, ch) =>
      ActShape(cfg, s.g, s.TargetObject(u), |s.threads|, u, s.threads[u], ch, Effect(cfg, s, u, ch).value);
  }

  /** Whatever a Conn call is about to answer at the end of a run, it had the reason for it at a step of the run. */
  lemma AnswersHaveReasons(cfg: Config, es: seq<Event>, s: State, t: nat, c: nat, out: Outcome)
    requires Exec(cfg, INIT, es) == Some(s) && t < |s.threads| && s.threads[t] == ConnReturn(c, out)
    ensures Settled(cfg, INIT, es, t, c, out)
  {
    assert Exec(cfg, INIT, []) == Some(INIT);
    SettledOverRuns(cfg, INIT, es, s, t, c, out);
  }

  // ---------- Conn on a client that has a connection

  /** Thread `t` is inside Conn on the open client `c`, answers its connection k, or has done so. */
  ghost predicate Serving(s: State, t: nat, c: nat, k: nat) {
    t < |s.threads| && c < |s.objs|
    && (s.threads[t] == Done || ((s.threads[t] == ConnCheck(c) || s.threads[t] == ConnReturn(c, ConnOK(k))) && s.objs[c].conn == Some(k)))
  }

  lemma ActServes(cfg: Config, g: Shared, o: Client, n: nat, t: nat, pc: Pc, ch: Choice, m: Move, k: nat)
    requires Act(cfg, g, o, n, t, pc, ch) == Some(m) && (pc.ConnCheck? || pc.ConnReturn?) && o.conn == Some(k)
    ensures m.g == g && m.o.conn == o.conn && m.o.db == o.db && m.spawn == []
    ensures pc.ConnCheck? ==> m.pc == ConnReturn(pc.c, ConnOK(k))
    ensures pc.ConnReturn? ==> m.pc == Done
  {
  }

  /** A step of another thread leaves the connection of a client whose mutex `t` holds. */
  lemma ConnStays(cfg: Config, s: State, u: nat, ch: Choice, s': State, t: nat, c: nat)
    requires Inv(cfg, s) && Apply(cfg, s, Run(u, ch)) == Some(s')
    requires t < |s.threads| && t != u && s.threads[t].Mu() == Some(c) && c < |s.objs| && s.objs[c].conn.Some?
    ensures s'.threads[t] == s.threads[t] && c < |s'.objs| && s'.objs[c].conn == s.objs[c].conn
  {
    assert ThreadLocks(s, t) && ThreadLocks(s, u);
    if s.Target(u) == Some(c) {
      TargetBooks(s, u);
      ActConn(cfg, s.g, s.objs[c], TargetInside(s, u), |s.threads|, u, s.threads[u], ch, Effect(cfg, s, u, ch).value);
    }
  }

  lemma ServingStep(cfg: Config, s: State, e: Event, s': State, t: nat, c: nat, k: nat)
    requires Reachable(cfg, s) && Serving(s, t, c, k) && Apply(cfg, s, e) == Some(s')
    ensures Serving(s', t, c, k)
    ensures e.Run? && e.t == t ==> s'.g == s.g
  {
    InvReachable(cfg, s);
    match e
    case Begin(call) => StartStarts(s, call, s');
    case Run(u, ch) =>
      if u == t {
        ActServes(cfg, s.g, s.TargetObject(t), |s.threads|, t, s.threads[t], ch, Effect(cfg, s, t, ch).value, k);
      } else if s.threads[t] != Done {
        ConnStays(cfg, s, u, ch, s', t, c);
      }
  }

  /** No step of thread `t` in the run touches what is shared. */
  ghost predicate LeavesShared(cfg: Config, s: State, es: seq<Event>, t: nat)
    decreases es
  {
    es == [] || (Apply(cfg, s, es[0]).Some? ==>
                   var next := Apply(cfg, s, es[0]).value;
                   (es[0].Run? && es[0].t == t ==> next.g == s.g) && LeavesShared(cfg, next, es[1..], t))
  }

  lemma {:induction false} ServingOverRuns(cfg: Config, s: State, es: seq<Event>, end: State, t: nat, c: nat, k: nat)
    requires Reachable(cfg, s) && Serving(s, t, c, k) && Exec(cfg, s, es) == Some(end)
    ensures Serving(end, t, c, k) && LeavesShared(cfg, s, es, t)
    decreases es
  {
    if es != [] {
      var next := Apply(cfg, s, es[0]).value;
      ServingStep(cfg, s, es[0], next, t, c, k);
      ReachableStep(cfg, s, es[0], next);
      ServingOverRuns(cfg, next, es[1..], end, t, c, k);
    }
  }

  /**
    A Conn call that gets into the mutex of a client with connection k answers k, whatever
    else happens meanwhile, and touches neither the maps, nor the counter, nor a lock of them.
   */
  lemma OpenClientServed(cfg: Config, s: State, t: nat, ch: Choice, s': State, es: seq<Event>, end: State, c: nat, k: nat)
    requires Reachable(cfg, s) && t < |s.threads| && s.threads[t] == ConnLock(c)
    requires c < |s.objs| && s.objs[c].conn == Some(k)
    requires Apply(cfg, s, Run(t, ch)) == Some(s') && Exec(cfg, s', es) == Some(end)
    ensures s'.g == s.g && LeavesShared(cfg, s', es, t)
    ensures t < |end.threads| && c < |end.objs|
    ensures end.threads[t] in {ConnCheck(c), ConnReturn(c, ConnOK(k)), Done}
    ensures !end.threads[t].Done? ==> end.objs[c].conn == Some(k)
  {
    ReachableStep(cfg, s, Run(t, ch), s');
    ServingOverRuns(cfg, s', es, end, t, c, k);
  }
}
