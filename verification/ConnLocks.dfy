/** Who holds which lock: kept by every step of every interleaving. */
module ConnLocks {
  import opened Wrappers
  import opened ConnProtocol

  // ---------- Locks

  ghost predicate ThreadLocks(s: State, t: nat)
    requires s.Shape() && t < |s.threads|
  {
    var pc := s.threads[t];
    && (pc.Mu().Some? ==> s.objs[pc.Mu().value].mu == Some(t))
    && (pc.HoldsDB() <==> s.g.dbMutex == Some(t))
    && (pc.HoldsRead() <==> t in s.g.readers)
    && (pc.HoldsWrite() <==> s.g.writer == Some(t))
  }

  ghost predicate ClientLock(s: State, c: nat)
    requires c < |s.objs|
  {
    var mu := s.objs[c].mu;
    mu.Some? ==> mu.value < |s.threads| && s.threads[mu.value].Mu() == Some(c)
  }

  /** A lock and the thread that says it holds it agree. */
  ghost predicate Locks(s: State)
    requires s.Shape()
  {
    && (forall t :: 0 <= t < |s.threads| ==> ThreadLocks(s, t))
    && (forall c :: 0 <= c < |s.objs| ==> ClientLock(s, c))
    && (s.g.dbMutex.Some? ==> s.g.dbMutex.value < |s.threads|)
    && (forall t :: t in s.g.readers ==> t < |s.threads|)
    && (s.g.writer.Some? ==> s.g.writer.value < |s.threads|)
  }

  /** A lock moved, if at all, between free and held by `t`. */
  ghost predicate MovedBy(t: nat, before: Option<nat>, after: Option<nat>) {
    before == after || (before.None? && after == Some(t)) || (before == Some(t) && after.None?)
  }

  /** What a move of `t` does to the mutex of its target. */
  ghost predicate MutexMove(o: Client, t: nat, pc: Pc, m: Move) {
    && MovedBy(t, o.mu, m.o.mu)
    && (m.pc.Mu().Some? ==> m.o.mu == Some(t) && m.pc.Mu() == pc.Ref() && !pc.CloseDrop?)
    && (pc.Mu().Some? && m.pc.Mu().None? ==> m.o.mu == None)
    && (pc.Mu().None? && m.pc.Mu().None? ==> m.o.mu == o.mu)
  }

  /** What a move of `t` does to `dbMutex`. */
  ghost predicate DBLockMove(g: Shared, t: nat, m: Move) {
    MovedBy(t, g.dbMutex, m.g.dbMutex) && (m.pc.HoldsDB() <==> m.g.dbMutex == Some(t))
  }

  /** What a move of `t` does to the writer's place at `clients`. */
  ghost predicate WriterMove(g: Shared, t: nat, m: Move) {
    MovedBy(t, g.writer, m.g.writer) && (m.pc.HoldsWrite() <==> m.g.writer == Some(t))
  }

  /** What a move of `t` does to the readers of `clients`. */
  ghost predicate ReaderMove(g: Shared, t: nat, m: Move) {
    && (forall u :: u != t ==> (u in m.g.readers <==> u in g.readers))
    && (m.pc.HoldsRead() <==> t in m.g.readers)
  }

  lemma ActMutex(cfg: Config, g: Shared, o: Client, n: nat, t: nat, pc: Pc, ch: Choice, m: Move)
    requires Act(cfg, g, o, n, t, pc, ch) == Some(m)
    requires pc.Mu().Some? ==> o.mu == Some(t)
    ensures MutexMove(o, t, pc, m)
  {
  }

  lemma ActDBLock(cfg: Config, g: Shared, o: Client, n: nat, t: nat, pc: Pc, ch: Choice, m: Move)
    requires Act(cfg, g, o, n, t, pc, ch) == Some(m)
    requires pc.HoldsDB() <==> g.dbMutex == Some(t)
    ensures DBLockMove(g, t, m)
  {
  }

  lemma ActWriter(cfg: Config, g: Shared, o: Client, n: nat, t: nat, pc: Pc, ch: Choice, m: Move)
    requires Act(cfg, g, o, n, t, pc, ch) == Some(m)
    requires pc.HoldsWrite() <==> g.writer == Some(t)
    ensures WriterMove(g, t, m)
  {
  }

  lemma ActReaders(cfg: Config, g: Shared, o: Client, n: nat, t: nat, pc: Pc, ch: Choice, m: Move)
    requires Act(cfg, g, o, n, t, pc, ch) == Some(m)
    requires pc.HoldsRead() <==> t in g.readers
    ensures ReaderMove(g, t, m)
  {
  }

  /** A move names only clients its thread or the `clients` map names, and changes that map by one entry at most. */
  ghost predicate ShapeMove(g: Shared, pc: Pc, m: Move) {
    && (m.spawn == [] || (pc.CloseDrop? && pc.id in g.clients && m.spawn == [GoLock(g.clients[pc.id])]))
    && (m.pc.Ref().Some? ==> m.pc.Ref() == pc.Ref() || exists id :: id in g.clients && m.pc.Ref().value == g.clients[id])
    && (|| m.g.clients == g.clients
        || (pc.RegInsert? && m.g.clients == g.clients[pc.id := pc.c])
        || (pc.CloseDrop? && m.g.clients == g.clients - {pc.id}))
  }

  lemma ActShape(cfg: Config, g: Shared, o: Client, n: nat, t: nat, pc: Pc, ch: Choice, m: Move)
    requires Act(cfg, g, o, n, t, pc, ch) == Some(m)
    ensures ShapeMove(g, pc, m)
  {
  }

  lemma ShapeCommit(s: State, t: nat, m: Move)
    requires s.Shape() && t < |s.threads| && ShapeMove(s.g, s.threads[t], m)
    ensures Commit(s, t, m).Shape()
  {
  }

  ghost predicate LockMove(s: State, t: nat, m: Move)
    requires s.Shape() && t < |s.threads|
  {
    && ShapeMove(s.g, s.threads[t], m) && MutexMove(s.TargetObject(t), t, s.threads[t], m)
    && DBLockMove(s.g, t, m) && WriterMove(s.g, t, m) && ReaderMove(s.g, t, m)
  }

  lemma ThreadLocksCommit(s: State, t: nat, m: Move, u: nat)
    requires s.Shape() && t < |s.threads| && Locks(s) && LockMove(s, t, m)
    requires Commit(s, t, m).Shape() && u < |Commit(s, t, m).threads|
    ensures ThreadLocks(Commit(s, t, m), u)
  {
    assert ThreadLocks(s, t);
    assert u < |s.threads| ==> ThreadLocks(s, u);
  }

  lemma ClientLockCommit(s: State, t: nat, m: Move, c: nat)
    requires s.Shape() && t < |s.threads| && Locks(s) && LockMove(s, t, m)
    requires c < |s.objs|
    ensures ClientLock(Commit(s, t, m), c)
  {
    assert ThreadLocks(s, t) && ClientLock(s, c);
  }

  lemma LocksKept(cfg: Config, s: State, t: nat, ch: Choice, m: Move)
    requires s.Shape() && t < |s.threads| && Locks(s) && Effect(cfg, s, t, ch) == Some(m)
    ensures LockMove(s, t, m) && Commit(s, t, m).Shape() && Locks(Commit(s, t, m))
  {
    assert ThreadLocks(s, t);
    ActShape(cfg, s.g, s.TargetObject(t), |s.threads|, t, s.threads[t], ch, m);
    ActMutex(cfg, s.g, s.TargetObject(t), |s.threads|, t, s.threads[t], ch, m);
    ActDBLock(cfg, s.g, s.TargetObject(t), |s.threads|, t, s.threads[t], ch, m);
    ActWriter(cfg, s.g, s.TargetObject(t), |s.threads|, t, s.threads[t], ch, m);
    ActReaders(cfg, s.g, s.TargetObject(t), |s.threads|, t, s.threads[t], ch, m);
    ShapeCommit(s, t, m);
    var s' := Commit(s, t, m);
    forall u | 0 <= u < |s'.threads|
      ensures ThreadLocks(s', u)
    {
      ThreadLocksCommit(s, t, m, u);
    }
    forall c | 0 <= c < |s'.objs|
      ensures ClientLock(s', c)
    {
      ClientLockCommit(s, t, m, c);
    }
  }

  /** The state after a call began: one more thread, and for a registration one more client. */
  ghost predicate Started(s: State, s': State) {
    && s'.g == s.g && |s'.threads| == |s.threads| + 1 && s'.threads == s.threads + [s'.threads[|s.threads|]]
    && var pc := s'.threads[|s.threads|];
       && (pc.RegDraw? || pc.CloseTake? || pc.ReqLoad? || pc.ConnLock? || pc.RangeEnter?)
       && (if pc.RegDraw? then pc.c == |s.objs| && s'.objs == s.objs + [Client(None, None, None, None, Joining(|s.threads|))]
           else s'.objs == s.objs && (pc.Ref().Some? ==> pc.Ref().value < |s.objs|))
  }

  lemma StartStarts(s: State, call: Call, s': State)
    requires Start(s, call) == Some(s')
    ensures Started(s, s') && (s.Shape() ==> s'.Shape())
  {
  }

  lemma LocksKeptByStart(s: State, s': State)
    requires s.Shape() && Locks(s) && Started(s, s')
    ensures s'.Shape() && Locks(s')
  {
    forall u | 0 <= u < |s'.threads|
      ensures s'.Shape() && ThreadLocks(s', u)
    {
      assert u < |s.threads| ==> ThreadLocks(s, u);
    }
    forall c | 0 <= c < |s'.objs|
      ensures ClientLock(s', c)
    {
      assert c < |s.objs| ==> ClientLock(s, c);
    }
  }
}
