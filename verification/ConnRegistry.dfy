/** The two maps, the ID field and the life of a client: kept by every step of every interleaving. */
module ConnRegistry {
  import opened Wrappers
  import opened ConnProtocol
  import opened ConnLocks

  /** The ID under which a client was entered in `clients`, once it was. */
  ghost function KeyOf(phase: Phase): Option<ID> {
    if phase.Joining? then None else Some(phase.id)
  }

  /** What thread `t`, standing at `pc`, knows about the phase of its client. */
  ghost predicate KnowsPhase(phase: Phase, t: nat, pc: Pc) {
    match pc
    case RegDraw(_) => phase == Joining(t)
    case RegInsert(_, _) => phase == Joining(t)
    case RegLink(_, _) => phase == Joining(t)
    case RegName(_, id) => KeyOf(phase) == Some(id)
    case CloseLookup(_, id) => phase == Leaving(t, id)
    case CloseDrop(_, id) => phase == Leaving(t, id)
    case _ => pc.Goroutine() ==> phase.Detached? && phase.worker == t
  }

  /** What the thread that drives client `c` through `phase` is doing. */
  ghost predicate Drives(phase: Phase, c: nat, pc: Pc) {
    match phase
    case Joining(_) => (pc.RegDraw? || pc.RegInsert? || pc.RegLink?) && pc.c == c
    case Leaving(_, id) => pc == CloseLookup(c, id) || pc == CloseDrop(c, id)
    case Detached(_, _) => pc.Goroutine() && pc.c == c
    case _ => true
  }

  /** The ID under which a client is in `clients`; `pc` is the thread that drives it. */
  ghost function Held(phase: Phase, pc: Pc): Option<ID> {
    match phase
    case Joining(_) => if pc.RegLink? then Some(pc.id) else None
    case Linked(id) => Some(id)
    case Leaving(_, id) => Some(id)
    case _ => None
  }

  ghost predicate Working(phase: Phase) { phase.Joining? || phase.Leaving? || phase.Detached? }

  ghost function Driver(s: State, c: nat): Pc
    requires c < |s.objs|
  {
    var phase := s.objs[c].phase;
    if Working(phase) && phase.worker < |s.threads| then s.threads[phase.worker] else Done
  }

  ghost predicate ThreadPlace(s: State, t: nat)
    requires s.Shape() && t < |s.threads|
  {
    var pc := s.threads[t];
    pc.Ref().Some? ==> KnowsPhase(s.objs[pc.Ref().value].phase, t, pc)
  }

  ghost predicate ClientPlace(s: State, c: nat)
    requires c < |s.objs|
  {
    var o := s.objs[c];
    && Drives(o.phase, c, Driver(s, c))
    && (o.name.Some? ==> o.name == KeyOf(o.phase))
    && (forall id :: Held(o.phase, Driver(s, c)) == Some(id) ==> id in s.g.clients && s.g.clients[id] == c)
    && (o.phase.Linked? ==> c in s.g.connToID && s.g.connToID[c] == o.phase.id)
  }

  ghost predicate ClientEntry(s: State, id: ID)
    requires s.Shape() && id in s.g.clients
  {
    var c := s.g.clients[id];
    Held(s.objs[c].phase, Driver(s, c)) == Some(id)
  }

  ghost predicate ConnEntry(s: State, c: nat)
    requires c in s.g.connToID
  {
    c < |s.objs| && s.objs[c].phase == Linked(s.g.connToID[c])
  }

  ghost predicate Registry(s: State)
    requires s.Shape()
  {
    && (forall t :: 0 <= t < |s.threads| ==> ThreadPlace(s, t))
    && (forall c :: 0 <= c < |s.objs| ==> ClientPlace(s, c))
    && (forall id :: id in s.g.clients ==> ClientEntry(s, id))
    && (forall c :: c in s.g.connToID ==> ConnEntry(s, c))
  }

  // ---------- One move

  /** What a move of thread `t` does to the phase and name of its target `c` and to `connToID`. */
  ghost predicate LifeMove(g: Shared, o: Client, n: nat, t: nat, c: nat, m: Move) {
    && (|| (m.o.phase == o.phase && m.g.connToID == g.connToID)
        || (o.phase == Joining(t) && m.o.phase.Linked? && m.g.connToID == g.connToID[c := m.o.phase.id])
        || (o.phase.Linked? && m.o.phase == Leaving(t, o.phase.id) && m.g.connToID == g.connToID - {c})
        || (o.phase.Leaving? && o.phase.worker == t && m.o.phase == Detached(n, o.phase.id) && m.g.connToID == g.connToID)
        || (o.phase.Detached? && o.phase.worker == t && m.o.phase == Closed(o.phase.id) && m.g.connToID == g.connToID))
    && (m.o.name == o.name || m.o.name == KeyOf(m.o.phase))
  }

  /** What the thread, and one it starts, then know about the phase. */
  ghost predicate KnowledgeMove(n: nat, t: nat, c: nat, m: Move) {
    && (m.pc.Ref() == Some(c) ==> KnowsPhase(m.o.phase, t, m.pc))
    && (m.pc.Ref().Some? && m.pc.Ref() != Some(c) ==> m.pc.ConnLock? || m.pc.RangeLock?)
    && (m.spawn != [] ==> KnowsPhase(m.o.phase, n, m.spawn[0]) && m.spawn[0] == GoLock(c))
  }

  ghost predicate PhaseMove(g: Shared, o: Client, n: nat, t: nat, c: nat, m: Move) {
    LifeMove(g, o, n, t, c, m) && KnowledgeMove(n, t, c, m)
  }

  /** Who drives the target afterwards, and under which ID it then is in `clients`. */
  ghost predicate DriverMove(g: Shared, o: Client, n: nat, t: nat, c: nat, pc: Pc, m: Move) {
    var before := if Working(o.phase) && o.phase.worker == t then pc else Done;
    var after := if Working(m.o.phase) && m.o.phase.worker == t then m.pc else Done;
    && (Working(m.o.phase) && m.o.phase.worker == t ==> Drives(m.o.phase, c, m.pc))
    && (Working(m.o.phase) && m.o.phase.worker == n ==> m.spawn == [GoLock(c)])
    && (|| (m.g.clients == g.clients && Held(m.o.phase, after) == Held(o.phase, before))
        || (pc.RegInsert? && pc.id !in g.clients && m.g.clients == g.clients[pc.id := c]
            && Held(o.phase, before) == None && Held(m.o.phase, after) == Some(pc.id))
        || (pc.CloseDrop? && m.g.clients == g.clients - {pc.id}
            && Held(o.phase, before) == Some(pc.id) && Held(m.o.phase, after) == None))
  }

  /** The part of Registry a single move reads. */
  ghost predicate Placed(g: Shared, o: Client, n: nat, t: nat, c: nat, pc: Pc) {
    && KnowsPhase(o.phase, t, pc)
    && (Working(o.phase) ==> o.phase.worker < n)
    && (Working(o.phase) && o.phase.worker == t ==> Drives(o.phase, c, pc))
    && (pc.RegLink? ==> pc.id in g.clients && g.clients[pc.id] == c)
    && (pc.CloseDrop? ==> pc.id in g.clients && g.clients[pc.id] == c)
    && (pc.CloseTake? && c in g.connToID ==> o.phase == Linked(g.connToID[c]))
  }

  lemma ActLife(cfg: Config, g: Shared, o: Client, n: nat, t: nat, c: nat, pc: Pc, ch: Choice, m: Move)
    requires Act(cfg, g, o, n, t, pc, ch) == Some(m) && t < n && pc.Ref() == Some(c)
    requires Placed(g, o, n, t, c, pc)
    ensures LifeMove(g, o, n, t, c, m)
  {
  }

  lemma ActKnowledge(cfg: Config, g: Shared, o: Client, n: nat, t: nat, c: nat, pc: Pc, ch: Choice, m: Move)
    requires Act(cfg, g, o, n, t, pc, ch) == Some(m) && t < n && pc.Ref() == Some(c)
    requires Placed(g, o, n, t, c, pc)
    ensures KnowledgeMove(n, t, c, m)
  {
  }

  lemma ActDriver(cfg: Config, g: Shared, o: Client, n: nat, t: nat, c: nat, pc: Pc, ch: Choice, m: Move)
    requires Act(cfg, g, o, n, t, pc, ch) == Some(m) && t < n && pc.Ref() == Some(c)
    requires Placed(g, o, n, t, c, pc)
    ensures DriverMove(g, o, n, t, c, pc, m)
  {
  }

  /** A thread without a client leaves the maps alone. */
  lemma ActUntargeted(cfg: Config, g: Shared, o: Client, n: nat, t: nat, pc: Pc, ch: Choice, m: Move)
    requires Act(cfg, g, o, n, t, pc, ch) == Some(m) && pc.Ref() == None
    ensures m.g.clients == g.clients && m.g.connToID == g.connToID && m.spawn == []
    ensures m.pc.Ref().Some? ==> m.pc.ConnLock? || m.pc.RangeLock?
  {
  }

  // ---------- The whole state

  ghost predicate RegistryMove(s: State, t: nat, m: Move)
    requires s.Shape() && t < |s.threads|
  {
    var pc := s.threads[t];
    && ShapeMove(s.g, pc, m)
    && (pc.Ref().None? ==> m.g.clients == s.g.clients && m.g.connToID == s.g.connToID && m.spawn == []
                           && (m.pc.Ref().Some? ==> m.pc.ConnLock? || m.pc.RangeLock?))
    && (pc.Ref().Some? ==> s.Target(t) == pc.Ref()
                           && PhaseMove(s.g, s.TargetObject(t), |s.threads|, t, pc.Ref().value, m)
                           && DriverMove(s.g, s.TargetObject(t), |s.threads|, t, pc.Ref().value, pc, m))
  }

  lemma RegistryMoves(cfg: Config, s: State, t: nat, ch: Choice, m: Move)
    requires s.Shape() && t < |s.threads| && Registry(s) && Effect(cfg, s, t, ch) == Some(m)
    ensures RegistryMove(s, t, m)
  {
    var pc, n := s.threads[t], |s.threads|;
    ActShape(cfg, s.g, s.TargetObject(t), n, t, pc, ch, m);
    assert ThreadPlace(s, t);
    if pc.Ref().None? {
      ActUntargeted(cfg, s.g, s.TargetObject(t), n, t, pc, ch, m);
    } else {
      var c := pc.Ref().value;
      assert ClientPlace(s, c);
      assert s.Target(t) == Some(c);
      assert pc.CloseTake? && c in s.g.connToID ==> ConnEntry(s, c);
      ActLife(cfg, s.g, s.objs[c], n, t, c, pc, ch, m);
      ActKnowledge(cfg, s.g, s.objs[c], n, t, c, pc, ch, m);
      ActDriver(cfg, s.g, s.objs[c], n, t, c, pc, ch, m);
    }
  }

  lemma ThreadPlaceCommit(s: State, t: nat, m: Move, u: nat)
    requires s.Shape() && t < |s.threads| && Registry(s) && RegistryMove(s, t, m)
    requires Commit(s, t, m).Shape() && u < |Commit(s, t, m).threads|
    ensures ThreadPlace(Commit(s, t, m), u)
  {
    assert ThreadPlace(s, t);
    assert u < |s.threads| ==> ThreadPlace(s, u);
  }

  lemma DriverCommit(s: State, t: nat, m: Move, d: nat)
    requires s.Shape() && t < |s.threads| && Registry(s) && RegistryMove(s, t, m) && d < |s.objs|
    ensures s.Target(t) != Some(d) ==> Driver(Commit(s, t, m), d) == Driver(s, d)
    ensures s.Target(t) == Some(d) ==>
              Driver(Commit(s, t, m), d) == if Working(m.o.phase) && m.o.phase.worker == t then m.pc
                                            else if m.o.phase == s.objs[d].phase then Driver(s, d)
                                            else if Working(m.o.phase) then GoLock(d) else Done
  {
    assert ClientPlace(s, d) && ThreadPlace(s, t);
  }

  lemma ClientPlaceCommit(s: State, t: nat, m: Move, d: nat)
    requires s.Shape() && t < |s.threads| && Registry(s) && RegistryMove(s, t, m) && d < |s.objs|
    ensures ClientPlace(Commit(s, t, m), d)
  {
    assert ClientPlace(s, d) && ThreadPlace(s, t);
    DriverCommit(s, t, m, d);
  }

  lemma EntriesCommit(s: State, t: nat, m: Move)
    requires s.Shape() && t < |s.threads| && Registry(s) && RegistryMove(s, t, m) && Commit(s, t, m).Shape()
    ensures forall id :: id in m.g.clients ==> ClientEntry(Commit(s, t, m), id)
    ensures forall c :: c in m.g.connToID ==> ConnEntry(Commit(s, t, m), c)
  {
    var s' := Commit(s, t, m);
    assert ThreadPlace(s, t);
    forall id | id in m.g.clients
      ensures ClientEntry(s', id)
    {
      assert id in s.g.clients ==> ClientEntry(s, id);
      DriverCommit(s, t, m, s'.g.clients[id]);
      assert ClientPlace(s, s'.g.clients[id]);
    }
    forall c | c in m.g.connToID
      ensures ConnEntry(s', c)
    {
      assert c in s.g.connToID ==> ConnEntry(s, c);
    }
  }

  lemma RegistryKept(cfg: Config, s: State, t: nat, ch: Choice, m: Move)
    requires s.Shape() && t < |s.threads| && Registry(s) && Effect(cfg, s, t, ch) == Some(m)
    ensures RegistryMove(s, t, m) && Commit(s, t, m).Shape() && Registry(Commit(s, t, m))
  {
    RegistryMoves(cfg, s, t, ch, m);
    ShapeCommit(s, t, m);
    var s' := Commit(s, t, m);
    forall u | 0 <= u < |s'.threads|
      ensures ThreadPlace(s', u)
    {
      ThreadPlaceCommit(s, t, m, u);
    }
    forall d | 0 <= d < |s'.objs|
      ensures ClientPlace(s', d)
    {
      ClientPlaceCommit(s, t, m, d);
    }
    EntriesCommit(s, t, m);
  }

  lemma ClientPlaceStart(s: State, s': State, d: nat)
    requires s.Shape() && Registry(s) && Started(s, s') && d < |s'.objs|
    ensures ClientPlace(s', d) && (d < |s.objs| ==> Driver(s', d) == Driver(s, d))
  {
    assert d < |s.objs| ==> ClientPlace(s, d);
  }

  lemma RegistryKeptByStart(s: State, s': State)
    requires s.Shape() && Registry(s) && Started(s, s') && s'.Shape()
    ensures Registry(s')
  {
    forall d | 0 <= d < |s'.objs|
      ensures ClientPlace(s', d) && (d < |s.objs| ==> Driver(s', d) == Driver(s, d))
    {
      ClientPlaceStart(s, s', d);
    }
    forall u | 0 <= u < |s'.threads|
      ensures ThreadPlace(s', u)
    {
      assert u < |s.threads| ==> ThreadPlace(s, u);
    }
    forall id | id in s'.g.clients
      ensures ClientEntry(s', id)
    {
      assert ClientEntry(s, id);
    }
    forall c | c in s'.g.connToID
      ensures ConnEntry(s', c)
    {
      assert ConnEntry(s, c);
    }
  }
}
