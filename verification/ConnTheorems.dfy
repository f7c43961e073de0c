/** What holds in every reachable state of the connection manager, and over every run. */
module ConnTheorems {
  import opened Wrappers
  import opened ConnProtocol
  import opened ConnLocks
  import opened ConnRegistry
  import opened ConnBooks

  // ---------- The cap and the loop over Databases

  ghost function Cap(cfg: Config): int { if cfg.maxDB < 0 then 0 else cfg.maxDB }

  ghost predicate ThreadCap(cfg: Config, s: State, t: nat)
    requires t < |s.threads|
  {
    s.threads[t].Opening? || s.threads[t].OpenCount? ==> s.g.dbCount < cfg.maxDB && cfg.hasOpener
  }

  /** A loop over Databases has left to visit only entries that are in `clients` while it lasts. */
  ghost predicate ThreadRange(s: State, t: nat)
    requires t < |s.threads|
  {
    match s.threads[t]
    case RangeNext(todo) => todo <= s.g.clients.Keys
    case RangeLock(c, id, todo) => id in s.g.clients && s.g.clients[id] == c && todo <= s.g.clients.Keys
    case RangeVisit(c, id, todo) => id in s.g.clients && s.g.clients[id] == c && todo <= s.g.clients.Keys
    case _ => true
  }

  ghost predicate Bounded(cfg: Config, s: State) {
    && s.g.dbCount <= Cap(cfg)
    && (forall t :: 0 <= t < |s.threads| ==> ThreadCap(cfg, s, t) && ThreadRange(s, t))
  }

  /** The entries of `clients` change only when nobody reads; the counter only under `dbMutex`. */
  ghost predicate BoundMove(cfg: Config, g: Shared, t: nat, pc: Pc, m: Move) {
    && (m.g.clients == g.clients || g.readers == {})
    && (m.g.dbCount <= g.dbCount || pc.OpenCount?)
    && m.g.dbCount <= g.dbCount + 1
    && (m.pc.Opening? || m.pc.OpenCount? ==> m.g.dbCount < cfg.maxDB && cfg.hasOpener)
    && (match m.pc
        case RangeNext(todo) => todo <= m.g.clients.Keys
        case RangeLock(c, id, todo) => id in m.g.clients && m.g.clients[id] == c && todo <= m.g.clients.Keys
        case RangeVisit(c, id, todo) => id in m.g.clients && m.g.clients[id] == c && todo <= m.g.clients.Keys
        case _ => true)
    && (m.spawn != [] ==> m.spawn[0].GoLock?)
  }

  lemma ActBound(cfg: Config, g: Shared, o: Client, n: nat, t: nat, pc: Pc, ch: Choice, m: Move)
    requires Act(cfg, g, o, n, t, pc, ch) == Some(m)
    requires pc.Opening? || pc.OpenCount? ==> g.dbCount < cfg.maxDB && cfg.hasOpener
    requires match pc
             case RangeNext(todo) => todo <= g.clients.Keys
             case RangeLock(c, id, todo) => id in g.clients && g.clients[id] == c && todo <= g.clients.Keys
             case RangeVisit(c, id, todo) => id in g.clients && g.clients[id] == c && todo <= g.clients.Keys
             case _ => true
    ensures BoundMove(cfg, g, t, pc, m)
  {
  }

  lemma BoundedKept(cfg: Config, s: State, t: nat, ch: Choice, m: Move)
    requires s.Shape() && t < |s.threads| && Locks(s) && Bounded(cfg, s)
    requires Effect(cfg, s, t, ch) == Some(m) && LockMove(s, t, m)
    ensures Bounded(cfg, Commit(s, t, m))
  {
    var s' := Commit(s, t, m);
    assert ThreadCap(cfg, s, t) && ThreadRange(s, t) && ThreadLocks(s, t);
    ActBound(cfg, s.g, s.TargetObject(t), |s.threads|, t, s.threads[t], ch, m);
    forall u | 0 <= u < |s'.threads|
      ensures ThreadCap(cfg, s', u) && ThreadRange(s', u)
    {
      if u < |s.threads| {
        assert ThreadCap(cfg, s, u) && ThreadRange(s, u) && ThreadLocks(s, u);
      }
    }
  }

  // ---------- The invariant

  ghost predicate Inv(cfg: Config, s: State) {
    s.Shape() && Locks(s) && Registry(s) && Books(s) && Bounded(cfg, s)
  }

  lemma InvKept(cfg: Config, s: State, t: nat, ch: Choice, m: Move)
    requires Inv(cfg, s) && t < |s.threads| && Effect(cfg, s, t, ch) == Some(m)
    ensures LockMove(s, t, m) && RegistryMove(s, t, m) && BookMove(s, t, m) && Inv(cfg, Commit(s, t, m))
  {
    LocksKept(cfg, s, t, ch, m);
    RegistryKept(cfg, s, t, ch, m);
    BooksKept(cfg, s, t, ch, m);
    BoundedKept(cfg, s, t, ch, m);
  }

  lemma InvKeptByStart(cfg: Config, s: State, call: Call, s': State)
    requires Inv(cfg, s) && Start(s, call) == Some(s')
    ensures Started(s, s') && Inv(cfg, s')
  {
    StartStarts(s, call, s');
    LocksKeptByStart(s, s');
    RegistryKeptByStart(s, s');
    BooksKeptByStart(s, s');
    forall u | 0 <= u < |s'.threads|
      ensures ThreadCap(cfg, s', u) && ThreadRange(s', u)
    {
      assert u < |s.threads| ==> ThreadCap(cfg, s, u) && ThreadRange(s, u);
    }
  }

  lemma {:induction false} InvOverRuns(cfg: Config, s: State, es: seq<Event>, s': State)
    requires Inv(cfg, s) && Exec(cfg, s, es) == Some(s')
    ensures Inv(cfg, s')
    decreases es
  {
    if es != [] {
      var next := Apply(cfg, s, es[0]).value;
      match es[0] {
        case Begin(call) => InvKeptByStart(cfg, s, call, next);
        case Run(t, ch) => InvKept(cfg, s, t, ch, Effect(cfg, s, t, ch).value);
      }
      InvOverRuns(cfg, next, es[1..], s');
    }
  }

  lemma InvInit(cfg: Config)
    ensures Inv(cfg, INIT)
  {
    assert CountedClients(INIT) == {} && CarryingClients(INIT) == {};
  }

  ghost predicate Reachable(cfg: Config, s: State) {
    exists es :: Exec(cfg, INIT, es) == Some(s)
  }

  lemma InvReachable(cfg: Config, s: State)
    requires Reachable(cfg, s)
    ensures Inv(cfg, s)
  {
    var es :| Exec(cfg, INIT, es) == Some(s);
    InvInit(cfg);
    InvOverRuns(cfg, INIT, es, s);
  }
}
