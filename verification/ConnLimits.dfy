/**
  What the cap and the IDs do not promise, and exactly when they do: instances within
  the cap, connection IDs told apart, instances that stay open for good.
 */
module ConnLimits {
  import opened Wrappers
  import opened ConnProtocol
  import opened ConnLocks
  import opened ConnRegistry
  import opened ConnBooks
  import opened ConnTheorems
  import opened ConnResults
  import opened ConnProgress
  import opened ConnHistory

  // ---------- Connection IDs

  /** The ID a client has from its entry in `clients` until its close has finished. */
  ghost function Key(s: State, c: nat): Option<ID>
    requires c < |s.objs|
  {
    var phase := s.objs[c].phase;
    if phase.Detached? then Some(phase.id) else Held(phase, Driver(s, c))
  }

  /** Clients whose close has not finished have different IDs. */
  ghost predicate KeysDistinct(s: State) {
    forall c, d :: 0 <= c < |s.objs| && 0 <= d < |s.objs| && c != d && Key(s, c).Some? ==> Key(s, c) != Key(s, d)
  }

  /** The step enters a client into `clients`. */
  ghost predicate Enters(s: State, t: nat) {
    t < |s.threads| && s.threads[t].RegInsert? && s.threads[t].id !in s.g.clients
  }

  /** A registration takes the ID of a client that a goroutine is still to close. */
  ghost predicate Reuse(s: State, e: Event) {
    e.Run? && Enters(s, e.t)
    && exists d :: 0 <= d < |s.objs| && s.objs[d].phase.Detached? && s.objs[d].phase.id == s.threads[e.t].id
  }

  lemma KeyMove(cfg: Config, s: State, t: nat, ch: Choice, m: Move, d: nat)
    requires Inv(cfg, s) && t < |s.threads| && Effect(cfg, s, t, ch) == Some(m) && RegistryMove(s, t, m) && d < |s.objs|
    ensures Enters(s, t) && s.threads[t].c == d ==>
              Key(s, d) == None && Key(Commit(s, t, m), d) == Some(s.threads[t].id)
    ensures !(Enters(s, t) && s.threads[t].c == d) ==>
              Key(Commit(s, t, m), d) == Key(s, d)
              || (Key(Commit(s, t, m), d) == None && s.objs[d].phase.Detached? && s.threads[t].Goroutine())
  {
    assert ThreadPlace(s, t) && ClientPlace(s, d);
    DriverCommit(s, t, m, d);
  }

  /** From a state with different IDs, a step leads to one with different IDs if and only if it reuses none. */
  lemma KeysStep(cfg: Config, s: State, e: Event, s': State)
    requires Inv(cfg, s) && KeysDistinct(s) && Apply(cfg, s, e) == Some(s')
    ensures Inv(cfg, s') && (KeysDistinct(s') <==> !Reuse(s, e))
  {
    match e
    case Begin(call) =>
      InvKeptByStart(cfg, s, call, s');
      KeysStart(s, s');
    case Run(t, ch) =>
      var m := Effect(cfg, s, t, ch).value;
      InvKept(cfg, s, t, ch, m);
      if Reuse(s, e) {
        var c, d := KeysClash(cfg, s, t, ch, m);
        assert !KeysDistinct(s');
      } else {
        KeysKept(cfg, s, t, ch, m);
      }
  }

  lemma KeysStart(s: State, s': State)
    requires s.Shape() && Registry(s) && KeysDistinct(s) && Started(s, s')
    ensures KeysDistinct(s')
  {
    forall c | 0 <= c < |s'.objs|
      ensures Key(s', c) == if c < |s.objs| then Key(s, c) else None
    {
      ClientPlaceStart(s, s', c);
    }
  }

  lemma KeysKept(cfg: Config, s: State, t: nat, ch: Choice, m: Move)
    requires Inv(cfg, s) && KeysDistinct(s) && t < |s.threads| && Effect(cfg, s, t, ch) == Some(m) && RegistryMove(s, t, m)
    requires !Reuse(s, Run(t, ch))
    ensures KeysDistinct(Commit(s, t, m))
  {
    var s' := Commit(s, t, m);
    forall c, d | 0 <= c < |s'.objs| && 0 <= d < |s'.objs| && c != d && Key(s', c).Some?
      ensures Key(s', c) != Key(s', d)
    {
      KeyMove(cfg, s, t, ch, m, c);
      KeyMove(cfg, s, t, ch, m, d);
      assert ClientPlace(s, c) && ClientPlace(s, d);
    }
  }

  /** A reuse gives the entering client `c` the ID of `d`. */
  lemma KeysClash(cfg: Config, s: State, t: nat, ch: Choice, m: Move) returns (c: nat, d: nat)
    requires Inv(cfg, s) && t < |s.threads| && Effect(cfg, s, t, ch) == Some(m) && RegistryMove(s, t, m)
    requires Reuse(s, Run(t, ch))
    ensures c < |s.objs| && d < |s.objs| && c != d && Key(Commit(s, t, m), c).Some?
    ensures Key(Commit(s, t, m), c) == Key(Commit(s, t, m), d)
  {
    c := s.threads[t].c;
    d :| 0 <= d < |s.objs| && s.objs[d].phase.Detached? && s.objs[d].phase.id == s.threads[t].id;
    KeyMove(cfg, s, t, ch, m, c);
    KeyMove(cfg, s, t, ch, m, d);
  }

  /** Every state of the run has different IDs. */
  ghost predicate KeysStayDistinct(cfg: Config, s: State, es: seq<Event>)
    decreases es
  {
    KeysDistinct(s)
    && (es == [] || (Apply(cfg, s, es[0]).Some? ==> KeysStayDistinct(cfg, Apply(cfg, s, es[0]).value, es[1..])))
  }

  ghost predicate NoReuse(cfg: Config, s: State, es: seq<Event>)
    decreases es
  {
    es == [] || (!Reuse(s, es[0]) && (Apply(cfg, s, es[0]).Some? ==> NoReuse(cfg, Apply(cfg, s, es[0]).value, es[1..])))
  }

  lemma {:induction false} KeysOverRuns(cfg: Config, s: State, es: seq<Event>, end: State)
    requires Inv(cfg, s) && KeysDistinct(s) && Exec(cfg, s, es) == Some(end)
    ensures KeysStayDistinct(cfg, s, es) <==> NoReuse(cfg, s, es)
    ensures NoReuse(cfg, s, es) ==> KeysDistinct(end)
    decreases es
  {
    if es != [] {
      var next := Apply(cfg, s, es[0]).value;
      KeysStep(cfg, s, es[0], next);
      if !Reuse(s, es[0]) {
        KeysOverRuns(cfg, next, es[1..], end);
      } else if es[1..] != [] {
        assert !KeysStayDistinct(cfg, next, es[1..]);
      }
    }
  }

  /** Throughout a run the clients not yet closed have different IDs, if and only if no registration reuses one. */
  lemma DistinctIffNoReuse(cfg: Config, es: seq<Event>, end: State)
    requires Exec(cfg, INIT, es) == Some(end)
    ensures KeysStayDistinct(cfg, INIT, es) <==> NoReuse(cfg, INIT, es)
  {
    InvInit(cfg);
    KeysOverRuns(cfg, INIT, es, end);
  }

  /**
    With no ID reused and no Conn after a client's close, instances alive belong to
    clients with different ID fields; so a Closer never runs under the ID of another
    client that carries an instance.
   */
  lemma LiveNamesDistinct(cfg: Config, es: seq<Event>, s: State)
    requires Exec(cfg, INIT, es) == Some(s) && NoReuse(cfg, INIT, es) && NoLateConn(cfg, INIT, es)
    ensures forall c, d :: 0 <= c < |s.objs| && 0 <= d < |s.objs| && c != d
                           && Carrying(s, c).Some? && Carrying(s, d).Some? && s.objs[c].name.Some? ==>
              s.objs[c].name != s.objs[d].name
  {
    InvInit(cfg);
    KeysOverRuns(cfg, INIT, es, s);
    CalmOverRuns(cfg, INIT, es, s);
    InvOverRuns(cfg, INIT, es, s);
    forall c | 0 <= c < |s.objs| && Carrying(s, c).Some? && s.objs[c].name.Some?
      ensures Key(s, c) == s.objs[c].name
    {
      assert Rightful(s, c) && ClientPlace(s, c);
    }
  }

  // ---------- Instances within the cap

  /** An Open succeeds although the slots taken, with those whose Closer is still running, are as many as the cap. */
  ghost predicate Overrun(cfg: Config, s: State, e: Event) {
    e.Run? && e.t < |s.threads| && s.threads[e.t].Opening? && e.ch.ok && s.g.dbCount + |BeingClosed(s)| >= Cap(cfg)
  }

  lemma ActAlive(cfg: Config, g: Shared, o: Client, n: nat, t: nat, pc: Pc, ch: Choice, m: Move)
    requires Act(cfg, g, o, n, t, pc, ch) == Some(m)
    ensures if pc.Opening? && ch.ok then |m.g.opens| == |g.opens| + 1 && m.g.closes == g.closes
            else m.g.opens == g.opens && |m.g.closes| >= |g.closes|
  {
  }

  /** From a state with no more instances than the cap, a step leads to another if and only if it is no overrun. */
  lemma AliveStep(cfg: Config, s: State, e: Event, s': State)
    requires Inv(cfg, s) && Alive(s) <= Cap(cfg) && Apply(cfg, s, e) == Some(s')
    ensures Inv(cfg, s') && (Alive(s') <= Cap(cfg) <==> !Overrun(cfg, s, e))
  {
    match e
    case Begin(call) => InvKeptByStart(cfg, s, call, s');
    case Run(t, ch) =>
      var m := Effect(cfg, s, t, ch).value;
      InvKept(cfg, s, t, ch, m);
      ActAlive(cfg, s.g, s.TargetObject(t), |s.threads|, t, s.threads[t], ch, m);
      if s.threads[t].Opening? {
        AliveSplits(cfg, s);
        RoomForCounting(cfg, s);
        assert ThreadLocks(s, t);
      }
  }

  ghost predicate StaysWithinCap(cfg: Config, s: State, es: seq<Event>)
    decreases es
  {
    Alive(s) <= Cap(cfg)
    && (es == [] || (Apply(cfg, s, es[0]).Some? ==> StaysWithinCap(cfg, Apply(cfg, s, es[0]).value, es[1..])))
  }

  ghost predicate NoOverrun(cfg: Config, s: State, es: seq<Event>)
    decreases es
  {
    es == [] || (!Overrun(cfg, s, es[0])
                 && (Apply(cfg, s, es[0]).Some? ==> NoOverrun(cfg, Apply(cfg, s, es[0]).value, es[1..])))
  }

  lemma {:induction false} AliveOverRuns(cfg: Config, s: State, es: seq<Event>, end: State)
    requires Inv(cfg, s) && Alive(s) <= Cap(cfg) && Exec(cfg, s, es) == Some(end)
    ensures StaysWithinCap(cfg, s, es) <==> NoOverrun(cfg, s, es)
    decreases es
  {
    if es != [] {
      var next := Apply(cfg, s, es[0]).value;
      AliveStep(cfg, s, es[0], next);
      if !Overrun(cfg, s, es[0]) {
        AliveOverRuns(cfg, next, es[1..], end);
      } else {
        assert !StaysWithinCap(cfg, next, es[1..]);
      }
    }
  }

  /** Throughout a run no more instances are alive than the cap allows, if and only if no Open is an overrun. */
  lemma WithinCapIffNoOverrun(cfg: Config, es: seq<Event>, end: State)
    requires Exec(cfg, INIT, es) == Some(end)
    ensures StaysWithinCap(cfg, INIT, es) <==> NoOverrun(cfg, INIT, es)
  {
    InvInit(cfg);
    AliveOverRuns(cfg, INIT, es, end);
  }

  // ---------- Instances that stay open for good

  /** The instances opened on a client after its close. */
  ghost function LateOpens(s: State): set<nat> {
    set k | 0 <= k < |s.g.opens| && s.g.opens[k].late
  }

  /** A map that takes different keys to different members of `b` has no more keys than `b` has members. */
  lemma {:induction false} Injection(f: map<nat, nat>, b: set<nat>)
    requires forall i :: i in f ==> f[i] in b
    requires forall i, j :: i in f && j in f && f[i] == f[j] ==> i == j
    ensures |f.Keys| <= |b|
    decreases |f.Keys|
  {
    if i :| i in f {
      var rest := f - {i};
      assert f.Keys == rest.Keys + {i};
      Injection(rest, b - {f[i]});
    } else {
      assert f.Keys == {};
    }
  }

  lemma LateHolder(cfg: Config, s: State, k: nat)
    requires Inv(cfg, s) && k in LateOpens(s)
    ensures k !in s.g.closes && s.g.opens[k].c < |s.objs| && Carrying(s, s.g.opens[k].c) == Some(k)
    ensures s.g.opens[k].c in CountedClients(s) + BeingCounted(s)
  {
    var c := s.g.opens[k].c;
    assert Conserved(s, k) && ClientFields(s, c) && ClientLock(s, c);
    if s.objs[c].mu.Some? {
      assert ThreadPlace(s, s.objs[c].mu.value);
    }
  }

  lemma LateOpensHeld(cfg: Config, s: State)
    requires Inv(cfg, s)
    ensures forall k :: k in LateOpens(s) ==> k !in s.g.closes
    ensures |LateOpens(s)| <= |CountedClients(s) + BeingCounted(s)|
  {
    var f := map k | k in LateOpens(s) :: s.g.opens[k].c;
    forall k | k in LateOpens(s)
      ensures k !in s.g.closes && s.g.opens[k].c < |s.objs| && Carrying(s, s.g.opens[k].c) == Some(k)
      ensures s.g.opens[k].c in CountedClients(s) + BeingCounted(s)
    {
      LateHolder(cfg, s, k);
    }
    assert f.Keys == LateOpens(s);
    Injection(f, CountedClients(s) + BeingCounted(s));
  }

  /** No late instance is ever closed, and each takes up a slot: in the counter, or about to. */
  lemma LateOpensStay(cfg: Config, s: State)
    requires Reachable(cfg, s)
    ensures forall k :: k in LateOpens(s) ==> k !in s.g.closes
    ensures |LateOpens(s)| <= s.g.dbCount + |BeingCounted(s)|
    ensures s.g.dbMutex.None? ==> |LateOpens(s)| <= s.g.dbCount
  {
    InvReachable(cfg, s);
    LateOpensHeld(cfg, s);
    RoomForCounting(cfg, s);
    UnionSize(CountedClients(s), BeingCounted(s));
  }

  lemma UnionSize(a: set<nat>, b: set<nat>)
    ensures |a + b| <= |a| + |b|
  {
    assert a + b == a + (b - a) && |b - a| <= |b|;
  }

  lemma OpensStep(cfg: Config, s: State, e: Event, s': State)
    requires Inv(cfg, s) && Apply(cfg, s, e) == Some(s')
    ensures Inv(cfg, s') && s.g.opens <= s'.g.opens
  {
    match e
    case Begin(call) => InvKeptByStart(cfg, s, call, s');
    case Run(t, ch) => InvKept(cfg, s, t, ch, Effect(cfg, s, t, ch).value);
  }

  lemma {:induction false} OpensGrow(cfg: Config, s: State, es: seq<Event>, end: State)
    requires Inv(cfg, s) && Exec(cfg, s, es) == Some(end)
    ensures s.g.opens <= end.g.opens
    decreases es
  {
    if es != [] {
      var next := Apply(cfg, s, es[0]).value;
      OpensStep(cfg, s, es[0], next);
      OpensGrow(cfg, next, es[1..], end);
    }
  }

  lemma {:induction false} ReachableRun(cfg: Config, s: State, es: seq<Event>, end: State)
    requires Reachable(cfg, s) && Exec(cfg, s, es) == Some(end)
    ensures Reachable(cfg, end)
    decreases es
  {
    if es != [] {
      var next := Apply(cfg, s, es[0]).value;
      ReachableStep(cfg, s, es[0], next);
      ReachableRun(cfg, next, es[1..], end);
    }
  }

  /** Once an instance was opened late, no continuation of the run closes it. */
  lemma LateForGood(cfg: Config, s: State, es: seq<Event>, end: State, k: nat)
    requires Reachable(cfg, s) && k in LateOpens(s) && Exec(cfg, s, es) == Some(end)
    ensures k in LateOpens(end) && k !in end.g.closes
  {
    InvReachable(cfg, s);
    OpensGrow(cfg, s, es, end);
    ReachableRun(cfg, s, es, end);
    LateOpensStay(cfg, end);
  }

  lemma NoRoomLeft(cfg: Config, s: State)
    requires Reachable(cfg, s) && |LateOpens(s)| >= Cap(cfg)
    ensures forall t :: 0 <= t < |s.threads| ==> !s.threads[t].Opening?
  {
    LateOpensStay(cfg, s);
    InvReachable(cfg, s);
    RoomForCounting(cfg, s);
    forall t | 0 <= t < |s.threads|
      ensures !s.threads[t].Opening?
    {
      assert ThreadCap(cfg, s, t) && ThreadLocks(s, t);
    }
  }

  /** Every late instance costs a slot for good: once there are as many as the cap, nothing is ever opened again. */
  lemma {:induction false} SlotsLost(cfg: Config, s: State, es: seq<Event>, end: State)
    requires Reachable(cfg, s) && |LateOpens(s)| >= Cap(cfg) && Exec(cfg, s, es) == Some(end)
    ensures end.g.opens == s.g.opens
    decreases es
  {
    if es != [] {
      var next := Apply(cfg, s, es[0]).value;
      NoRoomLeft(cfg, s);
      if es[0].Run? {
        var t, ch := es[0].t, es[0].ch;
        ActAlive(cfg, s.g, s.TargetObject(t), |s.threads|, t, s.threads[t], ch, Effect(cfg, s, t, ch).value);
      }
      ReachableStep(cfg, s, es[0], next);
      SlotsLost(cfg, next, es[1..], end);
    }
  }
}
