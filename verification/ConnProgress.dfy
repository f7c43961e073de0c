/** Every operation ends: the length of a run without new calls is bounded in advance. */
module ConnProgress {
  import opened GoTypes
  import opened Wrappers
  import opened ConnProtocol
  import opened ConnLocks
  import opened ConnRegistry
  import opened ConnBooks
  import opened ConnTheorems
  import opened ConnResults

  /** The steps a thread at `pc` and the goroutine it will start can still take, among `n` clients. */
  ghost function Rank(pc: Pc, n: nat): nat {
    match pc
    case RegDraw(_) => 4
    case RegInsert(_, _) => 3
    case RegLink(_, _) => 2
    case RegName(_, _) => 1
    case CloseTake(_) => 8
    case CloseLookup(_, _) => 7
    case CloseDrop(_, _) => 6
    case GoLock(_) => 5
    case GoConn(_) => 4
    case GoCount(_, _) => 3
    case GoCloser(_, _) => 2
    case GoUnlock(_) => 1
    case ReqLoad(_) => 9
    case ConnLock(_) => 8
    case ConnCheck(_) => 7
    case OpenLock(_) => 6
    case OpenCheck(_) => 5
    case Opening(_) => 4
    case OpenCount(_, _) => 3
    case Install(_, _) => 2
    case ConnReturn(_, _) => 1
    case RangeEnter => 3 * n + 3
    case RangeNext(todo) => 3 * |todo| + 2
    case RangeLock(_, _, todo) => 3 * |todo| + 4
    case RangeVisit(_, _, todo) => 3 * |todo| + 3
    case RangeLeave => 1
    case Done => 0
  }

  ghost function Total(threads: seq<Pc>, n: nat): nat {
    if threads == [] then 0 else Total(threads[..|threads| - 1], n) + Rank(threads[|threads| - 1], n)
  }

  lemma {:induction false} TotalUpdate(threads: seq<Pc>, t: nat, pc: Pc, n: nat)
    requires t < |threads|
    ensures Total(threads[t := pc], n) == Total(threads, n) - Rank(threads[t], n) + Rank(pc, n)
    decreases |threads|
  {
    var last := |threads| - 1;
    if t == last {
      assert threads[t := pc][..last] == threads[..last];
    } else {
      assert threads[t := pc][..last] == threads[..last][t := pc];
      TotalUpdate(threads[..last], t, pc, n);
    }
  }

  /** Distinct clients below `n`: a map holds at most `n` of them. */
  lemma {:induction false} AtMostAll(m: map<ID, nat>, n: nat)
    requires forall i :: i in m ==> m[i] < n
    requires forall i, j :: i in m && j in m && m[i] == m[j] ==> i == j
    ensures |m.Keys| <= n
    decreases n
  {
    if n == 0 {
      assert m.Keys == {};
    } else if i :| i in m && m[i] == n - 1 {
      var rest := m - {i};
      AtMostAll(rest, n - 1);
      assert m.Keys == rest.Keys + {i};
    } else {
      AtMostAll(m, n - 1);
    }
  }

  /** A registration draws an ID that is in use, and has to draw again. */
  ghost predicate Collision(s: State, t: nat)
    requires t < |s.threads|
  {
    s.threads[t].RegInsert? && s.threads[t].id in s.g.clients
  }

  lemma ActRank(cfg: Config, g: Shared, o: Client, n: nat, t: nat, pc: Pc, ch: Choice, m: Move, all: nat)
    requires Act(cfg, g, o, n, t, pc, ch) == Some(m)
    requires !(pc.RegInsert? && pc.id in g.clients) && !pc.RangeEnter? && !pc.RangeNext?
    ensures Rank(m.pc, all) + 5 * |m.spawn| < Rank(pc, all)
    ensures m.spawn == [] || (|m.spawn| == 1 && m.spawn[0].GoLock?)
  {
  }

  /** How a loop over Databases advances. */
  ghost predicate Advance(keys: set<ID>, pc: Pc, next: Pc, id: ID) {
    || (pc.RangeEnter? && next == RangeNext(keys))
    || (pc.RangeNext? && next == RangeLeave)
    || (pc.RangeNext? && id in pc.todo && next.RangeLock? && next.todo == pc.todo - {id})
  }

  lemma ActLoop(cfg: Config, g: Shared, o: Client, n: nat, t: nat, pc: Pc, ch: Choice, m: Move)
    requires Act(cfg, g, o, n, t, pc, ch) == Some(m) && (pc.RangeEnter? || pc.RangeNext?)
    ensures Advance(g.clients.Keys, pc, m.pc, ch.id) && m.spawn == []
  {
  }

  lemma RankLoop(keys: set<ID>, pc: Pc, next: Pc, id: ID, all: nat)
    requires Advance(keys, pc, next, id) && |keys| <= all
    ensures Rank(next, all) < Rank(pc, all)
  {
    if next.RangeLock? {
      assert |pc.todo - {id}| == |pc.todo| - 1;
    }
  }

  lemma RankFalls(cfg: Config, s: State, t: nat, ch: Choice, m: Move)
    requires Reachable(cfg, s) && s.Shape() && t < |s.threads| && Effect(cfg, s, t, ch) == Some(m) && !Collision(s, t)
    ensures Rank(m.pc, |s.objs|) + 5 * |m.spawn| < Rank(s.threads[t], |s.objs|)
    ensures m.spawn == [] || (|m.spawn| == 1 && m.spawn[0].GoLock?)
  {
    if s.threads[t].RangeEnter? || s.threads[t].RangeNext? {
      MapsAgree(cfg, s);
      AtMostAll(s.g.clients, |s.objs|);
      ActLoop(cfg, s.g, s.TargetObject(t), |s.threads|, t, s.threads[t], ch, m);
      RankLoop(s.g.clients.Keys, s.threads[t], m.pc, ch.id, |s.objs|);
    } else {
      ActRank(cfg, s.g, s.TargetObject(t), |s.threads|, t, s.threads[t], ch, m, |s.objs|);
    }
  }

  lemma TotalAppend(threads: seq<Pc>, spawn: seq<Pc>, n: nat)
    requires spawn == [] || (|spawn| == 1 && spawn[0].GoLock?)
    ensures Total(threads + spawn, n) == Total(threads, n) + 5 * |spawn|
  {
    if spawn == [] {
      assert threads + spawn == threads;
    } else {
      assert (threads + spawn)[..|threads|] == threads;
    }
  }

  lemma TotalFalls(cfg: Config, s: State, t: nat, ch: Choice, s': State)
    requires Reachable(cfg, s) && Apply(cfg, s, Run(t, ch)) == Some(s') && !Collision(s, t)
    ensures |s'.objs| == |s.objs| && Total(s'.threads, |s.objs|) < Total(s.threads, |s.objs|)
  {
    var m := Effect(cfg, s, t, ch).value;
    RankFalls(cfg, s, t, ch, m);
    TotalUpdate(s.threads, t, m.pc, |s.objs|);
    TotalAppend(s.threads[t := m.pc], m.spawn, |s.objs|);
  }

  /** A run from `s` to `end` in which no operation is begun. */
  ghost predicate StepsTo(cfg: Config, s: State, es: seq<Event>, end: State)
    decreases es
  {
    if es == [] then s == end
    else es[0].Run? && Apply(cfg, s, es[0]).Some? && StepsTo(cfg, Apply(cfg, s, es[0]).value, es[1..], end)
  }

  /** How many registrations of the run have to draw again. */
  ghost function Collisions(cfg: Config, s: State, es: seq<Event>): nat
    decreases es
  {
    if es == [] || !es[0].Run? || es[0].t >= |s.threads| || Apply(cfg, s, es[0]).None? then 0
    else (if Collision(s, es[0].t) then 1 else 0) + Collisions(cfg, Apply(cfg, s, es[0]).value, es[1..])
  }

  /** Drawing again raises the rank of a registration by one. */
  lemma TotalRisesByOne(cfg: Config, s: State, t: nat, ch: Choice, s': State)
    requires s.Shape() && Apply(cfg, s, Run(t, ch)) == Some(s') && Collision(s, t)
    ensures |s'.objs| == |s.objs| && Total(s'.threads, |s.objs|) == Total(s.threads, |s.objs|) + 1
  {
    TotalUpdate(s.threads, t, RegDraw(s.threads[t].c), |s.objs|);
    assert s'.threads == s.threads[t := RegDraw(s.threads[t].c)];
  }

  lemma {:induction false} ReachableStep(cfg: Config, s: State, e: Event, s': State)
    requires Reachable(cfg, s) && Apply(cfg, s, e) == Some(s')
    ensures Reachable(cfg, s')
  {
    var es :| Exec(cfg, INIT, es) == Some(s);
    ExecExtend(cfg, INIT, es, s, e);
  }

  lemma {:induction false} ExecExtend(cfg: Config, s: State, es: seq<Event>, end: State, e: Event)
    requires Exec(cfg, s, es) == Some(end)
    ensures Exec(cfg, s, es + [e]) == Apply(cfg, end, e)
    decreases es
  {
    if es == [] {
      assert es + [e] == [e];
      if Apply(cfg, s, e).Some? {
        assert Exec(cfg, Apply(cfg, s, e).value, []) == Apply(cfg, s, e);
      }
    } else {
      assert (es + [e])[0] == es[0] && (es + [e])[1..] == es[1..] + [e];
      ExecExtend(cfg, Apply(cfg, s, es[0]).value, es[1..], end, e);
    }
  }

  lemma {:induction false} StepsBounded(cfg: Config, s: State, es: seq<Event>, end: State)
    requires Reachable(cfg, s) && StepsTo(cfg, s, es, end)
    ensures Reachable(cfg, end) && |es| <= Total(s.threads, |s.objs|) + 2 * Collisions(cfg, s, es)
    decreases es
  {
    if es != [] {
      var next := Apply(cfg, s, es[0]).value;
      if Collision(s, es[0].t) {
        TotalRisesByOne(cfg, s, es[0].t, es[0].ch, next);
      } else {
        TotalFalls(cfg, s, es[0].t, es[0].ch, next);
      }
      ReachableStep(cfg, s, es[0], next);
      StepsBounded(cfg, next, es[1..], end);
    }
  }

  /**
    Operations already begun take no more steps than known in advance, plus two for every
    draw that collides; and when nothing can step any more, every one of them has ended.
   */
  lemma OperationsEnd(cfg: Config, s: State, es: seq<Event>, end: State)
    requires Reachable(cfg, s) && StepsTo(cfg, s, es, end)
    ensures |es| <= Total(s.threads, |s.objs|) + 2 * Collisions(cfg, s, es)
    ensures (forall t: nat :: !CanStep(cfg, end, t)) ==> forall t :: 0 <= t < |end.threads| ==> end.threads[t].Done?
  {
    StepsBounded(cfg, s, es, end);
    if exists t :: 0 <= t < |end.threads| && !end.threads[t].Done? {
      DeadlockFree(cfg, end);
    }
  }

  // ---------- There is always a way to the end

  ghost predicate Colliding(s: State) {
    exists t :: 0 <= t < |s.threads| && Collision(s, t)
  }

  /** Steps left when every new draw is of a free ID. */
  ghost function Left(s: State): nat {
    Total(s.threads, |s.objs|) + if Colliding(s) then 2 else 0
  }

  /** A move of a thread that does not announce a used ID makes no registration collide. */
  lemma NoNewCollision(cfg: Config, s: State, t: nat, ch: Choice, s': State, u: nat)
    requires Inv(cfg, s) && Apply(cfg, s, Run(t, ch)) == Some(s') && !Collision(s, t)
    requires s.threads[t].RegDraw? ==> ch.id !in s.g.clients
    requires u < |s'.threads| && Collision(s', u)
    ensures u < |s.threads| && Collision(s, u)
  {
    var m := Effect(cfg, s, t, ch).value;
    LocksKept(cfg, s, t, ch, m);
    assert ThreadLocks(s', u) && ThreadLocks(s, t);
    assert u < |s.threads| ==> ThreadLocks(s, u);
    AnnouncesDrawn(cfg, s.g, s.TargetObject(t), |s.threads|, t, s.threads[t], ch, m);
  }

  lemma AnnouncesDrawn(cfg: Config, g: Shared, o: Client, n: nat, t: nat, pc: Pc, ch: Choice, m: Move)
    requires Act(cfg, g, o, n, t, pc, ch) == Some(m)
    ensures m.pc.RegInsert? ==> pc.RegDraw? && m.pc.id == ch.id && m.g.clients == g.clients
    ensures m.g.clients != g.clients ==> pc.HoldsWrite() && m.g.writer == None
  {
  }

  /** After a collision nobody stands at the client map. */
  lemma CollisionPasses(cfg: Config, s: State, t: nat, ch: Choice, s': State)
    requires Inv(cfg, s) && Apply(cfg, s, Run(t, ch)) == Some(s') && Collision(s, t)
    ensures !Colliding(s')
  {
    var m := Effect(cfg, s, t, ch).value;
    LocksKept(cfg, s, t, ch, m);
    forall u | 0 <= u < |s'.threads|
      ensures !Collision(s', u)
    {
      assert ThreadLocks(s', u);
    }
  }

  lemma LeftFalls(cfg: Config, s: State, t: nat, ch: Choice, s': State)
    requires Reachable(cfg, s) && Apply(cfg, s, Run(t, ch)) == Some(s')
    requires s.threads[t].RegDraw? ==> ch.id !in s.g.clients
    ensures |s'.objs| == |s.objs| && Left(s') < Left(s)
  {
    InvReachable(cfg, s);
    if Collision(s, t) {
      TotalRisesByOne(cfg, s, t, ch, s');
      CollisionPasses(cfg, s, t, ch, s');
    } else {
      TotalFalls(cfg, s, t, ch, s');
      if Colliding(s') {
        var u :| 0 <= u < |s'.threads| && Collision(s', u);
        NoNewCollision(cfg, s, t, ch, s', u);
      }
    }
  }

  /** A step that is possible, with a free ID if the thread draws one. */
  lemma GoodStep(cfg: Config, s: State) returns (t: nat, ch: Choice)
    requires Reachable(cfg, s) && |s.objs| < 0x1_0000_0000
    requires exists u :: 0 <= u < |s.threads| && !s.threads[u].Done?
    ensures t < |s.threads| && Apply(cfg, s, Run(t, ch)).Some?
    ensures s.threads[t].RegDraw? ==> ch.id !in s.g.clients
  {
    DeadlockFree(cfg, s);
    t :| CanStep(cfg, s, t);
    ch :| Apply(cfg, s, Run(t, ch)).Some?;
    if s.threads[t].RegDraw? {
      MapsAgree(cfg, s);
      AtMostAll(s.g.clients, |s.objs|);
      var id := FreeID(s.g.clients.Keys, 0x1_0000_0000);
      ch := Choice(id, true);
    }
  }

  /** From every reachable state some run without new calls ends all operations, as long as an ID is free. */
  lemma {:induction false} CanFinish(cfg: Config, s: State) returns (es: seq<Event>, end: State)
    requires Reachable(cfg, s) && |s.objs| < 0x1_0000_0000
    ensures StepsTo(cfg, s, es, end) && |es| <= Left(s) && forall t :: 0 <= t < |end.threads| ==> end.threads[t].Done?
    decreases Left(s)
  {
    if forall t :: 0 <= t < |s.threads| ==> s.threads[t].Done? {
      return [], s;
    }
    var t, ch := GoodStep(cfg, s);
    var next := Apply(cfg, s, Run(t, ch)).value;
    LeftFalls(cfg, s, t, ch, next);
    ReachableStep(cfg, s, Run(t, ch), next);
    var rest;
    rest, end := CanFinish(cfg, next);
    es := [Run(t, ch)] + rest;
    assert es[1..] == rest;
  }
}
