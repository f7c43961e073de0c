/** What a loop over `Databases` visits, whatever happens meanwhile. */
module ConnLoops {
  import opened Wrappers
  import opened ConnProtocol
  import opened ConnLocks
  import opened ConnRegistry
  import opened ConnBooks
  import opened ConnTheorems
  import opened ConnResults
  import opened ConnProgress

  /** One client the loop comes to: its ID, the instance found, and whether the body then asks for more. */
  datatype Visit = Visit(id: ID, c: nat, db: Option<nat>, more: bool)
  {
    /** The body was given an instance and wants no more. */
    predicate Stops() { db.Some? && !more }
  }

  /** The visits of loop thread `t` in a run, in order. */
  ghost function Visits(cfg: Config, s: State, es: seq<Event>, t: nat): seq<Visit>
    decreases es
  {
    if es == [] || Apply(cfg, s, es[0]).None? then []
    else VisitOf(s, es[0], t) + Visits(cfg, Apply(cfg, s, es[0]).value, es[1..], t)
  }

  ghost function VisitOf(s: State, e: Event, t: nat): seq<Visit> {
    if e.Run? && e.t == t && t < |s.threads| && s.threads[t].RangeVisit? && s.threads[t].c < |s.objs|
    then [Visit(s.threads[t].id, s.threads[t].c, s.objs[s.threads[t].c].db, e.ch.ok)]
    else []
  }

  /** The entries of `clients` at the moment loop thread `t` enters it. */
  ghost function Entered(cfg: Config, s: State, es: seq<Event>, t: nat): map<ID, nat>
    decreases es
  {
    if es == [] || (es[0].Run? && es[0].t == t) || Apply(cfg, s, es[0]).None? then s.g.clients
    else Entered(cfg, Apply(cfg, s, es[0]).value, es[1..], t)
  }

  /** Each entry at most once, under its ID; nothing after a stop. */
  ghost predicate Sweeps(vs: seq<Visit>, entries: map<ID, nat>) {
    && (forall i :: 0 <= i < |vs| ==> vs[i].id in entries && vs[i].c == entries[vs[i].id])
    && (forall i, j :: 0 <= i < j < |vs| ==> vs[i].id != vs[j].id)
    && (forall i :: 0 <= i < |vs| - 1 ==> !vs[i].Stops())
  }

  ghost predicate Stopped(vs: seq<Visit>) {
    vs != [] && vs[|vs| - 1].Stops()
  }

  ghost predicate Seen(vs: seq<Visit>, id: ID) {
    exists i :: 0 <= i < |vs| && vs[i].id == id
  }

  /** The IDs a loop at `pc` has still to visit. */
  ghost function Ahead(pc: Pc): set<ID> {
    match pc
    case RangeNext(todo) => todo
    case RangeLock(_, id, todo) => todo + {id}
    case RangeVisit(_, id, todo) => todo + {id}
    case _ => {}
  }

  /** The thread is in a loop, or has left it; the entry it stands at is not among those that follow. */
  ghost predicate Looping(pc: Pc) {
    && (pc.RangeNext? || pc.RangeLock? || pc.RangeVisit? || pc.RangeLeave? || pc.Done?)
    && (pc.RangeLock? || pc.RangeVisit? ==> pc.id !in pc.todo)
  }

  /** One step of a loop: a visit takes one ID off those ahead, or ends the loop if it stops. */
  ghost predicate LoopMove(o: Client, pc: Pc, ch: Choice, next: Pc) {
    && Looping(next)
    && (if pc.RangeVisit? then
          if o.db.Some? && !ch.ok then next == RangeLeave else next == RangeNext(pc.todo)
        else if pc.RangeNext? then
          (pc.todo == {} && next == RangeLeave) || (next.RangeLock? && Ahead(next) == pc.todo)
        else if pc.RangeLock? then next == RangeVisit(pc.c, pc.id, pc.todo)
        else next == Done)
  }

  lemma ActLooping(cfg: Config, g: Shared, o: Client, n: nat, t: nat, pc: Pc, ch: Choice, m: Move)
    requires Act(cfg, g, o, n, t, pc, ch) == Some(m) && Looping(pc)
    ensures LoopMove(o, pc, ch, m.pc)
  {
  }

  /** A visit put before the rest of the sweep. */
  lemma SweepOneMore(v: Visit, vs: seq<Visit>, entries: map<ID, nat>)
    requires Sweeps(vs, entries) && v.id in entries && v.c == entries[v.id] && !Seen(vs, v.id)
    requires v.Stops() ==> vs == []
    ensures Sweeps([v] + vs, entries)
    ensures Stopped([v] + vs) <==> Stopped(vs) || v.Stops()
    ensures forall id :: Seen([v] + vs, id) <==> id == v.id || Seen(vs, id)
  {
    var all := [v] + vs;
    forall id
      ensures Seen(all, id) <==> id == v.id || Seen(vs, id)
    {
      assert all[0] == v && forall i :: 0 <= i < |vs| ==> all[i + 1] == vs[i];
    }
    forall i, j | 0 <= i < j < |all|
      ensures all[i].id != all[j].id
    {
      assert i > 0 ==> vs[i - 1].id != vs[j - 1].id;
      assert i == 0 ==> all[j] == vs[j - 1];
    }
  }

  /** The rest of a loop, from a thread inside it to the end of the run. */
  ghost predicate RestOfLoop(vs: seq<Visit>, pc: Pc, end: Pc, entries: map<ID, nat>) {
    && Sweeps(vs, entries) && Looping(end)
    && (forall id :: Seen(vs, id) ==> id in Ahead(pc))
    && (!Stopped(vs) ==> forall id :: id in Ahead(pc) ==> Seen(vs, id) || id in Ahead(end))
    && (Stopped(vs) ==> Ahead(end) == {}) && Ahead(end) <= Ahead(pc)
  }

  /** The visit, if any, of a thread at `pc` that finds its client as `o`. */
  ghost function Now(o: Client, pc: Pc, ch: Choice): seq<Visit> {
    if pc.RangeVisit? then [Visit(pc.id, pc.c, o.db, ch.ok)] else []
  }

  lemma RestVisit(v: Visit, todo: set<ID>, pc: Pc, next: Pc, vs: seq<Visit>, end: Pc, entries: map<ID, nat>)
    requires pc == RangeVisit(v.c, v.id, todo) && v.id !in todo && v.id in entries && entries[v.id] == v.c
    requires next == if v.Stops() then RangeLeave else RangeNext(todo)
    requires RestOfLoop(vs, next, end, entries)
    ensures RestOfLoop([v] + vs, pc, end, entries)
  {
    assert vs != [] ==> Seen(vs, vs[0].id);
    SweepOneMore(v, vs, entries);
  }

  lemma AheadStays(o: Client, pc: Pc, ch: Choice, next: Pc)
    requires Looping(pc) && LoopMove(o, pc, ch, next) && !pc.RangeVisit?
    ensures Ahead(next) == Ahead(pc)
  {
  }

  lemma RestStep(o: Client, pc: Pc, ch: Choice, next: Pc, vs: seq<Visit>, end: Pc, entries: map<ID, nat>)
    requires Looping(pc) && LoopMove(o, pc, ch, next) && RestOfLoop(vs, next, end, entries)
    requires pc.RangeVisit? ==> pc.id in entries && entries[pc.id] == pc.c
    ensures RestOfLoop(Now(o, pc, ch) + vs, pc, end, entries)
  {
    if pc.RangeVisit? {
      RestVisit(Visit(pc.id, pc.c, o.db, ch.ok), pc.todo, pc, next, vs, end, entries);
    } else {
      assert Now(o, pc, ch) + vs == vs;
      AheadStays(o, pc, ch, next);
    }
  }

  lemma {:induction false} LoopFrom(cfg: Config, s: State, es: seq<Event>, end: State, t: nat, entries: map<ID, nat>)
    requires Reachable(cfg, s) && Exec(cfg, s, es) == Some(end)
    requires t < |s.threads| && Looping(s.threads[t]) && (s.threads[t].HoldsRead() ==> entries == s.g.clients)
    ensures t < |end.threads|
    ensures RestOfLoop(Visits(cfg, s, es, t), s.threads[t], end.threads[t], entries)
    decreases es
  {
    if es != [] {
      var next := Apply(cfg, s, es[0]).value;
      LoopStep(cfg, s, es[0], next, t);
      LoopFrom(cfg, next, es[1..], end, t, entries);
      if es[0].Run? && es[0].t == t {
        OwnStep(cfg, s, es[0].ch, next, t);
        RestStep(s.TargetObject(t), s.threads[t], es[0].ch, next.threads[t], Visits(cfg, next, es[1..], t), end.threads[t], entries);
      } else {
        OthersStep(cfg, s, es[0], next, t);
        assert [] + Visits(cfg, next, es[1..], t) == Visits(cfg, next, es[1..], t);
      }
    }
  }

  /** An event of another thread is no visit of thread `t` and leaves it where it stands. */
  lemma OthersStep(cfg: Config, s: State, e: Event, next: State, t: nat)
    requires Apply(cfg, s, e) == Some(next) && t < |s.threads| && !(e.Run? && e.t == t)
    ensures t < |next.threads| && next.threads[t] == s.threads[t] && VisitOf(s, e, t) == []
  {
  }

  /** A step of loop thread `t`. */
  lemma OwnStep(cfg: Config, s: State, ch: Choice, next: State, t: nat)
    requires Reachable(cfg, s) && Apply(cfg, s, Run(t, ch)) == Some(next) && Looping(s.threads[t])
    ensures LoopMove(s.TargetObject(t), s.threads[t], ch, next.threads[t])
    ensures VisitOf(s, Run(t, ch), t) == Now(s.TargetObject(t), s.threads[t], ch)
    ensures s.threads[t].RangeVisit? ==> s.threads[t].id in s.g.clients && s.g.clients[s.threads[t].id] == s.threads[t].c
  {
    InvReachable(cfg, s);
    assert ThreadRange(s, t);
    ActLooping(cfg, s.g, s.TargetObject(t), |s.threads|, t, s.threads[t], ch, Effect(cfg, s, t, ch).value);
  }

  /** What an event leaves to loop thread `t`. */
  lemma LoopStep(cfg: Config, s: State, e: Event, next: State, t: nat)
    requires Reachable(cfg, s) && Apply(cfg, s, e) == Some(next)
    requires t < |s.threads| && Looping(s.threads[t])
    ensures Reachable(cfg, next) && t < |next.threads| && Looping(next.threads[t])
    ensures s.threads[t].HoldsRead() ==> next.g.clients == s.g.clients
    ensures !s.threads[t].HoldsRead() ==> !next.threads[t].HoldsRead()
  {
    ReachableStep(cfg, s, e, next);
    if s.threads[t].HoldsRead() {
      ClientsStandStill(cfg, s, e, next);
    }
    if e.Run? && e.t == t {
      OwnStep(cfg, s, e.ch, next, t);
    } else {
      OthersStep(cfg, s, e, next, t);
    }
  }

  lemma ActEnters(cfg: Config, g: Shared, o: Client, n: nat, t: nat, pc: Pc, ch: Choice, m: Move)
    requires Act(cfg, g, o, n, t, pc, ch) == Some(m) && pc.RangeEnter?
    ensures m.pc == RangeNext(g.clients.Keys) && m.g.clients == g.clients
  {
  }

  /** A finished loop: without a stop it has come to every entry. */
  ghost predicate VisitsEach(vs: seq<Visit>, entries: map<ID, nat>) {
    Sweeps(vs, entries) && (!Stopped(vs) ==> forall id :: Seen(vs, id) <==> id in entries)
  }

  /** The loop from the moment it enters. */
  lemma EnteredLoop(cfg: Config, s: State, ch: Choice, next: State, es: seq<Event>, end: State, t: nat)
    requires Reachable(cfg, s) && t < |s.threads| && s.threads[t].RangeEnter?
    requires Apply(cfg, s, Run(t, ch)) == Some(next) && Exec(cfg, next, es) == Some(end)
    requires t < |end.threads| && (end.threads[t].RangeLeave? || end.threads[t].Done?)
    ensures VisitsEach(Visits(cfg, next, es, t), s.g.clients)
  {
    ReachableStep(cfg, s, Run(t, ch), next);
    ActEnters(cfg, s.g, s.TargetObject(t), |s.threads|, t, s.threads[t], ch, Effect(cfg, s, t, ch).value);
    LoopFrom(cfg, next, es, end, t, s.g.clients);
  }

  lemma NoVisitFirst(cfg: Config, s: State, es: seq<Event>, t: nat)
    requires es != [] && Apply(cfg, s, es[0]).Some? && VisitOf(s, es[0], t) == []
    ensures Visits(cfg, s, es, t) == Visits(cfg, Apply(cfg, s, es[0]).value, es[1..], t)
  {
  }

  /**
    A whole loop, from before it enters `clients` to after it has left: with no body that
    stops it, it comes to every client registered when it entered, each once; with one, it
    comes to no client after that.
   */
  lemma {:induction false} LoopVisitsAll(cfg: Config, s: State, es: seq<Event>, end: State, t: nat)
    requires Reachable(cfg, s) && Exec(cfg, s, es) == Some(end)
    requires t < |s.threads| && s.threads[t].RangeEnter?
    requires t < |end.threads| && (end.threads[t].RangeLeave? || end.threads[t].Done?)
    ensures VisitsEach(Visits(cfg, s, es, t), Entered(cfg, s, es, t))
    decreases es
  {
    var next := Apply(cfg, s, es[0]).value;
    assert VisitOf(s, es[0], t) == [];
    NoVisitFirst(cfg, s, es, t);
    if es[0].Run? && es[0].t == t {
      EnteredLoop(cfg, s, es[0].ch, next, es[1..], end, t);
    } else {
      ReachableStep(cfg, s, es[0], next);
      OthersStep(cfg, s, es[0], next, t);
      LoopVisitsAll(cfg, next, es[1..], end, t);
    }
  }
}
