/** What an interrupt does to the query it names, and that every handler and interrupt can go on. */
module QueryInterrupts {
  import opened GoTypes
  import opened Wrappers
  import opened QueryProtocol

  // ---------- The lookup

  /** An interrupt goes on to Close the query listed under its ID, and ends only when there is none. */
  lemma LookupFinds(s: State, t: nat, id: ID, s': State)
    requires Table(s) && t < |s.threads| && s.threads[t].ILookup? && Apply(s, Run(t, id)) == Some(s')
    ensures forall n: nat :: s'.threads[t] == IRemove(n) <==> n < |s.objs| && s.objs[n].id == s.threads[t].id && Lists(s, n)
    ensures s'.threads[t].IRemove? || s'.threads[t].IEnd?
    ensures s'.queries == s.queries && s'.objs == s.objs
  {
    assert s.threads[t].id in s.queries ==> Entry(s, s.threads[t].id);
  }

  // ---------- Interrupts over runs

  /** A Close of query `n` that finds something listed under its ID. */
  ghost predicate Finds(s: State, e: Event, n: nat) {
    e.Run? && e.t < |s.threads| && s.threads[e.t].Removes() && s.threads[e.t].q == n
    && n < |s.objs| && s.objs[n].id in s.queries
  }

  /** The run has such a Close. */
  ghost predicate Found(s: State, es: seq<Event>, n: nat)
    decreases es
  {
    es != [] && (Finds(s, es[0], n) || (Apply(s, es[0]).Some? && Found(Apply(s, es[0]).value, es[1..], n)))
  }

  lemma {:induction false} DueIffFound(s: State, es: seq<Event>, end: State, n: nat)
    requires Table(s) && Exec(s, es) == Some(end) && n < |s.objs|
    ensures n < |end.objs| && (Due(end, n) > Due(s, n) <==> Found(s, es, n)) && Due(end, n) >= Due(s, n)
    decreases es
  {
    if es != [] {
      var next := Apply(s, es[0]).value;
      TableKept(s, es[0], next);
      DueGrows(s, es[0], next, n);
      DueIffFound(next, es[1..], end, n);
    }
  }

  /** Thread `t` is about to Close query `n`, or that is done and the query is listed no more. */
  ghost predicate Chases(s: State, t: nat, n: nat) {
    t < |s.threads| && n < |s.objs|
    && (s.threads[t] == IRemove(n) || ((s.threads[t] == ICancel(n) || s.threads[t] == IEnd) && !Lists(s, n)))
  }

  lemma ChaseStep(s: State, e: Event, s': State, t: nat, n: nat)
    requires Table(s) && Chases(s, t, n) && Apply(s, e) == Some(s')
    ensures Chases(s', t, n)
    ensures Lists(s, n) && !Lists(s', n) && !Cross(s, e) ==> Finds(s, e, n)
  {
    EntriesStay(s, e, s');
  }

  lemma {:induction false} ChaseOverRuns(s: State, es: seq<Event>, end: State, t: nat, n: nat)
    requires Table(s) && Chases(s, t, n) && Exec(s, es) == Some(end)
    ensures Chases(end, t, n)
    ensures Lists(s, n) && !Lists(end, n) && NoCross(s, es) ==> Found(s, es, n)
    decreases es
  {
    if es != [] {
      var next := Apply(s, es[0]).value;
      TableKept(s, es[0], next);
      ChaseStep(s, es[0], next, t, n);
      ChaseOverRuns(next, es[1..], end, t, n);
    }
  }

  /**
    An interrupt that looked up the listed query `n` leaves it unlisted when it ends.  The
    query has then been cancelled, or is about to be, if and only if some Close of it, by
    this interrupt or another thread, found something listed under its ID; and that is so
    unless a Close of another query has deleted its entry.
   */
  lemma InterruptCloses(s: State, t: nat, id: ID, s': State, es: seq<Event>, end: State, n: nat)
    requires Table(s) && n < |s.objs| && Lists(s, n) && t < |s.threads| && s.threads[t] == ILookup(s.objs[n].id)
    requires Apply(s, Run(t, id)) == Some(s') && Exec(s', es) == Some(end)
    requires t < |end.threads| && end.threads[t].Ended()
    ensures n < |end.objs| && !Lists(end, n)
    ensures Due(end, n) > Due(s, n) <==> Found(s', es, n)
    ensures NoCross(s', es) ==> Due(end, n) > Due(s, n)
  {
    TableKept(s, Run(t, id), s');
    DueGrows(s, Run(t, id), s', n);
    ChaseOverRuns(s', es, end, t, n);
    DueIffFound(s', es, end, n);
  }

  /** In a run from the start without cross-removals, every listed query that is looked up is cancelled once. */
  lemma InterruptCancelsOnce(pre: seq<Event>, s: State, t: nat, id: ID, s': State, es: seq<Event>, end: State, n: nat)
    requires Exec(INIT, pre) == Some(s) && NoCross(INIT, pre) && NoCross(s', es)
    requires n < |s.objs| && Lists(s, n) && t < |s.threads| && s.threads[t] == ILookup(s.objs[n].id)
    requires Apply(s, Run(t, id)) == Some(s') && Exec(s', es) == Some(end)
    requires t < |end.threads| && end.threads[t].Ended()
    ensures n < |end.objs| && !Lists(end, n) && Due(end, n) == 1
  {
    TableOverRuns(INIT, pre, s);
    OnceIffNoCross(pre, s);
    InterruptCloses(s, t, id, s', es, end, n);
    TableKept(s, Run(t, id), s');
    OnceKept(s, Run(t, id), s');
    OnceIffFrom(s', es, end);
    assert OnceFor(end, n);
  }

  /**
    With an ID reissued an interrupt can look up a running query, end as if it had closed
    it, and leave it unlisted with no cancel call made or due.
   */
  lemma InterruptMisses(id: ID) returns (s: State)
    ensures Reachable(s) && |s.objs| == 2 && s.threads == [HEnd, ICancel(0), HRun(1), IEnd]
    ensures s.queries == map[] && Due(s, 1) == 0
  {
    s := StaleInterrupt(id);
    s := Go(s, Handle);
    s := Go(s, Run(2, id));
    s := Go(s, Interrupt(id));
    assert s == State(map[id := 1], [Query(id, 0, 1), Query(id, 2, 0)], [HEnd, IRemove(0), HRun(1), ILookup(id)]);
    s := Go(s, Run(3, id));
    s := Go(s, Run(1, id));
    s := Go(s, Run(3, id));
    NobodyCancels(s.threads, 1);
  }

  // ---------- Progress

  /** Every thread that has not ended can step; to add a query, with any ID that is not listed. */
  lemma CanStep(s: State, t: nat, id: ID)
    requires s.Shape() && t < |s.threads|
    ensures Apply(s, Run(t, id)).Some? <==> !s.threads[t].Ended() && (s.threads[t].HAdd? ==> id !in s.queries)
  {
  }

  /** The steps a thread can still take. */
  ghost function Rank(pc: Pc): nat {
    match pc
    case HAdd => 4
    case HRun(_) => 3
    case HRemove(_) => 2
    case HCancel(_) => 1
    case HEnd => 0
    case ILookup(_) => 3
    case IRemove(_) => 2
    case ICancel(_) => 1
    case IEnd => 0
  }

  ghost function Total(threads: seq<Pc>): nat {
    if threads == [] then 0 else Total(threads[..|threads| - 1]) + Rank(threads[|threads| - 1])
  }

  lemma {:induction false} TotalUpdate(threads: seq<Pc>, t: nat, pc: Pc)
    requires t < |threads|
    ensures Total(threads[t := pc]) == Total(threads) - Rank(threads[t]) + Rank(pc)
    decreases |threads|
  {
    var last := |threads| - 1;
    if t == last {
      assert threads[t := pc][..last] == threads[..last];
    } else {
      assert threads[t := pc][..last] == threads[..last][t := pc];
      TotalUpdate(threads[..last], t, pc);
    }
  }

  lemma TotalFalls(s: State, t: nat, id: ID, s': State)
    requires Apply(s, Run(t, id)) == Some(s')
    ensures Total(s'.threads) < Total(s.threads)
  {
    TotalUpdate(s.threads, t, s'.threads[t]);
  }

  /** A run from `s` to `end` in which no handler and no interrupt is started. */
  ghost predicate StepsTo(s: State, es: seq<Event>, end: State)
    decreases es
  {
    if es == [] then s == end
    else es[0].Run? && Apply(s, es[0]).Some? && StepsTo(Apply(s, es[0]).value, es[1..], end)
  }

  lemma {:induction false} StepsBounded(s: State, es: seq<Event>, end: State)
    requires Table(s) && StepsTo(s, es, end)
    ensures Table(end) && |end.threads| == |s.threads| && |es| + Total(end.threads) <= Total(s.threads)
    decreases es
  {
    if es != [] {
      var next := Apply(s, es[0]).value;
      TableKept(s, es[0], next);
      TotalFalls(s, es[0].t, es[0].id, next);
      StepsBounded(next, es[1..], end);
    }
  }

  /**
    Handlers and interrupts already started take no more steps than known in advance; and
    when none can step any more, as long as an ID is free, every one of them has ended.
   */
  lemma EverythingEnds(s: State, es: seq<Event>, end: State)
    requires Table(s) && StepsTo(s, es, end) && |end.queries.Keys| < 0x1_0000_0000
    ensures |es| <= Total(s.threads)
    ensures (forall t: nat, id: ID :: Apply(end, Run(t, id)).None?) ==> forall t :: 0 <= t < |end.threads| ==> end.threads[t].Ended()
  {
    StepsBounded(s, es, end);
    var free := FreeID(end.queries.Keys, 0x1_0000_0000);
    forall t | 0 <= t < |end.threads| && !end.threads[t].Ended()
      ensures Apply(end, Run(t, free)).Some?
    {
      CanStep(end, t, free);
    }
  }
}
