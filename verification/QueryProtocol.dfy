/**
  The query table as a transition system: any number of query handlers and of
  interrupts, one thread each.  A step is one critical section of the table's lock,
  which no thread holds across steps, or one call of a cancel function.
 */
module QueryProtocol {
  import opened GoTypes
  import opened Wrappers

  type ID = Uint32

  datatype Pc =
      // handleQuery: Add, run, and the deferred Close
    | HAdd
    | HRun(q: nat)
    | HRemove(q: nat)
    | HCancel(q: nat)
    | HEnd
      // handleInterruptQuery: look the query up, then Close it
    | ILookup(id: ID)
    | IRemove(q: nat)
    | ICancel(q: nat)
    | IEnd
  {
    /** The thread has a pointer to a query. */
    predicate Holds() { HRun? || HRemove? || HCancel? || IRemove? || ICancel? }

    predicate Ended() { HEnd? || IEnd? }

    /** The thread still has to call Close on query `n`, whether or not that will do anything. */
    predicate Closes(n: nat) { (HRun? || HRemove? || IRemove?) && this.q == n }

    predicate Removes() { HRemove? || IRemove? }

    /** The thread has removed an entry for query `n` and is about to call its cancel function. */
    predicate Cancels(n: nat) { (HCancel? || ICancel?) && this.q == n }
  }

  /** `handler` and `cancels`, the number of calls of the cancel function, are history. */
  datatype Query = Query(id: ID, handler: nat, cancels: nat)

  datatype State = State(queries: map<ID, nat>, objs: seq<Query>, threads: seq<Pc>) {
    predicate Shape() {
      && (forall t :: 0 <= t < |threads| && threads[t].Holds() ==> threads[t].q < |objs|)
      && (forall id :: id in queries ==> queries[id] < |objs|)
    }
  }

  const INIT := State(map[], [], [])

  /** One step of thread `t`; `id` is the ID that newID settles on. */
  function Step(s: State, t: nat, id: ID): Option<State>
    requires s.Shape() && t < |s.threads|
  {
    match s.threads[t]
    case HAdd =>
      if id in s.queries then None
      else Some(State(s.queries[id := |s.objs|], s.objs + [Query(id, t, 0)], s.threads[t := HRun(|s.objs|)]))
    case HRun(q) => Some(s.(threads := s.threads[t := HRemove(q)]))
    case HRemove(q) => Some(Remove(s, t, q, HCancel(q), HEnd))
    case HCancel(q) => Some(Cancel(s, t, q, HEnd))
    case HEnd => None
    case ILookup(key) =>
      Some(s.(threads := s.threads[t := if key in s.queries then IRemove(s.queries[key]) else IEnd]))
    case IRemove(q) => Some(Remove(s, t, q, ICancel(q), IEnd))
    case ICancel(q) => Some(Cancel(s, t, q, IEnd))
    case IEnd => None
  }

  /** `remove` goes by ID: it deletes whatever the table lists under the ID of query `q`. */
  function Remove(s: State, t: nat, q: nat, found: Pc, missing: Pc): State
    requires t < |s.threads| && q < |s.objs|
  {
    var id := s.objs[q].id;
    if id in s.queries then s.(queries := s.queries - {id}, threads := s.threads[t := found])
    else s.(threads := s.threads[t := missing])
  }

  function Cancel(s: State, t: nat, q: nat, next: Pc): State
    requires t < |s.threads| && q < |s.objs|
  {
    var o := s.objs[q];
    s.(objs := s.objs[q := o.(cancels := o.cancels + 1)], threads := s.threads[t := next])
  }

  datatype Event = Handle | Interrupt(id: ID) | Run(t: nat, id: ID)

  function Apply(s: State, e: Event): Option<State> {
    match e
    case Handle => Some(s.(threads := s.threads + [HAdd]))
    case Interrupt(id) => Some(s.(threads := s.threads + [ILookup(id)]))
    case Run(t, id) => if s.Shape() && t < |s.threads| then Step(s, t, id) else None
  }

  function Exec(s: State, es: seq<Event>): Option<State>
    decreases es
  {
    if es == [] then Some(s)
    else match Apply(s, es[0])
      case None => None
      case Some(next) => Exec(next, es[1..])
  }

  // ---------- What every run keeps

  ghost predicate Entry(s: State, id: ID)
    requires id in s.queries
  {
    var q := s.queries[id];
    && q < |s.objs| && s.objs[q].id == id
    && s.objs[q].handler < |s.threads|
    && (s.threads[s.objs[q].handler] == HRun(q) || s.threads[s.objs[q].handler] == HRemove(q))
  }

  /** Every entry names a query with that ID whose handler has not finished. */
  ghost predicate Table(s: State) {
    s.Shape() && forall id :: id in s.queries ==> Entry(s, id)
  }

  lemma ShapeKept(s: State, e: Event, s': State)
    requires s.Shape() && Apply(s, e) == Some(s')
    ensures s'.Shape()
  {
  }

  lemma EntryKept(s: State, e: Event, s': State, id: ID)
    requires Table(s) && Apply(s, e) == Some(s') && id in s'.queries
    ensures Entry(s', id)
  {
    assert id in s.queries ==> Entry(s, id);
  }

  lemma TableKept(s: State, e: Event, s': State)
    requires Table(s) && Apply(s, e) == Some(s')
    ensures Table(s')
  {
    ShapeKept(s, e, s');
    forall id | id in s'.queries
      ensures Entry(s', id)
    {
      EntryKept(s, e, s', id);
    }
  }

  lemma {:induction false} TableOverRuns(s: State, es: seq<Event>, end: State)
    requires Table(s) && Exec(s, es) == Some(end)
    ensures Table(end)
    decreases es
  {
    if es != [] {
      var next := Apply(s, es[0]).value;
      TableKept(s, es[0], next);
      TableOverRuns(next, es[1..], end);
    }
  }

  /** Whatever the interleaving and the IDs drawn: no stale entry, and nothing listed once no handler runs. */
  lemma TableSound(es: seq<Event>, s: State)
    requires Exec(INIT, es) == Some(s)
    ensures forall id :: id in s.queries ==> Entry(s, id)
    ensures (forall t :: 0 <= t < |s.threads| ==> !s.threads[t].HRun? && !s.threads[t].HRemove?) ==> s.queries == map[]
  {
    TableOverRuns(INIT, es, s);
    if forall t :: 0 <= t < |s.threads| ==> !s.threads[t].HRun? && !s.threads[t].HRemove? {
      if id :| id in s.queries {
        assert false;
      }
    }
  }

  /** No step replaces an entry, and only a Close of a query with that ID removes one; Add lists its new query. */
  lemma EntriesStay(s: State, e: Event, s': State)
    requires Table(s) && Apply(s, e) == Some(s')
    ensures forall id :: id in s.queries && id in s'.queries ==> s'.queries[id] == s.queries[id]
    ensures forall id :: id in s.queries && id !in s'.queries ==>
              e.Run? && s.threads[e.t].Removes() && s.objs[s.threads[e.t].q].id == id
    ensures |s'.objs| == |s.objs| || (s'.objs[|s.objs|].id !in s.queries && Lists(s', |s.objs|))
  {
  }

  // ---------- Cancel exactly once

  ghost predicate Lists(s: State, n: nat)
    requires n < |s.objs|
  {
    s.objs[n].id in s.queries && s.queries[s.objs[n].id] == n
  }

  /** The threads about to call the cancel function of query `n`. */
  ghost function Pending(threads: seq<Pc>, n: nat): nat {
    if threads == [] then 0
    else Pending(threads[..|threads| - 1], n) + if threads[|threads| - 1].Cancels(n) then 1 else 0
  }

  lemma {:induction false} PendingUpdate(threads: seq<Pc>, t: nat, pc: Pc, n: nat)
    requires t < |threads|
    ensures Pending(threads[t := pc], n)
            == Pending(threads, n) - (if threads[t].Cancels(n) then 1 else 0) + if pc.Cancels(n) then 1 else 0
    decreases |threads|
  {
    var last := |threads| - 1;
    if t == last {
      assert threads[t := pc][..last] == threads[..last];
    } else {
      assert threads[t := pc][..last] == threads[..last][t := pc];
      PendingUpdate(threads[..last], t, pc, n);
    }
  }

  lemma PendingAppend(threads: seq<Pc>, pc: Pc, n: nat)
    ensures Pending(threads + [pc], n) == Pending(threads, n) + if pc.Cancels(n) then 1 else 0
  {
    assert (threads + [pc])[..|threads|] == threads;
  }

  /** Cancel calls of query `n` made or certain to be made. */
  ghost function Due(s: State, n: nat): nat
    requires n < |s.objs|
  {
    Pending(s.threads, n) + s.objs[n].cancels
  }

  ghost predicate OnceFor(s: State, n: nat)
    requires n < |s.objs|
  {
    Due(s, n) + (if Lists(s, n) then 1 else 0) == 1
  }

  /** Every query is either listed and not cancelled, or delisted and cancelled once, or about to be. */
  ghost predicate Once(s: State) {
    forall n :: 0 <= n < |s.objs| ==> OnceFor(s, n)
  }

  /** A Close that deletes the entry of another query, which has been given the same ID. */
  ghost predicate Cross(s: State, e: Event) {
    e.Run? && e.t < |s.threads| && s.threads[e.t].Removes()
    && var q := s.threads[e.t].q; q < |s.objs| && s.objs[q].id in s.queries && s.queries[s.objs[q].id] != q
  }

  lemma DueGrows(s: State, e: Event, s': State, n: nat)
    requires Table(s) && Apply(s, e) == Some(s') && n < |s.objs|
    ensures n < |s'.objs| && s'.objs[n].id == s.objs[n].id
    ensures Due(s', n) == Due(s, n) + if e.Run? && s.threads[e.t].Removes() && s.threads[e.t].q == n
                                         && s.objs[n].id in s.queries then 1 else 0
  {
    match e
    case Handle => PendingAppend(s.threads, HAdd, n);
    case Interrupt(id) => PendingAppend(s.threads, ILookup(id), n);
    case Run(t, id) => PendingUpdate(s.threads, t, s'.threads[t], n);
  }

  lemma {:induction false} NobodyCancels(threads: seq<Pc>, n: nat)
    requires forall t :: 0 <= t < |threads| ==> !threads[t].Cancels(n)
    ensures Pending(threads, n) == 0
    decreases |threads|
  {
    if threads != [] {
      NobodyCancels(threads[..|threads| - 1], n);
    }
  }

  lemma OnceKept(s: State, e: Event, s': State)
    requires Table(s) && Once(s) && Apply(s, e) == Some(s') && !Cross(s, e)
    ensures Once(s')
  {
    forall n | 0 <= n < |s'.objs|
      ensures OnceFor(s', n)
    {
      if n < |s.objs| {
        assert OnceFor(s, n);
        DueGrows(s, e, s', n);
      } else {
        assert s'.objs == s.objs + [Query(e.id, e.t, 0)];
        NobodyCancels(s'.threads, n);
      }
    }
  }

  /** After a cross-removal the remover's query is cancelled once too often, whatever follows. */
  lemma CrossCancelsTwice(s: State, e: Event, s': State)
    requires Table(s) && Once(s) && Apply(s, e) == Some(s') && Cross(s, e)
    ensures s.threads[e.t].q < |s'.objs| && Due(s', s.threads[e.t].q) == 2
  {
    var q := s.threads[e.t].q;
    assert OnceFor(s, q) && !Lists(s, q);
    DueGrows(s, e, s', q);
  }

  lemma {:induction false} DueOverRuns(s: State, es: seq<Event>, end: State, n: nat)
    requires Table(s) && Exec(s, es) == Some(end) && n < |s.objs|
    ensures n < |end.objs| && Due(s, n) <= Due(end, n)
    decreases es
  {
    if es != [] {
      var next := Apply(s, es[0]).value;
      TableKept(s, es[0], next);
      DueGrows(s, es[0], next, n);
      DueOverRuns(next, es[1..], end, n);
    }
  }

  ghost predicate NoCross(s: State, es: seq<Event>)
    decreases es
  {
    es == [] || (!Cross(s, es[0]) && (Apply(s, es[0]).Some? ==> NoCross(Apply(s, es[0]).value, es[1..])))
  }

  lemma {:induction false} OnceIffFrom(s: State, es: seq<Event>, end: State)
    requires Table(s) && Once(s) && Exec(s, es) == Some(end)
    ensures Once(end) <==> NoCross(s, es)
    decreases es
  {
    if es != [] {
      var next := Apply(s, es[0]).value;
      TableKept(s, es[0], next);
      if Cross(s, es[0]) {
        CrossCancelsTwice(s, es[0], next);
        var q := s.threads[es[0].t].q;
        DueOverRuns(next, es[1..], end, q);
        assert !OnceFor(end, q);
      } else {
        OnceKept(s, es[0], next);
        OnceIffFrom(next, es[1..], end);
      }
    }
  }

  /** Exactly-once holds at the end of a run if and only if every Close deleted its own entry or none. */
  lemma OnceIffNoCross(es: seq<Event>, s: State)
    requires Exec(INIT, es) == Some(s)
    ensures Once(s) <==> NoCross(INIT, es)
  {
    OnceIffFrom(INIT, es, s);
  }

  // ---------- IDs with a pending Close

  /** No query drawn now gets the ID of a query that somebody will still Close. */
  ghost predicate FreshAdd(s: State, e: Event) {
    e.Run? && e.t < |s.threads| && s.threads[e.t].HAdd? ==>
      forall t, n :: 0 <= t < |s.threads| && 0 <= n < |s.objs| && s.threads[t].Closes(n) ==> s.objs[n].id != e.id
  }

  ghost predicate FreshAdds(s: State, es: seq<Event>)
    decreases es
  {
    es == [] || (FreshAdd(s, es[0]) && (Apply(s, es[0]).Some? ==> FreshAdds(Apply(s, es[0]).value, es[1..])))
  }

  /** An entry under the ID of a query that somebody will still Close is the entry of that query. */
  ghost predicate Own(s: State) {
    forall t, n :: 0 <= t < |s.threads| && 0 <= n < |s.objs| && s.threads[t].Closes(n) ==>
                     (s.objs[n].id in s.queries ==> s.queries[s.objs[n].id] == n)
  }

  lemma OwnKept(s: State, e: Event, s': State)
    requires Table(s) && Own(s) && FreshAdd(s, e) && Apply(s, e) == Some(s')
    ensures Own(s') && !Cross(s, e)
  {
    forall t, n | 0 <= t < |s'.threads| && 0 <= n < |s'.objs| && s'.threads[t].Closes(n)
      ensures s'.objs[n].id in s'.queries ==> s'.queries[s'.objs[n].id] == n
    {
      if t < |s.threads| && s.threads[t].Closes(n) {
        assert n < |s.objs| && s'.objs[n].id == s.objs[n].id;
      } else {
        assert e.Run? && e.t == t && (s.threads[t].HAdd? || s.threads[t].ILookup?);
        assert s.threads[t].ILookup? ==> Entry(s, s.threads[t].id);
      }
    }
    if Cross(s, e) {
      assert s.threads[e.t].Closes(s.threads[e.t].q);
      assert false;
    }
  }

  lemma {:induction false} FreshNoCross(s: State, es: seq<Event>, end: State)
    requires Table(s) && Own(s) && FreshAdds(s, es) && Exec(s, es) == Some(end)
    ensures NoCross(s, es)
    decreases es
  {
    if es != [] {
      var next := Apply(s, es[0]).value;
      TableKept(s, es[0], next);
      OwnKept(s, es[0], next);
      FreshNoCross(next, es[1..], end);
    }
  }

  /**
    When no ID with a pending Close is reissued: a listed query has not been cancelled,
    no query is ever cancelled twice, and once everything has ended each has been, once.
   */
  lemma CancelExactlyOnce(es: seq<Event>, s: State)
    requires Exec(INIT, es) == Some(s) && FreshAdds(INIT, es)
    ensures Once(s)
    ensures forall n :: 0 <= n < |s.objs| ==> s.objs[n].cancels <= 1 && (Lists(s, n) ==> s.objs[n].cancels == 0)
    ensures (forall t :: 0 <= t < |s.threads| ==> s.threads[t].Ended()) ==>
              forall n :: 0 <= n < |s.objs| ==> s.objs[n].cancels == 1
  {
    FreshNoCross(INIT, es, s);
    OnceIffNoCross(es, s);
    forall n | 0 <= n < |s.objs|
      ensures s.objs[n].cancels <= 1 && (Lists(s, n) ==> s.objs[n].cancels == 0)
    {
      assert OnceFor(s, n);
    }
    if forall t :: 0 <= t < |s.threads| ==> s.threads[t].Ended() {
      TableSound(es, s);
      forall n | 0 <= n < |s.objs|
        ensures s.objs[n].cancels == 1
      {
        assert OnceFor(s, n);
        NobodyCancels(s.threads, n);
      }
    }
  }

  // ---------- Without the hypothesis

  ghost function TotalCancels(objs: seq<Query>): nat {
    if objs == [] then 0 else TotalCancels(objs[..|objs| - 1]) + objs[|objs| - 1].cancels
  }

  ghost function TotalPending(threads: seq<Pc>): nat {
    if threads == [] then 0
    else TotalPending(threads[..|threads| - 1])
         + if threads[|threads| - 1].HCancel? || threads[|threads| - 1].ICancel? then 1 else 0
  }

  lemma {:induction false} TotalPendingUpdate(threads: seq<Pc>, t: nat, pc: Pc)
    requires t < |threads|
    ensures TotalPending(threads[t := pc])
            == TotalPending(threads) - (if threads[t].HCancel? || threads[t].ICancel? then 1 else 0)
               + if pc.HCancel? || pc.ICancel? then 1 else 0
    decreases |threads|
  {
    var last := |threads| - 1;
    if t == last {
      assert threads[t := pc][..last] == threads[..last];
    } else {
      assert threads[t := pc][..last] == threads[..last][t := pc];
      TotalPendingUpdate(threads[..last], t, pc);
    }
  }

  lemma {:induction false} TotalCancelsUpdate(objs: seq<Query>, q: nat, o: Query)
    requires q < |objs|
    ensures TotalCancels(objs[q := o]) == TotalCancels(objs) - objs[q].cancels + o.cancels
    decreases |objs|
  {
    var last := |objs| - 1;
    if q == last {
      assert objs[q := o][..last] == objs[..last];
    } else {
      assert objs[q := o][..last] == objs[..last][q := o];
      TotalCancelsUpdate(objs[..last], q, o);
    }
  }

  /** Queries added, against those listed and the cancel calls due and made. */
  ghost predicate Balanced(s: State) {
    |s.objs| == |s.queries| + TotalPending(s.threads) + TotalCancels(s.objs)
  }

  lemma BalanceOfAdd(s: State, t: nat, id: ID, s': State)
    requires s.Shape() && Balanced(s) && Apply(s, Run(t, id)) == Some(s') && s.threads[t].HAdd?
    ensures Balanced(s')
  {
    TotalPendingUpdate(s.threads, t, HRun(|s.objs|));
    assert s'.objs[..|s.objs|] == s.objs;
  }

  lemma BalanceOfRemove(s: State, t: nat, id: ID, s': State)
    requires s.Shape() && Balanced(s) && Apply(s, Run(t, id)) == Some(s') && s.threads[t].Removes()
    ensures Balanced(s')
  {
    TotalPendingUpdate(s.threads, t, s'.threads[t]);
    var key := s.objs[s.threads[t].q].id;
    if key in s.queries {
      assert |s.queries - {key}| == |s.queries| - 1;
    }
  }

  lemma BalanceOfCancel(s: State, t: nat, id: ID, s': State)
    requires s.Shape() && Balanced(s) && Apply(s, Run(t, id)) == Some(s') && (s.threads[t].HCancel? || s.threads[t].ICancel?)
    ensures Balanced(s')
  {
    TotalPendingUpdate(s.threads, t, s'.threads[t]);
    TotalCancelsUpdate(s.objs, s.threads[t].q, s'.objs[s.threads[t].q]);
  }

  lemma BalanceKept(s: State, e: Event, s': State)
    requires s.Shape() && Balanced(s) && Apply(s, e) == Some(s')
    ensures Balanced(s')
  {
    match e
    case Handle => assert s'.threads[..|s.threads|] == s.threads;
    case Interrupt(_) => assert s'.threads[..|s.threads|] == s.threads;
    case Run(t, id) =>
      var pc := s.threads[t];
      if pc.HAdd? {
        BalanceOfAdd(s, t, id, s');
      } else if pc.Removes() {
        BalanceOfRemove(s, t, id, s');
      } else if pc.HCancel? || pc.ICancel? {
        BalanceOfCancel(s, t, id, s');
      } else {
        TotalPendingUpdate(s.threads, t, s'.threads[t]);
      }
  }

  lemma {:induction false} BalanceOverRuns(s: State, es: seq<Event>, end: State)
    requires Table(s) && Balanced(s) && Exec(s, es) == Some(end)
    ensures Balanced(end)
    decreases es
  {
    if es != [] {
      var next := Apply(s, es[0]).value;
      TableKept(s, es[0], next);
      BalanceKept(s, es[0], next);
      BalanceOverRuns(next, es[1..], end);
    }
  }

  /** In every run, IDs reissued or not: once everything has ended there were as many cancel calls as queries. */
  lemma CancelsBalance(es: seq<Event>, s: State)
    requires Exec(INIT, es) == Some(s)
    ensures Balanced(s)
    ensures (forall t :: 0 <= t < |s.threads| ==> s.threads[t].Ended()) ==> TotalCancels(s.objs) == |s.objs|
  {
    BalanceOverRuns(INIT, es, s);
    if forall t :: 0 <= t < |s.threads| ==> s.threads[t].Ended() {
      TableSound(es, s);
      NothingPending(s.threads);
    }
  }

  lemma {:induction false} NothingPending(threads: seq<Pc>)
    requires forall t :: 0 <= t < |threads| ==> threads[t].Ended()
    ensures TotalPending(threads) == 0
    decreases |threads|
  {
    if threads != [] {
      NothingPending(threads[..|threads| - 1]);
    }
  }

  lemma {:induction false} ExecExtend(s: State, es: seq<Event>, end: State, e: Event)
    requires Exec(s, es) == Some(end)
    ensures Exec(s, es + [e]) == Apply(end, e)
    decreases es
  {
    if es == [] {
      assert es + [e] == [e];
      if Apply(s, e).Some? {
        assert Exec(Apply(s, e).value, []) == Apply(s, e);
      }
    } else {
      assert (es + [e])[0] == es[0] && (es + [e])[1..] == es[1..] + [e];
      ExecExtend(Apply(s, es[0]).value, es[1..], end, e);
    }
  }

  ghost predicate Reachable(s: State) {
    exists es :: Exec(INIT, es) == Some(s)
  }

  lemma Go(s: State, e: Event) returns (s': State)
    requires Reachable(s) && Apply(s, e).Some?
    ensures Apply(s, e) == Some(s') && Reachable(s') && s'.Shape()
  {
    var es :| Exec(INIT, es) == Some(s);
    s' := Apply(s, e).value;
    ExecExtend(INIT, es, s, e);
    TableOverRuns(INIT, es + [e], s');
  }

  /** A query is over, but an interrupt still has to Close it. */
  lemma StaleInterrupt(id: ID) returns (s: State)
    ensures Reachable(s) && s == State(map[], [Query(id, 0, 1)], [HEnd, IRemove(0)])
  {
    assert Exec(INIT, []) == Some(INIT);
    s := Go(INIT, Handle);
    s := Go(s, Run(0, id));
    s := Go(s, Interrupt(id));
    s := Go(s, Run(1, id));
    assert s == State(map[id := 0], [Query(id, 0, 0)], [HRun(0), IRemove(0)]);
    s := Go(s, Run(0, id));
    s := Go(s, Run(0, id));
    s := Go(s, Run(0, id));
  }

  /** A reissued ID: an interrupt that looked up the old query delists the new one, and cancels the old one again. */
  lemma ReissueBreaksOnce(id: ID)
    ensures exists s :: Reachable(s) && |s.objs| == 2 && s.objs[0].cancels == 2 && s.objs[1].cancels == 0
                        && forall t :: 0 <= t < |s.threads| ==> s.threads[t].Ended()
  {
    var s := StaleInterrupt(id);
    s := Go(s, Handle);
    s := Go(s, Run(2, id));
    s := Go(s, Run(1, id));
    s := Go(s, Run(1, id));
    assert s == State(map[], [Query(id, 0, 2), Query(id, 2, 0)], [HEnd, IEnd, HRun(1)]);
    s := Go(s, Run(2, id));
    s := Go(s, Run(2, id));
  }
}
