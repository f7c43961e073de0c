/** Instances: what a client holds, what has been counted, what has been closed. */
module ConnBooks {
  import opened Wrappers
  import opened ConnProtocol
  import opened ConnLocks
  import opened ConnRegistry

  /** The thread inside the mutex of client `c`, or Done when it is free. */
  ghost function Inside(s: State, c: nat): Pc
    requires c < |s.objs|
  {
    var mu := s.objs[c].mu;
    if mu.Some? && mu.value < |s.threads| then s.threads[mu.value] else Done
  }

  /** The two fields of a client, with thread `pc` inside its mutex. */
  ghost predicate Fields(o: Client, pc: Pc) {
    match pc
    case OpenLock(_) => o.db == None && o.conn == None
    case OpenCheck(_) => o.db == None && o.conn == None
    case Opening(_) => o.db == None && o.conn == None
    case OpenCount(_, _) => o.db == None && o.conn == None
    case Install(_, _) => o.db == None && o.conn == None
    case GoCount(_, k) => o.db == Some(k) && o.conn == None
    case GoCloser(_, k) => o.db == Some(k) && o.conn == None
    case GoUnlock(_) => o.db == None && o.conn == None
    case ConnReturn(_, out) => o.db == o.conn && out != ConnNil && o.conn == if out.ConnOK? then Some(out.k) else None
    case _ => o.db == o.conn
  }

  /** The instance in the hands of a client: made by its Opener call and not yet given to the Closer. */
  ghost function Carried(o: Client, pc: Pc): Option<nat> {
    if pc.OpenCount? || pc.Install? then Some(pc.k) else o.db
  }

  /** The client's instance is part of `dbCount`. */
  ghost predicate Counted(o: Client, pc: Pc) {
    pc.Install? || (o.db.Some? && !pc.GoCloser?)
  }

  /** Thread `pc` stands inside the mutex as seen from its client: the view a move has of its target. */
  ghost predicate Seat(o: Client, t: nat, pc: Pc, inside: Pc) {
    && (pc.Mu().Some? <==> o.mu == Some(t))
    && (o.mu == Some(t) ==> inside == pc)
    && (o.mu.None? ==> inside == Done)
  }

  ghost function InsideAfter(inside: Pc, t: nat, m: Move): Pc {
    if m.o.mu == Some(t) then m.pc else if m.o.mu.None? then Done else inside
  }

  ghost function Bit(b: bool): int { if b then 1 else 0 }

  /** What one move does to `dbCount`. */
  ghost predicate CountMove(g: Shared, o: Client, inside: Pc, t: nat, m: Move) {
    m.g.dbCount == g.dbCount + Bit(Counted(m.o, InsideAfter(inside, t, m))) - Bit(Counted(o, inside))
  }

  /** What one move does to the instance its target carries: an Open, a Close, or nothing. */
  ghost predicate CarryMove(g: Shared, o: Client, inside: Pc, t: nat, pc: Pc, m: Move) {
    var before, after := Carried(o, inside), Carried(m.o, InsideAfter(inside, t, m));
    if pc.Opening? && m.pc.OpenCount? then
      && before == None && after == Some(|g.opens|) && m.o.phase == o.phase
      && m.g.opens == g.opens + [Opened(pc.c, o.phase.Closed?)] && m.g.closes == g.closes
    else if pc.GoCloser? then
      && before.Some? && after == None && !o.phase.Closed? && m.o.phase == o.phase
      && m.g.opens == g.opens && m.g.closes == g.closes + [before.value]
    else m.g.opens == g.opens && m.g.closes == g.closes && after == before
  }

  /** A client is closed once, with empty hands. */
  ghost predicate EndMove(o: Client, inside: Pc, t: nat, m: Move) {
    && (m.o.phase.Closed? && !o.phase.Closed? ==> Carried(m.o, InsideAfter(inside, t, m)) == None)
    && (o.phase.Closed? ==> m.o.phase.Closed?)
  }

  lemma ActFieldsOutside(cfg: Config, g: Shared, o: Client, inside: Pc, n: nat, t: nat, pc: Pc, ch: Choice, m: Move)
    requires Act(cfg, g, o, n, t, pc, ch) == Some(m)
    requires Seat(o, t, pc, inside) && Fields(o, inside) && pc.Mu().None?
    ensures Fields(m.o, InsideAfter(inside, t, m))
  {
  }

  lemma ActFieldsInside(cfg: Config, g: Shared, o: Client, n: nat, t: nat, pc: Pc, ch: Choice, m: Move)
    requires Act(cfg, g, o, n, t, pc, ch) == Some(m)
    requires o.mu == Some(t) && Fields(o, pc) && pc.Mu().Some?
    ensures Fields(m.o, InsideAfter(pc, t, m))
  {
  }

  lemma ActCountOutside(cfg: Config, g: Shared, o: Client, inside: Pc, n: nat, t: nat, pc: Pc, ch: Choice, m: Move)
    requires Act(cfg, g, o, n, t, pc, ch) == Some(m)
    requires Seat(o, t, pc, inside) && pc.Mu().None?
    ensures CountMove(g, o, inside, t, m)
  {
  }

  lemma ActCountInside(cfg: Config, g: Shared, o: Client, n: nat, t: nat, pc: Pc, ch: Choice, m: Move)
    requires Act(cfg, g, o, n, t, pc, ch) == Some(m)
    requires o.mu == Some(t) && Fields(o, pc) && pc.Mu().Some?
    requires pc.GoCount? ==> g.dbCount > 0
    ensures CountMove(g, o, pc, t, m)
  {
  }

  lemma ActCarryOutside(cfg: Config, g: Shared, o: Client, inside: Pc, n: nat, t: nat, pc: Pc, ch: Choice, m: Move)
    requires Act(cfg, g, o, n, t, pc, ch) == Some(m)
    requires Seat(o, t, pc, inside) && pc.Mu().None?
    ensures CarryMove(g, o, inside, t, pc, m)
  {
  }

  lemma ActCarryInside(cfg: Config, g: Shared, o: Client, n: nat, t: nat, pc: Pc, ch: Choice, m: Move)
    requires Act(cfg, g, o, n, t, pc, ch) == Some(m)
    requires o.mu == Some(t) && Fields(o, pc) && pc.Mu().Some?
    requires pc.GoCloser? ==> !o.phase.Closed?
    ensures CarryMove(g, o, pc, t, pc, m)
  {
  }

  lemma ActEnd(cfg: Config, g: Shared, o: Client, inside: Pc, n: nat, t: nat, pc: Pc, ch: Choice, m: Move)
    requires Act(cfg, g, o, n, t, pc, ch) == Some(m)
    requires Seat(o, t, pc, inside) && Fields(o, inside)
    requires pc.Goroutine() || pc.RegLink? || pc.CloseDrop? || (pc.CloseTake? && pc.c in g.connToID) ==> !o.phase.Closed?
    ensures EndMove(o, inside, t, m)
  {
  }

  // ---------- The whole state

  ghost predicate ClientFields(s: State, c: nat)
    requires c < |s.objs|
  {
    Fields(s.objs[c], Inside(s, c))
  }

  ghost function Carrying(s: State, c: nat): Option<nat>
    requires c < |s.objs|
  {
    Carried(s.objs[c], Inside(s, c))
  }

  /** A client that carries instance k got it from its own Opener call, and k is not closed. */
  ghost predicate Rightful(s: State, c: nat)
    requires c < |s.objs|
  {
    var k := Carrying(s, c);
    k.Some? ==> k.value < |s.g.opens| && s.g.opens[k.value].c == c && k.value !in s.g.closes
                && (s.objs[c].phase.Closed? ==> s.g.opens[k.value].late)
  }

  /** Instance k is closed, or carried by the client it was opened for. */
  ghost predicate Conserved(s: State, k: nat)
    requires k < |s.g.opens|
  {
    var r := s.g.opens[k];
    && r.c < |s.objs|
    && (k in s.g.closes || Carrying(s, r.c) == Some(k))
    && (r.late ==> s.objs[r.c].phase.Closed? && k !in s.g.closes)
  }

  ghost predicate Distinct(closes: seq<nat>) {
    forall i, j :: 0 <= i < j < |closes| ==> closes[i] != closes[j]
  }

  ghost function CountedClients(s: State): set<nat> {
    set c | 0 <= c < |s.objs| && Counted(s.objs[c], Inside(s, c))
  }

  ghost function CarryingClients(s: State): set<nat> {
    set c | 0 <= c < |s.objs| && Carrying(s, c).Some?
  }

  ghost predicate Books(s: State) {
    && (forall c :: 0 <= c < |s.objs| ==> ClientFields(s, c) && Rightful(s, c))
    && (forall k :: 0 <= k < |s.g.opens| ==> Conserved(s, k))
    && Distinct(s.g.closes)
    && (forall k :: k in s.g.closes ==> k < |s.g.opens|)
    && s.g.dbCount == |CountedClients(s)|
    && |s.g.opens| - |s.g.closes| == |CarryingClients(s)|
  }

  lemma SeatOf(s: State, t: nat)
    requires s.Shape() && Locks(s) && t < |s.threads|
    ensures var target := s.Target(t);
            Seat(s.TargetObject(t), t, s.threads[t], if target.Some? then Inside(s, target.value) else Done)
  {
    assert ThreadLocks(s, t);
    if s.Target(t).Some? {
      assert ClientLock(s, s.Target(t).value);
    }
  }

  ghost function TargetInside(s: State, t: nat): Pc
    requires s.Shape() && t < |s.threads|
  {
    if s.Target(t).Some? then Inside(s, s.Target(t).value) else Done
  }

  /** What the invariants say about the target of thread `t`. */
  lemma TargetBooks(s: State, t: nat)
    requires s.Shape() && t < |s.threads| && Locks(s) && Registry(s) && Books(s) && s.Target(t).Some?
    ensures var o, pc := s.TargetObject(t), s.threads[t];
            && Seat(o, t, pc, TargetInside(s, t)) && Fields(o, TargetInside(s, t)) && pc.Ref() == s.Target(t)
            && (pc.Goroutine() || pc.RegLink? || pc.CloseDrop? || (pc.CloseTake? && pc.c in s.g.connToID) ==> !o.phase.Closed?)
            && (pc.GoCount? ==> s.g.dbCount > 0)
  {
    var c, pc := s.Target(t).value, s.threads[t];
    SeatOf(s, t);
    assert ThreadPlace(s, t) && ClientFields(s, c) && ClientPlace(s, c);
    if pc.CloseTake? && c in s.g.connToID {
      assert ConnEntry(s, c);
    }
    if pc.GoCount? {
      assert c in CountedClients(s);
    }
    if pc.CloseDrop? {
      assert ClientPlace(s, pc.c);
    }
  }

  lemma ActUntargetedBooks(cfg: Config, g: Shared, n: nat, t: nat, pc: Pc, ch: Choice, m: Move)
    requires Act(cfg, g, NO_CLIENT, n, t, pc, ch) == Some(m) && pc.Ref() == None
    ensures m.g.opens == g.opens && m.g.closes == g.closes && m.g.dbCount == g.dbCount && m.o == NO_CLIENT
  {
  }

  ghost predicate BookMove(s: State, t: nat, m: Move)
    requires s.Shape() && t < |s.threads|
  {
    var target, o, inside := s.Target(t), s.TargetObject(t), TargetInside(s, t);
    && LockMove(s, t, m)
    && Fields(m.o, InsideAfter(inside, t, m))
    && CountMove(s.g, o, inside, t, m)
    && CarryMove(s.g, o, inside, t, s.threads[t], m) && (target.Some? ==> s.threads[t].Ref() == target) && EndMove(o, inside, t, m)
    && (target.None? ==> m.g.opens == s.g.opens && m.g.closes == s.g.closes && m.g.dbCount == s.g.dbCount)
  }

  lemma BooksMove(cfg: Config, s: State, t: nat, ch: Choice, m: Move)
    requires s.Shape() && t < |s.threads| && Locks(s) && Registry(s) && Books(s)
    requires Effect(cfg, s, t, ch) == Some(m) && LockMove(s, t, m)
    ensures BookMove(s, t, m)
  {
    var target, pc := s.Target(t), s.threads[t];
    if pc.CloseDrop? {
      assert ThreadPlace(s, t) && ClientPlace(s, pc.c);
    }
    if target.Some? {
      TargetBooks(s, t);
      if pc.Mu().Some? {
        ActFieldsInside(cfg, s.g, s.TargetObject(t), |s.threads|, t, pc, ch, m);
        ActCarryInside(cfg, s.g, s.TargetObject(t), |s.threads|, t, pc, ch, m);
        ActCountInside(cfg, s.g, s.TargetObject(t), |s.threads|, t, pc, ch, m);
      } else {
        ActFieldsOutside(cfg, s.g, s.TargetObject(t), TargetInside(s, t), |s.threads|, t, pc, ch, m);
        ActCarryOutside(cfg, s.g, s.TargetObject(t), TargetInside(s, t), |s.threads|, t, pc, ch, m);
        ActCountOutside(cfg, s.g, s.TargetObject(t), TargetInside(s, t), |s.threads|, t, pc, ch, m);
      }
      ActEnd(cfg, s.g, s.TargetObject(t), TargetInside(s, t), |s.threads|, t, pc, ch, m);
    } else {
      ActUntargetedBooks(cfg, s.g, |s.threads|, t, pc, ch, m);
    }
  }

  lemma InsideCommit(s: State, t: nat, m: Move, d: nat)
    requires s.Shape() && t < |s.threads| && Locks(s) && LockMove(s, t, m) && d < |s.objs|
    ensures s.Target(t) != Some(d) ==> Inside(Commit(s, t, m), d) == Inside(s, d)
    ensures s.Target(t) == Some(d) ==> Inside(Commit(s, t, m), d) == InsideAfter(Inside(s, d), t, m)
  {
    assert ThreadLocks(s, t) && ClientLock(s, d);
  }

  lemma ClientBooksCommit(s: State, t: nat, m: Move, d: nat)
    requires s.Shape() && t < |s.threads| && Locks(s) && Books(s) && BookMove(s, t, m) && d < |s.objs|
    ensures ClientFields(Commit(s, t, m), d) && Rightful(Commit(s, t, m), d)
  {
    assert ClientFields(s, d) && Rightful(s, d);
    InsideCommit(s, t, m, d);
    var target := s.Target(t);
    if target.Some? {
      assert Rightful(s, target.value);
    }
  }

  lemma ConservedCommit(s: State, t: nat, m: Move, k: nat)
    requires s.Shape() && t < |s.threads| && Locks(s) && Books(s) && BookMove(s, t, m) && k < |m.g.opens|
    ensures Conserved(Commit(s, t, m), k)
  {
    var target := s.Target(t);
    if target.Some? {
      InsideCommit(s, t, m, target.value);
      assert Rightful(s, target.value);
    }
    if k < |s.g.opens| {
      assert Conserved(s, k);
      InsideCommit(s, t, m, s.g.opens[k].c);
    }
  }

  lemma ClosesCommit(s: State, t: nat, m: Move)
    requires s.Shape() && t < |s.threads| && Locks(s) && Books(s) && BookMove(s, t, m)
    ensures Distinct(m.g.closes) && forall k :: k in m.g.closes ==> k < |m.g.opens|
  {
    if s.Target(t).Some? {
      assert Rightful(s, s.Target(t).value);
    }
  }

  /** Sets that agree except on `c` differ in size by whether they hold `c`. */
  lemma SizesDiffer(before: set<nat>, after: set<nat>, c: nat)
    requires forall d :: d != c ==> (d in before <==> d in after)
    ensures |after| == |before| + Bit(c in after) - Bit(c in before)
  {
    assert after - {c} == before - {c};
    assert |before| == |before - {c}| + Bit(c in before) && |after| == |after - {c}| + Bit(c in after);
  }

  lemma CountCommit(s: State, t: nat, m: Move)
    requires s.Shape() && t < |s.threads| && Locks(s) && Books(s) && BookMove(s, t, m)
    ensures m.g.dbCount == |CountedClients(Commit(s, t, m))|
  {
    var s', target := Commit(s, t, m), s.Target(t);
    var before, after := CountedClients(s), CountedClients(s');
    forall d | 0 <= d < |s.objs| && target != Some(d)
      ensures d in before <==> d in after
    {
      InsideCommit(s, t, m, d);
    }
    if target.Some? {
      var c := target.value;
      InsideCommit(s, t, m, c);
      SizesDiffer(before, after, c);
      assert c in before <==> Counted(s.objs[c], Inside(s, c));
      assert c in after <==> Counted(m.o, Inside(s', c));
    } else {
      assert after == before;
    }
  }

  lemma CarryCountCommit(s: State, t: nat, m: Move)
    requires s.Shape() && t < |s.threads| && Locks(s) && Books(s) && BookMove(s, t, m)
    ensures |m.g.opens| - |m.g.closes| == |CarryingClients(Commit(s, t, m))|
  {
    var s', target := Commit(s, t, m), s.Target(t);
    var before, after := CarryingClients(s), CarryingClients(s');
    forall d | 0 <= d < |s.objs| && target != Some(d)
      ensures d in before <==> d in after
    {
      InsideCommit(s, t, m, d);
    }
    if target.Some? {
      var c := target.value;
      InsideCommit(s, t, m, c);
      SizesDiffer(before, after, c);
      assert c in before <==> Carrying(s, c).Some?;
      assert c in after <==> Carrying(s', c).Some?;
    } else {
      assert after == before;
    }
  }

  lemma BooksKept(cfg: Config, s: State, t: nat, ch: Choice, m: Move)
    requires s.Shape() && t < |s.threads| && Locks(s) && Registry(s) && Books(s)
    requires Effect(cfg, s, t, ch) == Some(m) && LockMove(s, t, m)
    ensures BookMove(s, t, m) && Books(Commit(s, t, m))
  {
    BooksMove(cfg, s, t, ch, m);
    var s' := Commit(s, t, m);
    forall d | 0 <= d < |s'.objs|
      ensures ClientFields(s', d) && Rightful(s', d)
    {
      ClientBooksCommit(s, t, m, d);
    }
    forall k | 0 <= k < |s'.g.opens|
      ensures Conserved(s', k)
    {
      ConservedCommit(s, t, m, k);
    }
    ClosesCommit(s, t, m);
    CountCommit(s, t, m);
    CarryCountCommit(s, t, m);
  }

  lemma BooksKeptByStart(s: State, s': State)
    requires s.Shape() && Locks(s) && Books(s) && Started(s, s') && s'.Shape()
    ensures Books(s')
  {
    forall d | 0 <= d < |s'.objs|
      ensures d < |s.objs| ==> Inside(s', d) == Inside(s, d)
      ensures d >= |s.objs| ==> Inside(s', d) == Done && s'.objs[d].db == s'.objs[d].conn == None
    {
      assert d < |s.objs| ==> ClientLock(s, d);
    }
    forall d | 0 <= d < |s'.objs|
      ensures ClientFields(s', d) && Rightful(s', d)
    {
      assert d < |s.objs| ==> ClientFields(s, d) && Rightful(s, d);
    }
    forall k | 0 <= k < |s'.g.opens|
      ensures Conserved(s', k)
    {
      assert Conserved(s, k);
    }
    assert CountedClients(s') == CountedClients(s) && CarryingClients(s') == CarryingClients(s);
  }
}
