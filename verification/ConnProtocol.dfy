/**
  The connection manager as a transition system.

  Every operation of `Manager` and `Client`, and the goroutine that `closeConn`
  starts, is a thread; one step of a thread is one critical section, or one call
  into code outside the package (the Opener, the Closer, the body of a `range`
  loop over `Databases`).  A run interleaves the threads in any order and may
  start a new operation at any moment.

  A connection and the client object made for it share one number: `net/http`
  announces each connection once, so the n-th registration creates client n.
 */
module ConnProtocol {
  import opened GoTypes
  import opened Wrappers

  type ID = Uint32

  datatype Config = Config(maxDB: int, hasOpener: bool)

  /** What `Client.Conn` returns; `ConnNil` is a nil connection without an error. */
  datatype Outcome = ConnOK(k: nat) | ConnNil | ErrMaxDB | ErrNoOpener | ErrOpen

  /** Where a thread stands: each value names the step it takes next. */
  datatype Pc =
      // ConnContext, withNewClient
    | RegDraw(c: nat)
    | RegInsert(c: nat, id: ID)
    | RegLink(c: nat, id: ID)
    | RegName(c: nat, id: ID)
      // closeConn
    | CloseTake(c: nat)
    | CloseLookup(c: nat, id: ID)
    | CloseDrop(c: nat, id: ID)
      // the goroutine of closeConn: Client.close and Manager.closeDB
    | GoLock(c: nat)
    | GoConn(c: nat)
    | GoCount(c: nat, k: nat)
    | GoCloser(c: nat, k: nat)
    | GoUnlock(c: nat)
      // Manager.Client, then Client.Conn and Manager.openDB
    | ReqLoad(id: ID)
    | ConnLock(c: nat)
    | ConnCheck(c: nat)
    | OpenLock(c: nat)
    | OpenCheck(c: nat)
    | Opening(c: nat)
    | OpenCount(c: nat, k: nat)
    | Install(c: nat, k: nat)
    | ConnReturn(c: nat, out: Outcome)
      // a loop over Databases
    | RangeEnter
    | RangeNext(todo: set<ID>)
    | RangeLock(c: nat, id: ID, todo: set<ID>)
    | RangeVisit(c: nat, id: ID, todo: set<ID>)
    | RangeLeave
    | Done
  {
    /** The client the thread works on. */
    function Ref(): Option<nat> {
      match this
      case ReqLoad(_) => None
      case RangeEnter => None
      case RangeNext(_) => None
      case RangeLeave => None
      case Done => None
      case _ => Some(this.c)
    }

    /** The client whose mutex the thread holds. */
    function Mu(): Option<nat> {
      if GoConn? || GoCount? || GoCloser? || GoUnlock? || ConnCheck? || OpenLock? || OpenCheck? || Opening?
         || OpenCount? || Install? || ConnReturn? || RangeVisit?
      then Some(this.c) else None
    }

    /** The thread holds `dbMutex`. */
    predicate HoldsDB() { OpenCheck? || Opening? || OpenCount? }

    /** The thread holds the read lock of `clients`. */
    predicate HoldsRead() { RangeNext? || RangeLock? || RangeVisit? || RangeLeave? }

    /** The thread has announced itself as the writer of `clients`. */
    predicate HoldsWrite() { RegInsert? || CloseDrop? }

    /** The thread is the close goroutine of client `c`. */
    predicate Goroutine() { GoLock? || GoConn? || GoCount? || GoCloser? || GoUnlock? }
  }

  /** History: how far the life of a client has come, and which thread drives it. */
  datatype Phase =
    | Joining(worker: nat)
    | Linked(id: ID)
    | Leaving(worker: nat, id: ID)
    | Detached(worker: nat, id: ID)
    | Closed(id: ID)

  /** `name` is the ID field; `db` and `conn` hold the number of the Open that made them. */
  datatype Client = Client(name: Option<ID>, mu: Option<nat>, db: Option<nat>, conn: Option<nat>, phase: Phase)

  /** History: one successful Open; `late` when the client had been closed before. */
  datatype Opened = Opened(c: nat, late: bool)

  /** Everything that is neither a client object nor a thread. */
  datatype Shared = Shared(
    connToID: map<nat, ID>, clients: map<ID, nat>,
    readers: set<nat>, writer: Option<nat>,
    dbCount: int, dbMutex: Option<nat>,
    opens: seq<Opened>, closes: seq<nat>)

  datatype State = State(g: Shared, objs: seq<Client>, threads: seq<Pc>) {

    predicate Shape() {
      && (forall t :: 0 <= t < |threads| && threads[t].Ref().Some? ==> threads[t].Ref().value < |objs|)
      && (forall id :: id in g.clients ==> g.clients[id] < |objs|)
    }

    /** The client that the next step of thread `t` reads and writes, if any. */
    function Target(t: nat): Option<nat>
      requires t < |threads|
    {
      var pc := threads[t];
      if pc.CloseDrop? then if pc.id in g.clients then Some(g.clients[pc.id]) else None
      else pc.Ref()
    }

    function TargetObject(t: nat): Client
      requires Shape() && t < |threads|
    {
      var target := Target(t);
      if target.Some? then objs[target.value] else NO_CLIENT
    }
  }

  const NO_CLIENT := Client(None, None, None, None, Closed(0))

  /** The outcomes a step cannot decide: a drawn or iterated ID, and whether outside code succeeded. */
  datatype Choice = Choice(id: ID, ok: bool)

  /** The effect of a step: on the shared part, on its target client, on its thread, and the threads it starts. */
  datatype Move = Move(g: Shared, o: Client, pc: Pc, spawn: seq<Pc>)

  const INIT := State(Shared(map[], map[], {}, None, 0, None, [], []), [], [])

  /**
    What thread `t`, standing at `pc`, does to the shared part `g` and its target `o`
    in one step; None when it is finished or waits for a lock.  The next thread
    started gets number `n`.  A writer of `clients` first announces itself, which
    keeps new readers out, and acts once the last reader has left.
   */
  function Act(cfg: Config, g: Shared, o: Client, n: nat, t: nat, pc: Pc, ch: Choice): Option<Move> {
    match pc
    case RegDraw(c) =>
      if g.writer.Some? then None else Some(Move(g.(writer := Some(t)), o, RegInsert(c, ch.id), []))
    case RegInsert(c, id) =>
      if g.readers != {} then None
      else if id in g.clients then Some(Move(g.(writer := None), o, RegDraw(c), []))
      else Some(Move(g.(clients := g.clients[id := c], writer := None), o, RegLink(c, id), []))
    case RegLink(c, id) =>
      Some(Move(g.(connToID := g.connToID[c := id]), o.(phase := Linked(id)), RegName(c, id), []))
    case RegName(c, id) =>
      Some(Move(g, o.(name := Some(id)), Done, []))
    case CloseTake(c) =>
      if c !in g.connToID then Some(Move(g, o, Done, []))
      else
        var id := g.connToID[c];
        Some(Move(g.(connToID := g.connToID - {c}), o.(phase := Leaving(t, id)), CloseLookup(c, id), []))
    case CloseLookup(c, id) =>
      if g.writer.Some? then None else Some(Move(g.(writer := Some(t)), o, CloseDrop(c, id), []))
    case CloseDrop(_, id) =>
      if g.readers != {} then None
      else if id !in g.clients then Some(Move(g.(writer := None), o, Done, []))
      else Some(Move(g.(clients := g.clients - {id}, writer := None), o.(phase := Detached(n, id)), Done,
                     [GoLock(g.clients[id])]))
    case GoLock(c) =>
      if o.mu.Some? then None else Some(Move(g, o.(mu := Some(t)), GoConn(c), []))
    case GoConn(c) =>
      Some(Move(g, o.(conn := None), if o.db.Some? then GoCount(c, o.db.value) else GoUnlock(c), []))
    case GoCount(c, k) =>
      if g.dbMutex.Some? then None
      else Some(Move(g.(dbCount := if g.dbCount > 0 then g.dbCount - 1 else g.dbCount), o, GoCloser(c, k), []))
    case GoCloser(c, k) =>
      Some(Move(g.(closes := g.closes + [k]), o.(db := None), GoUnlock(c), []))
    case GoUnlock(c) =>
      var phase := if o.phase.Detached? then Closed(o.phase.id) else o.phase;
      Some(Move(g, o.(mu := None, phase := phase), Done, []))
    case ReqLoad(id) =>
      if g.writer.Some? then None
      else Some(Move(g, o, if id in g.clients then ConnLock(g.clients[id]) else Done, []))
    case ConnLock(c) =>
      if o.mu.Some? then None else Some(Move(g, o.(mu := Some(t)), ConnCheck(c), []))
    case ConnCheck(c) =>
      Some(Move(g, o, if o.conn.Some? then ConnReturn(c, ConnOK(o.conn.value))
                      else if o.db.None? then OpenLock(c) else ConnReturn(c, ConnNil), []))
    case OpenLock(c) =>
      if g.dbMutex.Some? then None else Some(Move(g.(dbMutex := Some(t)), o, OpenCheck(c), []))
    case OpenCheck(c) =>
      if g.dbCount >= cfg.maxDB then Some(Move(g.(dbMutex := None), o, ConnReturn(c, ErrMaxDB), []))
      else if !cfg.hasOpener then Some(Move(g.(dbMutex := None), o, ConnReturn(c, ErrNoOpener), []))
      else Some(Move(g, o, Opening(c), []))
    case Opening(c) =>
      if ch.ok then Some(Move(g.(opens := g.opens + [Opened(c, o.phase.Closed?)]), o, OpenCount(c, |g.opens|), []))
      else Some(Move(g.(dbMutex := None), o, ConnReturn(c, ErrOpen), []))
    case OpenCount(c, k) =>
      Some(Move(g.(dbCount := g.dbCount + 1, dbMutex := None), o, Install(c, k), []))
    case Install(c, k) =>
      Some(Move(g, o.(db := Some(k), conn := Some(k)), ConnReturn(c, ConnOK(k)), []))
    case ConnReturn(c, _) =>
      Some(Move(g, o.(mu := None), Done, []))
    case RangeEnter =>
      if g.writer.Some? then None else Some(Move(g.(readers := g.readers + {t}), o, RangeNext(g.clients.Keys), []))
    case RangeNext(todo) =>
      if todo == {} then Some(Move(g, o, RangeLeave, []))
      else if ch.id in todo && ch.id in g.clients
      then Some(Move(g, o, RangeLock(g.clients[ch.id], ch.id, todo - {ch.id}), []))
      else None
    case RangeLock(c, id, todo) =>
      if o.mu.Some? then None else Some(Move(g, o.(mu := Some(t)), RangeVisit(c, id, todo), []))
    case RangeVisit(c, id, todo) =>
      Some(Move(g, o.(mu := None), if o.db.None? || ch.ok then RangeNext(todo) else RangeLeave, []))
    case RangeLeave =>
      Some(Move(g.(readers := g.readers - {t}), o, Done, []))
    case Done => None
  }

  function Effect(cfg: Config, s: State, t: nat, ch: Choice): Option<Move>
    requires s.Shape() && t < |s.threads|
  {
    Act(cfg, s.g, s.TargetObject(t), |s.threads|, t, s.threads[t], ch)
  }

  function Commit(s: State, t: nat, m: Move): State
    requires s.Shape() && t < |s.threads|
  {
    var target := s.Target(t);
    State(m.g, if target.Some? then s.objs[target.value := m.o] else s.objs, s.threads[t := m.pc] + m.spawn)
  }

  /** One step of thread `t`. */
  function Step(cfg: Config, s: State, t: nat, ch: Choice): Option<State>
    requires s.Shape() && t < |s.threads|
  {
    match Effect(cfg, s, t, ch)
    case None => None
    case Some(m) => Some(Commit(s, t, m))
  }

  /** The calls a server may make at any moment; `ConnOn` uses a client pointer kept from before. */
  datatype Call = ConnContext | CloseConn(c: nat) | ClientConn(id: ID) | ConnOn(c: nat) | Databases

  function Start(s: State, call: Call): Option<State> {
    match call
    case ConnContext =>
      Some(State(s.g, s.objs + [Client(None, None, None, None, Joining(|s.threads|))], s.threads + [RegDraw(|s.objs|)]))
    case CloseConn(c) => if c < |s.objs| then Some(s.(threads := s.threads + [CloseTake(c)])) else None
    case ClientConn(id) => Some(s.(threads := s.threads + [ReqLoad(id)]))
    case ConnOn(c) => if c < |s.objs| then Some(s.(threads := s.threads + [ConnLock(c)])) else None
    case Databases => Some(s.(threads := s.threads + [RangeEnter]))
  }

  datatype Event = Begin(call: Call) | Run(t: nat, ch: Choice)

  function Apply(cfg: Config, s: State, e: Event): (r: Option<State>) {
    match e
    case Begin(call) => Start(s, call)
    case Run(t, ch) => if s.Shape() && t < |s.threads| then Step(cfg, s, t, ch) else None
  }

  /** The state after a whole run, or None when the events do not form one. */
  function Exec(cfg: Config, s: State, es: seq<Event>): Option<State>
    decreases es
  {
    if es == [] then Some(s)
    else match Apply(cfg, s, es[0])
      case None => None
      case Some(next) => Exec(cfg, next, es[1..])
  }
}
