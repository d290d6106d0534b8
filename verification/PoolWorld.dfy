/** Many clients, one backend pool: the step system of src/pool.rs and src/proxy/pooled.rs.

    Sessions interleave in any order and may fail or be aborted at any await. A backend is any server:
    it consumes the frames written to it one at a time, shares its replica's database with the other
    connections, and may also send messages nobody asked for. The library pool under `BackendPool` is
    its contract: a take returns an idle connection with an equal key or a new one, within capacity, and an
    idle connection may be evicted at any time. */
module PoolWorld {
  import opened Bytes
  import opened Session

  type ClientId = nat
  /** The session state of a backend process. */
  type Backend(!new)
  /** What the connections to one replica share. */
  type Database(!new)

  /** `boot` is the state after startup; `run` handles one frame and replies. */
  datatype Server = Server(
    boot: (string, seq<byte>) -> Backend,
    run: (Backend, Database, Message) -> (Backend, Database, seq<Message>))

  /** `PgConnId` */
  datatype Key = Key(user: string, database: string, shard: string)

  /** What a connection carried after startup: `who` is the client, or nobody for the pool's own reset. */
  datatype Entry = Wrote(who: Option<ClientId>, f: Message) | Took(who: Option<ClientId>, m: Message)

  datatype Conn = Conn(key: Key, startup: seq<byte>, toBackend: seq<Message>, fromBackend: seq<Message>,
                       back: Backend, log: seq<Entry>)

  /** A client: `sent` is all it has sent, of which `read` frames have been read; `replies` is all it received. */
  datatype Client = Client(user: string, database: string, startup: seq<byte>, pc: Pc, slot: Option<ConnId>,
                           sent: seq<Message>, read: nat, replies: seq<Message>, history: seq<Event>)

  datatype World = World(cfg: Config, capacity: Option<nat>, cached: iset<(string, string)>,
                         clients: map<ClientId, Client>, conns: map<ConnId, Conn>,
                         idle: set<ConnId>, closed: set<ConnId>, dbs: map<string, Database>)

  datatype Step =
    | Join(c: ClientId, user: string, database: string, startup: seq<byte>)
    | SendUp(c: ClientId, f: Message)
    | Dial(c: ClientId, k: ConnId, shard: string)
    | Reuse(c: ClientId, k: ConnId, shard: string)
    | Act(c: ClientId, ev: Event)
    | Serve(k: ConnId)
    | Emit(k: ConnId, m: Message)
    | Evict(k: ConnId)

  function Open(w: World): set<ConnId> {
    w.conns.Keys - w.closed
  }

  // ---------------------------------------------------------------------------------------------
  // Session actions

  /** The input an action consumes is there to be consumed. */
  predicate InputReady(w: World, cl: Client, ev: Event) {
    match ev
    case ReadClient(f) => cl.read < |cl.sent| && cl.sent[cl.read] == f
    case PassUp(_, f) => cl.read < |cl.sent| && cl.sent[cl.read] == f
    case ReadBackend(k, m) => k in w.conns && w.conns[k].fromBackend != [] && w.conns[k].fromBackend[0] == m
    case ReadReset(k, m) => k in w.conns && w.conns[k].fromBackend != [] && w.conns[k].fromBackend[0] == m
    case PassDown(k, m) => k in w.conns && w.conns[k].fromBackend != [] && w.conns[k].fromBackend[0] == m
    case Cached => (cl.user, cl.database) in w.cached
    case _ => true
  }

  predicate CanAct(w: World, c: ClientId, ev: Event) {
    && c in w.clients && !ev.Lease?
    && Next(w.cfg, w.clients[c].pc, ev).Some?
    && (Holds(w.clients[c].pc).Some? ==> Holds(w.clients[c].pc).value in w.conns)
    && InputReady(w, w.clients[c], ev)
  }

  function SlotAfter(slot: Option<ConnId>, ev: Event): Option<ConnId> {
    if ev.SetSlot? then Some(ev.k) else if ev.Clear? || ev.DropHandle? then None else slot
  }

  function ClientAfter(cl: Client, pc: Pc, ev: Event): Client {
    cl.(pc := pc,
        slot := SlotAfter(cl.slot, ev),
        read := if ev.ReadClient? || ev.PassUp? then cl.read + 1 else cl.read,
        replies := if ev.WriteClient? || ev.LateFail? || ev.PassDown? then cl.replies + [ev.m] else cl.replies,
        history := cl.history + [ev])
  }

  /** What an action puts on, or takes off, the session's connection. */
  function Logged(c: ClientId, ev: Event): seq<Entry> {
    match ev
    case WriteBackend(_, f) => [Wrote(Some(c), f)]
    case PassUp(_, f) => [Wrote(Some(c), f)]
    case WriteReset(_, f) => [Wrote(None, f)]
    case ReadBackend(_, m) => [Took(Some(c), m)]
    case PassDown(_, m) => [Took(Some(c), m)]
    case ReadReset(_, m) => [Took(None, m)]
    case _ => []
  }

  function ConnAfter(conn: Conn, c: ClientId, ev: Event): Conn {
    conn.(toBackend := conn.toBackend + (if ev.WriteBackend? || ev.PassUp? || ev.WriteReset? then [ev.f] else []),
          fromBackend := if conn.fromBackend != [] && (ev.ReadBackend? || ev.PassDown? || ev.ReadReset?)
                         then conn.fromBackend[1..] else conn.fromBackend,
          log := conn.log + Logged(c, ev))
  }

  /** The effect of one session action on everything. `checkin` is the only way into `idle`; a discard, or
      the drop of a held lease on abort, closes the connection. */
  function DoAct(w: World, c: ClientId, ev: Event): World
    requires CanAct(w, c, ev)
  {
    var cl := w.clients[c];
    var held := Holds(cl.pc);
    var pc := Next(w.cfg, cl.pc, ev).value;
    var w1 := w.(clients := w.clients[c := ClientAfter(cl, pc, ev)]);
    if held.None? then w1
    else
      var k := held.value;
      w1.(conns := w.conns[k := ConnAfter(w.conns[k], c, ev)],
          idle := if ev.Checkin? then w.idle + {k} else w.idle,
          closed := if ev.Discard? || ev.Abort? then w.closed + {k} else w.closed,
          cached := if ev.Checkin? && cl.pc.Probe? then w.cached + iset{(cl.user, cl.database)} else w.cached)
  }

  /** An action of a session that holds nothing changes that session alone. */
  ghost predicate FreeMove(w: World, w': World, c: ClientId, cl: Client) {
    w' == w.(clients := w.clients[c := cl])
  }

  /** An action of the holder of `k` changes the session, its connection, and where the connection is. */
  ghost predicate HolderMove(w: World, w': World, c: ClientId, cl: Client, k: ConnId, conn: Conn, ev: Event) {
    && w'.cfg == w.cfg && w'.dbs == w.dbs && w'.capacity == w.capacity && w'.cached >= w.cached
    && w'.clients == w.clients[c := cl] && w'.conns == w.conns[k := conn]
    && w'.idle == (if ev.Checkin? then w.idle + {k} else w.idle)
    && w'.closed == if ev.Discard? || ev.Abort? then w.closed + {k} else w.closed
  }

  lemma DoActIs(w: World, c: ClientId, ev: Event)
    requires CanAct(w, c, ev)
    ensures var w', cl := DoAct(w, c, ev), w.clients[c];
      var cl' := ClientAfter(cl, Next(w.cfg, cl.pc, ev).value, ev);
      if Holds(cl.pc).None? then FreeMove(w, w', c, cl')
      else HolderMove(w, w', c, cl', Holds(cl.pc).value, ConnAfter(w.conns[Holds(cl.pc).value], c, ev), ev)
  {
  }

  // ---------------------------------------------------------------------------------------------
  // Leasing

  predicate CanLease(w: World, c: ClientId, k: ConnId) {
    c in w.clients && Next(w.cfg, w.clients[c].pc, Lease(k)).Some?
  }

  function LeasedBy(w: World, c: ClientId, k: ConnId): Client
    requires CanLease(w, c, k)
  {
    ClientAfter(w.clients[c], Next(w.cfg, w.clients[c].pc, Lease(k)).value, Lease(k))
  }

  // ---------------------------------------------------------------------------------------------
  // The system

  predicate Enabled(w: World, step: Step) {
    match step
    case Join(c, _, _, _) => c !in w.clients
    case SendUp(c, _) => c in w.clients
    case Dial(c, k, shard) =>
      CanLease(w, c, k) && k !in w.conns && shard in w.dbs
      && (w.capacity.Some? ==> |Open(w)| < w.capacity.value)
    case Reuse(c, k, shard) =>
      CanLease(w, c, k) && k in w.idle && k in w.conns && shard in w.dbs
      && w.conns[k].key == Key(w.clients[c].user, w.clients[c].database, shard)
    case Act(c, ev) => CanAct(w, c, ev)
    case Serve(k) => k in w.conns && w.conns[k].toBackend != [] && w.conns[k].key.shard in w.dbs
    case Emit(k, _) => k in w.conns && k !in w.closed
    case Evict(k) => k in w.idle
  }

  /** The backend handles the next frame written to it; a closed connection's may still do so. */
  function Served(srv: Server, conn: Conn, db: Database): Conn
    requires conn.toBackend != []
  {
    var (back, _, out) := srv.run(conn.back, db, conn.toBackend[0]);
    conn.(toBackend := conn.toBackend[1..], fromBackend := conn.fromBackend + out, back := back)
  }

  function DbAfter(srv: Server, conn: Conn, db: Database): Database
    requires conn.toBackend != []
  {
    srv.run(conn.back, db, conn.toBackend[0]).1
  }

  function Apply(srv: Server, w: World, step: Step): World
    requires Enabled(w, step)
  {
    match step
    case Join(c, user, database, startup) =>
      w.(clients := w.clients[c := Client(user, database, startup, Start, None, [], 0, [], [])])
    case SendUp(c, f) =>
      w.(clients := w.clients[c := w.clients[c].(sent := w.clients[c].sent + [f])])
    case Dial(c, k, shard) =>
      var cl := w.clients[c];
      var conn := Conn(Key(cl.user, cl.database, shard), cl.startup, [], [], srv.boot(shard, cl.startup), []);
      w.(clients := w.clients[c := LeasedBy(w, c, k)], conns := w.conns[k := conn])
    case Reuse(c, k, _) =>
      w.(clients := w.clients[c := LeasedBy(w, c, k)], idle := w.idle - {k})
    case Act(c, ev) => DoAct(w, c, ev)
    case Serve(k) =>
      var conn, db := w.conns[k], w.dbs[w.conns[k].key.shard];
      w.(conns := w.conns[k := Served(srv, conn, db)], dbs := w.dbs[conn.key.shard := DbAfter(srv, conn, db)])
    case Emit(k, m) =>
      w.(conns := w.conns[k := w.conns[k].(fromBackend := w.conns[k].fromBackend + [m])])
    case Evict(k) =>
      w.(idle := w.idle - {k}, closed := w.closed + {k})
  }

  predicate Initial(w: World) {
    ValidConfig(w.cfg) && w.clients == map[] && w.conns == map[] && w.idle == {} && w.closed == {}
  }

  /** The world after a run, if every step of it was possible. */
  function Exec(srv: Server, init: World, steps: seq<Step>): (w: Option<World>) {
    if steps == [] then Some(init)
    else
      var before := Exec(srv, init, steps[..|steps| - 1]);
      if before.Some? && Enabled(before.value, steps[|steps| - 1])
      then Some(Apply(srv, before.value, steps[|steps| - 1]))
      else None
  }

  lemma ExecSnoc(srv: Server, init: World, steps: seq<Step>, step: Step)
    requires Exec(srv, init, steps).Some? && Enabled(Exec(srv, init, steps).value, step)
    ensures Exec(srv, init, steps + [step]) == Some(Apply(srv, Exec(srv, init, steps).value, step))
  {
    assert (steps + [step])[..|steps|] == steps;
  }

  // ---------------------------------------------------------------------------------------------
  // Wire accounting

  /** The frontend messages the backend answers with a ReadyForQuery: Query, Sync and FunctionCall. */
  predicate Triggers(f: Message) {
    f.tag == 81 || f.tag == 83 || f.tag == 70
  }

  /** CopyData, CopyDone and CopyFail. */
  predicate IsCopy(f: Message) {
    f.tag == 100 || f.tag == 99 || f.tag == 102
  }

  function TriggerCount(fs: seq<Message>): nat {
    if fs == [] then 0 else TriggerCount(fs[..|fs| - 1]) + if Triggers(fs[|fs| - 1]) then 1 else 0
  }

  function RfqCount(ms: seq<Message>): nat {
    if ms == [] then 0 else RfqCount(ms[..|ms| - 1]) + if IsRfq(ms[|ms| - 1]) then 1 else 0
  }
}
