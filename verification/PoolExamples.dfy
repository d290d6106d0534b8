/** What fails without the assumptions of `PoolDiscipline`: runs that break each conclusion. */
module PoolExamples {
  import opened Bytes
  import opened Session
  import opened PoolWorld
  import PoolSafety
  import Codec

  /** A run to `w` in which backends only answer what they are sent. */
  ghost predicate Reaches(srv: Server, init: World, steps: seq<Step>, w: World) {
    Exec(srv, init, steps) == Some(w) && forall i :: 0 <= i < |steps| ==> !steps[i].Emit?
  }

  /** One more step of a run. */
  lemma More(srv: Server, init: World, steps: seq<Step>, w: World, step: Step) returns (steps': seq<Step>, w': World)
    requires Reaches(srv, init, steps, w) && Enabled(w, step) && !step.Emit?
    ensures w' == Apply(srv, w, step) && Reaches(srv, init, steps', w')
  {
    ExecSnoc(srv, init, steps, step);
    steps', w' := steps + [step], Apply(srv, w, step);
  }

  const RFQ := Message(Codec.READY_FOR_QUERY, [IDLE])

  /** Every request is answered by one idle ReadyForQuery. */
  ghost predicate Answers(srv: Server) {
    forall b, d, f :: Triggers(f) ==> srv.run(b, d, f).2 == [RFQ]
  }

  /** A pool that resets, with room to dial and one cached (user, database). */
  predicate Usual(init: World) {
    && Initial(init) && init.capacity.None? && !init.cfg.mode.SessionMode? && init.cfg.reset.Some?
    && ("u", "d") in init.cached && "s" in init.dbs
  }

  /** A new client whose (user, database) has its startup parameters cached sends its first frame. */
  lemma Arrive(srv: Server, init: World, steps: seq<Step>, w: World, c: ClientId, startup: seq<byte>, f: Message)
    returns (steps': seq<Step>, cl: Client)
    requires Reaches(srv, init, steps, w) && c !in w.clients
    requires !w.cfg.mode.SessionMode? && ("u", "d") in w.cached && f.tag != Codec.TERMINATE
    ensures Reaches(srv, init, steps', w.(clients := w.clients[c := cl]))
    ensures cl == Client("u", "d", startup, Want(f), None, [f], 1, [], cl.history)
  {
    var cl0 := Client("u", "d", startup, Start, None, [f], 0, [], []);
    var s2 := JoinAndSend(srv, init, steps, w, c, startup, f);
    var s3, cl3 := FreeAct(srv, init, s2, w, c, cl0, Cached);
    steps', cl := FreeAct(srv, init, s3, w, c, cl3, ReadClient(f));
  }

  lemma JoinAndSend(srv: Server, init: World, steps: seq<Step>, w: World, c: ClientId, startup: seq<byte>, f: Message)
    returns (steps': seq<Step>)
    requires Reaches(srv, init, steps, w) && c !in w.clients
    ensures Reaches(srv, init, steps',
                    w.(clients := w.clients[c := Client("u", "d", startup, Start, None, [f], 0, [], [])]))
  {
    var s1, w1 := More(srv, init, steps, w, Join(c, "u", "d", startup));
    var w2: World;
    steps', w2 := More(srv, init, s1, w1, SendUp(c, f));
    assert w2.clients[c].sent == [f] && w2.clients == w.clients[c := w2.clients[c]];
  }

  /** One action of a session that holds nothing. */
  lemma FreeAct(srv: Server, init: World, steps: seq<Step>, w: World, c: ClientId, cl: Client, ev: Event)
    returns (steps': seq<Step>, cl': Client)
    requires Reaches(srv, init, steps, w.(clients := w.clients[c := cl])) && Holds(cl.pc).None? && !ev.Lease?
    requires Next(w.cfg, cl.pc, ev).Some? && InputReady(w.(clients := w.clients[c := cl]), cl, ev)
    ensures cl' == ClientAfter(cl, Next(w.cfg, cl.pc, ev).value, ev)
    ensures Reaches(srv, init, steps', w.(clients := w.clients[c := cl']))
  {
    var w': World;
    steps', w' := More(srv, init, steps, w.(clients := w.clients[c := cl]), Act(c, ev));
    cl' := ClientAfter(cl, Next(w.cfg, cl.pc, ev).value, ev);
    assert w.clients[c := cl][c := cl'] == w.clients[c := cl'];
  }

  /** A world that differs from `w` in one client and one open, leased connection. */
  function With(w: World, c: ClientId, cl: Client, k: ConnId, conn: Conn): World {
    w.(clients := w.clients[c := cl], conns := w.conns[k := conn], idle := w.idle - {k})
  }

  /** One action of a session on its connection. */
  lemma OneAct(srv: Server, init: World, steps: seq<Step>, base: World, c: ClientId, cl: Client, k: ConnId, conn: Conn,
               ev: Event) returns (steps': seq<Step>, cl': Client, conn': Conn)
    requires Reaches(srv, init, steps, With(base, c, cl, k, conn))
    requires Next(base.cfg, cl.pc, ev).Some? && Holds(cl.pc) == Some(k)
    requires InputReady(With(base, c, cl, k, conn), cl, ev)
    requires !ev.Lease? && !ev.Checkin? && !ev.Discard? && !ev.Abort?
    ensures cl' == ClientAfter(cl, Next(base.cfg, cl.pc, ev).value, ev) && conn' == ConnAfter(conn, c, ev)
    ensures Reaches(srv, init, steps', With(base, c, cl', k, conn'))
  {
    cl', conn' := ClientAfter(cl, Next(base.cfg, cl.pc, ev).value, ev), ConnAfter(conn, c, ev);
    var w: World;
    steps', w := More(srv, init, steps, With(base, c, cl, k, conn), Act(c, ev));
    assert base.clients[c := cl][c := cl'] == base.clients[c := cl'];
    assert base.conns[k := conn][k := conn'] == base.conns[k := conn'];
  }

  /** The backend handles the next frame. */
  lemma OneReply(srv: Server, init: World, steps: seq<Step>, base: World, c: ClientId, cl: Client, k: ConnId, conn: Conn)
    returns (steps': seq<Step>, base': World, conn': Conn)
    requires Reaches(srv, init, steps, With(base, c, cl, k, conn))
    requires Answers(srv) && conn.toBackend != [] && Triggers(conn.toBackend[0]) && conn.key.shard in base.dbs
    ensures base' == base.(dbs := base'.dbs) && base'.dbs.Keys == base.dbs.Keys
    ensures conn' == conn.(toBackend := conn.toBackend[1..], fromBackend := conn.fromBackend + [RFQ], back := conn'.back)
    ensures Reaches(srv, init, steps', With(base', c, cl, k, conn'))
  {
    var db := base.dbs[conn.key.shard];
    var w: World;
    steps', w := More(srv, init, steps, With(base, c, cl, k, conn), Serve(k));
    conn' := Served(srv, conn, db);
    base' := base.(dbs := w.dbs);
    assert base.conns[k := conn][k := conn'] == base.conns[k := conn'];
  }

  /** The connection a lease of `k` gets: the idle one, or a new one. */
  function Granted(srv: Server, base: World, cl: Client, k: ConnId): Conn {
    if k in base.conns then base.conns[k] else Conn(Key("u", "d", "s"), cl.startup, [], [], srv.boot("s", cl.startup), [])
  }

  /** The lease of a connection, new or idle. */
  lemma OneLease(srv: Server, init: World, steps: seq<Step>, base: World, c: ClientId, cl: Client, k: ConnId)
    returns (steps': seq<Step>, cl': Client, conn: Conn)
    requires Reaches(srv, init, steps, base) && c in base.clients && base.clients[c] == cl && cl.pc.Want?
    requires base.capacity.None? && "s" in base.dbs && cl.user == "u" && cl.database == "d"
    requires base.idle <= base.conns.Keys
    requires k in base.conns ==> k in base.idle && base.conns[k].key == Key("u", "d", "s")
    ensures cl' == ClientAfter(cl, Held(k, cl.pc.f), Event.Lease(k))
    ensures conn == Granted(srv, base, cl, k)
    ensures Reaches(srv, init, steps', With(base, c, cl', k, conn))
  {
    var w: World;
    steps', w := More(srv, init, steps, base, if k in base.conns then Reuse(c, k, "s") else Dial(c, k, "s"));
    cl', conn := w.clients[c], w.conns[k];
    assert k in base.conns ==> base.conns[k := base.conns[k]] == base.conns;
    assert w.idle == base.idle - {k};
  }

  /** A frame sent. */
  lemma OneSend(srv: Server, init: World, steps: seq<Step>, base: World, c: ClientId, cl: Client, k: ConnId, conn: Conn,
                f: Message) returns (steps': seq<Step>, cl': Client)
    requires Reaches(srv, init, steps, With(base, c, cl, k, conn))
    ensures cl' == cl.(sent := cl.sent + [f])
    ensures Reaches(srv, init, steps', With(base, c, cl', k, conn))
  {
    cl' := cl.(sent := cl.sent + [f]);
    var w: World;
    steps', w := More(srv, init, steps, With(base, c, cl, k, conn), SendUp(c, f));
    assert base.clients[c := cl][c := cl'] == base.clients[c := cl'];
  }

  /** The check-in of a clean connection. */
  lemma OneCheckin(srv: Server, init: World, steps: seq<Step>, base: World, c: ClientId, cl: Client, k: ConnId, conn: Conn)
    returns (steps': seq<Step>, w: World)
    requires Reaches(srv, init, steps, With(base, c, cl, k, conn)) && cl.pc == Clean(k)
    ensures Reaches(srv, init, steps', w) && c in w.clients
    ensures w.clients[c] == cl.(pc := Release(true), history := w.clients[c].history)
    ensures w == base.(clients := base.clients[c := w.clients[c]], conns := base.conns[k := conn], idle := base.idle + {k})
  {
    steps', w := More(srv, init, steps, With(base, c, cl, k, conn), Act(c, Checkin(k)));
    assert ConnAfter(conn, c, Checkin(k)) == conn;
    assert base.clients[c := cl][c := w.clients[c]] == base.clients[c := w.clients[c]];
    assert base.conns[k := conn][k := conn] == base.conns[k := conn];
    assert w.idle == base.idle + {k};
  }

  // ---------------------------------------------------------------------------------------------
  // Phases of a transaction

  lemma FirstFrame(srv: Server, init: World, steps: seq<Step>, base: World, c: ClientId, cl: Client, k: ConnId, conn: Conn)
    returns (steps': seq<Step>, cl': Client, conn': Conn)
    requires Reaches(srv, init, steps, With(base, c, cl, k, conn)) && cl.pc.Held? && cl.pc.k == k
    ensures cl' == cl.(pc := Relay(k), slot := Some(k), history := cl'.history)
    ensures conn' == conn.(toBackend := conn.toBackend + [cl.pc.f], log := conn.log + [Wrote(Some(c), cl.pc.f)])
    ensures Reaches(srv, init, steps', With(base, c, cl', k, conn'))
  {
    var s1, cl1, conn1 := OneAct(srv, init, steps, base, c, cl, k, conn, SetSlot(k));
    assert conn1 == conn;
    steps', cl', conn' := OneAct(srv, init, s1, base, c, cl1, k, conn1, WriteBackend(k, cl.pc.f));
  }

  /** Lease, slot, first frame. */
  lemma Begin(srv: Server, init: World, steps: seq<Step>, base: World, c: ClientId, cl: Client, k: ConnId)
    returns (steps': seq<Step>, cl': Client, conn: Conn)
    requires Reaches(srv, init, steps, base) && c in base.clients && base.clients[c] == cl && cl.pc.Want?
    requires base.capacity.None? && "s" in base.dbs && cl.user == "u" && cl.database == "d"
    requires base.idle <= base.conns.Keys
    requires k in base.conns ==> k in base.idle && base.conns[k].key == Key("u", "d", "s")
    ensures cl' == cl.(pc := Relay(k), slot := Some(k), history := cl'.history)
    ensures var conn0 := Granted(srv, base, cl, k);
      conn == conn0.(toBackend := conn0.toBackend + [cl.pc.f], log := conn0.log + [Wrote(Some(c), cl.pc.f)])
    ensures Reaches(srv, init, steps', With(base, c, cl', k, conn))
  {
    var s1, cl1, conn1 := OneLease(srv, init, steps, base, c, cl, k);
    steps', cl', conn := FirstFrame(srv, init, s1, base, c, cl1, k, conn1);
  }

  /** A further frame, sent without waiting for the reply. */
  lemma Pipeline(srv: Server, init: World, steps: seq<Step>, base: World, c: ClientId, cl: Client, k: ConnId, conn: Conn,
                 f: Message) returns (steps': seq<Step>, cl': Client, conn': Conn)
    requires Reaches(srv, init, steps, With(base, c, cl, k, conn)) && cl.pc == Relay(k)
    requires cl.read == |cl.sent| && f.tag != Codec.TERMINATE
    ensures cl' == cl.(sent := cl.sent + [f], read := cl.read + 1, history := cl'.history)
    ensures conn' == conn.(toBackend := conn.toBackend + [f], log := conn.log + [Wrote(Some(c), f)])
    ensures Reaches(srv, init, steps', With(base, c, cl', k, conn'))
  {
    var s0, cl0 := OneSend(srv, init, steps, base, c, cl, k, conn, f);
    var s1, cl1, conn1 := OneAct(srv, init, s0, base, c, cl0, k, conn, ReadClient(f));
    steps', cl', conn' := OneAct(srv, init, s1, base, c, cl1, k, conn1, WriteBackend(k, f));
  }

  /** The backend's next reply reaches the client, and is the end of a transaction. */
  lemma Answer(srv: Server, init: World, steps: seq<Step>, base: World, c: ClientId, cl: Client, k: ConnId, conn: Conn)
    returns (steps': seq<Step>, base': World, cl': Client, conn': Conn)
    requires Reaches(srv, init, steps, With(base, c, cl, k, conn)) && cl.pc == Relay(k) && base.cfg.reset.Some?
    requires Answers(srv) && conn.toBackend != [] && Triggers(conn.toBackend[0]) && conn.key.shard in base.dbs
    requires conn.fromBackend == []
    ensures base' == base.(dbs := base'.dbs) && base'.dbs.Keys == base.dbs.Keys
    ensures cl' == cl.(pc := AtIdle(k), replies := cl.replies + [RFQ], history := cl'.history)
    ensures conn' == conn.(toBackend := conn.toBackend[1..], back := conn'.back, log := conn.log + [Took(Some(c), RFQ)])
    ensures Reaches(srv, init, steps', With(base', c, cl', k, conn'))
  {
    var s1, base1, conn1 := OneReply(srv, init, steps, base, c, cl, k, conn);
    var s2, cl2, conn2 := OneAct(srv, init, s1, base1, c, cl, k, conn1, ReadBackend(k, RFQ));
    steps', cl', conn' := OneAct(srv, init, s2, base1, c, cl2, k, conn2, WriteClient(RFQ));
    base' := base1;
  }

  /** The reset is written, and takes the next reply for its own. */
  lemma Cleanse(srv: Server, init: World, steps: seq<Step>, base: World, c: ClientId, cl: Client, k: ConnId, conn: Conn)
    returns (steps': seq<Step>, base': World, cl': Client, conn': Conn)
    requires Reaches(srv, init, steps, With(base, c, cl, k, conn)) && cl.pc == AtIdle(k)
    requires base.cfg.reset.Some? && Triggers(base.cfg.reset.value) && Answers(srv) && conn.key.shard in base.dbs
    requires conn.fromBackend == [] && (conn.toBackend != [] ==> Triggers(conn.toBackend[0]))
    ensures base' == base.(dbs := base'.dbs) && base'.dbs.Keys == base.dbs.Keys
    ensures cl' == cl.(pc := Clean(k), history := cl'.history)
    ensures conn' == conn.(toBackend := (conn.toBackend + [base.cfg.reset.value])[1..], back := conn'.back,
                           log := conn.log + [Wrote(None, base.cfg.reset.value), Took(None, RFQ)])
    ensures Reaches(srv, init, steps', With(base', c, cl', k, conn'))
  {
    var r := base.cfg.reset.value;
    var s1, cl1, conn1 := OneAct(srv, init, steps, base, c, cl, k, conn, WriteReset(k, r));
    steps', base', cl', conn' := Drained(srv, init, s1, base, c, cl1, k, conn1);
    assert conn'.log == conn.log + [Wrote(None, r), Took(None, RFQ)];
  }

  lemma Drained(srv: Server, init: World, steps: seq<Step>, base: World, c: ClientId, cl: Client, k: ConnId, conn: Conn)
    returns (steps': seq<Step>, base': World, cl': Client, conn': Conn)
    requires Reaches(srv, init, steps, With(base, c, cl, k, conn)) && cl.pc == Drain(k)
    requires Answers(srv) && conn.key.shard in base.dbs
    requires conn.fromBackend == [] && conn.toBackend != [] && Triggers(conn.toBackend[0])
    ensures base' == base.(dbs := base'.dbs) && base'.dbs.Keys == base.dbs.Keys
    ensures cl' == cl.(pc := Clean(k), history := cl'.history)
    ensures conn' == conn.(toBackend := conn.toBackend[1..], back := conn'.back, log := conn.log + [Took(None, RFQ)])
    ensures Reaches(srv, init, steps', With(base', c, cl', k, conn'))
  {
    var s2, base2, conn2 := OneReply(srv, init, steps, base, c, cl, k, conn);
    steps', cl', conn' := OneAct(srv, init, s2, base2, c, cl, k, conn2, ReadReset(k, RFQ));
    base' := base2;
  }

  /** The reset runs and the connection is pooled. */
  lemma Recycle(srv: Server, init: World, steps: seq<Step>, base: World, c: ClientId, cl: Client, k: ConnId, conn: Conn)
    returns (steps': seq<Step>, w: World)
    requires Reaches(srv, init, steps, With(base, c, cl, k, conn)) && cl.pc == AtIdle(k)
    requires base.cfg.reset.Some? && Triggers(base.cfg.reset.value) && Answers(srv) && conn.key.shard in base.dbs
    requires conn.fromBackend == [] && (conn.toBackend != [] ==> Triggers(conn.toBackend[0]))
    ensures Reaches(srv, init, steps', w)
    ensures c in w.clients && k in w.conns
    ensures w == base.(clients := base.clients[c := w.clients[c]], conns := base.conns[k := w.conns[k]],
                       idle := base.idle + {k}, dbs := w.dbs) && w.dbs.Keys == base.dbs.Keys
    ensures w.clients[c] == cl.(pc := Release(true), history := w.clients[c].history)
    ensures w.conns[k] == conn.(toBackend := (conn.toBackend + [base.cfg.reset.value])[1..], back := w.conns[k].back,
                                log := conn.log + [Wrote(None, base.cfg.reset.value), Took(None, RFQ)])
  {
    var s1, base1, cl1, conn1 := Cleanse(srv, init, steps, base, c, cl, k, conn);
    steps', w := OneCheckin(srv, init, s1, base1, c, cl1, k, conn1);
  }

  // ---------------------------------------------------------------------------------------------
  // Main results

  /** Without half-duplex clients. A client pipelines a second request; the reset takes the reply to it for its
      own, and the connection is pooled owing one reply, its reset still unhandled. */
  lemma PipeliningPoolsADebt(srv: Server, init: World, a: ClientId, q: Message) returns (steps: seq<Step>, w: World, cl: Client)
    requires Usual(init) && Answers(srv) && Triggers(q)
    ensures Reaches(srv, init, steps, w)
    ensures w.clients == map[a := cl] && w.conns.Keys == w.idle == {0} && w.dbs.Keys == init.dbs.Keys
    ensures w.cfg == init.cfg && w.cached == init.cached && w.capacity.None?
    ensures cl.pc == Release(true) && cl.sent == [q, q] && cl.replies == [RFQ]
    ensures w.conns[0].key == Key("u", "d", "s") && w.conns[0].fromBackend == []
    ensures PoolSafety.Owed(w.conns[0].log) == 1 && w.conns[0].toBackend == [init.cfg.reset.value]
  {
    var s2, base, cl2, conn2 := TwoRequests(srv, init, a, q);
    var s3, base3, cl3, conn3 := Answer(srv, init, s2, base, a, cl2, 0, conn2);
    steps, w := Recycle(srv, init, s3, base3, a, cl3, 0, conn3);
    cl := w.clients[a];
    var r := init.cfg.reset.value;
    RecycledDebt(conn2.log, Took(Some(a), RFQ), Wrote(None, r), Took(None, RFQ));
    assert w.conns[0].log == conn2.log + [Took(Some(a), RFQ)] + [Wrote(None, r), Took(None, RFQ)];
    assert w.conns[0].toBackend == [r];
  }

  lemma TwoRequests(srv: Server, init: World, a: ClientId, q: Message)
    returns (steps: seq<Step>, base: World, cl: Client, conn: Conn)
    requires Usual(init) && Triggers(q)
    ensures base == init.(clients := base.clients) && base.clients.Keys == {a}
    ensures Reaches(srv, init, steps, With(base, a, cl, 0, conn))
    ensures cl.pc == Relay(0) && cl.sent == [q, q] && cl.replies == []
    ensures conn.key == Key("u", "d", "s") && conn.toBackend == [q, q] && conn.fromBackend == []
    ensures PoolSafety.Owed(conn.log) == 2
  {
    var s1: seq<Step>, cl1: Client, conn1: Conn;
    s1, base, cl1, conn1 := FirstRequest(srv, init, a, q, []);
    steps, cl, conn := Pipeline(srv, init, s1, base, a, cl1, 0, conn1, q);
    PoolSafety.LogSnoc([Wrote(Some(a), q)], Wrote(Some(a), q));
    OneWrite(a, q);
  }

  /** A client's first frame on a new connection. */
  lemma FirstRequest(srv: Server, init: World, a: ClientId, q: Message, startup: seq<byte>)
    returns (steps: seq<Step>, base: World, cl: Client, conn: Conn)
    requires Usual(init) && Triggers(q)
    ensures base == init.(clients := base.clients) && base.clients.Keys == {a}
    ensures Reaches(srv, init, steps, With(base, a, cl, 0, conn))
    ensures cl.pc == Relay(0) && cl.slot == Some(0) && cl.sent == [q] && cl.read == 1 && cl.replies == []
    ensures conn.key == Key("u", "d", "s") && conn.startup == startup
    ensures conn.toBackend == [q] && conn.fromBackend == [] && conn.log == [Wrote(Some(a), q)]
  {
    var s0, cl0 := Arrive(srv, init, [], init, a, startup, q);
    base := init.(clients := map[a := cl0]);
    steps, cl, conn := Begin(srv, init, s0, base, a, cl0, 0);
    assert [] + [q] == [q] && [] + [Wrote(Some(a), q)] == [Wrote(Some(a), q)];
  }

  lemma OneWrite(a: ClientId, q: Message)
    requires Triggers(q)
    ensures PoolSafety.Owed([Wrote(Some(a), q)]) == 1
  {
    PoolSafety.LogSnoc([], Wrote(Some(a), q));
    assert [] + [Wrote(Some(a), q)] == [Wrote(Some(a), q)];
  }

  lemma RecycledDebt(log: seq<Entry>, e1: Entry, e2: Entry, e3: Entry)
    ensures PoolSafety.Owed(log + [e1] + [e2, e3])
            == PoolSafety.Owed(log) + PoolSafety.Weight(e1) + PoolSafety.Weight(e2) + PoolSafety.Weight(e3)
  {
    PoolSafety.LogSnoc(log, e1);
    PoolSafety.LogSnoc(log + [e1], e2);
    PoolSafety.LogSnoc(log + [e1] + [e2], e3);
    assert log + [e1] + [e2] + [e3] == log + [e1] + [e2, e3];
  }

  /** And the next client is answered before its request has reached the backend: it is given the reply to the reset. */
  lemma PipeliningMisdirectsAReply(srv: Server, init: World, a: ClientId, b: ClientId, q: Message)
    returns (steps: seq<Step>, w: World)
    requires Usual(init) && Answers(srv) && Triggers(q) && a != b
    ensures Reaches(srv, init, steps, w)
    ensures b in w.clients && w.clients[b].sent == [q] && w.clients[b].replies == [RFQ]
    ensures PoolSafety.HeldBy(w, b, 0) && 0 in w.conns && w.conns[0].toBackend == [q]
  {
    var s0, w0, cl := PipeliningPoolsADebt(srv, init, a, q);
    var s1, cl1 := Arrive(srv, init, s0, w0, b, [], q);
    var base := w0.(clients := w0.clients[b := cl1]);
    var s2, cl2, conn2 := Begin(srv, init, s1, base, b, cl1, 0);
    var s3, base3, cl3, conn3 := Answer(srv, init, s2, base, b, cl2, 0, conn2);
    steps, w := s3, With(base3, b, cl3, 0, conn3);
  }

  /** One client's transaction, from arrival to check-in. */
  lemma OneTransaction(srv: Server, init: World, a: ClientId, q: Message, startup: seq<byte>)
    returns (steps: seq<Step>, w: World, cl: Client, conn: Conn)
    requires Usual(init) && Answers(srv) && Triggers(q)
    ensures Reaches(srv, init, steps, w)
    ensures w == init.(clients := map[a := cl], conns := map[0 := conn], idle := {0}, dbs := w.dbs)
    ensures w.dbs.Keys == init.dbs.Keys
    ensures cl.pc == Release(true) && cl.slot == Some(0)
    ensures conn.key == Key("u", "d", "s") && conn.startup == startup
  {
    var s1, base, cl1, conn1 := FirstRequest(srv, init, a, q, startup);
    var s2, base2, cl2, conn2 := Answer(srv, init, s1, base, a, cl1, 0, conn1);
    steps, w := Recycle(srv, init, s2, base2, a, cl2, 0, conn2);
    cl, conn := w.clients[a], w.conns[0];
  }

  /** Two clients in a row on one connection, the second before the first has cleared its slot. */
  lemma TwoInARow(srv: Server, init: World, a: ClientId, b: ClientId, q: Message, mine: seq<byte>, other: seq<byte>)
    returns (steps: seq<Step>, w: World)
    requires Usual(init) && Answers(srv) && Triggers(q) && a != b
    ensures Reaches(srv, init, steps, w)
    ensures a in w.clients && b in w.clients && w.clients[a].slot == w.clients[b].slot == Some(0)
    ensures PoolSafety.HeldBy(w, b, 0) && PoolSafety.InWindow(w.clients[a].pc)
    ensures 0 in w.conns && w.clients[b].startup == mine && w.conns[0].startup == other
  {
    var s3, w3, cl3, conn3 := OneTransaction(srv, init, a, q, other);
    var s4, cl4 := Arrive(srv, init, s3, w3, b, mine, q);
    var base4 := w3.(clients := w3.clients[b := cl4]);
    var s5, cl5, conn5 := Begin(srv, init, s4, base4, b, cl4, 0);
    steps, w := s5, With(base4, b, cl5, 0, conn5);
  }

  /** Inside the release window, the exception of `PoolSafety.SlotsNameHeldBackends`, the cancel slots of two clients
      can name one backend, even if all clients use one startup frame. */
  lemma SlotsOverlapInTheWindow(srv: Server, init: World, a: ClientId, b: ClientId, q: Message, startup: seq<byte>)
    returns (steps: seq<Step>, w: World)
    requires Usual(init) && Answers(srv) && Triggers(q) && a != b
    ensures Reaches(srv, init, steps, w)
    ensures a in w.clients && b in w.clients && w.clients[a].slot == w.clients[b].slot == Some(0)
    ensures PoolSafety.HeldBy(w, b, 0) && PoolSafety.InWindow(w.clients[a].pc)
  {
    steps, w := TwoInARow(srv, init, a, b, q, startup, startup);
  }

  /** The pool's key leaves the startup frame out: for any two frames, a client that brought the one can be served by a
      backend that was started with the other. */
  lemma StartupFramesCanMix(srv: Server, init: World, a: ClientId, b: ClientId, q: Message, mine: seq<byte>, other: seq<byte>)
    returns (steps: seq<Step>, w: World)
    requires Usual(init) && Answers(srv) && Triggers(q) && a != b
    ensures Reaches(srv, init, steps, w)
    ensures PoolSafety.HeldBy(w, b, 0) && 0 in w.conns && w.clients[b].startup == mine && w.conns[0].startup == other
  {
    steps, w := TwoInARow(srv, init, a, b, q, mine, other);
  }
}
