/** What every run of the pool keeps, whatever the clients, the backends and the failures do:
    connection ownership, the state a connection is pooled in, reply debts, and cancel slots. */
module PoolSafety {
  import opened Bytes
  import opened Session
  import opened PoolWorld
  import Codec
  import Routing

  // ---------------------------------------------------------------------------------------------
  // Reading a connection's log

  function LastWrite(log: seq<Entry>): Option<Entry> {
    if log == [] then None
    else if log[|log| - 1].Wrote? then Some(log[|log| - 1])
    else LastWrite(log[..|log| - 1])
  }

  function LastRfq(log: seq<Entry>): (r: Option<Entry>)
    ensures r.Some? ==> r.value.Took? && IsRfq(r.value.m)
  {
    if log == [] then None
    else if log[|log| - 1].Took? && IsRfq(log[|log| - 1].m) then Some(log[|log| - 1])
    else LastRfq(log[..|log| - 1])
  }

  /** Requests written minus ReadyForQuerys read, for one entry. */
  function Weight(e: Entry): int {
    if e.Wrote? then (if Triggers(e.f) then 1 else 0) else (if IsRfq(e.m) then -1 else 0)
  }

  /** The reply debt of a connection. */
  function Owed(log: seq<Entry>): int {
    if log == [] then 0 else Owed(log[..|log| - 1]) + Weight(log[|log| - 1])
  }

  /** The part of it that clients ran up: requests they pipelined past the replies relayed to them. */
  function ClientSurplus(log: seq<Entry>): int {
    if log == [] then 0
    else ClientSurplus(log[..|log| - 1]) + if log[|log| - 1].who.Some? then Weight(log[|log| - 1]) else 0
  }

  lemma LogSnoc(log: seq<Entry>, e: Entry)
    ensures LastWrite(log + [e]) == if e.Wrote? then Some(e) else LastWrite(log)
    ensures LastRfq(log + [e]) == if e.Took? && IsRfq(e.m) then Some(e) else LastRfq(log)
    ensures Owed(log + [e]) == Owed(log) + Weight(e)
    ensures ClientSurplus(log + [e]) == ClientSurplus(log) + if e.who.Some? then Weight(e) else 0
  {
    assert (log + [e])[..|log|] == log;
  }

  // ---------------------------------------------------------------------------------------------
  // The state of one session and its connection

  /** Safe to pool: it carried nothing, or the reset was its last write and an explicit idle status, read by
      the reset, its last ReadyForQuery; and whatever it still owes is what clients pipelined. */
  predicate Poolable(cfg: Config, log: seq<Entry>) {
    && Owed(log) == ClientSurplus(log)
    && (log == []
        || if cfg.reset.Some? then
             && LastWrite(log) == Some(Wrote(None, cfg.reset.value))
             && LastRfq(log).Some? && LastRfq(log).value.who.None? && ExplicitIdle(LastRfq(log).value.m)
           else LastRfq(log).Some? && RelayStatus(LastRfq(log).value.m) == IDLE)
  }

  predicate LogOk(cfg: Config, pc: Pc, log: seq<Entry>) {
    match pc
    case Probe(_) => Poolable(cfg, log)
    case Held(_, _) => Poolable(cfg, log)
    case SHeld(_) => Poolable(cfg, log)
    case Clean(_) => Poolable(cfg, log)
    case Drain(_) =>
      cfg.reset.Some? && LastWrite(log) == Some(Wrote(None, cfg.reset.value)) && Owed(log) == ClientSurplus(log) + 1
    case Deliver(_, m) => Owed(log) == ClientSurplus(log) && (IsRfq(m) ==> LastRfq(log).Some? && LastRfq(log).value.m == m)
    case Discarding(_, _) => true
    case _ => Owed(log) == ClientSurplus(log)
  }

  /** The slot names the backend held, or nothing, except in the two windows after the lease is gone. */
  predicate SlotOk(pc: Pc, slot: Option<ConnId>) {
    && (slot.Some? ==> Holds(pc) == slot || pc.Release? || pc.Dropping?)
    && (pc.Held? || pc.SHeld? || pc.SCleared? || pc.Probe? ==> slot.None?)
  }

  predicate SessionOk(cfg: Config, cl: Client) {
    && Run(cfg, Start, cl.history) == Some(cl.pc)
    && SlotOk(cl.pc, cl.slot)
    && cl.read <= |cl.sent|
  }

  lemma ActKeepsSession(cfg: Config, cl: Client, ev: Event)
    requires SessionOk(cfg, cl) && Next(cfg, cl.pc, ev).Some?
    requires ev.ReadClient? || ev.PassUp? ==> cl.read < |cl.sent|
    ensures SessionOk(cfg, ClientAfter(cl, Next(cfg, cl.pc, ev).value, ev))
  {
    RunSnoc(cfg, Start, cl.history, ev);
  }

  lemma LoggedKeeps(log: seq<Entry>, c: ClientId, ev: Event)
    ensures Logged(c, ev) == [] ==> log + Logged(c, ev) == log
    ensures Logged(c, ev) != [] ==>
              var e := Logged(c, ev)[0]; var log' := log + Logged(c, ev);
              && LastWrite(log') == (if e.Wrote? then Some(e) else LastWrite(log))
              && LastRfq(log') == (if e.Took? && IsRfq(e.m) then Some(e) else LastRfq(log))
              && Owed(log') == Owed(log) + Weight(e)
              && ClientSurplus(log') == ClientSurplus(log) + if e.who.Some? then Weight(e) else 0
  {
    if Logged(c, ev) != [] {
      LogSnoc(log, Logged(c, ev)[0]);
      assert Logged(c, ev) == [Logged(c, ev)[0]];
    }
  }

  /** One session action keeps the connection's log in order, and what it checks in is poolable. */
  lemma ActKeepsLog(cfg: Config, c: ClientId, pc: Pc, log: seq<Entry>, ev: Event)
    requires ValidConfig(cfg) && Next(cfg, pc, ev).Some? && !ev.Lease? && Holds(pc).Some?
    requires LogOk(cfg, pc, log)
    ensures var pc' := Next(cfg, pc, ev).value; var log' := log + Logged(c, ev);
      if ev.Checkin? then Poolable(cfg, log') && Holds(pc').None?
      else if ev.Discard? || ev.Abort? then Holds(pc').None?
      else Holds(pc') == Holds(pc) && LogOk(cfg, pc', log')
  {
    LoggedKeeps(log, c, ev);
    if Logged(c, ev) == [] {
      SilentKeepsLog(cfg, pc, log, ev);
    }
  }

  /** An action that puts nothing on the wire and takes nothing off it. */
  lemma SilentKeepsLog(cfg: Config, pc: Pc, log: seq<Entry>, ev: Event)
    requires ValidConfig(cfg) && Next(cfg, pc, ev).Some? && !ev.Lease? && Holds(pc).Some? && Logged(0, ev) == []
    requires LogOk(cfg, pc, log)
    ensures var pc' := Next(cfg, pc, ev).value;
      if ev.Checkin? then Poolable(cfg, log) && Holds(pc').None?
      else if ev.Discard? || ev.Abort? then Holds(pc').None?
      else Holds(pc') == Holds(pc) && LogOk(cfg, pc', log)
  {
  }

  // ---------------------------------------------------------------------------------------------
  // The invariant

  predicate HeldBy(w: World, c: ClientId, k: ConnId) {
    c in w.clients && Holds(w.clients[c].pc) == Some(k)
  }

  /** Every established connection is in exactly one place: idle, closed, or held by exactly one session. */
  ghost predicate Places(w: World) {
    && w.idle !! w.closed && w.idle <= w.conns.Keys && w.closed <= w.conns.Keys
    && (forall c, k :: HeldBy(w, c, k) ==> k in w.conns && k !in w.idle && k !in w.closed)
    && (forall c1, c2, k :: HeldBy(w, c1, k) && HeldBy(w, c2, k) ==> c1 == c2)
    && (forall k :: k in w.conns ==> k in w.idle || k in w.closed || exists c :: HeldBy(w, c, k))
  }

  /** Sessions, the connections they hold, and the connections nobody holds. */
  ghost predicate Contents(w: World) {
    && (forall c :: c in w.clients ==> SessionOk(w.cfg, w.clients[c]))
    && (forall c, k :: HeldBy(w, c, k) && k in w.conns ==>
          LogOk(w.cfg, w.clients[c].pc, w.conns[k].log) && KeyMatches(w.clients[c], w.conns[k]))
    && (forall k :: k in w.idle && k in w.conns ==> Poolable(w.cfg, w.conns[k].log))
  }

  predicate KeyMatches(cl: Client, conn: Conn) {
    conn.key.user == cl.user && conn.key.database == cl.database
  }

  predicate WithinCapacity(w: World) {
    w.capacity.Some? ==> |Open(w)| <= w.capacity.value
  }

  ghost predicate PoolInv(w: World) {
    ValidConfig(w.cfg) && Places(w) && Contents(w) && WithinCapacity(w)
  }

  // ---------------------------------------------------------------------------------------------
  // Preservation, step by step

  lemma LeaseNext(cfg: Config, pc: Pc, k: ConnId)
    requires Next(cfg, pc, Lease(k)).Some?
    ensures Holds(pc).None? && Holds(Next(cfg, pc, Lease(k)).value) == Some(k)
    ensures var pc' := Next(cfg, pc, Lease(k)).value; pc'.Probe? || pc'.Held? || pc'.SHeld?
  {
  }

  lemma ActNext(cfg: Config, pc: Pc, ev: Event)
    requires Next(cfg, pc, ev).Some? && !ev.Lease?
    ensures var pc' := Next(cfg, pc, ev).value;
      if ev.Checkin? || ev.Discard? || ev.Abort? then Holds(pc').None? else Holds(pc') == Holds(pc)
    ensures ev.Checkin? || ev.Discard? ==> Holds(pc).Some?
  {
  }

  /** Ownership moves between a session and the pool: `c` gives up what it holds, if anything, for `now`. */
  lemma MovePlaces(w: World, w': World, c: ClientId, was: Option<ConnId>, now: Option<ConnId>)
    requires Places(w) && c in w.clients && Holds(w.clients[c].pc) == was
    requires forall d, k :: d != c ==> (HeldBy(w', d, k) <==> HeldBy(w, d, k))
    requires c in w'.clients && Holds(w'.clients[c].pc) == now
    requires now == was || now.None? || was.None?
    requires w'.conns.Keys == w.conns.Keys + (if now.Some? then {now.value} else {})
    requires now.Some? && now != was ==> now.value in w.idle || now.value !in w.conns
    requires now == was ==> w'.idle == w.idle && w'.closed == w.closed
    requires now.Some? && now != was ==> w'.idle == w.idle - {now.value} && w'.closed == w.closed
    requires was.Some? && now != was ==>
               || (w'.idle == w.idle + {was.value} && w'.closed == w.closed)
               || (w'.idle == w.idle && w'.closed == w.closed + {was.value})
    ensures Places(w')
  {
    assert was.Some? ==> HeldBy(w, c, was.value);
    assert now.Some? ==> HeldBy(w', c, now.value);
    forall j | j in w'.conns
      ensures j in w'.idle || j in w'.closed || exists d :: HeldBy(w', d, j)
    {
      if j in w.conns && j !in w.idle && j !in w.closed && now != Some(j) {
        var d :| HeldBy(w, d, j);
        assert d != c ==> HeldBy(w', d, j);
      }
    }
  }

  lemma LeaseKeepsPlaces(srv: Server, w: World, step: Step)
    requires (step.Dial? || step.Reuse?) && Enabled(w, step) && PoolInv(w)
    ensures Places(Apply(srv, w, step))
  {
    LeaseNext(w.cfg, w.clients[step.c].pc, step.k);
    MovePlaces(w, Apply(srv, w, step), step.c, None, Some(step.k));
  }

  predicate SameLog(a: Conn, b: Conn) {
    a.key == b.key && a.log == b.log
  }

  /** Only `c`, the connection it holds, and what it checks in need looking at. */
  lemma MoveContents(w: World, w': World, c: ClientId)
    requires Places(w) && Contents(w) && w'.cfg == w.cfg
    requires c in w'.clients && w'.clients.Keys == w.clients.Keys + {c}
    requires forall d :: d in w.clients && d != c ==> w'.clients[d] == w.clients[d]
    requires forall k :: k in w.conns && !HeldBy(w, c, k) ==> k in w'.conns && SameLog(w'.conns[k], w.conns[k])
    requires SessionOk(w.cfg, w'.clients[c])
    requires forall k :: k in w'.conns && HeldBy(w', c, k) ==>
               LogOk(w.cfg, w'.clients[c].pc, w'.conns[k].log) && KeyMatches(w'.clients[c], w'.conns[k])
    requires forall k :: k in w'.idle && k in w'.conns && k !in w.idle ==> Poolable(w.cfg, w'.conns[k].log)
    ensures Contents(w')
  {
    forall d, k | HeldBy(w', d, k) && k in w'.conns
      ensures LogOk(w.cfg, w'.clients[d].pc, w'.conns[k].log) && KeyMatches(w'.clients[d], w'.conns[k])
    {
      if d != c {
        assert HeldBy(w, d, k) && !HeldBy(w, c, k);
      }
    }
    forall k | k in w'.idle && k in w'.conns
      ensures Poolable(w.cfg, w'.conns[k].log)
    {
      if k in w.idle {
        assert !HeldBy(w, c, k);
      }
    }
  }

  lemma LeaseKeepsContents(srv: Server, w: World, step: Step)
    requires (step.Dial? || step.Reuse?) && Enabled(w, step) && PoolInv(w)
    ensures Contents(Apply(srv, w, step))
  {
    var w', pc := Apply(srv, w, step), Next(w.cfg, w.clients[step.c].pc, Lease(step.k)).value;
    LeaseNext(w.cfg, w.clients[step.c].pc, step.k);
    ActKeepsSession(w.cfg, w.clients[step.c], Lease(step.k));
    assert Poolable(w.cfg, w'.conns[step.k].log);
    assert LogOk(w.cfg, pc, w'.conns[step.k].log);
    MoveContents(w, w', step.c);
  }

  /** The holder of `k` moves on: it keeps the connection, or the connection is pooled or closed. */
  lemma HolderKeepsPlaces(w: World, w': World, c: ClientId, cl: Client, k: ConnId, conn: Conn, ev: Event)
    requires Places(w) && HeldBy(w, c, k) && HolderMove(w, w', c, cl, k, conn, ev)
    requires if ev.Checkin? || ev.Discard? || ev.Abort? then Holds(cl.pc).None? else Holds(cl.pc) == Some(k)
    ensures Places(w')
  {
    assert w.conns.Keys + {k} == w.conns.Keys;
    MovePlaces(w, w', c, Some(k), Holds(cl.pc));
  }

  lemma FreeKeepsPlaces(w: World, w': World, c: ClientId, cl: Client)
    requires Places(w) && c in w.clients && Holds(w.clients[c].pc).None? && Holds(cl.pc).None? && FreeMove(w, w', c, cl)
    ensures Places(w')
  {
    MovePlaces(w, w', c, None, None);
  }

  lemma ActKeepsPlaces(w: World, c: ClientId, ev: Event)
    requires CanAct(w, c, ev) && PoolInv(w)
    ensures Places(DoAct(w, c, ev))
  {
    var w', was := DoAct(w, c, ev), Holds(w.clients[c].pc);
    ActNext(w.cfg, w.clients[c].pc, ev);
    DoActIs(w, c, ev);
    if was.None? {
      FreeKeepsPlaces(w, w', c, w'.clients[c]);
    } else {
      HolderKeepsPlaces(w, w', c, w'.clients[c], was.value, w'.conns[was.value], ev);
    }
  }

  lemma HolderKeepsContents(w: World, w': World, c: ClientId, cl: Client, k: ConnId, conn: Conn, ev: Event)
    requires PoolInv(w) && HeldBy(w, c, k) && HolderMove(w, w', c, cl, k, conn, ev)
    requires SessionOk(w.cfg, cl) && KeyMatches(cl, conn)
    requires if ev.Checkin? then Poolable(w.cfg, conn.log) && Holds(cl.pc).None?
             else Holds(cl.pc).None? || (Holds(cl.pc) == Some(k) && LogOk(w.cfg, cl.pc, conn.log))
    ensures Contents(w')
  {
    MoveContents(w, w', c);
  }

  lemma ActKeepsContents(w: World, c: ClientId, ev: Event)
    requires CanAct(w, c, ev) && PoolInv(w)
    ensures Contents(DoAct(w, c, ev))
  {
    var cl, w' := w.clients[c], DoAct(w, c, ev);
    ActNext(w.cfg, cl.pc, ev);
    ActKeepsSession(w.cfg, cl, ev);
    DoActIs(w, c, ev);
    if Holds(cl.pc).None? {
      FreeKeepsContents(w, w', c, w'.clients[c]);
    } else {
      var k := Holds(cl.pc).value;
      assert HeldBy(w, c, k);
      ActKeepsLog(w.cfg, c, cl.pc, w.conns[k].log, ev);
      HolderKeepsContents(w, w', c, w'.clients[c], k, w'.conns[k], ev);
    }
  }

  lemma FreeKeepsContents(w: World, w': World, c: ClientId, cl: Client)
    requires PoolInv(w) && c in w.clients && Holds(w.clients[c].pc).None? && Holds(cl.pc).None? && FreeMove(w, w', c, cl)
    requires SessionOk(w.cfg, cl)
    ensures Contents(w')
  {
    MoveContents(w, w', c);
  }

  /** Joining and sending touch no connection. */
  lemma ClientStepKeeps(srv: Server, w: World, step: Step)
    requires step.Join? || step.SendUp?
    requires Enabled(w, step) && PoolInv(w)
    ensures Places(Apply(srv, w, step)) && Contents(Apply(srv, w, step))
  {
    var w' := Apply(srv, w, step);
    assert forall c, k :: HeldBy(w', c, k) <==> HeldBy(w, c, k);
    MoveContents(w, w', step.c);
  }

  /** Serving, spontaneous messages and eviction touch no session and no log. */
  lemma ConnStepKeeps(srv: Server, w: World, step: Step)
    requires step.Serve? || step.Emit? || step.Evict?
    requires Enabled(w, step) && PoolInv(w)
    ensures Places(Apply(srv, w, step)) && Contents(Apply(srv, w, step))
  {
    ConnStepIs(srv, w, step);
    SessionsStand(w, Apply(srv, w, step));
  }

  /** Sessions and logs are as they were; connections may have left the pool to be closed. */
  ghost predicate OnlyConns(w: World, w': World) {
    && w'.cfg == w.cfg && w'.clients == w.clients && w'.conns.Keys == w.conns.Keys
    && (forall k :: k in w.conns ==> SameLog(w'.conns[k], w.conns[k]))
    && w'.idle <= w.idle && w'.closed == w.closed + (w.idle - w'.idle)
  }

  lemma ConnStepIs(srv: Server, w: World, step: Step)
    requires (step.Serve? || step.Emit? || step.Evict?) && Enabled(w, step)
    ensures OnlyConns(w, Apply(srv, w, step))
  {
  }

  lemma SessionsStand(w: World, w': World)
    requires Places(w) && Contents(w) && OnlyConns(w, w')
    ensures Places(w') && Contents(w')
  {
    assert forall c, k :: HeldBy(w', c, k) <==> HeldBy(w, c, k);
  }

  /** Only dialling opens a connection. */
  lemma OpenAfter(srv: Server, w: World, step: Step)
    requires Enabled(w, step) && Places(w)
    ensures step.Dial? ==> Open(Apply(srv, w, step)) == Open(w) + {step.k}
    ensures !step.Dial? ==> Open(Apply(srv, w, step)) <= Open(w)
  {
    if step.Act? {
      ActKeepsKeys(w, step.c, step.ev);
    }
  }

  lemma ActKeepsKeys(w: World, c: ClientId, ev: Event)
    requires CanAct(w, c, ev)
    ensures DoAct(w, c, ev).conns.Keys == w.conns.Keys && w.closed <= DoAct(w, c, ev).closed
  {
  }

  lemma CapacityKept(srv: Server, w: World, step: Step)
    requires Enabled(w, step) && PoolInv(w)
    ensures WithinCapacity(Apply(srv, w, step))
  {
    OpenAfter(srv, w, step);
    if !step.Dial? {
      Smaller(Open(Apply(srv, w, step)), Open(w));
    }
  }

  lemma {:induction false} Smaller<T>(a: set<T>, b: set<T>)
    requires a <= b
    ensures |a| <= |b|
  {
    if a != {} {
      var x :| x in a;
      Smaller(a - {x}, b - {x});
    }
  }

  lemma StepKeepsInv(srv: Server, w: World, step: Step)
    requires Enabled(w, step) && PoolInv(w)
    ensures PoolInv(Apply(srv, w, step))
  {
    CapacityKept(srv, w, step);
    if step.Dial? || step.Reuse? {
      LeaseKeepsPlaces(srv, w, step);
      LeaseKeepsContents(srv, w, step);
    } else if step.Act? {
      ActKeepsPlaces(w, step.c, step.ev);
      ActKeepsContents(w, step.c, step.ev);
    } else if step.Join? || step.SendUp? {
      ClientStepKeeps(srv, w, step);
    } else {
      ConnStepKeeps(srv, w, step);
    }
  }

  lemma {:induction false} RunKeepsInv(srv: Server, init: World, steps: seq<Step>)
    requires Initial(init) && Exec(srv, init, steps).Some?
    ensures PoolInv(Exec(srv, init, steps).value) && Exec(srv, init, steps).value.cfg == init.cfg
    decreases |steps|
  {
    if steps == [] {
      assert Open(init) == {};
    } else {
      RunKeepsInv(srv, init, steps[..|steps| - 1]);
      StepKeepsInv(srv, Exec(srv, init, steps[..|steps| - 1]).value, steps[|steps| - 1]);
    }
  }

  // ---------------------------------------------------------------------------------------------
  // Main results, over every run

  predicate CarriedNothing(conn: Conn) {
    conn.log == []
  }

  /** The reset frame was the last thing written, and the last ReadyForQuery, read by the reset, said idle. */
  predicate WasReset(cfg: Config, conn: Conn) {
    && cfg.reset.Some? && LastWrite(conn.log) == Some(Wrote(None, cfg.reset.value))
    && LastRfq(conn.log).Some? && LastRfq(conn.log).value.who.None? && ExplicitIdle(LastRfq(conn.log).value.m)
  }

  /** Pool safety. At every point of every run: a connection is idle, closed, or held by one session, never two
      of these; no more than `capacity` are open; and a pool that resets has only connections in `idle`
      that carried no client frame or were reset to an explicit idle status. */
  lemma PoolSafety(srv: Server, init: World, steps: seq<Step>)
    requires Initial(init) && Exec(srv, init, steps).Some?
    ensures var w := Exec(srv, init, steps).value;
      forall k :: k in w.conns ==>
        && !(k in w.idle && k in w.closed)
        && (k in w.idle || k in w.closed <==> forall c :: !HeldBy(w, c, k))
        && (forall c, d :: HeldBy(w, c, k) && HeldBy(w, d, k) ==> c == d)
    ensures var w := Exec(srv, init, steps).value; w.capacity.Some? ==> |w.conns.Keys - w.closed| <= w.capacity.value
    ensures var w := Exec(srv, init, steps).value;
      forall k :: k in w.idle && w.cfg.reset.Some? ==>
        k in w.conns && (CarriedNothing(w.conns[k]) || WasReset(w.cfg, w.conns[k]))
  {
    RunKeepsInv(srv, init, steps);
    var w := Exec(srv, init, steps).value;
    assert forall k :: k in w.idle ==> k in w.conns && Poolable(w.cfg, w.conns[k].log);
  }

  /** A closed connection is closed for good, keys never change, and only `checkin` makes a connection idle. */
  lemma StepsOfAConnection(srv: Server, w: World, step: Step)
    requires Enabled(w, step) && PoolInv(w)
    ensures w.closed <= Apply(srv, w, step).closed
    ensures Origins(w.conns, Apply(srv, w, step).conns)
    ensures forall k :: k in Apply(srv, w, step).idle && k !in w.idle ==> step.Act? && step.ev == Checkin(k)
  {
    if step.Act? {
      ActKeepsOrigins(w, step.c, step.ev);
      OnlyCheckinPools(w, step.c, step.ev);
    } else {
      OtherSteps(srv, w, step);
    }
  }

  ghost predicate Origins(was: map<ConnId, Conn>, now: map<ConnId, Conn>) {
    forall k :: k in was ==> SameOrigin(was, now, k)
  }

  /** The connection is still there, under the key and the startup frame it was established with. */
  ghost predicate SameOrigin(was: map<ConnId, Conn>, now: map<ConnId, Conn>, k: ConnId)
    requires k in was
  {
    k in now && now[k].key == was[k].key && now[k].startup == was[k].startup
  }

  lemma ActKeepsOrigins(w: World, c: ClientId, ev: Event)
    requires CanAct(w, c, ev)
    ensures w.closed <= DoAct(w, c, ev).closed && Origins(w.conns, DoAct(w, c, ev).conns)
  {
  }

  lemma OnlyCheckinPools(w: World, c: ClientId, ev: Event)
    requires CanAct(w, c, ev)
    ensures forall k :: k in DoAct(w, c, ev).idle && k !in w.idle ==> ev == Checkin(k)
  {
    if ev.Checkin? {
      CheckinIsOfHeld(w.cfg, w.clients[c].pc, ev);
    }
  }

  lemma CheckinIsOfHeld(cfg: Config, pc: Pc, ev: Event)
    requires Next(cfg, pc, ev).Some? && ev.Checkin?
    ensures Holds(pc) == Some(ev.k)
  {
  }

  lemma OtherSteps(srv: Server, w: World, step: Step)
    requires Enabled(w, step) && !step.Act?
    ensures w.closed <= Apply(srv, w, step).closed && Origins(w.conns, Apply(srv, w, step).conns)
    ensures Apply(srv, w, step).idle <= w.idle
  {
  }

  lemma {:induction false} OriginsStay(srv: Server, init: World, steps: seq<Step>, more: seq<Step>, k: ConnId)
    requires Initial(init) && Exec(srv, init, steps).Some? && Exec(srv, init, steps + more).Some?
    requires k in Exec(srv, init, steps).value.conns
    ensures SameOrigin(Exec(srv, init, steps).value.conns, Exec(srv, init, steps + more).value.conns, k)
    decreases |more|
  {
    if more == [] {
      assert steps + more == steps;
    } else {
      var all, before := steps + more, steps + more[..|more| - 1];
      assert all[..|all| - 1] == before;
      OriginsStay(srv, init, steps, more[..|more| - 1], k);
      RunKeepsInv(srv, init, before);
      StepsOfAConnection(srv, Exec(srv, init, before).value, all[|all| - 1]);
    }
  }

  /** A lease hands out a connection that was established for the very key it is leased for, replica included, and
      that key stays the connection's own for the rest of the run. */
  lemma LeaseMatchesKey(srv: Server, init: World, steps: seq<Step>, lease: Step, more: seq<Step>)
    requires Initial(init) && (lease.Dial? || lease.Reuse?)
    requires Exec(srv, init, steps).Some? && Exec(srv, init, steps + [lease]).Some?
    requires Exec(srv, init, steps + [lease] + more).Some?
    ensures var w, w' := Exec(srv, init, steps).value, Exec(srv, init, steps + [lease] + more).value;
      && lease.c in w.clients && lease.k in w'.conns
      && w'.conns[lease.k].key == Key(w.clients[lease.c].user, w.clients[lease.c].database, lease.shard)
  {
    assert (steps + [lease])[..|steps|] == steps;
    OriginsStay(srv, init, steps + [lease], more, lease.k);
  }

  /** And whoever holds a connection is of its user and database. */
  lemma HolderMatchesKey(srv: Server, init: World, steps: seq<Step>, c: ClientId, k: ConnId)
    requires Initial(init) && Exec(srv, init, steps).Some?
    requires HeldBy(Exec(srv, init, steps).value, c, k)
    ensures var w := Exec(srv, init, steps).value;
      k in w.conns && w.conns[k].key.user == w.clients[c].user && w.conns[k].key.database == w.clients[c].database
  {
    RunKeepsInv(srv, init, steps);
  }

  // ---------------------------------------------------------------------------------------------
  // Startup frames, which the key leaves out

  /** Clients of one user and database come with one startup frame. */
  predicate OneFramePerRole(steps: seq<Step>, startups: (string, string) -> seq<byte>) {
    forall i :: 0 <= i < |steps| && steps[i].Join? ==> steps[i].startup == startups(steps[i].user, steps[i].database)
  }

  ghost predicate StartupsOk(w: World, startups: (string, string) -> seq<byte>) {
    && (forall c :: c in w.clients ==> w.clients[c].startup == startups(w.clients[c].user, w.clients[c].database))
    && (forall k :: k in w.conns ==> w.conns[k].startup == startups(w.conns[k].key.user, w.conns[k].key.database))
  }

  /** Clients keep who they are, and who is new joined with this step. */
  ghost predicate Identities(was: map<ClientId, Client>, now: map<ClientId, Client>, step: Step) {
    forall c :: c in now ==>
      if c in was then
        now[c].user == was[c].user && now[c].database == was[c].database && now[c].startup == was[c].startup
      else step.Join? && now[c].user == step.user && now[c].database == step.database && now[c].startup == step.startup
  }

  lemma StepKeepsIdentities(srv: Server, w: World, step: Step)
    requires Enabled(w, step)
    ensures Identities(w.clients, Apply(srv, w, step).clients, step)
  {
  }

  /** A new connection was dialled with this step, with its client's startup frame and key. */
  ghost predicate Dialled(w: World, now: map<ConnId, Conn>, step: Step) {
    forall k :: k in now && k !in w.conns ==>
      && step.Dial? && step.c in w.clients && now[k].startup == w.clients[step.c].startup
      && now[k].key.user == w.clients[step.c].user && now[k].key.database == w.clients[step.c].database
  }

  lemma StepDials(srv: Server, w: World, step: Step)
    requires Enabled(w, step)
    ensures Dialled(w, Apply(srv, w, step).conns, step)
  {
  }

  lemma MoveStartups(w: World, w': World, step: Step, startups: (string, string) -> seq<byte>)
    requires StartupsOk(w, startups) && (step.Join? ==> step.startup == startups(step.user, step.database))
    requires Origins(w.conns, w'.conns) && Identities(w.clients, w'.clients, step) && Dialled(w, w'.conns, step)
    ensures StartupsOk(w', startups)
  {
    forall k | k in w'.conns
      ensures w'.conns[k].startup == startups(w'.conns[k].key.user, w'.conns[k].key.database)
    {
      assert k in w.conns ==> SameOrigin(w.conns, w'.conns, k);
    }
  }

  lemma StepKeepsStartups(srv: Server, w: World, step: Step, startups: (string, string) -> seq<byte>)
    requires Enabled(w, step) && PoolInv(w) && StartupsOk(w, startups)
    requires step.Join? ==> step.startup == startups(step.user, step.database)
    ensures StartupsOk(Apply(srv, w, step), startups)
  {
    StepsOfAConnection(srv, w, step);
    StepKeepsIdentities(srv, w, step);
    StepDials(srv, w, step);
    MoveStartups(w, Apply(srv, w, step), step, startups);
  }

  lemma {:induction false} RunKeepsStartups(srv: Server, init: World, steps: seq<Step>, startups: (string, string) -> seq<byte>)
    requires Initial(init) && Exec(srv, init, steps).Some? && OneFramePerRole(steps, startups)
    ensures StartupsOk(Exec(srv, init, steps).value, startups)
    decreases |steps|
  {
    if steps != [] {
      var before := steps[..|steps| - 1];
      RunKeepsStartups(srv, init, before, startups);
      RunKeepsInv(srv, init, before);
      StepKeepsStartups(srv, Exec(srv, init, before).value, steps[|steps| - 1], startups);
    }
  }

  /** If clients of one user and database all come with one startup frame, then whatever else clients, backends and
      failures do, every client is served by a backend that was started with the client's own frame. (With two
      different frames it need not be: `PoolExamples.StartupFramesCanMix`.) */
  lemma BackendsHaveOwnStartup(srv: Server, init: World, steps: seq<Step>, startups: (string, string) -> seq<byte>,
                               c: ClientId, k: ConnId)
    requires Initial(init) && Exec(srv, init, steps).Some? && OneFramePerRole(steps, startups)
    requires HeldBy(Exec(srv, init, steps).value, c, k)
    ensures var w := Exec(srv, init, steps).value; k in w.conns && w.conns[k].startup == w.clients[c].startup
  {
    RunKeepsStartups(srv, init, steps, startups);
    HolderMatchesKey(srv, init, steps, c, k);
  }

  lemma {:induction false} ClosedStaysClosed(srv: Server, init: World, steps: seq<Step>, more: seq<Step>)
    requires Initial(init) && Exec(srv, init, steps).Some? && Exec(srv, init, steps + more).Some?
    ensures Exec(srv, init, steps).value.closed <= Exec(srv, init, steps + more).value.closed
    decreases |more|
  {
    if more == [] {
      assert steps + more == steps;
    } else {
      var all, before := steps + more, steps + more[..|more| - 1];
      assert all[..|all| - 1] == before;
      ClosedStaysClosed(srv, init, steps, more[..|more| - 1]);
      RunKeepsInv(srv, init, before);
      StepsOfAConnection(srv, Exec(srv, init, before).value, all[|all| - 1]);
    }
  }

  /** Reply debts, with no assumption on clients or backends. A pooled connection owes exactly what its clients
      pipelined past the replies relayed to them; the reset contributes nothing, since a connection owes
      the same before the reset is written and after it succeeds, and one more in between. */
  lemma ReplyDebt(srv: Server, init: World, steps: seq<Step>)
    requires Initial(init) && Exec(srv, init, steps).Some?
    ensures var w := Exec(srv, init, steps).value;
      && (forall k :: k in w.idle ==> k in w.conns && Owed(w.conns[k].log) == ClientSurplus(w.conns[k].log))
      && (forall c, k :: HeldBy(w, c, k) && !w.clients[c].pc.Discarding? ==>
            k in w.conns &&
            Owed(w.conns[k].log) == ClientSurplus(w.conns[k].log) + if w.clients[c].pc.Drain? then 1 else 0)
  {
    RunKeepsInv(srv, init, steps);
  }

  predicate InWindow(pc: Pc) {
    pc.Release? || pc.Dropping?
  }

  /** Cancel slots. Outside the windows after its lease is gone, a client's slot names the backend it holds or
      nothing, so no two clients' slots name the same backend; a session that is over has none. */
  lemma SlotsNameHeldBackends(srv: Server, init: World, steps: seq<Step>)
    requires Initial(init) && Exec(srv, init, steps).Some?
    ensures var w := Exec(srv, init, steps).value;
      && (forall c :: c in w.clients && w.clients[c].slot.Some? && !InWindow(w.clients[c].pc) ==>
            HeldBy(w, c, w.clients[c].slot.value))
      && (forall c, d :: c in w.clients && d in w.clients && c != d && w.clients[c].slot.Some?
                         && !InWindow(w.clients[c].pc) && !InWindow(w.clients[d].pc) ==>
            w.clients[c].slot != w.clients[d].slot)
  {
    RunKeepsInv(srv, init, steps);
    var w := Exec(srv, init, steps).value;
    assert forall c :: c in w.clients ==> SlotOk(w.clients[c].pc, w.clients[c].slot);
  }

  lemma {:induction false} SessionModeStates(cfg: Config, history: seq<Event>)
    requires cfg.mode.SessionMode? && Run(cfg, Start, history).Some?
    ensures var pc := Run(cfg, Start, history).value;
      pc.Start? || pc.Probe? || pc.SWant? || pc.SHeld? || pc.SRelay? || pc.SStopped? || pc.SCleared?
      || pc.Dropping? || pc.Gone?
    decreases |history|
  {
    if history != [] {
      SessionModeStates(cfg, history[..|history| - 1]);
    }
  }

  /** In session mode a backend is discarded only after the slot has been cleared. */
  lemma SessionModeClearsFirst(srv: Server, init: World, steps: seq<Step>, c: ClientId, k: ConnId)
    requires Initial(init) && Exec(srv, init, steps).Some? && init.cfg.mode.SessionMode?
    requires Enabled(Exec(srv, init, steps).value, Act(c, Discard(k)))
    ensures Exec(srv, init, steps).value.clients[c].slot.None?
  {
    RunKeepsInv(srv, init, steps);
    var w := Exec(srv, init, steps).value;
    assert SessionOk(w.cfg, w.clients[c]);
    SessionModeStates(w.cfg, w.clients[c].history);
  }

  // ---------------------------------------------------------------------------------------------
  // What a client sees of the pool is what its session does

  /** What an event reads of the client's stream. */
  function ReadOff(ev: Event): seq<Message> {
    if ev.ReadClient? || ev.PassUp? then [ev.f] else []
  }

  predicate Books(cl: Client) {
    && cl.read <= |cl.sent| && cl.sent[..cl.read] == Routing.Gather(ReadOff, cl.history)
    && cl.replies == Routing.Gather(Routing.Given, cl.history)
  }

  lemma BooksKept(cl: Client, pc: Pc, ev: Event)
    requires Books(cl) && (ReadOff(ev) != [] ==> cl.read < |cl.sent| && cl.sent[cl.read] == ev.f)
    ensures Books(ClientAfter(cl, pc, ev))
  {
    var cl' := ClientAfter(cl, pc, ev);
    assert cl'.history[..|cl.history|] == cl.history;
    if ReadOff(ev) != [] {
      assert cl.sent[..cl.read + 1] == cl.sent[..cl.read] + [ev.f];
    }
  }

  lemma SendKeepsBooks(cl: Client, f: Message)
    requires Books(cl)
    ensures Books(cl.(sent := cl.sent + [f]))
  {
    assert (cl.sent + [f])[..cl.read] == cl.sent[..cl.read];
  }

  lemma StepKeepsBooks(srv: Server, w: World, step: Step, c: ClientId)
    requires Enabled(w, step) && c in Apply(srv, w, step).clients && (c in w.clients ==> Books(w.clients[c]))
    ensures Books(Apply(srv, w, step).clients[c])
  {
    match step
    case SendUp(d, f) =>
      if c == d {
        SendKeepsBooks(w.clients[c], f);
      }
    case Dial(d, k, _) =>
      if c == d {
        BooksKept(w.clients[c], Next(w.cfg, w.clients[c].pc, Lease(k)).value, Lease(k));
      }
    case Reuse(d, k, _) =>
      if c == d {
        BooksKept(w.clients[c], Next(w.cfg, w.clients[c].pc, Lease(k)).value, Lease(k));
      }
    case Act(d, ev) =>
      DoActIs(w, d, ev);
      if c == d {
        BooksKept(w.clients[c], Next(w.cfg, w.clients[c].pc, ev).value, ev);
      }
    case _ =>
  }

  /** Over every interleaving a client's session is a run of its own automaton, has read a prefix of what the client sent and
      given the client exactly its replies; so whatever is proved of every session history holds of what the
      client sent and received. */
  lemma {:induction false} ClientsSeeTheirSessions(srv: Server, init: World, steps: seq<Step>, c: ClientId)
    requires Initial(init) && Exec(srv, init, steps).Some? && c in Exec(srv, init, steps).value.clients
    ensures var cl := Exec(srv, init, steps).value.clients[c];
      Books(cl) && Run(init.cfg, Start, cl.history) == Some(cl.pc)
    decreases |steps|
  {
    RunKeepsInv(srv, init, steps);
    if steps != [] {
      var before, step := steps[..|steps| - 1], steps[|steps| - 1];
      var w := Exec(srv, init, before).value;
      if c in w.clients {
        ClientsSeeTheirSessions(srv, init, before, c);
      }
      StepKeepsBooks(srv, w, step, c);
    }
  }
}
