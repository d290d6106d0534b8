/** Half-duplex clients against request/response servers.

    `relay_to_next_rfq` drops its backend reader, and `reset` reads the same backend directly, on the strength of one
    assumption (src/proxy/pooled.rs:291-294): after a ReadyForQuery the backend is silent until the next
    query. This module states the assumption about clients and servers, and proves what every run then
    keeps: a connection is pooled with nothing in flight, in its post-startup state, owing nothing. */
module PoolDiscipline {
  import opened Bytes
  import opened Session
  import opened PoolWorld
  import PoolSafety
  import Routing
  import Codec

  // ---------------------------------------------------------------------------------------------
  // The assumptions

  /** Ghost views of a server. `pending`: a request it has begun, such as a copy-in, still owes its ReadyForQuery.
      `open`: an extended-protocol series is open, that is, messages have come since the last ReadyForQuery that
      only a Sync is sure to close; the backend may be discarding up to that Sync, or inside a copy-in begun by
      an Execute. `home`: the post-startup state a backend came from. `startups`: the one startup frame used
      per user and database. */
  datatype Contract = Contract(pending: Backend -> bool, open: Backend -> bool, home: Backend -> Backend,
                               startups: (string, string) -> seq<byte>)

  /** Between requests. */
  predicate Settled(ct: Contract, b: Backend) {
    !ct.pending(b) && !ct.open(b)
  }

  predicate IsSync(f: Message) {
    f.tag == 83
  }

  /** Parse, Bind, Describe, Execute, Close and Flush. */
  predicate Extended(f: Message) {
    f.tag == 80 || f.tag == 66 || f.tag == 68 || f.tag == 69 || f.tag == 67 || f.tag == 72
  }

  /** What may follow a request before its answer: copy data, or the client leaving. */
  predicate Late(f: Message) {
    IsCopy(f) || f.tag == Codec.TERMINATE
  }

  /** Whether extended-protocol messages have been sent since the last request. */
  predicate OpenSeries(sent: seq<Message>) {
    sent != [] && !Triggers(sent[|sent| - 1]) && (Extended(sent[|sent| - 1]) || OpenSeries(sent[..|sent| - 1]))
  }

  function Due(ct: Contract, b: Backend): nat {
    if ct.pending(b) then 1 else 0
  }

  function Asks(f: Message): nat {
    if Triggers(f) then 1 else 0
  }

  predicate NoError(ms: seq<Message>) {
    forall i :: 0 <= i < |ms| ==> ms[i].tag != Codec.ERROR_RESPONSE
  }

  /** At most one ReadyForQuery, and nothing after it. */
  predicate RfqLast(ms: seq<Message>) {
    forall i :: 0 <= i < |ms| - 1 ==> !IsRfq(ms[i])
  }

  predicate RfqEnds(ms: seq<Message>) {
    ms != [] && IsRfq(ms[|ms| - 1]) && RfqLast(ms)
  }

  /** A request/response server whose reset works, after section 55.2 of the PostgreSQL documentation. Each request
      gets exactly one ReadyForQuery, at the end of a reply, at once or when the copy-in it began is over; only
      while a series is open may requests other than Sync go unanswered. A ReadyForQuery closes the series, and
      only extended-protocol messages open one. Stray copy frames are ignored between requests. There the
      reset frame leaves the database alone, is answered at once and, if the answer is a success, restores the
      post-startup state. */
  ghost predicate Honest(srv: Server, ct: Contract, reset: Message) {
    && (forall shard, startup :: BootOk(srv, ct, shard, startup))
    && (forall b, d, f :: RunOk(srv, ct, b, d, f))
    && (forall b, d :: ResetOk(srv, ct, reset, b, d))
  }

  ghost predicate BootOk(srv: Server, ct: Contract, shard: string, startup: seq<byte>) {
    var b := srv.boot(shard, startup);
    Settled(ct, b) && ct.home(b) == b
  }

  /** A request the server is bound to answer: the only one under way, and a Sync if a series is open. */
  predicate InTurn(ct: Contract, b: Backend, f: Message) {
    Due(ct, b) + Asks(f) <= 1 && (Triggers(f) && ct.open(b) ==> IsSync(f))
  }

  ghost predicate RunOk(srv: Server, ct: Contract, b: Backend, d: Database, f: Message) {
    var (b', d', out) := srv.run(b, d, f);
    && ct.home(b') == ct.home(b)
    && RfqLast(out)
    && (InTurn(ct, b, f) ==> RfqCount(out) + Due(ct, b') == Due(ct, b) + Asks(f))
    && (RfqCount(out) > 0 ==> !ct.open(b'))
    && (!ct.open(b) && !Extended(f) ==> !ct.open(b'))
    && (IsCopy(f) && Settled(ct, b) ==> b' == b && d' == d && out == [])
  }

  ghost predicate ResetOk(srv: Server, ct: Contract, reset: Message, b: Backend, d: Database) {
    Settled(ct, b) ==>
      var (b', d', out) := srv.run(b, d, reset);
      && d' == d && !ct.pending(b') && RfqEnds(out)
      && (NoError(out) && ExplicitIdle(out[|out| - 1]) ==> b' == ct.home(b))
  }

  /** Requests a client has sent and not yet had answered. */
  function Outstanding(cl: Client): int {
    TriggerCount(cl.sent) - RfqCount(cl.replies)
  }

  /** A step of a half-duplex run: no unsolicited messages, one startup frame per user and database, a client with a
      request outstanding sends nothing but copy data or a Terminate, and the next request after
      extended-protocol messages is a Sync. */
  predicate HalfDuplex(w: World, ct: Contract, step: Step) {
    match step
    case Emit(_, _) => false
    case Join(_, user, database, startup) => startup == ct.startups(user, database)
    case SendUp(c, f) =>
      c in w.clients && MaySend(w.clients[c], f)
    case _ => true
  }

  predicate MaySend(cl: Client, f: Message) {
    if Outstanding(cl) == 0 then Triggers(f) && OpenSeries(cl.sent) ==> IsSync(f)
    else Outstanding(cl) == 1 && Late(f)
  }

  /** A run every step of which is. */
  predicate HalfDuplexRun(srv: Server, ct: Contract, init: World, steps: seq<Step>) {
    steps == []
    || (var before := Exec(srv, init, steps[..|steps| - 1]);
        before.Some? && HalfDuplex(before.value, ct, steps[|steps| - 1])
        && HalfDuplexRun(srv, ct, init, steps[..|steps| - 1]))
  }

  // ---------------------------------------------------------------------------------------------
  // Counting

  lemma {:induction false} TriggerConcat(a: seq<Message>, b: seq<Message>)
    ensures TriggerCount(a + b) == TriggerCount(a) + TriggerCount(b)
    decreases |b|
  {
    if b == [] {
      assert a + b == a;
    } else {
      assert (a + b)[..|a + b| - 1] == a + b[..|b| - 1];
      TriggerConcat(a, b[..|b| - 1]);
    }
  }

  lemma {:induction false} RfqConcat(a: seq<Message>, b: seq<Message>)
    ensures RfqCount(a + b) == RfqCount(a) + RfqCount(b)
    decreases |b|
  {
    if b == [] {
      assert a + b == a;
    } else {
      assert (a + b)[..|a + b| - 1] == a + b[..|b| - 1];
      RfqConcat(a, b[..|b| - 1]);
    }
  }

  lemma RfqUncons(ms: seq<Message>)
    requires ms != []
    ensures RfqCount(ms) == RfqCount(ms[1..]) + if IsRfq(ms[0]) then 1 else 0
  {
    assert ms == [ms[0]] + ms[1..] && [ms[0]][..0] == [];
    RfqConcat([ms[0]], ms[1..]);
  }

  lemma TriggerUncons(fs: seq<Message>)
    requires fs != []
    ensures TriggerCount(fs) == TriggerCount(fs[1..]) + Asks(fs[0])
  {
    assert fs == [fs[0]] + fs[1..] && [fs[0]][..0] == [];
    TriggerConcat([fs[0]], fs[1..]);
  }

  predicate AllCopy(fs: seq<Message>) {
    forall i :: 0 <= i < |fs| ==> IsCopy(fs[i])
  }

  predicate AllLate(fs: seq<Message>) {
    forall i :: 0 <= i < |fs| ==> Late(fs[i])
  }

  lemma {:induction false} LateAsksNothing(fs: seq<Message>)
    requires AllLate(fs)
    ensures TriggerCount(fs) == 0
  {
    if fs != [] {
      LateAsksNothing(fs[..|fs| - 1]);
    }
  }

  lemma {:induction false} RfqLastCount(ms: seq<Message>)
    requires RfqLast(ms)
    ensures RfqCount(ms) == if ms != [] && IsRfq(ms[|ms| - 1]) then 1 else 0
  {
    if ms != [] {
      NoRfqCount(ms[..|ms| - 1]);
    }
  }

  lemma {:induction false} NoRfqCount(ms: seq<Message>)
    requires forall i :: 0 <= i < |ms| ==> !IsRfq(ms[i])
    ensures RfqCount(ms) == 0
  {
    if ms != [] {
      NoRfqCount(ms[..|ms| - 1]);
    }
  }

  /** Once a request has been made, only copy data or a Terminate follows it. */
  predicate LateTail(fs: seq<Message>) {
    forall i, j :: 0 <= i < j < |fs| && Triggers(fs[i]) ==> Late(fs[j])
  }

  predicate HasExtended(fs: seq<Message>) {
    exists i :: 0 <= i < |fs| && Extended(fs[i])
  }

  /** With a series open, or after extended-protocol messages, the next request is a Sync. */
  predicate SyncNext(open: bool, fs: seq<Message>) {
    && (open ==> forall i :: 0 <= i < |fs| && Triggers(fs[i]) ==> IsSync(fs[i]))
    && (forall i, j :: 0 <= i < j < |fs| && Extended(fs[i]) && Triggers(fs[j]) ==> IsSync(fs[j]))
  }

  // ---------------------------------------------------------------------------------------------
  // What a half-duplex run keeps, for one session and its connection

  function Unread(cl: Client): seq<Message>
    requires cl.read <= |cl.sent|
  {
    cl.sent[cl.read..]
  }

  /** The states in which the connection's traffic is the client's own. */
  predicate Conversing(pc: Pc) {
    pc.Send? || pc.Relay? || pc.Deliver?
  }

  /** Frames the client sent that no backend has handled yet, in order. */
  function Pipeline(cl: Client, part: Option<Conn>): seq<Message>
    requires cl.read <= |cl.sent|
  {
    (if part.Some? then part.value.toBackend else []) + (Routing.InHand(cl.pc) + Unread(cl))
  }

  /** ReadyForQuerys on their way to the client. */
  function InFlight(ct: Contract, pc: Pc, part: Option<Conn>): nat {
    if part.None? then 0
    else Due(ct, part.value.back) + RfqCount(part.value.fromBackend) + if pc.Deliver? && IsRfq(pc.m) then 1 else 0
  }

  /** At most one request is unanswered, in the pipeline or answered and in flight; all after it is copy data. */
  predicate Paced(outstanding: int, q: seq<Message>, flying: nat) {
    && outstanding == TriggerCount(q) + flying <= 1
    && LateTail(q)
    && (flying == 1 ==> AllLate(q))
  }

  /** A ReadyForQuery is the last thing a backend has said. */
  predicate RfqPlaced(pc: Pc, part: Option<Conn>) {
    part.Some? ==> RfqLast(part.value.fromBackend) && (pc.Deliver? && IsRfq(pc.m) ==> part.value.fromBackend == [])
  }

  /** ReadyForQuerys the backend has sent and the client has not received. */
  function Sent(pc: Pc, part: Option<Conn>): nat {
    if part.None? then 0 else RfqCount(part.value.fromBackend) + if pc.Deliver? && IsRfq(pc.m) then 1 else 0
  }

  predicate OpenAt(ct: Contract, part: Option<Conn>) {
    part.Some? && ct.open(part.value.back)
  }

  /** The client closes the series it has opened: the next request is a Sync, and between requests the client
      knows of every series that is open or on its way. */
  predicate SeriesOk(ct: Contract, cl: Client, part: Option<Conn>)
    requires cl.read <= |cl.sent|
  {
    && SyncNext(OpenAt(ct, part), Pipeline(cl, part))
    && (Outstanding(cl) == 0 && (OpenAt(ct, part) || HasExtended(Pipeline(cl, part))) ==> OpenSeries(cl.sent))
    && (Sent(cl.pc, part) > 0 ==> !OpenAt(ct, part))
  }

  /** Terminate does not reach a backend while the session goes on. */
  predicate NoBye(part: Option<Conn>) {
    part.Some? ==> forall i :: 0 <= i < |part.value.toBackend| ==> part.value.toBackend[i].tag != Codec.TERMINATE
  }

  predicate OneAtATime(ct: Contract, cl: Client, part: Option<Conn>)
    requires cl.read <= |cl.sent|
  {
    && Paced(Outstanding(cl), Pipeline(cl, part), InFlight(ct, cl.pc, part)) && RfqPlaced(cl.pc, part)
    && SeriesOk(ct, cl, part) && NoBye(part)
  }

  /** The connection's reply debt is what can be seen on its wires. */
  predicate Accounted(ct: Contract, conn: Conn) {
    PoolSafety.Owed(conn.log) == TriggerCount(conn.toBackend) + Due(ct, conn.back) + RfqCount(conn.fromBackend)
  }

  /** Indistinguishable from a connection just established. */
  ghost predicate Pristine(ct: Contract, conn: Conn) {
    conn.toBackend == [] && conn.fromBackend == [] && Settled(ct, conn.back) && ct.home(conn.back) == conn.back
  }

  predicate Resettable(ct: Contract, conn: Conn) {
    Settled(ct, conn.back) && conn.fromBackend == [] && AllCopy(conn.toBackend)
  }

  /** The reset is still to be handled, or has been and its answer is being read. */
  ghost predicate Resetting(ct: Contract, reset: Message, conn: Conn) {
    && Settled(ct, conn.back)
    && if conn.toBackend != [] then
         conn.fromBackend == [] && conn.toBackend[|conn.toBackend| - 1] == reset
         && AllCopy(conn.toBackend[..|conn.toBackend| - 1])
       else
         RfqEnds(conn.fromBackend)
         && (NoError(conn.fromBackend) && ExplicitIdle(conn.fromBackend[|conn.fromBackend| - 1]) ==>
               ct.home(conn.back) == conn.back)
  }

  ghost predicate ConnOk(ct: Contract, reset: Message, pc: Pc, conn: Conn) {
    && (Holds(pc).Some? && !Routing.Ended(pc) && !pc.Discarding? ==> Accounted(ct, conn))
    && (pc.Probe? || pc.Held? || pc.Clean? ==> Pristine(ct, conn))
    && (pc.AtIdle? ==> Resettable(ct, conn))
    && (pc.Drain? ==> Resetting(ct, reset, conn))
  }

  function PartOf(pc: Pc, conn: Option<Conn>): Option<Conn> {
    if Conversing(pc) then conn else None
  }

  ghost predicate SessionOk(ct: Contract, reset: Message, cl: Client, conn: Option<Conn>) {
    && cl.read <= |cl.sent|
    && cl.startup == ct.startups(cl.user, cl.database)
    && !Routing.SessionModeState(cl.pc) && Routing.TerminateOk(cl.pc)
    && (Holds(cl.pc).Some? <==> conn.Some?)
    && (!Routing.Ended(cl.pc) ==> OneAtATime(ct, cl, PartOf(cl.pc, conn)))
    && (conn.Some? ==> ConnOk(ct, reset, cl.pc, conn.value))
  }

  // ---------------------------------------------------------------------------------------------
  // One action, one step of a server

  lemma InHandNext(cfg: Config, pc: Pc, ev: Event)
    requires Next(cfg, pc, ev).Some? && !Routing.SessionModeState(pc) && !Routing.Ended(Next(cfg, pc, ev).value)
    ensures var now := Routing.InHand(Next(cfg, pc, ev).value);
      if ev.ReadClient? then Routing.InHand(pc) == [] && now == [ev.f]
      else if ev.WriteBackend? then Routing.InHand(pc) == [ev.f] && now == []
      else now == Routing.InHand(pc)
    ensures !ev.PassUp? && !ev.PassDown? && !ev.LateFail? && !Routing.Ended(pc)
  {
  }

  /** The client's unanswered frames move along the pipeline but do not change, except that a ReadyForQuery
      reaching the client takes what is left of the connection's part out of it. */
  lemma PipelineNext(cfg: Config, c: ClientId, cl: Client, conn: Option<Conn>, ev: Event)
    requires Next(cfg, cl.pc, ev).Some? && !Routing.SessionModeState(cl.pc)
    requires !Routing.Ended(Next(cfg, cl.pc, ev).value)
    requires cl.read <= |cl.sent| && (Holds(cl.pc).Some? <==> conn.Some?)
    requires ev.ReadClient? ==> cl.read < |cl.sent| && cl.sent[cl.read] == ev.f
    requires cl.pc.Held? ==> conn.value.toBackend == []
    ensures var pc' := Next(cfg, cl.pc, ev).value;
      var cl', part' := ClientAfter(cl, pc', ev), PartNext(cfg, c, cl.pc, conn, ev);
      cl'.read <= |cl'.sent| &&
      if Conversing(cl.pc) && !Conversing(pc') then
        Pipeline(cl, PartOf(cl.pc, conn)) == conn.value.toBackend + Pipeline(cl', part')
      else Pipeline(cl', part') == Pipeline(cl, PartOf(cl.pc, conn))
  {
    InHandNext(cfg, cl.pc, ev);
    var pc' := Next(cfg, cl.pc, ev).value;
    var cl' := ClientAfter(cl, pc', ev);
    if ev.ReadClient? {
      assert Unread(cl) == [ev.f] + Unread(cl');
    } else {
      assert Unread(cl') == Unread(cl);
    }
    if ev.WriteBackend? {
      Handover(conn.value.toBackend, ev.f, Unread(cl));
    } else if conn.Some? {
      assert conn.value.toBackend + [] == conn.value.toBackend;
    }
  }

  lemma Handover(wire: seq<Message>, f: Message, rest: seq<Message>)
    ensures wire + [f] + ([] + rest) == wire + ([f] + rest)
  {
  }

  lemma TriggerSnoc(fs: seq<Message>, f: Message)
    ensures TriggerCount(fs + [f]) == TriggerCount(fs) + Asks(f)
  {
    assert (fs + [f])[..|fs|] == fs;
  }

  lemma WriteKeepsAccount(ct: Contract, conn: Conn, who: Option<ClientId>, f: Message)
    requires Accounted(ct, conn)
    ensures Accounted(ct, conn.(toBackend := conn.toBackend + [f], log := conn.log + [Wrote(who, f)]))
  {
    PoolSafety.LogSnoc(conn.log, Wrote(who, f));
    TriggerSnoc(conn.toBackend, f);
  }

  lemma ReadKeepsAccount(ct: Contract, conn: Conn, who: Option<ClientId>)
    requires Accounted(ct, conn) && conn.fromBackend != []
    ensures Accounted(ct, conn.(fromBackend := conn.fromBackend[1..], log := conn.log + [Took(who, conn.fromBackend[0])]))
  {
    PoolSafety.LogSnoc(conn.log, Took(who, conn.fromBackend[0]));
    RfqUncons(conn.fromBackend);
  }

  /** Every action keeps the wires accounted for: what a write adds to the debt it adds to the wire. */
  lemma ActKeepsAccount(ct: Contract, c: ClientId, conn: Conn, ev: Event)
    requires Accounted(ct, conn)
    requires ev.ReadBackend? || ev.PassDown? || ev.ReadReset? ==> conn.fromBackend != [] && conn.fromBackend[0] == ev.m
    ensures Accounted(ct, ConnAfter(conn, c, ev))
  {
    ConnAfterCases(conn, c, ev);
    if ev.WriteBackend? || ev.PassUp? {
      WriteKeepsAccount(ct, conn, Some(c), ev.f);
    } else if ev.WriteReset? {
      WriteKeepsAccount(ct, conn, None, ev.f);
    } else if ev.ReadBackend? || ev.PassDown? {
      ReadKeepsAccount(ct, conn, Some(c));
    } else if ev.ReadReset? {
      ReadKeepsAccount(ct, conn, None);
    }
  }

  /** An action writes one frame, takes one message, or leaves the wires alone. */
  lemma ConnAfterCases(conn: Conn, c: ClientId, ev: Event)
    requires ev.ReadBackend? || ev.PassDown? || ev.ReadReset? ==> conn.fromBackend != [] && conn.fromBackend[0] == ev.m
    ensures ConnAfter(conn, c, ev)
      == if ev.WriteBackend? || ev.PassUp? then
           conn.(toBackend := conn.toBackend + [ev.f], log := conn.log + [Wrote(Some(c), ev.f)])
         else if ev.WriteReset? then
           conn.(toBackend := conn.toBackend + [ev.f], log := conn.log + [Wrote(None, ev.f)])
         else if ev.ReadBackend? || ev.PassDown? then
           conn.(fromBackend := conn.fromBackend[1..], log := conn.log + [Took(Some(c), conn.fromBackend[0])])
         else if ev.ReadReset? then
           conn.(fromBackend := conn.fromBackend[1..], log := conn.log + [Took(None, conn.fromBackend[0])])
         else conn
  {
    assert conn.toBackend + [] == conn.toBackend && conn.log + [] == conn.log;
  }

  /** A ReadyForQuery in hand means the backend has nothing more to say and only copy data left to read. */
  lemma IdleIsResettable(ct: Contract, cl: Client, conn: Conn)
    requires cl.read <= |cl.sent| && cl.pc.Deliver? && IsRfq(cl.pc.m) && OneAtATime(ct, cl, Some(conn))
    ensures Resettable(ct, conn) && AllLate(Pipeline(cl, Some(conn)))
  {
    var q := Pipeline(cl, Some(conn));
    assert forall i :: 0 <= i < |conn.toBackend| ==> q[i] == conn.toBackend[i];
  }

  lemma ActKeepsConn(cfg: Config, ct: Contract, reset: Message, c: ClientId, pc: Pc, conn: Conn, ev: Event)
    requires Next(cfg, pc, ev).Some? && !ev.Lease? && cfg.reset == Some(reset) && !Routing.SessionModeState(pc)
    requires ConnOk(ct, reset, pc, conn) && Holds(pc).Some? && (pc.Deliver? && IsRfq(pc.m) ==> Resettable(ct, conn))
    requires ev.ReadBackend? || ev.PassDown? || ev.ReadReset? ==> conn.fromBackend != [] && conn.fromBackend[0] == ev.m
    ensures ConnOk(ct, reset, Next(cfg, pc, ev).value, ConnAfter(conn, c, ev))
    ensures ev.Checkin? ==> Pristine(ct, ConnAfter(conn, c, ev)) && Accounted(ct, ConnAfter(conn, c, ev))
  {
    if Accounted(ct, conn) {
      ActKeepsAccount(ct, c, conn, ev);
    }
    PhaseNext(cfg, pc, ev);
    ConnAfterCases(conn, c, ev);
    if ev.WriteReset? {
      assert ConnAfter(conn, c, ev).toBackend[..|conn.toBackend|] == conn.toBackend;
    } else if ev.ReadReset? {
      ReadResetKeeps(ct, reset, conn, c, ev);
    }
  }

  /** What a session's state promises of its connection once a ReadyForQuery is in hand. */
  lemma InHandIsResettable(ct: Contract, reset: Message, cl: Client, conn: Conn)
    requires SessionOk(ct, reset, cl, Some(conn))
    ensures cl.pc.Deliver? && IsRfq(cl.pc.m) ==> Resettable(ct, conn)
  {
    if cl.pc.Deliver? && IsRfq(cl.pc.m) {
      IdleIsResettable(ct, cl, conn);
    }
  }

  /** Which events lead into the states between the last client reply and the pool. */
  lemma PhaseNext(cfg: Config, pc: Pc, ev: Event)
    requires Next(cfg, pc, ev).Some? && !ev.Lease? && cfg.reset.Some?
    ensures var pc' := Next(cfg, pc, ev).value;
      && !pc'.Probe? && !pc'.Held?
      && (pc'.AtIdle? ==> ev.WriteClient? && pc.Deliver? && IsRfq(pc.m))
      && (pc'.Drain? ==> (ev.WriteReset? && pc.AtIdle? && cfg.reset.value == ev.f)
                         || (ev.ReadReset? && pc.Drain? && !IsRfq(ev.m) && ev.m.tag != Codec.ERROR_RESPONSE))
      && (pc'.Clean? ==> ev.ReadReset? && pc.Drain? && ExplicitIdle(ev.m))
      && (ev.Checkin? ==> pc.Clean? || pc.Probe?)
      && (!Routing.Ended(pc') && !pc'.Discarding? && !Routing.SessionModeState(pc) ==>
            !Routing.Ended(pc) && (!pc.Discarding? || ev.Discard?))
      && (ev.Discard? ==> !Holds(pc').Some?)
  {
  }

  /** Reading the reset's answer: an error gives the connection up, an explicit idle status completes it. */
  lemma ReadResetKeeps(ct: Contract, reset: Message, conn: Conn, c: ClientId, ev: Event)
    requires ev.ReadReset? && Resetting(ct, reset, conn) && conn.fromBackend != [] && conn.fromBackend[0] == ev.m
    ensures var conn' := ConnAfter(conn, c, ev);
      if ExplicitIdle(ev.m) then Pristine(ct, conn')
      else !IsRfq(ev.m) && ev.m.tag != Codec.ERROR_RESPONSE ==> Resetting(ct, reset, conn')
  {
    var from := conn.fromBackend;
    assert conn.toBackend == [];
    if IsRfq(from[0]) {
      assert from == [from[0]];
    } else {
      assert from[1..] != [];
      assert RfqEnds(from[1..]);
      assert ev.m.tag != Codec.ERROR_RESPONSE && NoError(from[1..]) ==> NoError(from);
    }
  }

  /** Which actions touch what is in flight: reading it, handing it on, and leaving the conversation once it is out. */
  lemma FlightNext(cfg: Config, pc: Pc, ev: Event)
    requires Next(cfg, pc, ev).Some? && !Routing.SessionModeState(pc) && !Routing.Ended(Next(cfg, pc, ev).value)
    ensures var pc' := Next(cfg, pc, ev).value;
      && (pc'.Deliver? ==> ev.ReadBackend? && pc == Relay(pc'.k) && pc'.m == ev.m)
      && (pc.Deliver? ==> ev == WriteClient(pc.m))
      && (Conversing(pc) && !Conversing(pc') ==> pc.Deliver? && IsRfq(pc.m))
      && (!Conversing(pc) && Conversing(pc') ==> pc.Held?)
      && (ev.WriteClient? ==> pc.Deliver?)
      && (ev.ReadBackend? ==> pc'.Deliver?)
  {
  }

  /** What is in flight to the client changes only when a ReadyForQuery reaches it. */
  lemma FlyingNext(cfg: Config, ct: Contract, c: ClientId, pc: Pc, conn: Option<Conn>, ev: Event)
    requires Next(cfg, pc, ev).Some? && !Routing.SessionModeState(pc) && !Routing.Ended(Next(cfg, pc, ev).value)
    requires Holds(pc).Some? <==> conn.Some?
    requires pc.Held? ==> Pristine(ct, conn.value)
    requires RfqPlaced(pc, PartOf(pc, conn)) && InFlight(ct, pc, PartOf(pc, conn)) <= 1
    requires ev.ReadBackend? ==> conn.value.fromBackend != [] && conn.value.fromBackend[0] == ev.m
    ensures var pc' := Next(cfg, pc, ev).value; var part' := PartNext(cfg, c, pc, conn, ev);
      && InFlight(ct, pc, PartOf(pc, conn)) ==
           InFlight(ct, pc', part') + (if ev.WriteClient? && IsRfq(ev.m) then 1 else 0)
      && RfqPlaced(pc', part')
  {
    FlightNext(cfg, pc, ev);
    PartIs(cfg, c, pc, conn, ev);
    if ev.ReadBackend? {
      RfqUncons(conn.value.fromBackend);
      RfqLastCount(conn.value.fromBackend);
    }
  }

  /** The part of a session's connection in its conversation, after an action. */
  function PartNext(cfg: Config, c: ClientId, pc: Pc, conn: Option<Conn>, ev: Event): Option<Conn>
    requires Next(cfg, pc, ev).Some?
  {
    var pc' := Next(cfg, pc, ev).value;
    PartOf(pc', if Holds(pc').None? || conn.None? then None else Some(ConnAfter(conn.value, c, ev)))
  }

  lemma PartIs(cfg: Config, c: ClientId, pc: Pc, conn: Option<Conn>, ev: Event)
    requires Next(cfg, pc, ev).Some? && !Routing.SessionModeState(pc) && (Holds(pc).Some? <==> conn.Some?)
    requires ev.ReadBackend? ==> conn.Some? && conn.value.fromBackend != []
    ensures var part' := PartNext(cfg, c, pc, conn, ev);
      if !Conversing(Next(cfg, pc, ev).value) then part' == None
      else
        && conn.Some? && part'.Some? && part'.value.back == conn.value.back
        && part'.value.fromBackend == (if ev.ReadBackend? then conn.value.fromBackend[1..] else conn.value.fromBackend)
        && (ev.WriteBackend? || part'.value.toBackend == conn.value.toBackend)
        && (ev.WriteBackend? ==> part'.value.toBackend == conn.value.toBackend + [ev.f])
  {
    if conn.Some? {
      assert conn.value.toBackend + [] == conn.value.toBackend;
    }
  }

  lemma Answered(outstanding: int, left: seq<Message>, q: seq<Message>)
    requires Paced(outstanding, left + q, 1)
    ensures Paced(outstanding - 1, left + q, 0) && Paced(outstanding - 1, q, 0)
  {
    LateAsksNothing(left + q);
    assert forall i :: 0 <= i < |q| ==> q[i] == (left + q)[|left| + i];
    LateAsksNothing(q);
  }

  lemma AnsweredAll(outstanding: int, q: seq<Message>)
    requires Paced(outstanding, q, 1)
    ensures Paced(outstanding - 1, q, 0)
  {
    assert [] + q == q;
    Answered(outstanding, [], q);
  }

  /** An action changes no backend, and moves ReadyForQuerys only towards the client. */
  lemma OpenNext(cfg: Config, ct: Contract, c: ClientId, pc: Pc, conn: Option<Conn>, ev: Event)
    requires Next(cfg, pc, ev).Some? && !Routing.SessionModeState(pc) && !Routing.Ended(Next(cfg, pc, ev).value)
    requires Holds(pc).Some? <==> conn.Some?
    requires pc.Held? ==> Pristine(ct, conn.value)
    requires ev.ReadBackend? ==> conn.value.fromBackend != [] && conn.value.fromBackend[0] == ev.m
    ensures var part, part' := PartOf(pc, conn), PartNext(cfg, c, pc, conn, ev);
      && (OpenAt(ct, part') ==> OpenAt(ct, part))
      && Sent(Next(cfg, pc, ev).value, part') <= Sent(pc, part)
      && (Conversing(Next(cfg, pc, ev).value) && Conversing(pc) ==> (OpenAt(ct, part') <==> OpenAt(ct, part)))
  {
    FlightNext(cfg, pc, ev);
    PartIs(cfg, c, pc, conn, ev);
    if ev.ReadBackend? {
      RfqUncons(conn.value.fromBackend);
    }
  }

  lemma ByeNext(cfg: Config, ct: Contract, c: ClientId, pc: Pc, conn: Option<Conn>, ev: Event)
    requires Next(cfg, pc, ev).Some? && !Routing.SessionModeState(pc) && !Routing.Ended(Next(cfg, pc, ev).value)
    requires (Holds(pc).Some? <==> conn.Some?) && Routing.TerminateOk(pc) && NoBye(PartOf(pc, conn))
    requires pc.Held? ==> Pristine(ct, conn.value)
    requires ev.ReadBackend? ==> conn.Some? && conn.value.fromBackend != []
    ensures NoBye(PartNext(cfg, c, pc, conn, ev))
  {
    FlightNext(cfg, pc, ev);
    PartIs(cfg, c, pc, conn, ev);
    WritesAreFrames(cfg, pc, ev);
  }

  lemma WritesAreFrames(cfg: Config, pc: Pc, ev: Event)
    requires Next(cfg, pc, ev).Some? && Routing.TerminateOk(pc) && !Routing.Ended(Next(cfg, pc, ev).value)
    ensures ev.WriteBackend? ==> ev.f.tag != Codec.TERMINATE
  {
  }

  lemma ActKeepsSeries(cfg: Config, ct: Contract, c: ClientId, cl: Client, conn: Option<Conn>, ev: Event)
    requires Next(cfg, cl.pc, ev).Some? && !Routing.Ended(Next(cfg, cl.pc, ev).value) && cl.read <= |cl.sent|
    requires !Routing.SessionModeState(cl.pc) && (Holds(cl.pc).Some? <==> conn.Some?)
    requires OneAtATime(ct, cl, PartOf(cl.pc, conn)) && (cl.pc.Held? ==> Pristine(ct, conn.value))
    requires ev.ReadClient? ==> cl.read < |cl.sent| && cl.sent[cl.read] == ev.f
    requires ev.ReadBackend? ==> conn.value.fromBackend != [] && conn.value.fromBackend[0] == ev.m
    ensures var cl' := ClientAfter(cl, Next(cfg, cl.pc, ev).value, ev);
      cl'.read <= |cl'.sent| && SeriesOk(ct, cl', PartNext(cfg, c, cl.pc, conn, ev))
  {
    InHandNext(cfg, cl.pc, ev);
    PipelineNext(cfg, c, cl, conn, ev);
    OpenNext(cfg, ct, c, cl.pc, conn, ev);
    var cl', part, part' := ClientAfter(cl, Next(cfg, cl.pc, ev).value, ev), PartOf(cl.pc, conn),
                            PartNext(cfg, c, cl.pc, conn, ev);
    LeavesConversation(cfg, cl.pc, ev);
    if ev.WriteClient? && IsRfq(ev.m) {
      FlightNext(cfg, cl.pc, ev);
      IdleIsResettable(ct, cl, conn.value);
      RestIsLate(if Conversing(cl'.pc) then [] else conn.value.toBackend, Pipeline(cl, part), Pipeline(cl', part'));
      SettledSeries(ct, cl', part');
    } else {
      RepliesNext(cfg, cl, ev);
      SeriesStays(ct, cl, cl', part, part');
    }
  }

  /** Frames have moved along the pipeline, and that is all. */
  lemma SeriesStays(ct: Contract, cl: Client, cl': Client, part: Option<Conn>, part': Option<Conn>)
    requires cl.read <= |cl.sent| && cl'.read <= |cl'.sent| && cl'.sent == cl.sent && SeriesOk(ct, cl, part)
    requires Pipeline(cl', part') == Pipeline(cl, part) && Outstanding(cl') == Outstanding(cl)
    requires (OpenAt(ct, part') ==> OpenAt(ct, part)) && Sent(cl'.pc, part') <= Sent(cl.pc, part)
    ensures SeriesOk(ct, cl', part')
  {
  }

  /** Once the answer is out, what is left in the pipeline asks nothing and opens nothing. */
  lemma SettledSeries(ct: Contract, cl: Client, part: Option<Conn>)
    requires cl.read <= |cl.sent| && AllLate(Pipeline(cl, part)) && !OpenAt(ct, part)
    ensures SeriesOk(ct, cl, part)
  {
  }

  lemma RestIsLate(left: seq<Message>, all: seq<Message>, q: seq<Message>)
    requires AllLate(all) && (all == left + q || (left == [] && all == q))
    ensures AllLate(q)
  {
    if all == left + q {
      assert forall i :: 0 <= i < |q| ==> q[i] == all[|left| + i];
    }
  }

  /** One request at a time, whatever the session does next. */
  lemma ActKeepsOneAtATime(cfg: Config, ct: Contract, reset: Message, c: ClientId, cl: Client, conn: Option<Conn>,
                           ev: Event)
    requires Next(cfg, cl.pc, ev).Some? && SessionOk(ct, reset, cl, conn)
    requires ev.ReadClient? ==> cl.read < |cl.sent| && cl.sent[cl.read] == ev.f
    requires ev.ReadBackend? ==> conn.value.fromBackend != [] && conn.value.fromBackend[0] == ev.m
    requires !Routing.Ended(Next(cfg, cl.pc, ev).value)
    ensures var pc' := Next(cfg, cl.pc, ev).value; var cl' := ClientAfter(cl, pc', ev);
      cl'.read <= |cl'.sent| && OneAtATime(ct, cl', PartNext(cfg, c, cl.pc, conn, ev))
  {
    InHandNext(cfg, cl.pc, ev);
    PipelineNext(cfg, c, cl, conn, ev);
    FlyingNext(cfg, ct, c, cl.pc, conn, ev);
    LeavesConversation(cfg, cl.pc, ev);
    RepliesNext(cfg, cl, ev);
    ActKeepsSeries(cfg, ct, c, cl, conn, ev);
    ByeNext(cfg, ct, c, cl.pc, conn, ev);
    if ev.WriteClient? && IsRfq(ev.m) {
      var cl' := ClientAfter(cl, Next(cfg, cl.pc, ev).value, ev);
      AnsweredAll(Outstanding(cl), Pipeline(cl, PartOf(cl.pc, conn)));
      if !Conversing(cl'.pc) {
        Answered(Outstanding(cl), conn.value.toBackend, Pipeline(cl', None));
      }
    }
  }

  lemma LeavesConversation(cfg: Config, pc: Pc, ev: Event)
    requires Next(cfg, pc, ev).Some? && !Routing.Ended(Next(cfg, pc, ev).value)
    ensures Conversing(pc) && !Conversing(Next(cfg, pc, ev).value) ==> ev.WriteClient? && IsRfq(ev.m)
  {
  }

  lemma RepliesNext(cfg: Config, cl: Client, ev: Event)
    requires Next(cfg, cl.pc, ev).Some? && !ev.LateFail? && !ev.PassDown?
    ensures Outstanding(ClientAfter(cl, Next(cfg, cl.pc, ev).value, ev))
            == Outstanding(cl) - if ev.WriteClient? && IsRfq(ev.m) then 1 else 0
  {
    if ev.WriteClient? {
      assert (cl.replies + [ev.m])[..|cl.replies|] == cl.replies;
    }
  }

  lemma NoRfqSoFar(ms: seq<Message>, out: seq<Message>)
    requires RfqLast(ms) && RfqCount(ms) == 0 && RfqLast(out)
    ensures RfqLast(ms + out)
  {
    RfqLastCount(ms);
    forall i | 0 <= i < |ms + out| - 1
      ensures !IsRfq((ms + out)[i])
    {
      if i >= |ms| {
        assert (ms + out)[i] == out[i - |ms|];
      }
    }
  }

  /** A copy frame that reaches a backend with nothing pending changes only the wire it came on. */
  lemma ServeStrayCopy(srv: Server, ct: Contract, reset: Message, conn: Conn, db: Database)
    requires Honest(srv, ct, reset) && conn.toBackend != [] && IsCopy(conn.toBackend[0]) && Settled(ct, conn.back)
    ensures Served(srv, conn, db) == conn.(toBackend := conn.toBackend[1..]) && DbAfter(srv, conn, db) == db
    ensures Accounted(ct, conn) ==> Accounted(ct, Served(srv, conn, db))
  {
    assert RunOk(srv, ct, conn.back, db, conn.toBackend[0]);
    assert conn.fromBackend + [] == conn.fromBackend;
    TriggerUncons(conn.toBackend);
  }

  /** Within the pacing, a handled request is in flight and no longer in the pipeline. */
  lemma ServeCounts(srv: Server, ct: Contract, reset: Message, conn: Conn, db: Database)
    requires Honest(srv, ct, reset) && conn.toBackend != [] && RfqLast(conn.fromBackend)
    requires Due(ct, conn.back) + RfqCount(conn.fromBackend) + Asks(conn.toBackend[0]) <= 1
    requires Triggers(conn.toBackend[0]) && ct.open(conn.back) ==> IsSync(conn.toBackend[0])
    requires RfqCount(conn.fromBackend) == 1 ==> IsCopy(conn.toBackend[0]) && !ct.open(conn.back)
    ensures var conn' := Served(srv, conn, db);
      && Due(ct, conn'.back) + RfqCount(conn'.fromBackend) ==
           Due(ct, conn.back) + RfqCount(conn.fromBackend) + Asks(conn.toBackend[0])
      && RfqLast(conn'.fromBackend)
      && (Accounted(ct, conn) ==> Accounted(ct, conn'))
  {
    TriggerUncons(conn.toBackend);
    if RfqCount(conn.fromBackend) == 1 {
      ServeStrayCopy(srv, ct, reset, conn, db);
    } else {
      assert RunOk(srv, ct, conn.back, db, conn.toBackend[0]);
      var out := srv.run(conn.back, db, conn.toBackend[0]).2;
      RfqConcat(conn.fromBackend, out);
      NoRfqSoFar(conn.fromBackend, out);
    }
  }

  lemma PacedNext(outstanding: int, f: Message, q: seq<Message>, flying: nat)
    requires Paced(outstanding, [f] + q, flying)
    ensures Paced(outstanding, q, flying + Asks(f))
  {
    var all := [f] + q;
    TriggerUncons(all);
    assert all[1..] == q;
    assert forall i :: 0 <= i < |q| ==> q[i] == all[i + 1];
  }

  /** A frame leaves the pipeline for a backend whose series it may open, or close. */
  lemma SyncNextUncons(open: bool, open': bool, f: Message, q: seq<Message>)
    requires SyncNext(open, [f] + q) && (open' && !open ==> Extended(f))
    ensures SyncNext(open', q) && (HasExtended(q) || open' ==> HasExtended([f] + q) || open)
  {
    var all := [f] + q;
    assert all[0] == f && forall i :: 0 <= i < |q| ==> q[i] == all[i + 1];
    if HasExtended(q) {
      var i :| 0 <= i < |q| && Extended(q[i]);
      assert Extended(all[i + 1]);
    }
  }

  /** Handling a frame keeps the series: a reply closes it and only an extended-protocol message opens one. */
  lemma ServeKeepsSeries(srv: Server, ct: Contract, reset: Message, cl: Client, conn: Conn, db: Database)
    requires Honest(srv, ct, reset) && conn.toBackend != [] && cl.read <= |cl.sent|
    requires OneAtATime(ct, cl, Some(conn))
    ensures SeriesOk(ct, cl, Some(Served(srv, conn, db))) && NoBye(Some(Served(srv, conn, db)))
  {
    var conn', f := Served(srv, conn, db), conn.toBackend[0];
    var q, q' := Pipeline(cl, Some(conn)), Pipeline(cl, Some(conn'));
    assert q == [f] + q' && q[0] == f;
    assert RunOk(srv, ct, conn.back, db, f);
    SyncNextUncons(ct.open(conn.back), ct.open(conn'.back), f, q');
    RfqConcat(conn.fromBackend, srv.run(conn.back, db, f).2);
    if Sent(cl.pc, Some(conn)) > 0 {
      ServeStrayCopy(srv, ct, reset, conn, db);
    }
  }

  /** Handling a frame keeps the pacing. */
  lemma ServePaced(srv: Server, ct: Contract, reset: Message, cl: Client, conn: Conn, db: Database)
    requires Honest(srv, ct, reset) && conn.toBackend != [] && cl.read <= |cl.sent|
    requires OneAtATime(ct, cl, Some(conn))
    ensures OneAtATime(ct, cl, Some(Served(srv, conn, db)))
    ensures Accounted(ct, conn) ==> Accounted(ct, Served(srv, conn, db))
  {
    var conn', f := Served(srv, conn, db), conn.toBackend[0];
    var q, q' := Pipeline(cl, Some(conn)), Pipeline(cl, Some(conn'));
    assert q == [f] + q' && q[0] == f;
    TriggerUncons(q);
    PacedNext(Outstanding(cl), f, q', InFlight(ct, cl.pc, Some(conn)));
    ServeKeepsSeries(srv, ct, reset, cl, conn, db);
    if cl.pc.Deliver? && IsRfq(cl.pc.m) {
      ServeStrayCopy(srv, ct, reset, conn, db);
    } else {
      ServeCounts(srv, ct, reset, conn, db);
    }
  }

  /** The reset frame comes out of the wire after any stray copy data, and its whole answer goes in. */
  lemma ServeResetting(srv: Server, ct: Contract, reset: Message, conn: Conn, db: Database)
    requires Honest(srv, ct, reset) && conn.toBackend != [] && reset.tag == Codec.QUERY
    requires Resetting(ct, reset, conn) && Accounted(ct, conn)
    ensures Resetting(ct, reset, Served(srv, conn, db)) && Accounted(ct, Served(srv, conn, db))
    ensures DbAfter(srv, conn, db) == db
  {
    if |conn.toBackend| > 1 {
      assert conn.toBackend[0] == conn.toBackend[..|conn.toBackend| - 1][0];
      ServeStrayCopy(srv, ct, reset, conn, db);
      var rest := conn.toBackend[1..];
      assert forall i :: 0 <= i < |rest| - 1 ==> rest[i] == conn.toBackend[..|conn.toBackend| - 1][i + 1];
    } else {
      assert conn.toBackend[0] == reset;
      assert RunOk(srv, ct, conn.back, db, reset) && ResetOk(srv, ct, reset, conn.back, db);
      assert conn.fromBackend + srv.run(conn.back, db, reset).2 == srv.run(conn.back, db, reset).2;
      TriggerUncons(conn.toBackend);
    }
  }

  lemma ServeKeepsSession(srv: Server, ct: Contract, reset: Message, cl: Client, conn: Conn, db: Database)
    requires Honest(srv, ct, reset) && conn.toBackend != [] && reset.tag == Codec.QUERY
    requires SessionOk(ct, reset, cl, Some(conn))
    ensures SessionOk(ct, reset, cl, Some(Served(srv, conn, db)))
  {
    if Conversing(cl.pc) {
      ServePaced(srv, ct, reset, cl, conn, db);
    } else if cl.pc.AtIdle? {
      ServeStrayCopy(srv, ct, reset, conn, db);
    } else if cl.pc.Drain? {
      ServeResetting(srv, ct, reset, conn, db);
    }
  }

  lemma ActKeepsSession(cfg: Config, ct: Contract, reset: Message, c: ClientId, cl: Client, conn: Option<Conn>, ev: Event)
    requires Next(cfg, cl.pc, ev).Some? && !ev.Lease? && cfg.reset == Some(reset) && !cfg.mode.SessionMode?
    requires SessionOk(ct, reset, cl, conn)
    requires ev.ReadClient? ==> cl.read < |cl.sent| && cl.sent[cl.read] == ev.f
    requires ev.ReadBackend? || ev.ReadReset? ==>
               conn.Some? && conn.value.fromBackend != [] && conn.value.fromBackend[0] == ev.m
    ensures var pc' := Next(cfg, cl.pc, ev).value;
      SessionOk(ct, reset, ClientAfter(cl, pc', ev),
                if Holds(pc').None? || conn.None? then None else Some(ConnAfter(conn.value, c, ev)))
  {
    PoolSafety.ActNext(cfg, cl.pc, ev);
    NoSessionMode(cfg, cl.pc, ev);
    if !Routing.Ended(Next(cfg, cl.pc, ev).value) {
      ActKeepsOneAtATime(cfg, ct, reset, c, cl, conn, ev);
    }
    if conn.Some? {
      InHandIsResettable(ct, reset, cl, conn.value);
      ActKeepsConn(cfg, ct, reset, c, cl.pc, conn.value, ev);
    }
  }

  lemma NoSessionMode(cfg: Config, pc: Pc, ev: Event)
    requires Next(cfg, pc, ev).Some? && !cfg.mode.SessionMode? && !Routing.SessionModeState(pc)
    ensures !Routing.SessionModeState(Next(cfg, pc, ev).value) && !ev.PassUp? && !ev.PassDown?
    ensures Routing.TerminateOk(pc) ==> Routing.TerminateOk(Next(cfg, pc, ev).value)
  {
  }

  lemma LeaseKeepsSession(cfg: Config, ct: Contract, reset: Message, c: ClientId, cl: Client, conn: Conn, k: ConnId)
    requires Next(cfg, cl.pc, Lease(k)).Some? && !cfg.mode.SessionMode?
    requires SessionOk(ct, reset, cl, None) && Pristine(ct, conn) && Accounted(ct, conn)
    ensures SessionOk(ct, reset, ClientAfter(cl, Next(cfg, cl.pc, Lease(k)).value, Lease(k)), Some(conn))
  {
    PoolSafety.LeaseNext(cfg, cl.pc, k);
    NoSessionMode(cfg, cl.pc, Lease(k));
    ActKeepsOneAtATime(cfg, ct, reset, c, cl, None, Lease(k));
    assert !Conversing(Next(cfg, cl.pc, Lease(k)).value);
  }

  lemma SendKeepsSession(ct: Contract, reset: Message, cl: Client, conn: Option<Conn>, f: Message)
    requires SessionOk(ct, reset, cl, conn) && MaySend(cl, f)
    ensures SessionOk(ct, reset, cl.(sent := cl.sent + [f]), conn)
  {
    if !Routing.Ended(cl.pc) {
      SendKeepsOneAtATime(ct, cl, PartOf(cl.pc, conn), f);
    }
  }

  lemma SendKeepsOneAtATime(ct: Contract, cl: Client, part: Option<Conn>, f: Message)
    requires cl.read <= |cl.sent| && MaySend(cl, f) && OneAtATime(ct, cl, part)
    ensures OneAtATime(ct, cl.(sent := cl.sent + [f]), part)
  {
    SendAppends(cl, part, f);
    SendKeepsPace(Outstanding(cl), Pipeline(cl, part), f, InFlight(ct, cl.pc, part));
    SendKeepsSeries(ct, cl, part, f);
  }

  lemma SendAppends(cl: Client, part: Option<Conn>, f: Message)
    requires cl.read <= |cl.sent|
    ensures var cl' := cl.(sent := cl.sent + [f]);
      && Pipeline(cl', part) == Pipeline(cl, part) + [f]
      && Outstanding(cl') == Outstanding(cl) + Asks(f)
      && (OpenSeries(cl'.sent) <==> !Triggers(f) && (Extended(f) || OpenSeries(cl.sent)))
  {
    var cl' := cl.(sent := cl.sent + [f]);
    assert Unread(cl') == Unread(cl) + [f];
    assert cl'.sent[..|cl.sent|] == cl.sent;
    TriggerSnoc(cl.sent, f);
  }

  lemma SendKeepsSeries(ct: Contract, cl: Client, part: Option<Conn>, f: Message)
    requires cl.read <= |cl.sent| && MaySend(cl, f) && OneAtATime(ct, cl, part)
    ensures SeriesOk(ct, cl.(sent := cl.sent + [f]), part)
  {
    SendAppends(cl, part, f);
    SyncNextSnoc(OpenAt(ct, part), Pipeline(cl, part), f);
  }

  lemma SyncNextSnoc(open: bool, q: seq<Message>, f: Message)
    requires SyncNext(open, q) && (Triggers(f) && (open || HasExtended(q)) ==> IsSync(f))
    ensures SyncNext(open, q + [f]) && (HasExtended(q + [f]) ==> Extended(f) || HasExtended(q))
  {
    var all := q + [f];
    assert all[|q|] == f && forall i :: 0 <= i < |q| ==> all[i] == q[i];
    forall i, j | 0 <= i < j < |all| && Extended(all[i]) && Triggers(all[j])
      ensures IsSync(all[j])
    {
      assert HasExtended(q) by { assert Extended(q[i]); }
    }
  }

  lemma SendKeepsPace(outstanding: int, q: seq<Message>, f: Message, flying: nat)
    requires Paced(outstanding, q, flying) && (outstanding == 0 || Late(f))
    ensures Paced(outstanding + Asks(f), q + [f], flying)
  {
    TriggerSnoc(q, f);
    if outstanding == 0 {
      forall i | 0 <= i < |q|
        ensures !Triggers(q[i])
      {
        NoTriggerIn(q, i);
      }
    }
  }

  lemma {:induction false} NoTriggerIn(q: seq<Message>, i: nat)
    requires TriggerCount(q) == 0 && i < |q|
    ensures !Triggers(q[i])
  {
    if i < |q| - 1 {
      NoTriggerIn(q[..|q| - 1], i);
    }
  }

  // ---------------------------------------------------------------------------------------------
  // The invariant of half-duplex runs

  function ConnOf(w: World, c: ClientId): Option<Conn>
    requires c in w.clients
  {
    var held := Holds(w.clients[c].pc);
    if held.Some? && held.value in w.conns then Some(w.conns[held.value]) else None
  }

  /** A connection can always get back to the state its startup left it in. */
  ghost predicate HomeOk(srv: Server, ct: Contract, conn: Conn) {
    && conn.startup == ct.startups(conn.key.user, conn.key.database)
    && ct.home(conn.back) == srv.boot(conn.key.shard, conn.startup)
  }

  ghost predicate Disciplined(srv: Server, ct: Contract, w: World) {
    && w.cfg.reset.Some? && !w.cfg.mode.SessionMode?
    && SessionsOk(ct, w) && PooledOk(ct, w) && HomesOk(srv, ct, w.conns)
  }

  ghost predicate SessionsOk(ct: Contract, w: World)
    requires w.cfg.reset.Some?
  {
    forall c :: c in w.clients ==> SessionOk(ct, w.cfg.reset.value, w.clients[c], ConnOf(w, c))
  }

  ghost predicate PooledOk(ct: Contract, w: World) {
    forall k :: k in w.idle && k in w.conns ==> Pristine(ct, w.conns[k]) && Accounted(ct, w.conns[k])
  }

  ghost predicate HomesOk(srv: Server, ct: Contract, conns: map<ConnId, Conn>) {
    forall k :: k in conns ==> HomeOk(srv, ct, conns[k])
  }

  /** Only `c` and its connection `k` have changed, and nobody else holds `k`. */
  lemma MoveSessions(ct: Contract, w: World, w': World, c: ClientId, k: ConnId, cl: Client, conn: Conn)
    requires w.cfg.reset.Some? && w'.cfg == w.cfg && SessionsOk(ct, w)
    requires forall d :: d != c ==> !PoolSafety.HeldBy(w, d, k)
    requires w'.clients == w.clients[c := cl] && w'.conns == w.conns[k := conn]
    requires SessionOk(ct, w.cfg.reset.value, cl, ConnOf(w', c))
    ensures SessionsOk(ct, w')
  {
    forall d | d in w'.clients
      ensures SessionOk(ct, w.cfg.reset.value, w'.clients[d], ConnOf(w', d))
    {
      if d != c {
        assert !PoolSafety.HeldBy(w, d, k);
        assert ConnOf(w', d) == ConnOf(w, d);
      }
    }
  }

  lemma MovePooled(ct: Contract, w: World, w': World, k: ConnId, conn: Conn)
    requires PooledOk(ct, w) && w'.conns == w.conns[k := conn] && w'.idle <= w.idle + {k}
    requires k in w'.idle ==> Pristine(ct, conn) && Accounted(ct, conn)
    ensures PooledOk(ct, w')
  {
  }

  lemma LeaseKeepsDiscipline(srv: Server, ct: Contract, w: World, step: Step)
    requires (step.Dial? || step.Reuse?) && Enabled(w, step) && PoolSafety.PoolInv(w)
    requires Disciplined(srv, ct, w) && Honest(srv, ct, w.cfg.reset.value)
    ensures Disciplined(srv, ct, Apply(srv, w, step))
  {
    var w', cl := Apply(srv, w, step), w.clients[step.c];
    PoolSafety.LeaseNext(w.cfg, cl.pc, step.k);
    assert SessionOk(ct, w.cfg.reset.value, cl, ConnOf(w, step.c));
    LeasedConnOk(srv, ct, w, step);
    LeaseKeepsSession(w.cfg, ct, w.cfg.reset.value, step.c, cl, w'.conns[step.k], step.k);
    MoveLessee(srv, ct, w, w', step.c, step.k, w'.clients[step.c], w'.conns[step.k]);
  }

  /** What a lease hands out, dialled or reused. */
  lemma LeasedConnOk(srv: Server, ct: Contract, w: World, step: Step)
    requires (step.Dial? || step.Reuse?) && Enabled(w, step)
    requires Disciplined(srv, ct, w) && Honest(srv, ct, w.cfg.reset.value)
    ensures var conn := Apply(srv, w, step).conns[step.k];
      HomeOk(srv, ct, conn) && Pristine(ct, conn) && Accounted(ct, conn)
  {
    var cl := w.clients[step.c];
    assert SessionOk(ct, w.cfg.reset.value, cl, ConnOf(w, step.c));
    assert BootOk(srv, ct, step.shard, cl.startup);
  }

  /** `c`, holding nothing, becomes `cl` and takes `k` as `conn`. */
  lemma MoveLessee(srv: Server, ct: Contract, w: World, w': World, c: ClientId, k: ConnId, cl: Client, conn: Conn)
    requires PoolSafety.PoolInv(w) && Disciplined(srv, ct, w) && w'.cfg == w.cfg && c in w.clients
    requires (k in w.conns ==> k in w.idle && w.conns[k] == conn) && Holds(cl.pc) == Some(k)
    requires w'.clients == w.clients[c := cl] && w'.conns == w.conns[k := conn] && w'.idle <= w.idle
    requires SessionOk(ct, w.cfg.reset.value, cl, Some(conn)) && HomeOk(srv, ct, conn)
    requires k !in w'.idle
    ensures Disciplined(srv, ct, w')
  {
    assert forall d :: !PoolSafety.HeldBy(w, d, k);
    MoveSessions(ct, w, w', c, k, cl, conn);
    MovePooled(ct, w, w', k, conn);
  }

  /** `c`, holding `k`, becomes `cl` with the connection as `conn`, which it may have checked in. */
  lemma MoveHolder(srv: Server, ct: Contract, w: World, w': World, c: ClientId, k: ConnId, cl: Client, conn: Conn)
    requires PoolSafety.PoolInv(w) && Disciplined(srv, ct, w) && w'.cfg == w.cfg
    requires PoolSafety.HeldBy(w, c, k) && k in w.conns
    requires w'.clients == w.clients[c := cl] && w'.conns == w.conns[k := conn]
    requires Holds(cl.pc) == Some(k) || Holds(cl.pc).None?
    requires SessionOk(ct, w.cfg.reset.value, cl, if Holds(cl.pc).None? then None else Some(conn))
    requires HomeOk(srv, ct, conn)
    requires w'.idle == w.idle || (w'.idle == w.idle + {k} && Pristine(ct, conn) && Accounted(ct, conn))
    ensures Disciplined(srv, ct, w')
  {
    assert forall d :: d != c ==> !PoolSafety.HeldBy(w, d, k);
    MoveSessions(ct, w, w', c, k, cl, conn);
    MovePooled(ct, w, w', k, conn);
  }

  lemma HoldingActKeeps(srv: Server, ct: Contract, w: World, w': World, c: ClientId, ev: Event, k: ConnId)
    requires CanAct(w, c, ev) && PoolSafety.PoolInv(w) && Disciplined(srv, ct, w) && w'.cfg == w.cfg
    requires Holds(w.clients[c].pc) == Some(k)
    requires w'.clients == w.clients[c := ClientAfter(w.clients[c], Next(w.cfg, w.clients[c].pc, ev).value, ev)]
    requires w'.conns == w.conns[k := ConnAfter(w.conns[k], c, ev)]
    requires w'.idle == if ev.Checkin? then w.idle + {k} else w.idle
    ensures Disciplined(srv, ct, w')
  {
    var cl, conn := w.clients[c], w.conns[k];
    BackendReadsNeedLease(w.cfg, cl.pc, ev);
    assert PoolSafety.HeldBy(w, c, k) && ConnOf(w, c) == Some(conn) && HomeOk(srv, ct, conn);
    HolderActs(w.cfg, ct, w.cfg.reset.value, c, cl, conn, k, ev);
    MoveHolder(srv, ct, w, w', c, k, w'.clients[c], w'.conns[k]);
  }

  /** The holder and its connection after an action, and what it may check in. */
  lemma HolderActs(cfg: Config, ct: Contract, reset: Message, c: ClientId, cl: Client, conn: Conn, k: ConnId, ev: Event)
    requires Next(cfg, cl.pc, ev).Some? && !ev.Lease? && cfg.reset == Some(reset) && !cfg.mode.SessionMode?
    requires SessionOk(ct, reset, cl, Some(conn)) && Holds(cl.pc) == Some(k)
    requires ev.ReadClient? ==> cl.read < |cl.sent| && cl.sent[cl.read] == ev.f
    requires ev.ReadBackend? || ev.PassDown? || ev.ReadReset? ==> conn.fromBackend != [] && conn.fromBackend[0] == ev.m
    ensures var cl', conn' := ClientAfter(cl, Next(cfg, cl.pc, ev).value, ev), ConnAfter(conn, c, ev);
      && (Holds(cl'.pc) == Some(k) || Holds(cl'.pc).None?)
      && SessionOk(ct, reset, cl', if Holds(cl'.pc).None? then None else Some(conn'))
      && (ev.Checkin? ==> Pristine(ct, conn') && Accounted(ct, conn'))
  {
    PoolSafety.ActNext(cfg, cl.pc, ev);
    ActKeepsSession(cfg, ct, reset, c, cl, Some(conn), ev);
    InHandIsResettable(ct, reset, cl, conn);
    ActKeepsConn(cfg, ct, reset, c, cl.pc, conn, ev);
  }

  lemma FreeActKeeps(srv: Server, ct: Contract, w: World, w': World, c: ClientId, ev: Event)
    requires CanAct(w, c, ev) && PoolSafety.PoolInv(w) && Disciplined(srv, ct, w) && w'.cfg == w.cfg
    requires Holds(w.clients[c].pc).None?
    requires w'.clients == w.clients[c := ClientAfter(w.clients[c], Next(w.cfg, w.clients[c].pc, ev).value, ev)]
    requires w'.conns == w.conns && w'.idle == w.idle
    ensures Disciplined(srv, ct, w')
  {
    var cl := w.clients[c];
    PoolSafety.ActNext(w.cfg, cl.pc, ev);
    BackendReadsNeedLease(w.cfg, cl.pc, ev);
    ActKeepsSession(w.cfg, ct, w.cfg.reset.value, c, cl, None, ev);
    MoveClient(srv, ct, w, w', c, w'.clients[c], None);
  }

  lemma ActKeepsDiscipline(srv: Server, ct: Contract, w: World, c: ClientId, ev: Event)
    requires CanAct(w, c, ev) && PoolSafety.PoolInv(w) && Disciplined(srv, ct, w)
    ensures Disciplined(srv, ct, DoAct(w, c, ev))
  {
    var w' := DoAct(w, c, ev);
    if Holds(w.clients[c].pc).Some? {
      HoldingActKeeps(srv, ct, w, w', c, ev, Holds(w.clients[c].pc).value);
    } else {
      FreeActKeeps(srv, ct, w, w', c, ev);
    }
  }

  lemma BackendReadsNeedLease(cfg: Config, pc: Pc, ev: Event)
    requires Next(cfg, pc, ev).Some?
    ensures ev.ReadBackend? || ev.ReadReset? ==> Holds(pc) == Some(ev.k)
  {
  }

  lemma ServeKeepsDiscipline(srv: Server, ct: Contract, w: World, k: ConnId)
    requires Enabled(w, Serve(k)) && PoolSafety.PoolInv(w)
    requires Disciplined(srv, ct, w) && Honest(srv, ct, w.cfg.reset.value)
    ensures Disciplined(srv, ct, Apply(srv, w, Serve(k)))
  {
    var w', reset := Apply(srv, w, Serve(k)), w.cfg.reset.value;
    var db := w.dbs[w.conns[k].key.shard];
    assert RunOk(srv, ct, w.conns[k].back, db, w.conns[k].toBackend[0]);
    forall c | c in w.clients && Holds(w.clients[c].pc) == Some(k)
      ensures SessionOk(ct, reset, w.clients[c], Some(w'.conns[k]))
    {
      assert ConnOf(w, c) == Some(w.conns[k]);
      ServeKeepsSession(srv, ct, reset, w.clients[c], w.conns[k], db);
    }
    ServeMoves(srv, ct, w, w', k, w'.conns[k]);
  }

  /** Only connection `k` has changed, and its holder, if any, is content. */
  lemma ServeMoves(srv: Server, ct: Contract, w: World, w': World, k: ConnId, conn: Conn)
    requires Disciplined(srv, ct, w) && w'.cfg == w.cfg && w'.clients == w.clients && w'.idle == w.idle
    requires k in w.conns && w'.conns == w.conns[k := conn] && HomeOk(srv, ct, conn)
    requires forall c :: c in w.clients && Holds(w.clients[c].pc) == Some(k) ==>
               SessionOk(ct, w.cfg.reset.value, w.clients[c], Some(conn))
    requires k in w.idle ==> Pristine(ct, conn) && Accounted(ct, conn)
    ensures Disciplined(srv, ct, w')
  {
    forall c | c in w'.clients
      ensures SessionOk(ct, w.cfg.reset.value, w'.clients[c], ConnOf(w', c))
    {
      if Holds(w.clients[c].pc) != Some(k) {
        assert ConnOf(w', c) == ConnOf(w, c);
      }
    }
    MovePooled(ct, w, w', k, conn);
  }

  lemma ClientStepKeepsDiscipline(srv: Server, ct: Contract, w: World, step: Step)
    requires (step.Join? || step.SendUp?) && Enabled(w, step) && Disciplined(srv, ct, w) && HalfDuplex(w, ct, step)
    ensures Disciplined(srv, ct, Apply(srv, w, step))
  {
    var c, w' := step.c, Apply(srv, w, step);
    if step.SendUp? {
      SendKeepsSession(ct, w.cfg.reset.value, w.clients[c], ConnOf(w, c), step.f);
      MoveClient(srv, ct, w, w', c, w'.clients[c], ConnOf(w, c));
    } else {
      NewSession(ct, w.cfg.reset.value, w'.clients[c]);
      MoveClient(srv, ct, w, w', c, w'.clients[c], None);
    }
  }

  /** `c`, new or known, becomes `cl`, and no connection changes. */
  lemma MoveClient(srv: Server, ct: Contract, w: World, w': World, c: ClientId, cl: Client, conn: Option<Conn>)
    requires Disciplined(srv, ct, w) && w'.cfg == w.cfg && w'.conns == w.conns && w'.idle == w.idle
    requires w'.clients == w.clients[c := cl] && ConnOf(w', c) == conn && SessionOk(ct, w.cfg.reset.value, cl, conn)
    ensures Disciplined(srv, ct, w')
  {
    assert forall d :: d in w.clients && d != c ==> ConnOf(w', d) == ConnOf(w, d);
  }

  lemma NewSession(ct: Contract, reset: Message, cl: Client)
    requires cl.pc == Start && cl.sent == [] && cl.read == 0 && cl.replies == []
    requires cl.startup == ct.startups(cl.user, cl.database)
    ensures SessionOk(ct, reset, cl, None)
  {
    assert Pipeline(cl, None) == [];
  }

  lemma StepKeepsDiscipline(srv: Server, ct: Contract, w: World, step: Step)
    requires Enabled(w, step) && PoolSafety.PoolInv(w) && HalfDuplex(w, ct, step)
    requires Disciplined(srv, ct, w) && Honest(srv, ct, w.cfg.reset.value)
    ensures Disciplined(srv, ct, Apply(srv, w, step))
  {
    match step
    case Dial(_, _, _) => LeaseKeepsDiscipline(srv, ct, w, step);
    case Reuse(_, _, _) => LeaseKeepsDiscipline(srv, ct, w, step);
    case Act(c, ev) => ActKeepsDiscipline(srv, ct, w, c, ev);
    case Serve(k) => ServeKeepsDiscipline(srv, ct, w, k);
    case Join(_, _, _, _) => ClientStepKeepsDiscipline(srv, ct, w, step);
    case SendUp(_, _) => ClientStepKeepsDiscipline(srv, ct, w, step);
    case Evict(_) =>
      assert forall d :: d in w.clients ==> ConnOf(Apply(srv, w, step), d) == ConnOf(w, d);
  }

  lemma {:induction false} RunKeepsDiscipline(srv: Server, ct: Contract, init: World, steps: seq<Step>)
    requires Initial(init) && init.cfg.reset.Some? && !init.cfg.mode.SessionMode?
    requires Honest(srv, ct, init.cfg.reset.value)
    requires Exec(srv, init, steps).Some? && HalfDuplexRun(srv, ct, init, steps)
    ensures Disciplined(srv, ct, Exec(srv, init, steps).value) && Exec(srv, init, steps).value.cfg == init.cfg
    decreases |steps|
  {
    PoolSafety.RunKeepsInv(srv, init, steps);
    if steps != [] {
      var before := steps[..|steps| - 1];
      RunKeepsDiscipline(srv, ct, init, before);
      PoolSafety.RunKeepsInv(srv, init, before);
      StepKeepsDiscipline(srv, ct, Exec(srv, init, before).value, steps[|steps| - 1]);
    }
  }

  /** With half-duplex clients a pooled connection owes nothing, has nothing in flight and is back in its
      post-startup state; and a session that has just leased one starts with silent wires, so the first
      ReadyForQuery it reads answers its own request. */
  lemma PooledConnectionsAreFresh(srv: Server, ct: Contract, init: World, steps: seq<Step>)
    requires Initial(init) && init.cfg.reset.Some? && !init.cfg.mode.SessionMode?
    requires Honest(srv, ct, init.cfg.reset.value)
    requires Exec(srv, init, steps).Some? && HalfDuplexRun(srv, ct, init, steps)
    ensures var w := Exec(srv, init, steps).value;
      forall k :: k in w.idle ==> k in w.conns && SameAsNew(srv, ct, w.conns[k])
    ensures var w := Exec(srv, init, steps).value;
      forall c, k :: PoolSafety.HeldBy(w, c, k) && w.clients[c].pc.Held? ==> k in w.conns && SameAsNew(srv, ct, w.conns[k])
  {
    RunKeepsDiscipline(srv, ct, init, steps);
    PoolSafety.RunKeepsInv(srv, init, steps);
  }

  ghost predicate SameAsNew(srv: Server, ct: Contract, conn: Conn) {
    && PoolSafety.Owed(conn.log) == 0
    && conn.toBackend == [] && conn.fromBackend == []
    && conn.back == srv.boot(conn.key.shard, ct.startups(conn.key.user, conn.key.database))
  }

  /** While a client converses, every ReadyForQuery on the wire to it answers a request of its own, and its
      connection owes at most the one request the client has outstanding. */
  lemma RepliesAnswerOwnRequests(srv: Server, ct: Contract, init: World, steps: seq<Step>, c: ClientId, k: ConnId)
    requires Initial(init) && init.cfg.reset.Some? && !init.cfg.mode.SessionMode?
    requires Honest(srv, ct, init.cfg.reset.value)
    requires Exec(srv, init, steps).Some? && HalfDuplexRun(srv, ct, init, steps)
    requires PoolSafety.HeldBy(Exec(srv, init, steps).value, c, k)
    requires Conversing(Exec(srv, init, steps).value.clients[c].pc)
    ensures var w := Exec(srv, init, steps).value;
      k in w.conns && 0 <= RfqCount(w.conns[k].fromBackend) <= PoolSafety.Owed(w.conns[k].log)
                   <= Outstanding(w.clients[c]) <= 1
  {
    RunKeepsDiscipline(srv, ct, init, steps);
    PoolSafety.RunKeepsInv(srv, init, steps);
    var w := Exec(srv, init, steps).value;
    var cl, conn := w.clients[c], w.conns[k];
    assert SessionOk(ct, w.cfg.reset.value, cl, ConnOf(w, c));
    TriggerConcat(conn.toBackend, Routing.InHand(cl.pc) + Unread(cl));
  }
}
