/** Reusing connections refines dialling a new one for every transaction.

    The simple system is the same step system with a policy: every lease dials, nothing is reset and
    nothing is ever checked in. Every half-duplex run of the pool has a run of the simple system in
    which each client has sent the same frames and received the same replies. */
module PoolRefinement {
  import opened Bytes
  import opened Session
  import opened PoolWorld
  import opened PoolDiscipline
  import PoolSafety
  import Routing
  import Codec

  /** A step of the simple system: nothing is reused, pooled or reset, and its backends say nothing unasked either. */
  predicate FreshStep(step: Step) {
    !step.Reuse? && !step.Emit? && (step.Act? ==> !step.ev.Checkin? && !step.ev.WriteReset?)
  }

  predicate FreshRun(steps: seq<Step>) {
    forall i :: 0 <= i < |steps| ==> FreshStep(steps[i])
  }

  /** The simple system starts where the pool does, with room for any number of connections and the
      ParameterStatus frames of every role already known. */
  ghost function FreshInit(init: World): World {
    init.(capacity := None, cached := iset u: string, d: string | true :: (u, d))
  }

  type Mates = map<ConnId, ConnId>

  ghost predicate Injective(m: Mates) {
    forall i, j :: i in m && j in m && m[i] == m[j] ==> i == j
  }

  /** The simple system's state for a session: same place in the conversation, on the mate of its connection.
      From the last reply to the end of the reset the mate is already gone, and probing needs none. */
  function Image(pc: Pc, m: Mates): Pc {
    match pc
    case Probe(_) => Start
    case AtIdle(_) => Release(true)
    case Drain(_) => Release(true)
    case Clean(_) => Release(true)
    case Discarding(k, keep) => if k in m then Discarding(m[k], keep) else Release(keep)
    case Held(k, f) => if k in m then Held(m[k], f) else Gone
    case Send(k, f) => if k in m then Send(m[k], f) else Gone
    case Relay(k) => if k in m then Relay(m[k]) else Gone
    case Deliver(k, msg) => if k in m then Deliver(m[k], msg) else Gone
    case Bye(k, f) => if k in m then Bye(m[k], f) else Gone
    case _ => pc
  }

  function ImageEvent(ev: Event, m: Mates): Event {
    match ev
    case SetSlot(k) => if k in m then SetSlot(m[k]) else ev
    case WriteBackend(k, f) => if k in m then WriteBackend(m[k], f) else ev
    case ReadBackend(k, msg) => if k in m then ReadBackend(m[k], msg) else ev
    case Discard(k) => if k in m then Discard(m[k]) else ev
    case _ => ev
  }

  /** The states in which a session's connection has a mate. */
  predicate NeedsMate(pc: Pc) {
    pc.Held? || pc.Send? || pc.Relay? || pc.Deliver? || pc.Bye?
  }

  predicate HasMate(pc: Pc, m: Mates) {
    && (NeedsMate(pc) ==> pc.k in m)
    && (pc.Probe? || pc.AtIdle? || pc.Drain? || pc.Clean? ==> pc.k !in m)
    && (pc.Discarding? && pc.k !in m ==> pc.keep)
  }

  /** The connection is between conversations: whatever its backend still handles changes no database. */
  predicate Quiet(ct: Contract, reset: Message, conn: Conn) {
    Settled(ct, conn.back)
    && forall i :: 0 <= i < |conn.toBackend| ==> IsCopy(conn.toBackend[i]) || conn.toBackend[i] == reset
  }

  ghost predicate ConnMatch(a: Conn, b: Conn) {
    a.key == b.key && a.toBackend == b.toBackend && a.fromBackend == b.fromBackend && a.back == b.back
  }

  predicate SameView(a: Client, b: Client) {
    && a.user == b.user && a.database == b.database && a.startup == b.startup
    && a.sent == b.sent && a.read == b.read && a.replies == b.replies
  }

  ghost predicate ClientMatch(a: Client, b: Client, m: Mates) {
    SameView(a, b) && b.pc == Image(a.pc, m) && HasMate(a.pc, m) && !Routing.SessionModeState(a.pc)
  }

  ghost predicate SettingsMatch(w: World, v: World) {
    && v.cfg == w.cfg && v.dbs == w.dbs && v.capacity.None? && v.idle == {}
    && w.cfg.reset.Some? && !w.cfg.mode.SessionMode?
    && (forall u, d :: (u, d) in v.cached)
  }

  ghost predicate ClientsMatch(w: World, v: World, m: Mates) {
    && v.clients.Keys == w.clients.Keys
    && forall c :: c in w.clients ==> ClientMatch(w.clients[c], v.clients[c], m)
  }

  ghost predicate ConnsMatch(ct: Contract, w: World, v: World, m: Mates)
    requires w.cfg.reset.Some?
  {
    && Injective(m)
    && (forall k :: k in m ==> k in w.conns && k !in w.idle && m[k] in v.conns && ConnMatch(w.conns[k], v.conns[m[k]]))
    && (forall k :: k in w.conns && k !in m ==> Quiet(ct, w.cfg.reset.value, w.conns[k]))
  }

  ghost predicate Matches(ct: Contract, w: World, v: World, m: Mates) {
    SettingsMatch(w, v) && ClientsMatch(w, v, m) && ConnsMatch(ct, w, v, m)
  }

  // ---------------------------------------------------------------------------------------------
  // The automaton under renaming

  /** The pool's own business after the last reply, invisible in the simple system. */
  predicate Hidden(pc: Pc, m: Mates) {
    pc.AtIdle? || pc.Drain? || pc.Clean? || (pc.Discarding? && pc.k !in m)
  }

  lemma HiddenNext(cfg: Config, pc: Pc, ev: Event, m: Mates)
    requires Next(cfg, pc, ev).Some? && Hidden(pc, m) && HasMate(pc, m) && !ev.Abort?
    ensures var pc' := Next(cfg, pc, ev).value;
      Image(pc', m) == Image(pc, m) == Release(true) && HasMate(pc', m) && !Routing.SessionModeState(pc')
      && (Holds(pc').Some? ==> Hidden(pc', m))
    ensures !ev.WriteClient? && !ev.LateFail? && !ev.ReadClient?
  {
  }

  /** Delivering an idle ReadyForQuery ends the conversation. */
  predicate EndsConversation(cfg: Config, pc: Pc, ev: Event) {
    pc.Deliver? && ev == WriteClient(pc.m) && IsRfq(pc.m) && RelayStatus(pc.m) == IDLE
  }

  lemma PlainNext(cfg: Config, pc: Pc, ev: Event, m: Mates)
    requires cfg.reset.Some? && !cfg.mode.SessionMode?
    requires Next(cfg, pc, ev).Some? && !ev.Lease? && HasMate(pc, m) && !Routing.SessionModeState(pc)
    requires !pc.Probe? && (Hidden(pc, m) ==> ev.Abort?) && !EndsConversation(cfg, pc, ev)
    ensures Next(cfg, Image(pc, m), ImageEvent(ev, m)) == Some(Image(Next(cfg, pc, ev).value, m))
    ensures HasMate(Next(cfg, pc, ev).value, m) && !Routing.SessionModeState(Next(cfg, pc, ev).value)
  {
  }

  lemma PlainFacts(cfg: Config, pc: Pc, ev: Event, m: Mates)
    requires cfg.reset.Some? && !cfg.mode.SessionMode?
    requires Next(cfg, pc, ev).Some? && !ev.Lease? && HasMate(pc, m) && !Routing.SessionModeState(pc)
    requires !pc.Probe? && (Hidden(pc, m) ==> ev.Abort?)
    ensures !ev.Checkin? && !ev.WriteReset? && !ev.ReadReset? && !ev.PassUp? && !ev.PassDown?
    ensures Holds(Image(pc, m)) == if Holds(pc).Some? && Holds(pc).value in m then Some(m[Holds(pc).value]) else None
    ensures !Hidden(pc, m) && Holds(pc).Some? ==> Holds(pc).value in m
  {
  }

  // ---------------------------------------------------------------------------------------------
  // Simulation, one step of the pool at a time

  lemma {:induction false} Unused(s: set<nat>) returns (n: nat)
    ensures forall i :: i in s ==> i < n
    ensures n !in s
  {
    if s == {} {
      n := 0;
    } else {
      var x :| x in s;
      n := Unused(s - {x});
      n := if n > x then n else x + 1;
      assert forall i :: i in s ==> i == x || i in s - {x};
    }
  }

  lemma ImageFrame(pc: Pc, m: Mates, m': Mates, k: ConnId)
    requires Holds(pc) != Some(k)
    requires forall j :: j != k ==> (j in m <==> j in m') && (j in m ==> m'[j] == m[j])
    ensures Image(pc, m') == Image(pc, m) && (HasMate(pc, m') <==> HasMate(pc, m))
  {
  }

  predicate AgreeBut(m: Mates, m': Mates, k: ConnId) {
    m - {k} == m' - {k}
  }

  lemma MoveClients(w: World, v: World, m: Mates, w': World, v': World, m': Mates, c: ClientId, k: ConnId,
                    a: Client, b: Client)
    requires ClientsMatch(w, v, m) && c in w.clients
    requires forall d :: d != c ==> !PoolSafety.HeldBy(w, d, k)
    requires w'.clients == w.clients[c := a] && v'.clients == v.clients[c := b]
    requires ClientMatch(a, b, m') && AgreeBut(m, m', k)
    ensures ClientsMatch(w', v', m')
  {
    forall d | d in w'.clients
      ensures ClientMatch(w'.clients[d], v'.clients[d], m')
    {
      if d != c {
        assert !PoolSafety.HeldBy(w, d, k);
        forall j | j != k
          ensures (j in m <==> j in m') && (j in m ==> m'[j] == m[j])
        {
          assert j in m <==> j in m - {k};
          assert j in m' <==> j in m' - {k};
        }
        ImageFrame(w.clients[d].pc, m, m', k);
      }
    }
  }

  /** Connection `k` and its mate move together. */
  lemma MoveConns(ct: Contract, w: World, v: World, m: Mates, w': World, v': World, m': Mates, k: ConnId)
    requires w.cfg.reset.Some? && w'.cfg == w.cfg && ConnsMatch(ct, w, v, m)
    requires w'.conns.Keys <= w.conns.Keys + {k} && w.conns.Keys <= w'.conns.Keys
    requires forall j :: j in w.conns && j != k ==> w'.conns[j] == w.conns[j]
    requires AgreeBut(m, m', k)
    requires forall j :: j in m && j != k ==> m[j] in v'.conns && v'.conns[m[j]] == v.conns[m[j]] && j !in w'.idle
    requires k in m' ==> k in w'.conns && k !in w'.idle && m'[k] in v'.conns && ConnMatch(w'.conns[k], v'.conns[m'[k]])
    requires k in m' ==> forall j :: j in m && j != k ==> m[j] != m'[k]
    requires k !in m' && k in w'.conns ==> Quiet(ct, w.cfg.reset.value, w'.conns[k])
    ensures ConnsMatch(ct, w', v', m')
  {
    forall j | j != k
      ensures (j in m <==> j in m') && (j in m ==> m'[j] == m[j])
    {
      assert j in m <==> j in m - {k};
      assert j in m' <==> j in m' - {k};
    }
  }

  /** A mated connection and its mate change alike. */
  lemma MovePair(ct: Contract, w: World, v: World, m: Mates, w': World, v': World, k: ConnId, a: Conn, b: Conn)
    requires w.cfg.reset.Some? && w'.cfg == w.cfg && ConnsMatch(ct, w, v, m) && k in m && ConnMatch(a, b)
    requires w'.conns == w.conns[k := a] && v'.conns == v.conns[m[k] := b] && w'.idle == w.idle
    ensures ConnsMatch(ct, w', v', m)
  {
    MoveConns(ct, w, v, m, w', v', m, k);
  }

  /** A connection without a mate changes alone, and stays quiet. */
  lemma MoveAlone(ct: Contract, w: World, v: World, m: Mates, w': World, v': World, k: ConnId, a: Conn)
    requires w.cfg.reset.Some? && w'.cfg == w.cfg && ConnsMatch(ct, w, v, m) && k !in m
    requires Quiet(ct, w.cfg.reset.value, a)
    requires w'.conns == w.conns[k := a] && v'.conns == v.conns && w'.idle <= w.idle + {k}
    ensures ConnsMatch(ct, w', v', m)
  {
    MoveConns(ct, w, v, m, w', v', m, k);
  }

  lemma PlainEnabled(ct: Contract, w: World, v: World, m: Mates, c: ClientId, ev: Event)
    requires Matches(ct, w, v, m) && CanAct(w, c, ev)
    requires !w.clients[c].pc.Probe? && (Hidden(w.clients[c].pc, m) ==> ev.Abort?)
    requires !EndsConversation(w.cfg, w.clients[c].pc, ev)
    ensures CanAct(v, c, ImageEvent(ev, m)) && FreshStep(Act(c, ImageEvent(ev, m)))
  {
    PlainNext(w.cfg, w.clients[c].pc, ev, m);
    PlainFacts(w.cfg, w.clients[c].pc, ev, m);
    BackendReadsNeedLease(w.cfg, w.clients[c].pc, ev);
    assert ClientMatch(w.clients[c], v.clients[c], m);
    PlainInput(ct, w, v, m, c, ev);
    PlainCan(w, v, m, c, ev);
  }

  lemma PlainCan(w: World, v: World, m: Mates, c: ClientId, ev: Event)
    requires v.cfg == w.cfg && c in w.clients && c in v.clients && v.clients[c].pc == Image(w.clients[c].pc, m) && !ev.Lease?
    requires Next(v.cfg, v.clients[c].pc, ImageEvent(ev, m)).Some? && InputReady(v, v.clients[c], ImageEvent(ev, m))
    requires Holds(v.clients[c].pc).Some? ==> Holds(v.clients[c].pc).value in v.conns
    requires !ev.Checkin? && !ev.WriteReset?
    ensures CanAct(v, c, ImageEvent(ev, m)) && FreshStep(Act(c, ImageEvent(ev, m)))
  {
  }

  /** What an action reads is there in the simple system too. */
  lemma PlainInput(ct: Contract, w: World, v: World, m: Mates, c: ClientId, ev: Event)
    requires SettingsMatch(w, v) && ConnsMatch(ct, w, v, m) && c in w.clients && c in v.clients
    requires SameView(w.clients[c], v.clients[c]) && InputReady(w, w.clients[c], ev)
    requires !ev.ReadReset? && !ev.PassDown? && (ev.ReadBackend? ==> ev.k in m)
    ensures InputReady(v, v.clients[c], ImageEvent(ev, m))
  {
  }

  lemma PlainClient(cfg: Config, a: Client, b: Client, m: Mates, ev: Event)
    requires cfg.reset.Some? && !cfg.mode.SessionMode? && ClientMatch(a, b, m)
    requires Next(cfg, a.pc, ev).Some? && !ev.Lease?
    requires !a.pc.Probe? && (Hidden(a.pc, m) ==> ev.Abort?) && !EndsConversation(cfg, a.pc, ev)
    ensures Next(cfg, b.pc, ImageEvent(ev, m)).Some?
    ensures ClientMatch(ClientAfter(a, Next(cfg, a.pc, ev).value, ev),
                        ClientAfter(b, Next(cfg, b.pc, ImageEvent(ev, m)).value, ImageEvent(ev, m)), m)
  {
    PlainNext(cfg, a.pc, ev, m);
    PlainFacts(cfg, a.pc, ev, m);
  }

  lemma PlainConn(c: ClientId, a: Conn, b: Conn, m: Mates, ev: Event)
    requires ConnMatch(a, b)
    ensures ConnMatch(ConnAfter(a, c, ev), ConnAfter(b, c, ImageEvent(ev, m)))
  {
  }

  lemma AbortConn(ct: Contract, reset: Message, c: ClientId, conn: Conn)
    requires Quiet(ct, reset, conn)
    ensures Quiet(ct, reset, ConnAfter(conn, c, Abort))
  {
    assert conn.toBackend + [] == conn.toBackend;
  }

  /** One client changes on either side, and the mates stay as they are. */
  lemma SameMates(w: World, v: World, m: Mates, w': World, v': World, c: ClientId, a: Client, b: Client)
    requires ClientsMatch(w, v, m) && ClientMatch(a, b, m)
    requires w'.clients == w.clients[c := a] && v'.clients == v.clients[c := b]
    ensures ClientsMatch(w', v', m)
  {
  }

  lemma FreeMatches(ct: Contract, w: World, v: World, m: Mates, w': World, v': World, c: ClientId, a: Client, b: Client)
    requires Matches(ct, w, v, m) && c in w.clients && ClientMatch(a, b, m)
    requires FreeMove(w, w', c, a) && FreeMove(v, v', c, b)
    ensures Matches(ct, w', v', m)
  {
    SameMates(w, v, m, w', v', c, a, b);
  }

  /** A session and its connection act, and their images act alike. */
  lemma PairMatches(ct: Contract, w: World, v: World, m: Mates, w': World, v': World, c: ClientId, a: Client, b: Client,
                    k: ConnId, conn: Conn, mate: Conn, ev: Event, ev': Event)
    requires Matches(ct, w, v, m) && c in w.clients && ClientMatch(a, b, m) && k in m && ConnMatch(conn, mate)
    requires HolderMove(w, w', c, a, k, conn, ev) && HolderMove(v, v', c, b, m[k], mate, ev') && !ev.Checkin? && !ev'.Checkin?
    ensures Matches(ct, w', v', m)
  {
    SameMates(w, v, m, w', v', c, a, b);
    MovePair(ct, w, v, m, w', v', k, conn, mate);
  }

  /** A session acts on a connection without a mate, which stays quiet; its image acts on no connection. */
  lemma AloneMatches(ct: Contract, w: World, v: World, m: Mates, w': World, v': World, c: ClientId, a: Client, b: Client,
                     k: ConnId, conn: Conn, ev: Event)
    requires Matches(ct, w, v, m) && c in w.clients && ClientMatch(a, b, m) && k !in m && Quiet(ct, w.cfg.reset.value, conn)
    requires HolderMove(w, w', c, a, k, conn, ev) && FreeMove(v, v', c, b)
    ensures Matches(ct, w', v', m)
  {
    SameMates(w, v, m, w', v', c, a, b);
    MoveAlone(ct, w, v, m, w', v', k, conn);
  }

  /** An action both systems take. */
  lemma SimPlain(ct: Contract, w: World, v: World, m: Mates, c: ClientId, ev: Event)
    requires Matches(ct, w, v, m) && CanAct(w, c, ev)
    requires !w.clients[c].pc.Probe? && (Hidden(w.clients[c].pc, m) ==> ev.Abort?)
    requires !EndsConversation(w.cfg, w.clients[c].pc, ev)
    ensures CanAct(v, c, ImageEvent(ev, m)) && FreshStep(Act(c, ImageEvent(ev, m)))
    ensures Matches(ct, DoAct(w, c, ev), DoAct(v, c, ImageEvent(ev, m)), m)
  {
    PlainEnabled(ct, w, v, m, c, ev);
    var ev' := ImageEvent(ev, m);
    var w', v', pc := DoAct(w, c, ev), DoAct(v, c, ev'), w.clients[c].pc;
    DoActIs(w, c, ev);
    DoActIs(v, c, ev');
    PlainFacts(w.cfg, pc, ev, m);
    PlainClient(w.cfg, w.clients[c], v.clients[c], m, ev);
    if Holds(pc).None? {
      FreeMatches(ct, w, v, m, w', v', c, w'.clients[c], v'.clients[c]);
    } else {
      var k := Holds(pc).value;
      if k in m {
        PlainConn(c, w.conns[k], v.conns[m[k]], m, ev);
        PairMatches(ct, w, v, m, w', v', c, w'.clients[c], v'.clients[c], k, w'.conns[k], v'.conns[m[k]], ev, ev');
      } else {
        AbortConn(ct, w.cfg.reset.value, c, w.conns[k]);
        AloneMatches(ct, w, v, m, w', v', c, w'.clients[c], v'.clients[c], k, w'.conns[k], ev);
      }
    }
  }

  // ---------------------------------------------------------------------------------------------
  // The pool's own business: the simple system stands still

  lemma QuietConn(cfg: Config, ct: Contract, reset: Message, c: ClientId, conn: Conn, pc: Pc, ev: Event, m: Mates)
    requires Next(cfg, pc, ev).Some? && Hidden(pc, m) && HasMate(pc, m) && cfg.reset == Some(reset)
    requires Quiet(ct, reset, conn)
    ensures Quiet(ct, reset, ConnAfter(conn, c, ev))
  {
    assert !ev.WriteBackend? && !ev.PassUp?;
  }

  lemma HiddenClient(cfg: Config, a: Client, b: Client, m: Mates, ev: Event)
    requires ClientMatch(a, b, m) && Next(cfg, a.pc, ev).Some? && Hidden(a.pc, m) && !ev.Abort?
    ensures ClientMatch(ClientAfter(a, Next(cfg, a.pc, ev).value, ev), b, m)
  {
    HiddenNext(cfg, a.pc, ev, m);
    assert !ev.PassUp? && !ev.PassDown?;
  }

  lemma SimHidden(ct: Contract, w: World, v: World, m: Mates, c: ClientId, ev: Event)
    requires Matches(ct, w, v, m) && CanAct(w, c, ev)
    requires Hidden(w.clients[c].pc, m) && !ev.Abort?
    ensures Matches(ct, DoAct(w, c, ev), v, m)
  {
    var pc, k, w' := w.clients[c].pc, w.clients[c].pc.k, DoAct(w, c, ev);
    assert ClientMatch(w.clients[c], v.clients[c], m);
    DoActIs(w, c, ev);
    HiddenClient(w.cfg, w.clients[c], v.clients[c], m, ev);
    QuietConn(w.cfg, ct, w.cfg.reset.value, c, w.conns[k], pc, ev, m);
    Standing(v, c);
    AloneMatches(ct, w, v, m, w', v, c, w'.clients[c], v.clients[c], k, w'.conns[k], ev);
  }

  lemma Standing(v: World, c: ClientId)
    requires c in v.clients
    ensures FreeMove(v, v, c, v.clients[c])
  {
    assert v.clients[c := v.clients[c]] == v.clients;
  }

  /** Probing for ParameterStatus frames is a cache hit in the simple system. */
  function ProbeEvent(ev: Event): Event {
    if ev.Abort? then Abort else Cached
  }

  lemma ProbeClient(cfg: Config, a: Client, b: Client, m: Mates, ev: Event)
    requires ClientMatch(a, b, m) && a.pc.Probe? && Next(cfg, a.pc, ev).Some? && !cfg.mode.SessionMode?
    ensures Next(cfg, b.pc, ProbeEvent(ev)).Some? && (ev.Abort? || ev.Checkin?) && b.pc.Start?
    ensures ClientMatch(ClientAfter(a, Next(cfg, a.pc, ev).value, ev),
                        ClientAfter(b, Next(cfg, b.pc, ProbeEvent(ev)).value, ProbeEvent(ev)), m)
  {
  }

  lemma ProbeEnabled(w: World, v: World, c: ClientId, ev: Event)
    requires SettingsMatch(w, v) && c in v.clients && v.clients[c].pc.Start? && (ev.Abort? || ev.Checkin?)
    ensures CanAct(v, c, ProbeEvent(ev)) && FreshStep(Act(c, ProbeEvent(ev)))
  {
  }

  lemma SimProbe(ct: Contract, w: World, v: World, m: Mates, c: ClientId, ev: Event)
    requires Matches(ct, w, v, m) && CanAct(w, c, ev) && w.clients[c].pc.Probe?
    ensures CanAct(v, c, ProbeEvent(ev)) && FreshStep(Act(c, ProbeEvent(ev)))
    ensures Matches(ct, DoAct(w, c, ev), DoAct(v, c, ProbeEvent(ev)), m)
  {
    assert ClientMatch(w.clients[c], v.clients[c], m);
    ProbeClient(w.cfg, w.clients[c], v.clients[c], m, ev);
    ProbeEnabled(w, v, c, ev);
    var k, w', v' := w.clients[c].pc.k, DoAct(w, c, ev), DoAct(v, c, ProbeEvent(ev));
    DoActIs(w, c, ev);
    DoActIs(v, c, ProbeEvent(ev));
    ProbedConn(ct, w.cfg.reset.value, c, w.conns[k], ev);
    AloneMatches(ct, w, v, m, w', v', c, w'.clients[c], v'.clients[c], k, w'.conns[k], ev);
  }

  lemma ProbedConn(ct: Contract, reset: Message, c: ClientId, conn: Conn, ev: Event)
    requires Quiet(ct, reset, conn) && (ev.Abort? || ev.Checkin?)
    ensures Quiet(ct, reset, ConnAfter(conn, c, ev))
  {
    assert conn.toBackend + [] == conn.toBackend;
  }

  // ---------------------------------------------------------------------------------------------
  // The last reply of a conversation: the simple system gives up its connection

  lemma {:induction false} ExecAppend(srv: Server, init: World, a: seq<Step>, b: seq<Step>)
    requires Exec(srv, init, a).Some?
    ensures Exec(srv, init, a + b) == Exec(srv, Exec(srv, init, a).value, b)
    decreases |b|
  {
    if b == [] {
      assert a + b == a;
    } else {
      assert (a + b)[..|a + b| - 1] == a + b[..|b| - 1];
      ExecAppend(srv, init, a, b[..|b| - 1]);
    }
  }

  lemma OneStep(srv: Server, w: World, step: Step)
    requires Enabled(w, step)
    ensures Exec(srv, w, [step]) == Some(Apply(srv, w, step))
  {
    assert [step][..0] == [];
  }

  /** Only session `c` and connection `j` have changed. */
  ghost predicate Touched(v: World, v': World, c: ClientId, j: ConnId) {
    && v'.cfg == v.cfg && v'.dbs == v.dbs && v'.capacity == v.capacity && v'.idle == v.idle && v'.cached == v.cached
    && c in v'.clients && v'.clients == v.clients[c := v'.clients[c]]
    && j in v'.conns && v'.conns == v.conns[j := v'.conns[j]]
  }

  lemma TouchedAgain(v: World, v1: World, v2: World, c: ClientId, j: ConnId)
    requires Touched(v, v1, c, j) && Touched(v1, v2, c, j)
    ensures Touched(v, v2, c, j)
  {
  }

  /** An action that takes no input, of a session that holds `j`. */
  lemma TouchingAct(srv: Server, v: World, c: ClientId, j: ConnId, ev: Event, pc: Pc) returns (v': World)
    requires c in v.clients && Holds(v.clients[c].pc) == Some(j) && j in v.conns
    requires Next(v.cfg, v.clients[c].pc, ev) == Some(pc) && (ev.WriteClient? || ev.Fail? || ev.Discard?)
    ensures Exec(srv, v, [Act(c, ev)]) == Some(v') && Touched(v, v', c, j) && v'.clients[c].pc == pc
    ensures SameView(v'.clients[c], if ev.WriteClient? then v.clients[c].(replies := v.clients[c].replies + [ev.m]) else v.clients[c])
  {
    v' := DoAct(v, c, ev);
    OneStep(srv, v, Act(c, ev));
  }

  lemma ThreeSteps(srv: Server, v: World, v1: World, v2: World, v3: World, e1: Step, e2: Step, e3: Step)
    requires Exec(srv, v, [e1]) == Some(v1) && Exec(srv, v1, [e2]) == Some(v2) && Exec(srv, v2, [e3]) == Some(v3)
    requires FreshStep(e1) && FreshStep(e2) && FreshStep(e3)
    ensures Exec(srv, v, [e1, e2, e3]) == Some(v3) && FreshRun([e1, e2, e3])
  {
    ExecAppend(srv, v, [e1], [e2]);
    assert [e1] + [e2] == [e1, e2];
    ExecAppend(srv, v, [e1, e2], [e3]);
    assert [e1, e2] + [e3] == [e1, e2, e3];
  }

  lemma FailAndDiscard(srv: Server, v: World, c: ClientId, j: ConnId) returns (v1: World, v2: World)
    requires c in v.clients && v.clients[c].pc == AtIdle(j) && j in v.conns
    ensures Exec(srv, v, [Act(c, Fail)]) == Some(v1) && Exec(srv, v1, [Act(c, Discard(j))]) == Some(v2)
    ensures Touched(v, v1, c, j) && Touched(v1, v2, c, j) && v2.clients[c].pc == Release(true)
    ensures SameView(v1.clients[c], v.clients[c]) && SameView(v2.clients[c], v1.clients[c])
  {
    v1 := TouchingAct(srv, v, c, j, Fail, Discarding(j, true));
    v2 := TouchingAct(srv, v1, c, j, Discard(j), Release(true));
  }

  /** What becomes of the session and its connection. */
  ghost predicate GaveUp(v: World, v': World, c: ClientId, j: ConnId, msg: Message)
    requires c in v.clients
  {
    && Touched(v, v', c, j) && v'.clients[c].pc == Release(true)
    && SameView(v'.clients[c], v.clients[c].(replies := v.clients[c].replies + [msg]))
  }

  /** After the last reply, the simple system's session fails to reset and discards. */
  lemma GiveUp(srv: Server, v: World, c: ClientId, j: ConnId, msg: Message) returns (steps: seq<Step>, v3: World)
    requires c in v.clients && v.clients[c].pc == Deliver(j, msg) && j in v.conns && v.cfg.reset.Some?
    requires IsRfq(msg) && RelayStatus(msg) == IDLE
    ensures FreshRun(steps) && Exec(srv, v, steps) == Some(v3) && GaveUp(v, v3, c, j, msg)
  {
    var v1 := TouchingAct(srv, v, c, j, WriteClient(msg), AtIdle(j));
    var v2: World;
    v2, v3 := FailAndDiscard(srv, v1, c, j);
    steps := [Act(c, WriteClient(msg)), Act(c, Fail), Act(c, Discard(j))];
    ThreeSteps(srv, v, v1, v2, v3, Act(c, WriteClient(msg)), Act(c, Fail), Act(c, Discard(j)));
    GaveUpAfter(v, v1, v2, v3, c, j, msg);
  }

  lemma GaveUpAfter(v: World, v1: World, v2: World, v3: World, c: ClientId, j: ConnId, msg: Message)
    requires Touched(v, v1, c, j) && Touched(v1, v2, c, j) && Touched(v2, v3, c, j) && c in v.clients
    requires SameView(v1.clients[c], v.clients[c].(replies := v.clients[c].replies + [msg]))
    requires SameView(v2.clients[c], v1.clients[c]) && SameView(v3.clients[c], v2.clients[c])
    requires v3.clients[c].pc == Release(true)
    ensures GaveUp(v, v3, c, j, msg)
  {
    TouchedAgain(v, v1, v2, c, j);
    TouchedAgain(v, v2, v3, c, j);
  }

  /** The connection of a conversation that ends here is quiet, and its session's alone. */
  ghost predicate EndsQuietly(ct: Contract, w: World, c: ClientId, ev: Event)
    requires CanAct(w, c, ev) && w.cfg.reset.Some? && w.clients[c].pc.Deliver?
  {
    var k := w.clients[c].pc.k;
    && Quiet(ct, w.cfg.reset.value, ConnAfter(w.conns[k], c, ev))
    && forall d :: d != c ==> !PoolSafety.HeldBy(w, d, k)
  }

  lemma EndQuiet(srv: Server, ct: Contract, w: World, c: ClientId, ev: Event)
    requires PoolSafety.PoolInv(w) && Disciplined(srv, ct, w) && CanAct(w, c, ev)
    requires EndsConversation(w.cfg, w.clients[c].pc, ev)
    ensures EndsQuietly(ct, w, c, ev)
  {
    var conn := w.conns[w.clients[c].pc.k];
    assert PoolSafety.HeldBy(w, c, w.clients[c].pc.k);
    assert SessionOk(ct, w.cfg.reset.value, w.clients[c], ConnOf(w, c));
    IdleIsResettable(ct, w.clients[c], conn);
    assert conn.toBackend + [] == conn.toBackend;
  }

  /** The session lets go of the mate of `k`, whose connection is quiet from here on. */
  lemma EndMatches(ct: Contract, w: World, v: World, m: Mates, w': World, v': World, c: ClientId, a: Client, k: ConnId,
                   conn: Conn, ev: Event)
    requires Matches(ct, w, v, m) && PoolSafety.HeldBy(w, c, k) && k in m && !ev.Checkin?
    requires forall d :: d != c ==> !PoolSafety.HeldBy(w, d, k)
    requires HolderMove(w, w', c, a, k, conn, ev) && Quiet(ct, w.cfg.reset.value, conn)
    requires Touched(v, v', c, m[k]) && ClientMatch(a, v'.clients[c], m - {k})
    ensures Matches(ct, w', v', m - {k})
  {
    MoveClients(w, v, m, w', v', m - {k}, c, k, a, v'.clients[c]);
    EndConns(ct, w, v, m, w', v', k, conn);
  }

  lemma EndConns(ct: Contract, w: World, v: World, m: Mates, w': World, v': World, k: ConnId, conn: Conn)
    requires w.cfg.reset.Some? && w'.cfg == w.cfg && ConnsMatch(ct, w, v, m) && k in m
    requires w'.conns == w.conns[k := conn] && w'.idle == w.idle && Quiet(ct, w.cfg.reset.value, conn)
    requires m[k] in v'.conns && v'.conns == v.conns[m[k] := v'.conns[m[k]]]
    ensures ConnsMatch(ct, w', v', m - {k})
  {
    MoveConns(ct, w, v, m, w', v', m - {k}, k);
  }

  // ---------------------------------------------------------------------------------------------
  // Leasing

  /** What a lease does, whether it dials or reuses. */
  ghost predicate Leased(srv: Server, w: World, w': World, c: ClientId, k: ConnId, shard: string)
    requires CanLease(w, c, k)
  {
    var a := w.clients[c];
    && w'.cfg == w.cfg && w'.dbs == w.dbs && w'.capacity == w.capacity && w'.cached == w.cached
    && w'.clients == w.clients[c := LeasedBy(w, c, k)]
    && k in w'.conns && w'.conns == w.conns[k := w'.conns[k]] && w'.idle <= w.idle && k !in w'.idle
    && ConnMatch(w'.conns[k], Conn(Key(a.user, a.database, shard), a.startup, [], [], srv.boot(shard, a.startup), []))
  }

  lemma LeaseIs(srv: Server, ct: Contract, w: World, step: Step)
    requires (step.Dial? || step.Reuse?) && Enabled(w, step) && PoolSafety.PoolInv(w)
    requires Disciplined(srv, ct, w) && Honest(srv, ct, w.cfg.reset.value)
    ensures Leased(srv, w, Apply(srv, w, step), step.c, step.k, step.shard)
    ensures Quiet(ct, w.cfg.reset.value, Apply(srv, w, step).conns[step.k])
    ensures step.k !in w.conns || step.k in w.idle
    ensures forall d :: !PoolSafety.HeldBy(w, d, step.k)
  {
    var a := w.clients[step.c];
    assert BootOk(srv, ct, step.shard, a.startup);
    assert SessionOk(ct, w.cfg.reset.value, a, ConnOf(w, step.c));
    if step.Reuse? {
      assert HomeOk(srv, ct, w.conns[step.k]) && Pristine(ct, w.conns[step.k]);
    }
  }

  /** A connection leased only to probe: invisible. */
  lemma ProbeLeaseMatches(srv: Server, ct: Contract, w: World, v: World, m: Mates, w': World, c: ClientId, k: ConnId,
                          shard: string)
    requires Matches(ct, w, v, m) && CanLease(w, c, k) && w.clients[c].pc.Start?
    requires Leased(srv, w, w', c, k, shard) && Quiet(ct, w.cfg.reset.value, w'.conns[k])
    requires k !in w.conns || k in w.idle
    requires forall d :: !PoolSafety.HeldBy(w, d, k)
    ensures Matches(ct, w', v, m)
  {
    assert ClientMatch(w.clients[c], v.clients[c], m);
    assert v.clients == v.clients[c := v.clients[c]];
    MoveClients(w, v, m, w', v, m, c, k, w'.clients[c], v.clients[c]);
    MoveAlone(ct, w, v, m, w', v, k, w'.conns[k]);
  }

  lemma LeaseClient(w: World, v: World, m: Mates, c: ClientId, k: ConnId, j: ConnId)
    requires CanLease(w, c, k) && CanLease(v, c, j) && w.clients[c].pc.Want?
    requires ClientMatch(w.clients[c], v.clients[c], m)
    ensures ClientMatch(LeasedBy(w, c, k), LeasedBy(v, c, j), m[k := j])
  {
  }

  /** A lease to converse on: the simple system dials `j`. */
  lemma LeaseClientsMatch(srv: Server, ct: Contract, w: World, v: World, m: Mates, w': World, v': World, c: ClientId,
                          k: ConnId, j: ConnId, shard: string)
    requires Matches(ct, w, v, m) && CanLease(w, c, k) && CanLease(v, c, j) && w.clients[c].pc.Want?
    requires Leased(srv, w, w', c, k, shard) && Leased(srv, v, v', c, j, shard) && k !in m
    requires forall d :: !PoolSafety.HeldBy(w, d, k)
    ensures ClientsMatch(w', v', m[k := j])
  {
    assert ClientMatch(w.clients[c], v.clients[c], m);
    assert AgreeBut(m, m[k := j], k);
    LeaseClient(w, v, m, c, k, j);
    MoveClients(w, v, m, w', v', m[k := j], c, k, w'.clients[c], v'.clients[c]);
  }

  lemma LeaseConnsMatch(ct: Contract, w: World, v: World, m: Mates, w': World, v': World, k: ConnId, j: ConnId)
    requires w.cfg.reset.Some? && w'.cfg == w.cfg && ConnsMatch(ct, w, v, m) && k !in m && j !in v.conns
    requires k in w'.conns && w'.conns == w.conns[k := w'.conns[k]] && w'.idle <= w.idle && k !in w'.idle
    requires j in v'.conns && v'.conns == v.conns[j := v'.conns[j]] && ConnMatch(w'.conns[k], v'.conns[j])
    ensures ConnsMatch(ct, w', v', m[k := j])
  {
    assert AgreeBut(m, m[k := j], k);
    MoveConns(ct, w, v, m, w', v', m[k := j], k);
  }

  lemma DialIs(srv: Server, v: World, step: Step)
    requires step.Dial? && Enabled(v, step) && v.idle == {}
    ensures Leased(srv, v, Apply(srv, v, step), step.c, step.k, step.shard) && Apply(srv, v, step).idle == {}
  {
  }

  lemma LeasePc(w: World, c: ClientId, k: ConnId)
    requires CanLease(w, c, k) && !Routing.SessionModeState(w.clients[c].pc)
    ensures w.clients[c].pc.Start? || w.clients[c].pc.Want?
  {
  }

  // ---------------------------------------------------------------------------------------------
  // Servers and clients

  lemma QuietServed(srv: Server, ct: Contract, reset: Message, conn: Conn, db: Database)
    requires Honest(srv, ct, reset) && conn.toBackend != [] && Quiet(ct, reset, conn)
    ensures Quiet(ct, reset, Served(srv, conn, db)) && DbAfter(srv, conn, db) == db
  {
    assert RunOk(srv, ct, conn.back, db, conn.toBackend[0]) && ResetOk(srv, ct, reset, conn.back, db);
  }

  lemma SimServe(srv: Server, ct: Contract, w: World, v: World, m: Mates, k: ConnId)
    requires Enabled(w, Serve(k)) && Matches(ct, w, v, m) && Honest(srv, ct, w.cfg.reset.value)
    ensures var w' := Apply(srv, w, Serve(k));
      if k in m then Enabled(v, Serve(m[k])) && Matches(ct, w', Apply(srv, v, Serve(m[k])), m) else Matches(ct, w', v, m)
  {
    var w', conn := Apply(srv, w, Serve(k)), w.conns[k];
    if k in m {
      var v' := Apply(srv, v, Serve(m[k]));
      MovePair(ct, w, v, m, w', v', k, w'.conns[k], v'.conns[m[k]]);
    } else {
      QuietServed(srv, ct, w.cfg.reset.value, conn, w.dbs[conn.key.shard]);
      assert w'.dbs == w.dbs;
      MoveAlone(ct, w, v, m, w', v, k, w'.conns[k]);
    }
  }

  lemma SimClientStep(srv: Server, ct: Contract, w: World, v: World, m: Mates, step: Step)
    requires (step.Join? || step.SendUp?) && Enabled(w, step) && Matches(ct, w, v, m)
    ensures Enabled(v, step) && FreshStep(step) && Matches(ct, Apply(srv, w, step), Apply(srv, v, step), m)
  {
    var c, w', v' := step.c, Apply(srv, w, step), Apply(srv, v, step);
    assert step.SendUp? ==> ClientMatch(w.clients[c], v.clients[c], m);
    SameMates(w, v, m, w', v', c, w'.clients[c], v'.clients[c]);
  }

  // ---------------------------------------------------------------------------------------------
  // Runs

  ghost predicate Simulates(srv: Server, ct: Contract, w: World, v: World, simple: seq<Step>, m: Mates) {
    FreshRun(simple) && Exec(srv, v, simple).Some? && Matches(ct, w, Exec(srv, v, simple).value, m)
  }

  lemma SimByOne(srv: Server, ct: Contract, w': World, v: World, step: Step, m: Mates)
    requires Enabled(v, step) && FreshStep(step) && Matches(ct, w', Apply(srv, v, step), m)
    ensures Simulates(srv, ct, w', v, [step], m)
  {
    OneStep(srv, v, step);
  }

  lemma SimEnd(srv: Server, ct: Contract, w: World, v: World, m: Mates, c: ClientId, ev: Event)
    returns (simple: seq<Step>, m': Mates)
    requires Matches(ct, w, v, m) && CanAct(w, c, ev)
    requires EndsConversation(w.cfg, w.clients[c].pc, ev) && EndsQuietly(ct, w, c, ev)
    ensures Simulates(srv, ct, DoAct(w, c, ev), v, simple, m')
  {
    assert ClientMatch(w.clients[c], v.clients[c], m);
    var k, w' := w.clients[c].pc.k, DoAct(w, c, ev);
    DoActIs(w, c, ev);
    EndPc(w.cfg, w.clients[c].pc, ev);
    simple, m' := SimLastReply(srv, ct, w, v, m, w', c, w'.clients[c], k, w'.conns[k], ev);
  }

  lemma EndPc(cfg: Config, pc: Pc, ev: Event)
    requires EndsConversation(cfg, pc, ev) && cfg.reset.Some?
    ensures Next(cfg, pc, ev) == Some(AtIdle(pc.k))
  {
  }

  /** The last reply reaches the client, as `a`, and the simple system lets go of the mate of `k`. */
  lemma SimLastReply(srv: Server, ct: Contract, w: World, v: World, m: Mates, w': World, c: ClientId, a: Client, k: ConnId,
                     conn: Conn, ev: Event) returns (simple: seq<Step>, m': Mates)
    requires Matches(ct, w, v, m) && PoolSafety.HeldBy(w, c, k) && ev.WriteClient? && k in w.conns
    requires forall d :: d != c ==> !PoolSafety.HeldBy(w, d, k)
    requires w.clients[c].pc == Deliver(k, ev.m) && IsRfq(ev.m) && RelayStatus(ev.m) == IDLE
    requires HolderMove(w, w', c, a, k, conn, ev) && Quiet(ct, w.cfg.reset.value, conn)
    requires a == ClientAfter(w.clients[c], AtIdle(k), ev)
    ensures Simulates(srv, ct, w', v, simple, m')
  {
    assert ClientMatch(w.clients[c], v.clients[c], m);
    m' := m - {k};
    var v3: World;
    simple, v3 := GiveUp(srv, v, c, m[k], ev.m);
    EndClient(w.clients[c], v.clients[c], v3.clients[c], m, k, ev);
    EndMatches(ct, w, v, m, w', v3, c, a, k, conn, ev);
  }

  lemma EndClient(a: Client, b: Client, b': Client, m: Mates, k: ConnId, ev: Event)
    requires ClientMatch(a, b, m) && ev.WriteClient? && a.pc == Deliver(k, ev.m)
    requires b'.pc == Release(true) && SameView(b', b.(replies := b.replies + [ev.m]))
    ensures ClientMatch(ClientAfter(a, AtIdle(k), ev), b', m - {k})
  {
  }

  /** One session action is none, one or three actions of the simple system. */
  lemma SimAct(srv: Server, ct: Contract, w: World, v: World, m: Mates, c: ClientId, ev: Event)
    returns (simple: seq<Step>, m': Mates)
    requires CanAct(w, c, ev) && Matches(ct, w, v, m)
    requires EndsConversation(w.cfg, w.clients[c].pc, ev) ==> EndsQuietly(ct, w, c, ev)
    ensures Simulates(srv, ct, DoAct(w, c, ev), v, simple, m')
  {
    var pc := w.clients[c].pc;
    if EndsConversation(w.cfg, pc, ev) {
      simple, m' := SimEnd(srv, ct, w, v, m, c, ev);
      return;
    }
    m' := m;
    if pc.Probe? {
      SimProbe(ct, w, v, m, c, ev);
      simple := [Act(c, ProbeEvent(ev))];
      SimByOne(srv, ct, DoAct(w, c, ev), v, Act(c, ProbeEvent(ev)), m);
    } else if Hidden(pc, m) && !ev.Abort? {
      SimHidden(ct, w, v, m, c, ev);
      simple := [];
    } else {
      simple := SimVisible(srv, ct, w, v, m, c, ev);
    }
  }

  lemma SimVisible(srv: Server, ct: Contract, w: World, v: World, m: Mates, c: ClientId, ev: Event) returns (simple: seq<Step>)
    requires Matches(ct, w, v, m) && CanAct(w, c, ev)
    requires !w.clients[c].pc.Probe? && (Hidden(w.clients[c].pc, m) ==> ev.Abort?)
    requires !EndsConversation(w.cfg, w.clients[c].pc, ev)
    ensures Simulates(srv, ct, DoAct(w, c, ev), v, simple, m)
  {
    SimPlain(ct, w, v, m, c, ev);
    simple := [Act(c, ImageEvent(ev, m))];
    SimByOne(srv, ct, DoAct(w, c, ev), v, Act(c, ImageEvent(ev, m)), m);
  }

  /** A lease to converse on is a dial in the simple system. */
  lemma LeaseMatches(srv: Server, ct: Contract, w: World, v: World, m: Mates, w': World, v': World, c: ClientId, k: ConnId,
                     j: ConnId, shard: string)
    requires Matches(ct, w, v, m) && CanLease(w, c, k) && CanLease(v, c, j) && w.clients[c].pc.Want?
    requires Leased(srv, w, w', c, k, shard) && Leased(srv, v, v', c, j, shard) && v'.idle == {}
    requires k !in m && j !in v.conns && forall d :: !PoolSafety.HeldBy(w, d, k)
    ensures Matches(ct, w', v', m[k := j])
  {
    assert ClientMatch(w.clients[c], v.clients[c], m);
    LeaseClientsMatch(srv, ct, w, v, m, w', v', c, k, j, shard);
    LeaseConnsMatch(ct, w, v, m, w', v', k, j);
  }

  lemma DialEnabled(w: World, v: World, m: Mates, c: ClientId, k: ConnId, j: ConnId, shard: string)
    requires SettingsMatch(w, v) && c in w.clients && c in v.clients && ClientMatch(w.clients[c], v.clients[c], m)
    requires CanLease(w, c, k) && w.clients[c].pc.Want? && shard in w.dbs && j !in v.conns
    ensures CanLease(v, c, j) && Enabled(v, Dial(c, j, shard))
  {
  }

  lemma SimLease(srv: Server, ct: Contract, w: World, v: World, m: Mates, step: Step)
    returns (simple: seq<Step>, m': Mates)
    requires (step.Dial? || step.Reuse?) && Enabled(w, step) && PoolSafety.PoolInv(w) && Matches(ct, w, v, m)
    requires Disciplined(srv, ct, w) && Honest(srv, ct, w.cfg.reset.value)
    ensures Simulates(srv, ct, Apply(srv, w, step), v, simple, m')
  {
    var c, k := step.c, step.k;
    assert ClientMatch(w.clients[c], v.clients[c], m);
    LeasePc(w, c, k);
    LeaseIs(srv, ct, w, step);
    if w.clients[c].pc.Start? {
      ProbeLeaseMatches(srv, ct, w, v, m, Apply(srv, w, step), c, k, step.shard);
      simple, m' := [], m;
    } else {
      simple, m' := SimDial(srv, ct, w, v, m, Apply(srv, w, step), c, k, step.shard);
    }
  }

  lemma SimDial(srv: Server, ct: Contract, w: World, v: World, m: Mates, w': World, c: ClientId, k: ConnId, shard: string)
    returns (simple: seq<Step>, m': Mates)
    requires Matches(ct, w, v, m) && CanLease(w, c, k) && w.clients[c].pc.Want? && shard in w.dbs
    requires Leased(srv, w, w', c, k, shard) && (k !in w.conns || k in w.idle)
    requires forall d :: !PoolSafety.HeldBy(w, d, k)
    ensures Simulates(srv, ct, w', v, simple, m')
  {
    var j := Unused(v.conns.Keys);
    var dial := Dial(c, j, shard);
    assert ClientMatch(w.clients[c], v.clients[c], m);
    DialEnabled(w, v, m, c, k, j, shard);
    DialIs(srv, v, dial);
    assert k !in m;
    LeaseMatches(srv, ct, w, v, m, w', Apply(srv, v, dial), c, k, j, shard);
    simple, m' := [dial], m[k := j];
    SimByOne(srv, ct, w', v, dial, m');
  }

  /** One step of the pool, in the simple system. */
  lemma SimStep(srv: Server, ct: Contract, w: World, v: World, m: Mates, step: Step)
    returns (simple: seq<Step>, m': Mates)
    requires Enabled(w, step) && HalfDuplex(w, ct, step) && PoolSafety.PoolInv(w) && Matches(ct, w, v, m)
    requires Disciplined(srv, ct, w) && Honest(srv, ct, w.cfg.reset.value)
    ensures Simulates(srv, ct, Apply(srv, w, step), v, simple, m')
  {
    if step.Act? {
      if EndsConversation(w.cfg, w.clients[step.c].pc, step.ev) {
        EndQuiet(srv, ct, w, step.c, step.ev);
      }
      simple, m' := SimAct(srv, ct, w, v, m, step.c, step.ev);
    } else if step.Dial? || step.Reuse? {
      simple, m' := SimLease(srv, ct, w, v, m, step);
    } else if step.Serve? {
      SimServe(srv, ct, w, v, m, step.k);
      simple, m' := if step.k in m then [Serve(m[step.k])] else [], m;
      if step.k in m {
        SimByOne(srv, ct, Apply(srv, w, step), v, Serve(m[step.k]), m);
      }
    } else if step.Join? || step.SendUp? {
      SimClientStep(srv, ct, w, v, m, step);
      simple, m' := [step], m;
      SimByOne(srv, ct, Apply(srv, w, step), v, step, m);
    } else {
      simple, m' := [], m;
    }
  }

  lemma {:induction false} SimRun(srv: Server, ct: Contract, init: World, steps: seq<Step>)
    returns (simple: seq<Step>, m: Mates)
    requires Initial(init) && init.cfg.reset.Some? && !init.cfg.mode.SessionMode?
    requires Honest(srv, ct, init.cfg.reset.value)
    requires Exec(srv, init, steps).Some? && HalfDuplexRun(srv, ct, init, steps)
    ensures Simulates(srv, ct, Exec(srv, init, steps).value, FreshInit(init), simple, m)
    decreases |steps|
  {
    if steps == [] {
      simple, m := [], map[];
    } else {
      var before := steps[..|steps| - 1];
      var w := Exec(srv, init, before).value;
      var done, m0 := SimRun(srv, ct, init, before);
      RunKeepsDiscipline(srv, ct, init, before);
      PoolSafety.RunKeepsInv(srv, init, before);
      var v := Exec(srv, FreshInit(init), done).value;
      var more, m1 := SimStep(srv, ct, w, v, m0, steps[|steps| - 1]);
      ExecAppend(srv, FreshInit(init), done, more);
      simple, m := done + more, m1;
    }
  }

  /** Reuse refines fresh dialling. Whatever the half-duplex clients of a transaction or statement pool send, and
      however sessions, servers, failures and aborts interleave, a system that dials a new backend for every
      transaction, and never resets or reuses one, can have received the same frames, sent every client the
      same replies and left the same databases. */
  lemma ReuseRefinesFreshDialling(srv: Server, ct: Contract, init: World, steps: seq<Step>) returns (simple: seq<Step>)
    requires Initial(init) && init.cfg.reset.Some? && !init.cfg.mode.SessionMode?
    requires Honest(srv, ct, init.cfg.reset.value)
    requires Exec(srv, init, steps).Some? && HalfDuplexRun(srv, ct, init, steps)
    ensures FreshRun(simple) && Exec(srv, FreshInit(init), simple).Some?
    ensures var w, v := Exec(srv, init, steps).value, Exec(srv, FreshInit(init), simple).value;
      v.dbs == w.dbs && v.clients.Keys == w.clients.Keys
      && forall c :: c in w.clients ==> SameView(w.clients[c], v.clients[c])
  {
    var m: Mates;
    simple, m := SimRun(srv, ct, init, steps);
    var w, v := Exec(srv, init, steps).value, Exec(srv, FreshInit(init), simple).value;
    forall c | c in w.clients
      ensures SameView(w.clients[c], v.clients[c])
    {
      assert ClientMatch(w.clients[c], v.clients[c], m);
    }
  }
}
