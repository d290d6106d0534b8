/** One pooled client session as an automaton over its I/O (src/proxy/pooled.rs, src/pool.rs).

    Every await of `serve_pooled`, `relay_pooled`, `run_lease`, `relay_to_next_rfq` and `Lease::reset` is a
    state; every completed I/O action, failure or abort is an event. `PooledRelay` proves that the
    program's own control flow produces only runs of this automaton; `PoolWorld` interleaves many of them. */
module Session {
  import opened Bytes
  import Codec

  datatype Message = Message(tag: byte, payload: seq<byte>)

  type ConnId = nat

  datatype Mode = SessionMode | TransactionMode | StatementMode

  /** Pool mode and the frame that resets a backend before it is pooled again. */
  datatype Config = Config(mode: Mode, reset: Option<Message>)

  /** What `with_connector` installs: no reset, or a simple query. */
  predicate ValidConfig(cfg: Config) {
    cfg.reset.Some? ==> cfg.reset.value.tag == Codec.QUERY
  }

  const IDLE: byte := 73

  predicate IsRfq(m: Message) {
    m.tag == Codec.READY_FOR_QUERY
  }

  /** `payload().first().copied().unwrap_or(b'I')`: a status-less ReadyForQuery counts as idle. */
  function RelayStatus(m: Message): byte {
    if m.payload == [] then IDLE else m.payload[0]
  }

  /** The stricter test of `Lease::reset`: the idle byte must be there. */
  predicate ExplicitIdle(m: Message) {
    IsRfq(m) && m.payload != [] && m.payload[0] == IDLE
  }

  datatype Pc =
    | Start                                 // startup_params not yet answered
    | Probe(k: ConnId)                      // startup_params holds a lease
    | Idle                                  // waiting for the first frame of a transaction
    | Want(f: Message)                      // first frame read, no lease yet
    | Held(k: ConnId, f: Message)           // lease taken, cancel slot not yet set
    | Send(k: ConnId, f: Message)           // client frame in hand for the backend
    | Relay(k: ConnId)                      // the select loop
    | Deliver(k: ConnId, m: Message)        // backend frame in hand for the client
    | Bye(k: ConnId, f: Message)            // Terminate in hand, best-effort write
    | AtIdle(k: ConnId)                     // idle ReadyForQuery relayed, reset not yet written
    | Drain(k: ConnId)                      // reset written, reading its response
    | Clean(k: ConnId)                      // about to check in
    | Discarding(k: ConnId, keep: bool)     // about to discard
    | Release(keep: bool)                   // lease gone, cancel slot not yet cleared
    | SWant | SHeld(k: ConnId) | SRelay(k: ConnId) | SStopped(k: ConnId) | SCleared(k: ConnId)
    | Dropping                              // serve has ended, cancel handle not yet dropped
    | Gone

  datatype Event =
    | Cached                                // startup_params hit its cache
    | Lease(k: ConnId)                      // pool.lease returned
    | ReadClient(f: Message) | ClientEof
    | SetSlot(k: ConnId) | NoTarget
    | WriteBackend(k: ConnId, f: Message)
    | ReadBackend(k: ConnId, m: Message)
    | WriteClient(m: Message)
    | LateFail(m: Message)                  // written to the client, then the flush failed
    | WriteReset(k: ConnId, f: Message)
    | ReadReset(k: ConnId, m: Message)
    | Checkin(k: ConnId) | Discard(k: ConnId)
    | Clear
    | PassUp(k: ConnId, f: Message) | PassDown(k: ConnId, m: Message) | Stop
    | Fail                                  // an I/O error or end of stream on the action in progress
    | Abort                                 // the task is dropped or unwinds
    | DropHandle

  /** The connection a session owns in a state. */
  function Holds(pc: Pc): Option<ConnId> {
    if pc.Start? || pc.Idle? || pc.Want? || pc.Release? || pc.SWant? || pc.Dropping? || pc.Gone? then None
    else Some(pc.k)
  }

  function Ready(cfg: Config): Pc {
    if cfg.mode.SessionMode? then SWant else Idle
  }

  /** `run_lease`'s decision once a backend message has reached the client. */
  function AfterDeliver(cfg: Config, k: ConnId, m: Message): Pc {
    if IsRfq(m) then AtBoundary(cfg, k, RelayStatus(m)) else Relay(k)
  }

  function AtBoundary(cfg: Config, k: ConnId, status: byte): Pc {
    if status == IDLE then (if cfg.reset.Some? then AtIdle(k) else Clean(k))
    else if cfg.mode.StatementMode? then Discarding(k, true)
    else Relay(k)
  }

  /** `Lease::reset`'s decision on one message of the reset response. */
  function AfterReset(k: ConnId, m: Message): Pc {
    if IsRfq(m) then (if ExplicitIdle(m) then Clean(k) else Discarding(k, true))
    else if m.tag == Codec.ERROR_RESPONSE then Discarding(k, true)
    else Drain(k)
  }

  function Next(cfg: Config, pc: Pc, ev: Event): (r: Option<Pc>) {
    match ev
    case DropHandle => if pc.Dropping? then Some(Gone) else None
    case Abort => if pc.Dropping? || pc.Gone? then None else Some(Dropping)
    case Cached => if pc.Start? then Some(Ready(cfg)) else None
    case Lease(k) =>
      if pc.Start? then Some(Probe(k))
      else if pc.Want? then Some(Held(k, pc.f))
      else if pc.SWant? then Some(SHeld(k))
      else None
    case ReadClient(f) =>
      if pc.Idle? then Some(if f.tag == Codec.TERMINATE then Dropping else Want(f))
      else if pc.Relay? then Some(if f.tag == Codec.TERMINATE then Bye(pc.k, f) else Send(pc.k, f))
      else None
    case ClientEof =>
      if pc.Idle? then Some(Dropping)
      else if pc.Relay? then Some(Discarding(pc.k, false))
      else None
    case SetSlot(k) =>
      if pc.Held? && pc.k == k then Some(Send(k, pc.f))
      else if pc.SHeld? && pc.k == k then Some(SRelay(k))
      else None
    case NoTarget =>
      if pc.Held? then Some(Send(pc.k, pc.f))
      else if pc.SHeld? then Some(SRelay(pc.k))
      else None
    case WriteBackend(k, f) =>
      if pc == Send(k, f) then Some(Relay(k))
      else if pc == Bye(k, f) then Some(Discarding(k, false))
      else None
    case ReadBackend(k, m) => if pc == Relay(k) then Some(Deliver(k, m)) else None
    case WriteClient(m) => if pc.Deliver? && pc.m == m then Some(AfterDeliver(cfg, pc.k, m)) else None
    case LateFail(m) => if pc.Deliver? && pc.m == m then Some(Discarding(pc.k, false)) else None
    case WriteReset(k, f) => if pc == AtIdle(k) && cfg.reset == Some(f) then Some(Drain(k)) else None
    case ReadReset(k, m) => if pc == Drain(k) then Some(AfterReset(k, m)) else None
    case Checkin(k) =>
      if pc == Clean(k) then Some(Release(true))
      else if pc == Probe(k) then Some(Ready(cfg))
      else None
    case Discard(k) =>
      if pc.Discarding? && pc.k == k then Some(Release(pc.keep))
      else if pc == SCleared(k) then Some(Dropping)
      else None
    case Clear =>
      if pc.Release? then Some(if pc.keep then Idle else Dropping)
      else if pc.SStopped? then Some(SCleared(pc.k))
      else None
    case PassUp(k, _) => if pc == SRelay(k) then Some(pc) else None
    case PassDown(k, _) => if pc == SRelay(k) then Some(pc) else None
    case Stop => if pc.SRelay? then Some(SStopped(pc.k)) else None
    case Fail =>
      if pc.Start? || pc.Idle? || pc.Want? || pc.SWant? then Some(Dropping)
      else if pc.Send? || pc.Relay? || pc.Bye? || pc.Deliver? then Some(Discarding(Holds(pc).value, false))
      else if pc.AtIdle? || pc.Drain? then Some(Discarding(Holds(pc).value, true))
      else None
  }

  /** The state a session reaches from `pc` over a history, if the history is one of the automaton's. */
  function Run(cfg: Config, pc: Pc, history: seq<Event>): (r: Option<Pc>) {
    if history == [] then Some(pc)
    else
      var before := Run(cfg, pc, history[..|history| - 1]);
      if before.None? then None else Next(cfg, before.value, history[|history| - 1])
  }

  lemma RunSnoc(cfg: Config, pc: Pc, history: seq<Event>, ev: Event)
    ensures Run(cfg, pc, history + [ev]) ==
            (var before := Run(cfg, pc, history); if before.None? then None else Next(cfg, before.value, ev))
  {
    var all := history + [ev];
    assert all[..|all| - 1] == history;
  }
}
