/** What a pooled session owes its environment (src/proxy/pooled.rs:75-330), stated apart from the program.

    A script lists what the awaits of a session resolve to. `Answer` says what I/O each kind of await does when it resolves,
    and `Explains` that a history is made of such answers, one an input, and of the steps that await nothing. The program is
    proved to meet this in `PooledRelay`; here it is shown to mean that no frame is lost, invented or reordered. */
module Script {
  import opened Bytes
  import opened Session
  import Codec
  import opened Routing

  /** What an await resolves to. A read waits past outcomes that are not for it; a write succeeds unless it breaks. */
  datatype Input =
    | ClientFrame(f: Message) | ClientClosed | ClientError
    | BackendFrame(m: Message) | BackendClosed
    | CacheHit | Granted(k: ConnId, target: bool) | Refused
    | Broken | LateBroken
    | Progress

  predicate Breaks(i: Input) {
    i.ClientError? || i.BackendClosed? || i.Refused? || i.Broken? || i.LateBroken?
  }

  // ---------------------------------------------------------------------------------------------
  // Awaits

  predicate ReadsClient(pc: Pc) {
    pc.Idle? || pc.Relay? || pc.SRelay?
  }

  predicate ReadsBackend(pc: Pc) {
    pc.Relay? || pc.Drain? || pc.SRelay?
  }

  predicate Writes(pc: Pc) {
    pc.Send? || pc.Deliver? || pc.Bye? || pc.AtIdle?
  }

  predicate Leases(pc: Pc) {
    pc.Start? || pc.Want? || pc.SWant?
  }

  /** The states in which a task awaits. */
  predicate Waits(pc: Pc) {
    ReadsClient(pc) || ReadsBackend(pc) || Writes(pc) || Leases(pc)
  }

  /** A session stands still only at an await, or when it is over. */
  predicate Still(pc: Pc) {
    Waits(pc) || pc.Gone?
  }

  /** Messages after which the relay flushes. */
  predicate Flushed(m: Message) {
    IsRfq(m) || m.tag == Codec.ERROR_RESPONSE
  }

  /** The message in hand goes out whole, or the write breaks; a flush may break after it. */
  function WriteOf(cfg: Config, pc: Pc, i: Input): Event
    requires Writes(pc)
  {
    if i.Broken? then Fail
    else match pc
      case Send(k, f) => WriteBackend(k, f)
      case Bye(k, f) => WriteBackend(k, f)
      case Deliver(_, m) => if i.LateBroken? && Flushed(m) then LateFail(m) else WriteClient(m)
      case AtIdle(k) => if cfg.reset.Some? then WriteReset(k, cfg.reset.value) else Fail
      case _ => Fail
  }

  function ReadOf(pc: Pc, m: Message): Event
    requires ReadsBackend(pc)
  {
    if pc.Relay? then ReadBackend(pc.k, m) else if pc.Drain? then ReadReset(pc.k, m) else PassDown(pc.k, m)
  }

  /** The I/O done at once when the await in `pc` resolves to `i`: nothing if `i` is not for it. The greeting, which awaits
      one write before the session is ready, is in progress when `greeting` holds. */
  function Answer(cfg: Config, greeting: bool, pc: Pc, i: Input): seq<Event> {
    if pc.Gone? then []
    else if greeting then (if i.Broken? then [Fail] else [])
    else if Writes(pc) then [WriteOf(cfg, pc, i)]
    else match i
      case ClientFrame(f) => if pc.SRelay? then [PassUp(pc.k, f)] else if ReadsClient(pc) then [ReadClient(f)] else []
      case BackendFrame(m) => if ReadsBackend(pc) then [ReadOf(pc, m)] else []
      case ClientClosed => if pc.SRelay? then [Stop] else if ReadsClient(pc) then [ClientEof] else []
      case ClientError => if pc.SRelay? then [Stop] else if ReadsClient(pc) then [Fail] else []
      case BackendClosed => if pc.SRelay? then [Stop] else if ReadsBackend(pc) then [Fail] else []
      case CacheHit => if pc.Start? then [Cached] else []
      case Granted(k, target) =>
        if pc.Start? then [Event.Lease(k)]
        else if Leases(pc) then [Event.Lease(k), if target then SetSlot(k) else NoTarget]
        else []
      case Refused => if Leases(pc) then [Fail] else []
      case Broken => if pc.SRelay? then [Stop] else []
      case LateBroken => if pc.SRelay? then [Stop] else []
      case Progress => []
  }

  /** Steps that await nothing. */
  predicate IsTrail(evs: seq<Event>) {
    forall i :: 0 <= i < |evs| ==> evs[i].Checkin? || evs[i].Discard? || evs[i].Clear? || evs[i].DropHandle?
  }

  /** One input's share of a history: the answer to it, and steps that await nothing. */
  predicate Fits(cfg: Config, greeting: bool, pc: Pc, i: Input, part: seq<Event>) {
    var a := Answer(cfg, greeting, pc, i);
    a <= part && IsTrail(part[|a|..]) && (a == [] ==> part == [])
  }

  /** The backend's parameters have just been obtained, so the greeting is next. */
  predicate Opens(part: seq<Event>) {
    part != [] && (part[|part| - 1].Cached? || part[|part| - 1].Checkin?)
  }

  /** From a standstill in `pc` on, each input has its share, and the session stands still after it. */
  predicate Explains(cfg: Config, greeting: bool, pc: Pc, script: seq<Input>, parts: seq<seq<Event>>)
    decreases |script|
  {
    && Still(pc) && |parts| == |script|
    && (script != [] ==>
          && Fits(cfg, greeting, pc, script[0], parts[0]) && Run(cfg, pc, parts[0]).Some?
          && Explains(cfg, Opens(parts[0]), Run(cfg, pc, parts[0]).value, script[1..], parts[1..]))
  }

  function Flat(parts: seq<seq<Event>>): seq<Event> {
    if parts == [] then [] else parts[0] + Flat(parts[1..])
  }

  /** Where the script leaves the session. */
  function End(cfg: Config, greeting: bool, pc: Pc, script: seq<Input>, parts: seq<seq<Event>>): (end: Pc)
    requires Explains(cfg, greeting, pc, script, parts)
    ensures Still(end)
    decreases |script|
  {
    if script == [] then pc
    else End(cfg, Opens(parts[0]), Run(cfg, pc, parts[0]).value, script[1..], parts[1..])
  }

  /** A session that is not over when its script is, is dropped where it stands. */
  function Dropped(pc: Pc): seq<Event> {
    if pc.Gone? then [] else [Abort, DropHandle]
  }

  /** A whole session: the history is what the script calls for, and nothing else. */
  ghost predicate Explained(cfg: Config, script: seq<Input>, history: seq<Event>) {
    exists parts ::
      && Explains(cfg, false, Start, script, parts)
      && history == Flat(parts) + Dropped(End(cfg, false, Start, script, parts))
  }

  // ---------------------------------------------------------------------------------------------
  // Every frame offered at a read is taken

  /** The client frames offered while the session reads its client, but for the Terminate it acts on. */
  function OfferedUp(cfg: Config, greeting: bool, pc: Pc, script: seq<Input>, parts: seq<seq<Event>>): seq<Message>
    requires Explains(cfg, greeting, pc, script, parts)
    decreases |script|
  {
    if script == [] then []
    else
      (if !greeting && ReadsClient(pc) && script[0].ClientFrame? && (pc.SRelay? || script[0].f.tag != Codec.TERMINATE)
       then [script[0].f] else [])
      + OfferedUp(cfg, Opens(parts[0]), Run(cfg, pc, parts[0]).value, script[1..], parts[1..])
  }

  /** The backend frames offered while it reads its backend, but for those that answer a reset. */
  function OfferedDown(cfg: Config, greeting: bool, pc: Pc, script: seq<Input>, parts: seq<seq<Event>>): seq<Message>
    requires Explains(cfg, greeting, pc, script, parts)
    decreases |script|
  {
    if script == [] then []
    else
      (if !greeting && (pc.Relay? || pc.SRelay?) && script[0].BackendFrame? then [script[0].m] else [])
      + OfferedDown(cfg, Opens(parts[0]), Run(cfg, pc, parts[0]).value, script[1..], parts[1..])
  }

  /** A share carries what its answer does. */
  lemma GatherPart(g: Event -> seq<Message>, cfg: Config, greeting: bool, pc: Pc, i: Input, part: seq<Event>)
    requires Fits(cfg, greeting, pc, i, part)
    requires forall ev: Event :: ev.Checkin? || ev.Discard? || ev.Clear? || ev.DropHandle? ==> g(ev) == []
    ensures Gather(g, part) == Gather(g, Answer(cfg, greeting, pc, i))
  {
    var a := Answer(cfg, greeting, pc, i);
    assert part == a + part[|a|..];
    GatherConcat(g, a, part[|a|..]);
    GatherNothing(g, part[|a|..]);
  }

  lemma GatherOne(g: Event -> seq<Message>, ev: Event)
    ensures Gather(g, [ev]) == g(ev)
  {
    assert [ev][..0] == [] && Gather(g, []) == [];
  }

  lemma AnswerCarries(cfg: Config, greeting: bool, pc: Pc, i: Input)
    requires Still(pc)
    ensures Gather(Heard, Answer(cfg, greeting, pc, i))
            == if !greeting && ReadsClient(pc) && i.ClientFrame? && (pc.SRelay? || i.f.tag != Codec.TERMINATE)
               then [i.f] else []
    ensures Gather(Got, Answer(cfg, greeting, pc, i))
            == if !greeting && (pc.Relay? || pc.SRelay?) && i.BackendFrame? then [i.m] else []
  {
    var a := Answer(cfg, greeting, pc, i);
    if |a| == 1 {
      GatherOne(Heard, a[0]);
      GatherOne(Got, a[0]);
    } else if |a| == 2 {
      GatherNothing(Heard, a);
      GatherNothing(Got, a);
    }
  }

  /** What the session took from its client is what it was offered, and so is what it took from its backends. */
  lemma {:induction false} OfferedIsTaken(cfg: Config, greeting: bool, pc: Pc, script: seq<Input>, parts: seq<seq<Event>>)
    requires Explains(cfg, greeting, pc, script, parts)
    ensures Gather(Heard, Flat(parts)) == OfferedUp(cfg, greeting, pc, script, parts)
    ensures Gather(Got, Flat(parts)) == OfferedDown(cfg, greeting, pc, script, parts)
    decreases |script|
  {
    if script != [] {
      var part, more := parts[0], parts[1..];
      OfferedIsTaken(cfg, Opens(part), Run(cfg, pc, part).value, script[1..], more);
      GatherConcat(Heard, part, Flat(more));
      GatherConcat(Got, part, Flat(more));
      GatherPart(Heard, cfg, greeting, pc, script[0], part);
      GatherPart(Got, cfg, greeting, pc, script[0], part);
      AnswerCarries(cfg, greeting, pc, script[0]);
    }
  }

  // ---------------------------------------------------------------------------------------------
  // And, if nothing breaks, passed on

  lemma {:induction false} RunConcat(cfg: Config, pc: Pc, a: seq<Event>, b: seq<Event>)
    requires Run(cfg, pc, a).Some?
    ensures Run(cfg, pc, a + b) == Run(cfg, Run(cfg, pc, a).value, b)
    decreases |b|
  {
    if b == [] {
      assert a + b == a;
    } else {
      assert (a + b)[..|a + b| - 1] == a + b[..|b| - 1];
      RunConcat(cfg, pc, a, b[..|b| - 1]);
    }
  }

  /** The shares together are a run of the automaton. */
  lemma {:induction false} SharesRun(cfg: Config, greeting: bool, pc: Pc, script: seq<Input>, parts: seq<seq<Event>>)
    requires Explains(cfg, greeting, pc, script, parts)
    ensures Run(cfg, pc, Flat(parts)) == Some(End(cfg, greeting, pc, script, parts))
    decreases |script|
  {
    if script != [] {
      var part, more := parts[0], parts[1..];
      SharesRun(cfg, Opens(part), Run(cfg, pc, part).value, script[1..], more);
      RunConcat(cfg, pc, part, Flat(more));
    }
  }

  lemma AnswerIsSmooth(cfg: Config, greeting: bool, pc: Pc, i: Input, part: seq<Event>)
    requires Fits(cfg, greeting, pc, i, part) && !Breaks(i) && (pc.AtIdle? ==> cfg.reset.Some?)
    ensures Smooth(part)
  {
    var a := Answer(cfg, greeting, pc, i);
    assert Smooth(a);
    assert part == a + part[|a|..];
  }

  /** The reset is only written when there is one. */
  lemma {:induction false} ResetIsThere(cfg: Config, pc: Pc, history: seq<Event>)
    requires (pc.AtIdle? ==> cfg.reset.Some?) && Run(cfg, pc, history).Some?
    ensures Run(cfg, pc, history).value.AtIdle? ==> cfg.reset.Some?
  {
    if history != [] {
      ResetIsThere(cfg, pc, history[..|history| - 1]);
    }
  }

  lemma {:induction false} ScriptIsSmooth(cfg: Config, greeting: bool, pc: Pc, script: seq<Input>, parts: seq<seq<Event>>)
    requires Explains(cfg, greeting, pc, script, parts) && (pc.AtIdle? ==> cfg.reset.Some?)
    requires forall i :: 0 <= i < |script| ==> !Breaks(script[i])
    ensures Smooth(Flat(parts))
    decreases |script|
  {
    if script != [] {
      var part, more := parts[0], parts[1..];
      ResetIsThere(cfg, pc, part);
      AnswerIsSmooth(cfg, greeting, pc, script[0], part);
      ScriptIsSmooth(cfg, Opens(part), Run(cfg, pc, part).value, script[1..], more);
    }
  }

  /** Whole scripts in which nothing breaks, in every mode: what is written to backends is exactly what the client offered while
      the session was reading, in order, and what is written to the client is exactly what the backends offered
      outside resets, but for the message in hand where the script stops. */
  lemma OfferedIsRelayed(cfg: Config, script: seq<Input>, parts: seq<seq<Event>>)
    requires Explains(cfg, false, Start, script, parts)
    requires forall i :: 0 <= i < |script| ==> !Breaks(script[i])
    ensures var end := End(cfg, false, Start, script, parts);
      && Gather(Sent, Flat(parts)) + InHand(end) == OfferedUp(cfg, false, Start, script, parts)
      && Gather(Given, Flat(parts)) + OutHand(end) == OfferedDown(cfg, false, Start, script, parts)
  {
    SharesRun(cfg, false, Start, script, parts);
    ScriptIsSmooth(cfg, false, Start, script, parts);
    NothingIsLost(cfg, Flat(parts));
    OfferedIsTaken(cfg, false, Start, script, parts);
  }
}
