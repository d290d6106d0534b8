/** The pooled relay as the source writes it: nested loops over awaits, with the lease given up on every
    way out (src/proxy/pooled.rs:75-330, src/pool.rs:423-440, src/pool.rs:521-552).

    A `Task` is one client's task. Each await takes its outcome from a script chosen by the environment; when
    the script runs out the task is aborted at that await. `Drive` says which I/O a script leads to, state by
    state; the task is proved to do exactly that I/O, and `Drive` to be a run of the session automaton. */
module PooledRelay {
  import opened Bytes
  import opened Session
  import Codec
  import opened Script
  import Routing

  // ---------------------------------------------------------------------------------------------
  // The I/O a script leads to

  /** A step that awaits nothing: the event and the state after it. */
  function Silent(pc: Pc): Option<(Event, Pc)> {
    match pc
    case Clean(k) => Some((Checkin(k), Release(true)))
    case Discarding(k, keep) => Some((Discard(k), Release(keep)))
    case Release(keep) => Some((Clear, if keep then Idle else Dropping))
    case SStopped(k) => Some((Clear, SCleared(k)))
    case SCleared(k) => Some((Discard(k), Dropping))
    case Dropping => Some((DropHandle, Gone))
    case _ => None
  }

  function Rank(pc: Pc): nat {
    if pc.Gone? then 0 else if pc.Dropping? then 1 else if Silent(pc).None? then 2
    else if pc.Release? || pc.SCleared? then 3 else 4
  }

  function SlotEvent(k: ConnId, target: bool): Event {
    if target then SetSlot(k) else NoTarget
  }

  /** From state `pc` on, when the script is all that will happen. */
  function Drive(cfg: Config, pc: Pc, script: seq<Input>): seq<Event>
    decreases |script|, Rank(pc)
  {
    if pc.Gone? then []
    else if Silent(pc).Some? then
      var (ev, pc') := Silent(pc).value;
      [ev] + Drive(cfg, pc', script)
    else if script == [] then [Abort] + Drive(cfg, Dropping, script)
    else React(cfg, pc, script[0], script[1..])
  }

  /** The greeting is the one write that is not part of the relay. */
  function Greet(cfg: Config, script: seq<Input>): seq<Event>
    decreases |script|, 5
  {
    if script == [] then [Abort] + Drive(cfg, Dropping, script)
    else if script[0].Broken? then [Fail] + Drive(cfg, Dropping, script[1..])
    else Drive(cfg, Ready(cfg), script[1..])
  }

  /** In state `pc`, when the await resolves to `i`. */
  function React(cfg: Config, pc: Pc, i: Input, script: seq<Input>): seq<Event>
    decreases |script|, 10
  {
    if pc.Start? && i.CacheHit? then [Cached] + Greet(cfg, script)
    else if pc.Start? && i.Granted? then [Lease(i.k)] + ([Checkin(i.k)] + Greet(cfg, script))
    else if (pc.Want? || pc.SWant?) && i.Granted? then
      [Lease(i.k)] + ([SlotEvent(i.k, i.target)] + Drive(cfg, if pc.Want? then Send(i.k, pc.f) else SRelay(i.k), script))
    else
      var choice := Choice(cfg, pc, i);
      if choice.None? then Drive(cfg, pc, script) else [choice.value.0] + Drive(cfg, choice.value.1, script)
  }

  /** The end of `copy_bidirectional`: either side closes or fails. */
  predicate Stops(i: Input) {
    i.ClientClosed? || i.BackendClosed? || i.ClientError? || i.Broken? || i.LateBroken?
  }

  /** The event and next state, or nothing when the await goes on. */
  function Choice(cfg: Config, pc: Pc, i: Input): Option<(Event, Pc)> {
    match pc
    case Start => if i.Refused? then Some((Fail, Dropping)) else None
    case Want(_) => if i.Refused? then Some((Fail, Dropping)) else None
    case SWant => if i.Refused? then Some((Fail, Dropping)) else None
    case Idle =>
      if i.ClientClosed? then Some((ClientEof, Dropping))
      else if i.ClientError? then Some((Fail, Dropping))
      else if i.ClientFrame? then
        Some((ReadClient(i.f), if i.f.tag == Codec.TERMINATE then Dropping else Want(i.f)))
      else None
    case Send(k, f) => Some(if i.Broken? then (Fail, Discarding(k, false)) else (WriteBackend(k, f), Relay(k)))
    case Relay(k) =>
      if i.BackendFrame? then Some((ReadBackend(k, i.m), Deliver(k, i.m)))
      else if i.BackendClosed? || i.ClientError? then Some((Fail, Discarding(k, false)))
      else if i.ClientClosed? then Some((ClientEof, Discarding(k, false)))
      else if i.ClientFrame? then
        Some((ReadClient(i.f), if i.f.tag == Codec.TERMINATE then Bye(k, i.f) else Send(k, i.f)))
      else None
    case Deliver(k, m) =>
      Some(if i.Broken? then (Fail, Discarding(k, false))
           else if i.LateBroken? && (IsRfq(m) || m.tag == Codec.ERROR_RESPONSE) then (LateFail(m), Discarding(k, false))
           else (WriteClient(m), AfterDeliver(cfg, k, m)))
    case Bye(k, f) => Some((if i.Broken? then Fail else WriteBackend(k, f), Discarding(k, false)))
    case AtIdle(k) =>
      Some(if i.Broken? || cfg.reset.None? then (Fail, Discarding(k, true)) else (WriteReset(k, cfg.reset.value), Drain(k)))
    case Drain(k) =>
      if i.BackendClosed? then Some((Fail, Discarding(k, true)))
      else if i.BackendFrame? then Some((ReadReset(k, i.m), AfterReset(k, i.m)))
      else None
    case SRelay(k) =>
      if i.ClientFrame? then Some((PassUp(k, i.f), pc))
      else if i.BackendFrame? then Some((PassDown(k, i.m), pc))
      else if Stops(i) then Some((Stop, SStopped(k)))
      else None
    case _ => None
  }

  // ---------------------------------------------------------------------------------------------
  // It is a run of the automaton

  /** A state in which `Drive` may stand. */
  predicate Spot(cfg: Config, pc: Pc) {
    (Waits(pc) || Silent(pc).Some? || pc.Gone?) && (pc.AtIdle? ==> cfg.reset.Some?)
  }

  lemma SilentIsNext(cfg: Config, pc: Pc)
    requires Silent(pc).Some?
    ensures Next(cfg, pc, Silent(pc).value.0) == Some(Silent(pc).value.1) && Spot(cfg, Silent(pc).value.1)
  {
  }

  lemma ChoiceIsNext(cfg: Config, pc: Pc, i: Input)
    requires Spot(cfg, pc) && Choice(cfg, pc, i).Some?
    ensures Next(cfg, pc, Choice(cfg, pc, i).value.0) == Some(Choice(cfg, pc, i).value.1)
    ensures Spot(cfg, Choice(cfg, pc, i).value.1)
  {
  }

  lemma RunThrough(cfg: Config, done: seq<Event>, pc: Pc, ev: Event, rest: seq<Event>)
    requires Run(cfg, Start, done) == Some(pc)
    ensures Run(cfg, Start, done + [ev]) == Next(cfg, pc, ev) && done + ([ev] + rest) == done + [ev] + rest
  {
    RunSnoc(cfg, Start, done, ev);
  }

  /** Whatever happens, the I/O of a task is a complete run of the session automaton. */
  lemma {:induction false} DriveRuns(cfg: Config, done: seq<Event>, pc: Pc, script: seq<Input>)
    requires Run(cfg, Start, done) == Some(pc) && Spot(cfg, pc)
    ensures Run(cfg, Start, done + Drive(cfg, pc, script)) == Some(Gone)
    decreases |script|, Rank(pc)
  {
    if pc.Gone? {
      assert done + [] == done;
    } else if Silent(pc).Some? {
      var (ev, pc') := Silent(pc).value;
      SilentIsNext(cfg, pc);
      RunThrough(cfg, done, pc, ev, Drive(cfg, pc', script));
      DriveRuns(cfg, done + [ev], pc', script);
    } else if script == [] {
      RunThrough(cfg, done, pc, Abort, Drive(cfg, Dropping, script));
      DriveRuns(cfg, done + [Abort], Dropping, script);
    } else {
      ReactRuns(cfg, done, pc, script[0], script[1..]);
    }
  }

  lemma {:induction false} GreetRuns(cfg: Config, done: seq<Event>, script: seq<Input>)
    requires Run(cfg, Start, done) == Some(Ready(cfg))
    ensures Run(cfg, Start, done + Greet(cfg, script)) == Some(Gone)
    decreases |script|, 5
  {
    if script == [] {
      RunThrough(cfg, done, Ready(cfg), Abort, Drive(cfg, Dropping, script));
      DriveRuns(cfg, done + [Abort], Dropping, script);
    } else if script[0].Broken? {
      RunThrough(cfg, done, Ready(cfg), Fail, Drive(cfg, Dropping, script[1..]));
      DriveRuns(cfg, done + [Fail], Dropping, script[1..]);
    } else {
      DriveRuns(cfg, done, Ready(cfg), script[1..]);
    }
  }

  lemma {:induction false} ReactRuns(cfg: Config, done: seq<Event>, pc: Pc, i: Input, script: seq<Input>)
    requires Run(cfg, Start, done) == Some(pc) && Spot(cfg, pc) && Waits(pc)
    ensures Run(cfg, Start, done + React(cfg, pc, i, script)) == Some(Gone)
    decreases |script|, 10
  {
    if pc.Start? && i.CacheHit? {
      RunThrough(cfg, done, pc, Cached, Greet(cfg, script));
      GreetRuns(cfg, done + [Cached], script);
    } else if (pc.Start? || pc.Want? || pc.SWant?) && i.Granted? {
      LeaseRuns(cfg, done, pc, i.k, i.target, script);
    } else {
      var choice := Choice(cfg, pc, i);
      if choice.None? {
        DriveRuns(cfg, done, pc, script);
      } else {
        ChoiceIsNext(cfg, pc, i);
        RunThrough(cfg, done, pc, choice.value.0, Drive(cfg, choice.value.1, script));
        DriveRuns(cfg, done + [choice.value.0], choice.value.1, script);
      }
    }
  }

  lemma {:induction false} LeaseRuns(cfg: Config, done: seq<Event>, pc: Pc, k: ConnId, target: bool, script: seq<Input>)
    requires Run(cfg, Start, done) == Some(pc) && (pc.Start? || pc.Want? || pc.SWant?)
    ensures Run(cfg, Start, done + React(cfg, pc, Granted(k, target), script)) == Some(Gone)
    decreases |script|, 9
  {
    var leased := done + [Lease(k)];
    if pc.Start? {
      RunThrough(cfg, done, pc, Lease(k), [Checkin(k)] + Greet(cfg, script));
      RunThrough(cfg, leased, Probe(k), Checkin(k), Greet(cfg, script));
      GreetRuns(cfg, leased + [Checkin(k)], script);
    } else {
      var pc' := if pc.Want? then Send(k, pc.f) else SRelay(k);
      RunThrough(cfg, done, pc, Lease(k), [SlotEvent(k, target)] + Drive(cfg, pc', script));
      RunThrough(cfg, leased, if pc.Want? then Held(k, pc.f) else SHeld(k), SlotEvent(k, target), Drive(cfg, pc', script));
      DriveRuns(cfg, leased + [SlotEvent(k, target)], pc', script);
    }
  }

  // ---------------------------------------------------------------------------------------------
  // It is what the script calls for

  /** The steps that await nothing, up to the next standstill. */
  lemma {:induction false} Settle(cfg: Config, pc: Pc, script: seq<Input>) returns (trail: seq<Event>, pc': Pc)
    requires Spot(cfg, pc)
    ensures IsTrail(trail) && Drive(cfg, pc, script) == trail + Drive(cfg, pc', script)
    ensures Run(cfg, pc, trail) == Some(pc') && Spot(cfg, pc') && Still(pc') && (trail == [] || !Opens(trail))
    decreases Rank(pc)
  {
    if Silent(pc).None? {
      return [], pc;
    }
    var (ev, next) := Silent(pc).value;
    SilentIsNext(cfg, pc);
    var more;
    more, pc' := Settle(cfg, next, script);
    trail := [ev] + more;
    StepThenRun(cfg, pc, ev, next, more);
    SettlesPast(ev, more);
    AssocEvents([ev], more, Drive(cfg, pc', script));
  }

  lemma StepThenRun(cfg: Config, pc: Pc, ev: Event, next: Pc, more: seq<Event>)
    requires Next(cfg, pc, ev) == Some(next)
    ensures Run(cfg, pc, [ev] + more) == Run(cfg, next, more)
  {
    OneEvent(cfg, pc, ev);
    RunConcat(cfg, pc, [ev], more);
  }

  lemma SettlesPast(ev: Event, more: seq<Event>)
    requires ev.Checkin? || ev.Discard? || ev.Clear? || ev.DropHandle?
    requires more == [] ==> !ev.Checkin?
    requires IsTrail(more) && (more == [] || !Opens(more))
    ensures IsTrail([ev] + more) && !Opens([ev] + more)
  {
  }

  /** A standstill after one event, and the steps behind it. */
  lemma Stepped(cfg: Config, pc: Pc, i: Input, ev: Event, next: Pc, script: seq<Input>) returns (part: seq<Event>, pc': Pc)
    requires Answer(cfg, false, pc, i) == [ev] && Next(cfg, pc, ev) == Some(next) && Spot(cfg, next) && !ev.Cached? && !ev.Checkin?
    ensures Fits(cfg, false, pc, i, part) && !Opens(part) && Run(cfg, pc, part) == Some(pc') && Spot(cfg, pc') && Still(pc')
    ensures [ev] + Drive(cfg, next, script) == part + Drive(cfg, pc', script)
  {
    var trail;
    trail, pc' := Settle(cfg, next, script);
    part := [ev] + trail;
    StepThenRun(cfg, pc, ev, next, trail);
    AssocEvents([ev], trail, Drive(cfg, pc', script));
    ShareIs(cfg, pc, i, ev, trail);
  }

  lemma ShareIs(cfg: Config, pc: Pc, i: Input, ev: Event, trail: seq<Event>)
    requires Answer(cfg, false, pc, i) == [ev] && !ev.Cached? && !ev.Checkin? && IsTrail(trail) && (trail == [] || !Opens(trail))
    ensures Fits(cfg, false, pc, i, [ev] + trail) && !Opens([ev] + trail)
  {
    var part := [ev] + trail;
    assert part[1..] == trail;
    assert trail != [] ==> part[|part| - 1] == trail[|trail| - 1];
  }

  /** What an await that resolves leads to is that input's share. */
  lemma Share(cfg: Config, pc: Pc, i: Input, script: seq<Input>) returns (part: seq<Event>, pc': Pc)
    requires Spot(cfg, pc) && Waits(pc) && !(Leases(pc) && (i.Granted? || i.CacheHit?))
    ensures Fits(cfg, false, pc, i, part) && !Opens(part) && Run(cfg, pc, part) == Some(pc') && Spot(cfg, pc') && Still(pc')
    ensures React(cfg, pc, i, script) == part + Drive(cfg, pc', script)
  {
    var choice := Choice(cfg, pc, i);
    ChoiceIsAnswer(cfg, pc, i);
    if choice.None? {
      part, pc' := [], pc;
    } else {
      ChoiceIsNext(cfg, pc, i);
      part, pc' := Stepped(cfg, pc, i, choice.value.0, choice.value.1, script);
    }
  }

  lemma ChoiceIsAnswer(cfg: Config, pc: Pc, i: Input)
    requires Spot(cfg, pc) && Waits(pc) && !(Leases(pc) && (i.Granted? || i.CacheHit?))
    ensures Answer(cfg, false, pc, i) == if Choice(cfg, pc, i).None? then [] else [Choice(cfg, pc, i).value.0]
    ensures Choice(cfg, pc, i).Some? ==> !Choice(cfg, pc, i).value.0.Cached? && !Choice(cfg, pc, i).value.0.Checkin?
  {
  }

  /** The same of a lease, and of the parameters it is taken for at startup. */
  lemma LeaseShare(cfg: Config, pc: Pc, i: Input, script: seq<Input>) returns (part: seq<Event>, pc': Pc)
    requires Leases(pc) && (i.Granted? || i.CacheHit?)
    ensures Fits(cfg, false, pc, i, part) && Run(cfg, pc, part) == Some(pc') && Spot(cfg, pc') && Still(pc')
    ensures Opens(part) ==> pc' == Ready(cfg)
    ensures React(cfg, pc, i, script) == part + if Opens(part) then Greet(cfg, script) else Drive(cfg, pc', script)
  {
    if i.CacheHit? {
      if pc.Start? {
        part, pc' := [Cached], Ready(cfg);
        OneEvent(cfg, pc, Cached);
      } else {
        part, pc' := [], pc;
      }
    } else if pc.Start? {
      part, pc' := [Lease(i.k), Checkin(i.k)], Ready(cfg);
      TwoEvents(cfg, pc, Lease(i.k), Checkin(i.k));
    } else {
      part, pc' := [Lease(i.k), SlotEvent(i.k, i.target)], if pc.Want? then Send(i.k, pc.f) else SRelay(i.k);
      TwoEvents(cfg, pc, Lease(i.k), SlotEvent(i.k, i.target));
    }
  }

  lemma OneEvent(cfg: Config, pc: Pc, a: Event)
    ensures Run(cfg, pc, [a]) == Next(cfg, pc, a)
  {
    RunSnoc(cfg, pc, [], a);
    assert [] + [a] == [a];
  }

  lemma TwoEvents(cfg: Config, pc: Pc, a: Event, b: Event)
    requires Next(cfg, pc, a).Some?
    ensures Run(cfg, pc, [a, b]) == Next(cfg, Next(cfg, pc, a).value, b)
    ensures forall rest: seq<Event> :: [a] + ([b] + rest) == [a, b] + rest
  {
    OneEvent(cfg, pc, a);
    RunSnoc(cfg, pc, [a], b);
    assert [a] + [b] == [a, b];
  }

  /** One share more in front. */
  lemma Prepended(cfg: Config, greeting: bool, pc: Pc, script: seq<Input>, part: seq<Event>, pc': Pc, more: seq<seq<Event>>)
    requires script != [] && Still(pc) && Fits(cfg, greeting, pc, script[0], part) && Run(cfg, pc, part) == Some(pc')
    requires Explains(cfg, Opens(part), pc', script[1..], more)
    ensures Explains(cfg, greeting, pc, script, [part] + more)
    ensures End(cfg, greeting, pc, script, [part] + more) == End(cfg, Opens(part), pc', script[1..], more)
    ensures Flat([part] + more) == part + Flat(more)
  {
    assert ([part] + more)[1..] == more;
  }

  /** From a standstill, the I/O of a task is what its script calls for. */
  lemma {:induction false} Explain(cfg: Config, pc: Pc, script: seq<Input>) returns (parts: seq<seq<Event>>)
    requires Spot(cfg, pc) && Still(pc)
    ensures Explains(cfg, false, pc, script, parts)
    ensures Drive(cfg, pc, script) == Flat(parts) + Dropped(End(cfg, false, pc, script, parts))
    decreases |script|
  {
    if script == [] {
      return [];
    }
    var part, pc', more;
    if pc.Gone? {
      part, pc' := [], pc;
    } else if Leases(pc) && (script[0].Granted? || script[0].CacheHit?) {
      part, pc' := LeaseShare(cfg, pc, script[0], script[1..]);
    } else {
      part, pc' := Share(cfg, pc, script[0], script[1..]);
    }
    if Opens(part) {
      more := ExplainGreeting(cfg, script[1..]);
    } else {
      more := Explain(cfg, pc', script[1..]);
    }
    parts := [part] + more;
    Prepended(cfg, false, pc, script, part, pc', more);
    AssocEvents(part, Flat(more), Dropped(End(cfg, false, pc, script, parts)));
  }

  lemma {:induction false} ExplainGreeting(cfg: Config, script: seq<Input>) returns (parts: seq<seq<Event>>)
    ensures Explains(cfg, true, Ready(cfg), script, parts)
    ensures Greet(cfg, script) == Flat(parts) + Dropped(End(cfg, true, Ready(cfg), script, parts))
    decreases |script|
  {
    if script == [] {
      return [];
    }
    var pc := Ready(cfg);
    var part, pc' := GreetingShare(cfg, script[0], script[1..]);
    var more := Explain(cfg, pc', script[1..]);
    parts := [part] + more;
    assert [script[0]] + script[1..] == script;
    Prepended(cfg, true, pc, script, part, pc', more);
    AssocEvents(part, Flat(more), Dropped(End(cfg, true, pc, script, parts)));
  }

  lemma GreetingShare(cfg: Config, i: Input, script: seq<Input>) returns (part: seq<Event>, pc': Pc)
    ensures Fits(cfg, true, Ready(cfg), i, part) && !Opens(part) && Run(cfg, Ready(cfg), part) == Some(pc')
    ensures Spot(cfg, pc') && Still(pc')
    ensures Greet(cfg, [i] + script) == part + Drive(cfg, pc', script)
  {
    assert ([i] + script)[1..] == script;
    if i.Broken? {
      part, pc' := [Fail, DropHandle], Gone;
      TwoEvents(cfg, Ready(cfg), Fail, DropHandle);
    } else {
      part, pc' := [], Ready(cfg);
    }
  }

  lemma AssocEvents(a: seq<Event>, b: seq<Event>, c: seq<Event>)
    ensures a + b + c == a + (b + c)
  {
  }

  /** A whole script from the start: a complete run of the automaton that is exactly what the script calls for, with
      everything leased given back and what was routed a prefix of what was taken. */
  lemma PlanRuns(cfg: Config, script: seq<Input>)
    ensures var events := Drive(cfg, Start, script);
      && Run(cfg, Start, events) == Some(Gone) && Explained(cfg, script, events)
      && (!cfg.mode.SessionMode? ==>
            var l := Routing.LedgerOf(events); l.open.None? && Routing.Routed(l) <= Routing.Taken(events))
  {
    var events := Drive(cfg, Start, script);
    DriveRuns(cfg, [], Start, script);
    assert [] + events == events;
    var parts := Explain(cfg, Start, script);
    if !cfg.mode.SessionMode? {
      Routing.LedgerHolds(cfg, events);
    }
  }

  // ---------------------------------------------------------------------------------------------
  // The program

  datatype Outcome<+T> = Ok(value: T) | Err | Aborted

  class Task {
    const cfg: Config
    var script: seq<Input>
    var history: seq<Event>
    /** The I/O the whole script leads to. */
    ghost const plan: seq<Event>

    /** The task is in state `pc`: what it has done and what `Drive` has it do from there make up the plan. */
    ghost predicate At(pc: Pc)
      reads this
    {
      history + Drive(cfg, pc, script) == plan
    }

    ghost predicate Greeting()
      reads this
    {
      history + Greet(cfg, script) == plan
    }

    /** Its await in state `pc` has resolved to `i`. */
    ghost predicate Facing(pc: Pc, i: Input)
      reads this
    {
      history + React(cfg, pc, i, script) == plan
    }

    constructor (cfg: Config, script: seq<Input>)
      ensures this.cfg == cfg && this.script == script && history == [] && plan == Drive(cfg, Start, script)
    {
      this.cfg, this.script, history, plan := cfg, script, [], Drive(cfg, Start, script);
    }

    method Record(ev: Event, ghost rest: seq<Event>)
      requires history + ([ev] + rest) == plan
      modifies this`history
      ensures history + rest == plan
    {
      ghost var was := history;
      history := history + [ev];
      assert was + [ev] + rest == was + ([ev] + rest);
    }

    /** One event, into state `pc`. */
    method Step(ev: Event, ghost pc: Pc)
      requires history + ([ev] + Drive(cfg, pc, script)) == plan
      modifies this`history
      ensures At(pc)
    {
      Record(ev, Drive(cfg, pc, script));
    }

    /** The next await; `None` means the task is dropped here. */
    method Await(ghost pc: Pc) returns (i: Option<Input>)
      requires At(pc) && Waits(pc)
      modifies this
      ensures i.None? ==> At(Dropping)
      ensures i.Some? ==> Facing(pc, i.value) && |script| < |old(script)|
      ensures |script| <= |old(script)|
    {
      if script == [] {
        Step(Abort, Dropping);
        return None;
      }
      i := Some(script[0]);
      script := script[1..];
    }

    /** `startup_params`: a cache hit, or a lease that carries nothing and goes straight back. */
    method StartupParams() returns (r: Outcome<()>)
      requires At(Start)
      modifies this
      ensures if r.Ok? then Greeting() else At(Dropping)
    {
      while true
        invariant At(Start)
        decreases |script|
      {
        var i := Await(Start);
        match i {
          case None => return Aborted;
          case Some(CacheHit) =>
            Record(Cached, Greet(cfg, script));
            return Ok(());
          case Some(Granted(k, _)) =>
            Record(Lease(k), [Checkin(k)] + Greet(cfg, script));
            Record(Checkin(k), Greet(cfg, script));
            return Ok(());
          case Some(Refused) =>
            Step(Fail, Dropping);
            return Err;
          case _ =>
        }
      }
    }

    /** `pool.lease`, then `handle.set(target)` when the lease has one. */
    method LeaseBackend(ghost pc: Pc) returns (r: Outcome<ConnId>)
      requires At(pc) && (pc.Want? || pc.SWant?)
      modifies this
      ensures r.Ok? ==> At(if pc.Want? then Send(r.value, pc.f) else SRelay(r.value)) && |script| < |old(script)|
      ensures !r.Ok? ==> At(Dropping)
      ensures |script| <= |old(script)|
    {
      while true
        invariant At(pc) && |script| <= |old(script)|
        decreases |script|
      {
        var i := Await(pc);
        match i {
          case None => return Aborted;
          case Some(Granted(k, target)) =>
            ghost var pc' := if pc.Want? then Send(k, pc.f) else SRelay(k);
            Record(Lease(k), [SlotEvent(k, target)] + Drive(cfg, pc', script));
            if target {
              Step(SetSlot(k), pc');
            } else {
              Step(NoTarget, pc');
            }
            return Ok(k);
          case Some(Refused) =>
            Step(Fail, Dropping);
            return Err;
          case _ =>
        }
      }
    }

    /** Writing a client frame to the backend: `forward_first`, and the client arm of the relay. */
    method Forward(k: ConnId, f: Message) returns (r: Outcome<()>)
      requires At(Send(k, f))
      modifies this
      ensures At(match r case Ok(_) => Relay(k) case Err => Discarding(k, false) case Aborted => Dropping)
      ensures |script| <= |old(script)|
    {
      var i := Await(Send(k, f));
      if i.None? { return Aborted; }
      if i.value.Broken? {
        Step(Fail, Discarding(k, false));
        return Err;
      }
      Step(WriteBackend(k, f), Relay(k));
      r := Ok(());
    }

    /** Writing a backend message to the client, flushed after ReadyForQuery and ErrorResponse. */
    method Hand(k: ConnId, m: Message) returns (r: Outcome<()>)
      requires At(Deliver(k, m))
      modifies this
      ensures At(match r case Ok(_) => AfterDeliver(cfg, k, m) case Err => Discarding(k, false) case Aborted => Dropping)
      ensures |script| <= |old(script)|
    {
      var w := Await(Deliver(k, m));
      if w.None? { return Aborted; }
      if w.value.Broken? {
        Step(Fail, Discarding(k, false));
        return Err;
      }
      if w.value.LateBroken? && (IsRfq(m) || m.tag == Codec.ERROR_RESPONSE) {
        Step(LateFail(m), Discarding(k, false));
        return Err;
      }
      Step(WriteClient(m), AfterDeliver(cfg, k, m));
      r := Ok(());
    }

    /** The client's Terminate, passed on if the backend still takes it. */
    method SayBye(k: ConnId, f: Message) returns (aborted: bool)
      requires At(Bye(k, f))
      modifies this
      ensures At(if aborted then Dropping else Discarding(k, false))
      ensures |script| <= |old(script)|
    {
      var w := Await(Bye(k, f));
      if w.None? { return true; }
      if w.value.Broken? {
        Step(Fail, Discarding(k, false));
      } else {
        Step(WriteBackend(k, f), Discarding(k, false));
      }
      aborted := false;
    }

    /** `relay_to_next_rfq`: the status byte at the next ReadyForQuery, or `None` when the client is gone. */
    method RelayToNextRfq(k: ConnId) returns (r: Outcome<Option<byte>>)
      requires At(Relay(k))
      modifies this
      ensures r.Ok? && r.value.Some? ==> At(AtBoundary(cfg, k, r.value.value)) && |script| < |old(script)|
      ensures r.Ok? && r.value.None? ==> At(Discarding(k, false))
      ensures r.Err? ==> At(Discarding(k, false))
      ensures r.Aborted? ==> At(Dropping)
      ensures |script| <= |old(script)|
    {
      while true
        invariant At(Relay(k)) && |script| <= |old(script)|
        decreases |script|
      {
        var i := Await(Relay(k));
        match i {
          case None => return Aborted;
          case Some(BackendFrame(m)) =>
            Step(ReadBackend(k, m), Deliver(k, m));
            var given := Hand(k, m);
            if given.Aborted? { return Aborted; }
            if given.Err? { return Err; }
            if IsRfq(m) {
              return Ok(Some(if m.payload == [] then IDLE else m.payload[0]));
            }
          case Some(BackendClosed) =>
            Step(Fail, Discarding(k, false));
            return Err;
          case Some(ClientClosed) =>
            Step(ClientEof, Discarding(k, false));
            return Ok(None);
          case Some(ClientError) =>
            Step(Fail, Discarding(k, false));
            return Err;
          case Some(ClientFrame(f)) =>
            if f.tag == Codec.TERMINATE {
              Step(ReadClient(f), Bye(k, f));
              var gone := SayBye(k, f);
              return if gone then Aborted else Ok(None);
            }
            Step(ReadClient(f), Send(k, f));
            var sent := Forward(k, f);
            if sent.Err? { return Err; }
            if sent.Aborted? { return Aborted; }
          case _ =>
        }
      }
    }

    /** `Lease::reset` */
    method Reset(k: ConnId, reset: Message) returns (r: Outcome<()>)
      requires At(AtIdle(k)) && cfg.reset == Some(reset)
      modifies this
      ensures At(match r case Ok(_) => Clean(k) case Err => Discarding(k, true) case Aborted => Dropping)
      ensures |script| <= |old(script)|
    {
      var w := Await(AtIdle(k));
      if w.None? { return Aborted; }
      if w.value.Broken? {
        Step(Fail, Discarding(k, true));
        return Err;
      }
      Step(WriteReset(k, reset), Drain(k));
      while true
        invariant At(Drain(k)) && |script| <= |old(script)|
        decreases |script|
      {
        var i := Await(Drain(k));
        match i {
          case None => return Aborted;
          case Some(BackendClosed) =>
            Step(Fail, Discarding(k, true));
            return Err;
          case Some(BackendFrame(m)) =>
            Step(ReadReset(k, m), AfterReset(k, m));
            if m.tag == Codec.READY_FOR_QUERY {
              return if m.payload != [] && m.payload[0] == IDLE then Ok(()) else Err;
            } else if m.tag == Codec.ERROR_RESPONSE {
              return Err;
            }
          case _ =>
        }
      }
    }

    /** `run_lease`: the connection is checked in only after an idle boundary and a clean reset; every other
        way out gives it up. `Ok(true)` keeps serving the client. */
    method RunLease(k: ConnId, first: Message) returns (r: Outcome<bool>)
      requires At(Send(k, first)) && !cfg.mode.SessionMode?
      modifies this
      ensures At(match r case Ok(keep) => Release(keep) case Err => Release(false) case Aborted => Dropping)
      ensures |script| <= |old(script)|
    {
      var sent := Forward(k, first);
      if sent.Aborted? { return Aborted; }
      if sent.Err? {
        Step(Discard(k), Release(false));
        return Err;
      }
      while true
        invariant At(Relay(k)) && |script| <= |old(script)|
        decreases |script|
      {
        var status := RelayToNextRfq(k);
        match status {
          case Aborted => return Aborted;
          case Err =>
            Step(Discard(k), Release(false));
            return Err;
          case Ok(None) =>
            Step(Discard(k), Release(false));
            return Ok(false);
          case Ok(Some(st)) =>
            if st == IDLE {
              if cfg.reset.Some? {
                var clean := Reset(k, cfg.reset.value);
                if clean.Aborted? { return Aborted; }
                if clean.Err? {
                  Step(Discard(k), Release(true));
                  return Ok(true);
                }
              }
              Step(Checkin(k), Release(true));
              return Ok(true);
            }
            if cfg.mode.StatementMode? {
              Step(Discard(k), Release(true));
              return Ok(true);
            }
        }
      }
    }

    /** `relay_pooled` */
    method RelayPooled() returns (r: Outcome<()>)
      requires At(Idle) && !cfg.mode.SessionMode?
      modifies this
      ensures At(Dropping)
    {
      while true
        invariant At(Idle)
        decreases |script|
      {
        var i := Await(Idle);
        match i {
          case None => return Aborted;
          case Some(ClientClosed) =>
            Step(ClientEof, Dropping);
            return Ok(());
          case Some(ClientError) =>
            Step(Fail, Dropping);
            return Err;
          case Some(ClientFrame(first)) =>
            if first.tag == Codec.TERMINATE {
              Step(ReadClient(first), Dropping);
              return Ok(());
            }
            Step(ReadClient(first), Want(first));
            var lease := LeaseBackend(Want(first));
            if lease.Err? { return Err; }
            if lease.Aborted? { return Aborted; }
            var keep := RunLease(lease.value, first);
            if keep.Aborted? { return Aborted; }
            var serving := keep.Ok? && keep.value;
            Step(Clear, if serving then Idle else Dropping);
            if !serving {
              return if keep.Ok? then Ok(()) else Err;
            }
          case _ =>
        }
      }
    }

    /** `copy_bidirectional`: ends when either side closes or fails. */
    method CopyBidirectional(k: ConnId) returns (aborted: bool)
      requires At(SRelay(k))
      modifies this
      ensures At(if aborted then Dropping else SStopped(k))
    {
      while true
        invariant At(SRelay(k))
        decreases |script|
      {
        var i := Await(SRelay(k));
        if i.None? {
          return true;
        }
        if i.value.ClientFrame? {
          Step(PassUp(k, i.value.f), SRelay(k));
        } else if i.value.BackendFrame? {
          Step(PassDown(k, i.value.m), SRelay(k));
        } else if Stops(i.value) {
          Step(Stop, SStopped(k));
          return false;
        }
      }
    }

    /** Session mode: one backend for the whole connection, relayed opaquely and never pooled again. */
    method RelaySession() returns (r: Outcome<()>)
      requires At(SWant)
      modifies this
      ensures At(Dropping)
    {
      var lease := LeaseBackend(SWant);
      if lease.Err? { return Err; }
      if lease.Aborted? { return Aborted; }
      var k := lease.value;
      var aborted := CopyBidirectional(k);
      if aborted { return Aborted; }
      Step(Clear, SCleared(k));
      Step(Discard(k), Dropping);
      r := Ok(());
    }

    /** `synthesize_startup`, one write. */
    method Synthesize() returns (r: Outcome<()>)
      requires Greeting()
      modifies this
      ensures At(if r.Ok? then Ready(cfg) else Dropping)
    {
      if script == [] {
        Step(Abort, Dropping);
        return Aborted;
      }
      var broken := script[0].Broken?;
      script := script[1..];
      if broken {
        Step(Fail, Dropping);
        return Err;
      }
      r := Ok(());
    }

    /** The whole program up to the end of the cancel session: the plan is carried out. */
    method CarryOut() returns (r: Outcome<()>)
      requires At(Start)
      modifies this
      ensures At(Gone)
    {
      r := StartupParams();
      if r.Ok? {
        r := Synthesize();
        if r.Ok? {
          if cfg.mode.SessionMode? {
            r := RelaySession();
          } else {
            r := RelayPooled();
          }
        }
      }
      Step(DropHandle, Gone);
    }

    /** `serve_pooled` for a client whose authentication the proxy terminated, and the end of its cancel session. Whatever
        the awaits resolve to, the I/O is exactly what that calls for and a complete run of the automaton, every
        lease has been given back, and every frame routed was taken from the client, in order. */
    method Serve() returns (r: Outcome<()>)
      requires history == [] && plan == Drive(cfg, Start, script)
      modifies this
      ensures history == Drive(cfg, Start, old(script))
      ensures Explained(cfg, old(script), history)
      ensures Run(cfg, Start, history) == Some(Gone)
      ensures !cfg.mode.SessionMode? ==>
                var l := Routing.LedgerOf(history);
                l.open.None? && Routing.Routed(l) <= Routing.Taken(history)
    {
      ghost var all := script;
      Nothing(plan);
      r := CarryOut();
      Nothing(history);
      PlanRuns(cfg, all);
    }
  }

  lemma Nothing(events: seq<Event>)
    ensures [] + events == events && events + [] == events
  {
  }
}
