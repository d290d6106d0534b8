/** Where a session's frames go: its history split into leases (src/proxy/pooled.rs:169-195, 229-327). */
module Routing {
  import opened Bytes
  import opened Session
  import Codec

  datatype Ending = CheckedIn | Discarded

  /** One lease: the client frames written to it, in order; the transaction statuses relayed from it; whether something cut
      the session short on it; and whether its reset failed. */
  datatype Segment = Segment(conn: ConnId, frames: seq<Message>, statuses: seq<byte>, cut: bool, refused: bool)

  /** Finished leases with how they ended, the lease now held, and whether something has cut the session short. */
  datatype Ledger = Ledger(done: seq<(Segment, Ending)>, open: Option<Segment>, over: bool)

  function Close(l: Ledger, how: Ending): Ledger {
    if l.open.None? then l else l.(done := l.done + [(l.open.value, how)], open := None)
  }

  predicate LastIdle(st: seq<byte>) {
    st != [] && st[|st| - 1] == 'I' as int
  }

  /** The status a ReadyForQuery reports: its byte, or idle without one. */
  function Reported(m: Message): byte {
    if m.payload == [] then 'I' as int else m.payload[0]
  }

  /** A message with tag `E`, or with tag `Z` and anything but the idle byte. */
  predicate BadReset(m: Message) {
    m.tag == 'E' as int || (m.tag == 'Z' as int && (m.payload == [] || m.payload[0] != 'I' as int))
  }

  /** The end of the client or of the task, or a failure anywhere but in the reset that follows an idle status. */
  predicate Cuts(open: Option<Segment>, ev: Event) {
    || ev.ClientEof? || ev.LateFail? || ev.Abort? || (ev.ReadClient? && ev.f.tag == Codec.TERMINATE)
    || (ev.Fail? && !(open.Some? && LastIdle(open.value.statuses)))
  }

  /** The reset fails: its connection, an error, or a status other than an explicit idle. */
  predicate Refuses(seg: Segment, ev: Event) {
    || (ev.Fail? && LastIdle(seg.statuses))
    || (ev.ReadReset? && BadReset(ev.m))
  }

  /** A lease after one more I/O event on it. */
  function Extend(seg: Segment, ev: Event): Segment {
    Segment(seg.conn,
            seg.frames + Sent(ev),
            if ev.WriteClient? && ev.m.tag == 'Z' as int then seg.statuses + [Reported(ev.m)] else seg.statuses,
            seg.cut || Cuts(Some(seg), ev),
            seg.refused || Refuses(seg, ev))
  }

  function Note(l: Ledger, ev: Event): Ledger {
    var l1 := l.(open := if l.open.None? then None else Some(Extend(l.open.value, ev)), over := l.over || Cuts(l.open, ev));
    if ev.Lease? then l1.(open := Some(Segment(ev.k, [], [], false, false)))
    else if ev.Checkin? then Close(l1, CheckedIn)
    else if ev.Discard? || ev.Abort? then Close(l1, Discarded)
    else l1
  }

  /** A function of the I/O events alone: it does not look at the automaton. */
  function LedgerOf(history: seq<Event>): Ledger {
    if history == [] then Ledger([], None, false)
    else Note(LedgerOf(history[..|history| - 1]), history[|history| - 1])
  }

  /** What an event takes from the client, but for a Terminate the session acts on. */
  function Heard(ev: Event): seq<Message> {
    if (ev.ReadClient? && ev.f.tag != Codec.TERMINATE) || ev.PassUp? then [ev.f] else []
  }

  /** What it writes to a backend for the client, but for such a Terminate. */
  function Sent(ev: Event): seq<Message> {
    if (ev.WriteBackend? && ev.f.tag != Codec.TERMINATE) || ev.PassUp? then [ev.f] else []
  }

  /** What it takes from a backend for the client. */
  function Got(ev: Event): seq<Message> {
    if ev.ReadBackend? || ev.PassDown? then [ev.m] else []
  }

  /** What it writes to the client. */
  function Given(ev: Event): seq<Message> {
    if ev.WriteClient? || ev.LateFail? || ev.PassDown? then [ev.m] else []
  }

  /** All of it, in order. */
  function Gather(g: Event -> seq<Message>, history: seq<Event>): seq<Message> {
    if history == [] then [] else Gather(g, history[..|history| - 1]) + g(history[|history| - 1])
  }

  function Taken(history: seq<Event>): seq<Message> {
    Gather(Heard, history)
  }

  function Frames(done: seq<(Segment, Ending)>): seq<Message> {
    if done == [] then [] else Frames(done[..|done| - 1]) + done[|done| - 1].0.frames
  }

  /** Everything routed so far, lease after lease. */
  function Routed(l: Ledger): seq<Message> {
    Frames(l.done) + if l.open.None? then [] else l.open.value.frames
  }

  function InHand(pc: Pc): seq<Message> {
    match pc
    case Want(f) => [f]
    case Held(_, f) => [f]
    case Send(_, f) => [f]
    case _ => []
  }

  /** The session has failed or finished and will not serve another frame. */
  predicate Ended(pc: Pc) {
    pc.Dropping? || pc.Gone? || pc.Bye? || ((pc.Discarding? || pc.Release?) && !pc.keep)
  }

  /** Only the last status of a lease can be idle, and in statement mode there is only one. */
  predicate StatusesOk(cfg: Config, st: seq<byte>) {
    && (forall i :: 0 <= i < |st| - 1 ==> st[i] != 'I' as int)
    && (cfg.mode.StatementMode? ==> |st| <= 1)
  }

  predicate InTransaction(cfg: Config, st: seq<byte>) {
    && (forall i :: 0 <= i < |st| ==> st[i] != 'I' as int)
    && (cfg.mode.StatementMode? ==> st == [])
  }

  predicate EndsIdle(seg: Segment) {
    seg.frames != [] && LastIdle(seg.statuses)
  }

  /** A lease that must not be pooled again: cut short, not reset, or in statement mode left in a transaction. */
  predicate Spoilt(cfg: Config, seg: Segment) {
    seg.cut || seg.refused || (cfg.mode.StatementMode? && seg.statuses != [] && !LastIdle(seg.statuses))
  }

  /** A finished lease: discarded exactly if spoilt; pooled again, it carried nothing or carried frames and last reported
      idle. A lease that never reported idle was cut short, or in statement mode left in a transaction. */
  predicate FinishedOk(cfg: Config, seg: Segment, how: Ending) {
    && StatusesOk(cfg, seg.statuses)
    && (how.Discarded? <==> Spoilt(cfg, seg))
    && (how.CheckedIn? ==> (seg.frames == [] && seg.statuses == []) || EndsIdle(seg))
    && (seg.refused ==> EndsIdle(seg))
  }

  /** What a held lease looks like in each state of the session. */
  predicate OpenOk(cfg: Config, seg: Segment, pc: Pc) {
    && StatusesOk(cfg, seg.statuses) && (seg.cut <==> Ended(pc)) && (seg.refused ==> EndsIdle(seg))
    && match pc
       case Probe(_) => Untouched(seg)
       case Held(_, _) => Untouched(seg)
       case Send(_, _) => InTransaction(cfg, seg.statuses) && !seg.refused
       case Relay(_) => seg.frames != [] && InTransaction(cfg, seg.statuses) && !seg.refused
       case Deliver(_, _) => seg.frames != [] && InTransaction(cfg, seg.statuses) && !seg.refused
       case Bye(_, _) => InTransaction(cfg, seg.statuses) && !seg.refused
       case Discarding(_, _) => Spoilt(cfg, seg)
       case _ => EndsIdle(seg) && !seg.refused
  }

  predicate Untouched(seg: Segment) {
    seg.frames == [] && seg.statuses == [] && !seg.refused
  }

  /** Only the last lease can be cut short, and then the session is over. */
  predicate CutLast(l: Ledger) {
    forall i :: 0 <= i < |l.done| && l.done[i].0.cut ==> i == |l.done| - 1 && l.open.None? && l.over
  }

  /** The open lease is the one the session holds; every lease has the shape its end requires. */
  ghost predicate ShapeOk(cfg: Config, l: Ledger, pc: Pc) {
    && (Holds(pc) == if l.open.None? then None else Some(l.open.value.conn))
    && (l.open.Some? ==> OpenOk(cfg, l.open.value, pc))
    && (forall i :: 0 <= i < |l.done| ==> FinishedOk(cfg, l.done[i].0, l.done[i].1))
    && (l.over <==> Ended(pc)) && CutLast(l)
    && !SessionModeState(pc)
  }

  predicate InOrder(routed: seq<Message>, taken: seq<Message>, pc: Pc) {
    if Ended(pc) then routed <= taken && |taken| <= |routed| + 1 else routed + InHand(pc) == taken
  }

  predicate TerminateOk(pc: Pc) {
    && (pc.Want? || pc.Held? || pc.Send? ==> pc.f.tag != Codec.TERMINATE)
    && (pc.Bye? ==> pc.f.tag == Codec.TERMINATE)
  }

  predicate SessionModeState(pc: Pc) {
    pc.SWant? || pc.SHeld? || pc.SRelay? || pc.SStopped? || pc.SCleared?
  }

  lemma FramesSnoc(done: seq<(Segment, Ending)>, x: (Segment, Ending))
    ensures Frames(done + [x]) == Frames(done) + x.0.frames
  {
    assert (done + [x])[..|done|] == done;
  }

  lemma NoteRouted(l: Ledger, ev: Event)
    requires ev.Lease? ==> l.open.None?
    requires Sent(ev) != [] ==> l.open.Some?
    ensures Routed(Note(l, ev)) == Routed(l) + Sent(ev)
  {
    assert Routed(l) + [] == Routed(l);
    if l.open.None? {
      assert Frames(l.done) + [] == Frames(l.done);
    } else if ev.Checkin? {
      CloseRouted(l, CheckedIn);
    } else if ev.Discard? || ev.Abort? {
      CloseRouted(l, Discarded);
    } else {
      Appended(Frames(l.done), l.open.value.frames, Sent(ev));
      assert Extend(l.open.value, ev).frames == l.open.value.frames + Sent(ev);
    }
  }

  lemma CloseRouted(l: Ledger, how: Ending)
    requires l.open.Some?
    ensures Routed(Close(l, how)) == Routed(l)
  {
    FramesSnoc(l.done, (l.open.value, how));
    assert Routed(l) + [] == Routed(l);
  }

  lemma Appended(a: seq<Message>, b: seq<Message>, c: seq<Message>)
    ensures a + (b + c) == a + b + c
  {
  }

  /** An event that is not the end of a lease keeps its shape. */
  lemma LeaseKeepsShape(cfg: Config, seg: Segment, pc: Pc, ev: Event)
    requires !cfg.mode.SessionMode? && Next(cfg, pc, ev).Some? && !SessionModeState(pc)
    requires Holds(pc) == Some(seg.conn) && OpenOk(cfg, seg, pc) && TerminateOk(pc)
    requires !(ev.Checkin? || ev.Discard? || ev.Abort?)
    ensures var pc' := Next(cfg, pc, ev).value;
      Holds(pc') == Some(seg.conn) && OpenOk(cfg, Extend(seg, ev), pc') && !SessionModeState(pc')
    ensures Ended(Next(cfg, pc, ev).value) <==> Ended(pc) || Cuts(Some(seg), ev)
  {
    if ev.Fail? {
      FailKeepsShape(cfg, seg, pc);
    } else if ev.WriteClient? {
      DeliverKeepsShape(cfg, seg, pc, ev.m);
    }
  }

  lemma FailKeepsShape(cfg: Config, seg: Segment, pc: Pc)
    requires Next(cfg, pc, Fail).Some? && !SessionModeState(pc) && Holds(pc) == Some(seg.conn) && OpenOk(cfg, seg, pc)
    ensures OpenOk(cfg, Extend(seg, Fail), Next(cfg, pc, Fail).value)
  {
  }

  lemma DeliverKeepsShape(cfg: Config, seg: Segment, pc: Pc, m: Message)
    requires !cfg.mode.SessionMode? && Next(cfg, pc, WriteClient(m)).Some? && Holds(pc) == Some(seg.conn)
    requires OpenOk(cfg, seg, pc)
    ensures OpenOk(cfg, Extend(seg, WriteClient(m)), Next(cfg, pc, WriteClient(m)).value)
  {
  }

  /** The events that end a lease end it in order. */
  lemma LeaseEndsInShape(cfg: Config, seg: Segment, pc: Pc, ev: Event)
    requires !cfg.mode.SessionMode? && Next(cfg, pc, ev).Some? && !SessionModeState(pc)
    requires Holds(pc) == Some(seg.conn) && OpenOk(cfg, seg, pc) && (ev.Checkin? || ev.Discard? || ev.Abort?)
    ensures FinishedOk(cfg, Extend(seg, ev), if ev.Checkin? then CheckedIn else Discarded)
    ensures var pc' := Next(cfg, pc, ev).value;
      Holds(pc').None? && !SessionModeState(pc') && (Ended(pc') <==> Extend(seg, ev).cut)
  {
  }

  /** Without a lease. */
  lemma FreeKeepsShape(cfg: Config, pc: Pc, ev: Event)
    requires !cfg.mode.SessionMode? && Next(cfg, pc, ev).Some? && !SessionModeState(pc) && Holds(pc).None? && TerminateOk(pc)
    ensures var pc' := Next(cfg, pc, ev).value;
      && !SessionModeState(pc') && (Ended(pc') <==> Ended(pc) || Cuts(None, ev))
      && (if ev.Lease? then Holds(pc') == Some(ev.k) && OpenOk(cfg, Segment(ev.k, [], [], false, false), pc')
          else Holds(pc').None?)
  {
  }

  lemma ClosedInShape(cfg: Config, l: Ledger, seg: Segment, how: Ending, pc': Pc)
    requires FinishedOk(cfg, seg, how) && CutLast(l) && l.open.Some?
    requires forall i :: 0 <= i < |l.done| ==> FinishedOk(cfg, l.done[i].0, l.done[i].1)
    requires Holds(pc').None? && !SessionModeState(pc') && (Ended(pc') <==> seg.cut)
    ensures ShapeOk(cfg, Ledger(l.done + [(seg, how)], None, seg.cut), pc')
  {
  }

  lemma NoteKeepsShape(cfg: Config, l: Ledger, pc: Pc, ev: Event)
    requires !cfg.mode.SessionMode? && Next(cfg, pc, ev).Some? && ShapeOk(cfg, l, pc) && TerminateOk(pc)
    ensures ShapeOk(cfg, Note(l, ev), Next(cfg, pc, ev).value)
  {
    var pc' := Next(cfg, pc, ev).value;
    if l.open.None? {
      FreeKeepsShape(cfg, pc, ev);
    } else if ev.Checkin? || ev.Discard? || ev.Abort? {
      LeaseEndsInShape(cfg, l.open.value, pc, ev);
      ClosedInShape(cfg, l, Extend(l.open.value, ev), if ev.Checkin? then CheckedIn else Discarded, pc');
    } else {
      LeaseKeepsShape(cfg, l.open.value, pc, ev);
    }
  }

  lemma NoteKeepsOrder(cfg: Config, routed: seq<Message>, taken: seq<Message>, pc: Pc, ev: Event)
    requires Next(cfg, pc, ev).Some? && TerminateOk(pc) && !SessionModeState(pc) && InOrder(routed, taken, pc)
    ensures InOrder(routed + Sent(ev), taken + Heard(ev), Next(cfg, pc, ev).value)
    ensures TerminateOk(Next(cfg, pc, ev).value)
  {
    assert taken + [] == taken && routed + [] == routed;
    assert routed <= taken;
  }

  lemma {:induction false} LedgerHolds(cfg: Config, history: seq<Event>)
    requires !cfg.mode.SessionMode? && Run(cfg, Start, history).Some?
    ensures var pc := Run(cfg, Start, history).value;
      ShapeOk(cfg, LedgerOf(history), pc) && TerminateOk(pc) && InOrder(Routed(LedgerOf(history)), Taken(history), pc)
    decreases |history|
  {
    if history != [] {
      var before, ev := history[..|history| - 1], history[|history| - 1];
      var pc := Run(cfg, Start, before).value;
      LedgerHolds(cfg, before);
      NoteKeepsShape(cfg, LedgerOf(before), pc, ev);
      NoteRouted(LedgerOf(before), ev);
      NoteKeepsOrder(cfg, Routed(LedgerOf(before)), Taken(before), pc, ev);
    }
  }

  /** Ordered, lossless routing. While the session lives, the frames it took are exactly the frames written
      to its leases, one contiguous run per lease, plus at most the one in hand; a session that fails
      loses at most one. No lease is checked in unless its last report was idle, and in statement mode a lease that
      ever reported a transaction is never checked in. */
  lemma FramesAreRoutedInOrder(cfg: Config, history: seq<Event>)
    requires !cfg.mode.SessionMode? && Run(cfg, Start, history).Some?
    ensures var pc := Run(cfg, Start, history).value; var l := LedgerOf(history);
      if Ended(pc) then Routed(l) <= Taken(history) && |Taken(history)| <= |Routed(l)| + 1
      else Routed(l) + InHand(pc) == Taken(history)
    ensures forall i :: 0 <= i < |LedgerOf(history).done| && LedgerOf(history).done[i].1.CheckedIn? ==>
              PooledAtIdle(cfg, LedgerOf(history).done[i].0)
  {
    LedgerHolds(cfg, history);
    PooledSegments(cfg, LedgerOf(history), Run(cfg, Start, history).value);
  }

  lemma PooledSegments(cfg: Config, l: Ledger, pc: Pc)
    requires ShapeOk(cfg, l, pc)
    ensures forall i :: 0 <= i < |l.done| && l.done[i].1.CheckedIn? ==> PooledAtIdle(cfg, l.done[i].0)
  {
    forall i | 0 <= i < |l.done| && l.done[i].1.CheckedIn?
      ensures PooledAtIdle(cfg, l.done[i].0)
    {
      assert FinishedOk(cfg, l.done[i].0, l.done[i].1);
    }
  }

  /** A lease that may be pooled again: if it carried frames its last report was idle, everything before that
      was inside a transaction, and in statement mode nothing was. */
  ghost predicate PooledAtIdle(cfg: Config, seg: Segment) {
    && (seg.frames != [] ==> seg.statuses != [] && seg.statuses[|seg.statuses| - 1] == 'I' as int)
    && (forall j :: 0 <= j < |seg.statuses| - 1 ==> seg.statuses[j] != 'I' as int)
    && (cfg.mode.StatementMode? ==> forall j :: 0 <= j < |seg.statuses| ==> seg.statuses[j] == 'I' as int)
  }

  // ---------------------------------------------------------------------------------------------
  // How leases end

  /** From the history alone: a lease is discarded exactly if the session was cut short on it, its reset failed, or in
      statement mode it was left in a transaction; and the session ends exactly when something has cut it short. In
      particular a failing reset costs the client nothing, and a clean lease is always pooled again. */
  lemma LeasesEndExactly(cfg: Config, history: seq<Event>)
    requires !cfg.mode.SessionMode? && Run(cfg, Start, history).Some?
    ensures var l := LedgerOf(history); l.over <==> Ended(Run(cfg, Start, history).value)
    ensures var l := LedgerOf(history); forall i :: 0 <= i < |l.done| ==>
              (l.done[i].1.Discarded? <==> Spoilt(cfg, l.done[i].0))
  {
    LedgerHolds(cfg, history);
    AllFinished(cfg, LedgerOf(history), Run(cfg, Start, history).value);
  }

  lemma AllFinished(cfg: Config, l: Ledger, pc: Pc)
    requires ShapeOk(cfg, l, pc)
    ensures forall i :: 0 <= i < |l.done| ==> (l.done[i].1.Discarded? <==> Spoilt(cfg, l.done[i].0))
  {
    forall i | 0 <= i < |l.done|
      ensures l.done[i].1.Discarded? <==> Spoilt(cfg, l.done[i].0)
    {
      assert FinishedOk(cfg, l.done[i].0, l.done[i].1);
    }
  }

  /** A lease that holds one whole transaction: idle was relayed from it once, at the end. */
  predicate WholeTransaction(seg: Segment) {
    EndsIdle(seg) && forall i :: 0 <= i < |seg.statuses| - 1 ==> seg.statuses[i] != 'I' as int
  }

  /** A finished lease of a transaction pool carried nothing and was pooled again, or held a whole transaction, or was the
      session's last and cut short. */
  predicate KeptWhole(l: Ledger, i: nat)
    requires i < |l.done|
  {
    var (seg, how) := l.done[i];
    || (Untouched(seg) && how.CheckedIn?)
    || WholeTransaction(seg)
    || (seg.cut && i == |l.done| - 1 && l.open.None? && l.over)
  }

  /** In transaction mode no transaction is spread over two leases: as long as the session lives, a lease is given up only when
      idle has been relayed from it. So whatever the client sends after a status other than idle goes to the same
      backend, up to the next idle status or the end of the session. */
  lemma TransactionsStayWhole(cfg: Config, history: seq<Event>)
    requires cfg.mode.TransactionMode? && Run(cfg, Start, history).Some?
    ensures var l := LedgerOf(history); forall i :: 0 <= i < |l.done| ==> KeptWhole(l, i)
  {
    LedgerHolds(cfg, history);
    SegmentsKeptWhole(cfg, LedgerOf(history), Run(cfg, Start, history).value);
  }

  lemma SegmentsKeptWhole(cfg: Config, l: Ledger, pc: Pc)
    requires cfg.mode.TransactionMode? && ShapeOk(cfg, l, pc)
    ensures forall i :: 0 <= i < |l.done| ==> KeptWhole(l, i)
  {
    forall i | 0 <= i < |l.done|
      ensures KeptWhole(l, i)
    {
      assert FinishedOk(cfg, l.done[i].0, l.done[i].1);
    }
  }

  // ---------------------------------------------------------------------------------------------
  // Both directions, in every mode

  /** The backend message in hand for the client. */
  function OutHand(pc: Pc): seq<Message> {
    if pc.Deliver? then [pc.m] else []
  }

  predicate RelayedOk(pc: Pc, got: seq<Message>, given: seq<Message>) {
    if Ended(pc) then given <= got && |got| <= |given| + 1 else given + OutHand(pc) == got
  }

  lemma GivenStep(cfg: Config, pc: Pc, ev: Event, got: seq<Message>, given: seq<Message>)
    requires Next(cfg, pc, ev).Some? && RelayedOk(pc, got, given)
    ensures RelayedOk(Next(cfg, pc, ev).value, got + Got(ev), given + Given(ev))
  {
    assert got + [] == got && given + [] == given;
    assert given <= got;
  }

  /** The other direction, in every mode: while the session lives the client has been given exactly what was read from its
      backends outside resets, in order, but for a message in hand; a session that ends loses at most one. */
  lemma {:induction false} RepliesAreRelayedInOrder(cfg: Config, history: seq<Event>)
    requires Run(cfg, Start, history).Some?
    ensures RelayedOk(Run(cfg, Start, history).value, Gather(Got, history), Gather(Given, history))
    decreases |history|
  {
    if history != [] {
      var before, ev := history[..|history| - 1], history[|history| - 1];
      RepliesAreRelayedInOrder(cfg, before);
      GivenStep(cfg, Run(cfg, Start, before).value, ev, Gather(Got, before), Gather(Given, before));
    }
  }

  /** Nothing failed, and nobody dropped the task. */
  predicate Smooth(history: seq<Event>) {
    forall i :: 0 <= i < |history| ==> !history[i].Fail? && !history[i].LateFail? && !history[i].Abort?
  }

  lemma SmoothStep(cfg: Config, pc: Pc, ev: Event, heard: seq<Message>, sent: seq<Message>, got: seq<Message>,
                   given: seq<Message>)
    requires Next(cfg, pc, ev).Some? && TerminateOk(pc) && !ev.Fail? && !ev.LateFail? && !ev.Abort?
    requires sent + InHand(pc) == heard && given + OutHand(pc) == got
    ensures var pc' := Next(cfg, pc, ev).value;
      && TerminateOk(pc')
      && sent + Sent(ev) + InHand(pc') == heard + Heard(ev) && given + Given(ev) + OutHand(pc') == got + Got(ev)
  {
    assert sent + [] == sent && given + [] == given && heard + [] == heard && got + [] == got;
  }

  /** Without a failure nothing is lost in either direction, in any mode, even as the session ends. */
  lemma {:induction false} NothingIsLost(cfg: Config, history: seq<Event>)
    requires Run(cfg, Start, history).Some? && Smooth(history)
    ensures var pc := Run(cfg, Start, history).value;
      && TerminateOk(pc)
      && Gather(Sent, history) + InHand(pc) == Gather(Heard, history)
      && Gather(Given, history) + OutHand(pc) == Gather(Got, history)
    decreases |history|
  {
    if history != [] {
      var before, ev := history[..|history| - 1], history[|history| - 1];
      NothingIsLost(cfg, before);
      SmoothStep(cfg, Run(cfg, Start, before).value, ev, Gather(Heard, before), Gather(Sent, before), Gather(Got, before),
                 Gather(Given, before));
    }
  }

  lemma {:induction false} GatherConcat(g: Event -> seq<Message>, a: seq<Event>, b: seq<Event>)
    ensures Gather(g, a + b) == Gather(g, a) + Gather(g, b)
    decreases |b|
  {
    if b == [] {
      assert a + b == a;
    } else {
      assert (a + b)[..|a + b| - 1] == a + b[..|b| - 1];
      GatherConcat(g, a, b[..|b| - 1]);
    }
  }

  lemma {:induction false} GatherNothing(g: Event -> seq<Message>, evs: seq<Event>)
    requires forall i :: 0 <= i < |evs| ==> g(evs[i]) == []
    ensures Gather(g, evs) == []
  {
    if evs != [] {
      GatherNothing(g, evs[..|evs| - 1]);
    }
  }

  /** A Terminate from a client that holds a backend is passed on to that backend next, unless the write fails or the task is
      dropped. */
  lemma TerminateIsPassedOn(cfg: Config, history: seq<Event>, j: nat)
    requires !cfg.mode.SessionMode? && Run(cfg, Start, history).Some? && j + 1 < |history|
    requires history[j].ReadClient? && history[j].f.tag == 'X' as int && LedgerOf(history[..j]).open.Some?
    ensures var k := LedgerOf(history[..j]).open.value.conn;
      history[j + 1] == WriteBackend(k, history[j].f) || history[j + 1] == Fail || history[j + 1] == Abort
  {
    StepAt(cfg, history, j);
    StepAt(cfg, history, j + 1);
    LedgerHolds(cfg, history[..j]);
    var pc := Run(cfg, Start, history[..j]).value;
    assert pc.Relay?;
    AfterTerminate(cfg, pc, history[j].f, history[j + 1]);
  }

  lemma AfterTerminate(cfg: Config, pc: Pc, f: Message, ev: Event)
    requires pc.Relay? && f.tag == 'X' as int
    requires Next(cfg, pc, ReadClient(f)).Some? && Next(cfg, Next(cfg, pc, ReadClient(f)).value, ev).Some?
    ensures ev == WriteBackend(pc.k, f) || ev == Fail || ev == Abort
  {
  }

  lemma StepAt(cfg: Config, history: seq<Event>, j: nat)
    requires Run(cfg, Start, history).Some? && j < |history|
    ensures Run(cfg, Start, history[..j]).Some?
    ensures Run(cfg, Start, history[..j + 1]) == Next(cfg, Run(cfg, Start, history[..j]).value, history[j])
    ensures Run(cfg, Start, history[..j + 1]).Some?
  {
    RunPrefix(cfg, history, j);
    RunPrefix(cfg, history, j + 1);
    assert history[..j + 1][..j] == history[..j];
  }

  lemma {:induction false} RunPrefix(cfg: Config, history: seq<Event>, n: nat)
    requires Run(cfg, Start, history).Some? && n <= |history|
    ensures Run(cfg, Start, history[..n]).Some?
    decreases |history|
  {
    if n == |history| {
      assert history[..n] == history;
    } else {
      var before := history[..|history| - 1];
      RunPrefix(cfg, before, n);
      assert before[..n] == history[..n];
    }
  }
}
