/** The cancellation registry: key -> slot -> target, shared by every session (src/cancel.rs).

    Begin, set, clear and drop are single critical sections; a cancel is two, the map read and the slot read,
    with anything in between. `Step` is one critical section as a function; `RegistryCancellation` is the
    registry itself, proved to take exactly these steps. */
module Cancel {
  import opened Bytes

  type CancelKey = seq<byte>
  type SessionId = nat
  type RequestId = nat
  /** What a cancel acts on: a backend with its key, or a per-query token. */
  type Target(==)

  /** Sessions are numbered in the order they begin; session `h` owns slot `h`. `issued[h]` is the key it was
      given and `live` the sessions whose handle has not been dropped. `looked` is what a cancel's map read found. */
  datatype Registry = Registry(
    sessions: map<CancelKey, SessionId>,
    slots: seq<Option<Target>>,
    issued: seq<CancelKey>,
    live: set<SessionId>,
    looked: map<RequestId, Option<SessionId>>)

  datatype Op =
    | Begin(key: CancelKey)
    | Set(h: SessionId, target: Target)
    | Clear(h: SessionId)
    | Drop(h: SessionId)
    | Look(r: RequestId, key: CancelKey)
    | Fire(r: RequestId)

  const EMPTY := Registry(map[], [], [], {}, map[])

  /** Only a live handle can be used; a request reads the map before its slot, once. */
  predicate Possible(s: Registry, op: Op) {
    match op
    case Begin(_) => true
    case Set(h, _) => h in s.live && h < |s.slots|
    case Clear(h) => h in s.live && h < |s.slots|
    case Drop(h) => h in s.live && h < |s.issued|
    case Look(r, _) => r !in s.looked
    case Fire(r) => r in s.looked
  }

  function Step(s: Registry, op: Op): Registry
    requires Possible(s, op)
  {
    match op
    case Begin(key) =>
      var h := |s.slots|;
      s.(sessions := s.sessions[key := h], slots := s.slots + [None], issued := s.issued + [key], live := s.live + {h})
    case Set(h, t) => s.(slots := s.slots[h := Some(t)])
    case Clear(h) => s.(slots := s.slots[h := None])
    case Drop(h) => s.(sessions := s.sessions - {s.issued[h]}, live := s.live - {h})
    case Look(r, key) => s.(looked := s.looked[r := if key in s.sessions then Some(s.sessions[key]) else None])
    case Fire(_) => s
  }

  /** What the slot read of request `r` hands to `target.cancel()`. */
  function Fired(s: Registry, r: RequestId): Option<Target>
    requires r in s.looked
  {
    var h := s.looked[r];
    if h.Some? && h.value < |s.slots| then s.slots[h.value] else None
  }

  function Exec(ops: seq<Op>): Option<Registry> {
    if ops == [] then Some(EMPTY)
    else
      var before := Exec(ops[..|ops| - 1]);
      if before.Some? && Possible(before.value, ops[|ops| - 1]) then Some(Step(before.value, ops[|ops| - 1])) else None
  }

  // ---------------------------------------------------------------------------------------------
  // What the history says, without looking at the registry

  /** How many sessions have begun. */
  function Begun(ops: seq<Op>): nat {
    if ops == [] then 0 else Begun(ops[..|ops| - 1]) + if ops[|ops| - 1].Begin? then 1 else 0
  }

  /** The latest target set, and not since cleared, through the handle of session `h`. */
  function Current(ops: seq<Op>, h: SessionId): Option<Target> {
    if ops == [] then None
    else
      var op := ops[|ops| - 1];
      if op.Set? && op.h == h then Some(op.target)
      else if op.Clear? && op.h == h then None
      else Current(ops[..|ops| - 1], h)
  }

  /** The live session that was issued `key`: begun with it, and its handle not dropped since. */
  function Owner(ops: seq<Op>, key: CancelKey): Option<SessionId> {
    if ops == [] then None
    else
      var op, before := ops[|ops| - 1], ops[..|ops| - 1];
      if op == Begin(key) then Some(Begun(before))
      else if op.Drop? && Owner(before, key) == Some(op.h) then None
      else Owner(before, key)
  }

  /** Fresh random keys: none is issued while a live session holds it. */
  predicate DistinctKeys(ops: seq<Op>) {
    ops == []
    || (DistinctKeys(ops[..|ops| - 1])
        && (ops[|ops| - 1].Begin? ==> Owner(ops[..|ops| - 1], ops[|ops| - 1].key).None?))
  }

  // ---------------------------------------------------------------------------------------------
  // The invariant

  ghost predicate Consistent(s: Registry, ops: seq<Op>) {
    && |s.slots| == |s.issued| == Begun(ops)
    && (forall h :: h in s.live ==> h < |s.issued| && Owner(ops, s.issued[h]) == Some(h))
    && (forall h :: 0 <= h < |s.slots| ==> s.slots[h] == Current(ops, h))
    && (forall h :: h >= |s.slots| ==> Current(ops, h).None?)
    && (forall key :: if key in s.sessions then Owner(ops, key) == Some(s.sessions[key]) else Owner(ops, key).None?)
    && (forall key :: key in s.sessions ==>
          s.sessions[key] in s.live && s.sessions[key] < |s.issued| && s.issued[s.sessions[key]] == key)
    && (forall r :: r in s.looked && s.looked[r].Some? ==> s.looked[r].value < |s.slots|)
  }

  lemma StepKeeps(s: Registry, ops: seq<Op>, op: Op)
    requires Consistent(s, ops) && Possible(s, op)
    requires op.Begin? ==> Owner(ops, op.key).None?
    ensures Consistent(Step(s, op), ops + [op])
  {
    assert (ops + [op])[..|ops|] == ops;
    var s' := Step(s, op);
    forall h: SessionId
      ensures Current(ops + [op], h)
              == if op.Set? && op.h == h then Some(op.target) else if op.Clear? && op.h == h then None else Current(ops, h)
    {
    }
    forall key: CancelKey
      ensures if key in s'.sessions then Owner(ops + [op], key) == Some(s'.sessions[key]) else Owner(ops + [op], key).None?
    {
      assert op.Drop? ==> Owner(ops, s.issued[op.h]) == Some(op.h);
      assert key in s.sessions ==> s.issued[s.sessions[key]] == key;
    }
    forall h | h in s'.live
      ensures h < |s'.issued| && Owner(ops + [op], s'.issued[h]) == Some(h)
    {
      assert op.Begin? && h < |s.issued| ==> s'.issued[h] == s.issued[h];
    }
  }

  lemma {:induction false} RunKeeps(ops: seq<Op>)
    requires DistinctKeys(ops) && Exec(ops).Some?
    ensures Consistent(Exec(ops).value, ops)
    decreases |ops|
  {
    if ops != [] {
      var before := ops[..|ops| - 1];
      RunKeeps(before);
      StepKeeps(Exec(before).value, before, ops[|ops| - 1]);
      assert before + [ops[|ops| - 1]] == ops;
    }
  }

  // ---------------------------------------------------------------------------------------------
  // Main results

  /** Cancel routing, over every interleaving. The map read finds the live session the key was issued to and
      no other, so a key whose session has ended fires nothing; the slot read fires the latest target set
      and not cleared through that session's handle, however much has happened in between. */
  lemma CancelRouting(ops: seq<Op>, r: RequestId, key: CancelKey, later: seq<Op>)
    requires DistinctKeys(ops + [Look(r, key)] + later) && Exec(ops + [Look(r, key)] + later).Some?
    requires r in Exec(ops + [Look(r, key)] + later).value.looked
    ensures var all := ops + [Look(r, key)] + later; var h := Owner(ops, key);
      Fired(Exec(all).value, r) == if h.Some? then Current(all, h.value) else None
  {
    var upTo := ops + [Look(r, key)];
    Prefix(upTo, later);
    assert upTo[..|ops|] == ops;
    RunKeeps(ops);
    RunKeeps(upTo);
    LookedStays(upTo, later, r);
    RunKeeps(upTo + later);
  }

  lemma {:induction false} Prefix(a: seq<Op>, b: seq<Op>)
    requires DistinctKeys(a + b) && Exec(a + b).Some?
    ensures DistinctKeys(a) && Exec(a).Some?
    decreases |b|
  {
    if b == [] {
      assert a + b == a;
    } else {
      assert (a + b)[..|a + b| - 1] == a + b[..|b| - 1];
      Prefix(a, b[..|b| - 1]);
    }
  }

  lemma {:induction false} LookedStays(a: seq<Op>, b: seq<Op>, r: RequestId)
    requires DistinctKeys(a + b) && Exec(a + b).Some? && Exec(a).Some? && r in Exec(a).value.looked
    ensures r in Exec(a + b).value.looked && Exec(a + b).value.looked[r] == Exec(a).value.looked[r]
    decreases |b|
  {
    if b == [] {
      assert a + b == a;
    } else {
      assert (a + b)[..|a + b| - 1] == a + b[..|b| - 1];
      LookedStays(a, b[..|b| - 1], r);
    }
  }

  /** `len` counts live sessions, and dropping one handle deregisters its own key and no other. */
  lemma LenCountsLiveSessions(ops: seq<Op>)
    requires DistinctKeys(ops) && Exec(ops).Some?
    ensures |Exec(ops).value.sessions| == |Exec(ops).value.live|
    ensures var s := Exec(ops).value; forall h, key :: Possible(s, Drop(h)) && key in s.sessions ==>
              (key !in Step(s, Drop(h)).sessions <==> s.sessions[key] == h)
  {
    RunKeeps(ops);
    var s := Exec(ops).value;
    SameSize(s.sessions, s.live, s.issued);
  }

  /** A map from keys to sessions that inverts `issued` on `live` is as large as `live`. */
  lemma {:induction false} SameSize(sessions: map<CancelKey, SessionId>, live: set<SessionId>, issued: seq<CancelKey>)
    requires forall key :: key in sessions ==>
               sessions[key] in live && sessions[key] < |issued| && issued[sessions[key]] == key
    requires forall h :: h in live ==> h < |issued| && issued[h] in sessions && sessions[issued[h]] == h
    ensures |sessions| == |live|
    decreases live
  {
    if live == {} {
      assert forall key :: key !in sessions;
      assert sessions == map[];
    } else {
      var h :| h in live;
      var rest := sessions - {issued[h]};
      forall g | g in live - {h}
        ensures issued[g] in rest && rest[issued[g]] == g
      {
      }
      SameSize(rest, live - {h}, issued);
      assert rest.Keys == sessions.Keys - {issued[h]};
      assert |rest.Keys| == |sessions.Keys| - 1;
    }
  }

  /** The registry does not check for collisions, and needs the keys distinct: after a collision-free run, one
      more session leaves `len` equal to the number of live sessions exactly when its key is not in use. */
  lemma CollisionLosesASession(ops: seq<Op>, key: CancelKey)
    requires DistinctKeys(ops) && Exec(ops).Some?
    ensures var s := Step(Exec(ops).value, Begin(key));
      |s.sessions| == |s.live| <==> Owner(ops, key).None?
  {
    RunKeeps(ops);
    LenCountsLiveSessions(ops);
    var s := Exec(ops).value;
    MapSize(s.sessions, key, |s.slots|);
    assert |s.slots| !in s.live;
  }

  lemma MapSize(m: map<CancelKey, SessionId>, key: CancelKey, h: SessionId)
    ensures |m[key := h]| == |m| + if key in m then 0 else 1
  {
    assert m[key := h].Keys == m.Keys + {key};
  }

  /** And then dropping the older handle deregisters the newer session: its cancels are lost while it lives. */
  lemma CollisionDropsTheWrongSession(key: CancelKey, t: Target)
    ensures var ops := [Begin(key), Begin(key), Set(1, t), Drop(0), Look(0, key)];
      && Exec(ops).Some? && 1 in Exec(ops).value.live && Current(ops, 1) == Some(t)
      && Fired(Exec(ops).value, 0) == None
  {
    var o2: seq<Op> := [Begin(key), Begin(key)];
    var o3, o4 := o2 + [Set(1, t)], o2 + [Set(1, t)] + [Drop(0)];
    TwoBegun(key);
    ExecSnoc(o2, Set(1, t), 1);
    ExecSnoc(o3, Drop(0), 1);
    ExecSnoc(o4, Look(0, key), 1);
    assert o4 + [Look(0, key)] == [Begin(key), Begin(key), Set(1, t), Drop(0), Look(0, key)];
  }

  lemma ExecSnoc(ops: seq<Op>, op: Op, h: SessionId)
    requires Exec(ops).Some? && Possible(Exec(ops).value, op)
    ensures Exec(ops + [op]) == Some(Step(Exec(ops).value, op))
    ensures Current(ops + [op], h)
            == if op.Set? && op.h == h then Some(op.target) else if op.Clear? && op.h == h then None else Current(ops, h)
  {
    assert (ops + [op])[..|ops|] == ops;
  }

  lemma CurrentSnoc(ops: seq<Op>, op: Op, h: SessionId)
    ensures Current(ops + [op], h)
            == if op.Set? && op.h == h then Some(op.target) else if op.Clear? && op.h == h then None else Current(ops, h)
  {
    assert (ops + [op])[..|ops|] == ops;
  }

  lemma TwoBegun(key: CancelKey)
    ensures Exec([Begin(key), Begin(key)]).Some?
    ensures var s := Exec([Begin(key), Begin(key)]).value;
      |s.slots| == 2 && s.issued == [key, key] && s.live == {0, 1} && s.sessions == map[key := 1] && s.looked == map[]
  {
    ExecSnoc([], Begin(key), 0);
    ExecSnoc([] + [Begin(key)], Begin(key), 0);
    assert [] + [Begin(key)] + [Begin(key)] == [Begin(key), Begin(key)];
  }

  // ---------------------------------------------------------------------------------------------
  // The registry

  class RegistryCancellation {
    var sessions: map<CancelKey, SessionId>
    var slots: seq<Option<Target>>
    ghost var issued: seq<CancelKey>
    ghost var live: set<SessionId>
    ghost var looked: map<RequestId, Option<SessionId>>

    ghost function View(): Registry
      reads this
    {
      Registry(sessions, slots, issued, live, looked)
    }

    constructor ()
      ensures View() == EMPTY
    {
      sessions, slots, issued, live, looked := map[], [], [], {}, map[];
    }

    /** `begin`: a key as long as the protocol version allows, cut from fresh random bytes. */
    method Begin(minor: int, random: seq<byte>) returns (key: CancelKey, handle: CancelHandle)
      requires |random| == 32
      modifies this
      ensures |key| == (if minor >= 2 then 32 else 8) && key <= random
      ensures View() == Step(old(View()), Op.Begin(key))
      ensures fresh(handle) && handle.registry == this && handle.slot == |old(slots)| && handle.registered == Some(key)
    {
      var len := if minor >= 2 then 32 else 8;
      key := random[..len];
      handle := new CancelHandle(this, |slots|, Some(key));
      sessions := sessions[key := |slots|];
      issued, live := issued + [key], live + {|slots|};
      slots := slots + [None];
    }

    /** The number of live sessions, as long as the keys issued to live sessions were distinct. */
    method Len() returns (n: nat)
      ensures forall ops :: DistinctKeys(ops) && Exec(ops) == Some(View()) ==> n == |live|
    {
      n := |sessions|;
      forall ops | DistinctKeys(ops) && Exec(ops) == Some(View())
        ensures n == |live|
      {
        LenCountsLiveSessions(ops);
      }
    }

    /** `cancel`, its map read. */
    method LookUp(key: CancelKey, ghost r: RequestId) returns (slot: Option<SessionId>)
      requires r !in looked
      modifies this`looked
      ensures View() == Step(old(View()), Look(r, key)) && slot == looked[r]
    {
      slot := if key in sessions then Some(sessions[key]) else None;
      looked := looked[r := slot];
    }

    /** `cancel`, its slot read: the target to act on, if any. */
    method ReadSlot(slot: Option<SessionId>, ghost r: RequestId) returns (target: Option<Target>)
      requires r in looked && looked[r] == slot
      requires slot.Some? ==> slot.value < |slots|
      ensures target == Fired(View(), r)
    {
      target := if slot.Some? then slots[slot.value] else None;
    }
  }

  class CancelHandle {
    const registry: RegistryCancellation
    const slot: SessionId
    var registered: Option<CancelKey>

    constructor (registry: RegistryCancellation, slot: SessionId, registered: Option<CancelKey>)
      ensures this.registry == registry && this.slot == slot && this.registered == registered
    {
      this.registry, this.slot, this.registered := registry, slot, registered;
    }

    /** The session has not ended. */
    ghost predicate Live()
      reads this, registry
    {
      && slot in registry.live && slot < |registry.slots| && slot < |registry.issued|
      && registered == Some(registry.issued[slot])
    }

    method SetTarget(target: Target)
      requires Live()
      modifies registry`slots
      ensures registry.View() == Step(old(registry.View()), Set(slot, target))
    {
      registry.slots := registry.slots[slot := Some(target)];
    }

    method ClearTarget()
      requires Live()
      modifies registry`slots
      ensures registry.View() == Step(old(registry.View()), Clear(slot))
    {
      registry.slots := registry.slots[slot := None];
    }

    /** `Drop`: deregisters the key this handle was begun with, and leaves the slot as it is. */
    method DropHandle()
      requires Live()
      modifies this, registry`sessions, registry`live
      ensures registry.View() == Step(old(registry.View()), Drop(slot)) && registered.None?
    {
      registry.sessions := registry.sessions - {registered.value};
      registry.live := registry.live - {slot};
      registered := None;
    }
  }
}
