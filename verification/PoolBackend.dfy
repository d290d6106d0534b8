/** A backend that meets the assumptions of `PoolDiscipline`, after section 55.2 of the PostgreSQL documentation: session
    settings, a transaction status, copy-in begun by a simple query or by an Execute, and messages discarded up to
    the next Sync after an error in the extended protocol. What its queries do is left open. */
module PoolBackend {
  import opened Bytes
  import opened Session
  import opened PoolWorld
  import opened PoolDiscipline
  import Codec

  datatype Txn = Outside | Block | Failed

  datatype Mode =
    | Ready
    | Series                           // extended-protocol messages have come since the last ReadyForQuery
    | Skipping                         // one of them failed: everything up to Sync is discarded
    | CopySimple                       // copy-in begun by a Query
    | CopyExtended(synced: bool)       // copy-in begun by an Execute; a Sync inside it is ignored, and noted here
    | Owing                            // such a copy-in is over, and the next Sync will answer

  datatype Pg = Pg(shard: string, startup: seq<byte>, settings: seq<Message>, txn: Txn, mode: Mode)

  /** What one message does to the session and the database, if it works. */
  datatype Effect =
    | Fails
    | Copies
    | Works(settings: seq<Message>, txn: Txn, db: Database, rows: seq<seq<byte>>)

  type Sql = (Pg, Database, Message) -> Effect

  const ERROR := Message(Codec.ERROR_RESPONSE, [])
  const DONE := Message(Codec.COMMAND_COMPLETE, [])
  const COPY_IN := Message(71, [])

  function Status(t: Txn): byte {
    match t
    case Outside => IDLE
    case Block => 84
    case Failed => 69
  }

  function Rfq(t: Txn): Message {
    Message(Codec.READY_FOR_QUERY, [Status(t)])
  }

  function Rows(rows: seq<seq<byte>>): (ms: seq<Message>)
    ensures |ms| == |rows| && forall i :: 0 <= i < |ms| ==> ms[i] == Message(Codec.DATA_ROW, rows[i])
  {
    seq(|rows|, i requires 0 <= i < |rows| => Message(Codec.DATA_ROW, rows[i]))
  }

  /** A failing statement spoils the block it is in. */
  function Spoilt(t: Txn): Txn {
    if t.Block? then Failed else t
  }

  function Fresh(s: Pg): Pg {
    Pg(s.shard, s.startup, [], Outside, Ready)
  }

  // ---------------------------------------------------------------------------------------------
  // One message

  type Turn = (Pg, Database, seq<Message>)

  function Refuse(s: Pg, d: Database): Turn {
    (s.(txn := Spoilt(s.txn), mode := Ready), d, [ERROR, Rfq(Spoilt(s.txn))])
  }

  /** The reset works outside a transaction block alone. */
  function RunReset(s: Pg, d: Database): Turn {
    if s.txn.Outside? then (Fresh(s), d, [DONE, Rfq(Outside)]) else Refuse(s, d)
  }

  /** Query and FunctionCall. */
  function RunSimple(sql: Sql, s: Pg, d: Database, f: Message): Turn {
    match sql(s, d, f)
    case Fails => Refuse(s, d)
    case Copies => if f.tag == Codec.QUERY then (s.(mode := CopySimple), d, [COPY_IN]) else Refuse(s, d)
    case Works(settings, txn, db, rows) =>
      (s.(settings := settings, txn := txn, mode := Ready), db, Rows(rows) + [DONE, Rfq(txn)])
  }

  function RunExtended(sql: Sql, s: Pg, d: Database, f: Message): Turn {
    match sql(s, d, f)
    case Fails => (s.(txn := Spoilt(s.txn), mode := Skipping), d, [ERROR])
    case Copies => (s.(mode := CopyExtended(false)), d, [COPY_IN])
    case Works(settings, txn, db, rows) => (s.(settings := settings, txn := txn, mode := Series), db, Rows(rows))
  }

  function InCopySimple(sql: Sql, s: Pg, d: Database, f: Message): Turn {
    var e := sql(s, d, f);
    if IsSync(f) || f.tag == 72 then (s, d, [])
    else if f.tag == 100 && e.Works? then (s.(settings := e.settings), e.db, [])
    else if f.tag == 99 && e.Works? then (s.(settings := e.settings, mode := Ready), e.db, [DONE, Rfq(s.txn)])
    else Refuse(s, d)
  }

  function InCopyExtended(sql: Sql, s: Pg, d: Database, f: Message, synced: bool): Turn {
    var e := sql(s, d, f);
    if IsSync(f) then (s.(mode := CopyExtended(true)), d, [])
    else if f.tag == 72 then (s, d, [])
    else if f.tag == 100 && e.Works? then (s.(settings := e.settings), e.db, [])
    else if f.tag == 99 && e.Works? then
      (s.(settings := e.settings, mode := if synced then Owing else Series), e.db, [DONE])
    else (s.(txn := Spoilt(s.txn), mode := if synced then Owing else Skipping), d, [ERROR])
  }

  function Handle(sql: Sql, reset: Message, s: Pg, d: Database, f: Message): Turn {
    match s.mode
    case CopySimple => InCopySimple(sql, s, d, f)
    case CopyExtended(synced) => InCopyExtended(sql, s, d, f, synced)
    case _ =>
      if IsSync(f) then (s.(mode := Ready), d, [Rfq(s.txn)])
      else if s.mode.Skipping? || s.mode.Owing? then (s, d, [])
      else if f == reset then RunReset(s, d)
      else if Triggers(f) then RunSimple(sql, s, d, f)
      else if Extended(f) then RunExtended(sql, s, d, f)
      else (s, d, [])
  }

  // ---------------------------------------------------------------------------------------------
  // It is honest

  predicate Pending(s: Pg) {
    s.mode.CopySimple? || s.mode.Owing? || s.mode == CopyExtended(true)
  }

  predicate Open(s: Pg) {
    s.mode.Series? || s.mode.Skipping? || s.mode.CopyExtended? || s.mode.Owing?
  }

  function Owes(s: Pg): nat {
    if Pending(s) then 1 else 0
  }

  /** `RunOk`, of its own states. */
  ghost predicate HandleOk(s: Pg, d: Database, f: Message, t: Turn) {
    var (s', d', out) := t;
    && Fresh(s') == Fresh(s)
    && RfqLast(out)
    && (Owes(s) + Asks(f) <= 1 && (Triggers(f) && Open(s) ==> IsSync(f)) ==> RfqCount(out) + Owes(s') == Owes(s) + Asks(f))
    && (RfqCount(out) > 0 ==> !Open(s'))
    && (!Open(s) && !Extended(f) ==> !Open(s'))
    && (IsCopy(f) && !Pending(s) && !Open(s) ==> t == (s, d, []))
  }

  lemma CountOne(m: Message)
    ensures RfqCount([m]) == if IsRfq(m) then 1 else 0
  {
    assert [m][..0] == [];
  }

  lemma CountTwo(a: Message, b: Message)
    ensures RfqCount([a, b]) == RfqCount([a]) + RfqCount([b])
  {
    assert [a, b][..1] == [a];
    CountOne(a);
    CountOne(b);
  }

  lemma CountRows(rows: seq<seq<byte>>, tail: seq<Message>)
    requires RfqLast(tail)
    ensures RfqCount(Rows(rows)) == 0 && RfqCount(Rows(rows) + tail) == RfqCount(tail) && RfqLast(Rows(rows) + tail)
    ensures RfqLast(Rows(rows))
  {
    NoRfqCount(Rows(rows));
    RfqConcat(Rows(rows), tail);
    NoRfqSoFar(Rows(rows), tail);
  }

  lemma RefuseOk(s: Pg, d: Database)
    ensures var t := Refuse(s, d); RfqCount(t.2) == 1 && RfqLast(t.2) && RfqEnds(t.2)
  {
    CountTwo(ERROR, Rfq(Spoilt(s.txn)));
    CountOne(ERROR);
    CountOne(Rfq(Spoilt(s.txn)));
  }

  lemma DoneOk(t: Txn)
    ensures RfqCount([DONE, Rfq(t)]) == 1 && RfqLast([DONE, Rfq(t)]) && RfqCount([Rfq(t)]) == 1
    ensures RfqCount([ERROR]) == RfqCount([DONE]) == RfqCount([COPY_IN]) == 0
  {
    CountTwo(DONE, Rfq(t));
    CountOne(DONE);
    CountOne(ERROR);
    CountOne(COPY_IN);
    CountOne(Rfq(t));
  }

  lemma SimpleOk(sql: Sql, s: Pg, d: Database, f: Message)
    requires (s.mode.Ready? || s.mode.Series?) && Triggers(f) && !IsSync(f)
    ensures HandleOk(s, d, f, RunSimple(sql, s, d, f))
  {
    RefuseOk(s, d);
    DoneOk(s.txn);
    var e := sql(s, d, f);
    if e.Works? {
      DoneOk(e.txn);
      CountRows(e.rows, [DONE, Rfq(e.txn)]);
    }
  }

  lemma ExtendedOk(sql: Sql, s: Pg, d: Database, f: Message)
    requires (s.mode.Ready? || s.mode.Series?) && Extended(f)
    ensures HandleOk(s, d, f, RunExtended(sql, s, d, f))
  {
    DoneOk(s.txn);
    var e := sql(s, d, f);
    if e.Works? {
      CountRows(e.rows, []);
    }
  }

  lemma CopySimpleOk(sql: Sql, s: Pg, d: Database, f: Message)
    requires s.mode.CopySimple?
    ensures HandleOk(s, d, f, InCopySimple(sql, s, d, f))
  {
    RefuseOk(s, d);
    DoneOk(s.txn);
  }

  lemma CopyExtendedOk(sql: Sql, s: Pg, d: Database, f: Message)
    requires s.mode.CopyExtended?
    ensures HandleOk(s, d, f, InCopyExtended(sql, s, d, f, s.mode.synced))
  {
    DoneOk(s.txn);
  }

  lemma AlwaysOk(sql: Sql, reset: Message, s: Pg, d: Database, f: Message)
    requires reset.tag == Codec.QUERY
    ensures HandleOk(s, d, f, Handle(sql, reset, s, d, f))
  {
    if s.mode.CopySimple? {
      CopySimpleOk(sql, s, d, f);
    } else if s.mode.CopyExtended? {
      CopyExtendedOk(sql, s, d, f);
    } else if IsSync(f) {
      DoneOk(s.txn);
    } else if s.mode.Ready? || s.mode.Series? {
      if f == reset {
        RefuseOk(s, d);
        DoneOk(Outside);
      } else if Triggers(f) {
        SimpleOk(sql, s, d, f);
      } else if Extended(f) {
        ExtendedOk(sql, s, d, f);
      }
    }
  }

  /** The server, over any representation of its states. */
  function Process(sql: Sql, reset: Message, embed: Pg -> Backend, view: Backend -> Pg): Server {
    Server((shard: string, startup: seq<byte>) => embed(Pg(shard, startup, [], Outside, Ready)),
           (b: Backend, d: Database, f: Message) =>
             var t := Handle(sql, reset, view(b), d, f); (embed(t.0), t.1, t.2))
  }

  ghost function Views(embed: Pg -> Backend, view: Backend -> Pg, startups: (string, string) -> seq<byte>): Contract {
    Contract(b => Pending(view(b)), b => Open(view(b)), b => embed(Fresh(view(b))), startups)
  }

  ghost predicate Represents(embed: Pg -> Backend, view: Backend -> Pg) {
    (forall s :: view(embed(s)) == s) && (forall b :: embed(view(b)) == b)
  }

  /** Whatever its queries do, this server is honest. */
  lemma HonestServersExist(sql: Sql, reset: Message, embed: Pg -> Backend, view: Backend -> Pg,
                           startups: (string, string) -> seq<byte>)
    requires reset.tag == Codec.QUERY && Represents(embed, view)
    ensures Honest(Process(sql, reset, embed, view), Views(embed, view, startups), reset)
  {
    var srv, ct := Process(sql, reset, embed, view), Views(embed, view, startups);
    forall shard, startup
      ensures BootOk(srv, ct, shard, startup)
    {
      assert view(srv.boot(shard, startup)) == Pg(shard, startup, [], Outside, Ready);
    }
    forall b, d, f
      ensures RunOk(srv, ct, b, d, f)
    {
      RunIsHandle(sql, reset, embed, view, b, d, f);
      AlwaysOk(sql, reset, view(b), d, f);
      HandleGivesRun(srv, ct, sql, reset, embed, view, startups, b, d, f);
    }
    forall b, d
      ensures ResetOk(srv, ct, reset, b, d)
    {
      RunIsHandle(sql, reset, embed, view, b, d, reset);
      RefuseOk(view(b), d);
      DoneOk(Outside);
    }
  }

  lemma RunIsHandle(sql: Sql, reset: Message, embed: Pg -> Backend, view: Backend -> Pg, b: Backend, d: Database, f: Message)
    ensures var t := Handle(sql, reset, view(b), d, f);
      Process(sql, reset, embed, view).run(b, d, f) == (embed(t.0), t.1, t.2)
  {
  }

  lemma HandleGivesRun(srv: Server, ct: Contract, sql: Sql, reset: Message, embed: Pg -> Backend, view: Backend -> Pg,
                       startups: (string, string) -> seq<byte>, b: Backend, d: Database, f: Message)
    requires Represents(embed, view) && ct == Views(embed, view, startups)
    requires var t := Handle(sql, reset, view(b), d, f);
      HandleOk(view(b), d, f, t) && srv.run(b, d, f) == (embed(t.0), t.1, t.2)
    ensures RunOk(srv, ct, b, d, f)
  {
    var t := Handle(sql, reset, view(b), d, f);
    assert view(embed(t.0)) == t.0 && embed(view(b)) == b;
  }

  /** It does discard to Sync: after a failing Parse a Query goes unanswered, and the Sync is answered. */
  lemma DiscardsToSync(sql: Sql, reset: Message, s: Pg, d: Database, parse: Message, query: Message, sync: Message)
    requires s.mode.Ready? && reset.tag == query.tag == Codec.QUERY && parse.tag == 80 && IsSync(sync)
    requires sql(s, d, parse).Fails?
    ensures var (s1, d1, out1) := Handle(sql, reset, s, d, parse); var (s2, d2, out2) := Handle(sql, reset, s1, d1, query);
      out1 == [ERROR] && out2 == [] && Handle(sql, reset, s2, d2, sync) == (s1.(mode := Ready), d, [Rfq(s1.txn)])
  {
  }
}
