/** The in-proxy query session (src/proxy/custom.rs, src/query.rs): a virtual server with a transaction status, a pluggable
    handler, and one cancel token a query. */
module Custom {
  import opened Bytes
  import opened Codec
  import opened BackendMessages
  import opened QueryText
  import Cancel

  datatype TxnStatus = Idle | InTransaction | Failed

  function Code(s: TxnStatus): byte {
    match s
    case Idle => 73
    case InTransaction => 84
    case Failed => 69
  }

  datatype QueryResponse =
    | Rows(columns: seq<seq<byte>>, rows: seq<seq<Option<seq<byte>>>>, tag: seq<byte>)
    | Command(tag: seq<byte>)
    | Error(code: seq<byte>, message: seq<byte>)

  /** A handler that leaves the session state alone; its answer to the i-th query it is given. */
  type Handler = (nat, seq<byte>) -> QueryResponse

  // ---------------------------------------------------------------------------------------------
  // One message

  /** The transaction status, and how many queries the handler has been given. */
  datatype State = State(status: TxnStatus, calls: nat)

  datatype Turn = Turn(state: State, reply: seq<seq<byte>>)

  datatype Verb = Begin | Commit | Rollback | Other

  function VerbNamed(w: seq<byte>): Verb {
    if w == Ascii("BEGIN") || w == Ascii("START") then Begin
    else if w == Ascii("COMMIT") || w == Ascii("END") then Commit
    else if w == Ascii("ROLLBACK") || w == Ascii("ABORT") then Rollback
    else Other
  }

  function VerbOf(sql: seq<byte>): Verb {
    VerbNamed(WordOf(sql))
  }

  const UNSUPPORTED := ErrorResponse(Ascii("ERROR"), Ascii("0A000"),
                                     Ascii("rama-pg virtual server supports ") + Ascii("only the simple query protocol"))
  const ABORTED := ErrorResponse(Ascii("ERROR"), Ascii("25P02"),
    Ascii("current transaction is aborted, ") + Ascii("commands ignored until end of ") + Ascii("transaction block"))

  function DataRows(rows: seq<seq<Option<seq<byte>>>>): (fs: seq<seq<byte>>)
    ensures |fs| == |rows| && forall i :: 0 <= i < |fs| ==> fs[i] == DataRow(rows[i])
  {
    seq(|rows|, i requires 0 <= i < |rows| => DataRow(rows[i]))
  }

  function Encoded(r: QueryResponse): seq<seq<byte>> {
    match r
    case Rows(columns, rows, tag) =>
      [RowDescription(columns)] + DataRows(rows) + [CommandComplete(tag)]
    case Command(tag) => [CommandComplete(tag)]
    case Error(code, message) => [ErrorResponse(Ascii("ERROR"), code, message)]
  }

  /** `run_query`, but for its ReadyForQuery. */
  function Query(h: Handler, st: State, sql: seq<byte>): Turn {
    Run(h, st, VerbOf(sql), Trimmed(sql))
  }

  function TagOf(verb: Verb): seq<byte> {
    match verb
    case Begin => Ascii("BEGIN")
    case Commit => Ascii("COMMIT")
    case Rollback => Ascii("ROLLBACK")
    case Other => []
  }

  function Run(h: Handler, st: State, verb: Verb, text: seq<byte>): Turn {
    if st.status.Failed? && !verb.Commit? && !verb.Rollback? then Turn(st, [ABORTED])
    else match verb
      case Begin => Turn(st.(status := InTransaction), [CommandComplete(TagOf(verb))])
      case Commit => Turn(st.(status := Idle), [CommandComplete(TagOf(verb))])
      case Rollback => Turn(st.(status := Idle), [CommandComplete(TagOf(verb))])
      case Other =>
        var r := h(st.calls, text);
        var st' := st.(calls := st.calls + 1);
        Turn(if r.Error? && st.status.InTransaction? then st'.(status := TxnStatus.Failed) else st', Encoded(r))
  }

  /** One message that is not a Terminate. */
  function Handle(h: Handler, st: State, m: seq<byte>): Turn
    requires |m| >= 5
  {
    if Tag(m) == QUERY then Query(h, st, QuerySql(Payload(m))) else Turn(st, [UNSUPPORTED])
  }

  // ---------------------------------------------------------------------------------------------
  // A session

  /** What a session does with the messages before its Terminate. */
  datatype Session = Session(state: State, output: seq<seq<byte>>)

  predicate Whole(ms: seq<seq<byte>>) {
    forall i :: 0 <= i < |ms| ==> |ms[i]| >= 5
  }

  function Start(): Session {
    Session(State(Idle, 0), [])
  }

  function After(h: Handler, s: Session, m: seq<byte>): Session
    requires |m| >= 5
  {
    var t := Handle(h, s.state, m);
    Session(t.state, s.output + t.reply + [ReadyForQuery(Code(t.state.status))])
  }

  function RunSession(h: Handler, ms: seq<seq<byte>>): (s: Session)
    requires Whole(ms)
  {
    if ms == [] then Start() else After(h, RunSession(h, ms[..|ms| - 1]), ms[|ms| - 1])
  }

  // ---------------------------------------------------------------------------------------------
  // One message, by its words

  /** The texts that open and that close a transaction block. */
  predicate BeginWord(w: seq<byte>) {
    w == Ascii("BEGIN") || w == Ascii("START")
  }

  predicate CommitWord(w: seq<byte>) {
    w == Ascii("COMMIT") || w == Ascii("END")
  }

  predicate RollbackWord(w: seq<byte>) {
    w == Ascii("ROLLBACK") || w == Ascii("ABORT")
  }

  predicate EndWord(w: seq<byte>) {
    CommitWord(w) || RollbackWord(w)
  }

  /** Nothing in it that the wire format cannot carry. */
  predicate Printable(r: QueryResponse) {
    match r
    case Rows(columns, rows, tag) =>
      NulFree(columns) && |columns| < 0x8000 && 0 !in tag
      && forall i :: 0 <= i < |rows| ==> RowFits(rows[i])
    case Command(tag) => 0 !in tag
    case Error(code, message) => 0 !in code && 0 !in message
  }

  /** What a client makes of the frames of one reply. */
  predicate ReadsAs(reply: seq<seq<byte>>, r: QueryResponse) {
    match r
    case Rows(columns, rows, tag) =>
      && |reply| == |rows| + 2
      && |reply[0]| >= 5 && reply[0][0] == 84 && ReadRowDescription(reply[0][5..]) == Some(columns)
      && (forall i :: 0 <= i < |rows| ==> RowReads(reply[i + 1], rows[i]))
      && ReadsAsCommand(reply[|rows| + 1], tag)
    case Command(tag) => |reply| == 1 && ReadsAsCommand(reply[0], tag)
    case Error(code, message) => |reply| == 1 && ReadsAsError(reply[0], Ascii("ERROR"), code, message)
  }

  /** A response reaches the client, columns, rows and tag, or code and message, exactly when it can be printed. */
  lemma ResponseReadBack(r: QueryResponse)
    ensures ReadsAs(Encoded(r), r) <==> Printable(r)
  {
    match r
    case Rows(columns, rows, tag) => RowsReadBack(columns, rows, tag);
    case Command(tag) => CommandReadBack(tag);
    case Error(code, message) => ErrorReadBackExactly(Ascii("ERROR"), code, message);
  }

  lemma RowsReadBack(columns: seq<seq<byte>>, rows: seq<seq<Option<seq<byte>>>>, tag: seq<byte>)
    ensures var r := Rows(columns, rows, tag); ReadsAs(Encoded(r), r) <==> Printable(r)
  {
    var reply := Encoded(Rows(columns, rows, tag));
    RowDescriptionReadBack(columns);
    CommandReadBack(tag);
    assert reply[0] == RowDescription(columns) && reply[|rows| + 1] == CommandComplete(tag);
    forall i | 0 <= i < |rows|
      ensures reply[i + 1] == DataRow(rows[i]) && (RowReads(reply[i + 1], rows[i]) <==> RowFits(rows[i]))
    {
      DataRowReadBack(rows[i]);
    }
  }

  predicate RowReads(f: seq<byte>, row: seq<Option<seq<byte>>>) {
    |f| >= 5 && f[0] == 68 && ReadDataRow(f[5..]) == Some(row)
  }

  predicate RowFits(row: seq<Option<seq<byte>>>) {
    |row| < 0x8000 && AllFit(row)
  }

  const NOT_SIMPLE := Error(Ascii("0A000"), Ascii("rama-pg virtual server supports ") + Ascii("only the simple query protocol"))
  const IN_FAILED := Error(Ascii("25P02"), Ascii("current transaction is aborted, ")
                                           + Ascii("commands ignored until end of ") + Ascii("transaction block"))

  const BEGUN := Command(Ascii("BEGIN"))
  const COMMITTED := Command(Ascii("COMMIT"))
  const ROLLED_BACK := Command(Ascii("ROLLBACK"))

  /** What `run_query` is for: BEGIN and START open a block; COMMIT, END, ROLLBACK and ABORT close it, failed or not; a failed
      block takes nothing else; any other text is the handler's, and an error of its fails an open block. */
  ghost predicate Obeys(h: Handler, st: State, sql: seq<byte>, t: Turn) {
    var w := WordOf(sql);
    if CommitWord(w) then t.state == st.(status := Idle) && ReadsAs(t.reply, COMMITTED)
    else if RollbackWord(w) then t.state == st.(status := Idle) && ReadsAs(t.reply, ROLLED_BACK)
    else if st.status.Failed? then t.state == st && ReadsAs(t.reply, IN_FAILED)
    else if BeginWord(w) then t.state == st.(status := InTransaction) && ReadsAs(t.reply, BEGUN)
    else
      var r := h(st.calls, Trimmed(sql));
      && t.state.calls == st.calls + 1
      && t.state.status == (if r.Error? && st.status.InTransaction? then TxnStatus.Failed else st.status)
      && (ReadsAs(t.reply, r) <==> Printable(r))
  }

  lemma QueryObeys(h: Handler, st: State, sql: seq<byte>)
    ensures Obeys(h, st, sql, Query(h, st, sql))
  {
    VerbIs(WordOf(sql));
    RunObeys(h, st, VerbOf(sql), Trimmed(sql));
  }

  lemma VerbIs(w: seq<byte>)
    ensures VerbNamed(w).Begin? <==> BeginWord(w)
    ensures VerbNamed(w).Commit? <==> CommitWord(w)
    ensures VerbNamed(w).Rollback? <==> RollbackWord(w)
  {
    WordsDiffer();
    EndsDiffer();
  }

  /** The same of the verb that the word names. */
  lemma RunObeys(h: Handler, st: State, verb: Verb, text: seq<byte>)
    ensures var t := Run(h, st, verb, text);
      if verb.Commit? || verb.Rollback? then t.state == st.(status := Idle) && ReadsAs(t.reply, Command(TagOf(verb)))
      else if st.status.Failed? then t.state == st && ReadsAs(t.reply, IN_FAILED)
      else if verb.Begin? then t.state == st.(status := InTransaction) && ReadsAs(t.reply, Command(TagOf(verb)))
      else
        var r := h(st.calls, text);
        && t.state.calls == st.calls + 1
        && t.state.status == (if r.Error? && st.status.InTransaction? then TxnStatus.Failed else st.status)
        && (ReadsAs(t.reply, r) <==> Printable(r))
  {
    if verb.Other? {
      ResponseReadBack(h(st.calls, text));
    } else {
      CommandReadBack(TagOf(verb));
    }
    if st.status.Failed? {
      RefusalsReadBack();
    }
  }

  lemma RefusalsReadBack()
    ensures ReadsAs([ABORTED], IN_FAILED) && ReadsAs([UNSUPPORTED], NOT_SIMPLE)
  {
    ErrorReadBack(Ascii("ERROR"), IN_FAILED.code, IN_FAILED.message);
    ErrorReadBack(Ascii("ERROR"), NOT_SIMPLE.code, NOT_SIMPLE.message);
  }

  lemma WordsDiffer()
    ensures forall w :: !(BeginWord(w) && EndWord(w))
  {
    assert Ascii("BEGIN")[0] == 66 && Ascii("START")[0] == 83 && Ascii("COMMIT")[0] == 67 && Ascii("END")[0] == 69
           && Ascii("ROLLBACK")[0] == 82 && Ascii("ABORT")[0] == 65;
  }

  // ---------------------------------------------------------------------------------------------
  // The status, from what was said

  function Sql(m: seq<byte>): seq<byte>
    requires |m| >= 5
  {
    QuerySql(m[5..])
  }

  predicate Begins(m: seq<byte>) {
    |m| >= 5 && m[0] == 81 && BeginWord(WordOf(Sql(m)))
  }

  predicate Ends(m: seq<byte>) {
    |m| >= 5 && m[0] == 81 && EndWord(WordOf(Sql(m)))
  }

  /** A query for the handler. */
  predicate Asks(m: seq<byte>) {
    |m| >= 5 && m[0] == 81 && !BeginWord(WordOf(Sql(m))) && !EndWord(WordOf(Sql(m)))
  }

  /** The i-th message asked for a block, and none has asked for its end since. */
  predicate OpenSince(ms: seq<seq<byte>>, i: nat) {
    i < |ms| && Begins(ms[i]) && forall j :: i < j < |ms| ==> !Ends(ms[j])
  }

  ghost predicate InBlock(ms: seq<seq<byte>>) {
    exists i: nat :: OpenSince(ms, i)
  }

  /** A block is open in which the handler answered a query with an error. */
  ghost predicate Broken(ms: seq<seq<byte>>, answers: seq<Option<QueryResponse>>) {
    exists i: nat, k: nat :: OpenSince(ms, i) && i < k && ErrorAt(answers, k)
  }

  predicate ErrorAt(answers: seq<Option<QueryResponse>>, k: nat) {
    k < |answers| && IsError(answers[k])
  }

  predicate IsError(answer: Option<QueryResponse>) {
    answer.Some? && answer.value.Error?
  }

  /** What the handler answered to each message; it is asked exactly the queries that are no block commands and are not in a
      broken block. */
  ghost function Answers(h: Handler, ms: seq<seq<byte>>): (answers: seq<Option<QueryResponse>>)
    ensures |answers| == |ms|
  {
    if ms == [] then []
    else
      var before, m := ms[..|ms| - 1], ms[|ms| - 1];
      Answers(h, before) + [AnswerTo(h, before, Answers(h, before), m)]
  }

  ghost function AnswerTo(h: Handler, ms: seq<seq<byte>>, answers: seq<Option<QueryResponse>>, m: seq<byte>):
    Option<QueryResponse>
  {
    if Asks(m) && !Broken(ms, answers) then Some(h(Asked(answers), Trimmed(Sql(m)))) else None
  }

  /** How often it has been asked. */
  function Asked(answers: seq<Option<QueryResponse>>): nat {
    if answers == [] then 0
    else Asked(answers[..|answers| - 1]) + if answers[|answers| - 1].Some? then 1 else 0
  }

  ghost function StatusOf(ms: seq<seq<byte>>, answers: seq<Option<QueryResponse>>): TxnStatus {
    if Broken(ms, answers) then TxnStatus.Failed else if InBlock(ms) then InTransaction else Idle
  }

  ghost function StatusAfter(h: Handler, ms: seq<seq<byte>>): TxnStatus {
    StatusOf(ms, Answers(h, ms))
  }

  lemma OpenSinceSnoc(ms: seq<seq<byte>>, m: seq<byte>, i: nat)
    requires i < |ms|
    ensures OpenSince(ms + [m], i) <==> !Ends(m) && OpenSince(ms, i)
  {
    var all := ms + [m];
    assert all[|ms|] == m;
    assert forall j :: 0 <= j < |ms| ==> all[j] == ms[j];
  }

  lemma InBlockSnoc(ms: seq<seq<byte>>, m: seq<byte>)
    ensures InBlock(ms + [m]) <==> Begins(m) || (!Ends(m) && InBlock(ms))
  {
    forall i: nat | i < |ms| {
      OpenSinceSnoc(ms, m, i);
    }
    assert (ms + [m])[|ms|] == m;
    assert OpenSince(ms + [m], |ms|) <==> Begins(m);
  }

  lemma BrokenSnoc(ms: seq<seq<byte>>, answers: seq<Option<QueryResponse>>, m: seq<byte>, answer: Option<QueryResponse>)
    requires |answers| == |ms|
    ensures Broken(ms + [m], answers + [answer]) <==>
              !Ends(m) && (Broken(ms, answers) || (InBlock(ms) && IsError(answer)))
  {
    forall i: nat | i < |ms| {
      OpenSinceSnoc(ms, m, i);
    }
    var all := answers + [answer];
    assert forall k: nat :: ErrorAt(all, k) <==> if k == |answers| then IsError(answer) else ErrorAt(answers, k);
    if !Ends(m) && InBlock(ms) && IsError(answer) {
      var i: nat :| OpenSince(ms, i);
      assert OpenSince(ms + [m], i) && i < |ms| && ErrorAt(all, |ms|);
    }
    if !Ends(m) && Broken(ms, answers) {
      var i: nat, k: nat :| OpenSince(ms, i) && i < k && ErrorAt(answers, k);
      assert OpenSince(ms + [m], i) && ErrorAt(all, k);
    }
  }

  /** The status after a message that begins or ends a block, or an answer that is an error. */
  function NextStatus(was: TxnStatus, begins: bool, ends: bool, failed: bool): TxnStatus {
    if ends then Idle
    else if was.Failed? || (was.InTransaction? && failed) then TxnStatus.Failed
    else if begins then InTransaction
    else was
  }

  /** How a message moves the status, and when it is put to the handler: never in a failed block. */
  lemma HandleMoves(h: Handler, st: State, m: seq<byte>)
    requires |m| >= 5
    ensures var st' := Handle(h, st, m).state; var asked := Asks(m) && !st.status.Failed?;
      && st'.calls == st.calls + (if asked then 1 else 0)
      && st'.status == NextStatus(st.status, Begins(m), Ends(m), asked && h(st.calls, Trimmed(Sql(m))).Error?)
  {
    VerbIs(WordOf(Sql(m)));
  }

  /** One more message moves the status and the count as they should. */
  lemma HandleKeepsHistory(h: Handler, ms: seq<seq<byte>>, answers: seq<Option<QueryResponse>>, m: seq<byte>, st': State)
    requires |m| >= 5 && |answers| == |ms| && st' == Handle(h, State(StatusOf(ms, answers), Asked(answers)), m).state
    ensures var all := answers + [AnswerTo(h, ms, answers, m)]; st' == State(StatusOf(ms + [m], all), Asked(all))
  {
    HandleMoves(h, State(StatusOf(ms, answers), Asked(answers)), m);
    AnswerIs(h, ms, answers, m);
    NotBoth(m);
    HistoryGrows(ms, answers, m, AnswerTo(h, ms, answers, m), st');
  }

  lemma HistoryGrows(ms: seq<seq<byte>>, answers: seq<Option<QueryResponse>>, m: seq<byte>, answer: Option<QueryResponse>,
                     st': State)
    requires |answers| == |ms| && !(Begins(m) && (Ends(m) || IsError(answer)))
    requires st'.calls == Asked(answers) + if answer.Some? then 1 else 0
    requires st'.status == NextStatus(StatusOf(ms, answers), Begins(m), Ends(m), IsError(answer))
    ensures st' == State(StatusOf(ms + [m], answers + [answer]), Asked(answers + [answer]))
  {
    StatusSnoc(ms, answers, m, answer);
    assert (answers + [answer])[..|answers|] == answers;
  }

  lemma AnswerIs(h: Handler, ms: seq<seq<byte>>, answers: seq<Option<QueryResponse>>, m: seq<byte>)
    ensures AnswerTo(h, ms, answers, m)
            == if Asks(m) && !StatusOf(ms, answers).Failed? then Some(h(Asked(answers), Trimmed(Sql(m)))) else None
  {
  }

  lemma NotBoth(m: seq<byte>)
    ensures !(Begins(m) && Ends(m)) && !(Asks(m) && Begins(m))
  {
    WordsDiffer();
  }

  /** What one more message and its answer make of the status. */
  lemma StatusSnoc(ms: seq<seq<byte>>, answers: seq<Option<QueryResponse>>, m: seq<byte>, answer: Option<QueryResponse>)
    requires |answers| == |ms| && !(Begins(m) && (Ends(m) || IsError(answer)))
    ensures StatusOf(ms + [m], answers + [answer])
            == NextStatus(StatusOf(ms, answers), Begins(m), Ends(m), IsError(answer))
  {
    InBlockSnoc(ms, m);
    BrokenSnoc(ms, answers, m, answer);
    BrokenIsInBlock(ms, answers);
  }

  lemma BrokenIsInBlock(ms: seq<seq<byte>>, answers: seq<Option<QueryResponse>>)
    ensures Broken(ms, answers) ==> InBlock(ms)
  {
  }

  /** The status every ReadyForQuery reports is the one the messages and the handler's answers give it: Idle exactly outside a
      block, Failed exactly in a block in which the handler has answered with an error. */
  lemma {:induction false} StatusIsHistory(h: Handler, ms: seq<seq<byte>>)
    requires Whole(ms)
    ensures RunSession(h, ms).state == State(StatusAfter(h, ms), Asked(Answers(h, ms)))
    decreases |ms|
  {
    if ms == [] {
      StartIsIdle(h, ms);
    } else {
      var before, m := Unsnoc(ms);
      StatusIsHistory(h, before);
      StatusKept(h, before, m, ms);
    }
  }

  lemma Unsnoc(ms: seq<seq<byte>>) returns (before: seq<seq<byte>>, m: seq<byte>)
    requires Whole(ms) && ms != []
    ensures ms == before + [m] && Whole(before) && |m| >= 5
  {
    before, m := ms[..|ms| - 1], ms[|ms| - 1];
  }

  lemma StatusKept(h: Handler, ms: seq<seq<byte>>, m: seq<byte>, all: seq<seq<byte>>)
    requires Whole(ms) && |m| >= 5 && RunSession(h, ms).state == State(StatusAfter(h, ms), Asked(Answers(h, ms)))
    requires all == ms + [m] && Whole(all)
    ensures RunSession(h, all).state == State(StatusAfter(h, all), Asked(Answers(h, all)))
  {
    StateAfterOne(h, ms, m);
    HistoryStep(h, ms, m, RunSession(h, ms).state, RunSession(h, ms + [m]).state);
  }

  lemma HistoryStep(h: Handler, ms: seq<seq<byte>>, m: seq<byte>, st: State, st': State)
    requires |m| >= 5 && st == State(StatusAfter(h, ms), Asked(Answers(h, ms))) && st' == Handle(h, st, m).state
    ensures st' == State(StatusAfter(h, ms + [m]), Asked(Answers(h, ms + [m])))
  {
    HandleKeepsHistory(h, ms, Answers(h, ms), m, st');
    AnswersGrow(h, ms, m);
  }

  lemma AnswersGrow(h: Handler, ms: seq<seq<byte>>, m: seq<byte>)
    ensures Answers(h, ms + [m]) == Answers(h, ms) + [AnswerTo(h, ms, Answers(h, ms), m)]
  {
    assert (ms + [m])[..|ms|] == ms;
  }

  lemma StateAfterOne(h: Handler, ms: seq<seq<byte>>, m: seq<byte>)
    requires Whole(ms) && |m| >= 5
    ensures Whole(ms + [m]) && RunSession(h, ms + [m]).state == Handle(h, RunSession(h, ms).state, m).state
  {
    SnocSession(h, ms, m);
  }

  lemma StartIsIdle(h: Handler, ms: seq<seq<byte>>)
    requires ms == []
    ensures RunSession(h, ms).state == State(StatusAfter(h, ms), Asked(Answers(h, ms)))
  {
    assert !InBlock(ms) && !Broken(ms, []);
  }

  /** A query that starts with a block command, in any letter case and between any blanks and closing semicolons. */
  lemma BlockCommands(h: Handler, st: State, pre: seq<byte>, w: seq<byte>, post: seq<byte>)
    requires StartsWith(pre, w, post)
    ensures var t := Query(h, st, pre + (w + post)); var u := Upper(w);
      && (BeginWord(u) ==>
            if st.status.Failed? then t.state == st && ReadsAs(t.reply, IN_FAILED)
            else t.state == st.(status := InTransaction) && ReadsAs(t.reply, BEGUN))
      && (CommitWord(u) ==> t.state == st.(status := Idle) && ReadsAs(t.reply, COMMITTED))
      && (RollbackWord(u) ==> t.state == st.(status := Idle) && ReadsAs(t.reply, ROLLED_BACK))
  {
    WordIsFirst(pre, w, post);
    QueryObeys(h, st, pre + (w + post));
    WordsDiffer();
    EndsDiffer();
  }

  lemma EndsDiffer()
    ensures forall w :: !(CommitWord(w) && RollbackWord(w))
  {
    assert Ascii("COMMIT")[0] == 67 && Ascii("END")[0] == 69 && Ascii("ROLLBACK")[0] == 82 && Ascii("ABORT")[0] == 65;
  }

  /** Any other message is refused and moves nothing. */
  lemma OthersAreRefused(h: Handler, st: State, m: seq<byte>)
    requires |m| >= 5 && m[0] != 81
    ensures Handle(h, st, m).state == st && ReadsAs(Handle(h, st, m).reply, NOT_SIMPLE)
  {
    RefusalsReadBack();
  }

  // ---------------------------------------------------------------------------------------------
  // The output, as a client reads it

  /** Where a client of the simple query protocol is: before a response, among its rows, or before its
      ReadyForQuery. */
  datatype Reading = Fresh | InRows | Answered

  function ReadFrame(g: Reading, f: seq<byte>): Option<Reading> {
    if |f| < 5 then None
    else match g
      case Fresh =>
        if f[0] == ERROR_RESPONSE || f[0] == COMMAND_COMPLETE then Some(Answered)
        else if f[0] == ROW_DESCRIPTION then Some(InRows)
        else None
      case InRows =>
        if f[0] == DATA_ROW then Some(InRows) else if f[0] == COMMAND_COMPLETE then Some(Answered) else None
      case Answered => if f[0] == READY_FOR_QUERY && |f| == 6 then Some(Fresh) else None
  }

  function ReadFrames(g: Reading, fs: seq<seq<byte>>): Option<Reading> {
    if fs == [] then Some(g)
    else
      var before := ReadFrames(g, fs[..|fs| - 1]);
      if before.None? then None else ReadFrame(before.value, fs[|fs| - 1])
  }

  /** The status bytes of its ReadyForQuerys. */
  function Statuses(fs: seq<seq<byte>>): seq<byte> {
    if fs == [] then []
    else
      var f := fs[|fs| - 1];
      Statuses(fs[..|fs| - 1]) + if |f| == 6 && f[0] == READY_FOR_QUERY then [f[5]] else []
  }

  lemma {:induction false} ReadConcat(g: Reading, a: seq<seq<byte>>, b: seq<seq<byte>>)
    ensures ReadFrames(g, a + b)
            == if ReadFrames(g, a).None? then None else ReadFrames(ReadFrames(g, a).value, b)
    ensures Statuses(a + b) == Statuses(a) + Statuses(b)
    decreases |b|
  {
    if b == [] {
      assert a + b == a;
    } else {
      assert (a + b)[..|a + b| - 1] == a + b[..|b| - 1];
      ReadConcat(g, a, b[..|b| - 1]);
    }
  }

  lemma ReadLast(g: Reading, fs: seq<seq<byte>>, f: seq<byte>)
    requires ReadFrames(g, fs).Some?
    ensures ReadFrames(g, fs + [f]) == ReadFrame(ReadFrames(g, fs).value, f)
    ensures Statuses(fs + [f]) == Statuses(fs) + if |f| == 6 && f[0] == READY_FOR_QUERY then [f[5]] else []
  {
    assert (fs + [f])[..|fs|] == fs;
  }

  lemma {:induction false} RowsRead(fs: seq<seq<byte>>)
    requires forall i :: 0 <= i < |fs| ==> |fs[i]| >= 5 && fs[i][0] == DATA_ROW
    ensures ReadFrames(InRows, fs) == Some(InRows) && Statuses(fs) == []
  {
    if fs != [] {
      RowsRead(fs[..|fs| - 1]);
    }
  }

  /** A reply is an error, a command, or a description with its rows and completion, and carries no status. */
  predicate Complete(reply: seq<seq<byte>>) {
    ReadFrames(Fresh, reply) == Some(Answered) && Statuses(reply) == []
  }

  lemma OneFrameComplete(f: seq<byte>)
    requires |f| >= 5 && (f[0] == ERROR_RESPONSE || f[0] == COMMAND_COMPLETE)
    ensures Complete([f])
  {
    ReadLast(Fresh, [], f);
    assert [] + [f] == [f];
  }

  lemma EncodedComplete(r: QueryResponse)
    ensures Complete(Encoded(r))
  {
    match r
    case Rows(columns, rows, tag) =>
      var head, body := RowDescription(columns), DataRows(rows);
      ReadLast(Fresh, [], head);
      assert [] + [head] == [head];
      RowsRead(body);
      ReadConcat(Fresh, [head], body);
      ReadLast(Fresh, [head] + body, CommandComplete(tag));
    case Command(tag) => OneFrameComplete(CommandComplete(tag));
    case Error(code, message) => OneFrameComplete(ErrorResponse(Ascii("ERROR"), code, message));
  }

  lemma HandleComplete(h: Handler, st: State, m: seq<byte>)
    requires |m| >= 5
    ensures Complete(Handle(h, st, m).reply)
  {
    if Tag(m) == QUERY {
      var sql := QuerySql(Payload(m));
      RunComplete(h, st, VerbOf(sql), Trimmed(sql));
    } else {
      OneFrameComplete(UNSUPPORTED);
    }
  }

  lemma RunComplete(h: Handler, st: State, verb: Verb, text: seq<byte>)
    ensures Complete(Run(h, st, verb, text).reply)
  {
    if st.status.Failed? && !verb.Commit? && !verb.Rollback? {
      OneFrameComplete(ABORTED);
    } else if verb.Other? {
      EncodedComplete(h(st.calls, text));
    } else {
      OneFrameComplete(CommandComplete(TagOf(verb)));
    }
  }

  /** The status after each message. */
  ghost function StatusCodes(h: Handler, ms: seq<seq<byte>>): seq<byte> {
    if ms == [] then [] else StatusCodes(h, ms[..|ms| - 1]) + [Code(StatusAfter(h, ms))]
  }

  /** Over every message sequence the output is one well-formed response and one ReadyForQuery a message, and those carry the
      statuses after each message. */
  lemma {:induction false} OutputIsWellFormed(h: Handler, ms: seq<seq<byte>>)
    requires Whole(ms)
    ensures var output := RunSession(h, ms).output;
      ReadFrames(Fresh, output) == Some(Fresh) && Statuses(output) == StatusCodes(h, ms)
  {
    if ms != [] {
      var before, m := ms[..|ms| - 1], ms[|ms| - 1];
      OutputIsWellFormed(h, before);
      StatusIsHistory(h, ms);
      var s := RunSession(h, before);
      HandleComplete(h, s.state, m);
      OutputStep(s.output, Handle(h, s.state, m));
    }
  }

  /** As `frame` builds them. */
  predicate Built(f: seq<byte>) {
    |f| >= 5 && f == Frame(f[0], f[5..])
  }

  predicate AllBuilt(fs: seq<seq<byte>>) {
    forall i :: 0 <= i < |fs| ==> Built(fs[i])
  }

  lemma FrameIsBuilt(tag: byte, body: seq<byte>)
    ensures Built(Frame(tag, body))
  {
    assert Frame(tag, body)[5..] == body;
  }

  lemma RepliesAreBuilt(h: Handler, st: State, m: seq<byte>)
    requires |m| >= 5
    ensures AllBuilt(Handle(h, st, m).reply)
  {
    if Tag(m) == QUERY {
      var sql := QuerySql(Payload(m));
      RunIsBuilt(h, st, VerbOf(sql), Trimmed(sql));
    } else {
      ErrorIsBuilt(Ascii("0A000"), Ascii("rama-pg virtual server supports ") + Ascii("only the simple query protocol"));
    }
  }

  lemma ErrorIsBuilt(code: seq<byte>, message: seq<byte>)
    ensures Built(ErrorResponse(Ascii("ERROR"), code, message))
  {
    var severity := Ascii("ERROR");
    FrameIsBuilt(ERROR_RESPONSE,
                 [83] + CString(severity) + [86] + CString(severity) + [67] + CString(code) + [77] + CString(message) + [0]);
  }

  lemma EncodedIsBuilt(r: QueryResponse)
    ensures AllBuilt(Encoded(r))
  {
    match r
    case Rows(columns, rows, tag) =>
      FrameIsBuilt(ROW_DESCRIPTION, PutI16(|columns|) + Columns(columns));
      FrameIsBuilt(COMMAND_COMPLETE, CString(tag));
      forall i | 0 <= i < |rows|
        ensures Built(DataRow(rows[i]))
      {
        FrameIsBuilt(DATA_ROW, PutI16(|rows[i]|) + Cells(rows[i]));
      }
    case Command(tag) => FrameIsBuilt(COMMAND_COMPLETE, CString(tag));
    case Error(code, message) => ErrorIsBuilt(code, message);
  }

  lemma AbortedIsBuilt()
    ensures Built(ABORTED)
  {
    ErrorIsBuilt(Ascii("25P02"), Ascii("current transaction is aborted, ") + Ascii("commands ignored until end of ")
                                 + Ascii("transaction block"));
  }

  lemma RunIsBuilt(h: Handler, st: State, verb: Verb, text: seq<byte>)
    ensures AllBuilt(Run(h, st, verb, text).reply)
  {
    if st.status.Failed? && !verb.Commit? && !verb.Rollback? {
      AbortedIsBuilt();
    } else if verb.Other? {
      EncodedIsBuilt(h(st.calls, text));
    } else {
      FrameIsBuilt(COMMAND_COMPLETE, CString(TagOf(verb)));
    }
  }

  lemma {:induction false} OutputIsBuilt(h: Handler, ms: seq<seq<byte>>)
    requires Whole(ms)
    ensures AllBuilt(RunSession(h, ms).output)
  {
    if ms != [] {
      var before, m := ms[..|ms| - 1], ms[|ms| - 1];
      OutputIsBuilt(h, before);
      var s := RunSession(h, before);
      RepliesAreBuilt(h, s.state, m);
      FrameIsBuilt(READY_FOR_QUERY, [Code(Handle(h, s.state, m).state.status)]);
    }
  }

  /** The bytes written are those frames and nothing else: a client reading them finds exactly the frames, as long as each
      is within the limit on messages. */
  lemma OutputBytesReadBack(h: Handler, ms: seq<seq<byte>>)
    requires Whole(ms)
    requires forall i :: 0 <= i < |RunSession(h, ms).output| ==> |RunSession(h, ms).output[i]| <= MAX_MESSAGE_LEN + 1
    ensures var output := RunSession(h, ms).output; ParseAll(Concat(output), MAX_MESSAGE_LEN) == (output, CleanEnd)
  {
    var output := RunSession(h, ms).output;
    OutputIsBuilt(h, ms);
    forall i | 0 <= i < |output|
      ensures WholeFrame(output[i], MAX_MESSAGE_LEN)
    {
      BuiltIsWhole(output[i], MAX_MESSAGE_LEN);
    }
    ParseAllConcat(output, MAX_MESSAGE_LEN);
  }

  lemma BuiltIsWhole(f: seq<byte>, cap: int)
    requires Built(f) && 0 <= cap < TWO31 && |f| <= cap + 1
    ensures WholeFrame(f, cap)
  {
    var len := |f| - 1;
    assert f[1..5] == PutI32(len) + [];
    I32RoundTrip(len, []);
  }

  lemma OutputStep(done: seq<seq<byte>>, t: Turn)
    requires ReadFrames(Fresh, done) == Some(Fresh) && Complete(t.reply)
    ensures var output := done + t.reply + [ReadyForQuery(Code(t.state.status))];
      ReadFrames(Fresh, output) == Some(Fresh) && Statuses(output) == Statuses(done) + [Code(t.state.status)]
  {
    ReadConcat(Fresh, done, t.reply);
    ReadLast(Fresh, done + t.reply, ReadyForQuery(Code(t.state.status)));
  }

  // ---------------------------------------------------------------------------------------------
  // Cancel tokens

  /** What a session does to its cancel handle over `q` queries, the i-th with token `tok(i)`. */
  function TokenOps(h: Cancel.SessionId, tok: nat -> Cancel.Target, q: nat): (ops: seq<Cancel.Op>)
    ensures |ops| == 2 * q
  {
    if q == 0 then [] else TokenOps(h, tok, q - 1) + [Cancel.Set(h, tok(q - 1)), Cancel.Clear(h)]
  }

  /** The sets and clears of one handle in a history of the registry. */
  function Own(ops: seq<Cancel.Op>, h: Cancel.SessionId): seq<Cancel.Op> {
    if ops == [] then []
    else
      var op := ops[|ops| - 1];
      Own(ops[..|ops| - 1], h) + if (op.Set? || op.Clear?) && op.h == h then [op] else []
  }

  /** The current target depends on them alone. */
  lemma {:induction false} CurrentIsOwn(ops: seq<Cancel.Op>, h: Cancel.SessionId)
    ensures Cancel.Current(ops, h) == Cancel.Current(Own(ops, h), h)
  {
    if ops != [] {
      var before, op := ops[..|ops| - 1], ops[|ops| - 1];
      CurrentIsOwn(before, h);
      assert before + [op] == ops;
      Cancel.CurrentSnoc(before, op, h);
      if (op.Set? || op.Clear?) && op.h == h {
        Cancel.CurrentSnoc(Own(before, h), op, h);
      } else {
        assert Own(ops, h) == Own(before, h);
      }
    }
  }

  lemma {:induction false} CurrentOfTokens(h: Cancel.SessionId, tok: nat -> Cancel.Target, q: nat, n: nat)
    requires n <= 2 * q
    ensures Cancel.Current(TokenOps(h, tok, q)[..n], h) == if n % 2 == 1 then Some(tok(n / 2)) else None
  {
    var ops := TokenOps(h, tok, q);
    if n > 0 {
      if n <= 2 * (q - 1) {
        CurrentOfTokens(h, tok, q - 1, n);
        assert ops[..n] == TokenOps(h, tok, q - 1)[..n];
      } else {
        assert ops[..n][n - 1] == if n % 2 == 1 then Cancel.Set(h, tok(q - 1)) else Cancel.Clear(h);
      }
    }
  }

  /** Over every interleaving, a cancel with a session's key fires the token of the query that is running when the slot
      is read, or nothing when none is. The session is inside query `i` when it has done `2 * i + 1` of its sets
      and clears. */
  lemma CancelFiresRunningQuery(ops: seq<Cancel.Op>, r: Cancel.RequestId, key: Cancel.CancelKey, later: seq<Cancel.Op>,
                                h: Cancel.SessionId, tok: nat -> Cancel.Target, q: nat)
    requires var all := ops + [Cancel.Look(r, key)] + later;
      && Cancel.DistinctKeys(all) && Cancel.Exec(all).Some? && r in Cancel.Exec(all).value.looked
      && Own(all, h) <= TokenOps(h, tok, q)
    requires Cancel.Owner(ops, key) == Some(h)
    ensures var all := ops + [Cancel.Look(r, key)] + later; var n := |Own(all, h)|;
      Cancel.Fired(Cancel.Exec(all).value, r) == if n % 2 == 1 then Some(tok(n / 2)) else None
  {
    var all := ops + [Cancel.Look(r, key)] + later;
    Cancel.CancelRouting(ops, r, key, later);
    CurrentIsOwn(all, h);
    CurrentOfTokens(h, tok, q, |Own(all, h)|);
    assert TokenOps(h, tok, q)[..|Own(all, h)|] == Own(all, h);
  }

  // ---------------------------------------------------------------------------------------------
  // The program

  class SessionState {
    var txn: TxnStatus

    constructor ()
      ensures txn == Idle
    {
      txn := Idle;
    }
  }

  /** The rows of a result, written one by one. */
  method WriteRows(client: Sink, rows: seq<seq<Option<seq<byte>>>>)
    modifies client
    ensures client.written == old(client.written) + Concat(DataRows(rows))
  {
    ghost var frames := DataRows(rows);
    for i := 0 to |rows|
      invariant client.written == old(client.written) + Concat(frames[..i])
    {
      var row := BuildDataRow(rows[i]);
      client.Write(row);
      OneMoreRow(old(client.written), frames, i);
    }
    assert frames[..|rows|] == frames;
  }

  lemma OneMoreRow(w: seq<byte>, frames: seq<seq<byte>>, i: nat)
    requires i < |frames|
    ensures w + Concat(frames[..i]) + frames[i] == w + Concat(frames[..i + 1])
  {
    ConcatSnoc(frames[..i], frames[i]);
    assert frames[..i] + [frames[i]] == frames[..i + 1];
    Assoc(w, Concat(frames[..i]), frames[i]);
  }

  lemma ConcatThree(a: seq<byte>, fs: seq<seq<byte>>, b: seq<byte>)
    ensures Concat([a] + fs + [b]) == a + Concat(fs) + b
  {
    ConcatSnoc([a] + fs, b);
    assert ([a] + fs)[1..] == fs;
  }

  lemma ConcatOne(a: seq<byte>)
    ensures Concat([a]) == a
  {
    assert [a][1..] == [] && Concat([a]) == a + Concat([]);
  }

  /** The frames of a handler's response. */
  method WriteResponse(client: Sink, r: QueryResponse)
    modifies client
    ensures client.written == old(client.written) + Concat(Encoded(r))
  {
    ghost var was := client.written;
    match r
    case Rows(columns, rows, tag) =>
      var head := BuildRowDescription(columns);
      client.Write(head);
      WriteRows(client, rows);
      client.Write(CommandComplete(tag));
      ConcatThree(head, DataRows(rows), CommandComplete(tag));
      Assoc(was, head, Concat(DataRows(rows)));
      Assoc(was, head + Concat(DataRows(rows)), CommandComplete(tag));
    case Command(tag) =>
      client.Write(CommandComplete(tag));
      ConcatOne(CommandComplete(tag));
    case Error(code, message) =>
      client.Write(ErrorResponse(Ascii("ERROR"), code, message));
      ConcatOne(ErrorResponse(Ascii("ERROR"), code, message));
  }

  /** `run_query`; `calls` counts the queries the handler has been given. */
  method RunQuery(client: Sink, state: SessionState, h: Handler, calls: nat, sql: seq<byte>) returns (calls': nat)
    modifies client, state
    ensures var t := Query(h, State(old(state.txn), calls), sql);
      && State(state.txn, calls') == t.state
      && client.written == old(client.written) + Concat(t.reply) + ReadyForQuery(Code(t.state.status))
  {
    calls' := RunVerb(client, state, h, calls, VerbOf(sql), Trimmed(sql));
  }

  method RunVerb(client: Sink, state: SessionState, h: Handler, calls: nat, verb: Verb, text: seq<byte>) returns (calls': nat)
    modifies client, state
    ensures var t := Run(h, State(old(state.txn), calls), verb, text);
      && State(state.txn, calls') == t.state
      && client.written == old(client.written) + Concat(t.reply) + ReadyForQuery(Code(t.state.status))
  {
    calls' := calls;
    var status := state.txn;
    if status == TxnStatus.Failed && !verb.Commit? && !verb.Rollback? {
      WriteOne(client, ABORTED);
    } else {
      match verb {
        case Begin =>
          state.txn := InTransaction;
          WriteOne(client, CommandComplete(TagOf(Begin)));
        case Commit =>
          state.txn := Idle;
          WriteOne(client, CommandComplete(TagOf(Commit)));
        case Rollback =>
          state.txn := Idle;
          WriteOne(client, CommandComplete(TagOf(Rollback)));
        case Other =>
          var response := h(calls, text);
          calls' := calls + 1;
          WriteResponse(client, response);
          if response.Error? && status == InTransaction {
            state.txn := TxnStatus.Failed;
          }
      }
    }
    client.Write(ReadyForQuery(Code(state.txn)));
  }

  method WriteOne(client: Sink, f: seq<byte>)
    modifies client
    ensures client.written == old(client.written) + Concat([f])
  {
    client.Write(f);
    ConcatOne(f);
  }

  /** The messages a session handles: those before its Terminate, or before the stream stops making sense. */
  function Handled(s: seq<byte>): (ms: seq<seq<byte>>)
    ensures Whole(ms)
    decreases |s|
  {
    var p := ParseOne(s, MAX_MESSAGE_LEN);
    if !p.Complete? || Tag(p.frame) == TERMINATE then [] else [p.frame] + Handled(p.rest)
  }

  function Queries(ms: seq<seq<byte>>): nat
    requires Whole(ms)
  {
    if ms == [] then 0 else Queries(ms[..|ms| - 1]) + if Tag(ms[|ms| - 1]) == QUERY then 1 else 0
  }

  /** The registry after some of a session's own steps. */
  function Replay(s: Cancel.Registry, ops: seq<Cancel.Op>): Option<Cancel.Registry> {
    if ops == [] then Some(s)
    else
      var before := Replay(s, ops[..|ops| - 1]);
      if before.Some? && Cancel.Possible(before.value, ops[|ops| - 1])
      then Some(Cancel.Step(before.value, ops[|ops| - 1]))
      else None
  }

  lemma ReplayOne(s: Cancel.Registry, ops: seq<Cancel.Op>, op: Cancel.Op)
    requires Replay(s, ops).Some? && Cancel.Possible(Replay(s, ops).value, op)
    ensures Replay(s, ops + [op]) == Some(Cancel.Step(Replay(s, ops).value, op))
  {
    assert (ops + [op])[..|ops|] == ops;
  }

  /** One query, with its token in the slot while it runs. */
  method HandleQuery(m: seq<byte>, client: Sink, state: SessionState, handle: Cancel.CancelHandle, token: Cancel.Target,
                     h: Handler, calls: nat, ghost v0: Cancel.Registry, ghost own: seq<Cancel.Op>)
    returns (calls': nat, ghost own': seq<Cancel.Op>)
    requires |m| >= 5 && Tag(m) == QUERY && handle.Live() && Replay(v0, own) == Some(handle.registry.View())
    modifies client, state, handle.registry`slots
    ensures var t := Handle(h, State(old(state.txn), calls), m);
      && State(state.txn, calls') == t.state
      && client.written == old(client.written) + Concat(t.reply) + ReadyForQuery(Code(t.state.status))
    ensures own' == own + [Cancel.Set(handle.slot, token), Cancel.Clear(handle.slot)]
    ensures handle.Live() && Replay(v0, own') == Some(handle.registry.View())
  {
    var sql := QuerySql(Payload(m));
    handle.SetTarget(token);
    ReplayOne(v0, own, Cancel.Set(handle.slot, token));
    own' := own + [Cancel.Set(handle.slot, token)];
    calls' := RunQuery(client, state, h, calls, sql);
    handle.ClearTarget();
    ReplayOne(v0, own', Cancel.Clear(handle.slot));
    own' := own' + [Cancel.Clear(handle.slot)];
    assert own' == own + [Cancel.Set(handle.slot, token), Cancel.Clear(handle.slot)];
  }

  /** Any other message is refused. */
  method HandleOther(m: seq<byte>, client: Sink, state: SessionState, ghost h: Handler, ghost calls: nat)
    requires |m| >= 5 && Tag(m) != QUERY
    modifies client
    ensures var t := Handle(h, State(state.txn, calls), m);
      && State(state.txn, calls) == t.state
      && client.written == old(client.written) + Concat(t.reply) + ReadyForQuery(Code(t.state.status))
  {
    WriteOne(client, UNSUPPORTED);
    client.Write(ReadyForQuery(Code(state.txn)));
  }

  /** One message that is not a Terminate; `queries` counts the tokens used. */
  method HandleMessage(m: seq<byte>, client: Sink, state: SessionState, handle: Cancel.CancelHandle,
                       tok: nat -> Cancel.Target, h: Handler, calls: nat, queries: nat, ghost v0: Cancel.Registry,
                       ghost own: seq<Cancel.Op>)
    returns (calls': nat, queries': nat, ghost own': seq<Cancel.Op>)
    requires |m| >= 5 && handle.Live() && Replay(v0, own) == Some(handle.registry.View())
    requires own == TokenOps(handle.slot, tok, queries)
    modifies client, state, handle.registry`slots
    ensures var t := Handle(h, State(old(state.txn), calls), m);
      && State(state.txn, calls') == t.state
      && client.written == old(client.written) + Concat(t.reply) + ReadyForQuery(Code(t.state.status))
    ensures queries' == queries + if Tag(m) == QUERY then 1 else 0
    ensures own' == TokenOps(handle.slot, tok, queries')
    ensures handle.Live() && Replay(v0, own') == Some(handle.registry.View())
  {
    calls', queries', own' := calls, queries, own;
    if Tag(m) == QUERY {
      calls', own' := HandleQuery(m, client, state, handle, tok(queries), h, calls, v0, own);
      queries' := queries + 1;
    } else {
      HandleOther(m, client, state, h, calls);
    }
  }

  /** One more message, seen from the whole session. */
  lemma SessionStep(h: Handler, ms: seq<seq<byte>>, m: seq<byte>, w0: seq<byte>, w: seq<byte>)
    requires Whole(ms) && |m| >= 5 && w == w0 + Concat(RunSession(h, ms).output)
    ensures Whole(ms + [m]) && Queries(ms + [m]) == Queries(ms) + if Tag(m) == QUERY then 1 else 0
    ensures var s := RunSession(h, ms); var t := Handle(h, s.state, m); var s' := RunSession(h, ms + [m]);
      && s'.state == t.state
      && w + Concat(t.reply) + ReadyForQuery(Code(t.state.status)) == w0 + Concat(s'.output)
  {
    SnocSession(h, ms, m);
    var s := RunSession(h, ms);
    var t := Handle(h, s.state, m);
    OutputGrows(s.output, t.reply, ReadyForQuery(Code(t.state.status)), w0);
  }

  lemma SnocSession(h: Handler, ms: seq<seq<byte>>, m: seq<byte>)
    requires Whole(ms) && |m| >= 5
    ensures Whole(ms + [m]) && Queries(ms + [m]) == Queries(ms) + if Tag(m) == QUERY then 1 else 0
    ensures RunSession(h, ms + [m]) == After(h, RunSession(h, ms), m)
  {
    assert (ms + [m])[..|ms|] == ms;
  }

  lemma OutputGrows(output: seq<seq<byte>>, reply: seq<seq<byte>>, f: seq<byte>, w0: seq<byte>)
    ensures w0 + Concat(output) + Concat(reply) + f == w0 + Concat(output + reply + [f])
  {
    ConcatSnoc(output + reply, f);
    ConcatAppend(output, reply);
    Assoc(w0, Concat(output), Concat(reply));
    Assoc(w0, Concat(output) + Concat(reply), f);
  }

  lemma {:induction false} ConcatAppend(a: seq<seq<byte>>, b: seq<seq<byte>>)
    ensures Concat(a + b) == Concat(a) + Concat(b)
    decreases |b|
  {
    if b == [] {
      assert a + b == a;
    } else {
      var init, last := b[..|b| - 1], b[|b| - 1];
      ConcatAppend(a, init);
      ConcatSnoc(a + init, last);
      ConcatSnoc(init, last);
      assert a + b == a + init + [last] && b == init + [last];
    }
  }

  /** `serve_custom`, after its greeting. Everything the client sends before its Terminate is handled, in order; the
      output is the session's; each query has its own token in the cancel slot while it runs, and the slot
      is empty otherwise. */
  method ServeCustom(reader: Transport, client: Sink, state: SessionState, handle: Cancel.CancelHandle,
                     tok: nat -> Cancel.Target, h: Handler, pace: nat -> nat)
    returns (ghost own: seq<Cancel.Op>)
    requires state.txn == Idle && handle.Live()
    modifies reader, client, state, handle.registry`slots
    ensures var s := RunSession(h, Handled(old(reader.unread)));
      client.written == old(client.written) + Concat(s.output) && state.txn == s.state.status
    ensures own == TokenOps(handle.slot, tok, Queries(Handled(old(reader.unread))))
    ensures Replay(old(handle.registry.View()), own) == Some(handle.registry.View())
  {
    ghost var input, v0, w0 := reader.unread, handle.registry.View(), client.written;
    ghost var ms: seq<seq<byte>> := [];
    var calls, queries := 0, 0;
    own := [];
    ServedNone(h, input, w0);
    while true
      invariant Served(h, input, reader.unread, ms, w0, client.written, State(state.txn, calls))
      invariant queries == Queries(ms) && own == TokenOps(handle.slot, tok, queries)
      invariant handle.Live() && Replay(v0, own) == Some(handle.registry.View())
      decreases |reader.unread|
    {
      ghost var left := reader.unread;
      var message := ReadMessageCapped(reader, MAX_MESSAGE_LEN, pace);
      if !message.Got? || Tag(message.value) == TERMINATE {
        ServedAll(h, input, left, ms, w0, client.written, State(state.txn, calls));
        return;
      }
      var m := message.value;
      ServedOneMore(h, input, left, ms, w0, client.written, State(state.txn, calls), m, reader.unread);
      calls, queries, own := HandleMessage(m, client, state, handle, tok, h, calls, queries, v0, own);
      ms := ms + [m];
    }
  }

  /** The messages `ms` of the input have been handled: `left` is unread, `w` written and `st` reached. */
  ghost predicate Served(h: Handler, input: seq<byte>, left: seq<byte>, ms: seq<seq<byte>>, w0: seq<byte>, w: seq<byte>,
                         st: State) {
    && Whole(ms) && ms + Handled(left) == Handled(input)
    && w == w0 + Concat(RunSession(h, ms).output) && st == RunSession(h, ms).state
  }

  lemma ServedNone(h: Handler, input: seq<byte>, w0: seq<byte>)
    ensures Served(h, input, input, [], w0, w0, State(Idle, 0))
  {
    assert w0 + [] == w0 && [] + Handled(input) == Handled(input);
  }

  lemma ServedAll(h: Handler, input: seq<byte>, left: seq<byte>, ms: seq<seq<byte>>, w0: seq<byte>, w: seq<byte>, st: State)
    requires Served(h, input, left, ms, w0, w, st)
    requires var p := ParseOne(left, MAX_MESSAGE_LEN); !p.Complete? || Tag(p.frame) == TERMINATE
    ensures ms == Handled(input)
  {
    assert ms + [] == ms;
  }

  lemma ServedOneMore(h: Handler, input: seq<byte>, left: seq<byte>, ms: seq<seq<byte>>, w0: seq<byte>, w: seq<byte>,
                      st: State, m: seq<byte>, rest: seq<byte>)
    requires Served(h, input, left, ms, w0, w, st) && ParseOne(left, MAX_MESSAGE_LEN) == Codec.Complete(m, rest)
    requires |m| >= 5 && Tag(m) != TERMINATE
    ensures var t := Handle(h, st, m);
      Served(h, input, rest, ms + [m], w0, w + Concat(t.reply) + ReadyForQuery(Code(t.state.status)), t.state)
    ensures Queries(ms + [m]) == Queries(ms) + if Tag(m) == QUERY then 1 else 0
  {
    HandledOneMore(input, left, ms, m, rest);
    SessionStep(h, ms, m, w0, w);
  }

  lemma HandledOneMore(input: seq<byte>, left: seq<byte>, ms: seq<seq<byte>>, m: seq<byte>, rest: seq<byte>)
    requires ms + Handled(left) == Handled(input) && ParseOne(left, MAX_MESSAGE_LEN) == Codec.Complete(m, rest)
    requires |m| >= 5 && Tag(m) != TERMINATE
    ensures ms + [m] + Handled(rest) == Handled(input)
  {
    assert ms + ([m] + Handled(rest)) == ms + [m] + Handled(rest);
  }
}
