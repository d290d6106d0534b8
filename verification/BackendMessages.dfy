/** Messages the proxy builds in a backend's place (src/protocol/message.rs). */
module BackendMessages {
  import opened Bytes
  import opened Codec

  const TEXT_OID := 25

  /** The two big-endian bytes of `n as i16`. */
  function PutI16(n: int): (b: seq<byte>)
    ensures |b| == 2
  {
    var u := n % 0x1_0000;
    [u / 256, u % 256]
  }

  /** `i16::from_be_bytes` on the first two bytes. */
  function ReadI16(b: seq<byte>): int
    requires |b| >= 2
  {
    var b0: int := b[0];
    var u := b0 * 256 + b[1];
    if u < 0x8000 then u else u - 0x1_0000
  }

  lemma I16RoundTrip(n: nat, tail: seq<byte>)
    ensures ReadI16(PutI16(n) + tail) == n <==> n < 0x8000
    ensures (PutI16(n) + tail)[2..] == tail
  {
    var u, b := n % 0x1_0000, PutI16(n) + tail;
    assert b[0] == u / 256 && b[1] == u % 256;
    assert u / 256 * 256 + u % 256 == u;
  }

  function CString(s: seq<byte>): seq<byte> {
    s + [0]
  }

  /** `error_response`: severity twice, SQLSTATE, message, terminator. */
  function ErrorResponse(severity: seq<byte>, code: seq<byte>, message: seq<byte>): (f: seq<byte>)
    ensures |f| >= 5 && f[0] == ERROR_RESPONSE
  {
    Frame(ERROR_RESPONSE,
          [83] + CString(severity) + [86] + CString(severity) + [67] + CString(code) + [77] + CString(message) + [0])
  }

  function CommandComplete(tag: seq<byte>): (f: seq<byte>)
    ensures |f| >= 5 && f[0] == COMMAND_COMPLETE
  {
    Frame(COMMAND_COMPLETE, CString(tag))
  }

  function ReadyForQuery(status: byte): (f: seq<byte>)
    ensures |f| == 6 && f[0] == READY_FOR_QUERY && f[5] == status
  {
    Frame(READY_FOR_QUERY, [status])
  }

  // ---------------------------------------------------------------------------------------------
  // Errors and completions, as a client reads them

  /** The fields of an ErrorResponse, each a type byte and a C string, up to the terminator (section 55.8 of the PostgreSQL 16
      documentation). */
  function ReadFields(b: seq<byte>): Option<seq<(byte, seq<byte>)>>
    decreases |b|
  {
    if b == [] then None
    else if b[0] == 0 then (if |b| == 1 then Some([]) else None)
    else
      var nul := IndexOf(b[1..], 0);
      if nul == |b| - 1 then None
      else
        var more := ReadFields(b[nul + 2..]);
        if more.None? then None else Some([(b[0], b[1..nul + 1])] + more.value)
  }

  lemma FieldReadBack(t: byte, s: seq<byte>, rest: seq<byte>, more: seq<(byte, seq<byte>)>)
    requires t != 0 && 0 !in s && ReadFields(rest) == Some(more)
    ensures ReadFields([t] + CString(s) + rest) == Some([(t, s)] + more)
  {
    var b := [t] + CString(s) + rest;
    assert b[1..] == s + [0] + rest;
    IndexOfAfter(s, 0, rest);
    assert b[1..|s| + 1] == s && b[|s| + 2..] == rest;
  }

  /** An error of this severity, SQLSTATE and message, as a client reads the frame. */
  predicate ReadsAsError(f: seq<byte>, severity: seq<byte>, code: seq<byte>, message: seq<byte>) {
    |f| >= 5 && f[0] == 69 && ReadFields(f[5..]) == Some([(83, severity), (86, severity), (67, code), (77, message)])
  }

  /** What is built is read back as that exactly when there is no NUL in it. */
  lemma ErrorReadBackExactly(severity: seq<byte>, code: seq<byte>, message: seq<byte>)
    ensures ReadsAsError(ErrorResponse(severity, code, message), severity, code, message)
            <==> 0 !in severity && 0 !in code && 0 !in message
  {
    var f := ErrorResponse(severity, code, message);
    if ReadsAsError(f, severity, code, message) {
      FieldsAreNulFree(f[5..]);
      var fields := ReadFields(f[5..]).value;
      assert fields[0].1 == severity && fields[2].1 == code && fields[3].1 == message;
    }
    if 0 !in severity && 0 !in code && 0 !in message {
      ErrorReadBack(severity, code, message);
    }
  }

  lemma {:induction false} FieldsAreNulFree(b: seq<byte>)
    requires ReadFields(b).Some?
    ensures forall i :: 0 <= i < |ReadFields(b).value| ==> 0 !in ReadFields(b).value[i].1
    decreases |b|
  {
    if b[0] != 0 {
      var nul := IndexOf(b[1..], 0);
      FieldsAreNulFree(b[nul + 2..]);
      assert 0 !in b[1..nul + 1];
    }
  }

  lemma ErrorReadBack(severity: seq<byte>, code: seq<byte>, message: seq<byte>)
    requires 0 !in severity && 0 !in code && 0 !in message
    ensures ReadsAsError(ErrorResponse(severity, code, message), severity, code, message)
  {
    var later := [67] + CString(code) + ([77] + CString(message) + [0]);
    DetailReadBack(code, message);
    SeverityReadBack(severity, later, [(67, code), (77, message)]);
    FieldsRegroup(severity, code, message);
    ListOfFour(severity, code, message);
  }

  lemma ListOfFour(severity: seq<byte>, code: seq<byte>, message: seq<byte>)
    ensures [(83 as byte, severity), (86 as byte, severity)] + [(67 as byte, code), (77 as byte, message)]
            == [(83 as byte, severity), (86 as byte, severity), (67 as byte, code), (77 as byte, message)]
  {
  }

  lemma DetailReadBack(code: seq<byte>, message: seq<byte>)
    requires 0 !in code && 0 !in message
    ensures ReadFields([67] + CString(code) + ([77] + CString(message) + [0])) == Some([(67, code), (77, message)])
  {
    LastFieldReadBack(77, message);
    FieldReadBack(67, code, [77] + CString(message) + [0], [(77, message)]);
    assert [(67 as byte, code)] + [(77 as byte, message)] == [(67 as byte, code), (77 as byte, message)];
  }

  lemma LastFieldReadBack(t: byte, s: seq<byte>)
    requires t != 0 && 0 !in s
    ensures ReadFields([t] + CString(s) + [0]) == Some([(t, s)])
  {
    assert ReadFields([0]) == Some([]);
    FieldReadBack(t, s, [0], []);
    assert [(t, s)] + [] == [(t, s)];
  }

  lemma SeverityReadBack(severity: seq<byte>, rest: seq<byte>, more: seq<(byte, seq<byte>)>)
    requires 0 !in severity && ReadFields(rest) == Some(more)
    ensures ReadFields([83] + CString(severity) + ([86] + CString(severity) + rest))
            == Some([(83, severity), (86, severity)] + more)
  {
    FieldReadBack(86, severity, rest, more);
    FieldReadBack(83, severity, [86] + CString(severity) + rest, [(86, severity)] + more);
    assert [(83, severity)] + ([(86, severity)] + more) == [(83, severity), (86, severity)] + more;
  }

  lemma FieldsRegroup(severity: seq<byte>, code: seq<byte>, message: seq<byte>)
    ensures ErrorResponse(severity, code, message)[5..]
            == [83] + CString(severity) + ([86] + CString(severity) + ([67] + CString(code) + ([77] + CString(message) + [0])))
  {
  }

  /** A CommandComplete with this tag. */
  predicate ReadsAsCommand(f: seq<byte>, tag: seq<byte>) {
    |f| >= 6 && f[0] == 67 && f[|f| - 1] == 0 && f[5..|f| - 1] == tag && 0 !in tag
  }

  lemma CommandReadBack(tag: seq<byte>)
    ensures ReadsAsCommand(CommandComplete(tag), tag) <==> 0 !in tag
  {
    var f := CommandComplete(tag);
    assert f[5..|f| - 1] == tag;
  }

  // ---------------------------------------------------------------------------------------------
  // Result sets

  function Column(name: seq<byte>): seq<byte> {
    CString(name) + (PutI32(0) + PutI16(0) + PutI32(TEXT_OID) + PutI16(-1) + PutI32(-1) + PutI16(0))
  }

  function Columns(names: seq<seq<byte>>): seq<byte> {
    if names == [] then [] else Column(names[0]) + Columns(names[1..])
  }

  function RowDescription(names: seq<seq<byte>>): (f: seq<byte>)
    ensures |f| >= 5 && f[0] == ROW_DESCRIPTION
  {
    Frame(ROW_DESCRIPTION, PutI16(|names|) + Columns(names))
  }

  /** `row_description` */
  method BuildRowDescription(names: seq<seq<byte>>) returns (f: seq<byte>)
    ensures f == RowDescription(names)
  {
    var body := PutI16(|names|);
    for i := 0 to |names|
      invariant body + Columns(names[i..]) == PutI16(|names|) + Columns(names)
    {
      ghost var was := body;
      assert names[i..][1..] == names[i + 1..];
      body := body + Column(names[i]);
      Assoc(was, Column(names[i]), Columns(names[i + 1..]));
    }
    assert names[|names|..] == [];
    f := Frame(ROW_DESCRIPTION, body);
  }

  /** What follows the name of a column of no table, of type text (OID 25), of variable length, with no modifier and in text
      format (section 55.7 of the PostgreSQL 16 documentation). */
  const TEXT_COLUMN: seq<byte> := [0, 0, 0, 0, 0, 0, 0, 0, 0, 25, 255, 255, 255, 255, 255, 255, 0, 0]

  /** How a client reads such a column: the name, and where the next one starts. */
  function ReadColumn(b: seq<byte>): Option<(seq<byte>, seq<byte>)> {
    var nul := IndexOf(b, 0);
    if nul == |b| || |b| < nul + 19 || b[nul + 1..nul + 19] != TEXT_COLUMN then None else Some((b[..nul], b[nul + 19..]))
  }

  function ReadColumns(b: seq<byte>, n: nat): Option<seq<seq<byte>>>
    decreases n
  {
    if n == 0 then (if b == [] then Some([]) else None)
    else
      var c := ReadColumn(b);
      if c.None? then None
      else
        var more := ReadColumns(c.value.1, n - 1);
        if more.None? then None else Some([c.value.0] + more.value)
  }

  /** A RowDescription payload. */
  function ReadRowDescription(payload: seq<byte>): Option<seq<seq<byte>>> {
    if |payload| < 2 || ReadI16(payload) < 0 then None else ReadColumns(payload[2..], ReadI16(payload))
  }

  predicate NulFree(names: seq<seq<byte>>) {
    forall i :: 0 <= i < |names| ==> 0 !in names[i]
  }

  lemma ColumnIsText(name: seq<byte>)
    ensures Column(name) == name + [0] + TEXT_COLUMN
  {
  }

  lemma ColumnReadBack(name: seq<byte>, rest: seq<byte>)
    requires 0 !in name
    ensures ReadColumn(Column(name) + rest) == Some((name, rest))
  {
    var tail := TEXT_COLUMN + rest;
    var b := Column(name) + rest;
    ColumnIsText(name);
    assert b == name + [0] + tail;
    IndexOfAfter(name, 0, tail);
    assert b[..|name|] == name && b[|name| + 1..|name| + 19] == TEXT_COLUMN && b[|name| + 19..] == rest;
  }

  lemma {:induction false} ColumnsReadBack(names: seq<seq<byte>>)
    requires NulFree(names)
    ensures ReadColumns(Columns(names), |names|) == Some(names)
    decreases |names|
  {
    if names != [] {
      ColumnsReadBack(names[1..]);
      ColumnsCons(names);
      OneMoreColumn(names[0], Columns(names[1..]), |names| - 1, names[1..]);
    }
  }

  lemma ColumnsCons(names: seq<seq<byte>>)
    requires names != []
    ensures Columns(names) == Column(names[0]) + Columns(names[1..]) && [names[0]] + names[1..] == names
  {
    HeadTail(names);
  }

  lemma OneMoreColumn(name: seq<byte>, rest: seq<byte>, n: nat, names: seq<seq<byte>>)
    requires 0 !in name && ReadColumns(rest, n) == Some(names)
    ensures ReadColumns(Column(name) + rest, n + 1) == Some([name] + names)
  {
    ColumnReadBack(name, rest);
  }

  lemma {:induction false} ReadColumnsShape(b: seq<byte>, n: nat)
    ensures ReadColumns(b, n).Some? ==> |ReadColumns(b, n).value| == n && NulFree(ReadColumns(b, n).value)
    decreases n
  {
    if n > 0 && ReadColumn(b).Some? {
      ReadColumnsShape(ReadColumn(b).value.1, n - 1);
    }
  }

  /** A row description reads back name for name, all text columns, exactly when the names are NUL-free and their number fits an i16. */
  lemma RowDescriptionReadBack(names: seq<seq<byte>>)
    ensures ReadRowDescription(Payload(RowDescription(names))) == Some(names) <==> NulFree(names) && |names| < 0x8000
  {
    var body := PutI16(|names|) + Columns(names);
    assert Payload(RowDescription(names)) == body;
    I16RoundTrip(|names|, Columns(names));
    if ReadI16(body) >= 0 {
      ReadColumnsShape(Columns(names), ReadI16(body));
    }
    if NulFree(names) {
      ColumnsReadBack(names);
    }
  }

  /** A value: its length and text, or -1 for NULL. */
  function Cell(v: Option<seq<byte>>): seq<byte> {
    if v.None? then PutI32(-1) else PutI32(|v.value|) + v.value
  }

  function Cells(vs: seq<Option<seq<byte>>>): seq<byte> {
    if vs == [] then [] else Cell(vs[0]) + Cells(vs[1..])
  }

  function DataRow(vs: seq<Option<seq<byte>>>): (f: seq<byte>)
    ensures |f| >= 5 && f[0] == DATA_ROW
  {
    Frame(DATA_ROW, PutI16(|vs|) + Cells(vs))
  }

  /** `data_row` */
  method BuildDataRow(vs: seq<Option<seq<byte>>>) returns (f: seq<byte>)
    ensures f == DataRow(vs)
  {
    var body := PutI16(|vs|);
    for i := 0 to |vs|
      invariant body + Cells(vs[i..]) == PutI16(|vs|) + Cells(vs)
    {
      ghost var was := body;
      assert vs[i..][1..] == vs[i + 1..];
      if vs[i].Some? {
        body := body + PutI32(|vs[i].value|);
        body := body + vs[i].value;
        Assoc(was, PutI32(|vs[i].value|), vs[i].value);
      } else {
        body := body + PutI32(-1);
      }
      Assoc(was, Cell(vs[i]), Cells(vs[i + 1..]));
    }
    assert vs[|vs|..] == [];
    f := Frame(DATA_ROW, body);
  }

  /** How a client reads a value at the head of a row: the value and the bytes it takes. */
  function ReadCell(b: seq<byte>): Option<(Option<seq<byte>>, nat)> {
    if |b| < 4 then None
    else
      var len := ReadI32(b);
      if len == -1 then Some((None, 4))
      else if len < 0 || |b| < 4 + len then None
      else Some((Some(b[4..4 + len]), 4 + len))
  }

  /** And `n` values, up to the end (section 55.7 of the PostgreSQL 16 documentation). */
  function ReadCells(b: seq<byte>, n: nat): Option<seq<Option<seq<byte>>>> {
    if n == 0 then (if b == [] then Some([]) else None)
    else
      var v := ReadCell(b);
      if v.None? || v.value.1 > |b| then None
      else
        var more := ReadCells(b[v.value.1..], n - 1);
        if more.None? then None else Some([v.value.0] + more.value)
  }

  predicate AllFit(vs: seq<Option<seq<byte>>>) {
    forall i :: 0 <= i < |vs| ==> vs[i].Some? ==> |vs[i].value| < TWO31
  }

  /** A row reads back value for value, NULLs apart from empty strings, as long as each length fits an i32. */
  lemma {:induction false} CellsReadBack(vs: seq<Option<seq<byte>>>)
    requires AllFit(vs)
    ensures ReadCells(Cells(vs), |vs|) == Some(vs)
    decreases |vs|
  {
    if vs != [] {
      var v, tail := vs[0], vs[1..];
      CellsCons(vs);
      CellsReadBack(tail);
      OneMoreCell(v, Cells(tail), |tail|, tail);
    }
  }

  lemma CellsCons(vs: seq<Option<seq<byte>>>)
    requires vs != []
    ensures Cells(vs) == Cell(vs[0]) + Cells(vs[1..]) && [vs[0]] + vs[1..] == vs
    ensures AllFit(vs) ==> AllFit(vs[1..]) && (vs[0].Some? ==> |vs[0].value| < TWO31)
  {
    HeadTail(vs);
  }

  lemma OneMoreCell(v: Option<seq<byte>>, rest: seq<byte>, n: nat, vs: seq<Option<seq<byte>>>)
    requires (v.Some? ==> |v.value| < TWO31) && ReadCells(rest, n) == Some(vs)
    ensures ReadCells(Cell(v) + rest, n + 1) == Some([v] + vs)
  {
    CellReadBack(v, rest);
  }

  lemma CellReadBack(v: Option<seq<byte>>, rest: seq<byte>)
    requires v.Some? ==> |v.value| < TWO31
    ensures ReadCell(Cell(v) + rest) == Some((v, |Cell(v)|)) && (Cell(v) + rest)[|Cell(v)|..] == rest
  {
    if v.None? {
      I32RoundTrip(-1, rest);
    } else {
      I32RoundTrip(|v.value|, v.value + rest);
      assert PutI32(|v.value|) + (v.value + rest) == Cell(v) + rest;
      assert (Cell(v) + rest)[4..4 + |v.value|] == v.value;
    }
  }

  /** A DataRow payload. */
  function ReadDataRow(payload: seq<byte>): Option<seq<Option<seq<byte>>>> {
    if |payload| < 2 || ReadI16(payload) < 0 then None else ReadCells(payload[2..], ReadI16(payload))
  }

  lemma {:induction false} ReadCellsShape(b: seq<byte>, n: nat)
    ensures ReadCells(b, n).Some? ==> |ReadCells(b, n).value| == n
    decreases n
  {
    if n > 0 && ReadCell(b).Some? && ReadCell(b).value.1 <= |b| {
      ReadCellsShape(b[ReadCell(b).value.1..], n - 1);
    }
  }

  /** A length that does not fit an i32 is not read back. */
  lemma {:induction false} ReadBackFits(vs: seq<Option<seq<byte>>>)
    requires ReadCells(Cells(vs), |vs|) == Some(vs)
    ensures AllFit(vs)
    decreases |vs|
  {
    if vs != [] {
      CellsCons(vs);
      FirstFits(vs[0], Cells(vs[1..]), vs[1..]);
      ReadBackFits(vs[1..]);
    }
  }

  lemma FirstFits(v: Option<seq<byte>>, rest: seq<byte>, vs: seq<Option<seq<byte>>>)
    requires ReadCells(Cell(v) + rest, |vs| + 1) == Some([v] + vs)
    ensures (v.Some? ==> |v.value| < TWO31) && ReadCells(rest, |vs|) == Some(vs)
  {
    var all := [v] + vs;
    assert all[0] == v && all[1..] == vs;
    ReadCellShort(Cell(v) + rest);
    CellReadBack(v, rest);
  }

  lemma ReadCellShort(b: seq<byte>)
    ensures ReadCell(b).Some? && ReadCell(b).value.0.Some? ==> |ReadCell(b).value.0.value| < TWO31
  {
  }

  /** A data row reads back value for value, NULLs apart from empty strings, exactly when the number of values fits an
      i16 and each length an i32. */
  lemma DataRowReadBack(vs: seq<Option<seq<byte>>>)
    ensures ReadDataRow(Payload(DataRow(vs))) == Some(vs) <==> |vs| < 0x8000 && AllFit(vs)
  {
    var body := PutI16(|vs|) + Cells(vs);
    assert Payload(DataRow(vs)) == body;
    I16RoundTrip(|vs|, Cells(vs));
    if ReadI16(body) >= 0 {
      ReadCellsShape(Cells(vs), ReadI16(body));
    }
    if AllFit(vs) {
      CellsReadBack(vs);
    }
    if ReadDataRow(body) == Some(vs) {
      ReadBackFits(vs);
    }
  }
}
