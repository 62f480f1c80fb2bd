/** The CSV export of a grid, and a reader for section 2 of RFC 4180. */
module CsvExport {
  import opened Options
  import opened Text

  // ----- cells

  /** A JavaScript value as the export sees it: `text` is `String(v)`, `json` is `JSON.stringify(v)`. */
  datatype Value =
    | Undefined
    | Null
    | Primitive(text: string)
    | Object(fields: map<string, Value>, json: string)

  datatype Column = Column(
    id: Option<string>,
    header: Option<string>,
    accessorKey: Option<string>,
    accessorFn: Option<Value -> Value>)

  function GetColumnHeader(column: Column): string {
    match column.header
    case Some(header) => header
    case None => if column.id.Some? && column.id.value != "" then column.id.value else "Unknown"
  }

  function Reduce(value: Value, keys: seq<string>): Value
    decreases |keys|
  {
    if keys == [] then value
    else Reduce(if value.Object? && keys[0] in value.fields then value.fields[keys[0]] else Undefined, keys[1..])
  }

  function GetCellValue(row: Value, column: Column): string {
    var value :=
      if column.accessorKey.Some? && column.accessorKey.value != "" then Reduce(row, Split(column.accessorKey.value, '.'))
      else if column.accessorFn.Some? then column.accessorFn.value(row)
      else Primitive("");
    match value
    case Undefined => ""
    case Null => ""
    case Object(_, json) => json
    case Primitive(text) => text
  }

  predicate Exportable(column: Column) {
    column.id != Some("select") && column.id != Some("actions") && column.id != Some("expand")
  }

  function ExportableColumns(columns: seq<Column>): seq<Column> {
    if columns == [] then []
    else (if Exportable(columns[0]) then [columns[0]] else []) + ExportableColumns(columns[1..])
  }

  /** The chain of properties `keys` leads from `value` to `target`. */
  predicate Leads(value: Value, keys: seq<string>, target: Value)
    decreases |keys|
  {
    if keys == [] then value == target
    else value.Object? && keys[0] in value.fields && Leads(value.fields[keys[0]], keys[1..], target)
  }

  lemma {:induction false} ReduceFollows(value: Value, keys: seq<string>, target: Value)
    requires target != Undefined
    ensures Reduce(value, keys) == target <==> Leads(value, keys, target)
    decreases |keys|
  {
    if keys != [] {
      if value.Object? && keys[0] in value.fields {
        ReduceFollows(value.fields[keys[0]], keys[1..], target);
      } else {
        ReduceFollows(Undefined, keys[1..], target);
        NothingUnderUndefined(keys[1..], target);
      }
    }
  }

  lemma NothingUnderUndefined(keys: seq<string>, target: Value)
    requires target != Undefined
    ensures !Leads(Undefined, keys, target)
  {}

  /** A dotted accessor key reads the property its parts lead to, and no other cell is filled. */
  lemma NestedAccessor(row: Value, column: Column, keys: seq<string>, target: Value)
    requires keys != [] && forall k :: k in keys ==> '.' !in k
    requires column.accessorKey == Some(JoinWith(keys, ".")) && JoinWith(keys, ".") != ""
    ensures target.Primitive? && Leads(row, keys, target) ==> GetCellValue(row, column) == target.text
    ensures target.Object? && Leads(row, keys, target) ==> GetCellValue(row, column) == target.json
    ensures (forall v :: Leads(row, keys, v) ==> v == Undefined || v == Null) ==> GetCellValue(row, column) == ""
  {
    SplitJoin(keys, '.');
    var v := Reduce(row, keys);
    if v != Undefined { ReduceFollows(row, keys, v); }
    if target != Undefined { ReduceFollows(row, keys, target); }
  }

  /** The header text, or the id when there is none, or "Unknown" when there is no id either. */
  lemma HeaderOf(column: Column)
    ensures column.header.Some? ==> GetColumnHeader(column) == column.header.value
    ensures column.header.None? ==>
      GetColumnHeader(column) == if column.id == None || column.id == Some("") then "Unknown" else column.id.value
  {}

  /** Without an accessor key the accessor function gives the cell, and without either the cell is empty. */
  lemma CellWithoutKey(row: Value, column: Column)
    requires column.accessorKey == None || column.accessorKey == Some("")
    ensures column.accessorFn.None? ==> GetCellValue(row, column) == ""
    ensures column.accessorFn.Some? ==>
      GetCellValue(row, column) ==
        match column.accessorFn.value(row)
        case Undefined => ""
        case Null => ""
        case Primitive(text) => text
        case Object(_, json) => json
  {}

  // ----- which columns are exported

  predicate Wanted(column: Column) {
    column.id !in [Some("select"), Some("actions"), Some("expand")]
  }

  /** `picked` are the places, in order, of the columns that are neither "select" nor "actions" nor "expand". */
  predicate Picks(picked: seq<nat>, columns: seq<Column>) {
    && (forall k :: 0 <= k < |picked| ==> picked[k] < |columns|)
    && (forall j, k :: 0 <= j < k < |picked| ==> picked[j] < picked[k])
    && forall i: nat :: i < |columns| ==> (i in picked <==> Wanted(columns[i]))
  }

  function Picked(columns: seq<Column>, picked: seq<nat>): seq<Column>
    requires forall k :: 0 <= k < |picked| ==> picked[k] < |columns|
  {
    seq(|picked|, k requires 0 <= k < |picked| => columns[picked[k]])
  }

  function Shifted(picked: seq<nat>): seq<nat> {
    seq(|picked|, k requires 0 <= k < |picked| => picked[k] + 1)
  }

  lemma ShiftedHas(picked: seq<nat>, i: nat)
    ensures i in Shifted(picked) <==> i > 0 && i - 1 in picked
  {
    if i in Shifted(picked) {
      var k :| 0 <= k < |picked| && Shifted(picked)[k] == i;
      assert picked[k] == i - 1;
    }
    if i > 0 && i - 1 in picked {
      var k :| 0 <= k < |picked| && picked[k] == i - 1;
      assert Shifted(picked)[k] == i;
    }
  }

  lemma PickedFront(columns: seq<Column>, picked: seq<nat>, rest: seq<nat>, first: bool)
    requires columns != [] && (forall k :: 0 <= k < |rest| ==> rest[k] < |columns| - 1)
    requires picked == (if first then [0] else []) + Shifted(rest)
    ensures forall k :: 0 <= k < |picked| ==> picked[k] < |columns|
    ensures Picked(columns, picked) == (if first then [columns[0]] else []) + Picked(columns[1..], rest)
  {}

  lemma PicksTail(columns: seq<Column>, rest: seq<nat>) returns (picked: seq<nat>)
    requires columns != [] && Picks(rest, columns[1..])
    ensures Picks(picked, columns)
    ensures Picked(columns, picked) == (if Wanted(columns[0]) then [columns[0]] else []) + Picked(columns[1..], rest)
  {
    hide Wanted;
    hide Picked;
    var first := Wanted(columns[0]);
    picked := (if first then [0] else []) + Shifted(rest);
    PickedFront(columns, picked, rest, first);
    forall i: nat | i < |columns| ensures i in picked <==> Wanted(columns[i]) {
      ShiftedHas(rest, i);
      if i > 0 { assert columns[i] == columns[1..][i - 1]; }
    }
  }

  lemma {:induction false} ExportedAre(columns: seq<Column>) returns (picked: seq<nat>)
    ensures Picks(picked, columns) && ExportableColumns(columns) == Picked(columns, picked)
    decreases |columns|
  {
    if columns == [] {
      picked := [];
    } else {
      var rest := ExportedAre(columns[1..]);
      picked := PicksTail(columns, rest);
    }
  }

  // ----- text

  const CRLF: string := "\r\n"
  const BOM: char := '\U{FEFF}'

  predicate Special(c: char) {
    c == ',' || c == '"' || c == '\n' || c == '\r'
  }

  function DoubleQuotes(s: string): string {
    if s == "" then "" else (if s[0] == '"' then "\"\"" else [s[0]]) + DoubleQuotes(s[1..])
  }

  function EscapeField(value: string): string {
    if ',' in value || '"' in value || '\n' in value || '\r' in value
    then "\"" + DoubleQuotes(value) + "\""
    else value
  }

  function EscapeAll(cells: seq<string>): seq<string> {
    seq(|cells|, i requires 0 <= i < |cells| => EscapeField(cells[i]))
  }

  function Line(cells: seq<string>): string {
    JoinWith(EscapeAll(cells), ",")
  }

  function Lines(rows: seq<seq<string>>): seq<string> {
    seq(|rows|, i requires 0 <= i < |rows| => Line(rows[i]))
  }

  function Headers(columns: seq<Column>): seq<string> {
    seq(|columns|, i requires 0 <= i < |columns| => GetColumnHeader(columns[i]))
  }

  function Cells(row: Value, columns: seq<Column>): seq<string> {
    seq(|columns|, i requires 0 <= i < |columns| => GetCellValue(row, columns[i]))
  }

  /** The header strings and every row's cell strings. */
  function Table(data: seq<Value>, columns: seq<Column>): seq<seq<string>> {
    [Headers(columns)] + seq(|data|, i requires 0 <= i < |data| => Cells(data[i], columns))
  }

  function ToCsv(data: seq<Value>, columns: seq<Column>): string {
    var exportable := ExportableColumns(columns);
    var dataRows := seq(|data|, i requires 0 <= i < |data| => Line(Cells(data[i], exportable)));
    [BOM] + JoinWith([Line(Headers(exportable))] + dataRows, CRLF)
  }

  // ----- the reader (section 2 of RFC 4180, with every other character as TEXTDATA)

  /** escaped = DQUOTE *(TEXTDATA / COMMA / CR / LF / 2DQUOTE) DQUOTE, after the opening quote. */
  function ReadQuoted(t: string): (r: Option<(string, string)>)
    ensures r.Some? ==> |r.value.1| < |t|
  {
    if t == "" then None
    else if t[0] == '"' && |t| > 1 && t[1] == '"' then
      var (s, rest) :- ReadQuoted(t[2..]);
      Some(("\"" + s, rest))
    else if t[0] == '"' then Some(("", t[1..]))
    else
      var (s, rest) :- ReadQuoted(t[1..]);
      Some(([t[0]] + s, rest))
  }

  /** non-escaped = *TEXTDATA */
  function ReadPlain(t: string): (r: (string, string))
    ensures |r.1| <= |t|
  {
    if t == "" || Special(t[0]) then ("", t)
    else
      var (s, rest) := ReadPlain(t[1..]);
      ([t[0]] + s, rest)
  }

  function ReadField(t: string): (r: Option<(string, string)>)
    ensures r.Some? ==> |r.value.1| <= |t|
  {
    if t != "" && t[0] == '"' then ReadQuoted(t[1..]) else Some(ReadPlain(t))
  }

  /** record = field *(COMMA field) */
  function ReadRecord(t: string): (r: Option<(seq<string>, string)>)
    ensures r.Some? ==> |r.value.1| <= |t|
    decreases |t|
  {
    var (field, rest) :- ReadField(t);
    if rest != "" && rest[0] == ',' then
      var (fields, rest') :- ReadRecord(rest[1..]);
      Some(([field] + fields, rest'))
    else Some(([field], rest))
  }

  /**
   * file = record *(CRLF record) [CRLF]. The final [CRLF] makes the grammar ambiguous:
   * with `lastBreak` a line break at the very end closes the last record, without it
   * the break starts one more record.
   */
  function ReadRecords(t: string, lastBreak: bool): Option<seq<seq<string>>>
    decreases |t|
  {
    var (record, rest) :- ReadRecord(t);
    if rest == "" || (lastBreak && rest == CRLF) then Some([record])
    else if CRLF <= rest then
      var records :- ReadRecords(rest[2..], lastBreak);
      Some([record] + records)
    else None
  }

  function ReadCsv(t: string, lastBreak: bool): Option<seq<seq<string>>> {
    if t != "" && t[0] == BOM then ReadRecords(t[1..], lastBreak) else ReadRecords(t, lastBreak)
  }

  // ----- reading undoes writing

  lemma {:induction false} ReadQuotedBack(s: string, rest: string)
    requires rest == "" || rest[0] != '"'
    ensures ReadQuoted(DoubleQuotes(s) + "\"" + rest) == Some((s, rest))
  {
    var t := DoubleQuotes(s) + "\"" + rest;
    if s == "" {
      assert t == "\"" + rest && t[1..] == rest;
    } else {
      ReadQuotedBack(s[1..], rest);
      assert [s[0]] + s[1..] == s;
      if s[0] == '"' {
        assert t[2..] == DoubleQuotes(s[1..]) + "\"" + rest;
      } else {
        assert t[1..] == DoubleQuotes(s[1..]) + "\"" + rest;
      }
    }
  }

  lemma {:induction false} ReadPlainBack(s: string, rest: string)
    requires forall c :: c in s ==> !Special(c)
    requires rest == "" || Special(rest[0])
    ensures ReadPlain(s + rest) == (s, rest)
  {
    if s == "" {
      assert s + rest == rest;
    } else {
      assert (s + rest)[1..] == s[1..] + rest;
      assert s[0] in s && [s[0]] + s[1..] == s;
      ReadPlainBack(s[1..], rest);
    }
  }

  predicate EndsField(rest: string) {
    rest == "" || rest[0] == ',' || rest[0] == '\r'
  }

  /** Any cell string is read back, whatever commas, quotes and line breaks it holds. */
  lemma ReadFieldBack(s: string, rest: string)
    requires EndsField(rest)
    ensures ReadField(EscapeField(s) + rest) == Some((s, rest))
  {
    if ',' in s || '"' in s || '\n' in s || '\r' in s {
      ReadQuotedField(s, rest);
    } else {
      ReadPlainField(s, rest);
    }
  }

  lemma ReadQuotedField(s: string, rest: string)
    requires EndsField(rest)
    ensures ReadField("\"" + DoubleQuotes(s) + "\"" + rest) == Some((s, rest))
  {
    var inner := DoubleQuotes(s) + "\"" + rest;
    assert "\"" + DoubleQuotes(s) + "\"" + rest == "\"" + inner;
    ReadOpeningQuote(inner);
    ReadQuotedBack(s, rest);
  }

  lemma ReadOpeningQuote(t: string)
    ensures ReadField("\"" + t) == ReadQuoted(t)
  {}

  lemma ReadPlainField(s: string, rest: string)
    requires EndsField(rest) && ',' !in s && '"' !in s && '\n' !in s && '\r' !in s
    ensures ReadField(s + rest) == Some((s, rest))
  {
    ReadPlainBack(s, rest);
    if s != "" { assert (s + rest)[0] == s[0] && s[0] in s; } else { assert s + rest == rest; }
  }

  lemma LineCons(cells: seq<string>, rest: string)
    requires |cells| > 1
    ensures Line(cells) + rest == EscapeField(cells[0]) + ("," + (Line(cells[1..]) + rest))
  {
    assert EscapeAll(cells)[1..] == EscapeAll(cells[1..]);
  }

  lemma {:induction false} ReadRecordBack(cells: seq<string>, rest: string)
    requires cells != [] && (rest == "" || rest[0] == '\r')
    ensures ReadRecord(Line(cells) + rest) == Some((cells, rest))
    decreases |cells|
  {
    if |cells| == 1 {
      ReadFieldBack(cells[0], rest);
      assert Line(cells) == EscapeField(cells[0]) && [cells[0]] == cells;
    } else {
      var tail := Line(cells[1..]) + rest;
      LineCons(cells, rest);
      ReadFieldBack(cells[0], "," + tail);
      assert ("," + tail)[1..] == tail;
      ReadRecordBack(cells[1..], rest);
      assert [cells[0]] + cells[1..] == cells;
    }
  }

  /** What a reader that lets a line break close the last record makes of a table. */
  function Seen(rows: seq<seq<string>>, lastBreak: bool): seq<seq<string>> {
    if lastBreak && |rows| >= 2 && rows[|rows| - 1] == [""] then rows[..|rows| - 1] else rows
  }

  lemma EmptyLine(cells: seq<string>)
    requires cells != []
    ensures Line(cells) == "" <==> cells == [""]
  {}

  lemma {:induction false} ReadRecordsBack(rows: seq<seq<string>>, lastBreak: bool)
    requires rows != [] && forall i :: 0 <= i < |rows| ==> rows[i] != []
    ensures ReadRecords(JoinWith(Lines(rows), CRLF), lastBreak) == Some(Seen(rows, lastBreak))
    decreases |rows|
  {
    var t := JoinWith(Lines(rows), CRLF);
    if |rows| == 1 {
      ReadRecordBack(rows[0], "");
      assert t == Line(rows[0]) + "" && [rows[0]] == rows;
    } else {
      assert Lines(rows)[1..] == Lines(rows[1..]);
      var after := JoinWith(Lines(rows[1..]), CRLF);
      assert t == Line(rows[0]) + (CRLF + after);
      ReadRecordBack(rows[0], CRLF + after);
      assert (CRLF + after)[2..] == after;
      if |rows| == 2 {
        EmptyLine(rows[1]);
        assert after == Line(rows[1]);
        ReadRecordsBack(rows[1..], lastBreak);
        if rows[1] == [""] {
          assert CRLF + after == CRLF;
          assert rows[..1] == [rows[0]];
        } else {
          assert |CRLF + after| > 2;
        }
      } else {
        assert |after| >= 2;
        ReadRecordsBack(rows[1..], lastBreak);
      }
      SeenCons(rows, lastBreak);
    }
  }

  lemma SeenCons(rows: seq<seq<string>>, lastBreak: bool)
    requires |rows| >= 2
    ensures |rows| > 2 || !lastBreak || rows[1] != [""] ==> Seen(rows, lastBreak) == [rows[0]] + Seen(rows[1..], lastBreak)
  {}

  lemma CsvIsTable(data: seq<Value>, columns: seq<Column>)
    ensures ToCsv(data, columns) == [BOM] + JoinWith(Lines(Table(data, ExportableColumns(columns))), CRLF)
  {
    var exportable := ExportableColumns(columns);
    assert Lines(Table(data, exportable)) ==
      [Line(Headers(exportable))] + seq(|data|, i requires 0 <= i < |data| => Line(Cells(data[i], exportable)));
  }

  lemma TableRows(data: seq<Value>, columns: seq<Column>)
    requires columns != []
    ensures forall i :: 0 <= i < |Table(data, columns)| ==> Table(data, columns)[i] != []
  {}

  lemma ReadToCsv(data: seq<Value>, columns: seq<Column>, lastBreak: bool)
    requires ExportableColumns(columns) != []
    ensures ReadCsv(ToCsv(data, columns), lastBreak) == Some(Seen(Table(data, ExportableColumns(columns)), lastBreak))
  {
    var table := Table(data, ExportableColumns(columns));
    var body := JoinWith(Lines(table), CRLF);
    CsvIsTable(data, columns);
    assert ([BOM] + body)[1..] == body;
    TableRows(data, ExportableColumns(columns));
    ReadRecordsBack(table, lastBreak);
  }

  /** The reader never gives a record without fields. */
  lemma {:induction false} RecordsHaveFields(t: string, lastBreak: bool)
    ensures var r := ReadRecords(t, lastBreak); r.Some? ==> r.value != [] && r.value[0] != []
    decreases |t|
  {}

  /** A last row that consists of one empty cell. */
  predicate EndsInEmptyRow(data: seq<Value>, columns: seq<Column>) {
    |columns| == 1 && data != [] && GetCellValue(data[|data| - 1], columns[0]) == ""
  }

  /**
   * The export is read back cell by cell exactly when there is a column to export;
   * a reader that drops a final line break also needs the last row not to be one empty cell.
   */
  lemma CsvRoundTrip(data: seq<Value>, columns: seq<Column>)
    ensures
      var exportable := ExportableColumns(columns);
      var text := ToCsv(data, columns);
      && (ReadCsv(text, false) == Some(Table(data, exportable)) <==> exportable != [])
      && (ReadCsv(text, true) == Some(Table(data, exportable))
          <==> exportable != [] && !EndsInEmptyRow(data, exportable))
  {
    var exportable := ExportableColumns(columns);
    if exportable != [] {
      ReadToCsv(data, columns, false);
      ReadToCsv(data, columns, true);
      LastRowSeen(data, exportable);
    } else {
      assert Table(data, exportable)[0] == [];
      var text := ToCsv(data, columns);
      RecordsHaveFields(text[1..], false);
      RecordsHaveFields(text[1..], true);
    }
  }

  lemma LastRowSeen(data: seq<Value>, columns: seq<Column>)
    requires columns != []
    ensures Seen(Table(data, columns), true) == Table(data, columns) <==> !EndsInEmptyRow(data, columns)
  {
    var table := Table(data, columns);
    if |data| > 0 {
      var last := table[|table| - 1];
      assert last == Cells(data[|data| - 1], columns) && |last| == |columns|;
      assert last[0] == GetCellValue(data[|data| - 1], columns[0]);
      if |columns| == 1 { assert last == [last[0]]; }
    }
  }

  /** Two exports with the same text hold the same headers and the same cells. */
  lemma ToCsvInjective(data1: seq<Value>, columns1: seq<Column>, data2: seq<Value>, columns2: seq<Column>)
    requires ExportableColumns(columns1) != [] && ExportableColumns(columns2) != []
    requires ToCsv(data1, columns1) == ToCsv(data2, columns2)
    ensures Table(data1, ExportableColumns(columns1)) == Table(data2, ExportableColumns(columns2))
  {
    ReadToCsv(data1, columns1, false);
    ReadToCsv(data2, columns2, false);
  }

  /** The table of the picked columns: their headers, then their cells of every row. */
  function PickedTable(data: seq<Value>, columns: seq<Column>, picked: seq<nat>): seq<seq<string>>
    requires forall k :: 0 <= k < |picked| ==> picked[k] < |columns|
  {
    [seq(|picked|, k requires 0 <= k < |picked| => GetColumnHeader(columns[picked[k]]))]
    + seq(|data|, i requires 0 <= i < |data| =>
        seq(|picked|, k requires 0 <= k < |picked| => GetCellValue(data[i], columns[picked[k]])))
  }

  lemma TableIsPicked(data: seq<Value>, columns: seq<Column>, picked: seq<nat>)
    requires forall k :: 0 <= k < |picked| ==> picked[k] < |columns|
    ensures Table(data, Picked(columns, picked)) == PickedTable(data, columns, picked)
  {
    var table, wanted := Table(data, Picked(columns, picked)), PickedTable(data, columns, picked);
    assert table[0] == wanted[0];
    forall k | 1 <= k < |table| ensures table[k] == wanted[k] {
      assert table[k] == Cells(data[k - 1], Picked(columns, picked));
    }
  }

  /**
   * The export begins with a byte order mark and is read back as the headers and cells, in order, of the
   * columns whose id is neither "select" nor "actions" nor "expand", exactly when there is one.
   */
  lemma ExportsPicked(data: seq<Value>, columns: seq<Column>) returns (picked: seq<nat>)
    ensures Picks(picked, columns)
    ensures ToCsv(data, columns) != "" && ToCsv(data, columns)[0] == '\U{FEFF}'
    ensures ReadCsv(ToCsv(data, columns), false) == Some(PickedTable(data, columns, picked)) <==> picked != []
  {
    picked := ExportedAre(columns);
    CsvRoundTrip(data, columns);
    TableIsPicked(data, columns, picked);
  }

  /** A field is quoted exactly when it holds a comma, a quotation mark or part of a line break. */
  lemma QuotedWhenNeeded(value: string)
    ensures EscapeField(value) == value <==> forall c :: c in value ==> c !in {',', '"', '\n', '\r'}
  {
    if EscapeField(value) != value { assert EscapeField(value)[0] == '"'; }
    DoublingLengthens(value);
  }

  lemma {:induction false} DoublingLengthens(s: string)
    ensures |DoubleQuotes(s)| >= |s|
  {
    if s != "" { DoublingLengthens(s[1..]); }
  }
}
