/**
 * The import from end to end: which raw cell of the sources each field of the stream is, with what text,
 * and which cells refuse the import.
 */
module ImportCells {
  import opened CopyText
  import opened Decimal
  import opened ImportEmitter
  import opened ImportStream
  import opened LegacyValues
  import opened Wrappers

  // ----- cells -----

  /** The importer's own cell for a derived column, and else the row's; what is not there is NULL. */
  function CellOf(col: Col, row: RawRow, derived: RawRow): Raw {
    if col.derived && col.name in derived then derived[col.name]
    else if !col.derived && col.name in row then row[col.name]
    else RawNull
  }

  /** The value is the cell, in a column that takes it. */
  predicate IsCell(v: Value, c: Raw, col: Col) {
    match c
    case RawNull => col.nullable && v == Null
    case RawText(s) => col.colType == TextCol && NUL !in s && v == Text(s)
    case RawBigint(i, exact) =>
      (col.colType == IntCol && v == Int(i)) || (col.colType == RealCol && exact.Some? && v == Real(exact.value))
    case RawNumber(bits, safe) =>
      (col.colType == IntCol && safe.Some? && v == Int(safe.value)) || (col.colType == RealCol && v == Real(bits))
    case RawBlob => false
  }

  /** A cell that its column does not take. */
  predicate Refused(c: Raw, col: Col) {
    match c
    case RawNull => !col.nullable
    case RawText(s) => col.colType != TextCol || NUL in s
    case RawBigint(_, exact) => col.colType == TextCol || (col.colType == RealCol && exact.None?)
    case RawNumber(_, safe) => col.colType == TextCol || (col.colType == IntCol && safe.None?)
    case RawBlob => true
  }

  /** What the error says of a refused cell. */
  function ErrorOf(c: Raw, col: Col): ValueError {
    match c
    case RawNull => NullInNotNull(col.name)
    case RawText(_) => if col.colType == TextCol then HoldsNul(col.name) else WrongType(col.name)
    case _ => WrongType(col.name)
  }

  predicate IsRow(values: seq<Value>, cols: seq<Col>, row: RawRow, derived: RawRow) {
    && |values| == |cols|
    && forall k :: 0 <= k < |cols| ==> IsCell(values[k], CellOf(cols[k], row, derived), cols[k])
  }

  predicate RowRefused(cols: seq<Col>, row: RawRow, derived: RawRow) {
    exists k :: 0 <= k < |cols| && Refused(CellOf(cols[k], row, derived), cols[k])
  }

  lemma CellChecks(col: Col, row: RawRow, derived: RawRow)
    ensures var c, r := CellOf(col, row, derived), CheckValue(At(if col.derived then derived else row, col.name), col);
      && (Refused(c, col) ==> r == Err(ErrorOf(c, col)))
      && (!Refused(c, col) ==> r.Ok? && IsCell(r.value, c, col))
  {
  }

  /** A row passes exactly when no cell is refused, and then each value is its column's cell; else the error
    * tells of the first refused cell. */
  lemma {:induction false} ValuesAreCells(cols: seq<Col>, row: RawRow, derived: RawRow)
    ensures ValuesFor(cols, row, derived).Ok? ==> IsRow(ValuesFor(cols, row, derived).value, cols, row, derived)
    ensures ValuesFor(cols, row, derived).Err? <==> RowRefused(cols, row, derived)
    ensures ValuesFor(cols, row, derived).Err? ==>
              exists k :: 0 <= k < |cols| && FirstRefused(cols, row, derived, k)
                          && ValuesFor(cols, row, derived).error == ErrorOf(CellOf(cols[k], row, derived), cols[k])
  {
    if cols != [] {
      CellChecks(cols[0], row, derived);
      ValuesAreCells(cols[1..], row, derived);
      assert cols == [cols[0]] + cols[1..];
      if Refused(CellOf(cols[0], row, derived), cols[0]) {
        assert FirstRefused(cols, row, derived, 0);
      } else if ValuesFor(cols[1..], row, derived).Err? {
        var k :| 0 <= k < |cols[1..]| && FirstRefused(cols[1..], row, derived, k)
          && ValuesFor(cols[1..], row, derived).error == ErrorOf(CellOf(cols[1..][k], row, derived), cols[1..][k]);
        assert cols[k + 1] == cols[1..][k];
        FirstShifts(cols, row, derived, k);
      }
    }
  }

  predicate FirstRefused(cols: seq<Col>, row: RawRow, derived: RawRow, k: nat)
    requires k < |cols|
  {
    && Refused(CellOf(cols[k], row, derived), cols[k])
    && forall j :: 0 <= j < k ==> !Refused(CellOf(cols[j], row, derived), cols[j])
  }

  lemma FirstShifts(cols: seq<Col>, row: RawRow, derived: RawRow, k: nat)
    requires k + 1 < |cols| && FirstRefused(cols[1..], row, derived, k)
    requires !Refused(CellOf(cols[0], row, derived), cols[0])
    ensures FirstRefused(cols, row, derived, k + 1)
  {
    forall j | 0 <= j < k + 1 ensures !Refused(CellOf(cols[j], row, derived), cols[j]) {
      if j > 0 {
        assert cols[1..][j - 1] == cols[j];
      }
    }
  }

  // ----- the rows of a table and where they come from -----

  /** A table's row comes from a row of a source, or is a session's seeded one. */
  datatype Origin = FromRaw(row: RawRow, derived: RawRow) | Seeded(values: seq<Value>)

  function SourceOrigins(src: Source): seq<Origin> {
    seq(|src.rows|, k requires 0 <= k < |src.rows| => FromRaw(src.rows[k], src.derived))
    + (if src.seeded.Some? then [Seeded(src.seeded.value)] else [])
  }

  /** The sessions' rows, session after session. */
  function SessionOrigins(sources: seq<Source>): seq<Origin> {
    if sources == [] then []
    else SessionOrigins(sources[..|sources| - 1]) + SourceOrigins(sources[|sources| - 1])
  }

  function Origins(input: TableInput): seq<Origin>
    requires input.Valid()
  {
    match input
    case FromCatalog(_, rows, derived) =>
      seq(|rows|, k requires 0 <= k < |rows| => FromRaw(rows[k], derived[k]))
    case FromSessions(_, sources) => SessionOrigins(sources)
  }

  predicate IsOrigin(values: seq<Value>, cols: seq<Col>, o: Origin) {
    match o
    case FromRaw(row, derived) => IsRow(values, cols, row, derived)
    case Seeded(seeded) => values == seeded
  }

  predicate RowsAre(rows: seq<seq<Value>>, cols: seq<Col>, origins: seq<Origin>) {
    |rows| == |origins| && forall k :: 0 <= k < |rows| ==> IsOrigin(rows[k], cols, origins[k])
  }

  predicate OriginRefused(o: Origin, cols: seq<Col>) { o.FromRaw? && RowRefused(cols, o.row, o.derived) }

  predicate AnyRefused(origins: seq<Origin>, cols: seq<Col>) {
    exists k :: 0 <= k < |origins| && OriginRefused(origins[k], cols)
  }

  function RawOrigins(rows: seq<RawRow>, derived: seq<RawRow>): seq<Origin>
    requires |rows| == |derived|
  {
    seq(|rows|, k requires 0 <= k < |rows| => FromRaw(rows[k], derived[k]))
  }

  /** What checking a table comes to, by the rows that it was given. */
  predicate ChecksTo(r: Result<seq<seq<Value>>, ValueError>, cols: seq<Col>, origins: seq<Origin>) {
    if AnyRefused(origins, cols) then r.Err? else r.Ok? && RowsAre(r.value, cols, origins)
  }

  lemma RefusedSum(a: seq<Origin>, b: seq<Origin>, cols: seq<Col>)
    ensures AnyRefused(a + b, cols) <==> AnyRefused(a, cols) || AnyRefused(b, cols)
  {
    if AnyRefused(a, cols) {
      var k :| 0 <= k < |a| && OriginRefused(a[k], cols);
      assert (a + b)[k] == a[k];
    }
    if AnyRefused(b, cols) {
      var k :| 0 <= k < |b| && OriginRefused(b[k], cols);
      assert (a + b)[|a| + k] == b[k];
    }
  }

  lemma {:induction false} CheckedAllAre(cols: seq<Col>, rows: seq<RawRow>, derived: seq<RawRow>)
    requires |rows| == |derived|
    ensures ChecksTo(CheckAll(cols, rows, derived), cols, RawOrigins(rows, derived))
    decreases |rows|
  {
    if rows != [] {
      var n := |rows| - 1;
      var last := [FromRaw(rows[n], derived[n])];
      CheckedAllAre(cols, rows[..n], derived[..n]);
      ValuesAreCells(cols, rows[n], derived[n]);
      assert RawOrigins(rows, derived) == RawOrigins(rows[..n], derived[..n]) + last;
      RefusedSum(RawOrigins(rows[..n], derived[..n]), last, cols);
      assert OriginRefused(last[0], cols) <==> AnyRefused(last, cols);
    }
  }

  lemma SourceRowsAre(cols: seq<Col>, src: Source)
    ensures ChecksTo(SourceRows(cols, src), cols, SourceOrigins(src))
  {
    var derived := Repeat(src.derived, |src.rows|);
    var raw := RawOrigins(src.rows, derived);
    var seeded := if src.seeded.Some? then [Seeded(src.seeded.value)] else [];
    CheckedAllAre(cols, src.rows, derived);
    assert SourceOrigins(src) == raw + seeded;
    RefusedSum(raw, seeded, cols);
  }

  lemma {:induction false} AllRowsAre(cols: seq<Col>, sources: seq<Source>)
    ensures ChecksTo(AllRows(cols, sources), cols, SessionOrigins(sources))
    decreases |sources|
  {
    if sources != [] {
      var n := |sources| - 1;
      AllRowsAre(cols, sources[..n]);
      SourceRowsAre(cols, sources[n]);
      RefusedSum(SessionOrigins(sources[..n]), SourceOrigins(sources[n]), cols);
    }
  }

  /** A table passes exactly when no cell of its rows is refused, and then its rows are those that it was
    * given, each value its cell. */
  lemma TableIsItsSources(input: TableInput)
    requires input.Valid()
    ensures ChecksTo(input.Checked(), input.spec.cols, Origins(input))
  {
    match input
    case FromCatalog(spec, rows, derived) =>
      CheckedAllAre(spec.cols, rows, derived);
      assert Origins(input) == RawOrigins(rows, derived);
    case FromSessions(spec, sources) => AllRowsAre(spec.cols, sources);
  }

  predicate TableRefused(input: TableInput)
    requires input.Valid()
  {
    AnyRefused(Origins(input), input.spec.cols)
  }

  predicate TableIs(rows: seq<seq<Value>>, input: TableInput)
    requires input.Valid()
  {
    RowsAre(rows, input.spec.cols, Origins(input))
  }

  predicate TablesAre(tables: seq<seq<seq<Value>>>, inputs: seq<TableInput>)
    requires AllValid(inputs)
  {
    |tables| == |inputs| && forall i :: 0 <= i < |inputs| ==> TableIs(tables[i], inputs[i])
  }

  lemma TableChecks(input: TableInput)
    requires input.Valid()
    ensures input.Checked().Err? <==> TableRefused(input)
    ensures input.Checked().Ok? ==> TableIs(input.Checked().value, input)
  {
    TableIsItsSources(input);
  }

  predicate SomeRefused(inputs: seq<TableInput>)
    requires AllValid(inputs)
  {
    exists i :: 0 <= i < |inputs| && TableRefused(inputs[i])
  }

  lemma OneMoreRefused(inputs: seq<TableInput>, last: TableInput)
    requires AllValid(inputs) && last.Valid()
    ensures SomeRefused(inputs + [last]) <==> SomeRefused(inputs) || TableRefused(last)
  {
    var all := inputs + [last];
    if SomeRefused(inputs) {
      var i :| 0 <= i < |inputs| && TableRefused(inputs[i]);
      assert all[i] == inputs[i];
    }
    assert all[|inputs|] == last;
  }

  lemma OneMoreTable(tables: seq<seq<seq<Value>>>, inputs: seq<TableInput>, rows: seq<seq<Value>>, last: TableInput)
    requires AllValid(inputs) && last.Valid() && TablesAre(tables, inputs) && TableIs(rows, last)
    ensures TablesAre(tables + [rows], inputs + [last])
  {
  }

  /** The import is refused exactly when a cell of some table's rows is. */
  lemma {:induction false} ImportRefusedExactly(inputs: seq<TableInput>)
    requires AllValid(inputs)
    ensures CheckedTables(inputs).Err? <==> SomeRefused(inputs)
    ensures CheckedTables(inputs).Ok? ==> TablesAre(CheckedTables(inputs).value, inputs)
    decreases |inputs|
  {
    if inputs != [] {
      var front, last := inputs[..|inputs| - 1], inputs[|inputs| - 1];
      assert inputs == front + [last];
      ImportRefusedExactly(front);
      TableChecks(last);
      OneMoreRefused(front, last);
      if CheckedTables(front).Ok? && last.Checked().Ok? {
        OneMoreTable(CheckedTables(front).value, front, last.Checked().value, last);
      }
    }
  }

  // ----- the texts -----

  /** The text of a cell that its column takes; None is NULL. */
  function CellText(c: Raw, col: Col, realText: RealText): Option<string> {
    match c
    case RawText(s) => Some(s)
    case RawBigint(i, exact) =>
      if col.colType == IntCol then Some(IntText(i))
      else if exact.Some? then Some(realText(exact.value)) else None
    case RawNumber(bits, safe) =>
      if col.colType == RealCol then Some(realText(bits))
      else if safe.Some? then Some(IntText(safe.value)) else None
    case _ => None
  }

  function SeededText(v: Value, realText: RealText): Option<string> {
    match v
    case Null => None
    case Text(s) => Some(s)
    case Int(i) => Some(IntText(i))
    case Real(bits) => Some(realText(bits))
  }

  function OriginTexts(o: Origin, cols: seq<Col>, realText: RealText): seq<Option<string>> {
    match o
    case FromRaw(row, derived) =>
      seq(|cols|, k requires 0 <= k < |cols| => CellText(CellOf(cols[k], row, derived), cols[k], realText))
    case Seeded(values) => seq(|values|, k requires 0 <= k < |values| => SeededText(values[k], realText))
  }

  function TableTexts(input: TableInput, realText: RealText): seq<seq<Option<string>>>
    requires input.Valid()
  {
    var origins := Origins(input);
    seq(|origins|, k requires 0 <= k < |origins| => OriginTexts(origins[k], input.spec.cols, realText))
  }

  /** The tables that have rows, with the texts of their sources' cells. */
  function SourceTables(inputs: seq<TableInput>, realText: RealText): seq<Table>
    requires AllValid(inputs)
  {
    if inputs == [] then []
    else (if Origins(inputs[0]) == [] then [] else [Table(CopyHeader(inputs[0].spec), TableTexts(inputs[0], realText))])
         + SourceTables(inputs[1..], realText)
  }

  lemma OriginReads(values: seq<Value>, cols: seq<Col>, o: Origin, realText: RealText)
    requires IsOrigin(values, cols, o)
    ensures TextsOf(values, realText) == OriginTexts(o, cols, realText)
  {
    var texts := OriginTexts(o, cols, realText);
    forall k | 0 <= k < |values| ensures TextsOf(values, realText)[k] == texts[k] {
      if o.FromRaw? {
        assert IsCell(values[k], CellOf(cols[k], o.row, o.derived), cols[k]);
      }
    }
  }

  lemma RowsRead(input: TableInput, rows: seq<seq<Value>>, realText: RealText)
    requires input.Valid() && TableIs(rows, input)
    ensures CopyText.RowTexts(rows, realText) == TableTexts(input, realText)
  {
    RowTextsAt(rows, realText);
    forall k | 0 <= k < |rows| ensures CopyText.RowTexts(rows, realText)[k] == TableTexts(input, realText)[k] {
      OriginReads(rows[k], input.spec.cols, Origins(input)[k], realText);
    }
  }

  lemma FirstTable(tables: seq<seq<seq<Value>>>, inputs: seq<TableInput>)
    requires AllValid(inputs) && TablesAre(tables, inputs) && inputs != []
    ensures TableIs(tables[0], inputs[0]) && AllValid(inputs[1..]) && TablesAre(tables[1..], inputs[1..])
  {
  }

  lemma FirstHeader(inputs: seq<TableInput>)
    requires inputs != []
    ensures Headers(inputs)[0] == CopyHeader(inputs[0].spec) && Headers(inputs)[1..] == Headers(inputs[1..])
  {
  }

  lemma {:induction false} TablesRead(inputs: seq<TableInput>, tables: seq<seq<seq<Value>>>, realText: RealText)
    requires AllValid(inputs) && TablesAre(tables, inputs)
    ensures FileTables(Headers(inputs), tables, realText) == SourceTables(inputs, realText)
    decreases |inputs|
  {
    if inputs != [] {
      FirstTable(tables, inputs);
      FirstHeader(inputs);
      RowsRead(inputs[0], tables[0], realText);
      TablesRead(inputs[1..], tables[1..], realText);
    }
  }

  /** One line a table: its name, and how many rows its sources have. */
  function CountTexts(inputs: seq<TableInput>): seq<seq<Option<string>>>
    requires AllValid(inputs)
  {
    seq(|inputs|, i requires 0 <= i < |inputs| =>
      [Some(inputs[i].spec.target), Some(Digits(|Origins(inputs[i])|))])
  }

  lemma CountsRead(inputs: seq<TableInput>, tables: seq<seq<seq<Value>>>, realText: RealText)
    requires AllValid(inputs) && TablesAre(tables, inputs)
    ensures CopyText.RowTexts(CountRows(Targets(inputs), Counts(tables)), realText) == CountTexts(inputs)
  {
    var counts := CountRows(Targets(inputs), Counts(tables));
    RowTextsAt(counts, realText);
    forall i | 0 <= i < |inputs| ensures CopyText.RowTexts(counts, realText)[i] == CountTexts(inputs)[i] {
      ExpectedCountIsRowsRead(Targets(inputs), Counts(tables), i, tables[i], realText);
      RowTextsAt(tables[i], realText);
    }
  }

  /** A reader of the import finds the sources' own cells: under each table that has rows, in order, one
    * line a source row, in it one field a column with the text of that column's cell; and last the number
    * of rows that each table was given. */
  lemma ImportReadsCells(inputs: seq<TableInput>, realText: RealText)
    requires AllValid(inputs) && inputs != [] && Named(inputs) && PlainReals(realText)
    requires CheckedTables(inputs).Ok?
    ensures ReadTables(ImportText(inputs, CheckedTables(inputs).value, realText))
         == Some(SourceTables(inputs, realText) + [Table(EXPECTED_HEADER, CountTexts(inputs))])
  {
    var tables := CheckedTables(inputs).value;
    ImportRefusedExactly(inputs);
    TablesRead(inputs, tables, realText);
    CountsRead(inputs, tables, realText);
    ImportReadsBack(inputs, tables, realText);
  }

  // ----- the headers -----

  /** The text before the first `sep`, and the text behind it. */
  function CutAt(s: string, sep: char): (cut: Option<(string, string)>)
    ensures cut.Some? ==> |cut.value.1| < |s|
  {
    if s == "" then None
    else if s[0] == sep then Some(("", s[1..]))
    else match CutAt(s[1..], sep)
         case None => None
         case Some((before, behind)) => Some(([s[0]] + before, behind))
  }

  /** The names of a list that commas and spaces separate. */
  function NamesIn(list: string): seq<string>
    decreases |list|
  {
    match CutAt(list, ',')
    case None => [list]
    case Some((name, more)) => if more == "" then [name] else [name] + NamesIn(more[1..])
  }

  /** A COPY statement's table and columns. */
  function ReadHeader(line: string): Option<(string, seq<string>)> {
    if !("COPY catalog." <= line) then None
    else match CutAt(line[13..], ' ')
         case None => None
         case Some((target, more)) =>
           if more == "" || more[0] != '(' then None
           else match CutAt(more[1..], ')')
                case None => None
                case Some((list, end)) => if end == " FROM STDIN;" then Some((target, NamesIn(list))) else None
  }

  function NamesOf(cols: seq<Col>): seq<string> {
    seq(|cols|, k requires 0 <= k < |cols| => cols[k].name)
  }

  /** An identifier: nothing that ends one in a statement. */
  predicate Identifier(s: string) { ' ' !in s && ',' !in s && ')' !in s }

  lemma {:induction false} CutsThere(a: string, sep: char, b: string)
    requires sep !in a
    ensures CutAt(a + ([sep] + b), sep) == Some((a, b))
  {
    var s := a + ([sep] + b);
    if a == "" {
      assert s == [sep] + b && s[1..] == b;
    } else {
      assert a == [a[0]] + a[1..] && s[1..] == a[1..] + ([sep] + b);
      CutsThere(a[1..], sep, b);
    }
  }

  lemma {:induction false} CutsNowhere(a: string, sep: char)
    requires sep !in a
    ensures CutAt(a, sep) == None
  {
    if a != "" {
      assert a == [a[0]] + a[1..];
      CutsNowhere(a[1..], sep);
    }
  }

  lemma {:induction false} NamesReadBack(cols: seq<Col>)
    requires cols != [] && forall k :: 0 <= k < |cols| ==> Identifier(cols[k].name)
    ensures NamesIn(ColumnList(cols)) == NamesOf(cols) && ')' !in ColumnList(cols)
  {
    var name := cols[0].name;
    if |cols| == 1 {
      CutsNowhere(name, ',');
    } else {
      var more := ColumnList(cols[1..]);
      NamesReadBack(cols[1..]);
      assert ColumnList(cols) == name + ([','] + (" " + more));
      CutsThere(name, ',', " " + more);
      assert (" " + more)[1..] == more;
      assert NamesOf(cols) == [name] + NamesOf(cols[1..]);
    }
  }

  lemma HeaderShape(spec: TableSpec, list: string, end: string)
    requires list == ColumnList(spec.cols) && end == " FROM STDIN;"
    ensures "COPY catalog." <= CopyHeader(spec)
    ensures CopyHeader(spec)[13..] == spec.target + ([' '] + ("(" + (list + ([')'] + end))))
  {
    var line := CopyHeader(spec);
    assert line == "COPY catalog." + (spec.target + ([' '] + ("(" + (list + ([')'] + end)))));
  }

  /** A table's header names its target and its columns, in order. */
  lemma HeaderReadsBack(spec: TableSpec)
    requires spec.cols != [] && Identifier(spec.target)
    requires forall k :: 0 <= k < |spec.cols| ==> Identifier(spec.cols[k].name)
    ensures ReadHeader(CopyHeader(spec)) == Some((spec.target, NamesOf(spec.cols)))
  {
    var list, end := ColumnList(spec.cols), " FROM STDIN;";
    var columns := list + ([')'] + end);
    NamesReadBack(spec.cols);
    HeaderShape(spec, list, end);
    CutsThere(spec.target, ' ', "(" + columns);
    assert ("(" + columns)[1..] == columns;
    CutsThere(list, ')', end);
  }
}
