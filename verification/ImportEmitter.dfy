/**
 * The import's buffered writing of one table after another, and what a reader of the written stream
 * finds.
 */
module ImportEmitter {
  import opened CopyText
  import opened Decimal
  import opened Digest
  import opened LegacyValues
  import Sorting
  import opened Wrappers

  const FLUSH_AT: nat := 0x10_0000

  /** A table's target and columns. Its identifiers are the importer's own. */
  datatype TableSpec = TableSpec(target: string, cols: seq<Col>)

  function ColumnList(cols: seq<Col>): string {
    if cols == [] then ""
    else if |cols| == 1 then cols[0].name
    else cols[0].name + ", " + ColumnList(cols[1..])
  }

  /** The header line, without its line break. */
  function CopyHeader(spec: TableSpec): string {
    "COPY catalog." + spec.target + " (" + ColumnList(spec.cols) + ") FROM STDIN;"
  }

  /** The checked rows, or the first error. */
  function CheckAll(cols: seq<Col>, rows: seq<RawRow>, derived: seq<RawRow>): Result<seq<seq<Value>>, ValueError>
    requires |rows| == |derived|
  {
    if rows == [] then Ok([])
    else match CheckAll(cols, rows[..|rows| - 1], derived[..|rows| - 1])
         case Err(e) => Err(e)
         case Ok(done) =>
           match ValuesFor(cols, rows[|rows| - 1], derived[|rows| - 1])
           case Err(e) => Err(e)
           case Ok(v) => Ok(done + [v])
  }

  /** A table's header and its lines so far. */
  function Body(header: string, rows: seq<seq<Value>>, realText: RealText): string {
    header + "\n" + Lines(rows, realText)
  }

  /** One table's text: nothing for no rows, else header, lines, end marker and a blank line. */
  function TableText(header: string, rows: seq<seq<Value>>, realText: RealText): string {
    if rows == [] then "" else Body(header, rows, realText) + (COPY_END + "\n")
  }

  lemma {:induction false} LinesSnoc(rows: seq<seq<Value>>, v: seq<Value>, realText: RealText)
    ensures Lines(rows + [v], realText) == Lines(rows, realText) + CopyLine(v, realText)
  {
    if rows == [] {
      assert rows + [v] == [v] && [v][1..] == [];
    } else {
      LinesSnoc(rows[1..], v, realText);
      assert (rows + [v])[0] == rows[0] && (rows + [v])[1..] == rows[1..] + [v];
      Assoc(CopyLine(rows[0], realText), Lines(rows[1..], realText), CopyLine(v, realText));
    }
  }

  lemma BodySnoc(text: string, buf: string, base: string, header: string, rows: seq<seq<Value>>, v: seq<Value>,
                 realText: RealText)
    requires text + buf == base + Body(header, rows, realText)
    ensures text + (buf + CopyLine(v, realText)) == base + Body(header, rows + [v], realText)
  {
    LinesSnoc(rows, v, realText);
    Assoc(text, buf, CopyLine(v, realText));
    Assoc(header + "\n", Lines(rows, realText), CopyLine(v, realText));
    Assoc(base, Body(header, rows, realText), CopyLine(v, realText));
  }

  lemma EmptyBuffer(text: string)
    ensures text + "" == text
  {
  }

  class Sink {
    var text: string

    constructor ()
      ensures text == ""
    {
      text := "";
    }

    method Write(s: string)
      modifies this
      ensures text == old(text) + s
    {
      text := text + s;
    }
  }

  /** A catalog table: the buffer goes out whenever it is over the limit. */
  method EmitCatalog(sink: Sink, digest: TableDigest, spec: TableSpec, rows: seq<RawRow>, derived: seq<RawRow>,
                     realText: RealText)
    returns (r: Result<seq<seq<Value>>, ValueError>)
    requires |rows| == |derived| && digest.Valid()
    modifies sink, digest
    ensures r == CheckAll(spec.cols, rows, derived)
    ensures digest.Valid()
    ensures r.Ok? ==> sink.text == old(sink.text) + TableText(CopyHeader(spec), r.value, realText)
    ensures r.Ok? ==> digest.rows == old(digest.rows) + r.value
  {
    if rows == [] {
      assert old(sink.text) + "" == old(sink.text);
      assert old(digest.rows) + [] == old(digest.rows);
      return Ok([]);
    }
    var header := CopyHeader(spec);
    ghost var base := sink.text;
    ghost var before := digest.rows;
    sink.Write(header + "\n");
    var done: seq<seq<Value>>, buf := [], "";
    EmptyBuffer(header + "\n");
    EmptyBuffer(sink.text);
    for i := 0 to |rows|
      invariant CheckAll(spec.cols, rows[..i], derived[..i]) == Ok(done) && |done| == i
      invariant digest.Valid() && digest.rows == before + done
      invariant sink.text + buf == base + Body(header, done, realText)
    {
      var checked := ValuesFor(spec.cols, rows[i], derived[i]);
      CheckNext(spec.cols, rows, derived, i);
      if checked.Err? {
        return Err(checked.error);
      }
      digest.Add(checked.value);
      BodySnoc(sink.text, buf, base, header, done, checked.value, realText);
      buf := buf + CopyLine(checked.value, realText);
      done := done + [checked.value];
      buf := Spill(sink, buf);
    }
    assert rows[..|rows|] == rows && derived[..|rows|] == derived;
    Assoc(sink.text, buf, COPY_END + "\n");
    Assoc(base, Body(header, done, realText), COPY_END + "\n");
    sink.Write(buf + (COPY_END + "\n"));
    r := Ok(done);
  }

  /** The flush of a catalog table's buffer. */
  method Spill(sink: Sink, buf: string) returns (rest: string)
    modifies sink
    ensures sink.text + rest == old(sink.text) + buf
  {
    rest := buf;
    if |buf| > FLUSH_AT {
      sink.Write(buf);
      rest := "";
      EmptyBuffer(sink.text);
    }
  }

  lemma {:induction false} ErrStays(cols: seq<Col>, rows: seq<RawRow>, derived: seq<RawRow>, n: nat)
    requires |rows| == |derived| && n <= |rows| && CheckAll(cols, rows[..n], derived[..n]).Err?
    ensures CheckAll(cols, rows, derived) == CheckAll(cols, rows[..n], derived[..n])
    decreases |rows| - n
  {
    if n == |rows| {
      assert rows[..n] == rows && derived[..n] == derived;
    } else {
      assert rows[..n + 1][..n] == rows[..n] && derived[..n + 1][..n] == derived[..n];
      ErrStays(cols, rows, derived, n + 1);
    }
  }

  // ----- session tables -----

  /** What one session contributes to a table: its rows, which all take the same derived columns, and
    * the row that a session without a stored one is seeded with. */
  datatype Source = Source(rows: seq<RawRow>, derived: RawRow, seeded: Option<seq<Value>>)

  function SourceRows(cols: seq<Col>, src: Source): Result<seq<seq<Value>>, ValueError> {
    match CheckAll(cols, src.rows, Repeat(src.derived, |src.rows|))
    case Err(e) => Err(e)
    case Ok(rows) => Ok(if src.seeded.Some? then rows + [src.seeded.value] else rows)
  }

  function AllRows(cols: seq<Col>, sources: seq<Source>): Result<seq<seq<Value>>, ValueError> {
    if sources == [] then Ok([])
    else match AllRows(cols, sources[..|sources| - 1])
         case Err(e) => Err(e)
         case Ok(done) =>
           match SourceRows(cols, sources[|sources| - 1])
           case Err(e) => Err(e)
           case Ok(rows) => Ok(done + rows)
  }

  /** The state of a session table's writing: the header is written with the first flush. */
  class Writer {
    const sink: Sink
    const header: string
    const realText: RealText
    var started: bool
    var buf: string
    ghost var base: string
    ghost var rows: seq<seq<Value>>

    /** What is in the sink and what is still in the buffer make up the header and all lines. */
    ghost predicate Valid()
      reads this, sink
    {
      && (started ==> sink.text + buf == base + Body(header, rows, realText) && rows != [])
      && (!started ==> sink.text == base && buf == Lines(rows, realText))
    }

    constructor (sink: Sink, header: string, realText: RealText)
      ensures Valid() && base == sink.text && rows == []
      ensures this.sink == sink && this.header == header && this.realText == realText
    {
      this.sink, this.header, this.realText := sink, header, realText;
      started, buf, base, rows := false, "", sink.text, [];
    }

    method Flush(force: bool)
      requires Valid()
      modifies this`started, this`buf, sink
      ensures Valid()
      ensures force ==> buf == ""
    {
      if |buf| > FLUSH_AT || (force && buf != "") {
        if !started {
          Assoc(sink.text, header + "\n", buf);
          sink.Write(header + "\n");
          started := true;
        }
        sink.Write(buf);
        buf := "";
        EmptyBuffer(sink.text);
      }
    }

    method Add(v: seq<Value>)
      requires Valid()
      modifies this`buf, this`rows
      ensures Valid() && rows == old(rows) + [v]
    {
      LinesSnoc(rows, v, realText);
      if started {
        BodySnoc(sink.text, buf, base, header, rows, v, realText);
      }
      buf := buf + CopyLine(v, realText);
      rows := rows + [v];
    }

    method Finish()
      requires Valid()
      modifies this`started, this`buf, sink
      ensures sink.text == base + TableText(header, rows, realText)
    {
      Flush(true);
      EmptyBuffer(sink.text);
      if started {
        Assoc(base, Body(header, rows, realText), COPY_END + "\n");
        sink.Write(COPY_END + "\n");
      } else {
        NoLinesNoRows(rows, realText);
      }
    }
  }

  lemma NoLinesNoRows(rows: seq<seq<Value>>, realText: RealText)
    ensures Lines(rows, realText) == "" ==> rows == []
  {
  }

  /** One row, into the digest and the buffer. */
  method EmitRow(w: Writer, digest: TableDigest, v: seq<Value>, flush: bool)
    requires w.Valid() && digest.Valid()
    modifies w`started, w`buf, w`rows, w.sink, digest
    ensures w.Valid() && digest.Valid()
    ensures w.rows == old(w.rows) + [v] && digest.rows == old(digest.rows) + [v]
  {
    digest.Add(v);
    w.Add(v);
    if flush {
      w.Flush(false);
    }
  }

  function Repeat(row: RawRow, n: nat): (rows: seq<RawRow>)
    ensures |rows| == n && forall i :: 0 <= i < n ==> rows[i] == row
  {
    seq(n, _ => row)
  }

  /** One session's part of a table. */
  method EmitSource(w: Writer, digest: TableDigest, cols: seq<Col>, src: Source)
    returns (r: Result<seq<seq<Value>>, ValueError>)
    requires w.Valid() && digest.Valid()
    modifies w`started, w`buf, w`rows, w.sink, digest
    ensures w.Valid() && digest.Valid()
    ensures r == SourceRows(cols, src)
    ensures r.Ok? ==> w.rows == old(w.rows) + r.value && digest.rows == old(digest.rows) + r.value
  {
    ghost var written, digested := w.rows, digest.rows;
    ghost var derived := Repeat(src.derived, |src.rows|);
    var done: seq<seq<Value>> := [];
    for i := 0 to |src.rows|
      invariant w.Valid() && digest.Valid()
      invariant CheckAll(cols, src.rows[..i], derived[..i]) == Ok(done)
      invariant w.rows == written + done && digest.rows == digested + done
    {
      var checked := ValuesFor(cols, src.rows[i], src.derived);
      CheckNext(cols, src.rows, derived, i);
      if checked.Err? {
        return Err(checked.error);
      }
      Sorting.Assoc(written, done, [checked.value]);
      Sorting.Assoc(digested, done, [checked.value]);
      EmitRow(w, digest, checked.value, true);
      done := done + [checked.value];
    }
    assert src.rows[..|src.rows|] == src.rows && derived[..|src.rows|] == derived;
    if src.seeded.Some? {
      Sorting.Assoc(written, done, [src.seeded.value]);
      Sorting.Assoc(digested, done, [src.seeded.value]);
      EmitRow(w, digest, src.seeded.value, false);
      done := done + [src.seeded.value];
    }
    r := Ok(done);
  }

  lemma CheckNext(cols: seq<Col>, rows: seq<RawRow>, derived: seq<RawRow>, i: nat)
    requires |rows| == |derived| && i < |rows| && CheckAll(cols, rows[..i], derived[..i]).Ok?
    ensures match ValuesFor(cols, rows[i], derived[i])
            case Err(e) => CheckAll(cols, rows, derived) == Err(e)
            case Ok(v) =>
              CheckAll(cols, rows[..i + 1], derived[..i + 1]) == Ok(CheckAll(cols, rows[..i], derived[..i]).value + [v])
  {
    assert rows[..i + 1][..i] == rows[..i] && derived[..i + 1][..i] == derived[..i];
    if ValuesFor(cols, rows[i], derived[i]).Err? {
      ErrStays(cols, rows, derived, i + 1);
    }
  }

  lemma {:induction false} AllRowsErrStays(cols: seq<Col>, sources: seq<Source>, n: nat)
    requires n <= |sources| && AllRows(cols, sources[..n]).Err?
    ensures AllRows(cols, sources) == AllRows(cols, sources[..n])
    decreases |sources| - n
  {
    if n == |sources| {
      assert sources[..n] == sources;
    } else {
      assert sources[..n + 1][..n] == sources[..n];
      AllRowsErrStays(cols, sources, n + 1);
    }
  }

  lemma SourceNext(cols: seq<Col>, sources: seq<Source>, i: nat)
    requires i < |sources| && AllRows(cols, sources[..i]).Ok?
    ensures match SourceRows(cols, sources[i])
            case Err(e) => AllRows(cols, sources) == Err(e)
            case Ok(rows) => AllRows(cols, sources[..i + 1]) == Ok(AllRows(cols, sources[..i]).value + rows)
  {
    assert sources[..i + 1][..i] == sources[..i];
    if SourceRows(cols, sources[i]).Err? {
      AllRowsErrStays(cols, sources, i + 1);
    }
  }

  method EmitSources(w: Writer, digest: TableDigest, cols: seq<Col>, sources: seq<Source>)
    returns (r: Result<seq<seq<Value>>, ValueError>)
    requires w.Valid() && digest.Valid() && w.rows == []
    modifies w`started, w`buf, w`rows, w.sink, digest
    ensures w.Valid() && digest.Valid()
    ensures r == AllRows(cols, sources)
    ensures r.Ok? ==> w.rows == r.value && digest.rows == old(digest.rows) + r.value
  {
    ghost var before := digest.rows;
    var done: seq<seq<Value>> := [];
    for i := 0 to |sources|
      invariant w.Valid() && digest.Valid()
      invariant AllRows(cols, sources[..i]) == Ok(done)
      invariant w.rows == done && digest.rows == before + done
    {
      SourceNext(cols, sources, i);
      var part := EmitSource(w, digest, cols, sources[i]);
      if part.Err? {
        return Err(part.error);
      }
      Sorting.Assoc(before, done, part.value);
      done := done + part.value;
    }
    assert sources[..|sources|] == sources;
    r := Ok(done);
  }

  /** A session table: every session's rows in one block, flushed as they come. */
  method EmitSession(sink: Sink, digest: TableDigest, spec: TableSpec, sources: seq<Source>, realText: RealText)
    returns (r: Result<seq<seq<Value>>, ValueError>)
    requires digest.Valid()
    modifies sink, digest
    ensures r == AllRows(spec.cols, sources)
    ensures digest.Valid()
    ensures r.Ok? ==> sink.text == old(sink.text) + TableText(CopyHeader(spec), r.value, realText)
    ensures r.Ok? ==> digest.rows == old(digest.rows) + r.value
  {
    var w := new Writer(sink, CopyHeader(spec), realText);
    r := EmitSources(w, digest, spec.cols, sources);
    if r.Ok? {
      w.Finish();
    }
  }

  // ----- the expected counts -----

  const EXPECTED_TABLE := "legacy_import_expected"

  const EXPECTED_HEADER := "COPY " + EXPECTED_TABLE + " (tbl, n)" + " FROM STDIN;"

  function CountRow(target: string, count: nat): seq<Value> { [Text(target), Int(count)] }

  function CountRows(targets: seq<string>, counts: seq<nat>): (rows: seq<seq<Value>>)
    requires |targets| == |counts|
    ensures |rows| == |targets|
  {
    if targets == [] then []
    else CountRows(targets[..|targets| - 1], counts[..|targets| - 1])
         + [CountRow(targets[|targets| - 1], counts[|targets| - 1])]
  }

  lemma CountNext(targets: seq<string>, counts: seq<nat>, i: nat)
    requires i < |targets| == |counts|
    ensures CountRows(targets[..i + 1], counts[..i + 1])
         == CountRows(targets[..i], counts[..i]) + [CountRow(targets[i], counts[i])]
  {
    assert targets[..i + 1][..i] == targets[..i] && counts[..i + 1][..i] == counts[..i];
  }

  /** The expected counts, from the digests: one line a table, with as many rows as it was given. */
  method EmitExpected(sink: Sink, targets: seq<string>, digests: seq<TableDigest>, realText: RealText)
    returns (counts: seq<nat>)
    requires |targets| == |digests| && targets != [] && forall d :: d in digests ==> d.Valid()
    modifies sink
    ensures |counts| == |digests| && forall i :: 0 <= i < |digests| ==> counts[i] == |digests[i].rows|
    ensures sink.text == old(sink.text) + TableText(EXPECTED_HEADER, CountRows(targets, counts), realText)
  {
    counts := [];
    for i := 0 to |digests|
      invariant |counts| == i && forall k :: 0 <= k < i ==> counts[k] == |digests[k].rows|
    {
      assert digests[i] in digests;
      counts := counts + [digests[i].count];
    }
    var exp := EXPECTED_HEADER + "\n";
    EmptyBuffer(exp);
    for i := 0 to |targets|
      invariant exp == Body(EXPECTED_HEADER, CountRows(targets[..i], counts[..i]), realText)
      invariant sink.text == old(sink.text)
    {
      var row := CountRow(targets[i], counts[i]);
      CountNext(targets, counts, i);
      LinesSnoc(CountRows(targets[..i], counts[..i]), row, realText);
      Assoc(EXPECTED_HEADER + "\n", Lines(CountRows(targets[..i], counts[..i]), realText), CopyLine(row, realText));
      exp := exp + CopyLine(row, realText);
    }
    assert targets[..|targets|] == targets && counts[..|targets|] == counts;
    sink.Write(exp + (COPY_END + "\n"));
  }

  lemma {:induction false} CountRowsAt(targets: seq<string>, counts: seq<nat>, i: nat)
    requires |targets| == |counts| && i < |targets|
    ensures CountRows(targets, counts)[i] == CountRow(targets[i], counts[i])
  {
    var n := |targets| - 1;
    if i < n {
      CountRowsAt(targets[..n], counts[..n], i);
    }
  }

  lemma {:induction false} RowTextsAt(rows: seq<seq<Value>>, realText: RealText)
    ensures |CopyText.RowTexts(rows, realText)| == |rows|
    ensures forall i :: 0 <= i < |rows| ==> CopyText.RowTexts(rows, realText)[i] == TextsOf(rows[i], realText)
  {
    if rows != [] {
      RowTextsAt(rows[1..], realText);
    }
  }

  /** The count that a reader finds for a table is the number of rows it finds in the table. */
  lemma ExpectedCountIsRowsRead(targets: seq<string>, counts: seq<nat>, i: nat, rows: seq<seq<Value>>,
                                realText: RealText)
    requires |targets| == |counts| && i < |targets| && counts[i] == |rows|
    ensures var read := CopyText.RowTexts(CountRows(targets, counts), realText);
            i < |read| && read[i] == [Some(targets[i]), Some(Digits(|CopyText.RowTexts(rows, realText)|))]
  {
    RowTextsAt(CountRows(targets, counts), realText);
    RowTextsAt(rows, realText);
    CountRowsAt(targets, counts, i);
    var row := CountRow(targets[i], counts[i]);
    assert TextsOf(row, realText) == [TextOf(row[0], realText), TextOf(row[1], realText)];
  }

  // ----- a reader of the whole stream -----

  datatype Table = Table(header: string, rows: seq<seq<Option<string>>>)

  lemma {:induction false} ReadRowsShortens(s: string)
    ensures ReadRows(s).Read? ==> |ReadRows(s).rest| < |s|
    decreases |s|
  {
    match RawLine(s)
    case None =>
    case Some((line, rest)) =>
      RawLineShortens(s);
      if line != "\\." {
        ReadRowsShortens(rest);
      }
  }

  /** Table after table: a header line, the data up to the end marker, a blank line. */
  function ReadTables(s: string): Option<seq<Table>>
    decreases |s|
  {
    if s == "" then Some([])
    else match RawLine(s)
         case None => None
         case Some((header, data)) =>
           RawLineShortens(s);
           ReadRowsShortens(data);
           match ReadRows(data)
           case Unfinished => None
           case Read(rows, end) =>
             if end == "" || end[0] != '\n' then None
             else match ReadTables(end[1..])
                  case None => None
                  case Some(more) => Some([Table(header, rows)] + more)
  }

  /** What is written for a list of tables, and what should be read of it. */
  function FileText(headers: seq<string>, tables: seq<seq<seq<Value>>>, realText: RealText): string
    requires |headers| == |tables|
  {
    if tables == [] then ""
    else TableText(headers[0], tables[0], realText) + FileText(headers[1..], tables[1..], realText)
  }

  function FileTables(headers: seq<string>, tables: seq<seq<seq<Value>>>, realText: RealText): seq<Table>
    requires |headers| == |tables|
  {
    if tables == [] then []
    else (if tables[0] == [] then [] else [Table(headers[0], CopyText.RowTexts(tables[0], realText))])
         + FileTables(headers[1..], tables[1..], realText)
  }

  ghost predicate Wide(rows: seq<seq<Value>>) { forall k :: 0 <= k < |rows| ==> rows[k] != [] }

  lemma TableReads(header: string, rows: seq<seq<Value>>, realText: RealText, rest: string)
    requires PlainReals(realText) && Clean(header, true) && rows != [] && Wide(rows)
    ensures ReadTables(TableText(header, rows, realText) + rest)
         == match ReadTables(rest)
            case None => None
            case Some(more) => Some([Table(header, CopyText.RowTexts(rows, realText))] + more)
  {
    var data := Lines(rows, realText) + (COPY_END + ("\n" + rest));
    var s := header + "\n" + data;
    TableTextEnds(header, rows, realText, rest);
    LineReads(header, data);
    RowsReadBack(rows, realText, "\n" + rest);
    assert ("\n" + rest)[1..] == rest;
  }

  lemma TableTextEnds(header: string, rows: seq<seq<Value>>, realText: RealText, rest: string)
    requires rows != []
    ensures TableText(header, rows, realText) + rest
         == header + "\n" + (Lines(rows, realText) + (COPY_END + ("\n" + rest)))
  {
    Assoc(Body(header, rows, realText), COPY_END + "\n", rest);
    Assoc(COPY_END, "\n", rest);
    Assoc(header + "\n", Lines(rows, realText), COPY_END + ("\n" + rest));
  }

  /** A reader of the written stream finds every table that has rows, in order, and in it exactly the
    * rows that were written, in order. */
  lemma {:induction false} FileReadsBack(headers: seq<string>, tables: seq<seq<seq<Value>>>, realText: RealText)
    requires |headers| == |tables| && PlainReals(realText)
    requires forall k :: 0 <= k < |tables| ==> Clean(headers[k], true) && Wide(tables[k])
    ensures ReadTables(FileText(headers, tables, realText)) == Some(FileTables(headers, tables, realText))
  {
    if tables != [] {
      var more := FileText(headers[1..], tables[1..], realText);
      FileReadsBack(headers[1..], tables[1..], realText);
      if tables[0] == [] {
        assert "" + more == more;
        assert [] + FileTables(headers[1..], tables[1..], realText) == FileTables(headers[1..], tables[1..], realText);
      } else {
        TableReads(headers[0], tables[0], realText, more);
      }
    }
  }

  /** An importer's identifier: no special character. */
  predicate PlainName(s: string) { forall c :: c in s ==> !Special(c) }

  lemma {:induction false} ColumnListPlain(cols: seq<Col>)
    requires forall c :: c in cols ==> PlainName(c.name)
    ensures PlainName(ColumnList(cols))
  {
    if |cols| > 1 {
      ColumnListPlain(cols[1..]);
    }
  }

  lemma HeaderIsClean(spec: TableSpec)
    requires PlainName(spec.target) && forall c :: c in spec.cols ==> PlainName(c.name)
    ensures Clean(CopyHeader(spec), true)
  {
    ColumnListPlain(spec.cols);
    PlainIsClean(CopyHeader(spec));
    WithTabs(CopyHeader(spec));
  }
}
