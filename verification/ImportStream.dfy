/**
 * The import's whole COPY stream: every table and the expected counts, written to one sink, and what a
 * reader finds of it.
 */
module ImportStream {
  import opened CopyText
  import opened Decimal
  import opened Digest
  import opened ImportEmitter
  import opened LegacyValues
  import Sorting
  import opened Wrappers

  /** A table with what it is written from: the rows of a catalog table with their derived columns, or
    * the sessions of a session table. The four catalog tables come first. */
  datatype TableInput =
    | FromCatalog(spec: TableSpec, rows: seq<RawRow>, derived: seq<RawRow>)
    | FromSessions(spec: TableSpec, sources: seq<Source>)
  {
    predicate Valid() { FromCatalog? ==> |rows| == |derived| }

    function Checked(): Result<seq<seq<Value>>, ValueError>
      requires Valid()
    {
      match this
      case FromCatalog(_, _, _) => CheckAll(spec.cols, rows, derived)
      case FromSessions(_, _) => AllRows(spec.cols, sources)
    }
  }

  predicate AllValid(inputs: seq<TableInput>) { forall i :: 0 <= i < |inputs| ==> inputs[i].Valid() }

  /** Every table's checked rows, or the first error. */
  function CheckedTables(inputs: seq<TableInput>): (r: Result<seq<seq<seq<Value>>>, ValueError>)
    requires AllValid(inputs)
    ensures r.Ok? ==> |r.value| == |inputs|
  {
    if inputs == [] then Ok([])
    else match CheckedTables(inputs[..|inputs| - 1])
         case Err(e) => Err(e)
         case Ok(done) =>
           match inputs[|inputs| - 1].Checked()
           case Err(e) => Err(e)
           case Ok(rows) => Ok(done + [rows])
  }

  function Headers(inputs: seq<TableInput>): seq<string> {
    seq(|inputs|, i requires 0 <= i < |inputs| => CopyHeader(inputs[i].spec))
  }

  function Targets(inputs: seq<TableInput>): seq<string> {
    seq(|inputs|, i requires 0 <= i < |inputs| => inputs[i].spec.target)
  }

  function Counts(tables: seq<seq<seq<Value>>>): seq<nat> {
    seq(|tables|, i requires 0 <= i < |tables| => |tables[i]|)
  }

  /** The stream of an import: the tables, and the table of their sizes. */
  function ImportText(inputs: seq<TableInput>, tables: seq<seq<seq<Value>>>, realText: RealText): string
    requires |inputs| == |tables|
  {
    FileText(Headers(inputs), tables, realText)
    + TableText(EXPECTED_HEADER, CountRows(Targets(inputs), Counts(tables)), realText)
  }

  // ----- writing it -----

  lemma {:induction false} FileTextSnoc(headers: seq<string>, tables: seq<seq<seq<Value>>>, header: string,
                                        table: seq<seq<Value>>, realText: RealText)
    requires |headers| == |tables|
    ensures FileText(headers + [header], tables + [table], realText)
         == FileText(headers, tables, realText) + TableText(header, table, realText)
  {
    if tables == [] {
      assert headers + [header] == [header] && tables + [table] == [table];
      assert [header][1..] == [] && [table][1..] == [];
    } else {
      FileTextSnoc(headers[1..], tables[1..], header, table, realText);
      assert (headers + [header])[1..] == headers[1..] + [header];
      assert (tables + [table])[1..] == tables[1..] + [table];
      Assoc(TableText(headers[0], tables[0], realText), FileText(headers[1..], tables[1..], realText),
            TableText(header, table, realText));
    }
  }

  lemma {:induction false} TablesErrStay(inputs: seq<TableInput>, n: nat)
    requires AllValid(inputs) && n <= |inputs| && CheckedTables(inputs[..n]).Err?
    ensures CheckedTables(inputs) == CheckedTables(inputs[..n])
    decreases |inputs| - n
  {
    if n == |inputs| {
      assert inputs[..n] == inputs;
    } else {
      assert inputs[..n + 1][..n] == inputs[..n];
      TablesErrStay(inputs, n + 1);
    }
  }

  lemma TableNext(inputs: seq<TableInput>, i: nat)
    requires AllValid(inputs) && i < |inputs| && CheckedTables(inputs[..i]).Ok?
    ensures match inputs[i].Checked()
            case Err(e) => CheckedTables(inputs) == Err(e)
            case Ok(rows) => CheckedTables(inputs[..i + 1]) == Ok(CheckedTables(inputs[..i]).value + [rows])
  {
    assert inputs[..i + 1][..i] == inputs[..i];
    if inputs[i].Checked().Err? {
      TablesErrStay(inputs, i + 1);
    }
  }

  /** One table after those written before it. */
  lemma TextNext(base: string, inputs: seq<TableInput>, i: nat, done: seq<seq<seq<Value>>>, rows: seq<seq<Value>>,
                 realText: RealText)
    requires i < |inputs| && |done| == i
    ensures (base + FileText(Headers(inputs[..i]), done, realText))
            + TableText(CopyHeader(inputs[i].spec), rows, realText)
         == base + FileText(Headers(inputs[..i + 1]), done + [rows], realText)
  {
    assert Headers(inputs[..i + 1]) == Headers(inputs[..i]) + [CopyHeader(inputs[i].spec)];
    FileTextSnoc(Headers(inputs[..i]), done, CopyHeader(inputs[i].spec), rows, realText);
    Assoc(base, FileText(Headers(inputs[..i]), done, realText),
          TableText(CopyHeader(inputs[i].spec), rows, realText));
  }

  predicate Apart(digests: seq<TableDigest>) {
    forall i, j :: 0 <= i < j < |digests| ==> digests[i] != digests[j]
  }

  /** One digest a table, each its own. */
  method NewDigests(n: nat, hash: Hash) returns (digests: seq<TableDigest>)
    ensures |digests| == n && Apart(digests)
    ensures forall i :: 0 <= i < n ==>
              fresh(digests[i]) && digests[i].Valid() && digests[i].rows == [] && digests[i].hash == hash
  {
    digests := [];
    for i := 0 to n
      invariant |digests| == i && Apart(digests)
      invariant forall k :: 0 <= k < i ==>
                  fresh(digests[k]) && digests[k].Valid() && digests[k].rows == [] && digests[k].hash == hash
    {
      var d := new TableDigest(hash);
      digests := digests + [d];
    }
  }

  method EmitTable(sink: Sink, digest: TableDigest, input: TableInput, realText: RealText)
    returns (r: Result<seq<seq<Value>>, ValueError>)
    requires input.Valid() && digest.Valid()
    modifies sink, digest
    ensures r == input.Checked() && digest.Valid()
    ensures r.Ok? ==> sink.text == old(sink.text) + TableText(CopyHeader(input.spec), r.value, realText)
    ensures r.Ok? ==> digest.rows == old(digest.rows) + r.value
  {
    match input {
      case FromCatalog(spec, rows, derived) => r := EmitCatalog(sink, digest, spec, rows, derived, realText);
      case FromSessions(spec, sources) => r := EmitSession(sink, digest, spec, sources, realText);
    }
  }

  /** The digests hold the tables written so far, and nothing of the others. */
  ghost predicate Gathered(digests: seq<TableDigest>, done: seq<seq<seq<Value>>>)
    requires |done| <= |digests|
    reads digests
  {
    && (forall k :: 0 <= k < |digests| ==> digests[k].Valid())
    && (forall k :: 0 <= k < |done| ==> digests[k].rows == done[k])
    && (forall k :: |done| <= k < |digests| ==> digests[k].rows == [])
  }

  method EmitNext(sink: Sink, digests: seq<TableDigest>, input: TableInput, done: seq<seq<seq<Value>>>,
                  realText: RealText)
    returns (r: Result<seq<seq<Value>>, ValueError>)
    requires input.Valid() && |done| < |digests| && Apart(digests) && Gathered(digests, done)
    modifies sink, digests[|done|]
    ensures r == input.Checked()
    ensures r.Ok? ==> sink.text == old(sink.text) + TableText(CopyHeader(input.spec), r.value, realText)
    ensures r.Ok? ==> Gathered(digests, done + [r.value])
  {
    var i := |done|;
    r := EmitTable(sink, digests[i], input, realText);
    forall k | 0 <= k < |digests| && k != i
      ensures digests[k].Valid() && digests[k].rows == old(digests[k].rows)
    {
      assert digests[k] != digests[i];
    }
    assert r.Ok? ==> [] + r.value == r.value;
  }

  method EmitTables(sink: Sink, digests: seq<TableDigest>, inputs: seq<TableInput>, realText: RealText)
    returns (r: Result<seq<seq<seq<Value>>>, ValueError>)
    requires AllValid(inputs) && |digests| == |inputs| && Apart(digests) && Gathered(digests, [])
    modifies sink, digests
    ensures r == CheckedTables(inputs)
    ensures r.Ok? ==> sink.text == old(sink.text) + FileText(Headers(inputs), r.value, realText)
    ensures r.Ok? ==> Gathered(digests, r.value)
  {
    var done: seq<seq<seq<Value>>> := [];
    EmptyBuffer(sink.text);
    for i := 0 to |inputs|
      invariant CheckedTables(inputs[..i]) == Ok(done)
      invariant sink.text == old(sink.text) + FileText(Headers(inputs[..i]), done, realText)
      invariant |done| == i && Gathered(digests, done)
    {
      TableNext(inputs, i);
      var part := EmitNext(sink, digests, inputs[i], done, realText);
      if part.Err? {
        return Err(part.error);
      }
      TextNext(old(sink.text), inputs, i, done, part.value, realText);
      done := done + [part.value];
    }
    assert inputs[..|inputs|] == inputs;
    r := Ok(done);
  }

  method EmitCounts(sink: Sink, digests: seq<TableDigest>, inputs: seq<TableInput>, tables: seq<seq<seq<Value>>>,
                    realText: RealText)
    requires |digests| == |inputs| == |tables| && inputs != [] && Gathered(digests, tables)
    modifies sink
    ensures sink.text
         == old(sink.text) + TableText(EXPECTED_HEADER, CountRows(Targets(inputs), Counts(tables)), realText)
  {
    var counts := EmitExpected(sink, Targets(inputs), digests, realText);
    assert counts == Counts(tables);
  }

  const PARITY_TABLE := "legacy_parity_expected"

  const PARITY_HEADER := "COPY " + PARITY_TABLE + " (tbl, n, digest)" + " FROM STDIN;"

  /** What a parity check expects of a table: its name, its size, and the digest of its rows. */
  function ParityRow(target: string, rows: seq<seq<Value>>, hash: Hash): seq<Value> {
    [Text(target), Int(|rows|), Text(DigestOf(hash, rows))]
  }

  function ParityRows(targets: seq<string>, tables: seq<seq<seq<Value>>>, hash: Hash): (rows: seq<seq<Value>>)
    requires |targets| == |tables|
    ensures |rows| == |targets|
    ensures forall i :: 0 <= i < |targets| ==> rows[i] == ParityRow(targets[i], tables[i], hash)
  {
    if targets == [] then []
    else
      var n := |targets| - 1;
      ParityRows(targets[..n], tables[..n], hash) + [ParityRow(targets[n], tables[n], hash)]
  }

  lemma ParityNext(targets: seq<string>, tables: seq<seq<seq<Value>>>, hash: Hash, i: nat)
    requires i < |targets| == |tables|
    ensures ParityRows(targets[..i + 1], tables[..i + 1], hash)
         == ParityRows(targets[..i], tables[..i], hash) + [ParityRow(targets[i], tables[i], hash)]
  {
    assert targets[..i + 1][..i] == targets[..i] && tables[..i + 1][..i] == tables[..i];
  }

  /** The parity file's expectations, from the digests. */
  method EmitParity(parity: Sink, targets: seq<string>, digests: seq<TableDigest>, hash: Hash, realText: RealText,
                    ghost tables: seq<seq<seq<Value>>>)
    requires |digests| == |targets| == |tables| && targets != [] && Gathered(digests, tables)
    requires forall i :: 0 <= i < |digests| ==> digests[i].hash == hash
    modifies parity
    ensures parity.text == old(parity.text) + TableText(PARITY_HEADER, ParityRows(targets, tables, hash), realText)
  {
    var text := PARITY_HEADER + "\n";
    EmptyBuffer(text);
    for i := 0 to |targets|
      invariant text == Body(PARITY_HEADER, ParityRows(targets[..i], tables[..i], hash), realText)
      invariant parity.text == old(parity.text) && Gathered(digests, tables)
    {
      var digest := digests[i].Digest();
      var row := [Text(targets[i]), Int(digests[i].count), Text(digest)];
      ParityNext(targets, tables, hash, i);
      ghost var before := ParityRows(targets[..i], tables[..i], hash);
      LinesSnoc(before, row, realText);
      Assoc(PARITY_HEADER + "\n", Lines(before, realText), CopyLine(row, realText));
      text := text + CopyLine(row, realText);
    }
    assert targets[..|targets|] == targets && tables[..|targets|] == tables;
    parity.Write(text + (COPY_END + "\n"));
  }

  /** The whole stream: the digests, every table, and the counts that the digests came to. What a reader
    * finds of it is in order with itself: the count of each table is the number of its rows read. The
    * parity file, when it is asked for, expects the counts and digests of the same rows. */
  method EmitImport(sink: Sink, parity: Sink?, inputs: seq<TableInput>, hash: Hash, realText: RealText)
    returns (r: Result<seq<seq<seq<Value>>>, ValueError>)
    requires AllValid(inputs) && inputs != [] && parity != sink
    modifies sink, parity
    ensures r == CheckedTables(inputs)
    ensures r.Ok? ==> sink.text == old(sink.text) + ImportText(inputs, r.value, realText)
    ensures r.Ok? && PlainReals(realText) && Named(inputs)
            ==> CountsAreRowsRead(sink.text[|old(sink.text)|..], inputs)
    ensures r.Ok? && parity != null
            ==> parity.text == old(parity.text) + ParityText(inputs, r.value, hash, realText)
  {
    var digests := NewDigests(|inputs|, hash);
    r := EmitTables(sink, digests, inputs, realText);
    if r.Err? {
      return;
    }
    EmitCounts(sink, digests, inputs, r.value, realText);
    Assoc(old(sink.text), FileText(Headers(inputs), r.value, realText),
          TableText(EXPECTED_HEADER, CountRows(Targets(inputs), Counts(r.value)), realText));
    StreamReads(old(sink.text), sink.text, inputs, r.value, realText);
    if parity != null {
      EmitParity(parity, Targets(inputs), digests, hash, realText, r.value);
    }
  }

  function ParityText(inputs: seq<TableInput>, tables: seq<seq<seq<Value>>>, hash: Hash, realText: RealText): string
    requires |inputs| == |tables|
  {
    TableText(PARITY_HEADER, ParityRows(Targets(inputs), tables, hash), realText)
  }

  lemma StreamReads(base: string, text: string, inputs: seq<TableInput>, tables: seq<seq<seq<Value>>>,
                    realText: RealText)
    requires AllValid(inputs) && inputs != [] && CheckedTables(inputs) == Ok(tables)
    requires text == base + ImportText(inputs, tables, realText)
    ensures PlainReals(realText) && Named(inputs) ==> CountsAreRowsRead(text[|base|..], inputs)
  {
    assert text[|base|..] == ImportText(inputs, tables, realText);
    if PlainReals(realText) && Named(inputs) {
      CountsReadBack(inputs, tables, realText);
    }
  }

  // ----- reading it -----

  /** How many rows a reader finds under a header. */
  function RowsFound(read: seq<Table>, header: string): nat {
    if read == [] then 0
    else (if read[0].header == header then |read[0].rows| else 0) + RowsFound(read[1..], header)
  }

  /** The importer's own names: plain, without a space, and one a table; every row has a column. */
  ghost predicate Named(inputs: seq<TableInput>) {
    && (forall i :: 0 <= i < |inputs| ==> NamedTable(inputs[i]))
    && forall i, j :: 0 <= i < j < |inputs| ==> inputs[i].spec.target != inputs[j].spec.target
  }

  ghost predicate NamedTable(input: TableInput) {
    && PlainName(input.spec.target) && ' ' !in input.spec.target && input.spec.cols != []
    && (forall c :: c in input.spec.cols ==> PlainName(c.name))
    && (input.FromSessions? ==>
          forall i :: 0 <= i < |input.sources| && input.sources[i].seeded.Some?
                      ==> input.sources[i].seeded.value != [])
  }

  /** A reader finds, in the last table, one line a table with the number of rows that it found for it. */
  ghost predicate CountsAreRowsRead(text: string, inputs: seq<TableInput>) {
    match ReadTables(text)
    case None => false
    case Some(read) =>
      && read != []
      && var last := read[|read| - 1];
         && last.header == EXPECTED_HEADER && |last.rows| == |inputs|
         && forall i :: 0 <= i < |inputs| ==>
              last.rows[i] == [Some(inputs[i].spec.target), Some(Digits(RowsFound(read, CopyHeader(inputs[i].spec))))]
  }

  lemma {:induction false} CheckedWide(cols: seq<Col>, rows: seq<RawRow>, derived: seq<RawRow>)
    requires |rows| == |derived| && cols != [] && CheckAll(cols, rows, derived).Ok?
    ensures Wide(CheckAll(cols, rows, derived).value)
    decreases |rows|
  {
    if rows != [] {
      var n := |rows| - 1;
      CheckedWide(cols, rows[..n], derived[..n]);
      CheckedRowFits(cols, rows[n], derived[n]);
    }
  }

  lemma {:induction false} SourcesWide(cols: seq<Col>, sources: seq<Source>)
    requires cols != [] && AllRows(cols, sources).Ok?
    requires forall i :: 0 <= i < |sources| ==> sources[i].seeded.Some? ==> sources[i].seeded.value != []
    ensures Wide(AllRows(cols, sources).value)
    decreases |sources|
  {
    if sources != [] {
      var n := |sources| - 1;
      var src := sources[n];
      SourcesWide(cols, sources[..n]);
      CheckedWide(cols, src.rows, Repeat(src.derived, |src.rows|));
    }
  }

  lemma {:induction false} TablesWide(inputs: seq<TableInput>)
    requires AllValid(inputs) && CheckedTables(inputs).Ok?
    requires forall i :: 0 <= i < |inputs| ==> NamedTable(inputs[i])
    ensures forall i :: 0 <= i < |inputs| ==> Wide(CheckedTables(inputs).value[i])
    decreases |inputs|
  {
    if inputs != [] {
      var n := |inputs| - 1;
      TablesWide(inputs[..n]);
      match inputs[n]
      case FromCatalog(spec, rows, derived) => CheckedWide(spec.cols, rows, derived);
      case FromSessions(spec, sources) => SourcesWide(spec.cols, sources);
    }
  }

  /** Two headers whose targets differ differ, since a space ends a target. */
  lemma {:induction false} HeadersDiffer(a: string, b: string, x: string, y: string)
    requires ' ' !in a && ' ' !in b && a != b
    ensures a + (" " + x) != b + (" " + y)
  {
    if a != "" && b != "" && a[0] == b[0] {
      assert a == [a[0]] + a[1..] && b == [b[0]] + b[1..];
      HeadersDiffer(a[1..], b[1..], x, y);
      assert (a + (" " + x))[1..] == a[1..] + (" " + x) && (b + (" " + y))[1..] == b[1..] + (" " + y);
    } else {
      assert a != "" ==> a[0] in a && (a + (" " + x))[0] == a[0];
      assert b != "" ==> b[0] in b && (b + (" " + y))[0] == b[0];
      assert a == "" ==> (a + (" " + x))[0] == ' ';
      assert b == "" ==> (b + (" " + y))[0] == ' ';
    }
  }

  lemma TargetsTellHeaders(s: TableSpec, t: TableSpec)
    requires ' ' !in s.target && ' ' !in t.target && s.target != t.target
    ensures CopyHeader(s) != CopyHeader(t)
  {
    var prefix := "COPY catalog.";
    var x, y := "(" + ColumnList(s.cols) + ") FROM STDIN;", "(" + ColumnList(t.cols) + ") FROM STDIN;";
    HeadersDiffer(s.target, t.target, x, y);
    assert CopyHeader(s)[|prefix|..] == s.target + (" " + x);
    assert CopyHeader(t)[|prefix|..] == t.target + (" " + y);
  }

  lemma CountsHeaderDiffers(s: TableSpec)
    ensures CopyHeader(s) != EXPECTED_HEADER
  {
    assert CopyHeader(s)[5] == 'c' && EXPECTED_HEADER[5] == 'l';
  }

  lemma CountsNameIsClean()
    ensures Clean("COPY " + EXPECTED_TABLE, false)
  {
    PlainIsClean("COPY ");
    PlainIsClean(EXPECTED_TABLE);
    CleanSum("COPY ", EXPECTED_TABLE, false);
  }

  lemma CountsColumnsAreClean()
    ensures Clean(" (tbl, n)", false) && Clean(" FROM STDIN;", false)
  {
    PlainIsClean(" (tbl, n)");
    PlainIsClean(" FROM STDIN;");
  }

  lemma CountsHeaderIsClean()
    ensures Clean(EXPECTED_HEADER, true)
  {
    CountsNameIsClean();
    CountsColumnsAreClean();
    CleanSum("COPY " + EXPECTED_TABLE, " (tbl, n)", false);
    CleanSum("COPY " + EXPECTED_TABLE + " (tbl, n)", " FROM STDIN;", false);
    WithTabs(EXPECTED_HEADER);
  }

  lemma {:induction false} FoundNowhere(headers: seq<string>, tables: seq<seq<seq<Value>>>, realText: RealText,
                                        header: string)
    requires |headers| == |tables| && forall k :: 0 <= k < |headers| ==> headers[k] != header
    ensures RowsFound(FileTables(headers, tables, realText), header) == 0
  {
    if tables != [] {
      FoundNowhere(headers[1..], tables[1..], realText, header);
      FoundCons(headers, tables, realText, header);
    }
  }

  lemma FoundCons(headers: seq<string>, tables: seq<seq<seq<Value>>>, realText: RealText, header: string)
    requires |headers| == |tables| && tables != []
    ensures RowsFound(FileTables(headers, tables, realText), header)
         == (if headers[0] == header then |tables[0]| else 0)
            + RowsFound(FileTables(headers[1..], tables[1..], realText), header)
  {
    var more := FileTables(headers[1..], tables[1..], realText);
    RowTextsAt(tables[0], realText);
    if tables[0] == [] {
      assert FileTables(headers, tables, realText) == more;
    } else {
      var first := Table(headers[0], CopyText.RowTexts(tables[0], realText));
      assert FileTables(headers, tables, realText) == [first] + more && ([first] + more)[1..] == more;
    }
  }

  /** Under one table's header, a reader finds as many rows as were written. */
  lemma {:induction false} FoundAreWritten(headers: seq<string>, tables: seq<seq<seq<Value>>>, realText: RealText,
                                           i: nat)
    requires |headers| == |tables| && i < |headers|
    requires forall j, k :: 0 <= j < k < |headers| ==> headers[j] != headers[k]
    ensures RowsFound(FileTables(headers, tables, realText), headers[i]) == |tables[i]|
  {
    FoundCons(headers, tables, realText, headers[i]);
    if i == 0 {
      FoundNowhere(headers[1..], tables[1..], realText, headers[0]);
    } else {
      FoundAreWritten(headers[1..], tables[1..], realText, i - 1);
    }
  }

  lemma {:induction false} FileTablesSnoc(headers: seq<string>, tables: seq<seq<seq<Value>>>, header: string,
                                          table: seq<seq<Value>>, realText: RealText)
    requires |headers| == |tables| && table != []
    ensures FileTables(headers + [header], tables + [table], realText)
         == FileTables(headers, tables, realText) + [Table(header, CopyText.RowTexts(table, realText))]
  {
    if tables == [] {
      assert headers + [header] == [header] && tables + [table] == [table];
      assert [header][1..] == [] && [table][1..] == [];
    } else {
      FileTablesSnoc(headers[1..], tables[1..], header, table, realText);
      assert (headers + [header])[1..] == headers[1..] + [header];
      assert (tables + [table])[1..] == tables[1..] + [table];
      Sorting.Assoc(if tables[0] == [] then [] else [Table(headers[0], CopyText.RowTexts(tables[0], realText))],
                    FileTables(headers[1..], tables[1..], realText),
                    [Table(header, CopyText.RowTexts(table, realText))]);
    }
  }

  /** The headers of the stream, the counts' header last, are clean and differ. */
  lemma HeadersOfImport(inputs: seq<TableInput>)
    requires Named(inputs)
    ensures var all := Headers(inputs) + [EXPECTED_HEADER];
      && (forall k :: 0 <= k < |all| ==> Clean(all[k], true))
      && forall j, k :: 0 <= j < k < |all| ==> all[j] != all[k]
  {
    var all := Headers(inputs) + [EXPECTED_HEADER];
    forall k | 0 <= k < |all|
      ensures Clean(all[k], true)
    {
      if k < |inputs| {
        assert NamedTable(inputs[k]);
        HeaderIsClean(inputs[k].spec);
      } else {
        CountsHeaderIsClean();
      }
    }
    forall j, k | 0 <= j < k < |all|
      ensures all[j] != all[k]
    {
      assert NamedTable(inputs[j]);
      if k < |inputs| {
        assert NamedTable(inputs[k]);
        TargetsTellHeaders(inputs[j].spec, inputs[k].spec);
      } else {
        CountsHeaderDiffers(inputs[j].spec);
      }
    }
  }

  lemma CountRowsWide(targets: seq<string>, counts: seq<nat>)
    requires |targets| == |counts|
    ensures Wide(CountRows(targets, counts))
  {
    forall k | 0 <= k < |CountRows(targets, counts)|
      ensures CountRows(targets, counts)[k] != []
    {
      CountRowsAt(targets, counts, k);
    }
  }

  lemma TablesReadable(inputs: seq<TableInput>, tables: seq<seq<seq<Value>>>)
    requires AllValid(inputs) && Named(inputs) && CheckedTables(inputs) == Ok(tables)
    ensures var headers := Headers(inputs) + [EXPECTED_HEADER];
      var all := tables + [CountRows(Targets(inputs), Counts(tables))];
      forall k :: 0 <= k < |all| ==> Clean(headers[k], true) && Wide(all[k])
  {
    HeadersOfImport(inputs);
    TablesWide(inputs);
    CountRowsWide(Targets(inputs), Counts(tables));
  }

  /** The stream of an import reads back: every table that has rows, with exactly its rows, and last the
    * counts. */
  lemma ImportReadsBack(inputs: seq<TableInput>, tables: seq<seq<seq<Value>>>, realText: RealText)
    requires AllValid(inputs) && inputs != [] && Named(inputs) && PlainReals(realText)
    requires CheckedTables(inputs) == Ok(tables)
    ensures ReadTables(ImportText(inputs, tables, realText))
         == Some(FileTables(Headers(inputs), tables, realText)
                 + [Table(EXPECTED_HEADER,
                          CopyText.RowTexts(CountRows(Targets(inputs), Counts(tables)), realText))])
  {
    var counts := CountRows(Targets(inputs), Counts(tables));
    FileTextSnoc(Headers(inputs), tables, EXPECTED_HEADER, counts, realText);
    FileTablesSnoc(Headers(inputs), tables, EXPECTED_HEADER, counts, realText);
    TablesReadable(inputs, tables);
    FileReadsBack(Headers(inputs) + [EXPECTED_HEADER], tables + [counts], realText);
  }

  lemma CountIsFound(inputs: seq<TableInput>, tables: seq<seq<seq<Value>>>, realText: RealText, i: nat)
    requires Named(inputs) && |inputs| == |tables| && i < |inputs|
    ensures var counts := CountRows(Targets(inputs), Counts(tables));
      var read := FileTables(Headers(inputs) + [EXPECTED_HEADER], tables + [counts], realText);
      && |CopyText.RowTexts(counts, realText)| == |inputs|
      && CopyText.RowTexts(counts, realText)[i]
         == [Some(inputs[i].spec.target), Some(Digits(RowsFound(read, CopyHeader(inputs[i].spec))))]
  {
    var counts := CountRows(Targets(inputs), Counts(tables));
    var headers, all := Headers(inputs) + [EXPECTED_HEADER], tables + [counts];
    HeadersOfImport(inputs);
    assert headers[i] == CopyHeader(inputs[i].spec) && all[i] == tables[i];
    FoundAreWritten(headers, all, realText, i);
    RowTextsAt(counts, realText);
    RowTextsAt(tables[i], realText);
    ExpectedCountIsRowsRead(Targets(inputs), Counts(tables), i, tables[i], realText);
  }

  /** Of the counts that a reader finds, each is the number of rows that it finds for its table. */
  lemma CountsReadBack(inputs: seq<TableInput>, tables: seq<seq<seq<Value>>>, realText: RealText)
    requires AllValid(inputs) && inputs != [] && Named(inputs) && PlainReals(realText)
    requires CheckedTables(inputs) == Ok(tables)
    ensures CountsAreRowsRead(ImportText(inputs, tables, realText), inputs)
  {
    var counts := CountRows(Targets(inputs), Counts(tables));
    ImportReadsBack(inputs, tables, realText);
    FileTablesSnoc(Headers(inputs), tables, EXPECTED_HEADER, counts, realText);
    CountIsFound(inputs, tables, realText, 0);
    forall i | 0 <= i < |inputs|
      ensures CopyText.RowTexts(counts, realText)[i]
           == [Some(inputs[i].spec.target),
               Some(Digits(RowsFound(FileTables(Headers(inputs) + [EXPECTED_HEADER], tables + [counts], realText),
                                     CopyHeader(inputs[i].spec))))]
    {
      CountIsFound(inputs, tables, realText, i);
    }
  }
  // ----- reading the parity file -----

  lemma ParityNameIsClean()
    ensures Clean("COPY " + PARITY_TABLE, false)
  {
    PlainIsClean("COPY ");
    PlainIsClean(PARITY_TABLE);
    CleanSum("COPY ", PARITY_TABLE, false);
  }

  lemma ParityColumnsAreClean()
    ensures Clean(" (tbl, n, digest)", false) && Clean(" FROM STDIN;", false)
  {
    PlainIsClean(" (tbl, n, digest)");
    PlainIsClean(" FROM STDIN;");
  }

  lemma ParityHeaderIsClean()
    ensures Clean(PARITY_HEADER, true)
  {
    ParityNameIsClean();
    ParityColumnsAreClean();
    CleanSum("COPY " + PARITY_TABLE, " (tbl, n, digest)", false);
    CleanSum("COPY " + PARITY_TABLE + " (tbl, n, digest)", " FROM STDIN;", false);
    WithTabs(PARITY_HEADER);
  }

  /** A table's line, with the number of rows that a reader of the import finds for it. */
  lemma ParityLine(inputs: seq<TableInput>, tables: seq<seq<seq<Value>>>, hash: Hash, realText: RealText, i: nat)
    requires Named(inputs) && |inputs| == |tables| && i < |inputs|
    ensures var rows := ParityRows(Targets(inputs), tables, hash);
      var found := RowsFound(FileTables(Headers(inputs), tables, realText), CopyHeader(inputs[i].spec));
      && |CopyText.RowTexts(rows, realText)| == |inputs|
      && CopyText.RowTexts(rows, realText)[i]
         == [Some(inputs[i].spec.target), Some(Digits(found)), Some(DigestOf(hash, tables[i]))]
  {
    var rows := ParityRows(Targets(inputs), tables, hash);
    var row := ParityRow(inputs[i].spec.target, tables[i], hash);
    HeadersDistinct(inputs);
    FoundAreWritten(Headers(inputs), tables, realText, i);
    RowTextsAt(rows, realText);
    assert rows[i] == row;
    assert TextsOf(row, realText)
        == [TextOf(row[0], realText), TextOf(row[1], realText), TextOf(row[2], realText)];
  }

  lemma HeadersDistinct(inputs: seq<TableInput>)
    requires Named(inputs)
    ensures forall j, k :: 0 <= j < k < |inputs| ==> Headers(inputs)[j] != Headers(inputs)[k]
  {
    HeadersOfImport(inputs);
    var all := Headers(inputs) + [EXPECTED_HEADER];
    forall j, k | 0 <= j < k < |inputs|
      ensures Headers(inputs)[j] != Headers(inputs)[k]
    {
      assert all[j] != all[k];
    }
  }

  /** The parity file's expectations read back: one line a table, with its name, the number of rows that a
    * reader of the import finds for it, and the digest of those rows. */
  lemma ParityReadsBack(inputs: seq<TableInput>, tables: seq<seq<seq<Value>>>, hash: Hash, realText: RealText)
    requires inputs != [] && Named(inputs) && PlainReals(realText) && |inputs| == |tables|
    ensures var read := CopyText.RowTexts(ParityRows(Targets(inputs), tables, hash), realText);
      && ReadTables(ParityText(inputs, tables, hash, realText)) == Some([Table(PARITY_HEADER, read)])
      && |read| == |inputs|
      && forall i :: 0 <= i < |inputs| ==>
           read[i] == [Some(inputs[i].spec.target),
                       Some(Digits(RowsFound(FileTables(Headers(inputs), tables, realText),
                                             CopyHeader(inputs[i].spec)))),
                       Some(DigestOf(hash, tables[i]))]
  {
    var rows := ParityRows(Targets(inputs), tables, hash);
    var read := CopyText.RowTexts(rows, realText);
    ParityHeaderIsClean();
    TableReads(PARITY_HEADER, rows, realText, "");
    EmptyBuffer(ParityText(inputs, tables, hash, realText));
    RowTextsAt(rows, realText);
    assert [Table(PARITY_HEADER, read)] + [] == [Table(PARITY_HEADER, read)];
    forall i | 0 <= i < |inputs|
      ensures read[i] == [Some(inputs[i].spec.target),
                          Some(Digits(RowsFound(FileTables(Headers(inputs), tables, realText),
                                                CopyHeader(inputs[i].spec)))),
                          Some(DigestOf(hash, tables[i]))]
    {
      ParityLine(inputs, tables, hash, realText, i);
    }
  }
}
