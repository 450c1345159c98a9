/**
 * The segments CSV that psql exports and the offline scripts read (server/scripts/blobSegmentRows.ts):
 * the line splitter, what it makes of a line printed with the quoting of section 2 of RFC 4180, and
 * the whole table.
 */
module Csv {
  import opened Wrappers

  // ---------- the splitter ----------

  /** A quoted field from just after its opening quote: its value, and the index after its closing
    * quote, or the end of the line. */
  function Quoted(line: string, i: nat): (r: (string, nat))
    requires i <= |line|
    ensures i <= r.1 <= |line|
    decreases |line| - i
  {
    if i == |line| then ("", i)
    else if line[i] == '"' then
      if i + 1 < |line| && line[i + 1] == '"' then
        var r := Quoted(line, i + 2); (['"'] + r.0, r.1)
      else ("", i + 1)
    else
      var r := Quoted(line, i + 1); ([line[i]] + r.0, r.1)
  }

  /** The first comma at or after `i`, or the end of the line. */
  function CommaFrom(line: string, i: nat): (r: nat)
    requires i <= |line|
    ensures i <= r <= |line|
    ensures r < |line| ==> line[r] == ','
    ensures forall k :: i <= k < r ==> line[k] != ','
    decreases |line| - i
  {
    if i == |line| || line[i] == ',' then i else CommaFrom(line, i + 1)
  }

  /** The fields from `i` on; past the end there are none. */
  function FieldsFrom(line: string, i: nat): seq<string>
    decreases |line| + 1 - i
  {
    if i > |line| then []
    else if i < |line| && line[i] == '"' then
      var r := Quoted(line, i + 1); [r.0] + FieldsFrom(line, r.1 + 1)
    else
      var end := CommaFrom(line, i); [line[i..end]] + FieldsFrom(line, end + 1)
  }

  lemma Assoc<T>(a: seq<T>, b: seq<T>, c: seq<T>)
    ensures (a + b) + c == a + (b + c)
  {
  }

  method ReadQuoted(line: string, start: nat) returns (v: string, i: nat)
    requires start <= |line|
    ensures (v, i) == Quoted(line, start)
  {
    v, i := "", start;
    var open := true;
    assert Quoted(line, start).0 == "" + Quoted(line, start).0;
    while open && i < |line|
      invariant i <= |line|
      invariant open ==> Quoted(line, start) == (v + Quoted(line, i).0, Quoted(line, i).1)
      invariant !open ==> Quoted(line, start) == (v, i)
      decreases open, |line| - i
    {
      ghost var had := v;
      if line[i] == '"' && i + 1 < |line| && line[i + 1] == '"' {
        Assoc(had, ['"'], Quoted(line, i + 2).0);
        v, i := v + ['"'], i + 2;
      } else if line[i] == '"' {
        assert had + "" == had;
        i, open := i + 1, false;
      } else {
        Assoc(had, [line[i]], Quoted(line, i + 1).0);
        v, i := v + [line[i]], i + 1;
      }
    }
    if open { assert v + "" == v; }
  }

  method SplitCsvLine(line: string) returns (out: seq<string>)
    ensures out == FieldsFrom(line, 0)
  {
    out := [];
    var i := 0;
    assert [] + FieldsFrom(line, 0) == FieldsFrom(line, 0);
    while i <= |line|
      invariant out + FieldsFrom(line, i) == FieldsFrom(line, 0)
      decreases |line| + 1 - i
    {
      var v, next;
      if i < |line| && line[i] == '"' {
        v, next := ReadQuoted(line, i + 1);
      } else {
        next := CommaFrom(line, i);
        v := line[i..next];
      }
      Assoc(out, [v], FieldsFrom(line, next + 1));
      out, i := out + [v], next + 1;
    }
    assert out + [] == out;
  }

  // ---------- printing ----------

  /** A field and whether it is printed in quotes. */
  datatype Field = Field(text: string, quoted: bool)

  function Doubled(text: string): string {
    if text == "" then ""
    else (if text[0] == '"' then "\"\"" else [text[0]]) + Doubled(text[1..])
  }

  function FieldText(f: Field): string {
    if f.quoted then "\"" + (Doubled(f.text) + "\"") else f.text
  }

  /** Quotes may be left out only where nothing needs them. */
  predicate Printable(f: Field) {
    f.quoted || (',' !in f.text && (f.text == "" || f.text[0] != '"'))
  }

  predicate AllPrintable(fields: seq<Field>) {
    forall i :: 0 <= i < |fields| ==> Printable(fields[i])
  }

  function LineText(fields: seq<Field>): string
    requires fields != []
  {
    if |fields| == 1 then FieldText(fields[0]) else FieldText(fields[0]) + ("," + LineText(fields[1..]))
  }

  function Texts(fields: seq<Field>): seq<string> {
    if fields == [] then [] else [fields[0].text] + Texts(fields[1..])
  }

  // ---------- splitting undoes printing ----------

  /** `text` is what is left of the line at `i`. */
  predicate LeftAt(line: string, i: nat, text: string) {
    i <= |line| && line[i..] == text
  }

  lemma NextChar(line: string, i: nat, c: char, text: string)
    requires LeftAt(line, i, [c] + text)
    ensures i < |line| && line[i] == c && LeftAt(line, i + 1, text)
  {
    assert line[i] == line[i..][0];
    assert line[i + 1..] == line[i..][1..];
  }

  /** What may follow a field. */
  predicate Closes(tail: string) {
    tail == "" || tail[0] == ','
  }

  lemma {:induction false} QuotedReadsBack(line: string, i: nat, text: string, tail: string)
    requires LeftAt(line, i, Doubled(text) + ("\"" + tail)) && Closes(tail)
    ensures Quoted(line, i) == (text, |line| - |tail|)
    decreases |text|
  {
    if text == "" {
      NextChar(line, i, '"', tail);
    } else {
      var rest := Doubled(text[1..]) + ("\"" + tail);
      if text[0] == '"' {
        assert Doubled(text) + ("\"" + tail) == ['"'] + (['"'] + rest);
        NextChar(line, i, '"', ['"'] + rest);
        NextChar(line, i + 1, '"', rest);
        QuotedReadsBack(line, i + 2, text[1..], tail);
      } else {
        assert Doubled(text) + ("\"" + tail) == [text[0]] + rest;
        NextChar(line, i, text[0], rest);
        QuotedReadsBack(line, i + 1, text[1..], tail);
      }
      assert text == [text[0]] + text[1..];
    }
  }

  lemma {:induction false} CommaAfter(line: string, i: nat, text: string, tail: string)
    requires LeftAt(line, i, text + tail) && ',' !in text && Closes(tail)
    ensures CommaFrom(line, i) == |line| - |tail| == i + |text| && line[i..i + |text|] == text
    decreases |text|
  {
    if text == "" {
      assert text + tail == tail;
      if tail != "" { NextChar(line, i, ',', tail[1..]); }
    } else {
      assert text + tail == [text[0]] + (text[1..] + tail);
      NextChar(line, i, text[0], text[1..] + tail);
      CommaAfter(line, i + 1, text[1..], tail);
      assert line[i..i + |text|] == [line[i]] + line[i + 1..i + |text|];
    }
  }

  /** A field that starts with a quote, once its value and its end are known. */
  lemma QuotedFirst(line: string, i: nat, text: string, end: nat)
    requires i < |line| && line[i] == '"' && Quoted(line, i + 1) == (text, end)
    ensures FieldsFrom(line, i) == [text] + FieldsFrom(line, end + 1)
  {
  }

  lemma PlainFirst(line: string, i: nat, text: string, end: nat)
    requires i <= end <= |line| && (i < |line| ==> line[i] != '"')
    requires CommaFrom(line, i) == end && line[i..end] == text
    ensures FieldsFrom(line, i) == [text] + FieldsFrom(line, end + 1)
  {
  }

  lemma QuotedField(line: string, i: nat, text: string, tail: string, end: nat)
    requires LeftAt(line, i, ['"'] + (Doubled(text) + ("\"" + tail))) && Closes(tail)
    requires end == |line| - |tail|
    ensures FieldsFrom(line, i) == [text] + FieldsFrom(line, end + 1)
  {
    var left := Doubled(text) + ("\"" + tail);
    NextChar(line, i, '"', left);
    QuotedReadsBack(line, i + 1, text, tail);
    QuotedFirst(line, i, text, end);
  }

  lemma NotQuote(line: string, i: nat, text: string, tail: string)
    requires LeftAt(line, i, text + tail) && Printable(Field(text, false)) && Closes(tail)
    ensures i < |line| ==> line[i] != '"'
  {
    if i < |line| {
      assert line[i] == line[i..][0];
      if text == "" { assert text + tail == tail; }
    }
  }

  lemma PlainField(line: string, i: nat, text: string, tail: string, end: nat)
    requires LeftAt(line, i, text + tail) && Printable(Field(text, false)) && Closes(tail)
    requires end == |line| - |tail|
    ensures FieldsFrom(line, i) == [text] + FieldsFrom(line, end + 1)
  {
    CommaAfter(line, i, text, tail);
    NotQuote(line, i, text, tail);
    PlainFirst(line, i, text, end);
  }

  lemma FieldReadsBack(line: string, i: nat, f: Field, tail: string)
    requires Printable(f) && LeftAt(line, i, FieldText(f) + tail) && Closes(tail)
    ensures FieldsFrom(line, i) == [f.text] + FieldsFrom(line, |line| - |tail| + 1)
  {
    if f.quoted {
      Assoc("\"", Doubled(f.text) + "\"", tail);
      Assoc(Doubled(f.text), "\"", tail);
      QuotedField(line, i, f.text, tail, |line| - |tail|);
    } else {
      PlainField(line, i, f.text, tail, |line| - |tail|);
    }
  }

  lemma TailIsLeft(line: string, i: nat, text: string, tail: string)
    requires LeftAt(line, i, text + tail)
    ensures |tail| <= |line| && LeftAt(line, |line| - |tail|, tail)
  {
    assert line[|line| - |tail|..] == line[i..][|text|..];
  }

  lemma {:induction false} FieldsReadBack(line: string, i: nat, fields: seq<Field>)
    requires fields != [] && AllPrintable(fields)
    requires LeftAt(line, i, LineText(fields))
    ensures FieldsFrom(line, i) == Texts(fields)
    decreases |fields|
  {
    if |fields| == 1 {
      assert FieldText(fields[0]) + "" == FieldText(fields[0]);
      FieldReadsBack(line, i, fields[0], "");
      assert FieldsFrom(line, |line| + 1) == Texts(fields[1..]) == [];
    } else {
      var more := LineText(fields[1..]);
      FieldReadsBack(line, i, fields[0], "," + more);
      TailIsLeft(line, i, FieldText(fields[0]), "," + more);
      NextChar(line, |line| - |"," + more|, ',', more);
      FieldsReadBack(line, |line| - |"," + more| + 1, fields[1..]);
    }
  }

  /** Splitting undoes printing, whichever fields are quoted. */
  lemma SplitUndoesPrint(fields: seq<Field>)
    requires fields != [] && AllPrintable(fields)
    ensures FieldsFrom(LineText(fields), 0) == Texts(fields)
  {
    assert LineText(fields)[0..] == LineText(fields);
    FieldsReadBack(LineText(fields), 0, fields);
  }

  /** An unquoted field reads back exactly when it may be unquoted. */
  lemma PrintableExactly(text: string)
    ensures FieldsFrom(text, 0) == [text] <==> Printable(Field(text, false))
  {
    if Printable(Field(text, false)) {
      SplitUndoesPrint([Field(text, false)]);
    } else {
      if text[0] == '"' {
        QuotedIsShorter(text, 1);
        assert FieldsFrom(text, 0)[0] == Quoted(text, 1).0;
      } else {
        CommaFound(text);
        assert FieldsFrom(text, 0)[0] == text[0..CommaFrom(text, 0)];
      }
      assert |FieldsFrom(text, 0)[0]| < |text|;
    }
  }

  lemma CommaFound(text: string)
    requires ',' in text
    ensures CommaFrom(text, 0) < |text|
  {
  }

  lemma {:induction false} QuotedIsShorter(line: string, i: nat)
    requires i <= |line|
    ensures |Quoted(line, i).0| <= |line| - i
    decreases |line| - i
  {
    if i < |line| && line[i] == '"' && i + 1 < |line| && line[i + 1] == '"' {
      QuotedIsShorter(line, i + 2);
    } else if i < |line| && line[i] != '"' {
      QuotedIsShorter(line, i + 1);
    }
  }

  // ---------- the table ----------

  datatype SegmentRow = SegmentRow(sessionId: string, id: string, r2Key: string)

  const HEADER := ["session_id", "id", "r2_key"]

  datatype Problem = BadHeader | NotThreeFields(line: nat)

  /** The lines between line feeds, each without one carriage return at its end. */
  function LinesOf(text: string): (lines: seq<string>)
    ensures lines != []
  {
    if text == "" then [""]
    else if text[0] == '\n' then [""] + LinesOf(text[1..])
    else if text[0] == '\r' && |text| > 1 && text[1] == '\n' then [""] + LinesOf(text[2..])
    else
      var rest := LinesOf(text[1..]); [[text[0]] + rest[0]] + rest[1..]
  }

  /** The rows of the lines after the header; an empty line is skipped. */
  function RowsOf(lines: seq<string>, n: nat): Result<seq<SegmentRow>, Problem>
    requires n <= |lines|
    decreases |lines| - n
  {
    if n == |lines| then Ok([])
    else if lines[n] == "" then RowsOf(lines, n + 1)
    else
      var f := FieldsFrom(lines[n], 0);
      if |f| != 3 then Err(NotThreeFields(n + 1))
      else
        match RowsOf(lines, n + 1)
        case Err(e) => Err(e)
        case Ok(rows) => Ok([SegmentRow(f[0], f[1], f[2])] + rows)
  }

  function WithoutLastEmpty(lines: seq<string>): seq<string> {
    if lines != [] && lines[|lines| - 1] == "" then lines[..|lines| - 1] else lines
  }

  /** `join(',')` cannot tell fields apart, so the header is compared joined. */
  function Joined(fields: seq<string>): string {
    if fields == [] then "" else if |fields| == 1 then fields[0] else fields[0] + "," + Joined(fields[1..])
  }

  function TableOf(text: string): Result<seq<SegmentRow>, Problem> {
    var lines := WithoutLastEmpty(LinesOf(text));
    if lines == [] || Joined(FieldsFrom(lines[0], 0)) != Joined(HEADER) then Err(BadHeader)
    else RowsOf(lines, 1)
  }

  function Prepended(rows: seq<SegmentRow>, r: Result<seq<SegmentRow>, Problem>): Result<seq<SegmentRow>, Problem> {
    match r
    case Ok(more) => Ok(rows + more)
    case Err(e) => Err(e)
  }

  method ParseSegmentsCsv(text: string) returns (r: Result<seq<SegmentRow>, Problem>)
    ensures r == TableOf(text)
  {
    var lines := LinesOf(text);
    if lines[|lines| - 1] == "" { lines := lines[..|lines| - 1]; }
    if lines == [] { return Err(BadHeader); }
    var header := SplitCsvLine(lines[0]);
    if Joined(header) != Joined(HEADER) { return Err(BadHeader); }
    var rows: seq<SegmentRow> := [];
    var n := 1;
    if RowsOf(lines, 1).Ok? { assert [] + RowsOf(lines, 1).value == RowsOf(lines, 1).value; }
    while n < |lines|
      invariant 1 <= n <= |lines|
      invariant TableOf(text) == Prepended(rows, RowsOf(lines, n))
    {
      if lines[n] != "" {
        var f := SplitCsvLine(lines[n]);
        if |f| != 3 { return Err(NotThreeFields(n + 1)); }
        if RowsOf(lines, n + 1).Ok? { Assoc(rows, [SegmentRow(f[0], f[1], f[2])], RowsOf(lines, n + 1).value); }
        rows := rows + [SegmentRow(f[0], f[1], f[2])];
      }
      n := n + 1;
    }
    assert rows + [] == rows;
    r := Ok(rows);
  }

  // ---------- a printed table reads back ----------

  /** A row as it may be printed: three fields, quoted where they must be. */
  predicate PrintedRow(fields: seq<Field>) {
    |fields| == 3 && AllPrintable(fields)
  }

  predicate AllPrinted(table: seq<seq<Field>>) {
    forall i :: 0 <= i < |table| ==> PrintedRow(table[i])
  }

  function RowOf(fields: seq<Field>): SegmentRow
    requires |fields| == 3
  {
    SegmentRow(fields[0].text, fields[1].text, fields[2].text)
  }

  function Eol(crlf: bool): string {
    if crlf then "\r\n" else "\n"
  }

  function RowsText(table: seq<seq<Field>>, crlf: bool): string
    requires AllPrinted(table)
  {
    if table == [] then "" else LineText(table[0]) + (Eol(crlf) + RowsText(table[1..], crlf))
  }

  const HEADER_TEXT := "session_id,id,r2_key"

  function TableText(table: seq<seq<Field>>, crlf: bool): string
    requires AllPrinted(table)
  {
    HEADER_TEXT + (Eol(crlf) + RowsText(table, crlf))
  }

  function RowsIn(table: seq<seq<Field>>): (rows: seq<SegmentRow>)
    requires AllPrinted(table)
    ensures |rows| == |table| && forall i :: 0 <= i < |table| ==> rows[i] == RowOf(table[i])
  {
    if table == [] then [] else [RowOf(table[0])] + RowsIn(table[1..])
  }

  // ---------- line ends ----------

  /** The line without a carriage return at its end. */
  function TrimLine(line: string): string {
    if line != "" && line[|line| - 1] == '\r' then line[..|line| - 1] else line
  }

  /** What of a field at the end of a line is left of it. */
  function Trim(f: Field): Field {
    if f.quoted then f else f.(text := TrimLine(f.text))
  }

  function TrimRow(fields: seq<Field>): (r: seq<Field>)
    requires PrintedRow(fields)
    ensures PrintedRow(r)
  {
    var last := Trim(fields[2]);
    assert Printable(fields[2]);
    assert last.text != "" ==> last.text[0] == fields[2].text[0];
    [fields[0], fields[1], last]
  }

  /** Before a bare line feed, a carriage return is taken for a part of the line end. */
  function Kept(table: seq<seq<Field>>, crlf: bool): (kept: seq<seq<Field>>)
    requires AllPrinted(table)
    ensures |kept| == |table| && AllPrinted(kept)
    ensures forall i :: 0 <= i < |table| ==> kept[i] == if crlf then table[i] else TrimRow(table[i])
  {
    if table == [] then [] else [if crlf then table[0] else TrimRow(table[0])] + Kept(table[1..], crlf)
  }

  function RowTexts(table: seq<seq<Field>>): seq<string>
    requires AllPrinted(table)
  {
    if table == [] then [] else [LineText(table[0])] + RowTexts(table[1..])
  }

  predicate NoFeed(fields: seq<Field>) {
    forall i :: 0 <= i < |fields| ==> '\n' !in fields[i].text
  }

  predicate NoFeeds(table: seq<seq<Field>>) {
    forall i :: 0 <= i < |table| ==> NoFeed(table[i])
  }

  lemma {:induction false} LineEnds(line: string, crlf: bool, rest: string)
    requires '\n' !in line
    ensures LinesOf(line + (Eol(crlf) + rest)) == [if crlf then line else TrimLine(line)] + LinesOf(rest)
    decreases |line|
  {
    var text := line + (Eol(crlf) + rest);
    if line == "" {
      assert text == Eol(crlf) + rest;
      assert text[|Eol(crlf)|..] == rest;
    } else {
      assert text[0] == line[0] && text[0] in line;
      assert text[1..] == line[1..] + (Eol(crlf) + rest);
      if |line| == 1 && line[0] == '\r' && !crlf {
        assert text[2..] == rest;
      } else {
        LineEnds(line[1..], crlf, rest);
        TrimFirst(line);
      }
    }
  }

  lemma TrimFirst(line: string)
    requires line != ""
    ensures line == [line[0]] + line[1..]
    ensures !(|line| == 1 && line[0] == '\r') ==> TrimLine(line) == [line[0]] + TrimLine(line[1..])
  {
  }

  lemma {:induction false} DoubledHasNoFeed(text: string)
    requires '\n' !in text
    ensures '\n' !in Doubled(text)
  {
    if text != "" {
      assert text[0] in text;
      DoubledHasNoFeed(text[1..]);
    }
  }

  lemma {:induction false} LineHasNoFeed(fields: seq<Field>)
    requires fields != [] && NoFeed(fields)
    ensures '\n' !in LineText(fields)
  {
    DoubledHasNoFeed(fields[0].text);
    if |fields| > 1 { LineHasNoFeed(fields[1..]); }
  }

  lemma ThreeFields(fields: seq<Field>)
    requires |fields| == 3
    ensures LineText(fields)
         == FieldText(fields[0]) + ("," + (FieldText(fields[1]) + ("," + FieldText(fields[2]))))
  {
    assert fields[1..][1..] == fields[2..];
    assert LineText(fields[2..]) == FieldText(fields[2]);
    assert LineText(fields[1..]) == FieldText(fields[1]) + ("," + LineText(fields[2..]));
  }

  lemma TrimEnd(a: string, b: string)
    requires b != ""
    ensures TrimLine(a + b) == a + TrimLine(b)
  {
    if b[|b| - 1] == '\r' {
      assert (a + b)[..|a + b| - 1] == a + b[..|b| - 1];
    }
  }

  lemma LastFieldTrims(f: Field)
    ensures TrimLine("," + FieldText(f)) == "," + FieldText(Trim(f))
  {
    if f.quoted {
      assert FieldText(f) == ("\"" + Doubled(f.text)) + "\"";
    } else if f.text != "" {
      TrimEnd(",", f.text);
    }
  }

  /** Trimming a printed line is printing the row with its last field trimmed. */
  lemma TrimPrints(fields: seq<Field>)
    requires PrintedRow(fields)
    ensures TrimLine(LineText(fields)) == LineText(TrimRow(fields))
  {
    ThreeFields(fields);
    ThreeFields(TrimRow(fields));
    var last := "," + FieldText(fields[2]);
    LastFieldTrims(fields[2]);
    TrimEnd(FieldText(fields[1]), last);
    TrimEnd(",", FieldText(fields[1]) + last);
    TrimEnd(FieldText(fields[0]), "," + (FieldText(fields[1]) + last));
  }

  lemma KeptRowTexts(table: seq<seq<Field>>, crlf: bool)
    requires AllPrinted(table) && table != []
    ensures RowTexts(Kept(table, crlf)) == [LineText(Kept(table, crlf)[0])] + RowTexts(Kept(table[1..], crlf))
  {
    assert Kept(table, crlf)[1..] == Kept(table[1..], crlf);
  }

  lemma {:induction false} RowsSplit(table: seq<seq<Field>>, crlf: bool)
    requires AllPrinted(table) && NoFeeds(table)
    ensures LinesOf(RowsText(table, crlf)) == RowTexts(Kept(table, crlf)) + [""]
  {
    if table != [] {
      LineHasNoFeed(table[0]);
      LineEnds(LineText(table[0]), crlf, RowsText(table[1..], crlf));
      TrimPrints(table[0]);
      RowsSplit(table[1..], crlf);
      KeptRowTexts(table, crlf);
      Assoc([LineText(Kept(table, crlf)[0])], RowTexts(Kept(table[1..], crlf)), [""]);
    }
  }

  lemma RowReads(fields: seq<Field>)
    requires PrintedRow(fields)
    ensures LineText(fields) != ""
    ensures FieldsFrom(LineText(fields), 0) == [fields[0].text, fields[1].text, fields[2].text]
  {
    SplitUndoesPrint(fields);
    assert fields[1..][1..] == fields[2..] && fields[2..][1..] == [];
    assert Texts(fields[2..]) == [fields[2].text];
    assert Texts(fields[1..]) == [fields[1].text] + Texts(fields[2..]);
  }

  lemma {:induction false} RowsRead(table: seq<seq<Field>>, lines: seq<string>, n: nat)
    requires AllPrinted(table)
    requires n <= |lines| && lines[n..] == RowTexts(table)
    ensures RowsOf(lines, n) == Ok(RowsIn(table))
    decreases |table|
  {
    if table != [] {
      assert lines[n] == lines[n..][0];
      assert lines[n + 1..] == lines[n..][1..];
      RowReads(table[0]);
      RowsRead(table[1..], lines, n + 1);
    }
  }

  const HEADER_FIELDS := [Field("session_id", false), Field("id", false), Field("r2_key", false)]

  lemma HeaderIsPrinted()
    ensures PrintedRow(HEADER_FIELDS) && NoFeed(HEADER_FIELDS)
  {
    assert Printable(Field("session_id", false)) && '\n' !in "session_id";
    assert Printable(Field("id", false)) && '\n' !in "id";
    assert Printable(Field("r2_key", false)) && '\n' !in "r2_key";
  }

  lemma HeaderIsLine()
    ensures LineText(HEADER_FIELDS) == HEADER_TEXT
  {
    assert HEADER_FIELDS[1..][1..] == [Field("r2_key", false)];
    assert LineText(HEADER_FIELDS[1..]) == "id" + ("," + "r2_key");
  }

  lemma HeaderReads()
    ensures FieldsFrom(HEADER_TEXT, 0) == HEADER && '\n' !in HEADER_TEXT && TrimLine(HEADER_TEXT) == HEADER_TEXT
  {
    HeaderIsPrinted();
    HeaderIsLine();
    RowReads(HEADER_FIELDS);
    LineHasNoFeed(HEADER_FIELDS);
  }

  /** A table without line feeds, printed with any optional quotes and either line ending, reads as the
    * rows that were printed, but for a carriage return that stands bare before a bare line feed. */
  lemma TableReads(table: seq<seq<Field>>, crlf: bool)
    requires AllPrinted(table) && NoFeeds(table)
    ensures TableOf(TableText(table, crlf)) == Ok(RowsIn(Kept(table, crlf)))
  {
    var header := HEADER_TEXT;
    var kept := Kept(table, crlf);
    HeaderReads();
    LineEnds(header, crlf, RowsText(table, crlf));
    RowsSplit(table, crlf);
    assert LinesOf(TableText(table, crlf)) == [header] + (RowTexts(kept) + [""]);
    LastLineGoes(header, RowTexts(kept));
    RowsRead(kept, [header] + RowTexts(kept), 1);
  }

  lemma LastLineGoes(header: string, lines: seq<string>)
    ensures WithoutLastEmpty([header] + (lines + [""])) == [header] + lines
  {
    Assoc([header], lines, [""]);
    assert (([header] + lines) + [""])[..|lines| + 1] == [header] + lines;
  }

  // ---------- what is read has no line feed ----------

  lemma {:induction false} LinesHaveNoFeed(text: string)
    ensures forall i :: 0 <= i < |LinesOf(text)| ==> '\n' !in LinesOf(text)[i]
  {
    if text == "" {
    } else if text[0] == '\n' {
      LinesHaveNoFeed(text[1..]);
    } else if text[0] == '\r' && |text| > 1 && text[1] == '\n' {
      LinesHaveNoFeed(text[2..]);
    } else {
      LinesHaveNoFeed(text[1..]);
    }
  }

  lemma {:induction false} QuotedHasNoFeed(line: string, i: nat)
    requires i <= |line| && '\n' !in line
    ensures '\n' !in Quoted(line, i).0
    decreases |line| - i
  {
    if i < |line| && line[i] == '"' && i + 1 < |line| && line[i + 1] == '"' {
      QuotedHasNoFeed(line, i + 2);
    } else if i < |line| && line[i] != '"' {
      assert line[i] in line;
      QuotedHasNoFeed(line, i + 1);
    }
  }

  lemma {:induction false} FieldsHaveNoFeed(line: string, i: nat)
    requires '\n' !in line
    ensures forall k :: 0 <= k < |FieldsFrom(line, i)| ==> '\n' !in FieldsFrom(line, i)[k]
    decreases |line| + 1 - i
  {
    if i > |line| {
    } else if i < |line| && line[i] == '"' {
      QuotedHasNoFeed(line, i + 1);
      FieldsHaveNoFeed(line, Quoted(line, i + 1).1 + 1);
    } else {
      FieldsHaveNoFeed(line, CommaFrom(line, i) + 1);
    }
  }

  predicate RowHasNoFeed(row: SegmentRow) {
    '\n' !in row.sessionId && '\n' !in row.id && '\n' !in row.r2Key
  }

  lemma {:induction false} RowsHaveNoFeed(lines: seq<string>, n: nat)
    requires n <= |lines| && forall i :: 0 <= i < |lines| ==> '\n' !in lines[i]
    ensures RowsOf(lines, n).Ok?
      ==> forall i :: 0 <= i < |RowsOf(lines, n).value| ==> RowHasNoFeed(RowsOf(lines, n).value[i])
    decreases |lines| - n
  {
    if n < |lines| {
      FieldsHaveNoFeed(lines[n], 0);
      RowsHaveNoFeed(lines, n + 1);
    }
  }

  lemma TableHasNoFeed(text: string)
    ensures TableOf(text).Ok? ==> forall i :: 0 <= i < |TableOf(text).value| ==> RowHasNoFeed(TableOf(text).value[i])
  {
    LinesHaveNoFeed(text);
    var lines := WithoutLastEmpty(LinesOf(text));
    if lines != [] { RowsHaveNoFeed(lines, 1); }
  }

  /** A row's last field stands bare and ends with a carriage return. */
  predicate EndsBare(fields: seq<Field>)
    requires |fields| == 3
  {
    !fields[2].quoted && fields[2].text != "" && fields[2].text[|fields[2].text| - 1] == '\r'
  }

  /** A table of any rows, printed with any optional quotes and either line ending, reads back whole
    * exactly when no field holds a line feed, quoted or not, and, with bare line feeds, no row ends with
    * a carriage return outside quotes. */
  lemma TableReadsBack(table: seq<seq<Field>>, crlf: bool)
    requires AllPrinted(table)
    ensures TableOf(TableText(table, crlf)) == Ok(RowsIn(table))
      <==> NoFeeds(table) && (crlf || forall i :: 0 <= i < |table| ==> !EndsBare(table[i]))
  {
    if NoFeeds(table) {
      TableReads(table, crlf);
      KeptExactly(table, crlf);
    } else {
      FeedIsLost(table, TableOf(TableText(table, crlf)));
      TableHasNoFeed(TableText(table, crlf));
    }
  }

  /** A row with a line feed is not among rows without one. */
  lemma FeedIsLost(table: seq<seq<Field>>, r: Result<seq<SegmentRow>, Problem>)
    requires AllPrinted(table) && !NoFeeds(table)
    ensures r.Ok? && (forall i :: 0 <= i < |r.value| ==> RowHasNoFeed(r.value[i])) ==> r != Ok(RowsIn(table))
  {
    var i :| 0 <= i < |table| && !NoFeed(table[i]);
    FeedInRow(table[i]);
    assert RowsIn(table)[i] == RowOf(table[i]);
  }

  lemma FeedInRow(fields: seq<Field>)
    requires |fields| == 3 && !NoFeed(fields)
    ensures !RowHasNoFeed(RowOf(fields))
  {
    var i :| 0 <= i < 3 && '\n' in fields[i].text;
    assert i == 0 || i == 1 || i == 2;
  }

  lemma KeptExactly(table: seq<seq<Field>>, crlf: bool)
    requires AllPrinted(table)
    ensures RowsIn(Kept(table, crlf)) == RowsIn(table)
      <==> (crlf || forall i :: 0 <= i < |table| ==> !EndsBare(table[i]))
  {
    var kept := Kept(table, crlf);
    if !crlf {
      forall i | 0 <= i < |table|
        ensures RowsIn(kept)[i] == RowsIn(table)[i] <==> !EndsBare(table[i])
      {
        if EndsBare(table[i]) { assert |kept[i][2].text| < |table[i][2].text|; }
      }
    }
  }

  // ---------- what is refused ----------

  /** A line that is read as a row, or skipped. */
  predicate LineReads(line: string) { line == "" || |FieldsFrom(line, 0)| == 3 }

  /** Line `k` is the first behind the header that is neither; the header is line 1. */
  predicate FirstBad(lines: seq<string>, n: nat, k: nat) {
    n < k <= |lines| && !LineReads(lines[k - 1]) && forall i :: n <= i < k - 1 ==> LineReads(lines[i])
  }

  lemma {:induction false} RowsRefusedExactly(lines: seq<string>, n: nat, k: nat)
    requires n <= |lines|
    ensures RowsOf(lines, n) == Err(NotThreeFields(k)) <==> FirstBad(lines, n, k)
    decreases |lines| - n
  {
    if n < |lines| {
      RowsRefusedExactly(lines, n + 1, k);
      if LineReads(lines[n]) {
        assert FirstBad(lines, n, k) <==> FirstBad(lines, n + 1, k);
      } else {
        assert FirstBad(lines, n, k) <==> k == n + 1;
      }
    }
  }

  /** Under the right header, a table is refused for line `k` exactly when that is its first line that is
    * neither empty nor of three fields. */
  lemma BadLineExactly(text: string, k: nat)
    requires TableOf(text) != Err(BadHeader)
    ensures TableOf(text) == Err(NotThreeFields(k)) <==> FirstBad(WithoutLastEmpty(LinesOf(text)), 1, k)
  {
    RowsRefusedExactly(WithoutLastEmpty(LinesOf(text)), 1, k);
  }

  lemma {:induction false} TextsCount(fields: seq<Field>)
    ensures |Texts(fields)| == |fields|
  {
    if fields != [] {
      TextsCount(fields[1..]);
    }
  }

  predicate CommaFree(texts: seq<string>) { forall i :: 0 <= i < |texts| ==> ',' !in texts[i] }

  lemma NotClosed(a: string, x: string, y: string)
    ensures a != "" && ',' !in a && Closes(y) ==> a + x != "" + y
  {
    if a != "" {
      assert (a + x)[0] == a[0] && a[0] in a && "" + y == y;
    }
  }

  lemma {:induction false} SameUpToComma(a: string, b: string, x: string, y: string)
    requires ',' !in a && ',' !in b && Closes(x) && Closes(y) && a + x == b + y
    ensures a == b && x == y
  {
    if a == "" && b == "" {
      assert a + x == x && b + y == y;
    } else if a == "" {
      NotClosed(b, y, x);
    } else if b == "" {
      NotClosed(a, x, y);
    } else {
      assert a[0] == (a + x)[0] == (b + y)[0] == b[0];
      assert (a + x)[1..] == a[1..] + x && (b + y)[1..] == b[1..] + y;
      SameUpToComma(a[1..], b[1..], x, y);
      assert a == [a[0]] + a[1..] && b == [b[0]] + b[1..];
    }
  }

  function AfterFirst(texts: seq<string>): string
    requires texts != []
  {
    if |texts| == 1 then "" else "," + Joined(texts[1..])
  }

  lemma JoinedIs(texts: seq<string>)
    requires texts != []
    ensures Joined(texts) == texts[0] + AfterFirst(texts)
  {
    if |texts| == 1 {
      assert texts[0] + "" == texts[0];
    } else {
      Assoc(texts[0], ",", Joined(texts[1..]));
    }
  }

  lemma {:induction false} JoinedTells(a: seq<string>, b: seq<string>)
    requires a != [] && b != [] && CommaFree(a) && CommaFree(b) && Joined(a) == Joined(b)
    ensures a == b
  {
    JoinedIs(a);
    JoinedIs(b);
    SameUpToComma(a[0], b[0], AfterFirst(a), AfterFirst(b));
    if |a| > 1 && |b| > 1 {
      assert AfterFirst(a)[1..] == Joined(a[1..]) && AfterFirst(b)[1..] == Joined(b[1..]);
      JoinedTells(a[1..], b[1..]);
    }
    assert a == [a[0]] + a[1..] && b == [b[0]] + b[1..];
  }

  lemma {:induction false} NeverBadHeader(lines: seq<string>, n: nat)
    ensures n <= |lines| ==> RowsOf(lines, n) != Err(BadHeader)
    decreases |lines| - n
  {
    if n < |lines| {
      NeverBadHeader(lines, n + 1);
    }
  }

  lemma HeaderDecides(text: string, lines: seq<string>, header: seq<Field>)
    requires header != [] && AllPrintable(header) && CommaFree(Texts(header))
    requires lines == WithoutLastEmpty(LinesOf(text)) && lines != [] && lines[0] == LineText(header)
    ensures TableOf(text) == Err(BadHeader) <==> Texts(header) != HEADER
  {
    SplitUndoesPrint(header);
    TextsCount(header);
    NeverBadHeader(lines, 1);
    if Joined(Texts(header)) == Joined(HEADER) {
      JoinedTells(Texts(header), HEADER);
    }
  }

  lemma FirstLineStays(line: string, more: seq<string>)
    requires line != ""
    ensures WithoutLastEmpty([line] + more) != [] && WithoutLastEmpty([line] + more)[0] == line
  {
  }

  /** A printed header without commas in its names is refused exactly when it is not the three names in this
    * order. */
  lemma BadHeaderExactly(header: seq<Field>, crlf: bool, rest: string)
    requires header != [] && AllPrintable(header) && NoFeed(header) && CommaFree(Texts(header))
    requires LineText(header) != "" && (crlf || TrimLine(LineText(header)) == LineText(header))
    ensures TableOf(LineText(header) + (Eol(crlf) + rest)) == Err(BadHeader)
       <==> Texts(header) != ["session_id", "id", "r2_key"]
  {
    var text := LineText(header) + (Eol(crlf) + rest);
    LineHasNoFeed(header);
    LineEnds(LineText(header), crlf, rest);
    FirstLineStays(LineText(header), LinesOf(rest));
    HeaderDecides(text, WithoutLastEmpty(LinesOf(text)), header);
  }

  /** An empty text has no header. */
  lemma EmptyIsRefused()
    ensures TableOf("") == Err(BadHeader) && TableOf("\n") == Err(BadHeader)
  {
    assert LinesOf("\n") == [""] + LinesOf("");
    assert FieldsFrom("", 0) == [""];
  }
}
