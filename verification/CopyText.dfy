/**
 * The COPY text encoding of a row, and a reader of the format that undoes it. The text of a double
 * comes from `realText`, which writes no backslash, tab or line break.
 */
module CopyText {
  import opened Decimal
  import opened LegacyValues
  import opened Wrappers

  type RealText = nat -> string

  predicate Special(c: char) { c == '\\' || c == '\n' || c == '\r' || c == '\t' }

  ghost predicate PlainReals(realText: RealText) {
    forall b: nat, c :: c in realText(b) ==> !Special(c)
  }

  function EscapeChar(c: char): string {
    match c
    case '\\' => "\\\\"
    case '\n' => "\\n"
    case '\r' => "\\r"
    case '\t' => "\\t"
    case _ => [c]
  }

  function Escape(s: string): string {
    if s == "" then "" else EscapeChar(s[0]) + Escape(s[1..])
  }

  /** The field of a value that its column can hold. */
  function CopyField(v: Value, realText: RealText): string {
    match v
    case Null => "\\N"
    case Text(s) => Escape(s)
    case Int(i) => IntText(i)
    case Real(bits) => realText(bits)
  }

  function Joined(values: seq<Value>, realText: RealText): string {
    if values == [] then ""
    else if |values| == 1 then CopyField(values[0], realText)
    else CopyField(values[0], realText) + "\t" + Joined(values[1..], realText)
  }

  function CopyLine(values: seq<Value>, realText: RealText): string {
    Joined(values, realText) + "\n"
  }

  const COPY_END := "\\.\n"

  // ----- a reader of the format -----

  /** The raw line at the start of `s`, up to a line break that no backslash protects, and what
    * follows it. */
  function RawLine(s: string): Option<(string, string)> {
    if s == "" || s[0] == '\r' then None
    else if s[0] == '\n' then Some(("", s[1..]))
    else if s[0] == '\\' && |s| >= 2 then
      match RawLine(s[2..])
      case None => None
      case Some((line, rest)) => Some((s[..2] + line, rest))
    else
      match RawLine(s[1..])
      case None => None
      case Some((line, rest)) => Some((s[..1] + line, rest))
  }

  /** The fields of a raw line, cut at the tabs that no backslash protects. */
  function RawFields(line: string): (fields: seq<string>)
    ensures fields != []
  {
    if line == "" then [""]
    else if line[0] == '\t' then [""] + RawFields(line[1..])
    else if line[0] == '\\' && |line| >= 2 then
      var more := RawFields(line[2..]);
      [line[..2] + more[0]] + more[1..]
    else
      var more := RawFields(line[1..]);
      [line[..1] + more[0]] + more[1..]
  }

  /** The character that a backslash and `c` stand for. */
  function Unescaped(c: char): char {
    match c
    case 'b' => 8 as char
    case 'f' => 12 as char
    case 'n' => '\n'
    case 'r' => '\r'
    case 't' => '\t'
    case 'v' => 11 as char
    case _ => c
  }

  function Unescape(field: string): string {
    if field == "" then ""
    else if field[0] == '\\' && |field| >= 2 then [Unescaped(field[1])] + Unescape(field[2..])
    else [field[0]] + Unescape(field[1..])
  }

  /** A field's text, or None for NULL. */
  function ReadField(field: string): Option<string> {
    if field == "\\N" then None else Some(Unescape(field))
  }

  function ReadFields(fields: seq<string>): seq<Option<string>> {
    seq(|fields|, k requires 0 <= k < |fields| => ReadField(fields[k]))
  }

  datatype Block = Unfinished | Read(rows: seq<seq<Option<string>>>, rest: string)

  /** The rows of a COPY data block up to its end marker. */
  function ReadRows(s: string): Block
    decreases |s|
  {
    match RawLine(s)
    case None => Unfinished
    case Some((line, rest)) =>
      RawLineShortens(s);
      if line == "\\." then Read([], rest)
      else match ReadRows(rest)
           case Unfinished => Unfinished
           case Read(rows, end) => Read([ReadFields(RawFields(line))] + rows, end)
  }

  lemma {:induction false} RawLineShortens(s: string)
    ensures RawLine(s).Some? ==> |RawLine(s).value.1| < |s|
  {
    if s == "" || s[0] == '\r' || s[0] == '\n' {
    } else if s[0] == '\\' && |s| >= 2 {
      RawLineShortens(s[2..]);
    } else {
      RawLineShortens(s[1..]);
    }
  }

  // ----- what the encoding writes -----

  /** Escapes come whole and from the encoder's own set; no other special character is bare, but a
    * tab between fields where `tabs` allows it. */
  predicate Clean(t: string, tabs: bool) {
    if t == "" then true
    else if t[0] == '\\' then |t| >= 2 && t[1] in "\\nrtN" && Clean(t[2..], tabs)
    else (!Special(t[0]) || (tabs && t[0] == '\t')) && Clean(t[1..], tabs)
  }

  lemma {:induction false} CleanSum(a: string, b: string, tabs: bool)
    requires Clean(a, tabs) && Clean(b, tabs)
    ensures Clean(a + b, tabs)
  {
    if a == "" {
      assert a + b == b;
    } else if a[0] == '\\' {
      CleanSum(a[2..], b, tabs);
      assert (a + b)[2..] == a[2..] + b;
    } else {
      CleanSum(a[1..], b, tabs);
      assert (a + b)[1..] == a[1..] + b;
    }
  }

  lemma {:induction false} PlainIsClean(t: string)
    requires forall c :: c in t ==> !Special(c)
    ensures Clean(t, false) && Unescape(t) == t
  {
    if t != "" {
      PlainIsClean(t[1..]);
      assert t[0] in t && t == [t[0]] + t[1..];
    }
  }

  lemma {:induction false} WithTabs(t: string)
    requires Clean(t, false)
    ensures Clean(t, true)
  {
    if t == "" {
    } else if t[0] == '\\' {
      WithTabs(t[2..]);
    } else {
      WithTabs(t[1..]);
    }
  }

  lemma {:induction false} EscapeIsClean(s: string)
    ensures Clean(Escape(s), false)
  {
    if s != "" {
      EscapeIsClean(s[1..]);
      CleanSum(EscapeChar(s[0]), Escape(s[1..]), false);
    }
  }

  lemma UnescapeChar(c: char, more: string)
    ensures Unescape(EscapeChar(c) + more) == [c] + Unescape(more)
  {
    var e := EscapeChar(c);
    assert (e + more)[|e|..] == more;
  }

  /** Reading an escaped text gives the text back. */
  lemma {:induction false} UnescapeInverts(s: string)
    ensures Unescape(Escape(s)) == s
  {
    if s != "" {
      UnescapeInverts(s[1..]);
      UnescapeChar(s[0], Escape(s[1..]));
      assert [s[0]] + s[1..] == s;
    }
  }

  /** An escaped text is never the NULL marker. */
  lemma EscapedIsNotNull(s: string)
    ensures Escape(s) != "\\N"
  {
    if s != "" {
      var e := EscapeChar(s[0]);
      assert Escape(s)[0] == e[0];
      if |e| == 2 {
        assert Escape(s)[1] == e[1];
      }
    }
  }

  /** The text that the reader finds for a value; None is NULL. */
  function TextOf(v: Value, realText: RealText): Option<string> {
    match v
    case Null => None
    case Text(s) => Some(s)
    case Int(i) => Some(IntText(i))
    case Real(bits) => Some(realText(bits))
  }

  lemma FieldReads(v: Value, realText: RealText)
    requires PlainReals(realText)
    ensures Clean(CopyField(v, realText), false)
    ensures ReadField(CopyField(v, realText)) == TextOf(v, realText)
  {
    match v
    case Null => assert "\\N"[2..] == "";
    case Text(s) =>
      EscapeIsClean(s);
      UnescapeInverts(s);
      EscapedIsNotNull(s);
    case Int(i) =>
      IntTextChars(i);
      PlainIsClean(IntText(i));
    case Real(bits) =>
      PlainIsClean(realText(bits));
      assert '\\' !in realText(bits);
  }

  lemma {:induction false} FieldsOfClean(a: string)
    requires Clean(a, false)
    ensures RawFields(a) == [a]
  {
    if a == "" {
    } else if a[0] == '\\' {
      FieldsOfClean(a[2..]);
      assert a[..2] + a[2..] == a;
    } else {
      FieldsOfClean(a[1..]);
      assert a[..1] + a[1..] == a;
    }
  }

  lemma {:induction false} FieldsSplit(a: string, b: string)
    requires Clean(a, false)
    ensures RawFields(a + "\t" + b) == [a] + RawFields(b)
  {
    var all := a + "\t" + b;
    if a == "" {
      assert all[1..] == b;
    } else if a[0] == '\\' {
      FieldsSplit(a[2..], b);
      assert all[2..] == a[2..] + "\t" + b;
      assert all[..2] + a[2..] == a;
    } else {
      FieldsSplit(a[1..], b);
      assert all[1..] == a[1..] + "\t" + b;
      assert all[..1] + a[1..] == a;
    }
  }

  lemma {:induction false} LineReads(t: string, rest: string)
    requires Clean(t, true)
    ensures RawLine(t + "\n" + rest) == Some((t, rest))
  {
    var all := t + "\n" + rest;
    if t == "" {
      assert all[1..] == rest;
    } else if t[0] == '\\' {
      LineReads(t[2..], rest);
      assert all[2..] == t[2..] + "\n" + rest;
      assert all[..2] + t[2..] == t;
    } else {
      LineReads(t[1..], rest);
      assert all[1..] == t[1..] + "\n" + rest;
      assert all[..1] + t[1..] == t;
    }
  }

  function TextsOf(values: seq<Value>, realText: RealText): seq<Option<string>> {
    seq(|values|, k requires 0 <= k < |values| => TextOf(values[k], realText))
  }

  lemma {:induction false} JoinedIsClean(values: seq<Value>, realText: RealText)
    requires PlainReals(realText)
    ensures Clean(Joined(values, realText), true)
  {
    if values != [] {
      var first := CopyField(values[0], realText);
      FieldReads(values[0], realText);
      WithTabs(first);
      if |values| > 1 {
        JoinedIsClean(values[1..], realText);
        CleanSum(first, "\t", true);
        CleanSum(first + "\t", Joined(values[1..], realText), true);
      }
    }
  }

  lemma {:induction false} JoinedReads(values: seq<Value>, realText: RealText)
    requires PlainReals(realText) && values != []
    ensures ReadFields(RawFields(Joined(values, realText))) == TextsOf(values, realText)
  {
    var first := CopyField(values[0], realText);
    FieldReads(values[0], realText);
    if |values| == 1 {
      FieldsOfClean(first);
    } else {
      var more := Joined(values[1..], realText);
      JoinedReads(values[1..], realText);
      FieldsSplit(first, more);
      ReadFieldsCons(first, RawFields(more));
      assert TextsOf(values, realText) == [TextOf(values[0], realText)] + TextsOf(values[1..], realText);
    }
  }

  lemma ReadFieldsCons(first: string, more: seq<string>)
    ensures ReadFields([first] + more) == [ReadField(first)] + ReadFields(more)
  {
  }

  function Lines(rows: seq<seq<Value>>, realText: RealText): string {
    if rows == [] then "" else CopyLine(rows[0], realText) + Lines(rows[1..], realText)
  }

  function RowTexts(rows: seq<seq<Value>>, realText: RealText): seq<seq<Option<string>>> {
    if rows == [] then [] else [TextsOf(rows[0], realText)] + RowTexts(rows[1..], realText)
  }

  lemma EndReads(rest: string)
    ensures ReadRows(COPY_END + rest) == Read([], rest)
  {
    var s := COPY_END + rest;
    assert s[2..] == "\n" + rest && ("\n" + rest)[1..] == rest;
    assert s[0] == '\\' && RawLine(s[2..]) == Some(("", rest));
    assert s[..2] + "" == "\\.";
    assert RawLine(s) == Some(("\\.", rest));
  }

  /** One line is read as one row, and is not the end marker. */
  lemma RowReads(values: seq<Value>, realText: RealText, more: string)
    requires PlainReals(realText) && values != [] && ReadRows(more).Read?
    ensures ReadRows(CopyLine(values, realText) + more)
         == Read([TextsOf(values, realText)] + ReadRows(more).rows, ReadRows(more).rest)
  {
    var line := Joined(values, realText);
    JoinedIsClean(values, realText);
    JoinedReads(values, realText);
    LineReads(line, more);
    assert line != "\\.";
  }

  lemma Assoc(a: string, b: string, c: string)
    ensures (a + b) + c == a + (b + c)
  {
  }

  /** The format's reader finds exactly the rows that were written, in order, and stops at the end
    * marker: no value ends its field, its line or the block, and NULL is no text. */
  lemma {:induction false} RowsReadBack(rows: seq<seq<Value>>, realText: RealText, rest: string)
    requires PlainReals(realText) && forall k :: 0 <= k < |rows| ==> rows[k] != []
    ensures ReadRows(Lines(rows, realText) + (COPY_END + rest)) == Read(RowTexts(rows, realText), rest)
  {
    if rows == [] {
      assert Lines(rows, realText) + (COPY_END + rest) == COPY_END + rest;
      EndReads(rest);
    } else {
      var more := Lines(rows[1..], realText) + (COPY_END + rest);
      RowsReadBack(rows[1..], realText, rest);
      RowReads(rows[0], realText, more);
      Assoc(CopyLine(rows[0], realText), Lines(rows[1..], realText), COPY_END + rest);
    }
  }
}
