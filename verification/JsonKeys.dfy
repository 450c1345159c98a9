/**
 * The text keys of the pending-question registry: `JSON.stringify` of a tuple of strings.
 * JavaScript strings are sequences of UTF-16 code units, and `JSON.stringify` escapes a unit
 * or passes it through; the reader below follows section 7 of RFC 8259.
 */
module JsonKeys {

  type CodeUnit = c: int | 0 <= c < 0x1_0000

  type Text = seq<CodeUnit>

  const QUOTE: CodeUnit := 0x22
  const BACKSLASH: CodeUnit := 0x5C
  const OPEN: CodeUnit := 0x5B
  const CLOSE: CodeUnit := 0x5D
  const COMMA: CodeUnit := 0x2C

  predicate IsLead(c: CodeUnit) { 0xD800 <= c <= 0xDBFF }

  predicate IsTrail(c: CodeUnit) { 0xDC00 <= c <= 0xDFFF }

  function HexDigit(d: int): CodeUnit
    requires 0 <= d < 16
  {
    if d < 10 then 0x30 + d else 0x61 + (d - 10)
  }

  function HexValue(c: CodeUnit): (d: int)
    ensures -1 <= d < 16
  {
    if 0x30 <= c <= 0x39 then c - 0x30
    else if 0x61 <= c <= 0x66 then c - 0x61 + 10
    else if 0x41 <= c <= 0x46 then c - 0x41 + 10
    else -1
  }

  /** `\uXXXX` with four lower-case hex digits. */
  function UnicodeEscape(c: CodeUnit): Text {
    var high, low := c / 0x100, c % 0x100;
    [BACKSLASH, 0x75, HexDigit(high / 0x10), HexDigit(high % 0x10), HexDigit(low / 0x10), HexDigit(low % 0x10)]
  }

  /** One code unit that is not half of a surrogate pair. */
  function QuoteUnit(c: CodeUnit): Text {
    if c == QUOTE || c == BACKSLASH then [BACKSLASH, c]
    else if c == 0x08 then [BACKSLASH, 0x62]
    else if c == 0x0C then [BACKSLASH, 0x66]
    else if c == 0x0A then [BACKSLASH, 0x6E]
    else if c == 0x0D then [BACKSLASH, 0x72]
    else if c == 0x09 then [BACKSLASH, 0x74]
    else if c < 0x20 || IsLead(c) || IsTrail(c) then UnicodeEscape(c)
    else [c]
  }

  function Quoted(s: Text): Text {
    if s == [] then []
    else if |s| > 1 && IsLead(s[0]) && IsTrail(s[1]) then s[..2] + Quoted(s[2..])
    else QuoteUnit(s[0]) + Quoted(s[1..])
  }

  function Stringify(s: Text): Text { [QUOTE] + Quoted(s) + [QUOTE] }

  /** The registry's `keyOf` and `turnKeyOf`: a JSON array of the parts. */
  function KeyOf(sessionId: Text, turnId: Text, requestId: Text): Text {
    [OPEN] + Stringify(sessionId) + [COMMA] + Stringify(turnId) + [COMMA] + Stringify(requestId) + [CLOSE]
  }

  function TurnKeyOf(sessionId: Text, turnId: Text): Text {
    [OPEN] + Stringify(sessionId) + [COMMA] + Stringify(turnId) + [CLOSE]
  }

  // ----- an independent reader -----

  datatype Read = Malformed | Value(text: Text, rest: Text)

  /** The unit that a two-character escape stands for, or -1. */
  function SimpleEscape(c: CodeUnit): int {
    if c == QUOTE || c == BACKSLASH || c == 0x2F then c
    else if c == 0x62 then 0x08
    else if c == 0x66 then 0x0C
    else if c == 0x6E then 0x0A
    else if c == 0x72 then 0x0D
    else if c == 0x74 then 0x09
    else -1
  }

  function Prepend(c: CodeUnit, r: Read): Read {
    match r
    case Malformed => Malformed
    case Value(text, rest) => Value([c] + text, rest)
  }

  /** Reads string characters up to and over the closing quote. */
  function Unquote(t: Text): Read {
    if t == [] || t[0] < 0x20 then Malformed
    else if t[0] == QUOTE then Value([], t[1..])
    else if t[0] != BACKSLASH then Prepend(t[0], Unquote(t[1..]))
    else if |t| < 2 then Malformed
    else if SimpleEscape(t[1]) >= 0 then Prepend(SimpleEscape(t[1]), Unquote(t[2..]))
    else if t[1] == 0x75 && |t| >= 6 then
      var a, b, c, d := HexValue(t[2]), HexValue(t[3]), HexValue(t[4]), HexValue(t[5]);
      if a < 0 || b < 0 || c < 0 || d < 0 then Malformed
      else Prepend(a * 0x1000 + b * 0x100 + c * 0x10 + d, Unquote(t[6..]))
    else Malformed
  }

  /** A unit by itself is written as it is but for controls, the quote, the backslash and halves of surrogate
    * pairs; the quote, the backslash and five of the controls take two units, and the others six. */
  lemma UnitLengths(c: CodeUnit)
    ensures |QuoteUnit(c)| == 1 <==> c >= 32 && c != 34 && c != 92 && !(55296 <= c <= 57343)
    ensures |QuoteUnit(c)| == 2 <==> c == 34 || c == 92 || c == 8 || c == 9 || c == 10 || c == 12 || c == 13
    ensures |QuoteUnit(c)| == 1 || |QuoteUnit(c)| == 2 || |QuoteUnit(c)| == 6
  {
  }

  /** A surrogate pair is written as it is. */
  lemma PairsStay(a: CodeUnit, b: CodeUnit, rest: Text)
    requires 55296 <= a <= 56319 && 56320 <= b <= 57343
    ensures Quoted([a, b] + rest) == [a, b] + Quoted(rest)
  {
    assert ([a, b] + rest)[..2] == [a, b] && ([a, b] + rest)[2..] == rest;
  }

  lemma UnquoteUnicode(c: CodeUnit, rest: Text)
    ensures Unquote(UnicodeEscape(c) + rest) == Prepend(c, Unquote(rest))
  {
    var t := UnicodeEscape(c) + rest;
    assert t[6..] == rest;
    var high, low := c / 0x100, c % 0x100;
    assert high / 0x10 * 0x10 + high % 0x10 == high && low / 0x10 * 0x10 + low % 0x10 == low;
  }

  lemma UnquoteSimple(e: CodeUnit, rest: Text)
    requires SimpleEscape(e) >= 0
    ensures Unquote([BACKSLASH, e] + rest) == Prepend(SimpleEscape(e), Unquote(rest))
  {
    assert ([BACKSLASH, e] + rest)[2..] == rest;
  }

  /** A unit that is passed through unescaped. */
  lemma UnquoteRaw(c: CodeUnit, rest: Text)
    requires c >= 0x20 && c != QUOTE && c != BACKSLASH
    ensures Unquote([c] + rest) == Prepend(c, Unquote(rest))
  {
    assert ([c] + rest)[1..] == rest;
  }

  /** Reading one escaped unit gives the unit back. */
  lemma UnquoteUnit(c: CodeUnit, rest: Text)
    ensures Unquote(QuoteUnit(c) + rest) == Prepend(c, Unquote(rest))
  {
    var q := QuoteUnit(c);
    if |q| == 6 {
      UnquoteUnicode(c, rest);
    } else if |q| == 2 {
      UnquoteSimple(q[1], rest);
    } else {
      UnquoteRaw(c, rest);
    }
  }

  lemma Assoc(a: Text, b: Text, c: Text)
    ensures (a + b) + c == a + (b + c)
  {
  }

  lemma {:induction false} UnquoteQuoted(s: Text, rest: Text)
    ensures Unquote(Quoted(s) + ([QUOTE] + rest)) == Value(s, rest)
    decreases s, 1
  {
    var tail := [QUOTE] + rest;
    if s == [] {
      assert Quoted(s) + tail == tail;
      assert tail[1..] == rest;
    } else if |s| > 1 && IsLead(s[0]) && IsTrail(s[1]) {
      UnquotePair(s, rest);
    } else {
      UnquoteQuoted(s[1..], rest);
      Assoc(QuoteUnit(s[0]), Quoted(s[1..]), tail);
      UnquoteUnit(s[0], Quoted(s[1..]) + tail);
    }
  }

  lemma {:induction false} UnquotePair(s: Text, rest: Text)
    requires |s| > 1 && IsLead(s[0]) && IsTrail(s[1])
    ensures Unquote(Quoted(s) + ([QUOTE] + rest)) == Value(s, rest)
    decreases s, 0
  {
    var more := Quoted(s[2..]) + ([QUOTE] + rest);
    UnquoteQuoted(s[2..], rest);
    UnquoteRaw(s[1], more);
    UnquoteRaw(s[0], [s[1]] + more);
    Assoc(s[..2], Quoted(s[2..]), [QUOTE] + rest);
    assert s[..2] + more == [s[0]] + ([s[1]] + more);
    assert [s[0]] + ([s[1]] + s[2..]) == s;
  }

  /** Two stringified values followed by anything: equal texts mean equal values and tails. */
  lemma StringifySplits(a: Text, b: Text, x: Text, y: Text)
    requires Stringify(a) + x == Stringify(b) + y
    ensures a == b && x == y
  {
    StringifyReads(a, x);
    StringifyReads(b, y);
  }

  lemma StringifyReads(a: Text, x: Text)
    ensures Unquote((Stringify(a) + x)[1..]) == Value(a, x)
  {
    UnquoteQuoted(a, x);
    assert (Stringify(a) + x)[1..] == Quoted(a) + ([QUOTE] + x);
  }

  /** The part of an array text after its `[` or one of its commas. */
  lemma SplitPart(lead: CodeUnit, a: Text, b: Text, x: Text, y: Text)
    requires [lead] + (Stringify(a) + x) == [lead] + (Stringify(b) + y)
    ensures a == b && x == y
  {
    var p, q := Stringify(a) + x, Stringify(b) + y;
    assert p == ([lead] + p)[1..] == ([lead] + q)[1..] == q;
    StringifySplits(a, b, x, y);
  }

  function Tail1(a: Text): Text { [COMMA] + (Stringify(a) + [CLOSE]) }

  function Tail2(a: Text, b: Text): Text { [COMMA] + (Stringify(a) + Tail1(b)) }

  lemma TurnKeyOfNested(s: Text, t: Text)
    ensures TurnKeyOf(s, t) == [OPEN] + (Stringify(s) + Tail1(t))
  {
  }

  lemma KeyOfNested(s: Text, t: Text, q: Text)
    ensures KeyOf(s, t, q) == [OPEN] + (Stringify(s) + Tail2(t, q))
  {
  }

  /** Different turns never share a key. */
  lemma TurnKeyOfInjective(s: Text, t: Text, s': Text, t': Text)
    requires TurnKeyOf(s, t) == TurnKeyOf(s', t')
    ensures s == s' && t == t'
  {
    TurnKeyOfNested(s, t);
    TurnKeyOfNested(s', t');
    SplitPart(OPEN, s, s', Tail1(t), Tail1(t'));
    SplitPart(COMMA, t, t', [CLOSE], [CLOSE]);
  }

  /** Different (session, turn, request) triples never share a key, whatever characters they hold. */
  lemma KeyOfInjective(s: Text, t: Text, q: Text, s': Text, t': Text, q': Text)
    requires KeyOf(s, t, q) == KeyOf(s', t', q')
    ensures s == s' && t == t' && q == q'
  {
    KeyOfNested(s, t, q);
    KeyOfNested(s', t', q');
    SplitPart(OPEN, s, s', Tail2(t, q), Tail2(t', q'));
    SplitPart(COMMA, t, t', Tail1(q), Tail1(q'));
    SplitPart(COMMA, q, q', [CLOSE], [CLOSE]);
  }
}
