/**
 * The canonical text of a row, its hash and a table's digest. Text lengths are counted in UTF-8
 * bytes; the hash is any function with texts of one width.
 */
module CanonicalRow {
  import opened Decimal
  import opened LegacyValues
  import opened Sorting
  import opened Wrappers

  /** The bytes that UTF-8 takes for a character. */
  function Utf8Size(c: char): (n: nat)
    ensures 1 <= n <= 4
  {
    var code := c as int;
    if code < 0x80 then 1 else if code < 0x800 then 2 else if code < 0x1_0000 then 3 else 4
  }

  function Utf8Length(s: string): nat {
    if s == "" then 0 else Utf8Size(s[0]) + Utf8Length(s[1..])
  }

  /** The bytes of a character (RFC 3629, section 3): a first byte that tells how many follow, and six bits
    * in each of those. */
  function Utf8(c: char): (bytes: seq<nat>)
    ensures bytes != [] && forall k :: 0 <= k < |bytes| ==> bytes[k] < 256
  {
    var code := c as int;
    if code < 0x80 then [code]
    else if code < 0x800 then [0xC0 + code / 64, 0x80 + code % 64]
    else if code < 0x1_0000 then [0xE0 + code / 4096, 0x80 + code / 64 % 64, 0x80 + code % 64]
    else [0xF0 + code / 262144, 0x80 + code / 4096 % 64, 0x80 + code / 64 % 64, 0x80 + code % 64]
  }

  function Utf8Text(s: string): seq<nat> { if s == "" then [] else Utf8(s[0]) + Utf8Text(s[1..]) }

  /** What a first byte says of the character: how many bytes it takes, and the bits that it holds itself. */
  function Lead(b: nat): (nat, nat) {
    if b < 0x80 then (1, b) else if b < 0xE0 then (2, b % 32) else if b < 0xF0 then (3, b % 16) else (4, b % 8)
  }

  /** The code of the character whose bytes these are. */
  function CodeOf(bytes: seq<nat>): nat
    requires bytes != []
  {
    if |bytes| == 1 then Lead(bytes[0]).1
    else if |bytes| == 2 then Lead(bytes[0]).1 * 64 + bytes[1] % 64
    else if |bytes| == 3 then (Lead(bytes[0]).1 * 64 + bytes[1] % 64) * 64 + bytes[2] % 64
    else if |bytes| == 4 then ((Lead(bytes[0]).1 * 64 + bytes[1] % 64) * 64 + bytes[2] % 64) * 64 + bytes[3] % 64
    else 0
  }

  lemma TwoBytes(code: nat)
    requires 0x80 <= code < 0x800
    ensures Lead(0xC0 + code / 64) == (2, code / 64) && (0x80 + code % 64) % 64 == code % 64
  {
  }

  lemma ThreeBytes(code: nat)
    requires 0x800 <= code < 0x1_0000
    ensures Lead(0xE0 + code / 4096) == (3, code / 4096)
    ensures (0x80 + code / 64 % 64) % 64 == code / 64 % 64 && (0x80 + code % 64) % 64 == code % 64
    ensures code / 4096 * 64 + code / 64 % 64 == code / 64
  {
  }

  lemma FourBytes(code: nat)
    requires 0x1_0000 <= code < 0x11_0000
    ensures Lead(0xF0 + code / 262144) == (4, code / 262144)
    ensures (0x80 + code / 4096 % 64) % 64 == code / 4096 % 64
    ensures (0x80 + code / 64 % 64) % 64 == code / 64 % 64 && (0x80 + code % 64) % 64 == code % 64
    ensures code / 262144 * 64 + code / 4096 % 64 == code / 4096
    ensures code / 4096 * 64 + code / 64 % 64 == code / 64
  {
  }

  /** The bytes decode to the character, and there are as many as the length counts. */
  lemma Utf8Decodes(c: char)
    ensures CodeOf(Utf8(c)) == c as int && Lead(Utf8(c)[0]).0 == |Utf8(c)| == Utf8Size(c)
  {
    var code := c as int;
    if code < 0x80 {
    } else if code < 0x800 {
      TwoBytes(code);
    } else if code < 0x1_0000 {
      ThreeBytes(code);
    } else {
      FourBytes(code);
    }
  }

  /** A text's length is the number of its bytes. */
  lemma {:induction false} LengthCountsBytes(s: string)
    ensures Utf8Length(s) == |Utf8Text(s)|
  {
    if s != "" {
      Utf8Decodes(s[0]);
      LengthCountsBytes(s[1..]);
    }
  }

  function HexChar(d: nat): char
    requires d < 16
  {
    if d < 10 then '0' + d as char else 'a' + (d - 10) as char
  }

  /** The `count` lowest hex digits of `n`, highest first. */
  function HexDigits(n: nat, count: nat): (s: string)
    ensures |s| == count
  {
    if count == 0 then "" else HexDigits(n / 16, count - 1) + [HexChar(n % 16)]
  }

  function CanonicalField(v: Value): string {
    match v
    case Null => "N"
    case Text(s) => "T" + Digits(Utf8Length(s)) + ":" + s
    case Int(i) => "I" + IntText(i)
    case Real(bits) => "D" + HexDigits(bits, 16)
  }

  function CanonicalRow(values: seq<Value>): string {
    if values == [] then ""
    else if |values| == 1 then CanonicalField(values[0])
    else CanonicalField(values[0]) + "|" + CanonicalRow(values[1..])
  }

  // ----- a reader of the canonical text -----

  /** The length of the run of number characters at the start. */
  function NumberSpan(s: string): (n: nat)
    ensures n <= |s|
  {
    if s != "" && (IsDigit(s[0]) || s[0] == '-') then 1 + NumberSpan(s[1..]) else 0
  }

  /** How many characters take exactly `n` bytes, if any number does. */
  function TakeBytes(s: string, n: nat): (k: Option<nat>)
    ensures k.Some? ==> k.value <= |s|
  {
    if n == 0 then Some(0)
    else if s == "" || Utf8Size(s[0]) > n then None
    else match TakeBytes(s[1..], n - Utf8Size(s[0]))
         case None => None
         case Some(k) => Some(k + 1)
  }

  function HexValueOf(c: char): nat {
    if '0' <= c <= '9' then c as int - '0' as int else if 'a' <= c <= 'f' then c as int - 'a' as int + 10 else 0
  }

  function ParseHex(s: string): nat {
    if s == "" then 0 else ParseHex(s[..|s| - 1]) * 16 + HexValueOf(s[|s| - 1])
  }

  /** The field at the start, and how long it is. */
  function ReadCanonical(s: string): Option<(Value, nat)> {
    if s == "" then None
    else if s[0] == 'N' then Some((Null, 1))
    else if s[0] == 'I' then
      var n := NumberSpan(s[1..]);
      Some((Int(ParseInt(s[1..][..n])), 1 + n))
    else if s[0] == 'D' then
      if |s| < 17 || ParseHex(s[1..17]) >= 0x1_0000_0000_0000_0000 then None
      else Some((Real(ParseHex(s[1..17])), 17))
    else if s[0] == 'T' then
      var n := NumberSpan(s[1..]);
      if |s| <= 1 + n || s[1 + n] != ':' then None
      else match TakeBytes(s[2 + n..], ParseDigits(s[1..][..n]))
           case None => None
           case Some(k) => Some((Text(s[2 + n..][..k]), 2 + n + k))
    else None
  }

  lemma {:induction false} SpanOfNumber(t: string, rest: string)
    requires forall k :: 0 <= k < |t| ==> IsDigit(t[k]) || t[k] == '-'
    requires rest == "" || rest[0] == '|' || rest[0] == ':'
    ensures NumberSpan(t + rest) == |t|
  {
    if t == "" {
      assert t + rest == rest;
    } else {
      SpanOfNumber(t[1..], rest);
      assert (t + rest)[1..] == t[1..] + rest;
    }
  }

  lemma {:induction false} TakeItsBytes(s: string, rest: string)
    ensures TakeBytes(s + rest, Utf8Length(s)) == Some(|s|)
  {
    if s != "" {
      TakeItsBytes(s[1..], rest);
      assert (s + rest)[1..] == s[1..] + rest;
    }
  }

  lemma {:induction false} ParseHexInverts(n: nat, count: nat)
    ensures n < Pow16(count) ==> ParseHex(HexDigits(n, count)) == n
  {
    if count > 0 {
      ParseHexInverts(n / 16, count - 1);
      var s := HexDigits(n, count);
      assert s[..count - 1] == HexDigits(n / 16, count - 1);
      assert HexValueOf(HexChar(n % 16)) == n % 16;
    }
  }

  function Pow16(k: nat): nat { if k == 0 then 1 else 16 * Pow16(k - 1) }

  lemma Pow16Of16()
    ensures Pow16(16) == 0x1_0000_0000_0000_0000
  {
    assert Pow16(4) == 0x1_0000;
    assert Pow16(8) == 0x1_0000_0000;
    assert Pow16(12) == 0x1_0000_0000_0000;
  }

  /** The length prefix of a text ends at its colon. */
  lemma LengthReads(n: nat, body: string)
    ensures var t := "T" + Digits(n) + ":" + body;
            var d := |Digits(n)|;
            && NumberSpan(t[1..]) == d && t[1..][..d] == Digits(n) && |t| > 1 + d && t[1 + d] == ':'
            && t[2 + d..] == body
  {
    var t := "T" + Digits(n) + ":" + body;
    assert t[1..] == Digits(n) + (":" + body);
    SpanOfNumber(Digits(n), ":" + body);
  }

  lemma TextReads(s: string, rest: string)
    ensures ReadCanonical(CanonicalField(Text(s)) + rest) == Some((Text(s), |CanonicalField(Text(s))|))
  {
    var n := Utf8Length(s);
    var all := "T" + Digits(n) + ":" + (s + rest);
    assert CanonicalField(Text(s)) + rest == all;
    LengthReads(n, s + rest);
    ParseDigitsInverts(n);
    TakeItsBytes(s, rest);
    assert (s + rest)[..|s|] == s;
  }

  lemma IntTag(tail: string)
    ensures ReadCanonical("I" + tail) == Some((Int(ParseInt(tail[..NumberSpan(tail)])), 1 + NumberSpan(tail)))
  {
    assert ("I" + tail)[1..] == tail;
  }

  lemma IntReads(i: int, rest: string)
    requires rest == "" || rest[0] == '|'
    ensures ReadCanonical(CanonicalField(Int(i)) + rest) == Some((Int(i), |CanonicalField(Int(i))|))
  {
    var t := IntText(i);
    assert CanonicalField(Int(i)) + rest == "I" + (t + rest);
    IntTag(t + rest);
    IntTextChars(i);
    SpanOfNumber(t, rest);
    assert (t + rest)[..|t|] == t;
    ParseIntInverts(i);
  }

  lemma RealReads(bits: Bits, rest: string)
    ensures ReadCanonical(CanonicalField(Real(bits)) + rest) == Some((Real(bits), 17))
  {
    var all := CanonicalField(Real(bits)) + rest;
    assert all[1..17] == HexDigits(bits, 16);
    Pow16Of16();
    ParseHexInverts(bits, 16);
  }

  /** The reader finds a field whatever text, `|` and `:` included, comes inside or after it. */
  lemma FieldReadsBack(v: Value, rest: string)
    requires rest == "" || rest[0] == '|'
    ensures ReadCanonical(CanonicalField(v) + rest) == Some((v, |CanonicalField(v)|))
  {
    match v
    case Null =>
    case Text(s) => TextReads(s, rest);
    case Int(i) => IntReads(i, rest);
    case Real(bits) => RealReads(bits, rest);
  }

  lemma FieldIsNotEmpty(v: Value)
    ensures CanonicalField(v) != ""
  {
  }

  /** Equal texts begin with equal fields, and go on equally. */
  lemma SameFirstField(v: Value, w: Value, rest: string, rest': string)
    requires CanonicalField(v) + rest == CanonicalField(w) + rest'
    requires (rest == "" || rest[0] == '|') && (rest' == "" || rest'[0] == '|')
    ensures v == w && rest == rest'
  {
    FieldReadsBack(v, rest);
    FieldReadsBack(w, rest');
    assert rest == (CanonicalField(v) + rest)[|CanonicalField(v)|..];
    assert rest' == (CanonicalField(w) + rest')[|CanonicalField(w)|..];
  }

  /** What follows the first field of a row's text. */
  function After(values: seq<Value>): string
    requires values != []
  {
    if |values| == 1 then "" else "|" + CanonicalRow(values[1..])
  }

  lemma RowIsFirstAndRest(values: seq<Value>)
    requires values != []
    ensures CanonicalRow(values) == CanonicalField(values[0]) + After(values)
  {
  }

  /** The fields of a row's text, one after another, a `|` between two. */
  function ReadRow(s: string): Option<seq<Value>>
    decreases |s|
  {
    match ReadCanonical(s)
    case None => None
    case Some((v, n)) =>
      if n == |s| then Some([v])
      else if n == 0 || n > |s| || s[n] != '|' then None
      else match ReadRow(s[n + 1..])
           case None => None
           case Some(more) => Some([v] + more)
  }

  lemma LastFieldReads(v: Value)
    ensures ReadRow(CanonicalField(v)) == Some([v])
  {
    FieldIsNotEmpty(v);
    FieldReadsBack(v, "");
    assert CanonicalField(v) + "" == CanonicalField(v);
  }

  lemma ReadRowStep(text: string, v: Value, n: nat, more: string)
    requires ReadCanonical(text) == Some((v, n)) && 0 < n < |text| && text[n] == '|' && text[n + 1..] == more
    requires ReadRow(more).Some?
    ensures ReadRow(text) == Some([v] + ReadRow(more).value)
  {
  }

  lemma NextFieldReads(v: Value, more: string)
    requires ReadRow(more).Some?
    ensures ReadRow(CanonicalField(v) + ("|" + more)) == Some([v] + ReadRow(more).value)
  {
    var field := CanonicalField(v);
    FieldIsNotEmpty(v);
    FieldReadsBack(v, "|" + more);
    Behind(field, more);
    ReadRowStep(field + ("|" + more), v, |field|, more);
  }

  lemma Behind(a: string, b: string)
    ensures (a + ("|" + b))[|a|] == '|' && (a + ("|" + b))[|a| + 1..] == b
  {
  }

  /** A row's text reads as the row: its fields in order. */
  lemma {:induction false} RowReadsBack(values: seq<Value>)
    requires values != []
    ensures ReadRow(CanonicalRow(values)) == Some(values)
  {
    RowIsFirstAndRest(values);
    assert values == [values[0]] + values[1..];
    if |values| > 1 {
      RowReadsBack(values[1..]);
      NextFieldReads(values[0], CanonicalRow(values[1..]));
    } else {
      LastFieldReads(values[0]);
      assert values == [values[0]] && CanonicalRow(values) == CanonicalField(values[0]);
    }
  }

  /** The text of a row is uniquely decodable: equal texts mean equal rows. */
  lemma {:induction false} CanonicalRowInjective(a: seq<Value>, b: seq<Value>)
    requires CanonicalRow(a) == CanonicalRow(b)
    ensures a == b
  {
    if a == [] || b == [] {
      if a != [] {
        FieldIsNotEmpty(a[0]);
      }
      if b != [] {
        FieldIsNotEmpty(b[0]);
      }
    } else {
      RowIsFirstAndRest(a);
      RowIsFirstAndRest(b);
      SameFirstField(a[0], b[0], After(a), After(b));
      if |a| > 1 && |b| > 1 {
        assert After(a)[1..] == CanonicalRow(a[1..]) && After(b)[1..] == CanonicalRow(b[1..]);
        CanonicalRowInjective(a[1..], b[1..]);
      }
      assert a == [a[0]] + a[1..] && b == [b[0]] + b[1..];
    }
  }
}
