/**
 * Git-style globs compiled to regular expressions (scripts/lib/check_change.py): the text that the
 * loop builds, what that text means as a regular expression, and a matcher that reads the glob
 * directly.
 */
module Glob {
  import opened Wrappers

  // ---------- the compiler ----------

  /** What the glob's characters are read as, left to right. */
  datatype Piece = Dirs | Any | Segment | One | Literal(c: char)

  function Pieces(pattern: string): seq<Piece> {
    if pattern == "" then []
    else if "**/" <= pattern then [Dirs] + Pieces(pattern[3..])
    else if "**" <= pattern then [Any] + Pieces(pattern[2..])
    else if pattern[0] == '*' then [Segment] + Pieces(pattern[1..])
    else if pattern[0] == '?' then [One] + Pieces(pattern[1..])
    else [Literal(pattern[0])] + Pieces(pattern[1..])
  }

  /** The characters that `re.escape` puts a backslash before. */
  predicate Special(c: char) {
    || c == '(' || c == ')' || c == '[' || c == ']' || c == '{' || c == '}'
    || c == '?' || c == '*' || c == '+' || c == '-' || c == '|' || c == '^' || c == '$' || c == '\\'
    || c == '.' || c == '&' || c == '~' || c == '#'
    || c == ' ' || c == '\t' || c == '\n' || c == '\r' || c == '\U{0B}' || c == '\U{0C}'
  }

  function Escaped(c: char): string {
    if Special(c) then ['\\', c] else [c]
  }

  function PieceText(piece: Piece): string {
    match piece
    case Dirs => "(?:.*/)?"
    case Any => ".*"
    case Segment => "[^/]*"
    case One => "[^/]"
    case Literal(c) => Escaped(c)
  }

  function Text(pieces: seq<Piece>): string {
    if pieces == [] then "\\Z" else PieceText(pieces[0]) + Text(pieces[1..])
  }

  lemma FirstPiece(pattern: string, piece: Piece, n: nat)
    requires n <= |pattern| && Pieces(pattern) == [piece] + Pieces(pattern[n..])
    ensures Text(Pieces(pattern)) == PieceText(piece) + Text(Pieces(pattern[n..]))
  {
    assert Pieces(pattern)[1..] == Pieces(pattern[n..]);
  }

  lemma Assoc(a: string, b: string, c: string)
    ensures (a + b) + c == a + (b + c)
  {
  }

  method GlobRe(pattern: string) returns (text: string)
    ensures text == Text(Pieces(pattern))
  {
    text := "";
    var i := 0;
    assert pattern[0..] == pattern;
    while i < |pattern|
      invariant i <= |pattern|
      invariant text + Text(Pieces(pattern[i..])) == Text(Pieces(pattern))
      decreases |pattern| - i
    {
      ghost var rest := pattern[i..];
      ghost var before := text;
      var piece, n;
      if i + 3 <= |pattern| && pattern[i..i + 3] == "**/" {
        piece, n := Dirs, 3;
      } else if i + 2 <= |pattern| && pattern[i..i + 2] == "**" {
        piece, n := Any, 2;
      } else if pattern[i] == '*' {
        piece, n := Segment, 1;
      } else if pattern[i] == '?' {
        piece, n := One, 1;
      } else {
        piece, n := Literal(pattern[i]), 1;
      }
      assert "**/" <= rest <==> i + 3 <= |pattern| && pattern[i..i + 3] == "**/";
      assert "**" <= rest <==> i + 2 <= |pattern| && pattern[i..i + 2] == "**";
      FirstPiece(rest, piece, n);
      assert rest[n..] == pattern[i + n..];
      Assoc(before, PieceText(piece), Text(Pieces(rest[n..])));
      text, i := text + PieceText(piece), i + n;
    }
    text := text + "\\Z";
  }

  // ---------- regular expressions ----------

  datatype Re =
    | Empty
    | Char(c: char)
    | Dot
    | NotSlash
    | AtEnd
    | Cat(first: Re, second: Re)
    | Opt(body: Re)
    | Star(body: Re)

  datatype Read = Read(re: Re, rest: string)

  /** One atom at the head of the text: an escape, the end anchor, any character but a newline, the
    * class of all but a slash, a group, or a plain character. */
  function Atom(t: string): (r: Option<Read>)
    ensures r.Some? ==> |r.value.rest| < |t|
    decreases |t|, 0
  {
    if t == "" then None
    else if t[0] == '\\' then
      if |t| == 1 then None
      else if t[1] == 'Z' then Some(Read(AtEnd, t[2..]))
      else if Special(t[1]) then Some(Read(Char(t[1]), t[2..]))
      else None
    else if t[0] == '.' then Some(Read(Dot, t[1..]))
    else if "[^/]" <= t then Some(Read(NotSlash, t[4..]))
    else if "(?:" <= t then
      var inner := Items(t[3..]);
      if inner.Some? && inner.value.rest != "" && inner.value.rest[0] == ')'
      then Some(Read(inner.value.re, inner.value.rest[1..])) else None
    else if Special(t[0]) then None
    else Some(Read(Char(t[0]), t[1..]))
  }

  /** An atom, repeated, optional or once. */
  function Item(t: string): (r: Option<Read>)
    ensures r.Some? ==> |r.value.rest| < |t|
    decreases |t|, 1
  {
    var atom := Atom(t);
    if atom.None? then None
    else if atom.value.rest != "" && atom.value.rest[0] == '*'
    then Some(Read(Star(atom.value.re), atom.value.rest[1..]))
    else if atom.value.rest != "" && atom.value.rest[0] == '?'
    then Some(Read(Opt(atom.value.re), atom.value.rest[1..]))
    else atom
  }

  /** Items in a row, up to the end or a closing parenthesis. */
  function Items(t: string): (r: Option<Read>)
    ensures r.Some? ==> |r.value.rest| <= |t|
    decreases |t|, 2
  {
    if t == "" || t[0] == ')' then Some(Read(Empty, t))
    else
      var item := Item(t);
      if item.None? then None
      else
        var more := Items(item.value.rest);
        if more.None? then None
        else Some(Read(Cat(item.value.re, more.value.re), more.value.rest))
  }

  /** The text as a regular expression. */
  function Compile(text: string): Option<Re> {
    var r := Items(text);
    if r.Some? && r.value.rest == "" then Some(r.value.re) else None
  }

  /** `re` matches `s` from `i` to `j`. */
  ghost predicate Spans(re: Re, s: string, i: nat, j: nat)
    decreases re, 0
  {
    i <= j <= |s| &&
    match re
    case Empty => i == j
    case Char(c) => j == i + 1 && s[i] == c
    case Dot => j == i + 1 && s[i] != '\n'
    case NotSlash => j == i + 1 && s[i] != '/'
    case AtEnd => i == j == |s|
    case Cat(a, b) => exists k :: i <= k <= j && Spans(a, s, i, k) && Spans(b, s, k, j)
    case Opt(a) => i == j || Spans(a, s, i, j)
    case Star(a) => exists n: nat :: Times(a, s, i, j, n)
  }

  ghost predicate Times(re: Re, s: string, i: nat, j: nat, n: nat)
    decreases re, 1 + n
  {
    i <= j <= |s| &&
    if n == 0 then i == j else exists k :: i <= k <= j && Spans(re, s, i, k) && Times(re, s, k, j, n - 1)
  }

  /** `re.match`: a match that starts at the first character. */
  ghost predicate Accepts(re: Re, s: string) {
    exists j :: Spans(re, s, 0, j)
  }

  // ---------- the glob, read directly ----------

  /** Whether the glob matches the rest of the path from `i`, one character at a time. `**` does not
    * cross a newline, as `.` does not; `*` and `?` may. */
  predicate MatchesFrom(pattern: string, path: string, i: nat)
    requires i <= |path|
    decreases |pattern|, |path| - i
  {
    if pattern == "" then i == |path|
    else if "**/" <= pattern then
      MatchesFrom(pattern[3..], path, i) || BelowFrom(pattern[3..], path, i)
    else if "**" <= pattern then
      MatchesFrom(pattern[2..], path, i)
      || (i < |path| && path[i] != '\n' && MatchesFrom(pattern, path, i + 1))
    else if pattern[0] == '*' then
      MatchesFrom(pattern[1..], path, i)
      || (i < |path| && path[i] != '/' && MatchesFrom(pattern, path, i + 1))
    else if pattern[0] == '?' then
      i < |path| && path[i] != '/' && MatchesFrom(pattern[1..], path, i + 1)
    else
      i < |path| && path[i] == pattern[0] && MatchesFrom(pattern[1..], path, i + 1)
  }

  /** Whether the glob matches what follows one of the slashes ahead. */
  predicate BelowFrom(pattern: string, path: string, i: nat)
    requires i <= |path|
    decreases |pattern| + 1, |path| - i
  {
    i < |path| && path[i] != '\n'
    && ((path[i] == '/' && MatchesFrom(pattern, path, i + 1)) || BelowFrom(pattern, path, i + 1))
  }

  predicate Matches(pattern: string, path: string) {
    MatchesFrom(pattern, path, 0)
  }
}
