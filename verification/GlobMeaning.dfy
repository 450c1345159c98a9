/**
 * The regular expression that the compiler writes accepts exactly the paths that the glob matches
 * (scripts/lib/check_change.py).
 */
module GlobMeaning {
  import opened Wrappers
  import opened Glob

  // ---------- the text reads back ----------

  function PieceRe(piece: Piece): Re {
    match piece
    case Dirs => Opt(Cat(Star(Dot), Cat(Char('/'), Empty)))
    case Any => Star(Dot)
    case Segment => Star(NotSlash)
    case One => NotSlash
    case Literal(c) => Char(c)
  }

  function ReOf(pieces: seq<Piece>): Re {
    if pieces == [] then Cat(AtEnd, Empty) else Cat(PieceRe(pieces[0]), ReOf(pieces[1..]))
  }

  /** Nothing the compiler writes starts like a repetition or closes a group. */
  predicate Starts(t: string) {
    t != "" && t[0] != '*' && t[0] != '?' && t[0] != ')'
  }

  lemma PieceStarts(piece: Piece, rest: string)
    ensures Starts(PieceText(piece) + rest)
  {
  }

  lemma TextStarts(pieces: seq<Piece>)
    ensures Starts(Text(pieces))
  {
    if pieces != [] { PieceStarts(pieces[0], Text(pieces[1..])); }
  }

  lemma AtomOfDot(rest: string)
    ensures Atom("." + rest) == Some(Read(Dot, rest))
  {
    assert ("." + rest)[1..] == rest;
  }

  lemma StarOfDot(rest: string)
    ensures Item(".*" + rest) == Some(Read(Star(Dot), rest))
  {
    assert ".*" + rest == "." + ("*" + rest);
    AtomOfDot("*" + rest);
    assert ("*" + rest)[1..] == rest;
  }

  lemma AtomOfClass(rest: string)
    ensures Atom("[^/]" + rest) == Some(Read(NotSlash, rest))
  {
    assert ("[^/]" + rest)[4..] == rest;
  }

  lemma ItemOfClass(rest: string)
    ensures Starts(rest) ==> Item("[^/]" + rest) == Some(Read(NotSlash, rest))
    ensures Item("[^/]*" + rest) == Some(Read(Star(NotSlash), rest))
  {
    AtomOfClass(rest);
    assert "[^/]*" + rest == "[^/]" + ("*" + rest);
    AtomOfClass("*" + rest);
    assert ("*" + rest)[1..] == rest;
  }

  lemma ItemOfLiteral(c: char, rest: string)
    requires Starts(rest)
    ensures Item(Escaped(c) + rest) == Some(Read(Char(c), rest))
  {
    var t := Escaped(c) + rest;
    if Special(c) {
      assert t[2..] == rest;
    } else {
      assert t[0] == c && t[1..] == rest;
    }
  }

  lemma ItemsOfSlash(rest: string)
    ensures Items("/" + (")" + rest)) == Some(Read(Cat(Char('/'), Empty), ")" + rest))
  {
    var t := "/" + (")" + rest);
    assert t[1..] == ")" + rest;
    assert Atom(t) == Some(Read(Char('/'), ")" + rest));
    assert Item(t) == Some(Read(Char('/'), ")" + rest));
    assert Items(")" + rest) == Some(Read(Empty, ")" + rest));
  }

  lemma ItemsInGroup(rest: string)
    ensures Items(".*/)" + rest) == Some(Read(Cat(Star(Dot), Cat(Char('/'), Empty)), ")" + rest))
  {
    var more := "/" + (")" + rest);
    assert ".*/)" + rest == ".*" + more;
    StarOfDot(more);
    ItemsOfSlash(rest);
  }

  lemma ItemOfGroup(rest: string)
    ensures Item("(?:.*/)?" + rest) == Some(Read(Opt(Cat(Star(Dot), Cat(Char('/'), Empty))), rest))
  {
    var t := "(?:.*/)?" + rest;
    assert t[3..] == ".*/)" + ("?" + rest);
    ItemsInGroup("?" + rest);
    assert (")" + ("?" + rest))[1..] == "?" + rest;
    assert Atom(t) == Some(Read(Cat(Star(Dot), Cat(Char('/'), Empty)), "?" + rest));
    assert ("?" + rest)[1..] == rest;
  }

  lemma ItemOfPiece(piece: Piece, rest: string)
    requires Starts(rest)
    ensures Item(PieceText(piece) + rest) == Some(Read(PieceRe(piece), rest))
  {
    match piece
    case Dirs => ItemOfGroup(rest);
    case Any => StarOfDot(rest);
    case Segment => ItemOfClass(rest);
    case One => ItemOfClass(rest);
    case Literal(c) => ItemOfLiteral(c, rest);
  }

  lemma {:induction false} ItemsOfText(pieces: seq<Piece>)
    ensures Items(Text(pieces)) == Some(Read(ReOf(pieces), ""))
  {
    if pieces == [] {
      assert "\\Z"[2..] == "";
      assert Atom("\\Z") == Some(Read(AtEnd, ""));
      assert Items("") == Some(Read(Empty, ""));
    } else {
      TextStarts(pieces);
      TextStarts(pieces[1..]);
      ItemOfPiece(pieces[0], Text(pieces[1..]));
      ItemsOfText(pieces[1..]);
    }
  }

  // ---------- what the expression accepts ----------

  ghost predicate Fits(re: Re, s: string, i: nat) {
    exists j :: Spans(re, s, i, j)
  }

  predicate IsClass(re: Re) {
    re.Dot? || re.NotSlash?
  }

  /** The class takes the character at `k`. */
  predicate Takes(re: Re, s: string, k: nat) {
    k < |s| && (re.Dot? ==> s[k] != '\n') && (re.NotSlash? ==> s[k] != '/')
  }

  lemma {:induction false} TimesTakes(re: Re, s: string, i: nat, j: nat, n: nat)
    requires IsClass(re) && i <= j <= |s|
    ensures Times(re, s, i, j, n) <==> j == i + n && forall k :: i <= k < j ==> Takes(re, s, k)
    decreases n
  {
    if n > 0 && i < j {
      TimesTakes(re, s, i + 1, j, n - 1);
      assert forall k :: i <= k <= j && Spans(re, s, i, k) ==> k == i + 1;
      if j == i + n && forall k :: i <= k < j ==> Takes(re, s, k) {
        assert Takes(re, s, i) && Spans(re, s, i, i + 1);
      }
    }
  }

  lemma StarTakes(re: Re, s: string, i: nat, j: nat)
    requires IsClass(re) && i <= j <= |s|
    ensures Spans(Star(re), s, i, j) <==> forall k :: i <= k < j ==> Takes(re, s, k)
  {
    TimesTakes(re, s, i, j, j - i);
    if Spans(Star(re), s, i, j) {
      var n: nat :| Times(re, s, i, j, n);
      TimesTakes(re, s, i, j, n);
    }
  }

  lemma CatSplits(a: Re, b: Re, s: string, i: nat, j: nat) returns (k: nat)
    requires Spans(Cat(a, b), s, i, j)
    ensures i <= k <= j && Spans(a, s, i, k) && Spans(b, s, k, j)
  {
    k :| i <= k <= j && Spans(a, s, i, k) && Spans(b, s, k, j);
  }

  lemma CatFits(a: Re, b: Re, s: string, i: nat)
    ensures Fits(Cat(a, b), s, i) <==> exists k :: i <= k <= |s| && Spans(a, s, i, k) && Fits(b, s, k)
  {
    if Fits(Cat(a, b), s, i) {
      var j: nat :| Spans(Cat(a, b), s, i, j);
      var k := CatSplits(a, b, s, i, j);
      assert Fits(b, s, k);
    }
    if k :| i <= k <= |s| && Spans(a, s, i, k) && Fits(b, s, k) {
      var j: nat :| Spans(b, s, k, j);
      assert Spans(Cat(a, b), s, i, j);
    }
  }

  /** A repeated class, and then the rest: now, or after one more character. */
  lemma StarStep(re: Re, rest: Re, s: string, i: nat)
    requires IsClass(re) && i <= |s|
    ensures Fits(Cat(Star(re), rest), s, i)
      <==> Fits(rest, s, i) || (Takes(re, s, i) && Fits(Cat(Star(re), rest), s, i + 1))
  {
    CatFits(Star(re), rest, s, i);
    CatFits(Star(re), rest, s, i + 1);
    StarTakes(re, s, i, i);
    if k :| i <= k <= |s| && Spans(Star(re), s, i, k) && Fits(rest, s, k) {
      StarTakes(re, s, i, k);
      if k > i { StarTakes(re, s, i + 1, k); }
    }
    if Takes(re, s, i) && Fits(Cat(Star(re), rest), s, i + 1) {
      var k :| i + 1 <= k <= |s| && Spans(Star(re), s, i + 1, k) && Fits(rest, s, k);
      StarTakes(re, s, i + 1, k);
      StarTakes(re, s, i, k);
    }
  }

  lemma CharStep(re: Re, rest: Re, s: string, i: nat)
    requires re.Char? || re.NotSlash?
    ensures Fits(Cat(re, rest), s, i)
      <==> i < |s| && (if re.Char? then s[i] == re.c else s[i] != '/') && Fits(rest, s, i + 1)
  {
    CatFits(re, rest, s, i);
    if i < |s| && (if re.Char? then s[i] == re.c else s[i] != '/') { assert Spans(re, s, i, i + 1); }
  }

  lemma DirsTaken(rest: Re, s: string, i: nat, k: nat)
    requires i <= k <= |s| && Spans(PieceRe(Dirs), s, i, k) && Fits(rest, s, k)
    ensures Fits(rest, s, i) || Fits(Cat(Star(Dot), Cat(Char('/'), rest)), s, i)
  {
    if k != i {
      var m := CatSplits(Star(Dot), Cat(Char('/'), Empty), s, i, k);
      var n := CatSplits(Char('/'), Empty, s, m, k);
      CharStep(Char('/'), rest, s, m);
      CatFits(Star(Dot), Cat(Char('/'), rest), s, i);
    }
  }

  lemma DirsGiven(rest: Re, s: string, i: nat, m: nat)
    requires i <= m <= |s| && Spans(Star(Dot), s, i, m) && Fits(Cat(Char('/'), rest), s, m)
    ensures m < |s| && Spans(PieceRe(Dirs), s, i, m + 1) && Fits(rest, s, m + 1)
  {
    var slash := Cat(Char('/'), Empty);
    CharStep(Char('/'), rest, s, m);
    assert Spans(Char('/'), s, m, m + 1) && Spans(Empty, s, m + 1, m + 1);
    assert Spans(slash, s, m, m + 1);
    assert Spans(Cat(Star(Dot), slash), s, i, m + 1);
  }

  /** The directories group, and then the rest: skipped, or as dots, a slash and the rest. */
  lemma DirsStep(rest: Re, s: string, i: nat)
    requires i <= |s|
    ensures Fits(Cat(PieceRe(Dirs), rest), s, i)
      <==> Fits(rest, s, i) || Fits(Cat(Star(Dot), Cat(Char('/'), rest)), s, i)
  {
    CatFits(PieceRe(Dirs), rest, s, i);
    CatFits(Star(Dot), Cat(Char('/'), rest), s, i);
    if k :| i <= k <= |s| && Spans(PieceRe(Dirs), s, i, k) && Fits(rest, s, k) {
      DirsTaken(rest, s, i, k);
    }
    if Fits(rest, s, i) { assert Spans(PieceRe(Dirs), s, i, i); }
    if m :| i <= m <= |s| && Spans(Star(Dot), s, i, m) && Fits(Cat(Char('/'), rest), s, m) {
      DirsGiven(rest, s, i, m);
    }
  }

  lemma EndFits(s: string, i: nat)
    ensures Fits(Cat(AtEnd, Empty), s, i) <==> i == |s|
  {
    CatFits(AtEnd, Empty, s, i);
    if i == |s| { assert Spans(Empty, s, i, i) && Fits(Empty, s, i) && Spans(AtEnd, s, i, i); }
  }

  // ---------- the theorem ----------

  lemma {:induction false} MeansFrom(pattern: string, s: string, i: nat)
    requires i <= |s|
    ensures Fits(ReOf(Pieces(pattern)), s, i) <==> MatchesFrom(pattern, s, i)
    decreases |pattern|, |s| - i
  {
    var pieces := Pieces(pattern);
    if pattern == "" {
      EndFits(s, i);
    } else {
      var n := if "**/" <= pattern then 3 else if "**" <= pattern then 2 else 1;
      var rest := ReOf(Pieces(pattern[n..]));
      assert pieces[1..] == Pieces(pattern[n..]);
      assert ReOf(pieces) == Cat(PieceRe(pieces[0]), rest);
      if "**/" <= pattern {
        MeansFrom(pattern[3..], s, i);
        BelowMeans(pattern[3..], s, i);
        DirsStep(rest, s, i);
      } else if "**" <= pattern {
        MeansFrom(pattern[2..], s, i);
        if i < |s| { MeansFrom(pattern, s, i + 1); }
        StarStep(Dot, rest, s, i);
      } else if pattern[0] == '*' {
        MeansFrom(pattern[1..], s, i);
        if i < |s| { MeansFrom(pattern, s, i + 1); }
        StarStep(NotSlash, rest, s, i);
      } else {
        if i < |s| { MeansFrom(pattern[1..], s, i + 1); }
        CharStep(PieceRe(pieces[0]), rest, s, i);
      }
    }
  }

  lemma {:induction false} BelowMeans(pattern: string, s: string, i: nat)
    requires i <= |s|
    ensures Fits(Cat(Star(Dot), Cat(Char('/'), ReOf(Pieces(pattern)))), s, i) <==> BelowFrom(pattern, s, i)
    decreases |pattern| + 1, |s| - i
  {
    var rest := ReOf(Pieces(pattern));
    StarStep(Dot, Cat(Char('/'), rest), s, i);
    CharStep(Char('/'), rest, s, i);
    if i < |s| {
      MeansFrom(pattern, s, i + 1);
      BelowMeans(pattern, s, i + 1);
    }
  }

  /** Compiling keeps the meaning: for every glob and path, the text the loop builds is a regular
    * expression, and it accepts the path exactly when the glob matches it. */
  lemma CompiledMeansGlob(pattern: string, path: string)
    ensures var re := Compile(Text(Pieces(pattern)));
      re.Some? && (Accepts(re.value, path) <==> Matches(pattern, path))
  {
    ItemsOfText(Pieces(pattern));
    MeansFrom(pattern, path, 0);
    assert Accepts(ReOf(Pieces(pattern)), path) <==> Fits(ReOf(Pieces(pattern)), path, 0);
  }

  // ---------- what globs can cross ----------

  function Slashes(s: string): nat {
    if s == "" then 0 else (if s[0] == '/' then 1 else 0) + Slashes(s[1..])
  }

  predicate HasDoubleStar(pattern: string) {
    "**" <= pattern || (pattern != "" && HasDoubleStar(pattern[1..]))
  }

  lemma {:induction false} SlashesFrom(pattern: string, path: string, i: nat)
    requires i <= |path| && !HasDoubleStar(pattern) && MatchesFrom(pattern, path, i)
    ensures Slashes(pattern) == Slashes(path[i..])
    decreases |pattern|, |path| - i
  {
    if pattern != "" {
      if i < |path| { assert path[i..][1..] == path[i + 1..]; }
      if pattern[0] == '*' {
        if MatchesFrom(pattern[1..], path, i) {
          SlashesFrom(pattern[1..], path, i);
        } else {
          SlashesFrom(pattern, path, i + 1);
        }
      } else {
        SlashesFrom(pattern[1..], path, i + 1);
      }
    }
  }

  /** Without `**` a glob only matches paths of its own depth. */
  lemma NoDoubleStarKeepsDepth(pattern: string, path: string)
    requires !HasDoubleStar(pattern) && Matches(pattern, path)
    ensures Slashes(pattern) == Slashes(path)
  {
    SlashesFrom(pattern, path, 0);
    assert path[0..] == path;
  }

  /** A trailing `**` matches exactly the rests without a newline. */
  lemma {:induction false} DoubleStarTakesExactly(path: string, i: nat)
    requires i <= |path|
    ensures MatchesFrom("**", path, i) <==> forall k :: i <= k < |path| ==> path[k] != '\n'
    decreases |path| - i
  {
    assert "**"[2..] == "";
    if i < |path| { DoubleStarTakesExactly(path, i + 1); }
  }

  /** No newline stands from `i` up to `k`. */
  predicate SameLine(path: string, i: nat, k: nat)
    requires i <= k <= |path|
  {
    forall m :: i <= m < k ==> path[m] != '\n'
  }

  /** `**` takes anything up to the next newline, and then the rest of the glob matches. */
  lemma {:induction false} AnyTakesExactly(rest: string, path: string, i: nat)
    requires i <= |path| && !("/" <= rest)
    ensures MatchesFrom("**" + rest, path, i)
      <==> exists k :: i <= k <= |path| && SameLine(path, i, k) && MatchesFrom(rest, path, k)
    decreases |path| - i
  {
    var pattern := "**" + rest;
    assert pattern[2..] == rest;
    assert rest != "" ==> pattern[2] == rest[0];
    assert !("**/" <= pattern);
    if MatchesFrom(rest, path, i) { assert SameLine(path, i, i); }
    if i < |path| && path[i] != '\n' {
      AnyTakesExactly(rest, path, i + 1);
      if k :| i + 1 <= k <= |path| && SameLine(path, i + 1, k) && MatchesFrom(rest, path, k) {
        assert SameLine(path, i, k);
      }
      if k :| i < k <= |path| && SameLine(path, i, k) && MatchesFrom(rest, path, k) {
        assert SameLine(path, i + 1, k);
      }
    }
  }

  lemma {:induction false} BelowTakesExactly(rest: string, path: string, i: nat)
    requires i <= |path|
    ensures BelowFrom(rest, path, i)
      <==> exists k :: i <= k < |path| && path[k] == '/' && SameLine(path, i, k) && MatchesFrom(rest, path, k + 1)
    decreases |path| - i
  {
    if i < |path| && path[i] != '\n' {
      BelowTakesExactly(rest, path, i + 1);
      if path[i] == '/' && MatchesFrom(rest, path, i + 1) { assert SameLine(path, i, i); }
      if k :| i + 1 <= k < |path| && path[k] == '/' && SameLine(path, i + 1, k) && MatchesFrom(rest, path, k + 1) {
        assert SameLine(path, i, k);
      }
      if k :| i < k < |path| && path[k] == '/' && SameLine(path, i, k) && MatchesFrom(rest, path, k + 1) {
        assert SameLine(path, i + 1, k);
      }
    }
  }

  /** A double star before a slash takes nothing, or anything up to a slash before the next newline, and
    * then the rest of the glob matches. */
  lemma DirsTakeExactly(rest: string, path: string, i: nat)
    requires i <= |path|
    ensures MatchesFrom("**/" + rest, path, i)
      <==> MatchesFrom(rest, path, i)
           || exists k :: i <= k < |path| && path[k] == '/' && SameLine(path, i, k) && MatchesFrom(rest, path, k + 1)
  {
    assert ("**/" + rest)[3..] == rest;
    BelowTakesExactly(rest, path, i);
  }
}
