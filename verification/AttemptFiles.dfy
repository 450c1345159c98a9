/**
 * The files of one attempt in a job's shared directory (media-worker/src/output.ts): what each
 * attempt names and what it removes.
 */
module AttemptFiles {
  import opened Wrappers
  import opened Decimal

  const MAX_SAFE_INTEGER := 0x1F_FFFF_FFFF_FFFF

  predicate IsAlnum(c: char) {
    'A' <= c <= 'Z' || 'a' <= c <= 'z' || '0' <= c <= '9'
  }

  predicate Alnum(text: string) {
    text != "" && forall i :: 0 <= i < |text| ==> IsAlnum(text[i])
  }

  /** A plain name: a letter, digit or `_`, then at most 127 more of those, dots and dashes. */
  predicate PlainName(name: string) {
    && 1 <= |name| <= 128 && (IsAlnum(name[0]) || name[0] == '_')
    && forall i :: 0 <= i < |name| ==> IsAlnum(name[i]) || name[i] == '_' || name[i] == '.' || name[i] == '-'
  }

  predicate HasTwoDots(name: string) {
    exists i :: 0 < i < |name| && name[i - 1] == '.' && name[i] == '.'
  }

  /** An attempt is known by `-a` and its number. */
  function Mark(attempt: nat): string {
    "-a" + Digits(attempt)
  }

  function Text(base: string, attempt: nat, ext: string): string {
    base + Mark(attempt) + "." + ext
  }

  function AttemptName(base: string, attempt: nat, ext: string): Option<string> {
    var name := Text(base, attempt, ext);
    if attempt <= MAX_SAFE_INTEGER && PlainName(name) && !HasTwoDots(name) then Some(name) else None
  }

  function ScratchDir(attempt: nat): string {
    "a" + Digits(attempt) + ".tmp"
  }

  /** The removal's pattern: somewhere the attempt's mark, a dot, and letters and digits to the end. */
  ghost predicate Marked(name: string, attempt: nat) {
    exists head, tail :: name == head + Mark(attempt) + "." + tail && Alnum(tail)
  }

  /** The last dot before `k`, or the length of the name. */
  function DotBefore(name: string, k: nat): (n: nat)
    requires k <= |name|
    ensures n < k || n == |name|
    ensures n < k ==> name[n] == '.' && forall i :: n < i < k ==> name[i] != '.'
    ensures n == |name| ==> forall i :: 0 <= i < k ==> name[i] != '.'
  {
    if k == 0 then |name| else if name[k - 1] == '.' then k - 1 else DotBefore(name, k - 1)
  }

  /** The last dot of a name, or its length. */
  function LastDot(name: string): (n: nat)
    ensures n <= |name|
    ensures n < |name| ==> name[n] == '.' && forall i :: n < i < |name| ==> name[i] != '.'
    ensures n == |name| ==> forall i :: 0 <= i < |name| ==> name[i] != '.'
  {
    DotBefore(name, |name|)
  }

  predicate EndsWith(text: string, suffix: string) {
    |suffix| <= |text| && text[|text| - |suffix|..] == suffix
  }

  /** The pattern, decided at the last dot. */
  predicate IsMine(name: string, attempt: nat) {
    var n := LastDot(name);
    n < |name| && Alnum(name[n + 1..]) && EndsWith(name[..n], Mark(attempt))
  }

  predicate Removes(name: string, attempt: nat) {
    name == ScratchDir(attempt) || IsMine(name, attempt)
  }

  /** A job's shared directory. */
  class JobDir {
    var names: set<string>

    constructor (entries: set<string>)
      ensures names == entries
    {
      names := entries;
    }

    /** Goes through a listing of the directory and removes what is this attempt's. */
    method RemoveAttemptFiles(attempt: nat, listing: seq<string>)
      requires forall name <- names :: name in listing
      modifies this
      ensures names == set name | name in old(names) && !Removes(name, attempt)
    {
      var i := 0;
      while i < |listing|
        invariant i <= |listing|
        invariant names == set name | name in old(names) && !(name in listing[..i] && Removes(name, attempt))
      {
        if listing[i] == ScratchDir(attempt) || IsMine(listing[i], attempt) {
          names := names - {listing[i]};
        }
        assert listing[..i + 1] == listing[..i] + [listing[i]];
        i := i + 1;
      }
      assert listing[..i] == listing;
    }
  }

  // ---------- the name check ----------

  /** A letter of either case or a digit, by its code. */
  predicate Letter(c: char) { 65 <= c as int <= 90 || 97 <= c as int <= 122 || 48 <= c as int <= 57 }

  /** The name may be made: a safe number, at most 128 letters, digits, `_`, dots and dashes, with no dot or dash
    * in front and no two dots together. */
  ghost predicate MayBeMade(attempt: nat, name: string) {
    && attempt <= 9_007_199_254_740_991 && 0 < |name| <= 128 && name[0] != '.' && name[0] != '-'
    && (forall i :: 0 <= i < |name| ==> Letter(name[i]) || name[i] == '_' || name[i] == '.' || name[i] == '-')
    && (forall i, j :: 0 <= i < j < |name| && j == i + 1 ==> !(name[i] == '.' && name[j] == '.'))
  }

  lemma PlainExactly(name: string)
    ensures PlainName(name)
       <==> 0 < |name| <= 128 && name[0] != '.' && name[0] != '-'
            && forall i :: 0 <= i < |name| ==> Letter(name[i]) || name[i] == '_' || name[i] == '.' || name[i] == '-'
  {
  }

  lemma TwoDotsExactly(name: string)
    ensures HasTwoDots(name) <==> exists i, j :: 0 <= i < j < |name| && j == i + 1 && name[i] == '.' && name[j] == '.'
  {
    if HasTwoDots(name) {
      var j :| 0 < j < |name| && name[j - 1] == '.' && name[j] == '.';
      var i := j - 1;
      assert name[i] == '.' && name[j] == '.';
    }
    if i, j :| 0 <= i < j < |name| && j == i + 1 && name[i] == '.' && name[j] == '.' {
      assert name[j - 1] == '.' && name[j] == '.';
    }
  }

  /** The name of an output is the base, the mark, a dot and the extension, if that may be made. */
  lemma NameExactly(base: string, attempt: nat, ext: string)
    ensures var name := base + "-a" + Digits(attempt) + "." + ext;
      AttemptName(base, attempt, ext) == if MayBeMade(attempt, name) then Some(name) else None
  {
    var name := base + "-a" + Digits(attempt) + "." + ext;
    assert Text(base, attempt, ext) == name;
    PlainExactly(name);
    TwoDotsExactly(name);
  }

  // ---------- the pattern ----------

  lemma LastDotAt(head: string, tail: string)
    requires '.' !in tail
    ensures LastDot(head + "." + tail) == |head|
  {
    var name := head + "." + tail;
    assert name[|head|] == '.';
    forall i | |head| < i < |name| ensures name[i] != '.' {
      assert tail[i - |head| - 1] in tail;
      assert name[i] == tail[i - |head| - 1];
    }
    DotIsLast(name, |head|);
  }

  lemma DotIsLast(name: string, n: nat)
    requires n < |name| && name[n] == '.' && forall i :: n < i < |name| ==> name[i] != '.'
    ensures LastDot(name) == n
  {
  }

  lemma AlnumHasNoDot(tail: string)
    requires Alnum(tail)
    ensures '.' !in tail && '-' !in tail
  {
  }

  /** Deciding at the last dot is the pattern. */
  lemma IsMineIsMarked(name: string, attempt: nat)
    ensures IsMine(name, attempt) <==> Marked(name, attempt)
  {
    if IsMine(name, attempt) {
      var n := LastDot(name);
      var head := name[..n - |Mark(attempt)|];
      assert name == head + Mark(attempt) + "." + name[n + 1..];
    }
    if Marked(name, attempt) {
      var head, tail :| name == head + Mark(attempt) + "." + tail && Alnum(tail);
      MarkedIsMine(head, attempt, tail);
    }
  }

  lemma MarkedIsMine(head: string, attempt: nat, tail: string)
    requires Alnum(tail)
    ensures IsMine(head + Mark(attempt) + "." + tail, attempt)
  {
    var front := head + Mark(attempt);
    var name := front + "." + tail;
    AlnumHasNoDot(tail);
    LastDotAt(front, tail);
    assert name[..|front|] == front;
    assert name[|front| + 1..] == tail;
  }

  // ---------- whose files they are ----------

  lemma EndingChars(text: string, suffix: string)
    requires EndsWith(text, suffix)
    ensures forall k :: 0 <= k < |suffix| ==> text[|text| - |suffix| + k] == suffix[k]
    ensures forall m :: |text| - |suffix| <= m < |text| ==> text[m] == suffix[m - (|text| - |suffix|)]
  {
    var at := |text| - |suffix|;
    assert forall k :: 0 <= k < |suffix| ==> text[at..][k] == text[at + k];
  }

  lemma MarkHasOneDash(n: nat)
    ensures Mark(n)[0] == '-' && Mark(n)[1] == 'a' && Mark(n)[2..] == Digits(n)
    ensures forall k :: 0 < k < |Mark(n)| ==> Mark(n)[k] != '-'
  {
  }

  /** A mark ends in another exactly when the numbers are equal: its dash is the only one in it. */
  lemma MarkEndsExactly(base: string, i: nat, j: nat)
    ensures EndsWith(base + Mark(i), Mark(j)) <==> i == j
  {
    var text := base + Mark(i);
    MarkHasOneDash(i);
    MarkHasOneDash(j);
    assert text[|base|] == '-';
    assert text[|text| - |Mark(i)|..] == Mark(i);
    assert forall m :: |base| < m < |text| ==> text[m] == Mark(i)[m - |base|];
    if EndsWith(text, Mark(j)) {
      EndingChars(text, Mark(j));
      assert |Mark(j)| == |Mark(i)|;
      DigitsInjective(i, j);
    }
  }

  /** The scratch directory of one attempt is no other's, and no output's pattern takes it. */
  lemma ScratchExactly(i: nat, j: nat)
    ensures Removes(ScratchDir(i), j) <==> i == j
  {
    ScratchIsNotMine(i, j);
    if ScratchDir(i) == ScratchDir(j) {
      assert |ScratchDir(i)| == |Digits(i)| + 5 && |ScratchDir(j)| == |Digits(j)| + 5;
      assert Digits(i) == ScratchDir(i)[1..|Digits(i)| + 1];
      assert Digits(j) == ScratchDir(j)[1..|Digits(i)| + 1];
      DigitsInjective(i, j);
    }
  }

  lemma ScratchIsNotMine(i: nat, j: nat)
    ensures !IsMine(ScratchDir(i), j)
  {
    var front := "a" + Digits(i);
    assert ScratchDir(i) == front + "." + "tmp";
    LastDotAt(front, "tmp");
    assert ScratchDir(i)[..|front|] == front;
    MarkHasOneDash(j);
    assert forall k :: 0 <= k < |front| ==> front[k] != '-';
    if EndsWith(front, Mark(j)) { EndingChars(front, Mark(j)); }
  }

  lemma OutputIsNoScratch(base: string, i: nat, ext: string, j: nat)
    requires PlainName(Text(base, i, ext))
    ensures Text(base, i, ext) != ScratchDir(j)
  {
    assert base == "" ==> Text(base, i, ext)[0] == '-';
    assert Text(base, i, ext)[|base|] == Mark(i)[0] == '-';
    assert forall k :: 0 <= k < |ScratchDir(j)| ==> ScratchDir(j)[k] != '-';
  }

  /** With an extension of letters and digits, as every caller's is, attempt `j` removes a file of
    * attempt `i` exactly when they are the same attempt. */
  lemma RemovesOwnExactly(base: string, i: nat, ext: string, j: nat)
    requires AttemptName(base, i, ext).Some? && Alnum(ext)
    ensures Removes(AttemptName(base, i, ext).value, j) <==> i == j
  {
    OutputIsNoScratch(base, i, ext, j);
    AlnumHasNoDot(ext);
    PlainExtension(base, i, ext, j);
  }

  /** The extension itself ends like another attempt's file. */
  ghost predicate Disguised(ext: string, j: nat) {
    exists head, tail :: ext == head + Mark(j) + "." + tail && Alnum(tail)
  }

  /** With any extension the name check lets through: its own attempt when the extension is letters
    * and digits, and whichever attempt the extension is disguised as. */
  lemma RemovesExactly(base: string, i: nat, ext: string, j: nat)
    requires AttemptName(base, i, ext).Some?
    ensures Removes(AttemptName(base, i, ext).value, j) <==> (i == j && Alnum(ext)) || Disguised(ext, j)
  {
    OutputIsNoScratch(base, i, ext, j);
    IsMineIsMarked(ext, j);
    if '.' !in ext {
      PlainExtension(base, i, ext, j);
      assert LastDot(ext) == |ext|;
    } else {
      TwoPartExtension(base, i, ext, j);
    }
  }

  lemma PlainExtension(base: string, i: nat, ext: string, j: nat)
    requires '.' !in ext
    ensures IsMine(Text(base, i, ext), j) <==> i == j && Alnum(ext)
  {
    var name, front := Text(base, i, ext), base + Mark(i);
    LastDotAt(front, ext);
    assert name[..|front|] == front && name[|front| + 1..] == ext;
    MarkEndsExactly(base, i, j);
  }

  lemma TwoPartExtension(base: string, i: nat, ext: string, j: nat)
    requires '.' in ext
    ensures IsMine(Text(base, i, ext), j) <==> IsMine(ext, j)
  {
    var n := LastDot(ext);
    var name, front := Text(base, i, ext), base + Mark(i) + "." + ext[..n];
    assert name == front + "." + ext[n + 1..];
    LastDotAt(front, ext[n + 1..]);
    assert name[..|front|] == front && name[|front| + 1..] == ext[n + 1..];
    LongerEnding(base + Mark(i), ext[..n], Mark(j));
  }

  /** A suffix without a dot lies after the dot. */
  lemma LongerEnding(front: string, back: string, suffix: string)
    requires '.' !in suffix
    ensures EndsWith(front + "." + back, suffix) <==> EndsWith(back, suffix)
  {
    var text := front + "." + back;
    assert text[|front|] == '.';
    if EndsWith(text, suffix) { EndingChars(text, suffix); }
    if |suffix| <= |back| { assert text[|text| - |suffix|..] == back[|back| - |suffix|..]; }
  }

  lemma ExampleIsPlain()
    ensures PlainName("m-a1.-a2.x") && !HasTwoDots("m-a1.-a2.x")
  {
    var name := "m-a1.-a2.x";
    assert name[0] == 'm' && name[1] == '-' && name[2] == 'a' && name[3] == '1' && name[4] == '.';
    assert name[5] == '-' && name[6] == 'a' && name[7] == '2' && name[8] == '.' && name[9] == 'x';
  }

  /** So a two-part extension can take another attempt's file along. */
  lemma DisguiseHappens()
    ensures AttemptName("m", 1, "-a2.x") == Some("m-a1.-a2.x")
    ensures Removes("m-a1.-a2.x", 2)
  {
    assert Digits(1) == "1" && Digits(2) == "2";
    assert Text("m", 1, "-a2.x") == "m-a1.-a2.x";
    ExampleIsPlain();
    assert "-a2.x" == "" + Mark(2) + "." + "x" && Alnum("x");
    assert Disguised("-a2.x", 2);
    RemovesExactly("m", 1, "-a2.x", 2);
  }
}
