/**
 * The create-only installer and its undo, on a tree without symbolic links. A path is its components;
 * the adoption folder is kept apart from the tree, as the lines of the manifest it holds.
 */
module Adopt {
  import opened Sorting
  import opened Wrappers

  type Path = seq<string>

  datatype Node = Dir | File(data: string, mode: nat)

  type Tree = map<Path, Node>

  const FOLDER := ".lifecycle-adoption"
  const WATCH: seq<string> := [".claude", ".agents", "openspec"]

  /** Every path but the root's own children lies in a directory. */
  ghost predicate WellFormed(t: Tree) {
    && (forall p :: p in t ==> p != [])
    && (forall p {:trigger InDir(t, p)} :: p in t && |p| > 1 ==> InDir(t, p))
  }

  predicate InDir(t: Tree, p: Path)
    requires |p| > 1
  {
    p[..|p| - 1] in t && t[p[..|p| - 1]].Dir?
  }

  predicate Below(p: Path, q: Path) { |p| < |q| && q[..|p|] == p }

  lemma {:induction false} AncestorIsDir(t: Tree, p: Path, q: Path)
    requires WellFormed(t) && q in t && Below(p, q) && p != []
    ensures p in t && t[p].Dir?
    decreases |q|
  {
    assert InDir(t, q);
    var up := q[..|q| - 1];
    if |p| < |up| {
      assert up[..|p|] == p;
      AncestorIsDir(t, p, up);
    } else {
      assert up == p;
    }
  }

  /** One of the first components on the way to `rel`, before the `n`th, is a file. */
  predicate Blocked(t: Tree, rel: Path, n: nat)
    requires n <= |rel|
  {
    exists i :: 0 < i < n && FileAt(t, rel[..i])
  }

  predicate FileAt(t: Tree, p: Path) { p in t && t[p].File? }

  /** The directories that are missing on the way to `rel`, outermost first. */
  function Missing(t: Tree, rel: Path, n: nat): seq<Path>
    requires n <= |rel|
  {
    if n == 0 then []
    else Missing(t, rel, n - 1) + (if rel[..n] in t then [] else [rel[..n]])
  }

  function WithDirs(t: Tree, rel: Path, n: nat): Tree
    requires n <= |rel|
  {
    if n == 0 then t
    else
      var more := WithDirs(t, rel, n - 1);
      if rel[..n] in t then more else more[rel[..n] := Dir]
  }

  /** The tree after a whole write. */
  function AfterWrite(t: Tree, rel: Path, node: Node): Tree
    requires rel != []
  {
    if rel in t then t else WithDirs(t, rel, |rel| - 1)[rel := node]
  }

  /** One of the first `n` prefixes of `rel`. */
  predicate OnWay(rel: Path, n: nat, p: Path) { 0 < |p| <= n <= |rel| && p == rel[..|p|] }

  // ----- accounting for what is created -----

  ghost predicate Distinct(lines: seq<Path>) {
    forall i, j :: 0 <= i < j < |lines| ==> lines[i] != lines[j]
  }

  /** `t` is the original tree with additions: those the manifest lists, once each, and those in
    * `unrecorded`, which it does not. */
  ghost predicate Accounted(original: Tree, t: Tree, lines: seq<Path>, unrecorded: set<Path>) {
    && WellFormed(original) && WellFormed(t) && Distinct(lines)
    && (forall p :: p in original ==> p in t && t[p] == original[p])
    && (forall p :: p in lines || p in unrecorded <==> p in t && p !in original)
    && (forall p :: p in lines ==> p !in unrecorded)
  }

  predicate CanMake(t: Tree, p: Path) {
    p != [] && p !in t && (|p| > 1 ==> InDir(t, p))
  }

  lemma CreatedIsUnrecorded(original: Tree, t: Tree, lines: seq<Path>, p: Path, node: Node)
    requires Accounted(original, t, lines, {}) && CanMake(t, p)
    ensures Accounted(original, t[p := node], lines, {p})
  {
    var t' := t[p := node];
    forall q | q in t'
      ensures q != [] && (|q| > 1 ==> InDir(t', q))
    {
      if |q| > 1 { assert InDir(t, q); }
    }
  }

  lemma RewrittenStaysUnrecorded(original: Tree, t: Tree, lines: seq<Path>, p: Path, node: Node)
    requires Accounted(original, t, lines, {p}) && FileAt(t, p) && node.File?
    ensures Accounted(original, t[p := node], lines, {p})
  {
    var t' := t[p := node];
    forall q | q in t'
      ensures q != [] && (|q| > 1 ==> InDir(t', q))
    {
      if |q| > 1 { assert InDir(t, q); }
    }
  }

  lemma RecordedIsListed(original: Tree, t: Tree, lines: seq<Path>, unrecorded: set<Path>, p: Path)
    requires Accounted(original, t, lines, unrecorded) && p in unrecorded
    ensures Accounted(original, t, lines + [p], unrecorded - {p})
  {
    assert p !in lines;
  }

  function Lost(lost: Option<Path>): set<Path> {
    if lost.Some? then {lost.value} else {}
  }

  predicate PlainComponent(c: string) { c !in ["", ".", "..", ".git", FOLDER] }

  /** A manifest line that undo accepts. */
  predicate LineOk(p: Path) { p != [] && forall c :: c in p ==> PlainComponent(c) }

  ghost predicate AllOk(lines: seq<Path>) {
    forall i :: 0 <= i < |lines| ==> LineOk(lines[i])
  }

  lemma WayIsOk(rel: Path, i: nat)
    requires LineOk(rel) && 0 < i <= |rel|
    ensures LineOk(rel[..i])
  {
    forall c | c in rel[..i]
      ensures PlainComponent(c)
    {
      assert c in rel;
    }
  }

  // ----- the installer -----

  /** A write that raises may leave one path that it created and did not record. */
  datatype WriteOutcome = Written | Skipped | Raised(lost: Option<Path>)

  /** A file's mode between its open and its chmod. */
  const OPEN_MODE: nat := 420

  /** The file system under the target, and the manifest while the adoption folder exists. `left` is how
    * many more changes go through before one raises, or the process dies. */
  class Repo {
    var tree: Tree
    var folder: Option<seq<Path>>
    var left: nat

    constructor (tree: Tree, left: nat)
      ensures this.tree == tree && folder == None && this.left == left
    {
      this.tree, folder, this.left := tree, None, left;
    }

    /** `os.mkdir`: false when it raises. */
    method MakeDir(p: Path) returns (ok: bool)
      modifies this`tree, this`left
      ensures ok <==> old(left) > 0 && CanMake(old(tree), p)
      ensures tree == if ok then old(tree)[p := Dir] else old(tree)
      ensures left == if ok then old(left) - 1 else old(left)
    {
      ok := left > 0 && CanMake(tree, p);
      if ok {
        tree, left := tree[p := Dir], left - 1;
      }
    }

    /** The exclusive open: false when it raises. */
    method OpenNew(p: Path) returns (ok: bool)
      modifies this`tree, this`left
      ensures ok <==> old(left) > 0 && CanMake(old(tree), p)
      ensures tree == if ok then old(tree)[p := File("", OPEN_MODE)] else old(tree)
      ensures left == if ok then old(left) - 1 else old(left)
    {
      ok := left > 0 && CanMake(tree, p);
      if ok {
        tree, left := tree[p := File("", OPEN_MODE)], left - 1;
      }
    }

    /** The write into the open file, and the chmod: false when it raises. */
    method Fill(p: Path, data: string, mode: nat) returns (ok: bool)
      requires FileAt(tree, p)
      modifies this`tree, this`left
      ensures ok <==> old(left) > 0
      ensures tree == if ok then old(tree)[p := File(data, mode)] else old(tree)
      ensures left == if ok then old(left) - 1 else old(left)
    {
      ok := left > 0;
      if ok {
        tree, left := tree[p := File(data, mode)], left - 1;
      }
    }
  }

  /** The changes that a whole write makes: two for each missing parent, four for the file. */
  function Cost(t: Tree, rel: Path): nat
    requires rel != []
  {
    2 * |Missing(t, rel, |rel| - 1)| + 4
  }

  /** After `left` changes a write that has `m` parents to make is between a create and its record. */
  predicate CutInside(left: nat, m: nat) {
    if left < 2 * m then Odd(left) else left > 2 * m
  }

  /** The first `n` levels are made and recorded. */
  ghost predicate AtLevel(tree: Tree, lines: seq<Path>, start: nat, rel: Path, n: nat,
                          cur: Tree, folder: Option<seq<Path>>, left: nat)
    requires n <= |rel|
  {
    && cur == WithDirs(tree, rel, n) && folder == Some(lines + Missing(tree, rel, n))
    && left == start - 2 * |Missing(tree, rel, n)| && !Blocked(tree, rel, n)
  }

  lemma AtStart(tree: Tree, lines: seq<Path>, start: nat, rel: Path)
    ensures AtLevel(tree, lines, start, rel, 0, tree, Some(lines), start)
  {
    Unchanged(lines);
  }

  /** How far a write, or the writing of a template, comes: through, with the changes still left, or broken
    * off, with or without a path left unrecorded. */
  datatype Progress = Through(left: nat) | Broken(dirty: bool)

  /** One write: skipped, impossible, written, or cut short. */
  function WriteEnds(t: Tree, rel: Path, left: nat): Progress
    requires rel != []
  {
    if rel in t then Through(left)
    else if Blocked(t, rel, |rel|) then Broken(false)
    else if left >= Cost(t, rel) then Through(left - Cost(t, rel))
    else Broken(CutInside(left, |Missing(t, rel, |rel| - 1)|))
  }

  /** At most one more change with a level still to make is too few, and is odd by that change. */
  lemma CutAtLevel(tree: Tree, rel: Path, n: nat, start: nat, left: nat)
    requires n + 1 <= |rel| - 1 && |Missing(tree, rel, n + 1)| == |Missing(tree, rel, n)| + 1
    requires left <= 1 && left == start - 2 * |Missing(tree, rel, n)|
    ensures TooFew(tree, rel, start) && (Odd(start) <==> left == 1)
  {
    MissingGrows(tree, rel, n + 1, |rel| - 1);
  }

  predicate TooFew(tree: Tree, rel: Path, start: nat)
    requires rel != []
  {
    start < 2 * |Missing(tree, rel, |rel| - 1)|
  }

  predicate Odd(n: nat) { n % 2 == 1 }

  lemma Overwritten(t: Tree, p: Path, a: Node, b: Node)
    ensures t[p := a][p := b] == t[p := b]
  {
  }

  class Installer {
    const repo: Repo
    const dry: bool
    var created: seq<Path>
    var skipped: seq<Path>

    constructor (repo: Repo, dry: bool)
      ensures this.repo == repo && this.dry == dry && created == [] && skipped == []
    {
      this.repo, this.dry, created, skipped := repo, dry, [], [];
    }

    method Record(rel: Path) returns (ok: bool)
      requires !dry ==> repo.folder.Some?
      modifies this`created, repo`folder, repo`left
      ensures created == old(created) + [rel]
      ensures ok <==> dry || old(repo.left) > 0
      ensures repo.folder == if dry || !ok then old(repo.folder) else Some(old(repo.folder).value + [rel])
      ensures repo.left == if dry || !ok then old(repo.left) else old(repo.left) - 1
    {
      created := created + [rel];
      ok := dry || repo.left > 0;
      if !dry && ok {
        repo.folder, repo.left := Some(repo.folder.value + [rel]), repo.left - 1;
      }
    }

    /** Records a path that was just created. */
    method RecordCreated(rel: Path, ghost original: Tree) returns (ok: bool)
      requires !dry && repo.folder.Some? && Accounted(original, repo.tree, repo.folder.value, {rel})
      modifies this`created, repo`folder, repo`left
      ensures ok <==> old(repo.left) > 0
      ensures repo.folder == if ok then Some(old(repo.folder).value + [rel]) else old(repo.folder)
      ensures repo.left == if ok then old(repo.left) - 1 else old(repo.left)
      ensures Accounted(original, repo.tree, repo.folder.value, if ok then {} else {rel})
    {
      RecordedIsListed(original, repo.tree, repo.folder.value, {rel}, rel);
      assert {rel} - {rel} == {};
      ok := Record(rel);
    }

    /** One level: the way is blocked and nothing on it was made, or the changes ran out. */
    method MakeParent(rel: Path, i: nat, ghost tree: Tree, ghost lines: seq<Path>, ghost original: Tree)
      returns (ok: bool, lost: Option<Path>)
      requires 1 <= i < |rel| && !dry && WellFormed(tree) && !Blocked(tree, rel, i - 1)
      requires repo.tree == WithDirs(tree, rel, i - 1) && repo.folder == Some(lines + Missing(tree, rel, i - 1))
      requires Accounted(original, repo.tree, repo.folder.value, {})
      modifies this`created, repo
      ensures repo.folder.Some? && Accounted(original, repo.tree, repo.folder.value, Lost(lost))
      ensures AllOk(old(repo.folder).value) && LineOk(rel) ==> AllOk(repo.folder.value)
      ensures ok ==>
                && lost.None? && !Blocked(tree, rel, i)
                && repo.tree == WithDirs(tree, rel, i) && repo.folder == Some(lines + Missing(tree, rel, i))
                && repo.left == old(repo.left) + 2 * |Missing(tree, rel, i - 1)| - 2 * |Missing(tree, rel, i)|
      ensures !ok && Blocked(tree, rel, |rel| - 1) ==>
                && lost.None? && repo.tree == tree && repo.folder == Some(lines) && repo.left == old(repo.left)
                && Missing(tree, rel, i - 1) == []
      ensures !ok && !Blocked(tree, rel, |rel| - 1) ==>
                && !Blocked(tree, rel, |rel|) && |Missing(tree, rel, i)| == |Missing(tree, rel, i - 1)| + 1
                && old(repo.left) <= 1 && (lost.Some? <==> old(repo.left) == 1)
    {
      lost := None;
      LevelThere(tree, rel, i);
      if rel[..i] !in repo.tree {
        NothingBelow(tree, rel, i);
        ghost var before := repo.folder.value;
        ok := repo.MakeDir(rel[..i]);
        if !ok {
          Unchanged(lines);
          return;
        }
        CreatedIsUnrecorded(original, old(repo.tree), before, rel[..i], Dir);
        Assoc(lines, Missing(tree, rel, i - 1), [rel[..i]]);
        ok := RecordCreated(rel[..i], original);
        if !ok { return false, Some(rel[..i]); }
        if LineOk(rel) { WayIsOk(rel, i); }
      }
      ok := true;
    }

    /** Creates and records the missing parents one level at a time. */
    method MakeParents(rel: Path, ghost original: Tree) returns (ok: bool, lost: Option<Path>)
      requires rel != [] && !dry && repo.folder.Some? && Accounted(original, repo.tree, repo.folder.value, {})
      modifies this`created, repo
      ensures repo.folder.Some? && Accounted(original, repo.tree, repo.folder.value, Lost(lost))
      ensures AllOk(old(repo.folder).value) && LineOk(rel) ==> AllOk(repo.folder.value)
      ensures Blocked(old(repo.tree), rel, |rel| - 1) ==>
                && !ok && lost.None?
                && repo.tree == old(repo.tree) && repo.folder == old(repo.folder) && repo.left == old(repo.left)
      ensures !Blocked(old(repo.tree), rel, |rel| - 1) ==>
                && (ok <==> !TooFew(old(repo.tree), rel, old(repo.left)))
                && (!ok ==> !Blocked(old(repo.tree), rel, |rel|) && (lost.Some? <==> Odd(old(repo.left))))
      ensures ok ==>
                && lost.None? && repo.tree == WithDirs(old(repo.tree), rel, |rel| - 1)
                && repo.folder.value == old(repo.folder).value + Missing(old(repo.tree), rel, |rel| - 1)
                && repo.left == old(repo.left) - 2 * |Missing(old(repo.tree), rel, |rel| - 1)|
    {
      ghost var tree, lines, start := repo.tree, repo.folder.value, repo.left;
      AtStart(tree, lines, start, rel);
      lost := None;
      for n := 0 to |rel| - 1
        invariant AtLevel(tree, lines, start, rel, n, repo.tree, repo.folder, repo.left)
        invariant lost.None? && Accounted(original, repo.tree, repo.folder.value, {})
        invariant AllOk(lines) && LineOk(rel) ==> AllOk(repo.folder.value)
      {
        ghost var left := repo.left;
        ok, lost := MakeParent(rel, n + 1, tree, lines, original);
        if !ok {
          if !Blocked(tree, rel, |rel| - 1) { CutAtLevel(tree, rel, n, start, left); }
          return;
        }
      }
      ok := true;
    }

    /** Create-only: an existing path is left as it is. A write below a file changes nothing; one that is
      * cut short leaves a path unrecorded exactly when it is cut between a create and its record. */
    method Write(rel: Path, data: string, mode: nat, ghost original: Tree) returns (outcome: WriteOutcome)
      requires rel != [] && !dry && repo.folder.Some? && Accounted(original, repo.tree, repo.folder.value, {})
      modifies this, repo
      ensures repo.folder.Some?
      ensures Accounted(original, repo.tree, repo.folder.value, if outcome.Raised? then Lost(outcome.lost) else {})
      ensures AllOk(old(repo.folder).value) && LineOk(rel) ==> AllOk(repo.folder.value)
      ensures outcome.Skipped? <==> rel in old(repo.tree)
      ensures outcome.Written? <==>
                rel !in old(repo.tree) && !Blocked(old(repo.tree), rel, |rel|)
                && old(repo.left) >= Cost(old(repo.tree), rel)
      ensures outcome.Skipped? || (outcome.Raised? && Blocked(old(repo.tree), rel, |rel|)) ==>
                repo.tree == old(repo.tree) && repo.folder == old(repo.folder) && repo.left == old(repo.left)
      ensures outcome.Raised? ==>
                (outcome.lost.Some? <==>
                   !Blocked(old(repo.tree), rel, |rel|)
                   && CutInside(old(repo.left), |Missing(old(repo.tree), rel, |rel| - 1)|))
      ensures outcome.Written? ==>
                && repo.tree == WithDirs(old(repo.tree), rel, |rel| - 1)[rel := File(data, mode)]
                && repo.folder.value == old(repo.folder).value + Missing(old(repo.tree), rel, |rel| - 1) + [rel]
                && repo.left == old(repo.left) - Cost(old(repo.tree), rel)
      ensures match WriteEnds(old(repo.tree), rel, old(repo.left))
              case Through(left) => !outcome.Raised? && repo.left == left
                                    && repo.tree == AfterWrite(old(repo.tree), rel, File(data, mode))
              case Broken(dirty) => outcome.Raised? && (outcome.lost.Some? <==> dirty)
    {
      if rel in repo.tree {
        skipped := skipped + [rel];
        return Skipped;
      }
      CanCreate(repo.tree, rel);
      Unchanged(repo.folder.value);
      var ok, lost := MakeParents(rel, original);
      if !ok {
        return Raised(lost);
      }
      outcome := WriteFile(rel, data, mode, original);
    }

    /** The file itself: opened, filled, given its mode, recorded. */
    method WriteFile(rel: Path, data: string, mode: nat, ghost original: Tree) returns (outcome: WriteOutcome)
      requires rel != [] && rel !in repo.tree && !dry
      requires repo.folder.Some? && Accounted(original, repo.tree, repo.folder.value, {})
      modifies this`created, repo
      ensures repo.folder.Some? && !outcome.Skipped?
      ensures Accounted(original, repo.tree, repo.folder.value, if outcome.Raised? then Lost(outcome.lost) else {})
      ensures outcome.Written? <==> CanMake(old(repo.tree), rel) && old(repo.left) >= 4
      ensures outcome.Raised? ==> (outcome.lost.Some? <==> CanMake(old(repo.tree), rel) && old(repo.left) > 0)
      ensures !CanMake(old(repo.tree), rel) ==>
                repo.tree == old(repo.tree) && repo.folder == old(repo.folder) && repo.left == old(repo.left)
      ensures outcome.Raised? ==> repo.folder == old(repo.folder)
      ensures outcome.Written? ==>
                && repo.tree == old(repo.tree)[rel := File(data, mode)] && repo.left == old(repo.left) - 4
                && repo.folder == Some(old(repo.folder).value + [rel])
    {
      var ok := repo.OpenNew(rel);
      if !ok { return Raised(None); }
      CreatedIsUnrecorded(original, old(repo.tree), repo.folder.value, rel, File("", OPEN_MODE));
      ok := FillNew(rel, data, OPEN_MODE, original);
      if !ok { return Raised(Some(rel)); }
      Overwritten(old(repo.tree), rel, File("", OPEN_MODE), File(data, OPEN_MODE));
      Overwritten(old(repo.tree), rel, File(data, OPEN_MODE), File(data, mode));
      ok := FillNew(rel, data, mode, original);
      if !ok { return Raised(Some(rel)); }
      ok := RecordCreated(rel, original);
      if !ok { return Raised(Some(rel)); }
      return Written;
    }

    /** The write into the new file, or its chmod. */
    method FillNew(rel: Path, data: string, mode: nat, ghost original: Tree) returns (ok: bool)
      requires FileAt(repo.tree, rel) && repo.folder.Some?
      requires Accounted(original, repo.tree, repo.folder.value, {rel})
      modifies repo`tree, repo`left
      ensures ok <==> old(repo.left) > 0
      ensures repo.tree == if ok then old(repo.tree)[rel := File(data, mode)] else old(repo.tree)
      ensures repo.left == if ok then old(repo.left) - 1 else old(repo.left)
      ensures FileAt(repo.tree, rel) && Accounted(original, repo.tree, repo.folder.value, {rel})
    {
      RewrittenStaysUnrecorded(original, repo.tree, repo.folder.value, rel, File(data, mode));
      ok := repo.Fill(rel, data, mode);
    }
  }

  /** Once the parents are made, the last open fails only below a file, and then nothing was made. */
  lemma CanCreate(t: Tree, rel: Path)
    requires rel != [] && WellFormed(t) && rel !in t
    ensures Blocked(t, rel, |rel| - 1) ==> Blocked(t, rel, |rel|)
    ensures !Blocked(t, rel, |rel| - 1) ==>
              var w := WithDirs(t, rel, |rel| - 1);
              && rel !in w
              && ((|rel| > 1 ==> InDir(w, rel)) <==> !Blocked(t, rel, |rel|))
              && (Blocked(t, rel, |rel|) ==> w == t && Missing(t, rel, |rel| - 1) == [])
  {
    WithDirsAt(t, rel, |rel| - 1);
    if |rel| > 1 && rel[..|rel| - 1] in t {
      PrefixesIn(t, rel, |rel| - 1);
      assert t[rel[..|rel| - 1]].File? ==> FileAt(t, rel[..|rel| - 1]);
    }
  }

  /** One level on the way: it is there, or it can be made unless the level above is a file. */
  lemma LevelThere(t: Tree, rel: Path, i: nat)
    requires 1 <= i < |rel| && WellFormed(t) && !Blocked(t, rel, i - 1)
    ensures var w := WithDirs(t, rel, i - 1);
      && (rel[..i] in w ==>
            WithDirs(t, rel, i) == w && Missing(t, rel, i) == Missing(t, rel, i - 1) && !Blocked(t, rel, i))
      && (rel[..i] !in w ==>
            && WithDirs(t, rel, i) == w[rel[..i] := Dir]
            && Missing(t, rel, i) == Missing(t, rel, i - 1) + [rel[..i]]
            && (i == 1 || InDir(w, rel[..i]) ==> !Blocked(t, rel, i))
            && (i > 1 && !InDir(w, rel[..i]) ==> LevelStuck(t, rel, i)))
  {
    WithDirsAt(t, rel, i - 1);
    if rel[..i] in t {
      PrefixesIn(t, rel, i);
    } else if i > 1 {
      LevelAbove(t, rel, i);
    }
  }

  /** The level above is a file, so nothing on the way was made. */
  predicate LevelStuck(t: Tree, rel: Path, i: nat)
    requires 1 <= i < |rel|
  {
    Blocked(t, rel, |rel| - 1) && WithDirs(t, rel, i - 1) == t && Missing(t, rel, i - 1) == []
  }

  lemma LevelAbove(t: Tree, rel: Path, i: nat)
    requires 1 < i < |rel| && WellFormed(t) && !Blocked(t, rel, i - 1) && rel[..i] !in t
    ensures InDir(WithDirs(t, rel, i - 1), rel[..i]) ==> !Blocked(t, rel, i)
    ensures !InDir(WithDirs(t, rel, i - 1), rel[..i]) ==> LevelStuck(t, rel, i)
  {
    var up := rel[..i - 1];
    assert rel[..i][..i - 1] == up;
    WithDirsAt(t, rel, i - 1);
    assert OnWay(rel, i - 1, up);
    if up in t {
      PrefixesIn(t, rel, i - 1);
      if t[up].File? { assert FileAt(t, rel[..i - 1]); }
    }
  }

  /** Below a missing path nothing exists, so nothing blocks the way. */
  lemma NothingBelow(t: Tree, rel: Path, i: nat)
    requires 0 < i <= |rel| && WellFormed(t) && rel[..i] !in t
    ensures !Blocked(t, rel, i) ==> !Blocked(t, rel, |rel|)
  {
    forall k | i <= k <= |rel|
      ensures rel[..k] !in t
    {
      if rel[..k] in t && i < k {
        assert rel[..k][..i] == rel[..i];
        AncestorIsDir(t, rel[..i], rel[..k]);
      }
    }
  }

  lemma {:induction false} MissingGrows(t: Tree, rel: Path, i: nat, j: nat)
    requires i <= j <= |rel|
    ensures |Missing(t, rel, i)| <= |Missing(t, rel, j)|
    decreases j
  {
    if i < j { MissingGrows(t, rel, i, j - 1); }
  }

  lemma Unchanged<T>(s: seq<T>)
    ensures s + [] == s
  {
  }

  lemma {:induction false} WithDirsAt(t: Tree, rel: Path, n: nat)
    requires n <= |rel|
    ensures forall p :: p in WithDirs(t, rel, n) <==> p in t || OnWay(rel, n, p)
    ensures forall p :: p in t ==> WithDirs(t, rel, n)[p] == t[p]
    ensures forall p :: p in WithDirs(t, rel, n) && p !in t ==> WithDirs(t, rel, n)[p] == Dir
  {
    if n > 0 {
      WithDirsAt(t, rel, n - 1);
    }
  }

  /** Below an existing path there is nothing to create. */
  lemma {:induction false} PrefixesIn(t: Tree, rel: Path, i: nat)
    requires WellFormed(t) && i <= |rel| && (i > 0 ==> rel[..i] in t)
    ensures forall j :: 0 < j < i ==> rel[..j] in t && t[rel[..j]].Dir?
    ensures WithDirs(t, rel, i) == t && Missing(t, rel, i) == []
  {
    if i > 1 {
      assert InDir(t, rel[..i]);
      assert rel[..i][..i - 1] == rel[..i - 1];
      PrefixesIn(t, rel, i - 1);
    }
  }
}
