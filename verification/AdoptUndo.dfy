/** Undoing an install: what the manifest lists goes, and what it does not list stays. */
module AdoptUndo {
  import opened Adopt
  import opened AdoptInstall
  import opened Sorting
  import opened Wrappers

  datatype UndoOutcome = NoManifest | Refused | UndoRaised | Undone

  function Present(t: Tree, lines: seq<Path>): seq<Path> {
    if lines == [] then []
    else (if lines[0] in t then [lines[0]] else []) + Present(t, lines[1..])
  }

  lemma {:induction false} PresentAt(t: Tree, lines: seq<Path>)
    ensures forall p :: p in Present(t, lines) <==> p in lines && p in t
    ensures Distinct(lines) ==> Distinct(Present(t, lines))
  {
    if lines != [] {
      PresentAt(t, lines[1..]);
      assert lines == [lines[0]] + lines[1..];
      if Distinct(lines) {
        assert lines[0] !in lines[1..];
        JoinDistinct([lines[0]], Present(t, lines[1..]));
      }
    }
  }

  /** `q` is a path that undo leaves, below `p`. */
  predicate Holds(t: Tree, lines: seq<Path>, p: Path, q: Path) { q in t && q !in lines && Below(p, q) }

  /** What undo leaves: what is not listed, and listed directories that still hold something else. */
  ghost predicate Survives(t: Tree, lines: seq<Path>, p: Path)
    requires p in t
  {
    p !in lines || (t[p].Dir? && exists q :: Holds(t, lines, p, q))
  }

  ghost predicate IsUndone(t: Tree, lines: seq<Path>, t': Tree) {
    && (forall p :: p in t' <==> p in t && Survives(t, lines, p))
    && (forall p :: p in t' ==> t'[p] == t[p])
  }

  /** Undo in the middle: the listed files are gone, and of the listed directories those in `done` have
    * been looked at. */
  ghost predicate Midway(t: Tree, lines: seq<Path>, done: seq<Path>, cur: Tree) {
    && (forall p :: p in cur <==> p in t && Stays(t, lines, done, p))
    && (forall p :: p in cur ==> cur[p] == t[p])
  }

  ghost predicate Stays(t: Tree, lines: seq<Path>, done: seq<Path>, p: Path)
    requires p in t
  {
    p !in lines || (t[p].Dir? && (p !in done || exists q :: Holds(t, lines, p, q)))
  }

  predicate HasChild(t: Tree, p: Path) {
    exists q :: q in t && |q| == |p| + 1 && Below(p, q)
  }

  /** With everything deeper looked at, a listed directory has a child left exactly when it holds
    * something that is not listed. */
  lemma ChildExactly(t: Tree, lines: seq<Path>, done: seq<Path>, cur: Tree, d: Path)
    requires WellFormed(t) && Midway(t, lines, done, cur) && d != []
    requires forall p :: p in lines && p in t && t[p].Dir? && |p| > |d| ==> p in done
    ensures HasChild(cur, d) <==> exists q :: Holds(t, lines, d, q)
  {
    if HasChild(cur, d) {
      var c :| c in cur && |c| == |d| + 1 && Below(d, c);
      if c !in lines {
        assert Holds(t, lines, d, c);
      } else {
        var q :| Holds(t, lines, c, q);
        BelowTransitive(d, c, q);
        assert Holds(t, lines, d, q);
      }
    }
    if exists q :: Holds(t, lines, d, q) {
      var q :| Holds(t, lines, d, q);
      var c := q[..|d| + 1];
      assert c[..|d|] == d;
      if c == q {
        assert c in cur;
      } else {
        assert Below(c, q);
        AncestorIsDir(t, c, q);
        assert Holds(t, lines, c, q);
        assert c in cur;
      }
      assert c in cur && |c| == |d| + 1 && Below(d, c);
    }
  }

  lemma BelowTransitive(p: Path, q: Path, r: Path)
    requires Below(p, q) && Below(q, r)
    ensures Below(p, r)
  {
    assert r[..|q|][..|p|] == r[..|p|];
  }

  function DirsOf(t: Tree, paths: seq<Path>): seq<Path> {
    if paths == [] then []
    else (if paths[0] in t && t[paths[0]].Dir? then [paths[0]] else []) + DirsOf(t, paths[1..])
  }

  lemma {:induction false} DirsAt(t: Tree, paths: seq<Path>)
    ensures forall p :: p in DirsOf(t, paths) <==> p in paths && p in t && t[p].Dir?
    ensures Distinct(paths) ==> Distinct(DirsOf(t, paths))
  {
    if paths != [] {
      DirsAt(t, paths[1..]);
      assert paths == [paths[0]] + paths[1..];
      if Distinct(paths) {
        assert paths[0] !in paths[1..];
        JoinDistinct([paths[0]], DirsOf(t, paths[1..]));
      }
    }
  }

  function DeeperFirst(): (Path, Path) -> bool { (a: Path, b: Path) => |a| >= |b| }

  /** Undo's first loop: the listed files go. */
  method RemoveFiles(repo: Repo, present: seq<Path>) returns (ok: bool)
    requires forall p :: p in present ==> p in repo.tree
    modifies repo`tree
    ensures Distinct(present) ==> ok
    ensures ok ==> forall p :: p in repo.tree <==> p in old(repo.tree) && !(p in present && FileAt(old(repo.tree), p))
    ensures forall p :: p in repo.tree ==> p in old(repo.tree) && repo.tree[p] == old(repo.tree)[p]
  {
    ghost var t := repo.tree;
    for i := 0 to |present|
      invariant forall p :: p in repo.tree <==> p in t && !(p in present[..i] && FileAt(t, p))
      invariant forall p :: p in repo.tree ==> repo.tree[p] == t[p]
    {
      var line := present[i];
      assert present[..i + 1] == present[..i] + [line] && line in present;
      if line !in repo.tree {
        assert line in present[..i];
        return false;
      }
      if !repo.tree[line].Dir? {
        repo.tree := repo.tree - {line};
      }
    }
    assert present[..|present|] == present;
    ok := true;
  }

  lemma DoneDeeper(t: Tree, lines: seq<Path>, dirs: seq<Path>, j: nat)
    requires j < |dirs| && Sorted(dirs, DeeperFirst())
    requires forall p :: p in dirs <==> p in lines && p in t && t[p].Dir?
    ensures forall p :: p in lines && p in t && t[p].Dir? && |p| > |dirs[j]| ==> p in dirs[..j]
  {
    assert forall k :: j < k < |dirs| ==> DeeperFirst()(dirs[j], dirs[k]);
    forall p | p in lines && p in t && t[p].Dir? && |p| > |dirs[j]|
      ensures p in dirs[..j]
    {
      assert p in dirs;
      var k :| 0 <= k < |dirs| && dirs[k] == p;
      assert k < j && dirs[..j][k] == p;
    }
  }

  lemma LookedAt(t: Tree, lines: seq<Path>, done: seq<Path>, cur: Tree, d: Path, cur': Tree)
    requires WellFormed(t) && Midway(t, lines, done, cur) && d in lines && d in t && t[d].Dir? && d != []
    requires forall p :: p in lines && p in t && t[p].Dir? && |p| > |d| ==> p in done
    requires cur' == if HasChild(cur, d) then cur else cur - {d}
    ensures Midway(t, lines, done + [d], cur')
  {
    ChildExactly(t, lines, done, cur, d);
    forall p | p in t
      ensures p in cur' <==> Stays(t, lines, done + [d], p)
    {
      if p != d {
        assert p in done + [d] <==> p in done;
      } else {
        assert d in done + [d];
      }
    }
  }

  /** The listed directories, deepest first. */
  ghost predicate AreDirs(t: Tree, lines: seq<Path>, dirs: seq<Path>) {
    Sorted(dirs, DeeperFirst()) && forall p :: p in dirs <==> p in lines && p in t && t[p].Dir?
  }

  lemma NextDir(t: Tree, lines: seq<Path>, done: seq<Path>, d: Path, dirs: seq<Path>, cur: Tree, cur': Tree)
    requires WellFormed(t) && AreDirs(t, lines, dirs) && done + [d] <= dirs && Midway(t, lines, done, cur)
    requires cur' == if HasChild(cur, d) then cur else cur - {d}
    ensures Midway(t, lines, done + [d], cur')
  {
    var j := |done|;
    assert dirs[j] == (done + [d])[j] == d && dirs[..j] == done && d in dirs;
    DoneDeeper(t, lines, dirs, j);
    LookedAt(t, lines, done, cur, d, cur');
  }

  lemma StillThere(t: Tree, lines: seq<Path>, dirs: seq<Path>, j: nat, cur: Tree)
    requires AreDirs(t, lines, dirs) && j < |dirs| && Midway(t, lines, dirs[..j], cur) && Distinct(dirs)
    ensures dirs[j] in cur
  {
    assert dirs[j] in dirs && dirs[j] !in dirs[..j];
  }

  lemma AllLookedAt(t: Tree, lines: seq<Path>, dirs: seq<Path>, cur: Tree)
    requires AreDirs(t, lines, dirs) && Midway(t, lines, dirs, cur)
    ensures IsUndone(t, lines, cur)
  {
    forall p | p in t
      ensures Stays(t, lines, dirs, p) <==> Survives(t, lines, p)
    {
    }
  }

  lemma OneMore(dirs: seq<Path>, j: nat)
    requires j < |dirs|
    ensures dirs[..j + 1] == dirs[..j] + [dirs[j]] && dirs[..j] + [dirs[j]] <= dirs
  {
  }

  /** One turn of that loop. */
  lemma DirLookedAt(t: Tree, lines: seq<Path>, dirs: seq<Path>, j: nat, cur: Tree, cur': Tree)
    requires WellFormed(t) && AreDirs(t, lines, dirs) && j < |dirs| && Midway(t, lines, dirs[..j], cur)
    requires cur' == if HasChild(cur, dirs[j]) then cur else cur - {dirs[j]}
    ensures Midway(t, lines, dirs[..j + 1], cur')
  {
    OneMore(dirs, j);
    NextDir(t, lines, dirs[..j], dirs[j], dirs, cur, cur');
  }

  /** Undo's second loop: of the listed directories, deepest first, the empty ones go. */
  method RemoveDirs(repo: Repo, ghost t: Tree, ghost lines: seq<Path>, dirs: seq<Path>) returns (ok: bool)
    requires WellFormed(t) && Midway(t, lines, [], repo.tree) && AreDirs(t, lines, dirs)
    modifies repo`tree
    ensures Distinct(dirs) ==> ok
    ensures ok ==> IsUndone(t, lines, repo.tree)
  {
    for j := 0 to |dirs|
      invariant Midway(t, lines, dirs[..j], repo.tree)
    {
      if dirs[j] !in repo.tree {
        if Distinct(dirs) {
          StillThere(t, lines, dirs, j, repo.tree);
        }
        return false;
      }
      ghost var cur := repo.tree;
      if !HasChild(repo.tree, dirs[j]) {
        repo.tree := repo.tree - {dirs[j]};
      }
      DirLookedAt(t, lines, dirs, j, cur, repo.tree);
    }
    assert dirs[..|dirs|] == dirs;
    AllLookedAt(t, lines, dirs, repo.tree);
    ok := true;
  }

  lemma DeeperFirstOrders()
    ensures Orders(DeeperFirst())
  {
  }

  lemma SortDistinct(s: seq<Path>)
    requires Distinct(s)
    ensures Distinct(Sort(s, DeeperFirst()))
  {
    SortPermutes(s, DeeperFirst());
    var t := Sort(s, DeeperFirst());
    forall i, j | 0 <= i < j < |t|
      ensures t[i] != t[j]
    {
      DistinctMultiset(s, t[i]);
      Without(t, j);
      assert Drop(t, j)[i] == t[i];
      InMultiset(t[i], Drop(t, j));
    }
  }

  lemma SortKeepsMembers(s: seq<Path>)
    ensures forall p :: p in Sort(s, DeeperFirst()) <==> p in s
  {
    SortPermutes(s, DeeperFirst());
    var t := Sort(s, DeeperFirst());
    forall p
      ensures p in t <==> p in s
    {
      InMultiset(p, s);
      InMultiset(p, t);
    }
  }

  lemma DropLoses(s: seq<Path>, i: nat)
    requires Distinct(s) && i < |s|
    ensures s[i] !in Drop(s, i)
  {
    forall k | 0 <= k < |s| - 1
      ensures Drop(s, i)[k] != s[i]
    {
      assert Drop(s, i)[k] == if k < i then s[k] else s[k + 1];
    }
  }

  lemma DistinctMultiset(s: seq<Path>, p: Path)
    requires Distinct(s)
    ensures multiset(s)[p] <= 1
  {
    if p in s {
      var i :| 0 <= i < |s| && s[i] == p;
      Without(s, i);
      DropLoses(s, i);
      InMultiset(p, Drop(s, i));
      assert multiset(s)[p] == multiset(Drop(s, i))[p] + 1;
    } else {
      InMultiset(p, s);
    }
  }

  /** A line that names the root, a way up, the version control's directory, or the adoption's own. */
  predicate Dangerous(p: Path) {
    p == [] || "" in p || "." in p || ".." in p || ".git" in p || ".lifecycle-adoption" in p
  }

  lemma DangerousExactly(p: Path)
    ensures LineOk(p) <==> !Dangerous(p)
  {
    if LineOk(p) && Dangerous(p) {
      assert forall c :: c in p ==> PlainComponent(c);
    }
  }

  lemma RefusedLines(lines: seq<Path>)
    ensures AllOk(lines) <==> forall i :: 0 <= i < |lines| ==> !Dangerous(lines[i])
  {
    forall i | 0 <= i < |lines| ensures LineOk(lines[i]) <==> !Dangerous(lines[i]) {
      DangerousExactly(lines[i]);
    }
  }

  /** `undo`: refuses without a manifest or with a line it does not accept, and changes nothing then;
    * else removes the listed files, the listed directories that end up empty, and the folder. */
  method Undo(repo: Repo) returns (outcome: UndoOutcome)
    requires WellFormed(repo.tree)
    modifies repo
    ensures outcome == NoManifest <==> old(repo.folder).None?
    ensures outcome == Refused <==> old(repo.folder).Some? && !AllOk(old(repo.folder).value)
    ensures outcome == Refused <==>
              old(repo.folder).Some?
              && exists i :: 0 <= i < |old(repo.folder).value| && Dangerous(old(repo.folder).value[i])
    ensures outcome == NoManifest || outcome == Refused ==>
              repo.tree == old(repo.tree) && repo.folder == old(repo.folder)
    ensures outcome == Undone ==>
              old(repo.folder).Some? && repo.folder == None
              && IsUndone(old(repo.tree), old(repo.folder).value, repo.tree)
    ensures outcome == UndoRaised ==> !Distinct(old(repo.folder).value)
  {
    if repo.folder.None? {
      return NoManifest;
    }
    var lines := repo.folder.value;
    RefusedLines(lines);
    if exists i :: 0 <= i < |lines| && !LineOk(lines[i]) {
      return Refused;
    }
    ghost var t := repo.tree;
    var present := Present(repo.tree, lines);
    PresentAt(t, lines);
    var removed := RemoveFiles(repo, present);
    if !removed {
      return UndoRaised;
    }
    var dirs := DirsOf(repo.tree, present);
    DirsAt(repo.tree, present);
    DeeperFirstOrders();
    SortSorts(dirs, DeeperFirst());
    if Distinct(lines) { SortDistinct(dirs); }
    SortKeepsMembers(dirs);
    var emptied := RemoveDirs(repo, t, lines, Sort(dirs, DeeperFirst()));
    if !emptied {
      return UndoRaised;
    }
    repo.folder := None;
    outcome := Undone;
  }

  // ----- undo and install -----

  /** What undo leaves of an install: the original tree, what was not recorded, and the directories that
    * hold it. */
  lemma UndoLeaves(original: Tree, t: Tree, lines: seq<Path>, unrecorded: set<Path>, t': Tree)
    requires Accounted(original, t, lines, unrecorded) && IsUndone(t, lines, t')
    ensures forall p :: p in t' <==>
              p in original || p in unrecorded || (p in t && exists q :: q in unrecorded && Below(p, q))
    ensures forall p :: p in t' ==> t'[p] == t[p]
  {
    forall p | p in t && p in lines
      ensures Survives(t, lines, p) <==> exists q :: q in unrecorded && Below(p, q)
    {
      if exists q :: Holds(t, lines, p, q) {
        var q :| Holds(t, lines, p, q);
        if q in original {
          AncestorIsDir(original, p, q);
        }
        assert q in unrecorded && Below(p, q);
      }
      if exists q :: q in unrecorded && Below(p, q) {
        var q :| q in unrecorded && Below(p, q);
        AncestorIsDir(t, p, q);
        assert Holds(t, lines, p, q);
      }
    }
  }

  /** Undo gives the original tree back exactly when nothing was left unrecorded. */
  lemma UndoInverts(original: Tree, t: Tree, lines: seq<Path>, unrecorded: set<Path>, t': Tree)
    requires Accounted(original, t, lines, unrecorded) && IsUndone(t, lines, t')
    ensures t' == original <==> unrecorded == {}
  {
    UndoLeaves(original, t, lines, unrecorded, t');
    if unrecorded != {} {
      var p :| p in unrecorded;
      assert p in t' && p !in original;
    }
  }

  /** Install, whole or cut short anywhere, and then undo: undo accepts what install wrote exactly
    * when no recorded addition of the outside tool has a name that undo never touches, and then gives the
    * original tree back exactly when the changes, the template and the tool were such that all was recorded. */
  method InstallThenUndo(ins: Installer, template: seq<Entry>, runTool: bool, tool: Tool)
    returns (ending: Ending, outcome: UndoOutcome)
    requires !ins.dry && WellFormed(ins.repo.tree) && ins.repo.folder.None? && PlainTemplate(template)
    requires runTool ==> ToolRunsOn(tool, AfterTemplate(ins.repo.tree, template))
    modifies ins, ins.repo
    ensures outcome == Undone || outcome == Refused
    ensures outcome == Undone <==> AllOk(ToolLines(old(ins.repo.tree), template, runTool, tool, old(ins.repo.left)))
    ensures outcome == Undone ==>
              ins.repo.folder == None
              && (ins.repo.tree == old(ins.repo.tree)
                  <==> IsClean(old(ins.repo.tree), template, runTool, tool, old(ins.repo.left)))
    ensures forall p :: p in old(ins.repo.tree) ==> p in ins.repo.tree && ins.repo.tree[p] == old(ins.repo.tree)[p]
    ensures outcome == Undone ==>
              forall p :: p in ins.repo.tree ==>
                p in old(ins.repo.tree) || p in LeftOver(ending) || exists q :: q in LeftOver(ending) && Below(p, q)
  {
    ghost var original := ins.repo.tree;
    ending := Install(ins, template, runTool, tool);
    ghost var t, lines := ins.repo.tree, ins.repo.folder.value;
    outcome := Undo(ins.repo);
    if outcome == Undone {
      UndoLeaves(original, t, lines, LeftOver(ending), ins.repo.tree);
      UndoInverts(original, t, lines, LeftOver(ending), ins.repo.tree);
    }
  }

  const CONFIG: Path := ["openspec", "config.yaml"]
  const SPECS: Path := ["openspec", "specs"]

  /** A tool that makes a directory and then fails. */
  const FAILING := Tool((t: Tree) => map[SPECS := Dir], (t: Tree) => [SPECS], (t: Tree) => true)

  /** The empty tree once the template's configuration is written. */
  const CONFIGURED: Tree := map[["openspec"] := Dir, CONFIG := File("", OPEN_MODE)]

  lemma ConfigurationIsWritten()
    ensures !Blocked(map[], CONFIG, 2) && Missing(map[], CONFIG, 1) == [["openspec"]]
    ensures WithDirs(map[], CONFIG, 1)[CONFIG := File("", OPEN_MODE)] == CONFIGURED
  {
    assert CONFIG[..1] == ["openspec"];
    assert Missing(map[], CONFIG, 0) == [] && WithDirs(map[], CONFIG, 0) == map[];
  }

  lemma FailingRuns()
    ensures ToolRunsOn(FAILING, CONFIGURED)
  {
    assert CONFIG != SPECS && |["openspec"]| != |SPECS|;
    assert CONFIG[..1] == ["openspec"] && SPECS[..1] == ["openspec"];
    var t := CONFIGURED + map[SPECS := Dir];
    forall p | p in t && |p| > 1
      ensures InDir(t, p)
    {
      assert p == CONFIG || p == SPECS;
    }
  }

  method WriteConfiguration() returns (repo: Repo, ins: Installer)
    ensures fresh(repo) && fresh(ins) && ins.repo == repo && !ins.dry
    ensures repo.tree == CONFIGURED && repo.left > 1 && repo.folder.Some? && AllOk(repo.folder.value)
    ensures Accounted(map[], repo.tree, repo.folder.value, {})
  {
    repo := new Repo(map[], 100);
    ins := new Installer(repo, false);
    repo.folder := Some([]);
    ConfigurationIsWritten();
    var written := ins.Write(CONFIG, "", OPEN_MODE, map[]);
  }

  /** The configuration is written, and the outside tool makes a directory and then fails. */
  method InstallWithFailingTool() returns (repo: Repo)
    ensures fresh(repo) && repo.folder.Some? && AllOk(repo.folder.value)
    ensures Accounted(map[], repo.tree, repo.folder.value, {SPECS})
  {
    var ins;
    repo, ins := WriteConfiguration();
    FailingRuns();
    assert AllOk(FAILING.order(repo.tree));
    var ok, unrecorded := RunTool(ins, FAILING, map[]);
    assert unrecorded == {SPECS};
  }

  /** Undo does not know of that directory. */
  method ToolFailureOutlivesUndo() returns (repo: Repo, outcome: UndoOutcome)
    ensures fresh(repo) && outcome == Undone && SPECS in repo.tree
  {
    repo := InstallWithFailingTool();
    ghost var t, lines := repo.tree, repo.folder.value;
    outcome := Undo(repo);
    UndoLeaves(map[], t, lines, {SPECS}, repo.tree);
  }

  /** A write that is cut after its open leaves a file that undo does not know of. */
  method CutWriteOutlivesUndo(rel: Path) returns (repo: Repo, outcome: UndoOutcome)
    requires |rel| == 1 && LineOk(rel)
    ensures fresh(repo) && outcome == Undone && repo.tree != map[]
  {
    repo := new Repo(map[], 1);
    var ins := new Installer(repo, false);
    repo.folder := Some([]);
    assert Missing(map[], rel, 0) == [] && !Blocked(map[], rel, 1);
    var written := ins.Write(rel, "", OPEN_MODE, map[]);
    ghost var t, lines := repo.tree, repo.folder.value;
    outcome := Undo(repo);
    UndoInverts(map[], t, lines, Lost(written.lost), repo.tree);
  }

  /** A path that the user added since, below `p`. */
  predicate UsersBelow(t: Tree, now: Tree, p: Path, q: Path) { q in now && q !in t && Below(p, q) }

  /** With a user's later additions, undo leaves the original tree and those, and of what install
    * created only the directories that contain them. */
  lemma UndoKeepsUsersFiles(original: Tree, t: Tree, lines: seq<Path>, now: Tree, t': Tree)
    requires Accounted(original, t, lines, {}) && WellFormed(now) && IsUndone(now, lines, t')
    requires forall p :: p in t ==> p in now && now[p] == t[p]
    ensures forall p :: p in original ==> p in t' && t'[p] == original[p]
    ensures forall p :: p in now && p !in t ==> p in t' && t'[p] == now[p]
    ensures forall p :: p in t && p !in original ==>
              (p in t' <==> t[p].Dir? && exists q :: UsersBelow(t, now, p, q))
    ensures forall p :: p in t' ==> p in now
  {
    forall p | p in t && p !in original
      ensures (exists q :: Holds(now, lines, p, q)) <==> (exists q :: UsersBelow(t, now, p, q))
    {
      if exists q :: Holds(now, lines, p, q) {
        var q :| Holds(now, lines, p, q);
        if q in original {
          AncestorIsDir(original, p, q);
        }
        assert UsersBelow(t, now, p, q);
      }
      if exists q :: UsersBelow(t, now, p, q) {
        var q :| UsersBelow(t, now, p, q);
        assert Holds(now, lines, p, q);
      }
    }
  }
}
