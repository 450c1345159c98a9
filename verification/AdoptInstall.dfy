/** Installing: the template's files, then what an outside tool adds. */
module AdoptInstall {
  import opened Adopt
  import opened Sorting
  import opened Wrappers

  lemma AddDistinct(lines: seq<Path>, p: Path)
    requires Distinct(lines) && p !in lines
    ensures Distinct(lines + [p])
  {
  }

  lemma JoinDistinct(a: seq<Path>, b: seq<Path>)
    requires Distinct(a) && Distinct(b) && forall p :: p in a ==> p !in b
    ensures Distinct(a + b)
  {
    forall i, j | 0 <= i < j < |a + b|
      ensures (a + b)[i] != (a + b)[j]
    {
      if i < |a| <= j {
        assert a[i] in a && b[j - |a|] in b;
      }
    }
  }

  lemma {:induction false} MissingAt(t: Tree, rel: Path, n: nat)
    requires n <= |rel|
    ensures forall p :: p in Missing(t, rel, n) <==> p !in t && OnWay(rel, n, p)
  {
    if n > 0 {
      MissingAt(t, rel, n - 1);
      forall p
        ensures OnWay(rel, n, p) <==> OnWay(rel, n - 1, p) || p == rel[..n]
      {
      }
    }
  }

  lemma {:induction false} MissingDistinct(t: Tree, rel: Path, n: nat)
    requires n <= |rel|
    ensures Distinct(Missing(t, rel, n))
  {
    if n > 0 {
      MissingDistinct(t, rel, n - 1);
      MissingAt(t, rel, n - 1);
      assert rel[..n] !in Missing(t, rel, n - 1);
      AddDistinct(Missing(t, rel, n - 1), rel[..n]);
    }
  }

  lemma WithDirsWellFormed(t: Tree, rel: Path, n: nat)
    requires WellFormed(t) && n < |rel| && !Blocked(t, rel, n + 1)
    ensures WellFormed(WithDirs(t, rel, n))
  {
    var w := WithDirs(t, rel, n);
    WithDirsAt(t, rel, n);
    forall p | p in w
      ensures p != [] && (|p| > 1 ==> InDir(w, p))
    {
      if p in t {
        assert |p| > 1 ==> InDir(t, p);
      } else if |p| > 1 {
        assert OnWay(rel, n, p);
        assert OnWay(rel, n, p[..|p| - 1]);
        assert !FileAt(t, rel[..|p| - 1]);
      }
    }
  }

  lemma WriteKeepsTree(t: Tree, rel: Path, node: Node)
    requires WellFormed(t) && rel != [] && rel !in t && !Blocked(t, rel, |rel|)
    ensures WellFormed(WithDirs(t, rel, |rel| - 1)[rel := node])
  {
    CanCreate(t, rel);
    WithDirsWellFormed(t, rel, |rel| - 1);
    var w := WithDirs(t, rel, |rel| - 1);
    var t' := w[rel := node];
    forall p | p in t'
      ensures p != [] && (|p| > 1 ==> InDir(t', p))
    {
      if |p| > 1 {
        assert InDir(w, p);
        assert p[..|p| - 1] in w && rel !in w;
      }
    }
  }

  lemma WriteKeepsPaths(t: Tree, rel: Path, node: Node)
    requires WellFormed(t) && rel != [] && rel !in t
    ensures var t' := WithDirs(t, rel, |rel| - 1)[rel := node];
            && (forall p :: p in t ==> p in t' && t'[p] == t[p])
            && (forall p :: p in Missing(t, rel, |rel| - 1) + [rel] <==> p in t' && p !in t)
    ensures Distinct(Missing(t, rel, |rel| - 1) + [rel])
  {
    WithDirsAt(t, rel, |rel| - 1);
    MissingAt(t, rel, |rel| - 1);
    MissingDistinct(t, rel, |rel| - 1);
    AddDistinct(Missing(t, rel, |rel| - 1), rel);
  }

  /** Additions that are recorded, each once, keep the tree and the manifest in step. */
  lemma RecordedKeeps(original: Tree, t: Tree, lines: seq<Path>, t': Tree, more: seq<Path>)
    requires Accounted(original, t, lines, {}) && WellFormed(t') && Distinct(more)
    requires forall p :: p in t ==> p in t' && t'[p] == t[p]
    requires forall p :: p in more <==> p in t' && p !in t
    ensures Accounted(original, t', lines + more, {})
  {
    JoinDistinct(lines, more);
  }

  /** Every successful write keeps the tree and the manifest in step. */
  lemma WriteKeeps(original: Tree, t: Tree, lines: seq<Path>, rel: Path, node: Node)
    requires Accounted(original, t, lines, {}) && rel != [] && rel !in t && !Blocked(t, rel, |rel|)
    ensures Accounted(original, WithDirs(t, rel, |rel| - 1)[rel := node],
                      lines + Missing(t, rel, |rel| - 1) + [rel], {})
  {
    WriteKeepsTree(t, rel, node);
    WriteKeepsPaths(t, rel, node);
    RecordedKeeps(original, t, lines, WithDirs(t, rel, |rel| - 1)[rel := node], Missing(t, rel, |rel| - 1) + [rel]);
    Assoc(lines, Missing(t, rel, |rel| - 1), [rel]);
  }

  // ----- the whole install -----

  datatype Entry = Entry(rel: Path, data: string, mode: nat)

  /** The template's own paths are plain ones. */
  predicate PlainTemplate(template: seq<Entry>) {
    forall i :: 0 <= i < |template| ==> LineOk(template[i].rel)
  }

  /** One file of the template, written where nothing is. */
  function AfterEntry(t: Tree, e: Entry): Tree {
    if e.rel == [] then t else AfterWrite(t, e.rel, File(e.data, e.mode))
  }

  /** The tree that the outside tool finds. */
  function AfterTemplate(t: Tree, template: seq<Entry>): Tree {
    if template == [] then t
    else AfterEntry(AfterTemplate(t, template[..|template| - 1]), template[|template| - 1])
  }

  /** What the outside tool's added paths are recorded by: those strictly below a watched directory. */
  predicate Watched(p: Path) { |p| > 1 && p[0] in WATCH }

  /** The watched additions, by depth. */
  ghost predicate Snapshot(order: seq<Path>, added: Tree) {
    Distinct(order) && forall p :: p in order <==> p in added && Watched(p)
  }

  /** The outside tool's additions are in step exactly when all of them are watched. */
  lemma ToolKeepsExactly(original: Tree, t: Tree, lines: seq<Path>, added: Tree, order: seq<Path>)
    requires Accounted(original, t, lines, {}) && WellFormed(t + added) && added.Keys !! t.Keys
    requires Snapshot(order, added)
    ensures Accounted(original, t + added, lines + order, {})
       <==> (forall p :: p in added ==> |p| > 1 && (p[0] == ".claude" || p[0] == ".agents" || p[0] == "openspec"))
  {
    if forall p :: p in added ==> Watched(p) {
      RecordedKeeps(original, t, lines, t + added, order);
    } else {
      var p :| p in added && !Watched(p);
      assert p in t + added && p !in original && p !in lines && p !in order;
    }
  }

  /** The outside tool: what it adds to a tree before it ends, the order its additions are found in, and
    * whether it fails. */
  datatype Tool = Tool(adds: Tree -> Tree, order: Tree -> seq<Path>, fails: Tree -> bool)

  /** On this tree the tool only adds paths. */
  ghost predicate ToolRunsOn(tool: Tool, t: Tree) {
    tool.adds(t).Keys !! t.Keys && WellFormed(t + tool.adds(t)) && Snapshot(tool.order(t), tool.adds(t))
  }

  /** How an install ends: over an existing folder, by a write that raised, in or after the outside tool,
    * or whole; with the paths that it created and did not record. */
  datatype Ending =
    | AlreadyThere
    | Stopped(lost: Option<Path>)
    | InTool(unrecorded: set<Path>)
    | Completed(unrecorded: set<Path>)

  function LeftOver(e: Ending): set<Path> {
    match e
    case AlreadyThere => {}
    case Stopped(lost) => Lost(lost)
    case InTool(unrecorded) => unrecorded
    case Completed(unrecorded) => unrecorded
  }

  function Unwatched(added: Tree): set<Path> {
    set p | p in added && !Watched(p)
  }

  function Members(lines: seq<Path>): set<Path> {
    set p | p in lines
  }

  lemma AddedIsUnrecorded(original: Tree, t: Tree, lines: seq<Path>, added: Tree)
    requires Accounted(original, t, lines, {}) && added.Keys !! t.Keys && WellFormed(t + added)
    ensures Accounted(original, t + added, lines, added.Keys)
  {
  }

  function Min(a: nat, b: nat): nat { if a < b then a else b }

  /** Records the found additions, one after the other, while the changes last. */
  method RecordAll(ins: Installer, order: seq<Path>, ghost original: Tree, ghost unrecorded: set<Path>)
    returns (done: nat)
    requires !ins.dry && ins.repo.folder.Some? && Distinct(order) && Members(order) <= unrecorded
    requires Accounted(original, ins.repo.tree, ins.repo.folder.value, unrecorded)
    modifies ins`created, ins.repo`folder, ins.repo`left
    ensures done == Min(old(ins.repo.left), |order|)
    ensures ins.repo.folder == Some(old(ins.repo.folder).value + order[..done])
    ensures Accounted(original, ins.repo.tree, ins.repo.folder.value, unrecorded - Members(order[..done]))
  {
    ghost var lines := ins.repo.folder.value;
    Unchanged(lines);
    done := 0;
    assert unrecorded - Members(order[..0]) == unrecorded;
    while done < |order|
      invariant done <= |order| && ins.repo.left == old(ins.repo.left) - done
      invariant ins.repo.folder == Some(lines + order[..done])
      invariant Accounted(original, ins.repo.tree, ins.repo.folder.value, unrecorded - Members(order[..done]))
    {
      OneMoreRecorded(original, ins.repo.tree, ins.repo.folder.value, unrecorded, order, done);
      Assoc(lines, order[..done], [order[done]]);
      var ok := ins.Record(order[done]);
      if !ok { return; }
      done := done + 1;
    }
  }

  lemma OneMoreRecorded(original: Tree, t: Tree, lines: seq<Path>, unrecorded: set<Path>, order: seq<Path>, n: nat)
    requires n < |order| && Distinct(order) && Members(order) <= unrecorded
    requires Accounted(original, t, lines, unrecorded - Members(order[..n]))
    ensures Accounted(original, t, lines + [order[n]], unrecorded - Members(order[..n + 1]))
    ensures order[..n + 1] == order[..n] + [order[n]]
  {
    var p := order[n];
    assert p in Members(order) && p !in order[..n];
    assert order[..n + 1] == order[..n] + [p];
    assert unrecorded - Members(order[..n + 1]) == unrecorded - Members(order[..n]) - {p};
    RecordedIsListed(original, t, lines, unrecorded - Members(order[..n]), p);
  }

  /** What the tool adds: nothing when it cannot be started. */
  function Added(tool: Tool, t: Tree, left: nat): Tree {
    if left == 0 then map[] else tool.adds(t)
  }

  /** What of it is recorded: nothing when the tool fails, and else as much as the changes last for, once
    * the tool itself has taken one. */
  function Recorded(tool: Tool, t: Tree, left: nat): seq<Path> {
    if left == 0 || tool.fails(t) then [] else tool.order(t)[..Min(left - 1, |tool.order(t)|)]
  }

  /** All that the tool adds is recorded: it adds nothing, or it succeeds, adds only below the watched
    * directories, and the changes last for all of it. */
  predicate ToolIsClean(tool: Tool, t: Tree, left: nat) {
    left == 0 || tool.adds(t) == map[]
    || (!tool.fails(t) && left > |tool.order(t)| && Unwatched(tool.adds(t)) == {})
  }

  lemma ToolLeavesExactly(tool: Tool, t: Tree, left: nat)
    requires ToolRunsOn(tool, t)
    ensures Added(tool, t, left).Keys - Members(Recorded(tool, t, left)) == {} <==> ToolIsClean(tool, t, left)
  {
    var added, order, recorded := tool.adds(t), tool.order(t), Recorded(tool, t, left);
    var rest := Added(tool, t, left).Keys - Members(recorded);
    if left > 0 && added != map[] {
      var p :| p in added;
      if tool.fails(t) {
        assert p in rest;
      } else if left <= |order| {
        assert order[left - 1] in order && recorded == order[..left - 1];
        assert order[left - 1] in rest;
      } else {
        assert recorded == order;
        assert rest == Unwatched(added);
      }
    }
  }

  /** The outside tool runs, and what it added is recorded, unless it failed. */
  method RunTool(ins: Installer, tool: Tool, ghost original: Tree) returns (ok: bool, unrecorded: set<Path>)
    requires !ins.dry && ins.repo.folder.Some? && Accounted(original, ins.repo.tree, ins.repo.folder.value, {})
    requires ToolRunsOn(tool, ins.repo.tree)
    modifies ins`created, ins.repo
    ensures ins.repo.folder.Some? && Accounted(original, ins.repo.tree, ins.repo.folder.value, unrecorded)
    ensures ins.repo.tree == if old(ins.repo.left) == 0 then old(ins.repo.tree)
                             else old(ins.repo.tree) + tool.adds(old(ins.repo.tree))
    ensures ok <==> !tool.fails(old(ins.repo.tree)) && old(ins.repo.left) > |tool.order(old(ins.repo.tree))|
    ensures var recorded := Recorded(tool, old(ins.repo.tree), old(ins.repo.left));
            && ins.repo.folder == Some(old(ins.repo.folder).value + recorded)
            && unrecorded == Added(tool, old(ins.repo.tree), old(ins.repo.left)).Keys - Members(recorded)
    ensures unrecorded == {} <==> ToolIsClean(tool, old(ins.repo.tree), old(ins.repo.left))
    ensures ok ==> unrecorded == Unwatched(tool.adds(old(ins.repo.tree)))
    ensures AllOk(old(ins.repo.folder).value) && AllOk(tool.order(old(ins.repo.tree))) ==> AllOk(ins.repo.folder.value)
  {
    ghost var lines := ins.repo.folder.value;
    Unchanged(lines);
    ToolLeavesExactly(tool, ins.repo.tree, ins.repo.left);
    if ins.repo.left == 0 {
      return false, {};
    }
    var t := ins.repo.tree;
    var added, order := tool.adds(t), tool.order(t);
    AddedIsUnrecorded(original, t, lines, added);
    ins.repo.tree, ins.repo.left := t + added, ins.repo.left - 1;
    if tool.fails(t) {
      return false, added.Keys;
    }
    var done := RecordAll(ins, order, original, added.Keys);
    ok, unrecorded := done == |order|, added.Keys - Members(order[..done]);
    if ok {
      assert order[..done] == order;
      assert added.Keys - Members(order) == Unwatched(added);
    }
  }

  function TemplateEnds(t: Tree, template: seq<Entry>, left: nat): Progress
    requires PlainTemplate(template)
  {
    if template == [] then Through(left)
    else
      var n := |template| - 1;
      match TemplateEnds(t, template[..n], left)
      case Broken(dirty) => Broken(dirty)
      case Through(more) => WriteEnds(AfterTemplate(t, template[..n]), template[n].rel, more)
  }

  lemma OneMoreEnds(t: Tree, template: seq<Entry>, left: nat, i: nat)
    requires PlainTemplate(template) && i < |template| && TemplateEnds(t, template[..i], left).Through?
    ensures TemplateEnds(t, template[..i + 1], left)
         == WriteEnds(AfterTemplate(t, template[..i]), template[i].rel, TemplateEnds(t, template[..i], left).left)
  {
    assert template[..i + 1][..i] == template[..i];
  }

  lemma {:induction false} BrokenStays(t: Tree, template: seq<Entry>, left: nat, n: nat)
    requires PlainTemplate(template) && n <= |template| && TemplateEnds(t, template[..n], left).Broken?
    ensures TemplateEnds(t, template, left) == TemplateEnds(t, template[..n], left)
    decreases |template| - n
  {
    if n == |template| {
      assert template[..n] == template;
    } else {
      assert template[..n + 1][..n] == template[..n];
      BrokenStays(t, template, left, n + 1);
    }
  }

  /** The changes that the template's writes make, and whether a file stands in the way of none of them. */
  function TemplateCost(t: Tree, template: seq<Entry>): nat
    requires PlainTemplate(template)
  {
    if template == [] then 0
    else
      var n := |template| - 1;
      var m, rel := AfterTemplate(t, template[..n]), template[n].rel;
      TemplateCost(t, template[..n]) + if rel in m then 0 else Cost(m, rel)
  }

  predicate NeverBlocked(t: Tree, template: seq<Entry>) {
    template == []
    || (var n := |template| - 1;
        var m, rel := AfterTemplate(t, template[..n]), template[n].rel;
        NeverBlocked(t, template[..n]) && (rel in m || !Blocked(m, rel, |rel|)))
  }

  /** A template goes through exactly when no file is in its way and the changes last for all of it. */
  lemma {:induction false} ThroughExactly(t: Tree, template: seq<Entry>, left: nat)
    requires PlainTemplate(template)
    ensures TemplateEnds(t, template, left).Through?
       <==> NeverBlocked(t, template) && left >= TemplateCost(t, template)
    ensures TemplateEnds(t, template, left).Through?
       ==> TemplateEnds(t, template, left).left == left - TemplateCost(t, template)
  {
    if template != [] {
      ThroughExactly(t, template[..|template| - 1], left);
    }
  }

  /** One file of the template. */
  method WriteEntry(ins: Installer, e: Entry, ghost original: Tree) returns (ok: bool, lost: Option<Path>)
    requires !ins.dry && LineOk(e.rel) && ins.repo.folder.Some? && AllOk(ins.repo.folder.value)
    requires Accounted(original, ins.repo.tree, ins.repo.folder.value, {})
    modifies ins, ins.repo
    ensures ins.repo.folder.Some? && AllOk(ins.repo.folder.value)
    ensures Accounted(original, ins.repo.tree, ins.repo.folder.value, Lost(lost))
    ensures match WriteEnds(old(ins.repo.tree), e.rel, old(ins.repo.left))
            case Through(left) => ok && lost.None? && ins.repo.left == left
            case Broken(dirty) => !ok && (lost.Some? <==> dirty)
    ensures ok ==> ins.repo.tree == AfterEntry(old(ins.repo.tree), e)
  {
    var outcome := ins.Write(e.rel, e.data, e.mode, original);
    match outcome {
      case Raised(path) => return false, path;
      case _ => return true, None;
    }
  }

  /** The template's files, one by one, until a write raises. */
  method WriteTemplate(ins: Installer, template: seq<Entry>, ghost original: Tree)
    returns (ok: bool, lost: Option<Path>)
    requires !ins.dry && PlainTemplate(template) && ins.repo.folder == Some([])
    requires ins.repo.tree == original && Accounted(original, original, [], {})
    modifies ins, ins.repo
    ensures ins.repo.folder.Some? && AllOk(ins.repo.folder.value)
    ensures Accounted(original, ins.repo.tree, ins.repo.folder.value, Lost(lost))
    ensures ok ==> lost.None? && ins.repo.tree == AfterTemplate(original, template)
    ensures match TemplateEnds(original, template, old(ins.repo.left))
            case Through(left) => ok && ins.repo.left == left
            case Broken(dirty) => !ok && (lost.Some? <==> dirty)
  {
    lost := None;
    for i := 0 to |template|
      invariant ins.repo.folder.Some? && Accounted(original, ins.repo.tree, ins.repo.folder.value, {})
      invariant ins.repo.tree == AfterTemplate(original, template[..i])
      invariant AllOk(ins.repo.folder.value) && lost == None
      invariant TemplateEnds(original, template[..i], old(ins.repo.left)) == Through(ins.repo.left)
    {
      var e := template[i];
      OneMoreEntry(original, template, i);
      OneMoreEnds(original, template, old(ins.repo.left), i);
      ok, lost := WriteEntry(ins, e, original);
      if !ok {
        BrokenStays(original, template, old(ins.repo.left), i + 1);
        return;
      }
    }
    assert template[..|template|] == template;
    ok := true;
  }

  lemma OneMoreEntry(t: Tree, template: seq<Entry>, i: nat)
    requires i < |template|
    ensures AfterTemplate(t, template[..i + 1]) == AfterEntry(AfterTemplate(t, template[..i]), template[i])
  {
    assert template[..i + 1][..i] == template[..i];
  }

  /** Whether an install comes to its end. */
  predicate Completes(t: Tree, template: seq<Entry>, runTool: bool, tool: Tool, left: nat)
    requires PlainTemplate(template)
  {
    match TemplateEnds(t, template, left)
    case Broken(_) => false
    case Through(more) =>
      var t' := AfterTemplate(t, template); runTool ==> !tool.fails(t') && more > |tool.order(t')|
  }

  /** Whether an install records all that it creates. */
  predicate IsClean(t: Tree, template: seq<Entry>, runTool: bool, tool: Tool, left: nat)
    requires PlainTemplate(template)
  {
    match TemplateEnds(t, template, left)
    case Broken(dirty) => !dirty
    case Through(more) => runTool ==> ToolIsClean(tool, AfterTemplate(t, template), more)
  }

  /** What an install records of the outside tool's additions. */
  function ToolLines(t: Tree, template: seq<Entry>, runTool: bool, tool: Tool, left: nat): seq<Path>
    requires PlainTemplate(template)
  {
    match TemplateEnds(t, template, left)
    case Broken(_) => []
    case Through(more) => if runTool then Recorded(tool, AfterTemplate(t, template), more) else []
  }

  lemma AllOkJoins(a: seq<Path>, b: seq<Path>)
    requires AllOk(a)
    ensures AllOk(a + b) <==> AllOk(b)
  {
    if AllOk(a + b) {
      forall i | 0 <= i < |b|
        ensures LineOk(b[i])
      {
        assert (a + b)[|a| + i] == b[i];
      }
    }
  }

  /** `install`: refuses when the adoption folder is there; else writes the template's files one by one,
    * lets the outside tool add its own, and records those. Whatever raises ends it. */
  method Install(ins: Installer, template: seq<Entry>, runTool: bool, tool: Tool) returns (ending: Ending)
    requires !ins.dry && WellFormed(ins.repo.tree) && PlainTemplate(template)
    requires runTool ==> ToolRunsOn(tool, AfterTemplate(ins.repo.tree, template))
    modifies ins, ins.repo
    ensures old(ins.repo.folder).Some? <==> ending == AlreadyThere
    ensures ending == AlreadyThere ==> ins.repo.tree == old(ins.repo.tree) && ins.repo.folder == old(ins.repo.folder)
    ensures ending != AlreadyThere ==>
              ins.repo.folder.Some?
              && Accounted(old(ins.repo.tree), ins.repo.tree, ins.repo.folder.value, LeftOver(ending))
    ensures ending != AlreadyThere ==>
              && (ending.Stopped? <==> TemplateEnds(old(ins.repo.tree), template, old(ins.repo.left)).Broken?)
              && (ending.Completed? <==> Completes(old(ins.repo.tree), template, runTool, tool, old(ins.repo.left)))
    ensures ending != AlreadyThere ==>
              var clean := IsClean(old(ins.repo.tree), template, runTool, tool, old(ins.repo.left));
              && (LeftOver(ending) == {} <==> clean)
              && (InStep(old(ins.repo.tree), ins.repo.tree, ins.repo.folder.value) <==> clean)
    ensures ending != AlreadyThere ==>
              (AllOk(ins.repo.folder.value)
               <==> AllOk(ToolLines(old(ins.repo.tree), template, runTool, tool, old(ins.repo.left))))
    ensures ending.Completed? ==>
              var t := AfterTemplate(old(ins.repo.tree), template);
              && WellFormed(t)
              && (runTool ==>
                    && !tool.fails(t) && ins.repo.tree == t + tool.adds(t)
                    && LeftOver(ending) == Unwatched(tool.adds(t)))
              && (!runTool ==> ins.repo.tree == t && LeftOver(ending) == {})
  {
    if ins.repo.folder.Some? {
      return AlreadyThere;
    }
    ghost var original := ins.repo.tree;
    ins.repo.folder := Some([]);
    var written, lost := WriteTemplate(ins, template, original);
    InStepExactly(original, ins.repo.tree, ins.repo.folder.value, Lost(lost));
    if !written {
      return Stopped(lost);
    }
    if !runTool {
      return Completed({});
    }
    AllOkJoins(ins.repo.folder.value, Recorded(tool, ins.repo.tree, ins.repo.left));
    var ok, unrecorded := RunTool(ins, tool, original);
    InStepExactly(original, ins.repo.tree, ins.repo.folder.value, unrecorded);
    ending := if ok then Completed(unrecorded) else InTool(unrecorded);
  }

  // ----- what is in step -----

  /** The manifest lists all that was created, exactly when nothing was left unrecorded. */
  ghost predicate InStep(original: Tree, t: Tree, lines: seq<Path>) {
    forall p :: p in lines <==> p in t && p !in original
  }

  lemma InStepExactly(original: Tree, t: Tree, lines: seq<Path>, unrecorded: set<Path>)
    requires Accounted(original, t, lines, unrecorded)
    ensures InStep(original, t, lines) <==> unrecorded == {}
  {
    if unrecorded != {} {
      var p :| p in unrecorded;
      assert p in t && p !in original && p !in lines;
    }
  }

  lemma {:induction false} EntryIsThere(t: Tree, template: seq<Entry>, i: nat)
    requires i < |template| && template[i].rel != []
    ensures template[i].rel in AfterTemplate(t, template)
    decreases |template|
  {
    var n := |template| - 1;
    if i < n {
      EntryIsThere(t, template[..n], i);
      var m := AfterTemplate(t, template[..n]);
      if template[n].rel != [] && template[n].rel !in m { WithDirsAt(m, template[n].rel, |template[n].rel| - 1); }
    }
  }

  /** The template has a file below each watched directory. */
  predicate CoversWatch(template: seq<Entry>) {
    forall w :: w in WATCH ==> exists i :: 0 <= i < |template| && |template[i].rel| > 1 && template[i].rel[0] == w
  }

  /** So the watched directories are there before the outside tool runs, and all that it adds in them is
    * below one: a whole install leaves nothing unrecorded. */
  lemma WatchedIsAll(t: Tree, template: seq<Entry>, added: Tree)
    requires WellFormed(AfterTemplate(t, template)) && CoversWatch(template)
    requires added.Keys !! AfterTemplate(t, template).Keys && forall p :: p in added ==> p != [] && p[0] in WATCH
    ensures Unwatched(added) == {}
  {
    var m := AfterTemplate(t, template);
    forall p | p in added
      ensures Watched(p)
    {
      var i :| 0 <= i < |template| && |template[i].rel| > 1 && template[i].rel[0] == p[0];
      assert p == [p[0]] || |p| > 1;
      EntryIsThere(t, template, i);
      assert template[i].rel[..1] == [p[0]];
      AncestorIsDir(m, [p[0]], template[i].rel);
    }
  }
}
