/** What an install puts in place, told from the template's entries alone. */
module AdoptTemplate {
  import opened Adopt
  import opened AdoptInstall

  /** Writing `rel` makes sure of `p`: it is the path itself, or a directory on the way. */
  predicate Reaches(rel: Path, p: Path) { p != [] && (p == rel || Below(p, rel)) }

  /** The first entry that makes sure of `p`. */
  predicate First(template: seq<Entry>, p: Path, i: nat) {
    i < |template| && Reaches(template[i].rel, p) && forall j :: 0 <= j < i ==> !Reaches(template[j].rel, p)
  }

  predicate Reached(template: seq<Entry>, p: Path) {
    exists i :: 0 <= i < |template| && Reaches(template[i].rel, p)
  }

  /** The original tree with what the entries make sure of: a path that was there is as it was, and a new one
    * is the file of the first entry that reaches it, when that entry names it, and else a directory. */
  ghost predicate Landed(t: Tree, template: seq<Entry>, after: Tree) {
    && (forall p :: p in after <==> p in t || Reached(template, p))
    && (forall p :: p in t ==> p in after && after[p] == t[p])
    && (forall p, i: nat :: First(template, p, i) && p !in t ==>
          p in after && after[p] == if template[i].rel == p then File(template[i].data, template[i].mode) else Dir)
  }

  lemma OnWayReaches(rel: Path, p: Path)
    requires rel != []
    ensures Reaches(rel, p) <==> OnWay(rel, |rel| - 1, p) || p == rel
  {
  }

  /** Below a path that is there, every directory on the way is there. */
  lemma ReachedIsThere(t: Tree, rel: Path, p: Path)
    requires WellFormed(t) && rel in t && Reaches(rel, p)
    ensures p in t
  {
    if p != rel {
      AncestorIsDir(t, p, rel);
    }
  }

  lemma OneMoreReached(front: seq<Entry>, last: Entry, p: Path)
    ensures Reached(front + [last], p) <==> Reached(front, p) || Reaches(last.rel, p)
  {
    var all := front + [last];
    assert all[|front|] == last;
    if Reached(front, p) {
      var i :| 0 <= i < |front| && Reaches(front[i].rel, p);
      assert all[i] == front[i];
    }
  }

  /** The first entry that reaches a path is the last one only for a path that none before reaches. */
  lemma FirstIs(front: seq<Entry>, last: Entry, p: Path, i: nat)
    requires First(front + [last], p, i)
    ensures i < |front| ==> First(front, p, i)
    ensures i == |front| ==> !Reached(front, p) && Reaches(last.rel, p)
  {
    var all := front + [last];
    forall j | 0 <= j < |front| && j < i ensures !Reaches(front[j].rel, p) {
      assert all[j] == front[j];
    }
    if i < |front| {
      assert all[i] == front[i];
    }
  }

  /** An entry that is there already changes nothing. */
  lemma SkippedLands(t: Tree, front: seq<Entry>, m: Tree, e: Entry)
    requires WellFormed(m) && Landed(t, front, m) && e.rel in m
    ensures Landed(t, front + [e], m)
  {
    var all := front + [e];
    forall p ensures p in m <==> p in t || Reached(all, p) {
      OneMoreReached(front, e, p);
      if Reaches(e.rel, p) {
        ReachedIsThere(m, e.rel, p);
      }
    }
    forall p, i: nat | First(all, p, i) && p !in t
      ensures p in m && m[p] == if all[i].rel == p then File(all[i].data, all[i].mode) else Dir
    {
      FirstIs(front, e, p, i);
      if i == |front| {
        ReachedIsThere(m, e.rel, p);
      }
    }
  }

  /** A new entry's file, and its directories. */
  lemma WrittenLands(t: Tree, front: seq<Entry>, m: Tree, e: Entry, after: Tree)
    requires Landed(t, front, m) && e.rel != [] && e.rel !in m
    requires forall p :: p in after <==> p in m || Reaches(e.rel, p)
    requires forall p :: p in m ==> after[p] == m[p]
    requires forall p :: p in after && p !in m ==> after[p] == if p == e.rel then File(e.data, e.mode) else Dir
    ensures Landed(t, front + [e], after)
  {
    var all := front + [e];
    forall p ensures p in after <==> p in t || Reached(all, p) {
      OneMoreReached(front, e, p);
    }
    forall p, i: nat | First(all, p, i) && p !in t
      ensures p in after && after[p] == if all[i].rel == p then File(all[i].data, all[i].mode) else Dir
    {
      FirstIs(front, e, p, i);
      if i < |front| {
        assert p in m && after[p] == m[p];
      } else {
        assert p !in m;
      }
    }
  }

  lemma AfterWriteIs(m: Tree, rel: Path, node: Node)
    requires rel != [] && rel !in m
    ensures var after := AfterWrite(m, rel, node);
      && (forall p :: p in after <==> p in m || Reaches(rel, p))
      && (forall p :: p in m ==> after[p] == m[p])
      && (forall p :: p in after && p !in m ==> after[p] == if p == rel then node else Dir)
  {
    WithDirsAt(m, rel, |rel| - 1);
    forall p ensures Reaches(rel, p) <==> OnWay(rel, |rel| - 1, p) || p == rel {
      OnWayReaches(rel, p);
    }
  }

  lemma NewEntryLands(t: Tree, front: seq<Entry>, m: Tree, e: Entry, after: Tree)
    requires Landed(t, front, m) && e.rel != [] && e.rel !in m
    requires after == AfterWrite(m, e.rel, File(e.data, e.mode))
    ensures Landed(t, front + [e], after)
  {
    AfterWriteIs(m, e.rel, File(e.data, e.mode));
    WrittenLands(t, front, m, e, after);
  }

  lemma NewEntryKeepsTree(m: Tree, e: Entry, after: Tree)
    requires WellFormed(m) && e.rel != [] && e.rel !in m && !Blocked(m, e.rel, |e.rel|)
    requires after == AfterWrite(m, e.rel, File(e.data, e.mode))
    ensures WellFormed(after)
  {
    WriteKeepsTree(m, e.rel, File(e.data, e.mode));
  }

  lemma EntryLands(t: Tree, front: seq<Entry>, m: Tree, e: Entry, after: Tree)
    requires WellFormed(m) && Landed(t, front, m) && e.rel != []
    requires e.rel in m || !Blocked(m, e.rel, |e.rel|)
    requires after == AfterEntry(m, e)
    ensures WellFormed(after) && Landed(t, front + [e], after)
  {
    if e.rel in m {
      SkippedLands(t, front, m, e);
    } else {
      NewEntryLands(t, front, m, e, after);
      NewEntryKeepsTree(m, e, after);
    }
  }

  /** When no file is in its way, a template's entries land: each with its data and its mode where nothing
    * was, in directories made for it, and nothing else changes. */
  lemma {:induction false} TemplateLands(t: Tree, template: seq<Entry>)
    requires WellFormed(t) && PlainTemplate(template) && NeverBlocked(t, template)
    ensures WellFormed(AfterTemplate(t, template)) && Landed(t, template, AfterTemplate(t, template))
    decreases |template|
  {
    if template != [] {
      var front, e := template[..|template| - 1], template[|template| - 1];
      TemplateLands(t, front);
      assert template == front + [e] && LineOk(e.rel);
      EntryLands(t, front, AfterTemplate(t, front), e, AfterTemplate(t, template));
    }
  }

  /** A file lies strictly above the path. */
  predicate FileAbove(t: Tree, rel: Path) { exists p :: p in t && p != [] && Below(p, rel) && t[p].File? }

  lemma BlockedExactly(t: Tree, rel: Path)
    ensures Blocked(t, rel, |rel|) <==> FileAbove(t, rel)
  {
    if Blocked(t, rel, |rel|) {
      var i :| 0 < i < |rel| && FileAt(t, rel[..i]);
      assert rel[..i] in t && Below(rel[..i], rel);
    }
    if FileAbove(t, rel) {
      var p :| p in t && p != [] && Below(p, rel) && t[p].File?;
      assert p == rel[..|p|] && FileAt(t, rel[..|p|]);
    }
  }

  /** A template is blocked exactly when a file lies above one of its paths: one that was there, or one that
    * an entry before it put there. */
  lemma {:induction false} BlockedTemplateExactly(t: Tree, template: seq<Entry>)
    requires WellFormed(t) && PlainTemplate(template)
    ensures NeverBlocked(t, template) <==> !exists i :: 0 <= i < |template| && InTheWay(t, template, i)
    decreases |template|
  {
    if template != [] {
      var n := |template| - 1;
      var front, e := template[..n], template[n];
      BlockedTemplateExactly(t, front);
      assert template == front + [e];
      forall i | 0 <= i < n ensures InTheWay(t, front, i) <==> InTheWay(t, template, i) {
        assert front[i] == template[i] && front[..i] == template[..i];
      }
      if NeverBlocked(t, front) {
        TemplateLands(t, front);
        LastInTheWay(t, front, e);
      }
    }
  }

  /** A file above entry `i`'s path: an original one, or that of an entry before it. */
  predicate InTheWay(t: Tree, template: seq<Entry>, i: nat)
    requires i < |template|
  {
    || FileAbove(t, template[i].rel)
    || exists j :: 0 <= j < i && FileOfEntry(t, template, j) && Below(template[j].rel, template[i].rel)
  }

  /** Entry `j` puts its file in place: nothing was there, and no entry before it reaches its path. */
  predicate FileOfEntry(t: Tree, template: seq<Entry>, j: nat)
    requires j < |template|
  {
    template[j].rel !in t && First(template, template[j].rel, j)
  }

  lemma LastInTheWay(t: Tree, front: seq<Entry>, e: Entry)
    requires WellFormed(t) && PlainTemplate(front + [e]) && NeverBlocked(t, front)
    requires WellFormed(AfterTemplate(t, front)) && Landed(t, front, AfterTemplate(t, front))
    ensures var m := AfterTemplate(t, front);
      (e.rel in m || !Blocked(m, e.rel, |e.rel|)) <==> !InTheWay(t, front + [e], |front|)
  {
    var m, all := AfterTemplate(t, front), front + [e];
    BlockedExactly(m, e.rel);
    if FileAbove(m, e.rel) {
      var p :| p in m && p != [] && Below(p, e.rel) && m[p].File?;
      AboveIsInTheWay(t, front, e, p);
    }
    if InTheWay(t, all, |front|) {
      InTheWayIsAbove(t, front, e);
      FileAboveNothing(m, e.rel);
    }
  }

  lemma FileAboveNothing(m: Tree, rel: Path)
    requires WellFormed(m) && FileAbove(m, rel)
    ensures rel !in m
  {
    var p :| p in m && p != [] && Below(p, rel) && m[p].File?;
    if rel in m {
      AncestorIsDir(m, p, rel);
    }
  }

  lemma AboveIsInTheWay(t: Tree, front: seq<Entry>, e: Entry, p: Path)
    requires Landed(t, front, AfterTemplate(t, front)) && p != [] && Below(p, e.rel)
    requires FileAt(AfterTemplate(t, front), p)
    ensures InTheWay(t, front + [e], |front|)
  {
    var all := front + [e];
    if p in t {
      assert FileAbove(t, all[|front|].rel);
    } else {
      var j := FirstToReach(front, p);
      assert front[j].rel == p;
      FirstStays(front, e, p, j);
      assert FileOfEntry(t, all, j) && Below(all[j].rel, all[|front|].rel);
    }
  }

  lemma InTheWayIsAbove(t: Tree, front: seq<Entry>, e: Entry)
    requires Landed(t, front, AfterTemplate(t, front)) && PlainTemplate(front + [e])
    requires InTheWay(t, front + [e], |front|)
    ensures FileAbove(AfterTemplate(t, front), e.rel)
  {
    var m, all := AfterTemplate(t, front), front + [e];
    if FileAbove(t, e.rel) {
      var p :| p in t && p != [] && Below(p, e.rel) && t[p].File?;
      assert p in m && m[p] == t[p];
    } else {
      var j :| 0 <= j < |front| && FileOfEntry(t, all, j) && Below(all[j].rel, all[|front|].rel);
      FirstIs(front, e, all[j].rel, j);
      assert m[front[j].rel].File? && front[j].rel != [];
    }
  }

  lemma {:induction false} FirstToReach(template: seq<Entry>, p: Path) returns (j: nat)
    requires Reached(template, p)
    ensures First(template, p, j)
  {
    j := 0;
    while !Reaches(template[j].rel, p)
      invariant j < |template| && forall k :: 0 <= k < j ==> !Reaches(template[k].rel, p)
      decreases |template| - j
    {
      j := j + 1;
    }
  }

  lemma FirstStays(front: seq<Entry>, e: Entry, p: Path, j: nat)
    requires First(front, p, j)
    ensures First(front + [e], p, j)
  {
    assert (front + [e])[j] == front[j];
  }
}
