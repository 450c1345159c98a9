/** The order of a plan's windows: when the merged audio is in wall-clock order. */
module MergeOrder {
  import opened MergePlan
  import opened Sorting
  import opened Wrappers

  /** Starts never go back. */
  ghost predicate InOrder(ws: seq<Window>) {
    forall i, j :: 0 <= i < j < |ws| ==> ws[i].started <= ws[j].started
  }

  lemma RowLeOrders()
    ensures Orders(RowLe())
  {
  }

  lemma TaggedLeOrders()
    ensures Orders(TaggedLe())
  {
  }

  /** A rebuilt plan is in wall-clock order, whatever the rows and seams were. */
  lemma RebuiltInOrder(rows: seq<SegmentRow>, seams: seq<Seam>, trash: string -> Option<string>)
    requires PlanOf(rows, seams, trash).Append? && PlanOf(rows, seams, trash).rebuilt
    ensures InOrder(PlanWindows(PlanOf(rows, seams, trash).inputs))
  {
    var tagged := FlatMap(TaggedOf(seams), Sort(rows, RowLe()));
    TaggedLeOrders();
    SortSorts(tagged, TaggedLe());
    RebuiltWindows(Sort(tagged, TaggedLe()), trash);
  }

  /** What a recording's rows are held to: ids and starts are distinct, each row starts with its first
    * seam, and its seams' media order is their time order. */
  ghost predicate WellTimed(rows: seq<SegmentRow>, seams: seq<Seam>) {
    && (forall i, j :: 0 <= i < j < |rows| ==> rows[i].id != rows[j].id && StartOf(rows[i]) != StartOf(rows[j]))
    && (forall i :: 0 <= i < |rows| ==> RowTimed(rows[i], seams))
  }

  ghost predicate RowTimed(row: SegmentRow, seams: seq<Seam>) {
    Effective(row, seams)[0].started == StartOf(row) && ListTimed(Effective(row, seams))
  }

  ghost predicate ListTimed(list: seq<Seam>) {
    forall i, j :: 0 <= i < j < |list| ==> list[i].started <= list[j].started
  }

  function LastStart(row: SegmentRow, seams: seq<Seam>): int {
    var list := Effective(row, seams);
    list[|list| - 1].started
  }

  /** Each row's audio ends its windows before the next row's begins. */
  ghost predicate Apart(ordered: seq<SegmentRow>, seams: seq<Seam>) {
    forall i, j :: 0 <= i < j < |ordered| ==> LastStart(ordered[i], seams) <= StartOf(ordered[j])
  }

  lemma {:induction false} AtLeast(ordered: seq<SegmentRow>, seams: seq<Seam>, low: int)
    requires forall i :: 0 <= i < |ordered| ==> RowTimed(ordered[i], seams) && low <= StartOf(ordered[i])
    ensures forall w :: w in FlatMap(RowWindows(seams), ordered) ==> low <= w.started
  {
    if ordered != [] {
      AtLeast(ordered[1..], seams, low);
      var list := Effective(ordered[0], seams);
      forall w | w in Map(WindowOf, list)
        ensures low <= w.started
      {
        var k :| 0 <= k < |list| && Map(WindowOf, list)[k] == w;
        assert k > 0 ==> list[0].started <= list[k].started;
      }
    }
  }

  lemma RowInOrder(row: SegmentRow, seams: seq<Seam>)
    requires RowTimed(row, seams)
    ensures InOrder(RowWindows(seams)(row))
    ensures forall w :: w in RowWindows(seams)(row) ==> w.started <= LastStart(row, seams)
  {
    var list := Effective(row, seams);
    forall w | w in Map(WindowOf, list)
      ensures w.started <= LastStart(row, seams)
    {
      var k :| 0 <= k < |list| && Map(WindowOf, list)[k] == w;
      assert k < |list| - 1 ==> list[k].started <= list[|list| - 1].started;
    }
  }

  lemma JoinInOrder(a: seq<Window>, b: seq<Window>, mid: int)
    requires InOrder(a) && InOrder(b)
    requires (forall w :: w in a ==> w.started <= mid) && (forall w :: w in b ==> mid <= w.started)
    ensures InOrder(a + b)
  {
    forall i, j | 0 <= i < j < |a + b|
      ensures (a + b)[i].started <= (a + b)[j].started
    {
      if i < |a| <= j {
        assert a[i] in a && b[j - |a|] in b;
      }
    }
  }

  lemma {:induction false} ApartInOrder(ordered: seq<SegmentRow>, seams: seq<Seam>)
    requires Apart(ordered, seams) && forall i :: 0 <= i < |ordered| ==> RowTimed(ordered[i], seams)
    ensures InOrder(FlatMap(RowWindows(seams), ordered))
  {
    if ordered != [] {
      var mid := LastStart(ordered[0], seams);
      ApartInOrder(ordered[1..], seams);
      RowInOrder(ordered[0], seams);
      AtLeast(ordered[1..], seams, mid);
      JoinInOrder(RowWindows(seams)(ordered[0]), FlatMap(RowWindows(seams), ordered[1..]), mid);
    }
  }

  lemma {:induction false} InOrderApart(ordered: seq<SegmentRow>, seams: seq<Seam>, i: nat, j: nat)
    requires i < j < |ordered| && forall k :: 0 <= k < |ordered| ==> RowTimed(ordered[k], seams)
    requires InOrder(FlatMap(RowWindows(seams), ordered))
    ensures LastStart(ordered[i], seams) <= StartOf(ordered[j])
  {
    var a, b := RowWindows(seams)(ordered[0]), FlatMap(RowWindows(seams), ordered[1..]);
    SplitInOrder(a, b);
    if i > 0 {
      InOrderApart(ordered[1..], seams, i - 1, j - 1);
    } else {
      var k := FirstWindowIn(ordered[1..], seams, j - 1);
      LastBeforeNext(a, b, k);
    }
  }

  lemma LastBeforeNext(a: seq<Window>, b: seq<Window>, k: nat)
    requires InOrder(a + b) && a != [] && k < |b|
    ensures a[|a| - 1].started <= b[k].started
  {
    assert (a + b)[|a| - 1] == a[|a| - 1] && (a + b)[|a| + k] == b[k];
  }

  lemma SplitInOrder(a: seq<Window>, b: seq<Window>)
    requires InOrder(a + b)
    ensures InOrder(b)
  {
    forall i, j | 0 <= i < j < |b|
      ensures b[i].started <= b[j].started
    {
      assert (a + b)[|a| + i] == b[i] && (a + b)[|a| + j] == b[j];
    }
  }

  /** Where a row's first window is in the flat list. */
  lemma {:induction false} FirstWindowIn(ordered: seq<SegmentRow>, seams: seq<Seam>, j: nat) returns (k: nat)
    requires j < |ordered| && RowTimed(ordered[j], seams)
    ensures k < |FlatMap(RowWindows(seams), ordered)|
    ensures FlatMap(RowWindows(seams), ordered)[k].started == StartOf(ordered[j])
  {
    var a := RowWindows(seams)(ordered[0]);
    if j == 0 {
      k := 0;
    } else {
      k := FirstWindowIn(ordered[1..], seams, j - 1);
      k := k + |a|;
    }
  }

  lemma SplitIsNotApart(ordered: seq<SegmentRow>, seams: seq<Seam>, i: nat, j: nat)
    requires i < |ordered| && j < |ordered| && Sorted(ordered, RowLe()) && RowTimed(ordered[i], seams)
    requires SplitBy(Effective(ordered[i], seams), ordered[i], ordered[j])
    ensures i < j && LastStart(ordered[i], seams) > StartOf(ordered[j])
  {
  }

  lemma NotApartIsSplit(ordered: seq<SegmentRow>, seams: seq<Seam>, i: nat, j: nat)
    requires i < j < |ordered| && Sorted(ordered, RowLe()) && RowTimed(ordered[i], seams)
    requires ordered[i].id != ordered[j].id && StartOf(ordered[i]) != StartOf(ordered[j])
    requires LastStart(ordered[i], seams) > StartOf(ordered[j])
    ensures SplitBy(Effective(ordered[i], seams), ordered[i], ordered[j])
  {
    assert RowLe()(ordered[i], ordered[j]);
  }

  /** The planner's test for a split row finds exactly the rows that are not apart. */
  lemma SplitExactly(ordered: seq<SegmentRow>, seams: seq<Seam>)
    requires WellTimed(ordered, seams) && Sorted(ordered, RowLe())
    ensures IsInterleaved(ordered, seams) <==> !Apart(ordered, seams)
  {
    if !Apart(ordered, seams) {
      var i, j :| 0 <= i < j < |ordered| && LastStart(ordered[i], seams) > StartOf(ordered[j]);
      NotApartIsSplit(ordered, seams, i, j);
    }
    if IsInterleaved(ordered, seams) {
      var i, j :| 0 <= i < |ordered| && 0 <= j < |ordered| &&
        SplitBy(Effective(ordered[i], seams), ordered[i], ordered[j]);
      SplitIsNotApart(ordered, seams, i, j);
    }
  }

  lemma SortKeepsTimed(rows: seq<SegmentRow>, seams: seq<Seam>)
    requires WellTimed(rows, seams)
    ensures WellTimed(Sort(rows, RowLe()), seams) && Sorted(Sort(rows, RowLe()), RowLe())
  {
    var ordered := Sort(rows, RowLe());
    RowLeOrders();
    SortSorts(rows, RowLe());
    SortPermutes(rows, RowLe());
    forall i | 0 <= i < |ordered|
      ensures RowTimed(ordered[i], seams)
    {
      InMultiset(ordered[i], ordered);
      InMultiset(ordered[i], rows);
    }
    forall i, j | 0 <= i < j < |ordered|
      ensures ordered[i].id != ordered[j].id && StartOf(ordered[i]) != StartOf(ordered[j])
    {
      TwoPlaces(ordered, rows, i, j);
    }
  }

  /** Two places in a sequence are two places in any permutation of it. */
  lemma TwoPlaces<T>(s: seq<T>, t: seq<T>, i: nat, j: nat)
    requires multiset(s) == multiset(t) && i < j < |s|
    ensures exists k, l :: 0 <= k < |t| && 0 <= l < |t| && k != l && t[k] == s[i] && t[l] == s[j]
  {
    Without(s, j);
    assert s[i] in Drop(s, j) by {
      assert Drop(s, j)[i] == s[i];
    }
    InMultiset(s[j], s);
    InMultiset(s[j], t);
    var l :| 0 <= l < |t| && t[l] == s[j];
    Without(t, l);
    InMultiset(s[i], Drop(s, j));
    InMultiset(s[i], Drop(t, l));
    var k :| 0 <= k < |Drop(t, l)| && Drop(t, l)[k] == s[i];
    assert Drop(t, l)[k] == t[if k < l then k else k + 1];
  }

  /** For well-timed rows the plain plan is in wall-clock order exactly when the planner finds no split
    * row, and every plan that appends is in wall-clock order. */
  lemma PlainInOrderExactly(rows: seq<SegmentRow>, seams: seq<Seam>)
    requires WellTimed(rows, seams)
    ensures var ordered := Sort(rows, RowLe());
            InOrder(PlanWindows(Map(InputOf(seams), ordered))) <==> !IsInterleaved(ordered, seams)
  {
    var ordered := Sort(rows, RowLe());
    SortKeepsTimed(rows, seams);
    SplitExactly(ordered, seams);
    PlainWindows(ordered, seams);
    if Apart(ordered, seams) {
      ApartInOrder(ordered, seams);
    } else {
      var i, j :| 0 <= i < j < |ordered| && LastStart(ordered[i], seams) > StartOf(ordered[j]);
      if InOrder(FlatMap(RowWindows(seams), ordered)) {
        InOrderApart(ordered, seams, i, j);
      }
    }
  }

  lemma PlanInOrder(rows: seq<SegmentRow>, seams: seq<Seam>, trash: string -> Option<string>)
    requires WellTimed(rows, seams) && PlanOf(rows, seams, trash).Append?
    ensures InOrder(PlanWindows(PlanOf(rows, seams, trash).inputs))
  {
    if PlanOf(rows, seams, trash).rebuilt {
      RebuiltInOrder(rows, seams, trash);
    } else {
      PlainInOrderExactly(rows, seams);
    }
  }
}
