/**
 * Planning the merge of a recording's segments: the inputs in wall-clock order with the windows each
 * carries. A time stamp is its instant; texts of the one ISO format compare as their instants.
 */
module MergePlan {
  import opened Sorting
  import opened Wrappers

  datatype SegmentRow = SegmentRow(id: string, ordinal: int, r2Key: string, started: Option<int>, ended: Option<int>)

  datatype Seam = Seam(segmentId: string, offsetMs: int, started: int, ended: Option<int>, sourceKey: string)

  datatype SeamOut = SeamOut(offsetMs: int, started: int, ended: Option<int>, sourceKey: string)

  datatype MergeInput = MergeInput(key: string, seams: seq<SeamOut>)

  datatype Plan = Interleaved | Append(inputs: seq<MergeInput>, inputIds: seq<string>, rebuilt: bool)

  /** What must survive a merge of a seam: when it began and ended, and the chunk it came from. */
  datatype Window = Window(started: int, ended: Option<int>, sourceKey: string)

  function StartOf(row: SegmentRow): int { if row.started.Some? then row.started.value else 0 }

  function RowLe(): (SegmentRow, SegmentRow) -> bool {
    (a: SegmentRow, b: SegmentRow) =>
      StartOf(a) < StartOf(b) || (StartOf(a) == StartOf(b) && a.ordinal <= b.ordinal)
  }

  function SeamLe(): (Seam, Seam) -> bool {
    (a: Seam, b: Seam) => a.offsetMs < b.offsetMs || (a.offsetMs == b.offsetMs && a.started <= b.started)
  }

  function OwnSeams(id: string, seams: seq<Seam>): seq<Seam> {
    if seams == [] then []
    else (if seams[0].segmentId == id then [seams[0]] else []) + OwnSeams(id, seams[1..])
  }

  /** A row's seams in media order, or its own window when it has none. */
  function Effective(row: SegmentRow, seams: seq<Seam>): (list: seq<Seam>)
    ensures list != []
  {
    var own := OwnSeams(row.id, seams);
    SortPermutes(own, SeamLe());
    if own != [] then Sort(own, SeamLe())
    else [Seam(row.id, 0, StartOf(row), row.ended, row.r2Key)]
  }

  function Out(s: Seam): SeamOut { SeamOut(s.offsetMs, s.started, s.ended, s.sourceKey) }

  /** Another row begins strictly between the first and the last seam of this one. */
  predicate SplitBy(list: seq<Seam>, row: SegmentRow, o: SegmentRow)
    requires list != []
  {
    |list| >= 2 && o.id != row.id && list[0].started < StartOf(o) < list[|list| - 1].started
  }

  predicate IsInterleaved(ordered: seq<SegmentRow>, seams: seq<Seam>) {
    exists i, j :: 0 <= i < |ordered| && 0 <= j < |ordered| &&
      SplitBy(Effective(ordered[i], seams), ordered[i], ordered[j])
  }

  function InputOf(seams: seq<Seam>): SegmentRow -> MergeInput {
    (row: SegmentRow) => MergeInput(row.r2Key, Map(Out, Effective(row, seams)))
  }

  /** A seam with its row, and whether it is the row's only one. */
  datatype Tagged = Tagged(row: SegmentRow, seam: Seam, single: bool)

  function TagAll(row: SegmentRow, list: seq<Seam>, single: bool): seq<Tagged> {
    if list == [] then [] else [Tagged(row, list[0], single)] + TagAll(row, list[1..], single)
  }

  function TaggedOf(seams: seq<Seam>): SegmentRow -> seq<Tagged> {
    (row: SegmentRow) => TagAll(row, Effective(row, seams), |Effective(row, seams)| == 1)
  }

  function TaggedLe(): (Tagged, Tagged) -> bool {
    (a: Tagged, b: Tagged) => a.seam.started <= b.seam.started
  }

  function FlatMap<A, B>(f: A -> seq<B>, s: seq<A>): seq<B> {
    if s == [] then [] else f(s[0]) + FlatMap(f, s[1..])
  }

  /** Where a chunk's audio is now: the live row's blob, or its original in the trash. */
  function Locate(t: Tagged, trash: string -> Option<string>): Option<string> {
    if t.single && t.seam.sourceKey == t.row.r2Key then Some(t.row.r2Key) else trash(t.seam.sourceKey)
  }

  function Rebuild(all: seq<Tagged>, trash: string -> Option<string>): Option<seq<MergeInput>> {
    if all == [] then Some([])
    else
      var n := |all| - 1;
      match Rebuild(all[..n], trash)
      case None => None
      case Some(done) =>
        var key := Locate(all[n], trash);
        if key.None? then None
        else Some(done + [MergeInput(key.value, [Out(all[n].seam).(offsetMs := 0)])])
  }

  function Ids(rows: seq<SegmentRow>): seq<string> { Map((row: SegmentRow) => row.id, rows) }

  function PlanOf(rows: seq<SegmentRow>, seams: seq<Seam>, trash: string -> Option<string>): Plan {
    if exists i :: 0 <= i < |rows| && rows[i].started.None? then Interleaved
    else
      var ordered := Sort(rows, RowLe());
      if !IsInterleaved(ordered, seams) then Append(Map(InputOf(seams), ordered), Ids(ordered), false)
      else match Rebuild(Sort(FlatMap(TaggedOf(seams), ordered), TaggedLe()), trash)
           case None => Interleaved
           case Some(inputs) => Append(inputs, Ids(ordered), true)
  }

  /** The originals, looked up one after another. */
  method RebuildInputs(all: seq<Tagged>, trash: string -> Option<string>) returns (inputs: Option<seq<MergeInput>>)
    ensures inputs == Rebuild(all, trash)
  {
    var done: seq<MergeInput> := [];
    for n := 0 to |all|
      invariant Rebuild(all[..n], trash) == Some(done)
    {
      assert all[..n + 1][..n] == all[..n];
      var key := Locate(all[n], trash);
      if key.None? {
        MissingStays(all, trash, n + 1);
        return None;
      }
      done := done + [MergeInput(key.value, [Out(all[n].seam).(offsetMs := 0)])];
    }
    assert all[..|all|] == all;
    return Some(done);
  }

  /** The planner; its last loop looks up one original after another and gives up on a missing one. */
  method PlanMerge(rows: seq<SegmentRow>, seams: seq<Seam>, trash: string -> Option<string>) returns (plan: Plan)
    ensures plan == PlanOf(rows, seams, trash)
  {
    if exists i :: 0 <= i < |rows| && rows[i].started.None? {
      return Interleaved;
    }
    var ordered := Sort(rows, RowLe());
    if !IsInterleaved(ordered, seams) {
      return Append(Map(InputOf(seams), ordered), Ids(ordered), false);
    }
    var inputs := RebuildInputs(Sort(FlatMap(TaggedOf(seams), ordered), TaggedLe()), trash);
    if inputs.None? { return Interleaved; }
    return Append(inputs.value, Ids(ordered), true);
  }

  lemma {:induction false} MissingStays(all: seq<Tagged>, trash: string -> Option<string>, n: nat)
    requires n <= |all| && Rebuild(all[..n], trash) == None
    ensures Rebuild(all, trash) == None
    decreases |all| - n
  {
    if n == |all| {
      assert all[..n] == all;
    } else {
      assert all[..n + 1][..n] == all[..n];
      MissingStays(all, trash, n + 1);
    }
  }

  // ----- conservation -----

  function WindowOf(s: Seam): Window { Window(s.started, s.ended, s.sourceKey) }

  function OutWindow(s: SeamOut): Window { Window(s.started, s.ended, s.sourceKey) }

  /** The windows of the rows' effective seams, row after row. */
  function RowWindows(seams: seq<Seam>): SegmentRow -> seq<Window> {
    (row: SegmentRow) => Map(WindowOf, Effective(row, seams))
  }

  function InputWindows(): MergeInput -> seq<Window> {
    (input: MergeInput) => Map(OutWindow, input.seams)
  }

  function PlanWindows(inputs: seq<MergeInput>): seq<Window> { FlatMap(InputWindows(), inputs) }

  lemma {:induction false} FlatMapSum<A, B>(f: A -> seq<B>, s: seq<A>, t: seq<A>)
    ensures FlatMap(f, s + t) == FlatMap(f, s) + FlatMap(f, t)
  {
    if s == [] {
      assert s + t == t;
    } else {
      FlatMapSum(f, s[1..], t);
      assert (s + t)[0] == s[0] && (s + t)[1..] == s[1..] + t;
      Assoc(f(s[0]), FlatMap(f, s[1..]), FlatMap(f, t));
    }
  }

  lemma FlatMapDrop<A, B>(f: A -> seq<B>, s: seq<A>, j: nat)
    requires j < |s|
    ensures multiset(FlatMap(f, s)) == multiset(f(s[j])) + multiset(FlatMap(f, Drop(s, j)))
  {
    FlatMapSum(f, s[..j], s[j + 1..]);
    FlatMapSum(f, s[..j], s[j..]);
    assert s == s[..j] + s[j..] && s[j..][0] == s[j] && s[j..][1..] == s[j + 1..];
  }

  lemma {:induction false} FlatMapKeepsMultiset<A, B>(f: A -> seq<B>, s: seq<A>, t: seq<A>)
    requires multiset(s) == multiset(t)
    ensures multiset(FlatMap(f, s)) == multiset(FlatMap(f, t))
  {
    if s == [] {
      assert |multiset(t)| == 0;
    } else {
      InMultiset(s[0], s);
      InMultiset(s[0], t);
      var j :| 0 <= j < |t| && t[j] == s[0];
      Without(s, 0);
      Without(t, j);
      FlatMapKeepsMultiset(f, Drop(s, 0), Drop(t, j));
      FlatMapDrop(f, s, 0);
      FlatMapDrop(f, t, j);
    }
  }

  lemma {:induction false} OutKeepsWindows(list: seq<Seam>)
    ensures Map(OutWindow, Map(Out, list)) == Map(WindowOf, list)
  {
    if list != [] {
      OutKeepsWindows(list[1..]);
      assert Map(Out, list)[1..] == Map(Out, list[1..]);
    }
  }

  lemma {:induction false} PlainWindows(ordered: seq<SegmentRow>, seams: seq<Seam>)
    ensures PlanWindows(Map(InputOf(seams), ordered)) == FlatMap(RowWindows(seams), ordered)
  {
    if ordered != [] {
      PlainWindows(ordered[1..], seams);
      OutKeepsWindows(Effective(ordered[0], seams));
      assert Map(InputOf(seams), ordered)[1..] == Map(InputOf(seams), ordered[1..]);
    }
  }

  function TaggedWindow(t: Tagged): Window { WindowOf(t.seam) }

  lemma {:induction false} RebuiltWindows(all: seq<Tagged>, trash: string -> Option<string>)
    ensures Rebuild(all, trash).Some? ==>
              PlanWindows(Rebuild(all, trash).value) == Map(TaggedWindow, all)
              && |Rebuild(all, trash).value| == |all|
  {
    if all != [] && Rebuild(all, trash).Some? {
      var n := |all| - 1;
      RebuiltWindows(all[..n], trash);
      var done := Rebuild(all[..n], trash).value;
      var last := Rebuild(all, trash).value[n];
      assert Rebuild(all, trash).value == done + [last];
      OneMoreRebuilt(done, last, all[..n], all[n]);
      assert all == all[..n] + [all[n]];
    }
  }

  lemma OneMoreRebuilt(done: seq<MergeInput>, last: MergeInput, front: seq<Tagged>, t: Tagged)
    requires PlanWindows(done) == Map(TaggedWindow, front)
    requires |last.seams| == 1 && OutWindow(last.seams[0]) == TaggedWindow(t)
    ensures PlanWindows(done + [last]) == Map(TaggedWindow, front + [t])
  {
    FlatMapSum(InputWindows(), done, [last]);
    OneWindow(last);
    MapSum(TaggedWindow, front, [t]);
    assert [t][1..] == [];
    assert Map(TaggedWindow, [t]) == [TaggedWindow(t)];
  }

  lemma OneWindow(input: MergeInput)
    requires |input.seams| == 1
    ensures PlanWindows([input]) == [OutWindow(input.seams[0])]
  {
    assert [input][1..] == [] && input.seams[1..] == [];
    var none: seq<Window> := [];
    assert Map(OutWindow, input.seams[1..]) == none;
    assert FlatMap(InputWindows(), [input][1..]) == none;
    assert Map(OutWindow, input.seams) == [OutWindow(input.seams[0])] + none;
  }

  lemma {:induction false} TagsKeepWindows(row: SegmentRow, list: seq<Seam>, single: bool)
    ensures Map(TaggedWindow, TagAll(row, list, single)) == Map(WindowOf, list)
  {
    if list != [] {
      TagsKeepWindows(row, list[1..], single);
      assert TagAll(row, list, single)[1..] == TagAll(row, list[1..], single);
    }
  }

  lemma {:induction false} TaggedWindows(ordered: seq<SegmentRow>, seams: seq<Seam>)
    ensures Map(TaggedWindow, FlatMap(TaggedOf(seams), ordered)) == FlatMap(RowWindows(seams), ordered)
  {
    if ordered != [] {
      var list := Effective(ordered[0], seams);
      TaggedWindows(ordered[1..], seams);
      TagsKeepWindows(ordered[0], list, |list| == 1);
      MapSum(TaggedWindow, TagAll(ordered[0], list, |list| == 1), FlatMap(TaggedOf(seams), ordered[1..]));
    }
  }

  /** Whenever the plan appends, plainly or rebuilt, its input ids are the rows' ids and its seams carry
    * exactly the windows of the rows' effective seams: none is lost, doubled or made up. */
  lemma PlanConserves(rows: seq<SegmentRow>, seams: seq<Seam>, trash: string -> Option<string>)
    requires PlanOf(rows, seams, trash).Append?
    ensures var plan := PlanOf(rows, seams, trash);
            && multiset(plan.inputIds) == multiset(Ids(rows))
            && multiset(PlanWindows(plan.inputs)) == multiset(FlatMap(RowWindows(seams), rows))
  {
    var ordered := Sort(rows, RowLe());
    SortPermutes(rows, RowLe());
    MapKeepsMultiset((row: SegmentRow) => row.id, ordered, rows);
    FlatMapKeepsMultiset(RowWindows(seams), ordered, rows);
    if !IsInterleaved(ordered, seams) {
      PlainWindows(ordered, seams);
    } else {
      var tagged := FlatMap(TaggedOf(seams), ordered);
      TaggedWindows(ordered, seams);
      SortPermutes(tagged, TaggedLe());
      MapKeepsMultiset(TaggedWindow, Sort(tagged, TaggedLe()), tagged);
      RebuiltWindows(Sort(tagged, TaggedLe()), trash);
    }
  }
}
