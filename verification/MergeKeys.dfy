/**
 * What a merge plan's inputs are, told from the recording's rows and seams alone: which audio each input
 * reads, which windows it carries and where, and when there is no plan.
 */
module MergeKeys {
  import opened MergeOrder
  import opened MergePlan
  import opened Sorting
  import opened Wrappers

  // ----- the rows and their seams -----

  predicate Own(seams: seq<Seam>, row: SegmentRow, s: Seam) { s in seams && s.segmentId == row.id }

  predicate HasOwn(seams: seq<Seam>, row: SegmentRow) { exists k :: 0 <= k < |seams| && seams[k].segmentId == row.id }

  /** Media order: by offset, then by start. */
  predicate NotAfter(a: Seam, b: Seam) {
    a.offsetMs < b.offsetMs || (a.offsetMs == b.offsetMs && a.started <= b.started)
  }

  /** The windows a row carries: those of its seams, each as often as it is stored, in media order and with
    * their offsets; or the row's own window at the start of its blob. */
  ghost predicate Carries(seams: seq<Seam>, row: SegmentRow, list: seq<SeamOut>) {
    if HasOwn(seams, row) then exists own :: IsOwnInOrder(seams, row, own) && Copies(own, list)
    else row.started.Some? && list == [SeamOut(0, row.started.value, row.ended, row.r2Key)]
  }

  ghost predicate IsOwnInOrder(seams: seq<Seam>, row: SegmentRow, own: seq<Seam>) {
    && (forall s :: multiset(own)[s] == if s.segmentId == row.id then multiset(seams)[s] else 0)
    && (forall i, j :: 0 <= i < j < |own| ==> NotAfter(own[i], own[j]))
  }

  predicate Copies(own: seq<Seam>, list: seq<SeamOut>) {
    && |list| == |own|
    && forall i :: 0 <= i < |own| ==>
         && list[i].offsetMs == own[i].offsetMs && list[i].started == own[i].started
         && list[i].ended == own[i].ended && list[i].sourceKey == own[i].sourceKey
  }

  /** A seam to place: one of the row's, or the row's own window when it has none. */
  predicate ToPlace(rows: seq<SegmentRow>, seams: seq<Seam>, row: SegmentRow, s: Seam) {
    && row in rows
    && (Own(seams, row, s) ||
        (!HasOwn(seams, row) && row.started.Some? && s == Seam(row.id, 0, row.started.value, row.ended, row.r2Key)))
  }

  predicate AtMostOne(seams: seq<Seam>, row: SegmentRow) {
    forall i, j :: 0 <= i < |seams| && 0 <= j < |seams| && seams[i].segmentId == row.id && seams[j].segmentId == row.id
                   ==> i == j
  }

  /** The row's blob is the very chunk of the seam. */
  predicate IsLive(seams: seq<Seam>, row: SegmentRow, s: Seam) {
    AtMostOne(seams, row) && s.sourceKey == row.r2Key
  }

  /** Another row begins between the first and the last seam of this one. */
  ghost predicate Split(rows: seq<SegmentRow>, seams: seq<Seam>) {
    exists row, o, a, b :: SplitAt(rows, seams, row, o, a, b)
  }

  ghost predicate SplitAt(rows: seq<SegmentRow>, seams: seq<Seam>, row: SegmentRow, o: SegmentRow, a: Seam, b: Seam) {
    && row in rows && o in rows && o.id != row.id && Own(seams, row, a) && Own(seams, row, b)
    && (forall s :: Own(seams, row, s) ==> NotAfter(a, s) && NotAfter(s, b))
    && o.started.Some? && a.started < o.started.value < b.started
  }

  ghost predicate Missing(rows: seq<SegmentRow>, seams: seq<Seam>, trash: string -> Option<string>) {
    exists row, s :: MissingAt(rows, seams, trash, row, s)
  }

  predicate MissingAt(rows: seq<SegmentRow>, seams: seq<Seam>, trash: string -> Option<string>,
                      row: SegmentRow, s: Seam)
  {
    ToPlace(rows, seams, row, s) && !IsLive(seams, row, s) && trash(s.sourceKey).None?
  }

  // ----- what a row carries -----

  lemma {:induction false} OwnSeamsCount(id: string, seams: seq<Seam>, s: Seam)
    ensures multiset(OwnSeams(id, seams))[s] == if s.segmentId == id then multiset(seams)[s] else 0
  {
    if seams != [] {
      OwnSeamsCount(id, seams[1..], s);
      assert seams == [seams[0]] + seams[1..];
    }
  }

  lemma OwnSeamsAreOwn(row: SegmentRow, seams: seq<Seam>, s: Seam)
    ensures s in OwnSeams(row.id, seams) <==> Own(seams, row, s)
  {
    OwnSeamsCount(row.id, seams, s);
    InMultiset(s, OwnSeams(row.id, seams));
    InMultiset(s, seams);
  }

  lemma HasOwnSeams(row: SegmentRow, seams: seq<Seam>)
    ensures HasOwn(seams, row) <==> OwnSeams(row.id, seams) != []
  {
    if OwnSeams(row.id, seams) != [] {
      OwnSeamsAreOwn(row, seams, OwnSeams(row.id, seams)[0]);
    }
    if HasOwn(seams, row) {
      var k :| 0 <= k < |seams| && seams[k].segmentId == row.id;
      OwnSeamsAreOwn(row, seams, seams[k]);
    }
  }

  lemma {:induction false} AtMostOneSeam(row: SegmentRow, seams: seq<Seam>)
    ensures AtMostOne(seams, row) <==> |OwnSeams(row.id, seams)| <= 1
  {
    if seams != [] {
      AtMostOneSeam(row, seams[1..]);
      HasOwnSeams(row, seams[1..]);
      AtMostOneStep(row, seams);
    }
  }

  lemma AtMostOneStep(row: SegmentRow, seams: seq<Seam>)
    requires seams != []
    ensures AtMostOne(seams, row)
       <==> AtMostOne(seams[1..], row) && !(seams[0].segmentId == row.id && HasOwn(seams[1..], row))
  {
    if AtMostOne(seams, row) {
      forall i, j | 0 <= i < |seams[1..]| && 0 <= j < |seams[1..]|
                    && seams[1..][i].segmentId == row.id && seams[1..][j].segmentId == row.id
        ensures i == j
      {
        assert seams[i + 1].segmentId == row.id && seams[j + 1].segmentId == row.id;
      }
    } else {
      var i, j :| 0 <= i < |seams| && 0 <= j < |seams| && seams[i].segmentId == row.id
                  && seams[j].segmentId == row.id && i != j;
      if i > 0 && j > 0 {
        assert seams[1..][i - 1].segmentId == row.id && seams[1..][j - 1].segmentId == row.id;
      } else {
        var k := i + j - 1;
        assert seams[1..][k].segmentId == row.id;
      }
    }
  }

  lemma SeamLeOrders()
    ensures Orders(SeamLe())
  {
  }

  lemma OwnInOrder(row: SegmentRow, seams: seq<Seam>)
    requires HasOwn(seams, row)
    ensures IsOwnInOrder(seams, row, Effective(row, seams))
  {
    var own := OwnSeams(row.id, seams);
    HasOwnSeams(row, seams);
    SeamLeOrders();
    SortSorts(own, SeamLe());
    SortPermutes(own, SeamLe());
    forall s ensures multiset(Effective(row, seams))[s] == if s.segmentId == row.id then multiset(seams)[s] else 0 {
      OwnSeamsCount(row.id, seams, s);
    }
  }

  lemma RowCarries(row: SegmentRow, seams: seq<Seam>)
    requires row.started.Some?
    ensures Carries(seams, row, Map(Out, Effective(row, seams)))
  {
    HasOwnSeams(row, seams);
    if HasOwn(seams, row) {
      OwnInOrder(row, seams);
      assert Copies(Effective(row, seams), Map(Out, Effective(row, seams)));
    }
  }

  /** The seams of a row that the planner sees are those to place. */
  lemma EffectiveIsToPlace(rows: seq<SegmentRow>, seams: seq<Seam>, row: SegmentRow, s: Seam)
    requires row in rows && row.started.Some?
    ensures s in Effective(row, seams) <==> ToPlace(rows, seams, row, s)
    ensures |Effective(row, seams)| == 1 <==> AtMostOne(seams, row)
  {
    var own := OwnSeams(row.id, seams);
    HasOwnSeams(row, seams);
    OwnSeamsAreOwn(row, seams, s);
    AtMostOneSeam(row, seams);
    SortPermutes(own, SeamLe());
    InMultiset(s, own);
    InMultiset(s, Sort(own, SeamLe()));
  }

  // ----- the plain plan -----

  predicate AllStarted(rows: seq<SegmentRow>) { forall i :: 0 <= i < |rows| ==> rows[i].started.Some? }

  /** The rows by start, then by ordinal. */
  ghost predicate Arranged(ordered: seq<SegmentRow>, rows: seq<SegmentRow>) {
    && multiset(ordered) == multiset(rows)
    && (forall i :: 0 <= i < |ordered| ==> ordered[i].started.Some?)
    && forall i, j :: 0 <= i < j < |ordered| ==>
         || ordered[i].started.value < ordered[j].started.value
         || (ordered[i].started.value == ordered[j].started.value && ordered[i].ordinal <= ordered[j].ordinal)
  }

  lemma SortArranges(rows: seq<SegmentRow>)
    requires AllStarted(rows)
    ensures Arranged(Sort(rows, RowLe()), rows)
    ensures forall row :: row in Sort(rows, RowLe()) <==> row in rows
  {
    var ordered := Sort(rows, RowLe());
    RowLeOrders();
    SortSorts(rows, RowLe());
    SortPermutes(rows, RowLe());
    forall row ensures row in ordered <==> row in rows {
      InMultiset(row, ordered);
      InMultiset(row, rows);
    }
    forall i, j | 0 <= i < j < |ordered|
      ensures ordered[i].started.Some? && ordered[j].started.Some? && RowLe()(ordered[i], ordered[j])
    {
      assert ordered[i] in rows && ordered[j] in rows;
    }
    forall i | 0 <= i < |ordered| ensures ordered[i].started.Some? {
      assert ordered[i] in rows;
    }
  }

  /** A plain plan takes the rows by start and ordinal; each input reads its row's blob and carries that
    * row's windows. */
  lemma PlainInputs(rows: seq<SegmentRow>, seams: seq<Seam>, trash: string -> Option<string>)
    returns (ordered: seq<SegmentRow>)
    requires PlanOf(rows, seams, trash).Append? && !PlanOf(rows, seams, trash).rebuilt
    ensures Arranged(ordered, rows)
    ensures var plan := PlanOf(rows, seams, trash);
      && |plan.inputIds| == |plan.inputs| == |ordered|
      && forall i :: 0 <= i < |ordered| ==>
           && plan.inputIds[i] == ordered[i].id
           && plan.inputs[i].key == ordered[i].r2Key
           && Carries(seams, ordered[i], plan.inputs[i].seams)
  {
    ordered := Sort(rows, RowLe());
    SortArranges(rows);
    forall i | 0 <= i < |ordered| ensures Carries(seams, ordered[i], Map(Out, Effective(ordered[i], seams))) {
      RowCarries(ordered[i], seams);
    }
  }

  // ----- the rebuilt plan -----

  /** An input that reads one seam's own chunk, from its start. */
  predicate Reads(seams: seq<Seam>, trash: string -> Option<string>, row: SegmentRow, s: Seam, input: MergeInput) {
    && input.seams == [SeamOut(0, s.started, s.ended, s.sourceKey)]
    && (if IsLive(seams, row, s) then input.key == row.r2Key else trash(s.sourceKey) == Some(input.key))
  }

  lemma {:induction false} TagAllHas(row: SegmentRow, list: seq<Seam>, single: bool, t: Tagged)
    ensures t in TagAll(row, list, single) <==> t.row == row && t.seam in list && t.single == single
  {
    if list != [] {
      TagAllHas(row, list[1..], single, t);
      assert list == [list[0]] + list[1..];
    }
  }

  lemma {:induction false} TaggedHas(ordered: seq<SegmentRow>, seams: seq<Seam>, t: Tagged)
    ensures t in FlatMap(TaggedOf(seams), ordered)
       <==> t.row in ordered && t.seam in Effective(t.row, seams) && t.single == (|Effective(t.row, seams)| == 1)
  {
    if ordered != [] {
      TaggedHas(ordered[1..], seams, t);
      TagAllHas(ordered[0], Effective(ordered[0], seams), |Effective(ordered[0], seams)| == 1, t);
      assert ordered == [ordered[0]] + ordered[1..];
    }
  }

  function Placed(rows: seq<SegmentRow>, seams: seq<Seam>): seq<Tagged> {
    Sort(FlatMap(TaggedOf(seams), Sort(rows, RowLe())), TaggedLe())
  }

  lemma PlacedHas(rows: seq<SegmentRow>, seams: seq<Seam>, t: Tagged)
    requires AllStarted(rows)
    ensures t in Placed(rows, seams) <==> ToPlace(rows, seams, t.row, t.seam) && t.single == AtMostOne(seams, t.row)
  {
    var ordered := Sort(rows, RowLe());
    var all := FlatMap(TaggedOf(seams), ordered);
    SortArranges(rows);
    TaggedHas(ordered, seams, t);
    SortPermutes(all, TaggedLe());
    InMultiset(t, all);
    InMultiset(t, Sort(all, TaggedLe()));
    if t.row in rows {
      EffectiveIsToPlace(rows, seams, t.row, t.seam);
    }
  }

  lemma {:induction false} RebuildReads(all: seq<Tagged>, trash: string -> Option<string>)
    ensures Rebuild(all, trash).Some? <==> forall k :: 0 <= k < |all| ==> Locate(all[k], trash).Some?
    ensures Rebuild(all, trash).Some? ==>
              && |Rebuild(all, trash).value| == |all|
              && forall k :: 0 <= k < |all| ==>
                   && Locate(all[k], trash) == Some(Rebuild(all, trash).value[k].key)
                   && Rebuild(all, trash).value[k].seams == [Out(all[k].seam).(offsetMs := 0)]
  {
    if all != [] {
      RebuildReads(all[..|all| - 1], trash);
    }
  }

  /** Where a seam to place stands among the placed ones. */
  lemma FindPlaced(rows: seq<SegmentRow>, seams: seq<Seam>, row: SegmentRow, s: Seam) returns (k: nat)
    requires AllStarted(rows) && ToPlace(rows, seams, row, s)
    ensures k < |Placed(rows, seams)| && Placed(rows, seams)[k] == Tagged(row, s, AtMostOne(seams, row))
  {
    var t := Tagged(row, s, AtMostOne(seams, row));
    PlacedHas(rows, seams, t);
    k :| 0 <= k < |Placed(rows, seams)| && Placed(rows, seams)[k] == t;
  }

  /** Each input of a rebuilt plan reads one seam's own chunk: the row's blob where it is that chunk, and
    * else the original in the trash. */
  lemma RebuiltInputs(rows: seq<SegmentRow>, seams: seq<Seam>, trash: string -> Option<string>)
    requires PlanOf(rows, seams, trash).Append? && PlanOf(rows, seams, trash).rebuilt
    ensures forall input :: input in PlanOf(rows, seams, trash).inputs ==>
              exists row, s :: ToPlace(rows, seams, row, s) && Reads(seams, trash, row, s, input)
  {
    var all, inputs := Placed(rows, seams), PlanOf(rows, seams, trash).inputs;
    RebuildReads(all, trash);
    forall input | input in inputs
      ensures exists row, s :: ToPlace(rows, seams, row, s) && Reads(seams, trash, row, s, input)
    {
      var k :| 0 <= k < |inputs| && inputs[k] == input;
      PlacedHas(rows, seams, all[k]);
      assert Reads(seams, trash, all[k].row, all[k].seam, input);
    }
  }

  /** Every seam to place has such an input. */
  lemma RebuiltHasEach(rows: seq<SegmentRow>, seams: seq<Seam>, trash: string -> Option<string>,
                       row: SegmentRow, s: Seam)
    requires PlanOf(rows, seams, trash).Append? && PlanOf(rows, seams, trash).rebuilt
    requires ToPlace(rows, seams, row, s)
    ensures exists input :: input in PlanOf(rows, seams, trash).inputs && Reads(seams, trash, row, s, input)
  {
    var all, inputs := Placed(rows, seams), PlanOf(rows, seams, trash).inputs;
    RebuildReads(all, trash);
    var k := FindPlaced(rows, seams, row, s);
    assert Reads(seams, trash, row, s, inputs[k]);
  }

  // ----- no plan -----

  lemma FirstAndLast(row: SegmentRow, seams: seq<Seam>, s: Seam)
    requires Own(seams, row, s)
    ensures var list := Effective(row, seams);
      Own(seams, row, list[0]) && Own(seams, row, list[|list| - 1])
      && NotAfter(list[0], s) && NotAfter(s, list[|list| - 1])
  {
    var list := Effective(row, seams);
    HasOwnSeams(row, seams);
    OwnSeamsAreOwn(row, seams, s);
    OwnInOrder(row, seams);
    SortPermutes(OwnSeams(row.id, seams), SeamLe());
    InMultiset(s, OwnSeams(row.id, seams));
    InMultiset(s, list);
    var k :| 0 <= k < |list| && list[k] == s;
    forall e | e in list ensures Own(seams, row, e) {
      InMultiset(e, list);
      InMultiset(e, OwnSeams(row.id, seams));
      OwnSeamsAreOwn(row, seams, e);
    }
  }

  lemma SplitRow(rows: seq<SegmentRow>, seams: seq<Seam>, row: SegmentRow, o: SegmentRow)
    requires AllStarted(rows) && row in rows && o in rows && SplitBy(Effective(row, seams), row, o)
    ensures Split(rows, seams)
  {
    var list := Effective(row, seams);
    HasOwnSeams(row, seams);
    forall s | Own(seams, row, s)
      ensures Own(seams, row, list[0]) && Own(seams, row, list[|list| - 1])
      ensures NotAfter(list[0], s) && NotAfter(s, list[|list| - 1])
    {
      FirstAndLast(row, seams, s);
    }
    var k :| 0 <= k < |seams| && seams[k].segmentId == row.id;
    assert Own(seams, row, seams[k]);
    assert SplitAt(rows, seams, row, o, list[0], list[|list| - 1]);
  }

  lemma RowIsSplit(rows: seq<SegmentRow>, seams: seq<Seam>, row: SegmentRow, o: SegmentRow, a: Seam, b: Seam)
    requires SplitAt(rows, seams, row, o, a, b)
    ensures SplitBy(Effective(row, seams), row, o)
  {
    var list := Effective(row, seams);
    FirstAndLast(row, seams, a);
    FirstAndLast(row, seams, b);
    assert list[0].started == a.started && list[|list| - 1].started == b.started;
  }

  lemma FoundIsSplit(rows: seq<SegmentRow>, seams: seq<Seam>)
    requires AllStarted(rows) && IsInterleaved(Sort(rows, RowLe()), seams)
    ensures Split(rows, seams)
  {
    var ordered := Sort(rows, RowLe());
    SortArranges(rows);
    var i, j :| 0 <= i < |ordered| && 0 <= j < |ordered| &&
                SplitBy(Effective(ordered[i], seams), ordered[i], ordered[j]);
    SplitRow(rows, seams, ordered[i], ordered[j]);
  }

  lemma FindRow(rows: seq<SegmentRow>, row: SegmentRow) returns (i: nat)
    requires row in rows
    ensures i < |Sort(rows, RowLe())| && Sort(rows, RowLe())[i] == row
  {
    SortPermutes(rows, RowLe());
    InMultiset(row, rows);
    InMultiset(row, Sort(rows, RowLe()));
    i :| 0 <= i < |Sort(rows, RowLe())| && Sort(rows, RowLe())[i] == row;
  }

  lemma SplitIsFound(rows: seq<SegmentRow>, seams: seq<Seam>)
    requires Split(rows, seams)
    ensures IsInterleaved(Sort(rows, RowLe()), seams)
  {
    var row, o, a, b :| SplitAt(rows, seams, row, o, a, b);
    RowIsSplit(rows, seams, row, o, a, b);
    var i := FindRow(rows, row);
    var j := FindRow(rows, o);
  }

  lemma NowhereIsMissing(rows: seq<SegmentRow>, seams: seq<Seam>, trash: string -> Option<string>, t: Tagged)
    requires AllStarted(rows) && t in Placed(rows, seams) && Locate(t, trash).None?
    ensures MissingAt(rows, seams, trash, t.row, t.seam)
  {
    PlacedHas(rows, seams, t);
  }

  lemma MissingIsNowhere(rows: seq<SegmentRow>, seams: seq<Seam>, trash: string -> Option<string>,
                         row: SegmentRow, s: Seam)
    returns (k: nat)
    requires AllStarted(rows) && MissingAt(rows, seams, trash, row, s)
    ensures k < |Placed(rows, seams)| && Locate(Placed(rows, seams)[k], trash).None?
  {
    k := FindPlaced(rows, seams, row, s);
  }

  lemma RebuildFails(rows: seq<SegmentRow>, seams: seq<Seam>, trash: string -> Option<string>)
    requires AllStarted(rows)
    ensures Rebuild(Placed(rows, seams), trash).None? <==> Missing(rows, seams, trash)
  {
    var all := Placed(rows, seams);
    RebuildReads(all, trash);
    if Rebuild(all, trash).None? {
      var k :| 0 <= k < |all| && Locate(all[k], trash).None?;
      NowhereIsMissing(rows, seams, trash, all[k]);
    }
    if Missing(rows, seams, trash) {
      var row, s :| MissingAt(rows, seams, trash, row, s);
      var k := MissingIsNowhere(rows, seams, trash, row, s);
    }
  }

  /** There is no plan exactly when a row has no start, or when a row is split by another and the original
    * of some chunk is missing; and a plan is rebuilt exactly when a row is split. */
  lemma InterleavedExactly(rows: seq<SegmentRow>, seams: seq<Seam>, trash: string -> Option<string>)
    ensures PlanOf(rows, seams, trash).Interleaved?
       <==> !AllStarted(rows) || (Split(rows, seams) && Missing(rows, seams, trash))
    ensures PlanOf(rows, seams, trash).Append? ==> PlanOf(rows, seams, trash).rebuilt == Split(rows, seams)
  {
    if AllStarted(rows) {
      if IsInterleaved(Sort(rows, RowLe()), seams) {
        FoundIsSplit(rows, seams);
      }
      if Split(rows, seams) {
        SplitIsFound(rows, seams);
      }
      RebuildFails(rows, seams, trash);
    }
  }
}
