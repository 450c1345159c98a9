/**
 * The store's test of a merge's windows (packages/session-core/src/audioStore.ts): the windows of the result
 * are the inputs', and their offsets strictly increase in window order within the duration. When the seams
 * that a merge comes up with pass it.
 */
module MergeAccept {
  import opened MergeOrder
  import opened MergePlan
  import opened MergeSeams
  import opened Sorting
  import opened Wrappers

  function StartLe(): (SeamOut, SeamOut) -> bool {
    (a: SeamOut, b: SeamOut) => a.started <= b.started
  }

  function Starts(seams: seq<SeamOut>): set<int> {
    set i | 0 <= i < |seams| :: seams[i].started
  }

  predicate DifferentStarts(seams: seq<SeamOut>) {
    forall i, j :: 0 <= i < j < |seams| ==> seams[i].started != seams[j].started
  }

  predicate DistinctWindows(ws: seq<Window>) {
    forall i, j :: 0 <= i < j < |ws| ==> ws[i].started != ws[j].started
  }

  /** Each offset is less than the later ones. */
  predicate Rising(list: seq<SeamOut>) {
    forall i, j :: 0 <= i < j < |list| ==> list[i].offsetMs < list[j].offsetMs
  }

  predicate Within(list: seq<SeamOut>, durationMs: int) {
    forall i :: 0 <= i < |list| ==> 0 <= list[i].offsetMs <= durationMs
  }

  /** What the store accepts. */
  ghost predicate Passes(seams: seq<SeamOut>, expected: set<int>, durationMs: int) {
    && DifferentStarts(seams) && Starts(seams) == expected
    && Rising(Sort(seams, StartLe())) && Within(Sort(seams, StartLe()), durationMs)
  }

  // ----- the test -----

  lemma {:induction false} DifferentExactly(seams: seq<SeamOut>)
    ensures |Starts(seams)| <= |seams|
    ensures |Starts(seams)| == |seams| <==> DifferentStarts(seams)
  {
    if seams != [] {
      var n := |seams| - 1;
      DifferentExactly(seams[..n]);
      assert Starts(seams) == Starts(seams[..n]) + {seams[n].started};
      DifferentNext(seams[..n], seams[n]);
      assert seams == seams[..n] + [seams[n]];
    }
  }

  lemma DifferentNext(front: seq<SeamOut>, last: SeamOut)
    ensures DifferentStarts(front + [last]) <==> DifferentStarts(front) && last.started !in Starts(front)
  {
    var all := front + [last];
    if DifferentStarts(all) {
      forall i | 0 <= i < |front|
        ensures front[i].started != last.started
      {
        assert all[i] == front[i] && all[|front|] == last;
      }
      forall i, j | 0 <= i < j < |front|
        ensures front[i].started != front[j].started
      {
        assert all[i] == front[i] && all[j] == front[j];
      }
    }
  }

  lemma SameSize(a: set<int>, b: set<int>)
    requires a <= b && |a| == |b|
    ensures a == b
  {
    assert b * a == a;
    assert |b - a| == 0;
    assert b == (b - a) + a;
  }

  /** The loop over the ordered windows. */
  method OffsetsRise(ordered: seq<SeamOut>, durationMs: int) returns (ok: bool)
    ensures ok <==> Rising(ordered) && Within(ordered, durationMs)
  {
    var prev := -1;
    for i := 0 to |ordered|
      invariant Rising(ordered[..i]) && Within(ordered[..i], durationMs)
      invariant prev == if i == 0 then -1 else ordered[i - 1].offsetMs
    {
      var off := ordered[i].offsetMs;
      if off < 0 || off > durationMs || off <= prev {
        return false;
      }
      prev := off;
    }
    assert ordered[..|ordered|] == ordered;
    ok := true;
  }

  method AcceptWindows(seams: seq<SeamOut>, expected: set<int>, durationMs: int) returns (ok: bool)
    ensures ok <==> Passes(seams, expected, durationMs)
  {
    var given := Starts(seams);
    DifferentExactly(seams);
    if |given| != |seams| || |given| != |expected| {
      return false;
    }
    if !(expected <= given) {
      return false;
    }
    SameSize(expected, given);
    ok := OffsetsRise(Sort(seams, StartLe()), durationMs);
  }

  // ----- when a merge's seams pass it -----

  lemma {:induction false} SortedStays<T>(s: seq<T>, le: (T, T) -> bool)
    requires Sorted(s, le)
    ensures Sort(s, le) == s
  {
    if s != [] {
      SortedStays(s[1..], le);
      assert |s| > 1 ==> le(s[0], s[1]);
      assert s == [s[0]] + s[1..];
    }
  }

  ghost predicate AllSeamed(inputs: seq<MergeInput>) {
    forall i :: 0 <= i < |inputs| ==> inputs[i].seams != []
  }

  /** Where an input's first and last windows come to lie. */
  function BeginMs(inputs: seq<MergeInput>, starts: seq<int>, i: nat): int
    requires i < |inputs| && inputs[i].seams != [] && |starts| == |inputs|
  {
    starts[i] + inputs[i].seams[0].offsetMs
  }

  function LastMs(inputs: seq<MergeInput>, starts: seq<int>, i: nat): int
    requires i < |inputs| && inputs[i].seams != [] && |starts| == |inputs|
  {
    starts[i] + inputs[i].seams[|inputs[i].seams| - 1].offsetMs
  }

  /** Each input's own offsets rise, each ends before the later ones begin, and all lie within the duration. */
  ghost predicate StepsUp(inputs: seq<MergeInput>, starts: seq<int>, durationMs: int)
    requires AllSeamed(inputs) && |starts| == |inputs|
  {
    && (forall i :: 0 <= i < |inputs| ==> Rising(inputs[i].seams))
    && (forall i, j :: 0 <= i < j < |inputs| ==> LastMs(inputs, starts, i) < BeginMs(inputs, starts, j))
    && (inputs != [] ==> 0 <= BeginMs(inputs, starts, 0) && LastMs(inputs, starts, |inputs| - 1) <= durationMs)
  }

  lemma JoinRises(a: seq<SeamOut>, b: seq<SeamOut>)
    requires a != [] && b != []
    ensures Rising(a + b) <==> Rising(a) && Rising(b) && a[|a| - 1].offsetMs < b[0].offsetMs
  {
    var s := a + b;
    if Rising(s) {
      forall i, j | 0 <= i < j < |a|
        ensures a[i].offsetMs < a[j].offsetMs
      {
        assert s[i] == a[i] && s[j] == a[j];
      }
      forall i, j | 0 <= i < j < |b|
        ensures b[i].offsetMs < b[j].offsetMs
      {
        assert s[|a| + i] == b[i] && s[|a| + j] == b[j];
      }
      assert s[|a| - 1] == a[|a| - 1] && s[|a|] == b[0];
    }
  }

  lemma ShiftRises(shift: int, list: seq<SeamOut>)
    ensures Rising(Map(Shifted(shift), list)) <==> Rising(list)
  {
    var t := Map(Shifted(shift), list);
    assert forall i :: 0 <= i < |list| ==> t[i].offsetMs == shift + list[i].offsetMs;
  }

  function Flat(parts: seq<seq<SeamOut>>): seq<SeamOut> {
    if parts == [] then [] else Flat(parts[..|parts| - 1]) + parts[|parts| - 1]
  }

  predicate AllFilled(parts: seq<seq<SeamOut>>) {
    forall i :: 0 <= i < |parts| ==> parts[i] != []
  }

  function First(part: seq<SeamOut>): int
    requires part != []
  {
    part[0].offsetMs
  }

  function Last(part: seq<SeamOut>): int
    requires part != []
  {
    part[|part| - 1].offsetMs
  }

  /** Each part rises, and ends before the later ones begin. */
  predicate Climb(parts: seq<seq<SeamOut>>)
    requires AllFilled(parts)
  {
    && (forall i :: 0 <= i < |parts| ==> Rising(parts[i]))
    && (forall i, j :: 0 <= i < j < |parts| ==> Last(parts[i]) < First(parts[j]))
  }

  lemma {:induction false} FlatRises(parts: seq<seq<SeamOut>>)
    requires parts != [] && AllFilled(parts)
    ensures var r := Flat(parts);
      r != [] && (Rising(r) <==> Climb(parts)) && First(r) == First(parts[0]) && Last(r) == Last(parts[|parts| - 1])
  {
    var n := |parts| - 1;
    if n == 0 {
      assert Flat(parts[..0]) + parts[0] == parts[0];
    } else {
      FlatRises(parts[..n]);
      JoinRises(Flat(parts[..n]), parts[n]);
      ClimbNext(parts);
    }
  }

  lemma ClimbNext(parts: seq<seq<SeamOut>>)
    requires |parts| > 1 && AllFilled(parts)
    ensures var n := |parts| - 1;
      Climb(parts) <==> Climb(parts[..n]) && Rising(parts[n]) && Last(parts[n - 1]) < First(parts[n])
  {
    var n := |parts| - 1;
    var front := parts[..n];
    assert forall i :: 0 <= i < n ==> front[i] == parts[i];
    if Climb(front) && Rising(parts[n]) && Last(parts[n - 1]) < First(parts[n]) {
      forall i | 0 <= i < n
        ensures Last(parts[i]) < First(parts[n])
      {
        EndsLater(front, i);
      }
    }
  }

  lemma EndsLater(parts: seq<seq<SeamOut>>, i: nat)
    requires AllFilled(parts) && Climb(parts) && i < |parts|
    ensures Last(parts[i]) <= Last(parts[|parts| - 1])
  {
    var last := parts[|parts| - 1];
    assert First(last) <= Last(last);
  }

  /** The seams of input `i`, where they come to lie. */
  function PartOf(inputs: seq<MergeInput>, starts: seq<int>, i: nat): seq<SeamOut>
    requires i < |inputs| && |starts| == |inputs|
  {
    Map(Shifted(starts[i]), inputs[i].seams)
  }

  lemma PartLies(inputs: seq<MergeInput>, starts: seq<int>, i: nat)
    requires i < |inputs| && AllSeamed(inputs) && |starts| == |inputs|
    ensures var part := PartOf(inputs, starts, i);
      && part != [] && (Rising(part) <==> Rising(inputs[i].seams))
      && part[0].offsetMs == BeginMs(inputs, starts, i) && part[|part| - 1].offsetMs == LastMs(inputs, starts, i)
  {
    ShiftRises(starts[i], inputs[i].seams);
  }

  function Parts(inputs: seq<MergeInput>, starts: seq<int>): (parts: seq<seq<SeamOut>>)
    requires |starts| == |inputs|
    ensures |parts| == |inputs| && forall i :: 0 <= i < |inputs| ==> parts[i] == PartOf(inputs, starts, i)
  {
    seq(|inputs|, i requires 0 <= i < |inputs| => PartOf(inputs, starts, i))
  }

  /** The starts of the first `n` inputs. */
  function StartList(c: Counts, n: nat): (starts: seq<int>)
    requires n <= |c.raws| && n <= |c.skips| && c.rate > 0
    ensures |starts| == n && forall i :: 0 <= i < n ==> starts[i] == StartMs(c, i)
  {
    seq(n, i requires 0 <= i < n => StartMs(c, i))
  }

  lemma {:induction false} ResultIsFlat(inputs: seq<MergeInput>, c: Counts, n: nat)
    requires n <= |inputs| && Fits(c, |inputs|)
    ensures ResultSeams(inputs[..n], c) == Flat(Parts(inputs, StartList(c, |inputs|))[..n])
  {
    var parts := Parts(inputs, StartList(c, |inputs|));
    if n > 0 {
      ResultIsFlat(inputs, c, n - 1);
      assert inputs[..n][..n - 1] == inputs[..n - 1] && parts[..n][..n - 1] == parts[..n - 1];
    }
  }

  lemma WithinExactly(list: seq<SeamOut>, durationMs: int)
    requires Rising(list) && list != []
    ensures Within(list, durationMs) <==> 0 <= First(list) && Last(list) <= durationMs
  {
    forall i | 0 <= i < |list|
      ensures First(list) <= list[i].offsetMs <= Last(list)
    {
    }
  }

  /** The parts are the inputs' seams, where they come to lie. */
  ghost predicate LieAt(parts: seq<seq<SeamOut>>, inputs: seq<MergeInput>, starts: seq<int>)
    requires AllSeamed(inputs) && |starts| == |inputs|
  {
    && |parts| == |inputs| && AllFilled(parts)
    && (forall i :: 0 <= i < |inputs| ==> (Rising(parts[i]) <==> Rising(inputs[i].seams)))
    && (forall i :: 0 <= i < |inputs| ==> First(parts[i]) == BeginMs(inputs, starts, i))
    && (forall i :: 0 <= i < |inputs| ==> Last(parts[i]) == LastMs(inputs, starts, i))
  }

  lemma PartsLie(inputs: seq<MergeInput>, starts: seq<int>)
    requires AllSeamed(inputs) && |starts| == |inputs|
    ensures LieAt(Parts(inputs, starts), inputs, starts)
  {
    forall i | 0 <= i < |inputs|
      ensures var part := Parts(inputs, starts)[i];
        && part != [] && (Rising(part) <==> Rising(inputs[i].seams))
        && First(part) == BeginMs(inputs, starts, i) && Last(part) == LastMs(inputs, starts, i)
    {
      PartLies(inputs, starts, i);
    }
  }

  lemma ClimbExactly(parts: seq<seq<SeamOut>>, inputs: seq<MergeInput>, starts: seq<int>, durationMs: int)
    requires AllSeamed(inputs) && |starts| == |inputs| && LieAt(parts, inputs, starts)
    ensures StepsUp(inputs, starts, durationMs)
       <==> Climb(parts) && (parts != [] ==> 0 <= First(parts[0]) && Last(parts[|parts| - 1]) <= durationMs)
  {
  }

  lemma PartsRise(parts: seq<seq<SeamOut>>, inputs: seq<MergeInput>, starts: seq<int>, durationMs: int)
    requires AllSeamed(inputs) && |starts| == |inputs| && LieAt(parts, inputs, starts)
    ensures Rising(Flat(parts)) && Within(Flat(parts), durationMs) <==> StepsUp(inputs, starts, durationMs)
  {
    ClimbExactly(parts, inputs, starts, durationMs);
    if parts != [] {
      FlatRises(parts);
      if Rising(Flat(parts)) { WithinExactly(Flat(parts), durationMs); }
    }
  }

  lemma RisesExactly(inputs: seq<MergeInput>, c: Counts, durationMs: int)
    requires AllSeamed(inputs) && Fits(c, |inputs|)
    ensures var r := ResultSeams(inputs, c);
      Rising(r) && Within(r, durationMs) <==> StepsUp(inputs, StartList(c, |inputs|), durationMs)
  {
    ResultIsFlat(inputs, c, |inputs|);
    assert inputs[..|inputs|] == inputs;
    assert Parts(inputs, StartList(c, |inputs|))[..|inputs|] == Parts(inputs, StartList(c, |inputs|));
    PartsLie(inputs, StartList(c, |inputs|));
    PartsRise(Parts(inputs, StartList(c, |inputs|)), inputs, StartList(c, |inputs|), durationMs);
  }

  // ----- the planner's inputs -----

  lemma {:induction false} RebuiltSeamed(all: seq<Tagged>, trash: string -> Option<string>)
    ensures Rebuild(all, trash).Some? ==> AllSeamed(Rebuild(all, trash).value)
  {
    if all != [] {
      RebuiltSeamed(all[..|all| - 1], trash);
    }
  }

  lemma PlanSeamed(rows: seq<SegmentRow>, seams: seq<Seam>, trash: string -> Option<string>)
    requires PlanOf(rows, seams, trash).Append?
    ensures AllSeamed(PlanOf(rows, seams, trash).inputs)
  {
    var ordered := Sort(rows, RowLe());
    if IsInterleaved(ordered, seams) {
      RebuiltSeamed(Sort(FlatMap(TaggedOf(seams), ordered), TaggedLe()), trash);
    }
  }

  /** The starts that the store expects: those of the rows' windows. */
  function ExpectedStarts(rows: seq<SegmentRow>, seams: seq<Seam>): set<int> {
    var ws := FlatMap(RowWindows(seams), rows);
    set i | 0 <= i < |ws| :: ws[i].started
  }

  lemma StartsAreExpected(result: seq<SeamOut>, ws: seq<Window>)
    requires multiset(Map(OutWindow, result)) == multiset(ws)
    ensures Starts(result) == set i | 0 <= i < |ws| :: ws[i].started
  {
    var out := Map(OutWindow, result);
    forall x | x in Starts(result)
      ensures x in set i | 0 <= i < |ws| :: ws[i].started
    {
      var i :| 0 <= i < |result| && result[i].started == x;
      InMultiset(out[i], out);
      InMultiset(out[i], ws);
      var j :| 0 <= j < |ws| && ws[j] == out[i];
      assert ws[j].started == x;
    }
    forall x | x in set i | 0 <= i < |ws| :: ws[i].started
      ensures x in Starts(result)
    {
      var j :| 0 <= j < |ws| && ws[j].started == x;
      InMultiset(ws[j], ws);
      InMultiset(ws[j], out);
      var i :| 0 <= i < |out| && out[i] == ws[j];
      assert result[i].started == x;
    }
  }

  /** For well-timed rows, the store accepts the seams of a planned merge exactly when the windows' starts
    * differ, each input's offsets rise, each input's last window lies before the next one's first as
    * rounded, and all lie within the duration. */
  lemma MergePassesExactly(rows: seq<SegmentRow>, seams: seq<Seam>, trash: string -> Option<string>, c: Counts,
                           durationMs: int)
    requires WellTimed(rows, seams) && PlanOf(rows, seams, trash).Append?
    requires Fits(c, |PlanOf(rows, seams, trash).inputs|)
    ensures var inputs := PlanOf(rows, seams, trash).inputs;
      && AllSeamed(inputs)
      && (Passes(ResultSeams(inputs, c), ExpectedStarts(rows, seams), durationMs)
          <==> DistinctWindows(PlanWindows(inputs)) && StepsUp(inputs, StartList(c, |inputs|), durationMs))
  {
    var inputs := PlanOf(rows, seams, trash).inputs;
    var result := ResultSeams(inputs, c);
    PlanSeamed(rows, seams, trash);
    ResultKeepsWindows(inputs, c);
    MergeConserves(rows, seams, trash, c);
    StartsAreExpected(result, FlatMap(RowWindows(seams), rows));
    PlanInOrder(rows, seams, trash);
    InOrderSorts(result);
    RisesExactly(inputs, c, durationMs);
    SameStarts(result);
  }

  lemma SameStarts(result: seq<SeamOut>)
    ensures DifferentStarts(result) <==> DistinctWindows(Map(OutWindow, result))
  {
    var ws := Map(OutWindow, result);
    assert forall i :: 0 <= i < |result| ==> ws[i].started == result[i].started;
  }

  lemma InOrderSorts(result: seq<SeamOut>)
    requires InOrder(Map(OutWindow, result))
    ensures Sort(result, StartLe()) == result
  {
    forall i, j | 0 <= i < j < |result|
      ensures StartLe()(result[i], result[j])
    {
      assert Map(OutWindow, result)[i].started <= Map(OutWindow, result)[j].started;
    }
    SortedStays(result, StartLe());
  }
}
