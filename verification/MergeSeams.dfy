/**
 * The seam offsets of a verified merge: sample counts turned into milliseconds, each rounded on its
 * own. Sample positions are exact; milliseconds are rationals until they are rounded.
 */
module MergeSeams {
  import opened MergePlan
  import opened Sorting
  import opened Wrappers

  /** JavaScript's `Math.round`: the nearest integer, halves upward. */
  function Round(x: real): int { (x + 0.5).Floor }

  /** The exact milliseconds of a sample position. */
  function Exact(samples: int, rate: nat): real
    requires rate > 0
  {
    samples as real / rate as real * 1000.0
  }

  function ToMs(samples: int, rate: nat): int
    requires rate > 0
  {
    Round(Exact(samples, rate))
  }

  function Sum(xs: seq<nat>): nat {
    if xs == [] then 0 else Sum(xs[..|xs| - 1]) + xs[|xs| - 1]
  }

  /** What the samples of the merged file and its inputs are known to be. */
  datatype Counts = Counts(raws: seq<nat>, skips: seq<nat>, lead: nat, rate: nat)

  ghost predicate Fits(c: Counts, n: nat) { |c.raws| == n && |c.skips| == n && c.rate > 0 }

  /** The sample at which input `i` starts in the merged audio as it plays, never before its start. */
  function Position(c: Counts, i: nat): nat
    requires i < |c.raws| && i < |c.skips|
  {
    var at := Sum(c.raws[..i]) + c.skips[i] - c.lead;
    if at < 0 then 0 else at
  }

  function StartMs(c: Counts, i: nat): int
    requires i < |c.raws| && i < |c.skips| && c.rate > 0
  {
    ToMs(Position(c, i), c.rate)
  }

  function Shifted(shift: int): SeamOut -> SeamOut {
    (s: SeamOut) => s.(offsetMs := shift + s.offsetMs)
  }

  /** The result's seams: each input's, moved to where the input starts. */
  function ResultSeams(inputs: seq<MergeInput>, c: Counts): seq<SeamOut>
    requires |inputs| <= |c.raws| && |inputs| <= |c.skips| && c.rate > 0
  {
    if inputs == [] then []
    else
      var n := |inputs| - 1;
      ResultSeams(inputs[..n], c) + Map(Shifted(StartMs(c, n)), inputs[n].seams)
  }

  /** The loops that push the result's seams. */
  method OffsetSeams(inputs: seq<MergeInput>, c: Counts) returns (seams: seq<SeamOut>)
    requires Fits(c, |inputs|)
    ensures seams == ResultSeams(inputs, c)
  {
    seams := [];
    var base := 0;
    for i := 0 to |inputs|
      invariant seams == ResultSeams(inputs[..i], c)
      invariant base == Sum(c.raws[..i])
    {
      assert inputs[..i + 1][..i] == inputs[..i] && c.raws[..i + 1][..i] == c.raws[..i];
      var at := base + c.skips[i] - c.lead;
      var startMs := ToMs(if at < 0 then 0 else at, c.rate);
      seams := PushShifted(seams, inputs[i].seams, startMs);
      base := base + c.raws[i];
    }
    assert inputs[..|inputs|] == inputs;
  }

  method PushShifted(seams0: seq<SeamOut>, more: seq<SeamOut>, startMs: int) returns (seams: seq<SeamOut>)
    ensures seams == seams0 + Map(Shifted(startMs), more)
  {
    seams := seams0;
    for k := 0 to |more|
      invariant seams == seams0 + Map(Shifted(startMs), more[..k])
    {
      assert more[..k + 1] == more[..k] + [more[k]];
      MapSum(Shifted(startMs), more[..k], [more[k]]);
      Assoc(seams0, Map(Shifted(startMs), more[..k]), [Shifted(startMs)(more[k])]);
      assert [more[k]][1..] == [];
      seams := seams + [more[k].(offsetMs := startMs + more[k].offsetMs)];
    }
    assert more[..|more|] == more;
  }

  // ----- the offsets -----

  lemma RoundIsNear(x: real)
    ensures -0.5 <= Round(x) as real - x <= 0.5
  {
  }

  lemma RoundIsMonotone(x: real, y: real)
    requires x <= y
    ensures Round(x) <= Round(y)
  {
  }

  lemma ExactIsMonotone(a: int, b: int, rate: nat)
    requires rate > 0 && a <= b
    ensures Exact(a, rate) <= Exact(b, rate)
  {
    var r := rate as real;
    assert a as real / r <= b as real / r;
  }

  lemma ExactOfZero(rate: nat)
    requires rate > 0
    ensures Exact(0, rate) == 0.0 && ToMs(0, rate) == 0
  {
  }

  /** No drift: every input's start is within half a millisecond of its exact position, however many
    * inputs come before it, and never negative. */
  lemma NoDrift(c: Counts, i: nat)
    requires Fits(c, |c.raws|) && i < |c.raws|
    ensures -0.5 <= StartMs(c, i) as real - Exact(Position(c, i), c.rate) <= 0.5
    ensures StartMs(c, i) >= 0
  {
    RoundIsNear(Exact(Position(c, i), c.rate));
    ExactIsMonotone(0, Position(c, i), c.rate);
    ExactOfZero(c.rate);
    RoundIsMonotone(0.0, Exact(Position(c, i), c.rate));
  }

  /** With the lead of the first input's skip, the first offset is 0. */
  lemma FirstStartsAtZero(c: Counts)
    requires Fits(c, |c.raws|) && c.raws != [] && c.lead == c.skips[0]
    ensures StartMs(c, 0) == 0
  {
    assert c.raws[..0] == [];
    ExactOfZero(c.rate);
  }

  /** The inputs' samples, one input behind the other. */
  function Joined<T>(streams: seq<seq<T>>): seq<T> {
    if streams == [] then [] else Joined(streams[..|streams| - 1]) + streams[|streams| - 1]
  }

  lemma {:induction false} JoinedAt<T>(streams: seq<seq<T>>, raws: seq<nat>, i: nat, k: nat)
    requires |raws| == |streams| && forall j :: 0 <= j < |raws| ==> raws[j] == |streams[j]|
    requires i < |streams| && k < raws[i]
    ensures |Joined(streams)| == Sum(raws) && Sum(raws[..i]) + k < Sum(raws)
    ensures Joined(streams)[Sum(raws[..i]) + k] == streams[i][k]
  {
    var n := |streams| - 1;
    JoinedLength(streams[..n], raws[..n]);
    if i < n {
      JoinedAt(streams[..n], raws[..n], i, k);
      assert raws[..n][..i] == raws[..i];
    }
  }

  lemma {:induction false} JoinedLength<T>(streams: seq<seq<T>>, raws: seq<nat>)
    requires |raws| == |streams| && forall j :: 0 <= j < |raws| ==> raws[j] == |streams[j]|
    ensures |Joined(streams)| == Sum(raws)
  {
    if streams != [] {
      JoinedLength(streams[..|streams| - 1], raws[..|raws| - 1]);
    }
  }

  /** What is heard of the merged audio from an input's position on is that input's audio from its own skip
    * on: the merged samples are the inputs', one behind the other, played from the lead. */
  lemma PositionIsHeard<T>(streams: seq<seq<T>>, c: Counts, i: nat, k: nat)
    requires Fits(c, |streams|) && forall j :: 0 <= j < |streams| ==> c.raws[j] == |streams[j]|
    requires i < |streams| && c.skips[i] + k < c.raws[i]
    requires c.lead <= Sum(c.raws[..i]) + c.skips[i]
    ensures c.lead + Position(c, i) + k < |Joined(streams)|
    ensures Joined(streams)[c.lead..][Position(c, i) + k] == streams[i][c.skips[i] + k]
  {
    JoinedAt(streams, c.raws, i, c.skips[i] + k);
  }

  /** An input that starts within the lead is heard from the start. */
  lemma StartsWithinLead(c: Counts, i: nat)
    requires Fits(c, |c.raws|) && i < |c.raws| && Sum(c.raws[..i]) + c.skips[i] <= c.lead
    ensures Position(c, i) == 0 && StartMs(c, i) == 0
  {
    ExactOfZero(c.rate);
  }

  /** The seams of the inputs before `i` come before those of input `i`. */
  function SeamsBefore(inputs: seq<MergeInput>, i: nat): nat
    requires i <= |inputs|
  {
    if i == 0 then 0 else SeamsBefore(inputs, i - 1) + |inputs[i - 1].seams|
  }

  lemma {:induction false} SeamsBeforeFront(inputs: seq<MergeInput>, n: nat, i: nat)
    requires i <= n <= |inputs|
    ensures SeamsBefore(inputs[..n], i) == SeamsBefore(inputs, i)
  {
    if i > 0 {
      SeamsBeforeFront(inputs, n, i - 1);
    }
  }

  lemma {:induction false} ResultCount(inputs: seq<MergeInput>, c: Counts)
    requires |inputs| <= |c.raws| && |inputs| <= |c.skips| && c.rate > 0
    ensures |ResultSeams(inputs, c)| == SeamsBefore(inputs, |inputs|)
    decreases |inputs|
  {
    if inputs != [] {
      ResultCount(inputs[..|inputs| - 1], c);
      SeamsBeforeFront(inputs, |inputs| - 1, |inputs| - 1);
    }
  }

  lemma LastMoved(inputs: seq<MergeInput>, c: Counts, k: nat)
    requires |inputs| <= |c.raws| && |inputs| <= |c.skips| && c.rate > 0
    requires inputs != [] && k < |inputs[|inputs| - 1].seams|
    ensures var n := |inputs| - 1;
      && SeamsBefore(inputs, n) + k < |ResultSeams(inputs, c)|
      && ResultSeams(inputs, c)[SeamsBefore(inputs, n) + k] == Shifted(StartMs(c, n))(inputs[n].seams[k])
  {
    var n := |inputs| - 1;
    ResultCount(inputs[..n], c);
    SeamsBeforeFront(inputs, n, n);
  }

  lemma FrontStays(inputs: seq<MergeInput>, c: Counts, at: nat)
    requires |inputs| <= |c.raws| && |inputs| <= |c.skips| && c.rate > 0 && inputs != []
    requires at < |ResultSeams(inputs[..|inputs| - 1], c)|
    ensures at < |ResultSeams(inputs, c)|
    ensures ResultSeams(inputs, c)[at] == ResultSeams(inputs[..|inputs| - 1], c)[at]
  {
  }

  lemma {:induction false} MovedAt(inputs: seq<MergeInput>, c: Counts, i: nat, k: nat)
    requires |inputs| <= |c.raws| && |inputs| <= |c.skips| && c.rate > 0 && i < |inputs| && k < |inputs[i].seams|
    ensures SeamsBefore(inputs, i) + k < |ResultSeams(inputs, c)|
    ensures ResultSeams(inputs, c)[SeamsBefore(inputs, i) + k] == Shifted(StartMs(c, i))(inputs[i].seams[k])
    decreases |inputs|
  {
    if i < |inputs| - 1 {
      MovedAt(inputs[..|inputs| - 1], c, i, k);
      SeamsBeforeFront(inputs, |inputs| - 1, i);
      FrontStays(inputs, c, SeamsBefore(inputs, i) + k);
    } else {
      LastMoved(inputs, c, k);
    }
  }

  /** Each of an input's seams is in the result, in its place and with its window, moved by the input's
    * start; and nothing else is. */
  lemma SeamIsMoved(inputs: seq<MergeInput>, c: Counts, i: nat, k: nat)
    requires |inputs| <= |c.raws| && |inputs| <= |c.skips| && c.rate > 0 && i < |inputs| && k < |inputs[i].seams|
    ensures |ResultSeams(inputs, c)| == SeamsBefore(inputs, |inputs|)
    ensures SeamsBefore(inputs, i) + k < |ResultSeams(inputs, c)|
    ensures var seam, moved := inputs[i].seams[k], ResultSeams(inputs, c)[SeamsBefore(inputs, i) + k];
      && moved.offsetMs == StartMs(c, i) + seam.offsetMs
      && moved.started == seam.started && moved.ended == seam.ended && moved.sourceKey == seam.sourceKey
  {
    ResultCount(inputs, c);
    MovedAt(inputs, c, i, k);
  }

  /** The next input's position is not before this one's. */
  predicate StepForward(c: Counts, i: nat)
    requires i + 1 < |c.raws| && i + 1 < |c.skips|
  {
    c.skips[i] <= c.raws[i] + c.skips[i + 1] || Sum(c.raws[..i]) + c.skips[i] <= c.lead
  }

  lemma SumNext(xs: seq<nat>, i: nat)
    requires i < |xs|
    ensures Sum(xs[..i + 1]) == Sum(xs[..i]) + xs[i]
  {
    assert xs[..i + 1][..i] == xs[..i];
  }

  /** One position follows another exactly when the skip is made good by the samples that follow, or
    * falls within the lead. */
  lemma StepsForwardExactly(c: Counts, i: nat)
    requires Fits(c, |c.raws|) && i + 1 < |c.raws|
    ensures Position(c, i) <= Position(c, i + 1) <==> StepForward(c, i)
  {
    SumNext(c.raws, i);
  }

  lemma {:induction false} PositionsForward(c: Counts, i: nat, j: nat)
    requires Fits(c, |c.raws|) && i <= j < |c.raws|
    requires forall k :: i <= k < j ==> StepForward(c, k)
    ensures Position(c, i) <= Position(c, j)
    decreases j - i
  {
    if i < j {
      StepsForwardExactly(c, i);
      PositionsForward(c, i + 1, j);
    }
  }

  /** With no skip longer than its input, the offsets never go back. */
  lemma StartsForward(c: Counts, i: nat, j: nat)
    requires Fits(c, |c.raws|) && i <= j < |c.raws|
    requires forall k :: 0 <= k < |c.raws| ==> c.skips[k] <= c.raws[k]
    ensures StartMs(c, i) <= StartMs(c, j)
  {
    assert forall k :: i <= k < j ==> StepForward(c, k);
    PositionsForward(c, i, j);
    ExactIsMonotone(Position(c, i), Position(c, j), c.rate);
    RoundIsMonotone(Exact(Position(c, i), c.rate), Exact(Position(c, j), c.rate));
  }

  /** The point half a millisecond after the whole one `k`, where rounding turns, in 1/2000 samples. */
  function HalfPoint(k: nat, rate: nat): nat { (2 * k + 1) * rate }

  /** A point where rounding turns lies after sample `a` and not after sample `b`. */
  ghost predicate HalfBetween(a: nat, b: nat, rate: nat) {
    exists k: nat :: 2000 * a < HalfPoint(k, rate) <= 2000 * b
  }

  lemma RealQuotient(n: real, r: real, x: real)
    requires r > 0.0
    ensures n / r >= x <==> n >= x * r
  {
    assert n / r * r == n;
    if n / r >= x { assert n / r * r >= x * r; }
    if n / r < x { assert n / r * r < x * r; }
  }

  /** A sample's milliseconds pass `k` exactly from the half point on. */
  lemma PastHalf(samples: nat, k: nat, rate: nat)
    requires rate > 0
    ensures k < ToMs(samples, rate) <==> HalfPoint(k, rate) <= 2000 * samples
  {
    var n, r, x := samples as real, rate as real, (2 * k + 1) as real / 2000.0;
    RealQuotient(n, r, x);
    assert Exact(samples, rate) == n / r * 1000.0;
    assert k < ToMs(samples, rate) <==> Exact(samples, rate) >= k as real + 0.5;
    assert Exact(samples, rate) >= k as real + 0.5 <==> n / r >= x;
    assert x * r * 2000.0 == (2 * k + 1) as real * r;
    assert HalfPoint(k, rate) as real == (2 * k + 1) as real * r;
  }

  /** One offset is less than another exactly when rounding turns between their positions. */
  lemma OffsetsTellExactly(c: Counts, i: nat, j: nat)
    requires Fits(c, |c.raws|) && i < |c.raws| && j < |c.raws|
    ensures StartMs(c, i) < StartMs(c, j) <==> HalfBetween(Position(c, i), Position(c, j), c.rate)
  {
    NoDrift(c, i);
    if StartMs(c, i) < StartMs(c, j) {
      PastHalf(Position(c, j), StartMs(c, i), c.rate);
      PastHalf(Position(c, i), StartMs(c, i), c.rate);
    } else if HalfBetween(Position(c, i), Position(c, j), c.rate) {
      var k: nat :| 2000 * Position(c, i) < HalfPoint(k, c.rate) <= 2000 * Position(c, j);
      PastHalf(Position(c, j), k, c.rate);
      PastHalf(Position(c, i), k, c.rate);
    }
  }

  /** The next input's offset is not before this one's exactly when the skip is made good by the samples
    * that follow, or falls within the lead, or rounding does not turn in what it is short of. */
  lemma OffsetsForwardExactly(c: Counts, i: nat)
    requires Fits(c, |c.raws|) && i + 1 < |c.raws|
    ensures StartMs(c, i) <= StartMs(c, i + 1)
            <==> StepForward(c, i) || !HalfBetween(Position(c, i + 1), Position(c, i), c.rate)
  {
    OffsetsTellExactly(c, i + 1, i);
    StepsForwardExactly(c, i);
    if StepForward(c, i) {
      ExactIsMonotone(Position(c, i), Position(c, i + 1), c.rate);
      RoundIsMonotone(Exact(Position(c, i), c.rate), Exact(Position(c, i + 1), c.rate));
    }
  }

  /** A chunk shorter than its own skip breaks this, with the lead of the first input's skip: the third
    * input starts before the second. */
  lemma LongSkipGoesBack()
    ensures var c := Counts([960, 120, 4800], [312, 312, 0], 312, 48000);
            StartMs(c, 0) == 0 && StartMs(c, 1) == 20 && StartMs(c, 2) == 16
  {
    var c := Counts([960, 120, 4800], [312, 312, 0], 312, 48000);
    FirstStartsAtZero(c);
    assert c.raws[..0] == [] && c.raws[..1] == [960] && c.raws[..2] == [960, 120];
    assert [960][..0] == [] && [960, 120][..1] == [960];
    assert Sum([960]) == 960 && Sum([960, 120]) == 1080;
    assert Position(c, 1) == 960 && Position(c, 2) == 768;
    assert 960 as real / 48000 as real * 1000.0 == 20.0;
    assert 768 as real / 48000 as real * 1000.0 == 16.0;
  }

  /** Inputs at least a millisecond apart get strictly increasing offsets, as the apply step demands. */
  lemma MillisecondApart(c: Counts, i: nat, j: nat)
    requires Fits(c, |c.raws|) && i < |c.raws| && j < |c.raws|
    requires Position(c, j) - Position(c, i) >= 0 && (Position(c, j) - Position(c, i)) * 1000 >= c.rate
    ensures StartMs(c, i) < StartMs(c, j)
  {
    ExactApart(Position(c, i), Position(c, j), c.rate);
    RoundIsMonotone(Exact(Position(c, i), c.rate) + 1.0, Exact(Position(c, j), c.rate));
  }

  lemma ExactApart(a: int, b: int, rate: nat)
    requires rate > 0 && (b - a) * 1000 >= rate
    ensures Exact(a, rate) + 1.0 <= Exact(b, rate)
  {
    var r := rate as real;
    assert (b - a) as real * 1000.0 >= r;
    assert ((b - a) as real * 1000.0) / r >= 1.0;
    assert Exact(b, rate) - Exact(a, rate) == ((b - a) as real * 1000.0) / r;
  }

  // ----- the windows -----

  lemma {:induction false} ShiftKeepsWindows(shift: int, list: seq<SeamOut>)
    ensures Map(OutWindow, Map(Shifted(shift), list)) == Map(OutWindow, list)
  {
    if list != [] {
      ShiftKeepsWindows(shift, list[1..]);
      assert Map(Shifted(shift), list)[1..] == Map(Shifted(shift), list[1..]);
    }
  }

  /** The result carries the plan's windows, in the plan's order. */
  lemma {:induction false} ResultKeepsWindows(inputs: seq<MergeInput>, c: Counts)
    requires |inputs| <= |c.raws| && |inputs| <= |c.skips| && c.rate > 0
    ensures Map(OutWindow, ResultSeams(inputs, c)) == PlanWindows(inputs)
  {
    if inputs != [] {
      var n := |inputs| - 1;
      var last := Map(Shifted(StartMs(c, n)), inputs[n].seams);
      ResultKeepsWindows(inputs[..n], c);
      MapSum(OutWindow, ResultSeams(inputs[..n], c), last);
      ShiftKeepsWindows(StartMs(c, n), inputs[n].seams);
      FlatMapSum(InputWindows(), inputs[..n], [inputs[n]]);
      assert inputs == inputs[..n] + [inputs[n]] && [inputs[n]][1..] == [];
      assert FlatMap(InputWindows(), [inputs[n]]) == Map(OutWindow, inputs[n].seams) + [];
      assert Map(OutWindow, inputs[n].seams) + [] == Map(OutWindow, inputs[n].seams);
    }
  }

  /** From rows to result: the merged segment's seams carry exactly the windows of the rows. */
  lemma MergeConserves(rows: seq<SegmentRow>, seams: seq<Seam>, trash: string -> Option<string>, c: Counts)
    requires PlanOf(rows, seams, trash).Append? && Fits(c, |PlanOf(rows, seams, trash).inputs|)
    ensures multiset(Map(OutWindow, ResultSeams(PlanOf(rows, seams, trash).inputs, c)))
         == multiset(FlatMap(RowWindows(seams), rows))
  {
    PlanConserves(rows, seams, trash);
    ResultKeepsWindows(PlanOf(rows, seams, trash).inputs, c);
  }
}
