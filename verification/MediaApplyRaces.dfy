/**
 * Five runs of the media apply that leave a segment row without its blob, from the empty store: a sweep
 * that moves a copy or an upload's blob, before or after a row names it, and a merge that was not copied.
 */
module MediaApplyRaces {
  import opened Wrappers
  import opened MediaApply

  /** A run without an uncopied swap, and one that no sweep overtakes. */
  predicate Copies(s: State, run: seq<Event>, t: State) {
    Legal(s, run) && Final(s, run) == t && NeverUncopied(s, run)
  }

  predicate KeepsAhead(s: State, run: seq<Event>, t: State) {
    Legal(s, run) && Final(s, run) == t && NeverOvertaken(s, run)
  }

  lemma StepOn(s: State, run: seq<Event>, t: State)
    requires run != [] && Goes(s, run[0], t) && Legal(t, run[1..])
    ensures Legal(s, run) && Final(s, run) == Final(t, run[1..])
    ensures NeverUncopied(t, run[1..]) && !UncopiedSwap(s, run[0]) ==> NeverUncopied(s, run)
    ensures NeverOvertaken(t, run[1..]) && !Overtaken(s) ==> NeverOvertaken(s, run)
  {
  }

  /** Four steps, named one by one. */
  lemma Four(s: State, run: seq<Event>, s1: State, s2: State, s3: State, t: State)
    requires |run| == 4 && Goes(s, run[0], s1) && Goes(s1, run[1], s2) && Goes(s2, run[2], s3) && Goes(s3, run[3], t)
    ensures (!UncopiedSwap(s, run[0]) && !UncopiedSwap(s1, run[1]) && !UncopiedSwap(s2, run[2])
             && !UncopiedSwap(s3, run[3])) ==> Copies(s, run, t)
    ensures (!Overtaken(s) && !Overtaken(s1) && !Overtaken(s2) && !Overtaken(s3) && !Overtaken(t))
            ==> KeepsAhead(s, run, t)
  {
    assert run[1..][1..] == run[2..] && run[2..][1..] == run[3..] && run[3..][1..] == [];
    StepOn(s3, run[3..], t);
    StepOn(s2, run[2..], s3);
    StepOn(s1, run[1..], s2);
    StepOn(s, run, s1);
  }

  lemma {:induction false} Join(s: State, a: seq<Event>, t: State, b: seq<Event>, u: State)
    ensures Copies(s, a, t) && Copies(t, b, u) ==> Copies(s, a + b, u)
    ensures KeepsAhead(s, a, t) && KeepsAhead(t, b, u) ==> KeepsAhead(s, a + b, u)
    decreases |a|
  {
    if a == [] {
      assert a + b == b;
    } else if Enabled(s, a[0]) {
      Join(Do(s, a[0]), a[1..], t, b, u);
      assert (a + b)[1..] == a[1..] + b;
    }
  }

  // ---------- a sweep overtakes an ingest ----------

  const WAV := Key("s", 1, Upload(0), "wav")
  const FLAC := Key("s", 1, Upload(0), "flac")
  const CHUNK := Row("s", 1, None, WAV)
  const INGEST := Job("s", Ingest(Upload(0)), Done, Some(IngestResult(true)))

  /** An uploaded chunk whose ingest the worker has done. */
  const CHUNKED := State(
    map[Upload(0) := CHUNK], map[WAV := 0], map[0 := INGEST], {0}, map[], 1, 1, 0, Idle, NoSweep)

  const UNTIL_CHUNKED: seq<Event> := [
    WriteBlob("s", 1, "wav"), InsertRow(Upload(0), 1, None), Enqueue("s", Ingest(Upload(0))),
    WorkerDone(0, Some(IngestResult(true)))]

  /** The copy was made, and the process died before the commit and came back an hour later. */
  const COPIED := State(
    map[Upload(0) := CHUNK], map[WAV := 0, FLAC := 0], map[0 := INGEST], {}, map[], 1, 1, MIN_AGE, Idle, NoSweep)

  const UNTIL_COPIED: seq<Event> := [ReadIngest(0), AdoptIngest, Crash, Tick(MIN_AGE)]

  const SWEEPING := COPIED.(sweep := Sweeping(MIN_AGE, {}, {WAV, FLAC}, "s", {WAV}, {WAV, FLAC}))

  const UNTIL_SWEEPING: seq<Event> := [SweepBegin, SweepPending, SweepList({WAV, FLAC}), SweepSession("s")]

  /** The retried apply finds the copy, the sweep moves it, and the apply names it. */
  const OVERTAKE: seq<Event> := [ReadIngest(0), AdoptIngest, SweepLook(FLAC), CommitIngest]

  lemma UntilChunked()
    ensures Copies(START, UNTIL_CHUNKED, CHUNKED)
  {
    var run := UNTIL_CHUNKED;
    var s1 := Do(START, run[0]);
    var s2 := Do(s1, run[1]);
    var s3 := Do(s2, run[2]);
    assert Goes(s3, run[3], CHUNKED);
    Four(START, run, s1, s2, s3, CHUNKED);
  }

  const READ_ONCE := CHUNKED.(apply := IngestRead(0, Upload(0), WAV, Some(FLAC)))
  const COPIED_ONCE := COPIED.(now := 0, apply := IngestReady(0, Upload(0), Some(FLAC)))

  lemma CopiesFlac()
    ensures Goes(CHUNKED, ReadIngest(0), READ_ONCE) && Goes(READ_ONCE, AdoptIngest, COPIED_ONCE)
  {
    assert CHUNKED.blobs[FLAC := 0] == COPIED.blobs;
  }

  lemma UntilCopied()
    ensures Copies(CHUNKED, UNTIL_COPIED, COPIED)
  {
    CopiesFlac();
    Four(CHUNKED, UNTIL_COPIED, READ_ONCE, COPIED_ONCE, COPIED.(now := 0), COPIED);
  }

  const BEGUN := COPIED.(sweep := Begun(MIN_AGE))
  const NONE_PENDING := COPIED.(sweep := Listing(MIN_AGE, {}, {}))
  const LISTED := COPIED.(sweep := Listing(MIN_AGE, {}, {WAV, FLAC}))

  lemma SweepLists()
    ensures Goes(COPIED, SweepBegin, BEGUN) && Goes(BEGUN, SweepPending, NONE_PENDING)
    ensures Goes(NONE_PENDING, SweepList({WAV, FLAC}), LISTED)
  {
    assert LiveMerges(BEGUN) == {};
    assert {} + {WAV, FLAC} == {WAV, FLAC};
  }

  lemma SweepReadsNames()
    ensures Goes(LISTED, SweepSession("s"), SWEEPING)
  {
    assert LISTED.rows[Upload(0)].key == WAV;
    assert SessionKeys(LISTED.rows, "s") == {WAV};
    assert (set k | k in LISTED.sweep.listed && k.session == "s") == {WAV, FLAC};
  }

  lemma UntilSweeping()
    ensures Copies(COPIED, UNTIL_SWEEPING, SWEEPING)
  {
    SweepLists();
    SweepReadsNames();
    Four(COPIED, UNTIL_SWEEPING, BEGUN, NONE_PENDING, LISTED, SWEEPING);
  }

  const READ := SWEEPING.(apply := IngestRead(0, Upload(0), WAV, Some(FLAC)))
  const FOUND := SWEEPING.(apply := IngestReady(0, Upload(0), Some(FLAC)))

  lemma RetryFindsCopy()
    ensures Goes(SWEEPING, ReadIngest(0), READ) && Goes(READ, AdoptIngest, FOUND)
  {
  }

  lemma SweepTakesCopy() returns (s3: State, t: State)
    ensures Goes(FOUND, SweepLook(FLAC), s3) && Goes(s3, CommitIngest, t) && !RowsHaveBlobs(t)
  {
    s3 := Do(FOUND, SweepLook(FLAC));
    assert FLAC !in s3.blobs;
    t := Do(s3, CommitIngest);
    assert t.rows[Upload(0)].key == FLAC;
  }

  lemma Overtakes() returns (t: State)
    ensures Copies(SWEEPING, OVERTAKE, t) && !RowsHaveBlobs(t)
  {
    RetryFindsCopy();
    var s3;
    s3, t := SweepTakesCopy();
    Four(SWEEPING, OVERTAKE, READ, FOUND, s3, t);
  }

  /** The sweep that runs beside the apply loop can take a FLAC copy an hour old from under the retry
    * that is about to name it: the pending ids it spares are only those of merges. */
  lemma SweepCanOvertakeIngest() returns (run: seq<Event>, t: State)
    ensures Copies(START, run, t) && !RowsHaveBlobs(t)
  {
    UntilChunked();
    UntilCopied();
    UntilSweeping();
    t := Overtakes();
    Join(START, UNTIL_CHUNKED, CHUNKED, UNTIL_COPIED, COPIED);
    Join(START, UNTIL_CHUNKED + UNTIL_COPIED, COPIED, UNTIL_SWEEPING, SWEEPING);
    run := UNTIL_CHUNKED + UNTIL_COPIED + UNTIL_SWEEPING + OVERTAKE;
    Join(START, UNTIL_CHUNKED + UNTIL_COPIED + UNTIL_SWEEPING, SWEEPING, OVERTAKE, t);
  }

  /** The other order: the apply names the copy, and the sweep, whose snapshot is older, moves it. */
  const BEHIND: seq<Event> := [ReadIngest(0), AdoptIngest, CommitIngest, SweepLook(FLAC)]

  lemma SweepTakesNamedCopy() returns (s3: State, t: State)
    ensures Goes(FOUND, CommitIngest, s3) && Goes(s3, SweepLook(FLAC), t)
    ensures RowsHaveBlobs(s3) && !RowsHaveBlobs(t)
  {
    s3 := Do(FOUND, CommitIngest);
    assert s3.rows == map[Upload(0) := CHUNK.(key := FLAC)];
    t := Do(s3, SweepLook(FLAC));
    assert FLAC !in t.blobs && t.rows[Upload(0)].key == FLAC;
  }

  lemma Trails() returns (t: State)
    ensures Copies(SWEEPING, BEHIND, t) && !RowsHaveBlobs(t)
  {
    RetryFindsCopy();
    var s3;
    s3, t := SweepTakesNamedCopy();
    Four(SWEEPING, BEHIND, READ, FOUND, s3, t);
  }

  /** The sweep can also take the copy after a row came to name it. */
  lemma SweepCanTrailIngest() returns (run: seq<Event>, t: State)
    ensures Copies(START, run, t) && !RowsHaveBlobs(t) && run != [] && run[|run| - 1] == SweepLook(FLAC)
  {
    UntilChunked();
    UntilCopied();
    UntilSweeping();
    t := Trails();
    Join(START, UNTIL_CHUNKED, CHUNKED, UNTIL_COPIED, COPIED);
    Join(START, UNTIL_CHUNKED + UNTIL_COPIED, COPIED, UNTIL_SWEEPING, SWEEPING);
    run := UNTIL_CHUNKED + UNTIL_COPIED + UNTIL_SWEEPING + BEHIND;
    Join(START, UNTIL_CHUNKED + UNTIL_COPIED + UNTIL_SWEEPING, SWEEPING, BEHIND, t);
  }

  // ---------- a sweep overtakes an upload ----------

  /** A blob that was written an hour ago, whose upload has still to insert its row. */
  const STORED := State(map[], map[WAV := 0], map[], {}, map[Upload(0) := WAV], 1, 0, MIN_AGE, Idle, NoSweep)

  const STORED_LISTED := STORED.(sweep := Listing(MIN_AGE, {}, {WAV}))

  const UNTIL_STORED_LISTED: seq<Event> := [SweepBegin, SweepPending, SweepList({WAV}), SweepSession("s")]

  const STORED_SWEEPING := STORED.(sweep := Sweeping(MIN_AGE, {}, {WAV}, "s", {}, {WAV}))

  lemma UntilStored()
    ensures Copies(START, [WriteBlob("s", 1, "wav"), Tick(MIN_AGE)], STORED)
  {
    var run := [WriteBlob("s", 1, "wav"), Tick(MIN_AGE)];
    var s1 := Do(START, run[0]);
    assert Goes(s1, run[1], STORED);
    assert run[1..][1..] == [];
    StepOn(s1, run[1..], STORED);
    StepOn(START, run, s1);
  }

  const STORED_BEGUN := STORED.(sweep := Begun(MIN_AGE))
  const STORED_NONE := STORED.(sweep := Listing(MIN_AGE, {}, {}))

  lemma SweepListsUpload()
    ensures Goes(STORED, SweepBegin, STORED_BEGUN) && Goes(STORED_BEGUN, SweepPending, STORED_NONE)
    ensures Goes(STORED_NONE, SweepList({WAV}), STORED_LISTED)
  {
    assert LiveMerges(STORED_BEGUN) == {};
    assert {} + {WAV} == {WAV};
  }

  lemma SweepReadsNoNames()
    ensures Goes(STORED_LISTED, SweepSession("s"), STORED_SWEEPING)
  {
    assert SessionKeys(STORED.rows, "s") == {};
    assert (set k | k in STORED_LISTED.sweep.listed && k.session == "s") == {WAV};
  }

  lemma UntilStoredSweeping()
    ensures Copies(STORED, UNTIL_STORED_LISTED, STORED_SWEEPING)
  {
    SweepListsUpload();
    SweepReadsNoNames();
    Four(STORED, UNTIL_STORED_LISTED, STORED_BEGUN, STORED_NONE, STORED_LISTED, STORED_SWEEPING);
  }

  lemma SweepTakesUpload() returns (t: State)
    ensures Copies(STORED_SWEEPING, [SweepLook(WAV), InsertRow(Upload(0), 1, None)], t) && !RowsHaveBlobs(t)
  {
    var run := [SweepLook(WAV), InsertRow(Upload(0), 1, None)];
    var s1 := Do(STORED_SWEEPING, run[0]);
    assert WAV !in s1.blobs;
    t := Do(s1, run[1]);
    assert t.rows[Upload(0)].key == WAV;
    assert run[1..][1..] == [];
    StepOn(s1, run[1..], t);
    StepOn(STORED_SWEEPING, run, s1);
  }

  /** The sweep can take the blob of an upload that takes an hour to insert its row. */
  lemma SweepCanOvertakeUpload() returns (run: seq<Event>, t: State)
    ensures Copies(START, run, t) && !RowsHaveBlobs(t)
  {
    UntilStored();
    UntilStoredSweeping();
    t := SweepTakesUpload();
    var a, c := [WriteBlob("s", 1, "wav"), Tick(MIN_AGE)], [SweepLook(WAV), InsertRow(Upload(0), 1, None)];
    Join(START, a, STORED, UNTIL_STORED_LISTED, STORED_SWEEPING);
    run := a + UNTIL_STORED_LISTED + c;
    Join(START, a + UNTIL_STORED_LISTED, STORED_SWEEPING, c, t);
  }

  lemma SweepTakesNamedUpload() returns (t: State)
    ensures Copies(STORED_SWEEPING, [InsertRow(Upload(0), 1, None), SweepLook(WAV)], t) && !RowsHaveBlobs(t)
  {
    var run := [InsertRow(Upload(0), 1, None), SweepLook(WAV)];
    var s1 := Do(STORED_SWEEPING, run[0]);
    assert s1.rows == map[Upload(0) := CHUNK];
    t := Do(s1, run[1]);
    assert WAV !in t.blobs && t.rows[Upload(0)].key == WAV;
    assert run[1..][1..] == [];
    StepOn(s1, run[1..], t);
    StepOn(STORED_SWEEPING, run, s1);
  }

  /** And after the row is there. */
  lemma SweepCanTrailUpload() returns (run: seq<Event>, t: State)
    ensures Copies(START, run, t) && !RowsHaveBlobs(t) && run != [] && run[|run| - 1] == SweepLook(WAV)
  {
    UntilStored();
    UntilStoredSweeping();
    t := SweepTakesNamedUpload();
    var a, c := [WriteBlob("s", 1, "wav"), Tick(MIN_AGE)], [InsertRow(Upload(0), 1, None), SweepLook(WAV)];
    Join(START, a, STORED, UNTIL_STORED_LISTED, STORED_SWEEPING);
    run := a + UNTIL_STORED_LISTED + c;
    Join(START, a + UNTIL_STORED_LISTED, STORED_SWEEPING, c, t);
  }

  // ---------- a merge that was not copied ----------

  function Chunk(n: nat): Row {
    Row("s", n, Some(1), Key("s", n, Upload(n), "webm"))
  }

  const MERGE := Job("s", Merge(1), Done, Some(MergeResult({Upload(0), Upload(1)}, "webm")))

  const UNTIL_TWO: seq<Event> := [
    WriteBlob("s", 0, "webm"), InsertRow(Upload(0), 0, Some(1)),
    WriteBlob("s", 1, "webm"), InsertRow(Upload(1), 1, Some(1))]

  const TWO := State(
    map[Upload(0) := Chunk(0), Upload(1) := Chunk(1)], map[Chunk(0).key := 0, Chunk(1).key := 0],
    map[], {}, map[], 2, 0, 0, Idle, NoSweep)

  const UNTIL_THREE: seq<Event> := [
    Enqueue("s", Merge(1)), WorkerDone(0, Some(MergeResult({Upload(0), Upload(1)}, "webm"))),
    WriteBlob("s", 2, "webm"), InsertRow(Upload(2), 2, Some(1))]

  const THREE := State(
    map[Upload(0) := Chunk(0), Upload(1) := Chunk(1), Upload(2) := Chunk(2)],
    map[Chunk(0).key := 0, Chunk(1).key := 0, Chunk(2).key := 0],
    map[0 := MERGE], {0}, map[], 3, 1, 0, Idle, NoSweep)

  /** A third chunk is there when the apply reads, and gone when its transaction looks again. */
  const UNCOPIED: seq<Event> := [
    ReadMerge(0, Some(Upload(0))), AdoptMerge, DeleteRow(Upload(2)), CommitMerge(false, true, 0)]

  lemma UntilTwo()
    ensures KeepsAhead(START, UNTIL_TWO, TWO)
  {
    var run := UNTIL_TWO;
    var s1 := Do(START, run[0]);
    var s2 := Do(s1, run[1]);
    var s3 := Do(s2, run[2]);
    assert Goes(s3, run[3], TWO);
    Four(START, run, s1, s2, s3, TWO);
  }

  lemma UntilThree()
    ensures KeepsAhead(TWO, UNTIL_THREE, THREE)
  {
    var run := UNTIL_THREE;
    var s1 := Do(TWO, run[0]);
    var s2 := Do(s1, run[1]);
    var s3 := Do(s2, run[2]);
    assert Goes(s3, run[3], THREE);
    Four(TWO, run, s1, s2, s3, THREE);
  }

  const MERGED_KEY := Key("s", 0, Merged(0), "webm")
  const SAW_THREE := THREE.(apply := MergeRead(0, MERGED_KEY, false))
  const NOT_COPIED := THREE.(apply := MergeReady(0, MERGED_KEY, false))

  lemma ReadSeesThree()
    ensures Goes(THREE, ReadMerge(0, Some(Upload(0))), SAW_THREE) && Goes(SAW_THREE, AdoptMerge, NOT_COPIED)
  {
    assert Upload(2) in RecordingIds(THREE.rows, "s", 1);
  }

  lemma SwapFindsTwo() returns (s3: State, t: State)
    ensures Goes(NOT_COPIED, DeleteRow(Upload(2)), s3) && Goes(s3, CommitMerge(false, true, 0), t)
    ensures !RowsHaveBlobs(t)
  {
    s3 := Do(NOT_COPIED, DeleteRow(Upload(2)));
    assert s3.rows == TWO.rows;
    assert RecordingIds(TWO.rows, "s", 1) == {Upload(0), Upload(1)};
    t := Do(s3, CommitMerge(false, true, 0));
    assert t.rows[Merged(0)].key == MERGED_KEY;
  }

  lemma Swaps() returns (t: State)
    ensures KeepsAhead(THREE, UNCOPIED, t) && !RowsHaveBlobs(t)
  {
    ReadSeesThree();
    var s3;
    s3, t := SwapFindsTwo();
    Four(THREE, UNCOPIED, SAW_THREE, NOT_COPIED, s3, t);
  }

  /** A merge whose read saw one chunk too many is not copied, and still swapped in when the chunk is
    * deleted before the transaction: no crash and no sweep is needed. */
  lemma MergeCanSwapUncopied() returns (run: seq<Event>, t: State)
    ensures KeepsAhead(START, run, t) && !RowsHaveBlobs(t)
  {
    UntilTwo();
    UntilThree();
    t := Swaps();
    Join(START, UNTIL_TWO, TWO, UNTIL_THREE, THREE);
    run := UNTIL_TWO + UNTIL_THREE + UNCOPIED;
    Join(START, UNTIL_TWO + UNTIL_THREE, THREE, UNCOPIED, t);
  }
}
