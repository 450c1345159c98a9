/**
 * When a segment row keeps its blob, whatever crashes, throws, retries, deletions and sweeps come between
 * the steps of the media apply: exactly which steps lose one, over whole runs, and that none does while no
 * blob about to be named is an hour old under a running sweep.
 */
module MediaApplySafety {
  import opened Wrappers
  import opened MediaApply
  import opened MediaApplyInvariants

  // ---------- which step costs a row its blob ----------

  predicate NamedByRow(s: State, key: Key) {
    exists id <- s.rows :: s.rows[id].key == key
  }

  /** A row comes to name a key under which there is no blob, or the sweep moves a key that a row has come
    * to name since the sweep read what the rows of the session named. */
  predicate RowLoses(s: State, e: Event)
    requires Enabled(s, e)
  {
    match e
    case InsertRow(id, _, _) => s.uploads[id] !in s.blobs
    case CommitIngest =>
      && s.apply.flac.Some? && Found(s, s.apply.job, s.apply.id) && IsDone(s, s.apply.job)
      && s.apply.flac.value !in s.blobs
    case CommitMerge(_, _, _) => Swaps(s, e) && s.apply.key !in s.blobs
    case SweepLook(key) => Moves(s, key) && NamedByRow(s, key)
    case _ => false
  }

  lemma NewNameExactly(s: State, e: Event)
    requires Base(s) && RowsHaveBlobs(s) && Enabled(s, e) && (e.InsertRow? || e.CommitIngest?)
    ensures !RowsHaveBlobs(Do(s, e)) <==> RowLoses(s, e)
  {
    var id := if e.InsertRow? then e.id else s.apply.id;
    if RowLoses(s, e) { assert Do(s, e).rows[id].key !in Do(s, e).blobs; }
  }

  lemma SwapExactly(s: State, e: Event)
    requires Base(s) && RowsHaveBlobs(s) && Enabled(s, e) && e.CommitMerge?
    ensures !RowsHaveBlobs(Do(s, e)) <==> RowLoses(s, e)
  {
    if RowLoses(s, e) { assert Do(s, e).rows[Merged(s.apply.job)].key !in Do(s, e).blobs; }
  }

  lemma BlobGoesExactly(s: State, e: Event)
    requires Base(s) && RowsHaveBlobs(s) && Enabled(s, e) && (e.TrashOne? || e.SweepLook?)
    ensures !RowsHaveBlobs(Do(s, e)) <==> RowLoses(s, e)
  {
    if RowLoses(s, e) {
      var id :| id in s.rows && s.rows[id].key == e.key;
      assert Do(s, e).rows[id].key !in Do(s, e).blobs;
    }
  }

  lemma CopiesKeepRows(s: State, e: Event)
    requires RowsHaveBlobs(s) && Enabled(s, e) && (e.AdoptIngest? || e.AdoptMerge? || e.WriteBlob?)
    ensures RowsHaveBlobs(Do(s, e))
  {
  }

  /** Every other step leaves the blobs alone, and names nothing. */
  lemma OthersKeepRows(s: State, e: Event)
    requires RowsHaveBlobs(s) && Enabled(s, e)
    requires !e.InsertRow? && !e.CommitIngest? && !e.CommitMerge? && !e.TrashOne? && !e.SweepLook?
    requires !e.AdoptIngest? && !e.AdoptMerge? && !e.WriteBlob?
    ensures RowsHaveBlobs(Do(s, e))
  {
    assert forall id <- Do(s, e).rows :: id in s.rows && Do(s, e).rows[id] == s.rows[id];
    assert Do(s, e).blobs == s.blobs;
  }

  lemma RowLosesExactly(s: State, e: Event)
    requires Base(s) && RowsHaveBlobs(s) && Enabled(s, e)
    ensures !RowsHaveBlobs(Do(s, e)) <==> RowLoses(s, e)
  {
    if e.InsertRow? || e.CommitIngest? { NewNameExactly(s, e); }
    else if e.CommitMerge? { SwapExactly(s, e); }
    else if e.TrashOne? || e.SweepLook? { BlobGoesExactly(s, e); }
    else if e.AdoptIngest? || e.AdoptMerge? || e.WriteBlob? { CopiesKeepRows(s, e); }
    else { OthersKeepRows(s, e); }
  }

  /** At any moment of any run in which every row has its blob, the next step costs a row its blob exactly
    * when it is one of these four. */
  lemma RowLosesItsBlobExactly(run: seq<Event>, e: Event)
    requires Legal(START, run) && Enabled(Final(START, run), e) && RowsHaveBlobs(Final(START, run))
    ensures !RowsHaveBlobs(Do(Final(START, run), e)) <==> RowLoses(Final(START, run), e)
  {
    BaseKeepsRun(START, run);
    RowLosesExactly(Final(START, run), e);
  }

  // ---------- whole runs ----------

  predicate UploadsHaveBlobs(s: State) {
    forall id <- s.uploads :: s.uploads[id] in s.blobs
  }

  /** The apply's copy is there when its transaction would name it. */
  predicate ApplyHasBlobs(s: State) {
    match s.apply
    case IngestReady(_, id, flac) => flac.Some? && id in s.rows ==> flac.value in s.blobs
    case MergeReady(j, key, copied) => copied && LiveIn(s.jobs, j) ==> key in s.blobs
    case _ => true
  }

  /** All that is named, or about to be named, is there. */
  predicate Stocked(s: State) {
    RowsHaveBlobs(s) && UploadsHaveBlobs(s) && ApplyHasBlobs(s)
  }

  predicate HeldByApply(s: State, key: Key) {
    match s.apply
    case IngestReady(_, id, flac) => flac == Some(key) && id in s.rows
    case MergeReady(j, k, copied) => copied && k == key && LiveIn(s.jobs, j)
    case _ => false
  }

  /** The key is named by a row, or about to be. */
  predicate Wanted(s: State, key: Key) {
    NamedByRow(s, key) || (exists id <- s.uploads :: s.uploads[id] == key) || HeldByApply(s, key)
  }

  /** The sweep moves a wanted key, or a merge that was not copied is swapped in. */
  predicate Loses(s: State, e: Event)
    requires Enabled(s, e)
  {
    (e.SweepLook? && Moves(s, e.key) && Wanted(s, e.key)) || (UncopiedSwap(s, e) && s.apply.key !in s.blobs)
  }

  lemma QuietKeepsStock(s: State, e: Event)
    requires Stocked(s) && Enabled(s, e)
    requires e.Tick? || e.Crash? || e.DropDir? || e.ApplyThrows? || e.SweepBegin? || e.SweepPending? || e.SweepList?
             || e.SweepSession? || e.SweepEnd? || e.ReadIngest? || e.ReadMerge? || e.AbandonUpload? || e.DeleteRow?
    ensures Stocked(Do(s, e))
  {
  }

  lemma JobsKeepStock(s: State, e: Event)
    requires Base(s) && Stocked(s) && Enabled(s, e) && (e.Enqueue? || e.WorkerDone? || e.JobEnds? || e.PruneJob?)
    ensures Stocked(Do(s, e))
  {
  }

  lemma UploadKeepsStock(s: State, e: Event)
    requires Base(s) && Stocked(s) && Enabled(s, e) && (e.WriteBlob? || e.InsertRow?)
    ensures Stocked(Do(s, e))
  {
  }

  lemma AdoptIngestKeepsStock(s: State, e: Event)
    requires Base(s) && Stocked(s) && Enabled(s, e) && e.AdoptIngest?
    ensures Stocked(Do(s, e))
  {
  }

  lemma AdoptMergeKeepsStock(s: State, e: Event)
    requires Base(s) && Stocked(s) && Enabled(s, e) && e.AdoptMerge?
    ensures Stocked(Do(s, e))
  {
  }

  lemma CommitIngestKeepsStock(s: State, e: Event)
    requires Base(s) && Stocked(s) && Enabled(s, e) && e.CommitIngest?
    ensures Stocked(Do(s, e))
  {
  }

  lemma CommitMergeExactly(s: State, e: Event)
    requires Base(s) && Stocked(s) && Enabled(s, e) && e.CommitMerge?
    ensures !Stocked(Do(s, e)) <==> Loses(s, e)
  {
    SwapExactly(s, e);
  }

  /** What goes to the trash, or is moved, and is not wanted takes nothing from the stock. */
  lemma UnwantedGoes(s: State, t: State, key: Key)
    requires Stocked(s) && !Wanted(s, key)
    requires t.rows == s.rows && t.uploads == s.uploads && t.jobs == s.jobs
    requires t.blobs == s.blobs || t.blobs == s.blobs - {key}
    requires t.apply == s.apply || t.apply.Idle? || t.apply.Trashing?
    ensures Stocked(t)
  {
    assert forall id <- s.uploads :: s.uploads[id] != key;
    assert forall id <- s.rows :: s.rows[id].key != key;
  }

  lemma DeadIsUnwanted(s: State, key: Key)
    requires Base(s) && s.apply.Trashing? && key in s.apply.keys
    ensures !Wanted(s, key)
  {
  }

  lemma TrashKeepsStock(s: State, e: Event)
    requires Base(s) && Stocked(s) && Enabled(s, e) && e.TrashOne?
    ensures Stocked(Do(s, e))
  {
    if e.key in s.apply.keys {
      DeadIsUnwanted(s, e.key);
      assert s.apply.keys * {e.key} == {e.key};
      UnwantedGoes(s, Do(s, e), e.key);
    } else {
      assert s.apply.keys * {e.key} == {};
    }
  }

  lemma WantedIsMissed(s: State, t: State, key: Key)
    requires Wanted(s, key) && key !in t.blobs
    requires t.rows == s.rows && t.uploads == s.uploads && t.jobs == s.jobs && t.apply == s.apply
    ensures !Stocked(t)
  {
  }

  lemma SweepLookExactly(s: State, e: Event)
    requires Base(s) && Stocked(s) && Enabled(s, e) && e.SweepLook?
    ensures !Stocked(Do(s, e)) <==> Loses(s, e)
  {
    if !Moves(s, e.key) {
    } else if Wanted(s, e.key) {
      WantedIsMissed(s, Do(s, e), e.key);
    } else {
      UnwantedGoes(s, Do(s, e), e.key);
    }
  }

  lemma StockedExactly(s: State, e: Event)
    requires Base(s) && Stocked(s) && Enabled(s, e)
    ensures !Stocked(Do(s, e)) <==> Loses(s, e)
  {
    if e.SweepLook? { SweepLookExactly(s, e); }
    else if e.CommitMerge? { CommitMergeExactly(s, e); }
    else if e.CommitIngest? { CommitIngestKeepsStock(s, e); }
    else if e.AdoptIngest? { AdoptIngestKeepsStock(s, e); }
    else if e.AdoptMerge? { AdoptMergeKeepsStock(s, e); }
    else if e.WriteBlob? || e.InsertRow? { UploadKeepsStock(s, e); }
    else if e.TrashOne? { TrashKeepsStock(s, e); }
    else if e.Enqueue? || e.WorkerDone? || e.JobEnds? || e.PruneJob? { JobsKeepStock(s, e); }
    else { QuietKeepsStock(s, e); }
  }

  predicate AlwaysStocked(s: State, run: seq<Event>)
    requires Legal(s, run)
    decreases |run|
  {
    Stocked(s) && (run != [] ==> AlwaysStocked(Do(s, run[0]), run[1..]))
  }

  predicate NeverLoses(s: State, run: seq<Event>)
    requires Legal(s, run)
    decreases |run|
  {
    run != [] ==> !Loses(s, run[0]) && NeverLoses(Do(s, run[0]), run[1..])
  }

  lemma {:induction false} StockedRunExactly(s: State, run: seq<Event>)
    requires Base(s) && Stocked(s) && Legal(s, run)
    ensures AlwaysStocked(s, run) <==> NeverLoses(s, run)
    decreases |run|
  {
    if run != [] {
      StockedExactly(s, run[0]);
      BaseKeeps(s, run[0]);
      if Stocked(Do(s, run[0])) { StockedRunExactly(Do(s, run[0]), run[1..]); }
    }
  }

  /** Over a whole run, all that rows name, and all that uploads and applies are about to name, is there at
    * every moment exactly when the sweep never moves such a key and no uncopied merge is swapped in. */
  lemma AlwaysStockedExactly(run: seq<Event>)
    requires Legal(START, run)
    ensures AlwaysStocked(START, run) <==> NeverLoses(START, run)
  {
    StockedRunExactly(START, run);
  }

  // ---------- young blobs are safe ----------

  /** What a session's row names and the sweep would move is in the sweep's snapshot of that session. */
  predicate SnapshotCovers(rows: map<Id, Row>, blobs: map<Key, nat>, began: nat, pending: set<nat>,
                           session: string, named: set<Key>) {
    forall id <- rows ::
      (rows[id].session == session && Old(blobs, began, rows[id].key)
       && !(id.Merged? && id.job in pending)) ==> rows[id].key in named
  }

  predicate Covers(s: State) {
    s.sweep.Sweeping? ==>
      SnapshotCovers(s.rows, s.blobs, s.sweep.began, s.sweep.pending, s.sweep.session, s.sweep.named)
  }

  predicate Inv(s: State) {
    Base(s) && Stocked(s) && Covers(s)
  }

  /** Blobs that come are young, and blobs that go are no longer old. */
  lemma CoversWithFewerOld(s: State, t: State)
    requires Covers(s) && t.sweep.Sweeping? && s.sweep.Sweeping?
    requires t.sweep == s.sweep.(left := t.sweep.left)
    requires forall id <- t.rows :: id in s.rows && t.rows[id] == s.rows[id]
    requires forall k :: Old(t.blobs, s.sweep.began, k) ==> Old(s.blobs, s.sweep.began, k)
    ensures Covers(t)
  {
  }

  lemma InsertKeepsCover(s: State, e: Event)
    requires Base(s) && Covers(s) && !Overtaken(s) && Enabled(s, e) && e.InsertRow?
    ensures Covers(Do(s, e))
  {
  }

  lemma CommitIngestKeepsCover(s: State, e: Event)
    requires Base(s) && Covers(s) && !Overtaken(s) && Enabled(s, e) && e.CommitIngest?
    ensures Covers(Do(s, e))
  {
  }

  lemma CommitMergeKeepsCover(s: State, e: Event)
    requires Base(s) && Covers(s) && Enabled(s, e) && e.CommitMerge?
    ensures Covers(Do(s, e))
  {
  }

  lemma SweepSessionCovers(s: State, e: Event)
    requires Base(s) && Enabled(s, e) && e.SweepSession?
    ensures Covers(Do(s, e))
  {
  }

  lemma WriteBlobKeepsCover(s: State, e: Event)
    requires Base(s) && Covers(s) && Enabled(s, e) && s.sweep.Sweeping? && e.WriteBlob?
    ensures Covers(Do(s, e))
  {
    CoversWithFewerOld(s, Do(s, e));
  }

  lemma AdoptKeepsCover(s: State, e: Event)
    requires Base(s) && Covers(s) && Enabled(s, e) && s.sweep.Sweeping? && (e.AdoptIngest? || e.AdoptMerge?)
    ensures Covers(Do(s, e))
  {
    CoversWithFewerOld(s, Do(s, e));
  }

  lemma GoneBlobsKeepCover(s: State, e: Event)
    requires Covers(s) && Enabled(s, e) && s.sweep.Sweeping? && (e.TrashOne? || e.SweepLook?)
    ensures Covers(Do(s, e))
  {
    CoversWithFewerOld(s, Do(s, e));
  }

  lemma OthersKeepCover(s: State, e: Event)
    requires Covers(s) && Enabled(s, e)
    requires !e.InsertRow? && !e.CommitIngest? && !e.CommitMerge? && !e.SweepSession?
    requires !e.WriteBlob? && !e.AdoptIngest? && !e.AdoptMerge? && !e.TrashOne? && !e.SweepLook?
    ensures Covers(Do(s, e))
  {
    var t := Do(s, e);
    if t.sweep.Sweeping? {
      assert t.sweep == s.sweep && t.blobs == s.blobs;
      CoversWithFewerOld(s, t);
    }
  }

  lemma CoverKeeps(s: State, e: Event)
    requires Base(s) && Covers(s) && !Overtaken(s) && Enabled(s, e)
    ensures Covers(Do(s, e))
  {
    if e.InsertRow? { InsertKeepsCover(s, e); }
    else if e.CommitIngest? { CommitIngestKeepsCover(s, e); }
    else if e.CommitMerge? { CommitMergeKeepsCover(s, e); }
    else if e.SweepSession? { SweepSessionCovers(s, e); }
    else if e.WriteBlob? {
      if s.sweep.Sweeping? { WriteBlobKeepsCover(s, e); }
    } else if e.AdoptIngest? || e.AdoptMerge? {
      if s.sweep.Sweeping? { AdoptKeepsCover(s, e); }
    } else if e.TrashOne? || e.SweepLook? {
      if s.sweep.Sweeping? { GoneBlobsKeepCover(s, e); }
    } else {
      OthersKeepCover(s, e);
    }
  }

  /** A sweep spares the rows that its snapshot covers. */
  lemma SparesRows(s: State, key: Key)
    requires Base(s) && Covers(s) && Enabled(s, SweepLook(key)) && Moves(s, key)
    ensures !NamedByRow(s, key)
  {
  }

  /** A sweep spares the copies of merges that are not over, in any state of any run. */
  lemma SparesMerges(s: State, key: Key)
    requires Base(s) && Enabled(s, SweepLook(key)) && Moves(s, key)
    ensures !(key.id.Merged? && LiveMerge(s.jobs, key.id.job))
  {
  }

  /** And what is about to be named, while none of it is an hour old. */
  lemma SparesWanted(s: State, key: Key)
    requires Base(s) && Covers(s) && !Overtaken(s) && Enabled(s, SweepLook(key)) && Moves(s, key)
    ensures !Wanted(s, key)
  {
    SparesRows(s, key);
    SparesMerges(s, key);
    if s.apply.IngestReady? && s.apply.id in s.rows { assert s.rows[s.apply.id].key != key; }
  }

  /** One step keeps the invariant, unless a sweep has overtaken a blob or it is an uncopied swap. */
  lemma StepKeeps(s: State, e: Event)
    requires Inv(s) && Enabled(s, e) && !Overtaken(s) && !UncopiedSwap(s, e)
    ensures Inv(Do(s, e))
  {
    BaseKeeps(s, e);
    if e.SweepLook? && Moves(s, e.key) { SparesWanted(s, e.key); }
    StockedExactly(s, e);
    CoverKeeps(s, e);
  }

  lemma {:induction false} RunKeeps(s: State, run: seq<Event>)
    requires Inv(s) && Legal(s, run) && NeverOvertaken(s, run) && NeverUncopied(s, run)
    ensures Inv(Final(s, run))
    decreases |run|
  {
    if run != [] {
      StepKeeps(s, run[0]);
      RunKeeps(Do(s, run[0]), run[1..]);
    }
  }

  /** In every run in which no row comes to name an uncopied merge and no blob about to be named is an hour
    * old under a running sweep, every segment row names a blob that is there, at every moment: a crash, a
    * throw, a retry, a deletion or a sweep may come between any two steps. */
  lemma RowsAlwaysHaveBlobs(run: seq<Event>)
    requires Legal(START, run) && NeverOvertaken(START, run) && NeverUncopied(START, run)
    ensures RowsHaveBlobs(Final(START, run))
  {
    RunKeeps(START, run);
  }

  /** What an apply trashes no row names and no upload or merge will, in every run. */
  lemma TrashTouchesNoRow(run: seq<Event>, key: Key)
    requires Legal(START, run)
    requires Final(START, run).apply.Trashing? && key in Final(START, run).apply.keys
    ensures var s := Final(START, run);
      !Wanted(s, key) && key.id !in s.uploads && !(key.id.Merged? && LiveIn(s.jobs, key.id.job))
  {
    BaseKeepsRun(START, run);
    DeadIsUnwanted(Final(START, run), key);
  }

  /** In every run a sweep spares the copies of merges that are not over; and it spares the blobs of rows
    * in the runs of the theorem above. */
  lemma SweepSparesRowsAndMerges(run: seq<Event>, key: Key)
    requires Legal(START, run) && Enabled(Final(START, run), SweepLook(key)) && Moves(Final(START, run), key)
    ensures !(key.id.Merged? && LiveMerge(Final(START, run).jobs, key.id.job))
    ensures NeverOvertaken(START, run) && NeverUncopied(START, run) ==> !NamedByRow(Final(START, run), key)
  {
    BaseKeepsRun(START, run);
    SparesMerges(Final(START, run), key);
    if NeverOvertaken(START, run) && NeverUncopied(START, run) {
      RunKeeps(START, run);
      SparesRows(Final(START, run), key);
    }
  }

  /** The swap leaves every row its blob exactly when it is not an uncopied one, or the copy happens
    * to be there from before. */
  lemma SwapKeepsRowsExactly(s: State, lease: bool, windows: bool, ordinal: nat)
    requires Base(s) && Stocked(s) && Enabled(s, CommitMerge(lease, windows, ordinal))
    ensures RowsHaveBlobs(Do(s, CommitMerge(lease, windows, ordinal)))
      <==> !UncopiedSwap(s, CommitMerge(lease, windows, ordinal)) || s.apply.key in s.blobs
  {
    SwapExactly(s, CommitMerge(lease, windows, ordinal));
  }

  // ---------- the two orders of a look and a name ----------

  /** A sweep that looks at one more key before an ingest commits costs a row its blob exactly when
    * it moves the very copy the row is about to name. */
  lemma LookThenCommitExactly(s: State, key: Key)
    requires Inv(s) && Enabled(s, CommitIngest) && Enabled(s, SweepLook(key))
    requires s.apply.flac.Some? && Found(s, s.apply.job, s.apply.id) && IsDone(s, s.apply.job)
    ensures RowsHaveBlobs(Do(Do(s, SweepLook(key)), CommitIngest))
      <==> !(Moves(s, key) && key == s.apply.flac.value)
  {
    var t := Do(Do(s, SweepLook(key)), CommitIngest);
    assert t.rows[s.apply.id].key == s.apply.flac.value;
    if Moves(s, key) { SparesRows(s, key); }
  }

  /** So does one that looks at it after the commit: its snapshot does not know of the new name. */
  lemma CommitThenLookExactly(s: State, key: Key)
    requires Inv(s) && Enabled(s, CommitIngest) && Enabled(s, SweepLook(key))
    requires s.apply.flac.Some? && Found(s, s.apply.job, s.apply.id) && IsDone(s, s.apply.job)
    ensures RowsHaveBlobs(Do(s, CommitIngest))
    ensures RowsHaveBlobs(Do(Do(s, CommitIngest), SweepLook(key)))
      <==> !(Moves(s, key) && key == s.apply.flac.value)
  {
    var t := Do(Do(s, CommitIngest), SweepLook(key));
    assert t.rows[s.apply.id].key == s.apply.flac.value;
    if Moves(s, key) { SparesRows(s, key); }
  }

  /** Likewise before an upload inserts its row: exactly when it moves the very blob of that upload. */
  lemma LookThenInsertExactly(s: State, key: Key, id: Id, ordinal: nat, recording: Option<nat>)
    requires Inv(s) && Enabled(s, InsertRow(id, ordinal, recording)) && Enabled(s, SweepLook(key))
    ensures RowsHaveBlobs(Do(Do(s, SweepLook(key)), InsertRow(id, ordinal, recording)))
      <==> !(Moves(s, key) && key == s.uploads[id])
  {
    var t := Do(Do(s, SweepLook(key)), InsertRow(id, ordinal, recording));
    assert t.rows[id].key == s.uploads[id] && s.uploads[id] in s.blobs;
    if Moves(s, key) { SparesRows(s, key); }
  }

  /** And after it. */
  lemma InsertThenLookExactly(s: State, key: Key, id: Id, ordinal: nat, recording: Option<nat>)
    requires Inv(s) && Enabled(s, InsertRow(id, ordinal, recording)) && Enabled(s, SweepLook(key))
    ensures RowsHaveBlobs(Do(s, InsertRow(id, ordinal, recording)))
    ensures RowsHaveBlobs(Do(Do(s, InsertRow(id, ordinal, recording)), SweepLook(key)))
      <==> !(Moves(s, key) && key == s.uploads[id])
  {
    var t := Do(Do(s, InsertRow(id, ordinal, recording)), SweepLook(key));
    assert t.rows[id].key == s.uploads[id] && s.uploads[id] in s.blobs;
    if Moves(s, key) { SparesRows(s, key); }
  }

  /** The retry up to its transaction: the copy found in place is not made again. */
  lemma RetryFindsCopy(s: State, j: nat, flac: Key) returns (c: State, r: State, a: State)
    requires IsDone(s, j) && s.jobs[j].work.Ingest? && s.jobs[j].result == Some(IngestResult(true))
    requires Found(s, j, s.jobs[j].work.target)
    requires flac == Key(s.jobs[j].session, s.rows[s.jobs[j].work.target].ordinal, s.jobs[j].work.target, "flac")
    requires flac in s.blobs
    ensures Goes(s, Crash, c) && Goes(c, ReadIngest(j), r) && Goes(r, AdoptIngest, a)
    ensures a.blobs == s.blobs && a.rows == s.rows && a.jobs == s.jobs
    ensures a.apply == IngestReady(j, s.jobs[j].work.target, Some(flac))
  {
    c := Do(s, Crash);
    r := Do(c, ReadIngest(j));
    a := Do(r, AdoptIngest);
  }

  /** Once the copy is in place, a retry after a crash copies nothing and finishes the job: the row
    * names the FLAC, and the key it replaced is what goes to the trash. */
  lemma RetryFinishes(s: State, j: nat, flac: Key) returns (c: State, r: State, a: State, t: State)
    requires IsDone(s, j) && s.jobs[j].work.Ingest? && s.jobs[j].result == Some(IngestResult(true))
    requires Found(s, j, s.jobs[j].work.target)
    requires flac == Key(s.jobs[j].session, s.rows[s.jobs[j].work.target].ordinal, s.jobs[j].work.target, "flac")
    requires flac in s.blobs
    ensures Goes(s, Crash, c) && Goes(c, ReadIngest(j), r) && Goes(r, AdoptIngest, a) && Goes(a, CommitIngest, t)
    ensures t.blobs == s.blobs && j in t.jobs && t.jobs[j].status == Applied
    ensures var id := s.jobs[j].work.target;
      t.rows == s.rows[id := s.rows[id].(key := flac)] && t.apply == Trashing({s.rows[id].key} - {flac})
  {
    c, r, a := RetryFindsCopy(s, j, flac);
    t := Do(a, CommitIngest);
  }
}
