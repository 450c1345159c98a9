/**
 * What every step of the media apply keeps, in whatever order the steps come: who may name which key,
 * which keys are dead, and that a sweep sees the copies of merges that are not over as pending or young.
 */
module MediaApplyInvariants {
  import opened Wrappers
  import opened MediaApply

  /** A row's key carries the row's id and session. */
  predicate RowsNamed(rows: map<Id, Row>) {
    forall id <- rows :: rows[id].key.id == id && rows[id].key.session == rows[id].session
  }

  predicate LiveIn(jobs: map<nat, Job>, j: nat) {
    j in jobs && (jobs[j].status == Queued || jobs[j].status == Running || jobs[j].status == Done)
  }

  predicate LiveMerge(jobs: map<nat, Job>, j: nat) {
    LiveIn(jobs, j) && jobs[j].work.Merge?
  }

  /** The id was handed out already. */
  predicate Known(id: Id, nextUpload: nat, nextJob: nat) {
    match id
    case Upload(n) => n < nextUpload
    case Merged(j) => j < nextJob
  }

  /** A merged row's job has ended; ids are handed out once. */
  predicate IdsInv(rows: map<Id, Row>, jobs: map<nat, Job>, uploads: map<Id, Key>, nextUpload: nat, nextJob: nat) {
    && (forall j <- jobs :: j < nextJob)
    && (forall id <- rows :: Known(id, nextUpload, nextJob) && (id.Merged? ==> !LiveIn(jobs, id.job)))
    && (forall id <- uploads :: id.Upload? && Known(id, nextUpload, nextJob) && id !in rows && uploads[id].id == id)
  }

  predicate BlobsInv(blobs: map<Key, nat>, nextUpload: nat, nextJob: nat, now: nat) {
    forall k <- blobs :: blobs[k] <= now && Known(k.id, nextUpload, nextJob)
  }

  /** What an ingest apply carries: an id no upload or live merge has, and a FLAC key of that id. */
  predicate Carries(id: Id, flac: Option<Key>, session: string, jobs: map<nat, Job>, uploads: map<Id, Key>) {
    && id !in uploads && (id.Merged? ==> !LiveIn(jobs, id.job))
    && (flac.Some? ==> flac.value.id == id && flac.value.session == session)
  }

  /** A key that no row names and no row will. */
  predicate Dead(k: Key, rows: map<Id, Row>, jobs: map<nat, Job>, uploads: map<Id, Key>) {
    && !(k.id in rows && rows[k.id].key == k) && k.id !in uploads
    && (k.id.Merged? ==> !LiveIn(jobs, k.id.job))
  }

  predicate AppliesJob(jobs: map<nat, Job>, j: nat, key: Key) {
    j in jobs && jobs[j].work.Merge? && key.id == Merged(j) && key.session == jobs[j].session
  }

  /** What the apply in flight holds; what it trashes no row names. */
  predicate ApplyInv(a: Apply, rows: map<Id, Row>, jobs: map<nat, Job>, uploads: map<Id, Key>) {
    match a
    case Idle => true
    case IngestRead(j, id, rowKey, flac) =>
      && j in jobs && Carries(id, flac, jobs[j].session, jobs, uploads)
      && (id in rows ==> rows[id].key == rowKey)
    case IngestReady(j, id, flac) => j in jobs && Carries(id, flac, jobs[j].session, jobs, uploads)
    case MergeRead(j, key, _) => AppliesJob(jobs, j, key)
    case MergeReady(j, key, _) => AppliesJob(jobs, j, key)
    case Trashing(keys) => forall k <- keys :: Dead(k, rows, jobs, uploads)
  }

  predicate ApplyKnown(a: Apply, nextUpload: nat, nextJob: nat) {
    match a
    case IngestRead(_, id, _, _) => Known(id, nextUpload, nextJob)
    case IngestReady(_, id, _) => Known(id, nextUpload, nextJob)
    case Trashing(keys) => forall k <- keys :: Known(k.id, nextUpload, nextJob)
    case _ => true
  }

  /** Every copy of a live merge that the sweep did not see pending is younger than the sweep. */
  predicate MergesFresh(blobs: map<Key, nat>, jobs: map<nat, Job>, pending: set<nat>, began: nat) {
    forall k <- blobs ::
      (k.id.Merged? && LiveMerge(jobs, k.id.job) && k.id.job !in pending) ==> !Old(blobs, began, k)
  }

  predicate SweepInv(sw: Sweep, blobs: map<Key, nat>, jobs: map<nat, Job>, now: nat) {
    && (!sw.NoSweep? ==> sw.began <= now)
    && (sw.Listing? || sw.Sweeping? ==> MergesFresh(blobs, jobs, sw.pending, sw.began))
    && (sw.Sweeping? ==> forall k <- sw.left :: k.session == sw.session)
  }

  predicate Base(s: State) {
    && RowsNamed(s.rows)
    && IdsInv(s.rows, s.jobs, s.uploads, s.nextUpload, s.nextJob)
    && BlobsInv(s.blobs, s.nextUpload, s.nextJob, s.now)
    && ApplyInv(s.apply, s.rows, s.jobs, s.uploads)
    && ApplyKnown(s.apply, s.nextUpload, s.nextJob)
    && SweepInv(s.sweep, s.blobs, s.jobs, s.now)
  }

  // ---------- each step keeps it ----------

  lemma ClockKeeps(s: State, e: Event)
    requires Base(s) && Enabled(s, e) && (e.Tick? || e.Crash? || e.DropDir? || e.SweepEnd? || e.ApplyThrows?)
    ensures Base(Do(s, e))
  {
  }

  lemma WriteBlobKeeps(s: State, e: Event)
    requires Base(s) && Enabled(s, e) && e.WriteBlob?
    ensures Base(Do(s, e))
  {
  }

  lemma UploadEndKeeps(s: State, e: Event)
    requires Base(s) && Enabled(s, e) && (e.InsertRow? || e.AbandonUpload? || e.DeleteRow?)
    ensures Base(Do(s, e))
  {
  }

  lemma EnqueueKeeps(s: State, e: Event)
    requires Base(s) && Enabled(s, e) && e.Enqueue?
    ensures Base(Do(s, e))
  {
  }

  lemma WorkerDoneKeeps(s: State, e: Event)
    requires Base(s) && Enabled(s, e) && e.WorkerDone?
    ensures Base(Do(s, e))
  {
  }

  lemma JobGoneKeeps(s: State, e: Event)
    requires Base(s) && Enabled(s, e) && (e.JobEnds? || e.PruneJob?)
    ensures Base(Do(s, e))
  {
  }

  /** A copy put in place, or found there. */
  lemma AdoptedKeeps(s: State, j: nat, key: Key)
    requires Base(s) && Known(key.id, s.nextUpload, s.nextJob)
    ensures Base(Adopted(s, j, key).(apply := Idle)) && key in Adopted(s, j, key).blobs
  {
  }

  /** A job that ends keeps everything but what the apply holds. */
  lemma EndJobKeeps(s: State, j: nat, status: Status)
    requires Base(s) && j in s.jobs && status in {Applied, Cancelled, Failed}
    ensures Base(EndJob(s, j, status).(apply := Idle))
    ensures !LiveIn(EndJob(s, j, status).jobs, j)
  {
  }

  lemma ReadIngestKeeps(s: State, e: Event)
    requires Base(s) && Enabled(s, e) && e.ReadIngest?
    ensures Base(Do(s, e))
  {
  }

  lemma AdoptIngestKeeps(s: State, e: Event)
    requires Base(s) && Enabled(s, e) && e.AdoptIngest?
    ensures Base(Do(s, e))
  {
    var a := s.apply;
    if a.flac.None? || a.flac.value == a.rowKey {
    } else if CanAdopt(s, a.job, a.flac.value) {
      AdoptedKeeps(s, a.job, a.flac.value);
    } else {
      EndJobKeeps(s, a.job, Failed);
    }
  }

  /** The ingest transaction found the row: it takes the FLAC's key. */
  lemma RekeyKeeps(s: State, j: nat, id: Id, key: Key)
    requires Base(s) && s.apply == IngestReady(j, id, Some(key)) && Found(s, j, id)
    ensures Base(s.(rows := s.rows[id := s.rows[id].(key := key)], apply := Idle))
  {
  }

  lemma AppliedIngestKeeps(s: State, e: Event)
    requires Base(s) && Enabled(s, e) && e.CommitIngest?
    requires Found(s, s.apply.job, s.apply.id) && IsDone(s, s.apply.job)
    ensures Base(Do(s, e))
  {
    var a := s.apply;
    if a.flac.Some? {
      RekeyKeeps(s, a.job, a.id, a.flac.value);
      EndJobKeeps(s.(rows := s.rows[a.id := s.rows[a.id].(key := a.flac.value)], apply := Idle), a.job, Applied);
    } else {
      EndJobKeeps(s, a.job, Applied);
      assert s.rows[a.id := s.rows[a.id].(key := s.rows[a.id].key)] == s.rows;
    }
  }

  lemma CommitIngestKeeps(s: State, e: Event)
    requires Base(s) && Enabled(s, e) && e.CommitIngest?
    ensures Base(Do(s, e))
  {
    var a := s.apply;
    if !Found(s, a.job, a.id) {
      EndJobKeeps(s, a.job, Cancelled);
    } else if IsDone(s, a.job) {
      AppliedIngestKeeps(s, e);
    }
  }

  lemma ReadMergeKeeps(s: State, e: Event)
    requires Base(s) && Enabled(s, e) && e.ReadMerge?
    ensures Base(Do(s, e))
  {
  }

  lemma AdoptMergeKeeps(s: State, e: Event)
    requires Base(s) && Enabled(s, e) && e.AdoptMerge?
    ensures Base(Do(s, e))
  {
    var a := s.apply;
    if !a.same {
    } else if CanAdopt(s, a.job, a.key) {
      AdoptedKeeps(s, a.job, a.key);
    } else {
      EndJobKeeps(s, a.job, Failed);
    }
  }

  /** The merge transaction found its inputs: the merged row takes their place. */
  lemma SwapKeeps(s: State, j: nat, key: Key, copied: bool, inputs: set<Id>, ordinal: nat, recording: Option<nat>)
    requires Base(s) && s.apply == MergeReady(j, key, copied) && IsDone(s, j)
    ensures Base(EndJob(s, j, Applied).(
                   rows := (s.rows - inputs)[Merged(j) := Row(s.jobs[j].session, ordinal, recording, key)],
                   apply := Idle))
  {
    EndJobKeeps(s, j, Applied);
  }

  lemma AppliedMergeKeeps(s: State, e: Event)
    requires Base(s) && Enabled(s, e) && Swaps(s, e)
    ensures Base(Do(s, e))
  {
    var a := s.apply;
    var job := s.jobs[a.job];
    SwapKeeps(s, a.job, a.key, a.copied, RecordingIds(s.rows, job.session, job.work.recording), e.ordinal,
              Some(job.work.recording));
  }

  /** The copy of a merge whose job just ended is dead. */
  lemma EndedMergeKeeps(s: State, status: Status)
    requires Base(s) && s.apply.MergeReady? && status in {Cancelled, Failed} && LiveIn(s.jobs, s.apply.job)
    ensures Base(EndJob(s, s.apply.job, status).(apply := Trashing(if s.apply.copied then {s.apply.key} else {})))
  {
    EndJobKeeps(s, s.apply.job, status);
  }

  lemma CommitMergeKeeps(s: State, e: Event)
    requires Base(s) && Enabled(s, e) && e.CommitMerge?
    ensures Base(Do(s, e))
  {
    var a := s.apply;
    if e.lease {
    } else if !InputsMatch(s, a.job) {
      if Live(s, a.job) { EndedMergeKeeps(s, Cancelled); }
    } else if !IsDone(s, a.job) {
    } else if !e.windows {
      EndedMergeKeeps(s, Failed);
    } else {
      AppliedMergeKeeps(s, e);
    }
  }

  lemma BlobGoesKeeps(s: State, e: Event)
    requires Base(s) && Enabled(s, e) && (e.TrashOne? || e.SweepLook?)
    ensures Base(Do(s, e))
  {
  }

  lemma SweepReadKeeps(s: State, e: Event)
    requires Base(s) && Enabled(s, e)
    requires e.SweepBegin? || e.SweepPending? || e.SweepList? || e.SweepSession?
    ensures Base(Do(s, e))
  {
  }

  predicate OfApply(e: Event) {
    match e
    case ReadIngest(_) => true
    case AdoptIngest => true
    case CommitIngest => true
    case ReadMerge(_, _) => true
    case AdoptMerge => true
    case CommitMerge(_, _, _) => true
    case _ => false
  }

  lemma ApplyStepKeeps(s: State, e: Event)
    requires Base(s) && Enabled(s, e) && OfApply(e)
    ensures Base(Do(s, e))
  {
    if e.ReadIngest? { ReadIngestKeeps(s, e); }
    else if e.AdoptIngest? { AdoptIngestKeeps(s, e); }
    else if e.CommitIngest? { CommitIngestKeeps(s, e); }
    else if e.ReadMerge? { ReadMergeKeeps(s, e); }
    else if e.AdoptMerge? { AdoptMergeKeeps(s, e); }
    else { CommitMergeKeeps(s, e); }
  }

  /** Every step keeps it. */
  lemma BaseKeeps(s: State, e: Event)
    requires Base(s) && Enabled(s, e)
    ensures Base(Do(s, e))
  {
    if OfApply(e) { ApplyStepKeeps(s, e); }
    else if e.WriteBlob? { WriteBlobKeeps(s, e); }
    else if e.InsertRow? || e.AbandonUpload? || e.DeleteRow? { UploadEndKeeps(s, e); }
    else if e.Enqueue? { EnqueueKeeps(s, e); }
    else if e.WorkerDone? { WorkerDoneKeeps(s, e); }
    else if e.JobEnds? || e.PruneJob? { JobGoneKeeps(s, e); }
    else if e.TrashOne? || e.SweepLook? { BlobGoesKeeps(s, e); }
    else if e.SweepBegin? || e.SweepPending? || e.SweepList? || e.SweepSession? { SweepReadKeeps(s, e); }
    else { ClockKeeps(s, e); }
  }

  lemma {:induction false} BaseKeepsRun(s: State, run: seq<Event>)
    requires Base(s) && Legal(s, run)
    ensures Base(Final(s, run))
    decreases |run|
  {
    if run != [] {
      BaseKeeps(s, run[0]);
      BaseKeepsRun(Do(s, run[0]), run[1..]);
    }
  }
}
