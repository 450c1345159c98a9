/**
 * Applying media results (server/src/mediaApply.ts) beside uploads, deletions, crashes and the boot
 * sweep (server/src/startupPurge.ts), as one state machine whose steps end where the code awaits.
 *
 * Rows, blobs and jobs are durable; the apply in flight, the sweep and the running uploads are not.
 * A blob is its key and its modification time. Merged ids come from their job's id, upload ids are
 * fresh, so the two never meet (UUID versions 5 and 4).
 */
module MediaApply {
  import opened Wrappers

  datatype Id = Upload(n: nat) | Merged(job: nat)

  datatype Key = Key(session: string, ordinal: nat, id: Id, ext: string)

  datatype Row = Row(session: string, ordinal: nat, recording: Option<nat>, key: Key)

  datatype Status = Queued | Running | Done | Applied | Cancelled | Failed

  datatype Work = Ingest(target: Id) | Merge(recording: nat)

  datatype Result = IngestResult(flac: bool) | MergeResult(inputs: set<Id>, ext: string)

  datatype Job = Job(session: string, work: Work, status: Status, result: Option<Result>)

  /** The one apply in flight. */
  datatype Apply =
    | Idle
    | IngestRead(job: nat, id: Id, rowKey: Key, flac: Option<Key>)
    | IngestReady(job: nat, id: Id, flac: Option<Key>)
    | MergeRead(job: nat, key: Key, same: bool)
    | MergeReady(job: nat, key: Key, copied: bool)
    | Trashing(keys: set<Key>)

  /** The orphan sweep: when it began, the merges it saw pending, what it listed, and for the session
    * at hand the keys its rows named and the keys still to look at. */
  datatype Sweep =
    | NoSweep
    | Begun(began: nat)
    | Listing(began: nat, pending: set<nat>, listed: set<Key>)
    | Sweeping(began: nat, pending: set<nat>, listed: set<Key>,
               session: string, named: set<Key>, left: set<Key>)

  datatype State = State(
    rows: map<Id, Row>, blobs: map<Key, nat>, jobs: map<nat, Job>, dirs: set<nat>,
    uploads: map<Id, Key>, nextUpload: nat, nextJob: nat, now: nat,
    apply: Apply, sweep: Sweep)

  const MIN_AGE: nat := 60 * 60_000

  datatype Event =
    | Tick(ms: nat)
    | Crash
    | WriteBlob(session: string, ordinal: nat, ext: string)
    | InsertRow(id: Id, ordinal: nat, recording: Option<nat>)
    | AbandonUpload(id: Id)
    | DeleteRow(id: Id)
    | Enqueue(session: string, work: Work)
    | WorkerDone(job: nat, result: Option<Result>)
    | JobEnds(job: nat, status: Status)
    | PruneJob(job: nat)
    | DropDir(job: nat)
    | ReadIngest(job: nat)
    | AdoptIngest
    | CommitIngest
    | ReadMerge(job: nat, first: Option<Id>)
    | AdoptMerge
    | CommitMerge(lease: bool, windows: bool, ordinal: nat)
    | TrashOne(key: Key, moved: bool)
    | ApplyThrows
    | SweepBegin
    | SweepPending
    | SweepList(page: set<Key>)
    | SweepSession(session: string)
    | SweepLook(key: Key)
    | SweepEnd

  // ---------- what the steps read ----------

  predicate Live(s: State, j: nat) {
    j in s.jobs && s.jobs[j].status in {Queued, Running, Done}
  }

  predicate IsDone(s: State, j: nat) {
    j in s.jobs && s.jobs[j].status == Done
  }

  /** The segments of one recording of one session. */
  function RecordingIds(rows: map<Id, Row>, session: string, recording: nat): set<Id> {
    set id | id in rows && rows[id].session == session && rows[id].recording == Some(recording)
  }

  function KeysOf(rows: map<Id, Row>, ids: set<Id>): set<Key>
    requires ids <= rows.Keys
  {
    set id | id in ids :: rows[id].key
  }

  /** The keys one session's rows name. */
  function SessionKeys(rows: map<Id, Row>, session: string): set<Key> {
    set id | id in rows && rows[id].session == session :: rows[id].key
  }

  function LiveMerges(s: State): set<nat> {
    set j | j in s.jobs && s.jobs[j].work.Merge? && Live(s, j)
  }

  /** The hub's transaction finds the ingest job's segment. */
  predicate Found(s: State, j: nat, id: Id) {
    j in s.jobs && id in s.rows && s.rows[id].session == s.jobs[j].session
  }

  /** The hub's transaction finds exactly the merge job's inputs. */
  predicate InputsMatch(s: State, j: nat) {
    && j in s.jobs && s.jobs[j].work.Merge?
    && s.jobs[j].result.Some? && s.jobs[j].result.value.MergeResult?
    && RecordingIds(s.rows, s.jobs[j].session, s.jobs[j].work.recording) == s.jobs[j].result.value.inputs
  }

  // ---------- the steps ----------

  /** A copy under `key` unless one is there, and whether there is a copy afterwards; the worker's
    * file is needed only when there is none, and is removed. */
  predicate CanAdopt(s: State, j: nat, key: Key) {
    key in s.blobs || j in s.dirs
  }

  function Adopted(s: State, j: nat, key: Key): State {
    s.(blobs := if key in s.blobs then s.blobs else s.blobs[key := s.now], dirs := s.dirs - {j})
  }

  function EndJob(s: State, j: nat, status: Status): State
    requires j in s.jobs
  {
    s.(jobs := s.jobs[j := s.jobs[j].(status := status)])
  }

  function DoReadIngest(s: State, j: nat): State
    requires j in s.jobs && s.jobs[j].work.Ingest?
    requires s.jobs[j].result.Some? && s.jobs[j].result.value.IngestResult?
    requires Found(s, j, s.jobs[j].work.target)
  {
    var id := s.jobs[j].work.target;
    var row := s.rows[id];
    s.(apply := IngestRead(j, id, row.key,
                           if s.jobs[j].result.value.flac
                           then Some(Key(s.jobs[j].session, row.ordinal, id, "flac"))
                           else None))
  }

  /** A row that names the FLAC already needs no copy; a copy that cannot be made fails the job. */
  function DoAdoptIngest(s: State): State
    requires s.apply.IngestRead? && s.apply.job in s.jobs
  {
    var a := s.apply;
    if a.flac.None? || a.flac.value == a.rowKey then s.(apply := IngestReady(a.job, a.id, a.flac))
    else if CanAdopt(s, a.job, a.flac.value) then
      Adopted(s, a.job, a.flac.value).(apply := IngestReady(a.job, a.id, a.flac))
    else if IsDone(s, a.job) then EndJob(s, a.job, Failed).(apply := Idle)
    else s.(apply := Idle)
  }

  /** One transaction: the row is gone and the job is cancelled, or the row takes the FLAC's key and
    * the job is applied, or the job is no longer live and nothing happens. What the transaction left
    * without a row goes to the trash afterwards. */
  function DoCommitIngest(s: State): State
    requires s.apply.IngestReady? && s.apply.job in s.jobs
  {
    var a := s.apply;
    if !Found(s, a.job, a.id) then
      if Live(s, a.job) then
        EndJob(s, a.job, Cancelled).(apply := Trashing(if a.flac.Some? then {a.flac.value} else {}))
      else s.(apply := Idle)
    else if !IsDone(s, a.job) then s.(apply := Idle)
    else
      var was := s.rows[a.id].key;
      var key := if a.flac.Some? then a.flac.value else was;
      EndJob(s, a.job, Applied).(
        rows := s.rows[a.id := s.rows[a.id].(key := key)],
        apply := Trashing(if was == key then {} else {was}))
  }

  /** The copy's key uses the first segment's ordinal, 1 when there is none. */
  function DoReadMerge(s: State, j: nat, first: Option<Id>): State
    requires j in s.jobs && s.jobs[j].result.Some? && s.jobs[j].result.value.MergeResult?
    requires first.Some? ==> first.value in s.rows
  {
    var ordinal := if first.Some? then s.rows[first.value].ordinal else 1;
    s.(apply := MergeRead(j, Key(s.jobs[j].session, ordinal, Merged(j), s.jobs[j].result.value.ext),
                          InputsMatch(s, j)))
  }

  /** Only when the read saw exactly the inputs is the result copied. */
  function DoAdoptMerge(s: State): State
    requires s.apply.MergeRead? && s.apply.job in s.jobs
  {
    var a := s.apply;
    if !a.same then s.(apply := MergeReady(a.job, a.key, false))
    else if CanAdopt(s, a.job, a.key) then Adopted(s, a.job, a.key).(apply := MergeReady(a.job, a.key, true))
    else if IsDone(s, a.job) then EndJob(s, a.job, Failed).(apply := Idle)
    else s.(apply := Idle)
  }

  /** One transaction, which looks at the recording's segments again: a held run lease defers it;
    * other segments cancel the job; windows that do not match fail it; else the merged row takes the
    * inputs' place, with the ordinal of the first of them. A job that is no longer live (or done) leaves
    * everything as it was. */
  function DoCommitMerge(s: State, lease: bool, windows: bool, ordinal: nat): State
    requires s.apply.MergeReady? && s.apply.job in s.jobs && s.jobs[s.apply.job].work.Merge?
    requires s.jobs[s.apply.job].result.Some? && s.jobs[s.apply.job].result.value.MergeResult?
  {
    var a := s.apply;
    var copy := if a.copied then {a.key} else {};
    if lease then s.(apply := Idle)
    else if !InputsMatch(s, a.job) then
      if Live(s, a.job) then EndJob(s, a.job, Cancelled).(apply := Trashing(copy)) else s.(apply := Idle)
    else if !IsDone(s, a.job) then s.(apply := Idle)
    else if !windows then EndJob(s, a.job, Failed).(apply := Trashing(copy))
    else
      var job := s.jobs[a.job];
      var inputs := RecordingIds(s.rows, job.session, job.work.recording);
      EndJob(s, a.job, Applied).(
        rows := (s.rows - inputs)[Merged(a.job) := Row(job.session, ordinal, Some(job.work.recording), a.key)],
        apply := Trashing(KeysOf(s.rows, inputs)))
  }

  /** What the sweep moves: a key the session's rows did not name, not the copy of a merge that was
    * pending, and older than an hour when the sweep began. */
  predicate Moves(s: State, key: Key) {
    && s.sweep.Sweeping?
    && key !in s.sweep.named
    && !(key.id.Merged? && key.id.job in s.sweep.pending)
    && Old(s.blobs, s.sweep.began, key)
  }

  predicate Old(blobs: map<Key, nat>, began: nat, key: Key) {
    key in blobs && began - blobs[key] >= MIN_AGE
  }

  function DoSweepLook(s: State, key: Key): State
    requires s.sweep.Sweeping?
  {
    s.(blobs := if Moves(s, key) then s.blobs - {key} else s.blobs,
       sweep := s.sweep.(left := s.sweep.left - {key}))
  }

  // ---------- runs ----------

  /** When an event can happen. */
  predicate Enabled(s: State, e: Event) {
    match e
    case Tick(_) => true
    case Crash => true
    case WriteBlob(_, _, _) => true
    case InsertRow(id, _, _) => id in s.uploads
    case AbandonUpload(id) => id in s.uploads
    case DeleteRow(id) => id in s.rows
    case Enqueue(_, _) => true
    case WorkerDone(j, _) => j in s.jobs && s.jobs[j].status in {Queued, Running}
    case JobEnds(j, status) => Live(s, j) && status in {Cancelled, Failed}
    case PruneJob(j) => j in s.jobs && !Live(s, j) && !Busy(s.apply, j)
    case DropDir(j) => !IsDone(s, j)
    case ReadIngest(j) =>
      && s.apply.Idle? && j in s.jobs && s.jobs[j].work.Ingest?
      && s.jobs[j].result.Some? && s.jobs[j].result.value.IngestResult?
      && Found(s, j, s.jobs[j].work.target)
    case AdoptIngest => s.apply.IngestRead? && s.apply.job in s.jobs
    case CommitIngest => s.apply.IngestReady? && s.apply.job in s.jobs
    case ReadMerge(j, first) =>
      && s.apply.Idle? && j in s.jobs && s.jobs[j].work.Merge?
      && s.jobs[j].result.Some? && s.jobs[j].result.value.MergeResult?
      && var ids := RecordingIds(s.rows, s.jobs[j].session, s.jobs[j].work.recording);
      if ids == {} then first == None else first.Some? && first.value in ids
    case AdoptMerge => s.apply.MergeRead? && s.apply.job in s.jobs
    case CommitMerge(_, _, _) =>
      && s.apply.MergeReady? && s.apply.job in s.jobs && s.jobs[s.apply.job].work.Merge?
      && s.jobs[s.apply.job].result.Some? && s.jobs[s.apply.job].result.value.MergeResult?
    case TrashOne(key, _) => s.apply.Trashing? && (key in s.apply.keys || s.apply.keys == {})
    case ApplyThrows => !s.apply.Idle?
    case SweepBegin => s.sweep.NoSweep?
    case SweepPending => s.sweep.Begun?
    case SweepList(page) => s.sweep.Listing? && page <= s.blobs.Keys
    case SweepSession(_) => s.sweep.Listing? || s.sweep.Sweeping?
    case SweepLook(key) => s.sweep.Sweeping? && key in s.sweep.left
    case SweepEnd => !s.sweep.NoSweep?
  }

  predicate Busy(a: Apply, j: nat) {
    match a
    case IngestRead(job, _, _, _) => job == j
    case IngestReady(job, _, _) => job == j
    case MergeRead(job, _, _) => job == j
    case MergeReady(job, _, _) => job == j
    case _ => false
  }

  function Do(s: State, e: Event): State
    requires Enabled(s, e)
  {
    match e
    case Tick(ms) => s.(now := s.now + ms)
    case Crash => s.(apply := Idle, sweep := NoSweep, uploads := map[])
    case WriteBlob(session, ordinal, ext) =>
      var id := Upload(s.nextUpload);
      var key := Key(session, ordinal, id, ext);
      s.(blobs := s.blobs[key := s.now], uploads := s.uploads[id := key], nextUpload := s.nextUpload + 1)
    case InsertRow(id, ordinal, recording) =>
      s.(rows := s.rows[id := Row(s.uploads[id].session, ordinal, recording, s.uploads[id])],
         uploads := s.uploads - {id})
    case AbandonUpload(id) => s.(uploads := s.uploads - {id})
    case DeleteRow(id) => s.(rows := s.rows - {id})
    case Enqueue(session, work) =>
      s.(jobs := s.jobs[s.nextJob := Job(session, work, Queued, None)], nextJob := s.nextJob + 1)
    case WorkerDone(j, result) =>
      s.(jobs := s.jobs[j := s.jobs[j].(status := Done, result := result)], dirs := s.dirs + {j})
    case JobEnds(j, status) => EndJob(s, j, status)
    case PruneJob(j) => s.(jobs := s.jobs - {j})
    case DropDir(j) => s.(dirs := s.dirs - {j})
    case ReadIngest(j) => DoReadIngest(s, j)
    case AdoptIngest => DoAdoptIngest(s)
    case CommitIngest => DoCommitIngest(s)
    case ReadMerge(j, first) => DoReadMerge(s, j, first)
    case AdoptMerge => DoAdoptMerge(s)
    case CommitMerge(lease, windows, ordinal) => DoCommitMerge(s, lease, windows, ordinal)
    case TrashOne(key, moved) =>
      s.(blobs := if moved then s.blobs - (s.apply.keys * {key}) else s.blobs,
         apply := if s.apply.keys - {key} == {} then Idle else Trashing(s.apply.keys - {key}))
    case ApplyThrows => s.(apply := Idle)
    case SweepBegin => s.(sweep := Begun(s.now))
    case SweepPending => s.(sweep := Listing(s.sweep.began, LiveMerges(s), {}))
    case SweepList(page) => s.(sweep := Listing(s.sweep.began, s.sweep.pending, s.sweep.listed + page))
    case SweepSession(session) =>
      s.(sweep := Sweeping(s.sweep.began, s.sweep.pending, s.sweep.listed, session,
                           SessionKeys(s.rows, session),
                           set k | k in s.sweep.listed && k.session == session))
    case SweepLook(key) => DoSweepLook(s, key)
    case SweepEnd => s.(sweep := NoSweep)
  }

  predicate Goes(s: State, e: Event, t: State) {
    Enabled(s, e) && t == Do(s, e)
  }

  /** `run` is a run of the machine from `s`. */
  predicate Legal(s: State, run: seq<Event>)
    decreases |run|
  {
    run == [] || (Enabled(s, run[0]) && Legal(Do(s, run[0]), run[1..]))
  }

  function Final(s: State, run: seq<Event>): State
    requires Legal(s, run)
    decreases |run|
  {
    if run == [] then s else Final(Do(s, run[0]), run[1..])
  }

  /** Nothing in flight, nothing stored. */
  const START := State(map[], map[], map[], {}, map[], 0, 0, 0, Idle, NoSweep)

  /** What the whole design is for: every segment row names a blob that is there. */
  predicate RowsHaveBlobs(s: State) {
    forall id <- s.rows :: s.rows[id].key in s.blobs
  }

  // ---------- what goes wrong, and when it does not ----------

  /** The merge transaction puts the merged row in its inputs' place. */
  predicate Swaps(s: State, e: Event) {
    && e.CommitMerge? && s.apply.MergeReady?
    && !e.lease && e.windows && InputsMatch(s, s.apply.job) && IsDone(s, s.apply.job)
  }

  /** A merge whose read saw other segments was not copied, yet its transaction may find the inputs. */
  predicate UncopiedSwap(s: State, e: Event) {
    Swaps(s, e) && !s.apply.copied
  }

  /** A blob about to be named is already an hour old under a running sweep. */
  predicate Overtaken(s: State) {
    && !s.sweep.NoSweep?
    && ((s.apply.IngestReady? && s.apply.flac.Some? && s.apply.id in s.rows
         && s.rows[s.apply.id].key != s.apply.flac.value
         && Old(s.blobs, s.sweep.began, s.apply.flac.value))
        || exists id <- s.uploads :: Old(s.blobs, s.sweep.began, s.uploads[id]))
  }

  predicate NeverUncopied(s: State, run: seq<Event>)
    requires Legal(s, run)
    decreases |run|
  {
    run != [] ==> !UncopiedSwap(s, run[0]) && NeverUncopied(Do(s, run[0]), run[1..])
  }

  predicate NeverOvertaken(s: State, run: seq<Event>)
    requires Legal(s, run)
    decreases |run|
  {
    !Overtaken(s) && (run != [] ==> NeverOvertaken(Do(s, run[0]), run[1..]))
  }
}
