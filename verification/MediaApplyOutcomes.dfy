/**
 * What the media apply is for, told on the rows, blobs and jobs alone: where a finished ingest or merge
 * leaves them, how each unfinished one ends, and which blobs an undisturbed sweep moves.
 */
module MediaApplyOutcomes {
  import opened MediaApply
  import opened Wrappers

  // ---------- the trash ----------

  predicate Moving(run: seq<Event>) { forall i :: 0 <= i < |run| ==> run[i].TrashOne? && run[i].moved }

  /** Moving the keys to the trash one by one, the apply ends and exactly their blobs are gone. */
  lemma {:induction false} TrashEmpties(s: State) returns (run: seq<Event>)
    requires s.apply.Trashing?
    ensures Moving(run) && Legal(s, run)
    ensures Final(s, run) == s.(blobs := s.blobs - s.apply.keys, apply := Idle)
    decreases |s.apply.keys|
  {
    var key := if s.apply.keys == {} then Key("", 0, Upload(0), "") else AnyOf(s.apply.keys);
    var e := TrashOne(key, true);
    var t := Do(s, e);
    OneTrashed(s, key);
    if t.apply.Idle? {
      run := [e];
    } else {
      run := TrashEmpties(t);
      assert s.blobs - {key} - t.apply.keys == s.blobs - s.apply.keys;
      Prepend(s, e, run);
      run := [e] + run;
    }
  }

  ghost function AnyOf(keys: set<Key>): (key: Key)
    requires keys != {}
    ensures key in keys
  {
    var key :| key in keys;
    key
  }

  lemma OneTrashed(s: State, key: Key)
    requires s.apply.Trashing? && (key in s.apply.keys || s.apply.keys == {})
    ensures var t := Do(s, TrashOne(key, true));
      if s.apply.keys <= {key} then t == s.(blobs := s.blobs - s.apply.keys, apply := Idle)
      else t == s.(blobs := s.blobs - {key}, apply := Trashing(s.apply.keys - {key})) && |t.apply.keys| < |s.apply.keys|
  {
    assert s.apply.keys <= {key} <==> s.apply.keys - {key} == {};
    if key in s.apply.keys {
      assert s.apply.keys * {key} == {key};
      assert s.apply.keys <= {key} ==> s.apply.keys == {key};
    } else {
      assert s.apply.keys * {key} == {};
    }
  }

  lemma Prepend(s: State, e: Event, run: seq<Event>)
    requires Enabled(s, e) && Legal(Do(s, e), run)
    ensures Legal(s, [e] + run) && Final(s, [e] + run) == Final(Do(s, e), run)
  {
    assert ([e] + run)[1..] == run;
  }

  lemma OneStep(s: State, e: Event)
    requires Enabled(s, e)
    ensures Legal(s, [e]) && Final(s, [e]) == Do(s, e)
  {
    assert [e][1..] == [];
  }

  lemma TwoSteps(s: State, a: Event, b: Event)
    requires Enabled(s, a) && Enabled(Do(s, a), b)
    ensures Legal(s, [a, b]) && Final(s, [a, b]) == Do(Do(s, a), b)
  {
    OneStep(Do(s, a), b);
    Prepend(s, a, [b]);
    assert [a] + [b] == [a, b];
  }

  // ---------- a merge ----------

  ghost predicate Segments(rows: map<Id, Row>, session: string, recording: nat, ids: set<Id>) {
    forall id :: id in ids <==> id in rows && rows[id].session == session && rows[id].recording == Some(recording)
  }

  ghost predicate KeysNamed(rows: map<Id, Row>, ids: set<Id>, keys: set<Key>) {
    forall k :: k in keys <==> exists id :: id in ids && id in rows && rows[id].key == k
  }

  /** A merge whose result is in and whose inputs are the recording's segments as they stand. */
  ghost predicate MergeIsDue(s: State, j: nat, session: string, recording: nat, inputs: set<Id>, ext: string) {
    && j in s.jobs && s.jobs[j] == Job(session, Merge(recording), Done, Some(MergeResult(inputs, ext)))
    && Segments(s.rows, session, recording, inputs)
  }

  lemma SegmentsAre(rows: map<Id, Row>, session: string, recording: nat, ids: set<Id>)
    requires Segments(rows, session, recording, ids)
    ensures RecordingIds(rows, session, recording) == ids
  {
  }

  lemma MergeIsRead(s: State, j: nat, session: string, recording: nat, inputs: set<Id>, ext: string, first: Id)
    requires s.apply.Idle? && MergeIsDue(s, j, session, recording, inputs, ext) && first in inputs
    ensures Enabled(s, ReadMerge(j, Some(first)))
    ensures Do(s, ReadMerge(j, Some(first)))
         == s.(apply := MergeRead(j, Key(session, s.rows[first].ordinal, Merged(j), ext), true))
  {
    SegmentsAre(s.rows, session, recording, inputs);
  }

  lemma MergeIsCopied(s: State, j: nat, key: Key)
    requires s.apply == MergeRead(j, key, true) && j in s.jobs && (key in s.blobs || j in s.dirs)
    ensures Do(s, AdoptMerge)
         == s.(blobs := if key in s.blobs then s.blobs else s.blobs[key := s.now], dirs := s.dirs - {j},
               apply := MergeReady(j, key, true))
  {
  }

  /** The merged row stands in the inputs' place, the job is applied, and the inputs' keys go to the trash. */
  lemma MergeIsSwapped(s: State, j: nat, session: string, recording: nat, inputs: set<Id>, ext: string, key: Key,
                       copied: bool, ordinal: nat)
    requires MergeIsDue(s, j, session, recording, inputs, ext) && s.apply == MergeReady(j, key, copied)
    ensures var t := Do(s, CommitMerge(false, true, ordinal));
      && t == s.(rows := t.rows, jobs := s.jobs[j := s.jobs[j].(status := Applied)], apply := t.apply)
      && (forall id :: id in t.rows <==> id == Merged(j) || (id in s.rows && id !in inputs))
      && t.rows[Merged(j)] == Row(session, ordinal, Some(recording), key)
      && (forall id :: id in t.rows && id != Merged(j) ==> t.rows[id] == s.rows[id])
      && t.apply.Trashing? && KeysNamed(s.rows, inputs, t.apply.keys)
  {
    SegmentsAre(s.rows, session, recording, inputs);
    var t := Do(s, CommitMerge(false, true, ordinal));
    assert t.apply == Trashing(KeysOf(s.rows, inputs));
  }

  /** Where a finished merge leaves the rows, blobs and jobs. */
  ghost predicate MergeFinished(s: State, t: State, j: nat, session: string, recording: nat, inputs: set<Id>,
                                key: Key, ordinal: nat)
  {
    && t.apply.Idle? && j in s.jobs
    && t.jobs == s.jobs[j := s.jobs[j].(status := Applied)]
    && (forall id :: id in t.rows <==> id == Merged(j) || (id in s.rows && id !in inputs))
    && t.rows[Merged(j)] == Row(session, ordinal, Some(recording), key)
    && (forall id :: id in t.rows && id != Merged(j) ==> t.rows[id] == s.rows[id])
    && (forall k :: k in t.blobs <==>
          (k in s.blobs || k == key) && !(exists id :: id in inputs && id in s.rows && s.rows[id].key == k))
    && (forall k :: k in t.blobs && k in s.blobs ==> t.blobs[k] == s.blobs[k])
  }

  lemma FinishedBlobs(s: State, u: State, t: State, key: Key, keys: set<Key>, inputs: set<Id>)
    requires u.blobs == (if key in s.blobs then s.blobs else s.blobs[key := s.now])
    requires KeysNamed(s.rows, inputs, keys) && t.blobs == u.blobs - keys
    ensures forall k :: k in t.blobs <==>
              (k in s.blobs || k == key) && !(exists id :: id in inputs && id in s.rows && s.rows[id].key == k)
    ensures forall k :: k in t.blobs && k in s.blobs ==> t.blobs[k] == s.blobs[k]
  {
  }

  /** A merge that is due, with its file or its copy there, finishes when nothing comes between: one row
    * in its inputs' place, with the first input's ordinal in its key, the copy under that key, the job
    * applied, and no other blob gone than those that the inputs named. */
  lemma MergeFinishes(s: State, j: nat, session: string, recording: nat, inputs: set<Id>, ext: string, first: Id,
                      ordinal: nat)
    returns (run: seq<Event>)
    requires s.apply.Idle? && MergeIsDue(s, j, session, recording, inputs, ext) && first in inputs
    requires j in s.dirs || Key(session, s.rows[first].ordinal, Merged(j), ext) in s.blobs
    ensures |run| >= 3 && run[..3] == [ReadMerge(j, Some(first)), AdoptMerge, CommitMerge(false, true, ordinal)]
    ensures Moving(run[3..]) && Legal(s, run)
    ensures MergeFinished(s, Final(s, run), j, session, recording, inputs,
                          Key(session, s.rows[first].ordinal, Merged(j), ext), ordinal)
  {
    var key := Key(session, s.rows[first].ordinal, Merged(j), ext);
    var read, commit := ReadMerge(j, Some(first)), CommitMerge(false, true, ordinal);
    MergeIsRead(s, j, session, recording, inputs, ext, first);
    var s1 := Do(s, read);
    MergeIsCopied(s1, j, key);
    var s2 := Do(s1, AdoptMerge);
    MergeIsSwapped(s2, j, session, recording, inputs, ext, key, true, ordinal);
    var s3 := Do(s2, commit);
    run := TrashEmpties(s3);
    var t := Final(s3, run);
    FinishedBlobs(s, s2, t, key, s3.apply.keys, inputs);
    Prepend(s2, commit, run);
    Prepend(s1, AdoptMerge, [commit] + run);
    Prepend(s, read, [AdoptMerge] + ([commit] + run));
    var all := [read] + ([AdoptMerge] + ([commit] + run));
    assert all[..3] == [read, AdoptMerge, commit] && all[3..] == run;
    run := all;
  }

  // ---------- an ingest ----------

  ghost predicate IngestIsDue(s: State, j: nat, session: string, id: Id, flac: bool) {
    && j in s.jobs && s.jobs[j] == Job(session, Ingest(id), Done, Some(IngestResult(flac)))
    && id in s.rows && s.rows[id].session == session
  }

  lemma IngestIsRead(s: State, j: nat, session: string, id: Id, flac: bool)
    requires s.apply.Idle? && IngestIsDue(s, j, session, id, flac)
    ensures Enabled(s, ReadIngest(j))
    ensures Do(s, ReadIngest(j))
         == s.(apply := IngestRead(j, id, s.rows[id].key,
                                   if flac then Some(Key(session, s.rows[id].ordinal, id, "flac")) else None))
  {
  }

  lemma IngestIsCopied(s: State, j: nat, id: Id, was: Key, key: Key)
    requires s.apply == IngestRead(j, id, was, Some(key)) && key != was
    requires j in s.jobs && (key in s.blobs || j in s.dirs)
    ensures Do(s, AdoptIngest)
         == s.(blobs := if key in s.blobs then s.blobs else s.blobs[key := s.now], dirs := s.dirs - {j},
               apply := IngestReady(j, id, Some(key)))
  {
  }

  lemma IngestIsNamed(s: State, j: nat, session: string, id: Id, key: Key)
    requires IngestIsDue(s, j, session, id, true) && s.apply == IngestReady(j, id, Some(key)) && s.rows[id].key != key
    ensures Do(s, CommitIngest)
         == s.(rows := s.rows[id := s.rows[id].(key := key)], jobs := s.jobs[j := s.jobs[j].(status := Applied)],
               apply := Trashing({s.rows[id].key}))
  {
  }

  /** An ingest with a FLAC, when nothing comes between: the row names the FLAC under its own session and
    * ordinal, the copy is there, the blob it named before is gone, and the job is applied. */
  lemma IngestFinishes(s: State, j: nat, session: string, id: Id) returns (run: seq<Event>)
    requires s.apply.Idle? && IngestIsDue(s, j, session, id, true)
    requires j in s.dirs || Key(session, s.rows[id].ordinal, id, "flac") in s.blobs
    requires s.rows[id].key != Key(session, s.rows[id].ordinal, id, "flac")
    ensures Legal(s, run)
    ensures var t, key := Final(s, run), Key(session, s.rows[id].ordinal, id, "flac");
      && t.apply.Idle? && t.jobs == s.jobs[j := s.jobs[j].(status := Applied)]
      && t.rows == s.rows[id := s.rows[id].(key := key)]
      && (forall k :: k in t.blobs <==> (k in s.blobs || k == key) && k != s.rows[id].key)
      && (forall k :: k in t.blobs && k in s.blobs ==> t.blobs[k] == s.blobs[k])
  {
    var was, key := s.rows[id].key, Key(session, s.rows[id].ordinal, id, "flac");
    IngestIsRead(s, j, session, id, true);
    var s1 := Do(s, ReadIngest(j));
    IngestIsCopied(s1, j, id, was, key);
    var s2 := Do(s1, AdoptIngest);
    IngestIsNamed(s2, j, session, id, key);
    var s3 := Do(s2, CommitIngest);
    run := TrashEmpties(s3);
    Prepend(s2, CommitIngest, run);
    Prepend(s1, AdoptIngest, [CommitIngest] + run);
    Prepend(s, ReadIngest(j), [AdoptIngest] + ([CommitIngest] + run));
    run := [ReadIngest(j)] + ([AdoptIngest] + ([CommitIngest] + run));
  }

  /** Without a FLAC, or with one that the row names already, nothing is copied, renamed or trashed. */
  lemma IngestWithoutFlac(s: State, j: nat, session: string, id: Id, flac: bool)
    requires s.apply.Idle? && IngestIsDue(s, j, session, id, flac)
    requires flac ==> s.rows[id].key == Key(session, s.rows[id].ordinal, id, "flac")
    ensures var run := [ReadIngest(j), AdoptIngest, CommitIngest];
      Legal(s, run)
      && Final(s, run) == s.(jobs := s.jobs[j := s.jobs[j].(status := Applied)], apply := Trashing({}))
  {
    IngestIsRead(s, j, session, id, flac);
    var s1 := Do(s, ReadIngest(j));
    var s2 := Do(s1, AdoptIngest);
    assert s2 == s.(apply := IngestReady(j, id, s1.apply.flac));
    var s3 := Do(s2, CommitIngest);
    assert s.rows[id := s.rows[id]] == s.rows;
    assert s3 == s.(jobs := s.jobs[j := s.jobs[j].(status := Applied)], apply := Trashing({}));
    assert Legal(s3, []);
    Prepend(s2, CommitIngest, []);
    Prepend(s1, AdoptIngest, [CommitIngest]);
    Prepend(s, ReadIngest(j), [AdoptIngest, CommitIngest]);
    assert [ReadIngest(j)] + [AdoptIngest, CommitIngest] == [ReadIngest(j), AdoptIngest, CommitIngest];
    assert [CommitIngest] + [] == [CommitIngest] && [AdoptIngest] + [CommitIngest] == [AdoptIngest, CommitIngest];
  }

  // ---------- what does not finish ----------

  ghost predicate MergeJob(s: State, j: nat, session: string, recording: nat, inputs: set<Id>, ext: string) {
    && j in s.jobs && s.jobs[j].session == session && s.jobs[j].work == Merge(recording)
    && s.jobs[j].result == Some(MergeResult(inputs, ext))
  }

  /** The result is copied exactly when the recording's segments are the job's inputs as they are read. */
  lemma CopiesExactly(s: State, j: nat, session: string, recording: nat, inputs: set<Id>, ext: string,
                      first: Option<Id>)
    requires MergeJob(s, j, session, recording, inputs, ext) && Enabled(s, ReadMerge(j, first))
    ensures var a := Do(s, ReadMerge(j, first)).apply;
      && a.MergeRead? && a.job == j && (a.same <==> Segments(s.rows, session, recording, inputs))
      && a.key == Key(session, if first.Some? then s.rows[first.value].ordinal else 1, Merged(j), ext)
    ensures first.None? <==> forall id :: id in s.rows ==>
                               !(s.rows[id].session == session && s.rows[id].recording == Some(recording))
  {
    var ids := RecordingIds(s.rows, session, recording);
    assert Segments(s.rows, session, recording, ids);
    if Segments(s.rows, session, recording, inputs) {
      SegmentsAre(s.rows, session, recording, inputs);
    }
    assert first.Some? ==> first.value in ids;
  }

  /** Without a file and without a copy the job fails; a job that is not done stays as it is. */
  lemma NoCopyFails(s: State, j: nat, key: Key)
    requires j in s.jobs && j !in s.dirs && key !in s.blobs
    ensures s.apply == MergeRead(j, key, true) ==> Do(s, AdoptMerge) == Failing(s, j)
    ensures forall id, was :: s.apply == IngestRead(j, id, was, Some(key)) && was != key
                              ==> Do(s, AdoptIngest) == Failing(s, j)
  {
  }

  function Failing(s: State, j: nat): State
    requires j in s.jobs
  {
    if s.jobs[j].status == Done then s.(jobs := s.jobs[j := s.jobs[j].(status := Failed)], apply := Idle)
    else s.(apply := Idle)
  }

  /** An uncopied result goes to its transaction without a copy. */
  lemma OthersAreNotCopied(s: State, j: nat, key: Key)
    requires j in s.jobs && s.apply == MergeRead(j, key, false)
    ensures Do(s, AdoptMerge) == s.(apply := MergeReady(j, key, false))
  {
  }

  function Ended(s: State, j: nat, status: Status, trash: set<Key>): State
    requires j in s.jobs
  {
    s.(jobs := s.jobs[j := s.jobs[j].(status := status)], apply := Trashing(trash))
  }

  predicate NotOver(status: Status) { status == Queued || status == Running || status == Done }

  /** How a merge's transaction ends that puts no row in place: the rows and blobs stay, and a copy that was
    * made goes to the trash with a job that is cancelled or failed. */
  lemma MergeEnds(s: State, j: nat, session: string, recording: nat, inputs: set<Id>, ext: string, key: Key,
                  copied: bool, lease: bool, windows: bool, ordinal: nat)
    requires MergeJob(s, j, session, recording, inputs, ext) && s.apply == MergeReady(j, key, copied)
    ensures var t, same, status := Do(s, CommitMerge(lease, windows, ordinal)),
                                   Segments(s.rows, session, recording, inputs), s.jobs[j].status;
      var copy := if copied then {key} else {};
      && (lease ==> t == s.(apply := Idle))
      && (!lease && !same && NotOver(status) ==> t == Ended(s, j, Cancelled, copy))
      && (!lease && !same && !NotOver(status) ==> t == s.(apply := Idle))
      && (!lease && same && status != Done ==> t == s.(apply := Idle))
      && (!lease && same && status == Done && !windows ==> t == Ended(s, j, Failed, copy))
  {
    var ids := RecordingIds(s.rows, session, recording);
    assert Segments(s.rows, session, recording, ids);
    if Segments(s.rows, session, recording, inputs) {
      SegmentsAre(s.rows, session, recording, inputs);
    }
  }

  /** How an ingest's transaction ends that renames no row. */
  lemma IngestEnds(s: State, j: nat, id: Id, flac: Option<Key>)
    requires j in s.jobs && s.apply == IngestReady(j, id, flac)
    ensures var t, found, status := Do(s, CommitIngest), id in s.rows && s.rows[id].session == s.jobs[j].session,
                                    s.jobs[j].status;
      && (!found && NotOver(status) ==> t == Ended(s, j, Cancelled, if flac.Some? then {flac.value} else {}))
      && (!found && !NotOver(status) ==> t == s.(apply := Idle))
      && (found && status != Done ==> t == s.(apply := Idle))
  {
  }

  lemma {:induction false} Append(s: State, a: seq<Event>, b: seq<Event>)
    requires Legal(s, a) && Legal(Final(s, a), b)
    ensures Legal(s, a + b) && Final(s, a + b) == Final(Final(s, a), b)
    decreases |a|
  {
    if a == [] {
      assert a + b == b;
    } else {
      Append(Do(s, a[0]), a[1..], b);
      assert (a + b)[1..] == a[1..] + b;
    }
  }

  // ---------- the sweep ----------

  predicate PendingMerge(s: State, j: nat) { j in s.jobs && s.jobs[j].work.Merge? && NotOver(s.jobs[j].status) }

  predicate Named(s: State, session: string, key: Key) {
    exists id :: id in s.rows && s.rows[id].session == session && s.rows[id].key == key
  }

  /** A blob of the session that none of its rows names, that no pending merge made, and that is an hour old. */
  predicate Orphan(s: State, session: string, key: Key) {
    && key in s.blobs && key.session == session && !Named(s, session, key)
    && !(key.id.Merged? && PendingMerge(s, key.id.job)) && s.now - s.blobs[key] >= 3_600_000
  }

  /** What the sweep's looks are going to move. */
  function ToMove(s: State): set<Key>
    requires s.sweep.Sweeping?
  {
    set k | k in s.sweep.left && Moves(s, k)
  }

  lemma LookMoves(s: State, key: Key)
    requires s.sweep.Sweeping? && key in s.sweep.left
    ensures var t := Do(s, SweepLook(key));
      && t == s.(blobs := s.blobs - (ToMove(s) * {key}), sweep := s.sweep.(left := s.sweep.left - {key}))
      && ToMove(t) == ToMove(s) - {key}
  {
    if Moves(s, key) {
      assert ToMove(s) * {key} == {key};
    } else {
      assert ToMove(s) * {key} == {} && s.blobs - {} == s.blobs;
    }
  }

  lemma MovedFirst(blobs: map<Key, nat>, keys: set<Key>, key: Key)
    ensures blobs - (keys * {key}) - (keys - {key}) == blobs - keys
  {
  }

  /** The looks together move what they are going to, and end with nothing left. */
  lemma {:induction false} LooksMove(s: State) returns (run: seq<Event>)
    requires s.sweep.Sweeping?
    ensures Legal(s, run)
    ensures Final(s, run) == s.(blobs := s.blobs - ToMove(s), sweep := s.sweep.(left := {}))
    decreases |s.sweep.left|
  {
    if s.sweep.left == {} {
      assert ToMove(s) == {} && s.blobs - {} == s.blobs;
      run := [];
    } else {
      var key := AnyOf(s.sweep.left);
      LookMoves(s, key);
      run := LooksMove(Do(s, SweepLook(key)));
      MovedFirst(s.blobs, ToMove(s), key);
      Prepend(s, SweepLook(key), run);
      run := [SweepLook(key)] + run;
    }
  }

  lemma SweepLists(s: State)
    requires s.sweep.NoSweep?
    ensures var run := [SweepBegin, SweepPending];
      Legal(s, run) && Final(s, run) == s.(sweep := Listing(s.now, LiveMerges(s), {}))
  {
    TwoSteps(s, SweepBegin, SweepPending);
    var s1 := s.(sweep := Begun(s.now));
    assert LiveMerges(s1) == LiveMerges(s);
  }

  lemma SweepLooksUp(s: State, session: string)
    requires s.sweep.Listing? && s.sweep.listed == {}
    ensures var run := [SweepList(s.blobs.Keys), SweepSession(session)];
      && Legal(s, run)
      && Final(s, run) == s.(sweep := Sweeping(s.sweep.began, s.sweep.pending, s.blobs.Keys, session,
                                               SessionKeys(s.rows, session), OfSession(s.blobs, session)))
  {
    assert {} + s.blobs.Keys == s.blobs.Keys;
    TwoSteps(s, SweepList(s.blobs.Keys), SweepSession(session));
  }

  /** The sweep when it has read a session. */
  lemma SweepReads(s: State, session: string) returns (run: seq<Event>)
    requires s.sweep.NoSweep?
    ensures Legal(s, run)
    ensures Final(s, run) == s.(sweep := Sweeping(s.now, LiveMerges(s), s.blobs.Keys, session,
                                                  SessionKeys(s.rows, session), OfSession(s.blobs, session)))
  {
    var begin, look := [SweepBegin, SweepPending], [SweepList(s.blobs.Keys), SweepSession(session)];
    SweepLists(s);
    SweepLooksUp(Final(s, begin), session);
    Append(s, begin, look);
    run := begin + look;
  }

  function OfSession(blobs: map<Key, nat>, session: string): set<Key> {
    set k | k in blobs && k.session == session
  }

  lemma OrphansAreMoved(s: State, session: string, t: State, key: Key)
    requires t == s.(sweep := Sweeping(s.now, LiveMerges(s), s.blobs.Keys, session, SessionKeys(s.rows, session),
                                       OfSession(s.blobs, session)))
    ensures key in t.sweep.left && Moves(t, key) <==> Orphan(s, session, key)
  {
    assert Named(s, session, key) <==> key in SessionKeys(s.rows, session);
  }

  /** An undisturbed sweep of a session moves exactly its orphans, and nothing else changes. */
  lemma SweepMovesOrphans(s: State, session: string) returns (run: seq<Event>)
    requires s.sweep.NoSweep?
    ensures Legal(s, run)
    ensures var t := Final(s, run);
      && t == s.(blobs := t.blobs)
      && (forall k :: k in t.blobs <==> k in s.blobs && !Orphan(s, session, k))
      && (forall k :: k in t.blobs ==> t.blobs[k] == s.blobs[k])
  {
    var read := SweepReads(s, session);
    var t := Final(s, read);
    var orphans := ToMove(t);
    forall k ensures k in orphans <==> Orphan(s, session, k) {
      OrphansAreMoved(s, session, t, k);
    }
    var looks := LooksMove(t);
    var u := Final(t, looks);
    assert Legal(u, [SweepEnd]) && Final(u, [SweepEnd]) == s.(blobs := s.blobs - orphans);
    Append(t, looks, [SweepEnd]);
    Append(s, read, looks + [SweepEnd]);
    run := read + (looks + [SweepEnd]);
  }

  /** An upload: its blob lies under a fresh id before the row names it. */
  lemma UploadFinishes(s: State, session: string, ordinal: nat, ext: string, recording: Option<nat>)
    ensures var id, run := Upload(s.nextUpload),
                           [WriteBlob(session, ordinal, ext), InsertRow(Upload(s.nextUpload), ordinal, recording)];
      var key := Key(session, ordinal, id, ext);
      && Legal(s, run)
      && Final(s, run) == s.(rows := s.rows[id := Row(session, ordinal, recording, key)],
                             blobs := s.blobs[key := s.now], uploads := Final(s, run).uploads,
                             nextUpload := s.nextUpload + 1)
      && id !in Final(s, run).uploads
  {
    var id := Upload(s.nextUpload);
    TwoSteps(s, WriteBlob(session, ordinal, ext), InsertRow(id, ordinal, recording));
  }

  // ---------- the steps beside ----------

  /** Giving up an upload, dropping a job's directory, a throw in an apply, a move to the trash that fails,
    * pruning and queueing a job: none touches a row or a blob. */
  lemma BesideSteps(s: State, e: Event)
    requires Enabled(s, e)
    requires e.AbandonUpload? || e.DropDir? || e.ApplyThrows? || e.PruneJob? || e.Enqueue? || (e.TrashOne? && !e.moved)
    ensures Do(s, e).rows == s.rows && Do(s, e).blobs == s.blobs && Do(s, e).sweep == s.sweep
    ensures e.AbandonUpload? ==> Do(s, e).uploads == s.uploads - {e.id} && Do(s, e).apply == s.apply
    ensures e.DropDir? ==> Do(s, e).dirs == s.dirs - {e.job} && Do(s, e).jobs == s.jobs
    ensures e.ApplyThrows? ==> Do(s, e).apply == Idle && Do(s, e).jobs == s.jobs
    ensures e.PruneJob? ==> Do(s, e).jobs == s.jobs - {e.job} && Do(s, e).apply == s.apply
    ensures e.Enqueue? ==> Do(s, e).jobs == s.jobs[s.nextJob := Job(e.session, e.work, Queued, None)]
    ensures e.TrashOne? ==> Do(s, e).jobs == s.jobs
  {
  }
}
