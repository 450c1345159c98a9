/**
 * Two runs of a job's attempts: a release issued after the lease was seen lost, and two lanes of one
 * worker that lose an accepted result's files.
 */
module WorkerLeaseRaces {
  import opened Wrappers
  import opened WorkerLease
  import opened WorkerLeaseSafety

  predicate Goes(s: State, e: Event, t: State) {
    Enabled(s, e) && t == Do(s, e)
  }

  predicate Reaches(s: State, run: seq<Event>, t: State) {
    Legal(s, run) && Final(s, run) == t
  }

  lemma StepOn(s: State, run: seq<Event>, t: State, u: State)
    requires run != [] && Goes(s, run[0], t) && Reaches(t, run[1..], u)
    ensures Reaches(s, run, u)
  {
  }

  lemma Three(s: State, run: seq<Event>, s1: State, s2: State, t: State)
    requires |run| == 3 && Goes(s, run[0], s1) && Goes(s1, run[1], s2) && Goes(s2, run[2], t)
    ensures Reaches(s, run, t)
  {
    assert run[1..][1..] == run[2..] && run[2..][1..] == [];
    StepOn(s2, run[2..], t, t);
    StepOn(s1, run[1..], s2, t);
    StepOn(s, run, s1, t);
  }

  lemma {:induction false} Join(s: State, a: seq<Event>, t: State, b: seq<Event>, u: State)
    requires Reaches(s, a, t) && Reaches(t, b, u)
    ensures Reaches(s, a + b, u)
    decreases |a|
  {
    if a == [] {
      assert a + b == b;
    } else {
      Join(Do(s, a[0]), a[1..], t, b, u);
      assert (a + b)[1..] == a[1..] + b;
    }
  }

  /** A fresh attempt of worker 7. */
  function Fresh(number: nat): Proc {
    Proc(7, number, Working, false, 0, false, false, false, false, false, false, false, false, [], NotAsked)
  }

  // ---------- a release after the loss ----------

  const CLEARING := Fresh(1).(inflight := 1, phase := Removing(Issue(Release)))
  const CLEARED := State(Running, 7, 1, 0, false, 0, map[0 := CLEARING], 1, map[])

  lemma UntilClearing()
    ensures Reaches(START, [Claim(7), IssueRenew(0), JobEnds(0, GivesBack)], CLEARED)
  {
    var s1 := Do(START, Claim(7));
    assert s1 == State(Running, 7, 1, 0, false, 0, map[0 := Fresh(1)], 1, map[]);
    var s2 := Do(s1, IssueRenew(0));
    Three(START, [Claim(7), IssueRenew(0), JobEnds(0, GivesBack)], s1, s2, CLEARED);
  }

  lemma HearsLossWhileClearing() returns (t: State)
    ensures Reaches(CLEARED, [Expire(false), RunRenew(0), HearLost(0)], t)
    ensures t.procs.Keys == {0}
    ensures t.procs[0] == CLEARING.(inflight := 0, refused := true, lost := true, lostInRemoval := true)
  {
    var s1 := Do(CLEARED, Expire(false));
    var s2 := Do(s1, RunRenew(0));
    t := Do(s2, HearLost(0));
    Three(CLEARED, [Expire(false), RunRenew(0), HearLost(0)], s1, s2, t);
  }

  /** The renewal's answer arrives while the files are being removed, and the release goes out still. */
  lemma ReleaseAfterLossHappens() returns (run: seq<Event>, t: State)
    ensures Reaches(START, run, t) && 0 in t.procs
    ensures t.procs[0].lostAtIssue && t.procs[0].issued == [Release]
  {
    UntilClearing();
    var s := HearsLossWhileClearing();
    t := Do(s, RemoveEnds(0, true));
    StepOn(s, [RemoveEnds(0, true)], t, t);
    var a, b := [Claim(7), IssueRenew(0), JobEnds(0, GivesBack)], [Expire(false), RunRenew(0), HearLost(0)];
    Join(START, a, CLEARED, b, s);
    run := a + b + [RemoveEnds(0, true)];
    Join(START, a + b, s, [RemoveEnds(0, true)], t);
  }

  // ---------- two lanes of one worker ----------

  /** The first lane's lease ran out, and the second lane of the same worker has claimed the job. */
  const RECLAIMED := State(Running, 7, 2, 1, false, 0, map[0 := Fresh(1), 1 := Fresh(2)], 2, map[])

  lemma UntilReclaimed()
    ensures Reaches(START, [Claim(7), Expire(false), Claim(7)], RECLAIMED)
  {
    var s1 := Do(START, Claim(7));
    assert s1 == State(Running, 7, 1, 0, false, 0, map[0 := Fresh(1)], 1, map[]);
    var s2 := Do(s1, Expire(false));
    Three(START, [Claim(7), Expire(false), Claim(7)], s1, s2, RECLAIMED);
  }

  const GAVE_BACK := Fresh(1).(phase := Ended, removed := true, issued := [Release], verdict := Accepted(Release))

  /** The first lane gives the job back in the second lane's name, since the fence knows the worker only. */
  const GIVEN_BACK := State(Queued, 7, 1, 1, false, 0, map[0 := GAVE_BACK, 1 := Fresh(2)], 2, map[])

  lemma UntilGivenBack()
    ensures Reaches(RECLAIMED, [JobEnds(0, GivesBack), RemoveEnds(0, true), RunCall(0, Answers)], GIVEN_BACK)
  {
    var s1 := RECLAIMED.(procs := map[0 := Fresh(1).(phase := Removing(Issue(Release))), 1 := Fresh(2)]);
    assert Goes(RECLAIMED, JobEnds(0, GivesBack), s1);
    var s2 := RECLAIMED.(procs := map[0 := Fresh(1).(phase := Calling(Release), removed := true, issued := [Release]),
                                      1 := Fresh(2)]);
    assert [] + [Release] == [Release] && s1.files - {1} == map[];
    assert Goes(s1, RemoveEnds(0, true), s2);
    assert Goes(s2, RunCall(0, Answers), GIVEN_BACK);
    Three(RECLAIMED, [JobEnds(0, GivesBack), RemoveEnds(0, true), RunCall(0, Answers)], s1, s2, GIVEN_BACK);
  }

  const WROTE := Fresh(2).(wrote := true)
  const FINISHING := WROTE.(phase := Calling(Finish(true)), issued := [Finish(true)])

  /** Claimed again by the free lane, the job has two live attempts with the number 2. */
  const SAME_NUMBER := State(
    Running, 7, 2, 2, false, 0, map[0 := GAVE_BACK, 1 := Fresh(2), 2 := FINISHING], 3, map[2 := 2])

  lemma UntilSameNumber()
    ensures Reaches(GIVEN_BACK, [Claim(7), Write(2), JobEnds(2, Completed(true, false))], SAME_NUMBER)
  {
    var s1 := State(Running, 7, 2, 2, false, 0, map[0 := GAVE_BACK, 1 := Fresh(2), 2 := Fresh(2)], 3, map[]);
    assert Goes(GIVEN_BACK, Claim(7), s1);
    var s2 := State(Running, 7, 2, 2, false, 0, map[0 := GAVE_BACK, 1 := Fresh(2), 2 := WROTE], 3, map[2 := 2]);
    assert Goes(s1, Write(2), s2);
    assert [] + [Finish(true)] == [Finish(true)];
    assert Goes(s2, JobEnds(2, Completed(true, false)), SAME_NUMBER);
    Three(GIVEN_BACK, [Claim(7), Write(2), JobEnds(2, Completed(true, false))], s1, s2, SAME_NUMBER);
  }

  /** The result is accepted, and then the other attempt fails and removes the files of number 2. */
  lemma FilesGo() returns (t: State)
    ensures Reaches(SAME_NUMBER, [RunCall(2, Answers), JobEnds(1, Breaks(false)), RemoveEnds(1, true)], t)
    ensures !ResultHasItsFiles(t)
  {
    var s1 := Do(SAME_NUMBER, RunCall(2, Answers));
    assert s1.status == Done && s1.doneNames && s1.files == map[2 := 2] && s1.procs[1] == Fresh(2);
    var s2 := Do(s1, JobEnds(1, Breaks(false)));
    t := Do(s2, RemoveEnds(1, true));
    assert 2 !in t.files && t.finisher == 2 && t.procs[2].number == 2;
    Three(SAME_NUMBER, [RunCall(2, Answers), JobEnds(1, Breaks(false)), RemoveEnds(1, true)], s1, s2, t);
  }

  /** One worker on the job twice need not mean one number twice: after a lease that ran out, the numbers
    * differ, and the result is safe though the worker did not claim alone. */
  lemma TwoLanesMayDiffer()
    ensures Legal(START, [Claim(7), Expire(false), Claim(7)])
    ensures AlwaysDistinct(START, [Claim(7), Expire(false), Claim(7)])
    ensures !AlwaysAlone(START, [Claim(7), Expire(false), Claim(7)])
  {
    var s1 := Do(START, Claim(7));
    assert s1 == State(Running, 7, 1, 0, false, 0, map[0 := Fresh(1)], 1, map[]);
    var s2 := Do(s1, Expire(false));
    UntilReclaimed();
    var run := [Claim(7), Expire(false), Claim(7)];
    assert run[1..] == [Expire(false), Claim(7)] && run[1..][1..] == [Claim(7)] && run[1..][1..][1..] == [];
    assert Do(s2, Claim(7)) == RECLAIMED && DistinctNumbers(RECLAIMED);
    assert AlwaysDistinct(s2, [Claim(7)]);
    assert IsLive(s2, 0) && s2.procs[0].worker == 7;
    assert !Alone(s2, Claim(7));
    assert !AlwaysAlone(s2, [Claim(7)]);
  }

  /** The fence does not know the attempt: one worker's two lanes, never more than two attempts at a
    * time, can end with a done job whose files are gone. */
  lemma TwoLanesLoseTheResult() returns (run: seq<Event>, t: State)
    ensures Reaches(START, run, t) && !ResultHasItsFiles(t)
  {
    UntilReclaimed();
    UntilGivenBack();
    UntilSameNumber();
    t := FilesGo();
    var a, b := [Claim(7), Expire(false), Claim(7)], [JobEnds(0, GivesBack), RemoveEnds(0, true), RunCall(0, Answers)];
    var c := [Claim(7), Write(2), JobEnds(2, Completed(true, false))];
    var d := [RunCall(2, Answers), JobEnds(1, Breaks(false)), RemoveEnds(1, true)];
    Join(START, a, RECLAIMED, b, GIVEN_BACK);
    Join(START, a + b, GIVEN_BACK, c, SAME_NUMBER);
    run := a + b + c + d;
    Join(START, a + b + c, SAME_NUMBER, d, t);
  }
}
