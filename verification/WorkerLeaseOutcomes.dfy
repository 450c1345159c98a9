/**
 * How an attempt ends when nothing disturbs it, told on the job's row and the attempts' files: what each
 * outcome of the work leaves behind, and what a shutdown, a lost lease and a late statement leave.
 */
module WorkerLeaseOutcomes {
  import opened Wrappers
  import opened WorkerLease

  lemma OneStep(s: State, e: Event)
    requires Enabled(s, e)
    ensures Legal(s, [e]) && Final(s, [e]) == Do(s, e)
  {
    assert [e][1..] == [];
  }

  lemma TwoSteps(s: State, a: Event, b: Event)
    requires Enabled(s, a) && Enabled(Do(s, a), b)
    ensures Legal(s, [a, b]) && Final(s, [a, b]) == Do(Do(s, a), b)
  {
    OneStep(Do(s, a), b);
    assert [a, b][1..] == [b];
  }

  lemma ThreeSteps(s: State, a: Event, b: Event, c: Event)
    requires Enabled(s, a) && Enabled(Do(s, a), b) && Enabled(Do(Do(s, a), b), c)
    ensures Legal(s, [a, b, c]) && Final(s, [a, b, c]) == Do(Do(Do(s, a), b), c)
  {
    TwoSteps(Do(s, a), b, c);
    assert [a, b, c][1..] == [b, c];
  }

  /** The job's row, with the attempt that finished it. */
  datatype JobRow = JobRow(status: Status, lockedBy: nat, attempts: nat, doneNames: bool, finisher: nat)

  function RowOf(s: State): JobRow { JobRow(s.status, s.lockedBy, s.attempts, s.doneNames, s.finisher) }

  /** The attempt holds the job's lease. */
  predicate Holds(s: State, pid: nat) {
    pid in s.procs && s.status == Running && s.lockedBy == s.procs[pid].worker
  }

  /** The attempt is at work and has not heard of a lost lease. */
  predicate AtWork(s: State, pid: nat) { pid in s.procs && s.procs[pid].phase == Working && !s.procs[pid].lost }

  /** A claim counts an attempt, and numbers it by the count. */
  lemma ClaimStarts(s: State, worker: nat)
    requires s.status == Queued
    ensures Enabled(s, Claim(worker))
    ensures var t := Do(s, Claim(worker));
      && RowOf(t) == RowOf(s).(status := Running, lockedBy := worker, attempts := s.attempts + 1)
      && t.files == s.files && Holds(t, s.next) && AtWork(t, s.next)
      && t.procs[s.next].number == s.attempts + 1 && t.procs[s.next].issued == [] && !t.procs[s.next].shutdown
      && t.next == s.next + 1 && (forall q :: q in s.procs && q != s.next ==> q in t.procs && t.procs[q] == s.procs[q])
  {
  }

  /** What is written lies under the attempt's number. */
  lemma WriteWrites(s: State, pid: nat)
    requires pid in s.procs && s.procs[pid].phase == Working
    ensures var t := Do(s, Write(pid));
      RowOf(t) == RowOf(s) && t.files == s.files[s.procs[pid].number := pid] && t.procs[pid].wrote
  {
  }

  /** A result that fits is finished, and its files stay. */
  lemma ResultIsFinished(s: State, pid: nat, names: bool)
    requires AtWork(s, pid) && Holds(s, pid) && !s.procs[pid].shutdown && (names ==> s.procs[pid].wrote)
    ensures var run := [JobEnds(pid, Completed(names, false)), RunCall(pid, Answers)];
      && Legal(s, run)
      && var t := Final(s, run);
         && RowOf(t) == RowOf(s).(status := Done, doneNames := names, finisher := pid) && t.files == s.files
         && pid in t.procs && t.procs[pid].phase == Ended && t.procs[pid].verdict == Accepted(Finish(names))
  {
    TwoSteps(s, JobEnds(pid, Completed(names, false)), RunCall(pid, Answers));
  }

  /** What the job's row comes to without a result: a shutdown or a job given back is queued again and its
    * attempt not counted, a result too big or a final failure fails the job, and any other failure queues it
    * again. */
  function Unfinished(row: JobRow, outcome: Outcome, shutdown: bool): JobRow {
    if shutdown || outcome.GivesBack? then
      row.(status := Queued, attempts := if row.attempts == 0 then 0 else row.attempts - 1)
    else if outcome == Breaks(false) then row.(status := Queued)
    else row.(status := Failed)
  }

  /** Without a result that fits the files go first, and then the job is told. */
  lemma NoResultIsTold(s: State, pid: nat, outcome: Outcome)
    requires AtWork(s, pid) && Holds(s, pid)
    requires s.procs[pid].shutdown || !outcome.Completed? || outcome.big
    requires outcome.Completed? && outcome.names ==> s.procs[pid].wrote
    ensures var run := [JobEnds(pid, outcome), RemoveEnds(pid, true), RunCall(pid, Answers)];
      && Legal(s, run)
      && var t := Final(s, run);
         && RowOf(t) == Unfinished(RowOf(s), outcome, s.procs[pid].shutdown)
         && t.files == s.files - {s.procs[pid].number} && pid in t.procs && t.procs[pid].phase == Ended
  {
    var s1 := Do(s, JobEnds(pid, outcome));
    ToldIsRemoving(s, pid, outcome);
    var s2 := Do(s1, RemoveEnds(pid, true));
    ThreeSteps(s, JobEnds(pid, outcome), RemoveEnds(pid, true), RunCall(pid, Answers));
  }

  lemma ToldIsRemoving(s: State, pid: nat, outcome: Outcome)
    requires AtWork(s, pid) && (s.procs[pid].shutdown || !outcome.Completed? || outcome.big)
    requires outcome.Completed? && outcome.names ==> s.procs[pid].wrote
    ensures var p := Do(s, JobEnds(pid, outcome)).procs[pid];
      && p.phase.Removing? && p.phase.next.Issue? && p.worker == s.procs[pid].worker
      && p.phase.next.call == (if s.procs[pid].shutdown || outcome.GivesBack? then Release
                               else Fail(outcome != Breaks(false)))
  {
  }

  /** An attempt that has heard of its lost lease removes its files and tells the queue nothing. */
  lemma LostSaysNothing(s: State, pid: nat, outcome: Outcome)
    requires pid in s.procs && s.procs[pid].phase == Working && s.procs[pid].lost
    requires outcome.Completed? && outcome.names ==> s.procs[pid].wrote
    ensures var run := [JobEnds(pid, outcome), RemoveEnds(pid, true)];
      && Legal(s, run)
      && var t := Final(s, run);
         && RowOf(t) == RowOf(s) && t.files == s.files - {s.procs[pid].number}
         && pid in t.procs && t.procs[pid].phase == Ended && t.procs[pid].issued == s.procs[pid].issued
  {
    TwoSteps(s, JobEnds(pid, outcome), RemoveEnds(pid, true));
  }

  /** A renewal tells of the loss exactly when the lease is no longer the worker's, and changes nothing else. */
  lemma RenewTellsExactly(s: State, pid: nat)
    requires pid in s.procs && s.procs[pid].phase == Working && !s.procs[pid].refused && s.procs[pid].inflight == 0
    ensures var run := [IssueRenew(pid), RunRenew(pid)];
      && Legal(s, run)
      && var t := Final(s, run);
         && RowOf(t) == RowOf(s) && t.files == s.files && pid in t.procs && t.procs[pid].inflight == 0
         && (Enabled(t, HearLost(pid)) <==> !Holds(s, pid))
         && (Enabled(t, HearLost(pid)) ==>
               Do(t, HearLost(pid)).procs[pid].lost && RowOf(Do(t, HearLost(pid))) == RowOf(s))
  {
    TwoSteps(s, IssueRenew(pid), RunRenew(pid));
  }

  /** What a statement does to the row when it passes. */
  function Said(row: JobRow, call: Call, pid: nat): JobRow {
    match call
    case Finish(names) => row.(status := Done, doneNames := names, finisher := pid)
    case Fail(final) => row.(status := if final then Failed else Queued)
    case Release => row.(status := Queued, attempts := if row.attempts == 0 then 0 else row.attempts - 1)
  }

  /** A statement changes the row exactly when the worker holds the lease as it runs, whether or not its
    * answer arrives; no statement touches a file. */
  lemma StatementExactly(s: State, pid: nat, how: How)
    requires Enabled(s, RunCall(pid, how))
    ensures Do(s, RunCall(pid, how)).files == s.files
    ensures how != ThrowsBefore && Holds(s, pid) ==>
              RowOf(Do(s, RunCall(pid, how))) == Said(RowOf(s), s.procs[pid].phase.call, pid)
    ensures how == ThrowsBefore || !Holds(s, pid) ==> RowOf(Do(s, RunCall(pid, how))) == RowOf(s)
  {
    match s.procs[pid].phase.call
    case Finish(_) =>
    case Fail(_) =>
    case Release =>
  }

  lemma CallAnswers(s: State, pid: nat, how: How)
    requires Enabled(s, RunCall(pid, how))
    ensures pid in Do(s, RunCall(pid, how)).procs
    ensures Do(s, RunCall(pid, how)).procs[pid] == Answered(s.procs[pid], how, Holds(s, pid))
  {
    match s.procs[pid].phase.call
    case Finish(_) =>
    case Fail(_) =>
    case Release =>
  }

  /** The attempt learns whether its statement passed, unless its answer is lost. */
  lemma VerdictExactly(s: State, pid: nat, how: How)
    requires Enabled(s, RunCall(pid, how))
    ensures pid in Do(s, RunCall(pid, how)).procs
    ensures var verdict, call := Do(s, RunCall(pid, how)).procs[pid].verdict, s.procs[pid].phase.call;
      && (verdict == Accepted(call) <==> how == Answers && Holds(s, pid))
      && (verdict == Refused(call) <==> how == Answers && !Holds(s, pid))
      && (verdict == Threw(call) <==> how != Answers)
  {
    CallAnswers(s, pid, how);
  }

  /** After a refused statement the files go, and nothing more is said. */
  lemma RefusedCleansUp(s: State, pid: nat)
    requires Enabled(s, RunCall(pid, Answers)) && !Holds(s, pid) && !s.procs[pid].shutdown
    ensures var run := [RunCall(pid, Answers), RemoveEnds(pid, true)];
      && Legal(s, run)
      && var t := Final(s, run);
         && RowOf(t) == RowOf(s) && t.files == s.files - {s.procs[pid].number}
         && pid in t.procs && t.procs[pid].phase == Ended && t.procs[pid].issued == s.procs[pid].issued
  {
    TwoSteps(s, RunCall(pid, Answers), RemoveEnds(pid, true));
  }

  /** A lease that runs out queues the job again, or fails it with its attempts spent; a cancelled job stays
    * cancelled. Neither touches an attempt or a file. */
  lemma QueueSteps(s: State, spent: bool)
    ensures s.status == Running ==>
              && Enabled(s, Expire(spent))
              && Do(s, Expire(spent)) == s.(status := if spent then Failed else Queued)
    ensures s.status == Queued || s.status == Running || s.status == Done ==>
              Enabled(s, CancelJob) && Do(s, CancelJob) == s.(status := Cancelled)
    ensures s.status == Cancelled || s.status == Failed ==>
              !Enabled(s, Expire(spent)) && !Enabled(s, CancelJob) && forall w :: !Enabled(s, Claim(w))
  {
  }

  /** Removing one file by name, a shutdown and a crash leave the job's row alone. */
  lemma OwnSteps(s: State, pid: nat)
    requires pid in s.procs && s.procs[pid].phase == Working
    ensures var t := Do(s, RemoveOne(pid));
      RowOf(t) == RowOf(s) && t.files == s.files - {s.procs[pid].number} && !t.procs[pid].wrote
    ensures var t := Do(s, ShutDown(pid)); RowOf(t) == RowOf(s) && t.files == s.files && t.procs[pid].shutdown
    ensures var t := Do(s, Crash(pid));
      RowOf(t) == RowOf(s) && t.files == s.files && t.procs[pid].phase == Ended && t.procs[pid].crashed
  {
  }
}
