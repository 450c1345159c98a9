/**
 * What every run of a job's attempts keeps (media-worker/src/main.ts), for one attempt by itself and
 * for all of them: which step of which attempt takes an accepted result's files away, and that none
 * does while no two live attempts share a number.
 */
module WorkerLeaseSafety {
  import opened Wrappers
  import opened WorkerLease

  // ---------- one attempt by itself ----------

  predicate Known(s: State) {
    forall pid <- s.procs :: pid < s.next
  }

  lemma ProcsKeep(s: State, e: Event)
    requires Enabled(s, e) && ProcsInv(s) && Known(s)
    ensures ProcsInv(Do(s, e)) && Known(Do(s, e))
  {
    var t := Do(s, e);
    forall pid | pid in t.procs ensures ProcInv(t.procs[pid]) && pid < t.next {
      if PidOf(e) == Some(pid) {
        ProcKeeps(s, e, pid);
      } else if pid in s.procs {
        OthersStay(s, e, pid);
      }
    }
  }

  lemma {:induction false} ProcsKeepRun(s: State, run: seq<Event>)
    requires Legal(s, run) && ProcsInv(s) && Known(s)
    ensures ProcsInv(Final(s, run)) && Known(Final(s, run))
    decreases |run|
  {
    if run != [] {
      ProcsKeep(s, run[0]);
      ProcsKeepRun(Do(s, run[0]), run[1..]);
    }
  }

  /** In every run an attempt issues one of finish, fail and release at most. */
  lemma OneStatementAtMost(run: seq<Event>, pid: nat)
    requires Legal(START, run) && pid in Final(START, run).procs
    ensures |Final(START, run).procs[pid].issued| <= 1
  {
    ProcsKeepRun(START, run);
  }

  /** A finish is never issued once the lease was seen lost; a fail or a release is exactly when the
    * news came while the attempt's files were being removed. */
  lemma IssuedAfterLossExactly(run: seq<Event>, pid: nat)
    requires Legal(START, run) && pid in Final(START, run).procs
    requires Final(START, run).procs[pid].issued != []
    ensures var p := Final(START, run).procs[pid];
      && (p.lostAtIssue <==> p.lostInRemoval)
      && (p.lostAtIssue ==> !p.issued[0].Finish?)
  {
    ProcsKeepRun(START, run);
  }

  /** The attempt's files outlive it only if it died, a removal failed, or its finish was accepted or
    * threw. */
  lemma FilesOutliveOnlyAFinish(run: seq<Event>, pid: nat)
    requires Legal(START, run) && pid in Final(START, run).procs
    ensures var p := Final(START, run).procs[pid];
      p.phase == Ended && !p.crashed && !p.messy && !p.removed
      ==> (p.verdict.Accepted? || p.verdict.Threw?) && p.verdict.call.Finish?
  {
    ProcsKeepRun(START, run);
  }

  // ---------- all the attempts of a job ----------

  predicate IsLive(s: State, pid: nat) {
    pid in s.procs && s.procs[pid].phase != Ended
  }

  /** The worker claims while no attempt of its own is still on the job. */
  predicate Alone(s: State, e: Event) {
    e.Claim? ==> forall pid <- s.procs :: IsLive(s, pid) ==> s.procs[pid].worker != e.worker
  }

  predicate AlwaysAlone(s: State, run: seq<Event>)
    requires Legal(s, run)
    decreases |run|
  {
    run != [] ==> Alone(s, run[0]) && AlwaysAlone(Do(s, run[0]), run[1..])
  }

  /** No two live attempts share a number, and with it the names of their files. */
  predicate DistinctNumbers(s: State) {
    forall p <- s.procs, q <- s.procs ::
      IsLive(s, p) && IsLive(s, q) && p != q ==> s.procs[p].number != s.procs[q].number
  }

  predicate AlwaysDistinct(s: State, run: seq<Event>)
    requires Legal(s, run)
    decreases |run|
  {
    DistinctNumbers(s) && (run != [] ==> AlwaysDistinct(Do(s, run[0]), run[1..]))
  }

  /** The files of the attempt's number are the ones it wrote. */
  predicate HasItsFiles(s: State, pid: nat) {
    pid in s.procs && s.procs[pid].number in s.files && s.files[s.procs[pid].number] == pid
  }

  /** An accepted result's files are there, as its attempt wrote them. */
  predicate ResultHasItsFiles(s: State) {
    s.status == Done && s.doneNames ==> HasItsFiles(s, s.finisher)
  }

  /** `q` may take `p`'s place without touching the job or the files. */
  predicate Steady(p: Proc, q: Proc) {
    && q.worker == p.worker && q.number == p.number && q.wrote == p.wrote && (p.removed ==> q.removed)
    && (q.phase != Ended ==> p.phase != Ended)
  }

  lemma AnsweredIsSteady(p: Proc, how: How, ok: bool)
    requires p.phase.Calling?
    ensures Steady(p, Answered(p, how, ok)) && Answered(p, how, ok).refused == p.refused
    ensures how != ThrowsBefore && ok ==> Answered(p, how, ok).phase == Ended
  {
  }

  /** What ends an attempt's work touches neither the job nor the files. */
  lemma DecidedIsSteady(p: Proc, outcome: Outcome)
    requires p.phase == Working
    ensures Steady(p, Decided(p, outcome)) && Decided(p, outcome).refused == p.refused
  {
  }

  lemma RemovalIsSteady(p: Proc, ok: bool)
    requires p.phase.Removing?
    ensures var q := AfterRemoval(p, ok); Steady(p, q) && q.refused == p.refused && (ok ==> q.removed)
  {
  }

  // ---------- which step loses an accepted result's files ----------

  /** The accepted attempt has ended. */
  predicate FinisherInv(s: State) {
    s.status == Done ==> s.finisher in s.procs && !IsLive(s, s.finisher)
  }

  lemma EndedStays(s: State, e: Event, pid: nat)
    requires Enabled(s, e) && Known(s) && pid in s.procs && !IsLive(s, pid)
    ensures pid in Do(s, e).procs && !IsLive(Do(s, e), pid)
    ensures Do(s, e).procs[pid].number == s.procs[pid].number
  {
    if PidOf(e) != Some(pid) { OthersStay(s, e, pid); }
  }

  lemma FinisherKeeps(s: State, e: Event)
    requires Enabled(s, e) && Known(s) && FinisherInv(s)
    ensures FinisherInv(Do(s, e))
  {
    if s.status == Done { EndedStays(s, e, s.finisher); }
  }

  lemma {:induction false} FinisherKeepsRun(s: State, run: seq<Event>)
    requires Legal(s, run) && ProcsInv(s) && Known(s) && FinisherInv(s)
    ensures FinisherInv(Final(s, run)) && Known(Final(s, run))
    decreases |run|
  {
    if run != [] {
      ProcsKeep(s, run[0]);
      FinisherKeeps(s, run[0]);
      FinisherKeepsRun(Do(s, run[0]), run[1..]);
    }
  }

  /** The step writes or removes files under the number of `pid`, and another attempt takes it. */
  predicate RivalTouches(s: State, e: Event, pid: nat)
    requires pid in s.procs
  {
    match e
    case Write(q) => IsLive(s, q) && q != pid && s.procs[q].number == s.procs[pid].number
    case RemoveOne(q) => IsLive(s, q) && q != pid && s.procs[q].number == s.procs[pid].number
    case RemoveEnds(q, ok) => ok && IsLive(s, q) && q != pid && s.procs[q].number == s.procs[pid].number
    case _ => false
  }

  /** A finish naming files is accepted while the files of its number are not the attempt's own. */
  predicate FinishesWithout(s: State, e: Event)
    requires Enabled(s, e)
  {
    e.RunCall? && e.how != ThrowsBefore && Fenced(s, s.procs[e.pid])
    && s.procs[e.pid].phase.call == Finish(true) && !HasItsFiles(s, e.pid)
  }

  /** The files of an attempt that has ended are lost by a rival's step and by no other. */
  lemma EndedLosesExactly(s: State, e: Event, pid: nat)
    requires Enabled(s, e) && Known(s) && HasItsFiles(s, pid) && !IsLive(s, pid)
    ensures !HasItsFiles(Do(s, e), pid) <==> RivalTouches(s, e, pid)
  {
    EndedStays(s, e, pid);
  }

  lemma LosesExactly(s: State, e: Event)
    requires Enabled(s, e) && Known(s) && FinisherInv(s) && ResultHasItsFiles(s)
    ensures !ResultHasItsFiles(Do(s, e))
            <==> (s.status == Done && s.doneNames && RivalTouches(s, e, s.finisher)) || FinishesWithout(s, e)
  {
    if s.status == Done {
      EndedStays(s, e, s.finisher);
      if s.doneNames { EndedLosesExactly(s, e, s.finisher); }
    }
  }

  /** At any moment of any run, the step that leaves an accepted result without its files is another live
    * attempt with the finisher's number writing or removing, or the acceptance of a finish whose own
    * files were already gone; no other step is. */
  lemma ResultLosesItsFilesExactly(run: seq<Event>, e: Event)
    requires Legal(START, run) && Enabled(Final(START, run), e) && ResultHasItsFiles(Final(START, run))
    ensures var s := Final(START, run);
      && (s.status == Done ==> s.finisher in s.procs)
      && (!ResultHasItsFiles(Do(s, e))
          <==> (s.status == Done && s.doneNames && RivalTouches(s, e, s.finisher)) || FinishesWithout(s, e))
  {
    FinisherKeepsRun(START, run);
    LosesExactly(Final(START, run), e);
  }

  // ---------- attempts whose numbers differ ----------

  /** At work, or finishing. */
  predicate NeedsFiles(p: Proc) {
    p.wrote && (p.phase == Working || (p.phase.Calling? && p.phase.call.Finish?))
  }

  /** What an attempt wrote is there while it may still finish. */
  predicate FilesInv(s: State) {
    forall pid <- s.procs :: NeedsFiles(s.procs[pid]) ==> HasItsFiles(s, pid)
  }

  /** The accepted attempt's number is its own. */
  predicate ResultInv(s: State) {
    && FinisherInv(s) && ResultHasItsFiles(s)
    && (s.status == Done ==>
          forall pid <- s.procs :: IsLive(s, pid) ==> s.procs[pid].number != s.procs[s.finisher].number)
  }

  predicate OwnInv(s: State) {
    Known(s) && ProcsInv(s) && FilesInv(s) && ResultInv(s)
  }

  lemma FilesKeep(s: State, e: Event, pid: nat)
    requires Enabled(s, e) && OwnInv(s) && DistinctNumbers(s) && pid in s.procs && pid in Do(s, e).procs
    requires NeedsFiles(Do(s, e).procs[pid])
    ensures HasItsFiles(Do(s, e), pid)
  {
    if PidOf(e) == Some(pid) {
      OwnStepKeepsFiles(s, e, pid);
    } else {
      OthersStay(s, e, pid);
      assert HasItsFiles(s, pid);
    }
  }

  lemma OwnStepKeepsFiles(s: State, e: Event, pid: nat)
    requires Enabled(s, e) && OwnInv(s) && PidOf(e) == Some(pid) && pid in Do(s, e).procs
    requires NeedsFiles(Do(s, e).procs[pid])
    ensures HasItsFiles(Do(s, e), pid)
  {
    var p := s.procs[pid];
    match e
    case RemoveEnds(_, ok) => RemovalIsSteady(p, ok);
    case JobEnds(_, outcome) => DecidedIsSteady(p, outcome);
    case RunCall(_, how) => AnsweredIsSteady(p, how, Fenced(s, p));
    case _ =>
  }

  /** An attempt that is live after a step was live before it, under the same number, or the step claimed. */
  lemma LiveWasLive(s: State, e: Event, pid: nat)
    requires Enabled(s, e) && Known(s) && IsLive(Do(s, e), pid) && !e.Claim?
    ensures IsLive(s, pid) && Do(s, e).procs[pid].number == s.procs[pid].number
  {
    if PidOf(e) == Some(pid) {
      OwnStepKeepsNumber(s, e, pid);
    } else {
      OthersStay(s, e, pid);
    }
  }

  lemma OwnStepKeepsNumber(s: State, e: Event, pid: nat)
    requires Enabled(s, e) && PidOf(e) == Some(pid) && IsLive(Do(s, e), pid)
    ensures IsLive(s, pid) && Do(s, e).procs[pid].number == s.procs[pid].number
  {
    var p := s.procs[pid];
    match e
    case RemoveEnds(_, ok) => RemovalIsSteady(p, ok);
    case JobEnds(_, outcome) => DecidedIsSteady(p, outcome);
    case RunCall(_, how) => AnsweredIsSteady(p, how, Fenced(s, p));
    case _ =>
  }

  lemma FinishKeeps(s: State, pid: nat, how: How)
    requires OwnInv(s) && DistinctNumbers(s) && Enabled(s, RunCall(pid, how))
    requires how != ThrowsBefore && Fenced(s, s.procs[pid]) && s.procs[pid].phase.call.Finish?
    ensures ResultInv(Do(s, RunCall(pid, how)))
  {
    var t := Do(s, RunCall(pid, how));
    assert ProcInv(s.procs[pid]) && IsLive(s, pid);
    AnsweredIsSteady(s.procs[pid], how, true);
    forall k | k in t.procs && IsLive(t, k) ensures t.procs[k].number != t.procs[pid].number {
      LiveWasLive(s, RunCall(pid, how), k);
    }
  }

  lemma ResultKeeps(s: State, e: Event)
    requires OwnInv(s) && DistinctNumbers(s) && Enabled(s, e)
    ensures ResultInv(Do(s, e))
  {
    var t := Do(s, e);
    FinisherKeeps(s, e);
    if s.status == Done {
      EndedStays(s, e, s.finisher);
      LosesExactly(s, e);
      forall k | k in t.procs && IsLive(t, k) ensures IsLive(s, k) && t.procs[k].number == s.procs[k].number {
        LiveWasLive(s, e, k);
      }
    } else if t.status == Done {
      FinishKeeps(s, e.pid, e.how);
    }
  }

  lemma OwnKeeps(s: State, e: Event)
    requires OwnInv(s) && DistinctNumbers(s) && Enabled(s, e)
    ensures OwnInv(Do(s, e))
  {
    var t := Do(s, e);
    ProcsKeep(s, e);
    ResultKeeps(s, e);
    forall pid | pid in t.procs && NeedsFiles(t.procs[pid])
      ensures HasItsFiles(t, pid)
    {
      if pid in s.procs { FilesKeep(s, e, pid); }
    }
  }

  lemma {:induction false} OwnKeepsRun(s: State, run: seq<Event>)
    requires OwnInv(s) && Legal(s, run) && AlwaysDistinct(s, run)
    ensures OwnInv(Final(s, run))
    decreases |run|
  {
    if run != [] {
      OwnKeeps(s, run[0]);
      OwnKeepsRun(Do(s, run[0]), run[1..]);
    }
  }

  /** While no two live attempts share a number, the files of an accepted result are there and are the
    * ones its attempt wrote, whatever expires, crashes, is cancelled or answers late. */
  lemma ResultFilesStay(run: seq<Event>)
    requires Legal(START, run) && AlwaysDistinct(START, run)
    ensures ResultHasItsFiles(Final(START, run))
  {
    OwnKeepsRun(START, run);
  }

  // ---------- workers that claim alone ----------

  /** While the job runs, its holder has the newest number and is the only live attempt that passes the
    * fence. */
  predicate HolderInv(s: State) {
    s.status == Running ==>
      && s.holder in s.procs && s.procs[s.holder].number == s.attempts && s.procs[s.holder].worker == s.lockedBy
      && forall pid <- s.procs :: IsLive(s, pid) && pid != s.holder ==>
           s.procs[pid].number < s.attempts && s.procs[pid].worker != s.lockedBy
  }

  predicate NumbersInv(s: State) {
    DistinctNumbers(s) && forall pid <- s.procs :: IsLive(s, pid) ==> s.procs[pid].number <= s.attempts
  }

  predicate LostInv(s: State) {
    forall pid <- s.procs ::
      IsLive(s, pid) && s.procs[pid].refused ==> !(s.status == Running && s.holder == pid)
  }

  predicate AloneInv(s: State) {
    HolderInv(s) && NumbersInv(s) && LostInv(s)
  }

  predicate Inv(s: State) {
    Known(s) && ProcsInv(s) && AloneInv(s)
  }

  /** `q` may take the attempt's place as far as the queue's numbers and fence go. */
  predicate Quiet(s: State, pid: nat, q: Proc)
    requires pid in s.procs
  {
    && q.worker == s.procs[pid].worker && q.number == s.procs[pid].number
    && (q.phase != Ended ==> s.procs[pid].phase != Ended)
    && (q.refused && !s.procs[pid].refused ==> !(s.status == Running && s.holder == pid))
  }

  lemma QuietKeeps(s: State, pid: nat, q: Proc)
    requires AloneInv(s) && pid in s.procs && Quiet(s, pid, q)
    ensures AloneInv(s.(procs := s.procs[pid := q]))
  {
    var t := s.(procs := s.procs[pid := q]);
    assert forall k <- t.procs :: IsLive(t, k) ==> IsLive(s, k);
  }

  /** A live attempt passes the fence only as the holder. */
  lemma OnlyHolderPasses(s: State, pid: nat)
    requires HolderInv(s) && IsLive(s, pid) && Fenced(s, s.procs[pid])
    ensures pid == s.holder
  {
  }

  lemma StopsRunningKeeps(s: State, status: Status)
    requires AloneInv(s) && status != Running
    ensures AloneInv(s.(status := status))
  {
  }

  /** A statement of a holder that has ended takes effect. */
  lemma ExecutedKeeps(s: State, call: Call)
    requires AloneInv(s) && s.status == Running && !IsLive(s, s.holder)
    ensures AloneInv(Executed(s, call, s.holder))
  {
  }

  lemma ClaimKeeps(s: State, e: Event)
    requires Inv(s) && Enabled(s, e) && Alone(s, e) && e.Claim?
    ensures AloneInv(Do(s, e))
  {
    var t := Do(s, e);
    assert forall k <- t.procs :: k != s.next ==> k in s.procs && t.procs[k] == s.procs[k];
    assert HolderInv(t);
    assert NumbersInv(t);
  }

  lemma RunCallKeeps(s: State, pid: nat, how: How)
    requires Inv(s) && Enabled(s, RunCall(pid, how))
    ensures AloneInv(Do(s, RunCall(pid, how)))
  {
    var p := s.procs[pid];
    var t := s.(procs := s.procs[pid := Answered(p, how, Fenced(s, p))]);
    AnswerKeeps(s, pid, how);
    if how != ThrowsBefore && Fenced(s, p) {
      OnlyHolderPasses(s, pid);
      ExecutedKeeps(t, p.phase.call);
    }
    RunCallDoes(s, pid, how);
  }

  lemma RunCallDoes(s: State, pid: nat, how: How)
    requires Enabled(s, RunCall(pid, how))
    ensures var p := s.procs[pid];
      var t := s.(procs := s.procs[pid := Answered(p, how, Fenced(s, p))]);
      Do(s, RunCall(pid, how)) == if how != ThrowsBefore && Fenced(s, p) then Executed(t, p.phase.call, pid) else t
  {
  }

  /** The attempt has its answer; the job is as it was. */
  lemma AnswerKeeps(s: State, pid: nat, how: How)
    requires AloneInv(s) && Enabled(s, RunCall(pid, how))
    ensures var p := s.procs[pid];
      var t := s.(procs := s.procs[pid := Answered(p, how, Fenced(s, p))]);
      AloneInv(t) && (how != ThrowsBefore && Fenced(s, p) ==> !IsLive(t, pid))
  {
    AnsweredIsSteady(s.procs[pid], how, Fenced(s, s.procs[pid]));
    QuietKeeps(s, pid, Answered(s.procs[pid], how, Fenced(s, s.procs[pid])));
  }

  /** A step of one attempt on its own record, and on its files. */
  lemma QuietStepKeeps(s: State, e: Event)
    requires Inv(s) && Enabled(s, e) && PidOf(e).Some? && !e.RunCall?
    ensures AloneInv(Do(s, e))
  {
    var pid := PidOf(e).value;
    var p := s.procs[pid];
    match e {
      case RemoveEnds(_, ok) => RemovalIsSteady(p, ok);
      case JobEnds(_, outcome) => DecidedIsSteady(p, outcome);
      case _ =>
    }
    QuietKeeps(s, pid, Do(s, e).procs[pid]);
  }

  lemma StepKeeps(s: State, e: Event)
    requires Inv(s) && Enabled(s, e) && Alone(s, e)
    ensures Inv(Do(s, e))
  {
    ProcsKeep(s, e);
    match e
    case Claim(_) => ClaimKeeps(s, e);
    case Expire(spent) => StopsRunningKeeps(s, if spent then Failed else Queued);
    case CancelJob => StopsRunningKeeps(s, Cancelled);
    case RunCall(pid, how) => RunCallKeeps(s, pid, how);
    case _ => QuietStepKeeps(s, e);
  }

  lemma {:induction false} RunKeeps(s: State, run: seq<Event>)
    requires Inv(s) && Legal(s, run) && AlwaysAlone(s, run)
    ensures Inv(Final(s, run)) && AlwaysDistinct(s, run)
    decreases |run|
  {
    if run != [] {
      StepKeeps(s, run[0]);
      RunKeeps(Do(s, run[0]), run[1..]);
    }
  }

  /** Workers that claim while no attempt of their own is on the job never share a number, so their
    * results keep their files. */
  lemma AloneMeansDistinct(run: seq<Event>)
    requires Legal(START, run) && AlwaysAlone(START, run)
    ensures AlwaysDistinct(START, run) && ResultHasItsFiles(Final(START, run))
  {
    RunKeeps(START, run);
    ResultFilesStay(run);
  }

  lemma LostCannotPass(s: State, pid: nat)
    requires Inv(s) && IsLive(s, pid) && s.procs[pid].lost
    ensures !Fenced(s, s.procs[pid])
  {
    if Fenced(s, s.procs[pid]) { OnlyHolderPasses(s, pid); }
  }

  /** A statement that goes out after the loss was seen is refused: it changes nothing of the job. */
  lemma LateStatementIsRefused(run: seq<Event>, pid: nat, how: How)
    requires Legal(START, run) && AlwaysAlone(START, run)
    requires Enabled(Final(START, run), RunCall(pid, how)) && Final(START, run).procs[pid].lost
    ensures var s, t := Final(START, run), Do(Final(START, run), RunCall(pid, how));
      t == s.(procs := t.procs)
  {
    RunKeeps(START, run);
    LostCannotPass(Final(START, run), pid);
  }
}
