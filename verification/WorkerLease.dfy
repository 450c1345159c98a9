/**
 * One media job under leases (media-worker/src/main.ts): attempts by any number of workers and lanes,
 * the queue's fenced statements (packages/storage/src/mediaJobs.ts), and the files each attempt
 * writes and removes, as a state machine whose steps end where the code awaits.
 *
 * An attempt's files are known by its number: `files` says which attempt last wrote under a number, and
 * none once one of them is removed. A removal goes name by name and may throw half-way.
 * A lease may expire at any moment, an answer may come late, a process may die.
 */
module WorkerLease {
  import opened Wrappers

  datatype Status = Queued | Running | Done | Failed | Cancelled

  datatype Call = Finish(names: bool) | Fail(final: bool) | Release

  datatype Next = Stop | Issue(call: Call)

  datatype Phase = Working | Removing(next: Next) | Calling(call: Call) | Ended

  datatype Outcome = Completed(names: bool, big: bool) | GivesBack | Breaks(final: bool)

  datatype Verdict = NotAsked | Accepted(call: Call) | Refused(call: Call) | Threw(call: Call)

  /** `inflight` counts renewals not answered by the queue yet, `refused` that one was answered false
    * and the attempt has not heard, `lost` that it has. `lostAtIssue` and `lostInRemoval` record when.
    * `wrote` says that it has written files and has not begun to remove them. */
  datatype Proc = Proc(
    worker: nat, number: nat, phase: Phase, shutdown: bool,
    inflight: nat, refused: bool, lost: bool, lostAtIssue: bool, lostInRemoval: bool,
    wrote: bool, removed: bool, messy: bool, crashed: bool, issued: seq<Call>, verdict: Verdict)

  /** `holder` is the attempt that claimed last, `finisher` the one whose finish was accepted. */
  datatype State = State(
    status: Status, lockedBy: nat, attempts: nat, holder: nat, doneNames: bool,
    finisher: nat, procs: map<nat, Proc>, next: nat, files: map<nat, nat>)

  const START := State(Queued, 0, 0, 0, false, 0, map[], 0, map[])

  datatype How = Answers | ThrowsBefore | ThrowsAfter

  datatype Event =
    | Claim(worker: nat)
    | Expire(spent: bool)
    | CancelJob
    | Write(pid: nat)
    | IssueRenew(pid: nat)
    | RunRenew(pid: nat)
    | HearLost(pid: nat)
    | ShutDown(pid: nat)
    | RemoveOne(pid: nat)
    | JobEnds(pid: nat, outcome: Outcome)
    | RemoveEnds(pid: nat, ok: bool)
    | RunCall(pid: nat, how: How)
    | Crash(pid: nat)

  /** Every statement after the claim is fenced on the worker and the status, not on the attempt. */
  predicate Fenced(s: State, p: Proc) {
    s.status == Running && s.lockedBy == p.worker
  }

  predicate Enabled(s: State, e: Event) {
    match e
    case Claim(_) => s.status == Queued
    case Expire(_) => s.status == Running
    case CancelJob => s.status == Queued || s.status == Running || s.status == Done
    case Write(pid) => pid in s.procs && s.procs[pid].phase == Working
    case IssueRenew(pid) => pid in s.procs && s.procs[pid].phase == Working
    case RunRenew(pid) => pid in s.procs && s.procs[pid].phase != Ended && s.procs[pid].inflight > 0
    case HearLost(pid) => pid in s.procs && s.procs[pid].phase != Ended && s.procs[pid].refused
    case ShutDown(pid) => pid in s.procs && s.procs[pid].phase == Working
    // a job that fails removes its files too, before its outcome is known
    case RemoveOne(pid) => pid in s.procs && (s.procs[pid].phase == Working || s.procs[pid].phase.Removing?)
    case JobEnds(pid, outcome) =>
      pid in s.procs && s.procs[pid].phase == Working
      && (outcome.Completed? && outcome.names ==> s.procs[pid].wrote)
    case RemoveEnds(pid, _) => pid in s.procs && s.procs[pid].phase.Removing?
    case RunCall(pid, _) => pid in s.procs && s.procs[pid].phase.Calling?
    case Crash(pid) => pid in s.procs && s.procs[pid].phase != Ended
  }

  /** A statement goes out. */
  function Issued(p: Proc, call: Call): Proc {
    p.(phase := Calling(call), issued := p.issued + [call], lostAtIssue := p.lost)
  }

  /** The job's work is over: a lost lease or a shutdown decides first, then the outcome; only a result
    * that fits is finished without removing the files first. */
  function Decided(p: Proc, outcome: Outcome): Proc {
    if p.lost then p.(phase := Removing(Stop))
    else if p.shutdown then p.(phase := Removing(Issue(Release)))
    else match outcome
      case Completed(names, big) =>
        if big then p.(phase := Removing(Issue(Fail(true)))) else Issued(p, Finish(names))
      case GivesBack => p.(phase := Removing(Issue(Release)))
      case Breaks(final) => p.(phase := Removing(Issue(Fail(final))))
  }

  function AfterRemoval(p: Proc, ok: bool): Proc
    requires p.phase.Removing?
  {
    var q := p.(removed := p.removed || ok, messy := p.messy || !ok);
    if p.phase.next.Stop? then q.(phase := Ended) else Issued(q, p.phase.next.call)
  }

  /** The attempt hears that its lease is lost. */
  function Heard(p: Proc): Proc {
    p.(lost := true,
       lostInRemoval := p.lostInRemoval || (!p.lost && p.phase.Removing? && p.phase.next.Issue?))
  }

  /** What a statement of attempt `pid` that passes the fence does to the job. */
  function Executed(s: State, call: Call, pid: nat): State {
    match call
    case Finish(names) => s.(status := Done, doneNames := names, finisher := pid)
    case Fail(final) => s.(status := if final then Failed else Queued)
    case Release => s.(status := Queued, attempts := if s.attempts > 0 then s.attempts - 1 else 0)
  }

  /** A refused statement means a lost lease: the files go, unless they went at a shutdown. */
  function Answered(p: Proc, how: How, ok: bool): Proc
    requires p.phase.Calling?
  {
    var call := p.phase.call;
    if how != Answers then p.(phase := Ended, verdict := Threw(call))
    else if ok then p.(phase := Ended, verdict := Accepted(call))
    else p.(phase := if p.shutdown then Ended else Removing(Stop), verdict := Refused(call))
  }

  function Do(s: State, e: Event): State
    requires Enabled(s, e)
  {
    match e
    case Claim(worker) =>
      s.(status := Running, lockedBy := worker, attempts := s.attempts + 1, holder := s.next, next := s.next + 1,
         procs := s.procs[s.next := Proc(worker, s.attempts + 1, Working, false, 0, false, false, false, false,
                                         false, false, false, false, [], NotAsked)])
    case Expire(spent) => s.(status := if spent then Failed else Queued)
    case CancelJob => s.(status := Cancelled)
    case Write(pid) =>
      s.(files := s.files[s.procs[pid].number := pid], procs := s.procs[pid := s.procs[pid].(wrote := true)])
    case IssueRenew(pid) =>
      s.(procs := s.procs[pid := s.procs[pid].(inflight := s.procs[pid].inflight + 1)])
    case RunRenew(pid) =>
      var p := s.procs[pid];
      s.(procs := s.procs[pid := p.(inflight := p.inflight - 1, refused := p.refused || !Fenced(s, p))])
    case HearLost(pid) =>
      s.(procs := s.procs[pid := Heard(s.procs[pid])])
    case ShutDown(pid) => s.(procs := s.procs[pid := s.procs[pid].(shutdown := true)])
    case RemoveOne(pid) =>
      s.(files := s.files - {s.procs[pid].number}, procs := s.procs[pid := s.procs[pid].(wrote := false)])
    case JobEnds(pid, outcome) => s.(procs := s.procs[pid := Decided(s.procs[pid], outcome)])
    case RemoveEnds(pid, ok) =>
      s.(files := if ok then s.files - {s.procs[pid].number} else s.files,
         procs := s.procs[pid := AfterRemoval(s.procs[pid], ok)])
    case RunCall(pid, how) =>
      var p := s.procs[pid];
      var t := if how != ThrowsBefore && Fenced(s, p) then Executed(s, p.phase.call, pid) else s;
      t.(procs := s.procs[pid := Answered(p, how, Fenced(s, p))])
    case Crash(pid) => s.(procs := s.procs[pid := s.procs[pid].(phase := Ended, crashed := true)])
  }

  predicate Legal(s: State, run: seq<Event>)
    decreases |run|
  {
    run == [] || (Enabled(s, run[0]) && Legal(Do(s, run[0]), run[1..]))
  }

  function Final(s: State, run: seq<Event>): State
    requires Legal(s, run)
    decreases |run|
  {
    if run == [] then s else Final(Do(s, run[0]), run[1..])
  }

  // ---------- one attempt by itself ----------

  /** A statement that went out: at most one; a finish only without a lost lease or a shutdown; any
    * other after the files were removed, or the removal failed. */
  predicate IssuedInv(p: Proc) {
    && |p.issued| <= 1
    && (!p.verdict.NotAsked? ==> p.issued == [p.verdict.call])
    && (p.issued != [] ==>
          && (p.lostAtIssue <==> p.lostInRemoval)
          && (p.issued[0].Finish? ==> !p.lostAtIssue && !p.shutdown)
          && (!p.issued[0].Finish? ==> p.removed || p.messy))
  }

  /** What one attempt keeps, whatever the queue and the other attempts do. */
  predicate ProcInv(p: Proc) {
    && IssuedInv(p) && (p.lostInRemoval ==> p.lost) && (p.lost ==> p.refused)
    && match p.phase
      case Working => p.issued == [] && p.verdict == NotAsked && !p.lostInRemoval && !p.removed
      case Removing(Issue(call)) =>
        p.issued == [] && p.verdict == NotAsked && (p.lost <==> p.lostInRemoval) && !call.Finish?
      case Removing(Stop) => p.issued != [] ==> p.verdict.Refused?
      case Calling(call) =>
        && p.issued == [call] && p.verdict == NotAsked
        && (call.Finish? ==> !p.removed && (call.names ==> p.wrote))
      case Ended =>
        p.crashed || p.removed || p.messy
        || ((p.verdict.Accepted? || p.verdict.Threw?) && p.verdict.call.Finish?)
  }

  predicate ProcsInv(s: State) {
    forall pid <- s.procs :: ProcInv(s.procs[pid])
  }

  function PidOf(e: Event): Option<nat> {
    match e
    case Claim(_) => None
    case Expire(_) => None
    case CancelJob => None
    case Write(pid) => Some(pid)
    case IssueRenew(pid) => Some(pid)
    case RunRenew(pid) => Some(pid)
    case HearLost(pid) => Some(pid)
    case ShutDown(pid) => Some(pid)
    case RemoveOne(pid) => Some(pid)
    case JobEnds(pid, _) => Some(pid)
    case RemoveEnds(pid, _) => Some(pid)
    case RunCall(pid, _) => Some(pid)
    case Crash(pid) => Some(pid)
  }

  lemma OthersStay(s: State, e: Event, pid: nat)
    requires Enabled(s, e) && pid in s.procs && PidOf(e) != Some(pid) && pid < s.next
    ensures pid in Do(s, e).procs && Do(s, e).procs[pid] == s.procs[pid]
  {
  }

  lemma DecidedKeeps(p: Proc, outcome: Outcome)
    requires ProcInv(p) && p.phase == Working && (outcome.Completed? && outcome.names ==> p.wrote)
    ensures ProcInv(Decided(p, outcome))
  {
  }

  lemma AfterRemovalKeeps(p: Proc, ok: bool)
    requires ProcInv(p) && p.phase.Removing?
    ensures ProcInv(AfterRemoval(p, ok))
  {
  }

  lemma HeardKeeps(p: Proc)
    requires ProcInv(p) && p.phase != Ended && p.refused
    ensures ProcInv(Heard(p))
  {
  }

  lemma AnsweredKeeps(p: Proc, how: How, ok: bool)
    requires ProcInv(p) && p.phase.Calling?
    ensures ProcInv(Answered(p, how, ok))
  {
  }

  lemma ProcKeeps(s: State, e: Event, pid: nat)
    requires Enabled(s, e) && PidOf(e) == Some(pid) && ProcInv(s.procs[pid])
    ensures pid in Do(s, e).procs && ProcInv(Do(s, e).procs[pid])
  {
    var p := s.procs[pid];
    match e
    case JobEnds(_, outcome) => DecidedKeeps(p, outcome);
    case RemoveEnds(_, ok) => AfterRemovalKeeps(p, ok);
    case HearLost(_) => HeardKeeps(p);
    case RunCall(_, how) => AnsweredKeeps(p, how, Fenced(s, p));
    case _ =>
  }
}
