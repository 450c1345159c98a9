/**
 * The outer turn (packages/ai-runtime/src/aiTurnOrchestrator.ts): the relay, the timeout and the
 * client's disconnect race, and whichever wins, the client sees one terminal event at most, the
 * subprocess side is terminated once and the cleanup runs last.
 *
 * A state machine whose steps end where the code awaits. The relay is what it offers, in order, and
 * how it settles; it may go on offering until it settles.
 */
module AiTurn {
  import opened Wrappers
  import opened AiChatRelay

  datatype Scrub = Identity | AllowList

  /** Chat sends its relay's literals as they are; the design turn rebuilds every error from a fixed
    * list. */
  function Scrubbed(scrub: Scrub, e: Event): Event {
    if scrub.AllowList? && e.ErrorEvent?
    then ErrorEvent(if e.detail.Raw? || e.detail.NotLoggedIn? then InternalError else e.detail)
    else e
  }

  datatype Drain = AwaitSettle | Detach

  /** How the relay settles: its outcome, or a throw. */
  datatype Settled = Resolves(outcome: Outcome) | Throws

  datatype Config = Config(script: seq<Event>, settles: Settled, scrub: Scrub, drain: Drain)

  datatype Winner = ByRelay | ByTimeout | ByAbort

  datatype Phase = Racing | Claimed | Terminating | Draining | Closing | Finished | Escaped

  datatype Effect = Sent(event: Event) | Terminate | Finally

  /** `cut` is how much the relay had offered when the race was decided; `failed` says that terminating
    * threw. A turn ends `Finished`, or `Escaped` when it leaves without its cleanup. */
  datatype State = State(
    offered: nat, settled: bool, timerFired: bool, aborted: bool,
    terminalSent: bool, terminated: bool,
    phase: Phase, winner: Winner, cut: nat, failed: bool, log: seq<Effect>)

  const START := State(0, false, false, false, false, false, Racing, ByRelay, 0, false, [])

  datatype Step =
    | Offer
    | Settle
    | TimerFires
    | ClientLeaves
    | Decide(winner: Winner)
    | CallTerminate
    | TerminateEnds(throws: bool)
    | Drained
    | Close

  /** The guard: nothing after a terminal event, and every event through the scrub. */
  function Guarded(s: State, scrub: Scrub, e: Event): State {
    if s.terminalSent then s
    else s.(log := s.log + [Sent(Scrubbed(scrub, e))], terminalSent := IsTerminal(Scrubbed(scrub, e)))
  }

  function CallTerminateOnce(s: State): State {
    if s.terminated then s else s.(terminated := true, log := s.log + [Terminate])
  }

  predicate Enabled(c: Config, s: State, step: Step) {
    match step
    case Offer => !s.settled && s.offered < |c.script|
    case Settle => !s.settled && s.offered == |c.script|
    case TimerFires => true
    case ClientLeaves => true
    case Decide(winner) =>
      s.phase == Racing && (match winner
                            case ByRelay => s.settled
                            case ByTimeout => s.timerFired
                            case ByAbort => s.aborted)
    case CallTerminate => s.phase == Claimed
    case TerminateEnds(_) => s.phase == Terminating
    case Drained => s.phase == Draining && s.settled
    case Close => s.phase == Closing
  }

  /** The race is decided: the timeout tells the client, a disconnect claims the terminal event without
    * sending one. */
  function Decided(c: Config, s: State, winner: Winner): State {
    var t := s.(winner := winner, cut := s.offered, phase := Claimed);
    match winner
    case ByRelay => t
    case ByTimeout => Guarded(t, c.scrub, ErrorEvent(Timeout))
    case ByAbort => t.(terminalSent := true)
  }

  /** The race itself threw, so that terminating is left to the `finally`, before the cleanup there. */
  predicate RelayThrew(c: Config, s: State) {
    s.phase != Racing && s.winner == ByRelay && c.settles.Throws?
  }

  function Do(c: Config, s: State, step: Step): State
    requires Enabled(c, s, step)
  {
    match step
    case Offer => Guarded(s.(offered := s.offered + 1), c.scrub, c.script[s.offered])
    case Settle => s.(settled := true)
    case TimerFires => s.(timerFired := true)
    case ClientLeaves => s.(aborted := true)
    case Decide(winner) => Decided(c, s, winner)
    case CallTerminate => CallTerminateOnce(s).(phase := Terminating)
    case TerminateEnds(throws) =>
      s.(failed := throws,
         phase := if RelayThrew(c, s) then (if throws then Escaped else Closing)
                  else if throws || c.drain == Detach then Closing
                  else Draining)
    case Drained => s.(phase := Closing)
    case Close =>
      var t := CallTerminateOnce(s);
      t.(log := t.log + [Finally], phase := Finished)
  }

  predicate Legal(c: Config, s: State, run: seq<Step>)
    decreases |run|
  {
    run == [] || (Enabled(c, s, run[0]) && Legal(c, Do(c, s, run[0]), run[1..]))
  }

  function Final(c: Config, s: State, run: seq<Step>): State
    requires Legal(c, s, run)
    decreases |run|
  {
    if run == [] then s else Final(c, Do(c, s, run[0]), run[1..])
  }

  // ---------- what the client should see ----------

  /** The scrubbed events up to and including the first terminal one. */
  function Shown(scrub: Scrub, script: seq<Event>): (shown: seq<Event>)
    ensures |shown| <= |script|
  {
    if script == [] then []
    else
      var before := Shown(scrub, script[..|script| - 1]);
      if Ends(before) then before else before + [Scrubbed(scrub, script[|script| - 1])]
  }

  predicate Ends(events: seq<Event>) {
    events != [] && IsTerminal(events[|events| - 1])
  }

  /** What is shown of the script by the time the race was decided, and the timeout if it was needed. */
  function SeenBy(c: Config, racing: bool, winner: Winner, offered: nat, cut: nat): seq<Event>
    requires cut <= |c.script| && offered <= |c.script|
  {
    if racing then Shown(c.scrub, c.script[..offered])
    else
      var shown := Shown(c.scrub, c.script[..cut]);
      if winner == ByTimeout && !Ends(shown) then shown + [ErrorEvent(Timeout)] else shown
  }

  function Seen(c: Config, s: State): seq<Event>
    requires s.cut <= |c.script| && s.offered <= |c.script|
  {
    SeenBy(c, s.phase == Racing, s.winner, s.offered, s.cut)
  }

  function Sends(events: seq<Event>): seq<Effect> {
    if events == [] then [] else Sends(events[..|events| - 1]) + [Sent(events[|events| - 1])]
  }

  /** The whole log, phase by phase. */
  function LogBy(sends: seq<Effect>, phase: Phase): seq<Effect> {
    match phase
    case Racing => sends
    case Claimed => sends
    case Finished => sends + [Terminate, Finally]
    case _ => sends + [Terminate]
  }

  // ---------- the invariant ----------

  predicate PhaseInv(c: Config, s: State) {
    && s.offered <= |c.script| && s.cut <= s.offered
    && (s.settled ==> s.offered == |c.script|)
    && s.terminated == !(s.phase == Racing || s.phase == Claimed)
    && (s.failed ==> !(s.phase == Racing || s.phase == Claimed || s.phase == Terminating))
    && (s.phase == Escaped <==> RelayThrew(c, s) && s.failed)
    && (s.phase != Racing && s.winner == ByRelay ==> s.settled && s.cut == |c.script|)
  }

  /** The guard's flag and the log say the same. */
  predicate LogInv(seen: seq<Event>, s: State) {
    && s.terminalSent == ((s.phase != Racing && s.winner == ByAbort) || Ends(seen))
    && s.log == LogBy(Sends(seen), s.phase)
  }

  predicate Inv(c: Config, s: State) {
    PhaseInv(c, s) && LogInv(Seen(c, s), s)
  }

  lemma OneMoreShown(scrub: Scrub, script: seq<Event>, n: nat)
    requires n < |script|
    ensures var before := Shown(scrub, script[..n]);
      Shown(scrub, script[..n + 1]) == if Ends(before) then before else before + [Scrubbed(scrub, script[n])]
  {
    assert script[..n + 1][..n] == script[..n];
  }

  lemma OneMoreSent(events: seq<Event>, e: Event)
    ensures Sends(events + [e]) == Sends(events) + [Sent(e)]
  {
    assert (events + [e])[..|events|] == events;
  }

  lemma OneMoreEnds(events: seq<Event>, e: Event)
    ensures Ends(events + [e]) == IsTerminal(e)
  {
    assert (events + [e])[|events|] == e;
  }

  /** The guard, seen from the log: what it sends is one more event seen. */
  lemma GuardedKeepsLog(seen: seq<Event>, s: State, scrub: Scrub, e: Event)
    requires LogInv(seen, s) && (s.phase == Racing || (s.phase == Claimed && s.winner != ByAbort))
    ensures LogInv(if Ends(seen) then seen else seen + [Scrubbed(scrub, e)], Guarded(s, scrub, e))
  {
    OneMoreSent(seen, Scrubbed(scrub, e));
    OneMoreEnds(seen, Scrubbed(scrub, e));
  }

  lemma OfferInRaceKeeps(c: Config, s: State)
    requires Inv(c, s) && Enabled(c, s, Offer) && s.phase == Racing
    ensures Inv(c, Do(c, s, Offer))
  {
    var u := s.(offered := s.offered + 1);
    OneMoreShown(c.scrub, c.script, s.offered);
    GuardedKeepsLog(Seen(c, s), u, c.scrub, c.script[s.offered]);
  }

  /** Once the race is decided, the terminal event is claimed and a late relay is not heard. */
  lemma LateOfferKeeps(c: Config, s: State)
    requires Inv(c, s) && Enabled(c, s, Offer) && s.phase != Racing
    ensures s.terminalSent && Inv(c, Do(c, s, Offer))
  {
    assert s.winner != ByRelay;
    if s.winner == ByTimeout { OneMoreEnds(Shown(c.scrub, c.script[..s.cut]), ErrorEvent(Timeout)); }
    assert Seen(c, Do(c, s, Offer)) == Seen(c, s);
  }

  lemma DecideKeeps(c: Config, s: State, winner: Winner)
    requires Inv(c, s) && Enabled(c, s, Decide(winner))
    ensures Inv(c, Do(c, s, Decide(winner)))
  {
    var u := s.(winner := winner, cut := s.offered, phase := Claimed);
    if winner == ByTimeout { GuardedKeepsLog(Seen(c, s), u, c.scrub, ErrorEvent(Timeout)); }
  }

  lemma TailGrows(sends: seq<Effect>)
    ensures (sends + [Terminate]) + [Finally] == sends + [Terminate, Finally]
  {
  }

  lemma CloseKeeps(c: Config, s: State)
    requires Inv(c, s) && Enabled(c, s, Close)
    ensures Inv(c, Do(c, s, Close))
  {
    assert Seen(c, Do(c, s, Close)) == Seen(c, s);
    TailGrows(Sends(Seen(c, s)));
  }

  lemma TerminateKeeps(c: Config, s: State, step: Step)
    requires Inv(c, s) && Enabled(c, s, step) && (step.CallTerminate? || step.TerminateEnds? || step.Drained?)
    ensures Inv(c, Do(c, s, step))
  {
    assert Seen(c, Do(c, s, step)) == Seen(c, s);
  }

  lemma SignalKeeps(c: Config, s: State, step: Step)
    requires Inv(c, s) && Enabled(c, s, step) && (step.Settle? || step.TimerFires? || step.ClientLeaves?)
    ensures Inv(c, Do(c, s, step))
  {
    assert Seen(c, Do(c, s, step)) == Seen(c, s);
  }

  lemma StepKeeps(c: Config, s: State, step: Step)
    requires Inv(c, s) && Enabled(c, s, step)
    ensures Inv(c, Do(c, s, step))
  {
    if step.Offer? && s.phase == Racing { OfferInRaceKeeps(c, s); }
    else if step.Offer? { LateOfferKeeps(c, s); }
    else if step.Decide? { DecideKeeps(c, s, step.winner); }
    else if step.Close? { CloseKeeps(c, s); }
    else if step.Settle? || step.TimerFires? || step.ClientLeaves? { SignalKeeps(c, s, step); }
    else { TerminateKeeps(c, s, step); }
  }

  lemma {:induction false} RunKeeps(c: Config, s: State, run: seq<Step>)
    requires Inv(c, s) && Legal(c, s, run)
    ensures Inv(c, Final(c, s, run))
    decreases |run|
  {
    if run != [] {
      StepKeeps(c, s, run[0]);
      RunKeeps(c, Do(c, s, run[0]), run[1..]);
    }
  }

  // ---------- the main results ----------

  predicate IsEnd(e: Effect) {
    e.Sent? && IsTerminal(e.event)
  }

  lemma {:induction false} SendsAt(events: seq<Event>)
    ensures |Sends(events)| == |events|
    ensures forall i :: 0 <= i < |events| ==> Sends(events)[i] == Sent(events[i])
  {
    if events != [] {
      SendsAt(events[..|events| - 1]);
    }
  }

  /** Only the last event can be a terminal one. */
  predicate EndsLast(events: seq<Event>) {
    forall i :: 0 <= i < |events| - 1 ==> !IsTerminal(events[i])
  }

  lemma OneMoreEndsLast(events: seq<Event>, e: Event)
    requires EndsLast(events) && !Ends(events)
    ensures EndsLast(events + [e])
  {
    forall i | 0 <= i < |events| ensures !IsTerminal((events + [e])[i]) {
      assert i == |events| - 1 || i < |events| - 1;
    }
  }

  lemma {:induction false} ShownEndsLast(scrub: Scrub, script: seq<Event>)
    ensures EndsLast(Shown(scrub, script))
  {
    if script != [] {
      var before := Shown(scrub, script[..|script| - 1]);
      ShownEndsLast(scrub, script[..|script| - 1]);
      if !Ends(before) { OneMoreEndsLast(before, Scrubbed(scrub, script[|script| - 1])); }
    }
  }

  lemma SeenEndsLast(c: Config, s: State)
    requires s.cut <= |c.script| && s.offered <= |c.script|
    ensures EndsLast(Seen(c, s))
  {
    ShownEndsLast(c.scrub, c.script[..s.offered]);
    ShownEndsLast(c.scrub, c.script[..s.cut]);
    var shown := Shown(c.scrub, c.script[..s.cut]);
    if !Ends(shown) { OneMoreEndsLast(shown, ErrorEvent(Timeout)); }
  }

  /** At every moment of every run, at most one terminal event has been sent, and nothing after it. */
  lemma NothingAfterTheEnd(c: Config, run: seq<Step>, i: nat, j: nat)
    requires Legal(c, START, run) && i < j < |Final(c, START, run).log|
    requires IsEnd(Final(c, START, run).log[i])
    ensures !Final(c, START, run).log[j].Sent?
  {
    RunKeeps(c, START, run);
    var s := Final(c, START, run);
    SeenEndsLast(c, s);
    SendsAt(Seen(c, s));
  }

  lemma LogWhenFinished(c: Config, s: State)
    requires Inv(c, s) && s.phase == Finished
    ensures s.log == Sends(Seen(c, s)) + [Terminate, Finally]
  {
  }

  /** A turn that has ended sent what it sent, then terminated the subprocess side once, then ran its
    * cleanup once, in that order and with nothing in between. */
  lemma FinishedInOrder(c: Config, run: seq<Step>)
    requires Legal(c, START, run) && Final(c, START, run).phase == Finished
    ensures var s := Final(c, START, run);
      s.cut <= |c.script| && s.offered <= |c.script| && s.log == Sends(Seen(c, s)) + [Terminate, Finally]
  {
    RunKeeps(c, START, run);
    LogWhenFinished(c, Final(c, START, run));
  }

  /** The cleanup is skipped on exactly one way out: the relay threw, and so did terminating, which is
    * then called inside the same `finally`. */
  lemma CleanupSkippedExactly(c: Config, run: seq<Step>)
    requires Legal(c, START, run)
    requires Final(c, START, run).phase == Finished || Final(c, START, run).phase == Escaped
    ensures var s := Final(c, START, run);
      Finally !in s.log <==> c.settles.Throws? && s.winner == ByRelay && s.failed
  {
    RunKeeps(c, START, run);
    var s := Final(c, START, run);
    SendsAt(Seen(c, s));
    if s.phase == Finished { assert s.log[|s.log| - 1] == Finally; }
  }

  /** That way out exists. */
  lemma CleanupCanBeSkipped() returns (c: Config, run: seq<Step>)
    ensures Legal(c, START, run) && Final(c, START, run).phase == Escaped
  {
    c := Config([], Throws, AllowList, Detach);
    run := [Settle, Decide(ByRelay), CallTerminate, TerminateEnds(true)];
    var s1 := Do(c, START, run[0]);
    var s2 := Do(c, s1, run[1]);
    var s3 := Do(c, s2, run[2]);
    var s4 := Do(c, s3, run[3]);
    assert run[1..][1..] == run[2..] && run[2..][1..] == run[3..] && run[3..][1..] == [];
    assert Legal(c, s4, []) && Final(c, s4, []) == s4;
    assert Legal(c, s3, run[3..]) && Final(c, s3, run[3..]) == s4;
    assert Legal(c, s2, run[2..]) && Final(c, s2, run[2..]) == s4;
    assert Legal(c, s1, run[1..]) && Final(c, s1, run[1..]) == s4;
  }

  predicate Fixed(e: Event) {
    e.ErrorEvent? ==> !e.detail.Raw? && !e.detail.NotLoggedIn? && e.more == ""
  }

  predicate AllFixed(events: seq<Event>) {
    forall i :: 0 <= i < |events| ==> Fixed(events[i])
  }

  lemma {:induction false} ShownIsFixed(script: seq<Event>)
    ensures AllFixed(Shown(AllowList, script))
  {
    if script != [] {
      ShownIsFixed(script[..|script| - 1]);
    }
  }

  lemma SeenIsFixed(c: Config, s: State)
    requires c.scrub == AllowList && s.cut <= |c.script| && s.offered <= |c.script|
    ensures AllFixed(Seen(c, s))
  {
    ShownIsFixed(c.script[..s.offered]);
    ShownIsFixed(c.script[..s.cut]);
  }

  /** Through the allow-list no error data but one of the fixed details reaches the client, whatever the relay
    * offers. */
  lemma AllowListHolds(c: Config, run: seq<Step>, i: nat)
    requires Legal(c, START, run) && c.scrub == AllowList
    requires i < |Final(c, START, run).log| && Final(c, START, run).log[i].Sent?
    ensures Fixed(Final(c, START, run).log[i].event)
  {
    RunKeeps(c, START, run);
    var s := Final(c, START, run);
    SeenIsFixed(c, s);
    SendsAt(Seen(c, s));
  }

  /** What the client is shown in place of an event: the event itself, but through the allow-list an error
    * as one of the fixed details alone, and any other detail as an internal error. */
  predicate ShownAs(scrub: Scrub, offered: Event, shown: Event) {
    match offered
    case ErrorEvent(detail, more) =>
      if scrub == Identity then shown == offered
      else if detail == UpstreamFailed || detail == InternalError || detail == Timeout || detail == Aborted
      then shown == ErrorEvent(detail, "")
      else shown == ErrorEvent(InternalError, "")
    case _ => shown == offered
  }

  lemma ScrubExactly(scrub: Scrub, offered: Event, shown: Event)
    ensures shown == Scrubbed(scrub, offered) <==> ShownAs(scrub, offered, shown)
    ensures IsTerminal(Scrubbed(scrub, offered)) <==> offered.DoneEvent? || offered.ErrorEvent?
  {
  }

  /** The client is shown the events in order up to the first done or error, each as it may be shown. */
  predicate ShownUpToEnd(scrub: Scrub, script: seq<Event>, shown: seq<Event>) {
    && |shown| <= |script| && (forall k :: 0 <= k < |shown| ==> ShownAs(scrub, script[k], shown[k]))
    && (forall k :: 0 <= k < |shown| - 1 ==> !script[k].DoneEvent? && !script[k].ErrorEvent?)
    && (|shown| < |script| ==> |shown| > 0 && (script[|shown| - 1].DoneEvent? || script[|shown| - 1].ErrorEvent?))
  }

  predicate HasEnd(script: seq<Event>) { exists k :: 0 <= k < |script| && EndAt(script, k) }

  predicate EndAt(script: seq<Event>, k: nat)
    requires k < |script|
  {
    script[k].DoneEvent? || script[k].ErrorEvent?
  }

  lemma NotShownAfterEnd(scrub: Scrub, front: seq<Event>, e: Event, shown: seq<Event>)
    requires ShownUpToEnd(scrub, front, shown) && shown != [] && EndAt(front, |shown| - 1)
    ensures ShownUpToEnd(scrub, front + [e], shown) && HasEnd(front + [e])
  {
    assert (front + [e])[|shown| - 1] == front[|shown| - 1];
    assert EndAt(front + [e], |shown| - 1);
  }

  lemma CutShortEnds(scrub: Scrub, front: seq<Event>, shown: seq<Event>)
    requires ShownUpToEnd(scrub, front, shown)
    ensures |shown| < |front| ==> HasEnd(front)
  {
    if |shown| < |front| {
      assert EndAt(front, |shown| - 1);
    }
  }

  lemma LongerHasEnd(front: seq<Event>, e: Event)
    ensures HasEnd(front + [e]) <==> HasEnd(front) || e.DoneEvent? || e.ErrorEvent?
  {
    if HasEnd(front) {
      var k :| 0 <= k < |front| && EndAt(front, k);
      assert EndAt(front + [e], k);
    }
    if e.DoneEvent? || e.ErrorEvent? {
      assert EndAt(front + [e], |front|);
    }
    if HasEnd(front + [e]) {
      var k :| 0 <= k < |front + [e]| && EndAt(front + [e], k);
      if k < |front| {
        assert EndAt(front, k);
      }
    }
  }

  lemma ShownNext(scrub: Scrub, front: seq<Event>, e: Event, shown: seq<Event>)
    requires ShownUpToEnd(scrub, front, shown) && !HasEnd(front)
    ensures ShownUpToEnd(scrub, front + [e], shown + [Scrubbed(scrub, e)])
  {
    ScrubExactly(scrub, e, Scrubbed(scrub, e));
    CutShortEnds(scrub, front, shown);
    forall k | 0 <= k < |front| ensures !(front + [e])[k].DoneEvent? && !(front + [e])[k].ErrorEvent? {
      assert !EndAt(front, k);
    }
  }

  lemma {:induction false} ShownExactly(scrub: Scrub, script: seq<Event>)
    ensures ShownUpToEnd(scrub, script, Shown(scrub, script))
    ensures Ends(Shown(scrub, script)) <==> HasEnd(script)
  {
    if script != [] {
      var front, e := script[..|script| - 1], script[|script| - 1];
      var before := Shown(scrub, front);
      assert script == front + [e];
      ShownExactly(scrub, front);
      if Ends(before) {
        ScrubExactly(scrub, front[|before| - 1], before[|before| - 1]);
        NotShownAfterEnd(scrub, front, e, before);
      } else {
        ShownNext(scrub, front, e, before);
        LongerHasEnd(front, e);
        ScrubExactly(scrub, e, Scrubbed(scrub, e));
        OneMoreEnds(before, Scrubbed(scrub, e));
      }
    }
  }

  /** What a turn that ended has told its client, whatever the relay offered and whoever won: the relay's
    * events up to the first done or error of those that came before the race was decided, each as it may be
    * shown, then the timeout if that won and the client had not been told the end. */
  lemma TurnClientSees(c: Config, run: seq<Step>) returns (shown: seq<Event>)
    requires Legal(c, START, run) && Final(c, START, run).phase == Finished
    ensures var s := Final(c, START, run);
      && s.cut <= |c.script| && (s.winner == ByRelay ==> s.cut == |c.script|)
      && ShownUpToEnd(c.scrub, c.script[..s.cut], shown)
      && (if s.winner == ByTimeout && !HasEnd(c.script[..s.cut])
          then s.log == Sends(shown + [ErrorEvent(Timeout, "")]) + [Terminate, Finally]
          else s.log == Sends(shown) + [Terminate, Finally])
  {
    RunKeeps(c, START, run);
    var s := Final(c, START, run);
    LogWhenFinished(c, s);
    shown := Shown(c.scrub, c.script[..s.cut]);
    ShownExactly(c.scrub, c.script[..s.cut]);
  }

  // ---------- the chat turn ----------

  /** A chat turn over what its child writes: errors as they are, and the relay awaited. */
  function Chat(lines: seq<Line>, end: End): Config {
    Config(Script(lines, end), Resolves(OutcomeOf(lines, end)), Identity, AwaitSettle)
  }

  /** What the turn answers: nothing, when it ends by an exception. */
  function Answer(c: Config, s: State): Option<Outcome>
    requires s.winner == ByRelay ==> c.settles.Resolves?
  {
    if s.failed then None
    else match s.winner
      case ByRelay => Some(c.settles.outcome)
      case ByTimeout => Some(Refused(Timeout))
      case ByAbort => Some(Refused(Aborted))
  }

  /** The answer names who won: the relay's own outcome, a timeout, or an abort; and a turn that ended by an
    * exception, because terminating threw, has none. */
  lemma AnswerExactly(lines: seq<Line>, end: End, s: State)
    ensures var answer := Answer(Chat(lines, end), s);
      && (answer == None <==> s.failed)
      && (!s.failed && s.winner == ByRelay ==> answer == Some(OutcomeOf(lines, end)))
      && (!s.failed && s.winner == ByTimeout ==> answer == Some(Refused(Timeout)))
      && (!s.failed && s.winner == ByAbort ==> answer == Some(Refused(Aborted)))
  {
  }

  /** A script whose only terminal event is its last is shown whole. */
  lemma {:induction false} ShownWhole(script: seq<Event>)
    requires forall i :: 0 <= i < |script| - 1 ==> !IsTerminal(script[i])
    ensures Shown(Identity, script) == script
  {
    if script != [] {
      var last := |script| - 1;
      ShownWhole(script[..last]);
      assert script == script[..last] + [script[last]];
    }
  }

  /** What the relay wrote until the race was decided, and the timeout when it won over an unfinished
    * relay. */
  function ChatSeen(script: seq<Event>, winner: Winner, cut: nat): seq<Event>
    requires cut <= |script|
  {
    if winner == ByTimeout && cut < |script| then script[..cut] + [ErrorEvent(Timeout)] else script[..cut]
  }

  lemma ChatSeenIsSeen(lines: seq<Line>, end: End, s: State)
    requires s.phase != Racing && s.cut <= s.offered <= |Script(lines, end)|
    ensures Seen(Chat(lines, end), s) == ChatSeen(Script(lines, end), s.winner, s.cut)
  {
    var script := Script(lines, end);
    ScriptEndsOnce(lines, end);
    ShownWhole(script[..s.cut]);
    assert Ends(script[..s.cut]) <==> s.cut == |script|;
  }

  /** What the client of a chat turn saw when the turn ended: all the relay wrote when the relay won. */
  lemma ChatClientSees(lines: seq<Line>, end: End, run: seq<Step>)
    requires Legal(Chat(lines, end), START, run) && Final(Chat(lines, end), START, run).phase == Finished
    ensures var s, script := Final(Chat(lines, end), START, run), Script(lines, end);
      && s.cut <= |script| && (s.winner == ByRelay ==> s.cut == |script|)
      && s.log == Sends(ChatSeen(script, s.winner, s.cut)) + [Terminate, Finally]
  {
    RunKeeps(Chat(lines, end), START, run);
    ChatSeenIsSeen(lines, end, Final(Chat(lines, end), START, run));
  }

  /** A chat turn that ended told its client how exactly once, unless the client had left before the
    * relay was done: then not at all. */
  lemma ChatEndsOnce(lines: seq<Line>, end: End, run: seq<Step>)
    requires Legal(Chat(lines, end), START, run) && Final(Chat(lines, end), START, run).phase == Finished
    ensures var s := Final(Chat(lines, end), START, run);
      (exists i :: 0 <= i < |s.log| && IsEnd(s.log[i])) <==> !(s.winner == ByAbort && s.cut < |Script(lines, end)|)
  {
    var s, script := Final(Chat(lines, end), START, run), Script(lines, end);
    ChatClientSees(lines, end, run);
    ScriptEndsOnce(lines, end);
    var events := ChatSeen(script, s.winner, s.cut);
    SendsAt(events);
    if s.winner == ByAbort && s.cut < |script| {
      assert events == script[..s.cut];
    } else {
      assert IsEnd(s.log[|events| - 1]);
    }
  }

  /** The turn's answer is the one its client was told exactly when the relay won, or the timeout won
    * over an unfinished relay: a timeout or disconnect after the last event, while the child is still
    * to exit, answers otherwise than the client saw. */
  lemma ChatAnswersAsTold(lines: seq<Line>, end: End, run: seq<Step>)
    requires Legal(Chat(lines, end), START, run) && Final(Chat(lines, end), START, run).phase == Finished
    requires !Final(Chat(lines, end), START, run).failed
    ensures var s := Final(Chat(lines, end), START, run);
      (exists i :: 0 <= i < |s.log| && s.log[i] == Sent(TerminalOf(Answer(Chat(lines, end), s).value)))
      <==> (s.winner == ByRelay || (s.winner == ByTimeout && s.cut < |Script(lines, end)|))
  {
    var c := Chat(lines, end);
    var s, script := Final(c, START, run), Script(lines, end);
    ChatClientSees(lines, end, run);
    ScriptEndsOnce(lines, end);
    var events := ChatSeen(script, s.winner, s.cut);
    SendsAt(events);
    NeverTimeoutOrAborted(lines, end);
    if s.winner == ByRelay || (s.winner == ByTimeout && s.cut < |script|) {
      assert s.log[|events| - 1] == Sent(events[|events| - 1]);
    }
  }

  /** Every chat turn can run to its end, with the relay's own outcome as its answer. */
  lemma ChatCanFinish(lines: seq<Line>, end: End) returns (run: seq<Step>)
    ensures var c := Chat(lines, end);
      && Legal(c, START, run) && Final(c, START, run).phase == Finished
      && Answer(c, Final(c, START, run)) == Some(OutcomeOf(lines, end))
  {
    run := OfferAll(Chat(lines, end), START, false);
  }

  /** And every chat turn whose result line has come, and was told, can still answer otherwise: the timer
    * fires while the child is to exit, and the answer is a timeout that the client was never told. */
  lemma ChatCanAnswerOtherwise(lines: seq<Line>, end: End) returns (run: seq<Step>)
    requires FirstResult(lines) < |lines|
    ensures Legal(Chat(lines, end), START, run) && Final(Chat(lines, end), START, run).phase == Finished
    ensures var s := Final(Chat(lines, end), START, run);
      && Answer(Chat(lines, end), s) == Some(Refused(Timeout)) && OutcomeOf(lines, end) != Refused(Timeout)
      && s.log == Sends(Script(lines, end)) + [Terminate, Finally]
      && Sent(TerminalOf(OutcomeOf(lines, end))) in s.log && Sent(ErrorEvent(Timeout)) !in s.log
  {
    var c, script := Chat(lines, end), Script(lines, end);
    run := OfferAll(c, START, true);
    ChatClientSees(lines, end, run);
    NeverTimeoutOrAborted(lines, end);
    ScriptEndsOnce(lines, end);
    assert ChatSeen(script, ByTimeout, |script|) == script;
    SendsAt(script);
    assert Final(c, START, run).log[|script| - 1] == Sent(TerminalOf(OutcomeOf(lines, end)));
  }

  /** Offering what is left, and then ending by the relay, or by a timeout that comes before it settles. */
  lemma {:induction false} OfferAll(c: Config, s: State, late: bool) returns (run: seq<Step>)
    requires c.settles.Resolves? && c.drain == AwaitSettle
    requires !s.settled && s.offered <= |c.script| && s.phase == Racing
    ensures Legal(c, s, run) && EndedBy(c, Final(c, s, run), if late then ByTimeout else ByRelay)
    decreases |c.script| - s.offered
  {
    if s.offered < |c.script| {
      var rest := OfferAll(c, Do(c, s, Offer), late);
      run := StepBefore(c, s, Offer, rest);
    } else if late {
      run := EndByTimeout(c, s);
    } else {
      run := EndByRelay(c, s);
    }
  }

  /** The turn ended well, and the race was decided once everything was offered. */
  predicate EndedBy(c: Config, s: State, winner: Winner) {
    s.phase == Finished && s.winner == winner && s.cut == |c.script| && !s.failed
  }

  lemma EndByRelay(c: Config, s: State) returns (run: seq<Step>)
    requires c.settles.Resolves? && c.drain == AwaitSettle
    requires !s.settled && s.offered == |c.script| && s.phase == Racing
    ensures Legal(c, s, run) && EndedBy(c, Final(c, s, run), ByRelay)
  {
    var s1 := Do(c, s, Settle);
    var s2 := Do(c, s1, Decide(ByRelay));
    var s3 := Do(c, s2, CallTerminate);
    var s4 := Do(c, s3, TerminateEnds(false));
    run := EndDrained(c, s4);
    run := StepBefore(c, s3, TerminateEnds(false), run);
    run := StepBefore(c, s2, CallTerminate, run);
    run := StepBefore(c, s1, Decide(ByRelay), run);
    run := StepBefore(c, s, Settle, run);
  }

  lemma EndByTimeout(c: Config, s: State) returns (run: seq<Step>)
    requires c.settles.Resolves? && c.drain == AwaitSettle
    requires !s.settled && s.offered == |c.script| && s.phase == Racing
    ensures Legal(c, s, run) && EndedBy(c, Final(c, s, run), ByTimeout)
  {
    var s1 := Do(c, s, TimerFires);
    var s2 := Do(c, s1, Decide(ByTimeout));
    var s3 := Do(c, s2, CallTerminate);
    var s4 := Do(c, s3, TerminateEnds(false));
    var s5 := Do(c, s4, Settle);
    run := EndDrained(c, s5);
    run := StepBefore(c, s4, Settle, run);
    run := StepBefore(c, s3, TerminateEnds(false), run);
    run := StepBefore(c, s2, CallTerminate, run);
    run := StepBefore(c, s1, Decide(ByTimeout), run);
    run := StepBefore(c, s, TimerFires, run);
  }

  lemma EndDrained(c: Config, s: State) returns (run: seq<Step>)
    requires s.phase == Draining && s.settled && !s.failed
    ensures Legal(c, s, run)
    ensures Final(c, s, run) == Do(c, s.(phase := Closing), Close) && Final(c, s, run).phase == Finished
    ensures Final(c, s, run).winner == s.winner && Final(c, s, run).cut == s.cut && !Final(c, s, run).failed
  {
    var s1 := Do(c, s, Drained);
    var s2 := Do(c, s1, Close);
    run := [Close];
    assert run[1..] == [] && Legal(c, s2, []) && Final(c, s2, []) == s2;
    run := StepBefore(c, s, Drained, run);
  }

  lemma StepBefore(c: Config, s: State, step: Step, rest: seq<Step>) returns (run: seq<Step>)
    requires Enabled(c, s, step) && Legal(c, Do(c, s, step), rest)
    ensures Legal(c, s, run) && Final(c, s, run) == Final(c, Do(c, s, step), rest)
  {
    run := [step] + rest;
    assert run[1..] == rest;
  }

  lemma NeverTimeoutOrAborted(lines: seq<Line>, end: End)
    ensures TerminalOf(OutcomeOf(lines, end)) != ErrorEvent(Timeout)
    ensures TerminalOf(OutcomeOf(lines, end)) != ErrorEvent(Aborted)
  {
  }

  // ---------- leaving early, and waiting for the relay ----------

  /** Past the drain, a relay that is awaited has settled. */
  predicate Awaited(c: Config, s: State) {
    c.drain == AwaitSettle && (s.phase == Closing || s.phase == Finished) && !s.failed
    ==> s.settled
  }

  lemma StepKeepsAwaited(c: Config, s: State, step: Step)
    requires Inv(c, s) && Awaited(c, s) && Enabled(c, s, step)
    ensures Awaited(c, Do(c, s, step))
  {
  }

  lemma {:induction false} RunKeepsAwaited(c: Config, s: State, run: seq<Step>)
    requires Inv(c, s) && Awaited(c, s) && Legal(c, s, run)
    ensures Awaited(c, Final(c, s, run))
    decreases |run|
  {
    if run != [] {
      StepKeepsAwaited(c, s, run[0]);
      StepKeeps(c, s, run[0]);
      RunKeepsAwaited(c, Do(c, s, run[0]), run[1..]);
    }
  }

  /** A turn that awaits its relay is not over before the relay is, unless terminating threw. */
  lemma RelayIsAwaited(c: Config, run: seq<Step>)
    requires Legal(c, START, run) && Final(c, START, run).phase == Finished
    requires c.drain == AwaitSettle && !Final(c, START, run).failed
    ensures Final(c, START, run).settled
  {
    RunKeepsAwaited(c, START, run);
  }

  /** Once the end is claimed, the relay goes on unheard until it settles, and the turn ends. */
  lemma {:induction false} EndsUnheard(c: Config, s: State) returns (run: seq<Step>)
    requires s.phase == Draining && !s.settled && s.terminalSent && s.terminated && !s.failed && s.offered <= |c.script|
    ensures Legal(c, s, run)
    ensures var t := Final(c, s, run);
      t.phase == Finished && t.winner == s.winner && !t.failed && t.log == s.log + [Finally]
    decreases |c.script| - s.offered
  {
    if s.offered < |c.script| {
      var rest := EndsUnheard(c, Do(c, s, Offer));
      run := StepBefore(c, s, Offer, rest);
    } else {
      var rest := EndDrained(c, Do(c, s, Settle));
      run := StepBefore(c, s, Settle, rest);
    }
  }

  lemma EarlyEnds(c: Config, s: State) returns (run: seq<Step>)
    requires c.drain == AwaitSettle && s.phase == Claimed && s.winner != ByRelay
    requires !s.settled && s.terminalSent && !s.terminated && !s.failed && s.offered <= |c.script|
    ensures Legal(c, s, run)
    ensures var t := Final(c, s, run);
      t.phase == Finished && t.winner == s.winner && !t.failed && t.log == s.log + [Terminate] + [Finally]
  {
    var s1 := Do(c, s, CallTerminate);
    var s2 := Do(c, s1, TerminateEnds(false));
    var rest := EndsUnheard(c, s2);
    rest := StepBefore(c, s1, TerminateEnds(false), rest);
    run := StepBefore(c, s, CallTerminate, rest);
  }

  /** A client may leave a chat turn before it hears anything: then it is told nothing, and the answer is an
    * abort. */
  lemma ClientCanLeave(lines: seq<Line>, end: End) returns (run: seq<Step>)
    ensures var c := Chat(lines, end);
      && Legal(c, START, run) && Final(c, START, run).phase == Finished
      && Final(c, START, run).log == [Terminate, Finally]
      && Answer(c, Final(c, START, run)) == Some(Refused(Aborted))
  {
    var c := Chat(lines, end);
    var s1 := Do(c, START, ClientLeaves);
    var s2 := Do(c, s1, Decide(ByAbort));
    var rest := EarlyEnds(c, s2);
    assert s2.log + [Terminate] + [Finally] == [Terminate, Finally];
    rest := StepBefore(c, s1, Decide(ByAbort), rest);
    run := StepBefore(c, START, ClientLeaves, rest);
  }

  /** The timer may fire before the relay has said anything: then the client is told the timeout alone. */
  lemma TimerCanFire(lines: seq<Line>, end: End) returns (run: seq<Step>)
    ensures var c := Chat(lines, end);
      && Legal(c, START, run) && Final(c, START, run).phase == Finished
      && Final(c, START, run).log == [Sent(ErrorEvent(Timeout, "")), Terminate, Finally]
      && Answer(c, Final(c, START, run)) == Some(Refused(Timeout))
  {
    var c := Chat(lines, end);
    var s1 := Do(c, START, TimerFires);
    var s2 := Do(c, s1, Decide(ByTimeout));
    var rest := EarlyEnds(c, s2);
    assert s2.log + [Terminate] + [Finally] == [Sent(ErrorEvent(Timeout, "")), Terminate, Finally];
    rest := StepBefore(c, s1, Decide(ByTimeout), rest);
    run := StepBefore(c, START, TimerFires, rest);
  }
}
