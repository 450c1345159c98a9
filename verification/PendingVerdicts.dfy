/**
 * What becomes of a question and of an answer (packages/ai-runtime/src/aiV2PendingQuestions.ts): a fitting
 * answer to a row that is there is accepted, a question is denied only when its turn ended or its row was
 * lost, and a lost row is denied by the next tick.
 */
module PendingVerdicts {
  import opened Wrappers
  import opened PendingQuestions
  import opened PendingInvariants
  import opened PendingTheorems

  // ----- what a call does with the row it read -----

  /** A call that has read a row goes on to swap exactly when the row is still pending, was recorded for this
    * very user, and asks as many questions as there are answers; else it answers that there is none. */
  lemma SwapsExactly(s: State, c: nat)
    requires AnswerEnabled(s, AnswerResume(c)) && s.calls[c].phase.Asked?
    ensures var call, t := s.calls[c], Do(s, Answering(AnswerResume(c)));
      && t == s.(calls := t.calls) && c in t.calls
      && match call.phase.reply
         case Some(row) =>
           t.calls[c].phase == if row.answers == None && row.principal == Some(call.answerer)
                                  && row.count == |call.answers|
                               then Swapping(row) else NotFound
         case None => t.calls[c].phase == NotFound
  {
  }

  predicate HasSwapped(phase: CallPhase) { phase == Swapped(true) || phase == Accepted || phase == Rejected }

  /** The calls whose swap took effect know it, unless the swap threw. */
  ghost predicate BackOk(swaps: map<Key, Swap>, calls: map<nat, Call>) {
    forall k :: k in swaps ==> swaps[k].call in calls && HasSwapped(calls[swaps[k].call].phase)
  }

  lemma AnswerKeepsBack(s: State, step: AnswerStep)
    requires BackOk(s.swaps, s.calls) && AnswerEnabled(s, step)
    ensures BackOk(DoAnswer(s, step).swaps, DoAnswer(s, step).calls)
  {
  }

  lemma RegisterCallsFrame(s: State, step: RegisterStep)
    requires RegisterEnabled(s, step)
    ensures DoRegister(s, step).swaps == s.swaps && DoRegister(s, step).calls == s.calls
  {
  }

  lemma TickCallsFrame(s: State, step: TickStep)
    requires TickEnabled(s, step)
    ensures DoTick(s, step).swaps == s.swaps && DoTick(s, step).calls == s.calls
  {
  }

  lemma CallsFrame(s: State, step: Step)
    requires Enabled(s, step) && !step.Answering?
    ensures Do(s, step).swaps == s.swaps && Do(s, step).calls == s.calls
  {
    if step.Registering? { RegisterCallsFrame(s, step.register); }
    else if step.Polling? { TickCallsFrame(s, step.poll); }
    else { StoreCallsFrame(s, step.store); }
  }

  lemma StoreCallsFrame(s: State, step: StoreStep)
    ensures DoStore(s, step).swaps == s.swaps && DoStore(s, step).calls == s.calls
  {
  }

  lemma {:induction false} BackKeepsRun(s: State, steps: seq<Step>)
    requires Inv(s) && BackOk(s.swaps, s.calls) && Legal(s, steps)
    ensures BackOk(Final(s, steps).swaps, Final(s, steps).calls)
    decreases |steps|
  {
    if steps != [] {
      StepKeeps(s, steps[0]);
      if steps[0].Answering? { AnswerKeepsBack(s, steps[0].answer); } else { CallsFrame(s, steps[0]); }
      BackKeepsRun(Do(s, steps[0]), steps[1..]);
    }
  }

  /** In every run a call that has answered, and did not throw, was accepted exactly when it is the one whose
    * swap took effect on its question. */
  lemma AcceptedExactly(steps: seq<Step>, c: nat)
    requires Legal(INIT, steps) && c in Final(INIT, steps).calls
    requires var phase := Final(INIT, steps).calls[c].phase; phase == Accepted || phase == NotFound
    ensures var s := Final(INIT, steps);
      s.calls[c].phase == Accepted <==> s.calls[c].key in s.swaps && s.swaps[s.calls[c].key].call == c
  {
    RunFromStart(steps);
    BackKeepsRun(INIT, steps);
    var s := Final(INIT, steps);
    assert CallOk(s.calls[c], c, s.swaps, s.origin);
  }

  /** A call with nothing between its steps. */
  function Alone(c: nat): seq<Step> {
    [Answering(AnswerGet(c)), Answering(AnswerResume(c)), Answering(AnswerSwap(c)), Answering(AnswerResume(c))]
  }

  lemma Unrolls(s: State, steps: seq<Step>)
    requires steps != [] && Enabled(s, steps[0]) && Legal(Do(s, steps[0]), steps[1..])
    ensures Legal(s, steps) && Final(s, steps) == Final(Do(s, steps[0]), steps[1..])
  {
  }

  /** Undisturbed, an answer to a row that waits for it is accepted, and the row then holds exactly these
    * answers and is otherwise as it was. */
  lemma AnswerIsAccepted(s: State, c: nat, row: Row)
    requires c in s.calls && s.calls[c].phase == Asking && s.calls[c].key in s.kv && s.kv[s.calls[c].key] == row
    requires row.answers == None && row.principal == Some(s.calls[c].answerer) && row.count == |s.calls[c].answers|
    ensures Legal(s, Alone(c))
    ensures var t, call := Final(s, Alone(c)), s.calls[c];
      && c in t.calls && t.calls[c].phase == Accepted
      && t.kv == s.kv[call.key := Row(row.principal, row.count, Some(call.answers))]
      && t.swaps == s.swaps[call.key := Swap(c, call.answerer, call.answers)]
  {
    var steps := Alone(c);
    var call := s.calls[c];
    var s1 := Do(s, steps[0]);
    assert s1.calls[c] == call.(phase := Asked(Some(row))) && s1.kv == s.kv;
    var s2 := Do(s1, steps[1]);
    assert s2.calls[c] == call.(phase := Swapping(row)) && s2.kv == s.kv;
    var s3 := Do(s2, steps[2]);
    assert s3.calls[c] == call.(phase := Swapped(true));
    var s4 := Do(s3, steps[3]);
    assert steps[1..][1..] == steps[2..] && steps[2..][1..] == steps[3..] && steps[3..][1..] == [];
    Unrolls(s3, steps[3..]);
    Unrolls(s2, steps[2..]);
    Unrolls(s1, steps[1..]);
    Unrolls(s, steps);
  }

  /** Any other is not: there is no row, or it does not wait for this answer; and nothing is written. */
  lemma AnswerIsNotFound(s: State, c: nat)
    requires c in s.calls && s.calls[c].phase == Asking
    requires var call := s.calls[c];
      call.key in s.kv ==>
        var row := s.kv[call.key];
        row.answers != None || row.principal != Some(call.answerer) || row.count != |call.answers|
    ensures Legal(s, Alone(c)[..2])
    ensures var t := Final(s, Alone(c)[..2]);
      c in t.calls && t.calls[c].phase == NotFound && t.kv == s.kv && t.swaps == s.swaps
  {
    var steps := Alone(c)[..2];
    var s1 := Do(s, steps[0]);
    assert s1.calls[c] == s.calls[c].(phase := Asked(Lookup(s.kv, s.calls[c].key)));
    var s2 := Do(s1, steps[1]);
    assert steps[1..][1..] == [];
    Unrolls(s1, steps[1..]);
    Unrolls(s, steps);
  }

  // ----- why a question is denied -----

  /** A row's end that is nobody's doing: it expired, or a kv call that took it threw. */
  function Missed(s: State): set<Key> { s.expired + s.lost }

  predicate Holds(k: Key, kv: map<Key, Row>) { k in kv ==> kv[k].answers.Some? }

  /** What a tick has read of a question that is still pending. */
  predicate Sees(tick: Tick, pending: map<Key, Input>, kv: map<Key, Row>, missed: set<Key>) {
    tick.queue != [] && tick.queue[0] in pending ==>
      var k := tick.queue[0];
      match tick.phase
      case Got(None) => k in missed
      case Got(Some(row)) => row.answers.Some? ==> Holds(k, kv)
      case Taking => Holds(k, kv)
      case Took(None) => k in missed
      case Took(Some(row)) => row.answers.Some?
      case _ => true
  }

  ghost predicate SeesOk(ticks: map<nat, Tick>, pending: map<Key, Input>, kv: map<Key, Row>, missed: set<Key>) {
    forall p :: p in ticks ==> Sees(ticks[p], pending, kv, missed)
  }

  predicate TookIt(tick: Tick, k: Key) {
    tick.queue != [] && tick.queue[0] == k && tick.phase.Took? && tick.phase.reply.Some?
  }

  /** The row is in the hands of its own poller's tick. */
  predicate TakenBy(k: Key, pollers: map<Turn, Poller>, ticks: map<nat, Tick>) {
    TurnOf(k) in pollers && pollers[TurnOf(k)].id in ticks && TookIt(ticks[pollers[TurnOf(k)].id], k)
  }

  ghost predicate ThereOk(pending: map<Key, Input>, kv: map<Key, Row>, missed: set<Key>,
                          pollers: map<Turn, Poller>, ticks: map<nat, Tick>) {
    forall k :: k in pending && k !in missed ==> k in kv || TakenBy(k, pollers, ticks)
  }

  ghost predicate StoredOk(registers: map<Key, RegisterPhase>, kv: map<Key, Row>, missed: set<Key>) {
    forall k :: k in registers && registers[k] == Stored ==> k in kv || k in missed
  }

  ghost predicate DenyOk(verdicts: map<Key, Verdict>, missed: set<Key>, dead: map<Turn, nat>) {
    forall k :: k in verdicts && verdicts[k] == Deny ==> k in missed || TurnOf(k) in dead
  }

  ghost predicate Known(s: State) {
    && SeesOk(s.ticks, s.local.pending, s.kv, Missed(s))
    && ThereOk(s.local.pending, s.kv, Missed(s), s.local.pollers, s.ticks)
    && StoredOk(s.registers, s.kv, Missed(s))
    && DenyOk(s.verdicts, Missed(s), s.dead)
  }

  /** Who polls what: the part of the invariant that this needs. */
  predicate HeadOk(p: nat, tick: Tick, pending: map<Key, Input>, pollers: map<Turn, Poller>,
                   registers: map<Key, RegisterPhase>) {
    tick.queue != [] ==>
      && tick.queue[0] !in registers
      && (tick.queue[0] in pending ==> TurnOf(tick.queue[0]) in pollers && pollers[TurnOf(tick.queue[0])].id == p)
  }

  ghost predicate Links(s: State) {
    && (forall k :: k in s.registers ==> k !in s.local.pending)
    && (forall p :: p in s.ticks ==> HeadOk(p, s.ticks[p], s.local.pending, s.local.pollers, s.registers))
    && (forall t :: t in s.local.pollers ==> (s.local.pollers[t].busy <==> s.local.pollers[t].id in s.ticks))
    && (forall t, u :: t in s.local.pollers && u in s.local.pollers && s.local.pollers[t].id == s.local.pollers[u].id
          ==> t == u)
    && (forall t :: t in s.local.pollers ==> s.local.pollers[t].id < s.nextPoller)
    && (forall p :: p in s.ticks ==> p < s.nextPoller)
    && (forall k :: k in s.deletes ==> k !in s.local.pending && k !in s.registers)
  }

  lemma InvLinks(s: State)
    requires Inv(s)
    ensures Links(s)
  {
    forall p | p in s.ticks
      ensures HeadOk(p, s.ticks[p], s.local.pending, s.local.pollers, s.registers)
    {
      if s.ticks[p].queue != [] { QueuedAreNotRegistering(s, p, s.ticks[p].queue[0]); }
    }
  }

  lemma AnswerKeepsKnown(s: State, step: AnswerStep)
    requires Links(s) && Known(s) && AnswerEnabled(s, step)
    ensures Known(DoAnswer(s, step))
  {
  }

  lemma StoreKeepsKnown(s: State, step: StoreStep)
    requires Links(s) && Known(s) && StoreEnabled(s, step)
    ensures Known(DoStore(s, step))
  {
  }

  lemma PutKeepsKnown(s: State, k: Key, row: Row, phase: RegisterPhase)
    requires Links(s) && Known(s) && k in s.registers && s.registers[k] == Putting
    ensures Known(s.(kv := s.kv[k := row], registers := s.registers[k := phase]))
  {
  }

  lemma ResumeKeepsKnown(s: State, k: Key)
    requires Links(s) && Known(s) && RegisterEnabled(s, RegisterResume(k))
    ensures Known(DoRegisterResume(s, k))
  {
  }

  lemma AbandonKeepsKnown(s: State, t: Turn)
    requires Links(s) && Known(s)
    ensures Known(DoAbandon(s, t))
  {
  }

  lemma RegisterKeepsKnown(s: State, step: RegisterStep)
    requires Links(s) && Known(s) && RegisterEnabled(s, step)
    ensures Known(DoRegister(s, step))
  {
    match step
    case RegisterCall(k, principal, input) =>
    case Put(k) => PutKeepsKnown(s, k, FirstRow(s.origin[k]), Stored);
    case PutThrows(k, stored) => if stored { PutKeepsKnown(s, k, FirstRow(s.origin[k]), PutFailed); }
    case RegisterResume(k) => ResumeKeepsKnown(s, k);
    case Abandon(t) => AbandonKeepsKnown(s, t);
  }

  lemma StartKeepsKnown(s: State, t: Turn, order: seq<Key>)
    requires Links(s) && Known(s) && TickEnabled(s, TickStart(t, order))
    ensures Known(DoTickStart(s, t, order))
  {
  }

  /** A question that a tick polls, and that nobody has taken yet, has its row or has lost it. */
  lemma PolledIsThere(s: State, p: nat)
    requires Links(s) && Known(s) && p in s.ticks && s.ticks[p].queue != [] && !s.ticks[p].phase.Took?
    requires s.ticks[p].queue[0] in s.local.pending
    ensures s.ticks[p].queue[0] in s.kv || s.ticks[p].queue[0] in Missed(s)
  {
  }

  lemma MoveKeepsKnown(s: State, p: nat, tick: Tick)
    requires Links(s) && Known(s) && p in s.ticks && s.ticks[p].queue != []
    requires !TookIt(s.ticks[p], s.ticks[p].queue[0]) || s.ticks[p].queue[0] !in s.local.pending
    requires Sees(tick, s.local.pending, s.kv, Missed(s))
    ensures Known(SetTick(s, p, tick))
  {
  }

  lemma GetKeepsKnown(s: State, p: nat)
    requires Links(s) && Known(s) && TickEnabled(s, TickGet(p))
    ensures Known(DoTick(s, TickGet(p)))
  {
    var k := s.ticks[p].queue[0];
    if k in s.local.pending { PolledIsThere(s, p); }
    MoveKeepsKnown(s, p, s.ticks[p].(phase := Got(Lookup(s.kv, k))));
  }

  /** A tick that does not poll the question sees nothing of its row. */
  lemma OthersSee(tick: Tick, pending: map<Key, Input>, kv: map<Key, Row>, missed: set<Key>, k: Key)
    requires Sees(tick, pending, kv, missed)
    ensures Sees(tick, pending, kv - {k}, missed)
  {
  }

  lemma TakeKeepsSees(s: State, p: nat)
    requires Links(s) && Known(s) && TickEnabled(s, TickTake(p))
    ensures var t := DoTickTake(s, p); SeesOk(t.ticks, t.local.pending, t.kv, Missed(t))
  {
    var k := s.ticks[p].queue[0];
    var t := DoTickTake(s, p);
    if k in s.local.pending { PolledIsThere(s, p); }
    assert Sees(s.ticks[p], s.local.pending, s.kv, Missed(s));
    forall r | r in t.ticks
      ensures Sees(t.ticks[r], t.local.pending, t.kv, Missed(t))
    {
      if r != p { OthersSee(s.ticks[r], s.local.pending, s.kv, Missed(s), k); }
    }
  }

  lemma TakeKeepsThere(s: State, p: nat)
    requires Links(s) && Known(s) && TickEnabled(s, TickTake(p))
    ensures var t := DoTickTake(s, p); ThereOk(t.local.pending, t.kv, Missed(t), t.local.pollers, t.ticks)
  {
    var k := s.ticks[p].queue[0];
    var t := DoTickTake(s, p);
    if k in s.local.pending { PolledIsThere(s, p); }
    forall q | q in s.local.pending && q !in Missed(s)
      ensures q in t.kv || TakenBy(q, s.local.pollers, t.ticks)
    {
      if q != k { assert q in s.kv || TakenBy(q, s.local.pollers, s.ticks); }
    }
  }

  lemma TakeKeepsRest(s: State, p: nat)
    requires Links(s) && Known(s) && TickEnabled(s, TickTake(p))
    ensures var t := DoTickTake(s, p); StoredOk(t.registers, t.kv, Missed(t)) && DenyOk(t.verdicts, Missed(t), t.dead)
  {
  }

  lemma ThrowKeepsSees(s: State, p: nat, taken: bool)
    requires Links(s) && Known(s) && TickEnabled(s, TickThrows(p, taken))
    ensures var t := DoTickThrows(s, p, taken); SeesOk(t.ticks, t.local.pending, t.kv, Missed(t))
  {
  }

  lemma ThrowKeepsThere(s: State, p: nat, taken: bool)
    requires Links(s) && Known(s) && TickEnabled(s, TickThrows(p, taken))
    ensures var t := DoTickThrows(s, p, taken);
      ThereOk(t.local.pending, t.kv, Missed(t), t.local.pollers, t.ticks)
  {
  }

  lemma ThrowKeepsRest(s: State, p: nat, taken: bool)
    requires Links(s) && Known(s) && TickEnabled(s, TickThrows(p, taken))
    ensures var t := DoTickThrows(s, p, taken);
      StoredOk(t.registers, t.kv, Missed(t)) && DenyOk(t.verdicts, Missed(t), t.dead)
  {
  }

  lemma ThrowKeepsKnown(s: State, p: nat, taken: bool)
    requires Links(s) && Known(s) && TickEnabled(s, TickThrows(p, taken))
    ensures Known(DoTickThrows(s, p, taken))
  {
    ThrowKeepsSees(s, p, taken);
    ThrowKeepsThere(s, p, taken);
    ThrowKeepsRest(s, p, taken);
  }

  /** What the tick makes of its question fits what it has read. */
  lemma PolledFits(s: State, p: nat)
    requires Links(s) && Known(s) && TickEnabled(s, TickResume(p))
    ensures var tick := s.ticks[p];
      var k := tick.queue[0];
      var next := Polled(tick, s.local.pending);
      && (next.Settle? ==> k in s.local.pending)
      && (next == Settle(Deny) ==> k in Missed(s))
      && (next.Take? ==> k in s.local.pending && Holds(k, s.kv))
      && (next.Leave? ==> !TookIt(tick, k) || k !in s.local.pending)
  {
    assert Sees(s.ticks[p], s.local.pending, s.kv, Missed(s));
  }

  lemma SettleKeepsKnown(s: State, p: nat, tick: Tick, k: Key, v: Verdict)
    requires Links(s) && Known(s) && p in s.ticks && s.ticks[p].queue != [] && s.ticks[p].queue[0] == k
    requires k in s.local.pending && (v == Deny ==> k in Missed(s)) && tick.phase == Getting
    ensures Known(SettleOne(SetTick(s, p, tick), k, v))
  {
  }

  lemma TickResumeKeepsKnown(s: State, p: nat)
    requires Links(s) && Known(s) && TickEnabled(s, TickResume(p))
    ensures Known(DoTickResume(s, p))
  {
    var tick := s.ticks[p];
    PolledFits(s, p);
    match Polled(tick, s.local.pending)
    case Settle(v) =>
      SettleKeepsKnown(s, p, NextTick(tick), tick.queue[0], v);
      assert DoTickResume(s, p) == SettleOne(SetTick(s, p, NextTick(tick)), tick.queue[0], v);
    case Leave =>
      MoveKeepsKnown(s, p, NextTick(tick));
      assert DoTickResume(s, p) == SetTick(s, p, NextTick(tick));
    case Take =>
      MoveKeepsKnown(s, p, tick.(phase := Taking));
      assert DoTickResume(s, p) == SetTick(s, p, tick.(phase := Taking));
  }

  lemma EndKeepsKnown(s: State, p: nat)
    requires Links(s) && Known(s) && TickEnabled(s, TickEnd(p))
    ensures Known(DoTickEnd(s, p))
  {
  }

  lemma TickKeepsKnown(s: State, step: TickStep)
    requires Links(s) && Known(s) && TickEnabled(s, step)
    ensures Known(DoTick(s, step))
  {
    match step
    case TickStart(t, order) => StartKeepsKnown(s, t, order);
    case TickGet(p) => GetKeepsKnown(s, p);
    case TickTake(p) =>
      TakeKeepsSees(s, p);
      TakeKeepsThere(s, p);
      TakeKeepsRest(s, p);
    case TickThrows(p, taken) => ThrowKeepsKnown(s, p, taken);
    case TickResume(p) => TickResumeKeepsKnown(s, p);
    case TickEnd(p) => EndKeepsKnown(s, p);
  }

  lemma {:induction false} KnownKeepsRun(s: State, steps: seq<Step>)
    requires Inv(s) && Known(s) && Legal(s, steps)
    ensures Known(Final(s, steps))
    decreases |steps|
  {
    if steps != [] {
      StepKeeps(s, steps[0]);
      InvLinks(s);
      match steps[0] {
        case Registering(r) => RegisterKeepsKnown(s, r);
        case Storing(t) => StoreKeepsKnown(s, t);
        case Polling(t) => TickKeepsKnown(s, t);
        case Answering(a) => AnswerKeepsKnown(s, a);
      }
      KnownKeepsRun(Do(s, steps[0]), steps[1..]);
    }
  }

  /** In every run a question is denied only if its turn was ended, its row expired, or a kv call that took
    * its row threw: an unanswered question is left alone. */
  lemma DeniedOnlyFor(steps: seq<Step>, k: Key)
    requires Legal(INIT, steps) && k in Final(INIT, steps).verdicts && Final(INIT, steps).verdicts[k] == Deny
    ensures var s := Final(INIT, steps); TurnOf(k) in s.dead || k in s.expired || k in s.lost
  {
    KnownKeepsRun(INIT, steps);
  }

  // ----- a lost row is denied -----

  /** The row is gone for good, and the tick will deny its question, or it was denied. */
  predicate Denying(s: State, p: nat, k: Key) {
    && k !in s.kv && k !in s.registers && k in s.origin
    && if k in s.local.pending
       then p in s.ticks && k in s.ticks[p].queue
            && (s.ticks[p].queue[0] == k ==> s.ticks[p].phase == Getting || s.ticks[p].phase == Got(None))
       else k in s.verdicts && s.verdicts[k] == Deny
  }

  predicate ThrowsFor(s: State, step: Step, p: nat, k: Key) {
    && step.Polling? && step.poll.TickThrows? && step.poll.tick == p
    && p in s.ticks && s.ticks[p].queue != [] && s.ticks[p].queue[0] == k
  }

  ghost predicate NeverThrowsFor(s: State, steps: seq<Step>, p: nat, k: Key)
    requires Legal(s, steps)
    decreases |steps|
  {
    steps == [] || (!ThrowsFor(s, steps[0], p, k) && NeverThrowsFor(Do(s, steps[0]), steps[1..], p, k))
  }

  /** What denying needs of the invariant. */
  ghost predicate Settled(s: State, k: Key) {
    && (forall p :: p in s.ticks && k in s.ticks[p].queue && k in s.local.pending ==>
          TurnOf(k) in s.local.pollers && s.local.pollers[TurnOf(k)].id == p)
    && (forall p, i, j :: p in s.ticks && 0 <= i < j < |s.ticks[p].queue| ==>
          s.ticks[p].queue[i] != s.ticks[p].queue[j])
    && (forall c :: c in s.calls && s.calls[c].phase.Swapping? ==> s.calls[c].key in s.origin)
  }

  lemma RegisterKeepsDenying(s: State, step: RegisterStep, p: nat, k: Key)
    requires Denying(s, p, k) && Settled(s, k) && RegisterEnabled(s, step)
    ensures Denying(DoRegister(s, step), p, k)
  {
  }

  lemma AnswerKeepsDenying(s: State, step: AnswerStep, p: nat, k: Key)
    requires Denying(s, p, k) && AnswerEnabled(s, step)
    ensures Denying(DoAnswer(s, step), p, k)
  {
  }

  lemma StoreKeepsDenying(s: State, step: StoreStep, p: nat, k: Key)
    requires Denying(s, p, k)
    ensures Denying(DoStore(s, step), p, k)
  {
  }

  /** A tick that is not resuming: another one, or the reading of the row that is gone. */
  lemma TickKeepsDenying(s: State, step: TickStep, p: nat, k: Key)
    requires Denying(s, p, k) && Links(s) && TickEnabled(s, step) && !step.TickResume?
    requires !ThrowsFor(s, Polling(step), p, k)
    ensures Denying(DoTick(s, step), p, k)
  {
  }

  lemma NextKeepsQueued(tick: Tick, k: Key)
    requires k in tick.queue && tick.queue[0] != k
    requires forall i, j :: 0 <= i < j < |tick.queue| ==> tick.queue[i] != tick.queue[j]
    ensures k in NextTick(tick).queue
  {
    var i :| 0 <= i < |tick.queue| && tick.queue[i] == k;
    assert NextTick(tick).queue[i - 1] == k;
  }

  /** The tick comes nearer to the question. */
  lemma OwnResumeMovesOn(s: State, p: nat, k: Key)
    requires Denying(s, p, k) && Settled(s, k) && k in s.local.pending && TickEnabled(s, TickResume(p))
    requires s.ticks[p].queue[0] != k
    ensures Denying(DoTickResume(s, p), p, k)
  {
    NextKeepsQueued(s.ticks[p], k);
  }

  /** The tick itself: it moves on to the question, or denies it. */
  lemma OwnResumeDenies(s: State, p: nat, k: Key)
    requires Denying(s, p, k) && Settled(s, k) && k in s.local.pending && TickEnabled(s, TickResume(p))
    ensures Denying(DoTickResume(s, p), p, k)
  {
    if s.ticks[p].queue[0] != k {
      OwnResumeMovesOn(s, p, k);
    } else {
      assert Polled(s.ticks[p], s.local.pending) == Settle(Deny);
    }
  }

  lemma ResumeKeepsDenying(s: State, r: nat, p: nat, k: Key)
    requires Denying(s, p, k) && Settled(s, k) && TickEnabled(s, TickResume(r))
    ensures Denying(DoTickResume(s, r), p, k)
  {
    if k in s.local.pending && r == p {
      OwnResumeDenies(s, p, k);
    } else if k in s.local.pending {
      assert s.ticks[r].queue[0] != k;
    } else if s.ticks[r].queue[0] == k {
      assert Polled(s.ticks[r], s.local.pending) == Leave;
    }
  }

  lemma InvSettled(s: State, k: Key)
    requires Inv(s)
    ensures Settled(s, k)
  {
    forall p | p in s.ticks
      ensures QueueOk(p, s.ticks[p], s.local.pending, s.local.pollers, s.registers, s.origin)
    {
    }
    forall p | p in s.ticks && k in s.ticks[p].queue
      ensures QueuedOk(k, p, s.ticks[p], s.local.pending, s.local.pollers, s.registers, s.origin)
    {
      QueuedAreNotRegistering(s, p, k);
    }
    forall c | c in s.calls && s.calls[c].phase.Swapping?
      ensures s.calls[c].key in s.origin
    {
      assert CallOk(s.calls[c], c, s.swaps, s.origin);
    }
  }

  lemma {:induction false} DenyingKeepsRun(s: State, steps: seq<Step>, p: nat, k: Key)
    requires Inv(s) && Denying(s, p, k) && Legal(s, steps) && NeverThrowsFor(s, steps, p, k)
    ensures Denying(Final(s, steps), p, k)
    decreases |steps|
  {
    if steps != [] {
      StepKeeps(s, steps[0]);
      InvLinks(s);
      InvSettled(s, k);
      match steps[0] {
        case Registering(r) => RegisterKeepsDenying(s, r, p, k);
        case Storing(t) => StoreKeepsDenying(s, t, p, k);
        case Polling(TickResume(r)) => ResumeKeepsDenying(s, r, p, k);
        case Polling(t) => TickKeepsDenying(s, t, p, k);
        case Answering(a) => AnswerKeepsDenying(s, a, p, k);
      }
      DenyingKeepsRun(Do(s, steps[0]), steps[1..], p, k);
    }
  }

  /** A question whose row is gone is denied by the next tick that starts and runs to its end, unless the
    * tick's own kv call for it throws. */
  lemma NextTickDenies(before: seq<Step>, t: Turn, order: seq<Key>, steps: seq<Step>, k: Key)
    requires Legal(INIT, before)
    requires var s := Final(INIT, before);
             && TickEnabled(s, TickStart(t, order)) && k in KeysOf(s.local, t) && k !in s.kv
             && Legal(Do(s, Polling(TickStart(t, order))), steps)
    requires var p := Final(INIT, before).local.pollers[t].id;
             && NeverThrowsFor(Do(Final(INIT, before), Polling(TickStart(t, order))), steps, p, k)
             && p !in Final(Do(Final(INIT, before), Polling(TickStart(t, order))), steps).ticks
    ensures var s := Final(Do(Final(INIT, before), Polling(TickStart(t, order))), steps);
            k in s.verdicts && s.verdicts[k] == Deny && k !in s.local.pending
  {
    RunFromStart(before);
    var s := Final(INIT, before);
    StepKeeps(s, Polling(TickStart(t, order)));
    StartDenies(s, t, order, k);
    DenyingKeepsRun(Do(s, Polling(TickStart(t, order))), steps, s.local.pollers[t].id, k);
  }

  lemma StartDenies(s: State, t: Turn, order: seq<Key>, k: Key)
    requires Inv(s) && TickEnabled(s, TickStart(t, order)) && k in KeysOf(s.local, t) && k !in s.kv
    ensures Denying(DoTickStart(s, t, order), s.local.pollers[t].id, k)
  {
    assert k in order;
    assert NamesOk(s.local.pending, s.registers, s.verdicts, s.settlements, s.origin);
  }

  // ----- registering -----

  /** In every run a call to register is refused exactly when its turn was ended within the last minute. */
  lemma RefusedExactly(steps: seq<Step>, k: Key)
    requires Legal(INIT, steps)
    ensures var s := Final(INIT, steps); Refused(s, k) <==> TurnOf(k) in s.dead && s.now < s.dead[TurnOf(k)] + 60_000
  {
    RunFromStart(steps);
  }

  /** In every run a poller is busy exactly while a tick of it runs. */
  lemma BusyExactlyWhileTicking(steps: seq<Step>, t: Turn)
    requires Legal(INIT, steps) && t in Final(INIT, steps).local.pollers
    ensures var s := Final(INIT, steps); s.local.pollers[t].busy <==> s.local.pollers[t].id in s.ticks
  {
    RunFromStart(steps);
  }

  function Registration(k: Key, principal: Option<string>, input: Input): seq<Step> {
    [Registering(RegisterCall(k, principal, input)), Registering(Put(k)), Registering(RegisterResume(k))]
  }

  /** Undisturbed, a question of a turn that is not remembered as over is stored, with its user and its number
    * of questions, and is then pending with a poller. */
  lemma RegistrationArms(s: State, k: Key, principal: Option<string>, input: Input)
    requires k !in s.origin && TurnOf(k) !in s.local.abandoned
    ensures Legal(s, Registration(k, principal, input))
    ensures var t := Final(s, Registration(k, principal, input));
      && t.local.pending == s.local.pending[k := input] && TurnOf(k) in t.local.pollers
      && t.kv == s.kv[k := Row(principal, match input.questions case None => 0 case Some(qs) => |qs|, None)]
      && t.deletes == s.deletes && t.verdicts == s.verdicts
  {
    var steps := Registration(k, principal, input);
    var s1 := Do(s, steps[0]);
    assert TurnOf(k) !in Prune(s.local.abandoned, s.now);
    assert s1.registers == s.registers[k := Putting] && s1.origin == s.origin[k := Origin(principal, input)];
    var s2 := Do(s1, steps[1]);
    assert s2.registers == s1.registers[k := Stored] && s2.origin == s1.origin;
    var s3 := Do(s2, steps[2]);
    assert steps[1..][1..] == steps[2..] && steps[2..][1..] == [];
    Unrolls(s2, steps[2..]);
    Unrolls(s1, steps[1..]);
    Unrolls(s, steps);
  }

  // ----- the other ends of a step -----

  /** A question's turn is its session and its turn id. */
  lemma TurnOfExactly(k: Key, t: Turn)
    ensures TurnOf(k) == t <==> k.sessionId == t.sessionId && k.turnId == t.turnId
  {
  }

  predicate Remembered(s: State, k: Key) { TurnOf(k) in s.local.abandoned && s.local.abandoned[TurnOf(k)] > s.now }

  /** A turn that is remembered as over registers nothing and stores nothing. */
  lemma RememberedIsRefused(s: State, k: Key, principal: Option<string>, input: Input)
    requires k !in s.origin
    ensures var t := Do(s, Registering(RegisterCall(k, principal, input)));
      && t.kv == s.kv && t.local.pending == s.local.pending && t.local.pollers == s.local.pollers
      && t.registers == if Remembered(s, k) then s.registers else s.registers[k := Putting]
  {
  }

  /** A put that throws arms nothing, whether or not the row was stored. */
  lemma FailedPutArmsNothing(s: State, k: Key, stored: bool)
    requires k in s.origin && k in s.registers && s.registers[k] == Putting
    ensures var t := Do(s, Registering(PutThrows(k, stored)));
      && Enabled(t, Registering(RegisterResume(k)))
      && var u := Do(t, Registering(RegisterResume(k)));
         && u.local == s.local && k !in u.registers && u.deletes == s.deletes && u.verdicts == s.verdicts
         && (!stored ==> u.kv == s.kv)
         && (stored ==> k in u.kv && u.kv[k].answers == None && u.kv[k].principal == s.origin[k].principal
                        && u.kv - {k} == s.kv - {k})
  {
  }

  /** A turn that ended while its row was being stored arms nothing, and the row is to be deleted. */
  lemma EndedMeanwhileArmsNothing(s: State, k: Key)
    requires k in s.origin && k in s.registers && s.registers[k] == Stored && TurnOf(k) in s.local.abandoned
    ensures var t := Do(s, Registering(RegisterResume(k)));
      && t.local == s.local && t.kv == s.kv && k !in t.registers && t.deletes == s.deletes + {k}
      && t.verdicts == s.verdicts
  {
  }

  /** Ending a turn denies each of its pending questions and has its row deleted, stops the poller, and
    * remembers the turn for a minute; no other question, poller or row is touched. */
  lemma AbandonEndsTheTurn(s: State, turn: Turn)
    ensures var t := Do(s, Registering(Abandon(turn)));
      && (forall k :: k in t.local.pending <==> k in s.local.pending && TurnOf(k) != turn)
      && (forall k :: k in t.local.pending ==> t.local.pending[k] == s.local.pending[k])
      && t.local.pollers == s.local.pollers - {turn} && t.kv == s.kv && t.registers == s.registers
      && turn in t.local.abandoned && t.local.abandoned[turn] == s.now + 60_000
      && (forall k :: k in s.local.pending && TurnOf(k) == turn ==> k in t.verdicts && t.verdicts[k] == Deny)
      && (forall k :: k in t.deletes <==> k in s.deletes || (k in s.local.pending && TurnOf(k) == turn))
  {
  }

  /** A poll that throws leaves its question pending; the row is gone only if the take had gone through. */
  lemma FailedPollLeaves(s: State, p: nat, taken: bool)
    requires TickEnabled(s, TickThrows(p, taken))
    ensures var t, k := Do(s, Polling(TickThrows(p, taken))), s.ticks[p].queue[0];
      && t.local == s.local && t.verdicts == s.verdicts && t.kv == (if taken then s.kv - {k} else s.kv)
      && p in t.ticks && t.ticks[p].queue == s.ticks[p].queue
  {
  }

  /** A delete takes the row, and one that throws leaves it; neither is tried again. */
  lemma DeleteTakesTheRow(s: State, k: Key)
    requires k in s.deletes
    ensures Do(s, Storing(Delete(k))) == s.(kv := s.kv - {k}, deletes := s.deletes - {k})
    ensures Do(s, Storing(DeleteThrows(k))) == s.(deletes := s.deletes - {k})
  {
  }

  /** A call that throws rejects, whether or not its swap took effect, and the swap is this call's. */
  lemma FailedCallRejects(s: State, c: nat, swapped: bool)
    requires AnswerEnabled(s, AnswerThrows(c, swapped))
    ensures var t, call := Do(s, Answering(AnswerThrows(c, swapped))), s.calls[c];
      && c in t.calls && t.calls[c].phase == Rejected
      && (!swapped ==> t.kv == s.kv)
      && (swapped ==> call.key in t.kv && t.kv[call.key].answers == Some(call.answers)
                      && t.kv - {call.key} == s.kv - {call.key})
  {
  }

  /** A new call asks for the row of its key. */
  lemma CallAsks(s: State, c: nat, k: Key, answerer: string, answers: seq<Answer>)
    requires c !in s.calls
    ensures var t := Do(s, Answering(AnswerCall(c, k, answerer, answers)));
      && t.calls == s.calls[c := Call(k, answerer, answers, Asking)] && t.kv == s.kv
      && Enabled(t, Answering(AnswerGet(c)))
      && Do(t, Answering(AnswerGet(c))).calls[c].phase == Asked(if k in s.kv then Some(s.kv[k]) else None)
  {
  }
}
