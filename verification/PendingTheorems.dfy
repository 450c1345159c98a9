/** What holds of every run of the pending-question protocol. */
module PendingTheorems {
  import opened Wrappers
  import opened PendingQuestions
  import opened PendingInvariants

  lemma {:induction false} RunKeeps(s: State, steps: seq<Step>)
    requires Inv(s) && Legal(s, steps)
    ensures Inv(Final(s, steps))
    decreases |steps|
  {
    if steps != [] {
      StepKeeps(s, steps[0]);
      RunKeeps(Do(s, steps[0]), steps[1..]);
    }
  }

  lemma RunFromStart(steps: seq<Step>)
    requires Legal(INIT, steps)
    ensures Inv(Final(INIT, steps))
  {
    RunKeeps(INIT, steps);
  }

  /** In every interleaving a question's promise settles at most once, and not while it is pending. */
  lemma SettlesAtMostOnce(steps: seq<Step>, k: Key)
    requires Legal(INIT, steps)
    ensures var s := Final(INIT, steps);
            && s.settlements[k] <= 1
            && (s.settlements[k] == 1 <==> k in s.verdicts)
            && (k in s.local.pending || k in s.registers ==> s.settlements[k] == 0)
  {
    RunFromStart(steps);
  }

  /** Of all the answer calls for one question at most one is accepted. */
  lemma OneAcceptedAnswer(steps: seq<Step>, c: nat, d: nat)
    requires Legal(INIT, steps)
    requires var s := Final(INIT, steps);
             && c in s.calls && d in s.calls && s.calls[c].key == s.calls[d].key
             && s.calls[c].phase == Accepted && s.calls[d].phase == Accepted
    ensures c == d
  {
    RunFromStart(steps);
    var s := Final(INIT, steps);
    assert CallOk(s.calls[c], c, s.swaps, s.origin) && CallOk(s.calls[d], d, s.swaps, s.origin);
  }

  /** An allow carries the answers of one call, made for that question by the user who began the
    * turn, one answer a question; and no other call can have been accepted. */
  lemma AllowIsTheAnswer(steps: seq<Step>, k: Key) returns (c: nat)
    requires Legal(INIT, steps)
    requires var s := Final(INIT, steps); k in s.verdicts && s.verdicts[k].Allow?
    ensures var s := Final(INIT, steps);
            && c in s.calls && k in s.origin && s.calls[c].key == k
            && s.verdicts[k] == Allow(s.origin[k].input, s.calls[c].answers)
            && s.origin[k].principal == Some(s.calls[c].answerer)
            && |s.calls[c].answers| == QuestionCount(s.origin[k].input)
            && (forall d :: d in s.calls && s.calls[d].key == k && s.calls[d].phase == Accepted ==> d == c)
  {
    RunFromStart(steps);
    var s := Final(INIT, steps);
    assert VerdictOk(k, s.verdicts[k], s.swaps, s.origin) && SwapOk(k, s.swaps[k], s.calls, s.origin);
    c := s.swaps[k].call;
    forall d | d in s.calls && s.calls[d].key == k && s.calls[d].phase == Accepted
      ensures d == c
    {
      assert CallOk(s.calls[d], d, s.swaps, s.origin);
    }
  }

  /** A turn with pending questions always has a poller; a poller at rest always has a question. */
  lemma PollerExactlyWhilePending(steps: seq<Step>, t: Turn)
    requires Legal(INIT, steps)
    ensures var l := Final(INIT, steps).local;
            && (KeysOf(l, t) != {} ==> t in l.pollers)
            && (t in l.pollers && !l.pollers[t].busy ==> KeysOf(l, t) != {})
  {
    RunFromStart(steps);
    var l := Final(INIT, steps).local;
    if KeysOf(l, t) != {} {
      var k :| k in KeysOf(l, t);
    }
    if t in l.pollers && !l.pollers[t].busy {
      var k :| HasOne(l.pending, t, k);
      assert k in KeysOf(l, t);
    }
  }

  // ----- delivery -----

  /** The steps that excuse tick `p` from delivering `k`: of its kv calls that throw, only one for `k`. */
  ghost predicate Excuses(s: State, step: Step, p: nat, k: Key)
    requires Enabled(s, step)
  {
    || step == Storing(Expire(k)) || step == Registering(Abandon(TurnOf(k)))
    || (step.Polling? && step.poll.TickThrows? && step.poll.tick == p && s.ticks[p].queue[0] == k)
  }

  ghost predicate NeverExcused(s: State, steps: seq<Step>, p: nat, k: Key)
    requires Legal(s, steps)
    decreases |steps|
  {
    steps == [] || (!Excuses(s, steps[0], p, k) && NeverExcused(Do(s, steps[0]), steps[1..], p, k))
  }

  predicate Delivering(s: State, p: nat, k: Key) {
    && k !in s.expired && TurnOf(k) !in s.dead
    && (Delivered(k, s.verdicts) || (p in s.ticks && k in s.ticks[p].due && k !in s.ticks[p].failed))
  }

  /** At its end a tick has delivered all that was due and not excused. */
  lemma EndingDelivers(s: State, p: nat, k: Key)
    requires Inv(s) && Delivering(s, p, k) && p in s.ticks && s.ticks[p].queue == []
    ensures Delivered(k, s.verdicts)
  {
    if k in s.ticks[p].due {
      assert KeyDueOk(k, s.ticks[p], s.kv, s.local.pending, s.verdicts, s.expired, s.dead);
    }
  }

  lemma RegisterFrame(s: State, step: RegisterStep)
    requires RegisterEnabled(s, step)
    ensures var r := DoRegister(s, step);
            && r.ticks == s.ticks && r.expired == s.expired && r.swaps == s.swaps
            && (!step.Abandon? ==> r.verdicts == s.verdicts && r.dead == s.dead)
            && (!step.Abandon? && !step.RegisterResume? ==>
                  r.local.pending == s.local.pending && r.local.pollers == s.local.pollers)
  {
  }

  lemma AnswerFrame(s: State, step: AnswerStep)
    requires AnswerEnabled(s, step)
    ensures var r := DoAnswer(s, step);
            && r.local == s.local && r.ticks == s.ticks && r.verdicts == s.verdicts
            && r.expired == s.expired && r.dead == s.dead
  {
  }

  lemma RegisterStepDelivers(s: State, step: RegisterStep, p: nat, k: Key)
    requires Inv(s) && RegisterEnabled(s, step) && Delivering(s, p, k) && step != Abandon(TurnOf(k))
    ensures Delivering(DoRegister(s, step), p, k)
  {
    RegisterFrame(s, step);
    if step.Abandon? && Delivered(k, s.verdicts) {
      assert k !in KeysOf(s.local, step.turn);
    }
  }

  lemma StoreStepDelivers(s: State, step: StoreStep, p: nat, k: Key)
    requires Delivering(s, p, k) && step != Expire(k)
    ensures Delivering(DoStore(s, step), p, k)
  {
  }

  lemma AnswerStepDelivers(s: State, step: AnswerStep, p: nat, k: Key)
    requires AnswerEnabled(s, step) && Delivering(s, p, k)
    ensures Delivering(DoAnswer(s, step), p, k)
  {
    AnswerFrame(s, step);
  }

  lemma ResumeFrame(s: State, r: nat, p: nat, k: Key)
    requires TickEnabled(s, TickResume(r))
    requires Polled(s.ticks[r], s.local.pending).Settle? ==> s.ticks[r].queue[0] in s.local.pending
    ensures p in s.ticks ==>
              var ticks := DoTickResume(s, r).ticks;
              p in ticks && ticks[p].due == s.ticks[p].due && ticks[p].failed == s.ticks[p].failed
    ensures k in s.verdicts && k !in s.local.pending ==>
              k in DoTickResume(s, r).verdicts && DoTickResume(s, r).verdicts[k] == s.verdicts[k]
    ensures DoTickResume(s, r).expired == s.expired && DoTickResume(s, r).dead == s.dead
  {
    match Polled(s.ticks[r], s.local.pending)
    case Leave =>
    case Settle(v) =>
    case Take =>
  }

  lemma ResumeDelivers(s: State, r: nat, p: nat, k: Key)
    requires Inv(s) && TickEnabled(s, TickResume(r)) && Delivering(s, p, k)
    ensures Delivering(DoTickResume(s, r), p, k)
  {
    PolledOk(s, r);
    assert Delivered(k, s.verdicts) ==> k !in s.local.pending;
    ResumeFrame(s, r, p, k);
  }

  lemma TickFrame(s: State, step: TickStep)
    requires TickEnabled(s, step) && !step.TickResume?
    ensures var r := DoTick(s, step); r.expired == s.expired && r.dead == s.dead && r.verdicts == s.verdicts
  {
  }

  lemma OtherTickSteps(s: State, step: TickStep, p: nat, k: Key)
    requires TickEnabled(s, step) && p in s.ticks && !step.TickResume? && step != TickEnd(p)
    requires !(step.TickThrows? && step.tick == p && s.ticks[p].queue[0] == k)
    requires step.TickStart? ==> s.local.pollers[step.turn].id != p
    ensures var ticks := DoTick(s, step).ticks;
            p in ticks && ticks[p].due == s.ticks[p].due && (k in ticks[p].failed <==> k in s.ticks[p].failed)
  {
    match step
    case TickStart(t, order) =>
    case TickGet(_) =>
    case TickTake(_) =>
    case TickThrows(_, _) =>
    case TickEnd(_) =>
  }

  /** A tick that is starting is not one that already runs. */
  lemma StartIsFresh(s: State, t: Turn)
    requires TicksOk(s.local.pollers, s.ticks, s.nextPoller)
    requires t in s.local.pollers && !s.local.pollers[t].busy
    ensures s.local.pollers[t].id !in s.ticks
  {
  }

  lemma TickStepDelivers(s: State, step: TickStep, p: nat, k: Key)
    requires Inv(s) && TickEnabled(s, step) && Delivering(s, p, k)
    requires !(step.TickThrows? && step.tick == p && s.ticks[p].queue[0] == k)
    ensures Delivering(DoTick(s, step), p, k)
  {
    if step.TickResume? {
      ResumeDelivers(s, step.tick, p, k);
    } else if step == TickEnd(p) {
      EndingDelivers(s, p, k);
    } else {
      TickFrame(s, step);
      if p in s.ticks {
        if step.TickStart? {
          StartIsFresh(s, step.turn);
        }
        OtherTickSteps(s, step, p, k);
      }
    }
  }

  lemma StepDelivers(s: State, step: Step, p: nat, k: Key)
    requires Inv(s) && Enabled(s, step) && Delivering(s, p, k) && !Excuses(s, step, p, k)
    ensures Delivering(Do(s, step), p, k)
  {
    match step
    case Registering(r) => RegisterStepDelivers(s, r, p, k);
    case Storing(t) => StoreStepDelivers(s, t, p, k);
    case Polling(t) => TickStepDelivers(s, t, p, k);
    case Answering(a) => AnswerStepDelivers(s, a, p, k);
  }

  lemma {:induction false} RunDelivers(s: State, steps: seq<Step>, p: nat, k: Key)
    requires Inv(s) && Legal(s, steps) && Delivering(s, p, k)
    requires NeverExcused(s, steps, p, k)
    ensures Delivering(Final(s, steps), p, k)
    decreases |steps|
  {
    if steps != [] {
      StepDelivers(s, steps[0], p, k);
      StepKeeps(s, steps[0]);
      RunDelivers(Do(s, steps[0]), steps[1..], p, k);
    }
  }

  /** An answered question is delivered by the next tick that starts: whatever happens between that
    * tick's start and its end, unless the row expires, the turn ends or the tick's own kv call for
    * this question throws, the promise then holds the answers that were swapped in. */
  lemma NextTickDelivers(before: seq<Step>, t: Turn, order: seq<Key>, steps: seq<Step>, k: Key)
    requires Legal(INIT, before)
    requires var s := Final(INIT, before);
             && TickEnabled(s, TickStart(t, order))
             && k in KeysOf(s.local, t) && k in s.kv && s.kv[k].answers.Some?
             && k !in s.expired && t !in s.dead
             && Legal(Do(s, Polling(TickStart(t, order))), steps)
    requires var p := Final(INIT, before).local.pollers[t].id;
             && NeverExcused(Do(Final(INIT, before), Polling(TickStart(t, order))), steps, p, k)
             && p !in Final(Do(Final(INIT, before), Polling(TickStart(t, order))), steps).ticks
    ensures var s := Final(Do(Final(INIT, before), Polling(TickStart(t, order))), steps);
            && k in s.verdicts && k in s.swaps && k in s.origin
            && s.verdicts[k] == Allow(s.origin[k].input, s.swaps[k].answers)
            && k !in s.local.pending
  {
    RunFromStart(before);
    var s := Final(INIT, before);
    var p := s.local.pollers[t].id;
    StepKeeps(s, Polling(TickStart(t, order)));
    StartDelivers(s, t, order, k);
    RunDelivers(Do(s, Polling(TickStart(t, order))), steps, p, k);
    RunKeeps(Do(s, Polling(TickStart(t, order))), steps);
    var s' := Final(Do(s, Polling(TickStart(t, order))), steps);
    assert VerdictOk(k, s'.verdicts[k], s'.swaps, s'.origin);
  }

  lemma StartDelivers(s: State, t: Turn, order: seq<Key>, k: Key)
    requires TickEnabled(s, TickStart(t, order)) && k in KeysOf(s.local, t)
    requires k in s.kv && s.kv[k].answers.Some? && k !in s.expired && t !in s.dead
    ensures Delivering(DoTickStart(s, t, order), s.local.pollers[t].id, k)
  {
    assert k in order;
  }

  // ----- ended turns -----

  /** Nothing local is left of a turn that was abandoned. */
  ghost predicate DeadOk(s: State) {
    && (forall k :: k in s.local.pending ==> TurnOf(k) !in s.dead)
    && (forall t :: t in s.local.pollers ==> t !in s.dead)
  }

  /** A register call resumes with its row stored, for a turn that ended and is already forgotten. */
  predicate Late(s: State, step: Step) {
    step.Registering? && step.register.RegisterResume? &&
    var k := step.register.key;
    k in s.registers && s.registers[k] == Stored && TurnOf(k) in s.dead && TurnOf(k) !in s.local.abandoned
  }

  lemma ArmKeepsDead(s: State, k: Key)
    requires DeadOk(s) && RegisterEnabled(s, RegisterResume(k))
    ensures DeadOk(DoRegisterResume(s, k)) <==> !Late(s, Registering(RegisterResume(k)))
  {
    var s' := DoRegisterResume(s, k);
    assert s'.dead == s.dead;
    if s.registers[k] == Stored && TurnOf(k) !in s.local.abandoned {
      assert k in s'.local.pending && TurnOf(k) in s'.local.pollers;
    } else {
      assert s'.local == s.local;
    }
  }

  lemma AbandonKeepsDead(s: State, t: Turn)
    requires Inv(s) && DeadOk(s)
    ensures DeadOk(DoAbandon(s, t))
  {
  }

  lemma RegisterStepKeepsDead(s: State, step: RegisterStep)
    requires Inv(s) && DeadOk(s) && RegisterEnabled(s, step)
    ensures DeadOk(DoRegister(s, step)) <==> !Late(s, Registering(step))
  {
    RegisterFrame(s, step);
    match step
    case RegisterResume(k) => ArmKeepsDead(s, k);
    case Abandon(t) => AbandonKeepsDead(s, t);
    case _ =>
  }

  lemma TickStepKeepsDead(s: State, step: TickStep)
    requires DeadOk(s) && TickEnabled(s, step)
    ensures DeadOk(DoTick(s, step))
  {
    match step
    case TickStart(t, order) =>
    case TickGet(_) =>
    case TickTake(_) =>
    case TickThrows(_, _) =>
    case TickResume(r) =>
      match Polled(s.ticks[r], s.local.pending) {
        case Leave =>
        case Settle(v) =>
        case Take =>
      }
    case TickEnd(_) =>
  }

  lemma StoreStepKeepsDead(s: State, step: StoreStep)
    requires DeadOk(s)
    ensures DeadOk(DoStore(s, step))
  {
  }

  lemma AnswerStepKeepsDead(s: State, step: AnswerStep)
    requires DeadOk(s) && AnswerEnabled(s, step)
    ensures DeadOk(DoAnswer(s, step))
  {
    AnswerFrame(s, step);
  }

  /** A step leaves ended turns empty exactly when it is not such a late resumption. */
  lemma DeadKept(s: State, step: Step)
    requires Inv(s) && DeadOk(s) && Enabled(s, step)
    ensures DeadOk(Do(s, step)) <==> !Late(s, step)
  {
    match step
    case Registering(r) => RegisterStepKeepsDead(s, r);
    case Polling(t) => TickStepKeepsDead(s, t);
    case Storing(t) => StoreStepKeepsDead(s, t);
    case Answering(a) => AnswerStepKeepsDead(s, a);
  }

  /** Late means later than the memory of abandoned turns lasts. */
  lemma LateIsPastTheMemory(s: State, step: Step)
    requires Inv(s) && Late(s, step)
    ensures s.now >= s.dead[TurnOf(step.register.key)] + ABANDONED_MEMORY_MS
  {
  }

  /** Not a resumption for an ended turn, or one within the memory of its end. */
  predicate InTime(s: State, step: Step) {
    step.Registering? && step.register.RegisterResume? && TurnOf(step.register.key) in s.dead ==>
      s.now < s.dead[TurnOf(step.register.key)] + ABANDONED_MEMORY_MS
  }

  ghost predicate Timely(s: State, steps: seq<Step>)
    requires Legal(s, steps)
    decreases |steps|
  {
    steps == [] || (InTime(s, steps[0]) && Timely(Do(s, steps[0]), steps[1..]))
  }

  lemma {:induction false} TimelyRunKeepsDead(s: State, steps: seq<Step>)
    requires Inv(s) && DeadOk(s) && Legal(s, steps) && Timely(s, steps)
    ensures DeadOk(Final(s, steps))
    decreases |steps|
  {
    if steps != [] {
      if Late(s, steps[0]) {
        LateIsPastTheMemory(s, steps[0]);
      }
      DeadKept(s, steps[0]);
      StepKeeps(s, steps[0]);
      TimelyRunKeepsDead(Do(s, steps[0]), steps[1..]);
    }
  }

  /** Once a turn was abandoned it has no entry and no poller, in any run whose puts are timely;
    * and when its register calls are over, each of its rows left in the store has a delete issued
    * or came from a put that threw. */
  lemma AbandonedStaysAbandoned(steps: seq<Step>, t: Turn)
    requires Legal(INIT, steps) && Timely(INIT, steps) && t in Final(INIT, steps).dead
    ensures var s := Final(INIT, steps);
            && KeysOf(s.local, t) == {} && t !in s.local.pollers
            && (forall k :: k in s.kv && TurnOf(k) == t && k !in s.registers ==> k in s.deleteIssued || k in s.stray)
  {
    RunFromStart(steps);
    TimelyRunKeepsDead(INIT, steps);
  }

  /** A turn ends while one of its register calls is storing its row. */
  function LateStart(k: Key): seq<Step> {
    [Registering(RegisterCall(k, None, Input(None))), Registering(Put(k)), Registering(Abandon(TurnOf(k)))]
  }

  /** A minute passes, a call for another turn prunes the memory, and the first call resumes. */
  function LateEnd(k: Key, other: Key): seq<Step> {
    [Storing(Wait(ABANDONED_MEMORY_MS)), Registering(RegisterCall(other, None, Input(None))),
     Registering(RegisterResume(k))]
  }

  /** The state in which the turn has ended and its register call still waits for its put. */
  lemma LateRunEnds(k: Key) returns (s: State)
    ensures s.now == 0 && k in s.origin && k in s.registers && s.registers[k] == Stored
    ensures s.local == Local(map[], map[], map[TurnOf(k) := ABANDONED_MEMORY_MS]) && TurnOf(k) in s.dead
    ensures forall other :: other != k ==> other !in s.origin
    ensures forall rest :: Legal(s, rest) ==>
              Legal(INIT, LateStart(k) + rest) && Final(INIT, LateStart(k) + rest) == Final(s, rest)
  {
    var a, b := Registering(RegisterCall(k, None, Input(None))), Registering(Put(k));
    var c := Registering(Abandon(TurnOf(k)));
    var s1 := Do(INIT, a);
    var s2 := Do(s1, b);
    s := Do(s2, c);
    assert s.local.abandoned == map[TurnOf(k) := ABANDONED_MEMORY_MS];
    forall rest | Legal(s, rest)
      ensures Legal(INIT, LateStart(k) + rest) && Final(INIT, LateStart(k) + rest) == Final(s, rest)
    {
      Unroll(s2, c, rest);
      Unroll(s1, b, [c] + rest);
      Unroll(INIT, a, [b] + ([c] + rest));
      assert LateStart(k) + rest == [a] + ([b] + ([c] + rest));
    }
  }

  lemma Unroll(s: State, step: Step, rest: seq<Step>)
    requires Enabled(s, step)
    ensures Legal(s, [step] + rest) <==> Legal(Do(s, step), rest)
    ensures Legal(Do(s, step), rest) ==> Final(s, [step] + rest) == Final(Do(s, step), rest)
  {
    assert ([step] + rest)[1..] == rest;
  }

  lemma LateRunArms(s: State, k: Key, other: Key)
    requires s.now == 0 && k in s.origin && k in s.registers && s.registers[k] == Stored && other !in s.origin
    requires s.local == Local(map[], map[], map[TurnOf(k) := ABANDONED_MEMORY_MS]) && TurnOf(k) != TurnOf(other)
    ensures Legal(s, LateEnd(k, other))
    ensures var f := Final(s, LateEnd(k, other));
            f.dead == s.dead && k in f.local.pending && TurnOf(k) in f.local.pollers
  {
    var a, b, c := Storing(Wait(ABANDONED_MEMORY_MS)), Registering(RegisterCall(other, None, Input(None))),
                   Registering(RegisterResume(k));
    var s1 := Do(s, a);
    var s2 := Do(s1, b);
    assert Prune(s1.local.abandoned, s1.now) == map[];
    Unroll(s2, c, []);
    Unroll(s1, b, [c] + []);
    Unroll(s, a, [b] + ([c] + []));
    assert LateEnd(k, other) == [a] + ([b] + ([c] + []));
  }

  /** Without timely puts it fails: a register call that was storing its row when its turn ended
    * resumes a minute later, once another call has made the registry forget the turn. */
  lemma LateRegisterArms(k: Key, other: Key)
    requires TurnOf(k) != TurnOf(other)
    ensures Legal(INIT, LateStart(k) + LateEnd(k, other))
    ensures var s := Final(INIT, LateStart(k) + LateEnd(k, other));
            TurnOf(k) in s.dead && k in s.local.pending && TurnOf(k) in s.local.pollers
  {
    var s := LateRunEnds(k);
    LateRunArms(s, k, other);
  }
}
