/** What every step of the pending-question protocol keeps. */
module PendingInvariants {
  import opened Wrappers
  import opened PendingQuestions

  // ----- invariants, each over just the fields it speaks of -----

  /** A question is being registered, pending or settled, never two of these, and settled once. */
  ghost predicate NamesOk(pending: map<Key, Input>, registers: map<Key, RegisterPhase>,
                          verdicts: map<Key, Verdict>, settlements: multiset<Key>, origin: map<Key, Origin>) {
    && (forall k :: k in pending ==>
          k in origin && pending[k] == origin[k].input && k !in registers && k !in verdicts)
    && (forall k :: k in registers ==> k in origin && k !in verdicts)
    && (forall k :: k in verdicts ==> k in origin)
    && (forall k :: settlements[k] == if k in verdicts then 1 else 0)
  }

  predicate FitsOrigin(origin: map<Key, Origin>, k: Key, row: Row) {
    k in origin && row.principal == origin[k].principal && row.count == QuestionCount(origin[k].input)
  }

  predicate RowOk(swaps: map<Key, Swap>, origin: map<Key, Origin>, k: Key, row: Row) {
    && FitsOrigin(origin, k, row)
    && (row.answers.Some? ==> k in swaps && row.answers.value == swaps[k].answers)
  }

  /** A row keeps the recorded principal and count, and is answered exactly when it was swapped. */
  ghost predicate RowsOk(kv: map<Key, Row>, registers: map<Key, RegisterPhase>,
                         swaps: map<Key, Swap>, origin: map<Key, Origin>) {
    && (forall k :: k in kv ==> RowOk(swaps, origin, k, kv[k]) && (kv[k].answers.None? ==> k !in swaps))
    && (forall k :: k in registers && registers[k] == Putting ==> k !in kv && k !in swaps)
    && (forall k :: k in swaps ==> k in origin)
  }

  predicate CallOk(call: Call, c: nat, swaps: map<Key, Swap>, origin: map<Key, Origin>) {
    match call.phase
    case Asked(reply) => reply.Some? ==> FitsOrigin(origin, call.key, reply.value)
    case Swapping(row) => FitsOrigin(origin, call.key, row) && MayAnswer(row, call.answerer, call.answers)
    case Swapped(ok) => ok ==> call.key in swaps && swaps[call.key].call == c
    case Accepted => call.key in swaps && swaps[call.key].call == c
    case _ => true
  }

  ghost predicate CallsOk(calls: map<nat, Call>, swaps: map<Key, Swap>, origin: map<Key, Origin>) {
    forall c :: c in calls ==> CallOk(calls[c], c, swaps, origin)
  }

  /** The swap was made by a call for this key, by the recorded principal, with one answer a question. */
  predicate SwapOk(k: Key, swap: Swap, calls: map<nat, Call>, origin: map<Key, Origin>) {
    && k in origin && swap.call in calls && calls[swap.call].key == k
    && swap.answers == calls[swap.call].answers && swap.answerer == calls[swap.call].answerer
    && origin[k].principal == Some(swap.answerer) && |swap.answers| == QuestionCount(origin[k].input)
  }

  ghost predicate SwapsOk(swaps: map<Key, Swap>, calls: map<nat, Call>, origin: map<Key, Origin>) {
    forall k :: k in swaps ==> SwapOk(k, swaps[k], calls, origin)
  }

  predicate VerdictOk(k: Key, v: Verdict, swaps: map<Key, Swap>, origin: map<Key, Origin>) {
    v.Allow? ==> k in origin && v.input == origin[k].input && k in swaps && v.answers == swaps[k].answers
  }

  ghost predicate VerdictsOk(verdicts: map<Key, Verdict>, swaps: map<Key, Swap>, origin: map<Key, Origin>) {
    forall k :: k in verdicts ==> VerdictOk(k, verdicts[k], swaps, origin)
  }

  /** What a tick read by taking the row is a row of the entry it polls. */
  predicate ReplyOk(tick: Tick, swaps: map<Key, Swap>, origin: map<Key, Origin>) {
    tick.queue != [] && tick.phase.Took? && tick.phase.reply.Some? ==>
      RowOk(swaps, origin, tick.queue[0], tick.phase.reply.value)
  }

  ghost predicate RepliesOk(ticks: map<nat, Tick>, swaps: map<Key, Swap>, origin: map<Key, Origin>) {
    forall p :: p in ticks ==> ReplyOk(ticks[p], swaps, origin)
  }

  predicate HasOne(pending: map<Key, Input>, t: Turn, k: Key) { k in pending && TurnOf(k) == t }

  ghost predicate HasSome(pending: map<Key, Input>, t: Turn) {
    exists k :: HasOne(pending, t, k)
  }

  /** A turn with pending questions has a poller; a poller at rest has a pending question. */
  ghost predicate ServedOk(pending: map<Key, Input>, pollers: map<Turn, Poller>) {
    && (forall k :: k in pending ==> TurnOf(k) in pollers)
    && (forall t :: t in pollers && !pollers[t].busy ==> HasSome(pending, t))
  }

  /** A busy poller has its one running tick, and no two pollers are one. */
  ghost predicate TicksOk(pollers: map<Turn, Poller>, ticks: map<nat, Tick>, nextPoller: nat) {
    && (forall t :: t in pollers ==> pollers[t].id < nextPoller)
    && (forall t :: t in pollers ==> (pollers[t].busy <==> pollers[t].id in ticks))
    && (forall t :: t in pollers && pollers[t].busy ==> ticks[pollers[t].id].turn == t)
    && (forall t, u :: t in pollers && u in pollers && pollers[t].id == pollers[u].id ==> t == u)
    && (forall p :: p in ticks ==> p < nextPoller)
  }

  predicate QueuedOk(k: Key, p: nat, tick: Tick, pending: map<Key, Input>, pollers: map<Turn, Poller>,
                     registers: map<Key, RegisterPhase>, origin: map<Key, Origin>) {
    && TurnOf(k) == tick.turn && k in origin && k !in registers
    && (k in pending ==> tick.turn in pollers && pollers[tick.turn].id == p)
  }

  ghost predicate QueueOk(p: nat, tick: Tick, pending: map<Key, Input>, pollers: map<Turn, Poller>,
                          registers: map<Key, RegisterPhase>, origin: map<Key, Origin>) {
    && (forall k :: k in tick.queue ==> QueuedOk(k, p, tick, pending, pollers, registers, origin))
    && (forall i, j :: 0 <= i < j < |tick.queue| ==> tick.queue[i] != tick.queue[j])
  }

  /** A pending entry is polled by one tick only, that of its turn's own poller. */
  ghost predicate QueuesOk(ticks: map<nat, Tick>, pending: map<Key, Input>, pollers: map<Turn, Poller>,
                           registers: map<Key, RegisterPhase>, origin: map<Key, Origin>) {
    forall p :: p in ticks ==> QueueOk(p, ticks[p], pending, pollers, registers, origin)
  }

  /** An ended turn is remembered for at least the memory's length. */
  ghost predicate MemoryOk(now: nat, abandoned: map<Turn, nat>, dead: map<Turn, nat>) {
    && (forall t :: t in abandoned ==> t in dead && abandoned[t] == dead[t] + ABANDONED_MEMORY_MS)
    && (forall t :: t in dead && now < dead[t] + ABANDONED_MEMORY_MS ==> t in abandoned)
  }

  /** Rows are deleted for ended turns only, and never under a live entry. */
  ghost predicate DeletesOk(deletes: set<Key>, deleteIssued: set<Key>, dead: map<Turn, nat>,
                            pending: map<Key, Input>, registers: map<Key, RegisterPhase>,
                            origin: map<Key, Origin>) {
    && deletes <= deleteIssued
    && (forall k :: k in deleteIssued ==>
          TurnOf(k) in dead && k in origin && k !in pending && k !in registers)
  }

  /** A row still in the store has an owner, a delete on its way, or came from a put that threw. */
  ghost predicate KeptOk(kv: map<Key, Row>, pending: map<Key, Input>, registers: map<Key, RegisterPhase>,
                         deleteIssued: set<Key>, stray: set<Key>) {
    forall k :: k in kv ==>
      k in pending || (k in registers && registers[k] != PutFailed) || k in deleteIssued || k in stray
  }

  /** A row that a tick took, or read as missing, is not there. */
  predicate Gone(tick: Tick, kv: map<Key, Row>) {
    tick.queue != [] && (tick.phase.Took? || tick.phase == Got(None)) ==> tick.queue[0] !in kv
  }

  ghost predicate GoneOk(ticks: map<nat, Tick>, kv: map<Key, Row>) {
    forall p :: p in ticks ==> Gone(ticks[p], kv)
  }

  predicate HoldsAnswer(row: Option<Row>) { row.Some? && row.value.answers.Some? }

  /** An answered entry that a tick has still to deliver. */
  predicate Waiting(k: Key, tick: Tick, kv: map<Key, Row>, pending: map<Key, Input>) {
    && k in tick.queue && k in pending
    && if tick.queue[0] != k then HoldsAnswer(Lookup(kv, k))
       else match tick.phase
            case Got(reply) => HoldsAnswer(reply) && HoldsAnswer(Lookup(kv, k))
            case Took(reply) => HoldsAnswer(reply)
            case Threw => false
            case _ => HoldsAnswer(Lookup(kv, k))
  }

  predicate Delivered(k: Key, verdicts: map<Key, Verdict>) { k in verdicts && verdicts[k].Allow? }

  predicate Excused(k: Key, tick: Tick, expired: set<Key>, dead: map<Turn, nat>) {
    k in tick.failed || k in expired || TurnOf(k) in dead
  }

  predicate KeyDueOk(k: Key, tick: Tick, kv: map<Key, Row>, pending: map<Key, Input>,
                     verdicts: map<Key, Verdict>, expired: set<Key>, dead: map<Turn, nat>) {
    Excused(k, tick, expired, dead) || Delivered(k, verdicts) || Waiting(k, tick, kv, pending)
  }

  /** What was answered when a tick started is delivered or still waits in that tick, unless its row
    * expired, its turn ended or the tick's kv call for it threw. */
  ghost predicate DueOk(ticks: map<nat, Tick>, kv: map<Key, Row>, pending: map<Key, Input>,
                        verdicts: map<Key, Verdict>, expired: set<Key>, dead: map<Turn, nat>) {
    forall p, k :: p in ticks && k in ticks[p].due ==> KeyDueOk(k, ticks[p], kv, pending, verdicts, expired, dead)
  }

  ghost predicate InvAnswers(s: State) {
    && NamesOk(s.local.pending, s.registers, s.verdicts, s.settlements, s.origin)
    && RowsOk(s.kv, s.registers, s.swaps, s.origin)
    && CallsOk(s.calls, s.swaps, s.origin)
    && SwapsOk(s.swaps, s.calls, s.origin)
    && VerdictsOk(s.verdicts, s.swaps, s.origin)
    && RepliesOk(s.ticks, s.swaps, s.origin)
  }

  ghost predicate InvFlow(s: State) {
    && ServedOk(s.local.pending, s.local.pollers)
    && TicksOk(s.local.pollers, s.ticks, s.nextPoller)
    && QueuesOk(s.ticks, s.local.pending, s.local.pollers, s.registers, s.origin)
    && MemoryOk(s.now, s.local.abandoned, s.dead)
    && DeletesOk(s.deletes, s.deleteIssued, s.dead, s.local.pending, s.registers, s.origin)
    && KeptOk(s.kv, s.local.pending, s.registers, s.deleteIssued, s.stray)
    && GoneOk(s.ticks, s.kv)
  }

  ghost predicate InvDue(s: State) {
    DueOk(s.ticks, s.kv, s.local.pending, s.verdicts, s.expired, s.dead)
  }

  ghost predicate Inv(s: State) { InvAnswers(s) && InvFlow(s) && InvDue(s) }

  // ----- every step keeps the invariants -----

  /** Dropping a row keeps what is due, as long as no tick still waits to deliver it. */
  lemma DropRowKeepsDue(s: State, k: Key, expired: set<Key>)
    requires Inv(s) && s.expired <= expired
    requires k in expired || TurnOf(k) in s.dead || k !in s.local.pending
    ensures DueOk(s.ticks, s.kv - {k}, s.local.pending, s.verdicts, expired, s.dead)
  {
    forall p, q | p in s.ticks && q in s.ticks[p].due
      ensures KeyDueOk(q, s.ticks[p], s.kv - {k}, s.local.pending, s.verdicts, expired, s.dead)
    {
      assert KeyDueOk(q, s.ticks[p], s.kv, s.local.pending, s.verdicts, s.expired, s.dead);
      if q != k {
        assert Lookup(s.kv - {k}, q) == Lookup(s.kv, q);
      }
    }
  }

  lemma ExpireKeeps(s: State, k: Key)
    requires Inv(s)
    ensures Inv(s.(kv := s.kv - {k}, expired := s.expired + {k}))
  {
    DropRowKeepsDue(s, k, s.expired + {k});
  }

  lemma DeleteKeeps(s: State, k: Key)
    requires Inv(s) && k in s.deletes
    ensures Inv(s.(kv := s.kv - {k}, deletes := s.deletes - {k}))
  {
    DropRowKeepsDue(s, k, s.expired);
  }

  lemma WaitKeeps(s: State, ms: nat)
    requires Inv(s)
    ensures Inv(s.(now := s.now + ms))
  {
  }

  lemma DeleteThrowsKeeps(s: State, k: Key)
    requires Inv(s)
    ensures Inv(s.(deletes := s.deletes - {k}))
  {
  }

  lemma FreshOriginKeepsRows(s: State, k: Key, o: Origin)
    requires InvAnswers(s) && k !in s.origin
    ensures RowsOk(s.kv, s.registers, s.swaps, s.origin[k := o]) && CallsOk(s.calls, s.swaps, s.origin[k := o])
  {
  }

  lemma FreshOriginKeepsAnswers(s: State, k: Key, o: Origin)
    requires InvAnswers(s) && k !in s.origin
    ensures InvAnswers(s.(origin := s.origin[k := o]))
  {
    FreshOriginKeepsRows(s, k, o);
  }

  /** Queues stay right when the calls still registering change, but to no queued key. */
  lemma RegistersKeepQueues(s: State, registers: map<Key, RegisterPhase>)
    requires QueuesOk(s.ticks, s.local.pending, s.local.pollers, s.registers, s.origin)
    requires forall p, k :: p in s.ticks && k in s.ticks[p].queue ==> k !in registers
    ensures QueuesOk(s.ticks, s.local.pending, s.local.pollers, registers, s.origin)
  {
    forall p | p in s.ticks
      ensures QueueOk(p, s.ticks[p], s.local.pending, s.local.pollers, registers, s.origin)
    {
      assert QueueOk(p, s.ticks[p], s.local.pending, s.local.pollers, s.registers, s.origin);
    }
  }

  lemma QueuedAreNotRegistering(s: State, p: nat, k: Key)
    requires QueuesOk(s.ticks, s.local.pending, s.local.pollers, s.registers, s.origin)
    requires p in s.ticks && k in s.ticks[p].queue
    ensures QueuedOk(k, p, s.ticks[p], s.local.pending, s.local.pollers, s.registers, s.origin)
  {
  }

  lemma RegisterStartKeepsAnswers(s: State, k: Key)
    requires InvAnswers(s) && k in s.origin
    requires k !in s.kv && k !in s.swaps && k !in s.verdicts && k !in s.local.pending
    ensures InvAnswers(s.(registers := s.registers[k := Putting]))
  {
  }

  lemma RegisterStartKeeps(s: State, k: Key)
    requires Inv(s) && k in s.origin && k !in s.kv && k !in s.swaps && k !in s.verdicts && k !in s.local.pending
    requires k !in s.deleteIssued && (forall p :: p in s.ticks ==> k !in s.ticks[p].queue)
    ensures Inv(s.(registers := s.registers[k := Putting]))
  {
    var registers := s.registers[k := Putting];
    RegisterStartKeepsAnswers(s, k);
    forall p, q | p in s.ticks && q in s.ticks[p].queue
      ensures q !in registers
    {
      QueuedAreNotRegistering(s, p, q);
    }
    RegistersKeepQueues(s, registers);
  }

  /** The call is on record and the memory of ended turns pruned. */
  lemma RecordKeeps(s: State, k: Key, o: Origin)
    requires Inv(s) && k !in s.origin
    ensures Inv(s.(local := s.local.(abandoned := Prune(s.local.abandoned, s.now)), origin := s.origin[k := o]))
  {
    FreshOriginKeepsAnswers(s, k, o);
  }

  lemma RegisterCallKeeps(s: State, k: Key, principal: Option<string>, input: Input)
    requires Inv(s) && k !in s.origin
    ensures Inv(DoRegisterCall(s, k, principal, input))
  {
    RecordKeeps(s, k, Origin(principal, input));
    if !Refused(s, k) {
      UnusedKey(s, k);
      RegisterStartKeeps(s.(local := s.local.(abandoned := Prune(s.local.abandoned, s.now)),
                            origin := s.origin[k := Origin(principal, input)]), k);
    }
  }

  /** A key of which there is no record is nowhere in the state. */
  lemma UnusedKey(s: State, k: Key)
    requires Inv(s) && k !in s.origin
    ensures k !in s.kv && k !in s.swaps && k !in s.verdicts && k !in s.local.pending && k !in s.deleteIssued
    ensures forall p :: p in s.ticks ==> k !in s.ticks[p].queue
  {
    assert k in s.kv ==> RowOk(s.swaps, s.origin, k, s.kv[k]);
    forall p | p in s.ticks
      ensures k !in s.ticks[p].queue
    {
      assert QueueOk(p, s.ticks[p], s.local.pending, s.local.pollers, s.registers, s.origin);
      assert k in s.ticks[p].queue ==>
          QueuedOk(k, p, s.ticks[p], s.local.pending, s.local.pollers, s.registers, s.origin);
    }
  }

  lemma PutKeepsDue(s: State, k: Key, row: Row)
    requires InvDue(s) && k !in s.local.pending
    ensures DueOk(s.ticks, s.kv[k := row], s.local.pending, s.verdicts, s.expired, s.dead)
  {
    forall p, q | p in s.ticks && q in s.ticks[p].due
      ensures KeyDueOk(q, s.ticks[p], s.kv[k := row], s.local.pending, s.verdicts, s.expired, s.dead)
    {
      assert KeyDueOk(q, s.ticks[p], s.kv, s.local.pending, s.verdicts, s.expired, s.dead);
      if q != k {
        assert Lookup(s.kv[k := row], q) == Lookup(s.kv, q);
      }
    }
  }

  lemma PhaseKeepsQueues(s: State, k: Key, phase: RegisterPhase)
    requires QueuesOk(s.ticks, s.local.pending, s.local.pollers, s.registers, s.origin) && k in s.registers
    ensures QueuesOk(s.ticks, s.local.pending, s.local.pollers, s.registers[k := phase], s.origin)
  {
    forall p, q | p in s.ticks && q in s.ticks[p].queue
      ensures q !in s.registers[k := phase]
    {
      QueuedAreNotRegistering(s, p, q);
    }
    RegistersKeepQueues(s, s.registers[k := phase]);
  }

  /** The put's effect, whether or not its call learns of it. */
  function Storing(s: State, k: Key, phase: RegisterPhase): State
    requires k in s.origin
  {
    s.(kv := s.kv[k := FirstRow(s.origin[k])], registers := s.registers[k := phase])
  }

  lemma PutKeepsAnswers(s: State, k: Key, phase: RegisterPhase)
    requires InvAnswers(s) && k in s.registers && s.registers[k] == Putting && phase != Putting
    ensures InvAnswers(Storing(s, k, phase))
  {
  }

  lemma PutKeepsGone(s: State, k: Key, phase: RegisterPhase)
    requires GoneOk(s.ticks, s.kv) && k in s.registers && k in s.origin
    requires QueuesOk(s.ticks, s.local.pending, s.local.pollers, s.registers, s.origin)
    ensures GoneOk(s.ticks, Storing(s, k, phase).kv)
  {
    forall p | p in s.ticks
      ensures Gone(s.ticks[p], Storing(s, k, phase).kv)
    {
      assert Gone(s.ticks[p], s.kv);
      if s.ticks[p].queue != [] {
        QueuedAreNotRegistering(s, p, s.ticks[p].queue[0]);
      }
    }
  }

  lemma PutKeeps(s: State, k: Key, phase: RegisterPhase, stray: set<Key>)
    requires Inv(s) && k in s.registers && s.registers[k] == Putting
    requires (phase == Stored && stray == {}) || (phase == PutFailed && stray == {k})
    ensures Inv(Storing(s, k, phase).(stray := s.stray + stray))
  {
    PutKeepsDue(s, k, FirstRow(s.origin[k]));
    PutKeepsGone(s, k, phase);
    PutKeepsAnswers(s, k, phase);
    PhaseKeepsQueues(s, k, phase);
  }

  lemma PutFailsKeepsAnswers(s: State, k: Key)
    requires InvAnswers(s) && k in s.registers
    ensures InvAnswers(s.(registers := s.registers[k := PutFailed]))
  {
  }

  lemma PutFailsKeeps(s: State, k: Key)
    requires Inv(s) && k in s.registers && s.registers[k] == Putting
    ensures Inv(s.(registers := s.registers[k := PutFailed]))
  {
    PutFailsKeepsAnswers(s, k);
    PhaseKeepsQueues(s, k, PutFailed);
  }

  /** The call is over; a row it stored has a delete issued, or came from a put that threw. */
  lemma RegisterDropKeeps(s: State, k: Key, deleted: set<Key>)
    requires Inv(s) && k in s.registers && deleted <= {k}
    requires deleted == {k} ==> TurnOf(k) in s.dead
    requires k in s.kv ==> k in deleted || k in s.stray
    ensures Inv(s.(registers := s.registers - {k}, deletes := s.deletes + deleted,
                   deleteIssued := s.deleteIssued + deleted))
  {
    forall p, q | p in s.ticks && q in s.ticks[p].queue
      ensures q !in s.registers - {k}
    {
      QueuedAreNotRegistering(s, p, q);
    }
    RegistersKeepQueues(s, s.registers - {k});
  }

  lemma ArmKeepsServed(l: Local, k: Key, input: Input, p: nat)
    requires ServedOk(l.pending, l.pollers)
    ensures ServedOk(Arming(l, k, input, p).pending, Arming(l, k, input, p).pollers)
  {
    var pending := l.pending[k := input];
    assert HasOne(pending, TurnOf(k), k);
    forall t | t in l.pollers && !l.pollers[t].busy
      ensures HasSome(pending, t)
    {
      var q :| HasOne(l.pending, t, q);
      assert HasOne(pending, t, q);
    }
  }

  lemma ArmKeepsTicks(s: State, k: Key, input: Input)
    requires TicksOk(s.local.pollers, s.ticks, s.nextPoller)
    ensures TicksOk(Arming(s.local, k, input, s.nextPoller).pollers, s.ticks, s.nextPoller + 1)
  {
  }

  lemma ArmKeepsQueues(s: State, k: Key)
    requires Inv(s) && k in s.registers
    ensures var l := Arming(s.local, k, s.origin[k].input, s.nextPoller);
            QueuesOk(s.ticks, l.pending, l.pollers, s.registers - {k}, s.origin)
  {
    var l := Arming(s.local, k, s.origin[k].input, s.nextPoller);
    forall p | p in s.ticks
      ensures QueueOk(p, s.ticks[p], l.pending, l.pollers, s.registers - {k}, s.origin)
    {
      assert QueueOk(p, s.ticks[p], s.local.pending, s.local.pollers, s.registers, s.origin);
    }
  }

  lemma ArmKeepsDue(s: State, k: Key)
    requires Inv(s) && k in s.registers
    ensures DueOk(s.ticks, s.kv, s.local.pending[k := s.origin[k].input], s.verdicts, s.expired, s.dead)
  {
    forall p, q | p in s.ticks && q in s.ticks[p].due
      ensures KeyDueOk(q, s.ticks[p], s.kv, s.local.pending[k := s.origin[k].input], s.verdicts, s.expired, s.dead)
    {
      assert KeyDueOk(q, s.ticks[p], s.kv, s.local.pending, s.verdicts, s.expired, s.dead);
    }
  }

  lemma ArmKeepsAnswers(s: State, k: Key)
    requires InvAnswers(s) && k in s.registers
    ensures NamesOk(s.local.pending[k := s.origin[k].input], s.registers - {k}, s.verdicts, s.settlements, s.origin)
    ensures RowsOk(s.kv, s.registers - {k}, s.swaps, s.origin)
  {
  }

  lemma ArmKeeps(s: State, k: Key)
    requires Inv(s) && k in s.registers && s.registers[k] == Stored
    ensures Inv(s.(registers := s.registers - {k},
                   local := Arming(s.local, k, s.origin[k].input, s.nextPoller),
                   nextPoller := s.nextPoller + 1))
  {
    ArmKeepsAnswers(s, k);
    ArmKeepsServed(s.local, k, s.origin[k].input, s.nextPoller);
    ArmKeepsTicks(s, k, s.origin[k].input);
    ArmKeepsQueues(s, k);
    ArmKeepsDue(s, k);
  }

  lemma RegisterResumeKeeps(s: State, k: Key)
    requires Inv(s) && k in s.registers && s.registers[k] != Putting
    ensures Inv(DoRegisterResume(s, k))
  {
    if Arms(s, k) {
      ArmKeeps(s, k);
      assert s.deletes + {} == s.deletes && s.deleteIssued + {} == s.deleteIssued;
    } else {
      RegisterDropKeeps(s, k, Unwanted(s, k));
    }
  }

  lemma AbandonKeepsAnswers(s: State, t: Turn)
    requires InvAnswers(s)
    ensures InvAnswers(DoAbandon(s, t))
  {
  }

  lemma AbandonKeepsServed(l: Local, t: Turn, now: nat)
    requires ServedOk(l.pending, l.pollers)
    ensures ServedOk(Abandoning(l, t, now).pending, Abandoning(l, t, now).pollers)
  {
    var l' := Abandoning(l, t, now);
    forall u | u in l'.pollers && !l'.pollers[u].busy
      ensures HasSome(l'.pending, u)
    {
      var q :| HasOne(l.pending, u, q);
      assert HasOne(l'.pending, u, q);
    }
  }

  lemma AbandonKeepsQueues(s: State, t: Turn)
    requires QueuesOk(s.ticks, s.local.pending, s.local.pollers, s.registers, s.origin)
    ensures var l := Abandoning(s.local, t, s.now);
            QueuesOk(s.ticks, l.pending, l.pollers, s.registers, s.origin)
  {
    var l := Abandoning(s.local, t, s.now);
    forall p | p in s.ticks
      ensures QueueOk(p, s.ticks[p], l.pending, l.pollers, s.registers, s.origin)
    {
      assert QueueOk(p, s.ticks[p], s.local.pending, s.local.pollers, s.registers, s.origin);
    }
  }

  lemma AbandonKeepsDue(s: State, t: Turn)
    requires InvDue(s)
    ensures InvDue(DoAbandon(s, t))
  {
    var s' := DoAbandon(s, t);
    forall p, q | p in s.ticks && q in s.ticks[p].due
      ensures KeyDueOk(q, s.ticks[p], s'.kv, s'.local.pending, s'.verdicts, s'.expired, s'.dead)
    {
      assert KeyDueOk(q, s.ticks[p], s.kv, s.local.pending, s.verdicts, s.expired, s.dead);
    }
  }

  lemma AbandonKeeps(s: State, t: Turn)
    requires Inv(s)
    ensures Inv(DoAbandon(s, t))
  {
    AbandonKeepsAnswers(s, t);
    AbandonKeepsServed(s.local, t, s.now);
    AbandonKeepsQueues(s, t);
    AbandonKeepsDue(s, t);
  }

  lemma TickStartKeepsPollers(s: State, t: Turn, tick: Tick)
    requires ServedOk(s.local.pending, s.local.pollers) && TicksOk(s.local.pollers, s.ticks, s.nextPoller)
    requires t in s.local.pollers && !s.local.pollers[t].busy && tick.turn == t
    ensures var p := s.local.pollers[t].id;
            var pollers := s.local.pollers[t := Poller(p, true)];
            ServedOk(s.local.pending, pollers) && TicksOk(pollers, s.ticks[p := tick], s.nextPoller)
  {
  }

  lemma TickStartKeepsQueues(s: State, t: Turn, order: seq<Key>)
    requires Inv(s) && TickEnabled(s, TickStart(t, order))
    ensures var s' := DoTickStart(s, t, order);
            QueuesOk(s'.ticks, s'.local.pending, s'.local.pollers, s'.registers, s'.origin)
  {
    var s' := DoTickStart(s, t, order);
    var p := s.local.pollers[t].id;
    forall r | r in s'.ticks && r != p
      ensures QueueOk(r, s'.ticks[r], s'.local.pending, s'.local.pollers, s'.registers, s'.origin)
    {
      assert QueueOk(r, s.ticks[r], s.local.pending, s.local.pollers, s.registers, s.origin);
    }
    forall k | k in order
      ensures QueuedOk(k, p, s'.ticks[p], s'.local.pending, s'.local.pollers, s'.registers, s'.origin)
    {
      assert k in KeysOf(s.local, t);
    }
  }

  lemma TickStartKeepsDue(s: State, t: Turn, order: seq<Key>)
    requires InvDue(s) && TickEnabled(s, TickStart(t, order))
    ensures InvDue(DoTickStart(s, t, order))
  {
    var s' := DoTickStart(s, t, order);
    var p := s.local.pollers[t].id;
    forall r, q | r in s'.ticks && q in s'.ticks[r].due
      ensures KeyDueOk(q, s'.ticks[r], s'.kv, s'.local.pending, s'.verdicts, s'.expired, s'.dead)
    {
      if r != p {
        assert KeyDueOk(q, s.ticks[r], s.kv, s.local.pending, s.verdicts, s.expired, s.dead);
      } else {
        assert q in KeysOf(s.local, t);
      }
    }
  }

  lemma TickStartKeepsReplies(s: State, t: Turn, order: seq<Key>)
    requires RepliesOk(s.ticks, s.swaps, s.origin) && GoneOk(s.ticks, s.kv) && t in s.local.pollers
    ensures var s' := DoTickStart(s, t, order); RepliesOk(s'.ticks, s.swaps, s.origin) && GoneOk(s'.ticks, s.kv)
  {
  }

  lemma TickStartKeeps(s: State, t: Turn, order: seq<Key>)
    requires Inv(s) && TickEnabled(s, TickStart(t, order))
    ensures Inv(DoTickStart(s, t, order))
  {
    TickStartKeepsPollers(s, t, DoTickStart(s, t, order).ticks[s.local.pollers[t].id]);
    TickStartKeepsQueues(s, t, order);
    TickStartKeepsDue(s, t, order);
    TickStartKeepsReplies(s, t, order);
  }

  /** A tick that moves on without settling anything: its queue is the same or a shorter tail. */
  lemma SetTickKeepsFlow(s: State, p: nat, tick: Tick)
    requires InvFlow(s) && p in s.ticks && tick.turn == s.ticks[p].turn
    requires tick.queue == s.ticks[p].queue || (s.ticks[p].queue != [] && tick.queue == s.ticks[p].queue[1..])
    requires Gone(tick, s.kv)
    ensures InvFlow(SetTick(s, p, tick))
  {
    var ticks := s.ticks[p := tick];
    assert forall k :: k in tick.queue ==> k in s.ticks[p].queue;
    forall r | r in ticks
      ensures QueueOk(r, ticks[r], s.local.pending, s.local.pollers, s.registers, s.origin)
    {
      assert QueueOk(r, s.ticks[r], s.local.pending, s.local.pollers, s.registers, s.origin);
    }
  }

  lemma SetTickKeeps(s: State, p: nat, tick: Tick)
    requires Inv(s) && p in s.ticks && tick.turn == s.ticks[p].turn
    requires tick.queue == s.ticks[p].queue || (s.ticks[p].queue != [] && tick.queue == s.ticks[p].queue[1..])
    requires ReplyOk(tick, s.swaps, s.origin) && Gone(tick, s.kv) && tick.due == s.ticks[p].due
    requires forall k :: k in tick.due && KeyDueOk(k, s.ticks[p], s.kv, s.local.pending, s.verdicts, s.expired, s.dead)
               ==> KeyDueOk(k, tick, s.kv, s.local.pending, s.verdicts, s.expired, s.dead)
    ensures Inv(SetTick(s, p, tick))
  {
    SetTickKeepsFlow(s, p, tick);
    var ticks := s.ticks[p := tick];
    forall r, q | r in ticks && q in ticks[r].due
      ensures KeyDueOk(q, ticks[r], s.kv, s.local.pending, s.verdicts, s.expired, s.dead)
    {
      assert KeyDueOk(q, s.ticks[r], s.kv, s.local.pending, s.verdicts, s.expired, s.dead);
    }
  }

  lemma TickGetKeeps(s: State, p: nat)
    requires Inv(s) && p in s.ticks && s.ticks[p].queue != [] && s.ticks[p].phase == Getting
    ensures Inv(SetTick(s, p, s.ticks[p].(phase := Got(Lookup(s.kv, s.ticks[p].queue[0])))))
  {
    SetTickKeeps(s, p, s.ticks[p].(phase := Got(Lookup(s.kv, s.ticks[p].queue[0]))));
  }

  /** No two ticks poll one pending entry. */
  lemma OneTickAKey(s: State, p: nat, r: nat, k: Key)
    requires QueuesOk(s.ticks, s.local.pending, s.local.pollers, s.registers, s.origin)
    requires p in s.ticks && r in s.ticks && k in s.ticks[p].queue && k in s.ticks[r].queue && k in s.local.pending
    ensures p == r
  {
    assert QueuedOk(k, r, s.ticks[r], s.local.pending, s.local.pollers, s.registers, s.origin);
    assert QueuedOk(k, p, s.ticks[p], s.local.pending, s.local.pollers, s.registers, s.origin);
  }

  /** Taking the row of the entry polled: only this tick can have been waiting for it. */
  lemma TakeRowKeepsDue(s: State, p: nat, tick: Tick)
    requires InvDue(s) && QueuesOk(s.ticks, s.local.pending, s.local.pollers, s.registers, s.origin)
    requires p in s.ticks && s.ticks[p].queue != []
    requires (tick == s.ticks[p].(phase := Took(Lookup(s.kv, s.ticks[p].queue[0]))) && s.ticks[p].phase == Taking)
          || tick == s.ticks[p].(phase := Threw, failed := s.ticks[p].failed + {s.ticks[p].queue[0]})
    ensures DueOk(s.ticks[p := tick], s.kv - {tick.queue[0]}, s.local.pending, s.verdicts, s.expired, s.dead)
  {
    var k := tick.queue[0];
    var ticks := s.ticks[p := tick];
    forall r, q | r in ticks && q in ticks[r].due
      ensures KeyDueOk(q, ticks[r], s.kv - {k}, s.local.pending, s.verdicts, s.expired, s.dead)
    {
      assert KeyDueOk(q, s.ticks[r], s.kv, s.local.pending, s.verdicts, s.expired, s.dead);
      if q != k {
        assert Lookup(s.kv - {k}, q) == Lookup(s.kv, q);
      } else if k in s.ticks[r].queue && k in s.local.pending {
        OneTickAKey(s, p, r, k);
      }
    }
  }

  lemma TickTakeKeeps(s: State, p: nat)
    requires Inv(s) && p in s.ticks && s.ticks[p].queue != [] && s.ticks[p].phase == Taking
    ensures Inv(DoTickTake(s, p))
  {
    var tick := s.ticks[p].(phase := Took(Lookup(s.kv, s.ticks[p].queue[0])));
    TakeRowKeepsDue(s, p, tick);
    SetTickKeepsFlow(s.(kv := s.kv - {tick.queue[0]}), p, tick);
  }

  lemma TickThrowsKeeps(s: State, p: nat, taken: bool)
    requires Inv(s) && TickEnabled(s, TickThrows(p, taken))
    ensures Inv(DoTickThrows(s, p, taken))
  {
    var tick := s.ticks[p].(phase := Threw, failed := s.ticks[p].failed + {s.ticks[p].queue[0]});
    SetTickKeepsFlow(s, p, tick);
    TakeRowKeepsDue(s, p, tick);
    SetTickKeeps(s, p, tick);
  }

  /** What waits behind the entry polled still waits when the tick moves on. */
  lemma MovingOnKeepsDue(tick: Tick, k: Key, kv: map<Key, Row>, pending: map<Key, Input>)
    requires tick.queue != [] && Waiting(k, tick, kv, pending) && k != tick.queue[0]
    requires forall i, j :: 0 <= i < j < |tick.queue| ==> tick.queue[i] != tick.queue[j]
    ensures Waiting(k, NextTick(tick), kv, pending)
  {
    var i :| 0 <= i < |tick.queue| && tick.queue[i] == k;
    assert NextTick(tick).queue[i - 1] == k;
  }

  lemma TickMoveKeeps(s: State, p: nat)
    requires Inv(s) && p in s.ticks && s.ticks[p].queue != []
    requires !Waiting(s.ticks[p].queue[0], s.ticks[p], s.kv, s.local.pending)
    ensures Inv(SetTick(s, p, NextTick(s.ticks[p])))
  {
    var tick := s.ticks[p];
    assert QueueOk(p, tick, s.local.pending, s.local.pollers, s.registers, s.origin);
    forall k | k in tick.due && KeyDueOk(k, tick, s.kv, s.local.pending, s.verdicts, s.expired, s.dead)
      ensures KeyDueOk(k, NextTick(tick), s.kv, s.local.pending, s.verdicts, s.expired, s.dead)
    {
      if Waiting(k, tick, s.kv, s.local.pending) {
        MovingOnKeepsDue(tick, k, s.kv, s.local.pending);
      }
    }
    SetTickKeeps(s, p, NextTick(tick));
  }

  lemma SettleKeepsAnswers(s: State, k: Key, v: Verdict)
    requires InvAnswers(s) && k in s.local.pending && VerdictOk(k, v, s.swaps, s.origin)
    ensures InvAnswers(SettleOne(s, k, v))
  {
  }

  lemma SettleKeepsServed(pending: map<Key, Input>, pollers: map<Turn, Poller>, k: Key)
    requires ServedOk(pending, pollers) && k in pending && pollers[TurnOf(k)].busy
    ensures ServedOk(pending - {k}, pollers)
  {
    forall u | u in pollers && !pollers[u].busy
      ensures HasSome(pending - {k}, u)
    {
      var q :| HasOne(pending, u, q);
      assert HasOne(pending - {k}, u, q);
    }
  }

  lemma SettleKeepsQueues(s: State, k: Key)
    requires QueuesOk(s.ticks, s.local.pending, s.local.pollers, s.registers, s.origin)
    ensures QueuesOk(s.ticks, s.local.pending - {k}, s.local.pollers, s.registers, s.origin)
  {
    forall p | p in s.ticks
      ensures QueueOk(p, s.ticks[p], s.local.pending - {k}, s.local.pollers, s.registers, s.origin)
    {
      assert QueueOk(p, s.ticks[p], s.local.pending, s.local.pollers, s.registers, s.origin);
    }
  }

  lemma SettleKeepsDue(s: State, p: nat, v: Verdict)
    requires InvDue(s) && QueuesOk(s.ticks, s.local.pending, s.local.pollers, s.registers, s.origin)
    requires p in s.ticks && s.ticks[p].queue != []
    requires v.Deny? ==> !Waiting(s.ticks[p].queue[0], s.ticks[p], s.kv, s.local.pending)
    requires s.ticks[p].queue[0] in s.local.pending && s.ticks[p].queue[0] !in s.verdicts
    ensures InvDue(SettleOne(s, s.ticks[p].queue[0], v))
  {
    var k := s.ticks[p].queue[0];
    var s' := SettleOne(s, k, v);
    forall r, q | r in s.ticks && q in s.ticks[r].due
      ensures KeyDueOk(q, s.ticks[r], s'.kv, s'.local.pending, s'.verdicts, s'.expired, s'.dead)
    {
      assert KeyDueOk(q, s.ticks[r], s.kv, s.local.pending, s.verdicts, s.expired, s.dead);
      if q == k && k in s.ticks[r].queue {
        OneTickAKey(s, p, r, k);
      }
    }
  }

  lemma SettleKeeps(s: State, p: nat, v: Verdict)
    requires Inv(s) && p in s.ticks && s.ticks[p].queue != []
    requires s.ticks[p].queue[0] in s.local.pending && VerdictOk(s.ticks[p].queue[0], v, s.swaps, s.origin)
    requires v.Deny? ==> !Waiting(s.ticks[p].queue[0], s.ticks[p], s.kv, s.local.pending)
    requires s.ticks[p].queue[0] !in s.kv
    ensures Inv(SettleOne(s, s.ticks[p].queue[0], v))
  {
    var k := s.ticks[p].queue[0];
    assert QueuedOk(k, p, s.ticks[p], s.local.pending, s.local.pollers, s.registers, s.origin);
    SettleKeepsAnswers(s, k, v);
    SettleKeepsServed(s.local.pending, s.local.pollers, k);
    SettleKeepsQueues(s, k);
    SettleKeepsDue(s, p, v);
  }

  lemma TickSettleKeeps(s: State, p: nat, v: Verdict)
    requires Inv(s) && p in s.ticks && s.ticks[p].queue != []
    requires s.ticks[p].queue[0] in s.local.pending && VerdictOk(s.ticks[p].queue[0], v, s.swaps, s.origin)
    requires v.Deny? ==> !Waiting(s.ticks[p].queue[0], s.ticks[p], s.kv, s.local.pending)
    requires s.ticks[p].queue[0] !in s.kv
    ensures Inv(SettleOne(SetTick(s, p, NextTick(s.ticks[p])), s.ticks[p].queue[0], v))
  {
    var k := s.ticks[p].queue[0];
    SettleKeeps(s, p, v);
    var s1 := SettleOne(s, k, v);
    TickMoveKeeps(s1, p);
    assert SettleOne(SetTick(s, p, NextTick(s.ticks[p])), k, v) == SetTick(s1, p, NextTick(s1.ticks[p]));
  }

  lemma TakeBeginKeeps(s: State, p: nat)
    requires Inv(s) && p in s.ticks && s.ticks[p].phase.Got?
    ensures Inv(SetTick(s, p, s.ticks[p].(phase := Taking)))
  {
    SetTickKeeps(s, p, s.ticks[p].(phase := Taking));
  }

  /** A tick settles only what it may: an allow that was swapped in, or a deny that nothing answered
    * waits behind. */
  lemma PolledOk(s: State, p: nat)
    requires Inv(s) && TickEnabled(s, TickResume(p))
    ensures var tick := s.ticks[p];
            var k := tick.queue[0];
            match Polled(tick, s.local.pending)
            case Leave => !Waiting(k, tick, s.kv, s.local.pending)
            case Take => tick.phase.Got?
            case Settle(v) =>
              && k in s.local.pending && k !in s.kv && VerdictOk(k, v, s.swaps, s.origin)
              && (v.Deny? ==> !Waiting(k, tick, s.kv, s.local.pending))
  {
    var tick := s.ticks[p];
    assert ReplyOk(tick, s.swaps, s.origin) && Gone(tick, s.kv);
  }

  lemma ResumeForms(s: State, p: nat)
    requires p in s.ticks && s.ticks[p].queue != []
    ensures match Polled(s.ticks[p], s.local.pending)
            case Leave => DoTickResume(s, p) == SetTick(s, p, NextTick(s.ticks[p]))
            case Take => DoTickResume(s, p) == SetTick(s, p, s.ticks[p].(phase := Taking))
            case Settle(v) =>
              DoTickResume(s, p) == SettleOne(SetTick(s, p, NextTick(s.ticks[p])), s.ticks[p].queue[0], v)
  {
  }

  lemma TickResumeKeeps(s: State, p: nat)
    requires Inv(s) && TickEnabled(s, TickResume(p))
    ensures Inv(DoTickResume(s, p))
  {
    PolledOk(s, p);
    ResumeForms(s, p);
    match Polled(s.ticks[p], s.local.pending)
    case Leave => TickMoveKeeps(s, p);
    case Settle(v) => TickSettleKeeps(s, p, v);
    case Take => TakeBeginKeeps(s, p);
  }

  lemma TickEndKeepsServed(l: Local, t: Turn, p: nat)
    requires ServedOk(l.pending, l.pollers)
    ensures ServedOk(EndingTick(l, t, p).pending, EndingTick(l, t, p).pollers)
  {
    if KeysOf(l, t) == {} {
      assert forall k :: k in l.pending ==> k !in KeysOf(l, t);
    } else {
      var k :| k in KeysOf(l, t);
      assert HasOne(l.pending, t, k);
    }
  }

  lemma TickEndKeepsTicks(s: State, p: nat)
    requires TicksOk(s.local.pollers, s.ticks, s.nextPoller) && p in s.ticks
    ensures TicksOk(EndingTick(s.local, s.ticks[p].turn, p).pollers, s.ticks - {p}, s.nextPoller)
  {
  }

  lemma TickEndKeepsQueues(s: State, p: nat)
    requires Inv(s) && p in s.ticks
    ensures var l := EndingTick(s.local, s.ticks[p].turn, p);
            QueuesOk(s.ticks - {p}, l.pending, l.pollers, s.registers, s.origin)
  {
    var l := EndingTick(s.local, s.ticks[p].turn, p);
    forall r | r in s.ticks - {p}
      ensures QueueOk(r, s.ticks[r], l.pending, l.pollers, s.registers, s.origin)
    {
      assert QueueOk(r, s.ticks[r], s.local.pending, s.local.pollers, s.registers, s.origin);
    }
  }

  lemma TickEndKeepsRest(s: State, p: nat)
    requires Inv(s) && p in s.ticks
    ensures RepliesOk(s.ticks - {p}, s.swaps, s.origin) && GoneOk(s.ticks - {p}, s.kv)
    ensures DueOk(s.ticks - {p}, s.kv, s.local.pending, s.verdicts, s.expired, s.dead)
  {
    forall r, k | r in s.ticks - {p} && k in s.ticks[r].due
      ensures KeyDueOk(k, s.ticks[r], s.kv, s.local.pending, s.verdicts, s.expired, s.dead)
    {
    }
  }

  lemma EndingTickKeepsEntries(l: Local, t: Turn, p: nat)
    ensures EndingTick(l, t, p).pending == l.pending && EndingTick(l, t, p).abandoned == l.abandoned
  {
  }

  lemma TickEndKeeps(s: State, p: nat)
    requires Inv(s) && p in s.ticks
    ensures Inv(DoTickEnd(s, p))
  {
    TickEndKeepsServed(s.local, s.ticks[p].turn, p);
    TickEndKeepsTicks(s, p);
    TickEndKeepsQueues(s, p);
    TickEndKeepsRest(s, p);
    EndingTickKeepsEntries(s.local, s.ticks[p].turn, p);
  }

  lemma SetPhaseKeeps(s: State, c: nat, phase: CallPhase)
    requires Inv(s) && c in s.calls && CallOk(s.calls[c].(phase := phase), c, s.swaps, s.origin)
    ensures Inv(SetPhase(s, c, phase))
  {
  }

  lemma AnswerCallKeeps(s: State, c: nat, call: Call)
    requires Inv(s) && c !in s.calls && call.phase == Asking
    ensures Inv(s.(calls := s.calls[c := call]))
  {
  }

  lemma AnswerGetKeeps(s: State, c: nat)
    requires Inv(s) && c in s.calls && s.calls[c].phase == Asking
    ensures Inv(SetPhase(s, c, Asked(Lookup(s.kv, s.calls[c].key))))
  {
    SetPhaseKeeps(s, c, Asked(Lookup(s.kv, s.calls[c].key)));
  }

  lemma WinKeepsDue(s: State, k: Key, row: Row)
    requires InvDue(s) && k in s.kv && row.answers.Some?
    ensures DueOk(s.ticks, s.kv[k := row], s.local.pending, s.verdicts, s.expired, s.dead)
  {
    forall p, q | p in s.ticks && q in s.ticks[p].due
      ensures KeyDueOk(q, s.ticks[p], s.kv[k := row], s.local.pending, s.verdicts, s.expired, s.dead)
    {
      assert KeyDueOk(q, s.ticks[p], s.kv, s.local.pending, s.verdicts, s.expired, s.dead);
      if q != k {
        assert Lookup(s.kv[k := row], q) == Lookup(s.kv, q);
      }
    }
  }

  /** The swap is the first for its key: the row it found was unanswered. */
  lemma WinIsFirst(s: State, c: nat)
    requires InvAnswers(s) && c in s.calls && s.calls[c].phase.Swapping? && SwapWins(s, c)
    ensures var call := s.calls[c];
            && call.key !in s.swaps && FitsOrigin(s.origin, call.key, s.kv[call.key])
            && MayAnswer(s.kv[call.key], call.answerer, call.answers)
  {
    assert CallOk(s.calls[c], c, s.swaps, s.origin);
    assert RowOk(s.swaps, s.origin, s.calls[c].key, s.kv[s.calls[c].key]);
  }

  lemma SwapKeepsAnswers(s: State, k: Key, swap: Swap)
    requires InvAnswers(s) && k !in s.swaps && k in s.kv && SwapOk(k, swap, s.calls, s.origin)
    ensures InvAnswers(s.(kv := s.kv[k := s.kv[k].(answers := Some(swap.answers))], swaps := s.swaps[k := swap]))
  {
    assert RowOk(s.swaps, s.origin, k, s.kv[k]);
  }

  lemma AnswerSwapKeeps(s: State, c: nat, win: bool, phase: CallPhase)
    requires Inv(s) && c in s.calls && s.calls[c].phase.Swapping? && (win ==> SwapWins(s, c))
    requires phase == Swapped(win) || phase == Rejected
    ensures Inv(DoAnswerSwap(s, c, win, phase))
  {
    if win {
      var call := s.calls[c];
      var row := s.kv[call.key].(answers := Some(call.answers));
      WinIsFirst(s, c);
      SwapKeepsAnswers(s, call.key, Swap(c, call.answerer, call.answers));
      WinKeepsDue(s, call.key, row);
      var s1 := s.(kv := s.kv[call.key := row], swaps := s.swaps[call.key := Swap(c, call.answerer, call.answers)]);
      SetPhaseKeeps(s1, c, phase);
      assert SetPhase(s1, c, phase) == DoAnswerSwap(s, c, win, phase);
    } else {
      SetPhaseKeeps(s, c, phase);
    }
  }

  lemma AnswerResumeKeeps(s: State, c: nat)
    requires Inv(s) && AnswerEnabled(s, AnswerResume(c))
    ensures Inv(SetPhase(s, c, NextPhase(s.calls[c])))
  {
    assert CallOk(s.calls[c], c, s.swaps, s.origin);
    SetPhaseKeeps(s, c, NextPhase(s.calls[c]));
  }

  lemma RegisterStepKeeps(s: State, step: RegisterStep)
    requires Inv(s) && RegisterEnabled(s, step)
    ensures Inv(DoRegister(s, step))
  {
    match step
    case RegisterCall(k, principal, input) => RegisterCallKeeps(s, k, principal, input);
    case Put(k) =>
      PutKeeps(s, k, Stored, {});
      assert s.stray + {} == s.stray;
    case PutThrows(k, stored) => if stored { PutKeeps(s, k, PutFailed, {k}); } else { PutFailsKeeps(s, k); }
    case RegisterResume(k) => RegisterResumeKeeps(s, k);
    case Abandon(t) => AbandonKeeps(s, t);
  }

  lemma StoreStepKeeps(s: State, step: StoreStep)
    requires Inv(s) && StoreEnabled(s, step)
    ensures Inv(DoStore(s, step))
  {
    match step
    case Wait(ms) => WaitKeeps(s, ms);
    case Expire(k) => ExpireKeeps(s, k);
    case Delete(k) => DeleteKeeps(s, k);
    case DeleteThrows(k) => DeleteThrowsKeeps(s, k);
  }

  lemma TickStepKeeps(s: State, step: TickStep)
    requires Inv(s) && TickEnabled(s, step)
    ensures Inv(DoTick(s, step))
  {
    match step
    case TickStart(t, order) => TickStartKeeps(s, t, order);
    case TickGet(p) => TickGetKeeps(s, p);
    case TickTake(p) => TickTakeKeeps(s, p);
    case TickThrows(p, taken) => TickThrowsKeeps(s, p, taken);
    case TickResume(p) => TickResumeKeeps(s, p);
    case TickEnd(p) => TickEndKeeps(s, p);
  }

  lemma AnswerStepKeeps(s: State, step: AnswerStep)
    requires Inv(s) && AnswerEnabled(s, step)
    ensures Inv(DoAnswer(s, step))
  {
    match step
    case AnswerCall(c, k, answerer, answers) => AnswerCallKeeps(s, c, Call(k, answerer, answers, Asking));
    case AnswerGet(c) => AnswerGetKeeps(s, c);
    case AnswerSwap(c) => AnswerSwapKeeps(s, c, SwapWins(s, c), Swapped(SwapWins(s, c)));
    case AnswerThrows(c, swapped) =>
      if s.calls[c].phase.Swapping? {
        AnswerSwapKeeps(s, c, swapped, Rejected);
      } else {
        SetPhaseKeeps(s, c, Rejected);
      }
    case AnswerResume(c) => AnswerResumeKeeps(s, c);
  }

  /** Every step of every process keeps the invariants. */
  lemma StepKeeps(s: State, step: Step)
    requires Inv(s) && Enabled(s, step)
    ensures Inv(Do(s, step))
  {
    match step
    case Registering(r) => RegisterStepKeeps(s, r);
    case Storing(t) => StoreStepKeeps(s, t);
    case Polling(t) => TickStepKeeps(s, t);
    case Answering(a) => AnswerStepKeeps(s, a);
  }
}
