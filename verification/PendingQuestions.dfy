/**
 * The pending-question protocol as a state machine: every step is one stretch of code between
 * two awaits, one operation of the kv store, or the passing of time or of a row's expiry.
 * One registry owns the turns; answers arrive from any process, through the kv store alone.
 * A key stands for its text, which `JsonKeys.KeyOfInjective` allows.
 */
module PendingQuestions {
  import opened Wrappers

  datatype Key = Key(sessionId: string, turnId: string, requestId: string)

  datatype Turn = Turn(sessionId: string, turnId: string)

  function TurnOf(k: Key): Turn { Turn(k.sessionId, k.turnId) }

  datatype Answer = Choice(widgetType: string) | FreeText(text: string)

  /** The tool input: `questions` is None when it is no array; a question's text is None when it is
    * no string. */
  datatype Input = Input(questions: Option<seq<Option<string>>>)

  function QuestionCount(input: Input): nat {
    match input.questions
    case None => 0
    case Some(qs) => |qs|
  }

  /** A kv row: pending while `answers` is None. */
  datatype Row = Row(principal: Option<string>, count: nat, answers: Option<seq<Answer>>)

  /** What a question's promise resolves to: an allow is built from the input and the answers. */
  datatype Verdict = Allow(input: Input, answers: seq<Answer>) | Deny

  const ABANDONED_MEMORY_MS: nat := 60_000

  // ----- the registry's own fields -----

  datatype Poller = Poller(id: nat, busy: bool)

  datatype Local = Local(
    pending: map<Key, Input>,
    pollers: map<Turn, Poller>,
    abandoned: map<Turn, nat>)

  function KeysOf(l: Local, t: Turn): set<Key> {
    set k | k in l.pending && TurnOf(k) == t
  }

  /** Turns whose time to be forgotten has come are forgotten. */
  function Prune(abandoned: map<Turn, nat>, now: nat): map<Turn, nat> {
    map t | t in abandoned && abandoned[t] > now :: abandoned[t]
  }

  function Abandoning(l: Local, t: Turn, now: nat): Local {
    Local(
      map k | k in l.pending && TurnOf(k) != t :: l.pending[k],
      l.pollers - {t},
      Prune(l.abandoned, now)[t := now + ABANDONED_MEMORY_MS])
  }

  /** The entry is added and the turn's poller started, unless it has one. */
  function Arming(l: Local, k: Key, input: Input, pollerId: nat): Local {
    l.(pending := l.pending[k := input],
       pollers := if TurnOf(k) in l.pollers then l.pollers
                  else l.pollers[TurnOf(k) := Poller(pollerId, false)])
  }

  /** The `finally` of a tick: its poller is free again, or gone when the turn has nothing left. */
  function EndingTick(l: Local, t: Turn, pollerId: nat): Local {
    if t !in l.pollers || l.pollers[t].id != pollerId then l
    else if KeysOf(l, t) == {} then l.(pollers := l.pollers - {t})
    else l.(pollers := l.pollers[t := Poller(pollerId, false)])
  }

  /** What a poll that read `reply` does with the entry it read for. */
  datatype Next = Leave | Settle(verdict: Verdict) | Take

  function AfterGet(reply: Option<Row>): Next {
    match reply
    case None => Settle(Deny)
    case Some(row) => if row.answers.None? then Leave else Take
  }

  function AfterTake(input: Input, reply: Option<Row>): Verdict {
    if reply.Some? && reply.value.answers.Some? then Allow(input, reply.value.answers.value) else Deny
  }

  /** Whether an answer may be swapped in over a row that was read. */
  predicate MayAnswer(row: Row, answerer: string, answers: seq<Answer>) {
    row.answers.None? && row.principal == Some(answerer) && |answers| == row.count
  }

  // ----- the whole system -----

  datatype RegisterPhase = Putting | Stored | PutFailed

  datatype TickPhase = Getting | Got(reply: Option<Row>) | Taking | Took(reply: Option<Row>) | Threw

  /** A running tick: the entries left to poll, and (for the statements below) which entries were
    * already answered when it started and for which of them a kv call has thrown. */
  datatype Tick = Tick(turn: Turn, queue: seq<Key>, phase: TickPhase, due: set<Key>, failed: set<Key>)

  datatype CallPhase =
    | Asking | Asked(reply: Option<Row>) | Swapping(expected: Row) | Swapped(ok: bool)
    | Accepted | NotFound | Rejected

  datatype Call = Call(key: Key, answerer: string, answers: seq<Answer>, phase: CallPhase)

  datatype Origin = Origin(principal: Option<string>, input: Input)

  /** The answer call whose compare-and-swap took effect. */
  datatype Swap = Swap(call: nat, answerer: string, answers: seq<Answer>)

  datatype State = State(
    now: nat,
    local: Local,
    kv: map<Key, Row>,
    registers: map<Key, RegisterPhase>,
    ticks: map<nat, Tick>,
    calls: map<nat, Call>,
    deletes: set<Key>,
    nextPoller: nat,
    // what has happened so far
    origin: map<Key, Origin>,
    settlements: multiset<Key>,
    verdicts: map<Key, Verdict>,
    swaps: map<Key, Swap>,
    dead: map<Turn, nat>,
    deleteIssued: set<Key>,
    stray: set<Key>,
    expired: set<Key>,
    lost: set<Key>)

  const INIT := State(0, Local(map[], map[], map[]), map[], map[], map[], map[], {}, 0,
                      map[], multiset{}, map[], map[], map[], {}, {}, {}, {})

  /** The owner's `register` and `abandonTurn`, cut at their awaits. */
  datatype RegisterStep =
    | RegisterCall(key: Key, principal: Option<string>, input: Input)
    | Put(key: Key)
    | PutThrows(key: Key, stored: bool)
    | RegisterResume(key: Key)
    | Abandon(turn: Turn)

  /** Time, a row's expiry, and the deletes that nobody awaits. */
  datatype StoreStep =
    | Wait(ms: nat)
    | Expire(key: Key)
    | Delete(key: Key)
    | DeleteThrows(key: Key)

  /** A poller's tick, cut at its awaits; `order` is the order its entries are polled in. */
  datatype TickStep =
    | TickStart(turn: Turn, order: seq<Key>)
    | TickGet(tick: nat)
    | TickTake(tick: nat)
    | TickThrows(tick: nat, taken: bool)
    | TickResume(tick: nat)
    | TickEnd(tick: nat)

  /** `resolveAnswer` on any process, cut at its awaits. */
  datatype AnswerStep =
    | AnswerCall(call: nat, key: Key, answerer: string, answers: seq<Answer>)
    | AnswerGet(call: nat)
    | AnswerSwap(call: nat)
    | AnswerThrows(call: nat, swapped: bool)
    | AnswerResume(call: nat)

  datatype Step =
    | Registering(register: RegisterStep)
    | Storing(store: StoreStep)
    | Polling(poll: TickStep)
    | Answering(answer: AnswerStep)

  function Lookup(kv: map<Key, Row>, k: Key): Option<Row> {
    if k in kv then Some(kv[k]) else None
  }

  ghost predicate Enumerates(order: seq<Key>, keys: set<Key>) {
    && (forall i, j | 0 <= i < j < |order| :: order[i] != order[j])
    && (forall k :: k in order <==> k in keys)
  }

  predicate RegisterEnabled(s: State, step: RegisterStep) {
    match step
    // a request id is minted for each call, from 128 random bits
    case RegisterCall(k, _, _) => k !in s.origin
    case Put(k) => k in s.origin && k in s.registers && s.registers[k] == Putting
    case PutThrows(k, _) => k in s.origin && k in s.registers && s.registers[k] == Putting
    case RegisterResume(k) => k in s.origin && k in s.registers && s.registers[k] != Putting
    case Abandon(_) => true
  }

  predicate StoreEnabled(s: State, step: StoreStep) {
    match step
    case Wait(_) => true
    case Expire(k) => k in s.kv
    case Delete(k) => k in s.deletes
    case DeleteThrows(k) => k in s.deletes
  }

  ghost predicate TickEnabled(s: State, step: TickStep) {
    match step
    case TickStart(t, order) =>
      t in s.local.pollers && !s.local.pollers[t].busy && Enumerates(order, KeysOf(s.local, t))
    case TickGet(p) => p in s.ticks && s.ticks[p].queue != [] && s.ticks[p].phase == Getting
    case TickTake(p) => p in s.ticks && s.ticks[p].queue != [] && s.ticks[p].phase == Taking
    case TickThrows(p, taken) =>
      && p in s.ticks && s.ticks[p].queue != []
      && (s.ticks[p].phase == Taking || (s.ticks[p].phase == Getting && !taken))
    case TickResume(p) =>
      && p in s.ticks && s.ticks[p].queue != []
      && (s.ticks[p].phase.Got? || s.ticks[p].phase.Took? || s.ticks[p].phase.Threw?)
    case TickEnd(p) => p in s.ticks && s.ticks[p].queue == []
  }

  predicate AnswerEnabled(s: State, step: AnswerStep) {
    match step
    case AnswerCall(c, _, _, _) => c !in s.calls
    case AnswerGet(c) => c in s.calls && s.calls[c].phase == Asking
    case AnswerSwap(c) => c in s.calls && s.calls[c].phase.Swapping?
    case AnswerThrows(c, swapped) =>
      && c in s.calls
      && ((s.calls[c].phase.Swapping? && (swapped ==> SwapWins(s, c)))
          || (s.calls[c].phase == Asking && !swapped))
    case AnswerResume(c) => c in s.calls && (s.calls[c].phase.Asked? || s.calls[c].phase.Swapped?)
  }

  ghost predicate Enabled(s: State, step: Step) {
    match step
    case Registering(r) => RegisterEnabled(s, r)
    case Storing(t) => StoreEnabled(s, t)
    case Polling(t) => TickEnabled(s, t)
    case Answering(a) => AnswerEnabled(s, a)
  }

  /** The compare-and-swap of call `c` finds the row it read. */
  predicate SwapWins(s: State, c: nat)
    requires c in s.calls && s.calls[c].phase.Swapping?
  {
    s.calls[c].key in s.kv && s.kv[s.calls[c].key] == s.calls[c].phase.expected
  }

  function SettleOne(s: State, k: Key, v: Verdict): State
  {
    s.(local := s.local.(pending := s.local.pending - {k}),
       settlements := s.settlements + multiset{k},
       verdicts := s.verdicts[k := v])
  }

  function SetTick(s: State, p: nat, tick: Tick): State { s.(ticks := s.ticks[p := tick]) }

  function SetPhase(s: State, c: nat, phase: CallPhase): State
    requires c in s.calls
  {
    s.(calls := s.calls[c := s.calls[c].(phase := phase)])
  }

  /** A turn known to be over: its call throws before it stores anything. */
  predicate Refused(s: State, k: Key) { TurnOf(k) in Prune(s.local.abandoned, s.now) }

  function DoRegisterCall(s: State, k: Key, principal: Option<string>, input: Input): State {
    s.(local := s.local.(abandoned := Prune(s.local.abandoned, s.now)),
       origin := s.origin[k := Origin(principal, input)],
       registers := if Refused(s, k) then s.registers else s.registers[k := Putting])
  }

  function FirstRow(o: Origin): Row { Row(o.principal, QuestionCount(o.input), None) }

  function DoPut(s: State, k: Key): State
    requires k in s.origin
  {
    s.(kv := s.kv[k := FirstRow(s.origin[k])], registers := s.registers[k := Stored])
  }

  function DoPutThrows(s: State, k: Key, stored: bool): State
    requires k in s.origin
  {
    s.(kv := if stored then s.kv[k := FirstRow(s.origin[k])] else s.kv,
       registers := s.registers[k := PutFailed],
       stray := if stored then s.stray + {k} else s.stray)
  }

  /** The call resumes with its row stored, and its turn still open. */
  predicate Arms(s: State, k: Key)
    requires k in s.registers
  {
    s.registers[k] == Stored && TurnOf(k) !in s.local.abandoned
  }

  /** The rows to delete when the call resumes: its own, when the turn ended meanwhile. */
  function Unwanted(s: State, k: Key): set<Key>
    requires k in s.registers
  {
    if s.registers[k] == Stored && TurnOf(k) in s.local.abandoned then {k} else {}
  }

  function DoRegisterResume(s: State, k: Key): State
    requires k in s.registers && k in s.origin
  {
    s.(registers := s.registers - {k},
       local := if Arms(s, k) then Arming(s.local, k, s.origin[k].input, s.nextPoller) else s.local,
       nextPoller := if Arms(s, k) then s.nextPoller + 1 else s.nextPoller,
       deletes := s.deletes + Unwanted(s, k),
       deleteIssued := s.deleteIssued + Unwanted(s, k))
  }

  function DoAbandon(s: State, t: Turn): State
  {
    var keys := KeysOf(s.local, t);
    s.(local := Abandoning(s.local, t, s.now),
       settlements := s.settlements + multiset(keys),
       verdicts := s.verdicts + (map k | k in keys :: Deny),
       deletes := s.deletes + keys,
       deleteIssued := s.deleteIssued + keys,
       dead := s.dead[t := s.now])
  }

  function DoTickStart(s: State, t: Turn, order: seq<Key>): State
    requires t in s.local.pollers
  {
    var p := s.local.pollers[t].id;
    var due := set k | k in order && k in s.kv && s.kv[k].answers.Some?;
    s.(local := s.local.(pollers := s.local.pollers[t := Poller(p, true)]),
       ticks := s.ticks[p := Tick(t, order, Getting, due, {})])
  }

  function DoTickTake(s: State, p: nat): State
    requires p in s.ticks && s.ticks[p].queue != []
  {
    var k := s.ticks[p].queue[0];
    s.(ticks := s.ticks[p := s.ticks[p].(phase := Took(Lookup(s.kv, k)))], kv := s.kv - {k})
  }

  function DoTickThrows(s: State, p: nat, taken: bool): State
    requires p in s.ticks && s.ticks[p].queue != []
  {
    s.(ticks := s.ticks[p := s.ticks[p].(phase := Threw, failed := s.ticks[p].failed + {s.ticks[p].queue[0]})],
       kv := if taken then s.kv - {s.ticks[p].queue[0]} else s.kv,
       lost := if taken then s.lost + {s.ticks[p].queue[0]} else s.lost)
  }

  /** What a tick does with its first entry once its await is over. */
  function Polled(tick: Tick, pending: map<Key, Input>): Next
    requires tick.queue != []
  {
    var k := tick.queue[0];
    if k !in pending then Leave // abandoned meanwhile
    else match tick.phase
         case Got(reply) => AfterGet(reply)
         case Took(reply) => Settle(AfterTake(pending[k], reply))
         case _ => Leave
  }

  /** The tick moves on from the entry it polled. */
  function NextTick(tick: Tick): Tick
    requires tick.queue != []
  {
    tick.(queue := tick.queue[1..], phase := Getting)
  }

  function DoTickResume(s: State, p: nat): State
    requires p in s.ticks && s.ticks[p].queue != []
  {
    var tick := s.ticks[p];
    var k := tick.queue[0];
    var next := Polled(tick, s.local.pending);
    s.(ticks := s.ticks[p := if next.Take? then tick.(phase := Taking) else NextTick(tick)],
       local := if next.Settle? then s.local.(pending := s.local.pending - {k}) else s.local,
       settlements := if next.Settle? then s.settlements + multiset{k} else s.settlements,
       verdicts := if next.Settle? then s.verdicts[k := next.verdict] else s.verdicts)
  }

  function DoTickEnd(s: State, p: nat): State
    requires p in s.ticks
  {
    s.(local := EndingTick(s.local, s.ticks[p].turn, p), ticks := s.ticks - {p})
  }

  function DoAnswerSwap(s: State, c: nat, win: bool, phase: CallPhase): State
    requires c in s.calls && (win ==> s.calls[c].key in s.kv)
  {
    var call := s.calls[c];
    s.(calls := s.calls[c := call.(phase := phase)],
       kv := if win then s.kv[call.key := s.kv[call.key].(answers := Some(call.answers))] else s.kv,
       swaps := if win then s.swaps[call.key := Swap(c, call.answerer, call.answers)] else s.swaps)
  }

  /** What `resolveAnswer` does with the row it read, or with the outcome of its swap. */
  function NextPhase(call: Call): CallPhase {
    match call.phase
    case Asked(Some(row)) => if MayAnswer(row, call.answerer, call.answers) then Swapping(row) else NotFound
    case Swapped(true) => Accepted
    case _ => NotFound
  }

  function DoRegister(s: State, step: RegisterStep): State
    requires RegisterEnabled(s, step)
  {
    match step
    case RegisterCall(k, principal, input) => DoRegisterCall(s, k, principal, input)
    case Put(k) => DoPut(s, k)
    case PutThrows(k, stored) => DoPutThrows(s, k, stored)
    case RegisterResume(k) => DoRegisterResume(s, k)
    case Abandon(t) => DoAbandon(s, t)
  }

  function DoStore(s: State, step: StoreStep): State
  {
    match step
    case Wait(ms) => s.(now := s.now + ms)
    case Expire(k) => s.(kv := s.kv - {k}, expired := s.expired + {k})
    case Delete(k) => s.(kv := s.kv - {k}, deletes := s.deletes - {k})
    case DeleteThrows(k) => s.(deletes := s.deletes - {k})
  }

  ghost function DoTick(s: State, step: TickStep): State
    requires TickEnabled(s, step)
  {
    match step
    case TickStart(t, order) => DoTickStart(s, t, order)
    case TickGet(p) => SetTick(s, p, s.ticks[p].(phase := Got(Lookup(s.kv, s.ticks[p].queue[0]))))
    case TickTake(p) => DoTickTake(s, p)
    case TickThrows(p, taken) => DoTickThrows(s, p, taken)
    case TickResume(p) => DoTickResume(s, p)
    case TickEnd(p) => DoTickEnd(s, p)
  }

  function DoAnswer(s: State, step: AnswerStep): State
    requires AnswerEnabled(s, step)
  {
    match step
    case AnswerCall(c, k, answerer, answers) => s.(calls := s.calls[c := Call(k, answerer, answers, Asking)])
    case AnswerGet(c) => SetPhase(s, c, Asked(Lookup(s.kv, s.calls[c].key)))
    case AnswerSwap(c) => DoAnswerSwap(s, c, SwapWins(s, c), Swapped(SwapWins(s, c)))
    case AnswerThrows(c, swapped) => DoAnswerSwap(s, c, swapped, Rejected)
    case AnswerResume(c) => SetPhase(s, c, NextPhase(s.calls[c]))
  }

  ghost function Do(s: State, step: Step): State
    requires Enabled(s, step)
  {
    match step
    case Registering(r) => DoRegister(s, r)
    case Storing(t) => DoStore(s, t)
    case Polling(t) => DoTick(s, t)
    case Answering(a) => DoAnswer(s, a)
  }

  // ----- runs -----

  /** Every step of the list is enabled where it is taken. */
  ghost predicate Legal(s: State, steps: seq<Step>)
    decreases |steps|
  {
    steps == [] || (Enabled(s, steps[0]) && Legal(Do(s, steps[0]), steps[1..]))
  }

  ghost function Final(s: State, steps: seq<Step>): State
    requires Legal(s, steps)
    decreases |steps|
  {
    if steps == [] then s else Final(Do(s, steps[0]), steps[1..])
  }
}
