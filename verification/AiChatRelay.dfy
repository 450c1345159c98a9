/**
 * The relay from the CLI's JSON lines to the client's four events
 * (packages/ai-runtime/src/aiChatRelay.ts) and the guarded emitter it writes to
 * (packages/ai-runtime/src/aiTurnOrchestrator.ts).
 */
module AiChatRelay {
  import opened Wrappers

  /** The fixed details, and any other text, which only a careless relay could offer. */
  datatype Detail = UpstreamFailed | NotLoggedIn | InternalError | Timeout | Aborted | Raw(text: string)

  /** An error carries its detail, and beside it whatever other data a careless relay left in. */
  datatype Event =
    | Delta(text: string)
    | Tool(name: string)
    | DoneEvent(session: string)
    | ErrorEvent(detail: Detail, more: string := "")

  predicate IsTerminal(e: Event) {
    e.DoneEvent? || e.ErrorEvent?
  }

  /** A content block: everything that is not text or a tool use (thinking, signatures) is `Hidden`. */
  datatype Block = Text(text: string) | ToolUse(name: string) | Hidden(content: string)

  /** A parsed line; partial stream events, tool results, blank and unparseable lines are `Ignored`. */
  datatype Line =
    | Init(initSession: string)
    | Assistant(blocks: seq<Block>)
    | ResultLine(isError: bool, session: Option<string>)
    | Ignored

  /** How the child ended. */
  datatype End = End(spawnError: bool, loginFailure: bool, exit: Option<int>)

  datatype Outcome = Succeeded(session: string) | Refused(detail: Detail)

  // ---------- what the client is told ----------

  const TOOL_PREFIX := "mcp__autologger__"

  function StripToolPrefix(name: string): string {
    if TOOL_PREFIX <= name then name[|TOOL_PREFIX|..] else name
  }

  function BlockEvents(b: Block): seq<Event> {
    match b
    case Text(text) => if text == "" then [] else [Delta(text)]
    case ToolUse(name) => [Tool(StripToolPrefix(name))]
    case Hidden(_) => []
  }

  function BlocksEvents(blocks: seq<Block>): seq<Event> {
    if blocks == [] then [] else BlocksEvents(blocks[..|blocks| - 1]) + BlockEvents(blocks[|blocks| - 1])
  }

  function LineEvents(line: Line): seq<Event> {
    if line.Assistant? then BlocksEvents(line.blocks) else []
  }

  /** The text and tool blocks of the assistant lines, in order. */
  function Spoken(lines: seq<Line>): seq<Event> {
    if lines == [] then [] else Spoken(lines[..|lines| - 1]) + LineEvents(lines[|lines| - 1])
  }

  /** The session id of the last init line. */
  function InitSession(lines: seq<Line>): Option<string> {
    if lines == [] then None
    else if lines[|lines| - 1].Init? then Some(lines[|lines| - 1].initSession)
    else InitSession(lines[..|lines| - 1])
  }

  /** The index of the first result line, or the number of lines. */
  function FirstResult(lines: seq<Line>): (n: nat)
    ensures n <= |lines|
    ensures n < |lines| ==> lines[n].ResultLine?
    ensures forall i :: 0 <= i < n ==> !lines[i].ResultLine?
  {
    if lines == [] then 0
    else if FirstResult(lines[..|lines| - 1]) < |lines| - 1 then FirstResult(lines[..|lines| - 1])
    else if lines[|lines| - 1].ResultLine? then |lines| - 1
    else |lines|
  }

  /** A result line's verdict: a session id from the init line, else its own; an empty one is none. */
  function Verdict(line: Line, init: Option<string>): Outcome
    requires line.ResultLine?
  {
    var session := if init.Some? then init else line.session;
    if line.isError then Refused(UpstreamFailed)
    else if session.Some? && session.value != "" then Succeeded(session.value)
    else Refused(InternalError)
  }

  /** The verdict on a child that ended without a result line. */
  function Fallback(end: End): Detail {
    if end.spawnError then InternalError
    else if end.loginFailure then NotLoggedIn
    else if end.exit != Some(0) then UpstreamFailed
    else InternalError
  }

  function OutcomeOf(lines: seq<Line>, end: End): Outcome {
    var n := FirstResult(lines);
    if n < |lines| then Verdict(lines[n], InitSession(lines[..n])) else Refused(Fallback(end))
  }

  function TerminalOf(outcome: Outcome): Event {
    match outcome
    case Succeeded(session) => DoneEvent(session)
    case Refused(detail) => ErrorEvent(detail)
  }

  /** Everything the relay emits: what was spoken before the first result, then one terminal event. */
  function Script(lines: seq<Line>, end: End): seq<Event> {
    Spoken(lines[..FirstResult(lines)]) + [TerminalOf(OutcomeOf(lines, end))]
  }

  // ---------- the emitter and the loop ----------

  /** The shared emit guard: after a terminal event nothing more is sent. */
  class Emitter {
    var terminalSent: bool
    var sent: seq<Event>

    constructor ()
      ensures !terminalSent && sent == []
    {
      terminalSent := false;
      sent := [];
    }

    method Emit(e: Event)
      modifies this
      ensures sent == if old(terminalSent) then old(sent) else old(sent) + [e]
      ensures terminalSent == (old(terminalSent) || IsTerminal(e))
    {
      if terminalSent { return; }
      if IsTerminal(e) { terminalSent := true; }
      sent := sent + [e];
    }
  }

  lemma OneMoreBlock(blocks: seq<Block>, i: nat)
    requires i < |blocks|
    ensures BlocksEvents(blocks[..i + 1]) == BlocksEvents(blocks[..i]) + BlockEvents(blocks[i])
  {
    assert blocks[..i + 1][..i] == blocks[..i];
  }

  /** One block; what is neither text nor a tool use is not spoken. */
  method EmitBlock(b: Block, emitter: Emitter)
    modifies emitter
    ensures emitter.terminalSent == old(emitter.terminalSent)
    ensures emitter.sent == Told(emitter.terminalSent, old(emitter.sent), BlockEvents(b))
  {
    if b.Text? && b.text != "" {
      emitter.Emit(Delta(b.text));
    } else if b.ToolUse? {
      emitter.Emit(Tool(StripToolPrefix(b.name)));
    } else {
      assert emitter.sent + [] == emitter.sent;
    }
  }

  method EmitBlocks(blocks: seq<Block>, emitter: Emitter)
    modifies emitter
    ensures emitter.terminalSent == old(emitter.terminalSent)
    ensures emitter.sent == if emitter.terminalSent then old(emitter.sent) else old(emitter.sent) + BlocksEvents(blocks)
  {
    var i := 0;
    assert emitter.sent + [] == emitter.sent;
    while i < |blocks|
      invariant i <= |blocks|
      invariant emitter.terminalSent == old(emitter.terminalSent)
      invariant emitter.sent == Told(emitter.terminalSent, old(emitter.sent), BlocksEvents(blocks[..i]))
    {
      OneMoreBlock(blocks, i);
      ToldMore(old(emitter.sent), BlocksEvents(blocks[..i]), BlockEvents(blocks[i]));
      EmitBlock(blocks[i], emitter);
      i := i + 1;
    }
    assert blocks[..i] == blocks;
  }

  /** One line; the outcome once a result line resolves the turn. */
  method ProcessLine(line: Line, init: Option<string>, emitter: Emitter)
    returns (terminal: Option<Outcome>, init': Option<string>)
    modifies emitter
    ensures init' == if line.Init? then Some(line.initSession) else init
    ensures terminal == if line.ResultLine? then Some(Verdict(line, init)) else None
    ensures emitter.sent ==
      if old(emitter.terminalSent) then old(emitter.sent)
      else if line.ResultLine? then old(emitter.sent) + [TerminalOf(Verdict(line, init))]
      else old(emitter.sent) + LineEvents(line)
    ensures emitter.terminalSent == (old(emitter.terminalSent) || line.ResultLine?)
  {
    terminal, init' := None, init;
    match line
    case Init(session) => init' := Some(session);
    case Assistant(blocks) => EmitBlocks(blocks, emitter);
    case ResultLine(isError, session) =>
      if !isError {
        var id := if init.Some? then init else session;
        if id.Some? && id.value != "" {
          emitter.Emit(DoneEvent(id.value));
          terminal := Some(Succeeded(id.value));
        } else {
          emitter.Emit(ErrorEvent(InternalError));
          terminal := Some(Refused(InternalError));
        }
      } else {
        emitter.Emit(ErrorEvent(UpstreamFailed));
        terminal := Some(Refused(UpstreamFailed));
      }
    case Ignored =>
  }

  /** The verdict after `i` lines, if a result line was among them. */
  function VerdictBy(lines: seq<Line>, i: nat): Option<Outcome>
    requires i <= |lines|
  {
    var n := FirstResult(lines);
    if n < i then Some(Verdict(lines[n], InitSession(lines[..n]))) else None
  }

  /** What the relay has emitted after `i` lines. */
  function SaidBy(lines: seq<Line>, i: nat): seq<Event>
    requires i <= |lines|
  {
    match VerdictBy(lines, i)
    case Some(verdict) => Spoken(lines[..FirstResult(lines)]) + [TerminalOf(verdict)]
    case None => Spoken(lines[..i])
  }

  lemma OneMoreLine(lines: seq<Line>, i: nat)
    requires i < |lines| && VerdictBy(lines, i).None?
    ensures VerdictBy(lines, i + 1)
         == if lines[i].ResultLine? then Some(Verdict(lines[i], InitSession(lines[..i]))) else None
    ensures SaidBy(lines, i + 1)
         == SaidBy(lines, i) + if lines[i].ResultLine? then [TerminalOf(Verdict(lines[i], InitSession(lines[..i])))]
                               else LineEvents(lines[i])
    ensures InitSession(lines[..i + 1])
         == if lines[i].Init? then Some(lines[i].initSession) else InitSession(lines[..i])
  {
    assert lines[..i + 1][..i] == lines[..i];
  }

  /** What has been sent once `said` is emitted too. */
  function Told(closed: bool, before: seq<Event>, said: seq<Event>): seq<Event> {
    if closed then before else before + said
  }

  lemma ToldMore(before: seq<Event>, said: seq<Event>, more: seq<Event>)
    ensures Told(false, before, said) + more == Told(false, before, said + more)
  {
  }

  /** One turn of the loop, on a line before which no result was seen. */
  method RelayLine(lines: seq<Line>, i: nat, init: Option<string>, emitter: Emitter, ghost before: seq<Event>)
    returns (terminal: Option<Outcome>, init': Option<string>)
    requires i < |lines| && VerdictBy(lines, i).None? && init == InitSession(lines[..i])
    requires emitter.sent == Told(emitter.terminalSent, before, SaidBy(lines, i))
    modifies emitter
    ensures terminal == VerdictBy(lines, i + 1) && init' == InitSession(lines[..i + 1])
    ensures emitter.terminalSent == (old(emitter.terminalSent) || terminal.Some?)
    ensures emitter.sent == Told(old(emitter.terminalSent), before, SaidBy(lines, i + 1))
  {
    OneMoreLine(lines, i);
    ghost var line := lines[i];
    ToldMore(before, SaidBy(lines, i),
             if line.ResultLine? then [TerminalOf(Verdict(line, init))] else LineEvents(line));
    terminal, init' := ProcessLine(lines[i], init, emitter);
  }

  lemma SaidInAll(lines: seq<Line>, end: End)
    ensures var said := SaidBy(lines, |lines|);
      match VerdictBy(lines, |lines|)
      case Some(verdict) => verdict == OutcomeOf(lines, end) && said == Script(lines, end)
      case None =>
        && OutcomeOf(lines, end) == Refused(Fallback(end))
        && said + [ErrorEvent(Fallback(end))] == Script(lines, end)
  {
    assert lines[..|lines|] == lines[..FirstResult(lines)] || FirstResult(lines) < |lines|;
  }

  /** The relay: reads every line, stops speaking at the first result, and tells the client exactly
    * the script, unless the guard was closed already. */
  method RelayTurn(lines: seq<Line>, end: End, emitter: Emitter) returns (outcome: Outcome)
    modifies emitter
    ensures outcome == OutcomeOf(lines, end)
    ensures emitter.terminalSent
    ensures emitter.sent == Told(old(emitter.terminalSent), old(emitter.sent), Script(lines, end))
  {
    var init: Option<string>, terminal: Option<Outcome> := None, None;
    ghost var before, closed := emitter.sent, emitter.terminalSent;
    var i := 0;
    while i < |lines|
      invariant i <= |lines|
      invariant terminal == VerdictBy(lines, i)
      invariant terminal.None? ==> init == InitSession(lines[..i])
      invariant emitter.terminalSent == (closed || terminal.Some?)
      invariant emitter.sent == Told(closed, before, SaidBy(lines, i))
    {
      if terminal.None? {
        terminal, init := RelayLine(lines, i, init, emitter, before);
      }
      i := i + 1;
    }
    SaidInAll(lines, end);
    if terminal.Some? { return terminal.value; }
    ToldMore(before, SaidBy(lines, i), [ErrorEvent(Fallback(end))]);
    outcome := Refused(Fallback(end));
    emitter.Emit(ErrorEvent(Fallback(end)));
  }

  // ---------- what the script keeps ----------

  /** The event that a block is told as: a text that is not empty, or a tool's name without the server's
    * prefix. */
  predicate Says(e: Event, b: Block) {
    match b
    case Text(text) => text != "" && e == Delta(text)
    case ToolUse(name) =>
      e.Tool? && (name == "mcp__autologger__" + e.name || (name == e.name && !("mcp__autologger__" <= name)))
    case Hidden(_) => false
  }

  /** A place in the lines: a block of an assistant line. */
  datatype Place = Place(line: nat, block: nat)

  predicate Before(a: Place, b: Place) { a.line < b.line || (a.line == b.line && a.block < b.block) }

  predicate HasBlock(lines: seq<Line>, p: Place) {
    p.line < |lines| && lines[p.line].Assistant? && p.block < |lines[p.line].blocks|
  }

  function BlockAt(lines: seq<Line>, p: Place): Block
    requires HasBlock(lines, p)
  {
    lines[p.line].blocks[p.block]
  }

  predicate Speaks(b: Block) { (b.Text? && b.text != "") || b.ToolUse? }

  lemma BlockSays(b: Block)
    ensures if Speaks(b) then |BlockEvents(b)| == 1 && Says(BlockEvents(b)[0], b) else BlockEvents(b) == []
  {
  }

  /** The blocks that these places name, each once and in order, and no other that speaks. */
  predicate Tells(events: seq<Event>, lines: seq<Line>, at: seq<Place>) {
    && |at| == |events|
    && (forall k :: 0 <= k < |at| ==> HasBlock(lines, at[k]) && Says(events[k], BlockAt(lines, at[k])))
    && (forall k, l :: 0 <= k < l < |at| ==> Before(at[k], at[l]))
  }

  ghost predicate TellsAll(lines: seq<Line>, at: seq<Place>) {
    forall p :: HasBlock(lines, p) && Speaks(BlockAt(lines, p)) ==> p in at
  }

  /** The places of one line's blocks that speak, each once and in order. */
  predicate InLine(events: seq<Event>, blocks: seq<Block>, line: nat, at: seq<Place>) {
    && |at| == |events|
    && (forall k :: 0 <= k < |at| ==>
          at[k].line == line && at[k].block < |blocks| && Says(events[k], blocks[at[k].block]))
    && (forall k, l :: 0 <= k < l < |at| ==> at[k].block < at[l].block)
    && (forall j :: 0 <= j < |blocks| && Speaks(blocks[j]) ==> Place(line, j) in at)
  }

  lemma SpeakerJoins(events: seq<Event>, front: seq<Block>, line: nat, at: seq<Place>, e: Event, b: Block)
    requires InLine(events, front, line, at) && Says(e, b)
    ensures InLine(events + [e], front + [b], line, at + [Place(line, |front|)])
  {
  }

  lemma SilentJoins(events: seq<Event>, front: seq<Block>, line: nat, at: seq<Place>, b: Block)
    requires InLine(events, front, line, at) && !Speaks(b)
    ensures InLine(events, front + [b], line, at)
  {
  }

  lemma {:induction false} BlocksTell(blocks: seq<Block>, line: nat) returns (at: seq<Place>)
    ensures InLine(BlocksEvents(blocks), blocks, line, at)
  {
    if blocks == [] {
      at := [];
    } else {
      var front, b := blocks[..|blocks| - 1], blocks[|blocks| - 1];
      assert blocks == front + [b];
      at := BlocksTell(front, line);
      BlockSays(b);
      if Speaks(b) {
        SpeakerJoins(BlocksEvents(front), front, line, at, BlockEvents(b)[0], b);
        assert BlockEvents(b) == [BlockEvents(b)[0]];
        at := at + [Place(line, |front|)];
      } else {
        SilentJoins(BlocksEvents(front), front, line, at, b);
      }
    }
  }

  lemma PlacesStay(events: seq<Event>, front: seq<Line>, last: Line, at: seq<Place>)
    requires Tells(events, front, at)
    ensures Tells(events, front + [last], at)
  {
    forall k | 0 <= k < |at|
      ensures HasBlock(front + [last], at[k]) && Says(events[k], BlockAt(front + [last], at[k]))
    {
      assert (front + [last])[at[k].line] == front[at[k].line];
    }
  }

  lemma AllStayTold(front: seq<Line>, last: Line, at: seq<Place>, more: seq<Place>)
    requires TellsAll(front, at)
    requires last.Assistant? ==>
               forall j :: 0 <= j < |last.blocks| && Speaks(last.blocks[j]) ==> Place(|front|, j) in more
    ensures TellsAll(front + [last], at + more)
  {
    var lines := front + [last];
    forall p | HasBlock(lines, p) && Speaks(BlockAt(lines, p)) ensures p in at + more {
      if p.line < |front| {
        assert HasBlock(front, p) && BlockAt(front, p) == BlockAt(lines, p);
        assert p in at;
      } else {
        assert p == Place(|front|, p.block) && p in more;
      }
    }
  }

  lemma TellsJoin(a: seq<Event>, b: seq<Event>, lines: seq<Line>, at: seq<Place>, more: seq<Place>)
    requires Tells(a, lines, at) && Tells(b, lines, more)
    requires forall k, l :: 0 <= k < |at| && 0 <= l < |more| ==> Before(at[k], more[l])
    ensures Tells(a + b, lines, at + more)
  {
  }

  /** What was spoken is every text and tool block of the assistant lines, each once and in order, and
    * nothing else; a hidden block says nothing. */
  lemma {:induction false} SpokenInOrder(lines: seq<Line>) returns (at: seq<Place>)
    ensures Tells(Spoken(lines), lines, at) && TellsAll(lines, at)
  {
    if lines == [] {
      at := [];
    } else {
      var front, last := lines[..|lines| - 1], lines[|lines| - 1];
      assert lines == front + [last];
      at := SpokenInOrder(front);
      var more := LineTells(front, last);
      PlacesStay(Spoken(front), front, last, at);
      AllStayTold(front, last, at, more);
      TellsJoin(Spoken(front), LineEvents(last), lines, at, more);
      at := at + more;
    }
  }

  lemma LineTells(front: seq<Line>, last: Line) returns (more: seq<Place>)
    ensures Tells(LineEvents(last), front + [last], more)
    ensures forall k :: 0 <= k < |more| ==> more[k].line == |front|
    ensures last.Assistant? ==>
              forall j :: 0 <= j < |last.blocks| && Speaks(last.blocks[j]) ==> Place(|front|, j) in more
  {
    more := [];
    if last.Assistant? {
      more := BlocksTell(last.blocks, |front|);
    }
  }

  /** Each spoken event is a text or tool block's of some assistant line. */
  lemma SpokenIsPublic(lines: seq<Line>, e: Event)
    requires e in Spoken(lines)
    ensures exists p :: HasBlock(lines, p) && Says(e, BlockAt(lines, p))
  {
    var at := SpokenInOrder(lines);
    var k :| 0 <= k < |at| && Spoken(lines)[k] == e;
    assert HasBlock(lines, at[k]) && Says(e, BlockAt(lines, at[k]));
  }

  /** The script's one terminal event is its last. */
  lemma ScriptEndsOnce(lines: seq<Line>, end: End)
    ensures var s := Script(lines, end);
      s != [] && IsTerminal(s[|s| - 1]) && forall i :: 0 <= i < |s| - 1 ==> !IsTerminal(s[i])
  {
    var at := SpokenInOrder(lines[..FirstResult(lines)]);
  }

  /** Nothing after the first result line reaches the client. */
  lemma AfterResultIsMuted(lines: seq<Line>, more: seq<Line>, end: End, end': End)
    requires exists i :: 0 <= i < |lines| && lines[i].ResultLine?
    ensures Script(lines + more, end) == Script(lines, end')
    ensures OutcomeOf(lines + more, end) == OutcomeOf(lines, end')
  {
    var n, m := FirstResult(lines + more), FirstResult(lines);
    assert (lines + more)[m] == lines[m];
    assert n == m;
    assert (lines + more)[..n] == lines[..n];
  }

  /** Where the turn is decided: the first result line, or behind the last line. */
  predicate Decided(lines: seq<Line>, n: nat) {
    n <= |lines| && (n < |lines| ==> lines[n].ResultLine?) && forall i :: 0 <= i < n ==> !lines[i].ResultLine?
  }

  /** The client is told every text and tool block before the first result line, each once and in order,
    * then how the turn ended, and nothing else. */
  lemma ScriptTells(lines: seq<Line>, end: End, n: nat) returns (at: seq<Place>)
    requires Decided(lines, n)
    ensures var s := Script(lines, end);
      && s != [] && Tells(s[..|s| - 1], lines[..n], at) && TellsAll(lines[..n], at)
      && match OutcomeOf(lines, end)
         case Succeeded(session) => s[|s| - 1] == DoneEvent(session)
         case Refused(detail) => s[|s| - 1] == ErrorEvent(detail, "")
  {
    assert n == FirstResult(lines);
    at := SpokenInOrder(lines[..n]);
    var s := Script(lines, end);
    assert s[..|s| - 1] == Spoken(lines[..n]);
  }

  /** The session that the last init line before `n` names. */
  predicate InitIs(lines: seq<Line>, n: nat, session: string)
    requires n <= |lines|
  {
    exists m :: 0 <= m < n && lines[m].Init? && lines[m].initSession == session
                && forall i :: m < i < n ==> !lines[i].Init?
  }

  predicate NoInit(lines: seq<Line>, n: nat)
    requires n <= |lines|
  {
    forall i :: 0 <= i < n ==> !lines[i].Init?
  }

  lemma {:induction false} InitSessionIs(lines: seq<Line>, session: string)
    ensures InitSession(lines) == Some(session) <==> InitIs(lines, |lines|, session)
    ensures InitSession(lines) == None <==> NoInit(lines, |lines|)
  {
    if lines != [] {
      var last := |lines| - 1;
      InitSessionIs(lines[..last], session);
      if !lines[last].Init? {
        if InitIs(lines[..last], last, session) {
          var m :| 0 <= m < last && lines[..last][m].Init? && lines[..last][m].initSession == session
                   && forall i :: m < i < last ==> !lines[..last][i].Init?;
          assert lines[m].Init? && forall i :: m < i < |lines| ==> !lines[i].Init?;
        }
        if InitIs(lines, |lines|, session) {
          var m :| 0 <= m < |lines| && lines[m].Init? && lines[m].initSession == session
                   && forall i :: m < i < |lines| ==> !lines[i].Init?;
          assert lines[..last][m].Init? && forall i :: m < i < last ==> !lines[..last][i].Init?;
        }
        assert NoInit(lines[..last], last) <==> NoInit(lines, |lines|);
      }
    }
  }

  /** A turn succeeds exactly when the first result line has no error and there is a session to resume: the
    * last init line's, or without one the result line's own. */
  lemma SucceedsExactly(lines: seq<Line>, end: End, n: nat, session: string)
    requires Decided(lines, n)
    ensures OutcomeOf(lines, end) == Succeeded(session)
       <==> (session != "" && n < |lines| && !lines[n].isError
             && (InitIs(lines, n, session) || (NoInit(lines, n) && lines[n].session == Some(session))))
  {
    assert n == FirstResult(lines);
    InitSessionIs(lines[..n], session);
    InitBefore(lines, n, session);
  }

  lemma InitBefore(lines: seq<Line>, n: nat, session: string)
    requires n <= |lines|
    ensures InitIs(lines[..n], n, session) <==> InitIs(lines, n, session)
    ensures NoInit(lines[..n], n) <==> NoInit(lines, n)
  {
    if InitIs(lines[..n], n, session) {
      var m :| 0 <= m < n && lines[..n][m].Init? && lines[..n][m].initSession == session
               && forall i :: m < i < n ==> !lines[..n][i].Init?;
      assert lines[m].Init? && forall i :: m < i < n ==> !lines[i].Init?;
    }
    if InitIs(lines, n, session) {
      var m :| 0 <= m < n && lines[m].Init? && lines[m].initSession == session
               && forall i :: m < i < n ==> !lines[i].Init?;
      assert lines[..n][m].Init? && forall i :: m < i < n ==> !lines[..n][i].Init?;
    }
    assert forall i :: 0 <= i < n ==> lines[..n][i] == lines[i];
  }

  /** Why a turn failed: a result line's error or an exit other than 0 is the upstream's, a login message
    * of a child that ended without a result is a missing login, and all else is internal. */
  lemma RefusedExactly(lines: seq<Line>, end: End, n: nat)
    requires Decided(lines, n)
    ensures OutcomeOf(lines, end) == Refused(NotLoggedIn)
       <==> n == |lines| && !end.spawnError && end.loginFailure
    ensures OutcomeOf(lines, end) == Refused(UpstreamFailed)
       <==> if n < |lines| then lines[n].isError else !end.spawnError && !end.loginFailure && end.exit != Some(0)
    ensures OutcomeOf(lines, end).Refused? ==>
              OutcomeOf(lines, end).detail in {NotLoggedIn, UpstreamFailed, InternalError}
  {
    assert n == FirstResult(lines);
  }

  /** Two lines that differ in hidden contents only. */
  predicate AlikeLines(a: Line, b: Line) {
    a == b || (a.Assistant? && b.Assistant? && |a.blocks| == |b.blocks|
               && forall j :: 0 <= j < |a.blocks| ==> AlikeBlocks(a.blocks[j], b.blocks[j]))
  }

  predicate AlikeBlocks(a: Block, b: Block) { a == b || (a.Hidden? && b.Hidden?) }

  predicate Alike(lines: seq<Line>, lines': seq<Line>) {
    |lines| == |lines'| && forall i :: 0 <= i < |lines| ==> AlikeLines(lines[i], lines'[i])
  }

  lemma {:induction false} AlikeBlocksSayAlike(a: seq<Block>, b: seq<Block>)
    requires |a| == |b| && forall j :: 0 <= j < |a| ==> AlikeBlocks(a[j], b[j])
    ensures BlocksEvents(a) == BlocksEvents(b)
  {
    if a != [] {
      AlikeBlocksSayAlike(a[..|a| - 1], b[..|b| - 1]);
    }
  }

  lemma {:induction false} AlikeSpeakAlike(lines: seq<Line>, lines': seq<Line>)
    requires Alike(lines, lines')
    ensures Spoken(lines) == Spoken(lines') && InitSession(lines) == InitSession(lines')
    decreases |lines|
  {
    if lines != [] {
      var last := |lines| - 1;
      AlikeSpeakAlike(lines[..last], lines'[..last]);
      if lines[last].Assistant? {
        AlikeBlocksSayAlike(lines[last].blocks, lines'[last].blocks);
      }
    }
  }

  /** No content of a hidden block reaches the client or the outcome. */
  lemma HiddenIsPrivate(lines: seq<Line>, lines': seq<Line>, end: End)
    requires Alike(lines, lines')
    ensures Script(lines, end) == Script(lines', end) && OutcomeOf(lines, end) == OutcomeOf(lines', end)
  {
    var n := FirstResult(lines);
    assert n == FirstResult(lines') by {
      assert Decided(lines', n);
    }
    AlikeSpeakAlike(lines[..n], lines'[..n]);
  }
}
