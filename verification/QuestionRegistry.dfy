/**
 * The registry class itself: its three maps, and the methods between awaits, each proved to make
 * the step that the protocol takes.
 */
module QuestionRegistry {
  import opened Wrappers
  import opened PendingQuestions

  class AiV2PendingQuestionRegistry {
    var pending: map<Key, Input>
    var pollers: map<Turn, Poller>
    var abandoned: map<Turn, nat>
    var nextPoller: nat

    ghost function Fields(): Local
      reads this
    {
      Local(pending, pollers, abandoned)
    }

    constructor ()
      ensures Fields() == INIT.local && nextPoller == INIT.nextPoller
    {
      pending, pollers, abandoned, nextPoller := map[], map[], map[], 0;
    }

    method PruneAbandoned(now: nat)
      modifies this`abandoned
      ensures abandoned == Prune(old(abandoned), now)
    {
      var turns := abandoned.Keys;
      while turns != {}
        invariant turns <= old(abandoned).Keys
        invariant abandoned
               == map t | t in old(abandoned) && (t in turns || old(abandoned)[t] > now) :: old(abandoned)[t]
        decreases turns
      {
        var turn :| turn in turns;
        if abandoned[turn] <= now {
          abandoned := abandoned - {turn};
        }
        turns := turns - {turn};
      }
    }

    /** `register` up to its put; false when the turn is known to be over. */
    method RegisterBegin(key: Key, now: nat) returns (open: bool)
      modifies this`abandoned
      ensures abandoned == Prune(old(abandoned), now)
      ensures open <==> TurnOf(key) !in abandoned
    {
      PruneAbandoned(now);
      open := TurnOf(key) !in abandoned;
    }

    method StartPoller(turn: Turn)
      modifies this`pollers, this`nextPoller
      ensures pollers == if turn in old(pollers) then old(pollers)
                         else old(pollers)[turn := Poller(old(nextPoller), false)]
      ensures nextPoller == old(nextPoller) + 1
    {
      if turn !in pollers {
        pollers := pollers[turn := Poller(nextPoller, false)];
      }
      nextPoller := nextPoller + 1;
    }

    /** `register` after its put; false when the row must be deleted instead. */
    method RegisterResume(key: Key, originalInput: Input) returns (armed: bool)
      modifies this`pending, this`pollers, this`nextPoller
      ensures armed <==> TurnOf(key) !in abandoned
      ensures Fields() == if armed then Arming(old(Fields()), key, originalInput, old(nextPoller)) else old(Fields())
      ensures nextPoller == if armed then old(nextPoller) + 1 else old(nextPoller)
    {
      if TurnOf(key) in abandoned {
        return false;
      }
      pending := pending[key := originalInput];
      StartPoller(TurnOf(key));
      return true;
    }

    /** Ends a turn; the keys returned are denied and their rows deleted. */
    method AbandonTurn(turn: Turn, now: nat) returns (denied: set<Key>)
      modifies this`pending, this`pollers, this`abandoned
      ensures Fields() == Abandoning(old(Fields()), turn, now)
      ensures denied == KeysOf(old(Fields()), turn)
    {
      PruneAbandoned(now);
      abandoned := abandoned[turn := now + ABANDONED_MEMORY_MS];
      pollers := pollers - {turn};
      denied := {};
      var keys := pending.Keys;
      while keys != {}
        invariant keys <= pending.Keys <= old(pending).Keys
        invariant denied == set k | k in old(pending) && TurnOf(k) == turn && k !in keys
        invariant pollers == old(pollers) - {turn}
        invariant abandoned == Prune(old(abandoned), now)[turn := now + ABANDONED_MEMORY_MS]
        invariant pending == map k | k in old(pending) && (k in keys || TurnOf(k) != turn) :: old(pending)[k]
        decreases keys
      {
        var k :| k in keys;
        if TurnOf(k) == turn {
          pending := pending - {k};
          denied := denied + {k};
        }
        keys := keys - {k};
      }
    }

    /** The start of a tick: it goes ahead only on a poller at rest, which it makes busy. */
    method TickBegin(turn: Turn) returns (started: bool, entries: set<Key>)
      modifies this`pollers
      ensures started <==> turn in old(pollers) && !old(pollers)[turn].busy
      ensures pollers == if started then old(pollers)[turn := Poller(old(pollers)[turn].id, true)] else old(pollers)
      ensures started ==> entries == KeysOf(old(Fields()), turn)
    {
      entries := {};
      if turn !in pollers || pollers[turn].busy {
        return false, {};
      }
      pollers := pollers[turn := Poller(pollers[turn].id, true)];
      started := true;
      entries := set k | k in pending && TurnOf(k) == turn;
    }

    /** The tick has read an entry's row. */
    method TickGot(key: Key, reply: Option<Row>) returns (next: Next)
      modifies this`pending
      ensures next == if key in old(pending) then AfterGet(reply) else Leave
      ensures pending == if next.Settle? then old(pending) - {key} else old(pending)
    {
      if key !in pending {
        return Leave;
      }
      if reply == None {
        pending := pending - {key};
        return Settle(Deny);
      }
      if reply.value.answers.None? {
        return Leave;
      }
      return Take;
    }

    /** The tick has taken an answered row. */
    method TickTook(key: Key, reply: Option<Row>) returns (verdict: Option<Verdict>)
      modifies this`pending
      ensures verdict == if key in old(pending) then Some(AfterTake(old(pending)[key], reply)) else None
      ensures pending == old(pending) - {key}
    {
      if key !in pending {
        return None;
      }
      verdict := if reply.Some? && reply.value.answers.Some? then Some(Allow(pending[key], reply.value.answers.value))
                 else Some(Deny);
      pending := pending - {key};
    }

    /** The tick's `finally`. */
    method TickFinish(turn: Turn, pollerId: nat)
      modifies this`pollers
      ensures Fields() == EndingTick(old(Fields()), turn, pollerId)
    {
      if turn in pollers && pollers[turn].id == pollerId {
        pollers := pollers[turn := Poller(pollerId, false)];
        var entries := set k | k in pending && TurnOf(k) == turn;
        if entries == {} {
          pollers := pollers - {turn};
        }
      }
    }
  }
}
