/** Round robin over the channels. The code has two of them; nothing here depends on the number. */
module Scheduler {
  import opened Wrappers
  import opened Domain
  import opened Consumer

  /** How `run_once` ends: it served a channel, found every channel empty, or let an exception out. */
  datatype Turn = Served(channel: nat) | NothingToDo | TurnRaised

  /** `i % n` for the sums of two channel numbers that the code reduces. */
  function Wrap(i: nat, n: nat): (r: nat)
    requires i < 2 * n
    ensures r < n
  {
    if i < n then i else i - n
  }

  lemma WrapIsModulo(i: nat, n: nat)
    requires i < 2 * n
    ensures Wrap(i, n) == i % n
  {
    if i >= n {
      assert i == n + (i - n);
    }
  }

  method Modulo(i: nat, n: nat) returns (r: nat)
    requires i < 2 * n
    ensures r == Wrap(i, n)
  {
    WrapIsModulo(i, n);
    r := i % n;
  }

  /** The channel polled at the given offset of a turn. */
  function ChannelAt(next: nat, offset: nat, n: nat): (c: nat)
    requires next < n && offset < n
    ensures c < n
  {
    Wrap(next + offset, n)
  }

  /** How far the channel is from being polled first: `(channel - next) mod n`. */
  function Distance(channel: nat, next: nat, n: nat): (d: nat)
    requires channel < n && next < n
    ensures d < n
  {
    if channel >= next then channel - next else channel + n - next
  }

  lemma DistanceReaches(channel: nat, next: nat, n: nat)
    requires channel < n && next < n
    ensures ChannelAt(next, Distance(channel, next, n), n) == channel
  {
  }

  lemma DistanceOfChannelAt(next: nat, k: nat, n: nat)
    requires next < n && k < n
    ensures Distance(ChannelAt(next, k, n), next, n) == k
  {
  }

  /** Position of the first channel, in cyclic order from `next`, whose poll does not come back empty. */
  function FirstReady(next: nat, polls: seq<PollResult>, i: nat := 0): (k: nat)
    requires next < |polls| && i <= |polls|
    ensures i <= k <= |polls|
    decreases |polls| - i
  {
    if i == |polls| || polls[ChannelAt(next, i, |polls|)] != Polled(None) then i else FirstReady(next, polls, i + 1)
  }

  lemma {:induction false} FirstReadyIsFirst(next: nat, polls: seq<PollResult>, i: nat := 0)
    requires next < |polls| && i <= |polls|
    ensures forall j :: i <= j < FirstReady(next, polls, i) ==> polls[ChannelAt(next, j, |polls|)] == Polled(None)
    ensures FirstReady(next, polls, i) < |polls| ==>
            polls[ChannelAt(next, FirstReady(next, polls, i), |polls|)] != Polled(None)
    decreases |polls| - i
  {
    if i < |polls| && polls[ChannelAt(next, i, |polls|)] == Polled(None) {
      FirstReadyIsFirst(next, polls, i + 1);
    }
  }

  lemma ReadyOrLater(next: nat, polls: seq<PollResult>, k: nat)
    requires next < |polls| && k < |polls| && k <= FirstReady(next, polls)
    ensures k < FirstReady(next, polls) <==> polls[ChannelAt(next, k, |polls|)] == Polled(None)
  {
    FirstReadyIsFirst(next, polls);
  }

  /** `escapes` says that `handle` or the acknowledgement let an exception out of the turn. */
  function TakeTurn(next: nat, polls: seq<PollResult>, escapes: bool): (r: (nat, Turn))
    requires next < |polls|
    ensures r.0 < |polls|
  {
    var k := FirstReady(next, polls);
    if k == |polls| then (next, NothingToDo)
    else
      var index := ChannelAt(next, k, |polls|);
      if polls[index].PollRaised? || escapes then (next, TurnRaised)
      else (Wrap(index + 1, |polls|), Served(index))
  }

  lemma TurnOf(next: nat, polls: seq<PollResult>, escapes: bool, k: nat, message: PollResult, served: bool)
    requires next < |polls| && k == FirstReady(next, polls)
    requires k < |polls| ==> message == polls[ChannelAt(next, k, |polls|)] && (served <==> message.Polled? && !escapes)
    ensures TakeTurn(next, polls, escapes) ==
            if k == |polls| then (next, NothingToDo)
            else if served then (Wrap(ChannelAt(next, k, |polls|) + 1, |polls|), Served(ChannelAt(next, k, |polls|)))
            else (next, TurnRaised)
  {
    FirstReadyIsFirst(next, polls);
  }

  /** Once a channel is served, every channel behind it is exactly that much closer. */
  lemma DistanceShrinks(channel: nat, k: nat, next: nat, n: nat)
    requires channel < n && next < n && k < Distance(channel, next, n)
    ensures Distance(channel, Wrap(ChannelAt(next, k, n) + 1, n), n) == Distance(channel, next, n) - (k + 1)
  {
  }

  /** What one turn decides: it serves the first ready channel, reports nothing only if every poll came
      back empty, and a ready channel that is passed over gets strictly closer. */
  lemma TurnIsFair(next: nat, polls: seq<PollResult>, escapes: bool, channel: nat)
    requires next < |polls| && channel < |polls|
    ensures var (next', turn) := TakeTurn(next, polls, escapes);
            && (turn.NothingToDo? <==> forall i :: 0 <= i < |polls| ==> polls[i] == Polled(None))
            && (!turn.Served? ==> next' == next)
            && (turn.Served? ==> polls[turn.channel].Polled? && polls[turn.channel].message.Some?)
            && (turn.Served? && turn.channel != channel && polls[channel] != Polled(None) ==>
                  Distance(channel, next', |polls|) < Distance(channel, next, |polls|))
  {
    var n := |polls|;
    var k := FirstReady(next, polls);
    FirstReadyIsFirst(next, polls);
    DistanceReaches(channel, next, n);
    if k == n {
      forall i | 0 <= i < n ensures polls[i] == Polled(None) {
        DistanceReaches(i, next, n);
      }
    } else if polls[channel] != Polled(None) && ChannelAt(next, k, n) != channel {
      DistanceShrinks(channel, k, next, n);
    }
  }

  /** How a turn ends: it is served exactly when the first channel that is not empty has a message, handling
      it raises nothing, and its XACK, if it is not left to a retry, returns. Only then does the next turn
      begin behind the served channel. */
  lemma TurnAdvancesExactly(next: nat, polls: seq<PollResult>, d: Disposition, ack: Fault)
    requires next < |polls|
    ensures var (next', turn) := TakeTurn(next, polls, Escapes(d, ack));
            var k := FirstReady(next, polls);
            && (turn.Served? <==>
                  && k < |polls| && polls[(next + k) % |polls|].Polled?
                  && (d == DoRetry || ((d == DoAck || d == DoReject) && ack == Ok)))
            && (turn.Served? ==> turn.channel == (next + k) % |polls| && next' == (turn.channel + 1) % |polls|)
            && (turn.TurnRaised? <==> k < |polls| && !turn.Served?)
            && (!turn.Served? ==> next' == next)
  {
    var k := FirstReady(next, polls);
    FirstReadyIsFirst(next, polls);
    if k < |polls| {
      WrapIsModulo(next + k, |polls|);
      WrapIsModulo(ChannelAt(next, k, |polls|) + 1, |polls|);
    }
  }

  /** The channels served by successive turns; `history` holds what each channel's poll would return. */
  function ServedBy(next: nat, n: nat, history: seq<seq<PollResult>>): seq<nat>
    requires next < n && forall i :: 0 <= i < |history| ==> |history[i]| == n
    decreases |history|
  {
    if history == [] then []
    else
      var (next', turn) := TakeTurn(next, history[0], false);
      (if turn.Served? then [turn.channel] else []) + ServedBy(next', n, history[1..])
  }

  /** The channel has a message in every turn, and no poll raises. */
  ghost predicate AlwaysReady(n: nat, channel: nat, history: seq<seq<PollResult>>)
    requires channel < n
  {
    forall i :: 0 <= i < |history| ==>
                  && |history[i]| == n
                  && (forall c :: 0 <= c < n ==> history[i][c].Polled?)
                  && history[i][channel].message.Some?
  }

  lemma ReadyTurnServes(next: nat, n: nat, channel: nat, polls: seq<PollResult>)
    requires next < n && channel < n && |polls| == n
    requires (forall c :: 0 <= c < n ==> polls[c].Polled?) && polls[channel].message.Some?
    ensures TakeTurn(next, polls, false).1.Served?
  {
    TurnIsFair(next, polls, false, channel);
    assert polls[channel] != Polled(None);
  }

  /** Bounded wait: in that many turns and one more, and so within N turns, a channel that always has a
      message when polled is served. */
  lemma {:induction false} ReadyChannelIsServed(next: nat, n: nat, channel: nat, history: seq<seq<PollResult>>)
    requires next < n && channel < n && AlwaysReady(n, channel, history)
    requires |history| > Distance(channel, next, n)
    ensures exists i :: && 0 <= i <= Distance(channel, next, n) && i < |ServedBy(next, n, history)|
                        && ServedBy(next, n, history)[i] == channel
    decreases |history|
  {
    var (next', turn) := TakeTurn(next, history[0], false);
    ReadyTurnServes(next, n, channel, history[0]);
    TurnIsFair(next, history[0], false, channel);
    var rest := ServedBy(next', n, history[1..]);
    assert ServedBy(next, n, history) == [turn.channel] + rest;
    if turn.channel == channel {
      assert ServedBy(next, n, history)[0] == channel;
    } else {
      assert AlwaysReady(n, channel, history[1..]);
      ReadyChannelIsServed(next', n, channel, history[1..]);
      var i :| 0 <= i <= Distance(channel, next', n) && i < |rest| && rest[i] == channel;
      assert ServedBy(next, n, history)[i + 1] == channel;
    }
  }

  // ---------------------------------------------------------------- the objects

  const PENDING_RECOVERY_INTERVAL: int := 1000

  class RoundRobin {
    const consumers: seq<RedisTaskConsumer>
    var nextChannel: nat
    var nextPendingRecovery: int

    ghost predicate Valid()
      reads this
    {
      nextChannel < |consumers| && NothingShared()
    }

    ghost predicate NothingShared() {
      forall i, j :: 0 <= i < j < |consumers| ==>
                       consumers[i] != consumers[j] && consumers[i].stream != consumers[j].stream
    }

    ghost function Objects(): set<object>
    {
      (set i | 0 <= i < |consumers| :: consumers[i] as object)
      + (set i | 0 <= i < |consumers| :: consumers[i].stream as object)
    }

    /** The channels' states with nothing in hand. */
    ghost predicate Holds(queues: seq<Queue>)
      reads Objects()
    {
      |queues| == |consumers| && forall i :: 0 <= i < |consumers| ==> consumers[i].State(None) == queues[i]
    }

    /** `_recover_pending`: at most once per interval, one page per channel; a raising call of one
        channel does not keep the others from theirs. */
    method RecoverPendingPages(nowMs: int, replies: seq<ClaimReply>, ghost queues: seq<Queue>)
      requires Valid() && |replies| == |consumers| && Holds(queues)
      modifies this`nextPendingRecovery, Objects()
      ensures Valid() && Holds(AfterRecovery(queues, replies, nowMs >= old(nextPendingRecovery)))
      ensures nextPendingRecovery == if nowMs >= old(nextPendingRecovery) then nowMs + 1000
                                     else old(nextPendingRecovery)
    {
      if nowMs < nextPendingRecovery {
        return;
      }
      nextPendingRecovery := nowMs + PENDING_RECOVERY_INTERVAL;
      for i := 0 to |consumers|
        invariant nextPendingRecovery == nowMs + PENDING_RECOVERY_INTERVAL
        invariant forall k :: 0 <= k < i ==> consumers[k].State(None) == RecoverPending(queues[k], replies[k])
        invariant forall k :: i <= k < |consumers| ==> consumers[k].State(None) == queues[k]
      {
        RecoverChannel(i, replies[i]);
      }
    }

    /** Only the channel whose page is claimed changes. */
    method RecoverChannel(index: nat, reply: ClaimReply)
      requires NothingShared() && index < |consumers|
      modifies Objects()
      ensures consumers[index].State(None) == RecoverPending(old(consumers[index].State(None)), reply)
      ensures forall k :: 0 <= k < |consumers| && k != index ==>
              consumers[k].State(None) == old(consumers[k].State(None))
    {
      var claimed := consumers[index].RecoverPendingOnce(reply);
    }

    /** Only the polled channel changes. */
    method PollChannel(index: nat, f: ReadFault) returns (r: PollResult)
      requires NothingShared() && index < |consumers|
      modifies Objects()
      ensures (consumers[index].State(if r.Polled? then r.message else None), r)
              == Poll(old(consumers[index].State(None)), f)
      ensures forall k :: 0 <= k < |consumers| && k != index ==>
              consumers[k].State(None) == old(consumers[k].State(None))
    {
      r := consumers[index].PollOnce(f);
    }

    /** `_apply_outcome`, unless `handle` raised; false when an exception left the turn. */
    method ApplyOutcome(index: nat, id: nat, d: Disposition, ack: Fault) returns (returned: bool)
      requires NothingShared() && index < |consumers|
      modifies Objects()
      ensures consumers[index].State(None) == Finish(old(consumers[index].State(Some(id))), d, ack)
      ensures returned <==> !Escapes(d, ack)
      ensures forall k :: 0 <= k < |consumers| && k != index ==>
              consumers[k].State(None) == old(consumers[k].State(None))
    {
      match d
      case HandleRaised =>
        returned := false;
      case DoAck =>
        returned := consumers[index].AckMessage(id, ack);
      case DoReject =>
        returned := consumers[index].RejectMessage(id, ack);
      case DoRetry =>
        consumers[index].RetryMessage(id);
        returned := true;
    }

    /** Every channel before the offset was polled in vain, and the others not at all. */
    ghost predicate PolledUpTo(queues: seq<Queue>, readFaults: seq<ReadFault>, next: nat, k: nat)
      requires |readFaults| == |consumers| == |queues| && next < |consumers|
      reads Objects()
    {
      forall i :: 0 <= i < |consumers| ==>
                    consumers[i].State(None) == PolledSoFar(queues[i], readFaults[i], Distance(i, next, |consumers|), k)
    }

    /** Every channel but the one at the offset was polled in vain if it comes before it, or not at all. */
    ghost predicate OthersPolled(queues: seq<Queue>, readFaults: seq<ReadFault>, next: nat, k: nat)
      requires |readFaults| == |consumers| == |queues| && next < |consumers|
      reads Objects()
    {
      forall i :: 0 <= i < |consumers| && Distance(i, next, |consumers|) != k ==>
                    consumers[i].State(None) == PolledSoFar(queues[i], readFaults[i], Distance(i, next, |consumers|), k)
    }

    /** The poll at the next offset. */
    method PollAt(readFaults: seq<ReadFault>, ghost queues: seq<Queue>, k: nat) returns (r: PollResult)
      requires Valid() && |readFaults| == |consumers| == |queues| && k < |consumers|
      requires PolledUpTo(queues, readFaults, nextChannel, k)
      modifies Objects()
      ensures var index := ChannelAt(nextChannel, k, |consumers|);
              (consumers[index].State(if r.Polled? then r.message else None), r)
                  == Poll(queues[index], readFaults[index])
      ensures OthersPolled(queues, readFaults, nextChannel, k)
      ensures r == Polled(None) ==> PolledUpTo(queues, readFaults, nextChannel, k + 1)
    {
      var index := Modulo(nextChannel + k, |consumers|);
      DistanceOfChannelAt(nextChannel, k, |consumers|);
      r := PollChannel(index, readFaults[index]);
    }

    /** The polling loop of a turn: it stops at the first poll that does not come back empty. */
    method PollInTurn(readFaults: seq<ReadFault>, ghost queues: seq<Queue>) returns (k: nat, r: PollResult)
      requires Valid() && |readFaults| == |consumers| && Holds(queues)
      modifies Objects()
      ensures k == FirstReady(nextChannel, PollAll(queues, readFaults))
      ensures k < |consumers| ==>
                var index := ChannelAt(nextChannel, k, |consumers|);
                && r != Polled(None) && (consumers[index].State(if r.Polled? then r.message else None), r)
                    == Poll(queues[index], readFaults[index])
      ensures OthersPolled(queues, readFaults, nextChannel, k)
    {
      ghost var polls := PollAll(queues, readFaults);
      k, r := 0, Polled(None);
      while k < |consumers|
        invariant 0 <= k <= |consumers| && k <= FirstReady(nextChannel, polls)
        invariant PolledUpTo(queues, readFaults, nextChannel, k)
      {
        ReadyOrLater(nextChannel, polls, k);
        r := PollAt(readFaults, queues, k);
        if r != Polled(None) {
          return;
        }
        k := k + 1;
      }
    }

    /** `run_once`: pending recovery if it is due, then the turn: polls in cyclic order until one channel has
        a message, and applies the outcome to it. */
    method RunOnce(nowMs: int, replies: seq<ClaimReply>, readFaults: seq<ReadFault>, d: Disposition, ack: Fault,
                   ghost queues: seq<Queue>)
      returns (turn: Turn)
      requires Valid() && |replies| == |readFaults| == |consumers| && Holds(queues)
      modifies this`nextChannel, this`nextPendingRecovery, Objects()
      ensures Valid()
      ensures nextPendingRecovery == if nowMs >= old(nextPendingRecovery) then nowMs + 1000
                                     else old(nextPendingRecovery)
      ensures var recovered := AfterRecovery(queues, replies, nowMs >= old(nextPendingRecovery));
              var polls := PollAll(recovered, readFaults);
              && (nextChannel, turn) == TakeTurn(old(nextChannel), polls, Escapes(d, ack))
              && Holds(AfterTurn(recovered, readFaults, d, ack, old(nextChannel), FirstReady(old(nextChannel), polls)))
    {
      ghost var recovered := AfterRecovery(queues, replies, nowMs >= nextPendingRecovery);
      RecoverPendingPages(nowMs, replies, queues);
      turn := ServeInTurn(readFaults, d, ack, recovered);
    }

    /** The turn: afterwards `_next_channel` points behind the channel that was served, if one was. */
    method ServeInTurn(readFaults: seq<ReadFault>, d: Disposition, ack: Fault,
                       ghost queues: seq<Queue>) returns (turn: Turn)
      requires Valid() && |readFaults| == |consumers| && Holds(queues)
      modifies this`nextChannel, Objects()
      ensures Valid()
      ensures (nextChannel, turn) == TakeTurn(old(nextChannel), PollAll(queues, readFaults), Escapes(d, ack))
      ensures Holds(AfterTurn(queues, readFaults, d, ack, old(nextChannel),
              FirstReady(old(nextChannel), PollAll(queues, readFaults))))
    {
      var k, index, served := JudgedTurn(readFaults, d, ack, queues);
      ghost var after := AfterTurn(queues, readFaults, d, ack, nextChannel, k);
      turn := Conclude(k, index, served, after);
    }

    /** What the turn does to the channels, and how it has to end. */
    method JudgedTurn(readFaults: seq<ReadFault>, d: Disposition, ack: Fault, ghost queues: seq<Queue>)
      returns (k: nat, index: nat, served: bool)
      requires Valid() && |readFaults| == |consumers| && Holds(queues)
      modifies Objects()
      ensures k == FirstReady(nextChannel, PollAll(queues, readFaults)) && (k < |consumers| ==> index < |consumers|)
      ensures TakeTurn(nextChannel, PollAll(queues, readFaults), Escapes(d, ack))
           == Ending(k, index, served)
      ensures Holds(AfterTurn(queues, readFaults, d, ack, nextChannel, k))
    {
      var message;
      k, index, message, served := PollAndFinish(readFaults, d, ack, queues);
      TurnOf(nextChannel, PollAll(queues, readFaults), Escapes(d, ack), k, message, served);
    }

    function Ending(k: nat, index: nat, served: bool): (nat, Turn)
      requires k < |consumers| ==> index < |consumers|
      reads this`nextChannel
    {
      if k >= |consumers| then (nextChannel, NothingToDo)
      else if served then (Wrap(index + 1, |consumers|), Served(index))
      else (nextChannel, TurnRaised)
    }

    /** How the turn ends; what it did to the channels stays. */
    method Conclude(k: nat, index: nat, served: bool, ghost queues: seq<Queue>) returns (turn: Turn)
      requires Valid() && Holds(queues) && (k < |consumers| ==> index < |consumers|)
      modifies this`nextChannel
      ensures Valid() && Holds(queues)
      ensures (nextChannel, turn) == old(Ending(k, index, served))
    {
      if k >= |consumers| {
        return NothingToDo;
      }
      if !served {
        return TurnRaised;
      }
      nextChannel := Modulo(index + 1, |consumers|);
      return Served(index);
    }

    /** What a turn does to the channels; `_next_channel` is not touched yet. */
    method PollAndFinish(readFaults: seq<ReadFault>, d: Disposition, ack: Fault, ghost queues: seq<Queue>)
      returns (k: nat, index: nat, message: PollResult, served: bool)
      requires Valid() && |readFaults| == |consumers| && Holds(queues)
      modifies Objects()
      ensures k == FirstReady(nextChannel, PollAll(queues, readFaults))
      ensures k < |consumers| ==>
                && index == ChannelAt(nextChannel, k, |consumers|) && message == PollAll(queues, readFaults)[index]
                && (served <==> message.Polled? && !Escapes(d, ack))
      ensures Holds(AfterTurn(queues, readFaults, d, ack, nextChannel, k))
    {
      k, message := PollInTurn(readFaults, queues);
      index, served := 0, false;
      if k == |consumers| {
        NothingFinished(queues, readFaults, d, ack);
        return;
      }
      index := Modulo(nextChannel + k, |consumers|);
      served := FinishPolled(readFaults, d, ack, queues, index, k, message);
    }

    /** The rest of a turn whose poll at offset `k` did not come back empty; true when nothing raised. */
    method FinishPolled(readFaults: seq<ReadFault>, d: Disposition, ack: Fault, ghost queues: seq<Queue>, index: nat,
                        ghost k: nat, message: PollResult)
      returns (served: bool)
      requires Valid() && |readFaults| == |consumers| == |queues| && k < |consumers|
               && index == ChannelAt(nextChannel, k, |consumers|)
      requires message != Polled(None) && queues[index].hand.None?
      requires (consumers[index].State(if message.Polled? then message.message else None), message)
               == Poll(queues[index], readFaults[index])
      requires OthersPolled(queues, readFaults, nextChannel, k)
      modifies Objects()
      ensures served <==> message.Polled? && !Escapes(d, ack)
      ensures Holds(AfterTurn(queues, readFaults, d, ack, nextChannel, k))
    {
      if message.PollRaised? {
        RaisedTurn(queues, readFaults, d, ack, index, nextChannel, k);
        return false;
      }
      served := FinishMessage(readFaults, d, ack, queues, index, k, message.message.value);
    }

    /** The outcome of the polled message completes the turn's effect on the channels. */
    method FinishMessage(readFaults: seq<ReadFault>, d: Disposition, ack: Fault, ghost queues: seq<Queue>, index: nat,
                         ghost k: nat, id: nat)
      returns (returned: bool)
      requires Valid() && |readFaults| == |consumers| == |queues| && k < |consumers|
               && index == ChannelAt(nextChannel, k, |consumers|)
      requires consumers[index].State(Some(id)) == Poll(queues[index], readFaults[index]).0
      requires OthersPolled(queues, readFaults, nextChannel, k)
      modifies Objects()
      ensures returned <==> !Escapes(d, ack)
      ensures Holds(AfterTurn(queues, readFaults, d, ack, nextChannel, k))
    {
      assert Distance(index, nextChannel, |consumers|) == k;
      returned := ApplyOutcome(index, id, d, ack);
      FinishTurn(queues, readFaults, d, ack, index, nextChannel, k);
    }

    lemma FinishTurn(queues: seq<Queue>, readFaults: seq<ReadFault>, d: Disposition, ack: Fault, index: nat,
                     next: nat, k: nat)
      requires |readFaults| == |consumers| == |queues| && next < |consumers| && k < |consumers|
      requires index == ChannelAt(next, k, |consumers|)
      requires consumers[index].State(None) == Finish(Poll(queues[index], readFaults[index]).0, d, ack)
      requires OthersPolled(queues, readFaults, next, k)
      ensures Holds(AfterTurn(queues, readFaults, d, ack, next, k))
    {
      forall i | 0 <= i < |consumers|
        ensures consumers[i].State(None)
                == QueueAfterTurn(queues[i], readFaults[i], d, ack, Distance(i, next, |consumers|), k)
      {
        assert Distance(index, next, |consumers|) == k;
        assert i != index ==> Distance(i, next, |consumers|) != k;
      }
    }

    lemma RaisedTurn(queues: seq<Queue>, readFaults: seq<ReadFault>, d: Disposition, ack: Fault, index: nat,
                     next: nat, k: nat)
      requires |readFaults| == |consumers| == |queues| && next < |consumers| && k < |consumers|
      requires index == ChannelAt(next, k, |consumers|) && queues[index].hand.None?
      requires (consumers[index].State(None), PollRaised) == Poll(queues[index], readFaults[index])
      requires OthersPolled(queues, readFaults, next, k)
      ensures Holds(AfterTurn(queues, readFaults, d, ack, next, k))
    {
      NothingInHand(queues[index], readFaults[index], d, ack);
      FinishTurn(queues, readFaults, d, ack, index, next, k);
    }

    lemma NothingFinished(queues: seq<Queue>, readFaults: seq<ReadFault>, d: Disposition, ack: Fault)
      requires |readFaults| == |consumers| == |queues| && nextChannel < |consumers|
      requires OthersPolled(queues, readFaults, nextChannel, |consumers|)
      ensures Holds(AfterTurn(queues, readFaults, d, ack, nextChannel, |consumers|))
    {
    }
  }

  predicate Escapes(d: Disposition, ack: Fault) {
    d == HandleRaised || (d != DoRetry && ack != Ok)
  }

  /** At most once per interval, one page for every channel. */
  function AfterRecovery(queues: seq<Queue>, replies: seq<ClaimReply>, due: bool): (r: seq<Queue>)
    requires |queues| == |replies|
    ensures |r| == |queues|
  {
    if due then seq(|queues|, i requires 0 <= i < |queues| => RecoverPending(queues[i], replies[i])) else queues
  }

  /** A turn in which recovery is due claims a page for every channel with nothing buffered whose call
      returned one, whatever the other channels' calls do; no other turn claims. */
  lemma DueTurnClaimsForEveryChannel(queues: seq<Queue>, replies: seq<ClaimReply>, due: bool, i: nat)
    requires |queues| == |replies| && i < |queues|
    ensures var after := AfterRecovery(queues, replies, due)[i];
            && (due && queues[i].buffer == [] && replies[i].ClaimPage? ==>
                  after.buffer == replies[i].claimed && after.cursor == replies[i].next)
            && (!due || queues[i].buffer != [] || !replies[i].ClaimPage? ==> after == queues[i])
  {
    if due {
      ClaimedPageIsBuffered(queues[i], replies[i]);
    }
  }

  function PolledSoFar(q: Queue, f: ReadFault, distance: nat, offset: nat): Queue {
    if distance < offset then Poll(q, f).0 else q
  }

  function PollAll(queues: seq<Queue>, readFaults: seq<ReadFault>): seq<PollResult>
    requires |queues| == |readFaults|
  {
    seq(|queues|, i requires 0 <= i < |queues| => Poll(queues[i], readFaults[i]).1)
  }

  /** A channel before the first ready one was polled in vain, that one was polled and finished, and
      the channels behind it were not touched. */
  function QueueAfterTurn(q: Queue, f: ReadFault, d: Disposition, ack: Fault, distance: nat, first: nat): Queue {
    if distance > first then q
    else if distance < first then Poll(q, f).0
    else Finish(Poll(q, f).0, d, ack)
  }

  function AfterTurn(queues: seq<Queue>, readFaults: seq<ReadFault>, d: Disposition, ack: Fault, next: nat,
                     first: nat): seq<Queue>
    requires |queues| == |readFaults| && next < |queues|
  {
    seq(|queues|, i requires 0 <= i < |queues| => QueueAfterTurn(queues[i], readFaults[i], d, ack,
        Distance(i, next, |queues|), first))
  }

  lemma NothingInHand(q: Queue, f: ReadFault, d: Disposition, ack: Fault)
    requires q.hand.None? && Poll(q, f).1.PollRaised?
    ensures Finish(Poll(q, f).0, d, ack) == Poll(q, f).0
  {
  }

  /** What a turn means for one channel that had nothing in hand: a channel behind the first ready one is not
      touched; one before it gave nothing and has nothing acknowledged; and the message of the ready one is
      acknowledged if and only if its outcome was ACK or REJECT and XACK took effect, and is pending
      otherwise. */
  lemma TurnFinishesWhatItPolled(queues: seq<Queue>, readFaults: seq<ReadFault>, d: Disposition, ack: Fault, next: nat,
                                 count: nat, i: nat)
    requires |queues| == |readFaults| && next < |queues| && i < |queues|
    requires Conserved(queues[i], count) && queues[i].hand == None
    ensures var k, offset := FirstReady(next, PollAll(queues, readFaults)), Distance(i, next, |queues|);
            var before, after := queues[i], AfterTurn(queues, readFaults, d, ack, next, k)[i];
            var message := Poll(before, readFaults[i]).1;
            && after.hand == None
            && (offset > k ==> after == before)
            && (offset < k ==> message == Polled(None) && after.acked == before.acked)
            && (offset == k && message.Polled? ==>
                  && message.message.Some?
                  && var id := message.message.value;
                  && var moves := (d == DoAck || d == DoReject) && (ack == Ok || ack == RaiseAfter);
                  && after.acked == (if moves then before.acked + {id} else before.acked)
                  && (id in after.pending <==> !moves))
  {
    var polls, offset := PollAll(queues, readFaults), Distance(i, next, |queues|);
    DistanceReaches(i, next, |queues|);
    if offset <= FirstReady(next, polls) {
      ReadyOrLater(next, polls, offset);
    }
    PollConserves(queues[i], count, readFaults[i]);
    var polled := Poll(queues[i], readFaults[i]).0;
    if polled.hand.Some? {
      FinishedEntryMoves(polled, count, d, ack);
    }
  }
}
