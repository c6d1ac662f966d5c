/** One channel's delivery adapter: the consumer group's pending list in Redis, and the claimed page and
    cursor in the consumer's memory. Entries are numbered in stream order. */
module Consumer {
  import opened Wrappers
  import opened Domain

  /** One XAUTOCLAIM page as it was buffered; `next` is zero at the end of the pending list. */
  datatype Page = Page(claimed: seq<nat>, next: nat)

  /** Redis: entries in (base, produced] exist, those in (base, delivered] were delivered and are
      pending or acknowledged. Consumer: buffer, cursor and the delivery in hand. The last two
      components record the pages claimed and the deliveries served from the buffer. */
  datatype Queue = Queue(base: nat, produced: nat, delivered: nat, pending: set<nat>, acked: set<nat>,
                         buffer: seq<nat>, cursor: nat, hand: Option<nat>,
                         pages: seq<Page>, served: seq<nat>)

  /** How XREADGROUP ends: it reads; the client times out; or it raises. In the last two cases the
      server may still have delivered the entry. */
  datatype ReadFault = Reads | TimesOut(delivered: bool) | ReadRaises(delivered: bool)

  datatype PollResult = Polled(message: Option<nat>) | PollRaised

  function DeliverNext(q: Queue): Queue {
    if q.delivered < q.produced
    then q.(delivered := q.delivered + 1, pending := q.pending + {q.delivered + 1})
    else q
  }

  function Poll(q: Queue, f: ReadFault): (Queue, PollResult) {
    if q.buffer != [] then
      (q.(buffer := q.buffer[1..], hand := Some(q.buffer[0]), served := q.served + [q.buffer[0]]),
          Polled(Some(q.buffer[0])))
    else
      match f
      case Reads =>
        if q.delivered < q.produced
        then (DeliverNext(q).(hand := Some(q.delivered + 1)), Polled(Some(q.delivered + 1)))
        else (q, Polled(None))
      case TimesOut(delivered) => (if delivered then DeliverNext(q) else q, Polled(None))
      case ReadRaises(delivered) => (if delivered then DeliverNext(q) else q, PollRaised)
  }

  /** XAUTOCLAIM raises, returns something that is no pair, or returns a page; a second component that is
      no list counts as an empty page. */
  datatype ClaimReply = ClaimRaises | Unusable | ClaimPage(next: nat, claimed: seq<nat>)

  function RecoverPending(q: Queue, r: ClaimReply): Queue {
    if q.buffer != [] || !r.ClaimPage? then q
    else q.(cursor := r.next, buffer := r.claimed, pages := q.pages + [Page(r.claimed, r.next)])
  }

  datatype Disposition = DoAck | DoRetry | DoReject | HandleRaised

  /** `_apply_outcome`: XACK for ACK and REJECT, nothing for RETRY. The delivery leaves the hand. */
  function Finish(q: Queue, d: Disposition, ack: Fault): Queue {
    match q.hand
    case None => q
    case Some(id) =>
      var dropped := q.(hand := None);
      if (d == DoAck || d == DoReject) && ack != RaiseBefore
      then dropped.(pending := q.pending - {id}, acked := q.acked + {id})
      else dropped
  }

  // ---------------------------------------------------------------- the objects

  /** The Redis side of one task stream and its consumer group. */
  class TaskStream {
    var base: nat
    var produced: nat
    var delivered: nat
    var pending: set<nat>
    var acked: set<nat>

    /** XREADGROUP ">" COUNT 1 */
    method XReadGroup(delivers: bool) returns (entry: Option<nat>)
      modifies this
      ensures base == old(base) && produced == old(produced) && acked == old(acked)
      ensures if delivers && old(delivered) < produced
              then delivered == old(delivered) + 1 && pending == old(pending) + {delivered} && entry == Some(delivered)
              else delivered == old(delivered) && pending == old(pending) && entry == None
    {
      entry := None;
      if delivers && delivered < produced {
        delivered := delivered + 1;
        pending := pending + {delivered};
        entry := Some(delivered);
      }
    }

    method XAck(id: nat, fault: Fault) returns (returned: bool)
      modifies this
      ensures base == old(base) && produced == old(produced) && delivered == old(delivered)
      ensures if fault == RaiseBefore then pending == old(pending) && acked == old(acked)
              else pending == old(pending) - {id} && acked == old(acked) + {id}
      ensures returned <==> fault == Ok
    {
      if fault != RaiseBefore {
        pending := pending - {id};
        acked := acked + {id};
      }
      returned := fault == Ok;
    }
  }

  class RedisTaskConsumer {
    const stream: TaskStream
    var pendingMessages: seq<nat>
    var claimCursor: nat
    ghost var pages: seq<Page>
    ghost var served: seq<nat>

    ghost function State(hand: Option<nat>): Queue
      reads this, stream
    {
      Queue(stream.base, stream.produced, stream.delivered, stream.pending, stream.acked,
            pendingMessages, claimCursor, hand, pages, served)
    }

    constructor (stream: TaskStream)
      ensures this.stream == stream
      ensures State(None) == Queue(stream.base, stream.produced, stream.delivered, stream.pending, stream.acked, [], 0,
              None, [], [])
    {
      this.stream := stream;
      pendingMessages, claimCursor, pages, served := [], 0, [], [];
    }

    method PollOnce(f: ReadFault) returns (r: PollResult)
      modifies this, stream
      ensures (State(if r.Polled? then r.message else None), r) == Poll(old(State(None)), f)
    {
      if pendingMessages != [] {
        var first := pendingMessages[0];
        pendingMessages := pendingMessages[1..];
        served := served + [first];
        return Polled(Some(first));
      }
      var entry := stream.XReadGroup(f.Reads? || f.delivered);
      match f
      case Reads => return Polled(entry);
      case TimesOut(_) => return Polled(None);
      case ReadRaises(_) => return PollRaised;
    }

    /** Returns how many deliveries were claimed; None when the call raised. */
    method RecoverPendingOnce(reply: ClaimReply) returns (claimed: Option<nat>)
      modifies this
      ensures State(None) == RecoverPending(old(State(None)), reply)
      ensures claimed == if old(pendingMessages) != [] then Some(0)
                         else if reply.ClaimRaises? then None
                         else Some(|pendingMessages|)
    {
      if pendingMessages != [] {
        return Some(0);
      }
      if reply.ClaimRaises? {
        return None;
      }
      if reply.Unusable? {
        return Some(0);
      }
      claimCursor := reply.next;
      pendingMessages := pendingMessages + reply.claimed;
      pages := pages + [Page(reply.claimed, reply.next)];
      return Some(|reply.claimed|);
    }

    method AckMessage(id: nat, fault: Fault) returns (returned: bool)
      modifies stream
      ensures State(None) == Finish(old(State(Some(id))), DoAck, fault)
      ensures returned <==> fault == Ok
    {
      returned := stream.XAck(id, fault);
    }

    /** RETRY only leaves the delivery pending. */
    method RetryMessage(id: nat)
      ensures State(None) == Finish(State(Some(id)), DoRetry, Ok)
    {
    }

    method RejectMessage(id: nat, fault: Fault) returns (returned: bool)
      modifies stream
      ensures State(None) == Finish(old(State(Some(id))), DoReject, fault)
      ensures returned <==> fault == Ok
    {
      returned := AckMessage(id, fault);
    }
  }

  // ---------------------------------------------------------------- runs of one channel

  /** Anything that can happen to one channel; a restart loses the consumer's memory. */
  datatype QueueAction =
    | Produce
    | DoPoll(fault: ReadFault)
    | DoRecover(eligible: set<nat>, reply: ClaimReply)
    | DoFinish(disposition: Disposition, ack: Fault)
    | Restart

  /** The consumer thread polls and claims only with an empty hand. */
  function QueueStep(q: Queue, a: QueueAction): Queue {
    match a
    case Produce => q.(produced := q.produced + 1)
    case DoPoll(f) => if q.hand.Some? then q else Poll(q, f).0
    case DoRecover(_, reply) => if q.hand.Some? then q else RecoverPending(q, reply)
    case DoFinish(d, ack) => Finish(q, d, ack)
    case Restart => q.(buffer := [], cursor := 0, hand := None, pages := [], served := [])
  }

  predicate InWindow(i: nat, cursor: nat, next: nat) {
    cursor <= i && (next == 0 || i < next)
  }

  function Scanned(pending: set<nat>, cursor: nat, next: nat): set<nat> {
    set i | i in pending && InWindow(i, cursor, next)
  }

  predicate Ascending(s: seq<nat>) {
    forall i, j :: 0 <= i < j < |s| ==> s[i] < s[j]
  }

  /** XAUTOCLAIM's contract: it scans the pending list from the cursor, claims the eligible entries it
      scanned in order and at most `count`, and returns the next entry to scan, having scanned at
      least `count`, or zero at the end of the list. */
  ghost predicate ObeysContract(q: Queue, count: nat, eligible: set<nat>, r: ClaimReply) {
    r.ClaimPage? ==>
      && (r.next != 0 ==> r.next in q.pending && r.next > q.cursor && |Scanned(q.pending, q.cursor, r.next)| >= count)
      && |r.claimed| <= count && Ascending(r.claimed)
      && (forall i :: i in r.claimed <==> i in Scanned(q.pending, q.cursor, r.next) && i in eligible)
  }

  predicate Claims(q: Queue, a: QueueAction) {
    a.DoRecover? && q.hand.None? && q.buffer == []
  }

  ghost predicate Lawful(q: Queue, count: nat, a: QueueAction) {
    Claims(q, a) ==> ObeysContract(q, count, a.eligible, a.reply)
  }

  function QueueRun(q: Queue, actions: seq<QueueAction>): Queue {
    if actions == [] then q
    else QueueStep(QueueRun(q, actions[..|actions| - 1]), actions[|actions| - 1])
  }

  ghost predicate LawfulRun(q: Queue, count: nat, actions: seq<QueueAction>) {
    forall k :: 0 <= k < |actions| ==> Lawful(QueueRun(q, actions[..k]), count, actions[k])
  }

  // ---------------------------------------------------------------- conservation

  function AllClaimed(pages: seq<Page>): seq<nat> {
    if pages == [] then [] else AllClaimed(pages[..|pages| - 1]) + pages[|pages| - 1].claimed
  }

  /** Entries partition into undelivered, pending and acknowledged; what the consumer holds is pending
      and distinct; the buffer is at most one page and is served in claim order. */
  ghost predicate Conserved(q: Queue, count: nat) {
    && q.base <= q.delivered <= q.produced
    && (forall i: nat :: q.base < i <= q.delivered <==> i in q.pending || i in q.acked)
    && q.pending !! q.acked
    && (forall i :: 0 <= i < |q.buffer| ==> q.buffer[i] in q.pending)
    && Ascending(q.buffer) && |q.buffer| <= count
    && (q.hand.Some? ==> q.hand.value in q.pending && q.hand.value !in q.buffer)
    && AllClaimed(q.pages) == q.served + q.buffer
  }

  lemma ClaimConserves(q: Queue, count: nat, eligible: set<nat>, r: ClaimReply)
    requires Conserved(q, count) && ObeysContract(q, count, eligible, r) && q.buffer == [] && q.hand.None?
    ensures Conserved(RecoverPending(q, r), count)
  {
    if r.ClaimPage? {
      var pages := q.pages + [Page(r.claimed, r.next)];
      assert pages[..|pages| - 1] == q.pages;
      forall i | 0 <= i < |r.claimed| ensures r.claimed[i] in q.pending {
        assert r.claimed[i] in Scanned(q.pending, q.cursor, r.next);
      }
    }
  }

  lemma ReadConserves(q: Queue, count: nat)
    requires Conserved(q, count)
    ensures Conserved(DeliverNext(q), count)
  {
  }

  lemma PollConserves(q: Queue, count: nat, f: ReadFault)
    requires Conserved(q, count) && q.hand.None?
    ensures Conserved(Poll(q, f).0, count)
  {
    if q.buffer != [] {
      assert q.served + q.buffer == q.served + [q.buffer[0]] + q.buffer[1..];
    } else {
      ReadConserves(q, count);
    }
  }

  lemma FinishConserves(q: Queue, count: nat, d: Disposition, ack: Fault)
    requires Conserved(q, count)
    ensures Conserved(Finish(q, d, ack), count)
  {
  }

  lemma StepConserves(q: Queue, count: nat, a: QueueAction)
    requires Conserved(q, count) && Lawful(q, count, a)
    ensures Conserved(QueueStep(q, a), count)
  {
    match a
    case Produce =>
    case DoPoll(f) => if q.hand.None? { PollConserves(q, count, f); }
    case DoRecover(eligible, reply) => if Claims(q, a) { ClaimConserves(q, count, eligible, reply); }
    case DoFinish(d, ack) => FinishConserves(q, count, d, ack);
    case Restart => RestartConserves(q, count);
  }

  lemma RestartConserves(q: Queue, count: nat)
    requires Conserved(q, count)
    ensures Conserved(QueueStep(q, Restart), count)
  {
    assert QueueStep(q, Restart).buffer == [];
  }

  /** Delivery conservation in every reachable state. */
  lemma {:induction false} DeliveriesAreConserved(q: Queue, count: nat, actions: seq<QueueAction>)
    requires Conserved(q, count) && LawfulRun(q, count, actions)
    ensures Conserved(QueueRun(q, actions), count)
  {
    if actions != [] {
      var n := |actions| - 1;
      assert forall k :: 0 <= k < n ==> actions[..n][..k] == actions[..k];
      DeliveriesAreConserved(q, count, actions[..n]);
      assert Lawful(QueueRun(q, actions[..n]), count, actions[n]);
      StepConserves(QueueRun(q, actions[..n]), count, actions[n]);
    }
  }

  /** Claimed entries are served in claim order, and nothing new is read before they all were: in every
      reachable state a poll serves the next unserved claimed entry, if there is one, and delivers
      something new only when there is none. */
  lemma ClaimedEntriesAreServedFirst(q: Queue, count: nat, actions: seq<QueueAction>, f: ReadFault)
    requires Conserved(q, count) && LawfulRun(q, count, actions)
    requires QueueRun(q, actions).hand.None?
    ensures var before := QueueRun(q, actions);
            var (after, r) := Poll(before, f);
            var claimed := AllClaimed(before.pages);
            && before.served <= claimed
            && (|before.served| < |claimed| ==>
                  && r == Polled(Some(claimed[|before.served|])) && after.served == claimed[..|before.served| + 1]
                  && after.delivered == before.delivered)
            && (after.delivered > before.delivered ==> before.served == claimed)
  {
    DeliveriesAreConserved(q, count, actions);
    var before := QueueRun(q, actions);
    assert AllClaimed(before.pages) == before.served + before.buffer;
  }

  /** A read that returns with nothing buffered hands out the lowest entry that was not delivered yet, and
      nothing exactly if there is none. */
  lemma ReadHandsOutTheNextEntry(q: Queue)
    requires q.buffer == []
    ensures var (q', r) := Poll(q, Reads);
            && (r == Polled(None) <==> q.delivered >= q.produced)
            && (q.delivered >= q.produced ==> q' == q)
            && (q.delivered < q.produced ==>
                  && r == Polled(Some(q.delivered + 1)) && q'.hand == Some(q.delivered + 1)
                  && q'.delivered == q.delivered + 1 && q'.pending == q.pending + {q.delivered + 1}
                  && q'.acked == q.acked && q'.produced == q.produced && q'.buffer == [])
  {
  }

  /** Over every run: an entry is delivered by one poll with nothing buffered, which hands it out unless its
      read timed out or raised. */
  lemma DeliveredEntriesAreHandedOut(q: Queue, count: nat, actions: seq<QueueAction>, k: nat)
    requires Conserved(q, count) && LawfulRun(q, count, actions) && k < |actions|
    requires QueueRun(q, actions[..k + 1]).delivered != QueueRun(q, actions[..k]).delivered
    ensures var before, after := QueueRun(q, actions[..k]), QueueRun(q, actions[..k + 1]);
            && actions[k].DoPoll? && before.buffer == [] && before.hand == None
            && after.delivered == before.delivered + 1 && after.delivered in after.pending
            && (actions[k].fault == Reads ==> after.hand == Some(after.delivered))
            && (actions[k].fault != Reads ==> after.hand == None)
  {
    assert actions[..k + 1][..k] == actions[..k];
  }

  /** And a poll that reads delivers whenever there is something to deliver. */
  lemma ReadingPollDelivers(q: Queue, actions: seq<QueueAction>, k: nat)
    requires k < |actions| && actions[k] == DoPoll(Reads)
    requires var before := QueueRun(q, actions[..k]);
             before.hand == None && before.buffer == [] && before.delivered < before.produced
    ensures QueueRun(q, actions[..k + 1]).hand == Some(QueueRun(q, actions[..k]).delivered + 1)
  {
    assert actions[..k + 1][..k] == actions[..k];
  }

  /** The delivery in hand leaves it; it moves from pending to acknowledged exactly if it was acknowledged or
      rejected and XACK took effect. */
  lemma FinishedEntryMoves(q: Queue, count: nat, d: Disposition, ack: Fault)
    requires Conserved(q, count) && q.hand.Some?
    ensures var q', id := Finish(q, d, ack), q.hand.value;
            var moves := (d == DoAck || d == DoReject) && (ack == Ok || ack == RaiseAfter);
            && q'.hand == None && q'.buffer == q.buffer && q'.cursor == q.cursor && q'.delivered == q.delivered
            && q'.acked == (if moves then q.acked + {id} else q.acked)
            && q'.pending == (if moves then q.pending - {id} else q.pending)
            && (id in q'.acked <==> moves) && (id in q'.pending <==> !moves)
  {
  }

  /** A page is claimed exactly when nothing is buffered and XAUTOCLAIM returned one: then it is buffered in
      its order, and the cursor is where it ended. */
  lemma ClaimedPageIsBuffered(q: Queue, r: ClaimReply)
    ensures var q' := RecoverPending(q, r);
            && (q.buffer == [] && r.ClaimPage? ==>
                  && q'.buffer == r.claimed && q'.cursor == r.next && |q'.pages| == |q.pages| + 1
                  && q'.pages[|q.pages|] == Page(r.claimed, r.next))
            && (q.buffer != [] || !r.ClaimPage? ==> q' == q)
            && q'.pending == q.pending && q'.delivered == q.delivered && q'.hand == q.hand
  {
  }

  // ---------------------------------------------------------------- sweep coverage

  /** Pending entries before `e` that the sweep has still to scan: the measure that decreases. */
  function Ahead(q: Queue, e: nat): set<nat> {
    set i | i in q.pending && q.cursor <= i < e
  }

  lemma SubsetSize<T>(a: set<T>, b: set<T>)
    requires a <= b
    ensures |a| <= |b|
  {
    assert |b| == |a| + |b - a| by {
      assert b == a + (b - a);
    }
  }

  ghost predicate ClaimedIn(pages: seq<Page>, e: nat) {
    exists j :: 0 <= j < |pages| && e in pages[j].claimed
  }

  /** No page since position j ended the sweep. */
  ghost predicate SameSweep(pages: seq<Page>, j: nat, k: nat) {
    forall w :: j <= w < k && w < |pages| ==> pages[w].next != 0
  }

  /** The pages claimed since the given one. */
  function PagesSince(q: Queue, start: nat): seq<Page>
    requires start <= |q.pages|
  {
    q.pages[start..]
  }

  /** What the sweep that began at page `start` has done about entry `e`, which was at position `p` of the
      pending list. */
  ghost predicate Sweeping(q: Queue, start: nat, count: nat, e: nat, p: nat) {
    && start <= |q.pages|
    && var pages := PagesSince(q, start);
    && (!ClaimedIn(pages, e) ==>
          && e in q.pending && q.cursor <= e && e !in q.buffer && q.hand != Some(e)
          && SameSweep(pages, 0, |pages|)
          && count * |pages| + |Ahead(q, e)| <= p)
    && (ClaimedIn(pages, e) ==> exists j :: 0 <= j < |pages| && e in pages[j].claimed && count * j <= p)
    && OncePerSweep(pages, q.cursor, e)
  }

  /** A page either claims the entry in time or scans `count` pending entries before it. */
  lemma PageAdvances(q: Queue, n: nat, count: nat, e: nat, p: nat, eligible: set<nat>, r: ClaimReply)
    requires r.ClaimPage? && ObeysContract(q, count, eligible, r) && e in eligible && e in q.pending && q.cursor <= e
    requires count * n + |Ahead(q, e)| <= p && e !in r.claimed && q.buffer == []
    ensures var q' := RecoverPending(q, r);
            r.next != 0 && q'.cursor <= e && count * (n + 1) + |Ahead(q', e)| <= p
  {
    var q' := RecoverPending(q, r);
    var scanned := Scanned(q.pending, q.cursor, r.next);
    assert e !in scanned;
    assert Ahead(q, e) == scanned + Ahead(q', e) && scanned !! Ahead(q', e);
    assert count * (n + 1) == count * n + count;
  }

  /** No entry is claimed twice without the end of a sweep in between. */
  ghost predicate OncePerSweep(pages: seq<Page>, cursor: nat, e: nat) {
    && (forall j :: 0 <= j < |pages| && e in pages[j].claimed && SameSweep(pages, j, |pages|) ==> cursor > e)
    && (forall j, k :: 0 <= j < k < |pages| && e in pages[j].claimed && e in pages[k].claimed ==>
        !SameSweep(pages, j, k))
  }

  lemma SameSweepOfSnoc(pages: seq<Page>, page: Page, j: nat, k: nat)
    requires j <= k <= |pages|
    ensures SameSweep(pages + [page], j, k) <==> SameSweep(pages, j, k)
    ensures k == |pages| ==> (SameSweep(pages + [page], j, k + 1) <==> SameSweep(pages, j, k) && page.next != 0)
  {
    var all := pages + [page];
    assert forall w :: 0 <= w < |pages| ==> all[w] == pages[w];
    assert all[|pages|] == page;
  }

  lemma PageOncePerSweep(q: Queue, pages: seq<Page>, count: nat, e: nat, eligible: set<nat>, r: ClaimReply)
    requires OncePerSweep(pages, q.cursor, e) && r.ClaimPage? && ObeysContract(q, count, eligible, r)
    ensures OncePerSweep(pages + [Page(r.claimed, r.next)], r.next, e)
  {
    var n, page := |pages|, Page(r.claimed, r.next);
    var pages' := pages + [page];
    assert forall j :: 0 <= j < n ==> pages'[j] == pages[j];
    assert e in r.claimed ==> e in Scanned(q.pending, q.cursor, r.next);
    forall j, k | 0 <= j < k <= n && e in pages'[j].claimed && e in pages'[k].claimed ensures !SameSweep(pages', j, k) {
      SameSweepOfSnoc(pages, page, j, k);
    }
    forall j | 0 <= j <= n && e in pages'[j].claimed && SameSweep(pages', j, n + 1) ensures r.next > e {
      SameSweepOfSnoc(pages, page, j, n);
    }
  }

  lemma PageSweeps(q: Queue, start: nat, count: nat, e: nat, p: nat, eligible: set<nat>, r: ClaimReply)
    requires Sweeping(q, start, count, e, p) && q.buffer == [] && q.hand.None?
    requires r.ClaimPage? && ObeysContract(q, count, eligible, r)
             && (!ClaimedIn(PagesSince(q, start), e) ==> e in eligible)
    ensures Sweeping(RecoverPending(q, r), start, count, e, p)
  {
    var q', page := RecoverPending(q, r), Page(r.claimed, r.next);
    var pages := PagesSince(q, start);
    var pages', n := PagesSince(q', start), |pages|;
    assert pages' == pages + [page];
    PageOncePerSweep(q, pages, count, e, eligible, r);
    assert pages'[n] == page && forall j :: 0 <= j < n ==> pages'[j] == pages[j];
    if ClaimedIn(pages, e) {
      var j :| 0 <= j < n && e in pages[j].claimed && count * j <= p;
      assert e in pages'[j].claimed;
    } else if e in r.claimed {
      assert count * n <= p;
    } else {
      PageAdvances(q, n, count, e, p, eligible, r);
      SameSweepOfSnoc(pages, page, 0, n);
    }
  }

  lemma StepSweeps(q: Queue, start: nat, count: nat, e: nat, p: nat, a: QueueAction)
    requires Conserved(q, count) && Sweeping(q, start, count, e, p) && Lawful(q, count, a) && !a.Restart?
    requires Claims(q, a) && !ClaimedIn(PagesSince(q, start), e) ==> e in a.eligible
    ensures Sweeping(QueueStep(q, a), start, count, e, p)
  {
    var q' := QueueStep(q, a);
    if Claims(q, a) && a.reply.ClaimPage? {
      PageSweeps(q, start, count, e, p, a.eligible, a.reply);
    } else {
      assert q'.pages == q.pages && q'.cursor == q.cursor;
      if !ClaimedIn(PagesSince(q, start), e) {
        assert Ahead(q', e) <= Ahead(q, e);
        SubsetSize(Ahead(q', e), Ahead(q, e));
      }
    }
  }

  /** Any sweep begins with the cursor at zero and nothing buffered or in hand. */
  predicate SweepStart(q: Queue) {
    q.cursor == 0 && q.buffer == [] && q.hand.None?
  }

  /** The entry is eligible whenever a page is claimed, until it has been claimed itself: being claimed
      makes it idle anew. */
  ghost predicate EligibleUntilClaimed(q: Queue, e: nat, actions: seq<QueueAction>) {
    forall k :: 0 <= k < |actions| ==> EligibleAt(q, e, actions, k)
  }

  ghost predicate EligibleAt(q: Queue, e: nat, actions: seq<QueueAction>, k: nat)
    requires k < |actions|
  {
    var met := QueueRun(q, actions[..k]);
    Claims(met, actions[k]) && |q.pages| <= |met.pages| && !ClaimedIn(PagesSince(met, |q.pages|), e) ==>
        e in actions[k].eligible
  }

  predicate NoRestart(actions: seq<QueueAction>) {
    forall k :: 0 <= k < |actions| ==> !actions[k].Restart?
  }

  lemma {:induction false} SweepRun(q: Queue, count: nat, e: nat, actions: seq<QueueAction>)
    requires Conserved(q, count) && SweepStart(q) && e in q.pending && LawfulRun(q, count, actions)
    requires NoRestart(actions) && EligibleUntilClaimed(q, e, actions)
    ensures Conserved(QueueRun(q, actions), count)
    ensures Sweeping(QueueRun(q, actions), |q.pages|, count, e, |Ahead(q, e)|)
  {
    if actions == [] {
      assert PagesSince(q, |q.pages|) == [];
    } else {
      var n := |actions| - 1;
      var front := actions[..n];
      assert forall k :: 0 <= k < n ==> front[..k] == actions[..k];
      forall k | 0 <= k < n ensures EligibleAt(q, e, front, k) {
        assert EligibleAt(q, e, actions, k);
      }
      SweepRun(q, count, e, front);
      var before := QueueRun(q, front);
      assert Lawful(before, count, actions[n]) && EligibleAt(q, e, actions, n);
      StepConserves(before, count, actions[n]);
      StepSweeps(before, |q.pages|, count, e, |Ahead(q, e)|, actions[n]);
    }
  }

  /** Pending sweep coverage, for every sweep: an entry that is pending at position p when the sweep starts,
      and eligible whenever a page is claimed until it is claimed itself, is buffered within
      floor(p / count) + 1 pages, whatever is read, acknowledged, retried or produced in between, and never
      twice in one sweep. */
  lemma SweepCoversPendingEntry(q: Queue, count: nat, e: nat, actions: seq<QueueAction>)
    requires Conserved(q, count) && SweepStart(q) && e in q.pending && count > 0 && LawfulRun(q, count, actions)
    requires NoRestart(actions) && EligibleUntilClaimed(q, e, actions)
    ensures |q.pages| <= |QueueRun(q, actions).pages|
    ensures var pages := PagesSince(QueueRun(q, actions), |q.pages|);
            var p := |Ahead(q, e)|;
            && (|pages| >= p / count + 1 ==> exists j :: 0 <= j <= p / count && j < |pages| && e in pages[j].claimed)
            && (forall j, k :: 0 <= j < k < |pages| && e in pages[j].claimed && e in pages[k].claimed ==>
                                 exists w :: j <= w < k && pages[w].next == 0)
  {
    SweepRun(q, count, e, actions);
    SweepingCovers(QueueRun(q, actions), |q.pages|, count, e, |Ahead(q, e)|);
  }

  lemma SweepingCovers(q: Queue, start: nat, count: nat, e: nat, p: nat)
    requires Sweeping(q, start, count, e, p) && count > 0
    ensures var pages := PagesSince(q, start);
            && (|pages| >= p / count + 1 ==> exists j :: 0 <= j <= p / count && j < |pages| && e in pages[j].claimed)
            && (forall j, k :: 0 <= j < k < |pages| && e in pages[j].claimed && e in pages[k].claimed ==>
                                 exists w :: j <= w < k && pages[w].next == 0)
  {
    var pages := PagesSince(q, start);
    if ClaimedIn(pages, e) {
      var j :| 0 <= j < |pages| && e in pages[j].claimed && count * j <= p;
      FitsDivision(count, j, p);
    } else {
      FitsDivision(count, |pages|, p);
    }
    forall j, k | 0 <= j < k < |pages| && e in pages[j].claimed && e in pages[k].claimed
      ensures exists w :: j <= w < k && pages[w].next == 0
    {
      assert !SameSweep(pages, j, k);
    }
  }

  lemma FitsDivision(c: nat, j: nat, p: nat)
    requires c > 0 && c * j <= p
    ensures j <= p / c
  {
    var k, extra := p / c, j - (p / c + 1);
    assert c * j == c * (k + 1) + c * extra;
    assert c * (k + 1) > p;
    assert extra >= 0 ==> c * extra >= 0;
  }
}
