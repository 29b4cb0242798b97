/** Where every trade goes and what the session counters say about it, in every
    reachable state of the stream and for every interleaving of its threads. */
module Accounting {
  import opened Trades
  import opened StreamMachine
  import opened SocketThread

  function AllOf(drained: seq<Batch>): seq<Trade> {
    if drained == [] then [] else AllOf(drained[..|drained| - 1]) + drained[|drained| - 1].trades
  }

  function CommittedOf(drained: seq<Batch>): seq<Trade> {
    if drained == [] then []
    else
      var last := drained[|drained| - 1];
      CommittedOf(drained[..|drained| - 1]) + (if last.committed then last.trades else [])
  }

  function RowsWritten(sessions: seq<Session>): int {
    if sessions == [] then 0 else RowsWritten(sessions[..|sessions| - 1]) + sessions[|sessions| - 1].rowsWritten
  }

  function PutOf(s: State): nat { if s.inflight.Some? then s.inflight.value.put else 0 }

  // --- Invariant -----------------------------------------------------------

  // The socket thread: counted plus put-but-not-counted is everything enqueued.
  ghost predicate Counting(s: State) {
    && s.events.tradesSeen + PutOf(s) == |s.log.enqueued|
    && (s.inflight.Some? && s.inflight.value.kind != TRADE ==>
          s.inflight.value.unput == [] && s.inflight.value.put == 0)
  }

  // The queue is first in, first out, and each batch is bounded.
  ghost predicate Queueing(maxRows: nat, s: State) {
    && s.log.enqueued == AllOf(s.log.drained) + s.queue
    && (forall i :: 0 <= i < |s.log.drained| ==> |s.log.drained[i].trades| <= maxRows)
    && (s.phase.Drained? || s.phase.Loaded? || s.phase.Counted? ==>
          s.log.drained != [] && s.log.drained[|s.log.drained| - 1] == Batch(s.phase.batch, false))
  }

  // The session's rows are the committed batches, in order.
  ghost predicate Storing(s: State) {
    && s.log.base <= |s.raw|
    && s.raw[s.log.base..] == CommittedOf(s.log.drained)
    && RowsWritten(s.sessions) == |s.raw|
  }

  ghost predicate Reporting(s: State) {
    s.sessions != [] ==>
      var row := s.sessions[|s.sessions| - 1];
      && row.tradesReceived == s.reported <= s.events.tradesSeen
      && row.rowsWritten == |CommittedOf(s.log.drained)|
      && row.rowsWritten <= row.tradesReceived + s.log.flight
      && (s.phase.Counted? ==>
            |AllOf(s.log.drained)| <= s.phase.seen + s.log.flightAtRead && s.phase.seen <= s.events.tradesSeen)
  }

  ghost predicate BooksInv(maxRows: nat, s: State) {
    Counting(s) && Queueing(maxRows, s) && Storing(s) && Reporting(s)
  }

  // --- Each kind of step keeps it ------------------------------------------

  lemma {:induction false} CommittedWithin(drained: seq<Batch>)
    ensures |CommittedOf(drained)| <= |AllOf(drained)|
    ensures multiset(CommittedOf(drained)) <= multiset(AllOf(drained))
  {
    if drained != [] { CommittedWithin(drained[..|drained| - 1]); }
  }

  lemma MarkLastCommits(drained: seq<Batch>)
    requires drained != [] && !drained[|drained| - 1].committed
    ensures AllOf(MarkLast(drained)) == AllOf(drained)
    ensures CommittedOf(MarkLast(drained)) == CommittedOf(drained) + drained[|drained| - 1].trades
  {
    var front := drained[..|drained| - 1];
    assert MarkLast(drained)[..|drained| - 1] == front;
    assert CommittedOf(front) + [] == CommittedOf(front);
  }

  lemma DrainAppends(drained: seq<Batch>, trades: seq<Trade>)
    ensures AllOf(drained + [Batch(trades, false)]) == AllOf(drained) + trades
    ensures CommittedOf(drained + [Batch(trades, false)]) == CommittedOf(drained)
  {
    assert (drained + [Batch(trades, false)])[..|drained|] == drained;
    assert CommittedOf(drained) + [] == CommittedOf(drained);
  }

  lemma DrainKeepsBooks(maxRows: nat, s: State)
    requires BooksInv(maxRows, s) && s.phase.Sleeping?
    ensures BooksInv(maxRows, DrainQueue(maxRows, s))
  {
    var batch := Taken(maxRows, s.queue);
    var s' := DrainQueue(maxRows, s);
    DrainAppends(s.log.drained, batch);
    assert s'.log.drained == s.log.drained + [Batch(batch, false)] && |batch| <= maxRows;
    assert s.queue == batch + s'.queue;
    assert Queueing(maxRows, s');
  }

  lemma ReadKeepsBooks(maxRows: nat, s: State)
    requires BooksInv(maxRows, s) && s.phase.Loaded?
    ensures BooksInv(maxRows, Next(maxRows, s, ReadSeen))
  {}

  lemma CommitKeepsStoring(maxRows: nat, s: State)
    requires BooksInv(maxRows, s) && s.phase.Counted? && s.sessions != []
    ensures Storing(CommitBatch(s))
  {
    var s', n, batch := CommitBatch(s), |s.sessions| - 1, s.phase.batch;
    MarkLastCommits(s.log.drained);
    assert s'.sessions[..n] == s.sessions[..n];
    assert (s.raw + batch)[s.log.base..] == s.raw[s.log.base..] + batch;
  }

  lemma CommitKeepsQueueing(maxRows: nat, s: State)
    requires BooksInv(maxRows, s) && s.phase.Counted? && s.sessions != []
    ensures Queueing(maxRows, CommitBatch(s)) && Counting(CommitBatch(s))
  {
    MarkLastCommits(s.log.drained);
  }

  lemma CommitKeepsReporting(maxRows: nat, s: State)
    requires BooksInv(maxRows, s) && s.phase.Counted? && s.sessions != []
    ensures Reporting(CommitBatch(s))
  {
    var s', n := CommitBatch(s), |s.sessions| - 1;
    MarkLastCommits(s.log.drained);
    CommittedWithin(MarkLast(s.log.drained));
    assert s'.sessions[n].rowsWritten == s.sessions[n].rowsWritten + |s.phase.batch|;
    assert s'.sessions[n].tradesReceived == s.phase.seen;
  }

  lemma CommitKeepsBooks(maxRows: nat, s: State)
    requires BooksInv(maxRows, s) && s.phase.Counted? && s.sessions != []
    ensures BooksInv(maxRows, CommitBatch(s))
  {
    CommitKeepsStoring(maxRows, s);
    CommitKeepsQueueing(maxRows, s);
    CommitKeepsReporting(maxRows, s);
  }

  lemma PutKeepsBooks(maxRows: nat, s: State)
    requires BooksInv(maxRows, s)
    ensures BooksInv(maxRows, PutOne(s))
  {}

  lemma StartKeepsBooks(maxRows: nat, s: State)
    requires BooksInv(maxRows, s)
    ensures BooksInv(maxRows, StartSession(s))
  {
    assert (s.sessions + [Session(0, 0, None, None)])[..|s.sessions|] == s.sessions;
    assert s.raw[|s.raw|..] == [];
  }

  lemma LoadKeepsBooks(maxRows: nat, s: State, ok: bool)
    requires BooksInv(maxRows, s) && s.phase.Drained?
    ensures BooksInv(maxRows, LoadPrices(s, ok))
  {
    var s' := LoadPrices(s, ok);
    assert s'.phase.Loaded? && s'.phase.batch == s.phase.batch;
    assert s' == s.(phase := s'.phase, log := s.log.(loadTrust := s'.log.loadTrust));
  }

  lemma SaveKeepsBooks(maxRows: nat, s: State, result: SaveResult)
    requires BooksInv(maxRows, s) && s.phase.Committed?
    ensures BooksInv(maxRows, SavePrices(s, result))
  {
    var s' := SavePrices(s, result);
    assert s' == s.(phase := s'.phase, needsReseed := s'.needsReseed, redis := s'.redis,
                    log := s.log.(trust := s'.log.trust, lagging := s'.log.lagging));
  }

  lemma SocketMovesKeepBooks(maxRows: nat, s: State, s': State)
    requires BooksInv(maxRows, s) && s' == s.(events := s'.events, inflight := s'.inflight)
    requires Counting(s') && s.events.tradesSeen <= s'.events.tradesSeen
    ensures BooksInv(maxRows, s')
  {}

  lemma SocketKeepsCount(maxRows: nat, s: State, step: Step)
    requires Counting(s) && (step.Receive? || step.Count? || step.Callback?)
    ensures var s' := Next(maxRows, s, step);
            Counting(s') && s.events.tradesSeen <= s'.events.tradesSeen
  {}

  lemma SocketKeepsBooks(maxRows: nat, s: State, step: Step)
    requires BooksInv(maxRows, s) && (step.Receive? || step.Count? || step.Callback?)
    ensures BooksInv(maxRows, Next(maxRows, s, step))
  {
    SocketKeepsCount(maxRows, s, step);
    SocketMovesKeepBooks(maxRows, s, Next(maxRows, s, step));
  }

  lemma AlertKeepsBooks(maxRows: nat, s: State, step: Step)
    requires BooksInv(maxRows, s) && (step.CreateAlert? || step.DeleteAlert?)
    ensures BooksInv(maxRows, Next(maxRows, s, step))
  {
    var s' := Next(maxRows, s, step);
    assert s' == s.(alerts := s'.alerts);
  }

  lemma EvictKeepsBooks(maxRows: nat, s: State, keys: set<string>)
    requires BooksInv(maxRows, s)
    ensures BooksInv(maxRows, Next(maxRows, s, Evict(keys)))
  {}

  lemma MovePhaseKeepsBooks(maxRows: nat, s: State, s': State)
    requires BooksInv(maxRows, s) && s' == s.(phase := s'.phase, alerts := s'.alerts)
    requires !(s'.phase.Drained? || s'.phase.Loaded? || s'.phase.Counted?)
    ensures BooksInv(maxRows, s')
  {}

  lemma PhaseKeepsBooks(maxRows: nat, s: State, step: Step)
    requires BooksInv(maxRows, s) && (step.CheckAlerts? || step.TestClosed? || step == Commit(false))
    ensures BooksInv(maxRows, Next(maxRows, s, step))
  {
    var s' := Next(maxRows, s, step);
    if s' != s {
      assert s' == s.(phase := s'.phase, alerts := s'.alerts);
      MovePhaseKeepsBooks(maxRows, s, s');
    }
  }

  lemma StepKeepsBooks(maxRows: nat, s: State, step: Step)
    requires BooksInv(maxRows, s)
    ensures BooksInv(maxRows, Next(maxRows, s, step))
  {
    match step
    case Put => PutKeepsBooks(maxRows, s);
    case Drain => if s.phase.Sleeping? { DrainKeepsBooks(maxRows, s); }
    case Load(ok) => if s.phase.Drained? { LoadKeepsBooks(maxRows, s, ok); }
    case ReadSeen => if s.phase.Loaded? { ReadKeepsBooks(maxRows, s); }
    case Commit(ok) =>
      if !ok { PhaseKeepsBooks(maxRows, s, step); }
      else if s.phase.Counted? && s.sessions != [] { CommitKeepsBooks(maxRows, s); }
    case Save(result) => if s.phase.Committed? { SaveKeepsBooks(maxRows, s, result); }
    case Start => StartKeepsBooks(maxRows, s);
    case Receive(_, _) => SocketKeepsBooks(maxRows, s, step);
    case Count(_) => SocketKeepsBooks(maxRows, s, step);
    case Callback(_, _, _) => SocketKeepsBooks(maxRows, s, step);
    case CreateAlert(_, _) => AlertKeepsBooks(maxRows, s, step);
    case DeleteAlert(_) => AlertKeepsBooks(maxRows, s, step);
    case Evict(keys) => EvictKeepsBooks(maxRows, s, keys);
    case _ => PhaseKeepsBooks(maxRows, s, step);
  }

  lemma InitialBooks(maxRows: nat)
    ensures BooksInv(maxRows, INITIAL)
  {
    assert INITIAL.log.drained == [] && INITIAL.queue == [] && INITIAL.raw == [] && INITIAL.sessions == [];
    assert INITIAL.phase == Ended && INITIAL.events == QUIET && INITIAL.inflight == None && INITIAL.log.base == 0;
  }

  lemma {:induction false} RunKeepsBooks(maxRows: nat, steps: seq<Step>)
    ensures BooksInv(maxRows, Run(maxRows, INITIAL, steps))
  {
    if steps == [] {
      InitialBooks(maxRows);
    } else {
      RunKeepsBooks(maxRows, steps[..|steps| - 1]);
      StepKeepsBooks(maxRows, Run(maxRows, INITIAL, steps[..|steps| - 1]), steps[|steps| - 1]);
    }
  }

  lemma ReachableBooks(maxRows: nat, s: State)
    requires Reachable(maxRows, s)
    ensures BooksInv(maxRows, s)
  {
    var steps :| s == Run(maxRows, INITIAL, steps);
    RunKeepsBooks(maxRows, steps);
  }

  // --- Results -------------------------------------------------------------

  /** Conservation, over any session: the trades it received are, in order, those
      of its drained batches, the queue, and what is left of the message in
      progress; no batch is over the limit; the session's rows are exactly the
      batches whose transaction committed, in order; so no trade is stored more
      often than it was received. */
  lemma TradesConserved(maxRows: nat, s: State, steps: seq<Step>)
    requires Reachable(maxRows, s) && Start !in steps
    ensures var begun := Next(maxRows, s, Start);
            var s', got := Run(maxRows, begun, steps), Received(maxRows, begun, steps);
            && got == AllOf(s'.log.drained) + s'.queue + Unput(s')
            && (forall i :: 0 <= i < |s'.log.drained| ==> |s'.log.drained[i].trades| <= maxRows)
            && s.raw <= s'.raw && s'.raw[|s.raw|..] == CommittedOf(s'.log.drained)
            && multiset(s'.raw[|s.raw|..]) + multiset(s'.queue) + multiset(Unput(s')) <= multiset(got)
  {
    var begun := Next(maxRows, s, Start);
    var s' := Run(maxRows, begun, steps);
    RunReceives(maxRows, begun, steps);
    assert [] + [] + Received(maxRows, begun, steps) == Received(maxRows, begun, steps);
    StaysReachable(maxRows, s, [Start] + steps);
    RunAppend(maxRows, s, [Start], steps);
    OneMore(maxRows, s, [], Start);
    assert [] + [Start] == [Start];
    ReachableBooks(maxRows, s');
    RunEnqueues(maxRows, begun, steps);
    RowsOnlyAdded(maxRows, begun, steps);
    CommittedWithin(s'.log.drained);
  }

  lemma StepOnlyAddsRows(maxRows: nat, s: State, step: Step)
    ensures s.raw <= Next(maxRows, s, step).raw
  {
    match step
    case Load(ok) => if s.phase.Drained? { assert LoadPrices(s, ok).raw == s.raw; }
    case Save(result) => if s.phase.Committed? { assert SavePrices(s, result).raw == s.raw; }
    case _ =>
  }

  lemma {:induction false} RowsOnlyAdded(maxRows: nat, s: State, steps: seq<Step>)
    ensures s.raw <= Run(maxRows, s, steps).raw
  {
    if steps != [] {
      RowsOnlyAdded(maxRows, s, steps[..|steps| - 1]);
      StepOnlyAddsRows(maxRows, Run(maxRows, s, steps[..|steps| - 1]), steps[|steps| - 1]);
    }
  }

  /** The two threads agree: the counter is what was enqueued less the message
      in flight, and a session never reports more rows than trades received plus
      those in flight when the reported count was read. */
  lemma CountersAgree(maxRows: nat, s: State)
    requires Reachable(maxRows, s)
    ensures s.events.tradesSeen == |s.log.enqueued| - PutOf(s)
    ensures s.sessions != [] ==>
              var row := s.sessions[|s.sessions| - 1]; row.rowsWritten <= row.tradesReceived + s.log.flight
  {
    ReachableBooks(maxRows, s);
  }

  /** The heartbeats telescope: whatever flushes fail, trades_received is the
      count last reported and rows_written the rows the session stored; and over
      all sessions the rows written are the rows of the table. */
  lemma HeartbeatsTelescope(maxRows: nat, s: State)
    requires Reachable(maxRows, s)
    ensures RowsWritten(s.sessions) == |s.raw|
    ensures s.sessions != [] ==>
              var row := s.sessions[|s.sessions| - 1];
              row.tradesReceived == s.reported <= s.events.tradesSeen && row.rowsWritten == |s.raw| - s.log.base
  {
    ReachableBooks(maxRows, s);
  }

  // The batch being flushed may still commit; the others are settled.
  predicate InProgress(s: State) { s.phase.Drained? || s.phase.Loaded? || s.phase.Counted? }

  ghost predicate Settled(s: State, batches: seq<Batch>) {
    batches <= s.log.drained && (InProgress(s) ==> |batches| < |s.log.drained|)
  }

  lemma FlushKeepsSettled(maxRows: nat, s: State, step: Step, batches: seq<Batch>)
    requires Settled(s, batches) && (step.Drain? || step.Load? || step.Commit? || step.Save?)
    ensures Settled(Next(maxRows, s, step), batches)
  {
    match step
    case Load(ok) => if s.phase.Drained? { assert LoadPrices(s, ok).log.drained == s.log.drained; }
    case Save(result) => if s.phase.Committed? { assert SavePrices(s, result).log.drained == s.log.drained; }
    case Commit(ok) => if ok && s.phase.Counted? && s.sessions != [] { assert batches <= MarkLast(s.log.drained); }
    case Drain => if s.phase.Sleeping? { assert s.log.drained <= DrainQueue(maxRows, s).log.drained; }
  }

  lemma StepKeepsSettled(maxRows: nat, s: State, step: Step, batches: seq<Batch>)
    requires Settled(s, batches) && step != Start
    ensures Settled(Next(maxRows, s, step), batches)
  {
    if FromOutside(step) {
      OutsideFrame(maxRows, s, step);
    } else if step.Drain? || step.Load? || step.Commit? || step.Save? {
      FlushKeepsSettled(maxRows, s, step, batches);
    }
  }

  lemma {:induction false} RunKeepsSettled(maxRows: nat, s: State, steps: seq<Step>)
    requires !InProgress(s) && Start !in steps
    ensures Settled(Run(maxRows, s, steps), s.log.drained)
  {
    if steps != [] {
      RunKeepsSettled(maxRows, s, steps[..|steps| - 1]);
      StepKeepsSettled(maxRows, Run(maxRows, s, steps[..|steps| - 1]), steps[|steps| - 1], s.log.drained);
    }
  }

  // Within a session the queue's history only grows.
  lemma StepEnqueues(maxRows: nat, s: State, step: Step)
    requires step != Start
    ensures Next(maxRows, s, step).log.base == s.log.base && s.log.enqueued <= Next(maxRows, s, step).log.enqueued
  {
    match step
    case Load(ok) => if s.phase.Drained? { assert LoadPrices(s, ok).log.enqueued == s.log.enqueued; }
    case Save(result) => if s.phase.Committed? { assert SavePrices(s, result).log.enqueued == s.log.enqueued; }
    case _ =>
  }

  lemma {:induction false} RunEnqueues(maxRows: nat, s: State, steps: seq<Step>)
    requires Start !in steps
    ensures Run(maxRows, s, steps).log.base == s.log.base && s.log.enqueued <= Run(maxRows, s, steps).log.enqueued
  {
    if steps != [] {
      RunEnqueues(maxRows, s, steps[..|steps| - 1]);
      StepEnqueues(maxRows, Run(maxRows, s, steps[..|steps| - 1]), steps[|steps| - 1]);
    }
  }

  lemma {:induction false} AllOfSplits(xs: seq<Batch>, ys: seq<Batch>)
    ensures AllOf(xs + ys) == AllOf(xs) + AllOf(ys)
  {
    if ys == [] {
      assert xs + ys == xs;
    } else {
      var front, last := ys[..|ys| - 1], ys[|ys| - 1];
      AllOfSplits(xs, front);
      assert (xs + ys)[..|xs + ys| - 1] == xs + front;
      Regroup(AllOf(xs), AllOf(front), last.trades);
    }
  }

  lemma {:induction false} CommittedSplits(xs: seq<Batch>, ys: seq<Batch>)
    ensures CommittedOf(xs + ys) == CommittedOf(xs) + CommittedOf(ys)
  {
    if ys == [] {
      assert xs + ys == xs;
    } else {
      var front, last := ys[..|ys| - 1], ys[|ys| - 1];
      CommittedSplits(xs, front);
      assert (xs + ys)[..|xs + ys| - 1] == xs + front;
      Regroup(CommittedOf(xs), CommittedOf(front), if last.committed then last.trades else []);
    }
  }

  lemma Regroup(a: seq<Trade>, b: seq<Trade>, c: seq<Trade>)
    ensures (a + b) + c == a + (b + c)
  {}

  /** A batch whose insert failed is not tried again. Once its flush is over, the
      session's rows are, however it goes on, those of the batches committed by
      then followed by those of batches drained later; and the later batches hold
      only what was on the queue then or was put on it since. */
  lemma {:induction false} FailedInsertIsNotRetried(maxRows: nat, s: State, steps: seq<Step>)
    requires Reachable(maxRows, s) && !InProgress(s) && Start !in steps
    ensures var s' := Run(maxRows, s, steps);
            && s.log.drained <= s'.log.drained && s'.log.base == s.log.base <= |s'.raw|
            && s.log.enqueued <= s'.log.enqueued
            && var later := s'.log.drained[|s.log.drained|..];
               && s'.raw[s.log.base..] == CommittedOf(s.log.drained) + CommittedOf(later)
               && AllOf(later) + s'.queue == s.queue + s'.log.enqueued[|s.log.enqueued|..]
  {
    var s' := Run(maxRows, s, steps);
    RunKeepsSettled(maxRows, s, steps);
    RunEnqueues(maxRows, s, steps);
    StaysReachable(maxRows, s, steps);
    ReachableBooks(maxRows, s);
    ReachableBooks(maxRows, s');
    SplitBooks(s.log.drained, s.queue, s.log.enqueued, s'.log.drained, s'.queue, s'.log.enqueued);
  }

  lemma StaysReachable(maxRows: nat, s: State, steps: seq<Step>)
    requires Reachable(maxRows, s)
    ensures Reachable(maxRows, Run(maxRows, s, steps))
  {
    var before :| s == Run(maxRows, INITIAL, before);
    RunAppend(maxRows, INITIAL, before, steps);
  }

  lemma SplitBooks(drained: seq<Batch>, queue: seq<Trade>, enqueued: seq<Trade>,
                   drained': seq<Batch>, queue': seq<Trade>, enqueued': seq<Trade>)
    requires drained <= drained' && enqueued <= enqueued'
    requires enqueued == AllOf(drained) + queue && enqueued' == AllOf(drained') + queue'
    ensures var later := drained'[|drained|..];
            && CommittedOf(drained') == CommittedOf(drained) + CommittedOf(later)
            && AllOf(later) + queue' == queue + enqueued'[|enqueued|..]
  {
    var all, later, more := AllOf(drained), drained'[|drained|..], enqueued'[|enqueued|..];
    assert drained' == drained + later;
    assert enqueued' == enqueued'[..|enqueued|] + more == enqueued + more;
    AllOfSplits(drained, later);
    CommittedSplits(drained, later);
    SameRest(all, AllOf(later), queue', queue, more);
  }

  lemma SameRest(front: seq<Trade>, a: seq<Trade>, b: seq<Trade>, c: seq<Trade>, d: seq<Trade>)
    requires (front + a) + b == (front + c) + d
    ensures a + b == c + d
  {
    var all := (front + a) + b;
    assert all == front + (a + b) && all == front + (c + d);
    assert all[|front|..] == a + b && all[|front|..] == c + d;
  }

  ghost predicate NotAfter(a: Option<int>, b: Option<int>) {
    a.Some? ==> b.Some? && a.value <= b.value
  }

  lemma StepNeverGoesBack(maxRows: nat, s: State, step: Step, i: nat)
    requires i < |s.sessions|
    ensures var s' := Next(maxRows, s, step);
            && i < |s'.sessions|
            && NotAfter(s.sessions[i].lastMessageAt, s'.sessions[i].lastMessageAt)
            && NotAfter(s.sessions[i].lastTradeAt, s'.sessions[i].lastTradeAt)
            && s.sessions[i].rowsWritten <= s'.sessions[i].rowsWritten
  {
    match step
    case Commit(ok) =>
      if ok && s.phase.Counted? { assert |CommitBatch(s).sessions| == |s.sessions|; }
    case Start => assert |StartSession(s).sessions| == |s.sessions| + 1;
    case _ => assert Next(maxRows, s, step).sessions == s.sessions;
  }

  /** The timestamps and the row count of a session row never go back, even
      when the clock does. */
  lemma {:induction false} SessionNeverGoesBack(maxRows: nat, s: State, steps: seq<Step>, i: nat)
    requires i < |s.sessions|
    ensures var s' := Run(maxRows, s, steps);
            && i < |s'.sessions|
            && NotAfter(s.sessions[i].lastMessageAt, s'.sessions[i].lastMessageAt)
            && NotAfter(s.sessions[i].lastTradeAt, s'.sessions[i].lastTradeAt)
            && s.sessions[i].rowsWritten <= s'.sessions[i].rowsWritten
  {
    if steps != [] {
      SessionNeverGoesBack(maxRows, s, steps[..|steps| - 1], i);
      StepNeverGoesBack(maxRows, Run(maxRows, s, steps[..|steps| - 1]), steps[|steps| - 1], i);
    }
  }
}
