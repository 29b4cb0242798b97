/** The socket thread over a whole session: which trades it puts on the queue, and
    what the events it reports add up to, in the process and in the session row. */
module SocketThread {
  import opened Trades
  import opened StreamMachine

  // --- Every trade received is enqueued once, in order -----------------------

  // The trades of the messages taken up along a run, in order. Only "trade"
  // messages carry any, and the thread takes one up once it is done with the last.
  function Received(maxRows: nat, s: State, steps: seq<Step>): seq<Trade> {
    if steps == [] then []
    else
      var front, step := steps[..|steps| - 1], steps[|steps| - 1];
      Received(maxRows, s, front) + ReceivedBy(Run(maxRows, s, front), step)
  }

  function ReceivedBy(s: State, step: Step): seq<Trade> {
    if step.Receive? && step.kind == "trade" && s.inflight.None? then step.trades else []
  }

  // Of the message the thread is at, what is not on the queue yet.
  function Unput(s: State): seq<Trade> { if s.inflight.Some? then s.inflight.value.unput else [] }

  lemma Regroup(a: seq<Trade>, b: seq<Trade>, c: seq<Trade>)
    ensures (a + b) + c == a + (b + c)
  {}

  lemma PutMoves(s: State)
    ensures PutOne(s).log.enqueued + Unput(PutOne(s)) == s.log.enqueued + Unput(s)
  {
    if s.inflight.Some? && s.inflight.value.unput != [] {
      var unput := s.inflight.value.unput;
      assert unput == [unput[0]] + unput[1..];
      Regroup(s.log.enqueued, [unput[0]], unput[1..]);
    }
  }

  lemma FlushLeavesSocket(maxRows: nat, s: State, step: Step)
    requires !FromOutside(step) && step != Start
    ensures var s' := Next(maxRows, s, step);
            s'.inflight == s.inflight && s'.events == s.events && s'.log.enqueued == s.log.enqueued
  {
    match step
    case Load(ok) => if s.phase.Drained? { LoadLeavesSocket(s, ok); }
    case Save(result) => if s.phase.Committed? { SaveLeavesSocket(s, result); }
    case _ =>
  }

  lemma LoadLeavesSocket(s: State, ok: bool)
    requires s.phase.Drained?
    ensures var l := LoadPrices(s, ok);
            l.inflight == s.inflight && l.events == s.events && l.log.enqueued == s.log.enqueued
  {}

  lemma SaveLeavesSocket(s: State, result: SaveResult)
    requires s.phase.Committed?
    ensures var u := SavePrices(s, result);
            u.inflight == s.inflight && u.events == s.events && u.log.enqueued == s.log.enqueued
  {}

  lemma StepReceives(maxRows: nat, s: State, step: Step)
    requires step != Start
    ensures var s' := Next(maxRows, s, step);
            s'.log.enqueued + Unput(s') == s.log.enqueued + Unput(s) + ReceivedBy(s, step)
  {
    if !FromOutside(step) {
      FlushLeavesSocket(maxRows, s, step);
    } else if step.Put? {
      PutMoves(s);
    }
  }

  /** Within a session, what was put on the queue and what is left of the message in
      progress are together exactly the trades received, in order. */
  lemma {:induction false} RunReceives(maxRows: nat, s: State, steps: seq<Step>)
    requires Start !in steps
    ensures var s' := Run(maxRows, s, steps);
            s'.log.enqueued + Unput(s') == s.log.enqueued + Unput(s) + Received(maxRows, s, steps)
  {
    if steps != [] {
      var front, step := steps[..|steps| - 1], steps[|steps| - 1];
      RunReceives(maxRows, s, front);
      StepReceives(maxRows, Run(maxRows, s, front), step);
      Regroup(s.log.enqueued + Unput(s), Received(maxRows, s, front), ReceivedBy(Run(maxRows, s, front), step));
    }
  }

  // A message with its trades, undisturbed.
  function MessageSteps(kind: string, trades: seq<Trade>, now: int): seq<Step> {
    [Receive(kind, trades)] + Puts(|trades|) + [Count(now)]
  }

  function Puts(n: nat): seq<Step> { if n == 0 then [] else Puts(n - 1) + [Put] }

  // The machine with n trades of the message on the queue.
  function AfterPuts(s: State, kind: string, trades: seq<Trade>, n: nat): State
    requires n <= |trades|
  {
    s.(inflight := Some(Message(kind, trades[n..], n)), queue := s.queue + trades[..n],
       log := s.log.(enqueued := s.log.enqueued + trades[..n]))
  }

  lemma OnePutMore(s: State, kind: string, trades: seq<Trade>, n: nat)
    requires n < |trades|
    ensures PutOne(AfterPuts(s, kind, trades, n)) == AfterPuts(s, kind, trades, n + 1)
  {
    assert trades[..n + 1] == trades[..n] + [trades[n]] && trades[n..][1..] == trades[n + 1..];
    Regroup(s.queue, trades[..n], [trades[n]]);
    Regroup(s.log.enqueued, trades[..n], [trades[n]]);
  }

  function PutMany(s: State, n: nat): State { if n == 0 then s else PutOne(PutMany(s, n - 1)) }

  lemma {:induction false} PutsArePutMany(maxRows: nat, s: State, n: nat)
    ensures Run(maxRows, s, Puts(n)) == PutMany(s, n)
  {
    if n > 0 {
      PutsArePutMany(maxRows, s, n - 1);
      OneMore(maxRows, s, Puts(n - 1), Put);
    }
  }

  lemma {:induction false} PutsMove(s: State, kind: string, trades: seq<Trade>, n: nat)
    requires n <= |trades|
    ensures PutMany(AfterPuts(s, kind, trades, 0), n) == AfterPuts(s, kind, trades, n)
  {
    if n > 0 {
      PutsMove(s, kind, trades, n - 1);
      OnePutMore(s, kind, trades, n - 1);
    }
  }

  /** _on_message with nobody in between is these steps of the machine. */
  lemma MessageIsSteps(maxRows: nat, s: State, kind: string, trades: seq<Trade>, now: int)
    requires s.inflight.None? && (kind == TRADE || trades == [])
    ensures Run(maxRows, s, MessageSteps(kind, trades, now)) ==
            s.(queue := s.queue + trades, events := s.events.Record(kind, Number(|trades|), now),
               log := s.log.(enqueued := s.log.enqueued + trades))
  {
    var n := |trades|;
    var taken := Next(maxRows, s, Receive(kind, trades));
    OneMore(maxRows, s, [], Receive(kind, trades));
    assert [] + [Receive(kind, trades)] == [Receive(kind, trades)];
    RunAppend(maxRows, s, [Receive(kind, trades)], Puts(n));
    assert trades[..0] == [] && trades[0..] == trades[..n] == trades && trades[n..] == [];
    assert s.queue + [] == s.queue && s.log.enqueued + [] == s.log.enqueued;
    assert taken == AfterPuts(s, kind, trades, 0);
    PutsArePutMany(maxRows, taken, n);
    PutsMove(s, kind, trades, n);
    OneMore(maxRows, s, [Receive(kind, trades)] + Puts(n), Count(now));
  }

  // --- What the events add up to ---------------------------------------------

  // A call of the on_event callback.
  datatype Event = Event(kind: string, detail: Detail, now: int)
  {
    predicate HasTrades() { kind == "trade" && detail.Number? && detail.n > 0 }
  }

  // The calls made along a run, in order.
  function EventsOf(maxRows: nat, s: State, steps: seq<Step>): seq<Event> {
    if steps == [] then []
    else
      var front, step := steps[..|steps| - 1], steps[|steps| - 1];
      EventsOf(maxRows, s, front) + EventOf(Run(maxRows, s, front), step)
  }

  function EventOf(s: State, step: Step): seq<Event> {
    match step
    case Count(now) =>
      if s.inflight.Some? && s.inflight.value.unput == [] then
        [Event(s.inflight.value.kind, Number(s.inflight.value.put), now)]
      else []
    case Callback(kind, detail, now) =>
      if s.inflight.None? && kind != "trade" then [Event(kind, detail, now)] else []
    case _ => []
  }

  function Recorded(calls: seq<Event>): Events {
    if calls == [] then QUIET
    else
      var last := calls[|calls| - 1];
      Recorded(calls[..|calls| - 1]).Record(last.kind, last.detail, last.now)
  }

  lemma RecordedMore(calls: seq<Event>, more: seq<Event>)
    requires |more| <= 1
    ensures Recorded(calls + more) ==
            if more == [] then Recorded(calls) else Recorded(calls).Record(more[0].kind, more[0].detail, more[0].now)
  {
    if more == [] {
      assert calls + more == calls;
    } else {
      assert (calls + more)[..|calls|] == calls;
    }
  }

  lemma StepRecords(maxRows: nat, s: State, step: Step)
    requires step != Start
    ensures var call := EventOf(s, step);
            Next(maxRows, s, step).events ==
            if call == [] then s.events else s.events.Record(call[0].kind, call[0].detail, call[0].now)
  {
    if !FromOutside(step) { FlushLeavesSocket(maxRows, s, step); }
  }

  lemma {:induction false} RunRecords(maxRows: nat, s: State, steps: seq<Step>)
    requires s.events == QUIET && Start !in steps
    ensures Run(maxRows, s, steps).events == Recorded(EventsOf(maxRows, s, steps))
  {
    if steps != [] {
      var front, step := steps[..|steps| - 1], steps[|steps| - 1];
      RunRecords(maxRows, s, front);
      StepRecords(maxRows, Run(maxRows, s, front), step);
      RecordedMore(EventsOf(maxRows, s, front), EventOf(Run(maxRows, s, front), step));
    }
  }

  // The i-th call is the last of its kind.
  ghost predicate LastOfKind(calls: seq<Event>, i: nat, kind: string) {
    i < |calls| && calls[i].kind == kind && forall j :: i < j < |calls| ==> calls[j].kind != kind
  }

  ghost predicate LastWithTrades(calls: seq<Event>, i: nat) {
    i < |calls| && calls[i].HasTrades() && forall j :: i < j < |calls| ==> !calls[j].HasTrades()
  }

  function TradesIn(calls: seq<Event>): nat {
    if calls == [] then 0
    else
      var last := calls[|calls| - 1];
      TradesIn(calls[..|calls| - 1]) + if last.HasTrades() then last.detail.n else 0
  }

  // What the fields of SocketEvents say of the calls.
  ghost predicate Tells(e: Events, calls: seq<Event>) {
    && (e.closed <==> exists c :: c in calls && c.kind == "closed")
    && (match e.error
        case None => forall c :: c in calls ==> c.kind != "failed"
        case Some(detail) => exists i: nat :: LastOfKind(calls, i, "failed") && calls[i].detail == detail)
    && e.lastMessageAt == (if calls == [] then None else Some(calls[|calls| - 1].now))
    && (match e.lastTradeAt
        case None => forall c :: c in calls ==> !c.HasTrades()
        case Some(at) => exists i: nat :: LastWithTrades(calls, i) && calls[i].now == at)
    && e.tradesSeen == TradesIn(calls)
  }

  lemma ClosedTells(e: Events, calls: seq<Event>, c: Event)
    requires e.closed <==> exists d :: d in calls && d.kind == "closed"
    ensures e.Record(c.kind, c.detail, c.now).closed <==> exists d :: d in calls + [c] && d.kind == "closed"
  {
    var e' := e.Record(c.kind, c.detail, c.now);
    assert "closed"[0] != "failed"[0] && "closed"[0] != "trade"[0];
    if e.closed {
      var d :| d in calls && d.kind == "closed";
      assert d in calls + [c];
    } else if c.kind == "closed" {
      assert c in calls + [c];
    }
  }

  lemma ErrorTells(e: Events, calls: seq<Event>, c: Event)
    requires Tells(e, calls)
    ensures var error := e.Record(c.kind, c.detail, c.now).error;
            match error
            case None => forall d :: d in calls + [c] ==> d.kind != "failed"
            case Some(detail) =>
              exists i: nat :: LastOfKind(calls + [c], i, "failed") && (calls + [c])[i].detail == detail
  {
    assert "failed"[0] != "trade"[0];
    if c.kind == "failed" {
      assert LastOfKind(calls + [c], |calls|, "failed");
    } else if e.error.Some? {
      var i: nat :| LastOfKind(calls, i, "failed") && calls[i].detail == e.error.value;
      assert LastOfKind(calls + [c], i, "failed");
    }
  }

  lemma TradeTimeTells(e: Events, calls: seq<Event>, c: Event)
    requires Tells(e, calls)
    ensures match e.Record(c.kind, c.detail, c.now).lastTradeAt
            case None => forall d :: d in calls + [c] ==> !d.HasTrades()
            case Some(at) => exists i: nat :: LastWithTrades(calls + [c], i) && (calls + [c])[i].now == at
  {
    if c.HasTrades() {
      assert LastWithTrades(calls + [c], |calls|);
    } else if e.lastTradeAt.Some? {
      var i: nat :| LastWithTrades(calls, i) && calls[i].now == e.lastTradeAt.value;
      assert LastWithTrades(calls + [c], i);
    }
  }

  lemma CountTells(e: Events, calls: seq<Event>, c: Event)
    requires e.tradesSeen == TradesIn(calls)
    ensures var e' := e.Record(c.kind, c.detail, c.now);
            e'.lastMessageAt == Some(c.now) && e'.tradesSeen == TradesIn(calls + [c])
  {
    assert (calls + [c])[..|calls|] == calls;
  }

  lemma TellsMore(e: Events, calls: seq<Event>, c: Event)
    requires Tells(e, calls)
    ensures Tells(e.Record(c.kind, c.detail, c.now), calls + [c])
  {
    ClosedTells(e, calls, c);
    ErrorTells(e, calls, c);
    TradeTimeTells(e, calls, c);
    CountTells(e, calls, c);
  }

  lemma {:induction false} RecordedTells(calls: seq<Event>)
    ensures Tells(Recorded(calls), calls)
  {
    if calls != [] {
      var front, c := calls[..|calls| - 1], calls[|calls| - 1];
      RecordedTells(front);
      TellsMore(Recorded(front), front, c);
      assert calls == front + [c];
    }
  }

  /** What a session's events say at any time: closed exactly when a "closed" event
      was reported, the error of the last "failed" one, the time of the last
      event of any kind and of the last with trades, and the trades in all. */
  lemma EventsTell(maxRows: nat, s: State, steps: seq<Step>)
    requires s.events == QUIET && Start !in steps
    ensures Tells(Run(maxRows, s, steps).events, EventsOf(maxRows, s, steps))
  {
    RunRecords(maxRows, s, steps);
    RecordedTells(EventsOf(maxRows, s, steps));
  }

  // --- How a session ends -----------------------------------------------------

  ghost predicate ClosedReported(maxRows: nat, s: State, steps: seq<Step>) {
    exists c :: c in EventsOf(maxRows, s, steps) && c.kind == "closed"
  }

  lemma {:induction false} EndedIsClosed(maxRows: nat, s: State, steps: seq<Step>)
    requires !s.phase.Ended? && !s.events.closed && Start !in steps
    ensures Run(maxRows, s, steps).phase.Ended? ==> Run(maxRows, s, steps).events.closed
  {
    if steps != [] {
      var front, step := steps[..|steps| - 1], steps[|steps| - 1];
      EndedIsClosed(maxRows, s, front);
      StepKeepsEnd(maxRows, Run(maxRows, s, front), step);
    }
  }

  lemma StepKeepsEnd(maxRows: nat, s: State, step: Step)
    requires step != Start && (s.phase.Ended? ==> s.events.closed)
    ensures Next(maxRows, s, step).phase.Ended? ==> Next(maxRows, s, step).events.closed
  {
    if FromOutside(step) {
      OutsideFrame(maxRows, s, step);
      StepRecords(maxRows, s, step);
    } else {
      FlushLeavesSocket(maxRows, s, step);
      match step
      case Load(ok) => if s.phase.Drained? { assert LoadPrices(s, ok).phase.Loaded?; }
      case Save(result) => if s.phase.Committed? { assert SavePrices(s, result).phase.Unchecked?; }
      case _ =>
    }
  }

  lemma ClosedIffReported(maxRows: nat, s: State, steps: seq<Step>)
    requires s.events == QUIET && Start !in steps
    ensures Run(maxRows, s, steps).events.closed <==> ClosedReported(maxRows, s, steps)
  {
    EventsTell(maxRows, s, steps);
  }

  /** A session ends only after a "closed" event, and at the first test of the flag
      after one. */
  lemma SessionEndsOnClosed(maxRows: nat, s: State, steps: seq<Step>)
    requires Start !in steps
    ensures var begun := Next(maxRows, s, Start);
            var s', closed := Run(maxRows, begun, steps), ClosedReported(maxRows, begun, steps);
            && (s'.phase.Ended? ==> closed)
            && (s'.phase.Tested? ==> Next(maxRows, s', TestClosed).phase == if closed then Ended else Sleeping)
  {
    var begun := Next(maxRows, s, Start);
    ClosedIffReported(maxRows, begun, steps);
    EndedIsClosed(maxRows, begun, steps);
  }

  // --- What the session row shows ---------------------------------------------

  // The greatest of these times; none if there are none.
  ghost predicate GreatestOf(r: Option<int>, times: seq<Option<int>>) {
    match r
    case None => forall t :: t in times ==> t.None?
    case Some(v) => r in times && forall t :: t in times && t.Some? ==> t.value <= v
  }

  lemma GreatestMore(r: Option<int>, times: seq<Option<int>>, t: Option<int>)
    requires GreatestOf(r, times)
    ensures GreatestOf(Greatest(r, t), times + [t])
  {}

  // The counters as each heartbeat of the run found them.
  function Beats(maxRows: nat, s: State, steps: seq<Step>): seq<Events> {
    if steps == [] then []
    else
      var front, step := steps[..|steps| - 1], steps[|steps| - 1];
      var at := Run(maxRows, s, front);
      Beats(maxRows, s, front)
      + if step == Commit(true) && at.phase.Counted? && at.sessions != [] then [at.events] else []
  }

  function MessageTimes(beats: seq<Events>): (r: seq<Option<int>>)
    ensures |r| == |beats| && forall i :: 0 <= i < |r| ==> r[i] == beats[i].lastMessageAt
  {
    seq(|beats|, i requires 0 <= i < |beats| => beats[i].lastMessageAt)
  }

  function TradeTimes(beats: seq<Events>): (r: seq<Option<int>>)
    ensures |r| == |beats| && forall i :: 0 <= i < |r| ==> r[i] == beats[i].lastTradeAt
  {
    seq(|beats|, i requires 0 <= i < |beats| => beats[i].lastTradeAt)
  }

  ghost predicate Shows(row: Session, beats: seq<Events>) {
    GreatestOf(row.lastMessageAt, MessageTimes(beats)) && GreatestOf(row.lastTradeAt, TradeTimes(beats))
  }

  lemma BeatShows(row: Session, beats: seq<Events>, trades: int, rows: int, e: Events)
    requires Shows(row, beats)
    ensures Shows(row.Beat(trades, rows, e.lastMessageAt, e.lastTradeAt), beats + [e])
  {
    GreatestMore(row.lastMessageAt, MessageTimes(beats), e.lastMessageAt);
    GreatestMore(row.lastTradeAt, TradeTimes(beats), e.lastTradeAt);
    assert MessageTimes(beats + [e]) == MessageTimes(beats) + [e.lastMessageAt];
    assert TradeTimes(beats + [e]) == TradeTimes(beats) + [e.lastTradeAt];
  }

  lemma StepSessions(maxRows: nat, s: State, step: Step)
    requires step != Start
    ensures var s', n := Next(maxRows, s, step), |s.sessions| - 1;
            if step == Commit(true) && s.phase.Counted? && s.sessions != [] then
              s'.sessions == s.sessions[n := s.sessions[n].Beat(s.phase.seen - s.reported, |s.phase.batch|,
                                                                s.events.lastMessageAt, s.events.lastTradeAt)]
            else s'.sessions == s.sessions
  {
    match step
    case Load(ok) => if s.phase.Drained? { assert LoadPrices(s, ok).sessions == s.sessions; }
    case Save(result) => if s.phase.Committed? { assert SavePrices(s, result).sessions == s.sessions; }
    case _ =>
  }

  /** The session row shows the greatest message and trade times its heartbeats
      found, and no heartbeat touches the row of an earlier session. */
  lemma {:induction false} RowShowsGreatest(maxRows: nat, s: State, steps: seq<Step>)
    requires Start !in steps
    ensures var begun := Next(maxRows, s, Start);
            var rows := Run(maxRows, begun, steps).sessions;
            && |rows| == |s.sessions| + 1 && rows[..|s.sessions|] == s.sessions
            && Shows(rows[|s.sessions|], Beats(maxRows, begun, steps))
  {
    var begun, n := Next(maxRows, s, Start), |s.sessions|;
    if steps != [] {
      var front, step := steps[..|steps| - 1], steps[|steps| - 1];
      var at := Run(maxRows, begun, front);
      RowShowsGreatest(maxRows, s, front);
      StepSessions(maxRows, at, step);
      if step == Commit(true) && at.phase.Counted? {
        BeatShows(at.sessions[n], Beats(maxRows, begun, front),
                  at.phase.seen - at.reported, |at.phase.batch|, at.events);
      } else {
        assert Beats(maxRows, begun, front) + [] == Beats(maxRows, begun, front);
      }
    }
  }
}
