/** flush_loop and run_once over the stream's objects, with the socket thread, the
    api and Redis at work between any two of their steps. What they do is a run
    of the state machine, so everything proved of its runs holds of them. */
module FlushLoop {
  import opened Trades
  import opened LivePrices
  import opened StreamMachine
  import opened Stream
  import A = Alerts

  function AllSteps(ticks: seq<Tick>): seq<Step> {
    if ticks == [] then [] else AllSteps(ticks[..|ticks| - 1]) + ticks[|ticks| - 1].Steps()
  }

  class Process {
    const socket: FinnhubSocket
    const pg: Postgres
    const redis: Redis

    constructor (socket: FinnhubSocket, pg: Postgres, redis: Redis)
      ensures this.socket == socket && this.pg == pg && this.redis == redis
    {
      this.socket, this.pg, this.redis := socket, pg, redis;
    }

    ghost predicate Mirrors(s: State)
      reads socket, socket.queue, socket.events, pg, redis
    {
      && socket.events.View() == s.events && socket.inflight == s.inflight && socket.queue.items == s.queue
      && pg.raw == s.raw && pg.sessions == s.sessions && pg.alerts == s.alerts
      && redis.hashes == s.redis
    }

    // One step of the socket thread, of Redis or of the api.
    method Move(step: Step, ghost maxRows: nat, ghost s: State)
      requires Mirrors(s) && ByOthers(step)
      modifies socket, socket.queue, socket.events, pg`alerts, redis
      ensures Mirrors(Next(maxRows, s, step))
    {
      match step
      case Receive(kind, trades) =>
        if socket.inflight.None? && (kind == TRADE || trades == []) {
          socket.inflight := Some(Message(kind, trades, 0));
        }
      case Put =>
        if socket.inflight.Some? && socket.inflight.value.unput != [] {
          var m := socket.inflight.value;
          socket.queue.Put(m.unput[0]);
          socket.inflight := Some(m.(unput := m.unput[1..], put := m.put + 1));
        }
      case Count(now) =>
        if socket.inflight.Some? && socket.inflight.value.unput == [] {
          socket.events.Record(socket.inflight.value.kind, Number(socket.inflight.value.put), now);
          socket.inflight := None;
        }
      case Callback(kind, detail, now) =>
        if socket.inflight.None? && kind != TRADE {
          socket.events.Record(kind, detail, now);
        }
      case Evict(keys) => redis.hashes := redis.hashes - keys;
      case CreateAlert(id, alert) => pg.alerts := A.Apply(pg.alerts, A.Created(id, alert));
      case DeleteAlert(id) => pg.alerts := A.Apply(pg.alerts, A.Deleted(id));
    }

    method Interleave(moves: seq<Step>, ghost maxRows: nat, ghost s: State) returns (ghost s': State)
      requires Mirrors(s) && OthersOnly(moves)
      modifies socket, socket.queue, socket.events, pg`alerts, redis
      ensures s' == Run(maxRows, s, moves) && Mirrors(s') && SameFlush(s, s')
    {
      s' := s;
      for n := 0 to |moves|
        invariant s' == Run(maxRows, s, moves[..n]) && Mirrors(s') && SameFlush(s, s')
      {
        assert moves[..n + 1][..n] == moves[..n];
        Move(moves[n], maxRows, s');
        OthersKeepFlush(maxRows, s', moves[n]);
        s' := Next(maxRows, s', moves[n]);
      }
      assert moves[..|moves|] == moves;
    }

    // --- The steps of one pass -----------------------------------------------

    method DrainStep(maxRows: nat, moves: seq<Step>, ghost s: State) returns (trades: seq<Trade>, ghost s': State)
      requires Mirrors(s) && OthersOnly(moves) && s.phase.Sleeping?
      modifies socket, socket.queue, socket.events, pg`alerts, redis
      ensures s' == Run(maxRows, s, moves + [Drain]) && Mirrors(s') && s'.phase == Drained(trades) && SameStores(s, s')
    {
      var mid := Interleave(moves, maxRows, s);
      OneMore(maxRows, s, moves, Drain);
      trades := DrainInto(socket.queue, maxRows);
      s' := Next(maxRows, mid, Drain);
    }

    method LoadStep(ghost maxRows: nat, moves: seq<Step>, ok: bool, trades: seq<Trade>,
                    needsReseed: bool, ghost s: State)
      returns (stored: Option<Stored>, ghost s': State)
      requires Mirrors(s) && OthersOnly(moves) && s.phase == Drained(trades) && s.needsReseed == needsReseed
      modifies socket, socket.queue, socket.events, pg`alerts, redis
      ensures s' == Run(maxRows, s, moves + [Load(ok)]) && Mirrors(s')
      ensures s'.phase == Loaded(trades, stored) && SameStores(s, s')
    {
      var mid := Interleave(moves, maxRows, s);
      OneMore(maxRows, s, moves, Load(ok));
      stored := LoadLivePrices(redis, pg, trades, needsReseed, ok);
      s' := Next(maxRows, mid, Load(ok));
    }

    method SeenStep(ghost maxRows: nat, moves: seq<Step>, ghost s: State) returns (seen: nat, ghost s': State)
      requires Mirrors(s) && OthersOnly(moves) && s.phase.Loaded?
      modifies socket, socket.queue, socket.events, pg`alerts, redis
      ensures s' == Run(maxRows, s, moves + [ReadSeen]) && Mirrors(s') && SameStores(s, s')
      ensures s'.phase == Counted(s.phase.batch, s.phase.stored, seen)
    {
      var mid := Interleave(moves, maxRows, s);
      OneMore(maxRows, s, moves, ReadSeen);
      seen := socket.events.tradesSeen;
      s' := Next(maxRows, mid, ReadSeen);
    }

    /** The insert and the heartbeat in one transaction. */
    method CommitStep(ghost maxRows: nat, moves: seq<Step>, ok: bool, trades: seq<Trade>,
                      seen: nat, reported: nat, ghost s: State)
      returns (reported': nat, ghost s': State)
      requires Mirrors(s) && OthersOnly(moves) && s.sessions != [] && s.reported == reported
      requires s.phase.Counted? && s.phase.batch == trades && s.phase.seen == seen
      modifies socket, socket.queue, socket.events, pg, redis
      ensures s' == Run(maxRows, s, moves + [Commit(ok)]) && Mirrors(s')
      ensures s'.phase == if ok then Committed(trades, s.phase.stored) else Unchecked(trades)
      ensures s'.reported == reported' && s'.needsReseed == s.needsReseed && s'.sessions != []
    {
      var mid := Interleave(moves, maxRows, s);
      OneMore(maxRows, s, moves, Commit(ok));
      s' := Next(maxRows, mid, Commit(ok));
      reported' := reported;
      if ok {
        var rows := pg.InsertTrades(trades);
        pg.Heartbeat(seen - reported, rows, socket.events.lastMessageAt, socket.events.lastTradeAt);
        reported' := seen;
      }
    }

    method SaveStep(ghost maxRows: nat, moves: seq<Step>, result: SaveResult, ok: bool, trades: seq<Trade>,
                    stored: Option<Stored>, needsReseed: bool, ghost s: State)
      returns (needsReseed': bool, ghost s': State)
      requires Mirrors(s) && OthersOnly(moves) && s.needsReseed == needsReseed
      requires s.phase == if ok then Committed(trades, stored) else Unchecked(trades)
      modifies socket, socket.queue, socket.events, pg`alerts, redis
      ensures s' == Run(maxRows, s, moves + [Save(result)]) && Mirrors(s') && s'.phase == Unchecked(trades)
      ensures s'.needsReseed == needsReseed' && s'.reported == s.reported && s'.sessions == s.sessions
    {
      var mid := Interleave(moves, maxRows, s);
      OneMore(maxRows, s, moves, Save(result));
      s' := Next(maxRows, mid, Save(result));
      needsReseed' := needsReseed;
      // With no trades Redis was left alone, so the flag stays as it was.
      if ok && trades != [] {
        var saved := false;
        if stored.Some? {
          saved := SaveLivePrices(redis, stored.value, trades, result);
        }
        needsReseed' := stored.None? || !saved;
      }
    }

    method AlertStep(ghost maxRows: nat, moves: seq<Step>, ok: bool, trades: seq<Trade>, ghost s: State)
      returns (ghost s': State)
      requires Mirrors(s) && OthersOnly(moves) && s.phase == Unchecked(trades)
      modifies socket, socket.queue, socket.events, pg`alerts, redis
      ensures s' == Run(maxRows, s, moves + [CheckAlerts(ok)]) && Mirrors(s') && s'.phase == Tested && SameStores(s, s')
    {
      var mid := Interleave(moves, maxRows, s);
      OneMore(maxRows, s, moves, CheckAlerts(ok));
      var fired := Stream.CheckAlerts(pg, trades, ok);
      s' := Next(maxRows, mid, CheckAlerts(ok));
    }

    method ClosedStep(ghost maxRows: nat, moves: seq<Step>, ghost s: State) returns (closed: bool, ghost s': State)
      requires Mirrors(s) && OthersOnly(moves) && s.phase == Tested
      modifies socket, socket.queue, socket.events, pg`alerts, redis
      ensures s' == Run(maxRows, s, moves + [TestClosed]) && Mirrors(s') && SameStores(s, s')
      ensures s'.phase == if closed then Ended else Sleeping
    {
      var mid := Interleave(moves, maxRows, s);
      OneMore(maxRows, s, moves, TestClosed);
      closed := socket.events.closed;
      s' := Next(maxRows, mid, TestClosed);
    }

    /** One pass of the loop. */
    method Pass(maxRows: nat, tick: Tick, needsReseed: bool, reported: nat, ghost s: State)
      returns (needsReseed': bool, reported': nat, closed: bool, ghost s': State)
      requires Mirrors(s) && tick.Valid() && s.phase.Sleeping? && s.sessions != []
      requires s.needsReseed == needsReseed && s.reported == reported
      modifies socket, socket.queue, socket.events, pg, redis
      ensures s' == Run(maxRows, s, tick.Steps()) && Mirrors(s') && s'.sessions != []
      ensures s'.needsReseed == needsReseed' && s'.reported == reported'
      ensures s'.phase == if closed then Ended else Sleeping
    {
      var trades, s1 := DrainStep(maxRows, tick.asleep, s);
      var stored, s2 := LoadStep(maxRows, tick.loading, tick.loads, trades, needsReseed, s1);
      var seen, s3 := SeenStep(maxRows, tick.counting, s2);
      ghost var s4;
      reported', s4 := CommitStep(maxRows, tick.storing, tick.commits, trades, seen, reported, s3);
      ghost var s5;
      needsReseed', s5 := SaveStep(maxRows, tick.saving, tick.result, tick.commits, trades, stored, needsReseed, s4);
      var s6 := AlertStep(maxRows, tick.checking, tick.checks, trades, s5);
      closed, s' := ClosedStep(maxRows, tick.closing, s6);
      PassRuns(maxRows, s, tick, s1, s2, s3, s4, s5, s6);
    }

    /** The loop, for as many passes as ticks are given or until the socket closed. */
    method FlushLoop(maxRows: nat, ticks: seq<Tick>, ghost s: State) returns (passes: nat, ghost s': State)
      requires Mirrors(s) && (forall t :: t in ticks ==> t.Valid()) && s.sessions != []
      requires s.phase.Sleeping? && s.needsReseed && s.reported == 0
      modifies socket, socket.queue, socket.events, pg, redis
      ensures passes <= |ticks| && s' == Run(maxRows, s, AllSteps(ticks[..passes])) && Mirrors(s')
      ensures passes < |ticks| ==> s'.phase.Ended?
    {
      var reported := 0;
      var needsReseed := true;
      var closed := false;
      passes, s' := 0, s;
      while passes < |ticks| && !closed
        invariant passes <= |ticks| && s' == Run(maxRows, s, AllSteps(ticks[..passes])) && Mirrors(s')
        invariant s'.needsReseed == needsReseed && s'.reported == reported && s'.sessions != []
        invariant s'.phase == if closed then Ended else Sleeping
      {
        OnePassMore(maxRows, s, ticks, passes);
        needsReseed, reported, closed, s' := Pass(maxRows, ticks[passes], needsReseed, reported, s');
        passes := passes + 1;
      }
    }
  }

  /** A whole session: a fresh queue and fresh counters, a new session row, and
      the loop. */
  method RunOnce(pg: Postgres, redis: Redis, maxRows: nat, ticks: seq<Tick>, ghost s: State)
    returns (process: Process, passes: nat, ghost s': State)
    requires pg.raw == s.raw && pg.sessions == s.sessions && pg.alerts == s.alerts && redis.hashes == s.redis
    requires forall t :: t in ticks ==> t.Valid()
    modifies pg, redis
    ensures process.pg == pg && process.redis == redis
    ensures passes <= |ticks| && s' == Run(maxRows, s, [Start] + AllSteps(ticks[..passes])) && process.Mirrors(s')
    ensures passes < |ticks| ==> s'.phase.Ended?
  {
    var queue := new TradeQueue();
    var events := new SocketEvents();
    var socket := new FinnhubSocket(queue, events);
    process := new Process(socket, pg, redis);
    pg.StartSession();
    ghost var s0 := Next(maxRows, s, Start);
    passes, s' := process.FlushLoop(maxRows, ticks, s0);
    OneMore(maxRows, s, [], Start);
    RunAppend(maxRows, s, [Start], AllSteps(ticks[..passes]));
  }

  // --- Bookkeeping of the ghost state ----------------------------------------

  // What only the flush thread changes.
  ghost predicate SameFlush(s: State, s': State) {
    && s'.phase == s.phase && s'.raw == s.raw
    && SameStores(s, s')
  }

  ghost predicate SameStores(s: State, s': State) {
    s'.needsReseed == s.needsReseed && s'.reported == s.reported && s'.sessions == s.sessions
  }

  lemma OthersKeepFlush(maxRows: nat, s: State, step: Step)
    requires ByOthers(step)
    ensures SameFlush(s, Next(maxRows, s, step))
  {}

  lemma OnePassMore(maxRows: nat, s: State, ticks: seq<Tick>, n: nat)
    requires n < |ticks|
    ensures Run(maxRows, s, AllSteps(ticks[..n + 1])) ==
            Run(maxRows, Run(maxRows, s, AllSteps(ticks[..n])), ticks[n].Steps())
  {
    assert ticks[..n + 1][..n] == ticks[..n];
    RunAppend(maxRows, s, AllSteps(ticks[..n]), ticks[n].Steps());
  }

  lemma PassRuns(maxRows: nat, s: State, t: Tick, s1: State, s2: State, s3: State, s4: State, s5: State, s6: State)
    requires s1 == Run(maxRows, s, t.asleep + [Drain]) && s2 == Run(maxRows, s1, t.loading + [Load(t.loads)])
    requires s3 == Run(maxRows, s2, t.counting + [ReadSeen]) && s4 == Run(maxRows, s3, t.storing + [Commit(t.commits)])
    requires s5 == Run(maxRows, s4, t.saving + [Save(t.result)])
    requires s6 == Run(maxRows, s5, t.checking + [CheckAlerts(t.checks)])
    ensures Run(maxRows, s, t.Steps()) == Run(maxRows, s6, t.closing + [TestClosed])
  {
    RunAppend(maxRows, s, t.asleep + [Drain], t.loading + [Load(t.loads)]);
    RunAppend(maxRows, s2, t.counting + [ReadSeen], t.storing + [Commit(t.commits)]);
    RunAppend(maxRows, s4, t.saving + [Save(t.result)], t.checking + [CheckAlerts(t.checks)]);
    RunAppend(maxRows, s4, (t.saving + [Save(t.result)]) + (t.checking + [CheckAlerts(t.checks)]),
              t.closing + [TestClosed]);
    RunAppend(maxRows, s, t.Reads(), t.Stores());
    RunAppend(maxRows, s, t.Reads() + t.Stores(), t.Saves());
  }
}
