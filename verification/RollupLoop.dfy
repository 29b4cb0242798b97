/** The rollup's tables and its loop, run after run, proved to leave what
    Rollup.After says. */
module RollupLoop {
  import opened Trades
  import opened Candles
  import opened Rollup

  class Store {
    var candles: Table
    var runs: seq<RunRow>

    constructor ()
      ensures candles == map[] && runs == []
    {
      candles, runs := map[], [];
    }

    function View(): Warehouse
      reads this
    {
      Warehouse(candles, runs)
    }

    method StartRun(windowStart: int, windowEnd: int) returns (id: nat)
      modifies this`runs
      ensures id == |old(runs)| && runs == old(runs) + [RunRow(windowStart, windowEnd, 0, 0, Running)]
    {
      id := |runs|;
      runs := runs + [RunRow(windowStart, windowEnd, 0, 0, Running)];
    }

    method FinishRun(id: nat, status: Status, tradesRead: nat, minutesWritten: nat)
      requires id < |runs|
      modifies this`runs
      ensures runs == old(runs)[id :=
                old(runs)[id].(tradesRead := tradesRead, minutesWritten := minutesWritten, status := status)]
    {
      runs := runs[id := runs[id].(tradesRead := tradesRead, minutesWritten := minutesWritten, status := status)];
    }

    /** One upsert per candle, in order. Returns rows written. */
    method UpsertCandles(cs: seq<Candle>) returns (written: nat)
      modifies this`candles
      ensures candles == Upsert(old(candles), cs) && written == |cs|
    {
      for n := 0 to |cs|
        invariant candles == Upsert(old(candles), cs[..n])
      {
        assert cs[..n + 1][..n] == cs[..n];
        candles := candles[CandleKey(cs[n]) := cs[n]];
      }
      assert cs[..|cs|] == cs;
      written := |cs|;
    }

    /** run_once; None when an exception leaves it. */
    method RunOnce(config: Config, a: Attempt) returns (written: Option<nat>)
      modifies this
      ensures View() == Attempted(config, old(View()), a)
      ensures written == match a.outcome
                         case NotStarted => None
                         case RolledBack(logged) => if logged then Some(0) else None
                         case Done(logged) => if logged then Some(|BuildCandles(ReadBy(config, a))|) else None
    {
      if a.outcome.NotStarted? {
        assert runs + [] == runs;
        return None;
      }
      var windowStart := WindowStart(config, a);
      var id := StartRun(windowStart, a.now);
      if a.outcome.RolledBack? {
        if !a.outcome.logged { return None; }
        FinishRun(id, Failed, 0, 0);
        return Some(0);
      }
      var trades := ReadRecent(a.snapshot, windowStart, config.maxRows);
      var count := UpsertCandles(BuildCandles(trades));
      if !a.outcome.logged { return None; }
      FinishRun(id, Ok, |trades|, count);
      written := Some(count);
    }

    /** main's loop: an exception out of run_once does not stop it. */
    method Loop(config: Config, attempts: seq<Attempt>)
      modifies this
      ensures View() == After(config, old(View()), attempts)
    {
      for n := 0 to |attempts|
        invariant View() == After(config, old(View()), attempts[..n])
      {
        assert attempts[..n + 1][..n] == attempts[..n];
        var written := RunOnce(config, attempts[n]);
      }
      assert attempts[..|attempts|] == attempts;
    }
  }
}
