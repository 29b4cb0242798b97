/** The live-price hash of one symbol, its merge with a batch of trades, and the
    SQL aggregate over a UTC day that the hash is a running form of. */
module LivePrices {
  import opened Trades

  datatype DayStats = DayStats(day: int, open: real, high: real, low: real, count: nat)

  // The fields of the Redis hash price:SYMBOL.
  datatype Hash = Hash(stats: DayStats, tradeTs: int, price: real, volume: Option<real>)

  // Per symbol what a flush starts from; None is the empty dictionary.
  type Stored = map<string, Option<DayStats>>

  // --- What day statistics mean -------------------------------------------

  ghost predicate Summarises(st: DayStats, rows: seq<Trade>) {
    st.count == |rows| && IsHigh(st.high, rows) && IsLow(st.low, rows)
  }

  // What a flush may start from for these rows: nothing, or their statistics.
  ghost predicate Seeds(known: Option<DayStats>, rows: seq<Trade>) {
    match known
    case None => rows == []
    case Some(st) => Summarises(st, rows)
  }

  // The hash shows the newest of these rows.
  ghost predicate ShowsLatest(h: Hash, rows: seq<Trade>) {
    exists t :: IsLatest(t, rows) && h.tradeTs == t.ts && h.price == t.price && h.volume == t.volume
                && h.stats.day == DateOf(t.ts)
  }

  // --- The query and the merge --------------------------------------------

  /** One symbol's row of DAY_STATS_SQL. */
  function ReadDayStats(raw: seq<Trade>, symbol: string, day: int): (r: Option<DayStats>)
    ensures r.None? <==> Select(OnDay(symbol, day), raw) == []
    ensures r.Some? ==> r.value.day == day
    ensures r.Some? ==> Summarises(r.value, Select(OnDay(symbol, day), raw))
    ensures r.Some? ==> IsOpen(r.value.open, Select(OnDay(symbol, day), raw))
  {
    var rows := Select(OnDay(symbol, day), raw);
    if rows == [] then None
    else Some(DayStats(day, Earliest(rows).price, High(rows), Low(rows), |rows|))
  }

  function Merge(known: Option<DayStats>, trades: seq<Trade>): (h: Hash)
    requires trades != []
    ensures ShowsLatest(h, trades)
  {
    var latest := Latest(trades);
    var earliest := Earliest(trades);
    var high := High(trades);
    var low := Low(trades);
    var stats :=
      if known.Some? then
        DayStats(DateOf(latest.ts), known.value.open,
                 if known.value.high > high then known.value.high else high,
                 if known.value.low < low then known.value.low else low,
                 known.value.count + |trades|)
      else
        DayStats(DateOf(latest.ts), earliest.price, high, low, |trades|);
    Hash(stats, latest.ts, latest.price, latest.volume)
  }

  function MergeAll(stored: Stored, trades: seq<Trade>): (r: map<string, Hash>)
    requires Symbols(trades) <= stored.Keys
    ensures r.Keys == Symbols(trades)
  {
    map s | s in Symbols(trades) :: Merge(stored[s], Select(Of(s), trades))
  }

  // The UTC day of the batch's newest trade, of whatever symbol.
  function BatchDay(trades: seq<Trade>): int
    requires trades != []
  {
    DateOf(Latest(trades).ts)
  }

  // --- Merging is the aggregate, computed incrementally --------------------

  lemma MergeExtends(known: Option<DayStats>, rows: seq<Trade>, batch: seq<Trade>)
    requires batch != [] && Seeds(known, rows)
    ensures Summarises(Merge(known, batch).stats, rows + batch)
    ensures rows == [] ==> IsOpen(Merge(known, batch).stats.open, rows + batch)
  {
    if rows == [] {
      assert rows + batch == batch;
      assert IsEarliest(Earliest(batch), batch);
    } else {
      var st := known.value;
      assert IsHigh(High(batch), batch) && IsLow(Low(batch), batch);
      var t :| t in rows && t.price == st.high;
      var u :| u in rows && u.price == st.low;
      var v :| v in batch && v.price == High(batch);
      var w :| w in batch && w.price == Low(batch);
      assert t in rows + batch && u in rows + batch && v in rows + batch && w in rows + batch;
    }
  }

  /** The kept open is right when the batch starts no earlier than the rows
      before it; when it starts earlier, only if its own first price happens to
      be the kept one. */
  lemma MergeOpen(st: DayStats, rows: seq<Trade>, batch: seq<Trade>)
    requires rows != [] && batch != [] && IsOpen(st.open, rows)
    ensures Earliest(rows).ts <= Earliest(batch).ts ==>
              IsOpen(Merge(Some(st), batch).stats.open, rows + batch)
    ensures Earliest(batch).ts < Earliest(rows).ts ==>
              (IsOpen(Merge(Some(st), batch).stats.open, rows + batch) <==> IsOpen(st.open, batch))
  {
    var e :| IsEarliest(e, rows) && e.price == st.open;
    if Earliest(rows).ts <= Earliest(batch).ts {
      assert IsEarliest(e, rows + batch);
    } else {
      assert Earliest(batch) in rows + batch;
      forall t ensures IsEarliest(t, rows + batch) <==> IsEarliest(t, batch) {}
    }
  }

  /** The merged hash shows the newest trade exactly when the batch holds one. */
  lemma MergeLatest(known: Option<DayStats>, rows: seq<Trade>, batch: seq<Trade>)
    requires rows != [] && batch != []
    ensures ShowsLatest(Merge(known, batch), rows + batch) <==> Latest(rows).ts <= Latest(batch).ts
  {
    if Latest(rows).ts <= Latest(batch).ts {
      assert IsLatest(Latest(batch), rows + batch);
    } else {
      assert Latest(rows) in rows + batch;
    }
  }

  /** Unlike its high and low, a merge's count is not idempotent: merging a batch
      a second time counts every trade of it again. */
  lemma MergedTwiceCountsTwice(known: Option<DayStats>, batch: seq<Trade>)
    requires batch != []
    ensures var once := Merge(known, batch);
            var twice := Merge(Some(once.stats), batch);
            twice == once.(stats := once.stats.(count := once.stats.count + |batch|)) && twice != once
  {}

  // Merging batch after batch, each onto the statistics the one before left.
  function MergeRun(known: Option<DayStats>, batches: seq<seq<Trade>>): Option<DayStats>
    requires forall i :: 0 <= i < |batches| ==> batches[i] != []
  {
    if batches == [] then known
    else Some(Merge(MergeRun(known, batches[..|batches| - 1]), batches[|batches| - 1]).stats)
  }

  /** Any number of merges, starting from the statistics of some rows, gives
      the statistics of those rows and every merged batch. */
  lemma {:induction false} MergeRunSummarises(known: Option<DayStats>, rows: seq<Trade>, batches: seq<seq<Trade>>)
    requires forall i :: 0 <= i < |batches| ==> batches[i] != []
    requires Seeds(known, rows)
    ensures Seeds(MergeRun(known, batches), rows + Flatten(batches))
  {
    if batches == [] {
      assert rows + [] == rows;
    } else {
      var front, last := batches[..|batches| - 1], batches[|batches| - 1];
      MergeRunSummarises(known, rows, front);
      assert rows + Flatten(batches) == (rows + Flatten(front)) + last;
      MergeExtends(MergeRun(known, front), rows + Flatten(front), last);
    }
  }

  // --- One flush of a batch with several symbols ---------------------------

  ghost predicate OneDay(batch: seq<Trade>)
    requires batch != []
  {
    forall t :: t in batch ==> DateOf(t.ts) == BatchDay(batch)
  }

  // Seeding from `raw`, inserting the batch and merging it leaves exact hashes.
  ghost predicate FlushExact(raw: seq<Trade>, batch: seq<Trade>)
    requires batch != []
  {
    forall s :: s in Symbols(batch) ==>
      var h := Merge(ReadDayStats(raw, s, BatchDay(batch)), Select(Of(s), batch));
      Summarises(h.stats, Select(OnDay(s, h.stats.day), raw + batch))
  }

  lemma SelectedDay(batch: seq<Trade>, s: string)
    requires batch != [] && s in Symbols(batch)
    ensures Select(Of(s), batch) != []
    ensures DateOf(Latest(Select(Of(s), batch)).ts) <= BatchDay(batch)
  {
    var t :| t in batch && t.symbol == s;
    assert t in Select(Of(s), batch);
    assert Latest(Select(Of(s), batch)) in batch;
  }

  /** load_live_prices takes one day for the whole batch. A seeded flush is
      exact whatever is stored already exactly for the batches that lie within
      one UTC day. */
  lemma FlushExactIffOneDay(batch: seq<Trade>)
    requires batch != []
    ensures (forall raw :: FlushExact(raw, batch)) <==> OneDay(batch)
  {
    if OneDay(batch) {
      forall raw ensures FlushExact(raw, batch) {
        OneDayIsExact(raw, batch);
      }
    } else {
      var t :| t in batch && DateOf(t.ts) != BatchDay(batch);
      SelectedDay(batch, t.symbol);
      var decoy := Trade(t.symbol, BatchDay(batch) * DAY, 0.0, None, "");
      var raw := if DateOf(Latest(Select(Of(t.symbol), batch)).ts) == BatchDay(batch) then [] else [decoy];
      MixedDaysMiscount(raw, batch, t);
    }
  }

  lemma OneDayIsExact(raw: seq<Trade>, batch: seq<Trade>)
    requires batch != [] && OneDay(batch)
    ensures FlushExact(raw, batch)
  {
    var day := BatchDay(batch);
    forall s | s in Symbols(batch)
      ensures var h := Merge(ReadDayStats(raw, s, day), Select(Of(s), batch));
              Summarises(h.stats, Select(OnDay(s, h.stats.day), raw + batch))
    {
      SelectedDay(batch, s);
      var mine := Select(Of(s), batch);
      SelectAppend(OnDay(s, day), raw, batch);
      SelectSame(Of(s), OnDay(s, day), batch);
      MergeExtends(ReadDayStats(raw, s, day), Select(OnDay(s, day), raw), mine);
    }
  }

  // A symbol with a trade off the batch's day is over-counted, given a table
  // that has a row of that day when the symbol's own batch trades have none.
  lemma MixedDaysMiscount(raw: seq<Trade>, batch: seq<Trade>, t: Trade)
    requires batch != [] && t in batch && DateOf(t.ts) != BatchDay(batch)
    requires Select(Of(t.symbol), batch) != []
    requires var own := DateOf(Latest(Select(Of(t.symbol), batch)).ts);
             if own == BatchDay(batch) then raw == []
             else |raw| == 1 && raw[0].symbol == t.symbol && DateOf(raw[0].ts) == BatchDay(batch)
    ensures !FlushExact(raw, batch)
  {
    var s, day := t.symbol, BatchDay(batch);
    var mine := Select(Of(s), batch);
    var own := DateOf(Latest(mine).ts);
    SelectAppend(OnDay(s, own), raw, batch);
    SelectTwice(Of(s), OnDay(s, own), batch);
    if own == day {
      assert t in mine;
      FewerSelected(OnDay(s, own), mine, t);
    } else {
      OnlyRow(OnDay(s, day), raw);
      OnlyRow(OnDay(s, own), raw);
    }
    var h := Merge(ReadDayStats(raw, s, day), mine);
    assert h.stats.count > |Select(OnDay(s, own), raw + batch)|;
    assert s in Symbols(batch);
  }

  lemma OnlyRow(w: Where, rows: seq<Trade>)
    requires |rows| <= 1
    ensures Select(w, rows) == if rows != [] && w.Matches(rows[0]) then rows else []
  {
    if rows != [] { assert rows == [rows[0]] && rows[1..] == []; }
  }
}
