/** The dashboard's live board: read from the Redis hashes, and the SQL query it
    stands in for. */
module Board {
  import opened Trades
  import opened Sorting
  import opened LivePrices
  import opened StreamMachine
  import opened CacheSafety
  import opened CacheTheorems

  datatype BoardRow = BoardRow(symbol: string, ts: int, price: real, volume: Option<real>,
                               dayOpen: Option<real>, dayHigh: Option<real>, dayLow: Option<real>,
                               tradesToday: Option<nat>)

  // --- read_live_board -----------------------------------------------------

  function RowOf(symbol: string, h: Hash, today: int): BoardRow {
    var st := h.stats;
    if st.day == today then
      BoardRow(symbol, h.tradeTs, h.price, h.volume, Some(st.open), Some(st.high), Some(st.low), Some(st.count))
    else
      BoardRow(symbol, h.tradeTs, h.price, h.volume, None, None, None, None)
  }

  predicate SymbolOrder(a: BoardRow, b: BoardRow) { !Below(b.symbol, a.symbol) }

  function RowsOf(redis: map<string, Hash>, today: int, symbols: seq<string>): (rows: seq<BoardRow>)
    requires forall x :: x in symbols ==> x in redis
    ensures |rows| == |symbols|
    ensures forall i :: 0 <= i < |rows| ==> rows[i] == RowOf(symbols[i], redis[symbols[i]], today)
  {
    if symbols == [] then []
    else [RowOf(symbols[0], redis[symbols[0]], today)] + RowsOf(redis, today, symbols[1..])
  }

  /** None, and so the SQL query instead, when Redis is down or any hash is missing. */
  function ReadLiveBoard(reachable: bool, redis: map<string, Hash>, today: int, symbols: seq<string>)
    : (r: Option<seq<BoardRow>>)
    ensures r.Some? <==> reachable && forall x :: x in symbols ==> x in redis
  {
    if !reachable || exists x | x in symbols :: x !in redis then None
    else Some(Sort(SymbolOrder, RowsOf(redis, today, symbols)))
  }

  // --- LATEST_SQL ----------------------------------------------------------

  // `latest` in the query: Postgres is free among rows of equal time.
  ghost predicate ShowsNewest(row: BoardRow, rows: seq<Trade>) {
    exists t :: IsLatest(t, rows) && row.ts == t.ts && row.price == t.price && row.volume == t.volume
  }

  // `opens` and `stats`, outer-joined: NULL when the symbol has no trade today.
  ghost predicate ShowsDay(row: BoardRow, todays: seq<Trade>) {
    if todays == [] then
      row.dayOpen.None? && row.dayHigh.None? && row.dayLow.None? && row.tradesToday.None?
    else
      && row.dayOpen.Some? && IsOpen(row.dayOpen.value, todays)
      && row.dayHigh.Some? && IsHigh(row.dayHigh.value, todays)
      && row.dayLow.Some? && IsLow(row.dayLow.value, todays)
      && row.tradesToday == Some(|todays|)
  }

  ghost predicate IsSqlRow(row: BoardRow, raw: seq<Trade>, today: int) {
    && ShowsNewest(row, Select(Of(row.symbol), raw))
    && ShowsDay(row, Select(Since(today * DAY), Select(Of(row.symbol), raw)))
  }

  // In the order of their symbols, one row for each.
  ghost predicate IsSqlBoard(rows: seq<BoardRow>, raw: seq<Trade>, today: int) {
    && (forall i, j :: 0 <= i < j < |rows| ==> Below(rows[i].symbol, rows[j].symbol))
    && (forall row :: row in rows ==> row.symbol in Symbols(raw) && IsSqlRow(row, raw, today))
    && (forall x :: x in Symbols(raw) ==> exists row :: row in rows && row.symbol == x)
  }

  lemma BoardIsStrict(rows: seq<BoardRow>, raw: seq<Trade>, today: int)
    requires IsSqlBoard(rows, raw, today)
    ensures StrictlySorted(SymbolOrder, rows)
  {
    forall i, j | 0 <= i < j < |rows| ensures SymbolOrder(rows[i], rows[j]) && !SymbolOrder(rows[j], rows[i]) {
      BelowTotal(rows[i].symbol, rows[j].symbol);
    }
  }

  // --- The board is an answer of the query ----------------------------------

  // Today's rows of a symbol, as the query and as the hash's day select them.
  lemma TodaysRows(x: string, raw: seq<Trade>, today: int)
    requires forall t :: t in raw ==> DateOf(t.ts) <= today
    ensures Select(Since(today * DAY), Select(Of(x), raw)) == Select(OnDay(x, today), raw)
  {
    SelectTwice(Of(x), OnDay(x, today), raw);
    SelectSame(Since(today * DAY), OnDay(x, today), Select(Of(x), raw));
  }

  lemma NoRowToday(h: Hash, rows: seq<Trade>, today: int)
    requires ShowsLatest(h, rows) && h.stats.day < today
    ensures Select(Since(today * DAY), rows) == []
  {
    SelectNone(Since(today * DAY), rows);
  }

  lemma RowIsSqlRow(x: string, h: Hash, raw: seq<Trade>, today: int)
    requires ShowsLatest(h, Select(Of(x), raw))
    requires Summarises(h.stats, DayRows(raw, x, h)) && IsOpen(h.stats.open, DayRows(raw, x, h))
    requires h.stats.day <= today && forall t :: t in raw ==> DateOf(t.ts) <= today
    ensures IsSqlRow(RowOf(x, h, today), raw, today)
  {
    if h.stats.day == today {
      TodaysRows(x, raw, today);
    } else {
      NoRowToday(h, Select(Of(x), raw), today);
    }
  }

  lemma ShownDay(h: Hash, x: string, raw: seq<Trade>, today: int)
    requires ShowsLatest(h, Select(Of(x), raw)) && forall t :: t in raw ==> DateOf(t.ts) <= today
    ensures h.stats.day <= today
  {}

  lemma SymbolOrderTotal()
    ensures TotalPreorder(SymbolOrder)
  {
    forall a, b ensures SymbolOrder(a, b) || SymbolOrder(b, a) { BelowTotal(a.symbol, b.symbol); }
    forall a, b, c | SymbolOrder(a, b) && SymbolOrder(b, c) ensures SymbolOrder(a, c) {
      if Below(c.symbol, a.symbol) {
        BelowTotal(a.symbol, b.symbol);
        BelowTotal(b.symbol, c.symbol);
        if Below(a.symbol, b.symbol) { BelowTransitive(c.symbol, a.symbol, b.symbol); }
      }
    }
  }

  lemma BoardOfSqlRows(redis: map<string, Hash>, raw: seq<Trade>, today: int, symbols: seq<string>)
    requires forall x :: x in symbols ==> x in redis && IsSqlRow(RowOf(x, redis[x], today), raw, today)
    requires forall x :: x in symbols <==> x in Symbols(raw)
    requires forall i, j :: 0 <= i < j < |symbols| ==> symbols[i] != symbols[j]
    ensures IsSqlBoard(Sort(SymbolOrder, RowsOf(redis, today, symbols)), raw, today)
  {
    var rows := RowsOf(redis, today, symbols);
    SortedBySymbol(redis, today, symbols);
    forall row | row in rows ensures row.symbol in Symbols(raw) && IsSqlRow(row, raw, today) {
      var i :| 0 <= i < |rows| && rows[i] == row;
      assert symbols[i] in symbols;
    }
    forall x | x in Symbols(raw) ensures exists row :: row in rows && row.symbol == x {
      var i :| 0 <= i < |symbols| && symbols[i] == x;
      assert rows[i] in rows && rows[i].symbol == x;
    }
    SameRows(rows, Sort(SymbolOrder, rows), raw);
  }

  lemma SameRows(rows: seq<BoardRow>, sorted: seq<BoardRow>, raw: seq<Trade>)
    requires forall row :: row in rows <==> row in sorted
    requires forall x :: x in Symbols(raw) ==> exists row :: row in rows && row.symbol == x
    ensures forall x :: x in Symbols(raw) ==> exists row :: row in sorted && row.symbol == x
  {
    forall x | x in Symbols(raw) ensures exists row :: row in sorted && row.symbol == x {
      var row :| row in rows && row.symbol == x;
      assert row in sorted;
    }
  }

  lemma SortedBySymbol(redis: map<string, Hash>, today: int, symbols: seq<string>)
    requires forall x :: x in symbols ==> x in redis
    requires forall i, j :: 0 <= i < j < |symbols| ==> symbols[i] != symbols[j]
    ensures var sorted := Sort(SymbolOrder, RowsOf(redis, today, symbols));
            forall i, j :: 0 <= i < j < |sorted| ==> Below(sorted[i].symbol, sorted[j].symbol)
  {
    var rows := RowsOf(redis, today, symbols);
    forall i, j | 0 <= i < j < |rows|
      ensures !(SymbolOrder(rows[i], rows[j]) && SymbolOrder(rows[j], rows[i]))
    {
      BelowTotal(symbols[i], symbols[j]);
    }
    SymbolOrderTotal();
    SortStrict(SymbolOrder, rows);
  }

  lemma BoardIsSqlBoard(s: State, today: int, symbols: seq<string>)
    requires CacheInv(s) && NoneMixed(s.log.trust) && s.log.ordered
    requires forall x :: x in symbols ==> x in s.redis && HashExact(s, x) && x !in s.log.lagging
    requires forall t :: t in s.raw ==> DateOf(t.ts) <= today
    requires forall x :: x in symbols <==> x in Symbols(s.raw)
    requires forall i, j :: 0 <= i < j < |symbols| ==> symbols[i] != symbols[j]
    ensures ReadLiveBoard(true, s.redis, today, symbols).Some?
    ensures IsSqlBoard(ReadLiveBoard(true, s.redis, today, symbols).value, s.raw, today)
  {
    forall x | x in symbols ensures IsSqlRow(RowOf(x, s.redis[x], today), s.raw, today) {
      TrustIsTruth(s, x);
      ShownDay(s.redis[x], x, s.raw, today);
      RowIsSqlRow(x, s.redis[x], s.raw, today);
    }
    BoardOfSqlRows(s.redis, s.raw, today, symbols);
  }

  // --- The answer is unique when times are distinct --------------------------

  lemma NewestIsUnique(a: BoardRow, b: BoardRow, rows: seq<Trade>)
    requires forall t, u :: t in rows && u in rows && t.ts == u.ts ==> t == u
    requires ShowsNewest(a, rows) && ShowsNewest(b, rows)
    ensures a.ts == b.ts && a.price == b.price && a.volume == b.volume
  {}

  lemma DayIsUnique(a: BoardRow, b: BoardRow, rows: seq<Trade>)
    requires forall t, u :: t in rows && u in rows && t.ts == u.ts ==> t == u
    requires ShowsDay(a, rows) && ShowsDay(b, rows)
    ensures a.dayOpen == b.dayOpen && a.dayHigh == b.dayHigh && a.dayLow == b.dayLow && a.tradesToday == b.tradesToday
  {
    if rows != [] {
      var t :| IsEarliest(t, rows) && t.price == a.dayOpen.value;
      var u :| IsEarliest(u, rows) && u.price == b.dayOpen.value;
      assert t == u;
    }
  }

  lemma SqlRowIsUnique(a: BoardRow, b: BoardRow, raw: seq<Trade>, today: int)
    requires DistinctTimes(raw) && a.symbol == b.symbol && IsSqlRow(a, raw, today) && IsSqlRow(b, raw, today)
    ensures a == b
  {
    var all := Select(Of(a.symbol), raw);
    NewestIsUnique(a, b, all);
    DayIsUnique(a, b, Select(Since(today * DAY), all));
  }

  lemma SqlBoardWithin(a: seq<BoardRow>, b: seq<BoardRow>, raw: seq<Trade>, today: int, row: BoardRow)
    requires DistinctTimes(raw) && IsSqlBoard(a, raw, today) && IsSqlBoard(b, raw, today) && row in a
    ensures row in b
  {
    var other :| other in b && other.symbol == row.symbol;
    SqlRowIsUnique(row, other, raw, today);
  }

  /** With distinct trade times the query has one answer, so the board is it. */
  lemma SqlBoardIsUnique(a: seq<BoardRow>, b: seq<BoardRow>, raw: seq<Trade>, today: int)
    requires DistinctTimes(raw) && IsSqlBoard(a, raw, today) && IsSqlBoard(b, raw, today)
    ensures a == b
  {
    forall row ensures row in a <==> row in b {
      if row in a { SqlBoardWithin(a, b, raw, today, row); }
      if row in b { SqlBoardWithin(b, a, raw, today, row); }
    }
    BoardIsStrict(a, raw, today);
    BoardIsStrict(b, raw, today);
    StrictUnique(SymbolOrder, a, b);
  }

  /** The Redis board refines the SQL board. After any run with single-day
      batches: when every listed hash is present, exact and up to date, batches
      were committed in time order, nothing is dated after today and the symbols
      stored are the symbols listed, the board is a result LATEST_SQL may return,
      blank day statistics included, and the only one if trade times differ. */
  lemma BoardRefinesSql(maxRows: nat, s: State, today: int, symbols: seq<string>)
    requires ReachableByDays(maxRows, s) && s.log.ordered
    requires forall x :: x in symbols ==> x in s.redis && HashExact(s, x) && x !in s.log.lagging
    requires forall t :: t in s.raw ==> DateOf(t.ts) <= today
    requires forall x :: x in symbols <==> x in Symbols(s.raw)
    requires forall i, j :: 0 <= i < j < |symbols| ==> symbols[i] != symbols[j]
    ensures ReadLiveBoard(true, s.redis, today, symbols).Some?
    ensures var board := ReadLiveBoard(true, s.redis, today, symbols).value;
            && IsSqlBoard(board, s.raw, today)
            && (DistinctTimes(s.raw) ==> forall rows :: IsSqlBoard(rows, s.raw, today) ==> rows == board)
  {
    ReachableUnmixed(maxRows, s);
    ReachableCache(maxRows, s);
    BoardIsSqlBoard(s, today, symbols);
    var board := ReadLiveBoard(true, s.redis, today, symbols).value;
    forall rows | DistinctTimes(s.raw) && IsSqlBoard(rows, s.raw, today) ensures rows == board {
      SqlBoardIsUnique(rows, board, s.raw, today);
    }
  }

  // No committed batch with a trade of x failed to reach Redis.
  ghost predicate NeverLoses(maxRows: nat, steps: seq<Step>, x: string) {
    forall k :: 0 <= k < |steps| ==> !Loses(Run(maxRows, INITIAL, steps[..k]), steps[k], x)
  }

  lemma CleanRunIsExact(maxRows: nat, steps: seq<Step>, x: string)
    requires OneDayBatches(maxRows, INITIAL, steps) && NeverLoses(maxRows, steps, x)
    ensures var s := Run(maxRows, INITIAL, steps);
            x in s.redis && !OnItsWay(s, x) ==> HashExact(s, x) && x !in s.log.lagging
  {
    StartsTrusted(x);
    ExactUntilLost(maxRows, INITIAL, steps, x);
  }

  lemma StartsTrusted(x: string)
    ensures CacheInv(INITIAL) && Trusted(INITIAL, x)
  {}

  /** In terms of the run alone: as long as every batch committed so far lay within
      a day, came in time order, and reached Redis or is not the listed symbols',
      the board read between flushes is one LATEST_SQL may return, whatever else
      failed, restarted or was evicted, provided the listed hashes are there. */
  lemma BoardAfterRun(maxRows: nat, steps: seq<Step>, today: int, symbols: seq<string>)
    requires OneDayBatches(maxRows, INITIAL, steps) && InTimeOrder(maxRows, INITIAL, steps)
    requires forall x :: x in symbols ==> NeverLoses(maxRows, steps, x)
    requires var s := Run(maxRows, INITIAL, steps);
             && (forall x :: x in symbols ==> x in s.redis && !OnItsWay(s, x))
             && (forall t :: t in s.raw ==> DateOf(t.ts) <= today)
             && (forall x :: x in symbols <==> x in Symbols(s.raw))
    requires forall i, j :: 0 <= i < j < |symbols| ==> symbols[i] != symbols[j]
    ensures var s := Run(maxRows, INITIAL, steps);
            && ReadLiveBoard(true, s.redis, today, symbols).Some?
            && var board := ReadLiveBoard(true, s.redis, today, symbols).value;
               && IsSqlBoard(board, s.raw, today)
               && (DistinctTimes(s.raw) ==> forall rows :: IsSqlBoard(rows, s.raw, today) ==> rows == board)
  {
    var s := Run(maxRows, INITIAL, steps);
    forall x | x in symbols ensures HashExact(s, x) && x !in s.log.lagging {
      CleanRunIsExact(maxRows, steps, x);
    }
    OrderedIff(maxRows, INITIAL, steps);
    assert ReachableByDays(maxRows, s);
    BoardRefinesSql(maxRows, s, today, symbols);
  }
}
