/** The rollup: trailing-window runs that rebuild candles and upsert them, what
    the candle table holds after any sequence of runs, and which late trades
    a run is sure to catch in a whole minute. */
module Rollup {
  import opened Trades
  import opened Sorting
  import opened Candles

  type Table = map<Key, Candle>

  datatype Status = Running | Failed | Ok
  datatype RunRow = RunRow(windowStart: int, windowEnd: int, tradesRead: nat, minutesWritten: nat, status: Status)
  datatype Config = Config(windowMinutes: nat, maxRows: nat)
  datatype Warehouse = Warehouse(candles: Table, runs: seq<RunRow>)

  // How far one run gets: its log row is not written; its transaction fails;
  // its transaction commits. `logged` is false when finish_run fails too.
  datatype Outcome = NotStarted | RolledBack(logged: bool) | Done(logged: bool)

  // One run: when it starts, the raw_trades it reads, how far it gets.
  datatype Attempt = Attempt(now: int, snapshot: seq<Trade>, outcome: Outcome)

  function WindowStart(config: Config, a: Attempt): int { a.now - config.windowMinutes * MINUTE }

  // ORDER BY symbol, trade_ts
  predicate ReadOrder(a: Trade, b: Trade) {
    if a.symbol != b.symbol then Below(a.symbol, b.symbol) else a.ts <= b.ts
  }

  /** RECENT_TRADES_SQL, its LIMIT included. */
  function ReadRecent(raw: seq<Trade>, start: int, maxRows: nat): (r: seq<Trade>)
    ensures |r| <= maxRows
    ensures |Select(Since(start), raw)| <= maxRows ==> multiset(r) == multiset(Select(Since(start), raw))
  {
    var rows := Sort(ReadOrder, Select(Since(start), raw));
    if |rows| <= maxRows then rows else rows[..maxRows]
  }

  function ReadBy(config: Config, a: Attempt): seq<Trade> {
    ReadRecent(a.snapshot, WindowStart(config, a), config.maxRows)
  }

  // INSERT ... ON CONFLICT (symbol, minute) DO UPDATE, row after row
  function Upsert(table: Table, cs: seq<Candle>): Table {
    if cs == [] then table
    else Upsert(table, cs[..|cs| - 1])[CandleKey(cs[|cs| - 1]) := cs[|cs| - 1]]
  }

  // The candles one run commits.
  function BatchOf(config: Config, a: Attempt): seq<Candle> {
    if a.outcome.Done? then BuildCandles(ReadBy(config, a)) else []
  }

  // The candle table after the transaction of one run.
  function Rebuilt(config: Config, table: Table, a: Attempt): Table { Upsert(table, BatchOf(config, a)) }

  // The rows the run leaves in rollup_runs.
  function Logged(config: Config, a: Attempt): seq<RunRow> {
    var start := WindowStart(config, a);
    match a.outcome
    case NotStarted => []
    case RolledBack(logged) => [RunRow(start, a.now, 0, 0, if logged then Failed else Running)]
    case Done(logged) =>
      if logged then [RunRow(start, a.now, |ReadBy(config, a)|, |BuildCandles(ReadBy(config, a))|, Ok)]
      else [RunRow(start, a.now, 0, 0, Running)]
  }

  /** What one call of run_once leaves behind. */
  function Attempted(config: Config, w: Warehouse, a: Attempt): Warehouse {
    Warehouse(Rebuilt(config, w.candles, a), w.runs + Logged(config, a))
  }

  function After(config: Config, w: Warehouse, attempts: seq<Attempt>): Warehouse {
    if attempts == [] then w
    else Attempted(config, After(config, w, attempts[..|attempts| - 1]), attempts[|attempts| - 1])
  }

  // --- Upsert --------------------------------------------------------------

  lemma {:induction false} UpsertAt(table: Table, cs: seq<Candle>, k: Key)
    ensures !HasCandle(cs, k) ==> (k in Upsert(table, cs) <==> k in table)
    ensures !HasCandle(cs, k) && k in table ==> Upsert(table, cs)[k] == table[k]
    ensures HasCandle(cs, k) ==>
              k in Upsert(table, cs) && Upsert(table, cs)[k] in cs && CandleKey(Upsert(table, cs)[k]) == k
  {
    if cs != [] {
      var front, last := cs[..|cs| - 1], cs[|cs| - 1];
      UpsertAt(table, front, k);
      assert forall c :: c in cs <==> c in front || c == last;
      if CandleKey(last) != k && HasCandle(cs, k) {
        var c :| c in cs && CandleKey(c) == k;
        assert c in front;
      }
    }
  }

  // A key has at most one candle in the batch.
  ghost predicate OnePerKey(cs: seq<Candle>) {
    forall c, d :: c in cs && d in cs && CandleKey(c) == CandleKey(d) ==> c == d
  }

  /** The order of the rows of an upsert does not matter, and repeating it changes nothing. */
  lemma UpsertIgnoresOrder(table: Table, xs: seq<Candle>, ys: seq<Candle>)
    requires OnePerKey(xs) && forall c :: c in xs <==> c in ys
    ensures Upsert(table, xs) == Upsert(table, ys)
    ensures Upsert(Upsert(table, xs), ys) == Upsert(table, xs)
  {
    forall k
      ensures k in Upsert(table, xs) <==> k in Upsert(table, ys)
      ensures k in Upsert(table, xs) ==> Upsert(table, xs)[k] == Upsert(table, ys)[k]
      ensures k in Upsert(Upsert(table, xs), ys) <==> k in Upsert(table, xs)
      ensures k in Upsert(table, xs) ==> Upsert(Upsert(table, xs), ys)[k] == Upsert(table, xs)[k]
    {
      UpsertAt(table, xs, k);
      UpsertAt(table, ys, k);
      UpsertAt(Upsert(table, xs), ys, k);
      assert HasCandle(xs, k) <==> HasCandle(ys, k);
    }
  }

  lemma StrictOnePerKey(cs: seq<Candle>)
    requires StrictlySorted(OutputOrder, cs)
    ensures OnePerKey(cs)
  {
    forall c, d | c in cs && d in cs && CandleKey(c) == CandleKey(d) ensures c == d {
      var i :| 0 <= i < |cs| && cs[i] == c;
      var j :| 0 <= j < |cs| && cs[j] == d;
      assert OutputOrder(c, d) && OutputOrder(d, c);
    }
  }

  lemma BatchOnePerKey(config: Config, a: Attempt)
    ensures OnePerKey(BatchOf(config, a))
  {
    if a.outcome.Done? { CandlesStrict(ReadBy(config, a)); }
    StrictOnePerKey(BatchOf(config, a));
  }

  lemma ReadOrderTotal()
    ensures TotalPreorder(ReadOrder)
  {
    forall a, b ensures ReadOrder(a, b) || ReadOrder(b, a) { BelowTotal(a.symbol, b.symbol); }
    forall a, b, c | ReadOrder(a, b) && ReadOrder(b, c) ensures ReadOrder(a, c) {
      BelowTotal(a.symbol, b.symbol);
      if a.symbol != b.symbol && b.symbol != c.symbol { BelowTransitive(a.symbol, b.symbol, c.symbol); }
      BelowTotal(a.symbol, c.symbol);
    }
  }

  // ORDER BY settles what is read, even at the LIMIT, when no two times of a symbol are equal.
  lemma ReadIgnoresRowOrder(raw: seq<Trade>, raw': seq<Trade>, start: int, maxRows: nat)
    requires multiset(raw) == multiset(raw') && DistinctTimes(raw)
    ensures ReadRecent(raw, start, maxRows) == ReadRecent(raw', start, maxRows)
  {
    var xs, ys := Select(Since(start), raw), Select(Since(start), raw');
    SelectPermuted(Since(start), raw, raw');
    ReadOrderTotal();
    SortSorted(ReadOrder, xs);
    SortSorted(ReadOrder, ys);
    forall x, y | x in Sort(ReadOrder, xs) && y in Sort(ReadOrder, xs) && ReadOrder(x, y) && ReadOrder(y, x)
      ensures x == y
    {
      BelowTotal(x.symbol, y.symbol);
      assert x in raw && y in raw;
    }
    SortedUnique(ReadOrder, Sort(ReadOrder, xs), Sort(ReadOrder, ys));
  }

  lemma SameBatch(config: Config, a: Attempt, again: Attempt)
    requires a.outcome.Done? && again.outcome.Done? && a.now == again.now
    requires multiset(a.snapshot) == multiset(again.snapshot) && DistinctTimes(a.snapshot)
    ensures BatchOf(config, again) == BatchOf(config, a)
  {
    SameRead(config, a, again);
  }

  lemma SameRead(config: Config, a: Attempt, again: Attempt)
    requires a.now == again.now && multiset(a.snapshot) == multiset(again.snapshot) && DistinctTimes(a.snapshot)
    ensures ReadBy(config, again) == ReadBy(config, a)
  {
    ReadIgnoresRowOrder(a.snapshot, again.snapshot, WindowStart(config, a), config.maxRows);
  }

  lemma UpsertTwice(table: Table, cs: seq<Candle>)
    requires OnePerKey(cs)
    ensures Upsert(Upsert(table, cs), cs) == Upsert(table, cs)
  {
    UpsertIgnoresOrder(table, cs, cs);
  }

  /** Rolling the same trades and window up again changes no candle, whatever
      order the table lists its rows in. */
  lemma RerunChangesNoCandle(config: Config, table: Table, a: Attempt, again: Attempt)
    requires a.outcome.Done? && again.outcome.Done? && a.now == again.now
    requires multiset(a.snapshot) == multiset(again.snapshot) && DistinctTimes(a.snapshot)
    ensures Rebuilt(config, Rebuilt(config, table, a), again) == Rebuilt(config, table, a)
  {
    SameBatch(config, a, again);
    BatchOnePerKey(config, a);
    UpsertTwice(table, BatchOf(config, a));
  }

  // --- The exact contents of the table ---------------------------------------

  // The run commits and reads a trade of the key.
  predicate Sees(config: Config, a: Attempt, k: Key) {
    a.outcome.Done? && Select(Within(k), ReadBy(config, a)) != []
  }

  // From the n-th run on no run that commits reads a trade of the key.
  predicate NotSeenFrom(config: Config, attempts: seq<Attempt>, k: Key, n: nat) {
    forall j :: n <= j < |attempts| ==> !Sees(config, attempts[j], k)
  }

  ghost predicate LastSighting(config: Config, attempts: seq<Attempt>, k: Key, i: nat) {
    i < |attempts| && Sees(config, attempts[i], k) && NotSeenFrom(config, attempts, k, i + 1)
  }

  // The batch has a candle for a key exactly when a trade of it was read.
  lemma BuiltAt(trades: seq<Trade>, k: Key)
    ensures HasCandle(BuildCandles(trades), k) <==> Select(Within(k), trades) != []
  {
    var cs, mine := BuildCandles(trades), Select(Within(k), trades);
    if mine != [] {
      CandlesCover(trades);
      assert mine[0] in trades && KeyOf(mine[0]) == k;
    } else {
      BuiltOfKey(trades, k);
    }
  }

  lemma BuiltOfKey(trades: seq<Trade>, k: Key)
    ensures forall c :: c in BuildCandles(trades) && CandleKey(c) == k ==> IsCandle(c, Select(Within(k), trades))
  {
    CandlesAreOfKeys(trades);
    forall c | c in BuildCandles(trades) && CandleKey(c) == k ensures IsCandle(c, Select(Within(k), trades)) {
      assert IsCandleIn(c, trades);
    }
  }

  lemma SeenAt(config: Config, table: Table, a: Attempt, k: Key)
    requires Sees(config, a, k)
    ensures k in Rebuilt(config, table, a)
    ensures IsCandle(Rebuilt(config, table, a)[k], Select(Within(k), ReadBy(config, a)))
  {
    UpsertAt(table, BatchOf(config, a), k);
    BuiltAt(ReadBy(config, a), k);
    BuiltOfKey(ReadBy(config, a), k);
  }

  lemma UnseenAt(config: Config, table: Table, a: Attempt, k: Key)
    requires !Sees(config, a, k)
    ensures k in Rebuilt(config, table, a) <==> k in table
    ensures k in table ==> Rebuilt(config, table, a)[k] == table[k]
  {
    UpsertAt(table, BatchOf(config, a), k);
    if a.outcome.Done? { BuiltAt(ReadBy(config, a), k); }
  }

  function TableAfter(config: Config, w: Warehouse, attempts: seq<Attempt>): Table {
    After(config, w, attempts).candles
  }

  lemma LastRebuilds(config: Config, w: Warehouse, attempts: seq<Attempt>)
    requires attempts != []
    ensures TableAfter(config, w, attempts) ==
            Rebuilt(config, TableAfter(config, w, attempts[..|attempts| - 1]), attempts[|attempts| - 1])
  {}

  lemma {:induction false} StaysFrom(config: Config, w: Warehouse, attempts: seq<Attempt>, k: Key, n: nat)
    requires n <= |attempts| && NotSeenFrom(config, attempts, k, n)
    ensures k in TableAfter(config, w, attempts) <==> k in TableAfter(config, w, attempts[..n])
    ensures k in TableAfter(config, w, attempts) ==>
              TableAfter(config, w, attempts)[k] == TableAfter(config, w, attempts[..n])[k]
  {
    if n == |attempts| {
      assert attempts[..n] == attempts;
    } else {
      var m := |attempts| - 1;
      assert attempts[..m][..n] == attempts[..n];
      assert NotSeenFrom(config, attempts[..m], k, n);
      StaysFrom(config, w, attempts[..m], k, n);
      LastRebuilds(config, w, attempts);
      UnseenAt(config, TableAfter(config, w, attempts[..m]), attempts[m], k);
    }
  }

  /** The table after any runs, failed ones included: a key holds the candle of
      its trades as read by the last committed run that read any of them, */
  lemma LastSightingWins(config: Config, w: Warehouse, attempts: seq<Attempt>, k: Key, i: nat)
    requires LastSighting(config, attempts, k, i)
    ensures k in TableAfter(config, w, attempts)
    ensures IsCandle(TableAfter(config, w, attempts)[k], Select(Within(k), ReadBy(config, attempts[i])))
  {
    var upTo := attempts[..i + 1];
    assert upTo[..i] == attempts[..i] && upTo[i] == attempts[i];
    StaysFrom(config, w, attempts, k, i + 1);
    LastRebuilds(config, w, upTo);
    SeenAt(config, TableAfter(config, w, attempts[..i]), attempts[i], k);
  }

  /** and what it held before if none did. */
  lemma NeverSeenUnchanged(config: Config, w: Warehouse, attempts: seq<Attempt>, k: Key)
    requires NotSeenFrom(config, attempts, k, 0)
    ensures k in TableAfter(config, w, attempts) <==> k in w.candles
    ensures k in w.candles ==> TableAfter(config, w, attempts)[k] == w.candles[k]
  {
    StaysFrom(config, w, attempts, k, 0);
    assert attempts[..0] == [];
  }

  // --- What one run reads and logs ---------------------------------------------

  // Listed before: an earlier symbol, or the same one and no later a time.
  predicate ListedBefore(a: Trade, b: Trade) {
    Below(a.symbol, b.symbol) || (a.symbol == b.symbol && a.ts <= b.ts)
  }

  // `read` and `left` are the window's rows between them; only what does not fit
  // under the LIMIT is left, and nothing left is listed before anything read.
  ghost predicate CutOf(read: seq<Trade>, left: seq<Trade>, window: seq<Trade>, maxRows: nat) {
    && multiset(read) + multiset(left) == multiset(window)
    && |read| <= maxRows && (left != [] ==> |read| == maxRows)
    && (forall i, j :: 0 <= i < j < |read| ==> ListedBefore(read[i], read[j]))
    && (forall a, b :: a in read && b in left ==> ListedBefore(a, b))
  }

  lemma SplitSorted(rows: seq<Trade>, n: nat)
    requires n <= |rows| && Sorted(ReadOrder, rows)
    ensures CutOf(rows[..n], rows[n..], rows, n)
  {
    assert rows == rows[..n] + rows[n..];
    forall a, b | a in rows[..n] && b in rows[n..] ensures ListedBefore(a, b) {
      var i :| 0 <= i < n && rows[i] == a;
      var j :| n <= j < |rows| && rows[j] == b;
      assert ReadOrder(rows[i], rows[j]);
    }
  }

  /** At the LIMIT a run reads the first rows of the window by symbol and time: what
      it misses are the last symbols, and the latest trades of the one cut in two. */
  lemma LimitCutsTheLast(raw: seq<Trade>, start: int, maxRows: nat)
    ensures exists left: seq<Trade> ::
              CutOf(ReadRecent(raw, start, maxRows), left, Select(Since(start), raw), maxRows)
  {
    var window := Select(Since(start), raw);
    var rows := Sort(ReadOrder, window);
    var n := if |rows| <= maxRows then |rows| else maxRows;
    ReadOrderTotal();
    SortSorted(ReadOrder, window);
    SplitSorted(rows, n);
    assert rows[..|rows|] == rows;
    assert CutOf(ReadRecent(raw, start, maxRows), rows[n..], window, maxRows);
  }

  function KeysOf(rows: seq<Trade>): set<Key> { set t | t in rows :: KeyOf(t) }

  function CandleKeys(cs: seq<Candle>): set<Key> { set c | c in cs :: CandleKey(c) }

  lemma {:induction false} DistinctKeysCounted(cs: seq<Candle>)
    requires KeysDiffer(cs)
    ensures |CandleKeys(cs)| == |cs|
  {
    if cs != [] {
      var rest := cs[1..];
      DistinctKeysCounted(rest);
      assert CandleKeys(cs) == CandleKeys(rest) + {CandleKey(cs[0])};
      assert CandleKey(cs[0]) !in CandleKeys(rest);
    }
  }

  lemma RowOfKey(rows: seq<Trade>, k: Key)
    ensures k in KeysOf(rows) <==> Select(Within(k), rows) != []
  {
    var mine := Select(Within(k), rows);
    if mine != [] {
      assert mine[0] in rows && KeyOf(mine[0]) == k;
    }
    forall t | t in rows && KeyOf(t) == k ensures t in mine {}
  }

  lemma OneCandlePerKey(rows: seq<Trade>)
    ensures |BuildCandles(rows)| == |KeysOf(rows)|
  {
    var cs := BuildCandles(rows);
    CandlesStrict(rows);
    StrictKeysDiffer(cs);
    DistinctKeysCounted(cs);
    forall k ensures k in KeysOf(rows) <==> k in CandleKeys(cs) {
      RowOfKey(rows, k);
      BuiltAt(rows, k);
    }
    assert KeysOf(rows) == CandleKeys(cs);
  }

  lemma StrictKeysDiffer(cs: seq<Candle>)
    requires StrictlySorted(OutputOrder, cs)
    ensures KeysDiffer(cs)
  {
    forall i, j | 0 <= i < j < |cs| ensures CandleKey(cs[i]) != CandleKey(cs[j]) {
      assert OutputOrder(cs[i], cs[j]) && !OutputOrder(cs[j], cs[i]);
    }
  }

  // What the log row of a run that got as far as logging says.
  ghost predicate Tells(row: RunRow, config: Config, a: Attempt, read: seq<Trade>) {
    && row.windowEnd == a.now && row.windowStart == a.now - config.windowMinutes * 60_000_000
    && (row.status == Ok <==> a.outcome == Done(true))
    && (row.status == Failed <==> a.outcome == RolledBack(true))
    && (row.status == Ok ==> row.tradesRead == |read| && row.minutesWritten == |KeysOf(read)|)
    && (row.status != Ok ==> row.tradesRead == row.minutesWritten == 0)
  }

  lemma LoggedTells(config: Config, a: Attempt)
    requires !a.outcome.NotStarted?
    ensures |Logged(config, a)| == 1 && Tells(Logged(config, a)[0], config, a, ReadBy(config, a))
  {
    var start, read := WindowStart(config, a), ReadBy(config, a);
    OneCandlePerKey(read);
    match a.outcome
    case RolledBack(logged) =>
      assert Logged(config, a) == [RunRow(start, a.now, 0, 0, if logged then Failed else Running)];
    case Done(logged) =>
      if logged {
        assert Logged(config, a) == [RunRow(start, a.now, |read|, |BuildCandles(read)|, Ok)];
      } else {
        assert Logged(config, a) == [RunRow(start, a.now, 0, 0, Running)];
      }
  }

  /** rollup_runs tells what happened. A run leaves one row, with its window, once
      it got as far as logging; the row says Ok exactly when the run committed and
      could say so, with the trades it read and the minutes they fall in; one that
      says Failed, or no row, is of a run that changed no candle; and one left
      Running tells of no trades or minutes. */
  lemma LogTellsTheTruth(config: Config, w: Warehouse, a: Attempt)
    ensures var w' := Attempted(config, w, a);
            && w.runs <= w'.runs && |w'.runs| == |w.runs| + (if a.outcome.NotStarted? then 0 else 1)
            && (!a.outcome.NotStarted? ==>
                  && Tells(w'.runs[|w.runs|], config, a, ReadBy(config, a))
                  && (w'.runs[|w.runs|].status == Failed ==> w'.candles == w.candles))
            && (a.outcome.NotStarted? ==> w'.candles == w.candles)
  {
    if !a.outcome.NotStarted? { LoggedTells(config, a); }
    if !a.outcome.Done? { assert BatchOf(config, a) == []; }
  }

  // --- Whole and partial minutes ---------------------------------------------

  // No stored trade of the minute lies before the window.
  ghost predicate WholeInWindow(raw: seq<Trade>, start: int, k: Key) {
    forall t :: t in raw && KeyOf(t) == k ==> start <= t.ts
  }

  lemma MinuteAfterStart(raw: seq<Trade>, start: int, k: Key)
    requires start <= k.minute
    ensures WholeInWindow(raw, start, k)
  {
    forall t | t in raw && KeyOf(t) == k ensures start <= t.ts { assert MinuteOf(t.ts) <= t.ts; }
  }

  // What a run whose LIMIT is not hit reads of a minute.
  lemma ReadOfMinute(config: Config, a: Attempt, k: Key, c: Candle)
    requires |Select(Since(WindowStart(config, a)), a.snapshot)| <= config.maxRows
    requires IsCandle(c, Select(Within(k), ReadBy(config, a)))
    ensures IsCandle(c, Select(Since(WindowStart(config, a)), Select(Within(k), a.snapshot)))
  {
    var start, raw := WindowStart(config, a), a.snapshot;
    SelectPermuted(Within(k), ReadBy(config, a), Select(Since(start), raw));
    IsCandlePermuted(c, Select(Within(k), ReadBy(config, a)), Select(Within(k), Select(Since(start), raw)));
    SelectSwap(Within(k), Since(start), raw);
  }

  // The snapshot holds every row of the key that the table holds.
  ghost predicate HoldsAllOf(snapshot: seq<Trade>, raw: seq<Trade>, k: Key) {
    forall t :: KeyOf(t) == k ==> multiset(raw)[t] <= multiset(snapshot)[t]
  }

  lemma PartOfRows(part: seq<Trade>, rows: seq<Trade>)
    requires multiset(part) <= multiset(rows)
    ensures |part| <= |rows| && (|part| == |rows| ==> multiset(part) == multiset(rows))
  {
    var rest := multiset(rows) - multiset(part);
    assert multiset(rows) == multiset(part) + rest;
    assert |multiset(rows)| == |rows| && |multiset(part)| == |part|;
  }

  lemma SelectedPart(w: Where, part: seq<Trade>, rows: seq<Trade>)
    requires multiset(part) <= multiset(rows)
    ensures multiset(Select(w, part)) <= multiset(Select(w, rows))
  {
    forall t ensures multiset(Select(w, part))[t] <= multiset(Select(w, rows))[t] {
      SelectCount(w, part, t);
      SelectCount(w, rows, t);
    }
  }

  // Of a table with all of the snapshot's rows, the key's rows are the snapshot's
  // exactly when it held them all.
  lemma SameRowsIff(snapshot: seq<Trade>, raw: seq<Trade>, k: Key)
    requires multiset(snapshot) <= multiset(raw)
    ensures multiset(Select(Within(k), snapshot)) == multiset(Select(Within(k), raw)) <==> HoldsAllOf(snapshot, raw, k)
  {
    var mine, all := Select(Within(k), snapshot), Select(Within(k), raw);
    forall t
      ensures multiset(mine)[t] == if KeyOf(t) == k then multiset(snapshot)[t] else 0
      ensures multiset(all)[t] == if KeyOf(t) == k then multiset(raw)[t] else 0
    {
      SelectCount(Within(k), snapshot, t);
      SelectCount(Within(k), raw, t);
    }
    if multiset(mine) == multiset(all) {
      forall t | KeyOf(t) == k ensures multiset(raw)[t] <= multiset(snapshot)[t] {
        assert multiset(mine)[t] == multiset(all)[t];
      }
    }
  }

  // A candle of some rows is that of more rows only if there are no more.
  lemma CandleOfPart(c: Candle, part: seq<Trade>, rows: seq<Trade>)
    requires multiset(part) <= multiset(rows) && IsCandle(c, part)
    ensures IsCandle(c, rows) <==> multiset(part) == multiset(rows)
  {
    PartOfRows(part, rows);
    if multiset(part) == multiset(rows) { IsCandlePermuted(c, part, rows); }
  }

  lemma InWindowIff(snapshot: seq<Trade>, raw: seq<Trade>, start: int, k: Key)
    requires multiset(snapshot) <= multiset(raw)
    ensures HoldsAllOf(snapshot, raw, k) ==> (WholeInWindow(raw, start, k) <==> WholeInWindow(snapshot, start, k))
    ensures WholeInWindow(raw, start, k) ==> WholeInWindow(snapshot, start, k)
  {
    forall t | t in snapshot ensures t in raw { assert t in multiset(raw); }
    if HoldsAllOf(snapshot, raw, k) {
      forall t | t in raw && KeyOf(t) == k ensures t in snapshot {
        assert t in multiset(raw) && t in multiset(snapshot);
      }
    }
  }

  // What was read of a minute is all its rows in the snapshot exactly when none lay before the window.
  lemma ReadWholeIff(snapshot: seq<Trade>, start: int, k: Key)
    ensures var mine := Select(Within(k), snapshot);
            && multiset(Select(Since(start), mine)) <= multiset(mine)
            && (multiset(Select(Since(start), mine)) == multiset(mine) <==> WholeInWindow(snapshot, start, k))
  {
    var mine := Select(Within(k), snapshot);
    forall t ensures multiset(Select(Since(start), mine))[t] <= multiset(mine)[t] {
      SelectCount(Since(start), mine, t);
    }
    if WholeInWindow(snapshot, start, k) {
      SelectAll(Since(start), mine);
    } else {
      var t :| t in snapshot && KeyOf(t) == k && t.ts < start;
      SelectCount(Since(start), mine, t);
      assert t in mine && t in multiset(mine);
    }
  }

  // It is the whole minute of the table exactly when the snapshot held all of it
  // and none of it lay before the window.
  lemma WholeMinuteIff(snapshot: seq<Trade>, raw: seq<Trade>, start: int, k: Key, c: Candle)
    requires multiset(snapshot) <= multiset(raw)
    requires IsCandle(c, Select(Since(start), Select(Within(k), snapshot)))
    ensures IsCandle(c, Select(Within(k), raw)) <==> HoldsAllOf(snapshot, raw, k) && WholeInWindow(raw, start, k)
  {
    var mine, all := Select(Within(k), snapshot), Select(Within(k), raw);
    var seen := Select(Since(start), mine);
    ReadWholeIff(snapshot, start, k);
    SelectedPart(Within(k), snapshot, raw);
    SameRowsIff(snapshot, raw, k);
    InWindowIff(snapshot, raw, start, k);
    CandleOfPart(c, seen, all);
    Squeezed(multiset(seen), multiset(mine), multiset(all));
  }

  lemma Squeezed(a: multiset<Trade>, b: multiset<Trade>, c: multiset<Trade>)
    requires a <= b <= c
    ensures a == c <==> a == b && b == c
  {}

  lemma {:induction false} SelectSwap(v: Where, w: Where, rows: seq<Trade>)
    ensures Select(v, Select(w, rows)) == Select(w, Select(v, rows))
  {
    if rows != [] { SelectSwap(v, w, rows[1..]); }
  }

  /** The row a minute is left with is its whole candle, as of any later table,
      exactly when the last committed run that read any of its trades found all
      that are ever stored already there, and none of them before its window. */
  lemma LeftWholeIff(config: Config, w: Warehouse, attempts: seq<Attempt>, k: Key, i: nat, raw: seq<Trade>)
    requires LastSighting(config, attempts, k, i)
    requires |Select(Since(WindowStart(config, attempts[i])), attempts[i].snapshot)| <= config.maxRows
    requires multiset(attempts[i].snapshot) <= multiset(raw)
    ensures var table := TableAfter(config, w, attempts);
            k in table &&
            (IsCandle(table[k], Select(Within(k), raw)) <==>
             HoldsAllOf(attempts[i].snapshot, raw, k) && WholeInWindow(raw, WindowStart(config, attempts[i]), k))
  {
    LastSightingWins(config, w, attempts, k, i);
    var c := TableAfter(config, w, attempts)[k];
    ReadOfMinute(config, attempts[i], k, c);
    WholeMinuteIff(attempts[i].snapshot, raw, WindowStart(config, attempts[i]), k, c);
  }

  /** The window's start is not floored to the minute, so a whole candle is later
      overwritten by a partial one: with the default ten-minute window, runs at
      00:01:30 and 00:10:30 leave minute 00:00 without its trade of 00:00:10. */
  lemma WholeCandleIsOverwritten(w: Warehouse, first: Trade, second: Trade)
    requires first.symbol == second.symbol && first.ts == 10_000_000 && second.ts == 40_000_000
    ensures var k, raw := Key(first.symbol, 0), [first, second];
            var early, late := Attempt(90_000_000, raw, Done(true)), Attempt(630_000_000, raw, Done(true));
            var before := TableAfter(Config(10, 200_000), w, [early]);
            var after := TableAfter(Config(10, 200_000), w, [early, late]);
            && k in before && IsCandle(before[k], Select(Within(k), raw))
            && k in after && !IsCandle(after[k], Select(Within(k), raw))
  {
    var config, k, raw := Config(10, 200_000), Key(first.symbol, 0), [first, second];
    var early, late := Attempt(90_000_000, raw, Done(true)), Attempt(630_000_000, raw, Done(true));
    assert KeyOf(first) == k && KeyOf(second) == k && first in raw && second in raw;
    SeenIf(config, early, k, second);
    SeenIf(config, late, k, second);
    assert LastSighting(config, [early], k, 0) && LastSighting(config, [early, late], k, 1);
    LeftWholeIff(config, w, [early], k, 0, raw);
    LeftWholeIff(config, w, [early, late], k, 1, raw);
    assert first.ts < WindowStart(config, late);
  }

  lemma SeenIf(config: Config, a: Attempt, k: Key, t: Trade)
    requires a.outcome.Done? && |Select(Since(WindowStart(config, a)), a.snapshot)| <= config.maxRows
    requires t in a.snapshot && WindowStart(config, a) <= t.ts && KeyOf(t) == k
    ensures Sees(config, a, k)
  {
    var seen, read := Select(Since(WindowStart(config, a)), a.snapshot), ReadBy(config, a);
    assert multiset(read) == multiset(seen);
    assert t in seen && t in multiset(seen) && t in multiset(read);
    assert t in Select(Within(k), read);
  }

  // --- Late trades ---------------------------------------------------------

  // When each run starts; None for one that does not commit. One commits before
  // the trade is stored, and after each such one another follows at most `gap` later.
  ghost predicate Regular(starts: seq<Option<int>>, gap: int, stored: int) {
    && (exists i :: 0 <= i < |starts| && Before(starts[i], stored))
    && (forall i :: 0 <= i < |starts| && Before(starts[i], stored) ==>
          exists j :: i < j < |starts| && Before(starts[j], starts[i].value + gap + 1))
  }

  predicate Before(start: Option<int>, time: int) { start.Some? && start.value < time }

  // Some run starts once the trade is stored and has its whole minute in its window.
  ghost predicate Caught(starts: seq<Option<int>>, window: int, ts: int, stored: int) {
    exists i :: 0 <= i < |starts| && Catches(starts[i], window, ts, stored)
  }

  predicate Catches(start: Option<int>, window: int, ts: int, stored: int) {
    start.Some? && stored <= start.value && start.value - window <= MinuteOf(ts)
  }

  ghost predicate AlwaysCaught(window: int, gap: int, lag: int) {
    forall starts, ts, stored :: Regular(starts, gap, stored) && ts <= stored <= ts + lag ==>
      Caught(starts, window, ts, stored)
  }

  // The last run before the trade is stored has a successor soon after that.
  lemma NextRun(starts: seq<Option<int>>, gap: int, stored: int)
    requires Regular(starts, gap, stored)
    ensures exists j :: 0 <= j < |starts| && starts[j].Some? && stored <= starts[j].value < stored + gap
  {
    var i :| 0 <= i < |starts| && Before(starts[i], stored);
    while true
      invariant 0 <= i < |starts| && Before(starts[i], stored)
      decreases |starts| - i
    {
      var j :| i < j < |starts| && Before(starts[j], starts[i].value + gap + 1);
      if stored <= starts[j].value { return; }
      i := j;
    }
  }

  /** The exact late-trade bound. Trades stored at most `lag` after their time,
      with committed runs at most `gap` apart, are all caught by a run with their
      whole minute in its window exactly when the window is at least lag + gap +
      one minute (less two microseconds: both margins are strict and time is in
      whole microseconds). */
  lemma LateTradeBound(window: int, gap: int, lag: int)
    requires gap > 0 && lag >= 0
    ensures AlwaysCaught(window, gap, lag) <==> lag + gap + MINUTE - 2 <= window
  {
    if lag + gap + MINUTE - 2 <= window {
      forall starts: seq<Option<int>>, ts, stored | Regular(starts, gap, stored) && ts <= stored <= ts + lag
        ensures Caught(starts, window, ts, stored)
      {
        NextRun(starts, gap, stored);
        var j :| 0 <= j < |starts| && starts[j].Some? && stored <= starts[j].value < stored + gap;
        assert Catches(starts[j], window, ts, stored);
      }
    } else {
      var ts := MINUTE - 1;
      var stored := ts + lag;
      var starts := [Some(stored - 1), Some(stored - 1 + gap)];
      assert Before(starts[0], stored) && Before(starts[1], starts[0].value + gap + 1);
      assert Regular(starts, gap, stored);
      assert !Caught(starts, window, ts, stored);
    }
  }

  // Some run starts once the trade is stored and has the trade itself in its window.
  ghost predicate Read(starts: seq<Option<int>>, window: int, ts: int, stored: int) {
    exists i :: 0 <= i < |starts| && Reads(starts[i], window, ts, stored)
  }

  predicate Reads(start: Option<int>, window: int, ts: int, stored: int) {
    start.Some? && stored <= start.value && start.value - window <= ts
  }

  ghost predicate AlwaysRead(window: int, gap: int, lag: int) {
    forall starts, ts, stored :: Regular(starts, gap, stored) && ts <= stored <= ts + lag ==>
      Read(starts, window, ts, stored)
  }

  /** To be read at all, whole minute or not, a late trade needs a window of only
      lag + gap (less one microsecond). */
  lemma ReadBound(window: int, gap: int, lag: int)
    requires gap > 0 && lag >= 0
    ensures AlwaysRead(window, gap, lag) <==> lag + gap - 1 <= window
  {
    if lag + gap - 1 <= window {
      forall starts: seq<Option<int>>, ts, stored | Regular(starts, gap, stored) && ts <= stored <= ts + lag
        ensures Read(starts, window, ts, stored)
      {
        NextRun(starts, gap, stored);
        var j :| 0 <= j < |starts| && starts[j].Some? && stored <= starts[j].value < stored + gap;
        assert Reads(starts[j], window, ts, stored);
      }
    } else {
      var starts := [Some(lag - 1), Some(lag - 1 + gap)];
      assert Before(starts[0], lag) && Before(starts[1], starts[0].value + gap + 1);
      assert Regular(starts, gap, lag);
      assert !Read(starts, window, 0, lag);
    }
  }

  // The bounds rollup/config.py checks, the interval in microseconds.
  predicate ConfigAccepted(interval: int, windowMinutes: int, maxRows: int) {
    0 < interval && 1 <= windowMinutes && 1 <= maxRows && windowMinutes * MINUTE >= interval
  }

  /** What the configuration check is there for: with runs an interval apart no
      trade that is stored at once goes unread, and one stored late is read
      whenever its lag fits what the window has over the interval. */
  lemma ConfigCheckReadsAll(interval: int, windowMinutes: int, maxRows: int, lag: int)
    requires ConfigAccepted(interval, windowMinutes, maxRows) && lag >= 0
    ensures AlwaysRead(windowMinutes * MINUTE, interval, 0)
    ensures AlwaysRead(windowMinutes * MINUTE, interval, lag) <==> lag <= windowMinutes * MINUTE - interval + 1
  {
    ReadBound(windowMinutes * MINUTE, interval, 0);
    ReadBound(windowMinutes * MINUTE, interval, lag);
  }

  /** It does not give whole minutes: the widest interval it accepts for a window
      always leaves some trade without a run that has its whole minute in the
      window, even one stored at once by runs that take no time. */
  lemma ConfigCheckIsNotEnough(windowMinutes: int, maxRows: int)
    requires 1 <= windowMinutes && 1 <= maxRows
    ensures ConfigAccepted(windowMinutes * MINUTE, windowMinutes, maxRows)
    ensures !AlwaysCaught(windowMinutes * MINUTE, windowMinutes * MINUTE, 0)
  {
    LateTradeBound(windowMinutes * MINUTE, windowMinutes * MINUTE, 0);
  }

  function Starts(attempts: seq<Attempt>): (r: seq<Option<int>>)
    ensures |r| == |attempts|
    ensures forall i :: 0 <= i < |attempts| ==>
              r[i] == if attempts[i].outcome.Done? then Some(attempts[i].now) else None
  {
    seq(|attempts|, i requires 0 <= i < |attempts| => if attempts[i].outcome.Done? then Some(attempts[i].now) else None)
  }

  // The run reads every trade of its window, and the table it reads holds t once t is stored.
  ghost predicate ReadsAll(config: Config, a: Attempt, t: Trade, stored: int) {
    && |Select(Since(WindowStart(config, a)), a.snapshot)| <= config.maxRows
    && (stored <= a.now ==> t in a.snapshot)
  }

  /** Under the bound, however many runs fail in between, some run leaves the
      late trade's whole-minute candle in the table. */
  lemma LateTradeReachesItsCandle(config: Config, w: Warehouse, attempts: seq<Attempt>,
                                  t: Trade, stored: int, gap: int, lag: int)
    requires gap > 0 && lag + gap + MINUTE - 2 <= config.windowMinutes * MINUTE
    requires t.ts <= stored <= t.ts + lag && Regular(Starts(attempts), gap, stored)
    requires forall i :: 0 <= i < |attempts| ==> ReadsAll(config, attempts[i], t, stored)
    ensures exists i :: 0 <= i < |attempts| && t in attempts[i].snapshot &&
              var table := TableAfter(config, w, attempts[..i + 1]);
              KeyOf(t) in table && IsCandle(table[KeyOf(t)], Select(Within(KeyOf(t)), attempts[i].snapshot))
  {
    LateTradeBound(config.windowMinutes * MINUTE, gap, lag);
    assert Caught(Starts(attempts), config.windowMinutes * MINUTE, t.ts, stored);
    var i: nat :| 0 <= i < |attempts| && Catches(Starts(attempts)[i], config.windowMinutes * MINUTE, t.ts, stored);
    assert ReadsAll(config, attempts[i], t, stored);
    SeenIf(config, attempts[i], KeyOf(t), t);
    var k := KeyOf(t);
    assert attempts[..i + 1][i] == attempts[i];
    assert LastSighting(config, attempts[..i + 1], k, i);
    LeftWholeIff(config, w, attempts[..i + 1], k, i, attempts[i].snapshot);
    MinuteAfterStart(attempts[i].snapshot, WindowStart(config, attempts[i]), k);
  }
}
