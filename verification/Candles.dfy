/** build_candles: one OHLCV row per symbol and minute. */
module Candles {
  import opened Trades
  import opened Sorting

  datatype Candle = Candle(symbol: string, minute: int, open: real, high: real, low: real, close: real,
                           volume: real, count: nat)

  datatype Key = Key(symbol: string, minute: int)

  function KeyOf(t: Trade): Key { Key(t.symbol, MinuteOf(t.ts)) }

  function CandleKey(c: Candle): Key { Key(c.symbol, c.minute) }

  function Within(k: Key): Where { InMinute(k.symbol, k.minute) }

  // sort_values(["symbol", "minute", "trade_ts"])
  predicate FrameOrder(a: Trade, b: Trade) {
    if a.symbol != b.symbol then Below(a.symbol, b.symbol)
    else MinuteOf(a.ts) < MinuteOf(b.ts) || (MinuteOf(a.ts) == MinuteOf(b.ts) && a.ts <= b.ts)
  }

  // sort_values(["minute", "symbol"])
  predicate OutputOrder(a: Candle, b: Candle) {
    a.minute < b.minute || (a.minute == b.minute && (a.symbol == b.symbol || Below(a.symbol, b.symbol)))
  }

  // agg(first, max, min, last, sum, size) over one group of the sorted frame
  function Aggregate(k: Key, rows: seq<Trade>): Candle
    requires rows != []
  {
    Candle(k.symbol, k.minute, rows[0].price, High(rows), Low(rows), rows[|rows| - 1].price, Volume(rows), |rows|)
  }

  // groupby(["symbol", "minute"]).agg(...)
  function Groups(frame: seq<Trade>): seq<Candle>
    decreases |frame|
  {
    if frame == [] then []
    else
      var k := KeyOf(frame[0]);
      Rest(frame);
      [Aggregate(k, Select(Within(k), frame))] + Groups(Select(Not(Within(k)), frame))
  }

  lemma Rest(frame: seq<Trade>)
    requires frame != []
    ensures var w := Within(KeyOf(frame[0]));
            frame[0] in Select(w, frame) && |Select(Not(w), frame)| < |frame|
  {
    SelectSplits(Within(KeyOf(frame[0])), frame);
  }

  function BuildCandles(trades: seq<Trade>): seq<Candle> {
    Sort(OutputOrder, Groups(Sort(FrameOrder, trades)))
  }

  // --- What a candle means -------------------------------------------------

  /** The candle of these rows, with no order of the rows involved. */
  ghost predicate IsCandle(c: Candle, rows: seq<Trade>) {
    && c.count == |rows|
    && IsOpen(c.open, rows) && IsClose(c.close, rows)
    && IsHigh(c.high, rows) && IsLow(c.low, rows)
    && c.volume == Volume(rows)
  }

  lemma IsCandlePermuted(c: Candle, xs: seq<Trade>, ys: seq<Trade>)
    requires multiset(xs) == multiset(ys) && IsCandle(c, xs)
    ensures IsCandle(c, ys)
  {
    forall t ensures t in xs <==> t in ys {
      assert t in xs <==> t in multiset(xs);
      assert t in ys <==> t in multiset(ys);
    }
    VolumePermuted(xs, ys);
    assert |xs| == |multiset(xs)| && |ys| == |multiset(ys)|;
    var e :| IsEarliest(e, xs) && e.price == c.open;
    assert IsEarliest(e, ys);
    var l :| IsLatest(l, xs) && l.price == c.close;
    assert IsLatest(l, ys);
  }

  lemma CandleIsOrdered(c: Candle, rows: seq<Trade>)
    requires IsCandle(c, rows)
    ensures c.low <= c.open <= c.high && c.low <= c.close <= c.high && c.count > 0
  {
  }

  // --- The sorted frame ----------------------------------------------------

  lemma FrameOrderTotal()
    ensures TotalPreorder(FrameOrder)
  {
    forall a, b ensures FrameOrder(a, b) || FrameOrder(b, a) { BelowTotal(a.symbol, b.symbol); }
    forall a, b, c | FrameOrder(a, b) && FrameOrder(b, c) ensures FrameOrder(a, c) {
      BelowTotal(a.symbol, b.symbol);
      if a.symbol != b.symbol && b.symbol != c.symbol { BelowTransitive(a.symbol, b.symbol, c.symbol); }
      BelowTotal(a.symbol, c.symbol);
    }
  }

  lemma OutputOrderTotal()
    ensures TotalPreorder(OutputOrder)
  {
    forall a, b ensures OutputOrder(a, b) || OutputOrder(b, a) { BelowTotal(a.symbol, b.symbol); }
    forall a, b, c | OutputOrder(a, b) && OutputOrder(b, c) ensures OutputOrder(a, c) {
      if a.symbol != b.symbol && b.symbol != c.symbol && a.minute == b.minute == c.minute {
        BelowTransitive(a.symbol, b.symbol, c.symbol);
      }
    }
  }

  lemma {:induction false} SelectSorted(w: Where, frame: seq<Trade>)
    requires Sorted(FrameOrder, frame)
    ensures Sorted(FrameOrder, Select(w, frame))
  {
    if frame != [] {
      SelectSorted(w, frame[1..]);
      forall t | t in frame[1..] ensures FrameOrder(frame[0], t) {}
    }
  }

  // First and last of a sorted group are its earliest and latest trade.
  lemma GroupIsCandle(k: Key, rows: seq<Trade>)
    requires rows != [] && Sorted(FrameOrder, rows) && forall t :: t in rows ==> KeyOf(t) == k
    ensures IsCandle(Aggregate(k, rows), rows)
  {
    var n := |rows| - 1;
    forall i | 0 <= i <= n ensures rows[0].ts <= rows[i].ts <= rows[n].ts {
      assert rows[0] in rows && rows[i] in rows && rows[n] in rows;
      if 0 < i { assert FrameOrder(rows[0], rows[i]); }
      if i < n { assert FrameOrder(rows[i], rows[n]); }
    }
    assert IsEarliest(rows[0], rows) && IsLatest(rows[n], rows);
  }

  // --- The groups partition the frame ----------------------------------------

  function TotalCount(cs: seq<Candle>): nat {
    if cs == [] then 0 else cs[0].count + TotalCount(cs[1..])
  }

  function TotalVolume(cs: seq<Candle>): real {
    if cs == [] then 0.0 else cs[0].volume + TotalVolume(cs[1..])
  }

  // The candle of all the rows of its key.
  ghost predicate IsCandleIn(c: Candle, rows: seq<Trade>) {
    IsCandle(c, Select(Within(CandleKey(c)), rows))
  }

  ghost predicate HasCandle(cs: seq<Candle>, k: Key) {
    exists c :: c in cs && CandleKey(c) == k
  }

  // Every candle is that of its key, and every row's key has one.
  ghost predicate AllCandles(cs: seq<Candle>, rows: seq<Trade>) {
    forall c :: c in cs ==> IsCandleIn(c, rows)
  }

  ghost predicate AllCovered(cs: seq<Candle>, rows: seq<Trade>) {
    forall t :: t in rows ==> HasCandle(cs, KeyOf(t))
  }

  ghost predicate KeysDiffer(cs: seq<Candle>) {
    forall i, j :: 0 <= i < j < |cs| ==> CandleKey(cs[i]) != CandleKey(cs[j])
  }

  // A candle of the remaining rows is the candle of its key in the whole frame.
  lemma RestCandle(c: Candle, k: Key, frame: seq<Trade>)
    requires IsCandleIn(c, Select(Not(Within(k)), frame))
    ensures CandleKey(c) != k && IsCandleIn(c, frame)
  {
    var t :| IsEarliest(t, Select(Within(CandleKey(c)), Select(Not(Within(k)), frame))) && t.price == c.open;
    assert KeyOf(t) == CandleKey(c) && !Within(k).Matches(t);
    SelectTwice(Not(Within(k)), Within(CandleKey(c)), frame);
  }

  lemma FirstCandle(frame: seq<Trade>)
    requires frame != [] && Sorted(FrameOrder, frame)
    ensures var k := KeyOf(frame[0]);
            Select(Within(k), frame) != [] && IsCandleIn(Aggregate(k, Select(Within(k), frame)), frame)
  {
    var k := KeyOf(frame[0]);
    Rest(frame);
    SelectSorted(Within(k), frame);
    GroupIsCandle(k, Select(Within(k), frame));
  }

  lemma AddGroup(first: Candle, cs: seq<Candle>, frame: seq<Trade>)
    requires AllCandles(cs, Select(Not(Within(CandleKey(first))), frame)) && KeysDiffer(cs)
    requires IsCandleIn(first, frame)
    ensures AllCandles([first] + cs, frame) && KeysDiffer([first] + cs)
  {
    var k := CandleKey(first);
    forall c | c in cs ensures CandleKey(c) != k && IsCandleIn(c, frame) { RestCandle(c, k, frame); }
    AddKey(first, cs);
  }

  lemma AddKey(first: Candle, cs: seq<Candle>)
    requires KeysDiffer(cs) && forall c :: c in cs ==> CandleKey(c) != CandleKey(first)
    ensures KeysDiffer([first] + cs)
  {}

  lemma AddCovered(first: Candle, cs: seq<Candle>, frame: seq<Trade>)
    requires AllCovered(cs, Select(Not(Within(CandleKey(first))), frame))
    ensures AllCovered([first] + cs, frame)
  {
    forall t | t in frame ensures HasCandle([first] + cs, KeyOf(t)) {
      if KeyOf(t) == CandleKey(first) {
        assert first in [first] + cs;
      } else {
        assert Not(Within(CandleKey(first))).Matches(t);
        assert t in Select(Not(Within(CandleKey(first))), frame);
        var c :| c in cs && CandleKey(c) == KeyOf(t);
        assert c in [first] + cs;
      }
    }
  }

  lemma {:induction false} GroupsPartition(frame: seq<Trade>)
    requires Sorted(FrameOrder, frame)
    ensures AllCandles(Groups(frame), frame) && KeysDiffer(Groups(frame)) && AllCovered(Groups(frame), frame)
    decreases |frame|
  {
    if frame != [] {
      var k := KeyOf(frame[0]);
      Rest(frame);
      SelectSorted(Not(Within(k)), frame);
      GroupsPartition(Select(Not(Within(k)), frame));
      FirstCandle(frame);
      AddGroup(Aggregate(k, Select(Within(k), frame)), Groups(Select(Not(Within(k)), frame)), frame);
      AddCovered(Aggregate(k, Select(Within(k), frame)), Groups(Select(Not(Within(k)), frame)), frame);
    }
  }

  lemma {:induction false} GroupsTotals(frame: seq<Trade>)
    ensures TotalCount(Groups(frame)) == |frame| && TotalVolume(Groups(frame)) == Volume(frame)
    decreases |frame|
  {
    if frame != [] {
      var w := Within(KeyOf(frame[0]));
      Rest(frame);
      SelectSplits(w, frame);
      GroupsTotals(Select(Not(w), frame));
      assert Groups(frame)[1..] == Groups(Select(Not(w), frame));
    }
  }

  lemma {:induction false} InsertTotals(c: Candle, cs: seq<Candle>)
    ensures TotalCount(Insert(OutputOrder, c, cs)) == c.count + TotalCount(cs)
    ensures TotalVolume(Insert(OutputOrder, c, cs)) == c.volume + TotalVolume(cs)
  {
    if cs != [] && !OutputOrder(c, cs[0]) { InsertTotals(c, cs[1..]); }
  }

  lemma {:induction false} SortTotals(cs: seq<Candle>)
    ensures TotalCount(Sort(OutputOrder, cs)) == TotalCount(cs)
    ensures TotalVolume(Sort(OutputOrder, cs)) == TotalVolume(cs)
  {
    if cs != [] {
      SortTotals(cs[1..]);
      InsertTotals(cs[0], Sort(OutputOrder, cs[1..]));
    }
  }

  lemma CandlesAreOfKeys(trades: seq<Trade>)
    ensures AllCandles(BuildCandles(trades), trades)
  {
    var frame := Sort(FrameOrder, trades);
    FrameOrderTotal();
    SortSorted(FrameOrder, trades);
    GroupsPartition(frame);
    CandlesPermuted(Groups(frame), frame, BuildCandles(trades), trades);
  }

  lemma CandlesCover(trades: seq<Trade>)
    ensures AllCovered(BuildCandles(trades), trades)
  {
    var frame := Sort(FrameOrder, trades);
    FrameOrderTotal();
    SortSorted(FrameOrder, trades);
    GroupsPartition(frame);
    CoveredPermuted(Groups(frame), frame, BuildCandles(trades), trades);
  }

  lemma CandlesStrict(trades: seq<Trade>)
    ensures StrictlySorted(OutputOrder, BuildCandles(trades))
  {
    FrameOrderTotal();
    SortSorted(FrameOrder, trades);
    GroupsPartition(Sort(FrameOrder, trades));
    OutputStrict(Groups(Sort(FrameOrder, trades)));
  }

  lemma CandlesTotals(trades: seq<Trade>)
    ensures TotalCount(BuildCandles(trades)) == |trades| && TotalVolume(BuildCandles(trades)) == Volume(trades)
  {
    GroupsTotals(Sort(FrameOrder, trades));
    VolumePermuted(Sort(FrameOrder, trades), trades);
    SortTotals(Groups(Sort(FrameOrder, trades)));
  }

  // By minute, and by symbol within a minute.
  ghost predicate InOutputOrder(cs: seq<Candle>) {
    forall i, j :: 0 <= i < j < |cs| ==>
      cs[i].minute < cs[j].minute || (cs[i].minute == cs[j].minute && Below(cs[i].symbol, cs[j].symbol))
  }

  lemma StrictIsInOrder(cs: seq<Candle>)
    requires StrictlySorted(OutputOrder, cs)
    ensures InOutputOrder(cs)
  {}

  /** build_candles partitions its input: one candle for exactly each symbol and
      minute that occurs, strictly ordered by minute then symbol, each the OHLCV
      of all the trades of its key by time; counts and volumes add up to those
      of the input. */
  lemma CandlesPartition(trades: seq<Trade>)
    ensures var cs := BuildCandles(trades);
            && InOutputOrder(cs)
            && AllCandles(cs, trades) && AllCovered(cs, trades)
            && TotalCount(cs) == |trades| && TotalVolume(cs) == Volume(trades)
  {
    CandlesStrict(trades);
    StrictIsInOrder(BuildCandles(trades));
    CandlesTotals(trades);
    CandlesAreOfKeys(trades);
    CandlesCover(trades);
  }

  // How a candle of a key differs from the one before another row of the table came in.
  ghost predicate Grown(before: Candle, after: Candle, t: Trade) {
    if CandleKey(after) == KeyOf(t) then
      && after.count == before.count + 1
      && after.volume == before.volume + match t.volume case Some(v) => v case None => 0.0
    else after.count == before.count && after.volume == before.volume
  }

  // The candle of a key no other row has.
  ghost predicate First(c: Candle, t: Trade) {
    && CandleKey(c) == KeyOf(t) && c.count == 1
    && c.open == c.high == c.low == c.close == t.price
    && c.volume == match t.volume case Some(v) => v case None => 0.0
  }

  lemma SelectOneMore(k: Key, rows: seq<Trade>, t: Trade)
    ensures var mine := Select(Within(k), rows);
            Select(Within(k), rows + [t]) == if KeyOf(t) == k then mine + [t] else mine
  {
    SelectAppend(Within(k), rows, [t]);
    assert Select(Within(k), rows) + [] == Select(Within(k), rows);
  }

  lemma SameKeyGrows(k: Key, rows: seq<Trade>, t: Trade, before: Candle, after: Candle)
    requires CandleKey(before) == CandleKey(after) == k
    requires IsCandle(before, Select(Within(k), rows)) && IsCandle(after, Select(Within(k), rows + [t]))
    ensures Grown(before, after, t)
  {
    SelectOneMore(k, rows, t);
    VolumeAppend(Select(Within(k), rows), [t]);
    assert [t][1..] == [];
  }

  lemma CandleOfOne(c: Candle, t: Trade)
    requires IsCandle(c, [t])
    ensures c.count == 1 && c.open == c.high == c.low == c.close == t.price
    ensures c.volume == match t.volume case Some(v) => v case None => 0.0
  {
    var open :| IsEarliest(open, [t]) && open.price == c.open;
    var close :| IsLatest(close, [t]) && close.price == c.close;
    var high :| high in [t] && high.price == c.high;
    var low :| low in [t] && low.price == c.low;
    assert open == close == high == low == t;
    assert [t][1..] == [] && Volume([]) == 0.0;
  }

  lemma NewKeyIsFirst(k: Key, rows: seq<Trade>, t: Trade, c: Candle)
    requires CandleKey(c) == k && Select(Within(k), rows) == []
    requires IsCandle(c, Select(Within(k), rows + [t]))
    ensures First(c, t)
  {
    SelectOneMore(k, rows, t);
    if KeyOf(t) == k {
      assert [] + [t] == [t];
      CandleOfOne(c, t);
    } else {
      assert false;
    }
  }

  // A key has a candle unless the table has no row of it.
  lemma RowlessKey(trades: seq<Trade>, k: Key)
    requires !HasCandle(BuildCandles(trades), k)
    ensures Select(Within(k), trades) == []
  {
    CandlesCover(trades);
    forall t | t in trades ensures !Within(k).Matches(t) {
      assert HasCandle(BuildCandles(trades), KeyOf(t));
    }
    SelectNone(Within(k), trades);
  }

  /** One more row of the table adds one to the count and its own volume, nothing
      when that is missing, to the candle of its symbol and minute, which it
      starts if there was none, and leaves all other counts and volumes alone. */
  lemma {:induction false} OneMoreTrade(rows: seq<Trade>, t: Trade, after: Candle)
    requires after in BuildCandles(rows + [t])
    ensures forall before :: before in BuildCandles(rows) && CandleKey(before) == CandleKey(after) ==>
              Grown(before, after, t)
    ensures !HasCandle(BuildCandles(rows), CandleKey(after)) ==> First(after, t)
  {
    var k := CandleKey(after);
    CandlesAreOfKeys(rows);
    CandlesAreOfKeys(rows + [t]);
    assert IsCandleIn(after, rows + [t]);
    forall before | before in BuildCandles(rows) && CandleKey(before) == k ensures Grown(before, after, t) {
      assert IsCandleIn(before, rows);
      SameKeyGrows(k, rows, t, before, after);
    }
    if !HasCandle(BuildCandles(rows), k) {
      RowlessKey(rows, k);
      NewKeyIsFirst(k, rows, t, after);
    }
  }

  lemma {:induction false} CandlesCounted(cs: seq<Candle>)
    requires forall c :: c in cs ==> c.count == 1
    ensures TotalCount(cs) == |cs|
  {
    if cs != [] { CandlesCounted(cs[1..]); }
  }

  /** In particular one trade makes one candle. */
  lemma OneTradeCandle(t: Trade)
    ensures |BuildCandles([t])| == 1 && First(BuildCandles([t])[0], t)
  {
    var cs := BuildCandles([t]);
    assert [] + [t] == [t] && BuildCandles([]) == [];
    forall c | c in cs ensures First(c, t) { OneMoreTrade([], t, c); }
    CandlesTotals([t]);
    CandlesCounted(cs);
  }

  lemma CandlesPermuted(cs: seq<Candle>, frame: seq<Trade>, cs': seq<Candle>, trades: seq<Trade>)
    requires AllCandles(cs, frame) && multiset(frame) == multiset(trades)
    requires forall c :: c in cs <==> c in cs'
    ensures AllCandles(cs', trades)
  {
    forall c | c in cs' ensures IsCandleIn(c, trades) {
      SelectPermuted(Within(CandleKey(c)), frame, trades);
      IsCandlePermuted(c, Select(Within(CandleKey(c)), frame), Select(Within(CandleKey(c)), trades));
    }
  }

  lemma CoveredPermuted(cs: seq<Candle>, frame: seq<Trade>, cs': seq<Candle>, trades: seq<Trade>)
    requires AllCovered(cs, frame) && multiset(frame) == multiset(trades)
    requires forall c :: c in cs <==> c in cs'
    ensures AllCovered(cs', trades)
  {
    forall t | t in trades ensures HasCandle(cs', KeyOf(t)) {
      assert t in multiset(trades);
      assert t in frame;
      var c :| c in cs && CandleKey(c) == KeyOf(t);
      assert c in cs';
    }
  }

  lemma OutputStrict(cs: seq<Candle>)
    requires KeysDiffer(cs)
    ensures StrictlySorted(OutputOrder, Sort(OutputOrder, cs))
  {
    OutputOrderTotal();
    forall i, j | 0 <= i < j < |cs| ensures !(OutputOrder(cs[i], cs[j]) && OutputOrder(cs[j], cs[i])) {
      assert CandleKey(cs[i]) != CandleKey(cs[j]);
      BelowTotal(cs[i].symbol, cs[j].symbol);
    }
    SortStrict(OutputOrder, cs);
  }

  /** The order in which Postgres hands over the rows does not matter. */
  lemma CandlesIgnoreRowOrder(xs: seq<Trade>, ys: seq<Trade>)
    requires multiset(xs) == multiset(ys) && DistinctTimes(xs)
    ensures BuildCandles(xs) == BuildCandles(ys)
  {
    FrameOrderTotal();
    SortSorted(FrameOrder, xs);
    SortSorted(FrameOrder, ys);
    var frame := Sort(FrameOrder, xs);
    forall t, u | t in frame && u in frame && FrameOrder(t, u) && FrameOrder(u, t) ensures t == u {
      BelowTotal(t.symbol, u.symbol);
      assert t in xs && u in xs;
    }
    SortedUnique(FrameOrder, frame, Sort(FrameOrder, ys));
  }
}
