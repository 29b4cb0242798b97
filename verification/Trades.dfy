/** The rows every service of the pipeline works on: trades as stored in
    `raw_trades`, the WHERE clauses that pick some of them, and the aggregates
    (count, highest and lowest price, earliest and latest trade) taken over them. */
module Trades {
  datatype Option<+T> = None | Some(value: T)

  // Times are whole microseconds since the epoch, the resolution of a timestamp.
  const MINUTE: int := 60_000_000
  const DAY: int := 86_400_000_000

  // One row of raw_trades. The volume column may be NULL; the socket always fills it.
  datatype Trade = Trade(symbol: string, ts: int, price: real, volume: Option<real>, conditions: string)

  // Dafny's division and modulo floor for a positive divisor, as a UTC date does.
  function DateOf(ts: int): int { ts / DAY }

  function MinuteOf(ts: int): int { ts - ts % MINUTE }

  /** A minute and a UTC day begin on their whole number of seconds and hold every
      time up to the next one. */
  lemma CalendarFloors(ts: int, minute: int, day: int)
    ensures MinuteOf(ts) == minute <==> minute % 60_000_000 == 0 && minute <= ts < minute + 60_000_000
    ensures DateOf(ts) == day <==> day * 86_400_000_000 <= ts < (day + 1) * 86_400_000_000
    ensures DateOf(MinuteOf(ts)) == DateOf(ts)
  {
    var m := MinuteOf(ts);
    assert m == ts / MINUTE * MINUTE && DAY == 1440 * MINUTE;
    if minute % MINUTE == 0 && minute <= ts < minute + MINUTE { assert ts - minute == ts % MINUTE; }
  }

  /** A WHERE clause over raw_trades. */
  datatype Where =
    | Of(symbol: string)
    | OnDay(symbol: string, day: int)
    | InMinute(symbol: string, minute: int)
    | Since(start: int)
    | Not(clause: Where)
  {
    predicate Matches(t: Trade) {
      match this
      case Of(s) => t.symbol == s
      case OnDay(s, d) => t.symbol == s && DateOf(t.ts) == d
      case InMinute(s, m) => t.symbol == s && MinuteOf(t.ts) == m
      case Since(b) => b <= t.ts
      case Not(w) => !w.Matches(t)
    }
  }

  function Select(w: Where, rows: seq<Trade>): (r: seq<Trade>)
    ensures forall t :: t in r <==> t in rows && w.Matches(t)
    ensures |r| <= |rows|
  {
    if rows == [] then []
    else if w.Matches(rows[0]) then [rows[0]] + Select(w, rows[1..])
    else Select(w, rows[1..])
  }

  function Symbols(rows: seq<Trade>): set<string> { set t | t in rows :: t.symbol }

  function Flatten(batches: seq<seq<Trade>>): seq<Trade> {
    if batches == [] then [] else Flatten(batches[..|batches| - 1]) + batches[|batches| - 1]
  }

  lemma {:induction false} SelectAppend(w: Where, xs: seq<Trade>, ys: seq<Trade>)
    ensures Select(w, xs + ys) == Select(w, xs) + Select(w, ys)
  {
    if xs == [] {
      assert xs + ys == ys;
    } else {
      assert (xs + ys)[1..] == xs[1..] + ys;
      SelectAppend(w, xs[1..], ys);
    }
  }

  lemma {:induction false} SelectCount(w: Where, rows: seq<Trade>, t: Trade)
    ensures multiset(Select(w, rows))[t] == if w.Matches(t) then multiset(rows)[t] else 0
  {
    if rows != [] {
      assert rows == [rows[0]] + rows[1..];
      SelectCount(w, rows[1..], t);
    }
  }

  lemma SelectPermuted(w: Where, xs: seq<Trade>, ys: seq<Trade>)
    requires multiset(xs) == multiset(ys)
    ensures multiset(Select(w, xs)) == multiset(Select(w, ys))
  {
    forall t ensures multiset(Select(w, xs))[t] == multiset(Select(w, ys))[t] {
      SelectCount(w, xs, t);
      SelectCount(w, ys, t);
    }
  }

  // Two clauses that agree on every row of a table pick the same rows.
  lemma {:induction false} SelectSame(v: Where, w: Where, rows: seq<Trade>)
    requires forall t :: t in rows ==> (v.Matches(t) <==> w.Matches(t))
    ensures Select(v, rows) == Select(w, rows)
  {
    if rows != [] { SelectSame(v, w, rows[1..]); }
  }

  // Filtering by a weaker clause first changes nothing.
  lemma {:induction false} SelectTwice(v: Where, w: Where, rows: seq<Trade>)
    requires forall t :: t in rows && w.Matches(t) ==> v.Matches(t)
    ensures Select(w, Select(v, rows)) == Select(w, rows)
  {
    if rows != [] { SelectTwice(v, w, rows[1..]); }
  }

  lemma {:induction false} SelectAll(w: Where, rows: seq<Trade>)
    requires forall t :: t in rows ==> w.Matches(t)
    ensures Select(w, rows) == rows
  {
    if rows != [] {
      assert rows == [rows[0]] + rows[1..];
      SelectAll(w, rows[1..]);
    }
  }

  lemma {:induction false} SelectNone(w: Where, rows: seq<Trade>)
    requires forall t :: t in rows ==> !w.Matches(t)
    ensures Select(w, rows) == []
  {
    if rows != [] { SelectNone(w, rows[1..]); }
  }

  lemma {:induction false} FewerSelected(w: Where, rows: seq<Trade>, t: Trade)
    requires t in rows && !w.Matches(t)
    ensures |Select(w, rows)| < |rows|
  {
    if w.Matches(rows[0]) { FewerSelected(w, rows[1..], t); }
  }

  // A clause and its negation split a table in two.
  lemma {:induction false} SelectSplits(w: Where, rows: seq<Trade>)
    ensures |Select(w, rows)| + |Select(Not(w), rows)| == |rows|
    ensures Volume(Select(w, rows)) + Volume(Select(Not(w), rows)) == Volume(rows)
  {
    if rows != [] { SelectSplits(w, rows[1..]); }
  }

  // --- Aggregates ---------------------------------------------------------

  function High(rows: seq<Trade>): (h: real)
    requires rows != []
    ensures IsHigh(h, rows)
  {
    if |rows| == 1 then rows[0].price
    else
      var h := High(rows[1..]);
      if rows[0].price >= h then rows[0].price else h
  }

  function Low(rows: seq<Trade>): (l: real)
    requires rows != []
    ensures IsLow(l, rows)
  {
    if |rows| == 1 then rows[0].price
    else
      var l := Low(rows[1..]);
      if rows[0].price <= l then rows[0].price else l
  }

  // Python's min(rows, key=ts): the first row among those with the least time.
  function Earliest(rows: seq<Trade>): (e: Trade)
    requires rows != []
    ensures IsEarliest(e, rows)
  {
    if |rows| == 1 then rows[0]
    else
      var e := Earliest(rows[1..]);
      if rows[0].ts <= e.ts then rows[0] else e
  }

  // Python's max(rows, key=ts): the first row among those with the greatest time.
  function Latest(rows: seq<Trade>): (e: Trade)
    requires rows != []
    ensures IsLatest(e, rows)
  {
    if |rows| == 1 then rows[0]
    else
      var e := Latest(rows[1..]);
      if rows[0].ts >= e.ts then rows[0] else e
  }

  // A missing volume counts as zero.
  function Volume(rows: seq<Trade>): real {
    if rows == [] then 0.0
    else (if rows[0].volume.Some? then rows[0].volume.value else 0.0) + Volume(rows[1..])
  }

  // What the aggregates mean, with no order of the rows involved. SQL leaves
  // open which of several rows with the same time comes first, so "earliest"
  // and "latest" are relations: any such row will do.
  ghost predicate IsHigh(h: real, rows: seq<Trade>) {
    (exists t :: t in rows && t.price == h) && forall t :: t in rows ==> t.price <= h
  }

  ghost predicate IsLow(l: real, rows: seq<Trade>) {
    (exists t :: t in rows && t.price == l) && forall t :: t in rows ==> l <= t.price
  }

  ghost predicate IsEarliest(e: Trade, rows: seq<Trade>) {
    e in rows && forall t :: t in rows ==> e.ts <= t.ts
  }

  ghost predicate IsLatest(e: Trade, rows: seq<Trade>) {
    e in rows && forall t :: t in rows ==> t.ts <= e.ts
  }

  ghost predicate IsOpen(p: real, rows: seq<Trade>) {
    exists t :: IsEarliest(t, rows) && t.price == p
  }

  ghost predicate IsClose(p: real, rows: seq<Trade>) {
    exists t :: IsLatest(t, rows) && t.price == p
  }

  // No two different trades of one symbol share a time.
  ghost predicate DistinctTimes(rows: seq<Trade>) {
    forall t, u :: t in rows && u in rows && t.symbol == u.symbol && t.ts == u.ts ==> t == u
  }

  lemma {:induction false} VolumeAppend(xs: seq<Trade>, ys: seq<Trade>)
    ensures Volume(xs + ys) == Volume(xs) + Volume(ys)
  {
    if xs == [] {
      assert xs + ys == ys;
    } else {
      assert (xs + ys)[1..] == xs[1..] + ys;
      VolumeAppend(xs[1..], ys);
    }
  }

  // A table without its j-th row.
  function Without(rows: seq<Trade>, j: nat): seq<Trade>
    requires j < |rows|
  {
    rows[..j] + rows[j + 1..]
  }

  lemma WithoutOne(rows: seq<Trade>, j: nat)
    requires j < |rows|
    ensures multiset(Without(rows, j)) == multiset(rows) - multiset{rows[j]}
  {
    var before, after := rows[..j], rows[j + 1..];
    assert rows == (before + [rows[j]]) + after;
    assert multiset(rows) == multiset(before + [rows[j]]) + multiset(after);
    assert multiset(before + [rows[j]]) == multiset(before) + multiset{rows[j]};
  }

  lemma VolumeWithout(rows: seq<Trade>, j: nat)
    requires j < |rows|
    ensures Volume(rows) == Volume([rows[j]]) + Volume(Without(rows, j))
  {
    var before, mid, after := rows[..j], [rows[j]], rows[j + 1..];
    var from := rows[j..];
    assert from == mid + after && rows == before + from;
    VolumeAppend(before, from);
    VolumeAppend(mid, after);
    VolumeAppend(before, after);
  }

  lemma {:induction false} VolumePermuted(xs: seq<Trade>, ys: seq<Trade>)
    requires multiset(xs) == multiset(ys)
    ensures Volume(xs) == Volume(ys)
    decreases |xs|
  {
    assert |multiset(xs)| == |xs| && |multiset(ys)| == |ys|;
    if xs != [] {
      assert xs[0] in multiset(ys);
      var j :| 0 <= j < |ys| && ys[j] == xs[0];
      WithoutOne(xs, 0);
      WithoutOne(ys, j);
      VolumeWithout(xs, 0);
      VolumeWithout(ys, j);
      VolumePermuted(Without(xs, 0), Without(ys, j));
    }
  }
}
