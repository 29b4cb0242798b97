/** Price alerts: which of them a batch of trades sets off, and what one check
    of a batch does to the alert table. */
module Alerts {
  import opened Trades
  import opened Sorting

  datatype Direction = Rising | Falling   // 'above' and 'below' in the table
  datatype Stamp = Stamp(ts: int, price: real)
  datatype Alert = Alert(symbol: string, direction: Direction, threshold: real, fired: Option<Stamp>)
  datatype PendingAlert = PendingAlert(id: int, alert: Alert)
  datatype Firing = Firing(id: int, price: real, ts: int)

  type Table = map<int, Alert>

  predicate Crossed(a: Alert, t: Trade) {
    t.symbol == a.symbol &&
    match a.direction
    case Rising => t.price >= a.threshold
    case Falling => t.price <= a.threshold
  }

  // --- find_triggered ------------------------------------------------------

  predicate NotLater(t: Trade, u: Trade) { t.ts <= u.ts }

  function FirstCrossing(a: Alert, trades: seq<Trade>): Option<Trade> {
    if trades == [] then None
    else if Crossed(a, trades[0]) then Some(trades[0])
    else FirstCrossing(a, trades[1..])
  }

  function Trigger(a: Alert, trades: seq<Trade>): Option<Trade> {
    FirstCrossing(a, Sort(NotLater, trades))
  }

  // trades[i] crosses, and every other crossing comes later (in the batch, when their times tie).
  ghost predicate IsTrigger(a: Alert, trades: seq<Trade>, i: nat) {
    i < |trades| && Crossed(a, trades[i]) &&
    forall j :: 0 <= j < |trades| && Crossed(a, trades[j]) ==>
      trades[i].ts < trades[j].ts || (trades[i].ts == trades[j].ts && i <= j)
  }

  ghost predicate NoneCrosses(a: Alert, trades: seq<Trade>) {
    forall t :: t in trades ==> !Crossed(a, t)
  }

  // How putting one more trade in front of a batch changes its first crossing.
  function EarlierOf(a: Alert, t: Trade, rest: Option<Trade>): Option<Trade> {
    if !Crossed(a, t) then rest
    else if rest.Some? && rest.value.ts < t.ts then rest
    else Some(t)
  }

  lemma {:induction false} FirstCrossingIn(a: Alert, trades: seq<Trade>)
    ensures match FirstCrossing(a, trades)
            case None => NoneCrosses(a, trades)
            case Some(t) => t in trades && Crossed(a, t)
  {
    if trades != [] { FirstCrossingIn(a, trades[1..]); }
  }

  lemma {:induction false} FirstCrossingInsert(a: Alert, t: Trade, sorted: seq<Trade>)
    requires Sorted(NotLater, sorted)
    ensures FirstCrossing(a, Insert(NotLater, t, sorted)) == EarlierOf(a, t, FirstCrossing(a, sorted))
  {
    if sorted != [] {
      if NotLater(t, sorted[0]) {
        FirstCrossingIn(a, sorted);
        assert ([t] + sorted)[1..] == sorted;
        assert forall u :: u in sorted ==> NotLater(sorted[0], u);
      } else {
        FirstCrossingInsert(a, t, sorted[1..]);
      }
    }
  }

  ghost predicate IsEarliestCrossing(a: Alert, trades: seq<Trade>, r: Option<Trade>) {
    match r
    case None => NoneCrosses(a, trades)
    case Some(t) => exists i: nat :: IsTrigger(a, trades, i) && t == trades[i]
  }

  lemma EarlierOfIsEarliest(a: Alert, t: Trade, rest: seq<Trade>, r: Option<Trade>)
    requires IsEarliestCrossing(a, rest, r)
    ensures IsEarliestCrossing(a, [t] + rest, EarlierOf(a, t, r))
  {
    var trades := [t] + rest;
    assert trades[0] == t && forall j :: 0 < j < |trades| ==> trades[j] == rest[j - 1] && trades[j] in rest;
    if r.Some? {
      var i: nat :| IsTrigger(a, rest, i) && r.value == rest[i];
      if Crossed(a, t) && t.ts <= r.value.ts {
        assert IsTrigger(a, trades, 0);
      } else {
        assert trades[i + 1] == rest[i];
        assert IsTrigger(a, trades, i + 1);
      }
    } else if Crossed(a, t) {
      assert IsTrigger(a, trades, 0);
    }
  }

  /** The earliest crossing by trade time is chosen, whatever order the batch
      is in; among crossings at the same instant, the one listed first. */
  lemma {:induction false} TriggerIsEarliest(a: Alert, trades: seq<Trade>)
    ensures IsEarliestCrossing(a, trades, Trigger(a, trades))
  {
    if trades != [] {
      var rest := trades[1..];
      TriggerIsEarliest(a, rest);
      SortSorted(NotLater, rest);
      FirstCrossingInsert(a, trades[0], Sort(NotLater, rest));
      EarlierOfIsEarliest(a, trades[0], rest, Trigger(a, rest));
      assert trades == [trades[0]] + rest;
    }
  }

  // --- What crossing a threshold means ---------------------------------------

  // The stamp an alert takes of a batch, in prices: that of a trade of its symbol
  // at the threshold or past it, before which (by time) all trades of the symbol
  // were short of it; none if all of them are.
  ghost predicate StampsReach(a: Alert, batch: seq<Trade>, stamp: Option<Stamp>) {
    var mine := Select(Of(a.symbol), batch);
    match stamp
    case None => forall u :: u in mine ==> if a.direction.Rising? then u.price < a.threshold else a.threshold < u.price
    case Some(st) =>
      && (exists t :: t in mine && t.ts == st.ts && t.price == st.price)
      && (if a.direction.Rising? then a.threshold <= st.price else st.price <= a.threshold)
      && forall u :: u in mine && u.ts < st.ts ==>
           if a.direction.Rising? then u.price < a.threshold else a.threshold < u.price
  }

  lemma TriggerReaches(a: Alert, batch: seq<Trade>, i: nat)
    requires IsTrigger(a, batch, i)
    ensures StampsReach(a, batch, Some(Stamp(batch[i].ts, batch[i].price)))
  {
    var mine := Select(Of(a.symbol), batch);
    assert batch[i] in mine;
    forall u | u in mine && u.ts < batch[i].ts ensures !Crossed(a, u) {
      var j :| 0 <= j < |batch| && batch[j] == u;
    }
  }

  lemma NoneReaches(a: Alert, batch: seq<Trade>)
    ensures NoneCrosses(a, batch) <==> StampsReach(a, batch, None)
  {
    var mine := Select(Of(a.symbol), batch);
    forall t | t in batch ensures t.symbol == a.symbol <==> t in mine {}
  }

  lemma TriggerStamps(a: Alert, batch: seq<Trade>)
    ensures var t := Trigger(a, batch);
            StampsReach(a, batch, if t.Some? then Some(Stamp(t.value.ts, t.value.price)) else None)
  {
    TriggerIsEarliest(a, batch);
    NoneReaches(a, batch);
    if Trigger(a, batch).Some? {
      var i: nat :| IsTrigger(a, batch, i) && Trigger(a, batch).value == batch[i];
      TriggerReaches(a, batch, i);
    }
  }

  lemma HighestShort(mine: seq<Trade>, threshold: real)
    requires mine != []
    ensures (forall u :: u in mine ==> u.price < threshold) <==> High(mine) < threshold
  {
    assert IsHigh(High(mine), mine);
    var top :| top in mine && top.price == High(mine);
  }

  lemma LowestShort(mine: seq<Trade>, threshold: real)
    requires mine != []
    ensures (forall u :: u in mine ==> threshold < u.price) <==> threshold < Low(mine)
  {
    assert IsLow(Low(mine), mine);
    var bottom :| bottom in mine && bottom.price == Low(mine);
  }

  /** A rising alert is set off exactly when the highest price of its symbol in the
      batch is at its threshold or above, a falling one when the lowest is there
      or below; and it is stamped by the first trade that is. */
  lemma {:induction false} TriggerByExtreme(a: Alert, batch: seq<Trade>)
    ensures var mine, t := Select(Of(a.symbol), batch), Trigger(a, batch);
            && (t.Some? <==> mine != [] && match a.direction
                                           case Rising => High(mine) >= a.threshold
                                           case Falling => Low(mine) <= a.threshold)
            && StampsReach(a, batch, if t.Some? then Some(Stamp(t.value.ts, t.value.price)) else None)
  {
    var mine, t := Select(Of(a.symbol), batch), Trigger(a, batch);
    TriggerStamps(a, batch);
    if mine != [] {
      HighestShort(mine, a.threshold);
      LowestShort(mine, a.threshold);
    }
    TriggerIsEarliest(a, batch);
    NoneReaches(a, batch);
    if t.Some? { assert t.value in mine; }
  }

  lemma TriggerPermuted(a: Alert, xs: seq<Trade>, ys: seq<Trade>)
    requires multiset(xs) == multiset(ys) && DistinctTimes(xs)
    ensures Trigger(a, xs) == Trigger(a, ys)
  {
    TriggerIsEarliest(a, xs);
    TriggerIsEarliest(a, ys);
    forall t ensures t in xs <==> t in ys {
      assert t in xs <==> t in multiset(xs);
      assert t in ys <==> t in multiset(ys);
    }
    if Trigger(a, xs).Some? && Trigger(a, ys).Some? {
      var t, u := Trigger(a, xs).value, Trigger(a, ys).value;
      assert t in xs && u in xs && t in ys && u in ys;
    }
  }

  function Triggered(alerts: seq<PendingAlert>, trades: seq<Trade>): seq<Firing> {
    if alerts == [] then []
    else
      var front := Triggered(alerts[..|alerts| - 1], trades);
      var last := alerts[|alerts| - 1];
      match Trigger(last.alert, trades)
      case None => front
      case Some(t) => front + [Firing(last.id, t.price, t.ts)]
  }

  // The alert fired with its earliest crossing.
  ghost predicate FiringOf(f: Firing, p: PendingAlert, trades: seq<Trade>) {
    f.id == p.id && StampsReach(p.alert, trades, Some(Stamp(f.ts, f.price))) &&
    exists i: nat :: IsTrigger(p.alert, trades, i) && f.price == trades[i].price && f.ts == trades[i].ts
  }

  // `from` lists, in order, the alerts that fired.
  ghost predicate Selects(from: seq<nat>, alerts: seq<PendingAlert>, trades: seq<Trade>, fired: seq<Firing>) {
    && |from| == |fired|
    && (forall k, l :: 0 <= k < l < |from| ==> from[k] < from[l])
    && (forall k :: 0 <= k < |from| ==> from[k] < |alerts| && FiringOf(fired[k], alerts[from[k]], trades))
    && (forall i :: 0 <= i < |alerts| && i !in from ==> StampsReach(alerts[i].alert, trades, None))
  }

  lemma SelectsExtend(from: seq<nat>, front: seq<PendingAlert>, p: PendingAlert, trades: seq<Trade>, fired: seq<Firing>)
    requires Selects(from, front, trades, fired)
    ensures StampsReach(p.alert, trades, None) ==> Selects(from, front + [p], trades, fired)
    ensures forall f :: FiringOf(f, p, trades) ==> Selects(from + [|front|], front + [p], trades, fired + [f])
  {
    var alerts := front + [p];
    forall k | 0 <= k < |from| ensures alerts[from[k]] == front[from[k]] {}
    assert forall i :: i in from + [|front|] <==> i in from || i == |front|;
  }

  /** Exactly the crossed alerts come back, once each and in alert order. */
  lemma {:induction false} TriggeredSelects(alerts: seq<PendingAlert>, trades: seq<Trade>)
    ensures exists from: seq<nat> :: Selects(from, alerts, trades, Triggered(alerts, trades))
  {
    if alerts == [] {
      var none: seq<nat> := [];
      assert Selects(none, alerts, trades, Triggered(alerts, trades));
    } else {
      var front, p := alerts[..|alerts| - 1], alerts[|alerts| - 1];
      TriggeredSelects(front, trades);
      TriggerIsEarliest(p.alert, trades);
      TriggerStamps(p.alert, trades);
      var from: seq<nat> :| Selects(from, front, trades, Triggered(front, trades));
      SelectsExtend(from, front, p, trades, Triggered(front, trades));
      assert alerts == front + [p];
      match Trigger(p.alert, trades)
      case None =>
        assert Selects(from, alerts, trades, Triggered(alerts, trades));
      case Some(t) =>
        assert FiringOf(Firing(p.id, t.price, t.ts), p, trades);
        assert Selects(from + [|front|], alerts, trades, Triggered(alerts, trades));
    }
  }

  /** With distinct trade times the order of the batch does not matter. */
  lemma {:induction false} TriggeredPermuted(alerts: seq<PendingAlert>, xs: seq<Trade>, ys: seq<Trade>)
    requires multiset(xs) == multiset(ys) && DistinctTimes(xs)
    ensures Triggered(alerts, xs) == Triggered(alerts, ys)
  {
    if alerts != [] {
      TriggeredPermuted(alerts[..|alerts| - 1], xs, ys);
      TriggerPermuted(alerts[|alerts| - 1].alert, xs, ys);
    }
  }

  /** find_triggered's loop over the pending alerts. */
  method FindTriggered(alerts: seq<PendingAlert>, trades: seq<Trade>) returns (fired: seq<Firing>)
    ensures fired == Triggered(alerts, trades)
    ensures exists from: seq<nat> :: Selects(from, alerts, trades, fired)
  {
    var inTimeOrder := Sort(NotLater, trades);
    fired := [];
    for n := 0 to |alerts|
      invariant fired == Triggered(alerts[..n], trades)
    {
      assert alerts[..n + 1][..n] == alerts[..n];
      var first := FirstCrossing(alerts[n].alert, inTimeOrder);
      if first.Some? {
        fired := fired + [Firing(alerts[n].id, first.value.price, first.value.ts)];
      }
    }
    assert alerts[..|alerts|] == alerts;
    TriggeredSelects(alerts, trades);
  }

  // --- The alert table -------------------------------------------------------

  // What a committed check of a batch leaves of one alert.
  function Settle(a: Alert, trades: seq<Trade>): Alert {
    var t := Trigger(a, trades);
    if a.fired.None? && t.Some? then a.(fired := Some(Stamp(t.value.ts, t.value.price))) else a
  }

  // Reading the pending alerts and stamping those that fired, as one transaction.
  function Check(table: Table, trades: seq<Trade>): (r: Table)
    ensures r.Keys == table.Keys
  {
    map id | id in table :: Settle(table[id], trades)
  }

  // The api creates and deletes alerts; the stream checks batches against them.
  datatype Change =
    | Created(id: int, alert: Alert)
    | Deleted(id: int)
    | Checked(batch: seq<Trade>, committed: bool)

  function Apply(table: Table, c: Change): Table {
    match c
    case Created(id, alert) => if id in table then table else table[id := alert.(fired := None)]
    case Deleted(id) => table - {id}
    case Checked(batch, committed) => if committed && batch != [] then Check(table, batch) else table
  }

  ghost predicate StampedBy(stamp: Option<Stamp>, a: Alert, batch: seq<Trade>) {
    StampsReach(a, batch, stamp) &&
    exists i: nat :: IsTrigger(a, batch, i) && stamp == Some(Stamp(batch[i].ts, batch[i].price))
  }

  lemma CheckStamps(table: Table, batch: seq<Trade>, id: int)
    requires id in table && table[id].fired.None?
    ensures NoneCrosses(table[id], batch) ==> Check(table, batch)[id] == table[id]
    ensures !NoneCrosses(table[id], batch) ==> StampedBy(Check(table, batch)[id].fired, table[id], batch)
    ensures Check(table, batch)[id].(fired := None) == table[id]
  {
    TriggerIsEarliest(table[id], batch);
    FirstCrossingIn(table[id], Sort(NotLater, batch));
    if Trigger(table[id], batch).Some? {
      var i: nat :| IsTrigger(table[id], batch, i) && Trigger(table[id], batch).value == batch[i];
      TriggerReaches(table[id], batch, i);
    }
  }

  lemma CheckKeepsFired(table: Table, batch: seq<Trade>, id: int)
    requires id in table && table[id].fired.Some?
    ensures Check(table, batch)[id] == table[id]
  {}
}
