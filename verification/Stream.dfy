/** The stream's objects and methods: the queue, the socket's callbacks, the two
    stores, and the flush loop, each proved to do what the state machine says. */
module Stream {
  import opened Trades
  import opened LivePrices
  import opened StreamMachine
  import A = Alerts

  class TradeQueue {
    var items: seq<Trade>

    constructor ()
      ensures items == []
    {
      items := [];
    }

    method Put(t: Trade)
      modifies this
      ensures items == old(items) + [t]
    {
      items := items + [t];
    }

    // None stands for queue.Empty.
    method GetNowait() returns (r: Option<Trade>)
      modifies this
      ensures old(items) == [] ==> r.None? && items == []
      ensures old(items) != [] ==> r == Some(old(items)[0]) && items == old(items)[1..]
    {
      if items == [] { return None; }
      r := Some(items[0]);
      items := items[1..];
    }
  }

  /** Takes up to maxRows trades off the queue, oldest first, and fewer only when
      it runs empty. */
  method DrainInto(queue: TradeQueue, maxRows: nat) returns (items: seq<Trade>)
    modifies queue
    ensures items == Taken(maxRows, old(queue.items))
    ensures old(queue.items) == items + queue.items
    ensures |items| <= maxRows && (|items| < maxRows ==> queue.items == [])
  {
    items := [];
    while |items| < maxRows
      invariant |items| <= maxRows
      invariant old(queue.items) == items + queue.items
    {
      var next := queue.GetNowait();
      if next.None? { break; }
      items := items + [next.value];
    }
    assert items == Taken(maxRows, old(queue.items));
  }

  class SocketEvents {
    var lastMessageAt: Option<int>
    var lastTradeAt: Option<int>
    var tradesSeen: nat
    var error: Option<Detail>
    var closed: bool

    function View(): Events
      reads this
    {
      Events(lastMessageAt, lastTradeAt, tradesSeen, error, closed)
    }

    constructor ()
      ensures View() == QUIET
    {
      lastMessageAt, lastTradeAt, tradesSeen, error, closed := None, None, 0, None, false;
    }

    method Record(kind: string, detail: Detail, now: int)
      modifies this
      ensures View() == old(View()).Record(kind, detail, now)
    {
      lastMessageAt := Some(now);
      if kind == TRADE && detail.Number? && detail.n > 0 {
        lastTradeAt := lastMessageAt;
        tradesSeen := tradesSeen + detail.n;
      } else if kind == FAILED {
        error := Some(detail);
      } else if kind == CLOSED {
        closed := true;
      }
    }
  }

  class FinnhubSocket {
    const queue: TradeQueue
    const events: SocketEvents
    var inflight: Option<Message>   // how far the thread is inside _on_message

    constructor (queue: TradeQueue, events: SocketEvents)
      ensures this.queue == queue && this.events == events && inflight.None?
    {
      this.queue, this.events, inflight := queue, events, None;
    }

    /** _on_message with nobody in between: every trade is on the queue before
        any is counted. */
    method OnMessage(kind: string, trades: seq<Trade>, now: int)
      modifies queue, events
      ensures queue.items == old(queue.items) + trades
      ensures events.View() == old(events.View()).Record(kind, Number(|trades|), now)
    {
      for i := 0 to |trades|
        invariant queue.items == old(queue.items) + trades[..i]
        invariant events.View() == old(events.View())
      {
        queue.Put(trades[i]);
      }
      events.Record(kind, Number(|trades|), now);
    }
  }

  class Postgres {
    var raw: seq<Trade>
    var sessions: seq<Session>
    var alerts: A.Table

    constructor ()
      ensures raw == [] && sessions == [] && alerts == map[]
    {
      raw, sessions, alerts := [], [], map[];
    }

    method InsertTrades(trades: seq<Trade>) returns (rows: nat)
      modifies this`raw
      ensures raw == old(raw) + trades && rows == |trades|
    {
      if trades == [] { return 0; }
      raw := raw + trades;
      rows := |trades|;
    }

    method StartSession()
      modifies this`sessions
      ensures sessions == old(sessions) + [Session(0, 0, None, None)]
    {
      sessions := sessions + [Session(0, 0, None, None)];
    }

    method Heartbeat(trades: int, rows: int, messageAt: Option<int>, tradeAt: Option<int>)
      requires sessions != []
      modifies this`sessions
      ensures var n := |old(sessions)| - 1;
              sessions == old(sessions)[n := old(sessions)[n].Beat(trades, rows, messageAt, tradeAt)]
    {
      var n := |sessions| - 1;
      sessions := sessions[n := sessions[n].Beat(trades, rows, messageAt, tradeAt)];
    }

    // PENDING_ALERTS_SQL names no order: any listing of the pending alerts.
    method ReadPendingAlerts() returns (pending: seq<A.PendingAlert>)
      ensures IsListing(pending, alerts)
    {
      pending := [];
      var all := Pending(alerts);
      var rest := all;
      while rest != {}
        invariant rest <= all
        invariant forall p :: p in pending <==> p in all - rest
        invariant forall i, j :: 0 <= i < j < |pending| ==> pending[i].id != pending[j].id
        decreases rest
      {
        var p :| p in rest;
        forall i | 0 <= i < |pending| ensures pending[i].id != p.id { assert pending[i] in all - rest; }
        pending := pending + [p];
        rest := rest - {p};
      }
    }

    // MARK_TRIGGERED_SQL, one guarded update per firing.
    method MarkTriggered(fired: seq<A.Firing>)
      modifies this`alerts
      ensures alerts == Marked(old(alerts), fired)
    {
      for n := 0 to |fired|
        invariant alerts == Marked(old(alerts), fired[..n])
      {
        assert fired[..n + 1][..n] == fired[..n];
        var f := fired[n];
        if f.id in alerts && alerts[f.id].fired.None? {
          alerts := alerts[f.id := alerts[f.id].(fired := Some(A.Stamp(f.ts, f.price)))];
        }
      }
      assert fired[..|fired|] == fired;
    }
  }

  function Pending(table: A.Table): set<A.PendingAlert> {
    set id | id in table && table[id].fired.None? :: A.PendingAlert(id, table[id])
  }

  ghost predicate IsListing(pending: seq<A.PendingAlert>, table: A.Table) {
    && (forall p :: p in pending <==> p in Pending(table))
    && (forall i, j :: 0 <= i < j < |pending| ==> pending[i].id != pending[j].id)
  }

  function Marked(table: A.Table, fired: seq<A.Firing>): A.Table {
    if fired == [] then table
    else
      var front, f := Marked(table, fired[..|fired| - 1]), fired[|fired| - 1];
      if f.id in front && front[f.id].fired.None? then
        front[f.id := front[f.id].(fired := Some(A.Stamp(f.ts, f.price)))]
      else front
  }

  class Redis {
    var hashes: map<string, Hash>

    constructor ()
      ensures hashes == map[]
    {
      hashes := map[];
    }

    /** Per symbol what is stored, None where nothing is. */
    method ReadLivePrices(symbols: set<string>) returns (stored: Stored)
      ensures stored == map x | x in symbols :: if x in hashes then Some(hashes[x].stats) else None
    {
      stored := map[];
      var rest := symbols;
      while rest != {}
        invariant rest <= symbols
        invariant stored == map x | x in symbols - rest :: if x in hashes then Some(hashes[x].stats) else None
        decreases rest
      {
        var x :| x in rest;
        stored := stored[x := if x in hashes then Some(hashes[x].stats) else None];
        rest := rest - {x};
      }
      assert symbols - rest == symbols;
    }

    /** One HSET per symbol; each replaces every field. */
    method WriteLivePrices(values: map<string, Hash>)
      modifies this
      ensures hashes == old(hashes) + values
    {
      var rest := values.Keys;
      while rest != {}
        invariant rest <= values.Keys
        invariant hashes == old(hashes) + (map x | x in values.Keys - rest :: values[x])
        decreases rest
      {
        var x :| x in rest;
        hashes := hashes[x := values[x]];
        rest := rest - {x};
      }
      assert (map x | x in values.Keys - rest :: values[x]) == values;
    }
  }

  // --- One alert check -----------------------------------------------------

  lemma MarkedMore(table: A.Table, fired: seq<A.Firing>, f: A.Firing)
    ensures var front := Marked(table, fired);
            Marked(table, fired + [f]) ==
            if f.id in front && front[f.id].fired.None? then
              front[f.id := front[f.id].(fired := Some(A.Stamp(f.ts, f.price)))]
            else front
  {
    assert (fired + [f])[..|fired|] == fired;
  }

  lemma {:induction false} MarkedKeys(table: A.Table, fired: seq<A.Firing>)
    ensures Marked(table, fired).Keys == table.Keys
  {
    if fired != [] { MarkedKeys(table, fired[..|fired| - 1]); }
  }

  // An alert none of the firings is of stays as it is.
  lemma {:induction false} MarkedOthers(table: A.Table, fired: seq<A.Firing>, id: int)
    requires id in table && forall f :: f in fired ==> f.id != id
    ensures id in Marked(table, fired) && Marked(table, fired)[id] == table[id]
  {
    if fired != [] {
      MarkedOthers(table, fired[..|fired| - 1], id);
      assert fired[|fired| - 1] in fired;
    }
  }

  lemma {:induction false} FiringsOf(pending: seq<A.PendingAlert>, trades: seq<Trade>, id: int)
    requires forall p :: p in pending ==> p.id != id
    ensures forall f :: f in A.Triggered(pending, trades) ==> f.id != id
  {
    if pending != [] {
      FiringsOf(pending[..|pending| - 1], trades, id);
      assert pending[|pending| - 1] in pending;
    }
  }

  lemma {:induction false} MarkedAt(table: A.Table, pending: seq<A.PendingAlert>, trades: seq<Trade>, i: nat)
    requires forall j, k :: 0 <= j < k < |pending| ==> pending[j].id != pending[k].id
    requires i < |pending| && pending[i].id in table
    requires table[pending[i].id] == pending[i].alert && pending[i].alert.fired.None?
    ensures var marked := Marked(table, A.Triggered(pending, trades));
            pending[i].id in marked && marked[pending[i].id] == A.Settle(pending[i].alert, trades)
  {
    var n := |pending| - 1;
    var front, last := pending[..n], pending[n];
    var fired, t := A.Triggered(front, trades), A.Trigger(last.alert, trades);
    if i < n { MarkedAt(table, front, trades, i); } else {
      FiringsOf(front, trades, last.id);
      MarkedOthers(table, fired, last.id);
    }
    if t.Some? { MarkedMore(table, fired, A.Firing(last.id, t.value.price, t.value.ts)); }
  }

  lemma MarkedIsCheck(table: A.Table, pending: seq<A.PendingAlert>, trades: seq<Trade>)
    requires IsListing(pending, table)
    ensures Marked(table, A.Triggered(pending, trades)) == A.Check(table, trades)
  {
    var fired := A.Triggered(pending, trades);
    MarkedKeys(table, fired);
    forall id | id in table ensures Marked(table, fired)[id] == A.Settle(table[id], trades) {
      if table[id].fired.None? {
        var p := A.PendingAlert(id, table[id]);
        assert p in Pending(table) && p in pending;
        var i :| 0 <= i < |pending| && pending[i] == p;
        MarkedAt(table, pending, trades, i);
      } else {
        forall p | p in pending ensures p.id != id { assert p in Pending(table); }
        FiringsOf(pending, trades, id);
        MarkedOthers(table, fired, id);
      }
    }
  }

  /** One transaction; when it fails nothing is stamped. Returns how many fired. */
  method CheckAlerts(pg: Postgres, trades: seq<Trade>, ok: bool) returns (count: nat)
    modifies pg`alerts
    ensures pg.alerts == A.Apply(old(pg.alerts), A.Checked(trades, ok))
  {
    if trades == [] || !ok { return 0; }
    var pending := pg.ReadPendingAlerts();
    var fired := A.FindTriggered(pending, trades);
    MarkedIsCheck(pg.alerts, pending, trades);
    pg.MarkTriggered(fired);
    count := |fired|;
  }

  // --- The live prices around one insert -------------------------------------

  // What Redis was read to hold, overlaid with what Postgres answered for the rest.
  lemma OverlayIsLoad(hashes: map<string, Hash>, raw: seq<Trade>, reseed: bool, symbols: set<string>, day: int,
                      read: Stored, stale: set<string>)
    requires read == if reseed then map[]
                     else map x | x in symbols :: if x in hashes then Some(hashes[x].stats) else None
    requires stale == set x | x in symbols && (x !in read || read[x].None? || read[x].value.day != day)
    ensures read + (map x | x in stale :: ReadDayStats(raw, x, day)) ==
            map x | x in symbols ::
              if KeptIn(hashes, reseed, x, day) then Some(hashes[x].stats) else ReadDayStats(raw, x, day)
  {
    forall x | x in symbols ensures x in stale <==> !KeptIn(hashes, reseed, x, day) {}
  }

  /** None when Redis or Postgres cannot be read: this flush then skips Redis. */
  method LoadLivePrices(redis: Redis, pg: Postgres, trades: seq<Trade>, reseed: bool, ok: bool)
    returns (stored: Option<Stored>)
    ensures stored == if trades == [] then Some(map[])
                      else if ok then Some(LoadOf(redis.hashes, pg.raw, reseed, trades)) else None
  {
    if trades == [] { return Some(map[]); }
    if !ok { return None; }
    var symbols := Symbols(trades);
    var day := BatchDay(trades);
    var read: Stored := map[];
    if !reseed {
      read := redis.ReadLivePrices(symbols);
    }
    var stale := set x | x in symbols && (x !in read || read[x].None? || read[x].value.day != day);
    var seeded: Stored := map x | x in stale :: ReadDayStats(pg.raw, x, day);
    OverlayIsLoad(redis.hashes, pg.raw, reseed, symbols, day, read, stale);
    if stale == {} {
      assert read + seeded == read;
      return Some(read);
    }
    stored := Some(read + seeded);
  }

  /** Writes the merged hashes; a write that reports failure may still have been applied. */
  method SaveLivePrices(redis: Redis, stored: Stored, trades: seq<Trade>, result: SaveResult) returns (ok: bool)
    modifies redis
    ensures ok == (Symbols(trades) <= stored.Keys && result == Saved)
    ensures redis.hashes == if Symbols(trades) <= stored.Keys && result != Lost(false)
                            then old(redis.hashes) + MergeAll(stored, trades) else old(redis.hashes)
  {
    if !(Symbols(trades) <= stored.Keys) || result == Lost(false) { return false; }
    redis.WriteLivePrices(MergeAll(stored, trades));
    ok := result == Saved;
  }
}
