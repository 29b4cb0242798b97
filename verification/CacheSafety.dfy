/** What the Redis hashes are worth in every reachable state of the stream:
    never more than Postgres holds, exactly the day's aggregate unless a
    committed batch failed to reach them, and how a reseed repairs them. */
module CacheSafety {
  import opened Trades
  import opened LivePrices
  import opened StreamMachine
  import A = Alerts

  // --- Meaning -------------------------------------------------------------

  ghost predicate ProperPart(part: seq<Trade>, rows: seq<Trade>) {
    multiset(part) < multiset(rows)
  }

  // Statistics of trust `t` for these rows of one symbol and day.
  ghost predicate Covers(t: Trust, st: Option<DayStats>, rows: seq<Trade>, ordered: bool) {
    match t
    case Exact => Seeds(st, rows) && (ordered && st.Some? ==> IsOpen(st.value.open, rows))
    case Short => st.Some? && exists part :: ProperPart(part, rows) && Summarises(st.value, part)
    case Mixed => true
  }

  function DayRows(raw: seq<Trade>, x: string, h: Hash): seq<Trade> { Select(OnDay(x, h.stats.day), raw) }

  // The hash of x is the answer DAY_STATS_SQL gives for its day.
  ghost predicate HashExact(s: State, x: string)
    requires x in s.redis
  {
    Summarises(s.redis[x].stats, DayRows(s.raw, x, s.redis[x]))
  }

  // The hash of x is the aggregate of committed trades of its symbol and day.
  ghost predicate HashSafe(s: State, x: string)
    requires x in s.redis
  {
    exists part :: multiset(part) <= multiset(DayRows(s.raw, x, s.redis[x])) && Summarises(s.redis[x].stats, part)
  }

  // --- Invariant -----------------------------------------------------------

  ghost predicate HashesCovered(redis: map<string, Hash>, raw: seq<Trade>, trust: map<string, Trust>, ordered: bool) {
    trust.Keys == redis.Keys &&
    forall x :: x in redis ==> Covers(trust[x], Some(redis[x].stats), DayRows(raw, x, redis[x]), ordered)
  }

  // What a load returned, relative to the table before the batch.
  ghost predicate StoredCovered(batch: seq<Trade>, stored: Option<Stored>, raw: seq<Trade>,
                                trust: map<string, Trust>, ordered: bool)
  {
    stored.Some? && batch != [] ==>
      && stored.value.Keys == trust.Keys == Symbols(batch)
      && forall x :: x in stored.value ==>
           Covers(trust[x], stored.value[x], Select(OnDay(x, BatchDay(batch)), raw), ordered)
  }

  function Base(raw: seq<Trade>, batch: seq<Trade>): seq<Trade>
    requires |batch| <= |raw|
  {
    raw[..|raw| - |batch|]
  }

  ghost predicate PhaseCovered(s: State) {
    match s.phase
    case Loaded(batch, stored) => StoredCovered(batch, stored, s.raw, s.log.loadTrust, s.log.ordered)
    case Counted(batch, stored, _) => StoredCovered(batch, stored, s.raw, s.log.loadTrust, s.log.ordered)
    case Committed(batch, stored) =>
      && |batch| <= |s.raw| && s.raw == Base(s.raw, batch) + batch
      && StoredCovered(batch, stored, Base(s.raw, batch), s.log.loadTrust, s.log.ordered)
      && (s.log.ordered ==> NotBefore(Base(s.raw, batch), batch))
    case _ => true
  }

  ghost predicate Newest(s: State) {
    s.log.ordered ==> forall x :: x in s.redis && x !in s.log.lagging ==> ShowsLatest(s.redis[x], Select(Of(x), s.raw))
  }

  ghost predicate CacheInv(s: State) {
    && HashesCovered(s.redis, s.raw, s.log.trust, s.log.ordered)
    && PhaseCovered(s)
    && Newest(s)
  }

  // --- Each kind of step keeps it ------------------------------------------

  lemma ProperPartGrows(part: seq<Trade>, rows: seq<Trade>, more: seq<Trade>)
    requires ProperPart(part, rows)
    ensures ProperPart(part + more, rows + more)
  {
    var t :| multiset(part)[t] < multiset(rows)[t];
    assert multiset(part + more)[t] < multiset(rows + more)[t];
  }

  lemma MergeCovers(t: Trust, st: Option<DayStats>, rows: seq<Trade>, mine: seq<Trade>, ordered: bool)
    requires mine != [] && Covers(t, st, rows, ordered)
    requires ordered ==> forall a, b :: a in rows && b in mine ==> a.ts <= b.ts
    ensures Covers(t, Some(Merge(st, mine).stats), rows + mine, ordered)
  {
    match t
    case Exact =>
      MergeExtends(st, rows, mine);
      if ordered && rows != [] {
        assert Earliest(rows).ts <= Earliest(mine).ts;
        MergeOpen(st.value, rows, mine);
      }
    case Short =>
      var part :| ProperPart(part, rows) && Summarises(st.value, part);
      MergeExtends(st, part, mine);
      ProperPartGrows(part, rows, mine);
    case Mixed =>
  }

  // A committed batch with trades of the hash's day leaves it short of them.
  lemma CommitDemotes(t: Trust, st: DayStats, rows: seq<Trade>, extra: seq<Trade>, ordered: bool, ordered': bool)
    requires Covers(t, Some(st), rows, ordered) && (ordered' ==> ordered)
    ensures Covers(if extra == [] then t else Demoted(t), Some(st), rows + extra, ordered')
  {
    if extra == [] {
      assert rows + extra == rows;
    } else {
      assert extra[0] in multiset(extra) && multiset(rows + extra) == multiset(rows) + multiset(extra);
      match t
      case Exact => assert ProperPart(rows, rows + extra);
      case Short =>
        var part :| ProperPart(part, rows) && Summarises(st, part);
        assert ProperPart(part, rows + extra);
      case Mixed =>
    }
  }

  lemma LoadCovers(s: State, ok: bool)
    requires CacheInv(s) && s.phase.Drained?
    ensures CacheInv(LoadPrices(s, ok))
  {
    var batch, s' := s.phase.batch, LoadPrices(s, ok);
    if batch != [] && ok {
      var day, stored := BatchDay(batch), s'.phase.stored.value;
      forall x | x in stored
        ensures Covers(s'.log.loadTrust[x], stored[x], Select(OnDay(x, day), s.raw), s.log.ordered)
      {
        if Kept(s, x, day) {
          assert Covers(s.log.trust[x], Some(s.redis[x].stats), DayRows(s.raw, x, s.redis[x]), s.log.ordered);
        }
      }
    }
  }

  lemma CommitHashes(s: State)
    requires CacheInv(s) && s.phase.Counted? && s.sessions != []
    ensures var s' := CommitBatch(s); HashesCovered(s'.redis, s'.raw, s'.log.trust, s'.log.ordered)
  {
    var batch, s' := s.phase.batch, CommitBatch(s);
    forall x | x in s.redis
      ensures Covers(s'.log.trust[x], Some(s.redis[x].stats), DayRows(s'.raw, x, s.redis[x]), s'.log.ordered)
    {
      var w := OnDay(x, s.redis[x].stats.day);
      SelectAppend(w, s.raw, batch);
      CommitDemotes(s.log.trust[x], s.redis[x].stats, Select(w, s.raw), Select(w, batch),
                    s.log.ordered, s'.log.ordered);
    }
  }

  lemma CommitNewest(s: State)
    requires CacheInv(s) && s.phase.Counted? && s.sessions != []
    ensures Newest(CommitBatch(s))
  {
    var batch, s' := s.phase.batch, CommitBatch(s);
    forall x | s'.log.ordered && x in s.redis && x !in s'.log.lagging
      ensures ShowsLatest(s.redis[x], Select(Of(x), s'.raw))
    {
      SelectAppend(Of(x), s.raw, batch);
      assert forall t :: t in batch ==> t.symbol in Symbols(batch);
      SelectNone(Of(x), batch);
      assert Select(Of(x), s'.raw) == Select(Of(x), s.raw);
    }
  }

  lemma CommitPhase(s: State)
    requires CacheInv(s) && s.phase.Counted? && s.sessions != []
    ensures PhaseCovered(CommitBatch(s))
  {
    assert Base(s.raw + s.phase.batch, s.phase.batch) == s.raw;
  }

  // One symbol of the batch: its merged hash covers the day's rows, batch included.
  lemma MergedCovers(base: seq<Trade>, batch: seq<Trade>, x: string, t: Trust, st: Option<DayStats>, ordered: bool)
    requires batch != [] && x in Symbols(batch) && OneDayOf(x, batch)
    requires Covers(t, st, Select(OnDay(x, BatchDay(batch)), base), ordered)
    requires ordered ==> NotBefore(base, batch)
    ensures Select(Of(x), batch) != []
    ensures var h := Merge(st, Select(Of(x), batch));
            Covers(t, Some(h.stats), DayRows(base + batch, x, h), ordered)
  {
    SelectedDay(batch, x);
    var mine, w := Select(Of(x), batch), OnDay(x, BatchDay(batch));
    assert Latest(mine) in Select(w, batch);
    SelectAppend(w, base, batch);
    MergeCovers(t, st, Select(w, base), mine, ordered);
  }

  // ... and it shows the newest trade of the symbol, when trades arrive in order.
  lemma MergedShowsLatest(base: seq<Trade>, batch: seq<Trade>, x: string, st: Option<DayStats>)
    requires batch != [] && x in Symbols(batch) && NotBefore(base, batch)
    ensures Select(Of(x), batch) != []
    ensures ShowsLatest(Merge(st, Select(Of(x), batch)), Select(Of(x), base + batch))
  {
    SelectedDay(batch, x);
    var mine, before := Select(Of(x), batch), Select(Of(x), base);
    SelectAppend(Of(x), base, batch);
    if before == [] {
      assert before + mine == mine;
    } else {
      assert Latest(before) in base && Latest(mine) in batch;
      MergeLatest(st, before, mine);
    }
  }

  lemma SaveHashes(redis: map<string, Hash>, trust: map<string, Trust>, base: seq<Trade>, batch: seq<Trade>,
                   stored: Stored, loadTrust: map<string, Trust>, ordered: bool)
    requires batch != [] && HashesCovered(redis, base + batch, trust, ordered)
    requires StoredCovered(batch, Some(stored), base, loadTrust, ordered)
    requires ordered ==> NotBefore(base, batch)
    ensures HashesCovered(redis + MergeAll(stored, batch), base + batch, trust + MergedTrust(batch, loadTrust), ordered)
  {
    var redis', trust' := redis + MergeAll(stored, batch), trust + MergedTrust(batch, loadTrust);
    forall x | x in redis'
      ensures Covers(trust'[x], Some(redis'[x].stats), DayRows(base + batch, x, redis'[x]), ordered)
    {
      if x in Symbols(batch) {
        if OneDayOf(x, batch) { MergedCovers(base, batch, x, loadTrust[x], stored[x], ordered); }
      } else {
        assert redis'[x] == redis[x] && trust'[x] == trust[x];
      }
    }
  }

  lemma SaveNewest(redis: map<string, Hash>, base: seq<Trade>, batch: seq<Trade>, stored: Stored, x: string)
    requires batch != [] && Symbols(batch) <= stored.Keys && NotBefore(base, batch)
    requires x in redis && x !in Symbols(batch) ==> ShowsLatest(redis[x], Select(Of(x), base + batch))
    requires x in redis + MergeAll(stored, batch)
    ensures ShowsLatest((redis + MergeAll(stored, batch))[x], Select(Of(x), base + batch))
  {
    if x in Symbols(batch) { MergedShowsLatest(base, batch, x, stored[x]); }
  }

  lemma SaveCovers(s: State, result: SaveResult)
    requires CacheInv(s) && s.phase.Committed?
    ensures CacheInv(SavePrices(s, result))
  {
    var batch, s' := s.phase.batch, SavePrices(s, result);
    if batch == [] || s.phase.stored.None? || result == Lost(false) {
      assert s'.redis == s.redis && s'.log == s.log;
    } else {
      var stored, base := s.phase.stored.value, Base(s.raw, batch);
      SaveHashes(s.redis, s.log.trust, base, batch, stored, s.log.loadTrust, s.log.ordered);
      forall x | s.log.ordered && x in s'.redis && x !in s'.log.lagging
        ensures ShowsLatest(s'.redis[x], Select(Of(x), s.raw))
      {
        SaveNewest(s.redis, base, batch, stored, x);
      }
    }
  }

  lemma StepKeepsCache(maxRows: nat, s: State, step: Step)
    requires CacheInv(s)
    ensures CacheInv(Next(maxRows, s, step))
  {
    match step
    case Load(ok) => if s.phase.Drained? { LoadCovers(s, ok); }
    case Commit(ok) =>
      if ok && s.phase.Counted? && s.sessions != [] {
        CommitHashes(s);
        CommitPhase(s);
        CommitNewest(s);
      }
    case Save(result) => if s.phase.Committed? { SaveCovers(s, result); }
    case _ => if FromOutside(step) { OutsideFrame(maxRows, s, step); }
  }

  lemma {:induction false} RunKeepsCache(maxRows: nat, s: State, steps: seq<Step>)
    requires CacheInv(s)
    ensures CacheInv(Run(maxRows, s, steps))
  {
    if steps != [] {
      RunKeepsCache(maxRows, s, steps[..|steps| - 1]);
      StepKeepsCache(maxRows, Run(maxRows, s, steps[..|steps| - 1]), steps[|steps| - 1]);
    }
  }
}
