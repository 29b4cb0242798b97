/** What one pass of the flush loop does to the hashes while other threads move
    between its steps: what a reseed repairs, and what one flag for all symbols
    leaves unrepaired. */
module Reseed {
  import opened Trades
  import opened LivePrices
  import opened StreamMachine
  import opened CacheSafety
  import opened CacheTheorems

  // --- The three parts of a pass -------------------------------------------

  // Hashes may be gone, but none is new or different.
  ghost predicate OnlyEvicted(s: State, s': State) {
    forall x :: x in s'.redis ==> x in s.redis && s'.redis[x] == s.redis[x]
  }

  predicate SameSocket(s: State, s': State) {
    s'.queue == s.queue && s'.inflight == s.inflight && s'.events == s.events
  }

  // What the pass holds once the batch is drained and its symbols are loaded.
  ghost predicate HoldsLoad(s: State, l: State, batch: seq<Trade>) {
    && l.phase.Loaded? && l.phase.batch == batch && l.phase.stored.Some?
    && l.phase.stored.value.Keys == Symbols(batch) == l.log.loadTrust.Keys
    && (s.needsReseed ==> forall x :: x in l.log.loadTrust ==> l.log.loadTrust[x] == Exact)
    && l.raw == s.raw && l.sessions == s.sessions && l.needsReseed == s.needsReseed && OnlyEvicted(s, l)
  }

  lemma LoadStep(d: State)
    requires d.phase.Drained?
    ensures HoldsLoad(d, LoadPrices(d, true), d.phase.batch)
    ensures SameSocket(d, LoadPrices(d, true)) && LoadPrices(d, true).redis == d.redis
  {}

  lemma DrainLoad(maxRows: nat, s: State, tick: Tick)
    requires tick.Valid() && tick.loads && s.phase.Sleeping?
    ensures var a, l := Run(maxRows, s, tick.asleep), Run(maxRows, s, tick.Reads());
            var batch := Taken(maxRows, a.queue);
            && HoldsLoad(s, l, batch)
            && (tick.loading == [] ==> SameSocket(a.(queue := a.queue[|batch|..]), l) && l.redis == a.redis)
  {
    var a := Run(maxRows, s, tick.asleep);
    var d := DrainQueue(maxRows, a);
    var m := Run(maxRows, d, tick.loading);
    OthersLeave(maxRows, s, tick.asleep);
    OthersLeave(maxRows, d, tick.loading);
    OneMore(maxRows, s, tick.asleep, Drain);
    OneMore(maxRows, d, tick.loading, Load(true));
    RunAppend(maxRows, s, tick.asleep + [Drain], tick.loading + [Load(tick.loads)]);
    LoadStep(m);
  }

  lemma CommitStep(m: State)
    requires m.phase.Counted? && m.sessions != []
    ensures var c := CommitBatch(m);
            && c.phase == Committed(m.phase.batch, m.phase.stored) && c.raw == m.raw + m.phase.batch
            && c.log.loadTrust == m.log.loadTrust && c.needsReseed == m.needsReseed && c.redis == m.redis
            && c.sessions != [] && SameSocket(m, c)
  {}

  lemma CountCommit(maxRows: nat, l: State, tick: Tick)
    requires tick.Valid() && tick.commits && l.phase.Loaded? && l.sessions != []
    ensures var c := Run(maxRows, l, tick.Stores());
            && c.phase == Committed(l.phase.batch, l.phase.stored) && c.raw == l.raw + l.phase.batch
            && c.log.loadTrust == l.log.loadTrust && c.needsReseed == l.needsReseed
            && c.sessions != [] && OnlyEvicted(l, c)
            && (tick.counting == tick.storing == [] ==> SameSocket(l, c) && c.redis == l.redis)
  {
    var a := Run(maxRows, l, tick.counting);
    var r := Next(maxRows, a, ReadSeen);
    var m := Run(maxRows, r, tick.storing);
    OthersLeave(maxRows, l, tick.counting);
    OthersLeave(maxRows, r, tick.storing);
    OneMore(maxRows, l, tick.counting, ReadSeen);
    OneMore(maxRows, r, tick.storing, Commit(true));
    RunAppend(maxRows, l, tick.counting + [ReadSeen], tick.storing + [Commit(tick.commits)]);
    CommitStep(m);
  }

  // The hashes, their trust and the table, but for evictions.
  ghost predicate SameStore(s: State, s': State) {
    && s'.needsReseed == s.needsReseed && s'.raw == s.raw && s'.sessions == s.sessions && OnlyEvicted(s, s')
    && forall x :: x in s'.log.trust ==> x in s.log.trust && s'.log.trust[x] == s.log.trust[x]
  }

  lemma CheckAndTest(maxRows: nat, u: State, tick: Tick)
    requires tick.Valid() && u.phase.Unchecked?
    ensures var s' := Run(maxRows, u, (tick.checking + [CheckAlerts(tick.checks)]) + (tick.closing + [TestClosed]));
            && SameStore(u, s')
            && (tick.checking == tick.closing == [] ==>
                  SameSocket(u, s') && s'.redis == u.redis && s'.phase == if u.events.closed then Ended else Sleeping)
  {
    var a := Run(maxRows, u, tick.checking);
    var r := Next(maxRows, a, CheckAlerts(tick.checks));
    OthersLeave(maxRows, u, tick.checking);
    OthersLeave(maxRows, r, tick.closing);
    OneMore(maxRows, u, tick.checking, CheckAlerts(tick.checks));
    OneMore(maxRows, r, tick.closing, TestClosed);
    RunAppend(maxRows, u, tick.checking + [CheckAlerts(tick.checks)], tick.closing + [TestClosed]);
  }

  // A batch on its way to Redis whose symbols were all loaded.
  predicate ReadyToSave(c: State) {
    c.phase.Committed? && c.phase.batch != [] && c.phase.stored.Some?
    && Symbols(c.phase.batch) <= c.phase.stored.value.Keys
  }

  // Hashes after a write of `merged`, worth what `worth` says, and maybe evictions.
  ghost predicate Rewritten(redis: map<string, Hash>, redis': map<string, Hash>, trust': map<string, Trust>,
                            merged: map<string, Hash>, worth: map<string, Trust>)
  {
    && (forall x :: x in redis' ==>
          if x in merged then redis'[x] == merged[x] else x in redis && redis'[x] == redis[x])
    && (forall x :: x in trust' && x in worth ==> trust'[x] == worth[x])
  }

  // What the write leaves of the table and the hashes.
  ghost predicate Wrote(c: State, s': State, result: SaveResult)
    requires ReadyToSave(c)
  {
    && s'.raw == c.raw && s'.sessions == c.sessions && s'.needsReseed == (result != Saved)
    && if result == Lost(false) then OnlyEvicted(c, s')
       else Rewritten(c.redis, s'.redis, s'.log.trust,
                      MergeAll(c.phase.stored.value, c.phase.batch), MergedTrust(c.phase.batch, c.log.loadTrust))
  }

  function KeysAfter(c: State, result: SaveResult): set<string>
    requires c.phase.Committed?
  {
    if result == Lost(false) then c.redis.Keys else c.redis.Keys + Symbols(c.phase.batch)
  }

  lemma OverlayRewrites(redis: map<string, Hash>, trust: map<string, Trust>,
                        merged: map<string, Hash>, worth: map<string, Trust>)
    ensures Rewritten(redis, redis + merged, trust + worth, merged, worth)
  {}

  ghost predicate SavedAs(m: State, u: State, result: SaveResult)
    requires ReadyToSave(m)
  {
    var batch := m.phase.batch;
    && u.phase == Unchecked(batch) && SameSocket(m, u)
    && u.raw == m.raw && u.sessions == m.sessions && u.needsReseed == (result != Saved)
    && if result == Lost(false) then u.redis == m.redis
       else && u.redis == m.redis + MergeAll(m.phase.stored.value, batch)
            && u.log.trust == m.log.trust + MergedTrust(batch, m.log.loadTrust)
  }

  lemma SaveFields(m: State, result: SaveResult)
    requires ReadyToSave(m)
    ensures SavedAs(m, SavePrices(m, result), result)
  {}

  lemma SaveWrites(m: State, u: State, result: SaveResult)
    requires ReadyToSave(m) && SavedAs(m, u, result)
    ensures Wrote(m, u, result) && u.redis.Keys == KeysAfter(m, result)
  {
    var batch := m.phase.batch;
    if result != Lost(false) {
      OverlayRewrites(m.redis, m.log.trust, MergeAll(m.phase.stored.value, batch),
                      MergedTrust(batch, m.log.loadTrust));
    }
  }

  lemma SaveRest(maxRows: nat, c: State, tick: Tick)
    requires tick.Valid() && ReadyToSave(c)
    ensures var s' := Run(maxRows, c, tick.Saves());
            && Wrote(c, s', tick.result)
            && (tick.saving == tick.checking == tick.closing == [] ==>
                  && SameSocket(c, s') && s'.phase == (if c.events.closed then Ended else Sleeping)
                  && s'.redis.Keys == KeysAfter(c, tick.result))
  {
    var m := Run(maxRows, c, tick.saving);
    OthersLeave(maxRows, c, tick.saving);
    var u := SavePrices(m, tick.result);
    OneMore(maxRows, c, tick.saving, Save(tick.result));
    SaveFields(m, tick.result);
    SaveWrites(m, u, tick.result);
    CheckAndTest(maxRows, u, tick);
    var check, close := tick.checking + [CheckAlerts(tick.checks)], tick.closing + [TestClosed];
    assert tick.Saves() == (tick.saving + [Save(tick.result)]) + (check + close);
    RunAppend(maxRows, c, tick.saving + [Save(tick.result)], check + close);
  }

  // --- A whole pass ----------------------------------------------------------

  ghost predicate AtRest(s: State) {
    s.phase.Sleeping? && s.sessions != [] && CacheInv(s)
  }

  lemma PassInParts(maxRows: nat, s: State, tick: Tick)
    ensures Run(maxRows, s, tick.Steps()) ==
            Run(maxRows, Run(maxRows, Run(maxRows, s, tick.Reads()), tick.Stores()), tick.Saves())
  {
    RunAppend(maxRows, s, tick.Reads() + tick.Stores(), tick.Saves());
    RunAppend(maxRows, s, tick.Reads(), tick.Stores());
  }

  lemma UpToCommit(maxRows: nat, s: State, tick: Tick)
    requires AtRest(s) && tick.Valid() && tick.loads && tick.commits
    ensures var c, batch := Run(maxRows, Run(maxRows, s, tick.Reads()), tick.Stores()), BatchOf(maxRows, s, tick);
            && c.phase.Committed? && c.phase.batch == batch && c.phase.stored.Some?
            && c.phase.stored.value.Keys == Symbols(batch) == c.log.loadTrust.Keys
            && (s.needsReseed ==> forall x :: x in c.log.loadTrust ==> c.log.loadTrust[x] == Exact)
            && c.raw == s.raw + batch && c.sessions != [] && OnlyEvicted(s, c)
  {
    DrainLoad(maxRows, s, tick);
    CountCommit(maxRows, Run(maxRows, s, tick.Reads()), tick);
  }

  lemma PassEffect(maxRows: nat, s: State, tick: Tick)
    requires AtRest(s) && tick.Valid() && tick.loads && tick.commits && BatchOf(maxRows, s, tick) != []
    ensures var s', batch := Run(maxRows, s, tick.Steps()), BatchOf(maxRows, s, tick);
            && CacheInv(s') && s'.raw == s.raw + batch && s'.sessions != []
            && s'.needsReseed == (tick.result != Saved)
            && (forall x :: x in s'.redis && (x !in Symbols(batch) || tick.result == Lost(false)) ==>
                  x in s.redis && s'.redis[x] == s.redis[x])
            && (tick.result != Lost(false) && s.needsReseed ==>
                  forall x :: x in s'.redis && x in Symbols(batch) && OneDayOf(x, batch) ==> s'.log.trust[x] == Exact)
  {
    var c := Run(maxRows, Run(maxRows, s, tick.Reads()), tick.Stores());
    PassInParts(maxRows, s, tick);
    UpToCommit(maxRows, s, tick);
    SaveRest(maxRows, c, tick);
    RunKeepsCache(maxRows, s, tick.Steps());
  }

  // --- What a reseed repairs -----------------------------------------------

  // A hash of a symbol the batch does not hold stays as exact as it was.
  lemma UntouchedHash(s: State, s': State, batch: seq<Trade>, x: string)
    requires s'.raw == s.raw + batch && x !in Symbols(batch)
    requires x in s.redis && x in s'.redis && s'.redis[x] == s.redis[x]
    ensures HashExact(s', x) <==> HashExact(s, x)
  {
    var w := OnDay(x, s.redis[x].stats.day);
    SelectAppend(w, s.raw, batch);
    assert forall t :: t in batch ==> t.symbol in Symbols(batch);
    SelectNone(w, batch);
    assert Select(w, s.raw) + [] == Select(w, s.raw);
  }

  lemma ReseedOfOne(maxRows: nat, s: State, tick: Tick, x: string)
    requires AtRest(s) && s.needsReseed && tick.Valid() && tick.loads && tick.commits && tick.result == Saved
    requires BatchOf(maxRows, s, tick) != [] && OneDay(BatchOf(maxRows, s, tick))
    requires x in Run(maxRows, s, tick.Steps()).redis
    ensures x in Symbols(BatchOf(maxRows, s, tick)) || x in s.redis
    ensures HashExact(Run(maxRows, s, tick.Steps()), x) <==>
              x in Symbols(BatchOf(maxRows, s, tick)) || HashExact(s, x)
  {
    var s', batch := Run(maxRows, s, tick.Steps()), BatchOf(maxRows, s, tick);
    PassEffect(maxRows, s, tick);
    OneDayOfAll(batch);
    if x in Symbols(batch) { TrustIsTruth(s', x); } else { UntouchedHash(s, s', batch, x); }
  }

  /** A reseed rebuilds the hashes of its own batch and no others, whatever the
      socket, the api and Redis do between its steps: afterwards the flag is
      down, and a hash is exact if its symbol was in the batch or it was exact
      before. So all are exact exactly when the batch held a trade of every
      symbol that was behind and whose hash is still there. */
  lemma ReseedRepairsItsBatch(maxRows: nat, s: State, tick: Tick)
    requires AtRest(s) && s.needsReseed && tick.Valid() && tick.loads && tick.commits && tick.result == Saved
    requires BatchOf(maxRows, s, tick) != [] && OneDay(BatchOf(maxRows, s, tick))
    ensures !Run(maxRows, s, tick.Steps()).needsReseed
    ensures forall x :: x in Run(maxRows, s, tick.Steps()).redis ==>
              && (x in Symbols(BatchOf(maxRows, s, tick)) || x in s.redis)
              && (HashExact(Run(maxRows, s, tick.Steps()), x) <==>
                    x in Symbols(BatchOf(maxRows, s, tick)) || HashExact(s, x))
    ensures AllExact(Run(maxRows, s, tick.Steps())) <==>
              forall x :: x in Run(maxRows, s, tick.Steps()).redis && x in s.redis && !HashExact(s, x) ==>
                x in Symbols(BatchOf(maxRows, s, tick))
  {
    PassEffect(maxRows, s, tick);
    var s' := Run(maxRows, s, tick.Steps());
    forall x | x in s'.redis
      ensures x in Symbols(BatchOf(maxRows, s, tick)) || x in s.redis
      ensures HashExact(s', x) <==> x in Symbols(BatchOf(maxRows, s, tick)) || HashExact(s, x)
    {
      ReseedOfOne(maxRows, s, tick, x);
    }
  }

  lemma SeedingLoad(maxRows: nat, s: State, x: string)
    requires s.phase.Drained? && x in Symbols(s.phase.batch) && !Kept(s, x, BatchDay(s.phase.batch))
    ensures var l := Next(maxRows, s, Load(true));
            && l.phase.Loaded? && l.phase.batch == s.phase.batch && l.sessions == s.sessions
            && x in l.log.loadTrust && l.log.loadTrust[x] == Exact
  {}

  lemma CommitTrusts(maxRows: nat, l: State, tick: Tick, x: string)
    requires l.phase.Loaded? && x in Symbols(l.phase.batch) && l.sessions != [] && tick.Valid() && tick.commits
    requires x in l.log.loadTrust && l.log.loadTrust[x] == Exact
    ensures var c := Run(maxRows, l, tick.Stores()); Trusted(c, x) && OnItsWay(c, x)
  {
    CountCommit(maxRows, l, tick);
  }

  // --- What a pass makes of one hash -----------------------------------------

  // Redis evicts no hash of x among these steps.
  ghost predicate Spares(moves: seq<Step>, x: string) {
    forall m :: m in moves && m.Evict? ==> x !in m.keys
  }

  ghost predicate SameHash(s: State, s': State, x: string) {
    && x in s.redis && x in s'.redis && s'.redis[x] == s.redis[x]
    && (x in s.log.trust ==> x in s'.log.trust && s'.log.trust[x] == s.log.trust[x])
  }

  lemma SparedByStep(maxRows: nat, s: State, step: Step, x: string)
    requires ByOthers(step) && (step.Evict? ==> x !in step.keys) && x in s.redis
    ensures SameHash(s, Next(maxRows, s, step), x)
  {
    if FromOutside(step) { OutsideFrame(maxRows, s, step); }
  }

  lemma {:induction false} SparedStays(maxRows: nat, s: State, moves: seq<Step>, x: string)
    requires OthersOnly(moves) && Spares(moves, x) && x in s.redis
    ensures SameHash(s, Run(maxRows, s, moves), x)
  {
    if moves != [] {
      SparedStays(maxRows, s, moves[..|moves| - 1], x);
      SparedByStep(maxRows, Run(maxRows, s, moves[..|moves| - 1]), moves[|moves| - 1], x);
    }
  }

  // What a load that did not fail holds of a symbol of its batch.
  ghost predicate Holds(l: State, x: string, st: Option<DayStats>, worth: Trust) {
    && l.phase.Loaded? && l.phase.stored.Some? && x in l.phase.stored.value && l.phase.stored.value[x] == st
    && x in l.log.loadTrust && l.log.loadTrust[x] == worth
  }

  lemma KeptLoad(maxRows: nat, m: State, x: string)
    requires m.phase.Drained? && x in Symbols(m.phase.batch) && x in m.log.trust
    requires Kept(m, x, BatchDay(m.phase.batch))
    ensures Holds(Next(maxRows, m, Load(true)), x, Some(m.redis[x].stats), m.log.trust[x])
  {}

  lemma SeededLoad(maxRows: nat, m: State, x: string)
    requires m.phase.Drained? && x in Symbols(m.phase.batch) && !Kept(m, x, BatchDay(m.phase.batch))
    ensures Holds(Next(maxRows, m, Load(true)), x, ReadDayStats(m.raw, x, BatchDay(m.phase.batch)), Exact)
  {}

  // The state a pass loads in, and the load.
  lemma UpToLoad(maxRows: nat, s: State, tick: Tick)
    requires tick.Valid() && tick.loads && s.phase.Sleeping?
    ensures var d := DrainQueue(maxRows, Run(maxRows, s, tick.asleep));
            var m := Run(maxRows, d, tick.loading);
            && Run(maxRows, s, tick.Reads()) == Next(maxRows, m, Load(true))
            && m.phase == Drained(BatchOf(maxRows, s, tick)) && m.needsReseed == s.needsReseed && OnlyEvicted(s, m)
  {
    var a := Run(maxRows, s, tick.asleep);
    var d := DrainQueue(maxRows, a);
    OthersLeave(maxRows, s, tick.asleep);
    OthersLeave(maxRows, d, tick.loading);
    OneMore(maxRows, s, tick.asleep, Drain);
    OneMore(maxRows, d, tick.loading, Load(true));
    RunAppend(maxRows, s, tick.asleep + [Drain], tick.loading + [Load(tick.loads)]);
  }

  lemma KeptAtLoad(maxRows: nat, s: State, tick: Tick, x: string)
    requires AtRest(s) && !s.needsReseed && tick.Valid() && tick.loads
    requires Spares(tick.asleep, x) && Spares(tick.loading, x) && x in Symbols(BatchOf(maxRows, s, tick))
    requires x in s.redis && s.redis[x].stats.day == BatchDay(BatchOf(maxRows, s, tick))
    ensures Holds(Run(maxRows, s, tick.Reads()), x, Some(s.redis[x].stats), s.log.trust[x])
  {
    var d := DrainQueue(maxRows, Run(maxRows, s, tick.asleep));
    SparedStays(maxRows, s, tick.asleep, x);
    SparedStays(maxRows, d, tick.loading, x);
    UpToLoad(maxRows, s, tick);
    KeptLoad(maxRows, Run(maxRows, d, tick.loading), x);
  }

  lemma SeededAtLoad(maxRows: nat, s: State, tick: Tick, x: string)
    requires AtRest(s) && tick.Valid() && tick.loads && x in Symbols(BatchOf(maxRows, s, tick))
    requires !Kept(s, x, BatchDay(BatchOf(maxRows, s, tick)))
    ensures var l := Run(maxRows, s, tick.Reads()); x in l.log.loadTrust && l.log.loadTrust[x] == Exact
  {
    var d := DrainQueue(maxRows, Run(maxRows, s, tick.asleep));
    UpToLoad(maxRows, s, tick);
    SeededLoad(maxRows, Run(maxRows, d, tick.loading), x);
  }

  // From its load on a pass that writes makes of x the merge of what was loaded.
  lemma MergesWhatItLoaded(maxRows: nat, s: State, tick: Tick, x: string)
    requires AtRest(s) && tick.Valid() && tick.loads && tick.commits && tick.result != Lost(false)
    requires x in Symbols(BatchOf(maxRows, s, tick))
    ensures var l, s', batch := Run(maxRows, s, tick.Reads()), Run(maxRows, s, tick.Steps()), BatchOf(maxRows, s, tick);
            && l.phase.Loaded? && l.phase.stored.Some? && x in l.phase.stored.value && x in l.log.loadTrust
            && Select(Of(x), batch) != []
            && (x in s'.redis ==> s'.redis[x] == Merge(l.phase.stored.value[x], Select(Of(x), batch)))
            && (x in s'.log.trust && OneDayOf(x, batch) ==> s'.log.trust[x] == l.log.loadTrust[x])
  {
    var l, batch := Run(maxRows, s, tick.Reads()), BatchOf(maxRows, s, tick);
    SelectedDay(batch, x);
    PassInParts(maxRows, s, tick);
    DrainLoad(maxRows, s, tick);
    CountCommit(maxRows, l, tick);
    SaveRest(maxRows, Run(maxRows, l, tick.Stores()), tick);
  }

  lemma WrittenAt(maxRows: nat, c: State, tick: Tick)
    requires tick.Valid() && tick.result != Lost(false) && ReadyToSave(c)
    ensures var u := Run(maxRows, c, tick.saving + [Save(tick.result)]);
            u.phase.Unchecked? && Symbols(c.phase.batch) <= u.redis.Keys
  {
    var m := Run(maxRows, c, tick.saving);
    OthersLeave(maxRows, c, tick.saving);
    var u := SavePrices(m, tick.result);
    OneMore(maxRows, c, tick.saving, Save(tick.result));
    SaveFields(m, tick.result);
    SaveWrites(m, u, tick.result);
  }

  lemma SparedThenStep(maxRows: nat, u: State, moves: seq<Step>, step: Step, x: string)
    requires OthersOnly(moves) && Spares(moves, x) && x in u.redis && (step.CheckAlerts? || step.TestClosed?)
    ensures x in Run(maxRows, u, moves + [step]).redis
  {
    SparedStays(maxRows, u, moves, x);
    OneMore(maxRows, u, moves, step);
  }

  lemma WrittenStays(maxRows: nat, c: State, tick: Tick, x: string)
    requires tick.Valid() && tick.result != Lost(false) && ReadyToSave(c) && x in Symbols(c.phase.batch)
    requires Spares(tick.checking, x) && Spares(tick.closing, x)
    ensures x in Run(maxRows, c, tick.Saves()).redis
  {
    var save, check := tick.saving + [Save(tick.result)], tick.checking + [CheckAlerts(tick.checks)];
    var close := tick.closing + [TestClosed];
    var u := Run(maxRows, c, save);
    WrittenAt(maxRows, c, tick);
    SparedThenStep(maxRows, u, tick.checking, CheckAlerts(tick.checks), x);
    SparedThenStep(maxRows, Run(maxRows, u, check), tick.closing, TestClosed, x);
    RunAppend(maxRows, c, save, check);
    RunAppend(maxRows, c, save + check, close);
  }

  lemma PassWrites(maxRows: nat, s: State, tick: Tick, x: string)
    requires AtRest(s) && tick.Valid() && tick.loads && tick.commits && tick.result != Lost(false)
    requires x in Symbols(BatchOf(maxRows, s, tick)) && Spares(tick.checking, x) && Spares(tick.closing, x)
    ensures x in Run(maxRows, s, tick.Steps()).redis
  {
    PassInParts(maxRows, s, tick);
    UpToCommit(maxRows, s, tick);
    WrittenStays(maxRows, Run(maxRows, Run(maxRows, s, tick.Reads()), tick.Stores()), tick, x);
  }

  /** With the flag down, a pass adds its batch to the hash Redis holds for the day,
      and does not look at the table: the count grows by the batch's trades of the
      symbol, and a hash that was short before is short after. */
  lemma PassExtendsHash(maxRows: nat, s: State, tick: Tick, x: string)
    requires AtRest(s) && !s.needsReseed && tick.Valid() && tick.loads && tick.commits && tick.result != Lost(false)
    requires x in Symbols(BatchOf(maxRows, s, tick)) && OneDay(BatchOf(maxRows, s, tick))
    requires x in s.redis && s.redis[x].stats.day == BatchDay(BatchOf(maxRows, s, tick))
    requires Spares(tick.asleep, x) && Spares(tick.loading, x) && Spares(tick.checking, x) && Spares(tick.closing, x)
    ensures var s', mine := Run(maxRows, s, tick.Steps()), Select(Of(x), BatchOf(maxRows, s, tick));
            && mine != [] && x in s'.redis && s'.redis[x] == Merge(Some(s.redis[x].stats), mine)
            && s'.redis[x].stats.count == s.redis[x].stats.count + |mine|
            && (s.log.trust[x] != Mixed ==> (HashExact(s', x) <==> HashExact(s, x)))
  {
    var s' := Run(maxRows, s, tick.Steps());
    KeptAtLoad(maxRows, s, tick, x);
    MergesWhatItLoaded(maxRows, s, tick, x);
    PassWrites(maxRows, s, tick, x);
    RunKeepsCache(maxRows, s, tick.Steps());
    OneDayOfAll(BatchOf(maxRows, s, tick));
    if s.log.trust[x] != Mixed {
      TrustIsTruth(s, x);
      TrustIsTruth(s', x);
    }
  }

  /** Any other hash of the batch is rebuilt from the table: where the flag is up,
      or Redis held nothing for the day, the pass leaves the query's answer. So an
      evicted hash, or a restarted Redis, heals with the symbol's next trade. */
  lemma PassRebuildsHash(maxRows: nat, s: State, tick: Tick, x: string)
    requires AtRest(s) && tick.Valid() && tick.loads && tick.commits && tick.result != Lost(false)
    requires x in Symbols(BatchOf(maxRows, s, tick)) && OneDay(BatchOf(maxRows, s, tick))
    requires s.needsReseed || x !in s.redis || s.redis[x].stats.day != BatchDay(BatchOf(maxRows, s, tick))
    requires Spares(tick.checking, x) && Spares(tick.closing, x)
    ensures var s' := Run(maxRows, s, tick.Steps()); x in s'.redis && HashExact(s', x)
  {
    SeededAtLoad(maxRows, s, tick, x);
    MergesWhatItLoaded(maxRows, s, tick, x);
    PassWrites(maxRows, s, tick, x);
    RunKeepsCache(maxRows, s, tick.Steps());
    OneDayOfAll(BatchOf(maxRows, s, tick));
    TrustIsTruth(Run(maxRows, s, tick.Steps()), x);
  }

  /** In particular a hash that Redis evicted, short or not, is right again after the
      next pass with a trade of its symbol. */
  lemma EvictedHashHeals(maxRows: nat, s: State, keys: set<string>, tick: Tick, x: string)
    requires AtRest(s) && x in keys
    requires tick.Valid() && tick.loads && tick.commits && tick.result != Lost(false)
    requires var batch := BatchOf(maxRows, Next(maxRows, s, Evict(keys)), tick); x in Symbols(batch) && OneDay(batch)
    requires Spares(tick.checking, x) && Spares(tick.closing, x)
    ensures var s' := Run(maxRows, s, [Evict(keys)] + tick.Steps()); x in s'.redis && HashExact(s', x)
  {
    var gone := Next(maxRows, s, Evict(keys));
    StepKeepsCache(maxRows, s, Evict(keys));
    PassRebuildsHash(maxRows, gone, tick, x);
    RunAppend(maxRows, s, [Evict(keys)], tick.Steps());
    OneMore(maxRows, s, [], Evict(keys));
    assert [] + [Evict(keys)] == [Evict(keys)];
  }

  /** A load that takes x from Postgres, because of the flag or because Redis held
      nothing for the day, makes x trusted once its batch is committed, whatever
      Redis held before: what Redis lacks is on its way. */
  lemma SeedingLoadTrusts(maxRows: nat, s: State, tick: Tick, x: string)
    requires s.phase.Drained? && x in Symbols(s.phase.batch) && s.sessions != []
    requires !Kept(s, x, BatchDay(s.phase.batch))
    requires tick.Valid() && tick.commits
    ensures var c := Run(maxRows, Next(maxRows, s, Load(true)), tick.Stores());
            Trusted(c, x) && OnItsWay(c, x)
  {
    SeedingLoad(maxRows, s, x);
    CommitTrusts(maxRows, Next(maxRows, s, Load(true)), tick, x);
  }

  // --- One flag for all symbols is not enough --------------------------------

  // An undisturbed pass that receives, stores and checks one trade.
  function TickOf(t: Trade, result: SaveResult): Tick {
    Tick([Receive(TRADE, [t]), Put, Count(0)], [], [], [], [], [], [], true, true, result, true)
  }

  // At rest with nothing received, every hash of day 0.
  ghost predicate Idle(s: State) {
    && AtRest(s) && s.queue == [] && s.inflight.None? && !s.events.closed
    && forall x :: x in s.redis ==> s.redis[x].stats.day == 0
  }

  lemma OneTradeIsOneDay(t: Trade)
    ensures OneDay([t]) && BatchDay([t]) == DateOf(t.ts) && Symbols([t]) == {t.symbol}
    ensures Select(Of(t.symbol), [t]) == [t]
  {
    SelectAll(Of(t.symbol), [t]);
  }

  lemma Received(s: State, t: Trade, result: SaveResult)
    requires Idle(s)
    ensures var a := Run(1, s, TickOf(t, result).asleep);
            a.queue == [t] && a.inflight.None? && !a.events.closed && a.redis == s.redis
  {
    var receive, put := Receive(TRADE, [t]), Next(1, Next(1, s, Receive(TRADE, [t])), Put);
    OneMore(1, s, [], receive);
    OneMore(1, s, [receive], Put);
    OneMore(1, s, [receive, Put], Count(0));
    assert [receive] == [] + [receive] && [receive, Put] == [receive] + [Put];
    assert TickOf(t, result).asleep == [receive, Put] + [Count(0)];
    assert put.inflight == Some(Message(TRADE, [], 1));
  }

  // Such a pass up to its commit.
  lemma Stored(s: State, t: Trade, result: SaveResult)
    requires Idle(s)
    ensures var tick := TickOf(t, result);
            var c := Run(1, Run(1, s, tick.Reads()), tick.Stores());
            && ReadyToSave(c) && c.phase.batch == [t] && c.redis == s.redis
            && c.queue == [] && c.inflight.None? && !c.events.closed
  {
    var tick := TickOf(t, result);
    Received(s, t, result);
    UpToCommit(1, s, tick);
    DrainLoad(1, s, tick);
    CountCommit(1, Run(1, s, tick.Reads()), tick);
  }

  lemma DayZero(c: State, s': State, t: Trade, result: SaveResult, x: string)
    requires ReadyToSave(c) && c.phase.batch == [t] && Wrote(c, s', result) && DateOf(t.ts) == 0
    requires (forall y :: y in c.redis ==> c.redis[y].stats.day == 0) && x in s'.redis
    ensures s'.redis[x].stats.day == 0
  {
    OneTradeIsOneDay(t);
  }

  lemma KeysAfterOne(c: State, t: Trade, result: SaveResult)
    requires c.phase.Committed? && c.phase.batch == [t]
    ensures KeysAfter(c, result) == if result == Lost(false) then c.redis.Keys else c.redis.Keys + {t.symbol}
  {
    assert Symbols([t]) == {t.symbol};
  }

  lemma QuietSave(c: State, t: Trade, result: SaveResult)
    requires ReadyToSave(c) && c.phase.batch == [t] && DateOf(t.ts) == 0
    requires forall y :: y in c.redis ==> c.redis[y].stats.day == 0
    ensures var s' := Run(1, c, TickOf(t, result).Saves());
            && SameSocket(c, s') && s'.phase == (if c.events.closed then Ended else Sleeping)
            && s'.redis.Keys == KeysAfter(c, result)
            && forall x :: x in s'.redis ==> s'.redis[x].stats.day == 0
  {
    var s' := Run(1, c, TickOf(t, result).Saves());
    SaveRest(1, c, TickOf(t, result));
    forall x | x in s'.redis ensures s'.redis[x].stats.day == 0 { DayZero(c, s', t, result, x); }
  }

  // It leaves nothing behind in the queue, and hashes of day 0.
  lemma PassRests(s: State, t: Trade, result: SaveResult)
    requires Idle(s) && DateOf(t.ts) == 0
    ensures var s' := Run(1, s, TickOf(t, result).Steps());
            && s'.phase.Sleeping? && s'.queue == [] && s'.inflight.None? && !s'.events.closed
            && s'.redis.Keys == (if result == Lost(false) then s.redis.Keys else s.redis.Keys + {t.symbol})
            && forall x :: x in s'.redis ==> s'.redis[x].stats.day == 0
  {
    var tick := TickOf(t, result);
    var c := Run(1, Run(1, s, tick.Reads()), tick.Stores());
    Stored(s, t, result);
    PassInParts(1, s, tick);
    QuietSave(c, t, result);
    KeysAfterOne(c, t, result);
  }

  lemma OnePass(s: State, t: Trade, result: SaveResult)
    requires Idle(s) && DateOf(t.ts) == 0
    ensures var s' := Run(1, s, TickOf(t, result).Steps());
            && Idle(s') && s'.raw == s.raw + [t] && s'.needsReseed == (result != Saved)
            && s'.redis.Keys == (if result == Lost(false) then s.redis.Keys else s.redis.Keys + {t.symbol})
            && (forall x :: x in s.redis && (x != t.symbol || result == Lost(false)) ==> s'.redis[x] == s.redis[x])
            && (result == Saved && s.needsReseed ==> s'.log.trust[t.symbol] == Exact)
  {
    Received(s, t, result);
    OneTradeIsOneDay(t);
    OneDayOfAll([t]);
    PassRests(s, t, result);
    PassEffect(1, s, TickOf(t, result));
  }

  lemma OneMoreRow(raw: seq<Trade>, t: Trade, w: Where)
    ensures |Select(w, raw + [t])| == |Select(w, raw)| + if w.Matches(t) then 1 else 0
    ensures !w.Matches(t) ==> Select(w, raw + [t]) == Select(w, raw)
  {
    SelectAppend(w, raw, [t]);
  }

  // A write lost after a commit of its symbol leaves an exact hash one trade short,
  lemma LostWrite(s: State, t: Trade)
    requires Idle(s) && DateOf(t.ts) == 0 && t.symbol in s.redis && HashExact(s, t.symbol)
    ensures var s' := Run(1, s, TickOf(t, Lost(false)).Steps());
            Idle(s') && s'.needsReseed && t.symbol in s'.redis && !HashExact(s', t.symbol)
  {
    OnePass(s, t, Lost(false));
    OneMoreRow(s.raw, t, OnDay(t.symbol, 0));
  }

  // and a pass with another symbol does not repair it.
  lemma OtherPass(s: State, x: string, t: Trade)
    requires Idle(s) && DateOf(t.ts) == 0 && x in s.redis && !HashExact(s, x) && t.symbol != x
    ensures var s' := Run(1, s, TickOf(t, Saved).Steps());
            Idle(s') && !s'.needsReseed && x in s'.redis && !HashExact(s', x)
  {
    OnePass(s, t, Saved);
    OneMoreRow(s.raw, t, OnDay(x, 0));
  }

  lemma FirstPass(s: State, t: Trade)
    requires Idle(s) && DateOf(t.ts) == 0 && s.needsReseed
    ensures var s' := Run(1, s, TickOf(t, Saved).Steps());
            Idle(s') && t.symbol in s'.redis && HashExact(s', t.symbol)
  {
    OnePass(s, t, Saved);
    TrustIsTruth(Run(1, s, TickOf(t, Saved).Steps()), t.symbol);
  }

  lemma Started()
    ensures Run(1, INITIAL, [Start]) == StartSession(INITIAL) && Idle(StartSession(INITIAL))
    ensures StartSession(INITIAL).needsReseed
  {
    assert [Start][..0] == [];
  }

  lemma RunsInTurn(s: State, a: seq<Step>, b: seq<Step>, c: seq<Step>, d: seq<Step>)
    ensures Run(1, s, a + b + c + d) == Run(1, Run(1, Run(1, Run(1, s, a), b), c), d)
  {
    RunAppend(1, s, a, b);
    RunAppend(1, s, a + b, c);
    RunAppend(1, s, a + b + c, d);
  }

  // A state the process can rest in with the flag down and the hash of x wrong.
  ghost predicate FlagDownYetWrong(s: State, x: string) {
    s.phase.Sleeping? && !s.needsReseed && x in s.redis && !HashExact(s, x)
  }

  // The pass that stores a trade and ends with this result.
  function PassOf(t: Trade, result: SaveResult): seq<Step> { TickOf(t, result).Steps() }

  /** The flag is not enough. A symbol's second trade is committed but its
      Redis write fails; the next pass, which holds only a trade of another
      symbol, rebuilds that one and lowers the flag, and the first symbol's
      hash stays one trade short. */
  lemma FlagDownDoesNotMeanExact(first: Trade, second: Trade, other: Trade)
    requires DateOf(first.ts) == DateOf(second.ts) == DateOf(other.ts) == 0
    requires first.symbol == second.symbol != other.symbol
    ensures var steps := [Start] + PassOf(first, Saved) + PassOf(second, Lost(false)) + PassOf(other, Saved);
            FlagDownYetWrong(Run(1, INITIAL, steps), first.symbol)
  {
    Started();
    var s1 := Run(1, StartSession(INITIAL), PassOf(first, Saved));
    FirstPass(StartSession(INITIAL), first);
    LostWrite(s1, second);
    OtherPass(Run(1, s1, PassOf(second, Lost(false))), first.symbol, other);
    RunsInTurn(INITIAL, [Start], PassOf(first, Saved), PassOf(second, Lost(false)), PassOf(other, Saved));
  }
}
