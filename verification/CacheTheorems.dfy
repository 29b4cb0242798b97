/** The results about the Redis cache over whole runs. */
module CacheTheorems {
  import opened Trades
  import opened LivePrices
  import opened StreamMachine
  import opened CacheSafety

  // Every committed batch of the run lies within one UTC day.
  ghost predicate OneDayBatches(maxRows: nat, s: State, steps: seq<Step>) {
    forall k :: 0 <= k < |steps| ==> OneDayCommitted(Run(maxRows, s, steps[..k]))
  }

  // A state reached by a run of such batches.
  ghost predicate ReachableByDays(maxRows: nat, s: State) {
    exists steps :: s == Run(maxRows, INITIAL, steps) && OneDayBatches(maxRows, INITIAL, steps)
  }

  ghost predicate OneDayCommitted(s: State) {
    s.phase.Committed? && s.phase.batch != [] ==> OneDay(s.phase.batch)
  }

  lemma OneDayOfAll(batch: seq<Trade>)
    requires batch != [] && OneDay(batch)
    ensures forall x :: OneDayOf(x, batch)
  {
    forall x ensures OneDayOf(x, batch) { SelectSame(OnDay(x, BatchDay(batch)), Of(x), batch); }
  }

  // --- Safety --------------------------------------------------------------

  ghost predicate NoneMixed(trust: map<string, Trust>) {
    forall x :: x in trust ==> trust[x] != Mixed
  }

  lemma MergedUnmixed(batch: seq<Trade>, trust: map<string, Trust>, loadTrust: map<string, Trust>)
    requires batch != [] && OneDay(batch) && loadTrust.Keys == Symbols(batch)
    requires NoneMixed(trust) && NoneMixed(loadTrust)
    ensures NoneMixed(trust + MergedTrust(batch, loadTrust))
  {
    OneDayOfAll(batch);
  }

  lemma SaveKeepsUnmixed(s: State, result: SaveResult)
    requires NoneMixed(s.log.trust) && NoneMixed(s.log.loadTrust) && OneDayCommitted(s)
    requires s.phase.Committed? && PhaseCovered(s)
    ensures NoneMixed(SavePrices(s, result).log.trust)
  {
    if s.phase.batch != [] && s.phase.stored.Some? {
      MergedUnmixed(s.phase.batch, s.log.trust, s.log.loadTrust);
    }
  }

  lemma LoadKeepsUnmixed(s: State, ok: bool)
    requires NoneMixed(s.log.trust) && NoneMixed(s.log.loadTrust) && s.phase.Drained?
    ensures NoneMixed(LoadPrices(s, ok).log.trust) && NoneMixed(LoadPrices(s, ok).log.loadTrust)
  {}

  lemma CommitKeepsUnmixed(s: State)
    requires NoneMixed(s.log.trust) && s.phase.Counted? && s.sessions != []
    ensures NoneMixed(CommitBatch(s).log.trust) && CommitBatch(s).log.loadTrust == s.log.loadTrust
  {}

  lemma OtherKeepsUnmixed(maxRows: nat, s: State, step: Step)
    requires NoneMixed(s.log.trust) && NoneMixed(s.log.loadTrust)
    requires !FromOutside(step) && !step.Save? && !step.Load? && !step.Commit?
    ensures NoneMixed(Next(maxRows, s, step).log.trust) && NoneMixed(Next(maxRows, s, step).log.loadTrust)
  {}

  lemma StepKeepsUnmixed(maxRows: nat, s: State, step: Step)
    requires NoneMixed(s.log.trust) && NoneMixed(s.log.loadTrust)
    requires s.phase.Committed? ==> PhaseCovered(s) && OneDayCommitted(s)
    ensures NoneMixed(Next(maxRows, s, step).log.trust) && NoneMixed(Next(maxRows, s, step).log.loadTrust)
  {
    match step
    case Save(result) => if s.phase.Committed? { SaveKeepsUnmixed(s, result); }
    case Load(ok) => if s.phase.Drained? { LoadKeepsUnmixed(s, ok); }
    case Commit(ok) => if ok && s.phase.Counted? && s.sessions != [] { CommitKeepsUnmixed(s); }
    case _ => if FromOutside(step) { OutsideFrame(maxRows, s, step); } else { OtherKeepsUnmixed(maxRows, s, step); }
  }

  lemma {:induction false} RunStaysUnmixed(maxRows: nat, s: State, steps: seq<Step>)
    requires CacheInv(s) && NoneMixed(s.log.trust) && NoneMixed(s.log.loadTrust)
    requires OneDayBatches(maxRows, s, steps)
    ensures NoneMixed(Run(maxRows, s, steps).log.trust) && NoneMixed(Run(maxRows, s, steps).log.loadTrust)
  {
    if steps != [] {
      var front := steps[..|steps| - 1];
      forall k | 0 <= k < |front| ensures OneDayCommitted(Run(maxRows, s, front[..k])) {
        assert front[..k] == steps[..k];
      }
      RunStaysUnmixed(maxRows, s, front);
      RunKeepsCache(maxRows, s, front);
      StepKeepsUnmixed(maxRows, Run(maxRows, s, front), steps[|steps| - 1]);
    }
  }

  lemma PartIsShorter(part: seq<Trade>, rows: seq<Trade>)
    requires multiset(part) <= multiset(rows)
    ensures |part| <= |rows|
    ensures ProperPart(part, rows) ==> |part| < |rows|
    ensures forall t :: t in part ==> t in rows
  {
    var rest := multiset(rows) - multiset(part);
    assert multiset(rows) == multiset(part) + rest;
    assert |multiset(rows)| == |rows| && |multiset(part)| == |part|;
    forall t | t in part ensures t in rows { assert t in multiset(part); }
    if ProperPart(part, rows) {
      assert rest != multiset{};
    }
  }

  /** The trust the log records is the truth: an Exact hash is the query's
      answer, a Short one misses at least one committed trade. */
  lemma TrustIsTruth(s: State, x: string)
    requires CacheInv(s) && x in s.redis && s.log.trust[x] != Mixed
    ensures HashSafe(s, x)
    ensures HashExact(s, x) <==> s.log.trust[x] == Exact
  {
    var rows := DayRows(s.raw, x, s.redis[x]);
    if s.log.trust[x] == Exact {
      assert multiset(rows) <= multiset(rows) && Summarises(s.redis[x].stats, rows);
    } else {
      var part :| ProperPart(part, rows) && Summarises(s.redis[x].stats, part);
      PartIsShorter(part, rows);
      assert multiset(part) <= multiset(rows);
    }
  }

  // A hash of this trust is the aggregate of committed trades of its symbol and
  // day, and the query's own answer exactly when nothing committed is missing.
  ghost predicate WorthItsTrust(s: State, x: string)
    requires x in s.redis && x in s.log.trust
  {
    s.log.trust[x] != Mixed ==>
      && HashSafe(s, x)
      && (HashExact(s, x) <==> s.log.trust[x] == Exact)
      && var st, rows := s.redis[x].stats, DayRows(s.raw, x, s.redis[x]);
         0 < st.count <= |rows| && st.high <= High(rows) && Low(rows) <= st.low
  }

  /** Under any mix of failed loads, inserts and Redis writes, restarts,
      evictions and interleavings: every hash is the aggregate of committed
      trades of its symbol and day, so Redis never counts a trade Postgres does
      not have, its high never exceeds and its low is never below the table's.
      The exception is a hash merged with trades off its batch's day, and there
      is none while every batch lies within one UTC day. */
  lemma CacheIsSafe(maxRows: nat, s: State)
    requires Reachable(maxRows, s)
    ensures s.log.trust.Keys == s.redis.Keys
    ensures forall x :: x in s.redis ==> WorthItsTrust(s, x)
    ensures ReachableByDays(maxRows, s) ==> NoneMixed(s.log.trust)
  {
    ReachableCache(maxRows, s);
    if ReachableByDays(maxRows, s) { ReachableUnmixed(maxRows, s); }
    forall x | x in s.redis ensures WorthItsTrust(s, x) {
      if s.log.trust[x] != Mixed {
        TrustIsTruth(s, x);
        SafeBounds(s.redis[x].stats, DayRows(s.raw, x, s.redis[x]));
      }
    }
  }

  lemma ReachableCache(maxRows: nat, s: State)
    requires Reachable(maxRows, s)
    ensures CacheInv(s)
  {
    var steps :| s == Run(maxRows, INITIAL, steps);
    RunKeepsCache(maxRows, INITIAL, steps);
  }

  lemma ReachableUnmixed(maxRows: nat, s: State)
    requires ReachableByDays(maxRows, s)
    ensures Reachable(maxRows, s) && NoneMixed(s.log.trust) && NoneMixed(s.log.loadTrust)
  {
    var steps :| s == Run(maxRows, INITIAL, steps) && OneDayBatches(maxRows, INITIAL, steps);
    RunStaysUnmixed(maxRows, INITIAL, steps);
  }

  lemma SafeBounds(st: DayStats, rows: seq<Trade>)
    requires exists part: seq<Trade> :: multiset(part) <= multiset(rows) && Summarises(st, part)
    ensures 0 < st.count <= |rows| && st.high <= High(rows) && Low(rows) <= st.low
  {
    var part: seq<Trade> :| multiset(part) <= multiset(rows) && Summarises(st, part);
    PartIsShorter(part, rows);
    var t :| t in part && t.price == st.high;
    var u :| u in part && u.price == st.low;
    assert t in rows && u in rows;
  }

  // --- Exactness of one symbol ---------------------------------------------

  predicate HasLoaded(s: State) {
    (s.phase.Loaded? || s.phase.Counted? || s.phase.Committed?) && s.phase.stored.Some?
  }

  // A committed batch with a trade of x is on its way to Redis.
  predicate OnItsWay(s: State, x: string) {
    s.phase.Committed? && x in Symbols(s.phase.batch)
  }

  // The hash of x misses at most a batch on its way, and a flush in progress
  // that loaded x loaded exact statistics.
  ghost predicate Trusted(s: State, x: string) {
    && (x in s.log.trust ==> s.log.trust[x] == Exact || OnItsWay(s, x))
    && (x in s.log.lagging ==> OnItsWay(s, x))
    && (HasLoaded(s) && x in s.log.loadTrust ==> s.log.loadTrust[x] == Exact)
  }

  // A committed batch with a trade of x fails to reach Redis.
  predicate Loses(s: State, step: Step, x: string) {
    OnItsWay(s, x) && (step == Start || (step.Save? && (step.result == Lost(false) || s.phase.stored.None?)))
  }

  lemma SaveKeepsTrusted(s: State, result: SaveResult, x: string)
    requires Trusted(s, x) && !Loses(s, Save(result), x) && s.phase.Committed?
    requires s.phase.batch != [] ==> OneDayOf(x, s.phase.batch)
    requires s.phase.batch != [] && s.phase.stored.Some? ==>
               s.phase.stored.value.Keys == s.log.loadTrust.Keys == Symbols(s.phase.batch)
    ensures Trusted(SavePrices(s, result), x)
  {
    var batch, s' := s.phase.batch, SavePrices(s, result);
    SaveLog(s, result);
    if batch != [] && s.phase.stored.Some? && result != Lost(false) {
      MergedWorth(x, batch, s.log.loadTrust);
    }
  }

  // What a write makes of the log.
  lemma SaveLog(s: State, result: SaveResult)
    requires s.phase.Committed?
    requires s.phase.batch != [] && s.phase.stored.Some? ==> Symbols(s.phase.batch) <= s.phase.stored.value.Keys
    ensures var batch, s' := s.phase.batch, SavePrices(s, result);
            && s'.phase == Unchecked(batch) && s'.log.loadTrust == s.log.loadTrust
            && if batch != [] && s.phase.stored.Some? && result != Lost(false) then
                 && s'.log.trust == s.log.trust + MergedTrust(batch, s.log.loadTrust)
                 && s'.log.lagging == s.log.lagging - Symbols(batch)
               else s'.log.trust == s.log.trust && s'.log.lagging == s.log.lagging
  {}

  lemma MergedWorth(x: string, batch: seq<Trade>, loadTrust: map<string, Trust>)
    requires batch != [] && OneDayOf(x, batch) && loadTrust.Keys == Symbols(batch)
    ensures var worth := MergedTrust(batch, loadTrust);
            (x in worth <==> x in Symbols(batch)) && (x in worth ==> worth[x] == loadTrust[x])
  {}

  lemma CommitKeepsTrusted(s: State, x: string)
    requires Trusted(s, x) && s.phase.Counted? && s.sessions != []
    ensures Trusted(CommitBatch(s), x)
  {
    if x in s.redis && x !in Symbols(s.phase.batch) {
      SelectNone(OnDay(x, s.redis[x].stats.day), s.phase.batch);
    }
  }

  lemma LoadKeepsTrusted(s: State, ok: bool, x: string)
    requires Trusted(s, x) && s.phase.Drained?
    ensures Trusted(LoadPrices(s, ok), x)
  {}

  lemma StepKeepsTrusted(maxRows: nat, s: State, step: Step, x: string)
    requires Trusted(s, x) && !Loses(s, step, x)
    requires s.phase.Committed? ==> PhaseCovered(s) && OneDayCommitted(s)
    ensures Trusted(Next(maxRows, s, step), x)
  {
    match step
    case Save(result) =>
      if s.phase.Committed? {
        if s.phase.batch != [] { OneDayOfAll(s.phase.batch); }
        SaveKeepsTrusted(s, result, x);
      }
    case Load(ok) => if s.phase.Drained? { LoadKeepsTrusted(s, ok, x); }
    case Commit(ok) => if ok && s.phase.Counted? && s.sessions != [] { CommitKeepsTrusted(s, x); }
    case _ => if FromOutside(step) { OutsideFrame(maxRows, s, step); } else { OtherKeepsTrusted(maxRows, s, step, x); }
  }

  lemma OtherKeepsTrusted(maxRows: nat, s: State, step: Step, x: string)
    requires Trusted(s, x) && !Loses(s, step, x) && !FromOutside(step) && !step.Save? && !step.Load? && !step.Commit?
    ensures Trusted(Next(maxRows, s, step), x)
  {}

  /** From a state in which the hash of x is exact, or in which a batch with x
      that was seeded from Postgres is on its way, through any run in which no
      committed batch with a trade of x fails to reach Redis: the hash is absent,
      or the query's answer and rewritten since the last such commit, but for the
      moment between a commit and its write. */
  lemma {:induction false} ExactUntilLost(maxRows: nat, s: State, steps: seq<Step>, x: string)
    requires CacheInv(s) && Trusted(s, x) && OneDayBatches(maxRows, s, steps)
    requires forall k :: 0 <= k < |steps| ==> !Loses(Run(maxRows, s, steps[..k]), steps[k], x)
    ensures var s' := Run(maxRows, s, steps);
            && CacheInv(s') && Trusted(s', x)
            && (x in s'.redis ==> (HashExact(s', x) && x !in s'.log.lagging) || OnItsWay(s', x))
  {
    if steps != [] {
      var n := |steps| - 1;
      forall k | 0 <= k < n
        ensures OneDayCommitted(Run(maxRows, s, steps[..n][..k]))
        ensures !Loses(Run(maxRows, s, steps[..n][..k]), steps[..n][k], x)
      {
        assert steps[..n][..k] == steps[..k];
      }
      ExactUntilLost(maxRows, s, steps[..n], x);
      StepKeepsTrusted(maxRows, Run(maxRows, s, steps[..n]), steps[n], x);
      StepKeepsCache(maxRows, Run(maxRows, s, steps[..n]), steps[n]);
    }
    var s' := Run(maxRows, s, steps);
    if x in s'.redis && !OnItsWay(s', x) { TrustIsTruth(s', x); }
  }

  // --- Trades committed in time order ------------------------------------------

  // A batch that is committed holds no trade older than a stored one of its symbol.
  ghost predicate CommitsInOrder(s: State, step: Step) {
    step == Commit(true) && s.phase.Counted? && s.sessions != [] ==> NotBefore(s.raw, s.phase.batch)
  }

  lemma StepOrdered(maxRows: nat, s: State, step: Step)
    ensures Next(maxRows, s, step).log.ordered <==> s.log.ordered && CommitsInOrder(s, step)
  {
    match step
    case Load(ok) => if s.phase.Drained? { assert LoadPrices(s, ok).log.ordered == s.log.ordered; }
    case Save(result) => if s.phase.Committed? { assert SavePrices(s, result).log.ordered == s.log.ordered; }
    case _ =>
  }

  // All the run's committed batches came in that order.
  ghost predicate InTimeOrder(maxRows: nat, s: State, steps: seq<Step>) {
    steps == [] ||
    var front := steps[..|steps| - 1];
    InTimeOrder(maxRows, s, front) && CommitsInOrder(Run(maxRows, s, front), steps[|steps| - 1])
  }

  lemma {:induction false} OrderedIff(maxRows: nat, s: State, steps: seq<Step>)
    ensures Run(maxRows, s, steps).log.ordered <==> s.log.ordered && InTimeOrder(maxRows, s, steps)
  {
    if steps != [] {
      var front := steps[..|steps| - 1];
      OrderedIff(maxRows, s, front);
      StepOrdered(maxRows, Run(maxRows, s, front), steps[|steps| - 1]);
    }
  }

  // --- What the flag is worth ------------------------------------------------

  ghost predicate AllExact(s: State) { forall x :: x in s.redis ==> HashExact(s, x) }

  // With the flag down and no committed batch on its way, every hash is exact.
  ghost predicate FlagMeansExact(s: State) {
    !s.needsReseed && !s.phase.Committed? ==> AllExact(s)
  }

  // A write that lowers the flag after a reseed holds a trade of every symbol
  // whose hash is not exact.
  ghost predicate ReseedCovers(s: State, step: Step) {
    step == Save(Saved) && s.phase.Committed? && s.phase.batch != [] && s.phase.stored.Some? && s.needsReseed ==>
      forall x :: x in s.redis && !HashExact(s, x) ==> x in Symbols(s.phase.batch)
  }

  // While the flag is down no hash is short, but for a batch on its way.
  ghost predicate FlagHonest(s: State) {
    && (!s.needsReseed ==> forall x :: x in s.log.trust && s.log.trust[x] == Short ==> OnItsWay(s, x))
    && (HasLoaded(s) ==> forall x :: x in s.log.loadTrust ==> s.log.loadTrust[x] == Exact)
  }

  lemma LoadKeepsFlag(s: State, ok: bool)
    requires FlagHonest(s) && NoneMixed(s.log.trust) && s.phase.Drained?
    ensures FlagHonest(LoadPrices(s, ok))
  {}

  lemma CommitKeepsFlag(s: State)
    requires FlagHonest(s) && s.phase.Counted? && s.sessions != []
    ensures FlagHonest(CommitBatch(s))
  {
    var s' := CommitBatch(s);
    forall x | !s'.needsReseed && x in s'.log.trust && s'.log.trust[x] == Short ensures OnItsWay(s', x) {
      if x !in Symbols(s.phase.batch) && x in s.redis {
        SelectNone(OnDay(x, s.redis[x].stats.day), s.phase.batch);
      }
    }
  }

  lemma MergedAllExact(batch: seq<Trade>, loadTrust: map<string, Trust>)
    requires batch != [] && OneDay(batch) && loadTrust.Keys == Symbols(batch)
    requires forall x :: x in loadTrust ==> loadTrust[x] == Exact
    ensures forall x :: x in Symbols(batch) ==> MergedTrust(batch, loadTrust)[x] == Exact
  {
    OneDayOfAll(batch);
  }

  // The symbols a lowering write leaves out are those of exact hashes.
  lemma CoversShort(s: State, x: string)
    requires CacheInv(s) && ReseedCovers(s, Save(Saved)) && x in s.log.trust && s.log.trust[x] == Short
    requires s.phase.Committed? && s.phase.batch != [] && s.phase.stored.Some? && s.needsReseed
    ensures x in Symbols(s.phase.batch)
  {
    TrustIsTruth(s, x);
  }

  lemma SaveKeepsFlag(s: State, result: SaveResult)
    requires FlagHonest(s) && s.phase.Committed? && (s.phase.batch != [] ==> OneDay(s.phase.batch))
    requires s.phase.batch != [] && s.phase.stored.Some? ==>
               s.phase.stored.value.Keys == s.log.loadTrust.Keys == Symbols(s.phase.batch)
    requires s.phase.batch != [] && s.phase.stored.Some? && s.needsReseed && result == Saved ==>
               forall x :: x in s.log.trust && s.log.trust[x] == Short ==> x in Symbols(s.phase.batch)
    ensures FlagHonest(SavePrices(s, result))
  {
    var batch, s' := s.phase.batch, SavePrices(s, result);
    if batch == [] {
      assert s'.log == s.log && s'.needsReseed == s.needsReseed;
    } else if !s'.needsReseed {
      MergedAllExact(batch, s.log.loadTrust);
      assert s'.log.trust == s.log.trust + MergedTrust(batch, s.log.loadTrust);
    }
  }

  lemma OtherKeepsFlag(maxRows: nat, s: State, step: Step)
    requires FlagHonest(s) && !FromOutside(step) && !step.Save? && !step.Load? && !step.Commit?
    ensures FlagHonest(Next(maxRows, s, step))
  {
    var s' := Next(maxRows, s, step);
    if step.Evict? {
      assert s'.phase == s.phase;
    } else {
      assert s'.log.trust == s.log.trust && s'.log.loadTrust == s.log.loadTrust;
    }
  }

  lemma StepKeepsFlag(maxRows: nat, s: State, step: Step)
    requires CacheInv(s) && FlagHonest(s) && NoneMixed(s.log.trust) && OneDayCommitted(s) && ReseedCovers(s, step)
    ensures FlagHonest(Next(maxRows, s, step))
  {
    match step
    case Save(result) =>
      if s.phase.Committed? {
        if result == Saved && s.phase.batch != [] && s.phase.stored.Some? && s.needsReseed {
          forall x | x in s.log.trust && s.log.trust[x] == Short ensures x in Symbols(s.phase.batch) {
            CoversShort(s, x);
          }
        }
        SaveKeepsFlag(s, result);
      }
    case Load(ok) => if s.phase.Drained? { LoadKeepsFlag(s, ok); }
    case Commit(ok) => if ok && s.phase.Counted? && s.sessions != [] { CommitKeepsFlag(s); }
    case _ => if FromOutside(step) { OutsideFrame(maxRows, s, step); } else { OtherKeepsFlag(maxRows, s, step); }
  }

  ghost predicate AllCovered(maxRows: nat, steps: seq<Step>) {
    forall k :: 0 <= k < |steps| ==> ReseedCovers(Run(maxRows, INITIAL, steps[..k]), steps[k])
  }

  lemma PrefixOfRun(maxRows: nat, steps: seq<Step>, n: nat)
    requires n <= |steps| && OneDayBatches(maxRows, INITIAL, steps)
    ensures OneDayBatches(maxRows, INITIAL, steps[..n])
    ensures AllCovered(maxRows, steps) ==> AllCovered(maxRows, steps[..n])
  {
    forall k | 0 <= k < n ensures steps[..n][..k] == steps[..k] && steps[..n][k] == steps[k] {}
  }

  lemma {:induction false} RunKeepsFlag(maxRows: nat, steps: seq<Step>)
    requires OneDayBatches(maxRows, INITIAL, steps) && AllCovered(maxRows, steps)
    ensures FlagHonest(Run(maxRows, INITIAL, steps))
  {
    if steps != [] {
      var n := |steps| - 1;
      PrefixOfRun(maxRows, steps, n);
      RunKeepsFlag(maxRows, steps[..n]);
      RunKeepsCache(maxRows, INITIAL, steps[..n]);
      RunStaysUnmixed(maxRows, INITIAL, steps[..n]);
      StepKeepsFlag(maxRows, Run(maxRows, INITIAL, steps[..n]), steps[n]);
    }
  }

  lemma HonestMeansExact(s: State)
    requires CacheInv(s) && NoneMixed(s.log.trust) && FlagHonest(s)
    ensures FlagMeansExact(s)
  {
    forall x | !s.needsReseed && !s.phase.Committed? && x in s.redis ensures HashExact(s, x) { TrustIsTruth(s, x); }
  }

  lemma UncoveredStays(s: State, x: string)
    requires s.phase.Committed? && s.phase.batch != [] && s.phase.stored.Some? && PhaseCovered(s)
    requires x in s.redis && x !in Symbols(s.phase.batch)
    ensures var u := SavePrices(s, Saved);
            !u.needsReseed && u.phase.Unchecked? && u.raw == s.raw && x in u.redis && u.redis[x] == s.redis[x]
  {}

  // A lowering write that leaves out an inexact hash leaves the flag wrong.
  lemma UncoveredShows(s: State, u: State, x: string)
    requires !u.needsReseed && u.phase.Unchecked? && u.raw == s.raw && x in u.redis && x in s.redis
    requires u.redis[x] == s.redis[x] && !HashExact(s, x)
    ensures !FlagMeansExact(u)
  {
    assert !HashExact(u, x);
  }

  lemma StepNeedsCover(maxRows: nat, s: State, step: Step)
    requires CacheInv(s) && NoneMixed(s.log.trust) && FlagMeansExact(Next(maxRows, s, step))
    ensures ReseedCovers(s, step)
  {
    if step == Save(Saved) && s.phase.Committed? && s.phase.batch != [] && s.phase.stored.Some? {
      assert Next(maxRows, s, step) == SavePrices(s, Saved);
      forall x | x in s.redis && !HashExact(s, x) ensures x in Symbols(s.phase.batch) {
        if x !in Symbols(s.phase.batch) {
          UncoveredStays(s, x);
          UncoveredShows(s, SavePrices(s, Saved), x);
        }
      }
    }
  }

  lemma PrefixIsSound(maxRows: nat, steps: seq<Step>, n: nat)
    requires n <= |steps| && OneDayBatches(maxRows, INITIAL, steps)
    ensures var s := Run(maxRows, INITIAL, steps[..n]); CacheInv(s) && NoneMixed(s.log.trust)
  {
    PrefixOfRun(maxRows, steps, n);
    RunKeepsCache(maxRows, INITIAL, steps[..n]);
    RunStaysUnmixed(maxRows, INITIAL, steps[..n]);
  }

  lemma FlagNeedsCover(maxRows: nat, steps: seq<Step>, k: nat)
    requires OneDayBatches(maxRows, INITIAL, steps) && k < |steps|
    requires FlagMeansExact(Run(maxRows, INITIAL, steps[..k + 1]))
    ensures ReseedCovers(Run(maxRows, INITIAL, steps[..k]), steps[k])
  {
    var front, step := steps[..k], steps[k];
    assert steps[..k + 1] == front + [step];
    OneMore(maxRows, INITIAL, front, step);
    PrefixIsSound(maxRows, steps, k);
    StepNeedsCover(maxRows, Run(maxRows, INITIAL, front), step);
  }

  /** Exactly what the flag is worth. In a run of single-day batches a lowered flag
      means at every point that all hashes are exact, but for a batch on its way
      to Redis, if and only if every write that lowers the flag after a reseed
      holds a trade of each symbol whose hash is not exact. */
  lemma FlagMeansExactIff(maxRows: nat, steps: seq<Step>)
    requires OneDayBatches(maxRows, INITIAL, steps)
    ensures (forall k :: 0 <= k <= |steps| ==> FlagMeansExact(Run(maxRows, INITIAL, steps[..k])))
            <==> (forall k :: 0 <= k < |steps| ==> ReseedCovers(Run(maxRows, INITIAL, steps[..k]), steps[k]))
  {
    if AllCovered(maxRows, steps) {
      forall k | 0 <= k <= |steps| ensures FlagMeansExact(Run(maxRows, INITIAL, steps[..k])) {
        PrefixOfRun(maxRows, steps, k);
        RunKeepsFlag(maxRows, steps[..k]);
        PrefixIsSound(maxRows, steps, k);
        HonestMeansExact(Run(maxRows, INITIAL, steps[..k]));
      }
    }
    if forall k :: 0 <= k <= |steps| ==> FlagMeansExact(Run(maxRows, INITIAL, steps[..k])) {
      forall k | 0 <= k < |steps| ensures ReseedCovers(Run(maxRows, INITIAL, steps[..k]), steps[k]) {
        FlagNeedsCover(maxRows, steps, k);
      }
    }
  }
}
