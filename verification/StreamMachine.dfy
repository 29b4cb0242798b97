/** The stream process as a state machine: a socket thread that puts trades on
    a queue and then counts them, and a flush thread that drains the queue into
    Postgres, the Redis hashes and the alert check. Every call that can fail
    may fail at any time, and the two threads, Redis evictions, the api and
    restarts of the process interleave freely between the steps. */
module StreamMachine {
  import opened Trades
  import opened LivePrices
  import A = Alerts

  // --- Values --------------------------------------------------------------

  const TRADE := "trade"
  const FAILED := "failed"
  const CLOSED := "closed"

  datatype Detail = Nothing | Number(n: nat) | Text(text: string)

  // The fields of SocketEvents.
  datatype Events = Events(lastMessageAt: Option<int>, lastTradeAt: Option<int>,
                           tradesSeen: nat, error: Option<Detail>, closed: bool)
  {
    function Record(kind: string, detail: Detail, now: int): Events {
      var stamped := this.(lastMessageAt := Some(now));
      if kind == TRADE && detail.Number? && detail.n > 0 then
        stamped.(lastTradeAt := Some(now), tradesSeen := tradesSeen + detail.n)
      else if kind == FAILED then stamped.(error := Some(detail))
      else if kind == CLOSED then stamped.(closed := true)
      else stamped
    }
  }

  const QUIET := Events(None, None, 0, None, false)

  // A message whose trades the socket thread is putting on the queue.
  datatype Message = Message(kind: string, unput: seq<Trade>, put: nat)

  // The counters of one stream_sessions row.
  datatype Session = Session(tradesReceived: int, rowsWritten: int,
                             lastMessageAt: Option<int>, lastTradeAt: Option<int>)
  {
    // HEARTBEAT_SQL
    function Beat(trades: int, rows: int, messageAt: Option<int>, tradeAt: Option<int>): Session {
      Session(tradesReceived + trades, rowsWritten + rows,
              Greatest(lastMessageAt, messageAt), Greatest(lastTradeAt, tradeAt))
    }
  }

  // SQL's GREATEST ignores NULL.
  function Greatest(a: Option<int>, b: Option<int>): Option<int> {
    if a.None? then b else if b.None? then a
    else if a.value < b.value then b else a
  }

  // Where the flush thread is inside one pass of its loop.
  datatype Phase =
    | Sleeping
    | Drained(batch: seq<Trade>)
    | Loaded(batch: seq<Trade>, stored: Option<Stored>)
    | Counted(batch: seq<Trade>, stored: Option<Stored>, seen: nat)
    | Committed(batch: seq<Trade>, stored: Option<Stored>)
    | Unchecked(batch: seq<Trade>)
    | Tested
    | Ended

  // History, read by no step of the program. ---------------------------------

  // What the hash of a symbol is worth: it equals the day's aggregate; it
  // misses committed trades of its day; or it was merged with trades of
  // another day and is worth nothing.
  datatype Trust = Exact | Short | Mixed

  datatype Batch = Batch(trades: seq<Trade>, committed: bool)

  datatype Log = Log(
    // this session
    enqueued: seq<Trade>,         // everything put on the queue
    drained: seq<Batch>,          // everything taken off it
    base: nat,                    // rows stored before the session
    flightAtRead: nat,            // trades put but not counted at the last read of the counter,
    flight: nat,                  // and at the read the last heartbeat reported
    // all sessions
    trust: map<string, Trust>,    // of every hash
    loadTrust: map<string, Trust>,// of what the last load returned
    lagging: set<string>,         // hashes not rewritten since a batch with their symbol was committed
    ordered: bool)                // no committed trade was older than a stored one of its symbol

  datatype State = State(
    events: Events, inflight: Option<Message>, queue: seq<Trade>,
    phase: Phase, needsReseed: bool, reported: nat,
    raw: seq<Trade>, sessions: seq<Session>, alerts: A.Table, redis: map<string, Hash>,
    log: Log)

  const INITIAL := State(QUIET, None, [], Ended, true, 0, [], [], map[], map[],
                         Log([], [], 0, 0, 0, map[], map[], {}, true))

  datatype SaveResult = Saved | Lost(applied: bool)

  datatype Step =
    // socket thread
    | Receive(kind: string, trades: seq<Trade>)
    | Put
    | Count(now: int)
    | Callback(kind: string, detail: Detail, now: int)
    // flush thread
    | Drain
    | Load(ok: bool)
    | ReadSeen
    | Commit(ok: bool)
    | Save(result: SaveResult)
    | CheckAlerts(ok: bool)
    | TestClosed
    // a new session: after the loop ended, or after the process died anywhere
    | Start
    // other processes
    | Evict(keys: set<string>)
    | CreateAlert(id: int, alert: A.Alert)
    | DeleteAlert(id: int)

  // --- The steps -----------------------------------------------------------

  /** One step; a step that its thread cannot take now leaves the state alone. */
  function Next(maxRows: nat, s: State, step: Step): State {
    match step
    case Receive(kind, trades) =>
      if s.inflight.None? && (kind == TRADE || trades == []) then s.(inflight := Some(Message(kind, trades, 0))) else s
    case Put => PutOne(s)
    case Count(now) =>
      if s.inflight.Some? && s.inflight.value.unput == [] then
        s.(inflight := None,
           events := s.events.Record(s.inflight.value.kind, Number(s.inflight.value.put), now))
      else s
    case Callback(kind, detail, now) =>
      if s.inflight.None? && kind != TRADE then s.(events := s.events.Record(kind, detail, now)) else s
    case Drain => if s.phase.Sleeping? then DrainQueue(maxRows, s) else s
    case Load(ok) => if s.phase.Drained? then LoadPrices(s, ok) else s
    case ReadSeen =>
      if s.phase.Loaded? then
        s.(phase := Counted(s.phase.batch, s.phase.stored, s.events.tradesSeen),
           log := s.log.(flightAtRead := if s.inflight.Some? then s.inflight.value.put else 0))
      else s
    case Commit(ok) =>
      if !s.phase.Counted? || s.sessions == [] then s
      else if ok then CommitBatch(s)
      else s.(phase := Unchecked(s.phase.batch))
    case Save(result) => if s.phase.Committed? then SavePrices(s, result) else s
    case CheckAlerts(ok) =>
      if s.phase.Unchecked? then
        s.(phase := Tested, alerts := A.Apply(s.alerts, A.Checked(s.phase.batch, ok)))
      else s
    case TestClosed =>
      if s.phase.Tested? then s.(phase := if s.events.closed then Ended else Sleeping) else s
    case Start => StartSession(s)
    case Evict(keys) =>
      s.(redis := s.redis - keys,
         log := s.log.(trust := s.log.trust - keys, lagging := s.log.lagging - keys))
    case CreateAlert(id, alert) => s.(alerts := A.Apply(s.alerts, A.Created(id, alert)))
    case DeleteAlert(id) => s.(alerts := A.Apply(s.alerts, A.Deleted(id)))
  }

  function PutOne(s: State): State {
    match s.inflight
    case None => s
    case Some(m) =>
      if m.unput == [] then s
      else s.(inflight := Some(m.(unput := m.unput[1..], put := m.put + 1)),
              queue := s.queue + [m.unput[0]],
              log := s.log.(enqueued := s.log.enqueued + [m.unput[0]]))
  }

  function Taken(maxRows: nat, queue: seq<Trade>): seq<Trade> {
    queue[..if |queue| < maxRows then |queue| else maxRows]
  }

  function DrainQueue(maxRows: nat, s: State): State {
    var batch := Taken(maxRows, s.queue);
    s.(queue := s.queue[|batch|..],
       phase := Drained(batch),
       log := s.log.(drained := s.log.drained + [Batch(batch, false)]))
  }

  // The hash of symbol x is kept: Redis was read and holds it for the day.
  predicate KeptIn(redis: map<string, Hash>, reseed: bool, x: string, day: int) {
    !reseed && x in redis && redis[x].stats.day == day
  }

  predicate Kept(s: State, x: string, day: int) { KeptIn(s.redis, s.needsReseed, x, day) }

  // What load_live_prices returns when nothing fails.
  function LoadOf(redis: map<string, Hash>, raw: seq<Trade>, reseed: bool, batch: seq<Trade>): Stored
    requires batch != []
  {
    map x | x in Symbols(batch) ::
      if KeptIn(redis, reseed, x, BatchDay(batch)) then Some(redis[x].stats) else ReadDayStats(raw, x, BatchDay(batch))
  }

  function LoadPrices(s: State, ok: bool): State
    requires s.phase.Drained?
  {
    var batch := s.phase.batch;
    if batch == [] then s.(phase := Loaded(batch, Some(map[])), log := s.log.(loadTrust := map[]))
    else if !ok then s.(phase := Loaded(batch, None))
    else
      var trust := map x | x in Symbols(batch) ::
          if Kept(s, x, BatchDay(batch)) && x in s.log.trust then s.log.trust[x] else Exact;
      s.(phase := Loaded(batch, Some(LoadOf(s.redis, s.raw, s.needsReseed, batch))),
         log := s.log.(loadTrust := trust))
  }

  function Demoted(t: Trust): Trust { if t == Exact then Short else t }

  // No trade of the batch is older than a stored trade of its symbol.
  predicate NotBefore(rows: seq<Trade>, batch: seq<Trade>) {
    forall t | t in rows :: forall u | u in batch :: t.symbol == u.symbol ==> t.ts <= u.ts
  }

  function CommitBatch(s: State): State
    requires s.phase.Counted? && s.sessions != []
  {
    var batch, n := s.phase.batch, |s.sessions| - 1;
    var session := s.sessions[n].Beat(s.phase.seen - s.reported, |batch|,
                                      s.events.lastMessageAt, s.events.lastTradeAt);
    var trust := map x | x in s.log.trust ::
        if x in s.redis && Select(OnDay(x, s.redis[x].stats.day), batch) != [] then Demoted(s.log.trust[x])
        else s.log.trust[x];
    s.(raw := s.raw + batch,
       sessions := s.sessions[n := session],
       reported := s.phase.seen,
       phase := Committed(batch, s.phase.stored),
       log := s.log.(drained := MarkLast(s.log.drained),
                     flight := s.log.flightAtRead,
                     trust := trust,
                     lagging := s.log.lagging + Symbols(batch) * s.redis.Keys,
                     ordered := s.log.ordered && NotBefore(s.raw, batch)))
  }

  function MarkLast(drained: seq<Batch>): seq<Batch> {
    if drained == [] then []
    else drained[|drained| - 1 := drained[|drained| - 1].(committed := true)]
  }

  // The batch's trades of x all lie on the batch's day.
  predicate OneDayOf(x: string, batch: seq<Trade>)
    requires batch != []
  {
    Select(OnDay(x, BatchDay(batch)), batch) == Select(Of(x), batch)
  }

  function MergedTrust(batch: seq<Trade>, loadTrust: map<string, Trust>): map<string, Trust>
    requires batch != []
  {
    map x | x in Symbols(batch) :: if OneDayOf(x, batch) && x in loadTrust then loadTrust[x] else Mixed
  }

  function SavePrices(s: State, result: SaveResult): State
    requires s.phase.Committed?
  {
    var batch, stored := s.phase.batch, s.phase.stored;
    if batch == [] then s.(phase := Unchecked(batch))
    else if stored.None? || !(Symbols(batch) <= stored.value.Keys) then
      s.(phase := Unchecked(batch), needsReseed := true)
    else if result == Lost(false) then s.(phase := Unchecked(batch), needsReseed := true)
    else
      s.(phase := Unchecked(batch), needsReseed := result != Saved,
         redis := s.redis + MergeAll(stored.value, batch),
         log := s.log.(trust := s.log.trust + MergedTrust(batch, s.log.loadTrust),
                       lagging := s.log.lagging - Symbols(batch)))
  }

  function StartSession(s: State): State {
    s.(events := QUIET, inflight := None, queue := [],
       phase := Sleeping, needsReseed := true, reported := 0,
       sessions := s.sessions + [Session(0, 0, None, None)],
       log := s.log.(enqueued := [], drained := [], base := |s.raw|, flightAtRead := 0, flight := 0))
  }

  // The steps of the socket thread and the api touch nothing of the flush thread's.
  predicate FromOutside(step: Step) {
    step.Receive? || step.Put? || step.Count? || step.Callback? || step.CreateAlert? || step.DeleteAlert?
  }

  // So do evictions, but for the hashes they take.
  predicate ByOthers(step: Step) { FromOutside(step) || step.Evict? }

  predicate OthersOnly(moves: seq<Step>) { forall m :: m in moves ==> ByOthers(m) }

  lemma OutsideFrame(maxRows: nat, s: State, step: Step)
    requires FromOutside(step)
    ensures var s' := Next(maxRows, s, step);
            && s'.phase == s.phase && s'.needsReseed == s.needsReseed && s'.reported == s.reported
            && s'.raw == s.raw && s'.sessions == s.sessions && s'.redis == s.redis
            && s'.log == s.log.(enqueued := s'.log.enqueued)
  {}

  function Run(maxRows: nat, s: State, steps: seq<Step>): State {
    if steps == [] then s
    else Next(maxRows, Run(maxRows, s, steps[..|steps| - 1]), steps[|steps| - 1])
  }

  /** A state the stream can get into. */
  ghost predicate Reachable(maxRows: nat, s: State) {
    exists steps :: s == Run(maxRows, INITIAL, steps)
  }

  lemma {:induction false} RunAppend(maxRows: nat, s: State, xs: seq<Step>, ys: seq<Step>)
    ensures Run(maxRows, s, xs + ys) == Run(maxRows, Run(maxRows, s, xs), ys)
  {
    if ys == [] {
      assert xs + ys == xs;
    } else {
      assert (xs + ys)[..|xs + ys| - 1] == xs + ys[..|ys| - 1];
      RunAppend(maxRows, s, xs, ys[..|ys| - 1]);
    }
  }

  lemma OneMore(maxRows: nat, s: State, moves: seq<Step>, step: Step)
    ensures Run(maxRows, s, moves + [step]) == Next(maxRows, Run(maxRows, s, moves), step)
  {
    assert (moves + [step])[..|moves|] == moves;
  }

  // --- One pass of the flush loop --------------------------------------------

  // What happens around one pass of the loop: the steps others take before each
  // of its own, and which of its calls succeed.
  datatype Tick = Tick(asleep: seq<Step>, loading: seq<Step>, counting: seq<Step>, storing: seq<Step>,
                       saving: seq<Step>, checking: seq<Step>, closing: seq<Step>,
                       loads: bool, commits: bool, result: SaveResult, checks: bool)
  {
    predicate Valid() {
      OthersOnly(asleep) && OthersOnly(loading) && OthersOnly(counting) && OthersOnly(storing)
      && OthersOnly(saving) && OthersOnly(checking) && OthersOnly(closing)
    }

    // The pass as steps of the machine, in three parts.
    function Reads(): seq<Step> { (asleep + [Drain]) + (loading + [Load(loads)]) }

    function Stores(): seq<Step> { (counting + [ReadSeen]) + (storing + [Commit(commits)]) }

    function Saves(): seq<Step> {
      (saving + [Save(result)]) + (checking + [CheckAlerts(checks)]) + (closing + [TestClosed])
    }

    function Steps(): seq<Step> { Reads() + Stores() + Saves() }

    function BeforeCheck(): seq<Step> { Reads() + Stores() + (saving + [Save(result)]) + checking }
  }

  // The batch the pass drains.
  function BatchOf(maxRows: nat, s: State, tick: Tick): seq<Trade> {
    Taken(maxRows, Run(maxRows, s, tick.asleep).queue)
  }

  // What the steps of others leave of a state: all but the socket's side and
  // the alerts, and of the hashes those not evicted.
  ghost predicate Undisturbed(s: State, s': State) {
    && s'.phase == s.phase && s'.needsReseed == s.needsReseed && s'.reported == s.reported
    && s'.raw == s.raw && s'.sessions == s.sessions && s'.log.loadTrust == s.log.loadTrust
    && (forall x :: x in s'.redis ==> x in s.redis && s'.redis[x] == s.redis[x])
    && (forall x :: x in s'.log.trust ==> x in s.log.trust && s'.log.trust[x] == s.log.trust[x])
  }

  lemma OtherStepLeaves(maxRows: nat, s: State, step: Step)
    requires ByOthers(step)
    ensures Undisturbed(s, Next(maxRows, s, step))
  {
    if FromOutside(step) { OutsideFrame(maxRows, s, step); }
  }

  lemma {:induction false} OthersLeave(maxRows: nat, s: State, moves: seq<Step>)
    requires OthersOnly(moves)
    ensures Undisturbed(s, Run(maxRows, s, moves))
  {
    if moves != [] {
      OthersLeave(maxRows, s, moves[..|moves| - 1]);
      OtherStepLeaves(maxRows, Run(maxRows, s, moves[..|moves| - 1]), moves[|moves| - 1]);
    }
  }
}
