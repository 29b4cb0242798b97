/** Alerts over whole runs of the stream: each fires at most once, at its first
    crossing. */
module AlertRuns {
  import opened Trades
  import opened StreamMachine
  import opened Alerts

  // The k-th step checks, with a commit, a batch that crosses the alert.
  ghost predicate FiresAt(maxRows: nat, s: State, steps: seq<Step>, k: nat, a: Alert) {
    && k < |steps| && steps[k] == CheckAlerts(true)
    && Run(maxRows, s, steps[..k]).phase.Unchecked?
    && !NoneCrosses(a, Run(maxRows, s, steps[..k]).phase.batch)
  }

  ghost predicate FirstFiresAt(maxRows: nat, s: State, steps: seq<Step>, k: nat, a: Alert) {
    FiresAt(maxRows, s, steps, k, a) && forall j: nat :: j < k ==> !FiresAt(maxRows, s, steps, j, a)
  }

  // What the table should hold, after the steps, for an alert pending before them.
  ghost predicate StampExplained(maxRows: nat, s: State, steps: seq<Step>, a: Alert, stamp: Option<Stamp>) {
    if stamp.None? then forall k: nat :: !FiresAt(maxRows, s, steps, k, a)
    else exists k: nat :: FirstFiresAt(maxRows, s, steps, k, a)
                       && StampedBy(stamp, a, Run(maxRows, s, steps[..k]).phase.batch)
  }

  lemma StepOnAlert(maxRows: nat, s: State, step: Step, id: int)
    requires id in s.alerts && step != DeleteAlert(id)
    ensures var alerts' := Next(maxRows, s, step).alerts;
            && id in alerts'
            && (step == CheckAlerts(true) && s.phase.Unchecked? && s.phase.batch != [] ==>
                  alerts' == Check(s.alerts, s.phase.batch))
            && (!(step == CheckAlerts(true) && s.phase.Unchecked? && s.phase.batch != []) ==>
                  alerts'[id] == s.alerts[id])
  {
    match step
    case Start => assert StartSession(s).alerts == s.alerts;
    case _ =>
  }

  lemma FiresEarlier(maxRows: nat, s: State, steps: seq<Step>, a: Alert)
    requires steps != []
    ensures var n := |steps| - 1;
            forall k: nat :: k < n ==> (FiresAt(maxRows, s, steps, k, a) <==> FiresAt(maxRows, s, steps[..n], k, a))
  {
    var n := |steps| - 1;
    forall k: nat | k < n
      ensures FiresAt(maxRows, s, steps, k, a) <==> FiresAt(maxRows, s, steps[..n], k, a)
    {
      assert steps[..n][..k] == steps[..k];
    }
  }

  lemma StampStaysExplained(maxRows: nat, s: State, steps: seq<Step>, a: Alert, stamp: Option<Stamp>)
    requires steps != [] && stamp.Some? && StampExplained(maxRows, s, steps[..|steps| - 1], a, stamp)
    ensures StampExplained(maxRows, s, steps, a, stamp)
  {
    var front := steps[..|steps| - 1];
    FiresEarlier(maxRows, s, steps, a);
    var k: nat :| FirstFiresAt(maxRows, s, front, k, a)
               && StampedBy(stamp, a, Run(maxRows, s, front[..k]).phase.batch);
    assert front[..k] == steps[..k];
    assert StampedBy(stamp, a, Run(maxRows, s, steps[..k]).phase.batch);
    assert FirstFiresAt(maxRows, s, steps, k, a);
  }

  /** Along any run, whatever its inserts and Redis writes do: a pending alert
      that is not deleted is stamped with the earliest crossing of the first
      drained batch that crosses it and whose check commits, and stays pending
      while there is none. */
  lemma {:induction false} StampIsFirstCrossing(maxRows: nat, s: State, steps: seq<Step>, id: int)
    requires id in s.alerts && s.alerts[id].fired.None? && DeleteAlert(id) !in steps
    ensures var after := Run(maxRows, s, steps).alerts;
            && id in after
            && after[id].(fired := None) == s.alerts[id]
            && StampExplained(maxRows, s, steps, s.alerts[id], after[id].fired)
  {
    if steps != [] {
      var n, a := |steps| - 1, s.alerts[id];
      var mid := Run(maxRows, s, steps[..n]);
      StampIsFirstCrossing(maxRows, s, steps[..n], id);
      StepOnAlert(maxRows, mid, steps[n], id);
      if mid.alerts[id].fired.Some? {
        if mid.phase.Unchecked? { CheckKeepsFired(mid.alerts, mid.phase.batch, id); }
        StampStaysExplained(maxRows, s, steps, a, mid.alerts[id].fired);
      } else {
        FiresEarlier(maxRows, s, steps, a);
        if mid.phase.Unchecked? {
          CheckStamps(mid.alerts, mid.phase.batch, id);
          if FiresAt(maxRows, s, steps, n, a) { assert FirstFiresAt(maxRows, s, steps, n, a); }
        }
      }
    }
  }

  /** A fired alert is never stamped again. */
  lemma {:induction false} FiredForGood(maxRows: nat, s: State, steps: seq<Step>, id: int)
    requires id in s.alerts && s.alerts[id].fired.Some? && DeleteAlert(id) !in steps
    ensures id in Run(maxRows, s, steps).alerts && Run(maxRows, s, steps).alerts[id] == s.alerts[id]
  {
    if steps != [] {
      var n := |steps| - 1;
      var mid := Run(maxRows, s, steps[..n]);
      FiredForGood(maxRows, s, steps[..n], id);
      StepOnAlert(maxRows, mid, steps[n], id);
      if mid.phase.Unchecked? { CheckKeepsFired(mid.alerts, mid.phase.batch, id); }
    }
  }

  // --- Alerts come and go ------------------------------------------------------

  lemma StepKeepsGone(maxRows: nat, s: State, step: Step, id: int)
    requires id !in s.alerts && (step.CreateAlert? ==> step.id != id)
    ensures id !in Next(maxRows, s, step).alerts
  {
    match step
    case Load(ok) => if s.phase.Drained? { assert LoadPrices(s, ok).alerts == s.alerts; }
    case Save(result) => if s.phase.Committed? { assert SavePrices(s, result).alerts == s.alerts; }
    case _ =>
  }

  /** A deleted alert is gone, whatever the stream is at with it, until one is created
      under its id; and a new alert is pending, as it was given. */
  lemma {:induction false} DeletedStaysGone(maxRows: nat, s: State, steps: seq<Step>, id: int, again: Alert)
    requires forall m :: m in steps && m.CreateAlert? ==> m.id != id
    ensures var s' := Run(maxRows, Next(maxRows, s, DeleteAlert(id)), steps);
            && id !in s'.alerts
            && Next(maxRows, s', CreateAlert(id, again)).alerts == s'.alerts[id := again.(fired := None)]
  {
    if steps != [] {
      var n := |steps| - 1;
      DeletedStaysGone(maxRows, s, steps[..n], id, again);
      StepKeepsGone(maxRows, Run(maxRows, Next(maxRows, s, DeleteAlert(id)), steps[..n]), steps[n], id);
    }
  }

  // --- Every drained batch is checked ----------------------------------------

  lemma {:induction false} AlertKept(maxRows: nat, s: State, steps: seq<Step>, id: int)
    requires id in s.alerts && DeleteAlert(id) !in steps && CheckAlerts(true) !in steps
    ensures id in Run(maxRows, s, steps).alerts && Run(maxRows, s, steps).alerts[id] == s.alerts[id]
  {
    if steps != [] {
      var n := |steps| - 1;
      AlertKept(maxRows, s, steps[..n], id);
      StepOnAlert(maxRows, Run(maxRows, s, steps[..n]), steps[n], id);
    }
  }

  // One step of the flush thread after steps of others.
  lemma ThenStep(maxRows: nat, s: State, moves: seq<Step>, step: Step)
    requires OthersOnly(moves)
    ensures var m := Run(maxRows, s, moves);
            Run(maxRows, s, moves + [step]) == Next(maxRows, m, step) && m.phase == s.phase && m.sessions == s.sessions
  {
    OneMore(maxRows, s, moves, step);
    OthersLeave(maxRows, s, moves);
  }

  lemma ReadsReach(maxRows: nat, s: State, tick: Tick)
    requires tick.Valid() && s.phase.Sleeping?
    ensures var l := Run(maxRows, s, tick.Reads());
            l.phase.Loaded? && l.phase.batch == BatchOf(maxRows, s, tick) && l.sessions == s.sessions
  {
    ThenStep(maxRows, s, tick.asleep, Drain);
    var d := Run(maxRows, s, tick.asleep + [Drain]);
    ThenStep(maxRows, d, tick.loading, Load(tick.loads));
    RunAppend(maxRows, s, tick.asleep + [Drain], tick.loading + [Load(tick.loads)]);
    LoadReaches(Run(maxRows, d, tick.loading), tick.loads);
  }

  lemma LoadReaches(m: State, ok: bool)
    requires m.phase.Drained?
    ensures var l := LoadPrices(m, ok); l.phase.Loaded? && l.phase.batch == m.phase.batch && l.sessions == m.sessions
  {}

  lemma StoresReach(maxRows: nat, l: State, tick: Tick)
    requires tick.Valid() && l.phase.Loaded? && l.sessions != []
    ensures var c := Run(maxRows, l, tick.Stores());
            (c.phase.Committed? || c.phase.Unchecked?) && c.phase.batch == l.phase.batch
  {
    ThenStep(maxRows, l, tick.counting, ReadSeen);
    var r := Run(maxRows, l, tick.counting + [ReadSeen]);
    ThenStep(maxRows, r, tick.storing, Commit(tick.commits));
    RunAppend(maxRows, l, tick.counting + [ReadSeen], tick.storing + [Commit(tick.commits)]);
    CommitReaches(maxRows, Run(maxRows, r, tick.storing), tick.commits);
  }

  lemma CommitReaches(maxRows: nat, m: State, ok: bool)
    requires m.phase.Counted? && m.sessions != []
    ensures var c := Next(maxRows, m, Commit(ok));
            (c.phase.Committed? || c.phase.Unchecked?) && c.phase.batch == m.phase.batch
  {
    if ok { assert CommitBatch(m).phase == Committed(m.phase.batch, m.phase.stored); }
  }

  // Whatever was loaded, stored or written, the batch comes up for its check.
  lemma CheckReached(maxRows: nat, s: State, tick: Tick)
    requires tick.Valid() && s.phase.Sleeping? && s.sessions != []
    ensures Run(maxRows, s, tick.BeforeCheck()).phase == Unchecked(BatchOf(maxRows, s, tick))
  {
    var l := Run(maxRows, s, tick.Reads());
    var c := Run(maxRows, l, tick.Stores());
    ReadsReach(maxRows, s, tick);
    StoresReach(maxRows, l, tick);
    ThenStep(maxRows, c, tick.saving, Save(tick.result));
    if c.phase.Committed? { SaveReaches(Run(maxRows, c, tick.saving), tick.result); }
    var u := Run(maxRows, c, tick.saving + [Save(tick.result)]);
    OthersLeave(maxRows, u, tick.checking);
    RunAppend(maxRows, s, tick.Reads(), tick.Stores());
    RunAppend(maxRows, s, tick.Reads() + tick.Stores(), tick.saving + [Save(tick.result)]);
    RunAppend(maxRows, s, tick.Reads() + tick.Stores() + (tick.saving + [Save(tick.result)]), tick.checking);
  }

  lemma SaveReaches(m: State, result: SaveResult)
    requires m.phase.Committed?
    ensures SavePrices(m, result).phase == Unchecked(m.phase.batch)
  {}

  /** Each pass of the loop checks the batch it drained, whether or not the batch
      could be stored or written: an alert pending before it, and not deleted
      meanwhile, takes the stamp the batch gives it, or none if that check fails. */
  lemma PassChecksItsBatch(maxRows: nat, s: State, tick: Tick, id: int)
    requires tick.Valid() && s.phase.Sleeping? && s.sessions != []
    requires id in s.alerts && s.alerts[id].fired.None? && DeleteAlert(id) !in tick.Steps()
    ensures var alerts' := Run(maxRows, s, tick.Steps()).alerts;
            && id in alerts' && alerts'[id].(fired := None) == s.alerts[id]
            && if tick.checks then StampsReach(s.alerts[id], BatchOf(maxRows, s, tick), alerts'[id].fired)
               else alerts'[id].fired.None?
  {
    var before, rest := tick.BeforeCheck(), tick.closing + [TestClosed];
    CheckSplitsPass(maxRows, s, tick);
    OneCheck(tick);
    var u := Run(maxRows, s, before);
    var v := Next(maxRows, u, CheckAlerts(tick.checks));
    CheckReached(maxRows, s, tick);
    AlertKept(maxRows, s, before, id);
    CheckStamped(maxRows, u, tick.checks, id);
    AlertKept(maxRows, v, rest, id);
  }

  lemma CheckSplitsPass(maxRows: nat, s: State, tick: Tick)
    ensures Run(maxRows, s, tick.Steps()) ==
            Run(maxRows, Next(maxRows, Run(maxRows, s, tick.BeforeCheck()), CheckAlerts(tick.checks)),
                tick.closing + [TestClosed])
  {
    var before, check, rest := tick.BeforeCheck(), [CheckAlerts(tick.checks)], tick.closing + [TestClosed];
    assert tick.Steps() == before + check + rest;
    OneMore(maxRows, s, before, CheckAlerts(tick.checks));
    RunAppend(maxRows, s, before + check, rest);
  }

  // It is the only check of the pass.
  lemma OneCheck(tick: Tick)
    requires tick.Valid()
    ensures forall m :: m in tick.BeforeCheck() || m in tick.closing + [TestClosed] ==>
              m in tick.Steps() && m != CheckAlerts(true)
  {}

  lemma CheckStamped(maxRows: nat, u: State, ok: bool, id: int)
    requires u.phase.Unchecked? && id in u.alerts && u.alerts[id].fired.None?
    ensures var alerts' := Next(maxRows, u, CheckAlerts(ok)).alerts;
            && id in alerts' && alerts'[id].(fired := None) == u.alerts[id]
            && if ok then StampsReach(u.alerts[id], u.phase.batch, alerts'[id].fired) else alerts'[id].fired.None?
  {
    StepOnAlert(maxRows, u, CheckAlerts(ok), id);
    TriggerStamps(u.alerts[id], u.phase.batch);
  }
}
