/** Exponential backoff, and the reconnect loop around the stream that uses it. */
module Reconnect {
  import opened Trades
  import opened StreamMachine
  import opened SocketThread

  const MAX_EXPONENT: nat := 32

  datatype Backoff = Backoff(min: real, max: real, attempts: nat) {
    // The bounds load_config enforces.
    predicate Valid() { 0.0 < min <= max }

    function Capped(): real {
      var wait := Wait(min, attempts);
      if wait <= max then wait else max
    }

    function NextDelay(u: real): (real, Backoff) {
      (Uniform(Capped() / 2.0, Capped(), u), this.(attempts := attempts + 1))
    }

    function Reset(): Backoff { this.(attempts := 0) }
  }

  function Least(attempts: nat): nat { if attempts < MAX_EXPONENT then attempts else MAX_EXPONENT }

  function Wait(min: real, attempts: nat): real { min * Pow2(Least(attempts)) }

  // random.uniform: u is how far between its bounds the draw lands.
  function Uniform(low: real, high: real, u: real): real { low + u * (high - low) }

  function Pow2(n: nat): (r: real)
    ensures r >= 1.0
  {
    if n == 0 then 1.0 else 2.0 * Pow2(n - 1)
  }

  lemma {:induction false} Pow2Grows(m: nat, n: nat)
    requires m <= n
    ensures Pow2(m) <= Pow2(n)
  {
    if m < n { Pow2Grows(m, n - 1); }
  }

  lemma ScaledGrows(min: real, x: real, y: real)
    requires 0.0 < min && 1.0 <= x <= y
    ensures min <= min * x <= min * y
  {}

  lemma UniformWithin(low: real, high: real, u: real)
    requires low <= high && 0.0 <= u <= 1.0
    ensures low <= Uniform(low, high, u) <= high
  {
    var width := high - low;
    assert 0.0 <= u * width;
    assert 0.0 <= (1.0 - u) * width == width - u * width;
  }

  lemma CapWithinBounds(b: Backoff)
    requires b.Valid()
    ensures b.min <= b.Capped() <= b.max
    ensures b.Capped() == b.max <==> Wait(b.min, b.attempts) >= b.max
  {
    ScaledGrows(b.min, 1.0, Pow2(Least(b.attempts)));
  }

  /** Every delay lies in the upper half of the cap, and the cap between the two
      configured bounds. */
  lemma DelayWithinBounds(b: Backoff, u: real)
    requires b.Valid() && 0.0 <= u <= 1.0
    ensures var delay := b.NextDelay(u).0;
            b.min <= b.Capped() <= b.max && b.Capped() / 2.0 <= delay <= b.Capped() && b.min / 2.0 <= delay <= b.max
  {
    CapWithinBounds(b);
    UniformWithin(b.Capped() / 2.0, b.Capped(), u);
  }

  lemma WaitGrows(min: real, k: nat, n: nat)
    requires 0.0 < min && k <= n
    ensures Wait(min, k) <= Wait(min, n)
  {
    var x, y := Pow2(Least(k)), Pow2(Least(n));
    Pow2Grows(Least(k), Least(n));
    ScaledGrows(min, x, y);
    assert Wait(min, k) == min * x && Wait(min, n) == min * y;
  }

  lemma CapMonotone(b: Backoff, k: nat, n: nat)
    requires b.Valid() && k <= n
    ensures b.(attempts := k).Capped() <= b.(attempts := n).Capped()
  {
    WaitGrows(b.min, k, n);
  }

  /** Over consecutive failures the cap never shrinks, and it is the maximum from
      the k-th on exactly when k doublings (32 at most count) reach it. */
  lemma CapGrows(b: Backoff, k: nat)
    requires b.Valid()
    ensures forall n: nat :: k <= n ==> b.(attempts := k).Capped() <= b.(attempts := n).Capped()
    ensures (forall n: nat :: k <= n ==> b.(attempts := n).Capped() == b.max) <==> Wait(b.min, k) >= b.max
  {
    CapWithinBounds(b.(attempts := k));
    forall n: nat | k <= n
      ensures b.(attempts := k).Capped() <= b.(attempts := n).Capped() <= b.max
    {
      CapMonotone(b, k, n);
      CapWithinBounds(b.(attempts := n));
    }
  }

  function AtMost(x: real, bound: real): real { if x <= bound then x else bound }

  /** The wait starts at the minimum and doubles with each attempt, up to the
      maximum and through the 32nd; from there on it stays. */
  lemma CapDoubles(b: Backoff)
    requires b.Valid()
    ensures b.Reset().Capped() == b.min
    ensures var next := b.NextDelay(0.0).1;
            next == b.(attempts := b.attempts + 1) &&
            next.Capped() == if b.attempts < 32 then AtMost(2.0 * b.Capped(), b.max) else b.Capped()
  {
    var x := Pow2(Least(b.attempts));
    assert Pow2(0) == 1.0;
    if b.attempts < 32 {
      assert Pow2(b.attempts + 1) == 2.0 * x;
      assert Wait(b.min, b.attempts + 1) == 2.0 * Wait(b.min, b.attempts) by { Doubled(b.min, x); }
    }
  }

  lemma Doubled(a: real, x: real)
    ensures a * (2.0 * x) == 2.0 * (a * x)
  {}

  /** The draw reaches from half the cap to the cap, and draws as far apart give
      waits as far apart. */
  lemma DrawsAreEven(b: Backoff, u: real, v: real)
    ensures b.NextDelay(0.0).0 == b.Capped() / 2.0 && b.NextDelay(1.0).0 == b.Capped()
    ensures b.NextDelay(u).0 - b.NextDelay(v).0 == (u - v) * (b.Capped() / 2.0)
  {
    var half := b.Capped() / 2.0;
    assert b.Capped() - half == half;
    assert u * half - v * half == (u - v) * half;
  }

  // --- The loop in main ----------------------------------------------------

  // How one session ended, and the random draw of the wait after it.
  datatype SessionEnd = SessionEnd(events: Events, u: real)

  // The attempts the backoff has counted when it sets the wait after the last
  // of these sessions: those since a session that had a message.
  function AttemptsAt(ends: seq<SessionEnd>): nat
    requires ends != []
  {
    if ends[|ends| - 1].events.lastMessageAt.Some? || |ends| == 1 then 0
    else AttemptsAt(ends[..|ends| - 1]) + 1
  }

  // The i-th session is the last that had a message, or the first of all.
  ghost predicate CountsFrom(ends: seq<SessionEnd>, i: nat) {
    && i < |ends| && (ends[i].events.lastMessageAt.Some? || i == 0)
    && forall j :: i < j < |ends| ==> ends[j].events.lastMessageAt.None?
  }

  lemma {:induction false} AttemptsCounted(ends: seq<SessionEnd>)
    requires ends != []
    ensures exists i: nat :: CountsFrom(ends, i) && AttemptsAt(ends) == |ends| - 1 - i
  {
    var n := |ends| - 1;
    if ends[n].events.lastMessageAt.Some? || n == 0 {
      assert CountsFrom(ends, n);
    } else {
      AttemptsCounted(ends[..n]);
      var i: nat :| CountsFrom(ends[..n], i) && AttemptsAt(ends[..n]) == n - 1 - i;
      assert CountsFrom(ends, i);
    }
  }

  /** main's reconnect loop over the given session ends: the wait after each is
      drawn from the cap of the attempts counted since the last session that had
      a message. */
  method ReconnectLoop(min: real, max: real, ends: seq<SessionEnd>) returns (delays: seq<real>, reconnects: nat)
    requires 0.0 < min <= max
    ensures |delays| == |ends| == reconnects
    ensures forall i :: 0 <= i < |ends| ==>
              delays[i] == Backoff(min, max, AttemptsAt(ends[..i + 1])).NextDelay(ends[i].u).0
  {
    var backoff := Backoff(min, max, 0);
    delays, reconnects := [], 0;
    while reconnects < |ends|
      invariant |delays| == reconnects <= |ends|
      invariant backoff == Backoff(min, max, if reconnects == 0 then 0 else AttemptsAt(ends[..reconnects]) + 1)
      invariant forall i :: 0 <= i < reconnects ==>
                  delays[i] == Backoff(min, max, AttemptsAt(ends[..i + 1])).NextDelay(ends[i].u).0
    {
      var end := ends[reconnects];
      assert ends[..reconnects + 1][..reconnects] == ends[..reconnects];
      if end.events.lastMessageAt.Some? {
        backoff := backoff.Reset();
      }
      assert backoff.attempts == AttemptsAt(ends[..reconnects + 1]);
      var next := backoff.NextDelay(end.u);
      backoff := next.1;
      delays := delays + [next.0];
      reconnects := reconnects + 1;
    }
  }

  // --- How sessions really end -----------------------------------------------

  // flush_loop returns only once the socket closed, and that event left a stamp.
  ghost predicate Stamped(s: State) {
    && (s.events.closed ==> s.events.lastMessageAt.Some?)
    && (s.phase.Ended? && s.sessions != [] ==> s.events.closed)
  }

  lemma StepKeepsStamped(maxRows: nat, s: State, step: Step)
    requires Stamped(s)
    ensures Stamped(Next(maxRows, s, step))
  {
    match step
    case Load(ok) =>
      if s.phase.Drained? { assert LoadPrices(s, ok).events == s.events; }
    case Save(result) =>
      if s.phase.Committed? { assert SavePrices(s, result).events == s.events; }
    case _ =>
  }

  lemma {:induction false} EndedIsStamped(maxRows: nat, steps: seq<Step>)
    ensures Stamped(Run(maxRows, INITIAL, steps))
  {
    if steps != [] {
      EndedIsStamped(maxRows, steps[..|steps| - 1]);
      StepKeepsStamped(maxRows, Run(maxRows, INITIAL, steps[..|steps| - 1]), steps[|steps| - 1]);
    }
  }

  // The events a session of the stream can return with.
  ghost predicate CanEndWith(events: Events) {
    exists maxRows, s :: Reachable(maxRows, s) && s.phase.Ended? && s.sessions != [] && s.events == events
  }

  // The session begun in s ended, after these steps, with these events, and one
  // of the calls it got said "closed".
  ghost predicate ClosedSession(maxRows: nat, s: State, steps: seq<Step>, events: Events) {
    var begun := Next(maxRows, s, Start);
    && Reachable(maxRows, s) && Start !in steps && Run(maxRows, begun, steps).phase.Ended?
    && Run(maxRows, begun, steps).events == events && ClosedReported(maxRows, begun, steps)
  }

  // A run with a session has a last one.
  lemma {:induction false} LastSession(maxRows: nat, steps: seq<Step>) returns (n: nat)
    requires Run(maxRows, INITIAL, steps).sessions != []
    ensures n < |steps| && steps[n] == Start && Start !in steps[n + 1..]
  {
    n := |steps| - 1;
    if steps[n] != Start {
      StepSessions(maxRows, Run(maxRows, INITIAL, steps[..n]), steps[n]);
      var m := LastSession(maxRows, steps[..n]);
      assert steps[m + 1..] == steps[..n][m + 1..] + [steps[n]];
      n := m;
    }
  }

  /** However a session ends, it got a "closed" event, and so has a message time. */
  lemma EndsWithMessage(events: Events)
    requires CanEndWith(events)
    ensures events.closed && events.lastMessageAt.Some?
    ensures exists maxRows, s, steps :: ClosedSession(maxRows, s, steps, events)
  {
    var maxRows, s :| Reachable(maxRows, s) && s.phase.Ended? && s.sessions != [] && s.events == events;
    var steps :| s == Run(maxRows, INITIAL, steps);
    EndedIsStamped(maxRows, steps);
    var n := LastSession(maxRows, steps);
    var before, after := Run(maxRows, INITIAL, steps[..n]), steps[n + 1..];
    assert steps == steps[..n] + [Start] + after;
    RunAppend(maxRows, INITIAL, steps[..n] + [Start], after);
    OneMore(maxRows, INITIAL, steps[..n], Start);
    SessionEndsOnClosed(maxRows, before, after);
    assert ClosedSession(maxRows, before, after, events);
  }

  /** The wait never grows: a session can only end on a closed event, which
      counts as a message, so every return resets the backoff and every wait
      lies between half the minimum and the minimum. */
  lemma WaitNeverGrows(b: Backoff, ends: seq<SessionEnd>)
    requires b.Valid() && ends != [] && b.attempts == AttemptsAt(ends)
    requires forall e :: e in ends ==> CanEndWith(e.events) && 0.0 <= e.u <= 1.0
    ensures b.min / 2.0 <= b.NextDelay(ends[|ends| - 1].u).0 <= b.min
  {
    var last := ends[|ends| - 1];
    assert last in ends;
    EndsWithMessage(last.events);
    DelayWithinBounds(b, last.u);
    assert b.Capped() == b.min;
  }
}
