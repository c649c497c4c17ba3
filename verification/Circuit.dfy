/** The gateway circuit breaker (internal/circuit/breaker.go).

    The breaker is specified by its event history. Times are integers (nanoseconds); a clock
    reading is an argument of the operation that takes it, under the breaker's lock.
*/
module Circuit {

  // ---------------------------------------------------------------- what the history says

  datatype Event =
    | Succeeded
    | Failed(at: int)
    | Asked(at: int)  // a call of Allow

  /** Failures since the last success. */
  function FailureRun(h: seq<Event>): nat {
    if h == [] || h[|h| - 1].Succeeded? then 0
    else FailureRun(h[..|h| - 1]) + if h[|h| - 1].Failed? then 1 else 0
  }

  /** The time of the latest failure since the last success. */
  function LatestFailure(h: seq<Event>): int
    requires FailureRun(h) > 0
  {
    var last := h[|h| - 1];
    if last.Failed? then last.at else LatestFailure(h[..|h| - 1])
  }

  /** The gateway counts as down: `threshold` failures in a row. */
  predicate Tripped(h: seq<Event>, threshold: nat) {
    FailureRun(h) >= threshold
  }

  predicate CooledDown(h: seq<Event>, cooldown: int, now: int)
    requires FailureRun(h) > 0
  {
    now - LatestFailure(h) >= cooldown
  }

  /** Since the latest outcome, some Allow came after the cooldown: the one probe is out. */
  predicate ProbeOut(h: seq<Event>, threshold: nat, cooldown: int) {
    && h != []
    && h[|h| - 1].Asked?
    && var before := h[..|h| - 1];
       || ProbeOut(before, threshold, cooldown)
       || (FailureRun(before) > 0 && Tripped(before, threshold) && CooledDown(before, cooldown, h[|h| - 1].at))
  }

  /** What Allow must answer. */
  predicate Grants(h: seq<Event>, threshold: nat, cooldown: int, now: int) {
    || !Tripped(h, threshold)
    || (FailureRun(h) > 0 && CooledDown(h, cooldown, now) && !ProbeOut(h, threshold, cooldown))
  }

  /** What Open must answer. */
  predicate SaysOpen(h: seq<Event>, threshold: nat, cooldown: int, now: int) {
    && FailureRun(h) > 0
    && Tripped(h, threshold)
    && !CooledDown(h, cooldown, now)
    && !ProbeOut(h, threshold, cooldown)
  }

  // ---------------------------------------------------------------- the breaker

  datatype State = Closed | Open | HalfOpen

  const DEFAULT_THRESHOLD := 5
  const DEFAULT_COOLDOWN := 10_000_000_000

  class Breaker {
    var state: State
    var failures: nat
    const threshold: nat
    const cooldown: int
    var openedAt: int
    var probing: bool
    ghost var history: seq<Event>

    ghost predicate Valid()
      reads this
    {
      && threshold > 0
      && cooldown > 0
      && (state == Closed <==> !Tripped(history, threshold))
      && (state == Closed ==> failures == FailureRun(history))
      && (state != Closed ==> failures >= threshold && openedAt == LatestFailure(history))
      && (state == HalfOpen <==> ProbeOut(history, threshold, cooldown))
      && (probing <==> state == HalfOpen)
    }

    constructor (threshold: int, cooldown: int)
      ensures Valid() && history == []
      ensures this.threshold == if threshold <= 0 then 5 else threshold
      ensures this.cooldown == if cooldown <= 0 then 10_000_000_000 else cooldown
    {
      this.threshold := if threshold <= 0 then DEFAULT_THRESHOLD else threshold;
      this.cooldown := if cooldown <= 0 then DEFAULT_COOLDOWN else cooldown;
      state, failures, openedAt, probing := Closed, 0, 0, false;
      history := [];
    }

    /** Half-open always has its probe in flight, so the branch that would grant a second one is dead. */
    method Allow(now: int) returns (granted: bool)
      requires Valid()
      modifies this
      ensures Valid() && history == old(history) + [Asked(now)]
      ensures granted <==> Grants(old(history), threshold, cooldown, now)
    {
      NoteAsked(now);
      history := history + [Asked(now)];
      match state
      case Closed =>
        return true;
      case Open =>
        if now - openedAt >= cooldown {
          state, probing := HalfOpen, true;
          return true;
        }
        return false;
      case HalfOpen =>
        if probing { return false; }
        assert false;
    }

    lemma NoteAsked(now: int)
      requires Valid()
      ensures var h := history + [Asked(now)];
              && FailureRun(h) == FailureRun(history)
              && (FailureRun(h) > 0 ==> LatestFailure(h) == LatestFailure(history))
              && (ProbeOut(h, threshold, cooldown) <==>
                   || ProbeOut(history, threshold, cooldown)
                   || (Tripped(history, threshold) && CooledDown(history, cooldown, now)))
    {
      var h := history + [Asked(now)];
      assert h[..|h| - 1] == history;
    }

    method Success()
      requires Valid()
      modifies this
      ensures Valid() && history == old(history) + [Succeeded]
      ensures state == Closed
    {
      history := history + [Succeeded];
      state, failures, probing := Closed, 0, false;
    }

    method Failure(now: int)
      requires Valid()
      modifies this
      ensures Valid() && history == old(history) + [Failed(now)]
      ensures state == (if FailureRun(history) >= threshold then Open else Closed)
    {
      ghost var before := history;
      history := history + [Failed(now)];
      assert history[..|history| - 1] == before;
      if state == HalfOpen {
        Trip(now);
        return;
      }
      failures := failures + 1;
      if failures >= threshold { Trip(now); }
    }

    method Trip(now: int)
      requires failures >= threshold > 0 && cooldown > 0
      requires Tripped(history, threshold) && history[|history| - 1] == Failed(now)
      modifies `state, `openedAt, `probing
      ensures Valid() && state == Open
    {
      state, openedAt, probing := Open, now, false;
    }

    /** What Open reports at time `now`. */
    ghost predicate OpenAt(now: int)
      reads this`history
    {
      SaysOpen(history, threshold, cooldown, now)
    }

    method IsOpen(now: int) returns (open: bool)
      requires Valid()
      ensures open <==> OpenAt(now)
    {
      open := state == Open && now - openedAt < cooldown;
    }
  }

  // ---------------------------------------------------------------- under a monotone clock

  function Time(e: Event, otherwise: int): int {
    match e
    case Succeeded => otherwise
    case Failed(t) => t
    case Asked(t) => t
  }

  /** Readings never go back, and `now` comes after all of them. */
  ghost predicate ClockMonotone(h: seq<Event>, now: int) {
    h == [] || (Time(h[|h| - 1], now) <= now && ClockMonotone(h[..|h| - 1], Time(h[|h| - 1], now)))
  }

  /** Under a monotone clock the probe does not matter to Open: it reports exactly that the run of
      failures reached the threshold and `now` is within the cooldown of the latest failure. */
  lemma {:induction false} OpenIsCooldownWindow(h: seq<Event>, threshold: nat, cooldown: int, now: int)
    requires threshold > 0 && ClockMonotone(h, now)
    ensures SaysOpen(h, threshold, cooldown, now)
       <==> Tripped(h, threshold) && now - LatestFailure(h) < cooldown
  {
    if ProbeOut(h, threshold, cooldown) { ProbeMeansCooledDown(h, threshold, cooldown, now); }
  }

  lemma {:induction false} ProbeMeansCooledDown(h: seq<Event>, threshold: nat, cooldown: int, now: int)
    requires threshold > 0 && ClockMonotone(h, now) && ProbeOut(h, threshold, cooldown)
    ensures FailureRun(h) > 0 && Tripped(h, threshold) && CooledDown(h, cooldown, now)
  {
    var before := h[..|h| - 1];
    if ProbeOut(before, threshold, cooldown) { ProbeMeansCooledDown(before, threshold, cooldown, h[|h| - 1].at); }
  }

  ghost predicate OnlyAsks(h: seq<Event>) {
    forall i :: 0 <= i < |h| ==> h[i].Asked?
  }

  /** Once a tripped breaker has granted its probe, it grants nothing more until the next outcome,
      whatever the clock says. */
  lemma OneProbePerOutcome(h: seq<Event>, now: int, asks: seq<Event>, threshold: nat, cooldown: int, later: int)
    requires Tripped(h, threshold) && OnlyAsks(asks) && FailureRun(h) > 0
    requires Grants(h, threshold, cooldown, now)
    ensures !Grants(h + [Asked(now)] + asks, threshold, cooldown, later)
  {
    ProbeStays(h, now, asks, threshold, cooldown);
    StillTripped(h, [Asked(now)] + asks);
    assert h + [Asked(now)] + asks == h + ([Asked(now)] + asks);
  }

  lemma {:induction false} ProbeStays(h: seq<Event>, now: int, asks: seq<Event>, threshold: nat, cooldown: int)
    requires Tripped(h, threshold) && OnlyAsks(asks) && FailureRun(h) > 0
    requires Grants(h, threshold, cooldown, now)
    ensures ProbeOut(h + [Asked(now)] + asks, threshold, cooldown)
  {
    var g := h + [Asked(now)] + asks;
    if asks == [] {
      assert g[..|g| - 1] == h;
    } else {
      var before := asks[..|asks| - 1];
      assert g[..|g| - 1] == h + [Asked(now)] + before;
      ProbeStays(h, now, before, threshold, cooldown);
    }
  }

  lemma {:induction false} StillTripped(h: seq<Event>, asks: seq<Event>)
    requires OnlyAsks(asks)
    ensures FailureRun(h + asks) == FailureRun(h)
  {
    if asks == [] {
      assert h + asks == h;
    } else {
      var g, before := h + asks, asks[..|asks| - 1];
      assert g[..|g| - 1] == h + before;
      StillTripped(h, before);
    }
  }

  // ---------------------------------------------------------------- the history, spelled out

  ghost predicate NoSuccess(h: seq<Event>) { forall i :: 0 <= i < |h| ==> !h[i].Succeeded? }

  function FailedAt(h: seq<Event>): set<nat> { set i: nat | i < |h| && h[i].Failed? }

  lemma FailedAtSnoc(h: seq<Event>)
    requires h != []
    ensures var n := |h| - 1; |FailedAt(h)| == |FailedAt(h[..n])| + if h[n].Failed? then 1 else 0
  {
    var n := |h| - 1;
    assert n !in FailedAt(h[..n]);
    assert FailedAt(h) == FailedAt(h[..n]) + if h[n].Failed? then {n} else {};
  }

  /** A run of failures is what came after the latest success: that many failures. */
  lemma {:induction false} FailureRunCounts(h: seq<Event>, tail: seq<Event>)
    requires NoSuccess(tail)
    ensures FailureRun(h + [Succeeded] + tail) == |FailedAt(tail)|
  {
    var g := h + [Succeeded] + tail;
    if tail == [] {
      assert g[|g| - 1] == Succeeded;
    } else {
      var n := |tail| - 1;
      assert g[..|g| - 1] == h + [Succeeded] + tail[..n] && g[|g| - 1] == tail[n];
      FailureRunCounts(h, tail[..n]);
      FailedAtSnoc(tail);
      hide FailedAt;
    }
  }

  /** The same before any success. */
  lemma {:induction false} FailureRunFromStart(tail: seq<Event>)
    requires NoSuccess(tail)
    ensures FailureRun(tail) == |FailedAt(tail)|
  {
    if tail != [] {
      FailureRunFromStart(tail[..|tail| - 1]);
      FailedAtSnoc(tail);
      hide FailedAt;
    }
  }

  /** Whatever was asked since, the latest failure is the latest failure. */
  lemma {:induction false} LatestFailureIs(h: seq<Event>, at: int, asks: seq<Event>)
    requires OnlyAsks(asks)
    ensures FailureRun(h + [Failed(at)] + asks) > 0 && LatestFailure(h + [Failed(at)] + asks) == at
  {
    var g := h + [Failed(at)] + asks;
    if asks == [] {
      assert g[|g| - 1] == Failed(at);
    } else {
      var n := |asks| - 1;
      assert g[..|g| - 1] == h + [Failed(at)] + asks[..n] && g[|g| - 1] == asks[n];
      LatestFailureIs(h, at, asks[..n]);
    }
  }

  /** The first ask after the cooldown is granted: it is the probe. The asks before it are refused. */
  lemma FirstAskAfterCooldown(h: seq<Event>, at: int, asks: seq<Event>, threshold: nat, cooldown: int, now: int)
    requires OnlyAsks(asks) && FailureRun(h) + 1 >= threshold && threshold > 0
    requires forall i :: 0 <= i < |asks| ==> asks[i].at - at < cooldown
    ensures Grants(h + [Failed(at)] + asks, threshold, cooldown, now) <==> now - at >= cooldown
  {
    LatestFailureIs(h, at, asks);
    NoProbeYet(h, at, asks, threshold, cooldown);
    StillTripped(h + [Failed(at)], asks);
    assert (h + [Failed(at)])[..|h|] == h;
  }

  lemma {:induction false} NoProbeYet(h: seq<Event>, at: int, asks: seq<Event>, threshold: nat, cooldown: int)
    requires OnlyAsks(asks) && forall i :: 0 <= i < |asks| ==> asks[i].at - at < cooldown
    ensures !ProbeOut(h + [Failed(at)] + asks, threshold, cooldown)
  {
    var g := h + [Failed(at)] + asks;
    if asks == [] {
      assert g[|g| - 1] == Failed(at);
    } else {
      var n := |asks| - 1;
      assert g[..|g| - 1] == h + [Failed(at)] + asks[..n] && g[|g| - 1] == asks[n];
      NoProbeYet(h, at, asks[..n], threshold, cooldown);
      LatestFailureIs(h, at, asks[..n]);
    }
  }

  /** A breaker with fewer failures than that grants everything. */
  lemma ClosedGrantsAll(h: seq<Event>, threshold: nat, cooldown: int, now: int)
    requires FailureRun(h) < threshold
    ensures Grants(h, threshold, cooldown, now) && !SaysOpen(h, threshold, cooldown, now)
  {}

  // ---------------------------------------------------------------- the router's use of it

  /** The router calls Open, Success and Failure, never Allow. */
  ghost predicate RouterHistory(h: seq<Event>) {
    forall i :: 0 <= i < |h| ==> !h[i].Asked?
  }

  lemma HalfOpenUnreachable(h: seq<Event>, threshold: nat, cooldown: int)
    requires RouterHistory(h)
    ensures !ProbeOut(h, threshold, cooldown)
  {}

  // ---------------------------------------------------------------- a dead gateway

  /** A gateway attempt starts when Open said no; while the gateway is dead each one ends in Failure. */
  datatype Move = Dispatch(at: int) | Fails(at: int)

  function Failures(run: seq<Move>): seq<Event> {
    if run == [] then []
    else
      var last := run[|run| - 1];
      Failures(run[..|run| - 1]) + if last.Fails? then [Failed(last.at)] else []
  }

  function Dispatches(run: seq<Move>): nat {
    if run == [] then 0
    else Dispatches(run[..|run| - 1]) + if run[|run| - 1].Dispatch? then 1 else 0
  }

  function InFlight(run: seq<Move>): int { Dispatches(run) - |Failures(run)| }

  function Clock(run: seq<Move>, start: int): int { if run == [] then start else run[|run| - 1].at }

  /** A run against a dead gateway with a fresh breaker, at most `m` attempts in flight. */
  ghost predicate DeadGatewayRun(run: seq<Move>, threshold: nat, cooldown: int, start: int, m: nat)
  {
    run == [] ||
    var before, last := run[..|run| - 1], run[|run| - 1];
    && DeadGatewayRun(before, threshold, cooldown, start, m)
    && Clock(before, start) <= last.at
    && (last.Dispatch? ==> !SaysOpen(Failures(before), threshold, cooldown, last.at) && InFlight(before) < m)
    && (last.Fails? ==> InFlight(before) > 0)
  }

  /** Attempts started since the latest failure. */
  function Recent(run: seq<Move>): nat {
    if run == [] || run[|run| - 1].Fails? then 0 else 1 + Recent(run[..|run| - 1])
  }

  function Budget(threshold: nat, m: nat, cooldown: int, elapsed: int): int
    requires cooldown > 0
  {
    threshold + m - 1 + m * (elapsed / cooldown)
  }

  lemma BudgetGrows(threshold: nat, m: nat, cooldown: int, a: int, b: int)
    requires cooldown > 0 && a <= b
    ensures Budget(threshold, m, cooldown, a) <= Budget(threshold, m, cooldown, b)
    ensures a + cooldown <= b ==> Budget(threshold, m, cooldown, a) + m <= Budget(threshold, m, cooldown, b)
  {
    FloorAtLeast(a / cooldown, b, cooldown);
    MulMonotone(m, a / cooldown, b / cooldown);
    if a + cooldown <= b {
      FloorAtLeast(a / cooldown + 1, b, cooldown);
      MulMonotone(m, a / cooldown + 1, b / cooldown);
    }
  }

  lemma FloorAtLeast(x: int, b: int, c: int)
    requires c > 0 && c * x <= b
    ensures x <= b / c
  {
    if b / c < x { MulMonotone(c, b / c + 1, x); }
  }

  lemma MulMonotone(m: nat, x: int, y: int)
    requires x <= y
    ensures m * x <= m * y
  {}

  lemma {:induction false} FailuresOnly(run: seq<Move>)
    ensures FailureRun(Failures(run)) == |Failures(run)| && RouterHistory(Failures(run))
  {
    if run != [] {
      FailuresOnly(run[..|run| - 1]);
      var h, before := Failures(run), Failures(run[..|run| - 1]);
      if run[|run| - 1].Fails? { assert h[..|h| - 1] == before; } else { assert h == before; }
    }
  }

  ghost predicate WithinBudget(run: seq<Move>, threshold: nat, cooldown: int, start: int, m: nat)
    requires threshold > 0 && cooldown > 0
  {
    var h := Failures(run);
    && FailureRun(h) == |h|
    && start <= Clock(run, start)
    && Recent(run) <= InFlight(run) <= m
    && (Tripped(h, threshold) ==>
          && start <= LatestFailure(h) <= Clock(run, start)
          && Dispatches(run) <= Budget(threshold, m, cooldown, LatestFailure(h) - start) + Recent(run)
          && (Recent(run) > 0 ==> LatestFailure(h) + cooldown <= Clock(run, start)))
  }

  lemma FailsStep(before: seq<Move>, at: int, threshold: nat, cooldown: int, start: int, m: nat)
    requires threshold > 0 && cooldown > 0 && WithinBudget(before, threshold, cooldown, start, m)
    requires Clock(before, start) <= at && InFlight(before) > 0
    ensures WithinBudget(before + [Fails(at)], threshold, cooldown, start, m)
  {
    var run := before + [Fails(at)];
    assert run[..|run| - 1] == before;
    var h, h0 := Failures(run), Failures(before);
    assert h == h0 + [Failed(at)] && h[..|h| - 1] == h0;
    BudgetGrows(threshold, m, cooldown, 0, at - start);
    assert 0 / cooldown == 0;
    if Tripped(h0, threshold) { BudgetGrows(threshold, m, cooldown, LatestFailure(h0) - start, at - start); }
  }

  lemma DispatchStep(before: seq<Move>, at: int, threshold: nat, cooldown: int, start: int, m: nat)
    requires threshold > 0 && cooldown > 0 && WithinBudget(before, threshold, cooldown, start, m)
    requires Clock(before, start) <= at && InFlight(before) < m
    requires RouterHistory(Failures(before)) && !SaysOpen(Failures(before), threshold, cooldown, at)
    ensures WithinBudget(before + [Dispatch(at)], threshold, cooldown, start, m)
  {
    var run := before + [Dispatch(at)];
    assert run[..|run| - 1] == before;
    assert Failures(run) == Failures(before);
    HalfOpenUnreachable(Failures(before), threshold, cooldown);
  }

  /** What every step of such a run keeps. */
  lemma {:induction false} DeadGatewayInvariant(run: seq<Move>, threshold: nat, cooldown: int, start: int, m: nat)
    requires threshold > 0 && cooldown > 0 && DeadGatewayRun(run, threshold, cooldown, start, m)
    ensures WithinBudget(run, threshold, cooldown, start, m)
  {
    if run != [] {
      var before, last := run[..|run| - 1], run[|run| - 1];
      DeadGatewayInvariant(before, threshold, cooldown, start, m);
      FailuresOnly(before);
      assert run == before + [last];
      if last.Fails? {
        FailsStep(before, last.at, threshold, cooldown, start, m);
      } else {
        DispatchStep(before, last.at, threshold, cooldown, start, m);
      }
    }
  }

  /** Dead-gateway bound: over an interval of length T with at most `m` attempts in flight, a dead
      gateway is tried at most threshold + m - 1 + m * (T / cooldown) times. */
  lemma DeadGatewayBound(run: seq<Move>, threshold: nat, cooldown: int, start: int, m: nat, end: int)
    requires threshold > 0 && cooldown > 0 && m > 0 && DeadGatewayRun(run, threshold, cooldown, start, m)
    requires Clock(run, start) <= end
    ensures Dispatches(run) <= threshold + m - 1 + m * ((end - start) / cooldown)
  {
    DeadGatewayInvariant(run, threshold, cooldown, start, m);
    if Tripped(Failures(run), threshold) {
      BudgetGrows(threshold, m, cooldown, LatestFailure(Failures(run)) - start, end - start);
    } else {
      BudgetGrows(threshold, m, cooldown, 0, end - start);
    }
  }

  /** With one request outstanding at a time: threshold + T / cooldown. */
  lemma SequentialDeadGatewayBound(run: seq<Move>, threshold: nat, cooldown: int, start: int, end: int)
    requires threshold > 0 && cooldown > 0 && DeadGatewayRun(run, threshold, cooldown, start, 1)
    requires Clock(run, start) <= end
    ensures Dispatches(run) <= threshold + (end - start) / cooldown
  {
    DeadGatewayBound(run, threshold, cooldown, start, 1, end);
  }
}
