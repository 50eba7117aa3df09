/** First use of a path is a race: a caller that looked for a breaker before there was one puts its own, untouched
    breaker in place of whatever the path has by then. */
module BreakerRace {
  import opened Status
  import opened Keys
  import opened Options
  import opened Pipeline
  import opened PipelineReach
  import opened PipelineSafety
  import opened PipelineTheorems
  import PipelineHistory
  import Proxy
  import Refinement = ProxyRefinement
  import B = Breaker
  import R = Retry

  // ---------- how an open path closes early ----------

  /** The step puts a new breaker on the path. */
  predicate Creates(s: State, step: Step, path: Bytes)
    requires Enabled(s, step)
  {
    match step
    case CallerStep(c, act) =>
      var caller := s.callers[c];
      caller.path == path && ((act.Check? && caller.pc.CheckCreate?) || (act.Credit? && caller.pc.rec.Create?))
    case FlightStep(f, move) =>
      s.flights[f].path == path && move.RecordFault? && s.flights[f].phase.rec.Create?
    case Tick(_) => false
  }

  lemma OpenAfterRecording(threshold: B.Threshold, table: B.Table, rec: B.RecordPc, path: Bytes, success: bool,
                           now: nat, p: Bytes)
    requires B.WellFormed(table) && Proxy.Rejects(table, p, now)
    requires B.Settled(rec) ==> rec.b < |table.inners| && table.inners[rec.b].path == path
    ensures var table' := B.RecordStep(threshold, table, rec, path, success, now).0;
            B.WellFormed(table') && (Proxy.Rejects(table', p, now) <==> !(rec.Create? && path == p))
  {
  }

  lemma OpenAfterCredit(cfg: Config, s: State, c: nat, p: Bytes)
    requires B.WellFormed(s.breakers) && CallerEnabled(s, c, Credit) && CallerOk(cfg, s, s.callers[c])
    requires Proxy.Rejects(s.breakers, p, s.now)
    ensures var t := DoCredit(cfg, s, c);
            B.WellFormed(t.breakers)
            && (!Proxy.Rejects(t.breakers, p, s.now) <==> Creates(s, CallerStep(c, Credit), p))
  {
    var caller := s.callers[c];
    OpenAfterRecording(cfg.threshold, s.breakers, caller.pc.rec, caller.path, true, s.now, p);
  }

  lemma OpenAfterCheck(s: State, c: nat, p: Bytes)
    requires B.WellFormed(s.breakers) && CallerEnabled(s, c, Check) && Proxy.Rejects(s.breakers, p, s.now)
    ensures var t := DoCheck(s, c);
            B.WellFormed(t.breakers)
            && (!Proxy.Rejects(t.breakers, p, s.now) <==> Creates(s, CallerStep(c, Check), p))
  {
  }

  lemma OpenAfterCaller(cfg: Config, s: State, c: nat, act: CallerAction, p: Bytes)
    requires B.WellFormed(s.breakers) && CallerEnabled(s, c, act) && CallerOk(cfg, s, s.callers[c])
    requires Proxy.Rejects(s.breakers, p, s.now)
    ensures var t := ApplyCaller(cfg, s, c, act);
            B.WellFormed(t.breakers) && t.now == s.now
            && (!Proxy.Rejects(t.breakers, p, s.now) <==> Creates(s, CallerStep(c, act), p))
  {
    match act
    case Credit => OpenAfterCredit(cfg, s, c, p);
    case Check => OpenAfterCheck(s, c, p);
    case _ =>
  }

  lemma OpenAfterFlight(cfg: Config, s: State, f: nat, move: FlightAction, p: Bytes)
    requires B.WellFormed(s.breakers) && FlightEnabled(s, f, move) && FlightOk(s, s.flights[f])
    requires Proxy.Rejects(s.breakers, p, s.now)
    ensures var t := ApplyFlight(cfg, s, f, move);
            B.WellFormed(t.breakers) && t.now == s.now
            && (!Proxy.Rejects(t.breakers, p, s.now) <==> Creates(s, FlightStep(f, move), p))
  {
    var flight := s.flights[f];
    if move.RecordFault? {
      OpenAfterRecording(cfg.threshold, s.breakers, flight.phase.rec, flight.path, false, s.now, p);
    }
  }

  /** A path that rejects calls stops doing so, before its time is up, exactly when a late first user puts its own
      breaker there. */
  lemma ClosesEarlyExactlyWhen(cfg: Config, s: State, step: Step, p: Bytes)
    requires Structure(cfg, s) && Enabled(s, step) && !step.Tick? && Proxy.Rejects(s.breakers, p, s.now)
    ensures var t := Apply(cfg, s, step);
            B.WellFormed(t.breakers) && (!Proxy.Rejects(t.breakers, p, t.now) <==> Creates(s, step, p))
  {
    match step
    case CallerStep(c, act) => OpenAfterCaller(cfg, s, c, act, p);
    case FlightStep(f, move) => OpenAfterFlight(cfg, s, f, move, p);
  }

  // ---------- a path that rejects calls twice ----------

  /** Caller 0 is free, nothing is in the air or cached. */
  predicate Quiet(s: State) {
    && B.WellFormed(s.breakers) && 0 < |s.callers| && s.callers[0].pc.Idle? && s.inFlight == map[] && s.cache == map[]
  }

  /** Caller 0 alone went on from s to t, at one time. */
  ghost predicate Alone(cfg: Config, s: State, t: State) {
    && Reaches(cfg, s, t) && Quiet(t) && |t.callers| == |s.callers| && t.callers[1..] == s.callers[1..]
    && t.now == s.now && s.replies <= t.replies
  }

  /** The path's breaker counted k calls, all of them faults, and has not tripped. */
  predicate Failing(table: B.Table, p: Bytes, k: nat)
    requires B.WellFormed(table)
  {
    var found := B.Ensured(table, p);
    found.inners[found.current[p]] == B.Inner(p, k, k, None)
  }

  function Fault(): Outcome {
    Err(UpstreamError(INTERNAL, []))
  }

  /** One more request that ends in a fault. */
  lemma OneFault(cfg: Config, s: State, p: Bytes) returns (t: State)
    requires Quiet(s) && NulFree(p) && cfg.retryMax >= 1 && !Proxy.Rejects(s.breakers, p, s.now)
    ensures Alone(cfg, s, t) && t.breakers == B.Recorded(cfg.threshold, B.Ensured(s.breakers, p), p, false, s.now)
  {
    assert R.IsRetryRun(cfg.retryMax, [Fault()]);
    t := Refinement.HandlingIsARun(cfg, s, 0, p, [], [Fault()], s.now);
  }

  /** Faults until the breaker trips. */
  lemma {:induction false} Trips(cfg: Config, s: State, p: Bytes, k: nat) returns (t: State)
    requires Quiet(s) && NulFree(p) && cfg.retryMax >= 1 && cfg.threshold.num <= cfg.threshold.den
    requires k < B.MIN_REQUESTS && Failing(s.breakers, p, k)
    ensures Alone(cfg, s, t) && Proxy.Rejects(t.breakers, p, t.now)
    decreases B.MIN_REQUESTS - k
  {
    t := OneFault(cfg, s, p);
    if k + 1 < B.MIN_REQUESTS {
      var next := t;
      t := Trips(cfg, next, p, k + 1);
      Then(cfg, s, next, t);
    } else {
      assert (k + 1) * cfg.threshold.den >= cfg.threshold.num * (k + 1);
      assert B.ShouldTrip(cfg.threshold, k + 1, k + 1);
    }
  }

  predicate RejectedOn(r: Reply, p: Bytes) {
    r.path == p && r.source.FromBreaker?
  }

  /** From an untouched breaker to the first rejected request. */
  lemma TripsAndRejects(cfg: Config, s: State, p: Bytes) returns (t: State)
    requires Quiet(s) && NulFree(p) && cfg.retryMax >= 1 && cfg.threshold.num <= cfg.threshold.den
    requires Failing(s.breakers, p, 0)
    ensures Alone(cfg, s, t) && t.replies != []
    ensures RejectedOn(t.replies[|t.replies| - 1], p) && t.replies[|t.replies| - 1].at == s.now
  {
    var open := Trips(cfg, s, p, 0);
    t := Refinement.HandlingIsARun(cfg, open, 0, p, [], [], open.now);
    Then(cfg, s, open, t);
  }

  ghost predicate TwiceOpen(cfg: Config, n: nat, s: State, p: Bytes, r: Reply, r': Reply, gap: nat) {
    Reachable(cfg, n, s) && r in s.replies && r' in s.replies && RejectedOn(r, p) && RejectedOn(r', p)
    && r'.at == r.at + gap
  }

  /** Some run of n callers rejects calls for the path at two times that far apart. */
  ghost predicate RejectsAgainAfter(cfg: Config, n: nat, p: Bytes, gap: nat) {
    exists s: State, r: Reply, r': Reply :: TwiceOpen(cfg, n, s, p, r, r', gap)
  }

  function AllIdle(n: nat): State {
    State(seq(n, _ => Caller([], [], Idle)), [], map[], map[], map[], B.Table([], map[]), [], [], 0)
  }

  /** Caller 1 has looked for the path's breaker, found none, and stalls. */
  lemma Stalls(cfg: Config, n: nat, p: Bytes) returns (t: State)
    requires n >= 2 && NulFree(p) && cfg.retryMax >= 1
    ensures Reachable(cfg, n, t) && Quiet(t) && |t.callers| == n && t.breakers == B.Table([], map[])
    ensures t.callers[1] == Caller(p, [], CheckCreate)
  {
    var s := AllIdle(n);
    InitReachable(cfg, n, s);
    var looked := Refinement.LooksUp(cfg, s, 1, p, []);
    var look := CallerStep(1, Check);
    ThenTakes(cfg, s, looked, look);
    t := Apply(cfg, looked, look);
    ReachesOn(cfg, n, s, t);
  }

  /** However long ago a path rejected calls, it can do so again: with two callers the stalled one puts an untouched
      breaker on the path, and that trips in its turn. */
  lemma RaceReopens(cfg: Config, n: nat, p: Bytes, gap: nat)
    requires n >= 2 && NulFree(p) && cfg.retryMax >= 1 && cfg.threshold.num <= cfg.threshold.den
    ensures RejectsAgainAfter(cfg, n, p, gap)
  {
    var stalled := Stalls(cfg, n, p);
    var first := TripsAndRejects(cfg, stalled, p);
    assert first.callers[1] == first.callers[1..][0] == stalled.callers[1..][0];
    var create, later := CallerStep(1, Check), Tick(gap);
    ThenTakes(cfg, stalled, first, create);
    var created := Apply(cfg, first, create);
    ThenTakes(cfg, stalled, created, later);
    var waited := Apply(cfg, created, later);
    var second := TripsAndRejects(cfg, waited, p);
    Then(cfg, stalled, waited, second);
    ReachesOn(cfg, n, stalled, second);
    var r, r' := first.replies[|first.replies| - 1], second.replies[|second.replies| - 1];
    assert r == second.replies[|first.replies| - 1];
    assert TwiceOpen(cfg, n, second, p, r, r', gap);
  }

  // ---------- without a race ----------

  /** Each path has had one breaker. */
  predicate OneEach(table: B.Table) {
    forall b | 0 <= b < |table.inners| ::
      table.inners[b].path in table.current && table.current[table.inners[b].path] == b
  }

  predicate FlightUnraced(known: map<Bytes, nat>, flight: Flight) {
    flight.path in known && (flight.phase.Recording? ==> !flight.phase.rec.Create?)
  }

  predicate CallerUnraced(known: map<Bytes, nat>, caller: Caller) {
    && (caller.pc.CheckCreate? ==> caller.path !in known)
    && (caller.pc.CheckState? || caller.pc.Join? || caller.pc.HasFlight() ==> caller.path in known)
    && (caller.pc.Crediting? ==> !caller.pc.rec.Create?)
  }

  /** At most one caller, and whoever is past the check has found its path's only breaker. */
  ghost predicate Unraced(s: State) {
    && |s.callers| <= 1 && OneEach(s.breakers)
    && (forall f | 0 <= f < |s.flights| :: FlightUnraced(s.breakers.current, s.flights[f]))
    && (forall c | 0 <= c < |s.callers| :: CallerUnraced(s.breakers.current, s.callers[c]))
  }

  lemma RecordingUnraced(threshold: B.Threshold, table: B.Table, rec: B.RecordPc, path: Bytes, success: bool, now: nat)
    requires B.WellFormed(table) && OneEach(table) && path in table.current && !rec.Create?
    requires B.Settled(rec) ==> rec.b < |table.inners|
    ensures var (table', rec') := B.RecordStep(threshold, table, rec, path, success, now);
            table'.current == table.current && OneEach(table') && !rec'.Create?
  {
  }

  lemma CreditUnraced(cfg: Config, s: State, c: nat)
    requires Unraced(s) && B.WellFormed(s.breakers) && CallerEnabled(s, c, Credit)
    ensures Unraced(DoCredit(cfg, s, c))
  {
    var caller := s.callers[c];
    RecordingUnraced(cfg.threshold, s.breakers, caller.pc.rec, caller.path, true, s.now);
  }

  lemma CheckUnraced(s: State, c: nat)
    requires Unraced(s) && CallerEnabled(s, c, Check)
    ensures Unraced(DoCheck(s, c))
  {
  }

  lemma JoinUnraced(s: State, c: nat)
    requires Unraced(s) && CallerEnabled(s, c, JoinFlight)
    ensures Unraced(DoJoin(s, c))
  {
  }

  lemma CallerStepUnraced(cfg: Config, s: State, c: nat, act: CallerAction)
    requires Unraced(s) && B.WellFormed(s.breakers) && CallerEnabled(s, c, act)
    ensures Unraced(ApplyCaller(cfg, s, c, act))
  {
    match act
    case Credit => CreditUnraced(cfg, s, c);
    case Check => CheckUnraced(s, c);
    case JoinFlight => JoinUnraced(s, c);
    case _ =>
  }

  lemma FaultUnraced(cfg: Config, s: State, f: nat)
    requires Unraced(s) && B.WellFormed(s.breakers) && FlightEnabled(s, f, RecordFault)
    ensures Unraced(DoRecordFault(cfg, s, f))
  {
    var flight := s.flights[f];
    RecordingUnraced(cfg.threshold, s.breakers, flight.phase.rec, flight.path, false, s.now);
  }

  lemma FlightStepUnraced(cfg: Config, s: State, f: nat, move: FlightAction)
    requires Unraced(s) && B.WellFormed(s.breakers) && FlightEnabled(s, f, move)
    ensures Unraced(ApplyFlight(cfg, s, f, move))
  {
    if move.RecordFault? { FaultUnraced(cfg, s, f); }
  }

  lemma NextUnraced(cfg: Config, s: State, t: State)
    requires Unraced(s) && Next(cfg, s, t)
    ensures Unraced(t)
  {
    var step :| Enabled(s, step) && t == Apply(cfg, s, step);
    match step
    case CallerStep(c, act) => CallerStepUnraced(cfg, s, c, act);
    case FlightStep(f, move) => FlightStepUnraced(cfg, s, f, move);
    case Tick(_) =>
  }

  lemma {:induction false} RunUnraced(cfg: Config, n: nat, run: seq<State>, i: nat)
    requires IsRun(cfg, n, run) && i < |run| && n <= 1
    ensures Unraced(run[i])
  {
    if i > 0 {
      RunUnraced(cfg, n, run, i - 1);
      assert Moves(cfg, run, i - 1);
      NextUnraced(cfg, run[i - 1], run[i]);
    }
  }

  lemma LoneCallerOpensOnce(cfg: Config, n: nat, p: Bytes, s: State, r: Reply, r': Reply, gap: nat)
    requires TwiceOpen(cfg, n, s, p, r, r', gap) && n <= 1
    ensures gap <= B.RESET_AFTER_MS
  {
    var run: seq<State> :| EndsIn(cfg, n, run, s);
    var last := |run| - 1;
    RunUnraced(cfg, n, run, last);
    RunSafe(cfg, n, run, last, [], 0);
    assert PipelineHistory.ReplyOk(cfg, s, r);
    PathOpenOnce(cfg, n, run, last, last, r, r', r.source.b);
  }

  /** A path can reject calls at times more than a reset period apart exactly when a second caller can race for its
      first use. */
  lemma RejectsAgainExactlyWhen(cfg: Config, n: nat, p: Bytes, gap: nat)
    requires NulFree(p) && cfg.retryMax >= 1 && cfg.threshold.num <= cfg.threshold.den && gap > B.RESET_AFTER_MS
    ensures RejectsAgainAfter(cfg, n, p, gap) <==> n >= 2
  {
    if n >= 2 {
      RaceReopens(cfg, n, p, gap);
    } else if RejectsAgainAfter(cfg, n, p, gap) {
      var s: State, r: Reply, r': Reply :| TwiceOpen(cfg, n, s, p, r, r', gap);
      LoneCallerOpensOnce(cfg, n, p, s, r, r', gap);
    }
  }
}
