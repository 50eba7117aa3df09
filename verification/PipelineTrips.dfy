/** When breakers trip, in every interleaving of the atomic steps of concurrent recordings. */
module PipelineTrips {
  import opened Options
  import opened Status
  import opened Pipeline
  import opened PipelineSafety
  import opened PipelineHistory
  import opened PipelineTheorems
  import opened Tally
  import B = Breaker

  /** At least ten calls, of which at least the threshold's share failed. */
  predicate Rate(threshold: B.Threshold, total: nat, failures: nat) {
    total >= 10 && failures * threshold.den >= threshold.num * total
  }

  /** The breaker once counted that many calls, and no fewer failures since. */
  ghost predicate Warranted(threshold: B.Threshold, inner: B.Inner) {
    exists total: nat, failures: nat {:trigger Rate(threshold, total, failures)} ::
      Rate(threshold, total, failures) && total <= inner.total && failures <= inner.failures
  }

  function CallerRec(caller: Caller): B.RecordPc {
    if caller.pc.Crediting? then caller.pc.rec else B.Done
  }

  function FlightRec(flight: Flight): B.RecordPc {
    if flight.phase.Recording? then flight.phase.rec else B.Done
  }

  // ---------- no breaker trips unwarranted ----------

  /** What a recording has read and decided. */
  ghost predicate RecOk(threshold: B.Threshold, table: B.Table, rec: B.RecordPc) {
    && (B.Settled(rec) ==> rec.b < |table.inners|)
    && (rec.ReadFailures? ==> rec.total <= table.inners[rec.b].total)
    && (rec.Trip? ==> Warranted(threshold, table.inners[rec.b]))
  }

  ghost predicate TableOk(threshold: B.Threshold, table: B.Table) {
    forall b | 0 <= b < |table.inners| && table.inners[b].trippedAt.Some? :: Warranted(threshold, table.inners[b])
  }

  ghost predicate TripsOk(cfg: Config, s: State) {
    && TableOk(cfg.threshold, s.breakers)
    && (forall c | 0 <= c < |s.callers| :: RecOk(cfg.threshold, s.breakers, CallerRec(s.callers[c])))
    && (forall f | 0 <= f < |s.flights| :: RecOk(cfg.threshold, s.breakers, FlightRec(s.flights[f])))
  }

  lemma StaysWarranted(threshold: B.Threshold, inner: B.Inner, inner': B.Inner)
    requires Warranted(threshold, inner) && B.Advances(inner, inner')
    ensures Warranted(threshold, inner')
  {
  }

  lemma RecLater(threshold: B.Threshold, table: B.Table, table': B.Table, rec: B.RecordPc)
    requires RecOk(threshold, table, rec) && B.Grows(table, table')
    ensures RecOk(threshold, table', rec)
  {
    if B.Settled(rec) {
      assert B.Advances(table.inners[rec.b], table'.inners[rec.b]);
      if rec.Trip? { StaysWarranted(threshold, table.inners[rec.b], table'.inners[rec.b]); }
    }
  }

  lemma Judged(threshold: B.Threshold, table: B.Table, b: nat, total: nat)
    requires b < |table.inners| && total <= table.inners[b].total
    requires B.ShouldTrip(threshold, total, table.inners[b].failures)
    ensures Warranted(threshold, table.inners[b])
  {
    assert Rate(threshold, total, table.inners[b].failures);
  }

  lemma RecordStepOk(threshold: B.Threshold, table: B.Table, rec: B.RecordPc, path: Bytes, success: bool, now: nat)
    requires B.WellFormed(table) && TableOk(threshold, table) && RecOk(threshold, table, rec)
    requires B.Settled(rec) ==> table.inners[rec.b].path == path
    ensures var (table', rec') := B.RecordStep(threshold, table, rec, path, success, now);
            TableOk(threshold, table') && RecOk(threshold, table', rec') && B.Grows(table, table')
  {
    var (table', rec') := B.RecordStep(threshold, table, rec, path, success, now);
    B.RecordStepGrows(threshold, table, rec, path, success, now);
    if rec.ReadFailures? && rec'.Trip? { Judged(threshold, table, rec.b, rec.total); }
    forall b | 0 <= b < |table'.inners| && table'.inners[b].trippedAt.Some?
      ensures Warranted(threshold, table'.inners[b]) {
      if b < |table.inners| {
        assert B.Advances(table.inners[b], table'.inners[b]);
        assert Warranted(threshold, table.inners[b]);
        StaysWarranted(threshold, table.inners[b], table'.inners[b]);
      }
    }
  }

  /** One recording went on; the others saw the table grow. */
  lemma OneRecords(cfg: Config, s: State, s': State, c: int, f: int)
    requires TripsOk(cfg, s) && TableOk(cfg.threshold, s'.breakers) && B.Grows(s.breakers, s'.breakers)
    requires |s'.callers| == |s.callers| && |s'.flights| >= |s.flights|
    requires forall d | 0 <= d < |s.callers| && d != c :: s'.callers[d] == s.callers[d]
    requires forall e | 0 <= e < |s.flights| && e != f :: s'.flights[e] == s.flights[e]
    requires forall e | |s.flights| <= e < |s'.flights| :: FlightRec(s'.flights[e]) == B.Done
    requires 0 <= c < |s.callers| ==> RecOk(cfg.threshold, s'.breakers, CallerRec(s'.callers[c]))
    requires 0 <= f < |s.flights| ==> RecOk(cfg.threshold, s'.breakers, FlightRec(s'.flights[f]))
    ensures TripsOk(cfg, s')
  {
    forall d | 0 <= d < |s'.callers| ensures RecOk(cfg.threshold, s'.breakers, CallerRec(s'.callers[d])) {
      if d != c { RecLater(cfg.threshold, s.breakers, s'.breakers, CallerRec(s.callers[d])); }
    }
    forall e | 0 <= e < |s'.flights| ensures RecOk(cfg.threshold, s'.breakers, FlightRec(s'.flights[e])) {
      if e < |s.flights| && e != f { RecLater(cfg.threshold, s.breakers, s'.breakers, FlightRec(s.flights[e])); }
    }
  }

  lemma CreditTripsOk(cfg: Config, s: State, c: nat)
    requires Structure(cfg, s) && TripsOk(cfg, s) && CallerEnabled(s, c, Credit)
    ensures var s' := DoCredit(cfg, s, c);
            && TableOk(cfg.threshold, s'.breakers) && B.Grows(s.breakers, s'.breakers)
            && RecOk(cfg.threshold, s'.breakers, CallerRec(s'.callers[c]))
  {
    var caller := s.callers[c];
    assert CallerOk(cfg, s, caller) && RecOk(cfg.threshold, s.breakers, CallerRec(caller));
    RecordStepOk(cfg.threshold, s.breakers, caller.pc.rec, caller.path, true, s.now);
  }

  lemma CheckTripsOk(cfg: Config, s: State, c: nat)
    requires TripsOk(cfg, s) && CallerEnabled(s, c, Check)
    ensures var s' := DoCheck(s, c);
            && TableOk(cfg.threshold, s'.breakers) && B.Grows(s.breakers, s'.breakers)
            && CallerRec(s'.callers[c]) == B.Done
  {
  }

  lemma CallerTripsOk(cfg: Config, s: State, c: nat, act: CallerAction)
    requires Structure(cfg, s) && TripsOk(cfg, s) && CallerEnabled(s, c, act)
    ensures TripsOk(cfg, ApplyCaller(cfg, s, c, act))
  {
    CallerFrame(cfg, s, c, act);
    match act {
      case Credit => CreditTripsOk(cfg, s, c);
      case Check => CheckTripsOk(cfg, s, c);
      case _ => OtherActs(cfg, s, c, act);
    }
    OneRecords(cfg, s, ApplyCaller(cfg, s, c, act), c, -1);
  }

  /** Nobody records, and no flight that records is new. */
  ghost predicate NoRecording(s: State, s': State, c: nat) {
    && s'.breakers == s.breakers && c < |s.callers| && |s'.callers| == |s.callers|
    && !B.Settled(CallerRec(s'.callers[c])) && !B.Settled(CallerRec(s.callers[c]))
    && (forall e | |s.flights| <= e < |s'.flights| :: FlightRec(s'.flights[e]) == B.Done)
  }

  lemma JoinRecordsNothing(s: State, c: nat)
    requires CallerEnabled(s, c, JoinFlight)
    ensures NoRecording(s, DoJoin(s, c), c)
  {
  }

  lemma CacheRecordsNothing(cfg: Config, s: State, c: nat, act: CallerAction)
    requires B.WellFormed(s.breakers) && CallerEnabled(s, c, act)
    requires act.CacheGet? || act.CacheRemove? || act.OfferToCache? || act.StoreInCache?
    ensures NoRecording(s, ApplyCaller(cfg, s, c, act), c)
  {
  }

  lemma OtherActs(cfg: Config, s: State, c: nat, act: CallerAction)
    requires B.WellFormed(s.breakers) && CallerEnabled(s, c, act) && !act.Credit? && !act.Check?
    ensures NoRecording(s, ApplyCaller(cfg, s, c, act), c)
  {
    match act
    case JoinFlight => JoinRecordsNothing(s, c);
    case Arrive(_, _) =>
    case Wake =>
    case Cancel =>
    case _ => CacheRecordsNothing(cfg, s, c, act);
  }

  lemma FlightTripsOk(cfg: Config, s: State, f: nat, move: FlightAction)
    requires Structure(cfg, s) && TripsOk(cfg, s) && FlightEnabled(s, f, move)
    ensures TripsOk(cfg, ApplyFlight(cfg, s, f, move))
  {
    var s', flight := ApplyFlight(cfg, s, f, move), s.flights[f];
    FlightFrame(cfg, s, f, move);
    assert FlightOk(s, flight) && RecOk(cfg.threshold, s.breakers, FlightRec(flight));
    if move.RecordFault? {
      RecordStepOk(cfg.threshold, s.breakers, flight.phase.rec, flight.path, false, s.now);
    }
    OneRecords(cfg, s, s', -1, f);
  }

  // ---------- a breaker that should trip does ----------

  /** A recording that will still see the breaker's present counts. */
  predicate Pending(table: B.Table, rec: B.RecordPc, b: nat) {
    && b < |table.inners| && B.Settled(rec) && rec.b == b
    && (rec.AddFailure? || rec.ReadTotal? || rec.Trip? || (rec.ReadFailures? && rec.total == table.inners[b].total))
  }

  predicate Due(threshold: B.Threshold, table: B.Table, b: nat) {
    && b < |table.inners| && table.inners[b].trippedAt.None?
    && Rate(threshold, table.inners[b].total, table.inners[b].failures)
  }

  ghost predicate SomePending(s: State, b: nat) {
    || (exists c | 0 <= c < |s.callers| :: Pending(s.breakers, CallerRec(s.callers[c]), b))
    || (exists f | 0 <= f < |s.flights| :: Pending(s.breakers, FlightRec(s.flights[f]), b))
  }

  ghost predicate Covered(cfg: Config, s: State, b: nat) {
    Due(cfg.threshold, s.breakers, b) ==> SomePending(s, b)
  }

  /** A recording's step leaves a breaker that is due in its own hands, or as it was and not in its hands. */
  lemma RecordStepPending(threshold: B.Threshold, table: B.Table, rec: B.RecordPc, path: Bytes, success: bool,
                          now: nat, b: nat)
    requires B.WellFormed(table) && (B.Settled(rec) ==> rec.b < |table.inners|)
    ensures var (table', rec') := B.RecordStep(threshold, table, rec, path, success, now);
            Due(threshold, table', b) ==>
              || Pending(table', rec', b)
              || (b < |table.inners| && table'.inners[b] == table.inners[b] && !Pending(table, rec, b))
  {
  }

  /** Whoever else had a due breaker in hand still has it. */
  lemma StaysCovered(cfg: Config, s: State, s': State, c: int, f: int, b: nat)
    requires Covered(cfg, s, b) && b < |s.breakers.inners|
    requires |s'.callers| == |s.callers| && |s'.flights| >= |s.flights|
    requires forall d | 0 <= d < |s.callers| && d != c :: s'.callers[d] == s.callers[d]
    requires forall e | 0 <= e < |s.flights| && e != f :: s'.flights[e] == s.flights[e]
    requires b < |s'.breakers.inners| && s'.breakers.inners[b] == s.breakers.inners[b]
    requires 0 <= c < |s.callers| ==> !Pending(s.breakers, CallerRec(s.callers[c]), b)
    requires 0 <= f < |s.flights| ==> !Pending(s.breakers, FlightRec(s.flights[f]), b)
    ensures Covered(cfg, s', b)
  {
    if Due(cfg.threshold, s.breakers, b) {
      if d :| 0 <= d < |s.callers| && Pending(s.breakers, CallerRec(s.callers[d]), b) {
        assert Pending(s'.breakers, CallerRec(s'.callers[d]), b);
      } else {
        var e :| 0 <= e < |s.flights| && Pending(s.breakers, FlightRec(s.flights[e]), b);
        assert Pending(s'.breakers, FlightRec(s'.flights[e]), b);
      }
    }
  }

  lemma CreditCovered(cfg: Config, s: State, c: nat, b: nat)
    requires B.WellFormed(s.breakers) && Covered(cfg, s, b) && CallerEnabled(s, c, Credit)
    ensures Covered(cfg, DoCredit(cfg, s, c), b)
  {
    var s', caller := DoCredit(cfg, s, c), s.callers[c];
    RecordStepPending(cfg.threshold, s.breakers, caller.pc.rec, caller.path, true, s.now, b);
    if Due(cfg.threshold, s'.breakers, b) && !Pending(s'.breakers, CallerRec(s'.callers[c]), b) {
      StaysCovered(cfg, s, s', c, -1, b);
    }
  }

  lemma CheckCovered(cfg: Config, s: State, c: nat, b: nat)
    requires Covered(cfg, s, b) && CallerEnabled(s, c, Check)
    ensures Covered(cfg, DoCheck(s, c), b)
  {
    if b < |s.breakers.inners| { StaysCovered(cfg, s, DoCheck(s, c), c, -1, b); }
  }

  lemma CallerCovered(cfg: Config, s: State, c: nat, act: CallerAction, b: nat)
    requires B.WellFormed(s.breakers) && Covered(cfg, s, b) && CallerEnabled(s, c, act)
    ensures Covered(cfg, ApplyCaller(cfg, s, c, act), b)
  {
    match act
    case Credit => CreditCovered(cfg, s, c, b);
    case Check => CheckCovered(cfg, s, c, b);
    case _ =>
      OtherActs(cfg, s, c, act);
      CallerFrame(cfg, s, c, act);
      if b < |s.breakers.inners| { StaysCovered(cfg, s, ApplyCaller(cfg, s, c, act), c, -1, b); }
  }

  lemma FlightCovered(cfg: Config, s: State, f: nat, move: FlightAction, b: nat)
    requires B.WellFormed(s.breakers) && Covered(cfg, s, b) && FlightEnabled(s, f, move)
    ensures Covered(cfg, ApplyFlight(cfg, s, f, move), b)
  {
    var s', flight := ApplyFlight(cfg, s, f, move), s.flights[f];
    FlightFrame(cfg, s, f, move);
    if move.RecordFault? {
      RecordStepPending(cfg.threshold, s.breakers, flight.phase.rec, flight.path, false, s.now, b);
    }
    if Due(cfg.threshold, s'.breakers, b) && !Pending(s'.breakers, FlightRec(s'.flights[f]), b) {
      StaysCovered(cfg, s, s', -1, f, b);
    }
  }

  // ---------- runs ----------

  lemma NextTripsOk(cfg: Config, s: State, s': State, b: nat)
    requires Structure(cfg, s) && TripsOk(cfg, s) && Covered(cfg, s, b) && Next(cfg, s, s')
    ensures TripsOk(cfg, s') && Covered(cfg, s', b)
  {
    var step :| Enabled(s, step) && s' == Apply(cfg, s, step);
    match step
    case CallerStep(c, act) =>
      CallerTripsOk(cfg, s, c, act);
      CallerCovered(cfg, s, c, act, b);
    case FlightStep(f, move) =>
      FlightTripsOk(cfg, s, f, move);
      FlightCovered(cfg, s, f, move, b);
    case Tick(_) =>
      OneRecords(cfg, s, s', -1, -1);
      if b < |s.breakers.inners| { StaysCovered(cfg, s, s', -1, -1, b); }
  }

  lemma {:induction false} RunTripsOk(cfg: Config, n: nat, run: seq<State>, i: nat, b: nat)
    requires IsRun(cfg, n, run) && i < |run|
    ensures TripsOk(cfg, run[i]) && Covered(cfg, run[i], b)
  {
    if i > 0 {
      RunTripsOk(cfg, n, run, i - 1, b);
      RunSafe(cfg, n, run, i - 1, [], 0);
      assert Moves(cfg, run, i - 1);
      NextTripsOk(cfg, run[i - 1], run[i], b);
    }
  }

  /** A breaker that has tripped had counted ten calls or more with the threshold's share of failures; and once no
      recording is under way on it, a breaker that counts so many has tripped. */
  lemma TripsWhenWarranted(cfg: Config, n: nat, run: seq<State>, i: nat, b: nat)
    requires IsRun(cfg, n, run) && i < |run| && b < |run[i].breakers.inners|
    ensures var s := run[i];
            var inner := s.breakers.inners[b];
            && (inner.trippedAt.Some? ==> Warranted(cfg.threshold, inner))
            && (Rate(cfg.threshold, inner.total, inner.failures) && NobodyRecords(s, b) ==> inner.trippedAt.Some?)
  {
    RunTripsOk(cfg, n, run, i, b);
  }

  ghost predicate NobodyRecords(s: State, b: nat) {
    && (forall c | 0 <= c < |s.callers| :: B.Settled(CallerRec(s.callers[c])) ==> CallerRec(s.callers[c]).b != b)
    && (forall f | 0 <= f < |s.flights| :: B.Settled(FlightRec(s.flights[f])) ==> FlightRec(s.flights[f]).b != b)
  }

  /** A path on which a call was rejected has had the threshold's share of some ten or more calls end in a fault. */
  lemma RejectionNeedsFaults(cfg: Config, n: nat, run: seq<State>, i: nat, r: Reply) returns (total: nat)
    requires IsRun(cfg, n, run) && i < |run| && r in run[i].replies && r.source.FromBreaker?
    ensures r.outcome == Err(UpstreamError(14, []))
    ensures total >= 10 && Sum(run[i].flights, FaultedOn(r.path)) * cfg.threshold.den >= cfg.threshold.num * total
  {
    var s := run[i];
    RunSafe(cfg, n, run, i, [], 0);
    assert ReplyOk(cfg, s, r);
    var b := r.source.b;
    TripsWhenWarranted(cfg, n, run, i, b);
    var t: nat, failures: nat :| Rate(cfg.threshold, t, failures) && failures <= s.breakers.inners[b].failures;
    total := t;
    BreakerAccounting(cfg, n, run, i, b);
    MoreFaults(failures, Sum(s.flights, FaultedOn(r.path)), cfg.threshold.den);
  }

  lemma MoreFaults(a: nat, b: nat, den: nat)
    requires a <= b
    ensures a * den <= b * den
  {
  }

  /** A path none of whose flights ended in a fault never rejects a call. */
  lemma HealthyPathNeverRejects(cfg: Config, n: nat, run: seq<State>, i: nat, r: Reply)
    requires IsRun(cfg, n, run) && i < |run| && r in run[i].replies && cfg.threshold.num > 0
    requires forall f | 0 <= f < |run[i].flights| :: FaultedOn(r.path)(run[i].flights[f]) == 0
    ensures !r.source.FromBreaker?
  {
    if r.source.FromBreaker? {
      var total := RejectionNeedsFaults(cfg, n, run, i, r);
      SumZero(run[i].flights, FaultedOn(r.path));
      MoreFaults(1, cfg.threshold.num, total);
      assert false;
    }
  }
}
