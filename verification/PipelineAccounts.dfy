/** What the breakers count and how large the cache gets, in every interleaving. */
module PipelineAccounts {
  import opened Status
  import opened Cache
  import opened Pipeline
  import opened PipelineSafety
  import opened Tally
  import B = Breaker

  // ---------- weights ----------

  ghost function FailuresOf(p: Bytes): B.Inner -> nat {
    (inner: B.Inner) => if inner.path == p then inner.failures else 0
  }

  ghost function TotalsOf(p: Bytes): B.Inner -> nat {
    (inner: B.Inner) => if inner.path == p then inner.total else 0
  }

  predicate PastTotal(rec: B.RecordPc) {
    rec.AddFailure? || rec.ReadTotal? || rec.ReadFailures? || rec.Trip? || rec.Done?
  }

  predicate PastFailure(rec: B.RecordPc) {
    PastTotal(rec) && !rec.AddFailure?
  }

  /** A flight on path p that ended in an upstream fault and whose failure has been counted. */
  ghost function FaultCounted(p: Bytes): Flight -> nat {
    (flight: Flight) =>
      if flight.path == p
         && ((flight.phase.Recording? && PastFailure(flight.phase.rec))
             || ((flight.phase.Removing? || flight.phase.Landed?) && flight.phase.outcome.IsFault()))
      then 1 else 0
  }

  /** The same, once its call has been counted in the total. */
  ghost function FaultTotalled(p: Bytes): Flight -> nat {
    (flight: Flight) =>
      if flight.path == p
         && ((flight.phase.Recording? && PastTotal(flight.phase.rec))
             || ((flight.phase.Removing? || flight.phase.Landed?) && flight.phase.outcome.IsFault()))
      then 1 else 0
  }

  /** A caller on path p that has counted a healthy answer and not replied yet. */
  ghost function Credited(p: Bytes): Caller -> nat {
    (caller: Caller) =>
      if caller.path == p
         && ((caller.pc.Crediting? && PastTotal(caller.pc.rec)) || caller.pc.Offer? || caller.pc.Store?)
      then 1 else 0
  }

  /** A reply on path p that delivered a flight's healthy answer. */
  ghost function Healthy(p: Bytes): Reply -> nat {
    (r: Reply) => if r.path == p && r.source.FromFlight? && !r.outcome.IsFault() then 1 else 0
  }

  /** A caller about to put its response into the cache. */
  ghost function Storing(): Caller -> nat {
    (caller: Caller) => if caller.pc.Store? then 1 else 0
  }

  // ---------- breaker counters ----------

  /** Over all breakers ever created for path p: failures count faulted flights, and the rest of the
      total counts healthy answers, one per caller that received one. */
  ghost predicate Accounts(s: State, p: Bytes) {
    && Sum(s.breakers.inners, FailuresOf(p)) == Sum(s.flights, FaultCounted(p))
    && Sum(s.breakers.inners, TotalsOf(p))
       == Sum(s.flights, FaultTotalled(p)) + Sum(s.callers, Credited(p)) + Sum(s.replies, Healthy(p))
  }

  function One(condition: bool): nat {
    if condition then 1 else 0
  }

  /** Where a recording stands in its counting, one step on. */
  lemma RecordStepPc(threshold: B.Threshold, table: B.Table, rec: B.RecordPc, path: Bytes, success: bool, now: nat)
    requires B.WellFormed(table) && (B.Settled(rec) ==> rec.b < |table.inners|)
    ensures var rec' := B.RecordStep(threshold, table, rec, path, success, now).1;
            && One(PastTotal(rec')) == One(PastTotal(rec)) + One(rec.AddTotal?)
            && (!success ==> One(PastFailure(rec')) == One(PastFailure(rec)) + One(rec.AddFailure?))
            && (success && !rec.AddFailure? ==> !rec'.AddFailure?)
  {
  }

  lemma RecordStepSums(threshold: B.Threshold, table: B.Table, rec: B.RecordPc, path: Bytes, success: bool,
                       now: nat, p: Bytes)
    requires B.WellFormed(table)
    requires B.Settled(rec) ==> rec.b < |table.inners| && table.inners[rec.b].path == path
    ensures var (table', rec') := B.RecordStep(threshold, table, rec, path, success, now);
            && Sum(table'.inners, FailuresOf(p)) == Sum(table.inners, FailuresOf(p)) + One(path == p && rec.AddFailure?)
            && Sum(table'.inners, TotalsOf(p)) == Sum(table.inners, TotalsOf(p)) + One(path == p && rec.AddTotal?)
            && One(PastTotal(rec')) == One(PastTotal(rec)) + One(rec.AddTotal?)
            && (!success ==> One(PastFailure(rec')) == One(PastFailure(rec)) + One(rec.AddFailure?))
            && (success && !rec.AddFailure? ==> !rec'.AddFailure?)
  {
    var (table', rec') := B.RecordStep(threshold, table, rec, path, success, now);
    RecordStepPc(threshold, table, rec, path, success, now);
    if rec.Create? {
      SumAppend(table.inners, FailuresOf(p), B.Inner(path, 0, 0, B.Options.None));
      SumAppend(table.inners, TotalsOf(p), B.Inner(path, 0, 0, B.Options.None));
    } else if B.Settled(rec) {
      assert table'.inners == table.inners[rec.b := table'.inners[rec.b]];
      SumUpdate(table.inners, FailuresOf(p), rec.b, table'.inners[rec.b]);
      SumUpdate(table.inners, TotalsOf(p), rec.b, table'.inners[rec.b]);
    }
  }

  lemma CallerSum(callers: seq<Caller>, callers': seq<Caller>, c: nat, w: Caller -> nat)
    requires c < |callers| == |callers'|
    requires forall d | 0 <= d < |callers| && d != c :: callers'[d] == callers[d]
    ensures Sum(callers', w) + w(callers[c]) == Sum(callers, w) + w(callers'[c])
  {
    assert callers' == callers[c := callers'[c]];
    SumUpdate(callers, w, c, callers'[c]);
  }

  /** The new replies, at most one, of a step. */
  ghost predicate AtMostOne(replies: seq<Reply>, replies': seq<Reply>) {
    replies' == replies || (|replies'| == |replies| + 1 && replies <= replies')
  }

  ghost function NewHealthy(replies: seq<Reply>, replies': seq<Reply>, p: Bytes): nat
    requires AtMostOne(replies, replies')
  {
    if replies' == replies then 0 else Healthy(p)(replies'[|replies|])
  }

  lemma ReplySum(replies: seq<Reply>, replies': seq<Reply>, p: Bytes)
    requires AtMostOne(replies, replies')
    ensures Sum(replies', Healthy(p)) == Sum(replies, Healthy(p)) + NewHealthy(replies, replies', p)
  {
    if replies' != replies {
      assert replies' == replies + [replies'[|replies|]];
      SumAppend(replies, Healthy(p), replies'[|replies|]);
    }
  }

  /** What a caller's step adds to the breaker totals of path p. */
  ghost function CreditStep(s: State, c: nat, act: CallerAction, p: Bytes): nat
    requires At(s, c)
  {
    One(act.Credit? && s.callers[c].pc.Crediting? && s.callers[c].pc.rec.AddTotal? && s.callers[c].path == p)
  }

  lemma CallerWeights(cfg: Config, s: State, c: nat, act: CallerAction, p: Bytes)
    requires Structure(cfg, s) && CallerEnabled(s, c, act)
    ensures var s' := ApplyCaller(cfg, s, c, act);
            && |s'.callers| == |s.callers|
            && AtMostOne(s.replies, s'.replies)
            && Credited(p)(s'.callers[c]) + NewHealthy(s.replies, s'.replies, p)
               == Credited(p)(s.callers[c]) + CreditStep(s, c, act, p)
  {
    assert CallerOk(cfg, s, s.callers[c]);
    match act
    case Credit => if !s.callers[c].pc.rec.Done? { CreditWeights(cfg, s, c, p); }
    case Check => CheckWeights(s, c, p);
    case CacheGet => GetWeights(s, c, p);
    case Wake => WakeWeights(s, c, p);
    case OfferToCache => OfferWeights(cfg, s, c, p);
    case StoreInCache => StoreWeights(cfg, s, c, p);
    case _ =>
  }

  lemma WakeWeights(s: State, c: nat, p: Bytes)
    requires CallerEnabled(s, c, Wake)
    ensures var s' := DoWake(s, c);
            && AtMostOne(s.replies, s'.replies)
            && Credited(p)(s'.callers[c]) == 0 == Credited(p)(s.callers[c])
            && NewHealthy(s.replies, s'.replies, p) == 0
  {
  }

  lemma OfferWeights(cfg: Config, s: State, c: nat, p: Bytes)
    requires CallerEnabled(s, c, OfferToCache) && CallerOk(cfg, s, s.callers[c])
    ensures var s' := DoOffer(cfg, s, c);
            && AtMostOne(s.replies, s'.replies)
            && Credited(p)(s'.callers[c]) + NewHealthy(s.replies, s'.replies, p) == Credited(p)(s.callers[c])
  {
  }

  lemma StoreWeights(cfg: Config, s: State, c: nat, p: Bytes)
    requires CallerEnabled(s, c, StoreInCache)
    ensures var s' := DoStore(cfg, s, c);
            && AtMostOne(s.replies, s'.replies)
            && Credited(p)(s'.callers[c]) + NewHealthy(s.replies, s'.replies, p) == Credited(p)(s.callers[c])
  {
  }

  lemma CheckWeights(s: State, c: nat, p: Bytes)
    requires B.WellFormed(s.breakers) && CallerEnabled(s, c, Check)
    ensures var s' := DoCheck(s, c);
            && AtMostOne(s.replies, s'.replies)
            && Credited(p)(s'.callers[c]) == 0 == Credited(p)(s.callers[c])
            && NewHealthy(s.replies, s'.replies, p) == 0
  {
  }

  lemma GetWeights(s: State, c: nat, p: Bytes)
    requires CallerEnabled(s, c, CacheGet)
    ensures var s' := DoCacheGet(s, c);
            && AtMostOne(s.replies, s'.replies)
            && Credited(p)(s'.callers[c]) == 0 == Credited(p)(s.callers[c])
            && NewHealthy(s.replies, s'.replies, p) == 0
  {
  }

  lemma CreditWeights(cfg: Config, s: State, c: nat, p: Bytes)
    requires Structure(cfg, s) && CallerEnabled(s, c, Credit) && !s.callers[c].pc.rec.Done?
    ensures var s' := DoCredit(cfg, s, c);
            && s'.replies == s.replies
            && Credited(p)(s'.callers[c]) == Credited(p)(s.callers[c]) + CreditStep(s, c, Credit, p)
  {
    var caller := s.callers[c];
    assert CallerOk(cfg, s, caller);
    RecordStepSums(cfg.threshold, s.breakers, caller.pc.rec, caller.path, true, s.now, p);
  }

  lemma CallerBreakerSums(cfg: Config, s: State, c: nat, act: CallerAction, p: Bytes)
    requires Structure(cfg, s) && CallerEnabled(s, c, act)
    ensures var s' := ApplyCaller(cfg, s, c, act);
            && Sum(s'.breakers.inners, FailuresOf(p)) == Sum(s.breakers.inners, FailuresOf(p))
            && Sum(s'.breakers.inners, TotalsOf(p)) == Sum(s.breakers.inners, TotalsOf(p)) + CreditStep(s, c, act, p)
  {
    var caller := s.callers[c];
    assert CallerOk(cfg, s, caller);
    match act
    case Credit =>
      if !caller.pc.rec.Done? {
        RecordStepSums(cfg.threshold, s.breakers, caller.pc.rec, caller.path, true, s.now, p);
      }
    case Check => CheckSums(s, c, p);
    case _ => assert ApplyCaller(cfg, s, c, act).breakers == s.breakers;
  }

  lemma CheckSums(s: State, c: nat, p: Bytes)
    requires B.WellFormed(s.breakers) && CallerEnabled(s, c, Check)
    ensures Sum(DoCheck(s, c).breakers.inners, FailuresOf(p)) == Sum(s.breakers.inners, FailuresOf(p))
    ensures Sum(DoCheck(s, c).breakers.inners, TotalsOf(p)) == Sum(s.breakers.inners, TotalsOf(p))
  {
    if s.callers[c].pc.CheckCreate? {
      var new_ := B.Inner(s.callers[c].path, 0, 0, B.Options.None);
      SumAppend(s.breakers.inners, FailuresOf(p), new_);
      SumAppend(s.breakers.inners, TotalsOf(p), new_);
    }
  }

  lemma CallerFlightSums(cfg: Config, s: State, c: nat, act: CallerAction, p: Bytes)
    requires B.WellFormed(s.breakers) && CallerEnabled(s, c, act)
    ensures var s' := ApplyCaller(cfg, s, c, act);
            && Sum(s'.flights, FaultCounted(p)) == Sum(s.flights, FaultCounted(p))
            && Sum(s'.flights, FaultTotalled(p)) == Sum(s.flights, FaultTotalled(p))
  {
    if act.JoinFlight? {
      var flight := Flight(s.callers[c].path, s.callers[c].body, [], Calling);
      SumAppend(s.flights, FaultCounted(p), flight);
      SumAppend(s.flights, FaultTotalled(p), flight);
    } else {
      CallerFrame(cfg, s, c, act);
    }
  }

  lemma CallerAccounts(cfg: Config, s: State, c: nat, act: CallerAction, s': State, p: Bytes)
    requires Structure(cfg, s) && Accounts(s, p) && CallerEnabled(s, c, act) && s' == ApplyCaller(cfg, s, c, act)
    ensures Accounts(s', p)
  {
    CallerFrame(cfg, s, c, act);
    CallerWeights(cfg, s, c, act, p);
    CallerSum(s.callers, s'.callers, c, Credited(p));
    ReplySum(s.replies, s'.replies, p);
    CallerBreakerSums(cfg, s, c, act, p);
    CallerFlightSums(cfg, s, c, act, p);
  }

  /** What a flight's step adds to the breaker failures and totals of path p. */
  ghost function FaultStep(s: State, f: nat, move: FlightAction, p: Bytes): (nat, nat)
    requires f < |s.flights|
  {
    var recording := move.RecordFault? && s.flights[f].phase.Recording? && s.flights[f].path == p;
    (One(recording && s.flights[f].phase.rec.AddFailure?), One(recording && s.flights[f].phase.rec.AddTotal?))
  }

  lemma FlightWeights(cfg: Config, s: State, f: nat, move: FlightAction, p: Bytes)
    requires Structure(cfg, s) && FlightEnabled(s, f, move)
    ensures var s' := ApplyFlight(cfg, s, f, move);
            var (failures, totals) := FaultStep(s, f, move, p);
            && |s'.flights| == |s.flights|
            && FaultCounted(p)(s'.flights[f]) == FaultCounted(p)(s.flights[f]) + failures
            && FaultTotalled(p)(s'.flights[f]) == FaultTotalled(p)(s.flights[f]) + totals
            && Sum(s'.breakers.inners, FailuresOf(p)) == Sum(s.breakers.inners, FailuresOf(p)) + failures
            && Sum(s'.breakers.inners, TotalsOf(p)) == Sum(s.breakers.inners, TotalsOf(p)) + totals
  {
    var flight := s.flights[f];
    assert FlightOk(s, flight);
    if move.RecordFault? && !flight.phase.rec.Done? {
      RecordStepSums(cfg.threshold, s.breakers, flight.phase.rec, flight.path, false, s.now, p);
    }
  }

  lemma FlightAccounts(cfg: Config, s: State, f: nat, move: FlightAction, s': State, p: Bytes)
    requires Structure(cfg, s) && Accounts(s, p) && FlightEnabled(s, f, move) && s' == ApplyFlight(cfg, s, f, move)
    ensures Accounts(s', p)
  {
    FlightFrame(cfg, s, f, move);
    FlightWeights(cfg, s, f, move, p);
    SumUpdate(s.flights, FaultCounted(p), f, s'.flights[f]);
    SumUpdate(s.flights, FaultTotalled(p), f, s'.flights[f]);
  }

  lemma StepAccounts(cfg: Config, s: State, step: Step, p: Bytes)
    requires Structure(cfg, s) && Accounts(s, p) && Enabled(s, step)
    ensures Accounts(Apply(cfg, s, step), p)
  {
    match step
    case CallerStep(c, act) => CallerAccounts(cfg, s, c, act, Apply(cfg, s, step), p);
    case FlightStep(f, move) => FlightAccounts(cfg, s, f, move, Apply(cfg, s, step), p);
    case Tick(_) =>
  }

  // ---------- cache size ----------

  /** Entries plus callers already past the capacity check stay below capacity plus the number of callers. */
  ghost predicate Room(cfg: Config, s: State) {
    cfg.capacity >= 1 ==> |s.cache| + Sum(s.callers, Storing()) <= cfg.capacity - 1 + |s.callers|
  }

  /** A caller's own step never raises the sum, except past a check that found room. */
  lemma RoomWeights(cfg: Config, s: State, c: nat, act: CallerAction)
    requires B.WellFormed(s.breakers) && CallerEnabled(s, c, act)
    ensures var s' := ApplyCaller(cfg, s, c, act);
            && |s'.callers| == |s.callers|
            && (|s'.cache| + Storing()(s'.callers[c]) <= |s.cache| + Storing()(s.callers[c])
                || |s'.cache| < cfg.capacity)
  {
    match act
    case StoreInCache =>
      StoredSize(s.cache, s.callers[c].Key(), Result(s, s.callers[c].pc.flight).body, cfg.ttl, s.now);
    case CacheRemove => EvictedSize(s.cache, s.callers[c].Key());
    case _ =>
  }

  lemma CallerRoom(cfg: Config, s: State, c: nat, act: CallerAction, s': State)
    requires B.WellFormed(s.breakers) && Room(cfg, s) && CallerEnabled(s, c, act) && s' == ApplyCaller(cfg, s, c, act)
    ensures Room(cfg, s')
  {
    CallerFrame(cfg, s, c, act);
    RoomWeights(cfg, s, c, act);
    CallerSum(s.callers, s'.callers, c, Storing());
    SumBound(s'.callers, Storing());
  }

  lemma StepRoom(cfg: Config, s: State, step: Step)
    requires Room(cfg, s) && Enabled(s, step)
    ensures Room(cfg, Apply(cfg, s, step))
  {
    match step
    case CallerStep(c, act) => CallerRoom(cfg, s, c, act, Apply(cfg, s, step));
    case FlightStep(f, move) => FlightFrame(cfg, s, f, move);
    case Tick(_) =>
  }

  // ---------- each breaker's balance ----------

  /** A flight that has counted its call in breaker b but not yet its failure. */
  ghost function AboutToFail(b: nat): Flight -> nat {
    (flight: Flight) =>
      if flight.phase.Recording? && flight.phase.rec.AddFailure? && flight.phase.rec.b == b then 1 else 0
  }

  ghost predicate Balanced(s: State, b: nat) {
    && (b < |s.breakers.inners| ==>
          s.breakers.inners[b].failures + Sum(s.flights, AboutToFail(b)) <= s.breakers.inners[b].total)
    && (b >= |s.breakers.inners| ==> Sum(s.flights, AboutToFail(b)) == 0)
  }

  lemma CallerBalanced(cfg: Config, s: State, c: nat, act: CallerAction, b: nat)
    requires Structure(cfg, s) && Balanced(s, b) && CallerEnabled(s, c, act)
    ensures Balanced(ApplyCaller(cfg, s, c, act), b)
  {
    var s' := ApplyCaller(cfg, s, c, act);
    assert CallerOk(cfg, s, s.callers[c]);
    assert Sum(s'.flights, AboutToFail(b)) == Sum(s.flights, AboutToFail(b)) by {
      if act.JoinFlight? {
        SumAppend(s.flights, AboutToFail(b), Flight(s.callers[c].path, s.callers[c].body, [], Calling));
      } else {
        CallerFrame(cfg, s, c, act);
      }
    }
    CallerBreakers(cfg, s, c, act, b);
  }

  /** Callers add breakers and count successes; they never count a failure. */
  lemma CallerBreakers(cfg: Config, s: State, c: nat, act: CallerAction, b: nat)
    requires Structure(cfg, s) && CallerEnabled(s, c, act)
    ensures var table, table' := s.breakers, ApplyCaller(cfg, s, c, act).breakers;
            && |table.inners| <= |table'.inners|
            && (b < |table.inners| ==>
                  table'.inners[b].failures == table.inners[b].failures
                  && table'.inners[b].total >= table.inners[b].total)
            && (|table.inners| <= b < |table'.inners| ==>
                  table'.inners[b].failures == 0 == table'.inners[b].total)
  {
    assert CallerOk(cfg, s, s.callers[c]);
  }

  /** A flight counts a failure only in a breaker where it counted the call before. */
  lemma FlightBreakers(cfg: Config, s: State, f: nat, move: FlightAction, b: nat)
    requires Structure(cfg, s) && FlightEnabled(s, f, move)
    ensures var s' := ApplyFlight(cfg, s, f, move);
            var inners, inners' := s.breakers.inners, s'.breakers.inners;
            var before := AboutToFail(b)(s.flights[f]);
            && |s'.flights| == |s.flights| && |inners| <= |inners'|
            && var after := AboutToFail(b)(s'.flights[f]);
               && (b < |inners| ==> inners'[b].failures + after + inners[b].total
                                    <= inners[b].failures + before + inners'[b].total)
               && (|inners| <= b < |inners'| ==> inners'[b].failures == 0 == inners'[b].total)
               && (b >= |inners| ==> after == 0)
  {
    assert FlightOk(s, s.flights[f]);
  }

  lemma FlightBalanced(cfg: Config, s: State, f: nat, move: FlightAction, b: nat)
    requires Structure(cfg, s) && Balanced(s, b) && FlightEnabled(s, f, move)
    ensures Balanced(ApplyFlight(cfg, s, f, move), b)
  {
    var s' := ApplyFlight(cfg, s, f, move);
    FlightFrame(cfg, s, f, move);
    FlightBreakers(cfg, s, f, move, b);
    SumUpdate(s.flights, AboutToFail(b), f, s'.flights[f]);
    SumAtLeast(s.flights, AboutToFail(b), f);
  }

  lemma StepBalanced(cfg: Config, s: State, step: Step, b: nat)
    requires Structure(cfg, s) && Balanced(s, b) && Enabled(s, step)
    ensures Balanced(Apply(cfg, s, step), b)
  {
    match step
    case CallerStep(c, act) => CallerBalanced(cfg, s, c, act, b);
    case FlightStep(f, move) => FlightBalanced(cfg, s, f, move, b);
    case Tick(_) =>
  }
}
