/** What every interleaving of the pipeline's steps keeps. */
module PipelineSafety {
  import opened Status
  import opened Keys
  import opened Cache
  import opened Pipeline
  import B = Breaker

  // ---------- structure ----------

  ghost predicate RecordsFor(s: State, rec: B.RecordPc, path: Bytes) {
    B.Settled(rec) ==> rec.b < |s.breakers.inners| && s.breakers.inners[rec.b].path == path
  }

  ghost predicate CallerOk(cfg: Config, s: State, caller: Caller) {
    && (!caller.pc.Idle? ==> NulFree(caller.path))
    && (caller.pc.CheckState? ==>
          caller.pc.b < |s.breakers.inners| && s.breakers.inners[caller.pc.b].path == caller.path)
    && (caller.pc.HasFlight() ==>
          && caller.pc.flight < |s.flights|
          && s.flights[caller.pc.flight].path == caller.path && s.flights[caller.pc.flight].body == caller.body)
    && (caller.pc.HasFlight() && !caller.pc.Waiting? ==>
          LandedFlight(s, caller.pc.flight) && !Result(s, caller.pc.flight).IsFault())
    && (caller.pc.Crediting? ==> RecordsFor(s, caller.pc.rec, caller.path) && !caller.pc.rec.AddFailure?)
    && (caller.pc.Offer? || caller.pc.Store? ==> Result(s, caller.pc.flight).Ok?)
    && (caller.pc.LookUp? || caller.pc.Evict? || caller.pc.Offer? || caller.pc.Store? ==> cfg.cacheEnabled)
  }

  ghost predicate FlightOk(s: State, flight: Flight) {
    && NulFree(flight.path)
    && (flight.phase.Recording? ==> flight.phase.outcome.IsFault() && RecordsFor(s, flight.phase.rec, flight.path))
  }

  ghost predicate Structure(cfg: Config, s: State) {
    && cfg.retryMax >= 1 && B.WellFormed(s.breakers)
    && (forall c | 0 <= c < |s.callers| :: CallerOk(cfg, s, s.callers[c]))
    && (forall f | 0 <= f < |s.flights| :: FlightOk(s, s.flights[f]))
  }

  /** Flights are only added, and landed flights stay as they are. */
  ghost predicate FlightsGrow(old_: seq<Flight>, new_: seq<Flight>) {
    && |old_| <= |new_|
    && (forall f | 0 <= f < |old_| ::
          && new_[f].path == old_[f].path && new_[f].body == old_[f].body
          && (old_[f].phase.Landed? ==> new_[f] == old_[f]))
  }

  ghost predicate Grows(s: State, s': State) {
    B.Grows(s.breakers, s'.breakers) && FlightsGrow(s.flights, s'.flights)
  }

  lemma CallerStepBreakers(cfg: Config, s: State, c: nat, act: CallerAction)
    requires Structure(cfg, s) && CallerEnabled(s, c, act)
    ensures var s' := ApplyCaller(cfg, s, c, act);
            && B.Grows(s.breakers, s'.breakers) && B.WellFormed(s'.breakers)
            && (B.TripsPast(s.breakers, s.now) ==> B.TripsPast(s'.breakers, s'.now))
  {
    match act
    case Credit =>
      assert CallerOk(cfg, s, s.callers[c]);
      if !s.callers[c].pc.rec.Done? {
        B.RecordStepGrows(cfg.threshold, s.breakers, s.callers[c].pc.rec, s.callers[c].path, true, s.now);
      }
    case _ =>
  }

  lemma FlightStepBreakers(cfg: Config, s: State, f: nat, move: FlightAction)
    requires Structure(cfg, s) && FlightEnabled(s, f, move)
    ensures var s' := ApplyFlight(cfg, s, f, move);
            && B.Grows(s.breakers, s'.breakers) && B.WellFormed(s'.breakers)
            && (B.TripsPast(s.breakers, s.now) ==> B.TripsPast(s'.breakers, s'.now))
  {
    match move
    case RecordFault =>
      assert FlightOk(s, s.flights[f]);
      if !s.flights[f].phase.rec.Done? {
        B.RecordStepGrows(cfg.threshold, s.breakers, s.flights[f].phase.rec, s.flights[f].path, false, s.now);
      }
    case _ =>
  }

  /** A caller's step leaves every other caller, and every flight, as it was; it may add a flight. */
  lemma CallerFrame(cfg: Config, s: State, c: nat, act: CallerAction)
    requires B.WellFormed(s.breakers) && CallerEnabled(s, c, act)
    ensures var s' := ApplyCaller(cfg, s, c, act);
            && |s'.callers| == |s.callers|
            && (forall d | 0 <= d < |s.callers| && d != c :: s'.callers[d] == s.callers[d])
            && s'.calls == s.calls && s'.now == s.now
            && (!act.JoinFlight? ==> OnlyCaller(s, s', c))
            && (act.JoinFlight? ==>
                  |s.flights| <= |s'.flights| && forall f | 0 <= f < |s.flights| :: s'.flights[f] == s.flights[f])
  {
  }

  /** A flight's step leaves the callers, the cache, the replies and every other flight as they were. */
  lemma FlightFrame(cfg: Config, s: State, f: nat, move: FlightAction)
    requires B.WellFormed(s.breakers) && FlightEnabled(s, f, move)
    ensures var s' := ApplyFlight(cfg, s, f, move);
            && s'.callers == s.callers && |s'.flights| == |s.flights| && s'.flights == s.flights[f := s'.flights[f]]
            && s'.flights[f].path == s.flights[f].path && s'.flights[f].body == s.flights[f].body
            && !s.flights[f].phase.Landed?
            && s'.cache == s.cache && s'.lastInsert == s.lastInsert && s'.replies == s.replies && s'.now == s.now
            && (!move.Upstream? ==> s'.calls == s.calls && s'.flights[f].log == s.flights[f].log)
            && (!move.LeaveMap? ==> s'.inFlight == s.inFlight)
  {
  }

  lemma StepGrows(cfg: Config, s: State, step: Step)
    requires Structure(cfg, s) && Enabled(s, step)
    ensures Grows(s, Apply(cfg, s, step)) && B.WellFormed(Apply(cfg, s, step).breakers)
    ensures B.TripsPast(s.breakers, s.now) ==> B.TripsPast(Apply(cfg, s, step).breakers, Apply(cfg, s, step).now)
  {
    match step
    case CallerStep(c, act) =>
      CallerStepBreakers(cfg, s, c, act);
      CallerFrame(cfg, s, c, act);
    case FlightStep(f, move) =>
      FlightStepBreakers(cfg, s, f, move);
      FlightFrame(cfg, s, f, move);
    case Tick(_) =>
  }

  // ---------- the in-flight map ----------

  /** Map entries and unresolved flights correspond one to one. */
  ghost predicate FlightMap(flights: seq<Flight>, inFlight: map<Bytes, nat>) {
    && (forall k | k in inFlight ::
          inFlight[k] < |flights| && flights[inFlight[k]].Key() == k && !flights[inFlight[k]].phase.Landed?)
    && (forall f | 0 <= f < |flights| && !flights[f].phase.Landed? ::
          flights[f].Key() in inFlight && inFlight[flights[f].Key()] == f)
  }

  lemma StayAloft(flights: seq<Flight>, inFlight: map<Bytes, nat>, f: nat, flight: Flight)
    requires FlightMap(flights, inFlight) && f < |flights| && !flights[f].phase.Landed? && !flight.phase.Landed?
    requires flight.Key() == flights[f].Key()
    ensures FlightMap(flights[f := flight], inFlight)
  {
  }

  /** Removing a flight's key removes its own entry and no other. */
  lemma Land(flights: seq<Flight>, inFlight: map<Bytes, nat>, f: nat, flight: Flight)
    requires FlightMap(flights, inFlight) && f < |flights| && !flights[f].phase.Landed? && flight.phase.Landed?
    requires flight.Key() == flights[f].Key()
    ensures inFlight[flight.Key()] == f
    ensures FlightMap(flights[f := flight], inFlight - {flight.Key()})
  {
  }

  lemma StepFlightMap(cfg: Config, s: State, step: Step)
    requires FlightMap(s.flights, s.inFlight) && Enabled(s, step)
    ensures var s' := Apply(cfg, s, step); FlightMap(s'.flights, s'.inFlight)
  {
    match step
    case CallerStep(c, act) =>
      CallerFrame(cfg, s, c, act);
    case FlightStep(f, move) =>
      var flight := ApplyFlight(cfg, s, f, move).flights[f];
      FlightFrame(cfg, s, f, move);
      if move.LeaveMap? {
        Land(s.flights, s.inFlight, f, flight);
      } else {
        StayAloft(s.flights, s.inFlight, f, flight);
      }
    case Tick(_) =>
  }

  // ---------- structure is kept ----------

  lemma JoinedCaller(cfg: Config, s: State, c: nat)
    requires Structure(cfg, s) && FlightMap(s.flights, s.inFlight) && CallerEnabled(s, c, JoinFlight)
    ensures CallerOk(cfg, DoJoin(s, c), DoJoin(s, c).callers[c])
  {
    var caller := s.callers[c];
    assert CallerOk(cfg, s, caller);
    if caller.Key() in s.inFlight {
      var flight := s.flights[s.inFlight[caller.Key()]];
      assert FlightOk(s, flight);
      RequestKeyInjective(caller.path, caller.body, flight.path, flight.body);
    }
  }

  lemma CreditingCaller(cfg: Config, s: State, c: nat)
    requires Structure(cfg, s) && CallerEnabled(s, c, Credit)
    ensures CallerOk(cfg, DoCredit(cfg, s, c), DoCredit(cfg, s, c).callers[c])
  {
    var caller := s.callers[c];
    assert CallerOk(cfg, s, caller);
    if !caller.pc.rec.Done? {
      B.RecordStepGrows(cfg.threshold, s.breakers, caller.pc.rec, caller.path, true, s.now);
    }
  }

  lemma CheckingCaller(cfg: Config, s: State, c: nat)
    requires Structure(cfg, s) && CallerEnabled(s, c, Check)
    ensures CallerOk(cfg, DoCheck(s, c), DoCheck(s, c).callers[c])
  {
    assert CallerOk(cfg, s, s.callers[c]);
  }

  lemma ActingCaller(cfg: Config, s: State, c: nat, act: CallerAction)
    requires Structure(cfg, s) && CallerEnabled(s, c, act) && !act.JoinFlight? && !act.Credit? && !act.Check?
    ensures CallerOk(cfg, ApplyCaller(cfg, s, c, act), ApplyCaller(cfg, s, c, act).callers[c])
  {
    assert CallerOk(cfg, s, s.callers[c]);
  }

  lemma OwnStep(cfg: Config, s: State, c: nat, act: CallerAction)
    requires Structure(cfg, s) && FlightMap(s.flights, s.inFlight) && CallerEnabled(s, c, act)
    ensures CallerOk(cfg, ApplyCaller(cfg, s, c, act), ApplyCaller(cfg, s, c, act).callers[c])
  {
    match act
    case JoinFlight => JoinedCaller(cfg, s, c);
    case Credit => CreditingCaller(cfg, s, c);
    case Check => CheckingCaller(cfg, s, c);
    case _ => ActingCaller(cfg, s, c, act);
  }

  lemma ActingFlight(cfg: Config, s: State, f: nat, move: FlightAction)
    requires Structure(cfg, s) && FlightEnabled(s, f, move)
    ensures FlightOk(ApplyFlight(cfg, s, f, move), ApplyFlight(cfg, s, f, move).flights[f])
  {
    assert FlightOk(s, s.flights[f]);
    if move.RecordFault? && !s.flights[f].phase.rec.Done? {
      B.RecordStepGrows(cfg.threshold, s.breakers, s.flights[f].phase.rec, s.flights[f].path, false, s.now);
    }
  }

  lemma StepCallers(cfg: Config, s: State, step: Step, d: nat)
    requires Structure(cfg, s) && FlightMap(s.flights, s.inFlight) && Enabled(s, step) && At(s, d)
    ensures |Apply(cfg, s, step).callers| == |s.callers|
    ensures CallerOk(cfg, Apply(cfg, s, step), Apply(cfg, s, step).callers[d])
  {
    var s' := Apply(cfg, s, step);
    assert CallerOk(cfg, s, s.callers[d]);
    StepGrows(cfg, s, step);
    match step
    case CallerStep(c, act) =>
      CallerFrame(cfg, s, c, act);
      if c == d { OwnStep(cfg, s, c, act); }
    case FlightStep(f, move) => FlightFrame(cfg, s, f, move);
    case Tick(_) =>
  }

  lemma StepFlights(cfg: Config, s: State, step: Step, e: nat)
    requires Structure(cfg, s) && Enabled(s, step) && e < |Apply(cfg, s, step).flights|
    ensures FlightOk(Apply(cfg, s, step), Apply(cfg, s, step).flights[e])
  {
    var s' := Apply(cfg, s, step);
    StepGrows(cfg, s, step);
    if e < |s.flights| {
      assert FlightOk(s, s.flights[e]);
    }
    match step
    case CallerStep(c, act) =>
      CallerFrame(cfg, s, c, act);
      assert CallerOk(cfg, s, s.callers[c]);
    case FlightStep(f, move) =>
      FlightFrame(cfg, s, f, move);
      if e == f { ActingFlight(cfg, s, f, move); }
    case Tick(_) =>
  }

  lemma StepStructure(cfg: Config, s: State, step: Step)
    requires Structure(cfg, s) && FlightMap(s.flights, s.inFlight) && Enabled(s, step)
    ensures Structure(cfg, Apply(cfg, s, step)) && |Apply(cfg, s, step).callers| == |s.callers|
  {
    var s' := Apply(cfg, s, step);
    StepGrows(cfg, s, step);
    assert |s'.callers| == |s.callers| by {
      match step
      case CallerStep(c, act) => CallerFrame(cfg, s, c, act);
      case FlightStep(f, move) => FlightFrame(cfg, s, f, move);
      case Tick(_) =>
    }
    forall c | 0 <= c < |s'.callers| ensures CallerOk(cfg, s', s'.callers[c]) {
      StepCallers(cfg, s, step, c);
    }
    forall f | 0 <= f < |s'.flights| ensures FlightOk(s', s'.flights[f]) {
      StepFlights(cfg, s, step, f);
    }
  }
}
