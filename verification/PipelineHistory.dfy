/** Where replies and cached responses come from, in every interleaving. */
module PipelineHistory {
  import opened Status
  import opened Keys
  import opened Cache
  import opened Pipeline
  import opened PipelineSafety
  import B = Breaker
  import Retry

  // ---------- each flight's upstream calls form one retry run ----------

  /** The outcomes of flight f's upstream calls, in order. */
  ghost function CallsOf(calls: seq<Call>, f: nat): seq<Outcome> {
    if calls == [] then []
    else
      var last := calls[|calls| - 1];
      CallsOf(calls[..|calls| - 1], f) + if last.flight == f then [last.outcome] else []
  }

  lemma {:induction false} NoCallsOf(calls: seq<Call>, f: nat)
    requires forall k | 0 <= k < |calls| :: calls[k].flight != f
    ensures CallsOf(calls, f) == []
  {
    if calls != [] { NoCallsOf(calls[..|calls| - 1], f); }
  }

  lemma {:induction false} LoggedCall(calls: seq<Call>, f: nat, j: nat) returns (k: nat)
    requires j < |CallsOf(calls, f)|
    ensures k < |calls| && calls[k].flight == f && calls[k].outcome == CallsOf(calls, f)[j]
  {
    var earlier := calls[..|calls| - 1];
    if j < |CallsOf(earlier, f)| {
      k := LoggedCall(earlier, f, j);
    } else {
      k := |calls| - 1;
    }
  }

  ghost predicate LogOk(cfg: Config, flight: Flight) {
    if flight.phase.Calling? then Retry.StillRetrying(cfg.retryMax, flight.log)
    else Retry.IsRetryRun(cfg.retryMax, flight.log) && flight.phase.outcome == flight.log[|flight.log| - 1]
  }

  ghost predicate CallOk(flights: seq<Flight>, call: Call) {
    call.flight < |flights| && flights[call.flight].path == call.path && flights[call.flight].body == call.body
  }

  ghost predicate FlightHistory(cfg: Config, flights: seq<Flight>, calls: seq<Call>, f: nat)
    requires f < |flights|
  {
    LogOk(cfg, flights[f]) && CallsOf(calls, f) == flights[f].log
  }

  /** A flight's log is exactly its upstream calls, for its own request, and they make one retry run. */
  ghost predicate History(cfg: Config, flights: seq<Flight>, calls: seq<Call>) {
    && (forall f | 0 <= f < |flights| :: FlightHistory(cfg, flights, calls, f))
    && (forall k | 0 <= k < |calls| :: CallOk(flights, calls[k]))
  }

  lemma HistoryTakeOff(cfg: Config, flights: seq<Flight>, calls: seq<Call>, flight: Flight)
    requires cfg.retryMax >= 1 && History(cfg, flights, calls) && flight.phase.Calling? && flight.log == []
    ensures History(cfg, flights + [flight], calls)
  {
    var flights' := flights + [flight];
    NewFlightHistory(cfg, flights, calls, flight);
    forall f | 0 <= f < |flights'| ensures FlightHistory(cfg, flights', calls, f) {
      if f < |flights| { assert FlightHistory(cfg, flights, calls, f); }
    }
    forall k | 0 <= k < |calls| ensures CallOk(flights', calls[k]) {
      assert CallOk(flights, calls[k]);
    }
  }

  lemma NewFlightHistory(cfg: Config, flights: seq<Flight>, calls: seq<Call>, flight: Flight)
    requires cfg.retryMax >= 1 && History(cfg, flights, calls) && flight.phase.Calling? && flight.log == []
    ensures FlightHistory(cfg, flights + [flight], calls, |flights|)
  {
    forall k | 0 <= k < |calls| ensures calls[k].flight != |flights| { assert CallOk(flights, calls[k]); }
    NoCallsOf(calls, |flights|);
  }

  lemma HistoryUpstream(cfg: Config, s: State, f: nat, answer: Outcome)
    requires cfg.retryMax >= 1 && History(cfg, s.flights, s.calls) && f < |s.flights| && s.flights[f].phase.Calling?
    ensures var s' := DoUpstream(cfg, s, f, answer); History(cfg, s'.flights, s'.calls)
  {
    var s' := DoUpstream(cfg, s, f, answer);
    var call := Call(f, s.flights[f].path, s.flights[f].body, answer);
    forall e | 0 <= e < |s.flights| ensures FlightHistory(cfg, s'.flights, s'.calls, e) {
      assert FlightHistory(cfg, s.flights, s.calls, e);
    }
    forall k | 0 <= k < |s'.calls| ensures CallOk(s'.flights, s'.calls[k]) {
      if k < |s.calls| { assert CallOk(s.flights, s.calls[k]); }
    }
  }

  /** Moving on to another phase with the outcome settled keeps the history. */
  lemma HistoryPhase(cfg: Config, flights: seq<Flight>, calls: seq<Call>, f: nat, flight: Flight)
    requires History(cfg, flights, calls) && f < |flights| && LogOk(cfg, flight)
    requires flight.log == flights[f].log && flight.path == flights[f].path && flight.body == flights[f].body
    ensures History(cfg, flights[f := flight], calls)
  {
    var flights' := flights[f := flight];
    forall e | 0 <= e < |flights'| ensures FlightHistory(cfg, flights', calls, e) {
      assert FlightHistory(cfg, flights, calls, e);
    }
    forall k | 0 <= k < |calls| ensures CallOk(flights', calls[k]) {
      assert CallOk(flights, calls[k]);
    }
  }

  lemma StepHistory(cfg: Config, s: State, step: Step)
    requires Structure(cfg, s) && History(cfg, s.flights, s.calls) && Enabled(s, step)
    ensures var s' := Apply(cfg, s, step); History(cfg, s'.flights, s'.calls)
  {
    match step
    case CallerStep(c, act) =>
      CallerFrame(cfg, s, c, act);
      if act.JoinFlight? && s.callers[c].Key() !in s.inFlight {
        HistoryTakeOff(cfg, s.flights, s.calls, Flight(s.callers[c].path, s.callers[c].body, [], Calling));
      }
    case FlightStep(f, move) =>
      if move.Upstream? {
        HistoryUpstream(cfg, s, f, move.answer);
      } else {
        FlightFrame(cfg, s, f, move);
        assert FlightHistory(cfg, s.flights, s.calls, f);
        HistoryPhase(cfg, s.flights, s.calls, f, ApplyFlight(cfg, s, f, move).flights[f]);
      }
    case Tick(_) =>
  }

  // ---------- replies and cached responses ----------

  /** Some upstream call for this path and body returned these bytes with status 0. */
  ghost predicate Answered(calls: seq<Call>, path: Bytes, body: Bytes, bytes: Bytes) {
    exists k | 0 <= k < |calls| :: calls[k].path == path && calls[k].body == body && calls[k].outcome == Ok(bytes)
  }

  lemma FlightAnswered(cfg: Config, s: State, f: nat)
    requires History(cfg, s.flights, s.calls) && LandedFlight(s, f) && Result(s, f).Ok?
    ensures Answered(s.calls, s.flights[f].path, s.flights[f].body, Result(s, f).body)
  {
    var flight := s.flights[f];
    assert FlightHistory(cfg, s.flights, s.calls, f);
    var k := LoggedCall(s.calls, f, |flight.log| - 1);
    assert CallOk(s.flights, s.calls[k]);
  }

  /** An accepted response for a key: it answers the request that the key stands for. */
  ghost predicate Accepted(s: State, key: Bytes, insertion: Insertion) {
    && insertion.at <= s.now
    && exists path: Bytes, body: Bytes ::
         NulFree(path) && key == RequestKey(path, body) && Answered(s.calls, path, body, insertion.value)
  }

  /** Every cached response is the last one accepted for its key, with the expiry that gives. */
  ghost predicate CacheOk(cfg: Config, s: State) {
    && (forall k | k in s.cache ::
          k in s.lastInsert && s.cache[k] == Entry(s.lastInsert[k].value, s.lastInsert[k].at + cfg.ttl))
    && (forall k | k in s.lastInsert :: Accepted(s, k, s.lastInsert[k]))
  }

  ghost predicate ReplyOk(cfg: Config, s: State, r: Reply) {
    && r.at <= s.now
    && match r.source
       case FromCache(storedAt) =>
         r.outcome.Ok? && storedAt <= r.at < storedAt + cfg.ttl && Answered(s.calls, r.path, r.body, r.outcome.body)
       case FromBreaker(b) =>
         && r.outcome == BreakerOpen()
         && b < |s.breakers.inners| && s.breakers.inners[b].path == r.path && s.breakers.inners[b].trippedAt.Some?
         && s.breakers.inners[b].trippedAt.value <= r.at <= s.breakers.inners[b].trippedAt.value + B.RESET_AFTER_MS
       case FromFlight(f) =>
         && LandedFlight(s, f) && s.flights[f].path == r.path && s.flights[f].body == r.body
         && Result(s, f) == r.outcome
  }

  ghost predicate Responses(cfg: Config, s: State) {
    B.TripsPast(s.breakers, s.now) && CacheOk(cfg, s) && RepliesOk(cfg, s)
  }

  ghost predicate RepliesOk(cfg: Config, s: State) {
    forall i | 0 <= i < |s.replies| :: ReplyOk(cfg, s, s.replies[i])
  }

  /** Time, calls, flights and breakers only move forward. */
  ghost predicate Later(s: State, s': State) {
    s.now <= s'.now && s.calls <= s'.calls && Grows(s, s')
  }

  lemma StepLater(cfg: Config, s: State, step: Step)
    requires Structure(cfg, s) && Enabled(s, step)
    ensures Later(s, Apply(cfg, s, step))
  {
    StepGrows(cfg, s, step);
    match step
    case CallerStep(c, act) => CallerFrame(cfg, s, c, act);
    case FlightStep(f, move) => FlightFrame(cfg, s, f, move);
    case Tick(_) =>
  }

  /** The cache and its history change only when a caller evicts or stores under its own key. */
  lemma CacheFrame(cfg: Config, s: State, c: nat, act: CallerAction)
    requires B.WellFormed(s.breakers) && CallerEnabled(s, c, act) && !act.CacheRemove? && !act.StoreInCache?
    ensures ApplyCaller(cfg, s, c, act).cache == s.cache && ApplyCaller(cfg, s, c, act).lastInsert == s.lastInsert
  {
  }

  lemma StoredAccepted(cfg: Config, s: State, c: nat)
    requires Structure(cfg, s) && History(cfg, s.flights, s.calls) && CallerEnabled(s, c, StoreInCache)
    ensures Accepted(s, s.callers[c].Key(), Insertion(Result(s, s.callers[c].pc.flight).body, s.now))
  {
    assert CallerOk(cfg, s, s.callers[c]);
    FlightAnswered(cfg, s, s.callers[c].pc.flight);
  }

  lemma CacheLater(cfg: Config, s: State, s': State)
    requires CacheOk(cfg, s) && Later(s, s') && s'.cache == s.cache && s'.lastInsert == s.lastInsert
    ensures CacheOk(cfg, s')
  {
    forall k | k in s.lastInsert ensures Accepted(s', k, s.lastInsert[k]) {}
  }

  lemma StoreStepCache(cfg: Config, s: State, c: nat)
    requires Structure(cfg, s) && History(cfg, s.flights, s.calls) && CacheOk(cfg, s)
    requires CallerEnabled(s, c, StoreInCache)
    ensures CacheOk(cfg, DoStore(cfg, s, c))
  {
    var s' := DoStore(cfg, s, c);
    StoredAccepted(cfg, s, c);
    var mid := s.(cache := s'.cache, lastInsert := s'.lastInsert);
    CacheLater(cfg, mid, s');
  }

  lemma EvictStepCache(cfg: Config, s: State, c: nat)
    requires CacheOk(cfg, s) && At(s, c)
    ensures CacheOk(cfg, DoCacheRemove(s, c))
  {
    var s' := DoCacheRemove(s, c);
    forall k | k in s.lastInsert ensures Accepted(s', k, s.lastInsert[k]) {}
  }

  lemma CallerStepCache(cfg: Config, s: State, c: nat, act: CallerAction)
    requires Structure(cfg, s) && History(cfg, s.flights, s.calls) && CacheOk(cfg, s) && CallerEnabled(s, c, act)
    ensures CacheOk(cfg, ApplyCaller(cfg, s, c, act))
  {
    if act.StoreInCache? {
      StoreStepCache(cfg, s, c);
    } else if act.CacheRemove? {
      EvictStepCache(cfg, s, c);
    } else {
      StepLater(cfg, s, CallerStep(c, act));
      CacheFrame(cfg, s, c, act);
      CacheLater(cfg, s, ApplyCaller(cfg, s, c, act));
    }
  }

  lemma StepCache(cfg: Config, s: State, step: Step)
    requires Structure(cfg, s) && History(cfg, s.flights, s.calls) && CacheOk(cfg, s) && Enabled(s, step)
    ensures CacheOk(cfg, Apply(cfg, s, step))
  {
    match step
    case CallerStep(c, act) => CallerStepCache(cfg, s, c, act);
    case FlightStep(f, move) =>
      StepLater(cfg, s, step);
      FlightFrame(cfg, s, f, move);
      CacheLater(cfg, s, Apply(cfg, s, step));
    case Tick(_) =>
      StepLater(cfg, s, step);
      CacheLater(cfg, s, Apply(cfg, s, step));
  }

  /** Replies are only appended, and each new one is right. */
  ghost predicate Extends(cfg: Config, s: State, replies: seq<Reply>) {
    && s.replies <= replies
    && (forall i | |s.replies| <= i < |replies| :: ReplyOk(cfg, s, replies[i]))
  }

  lemma NewReply(cfg: Config, s: State, c: nat, act: CallerAction)
    requires Structure(cfg, s) && Responses(cfg, s) && CallerEnabled(s, c, act)
    ensures Extends(cfg, s, ApplyCaller(cfg, s, c, act).replies)
  {
    assert CallerOk(cfg, s, s.callers[c]);
    match act
    case CacheGet => CacheReply(cfg, s, c);
    case _ =>
  }

  lemma CacheReply(cfg: Config, s: State, c: nat)
    requires Structure(cfg, s) && Responses(cfg, s) && CallerEnabled(s, c, CacheGet)
    ensures Extends(cfg, s, DoCacheGet(s, c).replies)
  {
    assert CallerOk(cfg, s, s.callers[c]);
    var key := s.callers[c].Key();
    if Fresh(s.cache, key, s.now) {
      HitAnswered(cfg, s, c);
      assert Accepted(s, key, s.lastInsert[key]);
    }
  }

  /** A cache hit answers this very request, although it was looked up by key alone. */
  lemma HitAnswered(cfg: Config, s: State, c: nat)
    requires CacheOk(cfg, s) && At(s, c) && NulFree(s.callers[c].path)
    requires Fresh(s.cache, s.callers[c].Key(), s.now)
    ensures Answered(s.calls, s.callers[c].path, s.callers[c].body, s.cache[s.callers[c].Key()].value)
  {
    var key := s.callers[c].Key();
    assert Accepted(s, key, s.lastInsert[key]);
    var path: Bytes, body: Bytes :|
      NulFree(path) && key == RequestKey(path, body) && Answered(s.calls, path, body, s.lastInsert[key].value);
    RequestKeyInjective(s.callers[c].path, s.callers[c].body, path, body);
  }

  lemma StepReplies(cfg: Config, s: State, step: Step)
    requires Structure(cfg, s) && Responses(cfg, s) && Enabled(s, step)
    ensures Extends(cfg, s, Apply(cfg, s, step).replies)
  {
    match step
    case CallerStep(c, act) => NewReply(cfg, s, c, act);
    case FlightStep(f, move) => FlightFrame(cfg, s, f, move);
    case Tick(_) =>
  }

  lemma StepResponses(cfg: Config, s: State, step: Step)
    requires Structure(cfg, s) && History(cfg, s.flights, s.calls) && Responses(cfg, s) && Enabled(s, step)
    ensures Responses(cfg, Apply(cfg, s, step))
  {
    StepLater(cfg, s, step);
    StepGrows(cfg, s, step);
    StepCache(cfg, s, step);
    StepReplies(cfg, s, step);
    RepliesLater(cfg, s, Apply(cfg, s, step));
  }

  /** A right reply stays right. */
  lemma ReplyLater(cfg: Config, s: State, s': State, r: Reply)
    requires ReplyOk(cfg, s, r) && Later(s, s')
    ensures ReplyOk(cfg, s', r)
  {
    if r.source.FromBreaker? {
      assert B.Advances(s.breakers.inners[r.source.b], s'.breakers.inners[r.source.b]);
    }
  }

  lemma RepliesLater(cfg: Config, s: State, s': State)
    requires RepliesOk(cfg, s) && Extends(cfg, s, s'.replies) && Later(s, s')
    ensures RepliesOk(cfg, s')
  {
    forall i | 0 <= i < |s'.replies| ensures ReplyOk(cfg, s', s'.replies[i]) {
      ReplyLater(cfg, s, s', s'.replies[i]);
    }
  }
}
