/** The pipeline's guarantees, for every run of any number of callers. */
module PipelineTheorems {
  import opened Status
  import opened Keys
  import opened Cache
  import opened Pipeline
  import opened PipelineSafety
  import opened PipelineHistory
  import opened PipelineAccounts
  import opened Tally
  import B = Breaker
  import Retry

  // ---------- the invariant ----------

  ghost predicate Safe(cfg: Config, s: State) {
    && Structure(cfg, s) && FlightMap(s.flights, s.inFlight) && History(cfg, s.flights, s.calls)
    && Responses(cfg, s) && Room(cfg, s)
  }

  /** The counting invariants, for one path and one breaker. */
  ghost predicate Counted(s: State, p: Bytes, b: nat) {
    Accounts(s, p) && Balanced(s, b)
  }

  lemma InitSafe(cfg: Config, n: nat, s: State, p: Bytes, b: nat)
    requires Init(cfg, n, s)
    ensures Safe(cfg, s) && Counted(s, p, b)
  {
    SumZero(s.callers, Credited(p));
    SumZero(s.callers, Storing());
  }

  lemma StepSafe(cfg: Config, s: State, step: Step, p: Bytes, b: nat)
    requires Safe(cfg, s) && Counted(s, p, b) && Enabled(s, step)
    ensures var s' := Apply(cfg, s, step);
            Safe(cfg, s') && Counted(s', p, b) && Later(s, s') && |s'.callers| == |s.callers|
  {
    StepStructure(cfg, s, step);
    StepFlightMap(cfg, s, step);
    StepHistory(cfg, s, step);
    StepResponses(cfg, s, step);
    StepRoom(cfg, s, step);
    StepAccounts(cfg, s, step, p);
    StepBalanced(cfg, s, step, b);
    StepLater(cfg, s, step);
  }

  lemma {:induction false} RunSafe(cfg: Config, n: nat, run: seq<State>, i: nat, p: Bytes, b: nat)
    requires IsRun(cfg, n, run) && i < |run|
    ensures Safe(cfg, run[i]) && Counted(run[i], p, b) && |run[i].callers| == n
  {
    if i == 0 {
      InitSafe(cfg, n, run[0], p, b);
    } else {
      RunSafe(cfg, n, run, i - 1, p, b);
      assert Moves(cfg, run, i - 1);
      var step :| Enabled(run[i - 1], step) && run[i] == Apply(cfg, run[i - 1], step);
      StepSafe(cfg, run[i - 1], step, p, b);
    }
  }

  /** Over a run: time and the call log move forward, landed flights keep their outcome, and a
      breaker that has tripped keeps the time it tripped. */
  lemma {:induction false} RunLater(cfg: Config, n: nat, run: seq<State>, i: nat, j: nat)
    requires IsRun(cfg, n, run) && i <= j < |run|
    ensures Later(run[i], run[j])
    decreases j - i
  {
    if i < j {
      RunLater(cfg, n, run, i, j - 1);
      NextLater(cfg, n, run, j - 1);
    }
  }

  lemma NextLater(cfg: Config, n: nat, run: seq<State>, i: nat)
    requires IsRun(cfg, n, run) && i + 1 < |run|
    ensures Later(run[i], run[i + 1])
  {
    RunSafe(cfg, n, run, i, [], 0);
    assert Moves(cfg, run, i);
    var step :| Enabled(run[i], step) && run[i + 1] == Apply(cfg, run[i], step);
    StepLater(cfg, run[i], step);
  }

  // ---------- responses ----------

  /** Every OK reply carries bytes that some upstream call for the same path and body returned with
      status 0, whether they came from the cache, a joined flight or the caller's own. */
  lemma OkRepliesAnswered(cfg: Config, n: nat, run: seq<State>, i: nat, r: Reply)
    requires IsRun(cfg, n, run) && i < |run| && r in run[i].replies && r.outcome.Ok?
    ensures Answered(run[i].calls, r.path, r.body, r.outcome.body)
  {
    var s := run[i];
    RunSafe(cfg, n, run, i, [], 0);
    assert ReplyOk(cfg, s, r);
    if r.source.FromFlight? {
      FlightAnswered(cfg, s, r.source.flight);
    }
  }

  /** Nothing but OK bodies of upstream calls is ever cached, each under its own request's key. */
  lemma CacheHoldsAnswers(cfg: Config, n: nat, run: seq<State>, i: nat, path: Bytes, body: Bytes)
    requires IsRun(cfg, n, run) && i < |run| && NulFree(path) && RequestKey(path, body) in run[i].cache
    ensures Answered(run[i].calls, path, body, run[i].cache[RequestKey(path, body)].value)
  {
    var s := run[i];
    RunSafe(cfg, n, run, i, [], 0);
    var key := RequestKey(path, body);
    assert Accepted(s, key, s.lastInsert[key]);
    var path': Bytes, body': Bytes :|
      NulFree(path') && key == RequestKey(path', body') && Answered(s.calls, path', body', s.lastInsert[key].value);
    RequestKeyInjective(path, body, path', body');
  }

  /** A cache hit answers with the last response accepted for the key, less than a TTL old. */
  lemma HitIsLastInsert(cfg: Config, n: nat, run: seq<State>, i: nat, c: nat)
    requires IsRun(cfg, n, run) && i < |run| && CallerEnabled(run[i], c, CacheGet)
    requires Fresh(run[i].cache, run[i].callers[c].Key(), run[i].now)
    ensures var s, key := run[i], run[i].callers[c].Key();
            && key in s.lastInsert
            && s.lastInsert[key].at <= s.now < s.lastInsert[key].at + cfg.ttl
            && DoCacheGet(s, c).replies
               == s.replies + [Reply(s.callers[c].path, s.callers[c].body, Ok(s.lastInsert[key].value),
                                     FromCache(s.lastInsert[key].at), s.now)]
  {
    RunSafe(cfg, n, run, i, [], 0);
    var key := run[i].callers[c].Key();
    assert Accepted(run[i], key, run[i].lastInsert[key]);
  }

  // ---------- coalescing ----------

  /** At most one unresolved flight per request, so at most one upstream call is under way for it. */
  lemma OneFlightPerRequest(cfg: Config, n: nat, run: seq<State>, i: nat, f: nat, g: nat)
    requires IsRun(cfg, n, run) && i < |run| && f < |run[i].flights| && g < |run[i].flights|
    requires !run[i].flights[f].phase.Landed? && !run[i].flights[g].phase.Landed?
    requires run[i].flights[f].path == run[i].flights[g].path && run[i].flights[f].body == run[i].flights[g].body
    ensures f == g
  {
    RunSafe(cfg, n, run, i, [], 0);
  }

  /** A flight's upstream calls are one retry run, made once however many callers share it. */
  lemma FlightRunsOnce(cfg: Config, n: nat, run: seq<State>, i: nat, f: nat)
    requires IsRun(cfg, n, run) && i < |run| && f < |run[i].flights|
    ensures |CallsOf(run[i].calls, f)| <= cfg.retryMax
    ensures LandedFlight(run[i], f) ==>
              && Retry.IsRetryRun(cfg.retryMax, CallsOf(run[i].calls, f))
              && Result(run[i], f) == CallsOf(run[i].calls, f)[|CallsOf(run[i].calls, f)| - 1]
  {
    RunSafe(cfg, n, run, i, [], 0);
    assert FlightHistory(cfg, run[i].flights, run[i].calls, f);
  }

  /** Every caller of a flight gets that flight's one outcome, at any time in the run. */
  lemma SharedOutcome(cfg: Config, n: nat, run: seq<State>, i: nat, j: nat, r: Reply, r': Reply)
    requires IsRun(cfg, n, run) && i <= j < |run| && r in run[i].replies && r' in run[j].replies
    requires r.source.FromFlight? && r.source == r'.source
    ensures r.outcome == r'.outcome && r.path == r'.path && r.body == r'.body
  {
    RunSafe(cfg, n, run, i, [], 0);
    RunSafe(cfg, n, run, j, [], 0);
    RunLater(cfg, n, run, i, j);
    assert ReplyOk(cfg, run[i], r) && ReplyOk(cfg, run[j], r');
  }

  /** A caller that reaches the in-flight map shares an unresolved flight for its very request, and
      starts a new one exactly when there is none; a resolved flight is never joined. */
  lemma JoinsUnresolvedFlight(cfg: Config, n: nat, run: seq<State>, i: nat, c: nat)
    requires IsRun(cfg, n, run) && i < |run| && CallerEnabled(run[i], c, JoinFlight)
    ensures var s, s' := run[i], DoJoin(run[i], c);
            var caller := s.callers[c];
            && s'.callers[c].pc.Waiting?
            && var f := s'.callers[c].pc.flight;
               && f < |s'.flights| && !s'.flights[f].phase.Landed?
               && s'.flights[f].path == caller.path && s'.flights[f].body == caller.body
               && (f == |s.flights| <==>
                     forall e | 0 <= e < |s.flights| && !s.flights[e].phase.Landed? ::
                       s.flights[e].path != caller.path || s.flights[e].body != caller.body)
  {
    var s, caller := run[i], run[i].callers[c];
    RunSafe(cfg, n, run, i, [], 0);
    assert CallerOk(cfg, s, caller);
    JoinedCaller(cfg, s, c);
    if caller.Key() in s.inFlight {
      var flight := s.flights[s.inFlight[caller.Key()]];
      assert FlightOk(s, flight);
      RequestKeyInjective(caller.path, caller.body, flight.path, flight.body);
    } else {
      forall e | 0 <= e < |s.flights| && !s.flights[e].phase.Landed?
        ensures s.flights[e].path != caller.path || s.flights[e].body != caller.body {
        assert s.flights[e].Key() in s.inFlight;
      }
    }
  }

  // ---------- cache size ----------

  /** With n callers, racing inserts overshoot the capacity by less than n. */
  lemma CacheBound(cfg: Config, n: nat, run: seq<State>, i: nat)
    requires IsRun(cfg, n, run) && i < |run| && cfg.capacity >= 1
    ensures |run[i].cache| + Sum(run[i].callers, Storing()) <= cfg.capacity - 1 + n
  {
    RunSafe(cfg, n, run, i, [], 0);
  }

  // ---------- circuit breakers ----------

  /** A breaker rejects callers in one interval only: its rejections, over the whole run, lie
      within a single reset period. */
  lemma OpenOnce(cfg: Config, n: nat, run: seq<State>, i: nat, j: nat, r: Reply, r': Reply)
    requires IsRun(cfg, n, run) && i <= j < |run| && r in run[i].replies && r' in run[j].replies
    requires r.source.FromBreaker? && r.source == r'.source
    ensures r.path == r'.path
    ensures r.at <= r'.at + B.RESET_AFTER_MS && r'.at <= r.at + B.RESET_AFTER_MS
  {
    RunSafe(cfg, n, run, i, [], 0);
    RunSafe(cfg, n, run, j, [], 0);
    RunLater(cfg, n, run, i, j);
    assert ReplyOk(cfg, run[i], r) && ReplyOk(cfg, run[j], r');
    assert B.Advances(run[i].breakers.inners[r.source.b], run[j].breakers.inners[r.source.b]);
  }

  /** A path on which nobody lost a first-use race rejects callers in one interval only. */
  lemma PathOpenOnce(cfg: Config, n: nat, run: seq<State>, i: nat, j: nat, r: Reply, r': Reply, b: nat)
    requires IsRun(cfg, n, run) && i <= j < |run| && r in run[i].replies && r' in run[j].replies
    requires r.source.FromBreaker? && r'.source.FromBreaker? && r.path == r'.path
    requires b < |run[j].breakers.inners| && run[j].breakers.inners[b].path == r.path && OnlyBreaker(run[j].breakers, b)
    ensures r.at <= r'.at + B.RESET_AFTER_MS && r'.at <= r.at + B.RESET_AFTER_MS
  {
    RunSafe(cfg, n, run, i, [], 0);
    RunSafe(cfg, n, run, j, [], 0);
    RunLater(cfg, n, run, i, j);
    assert ReplyOk(cfg, run[i], r) && ReplyOk(cfg, run[j], r');
    assert B.Advances(run[i].breakers.inners[r.source.b], run[j].breakers.inners[r.source.b]);
    OpenOnce(cfg, n, run, i, j, r, r');
  }

  /** No other breaker was ever created for b's path: nobody lost a first-use race. */
  ghost predicate OnlyBreaker(table: B.Table, b: nat)
    requires b < |table.inners|
  {
    forall k | 0 <= k < |table.inners| && k != b :: table.inners[k].path != table.inners[b].path
  }

  /** A flight on path p whose upstream run ended in a fault. */
  ghost function FaultedOn(p: Bytes): Flight -> nat {
    (flight: Flight) =>
      if flight.path == p && !flight.phase.Calling? && flight.phase.outcome.IsFault() then 1 else 0
  }

  /** A flight on path p between counting its call and counting its failure. */
  ghost function FailingOn(p: Bytes): Flight -> nat {
    (flight: Flight) =>
      if flight.path == p && flight.phase.Recording? && flight.phase.rec.AddFailure? then 1 else 0
  }

  ghost function SurplusOf(p: Bytes): B.Inner -> nat {
    (inner: B.Inner) => if inner.path == p && inner.total >= inner.failures then inner.total - inner.failures else 0
  }

  /** Over a run, a path's breaker counts at most the flights that ended in a fault as failures, and at
      most the healthy answers callers received as the rest; exactly those when no breaker was lost. */
  lemma BreakerAccounting(cfg: Config, n: nat, run: seq<State>, i: nat, b: nat)
    requires IsRun(cfg, n, run) && i < |run| && b < |run[i].breakers.inners|
    ensures var s := run[i];
            var p := s.breakers.inners[b].path;
            var failures, total := s.breakers.inners[b].failures, s.breakers.inners[b].total;
            && failures <= total
            && failures <= Sum(s.flights, FaultCounted(p)) <= Sum(s.flights, FaultedOn(p))
            && total - failures
               <= Sum(s.flights, FailingOn(p)) + Sum(s.callers, Credited(p)) + Sum(s.replies, Healthy(p))
            && (OnlyBreaker(s.breakers, b) ==>
                  && failures == Sum(s.flights, FaultCounted(p))
                  && total - failures
                     == Sum(s.flights, FailingOn(p)) + Sum(s.callers, Credited(p)) + Sum(s.replies, Healthy(p)))
  {
    var s := run[i];
    var inners, p := s.breakers.inners, s.breakers.inners[b].path;
    forall k | 0 <= k < |inners| ensures inners[k].failures <= inners[k].total {
      RunSafe(cfg, n, run, i, p, k);
    }
    RunSafe(cfg, n, run, i, p, b);
    SumSplit(inners, TotalsOf(p), FailuresOf(p), SurplusOf(p));
    SumSplit(s.flights, FaultTotalled(p), FaultCounted(p), FailingOn(p));
    forall f | 0 <= f < |s.flights| ensures FaultCounted(p)(s.flights[f]) <= FaultedOn(p)(s.flights[f]) {
      assert FlightOk(s, s.flights[f]);
    }
    SumMonotone(s.flights, FaultCounted(p), FaultedOn(p));
    SumAtLeast(inners, FailuresOf(p), b);
    SumAtLeast(inners, SurplusOf(p), b);
    if OnlyBreaker(s.breakers, b) {
      SumSingle(inners, FailuresOf(p), b);
      SumSingle(inners, SurplusOf(p), b);
    }
  }
}
