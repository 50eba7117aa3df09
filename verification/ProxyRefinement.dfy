/** Handling a request from start to end is one run of the pipeline: the sequential account of a lone caller and the
    interleaved steps agree on the reply, the upstream calls, the cache and the breakers. */
module ProxyRefinement {
  import opened Status
  import opened Keys
  import opened Cache
  import opened Pipeline
  import opened PipelineReach
  import opened Proxy
  import B = Breaker
  import R = Retry

  // ---------- the stages of a request ----------

  function At(s: State, c: nat, path: Bytes, body: Bytes, pc: Pc): State
    requires c < |s.callers|
  {
    s.(callers := s.callers[c := Caller(path, body, pc)])
  }

  function Answered(s: State, c: nat, path: Bytes, body: Bytes, outcome: Outcome, source: Source): State
    requires c < |s.callers|
  {
    At(s, c, path, body, Idle).(replies := s.replies + [Reply(path, body, outcome, source, s.now)])
  }

  /** The caller looks its request up. */
  lemma LooksUp(cfg: Config, s: State, c: nat, path: Bytes, body: Bytes) returns (t: State)
    requires B.WellFormed(s.breakers) && c < |s.callers| && s.callers[c].pc.Idle? && NulFree(path)
    ensures Reaches(cfg, s, t)
    ensures var key := RequestKey(path, body);
            if Hits(cfg, s.cache, key, s.now) then
              exists at :: t == Answered(s, c, path, body, Ok(s.cache[key].value), FromCache(at))
            else t == At(s, c, path, body, CheckFind).(cache := AfterLookup(cfg, s.cache, key))
  {
    t := Apply(cfg, s, CallerStep(c, Arrive(path, body)));
    Takes(cfg, s, CallerStep(c, Arrive(path, body)));
    if cfg.cacheEnabled {
      ThenTakes(cfg, s, t, CallerStep(c, CacheGet));
      t := Apply(cfg, t, CallerStep(c, CacheGet));
      if !Fresh(s.cache, RequestKey(path, body), s.now) {
        ThenTakes(cfg, s, t, CallerStep(c, CacheRemove));
        t := Apply(cfg, t, CallerStep(c, CacheRemove));
        assert t == At(s, c, path, body, CheckFind).(cache := s.cache - {RequestKey(path, body)});
      } else {
        var key := RequestKey(path, body);
        var at := if key in s.lastInsert then s.lastInsert[key].at else 0;
        assert t == Answered(s, c, path, body, Ok(s.cache[key].value), FromCache(at));
      }
    }
  }

  /** The caller finds its path's breaker, creating it on first use. */
  lemma FindsBreaker(cfg: Config, s: State, c: nat, path: Bytes, body: Bytes)
    requires B.WellFormed(s.breakers) && c < |s.callers| && s.callers[c] == Caller(path, body, CheckFind)
    ensures var found := B.Ensured(s.breakers, path);
            Reaches(cfg, s, At(s, c, path, body, CheckState(found.current[path])).(breakers := found))
  {
    var found := B.Ensured(s.breakers, path);
    var goal := At(s, c, path, body, CheckState(found.current[path])).(breakers := found);
    var look := CallerStep(c, Check);
    var t := Apply(cfg, s, look);
    Takes(cfg, s, look);
    if path !in s.breakers.current {
      ThenTakes(cfg, s, t, look);
      assert Apply(cfg, t, look) == goal;
    } else {
      assert t == goal;
    }
  }

  /** The caller asks its path's breaker. */
  lemma AsksBreaker(cfg: Config, s: State, c: nat, path: Bytes, body: Bytes) returns (t: State)
    requires B.WellFormed(s.breakers) && c < |s.callers| && s.callers[c] == Caller(path, body, CheckFind)
    ensures Reaches(cfg, s, t)
    ensures var found := B.Ensured(s.breakers, path);
            t == if Rejects(s.breakers, path, s.now)
                 then Answered(s, c, path, body, BreakerOpen(), FromBreaker(found.current[path])).(breakers := found)
                 else At(s, c, path, body, Join).(breakers := found)
  {
    FindsBreaker(cfg, s, c, path, body);
    var found := B.Ensured(s.breakers, path);
    var asking := At(s, c, path, body, CheckState(found.current[path])).(breakers := found);
    ThenTakes(cfg, s, asking, CallerStep(c, Check));
    t := Apply(cfg, asking, CallerStep(c, Check));
  }

  /** A flight for the caller's request, in the air. */
  function InAir(s: State, c: nat, path: Bytes, body: Bytes, log: seq<Outcome>, phase: Phase, calls: seq<Call>): State
    requires c < |s.callers|
  {
    At(s, c, path, body, Waiting(|s.flights|)).(
      flights := s.flights + [Flight(path, body, log, phase)],
      inFlight := s.inFlight[RequestKey(path, body) := |s.flights|],
      calls := s.calls + calls)
  }

  /** The upstream calls a flight's log stands for. */
  function CallsFor(f: nat, path: Bytes, body: Bytes, log: seq<Outcome>): seq<Call> {
    seq(|log|, k requires 0 <= k < |log| => Call(f, path, body, log[k]))
  }

  function PhaseAfter(outcome: Outcome): Phase {
    if outcome.IsFault() then Recording(outcome, B.Find) else Removing(outcome)
  }

  /** The caller takes off and its flight makes its first k calls. */
  lemma {:induction false} MakesCalls(cfg: Config, s: State, c: nat, path: Bytes, body: Bytes, log: seq<Outcome>,
                                      k: nat)
    requires B.WellFormed(s.breakers) && c < |s.callers| && s.callers[c] == Caller(path, body, Join)
    requires RequestKey(path, body) !in s.inFlight
    requires R.IsRetryRun(cfg.retryMax, log) && k <= |log|
    ensures Reaches(cfg, s, InAir(s, c, path, body, log[..k],
              if k < |log| then Calling else PhaseAfter(log[k - 1]), CallsFor(|s.flights|, path, body, log[..k])))
  {
    var f := |s.flights|;
    if k == 0 {
      Takes(cfg, s, CallerStep(c, JoinFlight));
      assert Apply(cfg, s, CallerStep(c, JoinFlight))
          == InAir(s, c, path, body, log[..0], Calling, CallsFor(f, path, body, log[..0]));
    } else {
      MakesCalls(cfg, s, c, path, body, log, k - 1);
      var before := InAir(s, c, path, body, log[..k - 1], Calling, CallsFor(f, path, body, log[..k - 1]));
      var step := FlightStep(f, Upstream(log[k - 1]));
      ThenTakes(cfg, s, before, step);
      NextCall(cfg, s, c, path, body, log, k);
    }
  }

  lemma NextCall(cfg: Config, s: State, c: nat, path: Bytes, body: Bytes, log: seq<Outcome>, k: nat)
    requires c < |s.callers| && R.IsRetryRun(cfg.retryMax, log) && 0 < k <= |log|
    ensures DoUpstream(cfg, InAir(s, c, path, body, log[..k - 1], Calling,
                                  CallsFor(|s.flights|, path, body, log[..k - 1])),
                       |s.flights|, log[k - 1])
         == InAir(s, c, path, body, log[..k], if k < |log| then Calling else PhaseAfter(log[k - 1]),
                  CallsFor(|s.flights|, path, body, log[..k]))
  {
    var f, answer := |s.flights|, log[k - 1];
    var calls := CallsFor(f, path, body, log[..k - 1]);
    var before := InAir(s, c, path, body, log[..k - 1], Calling, calls);
    assert log[..k] == log[..k - 1] + [answer];
    assert CallsFor(f, path, body, log[..k]) == calls + [Call(f, path, body, answer)];
    assert before.calls + [Call(f, path, body, answer)] == s.calls + CallsFor(f, path, body, log[..k]);
    var phase := if k < |log| then Calling else PhaseAfter(answer);
    var flight := Flight(path, body, log[..k], phase);
    assert before.flights[f := flight] == s.flights + [flight];
  }

  /** A flight's recording runs to its end undisturbed. */
  lemma {:induction false} RecordsFault(cfg: Config, s: State, f: nat, table: B.Table, n: nat)
    requires B.WellFormed(s.breakers) && f < |s.flights| && s.flights[f].phase.Recording?
    requires B.Settled(s.flights[f].phase.rec) ==> s.flights[f].phase.rec.b < |s.breakers.inners|
    requires B.Settled(s.flights[f].phase.rec) ==>
               s.breakers.inners[s.flights[f].phase.rec.b].path == s.flights[f].path
    requires B.RunSteps(cfg.threshold, s.breakers, s.flights[f].phase.rec, s.flights[f].path, false, s.now, n)
          == (table, B.Done)
    ensures Reaches(cfg, s, WithPhase(s, f, Recording(s.flights[f].phase.outcome, B.Done)).(breakers := table))
    decreases n
  {
    var rec, path := s.flights[f].phase.rec, s.flights[f].path;
    if rec.Done? {
      B.StaysDone(cfg.threshold, s.breakers, path, false, s.now, n);
      assert WithPhase(s, f, Recording(s.flights[f].phase.outcome, B.Done)).(breakers := table) == s;
      Stays(cfg, s);
    } else {
      B.RecordStepGrows(cfg.threshold, s.breakers, rec, path, false, s.now);
      var t := Apply(cfg, s, FlightStep(f, RecordFault));
      Takes(cfg, s, FlightStep(f, RecordFault));
      RecordsFault(cfg, t, f, table, n - 1);
      var goal := WithPhase(s, f, Recording(s.flights[f].phase.outcome, B.Done)).(breakers := table);
      assert WithPhase(t, f, Recording(t.flights[f].phase.outcome, B.Done)).(breakers := table) == goal;
      Then(cfg, s, t, goal);
    }
  }

  /** A caller's crediting runs to its end undisturbed. */
  lemma {:induction false} Credits(cfg: Config, s: State, c: nat, f: nat, rec: B.RecordPc, table: B.Table, n: nat)
    requires B.WellFormed(s.breakers) && c < |s.callers| && s.callers[c].pc == Crediting(f, rec) && LandedFlight(s, f)
    requires B.Settled(rec) ==> rec.b < |s.breakers.inners| && s.breakers.inners[rec.b].path == s.callers[c].path
    requires B.RunSteps(cfg.threshold, s.breakers, rec, s.callers[c].path, true, s.now, n) == (table, B.Done)
    ensures Reaches(cfg, s, WithPc(s, c, Crediting(f, B.Done)).(breakers := table))
    decreases n
  {
    var path := s.callers[c].path;
    if rec.Done? {
      B.StaysDone(cfg.threshold, s.breakers, path, true, s.now, n);
      assert WithPc(s, c, Crediting(f, B.Done)).(breakers := table) == s;
      Stays(cfg, s);
    } else {
      B.RecordStepGrows(cfg.threshold, s.breakers, rec, path, true, s.now);
      var (_, next) := B.RecordStep(cfg.threshold, s.breakers, rec, path, true, s.now);
      var t := Apply(cfg, s, CallerStep(c, Credit));
      Takes(cfg, s, CallerStep(c, Credit));
      Credits(cfg, t, c, f, next, table, n - 1);
      var goal := WithPc(s, c, Crediting(f, B.Done)).(breakers := table);
      assert WithPc(t, c, Crediting(f, B.Done)).(breakers := table) == goal;
      Then(cfg, s, t, goal);
    }
  }

  // ---------- landing ----------

  /** The flight for the caller's request has resolved and left the map. */
  function Down(s: State, c: nat, path: Bytes, body: Bytes, log: seq<Outcome>, breakers: B.Table, now: nat): State
    requires c < |s.callers| && log != []
  {
    At(s, c, path, body, Waiting(|s.flights|)).(
      flights := s.flights + [Flight(path, body, log, Landed(log[|log| - 1]))],
      calls := s.calls + CallsFor(|s.flights|, path, body, log),
      breakers := breakers, now := now)
  }

  /** Breakers after the flight's own recording: only a fault is counted there. */
  function AfterFlight(cfg: Config, table: B.Table, path: Bytes, outcome: Outcome, now: nat): (t: B.Table)
    requires B.WellFormed(table)
    ensures B.WellFormed(t)
  {
    if outcome.IsFault() then B.Recorded(cfg.threshold, table, path, false, now) else table
  }

  /** A flight that ended in a fault counts it and is ready to leave the map. */
  lemma CountsFault(cfg: Config, s: State, f: nat, outcome: Outcome, table: B.Table)
    requires B.WellFormed(s.breakers) && f < |s.flights| && s.flights[f].phase == Recording(outcome, B.Find)
    requires table == B.Recorded(cfg.threshold, s.breakers, s.flights[f].path, false, s.now)
    ensures Reaches(cfg, s, WithPhase(s, f, Removing(outcome)).(breakers := table))
  {
    B.StepsRecord(cfg.threshold, s.breakers, s.flights[f].path, false, s.now);
    RecordsFault(cfg, s, f, table, 7);
    var counted := WithPhase(s, f, Recording(outcome, B.Done)).(breakers := table);
    ThenTakes(cfg, s, counted, FlightStep(f, RecordFault));
    assert Apply(cfg, counted, FlightStep(f, RecordFault)) == WithPhase(s, f, Removing(outcome)).(breakers := table);
  }

  lemma Lands(cfg: Config, s: State, c: nat, path: Bytes, body: Bytes, log: seq<Outcome>, now: nat)
    requires B.WellFormed(s.breakers) && c < |s.callers| && s.callers[c] == Caller(path, body, Join)
    requires RequestKey(path, body) !in s.inFlight && R.IsRetryRun(cfg.retryMax, log) && s.now <= now
    ensures Reaches(cfg, s, Down(s, c, path, body, log, AfterFlight(cfg, s.breakers, path, log[|log| - 1], now), now))
  {
    var f, outcome := |s.flights|, log[|log| - 1];
    var calls := CallsFor(f, path, body, log);
    MakesCalls(cfg, s, c, path, body, log, |log|);
    assert log[..|log|] == log;
    var air := InAir(s, c, path, body, log, PhaseAfter(outcome), calls);
    var late := air.(now := now);
    assert late == Apply(cfg, air, Tick(now - s.now));
    ThenTakes(cfg, s, air, Tick(now - s.now));
    var table := AfterFlight(cfg, s.breakers, path, outcome, now);
    var leaving := InAir(s, c, path, body, log, Removing(outcome), calls).(breakers := table, now := now);
    if outcome.IsFault() {
      CountsFault(cfg, late, f, outcome, table);
      assert WithPhase(late, f, Removing(outcome)).flights == leaving.flights;
      assert WithPhase(late, f, Removing(outcome)).(breakers := table) == leaving;
      Then(cfg, s, late, leaving);
    } else {
      assert late == leaving;
    }
    Leaves(cfg, s, c, path, body, log, table, now);
    ThenTakes(cfg, s, leaving, FlightStep(f, LeaveMap));
  }

  lemma Leaves(cfg: Config, s: State, c: nat, path: Bytes, body: Bytes, log: seq<Outcome>, table: B.Table, now: nat)
    requires c < |s.callers| && log != [] && RequestKey(path, body) !in s.inFlight
    ensures var calls := CallsFor(|s.flights|, path, body, log);
            var leaving := InAir(s, c, path, body, log, Removing(log[|log| - 1]), calls)
                           .(breakers := table, now := now);
            DoLeaveMap(leaving, |s.flights|) == Down(s, c, path, body, log, table, now)
  {
    var calls := CallsFor(|s.flights|, path, body, log);
    var leaving := InAir(s, c, path, body, log, Removing(log[|log| - 1]), calls).(breakers := table, now := now);
    assert leaving.inFlight - {RequestKey(path, body)} == s.inFlight;
    assert DoLeaveMap(leaving, |s.flights|).flights == s.flights + [Flight(path, body, log, Landed(log[|log| - 1]))];
  }

  // ---------- answering ----------

  /** Breakers after the caller's own recording: anything but a fault counts for the upstream. */
  function AfterCaller(cfg: Config, table: B.Table, path: Bytes, outcome: Outcome, now: nat): (t: B.Table)
    requires B.WellFormed(table)
    ensures B.WellFormed(t)
  {
    if outcome.IsFault() then table else B.Recorded(cfg.threshold, table, path, true, now)
  }

  /** A caller whose flight brought a healthy answer credits the breaker. */
  lemma CreditsAnswer(cfg: Config, s: State, c: nat, path: Bytes, body: Bytes, f: nat)
    requires B.WellFormed(s.breakers) && c < |s.callers| && s.callers[c] == Caller(path, body, Waiting(f))
    requires LandedFlight(s, f) && !Result(s, f).IsFault()
    ensures Reaches(cfg, s, At(s, c, path, body, Crediting(f, B.Done)).(
                              breakers := B.Recorded(cfg.threshold, s.breakers, path, true, s.now)))
  {
    var woken := Apply(cfg, s, CallerStep(c, Wake));
    Takes(cfg, s, CallerStep(c, Wake));
    var table := B.Recorded(cfg.threshold, s.breakers, path, true, s.now);
    B.StepsRecord(cfg.threshold, s.breakers, path, true, s.now);
    Credits(cfg, woken, c, f, B.Find, table, 7);
    var credited := At(s, c, path, body, Crediting(f, B.Done)).(breakers := table);
    assert WithPc(woken, c, Crediting(f, B.Done)).(breakers := table) == credited;
    Then(cfg, s, woken, credited);
  }

  /** A caller whose flight has landed answers, credits the breaker and fills the cache. */
  lemma Answers(cfg: Config, s: State, c: nat, path: Bytes, body: Bytes, f: nat) returns (t: State)
    requires B.WellFormed(s.breakers) && c < |s.callers| && s.callers[c] == Caller(path, body, Waiting(f))
    requires LandedFlight(s, f)
    ensures Reaches(cfg, s, t)
    ensures var outcome := Result(s, f);
            t == Answered(s, c, path, body, outcome, FromFlight(f)).(
                   breakers := AfterCaller(cfg, s.breakers, path, outcome, s.now),
                   cache := AfterAnswer(cfg, s.cache, RequestKey(path, body), outcome, s.now),
                   lastInsert := t.lastInsert)
  {
    if Result(s, f).IsFault() {
      Takes(cfg, s, CallerStep(c, Wake));
      t := Apply(cfg, s, CallerStep(c, Wake));
      assert t == Answered(s, c, path, body, Result(s, f), FromFlight(f));
    } else {
      CreditsAnswer(cfg, s, c, path, body, f);
      var credited := At(s, c, path, body, Crediting(f, B.Done)).(
        breakers := B.Recorded(cfg.threshold, s.breakers, path, true, s.now));
      t := Replies(cfg, credited, c, path, body, f);
      Then(cfg, s, credited, t);
      assert t.callers == s.callers[c := Caller(path, body, Idle)];
    }
  }

  lemma Replies(cfg: Config, s: State, c: nat, path: Bytes, body: Bytes, f: nat) returns (t: State)
    requires B.WellFormed(s.breakers) && c < |s.callers| && s.callers[c] == Caller(path, body, Crediting(f, B.Done))
    requires LandedFlight(s, f)
    ensures Reaches(cfg, s, t)
    ensures t == Answered(s, c, path, body, Result(s, f), FromFlight(f)).(
                   cache := AfterAnswer(cfg, s.cache, RequestKey(path, body), Result(s, f), s.now),
                   lastInsert := t.lastInsert)
  {
    t := Apply(cfg, s, CallerStep(c, Credit));
    Takes(cfg, s, CallerStep(c, Credit));
    if Result(s, f).Ok? && cfg.cacheEnabled {
      var offering := t;
      t := Fills(cfg, offering, c, path, body, f);
      Then(cfg, s, offering, t);
      assert t.callers == s.callers[c := Caller(path, body, Idle)];
    }
  }

  lemma Fills(cfg: Config, s: State, c: nat, path: Bytes, body: Bytes, f: nat) returns (t: State)
    requires B.WellFormed(s.breakers) && c < |s.callers| && s.callers[c] == Caller(path, body, Offer(f))
    requires LandedFlight(s, f) && Result(s, f).Ok? && cfg.cacheEnabled
    ensures Reaches(cfg, s, t)
    ensures t == Answered(s, c, path, body, Result(s, f), FromFlight(f)).(
                   cache := AfterAnswer(cfg, s.cache, RequestKey(path, body), Result(s, f), s.now),
                   lastInsert := t.lastInsert)
  {
    t := Apply(cfg, s, CallerStep(c, OfferToCache));
    Takes(cfg, s, CallerStep(c, OfferToCache));
    if HasRoom(s.cache, cfg.capacity) {
      ThenTakes(cfg, s, t, CallerStep(c, StoreInCache));
      t := Apply(cfg, t, CallerStep(c, StoreInCache));
    }
  }

  // ---------- the whole request ----------

  /** From the join on: the flight, the answer, the breaker and the cache. */
  lemma Flies(cfg: Config, s: State, c: nat, path: Bytes, body: Bytes, log: seq<Outcome>, answeredAt: nat)
    returns (t: State)
    requires B.WellFormed(s.breakers) && c < |s.callers| && s.callers[c] == Caller(path, body, Join)
    requires RequestKey(path, body) !in s.inFlight && R.IsRetryRun(cfg.retryMax, log) && s.now <= answeredAt
    ensures Reaches(cfg, s, t)
    ensures var outcome := log[|log| - 1];
            var table := AfterFlight(cfg, s.breakers, path, outcome, answeredAt);
            var down := Down(s, c, path, body, log, table, answeredAt);
            t == Answered(down, c, path, body, outcome, FromFlight(|s.flights|)).(
                   breakers := AfterCaller(cfg, table, path, outcome, answeredAt),
                   cache := AfterAnswer(cfg, s.cache, RequestKey(path, body), outcome, answeredAt),
                   lastInsert := t.lastInsert)
  {
    Lands(cfg, s, c, path, body, log, answeredAt);
    var down := Down(s, c, path, body, log, AfterFlight(cfg, s.breakers, path, log[|log| - 1], answeredAt), answeredAt);
    t := Answers(cfg, down, c, path, body, |s.flights|);
    Then(cfg, s, down, t);
  }

  /** What running a request through from s to t must give: everything that handling it on its own gives, and no other
      caller moved. */
  ghost predicate RanAs(cfg: Config, s: State, t: State, c: nat, path: Bytes, body: Bytes, log: seq<Outcome>,
                        answeredAt: nat)
    requires B.WellFormed(s.breakers) && (CallsUpstream(cfg, s.cache, s.breakers, path, body, s.now) ==> log != [])
  {
    var h := Handled(cfg, s.cache, s.breakers, path, body, log, s.now, answeredAt);
    && |t.callers| == |s.callers| && c < |t.callers| && t.callers[c].pc.Idle?
    && (forall d | 0 <= d < |s.callers| && d != c :: t.callers[d] == s.callers[d])
    && t.inFlight == s.inFlight && t.calls == s.calls + CallsFor(|s.flights|, path, body, log)
    && t.now == (if CallsUpstream(cfg, s.cache, s.breakers, path, body, s.now) then answeredAt else s.now)
    && t.cache == h.cache && t.breakers == h.breakers
    && |t.replies| == |s.replies| + 1 && t.replies[..|s.replies|] == s.replies
    && Gave(t, t.replies[|s.replies|], path, body, h.reply)
    && (!Hits(cfg, s.cache, RequestKey(path, body), s.now) && Rejects(s.breakers, path, s.now) ==>
          t.replies[|s.replies|].source == FromBreaker(h.breakers.current[path]))
  }

  /** r answers the request with this outcome, now. */
  predicate Gave(t: State, r: Reply, path: Bytes, body: Bytes, outcome: Outcome) {
    r.path == path && r.body == body && r.outcome == outcome && r.at == t.now
  }

  lemma HitIsARun(cfg: Config, s: State, c: nat, path: Bytes, body: Bytes, answeredAt: nat) returns (t: State)
    requires B.WellFormed(s.breakers) && c < |s.callers| && s.callers[c].pc.Idle? && NulFree(path)
    requires Hits(cfg, s.cache, RequestKey(path, body), s.now)
    ensures Reaches(cfg, s, t) && RanAs(cfg, s, t, c, path, body, [], answeredAt)
  {
    t := LooksUp(cfg, s, c, path, body);
  }

  /** The caller looks its request up in vain and asks its breaker. */
  lemma Asks(cfg: Config, s: State, c: nat, path: Bytes, body: Bytes) returns (t: State)
    requires B.WellFormed(s.breakers) && c < |s.callers| && s.callers[c].pc.Idle? && NulFree(path)
    requires !Hits(cfg, s.cache, RequestKey(path, body), s.now)
    ensures Reaches(cfg, s, t)
    ensures var found := B.Ensured(s.breakers, path);
            t == (if Rejects(s.breakers, path, s.now)
                  then Answered(s, c, path, body, BreakerOpen(), FromBreaker(found.current[path]))
                  else At(s, c, path, body, Join)).(
                   breakers := found, cache := AfterLookup(cfg, s.cache, RequestKey(path, body)))
  {
    var looked := LooksUp(cfg, s, c, path, body);
    t := AsksBreaker(cfg, looked, c, path, body);
    Then(cfg, s, looked, t);
    assert looked.callers[c := Caller(path, body, Idle)] == s.callers[c := Caller(path, body, Idle)];
    assert looked.callers[c := Caller(path, body, Join)] == s.callers[c := Caller(path, body, Join)];
  }

  lemma RejectionIsARun(cfg: Config, s: State, c: nat, path: Bytes, body: Bytes, answeredAt: nat) returns (t: State)
    requires B.WellFormed(s.breakers) && c < |s.callers| && s.callers[c].pc.Idle? && NulFree(path)
    requires !Hits(cfg, s.cache, RequestKey(path, body), s.now) && Rejects(s.breakers, path, s.now)
    ensures Reaches(cfg, s, t) && RanAs(cfg, s, t, c, path, body, [], answeredAt)
  {
    t := Asks(cfg, s, c, path, body);
  }

  lemma FlightIsARun(cfg: Config, s: State, c: nat, path: Bytes, body: Bytes, log: seq<Outcome>, answeredAt: nat)
    returns (t: State)
    requires B.WellFormed(s.breakers) && c < |s.callers| && s.callers[c].pc.Idle? && NulFree(path)
    requires RequestKey(path, body) !in s.inFlight && s.now <= answeredAt
    requires CallsUpstream(cfg, s.cache, s.breakers, path, body, s.now) && R.IsRetryRun(cfg.retryMax, log)
    ensures Reaches(cfg, s, t) && RanAs(cfg, s, t, c, path, body, log, answeredAt)
  {
    var joining := Asks(cfg, s, c, path, body);
    t := Flies(cfg, joining, c, path, body, log, answeredAt);
    Then(cfg, s, joining, t);
  }

  /** From any state in which a caller is free and nobody is flying for its request, the pipeline can run the request
      through to exactly the reply, calls, cache and breakers that handling it on its own gives. */
  lemma HandlingIsARun(cfg: Config, s: State, c: nat, path: Bytes, body: Bytes, log: seq<Outcome>, answeredAt: nat)
    returns (t: State)
    requires B.WellFormed(s.breakers) && c < |s.callers| && s.callers[c].pc.Idle? && NulFree(path)
    requires RequestKey(path, body) !in s.inFlight && s.now <= answeredAt
    requires CallsMade(cfg, s.cache, s.breakers, path, body, s.now, log)
    ensures Reaches(cfg, s, t) && RanAs(cfg, s, t, c, path, body, log, answeredAt)
  {
    if Hits(cfg, s.cache, RequestKey(path, body), s.now) {
      t := HitIsARun(cfg, s, c, path, body, answeredAt);
    } else if Rejects(s.breakers, path, s.now) {
      t := RejectionIsARun(cfg, s, c, path, body, answeredAt);
    } else {
      t := FlightIsARun(cfg, s, c, path, body, log, answeredAt);
    }
  }
}
