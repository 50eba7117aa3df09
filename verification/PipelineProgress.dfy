/** No caller is stranded: from every reachable state of the pipeline some steps bring each busy caller to its reply. */
module PipelineProgress {
  import opened Status
  import opened Pipeline
  import opened PipelineReach
  import opened PipelineSafety
  import opened PipelineTheorems
  import B = Breaker

  /** The step that moves caller c on: its own, or its flight's while that is unresolved. */
  function NextStep(s: State, c: nat): Step
    requires At(s, c)
  {
    match s.callers[c].pc
    case Idle => CallerStep(c, Arrive([], []))
    case LookUp => CallerStep(c, CacheGet)
    case Evict => CallerStep(c, CacheRemove)
    case Join => CallerStep(c, JoinFlight)
    case Crediting(_, _) => CallerStep(c, Credit)
    case Offer(_) => CallerStep(c, OfferToCache)
    case Store(_) => CallerStep(c, StoreInCache)
    case Waiting(f) =>
      if f >= |s.flights| || s.flights[f].phase.Landed? then CallerStep(c, Wake)
      else if s.flights[f].phase.Calling? then FlightStep(f, Upstream(Ok([])))
      else if s.flights[f].phase.Recording? then FlightStep(f, RecordFault)
      else FlightStep(f, LeaveMap)
    case _ => CallerStep(c, Check)
  }

  /** In every reachable state each caller can move, or the flight it waits for can. */
  lemma NeverStuck(cfg: Config, n: nat, run: seq<State>, i: nat, c: nat)
    requires IsRun(cfg, n, run) && i < |run| && c < n
    ensures |run[i].callers| == n && Enabled(run[i], NextStep(run[i], c))
  {
    var s := run[i];
    RunSafe(cfg, n, run, i, [], 0);
    assert CallerOk(cfg, s, s.callers[c]);
    if s.callers[c].pc.Waiting? {
      assert FlightOk(s, s.flights[s.callers[c].pc.flight]);
    }
  }

  // ---------- every caller can be answered ----------

  function RecordingLeft(rec: B.RecordPc): nat {
    match rec
    case Find => 7
    case Create => 6
    case AddTotal(_) => 5
    case AddFailure(_) => 4
    case ReadTotal(_) => 3
    case ReadFailures(_, _) => 2
    case Trip(_) => 1
    case Done => 0
  }

  function FlightLeft(s: State, f: nat): nat {
    if f >= |s.flights| then 0
    else match s.flights[f].phase
      case Landed(_) => 0
      case Removing(_) => 1
      case Recording(_, rec) => 2 + RecordingLeft(rec)
      case Calling => 10
  }

  /** A bound on the steps that are left until caller c replies, when its next calls succeed. */
  function StepsLeft(s: State, c: nat): nat
    requires At(s, c)
  {
    match s.callers[c].pc
    case Idle => 0
    case Store(_) => 1
    case Offer(_) => 2
    case Crediting(_, rec) => 3 + RecordingLeft(rec)
    case Waiting(f) => 11 + FlightLeft(s, f)
    case Join => 22
    case CheckState(_) => 23
    case CheckCreate => 24
    case CheckFind => 25
    case Evict => 26
    case LookUp => 27
  }

  /** Nobody replied, and the caller is still at its request. */
  predicate SameRequest(s: State, t: State, c: nat) {
    && At(s, c) && At(t, c) && !t.callers[c].pc.Idle? && t.replies == s.replies
    && t.callers[c].path == s.callers[c].path && t.callers[c].body == s.callers[c].body
  }

  /** The caller replied to its request, and nobody else replied. */
  predicate RepliedTo(s: State, t: State, c: nat) {
    && At(s, c) && At(t, c) && t.callers[c].pc.Idle?
    && |t.replies| == |s.replies| + 1 && t.replies[..|s.replies|] == s.replies
    && t.replies[|s.replies|].path == s.callers[c].path && t.replies[|s.replies|].body == s.callers[c].body
  }

  /** The caller replied, or it is nearer to replying. */
  predicate MovesOn(s: State, t: State, c: nat) {
    At(s, c) && (RepliedTo(s, t, c) || (SameRequest(s, t, c) && StepsLeft(t, c) < StepsLeft(s, c)))
  }

  lemma CheckProgress(s: State, c: nat)
    requires At(s, c) && (s.callers[c].pc.CheckFind? || s.callers[c].pc.CheckCreate? || s.callers[c].pc.CheckState?)
    requires s.callers[c].pc.CheckState? ==> s.callers[c].pc.b < |s.breakers.inners|
    ensures MovesOn(s, DoCheck(s, c), c)
  {
  }

  lemma JoinProgress(cfg: Config, s: State, c: nat)
    requires At(s, c) && s.callers[c].pc.Join? && FlightMap(s.flights, s.inFlight)
    ensures MovesOn(s, DoJoin(s, c), c)
  {
  }

  lemma CreditProgress(cfg: Config, s: State, c: nat)
    requires B.WellFormed(s.breakers) && At(s, c) && s.callers[c].pc.Crediting?
    requires LandedFlight(s, s.callers[c].pc.flight) && BreakerIndexOk(s, s.callers[c].pc.rec)
    ensures MovesOn(s, DoCredit(cfg, s, c), c)
  {
  }

  lemma CacheProgress(cfg: Config, s: State, c: nat, act: CallerAction)
    requires B.WellFormed(s.breakers) && CallerEnabled(s, c, act)
    requires act.CacheGet? || act.CacheRemove? || act.OfferToCache? || act.StoreInCache?
    ensures MovesOn(s, ApplyCaller(cfg, s, c, act), c)
  {
  }

  lemma WakeProgress(cfg: Config, s: State, c: nat)
    requires At(s, c) && s.callers[c].pc.Waiting? && LandedFlight(s, s.callers[c].pc.flight)
    ensures MovesOn(s, DoWake(s, c), c)
  {
  }

  lemma CallerProgress(cfg: Config, s: State, c: nat, act: CallerAction)
    requires B.WellFormed(s.breakers) && FlightMap(s.flights, s.inFlight) && At(s, c) && !s.callers[c].pc.Idle?
    requires NextStep(s, c) == CallerStep(c, act) && CallerEnabled(s, c, act)
    ensures MovesOn(s, ApplyCaller(cfg, s, c, act), c)
  {
    match act
    case Check => CheckProgress(s, c);
    case JoinFlight => JoinProgress(cfg, s, c);
    case Credit => CreditProgress(cfg, s, c);
    case Wake => WakeProgress(cfg, s, c);
    case _ => CacheProgress(cfg, s, c, act);
  }

  lemma FlightProgress(cfg: Config, s: State, c: nat, f: nat, move: FlightAction)
    requires B.WellFormed(s.breakers) && At(s, c) && s.callers[c].pc == Waiting(f)
    requires NextStep(s, c) == FlightStep(f, move) && FlightEnabled(s, f, move)
    ensures MovesOn(s, ApplyFlight(cfg, s, f, move), c)
  {
  }

  lemma NextEnabled(cfg: Config, s: State, c: nat)
    requires Safe(cfg, s) && At(s, c) && !s.callers[c].pc.Idle?
    ensures Enabled(s, NextStep(s, c))
  {
    assert CallerOk(cfg, s, s.callers[c]);
    if s.callers[c].pc.Waiting? { assert FlightOk(s, s.flights[s.callers[c].pc.flight]); }
  }

  lemma NextProgress(cfg: Config, s: State, c: nat)
    requires B.WellFormed(s.breakers) && FlightMap(s.flights, s.inFlight) && At(s, c) && !s.callers[c].pc.Idle?
    requires Enabled(s, NextStep(s, c))
    ensures MovesOn(s, Apply(cfg, s, NextStep(s, c)), c)
  {
    match NextStep(s, c)
    case CallerStep(_, act) => CallerProgress(cfg, s, c, act);
    case FlightStep(f, move) => FlightProgress(cfg, s, c, f, move);
  }

  /** The next step keeps the state safe and moves the caller on. */
  lemma StepsOn(cfg: Config, s: State, c: nat) returns (t: State)
    requires Safe(cfg, s) && Counted(s, [], 0) && At(s, c) && !s.callers[c].pc.Idle?
    ensures Safe(cfg, t) && Counted(t, [], 0) && Reaches(cfg, s, t) && MovesOn(s, t, c)
  {
    NextEnabled(cfg, s, c);
    NextProgress(cfg, s, c);
    var step := NextStep(s, c);
    t := Apply(cfg, s, step);
    StepSafe(cfg, s, step, [], 0);
    Takes(cfg, s, step);
  }

  lemma {:induction false} Answers(cfg: Config, s: State, c: nat) returns (t: State)
    requires Safe(cfg, s) && Counted(s, [], 0) && At(s, c) && !s.callers[c].pc.Idle?
    ensures Reaches(cfg, s, t) && RepliedTo(s, t, c)
    decreases StepsLeft(s, c)
  {
    t := StepsOn(cfg, s, c);
    if !RepliedTo(s, t, c) {
      var next := t;
      t := Answers(cfg, next, c);
      Then(cfg, s, next, t);
    }
  }

  /** From every reachable state, some steps bring each busy caller to the reply to its request. */
  lemma EveryCallerCanBeAnswered(cfg: Config, n: nat, run: seq<State>, i: nat, c: nat) returns (t: State)
    requires IsRun(cfg, n, run) && i < |run| && At(run[i], c) && !run[i].callers[c].pc.Idle?
    ensures Reaches(cfg, run[i], t) && RepliedTo(run[i], t, c)
  {
    RunSafe(cfg, n, run, i, [], 0);
    t := Answers(cfg, run[i], c);
  }
}
