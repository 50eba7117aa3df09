/** The proxy's request pipeline as a transition system. Any number of callers interleave their steps
    over the shared cache, breakers and in-flight map; ghost histories record upstream calls and replies. */
module Pipeline {
  import opened Status
  import opened Keys
  import opened Cache
  import B = Breaker

  datatype Config = Config(cacheEnabled: bool, ttl: nat, capacity: nat, retryMax: nat, threshold: B.Threshold)

  // ---------- state ----------

  /** A shared upstream call: retrying, recording a fault, leaving the in-flight map, or resolved. */
  datatype Phase =
    | Calling
    | Recording(outcome: Outcome, rec: B.RecordPc)
    | Removing(outcome: Outcome)
    | Landed(outcome: Outcome)

  /** log holds the outcomes of the upstream calls the flight has made. */
  datatype Flight = Flight(path: Bytes, body: Bytes, log: seq<Outcome>, phase: Phase) {
    function Key(): Bytes {
      RequestKey(path, body)
    }
  }

  /** Where a caller is in handling its request. */
  datatype Pc =
    | Idle
    | LookUp | Evict
    | CheckFind | CheckCreate | CheckState(b: nat)
    | Join
    | Waiting(flight: nat)
    | Crediting(flight: nat, rec: B.RecordPc)
    | Offer(flight: nat) | Store(flight: nat)
  {
    predicate HasFlight() {
      Waiting? || Crediting? || Offer? || Store?
    }
  }

  datatype Caller = Caller(path: Bytes, body: Bytes, pc: Pc) {
    function Key(): Bytes {
      RequestKey(path, body)
    }
  }

  /** One upstream call: which flight made it, for what request, and what came back. */
  datatype Call = Call(flight: nat, path: Bytes, body: Bytes, outcome: Outcome)

  datatype Source = FromCache(storedAt: nat) | FromBreaker(b: nat) | FromFlight(flight: nat)

  datatype Reply = Reply(path: Bytes, body: Bytes, outcome: Outcome, source: Source, at: nat)

  /** The last response accepted for a key. */
  datatype Insertion = Insertion(value: Bytes, at: nat)

  datatype State = State(
    callers: seq<Caller>,
    flights: seq<Flight>,
    inFlight: map<Bytes, nat>,
    cache: Entries,
    lastInsert: map<Bytes, Insertion>,
    breakers: B.Table,
    calls: seq<Call>,
    replies: seq<Reply>,
    now: nat)

  predicate Init(cfg: Config, n: nat, s: State) {
    && |s.callers| == n && (forall c | 0 <= c < n :: s.callers[c].pc == Idle)
    && s.flights == [] && s.inFlight == map[] && s.cache == map[] && s.lastInsert == map[]
    && s.breakers == B.Table([], map[]) && s.calls == [] && s.replies == []
    && cfg.retryMax >= 1
  }

  // ---------- steps ----------

  datatype CallerAction =
    | Arrive(path: Bytes, body: Bytes)
    | CacheGet | CacheRemove
    | Check
    | JoinFlight
    | Wake
    | Credit
    | OfferToCache | StoreInCache
    | Cancel

  datatype FlightAction = Upstream(answer: Outcome) | RecordFault | LeaveMap

  /** A flight's steps are taken by whichever attached caller polls it. */
  datatype Step =
    | CallerStep(c: nat, act: CallerAction)
    | FlightStep(f: nat, move: FlightAction)
    | Tick(dt: nat)

  predicate At(s: State, c: nat) {
    c < |s.callers|
  }

  /** Only caller c moved; no upstream call was made and no flight changed. */
  ghost predicate OnlyCaller(s: State, s': State, c: nat) {
    && |s'.callers| == |s.callers|
    && (forall d | 0 <= d < |s.callers| && d != c :: s'.callers[d] == s.callers[d])
    && s'.calls == s.calls && s'.now == s.now
    && s'.flights == s.flights && s'.inFlight == s.inFlight
  }

  function WithPc(s: State, c: nat, pc: Pc): (s': State)
    requires At(s, c)
    ensures OnlyCaller(s, s', c)
  {
    s.(callers := s.callers[c := s.callers[c].(pc := pc)])
  }

  function WithPhase(s: State, f: nat, phase: Phase): State
    requires f < |s.flights|
  {
    s.(flights := s.flights[f := s.flights[f].(phase := phase)])
  }

  /** The caller answers its client and becomes free for another request. */
  function Replied(s: State, c: nat, outcome: Outcome, source: Source): (s': State)
    requires At(s, c)
    ensures OnlyCaller(s, s', c)
  {
    var caller := s.callers[c];
    WithPc(s, c, Idle).(replies := s.replies + [Reply(caller.path, caller.body, outcome, source, s.now)])
  }

  function BreakerOpen(): Outcome {
    Err(UpstreamError(UNAVAILABLE, []))
  }

  /** The outcome of the resolved flight a caller is attached to. */
  function Result(s: State, f: nat): Outcome
    requires f < |s.flights| && s.flights[f].phase.Landed?
  {
    s.flights[f].phase.outcome
  }

  predicate LandedFlight(s: State, f: nat) {
    f < |s.flights| && s.flights[f].phase.Landed?
  }

  predicate BreakerIndexOk(s: State, rec: B.RecordPc) {
    B.Settled(rec) ==> rec.b < |s.breakers.inners|
  }

  predicate CallerEnabled(s: State, c: nat, act: CallerAction) {
    && At(s, c)
    && var pc := s.callers[c].pc;
       match act
       case Arrive(path, body) => pc.Idle? && NulFree(path)
       case CacheGet => pc.LookUp?
       case CacheRemove => pc.Evict?
       case Check => pc.CheckFind? || pc.CheckCreate? || (pc.CheckState? && pc.b < |s.breakers.inners|)
       case JoinFlight => pc.Join?
       case Wake => pc.Waiting? && LandedFlight(s, pc.flight)
       case Credit => pc.Crediting? && LandedFlight(s, pc.flight) && BreakerIndexOk(s, pc.rec)
       case OfferToCache => pc.Offer? && LandedFlight(s, pc.flight)
       case StoreInCache => pc.Store? && LandedFlight(s, pc.flight) && Result(s, pc.flight).Ok?
       case Cancel => pc.Waiting?
  }

  predicate FlightEnabled(s: State, f: nat, move: FlightAction) {
    && f < |s.flights|
    && var phase := s.flights[f].phase;
       match move
       case Upstream(_) => phase.Calling?
       case RecordFault => phase.Recording? && BreakerIndexOk(s, phase.rec)
       case LeaveMap => phase.Removing?
  }

  predicate Enabled(s: State, step: Step) {
    && B.WellFormed(s.breakers)
    && match step
       case CallerStep(c, act) => CallerEnabled(s, c, act)
       case FlightStep(f, move) => FlightEnabled(s, f, move)
       case Tick(_) => true
  }

  function DoArrive(cfg: Config, s: State, c: nat, path: Bytes, body: Bytes): (s': State)
    requires At(s, c)
    ensures OnlyCaller(s, s', c)
  {
    s.(callers := s.callers[c := Caller(path, body, if cfg.cacheEnabled then LookUp else CheckFind)])
  }

  function DoCacheGet(s: State, c: nat): (s': State)
    requires At(s, c)
    ensures OnlyCaller(s, s', c)
  {
    var key := s.callers[c].Key();
    if Fresh(s.cache, key, s.now) then
      var storedAt := if key in s.lastInsert then s.lastInsert[key].at else 0;
      Replied(s, c, Ok(s.cache[key].value), FromCache(storedAt))
    else WithPc(s, c, Evict)
  }

  function DoCacheRemove(s: State, c: nat): (s': State)
    requires At(s, c)
    ensures OnlyCaller(s, s', c)
  {
    WithPc(s, c, CheckFind).(cache := s.cache - {s.callers[c].Key()})
  }

  function DoCheck(s: State, c: nat): (s': State)
    requires At(s, c) && (s.callers[c].pc.CheckState? ==> s.callers[c].pc.b < |s.breakers.inners|)
    ensures OnlyCaller(s, s', c)
  {
    var caller := s.callers[c];
    match caller.pc
    case CheckFind =>
      var known := caller.path in s.breakers.current;
      WithPc(s, c, if known then CheckState(s.breakers.current[caller.path]) else CheckCreate)
    case CheckCreate =>
      WithPc(s, c, CheckState(|s.breakers.inners|)).(breakers := B.WithNew(s.breakers, caller.path))
    case CheckState(b) =>
      if B.StateOf(s.breakers.inners[b], s.now) == B.Open
      then Replied(s, c, BreakerOpen(), FromBreaker(b))
      else WithPc(s, c, Join)
    case _ => s
  }

  /** Joins the key's flight, or takes off with a new one. */
  function DoJoin(s: State, c: nat): State
    requires At(s, c)
  {
    var caller := s.callers[c];
    var key := caller.Key();
    if key in s.inFlight then WithPc(s, c, Waiting(s.inFlight[key]))
    else
      WithPc(s, c, Waiting(|s.flights|)).(
        flights := s.flights + [Flight(caller.path, caller.body, [], Calling)],
        inFlight := s.inFlight[key := |s.flights|])
  }

  function DoUpstream(cfg: Config, s: State, f: nat, answer: Outcome): State
    requires f < |s.flights|
  {
    var flight := s.flights[f];
    var log := flight.log + [answer];
    var phase :=
      if answer.IsRetryable() && |log| < cfg.retryMax then Calling
      else if answer.IsFault() then Recording(answer, B.Find)
      else Removing(answer);
    s.(flights := s.flights[f := flight.(log := log, phase := phase)],
       calls := s.calls + [Call(f, flight.path, flight.body, answer)])
  }

  function DoRecordFault(cfg: Config, s: State, f: nat): State
    requires B.WellFormed(s.breakers) && f < |s.flights| && s.flights[f].phase.Recording?
    requires BreakerIndexOk(s, s.flights[f].phase.rec)
  {
    var phase := s.flights[f].phase;
    if phase.rec.Done? then WithPhase(s, f, Removing(phase.outcome))
    else
      var (breakers, rec) := B.RecordStep(cfg.threshold, s.breakers, phase.rec, s.flights[f].path, false, s.now);
      WithPhase(s, f, Recording(phase.outcome, rec)).(breakers := breakers)
  }

  function DoLeaveMap(s: State, f: nat): State
    requires f < |s.flights| && s.flights[f].phase.Removing?
  {
    WithPhase(s, f, Landed(s.flights[f].phase.outcome)).(inFlight := s.inFlight - {s.flights[f].Key()})
  }

  function DoWake(s: State, c: nat): (s': State)
    requires At(s, c) && s.callers[c].pc.Waiting? && LandedFlight(s, s.callers[c].pc.flight)
    ensures OnlyCaller(s, s', c)
  {
    var f := s.callers[c].pc.flight;
    if Result(s, f).IsFault() then Replied(s, c, Result(s, f), FromFlight(f))
    else WithPc(s, c, Crediting(f, B.Find))
  }

  function DoCredit(cfg: Config, s: State, c: nat): (s': State)
    requires B.WellFormed(s.breakers) && At(s, c) && s.callers[c].pc.Crediting?
    requires LandedFlight(s, s.callers[c].pc.flight) && BreakerIndexOk(s, s.callers[c].pc.rec)
    ensures OnlyCaller(s, s', c)
  {
    var Crediting(f, rec) := s.callers[c].pc;
    if rec.Done? then
      if Result(s, f).Ok? && cfg.cacheEnabled then WithPc(s, c, Offer(f))
      else Replied(s, c, Result(s, f), FromFlight(f))
    else
      var (breakers, next) := B.RecordStep(cfg.threshold, s.breakers, rec, s.callers[c].path, true, s.now);
      WithPc(s, c, Crediting(f, next)).(breakers := breakers)
  }

  function DoOffer(cfg: Config, s: State, c: nat): (s': State)
    requires At(s, c) && s.callers[c].pc.Offer? && LandedFlight(s, s.callers[c].pc.flight)
    ensures OnlyCaller(s, s', c)
  {
    var f := s.callers[c].pc.flight;
    if HasRoom(s.cache, cfg.capacity) then WithPc(s, c, Store(f))
    else Replied(s, c, Result(s, f), FromFlight(f))
  }

  function DoStore(cfg: Config, s: State, c: nat): (s': State)
    requires At(s, c) && s.callers[c].pc.Store? && LandedFlight(s, s.callers[c].pc.flight)
    requires Result(s, s.callers[c].pc.flight).Ok?
    ensures OnlyCaller(s, s', c)
  {
    var f := s.callers[c].pc.flight;
    var key, value := s.callers[c].Key(), Result(s, f).body;
    Replied(s, c, Result(s, f), FromFlight(f)).(
      cache := Stored(s.cache, key, value, cfg.ttl, s.now),
      lastInsert := s.lastInsert[key := Insertion(value, s.now)])
  }

  function ApplyCaller(cfg: Config, s: State, c: nat, act: CallerAction): State
    requires B.WellFormed(s.breakers) && CallerEnabled(s, c, act)
  {
    match act
    case Arrive(path, body) => DoArrive(cfg, s, c, path, body)
    case CacheGet => DoCacheGet(s, c)
    case CacheRemove => DoCacheRemove(s, c)
    case Check => DoCheck(s, c)
    case JoinFlight => DoJoin(s, c)
    case Wake => DoWake(s, c)
    case Credit => DoCredit(cfg, s, c)
    case OfferToCache => DoOffer(cfg, s, c)
    case StoreInCache => DoStore(cfg, s, c)
    case Cancel => WithPc(s, c, Idle)
  }

  function ApplyFlight(cfg: Config, s: State, f: nat, move: FlightAction): State
    requires B.WellFormed(s.breakers) && FlightEnabled(s, f, move)
  {
    match move
    case Upstream(answer) => DoUpstream(cfg, s, f, answer)
    case RecordFault => DoRecordFault(cfg, s, f)
    case LeaveMap => DoLeaveMap(s, f)
  }

  function Apply(cfg: Config, s: State, step: Step): State
    requires Enabled(s, step)
  {
    match step
    case CallerStep(c, act) => ApplyCaller(cfg, s, c, act)
    case FlightStep(f, move) => ApplyFlight(cfg, s, f, move)
    case Tick(dt) => s.(now := s.now + dt)
  }

  ghost predicate Next(cfg: Config, s: State, s': State) {
    exists step :: Enabled(s, step) && s' == Apply(cfg, s, step)
  }

  /** A run of n concurrent callers from the initial state. */
  ghost predicate IsRun(cfg: Config, n: nat, run: seq<State>) {
    && |run| > 0 && Init(cfg, n, run[0])
    && (forall i | 0 <= i < |run| - 1 :: Moves(cfg, run, i))
  }

  ghost predicate Moves(cfg: Config, run: seq<State>, i: nat)
    requires i + 1 < |run|
  {
    Next(cfg, run[i], run[i + 1])
  }
}
