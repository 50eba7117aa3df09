/** The GitHub config watcher: polls the head commit of a ref, refetches when it moved, and publishes to receivers.
    Commits appear, requests fail and receivers leave between any two of its steps. */
module Watcher {
  import opened Options
  import opened Powers

  type Bytes = seq<bv8>

  /** The watched path's content at each commit; a number stands for a commit's SHA. */
  type Repo = nat -> Option<Bytes>

  const NANOS := 1_000_000_000
  const MAX_BACKOFF := 300 * NANOS
  const MAX_U32 := 0xFFFF_FFFF

  // ---------- backoff ----------

  /** The factor saturates once the shift would leave 32 bits. */
  function Factor(attempts: nat): nat {
    if attempts < 32 then Power2(attempts) else MAX_U32
  }

  /** In nanoseconds. */
  function Backoff(base: nat, attempts: nat): nat {
    if base * Factor(attempts) > MAX_BACKOFF then MAX_BACKOFF else base * Factor(attempts)
  }

  function Least(a: nat, b: nat): nat {
    if a < b then a else b
  }

  lemma {:induction false} PowerGrows(m: nat, n: nat)
    requires m <= n
    ensures Power2(m) <= Power2(n)
  {
    if m < n { PowerGrows(m, n - 1); }
  }

  lemma CapsAlike(base: nat, low: nat, high: nat)
    requires low < high
    ensures Least(base * low, MAX_BACKOFF) == Least(base * high, MAX_BACKOFF)
       <==> base == 0 || base * low >= MAX_BACKOFF
  {
    assert base * high == base * low + base * (high - low);
    assert base > 0 ==> base * (high - low) > 0;
  }

  /** Backing off doubles the interval for each failure up to the cap; the saturated factor only shows for base
      intervals too short to reach the cap with it. */
  lemma BackoffIsCappedDoubling(base: nat, attempts: nat)
    ensures Backoff(base, attempts) == Least(base * Power2(attempts), MAX_BACKOFF)
       <==> attempts < 32 || base == 0 || base * MAX_U32 >= MAX_BACKOFF
  {
    if attempts >= 32 {
      PowerGrows(32, attempts);
      PowerOf32();
      CapsAlike(base, MAX_U32, Power2(attempts));
    }
  }

  lemma PowerOf32()
    ensures Power2(32) == MAX_U32 + 1
  {
    assert Power2(8) == 256;
    assert Power2(16) == 65536 by { assert Power2(12) == 4096; }
    assert Power2(24) == 16777216 by { assert Power2(20) == 1048576; }
    assert Power2(28) == 268435456;
  }

  // ---------- the watcher ----------

  /** What a contents request brought: where in the ref's history it was answered, and whether with a 404. */
  datatype Answer = Answer(at: nat, missing: bool)

  /** A poll or a refetch carries the place in the history at which its poll was answered. */
  datatype Phase =
    | Starting
    | Waiting
    | Polled(at: nat)
    | Fetching(at: nat)
    | Sending(polled: Option<nat>, answer: Answer)
    | Stopped

  /** heads is the history of the ref, its last entry the current head; shown is the answer published last. */
  datatype State = State(
    heads: seq<nat>,
    phase: Phase,
    lastSha: Option<nat>,
    value: Option<Bytes>,
    shown: Option<Answer>,
    failures: nat,
    interval: nat)

  predicate Init(s: State, base: nat) {
    |s.heads| == 1 && s.phase == Starting && s.lastSha == None && s.value == None && s.shown == None
    && s.failures == 0 && s.interval == base
  }

  datatype Step =
    | Move(to: nat)
    | FirstRead
    | FirstMissing
    | FirstFails
    | Poll
    | PollMissing
    | PollTransient
    | PollPermanent
    | Compare
    | Read
    | ReadMissing
    | ReadFails
    | Deliver
    | ReceiversGone

  predicate InHistory(s: State, at: nat) {
    at < |s.heads|
  }

  predicate Enabled(s: State, step: Step) {
    && s.heads != []
    && match step
       case Move(_) => true
       case ReceiversGone => true
       case FirstRead => s.phase.Starting?
       case FirstMissing => s.phase.Starting?
       case FirstFails => s.phase.Starting?
       case Poll => s.phase.Waiting?
       case PollMissing => s.phase.Waiting?
       case PollTransient => s.phase.Waiting?
       case PollPermanent => s.phase.Waiting?
       case Compare => s.phase.Polled? && InHistory(s, s.phase.at)
       case Read => s.phase.Fetching?
       case ReadMissing => s.phase.Fetching?
       case ReadFails => s.phase.Fetching?
       case Deliver =>
         && s.phase.Sending? && InHistory(s, s.phase.answer.at)
         && (s.phase.polled.Some? ==> InHistory(s, s.phase.polled.value))
  }

  function Now(s: State): nat
    requires s.heads != []
  {
    |s.heads| - 1
  }

  function Head(s: State): nat
    requires s.heads != []
  {
    s.heads[|s.heads| - 1]
  }

  /** The poll that was answered found the recorded commit again. */
  predicate NoChange(s: State) {
    s.phase.Polled? && InHistory(s, s.phase.at) && s.lastSha == Some(s.heads[s.phase.at])
  }

  function BackedOff(s: State, base: nat): State {
    var failures := if s.failures == MAX_U32 then MAX_U32 else s.failures + 1;
    s.(failures := failures, interval := Backoff(base, failures))
  }

  /** The content an answer carries; a 404 carries none, whatever the commit holds. */
  function Given(repo: Repo, heads: seq<nat>, answer: Answer): Option<Bytes>
    requires answer.at < |heads|
  {
    if answer.missing then None else repo(heads[answer.at])
  }

  /** A request reads the ref where it stands when the server answers; what follows is a step of its own. */
  function Apply(repo: Repo, base: nat, s: State, step: Step): State
    requires Enabled(s, step)
  {
    match step
    case Move(to) => s.(heads := s.heads + [to])
    case FirstRead => s.(phase := Sending(None, Answer(Now(s), false)))
    case FirstMissing => s.(phase := Sending(None, Answer(Now(s), true)))
    case FirstFails => s.(phase := Waiting)
    case Poll => s.(phase := Polled(Now(s)))
    case PollMissing => BackedOff(s, base)
    case PollTransient => BackedOff(s, base)
    case PollPermanent => s.(phase := Stopped)
    case Compare => s.(failures := 0, interval := base, phase := if NoChange(s) then Waiting else Fetching(s.phase.at))
    case Read => s.(phase := Sending(Some(s.phase.at), Answer(Now(s), false)))
    case ReadMissing => s.(phase := Sending(Some(s.phase.at), Answer(Now(s), true)))
    case ReadFails => s.(phase := Waiting)
    case Deliver =>
      s.(phase := Waiting, value := Given(repo, s.heads, s.phase.answer), shown := Some(s.phase.answer),
         lastSha := if s.phase.polled.Some? then Some(s.heads[s.phase.polled.value]) else s.lastSha)
    case ReceiversGone => s.(phase := Stopped)
  }

  /** A contents request is answered 404 only when the commit really lacks the file. */
  predicate Honest(repo: Repo, s: State, step: Step)
    requires s.heads != []
  {
    step.FirstMissing? || step.ReadMissing? ==> repo(Head(s)).None?
  }

  ghost predicate Next(repo: Repo, base: nat, honest: bool, s: State, s': State) {
    exists step :: Enabled(s, step) && (honest ==> Honest(repo, s, step)) && s' == Apply(repo, base, s, step)
  }

  /** A run; when honest, no contents request is answered 404 while the file exists. */
  ghost predicate IsRun(repo: Repo, base: nat, honest: bool, run: seq<State>) {
    && run != [] && Init(run[0], base)
    && forall i | 0 <= i < |run| - 1 :: Moves(repo, base, honest, run, i)
  }

  ghost predicate Moves(repo: Repo, base: nat, honest: bool, run: seq<State>, i: nat)
    requires i + 1 < |run|
  {
    Next(repo, base, honest, run[i], run[i + 1])
  }

  // ---------- invariant ----------

  /** The ref stood at the commit no later than the given place of its history. */
  ghost predicate StoodBy(heads: seq<nat>, sha: nat, limit: nat) {
    exists a | 0 <= a < |heads| :: a <= limit && heads[a] == sha
  }

  predicate ShownBy(s: State, limit: nat) {
    s.shown.Some? ==> s.shown.value.at <= limit
  }

  /** An honest 404 carries what the commit holds. */
  predicate Truthful(repo: Repo, heads: seq<nat>, answer: Answer)
    requires answer.at < |heads|
  {
    answer.missing ==> repo(heads[answer.at]).None?
  }

  predicate AnswerOk(repo: Repo, honest: bool, s: State, answer: Answer) {
    InHistory(s, answer.at) && (honest ==> Truthful(repo, s.heads, answer))
  }

  /** What is shown was answered no earlier than the recorded commit was head, and whatever is observed or read next
      comes no earlier than what is shown. */
  ghost predicate Inv(repo: Repo, honest: bool, s: State) {
    && s.heads != []
    && (s.shown.Some? ==> AnswerOk(repo, honest, s, s.shown.value))
    && s.value == (if s.shown.Some? then Given(repo, s.heads, s.shown.value) else None)
    && (s.lastSha.Some? ==> s.shown.Some? && StoodBy(s.heads, s.lastSha.value, s.shown.value.at))
    && match s.phase
       case Starting => s.shown.None?
       case Polled(at) => InHistory(s, at) && ShownBy(s, at)
       case Fetching(at) => InHistory(s, at) && ShownBy(s, at)
       case Sending(polled, answer) =>
         && AnswerOk(repo, honest, s, answer) && ShownBy(s, answer.at)
         && (polled.Some? ==> polled.value <= answer.at)
       case _ => true
  }

  lemma MoveKeepsInv(repo: Repo, base: nat, honest: bool, s: State, to: nat)
    requires Inv(repo, honest, s)
    ensures Inv(repo, honest, Apply(repo, base, s, Move(to)))
  {
    var s' := Apply(repo, base, s, Move(to));
    if s.lastSha.Some? {
      var a :| 0 <= a < |s.heads| && a <= s.shown.value.at && s.heads[a] == s.lastSha.value;
      assert s'.heads[a] == s.lastSha.value;
    }
  }

  lemma StepKeepsInv(repo: Repo, base: nat, honest: bool, s: State, step: Step)
    requires Inv(repo, honest, s) && Enabled(s, step) && (honest ==> Honest(repo, s, step))
    ensures Inv(repo, honest, Apply(repo, base, s, step))
  {
    if step.Move? {
      MoveKeepsInv(repo, base, honest, s, step.to);
    } else if step.Deliver? && s.phase.polled.Some? {
      assert StoodBy(s.heads, s.heads[s.phase.polled.value], s.phase.answer.at);
    }
  }

  /** The history only grows, and the answer shown never goes back in it. */
  ghost predicate Later(s: State, s': State) {
    && s.heads <= s'.heads
    && (s.shown.Some? ==> s'.shown.Some? && s.shown.value.at <= s'.shown.value.at)
  }

  lemma RunStep(repo: Repo, base: nat, honest: bool, run: seq<State>, i: nat) returns (step: Step)
    requires IsRun(repo, base, honest, run) && i + 1 < |run|
    ensures Enabled(run[i], step) && (honest ==> Honest(repo, run[i], step))
    ensures run[i + 1] == Apply(repo, base, run[i], step)
  {
    assert Moves(repo, base, honest, run, i);
    step :| Enabled(run[i], step) && (honest ==> Honest(repo, run[i], step))
            && run[i + 1] == Apply(repo, base, run[i], step);
  }

  lemma {:induction false} RunInv(repo: Repo, base: nat, honest: bool, run: seq<State>, i: nat)
    requires IsRun(repo, base, honest, run) && i < |run|
    ensures Inv(repo, honest, run[i])
  {
    if i > 0 {
      RunInv(repo, base, honest, run, i - 1);
      var step := RunStep(repo, base, honest, run, i - 1);
      StepKeepsInv(repo, base, honest, run[i - 1], step);
    }
  }

  // ---------- what receivers hold ----------

  /** Once a commit is recorded, receivers hold an answer given when the ref stood at it or later. */
  lemma NeverOlderThanRecorded(repo: Repo, base: nat, honest: bool, run: seq<State>, i: nat)
    requires IsRun(repo, base, honest, run) && i < |run| && run[i].lastSha.Some?
    ensures run[i].shown.Some? && InHistory(run[i], run[i].shown.value.at)
    ensures StoodBy(run[i].heads, run[i].lastSha.value, run[i].shown.value.at)
    ensures run[i].value == Given(repo, run[i].heads, run[i].shown.value)
  {
    RunInv(repo, base, honest, run, i);
  }

  /** Receivers never go back in the history, whatever is answered and whatever fails. */
  lemma {:induction false} NeverGoesBack(repo: Repo, base: nat, honest: bool, run: seq<State>, i: nat, j: nat)
    requires IsRun(repo, base, honest, run) && i <= j < |run|
    ensures Later(run[i], run[j])
    decreases j - i
  {
    if i < j {
      NeverGoesBack(repo, base, honest, run, i, j - 1);
      RunInv(repo, base, honest, run, j - 1);
      var step := RunStep(repo, base, honest, run, j - 1);
    }
  }

  // ---------- freshness: exactly when a poll may find no change over stale content ----------

  /** A poll finds no change while receivers hold something else than the commit it saw. */
  ghost predicate Stale(repo: Repo, s: State) {
    NoChange(s) && s.value != repo(s.heads[s.phase.at])
  }

  /** The ref comes back to a commit after standing at one with other content. */
  ghost predicate ComesBack(repo: Repo, heads: seq<nat>) {
    exists i, j, k | 0 <= i < j < k < |heads| :: heads[i] == heads[k] && repo(heads[j]) != repo(heads[i])
  }

  ghost predicate HasContent(repo: Repo, heads: seq<nat>) {
    exists k | 0 <= k < |heads| :: repo(heads[k]).Some?
  }

  /** Some schedule of the watcher's steps along this history ends stale. */
  ghost predicate CanGoStale(repo: Repo, base: nat, honest: bool, heads: seq<nat>) {
    exists run :: EndsStale(repo, base, honest, heads, run)
  }

  ghost predicate EndsStale(repo: Repo, base: nat, honest: bool, heads: seq<nat>, run: seq<State>) {
    IsRun(repo, base, honest, run) && Last(run).heads == heads && Stale(repo, Last(run))
  }

  function Last(run: seq<State>): State
    requires run != []
  {
    run[|run| - 1]
  }

  /** When no change is found, receivers hold the content of the commit observed, unless the ref came back to it or the
      last answer was a 404 for a file that exists there. */
  lemma NoChangeExactly(repo: Repo, base: nat, honest: bool, run: seq<State>, i: nat)
    requires IsRun(repo, base, honest, run) && i < |run| && NoChange(run[i]) && !ComesBack(repo, run[i].heads)
    ensures run[i].shown.Some?
    ensures run[i].value == repo(run[i].heads[run[i].phase.at])
       <==> !(run[i].shown.value.missing && repo(run[i].heads[run[i].phase.at]).Some?)
  {
    var s := run[i];
    RunInv(repo, base, honest, run, i);
    var a :| 0 <= a < |s.heads| && a <= s.shown.value.at && s.heads[a] == s.lastSha.value;
    var b, k := s.shown.value.at, s.phase.at;
    assert a < b < k ==> repo(s.heads[b]) == repo(s.heads[a]);
  }

  lemma StaleHasCause(repo: Repo, base: nat, honest: bool, run: seq<State>)
    requires IsRun(repo, base, honest, run) && Stale(repo, Last(run))
    ensures ComesBack(repo, Last(run).heads) || (!honest && HasContent(repo, Last(run).heads))
  {
    var s := Last(run);
    RunInv(repo, base, honest, run, |run| - 1);
    if !ComesBack(repo, s.heads) {
      NoChangeExactly(repo, base, honest, run, |run| - 1);
      var a :| 0 <= a < |s.heads| && a <= s.shown.value.at && s.heads[a] == s.lastSha.value;
      var b, k := s.shown.value.at, s.phase.at;
      assert a < b < k ==> repo(s.heads[b]) == repo(s.heads[a]);
    }
  }

  lemma Takes(repo: Repo, base: nat, honest: bool, run: seq<State>, step: Step) returns (longer: seq<State>)
    requires IsRun(repo, base, honest, run) && Enabled(Last(run), step)
    requires honest ==> Honest(repo, Last(run), step)
    ensures IsRun(repo, base, honest, longer) && Last(longer) == Apply(repo, base, Last(run), step)
  {
    longer := run + [Apply(repo, base, Last(run), step)];
    forall i | 0 <= i < |longer| - 1 ensures Moves(repo, base, honest, longer, i) {
      if i < |run| - 1 { assert Moves(repo, base, honest, run, i); }
    }
  }

  /** The ref moves on along the history to its n-th place while the watcher stands still. */
  lemma {:induction false} MovesOn(repo: Repo, base: nat, honest: bool, run: seq<State>, heads: seq<nat>, n: nat)
    returns (longer: seq<State>)
    requires IsRun(repo, base, honest, run)
    requires 0 < |Last(run).heads| <= n <= |heads| && Last(run).heads == heads[..|Last(run).heads|]
    ensures IsRun(repo, base, honest, longer) && Last(longer) == Last(run).(heads := heads[..n])
    decreases n - |Last(run).heads|
  {
    var m := |Last(run).heads|;
    if m == n {
      longer := run;
    } else {
      var next := Takes(repo, base, honest, run, Move(heads[m]));
      assert Last(next).heads == heads[..m + 1];
      longer := MovesOn(repo, base, honest, next, heads, n);
    }
  }

  /** A run whose watcher waits with nothing recorded while the ref has come to the n-th place. */
  lemma WaitsAt(repo: Repo, base: nat, honest: bool, heads: seq<nat>, n: nat) returns (run: seq<State>)
    requires 0 < n <= |heads|
    ensures IsRun(repo, base, honest, run) && Last(run) == State(heads[..n], Waiting, None, None, None, 0, base)
  {
    run := [State([heads[0]], Starting, None, None, None, 0, base)];
    run := Takes(repo, base, honest, run, FirstFails);
    assert Last(run).heads == heads[..1];
    run := MovesOn(repo, base, honest, run, heads, n);
  }

  /** Polled at i, refetched at j, polled again at k. */
  lemma StaleWhenBack(repo: Repo, base: nat, honest: bool, heads: seq<nat>, i: nat, j: nat, k: nat)
    requires i < j < k < |heads| && heads[i] == heads[k] && repo(heads[j]) != repo(heads[i])
    ensures CanGoStale(repo, base, honest, heads)
  {
    var run := WaitsAt(repo, base, honest, heads, i + 1);
    run := Takes(repo, base, honest, run, Poll);
    run := Takes(repo, base, honest, run, Compare);
    run := MovesOn(repo, base, honest, run, heads, j + 1);
    run := Takes(repo, base, honest, run, Read);
    run := Takes(repo, base, honest, run, Deliver);
    run := MovesOn(repo, base, honest, run, heads, k + 1);
    run := Takes(repo, base, honest, run, Poll);
    run := MovesOn(repo, base, honest, run, heads, |heads|);
    assert heads[..|heads|] == heads;
    assert EndsStale(repo, base, honest, heads, run);
  }

  /** Polled, answered 404 although the file is there, and polled again. */
  lemma StaleWhenMissing(repo: Repo, base: nat, heads: seq<nat>, k: nat)
    requires k < |heads| && repo(heads[k]).Some?
    ensures CanGoStale(repo, base, false, heads)
  {
    var run := WaitsAt(repo, base, false, heads, k + 1);
    run := Takes(repo, base, false, run, Poll);
    run := Takes(repo, base, false, run, Compare);
    run := Takes(repo, base, false, run, ReadMissing);
    run := Takes(repo, base, false, run, Deliver);
    run := Takes(repo, base, false, run, Poll);
    run := MovesOn(repo, base, false, run, heads, |heads|);
    assert heads[..|heads|] == heads;
    assert EndsStale(repo, base, false, heads, run);
  }

  /** Along a history of the ref, some schedule finds no change over stale content exactly when the ref comes back to a
      commit after standing at one with other content, or when a contents request may be answered 404 for a file that
      exists. */
  lemma StaleExactlyWhen(repo: Repo, base: nat, honest: bool, heads: seq<nat>)
    requires heads != []
    ensures CanGoStale(repo, base, honest, heads)
       <==> ComesBack(repo, heads) || (!honest && HasContent(repo, heads))
  {
    if CanGoStale(repo, base, honest, heads) {
      var run :| EndsStale(repo, base, honest, heads, run);
      StaleHasCause(repo, base, honest, run);
    }
    if ComesBack(repo, heads) {
      var i, j, k :| 0 <= i < j < k < |heads| && heads[i] == heads[k] && repo(heads[j]) != repo(heads[i]);
      StaleWhenBack(repo, base, honest, heads, i, j, k);
    } else if !honest && HasContent(repo, heads) {
      var k :| 0 <= k < |heads| && repo(heads[k]).Some?;
      StaleWhenMissing(repo, base, heads, k);
    }
  }

  /** The ref only moves forward along numbered commits. */
  ghost predicate Forward(heads: seq<nat>) {
    forall i, j | 0 <= i < j < |heads| :: heads[i] <= heads[j]
  }

  /** With a ref that only moves forward and honest answers, no change means that receivers are current. */
  lemma NoChangeMeansCurrent(repo: Repo, base: nat, run: seq<State>, i: nat)
    requires IsRun(repo, base, true, run) && i < |run| && NoChange(run[i]) && Forward(run[i].heads)
    ensures run[i].value == repo(run[i].heads[run[i].phase.at])
  {
    var heads := run[i].heads;
    forall a, b, k | 0 <= a < b < k < |heads| && heads[a] == heads[k] ensures repo(heads[b]) == repo(heads[a]) {
      assert heads[a] <= heads[b] <= heads[k];
    }
    RunInv(repo, base, true, run, i);
    NoChangeExactly(repo, base, true, run, i);
    var s := run[i];
    var a :| 0 <= a < |s.heads| && a <= s.shown.value.at && s.heads[a] == s.lastSha.value;
  }

  // ---------- what happens while the ref stands still ----------

  /** The watcher has nothing in hand and the current head is the recorded commit. */
  predicate Settled(s: State) {
    s.heads != [] && (s.phase.Waiting? || s.phase.Polled? || s.phase.Stopped?) && s.lastSha == Some(Head(s))
    && (s.phase.Polled? ==> s.phase.at == Now(s))
  }

  /** A recorded head is never refetched: until the ref moves, what receivers hold stays, current or not, whatever is
      answered. */
  lemma {:induction false} RecordedHeadIsFinal(repo: Repo, base: nat, honest: bool, run: seq<State>, i: nat, j: nat)
    requires IsRun(repo, base, honest, run) && i <= j < |run| && Settled(run[i]) && run[j].heads == run[i].heads
    ensures Settled(run[j]) && run[j].value == run[i].value
    decreases j - i
  {
    if i < j {
      NeverGoesBack(repo, base, honest, run, i, j - 1);
      NeverGoesBack(repo, base, honest, run, j - 1, j);
      assert run[j - 1].heads == run[i].heads;
      RecordedHeadIsFinal(repo, base, honest, run, i, j - 1);
      var step := RunStep(repo, base, honest, run, j - 1);
    }
  }

  function FourSteps(repo: Repo, base: nat, s: State, read: Step): State
    requires s.heads != [] && s.phase.Waiting? && s.lastSha != Some(Head(s)) && (read == Read || read == ReadMissing)
  {
    var polled := Apply(repo, base, s, Poll);
    var compared := Apply(repo, base, polled, Compare);
    Apply(repo, base, Apply(repo, base, compared, read), Deliver)
  }

  /** The code's answer to a refetch of an existing file that comes back 404: the commit is recorded all the same,
      receivers lose the content, and the next poll finds no change. */
  lemma MissingRefetchSticks(repo: Repo, base: nat, s: State)
    requires s.heads != [] && s.phase.Waiting? && s.lastSha != Some(Head(s)) && repo(Head(s)).Some?
    ensures var t := FourSteps(repo, base, s, ReadMissing);
            && t.value == None && Settled(t) && t.heads == s.heads
            && Stale(repo, Apply(repo, base, t, Poll))
  {
  }

  /** One tick with successful requests while the ref stands still catches up, exactly unless the head is already
      recorded over something else. */
  function Tick(repo: Repo, base: nat, s: State): State
    requires s.heads != [] && s.phase.Waiting?
  {
    if s.lastSha == Some(Head(s)) then Apply(repo, base, Apply(repo, base, s, Poll), Compare)
    else FourSteps(repo, base, s, Read)
  }

  lemma TickCatchesUp(repo: Repo, base: nat, s: State)
    requires s.heads != [] && s.phase.Waiting?
    ensures Tick(repo, base, s).value == repo(Head(s)) <==> s.lastSha != Some(Head(s)) || s.value == repo(Head(s))
    ensures Tick(repo, base, s).lastSha == Some(Head(s)) && Settled(Tick(repo, base, s))
    ensures Tick(repo, base, s).interval == base && Tick(repo, base, s).failures == 0
  {
  }

  /** With honest answers the head's content, once shown from the head itself, stays shown while the ref stands still,
      whatever fails. */
  lemma {:induction false} StaysCurrent(repo: Repo, base: nat, run: seq<State>, i: nat, j: nat)
    requires IsRun(repo, base, true, run) && i <= j < |run| && run[j].heads == run[i].heads != []
    requires run[i].shown.Some? && run[i].shown.value.at == Now(run[i])
    ensures run[j].value == repo(Head(run[j]))
  {
    RunInv(repo, base, true, run, j);
    NeverGoesBack(repo, base, true, run, i, j);
  }
}
