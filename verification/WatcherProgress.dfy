/** The watcher never gives up on its own: what stops it, how fast it polls, and that it can always catch up. */
module WatcherProgress {
  import opened Options
  import opened Powers
  import opened Watcher

  /** The steps a run took. */
  ghost predicate Took(repo: Repo, base: nat, run: seq<State>, steps: seq<Step>) {
    && |run| == |steps| + 1 && Init(run[0], base)
    && (forall i | 0 <= i < |steps| :: TookOne(repo, base, run, steps, i))
  }

  ghost predicate TookOne(repo: Repo, base: nat, run: seq<State>, steps: seq<Step>, i: nat)
    requires i < |steps| && i + 1 < |run|
  {
    Enabled(run[i], steps[i]) && run[i + 1] == Apply(repo, base, run[i], steps[i])
  }

  /** Every run took some steps. */
  lemma {:induction false} StepsOf(repo: Repo, base: nat, honest: bool, run: seq<State>) returns (steps: seq<Step>)
    requires IsRun(repo, base, honest, run)
    ensures Took(repo, base, run, steps)
  {
    steps := [];
    var last := |run| - 1;
    if last > 0 {
      var front := run[..last];
      forall i | 0 <= i < |front| - 1 ensures Moves(repo, base, honest, front, i) {
        assert Moves(repo, base, honest, run, i);
      }
      var earlier := StepsOf(repo, base, honest, front);
      var step := RunStep(repo, base, honest, run, last - 1);
      steps := earlier + [step];
      forall i | 0 <= i < |steps| ensures TookOne(repo, base, run, steps, i) {
        if i < last - 1 { assert TookOne(repo, base, front, earlier, i); }
      }
    }
  }

  // ---------- what stops the watcher ----------

  predicate Stops(step: Step) {
    step.PollPermanent? || step.ReceiversGone?
  }

  /** The watcher has stopped exactly when a poll was refused for good or all receivers left: no other failure, of the
      first fetch, of a poll or of a refetch, ends it. */
  lemma {:induction false} StoppedExactlyWhen(repo: Repo, base: nat, run: seq<State>, steps: seq<Step>, i: nat)
    requires Took(repo, base, run, steps) && i < |run|
    ensures run[i].phase.Stopped? <==> exists j | 0 <= j < i :: Stops(steps[j])
  {
    if i > 0 {
      StoppedExactlyWhen(repo, base, run, steps, i - 1);
      assert TookOne(repo, base, run, steps, i - 1);
      if j :| 0 <= j < i - 1 && Stops(steps[j]) { assert Stops(steps[j]); }
      assert Stops(steps[i - 1]) ==> exists j | 0 <= j < i :: Stops(steps[j]);
    }
  }

  /** A request that fails, but not for good, only costs time: what is shown and recorded stays, and the watcher waits
      for its next tick. */
  lemma FailureOnlyCostsTime(repo: Repo, base: nat, s: State, step: Step)
    requires Enabled(s, step) && (step.FirstFails? || step.PollMissing? || step.PollTransient? || step.ReadFails?)
    ensures var t := Apply(repo, base, s, step);
            && t.phase == Waiting && t.heads == s.heads
            && t.value == s.value && t.shown == s.shown && t.lastSha == s.lastSha
  {
  }

  // ---------- how fast it polls ----------

  /** The polls that failed since one last brought the head. */
  function FailedPolls(steps: seq<Step>): nat {
    if steps == [] then 0
    else
      var before := FailedPolls(steps[..|steps| - 1]);
      match steps[|steps| - 1]
      case Compare => 0
      case PollMissing => before + 1
      case PollTransient => before + 1
      case _ => before
  }

  lemma SaturatedBackoff(base: nat, m: nat, n: nat)
    requires m == n || (m >= 32 && n >= 32)
    ensures Backoff(base, m) == Backoff(base, n)
  {
  }

  ghost predicate Paced(base: nat, s: State, failed: nat) {
    && s.failures == Least(failed, 0xFFFF_FFFF)
    && s.interval == if failed == 0 then base else Backoff(base, failed)
  }

  lemma StepPaced(repo: Repo, base: nat, s: State, step: Step, failed: nat)
    requires Enabled(s, step) && Paced(base, s, failed)
    ensures Paced(base, Apply(repo, base, s, step),
                  if step.Compare? then 0 else if step.PollMissing? || step.PollTransient? then failed + 1 else failed)
  {
    if step.PollMissing? || step.PollTransient? {
      SaturatedBackoff(base, Apply(repo, base, s, step).failures, failed + 1);
    }
  }

  lemma {:induction false} RunPaced(repo: Repo, base: nat, run: seq<State>, steps: seq<Step>, i: nat)
    requires Took(repo, base, run, steps) && i < |run|
    ensures Paced(base, run[i], FailedPolls(steps[..i]))
  {
    if i > 0 {
      RunPaced(repo, base, run, steps, i - 1);
      assert TookOne(repo, base, run, steps, i - 1);
      assert steps[..i][..i - 1] == steps[..i - 1];
      StepPaced(repo, base, run[i - 1], steps[i - 1], FailedPolls(steps[..i - 1]));
    }
  }

  /** The interval is the base one after a poll that brought the head, and doubles with each failed poll since, up to
      five minutes. */
  lemma IntervalDoubles(repo: Repo, base: nat, run: seq<State>, steps: seq<Step>, i: nat)
    requires Took(repo, base, run, steps) && i < |run|
    ensures var failed := FailedPolls(steps[..i]);
            && run[i].interval == (if failed == 0 then base else Backoff(base, failed))
            && (0 < failed < 32 ==> run[i].interval == Least(base * Power2(failed), 300_000_000_000))
  {
    RunPaced(repo, base, run, steps, i);
    BackoffIsCappedDoubling(base, FailedPolls(steps[..i]));
  }

  // ---------- catching up ----------

  /** The watcher's own steps, all answered truthfully while the ref stands still. */
  predicate Own(step: Step) {
    step.FirstRead? || step.Poll? || step.Compare? || step.Read? || step.Deliver?
  }

  ghost predicate Leads(repo: Repo, base: nat, s: State, steps: seq<Step>, t: State)
    decreases |steps|
  {
    if steps == [] then s == t
    else
      Enabled(s, steps[0]) && Own(steps[0]) && Leads(repo, base, Apply(repo, base, s, steps[0]), steps[1..], t)
  }

  ghost predicate Reaches(repo: Repo, base: nat, s: State, t: State) {
    exists steps: seq<Step> :: Leads(repo, base, s, steps, t)
  }

  lemma {:induction false} Then(repo: Repo, base: nat, s: State, step: Step, t: State)
    requires Enabled(s, step) && Own(step) && Reaches(repo, base, Apply(repo, base, s, step), t)
    ensures Reaches(repo, base, s, t)
  {
    var steps: seq<Step> :| Leads(repo, base, Apply(repo, base, s, step), steps, t);
    assert ([step] + steps)[1..] == steps;
    assert Leads(repo, base, s, [step] + steps, t);
  }

  lemma Stays(repo: Repo, base: nat, s: State)
    ensures Reaches(repo, base, s, s)
  {
    assert Leads(repo, base, s, [], s);
  }

  /** The head is recorded, or about to be, over something else than its content. */
  predicate RecordedOver(repo: Repo, s: State)
    requires s.heads != []
  {
    match s.phase
    case Waiting => s.lastSha == Some(Head(s)) && s.value != repo(Head(s))
    case Polled(_) => NoChange(s) && s.lastSha == Some(Head(s)) && s.value != repo(Head(s))
    case Sending(polled, answer) =>
      && InHistory(s, answer.at) && Given(repo, s.heads, answer) != repo(Head(s))
      && (match polled
          case Some(at) => InHistory(s, at) && s.heads[at] == Head(s)
          case None => s.lastSha == Some(Head(s)))
    case _ => false
  }

  lemma TickReaches(repo: Repo, base: nat, s: State) returns (t: State)
    requires s.heads != [] && s.phase.Waiting?
    ensures Reaches(repo, base, s, t) && t.heads == s.heads && Settled(t) && t.phase.Waiting?
    ensures t.value == repo(Head(s)) <==> !RecordedOver(repo, s)
  {
    t := Tick(repo, base, s);
    TickCatchesUp(repo, base, s);
    var polled := Apply(repo, base, s, Poll);
    var compared := Apply(repo, base, polled, Compare);
    Stays(repo, base, t);
    if s.lastSha != Some(Head(s)) {
      var read := Apply(repo, base, compared, Read);
      Then(repo, base, read, Deliver, t);
      Then(repo, base, compared, Read, t);
    }
    Then(repo, base, polled, Compare, t);
    Then(repo, base, s, Poll, t);
  }

  /** How many steps what the watcher has in hand still takes. */
  function InHand(s: State): nat {
    match s.phase
    case Polled(_) => 3
    case Fetching(_) => 2
    case Starting => 2
    case Sending(_, _) => 1
    case _ => 0
  }

  function NextOwn(s: State): Step {
    match s.phase
    case Polled(_) => Compare
    case Fetching(_) => Read
    case Starting => FirstRead
    case _ => Deliver
  }

  lemma {:induction false} FinishesAndTicks(repo: Repo, base: nat, honest: bool, s: State) returns (t: State)
    requires Inv(repo, honest, s) && !s.phase.Stopped?
    ensures Reaches(repo, base, s, t) && t.heads == s.heads && Settled(t) && t.phase.Waiting?
    ensures t.value == repo(Head(s)) <==> !RecordedOver(repo, s)
    decreases InHand(s)
  {
    if s.phase.Waiting? {
      t := TickReaches(repo, base, s);
    } else {
      var next := Apply(repo, base, s, NextOwn(s));
      StepKeepsInv(repo, base, honest, s, NextOwn(s));
      t := FinishesAndTicks(repo, base, honest, next);
      Then(repo, base, s, NextOwn(s), t);
    }
  }

  /** From every reachable state, whatever failed before: unless the watcher was stopped, its own steps while the ref
      stands still lead to the head being recorded, and to its content being shown exactly if the head was not already
      recorded over something else. */
  lemma CanAlwaysCatchUp(repo: Repo, base: nat, honest: bool, run: seq<State>, i: nat) returns (t: State)
    requires IsRun(repo, base, honest, run) && i < |run| && !run[i].phase.Stopped?
    ensures run[i].heads != [] && Reaches(repo, base, run[i], t) && t.heads == run[i].heads
    ensures t.phase.Waiting? && t.lastSha == Some(Head(run[i]))
    ensures t.value == repo(Head(run[i])) <==> !RecordedOver(repo, run[i])
  {
    RunInv(repo, base, honest, run, i);
    t := FinishesAndTicks(repo, base, honest, run[i]);
  }
}
