/** Every request over the pool ends, and only a failed connect leaves it without a connection. */
module PoolProgress {
  import opened Options
  import opened Pool
  import opened Tally

  // ---------- what a request gets ----------

  /** Task t is done: it was served with that connection, in its slot, and nobody else moved. */
  predicate ServedWith(s: State, s': State, t: nat, conn: Option<nat>) {
    && t < |s.tasks| && !s.tasks[t].Idle?
    && s'.tasks == s.tasks[t := Idle] && s'.served == s.served + [Served(s.tasks[t].slot, conn)]
  }

  /** A request that looks at a slot with an open connection, or comes back to one with a connection of its own, is
      served with that very connection, and the slot keeps it. */
  lemma OpenConnectionServes(s: State, t: nat, step: Step)
    requires Enabled(s, step) && (step == Look(t) || step == Install(t))
    requires Live(s.conns, s.slots[s.tasks[t].slot])
    ensures ServedWith(s, Apply(s, step), t, s.slots[s.tasks[t].slot])
    ensures Apply(s, step).slots == s.slots && Apply(s, step).conns == s.conns
  {
  }

  /** A request that comes back to a slot without an open connection is served with its own, which the slot keeps. */
  lemma OwnConnectionServes(s: State, t: nat)
    requires Enabled(s, Install(t)) && !Live(s.conns, s.slots[s.tasks[t].slot])
    ensures var s' := Apply(s, Install(t));
            && ServedWith(s, s', t, Some(s.tasks[t].spare))
            && s'.slots == s.slots[s.tasks[t].slot := Some(s.tasks[t].spare)]
  {
  }

  // ---------- counting failures ----------

  /** The steps a run took. */
  ghost predicate Took(size: nat, n: nat, run: seq<State>, steps: seq<Step>) {
    && |run| == |steps| + 1 && Init(size, n, run[0])
    && (forall i | 0 <= i < |steps| :: TookOne(run, steps, i))
  }

  ghost predicate TookOne(run: seq<State>, steps: seq<Step>, i: nat)
    requires i < |steps| && i + 1 < |run|
  {
    Enabled(run[i], steps[i]) && run[i + 1] == Apply(run[i], steps[i])
  }

  /** Every run took some steps. */
  lemma {:induction false} StepsOf(size: nat, n: nat, run: seq<State>) returns (steps: seq<Step>)
    requires IsRun(size, n, run)
    ensures Took(size, n, run, steps)
  {
    steps := [];
    var last := |run| - 1;
    if last > 0 {
      var front := run[..last];
      forall i | 0 <= i < |front| - 1 ensures Moves(front, i) { assert Moves(run, i); }
      var earlier := StepsOf(size, n, front);
      assert Moves(run, last - 1);
      var step :| Enabled(run[last - 1], step) && run[last] == Apply(run[last - 1], step);
      steps := earlier + [step];
      forall i | 0 <= i < |steps| ensures TookOne(run, steps, i) {
        if i < last - 1 { assert TookOne(front, earlier, i); }
      }
    }
  }

  ghost function FailedConnect(): Step -> nat {
    (step: Step) => if step.ConnectFails? then 1 else 0
  }

  ghost function Unserved(): Served -> nat {
    (served: Served) => if served.conn.None? then 1 else 0
  }

  lemma StepFailures(s: State, step: Step)
    requires Enabled(s, step)
    ensures Sum(Apply(s, step).served, Unserved()) == Sum(s.served, Unserved()) + FailedConnect()(step)
  {
    match step
    case Look(t) => SumAppend(s.served, Unserved(), Served(s.tasks[t].slot, s.slots[s.tasks[t].slot]));
    case ConnectFails(t) => SumAppend(s.served, Unserved(), Served(s.tasks[t].slot, None));
    case Install(t) =>
      SumAppend(s.served, Unserved(), Served(s.tasks[t].slot, s.slots[s.tasks[t].slot]));
      SumAppend(s.served, Unserved(), Served(s.tasks[t].slot, Some(s.tasks[t].spare)));
    case _ =>
  }

  /** The requests that ended without a connection are exactly as many as the connects that failed. */
  lemma {:induction false} OnlyFailedConnectsFail(size: nat, n: nat, run: seq<State>, steps: seq<Step>, i: nat)
    requires Took(size, n, run, steps) && i < |run|
    ensures Sum(run[i].served, Unserved()) == Sum(steps[..i], FailedConnect())
  {
    if i > 0 {
      OnlyFailedConnectsFail(size, n, run, steps, i - 1);
      assert TookOne(run, steps, i - 1);
      StepFailures(run[i - 1], steps[i - 1]);
      assert steps[..i] == steps[..i - 1] + [steps[i - 1]];
      SumAppend(steps[..i - 1], FailedConnect(), steps[i - 1]);
    }
  }

  /** A request under way, and every one that has ended, was picked a slot: none is lost. */
  ghost function Busy(): Pc -> nat {
    (pc: Pc) => if pc.Idle? then 0 else 1
  }

  lemma StepAccounted(s: State, step: Step)
    requires Enabled(s, step)
    ensures var s' := Apply(s, step);
            |s'.picks| - |s'.served| - Sum(s'.tasks, Busy()) == |s.picks| - |s.served| - Sum(s.tasks, Busy())
  {
    var s' := Apply(s, step);
    if !step.Close? { SumUpdate(s.tasks, Busy(), step.t, s'.tasks[step.t]); }
  }

  /** Every request that picked a slot has ended once or is still under way. */
  lemma {:induction false} EachEndsOnce(size: nat, n: nat, run: seq<State>, i: nat)
    requires IsRun(size, n, run) && i < |run|
    ensures |run[i].picks| == |run[i].served| + Sum(run[i].tasks, Busy())
  {
    if i == 0 {
      SumZero(run[0].tasks, Busy());
    } else {
      EachEndsOnce(size, n, run, i - 1);
      assert Moves(run, i - 1);
      var step :| Enabled(run[i - 1], step) && run[i] == Apply(run[i - 1], step);
      StepAccounted(run[i - 1], step);
    }
  }

  // ---------- every request can be served ----------

  /** Steps of task t alone, whose connect succeeds. */
  ghost predicate Leads(s: State, t: nat, steps: seq<Step>, s': State)
    decreases |steps|
  {
    if steps == [] then s == s'
    else
      && (steps[0] == Look(t) || steps[0] == Connect(t) || steps[0] == Install(t))
      && Enabled(s, steps[0]) && Leads(Apply(s, steps[0]), t, steps[1..], s')
  }

  lemma LeadsFirst(s: State, t: nat, step: Step, steps: seq<Step>, s': State)
    requires step == Look(t) || step == Connect(t) || step == Install(t)
    requires Enabled(s, step) && Leads(Apply(s, step), t, steps, s')
    ensures Leads(s, t, [step] + steps, s')
  {
    assert ([step] + steps)[1..] == steps;
  }

  function OwnStep(s: State, t: nat): Step
    requires t < |s.tasks|
  {
    match s.tasks[t]
    case Connecting(_) => Connect(t)
    case Connected(_, _) => Install(t)
    case _ => Look(t)
  }

  function StepsLeft(pc: Pc): nat {
    match pc case Idle => 0 case Connected(_, _) => 1 case Connecting(_) => 2 case Picked(_) => 3
  }

  lemma {:induction false} Serves(s: State, t: nat) returns (steps: seq<Step>, s': State, conn: nat)
    requires Inv(s) && t < |s.tasks| && !s.tasks[t].Idle?
    ensures Leads(s, t, steps, s') && |steps| <= StepsLeft(s.tasks[t]) && ServedWith(s, s', t, Some(conn)) && Inv(s')
    ensures conn < |s'.conns| && s'.conns[conn].installedIn == Some(s.tasks[t].slot)
    decreases StepsLeft(s.tasks[t])
  {
    assert TaskOk(s, s.tasks[t]);
    var step := OwnStep(s, t);
    var next := Apply(s, step);
    StepInv(s, step);
    if next.tasks[t].Idle? {
      steps, s' := [step], next;
      assert Leads(next, t, [], next);
      LeadsFirst(s, t, step, [], next);
      assert [step] + [] == [step];
      conn := next.served[|s.served|].conn.value;
      assert ServedOk(next, next.served[|s.served|]);
    } else {
      var rest;
      rest, s', conn := Serves(next, t);
      LeadsFirst(s, t, step, rest, s');
      steps := [step] + rest;
    }
  }

  /** From every reachable state, at most three steps of its own bring a request to a connection of its slot. */
  lemma EveryRequestCanBeServed(size: nat, n: nat, run: seq<State>, i: nat, t: nat)
    returns (steps: seq<Step>, s': State, conn: nat)
    requires IsRun(size, n, run) && i < |run| && t < |run[i].tasks| && !run[i].tasks[t].Idle?
    ensures Leads(run[i], t, steps, s') && |steps| <= 3 && ServedWith(run[i], s', t, Some(conn))
    ensures conn < |s'.conns| && s'.conns[conn].installedIn == Some(run[i].tasks[t].slot)
  {
    RunInv(size, n, run, i);
    steps, s', conn := Serves(run[i], t);
  }
}
