/** Sequences of pipeline steps, and the states that runs reach. */
module PipelineReach {
  import opened Pipeline

  ghost predicate Leads(cfg: Config, s: State, steps: seq<Step>, t: State)
    decreases |steps|
  {
    if steps == [] then s == t
    else Enabled(s, steps[0]) && Leads(cfg, Apply(cfg, s, steps[0]), steps[1..], t)
  }

  /** Some steps lead from s to t. */
  ghost predicate Reaches(cfg: Config, s: State, t: State) {
    exists steps: seq<Step> :: Leads(cfg, s, steps, t)
  }

  lemma Stays(cfg: Config, s: State)
    ensures Reaches(cfg, s, s)
  {
    assert Leads(cfg, s, [], s);
  }

  lemma Takes(cfg: Config, s: State, step: Step)
    requires Enabled(s, step)
    ensures Reaches(cfg, s, Apply(cfg, s, step))
  {
    assert [step][1..] == [];
    assert Leads(cfg, s, [step], Apply(cfg, s, step));
  }

  lemma {:induction false} LeadsOn(cfg: Config, s: State, a: seq<Step>, t: State, b: seq<Step>, u: State)
    requires Leads(cfg, s, a, t) && Leads(cfg, t, b, u)
    ensures Leads(cfg, s, a + b, u)
    decreases |a|
  {
    if a == [] {
      assert a + b == b;
    } else {
      LeadsOn(cfg, Apply(cfg, s, a[0]), a[1..], t, b, u);
      assert (a + b)[1..] == a[1..] + b;
    }
  }

  lemma Then(cfg: Config, s: State, t: State, u: State)
    requires Reaches(cfg, s, t) && Reaches(cfg, t, u)
    ensures Reaches(cfg, s, u)
  {
    var a: seq<Step> :| Leads(cfg, s, a, t);
    var b: seq<Step> :| Leads(cfg, t, b, u);
    LeadsOn(cfg, s, a, t, b, u);
  }

  lemma ThenTakes(cfg: Config, s: State, t: State, step: Step)
    requires Reaches(cfg, s, t) && Enabled(t, step)
    ensures Reaches(cfg, s, Apply(cfg, t, step))
  {
    Takes(cfg, t, step);
    Then(cfg, s, t, Apply(cfg, t, step));
  }

  // ---------- reachable states ----------

  /** Some run of n callers ends in s. */
  ghost predicate Reachable(cfg: Config, n: nat, s: State) {
    exists run: seq<State> :: EndsIn(cfg, n, run, s)
  }

  ghost predicate EndsIn(cfg: Config, n: nat, run: seq<State>, s: State) {
    IsRun(cfg, n, run) && run[|run| - 1] == s
  }

  lemma InitReachable(cfg: Config, n: nat, s: State)
    requires Init(cfg, n, s)
    ensures Reachable(cfg, n, s)
  {
    assert EndsIn(cfg, n, [s], s);
  }

  lemma {:induction false} RunsOn(cfg: Config, n: nat, run: seq<State>, s: State, steps: seq<Step>, t: State)
    requires EndsIn(cfg, n, run, s) && Leads(cfg, s, steps, t)
    ensures Reachable(cfg, n, t)
    decreases |steps|
  {
    if steps != [] {
      var next := Apply(cfg, s, steps[0]);
      var longer := run + [next];
      forall i | 0 <= i < |longer| - 1 ensures Moves(cfg, longer, i) {
        if i < |run| - 1 { assert Moves(cfg, run, i); }
      }
      assert EndsIn(cfg, n, longer, next);
      RunsOn(cfg, n, longer, next, steps[1..], t);
    }
  }

  lemma ReachesOn(cfg: Config, n: nat, s: State, t: State)
    requires Reachable(cfg, n, s) && Reaches(cfg, s, t)
    ensures Reachable(cfg, n, t)
  {
    var run: seq<State> :| EndsIn(cfg, n, run, s);
    var steps: seq<Step> :| Leads(cfg, s, steps, t);
    RunsOn(cfg, n, run, s, steps, t);
  }
}
