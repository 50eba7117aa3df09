/** Deployment waves: a batched topological sort that falls back to wave 0 on cycles. */
module WaveScheduler {
  import opened Plans
  import opened DependencyGraph
  import opened Tally

  /** Plan i depends on plan j when it lists j's name; unknown names are ignored. */
  ghost function GraphOf(plans: seq<Plan>): (g: Graph)
    ensures |g| == |plans| && Closed(g)
  {
    seq(|plans|, i requires 0 <= i < |plans| =>
      set j: nat | 0 <= j < |plans| && HasDependency(plans[i], plans[j].name))
  }

  ghost predicate WellNamed(plans: seq<Plan>) {
    && UniqueNames(plans)
    && (forall i | 0 <= i < |plans| :: UniqueDependencies(plans[i]))
  }

  /** The wave a plan belongs in: its longest dependency chain, or 0 when it reaches a cycle. */
  ghost predicate BelongsIn(g: Graph, i: nat, w: nat) {
    if ReachesCycle(g, i) then w == 0 else LongestChain(g, i, w)
  }

  // ---------- in-degree counting ----------

  ghost predicate Indexes(plans: seq<Plan>, nameToIdx: map<string, nat>) {
    && (forall i | 0 <= i < |plans| :: plans[i].name in nameToIdx && nameToIdx[plans[i].name] == i)
    && (forall s | s in nameToIdx :: nameToIdx[s] < |plans| && plans[nameToIdx[s]].name == s)
  }

  /** The known plans among the first k dependencies of plan i. */
  ghost function KnownAmong(plans: seq<Plan>, i: nat, k: nat): set<nat>
    requires i < |plans| && k <= |plans[i].dependsOn|
  {
    set j: nat | 0 <= j < |plans| && exists d | 0 <= d < k :: plans[i].dependsOn[d].name == plans[j].name
  }

  lemma KnownAmongAll(plans: seq<Plan>, i: nat)
    requires i < |plans|
    ensures |KnownAmong(plans, i, |plans[i].dependsOn|)| == |GraphOf(plans)[i]|
  {
    assert KnownAmong(plans, i, |plans[i].dependsOn|) == GraphOf(plans)[i];
  }

  lemma KnownAmongStep(plans: seq<Plan>, nameToIdx: map<string, nat>, i: nat, k: nat)
    requires WellNamed(plans) && Indexes(plans, nameToIdx)
    requires i < |plans| && k < |plans[i].dependsOn|
    ensures var name := plans[i].dependsOn[k].name;
            var known := KnownAmong(plans, i, k);
            if name in nameToIdx
            then nameToIdx[name] !in known && KnownAmong(plans, i, k + 1) == known + {nameToIdx[name]}
            else KnownAmong(plans, i, k + 1) == known
  {
    var name := plans[i].dependsOn[k].name;
    forall j: nat | j < |plans| && plans[j].name == name ensures name in nameToIdx && j == nameToIdx[name] {}
    if name in nameToIdx {
      assert UniqueDependencies(plans[i]);
      assert nameToIdx[name] in KnownAmong(plans, i, k + 1) by { assert plans[i].dependsOn[k].name == name; }
    }
  }

  // ---------- the scheduling invariant ----------

  ghost function Remaining(g: Graph, done: set<nat>, i: nat): set<nat>
    requires i < |g|
  {
    g[i] - done
  }

  ghost predicate DownClosed(g: Graph, done: set<nat>) {
    forall i | i in done :: i < |g| && g[i] <= done
  }

  /** Plan i's counter is the number of its dependencies not dequeued, and its wave follows those that are. */
  ghost predicate NodeOk(g: Graph, inDegree: seq<nat>, wave: seq<nat>, done: set<nat>, i: nat)
    requires |inDegree| == |g| == |wave| && i < |g|
  {
    inDegree[i] == |Remaining(g, done, i)| && Level(g, wave, done, i)
  }

  /** pending lists, once each, exactly the plans with counter 0 outside done. */
  ghost predicate Ready(inDegree: seq<nat>, done: set<nat>, pending: seq<nat>) {
    && (forall k | 0 <= k < |pending| :: pending[k] < |inDegree| && pending[k] !in done && inDegree[pending[k]] == 0)
    && !Repeats(pending)
    && (forall i | 0 <= i < |inDegree| :: inDegree[i] == 0 ==> i in done || i in pending)
  }

  ghost predicate Consistent(g: Graph, inDegree: seq<nat>, wave: seq<nat>, done: set<nat>, pending: seq<nat>) {
    && Closed(g) && |inDegree| == |g| == |wave|
    && DownClosed(g, done)
    && Ready(inDegree, done, pending)
    && (forall i | 0 <= i < |g| :: NodeOk(g, inDegree, wave, done, i))
  }

  /** Halfway through releasing idx's dependents: plans below o are updated, the others are not. */
  ghost predicate Releasing(g: Graph, inDegree: seq<nat>, wave: seq<nat>, done: set<nat>, idx: nat,
                            pending: seq<nat>, o: nat) {
    && Closed(g) && |inDegree| == |g| == |wave| && idx < |g| && o <= |g|
    && DownClosed(g, done) && idx !in done && g[idx] <= done
    && Ready(inDegree, done + {idx}, pending)
    && (forall i | 0 <= i < o :: NodeOk(g, inDegree, wave, done + {idx}, i))
    && (forall i | o <= i < |g| :: NodeOk(g, inDegree, wave, done, i))
  }

  lemma EmptyRemaining(g: Graph, done: set<nat>, i: nat)
    requires i < |g|
    ensures |Remaining(g, done, i)| == 0 <==> g[i] <= done
  {
    if |Remaining(g, done, i)| == 0 {
      assert forall x | x in g[i] && x !in done :: x in Remaining(g, done, i);
    }
    if g[i] <= done {
      assert Remaining(g, done, i) == {};
    }
  }

  lemma ReadyTail(inDegree: seq<nat>, done: set<nat>, idx: nat, rest: seq<nat>)
    requires Ready(inDegree, done, [idx] + rest)
    ensures Ready(inDegree, done + {idx}, rest) && idx !in done && idx < |inDegree| && inDegree[idx] == 0
  {
    var pending := [idx] + rest;
    assert pending[0] == idx;
    forall k | 0 <= k < |rest| ensures rest[k] == pending[k + 1] && rest[k] != idx {
      assert pending[k + 1] != pending[0];
    }
    forall a, b | 0 <= a < b < |rest| ensures rest[a] != rest[b] {
      assert pending[a + 1] != pending[b + 1];
    }
  }

  lemma StartReleasing(g: Graph, inDegree: seq<nat>, wave: seq<nat>, done: set<nat>, idx: nat, rest: seq<nat>)
    requires Consistent(g, inDegree, wave, done, [idx] + rest)
    ensures Releasing(g, inDegree, wave, done, idx, rest, 0)
  {
    ReadyTail(inDegree, done, idx, rest);
    assert NodeOk(g, inDegree, wave, done, idx);
    EmptyRemaining(g, done, idx);
  }

  /** A dependent of idx still counts idx, so its counter is positive. */
  lemma NoUnderflow(g: Graph, inDegree: seq<nat>, wave: seq<nat>, done: set<nat>, idx: nat, pending: seq<nat>, o: nat)
    requires Releasing(g, inDegree, wave, done, idx, pending, o) && o < |g| && idx in g[o]
    ensures inDegree[o] > 0 && o !in done + {idx} && o !in pending
    ensures |Remaining(g, done + {idx}, o)| == inDegree[o] - 1
  {
    assert NodeOk(g, inDegree, wave, done, o);
    assert idx in Remaining(g, done, o);
    assert Remaining(g, done + {idx}, o) == Remaining(g, done, o) - {idx};
  }

  lemma NodeFrame(g: Graph, inDegree: seq<nat>, wave: seq<nat>, inDegree': seq<nat>, wave': seq<nat>,
                  done: set<nat>, o: nat, i: nat)
    requires |inDegree| == |inDegree'| == |g| == |wave| == |wave'| && i < |g| && o < |g| && i != o && o !in done
    requires forall k | 0 <= k < |g| && k != o :: inDegree'[k] == inDegree[k] && wave'[k] == wave[k]
    requires NodeOk(g, inDegree, wave, done, i)
    ensures NodeOk(g, inDegree', wave', done, i)
  {
    if wave[i] > 0 {
      var j :| j in g[i] && j in done && j < |wave| && wave[j] + 1 == wave[i];
      assert j in g[i] && j in done && j < |wave'| && wave'[j] + 1 == wave'[i];
    }
  }

  lemma ReadyAfterRelease(inDegree: seq<nat>, done: set<nat>, pending: seq<nat>, o: nat,
                          inDegree': seq<nat>, pending': seq<nat>)
    requires Ready(inDegree, done, pending) && o < |inDegree| && inDegree[o] > 0 && o !in done && o !in pending
    requires inDegree' == inDegree[o := inDegree[o] - 1]
    requires pending' == if inDegree'[o] == 0 then pending + [o] else pending
    ensures Ready(inDegree', done, pending')
  {
    forall k | 0 <= k < |pending'|
      ensures pending'[k] < |inDegree'| && pending'[k] !in done && inDegree'[pending'[k]] == 0 {
      if k < |pending| { assert pending[k] != o; }
    }
    forall i | 0 <= i < |inDegree'| && inDegree'[i] == 0 ensures i in done || i in pending' {
      if i == o { assert pending'[|pending|] == o; }
    }
  }

  lemma ReleaseDependent(g: Graph, inDegree: seq<nat>, wave: seq<nat>, done: set<nat>, idx: nat,
                         pending: seq<nat>, o: nat, inDegree': seq<nat>, wave': seq<nat>, pending': seq<nat>)
    requires Releasing(g, inDegree, wave, done, idx, pending, o) && o < |g| && idx in g[o] && inDegree[o] > 0
    requires inDegree' == inDegree[o := inDegree[o] - 1]
    requires wave' == wave[o := if wave[o] > wave[idx] + 1 then wave[o] else wave[idx] + 1]
    requires pending' == if inDegree'[o] == 0 then pending + [o] else pending
    ensures Releasing(g, inDegree', wave', done, idx, pending', o + 1)
  {
    NoUnderflow(g, inDegree, wave, done, idx, pending, o);
    ReadyAfterRelease(inDegree, done + {idx}, pending, o, inDegree', pending');
    forall i | 0 <= i < o + 1 ensures NodeOk(g, inDegree', wave', done + {idx}, i) {
      if i == o {
        assert NodeOk(g, inDegree, wave, done, o);
        LevelAfterRelease(g, wave, done, idx, o);
      } else {
        NodeFrame(g, inDegree, wave, inDegree', wave', done + {idx}, o, i);
      }
    }
    forall i | o + 1 <= i < |g| ensures NodeOk(g, inDegree', wave', done, i) {
      NodeFrame(g, inDegree, wave, inDegree', wave', done, o, i);
    }
  }

  lemma LevelAfterRelease(g: Graph, wave: seq<nat>, done: set<nat>, idx: nat, o: nat)
    requires |wave| == |g| && o < |g| && idx < |g| && o !in done && o != idx
    requires idx in g[o] && Level(g, wave, done, o)
    ensures Level(g, wave[o := if wave[o] > wave[idx] + 1 then wave[o] else wave[idx] + 1], done + {idx}, o)
  {
    var w := wave[o := if wave[o] > wave[idx] + 1 then wave[o] else wave[idx] + 1];
    if wave[o] > wave[idx] + 1 {
      var j :| j in g[o] && j in done && j < |wave| && wave[j] + 1 == wave[o];
      assert j in g[o] && j in done + {idx} && w[j] + 1 == w[o];
    } else {
      assert idx in g[o] && idx in done + {idx} && w[idx] + 1 == w[o];
    }
  }

  lemma NodeSkip(g: Graph, inDegree: seq<nat>, wave: seq<nat>, done: set<nat>, idx: nat, o: nat)
    requires |inDegree| == |g| == |wave| && o < |g| && idx !in g[o] && NodeOk(g, inDegree, wave, done, o)
    ensures NodeOk(g, inDegree, wave, done + {idx}, o)
  {
    assert Remaining(g, done + {idx}, o) == Remaining(g, done, o);
    if wave[o] > 0 {
      var j :| j in g[o] && j in done && j < |wave| && wave[j] + 1 == wave[o];
      assert j in done + {idx};
    }
  }

  lemma SkipIndependent(g: Graph, inDegree: seq<nat>, wave: seq<nat>, done: set<nat>, idx: nat,
                        pending: seq<nat>, o: nat)
    requires Releasing(g, inDegree, wave, done, idx, pending, o) && o < |g| && idx !in g[o]
    ensures Releasing(g, inDegree, wave, done, idx, pending, o + 1)
  {
    assert NodeOk(g, inDegree, wave, done, o);
    NodeSkip(g, inDegree, wave, done, idx, o);
  }

  /** When nothing is pending, the plans not dequeued depend on one another, so each reaches a cycle. */
  lemma FinalWaves(g: Graph, inDegree: seq<nat>, wave: seq<nat>, done: set<nat>, i: nat)
    requires Consistent(g, inDegree, wave, done, []) && i < |g|
    ensures if inDegree[i] > 0 then BelongsIn(g, i, 0) else BelongsIn(g, i, wave[i])
    ensures inDegree[i] > 0 <==> i !in done
  {
    assert NodeOk(g, inDegree, wave, done, i);
    EmptyRemaining(g, done, i);
    if i in done {
      assert Levelled(g, wave, done) by {
        forall k | k in done ensures Level(g, wave, done, k) { assert NodeOk(g, inDegree, wave, done, k); }
      }
      LevelIsLongestChain(g, wave, done, i);
    } else {
      var stuck := set j: nat | 0 <= j < |g| && j !in done;
      forall j | j in stuck ensures g[j] * stuck != {} {
        StuckDependency(g, inDegree, wave, done, j);
      }
      StuckReachesCycle(g, stuck, i);
    }
  }

  lemma StuckDependency(g: Graph, inDegree: seq<nat>, wave: seq<nat>, done: set<nat>, j: nat)
    requires Consistent(g, inDegree, wave, done, []) && j < |g| && j !in done
    ensures g[j] * (set k: nat | 0 <= k < |g| && k !in done) != {}
  {
    assert NodeOk(g, inDegree, wave, done, j);
    EmptyRemaining(g, done, j);
    var d :| d in g[j] && d !in done;
    assert d in g[j] * (set k: nat | 0 <= k < |g| && k !in done);
  }

  // ---------- properties of the longest-chain levels ----------

  lemma DependencyReachesCycle(g: Graph, i: nat, j: nat)
    requires Closed(g) && i < |g| && j in g[i] && ReachesCycle(g, j)
    ensures ReachesCycle(g, i)
  {
    var p: seq<nat> :| IsChain(g, p) && p[0] == j && Repeats(p);
    ChainCons(g, i, p);
    var a, b :| 0 <= a < b < |p| && p[a] == p[b];
    assert ([i] + p)[a + 1] == ([i] + p)[b + 1];
  }

  lemma ChainsThroughDependency(g: Graph, i: nat, j: nat, w: nat)
    requires Closed(g) && i < |g| && j in g[i]
    requires forall p: seq<nat> :: IsChain(g, p) && p[0] == i ==> |p| <= w + 1
    ensures forall q: seq<nat> :: IsChain(g, q) && q[0] == j ==> |q| <= w
  {
    forall q: seq<nat> | IsChain(g, q) && q[0] == j ensures |q| <= w {
      ChainCons(g, i, q);
      assert ([i] + q)[0] == i;
    }
  }

  /** A plan whose longest chain has w + 1 links depends on one whose longest chain has w. */
  lemma PredecessorWave(g: Graph, i: nat, w: nat) returns (j: nat)
    requires Closed(g) && LongestChain(g, i, w + 1) && !ReachesCycle(g, i)
    ensures i < |g| && j in g[i] && LongestChain(g, j, w) && !ReachesCycle(g, j)
  {
    var p: seq<nat> :| IsChain(g, p) && p[0] == i && |p| == w + 2;
    assert p[0 + 1] in g[p[0]];
    j := p[1];
    ChainsThroughDependency(g, i, j, w + 1);
    assert p[1..][0] == j;
    if ReachesCycle(g, j) { DependencyReachesCycle(g, i, j); }
  }

  // ---------- the scheduler ----------

  /** Group w holds, in input order, the plans that belong in wave w; no group is empty. */
  ghost predicate IsWaveGrouping(plans: seq<Plan>, groups: seq<seq<nat>>) {
    var g := GraphOf(plans);
    && (forall w | 0 <= w < |groups| :: groups[w] != [])
    && (forall w, k | 0 <= w < |groups| && 0 <= k < |groups[w]| ::
          groups[w][k] < |plans| && BelongsIn(g, groups[w][k], w))
    && (forall w, a, b | 0 <= w < |groups| && 0 <= a < b < |groups[w]| :: groups[w][a] < groups[w][b])
    && (forall i: nat | i < |plans| :: Scheduled(groups, i))
  }

  ghost predicate Scheduled(groups: seq<seq<nat>>, i: nat) {
    exists w | 0 <= w < |groups| :: i in groups[w]
  }

  method IndexByName(plans: seq<Plan>) returns (nameToIdx: map<string, nat>)
    requires UniqueNames(plans)
    ensures Indexes(plans, nameToIdx)
  {
    nameToIdx := map[];
    for i := 0 to |plans|
      invariant forall k | 0 <= k < i :: plans[k].name in nameToIdx && nameToIdx[plans[k].name] == k
      invariant forall s | s in nameToIdx :: nameToIdx[s] < i && plans[nameToIdx[s]].name == s
    {
      nameToIdx := nameToIdx[plans[i].name := i];
    }
  }

  /** Adds plan p's known dependencies to its counter. */
  method CountPlan(plans: seq<Plan>, nameToIdx: map<string, nat>, p: nat, inDegree: array<nat>)
    requires WellNamed(plans) && Indexes(plans, nameToIdx) && p < |plans| == inDegree.Length && inDegree[p] == 0
    modifies inDegree
    ensures inDegree[p] == |GraphOf(plans)[p]|
    ensures forall i | 0 <= i < |plans| && i != p :: inDegree[i] == old(inDegree[i])
  {
    for d := 0 to |plans[p].dependsOn|
      invariant inDegree[p] == |KnownAmong(plans, p, d)|
      invariant forall i | 0 <= i < |plans| && i != p :: inDegree[i] == old(inDegree[i])
    {
      KnownAmongStep(plans, nameToIdx, p, d);
      if plans[p].dependsOn[d].name in nameToIdx {
        var own := nameToIdx[plans[p].name];
        inDegree[own] := inDegree[own] + 1;
      }
    }
    KnownAmongAll(plans, p);
  }

  method CountKnownDependencies(plans: seq<Plan>, nameToIdx: map<string, nat>) returns (inDegree: array<nat>)
    requires WellNamed(plans) && Indexes(plans, nameToIdx)
    ensures fresh(inDegree) && inDegree.Length == |plans|
    ensures forall i | 0 <= i < |plans| :: inDegree[i] == |GraphOf(plans)[i]|
  {
    inDegree := new nat[|plans|](_ => 0);
    for p := 0 to |plans|
      invariant forall i | 0 <= i < p :: inDegree[i] == |GraphOf(plans)[i]|
      invariant forall i | p <= i < |plans| :: inDegree[i] == 0
    {
      CountPlan(plans, nameToIdx, p, inDegree);
    }
  }

  /** Counts idx as done for its dependent o, which is queued when that was its last open dependency. */
  method ReleaseOne(ghost g: Graph, idx: nat, o: nat, myWave: nat, inDegree: array<nat>, wave: array<nat>,
                    queue: seq<nat>, ghost rest: seq<nat>, ghost done: set<nat>)
    returns (queue': seq<nat>)
    requires inDegree != wave && inDegree.Length == |g| == wave.Length
    requires Releasing(g, inDegree[..], wave[..], done, idx, rest + queue, o)
    requires o < |g| && idx in g[o] && wave[idx] == myWave
    modifies inDegree, wave
    ensures Releasing(g, inDegree[..], wave[..], done, idx, rest + queue', o + 1)
    ensures wave[idx] == myWave
  {
    NoUnderflow(g, inDegree[..], wave[..], done, idx, rest + queue, o);
    ghost var inDegree0, wave0 := inDegree[..], wave[..];
    inDegree[o] := inDegree[o] - 1;
    assert inDegree[..] == inDegree0[o := inDegree0[o] - 1];
    wave[o] := if wave[o] > myWave + 1 then wave[o] else myWave + 1;
    assert wave[..] == wave0[o := if wave0[o] > wave0[idx] + 1 then wave0[o] else wave0[idx] + 1];
    queue' := if inDegree[o] == 0 then queue + [o] else queue;
    assert rest + (queue + [o]) == (rest + queue) + [o];
    ReleaseDependent(g, inDegree0, wave0, done, idx, rest + queue, o, inDegree[..], wave[..], rest + queue');
  }

  /** Counts idx as done for every plan that depends on it. */
  method ReleaseDependents(plans: seq<Plan>, nameToIdx: map<string, nat>, idx: nat, inDegree: array<nat>,
                           wave: array<nat>, queue: seq<nat>, ghost rest: seq<nat>, ghost done: set<nat>)
    returns (queue': seq<nat>)
    requires Indexes(plans, nameToIdx)
    requires inDegree != wave && inDegree.Length == |plans| == wave.Length
    requires Consistent(GraphOf(plans), inDegree[..], wave[..], done, [idx] + (rest + queue))
    modifies inDegree, wave
    ensures Consistent(GraphOf(plans), inDegree[..], wave[..], done + {idx}, rest + queue')
    ensures idx !in done && idx < |plans|
  {
    ghost var g := GraphOf(plans);
    queue' := queue;
    StartReleasing(g, inDegree[..], wave[..], done, idx, rest + queue);
    var name, myWave := plans[idx].name, wave[idx];
    for o := 0 to |plans|
      invariant Releasing(g, inDegree[..], wave[..], done, idx, rest + queue', o)
      invariant wave[idx] == myWave
    {
      if HasDependency(plans[o], name) && plans[o].name in nameToIdx {
        queue' := ReleaseOne(g, idx, nameToIdx[plans[o].name], myWave, inDegree, wave, queue', rest, done);
      } else {
        SkipIndependent(g, inDegree[..], wave[..], done, idx, rest + queue', o);
      }
    }
  }

  lemma StartConsistent(plans: seq<Plan>, inDegree: seq<nat>, wave: seq<nat>, queue: seq<nat>)
    requires |inDegree| == |plans| == |wave|
    requires forall i | 0 <= i < |plans| :: inDegree[i] == |GraphOf(plans)[i]| && wave[i] == 0
    requires forall k | 0 <= k < |queue| :: queue[k] < |plans| && inDegree[queue[k]] == 0
    requires forall a, b | 0 <= a < b < |queue| :: queue[a] < queue[b]
    requires forall i | 0 <= i < |plans| && inDegree[i] == 0 :: i in queue
    ensures Consistent(GraphOf(plans), inDegree, wave, {}, queue)
  {
    var g := GraphOf(plans);
    forall i | 0 <= i < |g| ensures NodeOk(g, inDegree, wave, {}, i) {
      assert Remaining(g, {}, i) == g[i];
    }
  }

  lemma DoneFits(g: Graph, done: set<nat>)
    requires DownClosed(g, done)
    ensures |done| <= |g|
    ensures |done| == |g| ==> forall i: nat | i < |g| :: i in done
  {
    SubsetSize(done, Below(|g|));
    if |done| == |g| {
      forall i: nat | i < |g| ensures i in done {
        if i !in done {
          SubsetSize(done, Below(|g|) - {i});
        }
      }
    }
  }

  method InitialQueue(inDegree: array<nat>) returns (queue: seq<nat>)
    ensures forall k | 0 <= k < |queue| :: queue[k] < inDegree.Length && inDegree[queue[k]] == 0
    ensures forall a, b | 0 <= a < b < |queue| :: queue[a] < queue[b]
    ensures forall i | 0 <= i < inDegree.Length && inDegree[i] == 0 :: i in queue
  {
    queue := [];
    for i := 0 to inDegree.Length
      invariant forall k | 0 <= k < |queue| :: queue[k] < i && inDegree[queue[k]] == 0
      invariant forall a, b | 0 <= a < b < |queue| :: queue[a] < queue[b]
      invariant forall k | 0 <= k < i && inDegree[k] == 0 :: k in queue
    {
      if inDegree[i] == 0 {
        queue := queue + [i];
        assert queue[|queue| - 1] == i;
      }
    }
  }

  /** Dequeues one whole wave, queueing the plans that become ready meanwhile. */
  method DrainWave(plans: seq<Plan>, nameToIdx: map<string, nat>, current: seq<nat>, inDegree: array<nat>,
                   wave: array<nat>, ghost done: set<nat>)
    returns (queue: seq<nat>, ghost done': set<nat>)
    requires Indexes(plans, nameToIdx)
    requires inDegree != wave && inDegree.Length == |plans| == wave.Length
    requires Consistent(GraphOf(plans), inDegree[..], wave[..], done, current)
    modifies inDegree, wave
    ensures Consistent(GraphOf(plans), inDegree[..], wave[..], done', queue)
    ensures |done'| == |done| + |current|
  {
    queue, done' := [], done;
    assert current[0..] + queue == current;
    for c := 0 to |current|
      invariant Consistent(GraphOf(plans), inDegree[..], wave[..], done', current[c..] + queue)
      invariant |done'| == |done| + c
    {
      assert current[c..] + queue == [current[c]] + (current[c + 1..] + queue);
      queue := ReleaseDependents(plans, nameToIdx, current[c], inDegree, wave, queue, current[c + 1..], done');
      done' := done' + {current[c]};
    }
    assert current[|current|..] + queue == queue;
  }

  /** The cycle fallback: plans whose counter never reached 0 go to wave 0. */
  method ResetStuck(ghost g: Graph, inDegree: array<nat>, wave: array<nat>)
    requires inDegree != wave && inDegree.Length == |g| == wave.Length
    requires forall i: nat | i < |g| :: if inDegree[i] > 0 then BelongsIn(g, i, 0) else BelongsIn(g, i, wave[i])
    modifies wave
    ensures forall i: nat | i < |g| :: BelongsIn(g, i, wave[i])
  {
    for i := 0 to inDegree.Length
      invariant forall k: nat | k < i :: BelongsIn(g, k, wave[k])
      invariant forall k: nat | i <= k < |g| && inDegree[k] == 0 :: BelongsIn(g, k, wave[k])
    {
      if inDegree[i] > 0 {
        wave[i] := 0;
      }
    }
  }

  method AssignWaves(plans: seq<Plan>) returns (wave: array<nat>)
    requires WellNamed(plans)
    ensures fresh(wave) && wave.Length == |plans|
    ensures forall i: nat | i < |plans| :: BelongsIn(GraphOf(plans), i, wave[i])
  {
    ghost var g := GraphOf(plans);
    var nameToIdx := IndexByName(plans);
    var inDegree := CountKnownDependencies(plans, nameToIdx);
    var queue := InitialQueue(inDegree);
    wave := new nat[|plans|](_ => 0);
    var visited := 0;
    ghost var done: set<nat> := {};
    StartConsistent(plans, inDegree[..], wave[..], queue);
    while queue != []
      invariant Consistent(g, inDegree[..], wave[..], done, queue)
      invariant visited == |done| <= |plans|
      decreases |plans| - |done|
    {
      var current := queue;
      visited := visited + |current|;
      queue, done := DrainWave(plans, nameToIdx, current, inDegree, wave, done);
      DoneFits(g, done);
    }
    forall i: nat | i < |plans|
      ensures if inDegree[i] > 0 then BelongsIn(g, i, 0) else BelongsIn(g, i, wave[i])
      ensures inDegree[i] > 0 <==> i !in done
    {
      FinalWaves(g, inDegree[..], wave[..], done, i);
    }
    DoneFits(g, done);
    if visited < |plans| {
      ResetStuck(g, inDegree, wave);
    }
  }

  ghost predicate Grouped(wave: seq<nat>, groups: seq<seq<nat>>, n: nat) {
    && (forall w, k | 0 <= w < |groups| && 0 <= k < |groups[w]| ::
          groups[w][k] < n <= |wave| && wave[groups[w][k]] == w)
    && (forall w, a, b | 0 <= w < |groups| && 0 <= a < b < |groups[w]| :: groups[w][a] < groups[w][b])
    && (forall i: nat | i < n <= |wave| :: wave[i] < |groups| && i in groups[wave[i]])
  }

  /** Every wave up to the largest one in use has a member. */
  lemma NoGap(plans: seq<Plan>, wave: seq<nat>, i: nat, w: nat)
    requires |wave| == |plans| && (forall k: nat | k < |plans| :: BelongsIn(GraphOf(plans), k, wave[k]))
    requires i < |plans| && w <= wave[i]
    ensures exists j: nat | j < |plans| :: wave[j] == w
    decreases wave[i]
  {
    var g := GraphOf(plans);
    if w < wave[i] {
      assert BelongsIn(g, i, wave[i]);
      var j := PredecessorWave(g, i, wave[i] - 1);
      assert BelongsIn(g, j, wave[j]);
      NoGap(plans, wave, j, w);
    }
  }

  method MaxWave(wave: array<nat>) returns (maxWave: nat)
    ensures forall k | 0 <= k < wave.Length :: wave[k] <= maxWave
    ensures wave.Length > 0 ==> exists k: nat | k < wave.Length :: wave[k] == maxWave
  {
    maxWave := 0;
    for i := 0 to wave.Length
      invariant forall k | 0 <= k < i :: wave[k] <= maxWave
      invariant if i == 0 then maxWave == 0 else exists k: nat | k < i :: wave[k] == maxWave
    {
      if wave[i] > maxWave { maxWave := wave[i]; }
    }
  }

  lemma GroupsNonEmpty(plans: seq<Plan>, wave: seq<nat>, groups: seq<seq<nat>>, top: nat, w: nat)
    requires |wave| == |plans| && (forall k: nat | k < |plans| :: BelongsIn(GraphOf(plans), k, wave[k]))
    requires Grouped(wave, groups, |wave|) && top < |plans| && w <= wave[top] && w < |groups|
    ensures groups[w] != []
  {
    NoGap(plans, wave, top, w);
    var j: nat :| j < |plans| && wave[j] == w;
    assert j in groups[wave[j]];
  }

  method CollectGroups(wave: array<nat>, maxWave: nat) returns (groups: seq<seq<nat>>)
    requires forall k | 0 <= k < wave.Length :: wave[k] <= maxWave
    ensures |groups| == maxWave + 1 && Grouped(wave[..], groups, wave.Length)
    ensures wave.Length == 0 ==> groups == seq(maxWave + 1, _ => [])
  {
    groups := seq(maxWave + 1, _ => []);
    for i := 0 to wave.Length
      invariant |groups| == maxWave + 1 && Grouped(wave[..], groups, i)
      invariant i == 0 ==> groups == seq(maxWave + 1, _ => [])
    {
      groups := groups[wave[i] := groups[wave[i]] + [i]];
    }
  }

  method DropEmpty(all: seq<seq<nat>>) returns (groups: seq<seq<nat>>)
    ensures (forall w | 0 <= w < |all| :: all[w] != []) ==> groups == all
    ensures (forall w | 0 <= w < |all| :: all[w] == []) ==> groups == []
  {
    groups := [];
    for w := 0 to |all|
      invariant (forall v | 0 <= v < w :: all[v] != []) ==> groups == all[..w]
      invariant (forall v | 0 <= v < w :: all[v] == []) ==> groups == []
    {
      if all[w] != [] { groups := groups + [all[w]]; }
    }
  }

  method GroupByWave(plans: seq<Plan>, wave: array<nat>) returns (groups: seq<seq<nat>>)
    requires wave.Length == |plans| && forall i: nat | i < |plans| :: BelongsIn(GraphOf(plans), i, wave[i])
    ensures IsWaveGrouping(plans, groups)
  {
    var maxWave := MaxWave(wave);
    var all := CollectGroups(wave, maxWave);
    if plans != [] {
      var top: nat :| top < |plans| && wave[top] == maxWave;
      forall w | 0 <= w < |all| ensures all[w] != [] {
        GroupsNonEmpty(plans, wave[..], all, top, w);
      }
    }
    groups := DropEmpty(all);
    if plans != [] {
      GroupedIsGrouping(plans, wave[..], groups);
    }
  }

  lemma GroupedIsGrouping(plans: seq<Plan>, wave: seq<nat>, groups: seq<seq<nat>>)
    requires |wave| == |plans| && (forall k: nat | k < |plans| :: BelongsIn(GraphOf(plans), k, wave[k]))
    requires Grouped(wave, groups, |wave|) && forall w | 0 <= w < |groups| :: groups[w] != []
    ensures IsWaveGrouping(plans, groups)
  {
    forall i: nat | i < |plans| ensures Scheduled(groups, i) {
      assert i in groups[wave[i]];
    }
  }

  method WaveGroups(plans: seq<Plan>) returns (groups: seq<seq<nat>>)
    requires WellNamed(plans)
    ensures IsWaveGrouping(plans, groups)
  {
    var wave := AssignWaves(plans);
    groups := GroupByWave(plans, wave);
  }

  // ---------- what a wave grouping guarantees ----------

  lemma BelongsInOne(g: Graph, i: nat, v: nat, w: nat)
    requires BelongsIn(g, i, v) && BelongsIn(g, i, w)
    ensures v == w
  {
  }

  lemma InOneGroup(plans: seq<Plan>, groups: seq<seq<nat>>, i: nat, v: nat, w: nat)
    requires IsWaveGrouping(plans, groups) && v < |groups| && w < |groups| && i in groups[v] && i in groups[w]
    ensures v == w
  {
    BelongsInOne(GraphOf(plans), i, v, w);
  }

  /** A dependency is deployed in a strictly earlier wave exactly when its dependent reaches no cycle. */
  lemma DependencyEarlierIffAcyclic(plans: seq<Plan>, groups: seq<seq<nat>>, i: nat, j: nat, v: nat, w: nat)
    requires IsWaveGrouping(plans, groups) && i < |plans| && j < |plans| && HasDependency(plans[i], plans[j].name)
    requires v < |groups| && w < |groups| && i in groups[v] && j in groups[w]
    ensures w < v <==> !ReachesCycle(GraphOf(plans), i)
  {
    var g := GraphOf(plans);
    if !ReachesCycle(g, i) {
      if ReachesCycle(g, j) { DependencyReachesCycle(g, i, j); }
      ChainsThroughDependency(g, i, j, v);
      var p: seq<nat> :| IsChain(g, p) && p[0] == j && |p| == w + 1;
    }
  }

  /** Each member of a later wave depends directly on a member of the wave before it. */
  lemma EachWaveNeedsPrevious(plans: seq<Plan>, groups: seq<seq<nat>>, v: nat, i: nat)
    requires IsWaveGrouping(plans, groups) && v + 1 < |groups| && i in groups[v + 1]
    ensures i < |plans| && exists j: nat | j < |plans| :: j in groups[v] && HasDependency(plans[i], plans[j].name)
  {
    var g := GraphOf(plans);
    var j := PredecessorWave(g, i, v);
    assert Scheduled(groups, j);
    var w :| 0 <= w < |groups| && j in groups[w];
    BelongsInOne(g, j, v, w);
  }

  lemma SameMembers(plans: seq<Plan>, a: seq<seq<nat>>, b: seq<seq<nat>>, w: nat, i: nat)
    requires IsWaveGrouping(plans, a) && IsWaveGrouping(plans, b) && w < |a| && i in a[w]
    ensures w < |b| && i in b[w]
  {
    assert Scheduled(b, i);
    var v :| 0 <= v < |b| && i in b[v];
    BelongsInOne(GraphOf(plans), i, v, w);
  }

  lemma AscendingUnique(s: seq<nat>, t: seq<nat>)
    requires forall a, b | 0 <= a < b < |s| :: s[a] < s[b]
    requires forall a, b | 0 <= a < b < |t| :: t[a] < t[b]
    requires forall x :: x in s <==> x in t
    ensures s == t
  {
    assert s != [] ==> s[0] in t;
    assert t != [] ==> t[0] in s;
    if s != [] {
      forall x | x in s[1..] ensures x in t[1..] { assert x in t; }
      forall x | x in t[1..] ensures x in s[1..] { assert x in s; }
      AscendingUnique(s[1..], t[1..]);
      assert s == [s[0]] + s[1..] && t == [t[0]] + t[1..];
    }
  }

  lemma NoMoreGroups(plans: seq<Plan>, a: seq<seq<nat>>, b: seq<seq<nat>>)
    requires IsWaveGrouping(plans, a) && IsWaveGrouping(plans, b)
    ensures |a| <= |b|
  {
    if |a| > 0 {
      SameMembers(plans, a, b, |a| - 1, a[|a| - 1][0]);
    }
  }

  /** The specification leaves no freedom: any two groupings of the same plans are equal. */
  lemma GroupingUnique(plans: seq<Plan>, a: seq<seq<nat>>, b: seq<seq<nat>>)
    requires IsWaveGrouping(plans, a) && IsWaveGrouping(plans, b)
    ensures a == b
  {
    NoMoreGroups(plans, a, b);
    NoMoreGroups(plans, b, a);
    forall w: nat | w < |a| ensures a[w] == b[w] {
      forall x ensures x in a[w] <==> x in b[w] {
        if x in a[w] { SameMembers(plans, a, b, w, x); }
        if x in b[w] { SameMembers(plans, b, a, w, x); }
      }
      AscendingUnique(a[w], b[w]);
    }
  }
}
