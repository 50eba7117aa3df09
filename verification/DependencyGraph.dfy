/** Longest chains and cycles of a finite dependency graph. Node i's set holds what i depends on. */
module DependencyGraph {
  import opened Tally

  type Graph = seq<set<nat>>

  ghost predicate Closed(g: Graph) {
    forall i, j | 0 <= i < |g| && j in g[i] :: j < |g|
  }

  /** A non-empty walk along dependencies. */
  ghost predicate IsChain(g: Graph, p: seq<nat>) {
    && |p| > 0
    && (forall k | 0 <= k < |p| :: p[k] < |g|)
    && (forall k | 0 <= k < |p| - 1 :: p[k + 1] in g[p[k]])
  }

  ghost predicate Repeats(p: seq<nat>) {
    exists a, b | 0 <= a < b < |p| :: p[a] == p[b]
  }

  /** Some chain from i visits a node twice: i is on a cycle or depends on one. */
  ghost predicate ReachesCycle(g: Graph, i: nat) {
    exists p: seq<nat> :: IsChain(g, p) && p[0] == i && Repeats(p)
  }

  /** w dependencies is the length of the longest chain from i. */
  ghost predicate LongestChain(g: Graph, i: nat, w: nat) {
    && (exists p: seq<nat> :: IsChain(g, p) && p[0] == i && |p| == w + 1)
    && (forall p: seq<nat> :: IsChain(g, p) && p[0] == i ==> |p| <= w + 1)
  }

  lemma ChainCons(g: Graph, i: nat, p: seq<nat>)
    requires IsChain(g, p) && i < |g| && p[0] in g[i]
    ensures IsChain(g, [i] + p)
  {
    var q := [i] + p;
    forall k | 0 <= k < |q| - 1 ensures q[k + 1] in g[q[k]] {
      if k > 0 { assert p[k - 1 + 1] in g[p[k - 1]]; }
    }
  }

  // ---------- Nodes every one of which depends on another of them reach a cycle ----------

  ghost predicate Stuck(g: Graph, s: set<nat>) {
    forall i | i in s :: i < |g| && g[i] * s != {}
  }

  lemma StuckChain(g: Graph, s: set<nat>, i: nat, n: nat) returns (p: seq<nat>)
    requires Stuck(g, s) && i in s
    ensures IsChain(g, p) && p[0] == i && |p| == n + 1
    decreases n
  {
    if n == 0 {
      p := [i];
    } else {
      var j :| j in g[i] * s;
      var q := StuckChain(g, s, j, n - 1);
      ChainCons(g, i, q);
      p := [i] + q;
    }
  }

  ghost function Elements(p: seq<nat>): (s: set<nat>)
    ensures forall x :: x in s <==> x in p
  {
    if p == [] then {} else {p[0]} + Elements(p[1..])
  }

  lemma DistinctSize(p: seq<nat>)
    requires !Repeats(p)
    ensures |Elements(p)| == |p|
  {
    if p != [] {
      forall a, b | 0 <= a < b < |p[1..]| ensures p[1..][a] != p[1..][b] {
        assert p[a + 1] != p[b + 1];
      }
      DistinctSize(p[1..]);
      forall k | 0 <= k < |p[1..]| ensures p[1..][k] != p[0] {
        assert p[0] != p[k + 1];
      }
    }
  }

  ghost function Below(n: nat): (s: set<nat>)
    ensures |s| == n && forall x: nat :: x in s <==> x < n
  {
    if n == 0 then {} else Below(n - 1) + {n - 1}
  }

  /** The pigeonhole principle. */
  lemma MustRepeat(p: seq<nat>, n: nat)
    requires |p| > n && forall k | 0 <= k < |p| :: p[k] < n
    ensures Repeats(p)
  {
    if !Repeats(p) {
      DistinctSize(p);
      SubsetSize(Elements(p), Below(n));
    }
  }

  lemma StuckReachesCycle(g: Graph, s: set<nat>, i: nat)
    requires Stuck(g, s) && i in s
    ensures ReachesCycle(g, i)
  {
    var p := StuckChain(g, s, i, |g|);
    MustRepeat(p, |g|);
  }

  // ---------- Levels of a dependency-closed set ----------

  /** wave[i] is one more than the highest level among i's dependencies in done, or 0 without any. */
  ghost predicate Level(g: Graph, wave: seq<nat>, done: set<nat>, i: nat)
    requires |wave| == |g| && i < |g|
  {
    && (forall j | j in g[i] && j in done && j < |wave| :: wave[j] + 1 <= wave[i])
    && (wave[i] > 0 ==> exists j :: j in g[i] && j in done && j < |wave| && wave[j] + 1 == wave[i])
  }

  /** done is closed under dependency, and its members' levels are right. */
  ghost predicate Levelled(g: Graph, wave: seq<nat>, done: set<nat>) {
    && Closed(g) && |wave| == |g|
    && (forall i | i in done :: i < |g| && g[i] <= done && Level(g, wave, done, i))
  }

  lemma ChainBound(g: Graph, wave: seq<nat>, done: set<nat>, p: seq<nat>)
    requires Levelled(g, wave, done) && IsChain(g, p) && p[0] in done
    ensures |p| <= wave[p[0]] + 1
  {
    if |p| > 1 {
      assert p[0 + 1] in g[p[0]];
      ChainBound(g, wave, done, p[1..]);
    }
  }

  lemma ChainOfLevel(g: Graph, wave: seq<nat>, done: set<nat>, i: nat) returns (p: seq<nat>)
    requires Levelled(g, wave, done) && i in done
    ensures IsChain(g, p) && p[0] == i && |p| == wave[i] + 1
    decreases wave[i]
  {
    if wave[i] == 0 {
      p := [i];
    } else {
      assert Level(g, wave, done, i);
      var j :| j in g[i] && j in done && j < |wave| && wave[j] + 1 == wave[i];
      var q := ChainOfLevel(g, wave, done, j);
      ChainCons(g, i, q);
      p := [i] + q;
    }
  }

  lemma LevelsDescend(g: Graph, wave: seq<nat>, done: set<nat>, p: seq<nat>, a: nat, b: nat)
    requires Levelled(g, wave, done) && IsChain(g, p) && p[0] in done && a < b < |p|
    ensures p[a] in done && p[b] in done && wave[p[b]] < wave[p[a]]
    decreases b
  {
    ChainInside(g, wave, done, p, a);
    ChainInside(g, wave, done, p, b - 1);
    assert p[b - 1 + 1] in g[p[b - 1]];
    if a < b - 1 {
      LevelsDescend(g, wave, done, p, a, b - 1);
    }
  }

  lemma ChainInside(g: Graph, wave: seq<nat>, done: set<nat>, p: seq<nat>, a: nat)
    requires Levelled(g, wave, done) && IsChain(g, p) && p[0] in done && a < |p|
    ensures p[a] in done
  {
    if a > 0 {
      ChainInside(g, wave, done, p, a - 1);
      assert p[a - 1 + 1] in g[p[a - 1]];
    }
  }

  /** Levels are longest-chain lengths, and no member reaches a cycle. */
  lemma LevelIsLongestChain(g: Graph, wave: seq<nat>, done: set<nat>, i: nat)
    requires Levelled(g, wave, done) && i in done
    ensures LongestChain(g, i, wave[i]) && !ReachesCycle(g, i)
  {
    var p := ChainOfLevel(g, wave, done, i);
    forall p: seq<nat> | IsChain(g, p) && p[0] == i ensures |p| <= wave[i] + 1 && !Repeats(p) {
      ChainBound(g, wave, done, p);
      forall a, b | 0 <= a < b < |p| ensures p[a] != p[b] {
        LevelsDescend(g, wave, done, p, a, b);
      }
    }
  }
}
