/** The signal graph seen as a directed graph: an edge runs from a signal to
    each of its users.  Walks, reachability, cycles and rankings over it. */
module Graph {
  import opened Circuit

  /** A non-empty sequence of signals in which each one is a user of the one
      before it. */
  ghost predicate IsWalk(g: SignalMap, w: seq<nat>)
  {
    |w| > 0 && forall i :: 0 < i < |w| ==> w[i] in Users(g, w[i - 1])
  }

  /** Some signal occurs twice in `w`. */
  ghost predicate HasRepeat(w: seq<nat>)
  {
    exists i, j :: 0 <= i < j < |w| && w[i] == w[j]
  }

  /** A walk from `a` ends in `b`. */
  ghost predicate Reaches(g: SignalMap, a: nat, b: nat)
  {
    exists w :: IsWalk(g, w) && w[0] == a && w[|w| - 1] == b
  }

  /** A walk from one of `roots` ends in `v`. */
  ghost predicate ReachableFrom(g: SignalMap, roots: set<nat>, v: nat)
  {
    exists w :: IsWalk(g, w) && w[0] in roots && w[|w| - 1] == v
  }

  /** A walk from one of `roots` passes some signal twice: a feedback loop
      that can be entered from `roots`. */
  ghost predicate CycleReachableFrom(g: SignalMap, roots: set<nat>)
  {
    exists w :: IsWalk(g, w) && w[0] in roots && HasRepeat(w)
  }

  /** A walk anywhere in the map passes some signal twice. */
  ghost predicate HasCycle(g: SignalMap)
  {
    exists w :: IsWalk(g, w) && w[0] in g && HasRepeat(w)
  }

  /** Every ranked signal's users are ranked strictly lower. */
  ghost predicate Ordered(g: SignalMap, rank: map<nat, nat>)
  {
    forall v, c :: v in rank && c in Users(g, v) ==> c in rank && rank[c] < rank[v]
  }

  /** Ranks are below the number of ranked signals. */
  ghost predicate Compact(rank: map<nat, nat>)
  {
    forall v :: v in rank ==> rank[v] < |rank|
  }

  /** `rank` covers `roots`, is closed under the user edges and decreases
      along them: a witness that no walk from `roots` can return to a signal. */
  ghost predicate Ranking(g: SignalMap, roots: set<nat>, rank: map<nat, nat>)
  {
    roots <= rank.Keys && Compact(rank) && Ordered(g, rank)
  }

  /** The part of the graph reachable from `roots` admits a ranking. */
  ghost predicate Acyclic(g: SignalMap, roots: set<nat>)
  {
    exists rank :: Ranking(g, roots, rank)
  }

  lemma WalkExtend(g: SignalMap, w: seq<nat>, u: nat)
    requires IsWalk(g, w) && u in Users(g, w[|w| - 1])
    ensures IsWalk(g, w + [u])
  {
    var w' := w + [u];
    forall i | 0 < i < |w'|
      ensures w'[i] in Users(g, w'[i - 1])
    {
      if i < |w| { assert w'[i] == w[i] && w'[i - 1] == w[i - 1]; }
    }
  }

  /** Dropping the first signal of a walk of two or more leaves a walk. */
  lemma WalkTail(g: SignalMap, w: seq<nat>)
    requires IsWalk(g, w) && |w| >= 2
    ensures IsWalk(g, w[1..])
  {
    var t := w[1..];
    forall i | 0 < i < |t|
      ensures t[i] in Users(g, t[i - 1])
    {
      assert t[i] == w[i + 1] && t[i - 1] == w[i];
    }
  }

  /** A walk that starts in a closed map stays in it. */
  lemma {:induction false} WalkInMap(g: SignalMap, w: seq<nat>)
    requires Closed(g) && IsWalk(g, w) && w[0] in g
    ensures forall i :: 0 <= i < |w| ==> w[i] in g
    decreases |w|
  {
    if |w| > 1 {
      var p := w[..|w| - 1];
      assert IsWalk(g, p) by {
        forall i | 0 < i < |p| ensures p[i] in Users(g, p[i - 1]) {
          assert p[i] == w[i] && p[i - 1] == w[i - 1];
        }
      }
      WalkInMap(g, p);
      assert w[|w| - 2] == p[|w| - 2];
      assert w[|w| - 1] in Users(g, w[|w| - 2]);
    }
  }

  /** In a closed map, whatever is reachable from signals of the map is a
      signal of the map. */
  lemma ReachableInMap(g: SignalMap, roots: set<nat>, v: nat)
    requires Closed(g) && roots <= g.Keys && ReachableFrom(g, roots, v)
    ensures v in g
  {
    var w :| IsWalk(g, w) && w[0] in roots && w[|w| - 1] == v;
    WalkInMap(g, w);
  }

  /** Reachability from `roots` is closed under the user edges. */
  lemma ReachableStep(g: SignalMap, roots: set<nat>, v: nat, u: nat)
    requires ReachableFrom(g, roots, v) && u in Users(g, v)
    ensures ReachableFrom(g, roots, u)
  {
    var w :| IsWalk(g, w) && w[0] in roots && w[|w| - 1] == v;
    WalkExtend(g, w, u);
    assert (w + [u])[0] in roots;
  }

  /** A reachable signal that is not a root is the user of some reachable
      signal: the one before it on a walk from a root. */
  lemma ReachablePredecessor(g: SignalMap, roots: set<nat>, v: nat)
    requires ReachableFrom(g, roots, v) && v !in roots
    ensures exists p :: ReachableFrom(g, roots, p) && v in Users(g, p)
  {
    var w :| IsWalk(g, w) && w[0] in roots && w[|w| - 1] == v;
    var p := w[..|w| - 1];
    assert IsWalk(g, p) by {
      forall i | 0 < i < |p| ensures p[i] in Users(g, p[i - 1]) {
        assert p[i] == w[i] && p[i - 1] == w[i - 1];
      }
    }
    assert p[0] in roots && p[|p| - 1] == w[|w| - 2];
    assert v in Users(g, w[|w| - 2]);
  }

  /** A root reaches itself. */
  lemma ReachableRoot(g: SignalMap, roots: set<nat>, r: nat)
    requires r in roots
    ensures ReachableFrom(g, roots, r)
  {
    assert IsWalk(g, [r]);
  }

  /** Along a walk from a ranked signal every signal is ranked and ranks
      strictly decrease. */
  lemma {:induction false} RankDecreases(g: SignalMap, rank: map<nat, nat>, w: seq<nat>)
    requires Ordered(g, rank) && IsWalk(g, w) && w[0] in rank
    ensures forall i :: 0 <= i < |w| ==> w[i] in rank
    ensures forall i, j :: 0 <= i < j < |w| ==> rank[w[j]] < rank[w[i]]
    decreases |w|
  {
    if |w| > 1 {
      var p := w[..|w| - 1];
      assert IsWalk(g, p) by {
        forall i | 0 < i < |p| ensures p[i] in Users(g, p[i - 1]) {
          assert p[i] == w[i] && p[i - 1] == w[i - 1];
        }
      }
      RankDecreases(g, rank, p);
      assert w[|w| - 1] in Users(g, w[|w| - 2]);
      forall i, j | 0 <= i < j < |w|
        ensures rank[w[j]] < rank[w[i]]
      {
        if j < |w| - 1 {
          assert w[i] == p[i] && w[j] == p[j];
        } else if i < |w| - 2 {
          assert w[i] == p[i] && w[|w| - 2] == p[|w| - 2];
        }
      }
    }
  }

  /** A ranking rules out every cycle reachable from the roots it covers. */
  lemma RankingExcludesCycle(g: SignalMap, roots: set<nat>, rank: map<nat, nat>)
    requires Ranking(g, roots, rank)
    ensures !CycleReachableFrom(g, roots)
  {
    forall w | IsWalk(g, w) && w[0] in roots
      ensures !HasRepeat(w)
    {
      RankDecreases(g, rank, w);
    }
  }

  /** Everything reachable from the roots of a ranking is ranked. */
  lemma RankedWhenReachable(g: SignalMap, roots: set<nat>, rank: map<nat, nat>, v: nat)
    requires Ranking(g, roots, rank) && ReachableFrom(g, roots, v)
    ensures v in rank
  {
    var w :| IsWalk(g, w) && w[0] in roots && w[|w| - 1] == v;
    RankDecreases(g, rank, w);
  }

  /** The number of walks that start at `x`, counted through the ranking:
      finite whenever ranks fall along every edge out of `x`. */
  ghost function WalkCount(g: SignalMap, rank: map<nat, nat>, x: nat): nat
    decreases if x in rank then rank[x] + 1 else 0, 0
  {
    if x in rank then 1 + WalkSum(g, rank, Users(g, x), rank[x]) else 1
  }

  /** The walk counts of the elements of `q`; an element that is not ranked
      below `bound` counts 1. */
  ghost function WalkSum(g: SignalMap, rank: map<nat, nat>, q: seq<nat>, bound: nat): nat
    decreases bound, |q|
  {
    if q == [] then 0
    else
      var e := q[|q| - 1];
      WalkSum(g, rank, q[..|q| - 1], bound) + (if e in rank && rank[e] < bound then WalkCount(g, rank, e) else 1)
  }

  lemma {:induction false} WalkSumAppend(g: SignalMap, rank: map<nat, nat>, a: seq<nat>, b: seq<nat>, bound: nat)
    ensures WalkSum(g, rank, a + b, bound) == WalkSum(g, rank, a, bound) + WalkSum(g, rank, b, bound)
    decreases |b|
  {
    if b != [] {
      assert (a + b)[..|a + b| - 1] == a + b[..|b| - 1];
      assert (a + b)[|a + b| - 1] == b[|b| - 1];
      WalkSumAppend(g, rank, a, b[..|b| - 1], bound);
    } else {
      assert a + b == a;
    }
  }

  /** Raising the bound above every rank in `q` does not change the sum. */
  lemma {:induction false} WalkSumBound(g: SignalMap, rank: map<nat, nat>, q: seq<nat>, b1: nat, b2: nat)
    requires b1 <= b2
    requires forall i :: 0 <= i < |q| ==> q[i] in rank && rank[q[i]] < b1
    ensures WalkSum(g, rank, q, b1) == WalkSum(g, rank, q, b2)
    decreases |q|
  {
    if q != [] {
      WalkSumBound(g, rank, q[..|q| - 1], b1, b2);
    }
  }

  /** Replacing the head `x` of a queue of ranked signals by its users lowers
      the sum by exactly one. */
  lemma WalkSumStep(g: SignalMap, rank: map<nat, nat>, queue: seq<nat>)
    requires Ordered(g, rank) && Compact(rank) && queue != [] && queue[0] in rank
    ensures WalkSum(g, rank, queue[1..] + Users(g, queue[0]), |rank|) + 1 == WalkSum(g, rank, queue, |rank|)
  {
    var x, rest := queue[0], queue[1..];
    assert queue == [x] + rest;
    WalkSumAppend(g, rank, [x], rest, |rank|);
    WalkSumAppend(g, rank, rest, Users(g, x), |rank|);
    assert [x][..0] == [];
    assert WalkSum(g, rank, [x], |rank|) == WalkCount(g, rank, x) == 1 + WalkSum(g, rank, Users(g, x), rank[x]);
    forall i | 0 <= i < |Users(g, x)|
      ensures Users(g, x)[i] in rank && rank[Users(g, x)[i]] < rank[x]
    {
      assert Users(g, x)[i] in Users(g, x);
    }
    WalkSumBound(g, rank, Users(g, x), rank[x], |rank|);
  }
}
