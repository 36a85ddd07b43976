/** Cycle detection over the signal graph: a depth-first search from every
    primary input that keeps a "visited" mark and an "on the current path"
    mark per signal.  Both marks are modelled as the sets of marked ids. */
module CycleFinder {
  import opened Circuit
  import opened Graph

  /** The marks are consistent: every signal on the current path is visited,
      and the visited signals that have left the path are exactly the ranked
      ones, each ranked below the number of ranked signals. */
  ghost predicate Marks(g: SignalMap, visited: set<nat>, onPath: set<nat>, rank: map<nat, nat>)
  {
    && onPath <= visited <= g.Keys
    && (forall v :: v in rank <==> v in visited && v !in onPath)
    && Compact(rank)
  }

  /** Whether the circuit has a cycle, as far as the search can tell: true
      without any search when there are signals but no primary inputs;
      otherwise true exactly when a cycle can be entered from a primary input.
      When the answer is false, `rank` numbers every signal reachable from the
      primary inputs so that ranks fall along every edge. */
  method HasCircuitCycle(roots: set<nat>, g: SignalMap) returns (res: bool, ghost rank: map<nat, nat>)
    requires Closed(g) && roots <= g.Keys
    ensures res <==> (g != map[] && roots == {}) || CycleReachableFrom(g, roots)
    ensures !res ==> Ranking(g, roots, rank)
  {
    rank := map[];
    if g != map[] && roots == {} {
      return true, rank;
    }
    res, rank := SearchRoots(AscendingIds(roots), g, roots);
    if !res {
      RankingExcludesCycle(g, roots, rank);
    }
  }

  /** The searches from the primary inputs `ids`, in the given order, all
      started with clear marks and sharing the visited marks.  Every search
      runs even after an earlier one found a cycle. */
  method SearchRoots(ids: seq<nat>, g: SignalMap, ghost roots: set<nat>) returns (res: bool, ghost rank: map<nat, nat>)
    requires Closed(g) && forall x :: x in ids <==> x in roots
    requires roots <= g.Keys
    ensures res ==> CycleReachableFrom(g, roots)
    ensures !res ==> Ranking(g, roots, rank)
  {
    rank := map[];
    res := false;
    var visited: set<nat> := {};
    for i := 0 to |ids|
      invariant Marks(g, visited, {}, rank)
      invariant res ==> CycleReachableFrom(g, roots)
      invariant !res ==> Ordered(g, rank)
      invariant Elems(ids[..i]) <= visited
    {
      var r;
      r, visited, rank := SearchRoot(ids[i], g, visited, roots, rank);
      res := res || r;
      assert Elems(ids[..i + 1]) == Elems(ids[..i]) + {ids[i]};
    }
    assert ids[..|ids|] == ids;
    if !res {
      forall x | x in roots
        ensures x in rank
      {
        var j :| 0 <= j < |ids| && ids[j] == x;
        assert x in visited;
      }
    }
  }

  /** One search from the primary input `id`, started with an empty path. */
  method SearchRoot(id: nat, g: SignalMap, visited: set<nat>, ghost roots: set<nat>, ghost rank: map<nat, nat>)
    returns (res: bool, visited': set<nat>, ghost rank': map<nat, nat>)
    requires Closed(g) && id in roots && roots <= g.Keys
    requires Marks(g, visited, {}, rank)
    ensures Marks(g, visited', {}, rank')
    ensures visited + {id} <= visited'
    ensures res ==> CycleReachableFrom(g, roots)
    ensures !res && Ordered(g, rank) ==> Ordered(g, rank')
  {
    var onPath;
    assert [] + [id] == [id] && IsWalk(g, [id]);
    res, visited', onPath, rank' := ExistsCycle(id, g, visited, {}, roots, [], rank);
  }

  /** Depth-first search from `cur`.  `stack` is the current path, a walk from
      one of `roots` to `cur`; `rank` numbers the signals whose search has
      finished in the order they finished.  Returns true when the search meets
      a signal that is on the current path.  Every search below `cur` runs to
      the end even after one of them found a cycle. */
  method ExistsCycle(cur: nat, g: SignalMap, visited: set<nat>, onPath: set<nat>,
                     ghost roots: set<nat>, ghost stack: seq<nat>, ghost rank: map<nat, nat>)
    returns (res: bool, visited': set<nat>, onPath': set<nat>, ghost rank': map<nat, nat>)
    requires Closed(g) && cur in g
    requires Marks(g, visited, onPath, rank)
    requires IsWalk(g, stack + [cur]) && (stack + [cur])[0] in roots && Elems(stack) == onPath
    ensures Marks(g, visited', onPath', rank')
    ensures onPath' == onPath
    ensures visited <= visited' && cur in visited'
    ensures cur in onPath ==> res && visited' == visited
    ensures cur in visited - onPath ==> !res && visited' == visited && rank' == rank
    ensures res ==> CycleReachableFrom(g, roots)
    ensures !res && Ordered(g, rank) ==> Ordered(g, rank')
    decreases g.Keys - visited, 0
  {
    if cur in onPath {
      res, visited', onPath', rank' := true, visited, onPath, rank;
      BackEdge(g, roots, stack, cur);
    } else if cur in visited {
      res, visited', onPath', rank' := false, visited, onPath, rank;
    } else {
      assert Elems(stack + [cur]) == onPath + {cur};
      res, visited', rank' := SearchUsers(cur, g, visited + {cur}, onPath + {cur}, roots, stack + [cur], rank);
      onPath' := onPath;
      FinishMarks(g, visited', onPath, rank', cur);
      if !res && Ordered(g, rank) {
        FinishOrdered(g, rank', cur);
      }
      rank' := rank'[cur := |rank'|];
    }
  }

  /** The loop of the search from `cur` over its users, in list order; `cur`
      is the last signal of the current path `path`.  The path is left as it
      is. */
  method SearchUsers(cur: nat, g: SignalMap, visited: set<nat>, onPath: set<nat>,
                     ghost roots: set<nat>, ghost path: seq<nat>, ghost rank: map<nat, nat>)
    returns (res: bool, visited': set<nat>, ghost rank': map<nat, nat>)
    requires Closed(g) && cur in g && cur in onPath
    requires Marks(g, visited, onPath, rank)
    requires IsWalk(g, path) && path[0] in roots && path[|path| - 1] == cur && Elems(path) == onPath
    ensures Marks(g, visited', onPath, rank')
    ensures visited <= visited'
    ensures res ==> CycleReachableFrom(g, roots)
    ensures !res && Ordered(g, rank) ==> Ordered(g, rank')
    ensures !res ==> forall j :: 0 <= j < |g[cur].users| ==> g[cur].users[j] in rank'
    decreases g.Keys - visited, 2
  {
    res := false;
    visited' := visited;
    rank' := rank;
    var users := g[cur].users;
    for i := 0 to |users|
      invariant Marks(g, visited', onPath, rank')
      invariant visited <= visited'
      invariant res ==> CycleReachableFrom(g, roots)
      invariant !res && Ordered(g, rank) ==> Ordered(g, rank')
      invariant !res ==> forall j :: 0 <= j < i ==> users[j] in rank'
    {
      var r;
      r, visited', rank' := SearchUser(users[i], g, visited', onPath, roots, path, rank');
      res := res || r;
    }
  }

  /** The search from one user `u` of the last signal of the current path. */
  method SearchUser(u: nat, g: SignalMap, visited: set<nat>, onPath: set<nat>,
                    ghost roots: set<nat>, ghost path: seq<nat>, ghost rank: map<nat, nat>)
    returns (res: bool, visited': set<nat>, ghost rank': map<nat, nat>)
    requires Closed(g) && path != [] && path[|path| - 1] in g && u in g[path[|path| - 1]].users
    requires Marks(g, visited, onPath, rank)
    requires IsWalk(g, path) && path[0] in roots && Elems(path) == onPath
    ensures Marks(g, visited', onPath, rank')
    ensures visited <= visited'
    ensures res ==> CycleReachableFrom(g, roots)
    ensures !res && Ordered(g, rank) ==> Ordered(g, rank')
    ensures rank.Keys <= rank'.Keys
    ensures !res ==> u in rank'
    decreases g.Keys - visited, 1
  {
    WalkExtend(g, path, u);
    var onPath';
    res, visited', onPath', rank' := ExistsCycle(u, g, visited, onPath, roots, path, rank);
  }

  /** Meeting a signal of the current path again closes a cycle. */
  lemma BackEdge(g: SignalMap, roots: set<nat>, stack: seq<nat>, cur: nat)
    requires IsWalk(g, stack + [cur]) && (stack + [cur])[0] in roots && cur in Elems(stack)
    ensures CycleReachableFrom(g, roots)
  {
    var w := stack + [cur];
    var i :| 0 <= i < |stack| && stack[i] == cur;
    assert w[i] == w[|w| - 1];
  }

  /** Leaving the path: a finished signal is ranked next. */
  lemma FinishMarks(g: SignalMap, visited: set<nat>, onPath: set<nat>, rank: map<nat, nat>, cur: nat)
    requires Marks(g, visited, onPath + {cur}, rank) && cur in visited && cur !in onPath
    ensures Marks(g, visited, onPath, rank[cur := |rank|])
  {
  }

  /** Ranking a signal after all its users keeps ranks decreasing along edges. */
  lemma FinishOrdered(g: SignalMap, rank: map<nat, nat>, cur: nat)
    requires Ordered(g, rank) && Compact(rank) && cur in g && cur !in rank
    requires forall j :: 0 <= j < |g[cur].users| ==> g[cur].users[j] in rank
    ensures Ordered(g, rank[cur := |rank|])
  {
  }
}
