/** Evaluation levels and the evaluation order.  Starting from the primary
    inputs, a queue-driven relaxation raises the level of every user of a
    signal to at least one more than the signal's level; the signals that end
    with a positive level, sorted by level, are the order in which the gates
    are evaluated. */
module EvaluationOrderProvider {
  import opened Circuit
  import opened Graph

  /** Raises the level of `id` to `lvl` when that is higher, creating the
      signal first when it is missing from the map. */
  method SetEvaluationLevel(id: nat, lvl: nat, g: SignalMap) returns (r: SignalMap)
    ensures r.Keys == g.Keys + {id}
    ensures Level(r, id) >= Level(g, id) && Level(r, id) >= lvl
    ensures Level(r, id) == Level(g, id) || Level(r, id) == lvl
    ensures r[id].users == Users(g, id) && r[id].value == Value(g, id)
    ensures forall s :: s in g && s != id ==> r[s] == g[s]
  {
    var sig := SignalAt(g, id);
    var newLevel := if sig.level < lvl then lvl else sig.level;
    r := g[id := sig.(level := newLevel)];
  }

  function Max(a: nat, b: nat): nat
  {
    if a < b then b else a
  }

  /** The inner loop of the relaxation for a popped signal `x`: every user of
      `x`, in list order, has its level raised to at least one more than the
      level `x` had when it was popped, and is pushed onto the queue. */
  method PushUsers(x: nat, g: SignalMap, queue: seq<nat>) returns (r: SignalMap, queue': seq<nat>)
    requires x in g && forall u :: u in g[x].users ==> u in g
    ensures queue' == queue + g[x].users
    ensures UsersRaised(g, x, r)
  {
    var users := g[x].users;
    var lvl := g[x].level;
    r := g;
    queue' := queue;
    for i := 0 to |users|
      invariant queue' == queue + users[..i]
      invariant r.Keys == g.Keys
      invariant forall s :: s in g ==> r[s].users == g[s].users && r[s].value == g[s].value
      invariant forall s :: s in g ==>
                  r[s].level == if s in users[..i] then Max(g[s].level, lvl + 1) else g[s].level
    {
      r := SetEvaluationLevel(users[i], lvl + 1, r);
      assert users[..i + 1] == users[..i] + [users[i]];
      queue' := queue' + [users[i]];
    }
    assert users[..|users|] == users;
  }

  /** Every user of `s` is at least one level above `s`. */
  ghost predicate EdgesOk(g: SignalMap, s: nat)
  {
    forall u :: u in Users(g, s) ==> Level(g, u) >= Level(g, s) + 1
  }

  /** Some signal still in the queue reaches `s`. */
  ghost predicate Pending(g: SignalMap, queue: seq<nat>, s: nat)
  {
    exists j :: 0 <= j < |queue| && Reaches(g, queue[j], s)
  }

  /** Every signal reachable from `roots` already has its users above it, or
      will be revisited through the queue. */
  ghost predicate Relaxed(g0: SignalMap, roots: set<nat>, g: SignalMap, queue: seq<nat>)
  {
    forall s :: ReachableFrom(g0, roots, s) ==> EdgesOk(g, s) || Pending(g0, queue, s)
  }

  /** `g` differs from `g0` in levels only, and levels have only grown. */
  ghost predicate LevelsRaised(g0: SignalMap, g: SignalMap)
  {
    && g.Keys == g0.Keys
    && forall s :: s in g0 ==> g[s].users == g0[s].users && g[s].value == g0[s].value && g[s].level >= g0[s].level
  }

  /** Some signal of the map lists `s` among its users. */
  ghost predicate IsUser(g: SignalMap, s: nat)
  {
    exists p :: p in g && s in g[p].users
  }

  /** Only signals reachable from `roots` that are users of some signal have
      changed. */
  ghost predicate ChangedReachable(g0: SignalMap, roots: set<nat>, g: SignalMap)
  {
    forall s :: s in g0 && s in g && g[s] != g0[s] ==> ReachableFrom(g0, roots, s) && IsUser(g0, s)
  }

  /** Sets the level of every signal reachable from the primary inputs
      `roots`.  The queue starts with the primary inputs in ascending order;
      each popped signal raises its users' levels and pushes every one of
      them again, so the loop ends only because no cycle can be entered from
      `roots`. */
  method SetEvaluationLevels(g: SignalMap, roots: set<nat>) returns (r: SignalMap)
    requires Closed(g) && roots <= g.Keys && Acyclic(g, roots)
    ensures LevelsRaised(g, r)
    ensures ChangedReachable(g, roots, r)
    ensures forall s, u :: ReachableFrom(g, roots, s) && u in Users(r, s) ==> Level(r, u) >= Level(r, s) + 1
    ensures RaisedExactly(g, roots, r)
  {
    ghost var rank :| Ranking(g, roots, rank);
    var queue := AscendingIds(roots);
    r := g;
    ProgressInit(g, roots, queue);
    while queue != []
      invariant Progress(g, roots, r, queue)
      invariant Justified(g, roots, r)
      decreases WalkSum(g, rank, queue, |rank|)
    {
      var x := queue[0];
      ghost var q0, r0 := queue, r;
      PopReady(g, roots, rank, r, queue);
      r, queue := PushUsers(x, r, queue[1..]);
      StepKeepsProgress(g, roots, rank, r0, q0, r);
      JustifiedStep(g, roots, r0, x, r);
    }
    ProgressDone(g, roots, r);
  }

  /** Every level the relaxation raised is exactly one more than the level of
      some reachable signal the raised signal is a user of. */
  ghost predicate RaisedExactly(g0: SignalMap, roots: set<nat>, g: SignalMap)
  {
    forall u :: u in g && u in g0 && g[u].level > g0[u].level ==>
      exists s :: ReachableFrom(g0, roots, s) && u in Users(g0, s) && Level(g, u) == Level(g, s) + 1
  }

  /** What the relaxation guarantees of its result `r`: levels of `g` only
      grew, every edge from a signal reachable from `roots` rises, and each
      raised level is exactly one more than that of a reachable signal it is
      a user of. */
  ghost predicate LevelEquations(g: SignalMap, roots: set<nat>, r: SignalMap)
  {
    && LevelsRaised(g, r) && RaisedExactly(g, roots, r)
    && forall s, v :: ReachableFrom(g, roots, s) && v in Users(r, s) ==> Level(r, v) >= Level(r, s) + 1
  }

  /** The measure of the induction over the ranking: producers come first. */
  ghost function RankDepth(rank: map<nat, nat>, u: nat): nat
  {
    if u in rank && rank[u] < |rank| then |rank| - rank[u] else |rank| + 1
  }

  /** The relaxation's guarantees determine the levels: two maps that both
      meet them give every signal the same level. */
  lemma {:induction false} LevelsUnique(g: SignalMap, roots: set<nat>, rank: map<nat, nat>, r1: SignalMap, r2: SignalMap, u: nat)
    requires Ranking(g, roots, rank)
    requires LevelEquations(g, roots, r1) && LevelEquations(g, roots, r2)
    ensures Level(r1, u) == Level(r2, u)
    decreases RankDepth(rank, u), 1
  {
    if u in g && r1[u].level > g[u].level {
      RaisedBelow(g, roots, rank, r1, r2, u);
    }
    if u in g && r2[u].level > g[u].level {
      RaisedBelow(g, roots, rank, r2, r1, u);
    }
  }

  /** One direction of the induction step: a level raised in `r1` is at most
      the level in `r2`, since the two agree on the producer that justifies
      it. */
  lemma {:induction false} RaisedBelow(g: SignalMap, roots: set<nat>, rank: map<nat, nat>, r1: SignalMap, r2: SignalMap, u: nat)
    requires Ranking(g, roots, rank)
    requires LevelEquations(g, roots, r1) && LevelEquations(g, roots, r2)
    requires u in g && r1[u].level > g[u].level
    ensures Level(r1, u) <= Level(r2, u)
    decreases RankDepth(rank, u), 0
  {
    var s := RaisedWitness(g, roots, r1, u);
    RankDepthFalls(g, roots, rank, s, u);
    LevelsUnique(g, roots, rank, r1, r2, s);
    EdgeRises(g, roots, r2, s, u);
  }

  /** A raised level names the reachable signal that justifies it. */
  lemma RaisedWitness(g: SignalMap, roots: set<nat>, r: SignalMap, u: nat) returns (s: nat)
    requires RaisedExactly(g, roots, r) && u in g && u in r && r[u].level > g[u].level
    ensures ReachableFrom(g, roots, s) && u in Users(g, s) && Level(r, u) == Level(r, s) + 1
  {
    s :| ReachableFrom(g, roots, s) && u in Users(g, s) && Level(r, u) == Level(r, s) + 1;
  }

  /** A user of a reachable signal is closer to the bottom of the ranking. */
  lemma RankDepthFalls(g: SignalMap, roots: set<nat>, rank: map<nat, nat>, s: nat, u: nat)
    requires Ranking(g, roots, rank) && ReachableFrom(g, roots, s) && u in Users(g, s)
    ensures RankDepth(rank, s) < RankDepth(rank, u)
  {
    RankedWhenReachable(g, roots, rank, s);
    assert u in rank && rank[u] < rank[s] < |rank|;
  }

  /** Under the level equations, the edge from a reachable signal rises. */
  lemma EdgeRises(g: SignalMap, roots: set<nat>, r: SignalMap, s: nat, u: nat)
    requires LevelEquations(g, roots, r) && ReachableFrom(g, roots, s) && u in Users(g, s)
    ensures Level(r, u) >= Level(r, s) + 1
  {
    assert Users(r, s) == Users(g, s);
  }

  /** Every level the relaxation raised is at most one more than the level of
      some reachable signal the raised signal is a user of. */
  ghost predicate Justified(g0: SignalMap, roots: set<nat>, g: SignalMap)
  {
    forall u :: u in g && u in g0 && g[u].level > g0[u].level ==>
      exists s :: ReachableFrom(g0, roots, s) && u in Users(g0, s) && Level(g, u) <= Level(g, s) + 1
  }

  /** A pop raises a user of the popped signal to exactly one more than the
      popped signal's level, and levels only grow, so every raised level
      stays justified. */
  lemma JustifiedStep(g0: SignalMap, roots: set<nat>, g: SignalMap, x: nat, r: SignalMap)
    requires LevelsRaised(g0, g) && Justified(g0, roots, g)
    requires x in g0 && ReachableFrom(g0, roots, x)
    requires UsersRaised(g, x, r)
    ensures Justified(g0, roots, r)
  {
    forall s | true
      ensures Level(r, s) >= Level(g, s)
    {
    }
    forall u | u in r && u in g0 && r[u].level > g0[u].level
      ensures exists s :: ReachableFrom(g0, roots, s) && u in Users(g0, s) && Level(r, u) <= Level(r, s) + 1
    {
      if r[u].level > g[u].level {
        assert u in g0[x].users && Level(r, u) == Level(g, x) + 1;
      } else {
        var s :| ReachableFrom(g0, roots, s) && u in Users(g0, s) && Level(g, u) <= Level(g, s) + 1;
        assert Level(r, u) == Level(g, u);
      }
    }
  }

  /** With every edge from a reachable signal rising, a justified level is
      exactly one more than the level of its witness. */
  lemma JustifiedExact(g0: SignalMap, roots: set<nat>, r: SignalMap)
    requires LevelsRaised(g0, r) && Justified(g0, roots, r)
    requires forall s, u :: ReachableFrom(g0, roots, s) && u in Users(r, s) ==> Level(r, u) >= Level(r, s) + 1
    ensures RaisedExactly(g0, roots, r)
  {
    forall u | u in r && u in g0 && r[u].level > g0[u].level
      ensures exists s :: ReachableFrom(g0, roots, s) && u in Users(g0, s) && Level(r, u) == Level(r, s) + 1
    {
      var s :| ReachableFrom(g0, roots, s) && u in Users(g0, s) && Level(r, u) <= Level(r, s) + 1;
      assert Users(r, s) == Users(g0, s);
    }
  }

  /** Before the first pop, the queue holds exactly the primary inputs. */
  lemma ProgressInit(g: SignalMap, roots: set<nat>, queue: seq<nat>)
    requires forall x :: x in queue <==> x in roots
    ensures Progress(g, roots, g, queue)
  {
    RelaxedInit(g, roots, queue);
    forall j | 0 <= j < |queue|
      ensures ReachableFrom(g, roots, queue[j])
    {
      ReachableRoot(g, roots, queue[j]);
    }
  }

  /** Once the queue is empty, every reachable signal has its users above it,
      and every raised level is exactly one more than the level of a
      reachable signal it is a user of. */
  lemma ProgressDone(g: SignalMap, roots: set<nat>, r: SignalMap)
    requires Progress(g, roots, r, []) && Justified(g, roots, r)
    ensures forall s, u :: ReachableFrom(g, roots, s) && u in Users(r, s) ==> Level(r, u) >= Level(r, s) + 1
    ensures RaisedExactly(g, roots, r)
  {
    forall s, u | ReachableFrom(g, roots, s) && u in Users(r, s)
      ensures Level(r, u) >= Level(r, s) + 1
    {
      assert EdgesOk(r, s);
    }
    JustifiedExact(g, roots, r);
  }

  /** The loop invariant of the relaxation. */
  ghost predicate Progress(g: SignalMap, roots: set<nat>, r: SignalMap, queue: seq<nat>)
  {
    && LevelsRaised(g, r)
    && ChangedReachable(g, roots, r)
    && (forall j :: 0 <= j < |queue| ==> ReachableFrom(g, roots, queue[j]))
    && Relaxed(g, roots, r, queue)
  }

  /** What the inner loop does to the signal map for popped signal `x`. */
  ghost predicate UsersRaised(g: SignalMap, x: nat, r: SignalMap)
  {
    && x in g
    && r.Keys == g.Keys
    && (forall s :: s in g ==> r[s].users == g[s].users && r[s].value == g[s].value)
    && (forall s :: s in g ==>
          r[s].level == if s in g[x].users then Max(g[s].level, g[x].level + 1) else g[s].level)
  }

  /** One pop-and-push step keeps the invariant and lowers the walk count of
      the queue. */
  lemma StepKeepsProgress(g: SignalMap, roots: set<nat>, rank: map<nat, nat>, r0: SignalMap, queue: seq<nat>, r: SignalMap)
    requires Closed(g) && roots <= g.Keys && Ranking(g, roots, rank)
    requires queue != [] && Progress(g, roots, r0, queue) && queue[0] in g
    requires UsersRaised(r0, queue[0], r)
    ensures Progress(g, roots, r, queue[1..] + r0[queue[0]].users)
    ensures WalkSum(g, rank, queue[1..] + r0[queue[0]].users, |rank|) < WalkSum(g, rank, queue, |rank|)
  {
    var x := queue[0];
    assert r0[x].users == g[x].users == Users(g, x);
    RankedWhenReachable(g, roots, rank, x);
    RelaxStep(g, roots, rank, r0, queue, r);
    WalkSumStep(g, rank, queue);
    QueueStep(g, roots, queue);
    ChangedStep(g, roots, r0, x, r);
  }

  /** The head of the queue is a signal of the map whose users are
      unchanged. */
  lemma PopReady(g: SignalMap, roots: set<nat>, rank: map<nat, nat>, r: SignalMap, queue: seq<nat>)
    requires Closed(g) && roots <= g.Keys && queue != [] && Progress(g, roots, r, queue)
    ensures queue[0] in g && queue[0] in r && r[queue[0]].users == g[queue[0]].users
    ensures forall u :: u in r[queue[0]].users ==> u in r
  {
    ReachableInMap(g, roots, queue[0]);
  }

  lemma RelaxedInit(g: SignalMap, roots: set<nat>, queue: seq<nat>)
    requires forall x :: x in queue <==> x in roots
    ensures Relaxed(g, roots, g, queue)
  {
    forall s | ReachableFrom(g, roots, s)
      ensures Pending(g, queue, s)
    {
      var w :| IsWalk(g, w) && w[0] in roots && w[|w| - 1] == s;
      var j :| 0 <= j < |queue| && queue[j] == w[0];
      assert Reaches(g, queue[j], s);
    }
  }

  lemma QueueStep(g: SignalMap, roots: set<nat>, queue: seq<nat>)
    requires queue != [] && queue[0] in g
    requires forall j :: 0 <= j < |queue| ==> ReachableFrom(g, roots, queue[j])
    ensures forall j :: 0 <= j < |queue[1..] + g[queue[0]].users| ==>
              ReachableFrom(g, roots, (queue[1..] + g[queue[0]].users)[j])
  {
    var x, rest := queue[0], queue[1..];
    var q := rest + g[x].users;
    forall j | 0 <= j < |q|
      ensures ReachableFrom(g, roots, q[j])
    {
      if j >= |rest| {
        assert q[j] == g[x].users[j - |rest|];
        ReachableStep(g, roots, x, q[j]);
      } else {
        assert q[j] == rest[j] == queue[j + 1];
      }
    }
  }

  lemma ChangedStep(g0: SignalMap, roots: set<nat>, g: SignalMap, x: nat, r: SignalMap)
    requires LevelsRaised(g0, g) && ChangedReachable(g0, roots, g)
    requires x in g0 && ReachableFrom(g0, roots, x)
    requires UsersRaised(g, x, r)
    ensures LevelsRaised(g0, r) && ChangedReachable(g0, roots, r)
  {
    forall s | s in g0 && s in r && r[s] != g0[s]
      ensures ReachableFrom(g0, roots, s) && IsUser(g0, s)
    {
      if r[s] != g[s] {
        assert s in g0[x].users;
        ReachableStep(g0, roots, x, s);
      }
    }
  }

  /** One pop-and-push step keeps every reachable signal relaxed or pending. */
  lemma RelaxStep(g0: SignalMap, roots: set<nat>, rank: map<nat, nat>, g: SignalMap, queue: seq<nat>, r: SignalMap)
    requires queue != [] && Closed(g0) && Ranking(g0, roots, rank) && queue[0] in rank && queue[0] in g0
    requires LevelsRaised(g0, g) && Relaxed(g0, roots, g, queue)
    requires UsersRaised(g, queue[0], r)
    ensures Relaxed(g0, roots, r, queue[1..] + g0[queue[0]].users)
  {
    var x, rest := queue[0], queue[1..];
    assert queue == [x] + rest;
    var q := rest + g0[x].users;
    assert x !in g0[x].users;
    forall s | ReachableFrom(g0, roots, s)
      ensures EdgesOk(r, s) || Pending(g0, q, s)
    {
      if s in g0[x].users {
        PendingUser(g0, x, rest, s);
      } else if Pending(g0, [x] + rest, s) {
        var j :| 0 <= j < |[x] + rest| && Reaches(g0, ([x] + rest)[j], s);
        if j > 0 {
          assert q[j - 1] == ([x] + rest)[j];
        } else {
          var w :| IsWalk(g0, w) && w[0] == x && w[|w| - 1] == s;
          if |w| == 1 {
            EdgesAfterPop(g0, g, x, r);
          } else {
            PendingBeyond(g0, x, rest, w);
          }
        }
      } else {
        EdgesKept(g0, g, x, r, s);
      }
    }
  }

  /** A user of the popped signal is pending: it is now in the queue. */
  lemma PendingUser(g0: SignalMap, x: nat, rest: seq<nat>, s: nat)
    requires x in g0 && s in g0[x].users
    ensures Pending(g0, rest + g0[x].users, s)
  {
    var users := g0[x].users;
    var q := rest + users;
    var k :| 0 <= k < |users| && users[k] == s;
    assert q[|rest| + k] == s;
    assert IsWalk(g0, [s]);
    assert Reaches(g0, q[|rest| + k], s);
  }

  /** What the popped signal reached through a user is pending through that
      user. */
  lemma PendingBeyond(g0: SignalMap, x: nat, rest: seq<nat>, w: seq<nat>)
    requires x in g0 && IsWalk(g0, w) && |w| >= 2 && w[0] == x
    ensures Pending(g0, rest + g0[x].users, w[|w| - 1])
  {
    var users := g0[x].users;
    var q := rest + users;
    WalkTail(g0, w);
    assert w[1] in Users(g0, w[0]);
    var k :| 0 <= k < |users| && users[k] == w[1];
    assert q[|rest| + k] == w[1];
    assert Reaches(g0, q[|rest| + k], w[|w| - 1]);
  }

  /** A signal whose level the step left alone keeps its users above it. */
  lemma EdgesKept(g0: SignalMap, g: SignalMap, x: nat, r: SignalMap, s: nat)
    requires LevelsRaised(g0, g) && UsersRaised(g, x, r) && x in g0 && s !in g0[x].users
    requires EdgesOk(g, s)
    ensures EdgesOk(r, s)
  {
    forall u | u in Users(r, s)
      ensures Level(r, u) >= Level(r, s) + 1
    {
      assert u in Users(g, s);
    }
  }

  /** After the inner loop, the popped signal has its users above it. */
  lemma EdgesAfterPop(g0: SignalMap, g: SignalMap, x: nat, r: SignalMap)
    requires LevelsRaised(g0, g) && x in g0 && x !in g0[x].users
    requires forall u :: u in g0[x].users ==> u in g0
    requires UsersRaised(g, x, r)
    ensures EdgesOk(r, x)
  {
  }

  /** The comparator of the sort: a pair of (signal id, level) goes before
      another when its level is strictly lower.  It never orders both ways,
      and two pairs are unordered exactly when their levels are equal,
      whatever their ids. */
  function LevelLess(a: (nat, nat), b: (nat, nat)): (lt: bool)
    ensures lt ==> !(b.1 < a.1)
    ensures !lt && !(b.1 < a.1) <==> a.1 == b.1
  {
    a.1 < b.1
  }

  /** The comparator is a strict weak order, as the sort requires: irreflexive,
      transitive, and two pairs are unordered exactly when their levels are
      equal. */
  lemma LevelLessStrictWeakOrder(a: (nat, nat), b: (nat, nat), c: (nat, nat))
    ensures !LevelLess(a, a)
    ensures LevelLess(a, b) && LevelLess(b, c) ==> LevelLess(a, c)
    ensures !LevelLess(a, b) && !LevelLess(b, a) <==> a.1 == b.1
  {
  }

  /** No pair is ordered before an earlier one. */
  predicate SortedByLevel(pairs: seq<(nat, nat)>)
  {
    forall i, j :: 0 <= i < j < |pairs| ==> !LevelLess(pairs[j], pairs[i])
  }

  /** The signal ids of a sequence of pairs. */
  function Ids(pairs: seq<(nat, nat)>): (ids: seq<nat>)
    ensures |ids| == |pairs|
    ensures forall k :: 0 <= k < |pairs| ==> ids[k] == pairs[k].0
  {
    seq(|pairs|, k requires 0 <= k < |pairs| => pairs[k].0)
  }

  /** The pairs (id, level) of the signals of `ids` whose level is positive,
      in the order of `ids`. */
  function PositiveLevels(g: SignalMap, ids: seq<nat>): seq<(nat, nat)>
  {
    if ids == [] then []
    else
      var id := ids[|ids| - 1];
      PositiveLevels(g, ids[..|ids| - 1]) + if Level(g, id) > 0 then [(id, Level(g, id))] else []
  }

  /** Every pair names a signal of `ids` and carries its level, which is
      positive. */
  ghost predicate LevelPairs(g: SignalMap, ids: seq<nat>, pairs: seq<(nat, nat)>)
  {
    forall k :: 0 <= k < |pairs| ==> pairs[k].0 in ids && pairs[k].1 == Level(g, pairs[k].0) > 0
  }

  /** The filter keeps only ids of `ids` of positive level, each paired with
      its own level. */
  lemma {:induction false} PositiveLevelsSound(g: SignalMap, ids: seq<nat>)
    ensures LevelPairs(g, ids, PositiveLevels(g, ids))
    decreases |ids|
  {
    if ids != [] {
      var init := ids[..|ids| - 1];
      var id := ids[|ids| - 1];
      assert ids == init + [id];
      PositiveLevelsSound(g, init);
      var pairs, p0 := PositiveLevels(g, ids), PositiveLevels(g, init);
      assert pairs == p0 + if Level(g, id) > 0 then [(id, Level(g, id))] else [];
      forall k | 0 <= k < |pairs|
        ensures pairs[k].0 in ids && pairs[k].1 == Level(g, pairs[k].0) > 0
      {
        if k < |p0| {
          assert pairs[k] == p0[k] && p0[k].0 in init;
        } else {
          assert pairs[k] == (id, Level(g, id));
        }
      }
    }
  }

  /** The filter keeps every id of `ids` of positive level. */
  lemma {:induction false} PositiveLevelsComplete(g: SignalMap, ids: seq<nat>)
    ensures forall s :: s in ids && Level(g, s) > 0 ==> s in Ids(PositiveLevels(g, ids))
    decreases |ids|
  {
    if ids != [] {
      var init := ids[..|ids| - 1];
      var id := ids[|ids| - 1];
      assert ids == init + [id];
      PositiveLevelsComplete(g, init);
      var p0 := PositiveLevels(g, init);
      if Level(g, id) > 0 {
        assert PositiveLevels(g, ids) == p0 + [(id, Level(g, id))];
        assert Ids(p0 + [(id, Level(g, id))]) == Ids(p0) + [id];
      } else {
        assert PositiveLevels(g, ids) == p0;
      }
    }
  }

  /** Filtering ids in ascending order leaves them ascending. */
  lemma {:induction false} PositiveLevelsAscending(g: SignalMap, ids: seq<nat>)
    requires Ascending(ids)
    ensures Ascending(Ids(PositiveLevels(g, ids)))
    decreases |ids|
  {
    if ids != [] {
      var init := ids[..|ids| - 1];
      var id := ids[|ids| - 1];
      assert forall k :: 0 <= k < |init| ==> init[k] == ids[k] < id;
      PositiveLevelsAscending(g, init);
      var p0 := PositiveLevels(g, init);
      if Level(g, id) > 0 {
        PositiveLevelsBelow(g, init, id);
        AscendingSnoc(p0, (id, Level(g, id)));
      }
    }
  }

  /** Every id the filter keeps from `init` lies below a bound of `init`. */
  lemma PositiveLevelsBelow(g: SignalMap, init: seq<nat>, id: nat)
    requires forall k :: 0 <= k < |init| ==> init[k] < id
    ensures forall k :: 0 <= k < |PositiveLevels(g, init)| ==> Ids(PositiveLevels(g, init))[k] < id
  {
    PositiveLevelsSound(g, init);
    var p0 := PositiveLevels(g, init);
    assert LevelPairs(g, init, p0);
    forall k | 0 <= k < |p0|
      ensures Ids(p0)[k] < id
    {
      assert p0[k].0 in init;
    }
  }

  lemma AscendingSnoc(p0: seq<(nat, nat)>, p: (nat, nat))
    requires Ascending(Ids(p0)) && forall k :: 0 <= k < |p0| ==> Ids(p0)[k] < p.0
    ensures Ascending(Ids(p0 + [p]))
  {
    assert Ids(p0 + [p]) == Ids(p0) + [p.0];
  }

  lemma PositiveLevelsNext(g: SignalMap, ids: seq<nat>, i: nat)
    requires i < |ids|
    ensures PositiveLevels(g, ids[..i + 1]) ==
            PositiveLevels(g, ids[..i]) + if Level(g, ids[i]) > 0 then [(ids[i], Level(g, ids[i]))] else []
  {
    var pre := ids[..i + 1];
    assert pre[|pre| - 1] == ids[i] && pre[..|pre| - 1] == ids[..i];
  }

  /** The pairs (id, level) of the signals whose level is positive, in
      ascending id order: the outputs of the gates to evaluate. */
  method GetEvaluationLevels(g: SignalMap) returns (pairs: seq<(nat, nat)>)
    ensures pairs == PositiveLevels(g, AscendingIds(g.Keys))
  {
    var ids := AscendingIds(g.Keys);
    pairs := [];
    for i := 0 to |ids|
      invariant pairs == PositiveLevels(g, ids[..i])
    {
      var id := ids[i];
      PositiveLevelsNext(g, ids, i);
      assert id in g;
      if g[id].level > 0 {
        pairs := pairs + [(id, g[id].level)];
      }
    }
    assert ids[..|ids|] == ids;
  }

  /** Inserts `p` into a sorted sequence before the first pair whose level is
      not lower. */
  function InsertByLevel(sorted: seq<(nat, nat)>, p: (nat, nat)): (r: seq<(nat, nat)>)
    requires SortedByLevel(sorted)
    ensures multiset(r) == multiset(sorted) + multiset{p}
    ensures SortedByLevel(r)
  {
    if sorted == [] || p.1 <= sorted[0].1 then
      ConsSorted(p, sorted);
      [p] + sorted
    else
      var tail := InsertByLevel(sorted[1..], p);
      assert sorted == [sorted[0]] + sorted[1..];
      AtLeastAll(sorted[0].1, sorted, tail, p);
      ConsSorted(sorted[0], tail);
      [sorted[0]] + tail
  }

  /** A pair no higher than the first of a sorted sequence can go in front. */
  lemma ConsSorted(x: (nat, nat), s: seq<(nat, nat)>)
    requires SortedByLevel(s)
    requires s != [] ==> x.1 <= s[0].1
    ensures SortedByLevel([x] + s)
  {
    var r := [x] + s;
    forall i, j | 0 <= i < j < |r|
      ensures !LevelLess(r[j], r[i])
    {
      if i > 0 {
        assert r[i] == s[i - 1] && r[j] == s[j - 1];
      } else {
        assert r[j] == s[j - 1];
      }
    }
  }

  /** Every pair of `tail`, which holds the pairs of `sorted` but its first
      and `p`, is at level `lo` or higher. */
  lemma AtLeastAll(lo: nat, sorted: seq<(nat, nat)>, tail: seq<(nat, nat)>, p: (nat, nat))
    requires SortedByLevel(sorted) && sorted != [] && lo == sorted[0].1 && lo <= p.1
    requires multiset(tail) == multiset(sorted[1..]) + multiset{p}
    ensures tail != [] ==> lo <= tail[0].1
  {
    if tail != [] {
      assert tail[0] in multiset(tail);
      if tail[0] != p {
        assert tail[0] in sorted[1..];
        var k :| 0 <= k < |sorted[1..]| && sorted[1..][k] == tail[0];
        assert sorted[k + 1] == tail[0];
      }
    }
  }

  /** The pairs sorted by level.  The order of pairs of equal level is not
      specified by the sort this stands for; this one keeps it. */
  function SortByLevel(pairs: seq<(nat, nat)>): (sorted: seq<(nat, nat)>)
    ensures multiset(sorted) == multiset(pairs)
    ensures SortedByLevel(sorted)
  {
    if pairs == [] then []
    else
      assert pairs == pairs[..|pairs| - 1] + [pairs[|pairs| - 1]];
      InsertByLevel(SortByLevel(pairs[..|pairs| - 1]), pairs[|pairs| - 1])
  }

  /** No two positions hold the same element. */
  predicate Distinct<T(==)>(a: seq<T>)
  {
    forall i, j :: 0 <= i < j < |a| ==> a[i] != a[j]
  }

  lemma {:induction false} CountsAtMostOne<T>(a: seq<T>)
    requires Distinct(a)
    ensures forall x :: multiset(a)[x] <= 1
    decreases |a|
  {
    if a != [] {
      var init := a[..|a| - 1];
      assert a == init + [a[|a| - 1]];
      assert a[|a| - 1] !in init by {
        forall k | 0 <= k < |init|
          ensures init[k] != a[|a| - 1]
        {
          assert init[k] == a[k];
        }
      }
      CountsAtMostOne(init);
    }
  }

  lemma CountPair<T>(a: seq<T>, i: nat, j: nat)
    requires i < j < |a|
    ensures multiset(a)[a[i]] >= if a[i] == a[j] then 2 else 1
  {
    var front := a[..j];
    assert a == front + [a[j]] + a[j + 1..];
    assert a[i] == front[i];
  }

  /** Each sorted pair names a signal of positive level and carries its
      level. */
  lemma SortedSound(r: SignalMap, levels: seq<(nat, nat)>, sorted: seq<(nat, nat)>)
    requires levels == PositiveLevels(r, AscendingIds(r.Keys))
    requires multiset(sorted) == multiset(levels)
    ensures forall k :: 0 <= k < |sorted| ==> sorted[k].0 in r && sorted[k].1 == Level(r, sorted[k].0) > 0
  {
    var ids := AscendingIds(r.Keys);
    PositiveLevelsSound(r, ids);
    PermutedLevelPairs(r, ids, levels, sorted);
  }

  /** A permutation of level pairs is made of level pairs. */
  lemma PermutedLevelPairs(r: SignalMap, ids: seq<nat>, levels: seq<(nat, nat)>, sorted: seq<(nat, nat)>)
    requires LevelPairs(r, ids, levels) && forall x :: x in ids ==> x in r
    requires multiset(sorted) == multiset(levels)
    ensures forall k :: 0 <= k < |sorted| ==> sorted[k].0 in r && sorted[k].1 == Level(r, sorted[k].0) > 0
  {
    forall k | 0 <= k < |sorted|
      ensures sorted[k].0 in r && sorted[k].1 == Level(r, sorted[k].0) > 0
    {
      assert sorted[k] in multiset(levels);
      var m :| 0 <= m < |levels| && levels[m] == sorted[k];
    }
  }

  /** Every signal of positive level is named by some sorted pair. */
  lemma SortedComplete(r: SignalMap, levels: seq<(nat, nat)>, sorted: seq<(nat, nat)>)
    requires levels == PositiveLevels(r, AscendingIds(r.Keys))
    requires multiset(sorted) == multiset(levels)
    ensures forall s :: s in r && r[s].level > 0 ==> s in Ids(sorted)
  {
    var ids := AscendingIds(r.Keys);
    PositiveLevelsComplete(r, ids);
    forall s | s in r && r[s].level > 0
      ensures s in Ids(sorted)
    {
      assert s in ids && Level(r, s) > 0;
      assert s in Ids(levels);
      var m :| 0 <= m < |levels| && Ids(levels)[m] == s;
      assert levels[m] in multiset(sorted);
      var k :| 0 <= k < |sorted| && sorted[k] == levels[m];
      assert Ids(sorted)[k] == s;
    }
  }

  /** Sorting the filter names each signal once. */
  lemma SortedDistinct(r: SignalMap, levels: seq<(nat, nat)>, sorted: seq<(nat, nat)>)
    requires levels == PositiveLevels(r, AscendingIds(r.Keys))
    requires multiset(sorted) == multiset(levels)
    requires forall k :: 0 <= k < |sorted| ==> sorted[k].1 == Level(r, sorted[k].0)
    ensures Distinct(Ids(sorted))
  {
    PositiveLevelsAscending(r, AscendingIds(r.Keys));
    assert Distinct(levels) by {
      forall i, j | 0 <= i < j < |levels|
        ensures levels[i] != levels[j]
      {
        assert Ids(levels)[i] < Ids(levels)[j];
      }
    }
    CountsAtMostOne(levels);
    forall i, j | 0 <= i < j < |sorted|
      ensures Ids(sorted)[i] != Ids(sorted)[j]
    {
      CountPair(sorted, i, j);
    }
  }

  /** The signal ids of the sorted pairs, in their order. */
  method IdsOf(sorted: seq<(nat, nat)>) returns (order: seq<nat>)
    ensures order == Ids(sorted)
  {
    order := [];
    for i := 0 to |sorted|
      invariant |order| == i
      invariant forall k :: 0 <= k < i ==> order[k] == sorted[k].0
    {
      order := order + [sorted[i].0];
    }
  }

  /** The evaluation order: the signals of positive level after the
      relaxation, each once, sorted by level. */
  method GetEvaluationOrder(g: SignalMap, roots: set<nat>) returns (order: seq<nat>, r: SignalMap)
    requires Closed(g) && roots <= g.Keys && Acyclic(g, roots)
    ensures LevelsRaised(g, r) && ChangedReachable(g, roots, r)
    ensures forall s, u :: ReachableFrom(g, roots, s) && u in Users(r, s) ==> Level(r, u) >= Level(r, s) + 1
    ensures RaisedExactly(g, roots, r)
    ensures forall s :: s in order <==> s in r && r[s].level > 0
    ensures Distinct(order)
    ensures forall i, j :: 0 <= i < j < |order| ==> Level(r, order[i]) <= Level(r, order[j])
  {
    r := SetEvaluationLevels(g, roots);
    var levels := GetEvaluationLevels(r);
    var sorted := SortByLevel(levels);
    order := IdsOf(sorted);
    SortedSound(r, levels, sorted);
    SortedComplete(r, levels, sorted);
    SortedDistinct(r, levels, sorted);
  }

  /** When every level starts at 0, each signal of the order is the user of
      some signal, and a signal of the order comes strictly before each of its
      users that is in the order. */
  lemma OrderFollowsEdges(g: SignalMap, roots: set<nat>, r: SignalMap, order: seq<nat>)
    requires forall s :: s in g ==> g[s].level == 0
    requires LevelsRaised(g, r) && ChangedReachable(g, roots, r)
    requires forall s, u :: ReachableFrom(g, roots, s) && u in Users(r, s) ==> Level(r, u) >= Level(r, s) + 1
    requires forall s :: s in order <==> s in r && r[s].level > 0
    requires forall i, j :: 0 <= i < j < |order| ==> Level(r, order[i]) <= Level(r, order[j])
    ensures forall s :: s in order ==> IsUser(g, s)
    ensures forall i, j :: 0 <= i < |order| && 0 <= j < |order| && order[j] in Users(g, order[i]) ==> i < j
  {
    forall s | s in order
      ensures ReachableFrom(g, roots, s) && IsUser(g, s)
    {
      assert r[s] != g[s];
    }
    forall i, j | 0 <= i < |order| && 0 <= j < |order| && order[j] in Users(g, order[i])
      ensures i < j
    {
      assert order[i] in order && order[i] in g;
      assert Users(r, order[i]) == Users(g, order[i]);
    }
  }
}
