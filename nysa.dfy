/** The simulator driver: finds the primary inputs, refuses circuits with a
    cycle, orders the gates, and evaluates the circuit once for every
    combination of primary input values, counting in binary. */
module Nysa {
  import opened Circuit
  import opened Graph
  import opened GateExecutor
  import opened Parser
  import opened CycleFinder
  import opened EvaluationOrderProvider
  import opened Counter

  // ----- Primary inputs -----

  /** The primary inputs: the signals that no gate produces. */
  function InputIds(g: SignalMap, gates: GateMap): (ids: set<nat>)
    ensures ids <= g.Keys
    ensures forall s :: s in g ==> (s in ids <==> s !in gates)
  {
    set s | s in g && s !in gates
  }

  /** In a built map a primary input is nobody's user: users are gate
      outputs.  So the relaxation leaves every primary input at level 0. */
  lemma InputsAreNotUsers(gates: GateMap, g: SignalMap)
    requires Built(gates, g)
    ensures forall s, u :: s in g && u in g[s].users ==> u in g && u !in InputIds(g, gates)
    ensures forall s :: s in InputIds(g, gates) ==> !IsUser(g, s)
  {
    BuiltEdges(gates, g);
  }

  /** The values of all signals in ascending id order: one line of output. */
  function Snapshot(g: SignalMap): (row: seq<bool>)
    ensures |row| == |g|
    ensures forall i :: 0 <= i < |row| ==> AscendingIds(g.Keys)[i] in g && row[i] == g[AscendingIds(g.Keys)[i]].value
  {
    InputValues(g, AscendingIds(g.Keys))
  }

  // ----- One evaluation pass -----

  /** Every signal of `order` is a gate output and a signal of the map, and
      its gate has the inputs its kind reads. */
  ghost predicate Evaluable(gates: GateMap, order: seq<nat>, g: SignalMap)
  {
    forall i :: 0 <= i < |order| ==> order[i] in g && order[i] in gates && ArityOk(gates[order[i]])
  }

  /** An input of a gate in `order` that is itself in `order` comes strictly
      earlier. */
  ghost predicate Topological(gates: GateMap, order: seq<nat>)
  {
    forall i, j :: 0 <= i < |order| && 0 <= j < |order| && order[i] in gates && order[j] in gates[order[i]].inputs ==> j < i
  }

  /** Sets the value of signal `id` to what its gate computes from the current
      values. */
  method CalculateSignalValue(id: nat, g: SignalMap, gates: GateMap) returns (r: SignalMap)
    requires id in g && id in gates && ArityOk(gates[id])
    ensures r == g[id := g[id].(value := Evaluate(gates[id], g))]
  {
    var v := Evaluate(gates[id], g);
    r := g[id := g[id].(value := v)];
  }

  /** The signal map after evaluating the gates of `order` one after the
      other, each reading the values left by the ones before. */
  function Pass(gates: GateMap, order: seq<nat>, g: SignalMap): (r: SignalMap)
    requires Evaluable(gates, order, g)
    ensures r.Keys == g.Keys
    ensures forall s :: s in g ==> r[s].users == g[s].users && r[s].level == g[s].level
    ensures forall s :: s in g && s !in order ==> r[s].value == g[s].value
    decreases |order|
  {
    if order == [] then g
    else
      var prev := Pass(gates, order[..|order| - 1], g);
      var id := order[|order| - 1];
      prev[id := prev[id].(value := Evaluate(gates[id], prev))]
  }

  /** Evaluates the gates of `order` in that order, then takes the values of
      all signals as the row to print. */
  method EvaluateSignals(gates: GateMap, order: seq<nat>, g: SignalMap) returns (r: SignalMap, row: seq<bool>)
    requires Evaluable(gates, order, g)
    ensures r == Pass(gates, order, g)
    ensures row == Snapshot(r)
  {
    r := g;
    for i := 0 to |order|
      invariant r == Pass(gates, order[..i], g)
    {
      assert order[..i + 1][..i] == order[..i];
      r := CalculateSignalValue(order[i], r, gates);
    }
    assert order[..|order|] == order;
    row := Snapshot(r);
  }

  lemma PassPrefix(gates: GateMap, order: seq<nat>, g: SignalMap)
    requires Evaluable(gates, order, g) && Topological(gates, order) && Distinct(order) && order != []
    ensures Evaluable(gates, order[..|order| - 1], g)
    ensures Topological(gates, order[..|order| - 1]) && Distinct(order[..|order| - 1])
  {
  }

  /** Signal `o` is a gate output holding exactly what its gate computes from
      the values of `g`. */
  ghost predicate GateHolds(gates: GateMap, g: SignalMap, o: nat)
  {
    o in gates && ArityOk(gates[o]) && Value(g, o) == Evaluate(gates[o], g)
  }

  /** Every signal of `order` holds what its gate computes. */
  ghost predicate FixedPoint(gates: GateMap, order: seq<nat>, g: SignalMap)
  {
    forall o :: o in order ==> GateHolds(gates, g, o)
  }

  /** With the gates in topological order, a pass leaves every evaluated
      signal holding exactly what its gate computes from the final values:
      the result is a fixed point of the circuit. */
  lemma {:induction false} PassSettles(gates: GateMap, order: seq<nat>, g: SignalMap)
    requires Evaluable(gates, order, g) && Topological(gates, order) && Distinct(order)
    ensures FixedPoint(gates, order, Pass(gates, order, g))
    decreases |order|
  {
    if order != [] {
      var n := |order| - 1;
      var init := order[..n];
      var id := order[n];
      PassPrefix(gates, order, g);
      PassSettles(gates, init, g);
      TopologicalLast(gates, order);
      SettleStep(gates, init, id, Pass(gates, init, g));
    }
  }

  /** In a topological order without repeats, the last gate is read by no
      earlier gate and does not read itself. */
  lemma TopologicalLast(gates: GateMap, order: seq<nat>)
    requires Topological(gates, order) && Distinct(order) && order != []
    ensures var n := |order| - 1;
      forall o :: o in order[..n] && o in gates ==> order[n] !in gates[o].inputs
  {
    var n := |order| - 1;
    forall o | o in order[..n] && o in gates
      ensures order[n] !in gates[o].inputs
    {
      var j :| 0 <= j < n && order[..n][j] == o;
      assert order[j] == o;
    }
  }

  /** Evaluating a gate that no gate evaluated so far reads, and that does not
      read itself, keeps the earlier signals settled and settles it too. */
  lemma SettleStep(gates: GateMap, init: seq<nat>, id: nat, prev: SignalMap)
    requires FixedPoint(gates, init, prev)
    requires id in prev && id in gates && ArityOk(gates[id]) && id !in gates[id].inputs
    requires forall o :: o in init && o in gates ==> id !in gates[o].inputs
    ensures FixedPoint(gates, init + [id], prev[id := prev[id].(value := Evaluate(gates[id], prev))])
  {
    var r := prev[id := prev[id].(value := Evaluate(gates[id], prev))];
    EvaluateLocal(gates[id], prev, r);
    forall o | o in init
      ensures Value(r, o) == Evaluate(gates[o], r)
    {
      EvaluateLocal(gates[o], prev, r);
    }
  }

  /** Two maps that agree on every signal outside `order` and are both fixed
      points of the gates in `order` agree everywhere: the values of the
      evaluated signals are determined by the others. */
  lemma FixedPointUnique(gates: GateMap, order: seq<nat>, a: SignalMap, b: SignalMap)
    requires Topological(gates, order) && FixedPoint(gates, order, a) && FixedPoint(gates, order, b)
    requires forall s :: s !in order ==> Value(a, s) == Value(b, s)
    ensures forall s :: Value(a, s) == Value(b, s)
  {
    AgreeUpTo(gates, order, a, b, |order|);
    forall s | s in order
      ensures Value(a, s) == Value(b, s)
    {
      var k :| 0 <= k < |order| && order[k] == s;
    }
  }

  lemma {:induction false} AgreeUpTo(gates: GateMap, order: seq<nat>, a: SignalMap, b: SignalMap, k: nat)
    requires k <= |order|
    requires Topological(gates, order) && FixedPoint(gates, order, a) && FixedPoint(gates, order, b)
    requires forall s :: s !in order ==> Value(a, s) == Value(b, s)
    ensures forall j :: 0 <= j < k ==> Value(a, order[j]) == Value(b, order[j])
    decreases k
  {
    if k > 0 {
      AgreeUpTo(gates, order, a, b, k - 1);
      var o := order[k - 1];
      assert GateHolds(gates, a, o) && GateHolds(gates, b, o);
      forall i | i in gates[o].inputs
        ensures Value(a, i) == Value(b, i)
      {
        if i in order {
          var m :| 0 <= m < |order| && order[m] == i;
          assert m < k - 1;
        }
      }
      EvaluateLocal(gates[o], a, b);
    }
  }

  // ----- The next combination of input values -----

  /** Moves the primary inputs to the next combination: going from the
      largest id down, set inputs are cleared up to the first clear one,
      which is set.  Returns whether a clear input was found, that is,
      whether a combination not yet used remains.  An input that is not in
      the map is created first, as indexing the ordered map does. */
  method PrepareNextCombination(g: SignalMap, inputs: set<nat>) returns (more: bool, r: SignalMap)
    ensures (InputValues(r, AscendingIds(inputs)), more) == Increment(InputValues(g, AscendingIds(inputs)))
    ensures InputsOnly(g, inputs, r)
  {
    var ids := AscendingIds(inputs);
    r := g;
    var i: nat := |ids|;
    while i > 0
      invariant Carrying(g, inputs, ids, i, r)
    {
      i := i - 1;
      ghost var r0 := r;
      if Value(r, ids[i]) {
        r := SetValue(r, ids[i], false);
        ClearStep(g, inputs, ids, i, r0, r);
      } else {
        r := SetValue(r, ids[i], true);
        IncrementStopsAt(g, inputs, ids, i, r0, r);
        return true, r;
      }
    }
    IncrementClearsAll(g, r, ids);
    return false, r;
  }

  /** `r` differs from `g` at most in the values of the primary inputs, of
      which some may have been created. */
  ghost predicate InputsOnly(g: SignalMap, inputs: set<nat>, r: SignalMap)
  {
    && g.Keys <= r.Keys <= g.Keys + inputs
    && (forall s :: s in r ==> r[s].users == Users(g, s) && r[s].level == Level(g, s))
    && (forall s :: s in r && s !in inputs ==> r[s] == g[s])
  }

  /** The loop state of the increment with the inputs from `i` on done: they
      were all set and are now clear, and the ones before `i` are untouched. */
  ghost predicate Carrying(g: SignalMap, inputs: set<nat>, ids: seq<nat>, i: nat, r: SignalMap)
  {
    && ids == AscendingIds(inputs)
    && i <= |ids|
    && InputsOnly(g, inputs, r)
    && (forall k :: 0 <= k < i ==> Value(r, ids[k]) == Value(g, ids[k]))
    && (forall k :: i <= k < |ids| ==> Value(g, ids[k]) && !Value(r, ids[k]))
  }

  /** Clearing the set input `i` carries on to the next one. */
  lemma ClearStep(g: SignalMap, inputs: set<nat>, ids: seq<nat>, i: nat, r0: SignalMap, r: SignalMap)
    requires i < |ids| && Carrying(g, inputs, ids, i + 1, r0) && Value(r0, ids[i])
    requires r == SetValue(r0, ids[i], false)
    ensures Carrying(g, inputs, ids, i, r)
  {
    SetInput(g, inputs, ids, i, r0, false);
  }

  /** `g` with the value of signal `id` set to `b`, creating `id` first when
      it is not in the map. */
  function SetValue(g: SignalMap, id: nat, b: bool): (r: SignalMap)
    ensures r.Keys == g.Keys + {id}
    ensures Value(r, id) == b && SignalAt(r, id) == SignalAt(g, id).(value := b)
    ensures forall s :: s != id ==> SignalAt(r, s) == SignalAt(g, s)
  {
    g[id := SignalAt(g, id).(value := b)]
  }

  /** Setting input `i` changes the value of that input only. */
  lemma SetInput(g: SignalMap, inputs: set<nat>, ids: seq<nat>, i: nat, r0: SignalMap, b: bool)
    requires ids == AscendingIds(inputs) && i < |ids| && InputsOnly(g, inputs, r0)
    ensures InputsOnly(g, inputs, SetValue(r0, ids[i], b))
    ensures forall k :: 0 <= k < |ids| && k != i ==> Value(SetValue(r0, ids[i], b), ids[k]) == Value(r0, ids[k])
  {
    var r := SetValue(r0, ids[i], b);
    assert ids[i] in inputs;
    forall s | s in r
      ensures r[s].users == Users(g, s) && r[s].level == Level(g, s)
    {
      assert r[s] == SignalAt(r, s);
      if s != ids[i] { assert s in r0; }
    }
    forall k | 0 <= k < |ids| && k != i
      ensures Value(r, ids[k]) == Value(r0, ids[k])
    {
      assert ids[k] != ids[i];
    }
  }

  /** Setting the clear input `i` ends the increment. */
  lemma IncrementStopsAt(g: SignalMap, inputs: set<nat>, ids: seq<nat>, i: nat, r0: SignalMap, r: SignalMap)
    requires i < |ids| && Carrying(g, inputs, ids, i + 1, r0) && !Value(r0, ids[i])
    requires r == SetValue(r0, ids[i], true)
    ensures (InputValues(r, ids), true) == Increment(InputValues(g, ids))
    ensures InputsOnly(g, inputs, r)
  {
    SetInput(g, inputs, ids, i, r0, true);
    var bits, after := InputValues(g, ids), InputValues(r, ids);
    assert forall k :: 0 <= k < i ==> after[k] == bits[k] by {
      forall k | 0 <= k < i ensures after[k] == bits[k] {
        assert Value(r, ids[k]) == Value(r0, ids[k]) == Value(g, ids[k]);
      }
    }
    assert forall k :: i < k < |ids| ==> bits[k] && !after[k] by {
      forall k | i < k < |ids| ensures bits[k] && !after[k] {
        assert Value(r, ids[k]) == Value(r0, ids[k]);
      }
    }
    IncrementAt(bits, i);
    StoppedBits(bits, after, i);
  }

  lemma StoppedBits(bits: seq<bool>, after: seq<bool>, i: nat)
    requires i < |bits| == |after| && after[i]
    requires forall k :: 0 <= k < i ==> after[k] == bits[k]
    requires forall k :: i < k < |bits| ==> !after[k]
    ensures after == bits[..i] + [true] + Constant(|bits| - i - 1, false)
  {
  }

  /** The values after an increment that found every input set. */
  lemma IncrementClearsAll(g: SignalMap, r: SignalMap, ids: seq<nat>)
    requires forall k :: 0 <= k < |ids| ==> Value(g, ids[k]) && !Value(r, ids[k])
    ensures (InputValues(r, ids), false) == Increment(InputValues(g, ids))
  {
    var bits := InputValues(g, ids);
    IncrementAllSet(bits);
    assert InputValues(r, ids) == Constant(|bits|, false);
  }

  // ----- Enumerating the combinations -----

  /** `a` and `b` have the same signals, with the same users and levels. */
  ghost predicate SameShape(a: SignalMap, b: SignalMap)
  {
    && a.Keys == b.Keys
    && forall s :: s in a ==> a[s].users == b[s].users && a[s].level == b[s].level
  }

  /** Every signal of level 0 other than a primary input is false. */
  ghost predicate Quiet(inputs: set<nat>, g: SignalMap)
  {
    forall s :: s in g && g[s].level == 0 && s !in inputs ==> !g[s].value
  }

  /** The state in which row `n` is printed: shaped like `shape`; every
      signal of positive level holds what its gate computes; the primary
      inputs spell `n`; every other signal of level 0 is false. */
  ghost predicate RowState(gates: GateMap, inputs: set<nat>, shape: SignalMap, st: SignalMap, n: nat)
  {
    && SameShape(st, shape)
    && (forall s :: s in st && st[s].level > 0 ==>
          s in gates && ArityOk(gates[s]) && st[s].value == Evaluate(gates[s], st))
    && ToNat(InputValues(st, AscendingIds(inputs))) == n
    && Quiet(inputs, st)
  }

  /** What the enumeration needs: the order holds exactly the signals of
      positive level, each once, as gate outputs whose inputs in the order
      come earlier; the primary inputs are signals of level 0; every signal
      of level 0 is false. */
  ghost predicate Ready(gates: GateMap, order: seq<nat>, inputs: set<nat>, g: SignalMap)
  {
    && Evaluable(gates, order, g) && Topological(gates, order) && Distinct(order)
    && (forall s :: s in order <==> s in g && g[s].level > 0)
    && inputs <= g.Keys
    && (forall s :: s in inputs ==> g[s].level == 0)
    && (forall s :: s in g && g[s].level == 0 ==> !g[s].value)
  }

  /** A pass over the order, from a state shaped like the starting one, gives
      the state of the row its primary inputs spell, and leaves the inputs
      as they were. */
  lemma RowAfterPass(gates: GateMap, order: seq<nat>, inputs: set<nat>, g0: SignalMap, g: SignalMap)
    requires Ready(gates, order, inputs, g0) && SameShape(g, g0) && Quiet(inputs, g)
    ensures Evaluable(gates, order, g)
    ensures RowState(gates, inputs, g0, Pass(gates, order, g), ToNat(InputValues(g, AscendingIds(inputs))))
    ensures InputValues(Pass(gates, order, g), AscendingIds(inputs)) == InputValues(g, AscendingIds(inputs))
  {
    ReadyEvaluable(gates, order, inputs, g0, g);
    var st := Pass(gates, order, g);
    PassSettles(gates, order, g);
    PassSettledLevels(gates, order, inputs, g0, g, st);
    ReadyOffOrder(gates, order, inputs, g0, g);
    PassKeepsInputs(order, inputs, g, st);
    PassKeepsQuiet(order, inputs, g, st);
  }

  lemma ReadyEvaluable(gates: GateMap, order: seq<nat>, inputs: set<nat>, g0: SignalMap, g: SignalMap)
    requires Ready(gates, order, inputs, g0) && SameShape(g, g0)
    ensures Evaluable(gates, order, g)
  {
  }

  /** The order leaves out the primary inputs and every signal of level 0. */
  lemma ReadyOffOrder(gates: GateMap, order: seq<nat>, inputs: set<nat>, g0: SignalMap, g: SignalMap)
    requires Ready(gates, order, inputs, g0) && SameShape(g, g0)
    ensures forall s :: s in inputs ==> s !in order
    ensures forall s :: s in g && g[s].level == 0 ==> s !in order
  {
  }

  /** After the pass every signal of positive level holds its gate's value. */
  lemma PassSettledLevels(gates: GateMap, order: seq<nat>, inputs: set<nat>, g0: SignalMap, g: SignalMap, st: SignalMap)
    requires Ready(gates, order, inputs, g0) && SameShape(g, g0) && Evaluable(gates, order, g)
    requires st == Pass(gates, order, g) && FixedPoint(gates, order, st)
    ensures SameShape(st, g0)
    ensures forall s :: s in st && st[s].level > 0 ==> s in gates && ArityOk(gates[s]) && st[s].value == Evaluate(gates[s], st)
  {
    forall s | s in st && st[s].level > 0
      ensures s in gates && ArityOk(gates[s]) && st[s].value == Evaluate(gates[s], st)
    {
      assert s in g0 && g0[s].level > 0;
      assert s in order;
    }
  }

  /** `st` has the signals, users and levels of `g`, and the values of `g`
      outside `order`: what a pass over `order` changes and keeps. */
  ghost predicate KeptOff(order: seq<nat>, g: SignalMap, st: SignalMap)
  {
    && st.Keys == g.Keys
    && forall s :: s in g ==> st[s].users == g[s].users && st[s].level == g[s].level && (s !in order ==> st[s].value == g[s].value)
  }

  /** A state that keeps every signal outside the order keeps the values of
      the primary inputs. */
  lemma PassKeepsInputs(order: seq<nat>, inputs: set<nat>, g: SignalMap, st: SignalMap)
    requires KeptOff(order, g, st) && inputs <= g.Keys
    requires forall s :: s in inputs ==> s !in order
    ensures InputValues(st, AscendingIds(inputs)) == InputValues(g, AscendingIds(inputs))
  {
    var ids := AscendingIds(inputs);
    forall k | 0 <= k < |ids|
      ensures Value(st, ids[k]) == Value(g, ids[k])
    {
      assert ids[k] in inputs;
    }
  }

  /** ... and keeps the other signals of level 0 false. */
  lemma PassKeepsQuiet(order: seq<nat>, inputs: set<nat>, g: SignalMap, st: SignalMap)
    requires KeptOff(order, g, st) && Quiet(inputs, g)
    requires forall s :: s in g && g[s].level == 0 ==> s !in order
    ensures Quiet(inputs, st)
  {
  }

  /** The next combination keeps the shape and leaves the other signals of
      level 0 false. */
  lemma NextKeepsShape(inputs: set<nat>, g0: SignalMap, st: SignalMap, r: SignalMap)
    requires inputs <= g0.Keys && SameShape(st, g0) && Quiet(inputs, st)
    requires InputsOnly(st, inputs, r)
    ensures SameShape(r, g0) && Quiet(inputs, r)
  {
  }

  /** Row `n` was printed in state `n`, which is the state of that row. */
  ghost predicate Rows(gates: GateMap, inputs: set<nat>, g0: SignalMap, rows: seq<seq<bool>>, states: seq<SignalMap>)
  {
    && |states| == |rows|
    && forall n :: 0 <= n < |rows| ==> RowOk(gates, inputs, g0, rows[n], states[n], n)
  }

  /** `row` is what is printed in `st`, the state of row `n`. */
  ghost predicate RowOk(gates: GateMap, inputs: set<nat>, g0: SignalMap, row: seq<bool>, st: SignalMap, n: nat)
  {
    row == Snapshot(st) && RowState(gates, inputs, g0, st, n)
  }

  lemma RowsExtend(gates: GateMap, inputs: set<nat>, g0: SignalMap, rows: seq<seq<bool>>, states: seq<SignalMap>, row: seq<bool>, st: SignalMap)
    requires Rows(gates, inputs, g0, rows, states) && RowOk(gates, inputs, g0, row, st, |rows|)
    ensures Rows(gates, inputs, g0, rows + [row], states + [st])
  {
    forall n | 0 <= n < |rows| + 1
      ensures RowOk(gates, inputs, g0, (rows + [row])[n], (states + [st])[n], n)
    {
      if n < |rows| {
        assert (rows + [row])[n] == rows[n] && (states + [st])[n] == states[n];
      }
    }
  }

  /** Evaluates the circuit once for every combination of primary input
      values, starting from all of them false: evaluate, record the row, move
      to the next combination, and stop once every combination has been
      used.  Row `n` is printed with the inputs spelling `n`. */
  method Enumerate(gates: GateMap, order: seq<nat>, inputs: set<nat>, g0: SignalMap)
    returns (rows: seq<seq<bool>>, r: SignalMap, ghost states: seq<SignalMap>)
    requires Ready(gates, order, inputs, g0)
    ensures |rows| == Pow2(|inputs|)
    ensures Rows(gates, inputs, g0, rows, states)
    ensures SameShape(r, g0) && forall s :: s in inputs ==> !r[s].value
  {
    ghost var ids := AscendingIds(inputs);
    ToNatZero(InputValues(g0, ids));
    r, rows, states := g0, [], [];
    var more := true;
    while more
      invariant SameShape(r, g0) && Quiet(inputs, r)
      invariant Rows(gates, inputs, g0, rows, states) && |rows| <= Pow2(|inputs|)
      invariant more ==> ToNat(InputValues(r, ids)) == |rows|
      invariant !more ==> |rows| == Pow2(|inputs|) && AllClear(r, ids)
      decreases Pow2(|inputs|) - |rows|
    {
      RowAfterPass(gates, order, inputs, g0, r);
      ToNatBound(InputValues(r, ids));
      var st, row := EvaluateSignals(gates, order, r);
      RowsExtend(gates, inputs, g0, rows, states, row, st);
      rows, states := rows + [row], states + [st];
      more, r := PrepareNextCombination(st, inputs);
      NextKeepsShape(inputs, g0, st, r);
      if more {
        IncrementAdds(InputValues(st, ids));
      } else {
        IncrementWraps(InputValues(st, ids));
      }
    }
    InputsClear(inputs, r);
  }

  /** Every signal of `ids` is false. */
  ghost predicate AllClear(g: SignalMap, ids: seq<nat>)
  {
    forall k :: 0 <= k < |InputValues(g, ids)| ==> !InputValues(g, ids)[k]
  }

  lemma InputsClear(inputs: set<nat>, g: SignalMap)
    requires inputs <= g.Keys && AllClear(g, AscendingIds(inputs))
    ensures forall s :: s in inputs ==> !g[s].value
  {
    var ids := AscendingIds(inputs);
    forall s | s in inputs
      ensures !g[s].value
    {
      var k :| 0 <= k < |ids| && ids[k] == s;
      assert !InputValues(g, ids)[k];
    }
  }

  // ----- The driver -----

  /** Every gate has as many inputs as its kind takes, as the parser
      guarantees. */
  ghost predicate WellFormed(gates: GateMap)
  {
    forall o :: o in gates ==> InputCountOk(gates[o].kind, |gates[o].inputs|)
  }

  /** A gate table read without errors is well formed. */
  lemma ParsedWellFormed(lines: seq<seq<string>>)
    ensures WellFormed(ParseAll(lines).1)
  {
    ParseAllGates(lines);
  }

  /** Runs the simulation on the signal map built from the gate table.  When
      a cycle is found nothing is printed but an error message; otherwise
      the gates are ordered by level and one row is printed for each of the
      2^k combinations of the k primary inputs, row `n` with the inputs
      spelling `n`.  Levels are set as a side effect, the primary inputs
      staying at level 0, and the inputs end up false again. */
  method Execute(gates: GateMap, g: SignalMap) returns (cyclic: bool, rows: seq<seq<bool>>, r: SignalMap, ghost states: seq<SignalMap>)
    requires Built(gates, g) && WellFormed(gates)
    ensures cyclic <==> (g != map[] && InputIds(g, gates) == {}) || CycleReachableFrom(g, InputIds(g, gates))
    ensures cyclic ==> HasCycle(g) && rows == [] && r == g
    ensures !cyclic ==> |rows| == Pow2(|InputIds(g, gates)|)
    ensures !cyclic ==> Rows(gates, InputIds(g, gates), r, rows, states)
    ensures !cyclic ==> r.Keys == g.Keys && forall s :: s in g ==> r[s].users == g[s].users
    ensures !cyclic ==> forall s :: s in InputIds(g, gates) ==> r[s].level == 0 && !r[s].value
    ensures !cyclic ==> forall s, u :: ReachableFrom(g, InputIds(g, gates), s) && u in Users(r, s) ==> Level(r, u) >= Level(r, s) + 1
    ensures !cyclic ==> forall s :: s in r && r[s].level > 0 ==> ReachableFrom(g, InputIds(g, gates), s) && IsUser(g, s)
    ensures !cyclic ==> RaisedExactly(g, InputIds(g, gates), r)
    ensures !cyclic ==> forall n, s :: 0 <= n < |states| && s in gates && ReachableFrom(g, InputIds(g, gates), s) ==>
                          GateHolds(gates, states[n], s)
    ensures !cyclic ==> forall n, s :: 0 <= n < |states| && s in g && !ReachableFrom(g, InputIds(g, gates), s) ==>
                          !Value(states[n], s)
  {
    var inputs := InputIds(g, gates);
    BuiltEdges(gates, g);
    ghost var rank;
    cyclic, rank := HasCircuitCycle(inputs, g);
    if cyclic {
      CycleFound(gates, g);
      return true, [], g, [];
    }
    var order, r1 := GetEvaluationOrder(g, inputs);
    OrderReady(gates, g, inputs, r1, order);
    PositiveReachable(gates, g, inputs, r1);
    rows, r, states := Enumerate(gates, order, inputs, r1);
    RowsSettled(gates, g, inputs, r1, r, rows, states);
    RaisedReshaped(g, inputs, r1, r);
  }

  /** Exact levels carry over to any map of the same shape. */
  lemma RaisedReshaped(g: SignalMap, roots: set<nat>, r1: SignalMap, r: SignalMap)
    requires SameShape(r, r1) && r1.Keys == g.Keys && RaisedExactly(g, roots, r1)
    ensures RaisedExactly(g, roots, r)
  {
    forall u | u in r && u in g && r[u].level > g[u].level
      ensures exists s :: ReachableFrom(g, roots, s) && u in Users(g, s) && Level(r, u) == Level(r, s) + 1
    {
      var s :| ReachableFrom(g, roots, s) && u in Users(g, s) && Level(r1, u) == Level(r1, s) + 1;
      assert Level(r, s) == Level(r1, s);
    }
  }

  /** What the enumeration delivers, restated against the map it returns:
      the relaxation's level facts, and in every printed state the reachable
      gate outputs evaluated and the unreachable signals false. */
  lemma RowsSettled(gates: GateMap, g: SignalMap, inputs: set<nat>, r1: SignalMap, r: SignalMap, rows: seq<seq<bool>>, states: seq<SignalMap>)
    requires Built(gates, g) && inputs == InputIds(g, gates)
    requires LevelsRaised(g, r1) && SameShape(r, r1)
    requires forall s, u :: ReachableFrom(g, inputs, s) && u in Users(r1, s) ==> Level(r1, u) >= Level(r1, s) + 1
    requires forall s :: s in r1 && r1[s].level > 0 ==> ReachableFrom(g, inputs, s) && IsUser(g, s)
    requires Rows(gates, inputs, r1, rows, states)
    ensures r.Keys == g.Keys && forall s :: s in g ==> r[s].users == g[s].users
    ensures Rows(gates, inputs, r, rows, states)
    ensures forall s, u :: ReachableFrom(g, inputs, s) && u in Users(r, s) ==> Level(r, u) >= Level(r, s) + 1
    ensures forall s :: s in r && r[s].level > 0 ==> ReachableFrom(g, inputs, s) && IsUser(g, s)
    ensures forall n, s :: 0 <= n < |states| && s in gates && ReachableFrom(g, inputs, s) ==>
              GateHolds(gates, states[n], s)
    ensures forall n, s :: 0 <= n < |states| && s in g && !ReachableFrom(g, inputs, s) ==> !Value(states[n], s)
  {
    BuiltEdges(gates, g);
    RowsReshaped(gates, inputs, r1, r, rows, states);
    LevelsReshaped(g, inputs, r1, r);
    RowsEvaluateReachable(gates, g, inputs, r, rows, states);
    RowsQuietUnreachable(gates, g, inputs, r, rows, states);
  }

  /** After the relaxation of a built map only users reachable from the
      primary inputs have a positive level. */
  lemma PositiveReachable(gates: GateMap, g: SignalMap, inputs: set<nat>, r: SignalMap)
    requires Built(gates, g) && ChangedReachable(g, inputs, r) && r.Keys == g.Keys
    ensures forall s :: s in r && r[s].level > 0 ==> ReachableFrom(g, inputs, s) && IsUser(g, s)
  {
    forall s | s in r && r[s].level > 0
      ensures ReachableFrom(g, inputs, s) && IsUser(g, s)
    {
      assert r[s] != g[s];
    }
  }

  /** The level facts carry over to any map of the same shape. */
  lemma LevelsReshaped(g: SignalMap, inputs: set<nat>, r1: SignalMap, r: SignalMap)
    requires SameShape(r, r1)
    requires forall s, u :: ReachableFrom(g, inputs, s) && u in Users(r1, s) ==> Level(r1, u) >= Level(r1, s) + 1
    requires forall s :: s in r1 && r1[s].level > 0 ==> ReachableFrom(g, inputs, s) && IsUser(g, s)
    ensures forall s, u :: ReachableFrom(g, inputs, s) && u in Users(r, s) ==> Level(r, u) >= Level(r, s) + 1
    ensures forall s :: s in r && r[s].level > 0 ==> ReachableFrom(g, inputs, s) && IsUser(g, s)
  {
    forall s, u | ReachableFrom(g, inputs, s) && u in Users(r, s)
      ensures Level(r, u) >= Level(r, s) + 1
    {
      assert Users(r, s) == Users(r1, s);
      assert Level(r, u) == Level(r1, u) && Level(r, s) == Level(r1, s);
    }
  }

  /** A gate output that a primary input reaches is the user of a reachable
      signal, so the relaxation gave it a positive level. */
  lemma ReachableGatesPositive(gates: GateMap, g: SignalMap, inputs: set<nat>, r: SignalMap)
    requires Closed(g) && inputs <= g.Keys && forall s :: s in gates ==> s !in inputs
    requires r.Keys == g.Keys && forall s :: s in g ==> r[s].users == g[s].users
    requires forall s, u :: ReachableFrom(g, inputs, s) && u in Users(r, s) ==> Level(r, u) >= Level(r, s) + 1
    ensures forall s :: s in gates && ReachableFrom(g, inputs, s) ==> Level(r, s) > 0
  {
    forall s | s in gates && ReachableFrom(g, inputs, s)
      ensures Level(r, s) > 0
    {
      ReachablePredecessor(g, inputs, s);
      var p :| ReachableFrom(g, inputs, p) && s in Users(g, p);
      ReachableInMap(g, inputs, p);
      assert Users(r, p) == Users(g, p);
      assert Level(r, s) >= Level(r, p) + 1;
    }
  }

  /** In every printed state each signal of positive level holds what its
      gate computes on that state. */
  lemma RowsSettlePositive(gates: GateMap, inputs: set<nat>, r: SignalMap, rows: seq<seq<bool>>, states: seq<SignalMap>)
    requires Rows(gates, inputs, r, rows, states)
    ensures forall n, s :: 0 <= n < |states| && s in r && r[s].level > 0 ==>
              GateHolds(gates, states[n], s)
  {
    forall n, s | 0 <= n < |states| && s in r && r[s].level > 0
      ensures GateHolds(gates, states[n], s)
    {
      assert RowOk(gates, inputs, r, rows[n], states[n], n);
      assert s in states[n] && states[n][s].level == r[s].level;
    }
  }

  /** In every printed state, a gate output that a primary input reaches
      holds what its gate computes on that state. */
  lemma RowsEvaluateReachable(gates: GateMap, g: SignalMap, inputs: set<nat>, r: SignalMap, rows: seq<seq<bool>>, states: seq<SignalMap>)
    requires Closed(g) && inputs == InputIds(g, gates) && gates.Keys <= g.Keys
    requires Rows(gates, inputs, r, rows, states)
    requires r.Keys == g.Keys && forall s :: s in g ==> r[s].users == g[s].users
    requires forall s, u :: ReachableFrom(g, inputs, s) && u in Users(r, s) ==> Level(r, u) >= Level(r, s) + 1
    ensures forall n, s :: 0 <= n < |states| && s in gates && ReachableFrom(g, inputs, s) ==>
              GateHolds(gates, states[n], s)
  {
    ReachableGatesPositive(gates, g, inputs, r);
    RowsSettlePositive(gates, inputs, r, rows, states);
    forall n, s | 0 <= n < |states| && s in gates && ReachableFrom(g, inputs, s)
      ensures GateHolds(gates, states[n], s)
    {
      assert s in r && Level(r, s) == r[s].level;
    }
  }

  /** In every printed state, a signal that no primary input reaches is
      false: its level stayed 0, so no pass evaluated it. */
  lemma RowsQuietUnreachable(gates: GateMap, g: SignalMap, inputs: set<nat>, r: SignalMap, rows: seq<seq<bool>>, states: seq<SignalMap>)
    requires inputs == InputIds(g, gates)
    requires Rows(gates, inputs, r, rows, states) && r.Keys == g.Keys
    requires forall s :: s in r && r[s].level > 0 ==> ReachableFrom(g, inputs, s) && IsUser(g, s)
    ensures forall n, s :: 0 <= n < |states| && s in g && !ReachableFrom(g, inputs, s) ==> !Value(states[n], s)
  {
    forall n, s | 0 <= n < |states| && s in g && !ReachableFrom(g, inputs, s)
      ensures !Value(states[n], s)
    {
      assert s !in inputs by {
        if s in inputs { ReachableRoot(g, inputs, s); }
      }
      assert RowOk(gates, inputs, r, rows[n], states[n], n);
    }
  }

  /** The rows keep their meaning against any map of the same shape. */
  lemma RowsReshaped(gates: GateMap, inputs: set<nat>, g0: SignalMap, r: SignalMap, rows: seq<seq<bool>>, states: seq<SignalMap>)
    requires Rows(gates, inputs, g0, rows, states) && SameShape(r, g0)
    ensures Rows(gates, inputs, r, rows, states)
  {
    forall n | 0 <= n < |rows|
      ensures RowOk(gates, inputs, r, rows[n], states[n], n)
    {
      assert RowOk(gates, inputs, g0, rows[n], states[n], n);
    }
  }

  /** After the relaxation and the sort, the order and the map are ready for
      the enumeration. */
  lemma OrderReady(gates: GateMap, g: SignalMap, inputs: set<nat>, r: SignalMap, order: seq<nat>)
    requires Built(gates, g) && WellFormed(gates) && inputs == InputIds(g, gates)
    requires LevelsRaised(g, r) && ChangedReachable(g, inputs, r)
    requires forall s, u :: ReachableFrom(g, inputs, s) && u in Users(r, s) ==> Level(r, u) >= Level(r, s) + 1
    requires forall s :: s in order <==> s in r && r[s].level > 0
    requires Distinct(order)
    requires forall i, j :: 0 <= i < j < |order| ==> Level(r, order[i]) <= Level(r, order[j])
    ensures Ready(gates, order, inputs, r)
  {
    BuiltEdges(gates, g);
    OrderFollowsEdges(g, inputs, r, order);
    OrderEvaluable(gates, g, r, order);
    OrderTopological(gates, g, r, order);
    InputsAreNotUsers(gates, g);
    forall s | s in inputs
      ensures r[s].level == 0
    {
      assert !IsUser(g, s);
    }
  }

  lemma OrderEvaluable(gates: GateMap, g: SignalMap, r: SignalMap, order: seq<nat>)
    requires Built(gates, g) && WellFormed(gates) && r.Keys == g.Keys
    requires forall s :: s in order ==> s in r && IsUser(g, s)
    ensures Evaluable(gates, order, r)
  {
    UsersAreOutputs(gates, g);
    WellFormedArity(gates);
    forall i | 0 <= i < |order|
      ensures order[i] in gates
    {
      assert order[i] in order;
    }
  }

  /** In a built map every user is a gate output. */
  lemma UsersAreOutputs(gates: GateMap, g: SignalMap)
    requires Built(gates, g)
    ensures forall s :: IsUser(g, s) ==> s in gates
  {
    BuiltEdges(gates, g);
    forall s | IsUser(g, s)
      ensures s in gates
    {
      var p :| p in g && s in g[p].users;
    }
  }

  /** Every gate of a well-formed table has the inputs its kind reads. */
  lemma WellFormedArity(gates: GateMap)
    requires WellFormed(gates)
    ensures forall o :: o in gates ==> ArityOk(gates[o])
  {
  }

  lemma OrderTopological(gates: GateMap, g: SignalMap, r: SignalMap, order: seq<nat>)
    requires Built(gates, g) && r.Keys == g.Keys
    requires forall s :: s in order ==> s in r
    requires forall i, j :: 0 <= i < |order| && 0 <= j < |order| && order[j] in Users(g, order[i]) ==> i < j
    ensures Topological(gates, order)
  {
    BuiltEdges(gates, g);
    forall i, j | 0 <= i < |order| && 0 <= j < |order| && order[i] in gates && order[j] in gates[order[i]].inputs
      ensures j < i
    {
      assert order[j] in order;
      assert order[i] in Users(g, order[j]);
    }
  }

  // ----- Why no primary inputs means a cycle -----

  /** When signals exist and every one is a gate output with at least one
      input, following first inputs backwards never stops, so some signal
      repeats: the circuit has a cycle.  The answer "cyclic" is therefore
      right whenever the search is skipped. */
  lemma NoInputsMeansCycle(gates: GateMap, g: SignalMap)
    requires Built(gates, g) && WellFormed(gates)
    requires g != map[] && InputIds(g, gates) == {}
    ensures HasCycle(g)
  {
    var w := BackWalk(gates, g, |g|);
    Pigeonhole(w, g.Keys);
  }

  /** Whenever Execute reports a cycle, there is one. */
  lemma CycleFound(gates: GateMap, g: SignalMap)
    requires Built(gates, g) && WellFormed(gates)
    requires (g != map[] && InputIds(g, gates) == {}) || CycleReachableFrom(g, InputIds(g, gates))
    ensures HasCycle(g)
  {
    if g != map[] && InputIds(g, gates) == {} {
      NoInputsMeansCycle(gates, g);
    } else {
      var w :| IsWalk(g, w) && w[0] in InputIds(g, gates) && HasRepeat(w);
    }
  }

  /** A walk of `n + 1` signals of the map, built backwards from any signal
      by taking first inputs. */
  lemma {:induction false} BackWalk(gates: GateMap, g: SignalMap, n: nat) returns (w: seq<nat>)
    requires Built(gates, g) && WellFormed(gates)
    requires g != map[] && InputIds(g, gates) == {}
    ensures |w| == n + 1 && IsWalk(g, w)
    ensures forall k :: 0 <= k < |w| ==> w[k] in g
    decreases n
  {
    if n == 0 {
      var s :| s in g;
      w := [s];
    } else {
      var w0 := BackWalk(gates, g, n - 1);
      var x := w0[0];
      assert x in gates;
      assert InputCountOk(gates[x].kind, |gates[x].inputs|);
      var i := gates[x].inputs[0];
      assert i in gates[x].inputs;
      BuiltEdges(gates, g);
      assert i in InputsOf(gates, gates.Keys);
      w := [i] + w0;
      assert x in Users(g, i);
      forall k | 0 < k < |w|
        ensures w[k] in Users(g, w[k - 1])
      {
        if k > 1 { assert w[k] == w0[k - 1] && w[k - 1] == w0[k - 2]; }
      }
    }
  }

  /** More positions than distinct values forces a repeat. */
  lemma {:induction false} Pigeonhole(w: seq<nat>, vals: set<nat>)
    requires forall k :: 0 <= k < |w| ==> w[k] in vals
    requires |w| > |vals|
    ensures HasRepeat(w)
    decreases |w|
  {
    var n := |w| - 1;
    var x := w[n];
    var init := w[..n];
    if x in init {
      var k :| 0 <= k < n && init[k] == x;
      assert w[k] == w[n];
    } else {
      forall k | 0 <= k < n
        ensures init[k] in vals - {x}
      {
        assert init[k] == w[k];
      }
      Pigeonhole(init, vals - {x});
      var i, j :| 0 <= i < j < n && init[i] == init[j];
      assert w[i] == w[j];
    }
  }
}
