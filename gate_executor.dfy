/** Gate evaluation: a read-only function from a gate and the current signal
    values to the gate's output value. */
module GateExecutor {
  import opened Circuit

  /** What each gate kind computes from the ordered values of its inputs. */
  function Apply(kind: GateKind, vals: seq<bool>): bool
    requires kind == Not ==> |vals| >= 1
    requires kind == Xor ==> |vals| >= 2
  {
    match kind
    case And => forall i :: 0 <= i < |vals| ==> vals[i]
    case Nand => !(forall i :: 0 <= i < |vals| ==> vals[i])
    case Or => exists i :: 0 <= i < |vals| && vals[i]
    case Nor => !(exists i :: 0 <= i < |vals| && vals[i])
    case Xor => vals[0] != vals[1]
    case Not => !vals[0]
  }

  /** The current values of the signals `ids`, in order. */
  function InputValues(g: SignalMap, ids: seq<nat>): (vals: seq<bool>)
    ensures |vals| == |ids|
    ensures forall i :: 0 <= i < |ids| ==> vals[i] == Value(g, ids[i])
  {
    seq(|ids|, i requires 0 <= i < |ids| => Value(g, ids[i]))
  }

  /** A gate has the inputs its kind reads: one for NOT, two for XOR. */
  predicate ArityOk(gate: Gate)
  {
    && (gate.kind == Not ==> |gate.inputs| >= 1)
    && (gate.kind == Xor ==> |gate.inputs| >= 2)
  }

  /** Conjunction of the inputs' values, accumulated from the first input on;
      true when there are no inputs. */
  function GateAnd(ids: seq<nat>, g: SignalMap): (r: bool)
    ensures r <==> forall i :: 0 <= i < |ids| ==> Value(g, ids[i])
    decreases |ids|
  {
    if ids == [] then true
    else GateAnd(ids[..|ids| - 1], g) && Value(g, ids[|ids| - 1])
  }

  /** Disjunction of the inputs' values, accumulated from the first input on;
      false when there are no inputs. */
  function GateOr(ids: seq<nat>, g: SignalMap): (r: bool)
    ensures r <==> exists i :: 0 <= i < |ids| && Value(g, ids[i])
    decreases |ids|
  {
    if ids == [] then false
    else GateOr(ids[..|ids| - 1], g) || Value(g, ids[|ids| - 1])
  }

  /** The negation of AND: true exactly when some input is false. */
  function GateNand(ids: seq<nat>, g: SignalMap): (r: bool)
    ensures r <==> exists i :: 0 <= i < |ids| && !Value(g, ids[i])
  {
    !GateAnd(ids, g)
  }

  /** The negation of OR: true exactly when every input is false. */
  function GateNor(ids: seq<nat>, g: SignalMap): (r: bool)
    ensures r <==> forall i :: 0 <= i < |ids| ==> !Value(g, ids[i])
  {
    !GateOr(ids, g)
  }

  /** Reads only the first input. */
  function GateNot(ids: seq<nat>, g: SignalMap): (r: bool)
    requires |ids| >= 1
    ensures r == Apply(Not, InputValues(g, ids))
    ensures r == Apply(Not, InputValues(g, ids[..1]))
  {
    !Value(g, ids[0])
  }

  /** Reads only the first two inputs: true exactly when their values
      differ. */
  function GateXor(ids: seq<nat>, g: SignalMap): (r: bool)
    requires |ids| >= 2
    ensures r <==> Value(g, ids[0]) != Value(g, ids[1])
    ensures r == Apply(Xor, InputValues(g, ids[..2]))
  {
    var a := Value(g, ids[0]);
    var b := Value(g, ids[1]);
    (a && !b) || (!a && b)
  }

  /** The value the gate computes from the current signal values. */
  function Evaluate(gate: Gate, g: SignalMap): (r: bool)
    requires ArityOk(gate)
    ensures r == Apply(gate.kind, InputValues(g, gate.inputs))
  {
    match gate.kind
    case And => GateAnd(gate.inputs, g)
    case Or => GateOr(gate.inputs, g)
    case Nand => GateNand(gate.inputs, g)
    case Nor => GateNor(gate.inputs, g)
    case Not => GateNot(gate.inputs, g)
    case Xor => GateXor(gate.inputs, g)
  }

  /** The result depends on nothing but the current values of the gate's own
      inputs: two signal maps that agree on them give the same result. */
  lemma EvaluateLocal(gate: Gate, g1: SignalMap, g2: SignalMap)
    requires ArityOk(gate)
    requires forall i :: i in gate.inputs ==> Value(g1, i) == Value(g2, i)
    ensures Evaluate(gate, g1) == Evaluate(gate, g2)
  {
    assert InputValues(g1, gate.inputs) == InputValues(g2, gate.inputs);
  }

  /** NAND and NOR are the negations of AND and OR on the same inputs. */
  lemma NegatedKinds(ids: seq<nat>, g: SignalMap)
    ensures Evaluate(Gate(ids, Nand), g) == !Evaluate(Gate(ids, And), g)
    ensures Evaluate(Gate(ids, Nor), g) == !Evaluate(Gate(ids, Or), g)
  {
  }

  /** NOT reads only its first input and XOR only its first two: any further
      inputs are ignored. */
  lemma TrailingInputsIgnored(ids: seq<nat>, extra: seq<nat>, g: SignalMap)
    requires |ids| >= 1
    ensures Evaluate(Gate(ids + extra, Not), g) == Evaluate(Gate(ids[..1], Not), g)
    ensures |ids| >= 2 ==> Evaluate(Gate(ids + extra, Xor), g) == Evaluate(Gate(ids[..2], Xor), g)
  {
    assert (ids + extra)[0] == ids[0];
    if |ids| >= 2 { assert (ids + extra)[1] == ids[1]; }
  }
}
