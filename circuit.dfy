/** Data model of the Nysa simulator: signals, gates and the two tables
    that hold them, plus ordered iteration over signal ids. */
module Circuit {

  datatype Option<+T> = None | Some(value: T)

  /** The six gate kinds a circuit description may use. */
  datatype GateKind = And | Nand | Or | Nor | Xor | Not

  /** A gate: its ordered input signal ids and its kind.  The gate table keys
      each gate by its output signal id. */
  datatype Gate = Gate(inputs: seq<nat>, kind: GateKind)

  /** A signal record: the ids of its users (outputs of the gates that read it),
      its current value and its evaluation level. */
  datatype Signal = Signal(users: seq<nat>, value: bool, level: nat)

  /** The signal map, keyed by signal id. */
  type SignalMap = map<nat, Signal>

  /** The gate table, keyed by output signal id. */
  type GateMap = map<nat, Gate>

  /** A signal as first created: no users, value false, level 0. */
  function NewSignal(): (s: Signal)
    ensures s.users == [] && !s.value && s.level == 0
  {
    Signal([], false, 0)
  }

  /** The spelling of each gate kind in a circuit description. */
  function KindName(k: GateKind): string
  {
    match k
    case And => "AND"
    case Nand => "NAND"
    case Or => "OR"
    case Nor => "NOR"
    case Xor => "XOR"
    case Not => "NOT"
  }

  /** The gate kind a name stands for; None for any other name (where
      `getGateType` in nysa.cc throws). */
  function GateKindOf(name: string): (r: Option<GateKind>)
    ensures r.Some? ==> KindName(r.value) == name
  {
    if name == "AND" then Some(And)
    else if name == "NAND" then Some(Nand)
    else if name == "OR" then Some(Or)
    else if name == "NOR" then Some(Nor)
    else if name == "XOR" then Some(Xor)
    else if name == "NOT" then Some(Not)
    else None
  }

  /** Every kind's name is recognised as that kind: the two functions are inverse. */
  lemma GateKindOfName(k: GateKind)
    ensures GateKindOf(KindName(k)) == Some(k)
  {
    match k
    case And =>
    case Nand => assert KindName(k) != "AND";
    case Or => assert KindName(k) != "AND" && KindName(k) != "NAND";
    case Nor => assert KindName(k) != "AND" && KindName(k) != "NAND" && KindName(k) != "OR";
    case Xor => assert KindName(k)[0] == 'X';
    case Not => assert KindName(k)[1] == 'O' && KindName(k)[0] == 'N' && |KindName(k)| == 3;
  }

  /** The record of signal `s`; a signal that is not in the map reads as a
      freshly created one, as `operator[]` on the program's ordered map does
      in nysa.cc. */
  function SignalAt(g: SignalMap, s: nat): Signal
  {
    if s in g then g[s] else NewSignal()
  }

  /** The users of signal `s`. */
  function Users(g: SignalMap, s: nat): seq<nat>
  {
    SignalAt(g, s).users
  }

  /** The current value of signal `s`. */
  function Value(g: SignalMap, s: nat): bool
  {
    SignalAt(g, s).value
  }

  /** The evaluation level of signal `s`. */
  function Level(g: SignalMap, s: nat): nat
  {
    SignalAt(g, s).level
  }

  /** Every user id recorded in the map names a signal of the map. */
  ghost predicate Closed(g: SignalMap)
  {
    forall s, u :: s in g && u in g[s].users ==> u in g
  }

  /** The ids that occur in `s`. */
  ghost function Elems(s: seq<nat>): set<nat>
  {
    set x | x in s
  }

  /** Every id that occurs as an input of a gate whose output is in `outs`. */
  ghost function InputsOf(gates: GateMap, outs: set<nat>): set<nat>
  {
    set o, i | o in outs && o in gates && i in gates[o].inputs :: i
  }

  /** Every id that occurs as an input of some gate. */
  ghost function AllInputs(gates: GateMap): set<nat>
  {
    InputsOf(gates, gates.Keys)
  }

  /** How many times `s` occurs among the inputs of the gate producing `o`. */
  function Occurrences(gates: GateMap, o: nat, s: nat): nat
  {
    if o in gates then multiset(gates[o].inputs)[s] else 0
  }

  /** A sequence of ids in strictly ascending order. */
  predicate Ascending(ids: seq<nat>)
  {
    forall i, j :: 0 <= i < j < |ids| ==> ids[i] < ids[j]
  }

  lemma LeastOf(s: set<nat>) returns (m: nat)
    requires s != {}
    ensures m in s && forall x :: x in s ==> m <= x
    decreases |s|
  {
    var x :| x in s;
    if s == {x} {
      m := x;
    } else {
      var rest := s - {x};
      var r := LeastOf(rest);
      m := if x < r then x else r;
      forall y | y in s
        ensures m <= y
      {
        if y != x { assert y in rest; }
      }
    }
  }

  lemma MinExists(s: set<nat>)
    requires s != {}
    ensures exists m :: m in s && forall x :: x in s ==> m <= x
  {
    var m := LeastOf(s);
  }

  /** The least id of a non-empty set. */
  function Min(s: set<nat>): (m: nat)
    requires s != {}
    ensures m in s && forall x :: x in s ==> m <= x
  {
    MinExists(s);
    var m :| m in s && forall x :: x in s ==> m <= x;
    m
  }

  /** The ids of a set in ascending order: the order in which an ordered set or
      an ordered map of signals is iterated. */
  function AscendingIds(s: set<nat>): (ids: seq<nat>)
    ensures Ascending(ids)
    ensures |ids| == |s|
    ensures forall x :: x in ids <==> x in s
    decreases |s|
  {
    if s == {} then []
    else
      var m := Min(s);
      var rest := AscendingIds(s - {m});
      assert forall x :: x in rest ==> m < x;
      [m] + rest
  }
}
