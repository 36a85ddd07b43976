/** Reading a circuit description into the gate table, and building the
    signal map from the gate table.  Lines arrive already split into
    whitespace-separated tokens. */
module Parser {
  import opened Circuit

  // ----- Token grammar -----

  predicate IsDigit(c: char)
  {
    '0' <= c <= '9'
  }

  predicate AllDigits(t: string)
  {
    forall i :: 0 <= i < |t| ==> IsDigit(t[i])
  }

  function DigitValue(c: char): nat
    requires IsDigit(c)
  {
    c as int - '0' as int
  }

  function DigitChar(d: nat): (c: char)
    requires d < 10
    ensures IsDigit(c) && DigitValue(c) == d
  {
    ('0' as int + d) as char
  }

  function Pow10(k: nat): (p: nat)
    ensures p >= 1
  {
    if k == 0 then 1 else 10 * Pow10(k - 1)
  }

  /** The largest id plus one: ids have at most nine digits. */
  const IdLimit: nat := 1_000_000_000

  /** An id token: a digit 1-9 followed by at most eight digits. */
  predicate IsIdToken(t: string)
  {
    1 <= |t| <= 9 && '1' <= t[0] <= '9' && AllDigits(t)
  }

  /** The number a string of decimal digits denotes. */
  function DecimalValue(t: string): nat
    requires AllDigits(t)
    decreases |t|
  {
    if t == [] then 0
    else 10 * DecimalValue(t[..|t| - 1]) + DigitValue(t[|t| - 1])
  }

  /** The decimal spelling of `n`, without leading zeros. */
  function Decimal(n: nat): string
    decreases n
  {
    if n < 10 then [DigitChar(n)] else Decimal(n / 10) + [DigitChar(n % 10)]
  }

  /** How many inputs a gate of each kind takes: exactly two for XOR, exactly
      one for NOT, at least two for AND, NAND, OR and NOR. */
  predicate InputCountOk(kind: GateKind, n: nat)
  {
    match kind
    case Xor => n == 2
    case Not => n == 1
    case _ => n >= 2
  }

  /** A line is a gate name, an output id and the input ids, as many as the
      gate kind takes. */
  predicate IsLineValid(tokens: seq<string>)
  {
    && |tokens| >= 2
    && GateKindOf(tokens[0]).Some?
    && (forall i :: 1 <= i < |tokens| ==> IsIdToken(tokens[i]))
    && InputCountOk(GateKindOf(tokens[0]).value, |tokens| - 2)
  }

  /** The output id of a valid line. */
  function OutputId(tokens: seq<string>): nat
    requires IsLineValid(tokens)
  {
    DecimalValue(tokens[1])
  }

  /** The gate a valid line declares. */
  function GateOf(tokens: seq<string>): Gate
    requires IsLineValid(tokens)
  {
    Gate(seq(|tokens| - 2, i requires 0 <= i < |tokens| - 2 => DecimalValue(tokens[i + 2])),
         GateKindOf(tokens[0]).value)
  }

  /** The tokens of the line that declares `gate` with output `o`. */
  function FormatLine(o: nat, gate: Gate): seq<string>
  {
    [KindName(gate.kind), Decimal(o)]
      + seq(|gate.inputs|, i requires 0 <= i < |gate.inputs| => Decimal(gate.inputs[i]))
  }

  lemma {:induction false} DecimalWellFormed(n: nat)
    ensures 1 <= |Decimal(n)| && AllDigits(Decimal(n))
    ensures DecimalValue(Decimal(n)) == n
    ensures n >= 1 ==> Decimal(n)[0] != '0'
    decreases n
  {
    var t := Decimal(n);
    if n >= 10 {
      DecimalWellFormed(n / 10);
      var p := Decimal(n / 10);
      assert t == p + [DigitChar(n % 10)];
      assert t[..|t| - 1] == p;
    }
  }

  lemma {:induction false} DecimalLength(n: nat, k: nat)
    requires n < Pow10(k) && k >= 1
    ensures |Decimal(n)| <= k
    decreases n
  {
    if n >= 10 {
      DecimalLength(n / 10, k - 1);
    }
  }

  /** The digits of an id token without leading zero spell exactly its value. */
  lemma {:induction false} DecimalOfValue(t: string)
    requires 1 <= |t| && AllDigits(t) && t[0] != '0'
    ensures 1 <= DecimalValue(t) < Pow10(|t|)
    ensures Decimal(DecimalValue(t)) == t
    decreases |t|
  {
    var d := DigitValue(t[|t| - 1]);
    if |t| > 1 {
      var p := t[..|t| - 1];
      DecimalOfValue(p);
      var v := DecimalValue(t);
      assert v == 10 * DecimalValue(p) + d;
      assert v / 10 == DecimalValue(p) && v % 10 == d;
      assert t == p + [t[|t| - 1]];
    }
  }

  /** Writing a gate out as a line and reading it back gives the same gate,
      whenever its ids are in range and it has as many inputs as its kind
      takes. */
  lemma FormatThenParse(o: nat, gate: Gate)
    requires 1 <= o < IdLimit
    requires forall i :: i in gate.inputs ==> 1 <= i < IdLimit
    requires InputCountOk(gate.kind, |gate.inputs|)
    ensures IsLineValid(FormatLine(o, gate))
    ensures OutputId(FormatLine(o, gate)) == o && GateOf(FormatLine(o, gate)) == gate
  {
    var t := FormatLine(o, gate);
    GateKindOfName(gate.kind);
    forall i | 1 <= i < |t|
      ensures IsIdToken(t[i]) && DecimalValue(t[i]) == (if i == 1 then o else gate.inputs[i - 2])
    {
      var n := if i == 1 then o else gate.inputs[i - 2];
      assert i > 1 ==> gate.inputs[i - 2] in gate.inputs;
      assert t[i] == Decimal(n);
      DecimalIdToken(n);
    }
    assert GateOf(t).inputs == gate.inputs;
  }

  /** An id in range is written as an id token that reads back as itself. */
  lemma DecimalIdToken(n: nat)
    requires 1 <= n < IdLimit
    ensures IsIdToken(Decimal(n)) && DecimalValue(Decimal(n)) == n
  {
    assert Pow10(9) == IdLimit;
    DecimalWellFormed(n);
    DecimalLength(n, 9);
  }

  /** Reading a valid line and writing it back out gives the same tokens; the
      ids read lie in [1, IdLimit). */
  lemma ParseThenFormat(tokens: seq<string>)
    requires IsLineValid(tokens)
    ensures FormatLine(OutputId(tokens), GateOf(tokens)) == tokens
    ensures 1 <= OutputId(tokens) < IdLimit
    ensures forall i :: i in GateOf(tokens).inputs ==> 1 <= i < IdLimit
  {
    var t := FormatLine(OutputId(tokens), GateOf(tokens));
    assert Pow10(9) == IdLimit;
    forall i | 1 <= i < |tokens|
      ensures 1 <= DecimalValue(tokens[i]) < IdLimit && Decimal(DecimalValue(tokens[i])) == tokens[i]
    {
      DecimalOfValue(tokens[i]);
      Pow10Monotone(|tokens[i]|, 9);
    }
    assert KindName(GateKindOf(tokens[0]).value) == tokens[0];
    assert |t| == |tokens|;
    forall i | 0 <= i < |t| ensures t[i] == tokens[i] {
    }
  }

  lemma Pow10Monotone(a: nat, b: nat)
    requires a <= b
    ensures Pow10(a) <= Pow10(b)
    decreases b
  {
    if a < b { Pow10Monotone(a, b - 1); }
  }

  // ----- The gate table -----

  /** How one line was taken: accepted, rejected by the grammar, or rejected
      because its output id already has a gate. */
  datatype LineStatus = Accepted | Malformed | MultipleOutputs(output: nat)

  /** Line `t` is valid and declares output `o`. */
  predicate Declares(t: seq<string>, o: nat)
  {
    IsLineValid(t) && OutputId(t) == o
  }

  /** Reads one line into the gate table.  A valid line whose output id is not
      yet a key adds exactly that one entry; every other line leaves the table
      as it was. */
  function ParseGate(tokens: seq<string>, gates: GateMap): (r: (LineStatus, GateMap))
    ensures r.0 == Accepted <==> IsLineValid(tokens) && OutputId(tokens) !in gates
    ensures r.0 == Malformed <==> !IsLineValid(tokens)
    ensures r.0.MultipleOutputs? ==> r.0.output == OutputId(tokens) && r.0.output in gates
    ensures r.0 != Accepted ==> r.1 == gates
    ensures r.0 == Accepted ==>
              && r.1.Keys == gates.Keys + {OutputId(tokens)}
              && r.1[OutputId(tokens)] == GateOf(tokens)
              && forall o :: o in gates ==> r.1[o] == gates[o]
  {
    if !IsLineValid(tokens) then (Malformed, gates)
    else
      var o := OutputId(tokens);
      if o in gates then (MultipleOutputs(o), gates)
      else (Accepted, gates[o := GateOf(tokens)])
  }

  /** Line `n` is the first valid line that declares its output id. */
  predicate FirstDeclaration(lines: seq<seq<string>>, n: nat)
    requires n < |lines|
  {
    IsLineValid(lines[n]) &&
    forall m :: 0 <= m < n ==> !Declares(lines[m], OutputId(lines[n]))
  }

  /** Every line is valid and no two lines declare the same output id. */
  predicate AllLinesAccepted(lines: seq<seq<string>>)
  {
    && (forall n :: 0 <= n < |lines| ==> IsLineValid(lines[n]))
    && (forall m, n :: 0 <= m < n < |lines| ==> !Declares(lines[m], OutputId(lines[n])))
  }

  lemma AcceptedExtend(prefix: seq<seq<string>>, t: seq<string>)
    ensures AllLinesAccepted(prefix + [t]) <==>
              && AllLinesAccepted(prefix)
              && IsLineValid(t)
              && forall m :: 0 <= m < |prefix| ==> !Declares(prefix[m], OutputId(t))
  {
    var all := prefix + [t];
    assert forall n :: 0 <= n < |prefix| ==> all[n] == prefix[n];
    assert all[|prefix|] == t;
  }

  /** The gate table and success flag after reading `lines` in order, each
      line through ParseGate. */
  function ParseAll(lines: seq<seq<string>>): (bool, GateMap)
    decreases |lines|
  {
    if lines == [] then (true, map[])
    else
      var prev := ParseAll(lines[..|lines| - 1]);
      var r := ParseGate(lines[|lines| - 1], prev.1);
      (prev.0 && r.0 == Accepted, r.1)
  }

  /** The table ParseAll yields holds exactly the output ids that some valid
      line declares. */
  lemma {:induction false} ParseAllKeys(lines: seq<seq<string>>)
    ensures forall o :: o in ParseAll(lines).1 <==> exists n :: 0 <= n < |lines| && Declares(lines[n], o)
    decreases |lines|
  {
    if lines != [] {
      var k := |lines| - 1;
      var prefix := lines[..k];
      ParseAllKeys(prefix);
      assert forall n :: 0 <= n < k ==> lines[n] == prefix[n];
    }
  }

  /** The flag ParseAll yields is true exactly when every line was accepted. */
  lemma {:induction false} ParseAllSuccess(lines: seq<seq<string>>)
    ensures ParseAll(lines).0 <==> AllLinesAccepted(lines)
    decreases |lines|
  {
    if lines != [] {
      var k := |lines| - 1;
      var prefix := lines[..k];
      var t := lines[k];
      assert lines == prefix + [t];
      ParseAllSuccess(prefix);
      ParseAllKeys(prefix);
      AcceptedExtend(prefix, t);
    }
  }

  /** Each output id in the table ParseAll yields carries the gate of the first
      line that declares it: a later duplicate never replaces it. */
  lemma {:induction false} ParseAllFirst(lines: seq<seq<string>>)
    ensures forall n :: 0 <= n < |lines| && FirstDeclaration(lines, n) ==>
              OutputId(lines[n]) in ParseAll(lines).1 && ParseAll(lines).1[OutputId(lines[n])] == GateOf(lines[n])
    decreases |lines|
  {
    if lines != [] {
      var k := |lines| - 1;
      var prefix := lines[..k];
      var t := lines[k];
      ParseAllFirst(prefix);
      ParseAllKeys(prefix);
      var gates := ParseAll(prefix).1;
      assert forall n :: 0 <= n < k ==> lines[n] == prefix[n];
      forall n | 0 <= n < k && FirstDeclaration(lines, n)
        ensures FirstDeclaration(prefix, n)
      {
      }
      if IsLineValid(t) {
        var o := OutputId(t);
        assert FirstDeclaration(lines, k) ==> o !in gates;
      }
    }
  }

  /** Reads every line into the gate table, going on past rejected lines; the
      result is true exactly when every line was accepted. */
  method ParseGates(lines: seq<seq<string>>) returns (success: bool, gates: GateMap)
    ensures (success, gates) == ParseAll(lines)
    ensures success <==> AllLinesAccepted(lines)
    ensures forall n :: 0 <= n < |lines| && FirstDeclaration(lines, n) ==>
              OutputId(lines[n]) in gates && gates[OutputId(lines[n])] == GateOf(lines[n])
  {
    success := true;
    gates := map[];
    var k := 0;
    while k < |lines|
      invariant 0 <= k <= |lines|
      invariant (success, gates) == ParseAll(lines[..k])
    {
      var r := ParseGate(lines[k], gates);
      success := success && r.0 == Accepted;
      gates := r.1;
      assert lines[..k + 1][..k] == lines[..k];
      k := k + 1;
    }
    assert lines[..k] == lines;
    ParseAllSuccess(lines);
    ParseAllFirst(lines);
  }

  // ----- The signal map -----

  /** `r` keeps every signal of `signals` and holds only fresh signals besides. */
  ghost predicate FreshExtension(r: SignalMap, signals: SignalMap)
  {
    && (forall s :: s in signals ==> s in r && r[s] == signals[s])
    && (forall s :: s in r && s !in signals ==> r[s] == NewSignal())
  }

  /** Adds a fresh signal for every gate output and every gate input that is
      not yet in the map; signals already present are kept as they are. */
  method AddAllSignals(signals: SignalMap, gates: GateMap) returns (r: SignalMap)
    ensures r.Keys == signals.Keys + gates.Keys + AllInputs(gates)
    ensures forall s :: s in signals ==> r[s] == signals[s]
    ensures forall s :: s in r && s !in signals ==> r[s] == NewSignal()
  {
    r := signals;
    var remaining := gates.Keys;
    ghost var done: set<nat> := {};
    while remaining != {}
      invariant remaining <= gates.Keys && done == gates.Keys - remaining
      invariant r.Keys == signals.Keys + done + InputsOf(gates, done)
      invariant FreshExtension(r, signals)
      decreases remaining
    {
      var o :| o in remaining;
      r := AddGateSignals(r, o, gates[o].inputs, signals);
      InputsOfAdd(gates, done, o);
      remaining := remaining - {o};
      done := done + {o};
    }
    assert done == gates.Keys;
  }

  /** Adds a fresh signal for the output `o` and for each of `ins` that is not
      yet in the map. */
  method AddGateSignals(r0: SignalMap, o: nat, ins: seq<nat>, ghost signals: SignalMap) returns (r: SignalMap)
    requires FreshExtension(r0, signals)
    ensures r.Keys == r0.Keys + {o} + Elems(ins)
    ensures FreshExtension(r, signals)
  {
    r := r0;
    if o !in r {
      r := r[o := NewSignal()];
    }
    for k := 0 to |ins|
      invariant r.Keys == r0.Keys + {o} + Elems(ins[..k])
      invariant FreshExtension(r, signals)
    {
      if ins[k] !in r {
        r := r[ins[k] := NewSignal()];
      }
      assert ins[..k + 1] == ins[..k] + [ins[k]];
    }
    assert ins[..|ins|] == ins;
  }

  lemma InputsOfAdd(gates: GateMap, done: set<nat>, o: nat)
    requires o in gates
    ensures InputsOf(gates, done + {o}) == InputsOf(gates, done) + Elems(gates[o].inputs)
  {
    forall x | x in gates[o].inputs
      ensures x in InputsOf(gates, done + {o})
    {
    }
  }

  /** Appends each gate's output id to the users of each of its inputs, once
      per occurrence of that input.  Afterwards `o` occurs among the users of
      `s` exactly as often as before plus as often as `s` is an input of the
      gate producing `o`; values and levels are untouched, and an input not
      yet in the map gets a fresh record first. */
  method SetAllSignalsUsers(signals: SignalMap, gates: GateMap) returns (r: SignalMap)
    ensures r.Keys == signals.Keys + AllInputs(gates)
    ensures forall s :: s in r ==> r[s].value == Value(signals, s) && r[s].level == SignalAt(signals, s).level
    ensures forall s, o :: multiset(Users(r, s))[o] == multiset(Users(signals, s))[o] + Occurrences(gates, o, s)
  {
    r := signals;
    var remaining := gates.Keys;
    ghost var done: set<nat> := {};
    while remaining != {}
      invariant remaining <= gates.Keys && done == gates.Keys - remaining
      invariant r.Keys == signals.Keys + InputsOf(gates, done)
      invariant forall s :: s in r ==> r[s].value == Value(signals, s) && r[s].level == SignalAt(signals, s).level
      invariant forall s, o :: multiset(Users(r, s))[o] ==
                  multiset(Users(signals, s))[o] + (if o in done then Occurrences(gates, o, s) else 0)
      decreases remaining
    {
      var o :| o in remaining;
      r := PushUser(r, o, gates[o].inputs);
      InputsOfAdd(gates, done, o);
      remaining := remaining - {o};
      done := done + {o};
    }
    assert done == gates.Keys;
  }

  /** Appends `o` to the users of `id`, creating `id` first when it is not in
      the map: `o` occurs once more among the users of `id`, and nothing else
      changes. */
  function AddUser(g: SignalMap, id: nat, o: nat): (r: SignalMap)
    ensures r.Keys == g.Keys + {id}
    ensures forall s :: s in r ==> r[s].value == Value(g, s) && r[s].level == SignalAt(g, s).level
    ensures forall s, u :: multiset(Users(r, s))[u] ==
              multiset(Users(g, s))[u] + (if s == id && u == o then 1 else 0)
  {
    var sig := SignalAt(g, id);
    var r := g[id := sig.(users := sig.users + [o])];
    assert Users(r, id) == Users(g, id) + [o];
    assert forall s :: s != id ==> Users(r, s) == Users(g, s);
    r
  }

  /** Appends `o` to the users of each of `ins`, in order. */
  method PushUser(r0: SignalMap, o: nat, ins: seq<nat>) returns (r: SignalMap)
    ensures Pushed(r0, o, ins, r)
  {
    r := r0;
    assert multiset(ins[..0]) == multiset{};
    for k := 0 to |ins|
      invariant Pushed(r0, o, ins[..k], r)
    {
      PushedStep(r0, o, ins[..k], r, ins[k]);
      assert ins[..k + 1] == ins[..k] + [ins[k]];
      r := AddUser(r, ins[k], o);
    }
    assert ins[..|ins|] == ins;
  }

  /** `r` is `r0` with `o` appended to the users of each of `ins`: the ids of
      `ins` are added, values and levels are kept, and `o` occurs among the
      users of each `s` once more for each occurrence of `s` in `ins`. */
  ghost predicate Pushed(r0: SignalMap, o: nat, ins: seq<nat>, r: SignalMap)
  {
    && r.Keys == r0.Keys + Elems(ins)
    && (forall s :: s in r ==> r[s].value == Value(r0, s) && r[s].level == SignalAt(r0, s).level)
    && (forall s, u :: multiset(Users(r, s))[u] ==
          multiset(Users(r0, s))[u] + (if u == o then multiset(ins)[s] else 0))
  }

  lemma PushedStep(r0: SignalMap, o: nat, ins: seq<nat>, r: SignalMap, x: nat)
    requires Pushed(r0, o, ins, r)
    ensures Pushed(r0, o, ins + [x], AddUser(r, x, o))
  {
    var r' := AddUser(r, x, o);
    assert multiset(ins + [x]) == multiset(ins) + multiset{x};
    assert Elems(ins + [x]) == Elems(ins) + {x};
    forall s, u
      ensures multiset(Users(r', s))[u] ==
              multiset(Users(r0, s))[u] + (if u == o then multiset(ins + [x])[s] else 0)
    {
    }
  }

  /** The signal map built from a gate table: one fresh signal (value false,
      level 0) for every gate output and every gate input, and as users of
      each signal `s` exactly the outputs of the gates that read `s`, each as
      often as it reads `s`. */
  ghost predicate Built(gates: GateMap, g: SignalMap)
  {
    && g.Keys == gates.Keys + AllInputs(gates)
    && (forall s :: s in g ==> !g[s].value && g[s].level == 0)
    && (forall s, o :: s in g ==> multiset(g[s].users)[o] == Occurrences(gates, o, s))
  }

  /** Builds the signal map of a gate table. */
  method BuildSignalGraph(gates: GateMap) returns (signals: SignalMap)
    ensures Built(gates, signals)
  {
    signals := AddAllSignals(map[], gates);
    assert forall s :: Users(signals, s) == [];
    signals := SetAllSignalsUsers(signals, gates);
  }

  /** In a built map, `u` is a user of `s` exactly when `u` is a gate output
      and `s` is one of its inputs; so every user is a signal of the map. */
  lemma BuiltEdges(gates: GateMap, g: SignalMap)
    requires Built(gates, g)
    ensures forall s, u :: s in g ==> (u in g[s].users <==> u in gates && s in gates[u].inputs)
    ensures Closed(g)
  {
    forall s, u | s in g
      ensures u in g[s].users <==> u in gates && s in gates[u].inputs
    {
      assert multiset(g[s].users)[u] == Occurrences(gates, u, s);
    }
  }

  /** Reads the whole description and, when every line was accepted, builds
      the signal map; otherwise the signal map stays empty. */
  method ParseData(lines: seq<seq<string>>) returns (ok: bool, gates: GateMap, signals: SignalMap)
    ensures (ok, gates) == ParseAll(lines)
    ensures ok <==> AllLinesAccepted(lines)
    ensures ok ==> Built(gates, signals)
    ensures !ok ==> signals == map[]
  {
    ok, gates := ParseGates(lines);
    signals := map[];
    if ok {
      signals := BuildSignalGraph(gates);
    }
  }

  /** Every gate in the table has as many inputs as its kind takes, and all
      its ids lie in [1, IdLimit). */
  lemma {:induction false} ParseAllGates(lines: seq<seq<string>>)
    ensures forall o :: o in ParseAll(lines).1 ==>
              && InputCountOk(ParseAll(lines).1[o].kind, |ParseAll(lines).1[o].inputs|)
              && 1 <= o < IdLimit
              && forall i :: i in ParseAll(lines).1[o].inputs ==> 1 <= i < IdLimit
    decreases |lines|
  {
    if lines != [] {
      var t := lines[|lines| - 1];
      ParseAllGates(lines[..|lines| - 1]);
      if IsLineValid(t) {
        ParseThenFormat(t);
      }
    }
  }
}
