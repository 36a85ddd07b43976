# Nysa: a verified model of a combinational-circuit simulator

Nysa reads a circuit description, one gate per line (`AND`, `NAND`, `OR`,
`NOR`, `XOR` or `NOT`, then the output signal id, then the input signal ids).
It builds a map of signals from it. Each signal has its users (the outputs of
the gates that read it), its current value and its evaluation level. Nysa
then does the following:

- It finds the primary inputs: the signals no gate produces.
- It rejects the circuit when it finds a feedback loop.
- It gives every signal that a primary input reaches an evaluation level:
  one more than the highest level among the reachable signals it reads.
  These equations have only one solution.
  Signals that no primary input reaches keep level 0.
- It orders the gates by level.
- It prints one row of signal values for each of the 2^k combinations of the
  k primary inputs. The inputs count as a binary number whose least
  significant bit is the largest id.

The model has one module per class of the program, plus `Circuit`, `Graph`
and `Counter`:

- `Circuit`: signals, gates, the two tables, and iteration over ids in
  ascending order.
- `Parser`: the arity and id rule on tokens, the gate table, and building
  the signal map.
- `Graph`: walks, reachability, cycles and rankings.
- `CycleFinder`: the depth-first search.
- `EvaluationOrderProvider`: level relaxation and the evaluation order.
- `GateExecutor`: evaluating one gate.
- `Counter`: the inputs as a binary counter.
- `Nysa`: the driver.

Operations that update the signal map step by step are methods with loops
and invariants. The map is passed in and the updated map is returned. Gate
evaluation, the parser's per-line decisions and the counter are functions.

Two behaviours of the program are modelled as written:

- The level queue pushes a user again on every visit, whether or not its
  level changed. Termination is proved from the absence of cycles reachable
  from the primary inputs. The measure is the number of walks still ahead of
  the queue.
- A feedback loop that no primary input reaches is not detected. Nor is
  anything else that no primary input reaches, such as a gate that reads
  only such a loop. All of these signals keep level 0, are never evaluated
  and print false in every row, even where their gate would give true. For
  `NOT 2 1`, `NOT 3 4`, `NOT 4 3` and `NOT 5 3`, signal 5 prints 0 in both
  rows. `Nysa.Execute` says so. `cyclic` is exactly "signals but no
  primary inputs, or a cycle reachable from a primary input". In every
  printed state, each gate output that a primary input reaches holds what
  its gate computes, and every signal that no primary input reaches is
  false.

## Model

| member | source | states |
|---|---|---|
| Circuit.GateKindOf | nysa.cc:69-85 | A recognised name yields the kind whose spelling it is. Any other name yields None, where `getGateType` throws. |
| Circuit.GateKindOfName | nysa.cc:69-85 | Each of the six kinds' names is recognised as that kind, so names and kinds correspond one to one. |
| Circuit.NewSignal | nysa.cc:36-39 | A new signal has no users, is false and has level 0. |
| Circuit.AscendingIds | nysa.cc:44 | The ids of a set as the ordered map iterates them: strictly ascending, each member exactly once, nothing else. |
| GateExecutor.GateAnd | nysa.cc:378-386 | AND is true exactly when every input value is true, so it is true on no inputs. |
| GateExecutor.GateOr | nysa.cc:393-400 | OR is true exactly when some input value is true, so it is false on no inputs. |
| GateExecutor.Evaluate | nysa.cc:355-375 | A gate's value is its kind's boolean function applied to the current values of its inputs, in order. |
| GateExecutor.GateNand | nysa.cc:388-391 | NAND is true exactly when some input value is false. |
| GateExecutor.GateNor | nysa.cc:402-405 | NOR is true exactly when every input value is false. |
| GateExecutor.GateNot | nysa.cc:407-410 | NOT is the table's NOT of the input values, and of the first input value alone. |
| GateExecutor.GateXor | nysa.cc:412-417 | XOR is true exactly when the first two input values differ. It is the table's XOR of those two. |
| GateExecutor.NegatedKinds | nysa.cc:388-405 | NAND and NOR are the exact negations of AND and OR on the same inputs. |
| GateExecutor.TrailingInputsIgnored | nysa.cc:407-417 | NOT reads only its first input and XOR only its first two. Any further inputs do not change the result. |
| GateExecutor.EvaluateLocal | nysa.cc:355-417 | A gate's value depends only on the values of its own inputs. As a function it cannot change the map. |
| Parser.FormatThenParse | nysa.cc:107-113 | A gate with ids from 1 to 999999999 and the arity its kind needs, written as a line, is accepted and read back as the same output and gate. |
| Parser.ParseThenFormat | nysa.cc:107-113 | Every accepted line is the canonical spelling of the gate read from it. Its ids have one to nine digits and no leading zero. |
| Parser.ParseGate | nysa.cc:129-149 | A malformed line is rejected. An output already in the table is reported and leaves the table unchanged. Otherwise exactly one entry, the new gate, is added. |
| Parser.ParseGates | nysa.cc:115-125 | All lines are read. Success means every line was well formed and declared a new output. The first declaration of each output is the one kept. |
| Parser.ParseAllSuccess | nysa.cc:115-125 | The description is accepted exactly when every line is well formed and no output is declared twice. |
| Parser.ParseAllKeys | nysa.cc:115-149 | The table's outputs are exactly the outputs declared on some line. |
| Parser.ParseAllFirst | nysa.cc:140-148 | The gate kept for an output is the one on the line that first declares it. |
| Parser.ParseAllGates | nysa.cc:107-113 | Every gate in the table has the arity its kind needs, and all its ids are between 1 and 999999999. |
| Parser.AddAllSignals | nysa.cc:178-191 | Every gate output and every gate input becomes a signal. Existing signals are kept and new ones are fresh: no users, false, level 0. |
| Parser.AddGateSignals | nysa.cc:180-189 | One gate adds its output and its inputs, each only when missing. |
| Parser.SetAllSignalsUsers | nysa.cc:193-200 | Afterwards output o occurs among the users of s exactly as often as s occurs in o's inputs, on top of what was there. Values and levels are unchanged. |
| Parser.PushUser | nysa.cc:196-198 | Pushing o onto the users of each input adds, for every signal, as many copies of o as the signal occurs among the inputs. |
| Parser.AddUser | nysa.cc:197 | One push adds one occurrence of o to the users of one signal, creating the signal if it is missing. Nothing else changes. |
| Parser.BuildSignalGraph | nysa.cc:98-101 | The map built from a gate table holds exactly its outputs and inputs, all false at level 0, with the users described above. |
| Parser.BuiltEdges | nysa.cc:193-200 | In a built map, u is a user of s exactly when u is a gate output that reads s. Every user is a signal of the map. |
| Parser.ParseData | nysa.cc:95-104 | A fully accepted description yields a built signal map. Otherwise the map stays empty. |
| CycleFinder.HasCircuitCycle | nysa.cc:207-224 | "Cyclic" exactly when there are signals but no primary inputs, or a walk from a primary input repeats a signal. Otherwise a ranking of everything reachable is produced. |
| CycleFinder.SearchRoots | nysa.cc:220-222 | Searching from every primary input in turn finds a reachable cycle if there is one. Otherwise it ranks all of them. |
| CycleFinder.ExistsCycle | nysa.cc:238-261 | A signal on the current path reports a cycle. A signal visited earlier and off the path reports none and changes nothing, so diamonds are not flagged. A reported cycle is real. The path marks are restored on return. |
| CycleFinder.SearchUsers | nysa.cc:254-257 | Visiting every user of the current signal either finds a cycle or ranks each user. |
| Graph.RankingExcludesCycle | nysa.cc:238-261 | A ranking that falls along every edge rules out any cycle reachable from the signals it covers. |
| EvaluationOrderProvider.SetEvaluationLevel | nysa.cc:294-302 | The new level is the larger of the old level and the offered one. Nothing else changes. |
| EvaluationOrderProvider.PushUsers | nysa.cc:319-322 | Every user of the popped signal is raised to at least its level plus one and appended to the queue. Nothing else changes. |
| EvaluationOrderProvider.StepKeepsProgress | nysa.cc:314-323 | Each pop keeps the relaxation invariant and strictly lowers the number of walks ahead of the queue, so the loop ends on an acyclic graph. |
| EvaluationOrderProvider.SetEvaluationLevels | nysa.cc:305-324 | Levels only grow, and only signals reachable from the primary inputs that are users change. On every edge s to u with s reachable, u's level exceeds s's. Every raised level is exactly one more than the level of some reachable signal it reads. |
| EvaluationOrderProvider.JustifiedStep | nysa.cc:317-321 | A pop raises each user to at most one more than the popped signal's level, and levels only grow, so every raised level stays within one of a reachable signal it reads. |
| EvaluationOrderProvider.JustifiedExact | nysa.cc:305-324 | With every edge from a reachable signal rising, that bound is met exactly. |
| EvaluationOrderProvider.LevelsUnique | nysa.cc:305-324 | The relaxation's guarantees fix the levels: any two maps that meet them give every signal the same level. |
| EvaluationOrderProvider.LevelLess | nysa.cc:329-332 | The comparator never orders two pairs both ways. Two pairs are unordered exactly when their levels are equal, whatever their ids. |
| EvaluationOrderProvider.LevelLessStrictWeakOrder | nysa.cc:329-332 | The comparator is irreflexive and transitive, and two pairs are incomparable exactly when their levels are equal. |
| EvaluationOrderProvider.GetEvaluationLevels | nysa.cc:334-348 | The collected pairs are the signals of positive level with their levels, in ascending id order. |
| EvaluationOrderProvider.PositiveLevelsSound | nysa.cc:334-348 | Every collected pair is a signal of the map with its own level, which is positive. |
| EvaluationOrderProvider.PositiveLevelsComplete | nysa.cc:334-348 | Every signal of positive level is collected. |
| EvaluationOrderProvider.SortByLevel | nysa.cc:277-278 | The sort returns a permutation of the pairs in non-decreasing level order. |
| EvaluationOrderProvider.IdsOf | nysa.cc:283-287 | The order is the ids of the sorted pairs, one per pair, in the same order. |
| EvaluationOrderProvider.GetEvaluationOrder | nysa.cc:268-290 | The order holds exactly the signals of positive level, each once, with levels non-decreasing along it. Levels satisfy the relaxation's guarantees, including exactness. |
| EvaluationOrderProvider.OrderFollowsEdges | nysa.cc:268-290 | Every signal in the order is some signal's user, and a user in the order always comes after the signal it reads. |
| Counter.ToNatBound | nysa.cc:463-477 | k input bits spell a number below 2^k. |
| Counter.IncrementCarry | nysa.cc:463-477 | The increment reports another combination exactly when some input was false. |
| Counter.IncrementAdds | nysa.cc:463-477 | When it reports another combination, the inputs spell one more than before. |
| Counter.IncrementWraps | nysa.cc:463-477 | When it reports none, all inputs were true, spelling 2^k - 1, and are all left false. |
| Counter.IncrementAt | nysa.cc:465-474 | The increment keeps the inputs before the last false one, sets that one, and clears every later one. |
| Nysa.InputIds | nysa.cc:441-451 | The primary inputs are exactly the signals of the map that no gate produces. |
| Nysa.InputsAreNotUsers | nysa.cc:441-451 | In a built map no primary input is any signal's user, so primary inputs keep level 0. |
| Nysa.Snapshot | nysa.cc:481-487 | A row has one value per signal. Its i-th entry is the value of the signal with the i-th smallest id. |
| Nysa.CalculateSignalValue | nysa.cc:454-458 | Only the value of id changes, to what its gate computes from the current values. |
| Nysa.Pass | nysa.cc:490-495 | A pass keeps every signal, its users and its level. It leaves every value outside the order unchanged. |
| Nysa.EvaluateSignals | nysa.cc:490-497 | Evaluating the order one gate at a time gives the pass's result. The row is every value in ascending id order. |
| Nysa.PassSettles | nysa.cc:490-497 | With the gates in topological order, every evaluated signal ends up equal to its gate applied to the final values. |
| Nysa.FixedPointUnique | nysa.cc:490-497 | Two such settled states that agree outside the order agree everywhere, so a row depends only on the primary inputs. |
| Nysa.PrepareNextCombination | nysa.cc:463-477 | The inputs in ascending id order are incremented as a binary number, and the result says whether the counter did not wrap. Only inputs' values change. A missing input is created, as indexing does. |
| Nysa.RowAfterPass | nysa.cc:435-436 | Each pass yields the settled state whose inputs spell the current count. Other level-0 signals stay false. |
| Nysa.Enumerate | nysa.cc:435-437 | The do-while prints exactly 2^k rows, one when there are no inputs. Row n is printed in the settled state whose inputs spell n, and the inputs end up false. |
| Nysa.OrderReady | nysa.cc:433-434 | The order and levels computed for an acyclic built circuit give a topological order over the positive-level signals, for gates of the right arity. |
| Nysa.NoInputsMeansCycle | nysa.cc:211-215 | Signals but no primary inputs imply a cycle, because every signal is a gate output with an input. |
| Nysa.CycleFound | nysa.cc:427-431 | Whenever the program reports a cycle, the circuit has one. |
| Nysa.ParsedWellFormed | nysa.cc:504-507 | Every gate of a parsed table has the arity its kind needs, which the driver assumes. |
| Nysa.Execute | nysa.cc:424-438 | Reports a cycle exactly as the search does, printing nothing and changing nothing. Otherwise it prints 2^k rows, row n printed in the state whose inputs spell n. In that state every gate output that a primary input reaches holds what its gate computes, and every signal no primary input reaches is false. Levels rise along every edge from a reachable signal, only reachable users have a positive level, and each positive level is exactly one more than that of a reachable signal it reads. Inputs end at level 0 and false. |
| Nysa.RaisedReshaped | nysa.cc:433-437 | The exact levels carry over to the map the enumeration returns, whose levels are unchanged. |
| Nysa.RowsSettled | nysa.cc:433-437 | The enumeration's rows, restated against the returned map: the relaxation's level facts hold for it, reachable gate outputs are evaluated and unreachable signals are false. |
| Nysa.PositiveReachable | nysa.cc:305-324 | After the relaxation of a built map, only users reachable from a primary input have a positive level. |
| Nysa.ReachableGatesPositive | nysa.cc:314-322 | A gate output that a primary input reaches is raised to a positive level, as the user of a reachable signal. |
| Nysa.RowsSettlePositive | nysa.cc:490-497 | In every printed state, each signal of positive level holds what its gate computes. |
| Nysa.RowsEvaluateReachable | nysa.cc:433-437 | In every printed state, each gate output that a primary input reaches holds what its gate computes. |
| Nysa.RowsQuietUnreachable | nysa.cc:433-437 | In every printed state, each signal that no primary input reaches is false, because it keeps level 0 and is never evaluated. |
| Graph.ReachablePredecessor | nysa.cc:314-322 | A reachable signal that is not a primary input is the user of some reachable signal. |

## Left out

- Reading standard input and counting lines (`parseGates`, nysa.cc:115-125): the model takes the lines already split into tokens.
- The `std::regex` matching and `stringstream` reading (nysa.cc:107-113, nysa.cc:151-176) are replaced by a predicate on tokens: the arity rule, and one to nine digits with no leading zero.
- Error messages on standard error and `printCurrentSignalValues` (nysa.cc:481-487): a printed row is modelled as the sequence of values in ascending id order, not as characters on a stream.
- `main` and the exit status (nysa.cc:500-510): `Parser.ParseData` followed by `Nysa.Execute` covers what it does.
- The exception in `getGateType` (nysa.cc:83) is modelled as `None`; it cannot happen after a line is accepted.
- `uint32_t` arithmetic: levels and ids are unbounded naturals. Ids are below 10^9 by the token rule, but `level + 1` (nysa.cc:320) is not modelled as wrapping.
- `std::sort` is not stable and breaks ties by no rule (nysa.cc:277-278). `EvaluationOrderProvider.SortByLevel` is one insertion sort, and every contract about the order holds for any permutation sorted by level.
- Nysa.Execute: requires a map built from a table whose gates have their arities. `Parser.ParseData` and `Nysa.ParsedWellFormed` prove these are what parsing delivers, and the program calls the driver only then.
- Nysa.CalculateSignalValue: requires the signal and its gate to exist and the gate to have its arity. The program's `at` would throw otherwise, and the driver never calls it so.
- Nysa.Enumerate: rows and states are returned as sequences rather than printed; the ghost `states` records the state each row was printed in.
- The unordered gate table is iterated in an arbitrary order (a choice from the remaining keys). None of the contracts depend on that order.
