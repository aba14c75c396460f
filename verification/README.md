# nodestuff graph store and evaluator, in Dafny

This project models the core of nodestuff, a node-graph editor. The core has four parts:

- **The graph store** (`graph.h`). Nodes, ports and connections are identified out of one shared counter. A port index maps each port to its owner. `addConnection` refuses a link between two ports of the same direction and, through a scan of the existing connections, a link into an occupied Input. `orderedSourceNodesForNode` lists a node's wired sources by input order.
- **The evaluator** (`grapheval.cpp`). `update` visits every node in turn. For each node it does a depth-first walk over the source relation, then replays the list it built in reverse over an operand stack. On each entry it takes one of three branches:
  - under-connected: the entry pushes an empty value;
  - already evaluated in this update: the entry pushes the cached output;
  - otherwise: the entry runs the node's evaluation function. The Plus, Minus, Mul, Div, Negate and Constant functions are modelled. The five arithmetic functions each try a list of operand signatures in order and fall back to an empty value. The Constant function pushes the value of its Static port.
- **The port values** (`portdata.h`). These form a tagged union with a description string.
- **The node constructors** (`nodeconstructors.cpp`). They build Float, Int, UInt, Plus and Minus nodes with fixed port schemas.

Modules, one per file:

- `wrappers.dfy`: `Option`.
- `port_values.dfy`: `PortValues`, the value union.
- `graphs.dfy`: `Graphs`, the store and its operations as pure functions.
- `eval_funcs.dfy`: `EvalFuncs`. It holds the evaluation functions, each paired with an independent reference definition of its result.
- `eval_order.dfy`: `EvalOrder`. It covers the source relation, the depth-first walk, and the facts that output writes cannot change either.
- `evaluator.dfy`: `Evaluator`. It holds the replay loop and `update`, together with a recursive, demand-driven reference evaluator that the replay is proved equal to.
- `graph_invariants.dfy`: `GraphInvariants`. It states the store's invariants and proves which operations keep them.
- `constructors.dfy` and `constructor_invariants.dfy`: `Constructors` and `ConstructorInvariants`.

Modelling choices:

- **Numbers.** Float components are mathematical reals. Division's component operation is a parameter `fdiv`, left uninterpreted. Matrices are opaque payloads.
- **Failing lookups.** Most lookups in the C++ are unchecked: a dereferenced `find_if` and `pop_back` on an empty stack are undefined behaviour, and `nodes.at` on a missing node throws `std::out_of_range`, which nothing catches. Standalone operations take these as preconditions. Inside the evaluator, `Step` returns `None` for them, and the proofs show `None` never arises on a well-formed graph whose source relation is acyclic.
- **Acyclicity.** The source has no cycle check. Acyclicity is a precondition, witnessed by a rank map that strictly decreases along every source edge.
- **Iteration order.** The iteration order of `std::unordered_map` is an explicit parameter `order`, so every result holds for any enumeration of the nodes.
- **Tracing.** The evaluator state carries a trace `ran` of evaluation-function invocations. This lets the model state "at most once per update".
- **The model follows the code in these places:**
  - Under-connection and failed dispatch yield `PortData { }`: an Empty value with an empty description. The "Not enough arguments" and "Invalid arguments" sentinels of `portdata.h` are never produced by the evaluator.
  - `nodeconstructors.cpp` stores Int and UInt values that `portdata.h` does not declare. The value union therefore has ten alternatives: the eight of `portdata.h` plus Int (32-bit signed) and UInt (32-bit unsigned). `NodeType` likewise gains Int and UInt.
  - `removeNode` leaves the port index untouched, and `addConnection` lets a second connection into an Input through in one case. Both appear under Findings.

## Model

| member | source | states |
|---|---|---|
| PortValues.Default | portdata.h:28-31 | A default-constructed port value holds the Empty payload and an empty description |
| PortValues.NotEnoughArgs | portdata.h:33 | The under-connection sentinel is Empty with the description "Not enough arguments" |
| PortValues.InvalidArgs | portdata.h:34 | The type-mismatch sentinel is Empty with the description "Invalid arguments" |
| PortValues.SentinelsDistinct | portdata.h:30-34 | Both sentinels carry the same Empty payload as the default, differ from each other, and neither equals the default |
| PortValues.ShapeDeterminesConstructor | portdata.h:17-26 | The runtime tag separates the alternatives: two payloads with the same tag come from the same constructor |
| Graphs.EmptyGraph | graph.h:60-65 | A fresh graph has no nodes, no index entries, no connections, and its counter at 1 |
| Graphs.PortIndex | graph.h:47-55 | `Node::port`'s search finds the first port with the identifier; it finds nothing exactly when no port has it |
| Graphs.PortOf | graph.h:47-55 | The port returned by lookup has the requested identifier and belongs to the node |
| Graphs.Filter | graph.h:77-78 | `remove_if`/`erase` keeps exactly the connections the predicate keeps, never grows the list, and changes nothing when every connection is kept |
| Graphs.FilterAppend | graph.h:77-78 | Filtering distributes over concatenation, so survivors keep their relative order |
| Graphs.NewNode | graph.h:67-72 | Returns the old counter and advances it by one; the new node has type Invalid, no inputs, no evaluation function and no ports; nothing else changes |
| Graphs.RemoveNode | graph.h:74-79 | As written: the node is gone; a connection survives exactly when neither end is that node, and the survivors are the order-preserving filter of the old list (each kept once, in their old relative order); other nodes, the port index and the counter are unchanged |
| Graphs.AddPort | graph.h:84-90 | Appends a port with the old counter as identifier, the requested direction and order 0; indexes it under the node's identifier; advances the counter; touches no other node or connection |
| Graphs.ErasePort | graph.h:94 | The result is one shorter. The ports before the first one carrying the identifier are unchanged, and every later port moves down one place, so the others keep their order |
| Graphs.RemovePort | graph.h:92-98 | Removes the port from its node, removes its index entry and nothing else in the index, and keeps exactly the connections that do not name it, as the order-preserving filter of the old list; other nodes and the counter are unchanged |
| Graphs.FindOccupied | graph.h:108-117 | The scan reports a hit exactly when some existing connection matches under the source's port0-else-port1 test |
| Graphs.AddConnection | graph.h:103-124 | As written: two ports of one direction, or a scan hit, give 0 and an unchanged graph; otherwise the connection is appended under the old counter, which is returned and advanced |
| Graphs.ConnectionIndex | graph.h:128 | Finds the first connection with the identifier, and finds nothing exactly when none has it |
| Graphs.RemoveConnection | graph.h:126-131 | Deletes exactly the first connection with the identifier and is the identity when there is none; nodes, index and counter are unchanged |
| Graphs.Collect | graph.h:137-147 | Every connection whose local end is an Input contributes its remote node and local order, every collected pair comes from such a connection, and each pair occurs exactly as many times as there are connections contributing it |
| Graphs.CountsCons | graph.h:137-147 | One loop step keeps the count of every pair equal to the number of connections seen so far that contribute it |
| Graphs.CountsGiveMembership | graph.h:137-147 | Equal counts give equal membership: a pair is collected exactly when some connection contributes it |
| Graphs.InsertByOrder | graph.h:148-150 | Inserting into a sorted list keeps it sorted and adds exactly one copy of the element |
| Graphs.SortByOrder | graph.h:148-150 | The result is sorted by order and is a permutation of the input |
| Graphs.OrderedSourceNodesForNode | graph.h:133-152 | The result is sorted non-decreasingly by input order and is a permutation of the collected (source, order) pairs, so it holds one pair per connection whose local end is an Input of the node |
| EvalFuncs.DirIndex | grapheval.cpp:7-12 | `outPort`'s search finds the first port of the direction, and finds nothing exactly when there is none |
| EvalFuncs.DirIndexFromSameDirs | grapheval.cpp:7-12 | The search depends only on port directions, so it is unaffected by data writes |
| EvalFuncs.SetOutput | grapheval.cpp:53 | Writing the Output port's value makes it the cached output; every other port, the node's fields and all port identifiers, directions and orders stay as they were |
| EvalFuncs.SetOutputKeepsStatic | grapheval.cpp:71-73 | Writing the output never changes the Static port's value |
| EvalFuncs.EvalConstant | grapheval.cpp:69-74 | Pops nothing, pushes the Static port's value and caches that same value on the Output port |
| EvalFuncs.PushArith2Result | grapheval.cpp:76-82 | The stack shrinks by one. Everything below the two operands is untouched, and the new top is the result, which is also what the node's Output port now reports |
| EvalFuncs.PushArith1Result | grapheval.cpp:192-197 | The stack keeps its length. Everything below the operand is untouched, and the new top is the result, which is also what the node's Output port now reports |
| EvalFuncs.TryArith2 | grapheval.cpp:84-100 | Succeeds exactly when both operand tags match the signature; on success it applies the component function to lhs (below the top) and rhs (the top) |
| EvalFuncs.TryArith1 | grapheval.cpp:199-213 | Succeeds exactly when the top operand's tag matches; on success it maps the component function over it |
| EvalFuncs.FirstMatch2 | grapheval.cpp:106-121 | Trying a signature list in order and falling back to the default amounts to: the combined value when the operand shapes are in the list, else the default |
| EvalFuncs.FirstMatch1 | grapheval.cpp:215-230 | The same for one operand: mapped value when the shape is in the list, else the default |
| EvalFuncs.ElementwiseDispatchMatchesReference | grapheval.cpp:106-121 | The per-shape reference for elementwise operators agrees with the signature list Float, Vec2, Vec3, Vec4 of equal shapes |
| EvalFuncs.EvalElementwise | grapheval.cpp:106-121 | An elementwise operator replaces the two operands by the reference result and caches it |
| EvalFuncs.EvalPlus | grapheval.cpp:106-121 | Plus yields the componentwise sum for equal Float/Vec2/Vec3/Vec4 operands and Empty for every other pair; the stack shrinks by one |
| EvalFuncs.EvalMinus | grapheval.cpp:123-138 | Minus yields the componentwise difference for equal Float/VecN operands and Empty otherwise; the stack shrinks by one |
| EvalFuncs.MulSigsShapes | grapheval.cpp:140-173 | Mul's ten signatures are exactly Float×{Float, VecN} and VecN×{VecN, Float} |
| EvalFuncs.MulScalarLhs | grapheval.cpp:142-169 | A Float left operand scales the right operand |
| EvalFuncs.MulVectorLhs | grapheval.cpp:145-169 | A vector left operand is multiplied componentwise by an equal vector or scaled by a Float |
| EvalFuncs.MulDispatchMatchesReference | grapheval.cpp:140-173 | The per-shape reference for Mul agrees with the ordered signature list |
| EvalFuncs.EvalMul | grapheval.cpp:140-173 | Mul replaces the two operands by the reference product (Empty on mismatch) and caches it |
| EvalFuncs.EvalDiv | grapheval.cpp:175-190 | Div applies the component division elementwise to equal Float/VecN operands and yields Empty otherwise |
| EvalFuncs.NegateDispatchMatchesReference | grapheval.cpp:215-230 | The per-shape reference for Negate agrees with its signature list |
| EvalFuncs.EvalNegate | grapheval.cpp:215-230 | Negate keeps the stack size, replaces the top by its elementwise negation (Empty on mismatch), and caches it |
| EvalFuncs.Arith2Replaces | grapheval.cpp:76-82 | Every two-operand function's effect is a balanced replacement of two operands by one cached result |
| EvalFuncs.Apply | grapheval.cpp:62-63 | Every evaluation function pops exactly its arity and pushes one value, which it caches on the Output port. That value is the kind's reference value on the popped operands, and for Constant it is the Static value |
| EvalFuncs.EvalNode | grapheval.cpp:62-63 | A call is defined exactly when the node has an Output port (and a Static one for constants) and the stack holds the arity. Then it is a balanced replacement whose pushed value is the kind's reference value |
| EvalFuncs.ReferenceSuffix | grapheval.cpp:69-218 | Each evaluation function reads only its top arity operands: the value it yields is the same whatever lies below them |
| EvalOrder.Sources | grapheval.cpp:37-41 | The identifiers the walk pushes are the source nodes of `orderedSourceNodesForNode`, in its order |
| EvalOrder.WfSourcesDefined | grapheval.cpp:37 | On a well-formed graph the source query is defined for every node |
| EvalOrder.SourcesBelow | grapheval.cpp:37-41 | Every source of a node exists and has a smaller rank |
| EvalOrder.Deps | grapheval.cpp:37-41 | The dependency table has one entry per node, equal to its source list |
| EvalOrder.RankedDeps | grapheval.cpp:37-41 | The rank strictly decreases from each node to each of its dependencies |
| EvalOrder.LinStackAppend | grapheval.cpp:34-42 | The entries produced for a stack of pending nodes split along the stack: top part first |
| EvalOrder.Dfs | grapheval.cpp:34-42 | The iterative walk with an explicit stack yields exactly the recursive preorder of its pending nodes |
| EvalOrder.DfsRoot | grapheval.cpp:32-42 | Starting from one node, the walk yields that node's recursive preorder |
| EvalOrder.SetOutputStrip | grapheval.cpp:53 | An output write changes nothing but port values |
| EvalOrder.CollectSame | graph.h:137-147 | Two nodes differing only in port values collect the same sources |
| EvalOrder.ShapeKeepsSources | graph.h:133-152 | Graphs differing only in port values give every node the same ordered sources |
| EvalOrder.ShapeKeepsWf | grapheval.cpp:44-65 | Output writes keep the graph well-formed and ranked |
| Evaluator.StepUnder | grapheval.cpp:48-54 | An under-connected entry pops its source count, pushes the default and caches it on the Output port, leaving the node unmarked |
| Evaluator.StepMemo | grapheval.cpp:55-59 | An entry for an evaluated node pops its input count and pushes the cached output without running anything |
| Evaluator.StepEval | grapheval.cpp:60-64 | A first full entry marks the node evaluated and records one run. It then does a balanced replacement, pushing the reference value of the node's kind on the operands and caching it on the node. A node without a function is only marked |
| Evaluator.Step | grapheval.cpp:44-65 | One replay iteration picks the branch by source count and evaluated flag |
| Evaluator.ReplayAppend | grapheval.cpp:44-46 | Replaying a concatenated list replays the back part first |
| Evaluator.ReplayLin | grapheval.cpp:44-65 | Replaying a node's reversed preorder equals evaluating it on demand: sources first, in order, then the node |
| Evaluator.ReplayLinStack | grapheval.cpp:34-65 | The same for a sequence of pending nodes |
| Evaluator.StepUnderSpec | grapheval.cpp:48-54 | On an under-connected node the step is defined, keeps the invariant, settles the node to the default, and disturbs no settled node |
| Evaluator.UnderSettles | grapheval.cpp:48-54 | The default write settles an under-connected node and keeps every settled node's output |
| Evaluator.StepMemoSpec | grapheval.cpp:55-59 | A repeated full entry pushes the same cached output and changes nothing else |
| Evaluator.MarkRunInv | grapheval.cpp:60-63 | Marking a full node evaluated and recording its single run keeps the invariant (no run recorded twice; runs are exactly the evaluated nodes) |
| Evaluator.StepEvalResult | grapheval.cpp:60-64 | The first full entry of an evaluable node is defined and replaces its operands by its result. The result is the reference value of its kind on those operands, and the node caches it |
| Evaluator.StepEvalSpec | grapheval.cpp:60-64 | The first full entry keeps the invariant and settles the node |
| Evaluator.StepSpec | grapheval.cpp:44-65 | Every entry whose operands are on the stack is defined, keeps the invariant, settles its node and replaces the operands by the node's cached output |
| Evaluator.DemandSpec | grapheval.cpp:32-65 | Evaluating a node on an acyclic well-formed graph never underflows, pushes exactly its cached output, settles it, and disturbs no settled node |
| Evaluator.DemandAllSpec | grapheval.cpp:32-65 | Evaluating a list of sources pushes their cached outputs in list order (lowest input order deepest) |
| Evaluator.PassSpec | grapheval.cpp:23-65 | A top-level pass from an empty stack ends with exactly one value, the node's output |
| Evaluator.StepFrame | grapheval.cpp:44-64 | One replay entry writes at most the stepped node's Output port and marks at most that node, so every Static value stays in place |
| Evaluator.ComputedKeeps | grapheval.cpp:44-64 | A node that caches its function's value on its sources' outputs keeps doing so while settled nodes keep their outputs |
| Evaluator.PushedOutputs | grapheval.cpp:44-64 | After a node's sources are evaluated in port order, the stack is the old one followed by their cached outputs |
| Evaluator.NewValue | grapheval.cpp:60-64 | The first evaluation of a fully connected node pushes its kind's reference value on its sources' cached outputs, in port order |
| Evaluator.NewComputed | grapheval.cpp:60-64 | After that first evaluation the node caches that value, and its sources stay settled with the same outputs |
| Evaluator.StepComputed | grapheval.cpp:44-64 | A step taken after the node's sources were evaluated keeps every evaluated node computed, including the stepped node |
| Evaluator.DemandComputed | grapheval.cpp:32-65 | Demand-driven evaluation keeps every evaluated node caching its function's value on its sources' outputs |
| Evaluator.DemandAllComputed | grapheval.cpp:32-65 | The same holds for evaluating a list of nodes in order |
| Evaluator.PassComputed | grapheval.cpp:23-65 | The same holds for a top-level pass from an empty stack |
| Evaluator.PassOrder | grapheval.cpp:32-42 | The walk of a pass, on the current graph, builds the node's reversed preorder |
| Evaluator.RunPass | grapheval.cpp:23-65 | The walk-then-replay pass equals demand-driven evaluation and ends with one value. It keeps settled nodes settled and every evaluated node computed |
| Evaluator.Visit | grapheval.cpp:19-22 | A node already evaluated is skipped. Otherwise its pass settles it, all earlier nodes stay settled, and every evaluated node stays computed |
| Evaluator.AllPasses | grapheval.cpp:19-66 | After visiting the nodes in the given order, every node in it is settled and every evaluated node is computed |
| Evaluator.Update | grapheval.cpp:14-67 | For any node order: the evaluated set is exactly the fully connected nodes, and every other node's output holds Empty. Each evaluation function ran at most once, and exactly the evaluated nodes ran. Only port values changed. Every evaluated node caches its kind's reference value on the cached outputs of its sources, taken in input-port order |
| Constructors.NatDigits | nodeconstructors.cpp:12-14 | The rendering of a number is a non-empty string of decimal digits |
| Constructors.AddConfiguredPort | nodeconstructors.cpp:16-21 | `addPort` followed by the order, text and value assignments appends exactly the configured port under the old counter |
| Constructors.AddPorts | nodeconstructors.cpp:16-26 | Adding a schema appends its ports with consecutive identifiers from the counter, and indexes exactly those identifiers under the node |
| Constructors.Build | nodeconstructors.cpp:8-28 | A constructor returns the old counter as node identifier; the node's ports take the following identifiers; the counter ends past them; nothing else changes |
| Constructors.RealizeConstant | nodeconstructors.cpp:16-26 | A constant schema yields a Static "Value" port (order 0) holding the zero, then an Output "Result" port (order 1) |
| Constructors.RealizeBinary | nodeconstructors.cpp:91-105 | A binary schema yields Input "LHS" (order 0), Input "RHS" (order 1), then Output "Result" (order 2) |
| Constructors.ConstantNodeOk | nodeconstructors.cpp:6-29 | A constant node is evaluable, has no Input and exactly one Output port |
| Constructors.BinaryNodeOk | nodeconstructors.cpp:81-108 | A binary node is evaluable, has exactly two Input ports with distinct orders and exactly one Output port |
| Constructors.ConstructConstant | nodeconstructors.cpp:6-29 | A constant constructor adds one node and two ports under the next three identifiers, meets the schema, indexes both new ports under the new node, and leaves other nodes, other index entries and all connections unchanged |
| Constructors.ConstructBinary | nodeconstructors.cpp:81-108 | A binary constructor adds one node and three ports under the next four identifiers, meets the schema, indexes the three new ports under the new node, and leaves other nodes, other index entries and all connections unchanged |
| Constructors.ConstructFloat | nodeconstructors.cpp:6-29 | constructFloatNode builds a constant node holding Float 0 labelled "Float [id]" under the old counter, indexes its two ports under it, and leaves other nodes, other index entries and all connections unchanged |
| Constructors.ConstructInt | nodeconstructors.cpp:31-54 | constructIntNode builds a constant node holding Int 0 labelled "Int [id]" under the old counter, indexes its two ports under it, and leaves other nodes, other index entries and all connections unchanged |
| Constructors.ConstructUInt | nodeconstructors.cpp:56-79 | constructUIntNode builds a constant node holding UInt 0 labelled "UInt [id]" under the old counter, indexes its two ports under it, and leaves other nodes, other index entries and all connections unchanged |
| Constructors.ConstructPlus | nodeconstructors.cpp:81-108 | constructPlusNode builds a two-input Plus node labelled "Plus [id]" under the old counter, indexes its three ports under it, and leaves other nodes, other index entries and all connections unchanged |
| Constructors.ConstructMinus | nodeconstructors.cpp:110-137 | constructMinusNode builds a two-input Minus node labelled "Minus [id]" under the old counter, indexes its three ports under it, and leaves other nodes, other index entries and all connections unchanged |
| ConstructorInvariants.BuildValid | nodeconstructors.cpp:8-28 | Creating a node with its schema's ports keeps every store invariant and yields a fresh node identifier |
| ConstructorInvariants.ConstantConstructorsKeepValid | nodeconstructors.cpp:6-79 | The Float, Int and UInt constructors keep every store invariant |
| ConstructorInvariants.BinaryConstructorsKeepValid | nodeconstructors.cpp:81-137 | The Plus and Minus constructors keep every store invariant |
| ConstructorInvariants.ConstantConstructorsKeepSchemas | nodeconstructors.cpp:6-79 | If every node has a constructor's shape, it still does after the Float, Int or UInt constructor |
| ConstructorInvariants.BinaryConstructorsKeepSchemas | nodeconstructors.cpp:81-137 | The same for the Plus and Minus constructors |
| ConstructorInvariants.EditsKeepSchemas | graph.h:74-131 | Adding or removing a connection and removing a node keep every remaining node's shape |
| ConstructorInvariants.ConstructedWf | grapheval.cpp:14-64 | A valid graph whose nodes all have a constructor's shape meets every lookup `update` performs: every node is stored under its own identifier, every node is evaluable, and every connection's local end is a port of its node |
| GraphInvariants.EmptyValid | graph.h:60-65 | A fresh graph satisfies every store invariant |
| GraphInvariants.InputEndsZero | graph.h:107-117 | No connection ends at an Input port exactly when its fan-in count is zero |
| GraphInvariants.NewNodeValid | graph.h:67-72 | newNode keeps every invariant and returns an identifier not in use by any node or connection |
| GraphInvariants.AddPortValid | graph.h:84-90 | addPort keeps every invariant and returns an identifier not in use by any port or index entry |
| GraphInvariants.RemovePortValid | graph.h:92-98 | removePort keeps every invariant |
| GraphInvariants.ScanHitIsInputEnd | graph.h:108-117 | A scan hit means the connection really ends at one of the requested ports on an Input |
| GraphInvariants.AddConnectionResult | graph.h:103-124 | A result of 0 means the graph is unchanged; a nonzero result means exactly one connection was added |
| GraphInvariants.AddConnectionKeepsOthers | graph.h:103-124 | addConnection as written keeps every invariant except the fan-in rule |
| GraphInvariants.AddConnectionChecked | graph.h:105-117 | The intended addConnection accepts exactly when the directions differ and neither port already has a connection ending at it as an Input |
| GraphInvariants.AddConnectionCheckedValid | graph.h:103-124 | The intended addConnection keeps every invariant, fan-in at most one included |
| GraphInvariants.CheckedRefinesAsWritten | graph.h:108-121 | On a valid graph addConnection as written is defined, and whenever the intended one accepts, the written one does the same |
| GraphInvariants.RemoveConnectionValid | graph.h:126-131 | removeConnection keeps every invariant |
| GraphInvariants.RemoveNodeKeepsOthers | graph.h:74-79 | removeNode as written keeps every invariant except the soundness of the port index |
| GraphInvariants.RemoveNodeClean | graph.h:74-79 | The intended removeNode also drops exactly the index entries pointing at the removed node |
| GraphInvariants.RemoveNodeCleanValid | graph.h:74-79 | The intended removeNode keeps every invariant |
| GraphInvariants.RemoveNodeLeavesDanglingEntry | graph.h:74-79 | On a valid one-node, one-port graph, removeNode as written leaves an index entry that names the deleted node |
| GraphInvariants.ConnectedPairValid | graph.h:108-117 | The two-node graph of the fan-in counterexample is valid, and its one connection ends at Input 4 without being a scan hit for ports 2 and 4 |
| GraphInvariants.AddConnectionAcceptsSecondInput | graph.h:108-117 | On that valid graph, addConnection as written accepts a second connection into Input 4, breaking fan-in; the intended version refuses it |

## Left out

- gui.cpp, gui.h and main.cpp: rendering, widgets, menus, window and thread setup. They are user interface and I/O.
- The menu tables of nodeconstructors.h: these are static catalog data for the user interface.
- Floating point: components are reals, so rounding, NaN and infinities are not modelled. Division's component operation is an uninterpreted parameter, so nothing is claimed about division by zero.
- Matrices: Mat3 and Mat4 are opaque payloads. No operation modelled here computes on them.
- The evaluation functions declared in grapheval.h whose bodies are not part of this model: casts, length, dot, cross, transpose, inverse, determinant, combine and swizzle. The evaluator's `NodeKind` covers only Constant, Plus, Minus, Mul, Div and Negate.
- The static scratch buffers of `update` are modelled as per-call values. Reentrancy is therefore not modelled.
- `Node::port` and `outPort` on a missing port and `pop_back` on an empty stack are undefined in C++; `nodes.at` on a missing node throws `std::out_of_range`, which nothing catches. All of them are preconditions, or a `None` step that is proved unreachable.
- `nodeForPort` (graph.h:100-101): a lookup used only by the user interface.
- Graphs.SortByOrder: it is a stable insertion sort, so it fixes one order for ties where `std::sort` leaves the order unspecified. The contract states only sortedness and permutation, which is all `std::sort` promises.
- Graphs.NewNode: identifiers are unbounded integers. `Id` is a signed `int` (graph.h:11), so incrementing the counter past INT_MAX is signed overflow. That is undefined behaviour in C++, not a defined wrap-around, and it is not modelled.
- PortValues.ShapeDeterminesConstructor: the union has ten alternatives rather than the eight of portdata.h, because Int and UInt are added (see above).
- Evaluator.Update: it requires an acyclic source relation (a rank witness). On a cyclic graph the C++ walk does not terminate, and that case is not modelled.
- Evaluator.Update: it also requires every node to be stored under its own identifier (the walk starts from `n.id` while the skip test reads the map key), and every node to be evaluable: an evaluation function popping `inputPortCount` operands, an Output port, and a Static port for a constant. `update` itself skips the call when a node has no evaluation function (grapheval.cpp:62), so it also runs on graphs holding a bare `newNode` node; such graphs are outside the theorem. Every node the constructors build is evaluable, and `ConstructorInvariants.ConstructedWf` shows that a valid graph of constructed nodes meets the precondition.
- The label strings of the constructors are built as `name + " [" + decimal(id) + "]"`. The 128-byte buffer of `sprintf` is not modelled, because such a label cannot reach that length with a 32-bit identifier.

## Findings

| source | as written | input that shows it | evidently intended | confidence | as-written member | corrected member |
|---|---|---|---|---|---|---|
| graph.h:74-79 | `removeNode` erases the node and its connections but leaves the port index entries of the node's ports | a graph with node 1 owning port 2; removeNode(1) leaves index entry 2 ↦ 1 with node 1 gone, so a later `nodeForPort(2)` fails | every index entry of the node's ports is erased together with the node | high (not executed) | GraphInvariants.RemoveNodeLeavesDanglingEntry | GraphInvariants.RemoveNodeCleanValid |
| graph.h:108-117 | the scan checks port1 only when port0 matches neither requested port (`else if`), so a connection whose port0 matches a requested Output port hides its Input end | node 1 with Output 2 and node 3 with Input 4, already joined by connection 5 (port0 = 2, port1 = 4); addConnection(1, 2, 3, 4) returns 6 and Input 4 then has two connections | a connection is refused whenever either requested port already ends an existing connection as an Input | high (not executed) | GraphInvariants.AddConnectionAcceptsSecondInput | GraphInvariants.AddConnectionCheckedValid |
