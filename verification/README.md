# Analytical placement, implicit memories and the hard/soft logic mixer

This project models three parts of the Verilog-to-Routing flow in Dafny and
proves properties of the models.

**VPR analytical placement.** `AnalyticalSolver.cpp` holds the quadratic
hybrid solver (`QPHybridSolver`).
- On iteration 0 it builds one sparse linear system from the netlist.
  - A net with more than three pins becomes a *star*: one extra moveable
    star node, linked to every pin with weight `n/(n-1)`.
  - Every other net becomes a *clique* of weight `1/(n-1)`. For each pin i
    the loop keeps pin i's node as the first node and visits every later pin
    j. A pair of two fixed nodes is skipped. When the first node is fixed,
    it is swapped with the second, and that swap carries over to the later
    pins j of the same i (see "Findings").
  - The model's system uses the per-pair rule instead: every pair (i, j)
    starts from pin i's own node, so every pair of moveable nodes is linked
    and every mixed pair anchors its moveable node. The loop as written is
    modelled beside it by `AnalyticalSystem.CliqueStampsAsWritten`.
  - A link between two moveable nodes adds four Laplacian triplets.
  - A link between a moveable node and a fixed one adds one diagonal
    triplet, plus a pull toward the fixed node's location on the right-hand
    sides.
- On later iterations it adds a pseudo-anchor to every moveable node.
- It then solves for x and y and writes the moveable nodes' new locations
  back into the partial placement.

The model is split in two modules:
- `AnalyticalSystem` (values). It describes the system as a list of
  *stamps* (`Link`, `Anchor`). The matrix is the list of triplets those
  stamps expand to, and an entry is the sum of its triplets, as
  `setFromTriplets` does. It also holds the lemmas: symmetry, signs, shape,
  star rows, clique coverage, ignored nets, and independence from the
  moveable locations.
- `AnalyticalSolver` (imperative). It builds the system into arrays, and
  every method is proved against `AnalyticalSystem`.

**Odin II implicit memories.** `implicit_memory.cpp` keeps two global indexes:
- memories by full reference name;
- memories by registered input name.

It creates memory blocks, rounding their depth up to a power of two. It
also answers whether a signal list is already connected to a port. At the
end of elaboration, the last step finalises every memory:
- it pads a missing clock;
- it pads the missing address, data, write-enable and output ports of each
  RAM port in use, using zero inputs and uniquely named dummy outputs;
- it collapses a memory with an unused port to a single-port RAM;
- it registers the memory as a used hard block.

Module `ImplicitMemory` models this.
- The globals become the class `ImplicitMemoryIndex`.
- A memory node becomes the class `ImplicitMemory`, with pin sequences the
  methods reassign.
- Padding, collapsing and registration are specified by value-level
  functions, and the lemmas state what a finalised memory looks like.

**Odin II hard/soft logic mixer.** `hard_soft_logic_mixer.cpp` is modelled by
module `HardSoftLogicMixer`.
- The mixer keeps a strategy object per operation kind (multipliers,
  adders, and a mixing default for the rest) and a candidate list per kind.
- An optimisation pass runs the multiplier strategy, then the adder
  strategy.
- The strategies themselves are outside this model. A call on one is
  recorded in a `trace`, and the pass is proved to produce exactly the
  expected sequence of calls.

## Model

| member | source | states |
|---|---|---|
| AnalyticalSolver.PopulateHybridMatrix | vpr/src/place/analytical_placement/AnalyticalSolver.cpp:45-134 | the dimension is the number of moveable nodes plus one row per star net; the triplets and both right-hand sides are exactly those of the placement's stamp list, under the per-pair clique rule |
| AnalyticalSolver.CountStarNodes | vpr/src/place/analytical_placement/AnalyticalSolver.cpp:49-56 | the count is the number of non-ignored nets with more than three pins |
| AnalyticalSolver.StampNets | vpr/src/place/analytical_placement/AnalyticalSolver.cpp:68-132 | the net loop leaves triplets and right-hand sides equal to the old ones assembled with the stamps of every net in order, cliques under the per-pair rule |
| AnalyticalSolver.StampNextNet | vpr/src/place/analytical_placement/AnalyticalSolver.cpp:71-97 | one loop step extends the assembly by net k (cliques under the per-pair rule) and advances the star-node offset exactly when net k is a star |
| AnalyticalSolver.StampNet | vpr/src/place/analytical_placement/AnalyticalSolver.cpp:72-131 | one net adds exactly its star stamps or its per-pair clique stamps, or nothing when it is ignored |
| AnalyticalSolver.StampStarNet | vpr/src/place/analytical_placement/AnalyticalSolver.cpp:80-97 | a star net adds one stamp per pin, all on its own star row |
| AnalyticalSolver.StampStarPin | vpr/src/place/analytical_placement/AnalyticalSolver.cpp:83-95 | a moveable pin is linked to the star node; a fixed pin anchors the star node at the pin's location |
| AnalyticalSolver.StampCliqueNet | vpr/src/place/analytical_placement/AnalyticalSolver.cpp:101-130 | under the per-pair rule, a clique net adds the stamps of every pin pair (i, j) with i < j, in loop order |
| AnalyticalSolver.StampCliqueRow | vpr/src/place/analytical_placement/AnalyticalSolver.cpp:107-129 | under the per-pair rule, the inner loop for pin i adds the stamps of the pairs (i, i+1) … (i, n-1), each from pin i's own node |
| AnalyticalSolver.StampCliquePair | vpr/src/place/analytical_placement/AnalyticalSolver.cpp:110-128 | a pair of moveable nodes is linked, a mixed pair anchors its moveable node at the fixed one, and a fixed pair adds nothing |
| AnalyticalSolver.PopulateUpdateHybridMatrix | vpr/src/place/analytical_placement/AnalyticalSolver.cpp:28-42 | adds the pseudo-anchor weight to the diagonal of every moveable node and the weighted current location to both right-hand sides, and changes nothing else |
| AnalyticalSolver.NewVector | vpr/src/place/analytical_placement/AnalyticalSolver.cpp:139-141 | the working copy of a vector is a fresh array holding the same values |
| AnalyticalSolver.WriteBack | vpr/src/place/analytical_placement/AnalyticalSolver.cpp:159-162 | the moveable locations take the solution values; the fixed locations are unchanged |
| AnalyticalSolver.QPHybridSolver.Solve | vpr/src/place/analytical_placement/AnalyticalSolver.cpp:136-163 | iteration 0 builds the system (cliques under the per-pair rule) from the placement; a later iteration keeps it and solves it with pseudo-anchors at the current locations; the moveable locations become the solution and the fixed ones are unchanged |
| AnalyticalSystem.StampTriplets | vpr/src/place/analytical_placement/AnalyticalSolver.cpp:87-90 | a link expands to four triplets and an anchor to one |
| AnalyticalSystem.RhsVector | vpr/src/place/analytical_placement/AnalyticalSolver.cpp:60-61 | the right-hand side has the system's dimension and holds the summed pulls of every row |
| AnalyticalSystem.AssembledIsSystem | vpr/src/place/analytical_placement/AnalyticalSolver.cpp:133 | assembling stamps one at a time from zeroed vectors gives the expanded triplet list and the summed right-hand sides |
| AnalyticalSystem.EntryAppend | vpr/src/place/analytical_placement/AnalyticalSolver.cpp:133 | a matrix entry summed over two triplet lists is the sum of the two entries |
| AnalyticalSystem.ExpandAppend | vpr/src/place/analytical_placement/AnalyticalSolver.cpp:65-133 | the triplets of two stamp lists are the two triplet lists concatenated |
| AnalyticalSystem.StampEntryIsSum | vpr/src/place/analytical_placement/AnalyticalSolver.cpp:87-92 | the summed triplets of one stamp give that stamp's Laplacian contribution to each entry |
| AnalyticalSystem.ExpandSymmetric | vpr/src/place/analytical_placement/AnalyticalSolver.cpp:87-90 | every stamp list yields a symmetric matrix |
| AnalyticalSystem.ExpandSigns | vpr/src/place/analytical_placement/AnalyticalSolver.cpp:87-92 | with positive weights, diagonal entries are non-negative and off-diagonal ones non-positive |
| AnalyticalSystem.StarWeight | vpr/src/place/analytical_placement/AnalyticalSolver.cpp:80 | the star weight exceeds 1 and is the weight w with w·(n−1) = n |
| AnalyticalSystem.CliqueWeight | vpr/src/place/analytical_placement/AnalyticalSolver.cpp:101 | the clique weight lies in (0, 1] and w·(n−1) = 1 for a net of two or more pins |
| AnalyticalSystem.StarCountAppend | vpr/src/place/analytical_placement/AnalyticalSolver.cpp:49-56 | the star count of two netlists concatenated is the sum of their counts |
| AnalyticalSystem.StarRowsDistinct | vpr/src/place/analytical_placement/AnalyticalSolver.cpp:68-97 | two different star nets get different rows, in netlist order, past the moveable rows and inside the system |
| AnalyticalSystem.StarRowInRange | vpr/src/place/analytical_placement/AnalyticalSolver.cpp:59-81 | every star net's row lies inside the system and after the moveable nodes |
| AnalyticalSystem.SystemStampsIn | vpr/src/place/analytical_placement/AnalyticalSolver.cpp:59-132 | every stamp of the system stays within its dimension and has a positive weight |
| AnalyticalSystem.SystemMatrixShape | vpr/src/place/analytical_placement/AnalyticalSolver.cpp:59-133 | the assembled matrix has all triplets inside the square dimension, is symmetric, has a non-negative diagonal and non-positive off-diagonal entries |
| AnalyticalSystem.IgnoredNetIsInert | vpr/src/place/analytical_placement/AnalyticalSolver.cpp:52-53 | an ignored net, wherever it sits in the netlist, changes neither the star count nor the system |
| AnalyticalSystem.StarRowDiagonal | vpr/src/place/analytical_placement/AnalyticalSolver.cpp:87-92 | a star node's diagonal entry is its pin count times the star weight |
| AnalyticalSystem.PairsExactlyOnce | vpr/src/place/analytical_placement/AnalyticalSolver.cpp:103-109 | the clique loops visit exactly the pairs i < j < n, each once |
| AnalyticalSystem.PairsBeforeSorted | vpr/src/place/analytical_placement/AnalyticalSolver.cpp:103-109 | the clique loops visit the pairs in lexicographic order |
| AnalyticalSystem.CliqueCoversEveryPair | vpr/src/place/analytical_placement/AnalyticalSolver.cpp:103-128 | under the corrected per-pair rule, every moveable pair of a clique is linked and every mixed pair anchors its moveable node at the fixed node's location |
| AnalyticalSystem.SwappedFirstNodeLeaks | vpr/src/place/analytical_placement/AnalyticalSolver.cpp:107-118 | as written, pins [fixed, m0, m1] link m0 to m1 twice and never anchor m1 to the fixed pin, so m1's right-hand side stays 0 |
| AnalyticalSystem.AsWrittenThreePinStamps | vpr/src/place/analytical_placement/AnalyticalSolver.cpp:107-128 | the full stamp list the as-written clique loop produces for that three-pin net |
| AnalyticalSystem.CorrectedThreePinStamps | vpr/src/place/analytical_placement/AnalyticalSolver.cpp:107-128 | the per-pair clique rule anchors both moveable pins to the fixed pin and links them once |
| AnalyticalSystem.FixedPairAnchoredAsWritten | vpr/src/place/analytical_placement/AnalyticalSolver.cpp:107-128 | as written, pins [fixed, moveable, fixed] anchor the moveable node to the second fixed pin twice, once for the fixed-fixed pair; under the per-pair rule that pair adds nothing |
| AnalyticalSystem.RowAsWrittenMoveable | vpr/src/place/analytical_placement/AnalyticalSolver.cpp:107-129 | as written, every stamp of one outer iteration touches moveable rows only and has the clique weight |
| AnalyticalSystem.CliqueAsWrittenMoveable | vpr/src/place/analytical_placement/AnalyticalSolver.cpp:103-129 | as written too, every clique stamp touches moveable rows only and has the clique weight, so the matrix stays symmetric with the Laplacian sign pattern |
| AnalyticalSystem.CorrectedCliqueAnchorsEveryMixedPair | vpr/src/place/analytical_placement/AnalyticalSolver.cpp:107-128 | under the per-pair rule the second moveable pin gets the fixed pin's pull on its right-hand side |
| AnalyticalSystem.OverwriteMoveable | vpr/src/place/analytical_placement/AnalyticalSolver.cpp:159-162 | writing the solution back leaves every fixed location as it was |
| AnalyticalSystem.SystemStampsFixedOnly | vpr/src/place/analytical_placement/AnalyticalSolver.cpp:137-143 | the system depends only on the fixed nodes' locations, so a solve that moves only moveable nodes leaves it valid for later iterations |
| AnalyticalSystem.AnchoredEntry | vpr/src/place/analytical_placement/AnalyticalSolver.cpp:36-38 | the pseudo-anchors raise exactly the first k diagonal entries by the coefficient and leave every other entry unchanged |
| AnalyticalSystem.DiagonalRunEntry | vpr/src/place/analytical_placement/AnalyticalSolver.cpp:36-38 | the pseudo-anchor triplets alone form the coefficient on the first k diagonal entries and zero elsewhere |
| ImplicitMemory.ImplicitMemoryIndex.constructor | odin_ii/src/core/implicit_memory.cpp:55-58 | the index starts with both tables empty, no hard block used and empty memory lists |
| ImplicitMemory.ImplicitMemoryIndex.InitImplicitMemoryIndex | odin_ii/src/core/implicit_memory.cpp:55-58 | both lookup tables become empty |
| ImplicitMemory.ImplicitMemoryIndex.LookupImplicitMemory | odin_ii/src/core/implicit_memory.cpp:63-74 | finds nothing exactly when the full reference name is not indexed, and otherwise an indexed memory |
| ImplicitMemory.ReferencedIdentifier | odin_ii/src/core/implicit_memory.cpp:79-88 | a node names a memory exactly when it is an identifier or an array reference with one or two children |
| ImplicitMemory.ImplicitMemoryIndex.LookupImplicitMemoryReferenceAst | odin_ii/src/core/implicit_memory.cpp:79-88 | a reference that names no memory finds nothing; otherwise the lookup is the by-name lookup of the named identifier |
| ImplicitMemory.ImplicitMemoryIndex.ValidReferenceIsIndexedArrayRef | odin_ii/src/core/implicit_memory.cpp:93-102 | a reference is valid exactly when it is an array reference with one or two children whose memory is indexed; a plain identifier is never valid, although it is looked up |
| ImplicitMemory.ImplicitMemory.IsSignalListConnected | odin_ii/src/core/implicit_memory.cpp:104-143 | the answer is true exactly when some input port of the memory is connected to the signal list |
| ImplicitMemory.ImplicitMemory.IsPortConnected | odin_ii/src/core/implicit_memory.cpp:111-135 | the answer for one port equals the port-connection predicate (same width and every pin mapped to the port name with the signal's net) |
| ImplicitMemory.ConnectivityMeaning | odin_ii/src/core/implicit_memory.cpp:116-132 | the connectivity flags are all true exactly when the port is connected |
| ImplicitMemory.EmptyPortConnectsAnything | odin_ii/src/core/implicit_memory.cpp:129-138 | a memory with a zero-width input port reports every signal list as connected |
| ImplicitMemory.WidthMismatchNotConnected | odin_ii/src/core/implicit_memory.cpp:116-133 | when no port has the signal list's width (and none is empty), the list is not connected |
| ImplicitMemory.RoundDepthToPowerOfTwo | odin_ii/src/core/implicit_memory.cpp:151-166 | the depth becomes the least power of two not below it, and stays unchanged when it already is one |
| ImplicitMemory.ImplicitMemoryIndex.CreateImplicitMemoryBlock | odin_ii/src/core/implicit_memory.cpp:148-191 | the new memory has the rounded depth, its address width, the data width and no ports, and is indexed under its full name unless that name was already taken |
| ImplicitMemory.ImplicitMemory.constructor | odin_ii/src/core/implicit_memory.cpp:179-186 | a new memory holds the given name, widths, depth and identifier, has no pins and has no clock or output added |
| ImplicitMemory.InsertNew | odin_ii/src/core/implicit_memory.cpp:188 | inserting keeps an existing key's value, adds a new key with the given value and changes no other key |
| ImplicitMemory.InsertNewFirstWins | odin_ii/src/core/implicit_memory.cpp:227-232 | a second insertion under the same key changes nothing |
| ImplicitMemory.ImplicitMemory.AddInputPort | odin_ii/src/core/implicit_memory.cpp:196-200 | appends one pin per signal under the port name and records the port's width |
| ImplicitMemory.ImplicitMemory.AddOutputPort | odin_ii/src/core/implicit_memory.cpp:205-209 | appends one output pin per signal under the port name and records the port's width |
| ImplicitMemory.ImplicitMemoryIndex.LookupImplicitMemoryInput | odin_ii/src/core/implicit_memory.cpp:214-221 | finds nothing exactly when the input name is not registered, and otherwise a registered memory |
| ImplicitMemory.ImplicitMemoryIndex.RegisterImplicitMemoryInput | odin_ii/src/core/implicit_memory.cpp:227-232 | the first registration of a name wins; afterwards the name looks up its first memory |
| ImplicitMemory.ImplicitMemoryIndex.FreeImplicitMemoryIndexAndFinalizeMemories | odin_ii/src/core/implicit_memory.cpp:239-250 | both tables end empty; every indexed memory is finalised from its previous pins and identifier; for the order `order` in which the memories are visited, each once, the single- and dual-port lists are the old lists with each memory of its kind prepended in turn, and the used hard blocks gain exactly those the memories register |
| ImplicitMemory.ImplicitMemoryIndex.FinalizeMemories | odin_ii/src/core/implicit_memory.cpp:242-248 | every memory of the set is finalised from its previous state; the returned visiting order lists each memory once; the lists are the old lists with the memories prepended in that order; a memory is in a list afterwards exactly when it was before or it registers under that list; the used hard blocks are the old ones plus the blocks registered |
| ImplicitMemory.PrependedMembers | odin_ii/src/core/implicit_memory.cpp:374-377 | prepending the memories of a visiting order gives a list whose members are the old ones plus exactly the memories that register under that list |
| ImplicitMemory.MarkedRegistrations | odin_ii/src/core/implicit_memory.cpp:371-373 | marking the hard blocks of a visiting order adds exactly the blocks the memories register |
| ImplicitMemory.ImplicitMemoryIndex.AddDummyInputPort | odin_ii/src/core/implicit_memory.cpp:256-265 | appends `size` pins on the zero net under the port name (none for a non-positive size) |
| ImplicitMemory.ImplicitMemoryIndex.AddDummyOutputPort | odin_ii/src/core/implicit_memory.cpp:271-285 | appends `size` outputs named with consecutive counter values and advances the counter by that many |
| ImplicitMemory.ParseDecimalString | odin_ii/src/core/implicit_memory.cpp:278 | the decimal rendering of the counter reads back as the same number |
| ImplicitMemory.DummyOutputNamesDistinct | odin_ii/src/core/implicit_memory.cpp:273-278 | two different counter values give two different dummy output names |
| ImplicitMemory.PaddedOutputNamesDistinct | odin_ii/src/core/implicit_memory.cpp:273-278 | the dummy outputs added by one finalisation have pairwise distinct names |
| ImplicitMemory.ImplicitMemory.PresentPorts | odin_ii/src/core/implicit_memory.cpp:295-332 | each presence flag holds exactly when a pin with that mapping exists |
| ImplicitMemory.ImplicitMemoryIndex.PadClock | odin_ii/src/core/implicit_memory.cpp:334-337 | a missing clock gets a one-pin zero clock port; a present one gets nothing |
| ImplicitMemory.ImplicitMemoryIndex.PadPortOne | odin_ii/src/core/implicit_memory.cpp:342-347 | port 1, when in use, gets exactly its missing address, data, write-enable and output ports |
| ImplicitMemory.ImplicitMemoryIndex.PadPortTwo | odin_ii/src/core/implicit_memory.cpp:349-354 | port 2, when in use, gets exactly its missing address, data, write-enable and output ports |
| ImplicitMemory.ImplicitMemoryIndex.PadPort | odin_ii/src/core/implicit_memory.cpp:342-354 | a port in use gets its missing inputs and output; an unused port gets nothing |
| ImplicitMemory.ImplicitMemoryIndex.PadPortInputs | odin_ii/src/core/implicit_memory.cpp:343-345 | the missing address, data and write-enable inputs are appended in that order, with address and data widths |
| ImplicitMemory.ImplicitMemoryIndex.PadMemory | odin_ii/src/core/implicit_memory.cpp:334-354 | the padded pins are the clock padding, then port 1's and port 2's; the counter advances by the number of dummy outputs |
| ImplicitMemory.PaddingCompletesPorts | odin_ii/src/core/implicit_memory.cpp:334-354 | after padding the memory has a clock, and every port in use has its address (when non-empty), data, write-enable and output |
| ImplicitMemory.PaddingLeavesUnusedPortEmpty | odin_ii/src/core/implicit_memory.cpp:339-354 | padding adds no address, data or write-enable input to an unused port |
| ImplicitMemory.PortPaddingSupplies | odin_ii/src/core/implicit_memory.cpp:343-345 | port padding supplies every missing input of a port that has a width |
| ImplicitMemory.PortPaddingOnlyOwn | odin_ii/src/core/implicit_memory.cpp:343-345 | port padding adds no pin under any other mapping |
| ImplicitMemory.ImplicitMemory.CollapseToSinglePortRam | odin_ii/src/core/implicit_memory.cpp:389-411 | every non-clock input and every output loses its port digit, and the identifier becomes the single-port RAM |
| ImplicitMemory.CollapsedHas | odin_ii/src/core/implicit_memory.cpp:395-399 | a mapping present before collapsing is present afterwards, with its port digit removed unless it is the clock |
| ImplicitMemory.CollapsedOutputHas | odin_ii/src/core/implicit_memory.cpp:403-406 | an output present before collapsing is present afterwards under its stripped mapping |
| ImplicitMemory.CollapsedPortComplete | odin_ii/src/core/implicit_memory.cpp:389-411 | collapsing a complete numbered port gives a complete single-port interface |
| ImplicitMemory.OnePortFinalisesToSinglePortRam | odin_ii/src/core/implicit_memory.cpp:292-380 | a memory with exactly one port in use finalises to a complete single-port RAM |
| ImplicitMemory.ImplicitMemoryIndex.RegisterHardBlock | odin_ii/src/core/implicit_memory.cpp:359-379 | a memory with a port in use whose hard block exists marks that block used and is prepended to the single- or dual-port list by its identifier |
| ImplicitMemory.ImplicitMemoryIndex.FinalizeImplicitMemory | odin_ii/src/core/implicit_memory.cpp:292-380 | the memory is padded, collapsed when a port is unused, and registered; pins, identifier, counter and lists are exactly those of the finalisation functions |
| ImplicitMemory.CorrectedRegistration | odin_ii/src/core/implicit_memory.cpp:356-387 | with the dual-port creation identifier, a memory is listed as dual-port exactly when both ports are in use, and as single-port exactly when one is |
| ImplicitMemory.AsWrittenNeverDualPort | odin_ii/src/core/implicit_memory.cpp:374-377 | as written, no memory ever reaches the dual-port list |
| ImplicitMemory.AsWrittenTwoPortMemoryIsSinglePort | odin_ii/src/core/implicit_memory.cpp:175-377 | as written, a memory using both ports is listed as single-port while keeping its `addr1` and `addr2` pins |
| HardSoftLogicMixer.Mixer.constructor | odin_ii/src/map/hard_soft_logic_mixer.cpp:30-40 | the multiply index holds the multiplier strategy, the add index the adder strategy, every other index the mixing strategy; all candidate lists are empty |
| HardSoftLogicMixer.Mixer.NoteCandidateNode | odin_ii/src/map/hard_soft_logic_mixer.cpp:47 | the node is appended to the list of its own kind and every other list is unchanged |
| HardSoftLogicMixer.NotedSnoc | odin_ii/src/map/hard_soft_logic_mixer.cpp:47 | noting a node grows the list of its kind by that node and leaves the other lists unchanged |
| HardSoftLogicMixer.NotedMembers | odin_ii/src/map/hard_soft_logic_mixer.cpp:47 | a node is in the list of a kind exactly when it was noted and has that kind |
| HardSoftLogicMixer.Mixer.HardBlocksNeeded | odin_ii/src/map/hard_soft_logic_mixer.cpp:53 | the number of hard blocks needed is the number of candidates noted with that kind |
| HardSoftLogicMixer.Mixer.Hardenable | odin_ii/src/map/hard_soft_logic_mixer.cpp:49 | the answer is that of the strategy the constructor installed for the node's kind |
| HardSoftLogicMixer.Mixer.Enabled | odin_ii/src/map/hard_soft_logic_mixer.cpp:51 | the answer is whether the strategy installed for the node's kind is enabled |
| HardSoftLogicMixer.Mixer.PartialMapNode | odin_ii/src/map/hard_soft_logic_mixer.cpp:55-57 | exactly one partial-map call is made, on the strategy of the node's kind |
| HardSoftLogicMixer.Mixer.OptimizeMultipliers | odin_ii/src/map/hard_soft_logic_mixer.cpp:60-66 | an enabled multiplier strategy gets the block count, then weights, perform and soft-logic calls on the multiply candidates; a disabled one gets nothing |
| HardSoftLogicMixer.Mixer.OptimizeAdders | odin_ii/src/map/hard_soft_logic_mixer.cpp:68-76 | an enabled adder strategy gets the same four calls on the add candidates; a disabled one only instantiates hard logic |
| HardSoftLogicMixer.Mixer.PerformOptimizations | odin_ii/src/map/hard_soft_logic_mixer.cpp:59-77 | the pass makes the multiplier calls followed by the adder calls, on the noted candidates |
| HardSoftLogicMixer.OptimizationTouchesOnlyMultiplyAndAdd | odin_ii/src/map/hard_soft_logic_mixer.cpp:59-77 | a pass calls only the multiplier and adder strategies |
| HardSoftLogicMixer.MultiplyFinishesBeforeAdd | odin_ii/src/map/hard_soft_logic_mixer.cpp:59-77 | no multiplier call follows an adder call |
| HardSoftLogicMixer.OptimizationCallsPerStrategy | odin_ii/src/map/hard_soft_logic_mixer.cpp:60-76 | seen per strategy, a pass makes exactly that strategy's phase of calls |
| HardSoftLogicMixer.DisabledStrategies | odin_ii/src/map/hard_soft_logic_mixer.cpp:60-76 | a disabled multiplier strategy receives no call and a disabled adder strategy receives only the hard-logic instantiation |

## Left out

- Conjugate gradient: the solver is a function parameter `cg`, assumed to return a vector as long as its right-hand side. Its numerics, tolerance and failure assertions are not modelled.
- Doubles are modelled as exact reals. Rounding and NaN checks (the debug assertions in `solve`) are left out.
- PopulateUpdateHybridMatrix: takes the pseudo-anchor coefficient `0.01·exp(iteration/5)` as a parameter, because the exponential is not modelled.
- `make_analytical_solver`, `isSymmetric`, `isSemiPosDef` and logging are left out. They are a factory, debugging checks and output.
- The triplet list's `reserve` is left out; it only sizes an allocation.
- Net and block resolution is not part of this model.
  - Each net carries its pins' node ids and its ignored flag, in place of `get_node_id_from_blk` and `net_is_ignored_for_placement`.
  - `is_moveable_node(id)` is taken as `id < num_moveable_nodes`, the numbering the partial placement uses.
- AnalyticalSystem.Loc: a location lookup past the end of the vector gives 0. Pin ids are always in range under the netlist's requirement, so this case is never reached.
- AnalyticalSystem.CliqueWeight: returns 1 for nets of fewer than two pins, because the function must be total. The solver asserts such nets do not occur.
- The clique loop as written (`AnalyticalSystem.CliqueStampsAsWritten`) is not what the solver builds. The solver members below use the corrected per-pair rule. For a net where the swap carries over, they do not produce the source's triplets and right-hand sides. See the first "Findings" row.
- AnalyticalSystem.CliqueCoversEveryPair: states the per-pair property of the corrected rule. The loop as written does not have it (`SwappedFirstNodeLeaks`, `FixedPairAnchoredAsWritten`); for that loop only the shape (`CliqueAsWrittenMoveable`) is proved.
- AnalyticalSolver.StampCliqueRow: stamps each pair from pin i's own node; the swapped first node is not carried to later pairs.
- AnalyticalSolver.StampCliqueNet: the per-pair clique, not the loop as written.
- AnalyticalSolver.StampNet: its clique nets use the per-pair rule.
- AnalyticalSolver.StampNextNet: its clique nets use the per-pair rule.
- AnalyticalSolver.StampNets: its clique nets use the per-pair rule.
- AnalyticalSolver.PopulateHybridMatrix: its clique nets use the per-pair rule.
- AnalyticalSolver.QPHybridSolver.Holds: relates the stored system to the per-pair stamps.
- AnalyticalSolver.QPHybridSolver.Solve: builds and solves the per-pair system.
- ImplicitMemory.ImplicitMemoryIndex.CreateImplicitMemoryBlock: creates memories with the dual-port RAM identifier (`ImplicitRamIdentifier`), not the single-port one that line 175 uses (`ImplicitRamIdentifierAsWritten`). What the single-port start leads to is stated by `AsWrittenNeverDualPort` and `AsWrittenTwoPortMemoryIsSinglePort`. See the second "Findings" row.
- AnalyticalSolver.QPHybridSolver.Solve: requires iteration 0 to have run on the same netlist before a later iteration. The source relies on that calling order and does not check it.
- The Eigen sparse matrix is modelled as its triplet list, with an entry defined as the sum of its triplets. Compressed storage is left out.
- `make_full_ref_name` is a function parameter `refName` of the index. Hierarchical name construction is not part of this model.
- The netlist nodes behind a memory are left out. This covers `get_zero_pin`, `allocate_npin`, `allocate_nnode`, `hard_node_name`, source locations and warning messages. The zero net is a parameter and a memory's node is its pin lists.
- `add_input_port_to_memory` and `add_output_port_to_memory` are not part of this model. They are taken to append one pin per signal under the port name and to record the port's width.
- `find_hard_block` is a set of available hard-block names. `hb_model->used` is the set of names marked used.
- `insert_in_vptr_list` is modelled as a prepend to a sequence.
- Freeing and allocation (`vtr::free`, `malloc`, the fake AST node, the signal lists) are left out: memory management.
- The global `unordered_map`s are Dafny maps.
- ImplicitMemory.ImplicitMemoryIndex.FreeImplicitMemoryIndexAndFinalizeMemories: visits the memories in an unspecified order, as the hash map does. It returns that order as a ghost sequence and states the lists in terms of it, but does not state which order the hash map would choose.
- ImplicitMemory.ImplicitMemoryIndex.FinalizeMemories: the dummy-output counter values each memory receives are not stated; they depend on the visiting order.
- The static dummy-output counter is an unbounded `nat`. Its 32-bit `int` overflow is left out.
- ImplicitMemory.ImplicitMemoryIndex.CreateImplicitMemoryBlock: requires `memory_depth <= 2^62`. This stands in for `shift_left_value_with_overflow_check`, which aborts on overflow.
- The `oassert(port_name)` of `is_signal_list_connected_to_memory` is not modelled, because a port name is always a string here. Net names are `Option` strings, with `None` for a missing name.
- The strategy objects (`MultsOpt`, `AddersOpt`, `MixingOpt`) are not part of this model.
  - Their `enabled` and `hardenable` answers are function parameters of the mixer.
  - Their other operations are recorded as calls in `trace`, without their effect on the netlist.
  - They receive the candidate lists by reference. The model records every call of a pass with the same lists, so it assumes the strategies leave `_nodes_by_opt` unchanged.
- The operation enumeration is not part of this model. `MULTIPLY`, `ADD` and `operation_list_END` are constructor parameters, required to be distinct and in range as enumerators are.
- The mixer's destructor is left out: it only deletes the strategy objects.
- HardSoftLogicMixer.Mixer.HardBlocksNeeded: the conversion of the list size to `int` is not modelled.
- HardSoftLogicMixer.Mixer.PartialMapNode: the strategy's call back into the mixer and its use of the netlist are not modelled.

## Findings

| source | as written | input that shows it | evidently intended | confidence | as-written member | corrected member |
|---|---|---|---|---|---|---|
| vpr/src/place/analytical_placement/AnalyticalSolver.cpp:107-118 | `first_node_id` is set once per `ipin`, and `std::swap` overwrites it. After one swap, the later `jpin` pairs of the same `ipin` use the swapped moveable node instead of pin `ipin` | pins at positions 0, 1, 2 on nodes [fixed F at (1,1), moveable m0, moveable m1]: the pin pair (0, 2), that is F and m1, becomes a second m0–m1 link, so m1 is never pulled toward F. Pins on [fixed F1, moveable m, fixed F2]: the pin pair (0, 2), two fixed nodes, becomes a second anchor of m to F2 | each pair (ipin, jpin) starts from pin ipin's own node: both moveable pins are anchored to the fixed pin, and a pair of two fixed pins adds nothing | medium; not executed | AnalyticalSystem.SwappedFirstNodeLeaks, AnalyticalSystem.FixedPairAnchoredAsWritten | AnalyticalSystem.CorrectedCliqueAnchorsEveryMixedPair, AnalyticalSystem.CliqueCoversEveryPair |
| odin_ii/src/core/implicit_memory.cpp:175 | the fake AST node of every new memory gets the single-port RAM identifier, so the dual-port branch at lines 376-377 is unreachable | a memory with pins mapped to both `addr1` and `addr2` is listed as a single-port RAM with dual-port pins | memories start as dual-port RAMs, as the comment at lines 386-387 says, and a memory using both ports is listed as dual-port | medium; not executed | ImplicitMemory.AsWrittenTwoPortMemoryIsSinglePort | ImplicitMemory.CorrectedRegistration |
