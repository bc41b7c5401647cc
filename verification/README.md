# CSolver analysis core, modelled and proved

CSolver is a static memory-safety verifier. This project models the algorithms
its verdicts rest on and proves what they promise, over all inputs, all graphs
and all runs:

- the control-flow structure: postorder, dominators, post-dominators, loops;
- the abstract interpreter: the dataflow worklist, the interval domain, the
  difference-bound ("zone") domain, and the counter recogniser;
- the points-to relation: building it module by module, merging shards,
  collapsing copy cycles, solving;
- basic blocks from decoded machine code;
- the memory-budget protocol of the scan and its checkpoint file.

Code that works by updating things is modelled by methods, arrays and classes:
`ZoneCells.Dbm` for the matrix, `PointsTo.Solver` for the solver,
`Building.Builder` for collecting the relation, `Collapse.ProgramPointsTo` for
the tables the collapse rewrites. Code made of expressions is modelled by
functions. A method is proved against a specification, and what the program
promises is proved about that specification. Concrete runs of a function
(`Ir.IsRun`) are finite sequences of block visits with explicit stores over
mathematical integers.

Modules, from the bottom up: `Wrappers`, `Graphs`, `Dominators`,
`PostDominators`, `Loops`; `Ir`, `Ssa`, `Engine`; `Intervals`, `Env`,
`IntervalAnalysis`, `Conditions`, `IntervalSoundness`, `IntervalPrecision`;
`Zones`, `ZoneCells`, `Relational`, `BranchSides`, `SharedTargets`,
`ZoneImages`, `RelationalSoundness`, `ZoneFlow`; `Induction`; `PointsToRules`,
`PointsToSteps`, `PointsToRoom`, `PointsTo`, `PoisonMissed`, `Tarjan`,
`Quotient`, `Collapse`; `Shards`, `Numbering`, `Remapping`, `Building`,
`Renaming`, `ModuleRuns`, `ModuleMeaning`, `ModuleOffsets`, `ModuleTables`,
`ModuleFacts`, `WholeProgram`; `Assembly`, `AssemblyRuns`, `AssemblyFlow`; `Budget`,
`BudgetRuns`; `CheckpointText`, `Checkpoint`, `CheckpointRoundTrip`,
`CheckpointTorn`.

Where an abstract result could be right merely by saying little, a second
theorem says how much it says: what an instruction, a guard or an edge leaves
is what concrete stores can reach, what widening gives up, what the
recogniser finds, and which constraints a module contributes.

## Model

| member | source | states |
|---|---|---|
| Graphs.Postorder | crates/cfg/src/graph.rs:108-135 | the iterative search with an explicit stack lists exactly the reachable nodes, each once, and every one but the root has a predecessor later in the list |
| Dominators.Intersect | crates/cfg/src/dominators.rs:89-99 | the two-finger walk ends at the nearest common ancestor, and loses no common dominator of its arguments |
| Dominators.Build | crates/cfg/src/dominators.rs:23-63 | the loop terminates on every graph, irreducible ones included, with the settled tree of the reachable nodes |
| Dominators.QueryDominates | crates/cfg/src/dominators.rs:66-84 | answers true exactly when the second node is reachable and every path from the root to it passes through the first |
| Dominators.IdomIsImmediate | crates/cfg/src/dominators.rs:4-63 | a node other than the root has a parent exactly when it is reachable; the parent dominates it, and every other strict dominator dominates the parent |
| PostDominators.Reverse | crates/cfg/src/dominators.rs:171-200 | turning the edges round and adding the synthetic exit gives exactly the reversed graph |
| PostDominators.New | crates/cfg/src/dominators.rs:171-200 | the tree it builds is the dominator tree of the reversed graph from the synthetic exit, which is what the query asks for |
| PostDominators.QueryPostDominates | crates/cfg/src/dominators.rs:171-215 | answers true exactly when some exit can be reached from the second node and every path from it to an exit passes through the first |
| Loops.NaturalLoopBody | crates/cfg/src/loops.rs:89-106 | the body is exactly the header and the nodes that reach a latch without passing through the header |
| Loops.Detect | crates/cfg/src/loops.rs:41-64 | every result is a loop with exactly the latches of its header, a latch listed once for each of its edges to the header; headers ascend, and no back edge is missed |
| Loops.HeaderDominatesBody | crates/cfg/src/loops.rs:41-64 | every reachable node of a loop's body is dominated by the header that was chosen |
| Engine.Solve | crates/absint/src/engine.rs:43-131 | terminates on every graph for arbitrary transfer functions, by remaining plain updates, widening rank and worklist; the result is a post-fixpoint; over the whole history a node's entry state changes to the join of what flows in, widened only at a header or after 64 changes, and a reachable node that is no header and changed fewer times ends with exactly that join |
| Engine.FlowsIn | crates/absint/src/engine.rs:84-131 | at every reachable node the in-state is above the entry seed and above every predecessor's edge contribution, and the out-state is the transfer of it; no monotonicity is assumed |
| Ir.FromFunction | crates/cfg/src/graph.rs:26-53 | the graph has the function's edges, in both directions, one entry for each target in the terminator's order, and nodes stand for block ids |
| Ssa.RecordsHold | crates/absint/src/analysis.rs:151-179 | in every run of a function in single-assignment form, a comparison, copy or constant step executed in a dominating block is true of the current store |
| Intervals.MulSound | crates/absint/src/interval.rs:237-252 | the product of two members lies in the interval of the four saturating corner products |
| Intervals.AddSound | crates/absint/src/interval.rs:214-223 | the sum of two members lies in the sum, infinite ends and saturation included |
| Intervals.SubSoundExactly | crates/absint/src/interval.rs:224-236 | subtraction contains every difference exactly when negating its second operand does not saturate at the smallest number |
| Intervals.SubMisses | crates/absint/src/interval.rs:224-236 | the interval of -1 minus that of the smallest number does not contain the difference |
| IntervalPrecision.AddExactly | crates/absint/src/interval.rs:214-223 | the sum has exactly the 128-bit sums of members |
| IntervalPrecision.SubExactly | crates/absint/src/interval.rs:224-236 | the difference has exactly the 128-bit differences of members, unless the smallest number is a bound of the subtrahend |
| IntervalPrecision.MulReached | crates/absint/src/interval.rs:237-252 | each finite bound of a product is the product of two members, and an infinite one stands for a product out of range |
| IntervalPrecision.UpperExactly | crates/absint/src/interval.rs:151-162 | the half-line of an upper guard has exactly the numbers at most some member, or below one if the guard is strict |
| IntervalPrecision.LowerExactly | crates/absint/src/interval.rs:163-173 | the half-line of a lower guard has exactly the numbers at least some member, or above one if the guard is strict |
| Intervals.MeetExact | crates/absint/src/interval.rs:136-152 | the meet contains exactly the common members |
| Intervals.LeqMeansSubset | crates/absint/src/interval.rs:309-320 | the order is inclusion, in both directions for intervals that have a member |
| Intervals.WidenLaws | crates/absint/src/interval.rs:284-296 | widening covers both arguments, and either changes nothing or lowers the rank |
| IntervalPrecision.WidenExactly | crates/absint/src/interval.rs:284-296 | widening gives up a bound exactly when a member of the second interval breaks it, and keeps the other |
| IntervalPrecision.JoinSLeast | crates/absint/src/env.rs:84-91 | the join of two states is the least one above both |
| Env.PointwiseLoop | crates/absint/src/env.rs:61-83 | the loop over both register maps computes the pointwise combination |
| Env.MeetSExact | crates/absint/src/env.rs:93-103 | a store is in the meet of two states exactly when it is in both |
| Env.StateLawful | crates/absint/src/env.rs:84-131 | environments meet all that the worklist asks of a domain, with a rank that every widening lowers |
| IntervalAnalysis.ApplyLoop | crates/absint/src/analysis.rs:249-268 | the loop over a block's instructions computes the state after each of them |
| IntervalAnalysis.RefineRegLoop | crates/absint/src/analysis.rs:213-228 | the loop that follows copies from a register refines each register of the chain |
| IntervalAnalysis.ApplyInstSound | crates/absint/src/analysis.rs:349-395 | an instruction takes a store of the state to a store of the new state |
| IntervalAnalysis.RefineByCmpSound | crates/absint/src/analysis.rs:181-247 | refining by a recorded comparison, along copy chains and on both sides, keeps every store in which the branch went that way |
| IntervalPrecision.ApplyInstExactly | crates/absint/src/analysis.rs:249-395 | after a copy, sum, difference or unknown result every register's interval is exactly the set of its values after the instruction, from stores of the state before |
| IntervalPrecision.BlockFolds | crates/absint/src/analysis.rs:249-268 | a block's transfer applies the instructions of the node's block in order |
| IntervalPrecision.RefineCuts | crates/absint/src/analysis.rs:181-228 | after a signed test each of the first 64 registers along a side's copies keeps only numbers that pass the test with some number of the other side |
| IntervalPrecision.TransferCuts | crates/absint/src/analysis.rs:269-345 | so does, along an edge of the function, what a register or parameter keeps of a compared register |
| IntervalPrecision.BindExactly | crates/absint/src/analysis.rs:269-345 | binding gives each parameter its argument's interval and leaves the other registers alone |
| IntervalAnalysis.ZExtKeepsExactly | crates/absint/src/analysis.rs:396-428 | passing an operand's interval through a zero extension is right for all its values exactly when it has no negative one or already reaches the largest unsigned value |
| IntervalAnalysis.ZExtMisses | crates/absint/src/analysis.rs:409-420 | the interval computed for the zero extension of an 8-bit -1 does not contain its value 255 |
| IntervalSoundness.AnalyzeIntervals | crates/absint/src/analysis.rs:127-150 | graph, dominators, loops, recorded comparisons and copies, and the solved states belong together; nothing is widened but at targets of back edges and at nodes that changed 64 times |
| IntervalSoundness.RunStaysInside | crates/absint/src/analysis.rs:127-442 | in every finite run the store before each instruction lies in the computed intervals |
| IntervalSoundness.IntervalAtSound | crates/absint/src/analysis.rs:74-96 | the interval reported for a register at a point contains its value in every run that gets there |
| IntervalSoundness.EvalConditionSound | crates/absint/src/analysis.rs:97-120 | a definite answer for a condition is right in every run that gets there, if unsigned tests compare operands of one sign |
| Conditions.CompareSound | crates/absint/src/cond.rs:65-130 | a definite comparison of two intervals is right for all their members, on the same condition |
| IntervalPrecision.CompareExactly | crates/absint/src/cond.rs:65-130 | it is definite exactly when the test, read as signed, holds for all pairs of members, or fails for all |
| IntervalPrecision.PartsExactly | crates/absint/src/cond.rs:4-43 | a conjunction is true exactly when all parts are and false exactly when some part is, and a disjunction the other way round |
| IntervalPrecision.QueriesRead | crates/absint/src/analysis.rs:74-120 | a query before an instruction reads the block's entry state with the instructions before it applied |
| Conditions.EvalSound | crates/absint/src/cond.rs:4-63 | so is a definite answer for nested conjunctions, disjunctions and negations |
| Ir.UnsignedAgreesExactly | crates/absint/src/cond.rs:65-130 | on 64-bit operands an unsigned test agrees with its signed reading exactly when the operands have the same sign |
| Conditions.UnsignedVerdictExactly | crates/absint/src/cond.rs:65-130 | a definite verdict on an unsigned test is right for a pair of members exactly when they have the same sign |
| Zones.BottomExactly | crates/absint/src/zone.rs:170-186 | closing finds a contradiction exactly when no integer valuation meets the bounds |
| Zones.ClosingCloses | crates/absint/src/zone.rs:170-186 | Floyd-Warshall in place leaves a triangle-closed matrix when no diagonal goes negative |
| Zones.AddConstraintExact | crates/absint/src/zone.rs:105-111 | adding `v[a] - v[b] <= c` keeps exactly the valuations that meet it, and closes the result unless it is empty |
| Zones.AddConstraintEmpty | crates/absint/src/zone.rs:105-111 | the result is marked empty exactly when no valuation of the zone meets the constraint |
| Zones.ForgetExact | crates/absint/src/zone.rs:139-153 | on a closed zone forgetting a variable is exactly projection |
| Zones.ForgetClosed | crates/absint/src/zone.rs:139-153 | and leaves the matrix closed |
| Zones.TranslateExact | crates/absint/src/zone.rs:156-167 | translating is exactly the image of `v[k] := v[k] + c` |
| Zones.TranslateClosed | crates/absint/src/zone.rs:156-167 | and keeps a closed matrix closed |
| Zones.JoinLeast | crates/absint/src/zone.rs:194-202 | the join of closed zones is closed and the least zone that covers both |
| Zones.MeetExact | crates/absint/src/zone.rs:204-215 | the meet has exactly the common valuations |
| Zones.LeqExact | crates/absint/src/zone.rs:230-245 | the entrywise order is inclusion, in both directions when the smaller zone is closed |
| Zones.WidenKeepsShared | crates/absint/src/zone.rs:216-229 | widening keeps exactly the bounds that both zones have |
| Zones.WidenProgressExactly | crates/absint/src/zone.rs:216-229 | a widening that changes something lowers the rank exactly when not both zones are empty |
| ZoneCells.Dbm.AddConstraint | crates/absint/src/zone.rs:105-111 | the in-place method leaves the value the specification describes |
| ZoneCells.Dbm.Close | crates/absint/src/zone.rs:170-186 | so do the three nested loops, although they read cells they have already written |
| ZoneCells.Dbm.Forget | crates/absint/src/zone.rs:139-153 | so does forgetting |
| ZoneCells.Dbm.Translate | crates/absint/src/zone.rs:156-167 | so does translating |
| Relational.BuildIndex | crates/absint/src/relational.rs:279-303 | exactly the registers the function defines are tracked if they are at most 32, and none otherwise |
| Relational.ApplyZSound | crates/absint/src/relational.rs:115-153 | an instruction takes a store of the zone to a store of the new zone, self-increments included |
| ZoneImages.InstImage | crates/absint/src/relational.rs:115-153 | on a closed zone an instruction whose result is a tracked register or constant plus a constant, or anything, leaves exactly the valuations of the stores it leads to |
| ZoneImages.InstProjects | crates/absint/src/relational.rs:115-153 | any other instruction is exactly the projection that forgets its result |
| ZoneImages.InstTight | crates/absint/src/relational.rs:115-153 | a closed zone stays closed, so the steps compose |
| ZoneImages.StepStored | crates/absint/src/relational.rs:137-151 | after a register is set to another one plus a constant the zone stores the difference in both directions |
| ZoneFlow.BlockExactly | crates/absint/src/relational.rs:101-153 | behind a block of such instructions a closed zone has exactly the valuations that runs through the block end in |
| ZoneFlow.TransferExactly | crates/absint/src/relational.rs:155-233 | behind an edge to one side of a branch it has exactly those that come from a store in which the test is true, read as signed, by setting the parameters in order |
| Relational.RefineZExact | crates/absint/src/relational.rs:212-233 | a guard on tracked operands keeps exactly the stores of the zone in which its signed reading holds |
| Relational.UnsignedGuardExactly | crates/absint/src/relational.rs:212-233 | an unsigned guard keeps a store just when it holds there, if and only if its operands have one sign in that store |
| Relational.BindZSound | crates/absint/src/relational.rs:185-209 | binding parameters one by one keeps every store of a simultaneous binding, if no argument reads a parameter that already got another argument |
| Relational.BindingExactly | crates/absint/src/relational.rs:185-209 | for distinct tracked parameters that condition is exact: it holds if and only if no zone loses a store on such an edge |
| SharedTargets.EdgeBindSound | crates/absint/src/relational.rs:183-209 | binding keeps every store of either side of the branch, if parameters can be bound one by one and two sides that lead to one block agree on tracked parameters |
| SharedTargets.SharedExactly | crates/absint/src/relational.rs:183-209 | with both sides on one block, binding the then side's arguments loses no store of the else side, whatever the zone, if and only if the sides agree on each argument that is a constant or a tracked register |
| SharedTargets.GuardSharedExactly | crates/absint/src/relational.rs:166-181 | with both sides on one block, applying the then side's guard loses no store that agrees with the recorded comparison, whatever the zone, if and only if the guard is `!=`, reads something untracked or holds anyway |
| SharedTargets.BothSidesCut | crates/absint/src/relational.rs:166-181 | otherwise a store in which the comparison fails passes the edge and is not in the zone behind it |
| RelationalSoundness.AnalyzeZones | crates/absint/src/relational.rs:63-99 | index, graph, loops, recorded comparisons and the solved zones belong together; nothing is solved when nothing is tracked, and nothing is widened but at targets of back edges and at nodes that changed 64 times |
| RelationalSoundness.ZoneLawful | crates/absint/src/zone.rs:194-245 | zones, with one value for all empty ones, meet all that the worklist asks of a domain |
| RelationalSoundness.RunStaysInZone | crates/absint/src/relational.rs:63-243 | in every finite run the store before each instruction lies in the computed zone |
| RelationalSoundness.EntryDiffs | crates/absint/src/relational.rs:36-59 | reports exactly the finite off-diagonal bounds between tracked registers at the block's entry |
| RelationalSoundness.EntryDiffsSound | crates/absint/src/relational.rs:36-59 | every reported triple `(a, b, c)` satisfies `a - b <= c` in every run that enters the block |
| Induction.AnalyzeInduction | crates/absint/src/induction.rs:80-97 | builds graph, dominators and loops and enters under each header what the recogniser finds there; in single-assignment form these are exactly the counters that the texts of the loops have |
| Induction.SelfIncrement | crates/absint/src/induction.rs:289-317 | finds a constant step of the counter in the loop, and the only one there is |
| Induction.RecognizeInt | crates/absint/src/induction.rs:166-174 | answers only for a loop that leaves when the counter equals its bound and steps up by a constant, and never misses such a loop whose step is the only definition; in single-assignment form it answers a counter exactly when the loop's text has it |
| Induction.CountsExactly | crates/absint/src/induction.rs:109-174 | recognition is exact: the header compares a parameter by `==` or `!=` with something no block of the loop defines, control stays in the loop just when the two differ, there is one latch entry, and it passes back the parameter plus a positive constant |
| Induction.RecognizedOnly | crates/absint/src/induction.rs:109-174 | in single-assignment form the step always is the only definition, so the recogniser is exact |
| Induction.OneSideOnly | crates/absint/src/induction.rs:109-111 | a loop with one latch entry has one edge from it, so the argument the recogniser reads is the one of every way back to the header |
| Induction.BothSidesRefused | crates/absint/src/induction.rs:109-111 | a latch with both sides of its branch on the header is listed twice, and the loop is not recognised |
| BranchSides.LatchExactly | crates/absint/src/induction.rs:354-371 | a header parameter gets the value of one register on every way from the latch if and only if every side of the branch that leads there agrees on it |
| Induction.CounterAfterLaps | crates/absint/src/induction.rs:109-174 | in every run the counter at the header is its start plus the stride times the laps, and the bound has not changed |
| Induction.RecognizedCounts | crates/absint/src/induction.rs:64-174 | starting at or below the bound, a whole number of strides away, the counter never exceeds the bound, and the header is visited at most `(bound - start) / stride + 1` times per entry |
| PointsTo.Solver.InternField | crates/absint/src/pointsto.rs:166-195 | resolves a field to TOP, the object or its cell as the specification says, creating the cell only below the node budget |
| PointsTo.Solver.Poison | crates/absint/src/pointsto.rs:201-212 | puts TOP into the object and all its cells, and into nothing else |
| PointsTo.Solver.Add | crates/absint/src/pointsto.rs:233-243 | adds one target unless the node is saturated, and collapses a set that outgrows the cap |
| PointsTo.Solver.Union | crates/absint/src/pointsto.rs:244-260 | adds a whole set the same way |
| PointsTo.Solver.Solve | crates/absint/src/pointsto.rs:266-349 | terminates on every relation, cyclic field accesses included, visit by visit as specified, sets listed in some order; every constraint is met but for TOP at nodes poisoned on the way; without unknown offsets the result is a fixpoint, and below the caps the least solution |
| PointsToRoom.GrowthCapped | crates/absint/src/pointsto.rs:219-260 | a set that grows never has more than 64 members afterwards |
| PointsToRoom.RoomSuffices | crates/absint/src/pointsto.rs:60-78 | if a relation without unknown offsets has a solution with at most 64 targets everywhere and few enough cells, every run of the solver ends without meeting a cap |
| PointsTo.Solver.SingletonObject | crates/absint/src/pointsto.rs:360-366 | answers exactly the one target other than TOP, and never for a saturated node |
| PointsToRules.UnpoisonedSolved | crates/absint/src/pointsto.rs:266-349 | if solving poisoned nothing, every constraint is met |
| PointsToRules.LeastSolution | crates/absint/src/pointsto.rs:266-349 | how to read a final state: as facts about names, cells found on the way included, it satisfies all constraints and lies in every relation that does |
| PointsToRules.OrderIrrelevant | crates/absint/src/pointsto.rs:266-349 | two final states of one system give a node the same single target, whatever order the worklist ran in |
| PointsToRules.InternQuietExactly | crates/absint/src/pointsto.rs:166-212 | resolving a field changes no existing set exactly when the offset is known or nothing is newly marked |
| PoisonMissed.SolvedExactly | crates/absint/src/pointsto.rs:266-349 | of what solving promises for every relation, a full solution lacks exactly that TOP at a poisoned object or cell has reached what depends on it |
| PoisonMissed.LoadLeftBehind | crates/absint/src/pointsto.rs:201-349 | there is a relation on which every run of the solver ends with a load unmet: the object has TOP, the register loaded from it nothing |
| PoisonMissed.SolveMissedLoad | crates/absint/src/pointsto.rs:201-349 | recording that relation and calling the solver leaves the load unmet |
| Tarjan.Components | crates/absint/src/pointsto.rs:884-952 | the explicit-stack search terminates, and two nodes get one number exactly when each reaches the other |
| Quotient.QuotientPreserves | crates/absint/src/pointsto.rs:866-883 | the least solution of the merged constraints is the image of the original one, which is unchanged by closing it under the merge |
| Quotient.SingletonsSurvive | crates/absint/src/pointsto.rs:866-883 | a node has a single target exactly when its image has one, and it is the image of that target |
| Collapse.ProgramPointsTo.CollapseCopyCycles | crates/absint/src/pointsto.rs:884-1086 | nodes get one number exactly when they copy into each other, all tables are rewritten, a merged node with two names loses both, and the rewritten system is the quotient |
| Collapse.ProgramPointsTo.CollapseAndSolve | crates/absint/src/pointsto.rs:820-868 | collapsing and then solving gives every register the single target that solving alone would have given it, and what is found on the merged nodes is a solution of the relation before merging |
| Shards.UnitMoves | crates/absint/src/pointsto.rs:577-674 | the constraints of a module move with the function and module numbers it gets |
| Shards.MergeIsSequential | crates/absint/src/pointsto.rs:718-775 | merging what two lists of modules gave apart is what the joined list gives, constraints, poisoned globals and all tables |
| Shards.ShardingIrrelevant | crates/absint/src/pointsto.rs:718-775 | so however the modules are cut into shards, the relation is that of pushing them all in order |
| Shards.FirstDefinitionWins | crates/absint/src/pointsto.rs:577-674 | after any build a name is known exactly when an external function has it, and stands for the first such function |
| ModuleRuns.RunInside | crates/absint/src/pointsto.rs:577-674 | in every finite run of the modules, any functions interleaved, whatever a register or a memory place points to is in every relation that has what each instruction and initialiser can add |
| ModuleMeaning.NoLess | crates/absint/src/pointsto.rs:577-674 | every relation that meets the collected constraints has what each instruction and initialiser of the modules can add |
| ModuleMeaning.NoMore | crates/absint/src/pointsto.rs:577-674 | and any relation that has this meets all collected constraints once temporaries are added, so the least solution has nothing that no instruction adds |
| ModuleOffsets.StepwiseExactly | crates/absint/src/pointsto.rs:166-195 | an offset taken in two steps leads to where the whole offset leads exactly from TOP or when one of the steps is zero |
| ModuleOffsets.StepwiseMisses | crates/absint/src/pointsto.rs:166-195 | so in a module that stores a pointer 8 bytes into an object and loads it from 4 bytes behind 4 bytes, the constraints can be met with nothing in the loaded register |
| ModuleTables.TablesTell | crates/absint/src/pointsto.rs:577-672 | the tables have every function under its own id with its parameters and name, every function name, every global with an initialiser and every call with caller and callee, and nothing else |
| ModuleFacts.RunHeld | crates/absint/src/pointsto.rs:433-674 | in every run each register or memory place and what it points to is a pair of every closed relation of the numbered system that was built |
| Building.Builder.PushModule | crates/absint/src/pointsto.rs:577-674 | as long as there is room for nodes, the builder then holds the relation with the module pushed |
| Building.Builder.Remap | crates/absint/src/pointsto.rs:684-710 | every node of the shard gets one image, which stands for its shifted description: cells through their objects, globals by name, anything else anew |
| Building.Builder.Merge | crates/absint/src/pointsto.rs:718-775 | as long as there is room on both sides, the builder then holds the merged relation |
| Building.BuildShards | crates/absint/src/pointsto.rs:711-775 | building shards apart and merging them in order gives the relation of pushing all their modules one after the other |
| Renaming.EqualUpToNumbers | crates/absint/src/pointsto.rs:674-775 | two builders that hold the same relation differ in the numbers of nodes only: one renaming and its inverse fix TOP and carry the five lists, cells, registers, globals and poisoned objects over |
| Renaming.BuildTwice | crates/absint/src/pointsto.rs:577-775 | so do building in shards and building all modules in one go |
| WholeProgram.BuiltOffCycles | crates/absint/src/pointsto.rs:577-883 | in a relation that modules were built into, address-of targets, cells, their owners and TOP lie on no copy cycle |
| WholeProgram.SolveBuilt | crates/absint/src/pointsto.rs:820-883 | collapsing and solving what a builder collected gives every register the single target it has in the least solution of the modules' relation, if they use no unknown offset and no cap is met; then in every run of the modules a register whose single target is a named object points to the global or function of that name |
| Assembly.BuildBlocks | crates/asm/src/blocks.rs:36-126 | succeeds exactly when every branch target and every needed fall-through is a decoded offset, with the error the code reports otherwise; the blocks then are the runs between leaders |
| AssemblyRuns.StraightLineExactly | crates/asm/src/blocks.rs:36-95 | inside blocks every instruction falls through to the next exactly when every gap is followed by a leader |
| AssemblyFlow.FaithfulExactly | crates/asm/src/blocks.rs:36-126 | when instructions can be told apart, the blocks do what the list does, for all branch outcomes and any number of blocks, if and only if no leader that the list's control flow reaches starts a block with code behind a gap |
| AssemblyFlow.TracesAgree | crates/asm/src/blocks.rs:36-126 | whatever the instructions emit, on that condition running the blocks and running the list emit the same for all branch outcomes |
| AssemblyFlow.NoOrphansFree | crates/asm/src/blocks.rs:36-126 | lists in which every gap is followed by a leader meet that condition |
| AssemblyFlow.NothingLost | crates/asm/src/blocks.rs:36-126 | on that condition, after as many blocks as instructions, all that the list emitted has been emitted |
| AssemblyRuns.AgreesExactly | crates/asm/src/blocks.rs:36-126 | for one choice of outcomes and one number of blocks, the blocks' trace is a trace of the list if and only if no entered block has code behind a gap in it |
| Budget.AlwaysSafe | crates/cli/src/scan.rs:308-325 | in every interleaving of any number of workers the reserved total is the sum of the units in flight, and is within the budget or belongs to one unit |
| Budget.NeverStuck | crates/cli/src/scan_dir.rs:493-518 | until all workers are done some worker can take a step that changes something |
| Budget.LoneUnitAdmitted | crates/cli/src/scan.rs:300-325 | when nothing is in flight any waiting unit may start, however large |
| Budget.EveryStepDescends | crates/cli/src/scan_dir.rs:493-518 | every step that is not a sleep lowers a measure, so a scan ends |
| BudgetRuns.EachUnitOnce | crates/cli/src/scan_dir.rs:493-518 | in every run in which all workers have left, each unit that was not done before goes from not running to running exactly once, and no unit that was done before ever runs |
| BudgetRuns.CanFinish | crates/cli/src/scan_dir.rs:493-518 | from wherever a run has got it can be brought to such an end |
| BudgetRuns.AdmittedExactly | crates/cli/src/scan.rs:308-325 | left alone, a worker gets its waiting unit running if and only if nothing is in flight or the unit fits into the budget beside what is, in plain numbers |
| BudgetRuns.StartsWithRoom | crates/cli/src/scan.rs:308-325 | and no unit starts without that room, however other workers step between looking and reserving |
| Budget.EstimateExactly | crates/cli/src/scan.rs:291-299 | the 64-bit estimate of a unit is its full cost if and only if that fits into 64 bits |
| Budget.EstimatesExactly | crates/cli/src/scan.rs:291-299 | a scan's estimates are all kept and meet what the protocol needs if and only if the full costs add up to less than 2^64 |
| Budget.DefaultSensible | crates/cli/src/scan.rs:291-299 | with the default factor they do for up to 2^32 units of together less than 2^64 bytes |
| Checkpoint.WriteCheckpoint | crates/cli/src/scan_dir.rs:159-190 | the text is the records of the aggregate, sets and maps in some order |
| Checkpoint.ReadCheckpoint | crates/cli/src/scan_dir.rs:192-274 | the loop over lines computes the specified reading, unknown and malformed lines skipped |
| CheckpointText.FieldKeepsExactly | crates/cli/src/scan_dir.rs:124-126 | a field is kept exactly when it has no tab and no line break, and is clean afterwards in any case |
| CheckpointRoundTrip.RoundTripExactly | crates/cli/src/scan_dir.rs:159-274 | for 64-bit counts, reading back what was written restores the aggregate, in whatever order it was printed, if and only if its names are clean and its parts are consistent |
| CheckpointRoundTrip.WriteThenRead | crates/cli/src/scan_dir.rs:159-274 | so writing a checkpoint and reading it gives the same aggregate back exactly then |
| CheckpointTorn.TornLoads | crates/cli/src/scan_dir.rs:192-274 | for every prefix of a checkpoint: inside the header it is rejected, behind it all complete records are loaded, and then the piece as if it were a record |
| CheckpointTorn.WrittenCarry | crates/cli/src/scan_dir.rs:159-186 | what is written for units, findings, residuals and assumptions are such records with a name |
| CheckpointTorn.TornExactly | crates/cli/src/scan_dir.rs:215-270 | the piece of a record that carries a name changes nothing if and only if the cut is before the name, or what is left of the name is known already and counts for nothing new |

## Findings

Properties that the code does not have, each with an input, and the exact condition under which it does.

| where | what happens | shown by | holds exactly when |
|---|---|---|---|
| crates/asm/src/blocks.rs:84-94 | code behind a gap after a return or jump is appended to the block before it, and is emitted when that block runs | AssemblyRuns.OrphanRuns | AssemblyFlow.FaithfulExactly, on the instruction list |
| crates/absint/src/relational.rs:185-209 | an edge that swaps two parameters loses the real store, because parameters are bound one after the other | Relational.SequentialBindingMisses | Relational.BindingExactly |
| crates/absint/src/relational.rs:166-209 | of a branch with both sides on one block only the then side's guard and arguments are applied, which cuts out stores that come by the else side | SharedTargets.BothSidesCut | SharedTargets.GuardSharedExactly for the guard, SharedTargets.SharedExactly for the arguments |
| crates/absint/src/relational.rs:220-225 | an unsigned guard is read as signed and can cut out a real store | Relational.UnsignedGuardCuts | Relational.UnsignedGuardExactly |
| crates/absint/src/cond.rs:114 | an unsigned test is decided as if it were signed | Conditions.UnsignedCompareMisleads | Conditions.UnsignedVerdictExactly |
| crates/absint/src/analysis.rs:416 | the interval of a zero extension is that of its operand, which misses negative operands | IntervalAnalysis.ZExtMisses | IntervalAnalysis.ZExtKeepsExactly |
| crates/absint/src/interval.rs:224-234 | subtraction negates a bound that may saturate | Intervals.SubMisses | Intervals.SubSoundExactly |
| crates/absint/src/zone.rs:216-229 | empty zones differ as values, and widening two of them can alternate for ever | Zones.EmptyZonesOscillate | Zones.WidenProgressExactly |
| crates/absint/src/pointsto.rs:201-212 | a field access at an unknown offset met while solving adds TOP to an object without queueing it, so a load from the object that was wired before stays unmet | PoisonMissed.LoadLeftBehind, by way of the solver itself in PoisonMissed.SolveMissedLoad | PoisonMissed.SolvedExactly on the final state; before solving, without unknown offsets: PointsTo.Solver.Solve |
| crates/absint/src/pointsto.rs:166-195 | an offset taken in two steps names another cell than the same offset taken at once, so what is stored by one way is not found by the other | ModuleOffsets.StepwiseMisses | ModuleOffsets.StepwiseExactly, for a pointer and two offsets |
| crates/cli/src/scan.rs:299 | a memory factor that overflows the estimate can make a unit cost nothing | Budget.EstimateCanVanish | Budget.EstimateExactly for a unit, Budget.EstimatesExactly for a scan |
| crates/cli/src/scan_dir.rs:223-227 | a checkpoint torn inside the label of a finished unit is read as if the unit with the shorter label were finished | CheckpointTorn.LabelTorn | CheckpointTorn.TornExactly |

The points-to documentation says that a load through TOP yields TOP; the code
starts TOP with an empty set, and the model follows the code.

## Left out

- IntervalSoundness.RunStaysInside: runs compute in mathematical integers of magnitude at most 2^126 and zero-extend nothing negative; wrap-around of machine integers is not modelled, because the domain leaves it to other layers.
- IntervalSoundness.EvalConditionSound: asks that unsigned tests compare operands of one sign in the store at hand, which is the exact condition for reading them as signed.
- RelationalSoundness.EntryDiffsSound: zones are over unbounded integers instead of saturating 128-bit ones, and all empty zones are stored as one value. Unsigned guards see operands of one sign, no edge argument reads a parameter already bound to something else, and a branch with both sides on one block has an idle guard and agreeing arguments; the findings above give the input and the exact condition for each.
- Ir.IsRun: instructions whose result the numeric domains do not track are one definition of an arbitrary value, and a switch passes control only to blocks without parameters, as it has no arguments to pass.
- Induction.RecognizedCounts: the bound is not an opaque constant, which has no value to count towards; the recognisers for pointers are not modelled.
- PointsTo.Solver.Solve: the least-solution promise is for relations without unknown-offset accesses and below the set and node caps; for all other relations it promises that every constraint is met, but for TOP at nodes poisoned on the way. Nothing is said about byte-addressed memory.
- Collapse.ProgramPointsTo.CollapseAndSolve: address-of targets, field cells, their owners and TOP lie on no copy cycle, which `WholeProgram.BuiltOffCycles` proves of what modules are built into, and no offset is unknown.
- Building.Builder.Merge: speaks of the result only while there is room for another node on both sides; what the early returns at the node budget lose is not described. Debug names of nodes are not modelled.
- Building.Builder.PushModule: a module is its functions, known by position, the instructions that say something about pointers, and its constant initialisers in the order they are visited.
- Engine.Solve: the early return for a function without blocks is not modelled.
- AssemblyFlow.FaithfulExactly: the condition is exact for lists whose instructions emit different code; code that happens to coincide can hide a difference.
- CheckpointTorn.TornExactly: of a cut record that is a counter only, `TornLoads` says that it is read with the digits it has left.
- Assembly.BuildBlocks: instructions are abstract; decoding them is not part of this model.
- Budget.AlwaysSafe: waiting is a step that changes nothing; the clock, the memory probe and the environment variables are parameters.
- Checkpoint.WriteCheckpoint: the text is a string; the temporary file, the rename and the concurrency graph are not modelled, and folding a unit's report into the aggregate is left out as it only adds counters.
- ModuleRuns.RunInside: places are objects and the offsets taken from them one after the other, as the program names them, so two ways to one byte are two places; a run stops where it goes through an unknown pointer or uses an unknown offset, and what calls pass to parameters is unknown.
- ZoneImages.InstImage: copies of untracked registers, self-copies, null, zero and sign extensions and products are forgotten, which `InstProjects` states; widened zones are not closed, and the solver's result there is only a post-fixpoint.
- IntervalPrecision.ApplyInstExactly: products, comparisons, zero extensions and a register added to itself are not exact; products have `MulReached`, zero extensions `IntervalAnalysis.ZExtKeepsExactly`.
- PointsToRoom.RoomSuffices: few enough cells means that the nodes at the start and the fields reached in the solution are together below the node budget.
- WholeProgram.SolveBuilt: the resolution of deferred calls before the collapse, which adds copies and unknown-offset accesses one by one, and the poisoning of globals without an initialiser.
- The symbolic executor, the satisfiability solver, the front ends, the object-file and debug-information readers, the instruction decoders, the command line and its reports.
