# Models of a bytecode analyser and interpreter

The program takes apart a virtual machine that is shipped as JavaScript: it disassembles the machine's
code, cuts it into blocks, folds constants, lowers expression trees to a register bytecode of its own,
optimizes that, and runs it in a small interpreter. This project models the parts of that chain where
most can go wrong, and proves what they are for.

| directory | what is modelled | what is proved |
|---|---|---|
| `sort/` | `Array.prototype.sort`: the TimSort with galloping merges, in place, over comparators that may throw or contradict themselves | a permutation always; for a consistent comparator the one stable sorted outcome; the stack of runs never overflows |
| `optimizer/` | dead stores, call fusion, jump threading, compaction, on arrays of ops | the optimized code ends the same way, with the same world, on every host; where it does not, exactly when |
| `lowering/` | expression trees to register code, as functions and as an object that emits | running the code is evaluating the tree, with list lengths cut to sixteen bits; exactly which trees that changes |
| `summaries/` | calls that are replaced by a summary found by abstract interpretation | where the walk is contained the summary is right and nothing outside changes; contained is exact |
| `constants/` | constant propagation over blocks, one pass or a worklist, and the rewriting it does | the result is a solution, and runs are preserved, exactly up to which width; exactly which effects the rewriting loses |
| `decoder/` | the plain and the table-driven decoder, disassembly, blocks | the decoders agree, exactly when; disassembly finds exactly what is reachable; block paths are instruction paths |
| `promises/` | promises whose reactions run at once and re-enter | every reaction runs at most once, and waits or has run |
| `layout/` | shuffling and placing the probes | cells and probes correspond one to one, exactly if sixteen bits tell the probes apart |
| `common/` | options, distinct lists, powers of two, doubles and 32-bit words | |

Control flow, registers and data structures are modelled as the code has them. What an operator, a call or a
property access computes is left to a host (a record of functions that every theorem takes as a parameter), so theorems hold for all hosts. Code that works in place is a method over an `array`
or a class, proved against a function or a predicate about values.

## Findings

Each of these is a property that the code does not have on all inputs. For each there is an input, and the
condition under which the property holds; both are lemmas.

| what one would expect | where it fails | input | condition |
|---|---|---|---|
| dropping a dead store changes no run | an op that throws writes its register only if it does not throw, but liveness counts it as written for the handler too (exec.rs:611-642) | `Counterexamples.HandlerHypothesisNeeded` | `LiveRuns.HandlersSafeExactly`: right at every op if and only if no op that throws writes a register that is live at a handler but not before it, and of which some store is dropped |
| fusing an apply with its arrays changes no run | a jump out of the stretch between the arrays and the call (exec.rs:686-742) | `Counterexamples.ExitHypothesisNeeded` | `Counterexamples.ExitsSafeExact`, at every op of the stretch |
| a list is lowered with all its parts | 65536 parts and more: the length is cut to sixteen bits (exec.rs:4802-4822) | `LoweringCorrect.LongListsAreCut` | `CutLists.UnmetMeans`: unless an evaluation comes to such a list; for trees that skip nothing `CutLists.CutExactly` |
| a summary says what a call returns and leaves behind | registers above the program's own are not cleared for a call (exec.rs:5694-5696), and the walk asks neither whether an operator throws nor whether a variable is declared yet (exec.rs:904-976) | `SummaryFailures.StaleTemporary`, `SummaryFailures.LostFault`, `SummaryFailures.LostAssignment` | `SummaryExactness.ContainedExactly`, for every function |
| a function rewritten by constant propagation runs as before | the worklist is left after 64 rounds a block and 64 more, and the function is rewritten all the same, with what is known by then (defer.rs:1082-1084, 1146-1192) | `WideRuns.CutShortAndWrong`: 130 blocks, and any width from 64 to 4096 | `WideRuns.WidthExactly`: functions of a width are all rewritten soundly if and only if it is at most 63 or above 4096; of one function, `Ordered.RewritingPreserves` |
| writing known values into a tree keeps its effects | `void f()`, `f() & 0`, `f() ? c : c` lose the call (defer.rs:465-481) | `Rewriting.EffectsAreLost` | `LostEffects.KeepsExactly`, `LostEffects.ListKeepsExactly`; without those three forms `Solutions.StrictProgramKeeps` |
| the fast decoder decodes as the plain one | two kinds with one small tag (disasm.rs:268-290); a branch in slot 255 (disasm.rs:233-236) | `Refinement.ApartExactly`, `Refinement.LastSlotDiffers` | `Refinement.ApartExactly`, `Refinement.LastSlotExactly` |
| what a block's terminator names starts a block | a branch behind which control does not run on (decompile.rs:126-136) | `BlockPartition.LoneMayNotLead` | `BlockPartition.NamedLeadExactly`, in the flags of the instruction alone |
| a layout that succeeds is one to one | 65537 probes in a batch: labels are cut to sixteen bits (compute.rs:846-849) | `Layouts.LongBatch` | `Layouts.NarrowExactly` |

## Model

| member | source | states |
|---|---|---|
| ArraySort.Sort | src/payload/exec.rs:4449-4476 | if the comparator throws the array is as before; otherwise undefined values come last and the others are permuted, and sorted and stable if the comparator answers as a consistent one |
| ArraySort.SortedItemsUnique | src/payload/exec.rs:4449-4476 | for a consistent comparator there is only one outcome that is sorted and stable |
| TimSort.TimSort | src/payload/exec.rs:3389-3432 | for every comparator a permutation, for one that orders also sorted and stable; the run stack never holds more than its 85 entries |
| TimSort.MinRunLength | src/payload/exec.rs:1460-1468 | the least run length is the length itself below 64 and from 32 to 64 otherwise, and the least of which a power of two of such runs covers the array |
| TimSort.MergeCollapse | src/payload/exec.rs:3389-3432 | after collapsing, every pending run is longer than the two above it together, and the runs still tile the array and are sorted |
| RunStack.StackHeight | src/payload/exec.rs:1470-1472 | a collapsed stack of h runs covers at least two to the power (h-1)/2 items |
| RunStack.StackFits | src/payload/exec.rs:3389-3432 | so the reserved entries suffice for every array the interpreter allows |
| MergeLow.MergeLow | src/payload/exec.rs:3122-3237 | the merge from the front, galloping included, leaves the stable merge of the two runs in place, and a permutation even if the comparator lies |
| MergeHigh.MergeHigh | src/payload/exec.rs:3239-3360 | the merge from the back does the same |
| Gallop.GallopLeft | src/payload/exec.rs:2956-3010 | finds the place before all items not below the key, from any hint |
| Gallop.GallopRight | src/payload/exec.rs:3012-3066 | finds the place behind all items that the key is not below |
| Runs.CountAndMakeRun | src/payload/exec.rs:3068-3095 | the run found is sorted in place, reversed if it was strictly descending, and equal items keep their order |
| Runs.BinaryInsertionSort | src/payload/exec.rs:3097-3120 | the run is extended to a sorted and stable one |
| Comparators.ConsistentIffWeakOrder | src/payload/exec.rs:2941-2954 | a comparator is consistent in the sense of ECMA-262 if and only if answering negative is a strict weak order |
| StableOrder.StableSortUnique | src/payload/exec.rs:3389-3432 | two sorted rearrangements that keep the order of equals are the same |
| Liveness.DeadStores | src/payload/exec.rs:605-642 | settles if and only if one of 64 sweeps changes nothing; then the result is the least solution of the liveness equations and exactly its dead stores are dropped |
| Liveness.Sweep | src/payload/exec.rs:616-637 | one backward sweep in place is the sweep by the equations, stays below every solution, and says whether it changed anything |
| Liveness.LeastIsOne | src/payload/exec.rs:605-642 | there is one least solution |
| LiveRuns.DeadStoresPreserve | src/payload/exec.rs:605-642 | with and without the dropped stores, a run is at the same op, in the same world, and with the same values in live registers and in those of which no store is dropped, at every step |
| LiveRuns.HandlerSafeExact | src/payload/exec.rs:605-642 | whatever registers agree anyway: a kept op is right about liveness on all hosts if and only if it passes the check on handlers |
| LiveRuns.HandlersSafeExactly | src/payload/exec.rs:605-642 | so all are if and only if the whole function passes it |
| Counterexamples.HandlerHypothesisNeeded | src/payload/exec.rs:605-642 | four ops on which a store is dropped that the handler reads, and the call returns something else |
| Optimize.FuseApply | src/payload/exec.rs:686-742 | front to back every apply that can be fused is, in the code as it is by then, and nothing else changes |
| Optimize.FindSite | src/payload/exec.rs:669-742 | finds the two arrays that an apply can do without if and only if there are any that pass all checks |
| FusionRuns.FusionPreserves | src/payload/exec.rs:686-742 | a run of the fused code is step by step one of the unfused, the arrays apart |
| Counterexamples.ExitHypothesisNeeded | src/payload/exec.rs:686-742 | code in which a jump leaves the stretch, and fusion changes the result |
| Counterexamples.ExitsSafeExact | src/payload/exec.rs:686-742 | at every op of the stretch the check on jumps out of it is exact |
| Applies.AppliesAgree | src/payload/exec.rs:5919-5956 | on a heap, the apply over registers makes the call that the apply over the arrays makes, on its fast and its slow path |
| Threading.ThreadJumps | src/payload/exec.rs:756-776 | every jump goes where following at most the allowed hops from kept op to kept op leads |
| Threading.PruneJumps | src/payload/exec.rs:777-787 | exactly the jumps to what follows anyway disappear |
| Threading.Compact | src/payload/exec.rs:788-813 | the ops that are left close up in order, and targets, block addresses and entry move with them |
| ThreadedRuns.NewEndsOldEnds | src/payload/exec.rs:744-814 | a run of the threaded code that ends, ends as one of the unthreaded does |
| ThreadedRuns.OldEndsNewEnds | src/payload/exec.rs:744-814 | and the other way round |
| Optimize.Optimize | src/payload/exec.rs:744-814 | the passes in their order; liveness is used if and only if all registers are tracked and the sweeps settle, and then is the least and every fusible apply is fused |
| Optimize.OptimizePreserves | src/payload/exec.rs:744-814 | from the entry or any block, on every host: the run ends with this value, exception or fault and this world before the passes if and only if it does after them |
| Optimize.StartsMove | src/payload/exec.rs:806-812 | block addresses and the entry lead to the same places as before |
| Machine.SafeOpsStay | src/payload/exec.rs:515-534 | an op that is counted as safe does not throw |
| LoweringCorrect.ExpressionRuns | src/payload/exec.rs:4824-5041 | the code of any expression runs to its end and leaves its value, world, exception or fault, list lengths cut to sixteen bits; program registers other than the target never change |
| LoweringCorrect.LongListsAreCut | src/payload/exec.rs:4802-4822 | a list of n registers becomes one op that takes n modulo 65536 of them |
| CutLists.NarrowMeans | src/payload/exec.rs:4802-4822 | if every list fits sixteen bits, cutting changes no evaluation |
| CutLists.UnmetMeans | src/payload/exec.rs:4802-4822 | on every host: as long as an evaluation comes to no list that does not fit, cutting does not change it |
| CutLists.CutExactly | src/payload/exec.rs:4802-4822 | for expressions that skip nothing, cutting changes some evaluation if and only if a list does not fit |
| Bounds.LowerClosed | src/payload/exec.rs:4824-5041 | every op that is emitted stays within the registers and lists, and jumps forward and not beyond the code |
| Emitter.Emitter.LowerExpr | src/payload/exec.rs:4824-5041 | the emitting object ends up as the lowering function says, and returns its register |
| Emitter.Emitter.EmitChoice | src/payload/exec.rs:4870-4891 | a conditional, with its two jumps filled in afterwards |
| AbstractValues.XorAtomsLoop | src/payload/exec.rs:840-869 | the merge loop computes the merge of the two atom lists |
| AbstractValues.XorAtomsMix | src/payload/exec.rs:840-869 | merging atoms is exclusive or of what they stand for |
| AbstractValues.AvBinarySound | src/payload/exec.rs:871-902 | the abstract operator denotes what the operator yields |
| Summaries.SummarizeCase | src/payload/exec.rs:904-976 | the loop of at most 256 steps is the walk |
| SummaryRuns.WalkedTidy | src/payload/exec.rs:840-976 | in whatever a walk comes out as, no argument stands twice |
| SummarySoundness.SummaryHolds | src/payload/exec.rs:978-991 | if the walk is contained, a call on scalar arguments, from whatever temporaries, returns what the summary says within 256 steps, and changes nothing outside; it may be trusted that operators on scalars yield scalars, or that all operators yield |
| SummaryExactness.ContainedExactly | src/payload/exec.rs:904-991 | of every function: the walk is contained if and only if every such call, on every outside with the same arithmetic, goes op by op where the walk goes; both with and without trust in operators on scalars (which exec.rs:1997-2013, 2136-2216, 5981-6000 deserve, but for `in`, `instanceof` and `delete`) |
| SummaryFailures.StaleTemporary | src/payload/exec.rs:5686-5697 | a function that returns a register never written: its summary is undefined, its call returns what an earlier call left |
| SummaryFailures.LostFault | src/payload/exec.rs:935-946 | a function whose operator faults, and whose summary says 1 |
| SummaryFailures.LostAssignment | src/payload/exec.rs:920-924 | a function that assigns to a variable of an outer scope, and whose summary does not |
| Propagation.KnownSound | src/payload/defer.rs:491-683 | a value that evaluation knows is the one a run computes |
| Propagation.AfterSound | src/payload/defer.rs:696-784 | what is known after a list of statements holds after every run of it |
| Rewriting.WrittenSound | src/payload/defer.rs:465-481 | a tree with known values written in evaluates as before, if what is overwritten has no effects |
| Rewriting.EffectsAreLost | src/payload/defer.rs:465-481 | three trees that lose the effect of a call |
| Rewriting.StrictKeeps | src/payload/defer.rs:465-481 | a tree without those three forms loses none |
| LostEffects.CountingIsLoud | src/payload/defer.rs:465-481 | there is a host in which every effect can be seen, for all folds that leave objects alone |
| LostEffects.KeepsExactly | src/payload/defer.rs:465-481 | for trees of which all parts are evaluated: on a host where effects can be seen the tree keeps its meaning if and only if nothing with effects is overwritten |
| LostEffects.ListKeepsExactly | src/payload/defer.rs:696-784 | the same for straight-line code |
| Solutions.RunForeseen | src/payload/defer.rs:844-1192 | on every run, what a solution knows at a block holds there, and blocks not reached are never entered |
| Solutions.RewritePreserves | src/payload/defer.rs:1146-1192 | the rewritten program runs block by block as before, if what is overwritten has no effects |
| Solutions.StrictProgramKeeps | src/payload/defer.rs:1146-1192 | which is so in every program without `void`, bitwise and, and conditionals |
| Worklist.Propagate | src/payload/defer.rs:1070-1145 | ends with what the rounds allowed make of the start, round by round; it is cut short exactly if blocks still wait then, and otherwise ends with a solution that holds at the roots; with at most 63 slots it is never cut short |
| DepthFirst.LeaveOrder | src/payload/defer.rs:968-1003 | the depth-first search lists exactly what the roots reach, says whether they reach a cycle, and if not, the list is a postorder |
| Ordered.PropagateOnce | src/payload/defer.rs:1004-1069 | without cycles a single pass in reverse postorder finds a solution |
| Ordered.Analyze | src/payload/defer.rs:844-1145 | done, that is with a solution that holds at the roots, if and only if the roots reach no cycle or the worklist is not cut short; so with at most 63 slots, and without cycles at any width |
| Ordered.AnalysisPreserves | src/payload/defer.rs:844-1192 | with a solution, from any root: the rewritten program runs as before where effects are kept, and so without condition where no `void`, bitwise and or conditional stands |
| Ordered.RewriteFunction | src/payload/defer.rs:844-1192 | the whole function: left alone above 4096 slots, and otherwise rewritten by what the analysis is left with, be it a solution or not |
| Ordered.RewritingPreserves | src/payload/defer.rs:844-1192 | so unless the worklist is cut short, a function that can lose no effects otherwise runs as before |
| WideCycles.RingCut | src/payload/defer.rs:1070-1145 | on a ring of 129 blocks through which one constant is lost each time around, what the worklist is left with: 63 slots have lost their constant at the last block, the 64th has not |
| WideRuns.CutShortAndWrong | src/payload/defer.rs:1070-1192 | that function, at any width from 64 to 4096: the worklist is cut short, and what the function is rewritten to runs differently |
| WideRuns.WidthExactly | src/payload/defer.rs:844-1192 | all functions of a width run as before, apart from effects that rewriting a tree loses, if and only if the width is at most 63 or above 4096 |
| Decoding.Decode | src/payload/disasm.rs:83-131 | the decoding loop, with its seeks, is the decoding by template |
| Shapes.Compile | src/payload/disasm.rs:204-254 | the byte program of a template |
| Shapes.BuildKinds | src/payload/disasm.rs:267-293 | the table holds for each small word the last tag equal to it |
| Shapes.LookUp | src/payload/disasm.rs:295-317 | looking a word up, in the table if it is small, gives its kind |
| Shapes.FastDecode | src/payload/disasm.rs:354-402 | the loop over a byte program is the reading by program |
| Refinement.DecodersAgree | src/payload/disasm.rs:34-402 | same operands, same next address, same target, or both fail, for every code, address and template, if tags are apart and no branch is in slot 255 |
| Refinement.ApartExactly | src/payload/disasm.rs:267-317 | values decode alike from all code if and only if no two kinds share a tag of the table |
| Refinement.LastSlotExactly | src/payload/disasm.rs:233-254 | over all templates: the decoders agree on all code if and only if no branch is in slot 255, or some seek can never be made |
| Refinement.LastSlotDiffers | src/payload/disasm.rs:233-254 | n values and a branch in slot 255: where the plain decoder fails or finds a target, the fast one finds neither |
| Disassembly.Disassemble | src/payload/disasm.rs:404-484 | marks exactly the addresses reachable from the entry, and lists every instruction once |
| BlockPartition.FindMembers | src/payload/decompile.rs:57-112 | members are what the entry reaches; a block starts where control arrives from not exactly one place, or not by running on |
| BlockPartition.BuildBlocks | src/payload/decompile.rs:113-165 | one block for each start; every member is in some block |
| BlockPartition.BlocksDisjoint | src/payload/decompile.rs:113-165 | and in no two, nor twice in one |
| BlockPartition.TargetsLead | src/payload/decompile.rs:120-152 | what a terminator names starts a block of the function, unless it is a branch behind which control does not run on |
| BlockPartition.NamedLeadExactly | src/payload/decompile.rs:120-152 | in all programs, for an instruction with given flags: if and only if it is no such branch |
| BlockPaths.PathsAreBlockPaths | src/payload/decompile.rs:57-165 | a sequence of instructions from the entry is a path of control flow if and only if linked pieces of blocks spell it out, and they do so in one way only |
| BlockPaths.LinksAreNamed | src/payload/decompile.rs:120-152 | a block leads to exactly what its terminator and the target list of its last instruction name |
| BlockPaths.PiecesAreWhole | src/payload/decompile.rs:113-165 | if instructions that run on have no targets, blocks are left at their ends only |
| Reactions.Heap.Settle | src/payload/exec.rs:2671-2701 | a pending promise gets its state and value, or follows another; all reactions it sets off are accounted for |
| Reactions.Heap.React | src/payload/exec.rs:2702-2727 | one reaction runs, and what it sets off is accounted for |
| Reactions.Heap.Chain | src/payload/exec.rs:2728-2743 | a reaction waits if its promise does, and runs at once otherwise |
| Reactions.AtMostOnce | src/payload/exec.rs:2662-2743 | in every heap that comes to be, each reaction waits or has run, at most once in all, and exactly once if nothing faulted |
| Layouts.ReadPermutation | src/payload/compute.rs:628-649 | the shuffled identity is read as a permutation if and only if it is one |
| Layouts.Place | src/payload/compute.rs:815-873 | for every batch list, what comes of placing, error by error; a layout is one to one if and only if sixteen bits tell batches and probes apart, and so are the cells noted |
| Layouts.NarrowExactly | src/payload/compute.rs:845-873 | the same of the cells |
| Layouts.LongBatch | src/payload/compute.rs:846-856 | one batch of any length is laid out; from 65537 probes on two cells hold the same |

## Left out

- Optimize.OptimizePreserves: says nothing of functions in which liveness is wrong about a handler, for a register that some store to is left out, or a jump leaves a fused stretch for where an array is live; those can change meaning (see Findings). The exact conditions are stated op by op; whether a run comes by is not decided.
- LiveRuns.DeadStoresPreserve: likewise, for handlers.
- LiveRuns.HandlersSafeExactly: exact for one op from arbitrary registers, as above.
- FusionRuns.FusionPreserves: likewise, for jumps out of the stretch.
- Counterexamples.ExitsSafeExact: exact for one op from arbitrary registers, as above.
- SummarySoundness.SummaryHolds: says nothing of functions whose walk is not contained; their calls can come out otherwise (see Findings).
- LostEffects.KeepsExactly: exact for trees of which all parts are evaluated, without negations and with conditionals only of one constant in both arms; in other trees an effect may be lost where no run comes.
- LostEffects.ListKeepsExactly: exact for assignments, evaluations and acts of such trees; of whole programs only Solutions.RewritePreserves is stated.
- Rewriting.WrittenSound: says nothing of trees in which an effect is overwritten; those lose it (see Findings).
- Solutions.RewritePreserves: likewise, for programs.
- Ordered.AnalysisPreserves: likewise, for programs.
- CutLists.CutExactly: exact for expressions without short circuits and conditionals; behind those a long list may stand where no run comes, and one that is only tested or dropped may be cut unnoticed, so that UnmetMeans has no converse.
- Refinement.LastSlotExactly: templates of 2^32 - 1 operands and more are not considered; spans of compiled programs, which are cut to 32 bits (disasm.rs:240-243), are unbounded here.
- ArraySort.Sort: the comparator cannot change the array while it is sorted.
- TimSort.TimSort: the comparator is a source of answers, not a callback that could change the array being sorted; the default comparison by strings is one comparator among others. The array of work is always as long as the values taken from the array.
- Layouts.Place: the number of cells fits 32 bits; running the shuffle, finding the worker and serializing the layout are not modelled.
- Reactions.Heap.Settle: what a callback does is a script chosen beforehand from a finite budget of actions.
- Expressions are trees: the program keeps them in one vector by number, and shared or cyclic trees are not modelled.
- Arithmetic is on reals with NaN, infinities and a negative zero; rounding is not modelled.
- The step budget of the interpreter, inline caches, and the size limits of arrays (other than for sorting) are not modelled; neither is the identity of arrays built by an op, except in Applies.
- LoweringCorrect.ExpressionRuns: names and members that are folded to constants at lowering are not modelled, nor are statements and the arguments object.
- Propagation.KnownSound: constant arrays, known functions and summaries of called functions are not part of the model.
- Propagation.AfterSound: likewise.
- The cipher and the key schedule, the recovery of register layouts, scope addressing, the varint reader, the catalogue of signals, HTTP routes and work time tracking are not modelled.
