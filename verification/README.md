# PSXRecomp: a model of the static recompiler and proofs about it

PSXRecomp translates MIPS R3000A code of PlayStation programs into C. This project models the
middle of that translation and proves properties of the model:

1. **From words to C.** Control-flow graphs of single functions, the C emitted for them in
   continuation-passing mode as a small statement language, the splitting of functions at
   mid-function targets, alias groups, jump tables, and the flat dispatch table that drives the
   emitted functions. The reference is a pc/next-pc machine for the MIPS I instructions.
2. **Overlays.** Which captured addresses become functions, the identity of a compiled function
   (entry and CRC-32 of its code ranges), the range manifests as text, and the cache that decides
   which captures need no new build.
3. **The independent analysers**: basic blocks of a whole image, the two function walkers, and the
   branch-delay hazard scan.

The main theorem is `WholeRun.MeaningPreserved`: a run of the emitted program under the dispatcher
stands, after every event, where the reference machine stands after the same instructions, with the
same registers, hi, lo and memory and at the same address.

## Files

| files | what they hold |
|---|---|
| Words, Masks, Isa, Reference | 32-bit words and memory, bit masks, the instruction set, runs of the reference machine and the conditions on the code |
| ControlFlow, JumpTables, Translate, Emit, Labels | graphs of functions, the table scans, the C of one instruction, the C of blocks and functions, where labels stand |
| Runtime, Preserve, Exits, BlockRun | what the emitted C does, and that a block does what the machine does |
| Generate, Generator, Routing, StackDepth, WholeRun, OpenEnds | whole programs, the dispatch table, runs, the C stack, cycles, code that runs off its end |
| Examples, WordImages | small concrete images |
| Addresses, Split, Converged | the mid-function split pass and what its convergence gives |
| Walkers, Seeds, FinalCaps | the two walkers, the classification of captured addresses, closure under the final caps |
| Crc, Identity, Manifest, ManifestText, RangesManifest, CoverageCache | checksums, identities, manifests, the cache |
| ImageBlocks, Hazard, UnalignedPairs | whole-image blocks, the hazard scan, lwl/lwr and swl/swr pairs |

## Conditions on the code

The theorems about runs ask for these conditions, and only at the labels a run comes to:

- `Reference.GoodTransfer`: a transfer is one of the modelled branches and jumps (no branch-likely),
  its delay slot holds no transfer and does not write the register `jr`/`jalr` reads or the link
  register; `jalr` has different registers; `bltzal`/`bgezal` do not test register 31; a fixed target
  is not 0.
- `Reference.GoodPlain`: any other instruction is one of the modelled ones and does not set register 0
  (`Translate.ClobbersZero`).
- `Reference.NoOverflow`: on the way to the next event no `div` divides the least integer by -1.
- `Preserve.CanonicalTable`: a jump-table entry with a label of its own is the address that label stands
  for, that is, the recompile-time remapping of RAM to ROM leaves it alone.
- `Preserve.LabelsEmitted`: a table target inside a block is not the delay slot that is emitted with its
  transfer, so its label is emitted.

Functions start and end on words below the top of the address space, start at different addresses, and
all aliases of a host list one another (`Generate.Build.Valid`). Nothing is asked for the bound on the
C stack, for routing, or for what happens to code that runs off the end of a function.
A function that only returns meets them all (`Examples.ConditionsAreMet`).

## Findings

Where the code does less than its own documentation or these properties would suggest:

- `addi`/`addiu $zero, $zero, imm` sets `cpu->gpr[0]`: the test for `$zero` as source comes first
  (code_generator.cpp:136-138). `Translate.TranslationCorrect` gives the exact condition.
- Signed division of the least integer by -1 has no meaning in C (code_generator.cpp:645-654), while the
  R3000A leaves the dividend and remainder 0. The same lemma includes it; `Translate.DivOverflowExample`.
- Code that runs up to the end of its function where no other starts returns with `cpu->pc` clear, which
  the dispatcher takes for the end of the program (code_generator.cpp:1940-1950). `OpenEnds.OpenEndFinishes`
  shows that such a run always finishes there; `Examples.OpenEndExample` is one.
- `analyze_function` never fills the predecessor lists, so the trailing call of `generate_function` is emitted
  only when the last block is the first; the call at the end of the block itself does the work.
- A jump-table entry into the middle of a block whose delay slot lies behind the block is charged one cycle
  too few (`Examples.ShortEntryExample`); that is the only way cycles and instructions come apart.
- The entry switch that hands back a foreign address in overlay mode exists only when the function has a
  continuation. A function of one block runs from its top with `cpu->pc` still set (`Routing.ForeignAddress`,
  `Examples.ForeignAddressExample`).
- The blocks of a function tile it, so the range manifest always holds one range per function; the source's
  comment about gaps left out of it never applies.
- Both walkers mark a delay slot visited together with its transfer. An edge onto a delay slot can so be lost
  (`Walkers.EdgeOntoSlotLosesPath`), and a walk can call less under a wider cap than under a narrower one, so
  the roots of an overlay need not be closed under the final caps (`FinalCaps.LateRootEscapes`).
- Pieces made for several targets in one gap between functions overlap (`Split.GapPiecesOverlap`).
- The whole-image analyser gives address 4 as a successor of a transfer that is the last instruction of the
  image (`ImageBlocks.CutOffExample`).
- The hazard scan leaves out register 0 and so misses delay slots that set it (`Hazard.UnflaggedEmitted` says
  exactly which).
- A forced rebuild can leave the coverage in memory larger than what the manifests list
  (`CoverageCache.ForcedRebuild`).

## Model

| member | source | states |
|---|---|---|
| ControlFlow.AnalyzeFunction | psxrecomp-master/recompiler/src/control_flow.cpp:353-488 | the loops of analyze_function build the graph that the leader rule describes: blocks in address order, each with its exit and successors |
| ControlFlow.CollectBoundaries | psxrecomp-master/recompiler/src/control_flow.cpp:365-404 | the boundary vector, sorted and deduplicated, is the sequence of leaders: start, alias entries, targets, addresses behind delay slots |
| ControlFlow.BlocksTile | psxrecomp-master/recompiler/src/control_flow.cpp:365-467 | every instruction of the walked range lies in exactly one block, that of the last leader at or before it |
| ControlFlow.BlockShape | psxrecomp-master/recompiler/src/control_flow.cpp:365-467 | a block is a nonempty aligned stretch of the function up to the next leader or the end, without a leader inside |
| ControlFlow.TransferAtBlockEnd | psxrecomp-master/recompiler/src/control_flow.cpp:365-467 | every control transfer is the last or last but one instruction of its block |
| ControlFlow.ExitIsTheTransfer | psxrecomp-master/recompiler/src/control_flow.cpp:418-441 | with no transfer in a delay slot the recorded exit is the transfer the block contains |
| ControlFlow.ExitKind | psxrecomp-master/recompiler/src/control_flow.cpp:418-441 | a recorded exit is a transfer at one of those two places, and without one there is none there |
| ControlFlow.SuccessorsExact | psxrecomp-master/recompiler/src/control_flow.cpp:443-467 | the successors are exactly the next addresses of the exit inside the function (register targets aside), and each is a leader |
| ControlFlow.SiblingsShareCfg | psxrecomp-master/recompiler/src/control_flow.cpp:353-375 | all aliases of one host get the same graph |
| JumpTables.ScanForTable | psxrecomp-master/recompiler/src/code_generator.cpp:1684-1760 | the backward scan as a loop finds the table its step function describes |
| JumpTables.ScansAgree | psxrecomp-master/tools/compile_overlays.py:303-375 | the emitting scan, the pre-scan and the overlay tool's scan find the same base (modulo 2^32) and count, except that the first two take base 0 for no table |
| Translate.TranslationCorrect | psxrecomp-master/recompiler/src/code_generator.cpp:749-1250 | the emitted statement has the instruction's effect on registers, hi, lo and memory if and only if the word does not set register 0 and no signed division overflows |
| Translate.DivOverflowExample | psxrecomp-master/recompiler/src/code_generator.cpp:645-654 | `div` of the least integer by -1: the machine has a result, the emitted C none |
| Translate.ClobberedZeroExample | psxrecomp-master/recompiler/src/code_generator.cpp:130-146 | `addiu $zero, $zero, 1` sets register 0 in the emitted C |
| Translate.ConditionCorrect | psxrecomp-master/recompiler/src/code_generator.cpp:703-747 | the emitted branch condition is the architecture's for every modelled branch |
| Translate.LoadHelpersAgree | psxrecomp-master/recompiler/src/code_generator.cpp:2632-2654 | the masks and shifts of psx_lwl and psx_lwr move the bytes the instructions move |
| Translate.StoreHelpersAgree | psxrecomp-master/recompiler/src/code_generator.cpp:2656-2686 | those of psx_swl and psx_swr change the bytes the instructions change |
| Masks.ByteMasks | psxrecomp-master/recompiler/src/code_generator.cpp:2632-2686 | the and-masks of the helpers, bit by bit, are remainders and what remains of them |
| Masks.ByteShifts | psxrecomp-master/recompiler/src/code_generator.cpp:2632-2686 | the shifts of the helpers are products and quotients |
| Emit.ScanJrTables | psxrecomp-master/recompiler/src/code_generator.cpp:2237-2278 | the edges recorded are each block's table targets in the function, the extra labels exactly the targets that are no leaders |
| Emit.CollectTargets | psxrecomp-master/recompiler/src/code_generator.cpp:2237-2278 | the targets of one table, in entry order, each remapped and kept when inside the function |
| Emit.TranslateBasicBlock | psxrecomp-master/recompiler/src/code_generator.cpp:1404-1954 | the emission loop produces the block's text: label, charge, instructions with inline labels, exit, fall-through |
| Emit.LiveBlocks | psxrecomp-master/recompiler/src/code_generator.cpp:2314-2346 | the work list of an alias group ends with the least set of blocks that holds the entries and is closed under successors and table edges |
| Labels.GotoFindsLabel | psxrecomp-master/recompiler/src/code_generator.cpp:1418-1438 | a goto to a label of an emitted block resumes in front of that instruction's code |
| Preserve.PlainStep | psxrecomp-master/recompiler/src/code_generator.cpp:1447-1451 | one emitted instruction does what the reference machine's step does |
| Exits.ExitArrives | psxrecomp-master/recompiler/src/code_generator.cpp:1464-1901 | link, saved condition, delay slot and transfer take the host where the machine is after two steps, and charge what the entered label is owed |
| Exits.SlotDisturbsNothing | psxrecomp-master/recompiler/src/code_generator.cpp:1464-1540 | what the transfer reads or writes again behind its delay slot is as before it |
| Exits.SwitchTransparent | psxrecomp-master/recompiler/src/code_generator.cpp:1684-1830 | for any recognised table the jump goes to the label of the remapped register, exactly when the register is the first table entry for a labelled address, and publishes the register otherwise |
| BlockRun.RunFrom | psxrecomp-master/recompiler/src/code_generator.cpp:1404-1954 | from any instruction of a block the emitted code reaches its next event where the machine stands, with cycles accounted for |
| BlockRun.LabelToEvent | psxrecomp-master/recompiler/src/code_generator.cpp:1404-1954 | the same from any label of an emitted block |
| BlockRun.BlockCyclesIsRest | psxrecomp-master/recompiler/src/code_generator.cpp:1306-1327 | a block charges the instructions it executes, an outside delay slot once |
| BlockRun.EntryChargeIsOwed | psxrecomp-master/recompiler/src/code_generator.cpp:74-111 | a table entry into a block charges the rest of it, less one when its delay slot is outside |
| Generator.PartialBlockCycleCount | psxrecomp-master/recompiler/src/code_generator.cpp:74-92 | the loop over the blocks finds the rest of the block that holds the address |
| Generator.GenerateFunction | psxrecomp-master/recompiler/src/code_generator.cpp:2036-2225 | the function's text and its registered continuations |
| Generator.GenerateAliasGroup | psxrecomp-master/recompiler/src/code_generator.cpp:2280-2441 | the shared body of a host's aliases, over the live blocks |
| Generator.GenerateAllFunctions | psxrecomp-master/recompiler/src/code_generator.cpp:2448-2558 | all texts and the owner of every continuation, in the order of the functions, stubs and wrappers included |
| Generator.EntryCases | psxrecomp-master/recompiler/src/code_generator.cpp:2083-2156 | the entry switch has one case per distinct continuation |
| Generate.LiveSetClosed | psxrecomp-master/recompiler/src/code_generator.cpp:2314-2346 | the live blocks of a group hold its entries and are closed under successors and table edges |
| Generate.ContinuationsAreLeaders | psxrecomp-master/recompiler/src/code_generator.cpp:2083-2110 | every registered continuation is the leader of an emitted block, and every such leader that is no entry is registered |
| Generate.ContinuationHasOwner | psxrecomp-master/recompiler/src/code_generator.cpp:2111-2156 | every continuation has an owner in the map |
| Generate.EveryStartIsCallable | psxrecomp-master/recompiler/src/code_generator.cpp:2448-2558 | every function, alias and stub can be called by its start |
| Routing.UnitEnters | psxrecomp-master/recompiler/src/code_generator.cpp:2083-2156 | entered with `cpu->pc` clear or at a continuation, a function reaches the label of that address with `cpu->pc` 0 and nothing else changed |
| Routing.OwnerServes | psxrecomp-master/recompiler/src/main_psx.cpp:916-945 | the owner of an address is a translated function with an entry case and a label for it |
| Routing.LeaderHasOwner | psxrecomp-master/recompiler/src/code_generator.cpp:2083-2110 | every emitted leader that is no entry has an owner |
| Routing.ForeignAddress | psxrecomp-master/recompiler/src/code_generator.cpp:2111-2156 | in overlay mode an address the function does not serve is handed back with nothing changed, exactly when it has a continuation |
| Routing.WithoutContinuations | psxrecomp-master/recompiler/src/code_generator.cpp:2083-2110 | it has none just when it is one block that calls no function returning to it |
| Examples.ForeignAddressExample | psxrecomp-master/recompiler/src/code_generator.cpp:2111-2156 | a function that only returns, called for a foreign address, runs from its top with the address still in `cpu->pc` |
| StackDepth.UnitCalls | psxrecomp-master/recompiler/src/code_generator.cpp:1940-1950 | the only function an emitted body calls is the one that starts where it ends |
| StackDepth.StackBounded | psxrecomp-master/recompiler/src/code_generator.cpp:2187-2216 | for every image, entry, state and length of run the C stack is at most as deep as there are emitted functions and bodies |
| WholeRun.InStep | psxrecomp-master/recompiler/src/main_psx.cpp:916-945 | one step of the program, whatever it is in the middle of, keeps it in step with the machine and charges what it executes |
| WholeRun.RunsInStep | psxrecomp-master/recompiler/src/code_generator.cpp:1404-1954 | after any number of steps the program stands where the machine does after the instructions of those steps |
| WholeRun.MeaningPreserved | psxrecomp-master/recompiler/src/code_generator.cpp:1404-1954 | whole-run meaning preservation: same registers, hi, lo and memory, the label, entry or published address is the machine's pc, and the only ways to stop |
| WholeRun.FinishesAtZero | psxrecomp-master/recompiler/src/code_generator.cpp:1940-1950 | when no function runs off its end the program finishes exactly at address 0 |
| WholeRun.KeepsExecuting | psxrecomp-master/recompiler/src/main_psx.cpp:916-945 | unless it stops, the program executes as many instructions as one waits for |
| WholeRun.CyclesConserved | psxrecomp-master/recompiler/src/code_generator.cpp:1306-1395 | charged cycles are instructions executed, plus what was paid ahead, if and only if no entry charged too few |
| WholeRun.CyclesExact | psxrecomp-master/recompiler/src/code_generator.cpp:1306-1395 | they are, when no label lies inside a block whose delay slot is outside |
| WholeRun.BuildsAgree | psxrecomp-master/recompiler/src/code_generator.cpp:2363-2441 | two builds of one image agree on registers, memory and published address after equally many instructions, so an alias runs as its host does |
| OpenEnds.OpenEndFinishes | psxrecomp-master/recompiler/src/code_generator.cpp:1940-1950 | from any label of a last block without a transfer, with no function behind it, the run finishes with the machine's state at the end of the function |
| Examples.OpenEndExample | psxrecomp-master/recompiler/src/code_generator.cpp:1940-1950 | a function of one instruction with nothing behind it does |
| Examples.ShortEntryExample | psxrecomp-master/recompiler/src/code_generator.cpp:1791-1796 | a table whose one entry charges two cycles for three instructions |
| Examples.ConditionsAreMet | psxrecomp-master/recompiler/src/code_generator.cpp:1404-1954 | the function that only returns meets all the conditions of the run theorems, in every run from every state |
| Split.ScanCfgs | psxrecomp-master/recompiler/src/code_generator.cpp:2731-2764 | the targets found are exactly the unknown aligned image addresses some scanned graph leads to without a block |
| Split.SplitFunction | psxrecomp-master/recompiler/src/code_generator.cpp:2825-2860 | cutting one function: it keeps the first piece, each target gets the stretch to the next |
| Split.SplitPass | psxrecomp-master/recompiler/src/code_generator.cpp:2719-2883 | one pass changes the functions that hold targets, adds a piece per target and leaves the rest |
| Split.SplitPrePass | psxrecomp-master/recompiler/src/code_generator.cpp:2719-2883 | the loop ends, at the end no graph has an unresolved target though later passes scan only rebuilt graphs, and a range tiled by its functions stays tiled |
| Split.SplitTiles | psxrecomp-master/recompiler/src/code_generator.cpp:2825-2860 | the pieces of a split function tile its old range exactly and keep its data mark |
| Split.TilesOnce | psxrecomp-master/recompiler/src/code_generator.cpp:2719-2883 | in a tiled range every address is in exactly one of the functions that start there |
| Split.ConvergedTargets | psxrecomp-master/recompiler/src/code_generator.cpp:2719-2883 | on convergence every branch target, branch fall-through and jump target in the image is a block of its function or a function start |
| Split.GapPiecesOverlap | psxrecomp-master/recompiler/src/code_generator.cpp:2806-2824 | pieces of two targets in one gap overlap |
| Converged.DirectTargetsDispatch | psxrecomp-master/recompiler/src/code_generator.cpp:2719-2883 | then every fixed target goes to a label of the same body or to the entry of an emitted function |
| UnalignedPairs.PairLoadsWord | psxrecomp-master/recompiler/src/code_generator.cpp:2632-2654 | lwl at a+3 and lwr at a, in either order, load the little-endian word at a whatever the register held |
| UnalignedPairs.PairStoresBytes | psxrecomp-master/recompiler/src/code_generator.cpp:2656-2686 | swl and swr at the same addresses change exactly those four bytes |
| UnalignedPairs.StoreThenLoad | psxrecomp-master/recompiler/src/code_generator.cpp:2632-2686 | store then load gives the value back |
| UnalignedPairs.LoadThenStore | psxrecomp-master/recompiler/src/code_generator.cpp:2632-2686 | load then store leaves every byte as it was |
| Walkers.WalkIsSound | psxrecomp-master/tools/build_instruction_inventory.py:315-396 | a walk, in either order, marks only what is reachable and its delay slots |
| Walkers.WalkIsComplete | psxrecomp-master/tools/compile_overlays.py:397-474 | with no edge onto a delay slot it marks all of that |
| Walkers.EdgeOntoSlotLosesPath | psxrecomp-master/tools/compile_overlays.py:397-474 | without that, a reachable address can be missed |
| Walkers.WalkOverlayFunction | psxrecomp-master/tools/compile_overlays.py:397-474 | the loop visits, and notes calls, branch targets and table targets, as the walk over the graph says |
| Walkers.OverlayWalkStaysInside | psxrecomp-master/tools/compile_overlays.py:397-474 | it visits only word addresses of the function's range |
| Walkers.WalkFunction | psxrecomp-master/tools/build_instruction_inventory.py:315-396 | the inventory's loop, its addresses in order and the last byte |
| Walkers.InventoryWalkStaysInside | psxrecomp-master/tools/build_instruction_inventory.py:315-396 | it visits only word addresses of the range, from an aligned entry |
| Walkers.FindJumpTableTargets | psxrecomp-master/tools/compile_overlays.py:303-375 | the table entries inside the function |
| Seeds.IncludeAll | psxrecomp-master/tools/compile_overlays.py:549-597 | offering addresses keeps the tally sound, never drops one, and makes roots of exactly the admitted ones among those offered |
| Seeds.WalkPending | psxrecomp-master/tools/compile_overlays.py:605-635 | the inner fixpoint: every root has been walked, what each walk called under its cap is a root, and every new root was called so |
| Seeds.FindRoots | psxrecomp-master/tools/compile_overlays.py:597-675 | both fixpoints end; every new root was called or promoted, and in the kernel window no valid interior is left uncovered |
| Seeds.LowestOrphan | psxrecomp-master/tools/compile_overlays.py:640-675 | the interior promoted next is the lowest uncovered one |
| Seeds.Classify | psxrecomp-master/tools/compile_overlays.py:499-705 | no fatal reason is included, every candidate is included or excluded with its verdict, the roots are accounted for, and kernel interiors are covered by the final roots |
| FinalCaps.ClosedAtFinalCaps | psxrecomp-master/tools/compile_overlays.py:605-690 | the roots call only roots under the final caps too, when no walk met an edge onto a delay slot |
| FinalCaps.LateRootEscapes | psxrecomp-master/tools/compile_overlays.py:605-690 | otherwise they need not: a capture whose final walk calls an address that is no root |
| Crc.UpdateLoop | psxrecomp-master/runtime/src/crc32.c:27-32 | the table-driven loop computes the update function |
| Crc.UpdateIsSerial | psxrecomp-master/runtime/src/crc32.c:11-32 | the table gives what eight bit-serial steps per byte give (section 8 of RFC 1952) |
| Crc.ChainedRangesAreWhole | psxrecomp-master/runtime/include/crc32.h:12-15 | folding ranges one after the other gives the checksum of their concatenation |
| Identity.ComputeFuncIds | psxrecomp-master/tools/compile_overlays.py:1216-1232 | the identities of all functions, those without code or with code outside the capture left out |
| Identity.IdsDependOnCodeOnly | psxrecomp-master/tools/compile_overlays.py:1216-1232 | captures that agree on the code bytes have the same identities and cache keys, whatever lies between |
| Identity.IdentityIsCodeCrc | psxrecomp-master/tools/compile_overlays.py:1216-1232 | the recorded checksum is the runtime's over the joined code ranges |
| Manifest.MergeIntervals | psxrecomp-master/recompiler/src/code_generator.cpp:2921-2946 | merged intervals are in order with real gaps and cover exactly the union |
| Manifest.FunctionRanges | psxrecomp-master/recompiler/src/code_generator.cpp:2906-2949 | a function's merged ranges are one range, its whole extent |
| RangesManifest.GenerateRangesManifest | psxrecomp-master/recompiler/src/code_generator.cpp:2906-2949 | the lines written are the printed entries of the functions that have a graph |
| RangesManifest.ManifestReadBack | psxrecomp-master/tools/compile_overlays.py:1190-1214 | reading the written manifest gives those functions of the overlay, each with its extent |
| ManifestText.ParseManifest | psxrecomp-master/tools/compile_overlays.py:1190-1214 | the line loop parses as the line function does |
| ManifestText.ManifestRoundTrip | psxrecomp-master/tools/compile_overlays.py:1190-1214 | printed F and R lines parse back to the same entries and ranges |
| ManifestText.LoadCoverage | psxrecomp-master/tools/compile_overlays.py:1260-1287 | the coverage of a manifest is the set of identities its lines name |
| ManifestText.CoverageRoundTrip | psxrecomp-master/tools/compile_overlays.py:1235-1249 | what the overlay tool writes, the coverage loader reads back as the same identities |
| CoverageCache.OverlayCache.Process | psxrecomp-master/tools/compile_overlays.py:1745-1747 | one capture updates the cache as its verdict says |
| CoverageCache.NextIsSafe | psxrecomp-master/tools/compile_overlays.py:1848-1885 | without force, memory keeps listing what the region's manifests list, and a skipped capture has every identity served |
| CoverageCache.RunIsSafe | psxrecomp-master/tools/compile_overlays.py:1848-1885 | over any sequence of captures, and coverage never shrinks |
| CoverageCache.SkippedStaysServed | psxrecomp-master/tools/compile_overlays.py:1848-1885 | what was skipped as covered is still served by a manifest with its DLL at the end |
| CoverageCache.ForcedRebuild | psxrecomp-master/tools/compile_overlays.py:1848-1885 | after a forced rebuild memory is right exactly when the old manifest's identities are in the new one or another |
| ImageBlocks.FindLeaders | psxrecomp-master/recompiler/src/basic_block.cpp:14-49 | the leaders: entry, targets inside the image, addresses behind delay slots |
| ImageBlocks.ScanBlock | psxrecomp-master/recompiler/src/basic_block.cpp:188-232 | the flag-driven scan ends a block at a transfer's delay slot, before the next leader or at the end |
| ImageBlocks.BlocksCover | psxrecomp-master/recompiler/src/basic_block.cpp:159-300 | from the first leader on every instruction is in the block of the last leader, and otherwise only in one whose delay slot it is while being a leader |
| ImageBlocks.SecondBlockUnique | psxrecomp-master/recompiler/src/basic_block.cpp:159-300 | that second block is unique, the one before |
| ImageBlocks.SuccessorsAreBlocks | psxrecomp-master/recompiler/src/basic_block.cpp:234-297 | every successor is a block start, if and only if the block is not a lone transfer at the image's end that falls through |
| ImageBlocks.CutOffExample | psxrecomp-master/recompiler/src/basic_block.cpp:234-275 | a lone call at the end is said to lead to address 4 |
| ImageBlocks.PredsAreInverse | psxrecomp-master/recompiler/src/basic_block.cpp:310-326 | predecessor lists are the inverse of successor lists, each edge once |
| ImageBlocks.BuildPredecessors | psxrecomp-master/recompiler/src/basic_block.cpp:310-326 | the loop fills them in place and changes nothing else |
| ImageBlocks.Analyze | psxrecomp-master/recompiler/src/basic_block.cpp:159-300 | all blocks of the image, one per leader, with successors and predecessors |
| Hazard.WritesExact | psxrecomp-master/tools/scan_branch_delay_hazards.py:104-208 | the registers listed for a modelled instruction are those it writes, register 0 aside |
| Hazard.UnflaggedIsSafe | psxrecomp-master/tools/scan_branch_delay_hazards.py:386-397 | an unflagged branch has the same condition before and after its delay slot in every state |
| Hazard.UnflaggedEmitted | psxrecomp-master/tools/scan_branch_delay_hazards.py:386-397 | for the emitted slot too, if and only if the slot does not set register 0 to a value that can turn this branch |
| Hazard.ClobberedZeroIsMissed | psxrecomp-master/tools/scan_branch_delay_hazards.py:386-397 | one such pair |
| Hazard.ScanHazards | psxrecomp-master/tools/scan_branch_delay_hazards.py:361-410 | the addresses reported are exactly the hazards, and the counts add up |

## Left out

- Walkers.WalkIsComplete: is one-way. Whether an edge onto a delay slot loses something depends on which of
  the slot and its transfer the work list takes first, and on whether the slot leads anywhere not reached
  otherwise, so a necessary condition would have to speak of the order of the walk itself.
- FinalCaps.ClosedAtFinalCaps: is one-way for the same reason.
- Coprocessor moves, GTE instructions, syscall and break: no meaning is given to them; a run that meets one
  is outside `GoodPlain`.
- Interrupt checks, timing calls, instruction cache, slicing of long blocks, co-simulation, annotation and
  widescreen hooks are taken to do nothing; restoring an escaped state counts as publishing an address.
- Address errors, overflow traps and the load delay are not part of the reference machine, nor is memory-mapped
  I/O or code that changes itself.
- The path without continuation passing rests on runtime functions that are not part of this model.
- Loops, loop headers and predecessors of function graphs: no emitted statement depends on them in the
  modelled mode.
- Whether a function is replaced by a stub is a parameter of the build; its continuations stay registered, and
  an address that leads to it stops the run as an unknown function.
- A transfer in a delay slot, which the source would translate as an ordinary instruction, is outside
  `GoodTransfer`.
- The text of the C, its signatures and comments: the statement language stands for it.
- The cap on split passes is lifted, and the functions are kept by start address where the source sorts a
  vector.
- The order in which Python iterates sets is taken ascending; audit counts and messages are left out.
- Hexadecimal prefixes, signs and underscores that Python's parser also accepts.
- Decoding for the whole-image analyser: an instruction is given by the flags the analyser reads.
- The fragment pass, merging with manifests of earlier builds, compilers, files and sockets.
- Materialising the lists of alias entries (main_psx.cpp:43-71): that they agree is part of `Build.Valid`.
