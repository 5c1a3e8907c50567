# Keleusma verification

A Dafny model of the parts of Keleusma where a wrong step is hardest to see by reading, with proofs of
what they promise. `dafny verify dfyconfig.toml` checks the whole project.

## What is modelled

**Composite confinement** (`src/confine.rs`). The analysis decides, for every instruction that builds a
composite, whether the built region can still be reached once the scope that built it begins its next
pass. The model has the analysis, the verifier rules it leans on, and a concrete machine to be sound
against:

- `Bytecode` is the instruction set with its depth table, its escape routes and structural
  verification; `Confine` is the analysis; `Walker` is the analysis in its imperative form, a `Run`
  object that appends to its notices and loops over instruction addresses, each method proved to
  compute what `Confine` defines.
- `Machine` is a call stack of frames with operand stacks and local slots, seen only as far as regions
  go: a value is the set of regions it gives access to, a step may choose any result the instruction
  could have, a slot that keeps values is part of what the host holds, and the host may enter any chunk
  with anything it holds, resume a suspended stream with anything it holds, or abandon a call and make another.
- `Guard` says where the transfer function can be relied on, as a condition on the states of the walk.
- `ConfineShape`, `ConfineOrder`, `ConfineTotal` and `Annotation` are the analysis's own theory: heights,
  monotonicity, the least fixpoint, termination within the round cap, and one state for every reachable address.
  `Trails` says what the walk reports without the walk: the transfer function applied along paths of instructions,
  control also going on behind a reset and out of a loop at its end, as the walk has it.
- `Exact`, `Judged` and `Unwritten` give each answer its exact condition: what one instruction reports and what it
  leaves in a slot, against the machine; summaries, scopes, verdicts and their reasons, against paths and flat code;
  the test for a slot read before it is written, against single passes.
- `Cover`, `Tracking`, `Soundness`, `Runs` and `Steps` carry alias soundness along runs and across calls;
  `Liveness`, `Loops`, `Reuse` and `Retired` carry slot liveness and stack balance to reuse safety;
  `Verdict`, `Guarantees`, `Gone`, `SummaryPass`, `Dispatch`, `Again`, `Builds` and `Rebuilt` state what a reader
  of a verdict or a summary may rely on; `Limits` shows, on chunks of straight code read with `Lines`, where the
  analysis does not keep its promise.

**Flat values** (`src/bytecode.rs`). `Scalars` and `FlatValue` are the little-endian scalar codec, the packed
body of a value and padding-tolerant enum equality; `FlatArena` is a byte array with a downward top head, the
packer and two-pass canonicalisation, in place; `Canonical` is what a value comes to and the room that takes,
whatever the arena; `Constants` has both ways of packing a constant; `Crc` is the checksum of section 8 of
RFC 1952 and its use as a residue.

**Stores and scripts.** `ByteCodec`, `DebugPool` and `DebugReader` are the canonical debug metadata codec, as
functions and as the writer and cursor reader that run (`src/debug_meta.rs`); `Wire` says where each field lies,
`Refusals` why bytes are refused, and `Utf8` what well-formed text is. `Budget` and `BudgetStore` are the evaluation budget of `scripts/jev_shadow.py`,
`Mailbox` and `MailboxStore` the line mail of `scripts/interline.py`; each transaction is one step, and
`Transactions` and `Deliveries` give each of its answers a condition on the rows. `Changelog` is the fragment
assembler of `scripts/changelog_fragments.py`, and `Entries` says where each entry ends up. `Options` is the one
shared datatype.

## Where the code does less than it says

Each of these is kept as the code has it, shown by a concrete input or run of the modelled machine, and
bounded by an exact condition. Items 1 to 4 have theirs on the state the walk is in when it gets to the
instruction: `Cover.ClearExactly` says that in every execution that state allows the results are accounted
for, and what leaves for good was reported, if and only if the state is clear there (`Guard.Clear`);
`Cover.ReturnClearExactly` says the same of a return. The chunks below that let a region out fail that
condition (`EscapesRefused`); a chunk that builds a site and tests something else meets it (`TestedAdmitted`).

1. *A type test leaves its operand on the stack, and the analysis forgets what it was.* `IsEnum` and
   `IsStruct` peek (src/vm.rs:7354-7450); the depth table gives them one operand and a net of one
   (src/verify.rs:2959-2961), so the transfer function takes the operand off, puts two results on, and
   gives both the empty alias set (src/confine.rs:975-984). `PeekEscapes`: a verified chunk whose
   one site is reported confined hands its region to the host. `PeekCoveredExactly`: the transfer
   function is right about a type test exactly when the operand's alias set is empty.
2. *A composite that ends boxed keeps its children, and the analysis treats every composite as a copy.*
   (src/confine.rs:135-141, src/bytecode.rs:1404-1423.) That holds of the boxed form and of a flat tuple
   or array whose elements do not all pack, which the values decide at run time (src/vm.rs:6664-6675,
   6762-6777, 6808-6817); a flat struct or enum packs or is refused. `BoxEscapes`, `LooseEscapes`;
   `CompositeCoveredExactly`: right exactly when the composite is a flat struct or enum or its children
   alias its own site only.
3. *A data slot may keep the value itself, and the analysis treats every store as a copy.* A private slot
   without a place in the composite layout does (src/vm.rs:3441-3479, src/confine.rs:136-139). `KeptEscapes`;
   `StoreCoveredExactly`: right exactly when the slot is given a copy or the value's alias set is empty.
4. *`Return` with an empty operand stack pops what lies below it.* The analysis looks at the operand
   stack only, structural verification does not ask for an operand there, and all frames' operands and
   slots share one stack (src/vm.rs:6567-6582, 8683-8699). That is the last local (`LastEscapes`) or, in a
   frame without slots, the caller's operand, which is put back as the result (`CallerEscapes`).
   `ReturnCoveredExactly`: right exactly when there is an operand, or a last local whose alias set is empty.
5. *A loop that holds a break to its own exit is taken to run once.* (src/confine.rs:560-599.) A loop
   with a conditional `break` in it iterates all the same (src/compiler.rs:6918-6934).
   `DispatchTurns`: a site reported confined to the invocation is built twice in one invocation and
   the first region is read back. `IteratesExactly`: a loop comes round exactly when its body can
   fall through, whatever breaks it holds. `VisitedTwiceExactly`: some path gets to a site twice if and
   only if the site is live and control can go on from it to the end of a loop around it, read off the
   block structure (`Again.ComesBack`). `BuiltOnce`: on every run, two regions one frame built at a site without
   such a loop lie on two sides of a restart of that frame. `BuiltTwiceExactly` has both directions on runs:
   at a live site, in a chunk whose calls can return, some invocation on some run builds twice between two
   restarts if and only if control can come back to the site.
6. *A case can be revealed before it was evaluated, and then reveals something else.*
   (scripts/jev_shadow.py:387-394.) `RevealFinalExactly`: what is revealed is final exactly when an evaluation was there.
7. *An enum constant named `Option` whose resolved discriminant is not 1 packs differently on the two
   paths.* (src/bytecode.rs:1226-1260, 4777-4791.) `PathsAgree` is an if and only if.

The run guarantees therefore speak of *admitted* chunks (`Tracking.Admitted`): structurally verified, a straight
prologue in front of `Stream` where a chunk uses `Reset`, as the compiler emits it, and both walks, the one
for sites and the one for parameters, clear at every instruction they settle on (`Guard.Benign`), which
whoever runs them can check on the way. Everything about the analysis itself (totality, monotonicity, the
fixpoint, summaries, dispatch) holds of every structurally verified chunk.

## Model

| member | source | states |
|---|---|---|
| `Bytecode.BlockOf` | src/verify.rs:3244-3606 | What block structure a range of flat code is read as is laid out exactly as the verifier's nesting rules say: forward targets, an `If` target behind its `Else`, a `Loop` target behind its `EndLoop` |
| `Bytecode.LaidUnique` | src/verify.rs:3244-3606 | A range spells at most one block structure, and the reader finds it: layout and reader agree in both directions |
| `ConfineShape.WalkFits` | src/confine.rs:738-868 | The walk of balanced code ends with exactly the operand heights the verifier's height pass computes, on fall-through and at every break, never touches operands below a loop's entry height, and keeps the frame's size |
| `ConfineShape.ApplyShape` | src/confine.rs:898-1040 | One transfer changes the height by what the depth table says and leaves every operand under its operands alone |
| `ConfineOrder.ApplyMono` | src/confine.rs:898-1040 | The transfer function is monotone in the state and in the summaries, strong updates included, and faults independently of what is tracked |
| `ConfineOrder.WalkMono` | src/confine.rs:738-868 | More aliases at entry, or pointwise more pessimistic summaries, never yield fewer aliases at any end of the walk or fewer events, through branches, breaks and nested loop fixpoints |
| `ConfineOrder.FixIsClosed` | src/confine.rs:802-848 | The state a loop settles on contains the entry state and is closed under one body pass, and every event of that pass was reported |
| `ConfineOrder.FixMono` | src/confine.rs:802-848 | Any closed state above the entry bounds the fixpoint, its ends and everything reported in any round, even under less pessimistic summaries |
| `ConfineOrder.FixpointIsLeast` | src/confine.rs:802-848 | The loop fixpoint is the least state that contains the entry state and is closed under one body pass |
| `ConfineTotal.WideningGrows` | src/confine.rs:803-833 | Every widening round adds a new pair of a written slot and a token, within the product of their counts |
| `ConfineTotal.FixTotal` | src/confine.rs:803-833 | A loop whose budget covers the pairs it can still add settles before the budget runs out |
| `ConfineTotal.InterpretCompletes` | src/confine.rs:702-723 | The walk of a structurally verified chunk completes for site runs and summary runs alike: neither a missing operand, nor a slot, nor the round cap ever derails it |
| `Annotation.AnnotateChunk` | src/confine.rs:738-868 | From a completed walk there is one abstract state for every address control can reach, closed under every edge of the flat code, whose events were all reported, and clear at every address where the walk is benign |
| `Trails.WalkExactly` | src/confine.rs:738-868 | A verified chunk's walk reports a token with an event if and only if some path of instructions through the chunk, the transfer function applied along it, brings the token to that instruction and the event is said of it there |
| `Cover.StepCovers` | src/confine.rs:898-1040 | If every tracked region an operand or slot gives access to has a token in its alias set before an instruction, then the same holds after it, for any results the transfer function accounts for |
| `Cover.ResultMeets` | src/confine.rs:975-1025 | Every result an instruction may push in the machine, a tuple that ends boxed among them, is accounted for by the alias set the transfer function gives its results, at a state clear for it |
| `Cover.TransferIsBest` | src/confine.rs:975-1025 | Where the state is clear the transfer function is exact against the machine: the alias set it gives a result holds a token if and only if some execution allowed by the state gives access there to a region only that token tracks |
| `Trails.NoticesSay` | src/confine.rs:920-973 | What one transfer reports, spelled out by instruction: a yielded token, one among a native's operands, one stored, and one passed where the callee's summary does not clear that argument; of a cleared argument nothing is reported |
| `Exact.SaysExactly` | src/confine.rs:936-973 | Where the state is clear, a straight instruction or a call reports a token as leaving if and only if some execution the state allows lets go there of a region only that token tracks |
| `Exact.CallExactly` | src/confine.rs:999-1006 | A call's result may alias a token if and only if some execution the state allows gives back, at an argument not kept back by the callee's summary, a region only that token tracks |
| `Exact.SlotsExactly` | src/confine.rs:1026-1034 | A slot tracks a token behind an instruction if and only if some execution the state allows leaves there a region only that token tracks: a store replaces what was in the slot |
| `Exact.IndexedReadExactly` | src/confine.rs:1022-1024 | An indexed read of a data slot passes on exactly what its operands may alias |
| `Cover.ClearExactly` | src/confine.rs:975-1025 | In every execution the state allows, the alias set given to the results accounts for them and what is handed to the host or a data slot was reported, if and only if the state is clear for the instruction: both ways for every straight instruction |
| `Cover.ReturnClearExactly` | src/confine.rs:752-766 | What is reported at a return covers the value handed over, in every frame the state allows and whatever operands lie below it, if and only if the state is clear there |
| `Cover.HandOverReported` | src/confine.rs:936-972 | A tracked region handed to the host by a yield or a native call was reported at that address |
| `Cover.KeptUntracked` | src/confine.rs:136-139 | A clear store to a data slot that keeps the value itself is given nothing tracked |
| `Cover.PassReported` | src/confine.rs:936-972 | A tracked region passed at an argument the callee may leak was reported as passed |
| `Cover.CallProduces` | src/confine.rs:1001-1006 | A call result whose tracked regions came in at arguments the summary lets out is covered by what the call is said to produce |
| `Tracking.Establish` | src/confine.rs:475-523 | Every module of admitted chunks with self-consistent summaries has, for each chunk, a complete chart of its site run and of its parameter run, every charted state being clear |
| `Runs.StepKeeps` | src/vm.rs:6424-6600 | Every step of the machine, a resume and an abandoned call among them, keeps the invariant: all frames' operands and slots covered by both charts, everything the host holds reported, waiting frames at their calls, every leak promised by a summary |
| `Runs.FeedKeeps` | src/vm.rs:5740-5805 | Resuming a suspended stream with anything the host holds, written to slot 0 of the innermost frame that streams, keeps that invariant |
| `Runs.RunKeeps` | src/confine.rs:738-868 | Every state of every run satisfies that invariant |
| `Guarantees.AliasesSound` | src/confine.rs:738-868 | Alias soundness: at every state of every run, an operand or slot through which a frame reaches a region it built, and the host does not hold, has the region's site in its alias set |
| `Guarantees.ConfinedStaysInside` | src/confine.rs:181-200 | A region of a site reported confined is never in the host's hands, at any state of any run |
| `Guarantees.ClearedArgumentStays` | src/confine.rs:653-661 | While an invocation lasts, a region passed to it only at parameters its summary clears of leaking does not get to the host, whatever the callee and everything it calls do |
| `Guarantees.ReturnedWhereAdmitted` | src/confine.rs:663-670 | An invocation hands back a region it was passed only if that came in at a parameter the summary says may be returned |
| `Guarantees.ConfinedDiesWithInvocation` | src/confine.rs:219-235 | Once the invocation that built it is over, no frame and not the host can reach a region of a confined site |
| `Guarantees.ConfinedDiesAtReset` | src/confine.rs:169-174 | Once the frame that built it has reset, a region of a confined site is in no operand, no slot and not with the host for the rest of the run |
| `Gone.RunGone` | src/confine.rs:169-174 | A region nothing gives access to and never reported but for stores stays out of reach, whatever the machine and the host do next |
| `Liveness.DeadSlotReadsOwnPass` | src/confine.rs:1060-1141 | Slot liveness is sound: when the slot is dead at a scope's boundary, every read of it on any path from the scope's start, through branches, loops run any number of times and early exits, follows a write of the same pass |
| `Unwritten.ReadsExactly` | src/confine.rs:1074-1141 | The test finds a slot read before it is written if and only if some single pass through the range does read it so, no loop in it going round twice |
| `Unwritten.BoundaryExactly` | src/confine.rs:1060-1070 | A slot is dead at a boundary if and only if nothing outside the range reads it, the range nests, and no single pass through it reads the slot before writing it |
| `Loops.LoopEntered` | src/confine.rs:602-615 | Control gets into a loop of well-nested code only through its `Loop` instruction |
| `Loops.EdgeBack` | src/verify.rs:3244-3606 | The only edges of well-nested code that lead back go from the end of a loop to its top |
| `Reuse.RunContained` | src/confine.rs:602-615 | Along every run, no operand that was on the stack before the loop was entered holds a region a confined site in the loop built |
| `Retired.PassRetires` | src/confine.rs:529-558 | When a pass begins, every region the frame built at the site in an earlier pass is held by no operand and only by slots that are dead at the loop's boundary and not yet written in this pass |
| `Retired.ConfinedReuseIsSafe` | src/confine.rs:344-396 | Reuse safety: once a frame begins another pass of the loop a site is confined to, no operand stack and not the host ever again holds a region it built there before, so no later instruction obtains one |
| `Verdict.FindingIsWorst` | src/confine.rs:344-396 | A site's finding is exactly as severe as the worst meaning of any event reported of it |
| `Verdict.ConfinedMeans` | src/confine.rs:344-396 | A site is confined if and only if the walk completed and every event reported of it is harmless in its scope |
| `Judged.VerdictExactly` | src/confine.rs:344-396 | A site of a verified chunk escapes if and only if some path yields, returns or hands its region to a native, and is confined if and only if none does and none passes it where the summary does not clear it or stores it to a slot live at its scope's boundary |
| `Judged.FindingIsFirst` | src/confine.rs:351-367 | The finding is the first of the most severe meanings of what was reported of the site, and the empty one where nothing reported means anything |
| `Judged.ReasonExactly` | src/confine.rs:526-559 | The reason given with a verdict names an instruction of its kind to which some path brings the site's region |
| `Judged.ReasonIsLowest` | src/confine.rs:351-367 | In a chunk without loops the reason given is the one at the lowest address among the most severe: the first arm of a branch is reported before the second |
| `Judged.NotAnalysedExactly` | src/confine.rs:368-379 | A site is reported as not analysed if and only if the walk derailed, and then as not established |
| `Verdict.VerdictMono` | src/confine.rs:344-396 | Pointwise less pessimistic summaries never raise the severity of a site's verdict |
| `Verdict.SummaryFreeIsWorst` | src/confine.rs:334-336 | The summary-free answer bounds the answer with any summaries |
| `SummaryPass.SummarizeSame` | src/confine.rs:475-523 | A chunk's summary depends on the summaries of the chunks it calls and on no others |
| `Judged.SummaryExactly` | src/confine.rs:475-523 | Parameter `i` of a verified chunk is marked leaking if and only if on some path it is yielded, handed to a native or passed where the callee's summary does not clear it, and marked as returned if and only if on some path it is on top at a return |
| `Judged.SummaryByEvent` | src/confine.rs:496-517 | A completed run marks a parameter leaking by a yield, a native call, an uncleared argument or an unmodelled route, and as returned by a return, and by nothing else |
| `Judged.SummaryOtherwise` | src/confine.rs:475-489 | A chunk without parameters has an empty summary; one without slots for them, or whose walk derails, has every parameter leak and come back |
| `SummaryPass.AcyclicIsBounded` | src/confine.rs:421-472 | A chunk's reachable call graph is acyclic and in range exactly when no chain of calls from it is longer than the number of chunks |
| `SummaryPass.RoundGains` | src/confine.rs:437-470 | A round summarises every visited chunk whose callees already had a summary |
| `SummaryPass.SummariesExact` | src/confine.rs:421-472 | After as many rounds as there are chunks, a chunk has a summary if and only if its reachable call graph is acyclic and in range, and it is the one the bottom-up recursion defines |
| `SummaryPass.OrderDoesNotMatter` | src/confine.rs:421-472 | Any order of visits that covers the module gives the same summaries |
| `SummaryPass.ModuleSummariesConsistent` | src/confine.rs:421-472 | Every recorded summary is what its chunk's own run yields against the whole record, so the run guarantees apply to it |
| `Guarantees.ModuleReuseIsSafe` | src/confine.rs:402-409 | Reuse safety end to end, for the verdicts `module_confinement` computes from its own summaries |
| `Guarantees.ModuleAnswerBounded` | src/confine.rs:402-409 | Summaries never cost a verdict: the module's answer is at most as severe as the summary-free one |
| `Dispatch.IteratesExactly` | src/confine.rs:560-599 | A loop of a verified chunk can come round if and only if its body can fall through, whether or not it holds an unconditional break |
| `Again.VisitedTwiceExactly` | src/confine.rs:560-599 | Some path through a verified chunk gets to a site twice if and only if the site is live and control at it can reach the end of a loop around it, whatever breaks those loops hold |
| `Again.StaysPast` | src/confine.rs:560-599 | Control that has passed a site from which the end of no loop around it is in reach never gets back to the site or before it |
| `Builds.BuiltOnce` | src/confine.rs:560-599 | On every run, two regions one frame built at such a site are separated by a restart of that frame: between two restarts an invocation builds there at most once |
| `Rebuilt.PathOn` | src/confine.rs:560-599 | Every path through a verified chunk is one the machine can take, with the operand heights the verifier gives, as long as the calls on it go to chunks that can return |
| `Rebuilt.BuiltTwiceExactly` | src/confine.rs:560-599 | At a live site of a verified chunk whose calls can return, some run has one frame build there twice without a restart in between if and only if control can reach the end of a loop around the site |
| `Confine.EnclosingUpTo` | src/confine.rs:565-599 | The scope search finds the last of the iterating loops around an address and misses none |
| `Judged.ScopeExactly` | src/confine.rs:565-599 | On flat code: a site is judged against loop `l` if and only if `l` is the last loop around it that holds no unconditional break to its own exit, and against the invocation if and only if every loop around it holds one; a conditional break does not count |
| `Limits.PeekCoveredExactly` | src/confine.rs:975-984 | The transfer function accounts for a type test in every execution the state allows if and only if the alias set of the operand tested is empty |
| `Limits.PeekEscapes` | src/vm.rs:7354-7450 | A verified chunk and a run of it in which the region of a site reported confined reaches the host past a type test |
| `Limits.CompositeCoveredExactly` | src/vm.rs:6664-6817 | It accounts for a new composite in every execution the state allows if and only if the composite is a flat struct or enum, or its children's alias sets hold its own site at most |
| `Limits.BoxEscapes` | src/confine.rs:135-141 | A verified chunk and a run of it in which the region of a confined site leaves inside a boxed composite |
| `Limits.LooseEscapes` | src/vm.rs:6808-6817 | A verified chunk and a run of it in which the region of a confined site leaves inside a flat tuple that ends boxed because one element does not pack |
| `Limits.StoreCoveredExactly` | src/vm.rs:3441-3479 | It accounts for a store to a data slot in every execution the state allows if and only if the slot is given a copy or the stored value's alias set is empty |
| `Limits.KeptEscapes` | src/vm.rs:3441-3479 | A verified chunk and a run of it in which the region of a confined site stays in a data slot that keeps the value itself |
| `Limits.ReturnCoveredExactly` | src/confine.rs:752-766 | What a return hands over is covered by what is reported there, in every frame the state allows and whatever lies below it, if and only if there is an operand, or a last local whose alias set is empty |
| `Limits.LastEscapes` | src/vm.rs:6567-6582 | A verified chunk and a run of it in which `Return` on an empty operand stack hands the host a confined region out of the last slot |
| `Limits.CallerEscapes` | src/vm.rs:8683-8699 | Two verified chunks and a run of them in which a callee without slot or operand hands the caller's own operand, a confined region, back as its result, and the host gets it |
| `Limits.EscapesRefused` | src/confine.rs:975-1025 | None of the chunks that let a region out is admitted, nor the callee without slot or operand: at its peek, its box, its tuple, its store or its return the walk's own state is not clear |
| `Limits.TestedAdmitted` | src/confine.rs:975-984 | A chunk with a type test on an operand that aliases nothing, beside a composite site, is admitted |
| `Limits.DispatchTurns` | src/compiler.rs:6918-6934 | A verified chunk whose site is reported confined to the invocation, and a run in which one invocation builds there twice and reads the first region back |
| `Walker.Run.Transfer` | src/confine.rs:898-1040 | The in-place transfer computes the specified state and appends exactly the specified notices, and refuses exactly where the specification faults |
| `Walker.Run.Walk` | src/confine.rs:738-868 | The walk over flat addresses, appending to its caller's breaks and notices, computes what the specification says of the block the range spells |
| `Walker.Run.Arms` | src/confine.rs:772-808 | Both arms of a branch, walked one after the other into the same breaks and notices, meet as specified, with and without an `Else` |
| `Walker.Run.Iterate` | src/confine.rs:809-860 | The loop of rounds, head widened in place, gives the specified fixpoint, its ends and its notices |
| `Walker.ReadsBefore` | src/confine.rs:1074-1141 | The must-define loop over flat addresses computes the specified answer: whether some path reads first, and whether every path that falls through has written |
| `Walker.SiteScopes` | src/confine.rs:565-599 | The loop-by-loop table holds exactly the construction sites, each with the last loop around it that holds no unconditional break to its own exit, or the invocation where there is none |
| `Walker.SummarizeChunk` | src/confine.rs:475-523 | A summary run sorts what was reported into the specified leaks and returns |
| `Walker.SummarizeModule` | src/confine.rs:421-472 | The in-place rounds compute the module's specified summaries |
| `Walker.Findings` | src/confine.rs:344-396 | One pass over the notices leaves each site its most severe finding, the first among equals |
| `Walker.JudgeChunk` | src/confine.rs:344-396 | The verdicts of a chunk, in address order, are the specified ones |
| `Crc.Crc32` | src/bytecode.rs:4185-4198 | The nested loops compute the reflected CRC-32 state transformation of the whole string |
| `Crc.ShiftLinear` | src/bytecode.rs:4189-4195 | One shift of the register is linear over exclusive or |
| `Crc.StateInjective` | src/bytecode.rs:4185-4198 | Two registers that agree after taking in the same bytes were the same before |
| `Crc.OneByteDetected` | src/bytecode.rs:4185-4198 | Two equal-length strings that differ in exactly one byte never have the same checksum |
| `Crc.SelfInclusion` | src/bytecode.rs:4096-4101 | A string followed by its own little-endian checksum has one fixed checksum, whatever the string |
| `Crc.ResidueExactly` | src/wire_format.rs:1272-1276 | A framed buffer has that residue if and only if the word behind its body is the body's checksum |
| `Scalars.LeRound` | src/bytecode.rs:1339-1396 | The little-endian value of the `w` low bytes is the number modulo `256^w` |
| `Scalars.ReadWraps` | src/bytecode.rs:1606-1672 | Sign-extending the stored bytes wraps the word to the width's signed range |
| `Scalars.ScalarRoundTrip` | src/bytecode.rs:4815-4822 | At word sizes 1, 2, 4 and 8 an integer stored and read back is the integer cut to the declared width by shifting up and arithmetically back |
| `Scalars.FittingWordReturns` | src/bytecode.rs:1606-1672 | A word comes back unchanged if and only if it lies in the width's signed range |
| `FlatValue.OpaqueExactOrRefused` | src/bytecode.rs:1523-1596 | A registry index is stored exactly, or refused exactly when the address field cannot hold it; never cut |
| `FlatValue.PackedLayout` | src/bytecode.rs:1523-1596 | A packed body has length max(minimum, sum of field sizes), starts with the discriminant word of an enum, and is zero behind its fields |
| `FlatValue.PackedField` | src/bytecode.rs:1523-1596 | Field `i` lies at its running offset, a nested composite byte for byte |
| `FlatValue.FieldReadsBack` | src/bytecode.rs:1606-1672 | Reading field `i` of a packed body at its offset gives the field back, an integer or fixed word cut to the declared width |
| `FlatValue.ScalarReadsBack` | src/bytecode.rs:1606-1672 | A scalar's bytes read back as the scalar wherever in a buffer they lie |
| `FlatValue.ReadsExactly` | src/bytecode.rs:1606-1662 | A read is refused by its kind, then by the width of a word, then where the bytes are not there, and otherwise gives what those bytes say |
| `FlatValue.EqIsZeroExtension` | src/bytecode.rs:690-702 | Padding-tolerant equality holds exactly of bodies that agree byte by byte once continued with zeros |
| `FlatValue.EqIsEquivalence` | src/bytecode.rs:690-702 | It is reflexive, symmetric and transitive |
| `FlatValue.PaddingTolerated` | src/bytecode.rs:990-1037 | The same enum value packed with and without padding is equal |
| `FlatValue.EqTellsVariants` | src/bytecode.rs:690-702 | It never identifies bodies whose encoded discriminants differ, and for one variant's fixed-size payload it is payload equality |
| `FlatArena.Arena.constructor` | keleusma-arena/src/lib.rs:465-475 | A new arena has both heads at its ends |
| `FlatArena.Arena.AllocTop` | keleusma-arena/src/lib.rs:994-1066 | The top head moves down by exactly the request, or the request fails exactly when it does not fit, with nothing changed |
| `FlatArena.Arena.RewindTop` | keleusma-arena/src/lib.rs:920-923 | A rewind only ever releases |
| `FlatArena.Arena.MoveUp` | src/flat_value.rs:292-330 | An overlapping copy toward higher addresses puts the old bytes there and touches nothing above |
| `FlatArena.Arena.PackFlat` | src/bytecode.rs:1523-1596 | The packer either refuses without a body, fails to allocate, or leaves exactly the fields' bytes and zeros in one new body right below the head; everything above is untouched |
| `FlatArena.Arena.Fill` | src/bytecode.rs:1556-1595 | Writing the fields in place at their running offsets yields their concatenation and zeros, or refuses exactly when some field does |
| `FlatArena.Arena.CompactAfter` | src/flat_value.rs:292-330 | The newest body ends up right below the mark with its bytes unchanged, and everything else taken since the mark is released |
| `FlatArena.NodeBytes` | src/bytecode.rs:1176-1276 | What a node packs is the discriminant of an enum and what each element came to, byte for byte in order, refused exactly where an element is no field or an index does not fit |
| `Canonical.StaysExactly` | src/bytecode.rs:1176-1276 | A composite stays boxed if and only if an element is no field once canonicalised, the whole is too large to address, or an index does not fit its field; it then keeps its shape and every element, as that comes out |
| `Canonical.BodyLayout` | src/bytecode.rs:1523-1596 | A composite that becomes a body holds element `i` at its running offset, byte for byte what it came to, behind an enum's discriminant and before zeros up to the shape's minimum |
| `Canonical.BodyStarts` | src/bytecode.rs:1176-1276 | Such a body is of the shape's own kind, starts with the discriminant word of an enum, 1 for an `Option`, and is as long as its fields or the word and widest payload, whichever is more |
| `Canonical.PlainCanon` | src/bytecode.rs:1523-1596 | A composite of fixed scalars, at any depth and of addressable size, comes to exactly its packed bytes |
| `Canonical.PlainCosts` | src/bytecode.rs:1081-1142 | Such a composite keeps exactly its length in the arena and never needs more than twice that on the way |
| `FlatArena.Canonicalise` | src/bytecode.rs:1081-1142 | For every value without bodies in it: canonicalising fails exactly where the most room it needs at once is not there; otherwise the result is what `Canonical.Canon` says, bodies live with their bytes and boxed leftovers with every element, the head has moved by exactly what is kept, and the low point is exact |
| `FlatArena.PackNode` | src/bytecode.rs:1176-1276 | The same of a node and its children in one pass, with what the children keep lying above the node; a composite that stays boxed keeps its elements as they came out |
| `Constants.Buffer.Append` | src/bytecode.rs:4745-4795 | The recursive writer appends exactly the constant's pool bytes, and reports failure exactly where a constant has none |
| `Constants.PathsAgree` | src/bytecode.rs:1870-1936 | Whenever a constant has pool bytes, the value it is lifted to flattens to as many; to the same bytes if and only if every `Option` in it carries the bytes of discriminant 1 |
| `Constants.LiftsExactly` | src/bytecode.rs:1870-1936 | Lifting gives the one value that holds the constant: a leaf its own kind with its content, a group a boxed composite of its form over its items in order |
| `Constants.PoolsExactly` | src/bytecode.rs:4745-4795 | A constant has pool bytes if and only if it holds, at any depth, no string, no bare none and no enum without a discriminant |
| `Constants.GroupLayout` | src/bytecode.rs:4745-4795 | A group's bytes are its discriminant's, for an enum, then each item's where the items before it end, and nothing else |
| `Constants.LiftConstant` | src/bytecode.rs:4731-4795 | Lifting and canonicalising any constant: a leaf comes out as it is, a group comes to what canonicalising makes of it or fails exactly where its room is not there; one with pool bytes leaves a flat body of that length, with those bytes under exactly that condition |
| `ByteCodec.ManyDecodes` | src/debug_meta.rs:285-338 | What holds of an item's codec holds of a run of items: decoding what was encoded returns the items and leaves what follows |
| `ByteCodec.ManyInverts` | src/debug_meta.rs:285-338 | Whatever a run decodes to encodes back to the bytes consumed |
| `ByteCodec.ManyStarves` | src/debug_meta.rs:285-338 | A run cut short anywhere, inside an item or between items, is reported as truncated |
| `DebugPool.KindRound` | src/debug_meta.rs:82-105 | Record kinds and their wire bytes are in one-to-one correspondence |
| `DebugPool.DecodesExactly` | src/debug_meta.rs:285-338 | Decoding accepts exactly the raw encodings of pools that fit their fields, in any record order, followed by anything |
| `DebugPool.RoundTrip` | src/debug_meta.rs:235-338 | Decoding an encoding returns the pool with its records in canonical order, and ignores trailing bytes |
| `DebugPool.EncodeIgnoresOrder` | src/debug_meta.rs:235-283 | The encoding is the same for every permutation of the records |
| `DebugPool.ReencodesIdentically` | src/debug_meta.rs:235-338 | Re-encoding a decoded encoding is byte-identical |
| `DebugPool.PrefixTruncated` | src/debug_meta.rs:183-216 | Every strict prefix of an encoding decodes to `Truncated` |
| `Refusals.TextRefused` | src/debug_meta.rs:285-297 | Decoding answers that a string is no text if and only if, behind strings that are in order, a whole string is there that is not well-formed |
| `Refusals.KindRefused` | src/debug_meta.rs:310-335 | Decoding answers with an unknown record kind if and only if the sections before and some records are in order and the next record gets as far as that kind byte |
| `DebugPool.SortedUnique` | src/debug_meta.rs:235-250 | A bag of records has one arrangement sorted by position, kind and operands |
| `Wire.PoolLayout` | docs/spec/DEBUG_METADATA.md:50-55 | An encoding is the string, span, type and record section in that order and nothing else, each a 32-bit count and its items, every field at its offset and in its width, little-endian |
| `Wire.LeqExactly` | docs/spec/DEBUG_METADATA.md:62-62 | Records compare by position, then kind byte, then operands: as sequences, by where they first differ |
| `Wire.RecordsInOrder` | src/debug_meta.rs:235-250 | The records an encoding holds are the pool's, each as often, in that order |
| `Utf8.ValidExactly` | src/debug_meta.rs:285-300 | Bytes are taken for well-formed UTF-8 if and only if they encode a string by section 3 of RFC 3629, and then they encode no other |
| `DebugReader.SortRecords` | src/debug_meta.rs:235-250 | The record list is sorted into that arrangement |
| `DebugReader.EncodePool` | src/debug_meta.rs:235-283 | Appending section by section writes exactly the specified encoding |
| `DebugReader.Reader.TakeBytes` | src/debug_meta.rs:193-201 | The cursor advances over exactly the bytes handed out, or reports truncation |
| `DebugReader.Reader.OneRecord` | src/debug_meta.rs:310-335 | Reading one record from the cursor answers what the specification answers of what was left |
| `DebugReader.Reader.Records` | src/debug_meta.rs:310-335 | Reading the counted record list answers what the specification answers of what was left, errors included |
| `DebugReader.DecodePool` | src/debug_meta.rs:285-338 | The cursor-driven decoder computes the specified result, errors included |
| `Budget.BudgetHolds` | scripts/jev_shadow.py:304-333 | Over every interleaving of records, starts, completions, crashes, recoveries, labels and outcomes from an empty store, started calls stay within `max_calls` and reservations within `max_input_tokens`, and a call that did not succeed keeps its full reservation |
| `Budget.CompleteSound` | scripts/jev_client.py:41-45 | Settling a call keeps the budget: the usage a client admits never exceeds the call's reservation, and a call that did not succeed keeps it in full |
| `Budget.WrittenOnce` | scripts/jev_shadow.py:348-404 | Evaluations, labels and outcomes are written once and recorded samples never change, over any run |
| `Budget.RevealedStays` | scripts/jev_shadow.py:387-394 | What was revealed together with an evaluation is revealed the same ever after |
| `Budget.RevealFinalExactly` | scripts/jev_shadow.py:387-394 | A revealed case is final if and only if an evaluation was there: otherwise some next transaction makes it reveal something else |
| `Budget.RunRecorded` | scripts/jev_shadow.py:272-289 | Every row of every reachable store is one the store's own rules would record |
| `Budget.RestorePreserves` | scripts/jev_shadow.py:467-522 | The rows of any reachable store within the size limits restore, in whatever order a checkpoint lists them, with the same calls, reservations and records; calls under way count as interrupted |
| `Transactions.RecordsExactly` | scripts/jev_shadow.py:272-289 | A sample is recorded if and only if it is there already, on the same line with the same content, or is admissible, its identifier free, its task not finished and every sample of the task of its kind |
| `Transactions.RecordedAnew` | scripts/jev_shadow.py:285-288 | What recording anew adds: one row with the packet's content and digest, nothing spent on it, and the task if it is new |
| `Transactions.RunUnmixed` | scripts/jev_shadow.py:283-284 | On every run no task holds samples of both kinds |
| `Transactions.BeginsExactly` | scripts/jev_shadow.py:304-322 | Each answer to the start of an evaluation by its own condition on the row: reviewed digest, earlier result, call under way, credential, budget; and what each writes |
| `Transactions.CountedExactly` | scripts/jev_shadow.py:319-319 | The calls counted are the rows with a call started |
| `Transactions.CompletesExactly` | scripts/jev_shadow.py:324-333 | A result is written if and only if none was, and charged what was used if it succeeded, the whole reservation otherwise |
| `Transactions.RecoversExactly` | scripts/jev_shadow.py:397-404 | A call is marked interrupted if and only if it was started and has no result, and nothing else changes |
| `Transactions.LabelsExactly` | scripts/jev_shadow.py:348-355 | A label is recorded if and only if it fits the case and repeats the one on record, if any, and nothing else changes |
| `Transactions.FinishesExactly` | scripts/jev_shadow.py:377-384 | An outcome is recorded if and only if it is valid, the task known, and no other outcome on record, and nothing else changes |
| `Transactions.RevealsExactly` | scripts/jev_shadow.py:387-394 | A case is shown if and only if it is on the line, its task is finished and a label is on record; what is shown is its own baseline, evaluation and label |
| `Transactions.RestoresExactly` | scripts/jev_shadow.py:467-522 | A checkpoint is restored if and only if the store is empty, the sizes are within limits, every task and row is consistent by the store's rules and identifiers are unique; every row is then the checkpoint's, but a call under way counts as interrupted |
| `BudgetStore.Store.Totals` | scripts/jev_shadow.py:319-319 | One scan of the rows counts the started calls and sums the reservations |
| `BudgetStore.Store.Record` | scripts/jev_shadow.py:272-289 | Recording changes the tables exactly as the specified transaction, or refuses and changes nothing |
| `BudgetStore.Store.Reserve` | scripts/jev_shadow.py:304-322 | The first transaction of an evaluation, with its refusals in order, is the specified one |
| `BudgetStore.Store.Settle` | scripts/jev_shadow.py:324-333 | The second transaction writes only where no evaluation was written meanwhile |
| `BudgetStore.Store.Interrupt` | scripts/jev_shadow.py:397-404 | Recovering marks only an unfinished reserved call and keeps its reservation |
| `BudgetStore.Store.Judge` | scripts/jev_shadow.py:348-355 | A label is validated against its case and never replaced |
| `BudgetStore.Store.Close` | scripts/jev_shadow.py:377-384 | An outcome is recorded for a known task and never replaced |
| `BudgetStore.Store.Show` | scripts/jev_shadow.py:387-394 | A case is shown exactly when its task is finished and its label recorded |
| `BudgetStore.Store.Load` | scripts/jev_shadow.py:474-522 | Row-by-row insertion restores exactly the checkpoints the specification restores, and leaves the store as it was on any refusal |
| `Mailbox.RunOrderly` | scripts/interline.py:199-241 | Over every sequence of registrations, sends with retries and acknowledgements, identifiers stay unique, fields stay valid, and every reply follows the message it answers on the reverse route |
| `Mailbox.EnvelopesUnchanging` | scripts/interline.py:199-241 | Messages stay in place with unchanging envelopes, and an acknowledgement is written once |
| `Mailbox.ThreadsAlternate` | scripts/interline.py:208-213 | Replies form an acyclic forest; at even depth a message runs its root's way, at odd depth the other way between the same two lines |
| `Mailbox.CheckpointExactly` | scripts/interline.py:113-152 | A listed mailbox's checkpoint passes validation if and only if the mailbox is orderly, and restores to the same lines and messages in the same order |
| `Mailbox.ReachableRestores` | scripts/interline.py:79-173 | Every reachable mailbox's checkpoint is accepted and restores to the same messages in the same order |
| `Deliveries.SendsExactly` | scripts/interline.py:199-227 | A message is sent if and only if its fields are valid, both lines registered, a reply reverses the route it answers, and its identifier is free or names the same message; a retry changes nothing, what is new is one message behind the others |
| `Deliveries.AcknowledgesExactly` | scripts/interline.py:230-241 | An acknowledgement is accepted if and only if it comes from the line the message is addressed to; the first is put on the message, a later one changes nothing, and no other message is touched |
| `Utf8.LengthExactly` | scripts/interline.py:199-203 | The length a body is measured by is that of its UTF-8 encoding |
| `MailboxStore.Box.Post` | scripts/interline.py:199-227 | Sending inserts, retries or refuses exactly as specified |
| `MailboxStore.Box.Confirm` | scripts/interline.py:230-241 | Acknowledging writes once, by the addressed line only |
| `MailboxStore.ReadCheckpoint` | scripts/interline.py:113-152 | The loop that builds the table of messages seen so far accepts exactly the checkpoints whose every row is valid against the rows before it |
| `MailboxStore.Restore` | scripts/interline.py:155-173 | A new mailbox comes into being from exactly the valid checkpoints, with their lines and messages in order |
| `Changelog.ParseBody` | scripts/changelog_fragments.py:60-74 | A parsed body is a non-empty list of items without headings and without blank lines at either end |
| `Changelog.ParsesExactly` | scripts/changelog_fragments.py:60-74 | A text parses to a body if and only if the body is all of it but blank lines around, starts with a list item, ends in a line that is not blank and holds no heading |
| `Changelog.FailsExactly` | scripts/changelog_fragments.py:60-74 | A text does not parse if and only if it is blank throughout, or what is left between blank lines does not start with a list item or holds a heading |
| `Changelog.ParseFragment` | scripts/changelog_fragments.py:60-74 | Popping blank lines off both ends in place yields that body, and fails exactly on the malformed ones |
| `Changelog.ChosenStrict` | scripts/changelog_fragments.py:100-103 | A section's fragments are exactly the loaded ones of that section, newest date first and then by slug, none twice |
| `Entries.BeforeExactly` | scripts/changelog_fragments.py:100-103 | A fragment comes before another if and only if its date is the later one, or the dates are the same and its slug is the smaller one |
| `Changelog.BoundsExactly` | scripts/changelog_fragments.py:106-113 | The block is found if and only if one line alone is the `[Unreleased]` heading; it starts there and ends at the first release heading behind it, or at the end of the text |
| `Entries.PlaceExactly` | scripts/changelog_fragments.py:131-143 | A section without a heading in the block goes behind the last line that is not blank with a new heading; one with headings goes right below the first, behind the blank line that follows it or behind a new one; in no other place and with nothing else |
| `Entries.BlockExactly` | scripts/changelog_fragments.py:124-127 | A section's block is the bodies of its fragments one after the other, in order, each with a blank line behind it |
| `Changelog.AssembleText` | scripts/changelog_fragments.py:116-145 | The in-place splicing, tracking the end of the block, yields the specified text |
| `Changelog.PlaceAvoids` | scripts/changelog_fragments.py:131-143 | A later section is spliced in before a placed block's heading or behind its last line, never into it |
| `Changelog.AssemblyConserves` | scripts/changelog_fragments.py:116-145 | With the inserted lines taken out the original remains, everything outside the block is unchanged, and each section's bodies stand as new lines under its own heading |
| `Changelog.SectionAddsOnce` | scripts/changelog_fragments.py:116-145 | Each section adds each of its bodies exactly once, and besides them at most a blank line, or a blank line and its heading where the block had no such heading |
| `Entries.EntriesStand` | scripts/changelog_fragments.py:116-145 | Every fragment's body stands whole in the assembled text as new lines under its own section's heading, with no other heading in between, and of two in a section the one that comes before stands above |
| `Changelog.AssemblyIgnoresLoadOrder` | scripts/changelog_fragments.py:100-145 | The result does not depend on the order fragments were loaded in |

## Left out

- Code that does not nest: the walk of a chunk structural verification refuses is answered `Derailed` as a whole; what the flat walk would report before it derails is not modelled.
- The callback per token: the walk reports a set of tokens per event; no two tokens of one event interact.
- Tracking.Admitted: chunks in which a walk is not clear at some instruction are outside the run guarantees, because the guarantees are false of what such a walk says (items 1 to 4 above).
- Cover.TransferIsBest: speaks of every straight instruction but the indexed read of a data slot, whose results the transfer function gives whatever its index operands alias.
- Judged.ReasonIsLowest: speaks of chunks without loops; each round of a loop reports again, and the reason is then the first reported of the most severe (`Judged.FindingIsFirst`).
- Operands below a frame: only `Return` can reach them in verified code; an instruction that finds too few operands in its own frame, as may happen after such a return, stops the machine.
- SetData and SetDataIndexed: whether the slot keeps the value itself is a mark on the instruction, read off the module's data layout; a slot with a place in the composite layout is taken to be given flat values only, as its declared type is flat.
- Tracking.Restartable: a reset behind a prologue that is not straight, or that leaves operands, is outside the run guarantees; the compiler emits `Stream` behind straight code.
- Machine: data slots, the persistent pool and whatever the host keeps are one set of regions the host holds; every value read from there may give access to any of it, so reset epochs, which only ever take access away, do not appear. Traps and scalar values are not computed.
- Typed verification: only the height skeleton of the typed operand-stack pass is modelled (src/verify_typed.rs:664-828), not operand types.
- Scalars.ReadInt: words are at most eight bytes and the runtime word is 64 bits; narrower runtime words and floats are not modelled.
- FlatArena.Canonicalise: values that already hold flat bodies, text promotion and opaque interning are not covered.
- The arena's bottom head, alignment above one byte and reset epochs; archived constants, which mirror the owned ones.
- Values that differ from packed bytes only through floats, text pointers or shared opaques.
- DebugPool.RoundTrip: speaks of pools whose counts and lengths fit their fields, as the encoder's own casts presume; what a longer list is cut to is not modelled. The query functions over a decoded pool are left out, being one filter each.
- Budget: packet and credential validation, digests, JSON text, clocks, the environment and the database are parameters or are left out; samples keep their kind, packet, request and settled fields, not their time of creation. Reports, previews and installation are left out.
- Budget.Peer: of several earlier samples of a task the first one recorded is looked at; the query asks for any one.
- Mailbox: files, size limits of a checkpoint's JSON text, clocks and argument parsing are left out; an identifier, a body of 1 to 16384 bytes and a time of the valid form are what is checked.
- Changelog: texts are sequences of lines; splitting and joining, carriage returns, white space outside ASCII, file names' calendar check and directory listing are left out.
- Opcode cost tables, trap codes, encryption, addresses and display code: each is settled by reading one branch.
