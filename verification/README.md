# Blorp benchmarks, attribution tooling and ownership verifier: a verification model

This project models the algorithms in the Blorp repository's benchmark programs, its
reference-count attribution scripts, its compiler's ownership verifier and its filesystem test
oracle, and proves what they promise, for all inputs and all schedules. `dafny verify dfyconfig.toml` checks it.

| file | what it models |
|---|---|
| `BoundedQueue.dfy`, `Pipeline.dfy` | the C pipeline: a ring queue built as a monitor, and every interleaving of producer, workers and consumer over two of them |
| `SentinelPipeline.dfy` | the Python pipeline, which shuts down with one sentinel per worker |
| `HeavyWork.dfy`, `StridedSum.dfy` | the shared work function in 64-bit arithmetic, and the strided map over it |
| `Permutations.dfy`, `Fannkuch.dfy` | what fannkuch computes, and the C, Go and Python programs |
| `RcTags.dfy`, `RcCounters.dfy` | attribution through one mutable tag, the counter tables, the rows and the groups of the report |
| `OwnershipVerifier.dfy`, `OwnershipRuns.dfy` | the compiler's ownership verifier, and executions of functions in ownership form |
| `OwnershipSoundness.dfy` | no execution of an accepted function goes wrong |
| `OwnershipShape.dfy`, `OwnershipNumbers.dfy`, `OwnershipConformance.dfy` | what the verifier asks of the code alone, and that accepted code meets it |
| `OwnershipWitness.dfy`, `OwnershipExactness.dfy` | from a rejection, an execution that goes wrong |
| `RegionTags.dfy`, `PairScans.dfy` | marker regions, and the two scans that mark acquire/drop pairs |
| `KindsRewrite.dfy`, `SplitStatements.dfy` | the two source rewritings, and how to undo them |
| `ProfTable.dfy`, `CallGraph.dfy` | the open-addressing profile table, and the call-graph fold |
| `DescriptorLog.dfy` | the nested-loop descriptor check against a one-pass machine |
| `StringOps.dfy`, `NBody.dfy`, `BinaryTrees.dfy` | count, split and replace; momentum; trees on the heap |
| `Basics.dfy` | small shared definitions |

## Main results

- **The pipeline never hangs and never depends on its schedule.** Over every interleaving,
  with spurious wakeups, any number of workers and any number of items: a run that has not
  finished can always continue (`RunsNeverStickOrRefuse`), its length is bounded by a constant
  plus two steps per spurious wakeup (`RunsAreBounded`), and where it ends the checksum is
  the sequential one (`MaximalRunsAreCorrect`). Every item is in exactly one place throughout,
  items are taken in the order they were sent, and results are received in the order they were
  handed over (`RunsKeepOrder`).
- **Fannkuch visits all n! permutations, each once** (`VisitsEveryPermutationOnce`), its flip
  loop terminates because a binary number grows (`FlipRaisesFixedBits`), the permutation at any
  position can be read off the position's factorial digits (`ArrangementAt`), and all three programs
  print the same two numbers (`FannkuchLazy`, `FannkuchEager`).
- **The ownership verifier is sound** (`AcceptedFunctionsBalance`): in a function it accepts,
  every execution, through any arms, any number of loop rounds and abrupt exits from inside
  joins, uses and discharges only live owners and returns with none left, so acquires and drops
  balance on every path.
- **Its ownership rules are exact** (`AcceptsIff`): with joins, selections and loops nested to any
  depth, it accepts a function if and only if the code has the right shape, a condition that
  mentions neither states nor executions, and every execution balances. From any other rejection
  the proof builds the execution that faults or leaks (`RejectedGoesWrong`). This is for functions
  whose loops can all end; where one cannot, it can fail (`EndlessLoopRejected`). The verifier's
  checks of types, values and layouts reject more.
- **When one shared tag attributes as if each call had its own** can be read off the calls: the
  tag at an operation is what the last call before it left, which is what the last call in that
  one left, and so on (`TagIsFinal`). Every operation counts as meant if and only if each of
  these chains ends in the category meant there, over all trees of calls with operations
  anywhere (`CountsAsMeantIff`) and over whole programs (`ProgramsCountAsMeantIff`). Helpers that
  do their one operation first always meet it (`OperationFirstIsOrderly`).
- **The rewritings can be undone** (`KindsRewrite.Rewrite`, `SplitStatements.Split`), and each has
  its exact limits: nesting, an operation outside every body, a comment opener before a slash.

## Where the code does something else than one would expect

- A boxed union's drop helper walks a chain of nodes in a loop and repeats its own decrement.
  Later decrements free children, so they are meant as its cascade. They count under the
  caller's tag as long as no payload has been dropped (`ChainCountsUnderCaller`), and under
  whatever the last payload left after that, which can be another parent's cascade
  (`WrongParent`). `DropCountsAsMeantIff` gives the exact condition on the calls.
- A call of a runtime function that `rewrite_tagged` does not recognise sets no tag, though the
  header of the script says that such calls set the function bits. It counts under its caller
  if and only if the caller made the last tagged call (`UnseenCountsUnderCallerIff`); listing a
  directory after calling another function does not (`ListingCountsUnderCallee`).
- The header of `instrument_rc.py` speaks of six category bits (line 22). The code uses seven
  (line 45), and so does the model.
- `split_statements` looks for the end of a comment from its opener, so it takes an opener with a
  slash behind it for a whole comment and can put a newline inside what C reads as one
  (`NewlineInComment`). It reads a text, token for token, as C does if and only if it has no such opener
  (`ReadsAsCIff`).
- Partnered drops can outnumber the acquisitions marked `pair` (`DoubleDropOutnumbers`).
  `PartnersInjectiveIff` says exactly when drops map one-to-one to acquisitions, and
  `DropsOutnumberIff` exactly when there are more of them.
- `replace_copy` overruns its buffer for some string exactly when the new text is more than
  four times as long as the old (`BufferSufficesIff`; for a single string, `FitsIff`). With an
  empty old text its search does not move on (`SearchAdvancesIff`); the loops over `strstr` are
  modelled for a nonempty one.
- The ownership verifier also rejects code that no execution reaches because it stands behind a
  loop without a way out (`EndlessLoopRejected`).
- `prof_hit` does not return for a new key once all 65536 rows are taken (`ProbeEndsIff`).
- `offset_momentum` leaves total momentum at zero only if body 0 was at rest
  (`OffsetStopsIff`): its old share is subtracted and not taken out.
- `count_atomics` copies an operation twice when it is nested in the arguments of another
  (`ErasedBody`).
- The Python fannkuch fails exactly for n < 2, where it indexes a missing element
  (`FannkuchEager`); C and Go do not for n = 1.
- `worker_sum` steps past the last index with an int, which overflows exactly when items plus
  workers exceeds INT_MAX plus one (`ThreadedSum`).

## Model

| member | source | states |
|---|---|---|
| `BoundedQueue.Queue.constructor` | benchmarks/c/channel_pipeline.c:52-66 | a new queue is empty, open and of the given capacity |
| `BoundedQueue.Queue.Seal` | benchmarks/c/channel_pipeline.c:75-81 | sealing changes the flag and no item |
| `BoundedQueue.Queue.Send` | benchmarks/c/channel_pipeline.c:83-98 | the ring with head, tail and count refines a FIFO of bounded length: blocks when full, refuses when sealed, else appends; what was delivered so far, followed by what the ring holds, stays what was accepted |
| `BoundedQueue.Queue.Recv` | benchmarks/c/channel_pipeline.c:100-115 | blocks when empty and open, reports closed when empty and sealed, else takes the oldest item; delivered values followed by those in the ring stay the accepted ones |
| `BoundedQueue.FirstInFirstOut` | benchmarks/c/channel_pipeline.c:83-115 | over any sequence of sends and receives, the values delivered followed by those still queued are those queued at first followed by those accepted, in order; the length stays within the capacity and a sealed queue accepts nothing |
| `HeavyWork.Compute` | benchmarks/c/channel_pipeline.c:43-50 | no intermediate value leaves int64, and the result is the specified one and below 1000003 |
| `HeavyWork.AccumulatorClosedForm` | benchmarks/c/channel_pipeline.c:46-48 | reducing in every round gives the residue of (seed + 1) A^n plus the sum over the rounds j of A^(n-1-j) (12345 + j + seed) |
| `HeavyWork.WorkClosedForm` | benchmarks/c/threaded_cpu_map.c:28-35 | the result in closed form, for every seed and round count: the residue of the unreduced sum modulo 2147483647 and then 1000003; without a round the seed is not reduced modulo 2147483647 |
| `Pipeline.InitControl` | benchmarks/c/channel_pipeline.c:137-186 | the initial state satisfies the control and wakeup invariants |
| `Pipeline.ProduceKeepsControl` | benchmarks/c/channel_pipeline.c:117-125 | each step of the producer keeps them, including the broadcast of the seal |
| `Pipeline.ReceiveKeepsControl` | benchmarks/c/channel_pipeline.c:127-131 | each receive of a worker keeps them |
| `Pipeline.DeliverKeepsControl` | benchmarks/c/channel_pipeline.c:127-134 | each send of a worker keeps them |
| `Pipeline.ConsumeKeepsControl` | benchmarks/c/channel_pipeline.c:188-200 | each step of the receive and join loop of main keeps them |
| `Pipeline.StepKeepsPlaces` | benchmarks/c/channel_pipeline.c:83-134 | no step changes in how many places an item is: unsent, input queue, worker, output queue, received |
| `Pipeline.StepKeepsValues` | benchmarks/c/channel_pipeline.c:127-134 | every result in flight is the work of its own item, and the checksum is the sum of what was received |
| `Pipeline.RunsKeepInv` | benchmarks/c/channel_pipeline.c:75-200 | every state of every run satisfies the whole invariant |
| `Pipeline.StepKeepsOrder` | benchmarks/c/channel_pipeline.c:83-134 | each step takes from the front of a queue and adds at its end |
| `Pipeline.RunsKeepOrder` | benchmarks/c/channel_pipeline.c:83-134 | in every state of every run, the items that workers have got, followed by the input queue, are 0, 1, 2, ... up to the next unsent one, and main has received the jobs in the order workers handed them over |
| `Pipeline.QuietWorkers` | benchmarks/c/channel_pipeline.c:83-115 | when nobody else can step, no worker waits to receive from a sealed or nonempty queue and none waits to send to one with room: no wakeup is lost |
| `Pipeline.NeverStuck` | benchmarks/c/channel_pipeline.c:75-134 | a state that satisfies the invariant has finished or some thread can step without a spurious wakeup |
| `Pipeline.RunsNeverStickOrRefuse` | benchmarks/c/channel_pipeline.c:75-200 | in every state of every run, deadlock freedom, and no send finds its queue sealed |
| `Pipeline.StepMovesPotential` | benchmarks/c/channel_pipeline.c:83-134 | a thread's own step lowers a potential, a spurious wakeup raises it by one |
| `Pipeline.RunsAreBounded` | benchmarks/c/channel_pipeline.c:117-200 | every run has at most a fixed number of steps plus two per spurious wakeup |
| `Pipeline.EachOnceSum` | benchmarks/c/channel_pipeline.c:188-194 | results that come from each item once, in any order, sum to the sequential total |
| `Pipeline.ChecksumIsSequential` | benchmarks/c/channel_pipeline.c:188-203 | after the receive loop, each item was received exactly once and the checksum is the sequential sum |
| `Pipeline.MaximalRunsAreCorrect` | benchmarks/c/channel_pipeline.c:136-209 | a run that cannot continue has finished all threads with that checksum and all items processed |
| `SentinelPipeline.MoveKeepsShape` | benchmarks/python/channel_pipeline.py:33-45 | the queue holds consecutive tokens, so sentinels follow all items, and each exited worker took exactly one |
| `SentinelPipeline.MoveKeepsWhereabouts` | benchmarks/python/channel_pipeline.py:40-45 | no move changes in how many places an item is |
| `SentinelPipeline.ExecutionsStayGood` | benchmarks/python/channel_pipeline.py:33-77 | every state of every execution satisfies the invariants and has done one unit of work per move |
| `SentinelPipeline.NeverBlocked` | benchmarks/python/channel_pipeline.py:33-77 | until main has joined everybody, some thread can move |
| `SentinelPipeline.ExecutionsAreCorrect` | benchmarks/python/channel_pipeline.py:33-80 | every complete execution has the same number of moves, one sentinel per worker after all items, and the sequential checksum |
| `StridedSum.SharesAddUp` | benchmarks/c/threaded_cpu_map.c:63-78 | for any number of workers the shares sum to the sequential total, each index taken by one worker |
| `StridedSum.WorkerSum` | benchmarks/c/threaded_cpu_map.c:37-46 | the strided loop with an int index overflows exactly when the step past one of its indices does, and else computes the worker's share |
| `StridedSum.AllStepsFitIff` | benchmarks/c/threaded_cpu_map.c:41 | no worker overflows exactly when items plus workers is at most INT_MAX plus one |
| `StridedSum.ThreadedSum` | benchmarks/c/threaded_cpu_map.c:63-78 | under that condition, and only then, the program gets the sequential sum |
| `Permutations.FlipRaisesFixedBits` | benchmarks/c/fannkuch.c:26-34 | a flip raises the binary number of fixed positions, which makes the flip loop terminate |
| `Permutations.FlipIsPermutation` | benchmarks/c/fannkuch.c:26-34 | a flip keeps a permutation a permutation |
| `Permutations.FlipReverses` | benchmarks/c/fannkuch.c:27-32 | a flip is the reverse of the prefix, in the sense that reversing a concatenation swaps its parts, followed by the rest |
| `Permutations.FlipsCountsTurns` | benchmarks/c/fannkuch.c:24-34 | after as many turns of the flip loop as counted 0 stands in front, and after fewer it does not |
| `Permutations.ArrangementsCount` | benchmarks/c/fannkuch.c:20-48 | a level visits m! arrangements |
| `Permutations.ArrangementsSound` | benchmarks/c/fannkuch.c:40-47 | it visits only permutations, and leaves everything beyond its prefix |
| `Permutations.ArrangementsComplete` | benchmarks/c/fannkuch.c:40-47 | it visits every permutation that agrees beyond the prefix |
| `Permutations.ArrangementsDistinct` | benchmarks/c/fannkuch.c:40-47 | it visits none twice |
| `Permutations.VisitsEveryPermutationOnce` | benchmarks/c/fannkuch.c:15-48 | the whole order has n! entries, no repeats, and exactly the permutations of 0..n-1 |
| `Permutations.ArrangementAt` | benchmarks/c/fannkuch.c:40-47 | the permutation at any position of the order is the first one with its prefixes rotated as often as the factorial digits of the position say |
| `Permutations.RotatedAt` | benchmarks/c/fannkuch.c:42-44 | a rotation by j, position by position |
| `Permutations.LevelCompletes` | benchmarks/c/fannkuch.c:40-47 | running a counter down restores the prefix it rotated and leaves the levels above |
| `Permutations.FreshCountersComplete` | benchmarks/c/fannkuch.c:21-48 | visiting a permutation and letting fresh counters run completes all levels below r |
| `Permutations.MaxFlipsIsMaximum` | benchmarks/c/fannkuch.c:36 | the running maximum bounds every visited flip count and is one of them |
| `Permutations.ChecksumIsDifference` | benchmarks/c/fannkuch.c:37 | the checksum is what is counted at even positions less what is counted at odd ones |
| `Fannkuch.ReverseHalfSwap` | benchmarks/c/fannkuch.c:27-32 | the half-swap loop reverses the prefix |
| `Fannkuch.ReverseTwoPointer` | benchmarks/go/fannkuch.go:39-41 | the two-pointer loop reverses the prefix |
| `Fannkuch.CountFlips` | benchmarks/go/fannkuch.go:34-44 | either reversal loop ends and counts the flips |
| `Fannkuch.CountFlipsFollowing` | benchmarks/python/fannkuch.py:14-28 | following the first element counts the same flips |
| `Fannkuch.RotatePrefix` | benchmarks/c/fannkuch.c:42-44 | the shift loop rotates the prefix by one |
| `Fannkuch.ResetCounters` | benchmarks/c/fannkuch.c:21 | counters below the current level start afresh, the others stay |
| `Fannkuch.NextLazily` | benchmarks/c/fannkuch.c:40-47 | the inner loop moves to exactly the next permutation still to visit, or stops when none is left |
| `Fannkuch.NextEagerly` | benchmarks/python/fannkuch.py:38-57 | so does the loop that resets counters as they run out; it fails exactly without a second element |
| `Fannkuch.ScoreFollowing` | benchmarks/python/fannkuch.py:13-34 | skipping permutations that start with 0 changes neither number |
| `Fannkuch.FannkuchLazy` | benchmarks/c/fannkuch.c:8-49 | for n >= 1, the C and Go programs end with the alternating sum over all permutations and the true maximum |
| `Fannkuch.FannkuchEager` | benchmarks/python/fannkuch.py:3-57 | the Python program fails on an index exactly when n < 2, and else ends with the same numbers |
| `OwnershipSoundness.EnterAgrees` | blorp/src/verify/verify.brp:2667-2691 | entering a nested block, with the enclosing one as a shared scope, changes nothing about what is active |
| `OwnershipSoundness.DischargeAgrees` | blorp/src/verify/verify.brp:2090-2107 | a checked drop discharges an owner that is live and no other |
| `OwnershipSoundness.IntroduceAgrees` | blorp/src/verify/verify.brp:310-326 | an owner with the next ordinal is not live yet |
| `OwnershipSoundness.PlainAgrees` | blorp/src/verify/verify.brp:2316-2502 | an operation without control that is accepted does not fault, and the state says what is live after it |
| `OwnershipSoundness.YieldLeaves` | blorp/src/verify/verify.brp:2798-2837 | an arm that yields leaves what was live at the join but for the owners that enter it, so all arms agree |
| `OwnershipSoundness.LoopEdgeLeaves` | blorp/src/verify/verify.brp:3847-3901 | every edge of a loop, from however deep inside, leaves exactly what was live before the loop |
| `OwnershipSoundness.EdgeSound` | blorp/src/verify/verify.brp:3483-3579 | a selection edge moves only owners it made |
| `OwnershipSoundness.OpsSound` | blorp/src/verify/verify.brp:2316-2502 | every run of an accepted block ends in the verifier's state, or leaves by an edge of the loop around with what was live before that loop |
| `OwnershipSoundness.LoopSound` | blorp/src/verify/verify.brp:3957-4055 | any number of rounds |
| `OwnershipSoundness.AcceptedFunctionsBalance` | blorp/src/verify/verify.brp:4165-4200 | in an accepted function every execution discharges every obligation exactly once and uses none that is not live |
| `OwnershipExactness.StraightLineIff` | blorp/src/verify/verify.brp:2316-2502 | without joins and loops, a function meets the ownership rules if and only if its owners are numbered in order and its one execution neither faults nor leaves an owner live |
| `OwnershipSoundness.CarryingLoopAccepted` | blorp/src/verify/verify.brp:3957-4055 | a loop that carries an owner round is accepted |
| `OwnershipShape.InitialsSplit` | blorp/src/verify/verify.brp:2121-2156 | every header initial was acquired for the loop or is taken over, and none is lost |
| `OwnershipNumbers.NestedCounts` | blorp/src/verify/verify.brp:3690-3748 | where the second pass ends depends on the code alone |
| `OwnershipConformance.EnteringSpent` | blorp/src/verify/verify.brp:2798-2837 | a yielding arm discharges just the entering owners of those around it, read off its operations |
| `OwnershipConformance.BlockSpends` | blorp/src/verify/verify.brp:3848-3901 | no block of a loop discharges an owner from before the loop |
| `OwnershipConformance.AcceptedIsShaped` | blorp/src/verify/verify.brp:4165-4200 | accepted code numbers owners in the order of the two passes, names only owners it can see, reaches every arm, has a yielding arm in every join, and transfers as many owners as each edge needs, each from where it may |
| `OwnershipWitness.OpsFrame` | blorp/src/verify/verify.brp:2316-2502 | an owner that code of this shape cannot see is still live wherever an execution gets to, unless it faults |
| `OwnershipWitness.OpsEnd` | blorp/src/verify/verify.brp:3690-3748 | from whatever is live, some execution reaches the end of the code or faults |
| `OwnershipWitness.BlockBreaks` | blorp/src/verify/verify.brp:4108-4162 | and in a loop with a break edge some execution leaves by it or faults |
| `OwnershipExactness.EdgeRejected` | blorp/src/verify/verify.brp:3486-3579 | a rejected selection edge faults or leaves behind an owner it made |
| `OwnershipExactness.YieldRejected` | blorp/src/verify/verify.brp:2840-2904 | a rejected yielding arm of the right shape has an execution that faults or leaks |
| `OwnershipExactness.LoopEdgeRejected` | blorp/src/verify/verify.brp:3904-3958 | so has a loop edge |
| `OwnershipExactness.BodyRejected` | blorp/src/verify/verify.brp:3961-4055 | and a loop, in its entry, in its first round or by going round again and then out |
| `OwnershipExactness.OpsRejected` | blorp/src/verify/verify.brp:2316-2502 | from every rejection of a block of the right shape, an execution that faults or leaves an owner live that nothing later can see |
| `OwnershipExactness.RejectedGoesWrong` | blorp/src/verify/verify.brp:4165-4200 | the same for a whole function |
| `OwnershipExactness.AcceptsIff` | blorp/src/verify/verify.brp:4165-4200 | if all loops can end, a function meets the ownership rules if and only if it has that shape and every execution, through any edges and any number of rounds, returns with nothing live and no fault |
| `OwnershipExactness.EndlessLoopRejected` | blorp/src/verify/verify.brp:4108-4162 | a function of the right shape with no bad execution that is rejected, because of a loop that cannot end |
| `RcTags.RoutinesKeepFunction` | blorp/scripts/attribution/instrument_rc.py:200-222 | nothing below a user function's call changes the function bits that call set |
| `RcTags.EveryOperationCounts` | blorp/scripts/attribution/instrument_rc.py:244-247 | whatever the tags, every executed operation is counted once |
| `RcTags.CountsAsMeantIff` | blorp/scripts/attribution/instrument_rc.py:200-222 | over every tree of calls and operations, the shared tag counts each operation as meant if and only if at each operation the chain of last calls leaves the category meant there; the condition mentions no running tag and no count |
| `RcTags.OtherFunctionIff` | blorp/scripts/attribution/instrument_rc.py:200-222 | entered under another function's bits, a routine counts as meant if and only if it counts nothing |
| `RcTags.TagIsFinal` | blorp/scripts/attribution/instrument_rc.py:200-222 | at every point the running tag is the function that entered the routine with the category that the chain of last calls leaves |
| `RcTags.DropCountsAsMeantIff` | blorp/scripts/attribution/instrument_rc.py:214-218 | a drop helper that repeats its operation counts as meant if and only if its callees are orderly under its cascade and a call precedes each later operation, the last of them leaving that cascade |
| `RcTags.OperationFirstIsOrderly` | blorp/scripts/attribution/instrument_rc.py:204-218 | helpers with at most one operation of their own, done first, are orderly under every category, so they count as meant |
| `RcTags.ChainCountsUnderCaller` | blorp/src/emit/emit.brp:1992-2035 | a chain of boxed-union nodes without other payload counts every decrement under the caller's tag, which is as meant exactly for one node or from inside such a cascade |
| `RcTags.WrongParent` | blorp/src/emit/emit.brp:1992-2035 | a node freed after a record in the same walk counts as freed by the record |
| `RcTags.ProgramsCountAsMeantIff` | blorp/scripts/attribution/instrument_rc.py:188-222 | a program counts each operation as meant, however calls of user functions nest, if and only if its tagged calls are orderly and each call that sets no tag follows a tagged call of its own function that leaves a category it is orderly under, or counts nothing |
| `RcTags.SimpleProgramsCountAsMeant` | blorp/scripts/attribution/instrument_rc.py:184-222 | programs whose helpers do their operation first count as meant from any tag |
| `RcTags.TagAfterCode` | blorp/scripts/attribution/instrument_rc.py:191-198 | after any code the tag is the user function whose tagged call ran last, with the category that its chain of last calls leaves |
| `RcTags.UnseenCountsUnderCallerIff` | blorp/scripts/attribution/instrument_rc.py:196-197 | a runtime call that sets no tag counts under its caller if and only if the caller made the last tagged call or nothing is counted |
| `RcTags.ListingCountsUnderCallee` | blorp/src/runtime/fs.brp:448-449 | a program where it counts under the function called before |
| `RcTags.Instrumented.CallRoutine` | blorp/scripts/attribution/instrument_rc.py:200-222 | a rewritten body, with the global tag updated in place, leaves the tag and the counts of the tag semantics |
| `RcTags.Instrumented.RunUser` | blorp/scripts/attribution/instrument_rc.py:189-199 | a user function's body, whose recognised calls set the whole tag |
| `RcCounters.Categories.constructor` | blorp/scripts/attribution/instrument_rc.py:142-143 | number 0 is `untagged` |
| `RcCounters.Categories.Number` | blorp/scripts/attribution/instrument_rc.py:145-150 | equal names get equal numbers, earlier numbers keep their names, and a name is refused exactly when 128 others have numbers |
| `RcCounters.NamesTellCategories` | blorp/scripts/attribution/instrument_rc.py:142-222 | apart from region names, equal category names mean equal categories |
| `RcCounters.PackedTags` | blorp/scripts/attribution/instrument_rc.py:192-203 | a packed tag unpacks to function and category and indexes the allocated table |
| `RcCounters.Count` | blorp/scripts/attribution/instrument_rc.py:242-247 | both builds count what their counter names |
| `RcCounters.TaggedSumsToKinds` | blorp/scripts/attribution/report.py:257-262 | for every execution the tagged counts of a kind and direction sum to the kinds-only count |
| `RcCounters.ProgramStaysInTable` | blorp/scripts/attribution/instrument_rc.py:269-270 | every operation of every program with function numbers up to the limit hits a row of the allocated table, which unpacks to its function and category, so the tagged counts sum to the kinds-only ones |
| `RcCounters.RowsSum` | blorp/scripts/attribution/instrument_rc.py:274-275 | writing only nonzero rows loses nothing when they are read and summed |
| `RcCounters.GroupOf` | blorp/scripts/attribution/report.py:229-233 | the first group with a matching prefix |
| `RcCounters.GroupsSumToKinds` | blorp/scripts/attribution/report.py:268-272 | unless a category has no group, the groups' totals sum to the kinds-only count |
| `RcCounters.ProgramGroupsSum` | blorp/scripts/attribution/report.py:257-272 | for every such program the groups of the report add up to the kinds-only count |
| `RegionTags.CollectOwners` | blorp/scripts/attribution/instrument_rc.py:155-161 | the dictionaries hold the last A and the last K marker of each owner |
| `RegionTags.OriginIff` | blorp/scripts/attribution/instrument_rc.py:174-176 | an owner has an origin exactly when an A or K marker announces it |
| `RegionTags.OriginMeans` | blorp/scripts/attribution/instrument_rc.py:155-174 | wherever they stand, the last A marker of the owner gives the origin, and only without one the last K marker |
| `RegionTags.LastDeciding` | blorp/scripts/attribution/instrument_rc.py:166-179 | the last B or E marker before a piece of text |
| `RegionTags.PiecesAreBody` | blorp/scripts/attribution/instrument_rc.py:162-181 | pieces cut at the markers are, joined, exactly the characters of the body outside every marker |
| `RegionTags.NextRegion` | blorp/scripts/attribution/instrument_rc.py:166-179 | one marker's effect on the category; it fails exactly on a drop of an owner nobody announced |
| `RegionTags.Tag` | blorp/scripts/attribution/instrument_rc.py:153-181 | with a cursor over the body: fails exactly when some drop has no origin; else each piece is the text between two markers with the category of the last B or E marker before it, and all pieces join to the body without markers |
| `PairScans.PartnersInjectiveIff` | blorp/scripts/attribution/patch_emit_markers.py:103-141 | drops map one-to-one to acquisitions if and only if two drops of an owner that both pair have an acquisition from it between them |
| `PairScans.PartneredDropsBounded` | blorp/scripts/attribution/patch_emit_markers.py:125-141 | then partnered drops never outnumber marked acquisitions |
| `PairScans.DropsOutnumberIff` | blorp/scripts/attribution/patch_emit_markers.py:85-141 | partnered drops plus passed acquisitions equal marked acquisitions plus repeated drops, so drops outnumber acquisitions exactly when repeats outnumber those passed |
| `PairScans.DoubleDropOutnumbers` | blorp/scripts/attribution/patch_emit_markers.py:135-141 | a list where they do |
| `PairScans.ReasonMeans` | blorp/scripts/attribution/patch_emit_markers.py:46-72 | a value just read from a record is a projection; otherwise the next operation that is no acquisition and no drop decides the reason, by its position |
| `PairScans.PairMarkIsExact` | blorp/scripts/attribution/patch_emit_markers.py:85-98 | the forward scan marks exactly the acquisitions that have a drop of their owner near |
| `PairScans.BackwardStopsAt` | blorp/scripts/attribution/patch_emit_markers.py:103-122 | the backward scan stops at the nearest acquisition from the owner and reports its reason |
| `PairScans.PartnerIsMarked` | blorp/scripts/attribution/patch_emit_markers.py:135-141 | a drop's partner is an acquisition that is itself marked, and the reasons agree |
| `PairScans.ScansAgree` | blorp/scripts/attribution/patch_emit_markers.py:85-141 | a drop has a partner if and only if it pairs with some acquisition |
| `PairScans.FirstDropHasPartner` | blorp/scripts/attribution/patch_emit_markers.py:125-132 | the first drop reached from a marked acquisition has a partner |
| `PairScans.SharedPartner` | blorp/scripts/attribution/patch_emit_markers.py:103-122 | exactly when two drops share an acquisition |
| `KindsRewrite.Functions` | blorp/scripts/attribution/instrument_rc.py:69-85 | exactly the top-level bodies with a function name, ordered and disjoint, for every sequence of braces |
| `KindsRewrite.MatchEnd` | blorp/scripts/attribution/instrument_rc.py:115-124 | the first position where the parentheses balance, failing exactly when there is none before the end of the body |
| `KindsRewrite.CountAtomics` | blorp/scripts/attribution/instrument_rc.py:127-138 | fails exactly when an operation is not closed in the body, else weaves a counter around each |
| `KindsRewrite.ErasedBody` | blorp/scripts/attribution/instrument_rc.py:127-138 | erasing the inserted text restores the body if and only if no operation is nested in another; else it is longer |
| `KindsRewrite.OperationWrapped` | blorp/scripts/attribution/instrument_rc.py:133-134 | every operation stands behind the counter of its own kind and direction |
| `KindsRewrite.OperationInPlace` | blorp/scripts/attribution/instrument_rc.py:133-135 | the text before that counter is what precedes the operation |
| `KindsRewrite.OperationReported` | blorp/scripts/attribution/instrument_rc.py:108-112 | an operation that runs adds one to the report line whose kind is the first prefix of its function and whose direction is its own, and to no other |
| `KindsRewrite.Report` | blorp/scripts/attribution/instrument_rc.py:262-266 | the two loops print one line for each kind and direction, from counter 2 k + d |
| `KindsRewrite.SitesShortIff` | blorp/scripts/attribution/instrument_rc.py:248-255 | fewer operations are wrapped than found exactly when one is in no body |
| `KindsRewrite.Weave` | blorp/scripts/attribution/instrument_rc.py:239-252 | the loop over the bodies, with the number of operations wrapped |
| `KindsRewrite.Rewrite` | blorp/scripts/attribution/instrument_rc.py:237-256 | refused exactly when some operation of the source lies outside every function body, and the whole file is restored by erasing if and only if nothing is nested |
| `SplitStatements.FinishedIsUnique` | blorp/scripts/attribution/instrument_copies.py:98-124 | a text has one reading as comments, literals, directives and code |
| `SplitStatements.ReadingExists` | blorp/scripts/attribution/instrument_copies.py:98-124 | and it has one |
| `SplitStatements.LineStartMeans` | blorp/scripts/attribution/instrument_copies.py:123 | the start of a line, by positions |
| `SplitStatements.DirectiveMeans` | blorp/scripts/attribution/instrument_copies.py:116-121 | a directive, by positions |
| `SplitStatements.ReadsAsCIff` | blorp/scripts/attribution/instrument_copies.py:107-111 | the loop reads a text as C does if and only if no comment opener is directly followed by a slash |
| `SplitStatements.NewlineInComment` | blorp/scripts/attribution/instrument_copies.py:108 | a text where it puts a newline inside a C comment |
| `SplitStatements.OutputFollowsC` | blorp/scripts/attribution/instrument_copies.py:93-125 | without such openers newlines go only after separators that are code by the rules of C |
| `SplitStatements.BreaksOfMeans` | blorp/scripts/attribution/instrument_copies.py:121-122 | newlines go after exactly the separators read as code |
| `SplitStatements.SeparatorsEndLines` | blorp/scripts/attribution/instrument_copies.py:121-122 | a separator that is code is the last character of its output line |
| `SplitStatements.EraseUndoesBroken` | blorp/scripts/attribution/instrument_copies.py:121-125 | deleting the inserted newlines restores the source |
| `SplitStatements.Split` | blorp/scripts/attribution/instrument_copies.py:93-125 | the loop fails exactly on a text that ends in an unfinished comment or an escape, and otherwise its output erases to the source |
| `ProfTable.TallyMeaning` | blorp/scripts/attribution/instrument_copies.py:44 | the tally has exactly the keys hit, with their hits and sums of units |
| `ProfTable.ProbeEndsIff` | blorp/scripts/attribution/instrument_copies.py:41-46 | a probe ends if and only if the key is present or a row is free |
| `ProfTable.FreeSlotMeansAbsent` | blorp/scripts/attribution/instrument_copies.py:43 | taking the first free row never duplicates a key |
| `ProfTable.CountKeepsGood` | blorp/scripts/attribution/instrument_copies.py:41-46 | a hit keeps keys distinct, probe chains unbroken and the rows equal to the tally |
| `ProfTable.Table.FindSlot` | blorp/scripts/attribution/instrument_copies.py:39-46 | the probe loop ends at the first row that is free or has the key |
| `ProfTable.Table.Record` | blorp/scripts/attribution/instrument_copies.py:38-47 | one call changes one key's total and nothing else |
| `ProfTable.Profile` | blorp/scripts/attribution/instrument_copies.py:38-47 | with at most 65536 distinct keys the table is the exact tally of all calls |
| `CallGraph.PoppedChain` | blorp/scripts/attribution/report.py:464-468 | after popping, the stack is exactly the line's ancestor chain |
| `CallGraph.SeenAbove` | blorp/scripts/attribution/report.py:466 | a symbol is on the stack exactly when an ancestor has it |
| `CallGraph.InclusiveSamples` | blorp/scripts/attribution/report.py:452-469 | each function's samples are those of its lines with no ancestor of the same name |
| `CallGraph.AncestorsAreParents` | blorp/scripts/attribution/report.py:464-465 | a line's ancestors are its parent, the nearest line above with less indentation, and that line's ancestors |
| `CallGraph.Telescopes` | blorp/scripts/attribution/report.py:464-468 | outermost samples plus the clear nodes' own equal the roots plus the clear nodes' children |
| `CallGraph.InclusiveWithinTotal` | blorp/scripts/attribution/report.py:452-469 | when counts nest, no function exceeds the root total |
| `DescriptorLog.Check` | blorp/test/runtime/fixtures/fs_directory_test.c:367-385 | the nested loops decide that each open is closed once before it is opened again and the counts match |
| `DescriptorLog.CountWindow` | blorp/test/runtime/fixtures/fs_write_test.c:386-390 | the inner loop counts the closes up to the next open of the descriptor |
| `DescriptorLog.ClosesAddUp` | blorp/test/runtime/fixtures/fs_directory_test.c:364-366 | closes that belong to opens are distinct, and any other comes on top |
| `DescriptorLog.CheckedWithIsAccepts` | blorp/test/runtime/fixtures/fs_write_test.c:375-394 | the equivalence from any set of held descriptors |
| `DescriptorLog.CheckIsOnePass` | blorp/test/runtime/fixtures/fs_directory_test.c:367-385 | the check accepts a log if and only if the one-pass machine does |
| `DescriptorLog.CountIsNeeded` | blorp/test/runtime/fixtures/fs_directory_test.c:384 | without the count of closes a stray close would pass |
| `StringOps.FindIsFirst` | benchmarks/c/string.c:38 | the search finds the first occurrence or there is none |
| `StringOps.JoinUndoesSplit` | benchmarks/c/string.c:176-195 | joining the parts with the delimiter gives the string back |
| `StringOps.PartsHaveNoSeparator` | benchmarks/c/string.c:176-195 | no part contains the delimiter |
| `StringOps.ReplaceFits` | benchmarks/c/string.c:34 | the output is at most four times as long as the string |
| `StringOps.BufferSufficesIff` | benchmarks/c/string.c:34 | the buffer suffices for every string if and only if the new text is at most four times as long |
| `StringOps.FitsIff` | benchmarks/c/string.c:34 | for one string, the result fits exactly when what the new texts add does |
| `StringOps.SearchAdvancesIff` | benchmarks/c/string.c:38-45 | the search moves on after every occurrence if and only if the text searched for is not empty |
| `StringOps.EmptyIsFoundInPlace` | benchmarks/c/string.c:38 | an empty text is found where the search stands, so that loop does not end |
| `StringOps.ReplaceCopy` | benchmarks/c/string.c:30-49 | whenever the result fits, the copy stays in its buffer, ends in NUL and is the parts joined with the new text |
| `StringOps.CountOnce` | benchmarks/c/string.c:101-105 | the count is one less than the number of parts |
| `StringOps.BenchCount` | benchmarks/c/string.c:96-108 | the total over all passes |
| `StringOps.Store` | benchmarks/c/string.c:177-185 | a part is stored within the doubled capacity and the earlier ones stay |
| `StringOps.SplitInto` | benchmarks/c/string.c:171-195 | the array holds exactly the parts |
| `NBody.ExchangeKeepsMomentum` | benchmarks/c/nbody.c:101-106 | an exchange keeps total momentum if and only if loss and gain balance |
| `NBody.InteractionKeepsMomentum` | benchmarks/c/nbody.c:92-108 | the pair loops keep total momentum, for any number of bodies and any `mag` |
| `NBody.PairPulls` | benchmarks/c/nbody.c:101-106 | each body of a pair is pulled towards the other, with the other's mass |
| `NBody.EveryBodyIsPulled` | benchmarks/c/nbody.c:92-108 | the pair loops change each body's velocity by the sum of the pulls of all other bodies |
| `NBody.EveryBodyMoves` | benchmarks/c/nbody.c:109-113 | and each body then moves for the time step with its new velocity |
| `NBody.OffsetStopsIff` | benchmarks/c/nbody.c:65-75 | the offset makes total momentum zero if and only if body 0 was at rest |
| `NBody.Bodies.OffsetMomentum` | benchmarks/c/nbody.c:65-75 | the three sums and the three assignments |
| `NBody.Bodies.Interact` | benchmarks/c/nbody.c:93-108 | all pairs in loop order, on three axes |
| `NBody.Bodies.Advance` | benchmarks/c/nbody.c:92-114 | the pair loops, then every body moves with its new velocity |
| `NBody.Bodies.Step` | benchmarks/c/nbody.c:92-114 | a step keeps total momentum at zero |
| `NBody.Bodies.Simulate` | benchmarks/c/nbody.c:116-121 | total momentum is zero on every axis after any number of steps |
| `BinaryTrees.CheckClosedForm` | benchmarks/c/binary_trees.c:12-33 | the check of a made tree in closed form, and its number of nodes |
| `BinaryTrees.LeavesInOrder` | benchmarks/c/binary_trees.c:12-24 | from left to right the leaves hold consecutive numbers |
| `BinaryTrees.Make` | benchmarks/c/binary_trees.c:12-24 | a fresh tree of the given depth that shares no node |
| `BinaryTrees.Check` | benchmarks/c/binary_trees.c:30-33 | the recursive sum on the heap |
| `BinaryTrees.NodeCount` | benchmarks/c/binary_trees.c:12-24 | the heap nodes are as many as the tree's |
| `BinaryTrees.Arena.FreeTree` | benchmarks/c/binary_trees.c:35-38 | every node is freed exactly once, and fields are read only through members that require the node not to be freed |
| `BinaryTrees.Turn` | benchmarks/c/binary_trees.c:56-60 | make, check and free: the check value, and 2^(d+1) - 1 nodes freed |

## Left out

- The compiler phases under `blorp/src` other than the ownership verifier, and the runtime C they emit, except the calls and operations of helpers and runtime functions that the attribution scripts rewrite.
- `OwnershipExactness.AcceptsIff`: only for functions in which every loop has an edge that leaves it; the other half, `AcceptedFunctionsBalance` with `AcceptedIsShaped`, is for all functions.
- `OwnershipSoundness.OpsSound`: types, layouts, projections and the value that an owner owns are not modelled; those checks only reject more. A borrow is the owner its projections end in. The decision tests of a selection are not modelled: any edge may be taken. The verifier's loops over lists are recursion on values here, and the arms waiting for their block are visited by a second pass over it.
- The insertion of acquires and drops (`blorp/src/own`), which the verifier checks without relying on it.
- The steps between locking and unlocking a mutex: one critical section is one action, and thread creation is taken as done at the start.
- Failure of allocation or of thread creation, `capacity = workers * 4` overflowing an int, and reading the environment.
- The internals of Python's `queue.Queue`: `put` and `get` are atomic operations that block while the queue is full or empty.
- `int` overflow of the fannkuch permutation counter and checksum (n above 12), and of `long long` values in deep binary trees.
- `BenchCount`: the compiler barrier `black_box_ptr` and timing are not modelled; `bench_replace`, `bench_upper`, `bench_lower`, `bench_reverse`, `bench_substring` and `trim_copy` would add only easy members.
- `ProfTable.Table.Record`: a row whose hit count would reach 2^64 is excluded, and `units` is the exact sum, which the source holds modulo 2^64; `prof_report` only prints the rows.
- Regular-expression matching, file reading, symbol lookup and table formatting in the attribution scripts: tokens, matches and parsed rows are inputs. `rc_pairs` and the per-function tables of the report are sums like those proved here.
- `RcTags.ProgramsCountAsMeantIff`: assumes no tagged call inside the arguments of another, which would set the tag again before the callee runs.
- `RegionTags.Tag`: categories are values of a datatype where the script builds strings, and malformed markers, on which the script raises, are not inputs.
- `SplitStatements.Split`: `//` comments and continued directives, which the source does not treat specially either.
- `KindsRewrite.Rewrite`: where braces, function names and operations are in the text is given, as the regular expressions deliver it.
- Floating-point rounding in nbody: real arithmetic, with the square root abstract.
- The other benchmarks (`fib`, `array_sum`, `set_ops`, `spectral_norm`, `mandelbrot`, `numeric_loop` and others), `bench.sh`, the bootstrap scripts and the rest of the test suite.
