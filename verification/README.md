# A verified model of the GFC symmetric-collective runtime

GFC moves bytes between GPUs that share symmetric memory: all_gather, all2all and
point-to-point transfers, built on a per-edge double-buffered barrier that has no
acknowledgement phase, on one staging buffer per rank that all groups reuse, and on a fused
kernel with its own step counters. The host keeps epochs, tokens and a group registry. This
project models those parts and proves that they work together. `dafny verify dfyconfig.toml`
checks everything.

## How the proof is built

**One transition system.** `Schedule` describes what is submitted: calls on ordered groups
(bare barriers, all_gather, all2all, put, get; one-shot, pipelined or fused) and for every
rank the order of its own calls. Epochs, tokens and the token sequence of every edge are
derived there, per rank, from that rank's own history. `Protocol` is the machine: any rank
may at any time publish an edge, succeed in a wait, copy one byte, store or see a step cell,
pass a barrier, or end a call. Copies have no order except what streams, events and the
kernel loops impose, so every interleaving of kernels, tiles and ranks is a run. Any number of
ranks, overlapping groups, mixed paths, any sizes.

**Layers of invariants.** `LocalOrder` (each rank's own order), `BarrierSafety` (counters and
cells of every edge), `FusedSteps` (the step pads), `DataSafety` (what memory holds). Together
they give `EndToEnd` (outputs and buffer reuse) and, with a measure (`Termination`), progress:
`Progress`, `GlobalOrder`, `EarlyWaits`, and the counterexample `CyclicGroups`. `FusedPair` is a small system
that meets all hypotheses.

**What the transition system assumes, proved from the code.** `Tokens` and `Freshness` (the
hash, and when fresh tokens can be had), `GroupHost` (epochs and registry through
registration and release), `SignalMemory` (flat cell addresses, updated in place),
`ChunkLayout` and `FusedLayout` (the piece and chunk geometry), `PullKernels`, `Lanes` and
`FusedKernel` (the copy loops over arrays), `PullDelivery` (the pull launches of a call), `VecWidth` and `Bits` (alignment), `Dispatch`
(what is enqueued when a check fails), `Autotune` (the rule table).

**Hypotheses of the run theorems.** `WellFormed`: ranks are distinct and in range, sizes fit
the call, a group id names one ordered rank list, and both ends of every pair submit their
common calls in the same order, which is what the barrier's documentation asks of callers.
`Fresh`: on an edge between two different ranks a token differs from what its slot held
before. `StepFresh`: fused calls that share a pair have different step bases and no chunk
target is zero. Sixty-four-bit hashing cannot give the last two across groups; `Freshness`
says when it gives them for ranks that meet in one group, and `EarlyWaits` that a barrier can
be left early exactly when the first one fails.

## Where the code and its documentation differ

- The fused kernel's header (gfc/kernels/fused.py:17-18) promises a wait for "at least" the
  target; the code waits for equality (gfc/kernels/fused.py:280), and that is modelled.
- The width helper says its result divides all inputs (gfc/kernels/_common.py:9-13). 24 is a
  counterexample; `VecWidth.WidthDividesExactly` gives the condition, and every caller in the
  runtime meets it.
- Pairwise order (gfc/runtime.py:475-482) makes runs safe but does not let them finish:
  `CyclicGroups.PairwiseOrderIsNotEnough`. `GlobalOrder.CompletesExactly` gives the condition.
- Tokens are not injective in the epoch: mapping 0 to 1 merges exactly one pair per group.
- A pull kernel with a tail and fewer programs than peers leaves bytes uncopied;
  `PullKernels.CoverageExact` gives the condition, and runtime calls have no tail.
- The guard keeps rejected calls from being half issued (gfc/runtime.py:1093-1113), but a call
  that passes every early check can still be: `Dispatch.Submitter.Submit` says exactly when.

## Model

| member | source | states |
|---|---|---|
| Schedule.PrefixAgree | gfc/runtime.py:475-482 | Just before a call that two ranks share, both have submitted the same shared calls: what pairwise order gives |
| Schedule.EpochAgreement | gfc/group.py:100-108 | All members of a call issue the same epochs for it, whatever they do on other groups |
| Schedule.TokenAgreement | gfc/runtime.py:564-582 | All members compute the same token for every barrier of a call and the same fused step base |
| Schedule.EdgeSymmetric | gfc/kernels/barrier.py:7-10 | Both ends of an edge expect the same token sequence |
| Schedule.EdgeToken | gfc/kernels/barrier.py:71-76 | Each barrier has a fixed place on each of its edges, and the token there is the one its rank computes |
| BarrierSafety.PublishFacts | gfc/kernels/barrier.py:73-85 | Taking the slot from the wrapping counter's parity and storing the token keeps the latest token of each parity in its cell |
| BarrierSafety.LastTokExact | gfc/kernels/barrier.py:12-18 | With fresh tokens and counts at most one apart, a cell shows the expected token if and only if it has been published |
| BarrierSafety.FreshnessIsNeeded | gfc/kernels/barrier.py:97-98 | About the two cells alone, for counts at most one apart: the reader is never misled if and only if each token differs from what its slot held before |
| BarrierSafety.ArrivedWaits | gfc/kernels/barrier.py:87-99 | Fresh tokens or not, a wait for a partner that has published succeeds |
| EarlyWaits.StaleWait | gfc/kernels/barrier.py:97-98 | Whoever publishes a stale token first finds it in its own cell already: its wait may end before the partner publishes |
| EarlyWaits.MisledExactly | gfc/kernels/barrier.py:87-99 | On a system that can complete, some run lets a wait end early if and only if an edge between two different ranks is not fresh |
| BarrierSafety.CountsWithinOne | gfc/kernels/barrier.py:12-18 | The publish counts of the two ends of an edge never differ by more than one |
| BarrierSafety.WaitExact | gfc/kernels/barrier.py:87-99 | A wait ends exactly when the partner has published this barrier: never early on a stale cell, never missed |
| BarrierSafety.BarrierKept | gfc/kernels/barrier.py:66-101 | Every step of any rank, short of an early wait, keeps counter, both cells and reader of every edge consistent |
| BarrierSafety.BarrierOKInRun | gfc/kernels/barrier.py:66-101 | With fresh tokens no step is an early wait, so that consistency holds in every state of every run |
| BarrierSafety.NoUnreadOverwrite | gfc/kernels/barrier.py:12-18 | No signal cell is overwritten before its reader has consumed it |
| BarrierSafety.LeaveAfterAllArrive | gfc/runtime.py:465-470 | A rank leaves a barrier only after every member has arrived at it |
| SignalMemory.Memory.constructor | gfc/buffer.py:83-108 | Zeroed grids show the protocol's initial state |
| SignalMemory.Memory.Apart | gfc/kernels/barrier.py:80-90 | Slot, source and rank address different signal cells, all inside the allocation |
| SignalMemory.Memory.PublishEdge | gfc/kernels/barrier.py:73-85 | The in-place counter bump and store turn the arrays for one protocol state into those for the state after its publish step |
| SignalMemory.Memory.ObserveEdge | gfc/kernels/barrier.py:87-99 | One look at the cell succeeds exactly when the protocol's wait is enabled |
| SignalMemory.Memory.PostStep | gfc/kernels/fused.py:240-257 | The store of a chunk's target into a peer's pad is the protocol's post step |
| SignalMemory.Memory.PollStep | gfc/kernels/fused.py:262-286 | One round of the poll succeeds exactly when all producers' cells equal the target |
| FusedSteps.CellInjective | gfc/kernels/fused.py:249-253 | Channel, chunk and producer map to different step cells |
| FusedSteps.CellInBounds | gfc/buffer.py:95-100 | Every step cell lies inside the allocated pad |
| FusedSteps.TargetsDiffer | gfc/kernels/fused.py:256-256 | Different step bases give different targets for the same chunk, through 64-bit wrap-around |
| FusedSteps.PostOnlyInside | gfc/kernels/fused.py:36-43 | A producer posts to a rank only while that rank is inside the same call |
| FusedSteps.SatisfiedPoll | gfc/kernels/fused.py:276-286 | A satisfied poll means that every producer has posted this chunk of this very call, however stale the pad was |
| FusedSteps.PadKept | gfc/kernels/fused.py:223-307 | Every step of any rank keeps every step pad truthful |
| CopyPlan.SourceHasWriter | gfc/runtime.py:605-668 | What a copy reads from a comm buffer is filled by a copy of the same call one barrier earlier, or in the same fused chunk |
| CopyPlan.OutputCovered | gfc/runtime.py:515-518 | Every output byte of a call is produced by one of the member's copies |
| CopyPlan.OneWriter | gfc/runtime.py:612-668 | Each comm-buffer byte is filled by one copy of the call only |
| DataSafety.RemoteInside | gfc/runtime.py:564-604 | Whoever owns memory that a running copy touches remotely is inside the same call |
| DataSafety.SourceReady | gfc/runtime.py:1541-1590 | An enabled pull finds its byte staged for this call, on every path |
| DataSafety.WritesForOwner | gfc/runtime.py:1008-1038 | A comm buffer is written only for its owner's current call, by the one copy meant for that byte |
| DataSafety.SafeKept | gfc/runtime.py:605-668 | Every step of any rank, short of an early wait, keeps barriers, step pads, comm buffers and outputs right |
| DataSafety.SafeInRun | gfc/runtime.py:605-668 | They are right in every state of every run |
| EndToEnd.FinishedOutput | gfc/runtime.py:515-518 | In every run, under every interleaving, the output of a finished call is the specified one and stays so |
| EndToEnd.GatherMeans | gfc/runtime.py:515-518 | The specification of an all_gather: segment k is the input of `ranks[k]` |
| EndToEnd.TransposeMeans | gfc/runtime.py:696-699 | The specification of an all2all: segment k is the slice that `ranks[k]` holds for this member |
| EndToEnd.PeerMeans | gfc/runtime.py:1008-1082 | The specification of put and get: the receiver gets the sender's bytes |
| EndToEnd.PathsAgree | gfc/runtime.py:562-682 | One-shot, pipelined and fused runs of one call give the same output, whatever surrounds it |
| EndToEnd.LeftAfterReads | gfc/runtime.py:666-668 | A member that has left a call has let every other member finish reading |
| EndToEnd.UnreadIsCurrent | gfc/runtime.py:666-668 | While a filled byte is still to be read by anybody, its owner is inside that very call |
| EndToEnd.NoOverwriteBeforeRead | gfc/runtime.py:602-604 | No enabled step of any call, local staging or remote put, writes a comm-buffer byte that some rank has still to read, however far behind that rank is |
| EndToEnd.ReadsAreStaged | gfc/runtime.py:1541-1590 | Every read of a run returns what was staged for that call, never an earlier or later call's byte |
| Progress.WaitSucceeds | gfc/kernels/barrier.py:97-101 | A wait for a partner that has arrived succeeds |
| Progress.SenderMoves | gfc/kernels/fused.py:223-257 | A fused sender with an unfinished chunk can stage or post |
| Progress.ReceiverMoves | gfc/kernels/fused.py:258-307 | A fused receiver whose producers have posted can poll with success or pull |
| Progress.DeadlockFree | gfc/runtime.py:484-491 | When all ranks run projections of one global schedule, every reachable unfinished state has an enabled step |
| Termination.StepShortens | gfc/kernels/barrier.py:71-101 | Every step strictly decreases what all ranks together have left to do |
| Termination.EveryRunEnds | gfc/runtime.py:472-491 | No run has more steps than the total work of its calls |
| GlobalOrder.ScheduleAgrees | gfc/runtime.py:487-489 | A driver that broadcasts one schedule satisfies the pairwise requirement |
| GlobalOrder.FinishedFollows | gfc/runtime.py:472-491 | A run that finishes has followed one global schedule |
| GlobalOrder.CompletesExactly | gfc/runtime.py:472-491 | Some run finishes, no run blocks early, and a global schedule exists: three equivalent conditions |
| CyclicGroups.PairwiseOrderIsNotEnough | gfc/runtime.py:475-482 | Three two-rank groups issued in a cycle meet the pairwise requirement and never finish |
| FusedPair.PairDelivers | gfc/runtime.py:562-604 | The hypotheses of the run theorems hold together: a two-rank fused all_gather has a run that finishes with both bytes in rank order |
| Tokens.SplitMixBijective | gfc/group.py:23-27 | The mixer is a bijection on 64-bit words, with an explicit inverse |
| Tokens.StableHash64 | gfc/group.py:30-50 | The nested accumulator loops compute one fold of the mixer over the flattened words of all arguments |
| Tokens.KnownValues | gfc/group.py:23-50 | Values of the mixer and of the hash that fix its constants, its seed and the order of folding |
| Tokens.OnePlaceDecides | gfc/group.py:37-50 | Two word lists that differ in one place have equal hashes only if that place is equal too, wherever it is |
| Tokens.BytesApart | gfc/group.py:39-42 | So have two byte strings behind the same prefix |
| Tokens.IntsApart | gfc/group.py:46-48 | And two integer lists, up to 64 bits |
| Tokens.KnownToken | gfc/group.py:53-62 | The token of session 1, group 2 and epoch 3, which fixes the order of the arguments |
| Tokens.ArgumentsApart | gfc/group.py:53-62 | Session, group and epoch each decide the hash when the other two are fixed |
| Tokens.TokensNameCalls | gfc/group.py:53-62 | At one epoch two groups, or two sessions, share a token if and only if their hashes are the merged 0 and 1 |
| Tokens.EpochHashInjective | gfc/group.py:53-62 | For a fixed session and group, different 64-bit epochs hash differently |
| Tokens.TokenNonzero | gfc/group.py:56-60 | No token is the zero that fresh cells hold |
| Tokens.TokenCollision | gfc/group.py:53-62 | Two epochs share a token if and only if they are the same 64-bit epoch or hash to 0 and 1 |
| Tokens.OneCollisionAtMost | gfc/group.py:53-62 | At most one pair of epochs of a group shares a token |
| Tokens.CollisionExists | gfc/group.py:53-62 | Such a pair exists for every session and group |
| Freshness.FreshExactly | gfc/group.py:53-62 | Ranks that meet in one group have fresh slots exactly when the merged pair does not fall two barriers apart |
| Freshness.StepBasesDiffer | gfc/runtime.py:573-582 | Two fused calls of such ranks get the same step base only on the merged pair |
| Freshness.OneGroupIsFresh | gfc/group.py:53-62 | A single group meets the barrier's freshness hypothesis until its counter passes the epoch that hashes to zero |
| Freshness.OneGroupIsStepFresh | gfc/runtime.py:573-582 | And the step pad's, while no step-base epoch hashes to zero or into the top words |
| GroupHost.EpochManager.NextForBarrier | gfc/group.py:100-103 | Returns the next epoch of the id and advances only that id by one |
| GroupHost.EpochManager.NextPairForCollective | gfc/group.py:105-108 | Returns two consecutive epochs and advances only that id by two |
| GroupHost.Runtime.RegisterGroup | gfc/runtime.py:250-302 | Rejects bad rank lists and id reuse with other ranks without change; otherwise returns the live handle, or a fresh one under the given or hashed id |
| GroupHost.AcceptableExactly | gfc/runtime.py:255-264 | The accepted rank lists are exactly those on which the protocol model admits a call, up to the configured size |
| GroupHost.TagSpelled | gfc/runtime.py:269-269 | The hashed prefix is the text `gfc-group-v1` |
| GroupHost.HashedIdsDiffer | gfc/runtime.py:266-270 | Rank lists that differ in one place get different hashed ids |
| GroupHost.Runtime.UnregisterGroup | gfc/runtime.py:356-367 | Removes the entry exactly if the registry holds this very handle; epochs stay |
| GroupHost.Runtime.Barrier | gfc/runtime.py:493-504 | Refuses dead handles without consuming an epoch; else consumes one and launches with its token |
| GroupHost.Runtime.OneShotTokens | gfc/runtime.py:612-614 | Two consecutive epochs and their tokens, for live handles only |
| GroupHost.Runtime.PipelinedTokens | gfc/runtime.py:1532-1539 | One epoch for every piece and one for the post-barrier, with their tokens in order |
| GroupHost.EpochsConsecutive | gfc/group.py:100-108 | Through any registrations, releases and calls the epochs of an id are 0, 1, 2, ...: none skipped, none reissued |
| GroupHost.SameHistorySameTokens | gfc/runtime.py:345-349 | Members with the same history on an id compute the same tokens for their next call on it |
| GroupHost.OnlyItsHandleEvicts | gfc/runtime.py:336-340 | A registration ends only by releasing that very handle |
| GroupHost.ReleasedForever | gfc/runtime.py:336-340 | A released handle never becomes live again |
| GroupHost.StaleReleaseKeeps | gfc/runtime.py:336-340 | Releasing a stale handle again changes nothing, whatever group has its id by then |
| GroupHost.CounterMatchesSchedule | gfc/runtime.py:345-349 | However a rank mixes registrations with its calls, its counters stand where the protocol model puts them |
| ChunkLayout.EffectivePipelineChunks | gfc/runtime.py:1458-1480 | 1 unless pipelining is possible and asked for; else the most pieces within the request, the ceiling and the minimum size |
| ChunkLayout.AskedPieces | gfc/runtime.py:1471-1480 | With room for them the call gets the pieces it asks for, else those of the settings, up to the ceiling; never more |
| ChunkLayout.NominalMeans | gfc/runtime.py:1494-1495 | The piece size is the least aligned one of which `chunks` cover the axis |
| ChunkLayout.Split | gfc/runtime.py:1483-1507 | Pieces tile the axis, at most `chunks` of them; for a power-of-two alignment they are the even ones and the remainder branch is not reached |
| ChunkLayout.EvenPieces | gfc/runtime.py:1483-1507 | Even pieces are positive, start on aligned offsets, and each byte lies in exactly the piece the protocol expects |
| ChunkLayout.PiecesLargeEnough | gfc/runtime.py:1523-1529 | With the runtime's piece count every piece but the last reaches the minimum and the maximum check cannot fail |
| ChunkLayout.PipelinedPath | gfc/runtime.py:1523-1530 | Such a split is a valid pipelined path of the protocol model |
| FusedLayout.PartitionMeans | gfc/kernels/fused.py:521-522 | The partition is the least aligned size of which all channels together cover the slice |
| FusedLayout.ChunkCount | gfc/kernels/fused.py:208-212 | The chunks a program iterates over are the ones that have step cells |
| FusedLayout.LaunchFitsPad | gfc/kernels/fused.py:521-533 | A launch that passes the check keeps every channel and chunk inside the pad |
| FusedLayout.Tiling | gfc/kernels/fused.py:208-229 | Each byte of a slice lies in exactly one chunk of one channel |
| FusedLayout.StaticBound | gfc/config.py:58-95 | For every accepted configuration and slice, rounding never exceeds the static chunk bound; even the spare chunk is unused |
| Lanes.StoreLanes | gfc/kernels/all_gather.py:55-70 | One masked vector store writes exactly the elements in range |
| PullKernels.TurnStores | gfc/kernels/all_gather.py:44-50 | One turn of the strided loop stores exactly the positions of its task |
| PullKernels.RunTurn | gfc/kernels/all_gather.py:44-72 | The same for the in-place store of a turn |
| PullKernels.RunTail | gfc/kernels/all_gather.py:74-89 | After its loop a program stores its part of the tail |
| PullKernels.Program | gfc/kernels/all_gather.py:36-89 | A program on its own stores exactly the positions it owns, each from its source |
| PullKernels.Grid | gfc/kernels/all_gather.py:36-89 | All programs, their turns interleaved in any order, store each owned position exactly once from the right peer and byte, and nothing else |
| PullKernels.CoverageExact | gfc/kernels/all_gather.py:74-89 | Every byte has a program if and only if there is no tail or the grid has one for every peer |
| PullKernels.UncoveredTail | gfc/kernels/all_gather.py:74-75 | Two ranks, 17 bytes, width 16 and one SM: a byte that no program stores |
| PullKernels.LauncherCovers | gfc/kernels/all_gather.py:136-149 | The launcher's grid covers everything exactly when there is no tail or it may use an SM for every peer |
| PullKernels.LaunchAllGatherPull | gfc/kernels/all_gather.py:109-166 | Rejects bad arguments with nothing written; else the destination becomes the plain per-peer copy |
| PullKernels.LaunchAllToAllPull | gfc/kernels/all2all.py:118-185 | The same from this rank's own slice of every peer, with separate source and destination strides |
| PullKernels.LaunchPullCopy | gfc/kernels/copy_pull.py:94-132 | Copies exactly `nbytes` bytes, tail included, for every width and grid |
| PullKernels.RuntimeHasNoTail | gfc/runtime.py:648-652 | The width the runtime picks divides the size, so its launches have no tail |
| PullDelivery.PieceDelivers | gfc/runtime.py:1576-1587 | A launch on a staged piece fills exactly that piece of every segment with the bytes the call specifies |
| PullDelivery.PullWhole | gfc/runtime.py:648-664 | The one-shot launch leaves the specified output: rank order for an all_gather, the transpose for an all2all |
| PullDelivery.PullPieces | gfc/runtime.py:1641-1690 | The launches of all pieces do, each reading comm buffers in which only its own piece need be staged |
| FusedKernel.ByteTailCopy | gfc/kernels/fused.py:76-99 | Copies exactly the bytes `[off, total)` to one or two places |
| FusedKernel.BlockCopy | gfc/kernels/fused.py:103-178 | Bulk plus tail copy exactly `nbytes` bytes to one or two places, for any width |
| FusedKernel.SendChunk | gfc/kernels/fused.py:224-237 | One chunk: all slots staged and the own slice written to its place in the output, nothing else |
| FusedKernel.Send | gfc/kernels/fused.py:366-398 | All sender programs, their chunks interleaved in any order across channels, stage the whole input and the own output slice |
| FusedKernel.PullChunk | gfc/kernels/fused.py:291-307 | One chunk: the rotated peer loop pulls it from every other peer to its place, nothing else |
| FusedKernel.Receive | gfc/kernels/fused.py:450-466 | All receiver programs, likewise interleaved, pull every other peer's whole slice |
| FusedKernel.ChunkIsCell | gfc/kernels/fused.py:224-229 | The bytes moved for a chunk are those whose step cell in the protocol model is that channel and chunk |
| FusedKernel.LaunchFits | gfc/kernels/fused.py:364-459 | A launch stages as much as the protocol model's call, and takes from every peer the slice that the model says is this member's |
| FusedKernel.FusedDelivers | gfc/kernels/fused.py:366-466 | When all members' senders have run and this one's receiver has, its output is the specified one: segment `i` of an all2all is the slice of member `i` for this rank |
| Bits.MaskIsRemainder | gfc/runtime.py:1495-1495 | Masking with one less than a power of two is the remainder |
| Bits.AlignUpMeans | gfc/kernels/fused.py:522-522 | The rounding mask gives the least aligned value not below its argument |
| Bits.LowBitIsMask | gfc/kernels/_common.py:28-32 | `v & -v` is the largest power of two dividing v |
| VecWidth.GcdAllUniversal | gfc/kernels/_common.py:14-18 | The accumulator is the gcd: its divisors are the common divisors of the inputs |
| VecWidth.VecWidthBytes | gfc/kernels/_common.py:8-25 | Computes the width from the gcd; 1 as soon as an input is not positive |
| VecWidth.WidthDividesExactly | gfc/kernels/_common.py:9-13 | The width divides all inputs exactly when the gcd is below 4, is 4 or 8, or is a multiple of 16 |
| VecWidth.WidthIsWidest | gfc/kernels/_common.py:19-25 | No supported width that divides all inputs is wider than the chosen one |
| VecWidth.WidthOf24 | gfc/kernels/_common.py:9-13 | 24 alone gives width 16, which does not divide it |
| VecWidth.PowerOfTwoSuffices | gfc/kernels/_common.py:8-25 | If one input is a power of two, the width divides every input |
| VecWidth.VecForDivides | gfc/runtime.py:1780-1786 | The runtime's width divides every address and the size |
| VecWidth.VecForWidest | gfc/runtime.py:1780-1786 | And no wider supported width does |
| VecWidth.PickVecDivides | gfc/kernels/fused.py:474-486 | The fused width divides input, output and slice |
| VecWidth.PickVecWidest | gfc/kernels/fused.py:474-486 | And no wider supported width does |
| VecWidth.OneShotAligned | gfc/runtime.py:648-664 | Every load and store address of a one-shot pull is aligned to the width |
| VecWidth.PipelinedAligned | gfc/runtime.py:1563-1587 | The same for every piece, although its size differs from the stride |
| VecWidth.FusedAligned | gfc/kernels/fused.py:474-486 | The same for every slice, channel, chunk and lane of the fused copies |
| Dispatch.Submitter.IssueFused | gfc/runtime.py:1213-1249 | Three epochs; a complete sequence, or only the pre-barrier if the launcher's check fails |
| Dispatch.Submitter.IssueWhole | gfc/runtime.py:1268-1315 | Two epochs; stage, pre-barrier, body, post-barrier, or a stop before the body |
| Dispatch.Submitter.IssuePieces | gfc/runtime.py:1523-1590 | All epochs first, then stage, barrier and pull for each piece, then the post-barrier |
| Dispatch.Submitter.SubmitPolicy | gfc/runtime.py:1188-1315 | The autotuned entry: guard and early conversions first, the SM count read as a number only after the pre-barrier |
| Dispatch.Submitter.SubmitStatic | gfc/runtime.py:554-682 | The entry without a policy |
| Dispatch.Submitter.Submit | gfc/runtime.py:1093-1113 | A call completes on the path it asks for, or is refused with epochs and queue unchanged, or, exactly for an empty slice on a kernel path or a pull whose SM count is no positive number, is left half issued |
| Dispatch.GuardFitsPad | gfc/runtime.py:1130-1169 | An accepted fused policy stays inside the allocated pad, aligned and co-resident |
| Dispatch.StaticFusedFits | gfc/runtime.py:562-604 | Without a policy the fused launcher's check fails only for an empty slice |
| Dispatch.SizeCheckExactly | gfc/runtime.py:1766-1777 | The size checks pass exactly the calls whose staged bytes fit the comm buffer, and no empty all2all |
| Dispatch.ConfiguredFusedAccepted | gfc/runtime.py:1130-1169 | A fused rule with the configured channels and chunk size is accepted whenever its programs fit the device |
| Dispatch.PlainPathsAccepted | gfc/runtime.py:1114-1130 | Rules for the plain pull and the copy engine are never refused |
| Dispatch.FusedLaunchableExactly | gfc/kernels/fused.py:516-533 | The fused launcher refuses exactly what would need a step cell outside the pad |
| Dispatch.TmaGatesExactly | gfc/kernels/tma_paths.py:47-56 | The TMA gates pass exactly the nonempty calls in which every peer's copy starts on 16 bytes at both ends |
| Dispatch.KnobsDecide | gfc/runtime.py:1131-1136 | A rule's own numbers are used under their names, the configured ones otherwise |
| Dispatch.PiecesAsked | gfc/runtime.py:1198-1204 | A rule's piece count wins over the caller's, which wins over the settings' |
| Dispatch.TableFitsPad | gfc/runtime.py:126-127 | The load-time check passes exactly the tables no fused rule of which asks more channels than the pad has |
| Dispatch.PathChosen | gfc/runtime.py:554-682 | Which of the paths a completed call took, in both directions, for every setting and policy |
| Dispatch.LaunchesPass | gfc/runtime.py:1093-1113 | Nothing that a completed call enqueued fails its launcher's own check |
| Dispatch.ServedPathIsValid | gfc/runtime.py:1130-1169 | The path a completed call was launched on, with its partition, chunk or piece sizes, is one the protocol model admits |
| Dispatch.LogMatchesSchedule | gfc/runtime.py:564-604 | A complete submission enqueues the call's barriers in order, each with the group id and the epoch the protocol model gives it |
| Dispatch.TokensMatchSchedule | gfc/runtime.py:573-604 | So every barrier carries the token the model expects of this rank, and a fused kernel its channels, its chunk size and, as step base, the token of an epoch that no barrier of the call uses |
| Dispatch.QueueMatchesWindows | gfc/runtime.py:1552-1590 | The kernel that stages or pulls a byte stands behind exactly as many of the call's barriers as the protocol model requires of that copy |
| Dispatch.EmptyGatherHalves | gfc/kernels/all_gather.py:130-132 | An empty all_gather under default settings is left half issued |
| Dispatch.BadSmsHalves | gfc/runtime.py:1297-1297 | So is a nonempty one whose rule gives an SM count that is zero or no number |
| Dispatch.LoadedPulls | gfc/autotune.py:76-85 | With a loaded table only `vec_pull` and a collapsed `pipelined` rule end on the plain pull |
| Autotune.PolicyFor | gfc/autotune.py:116-137 | The first matching rule decides; no answer exactly if none matches |
| Autotune.WildcardStandsForAll | gfc/autotune.py:120-128 | A wildcard collective or group size decides what the same rule with the queried name or size would |
| Autotune.NamedRulesOnlyTheirOwn | gfc/autotune.py:127-135 | A named collective or size decides no other, and a rule without a path nothing |
| Autotune.PolicyWithCatchAll | gfc/autotune.py:37-48 | A table with a catch-all rule answers every query; in first place the catch-all decides it |
| Autotune.Load | gfc/autotune.py:76-85 | Construction accepts exactly the tables whose rules name known paths |
| Autotune.MaxFusedNumChannels | gfc/autotune.py:98-114 | The largest channel count any fused rule asks for, 0 if none; raises exactly if one is no number |
| Autotune.CollectRuns | benchmarks/autotune_collectives.py:363-369 | Keeps the first sample of every stretch with one winner |
| Autotune.RunsCompact | benchmarks/autotune_collectives.py:363-369 | What is kept are samples, and neighbours have different winners |
| Autotune.RunsKeepWinner | benchmarks/autotune_collectives.py:363-369 | Compacting keeps the winner of every byte count |
| Autotune.EmitRules | benchmarks/autotune_collectives.py:356-379 | Emits the rules of all runs of the measured collectives and nothing else |
| Autotune.OneRule | benchmarks/autotune_collectives.py:370-379 | Each byte count falls in exactly one rule: no gap, no overlap |
| Autotune.TableAnswers | benchmarks/autotune_collectives.py:381-384 | In any order of the rules, a matching rule carries the winner at the largest measured size not above the query |
| Autotune.TableHasNoGaps | benchmarks/autotune_collectives.py:349-355 | Every byte count of a measured collective has a matching rule |
| Autotune.PolicyOfTunedTable | gfc/autotune.py:116-137 | Looking up the tuned table gives that winner, and nothing for what was not measured |

## Left out

- Memory consistency (section 8 of the PTX ISA): publish and wait, post and poll are atomic release and acquire steps; everything else interleaves sequentially.
- Spin loops as loops: a wait is one step that is enabled when its cell shows the token; a fused poll reads all producers' cells in one step. `SignalMemory` models one look, not the repetition.
- Watchdogs, timeouts and traps: wall-clock behaviour that only aborts.
- TMA kernels, the TMA probe and the copy-engine path: only their place in submission and the TMA alignment gates appear.
- Triton, CUDA and torch internals, device allocation, `record_stream`, process bootstrap, nonce broadcast, environment, JSON parsing, logging, benchmarks' timing, debug cross-checks and `shutdown`.
- User tensors: not aliased with each other or with the comm buffer, and not modified while a call is in flight; the members of a call pass mirrored arguments with a positive size.
- Token freshness across different groups, and that group ids are unique: 64-bit hashing does not give either; they are hypotheses of the run theorems.
- Vector stores inside the transition system: there each byte moves on its own, in any order, which contains every order of tiles and lanes.
- FusedKernel.Send: and `Receive` interleave the channels of one role; that the two roles, the polls and other ranks interleave with them is the transition system's subject.
- Rules whose own bounds or group size are not numbers: the lookup raises on them, before anything is submitted.
- PullKernels.LaunchPullCopy: its kernel is modelled as the pull kernel with one peer, which has the same loop and tail test.
- Dispatch.Submitter.Submit: takes the group as registered and its rank list as present (`GroupHost` covers that), and models no failure of a foreign launch.
- The point-to-point entry's host side (gfc/runtime.py:961-1006), which registers its pair on demand and draws its epochs before it looks at the rank list; its data path is in the transition system.
- Tokens.StableHash64: strings enter as the bytes of their encoding.
