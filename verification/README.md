# Pinecone engine and tools: models and proofs

Dafny models of the protocols and tools of the repository whose correctness is hardest to see from the
code, with proofs of what they are for. `dafny verify dfyconfig.toml` checks everything.

- **Compiled-program retention** (`RetentionLists`, `RetentionPolicy`, `RetentionTheorems`,
  `RetentionCache`, `RetentionCheck`): the two intrusive lists of the block cache as a class over an array
  of entries, its policy as functions on values, scan resistance and promotion over whole runs, and the
  tests' list walk as an exact check of the invariant.
- **Chain execution** (`GuestGraph`, `BoundedChain`, `ChainReference`, `CountingLoop`): single stepping,
  the threaded bounded runner, the runner that calls its owner after every visit, and the per-visit
  reference loop, all shown to agree.
- **Deadlines and proofs** (`ServiceTimer`, `GateProofs`, `GateRuns`): the owner's timer allowances, exact up to
  wrap-around of the counter, interrupts under a host clock, gates that read proof tokens while other threads
  publish, and what a moved token costs a bounded run.
- **Frame profiling** (`FrameProfile`, `FrameAccounting`, `FrameCapture`, `FrameRecords`, `FrameContract`,
  `FramePrint`, `FrameText`, `Decimals`): the profiler, its capture budgets, the reader of its log, and the contract
  between the two programs, down to the printed text.
- **Preload scope** (`PreloadTokens`, `PreloadScope`): the token filter and the two-phase environment protocol.
- **Acceptance** (`Acceptance`): the validator, whose verdict is a pass exactly when the manifest passes.
- **Raster, counters, index** (`RasterOver`, `ExclusiveCounters`, `RecordIndex`): premultiplied OVER in place,
  generation-checked exclusive stores under every interleaving, and order-insensitive indexing.

Where the source changes state in place the model does too: classes and array loops proved equal to functions
on values, about which the larger results are stated. Those functions are in turn pinned by statements on the
observable fields alone (`BoundedChain.StopsExactly`, `ChainReference.BetweenExactly`,
`FrameRecords.CoherentExactly`, `Acceptance.PassExactly`, the contract of `RetentionCache.Cache.Program`).
`Words`, `Options` and `Sums` hold what they share.

Inputs of the model, chosen freely by a caller: what compilation and decoding produce, what memory answers a
load and how it is served, what peers have published when a gate looks, what an owner answers, clock
readings, the host clock, whether an allocation or a change of the environment fails, the hash from memory
granules to slots, and (for the two validators) the parsed values of a document. Concurrency is modelled as
steps that are atomic and sequentially consistent.

Two statements one might expect are false of the code, and are given with a concrete case and the exact
condition. A timer whose compare value is near the top of the 64-bit counter can be stepped over
(`ServiceTimer.DeadlineSteppedOver`); the deadline is honoured if and only if the counter reaches it before
it wraps around (`ServiceTimer.AtDeadline`). A gate can open after a token that its scan has already read has
moved (`GateProofs.OpensOnMovedToken`); a visit starts on current tokens if and only if nothing was published
during its scan (`GateProofs.Proof.OpensFreshExactly`), a scan under way can still open its gate if and only
if the tokens it has not read yet are unmoved (`GateProofs.Proof.GateOpensExactly`), and after any move at most
one more visit, and for a global epoch one more instruction, follows.

## Model

| member | source | states |
|---|---|---|
| RetentionLists.UnlinkTwo | Sources/ARM64VizNative/ARM64VizBlockCache.c:405-415 | Relinking the neighbours of a member leaves both lists well formed, the member gone from its own list only, and the byte table reduced by its charge |
| RetentionLists.AppendTwo | Sources/ARM64VizNative/ARM64VizBlockCache.c:417-429 | Linking an unfiled entry behind the tail makes it the last member of that queue and nothing else, with its bytes added |
| RetentionCache.Cache.Unlink | Sources/ARM64VizNative/ARM64VizBlockCache.c:405-415 | The in-place unlink equals removal from the list the entry is in; records and the other list stay |
| RetentionCache.Cache.Append | Sources/ARM64VizNative/ARM64VizBlockCache.c:417-429 | The in-place append equals adding at the young end of one queue |
| RetentionCache.Cache.Discharge | Sources/ARM64VizNative/ARM64VizBlockCache.c:431-445 | A release empties the record, takes it out of its list, and lowers the live count and the ownership mirror by exactly it |
| RetentionCache.Cache.RecordReuse | Sources/ARM64VizNative/ARM64VizBlockCache.c:467-490 | A cached hit does exactly what the policy's `Touch` says: refresh, count, demote at most one program, promote if that made it fit |
| RetentionCache.Cache.MakeRoom | Sources/ARM64VizNative/ARM64VizBlockCache.c:492-521 | The eviction loop retires exactly the policy's victims, oldest first, and reports success exactly when the request fits |
| RetentionCache.Cache.Forget | Sources/ARM64VizNative/ARM64VizBlockCache.c:446-457 | Forgetting an entry releases its program, if any, and clears its verdict; diagnostics count it once |
| RetentionCache.Cache.Invalidate | Sources/ARM64VizNative/ARM64VizBlockCache.c:1103-1137 | Invalidating an entry removes it from the queues, clears its verdict, counts the released program, and keeps every invariant, also when repeated |
| RetentionCache.Cache.Decode | Sources/ARM64VizNative/ARM64VizBlockCache.c:1581-1610 | Reusing a slot for a new block releases and counts what it held before, and starts without a verdict |
| RetentionCache.Cache.ClearPrograms | Sources/ARM64VizNative/ARM64VizBlockCache.c:458-465 | Clearing empties both lists from their heads and raises the clear-release counter by exactly the live programs |
| RetentionCache.Cache.Clear | Sources/ARM64VizNative/ARM64VizBlockCache.c:1199-1215 | A cleared cache holds nothing, satisfies the invariant, and has counted every program it released |
| RetentionCache.Cache.Begin | Sources/ARM64VizNative/ARM64VizBlockCache.c:1767-1831 | A diagnostic window opens with empty books over the programs that are live |
| RetentionCache.Cache.Program | Sources/ARM64VizNative/ARM64VizBlockCache.c:1844-1960 | From the entry's fields and the arguments alone: which lookup is answered with the retained program, with nothing, or by compiling, and which counters each answer raises; whatever is answered is retained by the entry and may run for this caller (capability 1, or 2 where memory is allowed); a remembered verdict changes no entry and no queue |
| RetentionCache.Cache.Prepare | Sources/ARM64VizNative/ARM64VizBlockCache.c:1892-1942 | A miss is compiled and refused, denied, rejected by the budget or admitted; the contract gives every counter it raises, by cause, with the number of victims |
| RetentionCache.Cache.Admission | Sources/ARM64VizNative/ARM64VizBlockCache.c:1936-1958 | A usable program is filed at the young end of probation if room was made, else nothing of it is kept; evictions and the outcome are counted exactly |
| RetentionCache.Diagnostics.DeparturesBooked | scripts/assembly-cache-diagnostics-test.c:95-104 | Every departure keeps the partition equations and live = opening + admissions - evictions - entry releases - clear releases |
| RetentionCheck.CheckOrder | scripts/assembly-cache-diagnostics-test.c:59-87 | The tests' list walk accepts exactly the states that are in order for some pair of lists; these are the states that satisfy the invariant, if every record is consistent with its queue field |
| RetentionCheck.WalkQueue | scripts/assembly-cache-diagnostics-test.c:62-79 | Walking one list accepts the well-formed chains of presentable, unmarked entries, finds their members, and terminates on any links |
| RetentionCheck.OrderedIsWhole | scripts/assembly-cache-diagnostics-test.c:59-87 | A state in order whose records are consistent with their queue fields satisfies the whole invariant |
| RetentionCheck.StaleQueueUnnoticed | scripts/assembly-cache-diagnostics-test.c:62-81 | A concrete state the walk accepts although an empty entry has a stale queue field, so the condition is needed |
| RetentionPolicy.RunSound | scripts/assembly-cache-diagnostics-test.c:201-243 | Every run of lookups, releases and clears from an empty cache keeps both byte budgets, disjoint duplicate-free queues and clean records |
| RetentionPolicy.MakeRoomExact | Sources/ARM64VizNative/ARM64VizBlockCache.c:492-521 | At most 64 victims, oldest first, none that was not needed, none for an oversized request; success exactly when room was made |
| RetentionPolicy.GuardedLoss | Sources/ARM64VizNative/ARM64VizBlockCache.c:497-503 | An admission retires a protected program if and only if the request fits the budget, all of probation goes within the work limit, and the protected bytes alone leave no room |
| RetentionPolicy.VictimsUnique | Sources/ARM64VizNative/ARM64VizBlockCache.c:495-513 | The number of victims is the only one whose prefix is necessary and which stops for room or for the limit |
| RetentionPolicy.DropStep | Sources/ARM64VizNative/ARM64VizBlockCache.c:499-512 | Releasing the oldest program left is dropping one more from the eviction order |
| RetentionPolicy.TouchEvents | Sources/ARM64VizNative/ARM64VizBlockCache.c:475-489 | Which hits demote and which promote, read off the queues before the hit |
| RetentionPolicy.TouchSound | Sources/ARM64VizNative/ARM64VizBlockCache.c:467-490 | A hit keeps both budgets and all retained programs |
| RetentionTheorems.ScanResistance | scripts/assembly-cache-diagnostics-test.c:301-356 | Any number of cold programs, each looked up at most twice and fitting beside the protected budget, leaves every protected program in place and in order at every moment |
| RetentionTheorems.PromotionExact | scripts/assembly-cache-diagnostics-test.c:405-417 | Repeated hits promote a program at exactly a computed hit: one demotion each, only programs in its way, oldest first |
| RetentionTheorems.OneHitFewer | Sources/ARM64VizNative/ARM64VizBlockCache.c:477-489 | Each hit that does not promote leaves one hit fewer to go, because a failed promotion still demotes |
| RetentionTheorems.GuardedHit | Sources/ARM64VizNative/ARM64VizBlockCache.c:467-475 | A hit on a guarded program makes it the youngest there; all others keep their order, and no counter moves |
| RetentionTheorems.ProbationHit | Sources/ARM64VizNative/ARM64VizBlockCache.c:476-490 | A hit on a probation program, by its count, its size against three quarters of the budget, and the guarded bytes: it counts to two, demotes at most the oldest guarded program, whose count starts again, and is promoted to the young end if it then fits |
| RetentionTheorems.LeastRecentlyUsedFirst | Sources/ARM64VizNative/ARM64VizBlockCache.c:467-475 | However often and in whatever order guarded programs are hit, the guarded queue stays sorted by last use, so the next to be demoted is the least recently used |
| GuestGraph.SearchTargets | Sources/ARM64VizNative/Assembly/gadget_arm64.S:405-448 | The binary search over pinned target ranges finds the member the linear search finds, or none |
| GuestGraph.MemberUnique | Sources/ARM64VizNative/Assembly/service_chain.c:44-50 | At most one admitted member holds a program counter |
| GuestGraph.FallsThrough | Sources/ARM64VizNative/Assembly/service_chain.c:145-211 | Inside a member every instruction but the last falls through to the next |
| GuestGraph.FlagsMean | Sources/ARM64VizNative/Assembly/gadget_arm64.S:228-234 | The flags of an addition are sign and zero of the sum, carry out of the word, and signed overflow |
| GuestGraph.WideAddition | scripts/phase7-chain-service-test.c:262-300 | A low half with its carry and a high half that takes it in add two-word numbers, losing at most a carry out of the high half |
| GuestGraph.BranchesMean | Sources/ARM64VizNative/Assembly/gadget_arm64.S:379-400 | Conditional branches change the program counter only: on the zero flag, a zero register, a clear bit counted from the low end |
| GuestGraph.LinkMeans | Sources/ARM64VizNative/Assembly/gadget_arm64.S:402-410 | A linking branch goes where its register pointed before the link was written, also when that is the link register |
| GuestGraph.Script.InsideBetween | scripts/phase7-bounded-service-test.c:107-138 | Between visits a run stays in its member, so only entries and ends of members can leave the graph |
| BoundedChain.SuccessorFollows | Sources/ARM64VizNative/Assembly/service_chain.c:125-141 | The links fixed at preparation follow the guest program counter, and leave a member only through a gate |
| BoundedChain.FollowIndirect | Sources/ARM64VizNative/Assembly/gadget_arm64.S:405-448 | An indirect branch reaches the gate of its target, or the exit for misaligned and foreign targets |
| BoundedChain.Runner.Enter | Sources/ARM64VizNative/Assembly/gadget_arm64.S:113-137 | The threaded run retires exactly the steps before the first halting condition, in the state single stepping reaches, with the exit of the condition looked at first |
| BoundedChain.Runner.PassGate | Sources/ARM64VizNative/Assembly/gadget_arm64.S:819-867 | A gate polls events, then proofs, then the visit budget, and opens a provisional visit |
| BoundedChain.Runner.Retire | Sources/ARM64VizNative/Assembly/gadget_arm64.S:46-60 | One instruction retires, then guards, then the budget are looked at |
| BoundedChain.Runner.AskHelper | Sources/ARM64VizNative/Assembly/service_chain.c:446-456 | The owner is asked before a memory helper runs, with the prefix charged; a veto or a fault leaves the instruction unretired |
| BoundedChain.Scene.AccessEnds | Sources/ARM64VizNative/Assembly/gadget_arm64.S:730-748 | An access off the hot path is the last thing a run does: it retires and ends the run, or does not retire at all |
| BoundedChain.Scene.HaltedWithin | Sources/ARM64VizNative/Assembly/service_chain.c:392-412 | A halted run is within its step and visit limits, faulting first instructions included |
| BoundedChain.Scene.AskedSum | Sources/ARM64VizNative/Assembly/service_chain.c:413-427 | The charges, with the residual at the end, add up to what retired |
| BoundedChain.RunBounded | Sources/ARM64VizNative/Assembly/service_chain.c:458-539 | A bounded run reaches the single-stepped state and charges every step once; every instruction it retired was free to retire (guards, every limit, a clear gate with a visit left, an allowed helper that does not fault, no cold access before it) and the next one is not; reason, visits, charges, action and last member are explained by what guards, gate, helper and owner showed there; a refused run reports the first obstacle |
| BoundedChain.StopsExactly | Sources/ARM64VizNative/Assembly/gadget_arm64.S:819-867 | A place is where the run stops if and only if every instruction before it may retire and the one there may not, said of guards, polls, accesses and limits only; in particular a gate that sees a moved proof stays shut |
| BoundedChain.ReasonHolds | Sources/ARM64VizNative/Assembly/service_chain.c:505-533 | The reason reported, case by case, from what was observed where the run stopped: a proof failure if and only if guards, gate or validation failed there, an event if and only if it was seen and no limit met, and so on |
| BoundedChain.BooksHold | Sources/ARM64VizNative/Assembly/service_chain.c:392-427 | Visits, charges, action and last member reported, from what was observed where the run stopped |
| BoundedChain.Settle | Sources/ARM64VizNative/Assembly/service_chain.c:392-539 | The final snapshot drops a gate nothing retired behind, and counts, charges and last member follow from the runner's state |
| BoundedChain.Decide | Sources/ARM64VizNative/Assembly/service_chain.c:502-533 | Reason and action, decided in the source's order from the runner's own flags, exit and counts, are those of the place where the run stopped |
| ChainReference.QuietRun | scripts/phase7-bounded-service-test.c:64-94 | An undisturbed run stops at the largest number of steps every limit allows, and only there |
| ChainReference.DisturbedStopsEarlier | scripts/phase7-bounded-service-test.c:270-298 | Peers, owner and memory can only end a run earlier: continuing from where it stopped for the steps it lacks reaches the undisturbed run's state |
| ChainReference.Resumes | scripts/phase7-chain-service-test.c:263-300 | Continuing a run that any budget cut anywhere reaches the states of the whole run; it counts one visit more exactly when it re-enters in the middle |
| ChainReference.RunVisits | scripts/phase7-bounded-service-test.c:120-128 | The per-visit reference loop reaches the single-stepped state and counts the visits of single stepping |
| ChainReference.Compare | scripts/phase7-bounded-service-test.c:107-138 | Bounded runner and per-visit loop agree on state, steps and visits from any entry and under any budget |
| ChainReference.RunSuffix | Sources/ARM64VizNative/Assembly/gadget_arm64.S:113-137 | One visit stays in one member and ends exactly when its entry is rejected, its allowance is used up, an instruction ends it, or one faults |
| ChainReference.RunServiced | Sources/ARM64VizNative/Assembly/service_chain.c:253-345 | In every world the runner reaches the single-stepped state; its call record says for each visit what was answered and how it ended, each call is charged what retired since the one before, every call but the last let the run go on, and the last explains reason and last member; under an exact allowance and undisturbed it stops where and why the bounded runner does |
| ChainReference.BetweenExactly | Sources/ARM64VizNative/Assembly/service_chain.c:287-323 | A service call lets the run go on if and only if the visit ended in order, the owner agrees, no limit is met and the run is inside the graph; otherwise the reason is read off the answer and the counts, case by case |
| ChainReference.CompareRunners | scripts/phase7-production-chain-test.c:606-617 | Both runners give the same state, steps, visits, reason, action and last member, with two owner calls instead of one per visit |
| CountingLoop.RunLoop | scripts/phase7-bounded-service-test.c:64-94 | Closed form of the two-member loop: steps = min of all limits, x0, x1, visits, program counter, last member, reason by priority, two charges that sum to the steps |
| CountingLoop.RunMoved | scripts/phase7-bounded-service-test.c:271-297 | When a proof has moved by the time of any one gate, the loop's run ends there with the steps and visits so far and a proof failure, whatever its limits still allow |
| CountingLoop.LoopAt | scripts/phase7-production-chain-test.c:630-638 | State, visit starts and visit count of the loop after any number of instructions |
| ServiceTimer.TimerOwner.AdvanceTime | Sources/ARM64VizNative/ARM64VizGuestMemory.c:3900-3928 | Charging advances the 64-bit counter with wrap-around; under a host clock it sets the counter to the reading and the window to 0 if the window reaches 1024, and else only counts; it reports pending or reached timers unless masked |
| ServiceTimer.TimerOwner.Serve | Sources/ARM64VizNative/ARM64VizNative.c:13831-13863 | The fields after the charge, and the owner's answer: the interrupt exactly if one is pending or an enabled, unmasked timer is reached, else the least allowance of both armed timers by ceiling division, unlimited where none counts |
| ServiceTimer.TimerOwner.ServeBounded | Sources/ARM64VizNative/ARM64VizNative.c:13865-13877 | The fields after the charge, and the answer to a bounded run, which never passes the next host clock reading |
| ServiceTimer.AllowanceExact | Sources/ARM64VizNative/ARM64VizNative.c:13848-13857 | The allowance is the least number of instructions after which an armed timer is due (if and only if, for every count) |
| ServiceTimer.BeforeDeadline | scripts/phase7-chain-service-test.c:164-225 | Before the deadline the counter is start + steps * cycles, nothing interrupts, and the remaining allowance is exact |
| ServiceTimer.AtDeadline | Sources/ARM64VizNative/ARM64VizGuestMemory.c:3919-3926 | At the deadline the interrupt is up if and only if the counter did not wrap around on the way |
| ServiceTimer.DeadlineSteppedOver | Sources/ARM64VizNative/ARM64VizNative.c:13848-13857 | A concrete timer next to the top of the counter whose deadline is stepped over, so the condition above is needed |
| ServiceTimer.ChargedWhole | scripts/phase7-chain-service-test.c:164-225 | Charging in any pieces is charging the whole |
| ServiceTimer.RunTimed | scripts/phase7-production-chain-test.c:619-644 | Under timers neither runner passes the deadline; the counter is exact, the interrupt is up exactly at it, and it ends the run unless another limit is met first |
| ServiceTimer.RunTimedAnywhere | Sources/ARM64VizNative/Assembly/service_chain.c:446-456 | In every world, with helper questions answered by the timers too, a bounded run never passes the deadline, keeps the exact counter, and reports the interrupt exactly at it |
| ServiceTimer.ServeTimedAnywhere | Sources/ARM64VizNative/ARM64VizNative.c:13831-13863 | So does the runner that calls its owner between visits, in every world |
| ServiceTimer.HostReadingPlaces | Sources/ARM64VizNative/ARM64VizNative.c:13869-13875 | A charge reads the host clock exactly when the instructions charged so far reach a multiple of 1024 |
| ServiceTimer.HostReadings | Sources/ARM64VizNative/ARM64VizNative.c:13869-13875 | However long the batches are, the host clock is read once for every 1024 instructions |
| ServiceTimer.HostedCounter | Sources/ARM64VizNative/ARM64VizGuestMemory.c:3912-3917 | Under a host clock, after any run of batches within their windows, the counter is the last reading, or still the initial value if there was none; the window is the count modulo 1024 |
| ServiceTimer.FirstInterrupt | Sources/ARM64VizNative/ARM64VizGuestMemory.c:3912-3926 | Under a host clock an interrupt comes first with a batch if and only if that batch takes the first reading that is at or past an armed timer's compare value |
| ServiceTimer.ObeysWindowed | Sources/ARM64VizNative/ARM64VizNative.c:13869-13875 | Whoever keeps to the allowances never charges past a multiple of 1024 |
| GateProofs.Proof.NoStaleVisit | Sources/ARM64VizNative/Assembly/gadget_arm64.S:826-848 | In every interleaving each admitted visit's scan began at a moment when every token had its proved value |
| GateProofs.Proof.MovedBeforeScan | scripts/phase7-bounded-service-test.c:270-298 | A token that moved before a scan began keeps that gate shut |
| GateProofs.Proof.OpensFreshExactly | Sources/ARM64VizNative/Assembly/gadget_arm64.S:826-848 | A visit starts with every token current if and only if nothing was published during its scan |
| GateProofs.Proof.GateOpensExactly | Sources/ARM64VizNative/Assembly/gadget_arm64.S:831-848 | A scan under way can still open its gate if and only if every token it has not read yet is unmoved, whatever has become of those it has passed |
| GateProofs.Proof.AtMostOneMoreVisit | scripts/phase7-production-chain-test.c:852-872 | After any token has moved at most one more visit is admitted, and only by a scan that had already passed it |
| GateProofs.Proof.AtMostOneMoreInstruction | Sources/ARM64VizNative/Assembly/gadget_arm64.S:22-52 | After a global epoch has moved at most one more instruction retires |
| GateProofs.OpensOnMovedToken | Sources/ARM64VizNative/Assembly/gadget_arm64.S:831-848 | The stronger claim is false: a concrete interleaving opens a gate after a token its scan had read has moved |
| GateRuns.MovedEndsRun | Sources/ARM64VizNative/Assembly/gadget_arm64.S:819-867 | A bounded run whose gates and guards are the interleaved proof machine's begins at most one more visit once any token has moved, and retires at most one more instruction once a global one has |
| FrameProfile.Profiler.MarkAt | scripts/guest-gtk-frame-profile.h:37-65 | The mark changes exactly what the accounting says: name lookup, nesting, outermost intervals, wrap-around, validity |
| FrameProfile.Profiler.Begin | scripts/guest-gtk-frame-profile.h:79-90 | Beginning forgets everything, enters the frame stage, and marks an interrupting frame invalid |
| FrameProfile.Profiler.Stop | scripts/guest-gtk-frame-profile.h:92-101 | Stopping leaves the frame stage and keeps validity only if no stage is open |
| FrameProfile.Accounts | scripts/guest-gtk-frame-profile.h:37-77 | For every sequence of marks the flag is exactly their consistency, and the accumulators are the time in each stage so far |
| FrameAccounting.FinishedFrame | scripts/guest-gtk-frame-profile.h:79-101 | A finished frame is valid if and only if it interrupted none and its marks are few, known, nested, clocked, in order and balanced; then calls are the entries and times the time the depth was positive |
| FrameAccounting.WithinFrame | scripts/guest-gtk-frame-profile.h:10-12 | Under an ordered clock no stage takes longer than the frame, so no accumulator wraps around |
| FrameAccounting.ValidFrame | scripts/guest-gtk-frame-profile.h:92-101 | Begin, end, calls and duration of the frame stage of a valid frame, and the exact time of every stage |
| FrameCapture.Hooks.CaptureAllowed | scripts/guest-gtk-latency.c:72-81 | Capture is allowed by sequence, total and per-sequence budget; a new sequence renews its budget |
| FrameCapture.Hooks.ShouldEmit | scripts/guest-gtk-latency.c:83-95 | A ready frame is counted and written, unless it is valid and painted nothing |
| FrameCapture.Hooks.InsertBefore | scripts/guest-gtk-latency.c:149-154 | An insertion advances the sequence and nothing else |
| FrameCapture.Hooks.FrameBegins | scripts/guest-gtk-latency.c:106-110 | A frame begins, with its counter and sequence, exactly when capture is allowed |
| FrameCapture.Hooks.FrameStops | scripts/guest-gtk-latency.c:103-105 | Stopping notes the sequence at the end and stops the frame |
| FrameCapture.Hooks.FrameEnds | scripts/guest-gtk-latency.c:122-129 | The record written is the profile's, once |
| FrameCapture.CaptureBudget | scripts/guest-gtk-latency.c:72-129 | Over every run: at most 512 records, at most four for one insertion, none outside insertions 1 to 256, and the counters count exactly the records written |
| FrameCapture.FrameIsCaptured | scripts/guest-gtk-latency.c:72-81 | After any run a frame that begins is profiled, under the number of insertions so far, if and only if that is 1 to 256, fewer than 512 records are written, and fewer than four began under it |
| FrameCapture.IdleFramesAreFree | scripts/guest-gtk-latency.c:86-91 | Taking a whole valid, unpainted frame out of any run changes no record, earlier or later, and no budget |
| FrameCapture.OtherFramesAreWritten | scripts/guest-gtk-latency.c:92-94 | Any other ready frame is written and costs exactly one record of each budget |
| FrameCapture.WrittenShows | scripts/guest-gtk-latency.c:122-129 | A record holds its frame's numbers, with the insertions seen when it began and when it was last stopped |
| FrameRecords.ReadFrames | scripts/analyze-gtk-latency.py:23-72 | The reader accepts a log if and only if, on its fields: every record has the nine fields, natural numbers, version 1 and a process; one that claims validity has a running clock, the ten stages, none longer than the frame, no time without calls, and one frame call of exactly its duration; frames of a process increase and valid neighbours do not overlap; it reports each process's records in order |
| FrameRecords.CoherentExactly | scripts/analyze-gtk-latency.py:23-63 | The reader's conditions on a log are those on its fields, so any one violation in any record rejects it |
| FrameRecords.MeasuredExactly | scripts/analyze-gtk-latency.py:45-62 | The checks of a record that claims validity are exactly those on clock, insertions, stages, endpoints and stage times |
| FrameRecords.ReportShows | scripts/analyze-gtk-latency.py:42-71 | What is reported of a record is its own numbers, whether insertions changed, and exactly the stages that were entered |
| FrameRecords.JudgeExact | scripts/analyze-gtk-latency.py:37-49 | Comparing with the last record of the process only is as good as comparing with all of them |
| FrameContract.Contract | scripts/guest-gtk-latency.c:97-129 | In every disciplined run the log is one the reader takes, and the frame in progress belongs after it |
| FrameContract.ReaderAccepts | scripts/analyze-gtk-latency.py:23-62 | The reader accepts every log that disciplined profilers wrote, also when several processes are mixed in it |
| FrameContract.InnerMarksExact | scripts/analyze-gtk-latency.py:58-61 | A valid frame under ordered clocks is read if and only if no inner mark names the frame stage |
| FramePrint.PrintRecord | scripts/guest-gtk-frame-profile.h:105-131 | Piecewise printing gives the whole text if it fits with its terminator, and nothing otherwise |
| FramePrint.TextFits | scripts/guest-gtk-latency.c:126-128 | The text of any record of 64-bit numbers fits the 2048-byte buffer |
| FramePrint.EveryRecordFits | scripts/guest-gtk-latency.c:126-128 | No record of any run with 64-bit readings and counters is lost to truncation |
| FramePrint.RecordReadsBack | scripts/guest-gtk-frame-profile.h:105-131 | Scanning a printed record by its labels gives back all its numbers, and records that print alike are the same |
| FrameText.LineParses | scripts/analyze-gtk-latency.py:29-36 | Parsing a printed line as JSON gives exactly the value the reader takes, key by key and number by number |
| FrameText.TextAccepted | scripts/analyze-gtk-latency.py:23-62 | From marks to verdict: the reader accepts the text of every log that disciplined profilers print |
| PreloadTokens.TokensInOrder | scripts/guest-gtk-preload-scope.h:41-47 | The tokens are the maximal runs without separators, each once, in the order they stand |
| PreloadTokens.TokensAreRuns | scripts/guest-gtk-preload-scope.h:41-47 | A text is a token from a place on exactly if it stands there as a maximal run |
| PreloadTokens.TokensOfJoin | scripts/guest-gtk-preload-scope.h:51-63 | The tokens of a joined list are the list: joining loses nothing |
| PreloadTokens.ExcludingMembers | scripts/guest-gtk-preload-scope.h:29-30 | What stays is what is not removed, each as often as before |
| PreloadScope.CopyToken | scripts/guest-gtk-preload-scope.h:51-61 | One round of the copy loop: the write index never passes the place read up to |
| PreloadScope.CopyOthers | scripts/guest-gtk-preload-scope.h:51-63 | The copy loop writes the join of the other tokens |
| PreloadScope.WithoutProbe | scripts/guest-gtk-preload-scope.h:31-65 | 1 and the list without the token, 0 if absent without allocating, -1 exactly for an invalid token or failed allocation |
| PreloadScope.RemoveList | scripts/guest-gtk-preload-scope.h:81-106 | Every token of the list is removed in turn; production code in the list is an error; memory is given back |
| PreloadScope.RemovedFromJoin | scripts/guest-gtk-preload-scope.h:81-106 | Removing a list from joined tokens removes the set of its tokens, in whatever order they come |
| PreloadScope.ChildPreload | scripts/guest-gtk-preload-scope.h:108-122 | Success exactly for a proper manifest, with the join of the tokens that are neither probe, diagnostic nor extra |
| PreloadScope.InheritedTokens | scripts/guest-gtk-preload-scope.h:108-122 | What children inherit: in order and with duplicates exactly the tokens that are not the probe, not one of the three named diagnostic libraries, and not among the extra ones; every production token stays |
| PreloadScope.PrepareScope | scripts/guest-gtk-preload-scope.h:126-137 | Preparation changes only the process identifier variable, and only on success |
| PreloadScope.ActivateScope | scripts/guest-gtk-preload-scope.h:142-158 | A different process or an unrequested scope is a no-op, failure leaves the environment unchanged, success replaces the list |
| PreloadScope.LaunchScoped | scripts/guest-gtk-latency.c:35-47 | The launcher succeeds only for a manifest and then changes exactly three variables |
| PreloadScope.TwoPhases | scripts/guest-gtk-preload-scope.h:124-158 | Once the launcher agreed, activation in the same process succeeds, children inherit exactly the tokens that are neither probe, nor a named diagnostic library, nor extra, and another process changes nothing |
| Acceptance.NearestRank | scripts/phosh-interaction-acceptance.py:50-57 | The nearest-rank 95th percentile is within a budget if and only if at least 95 of 100 values are |
| Acceptance.Validator.Captures | scripts/phosh-interaction-acceptance.py:256-330 | No error is added if and only if every capture is clean, continues every earlier one of its epoch, and repeats no generation with other measurements |
| Acceptance.Validator.OneAttempt | scripts/phosh-interaction-acceptance.py:332-469 | No error is added if and only if the attempt is proper between its captures, up to its fault count, and has evidence of its own |
| Acceptance.Validator.Attempts | scripts/phosh-interaction-acceptance.py:497-522 | Comparing with the last end of a clock only: no error if and only if all attempts are proper and pairwise disjoint |
| Acceptance.Validator.Cohorts | scripts/phosh-interaction-acceptance.py:523-535 | No error if and only if every cohort has enough valid attempts and enough of them within budget |
| Acceptance.Validator.Run | scripts/phosh-interaction-acceptance.py:471-537 | The verdict is a pass if and only if the manifest's fields show everything required of requirements, captures, samples, attempts and cohorts, up to the fault counts; any one violation fails it |
| Acceptance.PassExactly | scripts/phosh-interaction-acceptance.py:332-537 | The validator's conditions are those on the fields: required attempts passed, no faults, evidence, bounding captures on one clock and epoch, completed input, launch milestones in order, observation on the attempt's clock within its window, attempts apart, enough of every cohort and 95 of 100 within budget |
| Acceptance.ProperExactly | scripts/phosh-interaction-acceptance.py:332-469 | An attempt is proper between two captures if and only if its fields and theirs show so |
| Acceptance.CohortMeans | scripts/phosh-interaction-acceptance.py:523-537 | A pass: each required cohort has at least max(10, minimum) attempts, at least 95 of 100 within the budget |
| Acceptance.AttemptMeans | scripts/phosh-interaction-acceptance.py:347-356 | A pass: every attempt lies between two captures of one epoch on its clock, takes time, and was observed within its window |
| Acceptance.OrderMeans | scripts/phosh-interaction-acceptance.py:294-314 | A pass: attempts on one clock are disjoint in time, and within an epoch time increases and milestones never change |
| Acceptance.SamplesMean | scripts/phosh-interaction-acceptance.py:315-327 | A pass: within an epoch a generation means the same measurements in every capture |
| RasterOver.MultiplyRounds | scripts/host-raster-glyph-regression.c:15-18 | The byte product is the quotient by 255 rounded to nearest, for all bytes |
| RasterOver.OverPremultiplied | scripts/host-raster-glyph-regression.c:26-31 | Under premultiplied colour and destination the clamp never fires and no channel exceeds alpha |
| RasterOver.OverEnds | scripts/host-raster-glyph-regression.c:24-31 | No coverage changes nothing; an opaque colour at full coverage replaces every channel |
| RasterOver.DrawPixels | scripts/host-raster-glyph-regression.c:24-33 | A row of pixels is drawn in place by the formula, and nothing beside it changes |
| RasterOver.Composite | scripts/host-raster-glyph-regression.c:20-35 | Inside the rectangle exactly the OVER formula of the old bytes, outside nothing, for any strides in bounds |
| RasterOver.PixelDrawn | scripts/host-raster-glyph-regression.c:20-33 | Channel c of pixel (x, y) is the colour scaled by that pixel's own mask byte, over what was there scaled by what the scaled alpha leaves, held at 255 |
| RasterOver.Scalar | scripts/host-raster-glyph-regression.c:20-35 | The drawing with its colour packed in one word writes the same bytes; the four channels are the word's bytes |
| RasterOver.DrawAll | scripts/host-raster-glyph-regression.c:20-35 | Any number of drawings with premultiplied colours keeps an image premultiplied |
| ExclusiveCounters.GuestMemory.Write | Sources/ARM64VizNative/ARM64VizGuestMemory.c:1232-1255 | A store gives its slot a new generation exactly if its page and its slot were both ever observed |
| ExclusiveCounters.GuestMemory.ExclusiveRead | Sources/ARM64VizNative/ARM64VizGuestMemory.c:3171-3195 | An exclusive read observes its page and slot and returns the value with its generation |
| ExclusiveCounters.GuestMemory.ExclusiveWrite | Sources/ARM64VizNative/ARM64VizGuestMemory.c:3222-3247 | It stores if and only if the generation is the expected one, else changes nothing but the conflict count |
| ExclusiveCounters.Harness.NoLostUpdate | scripts/native-memory-fastpath-harness.c:435-438 | In every interleaving each counter holds exactly the successful stores to it, and their sum is the successful writes |
| ExclusiveCounters.Harness.FinalCount | scripts/native-memory-fastpath-harness.c:513-519 | At the end total + failures = iterations * threads; with retries the total alone |
| ExclusiveCounters.Harness.SucceedsExactly | scripts/native-memory-fastpath-harness.c:283-293 | A reserved write still goes through if and only if no store since, from a page observed by then, hit its slot |
| ExclusiveCounters.Harness.AccessesAge | scripts/native-memory-fastpath-harness.c:283-293 | Any reads and stores of others leave a reservation sound, and its generation never goes back |
| ExclusiveCounters.UnobservedPageGoesUnnoticed | Sources/ARM64VizNative/ARM64VizGuestMemory.c:1136-1142 | A store to a page nobody has read exclusively leaves the generation of a shared slot, and ages it once the page is observed |
| ExclusiveCounters.Harness.StoreHolds | scripts/native-pair-memory-harness.c:220-236 | A store never makes a stale reservation look current |
| RecordIndex.IndexRecords | scripts/phase7-interaction-trace.py:48-66 | An identity maps to e if and only if e occurs with it and every record with it equals e; the disputed identities are exactly those two records differ on |
| RecordIndex.IndexTwice | scripts/phase7-interaction-trace.py:48-66 | Inputs with the same records give the same map, whatever order or repetition |

## Left out

- Retention: wrap-around of the 64-bit diagnostic counters, the re-preparation, reuse-at-eviction, peak-ownership and timing counters, decoded-block hashing and slot choice, and the pool of the threaded prototype.
- Guest instructions: eleven forms that cover every way control moves; other integer forms, SIMD, stores, system registers and the address translator are not modelled. The unsupported and halted exits of the executor are absent because every modelled instruction is supported.
- Chain creation: allocation limits in bytes and the owner's block validation are parameters (`prepared`, `entryValid`, `Service.valid`); serial numbers of the last member are represented by its base.
- Chain service actions are reported as such; the status codes that accompany each reason, and the statistics published after a run, are left out.
- ServiceTimer.RunTimed: one interrupt mask for the whole run, since no modelled instruction changes the mask.
- GateProofs: the event flag and the visit budget of a gate are in `BoundedChain`; here only tokens are read. Weak memory orderings are not modelled.
- FrameCapture: the insertion counter is unbounded, so its wrap-around after 2^64 insertions is not modelled; signals of other frame clocks are ignored before the model begins.
- FrameText: the parser knows the JSON the profiler writes, objects and whole numbers without white space; a line with any other JSON counts as broken, where the original may also parse it and reject or, with white space only, accept it. The conversion of reported times to fractional milliseconds is left out.
- PreloadScope: texts hold no NUL character; process identifiers are natural numbers, so the formatting failure of a too long identifier cannot occur.
- Acceptance.Validator.Run: what one capture or attempt shows by itself (files, digests, logs, schema, protocol geometry, counters of fallback) is one fault count; several errors of one check count as one; percentile ranks are exact rationals instead of floating point; and the report's rendering is left out.
- RasterOver: vector paths, and masks that alias the destination.
- ExclusiveCounters: a cell lies within one granule, so pair operations and ranges over two granules are left out.
- RecordIndex: the order in which issues are listed.
- Benchmarks, device control, GTK and Wayland behaviour, and the guest operating system are outside the model.
