# Verified model of ItsBagelBot's concurrent and arithmetic cores

The model covers the parts of the repository in which a guarantee has to hold over every input, every run or every
interleaving:

- **Text matching** (`internal/moderation`): the Aho-Corasick automaton against plain substring search (`AhoCorasick`,
  on the suffix theory of `Words`), the ASCII skeleton (`Skeleton`) and the phrase and domain scanner (`Floor`).
- **The publisher's resolution ledger** (`pkg/bus/batch_publisher.go`): out-of-order completions, the growing ring, the
  compacted error list and concurrent flushes (`PublishLedger`).
- **The leased rate limiter** (`pkg/ratelimit`): the token buckets (`TokenBucket`), the script on the central store
  (`CentralBucket`), plans, ranks and shares (`LeasePlan`, `Ordering`), a pod's buckets (`PodBudget`,
  `PodDates`), the fleet's budget (`LeaseBudget`, `LeaseLimits`), the windows
  in server time (`LeaseWindow`), the manager and the coordinator (`LeaseManager`, `LeaseCoordinator`), the agreement
  on a plan (`PlanAgreement`), and the variant kept in one revisioned document (`KvState`, `CasBudget`).
- **Admission and workers** (`pkg/bus`): the weighted gate (`RoutinePool`), the workers behind it (`WorkerPool`) and
  the request pool (`RpcPool`).
- **Delivery** (`pkg/bus`): exactly-once resolution (`Message`) and the keep-alive wheel (`Delivery`).
- **Smaller algorithms**: account order (`AccountOrder`), the write-coalescing batcher (`Batcher`), and templates
  (`Template`).

Objects that the program updates in place are classes whose methods are tied to functions on values; what the program
promises is proved about those functions. Protocols are step relations over a shared state: a run is any sequence of
possible steps, so a statement about a run is one about every interleaving. Where the order of a map's keys or the
moment at which another goroutine moves is open, the model leaves it open too.

## Where the promise and the code differ

- **The revisioned limiter's clock.** An edit reads the stamp of the previous revision. Over the clock it reads, grants
  are at most capacity plus refill (`CasBudget.BudgetOnTheReadClock`). Measured on the stamps of the grants themselves
  there can be up to one token more: whatever the capacity, the plain bound holds exactly for the stretches whose first
  commit is stamped at the moment its edit read (`CasBudget.GapDecides`), and a run of callers that exceeds it exists
  for every later stamp (`CasBudget.OverrunHappens`).
- **The close of a window.** The server's time arrives in whole microseconds. Opening never early needs a guard of
  1 ns, closing never late one of 999 ns, and both bounds are exact (`LeaseWindow.OpensInTimeIff`,
  `LeaseWindow.ClosesInTimeIff`). The default guard is far above both.
- **Pods without a plan** ask the reserve of generation 1, whatever the generation of their peers. That reserve has
  another key, so such a fleet can admit more than its capacity in one moment (`LeaseLimits.PlanlessOverspends`).
- **Clock readings taken before the lock.** A caller reads its clock, and may then wait for the lock while others
  refill its bucket, drop it, replace it, or reconfigure it for another generation. Two things can then go wrong. When
  the dates of two successive buckets overlap, both refill over the same stretch; that comes from a late start
  (`PodDates.LateStart`) or from a bucket that is still held (`PodDates.HeldBucket`). And when a reading lags behind the
  date up to which its bucket has been refilled, tokens of a later time are spent on an earlier reading
  (`PodDates.StalledSpend`). The bound of every run has a term for each (`PodDates.StretchBudget`,
  `LeaseBudget.FleetBudget`). A pod's share is kept by all runs exactly when there is neither overlap nor lag, however
  little of either is allowed (`PodDates.DatesDecide`); and the fleet's budget exactly when there is neither, and no
  pod is without a plan unless the generation is 1 (`LeaseLimits.LimitsDecide`).
- **Merged error records.** Once 128 records are pending, further failures widen the last one. A flush then never hides a
  failure, but it may report one that belongs to another flush. Reports are exact for every target exactly when the first
  pending range begins with a failure (`PublishLedger.ExactIff`); `PublishLedger.OverReports` is a ledger where it does
  not.
- **Reserves of lanes.** A lane's reserve is a guarantee exactly when the limits of the other lanes leave room for it
  (`RoutinePool.ReserveHoldsIff`). That is so for two lanes whose limits were not raised to one, and not in general for
  three lanes or raised limits.
- **Overlapping flushes of a batcher.** Two concurrent calls of `Close` may overlap. The order of a key's values and its
  newest value are kept in all runs exactly when flushes do not (`Batcher.OverlapDecides`).
- **One bucket named twice.** The spend of the revisioned limiter leaves its two buckets in range, from every document in
  range, exactly when the requests name two (`CasBudget.DistinctIdsDecide`).

## Model

| member | source | states |
|---|---|---|
| `AhoCorasick.Matcher.constructor` | internal/moderation/ahocorasick.go:18-63 | for any non-empty patterns, builds one node per pattern prefix, every fail link at the longest proper suffix that is a path, every `matchedPattern` the longest pattern ending the path (first index among equals) |
| `AhoCorasick.Matcher.Insert` | internal/moderation/ahocorasick.go:20-34 | adding a pattern makes its prefixes, and no other words, new paths, and keeps the first index among duplicates |
| `AhoCorasick.Matcher.AddChild` | internal/moderation/ahocorasick.go:24-28 | a new node gets exactly the path of its parent and the byte; no other path or number changes |
| `AhoCorasick.Matcher.LinkFails` | internal/moderation/ahocorasick.go:36-61 | terminates and leaves every node, reached in whatever order the maps yield it, with its final links |
| `AhoCorasick.Matcher.QueueFirstLevel` | internal/moderation/ahocorasick.go:36-39 | the queue starts as exactly the children of the root, and these already have their final links |
| `AhoCorasick.Matcher.LinkChildren` | internal/moderation/ahocorasick.go:40-61 | expanding a node queues its children and only them, in order of depth, each with its final links |
| `AhoCorasick.Matcher.Chase` | internal/moderation/ahocorasick.go:45-50 | the fail chain from any candidate ends, at the longest path that can be extended by the byte or at the root |
| `AhoCorasick.Matcher.LinkChild` | internal/moderation/ahocorasick.go:43-58 | a child gets its longest proper suffix path as fail link and inherits its match when it has none |
| `AhoCorasick.Matcher.Step` | internal/moderation/ahocorasick.go:76-87 | after one more byte the state is the longest suffix of the consumed text that is a path, and names its longest matching pattern |
| `AhoCorasick.Matcher.Find` | internal/moderation/ahocorasick.go:65-74 | -1 exactly when no pattern is a substring; otherwise the longest pattern ending at the earliest end position |
| `AhoCorasick.Matcher.FindFolded` | internal/moderation/ahocorasick.go:108-118 | true exactly when some pattern is a substring of the folded text between two spaces |
| `AhoCorasick.Matcher.StepFolded` | internal/moderation/ahocorasick.go:110-117 | the scan state stays the longest path ending the padded text so far, and a match is reported as soon as one ends |
| `AhoCorasick.Matcher.EndFolded` | internal/moderation/ahocorasick.go:117 | the closing space decides what is left |
| `AhoCorasick.FailKeepsCandidate` | internal/moderation/ahocorasick.go:45-50 | one fail link shortens the candidate and loses no longer suffix that could be extended |
| `AhoCorasick.CandidateExtends` | internal/moderation/ahocorasick.go:51-55 | a candidate that has the edge gives the longest path ending the longer word |
| `AhoCorasick.NoCandidate` | internal/moderation/ahocorasick.go:51-55 | at the root without the edge, the empty path is the longest |
| `AhoCorasick.TargetOk` | internal/moderation/ahocorasick.go:51-55 | where the chain ends is a shallower node and the fail target of the child |
| `AhoCorasick.InheritMatch` | internal/moderation/ahocorasick.go:56-58 | own pattern, else the fail node’s match, is the longest pattern ending the path |
| `AhoCorasick.StateMatchesText` | internal/moderation/ahocorasick.go:65-74 | the longest pattern ending the state is the longest ending the whole consumed text |
| `AhoCorasick.HitIsUnique` | internal/moderation/ahocorasick.go:65-74 | the reported hit depends on patterns and text alone |
| `AhoCorasick.QuietButSpaceMeansAbsent` | internal/moderation/ahocorasick.go:108-118 | skipping the state after the leading space misses no pattern, not even a lone space |
| `AhoCorasick.MatchMeansPresent` | internal/moderation/ahocorasick.go:108-118 | a state that names a pattern means some pattern occurs |
| `AhoCorasick.FinishPattern` | internal/moderation/ahocorasick.go:30-33 | setting `matchedPattern` only when it is unset names the first index of every inserted pattern |
| `AhoCorasick.Dequeue` | internal/moderation/ahocorasick.go:40-42 | taking the next node off the queue keeps breadth-first order |
| `AhoCorasick.Shallow` | internal/moderation/ahocorasick.go:40-61 | when a node is expanded every node no deeper has already been linked |
| `AhoCorasick.Exhausted` | internal/moderation/ahocorasick.go:40-61 | an empty queue means every node of the trie was reached |
| `Words.OccursEndsSomewhere` | internal/moderation/ahocorasick.go:65-74 | being a substring is ending at some position |
| `PublishLedger.Ledger.MarkAccepted` | pkg/bus/batch_publisher.go:471-473 | sequences are handed out one by one and a new one is unresolved |
| `PublishLedger.Ledger.EnsureCapacity` | pkg/bus/batch_publisher.go:529-545 | the ring becomes longer than what is outstanding and still holds exactly the resolved sequences |
| `PublishLedger.Ledger.Resized` | pkg/bus/batch_publisher.go:538-544 | copying into a larger ring keeps every outstanding sequence, each in its new slot |
| `PublishLedger.Ledger.Complete` | pkg/bus/batch_publisher.go:475-502 | any batch, in any order: the resolved set is the old one with the batch; `completed` stays the longest contiguous prefix; the error list is the recorded failures of the newly completed |
| `PublishLedger.Ledger.Put` | pkg/bus/batch_publisher.go:478-481 | a resolution takes its slot and overwrites no outstanding one |
| `PublishLedger.Ledger.Advance` | pkg/bus/batch_publisher.go:504-517 | advances to the end of the contiguous prefix, recording its failures in order |
| `PublishLedger.Ledger.Retire` | pkg/bus/batch_publisher.go:508-515 | one sequence leaves the ring, its failure joins the list |
| `PublishLedger.Ledger.SnapshotFlush` | pkg/bus/batch_publisher.go:552-573 | a flush registers with everything accepted so far as its target |
| `PublishLedger.Ledger.CaptureFlushErrors` | pkg/bus/batch_publisher.go:606-615 | every active flush gets its report before records are dropped |
| `PublishLedger.Ledger.DropReportedErrors` | pkg/bus/batch_publisher.go:650-662 | drops exactly what lies at or below the target, cutting a range that reaches beyond it |
| `PublishLedger.Ledger.FinishFlush` | pkg/bus/batch_publisher.go:594-604 | a flush whose target has completed reports, leaves and drops what it covers; an error it reports is the cause of a failure at or below its target, the least that no earlier flush had reported, and a single one lies above its floor; one whose context is done only leaves |
| `PublishLedger.Ledger.WaitFlush` | pkg/bus/batch_publisher.go:575-604 | while other goroutines accept, complete and flush, a flush that resolves without an error covers only successes, but for failures an earlier flush had already reported when it registered; and an error it resolves with is true in the same sense |
| `PublishLedger.UnmergedAnswer` | pkg/bus/batch_publisher.go:629-640 | while no ranges are merged, a flush gets the cause of the least failure not yet reported, if that lies at or below its target |
| `PublishLedger.MergedAnswer` | pkg/bus/batch_publisher.go:629-640 | of a merged range it gets the number of failures merged into it and the cause of the first of them |
| `PublishLedger.AnswerIsTrue` | pkg/bus/batch_publisher.go:629-640 | every answer is true of the outcomes: whose cause, how many, and that all failures before it were reported |
| `PublishLedger.RecordIsTruthful` | pkg/bus/batch_publisher.go:519-527 | a recorded failure is told by its own entry or counted by the last one, whose cause stays that of its first |
| `PublishLedger.DropIsTruthful` | pkg/bus/batch_publisher.go:650-662 | what a drop leaves still tells the truth |
| `PublishLedger.CapturesAreTruthful` | pkg/bus/batch_publisher.go:606-627 | so does every captured report |
| `PublishLedger.Ledger.Elsewhere` | pkg/bus/batch_publisher.go:575-593 | whatever happens while a flush waits, it stays registered with its target |
| `PublishLedger.Ledger.AdvanceOnce` | pkg/bus/batch_publisher.go:504-517 | the next sequence leaves the ring exactly when it has been resolved |
| `PublishLedger.ExactIff` | pkg/bus/batch_publisher.go:629-640 | reports are exact for every target exactly when the first pending range begins with a failure |
| `PublishLedger.ExactWhileUnmerged` | pkg/bus/batch_publisher.go:519-527 | in particular while no ranges are merged |
| `PublishLedger.OverReports` | pkg/bus/batch_publisher.go:519-527 | a ledger of 130 sequences in which a flush to 129 gets an error though 129 succeeded and all before was reported |
| `PublishLedger.MergedTailOverReports` | pkg/bus/batch_publisher.go:519-527 | any full list whose merged tail was half reported does the same |
| `PublishLedger.Ledger.ReportFlush` | pkg/bus/batch_publisher.go:594-600 | captures for all, takes its own report and drops what it covers |
| `PublishLedger.Ledger.TakeReport` | pkg/bus/batch_publisher.go:595-599 | the report is the one captured now or earlier, and the flush leaves |
| `PublishLedger.Ledger.Unregister` | pkg/bus/batch_publisher.go:642-648 | a flush that leaves changes nothing for the others |
| `PublishLedger.SlotIsRemainder` | pkg/bus/batch_publisher.go:504-517 | the slot is the remainder by the ring’s length |
| `PublishLedger.NoAlias` | pkg/bus/batch_publisher.go:478-517 | two sequences less than a ring apart never share a slot |
| `PublishLedger.PutKeepsRing` | pkg/bus/batch_publisher.go:478-481 | storing a resolution keeps the ring equal to the resolved sequences beyond `completed` |
| `PublishLedger.AdvanceKeepsRing` | pkg/bus/batch_publisher.go:504-517 | emptying the next slot keeps it so |
| `PublishLedger.AdvanceStep` | pkg/bus/batch_publisher.go:506-515 | one turn of the advance keeps the ring right |
| `PublishLedger.AdvanceKeepsBooks` | pkg/bus/batch_publisher.go:504-527 | and the order, the cover and the truth of the error list, and the flushes’ reports |
| `PublishLedger.FlushKeepsBooks` | pkg/bus/batch_publisher.go:606-662 | so does a flush that captures for all, leaves and drops |
| `PublishLedger.NextSlot` | pkg/bus/batch_publisher.go:504-508 | the next slot tells whether the next sequence was resolved |
| `PublishLedger.CopyStep` | pkg/bus/batch_publisher.go:538-544 | copying one slot keeps the partial copy right |
| `PublishLedger.CopyDone` | pkg/bus/batch_publisher.go:538-544 | the finished copy holds the same sequences |
| `PublishLedger.RecordKeepsSorted` | pkg/bus/batch_publisher.go:519-527 | a recorded failure keeps the ranges sorted and disjoint, also when merged into the tail |
| `PublishLedger.RecordedCovers` | pkg/bus/batch_publisher.go:519-527 | after any stretch completes, every failure in it lies in some range |
| `PublishLedger.DropKeeps` | pkg/bus/batch_publisher.go:650-662 | dropping keeps the order and loses nothing above the target |
| `PublishLedger.DropHidesNothing` | pkg/bus/batch_publisher.go:606-662 | when one flush drops records, the others have captured and hide nothing |
| `PublishLedger.NoErrorMeansNoFailure` | pkg/bus/batch_publisher.go:617-640 | a flush without a captured error has no failure between its floor and its target |
| `PublishLedger.CleanFlush` | pkg/bus/batch_publisher.go:594-640 | what a flush that resolves without an error vouches for |
| `PublishLedger.FlushLeaves` | pkg/bus/batch_publisher.go:594-662 | all books stay right when a flush captures, leaves and drops |
| `TokenBucket.TokenCell.Start` | pkg/ratelimit/local.go:23-28 | a bucket starts empty at now |
| `TokenBucket.TokenCell.BringUpToDate` | pkg/ratelimit/local.go:30-39 | refills by elapsed time, capped at the burst, and never moves its time back |
| `TokenBucket.TokenCell.Allow` | pkg/ratelimit/local.go:52-58 | spends one token exactly when the refilled bucket holds one |
| `TokenBucket.TokenCell.Reshape` | pkg/ratelimit/local.go:60-71 | a new rate counts from now on and a smaller burst caps the tokens |
| `TokenBucket.LocalBucket.constructor` | pkg/ratelimit/local.go:87-89 | a new bucket is unconfigured |
| `TokenBucket.LocalBucket.Reset` | pkg/ratelimit/local.go:140-151 | a reset leaves the bucket as new |
| `TokenBucket.LocalBucket.Update` | pkg/ratelimit/local.go:119-176 | an invalid configuration resets; a new generation or holder empties; otherwise both buckets are reshaped |
| `TokenBucket.LocalBucket.Renew` | pkg/ratelimit/local.go:197-203 | changes epoch and window and no token |
| `TokenBucket.LocalBucket.TryPremiumLease` | pkg/ratelimit/local.go:210-234 | stale, shut, denied or admitted with one shared token spent |
| `TokenBucket.LocalBucket.TryStandardLease` | pkg/ratelimit/local.go:210-263 | spends one token of each bucket or none |
| `TokenBucket.PremiumVerdict` | pkg/ratelimit/local.go:210-234 | behind exactly under another plan, admitted exactly if the caller may spend and a token is there, and one token is gone exactly then |
| `TokenBucket.StandardVerdict` | pkg/ratelimit/local.go:210-263 | the same of a standard attempt, which needs and takes one token of each bucket or none |
| `TokenBucket.RefillKeepsAccount` | pkg/ratelimit/local.go:30-39 | admissions plus tokens stay within burst plus refill since any start |
| `TokenBucket.SpendKeepsAccount` | pkg/ratelimit/local.go:52-58 | a spend keeps that account |
| `TokenBucket.RestartKeepsAccount` | pkg/ratelimit/local.go:23-28 | so does a restart that starts empty and not before the last use |
| `TokenBucket.AccountBounds` | pkg/ratelimit/local.go:23-58 | the account bounds the admissions of any interval by burst plus rate times its length |
| `TokenBucket.UsesKeepAccount` | pkg/ratelimit/local.go:23-58 | any sequence of requests and restarts keeps a bucket’s account |
| `TokenBucket.BucketBudget` | pkg/ratelimit/local.go:23-58 | from any state one bucket gives in a stretch at most its burst and what its rate brings |
| `CentralBucket.Server.Evaluate` | pkg/ratelimit/valkey.go:16-82 | the script, statement by statement, is the specified step: error, denial with the first empty index, or one token from each key |
| `CentralBucket.FirstEmpty` | pkg/ratelimit/valkey.go:62-68 | the index denied is the first bucket without a token |
| `CentralBucket.AllOrNothing` | pkg/ratelimit/valkey.go:62-79 | a reply other than allow changes nothing; an allow takes one token from every key, each of which had one |
| `CentralBucket.VerdictIs` | pkg/ratelimit/valkey.go:27-82 | allowed exactly when every key has a token, denied by the first that has none, failed exactly on a malformed call or unreadable key |
| `CentralBucket.MissingKeyLevel` | pkg/ratelimit/valkey.go:41-61 | a missing key holds a whole capacity or, with an origin, what has been refilled since |
| `CentralBucket.TokensComeBack` | pkg/ratelimit/valkey.go:57-60 | a spent key pays again after a token’s time and is full after the time of what it lacks |
| `CentralBucket.AllowedWrites` | pkg/ratelimit/valkey.go:75-79 | what an allowed call leaves under a key, and that other keys stay |
| `CentralBucket.TimePasses` | pkg/ratelimit/valkey.go:41-59 | time passing, expiry included, never adds to what a key may grant |
| `CentralBucket.FullByExpiry` | pkg/ratelimit/valkey.go:101-110 | a key expires only when its bucket would be full |
| `CentralBucket.SpendKeepsAccount` | pkg/ratelimit/valkey.go:75-79 | an allowed call keeps the key’s account |
| `CentralBucket.CallKeepsAccount` | pkg/ratelimit/valkey.go:25-81 | so does any call, error and denial included |
| `CentralBucket.RunKeepsAccount` | pkg/ratelimit/valkey.go:25-81 | and any run of calls in server order |
| `CentralBucket.KeyBudget` | pkg/ratelimit/valkey.go:25-81 | over any span one key grants at most its capacity plus its refill, expiry notwithstanding |
| `Ordering.InsertSorts` | pkg/ratelimit/protocol.go:37-42 | insertion keeps a sequence sorted and adds one element |
| `Ordering.SortSorts` | pkg/ratelimit/protocol.go:37-42 | sorting gives a sorted permutation |
| `Ordering.SortedIsUnique` | pkg/ratelimit/protocol.go:37-42 | the sorted arrangement is unique, so the sorting algorithm does not matter |
| `Ordering.SortIsUnique` | pkg/ratelimit/protocol.go:37-42 | sorting does not depend on the given order |
| `Ordering.NamesAreOrdered` | internal/natsacl/order.go:32-39 | string order is a strict total order |
| `LeasePlan.MembersAreOrdered` | pkg/ratelimit/protocol.go:37-42 | pod, then region, is a strict total order of members |
| `LeasePlan.Validate` | pkg/ratelimit/protocol.go:63-87 | accepts exactly the plans of the current version with epoch, generation, window, distinct named members and their own digest |
| `LeasePlan.DigestNamesThePlan` | pkg/ratelimit/protocol.go:34-61 | two plans have the same canonical form exactly when they differ in the order of members only |
| `LeasePlan.SelfIndex` | pkg/ratelimit/lease_manager.go:96-102 | the position of the pod in the canonical order, or -1 when it is no member |
| `LeasePlan.RanksAgree` | pkg/ratelimit/protocol.go:34-44 | two pods with the same valid plan give every member the same rank |
| `LeasePlan.SpecReserves` | pkg/ratelimit/valkey.go:97-127 | a tenth of the capacity, at least one, is reserved with its share of the refill, and the reserve lives until it would be full |
| `LeasePlan.EmergencyRateIsPart` | pkg/ratelimit/valkey.go:109 | the reserve’s rate is its part of the refill |
| `LeasePlan.LivesLongEnough` | pkg/ratelimit/valkey.go:101-110 | the time to live covers a full refill |
| `LeasePlan.PartialShares` | pkg/ratelimit/lease_manager.go:364-375 | the first n ranks get n equal rates and the first bursts of the remainder |
| `LeasePlan.SharesAddUp` | pkg/ratelimit/lease_manager.go:364-375 | all bursts and the reserve are exactly the capacity, all rates and the reserve’s exactly the refill, and no two bursts differ by more than one |
| `LeasePlan.ShareRefills` | pkg/ratelimit/lease_manager.go:364-375 | a rank with any burst has a positive rate |
| `PodBudget.UseBalances` | pkg/ratelimit/local.go:30-58 | in units of tokens, a use of a bucket gains no more than the time it moves the bucket’s date on |
| `PodBudget.LateUseBalances` | pkg/ratelimit/local.go:30-58 | a use of a replaced bucket gives what was due, and more only by as much as it is dated after the bucket’s replacement |
| `PodBudget.StartBalances` | pkg/ratelimit/local.go:23-39 | a new empty bucket and the one it replaces give no more than the old one alone, but for the time by which the new one is dated before the old one’s last use |
| `PodBudget.TouchKeeps` | pkg/ratelimit/lease_manager.go:312-337 | any section on a bucket of these terms, mapped or still held after it was dropped, keeps the lane’s account of every stretch, whatever its reading |
| `PodBudget.BeginKeeps` | pkg/ratelimit/lease_manager.go:339-358 | so does configuring a bucket under these terms for the first time, or again |
| `PodBudget.EndKeeps` | pkg/ratelimit/lease_manager.go:312-319 | and a caller of another generation that takes the bucket over |
| `PodBudget.RefreshKeeps` | pkg/ratelimit/lease_manager.go:312-319 | reconfiguring any bucket keeps the account |
| `PodBudget.SpendKeeps` | pkg/ratelimit/local.go:210-263 | a premium or standard attempt, also a stale one, keeps it and pays what it admits |
| `PodBudget.StepKeeps` | pkg/ratelimit/lease_manager.go:281-358 | every locked section of every caller keeps both lanes’ accounts of every stretch, whatever clock reading it carries |
| `PodBudget.StepIsShaped` | pkg/ratelimit/lease_manager.go:281-358 | every section leaves the buckets in order, and one front under the current terms |
| `PodBudget.StepSettles` | pkg/ratelimit/lease_manager.go:281-358 | after every section the account of every stretch may still be opened without debt |
| `PodBudget.NewPodIsSettled` | pkg/ratelimit/local.go:87-89 | a pod without buckets owes nothing in any stretch |
| `PodBudget.LaneGives` | pkg/ratelimit/local.go:23-71 | a kept account bounds what a lane has paid by its burst, its rate times the stretch, and its rate times the overlap of dates |
| `PodBudget.RunKeeps` | pkg/ratelimit/lease_manager.go:281-358 | every run keeps the account of any stretch, extended by how far the readings of its payments lag |
| `PodBudget.RunGives` | pkg/ratelimit/lease_manager.go:281-358 | in every run, whatever readings its sections carry and in whatever order, the payments read in a stretch are at most burst, rate times stretch, rate times lag and rate times overlap |
| `PodDates.StretchBudget` | pkg/ratelimit/lease_manager.go:281-358 | that bound for every stretch of every run of a new pod, activations that prime a bucket early included |
| `PodDates.SpendsBurst` | pkg/ratelimit/local.go:210-263 | a possible run in which a lane pays its whole burst in one moment, without lag or overlap |
| `PodDates.LateStart` | pkg/ratelimit/lease_manager.go:339-358 | a possible run, of callers that read their clock in time and got the lock late, in which a new bucket is dated before its predecessor’s last use and the lane’s share is exceeded |
| `PodDates.HeldBucket` | pkg/ratelimit/lease_manager.go:88-126 | one in which a caller spends from a dropped bucket after its replacement started, and the share is exceeded |
| `PodDates.StalledSpend` | pkg/ratelimit/lease_manager.go:321-337 | one in which no bucket is replaced: a stalled caller spends, on its early reading, the token that another caller’s later refresh brought, and the share is exceeded |
| `PodDates.DatesDecide` | pkg/ratelimit/lease_manager.go:281-358 | for either lane, all runs keep its share exactly when no dates overlap and no reading lags; however small the overlap or lag that is allowed, some run exceeds it |
| `LeaseBudget.KeysAreApart` | pkg/ratelimit/valkey.go:243-249 | a reserve’s key names its bucket and its generation |
| `LeaseBudget.PodsAreApart` | pkg/ratelimit/lease_manager.go:208-358 | each pod lives exactly its own part of the fleet’s run |
| `LeaseBudget.AdmittedWasPaid` | pkg/ratelimit/lease_manager.go:388-501 | every admission was paid by some pod’s bucket or by a reserve, a borrowed one by the donor; and every payment is an admission when all that was paid for goes ahead |
| `LeaseBudget.CallKeepsReserve` | pkg/ratelimit/lease_manager.go:518-534 | a call of the script before, in or after a window keeps the reserve’s account of it |
| `LeaseBudget.ReserveKeeps` | pkg/ratelimit/lease_manager.go:518-534 | so does every run |
| `LeaseBudget.RunSettles` | pkg/ratelimit/lease_manager.go:91-158 | after every run the accounts of pods and reserve are in order for any further run |
| `LeaseBudget.PodGives` | pkg/ratelimit/lease_manager.go:364-375 | a pod pays at most its share of a window, and what its lag and its overlap are worth |
| `LeaseBudget.SharesBound` | pkg/ratelimit/lease_manager.go:364-375 | the first n pods together pay at most the first n shares, lags and overlaps |
| `LeaseBudget.FleetBudget` | pkg/ratelimit/lease_manager.go:91-158 | whatever the interleaving, the readings and the borrowing, one bucket id admits, on readings of any stretch of length T in a generation, at most capacity + refill × T, and what a pod’s rate brings in the time by which readings lag and dates overlap |
| `LeaseBudget.NewFleetOpens` | pkg/ratelimit/local.go:87-89 | a fleet without buckets on a store without the reserve’s keys may begin |
| `LeaseLimits.TermsSupport` | pkg/ratelimit/lease_manager.go:364-375 | when the standard spec is part of the shared one, every pod’s standard share is part of its shared one |
| `LeaseLimits.AllPay` | pkg/ratelimit/lease_manager.go:364-375 | a fleet’s run put together from one run of each pod pays what these pay, and lags and overlaps as they do |
| `LeaseLimits.ReserveDrains` | pkg/ratelimit/lease_manager.go:518-534 | all calls of one moment together get exactly the plan’s reserve, beside what the pods pay |
| `LeaseLimits.PlanlessPays` | pkg/ratelimit/lease_manager.go:208-216 | a pod without a plan gets a token of another reserve on top |
| `LeaseLimits.PlanlessOverspends` | pkg/ratelimit/lease_manager.go:208-216 | so a new fleet admits more than its capacity in no time, for every budget and lane whose generation is not 1 |
| `LeaseLimits.DatesOverspend` | pkg/ratelimit/lease_manager.go:281-358 | and so it does, for every budget whose pods have shares, with one token’s time of overlap, or of lag, at one pod |
| `LeaseLimits.SafeRunsKeep` | pkg/ratelimit/lease_manager.go:208-358 | without overlap, without lag and with one reserve no run exceeds the budget |
| `LeaseLimits.LimitsDecide` | pkg/ratelimit/lease_manager.go:208-358 | for every budget and either lane, all runs keep it exactly when no pod is without a plan or the plan’s generation is 1, and, if pods have shares, no dates overlap and no reading lags |
| `LeaseBudget.SpecFacts` | pkg/ratelimit/valkey.go:97-127 | any spec, also the empty one of a profile without a standard bucket, gives usable shares and reserve |
| `LeaseBudget.TermsValid` | pkg/ratelimit/lease_manager.go:128-158 | every share a budget gives is a valid bucket configuration |
| `LeaseBudget.ReserveGives` | pkg/ratelimit/lease_manager.go:518-534 | the emergency bucket gives at most the reserve to the calls of a window |
| `LeaseWindow.MidpointIsClose` | pkg/ratelimit/coordinator.go:160-169 | the sampled midpoint is off by at most half the round trip, one nanosecond more on one side and 999 on the other |
| `LeaseWindow.SpendsInsideThePlan` | pkg/ratelimit/coordinator.go:160-204 | with a guard of 999 ns or more a pod spends a plan only while the server holds it valid |
| `LeaseWindow.OpensInTimeIff` | pkg/ratelimit/coordinator.go:160-174 | no pod opens early exactly when the guard is at least 1 ns |
| `LeaseWindow.ClosesInTimeIff` | pkg/ratelimit/coordinator.go:160-174 | no pod closes late exactly when the guard is at least 999 ns |
| `LeaseWindow.UsesMostOfThePlan` | pkg/ratelimit/lease_manager.go:104-109 | a window costs no more of the plan than guard and round trip at either end |
| `LeaseWindow.EpochsNeverOverlap` | pkg/ratelimit/coordinator.go:160-204 | two pods in windows of different epochs: the earlier epoch’s is earlier in server time |
| `LeaseWindow.RetryLandsInTheNextWindow` | pkg/ratelimit/lease_manager.go:193-206 | the suggested wait ends when a window opens: this one, or the next one as the same sample would give it |
| `LeaseWindow.ActivatesTheCurrentEpoch` | pkg/ratelimit/coordinator.go:170-173 | the epoch worked on is the server’s during the round trip |
| `LeaseWindow.NextReconcileDelay` | pkg/ratelimit/coordinator.go:221-230 | between 10 ms and 2 s; it ends neither before the boundary has surely passed nor later, but for those two limits |
| `LeaseWindow.WakesAfterTheNextWindowOpens` | pkg/ratelimit/coordinator.go:221-230 | a shorter sleep than 2 s ends after the next window opened |
| `LeaseManager.LeaseManager.constructor` | pkg/ratelimit/lease_manager.go:80-89 | starts without a plan |
| `LeaseManager.LeaseManager.ActivatePlan` | pkg/ratelimit/lease_manager.go:91-183 | stores exactly the valid plans whose window is not empty, with the pod’s canonical rank, primes the fixed buckets and drops those expired for two windows; otherwise nothing changes |
| `LeaseManager.LeaseManager.TryLocal` | pkg/ratelimit/lease_manager.go:276-358 | leases one token of the id under the plan’s share; without a share nothing is touched |
| `LeaseManager.LeaseManager.Borrow` | pkg/ratelimit/lease_manager.go:388-412 | asks at most two peers in order, stops when paid, and returns what their answers pay and no more than was asked: everything when the first pays, or the second pays what the first has left |
| `LeaseManager.LeaseManager.AskOthers` | pkg/ratelimit/lease_manager.go:233-265 | when the pod’s own bucket has not paid, a peer that can pay does, and only then is the plan’s reserve asked |
| `LeaseManager.LeaseManager.Allow` | pkg/ratelimit/lease_manager.go:208-274 | without a plan only the reserve of generation 1; outside the window nothing; inside, the pod’s own bucket pays if it holds a token, then the first or the second peer whose answer pays, then the plan’s reserve, and each admission is paid for by one of them |
| `LeaseManager.LeaseManager.GrantPermit` | pkg/ratelimit/lease_manager.go:457-501 | a stale request or one for another share changes nothing; otherwise the pod’s own bucket is leased from, and it grants exactly when that lease pays |
| `LeaseManager.NeedIsServed` | pkg/ratelimit/lease_manager.go:457-501 | what a pod asks for is what a donor serves, with a lease of the same kind |
| `LeaseManager.MatchesItsOwn` | pkg/ratelimit/lease_manager.go:481-507 | a share matches itself, and only shares with its bursts and, up to a millionth, its rates |
| `LeaseManager.PeersAre` | pkg/ratelimit/lease_manager.go:414-427 | the peers of one kind, each once, in canonical order |
| `LeaseManager.BorrowOrderIsComplete` | pkg/ratelimit/lease_manager.go:414-427 | every other member once, none of another region before one of the own |
| `LeaseManager.AskedAreOthers` | pkg/ratelimit/lease_manager.go:414-427 | a pod never borrows from itself |
| `LeaseManager.SharesAreOk` | pkg/ratelimit/lease_manager.go:128-158 | every share a plan gives is one a bucket accepts |
| `LeaseManager.ProfilesAreSpecs` | pkg/ratelimit/borrow.go:214-241 | every profile’s specs are sound |
| `LeaseManager.ProfilesNest` | pkg/ratelimit/borrow.go:214-241 | in every profile with a standard budget it is part of the shared one, reserve and share alike, and both leave the pods a share |
| `LeaseManager.ProfilesRefillOnce` | pkg/ratelimit/borrow.go:214-241 | every profile’s shared budget refills once in its period, and its standard budget, which only the system has not, is half of it |
| `LeaseManager.OneRetryIsEnough` | pkg/ratelimit/lease_manager.go:321-337 | a bucket just refreshed is never stale |
| `LeaseManager.TokenIsLeased` | pkg/ratelimit/lease_manager.go:276-337 | a bucket of the current plan that holds a token, or one of each kind, pays |
| `LeaseManager.SharesAreTerms` | pkg/ratelimit/lease_manager.go:128-158 | a pod’s share under a plan is the share of its rank in the fleet’s budget, and it has one exactly when that rank has a burst |
| `LeaseManager.ConfigureIsSteps` | pkg/ratelimit/lease_manager.go:339-358 | configuring the mapped bucket is a run of the pod model’s steps that pays nothing |
| `LeaseManager.LeaseIsSteps` | pkg/ratelimit/lease_manager.go:321-337 | a lease is a run of those steps that pays exactly when it admits |
| `LeaseManager.AdmissionIsSteps` | pkg/ratelimit/lease_manager.go:321-358 | so is a whole local admission |
| `LeaseManager.DropAgrees` | pkg/ratelimit/lease_manager.go:121-124 | the drop at an activation is that of the pod’s model |
| `LeaseManager.PrimingBelongs` | pkg/ratelimit/lease_manager.go:160-183 | a primed bucket is current, and keeps its tokens when pod, generation and share are unchanged |
| `LeaseManager.PrimedAre` | pkg/ratelimit/lease_manager.go:160-183 | priming touches the fixed ids of which the plan gives the pod a share, each once, and no other bucket |
| `LeaseManager.AfterActivation` | pkg/ratelimit/lease_manager.go:120-126 | after an activation every fixed bucket with a share is there and current, with its tokens if it belonged to the plan’s generation and pod; every other bucket is there exactly if it was and has not expired |
| `LeaseCoordinator.Coordinator.constructor` | pkg/ratelimit/coordinator.go:62-74 | starts with nothing activated or proposed |
| `LeaseCoordinator.Coordinator.Reconcile` | pkg/ratelimit/coordinator.go:160-219 | activates a plan of a new epoch exactly when it is loaded, valid and has a window left, with the window of its own sample; proposes the built plan only for the next epoch, in the last ten seconds, with enough members, and again only until it is committed or agreed |
| `LeaseCoordinator.Coordinator.ActivateNew` | pkg/ratelimit/coordinator.go:176-191 | a plan of a new epoch is activated exactly when it is loaded, valid and has a window left; a missing one is looked for again within a quarter of a second |
| `LeaseCoordinator.Coordinator.ProposeNext` | pkg/ratelimit/coordinator.go:193-219 | the built plan is put forward exactly when enough members are known, and not again once it is committed or agreed |
| `LeaseCoordinator.BuiltPlanIsValid` | pkg/ratelimit/allocator.go:30-41 | a plan built from distinct, named members is one every pod accepts, whatever order they were listed in, and its epoch ends where the next begins |
| `LeaseCoordinator.BuiltPlansNeverMeet` | pkg/ratelimit/allocator.go:30-41 | plans built for two epochs are never spent at the same server time |
| `PlanAgreement.WritesOnlyWhenAbsent` | pkg/ratelimit/lease_client.go:87-133 | the plan key is written only while it is absent |
| `PlanAgreement.StoreMoves` | pkg/ratelimit/lease_client.go:87-143 | a plan once written stays, and the marker is only ever its digest |
| `PlanAgreement.ProposerMoves` | pkg/ratelimit/lease_client.go:71-144 | where a proposer stands stays true of the store whoever moves |
| `PlanAgreement.LoaderMoves` | pkg/ratelimit/lease_client.go:146-174 | what a loader holds stays the stored plan |
| `PlanAgreement.StepHolds` | pkg/ratelimit/lease_client.go:71-174 | every command of every party, a crash included, keeps the protocol’s invariant |
| `PlanAgreement.RunHolds` | pkg/ratelimit/lease_client.go:71-174 | so does every run |
| `PlanAgreement.NothingElseIsEverCommitted` | pkg/ratelimit/lease_client.go:71-144 | one write at most per epoch, and only its plan, also of a crashed winner, can ever be committed |
| `PlanAgreement.LoadersAgree` | pkg/ratelimit/lease_client.go:146-174 | any two successful loads, whenever they happen, return the same valid plan, which somebody proposed |
| `PlanAgreement.OneWinner` | pkg/ratelimit/lease_client.go:71-144 | at most one proposer gets true, and every loader gets its plan |
| `PlanAgreement.LoadSucceedsIff` | pkg/ratelimit/lease_client.go:146-174 | in every reachable state a load succeeds exactly when the plan is there and marked |
| `PlanAgreement.LoadsOnceMarked` | pkg/ratelimit/lease_client.go:146-174 | every loader that starts once the plan is marked gets it, whoever moves between its two commands |
| `PlanAgreement.AloneItCommits` | pkg/ratelimit/lease_client.go:71-144 | from every reachable state a proposer that runs on alone commits a plan: its own, and it has won, or the one it finds, also when its writer has crashed, and it has lost |
| `PlanAgreement.UndisturbedEpoch` | pkg/ratelimit/lease_client.go:71-174 | one valid proposal and nobody in the way: the proposer wins, and every loader gets its plan |
| `PlanAgreement.OvertakenIsLost` | pkg/ratelimit/lease_client.go:112-133 | a proposer whose key was written before it could write has lost |
| `PlanAgreement.WonAfterReplication` | pkg/ratelimit/lease_client.go:135-144 | nobody has won before enough replicas had its plan and then its mark |
| `PlanAgreement.MarkedAfterReplication` | pkg/ratelimit/lease_client.go:103-141 | nothing is marked before enough replicas had the plan |
| `PlanAgreement.OutlivesItsEpoch` | pkg/ratelimit/lease_client.go:176-182 | a plan written at most an epoch before its start is kept until after its end |
| `KvState.Cell.Change` | pkg/kvstate/state.go:44-60 | every lost race is another caller’s commit and is tried again; at most one own commit, made last; a call whose answers all arrive and whose edit never refuses gives up only after sixteen others went ahead, and commits as soon as nobody goes before one of its writes |
| `KvState.Cell.Attempt` | pkg/kvstate/state.go:47-58 | one turn: failed exactly when the edit refuses or the answer is lost, committed when nobody went before it, otherwise lost and open to another try; and what each leaves in the log |
| `KvState.Cell.Write` | pkg/kvstate/state.go:67-72 | wins exactly when the stored revision is the one that was read |
| `KvState.Cell.Others` | pkg/kvstate/state.go:44-60 | other callers’ commits keep the log faithful and raise the revision |
| `KvState.CommitExtends` | pkg/kvstate/state.go:45-72 | a winning write is the edit applied to what the log replays to |
| `KvState.CallersKeep` | pkg/kvstate/state.go:45-72 | what each caller knows stays true while others move |
| `KvState.StepHolds` | pkg/kvstate/state.go:45-72 | every step of every caller keeps all of it |
| `KvState.Linearizable` | pkg/kvstate/state.go:45-72 | in every run the stored document replays from the log, every answer given is that of the caller’s one commit |
| `KvState.EveryFaithfulLogHappens` | pkg/kvstate/state.go:45-72 | conversely, every faithful log that the broker could number is written by some run |
| `KvState.TriesAreBounded` | pkg/kvstate/state.go:46-60 | a decided call has written, and no call holds a read after sixteen lost races |
| `KvState.WritesAreBounded` | pkg/kvstate/state.go:46-60 | in every run a call writes at most sixteen times |
| `KvState.OnlyContentionFails` | pkg/kvstate/state.go:46-65 | in every run in which no answer is lost and no edit refuses, a call fails only after sixteen commits of others |
| `CasBudget.EvaluateBudget` | pkg/ratelimit/jetstream.go:54-89 | the two loops compute the specified refill, first denial and spend |
| `CasBudget.Allow` | pkg/ratelimit/jetstream.go:38-52 | a decision without error is the evaluation of exactly the document that its own commit replaced; while all answers arrive, a request is left undecided only by sixteen commits of others |
| `CasBudget.RefilledAt` | pkg/ratelimit/jetstream.go:58-70 | with distinct ids each request’s bucket is topped up once |
| `CasBudget.RefilledElsewhere` | pkg/ratelimit/jetstream.go:58-70 | buckets not named stay |
| `CasBudget.FirstDeniedIs` | pkg/ratelimit/jetstream.go:71-77 | denied is the first request without a token, 0 when all have one |
| `CasBudget.SpentIs` | pkg/ratelimit/jetstream.go:82-89 | spending takes one token from each named bucket |
| `CasBudget.AllOrNothing` | pkg/ratelimit/jetstream.go:54-89 | all requests had a token and each lost one, or the first empty one is named and none is spent |
| `CasBudget.OthersUntouched` | pkg/ratelimit/jetstream.go:54-89 | an evaluation leaves other buckets alone |
| `CasBudget.TopUpKeepsAccount` | pkg/ratelimit/jetstream.go:58-70 | a top-up keeps the bucket’s account |
| `CasBudget.SpendKeepsAccount` | pkg/ratelimit/jetstream.go:82-89 | a spend keeps it |
| `CasBudget.EvaluationKeepsAccount` | pkg/ratelimit/jetstream.go:54-89 | an evaluation keeps the account of every bucket |
| `CasBudget.CommitReads` | pkg/ratelimit/jetstream.go:38-52 | a commit evaluates what its predecessors left, on its predecessor’s stamp |
| `CasBudget.BucketsStayInRange` | pkg/ratelimit/jetstream.go:54-89 | tokens stay within 0 and capacity, and a bucket’s time is never ahead of the clock it was read on |
| `CasBudget.LogKeepsAccount` | pkg/ratelimit/jetstream.go:38-89 | any stretch of the log keeps every account |
| `CasBudget.BudgetOnTheReadClock` | pkg/ratelimit/jetstream.go:38-89 | on the clock the edits read, grants are at most capacity plus refill |
| `CasBudget.SameIdTwiceOverdraws` | pkg/ratelimit/jetstream.go:82-89 | a request naming a new bucket of one token twice leaves it at -1 |
| `CasBudget.LastTokenIsTakenTwice` | pkg/ratelimit/jetstream.go:71-89 | so does any bucket with a single token, whatever its capacity |
| `CasBudget.DistinctIdsDecide` | pkg/ratelimit/jetstream.go:54-89 | two requests leave their buckets in range, from every document in range, exactly when they name two |
| `CasBudget.BudgetOnTheWriteClock` | pkg/ratelimit/jetstream.go:47-48 | on the stamps of the commits, more only by what the first commit’s lateness brings, and at most one token |
| `CasBudget.GapDecides` | pkg/ratelimit/jetstream.go:47-48 | for every capacity, the plain bound on the stamps holds for every faithful log exactly when the first commit of the stretch is stamped as its edit read |
| `CasBudget.GapOverspends` | pkg/ratelimit/jetstream.go:47-48 | for any later stamp, a faithful log whose stretch grants the capacity and one token more in less than a token’s time |
| `CasBudget.FullAndOneInOneInstant` | pkg/ratelimit/jetstream.go:47-48 | after a gap of a token’s time the capacity and one token more are granted on one stamp |
| `CasBudget.OverrunHappens` | pkg/ratelimit/jetstream.go:38-52 | that log is written by a run of callers |
| `CasBudget.EveryRunKeepsTheBudget` | pkg/ratelimit/jetstream.go:38-89 | both bounds for every interleaving of callers |
| `RoutinePool.StepSums` | pkg/bus/weighted.go:474-528 | the pool’s count is the sum of the lanes’ after every step |
| `RoutinePool.StaysAwake` | pkg/bus/weighted.go:474-528 | each lane keeps its share of the wake-up invariant |
| `RoutinePool.StepHolds` | pkg/bus/weighted.go:474-528 | no step loses a wake-up |
| `RoutinePool.RunHolds` | pkg/bus/weighted.go:474-528 | so does every run |
| `RoutinePool.NewPool` | pkg/bus/weighted.go:443-459 | a new pool is open and empty and satisfies the wake-up invariant |
| `RoutinePool.NoWakeUpIsLost` | pkg/bus/weighted.go:474-528 | in every state of every run, an un-notified waiter means that the pool is full, a broadcast is pending, or the lane’s free slots are covered by notified waiters and pending signals |
| `RoutinePool.NobodySleepsInVain` | pkg/bus/weighted.go:474-528 | with nothing pending, an un-notified waiter’s lane is really blocked and the pool open |
| `RoutinePool.CallersStay` | pkg/bus/weighted.go:474-528 | nobody is lost: a caller holds a slot or waits until it returns the slot or is turned away by a closed pool |
| `RoutinePool.SignalsAreOwed` | pkg/bus/weighted.go:490-505 | a signal or broadcast is sent only if a release owes it, and once |
| `RoutinePool.SettingsAreCalls` | pkg/bus/weighted.go:507-528 | the pool is closed, and has its capacity, exactly by the calls that say so |
| `RoutinePool.AdmitsIff` | pkg/bus/weighted.go:474-488 | a new caller gets a slot exactly if the pool is open and has room for its lane |
| `RoutinePool.CloseFreesEverybody` | pkg/bus/weighted.go:522-529 | from every state closing lets all waiters leave |
| `RoutinePool.AdmitsOnlyWithRoom` | pkg/bus/weighted.go:474-488 | a slot is given only within capacity and lane limit, and never after closing |
| `RoutinePool.StaysWithin` | pkg/bus/weighted.go:474-505 | between capacity changes no lane exceeds its limit |
| `RoutinePool.ReserveHoldsIff` | pkg/bus/weighted.go:461-468 | a reserve is guaranteed exactly when what the other lanes may hold leaves room for it |
| `RoutinePool.ReserveFindsASlot` | pkg/bus/weighted.go:461-488 | a guaranteed lane below reserve and limit is not blocked |
| `RoutinePool.Reach` | pkg/bus/weighted.go:474-488 | every filling the limits allow is reached by some run, so a reserve that is not guaranteed can be missed |
| `RoutinePool.LaneLimit` | pkg/bus/weighted.go:461-468 | a lane’s limit is never below one |
| `RoutinePool.TwoLanesKeepReserves` | pkg/bus/weighted.go:461-472 | with two lanes and unraised limits both reserves are guaranteed |
| `RoutinePool.RaisedLimitsLoseIt` | pkg/bus/weighted.go:461-468 | with limits raised to one they are not |
| `RoutinePool.ThreeLanesDoNot` | pkg/bus/weighted.go:461-472 | with three lanes they are not |
| `RoutinePool.Gate.constructor` | pkg/bus/weighted.go:443-459 | starts empty and open |
| `RoutinePool.Gate.Check` | pkg/bus/weighted.go:474-488 | the test under the lock is the model’s entry step |
| `RoutinePool.Gate.Arrive` | pkg/bus/weighted.go:474-488 | a new caller is counted among the waiters and tested |
| `RoutinePool.Gate.Release` | pkg/bus/weighted.go:490-505 | returns the slot and decides, as the model does, between a broadcast to all, one signal and none |
| `RoutinePool.Gate.SetCapacity` | pkg/bus/weighted.go:507-514 | changes the capacity and wakes everybody |
| `RoutinePool.Gate.Close` | pkg/bus/weighted.go:522-529 | closes and wakes everybody |
| `WorkerPool.RunHolds` | pkg/bus/weighted.go:317-423 | scaling, dispatch and shutdown keep the accounts in every run |
| `WorkerPool.AlwaysServed` | pkg/bus/weighted.go:220-423 | live workers are desired plus outstanding tokens, never fewer than the gate admits; a send never blocks; a token always fits |
| `WorkerPool.DrainsCompletely` | pkg/bus/weighted.go:209-213 | when the last worker is gone everything sent has been handled |
| `WorkerPool.ScalingSettles` | pkg/bus/weighted.go:221-230 | scaling ends with desired equal to the new capacity |
| `WorkerPool.AnyNumberSettles` | pkg/bus/weighted.go:221-230 | a unit at rest can be set to any number of routines up to its maximum, and comes to rest there |
| `WorkerPool.SlotsGoRound` | pkg/bus/weighted.go:317-354 | in every run the slots in use are those given less those returned, and what is queued or worked on was sent and is not finished |
| `WorkerPool.TokensCallIn` | pkg/bus/weighted.go:366-395 | when all retire tokens have been taken and scaling rests there are as many workers as slots, and an idle worker can always take a token |
| `WorkerPool.CanDrain` | pkg/bus/weighted.go:209-219 | a unit can be shut down from every state, while it scales or not |
| `WorkerPool.ShrinkingFirstStarves` | pkg/bus/weighted.go:220-230 | the other order leaves fewer workers than the gate admits |
| `WorkerPool.OneMoreRound` | pkg/bus/weighted.go:366-377 | rounds of the resize loop add up |
| `WorkerPool.Workers.Resize` | pkg/bus/weighted.go:366-394 | the two loops are the model’s rounds and end at the desired number |
| `WorkerPool.Workers.GrowLocked` | pkg/bus/weighted.go:379-387 | takes back an outstanding token before starting a worker |
| `WorkerPool.Workers.ShrinkLocked` | pkg/bus/weighted.go:389-394 | puts a token into the retire channel unless it is full |
| `RpcPool.StepHolds` | pkg/bus/rpc_pool.go:85-211 | every step keeps the job and worker accounts |
| `RpcPool.RunHolds` | pkg/bus/rpc_pool.go:85-211 | so does every run |
| `RpcPool.AlwaysStaffed` | pkg/bus/rpc_pool.go:91-158 | pending jobs are those sending, queued and running; workers stay between min(pending, maximum) and the maximum; the buffer is never exceeded; nothing is sent on the closed channel; a waiting job has an idle worker or all are busy |
| `RpcPool.JobsStay` | pkg/bus/rpc_pool.go:160-180 | an admitted job is never dropped, a refused one never run |
| `RpcPool.HandledIff` | pkg/bus/rpc_pool.go:160-174 | in every run a job’s handler has run exactly if the job was finished in time; an expired one is completed without it |
| `RpcPool.RefusedIffClosed` | pkg/bus/rpc_pool.go:91-110 | a job is refused exactly if the gate was closed before it was submitted |
| `RpcPool.OnlyAsManyAsNeeded` | pkg/bus/rpc_pool.go:112-152 | workers are started only for jobs that have none, and retire only above the minimum and when the others suffice |
| `RpcPool.ShrinksToMinimum` | pkg/bus/rpc_pool.go:144-152 | a pool without jobs shrinks to its minimum |
| `RpcPool.CanDrain` | pkg/bus/rpc_pool.go:203-211 | the teardown cannot get stuck: from every state with a closed gate the pool can drain |
| `RpcPool.CanShutDown` | pkg/bus/rpc_pool.go:193-211 | so it can be shut down from every state |
| `RpcPool.DrainCompletesEverything` | pkg/bus/rpc_pool.go:203-211 | when drained closes, every admitted job has been completed, and its handler has run exactly unless it had expired |
| `RpcPool.Counters.constructor` | pkg/bus/rpc_pool.go:76-83 | starts empty and open |
| `RpcPool.Counters.Admit` | pkg/bus/rpc_pool.go:100-119 | refuses when stopping, otherwise counts in and starts at most one worker |
| `RpcPool.Counters.RetireSelf` | pkg/bus/rpc_pool.go:144-152 | leaves only above the minimum and with fewer jobs than workers |
| `Message.ResolvedStays` | pkg/bus/message.go:98-116 | later attempts change nothing and are told whether they agree |
| `Message.FirstAttemptWins` | pkg/bus/message.go:98-116 | for any attempts the first one decides, the handler runs once |
| `Message.Signal.Close` | pkg/bus/message.go:118-126 | a signal is closed at most once |
| `Message.Message.constructor` | pkg/bus/message.go:65-72 | starts pending without signals |
| `Message.Message.Transition` | pkg/bus/message.go:106-126 | the locked section is the specified attempt, closes the right signal once and asks for the handler only on the first |
| `Message.Message.SignalOf` | pkg/bus/message.go:136-160 | the same signal on every call, closed exactly when its standing is reached, created before or after |
| `Delivery.CountedHolds` | pkg/bus/concurrent_subscriber.go:450-479 | every step keeps the acknowledgement counter equal to unfinished watches, those being finished and the seat |
| `Delivery.AcksBalance` | pkg/bus/concurrent_subscriber.go:616-638 | in every run it is never negative, nothing is added after the seat is released, and zero means all watches finished |
| `Delivery.CanTakeIn` | pkg/bus/concurrent_subscriber.go:262-330 | until it stops, a subscriber can take a new message in, on the wheel and counted |
| `Delivery.CanClose` | pkg/bus/concurrent_subscriber.go:343-375 | from every state a subscriber can close with nothing in flight |
| `Delivery.SpotMoves` | pkg/bus/concurrent_subscriber.go:507-567 | where each step moves a watch on the wheel; all live watches are in the cursor’s bucket |
| `Delivery.SweepHolds` | pkg/bus/concurrent_subscriber.go:545-558 | looking at a due watch reports it or abandons it, exactly once |
| `Delivery.OthersHold` | pkg/bus/concurrent_subscriber.go:507-567 | the other steps neither lose nor double a watch |
| `Delivery.WheelHolds` | pkg/bus/concurrent_subscriber.go:507-567 | every step keeps the wheel right |
| `Delivery.RunHolds` | pkg/bus/concurrent_subscriber.go:450-664 | so does every run |
| `Delivery.EveryTickReports` | pkg/bus/concurrent_subscriber.go:507-567 | an unfinished watch is reported once per tick and abandoned exactly on the tick numbered by the wheel’s steps |
| `Delivery.After` | pkg/bus/concurrent_subscriber.go:531 | the cursor goes round the wheel |
| `Delivery.KeepAliveWheel.constructor` | pkg/bus/concurrent_subscriber.go:493-505 | at least one bucket, all empty |
| `Delivery.KeepAliveWheel.Register` | pkg/bus/concurrent_subscriber.go:507-512 | a watch joins the cursor’s bucket at this epoch |
| `Delivery.KeepAliveWheel.Turn` | pkg/bus/concurrent_subscriber.go:527-534 | takes the due bucket, moves the cursor and the epoch |
| `Delivery.KeepAliveWheel.Refile` | pkg/bus/concurrent_subscriber.go:560-567 | survivors join the new bucket behind those registered meanwhile |
| `Delivery.DeliveriesAreBounded` | pkg/bus/concurrent_subscriber.go:109-138 | a delivery is the last exactly at the bound, and a deferral is bounded and granted once |
| `Delivery.WaitsInTurn` | pkg/bus/concurrent_subscriber.go:109-138 | before that a message waits for the schedule’s entry of that delivery, each in its turn |
| `AccountOrder.PickIs` | internal/natsacl/order.go:63-77 | the pick is the first ready name, else some remaining one |
| `AccountOrder.OrderedIs` | internal/natsacl/order.go:10-30 | the order extends what was chosen, by the rule at every place |
| `AccountOrder.IsPermutation` | internal/natsacl/order.go:10-30 | every account exactly once, whatever the imports |
| `AccountOrder.SomethingIsReady` | internal/natsacl/order.go:63-77 | while an account outside all cycles is left, something is ready |
| `AccountOrder.GroundedComeAfterExporters` | internal/natsacl/order.go:8-30 | an account whose imports reach no cycle comes after all its exporters |
| `AccountOrder.IsTopological` | internal/natsacl/order.go:8-30 | without cycles the order is topological |
| `AccountOrder.PicksTheSmaller` | internal/natsacl/order.go:63-77 | of two ready accounts the smaller name is picked |
| `AccountOrder.PickFallsBack` | internal/natsacl/order.go:63-77 | with nothing ready the pick is the fallback, which is the first remaining name |
| `AccountOrder.CyclesBreakAtTheSmallest` | internal/natsacl/order.go:63-77 | so a cycle is broken at its account with the smallest name |
| `AccountOrder.LeastTopologicalOrder` | internal/natsacl/order.go:8-30 | without cycles it is the lexicographically least topological order |
| `AccountOrder.SortedAccountNames` | internal/natsacl/order.go:32-39 | the names in order, each once |
| `AccountOrder.NamesAreUnique` | internal/natsacl/order.go:32-39 | the sorted names, and so the order, are determined by the accounts |
| `AccountOrder.LinkMore` | internal/natsacl/order.go:50-57 | one more exporter is one more edge and one more degree |
| `AccountOrder.LinkImport` | internal/natsacl/order.go:46-58 | a self-import or a pair already seen adds nothing |
| `AccountOrder.ImportEdges` | internal/natsacl/order.go:42-59 | edges and degrees say exactly who imports from whom |
| `AccountOrder.WaitingMeansNotReady` | internal/natsacl/order.go:63-77 | degree zero means ready |
| `AccountOrder.OneLessToWaitFor` | internal/natsacl/order.go:23-27 | choosing an exporter lowers what its importers wait for by one |
| `AccountOrder.AllStillWait` | internal/natsacl/order.go:23-27 | after the targets are lowered every degree counts the remaining exporters |
| `AccountOrder.Lower` | internal/natsacl/order.go:23-27 | lowers exactly the targets that remain |
| `AccountOrder.PickNext` | internal/natsacl/order.go:63-77 | the loop over degrees picks what the rule picks |
| `AccountOrder.Choose` | internal/natsacl/order.go:19-21 | the pick remains and is the specification’s next |
| `AccountOrder.OrderAccounts` | internal/natsacl/order.go:10-30 | terminates with the specified order of exactly the accounts |
| `Batcher.Batcher.constructor` | pkg/batch/batcher.go:52-69 | starts with nothing pending |
| `Batcher.Batcher.Add` | pkg/batch/batcher.go:71-85 | the latest value of a key is pending; a kick is asked for at the size limit |
| `Batcher.Batcher.Restore` | pkg/batch/batcher.go:87-98 | an old value never replaces a newer one |
| `Batcher.Batcher.Take` | pkg/batch/batcher.go:151-162 | takes all and leaves nothing |
| `Batcher.Batcher.RestoreAll` | pkg/batch/batcher.go:190-195 | puts back every value without a newer one, in any order |
| `Batcher.SuccessLands` | pkg/batch/batcher.go:197-206 | a successful flush lands what it took, but for what its callback put back |
| `Batcher.OthersKeep` | pkg/batch/batcher.go:71-195 | the other steps keep every key’s account |
| `Batcher.StepHolds` | pkg/batch/batcher.go:71-206 | every step keeps it while flushes do not overlap |
| `Batcher.RunHolds` | pkg/batch/batcher.go:71-206 | so does every run |
| `Batcher.NothingLostOrReordered` | pkg/batch/batcher.go:71-206 | while flushes do not overlap, the latest value of a key is pending, in flight or flushed, and the flushed values are in the order added |
| `Batcher.OverlapDecides` | pkg/batch/batcher.go:102-122 | the order of every key, and its newest value, are kept in all runs exactly when flushes do not overlap |
| `Batcher.OverlappingFlushesReorder` | pkg/batch/batcher.go:102-122 | a run of two overlapping flushes that writes an older value after a newer one |
| `Batcher.OverlappingFlushesLose` | pkg/batch/batcher.go:87-91 | a run of two overlapping flushes that both fail, after which the newest value is nowhere |
| `Skeleton.NormalizeASCII` | internal/moderation/skeleton.go:32-48 | the in-place loop writes the token-wise skeleton |
| `Skeleton.TokenQuorum` | internal/moderation/skeleton.go:83-94 | two letters make the quorum |
| `Skeleton.QuorumIff` | internal/moderation/skeleton.go:83-94 | a token is folded for look-alikes exactly if two of its places hold letters |
| `Skeleton.FoldTokenBytes` | internal/moderation/skeleton.go:62-67 | folds the token where it lies and nothing else |
| `Skeleton.CloseToken` | internal/moderation/skeleton.go:36-40 | a space closes the token and runs of spaces leave one |
| `Skeleton.Put` | internal/moderation/skeleton.go:34-46 | one byte more keeps what is still to be written |
| `Skeleton.MarksEnd` | internal/moderation/skeleton.go:32-48 | the bytes written after the last one, with the last token folded, are the skeleton |
| `Skeleton.FoldingKeepsLetters` | internal/moderation/skeleton.go:69-94 | folding takes away no letter |
| `Skeleton.FoldTokenTwice` | internal/moderation/skeleton.go:62-94 | a folded token is its own fold |
| `Skeleton.TokenFirst` | internal/moderation/skeleton.go:32-48 | a token’s fold stands before the rest’s skeleton |
| `Skeleton.SpaceFirst` | internal/moderation/skeleton.go:32-48 | a space is kept once |
| `Skeleton.SkeletonBegins` | internal/moderation/skeleton.go:32-48 | a skeleton is no longer than its text and begins with a space when it does |
| `Skeleton.Idempotent` | internal/moderation/skeleton.go:32-48 | a skeleton is its own skeleton |
| `Floor.NextFloorToken` | internal/moderation/floor.go:135-149 | the next maximal letter run, or that there is none |
| `Floor.EqRun` | internal/moderation/floor.go:167-174 | bytewise equality |
| `Floor.FindPhraseAt` | internal/moderation/floor.go:151-165 | true exactly when the words are consecutive maximal runs from this one on |
| `Floor.MatchScam` | internal/moderation/floor.go:124-133 | the earliest start, then the lowest phrase; nothing when no phrase stands anywhere |
| `Floor.Index` | internal/moderation/floor.go:79-85 | the first place a domain stands |
| `Floor.MatchDomain` | internal/moderation/floor.go:101-122 | the first domain that stands somewhere without a letter or digit beside it |
| `Floor.MatchFloor` | internal/moderation/floor.go:87-99 | domains before phrases, each the first; clean exactly when neither stands in the text |
| `Floor.NextRunIsUnique` | internal/moderation/floor.go:135-149 | the next run is determined |
| `Floor.SpellingIsUnique` | internal/moderation/floor.go:151-165 | so are the runs that spell a phrase |
| `Floor.NoPhrase` | internal/moderation/floor.go:151-165 | a spelling that cannot go on is no phrase |
| `Template.Lex` | pkg/tmpl/tmpl.go:75-100 | lists literals and spans as specified |
| `Template.LexWith` | pkg/tmpl/tmpl.go:75-93 | the loop is the same for every span parser |
| `Template.Append` | pkg/tmpl/tmpl.go:102-117 | the streaming renderer yields the rendering of the lexed tokens |
| `Template.AppendWith` | pkg/tmpl/tmpl.go:102-117 | for any token texts |
| `Template.AppendSpan` | pkg/tmpl/tmpl.go:105-116 | one turn: plain bytes copied, a span rendered, or the rest copied |
| `Template.CloseBrace` | pkg/tmpl/tmpl.go:126-133 | the first closing brace |
| `Template.LexLosesNothing` | pkg/tmpl/tmpl.go:75-93 | the tokens’ own texts put together are the template |
| `Template.LexFindsEverySpan` | pkg/tmpl/tmpl.go:75-93 | no literal is empty, hides a span or stands beside a literal, and every span is one brace pair |
| `Template.FirstSpanIsFirst` | pkg/tmpl/tmpl.go:75-93 | the span found is the first, nested and unclosed braces included |
| `Template.LexRestIs` | pkg/tmpl/tmpl.go:75-93 | the lexing loop ends with what the specification lists |
| `Template.RenderRestIs` | pkg/tmpl/tmpl.go:102-117 | the rendering loop ends with what it renders |
| `Template.LexSpan` | pkg/tmpl/tmpl.go:78-92 | one turn: the literal before the next span and the span, or nothing when there is none |
| `Template.Expand` | pkg/tmpl/tmpl.go:119-124 | renders the lexed tokens; with any substitution that knows nothing it returns the template |
| `Template.UnknownIsIdentity` | pkg/tmpl/tmpl.go:102-124 | rendering with any substitution that knows nothing is the identity |
| `Template.ParseSpan` | pkg/tmpl/tmpl.go:145-155 | a span is remembered as written |
| `Template.ParseKeepsEverything` | pkg/tmpl/tmpl.go:145-155 | name, payload and fallback put together again are the span |
| `Template.JoinUndoesSplit` | pkg/tmpl/cond.go:34-45 | joining the parts gives the payload back |
| `Template.CutPartsKeepsEverything` | pkg/tmpl/cond.go:34-45 | key and branches put together are the parts |
| `Template.CutCondKeepsEverything` | pkg/tmpl/cond.go:34-45 | a conditional exists exactly when the payload has a colon, and its parts put together are the payload |
| `Template.ConditionalChooses` | pkg/tmpl/cond.go:20-70 | a conditional gives its first branch exactly when its token has the named value, or any but the empty one, its second otherwise, and itself when the token is unknown |
| `Template.ConditionalOrNothing` | pkg/tmpl/cond.go:20-70 | with one branch it gives that or nothing |
| `Template.FallbackStandsIn` | pkg/tmpl/tmpl.go:135-155 | a span gives its value, its fallback for an empty one, and itself when it is unknown |

## Left out

- Floating-point rounding: tokens, rates and times of buckets are exact reals; windows are whole nanoseconds.
- 64-bit wrap-around of sequences, epochs, revisions and counters.
- Drift between a pod's clock and the server's within one sample: the offset of one round trip is taken as constant until the next.
- Hashing: a plan's digest stands for the canonical content, a bucket's configuration signature for its four numbers; collisions are not modelled.
- LeaseManager.LeaseManager.Allow: one call at a time on bucket values; calls that interleave, hold dropped buckets or belong to another generation are the steps of `PodBudget`, of which `LeaseManager.AdmissionIsSteps` shows a call to be a run.
- LeaseManager.LeaseManager.Borrow: peers' answers, the permit service and the semaphores for borrowing and the reserve are inputs; timeouts and the caching and ageing of grants are not modelled.
- LeaseBudget.FleetBudget: one bucket id with one fixed profile in one plan generation.
- PlanAgreement.LoadersAgree: keys do not expire and acknowledged writes are not lost by a failover; WAIT may fail at any time.
- LeaseCoordinator.Coordinator.Reconcile: heartbeats, the list of members, the generation hashed from it and the store's answers are inputs, and the loop that calls it is left out.
- KvState.Cell.Change: codec errors and timeouts are a failed edit or an answer that is not heard.
- WorkerPool.AlwaysServed: handlers are assumed to return for the drain; the autoscaler's timers and the supervisor's choice of units are not modelled.
- RpcPool.DrainCompletesEverything: the order in which queued jobs are taken and the handler itself are left open.
- RoutinePool.NobodySleepsInVain: a condition variable wakes any of its waiters; fairness among them is not stated.
- Delivery.AcksBalance: the results of acknowledgements on the wire and the drain's time limit are left out.
- PublishLedger.Ledger.Complete: each accepted sequence is resolved at most once, which the publish workers guarantee; a cancelled send resolves its own sequence like any other (pkg/bus/batch_publisher.go:391-401).
- PublishLedger.Ledger.WaitFlush: the number of wake-ups before the context is done is an input; the goroutine that broadcasts when it is done is left out.
- Publish timers, batching windows, wire formats and subscription plumbing.
- AccountOrder.GroundedComeAfterExporters: imports of unknown accounts are refused before the order is computed (internal/natsacl/validate.go:38-47), so nothing is promised about their importers.
- Text beyond ASCII: `normalizeUnicode`, confusables and NFKC; no confusable is a single ASCII byte.
- Loading the lexicon and its scan by category; a phrase or domain list is any list.
- Template.Append: lower-casing and the substitution are parameters, and a substitution answers the same token the same way.
- `TokenKey` (a token's key within a namespace), `HasInnerBrace` (whether a span holds another brace) and `condRefs` (the tokens that conditionals refer to) are not modelled.
- Growth of Go slices and the reuse of buffers.
- Logging, telemetry, configuration and key builders.
