# Verified model of the ad optimizer's hard core

This Dafny project models the parts of the advertising optimizer whose correctness is not visible in
any one function, and proves what they promise for every input, every run or every interleaving:

- the **budget allocator**: a greedy fill as the optimum of a linear program, and the holds that
  constrain it (`Sums`, `Budget`, `Relisting`), and what it returns for what it is given (`Allocator`);
- the **critic** that reconciles proposals, in one review and over a whole run (`Critic`,
  `CriticReview`, `CriticRun`), which proposals survive it (`CriticSurvival`, `CriticBuckets`), and its
  whole outcome in terms of the proposals' own fields (`CriticOutcome`);
- the **supervisor loop** and its two executors (`Supervisor`), and what the state's channels hold after
  a run (`Channels`);
- the **event bus** and its resumable streams (`EventBus`, `EventStream`), and the **browser reader**
  at the other end of the wire (`Sse`);
- the **scheduler lease** (`Lease`), the **monthly spend cap** (`Gateway`), the **rate limiter**
  (`RateLimiter`) and the **bounded cache** (`Cache`);
- the **two warehouse backends** that must report the same money (`Warehouse`), and which rows each figure
  is the sum of (`WarehouseFigures`);
- the **JSON extractor** (`JsonSpan`) and the **Wilson interval** (`Wilson`).

`Common` holds what several of them share.

Code that changes state is modelled by methods and classes proved against specification functions;
lemmas then prove what the program promises about those functions. Protocols are state machines whose
steps are the program's atomic sections, and their theorems quantify over all runs.

`dafny verify dfyconfig.toml` checks the project. Numbers the program keeps as floats are exact
reals. Square roots are any non-negative root of their argument. The clock, the caller's JSON parser,
the agents and the database's answers are parameters.

## Where the code and its documentation differ

The model follows the code. Each difference is a lemma.

- The conflict tables are described as letting the dominant remedy win unless a contradicted proposal
  carries strictly more confidence (`agents/critic.py:44-45`). The critic asks only the contradicted
  proposal of best rank, and a clearly critical proposal beats any confidence. Between proposals of one
  standing the description holds exactly when the best-ranked contradicted proposal is also the most
  confident (`CriticRun.ConfidenceRuleIff`); across standings it fails for some keeper whatever was
  proposed (`CriticRun.ConfidenceRuleAcrossStandings`). Read as a rule about standing instead, it holds
  exactly when nothing contradicted outranks the best-ranked (`CriticRun.ChallengerSpeaksForAll`); a
  family where it does not is `CriticRun.MarginalCriticalHidesConfidence`.
- Only a genuinely runaway proposal is called undebatable (`agents/critic.py:136-141`). The pass that
  drops repeats ranks by severity and confidence, so a runaway pause can lose to a merely critical copy
  of itself, which a bid then outranks: `CriticSurvival.MarginalCopyHidesRunaway`. The exact condition is
  `CriticSurvival.RunawayPauseSurvives`.
- One review keeps a proposal for every campaign and creative that had a workable one
  (`CriticReview.OneReview`). The union over the iterations of a run does too when no proposal of the bucket
  that a rule speaks about is critical without being clearly so (`CriticBuckets.NoMarginalKeepsBucket`). Each
  such proposal can be the undoing of its bucket (`CriticBuckets.EmptiedOnlyByMarginals`); when a second
  iteration repeats one of two opposed proposals, `CriticBuckets.RunCanEmptyABucket` and
  `CriticBuckets.LaterRemedyCanEmptyABucket` say exactly when nothing is left.
- A stream promises that nothing published around its subscription is lost
  (`orchestrator/events.py:157-159`). Publishes of one run that overlap can reach its queue in reverse
  order, and the earlier event is then dropped: `EventStream.OverlapLosesAnEvent`. The exact condition
  is `EventStream.CompleteIffOfferedInOrder`.
- The sequential executor is called equivalent to the graph (`orchestrator/graph.py:285`). It is
  exactly when the iteration cap is at least one: `Supervisor.CapDecidesAgreement`.
- The spend guardrail is called a hard stop (`llm/gateway.py:177`). Calls already past the check are
  still charged after it trips: `Gateway.LatchEndsSpendingIff`; and the concurrency limit does not bound
  them: `Gateway.SlotsDoNotBoundSpend`.
- The cache is called bounded (`infra/cache.py:23`). It is exactly for capacities of four and more:
  `Cache.BoundKeptIff`.
- The lower-bound ranking is said to keep a 1-for-1 creative below a 300-for-10000 one
  (`domain/scoring.py:139`). It does not: `Wilson.SingleSuccessOutranks`. Exactly when the ranking puts a
  longer run above a short perfect one is `Wilson.PerfectRunOutranksIff`.
- The browser reader takes a closing frame for the stream's end and reports the end of the body as well
  (`lib/sse.ts:73-75,93`). The server always sends that frame, so the handler is told of every complete
  stream's close twice: `Sse.CloseIsToldTwice`.
- Reading the mirror with the newest version per key makes replays harmless
  (`infra/warehouse.py:362-364`), but a row deleted from the primary table stays in the mirror:
  `Warehouse.MirrorIsExactUnlessRowsWereDeleted` gives the exact condition.

## Model

| member | source | states |
|---|---|---|
| Budget.GreedyOptimum | backend/src/adoptimizer/domain/budget.py:98-116 | the in-place fill over a fresh array computes the specification fill, early stop included |
| Budget.GreedyShape | backend/src/adoptimizer/domain/budget.py:98-116 | every fill is full before some pivot of the order, untouched after it, and misses the total by at most the early stop |
| Budget.GreedyIsOptimal | backend/src/adoptimizer/domain/budget.py:98-116 | in descending score order no feasible allocation of the same total scores more than the fill, up to the largest score times the early stop |
| Budget.FillOrderSorted | backend/src/adoptimizer/domain/budget.py:83-95 | the fill order is a permutation of the campaigns sorted by score, then ROAS, then id |
| Budget.ReleaseOrderSorted | backend/src/adoptimizer/domain/budget.py:158 | the release order holds exactly the held campaigns, once each, weakest score first |
| Budget.HoldAll | backend/src/adoptimizer/domain/budget.py:151-153 | floors exactly the held positions at their current budgets |
| Budget.ReleaseWeakest | backend/src/adoptimizer/domain/budget.py:158-164 | relaxes the lower bounds of a prefix of the release order and of nothing else |
| Budget.ApplyHolds | backend/src/adoptimizer/domain/budget.py:125-164 | the array ends at the bounds of the holds kept, and those are returned |
| Budget.HoldsReleasedMinimally | backend/src/adoptimizer/domain/budget.py:146-164 | every shorter prefix of releases leaves no headroom, the chosen one leaves some unless all are released, and nothing released outscores anything kept |
| Budget.KeptHoldsNeverCut | backend/src/adoptimizer/domain/budget.py:223-234 | a hold reported as kept is never allocated below its current budget |
| Budget.PlanWithinBounds | backend/src/adoptimizer/domain/budget.py:242-264 | whatever the holds, every planned amount stays between the task's relaxed lower bound, itself at least the floor, and its upper bound |
| Budget.PlanConservesBudget | backend/src/adoptimizer/domain/budget.py:250-264 | the plan spends the clamped request up to the early stop, and with no explicit total that request is the current total |
| Budget.PlanIsOptimal | backend/src/adoptimizer/domain/budget.py:262-264 | no plan within the task's final bounds and with its total scores more than the allocator's, up to the early stop |
| Budget.TasksAreValid | backend/src/adoptimizer/domain/budget.py:236-250 | every input of the allocator meets the conditions the guarantees need: positive budgets above the floor and positive scores |
| Budget.Allocate | backend/src/adoptimizer/domain/budget.py:201-290 | the whole allocator returns the allocations of its specification, which the `Allocator` rows describe by inputs and outputs |
| Allocator.EligibleFrom | backend/src/adoptimizer/domain/budget.py:236 | the plan is for exactly the campaigns with spend, in the order they were listed in |
| Allocator.BaselineIsBudgetOrSpend | backend/src/adoptimizer/domain/budget.py:193-244 | each is measured from its configured budget or else its spend, and never from less than the floor |
| Allocator.AllocationStaysInRange | backend/src/adoptimizer/domain/budget.py:242-248 | with f the change fraction kept between 0 and 10, max(current * (1 - f), floor) <= recommended <= current * (1 + f), and a kept hold was named and is never cut |
| Allocator.AllocationSpendsRequest | backend/src/adoptimizer/domain/budget.py:250-264 | the recommended amounts add up, within the early stop, to the request cut off at the sums of those ranges, and without a request to the current total |
| Allocator.AllocationIsBest | backend/src/adoptimizer/domain/budget.py:262-264 | no allocation within those ranges as written, kept holds floored at their current budget, that spends no more than the plan scores more |
| Allocator.AheadIsServedFirst | backend/src/adoptimizer/domain/budget.py:83-116 | nobody gets more than its least while someone with a higher score, or an equal one and higher ROAS, or both equal and a smaller id, could take more |
| Allocator.WeakestGivenUp | backend/src/adoptimizer/domain/budget.py:158-164 | no hold that was given up has a higher score, or an equal one and greater id, than one that was kept |
| Allocator.NoMoreGivenUpThanNeeded | backend/src/adoptimizer/domain/budget.py:146-164 | with the strongest hold given up floored again the ranges leave nothing to move, and while a hold is kept they leave something |
| Relisting.PlanIndependentOfListing | backend/src/adoptimizer/domain/budget.py:83-95 | listing the campaigns in another order permutes the plan and the releases and changes nothing else |
| Critic.Unexecutable | backend/src/adoptimizer/agents/critic.py:321-367 | withholds exactly the blocked proposals, each in one finding that lists it and names no keeper |
| Critic.Repeats | backend/src/adoptimizer/agents/critic.py:369-428 | withholds what the specification withholds, each finding naming the copy that stays; `CriticOutcome.StrongestCopyStays` says which copy that is |
| Critic.Resolve | backend/src/adoptimizer/agents/critic.py:532-595 | one rule withholds one whole side of a bucket or nothing, and its finding names a live proposal of the side that stays |
| Critic.Conflicts | backend/src/adoptimizer/agents/critic.py:430-464 | withholds from each bucket what applying the table in order withholds, each id recorded once |
| Critic.TableSettles | backend/src/adoptimizer/agents/critic.py:450-464 | applying a table to a bucket leaves no contradictory pair and never empties it |
| Critic.SpendDirection | backend/src/adoptimizer/agents/critic.py:466-529 | escalates exactly the campaigns with a live budget or bid proposal to increase and one to decrease, and withholds nothing |
| CriticReview.Review | backend/src/adoptimizer/agents/critic.py:289-298 | the five passes withhold exactly the verdict, which `CriticOutcome.ReviewOutcome` describes proposal by proposal, each id in one finding, and escalations withhold nothing |
| CriticReview.OneReview | backend/src/adoptimizer/agents/critic.py:289-294 | after one review no blocked proposal survives, each intent survives once, no survivors contradict, and every bucket with a workable proposal keeps one |
| CriticReview.KeeperLives | backend/src/adoptimizer/agents/critic.py:396-404 | the copy kept of an intent survives its pass and no copy ranks above it |
| CriticReview.ByKind | backend/src/adoptimizer/agents/critic.py:598-602 | the counts per kind are the withheld proposals of that kind and add up to all that were withheld |
| CriticReview.ReviewAccounts | backend/src/adoptimizer/agents/critic.py:296-297 | survivors plus withheld are the proposals, and each withheld id is listed in exactly one finding |
| CriticRun.ReviewRun | backend/src/adoptimizer/orchestrator/state.py:141-152 | over all iterations the ids withheld are the union of the reviews' verdicts |
| CriticRun.RunSettles | backend/src/adoptimizer/orchestrator/state.py:155-169 | after a run of any length the survivors hold no blocked proposal, no repeated intent and no contradiction |
| CriticRun.RefusedProposalsAreNoEvidence | backend/src/adoptimizer/agents/critic.py:329-335 | what becomes of a workable proposal does not depend on the refused ones |
| CriticRun.ConfidenceRuleIff | backend/src/adoptimizer/agents/critic.py:44-45 | against every keeper of the challenger's own standing, the critic yields exactly when some contradicted proposal has more confidence, if and only if the best-ranked one has the most confidence |
| CriticRun.ConfidenceRuleAcrossStandings | backend/src/adoptimizer/agents/critic.py:163-173 | across standings confidence decides nothing: a clearly critical side wins, and some keeper contradicts the confidence rule |
| CriticRun.ChallengerSpeaksForAll | backend/src/adoptimizer/agents/critic.py:163-173 | as to standing, asking only the best-ranked contradicted proposal agrees with asking all of them, against every keeper, if and only if none of them outranks it |
| CriticRun.MarginalCriticalHidesConfidence | backend/src/adoptimizer/agents/critic.py:550-569 | a critical bid below the dominance line can hide a budget proposal that outranks the pause |
| CriticRun.RunawayPauseStands | backend/src/adoptimizer/agents/critic.py:158-173 | no rule withholds a clearly critical pause that nothing clearly critical contradicts |
| CriticSurvival.UnbeatenSurvives | backend/src/adoptimizer/agents/critic.py:430-464 | a kept proposal that wins against every live rival a rule sets against it passes both conflict tables |
| CriticSurvival.PairDecides | backend/src/adoptimizer/agents/critic.py:289-294 | of two kept proposals alone in a bucket that contradict each other, a review keeps the contradicted one if and only if it outranks the other, and else the other |
| CriticSurvival.RunawayPauseSurvives | backend/src/adoptimizer/agents/critic.py:136-141 | if nothing workable it contradicts is clearly critical, a review keeps a clearly critical pause of the bucket if and only if no merely critical copy of the pause is ahead of every clearly critical one |
| CriticSurvival.MarginalCopyHidesRunaway | backend/src/adoptimizer/agents/critic.py:369-428 | the family where it fails: a merely critical copy with more confidence replaces a runaway pause and a bid with more confidence still outranks the copy |
| CriticBuckets.UnbeatenSurvivesRun | backend/src/adoptimizer/orchestrator/state.py:141-152 | a proposal kept and unbeaten among all proposals of a run is withheld by none of its reviews |
| CriticBuckets.NoMarginalKeepsBucket | backend/src/adoptimizer/orchestrator/state.py:141-152 | through a run of any length a bucket with a workable proposal keeps one, if none of its proposals that a rule speaks about is critical without being clearly so |
| CriticBuckets.EmptiedOnlyByMarginals | backend/src/adoptimizer/orchestrator/state.py:141-152 | a workable proposal can be, as the only possibly merely critical one, the undoing of its bucket if and only if it is merely critical and some rule speaks about it |
| CriticBuckets.RunCanEmptyABucket | backend/src/adoptimizer/orchestrator/state.py:141-152 | two opposed proposals and a later copy of the contradicted one are all withheld if and only if the first outranked the remedy and the stronger-ranked copy does not |
| CriticBuckets.LaterRemedyCanEmptyABucket | backend/src/adoptimizer/orchestrator/state.py:141-152 | with a later copy of the remedy all three are withheld if and only if the first remedy stood and the copy that replaces it is outranked |
| CriticOutcome.StrongestCopyStays | backend/src/adoptimizer/agents/critic.py:369-428 | of the live copies of an intent the one stays that has the greatest (critical, confidence, iteration), the first proposed among equals, and no other |
| CriticOutcome.ReviewOutcome | backend/src/adoptimizer/agents/critic.py:289-595 | a proposal passes a review if and only if it is workable, goes before every other workable copy, and the remedies of its campaign and creative allow it: who overrules whom is stated kind by kind and field by field |
| CriticOutcome.RunOutcome | backend/src/adoptimizer/orchestrator/state.py:141-152 | a proposal passes a run of any length if and only if it passes every review it was part of |
| Supervisor.InvokeGraph | backend/src/adoptimizer/orchestrator/graph.py:153-186 | the graph's step loop with its conditional edge and recursion limit |
| Supervisor.InvokeSequential | backend/src/adoptimizer/orchestrator/graph.py:284-299 | the nested loops run the agents round by round, with a cancellation check before each |
| Supervisor.RunAgents | backend/src/adoptimizer/orchestrator/graph.py:290-293 | one inner loop runs every agent once, in order, on the state its predecessor left |
| Supervisor.RoundControl | backend/src/adoptimizer/agents/optimize.py:625-638 | a well-behaved round keeps the cap, bumps the iteration once and completes at the cap |
| Supervisor.ExecutorsAgree | backend/src/adoptimizer/orchestrator/graph.py:274-299 | both executors run the same agents on the same states and end alike, failures and cancellations included |
| Supervisor.CapDecidesAgreement | backend/src/adoptimizer/orchestrator/graph.py:279-289 | they agree if and only if the cap is at least one |
| Supervisor.NegativeCapSeparates | backend/src/adoptimizer/orchestrator/graph.py:279-289 | below that one runs nothing and the other never finishes |
| Supervisor.RunIsBounded | backend/src/adoptimizer/orchestrator/graph.py:279 | a run takes at most six agents per allowed iteration, never meets the recursion limit, and six per iteration it reports |
| Supervisor.HistoryIsKept | backend/src/adoptimizer/orchestrator/state.py:27-46 | whatever agents return, a sequential run only extends the accumulating channels and never rewinds the iteration |
| Supervisor.GraphKeepsHistory | backend/src/adoptimizer/orchestrator/state.py:27-46 | nor does a run of the graph, whatever its agents return and however long it goes on |
| Channels.RunIsExplained | backend/src/adoptimizer/orchestrator/graph.py:284-311 | in either executor every agent sees, and a finished run ends in, the start with all updates returned before folded in |
| Channels.ReplacedChannel | backend/src/adoptimizer/orchestrator/state.py:22-24 | after a finished run of either executor a replaced channel is the last list an agent returned for it |
| Channels.UnreplacedChannel | backend/src/adoptimizer/orchestrator/state.py:22-24 | and holds what it held when no agent returned one |
| Channels.AppendedChannel | backend/src/adoptimizer/orchestrator/state.py:27-31 | an accumulating channel is what it was followed by everything returned for it, in order |
| Channels.MergedChannel | backend/src/adoptimizer/orchestrator/state.py:34-41 | an entry of a merged channel is the last value returned for that entry |
| Channels.UnmergedEntry | backend/src/adoptimizer/orchestrator/state.py:34-41 | an entry no agent set is there if and only if it was, unchanged |
| Channels.IterationOfRun | backend/src/adoptimizer/orchestrator/state.py:44-46 | the iteration is the largest of the start and all that agents returned for it |
| Channels.PlainChannel | backend/src/adoptimizer/orchestrator/state.py:49-90 | a channel without a reducer is the last value returned for it |
| Channels.UntouchedChannel | backend/src/adoptimizer/orchestrator/graph.py:302-311 | a channel nobody wrote is as it was, and absent if it was absent |
| Channels.GraphRounds | backend/src/adoptimizer/orchestrator/graph.py:153-186 | the graph runs six agents a round in one order, goes on exactly while the state is not complete, below the cap and has alerts, and gives up only after six agents per allowed iteration and eight more |
| Channels.SequentialRounds | backend/src/adoptimizer/orchestrator/graph.py:284-299 | the sequential executor runs the same rounds and stops after as many as the cap allows or at the first that is complete or without alerts |
| Channels.RoundCompletes | backend/src/adoptimizer/agents/optimize.py:625-638 | a well-behaved round completes the run exactly when the optimizer saw the last allowed iteration or no alerts, or proposed nothing |
| EventBus.EventBus.BeginPublish | backend/src/adoptimizer/orchestrator/events.py:85-109 | numbers an event one past the run's last and keeps the newest part of its history |
| EventBus.EventBus.FanOut | backend/src/adoptimizer/orchestrator/events.py:116-127 | appends the event to the queue of every subscriber of its run, dropping the oldest of a full one, and leaves every other subscriber as it was |
| EventBus.EventBus.Replay | backend/src/adoptimizer/orchestrator/events.py:143-145 | returns the retained events past a threshold |
| EventBus.QueuesHoldTheirRun | backend/src/adoptimizer/orchestrator/events.py:116-127 | over any sequence of bus operations on any runs a subscriber's queue is the newest of what it held and its own run's events, and nothing else |
| EventBus.RunsNumberTheirEvents | backend/src/adoptimizer/orchestrator/events.py:85-109 | each run numbers its events from one on without gaps and its history is the last 2000 of them |
| EventBus.OverflowLosesOldest | backend/src/adoptimizer/orchestrator/events.py:119-126 | after any arrivals with no read between them a bounded queue holds exactly the newest ones |
| EventBus.RecordsIncrease | backend/src/adoptimizer/orchestrator/events.py:191-193 | what a cursor passes on is strictly increasing past where it began |
| EventBus.NothingOvertaken | backend/src/adoptimizer/orchestrator/events.py:191-193 | a cursor passes on everything past it if and only if it arrived in order |
| EventStream.Stream | backend/src/adoptimizer/orchestrator/events.py:147-198 | the generator yields the replay and then the records of its queue, up to a terminal event or the heartbeat limit |
| EventStream.EndsAtTerminal | backend/src/adoptimizer/orchestrator/events.py:169-196 | what is yielded is all, or all up to the first event that a run succeeded, failed or was cancelled |
| EventStream.HeardUntilLimit | backend/src/adoptimizer/orchestrator/events.py:176-193 | the stream gives up at the timeout that reaches the heartbeat limit and not before, and events do not reset the count |
| EventStream.StreamIsOrdered | backend/src/adoptimizer/orchestrator/events.py:154-196 | in every interleaving a stream's numbers strictly increase past its threshold and a terminal event is last |
| EventStream.OverflowSparesNewest | backend/src/adoptimizer/orchestrator/events.py:116-127 | in every interleaving of publishers and reader, overflowed or not, the queue is within its size the newest of what was offered, the latest last |
| EventStream.RunFaithful | backend/src/adoptimizer/orchestrator/events.py:157-159 | without overflow a stream that caught up yielded its replay and every later arrival newer than all before it |
| EventStream.SerialStreamIsComplete | backend/src/adoptimizer/orchestrator/events.py:92-198 | when publishes do not overlap, every retained or later event past the threshold is yielded once and in order |
| EventStream.EveryNumberIsYielded | backend/src/adoptimizer/orchestrator/events.py:92-198 | such a stream that caught up has yielded exactly the numbers past its threshold up to the run's last, back to the 2000 remembered when it subscribed |
| EventStream.LeftAloneItCatchesUp | backend/src/adoptimizer/orchestrator/events.py:167-196 | from every state of every interleaving the stream's own steps bring it to its end or to an empty queue |
| EventStream.CompleteIffOfferedInOrder | backend/src/adoptimizer/orchestrator/events.py:191-193 | a stream that caught up lost nothing if and only if events reached its queue in the order of their numbers |
| EventStream.OverlapLosesAnEvent | backend/src/adoptimizer/orchestrator/events.py:101-127 | a run of two overlapping publishes in which the earlier event is lost |
| Sse.Reader.ParseBlock | frontend/src/lib/sse.ts:45-53 | the line loop finds the last event name and all data lines, ignoring comments |
| Sse.Reader.Feed | frontend/src/lib/sse.ts:81-91 | after each chunk the calls made and the text kept are those of everything received so far |
| Sse.Reader.Finish | frontend/src/lib/sse.ts:92-93 | at the end the calls are those the whole text means, with the close told last |
| Sse.CutIsIncremental | frontend/src/lib/sse.ts:84-90 | cutting a first part and then its remainder with what follows is cutting the whole, blank lines across the seam included |
| Sse.CutKeepsText | frontend/src/lib/sse.ts:84-90 | the blocks, their blank lines and the remainder are the text |
| Sse.CutsAreUnbroken | frontend/src/lib/sse.ts:84-90 | no block and no remainder has a blank line in it |
| Sse.LinesKeepText | frontend/src/lib/sse.ts:46 | the lines joined by newlines are the block, and no line has one |
| Sse.TrimTakesSpaceOff | frontend/src/lib/sse.ts:51-52 | trimming takes white space off both ends until neither has any |
| Sse.ManyDataLines | frontend/src/lib/sse.ts:51-75 | the data lines of a block are told as one text joined by newlines, under the block's event name; empty or unparseable data is not told |
| Sse.LastEventLineNames | frontend/src/lib/sse.ts:47-51 | the last event line of a block names its event |
| Sse.ReadAll | frontend/src/lib/sse.ts:80-97 | for every way of cutting the text into chunks the handlers are told what the whole text says |
| Sse.SentIsRead | backend/src/adoptimizer/api/v1/runs.py:211-215 | the frames the server renders are read back as those frames, keep-alives as nothing, with no remainder |
| Sse.Deliver | backend/src/adoptimizer/api/v1/runs.py:211-261 | whatever frames are sent and however the network cuts them, each frame is handled once and in order, and then the end of the body is told |
| Sse.CloseIsToldTwice | frontend/src/lib/sse.ts:73-93 | when the last frame is the server's closing frame, the handler is told of the close twice |
| Sse.UnfinishedFrameIsRead | frontend/src/lib/sse.ts:92-93 | a last frame whose blank line never arrived is still handled before the close |
| Sse.TrailingSpaceIsNothing | frontend/src/lib/sse.ts:92-93 | white space after the last frame is not handled as one |
| Lease.LeaseTable.Acquire | backend/src/adoptimizer/repositories/scheduling.py:114-169 | uninterrupted, a caller wins exactly when the lease is absent or free, and losing changes nothing |
| Lease.LeaseTable.RecordOutcome | backend/src/adoptimizer/repositories/scheduling.py:171-218 | releases and counts only for the named holder and otherwise changes nothing |
| Lease.AloneWinsIfFree | backend/src/adoptimizer/repositories/scheduling.py:114-169 | the three statements run alone grant the lease exactly when there is no row or its lease has run out, and else change nothing |
| Lease.StepKeepsInv | backend/src/adoptimizer/repositories/scheduling.py:114-218 | every statement, release and clock tick keeps the table in step with the grants made |
| Lease.MutualExclusion | backend/src/adoptimizer/repositories/scheduling.py:124-132 | in every interleaving at most one granted, unreleased lease is unexpired, and the table names its holder |
| Lease.OvertakenForGood | backend/src/adoptimizer/repositories/scheduling.py:184-188 | a holder that was overtaken never holds the lease again |
| Lease.StaleReleaseChangesNothing | backend/src/adoptimizer/repositories/scheduling.py:184-188 | its release is refused and leaves the system as it was |
| Lease.FailuresAreTrailing | backend/src/adoptimizer/repositories/scheduling.py:194-205 | the stored failure count is the trailing run of failed outcomes over all holders |
| Lease.TrailingFailuresMeaning | backend/src/adoptimizer/repositories/scheduling.py:194 | exactly the last that many outcomes failed |
| Lease.ExpiredLeaseIsTaken | backend/src/adoptimizer/repositories/scheduling.py:134-150 | once every lease has run out the next claim takes over with its first statement |
| JsonSpan.ExtractJsonSpan | backend/src/adoptimizer/llm/structured.py:38-69 | the scanner loop returns the span its specification defines, for every text |
| JsonSpan.ValuePasses | backend/src/adoptimizer/llm/structured.py:50-68 | inside a span any JSON value leaves the scanner at the depth it had, though one bracket kind is not counted |
| JsonSpan.ExtractionIsExact | backend/src/adoptimizer/llm/structured.py:38-69 | for every array or object of RFC 8259, after any text without an opening bracket and before any text, extraction returns exactly it |
| JsonSpan.TruncatedJsonIsKeptWhole | backend/src/adoptimizer/llm/structured.py:69 | a value cut off anywhere is returned as far as it arrived |
| JsonSpan.ExtractionIsIdempotent | backend/src/adoptimizer/llm/structured.py:38-69 | extracting from an extracted span changes nothing, JSON or not |
| Warehouse.MergeSlots | backend/src/adoptimizer/infra/warehouse.py:190-198 | the loop keeps every campaign-level bucket and adds only the breakdown buckets missing from it |
| Warehouse.TotalsPerGroup | backend/src/adoptimizer/infra/warehouse.py:206-210 | the accumulating loop computes the grouped sums in whatever order the dictionary is read |
| Warehouse.SlotsAreDelivery | backend/src/adoptimizer/infra/warehouse.py:494-531 | merging two grouped reads bucket by bucket is the nested query: the roll-up where there is one, else the breakdown, never both |
| Warehouse.FinalAfterSync | backend/src/adoptimizer/infra/warehouse.py:345-370 | reading the newest version per key after a sync gives the synced rows over whatever was written before |
| Warehouse.ReplaysAreInvisible | backend/src/adoptimizer/infra/warehouse.py:345-370 | any number of replays leaves what one sync leaves |
| Warehouse.MirrorIsExactUnlessRowsWereDeleted | backend/src/adoptimizer/infra/warehouse.py:345-370 | a query's rows in the mirror are the primary table's if and only if no selected row was deleted there |
| Warehouse.BackendsAgree | backend/src/adoptimizer/infra/warehouse.py:533-563 | for every table, window of at least a day, filter and history of syncs that take the window in, both backends give the same totals per campaign and per day unless a selected row was deleted |
| WarehouseFigures.SqlCampaignFigures | backend/src/adoptimizer/infra/warehouse.py:140-224 | a campaign's figures are the sums over exactly its rows with today - days < day that pass the filter, the roll-up row of a day where there is one and else the creative rows |
| WarehouseFigures.SqlDayFigures | backend/src/adoptimizer/infra/warehouse.py:276-294 | the same for a day's figures over all campaigns |
| WarehouseFigures.MirrorCampaignFigures | backend/src/adoptimizer/infra/warehouse.py:533-563 | the mirror's figures of a campaign are the sums over exactly the same choice of its newest rows |
| WarehouseFigures.MirrorDayFigures | backend/src/adoptimizer/infra/warehouse.py:676-700 | the same for a day's figures |
| WarehouseFigures.NewestIsRead | backend/src/adoptimizer/infra/warehouse.py:345-370 | of each key the reader sees the highest version, the last written among equals |
| WarehouseFigures.TotalOneByOne | backend/src/adoptimizer/infra/warehouse.py:206-210 | every measure of a sum is the sum of that measure over the rows, in any order |
| Warehouse.WindowsAgree | backend/src/adoptimizer/infra/warehouse.py:474-488 | the two window filters select the same days if and only if at least one day is asked for |
| Warehouse.ZeroDaysSeparate | backend/src/adoptimizer/infra/warehouse.py:474-488 | for no days one backend reports nothing and the other today |
| Warehouse.TotalOfGroups | backend/src/adoptimizer/infra/warehouse.py:206-210 | grouped totals add up to the total of the buckets |
| Warehouse.ReportsBalance | backend/src/adoptimizer/infra/warehouse.py:276-294 | the per-campaign and the per-day report of one read add up to the same money |
| Wilson.IntervalIsScoreRegion | backend/src/adoptimizer/domain/statistics.py:60-74 | both clamps are inactive, the ends lie around the rate within 0 and 1, and the interval holds exactly the rates a score test at z accepts |
| Wilson.EndsSolveScoreEquation | backend/src/adoptimizer/domain/statistics.py:67-73 | the two ends are exactly the solutions of the score equation |
| Wilson.MoreEvidenceNarrows | backend/src/adoptimizer/domain/statistics.py:60-74 | at one rate more trials or a smaller z never move either end outward |
| Wilson.FailuresMirror | backend/src/adoptimizer/domain/statistics.py:60-74 | counting failures mirrors the interval |
| Wilson.NegativeZSwapsEnds | backend/src/adoptimizer/domain/statistics.py:70-73 | a negative z returns the same ends the wrong way round |
| Wilson.LowerOfAllSuccesses | backend/src/adoptimizer/domain/statistics.py:60-74 | with nothing but successes in n trials the lower end is n / (n + z * z) and the upper end one |
| Wilson.PerfectRunOutranksIff | backend/src/adoptimizer/domain/scoring.py:134-143 | k in m ranks no higher than n in n if and only if its rate is at most n / (n + z * z) or a score test of it accepts that rate, and strictly lower if and only if either holds strictly |
| Wilson.SingleSuccessOutranks | backend/src/adoptimizer/domain/scoring.py:134-143 | at every z from none to five, one success in one try ranks above 300 in 10000 |
| Wilson.NoTrialsGivePrior | backend/src/adoptimizer/domain/statistics.py:64-74 | without trials the interval is the prior, and else its point is the observed rate |
| RateLimiter.InMemoryRateLimiter.Allow | backend/src/adoptimizer/core/middleware.py:114-130 | whatever the clock reads, decides each request as the specification run does, and a refusal names the seconds until its window closes |
| RateLimiter.InMemoryRateLimiter.Prune | backend/src/adoptimizer/core/middleware.py:132-139 | drops exactly the buckets that began more than 300 seconds ago, and only from a table of 4096 and more |
| RateLimiter.AllowedExactly | backend/src/adoptimizer/core/middleware.py:114-139 | for windows up to 301 seconds, whatever other keys do and whatever is pruned, a request passes if and only if fewer than the limit came before it in its aligned window |
| RateLimiter.AllowedPerWindow | backend/src/adoptimizer/core/middleware.py:114-139 | in each aligned window all requests pass up to the limit and none beyond |
| RateLimiter.AtMostTwiceInASpan | backend/src/adoptimizer/core/middleware.py:114-139 | at most twice the limit passes in any span as long as the window |
| RateLimiter.LongerWindowOverruns | backend/src/adoptimizer/core/middleware.py:132-139 | for every window above 301 seconds a full table forgets a live bucket and a spent key passes again |
| Gateway.LLMGateway.FinishCheck | backend/src/adoptimizer/llm/gateway.py:186-196 | refuses exactly at or over the cap and then stays latched |
| Gateway.LLMGateway.TallyUsage | backend/src/adoptimizer/llm/gateway.py:298-308 | adds one result's tokens, cost and call to its run's tally and touches no other; a call without a run is not tallied |
| Gateway.InFlightAfter | backend/src/adoptimizer/llm/gateway.py:124-158 | the only way to become chargeable is a ledger read below the cap |
| Gateway.SpendStaysBelow | backend/src/adoptimizer/llm/gateway.py:124-196 | in every interleaving the month's spend stays below the cap plus the largest cost times the calls that can be between check and charge |
| Gateway.SlotsHold | backend/src/adoptimizer/llm/gateway.py:151-156 | in every interleaving no more calls are at the provider at once than there are slots |
| Gateway.SlotsDoNotBoundSpend | backend/src/adoptimizer/llm/gateway.py:151-156 | the bound is tight with any number of slots: from every month still below the cap some run with n calls in flight charges n times the largest cost more |
| Gateway.RefusedOnlyOverCap | backend/src/adoptimizer/llm/gateway.py:176-192 | no call is refused before the cap has been reached |
| Gateway.UncappedNeverRefuses | backend/src/adoptimizer/llm/gateway.py:176-187 | with a cap of zero or less no call is checked or refused, in every interleaving |
| Gateway.LatchedRun | backend/src/adoptimizer/llm/gateway.py:176-196 | once latched, the chargeable calls only shrink and the ledger grows by at most one entry for each |
| Gateway.LatchEndsSpendingIff | backend/src/adoptimizer/llm/gateway.py:176-196 | once latched, some run can still be charged if and only if some call is between a check below the cap and its charge |
| Gateway.TallyAgreesWithLedger | backend/src/adoptimizer/llm/gateway.py:87-92 | after any interleaving, once no call of a run is between ledger and tally, the tally is the sum of tokens, cost and calls that this process entered in the ledger for it |
| Cache.InMemoryCache.Get | backend/src/adoptimizer/infra/cache.py:29-37 | on any clock reading returns only what the plain map holds unexpired, misses only what eviction took or what had expired at the latest time seen, and drops an expired entry |
| Cache.InMemoryCache.Set | backend/src/adoptimizer/infra/cache.py:39-42 | writes the entry after making room, and takes nothing else from the plain map's view |
| Cache.InMemoryCache.Delete | backend/src/adoptimizer/infra/cache.py:44-45 | forgets the key in cache and plain map alike |
| Cache.InMemoryCache.Evict | backend/src/adoptimizer/infra/cache.py:68-78 | drops the expired entries, and from a store still full a quarter of its capacity, soonest to expire first |
| Cache.SoonestKeys | backend/src/adoptimizer/infra/cache.py:74-76 | picks n keys none of which outlives a key it leaves |
| Cache.TakenExpireFirst | backend/src/adoptimizer/infra/cache.py:39-78 | a write takes a live entry only from a store full of live ones, at most a quarter of the capacity, and none that would outlive one it leaves |
| Cache.BoundKeptIff | backend/src/adoptimizer/infra/cache.py:39-42 | writing keeps every store within its capacity if and only if the capacity is at least four |

## Left out

- The CVXPY cross-check of the allocator and the computation of the allocation score: a foreign
  solver, and logarithms and rounding. Scores are given numbers.
- Two-decimal rounding of reported amounts, reason strings and log lines.
- Agents other than the optimizer and the critic: arbitrary functions of the step and the state. The
  action builders, deduplication, target holds and raising bids of the optimizer are inputs.
- Supervisor.ExecutorsAgree: speaks of executors that start from an iteration of zero or more, the only ones
  a seeded run has; LangGraph's own scheduling and checkpointing are not modelled.
- CriticReview.Review: the withheld set the passes share and update in place is a value handed from
  pass to pass, and the texts, scopes and kept confidences of findings are not modelled; ids are
  distinct and non-empty.
- The order of the proposals inside one duplicate finding.
- EventBus.EventBus.FanOut: a subscriber names its run in a field of its own instead of as the prefix of its id.
- The persistence of events, `close_run`, and the timing of heartbeats, which a stream may take at any moment.
- EventStream.SerialStreamIsComplete: follows one run and one stream of it; runs and streams do not share state.
- The server's alternation between the durable event log and the in-process stream.
- Lease isolation below single statements, messages, batch ids and the ingest watermark.
- Warehouse.BackendsAgree: a creative's id is not the empty string and a row's campaign exists, as the ingest
  and the foreign key enforce; names, result order, funnel repair, the four-decimal rounding of mirrored
  amounts, the event source and connection failures are not modelled.
- Wilson.IntervalIsScoreRegion: successes lie between none and all trials; outside that range the program
  clamps and the interval has no such meaning.
- RateLimiter.AllowedExactly: one key keeps one limit and window, as every caller does, and the clock never runs back; `Allow` itself
  is specified for every clock.
- Gateway.SpendStaysBelow: one process and one month; other processes writing the same ledger, the retry
  and fallback inside a provider call and cancelled calls are not modelled.
- Cache.SoonestKeys: which of several entries with the same expiry goes first is left open.
- `incr_window` and `delete_prefix` of the cache, Redis, and the cache of responses in front of it.
- Sse.Deliver: text decoding and the reading of a frame's JSON; whether data parses is a parameter. Line ends
  are LF only, as the server writes them.
