# Verified model of the MachBoost core

MachBoost is a local inference server. This project models the parts of it whose
correctness is not visible from any single function, and proves what they are for. Each
component is a module of its own. Code that updates objects is a class whose methods are
proved against a function of the old state; lemmas then prove what that function means
over every input, every chunking, or every interleaving.

| module | component | main results |
|---|---|---|
| `Drafter` | the n-gram drafter of `machboost/core.py` | it drafts exactly when some suffix of the history is continued by the corpus; the indexed, early-exiting search returns the exhaustive ranking for drafts of at most 101 tokens, and for no larger bound |
| `Decoding` | the boosted generation loop | with any sound verifier the loop returns exactly the greedy tokens; it tries the drafter's list wherever there is one; its work counters are those of its rounds and obey the promised bounds |
| `Scheduler` | the tenant-fair replica pool | safety and bounded bypass over every interleaving, a bound that is reached; counters are tallies of the run; which queue positions wait for at most one grant, exactly; service is not round robin over three tenants |
| `ChatStream` | the chat text streamer | streaming equals truncating at once, for every chunking, if and only if the stop set is streamable; nothing is held back in vain |
| `Thinking` | the reasoning splitter | splitting undoes rendering and removes markers under every chunking, and nothing leaks on the way; exactly when the chunks matter |
| `Routing` | host scores and greedy selection | what makes a host the better choice; a burst of reservations is balanced and optimal |
| `Failover` | failover between hosts | over every interleaving, reservations count open attempts, no host is tried twice, no output is replayed; the class's loop is a run of the same steps |
| `Admission` | a team key's limits | the rate limit holds for all runs if and only if window and clock skew together are at most a minute |
| `VisionTokens` | visual-token compression | groups partition the tokens; the index map is exact; the retention target is met with bounded overshoot; a pass is compressed once and loses no text |
| `Video` | frame selection | uniform choice is strictly increasing despite half-to-even rounding; temporal choice respects ranks and budget |
| `Compaction` | compaction envelopes | tool items, instructions and visuals survive any number of rounds, in order |
| `Text`, `Ordering`, `Wrappers` | shared | marker search, sorting, Option and Result |

How the source's form is kept: a lock section is one atomic step, and a run is any
sequence of steps, so every interleaving of threads is covered. In the scheduler a request
joins the queue and takes the first turn of its waiting loop in two steps, which allows
more interleavings than the code has. Clock readings, notifications, hash values, network
replies and model outputs are parameters that may take any value. Python exceptions are
`Result` or `Option` values. A callback is the sequence of pieces it receives. Float
arithmetic on scores, ratios and times is exact, on reals or scaled integers. Host ids,
like replica indices, are distinct.

Where the code and its documentation disagree, the model follows the code:

- `README.md:685` and `docs/TEAM_GATEWAY.md:223` say the queue rotates between tenants. Behind
  the bursts of two other tenants, a third is served by some run of the pool only after both whole
  bursts (`Scheduler.TwoBurstsGoFirst`). A waiter is preceded by at most one grant in every run if
  and only if nobody, or one single other tenant, is ahead of it (`Scheduler.AtMostOneGrantIff`).
- `docs/ACCELERATION_LAYER.md:126` says the final frame is kept. It is kept if and only if the
  budget is at least two frames or there is only one frame (`Video.FinalFrameIsKeptIff`).
- `machboost/vision_tokens.py:12` says that compression follows the deep-stack fusion. In a
  compressed pass no injection follows compression if and only if there is one layer, or some layer
  has no injection (`VisionTokens.FusedFirstIff`); with two layers that both inject, the second
  injection comes after, with the mask of the uncompressed sequence (`VisionTokens.LateInjection`).
- The early exit of the draft search is exact only up to 101 tokens of draft, although the
  constructor accepts any length (`Drafter.EarlyExitExactIff`).
- The stop strings of the streamer are exact only when they are streamable; the streamer
  accepts any (`ChatStream.StreamingExactIff`).
- `machboost/reasoning.py:74` promises that no partial tag leaks. An opening marker repeated inside the
  reasoning is removed for every chunking if and only if each of its beginnings is held back as one of a
  closing marker; otherwise it leaks when it is cut (`Thinking.RepeatedOpenIsRemovedIff`).
- The admission controller reads its clock before it takes its lock, so "per minute" holds
  only up to the skew of the readings (`Admission.RateLimitHoldsIff`).

## Model

| member | source | states |
|---|---|---|
| `Drafter.TopIsUnique` | machboost/core.py:431-441 | the ranking by score, suffix, length and source is unique, so any two searches that return it return the same list |
| `Drafter.LongerSuffixFirst` | machboost/core.py:137-143 | with drafts of at most 101 tokens a longer matched suffix outranks every shorter one |
| `Drafter.EarlyExitIsExhaustive` | machboost/core.py:121-152 | for drafts of at most 101 tokens, stopping at the first suffix length that fills the limit returns the ranking over all suffix lengths and positions |
| `Drafter.EarlyExitCanMissTheBest` | machboost/core.py:148-152 | for every draft bound from 102 up, a concrete corpus and prefix on which the early exit misses the best candidate |
| `Drafter.EarlyExitExactIff` | machboost/core.py:99-152 | the early exit equals the exhaustive ranking on every input if and only if the draft bound is at most 101 |
| `Drafter.SingleDraftIsLongestMatch` | machboost/core.py:93-97 | with limit 1 the draft is the longest usable suffix match, then the longest continuation, then the earliest source |
| `Drafter.LeaderExists` | machboost/core.py:144-146 | every continuation proposed anywhere has a leading candidate that ranks no later |
| `Drafter.BuildIndex` | machboost/core.py:154-162 | the index lists exactly the positions of each n-gram, in ascending order, and is empty when n is not positive |
| `Drafter.Ranked` | machboost/core.py:151 | sorting the kept candidates lists exactly the leaders, strictly by the sort key |
| `Drafter.Keep` | machboost/core.py:144-146 | keeping the better of two equal continuations keeps exactly the leader of each |
| `Drafter.CorpusDrafter.constructor` | machboost/core.py:66-79 | defaults replace arguments that are not positive, the index covers the whole corpus, the history is empty |
| `Drafter.CorpusDrafter.Reset` | machboost/core.py:81-82 | the history is the prompt |
| `Drafter.CorpusDrafter.Observe` | machboost/core.py:84-85 | the history grows by the committed tokens |
| `Drafter.CorpusDrafter.ScanPosition` | machboost/core.py:124-146 | after one index position the leaders cover the matches seen so far and that position |
| `Drafter.CorpusDrafter.ScanLevel` | machboost/core.py:121-146 | after one suffix length the leaders cover all matches of at least that length |
| `Drafter.CorpusDrafter.SearchLevels` | machboost/core.py:119-149 | the search runs down from the longest suffix the history and the bound allow, and ends at the highest level that fills the limit, or at the n-gram length |
| `Drafter.CorpusDrafter.Candidates` | machboost/core.py:99-152 | every draft continues a suffix of the history, of at most the suffix bound, as the corpus does, within the budget; the list is empty exactly when no suffix is continued; it is the early-exit answer always, and for budgets up to 101 the exhaustive ranking over all suffixes between n-gram length and bound, so with limit 1 the longest match |
| `Decoding.SerialIsTheGreedyRun` | machboost/bench.py:176-185 | serial decoding is the only maximal stop-free run whose every token the target chooses |
| `Decoding.MeasureBaseline` | machboost/bench.py:165-187 | the reference loop returns the serial run |
| `Decoding.TakeVisible` | machboost/core.py:421-428 | the loop returns the tokens before the first stop token and whether there was one |
| `Decoding.VisibleIsPrefix` | machboost/core.py:421-428 | the visible tokens are the longest stop-free prefix |
| `Decoding.GreedySpanAdvances` | machboost/core.py:219-226 | a greedy span cut at its first stop token is the next part of the serial run |
| `Decoding.CommitAdvances` | machboost/core.py:219-239 | committing a sound verdict, with residual or bonus, moves along the serial run, by at least one token unless the run ends |
| `Decoding.CommitIsAllToldOf` | machboost/core.py:219-239 | what is committed is all a verdict tells, the accepted span and the residual or bonus, up to the first stop token and the room; what counts as accepted is its accepted part |
| `Decoding.BlackBoxIsSound` | machboost/core.py:331-340 | the token-by-token fallback is a sound verifier, without any assumption |
| `Decoding.BlackBoxIsLongestAgreement` | machboost/core.py:331-340 | the fallback accepts the longest part of the span the target itself chooses, and its residual is the target's token there |
| `Decoding.VerdictIsSound` | machboost/core.py:311-340 | detailed, tuple, integer and black-box verification all yield a sound verdict when the service's own answers are sound |
| `Decoding.SpeedupIsBounded` | machboost/core.py:43-47 | the estimated speedup never exceeds the draft bound plus one |
| `Decoding.SpeedupIsTokensPerCall` | machboost/core.py:43-47 | the estimated speedup is tokens per call, above one exactly when the run took fewer calls than tokens |
| `Decoding.BoundsAddUp` | machboost/core.py:201-308 | the bounds on calls, rounds, spans and rejections of two parts of a run add up |
| `Decoding.BoostedService.constructor` | machboost/core.py:166-177 | the candidate limit is at least one and the probe budget not negative |
| `Decoding.BoostedService.Verify` | machboost/core.py:311-340 | the verdict is the one the first available kind of verification gives, clamped to the span; only detailed verification tells of a bonus |
| `Decoding.BoostedService.CommitVerdict` | machboost/core.py:219-239 | what is committed for an accepted span, its counters, and that both advance the run within bounds |
| `Decoding.BoostedService.TryCandidates` | machboost/core.py:206-243 | the first candidate with an accepted token is committed; with none, the first residual is the target's own token |
| `Decoding.BoostedService.WithoutCandidates` | machboost/core.py:259-295 | without a draft: probe token by token while budget is left, then the native tail, then one token |
| `Decoding.BoostedService.AfterToken` | machboost/core.py:286-295 | a target token is appended, or its absence or a stop token ends the run |
| `Decoding.BoostedService.Iterate` | machboost/core.py:201-295 | one iteration advances the serial run, streams what it adds, keeps the bounds, and sets the probe budget |
| `Decoding.BoostedService.RunOnce` | machboost/core.py:201-295 | the candidates tried are the drafter's own list for the whole history and the room left; the iteration is a round of the run's trace; the drafter's history stays prompt and generated tokens |
| `Decoding.BoostedService.RunLoop` | machboost/core.py:201-295 | the loop ends, with the run stopped or full |
| `Decoding.BoostedService.Generate` | machboost/core.py:179-309 | the tokens are exactly the serial run; callbacks are non-empty and concatenate to it; history is prompt and result; generated ≤ calls·(draft+1) and, with an honest verifier, calls ≤ k·(generated+1)+1; tokens, pieces, counters and probe budget are those of a trace whose every round tries the drafter's list for the whole history in order, and which ends full or stopped |
| `Decoding.BoostedService.NothingTriedNothingToTry` | machboost/core.py:201-243 | a run without a native tail that tried no candidate had none to try: no prefix of it ends in a suffix the corpus continues |
| `Decoding.BoostedService.TriedWhereItCould` | machboost/core.py:204-211 | the rounds of a run tried candidates exactly where the history ends in a suffix the corpus continues |
| `Decoding.BoostedService.FullDraftIsCounted` | machboost/core.py:211-239 | a first draft accepted in full and without a stop token is committed, and all of it counted as accepted, in one candidate round |
| `Decoding.BoostedService.FullDraftTakesOneCall` | machboost/core.py:201-308 | when that draft fills the room the whole run takes one target call |
| `Decoding.BoostedService.WorkAddsUp` | machboost/core.py:192-308 | the counters of a run are the sums over its rounds |
| `Decoding.BoostedService.VerifyCallsAreTries` | machboost/core.py:209-217 | with a span verifier the verify calls are the candidates tried |
| `Decoding.ScriptedServiceMeetsAssumptions` | examples/python/accelerator_calibration_demo.py:12-35 | the demonstration verifier is sound and honest, so the assumptions can be met |
| `Scheduler.RunKeeps` | machboost/scheduler.py:87-196 | in every run replicas are free or leased once, accepted = completed + active = sum of worker requests, the queue stays within its bound, and every ticket has exactly one fate |
| `Scheduler.StepKeeps` | machboost/scheduler.py:101-196 | every lock section keeps that invariant |
| `Scheduler.CountersAreTallies` | machboost/scheduler.py:107-165 | over any run the counters rise by the number of steps answered "queue full", "timed out" and by the leases of each replica |
| `Scheduler.PeaksAreReached` | machboost/scheduler.py:123-165 | the peaks of active and queued requests bound every state of the run, and each is that of some state of it or of the past |
| `Scheduler.NothingAfterClose` | machboost/scheduler.py:107-138 | once closed, no run admits, queues or grants anything |
| `Scheduler.IdleCloseIsFinal` | machboost/scheduler.py:189-196 | a successful idle close leaves a pool no request ever uses again |
| `Scheduler.NextWaiterIsServed` | machboost/scheduler.py:139-141 | while a replica is free the next waiter's own turn leases it, even past its deadline |
| `Scheduler.PassedOver` | machboost/scheduler.py:248-256 | a waiter is passed over only if it and all others passed over belong to the tenant served last |
| `Scheduler.StepAround` | machboost/scheduler.py:112-166 | what one step can do to a waiter that goes on waiting: nobody gets ahead of it, and a grant behind it means everyone before belongs to the last tenant |
| `Scheduler.BoundedBypass` | machboost/scheduler.py:112-166 | in every run, with p waiters ahead at most 2p+1 queue grants are made while a waiter waits, and nobody is admitted past the queue |
| `Scheduler.BoundedBypassUntilServed` | machboost/scheduler.py:139-166 | at most 2p+1 grants go to others before its own |
| `Scheduler.ServedIsARun` | machboost/scheduler.py:139-166 | an open pool always has a run that serves its whole queue, in the order the scan picks |
| `Scheduler.AnyQueueArises` | machboost/scheduler.py:101-123 | a new pool has runs that lead to a queue of any tenants in any order, behind a lease of any tenant |
| `Scheduler.BypassBoundIsTight` | machboost/scheduler.py:139-166 | for every p, a pool with such a queue has a run that makes exactly 2p+1 grants to others and then the waiter's |
| `Scheduler.BurstDelaysByOne` | machboost/scheduler.py:248-256 | however long another tenant's burst ahead of a waiter, at most one grant precedes it |
| `Scheduler.TenantsAreServedInOrder` | machboost/scheduler.py:248-256 | requests of one tenant are granted in ticket order in every run |
| `Scheduler.AtMostOneGrantIff` | machboost/scheduler.py:248-256 | in every run at most one grant is made while a waiter waits, if and only if nobody or one single other tenant is ahead of it |
| `Scheduler.TwoBurstsGoFirst` | machboost/scheduler.py:139-166 | behind two bursts of any length, a third tenant is served last in some run of the pool: no round robin |
| `Scheduler.ReplicaPool.constructor` | machboost/scheduler.py:32-65 | the new pool: all replicas free, nothing queued or counted |
| `Scheduler.ReplicaPool.NextWaiterTicket` | machboost/scheduler.py:248-256 | the scan returns the first waiter of another tenant than the last, or the head |
| `Scheduler.ReplicaPool.RemoveWaiter` | machboost/scheduler.py:242-246 | exactly the waiter with that ticket leaves, in place |
| `Scheduler.ReplicaPool.Arrive` | machboost/scheduler.py:101-123 | arriving is the arrival step; it is cancelled, closed, full, queued or leased at once under exactly the stated conditions, and the replica leased is the preferred one if it was free, else the free one of least index |
| `Scheduler.ReplicaPool.Poll` | machboost/scheduler.py:125-166 | one turn of the waiting loop is the poll step, in the order cancel, close, serve, expire, each under exactly its condition; the replica leased is the preferred one if it was free, else the free one of least index |
| `Scheduler.ReplicaPool.Release` | machboost/scheduler.py:172-179 | releasing is the release step: an active replica becomes free, and one that is not active is refused |
| `Scheduler.ReplicaPool.Close` | machboost/scheduler.py:181-184 | closing is the close step, and the pool is closed after it |
| `Scheduler.ReplicaPool.TryCloseIdle` | machboost/scheduler.py:189-196 | closes exactly when nothing is active or queued |
| `Scheduler.ReplicaPool.IsIdle` | machboost/scheduler.py:198-200 | idle exactly when an idle close would succeed |
| `ChatStream.FirstStopIndex` | machboost/accelerator.py:778-782 | the least place at which any stop string occurs |
| `ChatStream.TruncateAtStopStrings` | machboost/accelerator.py:644-654 | the text before the first place at which any stop string occurs |
| `ChatStream.TrailingStopPrefixLength` | machboost/accelerator.py:723-731 | the longest suffix that is a proper prefix of a stop string |
| `ChatStream.StopIsFinal` | machboost/accelerator.py:706-713 | with a streamable stop set, text to come cannot move the first stop |
| `ChatStream.StopCanMove` | machboost/accelerator.py:706-713 | any other stop set has a text whose first stop moves back as it grows |
| `ChatStream.RoleLabelsAreProper` | machboost/accelerator.py:669 | the streamer's two labels meet the assumptions made of labels |
| `ChatStream.AssistantLabelGoes` | machboost/accelerator.py:692-704 | either spelling of the assistant label goes, with the white space around it |
| `ChatStream.StreamingIsTruncation` | machboost/accelerator.py:674-720 | for every chunking, what is emitted is the visible text before its first stop string |
| `ChatStream.StreamingExactIff` | machboost/accelerator.py:665-731 | this holds for every chunking of every text if and only if the stop set is streamable |
| `ChatStream.VisibleIsWholeIff` | machboost/accelerator.py:692-704 | label removal does not depend on the chunks if and only if no chunk ends between a label and whitespace after it |
| `ChatStream.ChunkInvariance` | machboost/accelerator.py:644-731 | otherwise any chunking gives the label-free text truncated at once |
| `ChatStream.ChunkInvarianceWithoutLabel` | machboost/accelerator.py:644-731 | for texts without a leading label, any chunking gives the truncation of the left-stripped text |
| `ChatStream.PiecesAreNonEmpty` | machboost/accelerator.py:688-719 | no empty piece is ever emitted |
| `ChatStream.NothingIsHeldInVain` | machboost/accelerator.py:674-731 | after any pushes some continuation ends the output just where it is, so nothing is held back that could have been passed on |
| `ChatStream.PassedOnStays` | machboost/accelerator.py:674-690 | what was passed on stays the beginning of the output, whatever follows |
| `ChatStream.ChatTextStreamer.Push` | machboost/accelerator.py:674-681 | one push moves the streamer by the push function |
| `ChatStream.ChatTextStreamer.Finish` | machboost/accelerator.py:683-690 | finishing flushes the truncated rest and empties the buffer |
| `ChatStream.ChatTextStreamer.StripLeadingRolePrefix` | machboost/accelerator.py:692-704 | the label and the spaces around it go, once its presence or absence is certain |
| `ChatStream.ChatTextStreamer.EmitSafeText` | machboost/accelerator.py:706-720 | emits up to the first stop, or all but the held suffix |
| `Thinking.AnnouncedIsFound` | machboost/reasoning.py:160-167 | a marker that is the first to complete is the one found, whatever follows it |
| `Thinking.DrainKeepsPromise` | machboost/reasoning.py:113-158 | working off the buffer puts out part of the clean pieces and leaves exactly the rest |
| `Thinking.FeedAllKeepsPromise` | machboost/reasoning.py:113-158 | after any chunks, what was put out and what is expected make up the pieces |
| `Thinking.SplitUndoesRendering` | machboost/reasoning.py:113-158 | any chunking of pre + open + think + close + post, where the parts may hold markers to be removed, gives as reasoning think without its opening markers and as content pre + post without their content markers |
| `Thinking.SplitFromThinking` | machboost/reasoning.py:109-133 | the same for a stream that starts inside the reasoning |
| `Thinking.SplitMeetsPromise` | machboost/reasoning.py:113-158 | any chunking of any number of such parts, in any phase, gives exactly the clean parts |
| `Thinking.ContentIsClean` | machboost/reasoning.py:135-158 | a text without an opening marker, before or after thinking, comes out as content without its content markers |
| `Thinking.UnclosedThinking` | machboost/reasoning.py:118-127 | reasoning that is never closed is put out in full, without its opening markers |
| `Thinking.RepeatedOpenIsRemovedIff` | machboost/reasoning.py:118-133 | an opening marker repeated inside the reasoning is removed for every chunking if and only if each of its beginnings is the beginning of a closing marker; otherwise a chunking that leaks it is named |
| `Thinking.NothingLeaks` | machboost/reasoning.py:113-181 | at every moment the output is a prefix of the clean result, so no marker leaks, whole or in part |
| `Thinking.ChunksMatterIff` | machboost/reasoning.py:118-158 | every chunking of think + close + post gives think and post if and only if post does not start with a newline; otherwise two chunkings with different results are named |
| `Thinking.ChunksMatterForWholeIff` | machboost/reasoning.py:113-158 | every chunking of a whole rendered text gives its pieces if and only if no newline follows a marker; for a newline after the opening one, two chunkings with different results are named |
| `Thinking.ApartMarkersAnnounce` | machboost/reasoning.py:160-167 | with markers that are apart it is enough that the text before a marker introduces no other |
| `Thinking.DefaultMarkersAreApart` | machboost/reasoning.py:76-80 | the built-in opening and closing markers are apart |
| `Thinking.EndOfTurnIsRemovable` | machboost/reasoning.py:81-91 | the built-in end-of-turn marker meets the assumptions made of content markers |
| `Thinking.UnmarkIsClean` | machboost/reasoning.py:184-192 | replacing each marker in turn leaves exactly the text between the markers |
| `Thinking.WithoutFirst` | machboost/reasoning.py:184-192 | replacing a marker takes its first occurrence away and goes on behind it |
| `Thinking.ThinkingStreamSplitter.constructor` | machboost/reasoning.py:93-111 | the caller's pairs come first, as they stand for; every built-in pair is there; no pair occurs twice; the splitter starts in the phase asked for |
| `Thinking.ThinkingStreamSplitter.Feed` | machboost/reasoning.py:113-158 | the loop drains the buffer as the drain function does |
| `Thinking.ThinkingStreamSplitter.FindFirst` | machboost/reasoning.py:160-167 | the first marker found, the earlier listed on ties |
| `Thinking.ThinkingStreamSplitter.SplitPartial` | machboost/reasoning.py:169-182 | holds back exactly the longest suffix a marker may complete |
| `Thinking.ThinkingStreamSplitter.Remove` | machboost/reasoning.py:184-192 | each marker is replaced by nothing, in turn |
| `Routing.ScoreGrows` | machboost/routing.py:67-83 | the expected delay strictly grows with reservations |
| `Routing.BetterHostIsQuicker` | machboost/routing.py:67-83 | a host that is no worse in round trip, service time, replicas, queue, active requests, reservations and loading has no larger delay, and a smaller one when it is better in one that counts |
| `Routing.ColdHostIsSlower` | machboost/routing.py:82-83 | of two hosts that differ only in loading, the cold one costs at least two seconds and at least four service times more |
| `Routing.WaitingBeatsLoadingIff` | machboost/routing.py:75-83 | a warm host of one replica with n more requests ahead beats an otherwise equal cold one if and only if they take less than two seconds or are fewer than four |
| `Routing.FullTurn` | machboost/routing.py:75-81 | as many more requests ahead as there are replicas cost one service time more |
| `Routing.FreeReplicasDoNotWait` | machboost/routing.py:77-81 | the delay does not depend on active requests while a replica is free |
| `Routing.AllAheadCountAlike` | machboost/routing.py:75-81 | a queued request, or an active one once every replica is taken, delays the next one like a reservation |
| `Routing.IdleHostsCompare` | machboost/routing.py:75-83 | between idle loaded hosts the smaller sum of round trip and service time wins |
| `Routing.OddMeasuresAreClamped` | machboost/routing.py:71-83 | negative round trips and queues, service times below 50 ms and replica counts below one count as the least possible |
| `Routing.PickIsBest` | machboost/routing.py:288-295 | the host picked is the first that no other sorts before |
| `Routing.WorseHostIsNotPicked` | machboost/routing.py:288-295 | a host is not picked when another is no worse in any respect and better in one that counts |
| `Routing.TiesGoByName` | machboost/routing.py:288-295 | a host with an earlier name than the one picked has a larger delay |
| `Routing.ReserveKeepsBalance` | machboost/routing.py:287-297 | one more greedy reservation keeps balance |
| `Routing.BurstIsBalanced` | machboost/routing.py:276-297 | after any burst over fixed probes, score_i at reserved_i − 1 is at most score_j at reserved_j for all hosts |
| `Routing.EqualHostsDifferByOne` | machboost/routing.py:276-297 | hosts of equal delays never differ by more than one reservation |
| `Routing.AlikeHostsHaveSameDelays` | machboost/routing.py:67-83 | hosts that measure alike are such hosts, whatever their names |
| `Routing.FirstRequestsTakeDistinctHosts` | machboost/routing.py:285-297 | the first n requests over n or more equal idle hosts take n distinct ones |
| `Routing.BurstIsOptimal` | machboost/routing.py:276-297 | no other way to spread as many requests has a smaller worst expected delay |
| `Failover.BackoffDoublesUpToAMinute` | machboost/routing.py:405-411 | the first cooldown is the one configured and each later one double the last, up to a minute |
| `Failover.AvailableAreUsable` | machboost/routing.py:163-173 | the hosts ranked are exactly those online, with the model, not excluded and not cooling down |
| `Failover.AvailableAppend` | machboost/routing.py:163-173 | ranking keeps the order probed |
| `Failover.ChosenHasLeastDelay` | machboost/routing.py:287-297 | no candidate has a smaller expected delay than the host chosen |
| `Failover.WorseHostIsNotChosen` | machboost/routing.py:287-297 | a host is not chosen when another candidate is no worse in any respect and better in one that counts |
| `Failover.ProbeEndsCooldown` | machboost/routing.py:150-161 | a probe that finds a host online clears its failures and cooldown, and changes nothing else |
| `Failover.LaterRowsLeaveRecords` | machboost/routing.py:252-262 | only the first row of a stream touches a host's record, so what other requests met there since then stays |
| `Failover.StepKeeps` | machboost/routing.py:234-297 | every lock section keeps the invariant of the pool and of each request |
| `Failover.RunKeeps` | machboost/routing.py:234-297 | in every interleaving each host's reservations are its open attempts and each request's rows are its last host's |
| `Failover.OpenMeansReserved` | machboost/routing.py:395-397 | giving back a reservation never meets the clamp at zero |
| `Failover.CallerSeesOneHost` | machboost/routing.py:234-274 | a caller's rows are those of one host, unchanged but for the route in final rows; hosts given up yielded none; none is tried twice; "no healthy host" is raised only when none was tried |
| `Failover.OutputSettlesTheHost` | machboost/routing.py:255-274 | once a row is shown, no later step of any run changes the host, takes a row back, or revives a finished request |
| `Failover.ReservationsAreReturned` | machboost/routing.py:273-274 | when no attempt is open no reservation is left |
| `Failover.HostPool.constructor` | machboost/routing.py:86-115 | every target has a clean record and the cooldown is not negative |
| `Failover.HostPool.SelectAndReserve` | machboost/routing.py:276-297 | reserves a host that is ready and that no other ready host beats in expected delay, or changes nothing when none is ready |
| `Failover.HostPool.MarkSuccess` | machboost/routing.py:399-403 | failures and cooldown are cleared and the route recorded |
| `Failover.HostPool.MarkFailure` | machboost/routing.py:405-411 | one more failure, and a cooldown from now |
| `Failover.HostPool.Release` | machboost/routing.py:395-397 | one reservation fewer, never below zero |
| `Failover.HostPool.Attempt` | machboost/routing.py:252-274 | reading one host's stream: rows annotated, record updated by its outcome, reservation given back |
| `Failover.AttemptIsRecorded` | machboost/routing.py:252-274 | a row, or an end without one, clears a host's failures; an error counts one more and starts a cooldown; a stream closed before its first row leaves no trace |
| `Failover.CallIsRecorded` | machboost/routing.py:299-329 | an answer clears a host's failures; an error counts one more and starts a cooldown |
| `Failover.TryIsARun` | machboost/routing.py:234-274 | one try of the loop, from ranking to the returned reservation, is a run of the steps |
| `Failover.HostPool.StreamWithFailover` | machboost/routing.py:234-274 | for a caller that may close the stream after any row: the loop ends; hosts tried are distinct, with exactly one attempt each on record; all but the last failed silently and transiently; rows and outcome are the last host's; it never gives up while a host is left; the whole loop is a run of the steps, with the same records, rows and outcome |
| `Failover.HostPool.CallWithFailover` | machboost/routing.py:299-329 | a one-value call tries the online hosts in the order probed, when support is required only the usable ones; only transient errors lead to the next; the result is the last reply's; records show one attempt each and reservations are unchanged |
| `Admission.RateLimitHolds` | machboost/team.py:774-792 | when readings run back by at most s seconds, no window of 60 − s seconds holds more admissions than the limit |
| `Admission.RateLimitHoldsIff` | machboost/team.py:774-792 | a limit holds in every run for a window length if and only if length and skew are together at most 60 |
| `Admission.DeniedIffMinuteIsFull` | machboost/team.py:776-784 | with a monotone clock a request is rate-limited exactly when the last minute holds the limit |
| `Admission.OutcomeIs` | machboost/team.py:768-792 | with a monotone clock the answer is decided by scope, model, the admissions of the last minute and the open slots, in this order |
| `Admission.RunKeepsHistory` | machboost/team.py:776-791 | the deque is the end of the admissions, and what left it is a minute older than the latest reading |
| `Admission.ConcurrencyLimitHolds` | machboost/team.py:785-797 | in every run the active count is the number of open slots and within the limit |
| `Admission.ExitNeverClamps` | machboost/team.py:795-797 | leaving an open slot never meets the clamp at zero |
| `Admission.TeamAdmissionController.constructor` | machboost/team.py:757-766 | nothing is active and no admission is on record |
| `Admission.TeamAdmissionController.Enter` | machboost/team.py:768-792 | entering is the step function, with denials in the order scope, model, rate, concurrency; a request without scope or model changes nothing, any other one prunes even when denied |
| `Admission.TeamAdmissionController.Exit` | machboost/team.py:795-797 | leaving closes the slot and lowers the count |
| `VisionTokens.TargetIsLeastCovering` | machboost/vision_tokens.py:384-392 | the target is the least positive number of whole buckets that covers count times ratio, or all tokens |
| `VisionTokens.TokenTargetIsLeastCovering` | machboost/vision_tokens.py:384-392 | the same from a count and a ratio; of no tokens none are kept |
| `VisionTokens.FactorIsLeastCell` | machboost/vision_tokens.py:395-399 | the factor is the least f ≥ 1 with f²·ratio ≥ 1; ratios outside (0, 1] are refused |
| `VisionTokens.ContiguousSegments` | machboost/vision_tokens.py:402-412 | each index gets the number of gaps before it |
| `VisionTokens.SameSegmentIffAdjacent` | machboost/vision_tokens.py:402-412 | two indices share a segment exactly when no index between them is missing |
| `VisionTokens.GroupPositions` | machboost/vision_tokens.py:225-237 | the groups partition the positions by key, each in order, and in order of first position |
| `VisionTokens.DetailGroups` | machboost/vision_tokens.py:286-336 | preserves the shortest prefix of the ranking, less single-token groups, that meets the target; nothing when one token a group suffices |
| `VisionTokens.OvershootIsBounded` | machboost/vision_tokens.py:326-336 | the count kept is at most target + largest group − 2 |
| `VisionTokens.KeptVisualLength` | machboost/vision_tokens.py:246-255 | the tokens retained are as many as the groups promise |
| `VisionTokens.VisualTokenIsKeptIff` | machboost/vision_tokens.py:246-255 | a visual token is kept if and only if its group is preserved or it is the group's first |
| `VisionTokens.KeepAll` | machboost/vision_tokens.py:257 | the sorted list is strictly increasing and holds exactly all text and the retained tokens, among them one of every group |
| `VisionTokens.DestinationsIncrease` | machboost/vision_tokens.py:263-275 | merged rows go to strictly increasing, hence distinct, output slots |
| `VisionTokens.IndexMap` | machboost/vision_tokens.py:246-284 | the positions kept, and for exactly the groups not preserved the slot of their first token |
| `VisionTokens.ModeNamed` | machboost/vision_tokens.py:35-40 | a name stands for a mode exactly when, without blanks and case, it is that mode's name; no name means off |
| `VisionTokens.ModeNamedIff` | machboost/vision_tokens.py:35-40 | the names taken for a mode are its name in any case with any white space around it, and for off also no name |
| `Text.WhiteSpaceIs` | machboost/vision_tokens.py:35 | white space is what Python strips: 29 characters |
| `VisionTokens.PostFusionVisionModel.constructor` | machboost/vision_tokens.py:14-21 | the defaults, with no policy and no counts |
| `VisionTokens.PostFusionVisionModel.Configure` | machboost/vision_tokens.py:26-61 | mode, ratio, layer and bucket are checked in this order and the first bad one is the error; settings and policy are taken and the counts reset exactly when all are in range, and otherwise nothing changes |
| `VisionTokens.PostFusionVisionModel.Layout` | machboost/vision_tokens.py:223-237 | tokens are grouped by run, frame and square cell of the least factor |
| `VisionTokens.PostFusionVisionModel.Compress` | machboost/vision_tokens.py:175-284 | all of this for a whole sequence: fewer than four visual tokens are untouched; otherwise target ≤ kept ≤ max(groups, target + largest − 2) in adaptive and random mode and one a group in others |
| `VisionTokens.PostFusionVisionModel.Forward` | machboost/vision_tokens.py:84-173 | a pass is compressed once or not at all, at the layer promised; no text is lost, the counts balance, and a mode with a target meets it; its injections and compression come in the order stated, with as many states as there then are |
| `VisionTokens.FusedFirstIff` | machboost/vision_tokens.py:127-146 | no injection follows compression if and only if there is one layer or some layer has none; the masks of all injections fit if and only if that holds or compression dropped nothing |
| `VisionTokens.LateInjection` | machboost/vision_tokens.py:127-146 | with two layers that both inject, for every setting, the second injection follows compression |
| `Ordering.SortKeeps` | machboost/vision_tokens.py:257 | sorting keeps the elements, and distinct ones come out strictly increasing |
| `Video.RoundedIsNearest` | machboost/video.py:269 | rounding is to the nearest integer, and on a tie to the even one |
| `Video.UniformSteps` | machboost/video.py:268-271 | neighbouring choices are different frames, although ties round to even |
| `Video.UniformFrames` | machboost/video.py:259-271 | min(count, max) frames, strictly increasing, from the first to the last |
| `Video.FinalFrameIsKeptIff` | machboost/video.py:241-255 | the last frame is chosen if and only if the budget is at least two or it is the only frame |
| `Video.RankedKeeps` | machboost/video.py:251-254 | ranking by falling score, then index, keeps the frames |
| `Video.SelectTemporalFrames` | machboost/video.py:231-256 | only candidates, sorted, within budget, all of them if they fit, the boundaries kept, and no inner candidate dropped that outranks a kept one; the error for a budget below one |
| `Compaction.ExpandItems` | machboost/compaction.py:7-38 | the loop expands every item in order, and fails exactly when an envelope cannot be restored |
| `Compaction.ExpandsIff` | machboost/compaction.py:12-38 | expansion succeeds if and only if every envelope among the items has our tag and version, a summary that is not blank, and items that are no envelopes or triggers |
| `Compaction.ExpansionKeepsTriggers` | machboost/compaction.py:12-38 | expansion leaves exactly the triggers there were, and nothing only of nothing |
| `Compaction.TriggeredIff` | machboost/compaction.py:41-50 | compaction is asked for if and only if the last item is the only trigger and the request streams; any other trigger is an error |
| `Compaction.GatheredItems` | machboost/compaction.py:53-63 | what is compacted: the expanded items behind the instructions, with each error exactly when the input deserves it |
| `Compaction.GatheredWords` | machboost/compaction.py:8-9 | a text is one message of the user |
| `Compaction.StreamDropsTheLast` | machboost/compaction.py:54-57 | when streaming, the last item, or the last character of a text, is left out |
| `Compaction.ExpandedAppend` | machboost/compaction.py:12-38 | expansion goes item by item, so histories can be joined before or after |
| `Compaction.StripTwice` | machboost/compaction.py:22-82 | a summary stripped into an envelope is still not blank when read back |
| `Compaction.Prepare` | machboost/compaction.py:53-74 | tool state, system and developer messages, items that show more than text, and the last four items are retained; everything else, and nothing else, is summarized; or the error the input deserves |
| `Compaction.SelectKeepsEssentials` | machboost/compaction.py:64-73 | the retained items hold every essential item in order, and the older ones none |
| `Compaction.OnlyOldTalkIsSummarized` | machboost/compaction.py:64-73 | summarized are exactly the items before the last four that are not essential, in order; retained are exactly the others, in order |
| `Compaction.RecentItemsAreKept` | machboost/compaction.py:71 | the last four items are retained, at the end |
| `Compaction.EnvelopeExpands` | machboost/compaction.py:77-83 | an envelope restores its summary, as the labelled assistant message, and exactly its items |
| `Compaction.BlankSummaryIsRefused` | machboost/compaction.py:77-79 | an envelope is refused exactly when its summary is all white space |
| `Compaction.PreparedEnvelopeExpands` | machboost/compaction.py:53-83 | whatever was prepared, its envelope with a non-blank summary expands without error |
| `Compaction.RoundIsTriggered` | machboost/compaction.py:41-50 | the trigger at the end of a streaming round is recognized, and only then |
| `Compaction.RoundKeepsEssentials` | machboost/compaction.py:7-83 | one round never fails and keeps tool items, instructions and visuals, old and new, in order |
| `Compaction.RoundsKeepEssentials` | machboost/compaction.py:7-83 | the same over any number of rounds, with each round's instructions put before |
| `Compaction.GivenItemsSurvive` | machboost/compaction.py:7-83 | tool state, system and developer messages and items that show more than text, given at any time, are there after all rounds |
| `Compaction.InstructionsSurvive` | machboost/compaction.py:59-74 | the instructions of every round survive all later rounds |

## Left out

- Drafter.CorpusDrafter.Candidates: the score is the exact rational suffix + length/100; its rounding to a double, which may order two equal scores differently around the boundary of 101 tokens, is not modelled.
- Decoding.BoostedService.Generate: the upper bounds on target calls are stated for services with a span verifier only, because the black-box fallback does not count a final call that returns nothing (`machboost/core.py:213-217`); the elapsed-time fields of the statistics are left out.
- Scheduler.ReplicaPool.Arrive: the replica preferred by a key is any index, in place of a SHA-256 digest; queue-wait times are left out; condition polling is any interleaving of enabled steps.
- Thinking.SplitUndoesRendering: markers to be removed may stand anywhere in the parts, but the plain text between them must not itself begin or complete one, and no newline follows an opening or closing marker. For a newline there `ChunksMatterIff` and `ChunksMatterForWholeIff` settle what happens, the latter for closing markers that do not start with a newline themselves.
- Admission.RateLimitHoldsIff: limits are fixed per key during a run, and are at least one, as the key store demands (`machboost/team.py:130-133`).
- VisionTokens.TargetIsLeastCovering: count times ratio is an exact real; the float product may round up to the next integer.
- Video.UniformFrames: the quotient rounded is an exact rational, not a double.
- Failover.ChosenHasLeastDelay: the counts are read at once; in the code a release or a one-value call may change them between rescoring and reserving.
- Compaction.OnlyOldTalkIsSummarized: an item whose type is present but no text, null for one, is represented by one with an unknown type, which the code treats alike; only a missing type makes an item a message.
- Compaction.EnvelopeExpands: an envelope's payload is the value its JSON text decodes to; writing and parsing JSON are not modelled.
- Probe caching and averaging, and the host catalogue: network replies are any values.
- VisionTokens.PostFusionVisionModel.Forward: the cache has one entry a layer; what the layers compute is left out, with the report of `info`.
- Tensor values, softmax weights, norms and the shuffle of the visual-token code: any ranking of the groups.
- Frame extraction and change scores: any sequence of scores.
- The vision cache, SQLite stores, HTTP server, clients, benchmarks, adapters and user interfaces: input and output, timing, or plain lookup.
