# Verified models of Octo's alerting, runtime, directory and tokens

This project models four parts of Octo in Dafny and proves what they promise, for every input and
every interleaving.

- **Alerting** (`observability/internal/alerting`). A watch is built into conditions, planned into
  coalesced fetches, judged over gap-preserving series, combined in three-valued logic and fed to
  the flap-control machine. Files: `Verdicts`, `FetchKeys`, `Queries`, `SeriesGrid`, `SeriesBuffer`,
  `PodStatistics`, `Stats`, `Wilson`, `Conditions`, `Locality`, `Watches`, `Planning`, `Coalescing`,
  `SharingFails`, `Firing`, `Episodes`, `Incidents`.
- **The runtime's shared state** (`runtime`). The buffered tracer and the handover between service
  generations are state machines over their goroutines' atomic steps; message bodies live on an
  explicit heap. Files: `Tracer`, `TracerRuns`, `Bodies`, `BodyHeap`, `Messages`,
  `MessageRuns`, `Handover`.
- **The user directory** (`iam/internal/user`). The two tables change statement by statement, with
  one advisory lock; the operations are also given alone, with their answers. Files: `Directory`,
  `UserRepo`, `LikeSearch`, `Paging`, `Cursors`, `Listing`.
- **Signing keys and tokens** (`iam/internal/signing`, `iam/internal/auth`). Files: `Keyset`,
  `Renewal`.

`Options`, `Sorting` and `Trimming` hold shared shapes. `dafny verify dfyconfig.toml` checks everything.

## Conventions

- Instants and durations are whole nanoseconds from the epoch. Floating point is modelled over the
  reals; the square root is a function of which each property names the one radicand it needs to be
  a root at. Where the code divides by zero the quotient is an explicit infinity or not-a-number,
  compared as IEEE 754 compares it.
- Case folding is one unspecified function per character. Signatures verify under their own key
  only, fresh ids are distinct, and the definition hash is compared, never computed.
- A schedule is any sequence of moves; one that cannot be taken where it is scheduled changes
  nothing, so a property of every schedule is a property of every interleaving.
- History is remembered in fields whose comment says so (`gone`, `entered`, `calm`, `used`,
  `founded`, `log`, `origin`, `bornAt`); no step's effect on the rest depends on them.
- A condition's step is a whole number of milliseconds, because the store keeps steps in whole
  seconds (`observability/internal/alerting/store/record.go:48`).

## Where the code and its comments part

The code is followed in each case, and the difference is stated as a lemma or named here.

- A watch with a hold of more than one evaluation that fires again right after one clean verdict is
  moved back to pending, keeps its incident id, and later opens a second incident over it
  (`observability/internal/alerting/state.go:129-139`). The alternation of openings and endings is
  proved for exactly the steps that do not do this (`Incidents.DisciplineExactly`).
- Parking a firing watch whose definition will not build leaves its incident open in the same way
  (`observability/internal/alerting/store/store.go:303-322`).
- Conditions that differ only in reach are coalesced into one fetch
  (`observability/internal/alerting/query.go:65-69`). For pod statistics where a read begins decides
  its tier, the pods it totals and a counter's first growth, so sharing can change an answer. When it
  does is `Coalescing.SharedAlikeExactly`; four watches in which it does are in `SharingFails`.
- The spike's score divides by a scale that can be zero. With no movement in the baseline, no floor
  and a metric that does not count things, an unchanged observation scores not-a-number, which no
  gate stops (`observability/internal/alerting/spike.go:190-219`).
- The guard band separates an observation from its own baseline only when it is at least a window
  less one bucket wide (`observability/internal/alerting/spike.go:180-181`).
- Keys are never deleted nor left out by age, though comments say they are
  (`iam/internal/signing/repo.go:63-70`, `iam/internal/signing/service.go:219-222`).
- What is queued when the tracer drains for the last time need not be all there will be
  (`runtime/core/trace.go:275-277`): it is exactly when Close found no publisher at work
  (`TracerRuns.CloseLosesTrackExactly`). A failed flush is logged but not counted, though its
  comment says it is counted (`runtime/core/trace.go:345-352`).
- The last-administrator check assumes that what it saw cannot change before its write, but a grant
  takes no lock (`iam/internal/user/repo.go:358-378`, `iam/internal/user/repo.go:432-436`).
- Readiness can be reopened after shutdown closed it, exactly when an announcer is already past its
  second look (`runtime/octo/runcmd.go:215-224`, `Handover.LateReadyExactly`).

## Model

| member | source | states |
|---|---|---|
| `Verdicts.Combine` | observability/internal/alerting/alerting.go:191-213 | The early-returning fold with its unknown flag is the three-valued verdict of the list, for every combinator and list, the empty and the unrecognised one included. |
| `Verdicts.CombinedIsSupervaluation` | observability/internal/alerting/alerting.go:172-213 | A combined verdict is true (false) exactly when every way of answering the unknowns with booleans makes the ordinary all/any true (false). |
| `Verdicts.ResolvingNeverFlips` | observability/internal/alerting/alerting.go:172-213 | Learning what an unknown was never flips a verdict already reached. |
| `Verdicts.CombinedIgnoresOrder` | observability/internal/alerting/alerting.go:191-213 | The order conditions were written in does not change the verdict. |
| `FetchKeys.QuoteCancels` | observability/internal/alerting/query.go:39-48 | A quoted text can be read back off the front of any longer text, for arbitrary strings with quotes, separators and control characters in them. |
| `FetchKeys.ScopeKeyExact` | observability/internal/alerting/query.go:39-48 | Two scopes render the same key exactly when they agree on every field, levels and pods compared up to order. |
| `FetchKeys.CollectKeys` | observability/internal/alerting/query.go:104-111 | The sorted key list of a label map. |
| `FetchKeys.RenderScope` | observability/internal/alerting/query.go:39-48 | The builder loop writes exactly the specified key. |
| `Queries.DurationTextInjective` | observability/internal/alerting/query.go:76-80 | The rendered step determines the step, for every step a watch may have. |
| `Queries.QueryKeyExact` | observability/internal/alerting/query.go:70-80 | Two queries share a fetch exactly when source, metric, aggregate, step and rows selected agree, whatever an operator typed into any of them. |
| `Queries.RenderKey` | observability/internal/alerting/query.go:76-80 | The key as it is rendered is the specified one. |
| `SeriesGrid.Known` | observability/internal/alerting/series.go:63-77 | The known values of a range, in order, whatever the bounds. |
| `SeriesGrid.SumDenominator` | observability/internal/alerting/series.go:82-96 | The sum of the known denominators of a range, whatever the bounds. |
| `SeriesGrid.Reduce` | observability/internal/alerting/series.go:105-157 | Every reduction of a window: sums, mean, the least and the greatest element, and the refusals of an empty window and of a ratio. |
| `SeriesGrid.RollingRatio` | observability/internal/alerting/series.go:201-225 | A ratio over a stretch counts only buckets that have both halves, and is unknown below the sample floor or over nothing. |
| `SeriesGrid.Rolling` | observability/internal/alerting/series.go:170-195 | Each bucket of the rolled series is the statistic of the window that ends with it, or unknown. |
| `SeriesGrid.AlignDown` | observability/internal/alerting/series.go:235-245 | The latest multiple of the step that is not after the instant. |
| `SeriesGrid.BucketCountOfMultiple` | observability/internal/alerting/series.go:266-271 | A span of n steps has n buckets. |
| `SeriesBuffers.SeriesBuffer.constructor` | observability/internal/alerting/series.go:279-282 | A new grid is all unknown and as long as its span. |
| `SeriesBuffers.SeriesBuffer.Set` | observability/internal/alerting/series.go:305-310 | One bucket changes, or none when the index is outside. |
| `SeriesBuffers.SeriesBuffer.SetRatio` | observability/internal/alerting/series.go:314-323 | Both halves of one bucket change, the second column allocated on first use. |
| `SeriesBuffers.SeriesBuffer.FillZeros` | observability/internal/alerting/series.go:331-339 | Unknown buckets, and only those, become zero. |
| `SeriesBuffers.SeriesBuffer.ScanBucket` | observability/internal/alerting/source/source.go:127-158 | A row is written to the bucket its start falls in, or nowhere; a ratio row only when it has both halves. |
| `SeriesBuffers.Fetch` | observability/internal/alerting/source/source.go:85-119 | What a SQL fetch returns is a stretch of the store's own buckets: gaps stay unknown except where absence is an observation, and the span changes nothing but reach. |
| `PodStatistics.Decode` | observability/internal/podstats/query.go:110-206 | Rows replayed oldest first, a counter's last reading in hand, make the points each row makes by itself: growth since the row before, unknown over a gap and in the oldest row read, the newest five thousand kept. |
| `PodStatistics.BucketSamples` | observability/internal/alerting/source/podstats.go:178-191 | The map from bucket to samples holds, for every bucket of the grid, the points whose instant falls in it, in order. |
| `PodStatistics.Rebucket` | observability/internal/alerting/source/podstats.go:121-175 | The loops over series and buckets fill the grid with the two-stage reduction: each series by the query's aggregate, then across those that report, a sum only when every one does; nothing is filled in. |
| `PodStatistics.ReadsGrow` | observability/internal/podstats/service.go:237-342 | A read that begins earlier finds the later one's series and after them only series of pods last seen long before, with no row in the later span. |
| `PodStatistics.PodReadingFromEarlier` | observability/internal/alerting/source/podstats.go:121-175 | What a bucket reads in a longer read of the same tier, exactly: what it reads in a shorter one, except that a sum is unknown whenever some series has a row in the longer span and none in the shorter. |
| `PodStatistics.RefusedExactly` | observability/internal/alerting/source/podstats.go:27-114 | What a read of pod statistics is refused for, both ways: a scope it cannot ask or a pod on which too much matches; or too coarse, when there are more pods than one read carries or one of those read is kept more coarsely, in the tier its beginning calls for, than the watch steps. |
| `PodStatistics.InsideIsServed` | observability/internal/podstats/service.go:324-342 | A read inside every pod's live reach, at a step no finer than they are scraped, is served, and live. |
| `PodStatistics.TotalKnownExactly` | observability/internal/alerting/source/podstats.go:158-175 | A total is known exactly in the buckets every series with rows in the span has a value in. |
| `Stats.ComputeMAD` | observability/internal/alerting/stats.go:62-73 | Median and median absolute deviation, the deviations filled in a loop. |
| `Stats.MedianIsRobust` | observability/internal/alerting/stats.go:42-53 | With more than half of a sample in [a, b] the median is there, for odd and even lengths. |
| `Stats.MADIsRobust` | observability/internal/alerting/stats.go:62-73 | And the deviation is at most b - a, whatever the rest of the sample reads. |
| `Stats.HalfIsNotRobust` | observability/internal/alerting/stats.go:42-53 | A bare half is not enough: the median can be moved as far as one likes. |
| `Stats.ScalePositive` | observability/internal/alerting/stats.go:90-96 | The scale a score divides by is positive exactly when history moved, the metric counts things, or a floor was set; a counting metric's is at least one. |
| `Wilson.WilsonInterval` | observability/internal/alerting/stats.go:122-133 | The ends are the two roots of the interval's equation, ordered around the observed rate inside [0, 1], so neither clamp bites. |
| `Wilson.WilsonMirrors` | observability/internal/alerting/stats.go:122-133 | Counting failures instead of successes mirrors the interval. |
| `Wilson.WilsonTightens` | observability/internal/alerting/stats.go:122-133 | At one rate, more trials never lower the lower end nor raise the upper. |
| `Conditions.EvaluateThreshold` | observability/internal/alerting/threshold.go:96-177 | The threshold's evaluation, ratio and plain, with every undecided and no-data exit, is the specified judgement. |
| `Conditions.EvaluateSpike` | observability/internal/alerting/spike.go:150-219 | The spike's evaluation with its three gates is the specified judgement, the division by a zero scale included. |
| `Conditions.EvaluateAbsence` | observability/internal/alerting/absence.go:82-116 | The absence scan and its baseline count are the specified judgement. |
| `Locality.ThresholdIsLocal` | observability/internal/alerting/threshold.go:96-177 | A threshold says the same on a series that reaches further back or on. |
| `Locality.SpikeIsLocal` | observability/internal/alerting/spike.go:150-202 | So does a spike, observation, baseline and samples alike. |
| `Locality.AbsenceIsLocal` | observability/internal/alerting/absence.go:82-116 | So does an absence. |
| `Locality.JudgedAlikeOnWider` | observability/internal/alerting/condition.go:137-187 | Judged on any longer stretch of the same buckets, a condition's whole outcome is what it is on the stretch it asked for. |
| `Watches.Build` | observability/internal/alerting/watch.go:98-116 | A definition builds exactly when it validates, its ids are distinct and every condition builds; what is built is every condition, in order, none skipped. |
| `Watches.NewCondition` | observability/internal/alerting/condition.go:90-122 | A built condition has its defaults in force, reduces as its metric allows, and keeps its step. |
| `Watches.Watch.HoldEvaluations` | observability/internal/alerting/watch.go:74-83 | The hold over the interval, rounded up, and never below one. |
| `Planning.Plan` | observability/internal/alerting/watch.go:169-187 | One fetch per distinct key, in order of first mention, each spanning exactly the union of what its conditions asked for. |
| `Planning.FetchAll` | observability/internal/alerting/runner.go:252-260 | One result per planned query, filed under its key, and nothing else; for pod statistics what it holds, and whether it is refused, depends on where the query begins. |
| `Planning.EvaluateOne` | observability/internal/alerting/watch.go:236-255 | A condition's outcome from what its key found: unavailable when nothing or a failure was found, and the watch's own reading of no data otherwise. |
| `Planning.Evaluate` | observability/internal/alerting/watch.go:204-229 | The evaluation a watch's outcomes amount to: verdict, status, matches, degradation and window. |
| `Planning.MatchesDecide` | observability/internal/alerting/watch.go:218-226 | The verdict is true exactly when all conditions matched under all, and when one did under any. |
| `Coalescing.RefusalsExactly` | observability/internal/alerting/source/podstats.go:27-114 | Two fetches of one selection meet the same refusal exactly when, begun where they begin, the index of pods has the same one in store for both. |
| `Coalescing.SharedAlikeExactly` | observability/internal/alerting/watch.go:158-187 | A shared fetch gives a condition what its own would exactly when the index refuses both beginnings alike, and, where it refuses neither, no bucket that every series of the own span has a value in loses its total to a series with rows only before that span; both read from one tier, with no live counter scraped at the very instant the span begins. |
| `Coalescing.InsideReachSharesAlike` | observability/internal/alerting/watch.go:158-187 | Inside the live reach of every pod, without a total and without a counter scraped as the condition's span begins, sharing changes nothing. |
| `Coalescing.TablesAreAlike` | observability/internal/alerting/source/source.go:85-119 | Spans and log lines are always shared without a difference. |
| `Coalescing.SharedFetchAnswersAlike` | observability/internal/alerting/watch.go:158-187 | Given the same readings or the same refusal, a condition's whole outcome is the same, however much further back the shared fetch reaches. |
| `Coalescing.AnyCutIsJudgedAlike` | observability/internal/alerting/series.go:235-302 | So it is on any series cut from the fetch's own readings, however it was filled in. |
| `Coalescing.BlankedAnswer` | observability/internal/alerting/source/podstats.go:167-175 | A blanked total is answered by the watch's reading of no data, or no by an absence, whatever the pods report. |
| `Coalescing.RefusalsNeverFlip` | observability/internal/alerting/source/podstats.go:88-114 | Where sharing can only refuse, a verdict the watch still reaches is the one its conditions reach alone. |
| `Coalescing.RunWatch` | observability/internal/alerting/runner.go:197-260 | A whole evaluation, from plan to verdict, is each condition judged on its own query begun as early as any that shares its key, folded once; equal to every condition fetching for itself when sharing changes nothing for any, and never another verdict when it can only refuse. |
| `SharingFails.LongBaselineIsRefused` | observability/internal/alerting/source/podstats.go:93-114 | A threshold that fires alone is left undecided by a sibling that looks one bucket past the live tier. |
| `SharingFails.RollupsAnswerOtherwise` | observability/internal/podstats/service.go:331-342 | With rollups as fine as the step the same threshold is judged on them instead, and says no. |
| `SharingFails.GonePodSilences` | observability/internal/alerting/source/podstats.go:167-175 | A total that fires alone says no once a sibling's longer span holds a row of a pod since replaced, no data being taken for health. |
| `SharingFails.BoundaryGrowthIsLost` | observability/internal/podstats/query.go:137-190 | A counter scraped at the instant a span begins has no growth there, and has in a longer span: the threshold fires shared and not alone. |
| `SharingFails.AskedIsBuilt` | observability/internal/alerting/condition.go:90-122 | The conditions of these four are what the service builds from their definitions. |
| `Firing.BoundIsConservative` | observability/internal/alerting/stats.go:135-144 | A proportion that passes its threshold on the interval's bound passes it on the point estimate, for all four operators. |
| `Firing.RatioFiresOnItsPoint` | observability/internal/alerting/threshold.go:135-177 | A ratio threshold that fires shows an observation past the threshold, on enough trials and samples. |
| `Firing.EvidenceNeverSilences` | observability/internal/alerting/threshold.go:126-177 | More trials at the same rate never withdraw an alarm. |
| `Firing.SpikeFiresExactly` | observability/internal/alerting/spike.go:190-233 | A spike fires exactly when the change is at least z scales, at least the floor, and large enough in proportion, also when the scale is zero. |
| `Firing.UnchangedFiresExactly` | observability/internal/alerting/spike.go:190-233 | The exact condition under which an observation equal to its baseline's median is called a spike. |
| `Firing.FlatSpendingFires` | observability/internal/alerting/spike.go:85-119 | Built from a definition that names nothing but its direction and judged on a span in which nothing was ever spent, a spike in spending fires. |
| `Firing.CountsNeedRealChange` | observability/internal/alerting/spike.go:109-115 | A counting metric fires only on a change of at least its floor and of its z. |
| `Firing.AbsenceFiresExactly` | observability/internal/alerting/absence.go:82-116 | An absence fires exactly when nothing in its window reported while enough of what came before did. |
| `Firing.GuardSeparatesExactly` | observability/internal/alerting/spike.go:165-182 | The guard keeps the observation's buckets out of its own baseline exactly when it is at least a window less one wide. |
| `Episodes.StreakIsLongestTail` | observability/internal/alerting/state.go:124-203 | What the three counters count: parkings aside, the longest tail of evaluations of the current definition with one verdict. |
| `Episodes.StateIsHistory` | observability/internal/alerting/state.go:97-218 | After any run of evaluations, edits, retirements and parkings the counters are those streaks, the watch is firing exactly when a hold was met and nothing since ended the episode, pending exactly during a hold, and invalid exactly while parked. |
| `Episodes.OneStreakRuns` | observability/internal/alerting/state.go:124-203 | After an evaluation exactly the verdict's own counter is above zero. |
| `Episodes.ActionsAreHistory` | observability/internal/alerting/state.go:97-218 | When each action is asked for, both ways: open, repeat, resolve at the second clean verdict in a row, close at the thirtieth undecided one or at an edit. |
| `Episodes.OpeningHasItsHold` | observability/internal/alerting/state.go:129-140 | An opening has a full hold of firing verdicts of its own definition behind it. |
| `Incidents.DisciplineExactly` | observability/internal/alerting/state.go:124-218 | A recorded step continues the alternation of openings and endings, with exactly the held incident open, unless it demotes a firing watch or parks one; those two always break it. |
| `Incidents.RunsAlternate` | observability/internal/alerting/store/record.go:92-117 | Over whole runs without such a step the actions read (Open Repeat* (Resolve or Close))* and the open incidents are the one held while firing. |
| `Incidents.FiringAtOnceIsClean` | observability/internal/alerting/state.go:124-218 | Any run without parking, of watches with a hold of one evaluation and ids of their own, alternates openings and endings with exactly the held incident open. |
| `Incidents.CleanExactlyAtHoldOne` | observability/internal/alerting/state.go:129-140 | Every run of a watch's evaluations is like that exactly when its hold is a single evaluation. |
| `Incidents.LongerHoldsOrphan` | observability/internal/alerting/state.go:129-140 | Every longer hold has a run that leaves an incident open which the state no longer names. |
| `Incidents.ParkingOrphans` | observability/internal/alerting/store/store.go:303-322 | So does parking a firing watch whose definition would not build. |
| `Incidents.SecondOpeningNeedsAPause` | observability/internal/alerting/state.go:124-145 | For any hold, two openings with no ending between them have an evaluation between them that did not fire. |
| `Tracer.MovePlaces` | runtime/core/trace.go:208-343 | Every atomic step moves a number from one place to another; only a new stamp adds one. |
| `TracerRuns.RunIsSound` | runtime/core/trace.go:208-352 | Every invariant below holds in every interleaving of any number of publishers, the drain and the closer. |
| `TracerRuns.EveryNumberIsAccountedFor` | runtime/core/trace.go:208-343 | Each sequence number is in exactly one place, and the counters, the queue and what is in someone's hand add up to the last number. |
| `TracerRuns.NoNumberTwice` | runtime/core/trace.go:303-343 | No number is handed to the sink twice. |
| `TracerRuns.StreamIsInQueueOrder` | runtime/core/trace.go:251-308 | Records reach the sink in the order they were queued, none skipped: written, in hand, still waiting. |
| `TracerRuns.MarkersAddUp` | runtime/core/trace.go:310-327 | Each drop marker announces a loss and the running total of those announced, which is what the drain remembers. |
| `TracerRuns.SinkIsLeftFlushedAndClosedLast` | runtime/core/trace.go:227-294 | The sink is closed once and last, and the drain never blocks or ends without having flushed what it wrote. |
| `TracerRuns.CloseLosesTrackExactly` | runtime/core/trace.go:208-294 | From the moment Close begins: in every schedule an ended drain leaves nothing queued and no drop unannounced, exactly when every publisher was between its calls. |
| `TracerRuns.CalmCloseLosesTrackOfNothing` | runtime/core/trace.go:275-294 | When it was so, every record queued was handed on in order and the counters and markers add up to the last number. |
| `TracerRuns.CaughtRecordIsStranded` | runtime/core/trace.go:147-151 | And it need not be so: a schedule from a fresh tracer closes everything with a record still queued. |
| `TracerRuns.EndedDrainStrands` | runtime/core/trace.go:147-151 | And then it stays there. |
| `TracerRuns.ClosingEnds` | runtime/core/trace.go:229-294 | Once publishing is closed no schedule keeps finding work for longer than what is left to do. |
| `TracerRuns.OnlyFinishedIsStill` | runtime/core/trace.go:229-245 | Nothing is left to do only when the drain has ended, the sink is closed and every publisher has returned. |
| `Bodies.DenotesFrame` | runtime/types/bodycopy.go:5-22 | What a body reads as depends on its own containers and on nothing else. |
| `Bodies.WriteReplaces` | runtime/types/message.go:337-352 | A write to one container of a tree, of a value or of nothing, changes exactly that slot of what the tree reads as. |
| `BodyHeap.Heap.CopyBodyAt` | runtime/types/bodycopy.go:35-68 | The walk ends on any heap, cyclic ones included, and disturbs nothing; within the cap it returns an equal tree of containers that are all new. |
| `BodyHeap.Heap.CopyContainer` | runtime/types/bodycopy.go:45-64 | The loop over one container's slots. |
| `Messages.Message.Shallow` | runtime/types/message.go:358-374 | Everything but the body is the copy's own. |
| `Messages.Message.Clone` | runtime/types/message.go:303-310 | The copy reads the same and shares no container with any message. |
| `Messages.Message.Scoped` | runtime/types/message.go:330-335 | The copy reads the same, both sides are marked, and every message goes on reading what it read. |
| `Messages.Message.Reported` | runtime/types/message.go:207-215 | A scoped copy without the internal variables; the receiver keeps all of its own. |
| `Messages.Message.MutableBody` | runtime/types/message.go:346-352 | A body no other message shares, reading what it read, after one copy at most. |
| `Messages.Message.SetBody` | runtime/types/message.go:391-394 | The body is replaced by a value nobody else holds, and the raw mode left. |
| `Messages.Message.SetRawBody` | runtime/types/message.go:128-134 | The body becomes a fresh container of the raw shape, which reads back as what was set. |
| `Messages.Message.RawBody` | runtime/types/message.go:157-174 | The raw payload, only in raw mode and only in its shape. |
| `Messages.Message.Write` | runtime/types/message.go:93-101 | A write through an unshared body, setting a slot or removing it, changes the writer's reading in that slot and no other message's at all. |
| `MessageRuns.ReplacedIsPut` | runtime/types/message.go:337-352 | In a tree, writing to the container a path leads to changes what the body reads as at that path alone. |
| `MessageRuns.PerformAll` | runtime/types/message.go:93-394 | Over any sequence of clones, scopes, reports, replacements by any value, raw contents and writes or removals of any value anywhere, on any number of messages, every message reads as if no body had ever been shared. |
| `Keyset.KeyTable.Current` | iam/internal/signing/repo.go:47-61 | The last to retire of the keys that have not, or none when all have. |
| `Keyset.KeyTable.Rotate` | iam/internal/signing/repo.go:100-148 | Returns a key unretired at the caller's own clock, installing the generated one only when every key has retired by it. |
| `Keyset.KeysNeverOverlap` | iam/internal/signing/repo.go:90-148 | In any interleaving with any clock readings the keys' signing intervals do not overlap, and no key ever goes away. |
| `Keyset.RacersShareOneKey` | iam/internal/signing/repo.go:93-119 | Two replicas that both found no key install one between them. |
| `Keyset.NewService` | iam/internal/signing/service.go:66-91 | The configuration in force has an issuer trimmed for joining, an audience and a key lifetime longer than a token's. |
| `Keyset.IssuerOf` | iam/internal/signing/service.go:66-71 | The issuer in use begins with no space and ends in no slash. |
| `Keyset.TokenOutlivesOneRotationAtMost` | iam/internal/signing/service.go:84-141 | By the time a second key follows the one that signed a token the token has expired, unless more time passed between choosing the key and stamping the token than a key outlives a token by. |
| `Keyset.Verify` | iam/internal/signing/service.go:162-236 | The checks in order, every key it is given tried. |
| `Keyset.VerifyToken` | iam/internal/signing/service.go:162-184 | A token is judged by every key the table holds, published newest first. |
| `Keyset.MintedVerifiesExactly` | iam/internal/signing/service.go:108-210 | A minted token is accepted exactly from the skew before its issue to the skew after its expiry in whole seconds, expired after, not ours before, however many rotations follow (sections 4.1.4 to 4.1.6 of RFC 7519). |
| `Directory.ConsistentKept` | iam/internal/user/repo.go:69-454 | Every statement of every transaction keeps subjects and addresses unique, grants on existing rows, and what the lock's holder has established. |
| `Directory.RunIsConsistent` | iam/internal/user/repo.go:69-454 | So does every interleaving of them. |
| `Directory.InstallIsConsistent` | iam/internal/user/repo.go:69-454 | From an empty install every interleaving is consistent. |
| `Directory.AdminsForGood` | iam/internal/user/repo.go:411-454 | A platform with an administrator has one for good, through any interleaving, exactly when no removal is waiting to write whose target is the only one. |
| `Directory.CheckedWithAdminIsSafe` | iam/internal/user/repo.go:411-454 | A removal whose check ran while there was an administrator leaves one for good. |
| `Directory.DoomIsReachable` | iam/internal/user/repo.go:249-266 | And such a state can be reached. |
| `Directory.FoundedAtMostOnce` | iam/internal/user/repo.go:162-198 | From an empty install a stranger becomes the administrator at most once, ever, and no removal can be waiting to undo it. |
| `Directory.SubjectIsForGood` | iam/internal/user/repo.go:136-160 | A subject once written stays on its row. |
| `Directory.SubjectResolvesForGood` | iam/internal/user/repo.go:69-160 | A subject resolves to the same account, and no other, until that row is deleted, through any interleaving. |
| `UserRepo.Repo.Admit` | iam/internal/user/repo.go:69-198 | What a sign-in answers and leaves behind in each case, as a run of the interleaved tables' own statements. |
| `UserRepo.Repo.CreateAccount` | iam/internal/user/repo.go:208-223 | Provisioning by address, refused when it is taken. |
| `UserRepo.Repo.UpdateProfile` | iam/internal/user/repo.go:228-244 | A profile corrected, the subject untouched. |
| `UserRepo.Repo.GrantRole` | iam/internal/user/repo.go:358-378 | A role granted, twice being once whoever grants it; to nobody, or by nobody, refused by name. |
| `UserRepo.Repo.RevokeRole` | iam/internal/user/repo.go:382-409 | A role taken away, never the last administrator's. |
| `UserRepo.Repo.RemoveUnderLock` | iam/internal/user/repo.go:249-266 | A deletion or a revocation under the lock: refused for the last administrator, and exactly what it removes otherwise. |
| `LikeSearch.EscapedMatches` | iam/internal/user/cursor.go:58-63 | An escaped text matches only itself, up to case, and leaves the rest to the rest of the pattern. |
| `LikeSearch.SearchFindsExactly` | iam/internal/user/repo.go:316-322 | The search pattern matches exactly the texts the search occurs in, up to case folding, for all searches and texts (section 8.5 of ISO/IEC 9075-2). |
| `LikeSearch.UnescapedFindsMore` | iam/internal/user/cursor.go:58-63 | What the escape is there to prevent: a bare wildcard finds every text that is not empty. |
| `Paging.SelectsExactly` | iam/internal/user/repo.go:302-325 | The rows a listing selects. |
| `Paging.List` | iam/internal/user/repo.go:332-349 | One page and its cursor, from one row more than was asked for. |
| `Paging.PageSize` | iam/internal/user/service.go:91-104 | A page size within bounds, an allowed one unchanged. |
| `Paging.TraversalIsFaithful` | iam/internal/user/repo.go:295-349 | Whatever happens between requests, rows come in order, none twice, and every row there throughout is among them. |
| `Paging.PresentThroughoutIsListedOnce` | iam/internal/user/repo.go:295-349 | A person who matches throughout is listed exactly once. |
| `Paging.StableTraversal` | iam/internal/user/repo.go:295-349 | On a table nobody touches the pages are the whole listing, end after exactly as many as it takes, and never in an empty one. |
| `Cursors.Base64RoundTrip` | iam/internal/user/cursor.go:25-41 | Decoding undoes encoding for every byte string (section 5 of RFC 4648). |
| `Cursors.TimestampRoundTrip` | iam/internal/user/cursor.go:25-49 | Parsing undoes formatting for every instant of the years 0 to 9999, to the nanosecond. |
| `Cursors.CursorRoundTrip` | iam/internal/user/cursor.go:25-56 | A cursor says again exactly where the page it came from ended. |
| `Listing.CursorsFollow` | iam/internal/user/repo.go:295-349 | Rendering each cursor and reading it back between requests, none is refused and the pages are the traversal above. |
| `Handover.RunIsOrderly` | runtime/octo/runcmd.go:169-347 | The invariants below hold in every interleaving, watched or not. |
| `Handover.SettledIsSettled` | runtime/octo/runcmd.go:300-310 | Once a generation has settled nothing it announces can land. |
| `Handover.BetweenGenerationsNothingServes` | runtime/octo/runcmd.go:233-336 | Between generations every hosted service has last been told that nothing runs, and readiness says no. |
| `Handover.ReadyHasItsAnnouncer` | runtime/octo/runcmd.go:210-228 | Readiness was opened by the current generation's announcer, which has not settled since. |
| `Handover.LateReadyExactly` | runtime/octo/runcmd.go:210-228 | Once a generation is cancelled, or the process told to stop, some schedule opens readiness again before the next generation exactly when the announcer is past its second look. |
| `Handover.ReadyCanFollowDraining` | runtime/octo/runcmd.go:75-78 | So readiness can be opened again after shutdown has closed it, until the generation settles. |
| `Handover.AnnouncerLeaves` | runtime/octo/runcmd.go:300-307 | A cancelled generation's announcer can always step and is soon gone, so settling does not wait in vain. |
| `Renewal.BuildRoles` | iam/internal/auth/access.go:43-55 | The roles of a list of grants, refused exactly when one of them is unlisted. |
| `Renewal.ReadAccess` | iam/internal/auth/access.go:62-72 | The listed grants whose roles a token carries, in order, however the table yields them. |
| `Renewal.RolesForMembers` | iam/internal/auth/access.go:31-55 | A machine token carries the runtime's role and those of its grants, and no others. |
| `Renewal.AccessSurvives` | iam/internal/auth/access.go:57-72 | Reading access back off a token finds what was granted, up to order and repetition. |
| `Renewal.RolesSurvive` | iam/internal/auth/access.go:57-72 | And minting from what was read back carries the same roles. |
| `Renewal.FilterRoles` | iam/internal/auth/service.go:136-141 | The key's roles its owner may still hand on, filtered in a loop. |
| `Renewal.DelegableMembers` | iam/internal/auth/service.go:112-146 | A key's token carries only what the key names and its owner may hand on now. |
| `Renewal.CheckLoan` | iam/internal/auth/access.go:76-83 | A loan is allowed exactly when its owner could hand on every role in it. |
| `Renewal.Service.ExchangeToken` | iam/internal/auth/service.go:88-110 | A sign-in's token. |
| `Renewal.Service.ExchangeKeyToken` | iam/internal/auth/service.go:119-153 | A key's token or the refusal, an unreadable database being an answer of its own. |
| `Renewal.Service.RefreshToken` | iam/internal/auth/service.go:167-262 | A renewal or the refusal, a machine's renewed as what it was and an unreadable database an answer of its own. |
| `Renewal.Service.MintMachineToken` | iam/internal/auth/service.go:284-395 | A loan to a deployment, its name trimmed, or the refusal. |
| `Renewal.BlankDeploymentIsInvalid` | iam/internal/auth/service.go:284-290 | A name that is all white space is refused as invalid before anything else is asked. |
| `Trimming.TrimSpaceExactly` | iam/internal/auth/service.go:287 | Trimming takes white space from both ends and nothing else. |
| `Renewal.DeploymentsReachWhatTheyWereLent` | iam/internal/auth/service.go:155-364 | Over every run, a deployment's token traces back to one loan by a token that was no deployment's and carries exactly the runtime's role and the roles lent, however often renewed; one lent on a key carries the runtime's role alone. |
| `Renewal.KeyTokensAreNotRenewed` | iam/internal/auth/service.go:193-200 | A token exchanged for a key is never renewed. |
| `Renewal.LoansAreDelegable` | iam/internal/auth/service.go:299-312 | A person's loan carries nothing they could not have handed on. |

## Left out

- Conditions.EvaluateSpike: rounding, overflow and the other effects of floating-point arithmetic; the judgement is over the reals.
- Wilson.WilsonInterval: the same, and a numerator that exceeds its denominator, which the fetchers never produce.
- Coalescing.SharedAlikeExactly: when the two reads come from different tiers, or a live counter was scraped at the very instant the shorter begins, whether they agree is up to the rows; that they need not is `SharingFails.RollupsAnswerOtherwise` and `SharingFails.BoundaryGrowthIsLost`.
- PodStatistics.Rebucket: the order series are sorted in before they are combined, rows that do not decode, and dictionaries and rows that disagree; all a pod's series share its rows there and here each has its own.
- Planning.FetchAll: a store that answers one way now and another a moment later; a selection is readable or not throughout an evaluation.
- Queries.RenderKey: steps below one second, which a watch may not have, render in other units.
- SeriesBuffers.Fetch: the SQL that computes each bucket.
- Watches.Build: names, severities, labels and the decoding of parameters, and scope checks, which refuse or word things and decide nothing else.
- Episodes.StateIsHistory: what lands between an evaluator's read of a row and its write: another evaluator's read, an edit, a retirement or a parking; here each is recorded whole before the next, a stale evaluation dropped.
- Incidents.RunsAlternate: delivery, cooldown and muting of notifications.
- TracerRuns.EveryNumberIsAccountedFor: wrap-around of the 64-bit counters, and the records' own content.
- BodyHeap.Heap.CopyBodyAt: past the depth cap, and for values outside the body contract, the JSON round trip is not modelled and the value is handed back shared.
- Messages.Message.Write: the rest of an array moving up when an element goes, slices that share a backing array, and values nested in variables, which copies share by design.
- MessageRuns.PerformAll: bodies nested deeper than a copy goes, and a value the caller goes on writing to after handing it over.
- Messages.Message.SetRawBody: the multipart variant with its third key, and decoding a body from bytes.
- Keyset.KeyTable.Rotate: the sealing of private keys, and the microsecond resolution of the stored horizons.
- Keyset.MintedVerifiesExactly: ECDSA and the token's serialisation; a signature is the name of the key that made it.
- Directory.AdminsForGood: failures of the database itself, and malformed ids; row locks only as far as they keep an adopted row from being rewritten.
- Paging.TraversalIsFaithful: roles and other columns a listed row carries, and ids as anything but ordered numbers.
- LikeSearch.SearchFindsExactly: foldings that change a text's length.
- Cursors.CursorRoundTrip: line breaks inside base64, zones other than UTC and other spellings of a UUID, which decoding also accepts.
- Handover.RunIsOrderly: loading configuration, starting and stopping hosted services, and a service that never exits.
- Identity-provider tokens, API key storage and hashing, HTTP handlers and wire shapes: input and output.
- Agent memory, queues, topics, language-model blocks, editors and deployment tooling: not part of this model.
