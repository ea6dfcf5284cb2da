# Verified models of the qualification tooling

The repository ships a set of scripts that decide whether a release of the `jul` reverse proxy is
fit to ship: a gate that measures the test coverage of newly added lines, a judge for long soak
runs, a metrics recorder with its readers, load generators with shared counters, and a lab that
builds a network topology on a host and takes it down again. This project models the core of those
scripts in Dafny and proves what they promise.

Code that works by updating state is modelled as classes and methods with loops, each proved
against a specification function; concurrent code is a state machine over its atomic steps, and the
results hold for every interleaving; the theorems are lemmas about the specifications.

| file | models |
|---|---|
| `Text.dfy` | whitespace, digit runs and decimal numbers as the diff tools use them |
| `LineBreaks.dfy` | splitting text into lines, and writing it line by line |
| `MovedLines.dfy` | the filter that drops moved lines from a zero-context diff |
| `AddedCoverage.dfy` | how the coverage scorer reads added lines from the filtered diff |
| `RawDiff.dfy` | both diff tools on text |
| `CoverageScore.dfy` | merging coverage profiles and the final score |
| `DiffGate.dfy` | both tools together, on diffs built from their meaning |
| `SoakTrend.dfy` | the least-squares slope |
| `SoakContract.dfy` | the acceptance contract of a soak run |
| `SoakVerdict.dfy` | what a passing soak run is, by quantifiers over its samples and events |
| `SoakReview.dfy` | the review that merges supplementary samples |
| `MetricRecorder.dfy` | the dictionary-compressed metrics recorder |
| `MetricReaders.dfy` | the Python reader of a recording |
| `MetricSummary.dfy` | the Go summarizer of a recording |
| `Tally.dfy` | sums over sequences and maps |
| `LatencyExtremes.dfy` | the lock-free minimum and maximum of the gRPC load tool |
| `RequestMix.dfy` | the arithmetic of the request mix |
| `F1Run.dfy` | workers and held streams of the F1 load run |
| `LoadWindow.dfy` | the one-second reporting window of the fault load tool |
| `LabTopology.dfy` | setup and teardown of the lab topology |
| `CpuRate.dfy` | average and peak CPU rate over samples |
| `HistoricalSections.dfy` | blanking historical Markdown sections |
| `WsClose.dfy` | the WebSocket reader that waits for a Close frame |

## Where the code and its promises part

Nine promises do not hold on every input. Each has a concrete counterexample and the exact
condition under which it does hold.

- The diff tools take an added line whose content starts with `++ ` for a file header
  (`DiffGate.PlusPlusIsMisread`).
- They split lines at form feeds and other characters that git leaves inside a line
  (`DiffGate.FormFeedIsMisread`, `LineBreaks.SplittingRecoversIff`).
- A file with a space in its path is not scored, and one whose path git quotes is scored under
  the file before it (`DiffGate.SpacedPathIsNotScored`, `DiffGate.QuotedPathIsScoredElsewhere`,
  `DiffGate.NamedRightIff`). Together with the two before, `DiffGate.DiffIsReadRightIff` says
  exactly when every added line is read right.
- A removed line whose content starts with `--` is not counted as a removal
  (`DiffGate.DashesAreNotMatched`, `DiffGate.OneForOneExactlyWithoutDashes`).
- The requests that are not excluded split 7 : 1 : 2 exactly when the excluded percentage is a
  multiple of ten (`RequestMix.FivePercentBreaksTheSplit`, `RequestMix.SplitIsSevenOneTwoIffTens`).
- With lenient reading, a window's average CPU rate can exceed the peak when samples lack the
  counter or come out of time order (`CpuRate.AHoleCanHideThePeak`, `CpuRate.DisorderCanHideThePeak`,
  `CpuRate.LenientBoundHoldsIff`).
- A heading inside a historical section can stay unblanked after a nested historical heading
  (`HistoricalSections.NestedHistoryIsUncovered`,
  `HistoricalSections.MaskingIsContainmentIffNoNestedExit`).
- The WebSocket reader ignores extended lengths and the mask bit, and can report a Close frame the
  stream does not hold (`WsClose.LongMessageReadAsClose`, `WsClose.StopsAreFrameEndsIff`).
- The lab's teardown reports children that could not be stopped, but a whole run stops them once
  before the teardown and drops the errors, so its report never shows them
  (`LabTopology.StuckChildIsNotReported`, `LabTopology.RunLab`).

## Model

| member | source | states |
|---|---|---|
| MovedLines.FlushLines | scripts/strip_moved_lines.py:32-37 | a pending run of additions is written as one hunk header with its true start and length, then its lines |
| MovedLines.CountRemoved | scripts/strip_moved_lines.py:25-27 | the multiset of stripped, non-blank removed texts |
| MovedLines.StripToken | scripts/strip_moved_lines.py:40-61 | one pass of the rewriting loop advances the in-place state as the step function does |
| MovedLines.StripTokens | scripts/strip_moved_lines.py:28-63 | the rewriting loop prints exactly the pieces of the specification |
| MovedLines.StripMoved | scripts/strip_moved_lines.py:23-63 | the whole filter, from raw lines |
| MovedLines.MatchHunkOfHeader | scripts/strip_moved_lines.py:20-35 | the hunk pattern reads back the start that the printer wrote, for every start and count |
| MovedLines.LexOfHunkHeader | scripts/strip_moved_lines.py:35-49 | a printed header is recognised as a hunk, never as an addition or a file header |
| MovedLines.SurvivorCount | scripts/strip_moved_lines.py:50-58 | greedy matching keeps, per text, the additions in excess of the removals; blank additions all stay |
| MovedLines.RunTracks | scripts/strip_moved_lines.py:28-62 | at every point of the loop the pieces so far hold the surviving additions so far |
| MovedLines.KeepsExactlyTheSurvivors | scripts/strip_moved_lines.py:23-63 | exactly the surviving additions are kept, in order |
| MovedLines.KeepsTheExcess | scripts/strip_moved_lines.py:23-63 | re-reading the printed output gives exactly the survivors, so each non-blank text keeps max(0, added - removed) copies, for every input text |
| MovedLines.StrippingTwiceChangesNothing | scripts/strip_moved_lines.py:23-63 | the filter is idempotent on every input |
| LineBreaks.SplittingRecoversIff | scripts/strip_moved_lines.py:24 | text written line by line, with either ending, splits into those lines if and only if none holds one of the characters the splitter divides at |
| RawDiff.StripDiff | scripts/strip_moved_lines.py:23-63 | the filter from text to text |
| RawDiff.OutputSplitsIntoItsLines | scripts/strip_moved_lines.py:63 | for every text, splitting what the filter wrote gives exactly its output lines |
| RawDiff.StrippingTextTwiceChangesNothing | scripts/strip_moved_lines.py:23-63 | the filter is idempotent on every text, character by character |
| RawDiff.ScorerReadsTheTextOfTheFilter | scripts/check-added-go-coverage.py:41-52 | across both tools and for every text: per Go production file, the scorer reads exactly the line numbers of the surviving additions, and never fails |
| AddedCoverage.ReadAdded | scripts/check-added-go-coverage.py:41-52 | the reading loop fills the dictionary of added line numbers, or fails, as the specification says |
| AddedCoverage.MarkOfHunkHeader | scripts/check-added-go-coverage.py:49-52 | the scorer's own, looser pattern reads back both numbers of a header printed by the filter |
| AddedCoverage.RunAgrees | scripts/strip_moved_lines.py:39-62 | at every point the filter's line counter and a plain reading of the diff agree on file and number of each addition |
| AddedCoverage.ScanOfPrint | scripts/check-added-go-coverage.py:41-52 | scanning a printed output equals scanning its pieces |
| AddedCoverage.ScorerReadsTheSurvivingNumbers | scripts/check-added-go-coverage.py:41-52 | across both tools and for every diff text: per Go production file, the scorer reads exactly the line numbers of the surviving additions, and never fails |
| CoverageScore.MergeProfile | scripts/check-added-go-coverage.py:55-68 | the loop over one profile adds its executions to the blocks that touch added lines |
| CoverageScore.MergeProfiles | scripts/check-added-go-coverage.py:53-68 | the executions of all profiles, per block |
| CoverageScore.MergeOrderDoesNotMatter | scripts/check-added-go-coverage.py:53-68 | the merge depends only on the multiset of profile lines, not on their order or division into profiles |
| CoverageScore.SumStatements | scripts/check-added-go-coverage.py:76-77 | the sum of the statement counts of a set of blocks |
| CoverageScore.ScoreProfiles | scripts/check-added-go-coverage.py:53-79 | a score holds exactly the covered and total statement sums, the measured files and the uncovered blocks, and means that every changed file exists and none has instrumented added code without a measured block; a rejection names such a file, and a failure to read means a missing file or a number past its end |
| CoverageScore.FindCode | scripts/check-added-go-coverage.py:72 | in whatever order the numbers come: code is found, or every line was looked at and is none, or some number is past the end of the file |
| CoverageScore.CoveredAndUncoveredAddUp | scripts/check-added-go-coverage.py:76-79 | covered statements and those of the blocks listed as uncovered add up to the total |
| CoverageScore.GateFailsUnderTheFloor | scripts/check-added-go-coverage.py:78-90 | the exit code is a failure exactly when something is measured and the covered share is under the floor |
| CoverageScore.MoreProfilesCoverMore | scripts/check-added-go-coverage.py:53-78 | more profiles never lower the measured, total or covered sums, and covered never exceeds total |
| DiffGate.ReadingIsReal | scripts/strip_moved_lines.py:39-61 | on diffs without `++ ` lines whose files are scored under their own names, every added line is seen in its file at its true number |
| DiffGate.DiffIsReadRightIff | scripts/strip_moved_lines.py:24-60 | from the text git writes, with either line ending: every added line is seen whole, in its file and at its number, if and only if no added line holds a line-breaking character or starts with `++ ` and every file with added lines is scored under its own name |
| DiffGate.LinesAreReadRightIff | scripts/strip_moved_lines.py:39-61 | the same on lines |
| DiffGate.ReadingSeesEveryLine | scripts/strip_moved_lines.py:39-61 | whatever the names, on diffs without `++ ` lines every added line is seen at its true number under the name the scorer goes by |
| DiffGate.NamedRightIff | scripts/check-added-go-coverage.py:43-48 | files with added lines are scored under their own names if and only if each name has no space and is printed unquoted, or is quoted and happens to be the name read last before it |
| DiffGate.SpacedPathIsNotScored | scripts/check-added-go-coverage.py:43-46 | counterexample: git ends the header of `a b.go` with a tab, so the file is not taken for Go and its new line is not scored |
| DiffGate.QuotedPathIsScoredElsewhere | scripts/check-added-go-coverage.py:43-52 | counterexample: a new line in a file whose name git quotes is scored under the file before it |
| DiffGate.FormFeedIsMisread | scripts/strip_moved_lines.py:24 | counterexample: an added line with a form feed is not read whole |
| DiffGate.PlusPlusIsMisread | scripts/strip_moved_lines.py:41-44 | counterexample: an added `++ x` is taken for a file header |
| DiffGate.FilesRemovals | scripts/strip_moved_lines.py:25-27 | the counted removals are those of the diff, less removed lines that start with `--` |
| DiffGate.GateReadsTheRealNewLines | scripts/check-added-go-coverage.py:40-52 | end to end, from a structured diff through both tools, under the conditions of a right reading: the Go files scored are those in the diff without a space in their names, each with exactly the true numbers of the lines that are not moves |
| DiffGate.GateReadsWhatItSees | scripts/check-added-go-coverage.py:40-52 | end to end whatever the names: under each Go name read, exactly the true numbers of the unmoved lines seen under it |
| DiffGate.GateReadsTheLines | scripts/check-added-go-coverage.py:42 | from the text git writes, both tools see the lines of the diff |
| DiffGate.GateCountsExactlyTheNewBlocks | scripts/check-added-go-coverage.py:62-68 | end to end: a coverage block counts if and only if a real unmoved added line lies in it |
| DiffGate.OneForOneExactlyWithoutDashes | scripts/strip_moved_lines.py:25-58 | removals cancel additions one for one if and only if no `--` removal has that text or the counted ones already cancel all |
| DiffGate.DashesAreNotMatched | scripts/strip_moved_lines.py:25-27 | counterexample: moving the line `--x` is not recognised |
| SoakTrend.SlopeUndefinedIffTimesCoincide | scripts/ga_soak_contract.py:63-64 | the slope is refused if and only if all times coincide |
| SoakTrend.TrendAtMost | scripts/ga_soak_contract.py:58-65 | if no interval rises faster than a rate, neither does the fitted slope, however long the series |
| SoakTrend.TrendAtLeast | scripts/ga_soak_contract.py:58-65 | if every interval rises at least at a rate, so does the fitted slope |
| SoakTrend.TrendIsExactOnAffineData | scripts/ga_soak_contract.py:58-65 | on affine data the slope is exact |
| SoakTrend.TrendIsOfTheBestLine | scripts/ga_soak_contract.py:58-65 | the slope belongs to a line through the means whose squared error is at most that of any line |
| SoakContract.CheckPhases | scripts/ga_soak_contract.py:82-94 | the loop over the required phases yields exactly the phase errors |
| SoakContract.CheckQuiet | scripts/ga_soak_contract.py:97-110 | the loop over the quiescent samples yields exactly their errors |
| SoakContract.CheckResources | scripts/ga_soak_contract.py:113-141 | growth, ceiling, trend, cardinality and quiescence errors, and the case where the slope raises |
| SoakContract.EvaluateRun | scripts/ga_soak_contract.py:144-151 | the whole verdict of a run |
| SoakContract.NoGapMeansCovered | scripts/ga_soak_contract.py:89-91 | without an excessive gap every window of that length holds a success, even when the times are out of order |
| SoakContract.GapExceedsIffSomeWindowIsUncovered | scripts/ga_soak_contract.py:89-91 | for times of one phase in order, also past the last sample, the check rejects if and only if some window of the run is uncovered |
| SoakContract.PassingCoversEveryPhaseWindow | scripts/ga_soak_contract.py:144-151 | a passing run has a success of every required phase in every 90-second window |
| SoakContract.PassingCoversEverySampleWindow | scripts/ga_soak_contract.py:68-79 | a passing run has a sample in every 25-second window |
| SoakContract.SteadyTailPassesTheTrend | scripts/ga_soak_contract.py:133-136 | a tail that never grows faster than 16 MiB per hour has no trend error |
| SoakContract.LeakingTailFailsTheTrend | scripts/ga_soak_contract.py:133-136 | a tail that always grows faster than the limit is always rejected |
| SoakContract.SteadyRunIsNotRejectedForItsTrend | scripts/ga_soak_contract.py:125-141 | the same through the tail selection of a whole run: no steady run gets a trend error |
| SoakVerdict.PassesIffSound | scripts/ga_soak_contract.py:144-151 | for every run in which each required phase reports in order, however the phases overtake each other and whatever comes after the last sample: it passes if and only if it was on time, every required phase recurred in every 90 seconds without a failure, and resources stayed near the warm-up, said by quantifiers over samples and events |
| SoakVerdict.NoTimingErrorsIffOnTime | scripts/ga_soak_contract.py:68-79 | no timing error if and only if sampled from start to end, often enough, strictly increasing, no pause over 25 seconds |
| SoakVerdict.NoPhaseErrorsIffCovered | scripts/ga_soak_contract.py:82-94 | no phase error if and only if no event failed and every required phase succeeds in every 90-second window of the run |
| SoakVerdict.NoResourceErrorsIffSteady | scripts/ga_soak_contract.py:97-141 | no resource error if and only if each active and quiescent sample is within its limits of some warm-up sample, and ceiling, trend and series count hold |
| SoakReview.SortedKeeps | scripts/ga-soak-review.py:115 | the merged samples are a sorted permutation |
| SoakReview.TimingStaysClean | scripts/ga-soak-review.py:114-118 | merging supplementary samples adds no timing error and keeps the measured time |
| SoakReview.ResourcesStayCollectable | scripts/ga-soak-review.py:114-118 | after merging only growth, ceiling, trend or cardinality can newly fail, never quiescence, and the slope never raises |
| SoakReview.SupplementOnlyAffectsCollection | scripts/ga-soak-review.py:43-119 | for every run that failed only on its sample count and every valid supplement: measured time and phases unchanged, evaluation completes, no other kind of error |
| MetricRecorder.SortedKeys | scripts/soak-scrape.go:187-191 | exactly the scraped names, strictly ascending |
| MetricRecorder.Collector.constructor | scripts/soak-scrape.go:142-164 | an empty dictionary, no scrapes, the header written |
| MetricRecorder.Collector.AddNames | scripts/soak-scrape.go:186-203 | new names get the next indices in order and are announced in one line, known names stay where they are |
| MetricRecorder.Collector.Fill | scripts/soak-scrape.go:204-210 | whatever the map iteration order, the vector holds each finite value at its name's index and nothing elsewhere |
| MetricRecorder.Collector.Observe | scripts/soak-scrape.go:165-212 | one scrape, successful or not, advances the recorder as the specification does |
| MetricRecorder.IndexGrowsInjectively | scripts/soak-scrape.go:186-198 | over every run the dictionary stays injective, only grows, and holds exactly the names seen |
| MetricReaders.PlaceNames | scripts/sharing_f1_lab.py:3222-3225 | the padding loop places each announced name at its index |
| MetricReaders.ParseSamples | scripts/sharing_f1_lab.py:3211-3236 | the reader as it runs |
| MetricReaders.ParserRecoversTheRun | scripts/sharing_f1_lab.py:3211-3236 | round trip over every run: the reader recovers exactly the finite values of each successful scrape, the names, and the error and gap counts |
| MetricReaders.PrefixDecodesToAPrefix | scripts/sharing_f1_lab.py:3211-3236 | any prefix of the lines decodes to a prefix of the samples |
| MetricReaders.LinesSoFarHoldAPrefixOfTheRun | scripts/sharing_f1_lab.py:3211-3236 | the lines a recorder has written at any point decode to a prefix of the true samples |
| MetricReaders.SeriesAreAnnouncedBeforeUse | scripts/soak-scrape.go:186-211 | no vector uses an index before its name is announced |
| MetricReaders.AttemptsAndGapsAddUp | scripts/soak-scrape.go:161-185 | attempts are successes plus errors, and a gap is logged exactly for neighbouring successes more than two intervals apart |
| MetricSummary.SummarizeRecording | scripts/soak-scrape.go:383-452 | the summarizer's scan loop as it runs |
| MetricSummary.AddVector | scripts/soak-scrape.go:421-438 | the inner loop updates the statistics of the present entries only |
| MetricSummary.StatIsExact | scripts/soak-scrape.go:425-437 | count, first, last, minimum and maximum are those of the series, with the instants the extremes were first reached |
| MetricSummary.SummaryIsFaithful | scripts/soak-scrape.go:368-452 | over every run the summary states the recorder's own totals and, per series, the statistics of exactly its finite values |
| MetricSummary.CutRecordingSummarizesAPrefix | scripts/soak-scrape.go:390-455 | a recorder killed between any two lines: the summary shows the sample count, errors, instants and per-series statistics of exactly the scrapes up to some point; gap count, gap time and names are those of these scrapes, or also have the pause before the next one and its names in |
| LatencyExtremes.EveryRunKeepsTheInvariant | scripts/grpc-load.go:184-205 | the invariant of the two compare-and-swap loops holds in every interleaving of any number of workers |
| LatencyExtremes.QuiescentRegistersAreExact | scripts/grpc-load.go:62-69 | when no update is in progress both registers hold the true extremes, and the counters the number and sum |
| LatencyExtremes.ReadingEarlyMissesOnlyRequestsInFlight | scripts/grpc-load.go:184-205 | at any moment, as when the summary is printed while workers still run: a register holds a recorded latency or its initial value, only latencies in flight beat it, and the sum lacks only requests just counted |
| LatencyExtremes.RetriesArePaidForByOthers | scripts/grpc-load.go:188-205 | a failing swap means another worker strictly improved the value; retries never exceed the others' successful swaps |
| RequestMix.AnyHundredIsAlike | scripts/burn-in-load.go:1541-1567 | any hundred consecutive sequence numbers are shared like the first hundred |
| RequestMix.SharesAreExact | scripts/burn-in-load.go:1541-1567 | any number of hundreds gives each class exactly its share, and excluded requests their percentage |
| RequestMix.SplitIsSevenOneTwoIffTens | scripts/burn-in-load.go:1545-1566 | the rest splits 7 : 1 : 2 if and only if the excluded percentage is a multiple of ten |
| RequestMix.FivePercentBreaksTheSplit | scripts/burn-in-load.go:1545-1566 | counterexample: with five percent excluded any hundred splits 65 : 10 : 20 |
| F1Run.EveryRunKeepsTheInvariant | scripts/burn-in-load.go:1372-1690 | the counters, class and phase statistics and stream counts stay consistent in every interleaving of workers and held streams |
| F1Run.JoinedRunAddsUp | scripts/burn-in-load.go:1535-1692 | after the join: class counters sum to the numbers drawn, totals differ by at most one request per worker, statistics agree, violations and transport errors are each accounted for once, every opened stream is closed |
| F1Run.JoinedRunHasTheExactMix | scripts/burn-in-load.go:1541-1567 | after the join each class counter is the exact share of the numbers drawn, whatever the interleaving |
| F1Run.ActiveStreamsAreThoseOpenedAndNotClosed | scripts/burn-in-load.go:1438-1453 | at every moment the active count differs from opened minus closed by the streams between two updates, and is exact if and only if there are none |
| F1Run.StreamBetweenIsReached | scripts/burn-in-load.go:1438-1439 | such a moment is reached: after two moves one stream is opened, none active, none closed |
| F1Run.ReadyFileMeansAllStreamsEstablished | scripts/burn-in-load.go:1439-1442 | the ready file is triggered at most once, and then every held stream is established at the same time |
| LoadWindow.Counts.Increment | scripts/fault-load.go:53-56 | one more for the key, the total grows by one |
| LoadWindow.Window.Add | scripts/fault-load.go:48-58 | every request counts once, as an error or as a status with its latency |
| LoadWindow.Window.Drain | scripts/fault-load.go:60-66 | hands the maps over and starts fresh ones, so later requests cannot reach a drained batch |
| LoadWindow.Reporter.Request | scripts/fault-load.go:48-58 | a worker's outcome lands in the open window while a drained batch is still being merged |
| LoadWindow.Reporter.Drain | scripts/fault-load.go:219-220 | the batch that waits is exactly what the window held, and the window is empty |
| LoadWindow.Reporter.Merge | scripts/fault-load.go:221-234 | the drained batch is added to the totals and becomes the next reported line |
| LoadWindow.MergeInto | scripts/fault-load.go:223-228 | per key the sum of both maps, whatever the iteration order |
| LoadWindow.SumCounts | scripts/fault-load.go:226-229 | the sum of a drained map |
| LoadWindow.RunLoad | scripts/fault-load.go:215-250 | over any interleaving of requests, drains and merges, then the final flush: the totals state all outcomes, the outcomes split into consecutive parts, one per reported line, each line has exactly the statuses, errors and latencies of its part, and the window is empty |
| LabTopology.VerifyNoCollisions | scripts/sharing_f1_lab.py:164-197 | the check, refusing at the first kind of collision, passes if and only if nothing the lab would claim exists, and a refusal names exactly what does |
| LabTopology.VacantMeansNoCollisions | scripts/sharing_f1_lab.py:164-197 | what the check establishes is what setup relies on: none of the paths, units and users it will record is there |
| LabTopology.ProcessRegistry.TerminateAll | scripts/sharing_f1_lab.py:63-78 | one error per process that cannot be stopped, and nothing stays registered |
| LabTopology.Lab.constructor | scripts/sharing_f1_lab.py:141-162 | a new lab has nothing on record |
| LabTopology.Lab.CreateRecorded | scripts/sharing_f1_lab.py:202-261 | a created resource goes on record at once, and the lab's own stay apart from the host's |
| LabTopology.Lab.CreateUnit | scripts/sharing_f1_lab.py:299-327 | an installed unit file goes on record by its unit name |
| LabTopology.Lab.SetupNetwork | scripts/sharing_f1_lab.py:199-232 | whichever command fails, everything created is on record and apart from what the host had; on success the whole network is on record |
| LabTopology.Lab.SetupServices | scripts/sharing_f1_lab.py:250-338 | the same for user, binary, directories and units |
| LabTopology.Lab.RemoveUnits | scripts/sharing_f1_lab.py:481-490 | a unit goes off the record only when stopping it and removing its file both succeed |
| LabTopology.Lab.RemoveFirewall | scripts/sharing_f1_lab.py:491-511 | jump and chain leave the record only when their commands succeed |
| LabTopology.Lab.RemoveNetwork | scripts/sharing_f1_lab.py:512-534 | exactly the links, namespaces and bridge whose deletion succeeds are removed and leave the record |
| LabTopology.Lab.RemoveFiles | scripts/sharing_f1_lab.py:535-549 | the same for paths and user |
| LabTopology.Lab.RemoveAll | scripts/sharing_f1_lab.py:475-549 | for every pattern of failing commands: exactly the recorded resources whose commands succeed are removed, exactly the rest stays on record, nothing of the host is touched |
| LabTopology.Lab.Teardown | scripts/sharing_f1_lab.py:475-606 | the report says clean if and only if every registered process stops, every command succeeds and the original host had nothing the inspection mistakes for a leftover; then the host is what it was |
| LabTopology.RunLab | scripts/sharing_f1_lab.py:4810-4854 | from any host, through a setup that may stop at any command, to the teardown: nothing of the host is lost, whatever is left over is on record, clean is reported exactly when every teardown command succeeds and nothing looks like a leftover, and then the host is unchanged; a clean report means that no child is stuck if and only if none is or the report is not clean for another reason |
| LabTopology.StuckChildIsNotReported | scripts/sharing_f1_lab.py:4846-4852 | counterexample: a child that cannot be stopped, and a clean report |
| LabTopology.OnlyOwnedIsRemoved | scripts/sharing_f1_lab.py:481-549 | teardown removes nothing that this run does not own |
| LabTopology.SurvivorsStayOwned | scripts/sharing_f1_lab.py:481-549 | what survives a failed removal is still on record |
| LabTopology.TeardownStaysSeparate | scripts/sharing_f1_lab.py:475-549 | the lab's resources and the host's stay apart whatever fails, so teardown can be repeated |
| LabTopology.NothingRecordedMeansRestored | scripts/sharing_f1_lab.py:475-549 | with nothing on record the host equals the original |
| CpuRate.ComputeAverage | scripts/sharing_f1_lab.py:3270-3291 | the average over the complete samples, with every refusal of strict reading |
| CpuRate.ComputePeak | scripts/sharing_f1_lab.py:3294-3314 | the largest rate of neighbouring complete samples, with every refusal of strict reading |
| CpuRate.StrictPeakExistsIff | scripts/sharing_f1_lab.py:3294-3310 | strict reading yields a peak if and only if there are two or more samples, all complete and in time order |
| CpuRate.AverageNeverExceedsPeak | scripts/sharing_f1_lab.py:3270-3314 | whenever strict reading yields a peak, every window of two or more samples has an average, at most that peak |
| CpuRate.StrictPeakIsSomeAverage | scripts/sharing_f1_lab.py:3270-3314 | the bound is tight: a positive peak is the average of some window |
| CpuRate.LenientBoundHoldsIff | scripts/sharing_f1_lab.py:3277-3314 | for samples in any order, lenient reading keeps every average within the peak if and only if every stretch the peak does not look at was crossed without a rise or no faster than some neighbouring pair |
| CpuRate.DisorderCanHideThePeak | scripts/sharing_f1_lab.py:3305-3309 | counterexample with every counter present: average 10, peak 0 |
| CpuRate.AHoleCanHideThePeak | scripts/sharing_f1_lab.py:3301-3304 | counterexample: average 5, peak 0 |
| HistoricalSections.MaskHistoricalSections | scripts/semantic_drift.py:289-309 | line count kept; a line is emptied exactly when the last historical heading at or before it still governs it, and is otherwise unchanged |
| HistoricalSections.MaskingIsContainmentIffNoNestedExit | scripts/semantic_drift.py:289-309 | masking equals lying in some historical section, for every line, if and only if no nested historical section is left inside an outer one |
| HistoricalSections.BlankedIsContained | scripts/semantic_drift.py:289-309 | no line outside all historical sections is ever emptied |
| HistoricalSections.NestedHistoryIsUncovered | scripts/semantic_drift.py:302-305 | counterexample: a changelog with a historical subsection and a later one |
| WsClose.Conn.ReadFrame | scripts/burn-in-load.go:2272-2283 | two header bytes and as many payload bytes as the seven-bit length says, or a failure that drains the connection |
| WsClose.ReadUntilClose | scripts/burn-in-load.go:2269-2302 | stops at the first frame with the Close opcode, answers or drains, and returns its code; a stream that ends first yields (0, false) and no answer |
| WsClose.ReplyCarriesTheCode | scripts/burn-in-load.go:2289-2294 | the answer is a well-formed masked Close frame whose unmasked payload is the code |
| WsClose.MaskingUndoesItself | scripts/burn-in-load.go:2290-2293 | masking with the same key twice is the identity, for every payload |
| WsClose.ReaderFindsTheClose | scripts/burn-in-load.go:2269-2302 | on any unmasked short frames, then a Close frame, then anything: the reader stops right after that frame with its code |
| WsClose.CutStreamIsNotClosed | scripts/burn-in-load.go:2272-2283 | the same stream cut anywhere before the end of the Close frame is never taken for closed |
| WsClose.StepsOverTheFrameIff | scripts/burn-in-load.go:2275-2283 | the reader steps over a well-formed frame as a whole if and only if it is unmasked and has at most 125 payload bytes |
| WsClose.StopsAreFrameEndsIff | scripts/burn-in-load.go:2269-2302 | for a stream of well-formed frames up to its first Close: the reader's stops are exactly the ends of the frames if and only if all of them are unmasked and short |
| WsClose.LongMessageReadAsClose | scripts/burn-in-load.go:2275-2288 | counterexample: a 126-byte data message read as a Close frame |

## Left out

- Text decoding, JSON, gzip and command lines: apart from the diff tools, which are modelled from text, the models start from lines and records.
- Unicode decimal digits, which the diff tools' `\d` also matches.
- Line-breaking characters in removed lines, paths, hunk headings and extended headers of a diff: `DiffGate.DiffIsReadRightIff` asks that there are none, since what follows such a character may read as anything.
- Normalising the paths in coverage profiles, and running the Go instrumenter or its failure.
- Floating-point rounding: times, rates, metrics and percentages are real numbers.
- The wording of error messages: the soak contract's errors are kept as a set of kinds.
- Samples without a resource metric: the reader of scraped metrics refuses them before the soak contract sees them, so the contract's members require them.
- Digests, identity checks and the retained verdict in the soak review; its log and route report.
- Signals, deadlines, file size limits and the final line of the metrics recorder; a recorder killed in the middle of a line; the summarizer's table of error kinds and its printed output.
- A cut recording in the Python reader: it refuses a compressed file without its trailer and returns nothing, so `MetricReaders.LinesSoFarHoldAPrefixOfTheRun` is about lines, and only the summarizer reads such a file.
- Per-status and per-protocol counters, latency lists, health probes and the event log of the F1 load run; the response oracle enters as an arbitrary verdict.
- Error classification and percentiles of the fault load tool.
- In the lab: commands that fail after half of their effect, the kernel deleting a link together with its namespace, service start-up checks, and the cases run inside the lab beyond changes to resources it owns.
- Samples without a timestamp.
- Failing writes to a WebSocket connection, which the reader ignores.
- The retained-metrics recomputation, probe continuity, manifest reconciliation, provenance checks, HTTP calls and the remaining command-line tools: mostly configuration, string formatting and field-by-field comparison.
