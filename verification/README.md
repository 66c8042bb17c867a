# Verified models of the release, measurement and integration tooling

This project models the Python tooling around sudocode that has to be right without anyone
watching: it publishes releases, decides whether a change is too slow, downloads pinned
binaries, talks to a child process, generates formulas and accounts for tokens. Each component
is a model of what its code does, and theorems about every run of it.

`dafny verify dfyconfig.toml` checks everything.

| files | component |
|---|---|
| `MirrorPayload`, `ReleaseMirror` | the release mirror publisher: payload, stage, promote, over an object store in which any step may be cut short |
| `MirrorHistory`, `MirrorPointer`, `MirrorPromotion`, `MirrorRetry`, `MirrorRollBack` | what holds after any history of publisher runs: safety, the version pointer, the payload behind it, retries, the roll-back |
| `Statistics`, `Assessment` | order statistics, bootstrap bound and verdict of the paired performance gate |
| `Schedule`, `MeasurementRun` | the interleaved measurement schedule and a whole run of the gate |
| `ArchiveDownload`, `InstallerLock`, `InstallerDownload`, `ExtractFile` | the resumable pinned download, the shared cache lock, the download inside the lock, the atomic extractor |
| `RpcClient` | submitters and a reader thread sharing one table of futures |
| `Formula`, `CacheMetrics` | the formula printer with an infix reader, and the formulas it generates |
| `SessionLog`, `SessionHistory`, `RequestHistory`, `TokenLedger`, `RepeatedUsage` | the log analyser, what it records of a session and of a request, its token accounting |
| `OverlapSweep` | the sweep that measures how many test cases ran at once |
| `Wrappers`, `Text`, `Ordering` | shared: options, numerals and separators, counting and sorting |

## How the models are built

**Release mirror.** A run is a version, a prefix, a phase, the local files and a fault for every
step: a step completes, or the run ends before its upload took effect, or just after. A history is
a list of such runs, one after the other. `MirrorPromotion.EveryStateIsAnEnd` proves that every state
within a run is the end of the same run cut off there, so what holds after every history holds at
every step. Different runs may use different local files for one version. The digest is an arbitrary
function: no theorem needs it to be injective.
`Mirror` is the store and the uploads; its methods are proved against `Invoke`, and the theorems
are about histories of `Invoke`.

Some results are about where the code stops doing what it is for:

* The pointer is read back 128 bytes at a time. `MirrorPointer.GuardExact` says precisely which
  pointers the guard protects against every older version: those of at most 128 characters, those
  whose first 128 characters are no version (promotion then refuses), and those with patch number
  zero. Over histories of such versions the pointer never retreats. For every other version, and
  every digest function that has a digest of 64 hexadecimal digits at all,
  `MirrorRollBack.UnprotectedRollsBack` builds four runs without a single fault that move it back.
* The RPC reader looks up `error` first and then `result`. A response whose `error` has no message
  (even a null `error` beside a result), or that has neither field, makes the reader leave with a
  future in its hand that nobody resolves. `RpcClient.ExactlyOnce` shows that this is the only way
  for a future registered before the reader's final drain to stay unresolved, and
  `UnusableResponseDrops` that each such response does it.
* Honoured resumes do not make a download receive each byte once. `ArchiveDownload.ReceivedOnce`
  gives the exact condition: no reply starts over on a nonempty partial file, and no file completed
  with bytes in it fails the pin. A body cut short without a declared length does the latter, as
  `EarlyCloseReceivesMore` shows.
* A partial reply that starts neither at the byte asked for nor at byte 0 may leave a partial file
  that is no prefix of the archive: `ArchiveDownload.PrefixExact`.
* Per-request tokens and session totals of the log analyser differ exactly when a request that was
  reported with tokens is reported again: `RepeatedUsage.TotalsOfRequestsExact`.

**Performance gate.** Measurements are reals. The bootstrap's generator is seeded with a constant
on every call, so the positions it draws depend on the sample length alone; they are an arbitrary
function of it, and every theorem holds for all such functions. A measurement is an arbitrary
function of the binary and the turn, and may fail. `MeasurementRun.Session` runs the stages and is
proved against the declared plan; `SlowerNeverPasses` joins schedule, statistics and verdict.

**Installer.** The server may answer each attempt in any way: refuse, ignore or shift the range,
cut the body short, or take the process with it; and the rename of a good file may fail. Theorems
about prefixes assume an origin that sends true archive bytes, labels its ranges (sections 14.4 and
15.3.7 of RFC 9110) and starts them where it was asked to or at byte 0; the safety theorems assume
nothing. Installers that share a cache are a state machine with any number of processes, each of
which may end at any step; `InstallerDownload` shows that a whole download is steps of that machine, whatever the
others do meanwhile.

**RPC client.** Each critical section, each delivery and the end of the stream is one step; an
interleaving is any list of steps.

**Formulas.** `Formula.Parse` is an independent reader with the usual precedence and left
grouping, so the round trip says what the printed text means to Python and Rust, as long as no name
is a keyword there (`isidentifier` accepts those; the specification uses none).

**Log analyser.** `SessionInfo` objects are updated in place and shown to have the value of a fold
over the log; the theorems are about that fold. Insertion-ordered dictionaries are a list of
distinct keys with a map.

## Model

| member | source | states |
|---|---|---|
| `MirrorPayload.BuildPayload` | scripts/publish_release_mirror.py:34-65 | the loop over manifest lines yields exactly the specified payload, failing where a line fails |
| `MirrorPayload.PayloadMeaning` | scripts/publish_release_mirror.py:34-65 | a local directory is accepted if and only if every manifest line parses, names a distinct `scode` file with the listed digest, and the set is the required one plus at most the optional bundle; the payload is then the files in manifest order, the manifest, the installer |
| `MirrorPayload.AdmitAllMeaning` | scripts/publish_release_mirror.py:37-47 | all lines are admitted if and only if each holds by itself and no name repeats |
| `MirrorPayload.LineMeaning` | scripts/publish_release_mirror.py:38-41 | a line is admitted to parsing exactly when it is 64 hexadecimal digits, two spaces and a name |
| `MirrorPayload.SplitFirstLine` | scripts/publish_release_mirror.py:37 | a line ends with a newline, with a carriage return and a newline together, or with the text |
| `MirrorPayload.PlatformsListed` | scripts/publish_release_mirror.py:48-52 | every accepted release lists the archives of the six platforms and its own package |
| `MirrorPayload.BundleThreshold` | scripts/publish_release_mirror.py:53-64 | an accepted release lists the second Linux bundle and package if and only if its version is 0.2.32 or later |
| `MirrorPayload.ExceedsOrders` | scripts/publish_release_mirror.py:129-131 | unequal versions are ordered one way, transitively |
| `MirrorPayload.ExceedsAsNumber` | scripts/publish_release_mirror.py:129-131 | in any base above their parts the greater version is the greater three-digit number |
| `ReleaseMirror.KeyInjective` | scripts/publish_release_mirror.py:99 | keys of different prefixes, versions or names never collide, whatever the prefixes contain |
| `ReleaseMirror.StripSlashesMeaning` | scripts/publish_release_mirror.py:97 | what is stripped from a prefix is slashes, all of them at either end, and nothing else |
| `ReleaseMirror.Mirror.Upload` | scripts/publish_release_mirror.py:68-78 | an upload with its readback: completed, lost, or effective although the run ends |
| `ReleaseMirror.Mirror.PublishFile` | scripts/publish_release_mirror.py:98-109 | one file of the payload: verified if stored with the local digest, refused if stored with another, uploaded only when absent and only when staging |
| `ReleaseMirror.Mirror.PromoteVersion` | scripts/publish_release_mirror.py:111-143 | the guarded move of the installer and then the pointer |
| `ReleaseMirror.Mirror.PublishFiles` | scripts/publish_release_mirror.py:98-109 | the upload loop: the files in order, up to the first that stops the run |
| `ReleaseMirror.Mirror.RunInvocation` | scripts/publish_release_mirror.py:81-143 | a whole invocation on the live store is the invocation the history theorems are about |
| `ReleaseMirror.StoppedForGood` | scripts/publish_release_mirror.py:98-109 | once a file stops the run, no later file has any effect |
| `MirrorHistory.PayloadOrdered` | scripts/publish_release_mirror.py:34-65 | no listed name shadows the manifest, and all the manifest lists comes before it in upload order |
| `MirrorHistory.KeysApart` | scripts/publish_release_mirror.py:99-136 | keys under `latest/` and under version directories meet only if prefix, directory and name all agree |
| `MirrorHistory.AddSafe` | scripts/publish_release_mirror.py:98-109 | adding an absent versioned object keeps the mirror safe; for a manifest, once all it lists is stored |
| `MirrorHistory.MoveSafe` | scripts/publish_release_mirror.py:134-142 | overwriting a file under `latest/` keeps the mirror safe; for the pointer, once its version is released |
| `MirrorHistory.HistorySafe` | scripts/publish_release_mirror.py:98-142 | after any history of runs of any versions and local files, cut off anywhere: every stored manifest lists a complete set whose artifacts are all stored with the listed digests, and the version under `latest` is absent or one with such a manifest and an installer |
| `MirrorPromotion.PointerPayloadStored` | scripts/publish_release_mirror.py:98-142 | in every reachable state a stored pointer was written by one of the promotions, and the whole validated payload of that run, manifest and installer included, is stored with the digests it checked |
| `MirrorPromotion.WriterVerified` | scripts/publish_release_mirror.py:98-142 | a run that writes the pointer promotes a payload that is then stored with the digests it checked |
| `MirrorPromotion.PromotionOnlyChecks` | scripts/publish_release_mirror.py:98-109 | the upload loop of a promotion stores nothing, and is passed only if every file was stored before with the local digest |
| `MirrorPromotion.PromotionNeedsStaging` | scripts/publish_release_mirror.py:98-143 | a promotion uploads no versioned file, and nothing at all unless its whole payload was stored before with the local digests |
| `MirrorPromotion.CompletedRunProceeded` | scripts/publish_release_mirror.py:93-143 | a run that ends well had no fault at any step it took, and is staged, promoted or left behind as its phase says |
| `MirrorPromotion.BadInputRefused` | scripts/publish_release_mirror.py:93-95 | a bad version or a directory that is not acceptable is refused as such, before anything is stored |
| `MirrorPromotion.ReplacementRefused` | scripts/publish_release_mirror.py:102-103 | a stored file with another digest stops the run as an attempt to replace it, and nothing more is stored |
| `MirrorPromotion.EveryStateIsAnEnd` | scripts/publish_release_mirror.py:98-142 | the store between any two steps of a run is what the same run leaves when the next step is lost |
| `MirrorPromotion.SafeThroughout` | scripts/publish_release_mirror.py:98-142 | after any history the mirror is safe at every step within a further run |
| `MirrorHistory.VersionedObjectsImmutable` | scripts/publish_release_mirror.py:98-108 | a versioned object, once stored, is never changed or removed by any later runs |
| `MirrorPointer.ReadsBack` | scripts/publish_release_mirror.py:120-121 | a pointer file reads back as its version, or its first 128 characters |
| `MirrorPointer.CutVersion` | scripts/publish_release_mirror.py:121-131 | a version cut short, if still a version, differs in its patch number alone and is smaller unless that is zero |
| `MirrorPointer.GuardExact` | scripts/publish_release_mirror.py:112-133 | a pointer protects against every older version if and only if it is short enough, or cut to no version, or has patch number zero |
| `MirrorPointer.GuardProtects` | scripts/publish_release_mirror.py:126-133 | what the guard says about a protected pointer (short enough, or cut to no version, or with patch number zero) is true of its version |
| `MirrorPointer.LongVersionUnprotected` | scripts/publish_release_mirror.py:112-133 | there is an unprotected version, of 135 characters, that lets the older version its first 128 characters spell pass the guard |
| `MirrorPointer.PointerStep` | scripts/publish_release_mirror.py:111-142 | one run and one pointer: unchanged, or written by this run after the guard let it advance; a completed promotion that does not write found a newer one |
| `MirrorPointer.PointerIsLargest` | scripts/publish_release_mirror.py:111-142 | over any history of protected versions (short enough, or cut to no version, or with patch number zero) the pointer is the largest version whose pointer upload took effect, and at least every completed promotion |
| `MirrorPointer.PointerNeverRetreats` | scripts/publish_release_mirror.py:112-133 | whatever protected versions are run later, `latest` stays at the same or a larger version |
| `MirrorRetry.HistoryConsistent` | scripts/publish_release_mirror.py:98-108 | if a release always came from the same files, what is stored of it is what those files hold |
| `MirrorRetry.RetryCompletes` | scripts/publish_release_mirror.py:98-108 | after any interrupted history, a fault-free stage ends fully staged and uploads exactly the absent names, in payload order |
| `MirrorRetry.PromotionCompletes` | scripts/publish_release_mirror.py:98-143 | after any history, a fault-free promotion of a fully staged release uploads no versioned file; it is promoted, or nothing changes because the first 128 characters of the pointer are no version or a larger one |
| `MirrorRetry.UnstagedPromotionFails` | scripts/publish_release_mirror.py:104-106 | a fault-free promotion of consistent files with one absent fails as not fully staged and changes nothing |
| `MirrorRetry.PromotedUnlessAhead` | scripts/publish_release_mirror.py:126-143 | over a protected pointer that can be read it is promoted unless the pointer is ahead of it |
| `MirrorRetry.StageThenPromote` | scripts/publish_release_mirror.py:98-143 | after any history, stage then promote fails exactly when the pointer is too long to be read as a version; otherwise, over a protected pointer, `latest` ends at or past the version |
| `MirrorRetry.RollsBack` | scripts/publish_release_mirror.py:112-142 | an unprotected pointer is moved back by a fault-free promotion of the older release that its first 128 characters name |
| `MirrorRetry.FaultFreeRollBack` | scripts/publish_release_mirror.py:98-143 | given accepted directories for an unprotected version and for the older one it is cut to: from the empty mirror and without faults, releasing the one and then retrying the other moves `latest` back |
| `MirrorRollBack.ManifestReads` | scripts/publish_release_mirror.py:37-41 | a manifest written line by line for a list of artifacts reads as that list |
| `MirrorRollBack.AcceptableExists` | scripts/publish_release_mirror.py:34-65 | for every version there is a local directory that is accepted, with the optional bundle and without, provided some content has a digest of 64 hexadecimal digits |
| `MirrorRollBack.UnprotectedRollsBack` | scripts/publish_release_mirror.py:98-143 | under that proviso alone, every unprotected version has releases whose four runs without fault move `latest` back |
| `MirrorRollBack.RollBackHappens` | scripts/publish_release_mirror.py:98-143 | so some history of four runs without fault does, for any prefix, with a version of 135 characters |
| `Statistics.Rank` | e2e/terminal-resize/benchmark.py:15-16 | the k-th smallest value is at most x exactly when more than k values are |
| `Statistics.QuantileMeaning` | e2e/terminal-resize/benchmark.py:15-16 | a quantile is one of the values, with at least n f of them at or below it and fewer than n f below it |
| `Statistics.QuantileMonotone` | e2e/terminal-resize/benchmark.py:15-16 | raising values pointwise never lowers a quantile |
| `Statistics.MedianMonotone` | e2e/terminal-resize/benchmark.py:162-186 | raising values pointwise never lowers the median |
| `Statistics.MedianBounds` | e2e/terminal-resize/benchmark.py:162-186 | a median lies within any bounds of its values |
| `Statistics.MedianHalves` | e2e/terminal-resize/benchmark.py:162-186 | at most half of the values lie below the median, and at most half above |
| `Statistics.MedianNegated` | e2e/terminal-resize/benchmark.py:162-186 | the median of the negated values is the negated median, so neither of two middle values is preferred |
| `Statistics.MedianShifted` | e2e/terminal-resize/benchmark.py:162-186 | shifting all values shifts the median as much |
| `Statistics.AscendingOfMultiset` | e2e/terminal-resize/benchmark.py:15-16 | the sorted values depend on the multiset of values alone |
| `Statistics.ConfidenceMonotone` | e2e/terminal-resize/benchmark.py:147-151 | raising differences pointwise never lowers the bootstrap bound |
| `Statistics.ConfidenceBounds` | e2e/terminal-resize/benchmark.py:147-151 | the bound lies between the smallest and the largest difference |
| `Statistics.ConfidenceExceeds` | e2e/terminal-resize/benchmark.py:147-151 | the bound exceeds a threshold exactly when at most 199 of the 4000 resampled medians stay within it |
| `Assessment.AssessCase` | e2e/terminal-resize/benchmark.py:157-194 | the inner loop yields the rows of one case and, as failures, those that fail |
| `Assessment.Assess` | e2e/terminal-resize/benchmark.py:154-195 | the two loops yield one row per judged case and metric in report order, and the failing ones among them |
| `Assessment.CellsExact` | e2e/terminal-resize/benchmark.py:156-157 | the rows are for the judged metrics of the cases, all of them and no others |
| `Assessment.CalibrationVerdict` | e2e/terminal-resize/benchmark.py:161-177 | a control is noisy exactly when its median deviation exceeds the absolute allowance and the relative share of its median, else calibrated; the row reports median and P90 of the deviations |
| `Assessment.ComparisonVerdict` | e2e/terminal-resize/benchmark.py:172-193 | a comparison is noisy as its controls are; else over budget exactly when the candidate median exceeds the limit; else regressed exactly when the bound of the differences exceeds the absolute allowance and the relative share of the baseline median; else it passes |
| `Assessment.RowReports` | e2e/terminal-resize/benchmark.py:179-187 | a compared row reports the medians of base, candidate and differences, and the bound |
| `Assessment.LimitDecides` | e2e/terminal-resize/benchmark.py:188-190 | candidate runs all within the limit are never over budget; all beyond it, they are unless the controls are noisy |
| `Assessment.QuietControls` | e2e/terminal-resize/benchmark.py:161-175 | controls that differ by no more than the absolute allowance are never noisy |
| `Assessment.PassesIffNoFailingRow` | e2e/terminal-resize/benchmark.py:306 | the run passes exactly when no row fails |
| `Assessment.RowMonotone` | e2e/terminal-resize/benchmark.py:161-193 | slower candidate runs never make a failing row pass |
| `Assessment.VerdictMonotone` | e2e/terminal-resize/benchmark.py:154-195 | slower candidate runs never turn a failing verdict into a passing one |
| `Assessment.ThresholdDecides` | e2e/terminal-resize/benchmark.py:179-193 | differences all within the threshold are never a regression; differences all beyond it never pass |
| `Assessment.NoiseSymmetric` | e2e/terminal-resize/benchmark.py:159-175 | exchanging the two runs of any A/A pair changes no row |
| `Schedule.ProjectOrdered` | e2e/terminal-resize/benchmark.py:287-291 | one interleaved round gives a case its two observations, or none if the case is done |
| `Schedule.ScheduleProjects` | e2e/terminal-resize/benchmark.py:281-294 | the interleaved schedule gives every case exactly the declared paired samples, in declared order |
| `Schedule.PairedSamplesAt` | e2e/terminal-resize/benchmark.py:64-69 | the declared plan place by place: round r of a stage is two observations, base first if r is even and candidate first if it is odd |
| `Schedule.SidesAlternate` | e2e/terminal-resize/benchmark.py:281-294 | the interleaved schedule runs each case so, round after round in both stages |
| `Schedule.CasesReverse` | e2e/terminal-resize/benchmark.py:287 | in the whole schedule an earlier case of the list comes before a later one in even rounds and after it in odd ones |
| `Schedule.ScheduleTotal` | e2e/terminal-resize/benchmark.py:119-124 | the schedule has exactly `total_samples` turns |
| `MeasurementRun.Session.Sample` | e2e/terminal-resize/benchmark.py:241-275 | one measurement is recorded if and only if it succeeds; calibration runs the base binary on both sides |
| `MeasurementRun.Session.RunPair` | e2e/terminal-resize/benchmark.py:288-294 | both sides of a case in one round, appended base first whatever ran first |
| `MeasurementRun.Session.RunRound` | e2e/terminal-resize/benchmark.py:287-294 | one round over the cases executes its turns up to the first failure |
| `MeasurementRun.Session.RunStage` | e2e/terminal-resize/benchmark.py:281-294 | the rounds of a stage execute the stage's turns and fill its collection alone |
| `MeasurementRun.Session.Calibrate` | e2e/terminal-resize/benchmark.py:281-299 | calibration with its noise verdict |
| `MeasurementRun.Session.Compare` | e2e/terminal-resize/benchmark.py:281-306 | comparison, the check of the record, the final verdict |
| `MeasurementRun.Session.Evaluate` | e2e/terminal-resize/benchmark.py:277-309 | the run is noisy, passed, failed or invalid exactly as measurements and verdicts say, and a judged run recorded the whole plan |
| `MeasurementRun.AfterStageAt` | e2e/terminal-resize/benchmark.py:285-294 | after n rounds a case has its first n declared pairs, base first, and no other case's |
| `MeasurementRun.PairsMeasured` | e2e/terminal-resize/benchmark.py:291-294 | either side of a control and the left of a comparison were measured with the base binary, the right of a comparison with the candidate |
| `MeasurementRun.CompleteRun` | e2e/terminal-resize/benchmark.py:300-304 | a run that executed every turn has recorded, for every case, its paired samples in order and its declared pairs, and `total_samples` in all |
| `MeasurementRun.SlowerNeverPasses` | e2e/terminal-resize/benchmark.py:277-306 | of two complete runs with the same base measurements, the one with the slower candidate does not pass if the other fails |
| `ArchiveDownload.Cache.Fetch` | e2e/terminal-resize/setup_windows.py:107-135 | one request and its reply: what is written, verified, installed or kept, a failed rename included |
| `ArchiveDownload.Cache.OneAttempt` | e2e/terminal-resize/setup_windows.py:106-141 | one pass of the loop, with the decision to give up |
| `ArchiveDownload.Cache.DownloadArchive` | e2e/terminal-resize/setup_windows.py:101-141 | the loop on the live files is the download the theorems are about |
| `ArchiveDownload.OneFirstByte` | e2e/terminal-resize/setup_windows.py:113-114 | the prefix comparison of `Content-Range` cannot confirm an offset other than the one requested |
| `ArchiveDownload.OnlyPinnedBytes` | e2e/terminal-resize/setup_windows.py:121-137 | against any server: returning means the archive has the pinned digest, anything else leaves it as it was, and failing leaves no partial file |
| `ArchiveDownload.ProgressBySize` | e2e/terminal-resize/setup_windows.py:131-134 | an attempt that keeps trying resets the counter exactly if it left the file longer than it was, and else adds one |
| `ArchiveDownload.FailsExactly` | e2e/terminal-resize/setup_windows.py:101-138 | a download fails exactly at the tenth attempt, or at the third in a row that left the file no longer than it was |
| `ArchiveDownload.HonestInstalls` | e2e/terminal-resize/setup_windows.py:101-125 | against a server that resumes as asked, always brings something, and completes a reply by the tenth attempt, the archive is installed |
| `ArchiveDownload.BytesConserved` | e2e/terminal-resize/setup_windows.py:107-135 | every byte received is in the file or was discarded, until a download that fails removes the file |
| `ArchiveDownload.ReceivedOnce` | e2e/terminal-resize/setup_windows.py:111-130 | a successful download received as many bytes as the archive has if and only if no reply started over on a nonempty partial file and no file completed with bytes in it failed the pin |
| `ArchiveDownload.EarlyCloseReceivesMore` | e2e/terminal-resize/setup_windows.py:117-130 | a server of true bytes from which no resume is ever asked for, and three bytes are received for an archive of two |
| `ArchiveDownload.PartialIsPrefix` | e2e/terminal-resize/setup_windows.py:107-132 | against an origin of true bytes whose partial replies start at the byte asked for or at 0, the partial file is a prefix of the archive at every attempt |
| `ArchiveDownload.PrefixExact` | e2e/terminal-resize/setup_windows.py:111-116 | exactly the ranges that start there keep the partial file a prefix, for all archives and all true replies |
| `ArchiveDownload.UnalignedBreaksPrefix` | e2e/terminal-resize/setup_windows.py:111-116 | for every other first byte, an archive and a true reply that leave no prefix |
| `ArchiveDownload.InstallsArchive` | e2e/terminal-resize/setup_windows.py:121-125 | against such an origin a download that succeeds installs the whole archive, if no proper prefix of it has its digest |
| `InstallerLock.StepSound` | e2e/terminal-resize/setup_windows.py:208-213 | every step of every installer keeps mutual exclusion and the soundness of the cache |
| `InstallerLock.CacheSound` | e2e/terminal-resize/setup_windows.py:27-57 | for any number of installers, whatever ends them: at most one is inside the lock, every cached archive has its pinned digest, and at most one download of each completes |
| `InstallerLock.ArchivesStay` | e2e/terminal-resize/setup_windows.py:208-213 | an installed archive is never replaced or removed |
| `InstallerLock.ProvidesAll` | e2e/terminal-resize/setup_windows.py:208-240 | an installer that comes to the end of its list has every archive on it, each with its pinned digest |
| `InstallerLock.BadArchiveEnds` | e2e/terminal-resize/setup_windows.py:212-213 | an archive already there with another digest ends the installer that finds it and is left alone |
| `InstallerLock.LockIsHandedOn` | e2e/terminal-resize/setup_windows.py:27-57 | whatever ended the owner, the next installer that waits can take the lock and look for its archive |
| `InstallerDownload.AttemptIsEvents` | e2e/terminal-resize/setup_windows.py:107-135 | one attempt of the download loop is a few steps of its installer on the shared cache |
| `InstallerDownload.DownloadIsEvents` | e2e/terminal-resize/setup_windows.py:101-141 | a whole download is steps of its installer, with the same files and the same end |
| `InstallerDownload.InterleavedSteps` | e2e/terminal-resize/setup_windows.py:208-213 | while an installer downloads inside the lock, any steps of any others make no difference to what it sees |
| `InstallerDownload.DownloadInsideLock` | e2e/terminal-resize/setup_windows.py:208-213 | from any reachable cache, the download of a missing archive, with any steps of other installers in between, leads to a reachable and sound one, in which the archive is present exactly if the download succeeded (seen at the installer's last step if that download ends it) |
| `ExtractFile.ChunksDecide` | e2e/terminal-resize/setup_windows.py:72-80 | files of one size agree chunk by chunk exactly when they are equal |
| `ExtractFile.Directory.SameBytes` | e2e/terminal-resize/setup_windows.py:73-80 | the chunk loop decides equality |
| `ExtractFile.Directory.Replace` | e2e/terminal-resize/setup_windows.py:81-89 | the target is replaced by a new file with the member's bytes or not at all, and only a kill leaves the temporary file |
| `ExtractFile.Directory.ExtractFile` | e2e/terminal-resize/setup_windows.py:70-89 | the original file stays in place exactly when the bytes already match; otherwise every state the directory passes through shows the old or the new content |
| `RpcClient.Rpc.SubmitRequest` | e2e/shared-services/run.py:86-96 | `submit` as one critical section: the future is registered first, and stays registered when the write fails |
| `RpcClient.Rpc.constructor` | e2e/shared-services/run.py:63-65 | a new client has numbered no request and holds no future |
| `RpcClient.Rpc.ReceiveLine` | e2e/shared-services/run.py:70-75 | the reader takes the future a line names, or leaves |
| `RpcClient.Rpc.DeliverOutcome` | e2e/shared-services/run.py:76-79 | outside the lock it looks up the error and then the result, and sets the outcome; without a message, or without either field, it leaves |
| `RpcClient.Rpc.ReachEndOfStream` | e2e/shared-services/run.py:70 | at the end of the stream the reader leaves, its drain still to come |
| `RpcClient.Rpc.DrainPending` | e2e/shared-services/run.py:80-84 | the final critical section closes every pending future and empties the table |
| `RpcClient.RequestNumbersUnique` | e2e/shared-services/run.py:88-95 | in every interleaving the requests on the wire carry strictly increasing numbers |
| `RpcClient.AtMostOnce` | e2e/shared-services/run.py:68-96 | in every interleaving a future is set at most once, by a response with its own number or by the close |
| `RpcClient.ExactlyOnce` | e2e/shared-services/run.py:68-96 | once the reader is gone, a future registered before its drain has exactly one outcome, its own, if and only if no response was taken for it whose error has no message or that has neither error nor result |
| `RpcClient.UnusableResponseDrops` | e2e/shared-services/run.py:76-84 | each such response, as the answer to the first request, leaves that future without outcome |
| `RpcClient.ExactlyOnceIfWellFormed` | e2e/shared-services/run.py:68-96 | with well-formed responses every such future has exactly one outcome, its own |
| `RpcClient.DroppedNeverResolved` | e2e/shared-services/run.py:76-84 | a future taken for such a response stays unresolved for ever |
| `RpcClient.AnswersAreGenuine` | e2e/shared-services/run.py:71-79 | a value set on a future was received in a response to its request |
| `RpcClient.ResponseDecides` | e2e/shared-services/run.py:70-84 | in every interleaving the response taken for a future decides its outcome: its message as that error, else its result as that value; a future that is closed had none |
| `RpcClient.OutcomeWasReceived` | e2e/shared-services/run.py:70-84 | read from the outcome: a future is closed exactly if no response was taken for it, and an error or a value on it was received as such |
| `RpcClient.LeavingTakesNoMore` | e2e/shared-services/run.py:70-80 | once the reader is on its way out no further response is taken |
| `RpcClient.BadLineLeaves` | e2e/shared-services/run.py:70-75 | a line that is no response, or answers no open request, sends the reader out |
| `RpcClient.EndOfStreamCloses` | e2e/shared-services/run.py:70-84 | at the end of the stream an open future is closed |
| `RpcClient.WrittenIsSent` | e2e/shared-services/run.py:91-95 | as many requests went out as were written |
| `RpcClient.EveryFutureAccounted` | e2e/shared-services/run.py:68-96 | at every point each future is resolved, held, dropped, or came after the drain |
| `Formula.ExpressionDefined` | scripts/generate_cache_metrics.py:15-21 | a formula prints exactly when all names are identifiers and all operators known |
| `Formula.LexExpression` | scripts/generate_cache_metrics.py:15-21 | printed text lexes to the tokens of its tree, whatever follows |
| `Formula.FactorRoundTrip` | scripts/generate_cache_metrics.py:15-21 | the tokens of a tree read back as that tree, whatever follows them |
| `Formula.RoundTrip` | scripts/generate_cache_metrics.py:15-21 | an infix reader recovers any formula from its printed text |
| `Formula.ExpressionInjective` | scripts/generate_cache_metrics.py:15-21 | no two formulas print alike |
| `Formula.TextMeansFormula` | scripts/generate_cache_metrics.py:85-96 | evaluating the emitted text is evaluating the formula |
| `Formula.JoinRoundTrip` | scripts/generate_cache_metrics.py:50 | a joined denominator reads as the sum of its names |
| `CacheMetrics.GeneratedTexts` | scripts/cache_metrics.py:24-28 | the generator prints the specified formulas as the committed module has them |
| `CacheMetrics.GeneratedMeaning` | scripts/cache_metrics.py:18-28 | the committed texts, read as infix, evaluate to what the function returns |
| `CacheMetrics.BreakEven` | scripts/cache_metrics.py:18-28 | for all valid inputs the one-hour cost is at most the five-minute cost exactly when rescued/write reaches the ratio, which lies strictly between 0 and 1 |
| `CacheMetrics.RefusedInputs` | scripts/cache_metrics.py:21-23 | inputs are refused exactly when one is negative, more was rescued than written, or the prices are out of order |
| `CacheMetrics.CostsNonNegative` | scripts/cache_metrics.py:24-27 | costs of accepted inputs are never negative |
| `CacheMetrics.CacheEfficiency` | scripts/cache_metrics.py:5-15 | one denominator variable reassigned three times gives the three shares |
| `CacheMetrics.SharesAddUp` | scripts/cache_metrics.py:9-14 | with the uncached part the shares make 100, and reuse is at least the read share |
| `SessionLog.SessionInfo.constructor` | scripts/analyze_scode_log.py:59-84 | a new session record has the declared defaults |
| `SessionLog.SessionInfo.HandleStart` | scripts/analyze_scode_log.py:138-143 | a start sets the five fields of the session it carries and nothing else |
| `SessionLog.SessionInfo.HandleEnd` | scripts/analyze_scode_log.py:145-150 | an end overwrites time, turns, duration and two of the four totals |
| `SessionLog.SessionInfo.HandleError` | scripts/analyze_scode_log.py:261-279 | errors are appended to the list of their kind |
| `SessionLog.SessionInfo.HandleUsage` | scripts/analyze_scode_log.py:214-233 | usage goes to its request only if that is on record, and always to the session |
| `SessionLog.SessionInfo.HandleRequest` | scripts/analyze_scode_log.py:152-212 | a request event finds or creates its request, an old one under a made-up id, and debug events without an id do nothing |
| `SessionLog.SessionInfo.Request` | scripts/analyze_scode_log.py:158-161 | the request is found, or created with the declared defaults |
| `SessionLog.SessionInfo.Handle` | scripts/analyze_scode_log.py:138-279 | one event updates the session object in place as specified |
| `SessionLog.ProviderHeader` | scripts/analyze_scode_log.py:250-259 | the scan stops at the first known header |
| `SessionLog.FirstHeaderWins` | scripts/analyze_scode_log.py:250-259 | the first known header present decides; with none the value stays |
| `SessionLog.SessionFor` | scripts/analyze_scode_log.py:132-136 | the session's object is found, or a new one joins at the end; the others stay |
| `SessionLog.AnalyzeLog` | scripts/analyze_scode_log.py:113-281 | the loop over the log leaves distinct live objects, in order of first appearance, with the values of the fold over the log |
| `SessionHistory.LastStartDecides` | scripts/analyze_scode_log.py:138-143 | over any log, the last start of a session decides its start time, version, directory, mode and model |
| `SessionHistory.LastEndDecides` | scripts/analyze_scode_log.py:145-150 | the last end decides its end time, turns and duration |
| `SessionHistory.ErrorsAreLogged` | scripts/analyze_scode_log.py:261-279 | its two lists of errors are those it logged, each in the order of the log |
| `SessionHistory.NamelessIgnored` | scripts/analyze_scode_log.py:129-130 | lines without a session make no session |
| `SessionHistory.LegacyKeyByTime` | scripts/analyze_scode_log.py:153-156 | old-format entries of one session share a made-up request exactly if they share their time |
| `RequestHistory.KeysOfEvents` | scripts/analyze_scode_log.py:152-243 | which request an entry is about, if any |
| `RequestHistory.OtherKindsKeep` | scripts/analyze_scode_log.py:152-259 | no event touches the fields of a request that another kind of event sets |
| `RequestHistory.OwnKindDecides` | scripts/analyze_scode_log.py:152-259 | an event sets the fields of its kind to what it says, whatever they were |
| `RequestHistory.SharedStep` | scripts/analyze_scode_log.py:161-259 | an event sets status, duration, attempt, method and response identifier exactly when it is one of those that carry them |
| `RequestHistory.LastSetterDecides` | scripts/analyze_scode_log.py:152-259 | over any log, the last event for a request that sets one of these fields decides it, whatever kinds come between or after |
| `RequestHistory.NeverSetIsDefault` | scripts/analyze_scode_log.py:26-56 | a field that no line for the request sets keeps its default, the attempt being 1 |
| `RequestHistory.KindNeverCame` | scripts/analyze_scode_log.py:26-56 | a kind of event that never came leaves its fields blank |
| `RequestHistory.HeaderOrder` | scripts/analyze_scode_log.py:250-259 | the provider identifier is looked up under the four header names in this order |
| `RequestHistory.RequestNamedByKey` | scripts/analyze_scode_log.py:158-159 | a request is recorded under its own name |
| `RequestHistory.LastEventDecides` | scripts/analyze_scode_log.py:152-259 | over any log, the last event of a kind for a request decides the fields of that kind, whatever comes between or after |
| `TokenLedger.NonInterference` | scripts/analyze_scode_log.py:118-281 | the record of a session is what its own lines alone would give, its requests included |
| `TokenLedger.InterleavingsAgree` | scripts/analyze_scode_log.py:118-281 | logs that interleave the same sessions differently give the same records |
| `TokenLedger.CacheTotals` | scripts/analyze_scode_log.py:232-233 | a session's cache totals are all cache usage ever logged for it |
| `TokenLedger.OneUsageLine` | scripts/analyze_scode_log.py:216-233 | each of the four counts of a usage line is counted as what it is |
| `TokenLedger.TotalsAfterEnd` | scripts/analyze_scode_log.py:145-150 | its input and output totals are what its last end reported plus all usage after that |
| `TokenLedger.TotalsWithoutEnd` | scripts/analyze_scode_log.py:229-233 | the totals of a session without an end are all its usage |
| `TokenLedger.KnownRequests` | scripts/analyze_scode_log.py:152-243 | a request is on record exactly when some line other than usage named it |
| `TokenLedger.UsageConserved` | scripts/analyze_scode_log.py:214-233 | every token of usage is shown for a request, or named no request on record, or was replaced by later usage of its request |
| `RepeatedUsage.ShownWasReported` | scripts/analyze_scode_log.py:222-227 | what a request shows was reported for it by an earlier line |
| `RepeatedUsage.TotalsOfRequestsExact` | scripts/analyze_scode_log.py:214-233 | without an end and without negative counts, session totals are request tokens plus usage of unknown requests if and only if no request reported with tokens is reported again |
| `RepeatedUsage.TotalsOfRequests` | scripts/analyze_scode_log.py:214-233 | whatever the counts, that equation holds with at most one usage line per request on record |
| `RepeatedUsage.TwoReportsDiffer` | scripts/analyze_scode_log.py:214-233 | totals and requests differ for a log that starts one request and reports it twice |
| `TokenLedger.OverallTotals` | scripts/analyze_scode_log.py:667-670 | the sums at the end of the report are taken over all live sessions |
| `TokenLedger.GrandTotalIsCredit` | scripts/analyze_scode_log.py:667-670 | the overall totals count each usage line once, and each end in place of what its session had before |
| `TokenLedger.GrandTotalIsUsage` | scripts/analyze_scode_log.py:667-670 | the overall cache totals are all cache usage in the log; without an end so are the others |
| `OverlapSweep.Sweep` | e2e/nexus-a2a/mailbox_faults_acceptance.py:80-86 | the sweep ends with nothing active, and its maximum is the largest number of half-open intervals covering one instant |
| `OverlapSweep.ActiveNonNegative` | e2e/nexus-a2a/mailbox_faults_acceptance.py:83-84 | the running value is never negative |
| `OverlapSweep.ActiveIsCovered` | e2e/nexus-a2a/mailbox_faults_acceptance.py:83-85 | every running value is reached or exceeded by the cover of some instant |
| `OverlapSweep.CoverIsActive` | e2e/nexus-a2a/mailbox_faults_acceptance.py:83-85 | the cover of every instant is one of the running values |

## Left out

- MirrorPointer.PointerIsLargest: false of the code for unprotected versions, those longer than 128 characters whose first 128 characters are a version and whose patch number is not zero; `MirrorRollBack.UnprotectedRollsBack` is the proof.
- MirrorPointer.PointerNeverRetreats: false of the code for the same unprotected versions, by the same proof.
- ArchiveDownload.ReceivedOnce: that honoured resumes are enough is false of the code, as `ArchiveDownload.EarlyCloseReceivesMore` shows; the condition stated is exact.
- ArchiveDownload.PartialIsPrefix: false of the code for a partial reply that starts elsewhere than asked for or at byte 0, which `ArchiveDownload.PrefixExact` proves.
- Assessment.Assess: requires a budget for each judged metric and a nonempty sample with that metric for each case; where they are missing the source raises, and `main` turns that into an invalid run.
- MeasurementRun.Session.Evaluate: requires what planning and validation guarantee (distinct cases, declared rounds and budgets, every judged metric in an accepted measurement); the assertions of `policy_plan`, `comparison_rounds` and `validate` themselves are not modelled.
- ArchiveDownload.InstallsArchive: the digest is an arbitrary function, so that no proper prefix of the archive shares its digest is a hypothesis.
- ExtractFile.Directory.ExtractFile: the size the zip directory declares is taken to be the size of the member's bytes, and `mkstemp` to give an unused name.
- OverlapSweep.Sweep: the bounds 2 and 4 that the caller asserts on the maximum are about one workload.
- SHA-256, HTTP, zip, `coscmd`, file locks and subprocesses: digests are arbitrary functions, the store and the files are maps, object uploads and renames are single steps, the lock is mutual exclusion released when its owner ends.
- The lock's 120-second polling: a timeout is one of the ways an installer may end.
- Readback polling and sleeps: a readback that keeps differing ends the run after its upload took effect. Reads are consistent, and local files do not change during a run.
- Errors that `download_archive` does not handle (other HTTP exceptions, a failing unlink): they end the attempt with the partial file left behind, which the next download removes first.
- The ConPTY installation and the choice of members to extract: file copying without further state.
- Floating point: measurements, prices and percentages are exact reals, so neither rounding nor NaN is modelled.
- Keywords: a formula name may be one, and the reader of `Formula` takes it for a name where Python and Rust do not.
- Response numbers that Python takes for equal to an integer (`1.0`, `true`) are that integer.
- Python's full Unicode: digits, identifiers and white space are the ASCII ones; bytes are characters of a string.
- Which draws the bootstrap makes; the order in which sorted metric names come is part of the policy.
- Failure messages, reports, Markdown, saved files, metadata and driver digests of the performance gate.
- Futures submitted after the reader's final drain: the code leaves them unresolved, and no theorem covers them. Waiting with a timeout and closing the child are not modelled.
- Future objects and `RequestInfo` objects are values in a list or a map of their owner; that a caller may hold a reference to one is not captured.
- The text the generator emits around its formulas, `rustfmt`, and the Rust form of the joined denominators.
- JSON parsing, time parsing and report formatting of the log analyser: an entry is already decoded, numbers are integers, and an event's free-form details are one text.
- `pe_machine`, commit triage, parity coverage and the remaining end-to-end drivers: they hold little state.
