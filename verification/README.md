# Helena: the evidence and orchestration layer, modelled and proved

Helena keeps append-only registers of what was produced from what, decides from
receipts and gates whether work may go on, and drives a control plane that may
refuse, time out or answer unreadably. This project models those parts in Dafny
4.11 and proves what every step, every run and every input keeps. Run
`dafny verify dfyconfig.toml` to check it.

| file | models |
|---|---|
| `Wrappers.dfy`, `Ordering.dfy`, `Text.dfy`, `Voxels.dfy` | shared shapes: results and digests, stable sorting, strings and numerals, integer boxes |
| `Campaign.dfy` | a campaign run of bounded waves that never retries an ambiguous POST |
| `RetainedSurfaces.dfy` | the P3, P4, P5 advancing pass, interleaved with a moving job fleet |
| `SurvivalMatrix.dfy`, `PositiveControl.dfy` | the stage-survival receipt, and the nine-boundary run that fills it |
| `ClearanceGate.dfy`, `CampaignGrid.dfy`, `ClearanceReview.dfy` | voxel counts, grid cells, and the candidate review over a margin sweep |
| `Artifacts.dfy`, `Selections.dfy`, `Manifests.dfy` | the artifact register, the selection log, and the text a directory hashes as |
| `SliceOrder.dfy` | what "slice n" of a stack of TIFF files is |
| `ExecutionMode.dfy` | the certified and exploratory lanes |
| `Winding.dfy` | the median position of a surface and the verdict on two of them |
| `Sessions.dfy`, `ConfigVersions.dfy`, `Missions.dfy` | accounts and tokens, configuration history, mission selections |
| `HybridGates.dfy` | gate evaluations and backend comparisons |

Conventions. SHA-256 is the injective constructor `Digest.Sha256`; a digest
abbreviated to hex is a parameter of which only its shape is known. Clocks,
tokens, panel answers and job states are parameters or arbitrary choices, so
every theorem holds for all of them. Floating-point quantities are `real`.
Classes stand for the objects and files the code updates in place; their methods
are proved equal to functions on values, and the theorems over whole runs are
lemmas about those functions.

## Where the code does less than its prose says

Each of these is kept as the code has it, with a lemma that says exactly when
the promise is met.

- `resolve` promises the newest artifact; with equal second-resolution stamps it
  returns the earliest of the tied ones (`Selections.ResolveFallsBack`,
  `Artifacts.NewestIsLast`).
- An artifact's id holds the first twelve digits of its digest, so content that
  shares them with a record of the same phase and sample is taken for it
  (`Selections.RegisterAnswersWhen`, `Selections.TwelveDigitsCollide`).
- `select` accepts a key whose phase is lower case, which `resolve` never looks
  up (`Selections.KeyLookedUpWhen`, `Selections.LowerCaseKeyIgnored`).
- `restore_selection` sets `restored_from` on what it returns, not on what it
  logged (`Selections.MissionRegister.RestoreSelection`).
- The pass over retained surfaces promises that a phase that already has a job
  is never queued twice, but it reads only the newest 500 jobs of the whole
  platform. Once a surface's jobs drop out of those, P3, P4 and P5 are posted
  again (`RetainedSurfaces.SecondP4When`, `P3AgainWhen`, `P5AgainWhen`, and the
  inputs `CrowdedOutP4` and `CrowdedOutP3`). The guarantees hold over every run
  whose reads show everything the script has posted
  (`RetainedSurfaces.EveryRunIsSafe`, `CarefulWhen`).
- They are about the script's own posts: another script queues P5 on the same
  surfaces without reading the list, and can leave two live in a lane
  (`RetainedSurfaces.ForeignPostSharesLane`).
- A P3 with one empty success is queued again on every pass, however many P3
  jobs are already live, until those fill the listing
  (`RetainedSurfaces.SecondLiveP3`, `P3RetriesFillListing`).
- `--lane both` with a lane it already contains lists that lane twice, and
  `--surface` keeps repetitions; a pass then posts twice
  (`RetainedSurfaces.PassRepeatsWhen`, `LanesRepeatWhen`,
  `RepeatedLanePostsTwice`, `RepeatedSurfacePostsTwice`).
- `policy_margin_verdict_reachability` calls the uncalibrated verdict reachable
  whenever the volume minimum exceeds the query radius; it also takes a volume
  that holds a query cube and a radius of at most 4096
  (`ClearanceReview.ReachableExactly`, `ClearanceReview.ReachableClaimTooStrong`).
- An artifact's id is its content, but a file whose bytes are a directory's
  manifest has that directory's digest (`Manifests.FileTreeCollide`).
- `resolve` for a phase containing a slash returns an artifact of another phase
  (`Selections.ResolveSelected`).
- `get` refuses a configuration version whose number has five digits, so such a
  version is in the history and can be neither read nor restored
  (`ConfigVersions.GetFinds`, `ConfigVersions.RestoreContinues`).
- A mission's frozen stamp is never consulted: if the caller stops reporting
  work, the next change goes unrecorded and the amendments no longer replay to
  the selection (`Missions.ReplayKeptIffFrozen`).
- P2 of the positive control can report a rejected geometry as a failure only for
  a P2 job, and it never queues one, so a rejection always ends as missing
  evidence (`PositiveControl.RejectionNeedsJob`).
- A wave waits for its tasks to be gone, but an unreadable queue is read as an
  empty one, so one database error closes a wave as terminal while its tasks run
  (`Campaign.TerminalRowMeans`, `Campaign.TerminalLedgerMeans`,
  `Campaign.UnreadableQueueCloses`). No other wave follows such a one
  (`Campaign.FollowedRowsAreGone`).
- A boundary's reason tells what was sent, but a refusal's reason is whatever
  code the panel sent, and nothing keeps that apart from the runner's own
  (`PositiveControl.EarlyReasonProves`).
- A certified document may not quote an uncertified one anywhere inside, but the
  search never looks at a quoted document's reasons
  (`ExecutionMode.HeldCertifiedWhen`, `LaunderedWhen`, `ReasonsAreLaundered`).
- Everything made from a corrected input is meant to be findable from it, but a
  run that reproduces known bytes drops what it read
  (`Selections.RunKeepsInputsWhen`).
- A surface whose newest P4 failed or was cancelled waits for good, though every
  pass says to run again when that P4 finishes (`RetainedSurfaces.StuckForever`).

## Model

| member | source | states |
|---|---|---|
| `Campaign.ScrollStateIsFirst` | scripts/harness/run_first_letters_campaign.py:126-132 | the scroll a decision reads is the first row naming the sample, and there is none exactly when no row does |
| `Campaign.PacketFound` | scripts/harness/run_first_letters_campaign.py:111-123 | a digest is found on a list exactly when a row of kind vetting-packet carries it and it is 64 lower-case hexadecimal digits |
| `Campaign.WaitForWave` | scripts/harness/run_first_letters_campaign.py:160-178 | only reads happen while waiting, each but the last showing something outside the baseline; it ends reached exactly when the last shows nothing, otherwise only after the whole wait; it terminates because sleeping advances the clock |
| `Campaign.DecideIsJustified` | scripts/harness/run_first_letters_campaign.py:221-246 | a read allows exactly one POST, for its own budget and receipt, and allows none exactly when it shows a blocker, a pause, an unadmitted scroll, no budget or an unreadable queue |
| `Campaign.DecideHaltsWhen` | scripts/harness/run_first_letters_campaign.py:221-246 | why a read allows no wave, reason by reason with its detail, each only where no earlier one applies |
| `Campaign.Ledger.Stop` | scripts/harness/run_first_letters_campaign.py:144-157 | a stopped ledger carries its reason, closing read and blockers, nothing else changes, and its seal covers all of that |
| `Campaign.Ledger.Seal` | scripts/harness/run_first_letters_campaign.py:154-157 | sealing binds the digest to the present body and changes nothing else |
| `Campaign.Freeze` | scripts/harness/run_first_letters_campaign.py:270-280 | an ambiguous POST adds its row, reads back once, posts nothing more and seals the ledger around that readback |
| `Campaign.FollowWave` | scripts/harness/run_first_letters_campaign.py:293-319 | the row of a wave within budget is closed from the last read of its wait: what is still active, the attempts, the pause, and terminal exactly when nothing is; a ledger stopped here gives that read, the packets listed and the reason they give |
| `Campaign.CloseWave` | scripts/harness/run_first_letters_campaign.py:310-319 | a packet not there at the opening stops the campaign for a person, otherwise a pause stops it as one, otherwise it goes on; the packets listed are recorded each time |
| `Campaign.RunWave` | scripts/harness/run_first_letters_campaign.py:248-319 | one wave is one POST for the planned budget; its row is true of its decision, its POST and its closing read; nothing is posted after it; a stop gives its true reason |
| `Campaign.OpenCampaign` | scripts/harness/run_first_letters_campaign.py:192-219 | an uncontrolled mission or a waiting review packet ends the campaign before any POST, with an empty sealed ledger that says which |
| `Campaign.RunCampaign` | scripts/harness/run_first_letters_campaign.py:181-322 | for every panel and clock the calls are lawful, and a returned or frozen ledger is sealed with one row per POST, numbered from one and true of the calls; its opening, closing hash, blockers, packets, reason and detail are those of the first two calls and the last ones; it is stopped for a person exactly when some list read held a hash-bound vetting packet |
| `Campaign.WaveRecorded` | scripts/harness/run_first_letters_campaign.py:248-304 | a justified POST and its row extend a lawful campaign to a lawful one |
| `Campaign.WaveSettled` | scripts/harness/run_first_letters_campaign.py:293-319 | a wave that ended clean, within budget, with no packet and no pause, leaves the campaign ready for another decision |
| `Campaign.PostsAreBounded` | scripts/harness/run_first_letters_campaign.py:220-322 | a lawful run has at most the requested number of POSTs, one per decision |
| `Campaign.EveryPostIsJustified` | scripts/harness/run_first_letters_campaign.py:220-291 | every POST asks for exactly the budget of a read taken after every earlier POST; every earlier POST was readable and within budget, so none follows an ambiguous or over-budget one |
| `Campaign.NoPostPastPacket` | scripts/harness/run_first_letters_campaign.py:210-319 | no POST ever follows a list that holds a row of kind vetting-packet under a digest of 64 hexadecimal digits |
| `Campaign.NextWaveWaits` | scripts/harness/run_first_letters_campaign.py:293-308 | the read behind the next POST shows none of the previous wave's own tasks active |
| `Campaign.TerminalRowMeans` | scripts/harness/run_first_letters_campaign.py:137-178 | the own tasks of a row called terminal were really gone exactly when its closing read could read the queue |
| `Campaign.FollowedRowsAreGone` | scripts/harness/run_first_letters_campaign.py:244-308 | the closing read of a wave followed by another is the read the next was decided from, so its tasks were gone |
| `Campaign.TerminalLedgerMeans` | scripts/harness/run_first_letters_campaign.py:293-322 | the waves of a ledger that ends with a terminal row were all really gone exactly when the campaign's last read could read the queue |
| `Campaign.UnreadableQueueCloses` | panel/app.py:11482-11513 | a database error answered with an empty list closes a wave as terminal in a lawful campaign that reached its bound, with its task still running |
| `RetainedSurfaces.SelectMembers` | scripts/harness/queue_retained_surfaces.py:253-260 | a scan by surface, phase, profile and state returns exactly the jobs that meet it |
| `RetainedSurfaces.CriteriaMean` | scripts/harness/queue_retained_surfaces.py:231-260 | a succeeded P3 counts as a sheet exactly when its summary is unparsable or counts something, and as empty exactly when it says nothing or counts none; a job is a surface's by its surface id, or by the flattened one if it has none |
| `RetainedSurfaces.LaneCriteriaMean` | scripts/harness/queue_retained_surfaces.py:331-350 | a lane's jobs are the P5 jobs of its surface and profile, by state |
| `RetainedSurfaces.BucketDecides` | scripts/harness/queue_retained_surfaces.py:230-236 | deciding on a surface's own bucket of jobs is deciding on the whole listing |
| `RetainedSurfaces.GroupBySurface` | scripts/harness/queue_retained_surfaces.py:231-236 | the buckets hold every listed job that names a surface, under that surface, in order |
| `RetainedSurfaces.CountListed` | panel/app.py:3905-3910 | a count over the newest jobs from some position is a count over the fleet from there |
| `RetainedSurfaces.ListingIs` | scripts/harness/queue_retained_surfaces.py:230-230 | a pass reads the newest 500 jobs there are, newest first |
| `RetainedSurfaces.ListedWhen` | panel/app.py:3905-3910 | nothing listed meets a criterion exactly when nothing in the fleet from there on does |
| `RetainedSurfaces.P3PostedWhen` | scripts/harness/queue_retained_surfaces.py:278-308 | P3 is posted exactly when no listed P3 produced a sheet, and either exactly one listed success was empty, or none was and none is live |
| `RetainedSurfaces.SecondLiveP3` | scripts/harness/queue_retained_surfaces.py:292-308 | beside a live P3 another is posted exactly with one empty success and nothing flattened |
| `RetainedSurfaces.P3RetriesFillListing` | scripts/harness/queue_retained_surfaces.py:292-308 | after one empty success, passes queue P3 jobs beside each other until those jobs alone fill the listing, and only then stop |
| `RetainedSurfaces.P4PostedWhen` | scripts/harness/queue_retained_surfaces.py:315-322 | P4 is posted exactly when a listed P3 produced a sheet and no P4 is listed in any state |
| `RetainedSurfaces.LanesOpenWhen` | scripts/harness/queue_retained_surfaces.py:315-329 | the lanes open exactly when a listed P3 produced a sheet and the newest listed P4 succeeded, and they render from that one |
| `RetainedSurfaces.P5PostedWhen` | scripts/harness/queue_retained_surfaces.py:331-370 | P5 is posted exactly when no listed job of the lane is live or succeeded and fewer than three failed; the lane counts as ready exactly when one succeeded |
| `RetainedSurfaces.SecondP4When` | scripts/harness/queue_retained_surfaces.py:230-322 | a P4 is posted for a surface that has one exactly when every P4 of it has dropped out of the newest 500 jobs and a flattened P3 has not |
| `RetainedSurfaces.P3AgainWhen` | scripts/harness/queue_retained_surfaces.py:230-308 | a P3 is posted for a flattened surface exactly when everything that flattened it has dropped out and what is left would allow one |
| `RetainedSurfaces.P5AgainWhen` | scripts/harness/queue_retained_surfaces.py:230-370 | a lane is posted against what the whole fleet would say exactly when what would have held it back has dropped out |
| `RetainedSurfaces.CrowdedOutP4` | scripts/harness/queue_retained_surfaces.py:230-322 | with 501 jobs, the P4 the oldest, the pass posts a second P4 |
| `RetainedSurfaces.CrowdedOutP3` | scripts/harness/queue_retained_surfaces.py:230-308 | with 501 jobs, the flattened P3 the oldest, the pass posts P3 again |
| `RetainedSurfaces.PassPostsWarranted` | scripts/harness/queue_retained_surfaces.py:262-370 | every post of a pass is warranted by the listing it read |
| `RetainedSurfaces.PassRepeatsWhen` | scripts/harness/queue_retained_surfaces.py:262-370 | a pass asks for a slot twice exactly when a surface with something to post is listed twice, or an open surface has a lane to post listed twice |
| `RetainedSurfaces.RepeatedSurfacePostsTwice` | scripts/harness/queue_retained_surfaces.py:212-216 | `--surface` given twice posts the same P4 twice in one pass |
| `RetainedSurfaces.LanesRepeatWhen` | scripts/harness/queue_retained_surfaces.py:217-223 | the lane list repeats exactly when "both" is combined, without "all", with one of its own lanes or a repeated third |
| `RetainedSurfaces.ChosenLanesMean` | scripts/harness/queue_retained_surfaces.py:217-223 | no lane asked for is 9um; "all" is every lane; "both" is the first two and then each one named; otherwise each lane named, once, in order |
| `RetainedSurfaces.RepeatedLanePostsTwice` | scripts/harness/queue_retained_surfaces.py:220-221 | a lane listed twice is posted twice in one pass, and two of the script's own are then live in it |
| `RetainedSurfaces.EnvKeepsSafe` | scripts/harness/queue_retained_surfaces.py:230-236 | jobs progressing, and anybody's jobs of any kind arriving, break nothing the script is held to |
| `RetainedSurfaces.OwnSecondP4When` | scripts/harness/queue_retained_surfaces.py:315-322 | when a P4 goes out, the script already has one on that surface exactly when one of its own had dropped out of the listing |
| `RetainedSurfaces.OwnSecondHolderWhen` | scripts/harness/queue_retained_surfaces.py:331-370 | when a P5 goes out, one of the script's own is live or succeeded in the lane exactly when it had dropped out of the listing |
| `RetainedSurfaces.OwnFourthTryWhen` | scripts/harness/queue_retained_surfaces.py:331-350 | a fourth uncancelled try of the script's own needs one of its own to have dropped out |
| `RetainedSurfaces.PostKeepsSafe` | scripts/harness/queue_retained_surfaces.py:262-370 | a warranted post keeps the script to what it is held to however far the fleet has moved since the read, if the read showed everything the script had posted |
| `RetainedSurfaces.LandingIsWarranted` | scripts/harness/queue_retained_surfaces.py:278-370 | behind a landed P3 no listed one had flattened, and one flattened by then was unlisted or still live at the read; behind a P4 a P3 flattened; behind a P5 a P4 succeeded |
| `RetainedSurfaces.EveryLandingIsWarranted` | scripts/harness/queue_retained_surfaces.py:230-370 | and that holds of every post over every run, whoever else posts, however long the job list and whatever the command line |
| `RetainedSurfaces.CarefulWhen` | scripts/harness/queue_retained_surfaces.py:230-262 | at most 500 jobs, with no surface or lane repeated, make a pass careful |
| `RetainedSurfaces.EveryRunIsSafe` | scripts/harness/queue_retained_surfaces.py:230-370 | over every run of careful passes, interleaved with any environment, the script posts at most one P4 per surface, never has two P5 live or succeeded in a lane, and posts at most three uncancelled ones |
| `RetainedSurfaces.AloneIsSafe` | scripts/harness/queue_retained_surfaces.py:262-370 | where nobody else posts on a surface the same holds of all the fleet's jobs |
| `RetainedSurfaces.ForeignPostSharesLane` | scripts/harness/requeue_timesformer_large.py:101-119 | where somebody does, a careful pass can land a P5 beside a live one that arrived after its read |
| `RetainedSurfaces.WaitsOnP4When` | scripts/harness/queue_retained_surfaces.py:315-326 | with a sheet listed the surface waits exactly when its newest listed P4 has not succeeded, failed and cancelled ones included |
| `RetainedSurfaces.StuckForever` | scripts/harness/queue_retained_surfaces.py:315-326 | over every run, once the newest P4 failed or was cancelled no pass ever posts anything for the surface again, as long as both jobs stay listed and nobody else posts a P4 |
| `RetainedSurfaces.Fleet.GetJobs` | scripts/harness/queue_retained_surfaces.py:230 | a read returns the newest 500 jobs, newest first, of the fleet as it has become |
| `RetainedSurfaces.Fleet.Post` | scripts/harness/queue_retained_surfaces.py:148-163 | an answered post queued exactly the job asked for; one that ended the script queued that job or nothing |
| `RetainedSurfaces.AdvanceLanes` | scripts/harness/queue_retained_surfaces.py:329-370 | the lane loop posts exactly the lanes due, counts every lane once, and keeps the script to what it is held to |
| `RetainedSurfaces.AdvanceSurface` | scripts/harness/queue_retained_surfaces.py:263-370 | one surface advances by exactly the posts due on it and its counts add up |
| `RetainedSurfaces.AdvancePass` | scripts/harness/queue_retained_surfaces.py:230-372 | a pass posts exactly what its listing warrants, in order, and counts every unit once, until a post goes unanswered; a job queued behind a lost answer is among those made |
| `RetainedSurfaces.UnitsMean` | scripts/harness/queue_retained_surfaces.py:230-372 | the units a pass counts are one for a surface whose lanes are closed and one for each lane of one whose lanes are open |
| `RetainedSurfaces.MapsReadyMean` | scripts/harness/queue_retained_surfaces.py:329-372 | the maps it reports are the finished lanes of open surfaces, each once |
| `SurvivalMatrix.EvaluateSurvivalMatrix` | scripts/harness/run_first_letters_positive_control.py:511-563 | the loop over a copy of the rows derives what the specification says from schema, bindings and rows alone, and leaves the rows it was given untouched |
| `SurvivalMatrix.EvaluateIdempotent` | scripts/harness/run_first_letters_positive_control.py:511-563 | evaluating an evaluated receipt returns it unchanged, digest included |
| `SurvivalMatrix.OutcomeMeans` | scripts/harness/run_first_letters_positive_control.py:537-561 | the control passes exactly when every row does; failed exactly when the first row that did not pass failed; that row is named; rows up to it are kept, and of each later one only what was declared is left, with PREREQUISITE_NOT_REACHED, no time and three empty maps |
| `SurvivalMatrix.LaterRowsAreIdle` | scripts/harness/run_first_letters_positive_control.py:514-519 | receipts alike up to the first row that did not pass have the same outcome |
| `SurvivalMatrix.LaterEvidenceIsIdle` | scripts/harness/run_first_letters_positive_control.py:548-561 | receipts alike up to the first row that did not pass, and later in what was declared, end with the same stages |
| `SurvivalMatrix.EvaluatesWhen` | scripts/harness/run_first_letters_positive_control.py:521-547 | a receipt is evaluated exactly when it names one of the three controls and brings that control's boundaries in order; which refusal it gets otherwise |
| `SurvivalMatrix.SchemaOwnsRows` | scripts/harness/run_first_letters_positive_control.py:30-61 | rows accepted under one schema are accepted under no other |
| `PositiveControl.RecordUnexpectedRefusal` | scripts/harness/run_first_letters_positive_control.py:774-794 | the scan in place writes the first undecided row and no other |
| `PositiveControl.RecordedMeans` | scripts/harness/run_first_letters_positive_control.py:774-794 | on any rows it is the first whose state is not run or blank, which becomes incomplete with nothing evidenced; where there is none, nothing changes |
| `PositiveControl.EscapeLands` | scripts/harness/run_first_letters_positive_control.py:774-794 | a failure that escapes lands, as incomplete, on the boundary the run had reached |
| `PositiveControl.DecideRow` | scripts/harness/run_first_letters_positive_control.py:261-287 | deciding the row a run has reached passes it on by one, or stops it there |
| `PositiveControl.RejectionNeedsJob` | scripts/harness/run_first_letters_positive_control.py:1235-1296 | a rejected geometry fails P2 exactly when a P2 job with complete evidence is known, which the runner never arranges |
| `PositiveControl.P2VerdictIs` | scripts/harness/run_first_letters_positive_control.py:1235-1296 | the state and the reason P2 comes to, branch by branch |
| `PositiveControl.DecidedMeans` | scripts/harness/run_first_letters_positive_control.py:261-287 | a decided row keeps its boundary and declared fields, has the state and reason given, the time since the start or zero, the evidence as observed, and the first 600 characters of a detail there is |
| `PositiveControl.Control.Settle` | scripts/harness/run_first_letters_positive_control.py:261-287 | a result changes its own row only |
| `PositiveControl.Control.Send` | scripts/harness/run_first_letters_positive_control.py:1364-1387 | a mutation is sent once; it passes exactly when answered, or when the seed is already placed; only an unclear reply, or a refusal the boundary catches, is a result, and always an incomplete one |
| `PositiveControl.Control.Job` | scripts/harness/run_first_letters_positive_control.py:1364-1387 | a queued job is posted once and passes exactly when answered; an unclear reply or wait gives the reason never to retry, a refusal the panel's code or the runner's, both as incomplete; anything else escapes |
| `PositiveControl.Control.P0` | scripts/harness/run_first_letters_positive_control.py:858-888 | no mutation; stale bindings leave P0 incomplete; its one question, on the bindings, held if it passes |
| `PositiveControl.Control.P1` | scripts/harness/run_first_letters_positive_control.py:890-1137 | at most the preflight and then the seed are posted; a stop before the seed gives one of the discovery's reasons or the panel's, one after it one of the growth's; its questions held in order if it passes, the one on the placed seed only when it placed it |
| `PositiveControl.Control.P2` | scripts/harness/run_first_letters_positive_control.py:1139-1303 | no mutation, and never a failed row |
| `PositiveControl.Control.QC` | scripts/harness/run_first_letters_positive_control.py:1305-1359 | no mutation; an incompatible terminal state fails it; its four questions held in order if it passes |
| `PositiveControl.Control.P3` | scripts/harness/run_first_letters_positive_control.py:1361-1470 | one flattening job at most, and never a failed row; its three questions held in order if it passes |
| `PositiveControl.Control.P4` | scripts/harness/run_first_letters_positive_control.py:1472-1644 | one job at most, never a failed row; an unproven orientation stops it with nothing rendered, every later reason after the job; its three questions held in order if it passes |
| `PositiveControl.Control.P5` | scripts/harness/run_first_letters_positive_control.py:1646-1804 | one job at most; an unproven metric or a missing model stops it with nothing screened, every later reason after the job; its four questions held in order if it passes |
| `PositiveControl.Control.P7` | scripts/harness/run_first_letters_positive_control.py:1806-1965 | one job at most; a missing box, region or scale stops it with nothing adjudicated, every later reason after the job; its six questions held in order if it passes |
| `PositiveControl.Control.HumanReview` | scripts/harness/run_first_letters_positive_control.py:1967-2046 | one review routed at most, and never a failed row; its question held if it passes |
| `PositiveControl.Control.RunBoundaries` | scripts/harness/run_first_letters_positive_control.py:852-2046 | the nine boundaries in order, each entered only after the one before passed |
| `PositiveControl.EvaluatedRunIsHonest` | scripts/harness/run_first_letters_positive_control.py:843-849 | evaluating a run's rows changes none of them and names the boundary the run came to |
| `PositiveControl.RunPositiveControl` | scripts/harness/run_first_letters_positive_control.py:797-849 | for every panel the receipt's rows are PASS up to one that is not, then never reached; each mutation was sent at most once, in order, after everything before it passed and was answered; the stopping row's reason accounts for how many were sent, unless the panel sent it or it is an escape's; an unclear reply or wait is the last mutation and leaves its own boundary incomplete; a failed row gives one of its own boundary's reasons after everything sent was answered; the control passes exactly when all nine did, and then every question of every boundary was put and held |
| `PositiveControl.ReasonSaysWhatWasSent` | scripts/harness/run_first_letters_positive_control.py:852-2046 | a stopping reason the panel did not send says exactly how many mutations were sent |
| `PositiveControl.EarlyReasonProves` | scripts/harness/run_first_letters_positive_control.py:762-771 | an unproven orientation, metric, model, box, region or scale proves that its job was never sent exactly when the panel never used that code itself |
| `PositiveControl.NeverSent` | scripts/harness/run_first_letters_positive_control.py:797-849 | so a receipt with such a reason rules out every mutation from its boundary on, and one with a discovery's reason rules out the seed |
| `Voxels.BoxSize` | scripts/harness/analyze_candidate_clearance.py:840-880 | an integer box holds the product of its three spans |
| `Voxels.AxisDistances` | scripts/harness/analyze_candidate_clearance.py:66-78 | the loop lists the six signed face distances and the smallest of them |
| `Voxels.NearestIsMinimum` | scripts/harness/analyze_candidate_clearance.py:66-78 | the nearest face is one of the six and no face is nearer |
| `ClearanceGate.CubeIsBox` | scripts/harness/analyze_candidate_clearance.py:845-849 | the voxels of the clipped query cube are an integer box given by ceilings and floors |
| `ClearanceGate.AdmissibleIsBox` | scripts/harness/analyze_candidate_clearance.py:850-860 | those whose nearest volume face is at least the minimum away are another |
| `ClearanceGate.CrowdsClosedForm` | scripts/harness/analyze_candidate_clearance.py:850-855 | some voxel of the cube is closer to a face than the minimum exactly when the corner on that side is |
| `ClearanceGate.WholeCubeMeans` | scripts/harness/analyze_candidate_clearance.py:852-875 | every voxel is admissible exactly when no face crowds the cube |
| `ClearanceGate.QueryCubeVolumeGateGeometry` | scripts/harness/analyze_candidate_clearance.py:806-880 | the closed-form counts, fraction, bounds, sorted faces and the two verdicts describe the two voxel sets exactly, and the errors are those of an unbounded or empty cube |
| `ClearanceGate.CountsAre` | scripts/harness/analyze_candidate_clearance.py:849-866 | the products of per-axis counts are the sizes of the two sets |
| `CampaignGrid.AxisCenters` | scripts/harness/analyze_candidate_clearance.py:298-304 | the loop produces the regular centres and the appended last one |
| `CampaignGrid.CentersAscend` | scripts/harness/analyze_candidate_clearance.py:298-304 | centres strictly increase |
| `CampaignGrid.CubesInside` | scripts/harness/analyze_candidate_clearance.py:294-315 | the query cube around every centre stays inside the volume |
| `CampaignGrid.CentersCover` | scripts/harness/analyze_candidate_clearance.py:298-304 | every coordinate between the margins lies within half a step of a centre |
| `CampaignGrid.CellsApart` | scripts/harness/analyze_candidate_clearance.py:298-304 | regular half-open cells are disjoint when a step spans two radii, and all are exactly when the appended last centre, if any, is two radii away |
| `CampaignGrid.ExpectedCellGeometry` | scripts/harness/analyze_candidate_clearance.py:287-315 | an id is parsed, checked against the three axes and placed exactly as the specification of a cell says |
| `CampaignGrid.CenterIs` | scripts/harness/analyze_candidate_clearance.py:298-304 | the i-th centre of an axis is i whole steps from the near margin while that is short of the far one, and otherwise the last voxel before it |
| `CampaignGrid.CentersCount` | scripts/harness/analyze_candidate_clearance.py:298-304 | how many centres an axis has: one per whole step, and one more exactly when at least half a step is left |
| `CampaignGrid.CellIs` | scripts/harness/analyze_candidate_clearance.py:287-315 | the digits after r, c and a count along the first, second and third axis; a cell reaches one radius to either side; what is malformed and what is outside the grid |
| `CampaignGrid.CellsDistinct` | scripts/harness/analyze_candidate_clearance.py:287-315 | different accepted ids have different centres |
| `CampaignGrid.CellInsideVolume` | scripts/harness/analyze_candidate_clearance.py:373-394 | every accepted cell is a cube of twice the radius wholly inside the volume |
| `CampaignGrid.CellsDisjoint` | scripts/harness/analyze_candidate_clearance.py:373-394 | accepted cells sharing a half-open point are one cell, on axes where any appended centre is two radii away |
| `ClearanceReview.CandidateRow` | scripts/harness/analyze_candidate_clearance.py:1284-1317 | the causes, gathered one by one, and the clearances and status are those the specification gives that candidate |
| `ClearanceReview.RowIs` | scripts/harness/analyze_candidate_clearance.py:1284-1317 | coordinate by coordinate: a candidate near material is rejected by the cell exactly when a face of the region searched is nearer than the margin, by the volume exactly when an end of some axis is; it is safe when every radius searched fits; both distances are the least of six |
| `ClearanceReview.NominalIsIdle` | scripts/harness/analyze_candidate_clearance.py:799-803 | a row does not depend on where it was asked to look, only on where the provider looked |
| `ClearanceReview.OutsideMeans` | scripts/harness/analyze_candidate_clearance.py:1262-1283 | a candidate is out of place exactly when a coordinate leaves the volume, or the region searched with its high side open |
| `ClearanceReview.CandidateRows` | scripts/harness/analyze_candidate_clearance.py:1262-1320 | the rows are those of the candidates, and a defect is reported exactly when a candidate is malformed or repeated or the CT results are for other ids |
| `ClearanceReview.ReviewAgreesWithGate` | scripts/harness/analyze_candidate_clearance.py:1284-1302 | a candidate at an integer point is volume-rejected exactly when the gate does not count that voxel as admissible |
| `ClearanceReview.SoundRows` | scripts/harness/analyze_candidate_clearance.py:1262-1317 | with every candidate sound there is one row per candidate, in order |
| `ClearanceReview.RowMeans` | scripts/harness/analyze_candidate_clearance.py:1284-1317 | what a row says of clearing and being held is what its candidate's distances say |
| `ClearanceReview.ClassifyMeans` | scripts/harness/analyze_candidate_clearance.py:1366-1382 | the classification blames the margin exactly when every row is clear but for the volume minimum and some row is held by it |
| `ClearanceReview.VerdictIs` | scripts/harness/analyze_candidate_clearance.py:1366-1382 | when each of the four verdicts is given, in terms of the rows' states, causes and safety |
| `ClearanceReview.RegionAcceptedMeans` | scripts/harness/analyze_candidate_clearance.py:168-181 | a region is accepted exactly when each radius is from one to the limit and each centre lies in the volume |
| `ClearanceReview.RegionsAcceptedMeans` | scripts/harness/analyze_candidate_clearance.py:606-680 | a fixed seed pins the two regions together and allows radii to 4096; another lets them differ and allows 192 |
| `ClearanceReview.PolicyDefectMeans` | scripts/harness/analyze_candidate_clearance.py:1165-1190 | an accepted policy is a defect exactly when a margin is negative or under some radius searched, or the region asked for leaves the volume |
| `ClearanceReview.UncalibratedMeans` | scripts/harness/analyze_candidate_clearance.py:1366-1382 | a sound review blames the margin exactly when every candidate near material clears its cell and the query radius, and some are still held by the volume minimum |
| `ClearanceReview.UncalibratedNeedsMargin` | scripts/harness/analyze_candidate_clearance.py:883-917 | that verdict is produced only if the volume minimum exceeds the query radius, the volume holds a query cube, and the radius is one a region may have |
| `ClearanceReview.UncalibratedWitness` | scripts/harness/analyze_candidate_clearance.py:883-917 | and then a fixed region in the corner of the volume, with one candidate at its centre, produces it |
| `ClearanceReview.ReachableExactly` | scripts/harness/analyze_candidate_clearance.py:883-917 | a witness exists exactly when the advertised condition holds, every axis is longer than twice the radius, and the radius is at most 4096 |
| `ClearanceReview.ReachableClaimTooStrong` | scripts/harness/analyze_candidate_clearance.py:883-917 | two configurations called reachable that no accepted region can witness: a volume with room for the region but not the cube, and a radius above 4096 |
| `ClearanceReview.Sensitivity` | scripts/harness/analyze_candidate_clearance.py:1384-1403 | the sweep counts, for each percentage, the candidates its threshold keeps and the physically safe among them |
| `ClearanceReview.RetainedNested` | scripts/harness/analyze_candidate_clearance.py:1384-1403 | a smaller percentage keeps every candidate a larger one keeps |
| `ClearanceReview.SweepGrows` | scripts/harness/analyze_candidate_clearance.py:1384-1403 | so the retained candidates only grow as the percentage falls |
| `ClearanceReview.FullMarginIsUsable` | scripts/harness/analyze_candidate_clearance.py:1384-1403 | the row at one hundred percent is the usable count |
| `ClearanceReview.SafeCountSettles` | scripts/harness/analyze_candidate_clearance.py:1384-1403 | the physically safe count is constant once the threshold is at or below the query radius |
| `Artifacts.GetMeans` | framework/contracts/artifact.py:186-190 | with unique ids, the lookup returns the record with that id and fails exactly when there is none |
| `Artifacts.GetNeverChanges` | framework/contracts/artifact.py:186-190 | appending records never changes what an id already in the log means |
| `Artifacts.NewestIsLast` | framework/contracts/artifact.py:173-183 | the head of the listing is the last one registered exactly when its stamp beats every earlier one |
| `Artifacts.MatchingMembers` | framework/contracts/artifact.py:176-181 | filtering by phase and sample keeps exactly the matching rows |
| `Artifacts.Descendants` | framework/contracts/artifact.py:193-212 | the repeated passes end, and return exactly the registered artifacts reachable from the id through inputs |
| `Artifacts.DescendantsIgnoreOrder` | framework/contracts/artifact.py:193-212 | as a set, whatever order the rows are read in |
| `Artifacts.DescendantsComeLater` | framework/contracts/artifact.py:193-212 | where inputs precede what used them, everything reachable from a record comes later in the log |
| `Artifacts.Acyclic` | framework/contracts/artifact.py:162-164 | so no artifact is its own ancestor |
| `Selections.VersionIdInjective` | framework/contracts/artifact.py:265 | versions with different numbers have different ids |
| `Selections.RegisterIdempotent` | framework/contracts/artifact.py:136-149 | registering the same content for a phase and sample again returns the first record and adds none |
| `Selections.RegisterRecords` | framework/contracts/artifact.py:133-160 | content registered where no record of that phase and sample shares its first twelve digest digits gets one record at the end with exactly what was given; otherwise nothing is added and the one that does is the answer |
| `Selections.RegisterAnswersWhen` | framework/contracts/artifact.py:136-149 | the record returned was made of the content given exactly when no such record holds other content |
| `Selections.TwelveDigitsCollide` | framework/contracts/artifact.py:89-96 | two contents whose digests share twelve digits are one artifact, and the second is never recorded |
| `Selections.RunsAreNamed` | framework/contracts/artifact.py:133-160 | in every register a mission comes to, each id is its own record's phase, sample and digest |
| `Selections.StepKeepsInv` | framework/contracts/artifact.py:124-293 | every register, select, restore or run leaves each version whole, filed where it says and different from its neighbour |
| `Selections.SelectAnswers` | framework/contracts/artifact.py:236-274 | a selection is refused for a choice no record has, then for one filed under another phase or sample than the key splits into, then for equal choices; otherwise it is the next version, of just these choices |
| `Selections.RestoreAnswers` | framework/contracts/artifact.py:277-293 | a restore is refused exactly for a version not in the log or one whose choices are current; otherwise its reason names the version |
| `Selections.EveryRunKeepsInv` | framework/contracts/artifact.py:124-293 | and so does every sequence of them |
| `Selections.NothingIsLost` | framework/contracts/artifact.py:99-104 | both logs only ever grow at the end |
| `Selections.VersionsUnique` | framework/contracts/artifact.py:263-274 | no version id occurs twice in a log |
| `Selections.RestoreAlwaysWorks` | framework/contracts/artifact.py:277-293 | restoring a version succeeds exactly when its choices are not current, and makes them current without touching history |
| `Selections.ResolveSelected` | framework/contracts/artifact.py:304-309 | a selected key resolves to the chosen artifact, of the phase and sample the key splits into; that is the phase asked for exactly when it holds no slash |
| `Selections.ResolveNothing` | framework/contracts/artifact.py:310-312 | with nothing selected, nothing resolves exactly when nothing registered matches |
| `Selections.ResolveFallsBack` | framework/contracts/artifact.py:310-315 | with nothing selected it is the earliest of the latest stamps, and so the last registered exactly when that one stamp beats all earlier ones |
| `Selections.EmptyChoiceFallsBack` | framework/contracts/artifact.py:304-315 | an empty choice resolves as no choice does |
| `Selections.BrokenWhen` | framework/contracts/artifact.py:305-307 | resolving fails exactly at a choice that names no record |
| `Selections.KeyLookedUpWhen` | framework/contracts/artifact.py:251-256 | a selection key is one that some lookup uses exactly when its phase is upper case |
| `Selections.LowerCaseKeyIgnored` | framework/contracts/artifact.py:251-254 | a lower-case choice is accepted, logged, and then passed over for the newest artifact |
| `Selections.InputsRegistered` | framework/contracts/artifact.py:352-363 | a run's recorded inputs are all registered already |
| `Selections.InputsMean` | framework/contracts/artifact.py:352-363 | a run reads the resolved artifact of every upstream phase that has one, and nothing else |
| `Selections.RunsAreGrounded` | framework/contracts/artifact.py:366-401 | so in every history of recorded runs the inputs of each record come strictly before it |
| `Selections.RunKeepsInputsWhen` | framework/contracts/artifact.py:142-160 | what a run read is findable from its output exactly when the output is new or already had it; a run that reproduces known bytes adds nothing to the register |
| `Selections.MissionRegister.RegisterArtifact` | framework/contracts/artifact.py:124-170 | refuses an incomplete or missing artifact, answers one already known by the record it has, and otherwise appends one new record |
| `Selections.MissionRegister.SelectArtifacts` | framework/contracts/artifact.py:236-274 | selects exactly as specified and appends at most one version |
| `Selections.MissionRegister.RestoreSelection` | framework/contracts/artifact.py:277-293 | the logged version names no origin; the returned one does |
| `Manifests.ReadLine` | framework/contracts/artifact.py:82 | a line's path, size and digest can be read back even when the path contains newlines |
| `Manifests.DecodePrint` | framework/contracts/artifact.py:79-85 | a decoder recovers the exact entry list from the manifest text |
| `Manifests.PrintInjective` | framework/contracts/artifact.py:79-85 | so different entry lists have different texts, given only that no path contains NUL |
| `Manifests.ContentHash` | framework/contracts/artifact.py:69-86 | a file hashes by its bytes, a tree by one pass over its sorted manifest with count and size; a missing path and an empty directory are refused |
| `Manifests.NodeHashMeans` | framework/contracts/artifact.py:69-86 | a file is one file of its length; a directory counts its files and adds their sizes in whatever order; the two refusals are told apart |
| `Manifests.TotalIgnoresOrder` | framework/contracts/artifact.py:79-86 | the total size is the same in every order of the files |
| `Manifests.HashIgnoresOrder` | framework/contracts/artifact.py:79 | the hash does not depend on how the directory was enumerated |
| `Manifests.HashDeterminesTree` | framework/contracts/artifact.py:69-86 | equal hashes mean the same paths with the same contents |
| `Manifests.FileTreeCollide` | framework/contracts/artifact.py:74-86 | a file and a tree share a digest exactly when the file is the tree's own manifest |
| `Manifests.EveryTreeCollides` | framework/contracts/artifact.py:74-86 | and every tree has such a file |
| `SliceOrder.Collect` | framework/contracts/slice_order.py:94-104 | every regular file under some suffix, once, and errors exactly for a missing or malformed suffix |
| `SliceOrder.OrderedTiffFiles` | framework/contracts/slice_order.py:114-172 | collects and then orders as specified |
| `SliceOrder.NumericMeans` | framework/contracts/slice_order.py:88-91 | a name is numeric exactly when it is digits alone or digits, a dot and an extension, and its number is what the digits say |
| `SliceOrder.OrderWhen` | framework/contracts/slice_order.py:114-172 | which refusal or policy the files get, in terms of which are numeric and whether a number repeats |
| `SliceOrder.NotContiguousWhen` | framework/contracts/slice_order.py:150-172 | contiguity is refused exactly when some number between two of the files' is nobody's |
| `SliceOrder.OrderIgnoresEnumeration` | framework/contracts/slice_order.py:114-172 | the order, its policy and its refusals do not depend on how the directory was enumerated |
| `SliceOrder.OrderAscends` | framework/contracts/slice_order.py:114-172 | under a numeric policy the result is a permutation, strictly ascending by number, and consecutive when that was asked for |
| `SliceOrder.LexicographicSorts` | framework/contracts/slice_order.py:114-172 | with no numeric stem the names themselves are sorted |
| `SliceOrder.ResolveSlice` | framework/contracts/slice_order.py:175-212 | the map filled in a loop finds the file with that number, and each refusal names a defect the files have |
| `SliceOrder.StackPosition` | framework/contracts/slice_order.py:215-242 | likewise for the position of a number in a stack |
| `SliceOrder.ResolveAgreesWithPosition` | framework/contracts/slice_order.py:175-242 | the two fail on the same numbers and otherwise name the same file |
| `SliceOrder.ContiguousPosition` | framework/contracts/slice_order.py:215-242 | in a contiguous stack number i sits at i minus the first number |
| `SliceOrder.ExactNumericTiffInventory` | scripts/harness/run_first_letters_positive_control.py:368-389 | the loop accepts exactly the inventories whose keys are the bare numbers 0 to n-1, each once |
| `SliceOrder.TiffKeyMeans` | scripts/harness/run_first_letters_positive_control.py:377-384 | a key is accepted exactly when it is digits and .tif |
| `SliceOrder.ExactMeans` | scripts/harness/run_first_letters_positive_control.py:368-389 | an inventory is exact when its keys carry each number from zero up once and it lists them in order under the contiguous policy |
| `SliceOrder.InventoryOrders` | scripts/harness/run_first_letters_positive_control.py:368-389 | a directory holding an accepted inventory orders so that slice i sits at position i and is found there |
| `ExecutionMode.ExploratoryIsAskedFor` | framework/contracts/execution_mode.py:51-65 | the permissive lane opens only for its own name, in any case and padding; a string of blanks is refused |
| `ExecutionMode.ParseMeans` | framework/contracts/execution_mode.py:51-65 | when the certified lane opens, when a value is not a string, and when it is no mode |
| `ExecutionMode.TruthyMeans` | framework/contracts/execution_mode.py:84-86 | a value counts as said unless it is null, false, zero or empty |
| `ExecutionMode.QuotesMeans` | framework/contracts/execution_mode.py:90-100 | the bounded recursion finds exactly the trees with a path deeper than twenty-four or ending at a dictionary that disowns itself |
| `ExecutionMode.CertifiedMeans` | framework/contracts/execution_mode.py:68-87 | a document is certified exactly when stamped so, without reasons, no deeper than twenty-four, and with no such dictionary at any path |
| `ExecutionMode.DeclaresMeans` | framework/contracts/execution_mode.py:103-130 | a document declares itself uncertified exactly through its reasons or anything it quotes, itself included |
| `ExecutionMode.NeverBoth` | framework/contracts/execution_mode.py:103-130 | no document is certified and declares itself uncertified |
| `ExecutionMode.QuotingSpreads` | framework/contracts/execution_mode.py:75-77 | whatever holds, at any depth, a document that is or quotes an exploratory or uncertified one is not certified |
| `ExecutionMode.NoLaundering` | framework/contracts/execution_mode.py:15-18 | nor is anything in a chain of receipts of any length that starts from such a document |
| `ExecutionMode.UncertifiedStampSticks` | framework/contracts/execution_mode.py:187-208 | a document stamped by a run that is not certified is never certified again in any context or chain, and every document in the chain declares it |
| `ExecutionMode.StampedWhen` | framework/contracts/execution_mode.py:187-208 | only a dictionary can be stamped, and only one without any of the three keys of a stamp |
| `ExecutionMode.StampSays` | framework/contracts/execution_mode.py:187-208 | the lane by name, whether it certifies, and if not every unmet precondition in order and the non-claim |
| `ExecutionMode.CertifiedStampIsEarned` | framework/contracts/execution_mode.py:187-208 | a certified stamp certifies exactly the bodies that quote nothing uncertified |
| `ExecutionMode.HeldCertifiedWhen` | framework/contracts/execution_mode.py:90-100 | some certified document holds a document inside exactly when, read one level down, that quotes nothing uncertified; its own reasons are not asked |
| `ExecutionMode.LaunderedWhen` | framework/contracts/execution_mode.py:75-77 | so what declares itself uncertified and passes inside a certified document is exactly what does so by its reasons alone |
| `ExecutionMode.ReasonsAreLaundered` | framework/contracts/execution_mode.py:68-100 | a receipt stamped certified with a reason against it is refused alone and passes inside one |
| `ExecutionMode.Trust.Certified` | framework/contracts/execution_mode.py:158-167 | certification is the lane asked for, whatever happened since |
| `ExecutionMode.Trust.Blocks` | framework/contracts/execution_mode.py:169-179 | an unmet precondition stops exactly a certified run; otherwise it is on record, once, in the order first raised |
| `ExecutionMode.Trust.BlocksUncertifiedInput` | framework/contracts/execution_mode.py:181-185 | a certified run never gets past an uncertified document, and an exploratory one only with a record of it |
| `ExecutionMode.Trust.Stamp` | framework/contracts/execution_mode.py:187-208 | a stamped document keeps each of its own fields, except a non-claim of its own that an uncertified stamp replaces by another; it is certified exactly when the lane is and the body quotes nothing uncertified |
| `ExecutionMode.OpenRun` | framework/contracts/execution_mode.py:154-156 | a run opens in the lane parsed, or not at all |
| `ExecutionMode.RequireCertifiedInput` | framework/contracts/execution_mode.py:133-138 | evidence is let through exactly when it is certified at every path |
| `Winding.MajorityHoldsMedian` | framework/contracts/winding.py:157-162 | where a strict majority of values lies between two bounds, so does the median |
| `Winding.HalfIsNotEnough` | framework/contracts/winding.py:157-162 | with exactly half in place the median can be any distance away |
| `Winding.MedianIgnoresOrder` | framework/contracts/winding.py:157-162 | permuted values have the same median |
| `Winding.Locate` | framework/contracts/winding.py:74-94 | the loop reduces a cloud to the medians of its radii, angles and heights, and an empty one to nothing |
| `Winding.LocateIgnoresOrder` | framework/contracts/winding.py:74-94 | the position does not depend on the order of the points |
| `Winding.FrameReads` | framework/contracts/winding.py:74-94 | in an orthonormal frame a point given by its steps from the centre has the radius and the angle of the two across the axis and the height of the one along it |
| `Winding.CompareSymmetric` | framework/contracts/winding.py:97-137 | swapping the surfaces together with the expectation keeps the verdict |
| `Winding.SeparationIsRobust` | framework/contracts/winding.py:77-79 | with a strict majority of each cloud within d of its radius, the measured separation is within 2d of the true one |
| `Winding.VerdictIsRobust` | framework/contracts/winding.py:97-137 | so the verdict is the one the true radii deserve whenever they are 2d clear of the thresholds; only one to three shared bins, or a negative count, make two surfaces incomparable |
| `Sessions.WhoAmIMeans` | framework/contracts/auth.py:199-254 | a token is somebody's at a time exactly when a login of theirs issued it, thirty days have not passed, and since then nobody logged it out, deleted the account or was issued the same token; pruning changes no answer |
| `Sessions.LiveStep` | framework/contracts/auth.py:199-254 | how one more event changes who holds a token |
| `Sessions.RefusedWhen` | framework/contracts/auth.py:145-215 | which attempt is refused, and with which word, in terms of the name's characters, the password's length and the accounts there are |
| `Sessions.PasswordIsLastSet` | framework/contracts/auth.py:145-175 | the password an account answers to is the one last set by creating it or changing it |
| `Sessions.LoginPrunes` | framework/contracts/auth.py:215-232 | a login drops exactly the other sessions whose time is up |
| `Sessions.StepAnswers` | framework/contracts/auth.py:178-254 | how one operation changes the store's answer, expired entries removed or not |
| `Sessions.StepKeepsSound` | framework/contracts/auth.py:145-254 | every session belongs to an existing account, every account has an acceptable name and password, and a store with accounts keeps one |
| `Sessions.RunsAreSound` | framework/contracts/auth.py:145-254 | over every trace; once an account exists the store is never empty again |
| `Sessions.WhoAmIExists` | framework/contracts/auth.py:235-245 | a token is only ever an existing account's |
| `Sessions.PasswordKeepsSessions` | framework/contracts/auth.py:167-175 | changing a password changes no token's answer |
| `Sessions.Panel.CreateUser` | framework/contracts/auth.py:145-164 | refuses exactly as the trace says and otherwise adds the normalised account |
| `Sessions.Panel.ChangePassword` | framework/contracts/auth.py:167-175 | refuses exactly as the trace says and otherwise replaces only the password |
| `Sessions.Panel.DeleteUser` | framework/contracts/auth.py:178-194 | refuses the last account, and otherwise removes the account with its sessions |
| `Sessions.Panel.LogIn` | framework/contracts/auth.py:199-232 | succeeds exactly for the account's password, and the token then answers for thirty days |
| `Sessions.Panel.LogOut` | framework/contracts/auth.py:248-254 | the token answers for nobody afterwards |
| `ConfigVersions.Diff` | framework/contracts/config_version.py:179-186 | the loop records exactly the keys whose values differ |
| `ConfigVersions.PatchDiff` | framework/contracts/config_version.py:179-186 | a diff applied reaches the new settings, undone returns to the old and is then the diff of going back, and is empty only between equals |
| `ConfigVersions.IdShaped` | framework/contracts/config_version.py:41-42 | an id fits the pattern exactly while its number is at most 9999 |
| `ConfigVersions.ShapedMeans` | framework/contracts/config_version.py:151-156 | an id fits the pattern exactly when it is cfg, four digits and six to thirty-two lower-case hexadecimal digits between dashes, with perhaps a newline after |
| `ConfigVersions.IdsDiffer` | framework/contracts/config_version.py:41-42 | versions with different numbers have different ids |
| `ConfigVersions.BaselineStarts` | framework/contracts/config_version.py:70-99 | an empty directory gets version 0 with the defaults, no changes, and the reason of a baseline |
| `ConfigVersions.BaselineIsOnce` | framework/contracts/config_version.py:77-79 | and never a second one |
| `ConfigVersions.CommitContinues` | framework/contracts/config_version.py:102-141 | a commit is refused exactly when it changes nothing, and otherwise continues the history: next number, child of the last, different from it, named by CURRENT |
| `ConfigVersions.UnchangedWhen` | framework/contracts/config_version.py:119-120 | a commit is refused exactly when the settings are current and it names nothing restored, an empty name counting as none |
| `ConfigVersions.GetFinds` | framework/contracts/config_version.py:151-161 | an id is found exactly when it is a version of the history numbered at most 9999; an ill-formed id and an absent one are told apart |
| `ConfigVersions.RestoreContinues` | framework/contracts/config_version.py:164-176 | a restore succeeds exactly for such a version whose settings are not current, reproduces them, and its recorded changes lead there from the parent |
| `ConfigVersions.RestoreAnswers` | framework/contracts/config_version.py:164-176 | a restore answers the errors of the lookup, refuses what is current, and otherwise records the target's id and quotes its reason |
| `ConfigVersions.RunsAreHistories` | framework/contracts/config_version.py:70-176 | every sequence of attempts leaves a history numbered 0, 1, 2 and so on, and only ever extends it |
| `ConfigVersions.Registry.constructor` | framework/contracts/config_version.py:70-99 | a new directory holds its baseline |
| `ConfigVersions.Registry.Ensure` | framework/contracts/config_version.py:77-79 | returns the current version of an existing history |
| `ConfigVersions.Registry.HighestIndex` | framework/contracts/config_version.py:122-123 | the largest index on disk, zero for none |
| `ConfigVersions.Registry.CommitVersion` | framework/contracts/config_version.py:102-141 | commits on any directory exactly as specified |
| `ConfigVersions.Registry.Change` | framework/contracts/config_version.py:102-141 | a panel's commit keeps the directory a history and is refused exactly when nothing changed |
| `ConfigVersions.Registry.RestoreAny` | framework/contracts/config_version.py:164-176 | restores on any directory exactly as specified |
| `ConfigVersions.Registry.RestoreVersion` | framework/contracts/config_version.py:164-176 | succeeds exactly for a findable version that is not current, and keeps the directory a history |
| `ConfigVersions.Registry.History` | framework/contracts/config_version.py:45-56 | lists every version, oldest first, from files read in any order |
| `Missions.CreateStarts` | framework/contracts/mission.py:115-172 | a new mission is a draft with exactly the scrolls named, in strict order |
| `Missions.CreatedWhen` | framework/contracts/mission.py:115-140 | what keeps a mission from being created, in order: its id, a blank name, a scroll named twice, an id taken |
| `Missions.GoodIdMeans` | framework/contracts/mission.py:49-49 | an id is three to sixty-four of a to z, 0 to 9 and dash without a dash at an end, and may end with a newline |
| `Missions.CleanedMeans` | framework/contracts/mission.py:120-130 | the names kept are those with anything in them, trimmed |
| `Missions.AscendingUnique` | framework/contracts/mission.py:149 | a selection is determined by which scrolls are in it |
| `Missions.ChangeMeans` | framework/contracts/mission.py:347-416 | a successful call changes the set of scrolls by exactly what its amendment would say, and always changes it |
| `Missions.AddedWhen` | framework/contracts/mission.py:347-376 | an addition goes through exactly when it names a scroll the mission has not got and, with work or a job queued, says why; which refusal it gets otherwise |
| `Missions.RemovedWhen` | framework/contracts/mission.py:379-416 | a removal goes through exactly when it names a selected scroll, none it names has work and, with work or a job queued, it says why; which refusal it gets otherwise |
| `Missions.StepKeepsSound` | framework/contracts/mission.py:347-416 | scrolls stay strictly sorted, every recorded amendment moved something and gives a reason, and a stamp once set stays |
| `Missions.ReplayKeptIffFrozen` | framework/contracts/mission.py:363-374 | the amendments go on replaying to the selection across a call exactly when the call was made frozen |
| `Missions.RunsAreSound` | framework/contracts/mission.py:347-416 | the same over every sequence of calls; amendments only accumulate |
| `Missions.SelectionReplays` | framework/contracts/mission.py:347-416 | nothing is recorded on a draft; from the first frozen call on, the selection then and the amendments since, in order, give the selection |
| `Missions.MonotoneFreezes` | framework/contracts/mission.py:363-403 | where frozenness never goes away again there is a first frozen call |
| `Missions.WorkStays` | framework/contracts/mission.py:332-344 | a mission with a receipt still has work as long as run directories and their files are kept |
| `Missions.IsReceiptMeans` | framework/contracts/mission.py:332-344 | a receipt is a name of the form anything, RECEIPT, anything, .json |
| `Missions.GrowingFreezes` | framework/contracts/mission.py:332-363 | where they are, and queued jobs are not forgotten, frozenness never goes away again |
| `Missions.ProtectedStays` | framework/contracts/mission.py:395-401 | a scroll protected in every removal never leaves |
| `Missions.AdditionGrows` | framework/contracts/mission.py:347-376 | a successful addition strictly widens the selection |
| `Missions.RemovalBounds` | framework/contracts/mission.py:389-409 | a successful removal strictly narrows it and drops nothing protected |
| `Missions.Mission.AmendScrolls` | framework/contracts/mission.py:347-376 | refuses and changes the manifest exactly as specified, and keeps a sound manifest sound |
| `Missions.Mission.RemoveScrolls` | framework/contracts/mission.py:379-416 | refuses and changes the manifest exactly as specified, and keeps a sound manifest sound |
| `HybridGates.SummarizeFolds` | framework/contracts/hybrid_surface_contracts.py:319-324 | summaries of groups summarize to the summary of everything in them, in any order |
| `HybridGates.GateSemantics` | framework/contracts/hybrid_surface_contracts.py:327-364 | the validator reports nothing exactly when every declared status is the one implied below it |
| `HybridGates.RoiMeans` | framework/contracts/hybrid_surface_contracts.py:318-326 | a region is positive exactly when each axis's low bound is below its high one |
| `HybridGates.AcceptedMeans` | framework/contracts/hybrid_surface_contracts.py:341-358 | in an accepted evaluation overall is the summary of all requirements in any order; PILOT_PASS means every one passed; REJECT_FOR_TARGET that a G2 to G4 one failed; KEEP_EXPERIMENTAL that geometry passed and a G5 one failed |
| `HybridGates.Observe` | framework/contracts/hybrid_surface_contracts.py:266-287 | one pass sums areas and counts by class and reports exactly the regions with the wrong components |
| `HybridGates.ComparisonSemantics` | framework/contracts/hybrid_surface_contracts.py:234-316 | the validator reports nothing exactly when the two surfaces are distinct and identified and every declared total agrees with the regions |
| `HybridGates.AgreesMeans` | framework/contracts/hybrid_surface_contracts.py:234-316 | an accepted comparison in full: each region from the backends its class says, the counts exact, both lists of areas within 1e-8, the percentiles in order |
| `HybridGates.IdentifiedMeans` | framework/contracts/hybrid_surface_contracts.py:234-264 | the surfaces differ in id and content and are of the two families, and the agreement distance is two voxels or half the sheet separation, whichever is less, within 1e-9 |
| `HybridGates.SidedMeans` | framework/contracts/hybrid_surface_contracts.py:273-287 | consensus needs both backends, a one-sided region its own backend only, a disagreement neither |
| `HybridGates.ClassesPartition` | framework/contracts/hybrid_surface_contracts.py:266-272 | the classes' counts and areas add up to all regions and all area |
| `HybridGates.ComparisonConserves` | framework/contracts/hybrid_surface_contracts.py:288-315 | in an accepted comparison declared counts sum to the number of regions, and declared areas, in summary and aggregate, to the total area within the per-class tolerance times four |

## Left out

- PositiveControl.Control.P0: the runtime and artifact bindings it compares are one condition that may hold, fail or raise.
- PositiveControl.Control.P1: the content of the discovery, seed and growth evidence is likewise one condition per branch; order, outcomes and mutations are kept.
- PositiveControl.Control.P2: the evidence conjunctions behind its verdict are flags, except for the certification state and the job id.
- PositiveControl.Control.QC: the receipt and profile comparisons are one condition per branch.
- PositiveControl.Control.P3: the flattening evidence is one condition per branch.
- PositiveControl.Control.P4: the orientation proof, lineage and layer manifest are one condition each; the manifest's numbering is proved in SliceOrder.
- PositiveControl.Control.P5: the metric, model, lineage and map evidence are one condition each.
- PositiveControl.Control.P7: the region, scale, lineage and packet evidence are one condition each.
- PositiveControl.Control.HumanReview: the comparison of the review event is one condition.
- HTTP, cookies, TLS, subprocesses, databases, object stores and GPU probes: their outcomes are arbitrary choices of the model.
- File reading and writing: files are fields; corrupt or foreign files, partial writes, `fsync` and permissions are not modelled.
- Concurrent writers to one file: calls are sequential, as the code has no locking there.
- JSON Schema validation, field-by-field request validation and the per-boundary evidence conjunctions: one opaque condition each.
- Progress announcements, exit codes, printed messages, receipt prose and non-claims, except where a result carries them.
- Clock readings within one operation: a login prunes every session against one reading, and a mission change stamps its amendment and its freeze with one.
- ISO time stamps compared as text: modelled as numbers of seconds, which order the same way.
- Unicode: trimming, case and digits are ASCII; other scripts' digits, blanks and case pairs are not modelled.
- Rounding: `real` arithmetic stands for floating point in winding, clearance fractions and area sums; the rounded evidence text of the winding verdict is not modelled.
- Trigonometry and square roots: `axis_frame` is a given frame, and `hypot` and `atan2` are arbitrary functions.
- Salted password hashing: a stored hash verifies exactly its own password; timing is not modelled. Machine tokens, the same map with less to it, are omitted.
- Jobs created at the same instant: a listing takes the order they joined the fleet, where the database may break the tie either way.
- The further bindings of a region under the probe seed policies: only their bounds on centre and radius are modelled, which the exact reachability condition does not depend on.
- `queue_retained_surfaces.py --dry-run` and `--adjudicate`: the first changes nothing and the second repeats a simpler pass.
- Glob metacharacters in a TIFF suffix, which would match more than a literal ending.
- The order of keys inside JSON objects, including the sorted `changed` and `settings` maps: maps are unordered.
- A receipt whose stage rows are not objects, which makes the evaluator raise.
- The campaign binding fields of a mission manifest and its validation: separate from the selection.
- `discover`, `set_state` and `resolve` of missions, and `upstream_phases` of the pipeline contract: listings and file reads; a run's upstream phases are a parameter.
- `surface_artifact` and `segmentation_backend_run` validators: one independent condition per branch.
- The other two controls' runners, `campaign_x.run_live`, `camplog.py`, `images.py`, `physical_scale.py` and `versioning.py`: weaker repeats of what is here.
