# Verified models of btviz

btviz tracks Bluetooth Low Energy devices with several sniffer dongles. This project models the parts of it that
carry real invariants and proves what they are for. Apart from named counterexamples, every proposition is for all
inputs, all runs or all reachable states; code that works step by step is modelled as methods and classes proved
against specification functions, and the properties are lemmas about those functions. `dafny verify dfyconfig.toml` checks everything.

| part | files |
|---|---|
| device clusters in the database | `ClusterTable`, `ClusterRuns`, `ClusterStickiness`, `ClusterRepeat`, `ClusterEvidence`, `ClusterStore` |
| one clustering run and its union-find | `Connectivity`, `UnionFind`, `ClusterRunner`, `ClusterRun`, `ClusterAgreement` |
| the verdict on a pair and its signals | `Aggregator`, `VerdictScore`, `Scorers`, `SignalMeanings`, `Reals` |
| byte codecs and stream framing | `Octets`, `Slip`, `SlipReader`, `Framing`, `AdStream`, `ExtendedAdv`, `Auracast`, `AuracastShape`, `Continuity` |
| ingest: identities, live batches, observation rows | `Identity`, `IdentityFields`, `Observations`, `LiveIngest`, `LiveIngestRuns`, `IngestByAddress`, `LiveCounts`, `Sums` |
| sniffer roles, coverage, stalls | `Coordinator`, `CaptureCoordinator`, `DefaultPlan`, `Watchdog`, `StallRecovery` |
| bounded buffers | `BinClock`, `ChannelBins`, `RotatingSink`, `SinkRuns`, `SinkSizes` |
| collapsing clusters on the canvas | `Collapse`, `CollapseSignal`, `CollapseMean`, `CollapseMembers`, `Canvas` |

## Where code and promise differ

The models follow the code. These are the places where it does not do what its documentation says, or only under a
condition; each condition is stated and proved.

- Confirmed clusters are promised to stay, but a merge keeps the lower id with its own flag
  (`src/btviz/db/repos.py:1445`). Under runs of one source, and the clustering tick issues only "auto" ones
  (`src/btviz/ui/canvas.py:4176`), the promise holds: a pair is safe exactly when its own cluster is confirmed or of
  another source, or no third device is known (`StickyUnderOneSource`). Under runs of any sources, which `apply_run`
  accepts, every older non-empty cluster has to be confirmed too (`StickyExactly`); `ConfirmedIsNotEnough` is a table
  where runs of two sources lose a confirmed cluster, and `OneSourceIsEnough` shows that "auto" runs alone do not.
  Merges also cross sources, so a manual cluster can be absorbed by an automatic one.
- The docstring of `Clusters` tells of wiping a source and of union-find; the code is additive and relabels. A decision
  pairing a device with itself, which the runner never issues, would open a one-device cluster.
- The walker that re-pairs flattened service data is right for every content of an advertisement of a given shape exactly
  when each 0x16 structure is read at its own array elements, structures without payload aside (`WalkIsDirectExactly`).
  Four lemmas name inputs that break it: two UUIDs in one list, a solicitation list, service data with a wide UUID, and
  service data too short for its UUID followed by a UUID list; without lists, solicitations and wide UUIDs, service data
  of any lengths does no harm (`ShortDataAloneIsExact`). The fallback scan can invent a broadcast from another service's payload
  (`FallbackInventsBroadcast`).
- A well-formed extended frame whose payload has fewer than six octets, such as the short last fragment of a chain, is
  dropped by the length check meant for legacy frames (`ExtendedFrameRoundTrip`, `ShortChainFragmentIsDropped`).
- A control message cut inside its payload is handed on with an empty payload (`CutMessage`).
- Restarting a scanning sniffer leaves it stopped until another role changes (`RestartSettlesExactly`,
  `RestartedScanStaysDown`). The watchdog restarts silent sniffers that way, and one that is down is neither restarted
  again nor reported (`SilentScannerIsLost`); with a single dongle, which scans by default, one silence ends all capture
  until a role is set again (`LoneScannerGoesDark`). A sniffer pinned after following keeps its old target (`ResidueExactly`,
  `PinAfterFollowKeepsTarget`).
- A repeated dongle id can lose coverage (`RepeatedDongleLosesCoverage`); `PlanCoversExactly` says when.
- The watchdog takes a time of exactly zero for "never", which disarms its minimum gap (`ZeroClockDefeatsGap`).
- The bin clock of the channel strip advances at most 30 bins a roll, so after a long idle gap it lags and drops packets
  early (`IdleGapLosesPacket`). Which packets, and how many, follows from the event times alone (`LostExactly`,
  `ShortByLost`).
- The rotating sink checks the size on disk, which does not hold unflushed text, and writes an oversized text whole.
  `FilesNeverOverExactly` says from the sizes written and handed over when a file exceeds the maximum, and
  `FlushedFilesNeverOverExactly` that with a flush after each write only a single oversized text does it.
  `NeverOverExactly` and `FlushedNeverOverExactly` say the same counting what is still buffered for the file. With a backup
  count of 0 it still keeps one backup. Once the current file is deleted behind it, no later write reaches a file or
  reopens it (`RotatingTextSink.Write`).
- `last_seen` of an observation or history row is the latest arrival's time, not the greatest (`SeenTimes`), so a window
  can run backwards; then the window and carry-over signals can depend on which device comes first
  (`WindowSymmetricExactly`, `TimeApartSymmetricExactly`, `CarryoverOrderFreeExactly`).
- A device that changes its company id keeps the vendor name of the first one (`VendorMatchesExactly`,
  `VendorGoesStale`).
- The mean signal of a collapsed cluster is meant to be the packet-weighted mean of the members that have one. It is,
  whatever those means are, exactly when no silent member with packets stands before a second or later sounding member
  with packets (`BlendIsMeanExactly`); otherwise it also depends on the order (`SilentMemberSkewsMean`).
- Collapsing overlapping clusters can take a device off the canvas (`NestedBoxVanishes`); `CollapseAccountsExactly`
  says when, and `CanvasAccountsAfterRuns` that stored clusters never do.

## Model

| member | source | states |
|---|---|---|
| ClusterTable.StepGood | src/btviz/db/repos.py:1430-1498 | One merge edge keeps the tables sound: no member row dangles, no device is in two clusters, no id is reused, and a merge never meets a duplicate primary key |
| ClusterRuns.StepShape | src/btviz/db/repos.py:1430-1498 | All four branches have one effect: the devices joined by the edge move to the oldest cluster involved (or a new one), nobody else moves |
| ClusterRuns.FoldJoins | src/btviz/db/repos.py:1430-1498 | After a run every decided pair shares a cluster and every pair that shared one after the wipe still does |
| ClusterRuns.RunPartition | src/btviz/db/repos.py:1350-1500 | After `apply_run`, two devices share a cluster if and only if surviving rows and decision edges connect them |
| ClusterStickiness.FinalCluster | src/btviz/db/repos.py:1442-1498 | A component ends under the lowest surviving cluster id, and under a new, confirmed id only if none survived |
| ClusterStickiness.FoldAged | src/btviz/db/repos.py:1430-1498 | Membership only moves to older clusters; a kept row keeps its source and confirmed flag, a new row is confirmed |
| ClusterStickiness.OneRunSeparates | src/btviz/db/repos.py:1395-1405 | Some single run of decisions about two different devices, under whatever source, separates a pair sharing a cluster if and only if that cluster is unconfirmed and a third device is known |
| ClusterStickiness.StickyExactly | src/btviz/db/repos.py:1350-1500 | A pair sharing a cluster stays together over every sequence of runs of `apply_run`, under any sources, about different devices, if and only if that cluster and every older non-empty one are confirmed, or no third device is known |
| ClusterStickiness.StickyUnderOneSource | src/btviz/db/repos.py:1350-1500 | Over every sequence of runs of one source, as the clustering tick issues them, a pair sharing a cluster stays together if and only if that cluster is confirmed or of another source, or no third device is known |
| ClusterRepeat.ConfirmedIsNotEnough | src/btviz/db/repos.py:1442-1464 | A table in which, under runs of two sources, a confirmed cluster is swallowed by an older unconfirmed one and then torn down |
| ClusterRepeat.OneSourceIsEnough | src/btviz/db/repos.py:1350-1412 | On the same table no sequence of "auto" runs separates the pair |
| ClusterRepeat.RunsCoarsen | src/btviz/db/repos.py:1350-1500 | From an all-confirmed table, over any sequence of runs, the table stays all-confirmed and no pair once together is separated |
| ClusterRepeat.RepeatRun | src/btviz/db/repos.py:1350-1500 | Repeating a run with the same decisions changes no membership, creates no cluster and returns 0 |
| ClusterRepeat.RowCount | src/btviz/db/repos.py:1430-1498 | Cluster rows after a run are the rows left by the wipe, plus inserts, minus merges |
| ClusterRepeat.BestIsFirstMaximum | src/btviz/db/repos.py:1502-1536 | The evidence stored with a member is the first of the highest-scoring verdicts that mention the device, if any beats the floor |
| ClusterRepeat.LookupKeepsLast | src/btviz/db/repos.py:1414-1419 | The decision lookup keeps, for each unordered pair, the last verdict |
| ClusterEvidence.FoldStamps | src/btviz/db/repos.py:1430-1498 | A cluster row carries the run's time exactly where a decision bears on one of its devices; every other row is untouched |
| ClusterEvidence.FoldRowsAre | src/btviz/db/repos.py:1485-1494 | A row the run has made carries its time, its source and the confirmed flag; any other is an old one, restamped at most |
| ClusterEvidence.FoldEvidence | src/btviz/db/repos.py:1430-1536 | Merging loses no evidence: an old member keeps its own, a new one gets the evidence of this run, which `RunEvidence` describes |
| ClusterEvidence.RunEvidence | src/btviz/db/repos.py:1414-1536 | After a run every member row that survived says what it said, wherever its device moved; any other carries the run's time and source and, if a verdict about the device scores above -2, the first of the highest-scoring ones in the lookup |
| ClusterEvidence.EvidenceIsStrongest | src/btviz/db/repos.py:1414-1536 | In terms of the decisions: that verdict comes from a decision about the device that no later one on the same pair replaces, and none of those outscores it |
| ClusterEvidence.LookupInOrder | src/btviz/db/repos.py:1414-1419 | Between pairs the lookup keeps the order in which they first came up, which settles ties |
| ClusterStore.Clusters.LoadIndex | src/btviz/db/repos.py:1382-1413 | The in-memory map equals the member table |
| ClusterStore.Clusters.Merge | src/btviz/db/repos.py:1442-1464 | The absorb statements and the map update: the tables become the specified absorb and the map still equals the member table |
| ClusterStore.Clusters.Attach | src/btviz/db/repos.py:1465-1484 | An unattached device joins an existing cluster; map and table stay equal; refused when the device row is missing |
| ClusterStore.Clusters.CreatePair | src/btviz/db/repos.py:1485-1498 | A new confirmed cluster holds exactly the two devices; map and table stay equal |
| ClusterStore.Clusters.AddMember | src/btviz/db/repos.py:1502-1536 | One INSERT OR IGNORE with the best evidence; fails exactly when the device row does not exist |
| ClusterStore.Clusters.ApplyEdge | src/btviz/db/repos.py:1430-1498 | One loop iteration performs the specified step; map and table stay equal |
| ClusterStore.Clusters.ApplyEdges | src/btviz/db/repos.py:1430-1498 | The loop performs the specified fold, fails exactly on an unknown device, and returns the number of inserts |
| ClusterStore.Clusters.ApplyRun | src/btviz/db/repos.py:1350-1500 | The whole call equals the specified run; an unknown device leaves the tables as they were; the result is the number of new clusters |
| Connectivity.SameComponents | src/btviz/cluster/runner.py:165-195 | Two graphs in which each edge of one is a path of the other have the same connectivity; the independence of input order rests on it |
| Connectivity.LabelRespectsConnectivity | src/btviz/cluster/runner.py:165-195 | A labelling constant on every edge is constant on connected vertices |
| UnionFind.ClimbsToRoot | src/btviz/cluster/runner.py:175-180 | In a forest with ranks, following parents ends at a root |
| UnionFind.HalvingKeepsForest | src/btviz/cluster/runner.py:175-180 | A path-halving step keeps the parent map a forest and moves no root |
| UnionFind.LinkingKeepsForest | src/btviz/cluster/runner.py:181-186 | Linking one root under another keeps the forest and changes roots exactly for the linked tree |
| UnionFind.DisjointSets.Find | src/btviz/cluster/runner.py:175-180 | Terminates, returns the root, and leaves every root as it was |
| UnionFind.DisjointSets.Union | src/btviz/cluster/runner.py:181-186 | Afterwards the two trees have one root and all others keep theirs |
| UnionFind.JoinKeepsComponents | src/btviz/cluster/runner.py:181-186 | If roots equal connectivity before an edge, they do after joining along it |
| UnionFind.Close | src/btviz/cluster/runner.py:165-189 | After all merges, two devices have the same root if and only if merge edges connect them; edges to unknown devices are skipped |
| ClusterRunner.ComputeClosure | src/btviz/cluster/runner.py:165-195 | The cluster count is the number of connected components; within one class per component, the per-class counts are the components of that class |
| ClusterRunner.ComponentIsOneClass | src/btviz/cluster/runner.py:165-195 | If edges stay within a class, so do components |
| ClusterRunner.RepresentativesCount | src/btviz/cluster/runner.py:187-195 | Counting one representative per component counts components |
| ClusterRun.SameClassPairs | src/btviz/cluster/runner.py:289-300 | The candidates are exactly the ordered same-class pairs of classes within the cap, each once |
| ClusterRun.CandidatesExactly | src/btviz/cluster/runner.py:124-143 | The pairs looked at are the positions, first before second, of two devices of one class that has no more positions than the cap |
| ClusterRun.MergeGraphExactly | src/btviz/cluster/runner.py:197-300 | The merge edges are the ids of those pairs that are judged to merge, asked in the order in which the devices stand |
| ClusterRun.EvaluateAll | src/btviz/cluster/runner.py:197-253 | Each pair gets exactly one of merge, no-merge or abstain, and the merge edges are exactly the merging pairs |
| ClusterRun.RunOnce | src/btviz/cluster/runner.py:105-163 | One run: outcomes add up to the pairs evaluated, skipped classes are those over the cap, and the counts are the components of the merge graph, in all and per class |
| ClusterRun.OrderFree | src/btviz/cluster/runner.py:105-163 | With a symmetric verdict, the input order of the devices changes no component, in all or of any class |
| ClusterRun.SkippedStaysAlone | src/btviz/cluster/runner.py:105-163 | A device of a skipped class is alone in its component |
| ClusterRun.RunComponentsAreOneClass | src/btviz/cluster/base.py:124-136 | Every component of a run lies within one device class |
| ClusterAgreement.SamePartition | src/btviz/db/repos.py:1350-1500 | From empty tables, `apply_run` puts two devices together exactly when union-find over the same edges gives them one root |
| ClusterAgreement.SameCount | src/btviz/cluster/runner.py:165-195 | The runner's cluster count equals the stored clusters plus the unclustered devices |
| Aggregator.ClusterPair | src/btviz/cluster/aggregator.py:36-214 | The identity-key short circuit, the accumulation and the decision equal the specified judgement, abstains included |
| VerdictScore.VerdictExactly | src/btviz/cluster/aggregator.py:68-184 | Case by case, where the identity key has no say: a silent signal required for a merge rejects with score 0 and is named; a decisive one merges with the strongest decisive score; one required eventually that is silent, or too little weight, abstains; otherwise score times weight is the weighted sum, or the score is 0 without weight, and the threshold decides |
| VerdictScore.KeyDecides | src/btviz/cluster/aggregator.py:187-214 | The identity key merges with score 1 or rejects with score -1, alone |
| VerdictScore.VerdictInRange | src/btviz/cluster/aggregator.py:115-184 | With weights that are not negative the verdict's score is in [-1, 1], and between the least and greatest clamped score of the signals that speak |
| VerdictScore.VerdictListsSignals | src/btviz/cluster/aggregator.py:115-118 | A verdict carries exactly what each listed signal that speaks has said, clamped, with its weight |
| VerdictScore.ClampedIs | src/btviz/cluster/aggregator.py:115-115 | Scores outside [-1, 1] count as the nearer bound, others as they are |
| VerdictScore.ProfileOfClass | src/btviz/cluster/base.py:124-136 | Two devices of a class are judged by its profile, else by the default one, else not at all |
| Aggregator.Accumulate | src/btviz/cluster/aggregator.py:68-118 | One pass yields the clamped contributions, their weighted sum and total, and the missing required signals in weight order |
| Aggregator.DecisiveScan | src/btviz/cluster/aggregator.py:143-157 | A best decisive score is returned exactly when some decisive signal is strong enough and no contribution is below the block |
| Aggregator.BestDecisiveIs | src/btviz/cluster/aggregator.py:146-154 | The decisive score is the greatest decisive contribution |
| Aggregator.MergesExactly | src/btviz/cluster/aggregator.py:60-179 | A pair merges if and only if its identity key says so outright, or does not veto and every signal required to merge scores, and then either a decisive signal does it alone or every eventually required signal scores, the scores carry the minimum weight and their mean reaches the threshold; stated over the listed signals themselves |
| Aggregator.UnsupportedMergeIsUncontradicted | src/btviz/cluster/aggregator.py:143-157 | A merge the weighted mean does not support has no contribution below the block threshold and carries the greatest decisive score |
| Aggregator.ScoreIsMean | src/btviz/cluster/aggregator.py:115-179 | With weights that are not negative the final score lies between the least and greatest contribution when any weight is there, is 0 when none is, and is in [-1, 1] always |
| Aggregator.WeightOrderFree | src/btviz/cluster/aggregator.py:68-179 | The order in which weights are listed changes neither decision nor score |
| Aggregator.VerdictIsSymmetric | src/btviz/cluster/base.py:124-136 | Symmetric signals give symmetric verdicts, and devices of different classes are never judged |
| Scorers.CohortScore | src/btviz/cluster/signals/rotation_cohort.py:134-173 | Any concurrent sniffer gives -1; otherwise the best handoff over common sniffers; independent of the order sniffers are looked at |
| Scorers.CohortRange | src/btviz/cluster/signals/rotation_cohort.py:134-173 | With a positive expected rotation and minimum the signal never fails, is -1 exactly on a concurrent sighting, else in [0, 1], and abstains exactly when every common sniffer has too few sightings |
| Scorers.GapIsDistance | src/btviz/cluster/signals/rotation_cohort.py:199-245 | The handoff gap is the distance between the two sets of times, zero exactly when their windows touch |
| Scorers.HandoffRangeExactly | src/btviz/cluster/signals/rotation_cohort.py:247-253 | A handoff score exceeds 1 exactly when a negative expected rotation is reached, and peaks exactly at the expected gap |
| Scorers.CohortBands | src/btviz/cluster/signals/rotation_cohort.py:199-253 | Too few sightings say nothing, none at all raise; a gap beyond the window scores 0, before it 0.5, and inside it the score times the expected gap is what the gap leaves of it |
| Scorers.ConcurrentExactly | src/btviz/cluster/signals/rotation_cohort.py:175-197 | Two devices are concurrent if and only if some of their times enclose more than the slack for both |
| Scorers.CohortSymmetric | src/btviz/cluster/signals/rotation_cohort.py:134-253 | The cohort signal is symmetric |
| Scorers.WindowScore | src/btviz/cluster/signals/co_lifespan_match.py:117-133 | The best score over common sessions |
| Scorers.OverlapBands | src/btviz/cluster/signals/co_lifespan_match.py:155-168 | Overlapping windows score 0.95 exactly when the shared time reaches the minimum share of the spanned time, 0.4 exactly when not but at least half, else 0 |
| Scorers.MoreSharedScoresNoLess | src/btviz/cluster/signals/co_lifespan_match.py:155-168 | For windows that span as long, more shared time never scores less |
| Scorers.HandoffBands | src/btviz/cluster/signals/co_lifespan_match.py:169-185 | Windows that lie apart are scored by the time from the end of the earlier to the start of the later: abstaining, near or falling linearly |
| Scorers.GapScoreShape | src/btviz/cluster/signals/co_lifespan_match.py:174-185 | The handoff part abstains exactly beyond the limit, is 0.95 exactly when near, and falls strictly in between, never below 0.45 |
| Scorers.WindowRange | src/btviz/cluster/signals/co_lifespan_match.py:136-185 | Every score is in [0, 0.95]; the early exits for an empty union or span are never taken |
| Scorers.WindowSymmetricExactly | src/btviz/cluster/signals/co_lifespan_match.py:136-185 | The score of two windows is symmetric if and only if they overlap, start apart, or end in the same scoring band |
| Scorers.WindowSymmetric | src/btviz/cluster/signals/co_lifespan_match.py:136-185 | Windows that run forwards are judged alike from both sides |
| Scorers.BackwardsWindowMisjudged | src/btviz/cluster/signals/co_lifespan_match.py:171-176 | With default limits, a window whose end precedes its start is scored from one side and abstained on from the other |
| Scorers.CarryoverScore | src/btviz/cluster/signals/continuity_seq_carryover.py:128-165 | 1 exactly if some pair in reach is one step apart, else 0.6 exactly if some pair in reach is within the step limit, else 0, early return included |
| SignalMeanings.CarryoverMeans | src/btviz/cluster/signals/continuity_seq_carryover.py:128-165 | 1 exactly if numbers one apart occur in sightings close enough, 0.6 exactly if not but numbers within the step limit do, else 0; the time apart spelled out |
| SignalMeanings.SessionsMean | src/btviz/cluster/signals/co_lifespan_match.py:117-133 | The window signal is the best score of the two devices' windows in one and the same session, abstaining exactly when none scores |
| SignalMeanings.CohortMeans | src/btviz/cluster/signals/rotation_cohort.py:134-173 | -1 on a concurrent sighting, else the best handoff on one and the same sniffer |
| SignalMeanings.SignalsSay | src/btviz/cluster/signals/rotation_cohort.py:112-132 | Which signals speak: the cohort only of two resolvable addresses heard by a common sniffer, the carry-over only where both devices have sequence numbers; other signals are untouched |
| Scorers.TimeApartSymmetricExactly | src/btviz/cluster/signals/continuity_seq_carryover.py:149-157 | The time gap is symmetric if and only if the two sightings do not each end before the other begins, or do so evenly |
| Scorers.CarryoverSymmetric | src/btviz/cluster/signals/continuity_seq_carryover.py:128-165 | Sightings that run forwards, any number of them, are scored alike from both sides |
| Scorers.CarryoverSymmetricExactly | src/btviz/cluster/signals/continuity_seq_carryover.py:128-165 | With one sighting a side, the score is symmetric if and only if the two are in reach of one another both ways or neither, or are too many steps apart to score at all |
| Scorers.CarryoverOrderFreeExactly | src/btviz/cluster/signals/continuity_seq_carryover.py:128-165 | For histories of any length the score is symmetric if and only if neither side leads: has a scoring pair in reach worth more than every pair in reach from the other side |
| Scorers.BackwardsSightingMisjudged | src/btviz/cluster/signals/continuity_seq_carryover.py:149-163 | With default limits, a sighting that ends before it begins is scored 0 from one side and 1 from the other |
| Scorers.PairVerdictIsSymmetric | src/btviz/cluster/aggregator.py:60-179 | Which device comes first does not change the verdict on a pair, when no recorded window runs backwards |
| Slip.SlipEncode | src/btviz/extcap/firmware_query.py:61-79 | The encoder's loop equals the specified encoding |
| Slip.SlipDecode | src/btviz/extcap/firmware_query.py:82-110 | The decoder's loop equals the specified decoding, delimiters and dangling escapes included |
| Slip.RoundTrip | src/btviz/extcap/firmware_query.py:61-110 | Decoding an encoded payload gives the payload back, for all byte strings |
| Slip.InteriorIsClean | src/btviz/extcap/firmware_query.py:61-79 | Between its delimiters an encoded frame holds no delimiter byte |
| Slip.LosslessExactly | src/btviz/extcap/firmware_query.py:82-110 | Decoding a frame body and re-encoding it gives the body back if and only if the body is canonical |
| Slip.WireForm | src/btviz/extcap/firmware_query.py:61-79 | Every octet by itself as it goes over the wire |
| Slip.DelimitersStripped | src/btviz/extcap/firmware_query.py:82-96 | One start in front and one end behind are taken off, and nothing else |
| Slip.StrayEscapes | src/btviz/extcap/firmware_query.py:97-110 | An escape before an octet it does not belong to stands for that octet, and one at the end for itself |
| SlipReader.ReadOneFrame | src/btviz/extcap/firmware_query.py:151-183 | The reader returns the first complete frame and leaves the port just after it |
| SlipReader.ReadsFrame | src/btviz/extcap/firmware_query.py:151-183 | Noise without a start byte is skipped and the following frame returned whole |
| SlipReader.ReadsUnits | src/btviz/extcap/firmware_query.py:171-182 | An octet after an escape never ends a frame, not even an end octet; the first end octet elsewhere does |
| SlipReader.Resynchronises | src/btviz/extcap/firmware_query.py:151-183 | Reading from any cut inside one frame returns the next frame whole and stops at its end |
| SlipReader.StreamRecovers | src/btviz/extcap/firmware_query.py:151-183 | Repeated reading of a concatenation, cut anywhere, recovers every payload after the cut in order |
| SlipReader.BuildRequest | src/btviz/extcap/firmware_query.py:113-127 | The request is the frame of its header, counter included, and it decodes back to that |
| SlipReader.RequestReadsBack | src/btviz/extcap/firmware_query.py:113-127 | The six header octets read back: header length, no payload, protocol version 1, the counter modulo 65536, the request |
| SlipReader.VersionSurvivesTransport | src/btviz/extcap/firmware_query.py:130-183 | A version reply framed by the device, after any octets without a start byte and before any others, comes back as its text without the white space around it, and as none when nothing is left |
| SlipReader.StripTakesOff | src/btviz/extcap/firmware_query.py:130-148 | Stripping takes off exactly the white space around the version text |
| SlipReader.SpacesAre | src/btviz/extcap/firmware_query.py:146-148 | What counts as white space |
| SlipReader.AsciiReads | src/btviz/extcap/firmware_query.py:146-148 | ASCII octets stand for themselves, any other gives the replacement character |
| SlipReader.CutIsNoise | src/btviz/extcap/firmware_query.py:61-79 | What is left of a frame once its start byte has gone by holds no start byte, so it is passed over as noise |
| Framing.Pipe.ReadExact | src/btviz/extcap/sniffer.py:488-495 | Over any chunking, returns exactly the next n bytes, or nothing when the pipe ends first |
| Framing.ReadMessage | src/btviz/extcap/sniffer.py:388-410 | One control message, as specified on the bytes alone |
| Framing.CtrlOutLoop | src/btviz/extcap/sniffer.py:388-410 | The loop hands on the messages specified on the bytes alone, whatever the chunking |
| Framing.MessagesRoundTrip | src/btviz/extcap/sniffer.py:327-410 | Every message the writer can frame comes back, in order, whatever follows |
| Framing.CutMessage | src/btviz/extcap/sniffer.py:400-410 | A message cut inside its payload is handed on with an empty payload |
| Framing.CtrlLayout | src/btviz/extcap/sniffer.py:325-335 | A control message octet by octet: "T", zero, length of what follows it, argument, command, payload |
| Framing.TinyLengthMeansEmpty | src/btviz/extcap/sniffer.py:404-409 | A length field below two means no payload |
| Framing.ReadRecord | src/btviz/extcap/sniffer.py:358-384 | One pcap record, or the end, exactly as the bytes say |
| Framing.CaptureLoop | src/btviz/extcap/sniffer.py:343-384 | The loop emits the capture specified on the bytes alone |
| Framing.RecordsRoundTrip | src/btviz/extcap/sniffer.py:343-384 | In either byte order, written records of 1 to 65535 bytes come back in order |
| Framing.MagicTellsOrder | src/btviz/extcap/sniffer.py:348-362 | A little-endian magic of either resolution is told from a big-endian one |
| Framing.MagicOctets | src/btviz/extcap/sniffer.py:348-362 | The four octets that are taken for little-endian |
| Framing.RecordLayout | src/btviz/extcap/sniffer.py:358-384 | A record header octet by octet in either byte order |
| Framing.CaptureRoundTrip | src/btviz/extcap/sniffer.py:343-384 | A whole capture comes back as link type and records, up to a cut-off tail |
| Framing.EmitsPrefix | src/btviz/extcap/sniffer.py:358-384 | Whatever the bytes, what is emitted re-serialises to their start |
| Framing.StopsAtIncomplete | src/btviz/extcap/sniffer.py:358-384 | The loop stops only where no complete record of an allowed length starts |
| AdStream.ParseAdStructures | src/btviz/decode/adv.py:317-329 | The loop equals the specified parse |
| AdStream.EntryLayout | src/btviz/decode/adv.py:317-329 | A structure octet by octet: the length of what follows it, the kind, the value |
| AdStream.RoundTripPadded | src/btviz/decode/adv.py:317-329 | Parsing undoes serialising, zero padding or not |
| AdStream.ReserialisesPrefix | src/btviz/decode/adv.py:317-329 | Re-serialising what was parsed gives a prefix of any input, and parsing stops only at a zero or overlong length |
| ExtendedAdv.SplitPayload | src/btviz/decode/adv.py:245-296 | The moving cursor yields the specified address and data, empty on any header that does not fit |
| ExtendedAdv.ExtendedRoundTrip | src/btviz/decode/adv.py:245-296 | With no extended header, or with any subset of optional fields and any ACAD, in any mode, the decoder returns the sender's AdvA, or none, and exactly its data (section 2.3.4 of Volume 6 Part B) |
| ExtendedAdv.LegacyFrameRoundTrip | src/btviz/decode/adv.py:194-242 | A legacy frame of any legacy type decodes to its address and data, whatever the CRC bytes |
| ExtendedAdv.ExtendedFrameRoundTrip | src/btviz/decode/adv.py:194-242 | An extended frame with its three CRC octets decodes to the sender's optional address and its data if and only if its payload has six octets or more, and is dropped otherwise |
| ExtendedAdv.ShortChainFragmentIsDropped | src/btviz/decode/adv.py:194-212 | A last chain fragment of one data octet is dropped |
| ExtendedAdv.HeadersAgree | src/btviz/decode/adv.py:87-191 | The same frame behind either sniffer header, CRC good, decodes to the same advertisement |
| ExtendedAdv.PhdrHeard | src/btviz/decode/adv.py:87-116 | What the classic header says of any buffer: channel, signed strength, and a failed CRC exactly when it was checked and did not hold |
| ExtendedAdv.NbeHeard | src/btviz/decode/adv.py:142-187 | What the current header says of any buffer: a failed CRC is heard even of a cut frame, with channel and strength; else the frame decides, from 15 octets on |
| ExtendedAdv.LegacyLayout | src/btviz/decode/adv.py:210-242 | A legacy frame octet by octet |
| ExtendedAdv.FieldWidths | src/btviz/decode/adv.py:245-296 | The width of each optional field of the extended header, by its flag |
| Auracast.SynthBtleLayer | src/btviz/capture/live_decode.py:167-234 | The loop's parallel arrays equal the specified flattening of the structures |
| Auracast.WalkServiceData | src/btviz/decode/auracast.py:210-250 | The two running indices equal the specified walk over the arrays |
| Auracast.KindsAre | src/btviz/decode/auracast.py:50-66 | Which AD types fill or count for an array element |
| Auracast.IdFound | src/btviz/decode/auracast.py:230-242 | A direct reading finds an id exactly when some structure announces one under UUID 0x1852 |
| Auracast.FeaturesFound | src/btviz/decode/auracast.py:230-242 | A direct reading finds features exactly when some structure of UUID 0x1856 has an octet of them |
| Auracast.IdIsFirst | src/btviz/decode/auracast.py:230-242 | The id is the three octets, least significant first, of the first structure that announces one |
| Auracast.FeaturesAreFirst | src/btviz/decode/auracast.py:230-242 | The features are the first octet of the first structure that has them |
| Auracast.TripleIsFirst | src/btviz/decode/auracast.py:131-143 | The fallback takes the first payload of three octets |
| Auracast.AlignedReadsOwn | src/btviz/decode/auracast.py:230-250 | At an aligned structure the walker reads that structure's own UUID and payload |
| Auracast.WalkIsDirect | src/btviz/decode/auracast.py:210-250 | On structures aligned in the order in which they stand, the walk finds the first Broadcast_ID and first feature octet of a direct scan |
| Auracast.SimpleIsAligned | src/btviz/capture/live_decode.py:211-223 | One UUID per list, no 0x14, 0x20 or 0x21 structures and full-length 0x16 structures align everything |
| AuracastShape.WalkIsDirectExactly | src/btviz/decode/auracast.py:210-250 | The walk agrees with a direct scan on every content of a shape, types and lengths, if and only if the array elements it reads at 0x16 structures are those structures' own, structures with an empty payload aside |
| AuracastShape.AlignedIsExact | src/btviz/decode/auracast.py:210-250 | Aligned structures have an exact shape |
| AuracastShape.ShortDataAloneIsExact | src/btviz/capture/live_decode.py:218-223 | Service data with 16-bit UUIDs of whatever lengths, short ones included, loses nothing when no UUID list, solicitation or wide service data stands with it |
| AuracastShape.BytesToBroadcast | src/btviz/capture/live_decode.py:74-234 | From advertising bytes of exact shape, padded or not, to the broadcast they announce |
| Auracast.TwoUuidListMisses | src/btviz/capture/live_decode.py:211-216 | A two-UUID list makes the announcement be missed |
| Auracast.SolicitationMisses | src/btviz/decode/auracast.py:243-248 | A solicitation list makes the announcement be missed |
| Auracast.WideServiceDataMisses | src/btviz/decode/auracast.py:230-248 | Service data with a 32- or 128-bit UUID makes the announcement be missed |
| Auracast.ShortServiceDataMisses | src/btviz/capture/live_decode.py:218-223 | Service data shorter than its UUID, followed by a UUID list, makes the announcement be missed |
| AuracastShape.ReportsExactly | src/btviz/decode/auracast.py:104-165 | On advertisements of exact shape, `parse_auracast` reports the first announced id, else the first payload of three octets, with the features found and their lowest bit as encryption flag; it reports anything if and only if an id is announced or the announcement UUID and a payload of three octets are there |
| Auracast.FallbackInventsBroadcast | src/btviz/decode/auracast.py:131-150 | The fallback scan turns another service's three octets into a Broadcast_ID |
| Continuity.ParseForClustering | src/btviz/cluster/signals/_continuity_protocol.py:176-214 | The clustering walker's loop equals the specified chain |
| Continuity.ParseForIngest | src/btviz/decode/apple_continuity.py:139-174 | The ingest walker's loop equals the specified chain with a truncated tail kept |
| Continuity.ExtractHandoffSeq | src/btviz/cluster/signals/_continuity_protocol.py:325-353 | The short cut's loop equals its specification |
| Continuity.ParsersAgree | src/btviz/cluster/signals/_continuity_protocol.py:176-214 | On company id plus data, the clustering walker returns the ingest walker's entries minus a truncated tail, for every input |
| Continuity.OnlyLastTruncated | src/btviz/decode/apple_continuity.py:139-174 | Only the last ingest entry can be truncated |
| Continuity.EntriesTile | src/btviz/decode/apple_continuity.py:139-174 | The entries tile the input in order |
| Continuity.ShortcutAgrees | src/btviz/cluster/signals/_continuity_protocol.py:304-353 | `extract_handoff_seq` is the sequence number of the first parsed Handoff element of three or more bytes, for every input |
| Continuity.ElementsRoundTrip | src/btviz/cluster/signals/_continuity_protocol.py:176-214 | A serialised chain of elements parses back to itself |
| Observations.Table.RecordPacket | src/btviz/db/repos.py:417-503 | Insert or update leaves the row specified for one more packet and touches no other row |
| Observations.Table.IncrementBad | src/btviz/db/repos.py:505-540 | Insert or update leaves the row specified for more CRC failures and touches no other row |
| Observations.BatchCounts | src/btviz/db/repos.py:417-540 | Any interleaving gives counters that count the history; packets are adverts plus data; bad counts add up |
| Observations.BatchHistograms | src/btviz/db/repos.py:464-473 | Each histogram bucket counts exactly the packets carrying its value |
| Observations.BatchExtremes | src/btviz/db/repos.py:475-483 | The extremes are samples that bound all samples, and absent exactly without samples |
| Observations.BatchMean | src/btviz/db/repos.py:475-483 | min * samples <= sum <= max * samples |
| Observations.SeenTimes | src/btviz/db/repos.py:417-540 | `first_seen` is the first event's time; `last_seen` is the latest arrival's, not the greatest |
| Observations.OrderFree | src/btviz/db/repos.py:417-540 | Any reordering of packets and CRC credits gives the same totals |
| LiveIngest.CacheIsLastClean | src/btviz/capture/live_ingest.py:353-359 | The attribution cache holds, per source and channel, the last clean packet of the drained history |
| LiveIngest.RowsAreHistory | src/btviz/capture/live_ingest.py:332-394 | Every row is the replay of exactly the events the drained history contributes to it, CRC credits included: a failed packet goes to the last clean device on its source and channel within 2 s |
| LiveCounts.RowCounts | src/btviz/ingest/pipeline.py:223-230 | A device's packets, adverts, data, samples and strength sum are those of its own clean packets; an advert is one of eight PDU names, or none |
| LiveCounts.RowBuckets | src/btviz/ingest/pipeline.py:223-230 | Each channel, PHY and PDU bucket counts the own packets that carry the value |
| LiveCounts.RowExtremes | src/btviz/ingest/pipeline.py:223-230 | The strength extremes are strengths of own packets and bound them all |
| LiveCounts.CreditedExactly | src/btviz/capture/live_ingest.py:371-394 | A failed packet is credited to the device last heard cleanly on its source and channel, if that was at most two seconds before |
| LiveCounts.RowTimes | src/btviz/capture/live_ingest.py:318-412 | A device has a row exactly when an own packet or credited failure touched it, with the times of the first and the last |
| LiveCounts.SourcesAre | src/btviz/capture/live_ingest.py:352-361 | A source is known once a packet from it was recorded: how many were, and when the last came |
| LiveIngest.RecordedIsTotal | src/btviz/capture/live_ingest.py:331-406 | The packet counts of all rows of the session add up to `packets_recorded` |
| LiveIngestRuns.Session.OnPacket | src/btviz/capture/live_ingest.py:283-316 | A decoded packet is queued; the oldest is dropped and counted when the queue is full |
| LiveIngestRuns.Session.FlushBatch | src/btviz/capture/live_ingest.py:318-412 | A flush drains the queue in order, as specified |
| LiveIngestRuns.QueueIsNewest | src/btviz/capture/live_ingest.py:283-316 | The queue is always the newest undrained packets, at most the cap, in order |
| LiveIngestRuns.NothingLost | src/btviz/capture/live_ingest.py:283-412 | Over every interleaving, decoded = dropped + queued + drained |
| LiveIngestRuns.DeskIsDrained | src/btviz/capture/live_ingest.py:318-412 | Over every interleaving, the stored state is the drained history processed in one go |
| LiveIngestRuns.SessionIsHistory | src/btviz/capture/live_ingest.py:283-412 | Over every interleaving, the rows are the batch over the drained history and add up to the recorded count |
| LiveCounts.SessionCounts | src/btviz/capture/live_ingest.py:283-412 | Over every interleaving the counters and buckets of a row are those of the device's own drained packets |
| LiveCounts.SessionTallies | src/btviz/capture/live_ingest.py:283-316 | What was received, in all and by source, and what of it decoded to nothing |
| LiveCounts.FlushTallies | src/btviz/capture/live_ingest.py:318-412 | Only flushes that find something count, and the last of them says how much |
| LiveIngestRuns.SessionBadCounts | src/btviz/capture/live_ingest.py:371-394 | A device's bad count is the number of failed packets credited to it by the last-clean rule |
| IngestByAddress.Ingest.OnPacket | src/btviz/capture/live_ingest.py:312-316 | The queue keeps the newest packets up to the cap |
| IngestByAddress.Ingest.FlushBatch | src/btviz/capture/live_ingest.py:318-412 | The flush loop over the identity pipeline: each queued packet is attributed by the pipeline, then counted or credited, as specified |
| IngestByAddress.StoreIsDrained | src/btviz/capture/live_ingest.py:283-412 | However arrivals and flushes interleave, devices and rows are what the drained packets make of them in order |
| IngestByAddress.RecordedUnderFinalIds | src/btviz/ingest/pipeline.py:134-145 | Ids handed out while draining are the ids in force at the end, and exactly the stored and the drained keys have one |
| IngestByAddress.RowsByAddress | src/btviz/capture/live_ingest.py:318-412 | Over every interleaving and whatever devices are stored: devices are those the identity pipeline makes of the drained packets; the row of a stable key is the batch of what was drained under it and of the failures credited to it; no other rows exist, and their counts add up to the attributable packets |
| LiveCounts.KeyCounts | src/btviz/capture/live_ingest.py:318-412 | Over every interleaving the counters and buckets of a stable key's row are those of the packets drained under that key |
| IngestByAddress.IdsDoNotMatter | src/btviz/capture/live_ingest.py:318-412 | Sessions that drain the same packets over any stored devices hold the same row for every stable key |
| Identity.KeysTellApart | src/btviz/ingest/pipeline.py:284-301 | Stable keys are equal exactly when address and address type are |
| IdentityFields.KeyForms | src/btviz/ingest/pipeline.py:284-301 | The stable keys in full |
| Identity.AfterKeepsCoherent | src/btviz/ingest/pipeline.py:134-202 | Each packet keeps one row per key and the cache equal to the stored rows |
| Identity.Pipeline.Upsert | src/btviz/db/repos.py:210-221 | Insert or touch by unique key; an existing key keeps its id and row |
| Identity.Pipeline.RecordPacket | src/btviz/ingest/pipeline.py:111-202 | The specified step on rows, cache and write count; attributed exactly when the CRC held and there is an address |
| Identity.Pipeline.CollectUpdates | src/btviz/ingest/pipeline.py:151-198 | The clues that survive the one-shot vendor lookup, the appearance fallback and the precedence guard |
| Identity.RowsAreLearned | src/btviz/ingest/pipeline.py:134-202 | Over every session, through cache and table, each device's row is exactly what its own packets add to its stored row, in their order |
| IdentityFields.SessionFields | src/btviz/ingest/pipeline.py:134-202 | Over every session, through cache and table, the columns of a row in terms of the clues of its own packets |
| IdentityFields.LastClueWins | src/btviz/ingest/pipeline.py:184-202 | Name, company id, appearance and model are those of the last packet that brought one |
| IdentityFields.BlockVendorIsFirst | src/btviz/ingest/pipeline.py:146-166 | The block vendor is that of the first packet of a session, of a public address, if none was stored |
| IdentityFields.VendorIsFirstNamed | src/btviz/ingest/pipeline.py:190-196 | The vendor is the stored one, else that of the first new company id that has a name |
| IdentityFields.OnePacketTeaches | src/btviz/ingest/pipeline.py:146-202 | What one packet does to each column |
| IdentityFields.OfferIs | src/btviz/ingest/pipeline.py:168-182 | The class a packet offers: its own, else the one its appearance stands for when the device has none |
| IdentityFields.PrecedenceIs | src/btviz/ingest/pipeline.py:51-74 | Which classes are more specific than which |
| Identity.SameDeviceExactly | src/btviz/ingest/pipeline.py:134-145 | Two attributed packets go to one device exactly when address and address type agree |
| Identity.ClassIsFirstMostSpecific | src/btviz/ingest/pipeline.py:170-188 | The device class is the first among the most specific ever stored or offered |
| Identity.ClassSettles | src/btviz/ingest/pipeline.py:51-74 | However many packets come, the class climbs and changes at most four times: no ping-pong |
| Identity.RepeatWritesNothing | src/btviz/ingest/pipeline.py:190-202 | A packet seen again at once changes no identity column and costs no UPDATE of them |
| Identity.VendorMatchesExactly | src/btviz/ingest/pipeline.py:190-202 | The vendor name stays that of the stored company id unless a packet brings another id to a named row |
| Identity.VendorGoesStale | src/btviz/ingest/pipeline.py:190-202 | A named device that announces another company id keeps the old name beside the new id |
| Coordinator.SetRoleSettles | src/btviz/capture/coordinator.py:135-227 | Setting any role leaves every sniffer doing what its role says |
| Coordinator.RestartSettlesExactly | src/btviz/capture/coordinator.py:101-130 | A restart keeps every sniffer settled if and only if it does not hit a scanning sniffer with channels to cover |
| Coordinator.RestartedScanStaysDown | src/btviz/capture/coordinator.py:101-130 | A restarted scanning sniffer stays down until some other role is set |
| Coordinator.RunsStaySettled | src/btviz/capture/coordinator.py:58-235 | Every legal run of registrations, role changes and restarts keeps all sniffers settled |
| Coordinator.SettledCovers | src/btviz/capture/coordinator.py:203-227 | Settled sniffers cover 37, 38 and 39 once all are pinned or somebody scans |
| Coordinator.UncoveredExactly | src/btviz/capture/coordinator.py:203-227 | The channels left to scanners are the primaries no role pins, each once, in rising order |
| Coordinator.RolesRefused | src/btviz/capture/roles.py:67-80 | A pinned role names at least one primary and none twice |
| Coordinator.RunsCover | src/btviz/capture/coordinator.py:58-235 | From a fresh coordinator, every legal run that leaves a scanning role covers all three primaries |
| Coordinator.ResidueExactly | src/btviz/capture/coordinator.py:171-201 | A pinned or scanning sniffer keeps following an address exactly when it was retuned while running in follow mode |
| Coordinator.PinAfterFollowKeepsTarget | src/btviz/capture/coordinator.py:171-201 | Following and then pinning to 37 leaves the sniffer following its old target |
| Coordinator.RegisterKeeps | src/btviz/capture/coordinator.py:51-56 | Registering a dongle keeps everything settled and uncovers nothing |
| CaptureCoordinator.PlanCoversExactly | src/btviz/capture/roles.py:170-227 | The default plan pins all primaries or has a scanner if and only if there are one or two entries, or three distinct ones, or of four and more the first three in pinning order are distinct and none of them comes again |
| DefaultPlan.PlanOfFew | src/btviz/capture/roles.py:190-212 | The plan for one, two and three distinct dongles |
| DefaultPlan.PlanOfMore | src/btviz/capture/roles.py:214-227 | Of four distinct dongles or more the first three in pinning order pin 37, 38 and 39 in this order, and all others are idle |
| DefaultPlan.RxFirstOrder | src/btviz/capture/roles.py:214-219 | The pinning order: dongles that only receive first, each kind as discovered |
| DefaultPlan.TransmittersStayFree | src/btviz/capture/roles.py:170-187 | A dongle that can transmit is idle when three that cannot are there |
| CaptureCoordinator.DistinctSuffice | src/btviz/capture/roles.py:170-227 | Any non-empty list of distinct dongles gives a plan that covers |
| CaptureCoordinator.RepeatedDongleLosesCoverage | src/btviz/capture/roles.py:205-227 | Three entries of one dongle leave it pinned to 39 alone |
| CaptureCoordinator.CaptureCoordinator.ApplyRole | src/btviz/capture/coordinator.py:171-201 | The specified effect on one sniffer, and on no other |
| CaptureCoordinator.CaptureCoordinator.RecomputeScanUnmonitored | src/btviz/capture/coordinator.py:203-227 | Every scanning sniffer hops exactly the primaries nobody pins, and is stopped when there are none |
| CaptureCoordinator.CaptureCoordinator.SetRole | src/btviz/capture/coordinator.py:135-141 | The specified step; nothing for an unknown dongle |
| CaptureCoordinator.CaptureCoordinator.RestartOne | src/btviz/capture/coordinator.py:101-130 | The specified step; true exactly for pinned and following sniffers; sound exactly when harmless |
| CaptureCoordinator.CaptureCoordinator.StartDiscover | src/btviz/capture/coordinator.py:58-93 | Puts the default plan into force over the registered dongles; all primaries are covered when the list suffices, and from an empty coordinator only then |
| CaptureCoordinator.CaptureCoordinator.PickFollowDongle | src/btviz/capture/coordinator.py:237-248 | Prefers idle, then scanning, then any dongle not already following; none exactly when all follow |
| CaptureCoordinator.CaptureCoordinator.FollowDevice | src/btviz/capture/coordinator.py:229-235 | The preferred or picked dongle follows the target and nothing else changes but the scan plan; a preferred dongle that is unknown is an error; nothing happens when every dongle follows already |
| Watchdog.StallWatchdog.OnStalled | src/btviz/capture/watchdog.py:237-307 | One stall: back off, restart or give up, as specified |
| Watchdog.StallWatchdog.Tick | src/btviz/capture/watchdog.py:136-153 | One tick visits every sniffer, as specified |
| Watchdog.StallWatchdog.CurrentlySilent | src/btviz/capture/watchdog.py:159-181 | The ids of eligible stalled sniffers, and no change |
| Watchdog.StallWatchdog.ResetSniffer | src/btviz/capture/watchdog.py:183-191 | Forgets the attempts and stuck flag of one sniffer and of no other |
| Watchdog.StallWatchdog.ResetEverything | src/btviz/capture/watchdog.py:193-200 | Forgets the attempts and stuck flags of all |
| Watchdog.RunsAreDisciplined | src/btviz/capture/watchdog.py:136-307 | Over every run, whatever the clock does: between resets at most the maximum restarts, attempts at least the gap apart unless the clock reads zero, stuck exactly after one attempt more |
| Watchdog.RestartsBounded | src/btviz/capture/watchdog.py:237-307 | Restarts issued are attempts capped at the maximum |
| Watchdog.ZeroClockDefeatsGap | src/btviz/capture/watchdog.py:250-262 | A clock that reads exactly zero allows two attempts without the gap |
| Watchdog.TickJudgesAlone | src/btviz/capture/watchdog.py:136-153 | In a tick over distinct sniffers each is judged as if alone |
| Watchdog.TickReportsSilent | src/btviz/capture/watchdog.py:136-181 | What a tick reports is, as a set, what the inspector reports on the same state |
| Watchdog.TickReportsExactly | src/btviz/capture/watchdog.py:136-234 | A tick reports a sniffer if and only if it runs, is not idle, has not been given up, and its last packet, or its start when there was none, lies more than the threshold back |
| Watchdog.SilentBecomesStuck | src/btviz/capture/watchdog.py:237-307 | A sniffer whose last packet, or start, stays more than the threshold back at ticks at least the gap apart becomes stuck after exactly one attempt more than the maximum |
| StallRecovery.TickDecidesOnSnapshot | src/btviz/capture/watchdog.py:136-153 | Restarts made during a tick do not change what the tick decides about the sniffers after them |
| StallRecovery.RestartRevivesExactly | src/btviz/capture/watchdog.py:237-307 | A restart brings a silent sniffer back, with a fresh start time, if and only if it is pinned or following; it does not make it stuck |
| StallRecovery.DeadSnifferBecomesStuck | src/btviz/capture/watchdog.py:136-307 | A pinned or following sniffer that delivers nothing, not even after its restarts, is restarted at each of the first ticks up to the maximum, captures all along, and becomes stuck exactly at the next |
| StallRecovery.SilentScannerIsLost | src/btviz/capture/watchdog.py:136-307 | A silent scanning sniffer that the watchdog restarts stays down through any ticks and packets, and is never again reported silent or stuck |
| StallRecovery.LoneScannerGoesDark | src/btviz/capture/coordinator.py:101-130 | With a scanning dongle alone, one silence that the watchdog answers ends coverage of every channel for good, through any ticks and packets |
| BinClock.NeverTooMany | src/btviz/ui/channel_strip.py:212-293 | With arbitrary gaps the bars never show more packets than arrived in the trailing 30 bins |
| BinClock.PromptIsExact | src/btviz/ui/channel_strip.py:212-293 | When rolls are at most 30 bins apart the bars show exactly the packets of the trailing 30 bins |
| BinClock.LagIsClockLag | src/btviz/ui/channel_strip.py:275-293 | The clock trails by what the gaps between events add up to when each roll makes up for at most 30 bins |
| BinClock.LostExactly | src/btviz/ui/channel_strip.py:275-293 | Which packets the lagging bin clock loses, from the event times alone: a packet of the trailing window is missing from the bars exactly when more of its lag has been made up since than its age leaves room for |
| BinClock.ShortByLost | src/btviz/ui/channel_strip.py:212-293 | A channel's bar falls short of its packets in the trailing 30 bins by exactly the lost ones |
| BinClock.IdleGapLosesPacket | src/btviz/ui/channel_strip.py:285-293 | After a long idle gap a fresh packet disappears from the bars too early |
| ChannelBins.SlotAdvances | src/btviz/ui/channel_strip.py:275-293 | Where each bin lands in the circular array as the head advances |
| ChannelBins.SlotsAreWindow | src/btviz/ui/channel_strip.py:275-293 | The slots of the circular array sum to the window of the strip's own clock |
| ChannelBins.ChannelStrip.RollBins | src/btviz/ui/channel_strip.py:275-293 | The in-place roll clears exactly the bins that leave the window |
| ChannelBins.ChannelStrip.NotifyPacket | src/btviz/ui/channel_strip.py:212-230 | A packet on a known channel adds one to the current bin; others change nothing |
| ChannelBins.ChannelStrip.BarHeight | src/btviz/ui/channel_strip.py:442-458 | A channel's bar is the count of its packets in the strip's window |
| RotatingSink.RotatingTextSink.Write | src/btviz/log_drain/tailer.py:71-82 | Rotate when the size on disk demands it, then append to the buffer, as specified; after the current file is deleted nothing written is seen and it is not reopened; nothing after closing |
| RotatingSink.RotatingTextSink.Flush | src/btviz/log_drain/tailer.py:84-86 | Hands over the whole buffer, to the current file if it is still there |
| RotatingSink.RotatingTextSink.CurrentDeleted | src/btviz/log_drain/tailer.py:75-78 | The current file removed behind the sink, which leaves the handle open on a file nobody sees |
| RotatingSink.RotatingTextSink.ShiftBackups | src/btviz/log_drain/tailer.py:107-128 | The descending rename loop moves every backup up by one and drops the last |
| RotatingSink.RotatingTextSink.Rotate | src/btviz/log_drain/tailer.py:100-129 | Flush, shift, and reopen an empty file, as specified; with the current file gone only the backups move |
| RotatingSink.RenameMovesOn | src/btviz/log_drain/tailer.py:114-122 | One rename of the descending loop keeps the not-yet-moved backups intact |
| RotatingSink.ShiftedExactly | src/btviz/log_drain/tailer.py:100-129 | A rotation path by path: backups up by one, the last dropped, the current file first backup, a fresh current file, backups beyond the count untouched, and with a count of zero number zero dropped |
| SinkRuns.TailShifts | src/btviz/log_drain/tailer.py:100-129 | A rotation shifts the concatenation of backups and drops only its oldest part |
| SinkRuns.KeepsSuffix | src/btviz/log_drain/tailer.py:71-129 | Over every sequence of writes, flushes and rotations, backups, current file and buffer concatenate to a suffix of everything written |
| SinkRuns.SizesBounded | src/btviz/log_drain/tailer.py:71-129 | No file exceeds the maximum plus the bytes written since the last flush |
| SinkRuns.FlushedSizesBounded | src/btviz/log_drain/tailer.py:71-129 | With a flush after each write no file exceeds the larger of the maximum and the largest write |
| SinkSizes.WriteFitsExactly | src/btviz/log_drain/tailer.py:71-82 | Counting what is buffered for the file, a write keeps all within the maximum if and only if, rotating, the text alone fits, or else file, buffer and text together do |
| SinkSizes.RunSizes | src/btviz/log_drain/tailer.py:71-129 | The size on disk and in the buffer after any run, counted from the events alone |
| SinkSizes.NeverOverExactly | src/btviz/log_drain/tailer.py:71-129 | Over whole runs, counting what is still buffered for it, no file is ever over the maximum if and only if none was at the start and every write, judged by sizes counted from the events, stays within it |
| SinkSizes.FlushedNeverOverExactly | src/btviz/log_drain/tailer.py:71-129 | With a flush after each write, no file, counting what is still buffered for it, is ever over the maximum if and only if no single text is |
| SinkSizes.LandsExactly | src/btviz/log_drain/tailer.py:71-129 | From files within the maximum one write or flush keeps them so if and only if the bytes it hands over fit, before the rotation and after |
| SinkSizes.FilesNeverOverExactly | src/btviz/log_drain/tailer.py:71-129 | Over whole runs no file itself is ever over the maximum if and only if none was at the start and no event puts one there: what a rotation hands over and what each event leaves on disk, counted from the events, fit |
| SinkSizes.BufferedIsNotOver | src/btviz/log_drain/tailer.py:71-86 | A text over the maximum that is still buffered puts no file over it |
| SinkSizes.FlushedFilesNeverOverExactly | src/btviz/log_drain/tailer.py:71-129 | When every write has been flushed, no file has ever been over the maximum if and only if no single text is |
| SinkRuns.UnflushedWritesOvershoot | src/btviz/log_drain/tailer.py:203-205 | Two unflushed writes put a file over that bound |
| Canvas.CanvasDevice.AbsorbMember | src/btviz/ui/canvas.py:421-476 | The in-place absorb equals the specified absorb, histograms, address and UUID lists included, and changes only the primary |
| Canvas.PickPrimary | src/btviz/ui/canvas.py:401-418 | The owner is the first member no other outranks |
| Canvas.CollapseCluster | src/btviz/ui/canvas.py:817-851 | One cluster: tag or absorb, as specified, over the objects in place |
| Canvas.CollapseClusters | src/btviz/ui/canvas.py:817-851 | The loop over all clusters equals the specified collapse, and every box kept is the same object |
| Collapse.CollapsesExactly | src/btviz/ui/canvas.py:822-837 | A cluster collapses exactly when two or more members are shown, some have scores, and every score reaches the threshold |
| Collapse.PrimaryIsBest | src/btviz/ui/canvas.py:401-418 | No member outranks the owner by kind, packets and recency |
| Collapse.OwnerExactly | src/btviz/ui/canvas.py:401-418 | The owner is the first member than which no other has a stabler kind of identity, or as stable a one and more packets, or as many and a later sighting |
| Collapse.KindRankIs | src/btviz/ui/canvas.py:260-268 | Which kinds of identity are stabler than which |
| Collapse.CollapseConserves | src/btviz/ui/canvas.py:817-851 | Summed over the canvas, packets, adverts, data, bad and every channel and PDU bucket are unchanged, whatever the clusters |
| Collapse.JoinIsUnion | src/btviz/ui/canvas.py:464-473 | Joining lists keeps the first in front, has the keys of both, repeats none and makes up nothing |
| Collapse.AbsorbEachKnows | src/btviz/ui/canvas.py:459-476 | A box knows exactly the addresses and UUIDs of all it stands for, no address twice, the latest sighting and the first broadcast name |
| CollapseSignal.ExtremesUnchanged | src/btviz/ui/canvas.py:445-454 | The least and greatest RSSI over the canvas are unchanged |
| CollapseSignal.MeansStayInside | src/btviz/ui/canvas.py:435-454 | min <= avg <= max survives for every box |
| CollapseSignal.BlendIsWeightedMean | src/btviz/ui/canvas.py:435-444 | When all members have a mean, the blend is their packet-weighted mean |
| CollapseMean.BlendIsMeanExactly | src/btviz/ui/canvas.py:435-444 | Whatever the means of the sounding members, the running blend is their packet-weighted mean if and only if no silent member with packets stands before a second or later sounding member with packets |
| CollapseMean.BoxBlends | src/btviz/ui/canvas.py:421-444 | The mean and packets of a box are the running blend over the devices it stands for |
| CollapseMean.BoxShowsMean | src/btviz/ui/canvas.py:435-444 | A box whose devices meet that condition shows the packet-weighted mean of those that have one |
| CollapseSignal.SilentMemberSkewsMean | src/btviz/ui/canvas.py:435-444 | A member without a mean makes the blend depend on the order of the others |
| CollapseMembers.CollapseOneAccountsExactly | src/btviz/ui/canvas.py:817-851 | One collapse keeps every device shown or listed exactly once if and only if no box it absorbs has absorbed others |
| CollapseMembers.NestedBoxVanishes | src/btviz/ui/canvas.py:817-851 | A box listing device 2, absorbed by a third box, takes device 2 off the canvas |
| CollapseMembers.CollapseAccounts | src/btviz/ui/canvas.py:817-851 | With disjoint clusters, surviving plus absorbed ids are the original ids, each once, and devices in no cluster keep their boxes |
| CollapseMembers.CollapseAccountsExactly | src/btviz/ui/canvas.py:817-851 | Over any clusters, overlapping or not, every device stays accounted for if and only if no cluster, as its turn comes, absorbs a box that has absorbed others |
| CollapseMembers.CanvasAccountsAfterRuns | src/btviz/ui/canvas.py:817-851 | After any sequence of clustering runs, collapsing the stored clusters accounts for every device |

## Left out

- Floating-point rounding: scores, weights and times are reals; bins of the channel strip are counted in whole bin widths.
- Text forms: hex, decimal and JSON renderings of octets, counts and evidence are kept as the values they render.
- SQL text, migrations and plain row access: tables are maps and sets with their keys, foreign keys and cascades; deleting a row of `devices` is not modelled.
- The user label of a cluster and the `applies_to` checks that only look for a database.
- Threads below the lock: a packet callback and a flush are each one step; increments of counters outside the lock are not modelled.
- Callbacks to the user interface, event bus, log lines and database counters of stalls.
- Subprocesses, FIFOs, serial and USB access: pipes and ports are byte sequences read in arbitrary chunks; deadlines are not modelled, and starting a sniffer always succeeds.
- Sniffers inside the coordinator are values in a map rather than objects, so two roles sharing one sniffer object are not captured.
- LiveIngest: session start and stop; the device a clean packet belongs to is given with the packet there, and found by `Identity` in `IngestByAddress`.
- Identity.Pipeline.RecordPacket: address rows, broadcast rows, AD history and the optional packet log it also writes are not modelled; addresses come in lower case and clues already extracted.
- The IRK feed, LTKs, BIGInfo fields, and the Probe role, which the coordinator ignores.
- Continuity payload decoders other than Handoff (iBeacon, AirPods and the rest), and the vendor and UUID tables.
- The rssi_signature signal, the Drain3 clustering of log lines, preferences, and the interrogator and probe stubs.
- Rename and class propagation on the canvas, layouts, painting and timers.
- Rename and unlink errors of the sink. What its text buffer hands over by itself when it fills up is an arbitrary part of the buffer at each write; over runs the current file is not deleted from outside.
- Auracast.WalkIsDirect: alignment is one sufficient condition; `AuracastShape.WalkIsDirectExactly` has the exact one for whole shapes, while on a shape that is not exact single contents may still be read right.
- Auracast.SynthBtleLayer: local and broadcast names, company id, manufacturer data and appearance, which the walker does not look at, are not modelled.
- AuracastShape.ReportsExactly: the broadcast name and the BIGInfo fields of the report are not modelled.
- Identity.RepeatWritesNothing: the touch of `last_seen` in the upsert and the UPDATE of the observation row, which every packet costs, are no part of the identity columns.
- Identity.Pipeline.Upsert: the `kind` column and the touch of `last_seen` are not modelled.
- CaptureCoordinator.CaptureCoordinator.PickFollowDongle: which dongle of the preferred kind is taken is left open, where the code takes the first registered; roles are a map without an order.
- Scorers.PairVerdictIsSymmetric: the signals besides the three modelled ones are taken to be the same from both sides.
- Scorers.CarryoverSymmetric: one sufficient condition; the exact one is `Scorers.CarryoverOrderFreeExactly`.
- CollapseMembers.CollapseAccounts: disjoint clusters are one sufficient condition; the exact one is `CollapseMembers.CollapseAccountsExactly`.
