# Node agent and alert engine: a verified model

A Dafny model of the parts of EpicPanel's node agent and control plane that carry state
over whole runs, with proofs of what their comments promise, or of exactly when they keep
it.

- **Bandwidth accounting** (`BwLog`, `BwState`, `BwAccountant`, `BwSpan`, `BwRuns`,
  `BwTheorems`, `BwBytes`, `BwLimits`, `Recalc`). Nginx appends records to a log that is rotated under
  the accountant's feet; the accountant folds them into monthly totals per site and commits
  totals and read checkpoint together in a file that the enforcement path also writes.
  `BwAccountant` has the accountant as a class and each method's function; `BwRuns` turns
  these into a step machine with crashes, cut-off saves, rotations and both writers;
  `BwTheorems` has the laws over all runs, `BwBytes` carries them over to bytes that arrive
  in any pieces, and `BwLimits` has the runs in which a promise fails.
  `Recalc` has the batch recount and shows that the accountant refines it.
- **Metrics stream** (`Stream`, `StreamRuns`). The 256-slot ring, sequence numbers,
  acknowledgements and replay, as a class; then a step machine of agent, connection and a
  control plane that ingests numbers above its last.
- **Suspend, terminate, resume** (`Stubs`, `StubLaws`, `StubAnswers`, `Lifecycle`,
  `LifecycleFiles`, `Vhost`). The stub and vhost printers, the parsers that read domains
  back, what a stub makes its server answer, and the operations on config and backup files with every outcome of writes, links, validators,
  reloads and rollbacks.
- **Shared text files** (`FtpSync`, `FtpHome`, `DnsZone`, `DnsInclude`, `DnsMerge`). The SFTP drop-in
  of many sites, the zone file and the include file merge.
- **Alerts** (`Alerts`, `AlertTable`). Breach counters, open alerts and events; then the
  engine's memory against the alerts table over runs with manual resolves and restarts.
- **FastCGI client** (`FastCgi`). Name-value pairs, records and the response reader.

`Common` holds `Option`, `Text` characters, words and one-line directives. In each part the
loops and field updates are methods proved against functions on values, and the laws are
lemmas about these functions.

Where a comment in the source claims more than its code keeps, the model follows the code:

- A held partial line is prepended and read again, so a pass is the documented one only when
  nothing is held (`PassIsCleanIff`, `UnfinishedLineWitness`; bwtail.go:222-223 and 244-260).
- Two rotations between tallies skip `.1` (`DoubleRotationLosesOne`, `RotatedTallyExactIff`).
- Any save restamps the month (`RestampedTotalsReturn`, `RestampHarmlessIff`).
- Records of the old month read after the month rolled are dropped
  (`BoundaryRecordIsDropped`, `BilledInFullIff`).
- A save over a torn current file can lose the good backup (`InterruptedSaveKeepsStateIff`).
- The replay sends nothing before the first acknowledgement (`ReplayCoversIff`,
  `UnackedFirstSampleIsLost`).
- Rollbacks and removals ignore their errors, and a backup that failed half-way can stay, so
  a suspension can lose the original (`OriginalKeptIff`, `FailedRollbackLosesOriginal`,
  `PartialBackupLosesOriginal`, `RemovedConfigIsNotResumed`).
- After a restart or a manual resolve over an open alert, an automatic resolve that fails, or
  a breach of a rule made again under its old name, the alert engine's memory and table part,
  and in two of these cases raised events repeat (`RunKeepsRowsByRulesIff`,
  `EventsAlternateIff`, `RestartForgetsOpenAlert`, `ManualResolveMutesAlert`,
  `FailedResolveForgetsAlert`, `RecreatedRuleHasNoRow`).
- A rotation between a tally's stat and its open bills a record twice (`StatRaceBillsTwice`).
- Validation of home directories does not keep newlines out of the sshd drop-in, because it
  looks at the cleaned path (`ValidHomeWithNewline`, `RenderedViewIff`).

To verify: `dafny verify dfyconfig.toml`.

## Model

| member | source | states |
|---|---|---|
| `BwLog.LinesPartition` | backend/internal/agent/bwtail.go:244-260 | The complete lines and the unfinished tail of any bytes, put back together, are those bytes: no byte is lost, doubled or moved. |
| `BwLog.LinesAppend` | backend/internal/agent/bwtail.go:244-260 | Reading on after a pause: bytes that arrive later complete the old tail first, and all other lines are the same as in one reading. |
| `BwLog.FoldBills` | backend/internal/agent/bwtail.go:309-321 | Folding lines into the totals adds to a site exactly the bytes of its records stamped in the accumulator's month, over any starting totals. |
| `BwAccountant.PassIsCleanIff` | backend/internal/agent/bwtail.go:222-261 | A pass feeds every complete line once, holds the tail and stops behind the last newline if and only if no partial line was held before; the comment promises it always. |
| `BwAccountant.CleanPassOffset` | backend/internal/agent/bwtail.go:222-261 | With nothing held, the bytes from the old to the new offset are exactly the lines fed, in order, and what follows is the held, newline-free tail. |
| `BwAccountant.PassToEnd` | backend/internal/agent/bwtail.go:224-261 | In a file of whole records, a pass from a record boundary feeds all lines to the end and holds nothing. |
| `BwAccountant.UnfinishedLineWitness` | backend/internal/agent/bwtail.go:244-260 | Two passes over one unfinished first line move the offset to -2; whatever is appended, no later pass reads anything. |
| `BwAccountant.Accountant.constructor` | backend/internal/agent/bwtail.go:77-99 | A new accountant holds no totals, month, checkpoint or partial line. |
| `BwAccountant.Accountant.Restore` | backend/internal/agent/bwtail.go:101-116 | Boot writes only positive totals of the current month over what is there, sets the month only then, and always takes the checkpoint. |
| `BwAccountant.Accountant.ParseLine` | backend/internal/agent/bwtail.go:309-321 | One line changes the totals exactly as the billing fold says, and nothing else. |
| `BwAccountant.Accountant.ReadRange` | backend/internal/agent/bwtail.go:224-261 | The chunk loop, held partial line included, feeds, holds and returns what the one-shot description of a pass says, for any file and any offset, negative ones too. |
| `BwAccountant.Accountant.PersistLocked` | backend/internal/agent/bwtail.go:327-349 | The state file becomes the loaded chains with the totals and the checkpoint of memory, saved together under the stamp of the clock at save time, even when the save is cut short. |
| `BwAccountant.Accountant.Tally` | backend/internal/agent/bwtail.go:158-218 | Month roll, first-run seek, shrunk file, drained predecessor and the jump to the new file leave exactly the fields and the files that the step machine's tally describes; with a log present and a save that completes, the file then loads as the new totals and checkpoint with the chains it had, and with no log it is unchanged. |
| `BwAccountant.FirstTallySeeksEnd` | backend/internal/agent/bwtail.go:174-180 | The first tally over a log bills nothing and starts at its end. |
| `BwAccountant.SameFileReadsOn` | backend/internal/agent/bwtail.go:181-193 | In the same file a tally bills exactly what follows its checkpoint, the held start of a line in front, and stops behind the last newline. |
| `BwAccountant.ShrunkFileIsReadAgain` | backend/internal/agent/bwtail.go:181-193 | A file shorter than the checkpoint is billed from its start, and the held start of a line is dropped. |
| `BwAccountant.RotatedDrains` | backend/internal/agent/bwtail.go:194-218 | After a rotation the rest of the file the checkpoint is in, under `.1` or else `.2`, is billed first, then the new file from its start. |
| `BwAccountant.RotatedSkips` | backend/internal/agent/bwtail.go:194-218 | When neither retained file is the checkpoint's, only the new file is billed and the held start of a line is dropped. |
| `BwAccountant.LineIsBilled` | backend/internal/agent/bwtail.go:309-321 | A line adds both byte counts of a record of the month to its site, and nothing to any other. |
| `BwAccountant.RestoredIs` | backend/internal/agent/bwtail.go:101-116 | A boot takes over the positive totals of the current month, the checkpoint of any month, and no held line. |
| `BwState.LoadIsLastCommitted` | backend/internal/agent/bw_state.go:71-91 | For every sequence of saves, each cut at any file operation, from an uncorrupted state: a load returns the last committed state or none if there was none, whole, never an older one or a mixture. |
| `BwState.InterruptedSaveKeepsStateIff` | backend/internal/agent/bw_state.go:121-142 | The loaded state outlives every interruption of a save if and only if the current file is not torn, or there was nothing to lose. |
| `BwState.DamageCostsOneSaveIff` | backend/internal/agent/bw_state.go:117-142 | After a completed save, a current file that is torn or lost loads exactly the state before the save if and only if the old file was moved to the backup, there was none, or the backup held the same already. |
| `BwState.DamageInRunIff` | backend/internal/agent/bw_state.go:117-142 | The same after any sequence of saves, whole or cut short. |
| `BwState.DamageCostsOneGeneration` | backend/internal/agent/bw_state.go:117-142 | As long as the old file could be moved each time, damage to the current file after any sequence of saves costs at most the last completed one. |
| `BwState.CorruptionWitness` | backend/internal/agent/bw_state.go:121-142 | With a torn current file and a good backup, one interrupted save loses both. |
| `BwState.Store.SaveState` | backend/internal/agent/bw_state.go:121-142 | The save, one file operation at a time, ends in exactly the files the step machine uses for a complete or interrupted save, and reports success only for a completed one. |
| `BwSpan.SpanExtend` | backend/internal/agent/bwtail.go:224-261 | Reading on within one generation adds exactly the bytes of the records read, no matter how the stretch was cut into passes. |
| `BwSpan.SpanGrows` | backend/internal/agent/bwtail.go:187-216 | Later log growth never lowers what lies between two checkpoints, and does not change it when it only happens behind the second one. |
| `BwRuns.GoodRead` | backend/internal/agent/bwtail.go:224-261 | Reading a generation to its end keeps totals and checkpoint in agreement with the records between the start and the checkpoint. |
| `BwRuns.GoodJump` | backend/internal/agent/bwtail.go:199-216 | Switching to a later generation keeps the upper bound always, and the exact sum when the one before it was drained. |
| `BwRuns.TallyKeepsMem` | backend/internal/agent/bwtail.go:158-218 | Every branch of a tally keeps the in-memory pair accounted for, whatever becomes of its save. |
| `BwRuns.DiskAfterTally` | backend/internal/agent/bwtail.go:327-349 | After a tally the file loads as the whole new state if its save completed, else as what it loaded as before. |
| `BwRuns.TallyIsDurable` | backend/internal/agent/bwtail.go:158-218 | A tally that finds the log and whose save completes has its totals and checkpoint on disk, with the chains loaded before and the month stamped by the save, across rotations as well; a save cut short changes no load, and without a log nothing is written. |
| `BwRuns.DiskAfterEnforce` | backend/internal/agent/enforce.go:513-542 | After an enforce save the file loads as that call's own earlier load with one stamp more, or as before. |
| `BwRuns.NextKeeps` | backend/internal/agent/bwtail.go:101-218 | Every step (append, late append, rename, create, tally, crash, boot, enforce load, drop and save) keeps all totals in memory, on disk and on loan accounted for. |
| `BwTheorems.NeverOverbilled` | backend/internal/agent/bwtail.go:101-218 | In every run, with any clocks, rotations, crashes and cut-off saves, totals never exceed the initial total of their month plus the bytes of that month's records between a start and the checkpoint, provided completed saves stamp the month of their totals. |
| `BwTheorems.SpanWithinLogged` | backend/internal/agent/bwtail.go:187-218 | The bytes between two checkpoints are at most all bytes logged up to the second, and equal to them from the very start to the end: no record counts twice. |
| `BwTheorems.InProcessBound` | backend/internal/agent/bwtail.go:158-165 | Within one process the accumulator holds only bytes of records stamped in its own month, however the clock moves, with no condition on stamps. |
| `BwTheorems.BootIsGood` | backend/internal/agent/bwtail.go:101-116 | A process that starts empty or from a rightly labelled state starts within that bound. |
| `BwTheorems.ProcessBound` | backend/internal/agent/bwtail.go:101-218 | So the bound holds from boot on, through the whole life of the process. |
| `BwTheorems.EnforcementSumBound` | backend/internal/agent/enforce.go:172-185 | The sum compared with the limit is at most the firewall counters plus the seed and all logged bytes of the current month; totals of another month add nothing. |
| `BwTheorems.ExactInOneMonth` | backend/internal/agent/bwtail.go:101-218 | In a single-month run where each tally finds its generation under the current path or `.1` and nothing is appended to a drained one, totals equal seed plus the records between a start and the checkpoint, under every interleaving with the enforce path. |
| `BwTheorems.StartIsFixed` | backend/internal/agent/bwtail.go:101-116 | Once a checkpoint has been committed, the start position never moves again in any run. |
| `BwTheorems.DurableTotalIsExact` | backend/internal/agent/bwtail.go:327-349 | So after such a run the total read back from disk, and the one in memory, is the initial total plus exactly the records between the initial and its own checkpoint. |
| `BwTheorems.EnforcementSumIsExact` | backend/internal/agent/enforce.go:172-185 | So the sum compared with the limit is exactly the counters, the initial total and the records of the month between start and checkpoint. |
| `BwTheorems.RotatedTallyExactIff` | backend/internal/agent/bwtail.go:187-216 | A tally over a rotated log adds exactly the records up to its new checkpoint if and only if no billable record lay in the generations it passed over. |
| `BwTheorems.SpanAdds` | backend/internal/agent/bwtail.go:187-218 | What lies between two checkpoints is the sum of its parts at any record boundary between them, across generations. |
| `BwTheorems.PairsWrittenTogether` | backend/internal/agent/enforce.go:513-542 | Under every interleaving of the two writers, the (Sites, Log) on disk is one the accountant committed together or the initial one, never a mixture. |
| `BwTheorems.StampsSurvive` | backend/internal/agent/enforce.go:513-542 | With one enforce call at a time the stamps on disk are exactly those of all completed enforce saves, whatever tallies, crashes and cut-off saves happen in between. |
| `BwBytes.RunSettles` | backend/internal/agent/bwtail.go:158-261 | A run in which bytes reach the log in pieces of any size, and no tally reads a file that ends inside a line, is a run over the completed records. |
| `BwBytes.BytesNeverOverbilled` | backend/internal/agent/bwtail.go:101-261 | So the upper bound holds in such runs. |
| `BwBytes.BytesBilledExactly` | backend/internal/agent/bwtail.go:101-261 | And so does the exact sum, on disk and in memory, over exactly the complete records between the checkpoints. |
| `BwLimits.OneRotationIsBilled` | backend/internal/agent/bwtail.go:187-218 | A run across one rotation that meets every condition of the exact law and bills the drained record once: the law is not empty. |
| `BwLimits.DoubleRotationLosesOne` | backend/internal/agent/bwtail.go:199-216 | A run with two rotations between tallies in which a logged record is never billed. |
| `BwLimits.StatRaceBillsTwice` | backend/internal/agent/bwtail.go:166-212 | Two tallies, the first with a rotation between its stat and its open, bill a record logged once twice. |
| `BwLimits.RestampedTotalsReturn` | backend/internal/agent/bw_state.go:121-125 | A run in which an enforce save after midnight relabels last month's totals and a restart bills them to the new month, though nothing was logged in it. |
| `BwLimits.RestampHarmlessIff` | backend/internal/agent/bw_state.go:121-125 | Relabelling a state changes no total that a restart restores if and only if the label was right already or all totals are zero. |
| `BwLimits.BoundaryRecordIsDropped` | backend/internal/agent/bwtail.go:162-165 | A run in which a record logged before midnight and read after it is billed to neither month, in memory or on disk. |
| `BwLimits.BilledInFullIff` | backend/internal/agent/bwtail.go:309-321 | The lines read in a month are billed in full if and only if every paying record among them is stamped in that month. |
| `BwLimits.OverlappingEnforcesLoseStamp` | backend/internal/agent/enforce.go:519-540 | Two enforce calls at once (which the agent's job loop excludes) would lose a stamp. |
| `Recalc.RecalcScan` | backend/internal/agent/recalc.go:99-160 | Days come out strictly ascending and inside the range, each with exactly the site's request and response bytes of that day over all readable files; their sum is the total, which is the site's bytes over the whole range, and the matched count is its number of records there. |
| `Recalc.SinkDay` | backend/internal/agent/recalc.go:153-158 | One round of the in-place insertion sort extends the ordered prefix and keeps the days as a multiset. |
| `Recalc.SortDays` | backend/internal/agent/recalc.go:153-158 | The in-place sort leaves a strictly ascending permutation of days with distinct dates. |
| `Recalc.TotalOfPermuted` | backend/internal/agent/recalc.go:149-158 | The total does not depend on the order in which the map yielded the days. |
| `Recalc.BatchIsLogged` | backend/internal/agent/recalc.go:99-160 | Over retained whole records, the scan of a month finds exactly all bytes logged in it. |
| `Recalc.IncrementalWithinBatch` | backend/internal/agent/recalc.go:99-160 | From zero totals, in every run, the live month total is at most the recount of that month. |
| `Recalc.IncrementalEqualsBatch` | backend/internal/agent/bwtail.go:101-261 | Started on an empty log, in a single-month run with nothing skipped or appended late, live total and recount agree once all is read. |
| `Recalc.LongLineEndsScan` | backend/internal/agent/recalc.go:127-128 | A line over the scanner's buffer hides the rest of its file from the recount. |
| `Recalc.ScanReadsOnIff` | backend/internal/agent/recalc.go:126-131 | A line is read, and the scan goes on behind it, if and only if with its newline it fits in a mebibyte. |
| `Stream.Streamer.NextSampleFrame` | backend/internal/agent/stream.go:375-386 | Taking a sample numbers it one above the last and leaves the ring holding exactly the last 256 samples, each in its slot. |
| `Stream.Streamer.Acknowledge` | backend/internal/agent/stream.go:273-291 | A welcome or ack moves the acknowledged number up, never down, and touches nothing else. |
| `Stream.Streamer.Replay` | backend/internal/agent/stream.go:300-323 | The scan from the head yields exactly samples max(acked, n-256)+1..n in increasing order with their own data, and nothing while none is acknowledged. |
| `Stream.ReplayFromIs` | backend/internal/agent/stream.go:300-323 | A sample is sent again if and only if something was acknowledged, this sample was not, and it is among the last 256. |
| `StreamRuns.OrderedAlways` | backend/internal/agent/stream.go:193-323 | In every run of connects, drops and resumes: acknowledged <= last ingested <= taken, and the ingested numbers strictly increase. |
| `StreamRuns.AckedNeverFalls` | backend/internal/agent/stream.go:276-291 | What was acknowledged stays acknowledged along every run, through every drop. |
| `StreamRuns.ReplayCoversIff` | backend/internal/agent/stream.go:300-323 | A replay on a fresh connection leaves no gap if and only if the control plane misses nothing, or some sample is acknowledged and at most 256 are missing. |
| `StreamRuns.DocumentedConditionCovers` | backend/internal/agentproto/protocol.go:9-13 | The documented condition (an ack exists and at most 256 samples are unacknowledged) implies the exact one. |
| `StreamRuns.GaplessWhenCovered` | backend/internal/agentproto/protocol.go:9-13 | If every replay happens in a covered state, the control plane ingests exactly 1..k, no gap and no repeat. |
| `StreamRuns.GapStays` | backend/internal/agent/stream.go:193-323 | A number once passed over is never ingested later. |
| `StreamRuns.UnackedFirstSampleIsLost` | backend/internal/agent/stream.go:303-306 | A run in which sample 1 is lost for good because nothing was acknowledged before the drop. |
| `Stubs.ParseDomains` | backend/internal/agent/lifecycle_ops.go:643-683 | The parser loops with their seen-set return the valid lower-cased names in order of first occurrence, each once. |
| `Text.DomainsMembers` | backend/internal/agent/lifecycle_ops.go:651-683 | A name is found if and only if it is valid and some token lower-cases to it. |
| `Text.ValidDomainIs` | backend/internal/agent/nginx.go:910-922 | A domain name is valid if and only if it has 3 to 253 characters, all small letters, digits, hyphens or dots. |
| `StubLaws.NginxStubReadsBack` | backend/internal/agent/nginx.go:516-552 | Parsing a rendered nginx stub returns exactly the domain list it was rendered from, in order. |
| `StubLaws.ApacheStubReadsBack` | backend/internal/agent/webserver_ops.go:154-191 | Parsing a rendered Apache stub returns exactly its domain list, in order. |
| `StubLaws.ApacheStubKeepsPort` | backend/internal/agent/webserver_ops.go:229-239 | The listen port read from a rendered Apache stub is the one it was rendered with. |
| `StubLaws.ApacheStubKeepsRoot` | backend/internal/agent/lifecycle_ops.go:723-738 | The document root read from a rendered Apache stub is the one it was rendered with. |
| `StubLaws.StubOfStub` | backend/internal/agent/lifecycle_ops.go:709-738 | For every config text and any two reasons, the stub of its stub is its stub, and both name the same domains. |
| `StubAnswers.StubAnswers` | backend/internal/agent/lifecycle_ops.go:709-738 | Every stub of a terminated site makes its server answer 410, and every stub of a suspended one 503, read off the config's own directive. |
| `StubAnswers.NginxServes` | backend/internal/agent/nginx.go:507-551 | Which page an nginx stub serves from which directory: the page of a termination, the given page, the default page, the site's own directory for exhausted bandwidth; it names its domains and keeps the site in the accounting. |
| `StubAnswers.ApacheServes` | backend/internal/agent/webserver_ops.go:154-191 | The same for Apache, with the document of the status. |
| `StubAnswers.OlsServes` | backend/internal/agent/webserver_ops.go:505-565 | OpenLiteSpeed serves the generic page of its kind under the same status. |
| `StubAnswers.SuspendedSiteAnswers` | backend/internal/agent/lifecycle_ops.go:376-594 | After a suspension or termination that did not fail, the live config answers the status of its own reason, under all three servers. |
| `StubAnswers.ReasonAnswers` | backend/internal/agent/lifecycle_ops.go:76-81 | Every reason of a suspension leads to 503, and exhausted bandwidth to the site's own page. |
| `Lifecycle.RendererIsStable` | backend/internal/agent/lifecycle_ops.go:709-738 | The real renderers, for all three servers, have the stability the lifecycle laws need. |
| `Lifecycle.SuspendKeepsLaw` | backend/internal/agent/lifecycle_ops.go:376-594 | A suspension, however it ends, leaves `no backup and the original` or `backup is the original and the config is it or one of its stubs`, as long as a rejected config is put back and a backup that fails is whole. |
| `Lifecycle.ResumeKeepsLaw` | backend/internal/agent/lifecycle_ops.go:424-637 | So does a resume, and one that handles the target and does not fail shows the original. |
| `Lifecycle.RepeatedSuspendIsNoOp` | backend/internal/agent/lifecycle_ops.go:376-392 | After a suspension that did not fail the config is the original's stub, and repeating it with the same reason changes no file. |
| `Lifecycle.SuspendShows` | backend/internal/agent/lifecycle_ops.go:376-594 | A suspension that does not fail leaves its stub live and, unless there was an older backup, the config of before in the backup; it finds nothing to do if and only if the stub is live already. |
| `Lifecycle.SuspendSucceedsIff` | backend/internal/agent/lifecycle_ops.go:376-594 | The exact condition under which a suspension succeeds. |
| `Lifecycle.ResumeSucceedsIff` | backend/internal/agent/lifecycle_ops.go:424-637 | The exact condition under which a resume succeeds. |
| `Lifecycle.FailedSuspendLeaves` | backend/internal/agent/atomic.go:61-94 | A suspension that fails leaves the live config as it was, unless its rollback misses or only the reload failed. |
| `Lifecycle.BackupAfterFailure` | backend/internal/agent/lifecycle_ops.go:275-289 | What the backup is after a suspension that failed: the older one, none, whatever a failed write left, or the config of before, unless the stub was tried and not taken. |
| `Lifecycle.LinkAfterSuspend` | backend/internal/agent/lifecycle_ops.go:393-416 | Whether the site is enabled after a suspension with a backup: linking must work, and a rejected stub puts the link back as it was. |
| `Lifecycle.ResumeCleansUp` | backend/internal/agent/lifecycle_ops.go:424-457 | A resume that does not fail removes the backup, touches no link and shows the backup only when it changed something. |
| `Lifecycle.OriginalKeptIff` | backend/internal/agent/lifecycle_ops.go:275-637 | Whatever reads, writes, removals, links, validators, rollbacks and reloads do, an operation loses the original if and only if a first backup that failed half-way stays with other content, or a rejected stub is not rolled back and the backup just made is removed, or what a failed read of the live config returned equals the original and the backup is removed. |
| `Lifecycle.ResumeShowsIff` | backend/internal/agent/lifecycle_ops.go:424-457 | A resume that handles a target and does not fail shows the original if and only if it did not take what a failed read returned for the live config. |
| `Lifecycle.OriginalSurvivesIff` | backend/internal/agent/lifecycle_ops.go:275-637 | Over every run the original is kept all along if and only if no operation loses it in one of these ways. |
| `Lifecycle.FailedRollbackLosesOriginal` | backend/internal/agent/atomic.go:78-94 | A losing run: rejection, ignored rollback write error, fresh backup removed. |
| `Lifecycle.PartialBackupLosesOriginal` | backend/internal/agent/lifecycle_ops.go:279-288 | A losing run of three calls: a backup write fails and its removal too, the next suspension takes the rest for the original, and a resume that succeeds puts it live. |
| `Lifecycle.RemovedConfigIsNotResumed` | backend/internal/agent/atomic.go:61-94 | A live config a swap cannot read again is removed on rejection; the next resume finds no target and reports success with the original still in the backup. |
| `Lifecycle.CutReadLosesOriginal` | backend/internal/agent/lifecycle_ops.go:436-440 | A losing run: the read of a live stub fails where the original, a start of it, ends. |
| `Lifecycle.SiteKeptIff` | backend/internal/agent/lifecycle_ops.go:291-345 | An operation on a site keeps every target's original if and only if no target it comes to loses its own. |
| `Lifecycle.SiteStopsAtFailure` | backend/internal/agent/lifecycle_ops.go:291-345 | An operation on a site succeeds if and only if no target fails; the targets before the first failure are done and those after it untouched. |
| `Lifecycle.SiteResumeShows` | backend/internal/agent/lifecycle_ops.go:319-345 | A resume of the site that succeeds shows the original of a target it found if and only if it did not mistake it. |
| `Lifecycle.SiteStepKeepsLaw` | backend/internal/agent/lifecycle_ops.go:291-345 | The original-or-stub law holds for all targets of a site after a benign operation that stops at the first failing one. |
| `Lifecycle.RunKeepsLaw` | backend/internal/agent/lifecycle_ops.go:291-345 | It holds on every target after every sequence of benign operations. |
| `Lifecycle.LifecycleIsReversible` | backend/internal/agent/lifecycle_ops.go:183-345 | From configs with no backup, after every sequence of suspensions, terminations and resumes that loses no original in those ways, a resume of the site that succeeds shows the original of every target it found, line for line. |
| `LifecycleFiles.TargetFiles.AtomicWrite` | backend/internal/agent/atomic.go:26-51 | The new content, or the old content untouched. |
| `LifecycleFiles.TargetFiles.RestoreFile` | backend/internal/agent/atomic.go:86-94 | The content seen before is written back, or the file removed if none was seen; either may fail unnoticed. |
| `LifecycleFiles.TargetFiles.SwapValidated` | backend/internal/agent/atomic.go:61-84 | The new content stays only when validated; otherwise what the swap could read before is put back, or the file removed if it could not, or what a failed rollback left. |
| `LifecycleFiles.TargetFiles.EnsureSuspendBak` | backend/internal/agent/lifecycle_ops.go:275-289 | An existing backup is never overwritten; a new one holds the current config, or any content when writing or closing it fails and it stays. |
| `LifecycleFiles.TargetFiles.SuspendSite` | backend/internal/agent/lifecycle_ops.go:376-505 | The nginx and Apache suspension, step by step, ends in the files and the result of the step function the laws are about. |
| `LifecycleFiles.TargetFiles.ResumeSite` | backend/internal/agent/lifecycle_ops.go:424-546 | The same for resuming. |
| `LifecycleFiles.TargetFiles.SuspendOlsSite` | backend/internal/agent/lifecycle_ops.go:554-594 | The same for OpenLiteSpeed, which has a restart in place of a validator. |
| `LifecycleFiles.TargetFiles.ResumeOlsSite` | backend/internal/agent/lifecycle_ops.go:599-637 | The same for resuming OpenLiteSpeed. |
| `Vhost.NormalizeRedirects` | backend/internal/agent/webserver.go:31-52 | Exactly the rules with a valid source, target and status survive, in order, with status 0 read as 301. |
| `Vhost.NormalizedNext` | backend/internal/agent/webserver.go:31-52 | One rule more is kept if and only if its source and target are valid and its code, 301 for none, is one of four. |
| `Vhost.TargetIs` | backend/internal/agent/webserver.go:54-65 | Which targets are valid, character by character. |
| `Vhost.SecuredDomains` | backend/internal/agent/nginx.go:76-91 | Exactly the domains with a mode, both paths and a certificate on disk, in order and as often as given. |
| `Vhost.HasCertIs` | backend/internal/agent/nginx.go:76-91 | A name is served over TLS if and only if an entry of it asks for it and has a key and a certificate that is on disk. |
| `Vhost.GroupDomains` | backend/internal/agent/nginx.go:143-166 | The groups hold each served domain as often as it was given, in the group of its own document root, with usable certificates for its own names only. |
| `Vhost.RenderVhost` | backend/internal/agent/nginx.go:110-220 | Every redirect source has its block; every other domain is answered from its own document root, over TLS with a usable certificate for a name of its block if it has one, else in the clear; over port 80 every name occurs as often as given and TLS is offered to no name without a certificate. |
| `Vhost.EachNameOnce` | backend/internal/agent/nginx.go:143-199 | With distinct domains and distinct redirect sources each name is given once over port 80. |
| `Vhost.EachNameInOneBlock` | backend/internal/agent/nginx.go:110-220 | So exactly one port-80 block of the rendered vhost holds the name, and once. |
| `Vhost.VhostTokens` | backend/internal/agent/lifecycle_ops.go:651-665 | The text of a list of blocks yields the names of the blocks and nothing else. |
| `Vhost.BlockListens` | backend/internal/agent/nginx.go:110-220 | A block listens on 80 in the clear or on 443 with TLS, and names its names before its body. |
| `Vhost.VhostReadsBack` | backend/internal/agent/nginx.go:110-220 | The names parsed back from a rendered vhost are exactly the site's domains and its normalized redirect sources. |
| `FtpSync.SplitMatchBlocks` | backend/internal/agent/ftp_ops.go:397-410 | The line loop splits a file into its Match blocks as the block function says. |
| `FtpSync.SplitKeepsText` | backend/internal/agent/ftp_ops.go:397-410 | The lines of a file, joined again, are its text. |
| `FtpSync.BlocksHoldLines` | backend/internal/agent/ftp_ops.go:397-410 | The blocks hold every line from the first Match line on, in order. |
| `FtpSync.RenderSFTPConf` | backend/internal/agent/ftp_ops.go:354-382 | The rendering loops write exactly the text the laws are about. |
| `FtpSync.AccountReadsBack` | backend/internal/agent/ftp_ops.go:365-380 | User and home directory are read back from a block. |
| `FtpSync.BlockConfines` | backend/internal/agent/ftp_ops.go:365-380 | A block opens on its user and forbids forwarding and tunnels. |
| `FtpSync.PrintedReadsBack` | backend/internal/agent/ftp_ops.go:354-410 | Neat blocks survive printing and reading back line for line. |
| `FtpSync.RenderedView` | backend/internal/agent/ftp_ops.go:354-410 | After a sync the file reads as the foreign blocks unchanged and in order, then the desired ones, whatever text was there before. |
| `FtpSync.SyncEffect` | backend/internal/agent/ftp_ops.go:354-382 | After a sync its site shows exactly the desired accounts and every other site what it showed before. |
| `FtpSync.SyncIdempotent` | backend/internal/agent/ftp_ops.go:354-382 | An immediate repeat renders identical text. |
| `FtpSync.SyncsConverge` | backend/internal/agent/ftp_ops.go:354-410 | After any sequence of syncs every site shows its own last desired list, or what it began with. |
| `FtpHome.CleanHomeIsGood` | backend/internal/agent/ftp_ops.go:330-345 | A validated home directory that is written clean holds no newline. |
| `FtpHome.ValidHomeIff` | backend/internal/agent/ftp_ops.go:330-345 | A home directory is accepted if and only if its pieces, double dots taken back, go on from those of the site's directory, and the path they make holds no blank, control character or quote. |
| `FtpHome.ValidHomeWithNewline` | backend/internal/agent/ftp_ops.go:330-345 | Validation looks at the cleaned path only: in every site tree there is an accepted home directory with a newline. |
| `FtpHome.RenderedViewIff` | backend/internal/agent/ftp_ops.go:354-410 | The drop-in reads back as the foreign blocks and the desired ones if and only if no desired home directory holds a newline. |
| `FtpHome.SyncShowsIff` | backend/internal/agent/ftp_ops.go:354-382 | A sync shows its site's desired accounts if and only if none of their home directories holds a newline. |
| `FtpSync.Removals` | backend/internal/agent/ftp_ops.go:502-516 | The removals are exactly the own-prefix users no longer desired, each once. |
| `DnsZone.ValidateRecords` | backend/internal/agent/dns_zone_ops.go:547-573 | The in-place loop accepts a list if and only if every record is clean and no two share name, type and value, and then leaves all of them normalized. |
| `DnsZone.CleanIs` | backend/internal/agent/dns_zone_ops.go:547-573 | What one record must be, and what becomes of it. |
| `DnsZone.KeyInjective` | backend/internal/agent/dns_zone_ops.go:563-567 | The joined duplicate key tells records apart exactly as its three parts do. |
| `DnsZone.PermutedValidity` | backend/internal/agent/dns_zone_ops.go:547-573 | One order of a record list validates if and only if every other does. |
| `DnsZone.SortRecords` | backend/internal/agent/dns_zone_ops.go:446-470 | Sorting a valid list gives a strictly ordered permutation of it. |
| `DnsZone.StrLessIs` | backend/internal/agent/dns_zone_ops.go:446-470 | The order of names is byte order: a proper start first, else the first difference decides. |
| `DnsZone.SortedIs` | backend/internal/agent/dns_zone_ops.go:446-470 | In a sorted list the apex comes first, then names, types and values go up. |
| `DnsZone.SortedUnique` | backend/internal/agent/dns_zone_ops.go:446-470 | A set of records has only one sorted arrangement. |
| `DnsZone.PermutationsRenderAlike` | backend/internal/agent/dns_zone_ops.go:446-479 | Any two orders of one valid list render the same zone file line for line, for any record printer. |
| `DnsZone.TiesWouldShow` | backend/internal/agent/dns_zone_ops.go:450-462 | Without the duplicate check two different records would compare equal. |
| `DnsZone.TxtRoundTrip` | backend/internal/agent/dns_zone_ops.go:512-516 | A quoted TXT value read as a zone file reader does gives the value back, for every string. |
| `DnsInclude.ParseDeclarations` | backend/internal/agent/dns_zone_ops.go:346-360 | The match loop returns exactly the declarations with a file, in order. |
| `DnsInclude.ZoneAtIff` | backend/internal/agent/dns_zone_ops.go:346 | A zone is found at a place if and only if the text there has the form of the expression, whatever blanks it has; the body holds no closing brace. |
| `DnsInclude.FileAtIff` | backend/internal/agent/dns_zone_ops.go:347 | A file is found at a place if and only if the text there has the form of the expression. |
| `DnsInclude.DeclPrinted` | backend/internal/agent/dns_zone_ops.go:414-416 | The text of a plain declaration: a master zone open to all queries, its name and file in quotes. |
| `DnsInclude.IncludeReadsBack` | backend/internal/agent/dns_zone_ops.go:346-418 | A printed include file is read back declaration by declaration although the block expression stops at the inner closing brace. |
| `DnsMerge.MergeZoneDeclarations` | backend/internal/agent/dns_zone_ops.go:377-418 | The merge loops write exactly the text the laws are about, and refuse an empty zone file path. |
| `DnsMerge.MergedIs` | backend/internal/agent/dns_zone_ops.go:377-405 | Exactly which declarations a merge leaves, and with which files, for upserts and sweeps alike. |
| `DnsMerge.UpsertKeepsLive` | backend/internal/agent/dns_zone_ops.go:393-405 | After an upsert a name is declared if and only if it is the upserted one, or was declared with a file that lies below the root and exists; the upserted name has the given file and every other the file it had. |
| `DnsMerge.MergeRefusedIff` | backend/internal/agent/dns_zone_ops.go:377-384 | A merge is refused if and only if it has no zone file path. |
| `DnsMerge.MergeReadsBack` | backend/internal/agent/dns_zone_ops.go:377-418 | A merged text stands for exactly the merged map, in name order. |
| `DnsMerge.MergeIdempotent` | backend/internal/agent/dns_zone_ops.go:377-418 | A second identical merge changes nothing. |
| `DnsMerge.MergesStayPlain` | backend/internal/agent/dns_zone_ops.go:377-418 | Every text the agent writes by any sequence of merges, from an empty file and with its own names and paths, is one that the merge laws speak about. |
| `DnsMerge.MergesCommute` | backend/internal/agent/dns_zone_ops.go:377-418 | Merges of two different domains commute while both zone files exist under the same root. |
| `DnsMerge.SweepClearsSite` | backend/internal/agent/dns_zone_ops.go:377-418 | A sweep leaves exactly the live declarations outside the site's directory, unchanged. |
| `Alerts.NeededIsTest` | backend/internal/alerts/alerts.go:359-369 | The product test is met if and only if the streak has reached the needed number of samples. |
| `Alerts.OpenIffStillFiring` | backend/internal/alerts/alerts.go:228-259 | After any trace, with rules tuned and inserts and updates failing at will, an alert is open if and only if some position ended a breach streak of the length then needed, its insert succeeded, and no later sample met the recovery margin. |
| `Alerts.OpenIffHigh` | backend/internal/alerts/alerts.go:228-259 | In plain numbers, for rules on high values: an alert is open if and only if the values were above the limit for the whole duration, its insert succeeded, and none since was at or below the limit less the recovery margin. |
| `Alerts.OpenIffLow` | backend/internal/alerts/alerts.go:228-259 | The same for rules on low values, mirrored. |
| `Alerts.HighSample` | backend/internal/alerts/alerts.go:228-259 | One sample of a rule on high values: above the limit it counts, inside the recovery margin it changes nothing but the counter, at or below the margin it closes the alert. |
| `Alerts.LowSample` | backend/internal/alerts/alerts.go:228-259 | The same for low values, mirrored. |
| `Alerts.RaiseWrites` | backend/internal/alerts/alerts.go:287-329 | A raise bumps the open alert's row, inserts a row of its name and subject unless one is in the way, or, when the database fails, changes nothing. |
| `Alerts.ResolveWrites` | backend/internal/alerts/alerts.go:332-356 | A resolve forgets the alert, and closes its row and tells it only when the update succeeds. |
| `Alerts.SubjectsAreIndependent` | backend/internal/alerts/alerts.go:228-259 | In an interleaved trace each rule and subject behaves as its own samples alone would make it, whatever the database does. |
| `Alerts.KeysAreApart` | backend/internal/alerts/alerts.go:228-236 | Keys are equal if and only if rule and subject are. |
| `AlertTable.EventsAlternateIff` | backend/internal/alerts/alerts.go:287-356 | All along a run, of samples, other rule classes' raises and resolves, manual resolves and restarts, a key's raised and resolved events alternate in step with its alert if and only if no automatic resolve of it fails while it is open and no restart happens over it. |
| `AlertTable.EventsAlternate` | backend/internal/alerts/alerts.go:287-356 | In particular in one process, when the key's updates succeed. |
| `AlertTable.RaiseKeepsRowsIff` | backend/internal/alerts/alerts.go:287-329 | From agreement of memory and table both ways (each open key its own unresolved row, each unresolved row an open key), a raise keeps it if and only if the key is open already, nothing is inserted, or no unresolved row of that type and subject stands in the way. |
| `AlertTable.ResolveKeepsRowsIff` | backend/internal/alerts/alerts.go:332-356 | An automatic resolve keeps it if and only if the key was not open or the update succeeds. |
| `AlertTable.ManualResolveKeepsRowsIff` | backend/internal/alerts/alerts.go:191-203 | A manual resolve keeps it if and only if it fails or the row belongs to no open alert. |
| `AlertTable.RestartKeepsRowsIff` | backend/internal/alerts/alerts.go:220-224 | A restart leaves them in agreement if and only if no row is unresolved. |
| `AlertTable.StepKeepsRowsIff` | backend/internal/alerts/alerts.go:228-356 | The exact condition of every step, samples included. |
| `AlertTable.RunKeepsRowsIff` | backend/internal/alerts/alerts.go:228-356 | Over any table, with fresh ids and whatever becomes of rules, memory and table agree all along a run if and only if no row was unresolved at first and every step meets its exact condition. |
| `AlertTable.UnresolvedRowIff` | backend/internal/alerts/alerts.go:287-329 | While they agree, the table has an unresolved row of a name and subject if and only if some rule that has or had the name holds an open alert for the subject. |
| `AlertTable.RaiseFitsIff` | backend/internal/alerts/alerts.go:298-315 | So a raise keeps agreement if and only if the key is open already, nothing is inserted, or no alert is open that a rule of the same name raised before it was deleted. |
| `AlertTable.RunKeepsRowsByRulesIff` | backend/internal/alerts/alerts.go:90-120 | In terms of rules, tuned, deleted and made again under old names: memory and table agree all along a run if and only if no row was unresolved at first, no automatic resolve of an open alert fails, none is resolved by hand, no restart happens over one, and no rule made again under its old name raises while the old alert is open. |
| `AlertTable.RaisesAlwaysPermitted` | backend/internal/alerts/alerts.go:298-315 | When no name was reused, however rules were tuned, no raise can part memory and table. |
| `AlertTable.RecreatedRuleHasNoRow` | backend/internal/alerts/alerts.go:298-315 | A run in which a rule deleted with its alert open and made again under its name breaches, and its alert gets no row. |
| `AlertTable.OpenIffUnresolvedRow` | backend/internal/alerts/alerts.go:287-329 | While they agree and no name was reused, tuned rules included, an alert is open if and only if the table has its unresolved row. |
| `AlertTable.UnresolvedIffStillFiring` | backend/internal/alerts/alerts.go:228-329 | In one process in which memory and table agree, the unresolved row of a name and subject exists if and only if for some rule of that name a streak of the samples fired and no later one recovered. |
| `AlertTable.RestartForgetsOpenAlert` | backend/internal/alerts/alerts.go:289-315 | Runs from an empty engine: after a restart an open row is not resolved by a recovery, and a breach announces an alert without a row, raised twice in a row. |
| `AlertTable.ManualResolveMutesAlert` | backend/internal/alerts/alerts.go:289-297 | A run from an empty engine: after a manual resolve a new breach only bumps the resolved row. |
| `AlertTable.FailedResolveForgetsAlert` | backend/internal/alerts/alerts.go:332-347 | A run from an empty engine: an automatic resolve whose update fails says nothing and leaves the row unresolved, and the next breach opens an alert without a row, raised twice in a row. |
| `Alerts.Engine.EvaluateThreshold` | backend/internal/alerts/alerts.go:228-259 | The engine's maps, rows and events change exactly as the step the laws are about, failed database calls included. |
| `Alerts.Engine.Raise` | backend/internal/alerts/alerts.go:287-329 | The same for a raise. |
| `Alerts.Engine.ResolveAuto` | backend/internal/alerts/alerts.go:332-356 | The same for an automatic resolve. |
| `FastCgi.LengthRoundTripIff` | backend/internal/agent/fpm_status.go:320-332 | A length survives encoding and decoding if and only if it fits in 31 bits (section 3.4 of the FastCGI Specification 1.0). |
| `FastCgi.PairsRoundTrip` | backend/internal/agent/fpm_status.go:320-333 | Decoding encoded pairs returns the same pairs in the same order. |
| `FastCgi.WriteRecordReadsIff` | backend/internal/agent/fpm_status.go:303-318 | A written record is read back whole if and only if its content fits in 16 bits; longer content is framed with a cut length. |
| `FastCgi.ResponseIsPayload` | backend/internal/agent/fpm_status.go:335-359 | For every split of a payload into records with any padding, mixed with other records, the reader returns exactly the payload at END_REQUEST (section 3.3). |
| `FastCgi.CutResponseIsError` | backend/internal/agent/fpm_status.go:335-359 | A response cut off anywhere before its last byte is an error, never a shorter payload. |
| `FastCgi.OtherVersionIsError` | backend/internal/agent/fpm_status.go:343-345 | A record of another version ends the response with an error. |
| `FastCgi.WireBytes` | backend/internal/agent/fpm_status.go:303-318 | A record is eight header bytes, version 1, its type, request 1, both lengths, then its content and padding (section 3.3 of the FastCGI Specification). |
| `FastCgi.PairExample` | backend/internal/agent/fpm_status.go:320-333 | The bytes of a pair and of one-byte and four-byte lengths. |
| `FastCgi.Source.ReadFull` | backend/internal/agent/fpm_status.go:361-371 | Whatever pieces the reads return, the buffer is the next n bytes, and it fails if and only if fewer are left. |
| `FastCgi.Source.ReadResponse` | backend/internal/agent/fpm_status.go:335-359 | The response loop over any short reads returns what the stream as a whole says, or an error. |

## Left out

- NeverOverbilled: asks that a completed save stamps the month of the totals it writes, because the code restamps for any caller and `RestampedTotalsReturn` is a run without that condition.
- ExactInOneMonth: whole runs are over whole records; `BytesBilledExactly` has the same over bytes in any pieces when no tally reads an unfinished line, and `UnfinishedLineWitness` shows what happens when one does.
- NeverOverbilled and Accountant.Tally: the stat and the open of one path are one moment; `StatRaceBillsTwice` shows what a rotation between them does.
- NextKeeps: a log file is a generation that is renamed, never truncated in place, and no two generations share an inode; the shrunk-file branch is in `Accountant.Tally`.
- Accountant.Tally: totals are unbounded; the 64-bit wrap of byte sums is not modelled.
- Accountant.ParseLine: splitting a record into fields, the timestamp and its UTC month are a parameter that sees the trimmed line, and a month is a number.
- RestampHarmlessIff: the month a save stamps is the clock's at that moment; clocks are parameters.
- SaveState: JSON encoding and missing fsync; a file is absent, whole or torn, and a rename is atomic.
- StampsSurvive: enforce calls come one at a time, as the agent's job loop runs them; `OverlappingEnforcesLoseStamp` shows the other case.
- RecalcScan: the text form of dates; dates are pairs of month and day in calendar order.
- OrderedAlways: the ingestor is not part of the agent's files; it is the one the frame documents describe. Heartbeats, ping timeouts, backoff, interval throttling and the samples' content are not modelled.
- ParseDomains: a config is a list of lines and a directive stands on one line; expressions that would match across lines are not modelled.
- StubOfStub: the site id is nonempty and without blanks, as the identifiers of sites are.
- DomainsMembers: lower case is that of ASCII letters and of the two other characters whose lower case is in ASCII; a name with any other is not valid in either case.
- TargetIs: lengths count characters, not bytes; beyond ASCII the two differ.
- RunKeepsLaw: asks that rejected configs are put back and failed backups are whole; `LifecycleIsReversible` is the law without that.
- LifecycleIsReversible: provisioning between lifecycle operations, a crash in the middle of an operation, and another program editing the files; configs are lists of lines, so texts that differ only in a final newline are one.
- AtomicWrite: the temporary file and the five places where staging can fail are one outcome, the target untouched.
- SuspendOlsSite: reading the domain map of OpenLiteSpeed and editing its listeners is an outcome.
- RenderVhost: path cleaning, the disk and the bodies of blocks come from outside and hold no `server_name`; user config layers are such bodies. The renderer's branches for terminated, suspended and over-quota sites are not in it; the first two are covered by the lifecycle stubs.
- SyncEffect: prefixes have one common length, which the site ids give them, and home directories hold no newline, without which `SyncShowsIff` shows that it fails; SyncIdempotent, SyncsConverge and RenderedView ask the same. System users, the virtual user file and the per-user files are not modelled.
- ValidateRecords: name normalization, type folding and the checks of each type's value are parameters; normalized names are nonempty and without `|`.
- PermutationsRenderAlike: the line of one record is a parameter.
- IncludeReadsBack: domains and paths are printable ASCII without quotes, closing braces and backslashes; what Go's quoting verb does beyond ASCII is not modelled.
- MergeReadsBack: the existing text holds such names and paths only, as `MergesStayPlain` shows of all the agent writes; MergeIdempotent and MergesCommute ask the same.
- MergesCommute: which files exist and which paths lie under which directory are parameters.
- OpenIffStillFiring: values are real numbers without rounding or NaN. When state and time-window rules raise or resolve, acknowledgements and the event bus are not modelled; their raises and resolves are steps of `AlertTable`.
- RunKeepsRowsByRulesIff: rule ids are never reused and a tuned rule keeps its name, as the rules table has it; which rules exist when is not part of a state.
- ReadFull: a read of the connection returns bytes or an error, never both.
- ReadResponse: dialling, deadlines and parsing the status page.
- Certificates, validators and reloads are outcomes; installers, deployments, databases, backups, pool patching, metric rates and the frontend are not modelled.
