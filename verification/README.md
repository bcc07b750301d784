# Verification of the GPU arbiter and its tenants

This project models the parts of the repository whose correctness depends on order,
state or arithmetic, and proves what they promise. `dafny verify dfyconfig.toml`
checks all of it.

- **GPU lease** (`GpuLease`, `GpuLeaseTheorems`, `Supervisors`, `SupervisorTheorems`,
  `Scheduler`, `SupervisorProcess`). The arbiter is an admission controller with priorities, a lock held
  across waits, a release that takes no lock, a reaper, and a two-event handshake
  with cooperative holders. It is a transition system with one event per stretch of
  code between awaits; a run is any legal sequence of events. `Supervisors` composes
  it with the processes that ask, spawn a worker, kill it and only then release.
  `Scheduler` has the arbiter's objects, and `SupervisorProcess` the supervisor's, with
  their fields changed in place; a ghost log ties each method to a legal run.
- **Checkpoints** (`Checkpoints`, `CheckpointDir`). A disk of checkpoint directories
  with a SIGKILL possible between any two file operations, removals in any order.
- **Lore agent** (`Excerpts`, `Research`, `LoreLoop`, `ToolLoop`, `Session`). Two lists
  sharing message objects, rewritten in place by compaction, in step with the set of
  excerpts already shown; and the append-only transcript between turns.
- **Conversation index** (`Transcript`, `Ingest`, `Counting`, `CountingTheorems`,
  `GroupCounts`). A chunker, a printer, a parser and a search that must agree with the
  plain archive.
- **Proxy slot** (`ProxyQueue`). Counters, slot lock and the release decision over any
  interleaving of requests.
- **Archive** (`Archive`, `Reparse`), **chunked bodies** (`Dechunk`), **posts**
  (`Streaming`).

## What turned out not to hold

Each is a lemma with the failing case, beside the exact condition under which the code
does meet the promise.

- "At most one lease" fails for every table with a container job beside another job:
  a container's lease outlives it and is skipped by the next acquire
  (`GpuLeaseTheorems.AtMostOneIff`).
- "No acquire is granted while another job's worker lives" holds of the admission check in
  every table, but an "already held" answer to a restarted container does not wait; it
  holds of all grants exactly for tables with no container beside a cooperative job
  (`SupervisorTheorems.GrantsWaitIff`).
- A shutdown request that lands between the grant and the spawn leaves a worker nobody
  watches or kills, and an "already held" answer does not refresh the poll clock. These
  are the two ways, and the only two, in which a timely supervisor can lose its lease
  (`SupervisorTheorems.CoverFailsIffHazard`).
- With `keep` at zero or below, pruning can leave a half-removed checkpoint marked
  complete (`Checkpoints.SafeIffOneIsKept`).
- The excerpt separator overlaps itself, so an excerpt ending in a blank line and three
  dashes runs into the next one (`Excerpts.SplitJoin`).
- The greedy split of an oversized chunk is not optimal where a channel rename makes the
  header grow by more than the line before it (`Ingest.GreedyIsOptimalIff`).
- An author of `@` signs alone passes the prefilter as "any line starting with a colon"
  and then matches everybody (`CountingTheorems.AtSignsAreRightIff`, with a failing archive
  in `AtSignsMiscount`). Past the scan limit totals can be silently low
  (`CountingTheorems.ScanLimitUndercounts`, `ScanLimitMiscounts`).
- A message is counted in the month and under the channel name its chunk starts with
  (`GroupCounts.MonthMiscounts`, `RenameMiscounts`). By month the counts are right exactly
  when no message asked for is in a chunk begun in another month
  (`GroupCounts.MonthCountsAreRightIff`). By channel the exact condition is message by
  message (`CountingTheorems.IndexCountsExactly`): swapped names can cancel in the counts
  (`GroupCounts.RenamesCancel`), but not if a name some channel has dropped is on no later
  message (`GroupCounts.GroupCountsAreRightIff`).
- If the proxy's call to the arbiter raises, its queue entry is never taken back and no
  release is started again (`ProxyQueue.RaiseBlocksEveryRelease`).
- `split_message` can produce an empty chunk (`Streaming.ChunkIsEmptyIff`); the streaming
  path cannot.
- Compacting a session with two or three research blocks leaves as many as before
  (`Session.BlocksAfter`), although the comment speaks of condensing the oldest half.

## Model

| member | source | states |
|---|---|---|
| GpuLease.StepKeepsInv | arbiter/scheduler.py:81-119 | every stretch of code between two awaits, in any interleaving of an acquire, lock-free releases, reaps, notice polls and container changes, keeps the protocol invariant: who may hold a lease, who was passed or stopped by the scan in progress, what each wait is waiting for |
| GpuLease.RunKeepsInv | arbiter/scheduler.py:81-119 | so does every run |
| GpuLeaseTheorems.ExtraLeasesWereSeenDown | arbiter/scheduler.py:88-90 | two leases stand together only if one of them is a container's that was down at some moment since its grant |
| GpuLeaseTheorems.AtMostOneIff | arbiter/scheduler.py:81-119 | "at most one lease in every reachable state" holds of a job table if and only if it has no container job, or only one job at all |
| GpuLeaseTheorems.ContainerLeaseOutlives | arbiter/reclaimers.py:100-105 | the failing run: a granted container dies, a later acquire skips its lease, and both leases stand |
| GpuLeaseTheorems.LeasesAreLostUpwards | arbiter/scheduler.py:92-103 | a lease goes only to its own release, to a reap that found it stale, or to an acquire of strictly higher priority, which records the preemption |
| GpuLeaseTheorems.RankRefusalClearsNothing | arbiter/scheduler.py:95-97 | an acquire refused on rank has cleared no lease, in every table without containers and in every table sorted by priority |
| GpuLeaseTheorems.ReclaimNeedsARelease | arbiter/reclaimers.py:224-242 | a pending cooperative reclaim can succeed exactly when the holder's lease is gone, and then the holder released after its latest grant |
| GpuLeaseTheorems.PendingPollsAnswerReclaim | arbiter/reclaimers.py:203-219 | while a reclaim is pending, no notice poll of that holder can answer "keep it" and every one can answer "give it up" |
| GpuLeaseTheorems.ReleaseEndsTheWait | arbiter/scheduler.py:120-135 | release is enabled in the middle of the wait although acquire holds the lock, and it lets that wait succeed |
| GpuLeaseTheorems.LockHeldAtMost | arbiter/scheduler.py:85-109 | counting waits only, an acquire with timeout T that has taken the card from k jobs has held the lock at most max(1, T) + k + 0.5 seconds, in every table; without containers k is at most one, so max(1, T) + 1.5 |
| Supervisors.MoveKeepsComposed | lora-training/supervisor.py:154-182 | every move of the arbiter composed with the supervisors keeps both invariants, with no timing assumption |
| Supervisors.MoveKeepsWatched | lora-training/supervisor.py:99-115 | a timely move that is no hazard keeps every engaged supervisor's lease held and its next poll inside the stale limit |
| SupervisorTheorems.LiveWorkerHoldsOrWasReaped | lora-training/supervisor.py:117-152 | in any run at all, a live worker's lease is held or was cleared by a reap |
| SupervisorTheorems.LiveWorkerHoldsItsLease | lora-training/supervisor.py:154-182 | in every timely run without a hazard, a live worker implies its lease is held |
| SupervisorTheorems.AdmissionWaitsForTheWorker | arbiter/scheduler.py:110-119 | in every table, no acquire passes the admission check for another job until that worker has exited |
| SupervisorTheorems.RestartedContainerIsGranted | arbiter/scheduler.py:82-83 | the other way to be granted does not wait: a container granted, dead, and restarted beside a live worker is told "already held" |
| SupervisorTheorems.GrantsWaitIff | arbiter/scheduler.py:81-119 | "no acquire is granted, in either way, while another job's worker lives" holds of a job table if and only if it has no container beside a cooperative job |
| SupervisorTheorems.NoTwoWorkersLive | lora-training/supervisor.py:117-152 | two supervisors never both have a live worker |
| SupervisorTheorems.ReapTakesOnlyTheSilent | arbiter/scheduler.py:240-249 | a reap clears a cooperative lease exactly when its holder has been silent past the limit, and never that of an engaged supervisor that polls in time |
| SupervisorTheorems.CoverFailsIffHazard | lora-training/supervisor.py:76-83 | from any reachable state, whatever acquire is in progress, a timely move lets some later run strip an engaged supervisor of its lease if and only if it is one of two hazards: spawning after shutdown was requested, or adopting an "already held" lease too old to last until the next poll |
| SupervisorTheorems.HandoverSucceeds | lora-training/supervisor.py:140-165 | a pending reclaim of any live, watched worker is at most five supervisor moves from succeeding, its notice thread blocked in a call, between two, or already told: poll answered, worker killed, worker exited, lease released, with the lock held throughout |
| SupervisorProcess.Supervisor.constructor | lora-training/supervisor.py:64-67 | a supervisor starts outside, with no child |
| SupervisorProcess.Supervisor.RequestShutdown | lora-training/supervisor.py:69-74 | a shutdown sets the flag and kills a running worker |
| SupervisorProcess.Supervisor.WaitForGpu | lora-training/supervisor.py:76-97 | granted, or else told to stop or out of calls; told to stop before it starts, it makes no call |
| SupervisorProcess.Supervisor.RunWorker | lora-training/supervisor.py:117-152 | a worker is spawned only after a grant and is gone when the call returns its exit code |
| SupervisorProcess.Supervisor.Release | lora-training/supervisor.py:160-165 | the release comes after the exit; only a worker killed by us leads to asking again |
| SupervisorProcess.Supervisor.Run | lora-training/supervisor.py:154-182 | its program order is a legal run of the composed protocol; it ends with a release and leaves no worker behind |
| Scheduler.Scheduler.Acquire | arbiter/scheduler.py:70-118 | run over real fields: a grant leaves every other lease with a container seen down, a refusal gives nobody a lease, and whoever lost one released it or ranks below the caller; the recorded events are a legal protocol run |
| Scheduler.Scheduler.GrantTo | arbiter/scheduler.py:111-119 | a grant leaves the granted reclaimer's lease, events and poll clock as the protocol has them, and every other reclaimer as it was |
| Scheduler.Scheduler.DropDeadLeases | arbiter/scheduler.py:224-249 | the pass judges every job on the fields it found and wakes whoever waits on a cooperative lease it clears |
| Scheduler.Scheduler.ScanTable | arbiter/scheduler.py:88-103 | the loop over the table ends at its end, with the lock held, or refuses |
| Scheduler.Scheduler.Reclaim | arbiter/scheduler.py:99-103 | one reclaim: the lease is taken back, or the acquire ends |
| Scheduler.Scheduler.WaitForVramToSettle | arbiter/scheduler.py:305-334 | the settle loop ends, admitting the caller or freeing the lock |
| Scheduler.Scheduler.Release | arbiter/scheduler.py:120-144 | release is one protocol step in any phase |
| Scheduler.Scheduler.Reap | arbiter/scheduler.py:188-249 | the pass over the jobs clears exactly the stale leases |
| Scheduler.Scheduler.HoldsNow | arbiter/reclaimers.py:56-61 | a job holds the card by its lease, and a container also by running |
| Checkpoints.StepKeepsInv | lora-training/checkpoints.py:44-119 | every micro-step of saving, marking, listing and removing, a removal that gives up silently, and a SIGKILL at any of them, keeps the disk invariant |
| Checkpoints.CrashSafe | lora-training/checkpoints.py:80-119 | for keep >= 1, in every reachable state the latest checkpoint is the last completed save or there is none, it is fully intact, and so are the newest min(k, keep) of k completed saves |
| Checkpoints.ResumeNeverDecreases | lora-training/train_worker.py:262-266 | the step a restart would resume from never goes down along any run |
| Checkpoints.NothingKeptIsUnsafe | lora-training/checkpoints.py:110-117 | for keep <= 0 a kill inside the removal of the newest checkpoint leaves it marked complete with a file gone |
| Checkpoints.SafeIffOneIsKept | lora-training/checkpoints.py:96-119 | "the latest checkpoint is intact in every reachable state" holds of a setup if and only if keep >= 1 or no checkpoint has files to lose |
| CheckpointDir.DropNewestIsOld | lora-training/checkpoints.py:110-113 | the slice that drops the newest keep names exactly the complete checkpoints with at least keep newer ones |
| CheckpointDir.CheckpointDir.AllCheckpoints | lora-training/checkpoints.py:65-77 | every checkpoint directory, once, in ascending order |
| CheckpointDir.CheckpointDir.Latest | lora-training/checkpoints.py:80-93 | the newest complete checkpoint |
| CheckpointDir.CheckpointDir.MarkComplete | lora-training/checkpoints.py:44-62 | marking is one step that records the save |
| CheckpointDir.CheckpointDir.Prune | lora-training/checkpoints.py:96-119 | what is removed is exactly the incomplete checkpoints and the complete ones with keep newer |
| CheckpointDir.CheckpointDir.OnSave | lora-training/train_worker.py:82-90 | after a save everything on disk is complete and is the new step or was there before |
| CheckpointDir.CheckpointDir.Startup | lora-training/train_worker.py:262-266 | a start prunes first and then resumes from the newest complete checkpoint |
| Excerpts.SplitJoin | discord-bot/lore/research.py:29-45 | splitting undoes joining stripped, separator-free excerpts if and only if none but the last ends in the separator's overlapping half |
| Research.KeySet.DropSeenChunks | discord-bot/lore/research.py:48-86 | the loop keeps exactly the first unseen occurrence of each excerpt and adds every excerpt to the caller's set |
| Research.DroppedHoldsTheFresh | discord-bot/lore/research.py:48-86 | the text put into the conversation reads back as exactly the new excerpts, notes aside |
| Research.RenderResearchBlocks | discord-bot/lore/research.py:200-242 | the rendering loop, against the recursive specification: blocks, numbers and the caller's set |
| Research.EarlyDroppingLosesNothing | discord-bot/lore/research.py:200-242 | rendering results already stripped on arrival gives the same blocks, numbers, labels and final set as rendering the raw results |
| LoreLoop.ViewIsPaired | discord-bot/lore/agent.py:224-240 | in both lists every call is directly followed by its result and every result directly preceded by its call |
| LoreLoop.SlicesAreOldestPairs | discord-bot/lore/compaction.py:179-185 | indexing into tool_messages finds exactly the oldest pairs, whatever summaries stand between |
| LoreLoop.FirstIsAfterLead | discord-bot/lore/compaction.py:215-215 | the first-victim lookup succeeds in both lists: it stops at the oldest pair |
| LoreLoop.RewriteIsCondense | discord-bot/lore/compaction.py:213-218 | removing the victims and inserting there puts the one summary where the oldest pair was |
| ToolLoop.OmittedIffShown | discord-bot/lore/research.py:48-86 | an excerpt is left out as already shown if and only if the seed or a live result holds it |
| ToolLoop.SamePairsInBothLists | discord-bot/lore/compaction.py:155-166 | both lists hold the same surviving call and result objects in the same order |
| ToolLoop.ExactAfterFresh | discord-bot/lore/agent.py:211-214 | appending what was new keeps the shown set exact: the seed plus every excerpt verbatim in a live result, each once |
| ToolLoop.ExactAfterDiscard | discord-bot/lore/compaction.py:208-212 | so does discarding the condensed chunks |
| ToolLoop.ToolLoop.RunCall | discord-bot/lore/agent.py:184-240 | a repeated signature is refused and shows nothing; a new one adds one pair holding exactly the excerpts not yet shown |
| ToolLoop.ToolLoop.Compact | discord-bot/lore/compaction.py:151-220 | compaction condenses the oldest half, in both lists at once, into one summary if it held any excerpt, discards from the shown set exactly the excerpts that went, and reports the characters saved |
| ToolLoop.ToolLoop.Run | discord-bot/lore/agent.py:131-278 | any run of rounds, repeats and compactions keeps both lists aligned and the shown set exact; the first prose ends it and is the answer, and a round that reaches the repeat limit ends it with none |
| Session.LoreSession.Turn | discord-bot/lore/agent.py:495-588 | a turn appends the question, the rendering of its tool messages against the session's keys if there is any, and the answer; what its blocks are joined from was put into the thread by no earlier turn and is put in once; the request before is a prefix of the one after and no key is lost |
| Session.LoreSession.FollowUp | discord-bot/lore/agent.py:517-537 | a turn with its tool loop: however often the loop condensed, the blocks read back as exactly the excerpts still standing in live results, and the thread then remembers exactly what the loop had shown |
| ToolLoop.RenderingMatchesTheLoop | discord-bot/lore/research.py:200-242 | rendering the tool messages against the seed shows exactly the live excerpts, leaves the keys equal to the loop's shown set, and reads back as those excerpts |
| Research.RenderShowsEachOnce | discord-bot/lore/research.py:200-242 | a rendering shows only excerpts its keys do not have, each once, and remembers all it shows; the texts of its search blocks are those excerpts joined |
| Research.BlocksReadBack | discord-bot/lore/research.py:200-242 | splitting the text of the blocks again gives back exactly the excerpts that were new |
| Session.LoreSession.ResearchIndices | discord-bot/lore/session.py:150-154 | the positions of the research blocks, in order, all of them |
| Session.LoreSession.CompactSession | discord-bot/lore/compaction.py:82-127 | the transcript becomes its compaction, or nothing changes |
| Session.CompactionKeepsTheTalk | discord-bot/lore/compaction.py:118-126 | compaction leaves every question and answer in order and replaces the oldest blocks by one summary |
| Session.CompactionKeepsThePrefix | discord-bot/lore/compaction.py:118-126 | nothing before the oldest block is touched |
| Session.BlocksAfter | discord-bot/lore/compaction.py:93-97 | a compaction leaves n - max(1, n/2) + 1 blocks, never fewer than two, and fewer than before if and only if there were at least four |
| Transcript.ParseChunkMessages | rag/retrieve.py:269-292 | the line loop, against its specification |
| Transcript.KnownAreSpeakers | rag/ingest.py:356-356 | the names read out of the metadata are exactly the chunk's speakers |
| Transcript.ParseUndoesPrint | rag/retrieve.py:269-292 | parsing a well-formed chunk's printed text gives back exactly who said what, in order, multi-line and captioned messages included |
| Ingest.Group | rag/ingest.py:231-251 | the grouping loop gives maximal conversations |
| Ingest.SplitChunk | rag/ingest.py:280-301 | the split is a division in order, each piece within the cap or one message, and none had room for the next message |
| Ingest.ChunkByConversation | rag/ingest.py:207-266 | an order-preserving partition: one channel per chunk, every gap within the limit, each chunk within the cap or a single message, every boundary forced by channel, gap or cap |
| Ingest.ChunkingIsDetermined | rag/ingest.py:207-266 | only one list of chunks is like that |
| Ingest.GreedyIsOptimal | rag/ingest.py:280-301 | no order-preserving division into pieces that each fit the cap or are one message uses fewer pieces, when no header grows by more than the line dropped before it |
| Ingest.RenameBreaksOptimality | rag/ingest.py:326-331 | that condition is needed: at any two messages that break it, as a channel rename can, some chunk is split into three pieces where two fit |
| Ingest.GreedyIsOptimalIff | rag/ingest.py:280-301 | around two neighbouring messages, over all chunks whose other neighbours are steady, the greedy split is optimal if and only if the header does not outgrow the line dropped before it |
| Counting.AggregateStats | rag/retrieve.py:516-541 | the counting loops give a histogram of the matched messages' groups, and the group counts sum to the total |
| Counting.SearchLiteral | rag/retrieve.py:399-415 | the search loop, against its specification, up to ordering |
| CountingTheorems.AskedPasses | rag/retrieve.py:247-262 | a chunk holding a message that was asked for passes the regex prefilter |
| CountingTheorems.FilterLosesNothing | rag/retrieve.py:295-323 | the prefilter changes no count |
| CountingTheorems.IndexCountsExactly | rag/retrieve.py:516-541 | for any good archive, chunked, printed, prefiltered and parsed, the counted messages are those a direct reading finds: in number for every grouping, and one by one under the same label if and only if every message asked for is filed in its own group, as speakers always are and channels when none was renamed |
| GroupCounts.GroupCountsAreRightIff | rag/retrieve.py:516-541 | for a sorted archive in which no later message belongs to a group some channel has left, the counts are right group by group if and only if every message asked for is filed in its own group: misfilings cannot cancel |
| GroupCounts.MonthCountsAreRightIff | rag/retrieve.py:531-536 | if a month is an unbroken stretch of time, the counts by month are right if and only if no message asked for is in a chunk begun in another month |
| GroupCounts.MonthMiscounts | rag/retrieve.py:531-536 | wherever a month turns between two messages of one chunk, both are counted for the month before |
| GroupCounts.RenameMiscounts | rag/retrieve.py:529-530 | around any rename within a chunk, two messages are counted under the old name |
| GroupCounts.RenamesCancel | rag/retrieve.py:529-530 | two channels that swap names: two messages are misfiled and the counts are right all the same, so for channels the condition on the archive is needed |
| GroupCounts.CountArchive | rag/retrieve.py:516-541 | from a plain archive to the counts: the total misses only messages in chunks past the scan limit, and with none left out the counts by speaker are those of a direct reading, and so are the others exactly when nothing asked for is misfiled, given that channels only move on |
| CountingTheorems.SearchFindsExactly | rag/retrieve.py:399-415 | the entries are, one by one, the chunks that hold a message asked for, each led by exactly its messages that were |
| CountingTheorems.ScanLimitUndercounts | rag/retrieve.py:242-242 | the total is never too high, and is right if and only if no chunk past the scan limit holds a message asked for |
| CountingTheorems.ScanLimitMiscounts | rag/retrieve.py:242-242 | an archive of any n messages past the limit of which only the limit is counted |
| CountingTheorems.AtSignsMatchEverybody | rag/retrieve.py:517-517 | an author of "@" signs alone loses the author condition after the prefilter: in a chunk that passes, everybody's messages with the term count |
| CountingTheorems.AtSignsAreRightIff | rag/retrieve.py:516-541 | for such an author nobody is asked for, and the count is right if and only if no chunk with a line starting ":" holds a message with the term |
| CountingTheorems.AtSignsMiscount | rag/retrieve.py:517-517 | a concrete archive on which that goes wrong |
| ProxyQueue.StepKeepsInv | proxy/main.py:466-531 | every stretch of the handler keeps the counters equal to the numbers of queued and unfinished requests and the slot with its one owner |
| ProxyQueue.CountersAreExact | proxy/main.py:466-531 | in every interleaving in-flight is the number of unfinished requests and depth the number queued plus one for each raised arbiter call, so depth <= in-flight while none has raised |
| ProxyQueue.ClampsNeverAct | proxy/state.py:47-54 | a counter is above zero whenever it is about to be taken down |
| ProxyQueue.SlotHasOneOwner | proxy/main.py:506-527 | the slot lock is held exactly while one request is forwarded or streamed, by that request |
| ProxyQueue.ReleaseIffLastEnds | proxy/main.py:473-481 | each request is counted off once, when it ends; a release is started only with both counters zero, and while no arbiter call has raised it is started exactly when the last unfinished request ends |
| ProxyQueue.RaiseBlocksEveryRelease | proxy/main.py:490-490 | once the arbiter call has raised, no release is ever started again |
| ProxyQueue.Proxy.Begin | proxy/main.py:467-470 | arrival is the protocol's step |
| ProxyQueue.Proxy.Finish | proxy/main.py:473-481 | the flag makes it count once |
| ProxyQueue.Proxy.Answered | proxy/main.py:490-506 | a grant or a refusal is the protocol's step |
| ProxyQueue.Proxy.AnswerRaised | proxy/main.py:529-531 | a raise runs only the outer clean-up |
| ProxyQueue.Proxy.SlotAwaited | proxy/main.py:506-524 | taking the slot, being cancelled, or failing before the forward |
| ProxyQueue.Proxy.Forwarded | proxy/main.py:286-291 | a failed forward releases the slot and finishes once though clean-up runs twice |
| ProxyQueue.Proxy.StreamClosed | proxy/main.py:349-366 | the end of the stream, however it came |
| Archive.Store.constructor | history-service/jsonl_store.py:20-21 | a store starts with its files and an empty cache |
| Archive.Store.LoadExistingIds | history-service/jsonl_store.py:42-71 | the cached ids are the file's ids |
| Archive.Store.AppendMessage | history-service/jsonl_store.py:81-116 | a record is appended exactly when it has an id the file does not hold |
| Archive.Store.AppendMessages | history-service/jsonl_store.py:119-157 | exactly the records with new ids are appended, each once; after every write the cached ids are the file's |
| Archive.Store.RefreshFields | history-service/jsonl_store.py:306-352 | the count is of records a named field of which changed; the file is rewritten only if there is one |
| Archive.AppendedIds | history-service/jsonl_store.py:141-153 | appending keeps ids unique and leaves every given id in the file |
| Archive.RefreshSetsExactly | history-service/jsonl_store.py:340-345 | a named field becomes the parsed one or goes; every other field stays |
| Archive.RefreshSettles | history-service/jsonl_store.py:335-349 | a second refresh with the same records counts nothing |
| Reparse.LatestExportWins | history-service/main.py:247-264 | of a message exported more than once, the last record that is not excluded is gathered |
| Reparse.Run | history-service/main.py:242-276 | what the endpoint writes and the two totals it reports |
| Reparse.ReparseIsIdempotent | history-service/main.py:267-276 | writing the same work again appends nothing, refreshes nothing and leaves every file as it was |
| Reparse.SecondRunDoesNothing | history-service/main.py:194-209 | so a second run over the same exports reports nothing and changes nothing, whatever the archive was |
| Reparse.ReparseKeepsTheRest | history-service/main.py:204-207 | every archived message stays in its place with every field outside the parser's four unchanged |
| Reparse.ReparseKeepsIdsUnique | history-service/jsonl_store.py:119-157 | ids stay unique in every file |
| Reparse.ReparseBringsUpToDate | history-service/main.py:269-273 | one user's file then holds every record written, reading in the parser's fields as given |
| Reparse.RunReadsTheLastExport | history-service/main.py:204-209 | after a run every message exported and not excluded is in its author's file and reads, in the parser's fields, as in the last export that has it |
| Dechunk.Dechunk | arbiter/docker_client.py:136-160 | the loop ends on every input, negative sizes included, with the specified bytes |
| Dechunk.SizeLineParses | arbiter/docker_client.py:151-153 | a size in hex digits is read whatever extension follows |
| Dechunk.DecodeInvertsEncode | arbiter/docker_client.py:136-160 | for any division into non-empty chunks with any extensions, last chunk and trailer (section 7.1 of RFC 9112) the content comes back, and a body cut short anywhere gives a prefix of it |
| Streaming.CutsAtTheLastBreak | discord-bot/formatters.py:48-80 | a text over the limit is cut right after its last blank line that fits, else its last newline, else at the limit |
| Streaming.SplitMessage | discord-bot/discord_io.py:26-37 | the loop, against its specification |
| Streaming.SplitCoversTheText | discord-bot/discord_io.py:26-37 | the chunks are the text up to whitespace at the cuts, each within the limit |
| Streaming.ChunkIsEmptyIff | discord-bot/discord_io.py:29-36 | any chunk is empty if and only if the text left when it is cut is over the limit and opens with whitespace that fills the window or holds the break the cut is made at |
| Streaming.NoChunkIsEmpty | discord-bot/discord_io.py:29-36 | so no chunk is, if the text does not start with a newline, no newline follows a line of other whitespace, and no run of whitespace reaches the limit |
| Streaming.BlankLineGivesEmptyChunk | discord-bot/discord_io.py:34-35 | a newline before a long line is enough |
| Streaming.NoDisclaimerLeft | discord-bot/formatters.py:36-45 | after the final strip no disclaimer pattern matches anywhere |
| Streaming.Flush | discord-bot/discord_io.py:65-70 | the inner loop posts exactly the cuts of the full buffer, ends with it under the limit and loses only whitespace |
| Streaming.StreamAndSend | discord-bot/discord_io.py:40-76 | however the response is cut into tokens, every post is non-empty, within the limit and free of trailing space, and the posts joined are the response up to whitespace at the cuts and a disclaimer at its end |

## Left out

- Job table: it is fixed before a run; the fallback entry the arbiter adds for an unknown
  name is not modelled.
- A holder has at most one notice poll in flight; a poll may answer "give it up" at any time.
- Arbiter restarts, HTTP, Docker and nvidia-smi: environment events carry their answers.
  A reap, and each inspection of a container, is one step; `_holder` and `_last_reason`
  only feed status pages.
- The supervisor's notice thread is part of the state machine, not of the object; what a
  timely supervisor is (notice timeout, re-poll delay, time to exit) is a parameter. Its
  unbounded loops run over a given number of turns.
- Scheduler.Scheduler.AwaitRelease: its contract lets releases, polls and container
  changes happen during the wait; its body takes none, since a body has to be one case.
- SupervisorProcess.Supervisor.Ask: likewise, and so for Sleep: callers know only the
  contract, under which everybody else moves meanwhile.
- "The lease covers every forward" across proxy and arbiter: the proxy's release is a
  task of its own, so it would need an atomic release; what is proved is what the proxy
  decides.
- A response stream that is never started keeps the slot lock; every theorem about the
  slot holds in such a run, but nothing says it ends.
- CheckpointDir.CheckpointDir.Prune: its removals succeed; a removal that gives up without
  an error is a step of `Checkpoints` alone.
- Power loss and fsync: only SIGKILL is modelled. Each attempt saves at steps above the
  one it resumed from.
- sha1 and sha256 identities are injective: excerpts stand for their keys. The wording of
  search notes is shortened to its prefix and its numbers.
- Model output, tool results and summaries are arbitrary values; tool results are assumed
  to be joined from stripped excerpts that neither contain nor run into the separator.
- A search's label is a parameter; putting it together from the call's arguments is not
  modelled.
- Case folding and word characters are ASCII. The collection's filter is an exact regex
  filter, in insertion order; channel and date clauses, ordering, `limit`, `top_n` and
  report text are not modelled.
- Record ids are strings, as the parser makes them. Malformed lines, I/O errors, file modes
  and the caption job are not modelled.
- ProxyQueue: fairness of the slot lock, metrics, the autocomplete path and the idle
  evictor.
- Between turns of a thread: expiry, offers, context accounting and storage.
- build_lore_embeds, post_lore_answer's footer, personas, rate limits, prompts, exports and
  dataset building would add only easy members.
