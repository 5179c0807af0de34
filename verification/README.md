# lazy-balancer: machine-checked models of the list, event, audit and lifecycle code

A Dafny 4.11 project. `dafny verify dfyconfig.toml` checks everything. Paths and lines below refer to the
lazy-balancer repository.

## What is modelled

- **IP prefix sets** (`Bits`, `IpPrefix`, `Aggregate`, `CanonicalForm`, `Entry`, `Lookup`, `ListFile`,
  `L4IpFile`, `L4Matching`, `Bytes`, `FastFormat`): prefixes as (family, address, bits); the sort-and-stack
  aggregation; the list text from bytes to answer; the layer-4 matcher; the checksummed binary format.
- **Versioned caches** (`SnapshotGuard`, `ListCache`, `ListCacheRuns`, `ListCacheCalls`): the generation guard
  with the crawler snapshot cell, and the list cache as a step system of threads, reference-counted locks,
  in-place file rewrites, renames and evictions.
- **Event delivery** (`Options`, `Sets`, `SpoolBase`, `SpoolFaults`, `L4SpoolSpec`, `L4Spool`, `L4Ring`,
  `L4PipelineSpec`, `L4Pipeline`, `L4Accounts`, `L4Delivery`, `AuditSpoolSpec`, `AuditAppend`, `AuditBudget`,
  `AuditDelivery`, `AuditSpill`, `AuditSpool`): ring, batch, POST, spool and fallback, with an oracle for the
  outcome of every call that touches disk or network.
- **Audit lines** (`AuditJson`, `AuditEscape`, `AuditHeaders`, `AuditMessages`) and the **timing registry**
  (`TimingShard`, `TimingRegistry`, `TimingRuns`, `TimingCalls`, `TimingTable`): byte-level insertion against
  JSON values, escaped lengths against the escaping, byte budgets, and the sharded expiring table.
- **Start/stop, migration, counters** (`Lifecycle`, `LifecycleRuns`, `LifecycleCalls`, `ListDedupe`,
  `ListDedupeTable`, `TrafficEvents`, `TrafficStats`).

Objects that the program changes in place are classes whose methods are proved equal to functions of the old
state; the lemmas speak about runs of those functions. Protocols between threads are step systems: one step per
critical section, channel operation or file operation, over every interleaving.

## What the proofs found

1. `caddyl4sec/ipfile.go:266-280` keeps the bit count when it unmaps a v4-mapped prefix. A list that the strict
   parser accepts is answered rightly, and as the list operator answers, exactly when no line is mapped
   (`L4Matching.RightIffNoMappedLine`, `L4Matching.LoadBoth`, for every list `RightIff`); a mapped line also
   hides plain v4 lines (`L4Matching.MappedLineHidesTheEnd`).
2. The byte budget of the HTTP spool can be passed. The counter misses the bytes of a line whose write failed
   part way, and everything on disk if the opening scan failed; a later failed scan trusts it
   (`AuditBudget.TornLineBreaksBudget`, `AuditBudget.FailedOpenBreaksIff`, exact condition in
   `BudgetBreaksIff`). Nothing else gets there (`AuditBudget.BudgetOverRuns`), and only a batch larger than the
   write buffer can tear a line (`AuditBudget.SmallBatchTearsNothing`). The layer-4 `spooled` counter
   undercounts and its `dropped` overcounts when a flush fails after some lines
   (`L4Accounts.FailedBatchMiscounts`), although `caddyl4sec/shipper.go:369-371` calls the report of a failed
   rotation flush exact. A report is exact when the first unconfirmed line did not reach the file; after a
   rotation that flushed but could not close or reopen it never is (`L4Accounts.SpilledExactIff`). The HTTP
   spool's count is exact under the same condition (`AuditDelivery.CountIsExactIff`); otherwise stored lines
   also go to the audit file, and over a run of failed batches nothing is delivered twice exactly when every
   count was exact (`AuditSpill.SpillsDeliver`).
3. The crawler cell's guard compares only with a good snapshot: after one failed read an older generation of the
   same file is served again (`SnapshotGuard.FailureReopensOldGeneration`, exact condition over runs in
   `RegressesIff`). A path change stores the path and clears the cell under two different mutexes; in between
   the old path's snapshot is still served (`SnapshotGuard.OldPathIsServed`, exact condition in
   `OtherPathServedIff`).
4. `wafiplist/iplistfast.go:409-415`: the branch for a set published meanwhile is dead under the per-path lock
   (`ListCacheRuns.SecondCheckNeverHits`). The comparisons before clearing in
   `cmd/server/runtime_lifecycle.go:208` and `:283` always succeed (`LifecycleRuns.FinishClearsItsOwn`).
5. `caddygeoip/auditwriter.go:1420-1421` promises clipped fields of at most the cap; the marker is 15 bytes but
   16 when escaped, so a field can be one byte longer (`AuditEscape.ClippedFieldLen`, with the exact condition),
   and every clipped text without bytes to escape is (`AuditEscape.PlainTextEndsAboveCap`).
6. The message budget's minimum branches and entry ceiling never take effect (`AuditMessages.MessagesBudget`);
   the size check of the binary writer is implied by its entry check (`FastFormat.SizeFollowsFromCount`).
7. The entry queue of a timing shard never holds a stale item (queue and entries are in bijection), although the
   comment at `caddygeoip/auditwriter.go:297-300` allows for one; only the retained queue does.
8. Entry identities are joined with NUL characters: an entry can be taken for a different one, which a merge
   then drops, exactly when one of its fields holds a NUL (`ListDedupe.NulMergesDifferentEntries`).

## Model

| member | source | states |
|---|---|---|
| `IpPrefix.NestedOrDisjoint` | wafiplist/aggregate.go:25-37 | two CIDR blocks that share an address are nested: the fact on which stack merging and binary search rest |
| `Aggregate.AggregateParsedPrefixes` | wafiplist/aggregate.go:38-89 | the stack algorithm returns a strictly ascending, pairwise disjoint list without a mergeable sibling pair that covers exactly the addresses of the valid inputs |
| `Aggregate.MergeOne` | wafiplist/aggregate.go:62-86 | one prefix taken in sorted order keeps the stack canonical and adds exactly its addresses to the cover |
| `Aggregate.MergeTestIsSibling` | wafiplist/aggregate.go:68-75 | the bits-1 comparison can only fire on two siblings of one family; two /0 blocks of a family never meet it |
| `CanonicalForm.CanonicalUnique` | wafiplist/aggregate.go:25-37 | canonical lists that cover the same addresses are the same list |
| `CanonicalForm.AggregateIsCanonicalForm` | wafiplist/aggregate.go:38-89 | inputs that cover the same addresses aggregate to the identical list, and aggregating again changes nothing |
| `CanonicalForm.CanonicalIsShortest` | wafiplist/aggregate.go:25-37 | no list of blocks over the same addresses is shorter than the canonical one |
| `CanonicalForm.CoveredBlockIsInsideOne` | wafiplist/aggregate.go:62-86 | a block all of whose addresses are covered lies inside a single element |
| `Entry.EntryMeaning` | wafiplist/iplistfast.go:679-708 | normalising a line (bare address, prefix, v4-mapped prefix) keeps exactly the addresses the line names |
| `Entry.RejectedExactly` | wafiplist/iplistfast.go:679-708 | exactly which lines are refused: those that do not parse, zoned addresses and mapped prefixes shorter than /96 |
| `Entry.MapUnmap` | wafiplist/iplistfast.go:679-708 | unmapping and mapping of v4 addresses are inverse |
| `Entry.MaskingNeverMaps` | wafiplist/fastformat.go:79-106 | clearing host bits never turns a plain v6 prefix into a v4-mapped one |
| `Lookup.Lookup` | wafiplist/iplistfast.go:669-671 | the sort.Search call and the containment test of the element before it, as one answer |
| `Lookup.HitIsLinearScan` | wafiplist/iplistfast.go:669-671 | on a sorted disjoint list, even one with both families, one binary search answers as a scan of all prefixes |
| `ListFile.ForEachIPListLine` | wafiplist/iplistfast.go:546-563 | the byte-scanning iterator visits, with their numbers, the lines that splitting at newlines, trimming and leaving out blanks and comments gives, up to the first on which the callback answers false |
| `ListFile.EntryLinesAre` | wafiplist/iplistfast.go:546-563 | the lines that count are the trimmed lines that are neither blank nor begin with # or ;, each under its number |
| `ListFile.ParseIPListFile` | wafiplist/iplistfast.go:595-647 | a file loads exactly when every entry line parses and there are at most a million; the two family sets are canonical and cover what the lines name; a refusal names the first bad line |
| `ListFile.Evaluate` | wafiplist/iplistfast.go:649-672 | the answer is the binary search in the set of the unmapped address's family |
| `ListFile.FileAnswers` | wafiplist/iplistfast.go:595-672 | from text to answer: an accepted file answers true exactly when one of its lines names the unmapped address |
| `ListFile.ParseEngine` | caddygeoip/crawler_verify.go:544-561 | one crawler engine: bad entries are skipped, the rest aggregated without loss |
| `ListFile.VerifyIPRange` | caddygeoip/crawler_verify.go:611-633 | three verdicts: transient exactly without usable prefixes, verified exactly when some usable entry contains the unmapped address, spoof otherwise |
| `L4IpFile.ReadSet` | caddyl4sec/ipfile.go:238-296 | the stored set of the layer-4 matcher is the sorted, pruned normalisation of the lines |
| `L4IpFile.Match` | caddyl4sec/ipfile.go:137-147 | the matcher's binary search over the stored set |
| `L4Matching.MatchIsLinearScan` | caddyl4sec/ipfile.go:119-148 | for lists without v4-mapped lines the matcher answers as a scan of the raw lines |
| `L4Matching.LoadBoth` | caddyl4sec/ipfile.go:238-296 | one trimmed file through both programs: if the strict parser of the list operator loads it, the layer-4 matcher gives the same answer for every address if and only if no line is v4-mapped |
| `L4Matching.RightIff` | caddyl4sec/ipfile.go:266-295 | every list: the stored set answers every address as its lines say if and only if no line is a mapped one of more than 32 bits and the normalised lines cover what the shorter mapped ones name, which is all of v4 and a block at :: |
| `L4Matching.RightIffNoMappedLine` | caddyl4sec/ipfile.go:266-295 | for lists without mapped prefixes of at most 32 bits, or without a plain line for ::, that is the case if and only if no line is v4-mapped |
| `L4Matching.MappedLineHidesTheEnd` | caddyl4sec/ipfile.go:266-295 | with a mapped line of more than 32 bits every v4 address from the start of the last v4 block on is missed, whatever plain lines name it |
| `FastFormat.WriteFastFile` | wafiplist/fastformat.go:79-150 | the buffer filled by the writer is header, sorted masked v4 and v6 entries and checksum of the input, or the reason for refusing it |
| `FastFormat.ReadFastFile` | wafiplist/fastformat.go:237-342 | accepts exactly the byte strings, with checksum or in the old form without, that are the whole content of a storable pair of lists, and returns that pair |
| `FastFormat.WriteThenRead` | wafiplist/fastformat.go:79-150 | whatever the writer produces the reader accepts, and reads back as the masked, sorted input |
| `FastFormat.ReadThenWrite` | wafiplist/fastformat.go:237-342 | every accepted checksummed byte string is what the writer makes of the lists read from it, byte for byte |
| `FastFormat.AdjacentIsGlobal` | wafiplist/fastformat.go:352-359 | on sorted masked prefixes the check of neighbours is the check of all pairs |
| `FastFormat.AssertDisjointPrefixes` | wafiplist/fastformat.go:352-359 | the adjacent loop accepts exactly the sorted lists that are pairwise disjoint |
| `FastFormat.SizeFollowsFromCount` | wafiplist/fastformat.go:79-106 | with the shipped limits the size limit never refuses what the entry limit let through |
| `SnapshotGuard.CrawlerCache.CommitSnapshot` | caddygeoip/crawler_verify.go:579-606 | the commit under the cache lock moves the cell by Commit and serves what Commit serves |
| `SnapshotGuard.CrawlerCache.ChangePath` | caddygeoip/crawler_verify.go:367-380 | a changed path is stored while its cache reset is still to come |
| `SnapshotGuard.GoodReadIsShown` | caddygeoip/crawler_verify.go:579-606 | a good read of the configured path that is not older than a good snapshot on view goes on view, one of another path never does, and the caller goes on with what is on view |
| `SnapshotGuard.NeverOlderWhileGood` | caddygeoip/crawler_verify.go:579-606 | over every stretch of commits in which the cell shows good snapshots, the served (mtime, size) never goes back |
| `SnapshotGuard.LostOverRuns` | caddygeoip/crawler_verify.go:592-605 | a run that starts with a good snapshot and ends without one had a step at which a good one was taken away by a pending path reset or by a failed read that began no earlier than it settled |
| `SnapshotGuard.FailureReopensOldGeneration` | caddygeoip/crawler_verify.go:588-606 | one later failed read lets any older generation of the same path back in, although the guard alone refuses it |
| `SnapshotGuard.RegressesIff` | caddygeoip/crawler_verify.go:588-606 | over every run that starts with good content: older content of the same path is on view at some moment if and only if at some moment an older candidate of it is committed while the good snapshot is gone, or has made way for one of another path that is not newer |
| `SnapshotGuard.ShowsConfiguredPath` | caddygeoip/crawler_verify.go:367-383 | over every run of commits and two-step path changes, what is on view belongs to the configured path or is about to be reset |
| `SnapshotGuard.OtherPathServedIff` | caddygeoip/crawler_verify.go:367-383 | over every run: a commit serves a snapshot of another than the configured path if and only if the cell still shows one and the candidate is of another path too or held back by it; and then a reset is still to come |
| `SnapshotGuard.OldPathIsServed` | caddygeoip/crawler_verify.go:367-383 | and between the two mutexes it does: a reader that began under the old path is served the old path's snapshot |
| `ListCacheRuns.ParsesNeverOverlap` | wafiplist/iplistfast.go:40-81 | in every interleaving, although lock objects retire at refcount zero, no two threads are ever under the lock of one path |
| `ListCacheRuns.TableIsExactlyInUse` | wafiplist/iplistfast.go:65-81 | the lock table names a path exactly while some thread waits for, holds or releases its lock |
| `ListCacheRuns.SecondCheckNeverHits` | wafiplist/iplistfast.go:407-415 | when a parse is published the cached set is still the one seen after locking, so the branch for a set of the same shape published meanwhile is dead |
| `ListCacheRuns.GenerationsNeverGoBack` | wafiplist/iplistfast.go:416-433 | while a path stays cached its published (mtime, size) never moves backwards |
| `ListCacheRuns.OnlyEvictionRemoves` | wafiplist/iplistfast.go:454-469 | the only step that removes a cached set is an eviction of its path |
| `ListCacheRuns.ServedIsOneGeneration` | wafiplist/iplistfast.go:474-536 | in every interleaving of replacements, in-place rewrites, loads and evictions, a served set is the parse of one complete version, of at most 64 MiB, of a file that stood under the path |
| `ListCacheRuns.ServedAnswersAsOneFile` | wafiplist/iplistfast.go:370-432 | with the strict parser, a served set has the (mtime, size) of one version of a file that stood under the path, is canonical, and answers every address as the lines of that version; how recent that version is for a strict load is FreshLoadIsFresh |
| `ListCacheRuns.CachedPathIsServed` | wafiplist/iplistfast.go:301-322 | while a set stays cached, every lookup that starts and finishes is served a set, whatever other threads do and whatever fails or changes on disk |
| `ListCacheCalls.FreshLoadIsFresh` | wafiplist/iplistfast.go:370-432 | in every interleaving, a strict load that returns a set returns one whose (mtime, size) is that of a version which a file under the path had since the load began, or newer: never that of a file replaced before |
| `ListCacheCalls.FailedLoadHasNone` | wafiplist/iplistfast.go:434-452 | fail closed: a strict load whose stat, open, read or parse failed returns no set, whatever is cached |
| `ListCacheCalls.UndisturbedLoadSucceeds` | wafiplist/iplistfast.go:370-432 | while the file under the path stays as it is, parses, and no call of the thread fails, every lookup and strict load that returns has a set, a strict load one at least as new as the file |
| `ListCacheCalls.SharedLoadNeverOpens` | wafiplist/iplistfast.go:397-405 | a load that waits for the lock while another one publishes the file it looked at does not open the file again while that set stays cached |
| `ListCacheCalls.PublishedIsCached` | wafiplist/iplistfast.go:406-432 | what a load publishes is what it serves and what is cached then, at least as new as what it parsed |
| `ListCacheCalls.EvictionRemoves` | wafiplist/iplistfast.go:454-469 | when an eviction has returned, the path was without a set at some moment since it began |
| `ListCache.RunInv` | wafiplist/iplistfast.go:370-469 | every reachable state keeps lock counts, holders, file prefixes read so far, provenance of sets and the view under the lock |
| `L4Ring.L4Ring.Push` | caddyl4sec/ring.go:49-69 | push refines a queue that drops its oldest line when full and reports one eviction |
| `L4Ring.L4Ring.Pop` | caddyl4sec/ring.go:73-84 | pop takes the oldest queued line, or reports an empty ring |
| `L4Spool.L4Spool.AppendLines` | caddyl4sec/shipper.go:307-388 | nothing stays buffered, a prefix of the batch is on disk in order, and the result reports at least what is not; the final state is that of the specification |
| `L4Spool.L4Spool.Rotate` | caddyl4sec/shipper.go:457-485 | a failed seal keeps appending, a failed flush gives the buffer up |
| `L4SpoolSpec.AppendKeeps` | caddyl4sec/shipper.go:307-388 | for every I/O outcome at every point: quiet afterwards, a prefix of the batch on disk in order, the reported loss covers the rest, exactly when the error is only a full budget |
| `L4SpoolSpec.SealIfIdleKeeps` | caddyl4sec/shipper.go:489-521 | idle sealing keeps every line on disk |
| `L4SpoolSpec.CloseKeeps` | caddyl4sec/shipper.go:524-545 | closing keeps every line on disk and leaves nothing buffered |
| `L4PipelineSpec.RunConserves` | caddyl4sec/shipper.go:656-952 | over every run with arbitrary POST answers and disk failures, lines neither queued, acknowledged with 204 nor on disk never outnumber dropped; exactly equal when the spool only ever failed by being full |
| `L4PipelineSpec.StopSettles` | caddyl4sec/shipper.go:928-989 | after a stop nothing is queued or batched: presented lines are acknowledged, on disk or counted |
| `L4PipelineSpec.SpillConserves` | caddyl4sec/shipper.go:693-727 | settling by the spool's result never loses a line uncounted |
| `L4PipelineSpec.FlushConserves` | caddyl4sec/shipper.go:656-680 | whatever the answer and the disk, a flush loses no line of the taken batch uncounted; which of the three happens is BatchIsSettled |
| `L4Delivery.BatchIsSettled` | caddyl4sec/shipper.go:656-727 | an acknowledged batch is sent and leaves spool and dropped alone, a rejected one is counted as dropped, of a failed one a prefix goes to disk and the rest is counted, and all of it goes to disk if the spool has room and I/O works |
| `L4Delivery.FailedPostIsSpooled` | caddyl4sec/shipper.go:675-727 | with room and working I/O a failed POST leaves the whole batch on disk behind what was there, spooled raised by its length, and dropped unchanged |
| `L4Delivery.WorkingAppend` | caddyl4sec/shipper.go:307-388 | while no I/O call fails an append stores a prefix and reports its length, stops early only at a line over budget, refuses everything only by a fresh scan, rotates in time, and stores the whole batch if there is room |
| `L4Delivery.DropsHaveReasons` | caddyl4sec/shipper.go:656-877 | over every run dropped is the lines turned away at the ring, plus the losses the spool reported, plus lines of rejected batches; with none of these it stays 0 |
| `L4Delivery.LinesLeaveInOrder` | caddyl4sec/shipper.go:625-952 | over every run in which no line is turned away: if every POST is acknowledged, acknowledged lines, batch and ring are the presented lines in order; if every POST fails without a reported loss, the lines on disk, batch and ring are |
| `L4Delivery.NewestStay` | caddyl4sec/shipper.go:862-877 | while nothing is drained the ring holds the newest lines in order |
| `L4Delivery.BatchesStaySmall` | caddyl4sec/shipper.go:625-637 | over every run no batch reaches 100 lines or 1 MiB without going out |
| `L4Delivery.DrainTakesOldest` | caddyl4sec/shipper.go:625-654 | a turn of the drain takes the oldest line; the batch with it goes out if it has 100 lines or 1 MiB or is due, and otherwise waits |
| `L4Delivery.TickSendsWhenDue` | caddyl4sec/shipper.go:640-654 | a due tick sends the batch out, one that is not due leaves it |
| `L4Delivery.WorkingSeal` | caddyl4sec/shipper.go:489-521 | an idle file is sealed and closed, before that it stays open |
| `L4Delivery.CloseSeals` | caddyl4sec/shipper.go:524-545 | closing seals the open file, and a closed spool stores nothing |
| `L4Delivery.StopCloses` | caddyl4sec/shipper.go:770-780 | a stop leaves the spool closed, without an open file |
| `L4PipelineSpec.EnqueueConserves` | caddyl4sec/shipper.go:862-877 | an oversized or evicted line is counted, every other one is queued |
| `L4Accounts.SpilledExactIff` | caddyl4sec/shipper.go:307-388 | for every quiet spool, batch and failure schedule: dropped grows by exactly the lines that did not reach the disk if and only if no write, flush or rotation failed, or a write or flush failed while the file held fewer bytes than the first unconfirmed line needs; spooled by exactly those that did if and only if the same holds with the first line of the batch |
| `L4Accounts.FailedBatchMiscounts` | caddyl4sec/shipper.go:307-388 | for every batch that fits and every proper prefix of it a failure puts that prefix on disk while spooled stays and dropped counts the whole batch |
| `L4Pipeline.L4Pipeline.EnqueueEvent` | caddyl4sec/shipper.go:862-877 | the pipeline object moves by the specification of enqueueEvent |
| `L4Pipeline.L4Pipeline.FlushBatch` | caddyl4sec/shipper.go:656-680 | the pipeline object moves by the specification of flush, whose effect on batch, spool and counters is L4Delivery.BatchIsSettled |
| `L4Pipeline.L4Pipeline.Stop` | caddyl4sec/shipper.go:928-938 | draining loop, final flush and close move the object by the specification of a stop |
| `L4Pipeline.L4Pipeline.RunAll` | caddyl4sec/shipper.go:862-952 | any sequence of calls on the object keeps the accounts of RunConserves |
| `AuditSpool.AuditSpool.AppendLines` | caddygeoip/auditwriter.go:2757-2815 | a prefix of the batch is on disk in order, exactly as long as the count says unless I/O failed, and all of it with room and working I/O; nothing stays buffered; under a trustworthy counter the disk does not pass the budget and, unless a write failed within a line, the counter covers the disk afterwards |
| `AuditSpool.AuditSpool.Spill` | caddygeoip/auditwriter.go:3119-3142 | what the spool does not vouch for goes to the fallback, in order and exactly: nothing, with room and working I/O |
| `AuditAppend.AppendKeeps` | caddygeoip/auditwriter.go:2757-2911 | for every batch and failure schedule a prefix of the batch is on disk, exactly as long as the returned count unless I/O failed and never shorter; with a successful scan, or a counter that covers the disk, spool bytes do not pass the budget and the counter stays good unless a write failed within a line |
| `AuditDelivery.WorkingAppend` | caddygeoip/auditwriter.go:2757-2815 | while no I/O call fails an append stores the longest prefix that fits both budgets beside what its scan finds, reports its length, with no error exactly if it is the whole batch and Full otherwise, and rotates in time |
| `AuditDelivery.RoomyAppend` | caddygeoip/auditwriter.go:2757-2815 | with room in both budgets and working I/O the whole batch is stored and reported |
| `AuditDelivery.CountIsExactIff` | caddygeoip/auditwriter.go:2757-2850 | for every quiet spool, batch and failure schedule the returned count is the number of lines on disk if and only if no write, flush or rotation failed, or a write or flush failed before the first line since the last flush was in the file |
| `AuditDelivery.WorkingSeal` | caddygeoip/auditwriter.go:2916-2949 | an idle file is sealed and closed, before that it stays open |
| `AuditDelivery.ResetTidies` | caddygeoip/auditwriter.go:2832-2850 | a writer that is given up leaves no open file behind: sealed under another name, or removed if empty |
| `AuditDelivery.CloseSeals` | caddygeoip/auditwriter.go:2952-2985 | closing seals the open file, and a closed spool stores nothing |
| `AuditBudget.BudgetOverRuns` | caddygeoip/auditwriter.go:2675-2985 | over every run of appends, idle seals and close the counter covers the disk unless, since the last good scan, a write failed within a line, or there was no good scan at all; while every append scans well or finds such a counter the disk never passes the budget |
| `AuditBudget.BudgetSurvivesFailedScans` | caddygeoip/auditwriter.go:2705-2727 | from a good opening scan on, a run in which no write fails within a line stays within the budget even if every later scan fails |
| `AuditBudget.SmallBatchTearsNothing` | caddygeoip/auditwriter.go:2746-2815 | a batch that fits the 32 KiB buffer never fails within a line, whatever the disk does |
| `AuditBudget.BudgetBreaksIff` | caddygeoip/auditwriter.go:2757-2811 | some call with a failed scan pushes the disk past the budget if and only if the counter is below the bytes on disk and still leaves room |
| `AuditBudget.FailedOpenBreaksIff` | caddygeoip/auditwriter.go:2688-2697 | after a failed opening scan such a call exists if and only if the directory holds at least one byte |
| `AuditBudget.TornLineBreaksBudget` | caddygeoip/auditwriter.go:2757-2850 | from an empty spool, for every line longer than the write buffer: one torn byte that is sealed but never counted, then a failed scan, and the budget is passed |
| `AuditSpill.SpillDelivers` | caddygeoip/auditwriter.go:3119-3142 | one batch: every line is on disk or in the fallback and nothing else is; no line is in both if and only if the count was exact; with room and working I/O none is in the fallback |
| `AuditSpill.SpillsDeliver` | caddygeoip/auditwriter.go:3119-3142 | any run of failed batches: each line is delivered at least as often as it was given, exactly as often if and only if every batch got an exact count, and nothing is invented |
| `LifecycleRuns.EveryRunIsOrderly` | cmd/server/runtime_lifecycle.go:85-290 | in every interleaving with any timeouts, for the calls that reach the workers: nothing is launched between begin and end of a Stop of its kind or after stopped, Stops of one kind never overlap, every certificate worker is stopped at most once and only after its launch |
| `LifecycleRuns.StartsOnlyBetweenStops` | cmd/server/runtime_lifecycle.go:85-137 | in every interleaving a worker is launched or the sync service started only from a state in which no stop of its kind is registered, about to be registered, or still running, and stopped is not set |
| `LifecycleRuns.OneStopInFlight` | cmd/server/runtime_lifecycle.go:152-225 | from registration to the end of its goroutine a stop is the only one of its kind |
| `LifecycleRuns.ShutdownSettles` | cmd/server/runtime_lifecycle.go:328-351 | the Shutdown that set stopped, if it gave up no wait, has stopped every worker ever launched and left the sync service stopped |
| `LifecycleRuns.NoWorkerIsLost` | cmd/server/runtime_lifecycle.go:152-225 | a launched worker whose Stop was not called is in the field, with the caller about to register its stop, or with the one stop goroutine; that a StopACME which returns has called it is StopACMEStops |
| `LifecycleRuns.FinishClearsItsOwn` | cmd/server/runtime_lifecycle.go:204-214 | a finishing stop goroutine is always the one its field names |
| `LifecycleCalls.StopACMEStops` | cmd/server/runtime_lifecycle.go:139-225 | over every run: when a StopACME has returned without giving up a wait, every worker launched before its invocation has been stopped |
| `LifecycleCalls.StopSyncStops` | cmd/server/runtime_lifecycle.go:273-300 | over every run: when a StopSync has returned, a stop of the sync service has ended after every start that came before its invocation |
| `LifecycleCalls.StartSyncStarts` | cmd/server/runtime_lifecycle.go:250-271 | over every run: a StartSync that has returned has started the service, unless stopped was set |
| `LifecycleCalls.StartACMEStarts` | cmd/server/runtime_lifecycle.go:85-137 | over every run: a StartACME that has returned without a timeout found or launched a worker, unless stopped was set |
| `LifecycleCalls.PatienceGivesUpNothing` | cmd/server/runtime_lifecycle.go:85-225 | over every run: a call none of whose waits times out gives up nothing |
| `LifecycleCalls.GivingUpHasReason` | cmd/server/runtime_lifecycle.go:152-225 | over every run: a call that gave up did so at a timeout, or, having missed the token, because no stop was in flight to wait for |
| `Lifecycle.RunInv` | cmd/server/runtime_lifecycle.go:85-351 | every reachable state keeps token, fields, channels, goroutines, callers and log consistent |
| `AuditJson.BalancedSingleLineObject` | caddygeoip/auditwriter.go:708-737 | the scanning loop accepts exactly the texts whose braces outside strings close at the last byte only |
| `AuditJson.ObjectIsBalanced` | caddygeoip/auditwriter.go:708-737 | the scanner accepts the compact text of every JSON object |
| `AuditJson.InjectAuditTiming` | caddygeoip/auditwriter.go:662-700 | the byte-level insertion computes Injected |
| `AuditJson.InsertionAppendsMember` | caddygeoip/auditwriter.go:662-700 | for every JSON object, empty or not, with any trailing blanks, the insertion yields the compact text of the object with lb_timing as its last member |
| `AuditJson.ChangedIff` | caddygeoip/auditwriter.go:662-700 | a line changes exactly when there is timing to report and it is one balanced object |
| `AuditJson.DigitsAreDecimal` | caddygeoip/auditwriter.go:662-700 | the decimal text of a segment has only digits and no leading zero, and stands for its value |
| `TimingShard.SweepKeeps` | caddygeoip/auditwriter.go:497-535 | a sweep removes exactly the entries past their time, keeps queue and table in bijection, and keeps every owed pre if all that need a new place fit the retained table |
| `TimingShard.CompactionKeeps` | caddygeoip/auditwriter.go:530-534 | compaction of either queue changes no live item |
| `TimingShard.SweepShortens` | caddygeoip/auditwriter.go:497-535 | after a sweep the popped part of either queue is shorter than 1024 items or than the rest |
| `TimingShard.CreateKeeps` | caddygeoip/auditwriter.go:379-386 | a created entry is queued last, with the pre that was kept for its id |
| `TimingRuns.RunKeeps` | caddygeoip/auditwriter.go:318-583 | every reachable registry: live queue items in bijection with entries and in creation order, both counters equal to the table sizes and within their caps, every id in its shard |
| `TimingRegistry.SweepRemovesExactlyExpired` | caddygeoip/auditwriter.go:486-493 | after a sweep of all shards an entry is there, unchanged, exactly if it was and is not past its time |
| `TimingRuns.LookReportsAccepted` | caddygeoip/auditwriter.go:601-640 | whatever pre a look reports was recorded for that very id |
| `TimingRuns.KeptPreIsReported` | caddygeoip/auditwriter.go:362-640 | once kept, a pre is reported for the whole retention time, through re-creation, closing, further sweeps and a full registry, unless a new pre is recorded for the id; without an entry the answer is that pre as a closed snapshot |
| `TimingRuns.LongRequestKeepsItsPre` | caddygeoip/auditwriter.go:362-583 | whichever call sweeps an unclosed entry away, if the kept pres and those that need a new place fit the retained table, its pre is kept and reported for the whole retention time, however many live entries there are |
| `TimingCalls.RecordIsRead` | caddygeoip/auditwriter.go:362-412 | a record that is not refused is read back: the next look reports its value for its segment and the other segment as before, the interception mark if it was one, and an open entry unless it was closed before |
| `TimingCalls.RefusedRecordChangesNothing` | caddygeoip/auditwriter.go:362-378 | a record with a malformed id, or for a new id when the table is full, changes no answer to any reader |
| `TimingCalls.CloseIsRead` | caddygeoip/auditwriter.go:440-458 | after a close of a live entry a look says closed; nothing else that can be read changes |
| `TimingCalls.RecordSparesOthers` | caddygeoip/auditwriter.go:362-412 | a record, with the sweep it may trigger, changes no answer about another id that is within its time |
| `TimingCalls.LookIsTold` | caddygeoip/auditwriter.go:362-640 | over every run, while an entry is within its time every look reports exactly what the calls for its id add up to: the last pre, the last end, closed once closed |
| `TimingCalls.LastPreIsReported` | caddygeoip/auditwriter.go:362-640 | over every run the last pre recorded for an id is what every look reports until its entry is past its time |
| `TimingTable.TimingTable.SweepExpired` | caddygeoip/auditwriter.go:486-535 | the queue-walking loops over all shards compute the specified sweep |
| `TimingTable.TimingTable.Record` | caddygeoip/auditwriter.go:362-412 | admission, creation, amortised sweep and segment write compute the specified record, whose effect on readers is TimingCalls.RecordIsRead |
| `TimingTable.TimingTable.RunAll` | caddygeoip/auditwriter.go:362-535 | any timely sequence of calls on the object is a run in the sense of RunKeeps |
| `AuditEscape.EscapedLen` | caddygeoip/auditwriter.go:1247-1269 | fast prefix plus slow rest is the length of the escaped text, for every byte string |
| `AuditEscape.EscapedIsJson` | caddygeoip/auditwriter.go:1273-1301 | the escaping by the code's case table is a well-formed JSON string whatever the bytes are |
| `AuditEscape.EscapedReadsBack` | caddygeoip/auditwriter.go:1273-1301 | read back by the rules of JSON the escaped text is the string, with invalid bytes replaced by U+FFFD |
| `AuditEscape.AdditiveAtBoundary` | caddygeoip/auditwriter.go:1273-1301 | escaped lengths add up exactly at decode boundaries |
| `AuditEscape.ClipEscaped` | caddygeoip/auditwriter.go:1116-1138 | the clip keeps the longest decode-aligned prefix whose escaped length fits, and marks it; what fits is returned unchanged |
| `AuditEscape.ClippedFieldLen` | caddygeoip/auditwriter.go:1422-1426 | a field clipped at its cap less fifteen is at most one escaped byte above the cap, and above it exactly when some decode boundary of the text fills its share to the last byte |
| `AuditEscape.PlainTextEndsAboveCap` | caddygeoip/auditwriter.go:1420-1426 | every text of bytes that need no escape, if it is clipped at all, ends one byte above the cap |
| `AuditHeaders.EntrySerializedBytes` | caddygeoip/auditwriter.go:1154-1166 | the counted size of one header entry |
| `AuditHeaders.MeasureIsJsonLength` | caddygeoip/auditwriter.go:1154-1199 | the measure of a table without empty value lists is its compact JSON length plus one, in any order of printing |
| `AuditHeaders.SnapshotAuditHeaders` | caddygeoip/auditwriter.go:1179-1226 | forged keys are stripped; a table that does not fit loses a smallest possible number of entries, taken from the largest, such that the reserved marker fits |
| `AuditHeaders.FirstAreLargest` | caddygeoip/auditwriter.go:1206-1222 | exchange argument: no choice of n entries is larger than the n largest |
| `AuditHeaders.MillionEntries` | caddygeoip/auditwriter.go:1179-1226 | with fewer than a million entries the result is within 64 KiB by the code's own measure, marker included |
| `AuditHeaders.TrimmedFits` | caddygeoip/auditwriter.go:1212-1226 | beyond that it passes the cap by at most the digits the reserved six do not cover |
| `AuditMessages.SnapshotMessages` | caddygeoip/auditwriter.go:1334-1382 | the tail and head loops compute the specified cut |
| `AuditMessages.KeptFits` | caddygeoip/auditwriter.go:1334-1382 | kept are a prefix and a suffix, dropped is the missing middle, the kept estimates are within the byte budget |
| `AuditMessages.KeptIsMost` | caddygeoip/auditwriter.go:1334-1382 | the tail reaches back as far as every message of it may be kept (sixteen in all, ordinary ones among the last eight and within 8 KiB), and the head from the front as far as what the tail left of both budgets allows |
| `AuditMessages.LastIsKept` | caddygeoip/auditwriter.go:1346-1362 | the last message is kept exactly when it fits a non-empty budget |
| `AuditMessages.EvaluationsAreKept` | caddygeoip/auditwriter.go:1346-1362 | up to sixteen evaluation messages at the end are all kept if they fit together |
| `AuditMessages.NothingDroppedIff` | caddygeoip/auditwriter.go:1334-1382 | nothing is dropped exactly when all fit the bytes, and the entries unless the tail alone takes them |
| `AuditMessages.MessagesBudget` | caddygeoip/auditwriter.go:1912-1937 | the clamped budget in closed form: both minima and the entry ceiling never change it |
| `AuditMessages.KeptWithinCeilings` | caddygeoip/auditwriter.go:1912-1937 | no line carries more than 128 KiB or 256 messages, and none at all once its fixed part leaves less than 48 KiB of the MiB |
| `AuditMessages.NeverOverCap` | caddygeoip/auditwriter.go:1974-1986 | with a fixed part of at most 1 MiB - 48 KiB the estimate is at most 1 MiB - 48 KiB + 40 |
| `AuditMessages.RejectedIff` | caddygeoip/auditwriter.go:2064-2069 | the per-item cap rejects a line exactly when its fixed part leaves no room for the drop marker |
| `ListDedupe.ReferencesReachAsBefore` | internal/db/db.go:3323-3441 | every place of every referencing row still resolves if it did, and reaches every entry identity it reached before |
| `ListDedupe.SurvivorOfGroup` | internal/db/db.go:3627-3673 | of the system rows of one name exactly one survives and all others are mapped to it: the least referenced one if any is referenced, else the least |
| `ListDedupe.LoneReferenceStays` | internal/db/db.go:3627-3673 | a row that is the only referenced one of its name is not dropped, so no reference to it changes |
| `ListDedupe.FailsIff` | internal/db/db.go:3323-3441 | the migration fails exactly if a reference column does not parse before the index is in place |
| `ListDedupe.NothingNew` | internal/db/db.go:3528-3622 | what a list holds afterwards, it or a duplicate folded into it held before |
| `ListDedupe.UntouchedRows` | internal/db/db.go:3357-3377 | user lists, lists without duplicates and all rows of a group with an unparseable row stay as they are, and references to them too |
| `ListDedupe.IndexedIffUnique` | internal/db/db.go:3357-3420 | the unique index is put in place exactly when system names are unique afterwards |
| `ListDedupe.SecondRunIsNoOp` | internal/db/db.go:3323-3441 | running the migration on its own result changes nothing, deferred groups included |
| `ListDedupe.MergedReach` | internal/db/db.go:3572-3604 | a merged row keeps its own entries first and unchanged and stands for exactly the identities of its group |
| `ListDedupe.IdentityTellsApart` | internal/db/db.go:3498-3500 | an entry without NUL characters shares its identity with no other entry, whatever that one holds |
| `ListDedupe.NulMergesDifferentEntries` | internal/db/db.go:3498-3500 | an entry shares its identity with some different entry, and makes the merge drop it, if and only if one of its fields holds a NUL |
| `ListDedupeTable.ListTable.PlanDedupe` | internal/db/db.go:3627-3673 | the grouping loops compute the plan: keep the least referenced row of a name, else the least |
| `ListDedupeTable.ListTable.MergeEntries` | internal/db/db.go:3528-3622 | the merge loops give every survivor its group's entries unless a row of the group does not parse |
| `ListDedupeTable.ListTable.RewriteRefs` | internal/db/db.go:3776-3817 | the rewrite maps deleted ids to survivors in place, order and duplicates kept |
| `ListDedupeTable.ListTable.MigrateUniqueIndex` | internal/db/db.go:3323-3428 | plan, merge, delete and rewrite together are the specified migration, and an error leaves the tables as they were |
| `TrafficEvents.PollFacts` | caddygeoip/traffic_events.go:74-122 | a poll from a number already handed out gets the next stretch of the recorded events after the gap, the gap is exactly what the ring no longer has, and both add up to the cursor's way |
| `TrafficEvents.RunAccounted` | caddygeoip/traffic_events.go:36-122 | over every run of records, resets and polls no event is delivered twice, each is as recorded, and delivered plus skipped is the distance the cursor travelled |
| `TrafficEvents.RingHoldsNewest` | caddygeoip/traffic_events.go:36-69 | over every run the ring holds the newest 4096 of the events since the last reset, each with the number, country, province and time it was recorded with |
| `TrafficEvents.BatchIsFull` | caddygeoip/traffic_events.go:74-122 | a batch has as many events as limit and ring allow: 200 without a limit, at most 1000 |
| `TrafficEvents.OtherCursors` | caddygeoip/traffic_events.go:84-121 | a first poll gets the newest window without a gap, a cursor of an earlier process is told to start over |
| `TrafficEvents.TrafficBuffer.RecordEvent` | caddygeoip/traffic_events.go:61-69 | the append and cut keep the newest events under the next number |
| `TrafficEvents.TrafficBuffer.SnapshotWithGap` | caddygeoip/traffic_events.go:74-122 | the snapshot loops compute Snapshot |
| `TrafficStats.RunEstimate` | caddygeoip/traffic_stats.go:66-87 | each run of requests sharing one second is estimated at its true number while counted in full and at that number rounded down to a multiple of eight when sampled; it starts in full unless sampling was on and the second before had a thousand hits |
| `TrafficStats.RunByCountry` | caddygeoip/traffic_stats.go:162-197 | every country's attack and normal counters grow by the weights of its own requests of that kind and by nothing else |
| `TrafficStats.FullTally` | caddygeoip/traffic_stats.go:162-197 | a run counted in full counts each country's attacks and its other requests exactly |
| `TrafficStats.FullTableDrops` | caddygeoip/traffic_stats.go:114-146 | a new country that finds the table full changes no counter and is counted as dropped |
| `TrafficStats.TotalError` | caddygeoip/traffic_stats.go:162-197 | over all runs the total estimate is never above the truth and at most seven per run below it |
| `TrafficStats.TrafficCounters.RecordRequest` | caddygeoip/traffic_stats.go:162-197 | second bump, fuse, sampling and country bucket move the counters by the specification |

## Left out

- Library code is a parameter: address parsing, Unicode trimming, the strict parser inside the cache, the CRC,
  the blank test of the injection, case folding of header names, the country name tables.
- I/O outcomes, HTTP statuses and clocks are oracles or arguments; nothing is said about progress, fairness or
  timing.
- The spools assume that other processes only delete spool files that are not held open, and that `lstat` fails
  only for a deleted file; file names are never reused.
- The list cache assumes that an in-place rewrite never returns to an earlier (mtime, size) of the same inode;
  the repository names that case as a known boundary (`wafiplist/iplistfast.go:362-369`). The throttle window is
  left out: a lookup may be answered from the cache at any moment.
- Calls on the pipeline, the spools, the timing registry and the traffic counters are one step each; the timing
  registry's clock does not go back between calls. What the lock-free parts of those calls do when interleaved
  inside one call is not modelled.
- Timing entries are values: a waiter that holds a pointer to a swept entry is not modelled, and
  `auditTimingWait` is one look instead of a polling loop.
- `sort.Slice` and `slices.Sort` are insertion sorts or repeated minima; Go's map iteration order is arbitrary.
- The lifecycle log records launches under the lock; when the launched goroutine is scheduled is not modelled.
- Nothing is proved about the number of spool files. The opening scan of the layer-4 spool is not modelled; its
  first append scans again.
- L4Matching.LoadBoth: the layer-4 matcher parses raw scanner lines and skips padded ones; the comparison is
  about files whose lines are trimmed.
- The de-duplication works on parsed rows and references; SQL, transactions and the re-encoding of merged
  entries are a map update, and the dangling-reference count and audit entries are left out.
- The size of a header with an empty value list is counted as `[]` as in the code; the copied nil list would
  marshal as `null`, two bytes more (`caddygeoip/auditwriter.go:1194`), so `MeasureIsJsonLength` asks for
  non-empty lists.
- Sampling before the event ring and the country normalisation are left out, and `TrafficStats.TotalError` asks
  that the country table has room and that consecutive runs differ in the 32 bits kept of the second.
- Sequence numbers, counters and sizes are unbounded integers except for the packed second word, the hash and
  the header fields of the binary format.
- `spill` without a spool hands the whole batch to the fallback; that branch, and the drop of a batch by a
  layer-4 shipper without a spool (never the case, since opening one always returns an object), are left out.
- HTTP servers and clients, module wiring, metrics, logging throttles, configuration, ACME issuance and the user
  interface are not part of this model.
