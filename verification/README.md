# Verified model of betterMQ's delivery core

betterMQ is a webhook message queue: producers append messages to partition logs, and
workers deliver them over HTTP, lane by lane, retry, and move what cannot be delivered to a
dead-letter queue. This project models the code that decides whether a message is ever lost,
skipped, acknowledged too early or delivered under the wrong lease, and proves what that code
keeps, over every input, every interleaving and every crash the model allows.

Check everything with `dafny verify dfyconfig.toml` (Dafny 4.11).

## How it is laid out

| files | what they model |
|---|---|
| `Log`, `Cursor`, `Commits`, `Lifecycle`, `CommitAlone`, `Delivery`, `DeliveryCauses`, `DeliveryPaths`, `DeliveryRecords`, `DeliveryRaces` | the gap-aware dispatch cursor, its concurrent commits, the dead-letter lifecycle record, and at-least-once delivery over all of them |
| `Bytes`, `Journal`, `Recovery`, `UnaryCodec` | the JSON-lines journal, replay of torn tails, and recovery of a journaled store through crashes |
| `Fanout`, `FanoutReplay` | the fan-out command store and its bounded replay |
| `Patches`, `FlowRegistry`, `GroupRegistry`, `GroupLookup` | registries that journal diffs |
| `Ndjson` | the streaming batch parser |
| `LeaseTable`, `Claim`, `LeaseApi`, `LeaseRuns`, `LeaseRaces` | leases, claiming, and the lease endpoints under interleaving |
| `Partition`, `Shard`, `ShardCommit`, `ShardAnswers`, `ShardActor` | the partition log and the group-commit actor that owns it |
| `WorkQueue`, `RateWindow`, `Drainer` | flow control of a lane |
| `Admission` | ingest admission |
| `CatalogMerge`, `CatalogPeers`, `CatalogOrder` | merging catalogs with tombstones |
| `Basics`, `Sums` | shared definitions |

Code that updates fields in place is a class whose methods are proved against functions on
values; the results about whole runs are lemmas about those functions. Concurrency is a state
machine: `Enabled` and `Next` give the steps, `Invariant` what each keeps, `Run` the sequences of
steps. A step is one access to a store or one critical section; where a step stands for more than
that, "What is taken as given" says so. Methods that carry out a whole request describe it with
no other running; the state machines say what interleaving adds.

## What turned out not to hold

Where the code does not meet what one would expect of it, the model follows the code, a lemma
shows a concrete run, and another says exactly when it does hold.

- Two cursor commits of a lane that overlap can move the cursor back after completion keys were
  deleted, so a completed message is delivered again (`Commits.OverlapForgets`,
  `Commits.BackwardForgets`). No message is skipped by this (`Commits.CursorIsSound`).
- The commit scan reads records that are not synced yet, so the cursor can pass the committed
  watermark; if that tail is lost in a power failure, new messages at those offsets are never
  delivered (`Commits.CursorPassesWatermark`, `Commits.TailLossSafeExactly`).
- The cursor is keyed by lane, the scan by topic: messages of a lane that spans topics are skipped
  (`Commits.SecondTopicSkips`, `Cursor.OneTopicExactly`).
- A dead-letter copy and the idempotency entry that names it are stored apart. When an unsynced copy
  is lost and its entry survives, the message counts as dead-lettered with no copy anywhere
  (`DeliveryRaces.LostCopyCounts`, `Delivery.DlqLossSafeExactly`).
- The lifecycle store reads a phase, writes the record and notes it in memory, each under its
  own lock: a commit recorded in between is written back to prepared (`DeliveryRaces.RecordFallsBack`,
  `DeliveryRecords.FallsBackExactly`), and a compaction in between drops the record from disk
  (`DeliveryRaces.CompactionDrops`). `DeliveryRecords.RecordsOutlive` says what a record keeps when
  the calls on one message do not overlap.
- A fan-out is claimed before its execution is reserved: a replay with a stale claim can undo a
  recorded delivery (`FanoutReplay.StaleClaimUndoes`, `FanoutReplay.StaleSettledExactly`).
- An append does not trim a torn last line: the next record is written behind it and the journal
  cannot be loaded any more (`Journal.AppendBehindTear`, `Recovery.AppendSafeExactly`).
- Registry diffs are keyed by id alone: an upsert under an id that another tenant holds replays to
  a different state (`FlowRegistry.UpsertReplaysExactly`, `GroupRegistry.OperationReplaysExactly`).
- The lifecycle map has structured keys, which a JSON object cannot have, so its compaction fails
  whenever a transition is pending: `prepare` writes and then reports failure from the 1024th
  journaled operation on, until a clear empties the map (`Lifecycle.LifecycleStore.Prepare`,
  `Lifecycle.LifecycleStore.Clear`).
- A lease request looks its lease id up and takes what is under it in two steps: a record put under
  the id in between is the one it completes (`LeaseRaces.HijackedEffect`, `LeaseRuns.NamedExactly`).
- It gives up its lease before it acts, so it can act after the generation changed and while another
  worker holds the offset (`LeaseRaces.LateEffect`, `LeaseRuns.EffectCurrentExactly`,
  `LeaseRuns.HeldSinceTake`).
- A lease id used for two offsets leaves one marked without a lease until the process restarts
  (`LeaseRaces.ReusedIdOrphans`, `LeaseRuns.ReuseBreaksExactly`, `LeaseTable.OrphanForever`).
- The committed watermark is documented as synced; in the mode that leaves syncing to the operating
  system it is not (`ShardCommit.OnDiskExactly`). A purge that syncs moves the log's watermark
  without publishing it (`ShardCommit.PublishedExactly`).
- The shared in-flight limit of the lane drainers is exceeded by up to the number of open lanes less
  one (`Drainer.BoundIsReached`, `Drainer.LimitExceededExactly`), and the rate limit is doubled across a window's edge
  (`RateWindow.TwiceIsReached`).
- Versions of a catalog item that tie on their timestamp are merged by order
  (`CatalogOrder.OrderShowsExactly`; grouping alone never shows, `CatalogOrder.GroupingNeverShows`),
  and a local delete stamped by a slow clock weakens a later one learned from elsewhere
  (`CatalogPeers.RecordKeepsDeadExactly`).

## What is taken as given

- The journal's line codec is a parameter with four laws (`Journal.Lawful`): a record is one
  non-blank line, reads back, and neither a strict prefix of it nor a non-empty prefix followed by
  another record can be read. `UnaryCodec.IsLawful` shows the laws can be met.
- Ids the code draws at random are fresh: lease ids in a claim, ids of new profiles, groups and
  members. Lease ids that clients present may be anything.
- File-system answers, HTTP outcomes, clocks, elapsed timeouts and leadership are parameters or
  actions that may take any value.
- Integers are unbounded. The source's counters are 64-bit and its arithmetic on them saturates or
  wraps only at values no log reaches; where a width decides a result (the attempt counter of
  fan-out replay) it is written out.
- Steps that stand for several accesses: the check of a lease token (leadership, generation,
  watermark and record are read at one moment), one page of a scan, and the clearing of a record
  whose message a restart cannot read.

## Model

| member | source | states |
|---|---|---|
| `Delivery.NothingIsSkipped` | engine/broker-dispatch/src/worker.rs:920-1094 | Main result. In every run of deliveries, dead-letterings, lease reports and concurrent commits, with a crash between any two steps: a message of the owner that the store takes as complete (below the cursor or marked) was reported delivered or has a committed copy in the dead-letter queue, and a record saying the copy is committed is true; as long as the owner keeps to one topic, no tail is lost below the cursor, and no lost copy leaves its idempotency entry behind. |
| `DeliveryCauses.CompleteForCause` | engine/broker-dispatch/src/worker.rs:920-1094 | Main result. In those runs a complete message was accepted by its destination or reported delivered at an earlier step, or given up on at an earlier step and has a committed copy in the dead-letter queue. |
| `DeliveryCauses.DeadForCause` | engine/broker-dispatch/src/worker.rs:1244-1348 | Main result. In any run at all, a copy in the dead-letter log, a lifecycle record on disk or in memory and a task on its way there are preceded by a step that gave up on a message at that offset. |
| `DeliveryCauses.DeliveredForCause` | engine/broker-dispatch/src/worker.rs:1067-1095 | What counts as delivered was accepted or reported delivered at an earlier step. |
| `DeliveryPaths.SuccessCompletes` | engine/broker-dispatch/src/worker.rs:1067-1095 | Main result. From every reachable state a message accepted or reported delivered can take its steps one after the other (begin the commit, scan, write, end), ends complete with its task gone, and changes neither the dead-letter log nor any lifecycle record; nothing complete is forgotten and nothing else on its topic becomes complete. |
| `DeliveryPaths.GivingUpCompletes` | engine/broker-dispatch/src/worker.rs:1244-1348 | Main result. From every state reached without the three losses a message given up on or reported dead can take its steps one after the other (record, look up, copy unless an entry names a copy, sync, record the commit, commit the cursor, clear), ends complete with a committed copy and not as delivered, and leaves every other record, entry and task as it was. |
| `DeliveryPaths.SeenCompleteClears` | engine/broker-dispatch/src/worker.rs:974-1002 | A message found complete when picked up again, and not already below the cursor when that was first read, is committed once more and its lifecycle record cleared; nothing is copied or counted as delivered. |
| `DeliveryRecords.RecordsOutlive` | engine/broker-dispatch/src/worker.rs:696-714 | Main result. In every such run in which the calls on the record of a message do not overlap and none is cut off between its write and its note in memory, the record never goes from committed back to prepared, survives crashes, and goes only once its message is marked complete, by a restart whose read of the message failed, or by a compaction while a task has written it and memory does not have it yet. |
| `DeliveryRecords.FallsBackExactly` | engine/broker-dispatch/src/lifecycle.rs:120-138 | In any run at all, a committed record on disk becomes prepared exactly when a task writes the prepared phase it read earlier. |
| `DeliveryRecords.ReadEarlier` | engine/broker-dispatch/src/lifecycle.rs:120-138 | A task about to write the prepared phase did read it, at a step when memory had no commit for the message. |
| `DeliveryRecords.TouchKept` | engine/broker-dispatch/src/lifecycle.rs:120-158 | Under that discipline every step keeps memory level with the disk up to the one write in progress. |
| `DeliveryRaces.RecordFallsBack` | engine/broker-dispatch/src/lifecycle.rs:120-147 | A reachable run in which a committed record is written back to prepared by a task that read the phase first. |
| `DeliveryRaces.CompactionDrops` | engine/broker-dispatch/src/lifecycle.rs:184-200 | A reachable run in which a compaction between the write of a record and its note in memory leaves the record in memory only. |
| `Delivery.StepKeeps` | engine/broker-dispatch/src/worker.rs:1244-1348 | Each step of a delivery (take, success, give up; read, write and note the record; look up the entry, append the copy, enter it, wait, commit, remove, abort, crash, compaction, loss of a tail) keeps the delivery invariant under those three conditions. |
| `Delivery.DlqLossSafeExactly` | engine/broker-partition/src/broker.rs:960-1001 | After a loss of unsynced dead-letter records every entry names a copy, whatever is appended later, exactly when no surviving entry names a lost record. |
| `DeliveryRaces.LostCopyCounts` | engine/broker-partition/src/broker.rs:860-1001 | A reachable run in which an unsynced dead-letter copy is lost, its idempotency entry survives, another record fills the offset, and the message is recorded as dead-lettered and complete with no copy anywhere. |
| `Commits.CursorIsSound` | engine/broker-dispatch/src/worker.rs:1184-1242 | Under any interleaving of concurrent commits and any crashes, every message of the owner below the stored cursor was marked complete, and only reported messages are ever marked; as long as the owner keeps to one topic and no tail is lost below the cursor. |
| `CommitAlone.CommitRuns` | engine/broker-dispatch/src/worker.rs:1184-1242 | Main result. From any state a commit whose store accesses follow one another comes to an end, over any number of pages, and leaves the cursor at a scan result of the state with its completion added. |
| `CommitAlone.CommittedMeans` | engine/broker-dispatch/src/worker.rs:1184-1242 | Then its offset is complete, nothing that was complete is forgotten, and of the messages of the lane on its topic no other has become complete. |
| `Commits.SecondTopicSkips` | engine/broker-dispatch/src/worker.rs:1206-1233 | For every lane and every other topic, a reachable run in which a commit on the second topic takes the cursor past a message nobody has delivered. |
| `Commits.StepKeeps` | engine/broker-dispatch/src/worker.rs:1184-1242 | Every single store access of a commit (read cursor, mark, read watermark, fetch a page, check a message against the cursor and then its key, write) keeps the invariant of all other commits in flight. |
| `Commits.BackwardForgets` | engine/broker-storage/src/indexes.rs:355-447 | A write of the cursor forgets a completion exactly when it moves back over one whose key is gone. |
| `Commits.ForwardKeepsMemory` | engine/broker-storage/src/indexes.rs:355-447 | No step but a write that moves the cursor back can forget a completion. |
| `Commits.OverlapForgets` | engine/broker-dispatch/src/worker.rs:1184-1242 | A reachable run of two overlapping commits in which a completed message is forgotten, so it will be delivered again. |
| `Commits.TailLossSafeExactly` | engine/broker-dispatch/src/worker.rs:1206-1233 | After a loss of the unsynced tail the cursor passes no message appended later exactly when it was not past the committed watermark. |
| `Commits.CursorPassesWatermark` | engine/broker-dispatch/src/worker.rs:1206-1233 | A reachable run in which the cursor is past the committed watermark. |
| `Cursor.ScanPage` | engine/broker-dispatch/src/worker.rs:1217-1230 | One page of the scan ends at the first incomplete message of the lane on it, or behind its last message. |
| `Cursor.Scan` | engine/broker-dispatch/src/worker.rs:1206-1233 | The paged scan ends at the first incomplete message of the lane at or after the cursor, or at or past the watermark with none below it. |
| `Cursor.LaneCursor.SetDispatchOffset` | engine/broker-storage/src/shared_indexes.rs:147-170 | Moves the cursor and drops exactly the completion keys in [current, next) in the local store, all below `next` in the shared one. |
| `Cursor.LaneCursor.CommitDispatchOffset` | engine/broker-dispatch/src/worker.rs:1184-1242 | A commit that runs alone never moves the cursor back, makes its offset complete, takes nothing else as complete, and leaves the cursor at the first incomplete message or at or past the watermark with none below it. |
| `Cursor.OneTopicExactly` | engine/broker-dispatch/src/worker.rs:1206-1233 | The cursor belongs to a lane but the scan reads one topic: it never passes an incomplete message of the lane exactly when the lane's committed messages all lie on that topic. |
| `Log.ListTopicMessagesFrom` | engine/broker-partition/src/broker.rs:1417-1450 | Paging through the shared log with growing batches gives exactly the first `max` records of the topic from the offset on. |
| `Log.TopicFromMembers` | engine/broker-partition/src/broker.rs:1417-1450 | The listing of a topic is ascending and holds exactly its records from the offset on. |
| `Lifecycle.LifecycleStore.constructor` | engine/broker-dispatch/src/lifecycle.rs:71-114 | Opening over what earlier processes left on disk, torn tail or not, gives the total state of their history. |
| `Lifecycle.LifecycleStore.Write` | engine/broker-dispatch/src/lifecycle.rs:160-200 | Each write reaches memory and journal alike, also when the call then reports failure, and what is in memory is what a restart would load; behind a torn tail the journal can no longer be loaded unless compaction empties it. |
| `Lifecycle.LifecycleStore.Prepare` | engine/broker-dispatch/src/lifecycle.rs:120-138 | Preparing records the transition durably, leaves a committed one committed, and reports success exactly when fewer than 1024 operations are journaled, this one included. |
| `Lifecycle.LifecycleStore.MarkDlqCommitted` | engine/broker-dispatch/src/lifecycle.rs:140-147 | Marks a known transition committed and changes no other. |
| `Lifecycle.LifecycleStore.Clear` | engine/broker-dispatch/src/lifecycle.rs:149-158 | Removes exactly the one transition; when it empties the map a long journal is compacted and the count starts over, otherwise the call reports failure. |
| `Lifecycle.WriteLands` | engine/broker-dispatch/src/lifecycle.rs:160-200 | However a write ends, one more event is durable, the journal ends in a whole line, and the total state is the event applied to the one before. |
| `Recovery.RecoveryTheorem` | engine/broker-api/src/fanout.rs:260-346 | Main result. In every run of mutations, compactions, torn appends and crashes at any step boundary, reloading succeeds and gives the fold of all durable events in order; acknowledged events are never lost; and events nobody acknowledged number at most one per crash, plus the one in flight. |
| `Recovery.LoadIsTotal` | engine/broker-api/src/fanout.rs:290-324 | Loading gives the whole history, whatever part of it the snapshot already covers and however the tail is torn. |
| `Recovery.StepKeeps` | engine/broker-api/src/fanout.rs:326-346 | Append, torn append, snapshot, truncate, acknowledge and crash each keep the link between disk and history. |
| `Recovery.AppendSafeExactly` | engine/broker-partition/src/catalog_journal.rs:82-105 | An append leaves the store loadable exactly when the journal ended in a whole line. |
| `Journal.Replay` | engine/broker-partition/src/catalog_journal.rs:39-80 | The replay loop computes the line-by-line meaning of the journal: covered records skipped, a torn last line ignored, anything else unreadable refused. |
| `Journal.ReplayWhole` | engine/broker-partition/src/catalog_journal.rs:39-80 | Whole records replay to their fold, and what follows them is read after them. |
| `Journal.TornAppend` | engine/broker-partition/src/catalog_journal.rs:39-105 | For a journal whose last append is cut at any byte, replay applies exactly the records before it, plus that record when only its newline is missing. |
| `Journal.AppendBehindTear` | engine/broker-partition/src/catalog_journal.rs:82-105 | Writing behind a cut record: the journal stays readable exactly when the cut left a whole line or nothing of the record. |
| `Journal.FoldNumbered` | engine/broker-partition/src/catalog_journal.rs:55-78 | Replaying numbered records over a snapshot applies exactly the commands the snapshot does not cover, once each. |
| `UnaryCodec.IsLawful` | engine/broker-partition/src/catalog_journal.rs:18-24 | The laws asked of the line codec can be met: a concrete codec meets them. |
| `Fanout.FanoutStore.Mutate` | engine/broker-api/src/fanout.rs:260-288 | A mutation makes one event durable, applies it to the contents, and stays consistent with the run model through compaction; behind a torn tail the journal can no longer be loaded unless compaction empties it. |
| `Fanout.FanoutStore.LoadState` | engine/broker-api/src/fanout.rs:290-324 | Loading from disk gives the contents. |
| `Fanout.FanoutStore.AcceptCommand` | engine/broker-api/src/fanout.rs:153-165 | A command is stored once per id; a repeat gets the stored one back and changes nothing. |
| `Fanout.FanoutStore.RecordOutcome` | engine/broker-api/src/fanout.rs:167-189 | Records one member outcome for a known command, and refuses an unknown one without a change. |
| `Fanout.RecordedExactly` | engine/broker-api/src/fanout.rs:554-586 | After a recorded result the completed flag holds exactly when every member has a response or is terminal; no other command changes. |
| `Fanout.HonestyKept` | engine/broker-api/src/fanout.rs:554-586 | No event breaks the exactness of the completed flags: set only when every member is settled, and always then for a command with members. |
| `Fanout.AcceptedStays` | engine/broker-api/src/fanout.rs:554-586 | A stored command is replaced by no later accept and leaves only by garbage collection. |
| `Fanout.CollectedExactly` | engine/broker-api/src/fanout.rs:582-584 | Collection drops exactly the ids it names. |
| `Fanout.ReplacedExactly` | engine/broker-api/src/fanout.rs:579-581 | A replacement is found under its id from then on and touches no other. |
| `Fanout.CompletionTime` | engine/broker-api/src/fanout.rs:554-578 | The completion time is that of the result that completes the command, and stays. |
| `FanoutReplay.ReplayCommand` | engine/broker-api/src/bettermq.rs:906-960 | The replay loop over the store, cut short after any number of members, leaves exactly the command that its pass computes, whatever the store held. |
| `FanoutReplay.PublishToGroup` | engine/broker-api/src/bettermq.rs:609-740 | The same for the results of a publish request, recorded in the order they come in. |
| `FanoutReplay.PassExactly` | engine/broker-api/src/bettermq.rs:906-960 | Whatever the store holds by then, an execution replaces exactly the outcomes of the members it tries, each by one attempt counted from the command it claimed. |
| `FanoutReplay.TriedExactly` | engine/broker-api/src/bettermq.rs:906-930 | A replay leaves a member alone exactly when it is settled or its retry time is ahead; a publish request only the settled ones. |
| `FanoutReplay.RetryTime` | engine/broker-api/src/bettermq.rs:931-951 | The n-th failed attempt sets the retry time by the wait after n attempts and is terminal exactly when n reaches the limit; an answer ends the retries. |
| `FanoutReplay.BackoffDoubles` | engine/broker-api/src/bettermq.rs:944-948 | The wait is one second after the first failure, doubles with each, and is 64 seconds from the seventh on. |
| `FanoutReplay.SettledStays` | engine/broker-api/src/bettermq.rs:906-960 | A settled member keeps its outcome through every execution that claimed the command since. |
| `FanoutReplay.StaleSettledExactly` | engine/broker-api/src/bettermq.rs:871-884 | Through an execution with an older claim it stays settled exactly when the execution does not try it, or ends it with an answer or the last attempt. |
| `FanoutReplay.StaleClaimUndoes` | engine/broker-api/src/bettermq.rs:871-884 | A replay that claimed before the request recorded the delivery and began after the request ended turns the delivered member unsettled and the completed command incomplete. |
| `FanoutReplay.ReplaySettles` | engine/broker-api/src/bettermq.rs:485-491 | Main result. However the publishes go, from any command whose completed flag is right and whatever it has recorded so far, as many full passes as the attempt limit settle and complete it, whatever other passes, requests or passes cut short come between. |
| `FanoutReplay.FlagKept` | engine/broker-api/src/fanout.rs:554-586 | No execution, however stale its claim, makes the completed flag wrong. |
| `FanoutReplay.AcceptedFlag` | engine/broker-api/src/bettermq.rs:585-598 | A newly accepted command has a right flag. |
| `FanoutReplay.SpacedReplaySettles` | engine/broker-api/src/bettermq.rs:906-960 | A command is complete after as many uncut passes as the attempt limit, each a publish request or a replay 64 seconds later than every earlier pass. |
| `Patches.DiffReplays` | engine/broker-partition/src/flows.rs:73-91 | Main result. Applying the journaled diff to the state before gives exactly the state after, order included, when ids are unique and the edit adds at most one item. |
| `Patches.TwoNewItemsReorder` | engine/broker-partition/src/flows.rs:150-169 | With two new items some order of the diff replays to a different list: the bound in the line above is exact. |
| `Patches.Diff` | engine/broker-partition/src/flows.rs:150-169 | The diff names exactly the new and changed items and the ids that are gone. |
| `Patches.ApplyUpserts` | engine/broker-partition/src/groups.rs:98-134 | The replay loop replaces an item in place by id and appends the others. |
| `FlowRegistry.UpsertLookup` | engine/broker-partition/src/flows.rs:190-209 | After an upsert a lookup finds the newer of the stored and the given profile, and every other lookup is unchanged. |
| `FlowRegistry.DeleteLookup` | engine/broker-partition/src/flows.rs:336-345 | A delete succeeds exactly for a known profile, and a lookup then misses exactly that one. |
| `FlowRegistry.CreateExactly` | engine/broker-partition/src/flows.rs:211-243 | A profile is created, with parallelism and period at least 1, exactly when the tenant has none with that key and those limits; otherwise the error names one that has. |
| `FlowRegistry.KeyLookup` | engine/broker-partition/src/flows.rs:258-292 | After an upsert by key the given limits are found under the key, with the id stored there if there was one, and every other key finds what it did. |
| `FlowRegistry.UpsertReplaysExactly` | engine/broker-partition/src/flows.rs:144-209 | The journaled upsert replays to the state in memory exactly when no other tenant holds the id. |
| `FlowRegistry.Registry.Commit` | engine/broker-partition/src/flows.rs:144-188 | A mutation journals the diff and leaves disk and contents in step. |
| `FlowRegistry.Registry.Upsert` | engine/broker-partition/src/flows.rs:190-209 | The durable contents after an upsert are the ones in memory. |
| `FlowRegistry.Registry.Create` | engine/broker-partition/src/flows.rs:211-243 | Creates a profile, or names an existing one with the same limits and changes nothing. |
| `FlowRegistry.Registry.UpsertByKey` | engine/broker-partition/src/flows.rs:258-292 | The durable contents after an upsert by key are the ones in memory. |
| `FlowRegistry.Registry.Delete` | engine/broker-partition/src/flows.rs:336-345 | Deletes exactly a known profile and reports an unknown one. |
| `GroupRegistry.OperationReplaysExactly` | engine/broker-partition/src/groups.rs:98-134 | Main result. For every group and member operation the journaled diff of both lists replays to exactly the state in memory if and only if new records carry new ids and an upsert does not reuse another tenant's id. |
| `GroupRegistry.CascadeExactly` | engine/broker-partition/src/groups.rs:355-367 | Deleting a group removes exactly its members. |
| `GroupRegistry.DiffFile` | engine/broker-partition/src/groups.rs:200-278 | The diff taken of an operation replays it. |
| `GroupRegistry.Registry.Mutate` | engine/broker-partition/src/groups.rs:200-468 | Every operation returns and stores what it computes, or refuses without a change. |
| `GroupLookup.UpsertGroupFinds` | engine/broker-partition/src/groups.rs:301-320 | After an upsert the newer of stored and given group is found, members are unchanged and every other lookup answers as before. |
| `GroupLookup.UpsertMemberFinds` | engine/broker-partition/src/groups.rs:408-427 | After an upsert the newer of stored and given member is found, groups are unchanged and every other lookup answers as before. |
| `GroupLookup.CreateExactly` | engine/broker-partition/src/groups.rs:280-299 | A group is created exactly when its name is free in the tenant, and then found; nothing found before is found otherwise. |
| `GroupLookup.AddExactly` | engine/broker-partition/src/groups.rs:369-406 | A member is added exactly when its group is known, with parallelism and period at least 1, and then found; nothing found before is found otherwise. |
| `GroupLookup.DeleteGroupFinds` | engine/broker-partition/src/groups.rs:355-367 | A delete succeeds exactly for a known group; it alone is missed afterwards, and of the members exactly its own. |
| `GroupLookup.DeleteMemberFinds` | engine/broker-partition/src/groups.rs:459-468 | A delete succeeds exactly for a known member, and it alone is missed afterwards. |
| `Ndjson.ParseStream` | engine/broker-api/src/batch.rs:219-274 | Main result. For every way of cutting a body of at most 8 MiB into chunks, the streaming parser returns what splitting the whole body by line gives, with the same numbered error, except that it refuses an empty result; and it accepts no larger body. |
| `Ndjson.DrainPending` | engine/broker-api/src/batch.rs:236-256 | Taking the complete lines off the pending bytes changes nothing about the outcome. |
| `Ndjson.AcceptedExactly` | engine/broker-api/src/batch.rs:197-217 | A body is accepted exactly when every non-blank line decodes and there are not too many, and the result is those records in order. |
| `Ndjson.FirstBadLine` | engine/broker-api/src/batch.rs:170-195 | The line number in a refusal is that of the first line that does not decode. |
| `LeaseTable.InsertKeepsExactly` | engine/broker-dispatch/src/lease.rs:151-162 | An insert keeps the two maps inverse exactly when the offset is leased already or the lease id is not in use; otherwise an offset stays marked without a lease. |
| `LeaseTable.OneLeasePerOffset` | engine/broker-dispatch/src/lease.rs:122-238 | Main result. In every run with fresh ids an offset is marked exactly when a lease holds it, and no offset has two leases. |
| `LeaseTable.ForwardKept` | engine/broker-dispatch/src/lease.rs:122-238 | With any lease ids at all, no operation leaves a lease without its offset marked under its own id. |
| `LeaseTable.OrphanForever` | engine/broker-dispatch/src/lease.rs:122-238 | An offset once marked without a lease stays so at every later point of every run. |
| `LeaseTable.Table.PurgeExpired` | engine/broker-dispatch/src/lease.rs:205-219 | Removes exactly the expired leases and their marks. |
| `LeaseTable.Table.Get` | engine/broker-dispatch/src/lease.rs:134-137 | Purges, then finds the lease. |
| `LeaseTable.Table.IsOffsetLeased` | engine/broker-dispatch/src/lease.rs:139-144 | Purges, then tells whether the offset is marked. |
| `LeaseTable.Table.TryInsert` | engine/broker-dispatch/src/lease.rs:151-162 | Succeeds exactly when the offset was free, and then holds it under that lease. |
| `LeaseTable.Table.Heartbeat` | engine/broker-dispatch/src/lease.rs:164-184 | Extends a live lease of that holder; each error exactly in its case. |
| `LeaseTable.Table.Take` | engine/broker-dispatch/src/lease.rs:186-203 | Removes the lease of that holder with its mark; another holder's lease stays. |
| `Claim.ClaimFromBroker` | engine/broker-dispatch/src/lease.rs:246-358 | Main result. At most the clamped limit of distinct offsets, each committed, on a led partition, of no dead-letter topic, incomplete, not below its lane cursor and now leased to the holder; and if there are fewer, every such offset is leased. |
| `Claim.JobSays` | engine/broker-dispatch/src/lease.rs:246-349 | A job handed out names the offset, id and lane of a committed record of a led partition and of no dead-letter topic, with the generation and watermark of the partition and an expiry of at least 5 seconds; the limit is between 1 and 64. |
| `Claim.ClaimTopic` | engine/broker-dispatch/src/lease.rs:281-300 | Leaves nothing claimable on the topic unless the limit is reached. |
| `Claim.ClaimPartition` | engine/broker-dispatch/src/lease.rs:301-354 | The paged scan of a partition ends, and leaves nothing claimable there unless the limit is reached. |
| `Claim.ClaimPage` | engine/broker-dispatch/src/lease.rs:314-349 | Leases every claimable message of a page until the limit. |
| `LeaseApi.TokenExactly` | engine/broker-api/src/lease.rs:38-65 | A token is accepted exactly when the node leads the shard under that generation and the committed record it names has that id and lane. |
| `LeaseApi.ResolveIsGuarded` | engine/broker-api/src/lease.rs:76-125 | With no other request running and whatever lease id is presented, a request is let through only for a current, committed record with matching id and lane whose offset no other lease id or holder holds; then nobody holds it. |
| `LeaseApi.LetGoFrees` | engine/broker-api/src/lease.rs:91-125 | What a request takes or finds free was under its own id and holder or free at that moment, and then nobody holds it. |
| `LeaseApi.ResolveAdmits` | engine/broker-api/src/lease.rs:76-125 | Such a request is let through, with its own live lease or, after a restart, without one. |
| `LeaseApi.ResolveCompletionJob` | engine/broker-api/src/lease.rs:76-125 | The checks against the table follow the specification step by step, purging included. |
| `LeaseApi.LeaseComplete` | engine/broker-api/src/lease.rs:164-207 | With no other request running, the cursor commit is set out on only for a guarded request and succeeds exactly when the call does; a failed one leaves the offset leased again to the same id and holder for 5 seconds. |
| `LeaseApi.LeaseFail` | engine/broker-api/src/lease.rs:209-254 | With no other request running, a dead-lettering is set out on only for a guarded request; a failed one, or a retry, leaves the offset leased again to the same id and holder for 5 seconds or for the delay asked for, at least 250 ms. |
| `LeaseApi.LeaseHeartbeat` | engine/broker-api/src/lease.rs:147-162 | A heartbeat is answered with the job, its expiry moved, exactly when the lease is there, of that holder, not run out, and the node leads its shard under its generation; not found exactly when no live lease is left; a lease whose shard has moved on is gone with its mark; no other live lease changes. |
| `LeaseApi.BeatenExactly` | engine/broker-api/src/lease.rs:147-162 | The table after a heartbeat, lease by lease: extended, dropped with its mark, run out, or as it was. |
| `LeaseRuns.EffectsAreGuarded` | engine/broker-api/src/lease.rs:76-254 | Main result. In every interleaving of requests (token check, look-up, take, action), claims, heartbeats, expiry, generation changes and restarts, with any lease ids, a completion or dead-letter acts on a committed record whose offset no other lease id or holder held when the request let go of it, after its token was accepted under the generation then current; and it acts on the record the token names unless another record was put under its lease id between look-up and take. |
| `LeaseRuns.NamedExactly` | engine/broker-api/src/lease.rs:91-125 | Main result. A request acts on the record its token names exactly when it found no lease, or the last job put under its lease id between its look-up and its take, if any, is that record. |
| `LeaseRuns.StepKeeps` | engine/broker-api/src/lease.rs:76-254 | Every step keeps every lease and every pending request on a committed record and every lease marked. |
| `LeaseRuns.AloneIsResolve` | engine/broker-api/src/lease.rs:76-125 | A request whose token check, look-up and take follow one another ends with the table and the job, or the refusal, of the whole check at once. |
| `LeaseRuns.ClaimsAreRecorded` | engine/broker-dispatch/src/lease.rs:314-349 | The jobs that claims hand out are for committed records. |
| `LeaseRuns.PromptEffect` | engine/broker-api/src/lease.rs:164-254 | A request whose steps follow one another directly acts on the record it names, under the current generation, on an offset nobody holds. |
| `LeaseRuns.HeldSinceTake` | engine/broker-api/src/lease.rs:164-254 | If the offset is held when the request acts, the lease on it was entered after the request let go. |
| `LeaseRuns.EffectCurrentExactly` | engine/broker-api/src/lease.rs:164-254 | The request acts under its own generation exactly when leadership has not changed since its token was accepted, or the last change left the node leading the shard under that generation. |
| `LeaseRuns.ReuseBreaksExactly` | engine/broker-api/src/lease.rs:164-254 | A step of the endpoints keeps leases and marks inverse exactly when it does not put a job on a free offset under a lease id in use. |
| `LeaseRaces.HijackedEffect` | engine/broker-api/src/lease.rs:91-103 | A run in which the completion of one record takes and completes another that nobody reported, put under the same lease id between look-up and take. |
| `LeaseRaces.ReusedIdOrphans` | engine/broker-api/src/lease.rs:209-254 | A run of the endpoints after a restart in which two offsets given back under one lease id leave one of them marked with no lease. |
| `LeaseRaces.LateEffect` | engine/broker-api/src/lease.rs:182-190 | A run in which a completion is about to act after the generation has changed and while another worker holds the offset. |
| `Shard.AnsweredOnce` | engine/broker-partition/src/shard.rs:267-294 | Main result. Every dequeued command is answered exactly once, for every order of commands and timeouts. |
| `ShardCommit.AcksAreSound` | engine/broker-partition/src/shard.rs:363-401 | Main result. In every run, whatever the file system answers, an offset is acknowledged only below the committed watermark, below the synced one unless syncing is left to the operating system, and clients never see a watermark past the log's. |
| `ShardCommit.EpochExactly` | engine/broker-partition/src/shard.rs:363-397 | A waiter is acknowledged exactly when its epoch's sync succeeded and its offset was appended; when the sync fails every waiter of the epoch fails. |
| `ShardCommit.GroupingInvisible` | engine/broker-partition/src/shard.rs:267-361 | Main result. For every grouping of commits the replies to appends, reads, purges, watermark queries and segment collection are those of one-at-a-time processing, in the same order. |
| `ShardAnswers.AnswersAreTrue` | engine/broker-partition/src/shard.rs:296-361 | Main result. In every run and however commits are grouped, the answer to each command is true of the log when its turn came: a read gives readable records in order from the offset on, none passed over, short only if there are no more; an append names its items under consecutive offsets behind the old end, or is refused for a stale fence without a change, or for a failed sync; a frame is filed at the end, confirmed if the record there has its id, or refused; a purge says yes exactly when a readable record goes; collection counts exactly the segments that go; the watermark is the end of the log. |
| `ShardAnswers.AppendedIsRead` | engine/broker-partition/src/shard.rs:305-332 | Main result. What an append is told it stored, every later read from that offset gives first, until the offset is purged or its segment collected. |
| `ShardAnswers.WatermarkAnswer` | engine/broker-partition/src/shard.rs:333-335 | A watermark query is answered with one past the last offset given out in the run. |
| `ShardAnswers.GivenOutOnce` | engine/broker-storage/src/log.rs:706-796 | No offset is given out twice. |
| `ShardAnswers.OldLeaderIsFenced` | engine/broker-storage/src/log.rs:517-532 | Main result. Once an append has been let through under a fence, every later append under a lower one is refused and changes nothing. |
| `ShardAnswers.FenceStays` | engine/broker-storage/src/log.rs:517-532 | The fence never falls during a run. |
| `ShardCommit.OnDiskExactly` | engine/broker-storage/src/log.rs:1084-1123 | Acknowledged offsets are on disk in every run exactly when the mode is not the one that leaves syncing to the operating system. |
| `ShardCommit.PublishedExactly` | engine/broker-partition/src/shard.rs:336-338 | The watermark clients see equals the log's after every run exactly when writes are not synced one by one: a purge that syncs does not publish. |
| `ShardCommit.FastPathHolds` | engine/broker-partition/src/shard.rs:204-213 | A commit request answered from the published watermark is below the committed one, and on disk unless syncing is left to the operating system. |
| `ShardActor.Owner.ProcessNonCommit` | engine/broker-partition/src/shard.rs:296-361 | Answers one command and publishes the watermark as the event-by-event account says. |
| `ShardActor.Owner.CommitWaiters` | engine/broker-partition/src/shard.rs:363-397 | Syncs once if any waiter needs it and answers every waiter. |
| `ShardActor.Owner.GatherEpoch` | engine/broker-partition/src/shard.rs:275-290 | The inner loop gathers an epoch and answers other commands meanwhile. |
| `ShardActor.Owner.RunActor` | engine/broker-partition/src/shard.rs:267-294 | The nested loops answer exactly as the event-by-event account says. |
| `Partition.AppendReadsBack` | engine/broker-storage/src/log.rs:706-796 | A batch not refused by its fence reads back in full under consecutive offsets, even if the call then fails, and every other record reads as before. |
| `Partition.RollsExactly` | engine/broker-storage/src/log.rs:706-796 | An answered append leaves the active file below its size limit: a batch that fills it closes it as one segment with everything since the last. |
| `Partition.FrameIsIdempotent` | engine/broker-storage/src/log.rs:537-622 | A replicated frame sent twice for one offset is filed once. |
| `Partition.PurgeHides` | engine/broker-storage/src/log.rs:1033-1055 | A purged record is gone from reads, no other is touched, and purging it again does nothing. |
| `Partition.GcKeepsAbove` | engine/broker-storage/src/log.rs:997-1029 | Collecting segments loses no record at or past the watermark. |
| `Partition.RangeIsOrdered` | engine/broker-storage/src/log.rs:876-901 | A range read gives records of the log in ascending order, at most as many as asked. |
| `Partition.RangeIsComplete` | engine/broker-storage/src/log.rs:876-901 | A range read that comes back short missed nothing. |
| `WorkQueue.LaneQueue.Push` | engine/broker-dispatch/src/flow_control.rs:87-91 | Adds the work to the map and to both indexes. |
| `WorkQueue.LaneQueue.Pop` | engine/broker-dispatch/src/flow_control.rs:93-104 | Takes a waiting item, none only from an empty queue: live work before backfill, then the higher priority, the lower offset, the earlier arrival; in strict order the older, the lower partition and offset, the earlier arrival; and keeps both indexes exact. |
| `WorkQueue.PushKeepsExactly` | engine/broker-dispatch/src/flow_control.rs:87-91 | A push keeps the indexes exact precisely when its sequence number is unused, or used by work in the same place of both orders. |
| `WorkQueue.NothingLostOrTwice` | engine/broker-dispatch/src/flow_control.rs:75-117 | Main result. In every run with fresh sequence numbers the waiting work is exactly what was pushed and not taken, and nothing is taken twice. |
| `RateWindow.RateIsBounded` | engine/broker-dispatch/src/flow_control.rs:119-157 | Main result. For every clock that does not go back and any resets: at most `max` permits per window and at most twice that in any half-open interval one period long, plus `max` for each reset in it. |
| `RateWindow.TwiceIsReached` | engine/broker-dispatch/src/flow_control.rs:136-151 | Twice the limit is reached without a reset, for every limit and period. |
| `RateWindow.NoLimitGrantsAll` | engine/broker-dispatch/src/flow_control.rs:136-139 | With a limit of zero every request is granted, whatever happens before. |
| `RateWindow.GrantedExactly` | engine/broker-dispatch/src/flow_control.rs:136-151 | With a limit a request is granted exactly when the period is over or the window has given less, and the window then counts it. |
| `RateWindow.Limiter.TryAcquire` | engine/broker-dispatch/src/flow_control.rs:136-151 | The update in place grants and counts as the specification says. |
| `Drainer.CountsAreBounded` | engine/broker-dispatch/src/flow_control.rs:460-542 | Main result. In every interleaving no lane runs more than its parallelism, no count goes below zero, and the shared count exceeds its limit by less than the number of lanes that may run anything. |
| `Drainer.BoundIsReached` | engine/broker-dispatch/src/flow_control.rs:490-538 | That bound is reached in some run, for every limit and every parallelism of the lanes. |
| `Drainer.LimitExceededExactly` | engine/broker-dispatch/src/flow_control.rs:490-538 | The shared limit is exceeded in some run exactly when it is not zero and at least two lanes may run anything. |
| `Drainer.UnlimitedFillsAll` | engine/broker-dispatch/src/flow_control.rs:460-542 | Without a shared limit all lanes can run their full parallelism at once. |
| `Admission.GuardsStayWithinLimits` | engine/broker-api/src/admission.rs:51-156 | Main result. Under any interleaving of the atomic steps, granted guards never exceed the record and byte limits globally or per tenant, each tenant entry is the sum over the guards not yet given back, and all counters are zero when nothing is in flight. |
| `Admission.StepKeeps` | engine/broker-api/src/admission.rs:118-156 | Each atomic step of reserve, rollback and drop keeps that invariant. |
| `Admission.Gate.Reserve` | engine/broker-api/src/admission.rs:118-156 | A request that runs alone is admitted exactly when it fits, and a refusal leaves no trace. |
| `Admission.AloneExactly` | engine/broker-api/src/admission.rs:118-156 | In the step model a request whose steps are not interrupted gets its guard exactly when it fits, and a refused one leaves the state as it was. |
| `Admission.Gate.Drop` | engine/broker-api/src/admission.rs:51-64 | Gives back what was taken. |
| `Admission.ReleaseUndoesAdmit` | engine/broker-api/src/admission.rs:51-64 | Giving back undoes admitting. |
| `CatalogOrder.OrderShowsExactly` | engine/broker-api/src/cluster.rs:861-1024 | Main result. The merge loop lists the same versions for every order of the catalogs exactly when no two catalogs pick different versions of an item that tie as newest and alive. |
| `CatalogOrder.GroupingNeverShows` | engine/broker-api/src/cluster.rs:929-1024 | Main result. Merging in groups, order kept, gives what one loop over all catalogs gives, ties or not. |
| `CatalogPeers.OrderAgreesExactly` | engine/broker-api/src/cluster.rs:962-1024 | Whatever the order of the same catalogs and however often each comes, any two results the reference allows agree exactly when no two live newest versions of an item tie. |
| `CatalogPeers.GroupingAgreesExactly` | engine/broker-api/src/cluster.rs:929-1024 | Merging results for groups of catalogs, in any order, agrees with every result the reference allows for all of them at once exactly when no two live newest versions among all tie. |
| `CatalogMerge.NoResurrection` | engine/broker-api/src/cluster.rs:764-769 | No result the code may give, ties or not, holds an item that is not strictly newer than every known deletion of its id. |
| `CatalogMerge.ReferenceMetExactly` | engine/broker-api/src/cluster.rs:861-1024 | The code gives all live versions that nothing beats exactly when no two different ones of an item carry the same timestamp. |
| `CatalogPeers.CoherentHasNoTies` | engine/broker-api/src/cluster.rs:861-1024 | There are no ties when equal id and timestamp mean equal content. |
| `CatalogPeers.MergeCommutesExactly` | engine/broker-api/src/cluster.rs:861-870 | Two versions can be merged in either order exactly when they do not tie for the slot. |
| `CatalogPeers.MergeItems` | engine/broker-api/src/cluster.rs:861-914 | The loop is the fold of the one-item merge, and keeps, per kind and id, a version no other beats. |
| `CatalogPeers.MergeTombstones` | engine/broker-api/src/cluster.rs:916-927 | Keeps the later deletion of each id. |
| `CatalogPeers.Finalize` | engine/broker-api/src/cluster.rs:929-960 | Gives out exactly the newest versions that outlive their deletions. |
| `CatalogPeers.MergeFromPeers` | engine/broker-api/src/cluster.rs:962-1034 | Merges the local catalog with those of the peers that answered, listing the live versions the loop holds at the end; fails only when none answered and there is nothing to show. |
| `CatalogPeers.TombstoneFile.Record` | engine/broker-api/src/catalog_tombstones.rs:84-99 | Stamps the deletion with the clock and touches no other. |
| `CatalogPeers.TombstoneFile.MergeRemote` | engine/broker-api/src/catalog_tombstones.rs:127-151 | Raises each known deletion to the later one and adds the unknown. |
| `CatalogPeers.RecordKeepsDeadExactly` | engine/broker-api/src/catalog_tombstones.rs:84-99 | A local delete never weakens an earlier one exactly when the clock is not behind it. |

## Left out

- HTTP handlers, routing, request signing, egress policy, authentication and JSON encoding: a delivery is an action that may succeed or fail, a record codec a parameter.
- The Raft controller, replication to followers and quorum writes: leadership and generation are values that may change at any step.
- The retry-state store: its record of attempts and delays does not bear on completion.
- Payload blobs (loading them can defer a delivery, nothing else) and message purging during delivery, which the broker does not carry out (engine/broker-partition/src/broker.rs:1557-1566).
- The dead-letter copies are put in one log of their own, and the reservation that keeps two publishes of one key apart is left out: both may append, which the model allows.
- Selection of fan-out commands for garbage collection, and the authority of cluster nodes over a command: only the events they journal are modelled.
- Refusal of snapshots and journals of a newer version on opening a store, beyond the version check of journal records.
- Failures of writing to the log file, of renaming a full segment and of deleting a collected one; failed syncs and failed checkpoints are modelled.
- Rebuilding the partition log from its files after a restart, and its on-disk frame format.
- Claim.ClaimFromBroker: the broker's state does not change during one claim, and other claims run before or after it, because the claim's own checks are against what it reads.
- ShardCommit.GroupingInvisible: the file system gives a command the same answer in both ways of processing.
- Delivery.NothingIsSkipped: holds under the three conditions of `Delivery.Sheltered`; `Cursor.OneTopicExactly`, `Commits.TailLossSafeExactly` and `Delivery.DlqLossSafeExactly` say that each is exactly what is needed.
- DeliveryRecords.RecordsOutlive: any failed read of the message on restart clears its record, as in the code; holds for a message whose lifecycle calls do not overlap, and `DeliveryRecords.FallsBackExactly` says exactly which step breaks it otherwise.
- Losses below the committed watermark, which the mode that leaves syncing to the operating system allows (`ShardCommit.OnDiskExactly`): in `Commits` and `Delivery` a lost tail starts at the watermark.
- Commits.CursorIsSound: holds under the first two of these conditions; crashes that lose nothing are unrestricted.
- FlowRegistry.Registry.Upsert: requires that no other tenant holds the id; `FlowRegistry.UpsertReplaysExactly` says that this is exactly when the journal agrees with memory.
- GroupRegistry.Registry.Mutate: requires ids that fit (new ids unused, upserts not under another tenant's id); `GroupRegistry.OperationReplaysExactly` says that this is exactly when the journal agrees with memory.
- FlowRegistry.Registry.Commit: requires, like the other registry methods and the fan-out operations built on `Mutate`, that the journal ends in a whole line; `Recovery.AppendSafeExactly` says that this is exactly when the store stays loadable.
- DeliveryPaths.GivingUpCompletes: starts from states reached without the losses of `Delivery.Sheltered`; after a lost copy whose entry survives, the wait for it may never end or end with another record (`DeliveryRaces.LostCopyCounts`).
- The stamping of a group or member that is upserted without a time: the record is taken with the time it gets.
- Wrap-around of 64-bit sequence numbers, offsets and millisecond clocks.
- Fair queueing of tenants, pinning of lane limits, host blocking and the memory guard.
- Compaction thresholds in bytes are a choice of the environment where they only decide when to compact.
