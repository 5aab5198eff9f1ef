# 3x-ui panel: a verified model of its stateful core

The panel keeps its clients twice, as entries in the settings list of each
inbound and as rows of the `clients` and `client_inbounds` tables; it pushes
changes to remote nodes that may be away; and it keeps several small state
machines that throw away history while they answer questions about it. This
project models that logic in Dafny and proves what it keeps. `dafny verify
dfyconfig.toml` checks all of it.

One module per area, each with the data the code keeps, the code's own loops as
methods of classes or over arrays, a specification as plain functions, and the
theorems about it:

| file | what it is about |
|---|---|
| `Text.dfy` | ASCII case folding, trimming, decimal and hexadecimal digits |
| `ClientModel.dfy` | client entries, client rows, inbounds |
| `ClientIndex.dfy` | the two tables as an index over the settings lists, and the sync that rebuilds it |
| `ClientColumns.dfy` | what a sync writes into each column |
| `ClientMutations.dfy` | add, update, delete and batch detach as functions on the database, and runs of them |
| `ClientWrites.dfy` | what they write, entry by entry, and exactly when they go through |
| `ClientBatch.dfy` | removing a batch in one pass against folding single removals |
| `ClientService.dfy` | the same operations as the code runs them, on a mutable panel |
| `ClientSnapshot.dfy` | deciding additions against one stale email snapshot |
| `ClientBulk.dfy` | bulk creation, from screening the payloads to the tally |
| `NodeSync.dfy` | the dirty flag of a node: edits, marks, reconciles and pulls interleaved |
| `NodePull.dfy` | what a pull makes of the lists and tables |
| `PulledRows.dfy` | what a pull writes into each row |
| `NodeEdits.dfy` | what the mutations tell the node, and database and protocol running together |
| `LoginLimiter.dfy`, `Tombstones.dfy`, `OnlineClients.dfy`, `MetricHistory.dfy` | pruned state that must answer as the full history would |
| `RecordMerge.dfy` | merging the occurrences of one client, and seeding the table from the lists |
| `MergeOrder.dfy` | which occurrence decides a merged field, and when the order matters |
| `TrafficDeltas.dfy` | cumulative counters, their deltas, and the outbound rows |
| `SubTraffic.dfy` | the traffic header of a subscription |
| `ClientIps.dfy` | the IP limit |
| `PortConflict.dfy` | the port guard and the tag allocator |
| `ShareLink.dfy`, `SqlDump.dfy`, `ProxyNames.dfy` | printers with the parsers that undo them, and unique names |

## Where the code falls short of what it is for

Each of these is kept as the code has it, with a lemma that shows the failure or
says exactly when it happens.

- A client without an email, updated or removed on a node inbound, is neither
  pushed nor marked (`VerdictExact`, `SettledMutation`). The next clean pull takes the
  change back on the panel (`SilentChangeUndone`, `UntoldIsUndone`), unless a marked
  edit comes first (`MarkedEditSaves`).
- A round fetches the node's configuration, reads the dirty flag and, if it is clear,
  writes what it fetched over the panel's. An edit in between is undone
  (`PullKeeps` says exactly when): one that was pushed and acknowledged leaves a clean
  node that has it and a panel that has not (`StalePullUndoes`); one whose mark comes
  after the reading is lost on both sides (`LateMarkLoses`). A flag that cannot be read
  counts as clear.
- A client deleted and added again within the tombstone time loses its link when its
  node is pulled, while the list keeps it (`ReaddedLosesLink`, `PullConsistent`).
- Entries without a record that an addition or removal compacts away are not named
  to the node, and with all pushes acknowledged no mark follows
  (`OrphanDropsSilently`, `VerdictExact`). A consistent database has none
  (`NoOrphans`).
- A mark written in the millisecond the sync job read is cleared with it
  (`MarkAgainstClear`).
- Updating an inbound checks the port against the submitted node and then stores
  the old one, so two inbounds of one node can end up on one socket
  (`SubmittedNodeMatters`).
- Traffic entries are keyed by tag alone: an inbound and an outbound that share a
  tag are counted in one row or not at all (`RightWhateverTheAmounts`).
- A batch of tombstones reads the clock before it takes the lock. With a reading
  older than the stamp it replaces, a tombstone ends early (`TombstonedExactly`,
  `TombstoneEndsEarly`). Online refreshes take their reading the same way
  (`ListedExactly`, `AgedOutEarly`).
- Removing one by one the entries of an email that has two keys refreshes its row
  from entries that go later; a batch does not (`TwoKeysDiffer`, `BatchIsFold`).
- A scan that does not enforce the IP limit replaces the stored list, so addresses
  seen a moment earlier are gone (`CollectingForgets`).
- Negative quotas can make the subscription header depend on row order
  (`OrderExact`).
- Records with equal update times can merge to a result that depends on their order,
  because the creation time that breaks the tie is itself merged down on the way
  (`PairOrder`, `ThreeDisagree`); and where a newest record leaves a field blank, the
  order can decide which older value fills in (`NewestDecidesOrder`).
  `ContendersDecideOrder` says exactly when, for any records.
- Syncing a list in which a new email is repeated can give a different row the
  second time (`ResyncExactly`, `RepeatedEmailDrifts`).


## Model

| member | source | states |
|---|---|---|
| `ClientIndex.SyncedTable` | web/service/client.go:237-326 | A sync loses and renames no row, refreshes the rows of listed emails, and creates exactly one row per listed email that had none, from its first entry; emails stay unique |
| `ClientIndex.SyncedLinkTable` | web/service/client.go:219-355 | After a sync the inbound has exactly one link per distinct non-empty email of its list, with the flow of the first occurrence, and every other inbound keeps its links |
| `ClientIndex.SyncIndexes` | web/service/client.go:328-354 | The synced inbound is exactly indexed and every link still points at a record |
| `ClientIndex.SyncKeepsOthers` | web/service/client.go:219-221 | Syncing one inbound leaves the index of any other inbound exact |
| `ClientIndex.RewriteConsistent` | web/service/client.go:3726-3737 | Replacing one list and syncing it keeps the whole database consistent |
| `ClientIndex.SyncIdempotent` | web/service/client.go:214-355 | Syncing a list without repeated emails a second time changes nothing |
| `ClientIndex.RefreshTwice` | web/service/client.go:254-305 | Refreshing a row from a list twice equals once, for every list, repeats or not |
| `ClientIndex.ResyncExactly` | web/service/client.go:214-355 | A second sync changes nothing exactly when, for every new email, the row its first entry gives is what refreshing it from the whole list would make of it |
| `ClientIndex.RepeatedEmailDrifts` | web/service/client.go:254-268 | So a new email given twice with two IP limits does change on the second sync |
| `ClientColumns.RowSynced` | web/service/client.go:270-305 | After a sync flow, subId, IP limit, quota, expiry, enable, Telegram id, comment and reset of a row are those of the last entry with its email; uuid, password, auth, security, reverse and group are the last one given, else the old one; the creation time is the earliest given, the update time the latest |
| `ClientColumns.SyncColumns` | web/service/client.go:254-326 | So for the whole table: rows of unlisted emails unchanged, listed ones as above, and every column of a new row is that of the first entry with its email |
| `ClientService.Panel.SyncInbound` | web/service/client.go:214-355 | The sync as the code runs it, with its seen, existing and pending maps, leaves exactly the specified tables; and column by column: rows of unlisted emails as they were, listed ones following their entries, new ones from the first entry |
| `ClientService.Panel.SyncRecords` | web/service/client.go:237-326 | The record half: existing rows refreshed in place, missing ones created once under fresh keys, and the id of every listed email returned |
| `ClientService.Panel.CollectEmails` | web/service/client.go:223-235 | The distinct non-empty emails of the list, each once |
| `ClientService.Panel.MergeEntry` | web/service/client.go:270-302 | One settings entry merged into an existing row: nine columns are the entry's, six are the entry's unless it leaves them blank, and the times are the earliest and the latest |
| `ClientService.Panel.SyncEntry` | web/service/client.go:254-314 | One pass of the record loop keeps the merge of the entries seen so far |
| `ClientService.Panel.RefreshExisting` | web/service/client.go:254-314 | All rows of listed emails refreshed, nothing else touched |
| `ClientService.Panel.CreateMissing` | web/service/client.go:319-326 | The pending rows are inserted under consecutive new keys and their ids noted |
| `ClientService.Panel.LinkClients` | web/service/client.go:328-353 | The link loop with its linked set builds exactly the specified links |
| `ClientService.Panel.CompactOrphans` | web/service/client.go:110-160 | The chunked, early-exit compaction returns exactly the entries with no email or with an email that has a record |
| `ClientService.Panel.KeepExisting` | web/service/client.go:140-159 | The filter that follows the lookup keeps exactly the entries without an email or with one that was found |
| `ClientService.Panel.ListEmails` | web/service/client.go:114-126 | The emails the compaction looks up are the non-empty ones of the list |
| `ClientService.Panel.SelectAll` | web/service/client.go:237-250 | Reading in chunks of 400 finds every requested email that has a record |
| `ClientService.CompactRestricted` | web/service/client.go:140-160 | Compacting against the looked-up emails equals compacting against all records |
| `ClientMutations.Compact` | web/service/client.go:110-160 | The plain filter: the emails left are those with a record, and a list whose emails all have records is unchanged |
| `ClientMutations.Agreed` | web/service/inbound.go:484-515 | An email seen with two subIds is locked to the empty one |
| `ClientWrites.CompactSifts` | web/service/client.go:110-160 | Compacting leaves, in order, exactly the entries without an email or with one that has a record |
| `ClientWrites.AddWrites` | web/service/client.go:3562-3738 | An addition keeps those entries in front and appends the submitted ones in order, every setting as submitted, the creation time given or else now, updated now, the subId given or else drawn |
| `ClientWrites.AddressIs` | web/service/client.go:3766-3814 | The entry an update addresses is the first with the key, or, where no entry has it, the first with the email of the lowest-numbered record that has it; none exactly when there is no such entry |
| `ClientWrites.UpdateWrites` | web/service/client.go:3854-3870 | An update leaves every other entry in its place; the addressed one has every setting as submitted, its old creation time or else now, updated now, and the subId given, else its old one, else the drawn one |
| `ClientWrites.RemovalWrites` | web/service/client.go:4038-4175 | A removal, of one key or of a batch, leaves in order exactly the entries that have none of the keys and whose email, if any, has a record |
| `ClientWrites.ConflictExactly` | web/service/client.go:3524-3552 | The email check passes exactly when every entry has one non-blank subId with the earlier entries of its email or, without one, with all stored ones; else it names the first that has not |
| `ClientWrites.AddAccepted` | web/service/client.go:3562-3667 | An addition goes through exactly when its emails pass that check, the inbound is there, every entry has an email and a key, and the node is known; each reason comes before the next |
| `ClientWrites.UpdateAccepted` | web/service/client.go:3740-3853 | An update goes through exactly when the inbound is there, the entry has a key and an email, some entry is addressed, a changed email passes the check, and the node, if it is asked, is known |
| `ClientWrites.DeleteAccepted` | web/service/client.go:4038-4175 | A removal goes through exactly when the inbound is there, some entry has the key, and the node is known or the last such entry has no email |
| `ClientWrites.DetachAccepted` | web/service/client.go:1211-1371 | A batch removal writes exactly when some entry has one of the keys and the node is known or no such entry has an email |
| `ClientService.Panel.CheckEmailsExist` | web/service/client.go:3524-3552 | The loop with its seen map returns the first entry that may not use its email |
| `ClientService.Panel.ValidateEntries` | web/service/client.go:3604-3626 | The first entry without an email or without a key decides the refusal |
| `ClientService.Panel.StampEntries` | web/service/client.go:3577-3590 | Every entry gets its times and, where it has none, a fresh subId; emails and order stay |
| `ClientService.Panel.PushAll` | web/service/client.go:3712-3723 | After the first push that is not acknowledged nothing more is sent and the node is owed a mark |
| `ClientService.Panel.SaveClients` | web/service/client.go:3726-3737 | The list is written back and the tables are synced with it |
| `ClientService.Panel.AddInboundClient` | web/service/client.go:3562-3738 | The add path in full: refusals in order and without effect, else compacted list plus stamped entries, synced, and what the node was told |
| `ClientService.Panel.UpdateInboundClient` | web/service/client.go:3740-4036 | The update path in full: refused without effect, else the specified edit, synced, and what the node was told |
| `ClientService.Panel.LocateEntry` | web/service/client.go:3766-3814 | The entry with the key, else the entry with the email of the first record with the key |
| `ClientService.Panel.FindEntry` | web/service/client.go:3769-3790 | The first entry with the key |
| `ClientService.Panel.SplitByKeys` | web/service/client.go:1238-1270 | One pass splits the list into the entries with and without one of the keys, in order |
| `ClientService.Panel.DelInboundClient` | web/service/client.go:4038-4175 | The single removal in full, with its error when the key is not there |
| `ClientService.Panel.DelInboundClients` | web/service/client.go:1211-1371 | The batch removal in full: one pass, one write, one sync |
| `ClientMutations.StepConsistent` | web/service/client.go:3726-3737 | Any one mutation keeps the tables an exact index of the lists |
| `ClientMutations.StepKeepsOtherInbounds` | web/service/client.go:214-221 | A mutation of one inbound leaves the list and the links of every other inbound untouched |
| `ClientMutations.RunConsistent` | web/service/client.go:3634-3737 | Over every run of adds, updates, deletes and batch detaches: links exactly index the lists, every link points at a record, record emails are unique |
| `ClientMutations.RunFromEmpty` | web/service/client.go:3634-3737 | The same for every run from inbounds without clients and empty tables |
| `ClientBatch.BatchEqualsFold` | web/service/client.go:1211-1371 | Removing keys in one pass leaves the same settings lists and the same links as folding the single removal over them |
| `ClientBatch.BatchIsFold` | web/service/client.go:1211-1371 | Where the rows are fresh from the list and each email has one key, the two leave the same database in every column |
| `ClientBatch.TwoKeysDiffer` | web/service/client.go:4066-4165 | With two keys of one email the fold refreshes the row from an entry that goes later, and the columns differ |
| `ClientBatch.EveryKeyFound` | web/service/client.go:4066-4081 | In a consistent database distinct keys that are present are each found by their own single removal |
| `ClientBatch.RemovalsCompose` | web/service/client.go:1254-1277 | Removing and compacting twice equals removing both sets and compacting once |
| `ClientBatch.RemovalKeepsKnown` | web/service/client.go:110-160 | In a consistent database the compaction of a removal drops nothing |
| `ClientSnapshot.AddKeepsOneSubId` | web/service/client.go:3524-3552 | An accepted addition keeps one subId per lower-cased email across all inbounds |
| `ClientSnapshot.StaleDecidesAsFresh` | web/service/client.go:3524-3552 | For entries whose emails each have one owner subId, the stale snapshot decides a batch exactly as a fresh scan |
| `ClientSnapshot.StaleRunIsFreshRun` | web/service/client.go:3366-3384 | A whole run of additions against one stale snapshot leaves the database a run with fresh scans leaves |
| `ClientBulk.FillDefaults` | web/service/client.go:642-663 | A credential that is given, and for shadowsocks fits, is kept, and nothing but credentials changes |
| `ClientBulk.FilledHasKey` | web/service/client.go:642-663 | With drawn credentials every client has the key its protocol needs, and entry and row have the same key |
| `ClientBulk.FillStep` | web/service/client.go:3337-3352 | Filling in for one inbound after another: an id is drawn exactly where it is missing and some inbound is VMess or VLESS, an auth where some is Hysteria, a password where some is Trojan or a shadowsocks one it does not fit |
| `ClientBulk.Screen` | web/service/client.go:3226-3270 | One payload is passed or refused for exactly its reason |
| `ClientBulk.Prepare` | web/service/client.go:3226-3275 | Every payload is prepared once, in order, as given but enabled, dated and with a subId, or skipped with its reason; prepared emails are pairwise distinct |
| `ClientBulk.FillAll` | web/service/client.go:3337-3352 | A payload goes on only when all its inbounds exist, its credentials kept or drawn as the protocols of all of them ask |
| `ClientBulk.Group` | web/service/client.go:3318-3364 | Each prepared payload is queued for all its inbounds, with its own columns and the flow only where the inbound is capable of it, or fails for a reason found in the tables; inbounds are taken in order of first use |
| `ClientBulk.MarkFailed` | web/service/client.go:3377-3384 | A refused batch fails every payload in it and keeps the first reason of each |
| `ClientBulk.Submit` | web/service/client.go:3366-3385 | The queued batches are added in order; whoever did not fail has its entry, column by column, in every inbound it asked for |
| `ClientBulk.QueuedIsCreated` | web/service/client.go:3337-3364 | An entry stored from a queued client of a prepared payload is the one the payload asks for, in every column |
| `ClientBulk.Tally` | web/service/client.go:3386-3393 | Created and skipped add up to the payloads |
| `ClientBulk.BulkCreate` | web/service/client.go:3198-3394 | Created plus skipped is the number of payloads; every inbound of a created one holds an entry with its limits, expiry, group, comment, Telegram id and reset, enabled, its credentials kept or drawn, its flow where the inbound is capable of it, and dated; skipped ones have a real reason, the run equals one with fresh scans, and both invariants are kept |
| `NodeSync.NodeTable.MarkNodeDirty` | web/service/node.go:483-493 | Sets the flag and the timestamp of one existing row |
| `NodeSync.NodeTable.ClearNodeDirty` | web/service/node.go:495-502 | Clears the flag only when the timestamp is the one that was read |
| `NodeSync.NodeTable.NodeSyncState` | web/service/node.go:504-517 | The row, or nothing for an unknown node |
| `NodeSync.NodeTable.IsNodePending` | web/service/node.go:519-525 | Pending exactly when disabled, not online or dirty |
| `NodeSync.NodeTable.NodePushPlan` | web/service/inbound.go:44-65 | Fails for an unknown node, skips one that is disabled, offline or out of reach, pushes otherwise |
| `NodeSync.StepKeepsInv` | web/job/node_traffic_sync_job.go:154-193 | No step of a conveyed edit, a mark, a heartbeat or the job, its fetch, reading and pull among them, loses track of an edit, if a pull keeps the panel configuration |
| `NodeSync.RunAccounted` | web/job/node_traffic_sync_job.go:154-193 | Over every interleaving in which edits are conveyed and pulls keep the panel configuration, each edit not on the node has a mark owed or a dirty stamp the clear in flight cannot match; a clean node with nothing owed mirrors the panel |
| `NodeSync.PullKeeps` | web/job/node_traffic_sync_job.go:175-189 | A pull keeps every committed edit exactly when the flag was read and the node was dirty at the fetch or marked before the reading, or when the node held at the fetch what is committed by the time of the pull |
| `NodeSync.CarefulRunsKeep` | web/job/node_traffic_sync_job.go:175-189 | In runs in which no flag is read as clear while a mark is outstanding, and edits committed while the job holds what it fetched come before the reading and are marked or find the flag set, all pulls keep the panel configuration |
| `NodeSync.CalmRunsKeep` | web/job/node_traffic_sync_job.go:53-193 | Once edits stop and their marks are written, no schedule of rounds, failures and heartbeats changes the panel configuration, and a clean node mirrors it |
| `NodeSync.PushedInFull` | web/service/client.go:3712-3723 | A push carries a mirroring node along exactly when it names every key the edit changes |
| `NodeSync.FullRoundMirrors` | web/job/node_traffic_sync_job.go:154-193 | One full round, its pull included, leaves an online node clean and mirroring and the panel as it was |
| `NodeSync.Converges` | web/job/node_traffic_sync_job.go:53-193 | From wherever a careful run has got to, the marks owed, the round in flight and one more round settle an online node on the panel configuration |
| `NodeSync.SyncJob.TryStart` | web/job/node_traffic_sync_job.go:53-58 | At most one run at a time |
| `NodeSync.SyncJob.Finish` | web/job/node_traffic_sync_job.go:53-58 | The deferred unlock: the next run may start |
| `NodeSync.SyncJob.SyncOne` | web/job/node_traffic_sync_job.go:154-193 | What one round leaves: the panel as it was where the flag is read and set at that moment, or a call fails, else what the node holds; the node as the panel was where a dirty row was reconciled; the row clean exactly where the clear met the timestamp that was read. It is a round of the protocol, a full one when all calls succeed on an up-to-date row |
| `NodeSync.SyncJob.Reconcile` | web/job/node_traffic_sync_job.go:154-172 | The dirty half: the node gets the panel configuration and the flag goes by compare-and-clear, or the reconcile fails part of the way and the flag stays |
| `NodeSync.SyncJob.Merge` | web/job/node_traffic_sync_job.go:175-189 | The other half: what was fetched replaces the configuration of the panel unless the flag is read as set or a call fails |
| `NodeSync.RoundInFull` | web/job/node_traffic_sync_job.go:154-193 | A round all of whose calls succeed is the full round of the protocol |
| `NodeSync.RoundIsRun` | web/job/node_traffic_sync_job.go:154-193 | However its calls turn out, a round is a legal run of protocol steps without edits, so what holds over runs holds of it |
| `NodeSync.MarkAgainstClear` | web/service/node.go:483-502 | A mark written while a clear is in flight survives exactly when its timestamp differs from the one the job read |
| `NodeSync.SettledEdit` | web/service/client.go:3968-4023 | In a settled world an edit stays accounted for exactly when it was told in full or marked |
| `NodeSync.PullTakesOver` | web/service/inbound.go:1623-1661 | Whatever a clean node holds, every run of rounds without edits leaves it there, and the panel has it from the first pull on |
| `NodeSync.SilentChangeUndone` | web/service/inbound.go:1623-1661 | A silent change of a settled world is undone on the panel by the next pull, up to the keys the node was told about, and only by a pull |
| `NodeSync.StalePullUndoes` | web/job/node_traffic_sync_job.go:178-189 | An edit pushed in full between fetch and reading is taken back on the panel while the node has it, with a clean flag and nothing owed; an undisturbed round brings it back |
| `NodeSync.MarkedEditSaves` | web/job/node_traffic_sync_job.go:154-193 | A marked edit that comes before a round saves itself and all edits before it from every schedule of rounds that follows its mark |
| `NodeSync.LateMarkLoses` | web/job/node_traffic_sync_job.go:178-189 | An edit of a node out of reach, committed between fetch and reading with its mark late, is gone from the panel and from the node after the mark has been reconciled |
| `NodeEdits.VerdictExact` | web/service/client.go:3664-3724 | For every mutation and every outcome of its pushes: the node hears about all entries it changes or is marked exactly when the mutation is accountable, a condition on the lists, the records and the plan |
| `NodeEdits.OrphanDropsSilently` | web/service/client.go:4084-4165 | An orphan that a fully acknowledged removal compacts away is gone from the list, not named to the node, and not marked |
| `NodeEdits.NoOrphans` | web/service/client.go:110-160 | A consistent database has no orphans to drop |
| `NodeEdits.AddressableIsHeard` | web/service/client.go:3664-3724 | In a consistent database the node hears about every mutation whose entries have emails |
| `NodeEdits.ElsewhereIsNothing` | web/service/client.go:3664-3667 | A refused mutation, or one of another node or of the panel itself, leaves what the node is to hold |
| `NodeEdits.ChangedKeys` | web/service/client.go:3726-3737 | The keys a mutation changes for its node are the emails whose entries it changes |
| `NodeEdits.SettledMutation` | web/service/client.go:3664-3724 | A mutation of a settled node stays accounted for exactly when it is accountable |
| `NodeEdits.UntoldIsUndone` | web/service/inbound.go:1811-1884 | A mutation of a settled node that leaves no mark is on the panel, after the next clean pull, only in the entries the node was told about |
| `NodeEdits.PulledConfig` | web/service/inbound.go:1538-1695 | A pull leaves the panel with exactly the configuration the snapshot shows |
| `NodeEdits.MirrorRun` | web/job/node_traffic_sync_job.go:154-193 | Over every interleaving of addressable mutations, marks, heartbeats, rounds and pulls, with careful edits and readings and no client in a pulled list that was deleted within the tombstone time, the tables stay an exact index, and a clean node with no mark outstanding holds exactly the lists of its inbounds |
| `NodePull.InboundService.SetRemoteTraffic` | web/service/inbound.go:1444-1935 | Nothing while the node is dirty, else the specified pull of lists and tables |
| `NodePull.InboundService.OverwriteLists` | web/service/inbound.go:1538-1661 | Every inbound of the snapshot replaces or creates the one on the panel |
| `NodePull.InboundService.DropGone` | web/service/inbound.go:1663-1695 | The inbounds the node no longer has go, with their links |
| `NodePull.InboundService.ResyncAll` | web/service/inbound.go:1811-1884 | Each list is synced into the tables in turn, with the emails linked before the pull noted |
| `NodePull.InboundService.Adopt` | web/service/inbound.go:1845-1880 | The list to sync: without recently deleted clients, with reported ones disabled and the comments of the panel |
| `NodePull.InboundService.SweepRecords` | web/service/inbound.go:1886-1923 | Records of noted emails that have no link left are dropped, in any order |
| `NodePull.PullIndexes` | web/service/inbound.go:1811-1923 | After a pull every list of the node is the one of its snapshot, with its protocol and flow capability, and indexed up to the clients deleted a moment ago; every other list stays and is indexed exactly |
| `PulledRows.PulledRow` | web/service/inbound.go:1845-1884 | After a pull the row of a listed client that the panel had and that was not deleted a moment ago is enabled exactly when its last listing is and that inbound does not report it disabled, its comment is the one the panel had, and every other column follows the entries of the node as after a sync |
| `PulledRows.PulledNewRow` | web/service/inbound.go:1845-1884 | A row the pull creates comes from the first entry of the first inbound that lists the client, disabled if reported so, then follows the inbounds after it; its email was not deleted a moment ago |
| `NodePull.PullConsistent` | web/service/inbound.go:1845-1884 | The tables are an exact index after a pull exactly when the pulled lists have no client deleted within the tombstone time |
| `NodePull.ReaddedLosesLink` | web/service/inbound.go:1846-1849 | A client deleted and added again within the tombstone time is in the pulled list and loses its link |
| `NodePull.RecordsAfterPull` | web/service/inbound.go:1886-1923 | The records left are those of listed emails and of unlisted ones that were in none of the replaced lists |
| `LoginLimiter.KeyInjective` | web/controller/login_limiter.go:89-91 | Two logins share a key only if they agree on address and folded user name, for addresses without the separator |
| `LoginLimiter.Limiter.constructor` | web/controller/login_limiter.go:31-39 | A new limiter starts with an empty history |
| `LoginLimiter.Limiter.Allow` | web/controller/login_limiter.go:41-60 | Refuses exactly while a block stands, whatever pruning has thrown away |
| `LoginLimiter.Limiter.RegisterFailure` | web/controller/login_limiter.go:62-81 | Blocks exactly when the unpruned history since the last success or block holds enough failures inside the window |
| `LoginLimiter.Limiter.RegisterSuccess` | web/controller/login_limiter.go:83-87 | Starts the history of the key afresh |
| `LoginLimiter.PruneLoginFailures` | web/controller/login_limiter.go:93-99 | Drops exactly the leading failures before the cutoff |
| `LoginLimiter.AllowsInvisible` | web/controller/login_limiter.go:41-60 | Interleaved allow calls never change any later answer |
| `LoginLimiter.KeysIndependent` | web/controller/login_limiter.go:41-87 | A key is decided by its own events only |
| `LoginLimiter.BlockLastsCooldown` | web/controller/login_limiter.go:62-81 | A block lasts exactly the cooldown unless a success or a new block intervenes |
| `LoginLimiter.FirstCrowdBlocks` | web/controller/login_limiter.go:62-81 | Failures in order block nothing until as many as allowed lie within one window; the one that completes them blocks for the cooldown and starts the history afresh |
| `LoginLimiter.SuccessClears` | web/controller/login_limiter.go:83-87 | A success leaves neither history nor block |
| `Tombstones.RecentlyDeleted.TombstoneEmail` | web/service/client.go:162-175 | Adds the deletion to the history; only stamps within the TTL stay stored |
| `Tombstones.RecentlyDeleted.TombstoneEmails` | web/service/client.go:177-195 | The batch form, for any reading, also one older than those before it: one deletion of all non-empty emails, only stamps within the TTL of the reading stay |
| `Tombstones.RecentlyDeleted.Prune` | web/service/client.go:168-174 | Drops exactly the stamps before the cutoff |
| `Tombstones.RecentlyDeleted.IsTombstoned` | web/service/client.go:197-212 | Answers from the full history although stamps have been pruned, and changes no later answer |
| `Tombstones.TombstonedExactly` | web/service/client.go:177-212 | A tombstone is never kept too long, and at every moment it answers as the whole history does exactly when the deletion logged last is the latest |
| `Tombstones.TombstoneEndsEarly` | web/service/client.go:177-195 | An email deleted again by a batch with an older reading: between the two ends the answer is wrong |
| `Tombstones.InOrderIsLatest` | web/service/client.go:162-175 | Which it is when the readings were taken in order |
| `OnlineClients.Process.Age` | xray/process.go:346-371 | Stamps the active names, drops exactly those out of the window and lists the rest without repeats |
| `OnlineClients.Process.RefreshLocalOnline` | xray/process.go:338-372 | After any run of refreshes, whatever the order of their readings, the lists hold exactly the names that are alive in the history of polls |
| `OnlineClients.AliveMeans` | xray/process.go:344-371 | Alive is a name whose last sighting lies less than the grace period before every reading since |
| `OnlineClients.ListedExactly` | xray/process.go:338-372 | For every grace period a name is listed exactly when some poll saw it less than that ago, if and only if its last sighting is the latest and the last reading is the latest since |
| `OnlineClients.InOrderIsTimely` | web/service/inbound.go:3677-3681 | Which holds when the refreshes come in the order of their readings |
| `OnlineClients.AgedOutEarly` | web/service/inbound.go:3677-3681 | A refresh with a late reading followed by one with an older reading leaves out a name seen within the grace period |
| `OnlineClients.Process.SetNodeOnlineClients` | xray/process.go:377-384 | Replaces the list of one node only; the caller has turned away ids that are not positive |
| `OnlineClients.Process.ClearNodeOnlineClients` | xray/process.go:389-393 | Removes the list of one node only |
| `OnlineClients.Process.GetOnlineClients` | xray/process.go:254-283 | No repeats and exactly the local and the node emails, on the fast and on the merging path |
| `OnlineClients.Process.AppendNew` | xray/process.go:265-281 | Appends the names not yet listed |
| `OnlineClients.Process.GetOnlineClientsByNode` | xray/process.go:291-310 | The local list under key 0, every non-empty node list under its id, and their union is the flat list |
| `OnlineClients.UnionIsFlat` | xray/process.go:291-310 | The union of such groups is the flat list exactly when no list under key 0 hides a local email, and so always without a node under that key |
| `OnlineClients.LatestTagActive` | xray/process.go:338-372 | The tag used in the latest activity of a listed email is listed too, unless it was seen later under an older reading |
| `MetricHistory.History.Append` | web/service/metric_history.go:44-58 | One append to the capped buffer is one write to the uncapped last-write-per-second series, capped |
| `MetricHistory.History.Drop` | web/service/metric_history.go:62-66 | Removes one series |
| `MetricHistory.History.Restore` | web/service/metric_history.go:85-94 | Replaces the given series, capped again, and keeps the others |
| `MetricHistory.History.Aggregate` | web/service/metric_history.go:100-158 | Group-by-bucket means of the samples at or after the cutoff, cut to the newest points |
| `MetricHistory.History.FirstSince` | web/service/metric_history.go:108-118 | The backward scan stops one past the last sample before the cutoff |
| `MetricHistory.History.Buckets` | web/service/metric_history.go:127-150 | The streaming pass equals grouping by bucket, with increasing aligned times |
| `MetricHistory.History.Flush` | web/service/metric_history.go:131-141 | Closes a bucket with the mean of its samples |
| `MetricHistory.MeanPools` | web/service/metric_history.go:131-141 | The mean of two groups of samples together is their pooled mean, weighted by their sizes |
| `MetricHistory.CappedWrite` | web/service/metric_history.go:44-58 | Capping before and after a write equals capping once |
| `MetricHistory.SeriesIsLastWrites` | web/service/metric_history.go:49-53 | The series holds exactly the last write of each second |
| `MetricHistory.RunOfAppends` | web/service/metric_history.go:44-94 | After any run of appends to a history, from nothing or a restored series, under a nondecreasing clock: the buffer is strictly increasing, at most 9000 long, made of last writes, and misses none that is not older than its first sample |
| `MetricHistory.AtMostOneExtra` | web/service/metric_history.go:104-153 | The truncation to maxPoints drops at most one bucket |
| `RecordMerge.ClientRow.MergeClientRecord` | database/model/model.go:600-724 | The field-by-field merge leaves exactly the specified record and conflict list |
| `RecordMerge.ClientRow.MergeValues` | database/model/model.go:600-724 | All fields in the order of the code, with their conflicts |
| `RecordMerge.ClientRow.MergeText` | database/model/model.go:619-648 | A text field is taken over when newer or filling a blank |
| `RecordMerge.ClientRow.MergeInt` | database/model/model.go:679-690 | A number is taken over when newer or filling a zero |
| `RecordMerge.ClientRow.MergeLimit` | database/model/model.go:649-678 | A limit becomes the larger given one |
| `RecordMerge.ConflictMeansChange` | database/model/model.go:600-724 | For each of the fifteen fields: its name is among the conflicts exactly when the merge changes it, but for the uuid, which is also reported when a different one is turned down |
| `RecordMerge.FoldJoins` | database/model/model.go:649-722 | Quota, expiry and IP limit end as the largest given, creation time as the earliest, update time as the latest |
| `RecordMerge.FoldEnables` | database/model/model.go:709-716 | One enabled occurrence enables |
| `RecordMerge.OrderIrrelevant` | database/model/model.go:600-724 | Any order, with or without repeats, gives the same joined fields |
| `RecordMerge.JoinLaws` | database/model/model.go:649-722 | The joins are commutative, associative and idempotent with zero as identity |
| `RecordMerge.MergeTwice` | database/model/model.go:600-724 | Merging the same record twice equals merging it once |
| `MergeOrder.FoldOfMarks` | database/model/model.go:610-708 | For one field the fold depends only on the times and the value of that field |
| `MergeOrder.NewestAgree` | database/model/model.go:610-708 | A non-blank value that every record with the latest update time holds is the value of the merged row, whatever the order and the older records |
| `MergeOrder.NewestWins` | database/model/model.go:610-708 | A field ends as the newest record has it, if it has it, whatever any record holds in other fields |
| `MergeOrder.PairOrder` | database/model/model.go:610-708 | Two records merge to one value in either order exactly when one has none, both have the same, or their update or creation times differ |
| `MergeOrder.NewestDecidesOrder` | database/model/model.go:610-708 | With one newest record the order cannot matter exactly when that record has the field or all records that have it agree; else an older value fills in |
| `MergeOrder.ContendersDecideOrder` | database/model/model.go:610-722 | For any records the order cannot matter for a field exactly when all contenders agree: newest records created after some other one or able to stay once first, and older ones able to stay behind a newest record that leaves the field blank |
| `MergeOrder.WinnerContends` | database/model/model.go:610-722 | Whatever the order, a contender decides, if any record has the field |
| `MergeOrder.ContenderWins` | database/model/model.go:610-722 | And every contender decides in some order |
| `MergeOrder.NoneBehind` | database/model/model.go:610-722 | Where every newest record has the field, only newest records contend |
| `MergeOrder.OneAddition` | database/model/model.go:610-722 | Among entries with one update and one creation time, some blank, the order cannot matter exactly when those that have the field agree |
| `MergeOrder.ThreeDisagree` | database/model/model.go:610-722 | Two newest records that differ in a field, each created after some other record: the order matters |
| `RecordMerge.SeedClientsFromInbounds` | database/db.go:547-623 | The nested loops leave the fold of the merge over each email, and the links of the fold over all entries |
| `RecordMerge.LinksAreFirstFlows` | database/db.go:612-621 | One link for each email and inbound that has an entry for it, with the flow of the first entry; links that were there stay |
| `RecordMerge.SeedIsFold` | database/db.go:572-611 | A seeded row is the fold over the occurrences of its email, after the row that was there |
| `RecordMerge.SeedOrderIrrelevant` | database/db.go:547-611 | Inbounds and entries in any order seed the same joined fields |
| `TrafficDeltas.Emitted` | xray/api.go:307-315 | Every emitted delta is non-negative |
| `TrafficDeltas.XrayApi.GetTraffic` | xray/api.go:283-322 | The loop notes every value and lists exactly the per-tag and per-email entries of the emitted deltas |
| `TrafficDeltas.ProcessTraffic` | xray/api.go:325-349 | One delta put into the entry of its tag |
| `TrafficDeltas.ProcessClientTraffic` | xray/api.go:352-367 | One delta put into the entry of its email |
| `TrafficDeltas.MapToSlice` | xray/api.go:370-376 | Every entry once, in any order |
| `TrafficDeltas.EntrySide` | xray/api.go:334-342 | Whether an entry counts as outbound is decided by the first counter with its tag |
| `TrafficDeltas.EntryHolds` | xray/api.go:344-348 | Each direction of an entry is what the last counter of that direction emitted |
| `TrafficDeltas.RightWhateverTheAmounts` | xray/api.go:325-349 | An outbound row gains its own deltas, for all amounts, exactly when the tag has no outbound counter in the list, or an outbound one comes first and each direction ends on one |
| `TrafficDeltas.SharedTagMisleads` | xray/api.go:334-348 | An inbound and an outbound with one tag: the traffic of one lands in the row of the other, or is dropped |
| `TrafficDeltas.DeltaIsGrowth` | xray/api.go:307-315 | A delta is the growth over the value noted before, none for first sightings and drops |
| `TrafficDeltas.GrowthTelescopes` | xray/api.go:307-315 | Over a stretch without a drop the deltas add up to the difference of its ends |
| `TrafficDeltas.ClientEntryIsGrowth` | xray/api.go:352-367 | A client entry holds what the counters of its email grew by |
| `TrafficDeltas.OutboundService.AddOutboundTraffic` | web/service/outbound.go:53-83 | The loop adds every outbound entry to its row, creating rows as needed |
| `TrafficDeltas.AddedHolds` | web/service/outbound.go:53-83 | Whatever the order of the slice, a row gains exactly its own entry |
| `TrafficDeltas.OutboundService.ResetOutboundTraffic` | web/service/outbound.go:98-118 | Zeroes exactly the rows it clears, keeps every other row, adds and drops none, and changes nothing when it clears none |
| `TrafficDeltas.ResetHolds` | web/service/outbound.go:98-118 | Read through the missing-row default, a reset zeroes what it clears and nothing else, whether the row is there or not |
| `TrafficDeltas.RowsAreGrowth` | web/service/outbound.go:53-118 | Over every run of polls and resets a row holds what its two counters grew by since its latest reset, and its total is their sum |
| `SubTraffic.AggregateTrafficByEmails` | sub/subService.go:157-223 | The loops leave the fold of the rows with the client limits as fallback |
| `SubTraffic.LoadLimits` | sub/subService.go:177-185 | The limits of the client records by email |
| `SubTraffic.LimitsHold` | sub/subService.go:177-185 | Quota and expiry of an email are those of the last record that has it |
| `SubTraffic.OneClient` | sub/subService.go:157-223 | The header of one client: its own numbers, quota and expiry of its record where it has none, and a negative expiry counted from now |
| `SubTraffic.SumsHold` | sub/subService.go:202-211 | Up and down are sums |
| `SubTraffic.LastOnlineHolds` | sub/subService.go:189-192 | The latest positive activity, or 0 |
| `SubTraffic.ExpiryHolds` | sub/subService.go:206-220 | The normalised expiry all clients share, or 0 if two differ |
| `SubTraffic.TotalIsIntended` | sub/subService.go:205-216 | The quota is the sum, or 0 with an unlimited client, exactly when no first few quotas cancel out or that value is 0 anyway |
| `SubTraffic.OrderIrrelevant` | sub/subService.go:187-222 | With non-negative quotas the whole summary does not depend on row order |
| `SubTraffic.OrderExact` | sub/subService.go:187-222 | Two orders of the same rows give the same summary exactly when the intended quota is 0 or the quotas cancel early in both or in neither |
| `SubTraffic.OrderMattersBelowZero` | sub/subService.go:212-216 | With a negative quota it does |
| `ClientIps.MergeClientIps` | web/job/check_client_ip_job.go:205-222 | The two loops leave the merged map |
| `ClientIps.MergedHolds` | web/job/check_client_ip_job.go:205-222 | Each merged time is the latest on either side that is not stale |
| `ClientIps.PartitionLiveIps` | web/job/check_client_ip_job.go:224-238 | Two sorted lists with one entry per address, split by whether this scan saw it |
| `ClientIps.FindLimit` | web/job/check_client_ip_job.go:331-340 | The limit of the first client with the email, nothing when there is none |
| `ClientIps.LimitIs` | web/job/check_client_ip_job.go:331-340 | The specification of that: some first client with the email, or none has it |
| `ClientIps.CheckClientIpJob.UpdateInboundClientIps` | web/job/check_client_ip_job.go:314-425 | All paths: missing inbound, nothing to enforce, limit kept, limit exceeded, log or save failing |
| `ClientIps.ScanSplits` | web/job/check_client_ip_job.go:358-411 | Kept, banned and historical are a permutation of the merged map; kept has the newest, as many as the limit allows; nothing unseen is banned; the stored list has distinct addresses |
| `ClientIps.RowIsLatest` | web/job/check_client_ip_job.go:342-411 | Over every run the row holds each address once with its latest sighting since its last ban or plain store, and misses none that is not stale |
| `ClientIps.CollectingForgets` | web/job/check_client_ip_job.go:342-350 | A scan that does not enforce keeps the latest times exactly when it saw every fresh stored address again, no earlier |
| `ClientIps.CollectingForgetsExample` | web/job/check_client_ip_job.go:342-350 | An address seen a second earlier is gone after a scan that does not enforce |
| `PortConflict.InboundTransports` | web/service/port_conflict.go:20-86 | The bit loop equals the declarative statement of which sockets an inbound opens |
| `PortConflict.AlwaysOpensSomething` | web/service/port_conflict.go:81-85 | An inbound opens at least one socket |
| `PortConflict.ConflictIsMutual` | web/service/port_conflict.go:88-97 | Conflicts are symmetric |
| `PortConflict.ConflictIsSharedSocket` | web/service/port_conflict.go:88-162 | Two inbounds conflict exactly when some node, address, port and transport is bound by both |
| `PortConflict.InboundService.CheckPortConflict` | web/service/port_conflict.go:127-172 | Reports a conflict exactly when another inbound needs the same socket, and reports a real one |
| `PortConflict.IsAutoGeneratedTag` | web/service/port_conflict.go:204-219 | Recognises exactly the composed tag and the composed tag with a number |
| `PortConflict.InboundService.GenerateInboundTag` | web/service/port_conflict.go:221-243 | The first free candidate, or none |
| `PortConflict.InboundService.ResolveInboundTag` | web/service/port_conflict.go:245-256 | The requested tag when free, else a generated one |
| `PortConflict.GeneratedTagHolds` | web/service/port_conflict.go:221-243 | A generated tag is unused and recognised; generation fails exactly when all 99 candidates are in use |
| `PortConflict.TagNamesOneSocket` | web/service/port_conflict.go:174-219 | A recognised tag determines node, port and transports |
| `PortConflict.InboundService.AddInbound` | web/service/inbound.go:587-602 | Guarded insert: stored exactly when its sockets are free and a tag is left |
| `PortConflict.InboundService.UpdateInbound` | web/service/inbound.go:904-1023 | Guarded replacement: stored exactly when the inbound is there, its sockets are free of the others on the submitted node, and a tag is left on the stored node |
| `PortConflict.AcceptsExactly` | web/service/inbound.go:587-1023 | The guards as the code evaluates them accept exactly the changes whose sockets no other inbound binds and for which the tag asked for or one of the candidates is unused |
| `PortConflict.ChangeWrites` | web/service/inbound.go:587-1023 | A refused change leaves the table as it was; an accepted one stores every submitted column under the submitted or the stored node, with the tag asked for or a generated one, and touches no other inbound |
| `PortConflict.StepKeepsPorts` | web/service/port_conflict.go:127-162 | An insert, or an update that names the stored node, keeps the table free of conflicts |
| `PortConflict.StepKeepsTags` | web/service/port_conflict.go:221-269 | Tags stay unique whatever is submitted |
| `PortConflict.TableStaysClean` | web/service/inbound.go:587-1023 | Every table built by guarded inserts and updates has unique tags, and no two inbounds of one node need the same socket as long as updates name the stored node |
| `PortConflict.SubmittedNodeMatters` | web/service/inbound.go:908-920 | Accepted updates keep every clean table clean exactly when the submitted node is the stored one |
| `PortConflict.GeneratedTagFollows` | web/service/inbound.go:1016-1023 | A generated tag is regenerated for the new port and transports |
| `ShareLink.UserinfoIsPercentEncoded` | sub/subService.go:514-516 | Form escaping with plus signs replaced is percent-encoding, section 2.1 of RFC 3986 |
| `ShareLink.PercentDecodes` | sub/subService.go:514-516 | Decoding recovers every byte string |
| `ShareLink.QueryDecodes` | sub/subService.go:1316-1327 | So does decoding an escaped query value |
| `ShareLink.SortKeys` | sub/subService.go:1326-1327 | The keys of the query in byte order |
| `ShareLink.EncodeValues` | sub/subService.go:1316-1327 | Each pair escaped, in key order, joined by ampersands; empty only without parameters |
| `ShareLink.OneSortedOrder` | sub/subService.go:1316-1327 | The iteration order of the map plays no part |
| `ShareLink.QueryRoundTrip` | sub/subService.go:1316-1335 | Parsing the query gives the parameters back |
| `ShareLink.FinalValues` | sub/subService.go:1317-1325 | Security overridden and TLS hints dropped as asked, everything else kept |
| `ShareLink.AppendQueryAndFragment` | sub/subService.go:1311-1344 | The builder leaves link, query and remark in order |
| `ShareLink.LinkRoundTrip` | sub/subService.go:1311-1344 | Parsing an assembled link, component by component as in section 3 of RFC 3986, recovers userinfo bytes, host, port, parameters and remark |
| `ShareLink.TrojanLink` | sub/subService.go:503-504 | A trojan link reads back as password, endpoint, final parameters and remark |
| `SqlDump.SqliteLiteral` | database/dump_sqlite.go:179-205 | The printed literal of a value, the blob branch built byte by byte |
| `SqlDump.WriteRow` | database/dump_sqlite.go:167-173 | The comma-separated literals |
| `SqlDump.DumpTableData` | database/dump_sqlite.go:143-176 | One INSERT statement per row, appended in order |
| `SqlDump.TextReads` | database/dump_sqlite.go:210-212 | Quoted text reads back, whatever quotes it holds |
| `SqlDump.LiteralReads` | database/dump_sqlite.go:179-208 | Every literal reads back as its value |
| `SqlDump.RowRoundTrip` | database/dump_sqlite.go:143-176 | A row of any length reads back |
| `SqlDump.DumpRoundTrip` | database/dump_sqlite.go:143-176 | A whole table reads back row by row |
| `ProxyNames.FallbackProxyName` | sub/subClashService.go:123-130 | Type and server in front where both are given; never empty |
| `ProxyNames.FallbackTells` | sub/subClashService.go:123-130 | Two proxies without a type or a server are told apart by their place |
| `ProxyNames.CandidatesDiffer` | sub/subClashService.go:111-117 | Distinct counters give distinct names |
| `ProxyNames.CounterBounded` | sub/subClashService.go:111-117 | The counter stops: it cannot pass the number of taken names |
| `ProxyNames.FreeName` | sub/subClashService.go:111-117 | The free candidate with the smallest counter |
| `ProxyNames.EnsureUniqueProxyNames` | sub/subClashService.go:104-121 | In place, each proxy in turn takes its first free candidate and keeps everything else |
| `ProxyNames.NamesAreUnique` | sub/subClashService.go:104-121 | Afterwards no name is empty, none occurs twice, and each is its base or its base with a counter |
| `ProxyNames.DistinctStay` | sub/subClashService.go:104-121 | A list is unchanged exactly when its names were there and distinct |

## Left out

- Database errors, transactions, column defaults, automatic timestamps and SQL text: a table is a map, a save stores the given row, and each operation is atomic.
- JSON, YAML and regular expressions: settings lists, stream settings, log lines and counter names arrive parsed; entries that are not objects and missing key fields do not occur.
- Emails equal their trimmed form and subIds hold no whitespace; case folding and trimming are the ASCII ones.
- Widths of Go integers and durations: numbers are unbounded, so a counter or a cutoff cannot wrap.
- Floating point: metric values are reals, and float literals are not part of the dump.
- NUL bytes in a dumped text, at which SQLite would stop reading the script.
- Column affinity on restoring a dump, and the tables, indexes and triggers around the rows.
- Random ids, keys and subIds: fresh inputs of the operations that use them. Whether a shadowsocks key fits its method is an input too, and the method field of an entry is not modelled.
- Runtime pushes on the local xray, client statistics and IP rows dropped with a client: no effect on lists, tables or nodes.
- PushAll: a node acknowledges all pushes of one call or none; a removal the node cannot resolve counts as acknowledged, as in the code.
- NodePushPlan: the branch for an inbound of the panel itself is left out, as it never marks.
- VerdictExact: compares what panel and node hold by inbound and email, without the times and subIds each of them stamps by itself; an acknowledged push is taken to leave the node with the panel's entries of the emails it names.
- SyncOne: one round without interference; the interleavings are in the protocol steps. A pull is one step, as is the job's read of the central configuration with its pushes; the concurrency limit over several nodes is not part of it.
- SetRemoteTraffic: counters, client statistics, baselines and the other columns of an inbound are left out; tags arrive matched to the panel's inbounds, and inbounds without a free tag or with an unreadable list do not occur.
- Changes made on a node's own panel: a node changes by pushes and reconciles only, though `PullTakesOver` starts from whatever it holds.
- The keys of a settings object other than the client list.
- The rename branch of `Update`, `Delete` of a whole client, bulk delete and bulk adjust: the index is broken on purpose between their steps.
- Crashes between commit and mark, rollback after a push, and a push overtaking a reconcile inside one edit.
- `emailUsedByOtherInbounds` decides only about statistics and IP rows, which are not modelled.
- The order in which Go walks a map: methods choose any order, and what they promise holds for all of them.
- ClientRow: holds its record as one value, so aliasing between two rows being merged is not captured; the seeding pass keys its rows by email instead of by pointer.
- RefreshLocalOnline: leaves the order of the two lists open, as the code does.
- TombstoneEmail: asks for readings in order, as it and the query read the clock under the lock.
- StaleRunIsFreshRun: asks that each email has one owner subId in the run, which `BulkCreate` provides by preparing every email once.
- RowsAreGrowth: asks that a report has one value per counter and that no tag is carried by an inbound and an outbound; `RightWhateverTheAmounts` says what happens otherwise.
- ContendersDecideOrder: asks that creation times are not negative, as the code stamps them.
- BatchIsFold: asks for fresh rows and one key per email; columns other than id and email are not compared beyond it.
- UpdateInbound: the rewriting of client timestamps in the settings, the client traffic rows and the pushes that follow are left out.
- TrojanLink: how the address is chosen and the parameters are derived from stream settings is an input.
- SqliteLiteral: floats and the catch-all branch are left out.
- LinkRoundTrip: hosts are without the delimiters of a link.
- UpdateInboundClientIps: the forced disconnect of a banned address and the log format are not modelled.
- AddInbound: the email check and the save of the clients that follow the guard are modelled in the client modules, not here.
- Paging, filters, summaries, theme, locale, middleware, LDAP, geo files, settings getters, version comparison and the frontend: easy members or plumbing.
