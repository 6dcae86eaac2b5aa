# Shardscape in Dafny

Shardscape keeps one object namespace on several sites without a consensus protocol. Each site appends
what it does to a fact log, pulls the logs of its peers, merges their records by last write wins, collects
unreferenced blocks by mark and sweep, and copies the blocks its peers announce. This project models that
machinery and proves what it keeps over every run of a whole cluster, together with the streaming parts
around it: chunking, ranged reads, the encrypted site-to-site stream, and listings.

## How it is laid out

- `Lww`, `SiteModel`: last-write-wins tables, the tables of one site and the effect of each store operation.
- `Gc`, `Replication`: the sweep as a function on a site's tables, the drainer's decision and its backoff.
- `Cluster`: any number of sites in a full mesh as a state machine. One site moves per step: a block of an
  upload, a manifest, a delete, a user, a part, one pulled record, a saved cursor, a crash of the pull loop,
  a read repair, a drained queue entry, any sweep. Clock readings and timestamps are arbitrary.
- `Invariants`, `Preservation`, `MeshPreservation`: the inductive invariant of every run and its proof.
- `Holding`: what a site holds for its own uploads in runs whose sweeps there spare unfinished uploads. Only the
  theorems about blocks at their origin need that hypothesis.
- `Convergence`, `Visibility`, `GcRuns`, `QueueRuns`, `Durability`, `Accounting`: the theorems about runs.
- `Pulling`, `Store`, `Requests`, `Maintenance`, `RoundTrip`: the store as a class whose tables are updated in
  place, and the handlers over it. Every method has exactly the effect of the site model.
- `Handlers`, `FullSync`, `SiteReads`: uploads, completions, repairs, drains and synchronisation rounds as segments of
  enabled cluster steps, full synchronisation from any state, and reads at any site of what was uploaded at any other.
- `Counterexamples`: runs and inputs at which promises fail.
- `Chunking`, `RangeRead`, `BlockList`: streaming chunkers, byte ranges, and the block-list column.
- `Noise`, `NoiseLink`: the framed, encrypted stream, poll by poll, and two ends joined by a byte stream.
- `KeyOrder`, `Listing`, `Grouping`: key order and prefix ranges, paging, delimiter listings.

## Where the code does not do what it promises

Each failure has a concrete instance and the exact condition under which the promise is kept.

- Two writes that tie for newest on a key leave fully synced sites different for good (`TiesDiverge`); arrival
  order is irrelevant exactly when no such tie exists (`OrderIrrelevantIffSettled`).
- The comment in `store_block` says the grace period covers the time between storing a block and writing its
  manifest. A block that was already a recorded orphan when an upload deduplicated against it can be swept at once,
  and the upload ends with a live manifest whose block is nowhere (`GraceDoesNotCoverDedup`). A block is held from
  its upload's storing it to the manifest exactly when every sweep in between that saw it unreferenced was unforced
  and read a clock below the block's reap time (`UploadKeepsBlockIff`).
- A record that fails to merge is passed over for good exactly when a later record of the same page succeeds
  (`CursorSkipsNothingIff`, `SkippedRecord`).
- The drain of a peer fetches the same page for ever exactly when five hundred consecutive records after the cursor
  fail to merge (`DrainEndsIff`, `FailingPageSpins`).
- Repeating a sweep at the same time changes nothing, except when the clock read for a new pending entry had
  fallen back a whole grace period (`SweepIdempotentIff`, `RepeatedSweepReaps`).
- The listing of a prefix whose last byte is 0x7F or 0xBF panics (`IncrementPanicsIff`, `DelPrefixPanics`), although
  the code there expects valid UTF-8.
- A cursor replaces the prefix's lower bound, so a cursor below the prefix shows foreign keys
  (`CursorKeepsPrefixIff`, `CursorBelowPrefixShowsForeignKey`).
- A delimiter listing stops scanning after 100 000 rows and then says it is complete (`ScanCapHarmlessIff`,
  `ScanCapHidesARow`).
- An upload with a clock reading not newer than the key's row succeeds without effect (`UploadTakesEffectIff`,
  `StaleUploadIsLost`).

## Model

| member | source | states |
|---|---|---|
| `Lww.ReplayIsNewest` | src/store.rs:465-487 | whatever order writes arrive in, a key's row is one of its newest writes, and every written key has a row |
| `Lww.SameWritesSameRow` | src/store.rs:1037-1082 | two sites that received the same writes, in any orders and with any repeats, have a row for the same keys, of the same age, and the same row for every key on which no two tie for newest |
| `Lww.SameWritesSameTable` | src/store.rs:1037-1082 | with no such tie at all they hold the same table |
| `Lww.OrderIrrelevantIffSettled` | src/store.rs:465-487 | arrival order never matters if and only if no two writes tie for newest with different values |
| `Lww.NoComeback` | src/store.rs:465-487 | a row that has been overwritten is never handed back to the write that lost it |
| `SiteModel.ApplyReplays` | src/store.rs:1037-1082 | merging a record turns the objects and users tables into the replay of all arrivals so far plus that record |
| `Gc.SweepMeetsItsSpecification` | src/storage.rs:453-518 | a sweep leaves held = (held and referenced) plus the orphans still in grace, pending = held minus referenced, references unchanged |
| `Gc.SweepIdempotentIff` | src/storage.rs:464-517 | a second sweep at the same time changes nothing if and only if it is forced, there is no grace, or no orphan newly recorded by the first was stamped a grace period in the past |
| `Gc.SweepKeepsExactly` | src/storage.rs:453-518 | a held block stays held exactly when a live manifest or a part names it or its reap time has not come, and the bytes go with it |
| `Gc.ReapOneMore` | src/store.rs:691-706 | deleting held blocks one at a time, with their bytes, is reaping the set of them, including the size rows of last copies |
| `Replication.PlanCharacterised` | src/storage.rs:667-686 | with a remote holder on record an entry is dropped only for a local copy, deferred only when no known peer holds the block, and every reachable holder is a candidate |
| `Replication.BackoffIsCappedDoubling` | src/store.rs:38-47 | for every number of failures the 64-bit shift does not overflow and the delay is min(base times 2^n, six hours) |
| `MeshPreservation.RunSound` | src/storage.rs:318-631 | the cluster invariant (block index sound, manifests after their announcements, announcements on record, arrivals accounted for) holds in every state of every run, whatever is swept |
| `MeshPreservation.StepKeeps` | src/store.rs:337-532 | every enabled step of every site keeps the cluster invariant |
| `Convergence.RowsAreNewestSeen` | src/store.rs:1037-1082 | at every moment each object row is a newest write among the site's own log and the merged part of each peer's log, and no seen write is newer |
| `Convergence.UsersAreNewestSeen` | src/store.rs:1145-1162 | the same for user rows |
| `Visibility.DeleteHides` | src/store.rs:516-532 | a newer delete leaves its key not live, its record in the log, and every other key as live as before |
| `Visibility.MergeTakesEffect` | src/store.rs:1037-1082 | a merged put newer than the row shows, a newer delete hides, a newer credential counts, an older record of these kinds changes nothing |
| `Visibility.CatchingUpArrives` | src/main.rs:748-780 | after a drain every record past the old cursor whose merge did not fail has arrived, and the cursor is past it, at a record that did not fail, with only failures beyond |
| `Visibility.NewestDeleteHides` | src/store.rs:489-532 | in every state of every run a key whose newest seen write is a delete is not live |
| `Visibility.NewestPutShows` | src/store.rs:432-459 | in every state of every run a seen put newer than all else seen of its key is the live row |
| `Visibility.NewestCredentialCounts` | src/store.rs:1145-1162 | in every state of every run a seen credential newer than all others of its user is the one on record |
| `Visibility.DeletedEverywhere` | src/main.rs:741-782 | once synced, a delete newer than every put of its key holds at every site |
| `Visibility.ReadDeleted` | src/storage.rs:1155-1242 | a read of that key, at any site, then answers that there is no such key |
| `Visibility.DeleteThenGet` | src/storage.rs:1155-1242 | a delete that takes effect and then a get answer that there is no such key |
| `Convergence.Converges` | src/main.rs:741-782 | after any run, once every cursor is at its peer's log end, all sites have a row for the same objects and users, of the same age, and the same row for every key on which no writes tie for newest |
| `Convergence.ConvergesWholly` | src/main.rs:741-782 | with no such tie at all they hold the same objects and users |
| `Convergence.SavedCursorIsMerged` | src/store.rs:1008-1030 | every record at or below a saved cursor has been merged, however often pulls were cut short |
| `Convergence.CursorsOnlyAdvance` | src/store.rs:1021-1030 | over any run, no saved cursor ever moves back |
| `Convergence.RepullChangesNothing` | src/main.rs:748-780 | after a crash before the cursor was saved, merging an already merged record of a peer again leaves every table as it was, block sizes and locations included, if and only if it does not announce a block neither held nor queued, which is then queued |
| `Convergence.SyncedSweepSparesReferenced` | src/storage.rs:453-518 | once synced, a sweep at any site, forced or not, reaps no block named by any site's live row of a key without a tie, nor by that site's parts |
| `Holding.RunHolds` | src/storage.rs:453-518 | at a site whose sweeps spare unfinished uploads, the blocks of unfinished uploads, of parts and of uploads still current are all held, in every state of every run |
| `Durability.OriginKeepsItsBlocks` | src/storage.rs:1081-1153 | through any run whose sweeps at that site spare unfinished uploads, while the row an upload wrote is still current at the site that took it, that site holds every block it names |
| `Durability.HeldWhileCurrent` | src/store.rs:629-647 | whatever is swept, a manifest whose blocks a site holds at some moment keeps them there as long as it is current |
| `Durability.ManifestsResolve` | src/store.rs:381-398 | wherever an uploaded or completed manifest is the current row, each block it names has a size row and the origin among its holders: away from the origin in every run, at the origin when its sweeps spare unfinished uploads |
| `Durability.StoredBytesMatchTheirHash` | src/storage.rs:318-327 | at every site of every run the bytes under a hash have that hash, though fetched blocks are not rehashed, and every site's size row for it is their length, held there or not |
| `Durability.UploadReadsBack` | src/storage.rs:1105-1146 | in any later state in which the row is current at its origin, the blocks stored there join up to the uploaded body, with the sizes ranged reads need |
| `Durability.AnnouncedIsHeldQueuedOrSwept` | src/store.rs:1055-1074 | each block announced by a peer and merged here is held, queued, or was swept since it was last stored or announced; the announcer is a holder on record |
| `Durability.LeavesTheQueueOnlyWhenHeld` | src/storage.rs:557-611 | a hash leaves the queue only through the drainer, only when the block is held, and never because the block looks gone globally |
| `Durability.CompletionNamesTheParts` | src/storage.rs:1904-1924 | a completion's row names the parts' blocks in part order with the sum of their sizes |
| `Durability.CompletionKeepsBlocks` | src/storage.rs:1904-1949 | from reading the parts to long after the manifest is written, with any steps in between, no block of the parts goes missing, when the parts last until the manifest and the manifest stays current |
| `Durability.PartOrderIsUnique` | src/store.rs:768-792 | ascending part numbers fix the order of the parts |
| `GcRuns.UnforcedSweepHonoursGrace` | src/storage.rs:464-517 | a block reaped by an unforced sweep was recorded by an earlier sweep at least a grace period before, and every sweep since saw it held and unreferenced |
| `GcRuns.HeldThroughoutIff` | src/storage.rs:453-518 | a held block stays held up to a later state if and only if every sweep in between that saw it unreferenced was unforced and read a clock below its reap time, traced from sweeps, clocks and references alone |
| `GcRuns.UploadKeepsBlockIff` | src/storage.rs:332-347 | the same from an upload's storing or deduplicating a block to the manifest that names it |
| `GcRuns.GoneHasASweep` | src/storage.rs:453-518 | a block counted as swept was reaped by a sweep of that site and neither stored nor announced there since |
| `QueueRuns.AttemptsAreDeferrals` | src/store.rs:955-964 | a queue row's attempts are its deferrals since it was queued, and its next attempt is the last deferral's clock plus the capped doubling for that many failures |
| `Accounting.UsageIsPhysical` | src/store.rs:1084-1099 | in every state of every run size rows exist exactly for hashes with a holder, and the summed usage equals the bytes stored, each block once |
| `Counterexamples.TiesDiverge` | src/store.rs:465-487 | a run in which two sites create the same user with the same timestamp and end fully synced with different rows |
| `Counterexamples.GraceDoesNotCoverDedup` | src/storage.rs:332-347 | a run in which an unforced sweep takes a block an upload has just stored, and the upload ends with a live manifest whose block no one holds |
| `Counterexamples.RepeatedSweepReaps` | src/storage.rs:464-517 | a site whose repeated sweep at the same time reaps what the first kept |
| `Counterexamples.DelPrefixPanics` | src/hashing.rs:17-31 | a well-formed prefix whose listing panics |
| `Counterexamples.CursorBelowPrefixShowsForeignKey` | src/store.rs:561-585 | a cursor and prefix that show a key without the prefix |
| `Counterexamples.ScanCapHidesARow` | src/storage.rs:924-944 | a bucket of text keys in order whose delimiter listing leaves out a row and says it is complete |
| `Counterexamples.ListTooManyRows` | src/storage.rs:901-947 | the listing of that bucket returns that answer |
| `Counterexamples.StaleUploadIsLost` | src/store.rs:465-487 | an upload that changes no row |
| `Store.Store.constructor` | src/store.rs:123-148 | a new store is the empty site |
| `Store.Store.PutObjectRow` | src/store.rs:465-487 | the object row changes exactly when the timestamp is strictly newer, and nothing else does |
| `Store.Store.PutUserRow` | src/store.rs:1145-1162 | the user row changes exactly when the timestamp is strictly newer |
| `Store.Store.UpsertBlockLocation` | src/store.rs:337-358 | size row and holder row are each upserted by their own timestamp |
| `Store.Store.KeepBlock` | src/storage.rs:332-347 | a block not held is stored, recorded and announced in one go: its bytes are there and its announcement ends the log; a held one is left alone; it is held either way |
| `Store.Store.InsertObject` | src/store.rs:432-459 | the row is put and logged with one timestamp; a newer timestamp leaves a live row with those blocks, and no other key changes |
| `Store.Store.DeleteObject` | src/store.rs:516-532 | a tombstone is put and logged with one timestamp; a newer timestamp leaves the key deleted and naming no block, and no other key changes |
| `Store.Store.CreateUser` | src/store.rs:1124-1143 | the user row is put and logged with one timestamp; a newer timestamp leaves that credential, and no other user changes |
| `Store.Store.ApplyFact` | src/store.rs:1037-1082 | merging a record has the effect of the site model for all four kinds of record (spelled out by `MergeTakesEffect`), logs nothing, and queues an announced block not held here |
| `Store.Store.InsertPart` | src/store.rs:747-766 | the part is there afterwards with its blocks, size and etag; one uploaded again replaces its predecessor, every other part stays |
| `Store.Store.InsertMultipart` | src/store.rs:711-720 | the upload is on record with its name and nothing else changes |
| `Store.Store.DeleteMultipartUpload` | src/store.rs:734-745 | the upload and all its parts are gone, every other upload and part stays |
| `Store.Store.SetCursor` | src/store.rs:1021-1030 | a cursor ends at the later of where it was and where it is told to go; no other cursor moves |
| `Store.Store.MergePage` | src/main.rs:758-767 | the records whose merge succeeds are merged in order, and the returned cursor is the highest of them |
| `Pulling.CursorSkipsNothingIff` | src/main.rs:758-772 | the new cursor steps over no failed record if and only if every failure in the page follows every success |
| `Pulling.SkippedRecord` | src/main.rs:758-772 | a page of two records of which the first is passed over |
| `Pulling.PageIsARange` | src/store.rs:990-1005 | a page merges exactly the succeeding records of a range of sequence numbers and its cursor is the last of them |
| `Pulling.StaysPutIff` | src/main.rs:758-772 | on a full page the cursor stays put if and only if every merge fails |
| `Pulling.DrainEndsIff` | src/main.rs:748-780 | the drain of a peer ends if and only if no five hundred consecutive records after the cursor all fail |
| `Pulling.FailingPageSpins` | src/main.rs:748-780 | a log whose drain never moves on |
| `Store.Store.PullPage` | src/main.rs:748-780 | one pass of the loop merges the succeeding records of the next page, moves the cursor to the last of them and goes on exactly after a full page |
| `Store.Store.SyncPeer` | src/main.rs:748-780 | wherever the drain ends, every record after the old cursor is merged once, in order, but for those whose merge fails, and the cursor is at the last one merged |
| `Store.Store.ComputeLiveBlockSet` | src/store.rs:629-647 | exactly the hashes named by live objects or in-progress parts |
| `Store.Store.DeleteLocalBlock` | src/store.rs:691-706 | this site's location goes, the size row goes with the last location, and the answer says whether the block was held |
| `Store.Store.SweepOrphanedBlocks` | src/storage.rs:453-518 | the loop over held blocks, in any order, and the clean-up of stale entries together are the sweep function |
| `Maintenance.DrainEntry` | src/storage.rs:557-611 | a block a candidate answers for is held with that answer afterwards and off the queue when it can be stored; with a holder on record that cannot be had, or a block that cannot be stored, the entry stays with one more attempt and its backoff; an entry held here or with no holder is dropped; no other entry changes |
| `Handlers.DrainIsAStep` | src/storage.rs:557-611 | settling an entry is exactly the drain step of that entry with the outcome the answers decide, when peers answer with the bytes they store |
| `Handlers.RepairIsAStep` | src/storage.rs:358-379 | reading a block from a peer is exactly the repair step, or the requeueing when storing fails |
| `Handlers.UploadIsASegment` | src/storage.rs:1081-1153 | an upload is the segment that begins it, stores its chunks in order and writes its manifest, each step enabled and named |
| `Handlers.CompletionIsASegment` | src/storage.rs:1886-1958 | a completion is the three steps that read the parts, write the row that names them and end the upload, each enabled and named |
| `Handlers.PartIsASegment` | src/storage.rs:1819-1884 | uploading a part is the segment that begins it, stores its chunks in order and writes the part, each step enabled and named |
| `Handlers.CopyIsASegment` | src/storage.rs:1557-1602 | a copy is the two steps that read the source row and write the same blocks, size and etag under the target |
| `Handlers.StepsAreStoreCalls` | src/store.rs:489-532 | deletes, users, new and ended uploads, pulled records, saved cursors, requeueings and sweeps of the cluster change the site exactly as the store call does |
| `Handlers.SegmentExtendsRun` | src/main.rs:741-782 | a segment that starts where a run stands extends the run, so theorems about runs cover it |
| `Handlers.SyncIsASegment` | src/main.rs:748-780 | a synchronisation round is a restart, one pull per record after the cursor and one saved cursor, in that order, each enabled |
| `FullSync.EveryRunCanSync` | src/main.rs:741-782 | every run extends, by restarts, pulls and saved cursors alone, to one that ends fully synced with the same logs, where all sites hold the same objects and users if no writes tied for newest |
| `SiteReads.ReadsAgreeEverywhere` | src/storage.rs:349-408 | in every state of every run, at every site where an uploaded manifest is current, whatever can be had of its blocks is the uploaded chunks, recorded sizes are right, and a block can be had exactly when it is held or a known holder answers |
| `SiteReads.ReadAnywhere` | src/storage.rs:1155-1242 | a read at any such site returns a prefix of the bytes asked for with the right length, and all of them when every block is available |
| `Maintenance.SortedNumbers` | src/storage.rs:1904-1908 | the part numbers ascending, each once |
| `Maintenance.JoinParts` | src/storage.rs:1918-1924 | blocks joined and sizes added in part order |
| `Maintenance.CompleteMultipartUpload` | src/storage.rs:1886-1958 | refusals (no such upload, wrong key, bad part etag) happen exactly in their cases and change nothing; otherwise a newer timestamp leaves a live row with the parts' blocks in order and their sizes added, the log ends with it, and the upload and its parts are gone |
| `Maintenance.CopyObject` | src/storage.rs:1557-1602 | a live source, and no other, is copied: with a newer timestamp the target is live with the same row, one record is logged, and no bytes move |
| `Requests.PutObject` | src/storage.rs:1081-1153 | however the body is fed, exactly the chunks of the whole body are stored and one row names them with the body's size; a broken body leaves chunks and no row |
| `Requests.StoreBody` | src/storage.rs:1105-1140 | however the body is fed, exactly its chunks are stored, in order, with their hashes and total size; a broken body leaves some first chunks of it stored |
| `Requests.UploadPart` | src/storage.rs:1819-1884 | the part names the chunks of the body with its size; without the upload nothing changes, and a broken body leaves some first chunks stored and no part written |
| `Requests.RequestedIsWanted` | src/storage.rs:988-1011 | the resolved range of a body is exactly its wanted positions |
| `Requests.GetBlock` | src/storage.rs:349-408 | the bytes are the local copy or an answer of a known holder, there is an answer exactly when one of these is to be had, and a fetched block is held with that answer afterwards, or queued when storing fails |
| `Requests.ReadKeepsSources` | src/storage.rs:349-408 | reading a block, with its read repair, changes where no block's bytes come from |
| `Requests.GetObject` | src/storage.rs:1155-1242 | the exact cases of a missing key, an unsatisfiable range and a first block that cannot be had; the body is always a prefix of the bytes asked for and the length is right; with every block to be had the body is exactly those bytes |
| `RoundTrip.UploadTakesEffectIff` | src/storage.rs:1105-1146 | an upload changes the catalog if and only if its timestamp is newer than the row it meets, and its blocks are then all at hand and join up to the body |
| `RoundTrip.PutThenGet` | src/storage.rs:1081-1242 | put then get returns the requested range of the body, or refuses the range, for every body, feed splitting, chunker and range |
| `RoundTrip.PartsJoin` | src/storage.rs:1904-1924 | parts that hold the chunks of their bodies assemble to the joined bodies, with their size |
| `RoundTrip.CompleteThenGet` | src/storage.rs:1886-1958 | completing an upload and reading it back returns the requested range of the part bodies joined in part order, or refuses the range |
| `BlockList.EncodeBlocks` | src/store.rs:278-284 | the hashes one after another |
| `BlockList.DecodeBlocks` | src/store.rs:286-288 | 32-byte pieces that join up to the column without its short tail |
| `BlockList.RoundTripIff` | src/store.rs:278-288 | a block list survives the column if and only if every hash is 32 bytes long |
| `Chunking.Buffer.Process` | src/chunking.rs:40-78 | the chunks handed out stay the first chunks whatever arrives later, and no further chunk is ready |
| `Chunking.Buffer.Finalize` | src/chunking.rs:80-87 | what is left comes out as the last chunk, nothing for an empty buffer |
| `Chunking.ChunkBody` | src/chunking.rs:16-87 | streaming equals batch: for every feed splitting the chunks are those of the whole body cut at once |
| `Chunking.BatchShape` | src/chunking.rs:40-87 | chunks join up to the body, none is empty or over the maximum, all but the last reach the minimum |
| `Chunking.CutsWhereTold` | src/chunking.rs:40-87 | each content-defined chunk is as long as the cut of the body from where the chunk starts |
| `Chunking.FixedChunkAt` | src/chunking.rs:16-32 | fixed-size chunk i is bytes i*n to (i+1)*n of the body |
| `RangeRead.ResolveRange` | src/storage.rs:988-1011 | exactly the wanted positions, none if and only if no position is wanted |
| `RangeRead.SliceBlocksForRange` | src/storage.rs:1017-1033 | the slices stream exactly the bytes of the range that exist, in order, none empty, their lengths add up to it, and the first is in the block that holds the start of the range, none if there is no such block |
| `RangeRead.OverlapsAreTheWindow` | src/storage.rs:1017-1044 | the per-block overlaps joined are the range of the joined blocks |
| `Noise.NoiseStream.constructor` | src/noise_transport.rs:128-136 | all three buffers empty, both nonces zero |
| `Noise.NoiseStream.FlushWriteCipher` | src/noise_transport.rs:311-328 | exactly what the inner stream takes leaves the write buffer, in order, and none is lost; ready exactly when drained, pending or failed only because the inner stream was |
| `Noise.NoiseStream.PollWrite` | src/noise_transport.rs:236-283 | a payload is taken whole and sealed once, or not at all; a drained stream takes it, and pending means that what was left over is blocked |
| `Noise.NoiseStream.PollFlush` | src/noise_transport.rs:285-294 | flushing seals nothing, sends what the inner stream takes, and ready means drained |
| `Noise.NoiseStream.TryDecryptOneFrame` | src/noise_transport.rs:212-232 | more bytes are needed exactly when no whole frame is there; an opened frame is the frame of its plaintext under the next nonce |
| `Noise.NoiseStream.PollRead` | src/noise_transport.rs:153-206 | what was buffered and pulled is what was opened and left; plaintext at hand is handed out as far as there is room, and every other answer has its one cause: no room, a blocked or failed inner stream, an end at a frame boundary, an end inside a frame, a frame that does not open |
| `Noise.PiecesJoin` | src/noise_transport.rs:266-276 | the pieces of a payload join up to it and each fits one message |
| `NoiseLink.DeframeFrames` | src/noise_transport.rs:212-276 | in-order decryption of frames gives back their payloads |
| `NoiseLink.RunKeeps` | src/noise_transport.rs:153-328 | the link invariant holds in every state of every interleaving of polls of both ends |
| `NoiseLink.StreamIntegrity` | src/noise_transport.rs:153-328 | in both directions delivered + buffered + decryption of what is in flight equals what was accepted, frame i is sealed under nonce i once, and every length fits 16 bits |
| `NoiseLink.NothingRejected` | src/noise_transport.rs:212-232 | in every state of every run a whole frame at the front of a read buffer opens |
| `NoiseLink.EofIsCleanIff` | src/noise_transport.rs:187-200 | the end of stream is clean if and only if the bytes sent were a whole number of frames, and a flushed sender's plaintext has then all been delivered |
| `NoiseLink.WriteFromLeft` | src/noise_transport.rs:236-283 | a write poll of the left end is a step of the link that accepts the whole payload or nothing, and accepts it when nothing is waiting to be sent |
| `NoiseLink.WriteFromRight` | src/noise_transport.rs:236-283 | the same of the right end |
| `NoiseLink.ReadAtLeft` | src/noise_transport.rs:153-206 | a read poll of the left end is a step of the link, never rejects a frame, reports a clean end only after whole frames and the mid-frame failure only after a partial one, and delivers when there is room and plaintext at hand or complete on the wire |
| `NoiseLink.ReadAtRight` | src/noise_transport.rs:153-206 | the same of the right end |
| `KeyOrder.IncrementPrefix` | src/hashing.rs:17-31 | the least string above all strings with the prefix, none when there is none, a panic exactly when it is not UTF-8 |
| `KeyOrder.PrefixRange` | src/hashing.rs:13-15 | the computed range holds exactly the keys with the prefix |
| `KeyOrder.IncrementPanicsIff` | src/hashing.rs:17-31 | for a UTF-8 prefix the panic happens if and only if its last byte is 0x7F or 0xBF |
| `Listing.ListObjects` | src/store.rs:538-613 | the first rows of the selection, truncated exactly when there are more |
| `Listing.PrefixSelects` | src/store.rs:538-613 | without a cursor the selection is exactly the rows whose key has the prefix |
| `Listing.CursorKeepsPrefixIff` | src/store.rs:561-585 | with a cursor only keys with the prefix are shown, whatever the bucket holds, if and only if the prefix is not above the first key after the cursor |
| `Listing.NextPage` | src/store.rs:538-613 | continuing after the n-th selected row selects exactly the rows after it |
| `Listing.ListAll` | src/store.rs:538-613 | paging from no cursor terminates and shows every row under the prefix once, in order |
| `Listing.Gather` | src/storage.rs:925-942 | the scan collects the first 100 000 selected rows |
| `Grouping.GroupByDelimiter` | src/storage.rs:956-983 | the rows in which the delimiter does not occur after the prefix, in order, and for the others the key up to its first occurrence, where it first appears |
| `Grouping.CollapsesIff` | src/storage.rs:968-980 | a key collapses to a prefix if and only if it starts with the listing prefix and the delimiter occurs after it, and then it is the key through the first occurrence |
| `Grouping.ShownResumes` | src/storage.rs:1049-1077 | the answer is truncated exactly when a row is left out; the token is then the greatest name shown and every row left out sorts after it |
| `Grouping.GroupPage` | src/storage.rs:943-947 | the page of a sorted scan, with what it shows and where it resumes |
| `Grouping.ShownOnce` | src/storage.rs:956-983 | each row is a content under no listed common prefix, or no content and under exactly one |
| `Grouping.CommonNotNested` | src/storage.rs:968-980 | different common prefixes are never nested |
| `Grouping.CommonsSorted` | src/storage.rs:968-980 | for sorted rows the common prefixes come out strictly sorted |
| `Grouping.TailCheckSuffices` | src/storage.rs:972-976 | for sorted rows a common prefix seen before is the last one, so the tail check alone deduplicates |
| `Grouping.MergeAndTruncate` | src/storage.rs:1049-1077 | the first max_keys of the sorted union, split again; truncated exactly when there are more; the token is the last name shown |
| `Grouping.SortedUnionIsOutline` | src/storage.rs:1049-1077 | grouping, joining and sorting is the one-pass outline of the rows |
| `Grouping.OutlineInOrder` | src/storage.rs:956-983 | the outline of sorted rows is strictly sorted |
| `Grouping.ListGrouped` | src/storage.rs:901-947 | a page is the first max_keys of the outline of the scan; it shows only rows of the scan, or their common prefixes by first occurrence; it is truncated exactly when a row is left out, and its token is then the greatest name shown, which every row left out sorts after |
| `Grouping.ScanCapHarmlessIff` | src/storage.rs:924-944 | the capped scan answers as the whole bucket would if and only if it fills more than the page or every row past it collapses into a common prefix it already has |

## Left out

- Store calls in pieces: one sweep, the drain of one queue entry, storing a block and merging an announcement are each one step of the cluster. In the source other requests can interleave with the store calls of a sweep or a drain; storing a block is a look-up, a write of the bytes and a store call, so two concurrent uploads of one block can both announce it; and merging an announcement locks once for its rows and once for the queue.
- Failures of the local database or disk inside a request: every store call succeeds, except that merges, fetches, promotions and body streams may fail where the members above say so.
- Store.Store.SyncPeer: the records whose merge fails are the same on every attempt within one drain, and it is called only where the drain ends, which `DrainEndsIff` characterises; the cluster's runs take merges that succeed.
- Handlers.SyncIsASegment: a round whose merges all succeed; rounds with failing merges are covered by `SyncPeer` and `DrainEndsIff`, not as cluster steps.
- Counterexamples.TiesDiverge: uses users; object rows tie in the same way.
- Durability.UploadReadsBack: takes sweeps at the origin that spare unfinished uploads (`UploadKeepsBlockIff` says exactly which blocks survive otherwise), and a digest without collisions, as do the other statements that identify bytes by their hash.
- RoundTrip.PutThenGet: takes a digest without collisions, and a store whose index is sound, which `RunSound` gives.
- RoundTrip.CompleteThenGet: takes the same, and parts all cut by one chunking strategy.
- Handlers.DrainIsAStep: peers answer with the bytes they store; the source trusts them too.
- Chunking.ChunkBody: the content-defined cut is a parameter with its bounds and the stability of cuts inside the buffer; FastCDC itself is not part of this model.
- Noise.NoiseStream.PollRead: ciphers are a parameter with opening as the exact inverse of sealing; the handshake, key derivation and the exhaustion of 2^64 nonces are not modelled.
- The stream's shutdown, which flushes and then closes the inner stream.
- Listing.ListAll: works on a fixed snapshot of the bucket's live rows in key order; rows are given, not read from the catalog.
- Grouping.ListGrouped: one page; a continuation token may be a common prefix, which the next page does not skip.
- Blob storage is a map from hash to bytes; the file id is kept as data only.
- Replication queue rows of other target sites, the order and page limit of a drain, and the stuck-entry report.
- Object and part etags are given values; MD5, hex and JSON are not modelled.
- Shard ids, which nothing reads for placement.
- Request authorisation, the policy engine, the disk guard and quota checks: runs without them include the runs with them.
- Membership, peer gossip and the cluster clock: a fixed full mesh, and arbitrary timestamps.
- HTTP and S3 plumbing, configuration, command line, bucket and multipart-upload listings.
