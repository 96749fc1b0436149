# Firmware catalogue, sign-in and accounts: a Dafny model

The service keeps a catalogue of device firmware in a directory tree and serves it with an
in-memory index, delta feeds, an audit log, a device-flow sign-in and passkey accounts. This
project models those parts and proves what they keep.

**Store** (`names`, `manifests`, `tree`, `store_spec`, `scanning`, `store`, `egress`). A `Disk` is
the tree: version directories of `firmware/` and `staging/`, and the uploads in `incoming/`. An
`Index` is the cache: live manifests, staged manifests, sha to path. `StoreSpec` says on values what
each operation does to tree, index and notification count. The class `Store.Store` performs the
operations in place, with the loops the program has, and each of its methods is proved equal to
its specification function. About those functions it is then proved: the patched index is always
what a rescan builds (`store_cache`), every file a manifest names has the content it promises
(`store_invariant`, `store_runs`), the live and staged maps are a replay of the successful
operations over the ones a run started from (`store_history`), and where each guarantee stops, with
runs that break it (`store_limits`). `store_answers` says of each operation what it answers and what
it leaves in the tree: one condition per answer, on the arguments, the index and the tree alone. What concerns only the index asks nothing about file contents:
a manifest that repeats a file name is as good as any other there.

**Crashes** (`crash`, `crash_atomicity`, `crash_serving`, `crash_runs`, `crash_limits`). Each
operation is also a plan: its filesystem calls in program order, torn writes included. A crash keeps
any prefix of a plan and is followed by a fresh open (reap temporary names, scan). Publishing,
uploading, approving, collecting and staging a fresh key recover the index from before or after.
Removing a staged directory, for a rejection or a re-stage, is not atomic: how far that reaches is
stated exactly, and it can reach a live version, because staged paths win over live ones and
because a torn entry can still be approved.

**Feeds** (`feeds`, `store_feeds`). Writers change the catalogue and then bump a generation;
readers subscribe, snapshot, wait, read. Writing, bumping, waking and reading are separate steps,
interleaved at will. The two delta feeds are folds over the snapshots a reader takes.

**Audit log** (`audit`, `audit_stream`, `audit_overlap`). The table with retention, incremental
reads and paging; the watch stream against appends whose statements (insert, window delete, count,
select, surplus delete, bump) are separate steps of any number of calls, between the reader's
subscription, wakes and reads. One append at a time the stream is sound with no further condition;
overlapping appends need the guards under which each deletion spares the newest row, which even
clocks that only move forward do not give.

**Sign-in** (`logins`, `sessions`, `login_runs`, `login_answers`). The two linked maps and the session table as
classes; runs in which the two inserts of `begin`, the lookup of a user code, the decision, and the
mint and revoke of `decide_login` are separate steps of any number of concurrent calls. What each poll
and decision answers is fixed by the log of events before it and the clock.

**Accounts** (`accounts`, `account_runs`). Read-modify-write of one record per user behind a unique
email column, unique up to letter case and outer white space; first call by call, then with every statement of every call interleaved.

Foreign code enters as parameters. `Env` carries the digest, the manifest and text codecs, the
device catalogue and the blob cap; `EnvOk` asks only that digests are well-formed and that the
codecs round-trip. Clocks, random names, random codes, outcomes of the passkey ceremony and
failures of the mirror are arguments.

The store's guarantees need three things of its callers that the code does not check, and each is
shown to be needed by an equivalence and a run: submitters are trimmed (`StageCacheIff`,
`StagingUntrimmed`), a staged key is not published directly (`PublishCacheIff`,
`PublishingStagedKey`), and blobs of one manifest that share a file name share their content
(`VersionDirHolds`, `SharedFileName`). Three more limits are the code's own: a crash while a staged
directory is being removed can leave a live version's blob unreadable (`RejectServesIff`,
`StageServesIff`, `LiveBlobLost`, `TornApproved`), a change to an account that overlaps another call
on it can be undone (`ChangeSticksIff`, `RemovalCanBeUndone`), and audit appends that overlap can
delete the row just appended (`OverlappingSound`, `ForwardClocksMislead`).

Where code and comments disagree, the model follows the code. The comment on `download` says only
blobs of live or staged manifests are served (src/store/blobs.rs:75-76); the code serves every
indexed blob, uploads included (`UnreferencedServed`), and so does `Egress.Download`.

## Model

| member | source | states |
|---|---|---|
| `Names.VersionShape` | src/store/mod.rs:143-158 | the segment-wise version parser accepts exactly the strings of at most 100 characters made of digits with single inner dots |
| `Names.NameSpacesDisjoint` | src/store/mod.rs:106-157 | no valid version or digest can be taken for a temporary name, and no blob file name for the manifest or the submitter file |
| `Names.Trim` | src/store/index.rs:61-64 | trimming leaves a trimmed name, and changes nothing exactly when the name was trimmed |
| `Names.TrimCuts` | src/store/index.rs:61-64 | what trimming returns is the name without white space at its ends, and nothing else is lost |
| `Names.ContainsIff` | src/store/blobs.rs:181-184 | the substring test behind temporary names and unsafe file names finds a position if and only if there is one |
| `Manifests.KeyOf` | src/store/mod.rs:173-189 | a manifest that claims valid coordinates gets exactly those, any other an invalid-argument error |
| `Manifests.KeyOrder` | src/store/mod.rs:166-171 | keys are totally ordered, device first: the order the sorted maps are walked in |
| `Tree.PathsDistinct` | src/store/mod.rs:252-266 | two paths built from parsed names are the same file only if area, key and file, or upload, are the same |
| `Tree.RebuildShape` | src/store/index.rs:82-123 | the rebuilt sha to path map holds exactly the uploads with digest names and the shas manifests carry; a carried sha points into a version directory whose manifest names that file for it, any other at its upload |
| `Tree.RebuildOwner` | src/store/index.rs:96-121 | which copy a carried sha is sent to: staged before live, the greatest key within an area, the last entry within a manifest |
| `Tree.RebuildIgnoresOwned` | src/store/index.rs:82-123 | uploads of shas that a version directory carries never affect the rebuilt map |
| `Scanning.ScanLiveDirs` | src/store/index.rs:48-57 | visiting directories in any order indexes exactly those the scan accepts |
| `Scanning.ScanStagedDirs` | src/store/index.rs:58-77 | the same for staging, with the trimmed submitter |
| `Scanning.OverlayStep` | src/store/index.rs:96-121 | inserting manifests in ascending key order makes the greatest owner win, one manifest at a time |
| `Scanning.AddManifests` | src/store/index.rs:96-121 | the insertion loop yields the overlay defined by greatest owners |
| `Scanning.RebuildBlobPaths` | src/store/index.rs:85-123 | pool, then live, then staged: the three loops build the specified map |
| `Scanning.ScanTree` | src/store/index.rs:48-80 | the whole scan equals its specification |
| `Scanning.GcTmpArtifacts` | src/store/index.rs:214-249 | deleting while iterating removes exactly the temporary names of all three areas |
| `Store.Store.Open` | src/store/mod.rs:221-241 | opening reaps, then indexes the reaped tree, and has announced nothing |
| `Store.Store.Validate` | src/store/catalog.rs:21-65 | the checks in order, each with its error, and on success the parsed blob list |
| `Store.Store.CopyBlobs` | src/store/catalog.rs:305-319 | copies succeed exactly when every source is readable and every target name can exist; then the build directory holds the copies, a later entry overwriting an earlier one, else the tree is as before |
| `Store.Store.WriteVersionDir` | src/store/catalog.rs:295-335 | the key's directory becomes the specified one, or the tree is untouched and the error reported |
| `Store.Store.Publish` | src/store/catalog.rs:67-91 | performs exactly the step the cache, crash and history theorems are about: a refusal changes nothing; a success places the directory, indexes it, forgets a staged entry of the key, sweeps, and announces once |
| `Store.Store.Stage` | src/store/catalog.rs:93-125 | likewise for a submission: the quota applies unless the user already owns the key, and an overwritten submission is replaced as a whole |
| `Store.Store.CountStagedBy` | src/store/catalog.rs:96-102 | the count loop equals the number of keys the user has staged |
| `Store.Store.Approve` | src/store/catalog.rs:151-200 | likewise: the staged directory moves, loses its submitter file and is indexed as live; a key already live has its submission rejected and reports so; a blocked rename changes nothing |
| `Store.Store.Reject` | src/store/catalog.rs:202-221 | likewise: only the staged entry goes, from tree and index; an unknown one is reported and nothing changes |
| `Store.Store.PutBlob` | src/store/blobs.rs:18-42 | likewise: new bytes are stored under their digest, an upload already there keeps its bytes and time, an indexed sha keeps its path |
| `Store.Store.GetBlob` | src/store/blobs.rs:44-62 | bytes are returned only if they digest to the sha asked for |
| `Store.Store.SweepIncoming` | src/store/blobs.rs:119-144 | the deletion loop removes exactly the uploads a version directory owns |
| `Store.Store.GcIncomingBefore` | src/store/blobs.rs:158-221 | the deletion loop removes exactly the abandoned uploads and counts them |
| `Store.Store.Reload` | src/store/index.rs:32-45 | the index becomes the rescan; announced exactly when a key set changed |
| `StoreAnswers.StageAnswers` | src/store/catalog.rs:93-125 | a submission is accepted if and only if the manifest may become live, its file names can be created, and the user owns the key's entry or has fewer than 32; each refusal has its own condition and changes nothing |
| `StoreAnswers.RestageAccepted` | src/store/catalog.rs:96-104 | right after a successful stage its user may stage any such manifest under the key again, however many entries they have |
| `StoreAnswers.PublishAnswers` | src/store/catalog.rs:67-91 | the same for a publication, without a quota |
| `StoreAnswers.VerdictAnswers` | src/store/catalog.rs:21-65 | exactly when each validation error is given, and which missing blob is named |
| `StoreAnswers.StageWrites` | src/store/catalog.rs:107-125 | the key's directory gets a file per blob, the manifest and the submitter, no other directory changes, and exactly the uploads go that some directory has a file for |
| `StoreAnswers.PublishWrites` | src/store/catalog.rs:67-79 | the same for a publication, without a submitter |
| `StoreAnswers.ApproveAnswers` | src/store/catalog.rs:151-200 | when an approval gives each answer; the staged directory moves without the submitter's file, and nothing else of the tree changes |
| `StoreAnswers.RejectAnswers` | src/store/catalog.rs:202-221 | when a rejection gives each answer, and what it removes |
| `StoreAnswers.PutBlobAnswers` | src/store/blobs.rs:18-42 | an upload is taken exactly from one byte up to the cap, under its digest, dated now unless it was there before |
| `StoreAnswers.GcAnswers` | src/store/blobs.rs:146-221 | an upload is kept exactly if it is temporary, mentioned by a manifest, or not older than the cutoff |
| `StoreAnswers.UploadLifetime` | src/store/blobs.rs:146-221 | a fresh upload survives a collection exactly if the cutoff is not later than its time or a manifest mentions it |
| `StoreAnswers.ScanAnswers` | src/store/index.rs:48-80 | for every tree: exactly which directories are indexed, with which manifest and submitter |
| `StoreAnswers.ReapAnswers` | src/store/index.rs:214-249 | opening drops exactly the temporary names |
| `StoreAnswers.ReloadAnswers` | src/store/index.rs:32-45 | a reload reports and announces a change exactly if some key came or went |
| `StoreCache.CacheEqualsRescan` | src/store/index.rs:32-123 | after any run of operations (submitters trimmed, no staged key published directly) the patched index equals a full rescan, a reload reports no change and announces nothing, and a restart recovers the same index |
| `StoreCache.StepCached` | src/store/index.rs:20-45 | each single operation keeps the index equal to a rescan |
| `StoreCache.PublishCacheIff` | src/store/catalog.rs:67-91 | a successful publish leaves the index equal to a rescan if and only if the key was not staged |
| `StoreCache.StageCacheIff` | src/store/catalog.rs:93-125 | a successful stage leaves the index equal to a rescan if and only if the submitter is trimmed |
| `StoreCache.SweepKeepsPaths` | src/store/blobs.rs:120-144 | sweeping removes only redundant copies: the index is the same before and after |
| `StoreCache.ReapInvisible` | src/store/index.rs:214-249 | for every tree, reaping temporary names does not change what a scan finds |
| `StoreInvariant.AdmittedIff` | src/store/catalog.rs:21-65 | exactly which manifests validation admits |
| `StoreInvariant.AllCopyable` | src/store/catalog.rs:305-318 | an admitted manifest can fail to be written only for a file name that cannot exist, and then it does fail |
| `StoreInvariant.VersionDirHolds` | src/store/catalog.rs:305-319 | the written directory holds what its manifest promises if and only if equal file names mean equal digests |
| `StoreInvariant.PathContent` | src/store/blobs.rs:18-62 | every indexed path leads to a file whose bytes digest to the indexed sha, although copies are not re-hashed |
| `StoreInvariant.StepKeeps` | src/store/catalog.rs:67-221 | every admissible operation keeps the whole store invariant: cache, contents, and no key both live and staged |
| `StoreInvariant.StageKeeps` | src/store/catalog.rs:93-125 | staging, and re-staging over another submission, keeps it |
| `StoreInvariant.PublishKeeps` | src/store/catalog.rs:67-91 | publishing an unstaged key keeps it |
| `StoreInvariant.ApproveKeeps` | src/store/catalog.rs:151-200 | approving keeps it; the moved directory serves the approved manifest |
| `StoreInvariant.PutBlobKeeps` | src/store/blobs.rs:18-42 | uploading keeps it |
| `StoreInvariant.ReopenKeeps` | src/store/mod.rs:221-241 | a restart keeps it and recovers the same index |
| `StoreRuns.GetBlobSound` | src/store/blobs.rs:44-62 | in every sound state a read answers exactly the indexed shas, with bytes of that digest, and never fails verification |
| `StoreRuns.NamedBlobsServed` | src/store/blobs.rs:158-171 | after any admissible run every blob named by a live or staged manifest is served intact |
| `StoreRuns.GcExact` | src/store/blobs.rs:146-221 | collection removes exactly the uploads both unreferenced and older than the cutoff, counts them, and makes nothing else unavailable |
| `StoreRuns.RejectExact` | src/store/catalog.rs:202-221 | a rejection makes unavailable exactly the shas held nowhere else |
| `StoreRuns.SweepConserves` | src/store/blobs.rs:119-144 | sweeping and restarting change no availability |
| `StoreRuns.ApproveConserves` | src/store/catalog.rs:151-200 | approving changes no availability |
| `StoreRuns.SubmissionExact` | src/store/catalog.rs:67-125 | an upload makes its digest available; staging and publishing add none and lose exactly the digests that a replaced submission alone held and the new manifest does not name |
| `StoreRuns.UnreferencedServed` | src/store/blobs.rs:74-79 | an uploaded blob that no manifest mentions is served |
| `StoreRuns.LiveIsImmutable` | src/store/catalog.rs:61-63 | once live, a version keeps its manifest and every file under any later operations and restarts, admissible or not |
| `StoreRuns.RunKeeps` | src/store/catalog.rs:67-221 | the store invariant holds after every admissible run |
| `StoreHistory.CatalogueIsReplayOfLog` | src/store/catalog.rs:67-221 | from any start without overlap, the live and staged maps are what the log of successful operations makes of the starting ones, and no key is ever in both |
| `StoreHistory.LiveWasLastSubmitted` | src/store/catalog.rs:151-221 | a live manifest was live from the start, was published directly, or was the last submission for its key, untouched until its approval: a rejected or overwritten submission never goes live |
| `StoreHistory.LiveOrigin` | src/store/catalog.rs:159-200 | the log-level form: every live manifest was there from the start or has such an event |
| `StoreHistory.RunSettled` | src/store/catalog.rs:67-221 | whatever the file names in the manifests, orderly runs keep the index right and live and staged apart |
| `StoreHistory.StepAnnounces` | src/store/mod.rs:243-250 | each successful catalogue change is announced once, and nothing else is |
| `StoreHistory.StagedByPut` | src/store/catalog.rs:95-119 | one stage moves at most one unit: to the submitter, from whoever held the key |
| `StoreHistory.QuotaOverRuns` | src/store/catalog.rs:95-109 | started within quota, no run gives any user more than 32 staged entries, also when one user overwrites another's |
| `StoreLimits.PublishingStagedKey` | src/store/catalog.rs:71-76 | upload, stage, publish the same key: the index differs from a rescan and a restart finds the key live and staged |
| `StoreLimits.StagingUntrimmed` | src/store/index.rs:61-64 | upload, stage under an untrimmed name: the index differs from a rescan |
| `StoreLimits.SharedFileName` | src/store/catalog.rs:305-317 | two different blobs under one file name are admitted, and the first can no longer be served |
| `Crash.TemporaryPrefix` | src/store/index.rs:214-249 | any prefix of calls on temporary names leaves a tree that reaps to the same tree |
| `CrashAtomicity.ReapInterrupted` | src/store/index.rs:214-249 | a reap stopped after any of its calls, in any order, is finished by the next open: the same tree and the same index |
| `Crash.BuildBuilds` | src/store/catalog.rs:302-327 | the build calls, torn writes and scratch files included, end with exactly the specified directory under the temporary name |
| `CrashAtomicity.PublishCrash` | src/store/catalog.rs:67-91 | stopped after any number of calls and reopened, the index is the one before or the one after, whatever the file names; the contents are sound when equal names mean equal content; run to the end the calls give the specified tree |
| `CrashAtomicity.StageCrash` | src/store/catalog.rs:93-125 | the same for staging a fresh key; a stopped re-stage may instead leave its own entry nameless or gone, with every other staged directory, every upload and every live directory as it was, and every path that did not lead into the old directory |
| `CrashAtomicity.ApproveCrash` | src/store/catalog.rs:176-198 | stopped before the rename nothing has happened, after it the approval has, whether or not the submitter file is gone |
| `CrashAtomicity.RejectCrash` | src/store/catalog.rs:202-221 | a stopped rejection leaves the entry as it was, nameless or gone; every other staged directory, upload and live directory keeps its bytes, and every path that did not lead into the rejected directory stays; run to the end the entry is gone |
| `CrashAtomicity.GcCrash` | src/store/blobs.rs:158-221 | a stopped collection leaves the catalogue alone and has made unavailable exactly the uploads deleted so far |
| `CrashServing.RejectServesIff` | src/store/index.rs:116-121 | stopped anywhere, files removed in any order, a rejection leaves every blob of every live version served if and only if none of them is read from the rejected directory |
| `CrashServing.StageServesIff` | src/store/catalog.rs:328-331 | the same for staging: all stops serve every live version if and only if no live blob is read from the directory being replaced |
| `CrashServing.RejectIndexIff` | src/store/catalog.rs:202-221 | a stopped rejection always recovers the index before or after if and only if the submission carries no submitter |
| `CrashServing.StageIndexIff` | src/store/catalog.rs:328-331 | a stopped stage always recovers the index before or after if and only if the key is not already staged |
| `CrashServing.RestageLoses` | src/store/catalog.rs:328-331 | stopped once the old directory is gone, a re-stage has lost the submission: neither the old nor the new one is found |
| `CrashServing.TornServes` | src/store/blobs.rs:44-62 | after such a stop, whatever was not read from the torn directory is served as before |
| `CrashLimits.LiveBlobLost` | src/store/index.rs:116-121 | the run: publish, stage the same content under another key, reject it and crash after one unlink; the first version is live and its blob cannot be read |
| `CrashLimits.TornApproved` | src/store/catalog.rs:151-200 | the run: stage, start rejecting, crash after one file, approve what the restart shows as staged: the version is live and its blob cannot be read |
| `CrashAtomicity.UploadCrash` | src/store/index.rs:183-197 | a stopped upload is invisible until its rename and complete after it |
| `CrashAtomicity.AbandonedBuild` | src/store/catalog.rs:338-371 | dropping the build directory after any number of build calls restores the tree |
| `CrashRuns.LiveSurvivesCrashes` | src/store/catalog.rs:293-335 | once live, a version keeps its manifest and files through any history of operations, restarts and crashes between any two filesystem calls |
| `CrashRuns.HistoryCached` | src/store/index.rs:32-123 | over histories with crashes anywhere the index equals a full rescan |
| `CrashRuns.HistoryKeeps` | src/store/catalog.rs:293-335 | the whole store invariant survives histories whose crashes spare the removal of staged directories |
| `CrashRuns.HistoryServes` | src/store/blobs.rs:44-62 | after such a history every blob of every live version is served intact |
| `CrashRuns.PlanSpares` | src/store/catalog.rs:151-221 | no filesystem call of any operation touches the directory of a live key |
| `Egress.Mirror.PutIfAbsent` | src/mirror.rs:85-97 | an object present is never replaced; exactly when an object is added, and when success is reported |
| `Egress.Download` | src/store/blobs.rs:74-117 | whatever mirror calls fail: a URL exactly if the mirror answers, signs, and has or takes the object, else the verified local bytes; exactly when the object is added to the bucket and that nothing else in it changes; nothing exactly for an unindexed sha, and no error that the local copy does not give |
| `Feeds.NoLostWakeup` | src/services/mod.rs:154-175 | in every interleaving, a blocked reader with no write awaiting its bump has read the current state |
| `Feeds.SnapshotsGrow` | src/services/firmware.rs:113-126 | when writers only add, a reader's snapshots form a growing chain below the current catalogue |
| `Feeds.ListFirmware` | src/store/catalog.rs:223-231 | the list holds exactly the live manifests of the device asked for, one per key, in key order |
| `Feeds.ListedKeys` | src/store/catalog.rs:223-231 | by coordinates: a listing has exactly the live versions of the device asked for, or all of them |
| `Feeds.CountedKeys` | src/store/catalog.rs:244-256 | by coordinates: each catalogued device is listed with the number of its live versions, if any |
| `Feeds.Devices` | src/store/catalog.rs:244-256 | the tally loop gives each catalogued device its number of live versions |
| `Feeds.FirmwareFeed.Poll` | src/services/firmware.rs:124-146 | one read sends exactly the entries of keys not sent before, nothing on a spurious wake, always on the first read |
| `Feeds.FollowFirmware` | src/services/firmware.rs:104-149 | the batches of a whole stream concatenate to what the feed has to send, and only the first may be empty |
| `Feeds.DeviceFeed.Poll` | src/services/firmware.rs:80-99 | one read sends exactly the devices whose count is new or changed |
| `Feeds.FollowDevices` | src/services/firmware.rs:70-102 | a client merging the batches of a whole stream holds the specified view |
| `Feeds.AdditionsFacts` | src/services/firmware.rs:128-137 | exactly one entry per new key, none for a key sent before |
| `Feeds.FirmwareFeedExact` | src/services/firmware.rs:104-149 | all batches together list the last snapshot, each key once |
| `Feeds.DeviceFeedExact` | src/services/firmware.rs:70-102 | merging all batches by device gives the counts of the last snapshot |
| `Feeds.FeedsEqualFullView` | src/services/firmware.rs:70-149 | over every interleaving both clients hold the catalogue at their last read, and the current one whenever the feed is quiet |
| `StoreFeeds.StepOnlyGrows` | src/store/catalog.rs:61-63 | every store operation is a write of the kind the feeds rely on |
| `StoreFeeds.Unannounced` | src/store/mod.rs:243-250 | an operation that wakes nobody has left the live set alone |
| `StoreFeeds.FeedsFollowStore` | src/services/firmware.rs:70-149 | over any interleaving of store operations, bumps, wakes and reads both clients hold the catalogue at their last read, and the store's own whenever the feed is quiet |
| `AuditLog.Audit.Append` | src/db/audit.rs:54-87 | insert, window prune and surplus prune leave the newest at most 50,000 rows of those inside the window |
| `AuditLog.KeptIff` | src/db/audit.rs:65-84 | a row survives an append if and only if it is at most 90 days older than it and fewer than 50,000 such rows are newer |
| `AuditLog.NewestSurvives` | src/db/audit.rs:54-87 | under any clock the row just appended survives, so the greatest key goes up by one |
| `AuditLog.KeysNeverReused` | src/db/audit.rs:54-87 | over any sequence of appends the n-th gets the n-th next key |
| `AuditLog.Audit.TakeSnapshot` | src/db/audit.rs:102-110 | the newest rows and the table's greatest key |
| `AuditLog.Audit.TakePage` | src/db/audit.rs:127-156 | the page and cursor the specification gives |
| `AuditLog.PageExact` | src/db/audit.rs:127-156 | for every cursor and limit: a row is on the page if and only if it matches, lies below the cursor, and fewer than the limit of such rows are newer; the next cursor is 0 exactly if fewer than the limit match, else the page's smallest key |
| `AuditLog.ReadingsExact` | src/db/audit.rs:102-122 | exactly which rows a snapshot and an incremental read show |
| `AuditLog.WalkExact` | src/db/audit.rs:124-156 | following cursors to 0, over a table that changes between pages, gives strictly descending matching rows, each once, with every matching row that survives throughout |
| `AuditLog.WalkIsWholeLog` | src/db/audit.rs:124-156 | over an unchanging table the pages concatenate to the whole matching log, newest first |
| `AuditLog.FilterPagewise` | src/services/firmware.rs:401-412 | filtering each page by category is filtering the whole walk |
| `AuditStream.StreamSound` | src/services/mod.rs:180-218 | from a fresh start, for every run whose appends do not overlap and any clocks: batches carry strictly newer rows, nothing is missed while no read was capped or overtaken, and a quiet reader stands at the greatest key |
| `AuditStream.OverlappingSound` | src/services/mod.rs:180-218 | for every interleaving of any number of appends batches carry strictly newer rows, and the rest holds whenever each deletion runs under its guard |
| `AuditStream.SparesIff` | src/db/audit.rs:65-84 | the exact guards: the window delete spares the newest row if and only if that row is inside this call's window, the surplus delete if and only if it ends below the newest key; no other statement takes it |
| `AuditStream.SelectedBelowIff` | src/db/audit.rs:75-79 | the selection ends below the newest key if and only if there are more rows than the surplus counted before |
| `AuditStream.GuardedKept` | src/db/audit.rs:65-84 | under those guards, checked when each statement runs, no step of any interleaving takes the newest row |
| `AuditStream.SerialGuarded` | src/db/audit.rs:54-87 | one append at a time, the guards always hold, under any clock |
| `AuditStream.AppendInOneGo` | src/db/audit.rs:54-87 | the statements in a row, with nothing between them, are the whole append |
| `AuditStream.TakenMisleads` | src/db/audit.rs:65-84 | any deletion that takes the newest row leaves a reader who had it beyond the table, and the next row reuses a key and is not delivered |
| `AuditOverlap.ForwardClocksMislead` | src/db/audit.rs:54-87 | the run: two overlapping appends on a full log, clocks only moving forward, empty the log; a quiet reader stands beyond it and the next row is not delivered |
| `AuditStream.ReadCompleteIff` | src/db/audit.rs:112-122 | an incremental read delivers every row inserted beyond the cursor if and only if none was pruned first and at most 500 are there |
| `AuditStream.SinceShape` | src/db/audit.rs:114-122 | a batch is newest first, all beyond the cursor, headed by the greatest key |
| `AuditStream.LateSubscriptionMisses` | src/services/mod.rs:177-197 | subscribing only after the snapshot leaves a quiet reader short of the table |
| `LoginStore.LoginTable.SweepExpired` | src/login.rs:257-267 | the loop removes the expired requests and their user codes |
| `LoginStore.LoginTable.Begin` | src/login.rs:99-136 | performs exactly the step the linked-map lemmas are about: sweep first, then the cap, then the codes, then both inserts under the normalised code |
| `LoginStore.LoginTable.Poll` | src/login.rs:139-170 | pending and denied requests stay, a grant or an expiry removes the request from both maps |
| `LoginStore.LoginTable.Approve` | src/login.rs:198-226 | only an open request is granted, by the mint's token; announced only if accepted |
| `LoginStore.LoginTable.Deny` | src/login.rs:229-255 | only an open request is denied; announced only then |
| `LoginStore.SweepExact` | src/login.rs:257-267 | the sweep keeps exactly the unexpired requests and exactly their user codes |
| `LoginStore.BeginKeeps` | src/login.rs:99-136 | with fresh codes the maps stay mutually inverse and within 4096; refused exactly when 4096 unexpired requests are stored |
| `LoginStore.NormalizeIdempotent` | src/login.rs:285-290 | lookups ignore case: normal forms are stable |
| `LoginStore.NormalizeIgnores` | src/login.rs:285-290 | separators may be put in or left out anywhere |
| `LoginStore.CodesAlike` | src/login.rs:285-290 | two codes lead to the same request if and only if their letters and digits agree up to case |
| `LoginStore.LabelShape` | src/login.rs:105-110 | the label is never empty and at most 128 characters of the trimmed text |
| `LoginStore.WatchLogin` | src/services/auth.rs:245-278 | the stream loop sends what its specification says and stops at the first terminal status |
| `LoginStore.StreamShape` | src/services/auth.rs:245-278 | pending first if the request was pending then, after that the first terminal status and nothing more; a token a poll took out is always sent |
| `LoginRuns.TokenHandedOutOnce` | src/login.rs:138-170 | over every interleaving a token is handed out at most once, whichever requests are polled |
| `LoginRuns.TokensDeliveredOnce` | src/login.rs:138-255 | each request delivers at most once, what its own user code was granted, after the approval and before expiry; no decision is made twice or reversed; every stored request keeps its user code while `begin` is half done |
| `LoginAnswers.PollsAnswered` | src/login.rs:139-170 | over every interleaving each poll is answered by the events before it: pending while undecided, refused once denied, granted with the granted token until delivered, each within 600 seconds of the beginning, else gone |
| `LoginAnswers.DecisionsExact` | src/login.rs:198-255 | in every reachable state an approval or denial takes effect if and only if an undecided request was begun under the code within 600 seconds; polls of that request then answer accordingly, all others as before |
| `LoginAnswers.CommitWinsIff` | src/login.rs:212-226 | a call that has looked its code up wins if and only if that request is still undecided and in time |
| `LoginRuns.LegalLifeMeans` | src/login.rs:138-255 | a request's legal life implies those facts about the event log |
| `LoginRuns.MapsKeep` | src/login.rs:115-128 | each step keeps the maps linked, half-done `begin` calls included |
| `LoginRuns.LookupsKeep` | src/login.rs:202-212 | what a user code led to stays the request it was drawn for until the decision |
| `LoginRuns.ApprovalInOneGo` | src/login.rs:198-226 | the lookup step followed at once by the commit step is the store's own `approve` |
| `LoginRuns.DenialInOneGo` | src/login.rs:229-255 | the lookup step followed at once by the deny step is the store's own `deny` |
| `LoginRuns.BeginInOneGo` | src/login.rs:99-136 | sweep and both inserts in a row are the store's own `begin` |
| `LoginRuns.NoOrphanTokens` | src/services/auth.rs:319-341 | of concurrent `decide_login` calls at most one wins a request, the winner's token is the one stored, every finished loser's session row is gone, and no touch brings it back |
| `LoginRuns.LinkedAndBounded` | src/login.rs:99-136 | one call at a time, the maps are mutually inverse and hold at most 4096 requests |
| `Sessions.SessionTable.Put` | src/db/sessions.rs:62-79 | a row is added under an unused digest |
| `Sessions.SessionTable.Mint` | src/auth.rs:100-134 | exactly one row is added, under the token's digest: the user's, of the API kind, valid for 365 days |
| `Sessions.SessionTable.Username` | src/db/sessions.rs:82-90 | a token names a user exactly while its row is present and unexpired |
| `Sessions.SessionTable.Delete` | src/db/sessions.rs:106-118 | exactly that row goes |
| `Sessions.SessionTable.DeleteOthers` | src/db/sessions.rs:141-155 | exactly the user's rows go whose digest does not begin with the handle kept, and they are counted |
| `Sessions.SessionTable.Touch` | src/db/sessions.rs:161-185 | at most once an hour, only last use, address and device of that row change, and a row is never created |
| `Accounts.Passkeys.Finish` | src/passkey.rs:172-239 | each outcome: unknown flow, failed ceremony, bad address, taken name or email, else the account exactly as verified; an authentication answers with the account identified; the flow is consumed either way |
| `Accounts.Passkeys.FinishAdd` | src/passkey.rs:319-364 | each outcome: unknown or foreign flow, failed ceremony, no such user, else the credential is on the caller's own account, never twice |
| `Accounts.Passkeys.Remove` | src/passkey.rs:367-383 | each refusal, and otherwise exactly that credential gone |
| `Accounts.Passkeys.SetEmail` | src/db/users.rs:99-132 | refused for a missing account or a taken address, else the address is stored as given and its normal form in the column |
| `Accounts.Passkeys.CreateIfAbsent` | src/db/users.rs:72-94 | created exactly when username and address are free, else told which is taken |
| `Accounts.EmailRefusedIff` | src/db/users.rs:72-132 | both refuse an address if and only if another account was given one that agrees with it up to letter case and white space at the ends |
| `Accounts.NormalizesAlike` | src/db/users.rs:205-207 | two addresses have the same normal form if and only if their trimmed forms agree up to letter case |
| `Accounts.NormalFormShape` | src/db/users.rs:205-207 | the normal form is trimmed, without capital letters, and does not change with case or white space at the ends |
| `Accounts.CredentialChanges` | src/passkey.rs:341-383 | an addition and a removal change one account's credentials by exactly that credential, and nothing else |
| `Accounts.Passkeys.Upsert` | src/db/users.rs:42-67 | the whole row is rewritten with its email column, or the constraint refuses |
| `Accounts.WithoutKeeps` | src/passkey.rs:374-380 | with distinct ids, removing an id removes exactly one credential |
| `Accounts.DuplicatesWouldEmpty` | src/passkey.rs:377-380 | without distinct ids the last-credential guard would not protect the account |
| `AccountRuns.AccountsSound` | src/passkey.rs:341-383 | with all statements of all calls interleaved: at least one credential, distinct ids, email column in step, no two accounts' addresses equal up to letter case and outer white space, accounts keep their identity |
| `AccountRuns.InvariantOverRuns` | src/db/users.rs:42-132 | the invariant, including every record a call is still holding, survives every step |
| `AccountRuns.ChangeSticksIff` | src/passkey.rs:341-383 | a credential gone, a credential added or an email set stays so under every continuation in which nobody asks for the opposite if and only if no unfinished call is going to write a record without it |
| `AccountRuns.ChangeSticks` | src/passkey.rs:341-383 | the write that ends a removal, an addition or an email change is final unless another call holds a record without it |
| `AccountRuns.RemovalCanBeUndone` | src/passkey.rs:341-383 | the run: a removal between another call's read and write is undone |
| `AccountRuns.RemovalInOneGo` | src/passkey.rs:367-383 | the statements of a removal in a row are `Passkeys.Remove` |
| `AccountRuns.AdditionInOneGo` | src/passkey.rs:341-364 | those of an addition are the last part of `Passkeys.FinishAdd` |
| `AccountRuns.EmailInOneGo` | src/db/users.rs:99-132 | those of an email change are `Passkeys.SetEmail` |
| `AccountRuns.RegistrationInOneGo` | src/db/users.rs:72-94 | those of a registration are `Passkeys.CreateIfAbsent`, whichever check refuses |

## Left out

- Store operations are atomic with respect to each other; only crashes see their filesystem calls. Two operations racing between check and write are not modelled.
- Crash model: calls persist in program order; nothing is claimed about fsync.
- Device directories: the two-level `<device>/<name>` tree is one map, so empty device directories and files in place of directories do not exist.
- I/O errors other than a missing copy source, an impossible file name or a blocked rename; errors after a rename has committed.
- External drops into a running tree; a scan of an arbitrary tree is modelled, and `ReapInvisible`, `RebuildShape` and `LiveIsImmutable` hold for trees the store did not write.
- CrashAtomicity.StageCrash: the entry being replaced may be torn or lost, as in the code; `StageIndexIff`, `RestageLoses` and `StageServesIff` say exactly when and what that costs.
- CrashAtomicity.RejectCrash: the rejected entry may be seen torn, as in the code; `RejectIndexIff` and `RejectServesIff` say exactly when and what that costs.
- CrashRuns.HistoryKeeps: asks that no crash strikes while a submission's directory is being removed; `LiveBlobLost` and `TornApproved` show why.
- Names.Trim: what is cut is stated by `TrimCuts`.
- Tree.RebuildShape: which of several owners a sha is sent to is stated by `RebuildOwner`.
- Random names and codes are assumed unused (build directories, scratch files, device and user codes, tokens); `begin` would overwrite on a collision of user codes.
- Feeds.ListFirmware: the download counts added on read, with eager mirroring after `publish`, statistics and wire conversions.
- Retries inside the mirror client, and the text of its URLs.
- LoginRuns.LinkedAndBounded: the cap of 4096 is proved for sequential calls only; two concurrent `begin` calls can pass the check together.
- LoginRuns.NoOrphanTokens: session rows are changed only by the steps listed; a user revoking a winner's session, the expiry sweep of sessions and database errors are outside.
- AuditStream.OverlappingSound: completeness asks for the guards of the two deletions, because overlapping appends can take the newest row without them, whatever the clocks do (`ForwardClocksMislead`).
- Audit keys stay within `i64`; the casts of cursors beyond it are modelled, an exhausted key space is not.
- Passkey ceremonies, digests, JSON and SQL: inputs and assumptions. Username, email and label syntax checks, the cap and lifetime of pending ceremonies.
- Rate limits, cookies, RPC framing, caller parsing, admin lists, the API-token cap (it is not an invariant: `decide_login` bypasses it), notification, submission and metrics tables.
