# Verified model of the backup pipeline

This project models how the backup agent and the backup server keep a remote dataset equal to a set of
local directories, and proves what that protocol keeps. The agent scans its roots, gives every file an
archive name, compares the scan with its own table of what it last sent, packs the difference into
batches, and streams them, large files in chunks. The server stages, commits, and at the clean end of a
stream takes a snapshot; only then does the agent record what it sent. A restore walks the newest snapshot
back through chunks into a temporary tree that replaces the target at the very end. Everything may stop
anywhere: connections, disks, the table, the clean-up. Around the pipeline stand its bounded loops:
retention, the bandwidth limiter, the token bucket, retry delays, and the state of a task served by
several replicas.

`dafny verify dfyconfig.toml` checks the whole project.

## How it is built

- `Model`, `Paths`, `FileSystem`, `Patches`: values, lexical paths as component lists, a file tree with
  directories, and keyed edits.
- `Namespacing`, `Glob`, `Scan`, `Index`, `Diff`, `Packager`, `Pusher`: the agent's side of an upload.
- `StreamMachine`: the server's handling of messages as a state machine, with its reference meaning as a
  function of the message history. `Server`, `BackupStream`, `BackupServer`, `Retention`: the code with its
  table of partial uploads over staging files, proved to follow the machine. `Leftovers`, `CleanRuns`: what
  a stream that stopped leaves behind, and what becomes of it over runs of streams. `ConcurrentStreams`:
  several streams at once, operation by operation.
- `Wire`: what a list of changes looks like on the stream and what the machine makes of it.
- `RestoreMachine`, `RestoreStream`: the way back, in the same two layers.
- `Protocol`: table, dataset and newest snapshot as one replicated state over runs of pushes.
  `TreeConflicts`, `Storability`: exactly when a difference can be stored, the first time and on a retry.
- `Sync`, `EndToEnd`, `RetryLoop`: the running code of an attempt and of the retry loop over both ends, and
  the theorems about whole attempts, all attempts together, and backup followed by restore.
- `Replicas`, `Tasks`, `Bandwidth`, `TokenBucket`, `Backoff`: the bounded loops and the replicas.

Methods that touch a disk, the table or the network may fail at every such call. Where a method has a
`fault` result, it is set when such a call failed; without a fault, failure has exactly the reasons the
contract names. A temporary file whose removal failed, which the code ignores, becomes a file of the
dataset like any other; the tree only remembers where it came from (`FileSystem.FS.strays`).

## Hypotheses

They are named where they are used, as predicates or parameters:

- Files do not change between the scan and the push of one attempt (`EndToEnd.Steady`); the code reads
  content again at push time.
- Different contents have different digests (`Model.Injective`); needed only to conclude equal contents from
  equal rows.
- No root lies inside another (`EndToEnd.Hypotheses`, `RetryLoop.UnrelatedRoots`), since all differences are
  computed before the first push.
- One stream at a time on a dataset, in the methods and what is built on them; the handler does not exclude
  a second one, and `ConcurrentStreams` says what holds then. A retention minimum of at least one; the
  server configuration enforces two (pkg/config/server.go:94-96).
- At most one sync at a time for a server and a user, and configured servers with distinct addresses: two
  loops of one server and user would share their rows (`Replicas.System` has one loop for each pair).
- The rows of the table name archive paths (`Sync.ArchiveKeys`), which every recorded push keeps.
- A validated retry configuration (pkg/config/agent.go:124-139), monotone clocks, and sleeps that last at
  least as long as asked for.

## Where the code does not do what one might expect

- An exclude pattern such as `.*` matches the root itself. The scan is then empty without an error, and the
  next sync deletes the whole root from the dataset (`Scan.HiddenPatternEmptiesScan`,
  `Scan.PrunedIsFiltered`).
- A failed attempt may leave a new file in the dataset. If it is deleted locally before the next attempt,
  nothing ever removes it (`Protocol.OrphanReachable`, `Protocol.OrphanStays`). A deletion that a failed
  attempt pushed and that is undone locally leaves the file out of the backup for good
  (`Protocol.MissingReachable`, `Protocol.MissingStays`). `Protocol.CompletedRootExactIff` and
  `RetryLoop.RetriesConverge` say when the dataset is exact nevertheless.
- A directory that became a file can never be synced again, as long as it stays a file and whatever else
  changes (`Storability.DirectoryToFileFails`). A file that became a directory can, unless an attempt stops
  after it has left something below it: a new file, a directory made for one two levels down, or a temporary
  file. Then every retry fails (`Storability.RetriesPushIff`, `Storability.FileToDirectoryWedges`,
  `Storability.WedgeWitness`, `Storability.DirectoryWitness`).
- An error from removing a temporary file is ignored. Until something is stored or removed under its name,
  the file is in every later snapshot and is restored to the user (`CleanRuns.SnapshotCleanIff`,
  `CleanRuns.DirtySnapshot`, `RetryLoop.RetriesRestore`).
- A snapshot taken while another stream of the same user is running freezes that stream's staging files with
  it (`ConcurrentStreams.SnapshotShowsOthers`, `ConcurrentStreams.FrozenStaging`).
- A restore drops a leading slash, so two raw paths can mean one file under two writers
  (`RestoreMachine.LeadingSlash`, `RestoreMachine.TwoSpellings`).
- With two or more servers the failure of one can be overwritten by the progress report of another, and the
  task ends completed although its failure hook ran, with the reason of the failure still in its row
  (`Tasks.FailureOverwritten`, `Tasks.OutcomeIff`, `Tasks.RowTells`).
- The roots `/` and `/_root` share an archive prefix (`Namespacing.RootPrefixCollision`).
- A restored file that travelled in one piece gets its mode through the process's creation mask, a chunked
  one gets it exactly (`RestoreMachine.RestoreExactIff`).
- The comment that a file without a digest is sent again (pkg/scanner/scanner.go:83) does not apply to a
  sync: a scan with any error fails the attempt (internal/agent/orchestrator/orchestrator.go:332-334).

## Model

| member | source | states |
|---|---|---|
| `Model.PermIff` | internal/server/receiver/receiver.go:173 | the mode that is kept is the low nine bits of the one asked for: below 512 and a multiple of 512 away from it, and the mode itself if it has no other bits |
| `Paths.LevelIs` | internal/server/receiver/receiver.go:255-256 | a cleaned relative path leads strictly downward, by as many components as it has descended, exactly if part by part it never leads above its start; any other begins with `..` |
| `Paths.DotDotCancels` | pkg/scanner/namespace.go:39 | a name followed by `..` takes nothing and adds nothing, anywhere in any path |
| `Paths.DotVanishes` | pkg/scanner/namespace.go:39 | nor do an empty part and a dot |
| `Paths.RootIsOwnParent` | pkg/scanner/namespace.go:39 | `..` at the root stays at the root |
| `Paths.NameAppended` | pkg/scanner/namespace.go:39 | a plain name at the end is one more component |
| `FileSystem.CanPutIff` | internal/server/receiver/receiver.go:153-179 | a file can be put exactly where the tree with it, its parents made, is a tree again |
| `FileSystem.CanRemoveIff` | internal/server/receiver/receiver.go:242-252 | what is there can be removed exactly if the tree without it is a tree again and no staging file loses its directory; what is not there is removed already, unless a file stands above it |
| `Namespacing.NamespaceFiles` | pkg/scanner/namespace.go:13-32 | succeeds exactly when every scanned path is a proper relative path, and then gives each file the root's prefix and its own path below it, in order, nothing else changed |
| `Namespacing.RootPrefixIsArchivePath` | pkg/scanner/namespace.go:34-45 | the prefix of any root is a clean relative path whose components are those of the absolute root, for an absolute path those of the path given; only `/` is special |
| `Namespacing.RelativeRootPrefix` | pkg/scanner/namespace.go:34-45 | a relative root is named like the absolute path it stands for; `../y` in a directory is `y` in its parent, and `c/../y` and `./y` are `y` |
| `Namespacing.RootPrefixCollision` | pkg/scanner/namespace.go:34-45 | two roots get the same prefix exactly when they are the same directory, or one is `/` and the other `/_root` |
| `Namespacing.TargetPathAccepts` | internal/server/receiver/receiver.go:254-266 | the server accepts exactly the relative paths that, counting names down and `..` up part by part, never lead above the dataset and end below it, and maps them to that place; its second guard never fires |
| `Namespacing.HasPathPrefixIff` | internal/agent/orchestrator/orchestrator.go:672-675 | the test over filepath.Rel holds exactly when one component list is a proper prefix of the other |
| `Namespacing.RestoreTargetAccepts` | internal/agent/orchestrator/orchestrator.go:842-852 | every archive path is restored at the same name below the restore root |
| `Namespacing.RestoreTargetIff` | internal/agent/orchestrator/orchestrator.go:842-852 | any raw path is restored where it leads to from the root, and refused exactly if that is neither the root nor below it |
| `Namespacing.PathInRootIff` | pkg/scanner/diff.go:106-110 | for archive paths, being inside a root is a proper prefix relation on components |
| `Namespacing.NamespaceRoundTrip` | internal/agent/transport/pusher.go:320-330 | the pusher reads back the very relative path that was scanned, and server and restore accept the archive name |
| `Namespacing.NamespaceOnto` | internal/agent/transport/pusher.go:320-330 | the pusher accepts exactly the archive paths below the prefix, and each is the name of exactly one relative path; without a prefix the name is the path |
| `Namespacing.UnrelatedRootsDisjoint` | internal/agent/orchestrator/orchestrator.go:320-354 | two roots of which neither contains the other never share an archive path |
| `Glob.SimpleMatchIff` | pkg/glob/matcher.go:39-89 | a pattern without a separator, or with one only in a leading `**/`, matches a path exactly if its core matches one of the components, although the code also tries the whole path and its suffixes |
| `Glob.GlobstarIff` | pkg/glob/matcher.go:39-89 | a pattern `**/rest` whose rest has a separator matches a path exactly if the rest matches one of its suffixes |
| `Glob.AnchoredIff` | pkg/glob/matcher.go:39-89 | any other pattern with a separator matches whole paths only |
| `Glob.ExcludedBelow` | pkg/glob/matcher.go:39-89 | with such patterns everything below an excluded path is excluded too |
| `Glob.PlainCompiles` | pkg/glob/matcher.go:16-26 | patterns without character classes and escapes compile exactly if none of them is empty |
| `Scan.ScanResult.Walk` | pkg/scanner/scanner.go:39-92 | the walk appends to the result the files and errors of the functional walk, for any tree and exclusion |
| `Scan.ScanExact` | pkg/scanner/scanner.go:36-92 | a scan returns exactly the regular files of which neither the path nor any directory above it, `.` included, is excluded |
| `Scan.ErrorsExact` | pkg/scanner/scanner.go:39-92 | a scan reports exactly the places that are not excluded, nor below anything excluded, and could not be read: a file without metadata or content, a directory without its whole listing |
| `Scan.ErrorFreeIff` | pkg/scanner/scanner.go:39-92 | it is free of errors exactly if everything that is not excluded could be read |
| `Scan.PrunedIsFiltered` | pkg/scanner/scanner.go:52-57 | for patterns that name a component, skipping directories keeps exactly the files the matcher does not match, provided it does not match `.`; otherwise it keeps nothing |
| `Scan.HiddenPatternEmptiesScan` | pkg/scanner/scanner.go:52-57 | counterexample to plain filtering: with `.*` among the patterns every scan is empty and free of errors |
| `Index.SnapshotTable.UpsertSnapshot` | pkg/store/snapshots.go:61-70 | one row of one key is set, or nothing changes |
| `Index.SnapshotTable.DeleteSnapshot` | pkg/store/snapshots.go:92-98 | one row of one key is removed, or nothing changes |
| `Index.SnapshotTable.ListUserSnapshots` | pkg/store/snapshots.go:101-121 | every row of the server and user exactly once, in any order, and no other |
| `Index.SnapshotTable.UpdateSnapshots` | internal/agent/orchestrator/orchestrator.go:377-398 | the rows of the server and user become those after some prefix of the edits, all of them on success; rows of others are untouched |
| `Patches.ApplyAnyOrder` | pkg/scanner/diff.go:95-101 | edits of distinct paths give the same map in every order |
| `Patches.ApplyAfterPartial` | internal/agent/orchestrator/orchestrator.go:365-373 | applying any prefix of distinct edits first and then all of them, in any order, is applying them once |
| `Diff.CompareStored` | pkg/scanner/diff.go:67-93 | the loop over stored rows, in any listing order, names exactly the rows in scope that differ from the scan, and leaves exactly the other scanned paths |
| `Diff.EmitAdded` | pkg/scanner/diff.go:95-101 | the loop over what is left completes the difference, whatever order the map gives |
| `Diff.ComputeDiff` | pkg/scanner/diff.go:50-104 | the result names every path that differs once with the right action, no other path, additions last |
| `Diff.DiffExact` | pkg/scanner/diff.go:50-104 | recording the difference makes the table equal to the scan at every path in scope and leaves every other path alone |
| `Diff.DiffSettles` | pkg/scanner/diff.go:50-104 | computing it again after recording finds nothing |
| `Diff.NamedExactly` | pkg/scanner/diff.go:67-101 | a path is named exactly if it is in scope and its row differs from its scan |
| `Diff.DiffUnique` | pkg/scanner/diff.go:50-104 | two differences of the same table and scan contain the same entries |
| `Packager.PackBatchesWithinSize` | pkg/packager/packager.go:38-79 | the loop with its running byte count computes the greedy division, numbered from one |
| `Packager.PackedIsCut` | pkg/packager/packager.go:38-79 | the batches joined are the input, and each is one file above the content limit alone or within both limits, the number of files being the batch size, or 1000 if none is given |
| `Packager.PackedIsOptimal` | pkg/packager/packager.go:38-79 | no order-preserving division into admissible batches has fewer of them, for non-negative sizes |
| `Wire.ChunkShape` | internal/agent/transport/pusher.go:182-237 | a file of n bytes becomes ceil(n / size) chunks at consecutive offsets, all full but the last, only the last final |
| `Wire.ChangeRuns` | internal/server/svc/backup.go:144-177 | the server refuses the entries of one change exactly when the tree does not allow the change, and otherwise ends with it applied and nothing staged |
| `Wire.WireRuns` | internal/server/svc/backup.go:144-177 | the same for a whole list of changes |
| `Wire.WireStops` | internal/server/svc/backup.go:36-55 | wherever a stream of the changes stops and whatever its clean-up could not remove: the tree is that of the first k changes, with some parents of the next one and temporary files beside its path; after all changes, and when the next one is a deletion, exactly that tree |
| `Pusher.LargeBatchAgrees` | internal/agent/transport/pusher.go:159-161 | the batches that are chunked are exactly those the packer made for an oversized file; all others fit the content limit |
| `Pusher.SendChunkedFile` | internal/agent/transport/pusher.go:163-239 | sends a prefix of the chunks, all ceil(size / 4 MiB) of them on success; short of a fault it fails exactly if the file cannot be read or has shrunk |
| `Pusher.SendBatch` | internal/agent/transport/pusher.go:241-302 | one wire batch with the entries of all its files in order, or nothing when one cannot be read |
| `Pusher.PushBackup` | internal/agent/transport/pusher.go:95-157 | the entries sent are a prefix of the wire form of the difference, all of it on success, with payloads within 15 MiB while the scanned sizes hold; short of a fault it fails exactly for a bad identity or an unreadable file |
| `Server.Disk.WriteFile` | internal/server/receiver/receiver.go:147-182 | publishes content and permission bits atomically at the cleaned path; a failure may leave some of the parents and the temporary file, and nothing else; short of a fault it fails exactly when the path or the tree does not allow it |
| `Server.Disk.MkdirAll` | internal/server/receiver/receiver.go:153-156 | the missing parents from the top down: all of them, or some when one cannot be made |
| `Server.Disk.Discard` | internal/server/receiver/receiver.go:231-239 | a temporary file that is no longer wanted goes, or, the error being ignored, stays under a name of its own with the bytes it had |
| `Server.Disk.NewChunkWriter` | internal/server/receiver/receiver.go:185-198 | a new empty staging file in the directory of the target, all parents made; a failure may leave some of the parents; nothing becomes visible |
| `Server.Disk.DeleteFile` | internal/server/receiver/receiver.go:242-252 | removes a file or an empty directory, ignores what does not exist, and leaves empty parents behind |
| `Server.ChunkWriter.Write` | internal/server/receiver/receiver.go:201-209 | appends to the staging file only; a failed write may have appended some of the bytes |
| `Server.ChunkWriter.Commit` | internal/server/receiver/receiver.go:212-228 | publishes exactly the staged bytes under the permission bits and removes the staging file; refused onto a directory |
| `Server.ChunkWriter.Abort` | internal/server/receiver/receiver.go:231-239 | gives up an unfinished staging file and does nothing after a commit; when the removal fails the file stays beside its target with exactly what was staged |
| `StreamMachine.RunValid` | internal/server/svc/backup.go:219-243 | in every reachable session each open upload expects the offset equal to what it has staged |
| `StreamMachine.AcceptedHistory` | internal/server/svc/backup.go:144-177 | for arbitrary interleaved messages: the visible files are exactly the last complete write of each path, and what is staged is exactly the pending chunks |
| `StreamMachine.AcceptedChunksContinue` | internal/server/svc/backup.go:233-238 | every accepted chunk continued its path's pending chunks from offset zero without a gap, with the mode of the first |
| `StreamMachine.NextAcceptedIff` | internal/server/svc/backup.go:144-243 | exactly which entry is accepted after any accepted history: a chunk that continues what is pending at its path in offset and mode, or starts it; anything else only where nothing is pending; and if the tree lets it through |
| `ConcurrentStreams.ConcurrentHistory` | internal/server/svc/backup.go:36-211 | with any number of streams at once on one dataset: however their operations interleave, inside messages too, and whichever fail, removals included, the visible files are exactly what was last published or deleted at each path and the temporary files that stayed, and each temporary file in use holds exactly what its own stream has written |
| `ConcurrentStreams.PublishedWhole` | internal/server/svc/backup.go:219-243 | whatever is renamed into place is whole: its stream's entries from offset zero without a gap, no write of which was cut short |
| `ConcurrentStreams.SnapshotShowsOthers` | internal/server/svc/backup.go:188-208 | a snapshot then freezes exactly the temporary files of the other streams, each with what that stream has written; it is free of temporary files exactly if no other stream has one open and none that stayed is left |
| `ConcurrentStreams.FrozenStaging` | internal/server/svc/backup.go:188-208 | a concrete run: one stream stores a file and takes its snapshot while another has a chunk staged, which the snapshot freezes |
| `ConcurrentStreams.SingleStream` | internal/server/svc/backup.go:57-186 | every accepted run of the stream machine is a run of one stream's operations with the same outcome |
| `ConcurrentStreams.WholeMessage` | internal/server/svc/backup.go:144-177 | an entry that the stream machine accepts is a run of single operations, with other streams open, that leads where the machine does |
| `BackupStream.WriteChunk` | internal/server/svc/backup.go:219-243 | the table of writers follows the stream machine's open-and-append step; a failure leaves at most some parents, an opened upload or part of the bytes; short of a fault it fails exactly when the machine does |
| `BackupStream.HandleChunk` | internal/server/svc/backup.go:145-160 | one chunked entry, with the commit and the removal from the table on the final chunk, is one step of the machine |
| `BackupStream.HandlePlain` | internal/server/svc/backup.go:161-176 | one whole file or deletion is one step of the machine, refused while an upload of the path is open |
| `BackupServer.AdmittedIff` | internal/server/svc/backup.go:68-80 | exactly which streams pass the identity checks: a valid name, one user and one rule type throughout, rules of the machine from the machine's own user and from no other |
| `BackupServer.UsersApart` | pkg/zfs/dataset.go:25-30 | the directories of two users with valid names are proper and apart: no path lies below both |
| `BackupServer.HandleBatch` | internal/server/svc/backup.go:144-177 | a batch is the machine run over its entries, stopping at the first failure with no more of the failed entry than it may leave |
| `BackupServer.AbortUploads` | internal/server/svc/backup.go:51-55 | the deferred clean-up gives up every open upload; what stays of them is exactly the files whose removal failed, each beside its target with what it had staged |
| `Leftovers.StoppedResidue` | internal/server/svc/backup.go:36-55 | after the clean-up of any stopped stream the tree is that of the accepted entries, with some parents of the next one and a temporary file for each failed removal |
| `BackupServer.ReceiveAll` | internal/server/svc/backup.go:57-186 | the receive loop: all batches admitted and accepted on success, otherwise the state after an accepted prefix; short of a fault it fails only for a refused stream |
| `BackupServer.Finish` | internal/server/svc/backup.go:188-210 | no snapshot while an upload is unfinished; otherwise exactly one, and then retention |
| `BackupServer.ReceiveStream` | internal/server/svc/backup.go:36-211 | on every exit no staging file is in use and the tree is that of an accepted prefix with the residue of where it stopped; the flag for a failed removal says whether a temporary file was left; a snapshot is taken only of a whole acceptable stream and equals the live tree; short of a fault the answer is success exactly if the stream ends properly and is acceptable |
| `BackupServer.EffectKeepsClean` | internal/server/svc/backup.go:188-208 | no stream, however it ends, leaves a snapshot with a staging file in use |
| `BackupServer.Host.PushBackup` | internal/server/svc/backup.go:36-211 | the first batch fixes user, rule type and dataset; no other dataset changes, no dataset keeps a staging file in use and every snapshot of the host is a whole tree |
| `StreamMachine.RunStrays` | internal/server/receiver/receiver.go:147-252 | accepted entries end the temporary files that stayed at paths they write or remove, and no others |
| `CleanRuns.LitterIff` | internal/server/receiver/receiver.go:231-239 | a stream of a run left such a file exactly if the flag of its receiver says so, and never together with a snapshot |
| `CleanRuns.StraysOverRuns` | internal/server/receiver/receiver.go:231-239 | over any run of streams on a dataset that was clean: the temporary files on it are exactly those whose removal failed and which nothing accepted since wrote or removed |
| `CleanRuns.SnapshotCleanIff` | internal/server/svc/backup.go:188-208 | a snapshot is free of temporary files exactly if every one whose removal failed has been written or removed by a later stream |
| `CleanRuns.SnapshotCleanIffNoLitter` | internal/server/svc/backup.go:188-208 | while no stream names such a file: exactly if no removal has failed since the dataset was clean |
| `CleanRuns.DirtySnapshot` | internal/server/receiver/receiver.go:231-239 | a run with one failed removal, after which the temporary file is a file of the next snapshot |
| `Retention.CleanupSnapshots` | pkg/zfs/snapshot.go:104-145 | on every exit a newest part of the list with at least min(original, minKeep) entries; on success the count limit and one more removal for each low reading, the last reading meeting the floor; short of a fault it fails exactly when the minimum is reached and every reading was low |
| `Retention.NewestSurvives` | pkg/zfs/snapshot.go:104-145 | with a minimum of one the newest snapshot survives every exit of the clean-up |
| `Retention.RetainedOverRuns` | internal/server/svc/backup.go:188-208 | over any run of streams what is kept is the newest part of everything ever taken, never less than the minimum once that many exist |
| `Retention.LatestSnapshot` | pkg/zfs/snapshot.go:46-55 | the last snapshot in creation order; short of a fault an error exactly when there is none |
| `RestoreStream.ReadFileChunks` | internal/server/receiver/receiver.go:112-142 | a small file is one entry, a large one its chunks in order |
| `RestoreStream.ReadAllChunksFrom` | internal/server/receiver/receiver.go:81-144 | the entries of the files visited, every file once on success |
| `RestoreStream.PullRestore` | internal/server/svc/restore.go:63-111 | sends the newest snapshot file by file and the final batch only after all of it; short of a fault it fails only when there is no snapshot |
| `RestoreStream.RestoreDir.WriteRestoredChunk` | internal/agent/orchestrator/orchestrator.go:788-832 | one chunk is one step of the restore machine: exclusive creation, offset and mode checked, mode set on the final chunk |
| `RestoreStream.RestoreDir.WriteRestoredFile` | internal/agent/orchestrator/orchestrator.go:765-780 | one whole file is one step of the restore machine, created under its full mode word; an overwritten file keeps its mode |
| `RestoreStream.RestoreTarget.RestoreFromStream` | internal/agent/orchestrator/orchestrator.go:677-748 | a stream that is not complete leaves the target as it was; a complete one replaces it by exactly what the stream holds, and only a failure inside the final swap can lose the old tree |
| `RestoreStream.TruncatedIsIncomplete` | internal/agent/orchestrator/orchestrator.go:697-708 | a stream without its final batch is never complete |
| `RestoreStream.PulledIsComplete` | internal/agent/orchestrator/orchestrator.go:677-740 | what the server sends in full is complete and rebuilds the snapshot's files |
| `RestoreMachine.RestoreInverts` | internal/server/receiver/receiver.go:81-144 | for every file map, visiting order and chunk size the emitted entries are all accepted and rebuild the same paths and bytes |
| `RestoreMachine.RestoreExactIff` | internal/agent/orchestrator/orchestrator.go:776-778 | the rebuilt map is the stored one, modes included, exactly when the creation mask takes nothing from a file small enough to travel whole |
| `RestoreMachine.AcceptedRestore` | internal/agent/orchestrator/orchestrator.go:788-832 | for every stream the agent accepts and every raw path that no other raw path of the stream means the same as: the file being rebuilt holds exactly its pending chunks or its last complete write |
| `RestoreMachine.LeadingSlash` | internal/agent/orchestrator/orchestrator.go:842-852 | every archive path has a second spelling, with a leading slash, that is restored to the same file |
| `RestoreMachine.TwoSpellings` | internal/agent/orchestrator/orchestrator.go:788-832 | for any two raw paths of one target: an accepted stream that interleaves them rebuilds a mixture, neither the chunks of the one nor the whole write of the other |
| `RestoreMachine.AcceptedRestoreInOrder` | internal/agent/orchestrator/orchestrator.go:813-818 | out of order chunks and changes of mode are refused |
| `RestoreMachine.NextRestoredIff` | internal/agent/orchestrator/orchestrator.go:765-832 | exactly which entry of a restore is accepted after any accepted stream: a chunk that continues what is pending, or creates a file that is not there yet; a whole file where nothing is pending and a file can be |
| `Protocol.RunAgrees` | internal/agent/orchestrator/orchestrator.go:365-373 | over any sequence of pushes, each stopped anywhere, table, dataset and snapshot agree outside the paths made visible and not recorded since |
| `Protocol.CompletedRootExact` | internal/agent/orchestrator/orchestrator.go:365-398 | after a completed root the table under it is the scan, and dataset and snapshot hold the tree wherever they agreed before or the difference names the path |
| `Protocol.CompletedRootExactIff` | internal/agent/orchestrator/orchestrator.go:365-398 | after any run of pushes from agreement, it leaves the dataset equal to the tree exactly when the last thing the run pushed to each uncertain path that the difference does not name is the tree's file |
| `Protocol.LiveIsLast` | internal/agent/orchestrator/orchestrator.go:245-269 | what the dataset holds at a path after any run is what the run last pushed there, or what was there before |
| `Protocol.RetryConverges` | internal/agent/orchestrator/orchestrator.go:245-269 | any prefix of a difference and then the recomputed one, in any order, gives the same files as sending it once, but for temporary files that stayed |
| `Protocol.UnnamedStays` | pkg/scanner/diff.go:67-93 | a path whose row is what every scan of a run shows is never named: what the dataset holds there it keeps, what it lacks it goes on lacking |
| `Protocol.OrphanStays` | pkg/scanner/diff.go:67-93 | so a file stored by a failed attempt and then deleted locally is never removed by any later run of syncs |
| `Protocol.MissingStays` | pkg/scanner/diff.go:67-93 | and a deletion pushed by a failed attempt and then undone locally leaves the file out of the backup |
| `Protocol.OrphanReachable` | internal/agent/orchestrator/orchestrator.go:365-371 | such a state is reached by one push that stores a new file and then fails |
| `Protocol.MissingReachable` | internal/agent/orchestrator/orchestrator.go:365-371 | such a state is reached by one push that removes a file and then fails |
| `TreeConflicts.StorableIff` | internal/server/receiver/receiver.go:147-252 | a list of changes can be stored exactly when no removed path is a directory with content and no new path is a directory or runs through a remaining file |
| `TreeConflicts.RetryIff` | internal/agent/orchestrator/orchestrator.go:245-269 | after an attempt at a list that could be stored was stopped anywhere, it can be stored again exactly if nothing that attempt published, made or could not remove lies below a removed path, and no temporary file stands above a new one |
| `TreeConflicts.RetriesIff` | internal/agent/orchestrator/orchestrator.go:245-269 | the same after any number of stopped attempts in any orders: exactly if none of them left anything in the way |
| `TreeConflicts.RefusedForever` | internal/agent/orchestrator/orchestrator.go:245-269 | a list the tree refuses once is refused for good: in any order, over any run of attempts each stopped anywhere |
| `Storability.FirstPushIff` | internal/server/receiver/receiver.go:147-252 | the same for a scan and a table: a difference can be stored exactly if no new path is a directory of the dataset or below a file that stays |
| `Storability.RefusedPushForever` | internal/agent/orchestrator/orchestrator.go:245-269 | a difference that cannot be stored is refused by every later attempt too, wherever the ones between stopped |
| `Storability.DirectoryToFileFails` | internal/server/receiver/receiver.go:242-252 | a path that is a directory of the dataset can never become a file: after any run of pushes, of whatever trees in which it stays a file, the next difference is refused, because deletions leave directories behind |
| `Storability.RetryPushIff` | internal/agent/orchestrator/orchestrator.go:245-269 | the same for a scan and a table: a retry can be stored exactly if the stopped attempt left no published addition, no directory and no temporary file below a file that became a directory, and no temporary file where a new path needs a directory |
| `Storability.RetriesPushIff` | internal/agent/orchestrator/orchestrator.go:245-269 | after any number of stopped attempts: exactly if none of them left anything in the way |
| `Storability.CutPushIff` | internal/agent/orchestrator/orchestrator.go:245-269 | after a cut in the middle of a chunked upload whose staging file was removed: exactly if nothing was published below a dropped path and nothing was started two or more levels below one |
| `Storability.FileToDirectoryWedges` | internal/server/receiver/receiver.go:242-252 | once a stopped attempt has left anything below a file that became a directory, every later attempt fails, in any order and wherever the ones between stopped |
| `Storability.WedgeWitness` | internal/server/receiver/receiver.go:242-252 | a concrete tree for which that happens after both changes went through |
| `Storability.DirectoryWitness` | internal/server/receiver/receiver.go:185-198 | and one for which it happens after the first chunk of a file two levels down: nothing new is visible, but the directories made for it stop every retry |
| `Sync.PlanRoot` | internal/agent/orchestrator/orchestrator.go:320-354 | one root's error-free scan, archive names and difference; short of a fault it fails exactly for an empty or malformed pattern, a scan error or an invalid name, and always permanently |
| `Sync.PlanRoots` | internal/agent/orchestrator/orchestrator.go:312-356 | every difference is computed against the same table before anything is pushed; empty ones are dropped |
| `Sync.PushDiffs` | internal/agent/orchestrator/orchestrator.go:403-420 | both ends of one stream: the tree of the dataset is that stopped after some changes, the newest snapshot follows only after all of them, and short of a fault the push succeeds exactly if identity, local files and tree allow it |
| `Sync.PushAndRecord` | internal/agent/orchestrator/orchestrator.go:365-373 | the table is recorded only after the snapshot; table, dataset and snapshot, and the tree behind the dataset, are those of one push stopped somewhere; a permanent failure is a row that could not be written, and after any other nothing was recorded |
| `Sync.SyncToServer` | internal/agent/orchestrator/orchestrator.go:274-375 | on every exit table, dataset and snapshot are the outcome of pushes of the planned differences in order; short of a fault an attempt that reaches the server succeeds exactly if every root can be planned and every push in turn can succeed; nothing of other servers or users changes |
| `EndToEnd.ScanDescribesTree` | internal/agent/orchestrator/orchestrator.go:320-341 | the archived scan describes exactly the kept files of the local tree |
| `EndToEnd.DeletesOnlyGone` | internal/agent/orchestrator/orchestrator.go:335-341 | a path the difference names is to be deleted exactly if no regular file that the patterns leave in stands there, readable or not |
| `EndToEnd.AttemptAgrees` | internal/agent/orchestrator/orchestrator.go:365-373 | through an attempt that may stop anywhere, the three agree outside the uncertain paths |
| `EndToEnd.SyncSettles` | internal/agent/orchestrator/orchestrator.go:274-375 | after a successful attempt the table below every root is its scan, and dataset and newest snapshot are its tree wherever they agreed or the difference names the path |
| `EndToEnd.FirstAttemptIff` | internal/agent/orchestrator/orchestrator.go:365-371 | from an agreeing state an attempt at a root can succeed exactly if identity and files are fine and no new path meets a directory or a remaining file |
| `EndToEnd.RetryAttemptIff` | internal/agent/orchestrator/orchestrator.go:245-269 | after any number of attempts, each stopped anywhere before its rows were recorded, the first of which could have succeeded, an attempt at the unchanged root can succeed exactly if none of them left anything in its way |
| `EndToEnd.RoundTrip` | internal/agent/orchestrator/orchestrator.go:274-375 | a restore after a successful attempt gives every root back: the same relative paths and bytes, the permission bits of the scanned mode as a restore can set them, which is the mode itself if it has no others, and nothing else below its prefix |
| `EndToEnd.Restore` | internal/agent/orchestrator/orchestrator.go:488-529 | the target becomes exactly the restored form of the newest snapshot, over a stream that may break anywhere |
| `EndToEnd.BackupThenRestore` | internal/agent/orchestrator/orchestrator.go:274-375 | the same through the running code: scan, names, difference, packing, chunking, upload, snapshot, download and swap |
| `RetryLoop.SyncToServerWithRetry` | internal/agent/orchestrator/orchestrator.go:245-269 | the state is the outcome of its attempts one after another; every attempt but the last failed in a way that may pass and was followed by a delay drawn for it; without success the last failure does not pass or there is no room for another delay; at most 1 + MaxElapsed / least delay attempts |
| `RetryLoop.LogAgrees` | internal/agent/orchestrator/orchestrator.go:245-269 | agreement outside the uncertain paths over all attempts, whatever each of them finds |
| `RetryLoop.RetriesConverge` | internal/agent/orchestrator/orchestrator.go:245-269 | with an unchanged tree, however many attempts failed and wherever, a successful one leaves table, dataset and snapshot exactly equal to scan and tree at every path, but for the names of temporary files that could not be removed |
| `RetryLoop.RetriesRestore` | internal/agent/orchestrator/orchestrator.go:245-269 | and a restore then gives every root back exactly, with no other file below it than such temporary ones |
| `Replicas.OwnWritesOnly` | internal/agent/orchestrator/orchestrator.go:221-229 | a server's rows are what its own loop makes of them, whatever other loops do in between |
| `Replicas.AloneInCompany` | internal/agent/orchestrator/orchestrator.go:245-375 | in any interleaving each loop, a step function of its own rows and its own server's answers, lists, computes, sends and writes what it would with the table to itself |
| `Replicas.TableIsLog` | internal/agent/orchestrator/orchestrator.go:377-398 | the table of an interleaving is what the logged writes make of it, in their order |
| `Replicas.InterleavingsAgree` | internal/agent/orchestrator/orchestrator.go:221-229 | any two interleavings that run every loop to its end, one loop after another included, end with the same table, every loop having sent the same lists and made the same writes |
| `Replicas.LoopWrites` | internal/agent/orchestrator/orchestrator.go:365-373 | in any interleaving a loop has written the rows of the lists the server answered with success, in order and in full but for the last one, and never a row of a list that was not |
| `Replicas.LoopOutcome` | internal/agent/orchestrator/orchestrator.go:245-375 | a loop ends with success exactly if its last attempt reached the server, planned every root, got success for every list and wrote every row; otherwise for a failure not followed by another attempt, a root that cannot be planned or a row that cannot be written; every earlier attempt failed in a way that may pass |
| `Tasks.OnceOnly` | internal/agent/orchestrator/orchestrator.go:101-123 | over every interleaving the hook starts at most once, exactly if some replica failed to the end, and completion is recorded at most once, after all replicas returned |
| `Tasks.OutcomeIff` | internal/agent/orchestrator/orchestrator.go:232-239 | a task ends completed exactly if the last phase any replica reported was not the failed one |
| `Tasks.CanFinish` | internal/agent/orchestrator/orchestrator.go:221-239 | no interleaving is stuck: from wherever it is, the task can be brought to its end |
| `Tasks.SoleFailureSticks` | internal/agent/orchestrator/orchestrator.go:232-239 | with a single server a failure is final |
| `Tasks.FailureOverwritten` | internal/agent/orchestrator/orchestrator.go:359-364 | with two servers it is not: a run in which one fails through its hook and the task ends completed, its row still carrying the reason of the failure |
| `Tasks.RowTells` | pkg/store/tasks.go:56-89 | the history row of any run: completed exactly if completion was written, failed exactly if a failure was and completion was not, its error the reason written last, in a completed row too |
| `Tasks.AfterRestart` | cmd/datavault-agent/main.go:69 | wherever the agent is stopped, the row after its restart has ended: completed exactly if completion had been written, failed with a reason otherwise |
| `Tasks.TaskTable.FailIncompleteTasks` | pkg/store/tasks.go:94-108 | after a restart every row in progress has failed with the reason given, or a default, and no finished row has changed |
| `Bandwidth.PayloadTimeExactIff` | internal/agent/transport/pusher.go:88 | the 64-bit arithmetic rounds up exactly if bytes * 10^9 + rate - 1 stays below 2^63; otherwise the result is too small |
| `Bandwidth.PackedFits` | internal/agent/transport/pusher.go:88 | every payload the packer allows fits at every rate up to 2^62 |
| `Bandwidth.HugePayloadOverflows` | internal/agent/transport/pusher.go:88 | a payload just above nine gigabytes reserves a negative time |
| `Bandwidth.Limiter.Wait` | internal/agent/transport/pusher.go:80-93 | for any payload and rate: each call reserves the next slot after the one before and returns after its end, and the calls are a run exactly as long as every payload fits the arithmetic |
| `Bandwidth.WindowBound` | internal/agent/transport/pusher.go:80-93 | in every window of consecutive calls the bytes are at most the rate times the time from first entry to last return |
| `Bandwidth.NoGaps` | internal/agent/transport/pusher.go:80-93 | nothing is held back longer than the rate asks for: every slot ends a stretch of slots without a gap, the first of which started while its call was running |
| `TokenBucket.RateLimiter.Allow` | internal/agent/httpsapi/ratelimit.go:31-50 | one request on the terms of the trace for its own key; no other key changes |
| `TokenBucket.TokensBounded` | internal/agent/httpsapi/ratelimit.go:40-46 | tokens stay between zero and the burst |
| `TokenBucket.RequestsBounded` | internal/agent/httpsapi/ratelimit.go:31-50 | in every window of one key's requests at most burst + rate * elapsed are allowed, with several clock readings in a call |
| `TokenBucket.SteadyIsAllowed` | internal/agent/httpsapi/ratelimit.go:31-50 | a key that leaves 1 / rate between its requests is never refused |
| `Backoff.Delays.Next` | pkg/retry/backoff.go:38-61 | the delays given out add up to at most MaxElapsed; zero exactly when there is no room for the delay or it is zero itself |
| `Backoff.IntervalSteps` | pkg/retry/backoff.go:43-46 | the interval starts at Initial and is multiplied from attempt to attempt until it reaches Max, where it stays |
| `Backoff.DelayWithin` | pkg/retry/backoff.go:49-55 | a delay is within half the jitter of its interval, cut down to whole nanoseconds |
| `Backoff.DelayAtLeast` | pkg/retry/backoff.go:43-56 | every delay is at least floor(Initial * (1 - Jitter / 2)), for a validated configuration |
| `Backoff.Delays.GivenBounded` | pkg/retry/backoff.go:38-61 | the number of delays is at most MaxElapsed over the least delay |

## Left out

- Authentication and authorization: signatures, nonces, task grants, peer credentials, quotas. A stream is
  taken to be authorised; identity checks on batches are modelled.
- The gRPC, HTTP and socket plumbing, the CLI, YAML parsing, hook scripts, logging, audit text and progress
  counters.
- ZFS commands: a snapshot freezes the tree, listing and destroying may fail, free space is an arbitrary
  reading each time, and a restore clone shows exactly its snapshot.
- Rule merging: an attempt is given its roots with their patterns. Fetching the global configuration is not
  part of this model.
- Temporary names: a temporary file that stays has some name beside its target that nothing else has. While
  it is in use it is not yet one of the files, so it never clashes with a path of the stream. Its mode, if
  it stays, is arbitrary.
- The temporary directory of a restore that failed: its removal may fail too, and it then stays beside the
  target. The target itself is modelled.
- A crash of the server process in the middle of a stream. It leaves what a stream leaves of which every
  removal failed.
- Wrap-around of the unsigned 64-bit chunk offset: offsets are unbounded.
- File ownership, symbolic links in targets, and the time a row was written.
- Character classes and escapes in patterns: filepath.Match, its errors included, is a parameter, and
  results about which patterns prune like filters assume its documented meaning for patterns without them.
- Two streams at once on one dataset, in the heap model: they are modelled on values only
  (`ConcurrentStreams`).
- The entries of the table of partial uploads and of the restore's table of writers are values in a map
  where the code has pointers; the chunk writers themselves are objects.
- The acknowledgement of each batch is not tied to the sender's next step: the sender stops anywhere and the
  server sees any prefix of what was sent, which covers the runs of the real exchange.
- Backoff.Delays.Next: computes with real numbers and cuts down to whole nanoseconds; the rounding of
  floating-point numbers is not modelled. An unlimited retry time, which the configuration check excludes,
  is not either, nor is the 64-bit sum of elapsed time and delay, which wraps for limits near 2^63.
- Pusher.PushBackup: bounds the content of a message; the transport's limit of 16 MiB also counts paths and
  framing.
- TokenBucket.RateLimiter.Allow: time and tokens are real numbers.
- Classification of errors into those worth a retry: any failure on the way to the server may be one.
- Quota percentage, schedule window and the user rule store: simple list edits or single expressions.
