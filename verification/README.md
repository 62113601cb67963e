# godump: store, pool, cache and recovery

godump keeps backups as content-addressed chunks in a pool. This project models the way from files to chunks and back:

- **Text, Props, Chunk**: decimal, hexadecimal and time texts, the canonical property encoding, the framed chunk stream.
- **SqlPool**: rows in a transaction and side files outside of it, with failing and torn writes, flush, crash and reopen.
- **Indirect, Heights, IndirectWriter, Capacity**: the online k-ary tree of identifiers, its counting argument, and what a walk
  can read of it.
- **Dir, File**: greedy packing of directory entries and storing of file contents on top of it.
- **Visitor, Decode, Story**: scripts of visitor calls, the walker that performs them, and what a stored identifier tells.
- **Cache, Tree, Memory, Telling, Dump, Runs**: the ctime cache, what walks over a tree leave in it, and backups that use it.
- **Restore, Regen, Recovery, Rebuild**: restoring a backup into a file system, and rebuilding the cache from a backup.
- **History**: histories of backups, expiries, cache regenerations and crashes.
- **IndexFile**: the index file of a pool, its writer and its reader.

How to read the claims:

- The hash is any function of kind and data. Collisions are never excluded: the pool carries a ghost flag `clash`, which becomes
  true when an insert is skipped although the chunk under its identifier is another one, and contents are only claimed while it
  is false. Everything else (closedness, termination, atomicity) holds with collisions too.
- The compressor is any lossless one with a non-empty result for non-empty data.
- Any call into the file system or the database may fail. A ghost counter `faults` counts the failures, and a method that
  reports an error promises that it grew or that the transaction was already unusable. So no error is invented.
- A *script* is the tree of visitor calls that walking an identifier intends. Running it against a visitor gives what happens.
  A *story* is a script without EarlyVisit and Chunk. `Trees.Tells` says that a story is the traversal of a file tree.
- The cache theorem assumes what a ctime cache must assume: the bytes of a file are a function of filesystem, directory inode,
  file inode and the 64 bits of nanoseconds that the cache keeps of its ctime, over the whole history (`World`). With the option
  `cut` the pieces in which it is read are as well; only then are claims made about identifiers, which are
  those of `Telling.NodeId` and `Runs.BackupId`, functions of the tree that know of no cache.
- A cache entry lives for two to six weeks after a backup read its file (`Dumps.MustRead`, `Memories.LeaseKept`); a regeneration
  gives entries a new time, counted from the date of the backup it reads.
- What a whole walk leaves in the cache is said of the sequence of directories it leaves (`Memories.Left`): for each inode number
  the last one decides. The same predicates are used of backups and of regenerations.

Where the code and its documentation or evident intent differ, the model follows the code:

- The restore reads mode, uid and gid as signed 32-bit numbers, while a backup writes them as unsigned 64-bit ones, so a file
  owned by an id of 2^31 or more is backed up but not restored by root. `Recover` says exactly when a restore works, and
  `Recovery.LargeOwner` is such a file.
- An indirect tree above k^4 leaves (files) or k^3 leaves (directories) is written without an error, but its root has no
  handler and a walk silently tells nothing. `Capacity.RootCapacity` says exactly when.
- The name length of a directory entry keeps sixteen bits. `Stories.EntriesRoundTrip` says exactly when entries survive, and
  `Stories.LongNameRead` what becomes of a name of 65536 bytes.
- The cache files directories by inode number under the filesystem of the root, mount points of other filesystems included. One
  that shares its number with a directory left before erases the entries of that directory, so that its files are read again
  the next time. `Memories.KeepsEntries` says exactly when a directory keeps its entries.
- The cache keeps 64 bits of the nanoseconds of a ctime. Two states of a file with ctimes a multiple of 2^64 ns apart are
  taken for the same one, and a ctime outside of 64 bits is never found again. `Dumps.HitExactly` says exactly when an
  entry is used.
- The database driver refuses inode numbers of 2^63 and more, so that neither a directory with such a number nor one with a
  regular file of such a number can be backed up or regenerated. `Memories.InosBelow` is the exact condition, and
  `Memories.LargeInode` a tree that fails it.
- The place of a kind in an index file keeps eight bits. `IndexFiles.KindsReadBack` says exactly when kinds survive.
- The source has no reader of the kind section; `ReadKind` is the one that its format suggests.
- `WriteIndex` does not check its final rename. The index reader is commented out in the source, and asks for version 2 where
  the writer writes 4; the version a reader accepts is a parameter here.
- Decoding a property map accepts keys in any order. `Props.CanonicalExactly` says exactly when encoding gives the input back.

## Model

| member | source | states |
|---|---|---|
| `Histories.History` | src/godump/dump/dump.go:61-118 | Any history of backups, cache expiries, cache regenerations and crashes on a new pool: every backup that reported success still walks as the tree it was made from, both in the running pool and in what a crash would leave, unless two different chunks shared a hash, and when pieces of files are fixed by ctimes its identifier is that of the tree, date and properties alone. While no call into the file system or the database fails, a backup succeeds exactly when the inode numbers of its directories and their regular files are below 2^63, and without a clash a regeneration from a reported backup always does. |
| `Histories.DoJob` | src/godump/dump/dump.go:39-59 | One backup, expiry, regeneration or crash keeps everything recorded so far, in the transaction and on disk; a backup of a tree with inode numbers below 2^63, and without a clash a regeneration from a reported backup, only fail when a call failed or the transaction was already lost. |
| `Rebuilds.Regenerate` | src/godump/cachecmd/regen.go:32-50 | Regenerating the cache from a recorded backup keeps every cached identifier in the pool and true, so later backups can rely on it; on success it is committed and every directory number has the files of the directory left last; on failure the transaction is rolled back. With inode numbers below 2^63 it fails only when a call failed, and otherwise always. |
| `Rebuilds.RegenCollects` | src/godump/cachecmd/regen.go:54-141 | Whatever backup is walked and wherever the walk stops, the tables stay consistent and name only stored chunks, even when chunks clash. |
| `Rebuilds.LeavesTrue` | src/godump/cachecmd/regen.go:86-116 | A cache that was true stays true when a walk over true files writes the directories of a tree into it. |
| `Runs.RunBackup` | src/godump/dump/dump.go:61-118 | Whatever the cache held and however it ends, a backup keeps the pool closed and the cache true; success means committed, that the new identifier records exactly the visible tree, date and properties, and that for each directory number the cache then holds the files of the directory left last, with identifiers of their bytes while the time fits 64 bits, and for other numbers what it held before. When pieces of files are fixed by ctimes the identifier is a function of visible tree, date and properties alone, with or without a cache. It succeeds only for inode numbers of directories and their files below 2^63, and then fails only when a call failed. However it ends, each cache entry afterwards was there before with the same expiry, or is two to six weeks fresh and its file was opened and read in this backup. |
| `Runs.StoreBackup` | src/godump/dump/dump.go:87-109 | The tree and its "back" node are stored so that walking the node calls Back with the date and every user property and then tells the tree; the tables change as if the directories of the visible tree were left in turn; success needs inode numbers below 2^63, and failure larger ones or a failed call. |
| `Runs.WriteBack` | src/godump/dump/dump.go:95-106 | The "back" node holds the user properties overridden by hash, _date in milliseconds and fsuuid; its only reference is the tree. |
| `Runs.BackHolds` | src/godump/dump/dump.go:95-104 | The header that Back gets has every property of the user but those named hash, _date and fsuuid, with its value; it has the identifier of the tree as hash and the filesystem as fsuuid, and nothing else. |
| `Runs.BackReads` | src/godump/dump/dump.go:95-104 | The encoded "back" node decodes to itself, and its date and hash parse back to the values written. |
| `Runs.HeaderRoom` | src/godump/dump/dump.go:95-106 | 65000 user properties with names of up to 255 and values of up to 65535 bytes always fit a "back" node. |
| `Runs.RecordedAny` | src/godump/dump/dump.go:87-109 | What a history records, with all it says of identifiers, is recorded in the sense that walks and restores ask for. |
| `Runs.RecordedGrows` | src/pool/sql-pool.go:101-105 | A recorded backup stays recorded when the pool only gains chunks. |
| `Runs.Restart` | src/pool/sql-pool.go:87-90 | A crash or a close without flush, and opening again, loses exactly what was not committed and keeps the invariant; when opening fails the pool is not usable. |
| `Runs.Expire` | src/godump/cachecmd/expire.go:11-25 | Success commits exactly the unexpired entries; however it ends, no chunk changes and every remaining cached identifier stays in the pool and true. |
| `Runs.TruthKept` | src/cache/cache.go:55-79 | Numbering a new filesystem keeps every entry cached for the others true. |
| `Runs.SavedInView` | src/pool/sql-pool.go:92-99 | What is committed is always part of what the transaction sees. |
| `Recovery.WalkTells` | src/store/decode.go:23-78 | Running the script that a walk of a recorded backup performs against a visitor that never refuses, whatever it does with EarlyVisit and Chunk, succeeds; its calls on decoded nodes are Back, with every user property, and then the whole depth-first traversal of the tree, nothing else; and it begins with every identifier below the backup, in the order of the references. |
| `Recovery.WalkBackup` | src/store/decode.go:23-78 | Backup then walk is the identity: the walk itself, by any visitor that never refuses, replies Continue; the decoded calls in its log are Back, with every user property, and then the depth-first traversal of the visible tree; EarlyVisit is called for every identifier below, in the order of the references, each stored chunk is shown right after it, and each decoded call comes right after its chunk. |
| `Recovery.Visit` | src/store/decode.go:23-46 | For every visitor that ignores raw chunks, walking a stored identifier ends in the state, reply and decoded calls of the story of that identifier. |
| `Recovery.Recover` | src/godump/restore/restore.go:34-45 | Restoring a recorded backup to a new place works exactly when the numbers GetInt reads fit 32 bits, and then makes exactly the files, directories and links of the visible tree. |
| `Recovery.RecoverTold` | src/godump/restore/restore.go:34-45 | The same on values: the restoring visitor run over the story of the backup. |
| `Recovery.LargeOwner` | src/store/props.go:132-145 | Of a backup with a file owned by user 2^31, a restore by root fails and one by another user works. |
| `Recovery.RegenRebuilds` | src/godump/cachecmd/regen.go:32-50 | Regenerating from any recorded backup succeeds exactly when the inode numbers of its directories and their files are below 2^63; for each directory number of its tree, mount points included, the cache then has exactly one entry for each inode of the regular files in the directory with that number left last, with its ctime and an identifier its bytes can be read from, while the date fits 64 bits; other numbers and filesystems keep their entries. |
| `Recovery.LargeInodeRegen` | src/cache/cache.go:125 | A recorded backup with a file of inode 2^63 cannot be regenerated. |
| `Memories.LargeInode` | src/cache/cache.go:125 | One regular file of inode 2^63 in its root makes a tree one that is refused, whatever else it holds. |
| `Memories.GatheredBelow` | src/cache/cache.go:88-128 | The driver takes the entries gathered in a directory exactly when its number and those of its regular files are below 2^63. |
| `Recovery.ToldWhole` | src/store/decode.go:189-214 | Nowhere in what a walk tells of a backed-up tree does the decoder give up. |
| `Dumps.Backup.Directory` | src/godump/dump/dump.go:120-194 | A directory is stored so that its node tells the visible directory, under an identifier that depends on the visible tree alone when pieces are fixed by ctimes; cached entries stay true and only chunks and cache entries are added, also on failure. On success the tables changed as if the directories of the visible tree were left in turn, each writing its files under its inode number. Success needs the inode numbers of directories and their regular files below 2^63; otherwise it fails, and else only when a call failed. New cache entries are found ones, or their files were read. |
| `Dumps.Backup.RegularFile` | src/godump/dump/dump.go:196-242 | The node of a file tells its properties and bytes, whether its data came from the cache or was read, under an identifier that does not depend on which when pieces are fixed by ctimes; the new cache entries are true. What the properties say is stated by `Trees.NodeSaid`. |
| `Dumps.Backup.FileData` | src/godump/dump/dump.go:215-236 | The identifier of the contents reads back as the bytes of the file, both for a cache hit on inode and ctime and after reading; a hit reuses the cached identifier without touching the pool; either way the file is entered for the next backup. A hit enters exactly the entry that was found, with its expiry; otherwise the file is opened and read, and the new entry expires two to six weeks later. |
| `Dumps.MustRead` | src/godump/dump/dump.go:213-236 | A file that was not read in the six weeks before a backup is not taken from the cache, so the backup reads it. |
| `Memories.LeaseKept` | src/cache/cache.go:228-235 | When every entry expires less than six weeks after the last reading of its file, that is so after a backup, which reads the files whose entries it renews. |
| `Memories.RenewedPartly` | src/cache/cache.go:88-132 | Updating a directory, even in part, leaves only entries that were there before with the same expiry or whose files were read. |
| `Dumps.Backup.PlainNode` | src/godump/dump/dump.go:244-257 | The node of a link, device, pipe or socket tells its properties, with the target of a link. What the properties say is stated by `Trees.NodeSaid`. |
| `Trees.NodeSaid` | src/godump/dump/dump.go:272-316 | For every node whose numbers fit 64 bits, mode, dev, ino, nlink, uid, gid and size each parse back to their own attribute, and mtime and ctime to their instants; rdev is there exactly for devices and the target exactly for links; the link to contents parses back. |
| `Trees.KindTells` | src/godump/dump/dump.go:278-297 | Two nodes have the same kind text exactly when they have the same type. |
| `Trees.VisibleAt` | src/godump/dump/dump.go:120-139 | A backup sees at a path exactly what can be reached through directories of the device of the root, mount points themselves included, with its type, attributes and contents. |
| `Dumps.Backup.WriteNode` | src/godump/dump/dump.go:259-268 | The chunk under the returned identifier is the canonical encoding of the properties, and the pool stays closed. |
| `Dumps.Backup.SetExpire` | src/cache/cache.go:230-235 | An entry expires at least two and less than six weeks after the base time. |
| `Dumps.Backup.CachedFiles` | src/godump/dump/dump.go:141-145 | What GetDir finds is true of the directory and has not expired. |
| `Dumps.Backup.UpdateCache` | src/godump/dump/dump.go:192-193 | Writing true entries keeps the whole cache true, also when the update fails half way; success replaces the entries of this directory by its files and those of no other. It succeeds only with inode numbers below 2^63, and then fails only when a call failed. |
| `Dumps.Backup.StoreChildren` | src/godump/dump/dump.go:147-182 | The chunks of a directory tell exactly its children, in order and under their names, with a root that is a function of the entries; exactly the regular files among them are gathered for the cache, and the directories below are left in turn. It fails only on a failed call or on inode numbers of 2^63 and more in a directory below. |
| `Dumps.Backup.AddEntry` | src/godump/dump/dump.go:174-177 | The writer gets the entry of the next child: its entries still name and tell the children so far, in order. |
| `Dumps.PartlyTrue` | src/cache/cache.go:89-132 | A partly done update with true entries leaves a cache in which every identifier is present and true. |
| `Dumps.DecidedReads` | src/godump/dump/dump.go:215-236 | What a backup leaves in a true cache has identifiers that read back as the bytes of the files. |
| `Dumps.HitExactly` | src/godump/dump/dump.go:213-222 | What was stored for a file is used exactly when the inodes agree, the ctimes agree but for a multiple of 2^64 ns, and the new ctime fits 64 bits. |
| `Dumps.WrappedHit` | src/cache/cache.go:125 | The concrete case: ctimes 0 and 2^64 ns of one inode count as the same. |
| `Dumps.NextHits` | src/godump/dump/dump.go:210-222 | The cache is effective: when a directory still has the files that the directory with its number left last had, and none of its entries has expired, the next backup takes every file with a 64-bit ctime from the cache. |
| `Trees.NodeEncodes` | src/godump/dump/dump.go:272-316 | Every node whose numbers fit 64 bits encodes within the length limits of names, values and chunks. |
| `Trees.PackOfNames` | src/store/dir.go:29-54 | How entries are packed depends on their names only, not on the identifiers. |
| `Telling.TellsDir` | src/store/decode.go:128-150 | A directory node whose link tells its entries tells the directory: Enter and Leave around each child under its name. |
| `Telling.TellsReg` | src/store/decode.go:152-175 | A file node whose link tells its bytes tells the file: Open and Close around exactly those bytes. |
| `IndirectWriters.IndirectWriter.constructor` | src/store/indirect.go:25-34 | The fan-out is the limit divided by the identifier length; a new writer holds nothing. |
| `IndirectWriters.IndirectWriter.Add` | src/store/indirect.go:36-40 | All or nothing: the levels are the closed form of the identifiers added, one more on success and none on failure; it makes exactly the inserts the counter needs; a failure needs a failed call, and the panic on a five-character kind needs k^10 identifiers. |
| `IndirectWriters.IndirectWriter.Push` | src/store/indirect.go:69-77 | The identifier joins the row entering at its level, lower levels are untouched, a failure changes no level. |
| `IndirectWriters.IndirectWriter.Room` | src/store/indirect.go:79-114 | A full or purged level is written and its block carried upwards before it is cleared; otherwise nothing happens; the contract speaks of this level and those above only. |
| `IndirectWriters.IndirectWriter.Finalize` | src/store/indirect.go:42-67 | Terminates for k >= 2 although the tree grows under the loop; leaves the root alone on the top level at the least height; the root is that of the offline algorithm, also when failed calls were repeated; makes exactly the missing inserts. |
| `IndirectWriters.IndirectWriter.PurgeAll` | src/store/indirect.go:54-61 | The loop ends with one level more than were emptied and one identifier left in the row above them. |
| `IndirectWriters.IndirectWriter.InsertNull` | src/store/indirect.go:43-52 | Nothing added: the empty "null" chunk is stored. |
| `Capacity.BuffersDescribed` | src/store/indirect.go:69-114 | Between two Adds the levels are the bijective base-k numeral of the number of leaves: each holds 1..k identifiers of complete k-ary trees of k^i leaves, and read from the top down they are the leaves in order. |
| `Capacity.RootCapacity` | src/store/decode.go:28-43 | Exact capacity: up to k^4 leaves of a file or k^3 of a directory the root tells the leaves in order and with repetitions; above that, up to k^10, the root has no handler and nothing is told. |
| `Capacity.TotalInserts` | src/store/indirect.go:42-114 | Adds and Finalize together insert the sum over i = 1..h of ceil(n / k^i) indirect chunks, h the height. |
| `Capacity.LimitFar` | src/store/indirect.go:126-128 | The capacity is reached long before kinds get a fifth character. |
| `Heights.HeightLeast` | src/store/indirect.go:54-61 | The height is the least h with n <= k^h. |
| `Heights.RowCount` | src/store/indirect.go:81-114 | After the levels below i the row at level i has ceil(n / k^i) identifiers. |
| `Heights.UpAt` | src/store/indirect.go:79-124 | The block at each place of a row is the chunk of the next k identifiers of the row below, the last one of those that are left, under the kind of its level. |
| `Heights.HandledLevels` | src/store/decode.go:34-40 | Exactly the first four "ind" levels and the first three "dir" levels have a handler. |
| `Heights.LevelKind` | src/store/indirect.go:126-128 | A three-byte prefix and a digit never name a blob, node, back, null or dir chunk. |
| `Heights.RowHeight` | src/store/indirect.go:54-61 | While purged rows have two or more identifiers the height counts them. |
| `Packing.PackSplits` | src/store/dir.go:29-54 | The greedy groups are within the limit, non-empty, and join to exactly the entries added. |
| `Packing.PackOptimal` | src/store/dir.go:32-37 | No order-preserving split of the entries within the limit uses fewer chunks. |
| `Packing.PackGreedy` | src/store/dir.go:29-37 | A group is only begun with an entry that does not fit the group before it. |
| `Packing.PackFewer` | src/store/dir.go:29-54 | Fewer entries never need more chunks. |
| `DirWriters.DirWriter.Add` | src/store/dir.go:29-54 | All or nothing, with the entry packed greedily; a failure leaves the buffer and the levels as they were. |
| `DirWriters.DirWriter.Ship` | src/store/dir.go:65-83 | The buffer becomes a directory chunk, and is emptied only after the indirect writer took it. |
| `DirWriters.DirWriter.Finalize` | src/store/dir.go:56-63 | The root depends on the entries alone, also after failed calls were repeated; up to k^3 chunks, walking it tells exactly the entries added. |
| `DirWriters.SmallDir` | src/store/dir.go:56-83 | The root of an empty directory is the empty null chunk, that of one group its "dir " chunk, and that of 2 to k groups the "dir0" chunk of their identifiers in order. |
| `DirWriters.DirRootStory` | src/store/decode.go:189-214 | A finished directory tells the stories of its entries, each under its name and in order. |
| `Stories.EntriesRoundTrip` | src/store/dir.go:39-52 | Decoding a directory chunk gives its entries back exactly when every name fits sixteen bits. |
| `Stories.EntriesAt` | src/store/dir.go:39-52 | The bytes of a directory chunk, entry by entry: two bytes with the length of the name, the high one first, the name and the twenty bytes of the identifier. |
| `Stories.LongNameRead` | src/store/dir.go:39-52 | A name of 65536 bytes is read back as an empty name, with an identifier made of its first twenty bytes. |
| `Stories.IndRefsFlatten` | src/store/indirect.go:120-124 | Decoding the bytes of an indirect chunk gives the identifiers back. |
| `Files.WriteFile` | src/store/file.go:14-63 | The root depends on the pieces read alone, and up to k^4 of them it is told as the bytes of the file; a failure needs a failed call: opening the file twice, a read, or an insert. |
| `Files.SmallFile` | src/store/file.go:14-63 | The root of an empty file is the empty null chunk, that of one piece its blob, and that of 2 to 13107 pieces the "ind0" chunk of their identifiers in order. |
| `Files.StorePiece` | src/store/file.go:50-59 | Each piece is stored as a blob and its identifier added, keeping those before it. |
| `Files.FileStory` | src/store/decode.go:218-238 | The blobs told for a stored file concatenate to its bytes. |
| `Decode.Walker.Walk` | src/store/decode.go:48-78 | For every visitor and whatever it answers, the calls, their order and paths, the final state and the error are those of the script of the identifier. The first call is EarlyVisit; when it returns nil and the identifier is stored, Chunk with the stored content is called next at the same path; every Blob, Back, Enter, Open and Node comes right after the Chunk it is decoded from, and no call that is due is left out; a missing identifier ends the walk with that error. The path is restored also on an error; the walk terminates by arrival rank. |
| `Decode.WalkInOrder` | src/store/decode.go:48-78 | The same of the script run against any visitor. |
| `Stories.WalksAll` | src/store/decode.go:48-78 | Unless the decoder gives up, the identifiers that a script begins with are all those reachable through references, in preorder, whatever the kinds of their chunks. |
| `Decode.Walker.BackChunk` | src/store/decode.go:82-121 | A "back" chunk calls Back with date and header and goes on to its hash; each malformed case ends the walk with an error. |
| `Decode.Walker.DecodedNode` | src/store/decode.go:123-186 | Enter and Leave, Open and Close, or Node, around the linked identifier; a pruned opening call has no closing one. |
| `Decode.Walker.IndChunk` | src/store/decode.go:218-234 | The identifiers are walked in order until one fails or the data ends short. |
| `Decode.Walker.DirChunk` | src/store/decode.go:189-214 | Each entry is walked below its name, and the name is taken off the path again even on an error. |
| `Decode.InsertsClosed` | src/pool/sql-pool.go:101-105 | Every run of inserts whose references are present leaves a closed pool in which references strictly decrease in arrival rank, even when a colliding insert is skipped. |
| `Decode.PutClosed` | src/pool/sql-pool.go:101-105 | One such insert keeps the pool closed and everything stored before unchanged. |
| `Decode.ClosedIsRanked` | src/store/decode.go:48-78 | In a closed pool the arrival rank is a termination measure for the walk. |
| `Stories.ScriptShaped` | src/store/decode.go:123-186 | Every script has its closing events last inside their opening ones, and Prune is soft exactly for the announcing callbacks. |
| `Stories.StoryStable` | src/store/decode.go:48-78 | What a stored identifier tells does not change when the pool grows. |
| `Stories.StoryOfNode` | src/store/decode.go:123-186 | The story of a node is its opening event, the story of what it links to, and its closing event. |
| `Stories.StoryOfInd` | src/store/decode.go:218-234 | The story of a handled indirect chunk is the stories of its identifiers. |
| `Stories.StoryOfDir` | src/store/decode.go:189-214 | The story of a directory chunk is the stories of its entries below their names. |
| `Visitors.RunBalanced` | src/store/decode.go:128-175 | When a walk succeeds, each accepted Enter has its Leave and each accepted Open its Close, with equal properties and path, properly nested; a pruned one has none. |
| `Visitors.RunAborts` | src/store/decode.go:248-254 | A walk goes on past a callback exactly when it returned nil, or Prune from EarlyVisit, Chunk, Back, Enter or Open; otherwise it ends there and returns that very error; Prune comes out of a walk only from Leave, Close, Node or Blob. |
| `Visitors.RunSeesCut` | src/store/visitor.go:13-15 | Prune takes exactly that node's remaining events and its subtree out of the trace. |
| `Visitors.RunSeesAll` | src/store/visitor.go:57-70 | A visitor that never refuses sees every event, in order and at its path. |
| `Visitors.RunStrip` | src/store/visitor.go:63-64 | A visitor with the empty EarlyVisit and Chunk behaves on the decoded events alone as on all. |
| `Visitors.RunSeesStripped` | src/store/visitor.go:57-70 | A visitor that never refuses, whatever it does with EarlyVisit and Chunk, sees among its calls exactly the events of the stripped script. |
| `Visitors.RunMaintains` | src/store/decode.go:23-78 | What every callback of a visitor keeps holds after a walk, wherever it stops. |
| `Pool.RunSound` | src/pool/sql-pool.go:101-138 | Crash safety over every interleaving of inserts with failed or torn files, flushes, crashes and reopens: a committed row stays, with the bytes it was committed with, and searching it never misses the file nor panics on its size. |
| `Pool.StepSound` | src/pool/sql-pool.go:101-138 | Every single step keeps rows and side files together. |
| `Pool.InsertRefines` | src/pool/sql-pool.go:101-138 | Rows and files refine a grow-only map: the first chunk put under an identifier stays what is found there. |
| `Pool.StoreRoundTrip` | src/pool/sql-pool.go:107-135 | Equal sizes mark exactly the uncompressed rows, so that a stored chunk reads back with its kind and data. |
| `Pool.FileNameInjective` | src/pool/sql-pool.go:197-201 | Different identifiers have different side files. |
| `Pool.FileNameText` | src/pool/sql-pool.go:197-201 | A side file is named by the digits of its identifier: the first two name its directory below "blobs", the others the file. |
| `Pool.SqlPool.Insert` | src/pool/sql-pool.go:101-138 | On success the map gains the chunk unless the identifier is present; a new row holds the length of the data and that of the shorter of its plain and compressed forms, and this form, in a side file exactly when it is longer than 100000 bytes; on failure nothing visible changes, and some call failed; committed chunks are untouched. |
| `Pool.InsertCompact` | src/pool/sql-pool.go:107-135 | The same of every successful insert step for an identifier that has no row. |
| `Pool.SqlPool.WriteSideFile` | src/pool/sql-pool.go:117-129 | The side file is written, making its directory on the second attempt; no other file changes. |
| `Pool.SqlPool.Search` | src/pool/sql-pool.go:140-174 | Finds exactly what the map holds, with its kind and data; the size panic is unreachable. |
| `Pool.SqlPool.Contains` | src/pool/sql-pool.go:203-215 | Tells whether the transaction has a row for the identifier. |
| `Pool.SqlPool.Flush` | src/pool/sql-pool.go:92-99 | Success commits everything the transaction sees; failure commits all or nothing and ends the usable transaction. |
| `Pool.SqlPool.Reopen` | src/pool/sql-pool.go:62-85 | Reopening shows exactly what was committed; when it fails, no call on the pool works. |
| `Pool.SqlPool.constructor` | src/pool/sql-pool.go:24-53 | A new pool is empty and usable. |
| `Chunks.ChunkWrite` | src/pool/chunk.go:91-128 | Appends the frame of the chunk: header, payload, padding to sixteen bytes; an error leaves a prefix of it. |
| `Chunks.ChunkRead` | src/pool/chunk.go:182-208 | Reads one frame, or fails on a bad magic or a short stream, and returns the pad to skip. |
| `Chunks.FrameRoundTrip` | src/pool/chunk.go:91-208 | Reading a written chunk gives its kind, identifier and data back, and the rest of the stream. |
| `Chunks.FramePayload` | src/pool/chunk.go:91-128 | The frame of plain data by position: the length of the shorter form at 16, the length of the data at 20 if that form is compressed and 0xFFFFFFFF if not, the form itself from 48, and less than sixteen bytes after it. |
| `Chunks.StreamRoundTrip` | src/pool/chunk.go:91-208 | A list of chunks written back to back keeps every chunk aligned and reads back as the same list. |
| `Chunks.RewriteIdentical` | src/pool/chunk.go:91-128 | Writing what was read gives identical bytes. |
| `Base.LE32RoundTrip` | src/pool/chunk.go:131-146 | Four little-endian bytes keep a number modulo 2^32. |
| `Base.LE32Bytes` | src/pool/chunk.go:131-146 | The bytes of a number, the lowest first. |
| `Base.BE16Bytes` | src/store/props.go:121-129 | The two bytes of a length, the high one first. |
| `Props.Encode` | src/store/props.go:94-111 | The bytes do not depend on the iteration order of the map. |
| `Props.DecodeProp` | src/store/props.go:23-51 | The loop accepts exactly the texts that split into items, the last of equal keys winning. |
| `Props.DecodeEncode` | src/store/props.go:23-51 | Decoding an encoded map gives it back. |
| `Props.DecodesItems` | src/store/props.go:23-51 | Any items decode, repeated and unordered ones too, and the last of equal keys stays. |
| `Props.EncodeInjective` | src/store/props.go:94-111 | Different maps have different encodings. |
| `Props.EncodedAt` | src/store/props.go:94-129 | The encoding by position: a byte with the length of the kind, the kind, then in increasing order of key one byte with the length of the key, the key, two bytes with the length of the value, the high one first, and the value. |
| `Props.CanonicalExactly` | src/store/props.go:23-111 | For every accepted input, encoding what was decoded gives the input back exactly when its keys are strictly increasing. |
| `Props.SortedUnique` | src/store/props.go:97-104 | Strictly sorted lists of the same keys are equal. |
| `Base.LessExactly` | src/store/props.go:97-104 | The order of keys is that of their first difference, and a prefix comes before what it begins. |
| `Props.EncodedLength` | src/store/props.go:113-129 | The encoding of n items is at most 256 + 65793 n bytes long. |
| `Text.DecodeTimestamp` | src/store/time.go:12-48 | The scaling loop computes seconds and fraction to the nanosecond, and rejects what the source rejects. |
| `Text.TimestampRoundTrip` | src/store/time.go:12-48 | A time printed as seconds, a point and nine digits decodes to the same instant. |
| `Text.TimestampFraction` | src/store/time.go:12-48 | A fraction of fewer than nine digits counts tenths, hundredths and so on, and a missing one is zero. |
| `Text.FormatTimeShape` | src/godump/dump/dump.go:308-309 | A time is printed as its seconds, signed if negative, a point and nine digits. |
| `Text.OidTextRoundTrip` | src/pool/oid.go:18-40 | The forty digits of an identifier parse back to it. |
| `Text.OidTextThen` | src/pool/oid.go:18-40 | They do so with any text after them that does not begin with a hexadecimal digit. |
| `Text.HexAt` | src/pool/oid.go:18-20 | Each byte is written as two lower-case hexadecimal digits, the high one first. |
| `Text.HexDigitCases` | src/pool/oid.go:18-40 | A digit is written in lower case and read in either case, and nothing else is a digit. |
| `Text.HexExactly` | src/pool/oid.go:22-40 | Bytes are read exactly when the text begins with their digits, of either case, and continues with no digit. |
| `Text.OidAfterSpace` | src/pool/oid.go:22-40 | White space before an identifier is skipped, and a newline there is an error. |
| `Text.ParseUintRoundTrip` | src/godump/dump/dump.go:300-308 | A printed 64-bit number parses back to it. |
| `Text.ParseIntRoundTrip` | src/store/decode.go:92-96 | A printed signed 64-bit number parses back to it. |
| `Text.DecimalAt` | src/godump/dump/dump.go:301-307 | The digits of a printed number by their places, the most significant first, without a leading zero. |
| `Text.ParseUintExactly` | src/godump/cachecmd/regen.go:74-84 | Exactly the decimal numerals below 2^64 are read, with any zeros before them. |
| `Text.ParseIntExactly` | src/store/decode.go:92-96 | Exactly the decimal numerals from -2^63 to 2^63 - 1 are read, with an optional sign and any zeros after it. |
| `Caches.Cache.UpdateDir` | src/cache/cache.go:88-132 | Success replaces the entries of the directory, and needs inode numbers below 2^63; failure leaves some of the old and some of the new ones, with all constraints kept, and comes from a larger number, a failed call or a lost transaction. |
| `Caches.Cache.GetDir` | src/cache/cache.go:134-189 | Finds exactly the entries of the directory that have not expired, by inode; works only for inode numbers below 2^63, and then fails only when a call failed or the transaction was lost. |
| `Caches.NewCache` | src/cache/cache.go:55-79 | The filesystem has a number afterwards, and no entry changes. |
| `Caches.RunExpire` | src/cache/cache.go:191-226 | Success keeps exactly the unexpired rows and the directories they belong to; failure loses expired rows only. |
| `Caches.RewrittenInfos` | src/cache/cache.go:89-132 | Writing a directory replaces its entries by exactly the unexpired ones given, and no other directory gains, loses or shares an entry, even when a row key is used again. |
| `Caches.WrittenExactly` | src/cache/cache.go:120-129 | An entry is written exactly for each file that has not expired, with its inode, identifier and the 64-bit nanoseconds of its two times. |
| `Caches.RewrittenConsistent` | src/pool/sql-pool.go:240-256 | Writing a directory keeps (fsid, pino) unique, every row in an existing directory, and one row for each inode in it. |
| `Caches.ExpiredEntries` | src/cache/cache.go:194-226 | Expiry keeps the constraints, drops exactly the expired entries, and leaves every directory row with an entry that has not expired. |
| `Caches.NewFilesystem` | src/cache/cache.go:55-79 | A filesystem seen for the first time starts without entries; the others keep theirs. |
| `Caches.UnixNanoExact` | src/cache/cache.go:237-245 | A time that fits 64 bits of nanoseconds survives the column that stores it. |
| `Regens.RegenState.OnBack` | src/godump/cachecmd/regen.go:54-72 | Opens the cache of the filesystem of the backup with the date of the backup as its base time; fails only without fsuuid or on a failed call. |
| `Regens.RegenState.OnEnter` | src/godump/cachecmd/regen.go:74-84 | Pushes a new directory, which becomes the current one. |
| `Regens.RegenState.OnLeave` | src/godump/cachecmd/regen.go:86-116 | Pops the current directory, returns to the one below, and writes the entries collected in it; fails only on inode numbers of 2^63 and more or on a failed call. |
| `Regens.RegenState.OnOpen` | src/godump/cachecmd/regen.go:118-141 | Adds the file to the current directory through the shared object, changes no other, and prunes. |
| `Regens.DirCollects` | src/godump/cachecmd/regen.go:74-116 | Walking a told directory works exactly when the inode numbers of its directories and their files are below 2^63, and then changes the tables as if its directories were left in turn, each writing its files, and leaves the stack of directories as it was. |
| `Regens.KidsRegen` | src/godump/cachecmd/regen.go:118-141 | Walking the children works exactly when the directories below have inode numbers that can be written; it collects exactly the regular files among them in the current directory and leaves the directories below in turn. |
| `Memories.LeavesThen` | src/godump/cachecmd/regen.go:86-101 | Leaving some directories and then others: for each number the directory left last decides, and numbers not among them keep their entries. |
| `Memories.LeavesWritten` | src/cache/cache.go:88-132 | Writing the files gathered in a directory replaces the entries of its number alone. |
| `Memories.LeavesDecided` | src/cache/cache.go:120-129 | With times that fit 64 bits, GetDir then finds one entry for each inode of the regular files of the directory left last, and no other. |
| `Memories.KeepsEntries` | src/cache/cache.go:88-132 | Where several names of one inode in a directory show the same file, a directory keeps its entries exactly when the directory with its number that is left last, mount points included, has the same files. |
| `Memories.MountPointErases` | src/godump/dump/dump.go:131-139 | The concrete case: directory "a" with a file, then a mount point "m" with the same inode number: the entries of "a" are gone. |
| `Regens.StoryLinked` | src/store/decode.go:152-175 | What is told inside an Open is always the story of the identifier in its data property. |
| `Restores.NodePut` | src/godump/restore/restore.go:47-88 | Restoring a told tree where nothing is works exactly when the numbers GetInt reads fit 32 bits, and makes exactly its files, directories and links; other paths keep their contents, and a directory it creates something in loses at most its time. |
| `Restores.BuiltAt` | src/godump/restore/restore.go:47-88 | At every path a restored tree shows the node that was there: file, directory or link, with its bytes or target, its mode and time, and as root its owner and group; there is nothing at any other path. |
| `Restores.RegRestored` | src/godump/restore/restore.go:91-107 | Owner, mode and time are set as backed up exactly when mode, and as root uid and gid, are below 2^31. |
| `Restores.LinkRestored` | src/godump/restore/restore.go:112-132 | A link is made with its target and, as root, its owner, under the same condition. |
| `Restores.BlobsWritten` | src/godump/restore/restore.go:163-166 | The blobs of a file append its bytes, in order. |
| `Restores.DirPut` | src/godump/restore/restore.go:64-78 | Times of directories are set after their children are made, so that making them does not disturb the times. |
| `Restores.PathInjective` | src/store/visitor.go:84-98 | Different places of a tree have different path names below any base. |
| `Restores.PathParts` | src/store/visitor.go:84-98 | Splitting a path name at the slashes gives the parts of the base and then the names, in order. |
| `Restores.PathOf` | src/store/visitor.go:84-98 | The loop joins base and names with single slashes, without a leading one for an empty base. |
| `Restores.NumberRead` | src/store/props.go:132-145 | A printed number is read by GetInt exactly when it is below 2^31. |
| `Restores.RestoreState.OnOpen` | src/godump/restore/restore.go:47-54 | Works exactly when nothing is at the path and its parent is a directory; then exactly an empty private file is new and open, and only the time of the parent may differ; otherwise nothing changes and no file is open. |
| `Restores.RestoreState.OnBlob` | src/godump/restore/restore.go:163-166 | Works exactly with an open file; its bytes grow at the end by the data, and nothing else changes. |
| `Restores.RestoreState.OnClose` | src/godump/restore/restore.go:56-62 | Works exactly when a file is open, the path exists and the needed numbers and time can be read; for properties of a backed up node that is when its numbers are below 2^31, and then its metadata are those of the node. No contents and no other path change, also on failure. |
| `Restores.RestoreState.OnEnter` | src/godump/restore/restore.go:64-74 | Works exactly when nothing is at the path and its parent is a directory; then exactly an empty private directory is new, and only the time of the parent may differ; otherwise nothing changes. |
| `Restores.RestoreState.OnLeave` | src/godump/restore/restore.go:76-78 | Works exactly when the path exists and the needed numbers and time can be read; for properties of a backed up node that is when its numbers are below 2^31, and then its metadata are those of the node. No contents and no other path change, also on failure. |
| `Restores.RestoreState.OnNode` | src/godump/restore/restore.go:80-88 | Passes over other nodes. A link is made exactly when mode, target and, as root, owner can be read and the path is free; then it alone is new, with its target and owner. On failure nothing changes, unless only the owner was missing: then the link is left without one. |
| `IndexFiles.Lookup` | src/pool/index-file.go:273-298 | Binary search in the part of the table for the first byte finds a key exactly when the map has it, and then gives its offset. |
| `IndexFiles.LookupInFile` | src/pool/index-file.go:273-298 | Reading a written index file back and looking a key up gives what the map gives. |
| `IndexFiles.ReadFileIndex` | src/pool/index-file.go:327-378 | Accepts exactly the files long enough for their own size with the magic, the version and the pool size asked for. |
| `IndexFiles.WrittenReadable` | src/pool/index-file.go:42-90 | A written file can be read by a reader of its version and holds the three tables of the sorted keys. |
| `IndexFiles.FileLayout` | src/pool/index-file.go:42-136 | The file by position: the magic, version 4, the pool size, a count for each first byte, the sorted keys, their offsets, and the kinds last. |
| `IndexFiles.TopSplits` | src/pool/index-file.go:106-119 | top[b] divides the sorted keys: before it exactly those with a first byte of at most b. |
| `IndexFiles.KindsReadBack` | src/pool/index-file.go:138-176 | The kind section gives every key its kind exactly when there are at most 256 different kinds. |
| `IndexFiles.LostKind` | src/pool/index-file.go:171-173 | With more than 256 kinds some key gets the kind of another. |
| `IndexFiles.WriteBufferedThings` | src/pool/index-file.go:178-206 | For any grouping the buffered writes are the unbuffered concatenation. |
| `IndexFiles.WriteTop` | src/pool/index-file.go:106-119 | Writes for each byte the number of keys up to it. |
| `IndexFiles.WriteKinds` | src/pool/index-file.go:138-176 | Writes the kinds in use, sorted, then the place of the kind of each key. |
| `IndexFiles.WriteIndex` | src/pool/index-file.go:42-90 | A reported success leaves the new index in place, or under the temporary name when the unchecked rename failed; a reported failure leaves the old index; without failed calls the new index is in place and the temporary file gone. |

## Left out

- SHA-1 and zlib: any hash function, and any lossless compressor, stand for them.
- SQLite and SQL text, schema creation and versions: tables are maps and sets of rows; a new row key is one above the largest.
- Real file systems, stat, linuxdir and blkid: a tree of nodes in reading order, with the results of successive reads.
- Side files are durable once written, and so is a commit. The source does not sync side files before it commits, so a power loss
  (not a crash of the program) can leave a row without its file.
- Pool.SqlPool.constructor: does not model failures of creating the directory and the database; no pool comes of them.
- DirWriters.DirWriter.Add: requires names of at most 65535 bytes, longer than any file system gives. A chunk with a longer name
  can name identifiers that nobody stored (`Stories.LongNameRead`), so that the pool would not stay closed.
- Dumps.Backup.StoreChild: the source does not check the error of `regularFile` and goes on with a nil identifier, which ends the
  program; the model stops there with the error.
- The file type bits of the mode: the constructor of a tree node stands for them, and an unknown type does not occur.
- Progress meters, counters, logging, listing, configuration, and the manager that starts programs.
- Decode.Walker.Walk: does not model visitors that write into the property maps they are given, which none in the repository
  does, nor a search that returns neither chunk nor error, which the pool never does.
- Decode.Walker.BackChunk: reads the hash from the decoded properties, which such a visitor could have changed.
- Decode.Walker.DecodedNode: reads the link from the decoded properties, which such a visitor could have changed.
- Pool.SqlPool.Search: does not model failing reads of an existing row or side file, so a walk ends only by its visitor, a
  missing identifier or malformed data.
- IndirectWriters.IndirectWriter.Add: is not called after Finalize has begun; the source does not do so either.
- IndirectWriters.IndirectWriter.constructor: requires room for one identifier, and Finalize a fan-out of two for more than one
  leaf, because below that the source recurses or loops forever; levels are values, so the sharing of a level buffer with a
  chunk being inserted is not modelled.
- Kinds are the four bytes themselves: the 32-bit form of `StringToKind` and its memo table are not modelled.
- Files.WriteFile: data of a chunk is shorter than 2^32 bytes, as the read buffer guarantees; the model says nothing of larger
  chunks made elsewhere.
- Recovery.RegenRebuilds: is stated for a database in which no call fails; the object `RegenState` and `Rebuilds.Regenerate`
  also model failing ones.
- The walker takes a visitor as a value. The callbacks of the objects `RegenState` and `RestoreState` are proved equal to the
  functions that the visitors of the walks are made of.
- Restores.NodePut: file system calls fail only on an existing path or a missing parent; permissions, the umask around
  symbolic links, what a chown does to mode bits, and that os.Chtimes passes times through 64-bit nanoseconds, are not modelled.
- Dumps.Backup.SetExpire: any age between two and six weeks stands for the random one.
- The commented-out RAM index, `pool.go` interfaces, random words, pdump and tutil.
