# Syncy, verified

Syncy keeps folders equal on several devices without a server. This project models its
engine (`engine/internal`) in Dafny and proves what it is for: that a pull rebuilds files
correctly whatever the peer sends, that alternating pulls bring two devices to the same
folder without losing an edit, that chunking is independent of how bytes arrive and local
to edits, and that trust between devices needs the consent of both users.

`dafny verify dfyconfig.toml` checks everything.

The layers, lowest first:

- **Basics, Order, Names** - bytes and digests, the order of strings and of time stamps,
  sorting, conflict names and temporary files.
- **Chunker, ChunkerLemmas, Scanner** - the gear hash over a refilled buffer against a
  simple recursive split; where cuts fall and what they depend on; one-pass scanning.
- **Protocol** - frames on a byte stream.
- **Reconcile, Rounds, Alternation, Tries** - what one pull does to a folder, where pulls in
  turn lead, and what tries that may fail keep. Nothing there depends on what paths, contents
  and digests are, so it is generic.
- **Session, Turn, HonestPeer, Pull** - the pull itself on a disk that remembers every state
  it went through, with a peer that is either honest or answers with an arbitrary script.
- **SourceOrder, Recovery** - two files that can be pulled in one order and not in the other;
  what a pull replaces can be restored.
- **SyncEngine, Convergence** - the engine that scans, pulls, rescans and records the
  baseline; and two engines in turn, from any state.
- **Diff, Monitor** - the index diff with rename pairing, and the live stream of changes.
- **Versioning, VersionVector** - recoverable versions; version vectors and edit histories.
- **Friends, Handshake** - the friend store of one device, and the handshake among any
  number of devices over a network that loses, repeats, reorders and forges.

Digests: SHA-256 is a parameter, any function to 32 bytes. Digest comparison is exact in
every result about an arbitrary peer. Results about honest peers assume that no two
different stretches of the files in play share a digest (`HonestPeer.CollisionFree`) and, for
baselines, that no file has the all-zero digest, which Go reads for a missing map entry.
The 256 words of the gear table are a parameter too; nothing depends on them. Words are
integers below 2^64 with wrapping written out, and masking a word means looking at its low
bits one by one (`Chunker.LowBitsZero`). What `filepath.IsLocal` accepts, which file a path
means once it is cleaned, and how long encoded messages are, are parameters as well.

What the code does where one might expect otherwise:

- After keep-local or a conflict the *local* digest becomes the baseline. Two pulls by one
  device in a row therefore let the peer's stale file win
  (`Rounds.TwoPullsInARowLoseAnEdit`); `Rounds.SecondPullKeepsExactly` says exactly which
  paths survive a second pull. Convergence holds for alternating pulls.
- Deletions never travel: a round leads to the union of the paths.
- The block index is built once. If an earlier file of the same pull overwrites a block that
  a later one reuses, the later one fails safely (`SourceOrder.PullFails`). A pull from an
  honest peer succeeds exactly if every turn works out (`HonestPeer.AllWork`): a condition on
  the two folders, the baseline and the order of the list.
- An index that does not fit a frame is not sent, and neither is one of a folder that could
  not be scanned; the puller takes the end of the stream for the end of the list, succeeds
  and records a new baseline. That can lose an edit (`Rounds.UndeliveredIndexLosesAnEdit`);
  `HonestPeer.HonestSuccessIsMergeExactly` says when a success is the merge.
- Paths are cleaned when they are joined to the folder, but compared as they are sent. A path
  that is local and not clean is taken for a new file and overwrites the file it means
  (`Turn.AliasOverwritesEdit`). Edited files are safe from any peer whose paths mean the files
  of those names, except a file that has the name which the pull gives to a conflict copy it
  makes; for the other peers `Pull.Sound` has the exact condition.
- `Versions` of a name also lists versions of other files: of those with the same stem if the
  name has no extension, and of those whose stem goes on with a `~`, such as the backup
  `notes~` of `notes` (`Versioning.ListsForeignVersionsExactly`). Pruning counts them, and the
  stamps of a backup sort above every date, so ten versions of `notes~` make the store drop
  every new version of `notes` (`Versioning.BackupsPushOutNewVersion`).
- Equal short ids, equal seconds: if two devices set the same path aside in the same second and
  the first seven characters of their ids agree, their conflict copies have one name.
  `Convergence.CopiesKeptApart` excludes it.
- `ReadFrame` reports a plain end of file when a stream ends right behind a header
  (`Protocol.TruncatedStream`).
- A monitor that is closed while it waits for a reader drops that change set, after its
  baseline has moved on (`Monitor.Monitor.Run`).

## Model

| member | source | states |
|---|---|---|
| Chunker.Chunker.FindBoundary | engine/internal/chunker/chunker.go:110-126 | the incremental wrapping loop finds the first cut of the rolling fingerprint at or after min: what it returns cuts, or is max or the end, and nothing before it cuts; at most min bytes are one chunk |
| Chunker.Chunker.Fill | engine/internal/chunker/chunker.go:66-82 | the refill loop leaves the buffer holding the next bytes of the input however the reader fragments them, and is full unless the input ended or broke |
| Chunker.Chunker.EmitFirst | engine/internal/chunker/chunker.go:84-94 | cutting the buffer emits exactly the chunk of the whole input at that offset, with the hash of its bytes, and keeps the rest |
| Chunker.Chunker.Split | engine/internal/chunker/chunker.go:62-99 | for every reader the emitted chunks are those of the recursive split of the whole contents; on a read error, or when the callback refuses a chunk after accepting some, they are a beginning of it |
| Chunker.Chunker.SplitBytes | engine/internal/chunker/chunker.go:101-108 | a byte slice is split completely and without error |
| Chunker.New | engine/internal/chunker/chunker.go:54-60 | a chunker exists exactly for the configurations that validate |
| ChunkerLemmas.ValidateAcceptsExactly | engine/internal/chunker/chunker.go:28-41 | a configuration validates exactly if 1 <= min <= avg <= max and avg is a power of two |
| ChunkerLemmas.DefaultConfigIsValid | engine/internal/chunker/chunker.go:24-26 | the default configuration validates |
| Chunker.BoundaryIsUnique | engine/internal/chunker/chunker.go:110-126 | the declarative boundary is determined by the bytes |
| Chunker.BoundaryInWindow | engine/internal/chunker/chunker.go:62-99 | a buffer of max bytes finds the same boundary as the whole input |
| ChunkerLemmas.ChunksTile | engine/internal/chunker/chunker.go:62-99 | the chunks tile the input without gap or overlap, each non-empty and with the hash of its bytes |
| ChunkerLemmas.ChunkSizes | engine/internal/chunker/chunker.go:110-126 | no chunk exceeds max and only the last is below min |
| ChunkerLemmas.MaskedFingerprintIsWindowSum | engine/internal/chunker/chunker.go:118-124 | the low k bits of the 64-bit wrapping fingerprint equal a finite sum over the last k bytes |
| ChunkerLemmas.LowBitsAreRemainder | engine/internal/chunker/chunker.go:58-59 | the masked bits are all zero exactly for multiples of the power of two |
| ChunkerLemmas.CutDependsOnWindow | engine/internal/chunker/chunker.go:118-124 | two chunks of sufficient length that end in the same log2(avg) bytes cut alike |
| ChunkerLemmas.CutsExactly | engine/internal/chunker/chunker.go:118-124 | a length cuts exactly if it is at least min and the sum of the gear words of its bytes, each doubled once for every byte behind it, is divisible by avg |
| ChunkerLemmas.WindowSumByAge | engine/internal/chunker/chunker.go:118-119 | that sum, byte by byte: the oldest gear word counts most |
| ChunkerLemmas.ChunksEndAtCuts | engine/internal/chunker/chunker.go:110-126 | every chunk of the split ends at its first cut, at max or at the end of the input, and a rest of at most min bytes is one chunk |
| ChunkerLemmas.PrefixChunksSurvive | engine/internal/chunker/chunker.go:62-126 | non-final chunks inside a common prefix are chunks of both inputs |
| ChunkerLemmas.SuffixChunksResynchronize | engine/internal/chunker/chunker.go:62-126 | from the first boundary two inputs share in a common suffix all later chunks agree in length and hash |
| Scanner.ScanFile | engine/internal/scanner/scanner.go:97-128 | one pass yields size, whole-file digest and blocks of the content; it fails only if reading does |
| Scanner.Scan | engine/internal/scanner/scanner.go:54-95 | the index describes exactly the files that are not skipped |
| Protocol.Stream.WriteFrame | engine/internal/protocol/protocol.go:82-94 | appends the encoding of the frame, or nothing if the payload is too large |
| Protocol.Stream.ReadFrame | engine/internal/protocol/protocol.go:96-110 | takes exactly one frame off the stream, or reports which end was met |
| Protocol.EncodedBytes | engine/internal/protocol/protocol.go:82-94 | the bytes on the wire: type, zero, length of the payload with the highest byte first, payload |
| Protocol.ReadsExactly | engine/internal/protocol/protocol.go:96-110 | what is read, told by the bytes that are left: every length over 16 MiB is refused, every other whole frame is taken, and an end is plain where the source reports it so |
| Protocol.StreamRoundTrip | engine/internal/protocol/protocol.go:82-110 | reading back any sequence of written frames returns it and then a plain end |
| Protocol.TruncatedStream | engine/internal/protocol/protocol.go:96-110 | any truncation yields the frames that are whole, then an end: plain exactly between frames or right behind a header |
| Protocol.AcceptedBytesAreEncodings | engine/internal/protocol/protocol.go:96-110 | whatever is accepted is the encoding of the frame returned, but for the ignored second byte |
| Protocol.Stream.WriteBlockData | engine/internal/protocol/protocol.go:203-208 | writes digest and data as one frame if they fit |
| Protocol.BlockDataRoundTrip | engine/internal/protocol/protocol.go:203-217 | a block payload splits back into the same digest and data |
| Session.BuildBlockIndex | engine/internal/session/session.go:247-257 | every block of the index can be found, and every entry is where such a block lies |
| Session.RequestIndex | engine/internal/session/session.go:259-291 | the files of all frames up to the final one, an error on any other frame, and a clean end counts as the end of the list: of an honest peer's folder that is not served, or whose index does not fit a frame, the empty list |
| Session.IndexInExactly | engine/internal/session/session.go:270-290 | the frames before the first final one add their files in order, that one ends the list, a clean end does too, and any other frame or a broken stream is an error |
| Session.CollectBlocks | engine/internal/session/session.go:307-328 | blocks are collected until there are as many digests as references or the stream ends; an honest answer is collected completely, also when digests repeat |
| Session.BlocksInExactly | engine/internal/session/session.go:307-328 | the blocks up to the first moment when there are as many digests as references, or all if the stream ends cleanly before; any other frame on the way is an error |
| Session.RequestBlocks | engine/internal/session/session.go:293-329 | from an honest peer every requested block arrives; a request that does not fit a frame fails |
| Session.ServesEveryBlock | engine/internal/session/session.go:130-149 | an honest peer answers every servable reference, in order, with its bytes |
| Session.ServesUpToFirstFailure | engine/internal/session/session.go:130-149 | serving stops at the first reference that cannot be read or framed; those before it are answered in order |
| Session.Puller.TakeBlock | engine/internal/session/session.go:369-386 | a local block is taken from where the index says and not from the peer; a block is accepted exactly if these bytes have its digest, fails with the right error otherwise, and is counted on the right side |
| Session.Puller.Assemble | engine/internal/session/session.go:369-390 | the temporary file is the concatenation of verified blocks; it succeeds exactly if every block at hand has its digest |
| Session.Puller.MissingRefs | engine/internal/session/session.go:332-337 | references to exactly the blocks that are not in the folder, in order |
| Session.AsksForTheMissing | engine/internal/session/session.go:332-337 | what is asked for are exactly the blocks whose digests are not in the folder, each once and in block order; the reused blocks are all the others |
| Session.Puller.FetchMissing | engine/internal/session/session.go:339-346 | nothing is asked if no block is missing; an honest peer answers every reference of a request that fits a frame |
| Session.Puller.Install | engine/internal/session/session.go:401-409 | archives what is at the target, then moves the temporary file over it in one step |
| Session.Puller.Build | engine/internal/session/session.go:355-399 | a temporary file with the announced digest, or none; nothing else is touched at any moment |
| Session.Puller.PullFile | engine/internal/session/session.go:331-410 | whatever the peer sends: failure leaves all but the temporary file as it was, success leaves verified blocks with the announced digest in the file that the target path means, and every state in between is the old folder; with an honest peer it succeeds exactly if the target is local, the request fits a frame and the reused blocks are intact, and copies the file |
| Session.HonestPullSucceedsExactly | engine/internal/session/session.go:369-390 | with an honest peer all blocks are usable exactly if the reused ones are intact |
| Session.HonestPullCopies | engine/internal/session/session.go:369-409 | delta reconstruction equals copying the file whole |
| Session.ConcatOfTiles | engine/internal/session/session.go:369-390 | blocks that tile a file, put together, are the file |
| Turn.Choose | engine/internal/session/session.go:194-211 | the decision of one turn is the three-way plan; conflicts are counted |
| Turn.DecidesExactly | engine/internal/session/session.go:193-239 | told by the entries of index and baseline: which files pass, which go to their own path and which to a conflict name |
| Turn.CountsExactly | engine/internal/session/session.go:194-217 | the statistics of a pull count the files that are pulled, those among them where both sides moved, and all their blocks |
| Turn.PullOne | engine/internal/session/session.go:193-217 | one turn passes and changes nothing, or pulls into the planned target with the outcome of a file pull; statistics are exact |
| Turn.DirectSparesAll | engine/internal/session/session.go:193-217 | if every path that is pulled to means the file of that name, no turn writes to an edited local file |
| Turn.CleanPathsAreDirect | engine/internal/session/session.go:193-217 | that is so for a list of clean paths |
| Turn.TurnStaysGuarded | engine/internal/session/session.go:193-239 | no state of a turn touches an edited local file, unless the turn writes other bytes to one through a path that means another file; what it writes is taken not to be a second content with that file's digest |
| Turn.GuardedTurnSpared | engine/internal/session/session.go:193-217 | conversely a successful turn that left edited files untouched wrote no other bytes to one |
| Turn.TurnStaysAnnounced | engine/internal/session/session.go:384-399 | no state of a turn has contents that are new and were not announced |
| Turn.AliasOverwritesEdit | engine/internal/session/session.go:197-213 | the concrete failure: a peer that lists `./notes.txt` gets past the comparison with the baseline, and an edited `notes.txt` is overwritten |
| HonestPeer.RightDigestRightBlock | engine/internal/session/session.go:369-390 | a reused block with the right digest is the right block, also after earlier files of the pull were overwritten |
| HonestPeer.SourceIsIntact | engine/internal/session/session.go:192-217 | a local file that is not fetched before a turn still has its scanned content |
| SourceOrder.OverwrittenSourceFails | engine/internal/session/session.go:192-217 | two files of an honest peer whose list works out only if the new content begins with the old: the second needs a block of what the first has overwritten |
| SourceOrder.PullFails | engine/internal/session/session.go:181-219 | on that list the pull itself fails |
| SourceOrder.OtherOrderSucceeds | engine/internal/session/session.go:192-217 | listed the other way round the same files work out |
| HonestPeer.CopyNamesAreDistinct | engine/internal/session/session.go:208 | no two files of one pull get the same conflict name, whatever the clock says |
| HonestPeer.TurnLeadsOn | engine/internal/session/session.go:193-217 | with an honest peer a turn succeeds exactly if its target is local, its request fits a frame and the blocks it reuses are where the index says in the folder reached so far; then it is one step of the merge |
| HonestPeer.AssuredWorks | engine/internal/session/session.go:192-217 | no turn fails where conflict names are local, requests fit frames and no block source is overwritten before its turn |
| HonestPeer.HonestSuccessIsMergeExactly | engine/internal/session/session.go:259-291 | a successful pull from an honest peer is the merge with its folder exactly if that is served and its index fits a frame, or nothing was to be pulled |
| Pull.Pull | engine/internal/session/session.go:181-219 | for any peer, at every moment: all that is new was announced, and edited local files are untouched if every path means the file of that name, and exactly if no turn writes other bytes to one when some do not; every turn is recorded with the folder and the kept versions behind it; the statistics are those of the list; from an honest peer it succeeds exactly if every turn works out, and leaves the merge with what was announced |
| Recovery.ArchivingKeeps | engine/internal/versioning/versioning.go:120-134 | archiving any file keeps a version, or prunes it where `keep` newer ones are listed with it |
| Recovery.VersionIsKept | engine/internal/session/session.go:193-217 | a version that is there before some turn of a pull is there at its end, unless it was pruned where `keep` newer ones were listed |
| Recovery.ReplacedInTurn | engine/internal/session/session.go:193-217 | a file that a pull has changed was written to by a turn that found its old content |
| Recovery.ReplacedIsRecoverable | engine/internal/session/session.go:401-409 | whoever the peer is and whether the pull succeeds or not: the old content of every file it has replaced was archived by the turn that replaced it, and is in the version store at the end unless it was pruned where `keep` newer versions were listed |
| Reconcile.PullIgnoresOrder | engine/internal/session/session.go:193-217 | with fresh conflict names the folder after a pull does not depend on the order of the remote list |
| Reconcile.MergeIsUnique | engine/internal/session/session.go:193-217 | the path-by-path description of a pull determines the folder |
| Reconcile.AfterUnchanged | engine/internal/session/session.go:193-217 | a local file stays as it is until the list reaches it with the decision to fetch |
| Reconcile.PullProtectsEdits | engine/internal/session/session.go:193-239 | a local path changes only if it equals the baseline; where both sides moved, both contents are there afterwards |
| Names.ConflictNameIsInjective | engine/internal/conflict/conflict.go:89-97 | for one device conflict names determine path and time |
| Names.ConflictNamesTellOrigin | engine/internal/conflict/conflict.go:89-97 | on any two devices equal conflict names are those of the same path and time, on devices with equal short ids |
| Names.ConflictNameIsTmp | engine/internal/conflict/conflict.go:89-97 | a conflict copy is a temporary file only if the path was one |
| Names.ConflictNameExactly | engine/internal/conflict/conflict.go:89-97 | the name spelled out: what is before the last dot that no slash follows, the mark, the stamp, at most seven characters of the id, and the rest |
| Order.LessExactly | engine/internal/versioning/versioning.go:99 | strings are ordered by the first character in which they differ, and a beginning of a string is below it |
| Order.StampsInOrder | engine/internal/versioning/versioning.go:99 | time stamps are ordered as strings as the dates and times that their digits stand for |
| SyncEngine.ScanFolder | engine/internal/syncengine/syncengine.go:128-136 | the index of all files but the temporary ones |
| SyncEngine.IndexHashes | engine/internal/syncengine/syncengine.go:138-144 | the digest of every file |
| SyncEngine.IndexToFileMeta | engine/internal/session/session.go:429-442 | every file once, with its path, digest and blocks |
| SyncEngine.ServesTruthfully | engine/internal/session/session.go:100-149 | what an engine serves from a scan is what an honest peer is taken to serve |
| SyncEngine.Engine.FolderSnapshot | engine/internal/syncengine/syncengine.go:76-90 | a server for every shared folder that can be scanned, and only for those |
| SyncEngine.LocalFolder.PullFrom | engine/internal/syncengine/syncengine.go:100-125 | the baseline becomes the digests of the rescanned folder exactly on success, also when nothing was announced; for any peer the folder is sound at every moment and every turn is recorded; with an honest one success is exact and the whole is a pull in the sense of rounds from what was announced |
| SyncEngine.UndeliveredPullIsPullOfNothing | engine/internal/syncengine/syncengine.go:109-124 | a pull from an honest peer whose index does not arrive is a pull of an empty folder: nothing changes but the baseline |
| SyncEngine.SoundPullIsTry | engine/internal/syncengine/syncengine.go:109-124 | a pull from any peer, failed or not, replaces only recorded contents and what is in the place of a conflict copy, and moves the baseline only on success, if the paths it pulls to mean the files of those names |
| SyncEngine.Engine.PullFolder | engine/internal/syncengine/syncengine.go:95-126 | the same for a shared folder; an unknown one is an error that changes nothing |
| SyncEngine.MergedIsPulled | engine/internal/syncengine/syncengine.go:109-124 | the merge with the new baseline is one pull of a round |
| Convergence.ServedFolderIsReady | engine/internal/syncengine/syncengine.go:66-90 | one engine's snapshot meets all that the other's pull asks of an honest peer |
| Convergence.PullFromEngine | engine/internal/syncengine/syncengine.go:66-126 | one engine pulls what another serves: under conditions on the two folders it succeeds exactly if every turn works out, and a success is a pull in the sense of rounds; where the folder is not served or its index does not fit a frame, a success is a pull of nothing |
| Convergence.PullStaysTame | engine/internal/session/session.go:193-217 | pulling creates no contents, and no paths but ordinary conflict names |
| Convergence.SecondNamesAreNew | engine/internal/conflict/conflict.go:89-97 | whatever the first pull has made of A, the conflict names that B chooses in the second are free, if the short ids differ or the two pulls read different times |
| Convergence.LaterRoundIsNew | engine/internal/syncengine/syncengine.go:118-122 | from the third pull on nothing is set aside, as every baseline is the device's own folder |
| Convergence.RoundWithoutClashIsNew | engine/internal/session/session.go:221-239 | in a round without a clash nothing is set aside |
| Convergence.TwoRounds | engine/internal/syncengine/syncengine.go:66-126 | from any state of two engines, if four alternating pulls succeed, both folders and baselines are equal and hold every edit; otherwise, with steady scans, they have led to a pull that cannot succeed; all conditions are on what is known before the first pull, and ask of index sizes only for folders that these pulls can lead to |
| Convergence.OneRound | engine/internal/syncengine/syncengine.go:66-126 | from two engines in sync with edits that do not clash, one pull each leaves them in sync at the join of the folders, or gets to a pull that cannot succeed; nothing is asked of clocks but well-formed stamps |
| Rounds.PullKeeps | engine/internal/session/session.go:193-239 | a local content is replaced only where it is the recorded baseline |
| Rounds.PullBrings | engine/internal/session/session.go:193-239 | a remote content arrives, under its path or a conflict name, unless it is the recorded baseline |
| Rounds.SecondPullTakesRemote | engine/internal/syncengine/syncengine.go:118-122 | with its own folder as baseline a device takes everything the peer has |
| Rounds.AlternatingPullsConverge | engine/internal/syncengine/syncengine.go:95-126 | from any folders and baselines A, B, A, B pulling in turn ends in sync |
| Rounds.AlternatingPullsKeepEdits | engine/internal/syncengine/syncengine.go:95-126 | after them every content that was not just a recorded baseline is still there |
| Rounds.EpochRunsConverge | engine/internal/syncengine/syncengine.go:95-126 | over any number of epochs of arbitrary edits and two alternating rounds: sync after each, with every edit made in it |
| Rounds.JoinContainsEdits | engine/internal/session/session.go:221-239 | the join of two folders that do not clash has the union of the paths and every edit |
| Rounds.RoundJoins | engine/internal/syncengine/syncengine.go:95-126 | from sync, edits that do not clash and a single round: sync again on the join, without any conflict copy |
| Rounds.RoundRunsJoin | engine/internal/syncengine/syncengine.go:95-126 | the same after any number of edit-and-round steps |
| Rounds.SecondPullKeepsExactly | engine/internal/syncengine/syncengine.go:118-122 | a second pull in a row keeps a path exactly if the peer lacks it or has the same content |
| Rounds.TwoPullsInARowLoseAnEdit | engine/internal/syncengine/syncengine.go:118-122 | the concrete loss: one edit, two pulls in a row, and the stale file is back |
| Rounds.UndeliveredIndexLosesAnEdit | engine/internal/syncengine/syncengine.go:118-122 | the other concrete loss: A pulls, B's pull gets no index, A pulls, B pulls, and the stale file is on both sides |
| Alternation.ReplacedWasKnown | engine/internal/syncengine/syncengine.go:95-126 | with arbitrary edits between any two alternating pulls, a pull replaces only what the device has had there since its last pull; and if the peer saw it in between, the peer held it or had had it |
| Alternation.QuietTurnsSync | engine/internal/syncengine/syncengine.go:95-126 | once the edits stop, three more turns bring both devices in sync |
| Tries.BaselineIsLastSuccess | engine/internal/syncengine/syncengine.go:109-124 | over any run of tries, failed ones among them, the baseline is that of the last success |
| Tries.ReplacedWasRecorded | engine/internal/syncengine/syncengine.go:95-126 | over any run of tries from any peers with any edits in between, a content that is replaced, other than in the place of a conflict copy, was there after the last success, or was in the first baseline |
| Diff.RanksAreContiguous | engine/internal/scanner/diff.go:62-95 | in a finite set of paths every smaller rank is taken |
| Diff.PairingIsOneToOne | engine/internal/scanner/diff.go:74-95 | no path takes part in two renames |
| Diff.PairingIsMaximal | engine/internal/scanner/diff.go:74-95 | of a deleted and an added file with equal non-empty content at least one is paired |
| Diff.PairingIsMaximum | engine/internal/scanner/diff.go:74-95 | no one-to-one pairing of deleted with added files of equal digest and size finds more renames |
| Diff.ChangesHaveDistinctPaths | engine/internal/scanner/diff.go:42-114 | no two changes have the same path |
| Diff.DiffIsUnique | engine/internal/scanner/diff.go:42-115 | the result does not depend on map order or on the stability of sorting |
| Diff.ChangesTellExactly | engine/internal/scanner/diff.go:42-115 | the list is sorted by path and every entry says what is so of its path; every modified, added or deleted path is in it, and no deletion and addition are left that could be a rename |
| Diff.EarlierAreEarlierPaired | engine/internal/scanner/diff.go:62-95 | of the deleted files with one content the smaller paths are paired first, and with smaller added paths |
| Diff.EarlierAreEarlierTaken | engine/internal/scanner/diff.go:62-95 | and the smaller added paths are taken first |
| Diff.AnyOrderReachesNewIndex | engine/internal/scanner/diff.go:42-115 | the changes applied one by one in any order turn the old view into the new one |
| Diff.DiffReachesNewIndex | engine/internal/scanner/diff.go:42-115 | so does the sorted list that is returned |
| Diff.PairRenames | engine/internal/scanner/diff.go:74-95 | the greedy loop pairs equal ranks within each class of digest and size |
| Diff.FirstFreeIsPartner | engine/internal/scanner/diff.go:81-94 | the first unmatched candidate is the path of equal rank |
| Diff.Diff | engine/internal/scanner/diff.go:42-115 | returns the difference: modified, renamed, added and deleted files, each exactly once and sorted |
| Monitor.Monitor.Run | engine/internal/monitor/monitor.go:66-97 | the baseline is the index of the last good scan; exactly the scans that were taken and whose view differs from the one before deliver a set, which is the difference; replaying what was delivered leads to the baseline, but for a set in hand when the monitor is closed |
| Monitor.MonitorWholeRun | engine/internal/monitor/monitor.go:66-97 | over any run with failed scans and empty diffs in between, replay on the initial view gives the view of the current baseline |
| Monitor.LastScanExactly | engine/internal/monitor/monitor.go:76-83 | the last good scan is the last event that is a scan, or the first index if there is none |
| Monitor.EmptyDiffExactly | engine/internal/monitor/monitor.go:82-86 | a difference is empty exactly if nothing in the view has changed |
| Versioning.Store.Versions | engine/internal/versioning/versioning.go:61-101 | the stamps of all matching names, each below the one before it |
| Versioning.VersionNameExactly | engine/internal/versioning/versioning.go:78-87 | the name of a version spelled out, and that every name of that form is listed |
| Versioning.PathParts | engine/internal/versioning/versioning.go:65-67 | a path is its directory and a name without slashes |
| Versioning.Store.UniqueTag | engine/internal/versioning/versioning.go:136-150 | terminates with the first free name of the series |
| Versioning.TagsExactly | engine/internal/versioning/versioning.go:136-150 | the series is the stamp, and the stamp with a dash and the decimal number of the try |
| Versioning.Store.Archive | engine/internal/versioning/versioning.go:36-59 | adds the file under the first free tag, keeps the newest and leaves everything else alone |
| Versioning.Store.Prune | engine/internal/versioning/versioning.go:120-134 | keeps exactly the newest versions |
| Versioning.ArchiveThenRestore | engine/internal/versioning/versioning.go:36-118 | archiving, overwriting and restoring the first listed version gives the folder back, if the stamp is the newest |
| Versioning.ListingSize | engine/internal/versioning/versioning.go:36-59 | after archiving the listing has min(keep, previous + 1) entries |
| Versioning.NewestRestores | engine/internal/versioning/versioning.go:103-134 | if the new stamp is the newest it heads the listing, and its version has the archived bytes |
| Versioning.LatestDateHeads | engine/internal/versioning/versioning.go:99-134 | a version with a later date than all the others, numbered ones among them, gets its plain stamp and heads the listing, whatever is pruned |
| Versioning.ArchivedSurvivesExactly | engine/internal/versioning/versioning.go:120-134 | a version that was just archived survives the pruning exactly if fewer than `keep` listed stamps are newer |
| Versioning.ListsForeignVersionsExactly | engine/internal/versioning/versioning.go:78-87 | a listing has a version of another file exactly if the version's name goes on like the stem and a `~` before its extension, and the name has no extension or the same |
| Versioning.ListsBackupVersions | engine/internal/versioning/versioning.go:78-87 | for a stem without `~`: exactly if the stems agree or the other goes on with a `~`, and the name has no extension or the same |
| Versioning.BackupsPushOutNewVersion | engine/internal/versioning/versioning.go:120-134 | with `keep` versions of such a backup in the store, a version that is archived is pruned at once |
| Versioning.NotesListsItsBackup | engine/internal/versioning/versioning.go:78-87 | the concrete input: versions of `notes~` are listed for `notes`, with a `~` before the stamp |
| VersionVector.Vector.Clone | engine/internal/conflict/conflict.go:38-44 | a new vector with the same entries |
| VersionVector.IncrementIsNewerExactly | engine/internal/conflict/conflict.go:46-48 | an increment makes the vector greater exactly if the counter does not wrap, and touches no other counter |
| VersionVector.Vector.Merge | engine/internal/conflict/conflict.go:50-56 | the entrywise maximum |
| VersionVector.Vector.Compare | engine/internal/conflict/conflict.go:58-83 | the pointwise order with absent entries as zero |
| VersionVector.MergeIsLeastUpperBound | engine/internal/conflict/conflict.go:50-83 | the maximum is the least vector above both |
| VersionVector.CompareDecidesHistories | engine/internal/conflict/conflict.go:36-87 | in every run of edits and merges in which no device makes 2^64 edits, the order of vectors is the inclusion of edit histories, and incomparable ones are concurrent |
| VersionVector.WrappedCounterLooksOlder | engine/internal/conflict/conflict.go:46-83 | the concrete failure: after 2^64 edits by one device the later version compares as the older |
| Friends.Engine.AddFriendByCode | engine/internal/syncengine/friends.go:69-102 | a trusted device stays as it is; a waiting request is accepted with its own name and endpoints; anyone else is stored with those of the code, pending, and asked, and an acceptance in answer makes it trusted with what it says; nothing else changes |
| Friends.Engine.SendFriendRequest | engine/internal/syncengine/friends.go:107-130 | the first endpoint with a settling answer decides; an acceptance is applied at once and only to a device that was asked; no other device or request changes |
| Friends.Engine.AcceptFriendRequest | engine/internal/syncengine/friends.go:172-205 | the device becomes trusted with the name and the endpoints of its request, which is removed; no other device or request changes; notified exactly if the first answer is an acknowledgement |
| Friends.Engine.RecordFriendRequest | engine/internal/syncengine/friends.go:213-220 | one request per device, the latest, with the name and endpoints that came; devices stay as they are |
| Friends.Engine.ApplyFriendResponse | engine/internal/syncengine/friends.go:224-244 | trust only for a device that was asked, with what is new of name and endpoints; the result tells whether it is trusted now; nothing else changes |
| Friends.Engine.RefreshFriend | engine/internal/syncengine/friends.go:248-261 | new names and endpoints for trusted devices only, nothing empty; nothing else changes |
| Friends.Engine.ServeTrustedStream | engine/internal/daemon/daemon.go:209-241 | requests in the own name refresh and are answered with an acceptance; responses are ignored; the replies and what is stored are spelled out |
| Friends.Engine.ServeUntrusted | engine/internal/daemon/daemon.go:246-293 | requests in the own name are recorded and acknowledged, awaited acceptances applied, everything else refused without an effect |
| Friends.Engine.ServeConn | engine/internal/daemon/daemon.go:185-207 | trust is looked up once per connection; an untrusted peer gets one stream; every stream is served on what the one before it has left |
| Friends.Engine.Redial | engine/internal/daemon/daemon.go:346-364 | the dialling loop sends a request again exactly for a device with endpoints that was asked, has not answered and is not busy |
| Handshake.StepKeepsInv | engine/internal/syncengine/friends.go:69-261 | every user action, delivery, repetition and forgery keeps the invariant of the handshake |
| Handshake.TrustNeedsConsent | engine/internal/daemon/daemon.go:185-293 | in any run an honest device trusts only whom its user wanted, and another honest device only if that one's user wanted it too or trust was entered by hand and not removed since; nobody is both trusted and pending |
| Handshake.RemovalRevokes | engine/internal/metadata/devices.go:61-67 | after a removal trust needs a wish of the user made since; no message brings it back |
| Handshake.RejectionHolds | engine/internal/syncengine/friends.go:207-209 | after a rejection trust needs the user to ask or to enter the sender, or to accept a request that has come since |
| Handshake.OnlyManualTrustIsOneSided | engine/internal/api/api.go:170-194 | entering a device by hand is the only action that makes an honest device trust another whose user never wanted it |
| Handshake.NetworkTrustsExactly | engine/internal/syncengine/friends.go:224-261 | messages create trust exactly by an acceptance that is waited for, and never take it away |
| Handshake.MutualTrustLasts | engine/internal/daemon/daemon.go:209-293 | later repeats change no trust flag |
| Handshake.ResentRequestCompletes | engine/internal/daemon/daemon.go:346-364 | if B trusts A while A is pending on B, a request that is sent again, delivered and answered makes trust mutual, whatever else the network does in between |
| Handshake.CrossingRequestsResolve | engine/internal/syncengine/friends.go:82-84 | asking someone whose request is waiting makes trust mutual once the acceptance arrives |
| Handshake.AcceptedRequestCompletes | engine/internal/syncengine/friends.go:69-244 | the whole handshake: a request that is delivered and accepted, and whose acceptance comes back, makes trust mutual, and each side has stored what the other told of itself |
| Handshake.AcceptedContactIsLastRequest | engine/internal/syncengine/friends.go:172-188 | in any run a device that is accepted is stored with the name and endpoints of the last request delivered from it |
| Handshake.StoredContactIsOwn | engine/internal/syncengine/friends.go:213-261 | in any run what an honest device has stored about another honest one was entered by its own user or announced by that device itself, whatever third parties send |

## Left out

- The desktop application, the control API, the AI client, QUIC and TLS, discovery and NAT mapping: a message's sender is taken to be authentic, nothing more.
- SHA-256, JSON, base64 and invite codes: digests are a parameter, typed messages are values, and a message that does not decode is a case of its own.
- SQLite: the tables are maps with the same insert, replace and delete. Each friend method and each daemon answer is one atomic step on them, although the Go code reads and then writes without a transaction.
- Failures of the file system other than those of reading: creating, writing, renaming and removing succeed. File modes, modification times (but for version stamps) and directories are not modelled.
- Files under `.syncy-versions`: the version store is a map apart from the folder, so a remote path that points into it is not modelled.
- Negative offsets and lengths in a peer's index or requests.
- SyncEngine.ScanFolder: does not model that the version directory is skipped, as the folder does not contain it here.
- Requests for an index are taken to fit a frame: they hold a folder id only. Paths that a scan finds are taken to be clean.
- Versions of a file that is pulled through a path that is not clean are those of the clean path.
- Pulls without a version store or without conflict naming, as `Converge` makes them; pulls without a baseline are covered by `Pull.Pull` only.
- Concurrent pulls: `Sync` serves a snapshot while it pulls. Here the serving side does not change during a pull, and `Convergence.TwoRounds` is sequential. `beginSync` and `endSync`, which keep one dialling task per peer, are left out as easy.
- Timestamps of devices, the clamping of names and endpoints, and the intervals at which requests are sent again: sending again is a step that can happen at any time.
- Folder lists and the refusal of folder data to untrusted peers: only the type of the answer is modelled.
- Order.Sort: stands for the library's sorting, for keys that differ.
- Versioning.Store.Versions: takes a name as listed only if prefix and extension do not overlap in it; on an overlapping name the Go code would panic when slicing.
- Chunker.Chunker.Split: a reader ends or fails after finitely many empty reads; one that returns nothing for ever is not modelled.
- VersionVector.CompareDecidesHistories: for runs in which no device makes 2^64 edits, as its counter wraps then.
- Monitor.Monitor.Run: watcher events, scan results and the moment of closing are given; goroutines and channels are not modelled.
