# A verified model of tidemarq

tidemarq keeps a destination directory in step with a source directory. This project models its core in
Dafny and proves what the core promises. `dafny verify dfyconfig.toml` checks all of it.

## What is modelled

**The delta codec** (`Adler32`, `RollingChecksum`, `Signatures`, `DeltaOps`, `DeltaReference`, `DeltaDiff`,
`DeltaPatch`). `Rolling` is the mutable circular buffer with its uint32 sums, `ComputeSignature` the block reader with
its weak-checksum index, `Diff` the greedy scan with its match, slide and tail steps, `Apply` the replay through a
temporary file. Up to the block size where the rolling checksum can overflow the diff is proved equal to a reference
that knows no checksums: cut the source greedily into blocks of the basis and single bytes, and write the pieces down.
Beyond it the diff is proved equal to the same scan with exactly the windows missed whose checksum has gone wrong.
BLAKE3 is a function parameter; that no two different stretches share a digest is assumed only where a statement says
so, and across lengths, because the lookup of a full window compares no lengths. Adler-32 is stated as in sections 2.2
and 8.2 of RFC 1950.

**The sync engine** (`Disks`, `Worlds`, `Conflicts`, `SyncSpec`, `Transfers`, `Engine`, `OneWayRuns`, `TwoWayFacts`,
`TwoWayRuns`, `Outcomes`, `TwoWayPauses`, `ConflictService`, `FilteredRuns`). A `World` is two disks, the manifest,
the stored versions, the quarantine and the conflict rows. All that is known about one path is a `Cell`. The loops of
backup, mirror and two-way runs are methods on the `World`, with pause checks between files and between chunks and
with I/O faults supplied by an `Env`; each is proved to apply a function on cells to every visible path, and to do
something exactly described when it is paused or a file fails. In a `Calm` environment no file fails, and a run
reports a pause only after its pause signal was raised. What the modes promise is then proved about the functions on
cells and lifted to whole runs and sequences of runs. `Outcomes` says what a complete run does to every path in
contents, sizes and times alone, with none of the functions the engine decides by: a two-way run is a three-way merge.

**Versions and quarantine** (`VersionTables`, `Quarantines`, `DirTrees`). Pruning of old versions, the agreement
between quarantine rows and quarantine files over any sequence of operations, and the clearing of empty directories.

**Filters** (`Filters`). What each kind of rule decides, first match wins, and which rule sets decide by path alone.

**Three protocols** (`Scanner`, `Jobs`, `Hubs`). The parallel scan, the life of job runs and the WebSocket hub, each
as a state with one move per atomic step; statements hold for every sequence of possible moves.

## Where the code does less than one might expect

Each point names the lemma with the exact condition under which the code does meet the expectation, and where the
failure needs an example, the lemma that gives one.

- The project's README says that there is no cached state that can drift from reality. A file is skipped on what the
  manifest says of the source when the destination merely exists, in both modes. With full checksums, or where size and
  second identify the source, the destination ends exact if and only if no skipped path has an untrue manifest entry
  (`SyncSpec.OneWayExactIff`, `OneWayRuns.RunIsExactIff`; examples `SyncSpec.DriftIsNotNoticed` and
  `SyncSpec.QuickEditIsNotNoticed`).
- A two-way run leaves a path alone that was synced before, is unchanged at the source and is gone at the
  destination, and it only clears the destination where a synced source file is hidden by a filter; any other visible
  path converges (`SyncSpec.TwoWayConvergesIff`). A manifest entry for a path gone from both sides is never removed,
  so a new destination file of that name goes to quarantine (`TwoWayFacts.NewDestinationFile`).
- A pause inside a copy back to the source is not made good by the next run if and only if the manifest knows the path
  or the filters hide the destination file (`TwoWayFacts.TwoWayPauseIff`). In the first case the next run takes it for a
  deletion (`TwoWayFacts.PausedPullIsTakenForDeletion`), in the second the source stays without the file, and its old
  content can be gone (`TwoWayFacts.PausedHiddenPullIsNotResumed`, `FilteredRuns.PausedPullLosesTheSource`).
  `TwoWayPauses.PausedThenCompleted` says at which paths any number of pauses is harmless.
- A pause removes the half-written file and does not notice if that fails. In backup and mirror mode the next run takes
  the part for a finished copy if and only if the copy was only to put a missing file back
  (`SyncSpec.RemnantIsSkippedIff`, `SyncSpec.RemnantCanStayForEver`). In two-way mode the part, on either side, can
  become a conflict (`TwoWayFacts.TwoWayRemnantIff`, `TwoWayFacts.SourceRemnantIff`, `TwoWayFacts.ExtraRemnantIff`) and replace
  the file it is a part of (`TwoWayFacts.RemnantCanReplaceTheSource`, `TwoWayFacts.RemnantCanReplaceTheDestination`).
- A destination change is copied back under the source's old mtime. If the filters then hide it at the source but not at
  the destination, the next run quarantines the destination file; exactly then is a second run not without effect
  (`SyncSpec.TwoWayIdempotentIff`; a job that does so, `FilteredRuns.PulledChangeIsQuarantined`). With rules on the age
  of files the same can happen later to a file in sync that nobody touched: exactly when a run finds it hidden at the
  source and showing at the destination (`SyncSpec.LaterRunIff`; a job, `FilteredRuns.AgedSourceIsTakenForDeleted`).
- When the destination wins a conflict the source content is not stored (`TwoWayFacts.ConflictLoserKeptIff`).
  `TwoWayRuns.SourceKeptIff` says for whole runs and any filters which source contents are kept.
- With size or age rules a source file can be hidden while its destination copy is not, and is then overwritten
  unsaved (`TwoWayFacts.HiddenSourceIsOverwritten`; a job that does so, `FilteredRuns.LargeSourceFileIsLost`).
- Resolving a conflict by hand removes the old target before the final rename. If that rename fails the overwritten
  side is gone, and nothing of it is left on either side with keep-dest (`ConflictService.FailureCostsAFileIff`,
  `ConflictService.KeepDestinationCanLoseTheSource`). `Apply` has the same last step (`DeltaPatch.Apply`). Keep-both puts
  the destination file aside under a name made of the time in seconds, over the file another keep-both may have put
  there within the second (`ConflictService.AsideFileIsReplacedIff`, `ConflictService.SecondKeepBothLosesTheFirst`).
- The product of block size and evicted byte is cut to 32 bits, and each multiple of 2^32 cut off moves the second sum
  by 225. The checksum is right if and only if the number of multiples cut off since the last Reset is itself a multiple
  of 65,521 (`RollingChecksum.Rolling.Sum32`). None can be cut off up to blocks of 16,843,009 bytes; beyond it, one
  eviction can make it wrong for every block size below 2^32 (`RollingChecksum.WrongBeyondBound`), and after 65,521
  evictions of one byte value it is right again (`RollingChecksum.RightAgainAfterManySlides`). The round trip of the
  delta holds all the same, but a window with a wrong checksum is not matched (`DeltaDiff.WindowStep`): for every block
  size from the bound up to 2^31-1, one byte put before an unchanged file can make all of it literal
  (`DeltaDiff.MissedMatch`, `DeltaDiff.ShiftedFileIsAllLiteral`).
- Stored versions are ordered by a time with a granularity of one second, so the version just stored can be the one
  that is pruned (`VersionTables.SafeIff`).
- Age rules of more than 106,751 days overflow (`Filters.DaysExactIff`); a rule for a compound extension such as
  `tar.gz` never matches (`Filters.ExtensionCanMatchIff`).
- A cancellation that arrives after the walk can make a scan succeed with files missing. Every successful scan of a
  mount is complete if and only if none of the last 256 files in walking order is wanted
  (`Scanner.SuccessMeansCompleteIff`, `Scanner.CancelCanTruncate`).
- A job already shown as paused can still refuse to resume (`Jobs.RunningStatusIff`,
  `Jobs.ResumeCanBeRefusedWhilePaused`).
- With several broadcasts at once a client can be queued a later message without an earlier one: exactly if a message
  is ever queued to it while a broadcast begun earlier has not served it (`Hubs.GapFreeIff`,
  `Hubs.TwoBroadcastsCanLeaveAGap`).

## Model

| member | source | states |
|---|---|---|
| Prelude.WrapIsModulo | backend/internal/delta/rolling.go:53-61 | the recursive wrap used for uint32 and for the Adler modulus is the mathematical remainder, also of negative numbers |
| Adler32.SumsOfEviction | backend/internal/delta/rolling.go:45-56 | dropping the oldest byte of a window takes that byte off the first sum, and window length times the byte plus one off the second |
| Adler32.PackedHalves | backend/internal/delta/rolling.go:73-75 | shifting and or-ing two 16-bit halves is the sum the model uses |
| Adler32.ChecksumIs | backend/internal/delta/rolling.go:73-91 | the stored checksum is the second sum modulo 65521 in the upper half and the first in the lower, as in RFC 1950 |
| Adler32.KnownAnswer | backend/internal/delta/rolling.go:84-91 | the checksum of abc is 0x024D0127 |
| Adler32.ReducedExtension | backend/internal/delta/rolling.go:84-91 | adding a byte to reduced sums in uint32 arithmetic gives the reduced sums of the longer text: nothing wraps away |
| Adler32.Adler32Block | backend/internal/delta/rolling.go:84-91 | the one-pass loop computes the Adler-32 checksum of RFC 1950 |
| RollingChecksum.TimesTruncates | backend/internal/delta/rolling.go:53 | truncating the block size before the product gives the truncated true product |
| RollingChecksum.EvictAValue | backend/internal/delta/rolling.go:52 | subtracting below zero in uint32 and adding the modulus yields the true residue |
| RollingChecksum.EvictBValue | backend/internal/delta/rolling.go:53-56 | the same for the second sum, with the product reduced first |
| RollingChecksum.TruncationAdds | backend/internal/delta/rolling.go:53 | cutting a product to 32 bits moves the second sum by 225 for each multiple of 2^32 cut off |
| RollingChecksum.ErrorsCancelIff | backend/internal/delta/rolling.go:53 | such errors cancel if and only if their number is a multiple of 65521 |
| RollingChecksum.OneByteShows | backend/internal/delta/rolling.go:53 | with a block size below 2^32, one evicted byte spoils a right sum if and only if its product does not fit in 32 bits |
| RollingChecksum.NothingLost | backend/internal/delta/rolling.go:42-63 | up to the bound, or before the window moves, nothing is ever cut off |
| RollingChecksum.NoOverflowIsTight | backend/internal/delta/rolling.go:53 | no byte value overflows the product exactly up to a block size of 16,843,009 |
| RollingChecksum.StoreInWindow | backend/internal/delta/rolling.go:44-62 | writing at the buffer position drops the oldest byte of a full window and appends the new one |
| RollingChecksum.Rolling.constructor | backend/internal/delta/rolling.go:24-30 | a new window is empty and valid |
| RollingChecksum.Rolling.Reset | backend/internal/delta/rolling.go:33-38 | the checksum forgets everything fed before |
| RollingChecksum.Rolling.Roll | backend/internal/delta/rolling.go:42-63 | the window moves on by one byte; from an exact state the next state is exact if and only if the window was not full or the product of block size and evicted byte fits in 32 bits |
| RollingChecksum.Rolling.Write | backend/internal/delta/rolling.go:66-70 | feeds all bytes of a slice in order |
| RollingChecksum.Rolling.Sum32 | backend/internal/delta/rolling.go:73-75 | for every block size and every sequence of bytes fed, the checksum of the last min(count, block size) bytes since Reset if and only if the number of multiples of 2^32 cut off the products of the bytes evicted since then is a multiple of 65521 |
| RollingChecksum.FirstSlide | backend/internal/delta/rolling.go:42-75 | a full window slid by one byte has the right checksum if and only if the byte that left, times the block size, fits in 32 bits |
| RollingChecksum.WrongBeyondBound | backend/internal/delta/rolling.go:53 | for every block size beyond the bound and below 2^32, a window whose checksum is wrong |
| RollingChecksum.RightAgainAfterManySlides | backend/internal/delta/rolling.go:42-75 | with any block size, overflowing or not, a window of one byte value has the right checksum after 65521 slides over that value |
| Signatures.SigEntry | backend/internal/delta/signature.go:43-76 | each signature entry describes one non-empty aligned block, its length and both checksums |
| Signatures.FirstHitIs | backend/internal/delta/signature.go:99-106 | the search result is the first entry that meets the checksums, or none |
| Signatures.PositionsAscend | backend/internal/delta/signature.go:90-95 | an index list holds exactly the positions with its checksum, in ascending order |
| Signatures.Signature.BuildIndex | backend/internal/delta/signature.go:90-95 | the index lists, for every weak checksum, exactly the blocks that carry it |
| Signatures.Signature.Search | backend/internal/delta/signature.go:99-106 | searching the index finds the first block of the whole signature with these checksums and, where asked for, of this length |
| Signatures.Signature.HasWeak | backend/internal/delta/diff.go:126-130 | a checksum is in the index exactly when some block carries it |
| Signatures.ReadBlocks | backend/internal/delta/signature.go:51-74 | the read loop signs every block up to the end of the file, the short last one included, and fails exactly when reading does |
| Signatures.ComputeSignature | backend/internal/delta/signature.go:43-76 | the signature describes the whole basis and is indexed; it fails exactly when reading does |
| DeltaOps.ReplayPrefix | backend/internal/delta/patch.go:54-73 | a stream that can be replayed can be replayed up to any op |
| DeltaOps.ReplayFailsIff | backend/internal/delta/patch.go:54-107 | replaying fails if and only if some op is of an unknown type, begins before the basis or copies past its end; each other op adds its stretch of the basis or its literal bytes |
| DeltaOps.WellFormedReplays | backend/internal/delta/patch.go:54-73 | a well-formed stream always replays, to as many bytes as its copies and literals say |
| DeltaOps.SizeBytes | backend/internal/delta/patch.go:96-107 | the size is the sum of all copy and literal lengths |
| DeltaReference.FindTileComplete | backend/internal/delta/signature.go:43-76 | the reference search never overlooks an aligned block with the wanted content |
| DeltaReference.RenderTotals | backend/internal/delta/diff.go:76-163 | writing the pieces down, with coalescing and literal buffering, neither loses nor invents bytes |
| DeltaReference.RenderCoalesces | backend/internal/delta/diff.go:132-163 | full blocks are merged wherever they can be: where a copy begins just where the one before it ends, one more block would have made that longer than 2^30 bytes |
| DeltaReference.TokensCoverSource | backend/internal/delta/diff.go:86-174 | every source byte is in exactly one piece |
| DeltaReference.SharedPrefixMatches | backend/internal/delta/diff.go:126-163 | blocks of a common prefix all lead the pieces as matches |
| DeltaReference.SelfDiffHasNoLiterals | backend/internal/delta/diff.go:86-174 | the reference diff of a file against itself is all copies |
| DeltaReference.CommonPrefixIsCopied | backend/internal/delta/diff.go:86-174 | the reference diff copies a block-aligned common prefix, whatever follows it |
| DeltaDiff.HitIsBlock | backend/internal/delta/signature.go:99-106 | a hit names a real, non-empty, aligned block of the basis with that digest; its 32-bit length is the true one up to 2^31-1 |
| DeltaDiff.LookupIsFindTile | backend/internal/delta/signature.go:99-106 | with the true weak checksum and no collisions, the indexed lookup finds a block exactly when some block of the basis equals the window |
| DeltaDiff.ReplayOfPush | backend/internal/delta/diff.go:137-160 | appending or coalescing a copy adds exactly the bytes of that block to what is replayed |
| DeltaDiff.WindowLookup | backend/internal/delta/diff.go:126-163 | a full window is matched only by a block with its digest; without collisions it is matched if and only if the weak checksum looked up is the true one and a block of the basis equals the window |
| DeltaDiff.TailLookup | backend/internal/delta/diff.go:97-120 | the rest of the source is matched if and only if the short last block equals it |
| DeltaDiff.TailStep | backend/internal/delta/diff.go:97-120 | the tail branch completes the source, as one copy or as literals |
| DeltaDiff.WindowStep | backend/internal/delta/diff.go:122-173 | a match advances one block, a miss sets one byte aside; what is written so far replays to the source so far; without collisions it matches if and only if a block equals the window and the overflows since the last match cancel |
| DeltaDiff.Slide | backend/internal/delta/diff.go:165-173 | after a slide the rolling window covers the source at the new position |
| DeltaDiff.ScanSource | backend/internal/delta/diff.go:86-174 | the loop consumes the whole source, piece by piece as the scan of the specification sees it |
| DeltaDiff.SeenIsTokens | backend/internal/delta/diff.go:86-174 | up to the overflow bound the scan cuts the source into the pieces of the reference |
| DeltaDiff.LeadIsSeen | backend/internal/delta/diff.go:126-173 | with every block size the scan matches from the start what the reference matches before its first lone byte, because no window has moved yet |
| DeltaDiff.Diff | backend/internal/delta/diff.go:56-178 | for every block size up to 2^31-1: statistics agree with the ops, ops are well formed and copies of several blocks no longer than 2^30 bytes; if no digests collide, replaying them gives back the source, full blocks are merged wherever they can be, and the ops are those of the scan that misses exactly the windows with a wrong checksum; up to the overflow bound they are the ops of the reference |
| DeltaDiff.MissedMatch | backend/internal/delta/diff.go:122-173 | for every block size beyond the bound and below 2^32, an input of which the reference copies the whole basis and the scan nothing |
| DeltaDiff.SelfDiffIsAllCopies | backend/internal/delta/diff.go:56-178 | for every block size up to 2^31-1 the diff of a file against itself has no literal byte |
| DeltaDiff.SelfDiffIsOneCopy | backend/internal/delta/diff.go:56-178 | an unchanged file of different blocks, up to 2^30 bytes, is one copy of its full blocks and one of the short block that may be left |
| DeltaDiff.CommonPrefixIsNotSent | backend/internal/delta/diff.go:56-178 | for every such block size a block-aligned common prefix is copied, whatever follows it |
| DeltaDiff.ShiftedFileIsAllLiteral | backend/internal/delta/diff.go:56-178 | for such sizes up to 2^31-1 the real diff sends every byte of it |
| DeltaPatch.RunOps | backend/internal/delta/patch.go:54-73 | touches the temporary file only; fails exactly on a malformed op or a failing write; otherwise writes what the ops mean |
| DeltaPatch.Apply | backend/internal/delta/patch.go:20-92 | exactly when it succeeds; success writes the meaning of the ops on the original basis, also in place; any failure but the final rename leaves the directory as it was, without the temporary file |
| Worlds.World.Snapshot | backend/internal/versions/versions.go:44-96 | stores the file's content as its newest version and prunes beyond the limit; a missing file stores nothing |
| Worlds.NewestSurvivesPruning | backend/internal/versions/versions.go:82-93 | the content just stored is still stored after pruning (when the times differ, see VersionTables.DistinctTimesKeepTheLast) |
| Conflicts.DetectCountsNewContents | backend/internal/conflicts/conflicts.go:59-68 | a side is changed if and only if it holds a content other than the synced one, and there is a conflict if and only if the two sides hold two such contents; without one, all changed sides hold the same content |
| Conflicts.DetectIsSymmetric | backend/internal/conflicts/conflicts.go:59-68 | swapping the sides swaps the flags; a file just synced shows no change, and an edit on one side exactly that side's |
| Conflicts.RecordKeepsOnePending | backend/internal/db/conflicts.go:51-83 | recording leaves exactly one pending row per path and is idempotent |
| Conflicts.CloseLeavesNonePending | backend/internal/db/conflicts.go:146-153 | closing the pending row leaves none pending |
| SyncSpec.OneWayExactIff | backend/internal/engine/engine.go:921-993 | with full checksums, or where size and second identify the source, a finished file has the source content at the destination if and only if it was not skipped on an untrue manifest entry; where the entry is true, if and only if it was not skipped on a size and second that hide a change |
| SyncSpec.DriftIsNotNoticed | backend/internal/engine/engine.go:938-976 | a destination file changed since its sync is skipped in both modes and goes on differing |
| SyncSpec.QuickEditIsNotNoticed | backend/internal/engine/engine.go:938-976 | a source file edited within the second to the same size is copied only with full checksums |
| SyncSpec.OneWayKeepsTruth | backend/internal/engine/engine.go:814-835 | a finished or paused file keeps the manifest truthful about the destination |
| SyncSpec.OneWayIdempotent | backend/internal/engine/engine.go:934-942 | a second run skips the file and changes nothing |
| SyncSpec.PausedRunKeepsResumable | backend/internal/engine/engine.go:814-817 | after one more paused run a path is as before, without its half-written copy, with a part that will be written again, or done; unless a file that was only to be put back is left half-written |
| SyncSpec.RemnantIsSkippedIff | backend/internal/engine/engine.go:1085-1088 | a part whose removal failed is skipped by the next run, and never completed, if and only if the destination file was missing while its entry still matches the source; otherwise the outcome is that of an uninterrupted run |
| SyncSpec.RemnantCanStayForEver | backend/internal/engine/engine.go:1085-1088 | an input for which the part stays, whatever runs follow |
| SyncSpec.ResumedRunCatchesUp | backend/internal/engine/engine.go:938-942 | from such a path one complete run gives what a single uninterrupted run would have given |
| SyncSpec.TwoWayConvergesIff | backend/internal/engine/engine.go:477-696 | with an automatic strategy and whatever filters a visible path ends in sync and recorded, or gone from both sides, if and only if it was not in the one stuck state, which is left untouched, and not a synced source file that is hidden |
| SyncSpec.TwoWaySettles | backend/internal/engine/engine.go:477-696 | with whatever filters a run settles every path; only a conflict left to the user stays open |
| SyncSpec.SettledIsFixedIff | backend/internal/engine/engine.go:526-607 | a settled path is left alone by the next run if and only if it is not a synced file hidden at the source and showing at the destination |
| SyncSpec.TwoWayIdempotentIff | backend/internal/engine/engine.go:509-607 | with whatever filters running twice is running once if and only if no copy back hides itself; an open conflict keeps its row and both files and may store one more version |
| SyncSpec.FixedIff | backend/internal/engine/engine.go:477-696 | a run leaves a path as it is if and only if it is settled and not a synced file hidden at the source and showing at the destination; up to stored versions also if it is an open conflict on record |
| SyncSpec.LaterRunIff | backend/internal/filter/filter.go:146-165 | the same for a second run whose filters judge every file anew; with an automatic strategy, where the first run saw the path and did not take it for deleted, only being hidden at the source and showing at the destination counts, and after a copy to the destination nothing does |
| Outcomes.OneWayRunEnds | backend/internal/engine/engine.go:172-422 | after a complete backup or mirror run, path by path: a source file with a destination file and an entry of its hash, or of its size and second, is left alone; any other is copied, recorded, and dated as the destination allows; a mirror's extra file goes, into quarantine if the destination is local and versions are kept; no other path changes |
| Outcomes.EditsAreCopied | backend/internal/engine/engine.go:934-993 | an edit is copied by the next complete run with full checksums, or if it changes the size, or is a second or more away from the synced time |
| Outcomes.SkipsIffLooksSynced | backend/internal/engine/engine.go:938-976 | a file is skipped if and only if the destination has the file and the entry has its hash, or in the fast path its size and its time in whole seconds |
| Outcomes.SourceMerges | backend/internal/engine/engine.go:477-625 | what two-way mode does to a source file is a three-way merge of the two contents and the one last agreed on, with the times, the version stored and the conflict row written out |
| Outcomes.TwoWayRunMerges | backend/internal/engine/engine.go:428-699 | a complete two-way run merges every visible source file, copies new destination files, quarantines those whose source file is gone, and leaves the rest alone |
| Outcomes.ClashEndsByStrategy | backend/internal/conflicts/conflicts.go:208-238 | after a complete run over two different edits both sides hold the strictly newer content, a tie going to the destination, or the larger one, a tie going to the source, or that of the side named; in ask-user mode both files stay |
| Outcomes.OneSidedChangeWins | backend/internal/engine/engine.go:569-601 | where one side was changed since the last sync its content ends on both, whatever the strategy |
| Outcomes.KindByContents | backend/internal/engine/engine.go:509-608 | what a run counts at a source file, and how many bytes, by the contents of the two sides and the one last agreed on |
| Outcomes.ExtraKindByContents | backend/internal/engine/engine.go:638-680 | a file only the destination shows counts as copied if it is new, as quarantined if it was synced and versions are kept, and not at all otherwise |
| Transfers.ThrottledReader.Read | backend/internal/engine/throttle.go:29-50 | delivers the next chunk, or nothing at the end of the file or from the moment the pause is seen |
| Transfers.CopyFile | backend/internal/engine/engine.go:1344-1364 | without a pause everything arrives; with one, as many chunks of 32768 bytes as checks came before the signal |
| Transfers.DiffGives | backend/internal/engine/engine.go:1230-1249 | the ops of a diff always replay to as many bytes as are reported as written, and to the source if no digests collide |
| Transfers.TryDelta | backend/internal/engine/engine.go:1200-1250 | exactly when a delta is not tried to the end, the destination then being untouched; if it is used the destination holds the source content, given no collisions; a hard error needs a fault |
| Engine.Transfer | backend/internal/engine/engine.go:797-907 | with or without delta: success means the destination holds the source bytes and the manifest their hash and size; failure and pause leave the manifest; a pause removes the half-written file or, if that fails, leaves the part; without faults it does not fail |
| Engine.HashWithPause | backend/internal/engine/engine.go:1285-1314 | for any streaming hash, feeding it the chunks one by one gives the digest of the whole file; a pause is reported only once signalled |
| Engine.SyncFile | backend/internal/engine/engine.go:921-993 | each outcome of a file in backup and mirror mode, with its exact effect on the path and none elsewhere |
| OneWayRuns.Scan | backend/internal/engine/scanner.go:164-220 | lists every visible file once |
| OneWayRuns.CopyPass | backend/internal/engine/engine.go:192-264 | the loop shared by backup and mirror: every file gets its step or an error; copied, skipped and bytes copied are those of the files looked at and not in error, also in a paused run |
| OneWayRuns.ExtraPass | backend/internal/engine/engine.go:378-419 | exactly the visible destination files the source lacks go, each counted once |
| OneWayRuns.RunBackup | backend/internal/engine/engine.go:172-265 | every visible source path gets its step, no other path changes; copied, skipped and bytes copied are those of the paths not in error; with the errors they add up to the files finished, all of them unless paused |
| OneWayRuns.RunMirror | backend/internal/engine/engine.go:271-422 | the same with destination-only paths quarantined or removed; the counters add up to the distinct visible paths of both sides |
| OneWayRuns.RunsKeepTruth | backend/internal/engine/engine.go:172-422 | every error-free run, paused or not, keeps the manifest truthful at all paths, except at a half-written file it could not remove |
| OneWayRuns.MirrorIsExact | backend/internal/engine/engine.go:271-422 | from a truthful manifest, with whatever filters, a complete error-free mirror run puts every visible source content at the destination, removes what shows at the destination alone and leaves all other paths alone; with full checksums also edits that size and second hide |
| OneWayRuns.MirrorIsEqualIff | backend/internal/engine/engine.go:271-422 | the two sides are then equal at a visible path if and only if no source file is hidden there; with path-only filters everywhere |
| OneWayRuns.RunIsExactIff | backend/internal/engine/engine.go:172-422 | with full checksums, or where size and second identify the source, a complete error-free backup or mirror run ends with an exact destination if and only if every path it will skip has a true manifest entry |
| OneWayRuns.PausedRunStaysResumable | backend/internal/engine/engine.go:172-422 | a paused run started from a resumable state ends in one, at all paths where no part was left of a file only to be put back |
| OneWayRuns.FinalRunCatchesUp | backend/internal/engine/engine.go:172-422 | a complete run from a resumable state gives the outcome of a single uninterrupted run |
| OneWayRuns.RunWithPauses | backend/internal/engine/engine.go:172-422 | any number of runs paused at any file or chunk boundary and one run to the end give destination, manifest and quarantine of a single uninterrupted run, at all paths where no part was left of a file only to be put back |
| TwoWayFacts.TwoWayPauseIff | backend/internal/engine/engine.go:870-873 | with whatever filters, resuming after a pause inside a file gives what an uninterrupted run gives if and only if it was not being copied back to the source with the path known to the manifest or the destination file hidden |
| TwoWayFacts.PausedPullIsTakenForDeletion | backend/internal/engine/engine.go:664-678 | in the first of these cases, with both files visible, the file ends in quarantine only |
| TwoWayFacts.PausedHiddenPullIsNotResumed | backend/internal/engine/engine.go:627-661 | in the second the source stays without the file, and its old content is kept if and only if it was a plain copy back, which stores it first, or it was stored before |
| TwoWayFacts.TwoWayRemnantIff | backend/internal/engine/engine.go:870-873 | a part left on the destination is a conflict for the next run if and only if the manifest does not know the path or knows another content than the part, and the copy is completed if and only if there is no conflict or the source wins it |
| TwoWayFacts.SourceRemnantIff | backend/internal/engine/engine.go:870-873 | a part left on the source: if it is visible, it is a conflict if and only if the manifest does not know the path or knows another content than the part, and the copy back is completed if and only if there is no conflict or the destination wins it; if it is hidden, if and only if the destination file is visible and unknown to the manifest |
| TwoWayFacts.ExtraRemnantIff | backend/internal/engine/engine.go:646-661 | a part of a new destination file left on the source: the copy is completed if and only if the part is hidden or the destination wins the conflict |
| TwoWayFacts.RemnantCanReplaceTheDestination | backend/internal/engine/engine.go:870-873 | an input for which source-wins copies the part over the destination file, which without version support is then nowhere |
| TwoWayFacts.RemnantCanReplaceTheSource | backend/internal/engine/engine.go:870-873 | an input for which newest-wins copies the part over the source |
| TwoWayFacts.NewDestinationFile | backend/internal/engine/engine.go:647-679 | a file new on the destination reaches the source if and only if the manifest does not know its path |
| TwoWayFacts.PushKeepsDestination | backend/internal/engine/engine.go:569-576 | whatever a copy to the destination leaves, the old destination content is kept |
| TwoWayFacts.PullKeepsSource | backend/internal/engine/engine.go:586-591 | whatever copying a changed destination back leaves, the old source content is kept |
| TwoWayFacts.ExtraKeepsDestination | backend/internal/engine/engine.go:647-679 | a destination-only content is copied or quarantined, never dropped |
| TwoWayFacts.ConflictLoserKeptIff | backend/internal/engine/engine.go:724-777 | the loser of a settled conflict is kept if and only if it is the destination or its content is stored already |
| TwoWayFacts.HiddenSourceIsOverwritten | backend/internal/engine/engine.go:627-661 | a source file hidden by a filter that shows the destination is kept if and only if its content is stored already or equal to the destination's |
| FilteredRuns.LargeSourceFileIsLost | backend/internal/engine/engine.go:627-661 | a job that leaves out files of more than 10 bytes: any complete error-free first run over a large source file and a small destination file of one name ends with the large one nowhere |
| FilteredRuns.PausedPullLosesTheSource | backend/internal/engine/engine.go:870-873 | a job with a size rule whose paused copy back loses the source content, where an uninterrupted run ends in sync |
| FilteredRuns.PulledChangeIsQuarantined | backend/internal/engine/engine.go:586-601 | a job with an age and a size rule whose second run quarantines a file the first had copied back |
| FilteredRuns.AgedSourceIsTakenForDeleted | backend/internal/filter/filter.go:186-195 | a job that leaves out files older than 30 days quarantines the destination file of a path in sync, once the source file has grown old and the destination file has not |
| TwoWayFacts.ResolveThenSync | backend/internal/engine/engine.go:552-567 | after a choice by hand, with whatever filters that show the resulting source file, the next run finds no conflict and leaves both sides with the chosen content |
| TwoWayFacts.KeepBothKeepsBoth | backend/internal/engine/engine.go:646-661 | the version put aside by keep-both reaches both sides under its new name |
| TwoWayRuns.CopyAcross | backend/internal/engine/engine.go:853-907 | a copy in either direction changes this path only, as its result says |
| TwoWayRuns.HandleConflict | backend/internal/engine/engine.go:713-777 | a conflict is one step of the specification, for each strategy and each way to stop |
| TwoWayRuns.SyncSource | backend/internal/engine/engine.go:488-608 | one source file is one step of the specification, or stops in a described state; a conflict is counted exactly when there is one |
| TwoWayRuns.SyncExtra | backend/internal/engine/engine.go:638-680 | one destination-only file likewise |
| TwoWayRuns.SourcePass | backend/internal/engine/engine.go:477-624 | the source loop gives every file its step or an error, and keeps the counters |
| TwoWayRuns.ExtraLoop | backend/internal/engine/engine.go:627-696 | the destination loop does so for the files the source did not show |
| TwoWayRuns.RunTwoWay | backend/internal/engine/engine.go:428-699 | however a run ends every path is in a state a run can lead to; when it is paused every path without error is untouched, done, or stopped in its copy; a complete run applies the specification to every path without error; each counter is the number of paths of its kind, files done is the number of visible paths of both sides, with version support copied, skipped, conflicts and quarantined add up to it, and the bytes copied are those moved at the paths handled |
| TwoWayRuns.KindsPartition | backend/internal/engine/engine.go:450-698 | with version support the four counters count every visible path once |
| TwoWayRuns.KindsAfterRun | backend/internal/engine/engine.go:509-607 | after a complete error-free run nothing is left to copy, the open conflicts are those left to the user, and what is left to quarantine are the copies back that hide themselves |
| TwoWayRuns.RunConverges | backend/internal/engine/engine.go:428-699 | convergence of a complete error-free run at all paths at once, with whatever filters, and its two exceptions |
| TwoWayRuns.SecondRunChangesNothing | backend/internal/engine/engine.go:428-699 | a second run changes a path, beyond the stored versions of open conflicts, if and only if the first copied it back so that it hides itself |
| TwoWayRuns.RunKeepsDestinations | backend/internal/engine/engine.go:569-601 | no run, complete, paused or broken off in any file, with whatever filters, loses a destination content |
| TwoWayRuns.RunKeepsSources | backend/internal/engine/engine.go:586-601 | no run, with whatever filters, loses a source content, unless a conflict is settled for the destination or a hidden source file is overwritten by a new destination file |
| TwoWayRuns.SourceKeptIff | backend/internal/engine/engine.go:428-699 | a complete error-free run keeps a source content if and only if it is not at one of those two places or is stored otherwise |
| TwoWayRuns.RunsKeepOnePending | backend/internal/db/conflicts.go:51-83 | every run, however it ends, keeps one pending conflict per path |
| TwoWayRuns.RunAgainLater | backend/internal/engine/engine.go:428-699 | of two complete error-free runs in a row, the second with whatever filters of its own, the second leaves a path as it is if and only if it is settled and not hidden at the source while showing at the destination by then, or an open conflict on record |
| TwoWayRuns.RunTwice | backend/internal/engine/engine.go:428-699 | of two complete runs in a row, with any known strategy and whatever filters, the second copies nothing, reports exactly the conflicts left to the user, quarantines exactly the copies back that hide themselves, none with path-only filters, and changes no other path |
| TwoWayPauses.PausedRunKeepsTwoWayResumable | backend/internal/engine/engine.go:870-873 | one more paused run leaves a path resumable, untouched, done or without its stopped copy, or it catches the path |
| TwoWayPauses.PausedRunKeepsSpoiled | backend/internal/engine/engine.go:627-680 | a path that was caught stays so in every further paused run |
| TwoWayPauses.ResumedTwoWayCatchesUp | backend/internal/engine/engine.go:477-696 | from a resumable path a complete run gives what a single uninterrupted run would have given |
| TwoWayPauses.SpoiledStaysSpoiled | backend/internal/engine/engine.go:477-696 | from a path that was caught it never does |
| TwoWayPauses.PausedThenCompleted | backend/internal/engine/engine.go:428-699 | with whatever filters any number of paused runs followed by a complete one give at each path what one uninterrupted run gives, up to versions of an open conflict, if and only if no pause was inside a risky copy back there and none came after a run had finished the path by a copy back that hides itself |
| TwoWayPauses.RunTwoWayWithPauses | backend/internal/engine/engine.go:428-699 | a job paused any number of times, at any file or chunk, and then left to finish: the same, as long as no file fails |
| ConflictService.CopyThroughTemp | backend/internal/conflicts/conflicts.go:240-271 | exactly when the copy succeeds, and the target directory after each failure: unchanged before the rename, and with the temporary file in place of the target when the rename fails |
| ConflictService.TargetSurvivesIff | backend/internal/conflicts/conflicts.go:262-270 | the old target survives a failed copy if and only if it did not come to a failing rename |
| ConflictService.Resolve | backend/internal/conflicts/conflicts.go:122-194 | exactly when it refuses or fails and with which error; the directories after each choice and each failure; the row is closed exactly on success |
| ConflictService.ResolveTwice | backend/internal/conflicts/conflicts.go:122-132 | a row that was resolved cannot be resolved again, with whatever choice, and the attempt changes nothing |
| ConflictService.CarriedOutInFull | backend/internal/conflicts/conflicts.go:134-193 | when nothing fails the path, the name put aside and the row are as chosen, and no other path changes |
| ConflictService.FailureCostsAFileIff | backend/internal/conflicts/conflicts.go:134-193 | a failed choice costs the source file if and only if keep-dest came to a failing rename over it, the destination file if and only if keep-source did; keep-both has it put aside whenever it is gone from the path |
| ConflictService.AsideFileIsReplacedIff | backend/internal/conflicts/conflicts.go:173-177 | the file at the name put aside is replaced if and only if keep-both moves another one there |
| ConflictService.SecondKeepBothLosesTheFirst | backend/internal/conflicts/conflicts.go:173-177 | an input: of two conflicts of one path kept within one second the version put aside first is nowhere any more |
| ConflictService.KeepDestinationCanLoseTheSource | backend/internal/conflicts/conflicts.go:265-270 | an input for which the source content is afterwards on neither side |
| ConflictService.ResolvedConflictStaysResolved | backend/internal/conflicts/conflicts.go:134-193 | with whatever filters that show the resulting source file, resolving and then running leaves both sides equal with the chosen content, adds no row, and after keep-both both contents are on both sides |
| VersionTables.VersionTable.PruneFileVersions | backend/internal/db/settings.go:60-99 | exactly the rows beyond the newest keep go, other files' rows stay, every kept row is at least as new as every deleted one, and the stored files of the deleted rows are returned |
| VersionTables.KeptVersions | backend/internal/db/settings.go:64-70 | min(keep, count) rows remain, none older than a dropped one |
| VersionTables.SafeIff | backend/internal/db/settings.go:64-70 | a version survives every order the query may return if and only if at most keep rows, itself included, are at least as new |
| VersionTables.DistinctTimesKeepTheLast | backend/internal/db/settings.go:64-70 | when all times differ the order is forced and exactly the last keep versions created survive |
| VersionTables.PrunedIsWhatTheTableKeeps | backend/internal/db/settings.go:60-99 | when all times differ, the list of versions a run keeps of a path holds the contents of exactly the rows that survive, in order of creation |
| Quarantines.AgreeAdd | backend/internal/versions/versions.go:137-192 | a new row with its file keeps rows and files in agreement |
| Quarantines.AgreeClose | backend/internal/db/quarantine.go:114-121 | closing a row and taking its file away keeps the agreement |
| Quarantines.AgreeDrop | backend/internal/db/quarantine.go:148-184 | dropping rows with the files of the active ones keeps the agreement |
| Quarantines.ActiveIffHeld | backend/internal/versions/versions.go:211-239 | under the agreement an entry's file exists if and only if the entry is active |
| Quarantines.Vault.Quarantine | backend/internal/versions/versions.go:137-192 | the file moves into the folder with its row; a file already gone changes nothing |
| Quarantines.Vault.Restore | backend/internal/versions/versions.go:211-239 | exactly when it succeeds; then exactly the recorded content is back at its path and the entry is closed |
| Quarantines.Vault.Delete | backend/internal/versions/versions.go:244-259 | the file is gone and the row closed; a file already gone is no error |
| Quarantines.Vault.Expire | backend/internal/versions/versions.go:278-287 | exactly the active rows whose time is up go, with exactly their files |
| Quarantines.Vault.ClearRemoved | backend/internal/db/quarantine.go:132-141 | exactly the active rows remain |
| Quarantines.RunOps | backend/internal/versions/versions.go:137-287 | over any sequence of operations rows and files agree; an active entry stays active, unchanged, if and only if no operation ends it, and then holds the content it held at the start |
| Quarantines.QuarantineThenRestore | backend/internal/versions/versions.go:137-239 | quarantine, any operations, restore: it succeeds if and only if the time is not up and no operation restored or deleted the entry, and then the content comes back as it was |
| DirTrees.EmptyIsBare | backend/internal/versions/versions.go:302-304 | a directory without entries has nothing below it at any depth |
| DirTrees.DirTree.PruneEmptyDirs | backend/internal/versions/versions.go:293-311 | the climb ends, touches no file, and removes exactly the directories strictly inside the root on the line upwards with no file below and nothing below off the line or irremovable |
| Filters.Decide | backend/internal/filter/filter.go:152-165 | the loop returns the decision of the rules, then of the hidden-file switch, else includes |
| Filters.FirstMatchWins | backend/internal/filter/filter.go:156-160 | an action is decided if and only if a rule with that action matches and none before it does |
| Filters.FirstRuleDecides | backend/internal/filter/filter.go:152-165 | the action of the first rule that would leave the file out on its own, and failing all the hidden-file switch |
| Filters.GlobLeavesOutIff | backend/internal/filter/filter.go:169-173 | a glob rule leaves out exactly what its pattern matches; a pattern error is no match |
| Filters.IncludeSaves | backend/internal/filter/filter.go:143-165 | an include rule saves what it matches from the exclude rules after it and from the hidden-file switch |
| Filters.ExtensionLeavesOutIff | backend/internal/filter/filter.go:174-177 | an extension rule, written with or without its dot, leaves out exactly the paths that end in a dot and those letters, in either case |
| Filters.SizeLeavesOutIff | backend/internal/filter/filter.go:178-185 | a size rule leaves out exactly what is above its one bound or below the other; zero is no bound |
| Filters.AgeLeavesOutIff | backend/internal/filter/filter.go:186-195 | an age rule leaves out exactly what was modified more than so many days ago, or less, up to 106,751 days |
| Filters.UnknownLeavesNothingOut | backend/internal/filter/filter.go:167-197 | a rule of an unknown type leaves nothing out |
| Filters.HasHiddenSegment | backend/internal/filter/filter.go:199-206 | true if and only if a name beginning with a dot, other than . and .., starts somewhere in the path |
| Filters.HiddenIsASegment | backend/internal/filter/filter.go:199-206 | splitting at slashes finds exactly those names |
| Filters.DaysExactIff | backend/internal/filter/filter.go:187-195 | a number of days is measured exactly if and only if it is at most 106,751 |
| Filters.ExtensionCanMatchIff | backend/internal/filter/filter.go:174-177 | a rule for an extension matches some path if and only if the extension, without its leading dot, is not empty and has no dot or slash |
| Filters.PathRulesDecideByPath | backend/internal/filter/filter.go:167-197 | without size and age rules, size, mtime and clock do not matter |
| Filters.PathRulesArePathOnly | backend/internal/filter/filter.go:152-165 | such rule sets are path-only filters, under which the exceptions of the two-way and mirror theorems do not occur |
| Filters.SizeRulesAreNot | backend/internal/filter/filter.go:178-185 | a size rule can judge the two sides of one path differently |
| Scanner.FilesInIff | backend/internal/engine/scanner.go:98-132 | the files to be listed are exactly those that names lead to from the root without passing a directory called .tidemarq-quarantine |
| Scanner.MoveConserves | backend/internal/engine/scanner.go:66-132 | every step of walker, worker or canceller keeps the account of files, unless the walk gave up |
| Scanner.MoveShrinks | backend/internal/engine/scanner.go:66-139 | every step brings the end nearer |
| Scanner.RunsAreBounded | backend/internal/engine/scanner.go:66-139 | no schedule is longer than a bound computed from the mount and the number of workers |
| Scanner.NeverStuck | backend/internal/engine/scanner.go:66-139 | until the scan returns some goroutine can move, with the channel full or empty, cancelled or not |
| Scanner.ScanIsExact | backend/internal/engine/scanner.go:33-151 | with no cancellation every successful schedule returns each included file outside quarantine folders exactly once, and their total size; it succeeds where every directory can be read |
| Scanner.SuccessIsCompleteIff | backend/internal/engine/scanner.go:134-150 | a successful scan lacks exactly the included files left in the channel |
| Scanner.CancelledWalkFails | backend/internal/engine/scanner.go:100-102 | a scan that is cancelled while a directory is still to be entered never reports success |
| Scanner.MoveKeepsOrder | backend/internal/engine/scanner.go:66-132 | every step keeps the channel the files sent last, in walking order |
| Scanner.SuccessMeansCompleteIff | backend/internal/engine/scanner.go:53-150 | with cancellations at any moment, every successful scan of a readable mount is complete if and only if none of its last 256 files in walking order is included |
| Scanner.CancelCanTruncate | backend/internal/engine/scanner.go:90-92 | on every readable mount, for each included file among the last 256 in walking order, a schedule that succeeds without it |
| Jobs.MoveKeepsMap | backend/internal/jobs/jobs.go:355-364 | every step keeps the running map naming exactly the goroutines before their cleanup |
| Jobs.MoveKeepsStatus | backend/internal/jobs/jobs.go:434-462 | every step keeps the stored status true of the goroutine |
| Jobs.InvHolds | backend/internal/jobs/jobs.go:349-629 | the invariants hold after any interleaving |
| Jobs.OneLiveRun | backend/internal/jobs/jobs.go:349-367 | at most one goroutine per job before cleanup; a job is in the map if and only if there is one |
| Jobs.RunningStatusIff | backend/internal/jobs/jobs.go:456-462 | stored "running" if and only if the job is in the map and its goroutine is between its first and last status write; a job shown as paused is refused if and only if its goroutine has not yet stored "running", or has ended by a pause and not yet cleaned up |
| Jobs.ResumeCanBeRefusedWhilePaused | backend/internal/jobs/jobs.go:595-597 | a schedule in which that happens |
| Jobs.LastOutcomeIsShown | backend/internal/jobs/jobs.go:461-629 | over all interleavings: once the last run of a job has ended the job is shown as idle, paused or in error, as that run completed, was paused or failed, until the next run has begun |
| Jobs.StoredStatusIsShown | backend/internal/jobs/jobs.go:131-139 | a job not run since start-up shows its stored status, or idle where that was running |
| Jobs.RunsAreAccountedFor | backend/internal/jobs/jobs.go:434-453 | accepted runs are rows written plus goroutines not finished; one row per finished run, with its outcome; a paused outcome answers a pause of that run |
| Jobs.QuietMeansRecorded | backend/internal/jobs/jobs.go:434-460 | when no goroutine can move every run has its row, every job can be started and none is shown as running |
| Hubs.MoveIsSafe | backend/internal/ws/hub.go:70-136 | every step keeps listed clients' channels open, queues within 64 slots, and closes and sends correct |
| Hubs.HubIsSafe | backend/internal/ws/hub.go:70-136 | over all interleavings with any number of broadcasts: no send on a closed channel, no second close, listed means open, unlisted with its pump running means closed, at most 64 queued |
| Hubs.DroppedPumpCanEnd | backend/internal/ws/hub.go:123-134 | over all interleavings: the pump of a client that was unregistered or dropped can end at once |
| Hubs.MoveKeepsAccount | backend/internal/ws/hub.go:70-136 | every step, with any number of broadcasts, keeps the books: each broadcast since its registration has been sent to a listed client or has yet to serve it, and none is sent twice |
| Hubs.SendInRunIff | backend/internal/ws/hub.go:100-110 | a send leaves a client's messages gap-free and in order if and only if they were and it did not overtake an earlier broadcast |
| Hubs.GapFreeIff | backend/internal/ws/hub.go:70-136 | over all interleavings with any number of broadcasts a client is queued consecutive broadcasts from its registration if and only if never a message was queued to it while a broadcast begun earlier had not served it |
| Hubs.BroadcastsArriveInOrder | backend/internal/ws/hub.go:70-136 | every client is queued a gap-free run of broadcasts from its registration, its pump delivers a prefix, and between broadcasts a listed client has been queued all |
| Hubs.TwoBroadcastsCanLeaveAGap | backend/internal/ws/hub.go:100-121 | a reachable schedule with two broadcasts in which a listed client misses one and gets the next |

## Left out

- Block sizes above 2^31-1: a block length no longer fits the int32 it is stored in; the statistics clause of `DeltaDiff.Diff` covers them, the round trip does not.
- The share of literals above which a delta is not used is a floating-point estimate; the environment chooses between delta and full copy.
- Content hashes are modelled as injective, and a job keeps its hash algorithm from run to run.
- Paths are flat keys: permissions, symbolic links, clashes between a file and a directory of one name, and platform quirks of renaming are not modelled. `DirTrees` alone models directories.
- The source does not change while a run reads it; the scan of a run sees both sides at one moment, and its filters read the clock once.
- TwoWayPauses.PausedThenCompleted: all runs judge the files at one time, because the uninterrupted run to compare with reads the clock once; `SyncSpec.LaterRunIff` has the second judgement. Paths where a half-written file could not be removed are in `TwoWayFacts.TwoWayRemnantIff` and `TwoWayFacts.SourceRemnantIff`.
- TwoWayPauses.RunTwoWayWithPauses: judges the files at one time and leaves out the paths of unremoved parts, likewise.
- TwoWayRuns.SecondRunChangesNothing: both runs judge the files at one time; `TwoWayRuns.RunAgainLater` has two.
- TwoWayRuns.RunTwice: judges the files at one time, likewise.
- Other calls whose errors the code discards are taken to succeed: database writes (stored versions, conflict rows, removal of manifest entries, job status, run rows), setting the mtime of a one-way copy, and removing a temporary file after a failed delta or resolution.
- Failures in the middle of quarantine, restore and delete (a rename or a row that fails) and outside interference with the quarantine folder.
- The `snapshot` parameter of the one-way modes is always false and is dropped.
- Time stamps of versions and quarantine entries are taken to increase strictly, except in `VersionTables`, which is about ties.
- Worlds.World.Snapshot: takes stored versions in order of creation and copies and rows as succeeding, because ties of time are the subject of `VersionTables`.
- Worlds.NewestSurvivesPruning: holds for versions with different times; `VersionTables.SafeIff` says what ties can cost.
- The temporary file that a failing rename leaves beside a conflict's target is an ordinary file for later runs; its later fate is not followed.
- Legacy conflict paths in Resolve: nothing in the current code creates them.
- Progress reports, rates, remaining-time estimates, bandwidth sleeps and the count of bytes reviewed.
- Cancellation in the engine's loops ends a run with an error between files and is not modelled; in the scan it is.
- Two simultaneous Pause calls for one job; Pause is one step in `Jobs`.
- Deletion and update of jobs while they run, cron and watch triggers beyond their call of Run, and audit entries.
- JSON encoding of events and the connection itself; a write of the pump may fail at any time.
- Glob matching, lower-casing of a character and hash functions are parameters.
- HTTP handlers, authentication, configuration, encryption, SFTP and SMB clients, SQL text, migrations and the frontend.
