# Verification of LevelDB and nanopb

The pods of the app bring two pieces of infrastructure that keep its data: the LevelDB
library, a log-structured store, and nanopb, the protocol buffers of its messages. This
project models both and proves what they promise.

* **The store.** A state machine of memtables, versions, snapshots and a background
  compaction (`Store`), beside the flat history of all writes. Every run keeps the
  invariant, and every live reader reads what the history says (`StoreSteps`, `Runs`). The
  objects that take the steps are `Engine`, over the choice of inputs (`Selection`,
  `Picking`), the merge loop (`CompactionWork`, `Preservation`) and the cutting of its outputs
  (`OutputCutting`), version edits (`Versions`, `Readiness`, `Builder`) and the search of a
  version (`Tables`); `Compacting` is one whole compaction with the merge of its inputs. `Resurrection` and `GapFlush` are two runs that
  go wrong.
* **Iterators.** The merge of sorted sources in both directions (`Merging`), the cursor over
  live pairs (`DbIter`), and the two composed over the whole store (`Scanning`).
* **Durability.** Checksums (`Crc32c`), the log, its crashes and its damages (`Log`,
  `LogIntegrity`), batches as bytes (`WriteBatches`, `BatchChecks`), group commit
  (`GroupCommit`), recovery of log files (`LogRecovery`, `RecoveryChecks`), and the four
  together across a crash of the machine (`Crashes`, and the run `LostWrite`); the manifest
  from edits to bytes and back (`VersionEdits`, `EditChecks`, `Manifest`, `ManifestChecks`);
  and the scheduling of background work (`Scheduling`).
* **The memtable's skip list** while it is being changed (`SkipList`).
* **Table files.** Blocks with shared prefixes (`Blocks`, `BlockIter`), Bloom filters
  (`Bloom`, `FilterBlock`), separators (`Comparators`), the index (`TableIndex`), builder and
  reader (`TableFormat`, `SortedTable`, `TableReader`), and the iterator over a table
  (`TwoLevel`).
* **The block cache's policy**: a hash table with chains (`HandleTable`), linked rings
  (`Rings`) and reference-counted handles (`LruCache`).
* **nanopb.** Messages and their encoding (`PbMessage`, `PbEncode`), decoding (`PbDecode`,
  `PbDecoder`), what a round trip preserves (`PbRoundTrip`), and what is accepted, refused and
  skipped of any bytes (`PbSafety`, `PbRefusals`).

Check it with `dafny verify dfyconfig.toml`.

## Model

| member | source | states |
|---|---|---|
| `Runs.RunInv` | Nerde Yesem/Pods/leveldb-library/db/version_set.cc:590-755 | Every state of every run without the two hazards below (writes, memtable switches, flushes also in the middle of a compaction, compactions, trivial moves, snapshots, failed compactions) has levels that are sorted and disjoint, and newer places hold larger sequence numbers for the same key |
| `Runs.RunReads` | Nerde Yesem/Pods/leveldb-library/db/version_set.cc:590-755 | In every state of every such run, for every key and every live sequence number, the entries of memtables and tables together read exactly as the flat history of all writes does; the search that finds them place by place is `Engine.DbImpl.Get` |
| `Runs.SnapshotReadsRepeat` | Nerde Yesem/Pods/leveldb-library/db/db_impl.cc:1166-1174 | A snapshot live at two points of a run answers every key alike at both, whatever flushes and compactions lie between |
| `Runs.FinishPreservesIff` | Nerde Yesem/Pods/leveldb-library/db/db_impl.cc:890-998 | Installing a compaction leaves every read at or above its oldest snapshot alone if and only if `Hazard` is false: no file is left behind the lower inputs that continues their last user key, or its first entry is no value, or the key is not at its base level, or a read of it at the snapshot does not find a deletion among the inputs |
| `StoreSteps.HazardIsResurrection` | Nerde Yesem/Pods/leveldb-library/db/version_set.cc:1403-1417 | What a caller can check on one boundary file before the compaction is equivalent to a dropped deletion marker uncovering an older value |
| `Readiness.UncoveredBehind` | Nerde Yesem/Pods/leveldb-library/db/version_set.cc:1364-1410 | An older value that an obsolete marker uncovers is in a file behind the lower inputs, which therefore are not empty, and is no newer than what the first such file starts with |
| `Runs.ClosedLowerInputsAreSafe` | Nerde Yesem/Pods/leveldb-library/db/version_set.cc:1403-1417 | If the lower inputs were closed under boundary files as the upper ones are, every finished compaction would keep all reads, and the invariant exactly when no output reaches across a file that stays |
| `StoreSteps.FinishHazardBreaks` | Nerde Yesem/Pods/leveldb-library/db/db_impl.cc:949-962 | With the hazard there is a key that reads as deleted before the compaction and as present after it |
| `Resurrection.DeletedValueReturns` | Nerde Yesem/Pods/leveldb-library/db/version_set.cc:1403-1462 | A run of 20 engine steps reaches a state from which one finished compaction hands a reader of the latest data a value whose deletion was the last thing written for its key |
| `StoreSteps.FlushKeepsInv` | Nerde Yesem/Pods/leveldb-library/db/db_impl.cc:535-566 | A flush keeps the invariant, whatever compaction is running |
| `StoreSteps.FinishKeepsInvIff` | Nerde Yesem/Pods/leveldb-library/db/db_impl.cc:860-876 | A finished compaction keeps the invariant, its reads and the order of its levels among it, if and only if neither hazard is there: no value is uncovered, and no output reaches across a file that stays |
| `StoreSteps.FinishedValidIff` | Nerde Yesem/Pods/leveldb-library/db/db_impl.cc:860-876 | The levels are in order afterwards exactly when no output reaches across a file of the output level that is not an input |
| `StoreSteps.ConnectedNeverStraddles` | Nerde Yesem/Pods/leveldb-library/db/version_set.cc:1403-1462 | Inputs without a gap, as PickCompaction chooses them, never lead to that, whatever has been flushed meanwhile |
| `Versions.OneSideIsApart` | Nerde Yesem/Pods/leveldb-library/db/db_impl.cc:908-920 | Nor do any inputs as long as every file that stays lies on one side of them all |
| `GapFlush.PutOutOfSight` | Nerde Yesem/Pods/leveldb-library/db/db_impl.cc:908-920 | A run of Write, flushes and one manual compaction reaches a state from which the finished compaction leaves a put in its file, in the history and on disk, where no lookup finds it |
| `StoreSteps.MoveKeepsInv` | Nerde Yesem/Pods/leveldb-library/db/db_impl.cc:718-728 | A trivial move of a lone file keeps the invariant |
| `StoreSteps.WriteKeepsInv` | Nerde Yesem/Pods/leveldb-library/db/db_impl.cc:1205-1237 | A batch with fresh consecutive sequence numbers keeps the invariant, and reads stay those of the history |
| `Engine.DbImpl.Get` | Nerde Yesem/Pods/leveldb-library/db/db_impl.cc:1100-1145 | Memtable, then immutable memtable, then tables: the answer is that of the flat history at the snapshot or the last sequence number |
| `Engine.DbImpl.Write` | Nerde Yesem/Pods/leveldb-library/db/write_batch.cc:118-137 | The object takes a write step of the state machine |
| `Engine.DbImpl.CompactMemTable` | Nerde Yesem/Pods/leveldb-library/db/db_impl.cc:491-566 | The object takes a flush step at the one output level that its bounds call for, also while any compaction is running; no compaction pointer moves |
| `Engine.DbImpl.BackgroundCompaction` | Nerde Yesem/Pods/leveldb-library/db/db_impl.cc:688-733 | A compaction is picked exactly when a level or a file is due, the level before the file: from the file after the pointer or the sought one, grown as far as the byte limit allows and no further, and the pointer moves to its largest key; it is a trivial move exactly when it is a lone file that meets nothing below and few bytes two levels below, and otherwise starts |
| `Engine.DbImpl.FinishCompaction` | Nerde Yesem/Pods/leveldb-library/db/db_impl.cc:878-1036 | Given the merge of the inputs: dropping, cutting where it must be cut, and installing is one finish step, and the object is valid afterwards exactly when neither hazard was there |
| `Compacting.MakeInputIterator` | Nerde Yesem/Pods/leveldb-library/db/version_set.cc:1237-1268 | For any well-chosen inputs, one source for each level-0 file and one for each deeper side, merged, is a cursor over exactly the entries of the inputs |
| `Compacting.Compact` | Nerde Yesem/Pods/leveldb-library/db/db_impl.cc:878-1036 | From the choice of inputs on: a start step, the merge of the input files read to its end, and a finish step on it with outputs cut where they must be; the object is valid afterwards exactly when neither hazard was there |
| `Tables.VersionGet` | Nerde Yesem/Pods/leveldb-library/db/version_set.cc:326-421 | Level 0 newest file first, then one binary-searched file a level, stopping at the first entry found: the result is the newest visible entry of all files |
| `Tables.FindFile` | Nerde Yesem/Pods/leveldb-library/db/version_set.cc:88-106 | The least index whose file does not end before the key |
| `Tables.SomeFileOverlapsRange` | Nerde Yesem/Pods/leveldb-library/db/version_set.cc:122-157 | True if and only if some file meets the user-key range, open ends included |
| `Selection.GetOverlappingInputs` | Nerde Yesem/Pods/leveldb-library/db/version_set.cc:519-559 | All files that meet the range; at level 0, those that meet the least closed range around it, in spite of restarts in mid scan |
| `Selection.PickLevelForMemTableOutput` | Nerde Yesem/Pods/leveldb-library/db/version_set.cc:491-516 | The output level: at most 2, no overlap from level 0 down to it, never past a level with too many bytes below, and no further only where the next level overlaps or the one after overlaps too many bytes |
| `Selection.OutputLevelUnique` | Nerde Yesem/Pods/leveldb-library/db/version_set.cc:491-516 | There is only one such level |
| `Selection.BoundariesClose` | Nerde Yesem/Pods/leveldb-library/db/version_set.cc:1378-1401 | Once the chain of boundary files is in, no file of the level continues the largest user key |
| `Selection.AddBoundaryInputs` | Nerde Yesem/Pods/leveldb-library/db/version_set.cc:1378-1401 | The inputs and exactly that chain |
| `Picking.SetupOtherInputs` | Nerde Yesem/Pods/leveldb-library/db/version_set.cc:1403-1462 | The upper set is the closed first files, or those grown to all files of the range of both sets exactly when that brings more, stays within the byte limit and leaves the lower set as it is; the lower set is what the range of the upper set meets; grandparents are what both meet two levels down |
| `Picking.PickCompaction` | Nerde Yesem/Pods/leveldb-library/db/version_set.cc:1270-1322 | A compaction is chosen exactly when one is due; it starts with the file after the compaction pointer or with the sought file, its inputs are well chosen and without a gap, and the pointer moves to its largest key |
| `Picking.CompactRange` | Nerde Yesem/Pods/leveldb-library/db/version_set.cc:1464-1495 | Nothing exactly when no file meets the range; otherwise the files of the range, above level 0 only the first of them up to the byte limit, closed and grown as SetupOtherInputs does, and the pointer at their largest key |
| `CompactionWork.IsBaseLevelForKey` | Nerde Yesem/Pods/leveldb-library/db/version_set.cc:1533-1552 | For keys asked in order, the cursors that only move on answer as a scan of all deeper levels |
| `CompactionWork.ShouldStopBefore` | Nerde Yesem/Pods/leveldb-library/db/version_set.cc:1554-1576 | Stops exactly when the grandparent bytes passed since the last cut exceed the limit |
| `CompactionWork.DoCompactionWork` | Nerde Yesem/Pods/leveldb-library/db/db_impl.cc:878-1036 | The outputs, one after another, are the input without the entries that the two drop rules name; one ends exactly where its size reaches the limit or the overlap with the grandparents does |
| `CompactionWork.CheckStop` | Nerde Yesem/Pods/leveldb-library/db/db_impl.cc:918-929 | Along the input, the moving grandparent cursor stops exactly where the rule over the whole input says |
| `OutputCutting.StopsUnique` | Nerde Yesem/Pods/leveldb-library/db/version_set.cc:1554-1576 | There is one list of places where that rule stops the output |
| `CompactionWork.KeptMember` | Nerde Yesem/Pods/leveldb-library/db/db_impl.cc:937-962 | Entry i survives if and only if no newer entry of its key is at or below the snapshot and it is no deletion at its base level at or below the snapshot |
| `Preservation.CompactionPreservesReadsIff` | Nerde Yesem/Pods/leveldb-library/db/db_impl.cc:937-962 | On any set of entries: the drop rules leave all reads at or above the snapshot alone if and only if no dropped marker uncovers an older value |
| `Versions.InstallKeepsValid` | Nerde Yesem/Pods/leveldb-library/db/version_set.cc:695-755 | Replacing inputs by outputs keeps levels disjoint and newer data first |
| `Versions.FlushKeepsValid` | Nerde Yesem/Pods/leveldb-library/db/version_set.cc:695-755 | Adding a flushed table at its level keeps levels disjoint and newer data first |
| `Readiness.ChosenReady` | Nerde Yesem/Pods/leveldb-library/db/version_set.cc:1403-1462 | Well-chosen inputs leave nothing older above them and nothing that overlaps beside them |
| `Builder.MergeLevel` | Nerde Yesem/Pods/leveldb-library/db/version_set.cc:698-721 | The merge of base and added files is sorted and holds exactly what is not deleted |
| `Builder.VersionBuilder.Apply` | Nerde Yesem/Pods/leveldb-library/db/version_set.cc:650-692 | For an edit with numbers new to their levels: deleted numbers are collected and struck out again for files the edit adds |
| `Builder.ReplayIsChain` | Nerde Yesem/Pods/leveldb-library/db/version_set.cc:946-992 | If no edit gives a level a number it was given before, one builder over all edits ends with the files that one version after another ends with |
| `Builder.SortedUnique` | Nerde Yesem/Pods/leveldb-library/db/version_set.cc:593-606 | The list of a level is determined by its set of files |
| `VersionEdits.EditRoundTrip` | Nerde Yesem/Pods/leveldb-library/db/version_edit.cc:41-205 | For every edit that fits its words: decoding its encoding gives it back if and only if its levels are below 7, behind whatever compaction pointers the object already held; otherwise an error |
| `VersionEdits.FieldRoundTrip` | Nerde Yesem/Pods/leveldb-library/db/version_edit.cc:119-196 | Each of the eight tagged fields reads back whatever follows it, or gives its message when its level is unknown |
| `VersionEdits.DecodeFits` | Nerde Yesem/Pods/leveldb-library/db/version_edit.cc:107-205 | Whatever the bytes, what is decoded fits its words, has levels below 7 and deleted files in order |
| `EditChecks.AcceptedIff` | Nerde Yesem/Pods/leveldb-library/db/version_edit.cc:107-205 | Any bytes decode without an error if and only if they are fields one after another, each a known tag and a body of its form with a level below 7, in whatever varints; the edit is what those fields say |
| `EditChecks.RefusedIff` | Nerde Yesem/Pods/leveldb-library/db/version_edit.cc:107-205 | Bytes give an error if and only if they are fields up to a place where no field starts: the object has what came before, and the message names the tag there |
| `VersionEdits.VersionEdit.EncodeTo` | Nerde Yesem/Pods/leveldb-library/db/version_edit.cc:41-85 | The object writes its fields in order: the scalars it has, pointers, deleted files, new files |
| `VersionEdits.VersionEdit.DecodeFrom` | Nerde Yesem/Pods/leveldb-library/db/version_edit.cc:107-205 | The object and its message after the tagged loop are those of `Decode`, also when the loop stops at an error |
| `Manifest.VersionSet.LogAndApply` | Nerde Yesem/Pods/leveldb-library/db/version_set.cc:801-884 | For an edit with numbers new to their levels and log numbers below the next file number: the edit is filled in with log numbers, next file and last sequence number; the version is the old one edited; the manifest has one record more, behind a snapshot if it is new; and the manifest invariant holds again |
| `Manifest.VersionSet.Recover` | Nerde Yesem/Pods/leveldb-library/db/version_set.cc:886-1011 | For any bytes whose edits, up to the first error, give no level the same number twice: the status is the first undecodable record, foreign comparator, report of the log or missing number; without one, files, log numbers, file numbers, last sequence number and compaction pointers are what the edits say, and with one files and numbers stay as they were |
| `Manifest.Reopen` | Nerde Yesem/Pods/leveldb-library/db/version_set.cc:886-1011 | A manifest cut off anywhere is recovered exactly as the version set was after the last LogAndApply whose record is whole in it; it fails if and only if that is before the first |
| `ManifestChecks.LoadIff` | Nerde Yesem/Pods/leveldb-library/db/version_set.cc:933-969 | On any bytes: the edits load without an error if and only if the log reads without a report and every record decodes to an edit that names no other comparator; then they are what the records decode to |
| `ManifestChecks.LoadNamed` | Nerde Yesem/Pods/leveldb-library/db/version_set.cc:936-943 | On any bytes, also up to an error: no edit that is applied names another comparator |
| `ManifestChecks.ForeignLoad` | Nerde Yesem/Pods/leveldb-library/db/version_set.cc:936-943 | Of a manifest that a version set of another name wrote, cut off anywhere behind its first record, nothing is loaded |
| `ManifestChecks.ReopenAs` | Nerde Yesem/Pods/leveldb-library/db/version_set.cc:886-1011 | A version set of another name refuses such a manifest with that message and stays as it was made |
| `Manifest.VersionSet.WriteSnapshot` | Nerde Yesem/Pods/leveldb-library/db/version_set.cc:1088-1116 | The record is the comparator name, the pointers that are set and all files of the current version |
| `Manifest.SnapshotFits` | Nerde Yesem/Pods/leveldb-library/db/version_set.cc:1088-1116 | Replaying that record alone gives the current version |
| `Manifest.LoadsWritten` | Nerde Yesem/Pods/leveldb-library/db/version_set.cc:933-969 | What a manifest of LogAndApply loads as, cut off anywhere, is a whole number of its edits, as many as are whole |
| `Merging.MergingIterator.Next` | Nerde Yesem/Pods/leveldb-library/table/merger.cc:55-79 | The position among the merged entries goes on by one, after a change of direction too |
| `Merging.MergingIterator.Prev` | Nerde Yesem/Pods/leveldb-library/table/merger.cc:81-108 | The position goes back by one, after a change of direction too |
| `Merging.MergingIterator.Seek` | Nerde Yesem/Pods/leveldb-library/table/merger.cc:47-53 | The position is that of the first merged entry not before the target |
| `DbIter.DBIter.Next` | Nerde Yesem/Pods/leveldb-library/db/db_iter.cc:141-198 | From any valid entry, in either direction, to the least key above with a live value at the sequence number, and its value; past the end if there is none |
| `DbIter.DBIter.Prev` | Nerde Yesem/Pods/leveldb-library/db/db_iter.cc:200-267 | To the greatest key below with a live value, and its value |
| `DbIter.DBIter.Seek` | Nerde Yesem/Pods/leveldb-library/db/db_iter.cc:269-281 | To the least live key at or after the target |
| `DbIter.DBIter.SeekToFirst` | Nerde Yesem/Pods/leveldb-library/db/db_iter.cc:283-292 | To the least live key |
| `DbIter.DBIter.SeekToLast` | Nerde Yesem/Pods/leveldb-library/db/db_iter.cc:294-299 | To the greatest live key |
| `DbIter.StepsInvert` | Nerde Yesem/Pods/leveldb-library/db/db_iter.cc:141-225 | A step forward and a step back, in either order, return to the same pair |
| `Scanning.NewIterator` | Nerde Yesem/Pods/leveldb-library/db/db_impl.cc:1062-1157 | The cursor over memtables, level-0 files and concatenated levels yields exactly what reads of the history at its sequence number give |
| `Scanning.AddIterators` | Nerde Yesem/Pods/leveldb-library/db/version_set.cc:230-246 | One source for each level-0 file and one for each deeper level together hold every entry of the version once |
| `Crc32c.Extend` | Nerde Yesem/Pods/leveldb-library/util/crc32c.cc:276-377 | Bytewise lead-in, four interleaved strides and the tail give the remainder of bit-by-bit polynomial division, for any data and any alignment |
| `Crc32c.ExtendExtends` | Nerde Yesem/Pods/leveldb-library/util/crc32c.cc:276-377 | Extending by one string and then another is extending by their concatenation |
| `Crc32c.ValueExtends` | Nerde Yesem/Pods/leveldb-library/util/crc32c.h:17-20 | The same for the checksum as a number |
| `Crc32c.UnmaskMask` | Nerde Yesem/Pods/leveldb-library/util/crc32c.h:22-40 | Unmasking undoes masking on all 32-bit words |
| `Crc32c.MaskUnmask` | Nerde Yesem/Pods/leveldb-library/util/crc32c.h:22-40 | Masking undoes unmasking |
| `Log.Writer.AddRecord` | Nerde Yesem/Pods/leveldb-library/db/log_writer.cc:34-108 | The file is the log of the records so far and one more, with trailers where no header fits |
| `Log.RoundTrip` | Nerde Yesem/Pods/leveldb-library/db/log_reader.cc:56-174 | Reading back a log gives its records, in order, and no report |
| `Log.CrashPrefix` | Nerde Yesem/Pods/leveldb-library/db/log_reader.cc:189-271 | Reading any prefix of a log gives exactly the records that are whole in it, and no report |
| `Log.Reader.ReadRecord` | Nerde Yesem/Pods/leveldb-library/db/log_reader.cc:56-174 | From the start of any bytes on, the object takes the steps of the reading function, reports of corruption included; what that function hands on and what it refuses is in `LogIntegrity` |
| `LogIntegrity.RecordsAreWhole` | Nerde Yesem/Pods/leveldb-library/db/log_reader.cc:189-271 | Whatever the bytes, every record read from them is in them as one full fragment or a first, middle ones and a last, in order, each behind the checksum of its type and payload |
| `LogIntegrity.DamageRefused` | Nerde Yesem/Pods/leveldb-library/db/log_reader.cc:243-257 | A fragment whose type or payload has another checksum than the one stored before it is refused, and the rest of its block is dropped with a report |
| `LogIntegrity.DamageIsReported` | Nerde Yesem/Pods/leveldb-library/db/log_reader.cc:66-174 | Reading a record across such a fragment makes a report, whatever follows |
| `LogIntegrity.OutOfPlaceIsReported` | Nerde Yesem/Pods/leveldb-library/db/log_reader.cc:91-160 | So does a fragment out of place: a middle or last one without a first, a full or first one or the end of a block gone bad within a record, or an unknown type |
| `LogIntegrity.PastTheBlock` | Nerde Yesem/Pods/leveldb-library/db/log_reader.cc:222-233 | A length that runs past the block drops it with a report, or ends the reading without one at the end of the file |
| `LogIntegrity.ZerosSkipped` | Nerde Yesem/Pods/leveldb-library/db/log_reader.cc:235-241 | A block of zeros is passed over without a report |
| `GroupCommit.BuildBatchGroup` | Nerde Yesem/Pods/leveldb-library/db/db_impl.cc:1260-1306 | The longest front part of the queue in which no batch but the first takes the sum of the bytes past the limit that the first one sets, and nobody asks for a sync that the leader did not ask for |
| `GroupCommit.GroupWellCut` | Nerde Yesem/Pods/leveldb-library/db/db_impl.cc:1271-1292 | Counted by a plain sum over the batches: a group of two batches or more stays within the limit, and the writer behind a group asks for a sync the leader did not ask for or would take it past the limit |
| `GroupCommit.HaltedAfterError` | Nerde Yesem/Pods/leveldb-library/db/db_impl.cc:1196-1256 | In every run, once an error is set only the group under way still leaves with its own outcome; all later writers are turned away, and with none under way nothing is written any more |
| `GroupCommit.NothingAfterFailedSync` | Nerde Yesem/Pods/leveldb-library/db/db_impl.cc:1218-1233 | In every run, whoever leaves after a group whose sync failed is turned away |
| `GroupCommit.RunInv` | Nerde Yesem/Pods/leveldb-library/db/db_impl.cc:1185-1256 | Every state of every run of writers, errors included, keeps the invariant |
| `GroupCommit.CommittedInMemtable` | Nerde Yesem/Pods/leveldb-library/db/db_impl.cc:1205-1237 | The operations of an acknowledged writer are in the memtable, together, in order, with consecutive sequence numbers |
| `GroupCommit.CommittedInLog` | Nerde Yesem/Pods/leveldb-library/db/db_impl.cc:1205-1237 | They are in one log record, together and in order |
| `GroupCommit.CommittedSyncIsDurable` | Nerde Yesem/Pods/leveldb-library/db/db_impl.cc:1215-1233 | The log record of an acknowledged writer that asked for a sync was synced |
| `GroupCommit.SequencesApart` | Nerde Yesem/Pods/leveldb-library/db/db_impl.cc:1203-1237 | Two writers share no sequence number, and who leaves first has the smaller ones |
| `GroupCommit.MemtableOrdered` | Nerde Yesem/Pods/leveldb-library/db/db_impl.cc:1203-1237 | Sequence numbers increase through the memtables, and the last one published covers whole groups only |
| `GroupCommit.RunFollows` | Nerde Yesem/Pods/leveldb-library/db/db_impl.cc:1185-1256 | Along every run the last sequence number never decreases, no acknowledgement is taken back, and writers leave in the order in which they came |
| `GroupCommit.LogOrdered` | Nerde Yesem/Pods/leveldb-library/db/db_impl.cc:1203-1220 | Sequence numbers increase through all log files too |
| `Scheduling.RunInv` | Nerde Yesem/Pods/leveldb-library/db/db_impl.cc:640-686 | Whenever the lock is free: the flag says whether a call is pending, one is when there is work and no error or shutdown, and after an error without a shutdown nobody waits |
| `Scheduling.WokenSoon` | Nerde Yesem/Pods/leveldb-library/db/db_impl.cc:1310-1370 | In every run, whoever waits for the signal is woken within three steps of the background thread, whatever other threads do meanwhile, and until then the background thread has a step it can take |
| `Scheduling.CallCanMove` | Nerde Yesem/Pods/leveldb-library/db/db_impl.cc:669-767 | A call that has not ended can take its next step, unless its request is gone |
| `Scheduling.WorkIsScheduled` | Nerde Yesem/Pods/leveldb-library/db/db_impl.cc:648-663 | Work that can be done has a pending call |
| `Scheduling.ScheduledForWork` | Nerde Yesem/Pods/leveldb-library/db/db_impl.cc:648-663 | A step schedules a call only when there is work, and neither an error nor a shutdown |
| `Scheduling.WorkBegins` | Nerde Yesem/Pods/leveldb-library/db/db_impl.cc:669-699 | A scheduled call begins work exactly if there is neither then: the memtable first, else a compaction, for the request if there is one |
| `Scheduling.RoomIsMade` | Nerde Yesem/Pods/leveldb-library/db/db_impl.cc:1310-1370 | A writer goes on only with room; a memtable is switched only when none waits to be written out and level 0 is below its limit; whoever is held up is so for the memtable or for a level that is due |
| `Scheduling.BackgroundProgresses` | Nerde Yesem/Pods/leveldb-library/db/db_impl.cc:669-767 | Every background step brings the signal nearer or is a flush that signals itself, and the last one wakes everybody |
| `Scheduling.OrphanedNextIff` | Nerde Yesem/Pods/leveldb-library/db/db_impl.cc:609-621 | On the state before: a manual compaction can lose its request next exactly when it is running for one that is still there and an error or a shutdown has been recorded |
| `Scheduling.OrphanedWhen` | Nerde Yesem/Pods/leveldb-library/db/db_impl.cc:609-621 | And the step that does it is the cancellation of that request, no other |
| `Scheduling.OrphanedReachable` | Nerde Yesem/Pods/leveldb-library/db/db_impl.cc:754-766 | A run that gets there |
| `Scheduling.Finalize` | Nerde Yesem/Pods/leveldb-library/db/version_set.cc:1050-1086 | The first level with the greatest score, and the score |
| `SkipList.List.Insert` | Nerde Yesem/Pods/leveldb-library/db/skiplist.h:337-368 | The contents are the old ones with the key at its place, every link published after its node is ready |
| `SkipList.List.FindGreaterOrEqual` | Nerde Yesem/Pods/leveldb-library/db/skiplist.h:262-281 | The first node not before the target, and the node before it on every level |
| `SkipList.List.Contains` | Nerde Yesem/Pods/leveldb-library/db/skiplist.h:371-378 | True if and only if the key is among the contents |
| `SkipList.List.PublishLink` | Nerde Yesem/Pods/leveldb-library/db/skiplist.h:365-366 | After each single store that readers can see, the list is valid, with all keys from before |
| `SkipList.Iterator.Prev` | Nerde Yesem/Pods/leveldb-library/db/skiplist.h:213-221 | One back in the contents, by a search from the head |
| `WriteBatches.RoundTrip` | Nerde Yesem/Pods/leveldb-library/db/write_batch.cc:42-80 | The bytes of a batch iterate as the operations put in, and without an error exactly when the count is an int |
| `WriteBatches.CutRefused` | Nerde Yesem/Pods/leveldb-library/db/write_batch.cc:42-80 | A batch cut short anywhere gives an error, and hands on a front part of its operations |
| `BatchChecks.AcceptedIff` | Nerde Yesem/Pods/leveldb-library/db/write_batch.cc:42-80 | Any bytes iterate as some operations without an error if and only if behind the header those operations are all there is, each a known tag and its strings after their lengths, and the header counts them |
| `BatchChecks.UnknownTag` | Nerde Yesem/Pods/leveldb-library/db/write_batch.cc:71-73 | An unknown tag stops a batch with its message, the operations before it handed on |
| `WriteBatches.WriteBatch.Put` | Nerde Yesem/Pods/leveldb-library/db/write_batch.cc:98-103 | The bytes are the batch with one operation more, the count included |
| `WriteBatches.WriteBatch.Append` | Nerde Yesem/Pods/leveldb-library/db/write_batch.cc:144-148 | The bytes are the batch with the operations of both, also when it is appended to itself |
| `WriteBatches.WriteBatch.Iterate` | Nerde Yesem/Pods/leveldb-library/db/write_batch.cc:42-80 | On any bytes: the operations handed on before the end or the first error, and its message |
| `LogRecovery.RecoverLogFile` | Nerde Yesem/Pods/leveldb-library/db/db_impl.cc:371-489 | On any bytes, with or without paranoid checks: the tables written, the greatest sequence number and whether it succeeds are those of replaying record by record, short records, bad batches and full memtables included |
| `LogRecovery.Recover` | Nerde Yesem/Pods/leveldb-library/db/db_impl.cc:351-369 | The log files in order, up to the first that fails |
| `RecoveryChecks.FileRecovered` | Nerde Yesem/Pods/leveldb-library/db/db_impl.cc:371-489 | On any bytes: recovery succeeds if and only if paranoid checks are off or nothing of the file was dropped and every record is a whole batch; then the tables hold every operation of every record in order, and a new one is begun exactly when the one before it is full |
| `RecoveryChecks.RecoversIff` | Nerde Yesem/Pods/leveldb-library/db/db_impl.cc:351-369 | The same condition over all files |
| `RecoveryChecks.GreatestNumber` | Nerde Yesem/Pods/leveldb-library/db/db_impl.cc:435-439 | The greatest sequence number is at least that of every batch, and is one of theirs or the one before |
| `Crashes.Reopens` | Nerde Yesem/Pods/leveldb-library/db/db_impl.cc:371-489 | After any crash in any state of the write queue that keeps what was synced, opening succeeds; the database is the records of a front part of the older log file and of a front part of the current one, all synced ones among them, and the last sequence number covers them |
| `Crashes.TablesHold` | Nerde Yesem/Pods/leveldb-library/db/db_impl.cc:535-560 | The records whose log files are no longer needed are in the memtables that were flushed, a group whose sync failed never among them |
| `Crashes.SyncedWritesSurvive` | Nerde Yesem/Pods/leveldb-library/db/db_impl.cc:1215-1233 | After any such crash the operations of every acknowledged writer that asked for a sync are in the database, together, in order, with their own sequence numbers |
| `Crashes.PrefixSurvivesIff` | Nerde Yesem/Pods/leveldb-library/db/db_impl.cc:1346-1361 | Every crash leaves a front part of the history if and only if the older log file does not end in an unsynced write or the current one has no write yet |
| `Crashes.WholeFilesLoseNothing` | Nerde Yesem/Pods/leveldb-library/include/leveldb/options.h:173-176 | When only the process goes down, opening gives the whole history |
| `LostWrite.EarlierWriteIsLost` | Nerde Yesem/Pods/leveldb-library/db/db_impl.cc:1346-1361 | A run of two acknowledged writers, and a crash after which the database holds the second write alone |
| `BlockIter.RoundTrip` | Nerde Yesem/Pods/leveldb-library/table/block_builder.cc:62-106 | A block built of any pairs that fit 32 bits iterates as those pairs, for every restart interval |
| `BlockIter.Iter.Seek` | Nerde Yesem/Pods/leveldb-library/table/block.cc:163-201 | Binary search over restart points and a scan end at the first item not before the target |
| `BlockIter.Iter.Prev` | Nerde Yesem/Pods/leveldb-library/table/block.cc:142-161 | One item back, by way of a restart point |
| `Blocks.DecodesEntry` | Nerde Yesem/Pods/leveldb-library/table/block.cc:54-74 | The three lengths of an entry read back whether or not they take the one-byte shortcut |
| `Blocks.EntryIff` | Nerde Yesem/Pods/leveldb-library/table/block.cc:54-74 | On any bytes an entry is read if and only if three lengths stand there in whatever varints, and behind them as many bytes as the last two call for |
| `Comparators.FindShortestSeparator` | Nerde Yesem/Pods/leveldb-library/util/comparator.cc:29-50 | At least the start, before the limit if the start is; the shared prefix with the next byte raised exactly if that byte can be raised and stays below, else the start |
| `Comparators.FindInternalSeparator` | Nerde Yesem/Pods/leveldb-library/db/dbformat.cc:69-86 | The same for internal keys: the shortened user key with the greatest tag exactly if it is shorter, strictly between the user keys; else the start |
| `Bloom.BloomFilterPolicy.CreateFilter` | Nerde Yesem/Pods/leveldb-library/util/bloom.cc:28-54 | A filter of the size its keys call for, with exactly the bits that their probes set and the number of probes behind them; so every key added matches |
| `FilterBlock.FilterBlockBuilder.Finish` | Nerde Yesem/Pods/leveldb-library/table/filter_block.cc:35-49 | Each filter is that of the keys added for its range and of no others, empty if there are none; so every key matches the filter for its block |
| `FilterBlock.FilterBlockReader.KeyMayMatch` | Nerde Yesem/Pods/leveldb-library/table/filter_block.cc:77-104 | On any contents a key is refused only by a filter that is where the offsets say, or by an empty one; on contents that a builder finished, what is answered for a block offset is what its filter answers |
| `TableFormat.FooterRoundTrip` | Nerde Yesem/Pods/leveldb-library/table/format.cc:31-62 | A footer takes 48 bytes and reads back |
| `TableFormat.FooterIff` | Nerde Yesem/Pods/leveldb-library/table/format.cc:42-62 | On any 48 bytes a footer is read if and only if the last eight are the magic number and two handles stand at the front |
| `TableFormat.WriteRawBlock` | Nerde Yesem/Pods/leveldb-library/table/table_builder.cc:177-194 | The block is stored at its handle with type and checksum behind it |
| `TableFormat.ReadBlock` | Nerde Yesem/Pods/leveldb-library/table/format.cc:64-139 | On any file: a block stored at the handle is read back; with checksums checked, nothing else is; otherwise the error is that for a block that is cut off, fails its checksum, is compressed or has no known type |
| `TableFormat.StoredIff` | Nerde Yesem/Pods/leveldb-library/table/format.cc:86-100 | Bytes at a handle are a stored block exactly when its type and its checksum are right, and then of one contents only |
| `SortedTable.TableBuilder.Add` | Nerde Yesem/Pods/leveldb-library/table/table_builder.cc:94-123 | The pairs so far and one more, in blocks with separators, an index and filters under construction; the data block is ended exactly when it reaches the block size |
| `SortedTable.TableBuilder.Finish` | Nerde Yesem/Pods/leveldb-library/table/table_builder.cc:198-253 | The file is a table whose blocks hold exactly the pairs added, every block but perhaps the last large enough and none longer than it had to be, keys without what they share with the one before except at restarts |
| `TableReader.Table.ReadIndex` | Nerde Yesem/Pods/leveldb-library/table/table.cc:41-66 | On any file: below 48 bytes, without the magic number in its last eight, with a bad handle, or with an index block that cannot be read, each gives its error; otherwise the footer and the index block |
| `TableReader.Table.Open` | Nerde Yesem/Pods/leveldb-library/table/table.cc:38-134 | Every file the builder finished opens, with its filter exactly if it has one and one is asked for |
| `TableReader.Table.InternalGet` | Nerde Yesem/Pods/leveldb-library/table/table.cc:216-244 | What is reported is the first entry not before the key; it may be left out only when it is for another user key |
| `TableIndex.AnswerIsNewest` | Nerde Yesem/Pods/leveldb-library/db/version_set.cc:263-276 | Such an answer for the user key is the newest visible entry, and any other answer means there is none |
| `TableReader.BuildAndGet` | Nerde Yesem/Pods/leveldb-library/table/table.cc:216-244 | Any sorted pairs, added, finished, opened and looked up: the answer is the newest visible pair, filter or not |
| `TwoLevel.TwoLevelIterator.Seek` | Nerde Yesem/Pods/leveldb-library/table/two_level_iterator.cc:82-87 | The position among all entries of the table is the first not before the target |
| `TwoLevel.TwoLevelIterator.Next` | Nerde Yesem/Pods/leveldb-library/table/two_level_iterator.cc:103-126 | One on, across blocks |
| `TwoLevel.TwoLevelIterator.Prev` | Nerde Yesem/Pods/leveldb-library/table/two_level_iterator.cc:109-139 | One back, across blocks |
| `Coding.Varint32RoundTrip` | Nerde Yesem/Pods/leveldb-library/util/coding.cc:47-140 | Every 32-bit number reads back from its varint whatever follows |
| `Coding.Varint64RoundTrip` | Nerde Yesem/Pods/leveldb-library/util/coding.cc:81-169 | Every 64-bit number reads back from its varint whatever follows |
| `Coding.GetVarint` | Nerde Yesem/Pods/leveldb-library/util/coding.cc:112-157 | The shifting loop reads what the recursive definition reads, cut to the word |
| `Coding.ReadsDigits` | Nerde Yesem/Pods/leveldb-library/util/coding.cc:112-157 | On any bytes: the number read has as digits to the base 128 the low bits of the bytes up to the first below 128, and the rest is what follows |
| `Coding.VarintIff` | Nerde Yesem/Pods/leveldb-library/util/coding.cc:112-157 | There is a number to read if and only if one of the first five or ten bytes is below 128 |
| `Coding.PrefixedRoundTrip` | Nerde Yesem/Pods/leveldb-library/util/coding.cc:98-190 | Every string with its length in front reads back whatever follows |
| `Coding.PrefixedIff` | Nerde Yesem/Pods/leveldb-library/util/coding.cc:171-190 | A string is read if and only if it stands there whole after its length |
| `HandleTable.HandleTable.Insert` | Nerde Yesem/Pods/leveldb-library/util/cache.cc:78-92 | The map from names to handles with one entry set, and the handle that made way |
| `HandleTable.HandleTable.Remove` | Nerde Yesem/Pods/leveldb-library/util/cache.cc:94-102 | The map without the name, and the handle it had |
| `HandleTable.HandleTable.Resize` | Nerde Yesem/Pods/leveldb-library/util/cache.cc:122-146 | Moving every chain keeps the map and leaves a bucket for every handle |
| `LruCache.LRUCache.Insert` | Nerde Yesem/Pods/leveldb-library/util/cache.cc:266-303 | The abstract cache with the new handle, the one it replaces erased and the oldest idle ones evicted until the charge fits or none is idle |
| `LruCache.InsertedHolds` | Nerde Yesem/Pods/leveldb-library/util/cache.cc:266-303 | The new handle is its client's, and found under its name exactly if the capacity is not zero; other handles with clients stay as they are |
| `LruCache.LRUCache.Release` | Nerde Yesem/Pods/leveldb-library/util/cache.cc:261-264 | One reference less; the handle moves to the idle list, is deleted or stays |
| `LruCache.LRUCache.Erase` | Nerde Yesem/Pods/leveldb-library/util/cache.cc:318-321 | The name is forgotten; its handle lives on while clients refer to it |
| `LruCache.TrimsOldest` | Nerde Yesem/Pods/leveldb-library/util/cache.cc:294-300 | Eviction deletes a front part of the idle list, oldest first |
| `LruCache.TrimsNoMore` | Nerde Yesem/Pods/leveldb-library/util/cache.cc:294-300 | and no more of it than it must |
| `LruCache.TrimKeeps` | Nerde Yesem/Pods/leveldb-library/util/cache.cc:294-300 | A handle that a client refers to is left alone |
| `LruCache.LRUCache.Prune` | Nerde Yesem/Pods/leveldb-library/util/cache.cc:323-333 | Every idle handle goes and no other |
| `PbDecoder.EncodeThenDecode` | Nerde Yesem/Pods/nanopb/pb_encode.c:528-550 | Encoding succeeds if and only if the message fits its fields and the buffer; then decoding gives the message back, all bytes read, if and only if every string leaves room for a zero |
| `PbRoundTrip.MessageRoundTrip` | Nerde Yesem/Pods/nanopb/pb_decode.c:925-1087 | The same for the functions, over nested messages, oneofs, optional fields, packed and plain arrays |
| `PbRoundTrip.TextRoundTrip` | Nerde Yesem/Pods/nanopb/pb_decode.c:1468-1501 | A string reads back if it is shorter than its storage and is refused if it fills it |
| `PbRoundTrip.NumberRoundTrip` | Nerde Yesem/Pods/nanopb/pb_decode.c:1318-1429 | Every number of every packable type and width reads back whatever follows |
| `PbEncode.Encode` | Nerde Yesem/Pods/nanopb/pb_encode.c:528-550 | The stream has all fields in order behind it exactly when the values fit and there is room |
| `PbEncode.GetEncodedSize` | Nerde Yesem/Pods/nanopb/pb_encode.c:567-576 | The size that encoding takes |
| `PbEncode.EncodeSubmessage` | Nerde Yesem/Pods/nanopb/pb_encode.c:717-765 | Length and contents from two passes that agree |
| `PbDecoder.DecodeMessage` | Nerde Yesem/Pods/nanopb/pb_decode.c:1075-1087 | On any bytes the loop over tags decodes what the recursive definition decodes, or fails when it fails; what that definition accepts and refuses is in `PbSafety` and `PbRefusals` |
| `PbSafety.DecodedIsSafe` | Nerde Yesem/Pods/nanopb/pb_decode.c:925-1087 | Whatever the bytes, what is decoded fits the storage of its fields: numbers their width, strings and arrays their room, at most one member of a oneof |
| `PbSafety.DecodedReencodes` | Nerde Yesem/Pods/nanopb/pb_decode.c:925-1087 | It can be encoded again, and that decodes to the same message |
| `PbSafety.AcceptedIff` | Nerde Yesem/Pods/nanopb/pb_decode.c:1031-1067 | On any bytes: they are accepted exactly if they can be walked through and every tracked required field is met on the way |
| `PbSafety.MissingFieldRefused` | Nerde Yesem/Pods/nanopb/pb_decode.c:1031-1067 | Bytes in which a required field does not occur are refused, whatever else they hold |
| `PbSafety.UnknownFieldSkipped` | Nerde Yesem/Pods/nanopb/pb_decode.c:975-989 | An unknown field of any wire type, wherever a field may stand, changes nothing |
| `PbSafety.UnknownFieldBetween` | Nerde Yesem/Pods/nanopb/pb_decode.c:975-989 | So an encoded message with one between its fields decodes as without it |
| `PbSafety.UnknownWireTypeRefused` | Nerde Yesem/Pods/nanopb/pb_decode.c:321-331 | A wire type that is none of the four is refused |
| `PbRefusals.OtherMessageSkipped` | Nerde Yesem/Pods/nanopb/pb_decode.c:975-989 | The encoding of any message of a table with other tags is skipped whole |
| `PbRefusals.UnsignedReads` | Nerde Yesem/Pods/nanopb/pb_decode.c:1318-1388 | A number without a sign is taken exactly if its storage can hold it |
| `PbRefusals.SignedReads` | Nerde Yesem/Pods/nanopb/pb_decode.c:1329-1412 | So is one with a sign, in either encoding |
| `PbRefusals.BytesRead` | Nerde Yesem/Pods/nanopb/pb_decode.c:1431-1549 | A string is taken exactly if its storage can hold it, a C string with its zero; an empty one fills fixed storage with zeros |
| `PbRefusals.TooManyPacked` | Nerde Yesem/Pods/nanopb/pb_decode.c:423-451 | A packed array of more values than there is room for is refused |
| `PbRefusals.FullArray` | Nerde Yesem/Pods/nanopb/pb_decode.c:420-464 | A full array takes nothing more, packed or not, but an empty packed field |
| `PbRefusals.SubmessageAgain` | Nerde Yesem/Pods/nanopb/pb_decode.c:466-476 | A submessage that occurs again is decoded into what is there, in a oneof it starts anew |
| `PbRefusals.ZeroTagEnds` | Nerde Yesem/Pods/nanopb/pb_decode.c:298-315 | A zero byte behind the fields ends the message, and what follows it is left unread |
| `PbDecoder.InStream.Skip` | Nerde Yesem/Pods/nanopb/pb_decode.c:321-331 | An unknown field of each wire type is passed over, or refused |
| `PbMessage.ZeroIsDefault` | Nerde Yesem/Pods/nanopb/pb_encode.c:240-337 | A value left out of the encoding is the one a message starts with |
| `Engine.MemTableGet` | Nerde Yesem/Pods/leveldb-library/db/memtable.cc:100-134 | The newest visible entry of the memtable, or none if and only if there is none |
| `Engine.InsertInto` | Nerde Yesem/Pods/leveldb-library/db/write_batch.cc:118-137 | The memtable stays sorted and gains exactly the batch, numbered in order |
| `Engine.DbImpl.SwitchMemTable` | Nerde Yesem/Pods/leveldb-library/db/db_impl.cc:1346-1365 | A switch step of the state machine, after a new file number for the log |
| `Engine.DbImpl.MoveDown` | Nerde Yesem/Pods/leveldb-library/db/db_impl.cc:718-728 | A trivial-move step, by way of a version edit |
| `Engine.DbImpl.ManualCompaction` | Nerde Yesem/Pods/leveldb-library/db/db_impl.cc:698-711 | A legal start step for the front part of the files of the range up to the byte limit, closed and grown, and the pointer at their largest key; nothing, and no change, exactly when no file meets the range |
| `Engine.DbImpl.GetSnapshot` | Nerde Yesem/Pods/leveldb-library/db/db_impl.cc:1166-1169 | A snapshot step at the last sequence number |
| `Engine.DbImpl.ReleaseSnapshot` | Nerde Yesem/Pods/leveldb-library/db/db_impl.cc:1171-1174 | A release step; the other snapshots stay in order |
| `Picking.GrowInputs` | Nerde Yesem/Pods/leveldb-library/db/version_set.cc:1417-1447 | Growth happens exactly when it is due, and leaves the lower set as it is |
| `Selection.GetRange` | Nerde Yesem/Pods/leveldb-library/db/version_set.cc:1205-1224 | The least smallest and the greatest largest key of the files |
| `Selection.FindSmallestBoundaryFile` | Nerde Yesem/Pods/leveldb-library/db/version_set.cc:1344-1362 | The first of the files that continue the user key of a largest key, by smallest key; none only if there is none |
| `DbIter.LandingUnique` | Nerde Yesem/Pods/leveldb-library/db/db_iter.cc:141-299 | Each of these landing places is unique |
| `Merging.MergingIterator.SeekToFirst` | Nerde Yesem/Pods/leveldb-library/table/merger.cc:31-37 | The position is that of the first merged entry |
| `Merging.MergingIterator.SeekToLast` | Nerde Yesem/Pods/leveldb-library/table/merger.cc:39-45 | The position is that of the last merged entry |
| `Crc32c.TableStep` | Nerde Yesem/Pods/leveldb-library/util/crc32c.cc:287-292 | One byte of the division is a lookup by the low byte and a shift |
| `Scheduling.FlushedSoon` | Nerde Yesem/Pods/leveldb-library/db/db_impl.cc:535-566 | In every run without an error or a shutdown, a memtable that waits is written out within five steps of the background thread, which has a step it can take until then |
| `Scheduling.OrphanedAfterError` | Nerde Yesem/Pods/leveldb-library/db/db_impl.cc:609-621 | In every run, a compaction without its request comes only after an error or a shutdown |
| `Scheduling.Scheduler.MaybeScheduleCompaction` | Nerde Yesem/Pods/leveldb-library/db/db_impl.cc:648-663 | On the fields, the scheduling decision of the state machine |
| `Scheduling.Scheduler.EndCall` | Nerde Yesem/Pods/leveldb-library/db/db_impl.cc:669-686 | The end step; the invariant holds again |
| `GroupCommit.WriteQueue.Lead` | Nerde Yesem/Pods/leveldb-library/db/db_impl.cc:1201-1206 | The front writer is refused, passes or leads the group that the queue gives, and the invariant holds |
| `GroupCommit.WriteQueue.Leave` | Nerde Yesem/Pods/leveldb-library/db/db_impl.cc:1227-1255 | The whole group leaves with one outcome, and the invariant holds |
| `SkipList.List.FindLessThan` | Nerde Yesem/Pods/leveldb-library/db/skiplist.h:285-302 | The last node before the target |
| `SkipList.List.FindLast` | Nerde Yesem/Pods/leveldb-library/db/skiplist.h:305-322 | The last node |
| `SkipList.Iterator.Seek` | Nerde Yesem/Pods/leveldb-library/db/skiplist.h:224-226 | The position of the first key not before the target |
| `BlockIter.Iter.Next` | Nerde Yesem/Pods/leveldb-library/table/block.cc:137-140 | One item on |
| `BlockIter.Iter.SeekToLast` | Nerde Yesem/Pods/leveldb-library/table/block.cc:208-213 | The last item, by way of the last restart point |
| `Blocks.BlockBuilder.Add` | Nerde Yesem/Pods/leveldb-library/table/block_builder.cc:72-106 | The items so far and one more with this key and value, a restart exactly when the interval is full, and otherwise all that the key shares with the one before left out |
| `Blocks.BlockBuilder.Finish` | Nerde Yesem/Pods/leveldb-library/table/block_builder.cc:62-70 | The bytes are a block of the items added |
| `Comparators.FindShortSuccessor` | Nerde Yesem/Pods/leveldb-library/util/comparator.cc:52-64 | Not before the key and no longer: cut behind the first byte that is not 255, that byte raised; the key itself exactly when all its bytes are 255 |
| `Comparators.SeparatorMissesNothing` | Nerde Yesem/Pods/leveldb-library/table/table_builder.cc:102-108 | A seek that lands between a block and its separator misses no entry of the next block for its user key |
| `Bloom.BloomFilterPolicy.KeyMayMatch` | Nerde Yesem/Pods/leveldb-library/util/bloom.cc:56-80 | True if and only if the filter has two bytes or more and every probed bit is set or it asks for more than 30 probes |
| `TableReader.Table.MayHold` | Nerde Yesem/Pods/leveldb-library/table/table.cc:224-229 | A filter that does not match means the block has no entry for the user key |
| `TableReader.BuildTable` | Nerde Yesem/Pods/leveldb-library/db/builder.cc:17-77 | The file is a table of exactly the pairs, in blocks cut by the block size, with a filter exactly if there is a policy |
| `HandleTable.HandleTable.Lookup` | Nerde Yesem/Pods/leveldb-library/util/cache.cc:74-76 | What the map has under the name |
| `LruCache.LRUCache.Lookup` | Nerde Yesem/Pods/leveldb-library/util/cache.cc:252-259 | What the cache has under the name, with one reference more and off the idle list |
| `LruCache.OldestGoes` | Nerde Yesem/Pods/leveldb-library/util/cache.cc:294-300 | Forgetting the oldest idle handle deletes it, gives back its charge and changes nothing else |
| `PbEncode.EncodeRepeated` | Nerde Yesem/Pods/nanopb/pb_encode.c:147-236 | Every value with its tag is behind it exactly when they fit and there is room |
| `PbDecoder.DecodePackedArray` | Nerde Yesem/Pods/nanopb/pb_decode.c:423-451 | The values of a packed field until its bytes or the room run out, and failure when they do not come out even |
| `PbRoundTrip.PackedFieldRoundTrip` | Nerde Yesem/Pods/nanopb/pb_decode.c:406-480 | A packed array reads back into its slot, whatever follows |
| `PbRoundTrip.TaggedFieldRoundTrip` | Nerde Yesem/Pods/nanopb/pb_decode.c:406-480 | An array that is not packed reads back into its slot if and only if its strings leave room for a zero |

## Findings

Properties that the code does not have, each with an input and the exact condition.

* **A deleted value can come back** (`Resurrection.DeletedValueReturns`). The upper inputs of a
  compaction are closed under files that continue their last user key (db/version_set.cc:1407),
  the lower inputs are not (db/version_set.cc:1410). Input: put 4 and 5, flush, take a snapshot,
  delete 5, compact, so that the output is cut between the marker for 5 and its value;
  release the snapshot, put 4, compact the range of 4. The marker is dropped at its base
  level, and a read of 5 finds the old value. Condition: `Runs.FinishPreservesIff` with
  `Store.Hazard`, which a caller can check on the first file behind the lower inputs.
  Closing the lower inputs as well removes it (`Runs.ClosedLowerInputsAreSafe`).
* **A put can disappear from sight** (`GapFlush.PutOutOfSight`). While a compaction runs, a
  memtable is flushed to a level picked from the current version (db/db_impl.cc:908,
  db/version_set.cc:491), which does not show what the compaction is about to write. Input:
  a manual compaction of the keys 1 and 9, held by files with a gap between them, and a put
  of 5 that is flushed into the gap meanwhile. The output reaches from 1 to 9 across the
  file of 5, and the binary search of a lookup passes that file by. Condition:
  `StoreSteps.FinishedValidIff` with `Store.Straddles`, which can be checked when the outputs
  are written, before they are installed: no output meets a file of its level that is not an
  input. None does when each such file lies on one side of all inputs
  (`Versions.OneSideIsApart`), as with compactions chosen automatically
  (`StoreSteps.ConnectedNeverStraddles`).
* **A synced write can survive a crash that loses an earlier write**
  (`LostWrite.EarlierWriteIsLost`). A write with sync is to have the crash semantics of a
  write followed by an fsync (include/leveldb/options.h:178), which would keep earlier writes
  too; but when a memtable is full its log file is closed without a sync
  (db/db_impl.cc:1356). Input: an acknowledged write without sync, a full memtable, a write
  with sync, and a crash before the older memtable is flushed. Condition:
  `Crashes.PrefixSurvivesIff` with `Crashes.Exposed`. The synced write itself is always
  there (`Crashes.SyncedWritesSurvive`).
* **A string that fills its storage is written but not read** (pb_encode.c:891,
  pb_decode.c:1494). Condition: `PbDecoder.EncodeThenDecode` gives the message back if and
  only if no string anywhere in it fills its storage.
* **A manual compaction whose request is cancelled midway reads through a null pointer**
  (db/db_impl.cc:755). Input: a manual compaction is running, a write fails to sync, and the
  thread that asked wakes up and gives up (`Scheduling.OrphanedReachable`). Condition:
  `Scheduling.OrphanedNextIff`, on the state before; so it takes an error or a shutdown
  (`Scheduling.OrphanedAfterError`).
* **Decoding into a used edit keeps its compaction pointers**, since Clear does not touch them
  (db/version_edit.cc:26). Condition: `VersionEdits.EditRoundTrip`, for any pointers held before.
  Recovery decodes each record into a new edit.

## Left out

Stated with conditions of the model's own:

- Manifest.VersionSet.LogAndApply: asks that an edit adds numbers new to their level and names no other comparator; in the engine numbers come from a counter and files only move down.
- Manifest.VersionSet.Recover: asks the same of the edits it reads; a manifest with whole records that LogAndApply cannot have written is covered up to its first error only if it meets that.
- Log.CrashPrefix: covers files cut short; damage elsewhere is covered by what the reader hands on and refuses (`LogIntegrity`), not by what was written.
- Crc32c.Extend: lookup tables are what they tabulate; the hardware path is not modelled.
- SortedTable.TableBuilder.Add: asks for a file below 2^63 bytes and a block with room in 32 bits.
- TableReader.BuildTable: asks for pairs and filters below 32 bits, as the blocks' own offsets do; so does BuildAndGet.
- TableReader.BuildAndGet: blocks and filters are addressed in 32 bits, so the pairs have a bound on their size.
- TableReader.Table.Open: a file with a readable index block that no builder finished is covered by `ReadIndex`, not beyond it.
- BlockIter.Iter.Seek: iterators read blocks that a builder wrote, as do the other moves; contents that are no block, under a checksum that holds, are covered by `Blocks.EntryIff` only.
- TableFormat.ReadBlock: a size within five of 2^64, whose sum with the trailer wraps, is a size past the end of the file here.
- Log.Reader.ReadRecord: reads from the start of the file; an offset to begin at is not modelled.
- Builder.VersionBuilder.Apply: asks for numbers new to the level, without which files of one number and different keys are kept side by side; so does ReplayIsChain.
- SortedTable.TableBuilder.Finish: filter offsets wrap at 32 bits; the file is a table when the filters stay below that.
- Bloom.BloomFilterPolicy.CreateFilter: the hash is a parameter, and 0.69 is a real number.
- SkipList.List.Insert: readers between two stores of a writer; readers that hold an older view of a link, and memory ordering, are not modelled.
- GroupCommit.CommittedInLog: a group whose log write fails leaves nothing behind in the log; a torn tail is the business of `Log`.
- Scheduling.WokenSoon: says nothing of waiters once a shutdown has begun.
- Crashes.Reopens: a crash cuts log files short at any byte behind what was synced; other damage, and a directory entry that is lost, are not part of the crash. At most the two log files of one incarnation are there.
- PbDecoder.EncodeThenDecode: static fields only; the bits of fields seen are a set.

Not modelled:

- User keys in the store, compactions and iterators are ranks under the user's comparator; as bytes they are modelled in tables and in the manifest.
- In the store a table is its entries, and its bounds are its first and last key; the manifest has them as bytes.
- Sequence numbers and file numbers stay below the limits of their words.
- Output files get their numbers when a compaction finishes, not one by one during it.
- Seek sampling (RecordReadSample) and the charge of seeks; the level and file they lead to are inputs.
- repair.cc; the CURRENT file, file locks and obsolete files; reuse of an old manifest or of the last log file; failing table writes during recovery.
- I/O errors other than those of group commit and scheduling; failing writes of the manifest.
- Snappy compression: a compressed block reads as an error.
- Merging of equal keys from two sources, which the store never produces; source iterators are sorted lists.
- Sharding of the cache, the hash mask (a remainder here), and the use of the cache by tables.
- nanopb: pointer and callback fields, extensions, arrays of fixed count, delimited and null-terminated framing, varints of more than five bytes for 32-bit numbers, a zero tag in an empty message, and streams near the limit of size_t.
