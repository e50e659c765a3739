# Models and proofs for apue.3e

A Dafny model of the parts of the Advanced Programming in the UNIX Environment sources (third
edition) that keep an invariant worth proving, and the proofs. `dafny verify dfyconfig.toml`
checks everything.

**The hash database (`db/db.c`)** is modelled three times, each layer on the next: bytes
(`db_format`), records in an index file and extents in a data file (`db_image`), chains and a free list
threaded through the records (`db_lists`), and the map from keys to data that they stand for
(`db_spec`). `db_steps` and `db_scan` say what each group of writes does on all layers at once.
`db_store` is the C code as a class: one handle, two files as strings, the fields of the DB structure, and
the functions of the source as methods that read and overwrite bytes. Its results are `Call`, `Run` and
`Scan`: any sequence of calls answers like a map. `db_failures` has the inputs at which it does not.
`db_processes` has any number of processes at the same files, each step being one lock, read or
write of one of them; `db_invariant`, `db_moves`, `db_frames`, `db_concurrent` and
`db_atomic` prove that every step keeps the invariant and is one step of a call on the abstract map;
`db_theorems` states what follows for runs, `db_bytes` ties them to the bytes of the index file, and
`db_scanning` says what a scan sees of them, `db_missed_key` is a run in which it misses a key, `db_records`
and `db_scan_run` follow a whole scan, `db_progress` and `db_outcomes` show that every call comes to its end, and which one. `db_space`
and `db_layout` are about space and bytes of the files. A deletion takes effect when the data is blanked: from then
until its last pointer write the image is looked at with that write already done (`View`).

**The semaphore of `lib/semaph.c`** (`semaph`, `semaph_theorems`, `semaph_failures`, `semaph_calls`) is N processes over a model of semop,
semctl, undo adjustments and exit, a step being one system call.

**The objects of `threads/mutex3.c` and `threads/mutex2.c`**: `foo_table` is what they mean, `foo_mutex3` the
one-lock code as a class, `foo_mutex2` the two-lock code as a step machine of any number of threads;
`foo_refine`, `foo_moves`, `foo_theorems` and `foo_progress` prove that the second does what the first does.

**rot13** (`rot13`, `rot13_async`, `rot13_program`): `advio/rot13c2.c` with eight buffers against a kernel that
completes requests at any time in any order, and `advio/rot13a.c`.

**Sequential code**: `merge` (`threads/barrier.c`), `memstream` and `memstream_theorems`
(`exercises/fmemopen.c`), `job_queue` (`threads/rwlock.c`), `print_spool` (`printer/printd.c`), `pass_fd`
(`lib/senderr.c`, `lib/sendfd.c`, `lib/recvfd.c`). `basics` has the two types several of them share.

## Where the code does not do what it is for

Each failure has its exact condition and an input.

- A replace in `db_store` whose append fails has already deleted the old record: the key is lost. Exactly when:
  `DbStore.Db.Store` (and `DbOutcomes.DumpsExactlyWhen` with `DbAtomic.GiveUpGood` among several processes). Input: `DbFailures.ReplaceLosesKey`.
- `db_store` accepts a key with a separator, and then no call on its chain gets through. Exactly when:
  `DbFormat.RoundTripExactlyWhen`, `DbStore.Db.Store`. Inputs: `DbFailures.SeparatorStopsChain`, `SeparatorStopsWrites`, `SeparatorStopsAll`.
- `_db_writeidx` prints an entry into idxbuf before it checks the length, and one of more than 1025 bytes runs over the
  buffer. Exactly when: `DbStore.Db.WriteIdx` and, for any call, `Overruns` in `DbStore.Db.Call`. Input:
  `DbFailures.EntryOverrunsBuffer`.
- `db_nextrec` skips records with a key of blanks, deleted or not. Exactly when: `DbScan.ScanComplete`. Input:
  `DbFailures.BlankKeyIsHidden`.
- Beside other processes `db_nextrec` misses a key that is being replaced. Exactly when: `DbScanning.ScanMisses`, and
  `MissesExactlyWhen` with records that are not live counted. Runs: `DbMissedKey.ScanMissesKey`, `WholeScanMissesKey`.
- `sem_open` takes no lock, so `sem_close` can remove a semaphore somebody has just opened. `SemaphTheorems.RemovesOnlyUnused`
  says that this is the only way. Run: `OpenCanLoseItsSemaphore`.
- With BIGCOUNT users `sem_create` takes the set for a fresh one and sets it again. Exactly when:
  `SemaphTheorems.InitialisesExactlyWhen`. Run: `SemaphFailures.FullCounterIsReinitialised`.
- In `rot13a.c` a failed read ends the loop like the end of the file and the program still exits with 0. Exactly when:
  `Rot13.Synchronous`. Input: `FailedReadPasses`.
- In `rot13c2.c` a short read of the last block is taken for the end of the file. Exactly when:
  `Rot13Program.Asynchronous`. Input: `ShortReadPasses`.
- `merge` reads on where it took from last when only LONG_MAX is left. Exactly when that is wrong: `Merge.MergeRanges`.
  Input: `MaximumInFront`. The only caller sorts results of random(), which are smaller.
- A memory stream keeps its offsets in an int: writes and seeks beyond it go astray. Exactly when: `MemStreamTheorems.WriteIsIdeal`,
  `SeekIsIdeal` and, for runs, `PlusModesAreIdeal`. Inputs: `WriteWraps`, `SeekWraps`.
- A write-only memory stream can overwrite its own last byte. Exactly when: `MemStreamTheorems.WriteOnlyKeeps`. Input: `LastByteIsLost`.
- `recv_fd` gives up when the two final bytes come in different pieces. Exactly when: `PassFd.ErrorRoundTrip`. Input:
  `SplitGivesUp`. The status is one byte. Exactly when that cuts an error: `ErrorFits`. Input: `StatusIsCut`.

## Model

| member | source | states |
|---|---|---|
| DbFormat.AtolOfField | db/db.c:334 | atol of a number printed into a field of any width is the number |
| DbFormat.PtrTextFits | db/db.c:618-631 | a pointer fills its 7-character field exactly when it passes the range check of `_db_writeptr` |
| DbFormat.PtrRoundTrip | db/db.c:323-334 | `_db_readptr` recovers every pointer 0..9999999 that `_db_writeptr` wrote |
| DbFormat.LenTextFits | db/db.c:582-583 | an accepted record length fills its 4-character field and is read back |
| DbFormat.RecordRoundTrip | db/db.c:343-418 | `_db_readidx` recovers pointer, key, data offset and data length of every record that `_db_writeidx` accepts, wherever it stands in the file |
| DbFormat.RoundTripExactlyWhen | db/db.c:396-408 | a written record is read back exactly when its key has no separator, which the source never checks; otherwise every reader of it dumps |
| DbFormat.RecTextInjective | db/db.c:567-612 | two accepted records have the same bytes only when they are the same record |
| DbFormat.RecTextPtr | db/db.c:618-631 | rewriting the pointer field changes nothing else of a record |
| DbFormat.EntryLenOf | db/db.c:504-509 | a record rewritten with a key of the same length and the same data extent has its old length |
| DbLayout.HashIsSum | db/db.c:306-316 | the chain of a key is the sum of its characters, as signed bytes, times their places, in 64 bits, modulo the number of chains |
| DbLayout.HashOfTwo | db/db.c:306-316 | in a key of two characters the second counts twice |
| DbLayout.RecordOfOne | db/db.c:567-612 | the bytes of one record, as they stand in the file |
| DbImage.RewriteHolds | db/db.c:504-509 | a record rewritten at its old length leaves the tiling of the file and all other records alone |
| DbImage.SetPtrHolds | db/db.c:618-631 | a pointer written to any pointer field changes just that pointer: free pointer, chain head or record |
| DbImage.AppendHolds | db/db.c:585-606 | a record written at the end of the index file extends the tiling by that record |
| DbImage.PtrInFile | db/db.c:323-334 | any pointer field of the file reads as the pointer it holds |
| DbImage.RecordInBytes | db/db.c:343-418 | the bytes at the offset of a record read as that record, in a walk and in a scan |
| DbImage.OverwriteData | db/db.c:531-560 | data written over the extent of a record reaches that record only |
| DbImage.AppendData | db/db.c:537-555 | data written at the end of the data file reaches no record |
| DbLists.UnlinkKeeps | db/db.c:516-522 | the pointer write of a deletion takes one record off its chain and keeps the partition of the records |
| DbLists.RewriteHeldKeeps | db/db.c:504-509 | rewriting a record that is on no list keeps the partition |
| DbLists.PushFreeKeeps | db/db.c:509-514 | a blank record put in front of the free list keeps the partition |
| DbLists.TakeFreeKeeps | db/db.c:781-789 | a record taken off any position of the free list keeps the partition |
| DbLists.AddHeldKeeps | db/db.c:598-606 | an appended record is on no list and keeps the partition |
| DbLists.LinkKeeps | db/db.c:683-687 | a record put in front of the chain of its hash keeps the partition |
| DbLists.ThreadedWithout | db/db.c:516-522 | writing the successor of a record into the field that leads to it takes exactly it off an acyclic list |
| DbLists.Partition | db/db.c:289-300 | each record is on exactly the list of its kind, the chain of its hash, the free list or none, and no list holds a record twice |
| DbLists.KeyOnChain | db/db.c:289-300 | a key of the database is the key of a record on the chain of its hash |
| DbLists.KeyAtOnePosition | db/db.c:289-300 | no key stands at two positions of the chains |
| DbSteps.WriteLiveData | db/db.c:732-736 | data of the same length written over a live record changes the map at its key only |
| DbSteps.WriteHeldData | db/db.c:531-560 | data written for a record on no list does not show in the map |
| DbSteps.DeletedBytes | db/db.c:504-522 | the writes of a deletion to the index file, as bytes, are the record made blank, the free pointer and the pointer around the record |
| DbSteps.DeleteDone | db/db.c:463-525 | the record moves from its chain to the free list, its size and place stay, and exactly its key leaves the map |
| DbSteps.DeleteWrites | db/db.c:463-525 | all writes of `_db_dodelete` together: both files still hold a sound database, without the key |
| DbSteps.UnlinkBlank | db/db.c:486-489 | from the blanking of its data on, a record counts as off its chain and its key as gone |
| DbSteps.PushFreeDone | db/db.c:509-514 | a blank record with the old free pointer goes in front of the free list, and the map stays |
| DbSteps.TakeFreeDone | db/db.c:781-789 | taking a record off the free list leaves the map and all chains |
| DbSteps.LinkDone | db/db.c:690-697 | a record with key, data and the old head of its chain goes live: the map gains exactly the key with the data |
| DbSteps.AddHeldRec | db/db.c:680-681 | a record appended with its data shows nowhere until it is linked |
| DbSteps.AppendWrites | db/db.c:680-681 | the two appends as bytes of both files |
| DbSteps.AppendDataOnly | db/db.c:680-681 | data of any kind appended without a record for it changes nothing |
| DbSteps.LinkWrites | db/db.c:683-687 | the write of the chain head as bytes |
| DbSteps.AppendAll | db/db.c:676-688 | data, record and chain head as bytes: the record stands at the end of the file and its key is in the map with the data |
| DbSteps.ReuseAll | db/db.c:690-697 | data, record and chain head as bytes: the free record goes live with its new key and data |
| DbSteps.SeparatorJams | db/db.c:676-688 | a record whose key has a separator, put in front of a chain as any other, stops every later walk along that chain |
| DbSteps.NotJammed | db/db.c:289-300 | the first record of every chain of a sound database can be read |
| DbSteps.SoundReads | db/db.c:289-300 | in a sound database every walk along a chain reads its records one after the other, and they are all keys of that hash |
| DbSteps.OtherChainReads | db/db.c:683-697 | a record written where no chain leads, and the head of one chain, leave every other chain readable, record for record |
| DbSteps.ReuseWrites | db/db.c:695-696 | the writes that give a free record its new key and data, as bytes |
| DbSteps.TakeFreeWrites | db/db.c:781-790 | the one write of `_db_findfree` as bytes: the record leaves the free list, all else stays |
| DbScan.ScanComplete | db/db.c:812-875 | the scan of a database shows every key that is not all blanks exactly once, with its data, and nothing else |
| DbScan.ScanBytes | db/db.c:849-856 | a read at the position of a scan gives the next record of the file, or the end of the file |
| DbScan.ScanDistinct | db/db.c:849-864 | no key shows twice in a scan |
| DbStore.Db.HashKey | db/db.c:306-316 | the loop computes the hash of the chains: signed characters times their positions, in 64-bit unsigned arithmetic |
| DbStore.Db.ReadPtr | db/db.c:323-334 | the number in the field at the offset, or a dump when the file ends before it |
| DbStore.Db.ReadIdx | db/db.c:343-418 | on any bytes at all: the record parsed at the offset, end of file, or a dump |
| DbStore.Db.SplitIdx | db/db.c:392-417 | on any bytes: key, offset and length between exactly two separators, or a dump |
| DbStore.Db.ReadDat | db/db.c:424-435 | the data of the current extent without its newline, or a dump exactly when the extent ends behind the file or not in a newline |
| DbStore.Db.WriteDat | db/db.c:531-560 | data and newline at an offset or at the end, and nothing else of the file |
| DbStore.Db.WriteIdx | db/db.c:567-612 | the record at an offset or at the end, or a dump exactly when pointer or length are out of range; the entry is written into idxbuf before its length is checked, and overruns it exactly when it has more than 1025 bytes |
| DbStore.Db.WritePtr | db/db.c:618-631 | the pointer in its field, or a dump exactly when it is out of range |
| DbStore.Db.FindAndLock | db/db.c:259-301 | found exactly when the key is in the map, in any database and, beside a jammed chain, on every other chain; in a database the handle then stands on its record and ptroff on the field leading to it; on a jammed chain every search dumps |
| DbStore.Db.Fetch | db/db.c:233-253 | the data of the key in the map, or nothing when it is absent, also on the other chains when one is jammed; a dump on a jammed chain; the files stay |
| DbStore.Db.BlankBuffers | db/db.c:473-478 | both buffers blank at their old lengths |
| DbStore.Db.DoDelete | db/db.c:463-525 | the map without the key of the current record; every record keeps its place and size |
| DbStore.Db.Delete | db/db.c:440-456 | 0 and the map without the key, its record in front of the free list, or -1 and no change when it is absent; neither file grows; a dump and no write on a jammed chain |
| DbStore.Db.FirstFit | db/db.c:767-776 | the first free record of exactly these lengths, with the field leading to it; 0 when there is none |
| DbStore.Db.FindFree | db/db.c:752-805 | takes the first free record of exactly these lengths off the free list, or -1 when there is none; the map stays |
| DbStore.Db.Unchain | db/db.c:781-790 | the record leaves the free list, all else stays |
| DbStore.Db.AppendRecord | db/db.c:676-688 | the map with the key set, or a jammed chain when the key has a separator; a dump exactly when record length or offset are out of range; idxbuf is overrun exactly when the entry has more than 1025 bytes; a jam leaves the keys of all other chains to be found |
| DbStore.Db.ReuseRecord | db/db.c:690-697 | the map with the key set, in a record of the same size, or a jammed chain when the key has a separator, which leaves the keys of all other chains to be found |
| DbStore.Db.StoreNew | db/db.c:661-699 | the map with the key set, reusing a free record when one fits, for any key; a key with a separator jams its chain instead, and only that |
| DbStore.Db.StoreOver | db/db.c:700-739 | the map with the key replaced; a failed append has already deleted the key; idxbuf is overrun exactly when an append is needed and the entry has more than 1025 bytes |
| DbStore.Db.Store | db/db.c:637-746 | for every key: by flag and presence of the key 1 or -1 and no change, or 0 and the key set; a dump exactly for data of a forbidden length or when new space is needed and not to be had; 0 and a jammed chain for a new key with a separator, with the keys of all other chains still found; a dump on a jammed chain; idxbuf overrun exactly when `Overruns` says; neither file grows when no append is needed |
| DbStore.Db.Rewind | db/db.c:812-827 | the descriptor stands before the first record |
| DbStore.Db.NextRec | db/db.c:835-875 | the next record in file order whose key is not all blanks, with its current data, or the end |
| DbStore.Db.Scan | db/db.c:812-875 | rewind and repeated nextrec return exactly the scan list of the database |
| DbStore.Db.Create | db/db.c:134-165 | a fresh index file of exactly the header and an empty data file are a sound database with the empty map and an empty free list, ready for a scan |
| DbStore.Db.Call | db/db.c:233-253 | any call answers like the map and leaves the map the call makes of it; it dumps exactly when `Dumps` says, and no record ever moves or changes its size; a call that `Jams` answers 0 and jams its chain, on which every call dumps, while the keys of all other chains are still found; idxbuf is overrun exactly when `Overruns` says |
| DbStore.Db.Run | db/db.c:637-746 | any sequence of calls answers like a map from keys to data, and leaves a database for the resulting map, up to a call that `Dumps` in the state the calls before it have reached, or one that `Jams` its chain and no other |
| DbStore.FetchedText | db/db.c:424-435 | what stands at the extent of a key, up to the first null, is its data in the map |
| DbStore.FreshHolds | db/db.c:147-160 | the header written by `db_open` holds no records and empty lists |
| DbStore.JamSpares | db/db.c:683-697 | the writes that jam a chain spare the keys of all others: a search finds each exactly if the map has it, with its data |
| DbSpace.SpaceIsUsedAgain | db/db.c:752-805 | a key deleted and another of its length stored with data of its length: neither file grows |
| DbSpace.ReplacesInPlace | db/db.c:732-739 | a key replaced with data of the same length is stored where it is, and neither file grows |
| DbFailures.ReplaceLosesKey | db/db.c:704-718 | a key of 1018 characters with one character of data, replaced with 500: the entry is too long by one, inside the buffer, the second call dumps and the key is gone |
| DbFailures.EntryOverrunsBuffer | db/db.c:577-581 | a key of 1018 characters stored with 999: the call dumps, and the entry of 1026 bytes has been written with its null into the 1026 bytes of idxbuf |
| DbFailures.SeparatorStopsChain | db/db.c:661-699 | in any database a new key with a separator is stored with answer 0; then every fetch of a key on its chain dumps, and every other fetch answers as before |
| DbFailures.SeparatorStopsWrites | db/db.c:440-456 | then every delete and every store of a key on its chain dumps |
| DbFailures.SeparatorStopsAll | db/db.c:661-699 | after the key ":" is stored with answer 0 in a new database of one chain, every fetch dumps |
| DbFailures.BlankKeyIsHidden | db/db.c:853-858 | the key " " is stored and fetched, and a scan of the database shows nothing |
| DbFrames.Frame | db/db.c:270-283 | what a process knows of its chain, its own record, the free list and the ends of the files survives every write of others that its locks shut out |
| DbMoves.MoveCut | db/db.c:486-489 | blanking the data of a record is one atomic deletion of its key from the meaning of the files |
| DbMoves.MovePush | db/db.c:511-514 | the write of the free pointer keeps the partition and the meaning, whatever pointer write is still pending |
| DbMoves.MoveSettle | db/db.c:516-522 | the pending chain pointer is written: the meaning stays |
| DbMoves.MoveTake | db/db.c:781-789 | taking a record off the free list keeps the meaning; the record is now its taker's |
| DbMoves.MoveLink | db/db.c:690-697 | the write of the chain head is one atomic store of the key |
| DbMoves.MoveOver | db/db.c:732-736 | the write of data of the same length is one atomic store of the key |
| DbMoves.MoveAdd | db/db.c:585-606 | a record appended to the index file keeps the meaning, and is its writer's |
| DbMoves.MoveAppend | db/db.c:537-555 | data appended keeps the meaning |
| DbConcurrent.TruthAtKey | db/db.c:273-283 | a process that holds the lock of its chain finds in the files what the abstract map says of its key |
| DbConcurrent.LockGood | db/db.c:273-283 | granting a lock keeps the invariant |
| DbConcurrent.LookOnGood | db/db.c:290-296 | a step along the chain stays on the list and passes only other keys |
| DbConcurrent.LookMissGood | db/db.c:298-300 | the end of the chain means that the key is absent at that instant |
| DbConcurrent.FetchingGood | db/db.c:239-244 | a fetch returns what the map holds for its key at the instant of the read |
| DbConcurrent.FreeLookGood | db/db.c:770-776 | a step along the free list stays on it |
| DbAtomic.CutGood | db/db.c:486-489 | the blanking write of a deletion keeps the invariant and is where the deletion takes effect |
| DbAtomic.OverGood | db/db.c:732-737 | the overwriting write of a replace keeps the invariant and is where it takes effect |
| DbAtomic.LinkGood | db/db.c:690-697 | the write of the chain head keeps the invariant and is where the store takes effect |
| DbAtomic.TakeGood | db/db.c:781-789 | the write that shortens the free list keeps the invariant |
| DbAtomic.DelPushGood | db/db.c:511-514 | the write of the free pointer keeps the invariant |
| DbAtomic.DelLinkGood | db/db.c:516-522 | the write around the deleted record keeps the invariant |
| DbAtomic.AppendGood | db/db.c:537-555 | appended data lies apart from all records and from what other processes have appended |
| DbAtomic.AddGood | db/db.c:585-606 | the appended record keeps the invariant and belongs to its process |
| DbAtomic.GiveUpGood | db/db.c:575-581 | a store that ends in a dump keeps the invariant; a replace has then taken effect as a deletion; when it does is `DbOutcomes.DumpsExactlyWhen` |
| DbAtomic.AdvanceGood | db/db.c:259-301 | every step inside a call keeps the invariant and is one step of the call on the abstract map |
| DbAtomic.StepGood | db/db.c:637-746 | every step of every process keeps the invariant, changes no other process, and is one step of a call on the abstract map |
| DbTheorems.FreshIsInit | db/db.c:134-165 | any number of processes may start at a fresh database of any number of chains |
| DbTheorems.RunInv | db/db.c:463-525 | the invariant holds in every state of every run of any number of processes |
| DbTheorems.HistoryExplainsMap | db/db.c:637-746 | the abstract map of every state is what the calls that have taken effect, in that order, make of the first map |
| DbTheorems.CallsAreAtomic | db/db.c:233-253 | every call takes effect in one step between its start and its end, and answers what the map of that instant answers |
| DbTheorems.RecordsAccounted | db/db.c:752-805 | in every state each record is on exactly one chain, that of its hash, or on the free list, or belongs to exactly one process |
| DbTheorems.QuiescentIsSound | db/db.c:440-456 | between calls no pointer is left to be written and the records are a sound image whose contents are the abstract map |
| DbTheorems.LockOrder | db/db.c:483 | a chain lock comes before the free list or an append lock, nothing comes after those, and nobody waits for a second chain |
| DbTheorems.NoDeadlock | db/db.c:761 | while a call or scan is under way some process can take its next step |
| DbTheorems.LockRegionsApart | db/db.c:590-593 | the bytes locked for chains, free list and appends are distinct for every size of the table |
| DbBytes.StepBytes | db/db.c:486-522 | every step of every process writes one string at most, into one of the two files, and the bytes of the index file hold the records afterwards |
| DbBytes.RunBytes | db/db.c:504-522 | in every state of every run the bytes of the index file hold the records of the state |
| DbBytes.ReadsAreBytes | db/db.c:323-418 | the pointers and records a process reads are what `_db_readptr` and `_db_readidx` make of the bytes |
| DbBytes.QuiescentFiles | db/db.c:440-456 | between calls the bytes of both files are a sound database for the abstract map |
| DbScanning.NothingHalfDeleted | db/db.c:842-846 | while a scan holds its read lock no record is in the middle of a deletion and nobody is at the free list |
| DbScanning.ScanSees | db/db.c:842-864 | a record a scan shows is live with the data of the map, or complete and about to go live, or was left by a process that ended |
| DbScanning.ScanMisses | db/db.c:842-864 | of the keys of the map a scan can find a live record exactly for those that are not being replaced at the time, and finds their data there |
| DbScanning.MissesExactlyWhen | db/db.c:842-864 | a key of the map is in no record a scan can read exactly when it is being replaced, its new record is not written in full, and no process that ended has left one with the key |
| DbMissedKey.ScanMissesKey | db/db.c:711-718 | a run of two processes from a new database: while one replaces "k", the other scans a file with no record of "k", which is in the map |
| DbMissedKey.WholeScanMissesKey | db/db.c:812-875 | a whole scan at that time, from the header the source writes on: it reads one blank record to the end of the file, and never "k" |
| DbRecords.StepShape | db/db.c:504-522 | no step of any process moves a record or changes its size or its extent |
| DbRecords.RunShape | db/db.c:504-522 | so it is from any state of a run to any later one |
| DbRecords.SameRecord | db/db.c:700-739 | over states in which a key is in the map and not being replaced, it keeps its record |
| DbRecords.KeyIsOld | db/db.c:661-699 | over such states no further record gets the key |
| DbRecords.LeftRemains | db/db.c:683-687 | a record that a process left behind when it ended keeps its key |
| DbScanRun.Positions | db/db.c:846-856 | read j of a scan stands before record j of the file, whatever others have written since its first read |
| DbScanRun.ReadsAll | db/db.c:846-856 | a scan that meets the end of the file has read every record of the file |
| DbScanRun.ShownOnce | db/db.c:812-875 | a whole scan beside other processes: a key that is in the map and not being replaced from its first read to its last is given, with the data the map has for it when they are read; and it is given only once if and only if no process that ended before left a record with the key |
| DbProgress.CallsComeNearer | db/db.c:259-301 | every step of a call brings it nearer to its end: to a later place, or along its list; no step of another process changes its place or what it has still to walk |
| DbProgress.CallsEnd | db/db.c:752-805 | in a run without end every call of a process that gets its turn again and again comes to its end |
| DbOutcomes.DumpsExactlyWhen | db/db.c:575-581 | a step of a process ends it exactly when it writes an entry whose length, or links a record whose offset, is out of range |
| DbOutcomes.DeadExactlyWhen | db/db.c:575-631 | in every run a process has ended exactly if it has taken such a step |
| DbOutcomes.InRangeWhileSmall | db/db.c:575-631 | nobody takes such a step while the index file ends within reach of a pointer and the entries of what is stored would fit with their data at the end of the data file |
| DbOutcomes.CallsAnswer | db/db.c:233-253 | in a run without end, every call of a process that gets its turn again and again and stays in range takes effect in one step of its own and comes to return what the map of that instant answers |
| DbOutcomes.CallsBegin | db/db.c:637-660 | an idle process can begin any fetch or delete, any store that passes the checks of `db_store` and has no separator in its key, and a scan |
| DbOutcomes.ChainWaits | db/db.c:273-283 | a call waits for its chain exactly while another is at it and one of the two may write |
| DbOutcomes.InnerWaits | db/db.c:483 | a process waits for the free list, the data file or the end of the index file exactly while another holds it |
| DbOutcomes.AppendsOnlyWhenNoneFits | db/db.c:767-776 | in every run a store that gives up the free list to append has found every record on it of other lengths |
| Semaph.LockArray | lib/semaph.c:49-54 | the array locks, with an adjustment to undo it, exactly when [2] is 0 |
| Semaph.EndCreateArray | lib/semaph.c:56-61 | the array attaches and unlocks, or waits while [1] is 0 |
| Semaph.OpenArray | lib/semaph.c:63-65 | the array attaches, or waits while [1] is 0 |
| Semaph.CloseArray | lib/semaph.c:67-71 | the array locks and detaches in one, exactly when [2] is 0 |
| Semaph.UnlockArray | lib/semaph.c:73-75 | the array unlocks |
| Semaph.OpArray | lib/semaph.c:77-81 | the array changes [0] alone, or waits rather than let it fall below 0 |
| Semaph.LockInv | lib/semaph.c:124-128 | taking the lock keeps the invariant |
| Semaph.EndInv | lib/semaph.c:159-160 | attaching keeps the invariant |
| Semaph.OpenInv | lib/semaph.c:193-194 | attaching without the lock keeps the invariant |
| Semaph.CloseInv | lib/semaph.c:232-233 | detaching keeps the invariant |
| Semaph.Set0Inv | lib/semaph.c:146-148 | setting [0] keeps the invariant and the adjustments of all processes |
| Semaph.Set1Inv | lib/semaph.c:150-152 | setting [1] keeps the invariant and the adjustments of all processes |
| Semaph.RmInv | lib/semaph.c:207-212 | removal keeps the invariant |
| Semaph.ExitInv | lib/semaph.c:15-24 | a process may exit at any point: what the kernel undoes is exactly what it held |
| Semaph.StepInv | lib/semaph.c:89-163 | every step of every process keeps the invariant, but for a `sem_create` that reads [1] while BIGCOUNT users have emptied it |
| SemaphTheorems.RunInv | lib/semaph.c:89-163 | the invariant holds in every state of every run of creates, opens, operations, closes and exits in which no `sem_create` reads [1] while BIGCOUNT users have emptied it |
| SemaphTheorems.Conservation | lib/semaph.c:49-81 | [1] and all adjustments for it add up to 0 before initialisation and to BIGCOUNT after; [2] is 0 or 1 and 1 exactly when one process holds the lock |
| SemaphTheorems.CounterNeverExceeds | lib/semaph.c:246-247 | the check "sem[1] > BIGCOUNT" never fires when processes close only what they opened |
| SemaphTheorems.StrayClose | lib/semaph.c:232-247 | a close by a process that is not attached makes it fire exactly when nobody else is attached |
| SemaphTheorems.NeverReinitialised | lib/semaph.c:135-153 | in such runs only a set without users is given initial values |
| SemaphTheorems.InitialisesExactlyWhen | lib/semaph.c:138 | `sem_create` takes a set for a fresh one exactly when it is, or when BIGCOUNT users have emptied the counter |
| SemaphTheorems.ReadyWasMade | lib/semaph.c:146-152 | in such runs a set is ready only after a step that found [0] at its initial value |
| SemaphTheorems.AttachesOnlyWhenReady | lib/semaph.c:193 | in such runs nobody gets past `sem_create` or `sem_open` before [0] has been given its initial value |
| SemaphTheorems.RemovesOnlyUnused | lib/semaph.c:246-250 | `sem_close` removes a set with users only when one of them came by `sem_open` after the check; never when all attach by `sem_create` |
| SemaphTheorems.OpenCanLoseItsSemaphore | lib/semaph.c:188-193 | a run in which `sem_close` removes the set under a process that has just come by `sem_open` |
| SemaphFailures.FullCounterIsReinitialised | lib/semaph.c:135-153 | a run, of as many opens as the counter allows, in which `sem_create` reads 0 with BIGCOUNT users and overwrites [0] and [1] under them |
| SemaphFailures.OpenedRun | lib/semaph.c:193-194 | a semaphore can be opened any number of times up to BIGCOUNT - 1 after its creation |
| SemaphFailures.CloseWithoutOpen | lib/semaph.c:232-247 | a run after which a close without an open counts to BIGCOUNT + 1 |
| SemaphCalls.CreateAlone | lib/semaph.c:109-162 | `sem_create` by itself where there is no set: one with the initial value, BIGCOUNT - 1, the lock free and one user |
| SemaphCalls.JoinAlone | lib/semaph.c:109-162 | `sem_create` by itself where there is one: [0] stays, and it has one user more |
| SemaphCalls.OpenAlone | lib/semaph.c:175-197 | `sem_open` by itself: one user more, or nothing where there is no set |
| SemaphCalls.CloseAlone | lib/semaph.c:223-253 | `sem_close` by itself: the last user removes the set, any other only itself, and the lock is free again |
| SemaphCalls.CallsBegin | lib/semaph.c:90-291 | a process in no call can begin any: create and open, and of a semaphore it is attached to close and any operation |
| SemaphCalls.OpPasses | lib/semaph.c:284-291 | a `sem_op` that gets through adds its amount to [0], which stays at 0 or above, and takes it from what the kernel will undo; nothing else changes |
| SemaphCalls.OpWaitsExactly | lib/semaph.c:284-291 | it gets through exactly when [0] and the amount together are not negative |
| SemaphCalls.CloseDecides | lib/semaph.c:243-253 | among other processes: a `sem_close` with the lock goes on to remove the set exactly when nobody is attached, and else unlocks it |
| SemaphCalls.RemoverRemoves | lib/semaph.c:206-211 | its next step removes the set, and all that was to be undone with it, unless it is killed |
| SemaphCalls.ValueCounts | lib/semaph.c:256-291 | over any part of a run without an exit [0] changes by the sum of the amounts of the operations that got through, and is never negative |
| SemaphCalls.WorthStays | lib/semaph.c:77-81 | with exits at any point, [0] and all that the kernel would undo together stay the same, exactly as long as no exit would bring [0] below 0 |
| SemaphCalls.WorthStarts | lib/semaph.c:146-152 | they start as the initial value |
| FooTable.FindsLive | threads/mutex3.c:51-65 | a find returns a live object with the identifier if there is one, and nothing otherwise |
| FooTable.FindThenRele | threads/mutex3.c:51-90 | a find and the release of what it found leave the table as it was |
| FooTable.AllocThenRele | threads/mutex3.c:18-41 | an allocation and the release of its object leave the table as it was |
| FooTable.AllocKeeps | threads/mutex3.c:18-41 | an allocation keeps the table: each object once, in the bucket of its identifier, with a positive count |
| FooTable.HoldKeeps | threads/mutex3.c:43-49 | a hold keeps the table |
| FooTable.ReleKeeps | threads/mutex3.c:68-90 | a release keeps the table |
| FooTable.ReleLinks | threads/mutex3.c:74-83 | after the release of a last reference only the pointer in front of the object has changed |
| FooTable.OnlyPredecessor | threads/mutex3.c:77-83 | exactly one pointer leads to an object: the head of its bucket or its predecessor's link |
| FooMutex3.FooHash.Alloc | threads/mutex3.c:18-41 | the table with the object in front of its bucket and one reference; all links as the table has them |
| FooMutex3.FooHash.Hold | threads/mutex3.c:43-49 | the table with one reference more |
| FooMutex3.FooHash.Look | threads/mutex3.c:57-62 | the first object of the bucket with the identifier |
| FooMutex3.FooHash.Find | threads/mutex3.c:51-65 | the found object gains a reference, or nothing changes |
| FooMutex3.FooHash.Rele | threads/mutex3.c:68-90 | the table with one reference less, or without the object |
| FooMutex3.FooHash.Unlink | threads/mutex3.c:74-83 | the loop finds the predecessor and leads its link past the object; no other link changes |
| FooRefine.AlwaysReaches | threads/mutex2.c:58-63 | no thread is ever led to freed memory or a null pointer |
| FooRefine.FindLooks | threads/mutex2.c:58-63 | the find loop passes only objects with other identifiers, and ends without one exactly when there is none |
| FooRefine.WalkMoves | threads/mutex2.c:92-94 | the unlink loop stays in front of its target and stops at its predecessor |
| FooRefine.WindowIsFree | threads/mutex2.c:75-80 | the thread that sees a last reference is the only one between giving up f_lock and looking again |
| FooRefine.QuietStepGood | threads/mutex2.c:57-64 | every step that writes nothing keeps the invariant |
| FooMoves.AllocHeadGood | threads/mutex2.c:34-35 | the write of the bucket head is where an allocation takes effect |
| FooMoves.HoldGood | threads/mutex2.c:44-50 | the increment is where a hold or a find takes effect, with the answer of the table |
| FooMoves.ReleDecGood | threads/mutex2.c:100-103 | the decrement is where a release takes effect |
| FooMoves.CutGood | threads/mutex2.c:87-94 | the unlinking write is where the release of a last reference takes effect |
| FooMoves.FreeGood | threads/mutex2.c:96-99 | freeing disturbs nobody |
| FooMoves.GiveGood | threads/mutex2.c:44-50 | a reference may be handed from one thread to another |
| FooMoves.StepGood | threads/mutex2.c:68-104 | every step of every thread keeps the invariant and is one operation of the table or none |
| FooTheorems.RunInv | threads/mutex2.c:19-104 | the invariant holds in every state of every run |
| FooTheorems.HistoryExplainsTable | threads/mutex2.c:19-104 | the calls of a run, in the order of taking effect, are a run of the operations of the one-lock version with the same answers and the same table |
| FooTheorems.CallsAreAtomic | threads/mutex2.c:19-104 | every call takes effect in one step between its start and its end, and in no other |
| FooTheorems.CountIsReferences | threads/mutex2.c:44-50 | f_count of every object of the table is the number of references to it in every state |
| FooTheorems.OneInWindow | threads/mutex2.c:75-80 | at most one thread per object is in the window of `foo_rele` |
| FooTheorems.UnlinkedByLast | threads/mutex2.c:86-95 | an object is unlinked only by the thread with the only reference |
| FooTheorems.FreedWhenUnused | threads/mutex2.c:98-99 | an object is freed only when nobody has a reference to it and no next step of another thread touches it |
| FooTheorems.FindsLiveObject | threads/mutex2.c:52-66 | what `foo_find` returns is in the table, has the identifier and is referenced by the finder; NULL means no object has it |
| FooTheorems.LockOrder | threads/mutex2.c:77-78 | hashlock comes before f_lock: whoever waits holds no f_lock |
| FooTheorems.NoDeadlock | threads/mutex2.c:77-78 | while a call is under way some thread can take its next step |
| FooTheorems.UnlinkReaches | threads/mutex2.c:92-94 | each turn of the unlink loop brings it one nearer to its target, no step of another thread moves it away |
| FooProgress.CallsComeNearer | threads/mutex2.c:44-104 | every step of a call brings it nearer to its end: to a later place, or along its loop; no step of another thread changes its place or the turns it has still to make |
| FooProgress.CallsAnswer | threads/mutex2.c:44-104 | in a run without end every call of a thread that gets its turn again and again takes effect in one step of its own, as in the one-lock version, and returns the answer it got there |
| FooProgress.CallsBegin | threads/mutex2.c:20-104 | an idle thread can begin any call, hold and release for what it has a reference to |
| FooProgress.NothingLeaks | threads/mutex2.c:96-99 | in every state of every run an object in memory is in the table, or one thread is about to put it there or to free it |
| FooProgress.QuiescentMemory | threads/mutex2.c:96-99 | between calls memory and table hold the same objects |
| Rot13.TranslateTurns | advio/rot13a.c:9-23 | letters turn by half of their alphabet, all else stays; twice is the identity |
| Rot13.TwiceIsIdentity | advio/rot13a.c:9-23 | translating a text twice gives it back |
| Rot13.TranslateInjective | advio/rot13a.c:9-23 | distinct texts stay distinct |
| Rot13.Synchronous | advio/rot13a.c:37-49 | for all sizes and failures of reads and writes: the output is the translation of what was read, up to the first read that gives nothing or fails; exit(0) means all of the input exactly when that read was at the end of the file |
| Rot13.FailedReadPasses | advio/rot13a.c:37-49 | a read that fails at once: exit(0) and no output for a file of one letter |
| Rot13Async.WriteApart | advio/rot13c2.c:111-114 | a write of one block leaves the other blocks of the output |
| Rot13Async.StartReadKeeps | advio/rot13c2.c:76-87 | issuing the next read keeps the state of all blocks |
| Rot13Async.FinishReadKeeps | advio/rot13c2.c:92-108 | a read may complete at any time, with any part of the block or an error |
| Rot13Async.StartWriteKeeps | advio/rot13c2.c:105-117 | translating and writing a read block keeps the state; no block is written twice |
| Rot13Async.FinishWriteKeeps | advio/rot13c2.c:120-135 | a write may complete at any time, in part, as a whole or with an error |
| Rot13Async.RetireKeeps | advio/rot13c2.c:129-138 | a completely written block leaves its buffer |
| Rot13Async.AllDone | advio/rot13c2.c:142-144 | with all blocks read and no buffer busy every request was passed, and the output is the translated input up to what the read of the last block gave |
| Rot13Program.OneChanged | advio/rot13c2.c:87-138 | a buffer that changes state changes the count of busy buffers and the work left by one buffer's worth |
| Rot13Program.Program.ReadNext | advio/rot13c2.c:71-89 | the next block is read into the buffer if there is one; the measure falls |
| Rot13Program.Program.ReadDone | advio/rot13c2.c:100-117 | a full or last block is translated in place and its write issued; the measure falls |
| Rot13Program.Program.WriteDone | advio/rot13c2.c:128-139 | after a full write the buffer is free; the measure falls |
| Rot13Program.Program.Serve | advio/rot13c2.c:70-140 | one turn of the switch: progress whenever the buffer's request is complete, or it is free and input is left |
| Rot13Program.Program.Scan | advio/rot13c2.c:69-141 | one pass over the buffers: progress if any request was complete or all buffers were free |
| Rot13Program.Program.Suspend | advio/rot13c2.c:145-148 | returns with a complete request; there is one to wait for |
| Rot13Program.Program.Run | advio/rot13c2.c:67-149 | the loop ends, whatever the order in which requests complete |
| Rot13Program.Asynchronous | advio/rot13c2.c:42-155 | exit(0) exactly when every request is passed; then every block was read once and written once and the output is the translated input up to what the read of the last block gave, which is all of it exactly when that read was full |
| Rot13Program.Agree | advio/rot13c2.c:42-155 | when both programs exit with 0 they write the translated input exactly when the reads of the one reached the end of the file and the last read of the other was full |
| Rot13Program.Twice | advio/rot13c2.c:42-155 | two runs whose last reads are full exit with 0 exactly when every request is passed, and then give the input back |
| Rot13Program.ShortReadPasses | advio/rot13c2.c:100-108 | a last read that gives nothing: exit(0) and no output for a file of one letter |
| Merge.MergeRanges | threads/barrier.c:59-78 | for any number of sorted ranges of any length: no place outside is read exactly when `Reads` says, and the result is sorted and a permutation of the input exactly when all values LONG_MAX, if there are any, stand directly behind the last of the largest other numbers |
| Merge.FindSmallest | threads/barrier.c:68-74 | the first range whose next number is the smallest of all and below LONG_MAX; the old index when there is none |
| Merge.MergeOne | threads/barrier.c:75-76 | taking the smallest keeps what is done sorted and ahead of what is left, takes equal numbers from lower ranges first, and loses no number |
| Merge.TurningPoint | threads/barrier.c:67-76 | when only LONG_MAX is left the number taken last was the last of the largest others |
| Merge.ReadsOn | threads/barrier.c:67-76 | from then on the loop copies the numbers as they stand behind that place |
| Merge.MaximumInFront | threads/barrier.c:67-76 | for two ranges of one number, LONG_MAX first, the loop reads behind the end |
| MemStream.TypeToFlags | exercises/fmemopen.c:96-138 | a mode is accepted exactly when it is one of r, w, a followed by any number of + and b, with the flags of that mode |
| MemStream.FindEnd | exercises/fmemopen.c:140-151 | the position of the first null, or the length |
| MemStream.UpToNullIs | exercises/fmemopen.c:140-151 | the bytes in front of the first null are determined by its position |
| MemStream.Open | exercises/fmemopen.c:36-94 | which sizes, modes and buffers are accepted, and the contents and position of the stream in each mode, for every size |
| MemStream.MemoryStream.Read | exercises/fmemopen.c:153-171 | reads like the ideal stream and leaves the rest of the destination |
| MemStream.MemoryStream.Write | exercises/fmemopen.c:173-204 | the exact new stream in every mode and at every position, whose place is cut down to an int, or undefined when that is negative or its end no int; bytes behind the end stay, and in the + modes a null follows a stream that has grown |
| MemStream.MemoryStream.PutNull | exercises/fmemopen.c:190-202 | the null byte falls behind the stream, or where a write-only stream loses a byte to it |
| MemStream.MemoryStream.Seek | exercises/fmemopen.c:206-229 | the exact new position, the offset being cut down to an int |
| MemStream.CopyWrites | exercises/fmemopen.c:183-191 | the copied bytes are those of a write at that place |
| MemStreamTheorems.StaysInBounds | exercises/fmemopen.c:153-229 | curpos <= vsize <= rsize after any operation in any mode |
| MemStreamTheorems.WriteIsIdeal | exercises/fmemopen.c:183-189 | in the + modes a write is defined and the ideal one exactly when the position behind it fits an int |
| MemStreamTheorems.WriteWraps | exercises/fmemopen.c:183-189 | a write at 4 GiB overwrites the start of the buffer |
| MemStreamTheorems.WriteOnlyKeeps | exercises/fmemopen.c:196-202 | a write-only stream keeps what is written, at a place that fits an int, exactly when its null byte falls behind the end or on a null; in all cases it costs that one byte and no other |
| MemStreamTheorems.LastByteIsLost | exercises/fmemopen.c:196-202 | filling a "w" stream of two bytes with two loses the second |
| MemStreamTheorems.ModesOfC | exercises/fmemopen.c:97-139 | the flags of the six modes of C |
| MemStreamTheorems.BinaryIsNothing | exercises/fmemopen.c:97-139 | a b behind the first letter changes nothing |
| MemStreamTheorems.ReadsRest | exercises/fmemopen.c:153-170 | a read long enough gives all that is left; a stream that cannot be read gives nothing |
| MemStreamTheorems.ReadsJoin | exercises/fmemopen.c:153-170 | two reads give what one of their length together gives, and the second starts where the first ended |
| MemStreamTheorems.WritesAt | exercises/fmemopen.c:173-204 | the ideal write puts its bytes at the position, or behind the end in append mode, as many as there is room for, and no other byte changes |
| MemStreamTheorems.WritesJoin | exercises/fmemopen.c:173-204 | two writes leave what one of both leaves |
| MemStreamTheorems.SeekOrigins | exercises/fmemopen.c:206-229 | an offset from the end, or from the position, is the offset from the start that many further on; a seek goes there exactly when that is in the stream |
| MemStreamTheorems.SeekTells | exercises/fmemopen.c:206-229 | a seek by 0 from the position tells it and stays, a seek by 0 from the end goes there and tells the length, in every mode |
| MemStreamTheorems.SeekIsIdeal | exercises/fmemopen.c:206-229 | a seek is the ideal one exactly when the offset is an int, or falls outside the stream before and after it is made one |
| MemStreamTheorems.SeekWraps | exercises/fmemopen.c:212-215 | a seek to 4 GiB goes to the start |
| MemStreamTheorems.WriteThenRead | exercises/fmemopen.c:153-229 | what is written where an int holds its end is what is read back from there |
| MemStreamTheorems.WriteIsLocal | exercises/fmemopen.c:173-204 | in the + modes a write changes no byte outside its place and shortens nothing |
| MemStreamTheorems.PlusModesAreIdeal | exercises/fmemopen.c:153-229 | in r+, w+ and a+ every sequence of operations is one on a byte sequence capped at the buffer size, with the same answers, step for step exactly as long as the offsets fit an int |
| MemStreamTheorems.SmallBuffersFit | exercises/fmemopen.c:153-229 | with a buffer size that is an int only large seek offsets can fail to fit |
| MemStreamTheorems.AppendOnlyGrows | exercises/fmemopen.c:183-186 | in append mode nothing that is there changes, wherever the position is moved, as long as the ends of writes fit an int |
| MemStreamTheorems.Run | exercises/fmemopen.c:153-229 | any sequence of operations on the stream gives the specified answers and contents |
| JobQueue.Queue.constructor | threads/rwlock.c:20-32 | an empty queue |
| JobQueue.Queue.Insert | threads/rwlock.c:37-49 | the sequence with the job in front; head, tail and links agree with it |
| JobQueue.Queue.Append | threads/rwlock.c:54-66 | the sequence with the job at the end |
| JobQueue.Queue.Remove | threads/rwlock.c:71-89 | the sequence without the job, wherever it stands |
| JobQueue.Queue.Find | threads/rwlock.c:94-108 | the first job of the thread, or null exactly when there is none |
| JobQueue.CutOut | threads/rwlock.c:75-87 | head, tail and links led past a member spell out the sequence without it |
| JobQueue.PutBehind | threads/rwlock.c:54-66 | head, tail and links led to a new last job spell out the sequence with it |
| JobQueue.PutInFront | threads/rwlock.c:37-49 | head, tail and links led to a new first job spell out the sequence with it |
| PrintSpool.Daemon.AddJob | printer/printd.c:275-294 | the job is pending, behind all others |
| PrintSpool.Daemon.Defer | printer/printd.c:301-313 | the job in hand is pending again, in front of all others |
| PrintSpool.Daemon.RemoveJob | printer/printd.c:320-331 | the list without the job, wherever it stands |
| PrintSpool.Daemon.Take | printer/printd.c:688-695 | the first pending job is in hand |
| PrintSpool.Daemon.Finish | printer/printd.c:717-735 | the job in hand is printed or cancelled, and in nobody's hands |
| PrintSpool.KeepsOrder | printer/printd.c:684-697 | every job that arrived is finished, in hand or pending, in the order of arrival, after every event |
| PrintSpool.FirstInFirstOut | printer/printd.c:684-697 | over any run no job is lost or finished twice, and jobs are finished strictly in the order of arrival |
| PrintSpool.DeferredIsNext | printer/printd.c:825-839 | whatever arrives meanwhile, a deferred job is the next to be tried |
| PrintSpool.OneTurn | printer/printd.c:684-697 | a request goes to the end of the list; a thread without a job takes the first one and waits only while there is none; with a job it finishes it, printed or not, or puts it in front |
| PrintSpool.PrinterThread | printer/printd.c:668-840 | any interleaving of requests with the printer thread is a run of the spool with the events of its turns in their order: jobs finish in the order of arrival and every request is counted; with a printer that takes every job an idle thread prints one of the pending jobs in order every second move, and all of n in 2n moves, whatever comes in meanwhile |
| PassFd.SendFd | lib/sendfd.c:13-49 | null, then 0 with the descriptor, or a status that is never 0 |
| PassFd.SendErr | lib/senderr.c:8-24 | the message, a null and the status of the error made negative |
| PassFd.FirstNull | lib/recvfd.c:54-57 | a chunk with a null ends the stream exactly when the null is its next to last byte |
| PassFd.Scan | lib/recvfd.c:54-68 | a chunk is data, or the end with its status, or dumped |
| PassFd.RecvFd | lib/recvfd.c:29-73 | for any chunks and any behaviour of the callback: -1 and all bytes handed over when the connection is closed before the end, -1 and the bytes up to there when the callback fails, a dump exactly for a malformed chunk, the answer at the end of the stream, and a descriptor only if it came with a final chunk |
| PassFd.Outcomes | lib/recvfd.c:29-73 | the same of the specification, with every case of how a run can end |
| PassFd.Frame | lib/recvfd.c:29-73 | for every message, status and chunking: message and status or descriptor arrive when the last two bytes come together, else the receiver gives up |
| PassFd.ErrorRoundTrip | lib/senderr.c:8-24 | `recv_fd` hands over exactly the message of `send_err` and returns its negated status if and only if the last two bytes come together |
| PassFd.SplitGivesUp | lib/recvfd.c:29-73 | the error -1 without a message, its two bytes in two pieces: the receiver dumps; in one piece it gets -1 |
| PassFd.ErrorFits | lib/sendfd.c:27-32 | the receiver gets the error itself exactly for -255..-1; multiples of 256 and non-negative codes become -1 |
| PassFd.StatusIsCut | lib/sendfd.c:27-32 | the errors -256 and -1 are the same byte |

## Left out

- Database, one handle: once a chain is jammed by a key with a separator, what deletes and stores on the other chains and a scan do.
  Their keys are proved to be found (`SparedBut`). A null ends a key in C.
- Database, several processes: stores of keys with a separator, after which every process that walks the chain ends.
- Database: `db_open` on existing files and with O_TRUNC while others are active, malloc failure, failing system calls, the
  statistics counters. `Create` is the fresh database with any positive number of chains.
- Database: idxbuf and datbuf are modelled as the C strings they hold, with a flag for an entry longer than idxbuf (`overrun`);
  what such an entry does to the memory behind it is not modelled: the call goes on to its dump. err_dump and
  err_quit are a result `Dump` that ends the call.
- Database, one handle: the lock calls are not there; they are in the model of several processes.
- Database, several processes: an index record is read in one step, although `_db_readidx` makes two read calls; an
  append is the seek and the write in one step under its lock, as in the source. Calls that
  fail before they touch the files are not steps. `db_nextrec` mixed with other calls on one handle is not modelled, as
  they share the file offset; a scan by another process is.
- DbScanRun.ShownOnce: says when a key is given twice, because of a record left behind by a process that ended, but there is no run with
  such a record: it takes an index file of more than 9999999 bytes. What a scan gives for a key that comes, goes or is replaced
  while it runs is said of each read alone (`DbScanning.ScanSees`).
- DbTheorems.RunInv: does not cover a process killed in the middle of a call, which leaves a half-done deletion behind; a process that
  dumps is covered.
- Semaphores: `sem_rm` called directly by a client; the limit on values and adjustments (SEMVMX); failing semget.
- SemaphTheorems.CounterNeverExceeds: needs processes that call `sem_close` and `sem_op` only while they are attached, which is how
  `Semaph.Begins` lets them; `StrayClose` says what a close without an open does.
- Semaphores: a `sem_create` that sleeps while the set is removed is woken with EIDRM and ends by err_sys; that is the exit which the model allows
  any process at any point, beside the retry on EINVAL.
- SemaphTheorems.RemovesOnlyUnused: states removal of unused sets only for sets without an unlocked `sem_open` since the check, because
  `sem_open` takes no lock.
- Objects: the parts of a structure the source leaves to the reader; failing malloc and mutex initialisation. f_count++ under its
  lock is one step, and so is the pair of accesses that unlinks an object.
- FooTheorems.NoDeadlock: does not say that every waiting thread gets its turn, which depends on the fairness of the mutexes;
  `FooProgress.CallsAnswer` takes it for granted, as `DbOutcomes.CallsAnswer` does of the record locks.
- rot13: locales other than C, a file that changes while it is read, and the final fsync.
- Merging: heapsort and the barrier are not part of this model, and what an index that was never set or a place behind the numbers holds.
- Memory streams: malloc and funopen do not fail, lengths are not negative, closing is not modelled. Where C leaves a write open the
  model stands still (`Undefined`).
- Job queues: the locks (every method is one critical section), failing rdlock. Print daemon: talking to the printer and parsing its
  answer are the events `CannotOpen`, `CannotPrint` and `Accepted`; job numbers and their file, spool files, the configuration
  and the worker list, which does not reach every worker, are not modelled.
- Descriptor passing: sendmsg, recvmsg and the stream between them are the sequence of chunks; a receive error or a closed
  connection is the end of that sequence. The negation of INT_MIN, undefined in C, is taken as its status byte.
- Not modelled at all: the other programs of the repository, which are demonstrations and thin wrappers of system calls, and the dispatch
  loops of ipc2/opend.
