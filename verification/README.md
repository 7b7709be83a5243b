# WaveDB, modelled and proved in Dafny

WaveDB is a persistent, multi-version key-value store written in C. Keys are paths of identifiers,
cut into fixed-size chunks; they live in a trie whose levels are B+trees. This project models the
parts of the store where correctness is hardest to see and proves what they promise:

- **Copy-on-write flush** (`NodeStore`, `Layout`, `Walk`, `Collect`, `Flush`). Dirty nodes are
  collected, sorted and written bottom-up to fresh offsets of a page file, parents are repointed, and
  a superblock is switched. Nodes in memory are table entries, pointers are table keys, and a child
  that is not loaded is known by its file offset. The meaning of a node follows loaded children in
  memory and the others through the file.
- **Vacuum** (`Vacuum`, `VacuumWalk`). After a flush the whole trie, loaded or not, is copied
  post-order to a new file that takes the place of the old one.
- **Range iterator** (`Keys`, `Scan`, `Reverse`). An explicit stack walks the trie forwards, with a
  seek to the lower bound, and backwards without bounds.
- **B+tree of a trie level** (`BTree`, `SplitUp`, `TreeInsert`). Binary search, descent, sorted insert,
  and splits that climb the path of the descent, to a new root if need be.
- **MVCC** (`Seqlock`, `TxManager`, `CutoffScan`, `VersionChain`). A seqlock over a three-word id under
  every interleaving, the commit loop on it, the sharded set of active transactions and its cutoff,
  the unlocked scan for that cutoff, and version chains with garbage collection.
- **Write-ahead log** (`Codec`, `ThreadWal`, `Recovery`, `Compaction`, `Restart`, `Durability`). Record
  format, buffered and rotated log files, replay by transaction id, compaction with crash points, and
  the store a restart restores.
- **Cache** (`Lru`, `SyncDb`). The LRU shard as a linked list with a hash map, and its agreement with
  the store in sync-only mode.

## What holds, and what holds only under a condition

Some properties one would expect are false of the code. The model keeps the code, shows an input on
which the property fails, and states when it holds.

- The serialiser writes the offset of a value's trie child only if that child is loaded. So a flush
  keeps the whole tree if and only if no rewritten bnode has a value whose trie child is on disk and
  not loaded (`Flush.LosslessIff`, `Flush.DropExample`).
- The flush loop keeps going, until a write fails, when some hbtrie node other than the root is dirty
  (or has a dirty one below it) but owns no bnode to write; otherwise it ends. It ends under the
  invariant that an hbtrie node is dirty exactly when one of its bnodes is
  (`Flush.FlushDirtyBnodes`, `Flush.ExactDoesNotSpin`, `Flush.SpinsForever`, `Flush.SpinExample`).
- A failed write does not restore that invariant. A retry of the flush never ends if and only if some
  dirty hbtrie node other than the root, with no dirty child, had all its bnodes written before the
  failure; otherwise it ends like any flush (`Flush.RetrySpinsIff`, `Flush.RetryExample`).
- Splits after an insert, however many nodes are cut on the way up, keep the B+tree well formed if and
  only if every split key is above the separator of the node that was split; then all entries and all
  lookups are kept (`SplitUp.SplitAnywhereIff`, `SplitUp.PropagateIff`, `TreeInsert.InsertIff`). It is
  so whenever every separator is a lower bound of the keys under it (`SplitUp.TightPropagates`). An
  insert below the first separator leaves that separator as it is, and then a split can make a stored
  key unreachable: inserting 5, 6, 9, 10, 1, 2 into an empty tree that splits at four entries loses 1
  (`SplitUp.MisplacedExample`, `TreeInsert.LoseKey`).
- A range scan from a start without empty identifiers equals the plain filter if and only if no key it
  should return comes, in trie order, before the start or after a scanned key past the end; the two
  orders can disagree where one identifier's chunks begin another's (`Scan.RangeScan`, `Scan.ScanIff`,
  `Scan.ScanExact`, `Scan.LostKeyExample`).
- Collecting versions below a cutoff changes a read if and only if what the reader saw was live, not
  the newest version, and below the cutoff. A reader above the cutoff is not protected
  (`VersionChain.ReadKeptIff`, `VersionChain.LostReadExample`).
- Once the global minimum is set and no active transaction has it as its id, as after a recompute with
  nothing active, it stays what it is over every further run: safe, but no later version falls below
  it. Otherwise it can still move (`TxManager.CutoffFreezes`, `TxManager.StaysFrozen`,
  `TxManager.MovesOn`).
- The scan for the cutoff looks at the shards one by one without a lock, and can store a cutoff above an
  active id (`CutoffScan.UnsafeScanExample`). It is safe if and only if the schedule spares every
  transaction that began in a shard already passed and is still active: either the scan met some id at or
  below that one, or it met no id at all and nothing above that one was committed meanwhile
  (`CutoffScan.SafeScheduleIff`). So it is safe if nothing begins behind it, and if some transaction is
  active from its start to its end (`CutoffScan.QuietScanSafe`, `CutoffScan.AnchoredScanSafe`).
- Closing marks the sealed files as compacted and then removes them one by one. The marks are appended
  to the manifest, where recovery still finds the older entry of the same file and reads it, so a
  crash between removals can replay an older value over the checkpoint. Every crash point is harmless
  if and only if no prefix of the sealed files, gone, leaves a key with an older effect
  (`Restart.SafeToCloseIff`, `Restart.CloseExample`); files sealed in the order of their ids are always
  safe (`Restart.OldestFirstSafe`).
- Recovery gives back the live store if and only if no key's last operation put an empty value that the
  log cannot tell from no value (`Durability.RecoveredIsLiveIff`, `Durability.ForgottenExample`).
- The cache is keyed by paths and the store by flattened chunks. For every operation it is stated when a
  cache that agrees with the store still agrees afterwards, both ways, and for every run when it agrees
  throughout (`SyncDb.StepAgreesIff`, `SyncDb.RunAgreesIff`). Runs on paths that the trie takes and tells
  apart always do (`SyncDb.SeparateRun`); two paths with one place give a stale answer
  (`SyncDb.StaleAnswer`, `SyncDb.SharedPlaceExample`).
- The empty identifier comes back from a scan as one chunk of zero bytes (`Keys.RebuiltExact`).

## Model

| member | source | states |
|---|---|---|
| `Common.TxnOrderIs` | src/Workers/transaction_id.c:114-136 | ids compare as one number in base 2^64: time first, then nanoseconds, then count |
| `NodeStore.PageFile.WriteNode` | src/Storage/page_file.c:326-496 | a node goes to a fresh offset or nothing changes; the cursor moves by exactly the length prefix and the record, and record regions stay pairwise disjoint and before the cursor |
| `NodeStore.RecordLengthIs` | src/Storage/node_serializer.c:676-799 | how long a record is: its head, and what each further step, separator, plain value or chain of deletions adds |
| `NodeStore.PageFile.WriteSuperblock` | src/Storage/page_file.c:748-847 | one write switches the root; no node record changes |
| `NodeStore.ReadsExtended` | src/Database/database.c:661-704 | what an offset decodes to is not changed by records added at fresh offsets |
| `NodeStore.ReadsUnique` | src/Storage/node_serializer.c:678-774 | an offset decodes to at most one tree |
| `NodeStore.MeansRepointed` | src/Database/database.c:693-703 | changing offsets of loaded nodes and adding records changes no node's meaning |
| `NodeStore.MeansUnique` | src/HBTrie/hbtrie.c:1975-2127 | a node means at most one tree, whatever is loaded |
| `Layout.ThePlan` | src/Database/database.c:514-628 | the set of bnodes a flush must write is well defined: a bnode is in it exactly when it is dirty, holds a trie child that is dirty or has a dirty one below it, or has such a bnode below it in its B+tree |
| `Layout.MarkedIsFlagged` | src/Database/database.c:581-585 | if dirty bnodes belong to dirty hbtrie nodes, every bnode to be written belongs to an hbtrie node the walk finds dirty, so none is skipped |
| `Collect.Database.PropagateUp` | src/Database/database.c:490-501 | within a B+tree exactly the ancestors of dirty bnodes become dirty |
| `Collect.Database.CollectChildren` | src/Database/database.c:543-576 | below one hbtrie node every dirty trie child is collected first and marks the entry's bnode and the hbtrie node |
| `Collect.Database.ListDirty` | src/Database/database.c:587-626 | the dirty bnodes of one B+tree are listed once each, with owner, parent entry, level and depth |
| `Collect.Database.CollectHb` | src/Database/database.c:514-628 | the list is exactly the planned bnodes, each once, and the dirty sets become the planned ones |
| `Flush.SortInfos` | src/Database/database.c:476-486 | sorting keeps the list's bnodes and puts deeper and lower ones first |
| `Flush.ParentLater` | src/Database/database.c:476-486 | in sorted order every bnode comes before the bnode its offset is patched into |
| `Flush.WriteList` | src/Database/database.c:661-704 | on success every listed bnode has a record at a fresh offset equal to its serialisation and its parent entry points there; older records and the root stay as they were, also on failure; it fails only when the file takes no further node |
| `Flush.ClearFlags` | src/Database/database.c:711-714 | exactly the hbtrie nodes with a listed bnode are cleared |
| `Flush.FlushPass` | src/Database/database.c:646-717 | one pass finds nothing exactly when the plan is empty; otherwise it writes the planned bnodes and clears the flags of just their hbtrie nodes, or fails with exactly the unwritten ones dirty, parents included, and all flags set |
| `Flush.SavedIsRead` | src/Database/database.c:661-704 | a written node decodes to its meaning minus the children its records drop |
| `Flush.NothingDropped` | src/Storage/node_serializer.c:678-774 | if no written bnode has a value whose trie child is not loaded, the saved tree is the whole tree |
| `Flush.LosslessIff` | src/Storage/node_serializer.c:692-700 | the saved tree is the whole in-memory tree if and only if no written bnode has a value whose trie child is on disk and not loaded |
| `Flush.ExactDoesNotSpin` | src/Database/database.c:646-717 | when hbtrie nodes are dirty exactly if they own a dirty bnode, no hbtrie node keeps the loop going |
| `Flush.SpinsForever` | src/Database/database.c:646-717 | otherwise, after every number of passes that wrote what there was, there is again something to write |
| `Flush.FlushPasses` | src/Database/database.c:646-717 | in that situation the loop, run for any number of passes, never finds nothing to write, and stops only when the file takes no further node |
| `Flush.AllCleared` | src/Database/database.c:711-714 | unless such a node exists, a pass that writes leaves no hbtrie node dirty, so the next pass collects nothing |
| `Flush.RetrySpinsIff` | src/Database/database.c:646-717 | after a failed write, a retry never ends if and only if some dirty hbtrie node other than the root, without dirty child, had all its bnodes written |
| `Flush.RetryExample` | src/Database/database.c:661-704 | a memory with exact flags and a failing write after which a retry does not end |
| `Flush.WritingStopped` | src/Database/database.c:661-704 | wherever the writing stops, what was written is on disk as serialised and the rest is dirty, so the files are in step for a retry |
| `Flush.StillOpens` | src/Database/database.c:661-740 | before the superblock write the recorded root still decodes to the previous snapshot |
| `Flush.FlushDirtyBnodes` | src/Database/database.c:630-740 | when no hbtrie node keeps the loop going: it ends; a failed flush leaves a file that opens to the previous tree and says what is still dirty and when a retry ends; a successful one opens to the saved tree with all flags clear; memory keeps its meaning, and the files are in step for the next flush, also after children were dropped; it fails only when the file takes no further write |
| `Flush.SettledAgain` | src/Database/database.c:693-703 | a lossless flush leaves memory and file in step, ready for the next flush |
| `Flush.FlushedSettles` | src/Database/database.c:693-703 | a complete flush leaves every clean bnode with its mirror or its serialisation on disk, also when children were dropped |
| `Flush.DropExample` | src/Storage/node_serializer.c:692-700 | a memory with exact dirty flags whose saved tree lacks a stored value |
| `Flush.SpinExample` | src/Database/database.c:646-717 | a memory and a file in step, and flags, for which the loop does not end |
| `Vacuum.LoadKeepsMeaning` | src/HBTrie/hbtrie.c:1975-2127 | loading a child from the file changes no node's meaning |
| `Vacuum.LoadWellFormed` | src/HBTrie/hbtrie.c:1975-2127 | loading keeps the loaded nodes one tree |
| `Vacuum.VacuumBnode` | src/Database/database.c:2161-2216 | post-order in one B+tree: the new file gains exactly these bnodes, children before parents, and decodes to what the root means |
| `VacuumWalk.LoadChild` | src/HBTrie/hbtrie.c:1975-2127 | the child of an entry becomes loaded with the meaning the file gives it |
| `VacuumWalk.VacuumEntry` | src/Database/database.c:2100-2148 | one entry: loaded if needed, then pushed or rewritten with everything below it |
| `VacuumWalk.VacuumHb` | src/Database/database.c:2078-2157 | everything below an hbtrie node is in the new file once, elsewhere only its parent entry changed; recursion and stack walk end |
| `VacuumWalk.VacuumRewrite` | src/Database/database.c:2218-2279 | the new file opens to the same tree, holds each live bnode once after its children and nothing else; no bnode stays dirty; memory means the same against the new file and is in step with it; it fails only when the new file takes no further write |
| `VacuumWalk.VacuumRun` | src/Database/database.c:2335-2401 | flush, rewrite and swap: the live file opens to all that memory means, also to what this flush or earlier ones dropped; everything is clean and in step; a failure leaves the old file live, opening to the previous tree or to the one the flush saved |
| `Keys.IdentifierCreate` | src/HBTrie/identifier.c:14-63 | the chunks are the bytes cut at the chunk size; byte by byte, chunk i holds bytes from i times the chunk size on, and zeros past the end; one chunk for no bytes, else as many as needed |
| `Keys.ChunkedIs` | src/HBTrie/identifier.c:25-59 | the number of chunks, and each byte of each chunk: a byte of the input, or zero past its end |
| `Keys.ToBuffer` | src/HBTrie/identifier.c:205-224 | the recorded length's worth of the joined chunks |
| `Keys.RoundTrip` | src/HBTrie/identifier.c:14-63 | create then to_buffer gives back the bytes, for every length and chunk size |
| `Keys.JoinedChunked` | src/HBTrie/identifier.c:37-59 | joining the chunks gives the bytes followed by less than one chunk of padding |
| `Keys.RebuiltExact` | src/Database/database_iterator.c:166-202 | an identifier rebuilt by a scan has the same chunks, and the same bytes if and only if it was not empty |
| `Keys.SplitExact` | src/Database/database_iterator.c:1130-1161 | a scan splits the chunks of every stored path into the identifiers it was inserted with, chunk for chunk |
| `Keys.PathOfIs` | src/Database/database_iterator.c:1130-1178 | the path of an entry is the one it was stored under; without metadata whole chunks make one identifier |
| `Keys.CutPathIs` | src/HBTrie/hbtrie.c:2430-2475 | each identifier of a path is cut by itself, and its metadata are its number of chunks and its length |
| `Keys.CompareLoop` | src/HBTrie/path.c:171-192 | the comparison loops compute first difference, then length |
| `Keys.Orders` | src/HBTrie/identifier.c:172-191 | byte, chunk, identifier and path comparison are total orders whose zero is equality |
| `Keys.ChunkOrderIs` | src/HBTrie/chunk.c:69-86 | a chunk compares below another if and only if at the first byte where they differ it has the smaller byte, or it ends there |
| `Keys.IdentOrderIs` | src/HBTrie/identifier.c:172-191 | the same of identifiers, chunk by chunk |
| `Keys.PathOrderIs` | src/HBTrie/path.c:171-192 | the same of paths, identifier by identifier |
| `Keys.PrefixSortsFirst` | src/HBTrie/identifier.c:37-59 | with zero padding, bytes that begin other bytes never sort after them, whatever the lengths and the chunk size |
| `Keys.OrdersAgree` | src/HBTrie/path.c:171-192 | for paths without empty chunk lists, path order equals trie order unless, at the first differing component, one identifier's chunks begin the other's |
| `Keys.ClashExample` | src/HBTrie/path.c:171-192 | two paths the orders rank oppositely, and two that share one place in the trie |
| `BTree.Search` | src/HBTrie/bnode.c:167-193 | binary search returns the first entry not below the key: exactly the entries before it have chunks that are smaller at the first differing byte |
| `BTree.Find` | src/HBTrie/bnode.c:195-221 | found exactly when the node has the key, and where |
| `BTree.ChildIndex` | src/HBTrie/bnode.c:223-259 | the separator to follow is the last one not above the key, or the first |
| `BTree.LeavesOrdered` | src/HBTrie/bnode.c:223-259 | in a well-formed tree the flattened entries ascend within their bounds |
| `BTree.DescendTo` | src/HBTrie/bnode.c:223-259 | an entry for the key is below the followed separator or nowhere |
| `BTree.FindLeaf` | src/HBTrie/hbtrie.c:321-410 | a descent that loads what it needs answers like a lookup in the flattened entries, through any number of levels |
| `BTree.OneEntry` | src/HBTrie/bnode.c:261-272 | a key has at most one entry, so the answer is determined |
| `BTree.DescendIsLookup` | src/HBTrie/hbtrie.c:321-410 | in a well-formed tree a descent finds for every key what a search of all flattened entries finds |
| `BTree.SameAnswers` | src/HBTrie/hbtrie.c:321-410 | well-formed trees with the same flattened entries answer every key alike |
| `BTree.Bnode.Insert` | src/HBTrie/bnode.c:288-297 | the entry goes in at the position the search gives |
| `BTree.Bnode.Split` | src/HBTrie/bnode.c:388-509 | fewer than four entries are refused; otherwise both halves, in order, and the key of the middle entry |
| `BTree.SplitChild` | src/HBTrie/hbtrie.c:441-474 | split a child of any node and hang the right half in: what the node then is, that it stays well formed exactly when the split key is above the separator, and when it keeps its entries |
| `BTree.SplitKeepsIff` | src/HBTrie/hbtrie.c:441-474 | the node stays well formed if and only if the split key is above the separator, and keeps its flattened entries if and only if that is so or one half holds none |
| `BTree.SplitKeyAbove` | src/HBTrie/bnode.c:398-409 | the split key is above the separator unless it is the first one and not a lower bound of the keys under it |
| `BTree.ReplaceChild` | src/HBTrie/hbtrie.c:441-474 | replacing a subtree by one with the same entries keeps the whole tree |
| `BTree.NewRoot` | src/HBTrie/hbtrie.c:478-516 | a root split keeps entries and order |
| `SplitUp.GraftIff` | src/HBTrie/hbtrie.c:441-474 | a node anywhere in a tree may be replaced, keeping entries and order, by exactly the trees with the same entries in the same range |
| `SplitUp.SplitAnywhereIff` | src/HBTrie/hbtrie.c:441-474 | a split at the end of any path keeps the whole tree well formed if and only if the split key is above the separator; when its entries stay the same, both ways |
| `SplitUp.ClimbKeeps` | src/HBTrie/hbtrie.c:441-474 | over the whole climb, entries and order are kept or the tree is broken for good, according to the split keys |
| `SplitUp.PropagateIff` | src/HBTrie/hbtrie.c:428-529 | after any number of splits up to a new root the tree is well formed if and only if every split key was above its separator, and then every key is answered as before |
| `SplitUp.TightPropagates` | src/HBTrie/hbtrie.c:428-529 | where every separator is a lower bound that is always so, and every separator is one again afterwards |
| `SplitUp.SplitAfterInsert` | src/HBTrie/hbtrie.c:542-607 | the loop over the bnodes of the descent, in place, leaves exactly that tree |
| `SplitUp.GrowRoot` | src/HBTrie/hbtrie.c:478-516 | the new root holds both halves in order |
| `SplitUp.MisplacedExample` | src/HBTrie/hbtrie.c:441-474 | a well-formed tree in which a key is found, and after a split is not |
| `TreeInsert.GrowKeeps` | src/HBTrie/bnode.c:288-297 | inserting into the leaf of the descent puts the entry at its place among all entries |
| `TreeInsert.InsertIff` | src/HBTrie/hbtrie.c:2477-2529 | insert a new key: well formed afterwards if and only if every split key was above its separator, and then the key is found with its entry and every other key as before |
| `TreeInsert.InsertEntry` | src/HBTrie/hbtrie.c:2477-2529 | descent with path, leaf insert and splits, in place, do just that; a key that is there is left alone |
| `TreeInsert.LoseKey` | src/HBTrie/hbtrie.c:441-474 | six inserts into an empty tree, the first five all found, after which an inserted key is not |
| `Scan.Iterator.Next` | src/Database/database_iterator.c:947-1375 | ends, and returns the first remaining value that is visible and not below the start, or reports the end at the first entry past it, deleted or not |
| `Scan.Iterator.Turn` | src/Database/database_iterator.c:965-1370 | one turn either decides the answer or leaves less work below the stack and the answer unchanged |
| `Scan.ShownIs` | src/Database/database_iterator.c:1030-1065 | the value a scan shows: the bytes of the first version whose id, read as one number, is at most the reader's, unless that version is a deletion; nothing if all are newer; a value without a chain always |
| `Scan.HitPath` | src/Database/database_iterator.c:1130-1161 | the hit of an entry carries the path the entry was stored under |
| `Scan.Iterator.FollowSeparators` | src/Database/database_iterator.c:366-424 | the seek through internal nodes skips only hits below the start and leaves none below it behind |
| `Scan.Iterator.PositionLeaf` | src/Database/database_iterator.c:229-288 | the leaf frame is placed so that exactly the hits below the start are skipped, or the next trie level is entered |
| `Scan.Iterator.Seek` | src/Database/database_iterator.c:320-475 | the walk is cut in two without loss; for a start without empty identifiers exactly the hits below it are skipped |
| `Scan.Iterator.constructor` | src/Database/database_iterator.c:826-898 | without a bound the whole walk remains, with one what the seek leaves |
| `Scan.ScanAll` | src/Database/database_iterator.c:826-1375 | all results of a scan, as a function of what the seek left |
| `Scan.HitsSorted` | src/Database/database_iterator.c:965-1370 | the walk meets values in strictly ascending trie order |
| `Scan.ScanExactIff` | src/Database/database_iterator.c:104-122 | stopping at the end and skipping by seek lose nothing if and only if nothing wanted is behind either |
| `Scan.ScanIff` | src/Database/database_iterator.c:320-475 | the same in terms of the stored keys and the bounds |
| `Scan.ScanExact` | src/Database/database_iterator.c:104-122 | when no stored key clashes with a bound, exactly the visible keys in range come back |
| `Scan.RangeScan` | src/Database/database_iterator.c:826-1375 | for every trie the results are a function of trie and bounds; each result is visible, not before the start and before the end; the scan equals walking everything and filtering if and only if nothing wanted lies in trie order before the start or after a met key past the end; then each key in range comes once, ascending; without clashes it is always so |
| `Scan.BoundsAre` | src/Database/database_iterator.c:104-122 | the start is included and the end is not, in the order of the first difference |
| `Scan.SnapshotScan` | src/Database/database_iterator.c:826-1375 | a range scan at one id returns the same on a trie and on that trie after any newer writes to its keys, including the first write that turns a plain value into a chain |
| `Scan.SnapshotNewKeys` | src/Database/database_iterator.c:826-1375 | on two tries in which the reader sees the same, as when keys were only added by newer writes, undisturbed scans return the same |
| `Scan.PathAscending` | src/HBTrie/path.c:171-192 | results that do not clash ascend in path order too |
| `Scan.LostKeyExample` | src/Database/database_iterator.c:320-475 | a trie with one key, in range, on which a scan returns nothing |
| `Reverse.ReverseIterator.SeekRightmost` | src/Database/database_iterator.c:1388-1474 | going down along last entries loses no value, including values above a subtree and indices that wrap |
| `Reverse.ReverseIterator.Turn` | src/Database/database_iterator.c:1561-1876 | one turn either yields the next value from behind or leaves less work and the answer unchanged |
| `Reverse.ReverseIterator.Prev` | src/Database/database_iterator.c:1546-1880 | returns the next visible value from behind |
| `Reverse.ReverseIterator.constructor` | src/Database/database_iterator.c:1476-1544 | what remains at the start is the whole walk reversed |
| `Reverse.ScanAllReverse` | src/Database/database_iterator.c:1476-1880 | the unbounded reverse scan yields the unbounded forward scan's results reversed |
| `Reverse.SnapshotReverse` | src/Database/database_iterator.c:1476-1880 | so does the reverse scan |
| `Reverse.ReverseIsReverse` | src/Database/database_iterator.c:1546-1880 | filtering the reversed walk is the reverse of filtering the walk |
| `Seqlock.StepInv` | src/HBTrie/mvcc.c:80-116 | every step of every thread keeps the seqlock invariant |
| `Seqlock.ReadIsWhole` | src/HBTrie/mvcc.c:80-116 | a completed read returns one whole value that was current at every moment between its two sequence loads |
| `Seqlock.CommitStep` | src/HBTrie/mvcc.c:102-116 | every step of commits and reads keeps published values rising and taken from commits |
| `Seqlock.LastCommitted` | src/HBTrie/mvcc.c:240-259 | over every run the last committed id never falls, covers every finished commit, and is initial or committed |
| `Seqlock.CommitPublishes` | src/HBTrie/mvcc.c:238-259 | once the thread that began a commit has left it, the published id is at least the committed one ever after |
| `Seqlock.ReadsRise` | src/HBTrie/mvcc.c:80-116 | a read that begins after another has ended returns an id at least as great |
| `Seqlock.ReadsCover` | src/HBTrie/mvcc.c:238-259 | a read that begins after a commit has finished returns at least its id; every read returns the initial or a committed id |
| `Seqlock.FailedSwap` | src/HBTrie/mvcc.c:102-116 | a failed swap means the value was raised by a commit since it was read |
| `Seqlock.RetriesBounded` | src/HBTrie/mvcc.c:242-259 | over every run, the failed swaps of a commit that is under way are at most as many as commits were begun |
| `TxManager.RemovedIs` | src/HBTrie/mvcc.c:261-272 | swap-and-pop removes that transaction and no other |
| `TxManager.FindMin` | src/HBTrie/mvcc.c:284-290 | the least id of a non-empty shard |
| `TxManager.SentinelIffEmpty` | src/HBTrie/mvcc.c:276-294 | a shard's minimum is the sentinel exactly when the shard is empty |
| `TxManager.Manager.Begin` | src/HBTrie/mvcc.c:185-224 | adds the transaction, keeps all minima right, leaves the global minimum alone |
| `TxManager.Manager.RecomputeGlobalMin` | src/HBTrie/mvcc.c:450-472 | the least active id, or the last committed one when none is active |
| `TxManager.Manager.Commit` | src/HBTrie/mvcc.c:226-310 | removes the transaction, raises the last committed id, recomputes the cutoff only when due; refuses a finished transaction |
| `TxManager.Manager.Abort` | src/HBTrie/mvcc.c:312-377 | the same without the last committed id |
| `TxManager.Manager.GetMinActive` | src/HBTrie/mvcc.c:379-399 | the cutoff never exceeds an active id, nor any id handed out later |
| `TxManager.Run` | src/HBTrie/mvcc.c:185-399 | over every run the shards hold exactly the unfinished transactions and the cutoff is at or below them |
| `TxManager.CutoffFreezes` | src/HBTrie/mvcc.c:464-468 | a run after which no active transaction has the cutoff as its id |
| `TxManager.StaysFrozen` | src/HBTrie/mvcc.c:185-399 | from then on the cutoff is the same over every run |
| `TxManager.MovesOn` | src/HBTrie/mvcc.c:298-307 | a cutoff that is unset, or that some active transaction has as its id, can still move: the next question sets it, or that one's commit raises it |
| `CutoffScan.SafeScheduleIff` | src/HBTrie/mvcc.c:450-472 | under every interleaving of the scan with begins, commits and aborts: the cutoff is at or below every active id if and only if, for each transaction that began behind the scan and is active, the scan met an id at or below it, or met none and nothing above it was committed meanwhile |
| `CutoffScan.AnchoredScanSafe` | src/HBTrie/mvcc.c:450-472 | if a transaction is active when the scan starts and when it ends, the cutoff is safe, whatever began meanwhile |
| `CutoffScan.QuietScanSafe` | src/HBTrie/mvcc.c:450-472 | if no transaction begins in a shard already passed, the cutoff is safe, whatever commits or aborts meanwhile |
| `CutoffScan.UnsafeScanExample` | src/HBTrie/mvcc.c:450-472 | a run in which the scan stores a cutoff above an active id |
| `VersionChain.Chain.FindVisible` | src/HBTrie/bnode.c:584-632 | the newest version at or below the reader, unless it is a deletion; in numbers, never a version later than the reader, and none only if the first version not later than the reader is a deletion or there is none |
| `VersionChain.Chain.Add` | src/HBTrie/bnode.c:634-652 | the version goes in front, links both ways |
| `VersionChain.Chain.Detach` | src/HBTrie/bnode.c:671-683 | unlinking one version keeps the rest linked |
| `VersionChain.Chain.Collect` | src/HBTrie/bnode.c:654-690 | what remains, how many went, and the links |
| `VersionChain.CollectedExactly` | src/HBTrie/bnode.c:654-690 | on a newest-first chain exactly the head and versions at or above the cutoff remain |
| `VersionChain.ReadKeptIff` | src/HBTrie/bnode.c:584-690 | collection leaves a read unchanged if and only if what the reader saw was not a live, non-newest version below the cutoff; else the reader finds nothing |
| `VersionChain.AllAddedAbove` | src/HBTrie/bnode.c:634-652 | versions with ids above the reader never change its read |
| `VersionChain.LostReadExample` | src/HBTrie/bnode.c:654-690 | a reader above the cutoff that loses its version |
| `Codec.Encode` | src/Database/database.c:128-257 | the bytes of a put or delete, each at its position, in the layout the decoder inverts |
| `Codec.PayloadLayout` | src/Database/database.c:123-257 | every byte of a payload: magic, count and total length, each identifier behind its length, the value behind its length, lengths most significant byte first |
| `Codec.FrameLayout` | src/Database/wal_manager.c:1252-1266 | every byte of a frame: kind, time, nanoseconds, count, checksum, length, data |
| `Codec.LoggedLayout` | src/Database/wal_manager.c:1217-1266 | the frame of a put begins with p, of a delete with d, and carries the id and the payload |
| `Codec.Decode` | src/Database/wal_manager.c:74-210 | for every byte string, an entry or a refusal, as the decoding that the round trip is stated on |
| `Codec.PayloadRoundTrip` | src/Database/wal_manager.c:74-210 | every operation within the field limits decodes to itself, an empty value to none |
| `Codec.DecodedIff` | src/Database/wal_manager.c:74-210 | decoding accepts exactly the strings that begin with the encoding of an entry within the field limits, and returns that entry |
| `Codec.FirstFrameIff` | src/Database/wal_manager.c:344-420 | a frame is read if and only if its bytes, with the checksum of its data, are there |
| `Codec.EntryKinds` | src/Database/wal_manager.c:1739-1863 | only frames of the kinds p and d become entries, each of its own sort |
| `Codec.ReadWalFile` | src/Database/wal_manager.c:321-433 | what is read is a prefix of the file, frame by frame with fitting checksums, and behind it no whole frame begins |
| `Codec.ReadCut` | src/Database/wal_manager.c:321-433 | cut at any byte, a log reads back as exactly the frames wholly there |
| `Codec.LogRoundTrip` | src/Database/wal_manager.c:321-433 | encode, frame, cut anywhere, read and decode: exactly the wholly present operations with their ids |
| `ThreadWal.Wal.Flush` | src/Database/wal_manager.c:263-302 | the buffered frames move to the file, synced in immediate mode |
| `ThreadWal.Wal.Rotate` | src/Database/wal_manager.c:1126-1215 | the current file becomes a sealed one, wholly on disk |
| `ThreadWal.Wal.Place` | src/Database/wal_manager.c:1306-1413 | buffered or written through: exactly how many bytes stay in the 4096-byte buffer and how much of the file is synced; the file stays below its limit unless it holds one frame |
| `ThreadWal.Wal.Write` | src/Database/wal_manager.c:1217-1418 | sealed files, file and buffer hold the accepted frames in order, none split; in immediate mode all on disk on return; a file is sealed exactly when the frame would make it reach its limit, and then holds what file and buffer held |
| `ThreadWal.Wal.Drain` | src/Database/wal_manager.c:229-260 | the idle timer empties the buffer; debounced mode syncs |
| `ThreadWal.Wal.Seal` | src/Database/wal_manager.c:1420-1473 | everything accepted is in sealed files |
| `ThreadWal.Run` | src/Database/wal_manager.c:1217-1473 | over every run of writes and timer events the files and the buffer hold the given frames in order, and after a seal the sealed files alone do |
| `ThreadWal.FileReads` | src/Database/wal_manager.c:321-433 | a log file reads back as exactly its frames |
| `Recovery.GreatestWins` | src/Database/wal_manager.c:1594-1863 | an untouched key keeps its value; with one record per id, a key gets the effect of the greatest id that touches it |
| `Recovery.LaterTimeWins` | src/Workers/transaction_id.c:114-136 | a record later in time than all others on its key decides it, whatever the nanoseconds and counts |
| `Recovery.SameRecordsSameStore` | src/Database/wal_manager.c:1520-1600 | distribution over files and double reading do not matter |
| `Recovery.CheckpointHarmless` | src/Database/database.c:2007-2049 | replaying a log over a checkpoint holding some of it gives the same store as over the older base |
| `Recovery.SortRecs` | src/Database/wal_manager.c:1594-1600 | sorted by id read as one number, the same records |
| `Recovery.Recover` | src/Database/wal_manager.c:1594-1874 | the store after recovery is a sorted replay of all records read, and the last committed id the greatest of them |
| `Recovery.RecoveryDetermined` | src/Database/wal_manager.c:1520-1600 | any two recoveries of the same records end in the same store |
| `Compaction.LogDir.Compact` | src/Database/wal_manager.c:1980-2124 | at every crash point recovery would replay the same set of records as before; at the end every sealed file is marked and gone and one new sealed file holds their records sorted; it ends exactly when it is given a step per record, two per sealed file and one for the new entry |
| `Compaction.LogDir.DropSealed` | src/Database/wal_manager.c:1940-1978 | stopped anywhere, exactly the records of the files not yet removed are left, which files those are, and when it ends; then all sealed files are marked and gone and nothing else changed |
| `Compaction.ThreadNameIs` | src/Database/wal_manager.c:452-456 | the scan accepts exactly the names that begin with thread_ and end in .wal |
| `Restart.ReadDir` | src/Database/wal_manager.c:1520-1592 | the records read, entry by entry of the manifest and then from the scan, are exactly those of the files recovery selects |
| `Restart.RestoredBy` | src/Database/wal_manager.c:1594-1863 | with one record per id the restored store depends on the set of records only |
| `Restart.RecoverDir` | src/Database/wal_manager.c:1475-1891 | recovering a directory gives the store its set of records gives |
| `Restart.CrashKeepsStore` | src/Database/wal_manager.c:1980-2124 | compaction stopped anywhere does not change what a restart of the directory restores |
| `Restart.CloseKeepsIff` | src/Database/wal_manager.c:1940-1978 | replaying some of the records over the checkpoint of all is harmless if and only if every key they touch gets from them what all gave it |
| `Restart.CloseAndRestart` | src/Database/wal_manager.c:1940-1978 | close a directory, stop anywhere, restart: the store afterwards, and when it is the checkpoint |
| `Restart.SafeToCloseIff` | src/Database/wal_manager.c:1940-1978 | every crash point of a close is harmless if and only if no prefix of the sealed files, in manifest order, leaves a key with an older effect |
| `Restart.OldestFirstSafe` | src/Database/wal_manager.c:1940-1978 | sealed files in the order of their ids are safe to close |
| `Restart.CloseExample` | src/Database/wal_manager.c:1940-1978 | a directory and a crash on close after which a restart brings back an older value |
| `Durability.RecsOfOps` | src/Database/wal_manager.c:1740-1858 | recovery's records are the logged operations on flattened keys |
| `Durability.CrashAndRecover` | src/Database/wal_manager.c:1475-1891 | with the current file cut at any byte that was not yet synced, recovery of one thread's files, written with ascending ids, applies exactly the operations wholly there; in immediate mode those are all accepted ones |
| `Durability.RecoveredIsLiveIff` | src/Database/wal_manager.c:1740-1858 | replaying a log gives the live store if and only if no key's last operation put an empty value that nothing else in log or base accounts for |
| `Durability.RestartIsLive` | src/Database/wal_manager.c:1475-1891 | the same for a log in immediate mode after a crash at any moment |
| `Durability.ForgottenExample` | src/HBTrie/hbtrie.c:2414-2416 | one put of an empty value at a new key is forgotten |
| `Lru.Shard.MoveToFront` | src/Database/database_lru.c:121-148 | the entry becomes the most recent, order of the others and the map unchanged |
| `Lru.Shard.Evict` | src/Database/database_lru.c:151-183 | the least recent entry leaves list, map and byte count |
| `Lru.Shard.Get` | src/Database/database_lru.c:366-386 | the cached value or none; a hit moves to the front and changes no answer |
| `Lru.Shard.Put` | src/Database/database_lru.c:388-454 | replace in place and move to the front, or insert after evicting from the old end; after an insert within budget or alone |
| `Lru.Shard.Delete` | src/Database/database_lru.c:456-492 | the entry leaves list, map and counts |
| `Lru.TrimmedIs` | src/Database/database_lru.c:417-424 | eviction drops from the old end no more than it has to |
| `Lru.FindIs` | src/Database/database_lru.c:366-386 | hash map and recency list agree on what is cached |
| `SyncDb.Db.Put` | src/Database/database.c:2557-2597 | cache and store afterwards; agreement is kept exactly when the trie takes the path and no path that stays cached shares its place with another value |
| `SyncDb.EffectiveIs` | src/HBTrie/hbtrie.c:2896-2960 | every path built from at least one identifier is taken, and one that is taken has a place |
| `SyncDb.Db.Get` | src/Database/database.c:2685-2715 | the cached value if there is one, else the store's; with an agreeing cache it is the store's, and agreement is kept |
| `SyncDb.Db.Delete` | src/Database/database.c:2772-2801 | cache and store afterwards; agreement is kept exactly when no other cached path shares the place |
| `SyncDb.Db.Increment` | src/Database/database.c:2855-2916 | if printed numbers are read back, the number at the path's place grows by delta and is returned, and no other place changes; agreement is kept exactly as for a put |
| `SyncDb.IncrementAdds` | src/Database/database.c:2858-2880 | the same of the store alone, and on a path the trie does not take |
| `SyncDb.CounterSum` | src/Database/database.c:2855-2916 | over every run in which only increments write at a place, its number grows by the sum of their deltas, whatever else runs between them |
| `SyncDb.Db.Batch` | src/Database/database.c:3083-3113 | the operations in order, each dropped from the cache; agreement is kept exactly when every place of a path that stays cached ends with the cached value |
| `SyncDb.Run` | src/Database/database.c:2557-3113 | over every run each reply and the state at the end; while every operation is harmless each reply is the bare store's, whatever is evicted |
| `SyncDb.ReadYourWrite` | src/Database/database.c:2557-2801 | whatever is cached and whatever shares the place: a get after a put, a delete or an increment of the path returns the value, nothing, or the number |
| `SyncDb.ReadYourBatch` | src/Database/database.c:3083-3113 | a get after a batch returns what its last operation on the place left |
| `SyncDb.PutAgreesIff` | src/Database/database.c:2581-2589 | a put keeps agreement if and only if the trie takes the path and what stays cached at its place has the same value |
| `SyncDb.DeleteAgreesIff` | src/Database/database.c:2788-2792 | a delete keeps agreement if and only if no other cached path shares the place |
| `SyncDb.BatchAgreesIff` | src/Database/database.c:3100-3110 | a batch keeps agreement if and only if at every place of a path that stays cached it leaves what was there or the cached value |
| `SyncDb.StepAgreesIff` | src/Database/database.c:2557-3113 | any one operation keeps agreement if and only if it is harmless |
| `SyncDb.RunAgreesIff` | src/Database/database.c:2557-3113 | over every run cache and store agree throughout if and only if every operation is harmless where it is applied |
| `SyncDb.SeparateRun` | src/Database/database.c:2557-3113 | on paths that the trie takes and tells apart every operation of every run is harmless |
| `SyncDb.StaleAnswer` | src/Database/database.c:2581-2589 | for all two paths with one place: put the one, put the other, and the first is answered with its old value |
| `SyncDb.SharedPlaceExample` | src/Database/database.c:2581-2589 | a run after which a get through the cache answers otherwise than the store |

## Left out

- NodeStore.PageFile.WriteNode: a record is stored whole or not at all; block layout, the limit on blocks per node, caching and checksums of the page file are not modelled, nor a part of a node left behind by a failed write.
- NodeStore.PageFile.WriteSuperblock: the superblock is one slot that names the root; the alternating slots and the transaction id stored beside it are not modelled.
- Flush.FlushDirtyBnodes: stale-byte accounting; and a child that one flush dropped from its record and that is loaded before the next flush, which then finds a record that is neither mirror nor serialisation.
- Vacuum.VacuumBnode: its own lazy loading is dead after phase 1 and is not repeated; read errors of the old file are not modelled.
- VacuumWalk.VacuumRewrite: levels of stored nodes fall towards the leaves and fit their 16-bit field; not modelled are the empty trie and the table of old and new offsets.
- VacuumWalk.VacuumRun: the swap does not fail, draining and garbage collection before it are left out, and nothing is said of memory after a failed rewrite, whose offsets then name a file that is gone.
- BTree.FindLeaf: every child can be loaded; a descent that stops at a child that cannot is not modelled.
- SplitUp.SplitAfterInsert: bnodes off the path are values, and a parent's copy of its child is brought up to date where the code shares a pointer; nodes higher than the 32 levels a path can record are left out.
- TreeInsert.InsertEntry: a key that is already there, the locks and the retries around loading; removal of entries.
- Scan.Iterator.Seek: giving up on a node that cannot be loaded; all children are available. For a start with an empty identifier only that nothing is lost or reordered is stated.
- Scan.Iterator.Next: subtree iterators (prefix stripping), stored metadata that count more chunks than there are, and failures of memory allocation.
- Reverse.ReverseIterator.Prev: reverse scans with bounds, whose seek to the end does not refine the plain filter.
- Seqlock.StepInv: steps are sequentially consistent and the 64-bit sequence number does not wrap; spinlock fairness is not modelled.
- TxManager.Manager.RecomputeGlobalMin: runs as one step; the unlocked scan, one at a time, is `CutoffScan.SafeScheduleIff`. The per-shard counter beside the list is not modelled.
- TxManager.Manager.Begin: id allocation and registration are one step, because the code relies on ids arriving in order.
- Codec.ReadWalFile: encryption, and payloads in CBOR (batches and the legacy format); the checksum is any function of the data.
- ThreadWal.Wal.Write: I/O failures, the limit on sealed files, timers as such; log file names are unique.
- Recovery.Recover: stores are maps from keys to values, so version chains rebuilt by replay are not compared; which files are read is `Restart.ReadDir`.
- Compaction.LogDir.Compact: a manifest entry is appended whole and the manifest is readable (no size limit, no damaged entry); other threads do not rotate meanwhile.
- Restart.RecoverDir: no two different records have one transaction id.
- Durability.CrashAndRecover: the log of one thread, without batches.
- Lru.Shard.Put: an update of a cached path is not followed by eviction, as in the code; hashing of paths to shards is left out.
- SyncDb.Db.Increment: number parsing and printing are parameters, so 64-bit overflow is not modelled.
- Configuration, thread pools, timing wheels, reference counts, memory pools, bindings and the network layers.
