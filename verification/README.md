# tgnas: a verified model of the storage engine

tgnas is an S3 and WebDAV gateway that keeps object bytes as Telegram messages and object and chunk rows in SQLite. This
project models the engine under its HTTP shells in Dafny and proves what the engine is for: listings that neither lose
nor repeat a key, ranged reads that return exactly what was written, tables that stand for one map, locks that exclude,
uploads that complete once, and messages that are never deleted from under a live object.

## How the model is laid out

| files | what they model |
|---|---|
| `ByteStrings`, `SortedInts`, `SortedKeys`, `Sorting`, `Metadata` | byte strings and their order, sorting, the two row types |
| `Like`, `Scan`, `Grouping`, `Listing`, `BucketListing`, `Children` | the LIKE prefix test, the listing query, delimiter grouping, paged S3 listings, WebDAV and command-line listings |
| `Ranges`, `RangeHeader`, `Strategy`, `Telegram`, `Chunks`, `Uploads`, `Multipart` | range headers, chunk layout on the way in and out, multipart parts |
| `Tables`, `SQLiteStore`, `Rename`, `PrefixCopy`, `MetadataStore` | the two tables as keyed maps, the transactions over them, and the store object that runs them |
| `KeyedLocker`, `UploadGate`, `MultipartProtocol`, `DeleteRaces` | the concurrent protocols, as step systems over any number of calls |
| `Ownership`, `Gateway`, `GatewaySteps`, `CompletionStep`, `Relocations`, `GatewayRuns`, `Store` | the whole store as one state, its runs, and the object whose methods take its steps |
| `PercentCoding`, `SigV4`, `CopySource` | percent-encoding, the canonical query string, the copy-source header |

Code that loops or updates state in place is a method with its loop, or a class whose methods change its fields; each is
proved equal to, or a step of, a specification about which the theorems are then proved. Concurrency is a step system:
one step per critical section, and the theorems hold for every interleaving.

The main results:

* `Listing.WalkIsOnePass`: following the continuation of a delimited listing yields the one-pass grouping, each key and
  each common prefix once, and `Listing.Walk` always comes to that end; `BucketListing.WalkShowsTheBucket` ties that to
  what the store holds, and `Children.ListingsAgree` to WebDAV and the command line.
* `GatewayRuns.RunRefines`: every run of requests refines a map from keys to bodies; `LastPutIsRead` and
  `LastCompletionIsRead` say what a GET then streams. Where ownership of messages fails is stated exactly:
  `CopySharesMessages`, `CopyPrefixSharesMessages`, `HalfDeletedIff`, `Store.ObjectStore.PutObject`.
* `KeyedLocker.LockerIsSafe`, `UploadGate.GateIsSafe`, `UploadGate.CoolDownIsWaitedOut`,
  `MultipartProtocol.CompletionIsSafe`, `MultipartProtocol.AbortIsFinalIff`, `DeleteRaces.DeletesRaceSafely`,
  `DeleteRaces.MoveIsSafeIff`: safety over all runs, and exactly what breaks it; `KeyedLocker.LockerIsLive` and
  `UploadGate.GateIsLive`: nobody waits without a cause.
* `PrefixCopy.CopyPrefixMeaning` and `MovePrefixMeaning`: prefix copies and moves do what they should if and only if a
  stated condition holds, with inputs for which they do not.
* `SigV4.SameCanonicalIff`: two queries canonicalise alike if and only if they say the same; `CanonicalAscends` and
  `CanonicalSaysTheSame`: in ascending order, and what the query says.

## Assumptions

* Keys are byte strings in lexicographic order. An empty key is never listed, because `key > ''` is part of the query.
* The tables do not change during a page walk, and each metadata transaction is atomic.
* Every message Telegram accepts gets a number never used before, which stands for its message id and its file id; a
  document downloads as the bytes uploaded, and other media types as whatever Telegram made of them. Which sends
  succeed, which of them report the size of what was kept, and how deletions are answered are arbitrary functions of the
  call number; a reported size is the right one.
* Telegram answers a send with the media type that was asked for. The rows record the type in its answer
  (store/store.go:1225-1236), which is therefore taken from the strategy.
* MD5 and SHA-256 are arbitrary functions. Upload ids and new mutex objects are fresh. The clock does not run backwards.
* SQLite's LIKE folds ASCII case, since no pragma says otherwise (metadata/sqlite.go:77-84). The listing theorems
  therefore take "no row of the table is a case variant of the prefix" as a hypothesis, and `Scan.SelectIsExact` shows
  that this is exactly what the prefix test needs.
* Sizes and offsets are unbounded integers; only the range parser's int64 limits are modelled.

## Where the code does less than one would expect

* `CopyPrefix` reads each chunk list after earlier turns of its loop have written. When a target is also a later source
  ("a" to "aa"), the copy carries the wrong chunks (`PrefixCopy.CopyOntoALaterSource`); the WebDAV handler keeps callers
  away from this by refusing a copy into its own subtree (internal/dav/handler.go:262-265).
* `MovePrefix` deletes with the case-blind prefix test, so a move from "a/" to "A/", which that check lets through,
  loses the objects, and with overwrite never fails (`PrefixCopy.CaseOnlyMoveLosesObjects`).
* Copies within one bot and chat share messages with their source: the S3 copy (`GatewayRuns.CopySharesMessages`), the
  WebDAV copy of an object (`GatewayRuns.DavCopySharesMessages`) and of a collection
  (`GatewayRuns.CopyPrefixSharesMessages`). Deleting the source takes the copy's bytes away (`GatewayRuns.CopyLosesItsBytes`).
* A deletion refused half way through `DeleteObject` leaves the rows. The store is then sound iff every deletion before it
  was answered "too old" (`GatewayRuns.HalfDeletedIff`); one answered "deleted" is enough to break it
  (`GatewayRuns.DeletedThenRefusedDangles`).
* A prefix copy takes case variants of the source prefix along, to the target prefix followed by their whole key
  (`PrefixCopy.CopyTakesCaseVariants`).
* `DeleteObject` and moves take no key lock. Deletes race safely with puts, completions and safe moves
  (`DeleteRaces.DeletesRaceSafely`). A move is safe iff it takes no message that is gone, or that a delete or a cleanup
  is still to delete, to a key where neither a delete that read it nor a put yet to overwrite that key accounts for it
  (`DeleteRaces.MoveIsSafeIff`; a prefix move is one move of many objects). Two moves that are not: during a delete of
  the object (`DeleteRaces.MoveDuringDeleteDangles`), and during an overwriting put or completion of it, which reads the
  replaced messages first and deletes them last (store/store.go:243-249, 505-508;
  `DeleteRaces.MoveDuringPutDangles`).
* A typed upload for which Telegram reports no size keeps the declared size, MD5 and SHA-256. The put is then sound iff
  what Telegram kept happens to be of that size (`Store.ObjectStore.PutObject`); `Store.UnreportedPutDangles` is one that
  is not.
* An abort is final iff no completion of the upload has validated and not yet written
  (`MultipartProtocol.AbortIsFinalIff`); one that has can be reached (`MultipartProtocol.ValidatedIsReachable`).
* A suffix range whose length does not fit int64 is refused although RFC 9110 gives it a meaning
  (`RangeHeader.HugeSuffixIsRefused`).

## Model

| member | source | states |
|---|---|---|
| `ByteStrings.LtMeaning` | metadata/sqlite.go:258-290 | A key comes before another iff, where they first differ, it ends or has the smaller byte |
| `ByteStrings.PrefixContiguous` | store/store.go:931-957 | Keys sharing a prefix are contiguous in byte order, which skipping the rest of a group relies on |
| `Like.EscapedPatternIsPrefixTest` | metadata/sqlite.go:818-825 | For every prefix, wildcards and backslashes included, and every character equality, the escaped pattern followed by a percent sign accepts exactly the keys that start with the prefix up to that equality |
| `Like.WildcardsNeedEscaping` | metadata/sqlite.go:818-825 | Left unescaped, an underscore would match any byte and a percent sign any key |
| `Like.FoldEqMeaning` | metadata/sqlite.go:258-290 | Two bytes count as one for LIKE iff they are equal or the two cases of one ASCII letter |
| `Like.SqlPrefixMeaning` | metadata/sqlite.go:258-290 | Under ASCII folding the query's test accepts a key iff it starts with the prefix or is a case variant of it |
| `Scan.SelectIsExact` | metadata/sqlite.go:258-290 | The query returns exactly the rows under the prefix iff the table holds no case variant of it |
| `Scan.SelectSorted` | metadata/sqlite.go:258-290 | What the query selects is in strictly ascending key order |
| `Scan.QueryIsWindow` | metadata/sqlite.go:258-290 | A query from a cursor is the window of the matching rows right after the cursor, of the limit's size, or of 1000 rows without a positive limit |
| `Grouping.GroupMeaning` | store/store.go:862-903 | A key under the prefix is grouped iff a delimiter follows the prefix, and then under itself up to the end of the first one |
| `Grouping.ExtendingAGroup` | store/store.go:862-903 | A key that extends a common prefix has that same common prefix, for delimiters of any length |
| `Grouping.GroupContiguous` | store/store.go:931-957 | In a sorted listing the rows of one common prefix are contiguous |
| `Grouping.GroupsAscend` | store/store.go:862-903 | Common prefixes come out in strictly ascending order |
| `Grouping.GroupsAreTheGroups` | store/store.go:862-903 | The grouping lists every common prefix that has a row, and lists it once |
| `Grouping.UngroupedAreTheRest` | store/store.go:862-903 | The grouping's objects are exactly the rows outside every common prefix, in order |
| `Grouping.RestOfGroupIsSilent` | store/store.go:931-957 | Further rows of a listed group change neither the objects nor the common prefixes |
| `Listing.AdvanceContinuationPastPrefix` | store/store.go:931-957 | The cursor moves to the last row of the group and no further, and says whether a matching row follows; it terminates |
| `Listing.GroupBatch` | store/store.go:846-904 | One fetched batch is consumed row by row into the result; it stops only at a full page that splits no group, or at the end of the batch |
| `Listing.ListObjects` | store/store.go:815-926 | A page lists exactly the grouping of the rows it consumes, holds at most limit entries, is exactly full if rows remain, never splits a group, and is truncated iff a matching key follows its continuation; the loops terminate |
| `Listing.WalkFrom` | store/store.go:815-957 | From any cursor, the pages of a walk concatenate to the grouping of the rows beyond it, over at most as many pages as rows |
| `Listing.OnePassMeaning` | store/store.go:815-926 | The one-pass grouping spelled out by membership and order, for empty, one-byte and longer delimiters |
| `Listing.Walk` | store/store.go:815-957 | Following the continuation from page to page while a page is truncated always ends, for every limit of at least 1, and is a walk |
| `Listing.WalkIsOnePass` | store/store.go:815-957 | For every table, prefix, delimiter and limit of at least 1, the concatenated pages are every ungrouped key once, ascending, and every common prefix once, ascending |
| `Listing.ListAll` | store/store.go:815-957 | Listing page after page from the start returns exactly the one-pass grouping |
| `Listing.CaseVariantExample` | metadata/sqlite.go:258-290 | With "A" in the bucket a listing of the prefix "a" shows it |
| `BucketListing.BucketRowsMeaning` | metadata/sqlite.go:258-290 | A bucket's rows in key order are exactly the rows of its table entries |
| `BucketListing.WalkShowsTheBucket` | store/store.go:815-957 | In a sound store a walk shows exactly the objects the store means, each with the size of its body, in or outside its group |
| `Children.ListAllObjects` | metadata/sqlite.go:470-484 | Pages of 1000 until an empty one add up to all matching rows |
| `Children.CollectionChildren` | internal/dav/fs.go:331-356 | The children are those of the matching rows, one directory per first segment, sorted by name |
| `Children.ChildrenAreGroups` | internal/dav/fs.go:331-356 | Row by row, WebDAV's directories are the "/" groups with the prefix stripped, its files the ungrouped objects without the marker |
| `Children.DirectoryTimes` | internal/dav/fs.go:331-356 | A directory bears the modification time of the first row in its group |
| `Children.ChildrenAscend` | internal/dav/fs.go:331-356 | No child is listed twice and names strictly ascend |
| `Children.WriteCommonPrefixes` | cmd/tgnas/main.go:440-473 | For any page size, lsd prints the groups in order but for the one with an empty segment |
| `Children.WriteObjectKeys` | cmd/tgnas/main.go:258-297 | For any page size, ls prints the matching keys in order, cut at a positive limit |
| `Children.ListingsAgree` | internal/dav/fs.go:331-356 | WebDAV directories are the S3 common prefixes stripped, WebDAV files the S3 objects but the marker, lsd the S3 common prefixes but the one with an empty segment |
| `RangeHeader.AcceptedRangesAreInBounds` | store/range.go:20-72 | Any accepted header gives 0 <= start <= end < size |
| `RangeHeader.AcceptedShape` | store/range.go:20-72 | No header means the whole of a non-empty object; an accepted header is "bytes=", a number or nothing, a dash, a number or nothing, not both nothing, and holds no comma |
| `RangeHeader.ParseInt64Meaning` | store/range.go:20-72 | A numeral is digits with an optional sign, and is refused exactly beyond int64 |
| `RangeHeader.ParseMeetsRfc` | store/range.go:20-72 | For digit strings the parser gives the single-range meaning of section 14.1.2 of RFC 9110, clamping included, iff the numeral to be clamped fits int64 |
| `RangeHeader.ParseUndoesPrint` | store/range.go:20-72 | Parsing the decimal rendering of an in-bounds range gives the range back |
| `RangeHeader.HugeSuffixIsRefused` | store/range.go:20-72 | A suffix length beyond int64 is refused although it has a meaning |
| `Ranges.SelectChunksForRange` | store/range.go:87-105 | The loop computes the selection chunk by chunk, in order |
| `Ranges.SelectedIffOverlapping` | store/range.go:87-105 | A chunk is selected iff it holds a byte of the range |
| `Strategy.ResolveMeaning` | store/upload_strategy.go:23-72 | Which files are refused, go out under their own type, as one document or in chunks, and in chunks of what size |
| `Strategy.ResolvedStrategiesAreUsable` | store/upload_strategy.go:23-72 | A chunked strategy has a positive chunk size and is a document, the later limit check never rejects an unchunked one, and refusal happens exactly when no strategy fits |
| `Telegram.Client.Upload` | store/store.go:1406-1419 | A send that goes through adds one document under a new number and changes no other, and may or may not report its size; one that fails changes nothing |
| `Telegram.Client.DeleteMessage` | store/store.go:1001-1029 | The answer decides whether that one message is gone; nothing else changes |
| `Uploads.HexMeaning` | store/store.go:1326-1327 | Hashes are recorded as two lower-case hex digits a byte, high half first |
| `Uploads.CeilDivMeaning` | store/store.go:262 | The chunk count is the least number of chunks that holds the body |
| `Uploads.PutChunked` | store/store.go:1248-1325 | Succeeds iff the body has the declared size and all sends are accepted; then ceil(size/chunkSize) rows of 1..chunkSize bytes, numbered from 1 at running offsets and full but for the last, hold exactly the body in new messages, each labelled with its own hash |
| `Uploads.ProgressStep` | store/store.go:1264-1316 | The loop sends another chunk only while fewer than ceil(size/chunkSize) have gone out, and ends at exactly that many |
| `Chunks.StreamObject` | store/store.go:646-702 | GetObject's loop downloads the selected chunks in order and sends their windows, up to the first that cannot be downloaded |
| `Chunks.RangeStreamsSlice` | store/store.go:661-693 | Over a contiguous layout, a range streams exactly its slice of the body and the Take values add up to its length |
| `Chunks.WholeStreamsBody` | store/store.go:646-693 | Without a range the whole body is streamed |
| `Chunks.DocumentIsSlice` | store/store.go:1248-1325 | Each document of a layout is the stretch of the body its row's offset and size describe |
| `Chunks.ReadIsExact` | store/store.go:632-702 | A read streams exactly the requested bytes, ByteRange.Length of them, and touches only chunks holding one |
| `Multipart.UploadPartChunks` | store/store.go:399-477 | Succeeds iff the part has the declared size and all its sends are accepted; then its chunks, all but the last of the clamped chunk size, hold exactly the part's body in new messages |
| `Multipart.PartChunkSizeIsLargest` | store/store.go:401-411 | A part's chunk size is the largest within the configured or default one and the document limit |
| `Multipart.EtagMatchesMeaning` | store/store.go:547-549 | Texts without outer quotes match, however each is quoted, iff they are equal |
| `Multipart.EtagMatchesIff` | store/store.go:547-549 | Two ETags match iff both are one text in any number of outer quotes |
| `Multipart.CompletesIff` | store/store.go:530-545 | A request goes through iff its numbers ascend strictly from above 0 and every part is stored under its ETag, quotes aside, and then picks exactly those parts |
| `Multipart.WrongPartIsRefused` | store/store.go:530-545 | After good parts, one out of order is InvalidPartOrder, and one missing or stored under another ETag is InvalidPart |
| `Multipart.CompleteParts` | store/store.go:530-545 | Accepts iff part numbers are positive and strictly ascend and every listed part is stored under its ETag, and picks those parts; the first offence decides the error, order before content |
| `Multipart.CompletesIsFunctional` | store/store.go:530-545 | The answer, error included, is settled by the part map and the request |
| `Multipart.ListedPartsAscend` | store/store.go:530-545 | An accepted request lists each part number at most once, ascending, from 1 |
| `Multipart.BuildMultipartObject` | store/store.go:551-593 | The object's rows are those of the parts' chunks in order, numbered from 1 at running offsets, its size the sum of the part sizes |
| `Multipart.RowsCarryChunks` | store/store.go:551-593 | Each row carries its chunk's type, ids, size and hash unchanged |
| `Multipart.MultipartETagMeaning` | store/store.go:595-601 | The ETag reads as the hash of the parts' hashes joined in order, a dash, and the number of parts |
| `Multipart.RowsHold` | store/store.go:551-593 | The rows built from a chunk list form a contiguous layout holding the chunks' content |
| `Multipart.CompletedObjectHolds` | store/store.go:551-593 | However the parts were chunked, empty ones included, the built rows hold the concatenation of their bodies and the sizes agree |
| `Tables.PutEffect` | metadata/sqlite.go:162-199 | A put of rows in ascending part order succeeds, replaces that object and its rows, and leaves every other listing alone |
| `Tables.DeleteEffect` | metadata/sqlite.go:292-306 | A delete takes away one object and its rows |
| `Tables.ListingIsUnique` | metadata/sqlite.go:201-246 | The rows of an object in part order are one list only |
| `Tables.DuplicatePartsAreRefused` | metadata/sqlite.go:162-199 | Two rows of one part number break the primary key |
| `SQLite.NoOrphanRows` | metadata/sqlite.go:162-199 | In well-formed tables every chunk row has its object and a part number within the chunk count |
| `SQLite.PutRefines` | metadata/sqlite.go:162-199 | A put of a contiguous entry keeps the tables well formed and writes exactly that entry of the map |
| `SQLite.DeleteRefines` | metadata/sqlite.go:292-306 | A delete keeps the tables well formed and removes exactly that entry |
| `SQLite.CopyRefines` | metadata/sqlite.go:309-348 | A copy succeeds iff there is a source and it may write the destination; it adds that one entry, the source's row and chunk rows with only key, bucket and modification time changed, and Created says whether it is new |
| `SQLite.MoveRefines` | metadata/sqlite.go:350-396 | A move is the copy with the source taken away; a move onto itself is refused |
| `Rename.RenameRefines` | metadata/sqlite.go:527-574 | A rename succeeds iff names differ, the source exists, the target does not and no target row is in the way; it moves every row and chunk row of the bucket with only the bucket changed, and keeps the rest |
| `PrefixCopy.CopyPrefixInTx` | metadata/sqlite.go:732-791 | The loop over the snapshot computes the transaction, lazily read chunk lists and first failure included |
| `PrefixCopy.CopyRowsEffect` | metadata/sqlite.go:732-791 | After any number of turns each target holds its row with the chunks of the source its chain of earlier writes leads back to, and no other entry has changed |
| `PrefixCopy.CopyPrefixMeaning` | metadata/sqlite.go:398-413 | Without case variants a copy succeeds iff it may write its targets, Created says none existed, and it is faithful iff every turn reads its own source's chunks |
| `PrefixCopy.CopyPrefixWellFormedIff` | metadata/sqlite.go:732-791 | A copy that succeeds keeps well-formed tables well formed iff every chunk list a turn writes has the count and total size of the row it goes with |
| `PrefixCopy.FaithfulKeepsFields` | metadata/sqlite.go:732-791 | After a faithful copy or move each target holds its source's row and chunk rows with only key and modification time changed |
| `PrefixCopy.FaithfulCopyIsWellFormed` | metadata/sqlite.go:398-413 | A faithful copy keeps the tables well formed |
| `PrefixCopy.CopyOutsideItself` | metadata/sqlite.go:398-413 | A copy is faithful when no target starts with the source prefix again |
| `PrefixCopy.CopyOntoALaterSource` | metadata/sqlite.go:732-791 | Copying "a" to "aa" over both objects is not faithful unless their chunks agree |
| `PrefixCopy.DeletePrefixEffect` | metadata/sqlite.go:793-803 | Exactly the entries that pass the prefix test go |
| `PrefixCopy.MovePrefixMeaning` | metadata/sqlite.go:415-436 | A move is faithful iff no row is a case variant of the source and no target passes the source's prefix test; then it succeeds iff it may write, Created is right, and the tables stay well formed |
| `PrefixCopy.CopyTakesCaseVariants` | metadata/sqlite.go:732-791 | In any bucket, every key the query selects has its target after a copy; a case variant's is the target prefix and its whole key, and holds its row and chunks unless another selected key writes either |
| `PrefixCopy.OverwritingNeverFails` | metadata/sqlite.go:398-436 | With overwrite a prefix copy always succeeds, and so does a move between two prefixes |
| `PrefixCopy.CaseOnlyMoveLosesObjects` | metadata/sqlite.go:415-436 | Moving "a/" to "A/" with overwrite succeeds and loses the object and its copy; without overwrite it loses them whenever it succeeds |
| `MetadataStore.SQLiteStore.PutObject` | metadata/sqlite.go:162-199 | Statement by statement, commits the whole put or, on a conflict, nothing |
| `MetadataStore.SQLiteStore.GetObject` | metadata/sqlite.go:201-246 | Reads the map's entry, or reports not found |
| `MetadataStore.SQLiteStore.DeleteObject` | metadata/sqlite.go:292-306 | Commits the delete of both tables' rows |
| `MetadataStore.SQLiteStore.CopyObject` | metadata/sqlite.go:309-348 | Commits the copy, or leaves the tables as they were |
| `MetadataStore.SQLiteStore.MoveObject` | metadata/sqlite.go:350-396 | Commits the move, or leaves the tables as they were |
| `MetadataStore.SQLiteStore.CopyPrefix` | metadata/sqlite.go:398-413 | Commits the prefix copy, or leaves the tables as they were |
| `MetadataStore.SQLiteStore.MovePrefix` | metadata/sqlite.go:415-436 | Commits the prefix move, or leaves the tables as they were |
| `MetadataStore.SQLiteStore.RenameBucket` | metadata/sqlite.go:527-574 | Commits the rename, or leaves the tables as they were |
| `KeyedLocker.StepKeepsInv` | store/locks.go:19-42 | Every step of Lock and of its release closure keeps the locker's invariant |
| `KeyedLocker.LockerIsSafe` | store/locks.go:19-42 | In every interleaving: one holder per key, refs counts waiters, holders and releasers, users of a key share one mutex object, every entry has a user, and the delete's guard never fails |
| `KeyedLocker.LockerIsLive` | store/locks.go:19-42 | In every reachable state a waiter can take its mutex iff nobody holds it, a holder can unlock, and whoever unlocked can leave |
| `KeyedLocker.CompositeIsInjective` | store/locks.go:19-42 | Distinct keys have distinct entries when bucket names hold no NUL |
| `KeyedLocker.SharedEntryIff` | store/locks.go:19-42 | Two buckets can share an entry iff one name starts with the other and a NUL |
| `UploadGate.StepKeepsOneToken` | store/store.go:1383-1420 | Every step, cancellations included, keeps tokens plus holders at one per token key |
| `UploadGate.StepKeepsCoolDown` | store/store.go:1383-1420 | A call past the cool-down check stays past it until it returns the slot |
| `UploadGate.GateIsSafe` | store/store.go:1383-1420 | In every interleaving: one token or holder, at most one upload in flight per token key, and none begins before a cool-down recorded earlier is over |
| `UploadGate.CoolDownIsWaitedOut` | store/store.go:1396-1414 | In every run, once a call has recorded a delay Telegram asked for, which its own failure reported, no upload under the token key begins before that delay has passed |
| `UploadGate.GateIsLive` | store/store.go:1383-1420 | In every reachable state a waiter can take the slot iff nobody holds it, a cooling call can begin once the rest of the cool-down has passed and not later, and each later phase has its next step |
| `MultipartProtocol.StepKeepsInv` | store/store.go:489-528 | Every step of creates, parts, completions, aborts, evictions and other lock users keeps the protocol's invariant |
| `MultipartProtocol.OneMidway` | store/store.go:494-526 | The lock of the key makes the completion between validation and deletion of a session unique |
| `MultipartProtocol.CommitWasPicked` | store/store.go:489-528 | A committed part list was picked from a part map that existed at one instant |
| `MultipartProtocol.CommittedPartsWereStored` | store/store.go:385-396 | A committed part list was, at one instant, what had been stored last under each number it lists |
| `MultipartProtocol.CompletionIsSafe` | store/store.go:489-528 | In every interleaving: no upload id is committed twice, no two completions of one upload succeed, and each commit comes from one instant |
| `MultipartProtocol.AbortIsFinal` | store/store.go:603-616 | In every run, an upload aborted or evicted while no completion of it has validated is never committed afterwards |
| `MultipartProtocol.CommitAfterAbort` | store/store.go:603-616 | Any run whose last state has a validated completion goes on with the abort and then the commit |
| `MultipartProtocol.AbortIsFinalIff` | store/store.go:603-616 | At the end of any run, the upload can be aborted and committed afterwards iff some completion of it has validated and not yet written |
| `MultipartProtocol.ValidatedIsReachable` | store/store.go:489-528 | For every upload of one part there is a run that ends with its completion validated |
| `DeleteRaces.StepKeepsInv` | store/store.go:967-994 | Every step of puts, completions, deletes and safe moves, in any order and without any lock, keeps each message in at most one row, unwritten messages private, and messages up for deletion at their own key |
| `DeleteRaces.DeletesRaceSafely` | store/store.go:967-994 | In every interleaving of puts, completions, deletes and safe moves, no message is in two rows, and a row whose message is gone belongs to an object of which a delete is under way or was refused |
| `DeleteRaces.UnsafeMoveDangles` | metadata/sqlite.go:350-436 | After a move that is not safe, whatever the state, deletes and puts under way can go on to a state where messages are not owned |
| `DeleteRaces.MoveIsSafeIff` | metadata/sqlite.go:350-436 | At the end of any run of safe moves, a move of one or many objects can be followed by such a state iff it takes a message that is gone or up for deletion to a key where nobody accounts for it |
| `DeleteRaces.MoveDuringDeleteDangles` | store/store.go:967-994 | A run with a move during a delete ends, with no request under way, in a row whose message is gone |
| `DeleteRaces.MoveDuringPutDangles` | store/store.go:243-283 | So does a run with a move during an overwriting put, and no delete |
| `Ownership.HandingOnKeepsOwned` | store/store.go:1031-1052 | A step that hands messages on one to one, or takes new ones, keeps every message in one hand and every claimed document in place |
| `Ownership.OthersSurvive` | store/store.go:1039-1052 | The messages of one object are no other owner's |
| `Ownership.DeletionsPurge` | store/store.go:1039-1052 | Whatever the answers, only the messages asked for can have gone |
| `Ownership.DeletedIsGone` | store/store.go:1001-1029 | A message whose deletion took effect stays gone |
| `CompletionStep.CompletionHandsOn` | store/store.go:511-522 | Completion hands each listed chunk's message to one row, because part numbers strictly ascend |
| `CompletionStep.RepeatedPartSharesMessages` | store/store.go:530-545 | Were a part listed twice, two rows would share its message, which is why the order must ascend strictly |
| `CompletionStep.CompleteStep` | store/store.go:489-528 | Completion keeps the store sound and makes the key's body the listed parts' bodies joined |
| `GatewaySteps.PutStep` | store/store.go:223-283 | A put with cleanup of what it replaces keeps the store sound and sets exactly that body |
| `GatewaySteps.StorePartStep` | store/store.go:352-397 | A stored part replaces the one of its number and touches nothing else |
| `GatewaySteps.DeleteStep` | store/store.go:967-994 | A delete whose deletions succeed or are tolerated keeps the store sound and removes exactly that body |
| `GatewaySteps.MoveStep` | metadata/sqlite.go:350-396 | A move relocates exactly that body |
| `Relocations.MovePrefixStep` | metadata/sqlite.go:415-436 | A safe prefix move takes each target's body from its source and keeps every other |
| `Relocations.RenameStep` | metadata/sqlite.go:527-574 | A rename takes every body of the bucket along and keeps every other |
| `GatewayRuns.EmptyStore` | store/store.go:96-135 | A store without rows, uploads and documents is sound |
| `GatewayRuns.StepRefines` | store/store.go:223-283 | Every request keeps the store sound and does to bodies and drafts exactly what it means |
| `GatewayRuns.RunRefines` | store/store.go:223-283 | Over every run, no two live rows or staged parts share a message, none names a deleted one, and the bodies go through what the requests mean |
| `GatewayRuns.ReadsMeaning` | store/store.go:632-702 | A GET streams exactly the requested bytes of the body the store means |
| `GatewayRuns.RangedGetSendsItsLength` | internal/s3api/server.go:595-627 | For any accepted Range header the slice streamed is as long as the Content-Length sent |
| `GatewayRuns.LastPutIsRead` | store/store.go:632-702 | In every run a GET streams the slice of what the last PUT of the key sent |
| `GatewayRuns.DraftsHoldLastStored` | store/store.go:385-396 | A draft holds for each part number the body stored last, in any upload order |
| `GatewayRuns.LastCompletionIsRead` | store/store.go:489-528 | In every run a GET after a completion streams the slice of the listed parts' last bodies, joined in part order |
| `GatewayRuns.CopySharesMessages` | store/store.go:762-793 | A metadata-only copy keeps the tables well formed, and the store sound iff it is onto itself or of an object without chunks |
| `GatewayRuns.DavCopySharesMessages` | metadata/sqlite.go:309-348 | The WebDAV copy of an object succeeds iff there is a source and it may write the target; it then keeps the tables well formed, and the store sound iff it is onto itself or of an object without chunks |
| `GatewayRuns.CopyPrefixSharesMessages` | metadata/sqlite.go:398-413 | A faithful prefix copy that stays off its source keeps the tables well formed, and the store sound iff no source has a chunk |
| `GatewayRuns.CopyLosesItsBytes` | store/store.go:762-793 | Deleting the source of such a copy leaves the copy unreadable |
| `GatewayRuns.HalfDeletedIff` | store/store.go:982-987 | After a refusal at any chunk the store is sound iff every deletion before it was answered "too old" |
| `GatewayRuns.DeletedThenRefusedDangles` | store/store.go:982-987 | A sound store with an object of two chunks, the first deleted and the second refused, is no longer sound |
| `Store.ObjectStore.constructor` | store/store.go:96-135 | A store object over sound tables starts sound, without uploads in progress |
| `Store.ObjectStore.PutObject` | store/store.go:223-283 | Succeeds iff the size is declared, a strategy accepts it and its sends go through, and records size, hashes, types and chunk count of what was sent field by field, and in each chunk row the hash of its own stretch; it is a Put step, and keeps the store sound, iff the row records the size of what Telegram kept; a failed put leaves only messages nobody owns |
| `Store.UnreportedPutDangles` | store/store.go:1172-1246 | A photo whose size Telegram does not report and whose content it does not keep is put into a sound store, which is then unsound |
| `Store.ObjectStore.PutEmpty` | store/store.go:1090-1111 | A put of nothing writes a row without chunks |
| `Store.ObjectStore.PutSingle` | store/store.go:1172-1246 | One message holds the whole body; a typed upload records the size Telegram reports and no hash, or, without a report, the declared size and the hashes of what was sent |
| `Store.ObjectStore.PutInChunks` | store/store.go:1248-1340 | The chunked body and its metadata row are written together or not at all |
| `Store.ObjectStore.GetObject` | store/store.go:632-702 | Streams exactly the requested bytes of the body, without breaking off, or reports a missing key |
| `Store.ObjectStore.DeleteObject` | store/store.go:967-994 | Succeeds iff no deletion is refused, and is then a Delete step; a refusal leaves the rows and exactly the messages the answers before it left, and the store sound iff all of those were "too old" |
| `Store.ObjectStore.CleanupReplacedChunks` | store/store.go:1039-1052 | Tries every replaced message, whatever the answers, and leaves exactly what they leave |
| `Store.ObjectStore.DeleteChunkMessage` | store/store.go:1001-1029 | The message is gone if it was deleted or already missing, and still there if it was too old or refused; only a refusal is an error |
| `Store.ObjectStore.CreateMultipartUpload` | store/store.go:285-331 | Registers the upload, and past the limit drops one no other is older than |
| `Store.ObjectStore.UploadPart` | store/store.go:352-397 | Succeeds iff arguments, upload, size and sends are right; it is then a StorePart step under the part's hash |
| `Store.ObjectStore.CompleteMultipartUpload` | store/store.go:489-528 | Succeeds iff the upload is this key's and the listed parts are stored, ascending, under their ETags; it is then a Complete step writing exactly this row and the parts' chunk rows, and otherwise changes nothing |
| `Store.ObjectStore.AbortMultipartUpload` | store/store.go:603-616 | Succeeds iff the upload is this key's, and drops exactly it |
| `Store.ObjectStore.CopyObjectMetadataOnly` | store/store.go:762-793 | Points new rows, otherwise the source's own, at the source's messages, or reports a missing key |
| `Sorting.Sort` | internal/s3api/sigv4.go:416-421 | A sorted rearrangement of the list |
| `Sorting.SortedIsUnique` | internal/s3api/sigv4.go:416-421 | Under a total order there is only one |
| `PercentCoding.SigV4Encode` | internal/s3api/sigv4.go:566-581 | The loop computes the encoding byte by byte |
| `PercentCoding.CanonicalQueryComponent` | internal/s3api/sigv4.go:432-447 | The loop decodes well-formed escapes, leaves the rest, and encodes again |
| `PercentCoding.EncodeByteMeaning` | internal/s3api/sigv4.go:566-581 | An unreserved byte, or a slash let through, stays itself; any other becomes a percent sign and two upper-case hex digits |
| `PercentCoding.UnreservedMeaning` | internal/s3api/sigv4.go:566-581 | The unreserved characters are those of section 2.3 of RFC 3986 |
| `PercentCoding.FromHexMeaning` | internal/s3api/sigv4.go:450-461 | Hex digits of either case have their value, and nothing else is one |
| `PercentCoding.DecodeLeavesTheRest` | internal/s3api/sigv4.go:432-447 | Text without a well-formed escape is left as it is |
| `PercentCoding.UnescapeMeaning` | internal/s3api/server.go:575-582 | Path unescaping fails iff some percent sign starts no well-formed escape |
| `PercentCoding.DecodeUndoesEncode` | internal/s3api/sigv4.go:432-447 | Decoding undoes encoding for every byte string, slashes escaped or not |
| `PercentCoding.EncodedBytes` | internal/s3api/sigv4.go:566-581 | Encoded text holds only the unreserved characters of section 2.3 of RFC 3986, percent signs and, where let through, slashes |
| `PercentCoding.UnescapeUndoesEncode` | internal/s3api/server.go:575-582 | Path unescaping undoes encoding |
| `SigV4.CanonicalQueryString` | internal/s3api/sigv4.go:392-430 | The loops compute the sorted, re-encoded pairs, without the signature when it is excluded |
| `SigV4.CutMeaning` | internal/s3api/sigv4.go:404-409 | A token is parted at its first equals sign; without one it is all key |
| `SigV4.JoinUndoesSplit` | internal/s3api/sigv4.go:402-430 | Splitting at ampersands loses nothing |
| `SigV4.WithoutSignatureCount` | internal/s3api/sigv4.go:410-412 | Exactly the signature's pairs are left out |
| `SigV4.CanonicalAscends` | internal/s3api/sigv4.go:418-423 | The pairs of a canonical query ascend by key, and by value under one key |
| `SigV4.CanonicalSaysTheSame` | internal/s3api/sigv4.go:392-447 | Read back and decoded, a canonical query has the query's pairs, each as often, an excluded signature aside |
| `SigV4.CanonicalReadsBack` | internal/s3api/sigv4.go:392-430 | Reading a canonical query gives back its sorted encoded pairs |
| `SigV4.SameCanonicalIff` | internal/s3api/sigv4.go:392-447 | Two raw queries canonicalise alike iff they have the same decoded pairs equally often, an excluded signature aside |
| `SigV4.CanonicalIsIdempotent` | internal/s3api/sigv4.go:392-430 | Canonicalising a canonical query changes nothing |
| `CopySource.ParseUndoesRender` | internal/s3api/server.go:566-584 | Parsing an encoded bucket and key gives them back, with or without a leading slash, for all non-empty ones |
| `CopySource.QueryIsDropped` | internal/s3api/server.go:566-570 | Whatever follows a question mark changes nothing |
| `CopySource.ParsedNamesAreNonempty` | internal/s3api/server.go:566-584 | A header that parses names a non-empty bucket and key |
| `CopySource.EmptyNamesAreRefused` | internal/s3api/server.go:566-584 | With a leading slash, an empty bucket or key is refused |

## Left out

- HTTP handlers, XML, logging, configuration, command-line flags, captions and CORS patterns: plumbing without a deep property.
- The Telegram HTTP client: its retries, file polling and typed errors are an oracle that accepts or refuses.
- SQL I/O errors and the SQL engine: the tables are keyed maps and a transaction either commits or leaves them alone; SQLite's treatment of NUL in keys is not modelled.
- Sorting in place: sort.Slice is a library call and appears as the function `Sorting.Sort`.
- `copyObjectReupload`: it is a GetObject followed by a PutObject under another binding, both of which are modelled; several bots and chats are not.
- Bucket bindings, enabled flags, HeadBucket checks, and the upload and download semaphores.
- Fairness: that nobody waits without a cause is proved, that a waiter is served in the end is not.
- HeadObject followed by GetObject, and listings, under concurrent writes: the tables are assumed unchanged in between.
- `Gateway` runs take requests one after the other; interleavings are covered by `KeyedLocker`, `UploadGate`, `MultipartProtocol` and `DeleteRaces`. In the last an upload counts as one writer, because `MultipartProtocol.CompletionIsSafe` shows that at most one completion of it commits; its moves are those whose targets are no sources, and copies, which share messages in any case, are no steps of it.
- Uploads.PutChunked: the fallback for a strategy without a positive chunk size is not modelled, because `Strategy.ResolvedStrategiesAreUsable` shows that no such strategy reaches it.
- Store.ObjectStore.PutObject: the second look at the type limit is not modelled, because the same lemma shows that it never rejects.
- UploadPart's first look at the session, before sending, has no effect and is no step of `MultipartProtocol`.
- Which upload CreateMultipartUpload evicts among equally old ones depends on map order and is left open.
- SigV4.CanonicalQueryString: signature computation and the rest of request verification add only string plumbing.
- Full RFC 4918 semantics of COPY and MOVE: the merge into an existing collection is modelled as the code does it.
- int64 overflow of sizes, offsets and part counts outside the range parser.
