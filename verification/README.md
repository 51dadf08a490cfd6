# Models of the engine's bookkeeping code

A Dafny project about the in-memory core of the `gos` engine: byte layouts, indices, free lists,
queues and reference counts, and what each of them promises over whole runs. `dafny verify
dfyconfig.toml` checks all of it.

What changes state in the source is a class here, with the source's fields, and its methods are
proved against functions of their inputs and of the state before the call. Ghost fields hold what the
source only means: the description built so far, the set of live ranges, the free chain of a chunk,
the history of a run. What the code promises is then proved about those functions.

| files | what they model |
|---|---|
| `Bytes`, `DataFormat`, `BlobTree`, `BlobWire`, `BlobBuilder`, `BlobPaths`, `BlobReader`, `BlobExamples`, `BlobRoundTrip` | the DataBlob definition: a builder that back-patches a byte buffer, a cursor that reads it, the layout the two agree on, which paths are answered, definitions where that surprises, and one definition all the way from the calls to the answer |
| `DepGraph`, `AssetDb`, `AssetScan`, `ScanOrder`, `ScanEveryOrder` | the asset dependency graph, its recursive closures, the scan that deletes rows while it goes through them, what its lists hold for each order of the rows and which of them are the same for all orders, and the list of updated assets |
| `RangeList`, `RangeMerge`, `RangePool`, `FreespaceTracker`, `AllocTracker` | coalescing free lists and the two allocators over them |
| `Handles` | handles with a generation counter, and the chunked list that issues them |
| `SortedMap`, `SparseSet` | the sorted arrays behind maps and sets, and the paged sparse set |
| `Words`, `Bitfield`, `DynTextureArray` | words as sets of bits, the bit field, and the texture index allocator over it |
| `FlatBytes`, `BufferSparse` | a chain of blocks used as one flat array |
| `Fifo`, `MsgAccounts`, `MsgQ` | the linked queue, message queues with copied payloads, and who owns a payload |
| `LoaderProtocol`, `LoaderSteps`, `LoaderFinish`, `LoaderExamples`, `LoaderShape`, `LoaderWays`, `LoaderReady`, `LoaderBatches`, `LoaderEngine` | the engine and its loader thread: the machine of interleaved steps, its invariant, runs that leave a descriptor or a message behind, and the code of either side as runs of that machine |
| `Readiness`, `ReadinessExamples` | the count of children that are not ready, and how news of it travels up |
| `Arith`, `Options` | shared helpers |

## Where the code does not do what one would expect

Each of these is kept as the code has it, with the exact condition under which it does.

- **Three-dimensional arrays.** The index formula multiplies each index by the next dimension only, so two
  index lists may reach the same bytes. It is one to one exactly for at most two dimensions, or when the
  first or the last of three is 1 (`IndexingIsOneToOne`, `FlatCollides`), and the disjointness of all leaf
  paths holds exactly under that condition (`LayoutTheorem`, `OffsetsAreDisjoint`).
- **A piece after a simple element.** `a.x`, where `a` is simple, is not refused: `x` is searched for in `a`
  and the siblings after it (`AfterSimple`).
- **An array without brackets.** `arr` and `arr.x` are not refused either: the dimensions are looked at only
  when there are indices, so the first item is meant (`WithoutBrackets`). Among the paths that are answered
  these two are all: a path names an element exactly when it is answered and does neither (`AnsweredExactly`),
  and what is answered otherwise is the position of an element all the same (`AnswerIsPosition`).
- **A component below a simple array.** The item of a simple array has no name, and `a[0].x` compares `x` with a
  null pointer (`BelowItem`). This happens exactly when an acceptable component follows one that is accepted on
  a simple array (`UnnamedExactly`). Where other elements go without a name too, even a path that names an
  element may meet one (`BehindNameless`); `MeetsUnnamed` says when, and `GetOffset` has an outcome of its own
  for it.
- **The simple-array flag.** The member count is one byte, so an array is marked as simple exactly when it has
  1 member modulo 256. Since a slot has at most 255 bytes, 257 members are possible only when some take none
  (`FlagIsRight`, `CrowdIsFlagged`).
- **What the scan lists for later** depends on the order of the rows, which come sorted by path, because rows are
  deleted on the way (`OrderMatters`, `OrderMattersForSignatures`). All orders list the same possibly useless
  resources exactly when no changed row requires another one (`UselessWhateverTheOrder`), and an asset has its
  signature listed in every order exactly when every changed row that its declaring file is or requires is
  required by the asset too (`AssetInOrders`; `SignaturesInOrders` for signatures that assets share).
- **A deleted gosasset_d** may be on the list of files to rebuild although its file is gone, exactly when a row in
  front of its own notes it (`VanishedRebuilt`).
- **Best fit.** A free range of 2^32 - 1 bytes is invisible to a smaller request (`PrivFindBest`).
- **Old handles.** A released handle resolves again when its slot has been released a multiple of 2^C times.
  Releasing it keeps the list valid exactly when the slot is live; on a free slot the chain becomes a ring
  (`Release`, `NoChainAnyMore`, `OldHandleReleased`).
- **Failed bit searches.** When all declared bits are set, a search sets the lowest clear padding bit of the last
  word, exactly when there is one, and answers no.
- **Reserved textures.** Removing one clears its reserved bit, and adding two handles at one reserved slot
  gives them the same index; the invariant is kept exactly when neither happens.
- **The second buffer.** `pushMsg2Buffer` drops the second buffer when there is no first (`BothAreSent`).
- **A failed load.** The loader's reference is never given back: the descriptor stays loading for ever
  (`FailedStays`, `FailedRun`).
- **A last reference given back by the message loop.** The answer of `release` is not looked at, after either of
  the two messages that give the reference back, so a descriptor only the loader still held is never destroyed
  (`ForgottenWhenLast`, `ForgottenStays`, `ForgottenRun`).
- **The message that a load is finished** does not keep its descriptor, and the loader looks at it: it is still
  in use exactly when no client gave up the last reference before (`FinishedIsThere`, `FinishedTooLate`).
- **Removing a child.** The child forgets all parents in front of the one that removes it, and when that one
  becomes ready by this its own parents are not told. Lists and counts stay right exactly when neither happens
  (`Readiness.Resources.RemoveChild`); otherwise a descriptor may stay not ready although everything below it
  is (`NewerParentForgotten`, `GrandparentNotTold`).
- **A hot reload of an asset that is gone from the database** leaves the asset without a resource
  (`AssetHotReload`).
- **A callback that is not registered** counts as a failure, but the status stays loading.
- **The second way to schedule** in `res2__get_or_schedule_load` (lines 231-258) is never taken: only
  signatures are ever unloaded, and those have been scheduled before that point.
- **32-bit sums** in the bounds test of `BufferSparse` can wrap; `BoundsTest` says exactly when the test is
  right, and `read` and `write` ask for offsets where it is.

## Model

| member | source | states |
|---|---|---|
| `BlobTree.LayoutTheorem` | engine/src/gos/gosDataBlob_DefReader.cpp:225-259 | any two different leaf paths (a simple element, one in-range index per dimension of every enclosing array) lie in disjoint ranges inside the declared blob size **if and only if** every array in the description that has bytes also has at most two dimensions, or three with the first or the last equal to 1 |
| `BlobTree.IndexingIsOneToOne` | engine/src/gos/gosDataBlob_DefReader.cpp:240-252 | the index formula maps the index lists of an array to different slots, all below the product of the dimensions, exactly on `GoodDims`; on any other three dimensions two index lists collide |
| `BlobTree.FlatIs` | engine/src/gos/gosDataBlob_DefReader.cpp:240-250 | the slot of one, two and three indices, written out: the first of three is multiplied by the second dimension only |
| `BlobTree.FlatCollides` | engine/src/gos/gosDataBlob_DefReader.cpp:240-250 | concrete index lists of a three-dimensional array that reach the same slot, whenever the first and the last dimension exceed 1 |
| `BlobTree.FlatBound` | engine/src/gos/gosDataBlob_DefReader.cpp:240-250 | in-range indices of one or two dimensions (and of the good three-dimensional shapes) stay below the number of slots |
| `BlobTree.CollidingLeaves` | engine/src/gos/gosDataBlob_DefReader.cpp:225-259 | a description with one bad array has two different leaf paths with one and the same position: the other half of the layout theorem |
| `BlobTree.PathsApart` | engine/src/gos/gosDataBlob_DefReader.cpp:225-259 | two paths neither of which continues the other address disjoint byte ranges, through any nesting of structs and sound arrays |
| `BlobTree.PathInside` | engine/src/gos/gosDataBlob_DefReader.cpp:225-259 | whatever a path addresses, with all its bytes, lies inside the range of its siblings |
| `BlobTree.LookupExact` | engine/src/gos/gosDataBlob_DefReader.cpp:252-258 | on every path that names an element the reader's 16-bit sums never wrap: the answer is the true position |
| `BlobBuilder.DefBuilder.Begin` | engine/src/gos/gosDataBlob_DefBuilder.cpp:16-30 | forgets everything; the buffer is the magic and two empty sizes, nothing is open |
| `BlobBuilder.DefBuilder.End` | engine/src/gos/gosDataBlob_DefBuilder.cpp:33-49 | answers yes exactly when no call was refused; then the buffer is, byte for byte, the encoding of the description built, with both sizes |
| `BlobBuilder.DefBuilder.AddSimpleTypeAtOffset` | engine/src/gos/gosDataBlob_DefBuilder.cpp:158-186 | refused exactly before `begin`, after an error, or for an offset below the cursor, and then no byte and no position changes; otherwise one simple element is added to whatever is open, the bytes are those of the larger description, and the cursor moves to the offset plus the given size, or, without one, plus rows times columns times the width of the format |
| `DataFormat.Unpacked` | engine/src/gos/gosDataFormat.cpp:5-84 | reading a packed format back gives its kind, sign, matrix or array, rows and columns, and its size is their product times the width of the kind |
| `DataFormat.BuiltIs` | engine/src/gos/gosDataFormat.cpp:87-119 | `build` makes the packed format, and answers unknown exactly for more than four rows or other than one to four columns |
| `DataFormat.PackedOnce` | engine/src/gos/gosDataFormat.h:6-39 | different formats have different bytes |
| `DataFormat.Listed` | engine/src/gos/gosDataFormat.h:43-81 | formats of the enumeration, with their byte and their size: one value of each kind, four normalised bytes, the largest matrix |
| `BlobRoundTrip.DefinitionBytes` | engine/src/gos/gosDataBlob_DefBuilder.cpp:16-186 | a definition of one float and an array of three, byte for byte, with the order of the bytes in every number |
| `BlobRoundTrip.RoundTrip` | engine/src/gos/gosDataBlob_DefBuilder.cpp:16-420 | the calls that describe it, without sizes, leave exactly those bytes, and the reader finds the third item at 12 |
| `BlobBuilder.DefBuilder.StructBeginAtOffset` | engine/src/gos/gosDataBlob_DefBuilder.cpp:189-222 | same refusals; otherwise a struct is open, its record in the buffer with `next`, size and end still unknown, position and offset on the stack |
| `BlobBuilder.DefBuilder.StructEnd` | engine/src/gos/gosDataBlob_DefBuilder.cpp:225-264 | closes the struct: after back-patching `next`, size, member count and end the buffer is exactly the encoding with the struct complete, in its parent |
| `BlobBuilder.DefBuilder.ArrayBeginAtOffset` | engine/src/gos/gosDataBlob_DefBuilder.cpp:266-355 | opens an array of one, two or three dimensions, with the same refusals |
| `BlobBuilder.DefBuilder.ArrayEnd` | engine/src/gos/gosDataBlob_DefBuilder.cpp:358-420 | closes the array: stride, total size, end and the flag for a single member are back-patched, and the cursor moves past all slots |
| `BlobBuilder.DefBuilder.PrivCountMembers` | engine/src/gos/gosDataBlob_DefBuilder.cpp:251-259 | following `next` from the first child to the end of the buffer counts the members, modulo 256 |
| `BlobBuilder.DefBuilder.PrivElemBegin` | engine/src/gos/gosDataBlob_DefBuilder.cpp:101-139 | appends exactly the header with a placeholder `next` and remembers where |
| `BlobBuilder.DefBuilder.PrivAddPad` | engine/src/gos/gosDataBlob_DefBuilder.cpp:90-98 | zeros up to the next multiple of 8 |
| `BlobBuilder.AddStep` | engine/src/gos/gosDataBlob_DefBuilder.cpp:142-155 | a completed element appends its own encoding and leaves every byte written before, and the stack, alone |
| `BlobBuilder.CloseStep` | engine/src/gos/gosDataBlob_DefBuilder.cpp:225-264 | closing a composite turns the bytes of the open form into the bytes of the complete element in its parent |
| `BlobBuilder.BuiltAligned` | engine/src/gos/gosDataBlob_DefBuilder.cpp:142-155 | between calls the buffer length is a multiple of 8 at every nesting depth |
| `BlobWire.LenAligned` | engine/src/gos/gosDataBlob_DefBuilder.cpp:90-98 | every element takes a multiple of 8 bytes |
| `BlobWire.DecodesHeader` | engine/src/gos/gosDataBlob.cpp:8-28 | decoding a header gives back kind, name length, next, offset, size, user data and name, for names of at most 243 characters |
| `BlobReader.DefElem.Next` | engine/src/gos/gosDataBlob_DefReader.cpp:17-26 | moves to the next sibling and answers yes, or answers no on the last one: the sibling chain ends where the run does |
| `BlobReader.DefElem.FirstChild` | engine/src/gos/gosDataBlob_DefReader.cpp:29-38 | moves to the first member of a composite; answers no and stays on a simple element |
| `BlobReader.DefElem.GetFirstChild` | engine/src/gos/gosDataBlob_DefReader.cpp:49-59 | sets another cursor to the first member and leaves this one alone |
| `BlobReader.DefElem.AccessorsAgree` | engine/src/gos/gosDataBlob_DefReader.cpp:74-91 | format and member count read from the bytes are those of the description |
| `BlobReader.DefElem.ArrayAccessorsAgree` | engine/src/gos/gosDataBlob_DefReader.cpp:94-128 | dimension count, each dimension and stride read from the bytes are those of the description; the simple-array flag is found set exactly when the number of members is 1 modulo 256 |
| `BlobExamples.FlagIsRight` | engine/src/gos/gosDataBlob_DefBuilder.cpp:358-420 | when each member of an array takes at least one byte the flag is right: within the stride of 255 it is set exactly for one member |
| `BlobExamples.CrowdIsFlagged` | engine/src/gos/gosDataBlob_DefBuilder.cpp:358-420 | when members may take no bytes it is not: a finished definition with an array of 257 members that carries the flag |
| `BlobReader.DefReader.Setup` | engine/src/gos/gosDataBlob_DefReader.cpp:131-141 | accepts exactly the buffers with the magic |
| `BlobReader.DefReader.BeginEnumerate` | engine/src/gos/gosDataBlob_DefReader.cpp:144-149 | the cursor stands on the first root |
| `BlobReader.DefReader.GetOffset` | engine/src/gos/gosDataBlob_DefReader.cpp:152-270 | for **every** path the loop over the bytes ends as `Answer` says: with an offset, with a refusal, or with a comparison with the null name of an unnamed element. When only the items of simple arrays go without a name, a path names an element **if and only if** it is answered and proper (every array on it comes with indices, nothing follows a simple element), and it meets a null name **if and only if** an acceptable component follows one accepted on a simple array |
| `BlobPaths.AnswersExactly` | engine/src/gos/gosDataBlob_DefReader.cpp:225-268 | the same on any siblings and from any offset so far: `Addresses` holds exactly when there is an answer and the path is proper |
| `BlobPaths.UnnamedExactly` | engine/src/gos/gosDataBlob_DefReader.cpp:225-229 | the search meets an unnamed element exactly below a simple array, when no other element goes without a name, and is not answered then |
| `BlobReader.AnsweredExactly` | engine/src/gos/gosDataBlob_DefReader.cpp:152-270 | the same two equivalences on every description the builder accepts; and on those with other unnamed elements, answered and proper is naming an element without meeting a null name on the way |
| `BlobPaths.AnswersAreElements` | engine/src/gos/gosDataBlob_DefReader.cpp:225-268 | an answer to an improper path is never a stray number: it is the answer to the path with the components in front that select simple elements left out and missing indices put to zero, which names an element |
| `BlobReader.AnswerIsPosition` | engine/src/gos/gosDataBlob_DefReader.cpp:152-270 | so every answer is the true position of one element of the description; the reader takes the path as it stands exactly when it is proper |
| `BlobExamples.AfterSimple` | engine/src/gos/gosDataBlob_DefReader.cpp:225-268 | a finished definition in which `a.b` names nothing, because `a` is simple, and is answered with the position of `b` |
| `BlobExamples.WithoutBrackets` | engine/src/gos/gosDataBlob_DefReader.cpp:237-252 | a finished definition in which an array named without brackets is answered with the position of its first item |
| `BlobExamples.BelowItem` | engine/src/gos/gosDataBlob_DefReader.cpp:225-229 | a finished definition of one simple array, on which `a[0].x` and `a.x` compare with a null name |
| `BlobExamples.BehindNameless` | engine/src/gos/gosDataBlob_DefReader.cpp:225-229 | a definition whose first element has no name, on which a path that names the second one compares with a null name |
| `BlobReader.DefReader.PrivFlat` | engine/src/gos/gosDataBlob_DefReader.cpp:239-250 | the index loop refuses a wrong dimension count and any index out of range, and otherwise computes the flat slot |
| `BlobReader.Walk` | engine/src/gos/gosDataBlob.cpp:68-160 | a cursor that visits element, members and siblings sees exactly the description: same kinds, names, offsets, sizes, user data, formats, dimensions, strides, in order |
| `BlobReader.LeafFound` | engine/src/gos/gosDataBlob_DefReader.cpp:152-270 | every path that names an element of a finished description is found, at its true position, and meets no null name |
| `BlobReader.OffsetsAreDisjoint` | engine/src/gos/gosDataBlob_DefReader.cpp:152-270 | what `getOffset` answers for two different leaf paths of a finished description are disjoint ranges inside the declared size, if and only if its arrays are sound |
| `BlobReader.BytesDetermineDescription` | engine/src/gos/gosDataBlob.cpp:8-28 | two well-built descriptions with the same bytes are the same description |
| `DepGraph.AncestorsShrink` | engine/src/gosAsset2/gosAsset2.cpp:892-900 | on an acyclic graph a father has strictly fewer ancestors than its child: why a recursion without a visited list ends |
| `DepGraph.ClosureGrows` | engine/src/gosAsset2/gosAsset2Builder.cpp:766-834 | removing the ancestors of some seeds and then, in the graph that is left, one more node with its ancestors, removes the ancestors of all seeds in the original graph |
| `DepGraph.UpwardReach` | engine/src/gosAsset2/gosAsset2Builder.cpp:824-833 | a chain to a node that is still there uses no removed edge, if the removed set is closed upward |
| `DepGraph.ReverseAcyclic` | engine/src/gosAsset2/gosAsset2.h:107-117 | the recursion towards the children ends as well |
| `AssetDb.DBContext.ResDelete` | engine/src/gosAsset2/gosAsset2.cpp:410-433 | drops the row, every edge that touches it, and the aliases of a gosasset_d; nothing else |
| `AssetDb.DBContext.AssetDelete` | engine/src/gosAsset2/gosAsset2.cpp:573-591 | drops the asset's row and every edge that touches it; nothing else |
| `AssetDb.UidParts` | engine/src/gosAsset2/gosAsset2EnumAndDefine.h:46-88 | from the bytes of a UID: the sixth is the type of a resource, the lowest bit of the eighth marks an asset |
| `AssetDb.DBContext.DependencyAdd` | engine/src/gosAsset2/gosAsset2.cpp:930-944 | an edge that is there already is refused, because the two columns are the primary key (lines 89-93), and then nothing changes; any other edge is added |
| `AssetDb.DBContext.DependencyAddIfNotExists` | engine/src/gosAsset2/gosAsset2.cpp:947-953 | never fails, the edge is there afterwards and no other edge comes or goes; the two columns are the primary key, so a plain insertion of an edge that is there would be refused |
| `AssetDb.DBContext.DependencyGetRequireByList` | engine/src/gosAsset2/gosAsset2.cpp:870-902 | ends on an acyclic graph and adds exactly the transitive ancestors, keeping or clearing what the list held |
| `AssetDb.DBContext.DependencyGetDependeciesList` | engine/src/gosAsset2/gosAsset2.h:77-119 | ends, and adds exactly the nodes above `uid` in the reversed graph of edges to nodes the filter passes |
| `AssetDb.FilteredListMeaning` | engine/src/gosAsset2/gosAsset2.h:77-119 | those are the nodes reachable through nodes that all pass the filter |
| `AssetDb.AncestorsAreAboveFathers` | engine/src/gosAsset2/gosAsset2.cpp:892-900 | the ancestors of a node are its fathers and their ancestors |
| `AssetDb.ClosureAdd` | engine/src/gosAsset2/gosAsset2.cpp:892-900 | adding one father and its ancestors to a closure gives the closure with one seed more |
| `AssetScan.ScanLists.PrivResourceScanDB` | engine/src/gosAsset2/gosAsset2Builder.cpp:723-838 | whatever order the rows come in, a row is left **if and only if** its file and those of all resources it reaches are there with the recorded time, and an asset if that holds of all resources it reaches; exactly the edges without a removed end are left; an existing file is in the rebuild list if and only if it is a removed gosasset_d or declares a removed asset; all four lists hold exactly what that order calls for |
| `AssetScan.LeftMeans` | engine/src/gosAsset2/gosAsset2Builder.cpp:743-758 | removing the changed rows and all above them leaves what has only unchanged files at and below it |
| `AssetScan.ScanLists.ScanRow` | engine/src/gosAsset2/gosAsset2Builder.cpp:735-834 | one row keeps the invariant: tables and lists are those of the rows done so far, also when the row has been deleted by an earlier iteration; what it adds to each of the four lists is stated |
| `AssetScan.ScanLists.ScanChanged` | engine/src/gosAsset2/gosAsset2Builder.cpp:766-834 | a changed row takes itself and everything above it, in the tables as they are now, out of the tables |
| `AssetScan.ScanLists.NoteOne` | engine/src/gosAsset2/gosAsset2Builder.cpp:779-816 | one node of the list: its gosasset_d, or the one that declares it, is noted, through the guard of the deleted list |
| `AssetScan.ScanLists.DeleteAll` | engine/src/gosAsset2/gosAsset2Builder.cpp:824-831 | deleting the collected nodes leaves the tables without exactly those |
| `AssetScan.RebuildExact` | engine/src/gosAsset2/gosAsset2Builder.cpp:743-816 | the rebuild list holds an existing file exactly when the removed set calls for it |
| `AssetScan.DroppedMeans` | engine/src/gosAsset2/gosAsset2Builder.cpp:795-806 | when the row of the declaring file is already gone the file was noted when it went, although the lookup fails now |
| `AssetScan.NotedAdd` | engine/src/gosAsset2/gosAsset2Builder.cpp:779-816 | what has to hold of the lists after one more node so that nothing it calls for is missed and nothing else is added |
| `AssetScan.UpdatedAssets` | engine/src/gosAsset2/gosAsset2Builder.cpp:631-683 | an asset is in the result exactly when it is, or requires, a touched asset that is new or has another signature than in the backup; this is the smallest such set closed upward under dependency |
| `ScanOrder.UselessMeans` | engine/src/gosAsset2/gosAsset2Builder.cpp:819-821 | a resource is listed as possibly useless exactly when some changed row that is still there at its turn has a chain down to it that no earlier row has cut |
| `ScanOrder.SignaturesMeans` | engine/src/gosAsset2/gosAsset2Builder.cpp:790-808 | a signature is listed exactly when an asset that has it went at a moment when the file that declares it still had its row |
| `ScanOrder.DeletedMeans` | engine/src/gosAsset2/gosAsset2Builder.cpp:743-806 | the list of deleted files holds exactly the gosasset_d rows without a file, and those that some row notes: because they require it, or declare an asset that does, and neither has gone before |
| `ScanOrder.RebuiltMeans` | engine/src/gosAsset2/gosAsset2Builder.cpp:749-806 | the list of files to rebuild gains exactly the gosasset_d rows with another time, and those noted by some row before their own row, if their file is gone, has been looked at |
| `ScanOrder.VanishedRebuilt` | engine/src/gosAsset2/gosAsset2Builder.cpp:743-806 | a gosasset_d without a file is always in the list of deleted ones, and also in the list to rebuild **if and only if** a row in front of its own notes it |
| `ScanEveryOrder.UselessInOrders` | engine/src/gosAsset2/gosAsset2Builder.cpp:819-821 | a resource is listed in some order of the rows exactly when it is below a changed row, and in **every** order exactly when it is below one whose changed requirements are all above it |
| `ScanEveryOrder.UselessWhateverTheOrder` | engine/src/gosAsset2/gosAsset2Builder.cpp:723-838 | on an acyclic graph all orders give the same list of possibly useless resources, and it is everything below a changed row, **if and only if** no changed row requires another changed row |
| `ScanEveryOrder.OrderMatters` | engine/src/gosAsset2/gosAsset2Builder.cpp:723-838 | two changed files, one requiring the other: one order lists the lower one, the other order does not |
| `ScanEveryOrder.AssetInOrders` | engine/src/gosAsset2/gosAsset2Builder.cpp:790-808 | the signature of an asset is listed on its account in some order exactly when the scan removes it and its declaring file has a row, and in **every** order exactly when, besides, every changed row which that file is or requires is required by the asset too |
| `ScanEveryOrder.ListedInEveryOrder` | engine/src/gosAsset2/gosAsset2Builder.cpp:790-808 | of several such assets one is listed in every order exactly when some of them guard each other: whatever changed row takes the declaring file of one of these takes one of them as well |
| `ScanEveryOrder.SignaturesInOrders` | engine/src/gosAsset2/gosAsset2Builder.cpp:790-808 | so a signature is in the list in every order **if and only if** some of the assets that share it guard each other |
| `ScanEveryOrder.OrderMattersForSignatures` | engine/src/gosAsset2/gosAsset2Builder.cpp:790-808 | an asset that requires another file than its declaring one, both changed: one order lists its signature, the other does not |
| `AssetScan.SeedsAndAssetsAbove` | engine/src/gosAsset2/gosAsset2Builder.cpp:665-680 | seeds and assets above them are that smallest set |
| `FreespaceTrackers.FreespaceTracker.constructor` | engine/src/gos/gosFreespaceTracker.cpp:29-46 | one range of all the blocks; the invariant holds exactly when there is room for one block |
| `FreespaceTrackers.FreespaceTracker.Alloc` | engine/src/gos/gosFreespaceTracker.cpp:85-114 | first fit on the list, rounded up to whole blocks; fails exactly when no range is large enough, and then changes nothing; keeps the invariant of the pool |
| `FreespaceTrackers.FreespaceTracker.Free` | engine/src/gos/gosFreespaceTracker.cpp:117-122 | a live range always goes back: the list is the old one with the range inserted in coalesced form, and the count is exact; an empty answer or the invalid offset changes nothing |
| `FreespaceTrackers.FreespaceTracker.LiveBytes` | engine/src/gos/gosFreespaceTracker.cpp:117-122 | what was handed out never looks like the invalid answer: a live range has bytes and an offset below u32MAX |
| `FreespaceTrackers.FreespaceTracker.PrivGiveBack` | engine/src/gos/gosFreespaceTracker.cpp:125-186 | all five branches end in the coalesced insertion of the range |
| `FreespaceTrackers.FreespaceTracker.PrivTryMerge` | engine/src/gos/gosFreespaceTracker.cpp:55-82 | merging at an index, recursively in both directions, keeps what is free and ends without adjacent ranges around it |
| `FreespaceTrackers.BlocksPositive` | engine/src/gos/gosFreespaceTracker.cpp:88-90 | the rounded-up block count covers the request and one block less does not |
| `RangePool.PoolAlloc` | engine/src/gos/gosFreespaceTracker.cpp:95-107 | taking from a free range keeps: sorted, positive, in bounds, never adjacent, live ranges disjoint from each other and from the free ones, free plus allocated is everything |
| `RangePool.PoolFree` | engine/src/gos/gosFreespaceTracker.cpp:117-186 | giving a live range back keeps the same |
| `RangePool.PoolAllFree` | engine/src/gos/gosFreespaceTracker.cpp:125-186 | with nothing live the list is the single initial range |
| `RangeList.Unique` | engine/src/gos/gosFreespaceTracker.cpp:55-82 | a sorted list of positive, non-adjacent ranges is determined by the blocks it covers |
| `RangeList.TakeThenInsert` | engine/src/gos/gosFreespaceTracker.cpp:85-186 | an allocation followed by freeing its result restores the list exactly |
| `RangeList.OrderDoesNotMatter` | engine/src/gos/gosFreespaceTracker.cpp:125-186 | freeing the same loose ranges in any order gives the same list |
| `RangePool.LiveIsLoose` | engine/src/gos/gosFreespaceTracker.cpp:125-186 | distinct live ranges of a pool are loose: apart from the free list and from each other |
| `RangePool.FreeingOrder` | engine/src/gos/gosFreespaceTracker.cpp:125-186 | so a tracker ends with the same list whatever the order in which its live ranges are freed |
| `RangeList.InsertCovers` | engine/src/gos/gosFreespaceTracker.cpp:125-186 | coalesced insertion covers the old blocks and the new ones |
| `RangeList.InsertTotal` | engine/src/gos/gosFreespaceTracker.cpp:117-122 | and adds exactly their number |
| `RangeList.TakeTotal` | engine/src/gos/gosFreespaceTracker.cpp:100-105 | taking removes exactly the number taken |
| `RangeList.WholeIsOneRange` | engine/src/gos/gosFreespaceTracker.cpp:44-45 | a list that covers everything is one range |
| `RangeMerge.GrowFront` | engine/src/gos/gosFreespaceTracker.cpp:142-149 | extending the range that starts where the freed one ends, then merging, is the coalesced insertion |
| `RangeMerge.GrowBack` | engine/src/gos/gosFreespaceTracker.cpp:153-161 | the same for the range that ends where the freed one starts |
| `RangeMerge.PutBetween` | engine/src/gos/gosFreespaceTracker.cpp:163-168 | and for a new range between two others |
| `AllocTrackers.AllocTracker.Alloc` | engine/src/gos/gosAllocTracker.cpp:31-87 | first fit or best fit, refusals included; keeps the pool invariant |
| `AllocTrackers.AllocTracker.PrivFindBest` | engine/src/gos/gosAllocTracker.cpp:42-62 | a smallest sufficient range, the first of them; finds none exactly when there is none, or when the only one is 2^32-1 bytes long and less is asked for |
| `AllocTrackers.AllocTracker.Dealloc` | engine/src/gos/gosAllocTracker.cpp:90-142 | a live range goes back in coalesced form, also through the code at the tail of the list that differs from the other tracker |
| `AllocTrackers.AllocTracker.PrivTryMerge` | engine/src/gos/gosAllocTracker.cpp:145-172 | merging keeps what is free |
| `AllocTrackers.RunBoth` | engine/src/gos/gosAllocTracker.cpp:31-172 | on every run of non-zero allocations and valid frees, first fit and FreespaceTracker with block size 1 give the same answers, and the sequences of their free lists, before the run and after every step, are equal |
| `Handles.HandleList.constructor` | engine/src/gos/gosHandle.h:230-244 | no slot is live |
| `Handles.HandleList.Reserve` | engine/src/gos/gosHandle.h:276-300 | fails exactly when every free chain is empty, and then changes nothing; otherwise the first free slot of the first chunk whose chain is not empty, with a handle that differs from the invalid one, and nothing else changes |
| `Handles.HandleList.Release` | engine/src/gos/gosHandle.h:302-319 | for **every** handle ever issued: one whose slot was released 1 to 2^C-1 times since (modulo 2^C) changes nothing; one that resolves puts its slot at the head of the chunk's chain and ages its handles by one, and the list is valid afterwards **if and only if** the slot was live |
| `Handles.NoChainAnyMore` | engine/src/gos/gosHandle.h:302-319 | putting a slot on its chain a second time closes a ring: no chain that ends starts at that slot any more |
| `Handles.OldHandleReleased` | engine/src/gos/gosHandle.h:276-319 | with one bit of counter, reserving and releasing a slot twice and then releasing its first handle breaks the list |
| `Handles.HandleList.FromHandleToPointer` | engine/src/gos/gosHandle.h:321-332 | a handle resolves to its own slot exactly when the slot has been released a multiple of 2^C times since the handle was issued |
| `Handles.HandleList.ChainsHoldTheFreeSlots` | engine/src/gos/gosHandle.h:344-362 | each chunk's free chain follows `nextFree`, has no repetition and holds exactly the slots that are not live |
| `Handles.HandleList.FullMeans` | engine/src/gos/gosHandle.h:276-300 | no free slot anywhere means exactly 2^A live slots |
| `Handles.HandlesDiffer` | engine/src/gos/gosHandle.h:290-293 | handles of different slots differ |
| `Handles.NeverInvalid` | engine/src/gos/gosHandle.h:68-70 | no handle of a slot equals the invalid handle |
| `Handles.Unpack` | engine/src/gos/gosHandle.h:75-98 | every field written into a handle is read back |
| `Handles.Layout` | engine/src/gos/gosHandle.h:29-43 | where the fields are: the index in the high bits, then chunk, counter and padding |
| `Handles.CountersAgree` | engine/src/gos/gosHandle.h:377-378 | two release counts show the same counter exactly when they differ by a multiple of 2^C |
| `Handles.BuildHandle` | engine/src/gos/gosHandle.h:290-293 | setting chunk, index and counter one after the other gives the packed handle |
| `SortedMap.BinarySearch` | engine/src/gos/gosHashMap.h:358-408 | ends without an index below zero or an empty range, and answers the key's position or its insertion point |
| `SortedMap.InsertionPointUnique` | engine/src/gos/gosHashMap.h:358-408 | there is one insertion point only |
| `SortedMap.HashMap.InsertIfNotExists` | engine/src/gos/gosHashMap.h:96-119 | adds a key that is not there, keeps the sorted array and refines the finite map |
| `SortedMap.HashMap.InsertOrReplaceValue` | engine/src/gos/gosHashMap.h:127-153 | the map with the key set, whether it was there or not |
| `SortedMap.HashMap.Remove` | engine/src/gos/gosHashMap.h:173-188 | the map without the key |
| `SortedMap.HashMap.Find` | engine/src/gos/gosHashMap.h:215-230 | the value of the map |
| `SortedMap.HashMap.FindPosition` | engine/src/gos/gosHashMap.h:281-299 | the place of the key and its value, or the place where it goes, also in an empty list |
| `SortedMap.HashMap.InsertInPosition` | engine/src/gos/gosHashMap.h:158-166 | with a position from a search that did not find the key: the map with the key added |
| `SortedMap.ToMapInsert` | engine/src/gos/gosHashMap.h:112-117 | inserting at the insertion point keeps the keys strictly sorted and adds exactly that entry to the map |
| `SortedMap.ToMapRemove` | engine/src/gos/gosHashMap.h:186-187 | removing one element keeps them sorted and takes exactly that entry away |
| `SortedMap.UniqueSortedList.InsertIfNotExists` | engine/src/gos/gosUniqueSortedList.h:46-67 | refines a finite set |
| `SortedMap.UniqueSortedList.Remove` | engine/src/gos/gosUniqueSortedList.h:69-84 | refines a finite set |
| `SortedMap.UniqueSortedList.Exists` | engine/src/gos/gosUniqueSortedList.h:86-97 | membership of the set, by the same search |
| `SparseSets.SparseSet.AddIfNotExists` | engine/src/gos/gosSparseSet.h:82-116 | a new index gets a place at the end of the dense array; an index that is there gets nothing and nothing changes |
| `SparseSets.SparseSet.Remove` | engine/src/gos/gosSparseSet.h:118-155 | the map without the index, also when its page is freed before the swapped element is re-pointed |
| `SparseSets.SparseSet.Get` | engine/src/gos/gosSparseSet.h:157-168 | the place of the index's data, if it has one |
| `SparseSets.Added` | engine/src/gos/gosSparseSet.h:106-111 | sparse and dense entries are mutual inverses after an add |
| `SparseSets.Removed` | engine/src/gos/gosSparseSet.h:131-152 | and after a swap-remove |
| `SparseSets.SparseSet.PrivClear` | engine/src/gos/gosSparseSet.h:133-141 | a page goes exactly when its count of occupied slots reaches zero |
| `SparseSets.SparseSet.PrivRepoint` | engine/src/gos/gosSparseSet.h:145-152 | the page of the moved element is still there and gets the new position |
| `Words.WithMeans` | engine/src/gos/gosBit.cpp:135-144 | setting a bit through its mask sets that bit of the word and no other |
| `Words.WithoutMeans` | engine/src/gos/gosBit.cpp:146-155 | clearing a bit through its mask clears that bit and no other |
| `Words.FullMeans` | engine/src/gos/gosBit.cpp:173-174 | a word equals all ones exactly when all 64 bits are set |
| `Bitfields.FirstClear` | engine/src/gos/gosBit.cpp:176-190 | the first clear bit of a word that is not all ones, with a mask shifted along |
| `Bitfields.Bitfield.Set` | engine/src/gos/gosBit.cpp:135-144 | the set of bits with one more |
| `Bitfields.Bitfield.Clear` | engine/src/gos/gosBit.cpp:146-155 | the set of bits with one less |
| `Bitfields.Bitfield.IsBitSet` | engine/src/gos/gosBit.cpp:157-166 | membership |
| `Bitfields.Bitfield.FindAndSetFirstFreeBit` | engine/src/gos/gosBit.cpp:168-194 | yes exactly when a bit below the declared number is clear; the lowest clear bit of all the words is set, a bit of the padding only when no declared one is left; nothing changes exactly when there is no clear bit at all |
| `DynTextureArrays.DynamicTextureArray.constructor` | engine/src/gosEngine/gosEngine_dynTextureArray.cpp:15-27 | the sixteen reserved bits are set, the table is empty |
| `DynTextureArrays.DynamicTextureArray.AddIfDontExists` | engine/src/gosEngine/gosEngine_dynTextureArray.cpp:55-80 | a known handle keeps its index; a new one gets the lowest index at or above 16 nobody has; `u32MAX` exactly when every such index is taken |
| `DynTextureArrays.DynamicTextureArray.AddReserved` | engine/src/gosEngine/gosEngine_dynTextureArray.cpp:37-52 | the table with the handle added; indices stay distinct exactly when the slot was not given to another handle before |
| `DynTextureArrays.DynamicTextureArray.Remove` | engine/src/gosEngine/gosEngine_dynTextureArray.cpp:83-91 | the table without the handle; the reserved bits stay set exactly when its index was not a reserved one |
| `DynTextureArrays.AgreeAfterAdd` | engine/src/gosEngine/gosEngine_dynTextureArray.cpp:65-72 | bits and table agree after adding a handle exactly when nobody had its index |
| `DynTextureArrays.AgreeAfterRemove` | engine/src/gosEngine/gosEngine_dynTextureArray.cpp:83-91 | bits and table agree after a removal exactly when the index was not reserved |
| `BufferSparses.BufferSparse.GrowIncremental` | engine/src/gos/gosBufferSparse.cpp:99-124 | one block is chained, of the request or of the minimum, whichever is larger; all earlier bytes keep their place; nothing changes if the allocator refuses |
| `BufferSparses.BufferSparse.GrowUpTo` | engine/src/gos/gosBufferSparse.cpp:91-96 | reaches the size asked for, or changes nothing |
| `BufferSparses.BufferSparse.PrivSeek` | engine/src/gos/gosBufferSparse.cpp:164-175 | ends in the block that holds the position and at its place in it |
| `BufferSparses.BufferSparse.Write` | engine/src/gos/gosBufferSparse.cpp:200-245 | spanning any number of blocks, exactly the addressed bytes change; refused exactly when it must grow and may not or cannot, and then nothing changes |
| `BufferSparses.BufferSparse.PrivWrite` | engine/src/gos/gosBufferSparse.cpp:227-243 | the loop over the blocks is one overwrite of the flat array |
| `BufferSparses.BufferSparse.Read` | engine/src/gos/gosBufferSparse.cpp:156-197 | the addressed slice of the flat array, refused exactly outside it |
| `BufferSparses.BufferSparse.GetBufferAtOffset` | engine/src/gos/gosBufferSparse.cpp:127-153 | a place in one block with the addressed bytes; none exactly when they are outside, none, or cross a block end |
| `BufferSparses.BufferSparse.Zero` | engine/src/gos/gosBufferSparse.cpp:80-88 | every byte of every block becomes zero |
| `BufferSparses.BufferSparse.Unsetup` | engine/src/gos/gosBufferSparse.cpp:24-40 | gives back every block but a first one that is the caller's |
| `BufferSparses.BoundsTest` | engine/src/gos/gosBufferSparse.cpp:161-162 | the bounds test is right exactly when its 32-bit sum does not wrap to a value it accepts |
| `FlatBytes.FlatPatch` | engine/src/gos/gosBufferSparse.cpp:227-243 | writing inside one chunk is writing at the same place of the flat array |
| `FlatBytes.PatchTwice` | engine/src/gos/gosBufferSparse.cpp:237-242 | two writes, the second starting where the first ended, are one write |
| `Fifos.Fifo.Push` | engine/src/gos/gosFIFO.h:47-64 | the sequence with one more value last |
| `Fifos.Fifo.PushOnTop` | engine/src/gos/gosFIFO.h:68-85 | the sequence with one more value first, also when it was empty |
| `Fifos.Fifo.Pop` | engine/src/gos/gosFIFO.h:89-107 | the first value and the rest, or nothing |
| `Fifos.Fifo.Empty` | engine/src/gos/gosFIFO.h:34-45 | the empty sequence, ready for pushes |
| `MsgQs.MsgSystem.CreateMsgQ` | engine/src/gos/gosThreadMsgQ.cpp:149-176 | one more queue, empty, apart from all others; refused, and nothing changes, exactly when the handle list has no handle left |
| `MsgQs.MsgSystem.PushMsg` | engine/src/gos/gosThreadMsgQ.cpp:304-315 | the queue of the handle is the old one with one message **behind** it, which says what was given and points to a copy of exactly those bytes, or to nothing when there are none; no other queue and no other payload changes, and an unknown handle changes nothing |
| `MsgQs.MsgSystem.PushMsgOnTop` | engine/src/gos/gosThreadMsgQ.cpp:290-301 | the same with the message **in front** |
| `MsgQs.MsgSystem.PushMsgUserData` | engine/src/gos/gosThreadMsgQ.cpp:318-336 | the sender's pointer goes along, with size 0; nothing is allocated |
| `MsgQs.MsgSystem.PushMsg2Buffer` | engine/src/gos/gosThreadMsgQ.cpp:340-373 | one message behind the others, with one copy of both buffers; without a first one the second is not sent |
| `MsgQs.BothAreSent` | engine/src/gos/gosThreadMsgQ.cpp:340-373 | both buffers are sent exactly when the first one has bytes or the second one has none |
| `MsgQs.MsgSystem.PopMsg` | engine/src/gos/gosThreadMsgQ.cpp:396-407 | the first message of the queue, now owned by the reader, or nothing; the queue is the rest, no other queue and no payload changes |
| `MsgQs.MsgSystem.PopMultipleMsg` | engine/src/gos/gosThreadMsgQ.cpp:414-432 | the first so many messages and the rest, and the same state as that many single pops |
| `MsgQs.MsgSystem.DeleteMsg` | engine/src/gos/gosThreadMsgQ.cpp:435-441 | frees the payload of a popped message if it has one; a sender's own pointer is left alone |
| `MsgQs.MsgSystem.DeleteMsgQ` | engine/src/gos/gosThreadMsgQ.cpp:179-203 | every payload still in the queue is freed, in order, and no other; the handle is gone, and all other queues and what readers hold are as before |
| `MsgAccounts.PopsArePrefix` | engine/src/gos/gosThreadMsgQ.cpp:414-432 | repeated pops give a prefix and leave the rest |
| `MsgAccounts.PushedWhere` | engine/src/gos/gosThreadMsgQ.cpp:264-315 | a push puts exactly one message, with exactly what was given, at the end it is meant for |
| `MsgAccounts.SentInOrder` | engine/src/gos/gosThreadMsgQ.cpp:304-315 | any number of pushes stand behind what was there, in their order, each with its own bytes still live |
| `MsgAccounts.FirstInFirstOut` | engine/src/gos/gosThreadMsgQ.cpp:304-432 | what is pushed into an empty queue is popped in the same order, each message with its what, its parameter and its bytes |
| `MsgAccounts.PoppedTimesOk` | engine/src/gos/gosThreadMsgQ.cpp:414-432 | many pops keep the accounts and hand exactly the payloads of that prefix to the reader |
| `MsgAccounts.DrainedOk` | engine/src/gos/gosThreadMsgQ.cpp:188-194 | draining frees the payloads of exactly that queue, each once and in order, and nothing a reader holds |
| `MsgAccounts.PushedOk` | engine/src/gos/gosThreadMsgQ.cpp:264-315 | a push keeps every live payload owned by exactly one queued or popped message |
| `MsgAccounts.PoppedOk` | engine/src/gos/gosThreadMsgQ.cpp:396-407 | so does a pop |
| `MsgAccounts.DeletedOk` | engine/src/gos/gosThreadMsgQ.cpp:435-441 | and a delete, which frees a payload that was live and never frees one twice |
| `MsgAccounts.EverythingFreedOnce` | engine/src/gos/gosThreadMsgQ.cpp:179-203 | with all queues drained and every popped message deleted, every payload ever copied has been freed exactly once |
| `LoaderSteps.StepOk` | engine/src/gosEngine/gosEngine_res2.cpp:9-62 | every atomic step of engine or loader keeps the invariant: counts are the number of holders, the loader holds a reference exactly while one message carries it or a load has failed, what it holds is loading, what is being deleted nobody holds |
| `LoaderSteps.RunOk` | engine/src/gosEngine/gosEngine_res2_loaderThread_mainFN.cpp:82-146 | so the invariant holds after every run, however the two threads interleave |
| `LoaderSteps.NamedIsSafe` | engine/src/gosEngine/gosEngine_res2.cpp:119-172 | a descriptor named by a load, continue, finished or callback message, in a queue or in a popped batch, is named once, is loading, is held by the loader once, and no step destroys it or starts to |
| `LoaderSteps.LoadOnce` | engine/src/gosEngine/gosEngine_res2.cpp:214-224 | a load is asked for at most once in the life of a descriptor |
| `LoaderSteps.DestroyedIsFree` | engine/src/gosEngine/gosEngine_res2.cpp:125-171 | a descriptor is destroyed only when no client, no parent and no message holds it |
| `LoaderSteps.FailedStays` | engine/src/gosEngine/gosEngine_res2_loaderThread_mainFN.cpp:107-109 | a descriptor whose load failed stays loading and is never destroyed, for the rest of the run |
| `LoaderExamples.FailedRun` | engine/src/gosEngine/gosEngine_res2_loaderThread_mainFN.cpp:107-109 | a run with a load that fails: the loader alone holds the descriptor, and no message names it |
| `LoaderSteps.ForgottenWhenLast` | engine/src/gosEngine/gosEngine_res2.cpp:22-45 | after either message by which the engine gives the loader's reference back (loaded, or wants its callback) the message loop never destroys; the descriptor is left with nobody holding it exactly when the loader was its only holder |
| `LoaderSteps.ForgottenStays` | engine/src/gosEngine/gosEngine_res2.cpp:22-28 | and then it stays, with nobody holding it, under every step but a client taking a reference again |
| `LoaderExamples.ForgottenRun` | engine/src/gosEngine/gosEngine_res2.cpp:22-45 | a run for each of the two messages: a client asks for a load, lets go while it is under way, and the descriptor ends ready, held by nobody and still there |
| `LoaderFinish.FinishedIsThere` | engine/src/gosEngine/gosEngine_res2_loaderThread_mainFN.cpp:148-160 | in every run, when the loader is told to finish, the descriptor is in the table exactly when it was not destroyed before, and in use exactly when no client gave up the last reference before: neither the message nor the loader keeps it |
| `LoaderFinish.UsedUntilLastDrop` | engine/src/gosEngine/gosEngine_res2.cpp:119-131 | a descriptor is in use from when it was created until a client gives up the last reference, in every run |
| `LoaderExamples.FinishedTooLate` | engine/src/gosEngine/gosEngine_res2_loaderThread_mainFN.cpp:148-160 | a run in which the loader handles that message after the descriptor it names has been destroyed |
| `LoaderSteps.EngineHandleOk` | engine/src/gosEngine/gosEngine_res2.cpp:15-57 | handling any message of the engine's batch, with any answer of the callback, keeps the invariant |
| `LoaderSteps.LoaderHandleOk` | engine/src/gosEngine/gosEngine_res2_loaderThread_mainFN.cpp:82-146 | handling any message of the loader's batch, with any answer of the loader, keeps it too |
| `LoaderSteps.PopOk` | engine/src/gos/gosThreadMsgQ.cpp:414-432 | popping a batch on either side keeps it |
| `LoaderSteps.ScheduleOk` | engine/src/gosEngine/gosEngine_res2.cpp:216-224 | the state change, the reference and the message together keep it |
| `LoaderEngine.Engine.Release` | engine/src/gosEngine/gosEngine_res2.cpp:119-172 | recursive: gone are exactly descriptors nobody else held, with all their parents gone; every other one is still there with its children and status, every client and loader reference intact, and none is newly left without a holder; with another holder only the count changes |
| `LoaderEngine.Engine.PrivReleaseChildren` | engine/src/gosEngine/gosEngine_res2.cpp:150-156 | while a descriptor is being deleted its children are removed and released one by one, and the recursion never comes back to it |
| `LoaderEngine.Engine.GetOrScheduleLoad` | engine/src/gosEngine/gosEngine_res2.cpp:179-236 | true exactly for status ready and no child counted as not ready; otherwise exactly the unloaded descriptors below it, through ones neither ready nor in error, become loading, with one reference and exactly one new load message each. With right counts: true **if and only if** everything below is ready, and an unloaded descriptor is asked for **if and only if** a way leads to it past nothing in error |
| `LoaderReady.AskedWhere` | engine/src/gosEngine/gosEngine_res2.cpp:196-224 | with right counts, on a way to something unloaded nothing is ready, so the recursion goes to all that is unloaded and not behind an error |
| `LoaderReady.AnswerMeans` | engine/src/gosEngine/gosEngine_res2.cpp:179-236 | answer and statuses afterwards, for every table whose counts are those of `Readiness` |
| `LoaderReady.AssetAsks` | engine/src/gosEngine/gosEngine_res2.cpp:179-236 | an asset with the status ready and an unloaded resource is not ready, and asking for it asks for the resource, which nobody had asked for |
| `LoaderEngine.Engine.GetOrScheduleLoadWaiting` | engine/src/gosEngine/gosEngine_res2.cpp:179-274 | schedules exactly what one call of `GetOrScheduleLoad` asks for, then does one round after the other, exactly as the machine does them, until ready, in error or out of time, and no round more; true exactly when ready at the end; none when it was ready or in error at the start |
| `LoaderEngine.Engine.FlushLoaderThreadMsg` | engine/src/gosEngine/gosEngine_res2.cpp:9-62 | the first sixteen messages, or all, leave the queue; the replies stand behind what was queued for the loader, in order; each named descriptor has the status its callback answered and one reference less, unless the loader goes on, and no other descriptor changes |
| `LoaderEngine.Engine.LoaderThreadBatch` | engine/src/gosEngine/gosEngine_res2_loaderThread_mainFN.cpp:66-146 | the first sixty-four messages, or all, leave the queue; one answer to each request stands behind what was queued for the engine, in order, also after one that says to stop; no descriptor changes |
| `LoaderBatches.EngineReplies` | engine/src/gosEngine/gosEngine_res2.cpp:15-57 | handling a batch message by message: which replies go out, and what becomes of the descriptors it names, each of them named once |
| `LoaderBatches.LoaderAnswers` | engine/src/gosEngine/gosEngine_res2_loaderThread_mainFN.cpp:82-146 | one answer to each request to load or to go on, in order, and none to the others |
| `LoaderEngine.Engine.CallbackOnFileLoaded` | engine/src/gosEngine/gosEngine_res2.cpp:79-95 | status ready, error or unchanged by the callback's answer; without a function a failure that leaves the status as it is |
| `LoaderEngine.Engine.AddChild` | engine/src/gosEngine/res2/res2.cpp:299-316 | a client's reference becomes the parent's, which has one more child in front; the parent may be any descriptor, also an asset |
| `LoaderEngine.Engine.RemoveChild` | engine/src/gosEngine/res2/res2.cpp:319-363 | the first place of the child goes; its reference is the caller's, and the invariant of the class stays |
| `LoaderEngine.Engine.PrivDropRef` | engine/src/gosEngine/res2/res2.cpp:256-265 | the count goes down by one; at zero the deletion starts |
| `LoaderEngine.Engine.PrivDestroy` | engine/src/gosEngine/res2/res2.cpp:271-287 | the descriptor is gone; nobody held it |
| `LoaderEngine.Engine.CreateAsset` | engine/src/gosEngine/gosEngine.h:255-303 | an asset is ready from the start, with its resource as its only child |
| `LoaderEngine.Engine.AssetHotReload` | engine/src/gosEngine/gosEngine.cpp:417-450 | the asset gives its resource up: if somebody else holds that, it only loses a reference, and otherwise it goes. When the database knows the asset, its only child then is the known descriptor of the signature if that has outlived the release, with one reference more, and a new unloaded one otherwise, and nothing else changes; when not, it has none. It keeps its status, and every asset has its one resource **if and only if** the database knows it |
| `Readiness.Resources.ChangeState` | engine/src/gosEngine/res2/res2.cpp:219-248 | after a change of status every count is again the number of children that are not ready, however far up the news has to travel; with `CountsAreDetermined` this is the whole new state |
| `Readiness.Resources.ChildNotReady` | engine/src/gosEngine/res2/res2.cpp:149-169 | telling one parent that a child stopped being ready settles one of the counts still owed and, if the parent stops being ready, all that follow from it |
| `Readiness.Resources.ChildReady` | engine/src/gosEngine/res2/res2.cpp:172-196 | the same when a child becomes ready; the asserted count is positive |
| `Readiness.Resources.AddChild` | engine/src/gosEngine/res2/res2.cpp:299-316 | both lists gain one place, and the counts of the parent and of everything above it become right |
| `Readiness.Resources.RemoveChild` | engine/src/gosEngine/res2/res2.cpp:319-363 | the lists stay each other's mirror **if and only if** the parent was first in its child's list, and the counts stay right **if and only if** the parent does not become ready by this or has no parents |
| `Readiness.ReadyMeans` | engine/src/gosEngine/res2/res2.cpp:212-216 | with right counts a descriptor is ready exactly when its own status and those of everything below it are |
| `Readiness.CountsAreDetermined` | engine/src/gosEngine/res2/res2.cpp:219-248 | statuses and lists leave only one possibility for all the counts |
| `ReadinessExamples.NewerParentForgotten` | engine/src/gosEngine/res2/res2.cpp:319-363 | two parents wait for one child, the older one removes it, the child becomes ready, and the newer one stays not ready with everything below it ready |
| `ReadinessExamples.GrandparentNotTold` | engine/src/gosEngine/res2/res2.cpp:333-339 | a parent loses its last child that was not ready, and its own parent stays not ready with everything below it ready |
| `LoaderWays.BelowUnfolds` | engine/src/gosEngine/gosEngine_res2.cpp:196-212 | what the recursion visits from a descriptor is itself and what it visits from its children, unless it is ready or in error |
| `LoaderWays.ReleasingOne` | engine/src/gosEngine/gosEngine_res2.cpp:151-156 | removing and releasing one child keeps what is known about a deletion under way |

## Left out

What the callers must guarantee, and what a contract therefore asks for:

- BlobBuilder.DefBuilder.AddSimpleTypeAtOffset: names of at most 243 characters (headers are decoded through a window of 256 bytes), and sizes and positions that fit 16 bits, because the source stores them in 16-bit fields without a test.
- BlobBuilder.DefBuilder.StructBeginAtOffset: at most 15 open composites (the 32-slot stack drops what does not fit).
- BlobBuilder.DefBuilder.StructEnd: begin and end calls are balanced; the source pops whatever is on the stack.
- BlobBuilder.DefBuilder.ArrayBeginAtOffset: dimensions from 1 to 65535.
- BlobBuilder.DefBuilder.ArrayEnd: one slot of an array takes at most 255 bytes, because the stride is stored in one byte.
- BlobReader.DefReader.GetOffset: composites with at least one member (the source reads past an empty one), and index lists of at most 8 numbers (the source's array). A path comes as a list of names and index lists: splitting the string and reading its numbers rests on string functions that are not part of this model. A name is a sequence without the terminating zero. A component with its brackets has at most 127 bytes: the source copies it into 128 bytes, so a longer one, which the builder accepts up to 243, does not come through whole.
- BlobReader.Walk: the same descriptions with non-empty composites.
- AssetDb.DBContext.DependencyGetRequireByList: acyclic dependencies; with a cycle the source does not end.
- AssetDb.DBContext.DependencyGetDependeciesList: acyclic dependencies, for the same reason.
- AssetScan.ScanLists.PrivResourceScanDB: tables are sets and maps, the rows are those the sorted query saw at its start, and the files are a snapshot. Dependencies are acyclic, every father has a row, and assets are declared by gosasset_d files, as the rest of the builder guarantees. The list of deleted files starts empty.
- AssetDb.UidList.InsertIfNotExists: UID lists are sets here; that the sorted array behind them refines a set is proved in `SortedMap`.
- SparseSets.SparseSet.AddIfNotExists: pages are found in a map, for the same reason.
- AssetScan.UpdatedAssets: the logging of the list and the copy into the result list are not part of this model.
- Handles.Unpack: the masks and shifts of the fields are quotients and remainders by powers of two.
- SortedMap.BinarySearch: keys are integers; any type with a total order behaves the same.
- SortedMap.HashMap.InsertInPosition: the position comes from a search without a change in between.
- DynTextureArrays.DynamicTextureArray.AddReserved: a handle that is known comes with its own index, as the source asserts.
- BufferSparses.BufferSparse.Write: offset plus length, and the size after growing, fit 32 bits, and no block is empty; the source asserts the latter. What new memory holds is arbitrary. The destination of a read is a returned sequence instead of the caller's memory.
- MsgQs.MsgSystem.CreateMsgQ: the handle comes from the handle list, which is proved apart in `Handles`; here a queue is found by its handle in a map. Mutexes and the event are not part of this model: every operation is one step under the lock of the queue.
- MsgQs.MsgSystem.DeleteMsg: every popped message is deleted at most once, as the documentation asks. Addresses are numbers that are never used twice.
- LoaderEngine.Engine.GetOrScheduleLoad: children form no cycle, and the descriptor asked for is not being deleted.
- LoaderEngine.Engine.GetOrScheduleLoadWaiting: the clock is a number of rounds, and in a round the loader thread gets one batch done or none.
- LoaderEngine.Engine.ChangeState: the counts of children not ready may become anything here whenever a state or a list of children changes, so what is proved in `LoaderEngine` holds for any way of spreading; how they do spread is proved apart, in `Readiness`. Nothing in `LoaderEngine` depends on the lists of parents.
- LoaderEngine.Engine.Create: the maps of known signatures and assets, handles and their memory are not part of this model; a descriptor is a number that is never used twice. Counts are unbounded here; the source asserts they stay below 65535.
- LoaderEngine.Engine.CreateAsset: the caller holds the resource before the asset is made; in the source it is looked up right after.
- LoaderEngine.Engine.AssetHotReload: whether the database still has the asset, and which descriptor its signature has, are inputs; the pointer to the resource's data is not part of this model.
- LoaderEngine.Engine.LoaderThreadBatch: the loaders are a sequence of answers. What is popped but not handled when the thread ends is not followed further.
- LoaderSteps.NamedIsSafe: says nothing about the finished message to the loader; `LoaderFinish` does.
- Readiness.Resources.AddChild: children form no cycle; with one the source would tell parents without end.
- Readiness.Resources.ChangeState: the function called for a resource that became ready is not part of this model.

Not modelled at all:

- Vulkan, windows, input, sockets, console, logger and file access, and SQLite itself.
- The asset builders, and whether a file in the rebuild list really gets rebuilt.
- Ini and JSON text, paths, wildcard matching, UTF-8.
- `deserializMsg` reads the 64-bit parameter with a 32-bit read, so messages have no round trip through bytes.
- `appendStr`, `append` and the pad and float writers of the buffers: easy, or not doing what their names say.
- Iterating a sparse set, `findFirstFreeBit`, `findFirstSetBit`, and plain getters: they would only add easy members.
- Raw memory, alignment and overlapping copies.
