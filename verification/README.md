# Weight cache, storage scan and rollout bookkeeping: model and proofs

A Dafny model of the parts of the repository that do intricate bookkeeping, and proofs of what that bookkeeping is for.
`dafny verify dfyconfig.toml` checks the whole project.

* **The static weight cache, end to end** (`static_weight_cache/`). `Packing` says which tensor goes into which bucket
  and at which byte; `HostMem`, `Models` and `EndToEnd` are the pool, the loader and the server as classes that
  change arrays and dictionaries in place; `Framing` and `Transfer` are the request and reply frames over byte
  channels whose `recv` hands out any part of what is pending; `Slicing` and `EndToEnd.Client` read bucket after bucket
  into one buffer and cut tensors out of it; `DTypeSizes` reads element sizes off the dtypes' names. `Wire` interleaves the bytes of both sides of a connection; `Publication`
  interleaves loading, registering, queries and reads.
* **The storage scan** (`bench/nfs_scan.py`). `Partitions` cuts concatenated files into aligned pieces and reads them;
  `Balance` spreads the pieces over streams, longest first.
* **The JSON parser of CollabLLM** (`verl-recipe/collabllm/utils.py`). `Json` gives each nested parse function its
  meaning, `JsonParser` has the loops, `JsonRoundTrip` documents in every form they may be written in and what parsing them
  gives, `JsonGrammar` that nothing else is accepted, `JsonValues` what strings, numbers and repeated keys become.
* **The Dynamo recipe** (`verl-recipe/dynamo/`). `Shards` and `ShardAgreement` relate the launcher's slicing of nodes to
  the indices the trainer-side adapters compute; `MemoryTags` and `MemoryTagLock` are the release and resume of GPU
  memory; `ProgramScopes` is draining and finalizing a program; `Finalize`, `SessionTracking`, `FinalizeAccounting`,
  `FinalizeTargets` and `LostServers` are the servers recorded for a session, whom the finalize attempts ask, the leak
  counter and what it misses.
* **GVPO** (`verl-recipe/gvpo/`). `GroupedBatch` is the two-phase reordering of a batch, `Gae` and `Rloo` are advantage
  estimators over real numbers.
* **ECHO** (`verl-recipe/echo/agent_loop.py`). `Echo` is the loop's four parallel lists and the difference of two
  renderings that finds a terminal output among template tokens; `EchoRuns` compares whole runs with a transcript.
* `Bytes`, `OrderedDict`, `Wrappers`, `Arithmetic` and `Protocol` hold what these share.

Code that changes things step by step is a method or a class here, proved against a function of its inputs or its old
state; the theorems are about those functions. Concurrency is a state machine: `Enabled` and `Apply` say what each
step does, `IsRun` what a run is, and the theorems hold at every state of every run. What comes from outside (the
bytes a `recv` returns, which control calls fail, what a model or a tokenizer answers, where a buffer lands in memory)
is a parameter or an arbitrary event.

## Where the code and what is said about it differ

* `_recv_exact` is documented to return `None` when the connection is closed cleanly at a message boundary. It also
  returns `None` in the middle of a message; `Transfer.RecvExact` follows the code.
* After a rejected request or a lost connection a peer entry is kept and never reconnected, so every later read fails;
  `EndToEnd.Client.ReceiveWeights` says so.
* `sglang_release` is there to keep an engine from getting a double release. A tag that a caller names twice is passed
  on twice. `MemoryTags.OpKeepsProper` states exactly when a call is proper.
* A failed release leaves the worker paused, and resume skips a shard that has nothing recorded. Such a shard stays out of
  discovery until a later release on it returns and after that a resume: `MemoryTags.WhenStranded` says which shards these
  are, `MemoryTags.StrandedUntilRestored` exactly when they come back.
* The comment in the vLLM adapter says that both sides build the same socket name. They do for every rank if and only if
  no replica continues from the middle of one node into the next: `ShardAgreement.SocketsPair`, with a layout where
  they do not in `ShardAgreement.UnevenLayoutMispairs`.
* The two leave-one-out estimators are meant to be the same. They differ on a sample that is alone in its prompt and
  has a non-zero score: `Rloo.FormsAgree`.
* `_finalize_with_recovery` is meant to reach or count every server that was acquired for a session. It does when calls of
  the session overlap neither each other nor a call with the same request id: `LostServers.SeparateSessionLosesNothing`.
  In general a server is lost exactly as `LostServers.LostIff` says, and `LostServers.SharedSessionLosesServer` is a
  complete run in which both calls end confirmed, nothing is counted and an acquired server was never asked.
* An observation whose tokens end before the span that is to be marked raises in `_append_observation` after the turn end
  was appended; `Echo.EchoAgentLoop.AppendObservation` follows the code.
* The tokens of a warning are meant to be left out of the auxiliary targets, and the environment's output to be all of
  them. `Echo.WarningIsLeftOut` says for which tokens that holds.
* A string value that looks like a number, a boolean or null does not survive printing and parsing:
  `JsonRoundTrip.NumberLikeStringIsLost`, and exactly which documents survive in `JsonRoundTrip.ExtractInvertsPrint`.

## Model

| member | source | states |
|---|---|---|
| `Packing.AlignUpIsLeastMultiple` | static_weight_cache/host_mem_manager.py:49-54 | rounding up gives the least multiple of the alignment that is not below the value, and adds less than one alignment |
| `Packing.ProductFirst` | static_weight_cache/client.py:118-118 | the number of elements of a shape is the product of its dimensions, from either end |
| `Packing.RunSound` | static_weight_cache/model_manager.py:127-172 | after any tensor list the buckets tile the bytes taken without a gap; each is aligned, large enough and non-empty, an oversized tensor is alone and all other buckets have the regular size |
| `Packing.PlaceInBounds` | static_weight_cache/model_manager.py:224-237 | the place chosen for a tensor lies inside the bytes taken and past everything any bucket already holds, so the bounds check never fires |
| `Packing.StepHolds` | static_weight_cache/model_manager.py:127-172 | writing one tensor at its place turns a memory that holds the buckets so far into one that holds the buckets of the next state |
| `Packing.PackedWithin` | static_weight_cache/model_manager.py:127-180 | the content of each bucket lies inside its capacity and inside the bytes the load takes |
| `Packing.StillHolds` | static_weight_cache/model_manager.py:174-180 | a load's buckets keep their content while nobody writes below where the load ended |
| `Packing.PackPreservesOrder` | static_weight_cache/model_manager.py:127-172 | the buckets' tensors one after another are the given list: none lost, none doubled, none moved |
| `Packing.ConsumedMonotone` | static_weight_cache/model_manager.py:127-172 | a prefix of a tensor list never takes more bytes than the whole list |
| `Packing.PackIsLegal` | static_weight_cache/model_manager.py:127-172 | the loop's own buckets are a split of the list that obeys the packing rules |
| `Packing.GreedyStaysAhead` | static_weight_cache/model_manager.py:127-172 | on every prefix greedy packing has fewer buckets than any legal split, or as many with no more in the open one |
| `Packing.GreedyIsOptimal` | static_weight_cache/model_manager.py:127-172 | no order-preserving split that obeys the rules uses fewer buckets than the loop does |
| `Packing.SpacePotential` | static_weight_cache/model_manager.py:127-172 | a potential bounds the bytes taken at every iteration, whether or not a bucket is open |
| `Packing.SpaceBound` | static_weight_cache/model_manager.py:127-172 | a load takes at most twice the regular bytes, one regular bucket per oversized tensor and one more, and the aligned oversized sizes |
| `HostMem.TiledPartition` | static_weight_cache/host_mem_manager.py:213-238 | a tiled pool has every byte below the end in exactly one bucket, buckets in address order, all offsets aligned |
| `HostMem.HostMemManager.constructor` | static_weight_cache/host_mem_manager.py:168-181 | wherever the raw buffer lands, the pool is an aligned window of the full capacity inside it and starts without buckets |
| `HostMem.HostMemManager.Create` | static_weight_cache/host_mem_manager.py:111-181 | a manager is made exactly for a positive capacity |
| `HostMem.HostMemManager.AllocateBucket` | static_weight_cache/host_mem_manager.py:196-238 | an allocation succeeds exactly when the rounded size is positive and fits; it appends one extent with the next id and keeps the tiling; a refused one changes nothing |
| `Protocol.CatalogueAppend` | static_weight_cache/protocol.py:65-73 | adding a bucket to a load adds its entry to the metadata and changes no other |
| `Protocol.IndexAppend` | static_weight_cache/model_manager.py:163-169 | appending a tensor adds its entry at the offset where its bytes begin |
| `Models.ModelManager.CopyTensorToBucket` | static_weight_cache/model_manager.py:224-237 | the copy is refused exactly when it would leave the bucket; otherwise these bytes and no others change |
| `Models.ModelManager.FlushBucket` | static_weight_cache/model_manager.py:104-125 | the open bucket's entry is appended to the metadata with what it really holds; all loop variables again mirror the packing state |
| `Models.ModelManager.OpenBucket` | static_weight_cache/model_manager.py:151-156 | a bucket is opened exactly when the rest of the pool has room for it; otherwise nothing changes and earlier models keep bytes and buckets |
| `Models.ModelManager.AppendTensor` | static_weight_cache/model_manager.py:158-169 | bytes, dictionary and offset move on together so that the pool holds the packing state with the tensor added, and nothing below the load's origin is written |
| `Models.ModelManager.PackOversized` | static_weight_cache/model_manager.py:136-149 | an oversized tensor gets a closed bucket of its own, exactly when it fits |
| `Models.ModelManager.PackRegular` | static_weight_cache/model_manager.py:151-169 | the loop's test on its own variables is the packing rule's test; the state after it is the rule's next state |
| `Models.ModelManager.LoadFromNamedTensors` | static_weight_cache/model_manager.py:67-182 | a load succeeds exactly when the id is new and the packed buckets fit; then the metadata describes those buckets and the pool holds their tensors; whatever happens earlier models' metadata, buckets and bytes stay |
| `Framing.RequestRoundTrip` | static_weight_cache/transfer_backend.py:276-276 | a packed request unpacks to the same operation, address and length |
| `Framing.ReplyHeaderRoundTrip` | static_weight_cache/transfer_backend.py:288-288 | a packed reply header unpacks to the same status and length |
| `Framing.ServedIsCovered` | static_weight_cache/transfer_backend.py:298-301 | a range accepted for reading lies completely inside the served memory |
| `Framing.ServeFirst` | static_weight_cache/transfer_backend.py:269-301 | byte for byte: a request to read inside a registered region is answered with 0, its length and the bytes at its address, then what follows it is served; any other with 1 and length 0, and the connection ends |
| `Bytes.BigEndianDigit` | static_weight_cache/transfer_backend.py:53-54 | in a packed integer each byte is the digit of its place, most significant first |
| `Framing.ServeOne` | static_weight_cache/transfer_backend.py:272-289 | one request is answered with a header and exactly the bytes at that address, or rejected and the connection ended |
| `Transfer.RecvExact` | static_weight_cache/transfer_backend.py:343-353 | under any chunking exactly the next bytes are taken from the stream, or nothing is returned when it ends first |
| `Transfer.RecvIntoExact` | static_weight_cache/transfer_backend.py:356-364 | under any chunking the target's first bytes become the next bytes of the stream and the rest of it stays |
| `Transfer.TcpServer.RegisterRegions` | static_weight_cache/transfer_backend.py:305-308 | regions are appended and all remain inside the served memory |
| `Transfer.TcpServer.ServeRequest` | static_weight_cache/transfer_backend.py:273-289 | one turn of the serve loop takes one request off the stream and appends its reply, rejecting exactly what is not a registered range |
| `Transfer.TcpServer.ServeConn` | static_weight_cache/transfer_backend.py:269-296 | the loop over a connection writes exactly the replies that the request stream stands for and ends at the first rejection |
| `Transfer.TcpPeer.Receive` | static_weight_cache/transfer_backend.py:314-321 | from a reply or any cut-off part of it the reader gets the data, a rejection, or a closed connection, each exactly when it should, and writes nothing past the data |
| `Transfer.TcpPeer.Read` | static_weight_cache/transfer_backend.py:310-321 | a read over a working connection puts exactly the remote bytes into the buffer; over one that broke or was lost before it fails |
| `Wire.StepKeepsInv` | static_weight_cache/transfer_backend.py:269-321 | moving any number of bytes in either direction and breaking the connection keep both streams, what was parsed and what was written consistent, and come closer to the end |
| `Wire.StuckMeansFinished` | static_weight_cache/transfer_backend.py:269-321 | with any positive room in each direction reader and server never wait for each other for ever, and after a break the server stops |
| `Wire.EveryRunDelivers` | static_weight_cache/transfer_backend.py:269-321 | under every interleaving of byte moves over channels of any positive room, with a break at any moment, the finished reads got exactly their bytes in order and only the last can fail, with the connection; the number of steps is bounded, and a run stops only when all reads are done or one was refused or failed |
| `Slicing.TableCoversSupported` | static_weight_cache/client.py:145-151 | the client knows the written name of a dtype exactly for the dtypes in its table |
| `Slicing.TableIsComplete` | static_weight_cache/client.py:145-151 | the table has exactly the names of its dtypes and three second names, each for the right dtype |
| `DTypeSizes.ElementSizeIsSpelled` | static_weight_cache/client.py:118-118 | an element has as many bits as the first number in its dtype's name says, eight if there is none |
| `DTypeSizes.RealTensorIsHandedOut` | static_weight_cache/client.py:115-121 | a tensor with as many bytes as its shape and its dtype's name say is cut out of the buffer as it is if and only if the client knows the dtype and the offset is a whole number of elements |
| `Slicing.BucketRoundTrip` | static_weight_cache/client.py:113-121 | slicing a bucket's image by its index gives back its tensors exactly when names differ, dtypes are known and offsets are multiples of the element size |
| `Slicing.IndexLists` | static_weight_cache/model_manager.py:143-169 | a bucket's dictionary has every name once and at it the last tensor of that name |
| `Slicing.BufferYields` | static_weight_cache/client.py:113-121 | slices depend only on the bucket's own bytes, not on what a larger reused buffer has behind them |
| `Slicing.FailedDeliveryStays` | static_weight_cache/client.py:103-121 | after the first error nothing more is handed out |
| `Slicing.RoundTripExactly` | static_weight_cache/model_manager.py:127-172 | packing, indexing and slicing give the same tensors in the same order if and only if every packed bucket is readable |
| `Slicing.UniformModelIsReceivable` | static_weight_cache/client.py:115-121 | a model of one supported dtype and distinct names is always readable |
| `EndToEnd.WeightCacheServer.RegisterBuckets` | static_weight_cache/server.py:148-150 | each bucket of the load is looked up by id and becomes readable in full |
| `EndToEnd.WeightCacheServer.LoadNamedTensors` | static_weight_cache/server.py:152-160 | a successful load is published: described truthfully, held completely, readable; no load disturbs a model published before |
| `EndToEnd.WeightCacheServer.HandleQuery` | static_weight_cache/server.py:162-183 | a query is answered exactly for models that are loaded |
| `EndToEnd.QueryDescribesModel` | static_weight_cache/protocol.py:65-72 | for a published model the answer has per packed bucket its address, its capacity, the sum of the sizes of its tensors, and a dictionary of exactly those tensors with shape, dtype name, offset and size |
| `EndToEnd.Client.ResizeRecvBuf` | static_weight_cache/client.py:78-90 | the buffer is replaced exactly when it is too small and never shrinks |
| `EndToEnd.Client.ReceiveBucket` | static_weight_cache/client.py:106-121 | one bucket yields exactly what its tensors stand for although the buffer still holds older bytes |
| `EndToEnd.Client.ReceiveWeights` | static_weight_cache/client.py:92-121 | a model comes back bucket by bucket over one connection: all that its packing stands for, or what the buckets before the break stand for and the error |
| `EndToEnd.ReceptionIsExact` | static_weight_cache/client.py:103-121 | what is received over a working connection is the loaded list, name by name, shape, dtype and bytes, if and only if the model is receivable |
| `EndToEnd.ReceptionIsPrefix` | static_weight_cache/client.py:103-121 | whatever bucket the connection breaks in, what was handed out is a prefix of the loaded list, and there is an error exactly when it breaks |
| `Publication.StepKeepsInv` | static_weight_cache/server.py:142-183 | no step of a load changes published metadata or bytes, also when it fails half way |
| `Publication.RunKeepsInv` | static_weight_cache/server.py:142-183 | over any interleaving what was published, registered or returned once stays so |
| `Publication.RevealedModelsAreFinal` | static_weight_cache/model_manager.py:174-180 | whatever a query reveals is completely written at that moment, and neither its metadata nor its bytes ever change afterwards |
| `Publication.ReturnedModelsAreServed` | static_weight_cache/server.py:148-150 | once a load returned, reading exactly an advertised bucket is accepted at all later moments and gives the bucket's bytes |
| `Publication.OnlyPublishedBytesAreServed` | static_weight_cache/transfer_backend.py:298-301 | a range that may be read always lies in a bucket of a published model |
| `Partitions.BuildPartitions` | bench/nfs_scan.py:108-134 | the two nested loops produce the pieces of each file in each stream's share, in that order |
| `Partitions.FilePiecesInOrder` | bench/nfs_scan.py:129-133 | a file's pieces lie inside it, in order and without overlap, each at least one block, and aligned if the file begins aligned |
| `Partitions.PiecesInsideFiles` | bench/nfs_scan.py:126-133 | each piece belongs to one of the files and ends inside it |
| `Partitions.FewBytesMissed` | bench/nfs_scan.py:126-133 | of a file's bytes below the total fewer than two blocks are in no piece |
| `Partitions.AlignedFilesCoverTotal` | bench/nfs_scan.py:108-134 | if all sizes are multiples of the block size the pieces cover the total exactly |
| `Partitions.PiecesAreEven` | bench/nfs_scan.py:121-133 | no piece is more than one block longer than an equal part of the total |
| `Partitions.PieceReadsTile` | bench/nfs_scan.py:209-225 | a piece is read without gap or overlap from its start to its last whole block, never past its end, in reads no longer than the chunk |
| `Partitions.PlannedBytes` | bench/nfs_scan.py:206-225 | all rounds together read the whole blocks of all pieces once per round |
| `Partitions.RoundsReadPlaces` | bench/nfs_scan.py:206-225 | byte by byte: each round fetches the whole blocks of every piece of the work, piece after piece in the given order, each from its first byte on |
| `Partitions.ReadPiece` | bench/nfs_scan.py:209-225 | the inner loop does the planned reads of a piece and stops at the first short one |
| `Partitions.ReadWork` | bench/nfs_scan.py:182-225 | the completed reads all fit their files and are a prefix of the plan, all of it exactly when no read is short, which pieces inside their files guarantee; the next one after a short end does not fit its file; the bytes fetched are those of the rounds in order, as far as they came; a chunk below one block is refused |
| `Balance.LoadsAddUp` | bench/nfs_scan.py:137-149 | the loads of all streams add up to all the work |
| `Balance.ListSchedulingBound` | bench/nfs_scan.py:143-149 | in any order, no stream gets more than 2 - 1/n times the heaviest load of any other assignment |
| `Balance.LongestFirstBound` | bench/nfs_scan.py:143-149 | longest first, no stream gets more than 4/3 - 1/(3n) times the heaviest load of any other assignment |
| `Balance.LongestFirstBoundIsTight` | bench/nfs_scan.py:143-149 | five jobs on two streams reach that bound |
| `Balance.LongestFirst` | bench/nfs_scan.py:145-145 | sorting keeps the multiset of pieces |
| `Balance.LongestFirstDescending` | bench/nfs_scan.py:145-145 | sorting orders by length, longest first |
| `Balance.LongestFirstStable` | bench/nfs_scan.py:145-145 | pieces of equal length keep their order |
| `Balance.IndexOfMin` | bench/nfs_scan.py:146-146 | the first stream of least load is found |
| `Balance.AssignBalanced` | bench/nfs_scan.py:137-149 | buckets and load counters are those of the greedy rule on the sorted pieces |
| `Balance.SharesArePartition` | bench/nfs_scan.py:143-149 | the buckets together are the given pieces: none lost, none doubled |
| `Balance.LoadIsShareLength` | bench/nfs_scan.py:147-148 | a load counter is the number of bytes in its bucket |
| `Balance.SortAssignment` | bench/nfs_scan.py:145-148 | every assignment of the given list is matched by one of the sorted list with the same loads |
| `Balance.BalancedWell` | bench/nfs_scan.py:137-149 | for every other assignment of the given pieces both bounds hold of what is returned, with counters and contents in agreement |
| `Json.ParseValue` | verl-recipe/collabllm/utils.py:187-208 | every value that is read moves the cursor forward and keeps it inside the text |
| `Json.SkipWs` | verl-recipe/collabllm/utils.py:81-84 | white space is skipped to the first other character or the end |
| `Json.FindKey` | verl-recipe/collabllm/utils.py:132-132 | assigning to a dictionary finds the first key that Python counts as equal |
| `JsonParser.ReadString` | verl-recipe/collabllm/utils.py:86-108 | the loop over escapes reads what the specification says of the text |
| `JsonParser.ReadObject` | verl-recipe/collabllm/utils.py:118-144 | the loop over members fills the dictionary as specified and fails exactly where specified |
| `JsonParser.ReadArray` | verl-recipe/collabllm/utils.py:146-165 | the loop over elements fills the list as specified |
| `JsonParser.ReadValue` | verl-recipe/collabllm/utils.py:187-208 | the mutually recursive readers terminate and agree with the specification on every text and position |
| `JsonParser.Extract` | verl-recipe/collabllm/utils.py:53-219 | extraction agrees with the specification on every text, also when it fails |
| `JsonRoundTrip.ParsePrinted` | verl-recipe/collabllm/utils.py:187-208 | a written document of any nesting and spacing, with strings in single, double or triple quotes and any escapes, words in any case, numbers in any form and trailing commas, is read up to its last character, anywhere in a text |
| `JsonRoundTrip.ExtractPrinted` | verl-recipe/collabllm/utils.py:210-219 | a written object between text without an opening brace before and a closing one after it is found and read |
| `JsonRoundTrip.ValueSurvives` | verl-recipe/collabllm/utils.py:54-65 | a document keeps its value if and only if all strings and keys stay strings and no object repeats a key |
| `JsonRoundTrip.ExtractInvertsPrint` | verl-recipe/collabllm/utils.py:53-219 | extraction gives the printed object back if and only if it is such a document |
| `JsonRoundTrip.EveryTextCanBeWritten` | verl-recipe/collabllm/utils.py:86-108 | with either quote every text can be written so that it is what is meant |
| `JsonGrammar.ValueIsWritten` | verl-recipe/collabllm/utils.py:187-208 | whatever is read as a value is a written document, and the value is what that document says |
| `JsonGrammar.ExtractIffWritten` | verl-recipe/collabllm/utils.py:53-219 | extraction gives a value if and only if a written object that stands for it lies between the text's outermost braces; on every other text it fails |
| `JsonValues.ConvertMeans` | verl-recipe/collabllm/utils.py:54-65 | a string becomes true, false or null in any case, a float if it has a point or an exponent and Python reads it, an integer if and only if it is an optional sign, zeros and a number's digits, else it stays |
| `JsonValues.LastMemberWins` | verl-recipe/collabllm/utils.py:118-144 | an extracted object has each different key of its text once, in order of first occurrence, with the value of the last member whose key equals it |
| `JsonRoundTrip.NumberLikeStringIsLost` | verl-recipe/collabllm/utils.py:54-65 | the string "12" comes back as the number 12 |
| `Shards.GroupByNode` | verl-recipe/dynamo/dynamo_async_server.py:3427-3435 | the loop over a replica's workers groups their GPUs by node in rank order and meets new nodes in order of first appearance |
| `Shards.AppendReplica` | verl-recipe/dynamo/dynamo_async_server.py:3437-3463 | each touched node gets the replica's whole shards appended; it fails exactly on a node with a partial shard |
| `Shards.LaunchPool` | verl-recipe/dynamo/dynamo_async_server.py:3382-3463 | the launch succeeds exactly when the ranks make whole replicas and each replica whole shards on every node; then nodes and shards are in the specified order |
| `Shards.EveryGpuIsServed` | verl-recipe/dynamo/dynamo_async_server.py:3422-3463 | in any layout that is launched a node's shards have exactly the GPUs of its workers, in rank order, one TP size to a shard |
| `ShardAgreement.BuildShardTpGroup` | verl-recipe/dynamo/dynamo_sglang_rollout.py:186-198 | the loop gives a rank the one block of consecutive ranks that it is in, exactly when the world divides |
| `ShardAgreement.SegmentGpus` | verl-recipe/dynamo/dynamo_async_server.py:3427-3435 | the GPUs of a replica on a node are those of the ranks where replica and node overlap, in rank order |
| `ShardAgreement.SlicesContinue` | verl-recipe/dynamo/dynamo_async_server.py:3443-3461 | slicing one replica's part of a node continues the shards of the replicas before it without gap |
| `ShardAgreement.NodeIsSliced` | verl-recipe/dynamo/dynamo_async_server.py:3422-3463 | after any number of replicas a node's shards tile its ranks up to where those replicas reach |
| `ShardAgreement.NodeShards` | verl-recipe/dynamo/dynamo_async_server.py:3422-3463 | a node gets one shard per TP size of its ranks, each with the GPUs, the replica and the offset of its ranks, for any replica size that is a multiple of the TP size |
| `ShardAgreement.TrainerAndLauncherAgree` | verl-recipe/dynamo/dynamo_sglang_rollout.py:121-133 | the node, shard and place that an adapter computes hold its rank's GPU, and that shard is its TP group |
| `ShardAgreement.LaunchCluster` | verl-recipe/dynamo/dynamo_async_server.py:3390-3465 | a contiguous layout is launched: nodes in order, the shards just described, one engine per TP size of ranks |
| `ShardAgreement.SocketsPair` | verl-recipe/dynamo/dynamo_vllm_rollout.py:70-84 | sender and engine use one socket name if and only if the rank's replica begins on the rank's node or at the first rank of some node |
| `ShardAgreement.DivisibleLayoutsPair` | verl-recipe/dynamo/dynamo_vllm_rollout.py:70-84 | they always do when replicas fill nodes or nodes fill replicas |
| `ShardAgreement.UnevenLayoutMispairs` | verl-recipe/dynamo/dynamo_vllm_rollout.py:70-84 | twelve ranks, four to a node, in replicas of six: rank 8 sends to a name its engine does not listen on |
| `ShardAgreement.NamesDifferOnANode` | verl-recipe/dynamo/dynamo_vllm_rollout.py:70-84 | two ranks on one node never send to one name, whatever divides what |
| `MemoryTags.TagServer.SizeRecords` | verl-recipe/dynamo/dynamo_async_server.py:353-358 | records are sized to the engines on first use and kept afterwards |
| `MemoryTags.TagServer.RefreshView` | verl-recipe/dynamo/dynamo_async_server.py:360-362 | the node view becomes the union of the shards' records |
| `MemoryTags.TagServer.Fanout` | verl-recipe/dynamo/dynamo_async_server.py:486-498 | exactly the targets are called, once each, and their results come back in order |
| `MemoryTags.TagServer.RecordResults` | verl-recipe/dynamo/dynamo_async_server.py:400-406 | exactly the shards whose call returned are recorded, the others reported |
| `MemoryTags.TagServer.Release` | verl-recipe/dynamo/dynamo_async_server.py:364-420 | the new records, view and engines are those of the specified operation, and it fails with exactly the shards that needed a tag and raised |
| `MemoryTags.TagServer.Resume` | verl-recipe/dynamo/dynamo_async_server.py:422-484 | the same for resume, which is widened to everything a shard has released |
| `MemoryTags.WantedTags` | verl-recipe/dynamo/dynamo_async_server.py:386-389 | the filtered list has exactly the missing tags, and repeats one exactly when the request repeats a missing tag |
| `MemoryTags.OpKeepsConsistent` | verl-recipe/dynamo/dynamo_async_server.py:364-484 | under any failures records equal the engines' sets, the view is their union, and a shard in discovery has nothing released |
| `MemoryTags.OpKeepsProper` | verl-recipe/dynamo/dynamo_async_server.py:386-398 | an operation makes a double release or an unmatched resume if and only if a release repeats a tag that some shard has not released |
| `MemoryTags.RunIsSafe` | verl-recipe/dynamo/dynamo_async_server.py:353-498 | both over all runs of releases and resumes with arbitrary failures per shard |
| `MemoryTags.ReleaseRetry` | verl-recipe/dynamo/dynamo_async_server.py:414-420 | releasing again calls exactly the shards whose call raised and completes exactly when those return |
| `MemoryTags.ResumeRetry` | verl-recipe/dynamo/dynamo_async_server.py:480-484 | the same for resuming again |
| `MemoryTags.ResumeRoutes` | verl-recipe/dynamo/dynamo_sglang_engine.py:165-191 | whatever the calls on other shards do, after a resume a shard is in discovery if and only if it had something released and its own call returned, or every release that paused it was followed by a resume that returned |
| `MemoryTags.WhenStranded` | verl-recipe/dynamo/dynamo_sglang_engine.py:165-178 | for any node, operation and outcomes: when exactly a shard is out of discovery with nothing released afterwards |
| `MemoryTags.StrandedUntilRestored` | verl-recipe/dynamo/dynamo_async_server.py:364-484 | through any further operations such a shard is in discovery at some moment if and only if a release on it returned and later a resume on it |
| `MemoryTagLock.StepKeepsInv` | verl-recipe/dynamo/dynamo_async_server.py:384-484 | during a fan-out the shards that replied were served once and nothing else changed |
| `MemoryTagLock.LockedRunIsSerial` | verl-recipe/dynamo/dynamo_async_server.py:384-484 | for every interleaving of callers and replies, whenever the lock is free the node is as if the finished operations had run one after another, and each waiting or finished call is accounted for once |
| `MemoryTagLock.RoutedShardsHaveMemory` | verl-recipe/dynamo/dynamo_async_server.py:440-455 | at every moment, also inside a fan-out, a shard in discovery has all its memory |
| `MemoryTagLock.CallsStayProper` | verl-recipe/dynamo/dynamo_async_server.py:364-484 | no interleaving makes an improper call when no caller repeats a tag |
| `MemoryTagLock.NobodyIsStuck` | verl-recipe/dynamo/dynamo_async_server.py:348-351 | while somebody waits or fans out some step is possible |
| `ProgramScopes.ProgramScope.EnterRequest` | verl-recipe/dynamo/thunderagent.py:42-48 | a request is admitted exactly while the scope accepts, and counted |
| `ProgramScopes.ProgramScope.ExitRequest` | verl-recipe/dynamo/thunderagent.py:49-53 | leaving counts down and sets the event at zero |
| `ProgramScopes.ProgramScope.BeginClose` | verl-recipe/dynamo/thunderagent.py:58-61 | closing stops admission at once and waits exactly when a request is in flight |
| `ProgramScopes.ProgramScope.TakeLock` | verl-recipe/dynamo/thunderagent.py:62-64 | a program that is finalized already is left alone |
| `ProgramScopes.StepKeepsInv` | verl-recipe/dynamo/thunderagent.py:41-68 | each step of requests, closers and cancellations keeps counter, event, lock and waiters consistent |
| `ProgramScopes.IdleMeansNothingInFlight` | verl-recipe/dynamo/thunderagent.py:46-53 | in every run the event is set exactly when no request is in flight |
| `ProgramScopes.FinalizeComesLast` | verl-recipe/dynamo/thunderagent.py:57-68 | from the first call of finalize on nothing is in flight and nothing is admitted any more |
| `ProgramScopes.FinalizedOnce` | verl-recipe/dynamo/thunderagent.py:61-68 | calls of finalize never overlap, at most one completes and none begins after that |
| `ProgramScopes.CloseFinalizes` | verl-recipe/dynamo/thunderagent.py:57-68 | some close has returned if and only if the program was finalized |
| `ProgramScopes.NobodyIsStuck` | verl-recipe/dynamo/thunderagent.py:61-68 | once requests have left, some closer can go on: no wake-up is lost, no lock left taken after an exception or a cancellation |
| `Finalize.Client.BeginGenerate` | verl-recipe/dynamo/dynamo_agent_loop.py:230-237 | from its begin on, servers acquired under the request are attributed to the call's session; the `Begin` step of the concurrent model is this one |
| `Finalize.Client.RecordServedServer` | verl-recipe/dynamo/dynamo_agent_loop.py:204-212 | the session becomes the most recent, the server is in its list once, and the oldest sessions leave above the limit |
| `Finalize.Client.AcquireServer` | verl-recipe/dynamo/dynamo_agent_loop.py:218-228 | a server is recorded for the session of the request that acquired it, and for no other |
| `Finalize.Client.EndGenerate` | verl-recipe/dynamo/dynamo_agent_loop.py:239-243 | the request is no longer attributed, and the servers recorded for the session are what gets finalized |
| `Finalize.Client.FinalizeServed` | verl-recipe/dynamo/dynamo_agent_loop.py:299-340 | the session is dropped and the counter grows by exactly the servers without an acknowledgement; it raises exactly when it grew to the threshold |
| `Finalize.Client.FinalizeProgram` | verl-recipe/dynamo/dynamo_agent_loop.py:255-288 | it is confirmed, and only then the session dropped, exactly if every recorded server acknowledges; with none recorded, the one the load balancer names; without a load balancer, every static one |
| `Finalize.ConfirmsIff` | verl-recipe/dynamo/dynamo_agent_loop.py:271-288 | the same of every attempt of the chain |
| `Finalize.Client.FinalizeUntracked` | verl-recipe/dynamo/dynamo_agent_loop.py:359-391 | the chain stops at the first of three attempts that all servers asked acknowledge; the counter grows by one exactly when there is none |
| `Finalize.FinalizeOne` | verl-recipe/dynamo/dynamo_agent_loop.py:308-325 | a server is confirmed exactly when one of its three attempts succeeds |
| `SessionTracking.UnconfirmedCount` | verl-recipe/dynamo/dynamo_agent_loop.py:327-331 | acknowledged and counted servers are together all that were asked |
| `SessionTracking.MostRecentStay` | verl-recipe/dynamo/dynamo_agent_loop.py:204-212 | over any acquisitions the tracked sessions are the most recently used ones in that order, and all of them unless the cache is full |
| `SessionTracking.RecordEffect` | verl-recipe/dynamo/dynamo_agent_loop.py:204-212 | recording a server changes what is tracked for its session only, except that the oldest session leaves a full cache |
| `FinalizeAccounting.StepKeepsInv` | verl-recipe/dynamo/dynamo_agent_loop.py:204-391 | each step of any calls, also with shared sessions and request ids, keeps the cache within its limit, attributions and tracked sessions those of calls under way, attempts within their bound and receipts in agreement with the counter, which never decreases |
| `FinalizeAccounting.LeaksAreAccounted` | verl-recipe/dynamo/dynamo_agent_loop.py:299-391 | in every interleaving each server recorded at the end of a finished call acknowledged within three attempts or was counted after three failures, or the chain ended with one of three attempts that all servers asked acknowledged, or counted; the counter is the sum of these |
| `FinalizeAccounting.LeaksNeverDecrease` | verl-recipe/dynamo/dynamo_agent_loop.py:172-176 | the counter at the end of a run is not below that at any moment before |
| `FinalizeTargets.AttemptsAskTheRightServers` | verl-recipe/dynamo/dynamo_agent_loop.py:255-288 | in every run each attempt of a chain that ends had set out with the servers recorded for its session then, or with none recorded the one the load balancer named, or without a load balancer all static ones, and was confirmed if and only if all of these acknowledged |
| `FinalizeAccounting.TrackingIsReleased` | verl-recipe/dynamo/dynamo_agent_loop.py:204-216 | a session is tracked only while a call of it is under way, and no more sessions than calls, so only more calls than the limit can make one leave |
| `LostServers.StepForgets` | verl-recipe/dynamo/dynamo_agent_loop.py:214-228 | the steps listed are exactly those after which a server that was recorded or just acquired, and has not been asked or counted since its acquisition, is not recorded |
| `LostServers.OwedIffForgotten` | verl-recipe/dynamo/dynamo_agent_loop.py:230-288 | at every moment an unrecorded server is owed a finalize if and only if some step forgot it and no later step asked or counted it |
| `LostServers.LostIff` | verl-recipe/dynamo/dynamo_agent_loop.py:342-391 | once no call of the session is under way: a server acquired for it was lost if and only if some step forgot it and no later routed attempt, broadcast or count of any call reached it |
| `LostServers.SeparateSessionLosesNothing` | verl-recipe/dynamo/dynamo_agent_loop.py:299-391 | a session whose calls overlap neither each other nor a call with the same request id loses no server, and every finished call asked or counted all it acquired |
| `LostServers.SharedSessionLosesServer` | verl-recipe/dynamo/dynamo_agent_loop.py:230-288 | a complete run of two calls with one session, the load balancer naming the server acquired last: both end confirmed, the counter stays zero, and an acquired server was neither asked nor counted |
| `GroupedBatch.SlotUnique` | verl-recipe/gvpo/gvpo_ray_trainer.py:48-50 | rank, micro-batch and place are determined by the slot, so no slot is written twice |
| `GroupedBatch.BalanceBatch` | verl-recipe/gvpo/gvpo_ray_trainer.py:39-50 | the nested loops fill every slot with the sample that the two partitions deal to it |
| `GroupedBatch.OrderIsPermutation` | verl-recipe/gvpo/gvpo_ray_trainer.py:39-58 | the new order has every sample of the batch exactly once |
| `GroupedBatch.GroupsStayTogether` | verl-recipe/gvpo/gvpo_ray_trainer.py:39-50 | gathered over all ranks, a micro-batch has each prompt of its round exactly n times and no other prompt |
| `GroupedBatch.LossAssertionHolds` | verl-recipe/gvpo/gvpo_core_algos.py:48-54 | the loss's assertion on group sizes holds in every micro-batch |
| `Gae.ComputeGae` | verl-recipe/gvpo/gvpo_core_algos.py:262-283 | the backward loop gives at each position what the recurrence gives from there on |
| `Gae.DiscountedFirst` | verl-recipe/gvpo/gvpo_core_algos.py:267-269 | a discounted sum with powers obeys the loop's recurrence |
| `Gae.ScanIsGaeOfKept` | verl-recipe/gvpo/gvpo_core_algos.py:267-275 | the loop carries value and advantage of the next token that counts, the latter being the discounted sum of temporal differences of the response without masked tokens |
| `Gae.MaskedTokensAreInvisible` | verl-recipe/gvpo/gvpo_core_algos.py:271-277 | at a token that counts the advantage is that of plain GAE after deleting masked tokens; at a masked token that of the next one that counts |
| `Gae.MaskedContentIsIgnored` | verl-recipe/gvpo/gvpo_core_algos.py:271-273 | no advantage depends on what masked tokens carry |
| `Gae.Telescopes` | verl-recipe/gvpo/gvpo_core_algos.py:267-280 | with lambda 1 advantage plus value is the discounted sum of rewards |
| `Gae.ReturnsAreRewardsToGo` | verl-recipe/gvpo/gvpo_core_algos.py:280-281 | so the return at a token that counts is the discounted sum of the remaining rewards that count |
| `Rloo.OutcomeAdvantage` | verl-recipe/gvpo/gvpo_core_algos.py:524-548 | rewriting scores in place gives each sample its score minus the mean of the others of its prompt, and leaves a single sample as it is |
| `Rloo.VectorizedIsLeaveOneOut` | verl-recipe/gvpo/gvpo_core_algos.py:768-778 | counts and sums by prompt give the same definition, and zero for a single sample |
| `Rloo.FormsAgree` | verl-recipe/gvpo/gvpo_core_algos.py:744-778 | the two estimators agree on a sample if and only if it is not alone in its prompt or its score is zero |
| `Echo.CommonPrefixLength` | verl-recipe/echo/agent_loop.py:422-428 | the loop finds the longest common prefix |
| `Echo.CommonSuffixLength` | verl-recipe/echo/agent_loop.py:431-436 | the loop finds the longest common suffix beside that prefix |
| `Echo.DiffOfInsertion` | verl-recipe/echo/agent_loop.py:353-354 | where the difference of a rendering and the one with text inserted lies: at the text, moved by as much as the text begins like what follows it |
| `Echo.SpanIsInsertion` | verl-recipe/echo/agent_loop.py:343-358 | one rendering is the other with something inserted if and only if the span has the difference in length and deleting it leaves the other |
| `Echo.UnmarkedTokensAreTemplate` | verl-recipe/echo/agent_loop.py:313-341 | without a warning as many tokens are marked as the output has, and the unmarked ones are the template of an empty message and the generation prompt |
| `Echo.WarningIsLeftOut` | verl-recipe/echo/agent_loop.py:355-358 | for any warning: where the marked span lies and what it contains; it is the output's place if and only if nothing follows or what follows begins differently than the warning; its length is the output's if and only if both ends are shifted alike |
| `Echo.EchoInteraction.AppendAssistant` | verl-recipe/echo/agent_loop.py:65-72 | the four lists grow together by the policy's tokens |
| `Echo.EchoInteraction.AppendObservation` | verl-recipe/echo/agent_loop.py:74-85 | the four lists grow together by tokens the policy did not produce |
| `Echo.EchoAgentLoop.AppendTurnEnd` | verl-recipe/echo/agent_loop.py:392-401 | exactly the missing end tokens are appended, unmasked for the policy |
| `Echo.EchoAgentLoop.ObservationSpans` | verl-recipe/echo/agent_loop.py:343-358 | the span is computed from the differences of the renderings |
| `Echo.EchoAgentLoop.AppendObservation` | verl-recipe/echo/agent_loop.py:313-341 | turn end and observation are appended as far as there is room, marks exactly in the span, and the loop goes on exactly when nothing was cut; when rendering or marking raises only the turn end is appended |
| `Echo.EchoAgentLoop.RunTurns` | verl-recipe/echo/agent_loop.py:187-250 | the loop over turns, each of which a timeout or an exception may cut short before the answer, after it or after the turn end, leaves what the turns stand for, and the number of turns begun |
| `Echo.EchoAgentLoop.BuildOutput` | verl-recipe/echo/agent_loop.py:173-185 | the output is the four lists cut to the response length, never empty before the cut |
| `Echo.PlayExtends` | verl-recipe/echo/agent_loop.py:187-250 | through all turns, also those cut short, the lists only grow, stay equally long and sound, and exceed the response length by at most the two end tokens |
| `Echo.OutputIsSound` | verl-recipe/echo/agent_loop.py:173-185 | no policy token is an auxiliary target, only policy tokens carry a log-probability, and the output is within the response length |
| `Echo.TurnIsEnded` | verl-recipe/echo/agent_loop.py:392-401 | the turn is closed by its two end tokens, and closing it again changes nothing |
| `Echo.AnswerIsPolicy` | verl-recipe/echo/agent_loop.py:196-225 | an answer adds to the policy tokens exactly what was generated as far as there is room, and no auxiliary target |
| `Echo.ObservationIsTarget` | verl-recipe/echo/agent_loop.py:313-341 | an observation adds to the auxiliary targets exactly its marked tokens as far as there is room, and nothing to the policy tokens |
| `EchoRuns.TurnPlays` | verl-recipe/echo/agent_loop.py:194-250 | another turn follows if and only if this one is neither done nor cut, its observation can be marked, there is room behind its end and the observation fits |
| `EchoRuns.RunIsTranscript` | verl-recipe/echo/agent_loop.py:187-250 | the next given turn begins exactly while all turns so far continue, so the last one is the first that does not; the lists hold the transcript of the turns before it and that turn as far as it got, up to the response length |
| `EchoRuns.RunOfContinuingTurns` | verl-recipe/echo/agent_loop.py:187-250 | if all given turns continue, all begin, and the ids are the answers, missing turn ends and observations of all turns in order, with exactly the generated tokens and their log-probabilities for the policy and the marked tokens as targets |
| `EchoRuns.RunTrainsOnAnswers` | verl-recipe/echo/agent_loop.py:220-225 | in any run the policy's tokens and log-probabilities are a prefix of those given with the answers, zero where none was given, and all of those before the last turn |
| `EchoRuns.TurnEndIsShortest` | verl-recipe/echo/agent_loop.py:392-401 | what is appended at a turn's end is the shortest that makes it end with its two tokens |

## Left out

- Mooncake and Ascend backends, pinning, memory locking, tensor devices, safetensors reading and torch itself: a tensor is a name, a shape, a dtype and bytes, an address is an integer.
- Sockets, threads, ZMQ and pickling: a connection is a pair of byte queues that may stop delivering; timeouts are not modelled.
- The window between publishing metadata and registering buckets: reads are only claimed to succeed after the load returned.
- `HostMemManager.write_bytes`, `get_bucket` and `stats`: one-line accesses to what is modelled.
- `Models.ModelManager.LoadFromNamedTensors`: tensors are given as a list, while the source takes any iterable and may see it raise between two tensors (that case is an `Abort` step of `Publication`).
- `EndToEnd.Client.ResizeRecvBuf`: registering the buffer with the client's own backend is not modelled; the TCP backend does not need it.
- `EndToEnd.Client.ReceiveWeights`: the generator is run to its end; `yielded` keeps each tensor as it was when it was handed out, and views into the buffer that a caller keeps are not tracked.
- `Partitions.ReadWork`: latencies, the barrier, pinned copies and open files are left out.
- `JsonGrammar.ExtractIffWritten`: which exception a refused text raises is not modelled.
- `JsonParser.ReadValue`: Python's recursion limit and its limit on the digits of an integer are not modelled.
- `Json.ParseValue`: float literals and the integer strings that Python accepts beyond signs and ASCII digits are an arbitrary function of the text; `\u` escapes are read as the code does, as the letter u.
- `Shards.LaunchPool`: Ray actors, ports, process environments and the lists of workers per node are left out.
- `ShardAgreement.SocketsPair`: names are compared by replica and rank; the job id is the same on both sides.
- `MemoryTags.TagServer.Resume`: a control call that takes effect and then raises is excluded (a raising call changes no tags), and the order of the tags in a widened resume is not modelled.
- `Publication.RunKeepsInv`: loads run one after another, as at the server's start, which the guard of `Begin` states; the source takes no lock, and what overlapping calls of `load_model` do is not modelled.
- `Transfer.TcpPeer.Receive`: a reply that announces more bytes than were asked for is excluded; the modelled server sends none.
- `MemoryTagLock.LockedRunIsSerial`: callers are not cancelled while they hold the lock.
- `Finalize.Client.FinalizeUntracked`: delays and timeouts of the attempts are left out; the load balancer's answers and the acknowledgements are parameters, and what the broadcast gets back is ignored, as in the source.
- `FinalizeAccounting.LeaksAreAccounted`: automatic finalizing is on, callers that finalize by hand (and the routing keys remembered for them) are not modelled, and calls are not cancelled during clean-up.
- `GroupedBatch.BalanceBatch`: the branch for a batch that does not divide is left out, the source's own assertion on the sizes is a precondition, and of the balanced partitioner only its contract is used; prompt ids are integers, not 32-bit floats.
- `Gae.ComputeGae`: whitening and floating-point rounding are left out; the batch dimension is one response.
- `Rloo.OutcomeAdvantage`: the token mask and the sum over tokens are left out.
- `Echo.EchoAgentLoop.RunTurns`: the messages' text, the tool parser and the environment are parameters; the verifier's reward is not modelled.
- `Echo.UnmarkedTokensAreTemplate`: rendering with the generation prompt is taken to extend the rendering without it.
- Other estimators, losses, trainers, Ray and Hydra entry points, reward functions, data scripts and the Atropos proxy: plumbing, or claims that would only restate their code.
