# Lockstep training subnet: a Dafny model

Every node of the subnet must land on the same state, whatever route the bytes took and wherever a
process stopped. This project models the code that carries that claim and states what it guarantees:

- **Certified lockstep**: the leader's certificate (`Certificates`), the gather of exactly the certified
  peers over peers, mirror or both (`Exchange`, `Aggregator`), the conversion to merge inputs
  (`OuterInputs`), the order-fixed merge and outer step (`SegmentMean`, `ClipFactors`, `OuterStep`), the
  consensus root (`Consensus`, `StateRoot`), and the replay of missed windows (`CatchUp`, `Lockstep`).
  `CertifiedStep` puts conversion, wire format and outer step together, so that lockstep holds for the
  named tensors and momentum buffers; `RootedRuns` puts the state root in, so that the checks speak of
  names, types, shapes and bytes; `Momentum` says what the checks of a run do and do not bind; `Mirror`
  joins the leader's certificate and published object to the followers' gathers.
- **Sparse wire format**: 12-bit and 2-bit packing (`BitPacking`), the padded tile layout (`Chunking`),
  and the two ways back from a compressed tensor (`SparsePairs`).
- **Data path**: resumable spools (`Spool`), sequential and two-pass deduplication (`Dedup`,
  `DedupParallel`), token packing (`TokenPack`), content-addressed shards (`ShardWriter`), the Merkle
  commitment (`Merkle`), the shard cache (`ShardCache`) and the batch plan (`BatchPlan`).
- **Chain side**: commitment strings (`Base64Url`, `Commitments`) and the walk through commitment
  history (`HistoryWalk`).

`Prelude`, `Grouping` and `LittleEndian` hold what several of these share. `dafny verify dfyconfig.toml`
checks everything.

How the outside world appears in the model:

- Scalars are arbitrary types with uninterpreted operations in the merge and the outer step; nothing is
  associative there. Clip factors and scores are reals.
- Hashes, codecs (canonical JSON, zstd, hex), payload parsing, argsort, `numpy.unique` and signatures are
  parameters. Where an injective hash is needed the hypothesis is local: no two of the blobs in play
  collide. State roots are plain numbers in `Consensus`, `CatchUp` and `Lockstep`; `RootedRuns` gives them
  the hash of `StateRoot`.
- Chain and storage are oracles that answer, fail or have nothing. Interleavings of cache tasks and
  schedules of crashes are arbitrary inputs.
- `payload.py`, `window_runner.py`, `replay.py`, `zero1.py`, `window_state.py` and `miner/bootstrap.py`
  are not part of this model.

## Results that are not what one might expect

- The state root does not cover outer momentum. Two nodes with equal parameters end equal in every run
  both pass exactly when their momentum was equal too (`Momentum.MomentumDecidesTheta`), even in worlds
  where the root tells all parameters apart and the chain has a consensus root for every window; a
  committed next window binds the parameters (`Momentum.CommittedHeadBindsTheta`) but never the momentum
  (`Momentum.MomentumDecidesState`).
- The shard cache keeps its promise over all histories exactly when no two shards share the first 16 hex
  digits of their hashes (`ShardCache.SafeExactlyWithDistinctNames`); `write_shards` has the same
  condition for reading its shards back (`ShardWriter.ReadBackExactly`).
- Repeating an odd last leaf keeps the Merkle root for every hash (`Merkle.RepeatedLastLeafKeepsRoot`), so
  the shard count in the reference is needed.
- Two consecutive catch-ups succeed exactly when the single one does and the chain's next window agrees
  at the seam (`Lockstep.RunsCompose`); the extra check matters only when the next window is void, and
  then it can refuse what the single run accepts (`Lockstep.SeamCanDiffer`).
- `AggregatorObject.serialize` does not check its window, so it can write an object no reader accepts;
  `Aggregator.RoundTrip` has the exact condition.
- On certified payloads the outer step can break off for two reasons only: clipping is on and a name was
  sent both compressed and dense, or a dense tensor has another shape than the parameter
  (`CertifiedStep.StepBreaksExactly`). Catch-up compresses the parameters outside its dense set, so the
  first would take a payload with a dense tensor outside that set; payload validation is not modelled.
- A certificate that names a uid without its hash is no obstacle until the hash is looked up
  (`Exchange.GatherCertified`): with no bucket and nothing on offer at the mirror the uid is just missing.
- A median of zero wipes out every peer that did send something (`ClipFactors.SilencedExactly`).
- A token out of range in the dropped rest of a stream goes unnoticed (`TokenPack.ChunkTokenStream`).
- Tokenizing never removes an older file, so the written directory reads back as the sequential stream
  exactly when no single file with other tokens and no non-empty chunk file beyond the run's own was
  there before (`TokenPack.ReadsBackExactly`). A finer grouping followed by a coarser one reads parts
  twice (`TokenPack.ThreePartsReadTwice`); a leftover single file hides every chunk
  (`TokenPack.SingleFileHides`).
- Two-pass deduplication fails where the sequential pass does not: on a corpus without a single spool
  unit, and, after everything is written, when the statistics object it was given had already counted a
  kept document (`DedupParallel.DedupParallel`).
- A Merkle proof shorter than the tree is deep is accepted for an inner node
  (`Merkle.ShortProofShowsInnerNode`), so the reader of a proof has to know the depth.

## Model

| member | source | states |
|---|---|---|
| `Certificates.BuildCertificate` | subnet/core/certificate.py:87-132 | For any iteration order of the commits, the certificate is the one determined by the commit set: sorted uids of the first gather_count valid peers among the first gather+reserve ranks, their hashes, signed; errors exactly on the two bad counts |
| `Certificates.Backfill` | subnet/core/certificate.py:115-120 | Top ranks then backfill equals the first gather_count valid peers of the concatenated candidates |
| `Certificates.OrderIrrelevant` | subnet/core/certificate.py:110-112 | The ranking does not depend on dict iteration order, because it is a total order |
| `Certificates.ChosenIsBest` | subnet/core/certificate.py:97-120 | Everyone chosen is committed, in gate, valid and within the ranks considered; the set is as large as it can be; no valid peer is passed over for a lower-ranked one |
| `Certificates.VerifyCertificate` | subnet/core/certificate.py:135-159 | True exactly for ascending uids, hashes for exactly those uids, chain commits that bind them, readable hex and an accepted signature |
| `Certificates.BuiltIsAccepted` | subnet/core/certificate.py:87-159 | A built certificate is accepted exactly when the chain commits bind the named hashes and the scheme accepts the leader's own signature |
| `Exchange.GatherCertified` | subnet/core/exchange.py:393-442 | Fails exactly when it looks up the hash of a certified uid that has none; otherwise each certified uid lands in exactly one of payloads and missing, payloads in uid order, each the decoded verified blob of the first source that has it |
| `Exchange.GatherFromAggregator` | subnet/core/exchange.py:445-491 | The same from the mirror alone |
| `Exchange.Buffers.MirrorRetry` | subnet/core/exchange.py:356-390 | Every failed uid either gets a verified blob or keeps a failure with the mirror's reason added, the others are untouched; a lookup error exactly when a blob is on offer for a uid without a listed hash |
| `Exchange.DecodeCertified` | subnet/core/exchange.py:321-353 | Splits the certified uids into payloads and missing; no lookup of a raw blob can fail |
| `Exchange.TransportIndependence` | subnet/core/exchange.py:321-491 | Two complete gathers of one certificate over any two routes give equal payload lists |
| `Exchange.DecodedAccounts` | subnet/core/exchange.py:321-353 | payloads and missing partition the certified uids |
| `Exchange.PayloadsList` | subnet/core/exchange.py:336-353 | The payload list is ascending and holds exactly the uids that decode |
| `Aggregator.Serialize` | subnet/core/exchange.py:156-172 | Succeeds exactly when uids are in range, blobs non-empty and the header length fits; the frame is magic, version and the compressed body of the object |
| `Aggregator.CheckEntries` | subnet/core/exchange.py:236-253 | The entry loop accepts exactly strictly increasing in-range uids with positive sizes and 64-character hashes, and totals the sizes |
| `Aggregator.CutBlobs` | subnet/core/exchange.py:260-268 | The blob loop accepts exactly when every slice has its declared hash, and files every slice under its uid |
| `Aggregator.ParseBody` | subnet/core/exchange.py:214-268 | Accepts exactly the bodies of readable objects, and the accepted body is byte for byte the serialization of what is returned |
| `Aggregator.Deserialize` | subnet/core/exchange.py:175-268 | Accepts exactly well-framed bodies of readable objects within the size limits, and returns the object |
| `Aggregator.RoundTrip` | subnet/core/exchange.py:156-268 | Parsing a serialized object returns it, exactly when window and blob sizes are in range and the limits allow it |
| `Aggregator.WrittenBack` | subnet/core/exchange.py:255-268 | Cut blobs, written again, give back the same entries and the same blob area |
| `Aggregator.CutWritten` | subnet/core/exchange.py:160-170 | Cutting a written blob area at the written sizes gives back each payload |
| `Aggregator.LayoutUnique` | subnet/core/exchange.py:214-227 | A body has one header and one blob area |
| `Aggregator.SameBodySameObject` | subnet/core/exchange.py:156-268 | Two objects with one body are one object |
| `OuterInputs.BuildOuterInputs` | subnet/core/checkpoint.py:478-523 | Refuses exactly non-ascending uids and incomplete payloads; otherwise every name's lists hold the payloads' contributions in uid order, and a name is present exactly when its list is not empty |
| `OuterInputs.AddSparse` | subnet/core/checkpoint.py:508-514 | One payload appends exactly one pair list and one norm per requested name, or fails on a missing or unreadable one |
| `OuterInputs.AddDense` | subnet/core/checkpoint.py:517-520 | One payload appends exactly one tensor and one norm per dense name |
| `OuterInputs.BuiltIs` | subnet/core/checkpoint.py:478-523 | The promised lists leave no freedom: they are one function of the payloads in their order |
| `OuterInputs.ColumnLengths` | subnet/core/checkpoint.py:497-522 | One entry per peer in every list, and norms as many as pair lists and dense tensors together |
| `OuterInputs.SparseEntry` | subnet/core/checkpoint.py:506-514 | Entry k of a name is peer k's conversion |
| `OuterInputs.DenseEntry` | subnet/core/checkpoint.py:515-520 | Entry k of a dense name is peer k's tensor |
| `OuterInputs.NormEntry` | subnet/core/checkpoint.py:508-522 | For a name on one side only, norm k is the norm of what peer k puts into the merge |
| `SegmentMean.DeterministicSegmentMean` | subnet/core/outer_opt.py:35-82 | At every index the mean of exactly its contributions, added in peer order then position order with a non-associative add, for any stable sort; each error exactly when its condition holds |
| `SegmentMean.SortingKeepsContributions` | subnet/core/outer_opt.py:76-78 | A stable sort by index keeps every index's contributions in order |
| `SegmentMean.ContributionsConcat` | subnet/core/outer_opt.py:70-71 | Concatenating peers concatenates each index's contributions |
| `SegmentMean.BinCount` | subnet/core/outer_opt.py:79-80 | The serial kernel leaves at each index the in-order fold and the count of its entries |
| `SegmentMean.Concatenate` | subnet/core/outer_opt.py:60-71 | Concatenation in list order, failing on the first peer with mismatched lengths |
| `ClipFactors.MedianIsMiddle` | subnet/core/outer_opt.py:85-100 | At least half of the norms lie on either side of the median |
| `ClipFactors.ClippedNorm` | subnet/core/outer_opt.py:85-100 | A positive norm is clipped to the smaller of itself and the median; a factor is 1 exactly for norms at most zero or at most the median |
| `ClipFactors.HalfUnclipped` | subnet/core/outer_opt.py:85-100 | At least half of the peers keep factor 1 |
| `ClipFactors.SilencedExactly` | subnet/core/outer_opt.py:85-100 | A factor is 0 exactly when the median is 0 and the norm positive |
| `OuterStep.ReplicatedOuterStep.constructor` | subnet/core/outer_opt.py:123-130 | Momentum starts at zero for every registered parameter |
| `OuterStep.ReplicatedOuterStep.Apply` | subnet/core/outer_opt.py:146-216 | In place: every name before the first failing one, in sorted order, holds its own step's parameter and momentum; every other name is as it was |
| `OuterStep.ReplicatedOuterStep.StepOne` | subnet/core/outer_opt.py:167-207 | One name's update, with any error raised before that name has changed |
| `OuterStep.ReplicatedOuterStep.Merge` | subnet/core/outer_opt.py:175-196 | Sparse merge, else dense merge, else none, with the same errors |
| `OuterStep.ReplicatedOuterStep.MergeDense` | subnet/core/outer_opt.py:188-195 | Dense contributions added in uid order from zero and divided by their number; a wrong shape is refused |
| `OuterStep.ProgressNext` | subnet/core/outer_opt.py:167-207 | Stepping one more name leaves the names already stepped as they are |
| `OuterStep.CompleteStepUnique` | subnet/core/outer_opt.py:146-216 | A complete step is determined by where each name started, whatever the order of the names and whatever the other names hold |
| `OuterStep.OutcomeUnique` | subnet/core/outer_opt.py:146-216 | Every outcome, complete or broken off, is determined by where each name started: parameters, momentum, error and progress |
| `OuterStep.WalkEnds` | subnet/core/outer_opt.py:167-207 | Stepping name by name until one fails is such an outcome, so the outcome always exists |
| `Consensus.ConsensusStateRoot` | subnet/core/checkpoint.py:531-540 | None exactly without commits, else the root with most commits, ties to the smallest |
| `Consensus.Counter` | subnet/core/checkpoint.py:539 | Counts are the number of committers of each root |
| `Consensus.WinnerUnique` | subnet/core/checkpoint.py:531-540 | At most one root wins |
| `Consensus.MajorityWins` | subnet/core/checkpoint.py:534-535 | A root more than half committed to wins, whatever the tie rule |
| `CatchUp.Replica.CatchUp` | subnet/core/checkpoint.py:578-744 | The whole call: outcome, report and mutated state are those of the replay |
| `CatchUp.Replica.ReplayWindows` | subnet/core/checkpoint.py:643-721 | The window loop keeps applied, skipped and unverified in step with the replay |
| `CatchUp.Replica.Advance` | subnet/core/checkpoint.py:643-721 | One window: void, empty, applied or failed, with the checks in order |
| `CatchUp.Replica.Contradiction` | subnet/core/checkpoint.py:686-691 | Finds a committed hash that contradicts the certificate exactly when there is one |
| `CatchUp.ReplayStep` | subnet/core/checkpoint.py:643-721 | A partial report joined with the replay of the rest is the whole replay |
| `CatchUp.MissingIsIncomplete` | subnet/core/checkpoint.py:703-714 | The gather reports something missing exactly when a certified payload is not available |
| `Lockstep.CatchUpIsFold` | subnet/core/checkpoint.py:578-744 | A successful catch-up leaves parameters and momentum at the left fold of the outer step over exactly the non-void certified windows, in order, with matching reports |
| `Lockstep.ErrorLeavesPrefix` | subnet/core/checkpoint.py:643-721 | An error before a window's apply leaves the fold over a prefix |
| `Lockstep.RunIsFold` | subnet/core/checkpoint.py:643-721 | Whatever happens, the state is the fold over what was applied, one half step on if the outer step broke |
| `Lockstep.RunLists` | subnet/core/checkpoint.py:643-744 | What was applied is a prefix of the certified windows, and all of them on success |
| `Lockstep.CertificateNamedState` | subnet/core/checkpoint.py:652-701 | Every applied window's certificate, and the consensus root where there is one, named the state it was applied to |
| `Lockstep.WindowsClassified` | subnet/core/checkpoint.py:643-721 | Each window is exactly one of void, applied, or empty and unverified |
| `Lockstep.ReplaySplits` | subnet/core/checkpoint.py:643-721 | A replay splits at any window |
| `Lockstep.RunsCompose` | subnet/core/checkpoint.py:578-744 | Two consecutive runs succeed exactly when the single run does and the seam agrees; state equal, reports concatenated |
| `Lockstep.SeamIsChecked` | subnet/core/checkpoint.py:723-738 | The seam needs no extra check when the next window is not void |
| `Lockstep.SeamCanDiffer` | subnet/core/checkpoint.py:643-738 | When the next window is void, the check at the seam can fail where the single run succeeds |
| `Lockstep.LiveStepsAgree` | subnet/core/exchange.py:393-491 | Two nodes taking one window over different routes reach equal states |
| `Lockstep.LiveMeetsCatchUp` | subnet/core/checkpoint.py:578-744 | A node that lived through the windows and one that caught up, from equal parameters and momentum, end equal |
| `Lockstep.LiveNodesAgree` | subnet/core/exchange.py:393-491 | Two live nodes on any routes stay equal over whole runs |
| `Momentum.ThetaAgreesBeforeEach` | subnet/core/checkpoint.py:652-701 | Two nodes that pass every check had equal parameters before every window they applied, whatever they started from |
| `Momentum.CommittedHeadBindsTheta` | subnet/core/checkpoint.py:723-738 | And equal parameters at the end, once the next window has commits |
| `Momentum.MomentumDecidesTheta` | subnet/core/checkpoint.py:643-744 | From equal parameters, they end with equal parameters in every such run exactly when their momentum was equal or no window is replayed |
| `Momentum.MomentumDecidesState` | subnet/core/checkpoint.py:643-744 | With the next window committed as well, they end in equal states exactly when their momentum was equal |
| `Momentum.WitnessReplay` | subnet/core/checkpoint.py:643-721 | The run that tells momentum apart: one certified window whose certificate and commit name the node's root |
| `CertifiedStep.ApplyWindow` | subnet/core/checkpoint.py:716-720 | Conversion then outer step in place: refused payloads change nothing, otherwise the state is that of the step, complete or broken off |
| `CertifiedStep.StepsToIs` | subnet/core/checkpoint.py:716-720 | What the conversion and the step promise leaves one successor state |
| `CertifiedStep.AdvancesIsLiveStep` | subnet/core/checkpoint.py:703-720 | A window gathered completely over any route and applied as promised is the live step |
| `CertifiedStep.TraceMeetsCatchUp` | subnet/core/checkpoint.py:578-744 | A live node's run over any routes and a catch-up from the mirror, from equal tensors and momentum, end with equal tensors and momentum |
| `CertifiedStep.TracesAgree` | subnet/core/exchange.py:393-491 | Two live nodes on different routes end with equal tensors and momentum |
| `CertifiedStep.ConvertedIsSound` | subnet/core/checkpoint.py:439-475 | What a compressed tensor converts to has as many values as indices, every index inside the parameter |
| `CertifiedStep.FactorsFailExactly` | subnet/core/outer_opt.py:134-143 | On what the conversion built, the clip factors fail exactly when clipping is on and the name was sent compressed and dense |
| `CertifiedStep.GradientExactly` | subnet/core/outer_opt.py:175-196 | Exactly when one name's merge succeeds on what the conversion built |
| `CertifiedStep.StepBreaksExactly` | subnet/core/outer_opt.py:146-216 | On certified payloads the step breaks off exactly for a name sent both ways under clipping or a dense tensor of another shape |
| `CertifiedStep.TrainingWorldTrains` | subnet/core/checkpoint.py:578-744 | The world whose build and step are the conversion and the outer step exists, around any chain, storage and root |
| `RootedRuns.RootBindsTensors` | mok_core/determinism/hashing.py:49-85 | Without collisions the roots of two states are equal exactly when names, types, shapes and bytes are |
| `RootedRuns.BigEndianInjective` | mok_core/determinism/hashing.py:60-69 | The number a digest's hex spells determines the digest |
| `RootedRuns.CertificateNamesTensors` | subnet/core/checkpoint.py:652-701 | The tensors a run has before an applied window are those of whoever the window's certificate was made from |
| `RootedRuns.TensorsAgreeBeforeEach` | subnet/core/checkpoint.py:652-701 | Two nodes that pass every check had the same names, types, shapes and bytes before every window they applied |
| `RootedRuns.CommittedHeadBindsTensors` | subnet/core/checkpoint.py:723-738 | And at the end, once the next window has commits |
| `Mirror.AcceptedListsHashes` | subnet/core/certificate.py:135-159 | A certificate the check accepts can make no gather fail on a hash lookup, over any route |
| `Mirror.AcceptedHashesAreBound` | subnet/core/certificate.py:145-155 | Every hash such a certificate names is bound by that peer's chain commit |
| `Mirror.MirrorServesAll` | subnet/core/exchange.py:445-491 | A mirror with the blobs of a complete gather makes every mirror-only gather of that certificate verify the same blobs |
| `Mirror.GetAggregatorObject` | subnet/core/exchange.py:283-296 | The parsed object of the window, or none exactly when storage has nothing that frames one within the limits |
| `Mirror.PublishThenGather` | subnet/core/exchange.py:271-491 | What a complete gather verified, published and gathered again from the mirror alone, misses nothing and gives the same payloads; outside a reader's limits everything is missing |
| `StateRoot.HashTensor` | mok_core/determinism/hashing.py:49-59 | Hashes tag, rank, shape and bytes; fails exactly on an untagged type or a number too wide for its field |
| `StateRoot.HashNamedTensors` | mok_core/determinism/hashing.py:62-69 | Hashes the preimage of the name-sorted items |
| `StateRoot.TensorInjective` | mok_core/determinism/hashing.py:49-59 | A tensor preimage determines type, shape and bytes |
| `StateRoot.NameSplit` | mok_core/determinism/hashing.py:66-67 | A count of characters is enough to find where a UTF-8 name ends, ASCII or not |
| `StateRoot.PreimageInjective` | mok_core/determinism/hashing.py:62-69 | The state preimage is uniquely parseable |
| `StateRoot.RootBindsState` | mok_core/determinism/hashing.py:62-73 | Without collisions in play, roots are equal exactly when names, types, shapes and bytes are |
| `StateRoot.OrderIrrelevant` | mok_core/determinism/hashing.py:65 | The order in which a mapping yields its tensors does not change the root |
| `StateRoot.SortSorts` | mok_core/determinism/hashing.py:65 | Sorting items with distinct names orders them by Python's string order |
| `LittleEndian.LittleEndianWritten` | mok_core/determinism/hashing.py:54-57 | A number that fits the width is read back |
| `LittleEndian.LittleEndianRead` | subnet/core/exchange.py:214-218 | Every byte string of a width is the writing of what it reads as |
| `BitPacking.PackIndices` | subnet/core/compress.py:58-90 | 12-bit packing of the buffer, refusing exactly out-of-range indices |
| `BitPacking.UnpackIndices` | subnet/core/compress.py:93-112 | 12-bit unpacking, refusing exactly a wrong length |
| `BitPacking.PackCodes` | subnet/core/compress.py:115-130 | 2-bit packing, refusing exactly out-of-range codes |
| `BitPacking.UnpackCodes` | subnet/core/compress.py:133-144 | 2-bit unpacking, refusing exactly a wrong length |
| `BitPacking.Unpack12AfterPack12` | subnet/core/compress.py:58-112 | Unpack inverts pack for every count, odd tails included |
| `BitPacking.Pack12AfterUnpack12` | subnet/core/compress.py:58-112 | Pack inverts unpack exactly when an odd tail's high nibble is zero |
| `BitPacking.RepackedBytes` | subnet/core/compress.py:58-112 | What packing makes of unpacked bytes: the same with that nibble cleared |
| `BitPacking.UnpackedInRange` | subnet/core/compress.py:93-112 | Unpacked indices are 12-bit |
| `BitPacking.Unpack2AfterPack2` | subnet/core/compress.py:115-144 | Unpack inverts pack for every count |
| `BitPacking.Pack2AfterUnpack2` | subnet/core/compress.py:115-144 | Pack inverts unpack exactly when the pad codes are zero |
| `BitPacking.BlocksInvert` | subnet/core/compress.py:58-144 | Blockwise decoding undoes blockwise encoding if one block does |
| `BitPacking.FillBlocks` | subnet/core/compress.py:77-85 | The strided writes leave the blocks in order in the buffer |
| `Chunking.GeometryFits` | subnet/core/compress.py:174-192 | A geometry from a valid shape and tile size tiles its padded grid exactly |
| `Chunking.PositionsBiject` | subnet/core/compress.py:228-264 | Cells and (chunk, local) positions correspond one to one |
| `Chunking.DecodeAt` | subnet/core/compress.py:247-264 | Where decode reads each element |
| `Chunking.EncodeAt` | subnet/core/compress.py:228-244 | Where encode puts each element, and zeros in the padding |
| `Chunking.DecodeAfterEncode` | subnet/core/compress.py:228-264 | Decode after encode is the identity for every shape |
| `Chunking.EncodeAfterDecode` | subnet/core/compress.py:228-264 | Encode after decode is the identity exactly when all padding cells are zero |
| `SparsePairs.ScatterIsDecompress` | subnet/core/checkpoint.py:439-475 | Scattering the sparse pairs into zeros equals decompress, with equal errors, for every shape, tile size and entry list |
| `SparsePairs.SparseIndicesDistinct` | subnet/core/checkpoint.py:463-475 | The emitted flat indices are pairwise distinct and below numel |
| `SparsePairs.PairsInRange` | subnet/core/checkpoint.py:463-475 | Whatever the wire holds, the emitted indices of an accepted tensor are below numel |
| `SparsePairs.PairsDistinct` | subnet/core/checkpoint.py:463-475 | Distinctness from strictly increasing local indices per chunk |
| `SparsePairs.DecodeAfterWrite` | subnet/core/compress.py:393-410 | One write in the chunked layout is one write at its flat index, or none in padding |
| `Spool.Directory.SpoolDocuments` | dataprep/pipeline/download.py:165-278 | One session, killed anywhere or not: committed parts are kept and extended by whole groups, never past the stopping point, which a session that ends has reached |
| `Spool.Directory.Extend` | dataprep/pipeline/download.py:224-277 | The outer loop commits exactly the next groups of the stream |
| `Spool.Directory.FillPart` | dataprep/pipeline/download.py:225-237 | The inner loop: the temporary file holds the documents read, and why it stopped |
| `Spool.Directory.CommitPart` | dataprep/pipeline/download.py:241-247 | Rename then record: killed in between, the recorded parts are as before |
| `Spool.Directory.WriteState` | dataprep/pipeline/download.py:159-162 | The state file is the old one or the new one |
| `Spool.Directory.RemoveStale` | dataprep/pipeline/download.py:183-184 | All temporaries are gone if the process survives |
| `Spool.RunSessions` | dataprep/pipeline/download.py:165-278 | Over any sessions, crashes and settings the recorded parts hold exactly the first docs documents of the stream |
| `Spool.ResumeUntilDone` | dataprep/pipeline/download.py:165-278 | Any schedule of crashes then a session left to finish ends in the state and parts determined by stream and settings alone |
| `Spool.ShortestPrefix` | dataprep/pipeline/download.py:221-224 | The target is the shortest prefix reaching the char budget, or the whole stream |
| `Spool.IterDocuments` | dataprep/pipeline/download.py:281-286 | Reading the recorded parts back gives the recorded documents |
| `Grouping.ChunksHold` | dataprep/pipeline/download.py:225-228 | Groups concatenate to the input and only the last may be short |
| `Grouping.ChunksConcat` | dataprep/pipeline/download.py:224-247 | Grouping can stop after a full group and go on |
| `Dedup.DedupDocuments` | dataprep/pipeline/dedup.py:86-117 | The seen-set pass keeps exactly the first document of each digest, in order, and counts kept, dropped and empty per source |
| `Dedup.EachDigestSurvivesOnce` | dataprep/pipeline/dedup.py:99-117 | Survivors have distinct digests and every digest survives |
| `Dedup.DedupStats.Add` | dataprep/pipeline/dedup.py:60-61 | Adds to one count of one source and to nothing else |
| `Dedup.DedupStats.TotalKept` | dataprep/pipeline/dedup.py:63-65 | The sum of the kept counts over all sources |
| `DedupParallel.PlanUnits` | dataprep/pipeline/dedup_parallel.py:66-85 | Units in examine order, each with the number of documents before it |
| `DedupParallel.PlanIsExamineOrder` | dataprep/pipeline/dedup_parallel.py:66-85 | The units read in plan order are the corpus the sequential pass reads |
| `DedupParallel.HashPart` | dataprep/pipeline/dedup_parallel.py:93-108 | Digest and empty flag of each document, placeholder 0 for an empty one |
| `DedupParallel.HashAllParts` | dataprep/pipeline/dedup_parallel.py:111-154 | Succeeds exactly when every unit holds as many documents as its state says, else names the first that does not; the arrays encode the corpus |
| `DedupParallel.ResolveKeepMask` | dataprep/pipeline/dedup_parallel.py:162-171 | True exactly for a non-empty document whose digest no earlier non-empty document has |
| `DedupParallel.MaskIsVerdicts` | dataprep/pipeline/dedup_parallel.py:162-171 | The mask and flags are the sequential decisions, including documents whose digest is the placeholder |
| `DedupParallel.TallyAll` | dataprep/pipeline/dedup_parallel.py:247-256 | Statistics from array slices equal the sequential counts, and the kept total grows by the number of survivors |
| `DedupParallel.WriteUnit` | dataprep/pipeline/dedup_parallel.py:179-203 | The output spool holds exactly the unit's kept documents |
| `DedupParallel.WriteAll` | dataprep/pipeline/dedup_parallel.py:258-275 | The unit outputs in plan order are the survivors, and the written counts add up to their number |
| `DedupParallel.DedupParallel` | dataprep/pipeline/dedup_parallel.py:206-279 | Same kept sequence and same statistics as the sequential pass, for every split into units and parts; succeeds exactly when there are units, every unit agrees with its state, and no source had kept documents before, with each error told apart |
| `TokenPack.ChunkTokenStream` | dataprep/pipeline/tokenize_pack.py:29-42 | Yields the full sequences up to the first holding a token out of range |
| `TokenPack.ChunkTokenArrays` | dataprep/pipeline/tokenize_pack.py:67-80 | Yields the full sequences of the concatenated blocks up to the first of another dtype |
| `TokenPack.BlocksDoNotMatter` | dataprep/pipeline/tokenize_pack.py:29-80 | On uint16 blocks and on their concatenation both chunkers yield the same sequences and end alike, however the stream is split |
| `TokenPack.SequencesHold` | dataprep/pipeline/tokenize_pack.py:29-42 | Sequences are exact-length and with the short rest make up the stream |
| `TokenPack.WriteTokenStream` | dataprep/pipeline/tokenize_pack.py:101-130 | The file is the EOS-joined stream and the count its length, whatever the flush size; fails exactly on a token or EOS out of range |
| `TokenPack.PlanSource` | dataprep/pipeline/tokenize_pack.py:228-248 | Consecutive part groups that never cross a unit, at most 1000 |
| `TokenPack.ParallelIsSequential` | dataprep/pipeline/tokenize_pack.py:196-259 | The chunk files in order are the sequential stream, however parts are grouped |
| `TokenPack.NamesSortAsNumbers` | dataprep/pipeline/tokenize_pack.py:262-281 | Zero-padded chunk numbers sort as numbers |
| `TokenPack.ReadBlocks` | dataprep/pipeline/tokenize_pack.py:133-147 | The blocks of the files are their tokens for every block size |
| `TokenPack.WriteGroups` | dataprep/pipeline/tokenize_pack.py:228-259 | One file per group under its number, over the directory found, nothing removed; fails exactly when some group cannot be written |
| `TokenPack.TokenizeSource` | dataprep/pipeline/tokenize_pack.py:196-259 | Planning and writing one source into the directory found; each error exactly when its condition holds, the pool without a task among them |
| `TokenPack.NameOrderUnique` | dataprep/pipeline/tokenize_pack.py:272-279 | Names in sorted order are determined by which they are |
| `TokenPack.GlobbedIsNumbered` | dataprep/pipeline/tokenize_pack.py:274 | The glob finds exactly the names of the numbers below 1000 |
| `TokenPack.DiscoverSource` | dataprep/pipeline/tokenize_pack.py:262-281 | The single file, else the numbered files in order; fails exactly when there are none |
| `TokenPack.ReadSource` | dataprep/pipeline/tokenize_pack.py:133-147 | The blocks read hold the stream of whatever directory is found, whatever the block size |
| `TokenPack.TokensAfter` | dataprep/pipeline/tokenize_pack.py:228-259 | After a run the numbered files are its groups followed by the older files it did not reach |
| `TokenPack.ReadsBackExactly` | dataprep/pipeline/tokenize_pack.py:196-281 | What is read back is the sequential stream, whatever the grouping, exactly when no single file with other tokens and no non-empty chunk file at or above the number of groups was there before |
| `TokenPack.TokenizeThenRead` | dataprep/pipeline/tokenize_pack.py:133-281 | The same for the two commands one after the other, for every flush and block size |
| `TokenPack.StaleChunksSurvive` | dataprep/pipeline/tokenize_pack.py:228-281 | A run with one part per task, then one that groups them all: all parts but the first are read twice |
| `TokenPack.ThreePartsReadTwice` | dataprep/pipeline/tokenize_pack.py:228-281 | At three parts of one document each, what is read back is not the sequential stream |
| `TokenPack.SingleFileHides` | dataprep/pipeline/tokenize_pack.py:268-272 | A single file is all that is read, whatever a run writes |
| `ShardWriter.WriteShards` | dataprep/pipeline/shard_writer.py:40-98 | Metas and files are those of the consecutive groups of sequences; fails exactly on bad sizes or at the first array of another dtype or shape, saying which, and then the directory has gained the shards that were full before it |
| `ShardWriter.Writer.Append` | dataprep/pipeline/shard_writer.py:76-92 | One sequence more in flight, or a shard finalized |
| `ShardWriter.Writer.Finalize` | dataprep/pipeline/shard_writer.py:65-74 | The file in flight is stored under the name its hash gives it and a meta appended |
| `ShardWriter.ReadBackExactly` | dataprep/pipeline/shard_writer.py:40-98 | Every shard can be read back by its meta exactly when no two different shards share a name; in order they are the input, all but the last full |
| `Merkle.MerkleTree.constructor` | mok_core/data/merkle.py:30-42 | The loop builds exactly the levels of the tree |
| `Merkle.MerkleTree.Proof` | mok_core/data/merkle.py:52-64 | The authentication path of a leaf, or an error out of range |
| `Merkle.Verify` | mok_core/data/merkle.py:67-72 | Folds the path over the leaf and compares with the root |
| `Merkle.PathVerifies` | mok_core/data/merkle.py:52-72 | Every leaf's own path of tree depth is accepted |
| `Merkle.AcceptedIffGenuine` | mok_core/data/merkle.py:52-72 | Without collisions a proof of tree depth is accepted exactly when it shows the addressed leaf and its true siblings |
| `Merkle.ShortProofShowsInnerNode` | mok_core/data/merkle.py:66-72 | A proof h steps short is accepted exactly when it shows the addressed node h levels above the leaves with its true siblings |
| `Merkle.LongProofHangsBelowLeaf` | mok_core/data/merkle.py:66-72 | A proof with steps to spare is accepted exactly when its first steps lead to the leaf that the others address |
| `Merkle.PathAddresses` | mok_core/data/merkle.py:52-64 | A path's directions address its leaf |
| `Merkle.RootBindsLeaves` | mok_core/data/merkle.py:30-50 | Equal roots over equally many leaves mean equal leaves, despite duplicated last nodes |
| `Merkle.RepeatedLastLeafKeepsRoot` | mok_core/data/merkle.py:38-41 | Without the leaf count the root does not bind the leaves |
| `Merkle.LevelsEndInRoot` | mok_core/data/merkle.py:36-50 | The last level is the root alone |
| `Merkle.VerifyIndexMatchesRef` | mok_core/data/shards.py:118-130 | The first mismatch in the order of the checks, or acceptance exactly of the published reference |
| `Merkle.AcceptedIndexIsCommitted` | mok_core/data/shards.py:118-130 | An index accepted against a reference has exactly the committed leaf list |
| `ShardCache.EvictsMinimalPrefix` | mok_core/data/download.py:162-172 | Evictions take the shortest prefix of the unpinned LRU order; pinned stay, survivors keep order; failure only when the pinned alone are too much |
| `ShardCache.CallKeepsInvariant` | mok_core/data/download.py:83-136 | Under every interleaving of a call's tasks a resident shard has its verified bytes on disk and no finished shard is evicted |
| `ShardCache.SuccessfulCall` | mok_core/data/download.py:83-136 | A successful call begun within budget ends within budget with every wanted shard resident |
| `ShardCache.EvictSafe` | mok_core/data/download.py:162-172 | Eviction keeps the invariant and every pinned shard |
| `ShardCache.HistorySafe` | mok_core/data/download.py:83-172 | The invariant holds over any history of calls |
| `ShardCache.SafeExactlyWithDistinctNames` | mok_core/data/shards.py:40-44 | It holds over all histories exactly when no two shards share a file name |
| `ShardCache.SharedNameBreaks` | mok_core/data/download.py:102-172 | With a shared name two calls leave a resident shard without its bytes |
| `ShardCache.ShardCache.EvictLocked` | mok_core/data/download.py:162-172 | The eviction loop computes that eviction |
| `ShardCache.ShardCache.Step` | mok_core/data/download.py:102-136 | One atomic section of one task |
| `ShardCache.ShardCache.Prefetch` | mok_core/data/download.py:83-136 | The call under a given interleaving; succeeds exactly when every task finished; pins are released |
| `ShardCache.ShardCache.PathFor` | mok_core/data/download.py:64-70 | Answers for resident shards and touches them |
| `BatchPlan.BuildAcceptsExactly` | mok_core/data/window_dataset.py:52-92 | Build succeeds exactly on the caller-visible conditions |
| `BatchPlan.PoolCoversWindow` | mok_core/data/assignment.py:61-107 | Once shard_ids succeeds the sequence pool is large enough |
| `BatchPlan.BuildReachesReshape` | mok_core/data/window_dataset.py:88-92 | The striped schedule has exactly the size its reshape needs |
| `BatchPlan.PairsDistinctAndInRange` | mok_core/data/window_dataset.py:83-89 | All (shard, sequence) pairs are distinct and in range when shards are full |
| `BatchPlan.PairsFromDraws` | mok_core/data/window_dataset.py:83-89 | Each pair is the drawn shard and place of its draw, no index is out of range, and different draws give different pairs |
| `BatchPlan.ScheduleReadsPlace` | mok_core/data/window_dataset.py:90-92 | schedule[s,m,j] of a rank is global entry rank + world*((s*accum+m)*spm+j) |
| `BatchPlan.RanksPartition` | mok_core/data/window_dataset.py:83-92 | Every global pair is in exactly one cell (rank, step, microbatch, slot) of the schedules the ranks build |
| `BatchPlan.ShardHoldsWholeSequences` | mok_core/data/assignment.py:51-58 | A full shard is a whole number of sequences |
| `Base64Url.DecodeEncode` | mok_core/chain/schemas.py:121-137 | Decoding an encoding gives back the bytes (section 5 of RFC 4648, unpadded) |
| `Base64Url.DecodeAccepts` | mok_core/chain/schemas.py:126-137 | Accepted are exactly texts of the alphabet and length whose pad bits are zero (section 3.5 of RFC 4648), each the encoding of what it decodes to |
| `Base64Url.SextetsOfBytes` | mok_core/chain/schemas.py:130-136 | Re-encoding gives back the text exactly when the pad bits are zero |
| `Base64Url.ParseFormat` | mok_core/chain/schemas.py:100-102 | A number that fits the width is parsed back |
| `Base64Url.FormatParse` | mok_core/chain/schemas.py:94-97 | A numeral is the formatting of what it parses to |
| `Base64Url.HexFromHex` | mok_core/chain/schemas.py:140-143 | Lower-case hex is the spelling of its bytes |
| `Commitments.DecodeInvertsEncode` | mok_core/chain/schemas.py:171-372 | For all four kinds, within 128 bytes; a window keeps 128 bits of its payload hash, a bucket name becomes the committer's |
| `Commitments.EncodeInvertsDecode` | mok_core/chain/schemas.py:171-372 | Every accepted string re-encodes to itself and decodes to a valid commitment |
| `Commitments.DecodingIsInjective` | mok_core/chain/schemas.py:358-372 | No two strings decode to the same commitment |
| `Commitments.BucketKeptExactly` | mok_core/chain/schemas.py:149-213 | A bucket commit reads back as itself exactly when its bucket is named after the committer |
| `Commitments.WireBindsSame` | mok_core/chain/schemas.py:250-281 | A window commit binds the same payload hashes before and after the wire |
| `Commitments.BindsExactly` | mok_core/chain/schemas.py:250-256 | It binds exactly the hashes that share the first 128 bits, its own among them |
| `Commitments.SplitJoined` | mok_core/chain/schemas.py:100-112 | The prefix splits off what was joined |
| `Commitments.JoinSplitPrefix` | mok_core/chain/schemas.py:105-112 | An accepted prefix is the one its version writes |
| `HistoryWalk.ChainClient.RecoverBucketsFromHistory` | mok_core/chain/client.py:358-428 | The batched walk gives every uid the answer of its own walk, and the cache gains exactly the answers; the loop ends because every uid still walking gets lower, not because of its hop counter |
| `HistoryWalk.ChainClient.ReadHead` | mok_core/chain/client.py:376-395 | The head snapshot settles or starts every wanted uid |
| `HistoryWalk.ChainClient.HopAll` | mok_core/chain/client.py:397-427 | One round moves every remaining uid one hop, reading each block once |
| `HistoryWalk.HopLowers` | mok_core/chain/client.py:409-427 | One hop takes the cursor of a uid still walking strictly back |
| `HistoryWalk.RoundFalls` | mok_core/chain/client.py:396-428 | A whole round lowers the height of the highest uid still walking, which is the loop's measure |
| `HistoryWalk.ChainClient.ReadBlock` | mok_core/chain/client.py:409-427 | One shared read serves all uids that look at the block |
| `HistoryWalk.CapIrrelevant` | mok_core/chain/client.py:396-428 | Cursors strictly decrease, so past the depth of the history the hop cap changes nothing |
| `HistoryWalk.AnswerIsNewestBucket` | mok_core/chain/client.py:358-428 | On an honest chain the answer is the newest bucket commit, exactly when the walk reaches it above the floor and within the cap |

## Left out

- Lockstep.LiveMeetsCatchUp: gathers take the certificate's uids as a set; retry loops around catch-up are not modelled.
- CertifiedStep.TraceMeetsCatchUp: the class that runs catch-up takes building and applying as functions; that the methods compute those functions is `CertifiedStep.ApplyWindow`. Casting a dense tensor to fp32 is left out.
- CatchUp.Replica.CatchUp: setting up dense names and the compressor, and applying parameters to a live model, are not modelled; building and applying a window's inputs are parameters, which CertifiedStep fills in.
- Exchange.GatherCertified: the byte budget for the mirror fetch and network timing are part of the storage oracle.
- Aggregator.Deserialize: which JSON texts load as a header is the parameter `parse`; a frame compressed differently is accepted, so the byte-for-byte claim is about the decompressed body.
- OuterStep.ReplicatedOuterStep.Apply: the telemetry report and momentum save and load are not modelled; names are numbered in sorted order.
- ClipFactors.ClippedNorm: real arithmetic, no rounding, no NaN.
- ClipFactors.SilencedExactly: real arithmetic, so a quotient that underflows to zero in fp32 is not modelled.
- Certificates.BuildCertificate: scores are reals, so NaN scores are not modelled.
- StateRoot.HashNamedTensors: the digest's hex spelling is left out; names that are not Unicode scalar values cannot be encoded by the source either.
- BitPacking.PackIndices: 64-bit inputs are modelled as 16-bit words, which covers the range check and every packed value.
- SparsePairs.ScatterIsDecompress: the quantizer is a lookup from codes to values; where an index repeats, entries are written in order, while the library's scatter defines no order then.
- Spool.Directory.SpoolDocuments: a crash is the end of the process between two disk operations; loss of writes that had returned (power failure) is not modelled, nor are compression and JSON.
- DedupParallel.DedupParallel: output spools start empty; the process pools keep or lose task order without effect on the sum, so they are loops.
- ShardWriter.WriteShards: dtype and shape of an array are fields; the temporary file's removal on an error is not modelled.
- TokenPack.WriteTokenStream: the partial file an error leaves behind is not modelled.
- TokenPack.TokenizeSource: one source at a time; the worker pool, which completes tasks in any order, is a loop over differently named files.
- Merkle.MerkleTree.constructor: the check that leaves are 32 bytes and the hex layer of the index are not modelled; an empty leaf list, which the source refuses, is a precondition.
- ShardCache.ShardCache.Prefetch: the start-up scan, overlapping calls and write threads that outlive a call are not modelled.
- BatchPlan.PairsDistinctAndInRange: every shard is assumed full, as the source assumes; the random permutations are given.
- HistoryWalk.ChainClient.RecoverBucketsFromHistory: retries of a failed chain read are part of the oracle.
- ErrorFeedback, top-k selection and quantization: floating-point kernels without an exact contract.
- Checkpoint files, tar, object-store keys, telemetry, audits and debug slices: plumbing.
- Parallel downloads and their worker states: the layout only adds an order of worker directories, which DedupParallel covers.
- Training, evaluation, release and fleet code: library wrappers and reports.
