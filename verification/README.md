# Lite-Vision: verified model

A Dafny model of the parts of Lite-Vision whose correctness does not show in any single function: the
scene graph check, the replicated data types, the Merkle tree, the voting engine, the byte codec, the asset
cache, settlement and its transactions, the dispute engine, redundancy verdicts, operator routing,
cross-partition messaging and block pruning. `dafny verify dfyconfig.toml` checks the whole project.

Each component has a value-level description (what a state is and what one step does), lemmas about
every run of those steps, and, where the program works in place, a class or a loop proved to follow that
description. Hashes, signatures, clocks and map iteration orders are arbitrary: hash functions are
parameters (collision freedom is an explicit hypothesis of the lemmas that need it), the clock is an
argument, and a loop over a hash map picks its keys in any order.

| file | component |
|---|---|
| Prelude.dfy, MapSum.dfy | shared vocabulary: duplicate-free and ascending sequences, order-free map totals |
| Scene.dfy | scene graph, Kahn's algorithm, reference errors |
| Counters.dfy | version vector, grow-only counter, increment/decrement counter |
| OrSets.dfy, OrSetLogs.dfy | observed-remove set, and exactly when its replicas converge |
| Graphs.dfy | replicated graph |
| Merkle.dfy | tree builder, path checker, path generator |
| Consensus.dfy, ConsensusLocks.dfy | voting engine and agreement; its state read off its history |
| Codec.dfy, CodecItems.dfy | varints, fixed-width integers, writer and reader |
| AssetCache.dfy | tiered cache and verifying fetcher |
| Settlement.dfy, Chain.dfy, ChainEffects.dfy | escrow books, rewards, transactions, blocks; what payload bytes mean |
| Disputes.dfy | dispute engine and slashing shares |
| Redundancy.dfy | majority verdict, challenge counter |
| Routing.dfy, RoutingScores.dfy | eligibility, scoring, top-k selection; what scores mean |
| CrossPartition.dfy | partition roots, message replay, receipts |
| Pruning.dfy | block archive |

Main results: `SceneIR.IsAcyclic` decides acyclicity of every scene, well-formed or not; replicas of the graph that
have seen the same updates are in the same state whatever the merge order (`Convergence`), and replicas of the
observed-remove set that synchronise in both directions converge exactly when no merge loses a shown tag
(`ConvergesExactlyWhenKept`); a counter reads exactly the number of distinct increments that reached it
(`ReadingIsReceived`); a checked Merkle path carries the leaf it spells (`AcceptedPathIsSound`); an engine is always
locked on the latest prevote or parent certificate of its height (`EngineFollowsHistory`); no two quorum certificates
of one height, round and type disagree while at most a third of the validators equivocate (`Agreement`); every typed
write sequence reads back (`SequenceRoundTrip`); the cache never exceeds its limits (`RunKeepsCache`); what
transactions hand in is conserved from genesis through every run of blocks, down to the payload bytes
(`ChainIsActions`); every resolution judges its claim's own hashes (`ResolutionsAreJust`); better operators are routed
first (`FasterIsRouted`); and escrows stay frozen under open disputes exactly in the runs that never set one up again
meanwhile (`FrozenThroughout`).

Some promises do not hold of the code. Each has a concrete failing input and the exact condition under which it holds:
convergence of observed-remove sets (`CarelessDivergence`; `ConvergesExactlyWhenKept`, `ShownWhenKept`, and for one
merge `MergeShowsSameWhen`), removing from them (`TwiceAddedSurvives`; `RemoveHides`), generated Merkle proofs
(`TwoLeavesRefused`; `GeneratedProofVerifies`), certificate weight (`UnderweightCertificate`; `CertificateWeight`),
varint canonicity (`NonCanonicalAccepted`; `CanonicalWhen`), slash shares near 2^64 (`SharesLost`; `SharesConserve`),
escrows frozen during a dispute (`FreezeLost`; `FrozenThroughout`), archive statistics (`OutOfOrderStats`;
`StatsAreExtremes`, `AscendingThroughout`), prices, uptimes and memory sizes whose points wrap (`PointsWrap`;
`PriceOrderExactlyWhen`, `UptimeOrderExactlyWhen`, `MemoryOrderExactlyWhen`), and blocks that leave the escrow books
alone when refused (`RefusedBlockLeavesDeposit`; `RefusedBlockBooks`). The asset cache calls its queue `lru`, but
reads do not touch it: eviction is first-in first-out, and the model follows the code.

## Model

| member | source | states |
|---|---|---|
| Scene.SceneIR.IsAcyclic | crates/rpack/src/scene.rs:46-83 | for every scene, true exactly when node ids are distinct, no edge enters a node from an unknown source, and there is no directed cycle; on numbered scenes without edge errors, exactly when there is no cycle |
| Scene.InDegrees | crates/rpack/src/scene.rs:47-57 | the degree of a node is the number of edges entering it, repeated edges counted |
| Scene.InitialQueue | crates/rpack/src/scene.rs:59-63 | whatever order the map yields, the queue lists the zero-degree nodes, each once |
| Scene.Relax | crates/rpack/src/scene.rs:70-79 | no degree drops below zero, no node is queued twice, and degrees count the edges from nodes not yet popped |
| Scene.Verdict | crates/rpack/src/scene.rs:82-82 | when the queue is empty, all nodes were popped iff the scene is well-formed and acyclic |
| Scene.AcyclicIffOrder | crates/rpack/src/scene.rs:46-83 | the reference: a node set has a topological order iff no stranger points into it and it has no cycle |
| Scene.TrappedHasCycle | crates/rpack/src/scene.rs:67-82 | a non-empty set in which every node has a predecessor contains a cycle |
| Scene.OrderedIsAcyclic | crates/rpack/src/scene.rs:67-82 | a topologically listed node set has no cycle and no strangers |
| Scene.CleanSceneVerdict | crates/rpack/src/scene.rs:34-98 | scenes numbered by add_node whose edges check out meet the two side conditions of the verdict |
| Scene.SceneIR.AddNode | crates/rpack/src/scene.rs:34-40 | appends the node under its position as id, and keeps the scene numbered |
| Scene.SceneIR.AddEdge | crates/rpack/src/scene.rs:42-44 | appends the edge and changes nothing else |
| Scene.SceneIR.ValidateReferences | crates/rpack/src/scene.rs:85-122 | the errors are those of the edges, then constraints, then animations, in order, and there are none iff every reference is to a node of the scene |
| Scene.NoEdgeErrors | crates/rpack/src/scene.rs:91-98 | no edge error is reported iff every edge joins known nodes |
| Scene.NoConstraintErrors | crates/rpack/src/scene.rs:100-111 | no constraint error is reported iff both targets of every constraint are known |
| Scene.NoAnimationErrors | crates/rpack/src/scene.rs:113-119 | no animation error is reported iff every target is known |
| Counters.ReadingIsReceived | crates/storage/src/crdt.rs:83-96 | in every run a replica reads the number of distinct increments that reached it exactly while that fits 64 bits, never more than were made, and the total iff it received them all |
| Counters.CountsAreKnowledge | crates/storage/src/crdt.rs:83-96 | in every run each slot is the length of the prefix of that replica's increments received, and the own slot is exact |
| Counters.DominanceIsKnowledge | crates/storage/src/crdt.rs:52-66 | one vector dominates another iff its replica received everything the other did |
| Counters.JoinIsLeastUpperBound | crates/storage/src/crdt.rs:52-57 | merging is the least upper bound of the dominance order |
| Counters.BalanceIsReceived | crates/storage/src/crdt.rs:119-134 | in every run a replica reads received increments minus received decrements exactly while that balance fits an i64, through both casts and the wrapping subtraction |
| Counters.InnerCountersRun | crates/storage/src/crdt.rs:119-134 | the two inner counters each follow a grow-only run |
| Counters.MergeInto | crates/storage/src/crdt.rs:91-96 | the merge loop computes the pointwise maximum, in any key order |
| Counters.GCounter.Increment | crates/storage/src/crdt.rs:83-85 | adds one to the own slot, creating it if absent |
| Counters.GCounter.Get | crates/storage/src/crdt.rs:87-89 | the sum of all slots modulo 2^64 |
| Counters.GCounter.Merge | crates/storage/src/crdt.rs:91-96 | the new counts are the join |
| Counters.VersionVector.Increment | crates/storage/src/crdt.rs:43-46 | adds one to the named slot, creating it if absent |
| Counters.VersionVector.Merge | crates/storage/src/crdt.rs:52-57 | the new clocks are the join |
| Counters.VersionVector.DominatesOther | crates/storage/src/crdt.rs:59-66 | the early-exit scan decides pointwise dominance |
| Counters.PNCounter.Increment | crates/storage/src/crdt.rs:119-121 | bumps the positive counter only |
| Counters.PNCounter.Decrement | crates/storage/src/crdt.rs:123-125 | bumps the negative counter only |
| Counters.PNCounter.Get | crates/storage/src/crdt.rs:127-129 | the difference of the two totals, each cast to i64, wrapped to i64 |
| Counters.PNCounter.Merge | crates/storage/src/crdt.rs:131-134 | joins both inner counters |
| OrSets.TagsBelowClocks | crates/storage/src/crdt.rs:155-246 | in every run no tag or tombstone exceeds the holder's clock or its creator's clock |
| OrSets.NextTagFresh | crates/storage/src/crdt.rs:155-158 | in every run the next tag of any replica exists nowhere in the system |
| OrSets.AddAlwaysVisible | crates/storage/src/crdt.rs:160-191 | in every run adding an element makes it present, whatever was removed or merged before |
| OrSets.TagsUnique | crates/storage/src/crdt.rs:155-166 | no two adds of a run make the same tag |
| OrSets.RemoveHides | crates/storage/src/crdt.rs:168-191 | removing hides the element iff no live tag other than the largest is left |
| OrSets.RemoveEntombs | crates/storage/src/crdt.rs:168-180 | a removal entombs the tag from the highest replica id whatever the clocks, and of that replica the one with the highest clock |
| OrSets.HigherReplicaFirst | crates/storage/src/crdt.rs:168-180 | replica 2's first tag is entombed before replica 1's fifth |
| OrSets.TwiceAddedSurvives | crates/storage/src/crdt.rs:168-180 | an element added twice is still present after one removal |
| OrSets.MergeCommutesWhen | crates/storage/src/crdt.rs:207-233 | the two merge orders store the same tags iff neither side has entombed an element while lacking one of the other's tags for it |
| OrSets.MergeShowsSameWhen | crates/storage/src/crdt.rs:182-246 | the two merge orders show the same tags iff neither side has entombed an element while lacking a tag that the other shows and it has not entombed |
| OrSets.ReplicasDiverge | crates/storage/src/crdt.rs:207-246 | a six-step run after which two fully synchronised replicas disagree |
| OrSetLogs.InformedWhenCareful | crates/storage/src/crdt.rs:160-246 | at every point of a run every replica holds exactly the tags it has been told of iff no merge meets a receiver that has entombed the element and lacks a tag of it |
| OrSetLogs.ConvergesExactlyWhenKept | crates/storage/src/crdt.rs:160-246 | when replicas synchronise in both directions, replicas that have seen the same updates show the same tags at every point of a run iff no merge loses a shown tag |
| OrSetLogs.KeptConvergence | crates/storage/src/crdt.rs:160-246 | with one-way merges too, a run that loses no shown tag has replicas with the same updates agree at every point |
| OrSetLogs.ShownWhenKept | crates/storage/src/crdt.rs:160-246 | at every point of a run every replica shows exactly the tags it was told of and not told to entomb iff no merge loses a shown tag |
| OrSetLogs.ShownStep | crates/storage/src/crdt.rs:207-246 | a step keeps every replica showing what it was told iff it is not a merge that loses a shown tag |
| OrSetLogs.CarefulIsKept | crates/storage/src/crdt.rs:207-246 | a run that loses no stored tag loses no shown one |
| OrSetLogs.ConcurrentRemovals | crates/storage/src/crdt.rs:168-246 | the converse fails: replicas that each added and removed an element lose a stored tag on merging but no shown one |
| OrSetLogs.TombstonesAreBuried | crates/storage/src/crdt.rs:168-246 | in every run a replica's tombstones are exactly those of the removals it has seen |
| OrSetLogs.InformedStep | crates/storage/src/crdt.rs:207-233 | a step keeps every replica informed iff it is not a lossy merge |
| OrSetLogs.CarelessDivergence | crates/storage/src/crdt.rs:207-246 | in the diverging run both replicas have seen every update and a merge loses a shown tag |
| OrSets.MergeElements | crates/storage/src/crdt.rs:208-233 | the first merge loop drops incoming tags of locally entombed elements and unites the rest, in any order |
| OrSets.MergeTags | crates/storage/src/crdt.rs:235-243 | the tombstone loop computes the union per element |
| OrSets.ScanLargest | crates/storage/src/crdt.rs:170-170 | finds the largest tag in the derived order, replica id before clock |
| OrSets.ORSet.AddElement | crates/storage/src/crdt.rs:160-166 | one more tag under a raised clock |
| OrSets.ORSet.RemoveElement | crates/storage/src/crdt.rs:168-180 | entombs exactly the largest tag, and reports whether there was one |
| OrSets.ORSet.ContainsElement | crates/storage/src/crdt.rs:182-191 | present iff some tag is not entombed |
| OrSets.ORSet.MergeFrom | crates/storage/src/crdt.rs:207-246 | the new state is the merge of the two |
| Graphs.Convergence | crates/storage/src/crdt.rs:340-402 | replicas that have seen the same updates hold the same state up to replica ids and have the same neighbours |
| Graphs.NeighborsExactly | crates/storage/src/crdt.rs:344-378 | in every run a replica shows exactly the edges it has seen added and not seen removed |
| Graphs.RemovedStaysRemoved | crates/storage/src/crdt.rs:354-402 | a removed edge never reappears on a replica that has seen the removal, even when added again |
| Graphs.NeighborListsAgree | crates/storage/src/crdt.rs:365-378 | replicas that have seen the same updates return identical neighbour lists |
| Graphs.ReplicaReflectsLog | crates/storage/src/crdt.rs:340-402 | in every run a replica's tags, tombstones and clocks are exactly those of the updates that reached it |
| Graphs.LogDeterminesContent | crates/storage/src/crdt.rs:340-402 | two states reflecting the same updates differ only in replica ids |
| Graphs.ReachableTombFree | crates/storage/src/crdt.rs:340-402 | the inner sets of every reachable graph are tombstone-free |
| Graphs.MergeCommutative | crates/storage/src/crdt.rs:380-402 | tombstone-free merge is commutative up to replica ids |
| Graphs.MergeAssociative | crates/storage/src/crdt.rs:380-402 | tombstone-free merge is associative up to replica ids |
| Graphs.MergeIdempotent | crates/storage/src/crdt.rs:380-402 | merging a tombstone-free graph with itself changes nothing |
| Graphs.MergeEdges | crates/storage/src/crdt.rs:383-389 | the edge loop merges every incoming edge set, creating missing ones, in any order |
| Graphs.CRDTGraph.PutNode | crates/storage/src/crdt.rs:340-342 | adds a node tag and nothing else |
| Graphs.CRDTGraph.PutEdge | crates/storage/src/crdt.rs:344-352 | ticks the clock and tags the edge in its source's set |
| Graphs.CRDTGraph.CutEdge | crates/storage/src/crdt.rs:354-363 | ticks the clock and records a removal tag, leaving the edge sets alone |
| Graphs.CRDTGraph.GetNeighbors | crates/storage/src/crdt.rs:365-378 | the ascending list of exactly the neighbours |
| Graphs.CRDTGraph.MergeFrom | crates/storage/src/crdt.rs:380-402 | the new state is the merge of the two graphs |
| Merkle.Build | crates/truth/src/cryptography.rs:107-144 | for non-empty leaves the last node is the recursively defined root, and the leaves come first |
| Merkle.LevelKeepsRoot | crates/truth/src/cryptography.rs:121-130 | building one level leaves the recursive root unchanged |
| Merkle.PairUp | crates/truth/src/cryptography.rs:122-127 | the next level pairs neighbours and an odd last node with itself |
| Merkle.VerifyProof | crates/truth/src/cryptography.rs:196-206 | accepts iff folding the path from the leaf gives the stated root |
| Merkle.AcceptedPathIsSound | crates/truth/src/cryptography.rs:196-215 | with injective combination, an accepted path of the tree's depth carries a leaf of the tree, and exactly leaf i when its flags spell i |
| Merkle.TruePathAccepted | crates/truth/src/cryptography.rs:196-206 | the path of true partners of any leaf is accepted |
| Merkle.TruePathSpells | crates/truth/src/cryptography.rs:196-206 | the flags of that path spell the leaf's position |
| Merkle.FoldInjective | crates/truth/src/cryptography.rs:196-206 | with injective combination, equal folds along equal sides have equal leaves and paths |
| Merkle.MakeProof | crates/truth/src/cryptography.rs:146-194 | none past the end, otherwise the path of picked neighbours |
| Merkle.GeneratedProofVerifies | crates/truth/src/cryptography.rs:146-206 | a generated proof is accepted iff at every level the leaves under the picked neighbour equal those under the true partner; with distinct leaves, iff there is one leaf |
| Merkle.SamePathIffRight | crates/truth/src/cryptography.rs:121-194 | on any level, the picked path is the true one iff the leaves under every picked neighbour are those under the true partner |
| Merkle.StandForUp | crates/truth/src/cryptography.rs:121-130 | with injective combination, if equal nodes of a level mean equal leaves below, so do equal nodes of the next level |
| Merkle.TwoLeavesRefused | crates/truth/src/cryptography.rs:146-206 | both proofs generated for a tree of two different leaves are refused |
| Consensus.Agreement | crates/truth/src/consensus.rs:104-112 | in every run of any engines, with at most (n-1)/3 equivocators among the n validators and any number outside, no two quorum certificates of one height, round and type name different blocks |
| Consensus.QuorumsIntersect | crates/truth/src/consensus.rs:108-112 | two quorums among n validators share at least (n-1)/3 + 1 of them |
| Consensus.QuorumIsTwoThirds | crates/truth/src/consensus.rs:108-112 | the default quorum test passes iff signers exceed two thirds of the validators |
| Consensus.RunSound | crates/truth/src/consensus.rs:201-394 | in every run held votes are of the current height and round and were delivered, and issued certificates have distinct signers who voted so |
| Consensus.ActionKeepsSound | crates/truth/src/consensus.rs:201-394 | every step keeps the vote set current, and Finalized always has a precommit certificate of the current height and round |
| Consensus.CertificateWeight | crates/truth/src/consensus.rs:271-290 | a certificate reaches the threshold iff that many votes, the new one included, back its block; when the held votes of its type agree it carries them all |
| Consensus.UnderweightCertificate | crates/truth/src/consensus.rs:271-290 | a run of an engine with three active validators that issues a certificate with one signature against a threshold of three |
| ConsensusLocks.EngineFollowsHistory | crates/truth/src/consensus.rs:201-394 | after every run the view, the phase and both certificates are those of the history, and the lock is on the block of the latest prevote or accepted parent certificate since the height was entered, with a certificate naming it |
| ConsensusLocks.EngineHoldsLatestVotes | crates/truth/src/consensus.rs:256-354 | after every run the held votes are each validator's latest for the current view |
| ConsensusLocks.WorldLocked | crates/truth/src/consensus.rs:201-394 | in every world reached by a run of many engines, each engine follows its own history so |
| ConsensusLocks.WorldEngineRun | crates/truth/src/consensus.rs:201-394 | every engine of a reached world has a history of its own |
| ConsensusLocks.PrevoteLocks | crates/truth/src/consensus.rs:278-300 | a prevote certificate moves to precommitting and locks its block, whatever was locked before |
| ConsensusLocks.PrecommitFinalizes | crates/truth/src/consensus.rs:328-350 | a precommit certificate finalizes and leaves the lock alone |
| ConsensusLocks.CertifiesExactlyWhen | crates/truth/src/consensus.rs:256-304 | a vote is refused iff it is for another view, and certifies iff enough latest votes of this view are of its type |
| ConsensusLocks.WhyRefused | crates/truth/src/consensus.rs:257-265 | each refusal and its reason, in order |
| ConsensusLocks.LeaderIsProposer | crates/truth/src/consensus.rs:201-223 | while proposing or prevoting the recorded proposer leads the current view |
| Consensus.EveryoneLeads | crates/truth/src/consensus.rs:187-194 | from any height and round every active validator leads within n rounds |
| Consensus.ActiveIdsExactly | crates/truth/src/consensus.rs:166-166 | the active list holds exactly the active validators |
| Consensus.Gather | crates/truth/src/consensus.rs:286-290 | the signatures list exactly the block's backers, each once, in any map order |
| Consensus.ConsensusEngine.constructor | crates/truth/src/consensus.rs:165-174 | a fresh engine with the quorum of its active validators as threshold |
| Consensus.ConsensusEngine.StartNewView | crates/truth/src/consensus.rs:201-208 | sets height and round, clears the votes and picks the proposer |
| Consensus.ConsensusEngine.ProposeBlock | crates/truth/src/consensus.rs:210-233 | refused outside the propose phase; otherwise locks on the parent certificate if given |
| Consensus.ConsensusEngine.ReceivePrevote | crates/truth/src/consensus.rs:256-304 | refuses a wrong height, round or type in that order unchanged, records the vote, and past the threshold certifies and locks the voted block |
| Consensus.ConsensusEngine.ReceivePrecommit | crates/truth/src/consensus.rs:306-354 | refuses a wrong height, round or type in that order unchanged, records the vote, and past the threshold finalizes |
| Consensus.ConsensusEngine.CommitBlock | crates/truth/src/consensus.rs:363-374 | only from Finalized; returns to idle |
| Consensus.ConsensusEngine.AdvanceToNextView | crates/truth/src/consensus.rs:376-382 | next round with no votes, locks kept |
| Consensus.ConsensusEngine.AdvanceToNextHeight | crates/truth/src/consensus.rs:384-394 | next height, round zero, votes, locks and certificates cleared |
| Codec.VarintRoundTrip | crates/core/src/canonical.rs:134-147 | every u64 with any trailing bytes reads back and leaves exactly the trailing bytes |
| Codec.EncodedSize | crates/core/src/canonical.rs:134-147 | one to ten bytes for every u64 |
| Codec.VarintShortest | crates/core/src/canonical.rs:228-243 | no accepted byte string is shorter than the encoding of its value |
| Codec.VarintPrefixFree | crates/core/src/canonical.rs:134-147 | no encoding is a proper prefix of another |
| Codec.CanonicalWhen | crates/core/src/canonical.rs:228-243 | an accepted string is the encoding of its value iff it has no redundant zero group and no bit beyond the sixty-fourth |
| Codec.NonCanonicalAccepted | crates/core/src/canonical.rs:228-243 | zero has a second, longer accepted spelling |
| Codec.OrAdds | crates/core/src/canonical.rs:233-233 | oring a shifted group onto a smaller value adds it |
| CodecItems.SequenceRoundTrip | crates/core/src/canonical.rs:90-252 | any sequence of typed writes, read with the same types, yields the same values and leaves what followed |
| CodecItems.ItemRoundTrip | crates/core/src/canonical.rs:90-243 | every in-range item of every type reads back, whatever follows |
| CodecItems.DecodedInRange | crates/core/src/canonical.rs:170-243 | every item a read returns is a value of the type asked for |
| CodecItems.SignedRoundTrip | crates/core/src/canonical.rs:194-212 | the two's-complement casts undo each other in every width |
| CodecItems.EncodedBytes | crates/core/src/canonical.rs:90-128 | byte i of an unsigned item is n / 2^(8i) mod 256, and a signed item is negative iff its last byte has the top bit |
| CodecItems.DecodedValue | crates/core/src/canonical.rs:170-212 | an unsigned read is the sum of its bytes times 2^(8i), and a signed one is 2^(8w) less iff its last byte has the top bit |
| CodecItems.LittleEndianByte | crates/core/src/canonical.rs:94-108 | the same for any width |
| CodecItems.LittleEndianIsPositional | crates/core/src/canonical.rs:174-192 | the same for any byte string |
| CodecItems.LittleEndianInverse | crates/core/src/canonical.rs:174-192 | reading and writing back gives the same bytes |
| CodecItems.VarintByte | crates/core/src/canonical.rs:134-147 | byte i of a varint carries bits 7i to 7i+6, with the top bit set iff another byte follows |
| CodecItems.ByteWriter.WriteUnsigned | crates/core/src/canonical.rs:90-108 | appends the bytes of the item, least significant first |
| CodecItems.ByteWriter.WriteSigned | crates/core/src/canonical.rs:110-128 | appends the little-endian bytes of the cast value |
| CodecItems.ByteWriter.WriteBytes | crates/core/src/canonical.rs:130-132 | appends the bytes |
| CodecItems.ByteWriter.WriteVarint | crates/core/src/canonical.rs:134-147 | the loop appends the base-128 encoding |
| CodecItems.ByteReader.ReadBytes | crates/core/src/canonical.rs:214-226 | returns the next bytes, or fails without moving |
| CodecItems.ByteReader.ReadUnsigned | crates/core/src/canonical.rs:170-192 | decodes the next bytes, or fails without moving |
| CodecItems.ByteReader.ReadSigned | crates/core/src/canonical.rs:194-212 | decodes and casts, or fails without moving |
| CodecItems.ByteReader.ReadVarint | crates/core/src/canonical.rs:228-243 | on any input stops within ten bytes, never shifts by 64 or more, and returns the groups modulo 2^64 or fails |
| CodecItems.ByteReader.Remaining | crates/core/src/canonical.rs:245-247 | the number of unread bytes |
| AssetCache.RunKeepsCache | crates/rpack/src/asset.rs:129-211 | in every run both bounded tiers stay within their byte limits with every cached id queued, and stay authentic if every put matched its hash |
| AssetCache.PutKeepsTier | crates/rpack/src/asset.rs:138-160 | a put keeps the tier bounded and its ids queued, keeps survivors unchanged, and oversized data empties the tier unstored |
| AssetCache.MakeRoom | crates/rpack/src/asset.rs:140-151 | evicts the shortest queue prefix that makes room, or everything, with the running size always the true sum |
| AssetCache.EvictAndInsert | crates/rpack/src/asset.rs:138-184 | stores iff the data alone fits, after evicting just enough |
| AssetCache.RemoveKeepsTier | crates/rpack/src/asset.rs:197-206 | a removal keeps the bound and the other entries |
| AssetCache.QueueIsPutOrder | crates/rpack/src/asset.rs:138-211 | in every run a tier queues the latest of its puts in the order of the puts |
| AssetCache.EvictsOldest | crates/rpack/src/asset.rs:140-151 | what a put evicts was queued before anything it spares |
| AssetCache.EvictsOnlyAsNeeded | crates/rpack/src/asset.rs:140-160 | a put that fits evicts nothing, and otherwise the last evicted entry would not have fitted |
| AssetCache.PutThenGet | crates/rpack/src/asset.rs:116-195 | a lookup after a put into memory finds that data whatever the other tiers hold; disk answers only after memory, regional after both |
| AssetCache.AssetCache.Get | crates/rpack/src/asset.rs:116-127 | memory before disk before regional |
| AssetCache.AssetCache.Put | crates/rpack/src/asset.rs:129-136 | changes only the chosen tier, and never the network tier |
| AssetCache.AssetCache.RemoveAsset | crates/rpack/src/asset.rs:197-211 | the id is gone from all tiers, and the answer tells whether it was in any |
| AssetCache.AssetFetcher.FetchAsset | crates/rpack/src/asset.rs:256-266 | whatever is found hashes to the id asked for; missing only when offline |
| AssetCache.AssetFetcher.VerifyAndCache | crates/rpack/src/asset.rs:268-280 | data is stored only under its own hash, and is found afterwards |
| Settlement.EveryRunConserves | crates/truth/src/settlement.rs:428-479 | what the creations of a run hand in equals payments plus open escrows plus amounts overwritten unpaid, and no escrow is paid twice or in part |
| Settlement.EscrowIsLastCreate | crates/truth/src/settlement.rs:32-56 | in every run a job has an escrow iff one was created, with the client, whole amount, block and deadline of its last creation |
| Settlement.SettlePaysWhatWasHandedIn | crates/truth/src/settlement.rs:58-72 | in every run settling an active escrow pays exactly what its last creation handed in and closes it; any other is left alone |
| Settlement.FreezeMovesOnly | crates/truth/src/settlement.rs:74-84 | in every run freezing moves only an active escrow, unfreezing only a frozen one, and no amount changes |
| Settlement.JobsAreSeparate | crates/truth/src/settlement.rs:428-479 | a job's escrow is what the actions on that job alone make it |
| Settlement.DepositsAreHandedIn | crates/truth/src/settlement.rs:428-445 | the recorded deposits are exactly what the creations of the run hand in |
| Settlement.RunBalances | crates/truth/src/settlement.rs:58-84 | any run of create, release, refund, freeze and unfreeze keeps balanced books balanced |
| Settlement.ActBalances | crates/truth/src/settlement.rs:58-84 | each single operation does |
| Settlement.ClosedStaysClosed | crates/truth/src/settlement.rs:58-84 | through every run a paid or refunded escrow keeps its record until its job gets a new escrow |
| Settlement.PaidNeverAgain | crates/truth/src/settlement.rs:58-72 | a payment stands through every run, and the escrow it paid is never paid again |
| Settlement.ReserveIsAThousandth | crates/truth/src/settlement.rs:42-42 | the verifier reserve is a thousandth rounded down exactly until the saturated product caps it |
| Settlement.CreditEach | crates/truth/src/settlement.rs:513-515 | the reward loop credits each listing once and adds up |
| Settlement.SettlementState.CreateEscrow | crates/truth/src/settlement.rs:428-445 | replaces the job's escrow by a fresh active one and keeps the books balanced |
| Settlement.SettlementState.Settle | crates/truth/src/settlement.rs:58-72 | pays the full amount once if active, nothing otherwise |
| Settlement.SettlementState.SettleEscrow | crates/truth/src/settlement.rs:455-479 | refuses unknown or inactive escrows unchanged, otherwise pays in full |
| Settlement.SettlementState.SetFrozen | crates/truth/src/settlement.rs:74-84 | moves only between active and frozen |
| Settlement.SettlementState.DistributeVerifierRewards | crates/truth/src/settlement.rs:501-518 | pool plus rewards is conserved up to the division's remainder |
| Chain.BlockKeepsChain | crates/truth/src/state.rs:452-466 | every block, accepted or refused half-way, keeps conservation, single payment, the operator registry's bounds and stake index, and the receipts under their hashes |
| Chain.EveryChainRunConserves | crates/truth/src/state.rs:130-466 | from genesis, through any blocks, heights and direct escrow operations, deposits equal payments plus held plus overwritten, and no escrow is paid twice |
| ChainEffects.ChainIsActions | crates/truth/src/state.rs:130-466 | from genesis the books of any run are those of the escrow operations its accepted payloads spell, and what these hand in is paid, held or overwritten |
| ChainEffects.ChainPaysWhatWasHandedIn | crates/truth/src/state.rs:218-389 | in every chain run an escrow carries what the transaction that last created it handed in, and settling it pays exactly that |
| ChainEffects.BlockIsActions | crates/truth/src/state.rs:452-466 | the same for one block |
| ChainEffects.DepositEffect | crates/truth/src/state.rs:349-362 | payload job, amount: an active escrow of the sender for the whole amount, 500 blocks |
| ChainEffects.SubmitEffect | crates/truth/src/state.rs:218-237 | payload job, kernel, budget, deadline: the budget is deposited |
| ChainEffects.SettleEffect | crates/truth/src/state.rs:364-389 | payload job, and recipient for a release: closes exactly an active escrow, as released or refunded |
| ChainEffects.JobSettleEffect | crates/truth/src/state.rs:239-264 | payload receipt, output: releases the sender's escrow if active and anchors the output |
| ChainEffects.ReputationEffect | crates/truth/src/state.rs:327-347 | payload operator, signed delta: moves the reputation by the delta within 0 and 10000, with the suspension hysteresis |
| ChainEffects.RegisterEffect | crates/truth/src/state.rs:280-311 | payload operator, key, stake: the larger of fee and stake, filed under it, reputation 1000, serving |
| ChainEffects.UpdateEffect | crates/truth/src/state.rs:313-325 | payload operator: refused iff the operator is not serving |
| ChainEffects.ReceiptEffect | crates/truth/src/state.rs:391-425 | payload operator, compute, output: an unsettled receipt of the sender |
| ChainEffects.ReceiptSettled | crates/truth/src/state.rs:427-450 | payload receipt: settles a filed one, refused otherwise |
| ChainEffects.ShortIsRefused | crates/truth/src/state.rs:218-450 | a payload too short for its fields is refused |
| ChainEffects.ForgeryIsRefused | crates/truth/src/state.rs:130-165 | a signature that does not check out is refused iff the sender has a key and the kind is not exempt |
| Chain.HandleKeepsChain | crates/truth/src/state.rs:130-450 | every transaction does |
| Chain.RefusedChangesNothing | crates/truth/src/state.rs:130-216 | a refused transaction leaves the state as it was |
| Chain.RefusedBlockKeepsPrefix | crates/truth/src/state.rs:452-466 | a refused block leaves exactly the effect of the transactions before the first refused one |
| Chain.RefusedBlockBooks | crates/truth/src/state.rs:452-466 | a refused block leaves the books alone iff no transaction before the refused one is a deposit, release, refund or settlement of an active escrow |
| Chain.AcceptedBlockBooks | crates/truth/src/state.rs:452-466 | an accepted block leaves the books alone iff none of its transactions is one of these |
| Chain.RefusedBlockLeavesDeposit | crates/truth/src/state.rs:452-466 | an active escrow stays when the refund after its deposit in the block is refused |
| Chain.RegisterKeeps | crates/truth/src/settlement.rs:130-137 | registering keeps every operator listed under its current stake and lists no stranger |
| Chain.State.ApplyTransaction | crates/truth/src/state.rs:130-216 | format and signature checks, then the handler's effect |
| Chain.State.ApplyEscrow | crates/truth/src/state.rs:218-389 | the job and escrow handlers with their payload lengths and fields, and the receipt a job settlement anchors |
| Chain.State.SettleEscrow | crates/truth/src/state.rs:364-389 | refuses unknown and inactive escrows |
| Chain.State.ApplyOperator | crates/truth/src/state.rs:280-347 | registration of a full operator record with its stake bucket, the activity check and reputation updates |
| Chain.State.ApplyReceipt | crates/truth/src/state.rs:391-450 | the artifact length check, and legacy receipts filed and settled |
| Chain.State.UpdateReputation | crates/truth/src/settlement.rs:208-226 | capped and floored, with the suspension hysteresis |
| Chain.State.ApplyBlockTransactions | crates/truth/src/state.rs:452-466 | the loop applies transactions until the first error |
| Chain.State.IncrementHeight | crates/truth/src/state.rs:505-507 | the next height, nothing else changed, everything above kept |
| Disputes.SharesConserve | crates/intelligence/src/dispute.rs:378-381 | the three shares never exceed the slashed amount, and miss at most 2 of it iff the largest product fits 64 bits |
| Disputes.SharesLost | crates/intelligence/src/dispute.rs:378-381 | the smallest slashed amount whose shares lose more than rounding |
| Disputes.ResolutionsAreJust | crates/intelligence/src/dispute.rs:354-390 | in every run a resolution says fraud iff the claim's hashes differ, charges at least the minimum only then and the challenger's bond otherwise, and splits three, three and four tenths |
| Disputes.ResolveEffect | crates/intelligence/src/dispute.rs:338-409 | resolving refunds the escrow iff the hashes differ and releases it otherwise, and gives back or reduces the frozen bond |
| Disputes.PenaltyCovers | crates/intelligence/src/dispute.rs:357-368 | a penalty covers the configured parts of budget and cost |
| Disputes.SlashIsLargest | crates/intelligence/src/dispute.rs:357-360 | the slashed amount is the largest of the minimum and the two parts |
| Disputes.OpenedExactlyWhen | crates/intelligence/src/dispute.rs:217-280 | in every run a dispute opens iff the bond suffices, it is in time and the job was never disputed; it freezes the escrow and the bond |
| Disputes.WhyNotOpened | crates/intelligence/src/dispute.rs:217-246 | each reason for refusing, in order |
| Disputes.AcceptedInPhase | crates/intelligence/src/dispute.rs:300-430 | in every run each operation is accepted iff the dispute is in the phase before, and an appeal only within 50 blocks |
| Disputes.WhyNotMoved | crates/intelligence/src/dispute.rs:300-430 | each reason for refusing |
| Disputes.PhasesInOrder | crates/intelligence/src/dispute.rs:300-447 | a dispute moves one phase at a time and no other is touched |
| Disputes.RunKeepsJobs | crates/intelligence/src/dispute.rs:228-447 | in every run each job has one dispute, and resolutions exist exactly when settled |
| Disputes.StepKeepsJobs | crates/intelligence/src/dispute.rs:205-447 | every step keeps both, whatever happens to the escrows |
| Disputes.FrozenThroughout | crates/intelligence/src/dispute.rs:205-447 | escrows are frozen under open disputes at every point of a run iff it never sets up an escrow of a job whose dispute is open |
| Disputes.StepKeepsFreezeWhen | crates/intelligence/src/dispute.rs:205-447 | a step loses the freeze iff it sets up an escrow of a job whose dispute is open |
| Disputes.FreezeLost | crates/intelligence/src/dispute.rs:205-280 | a three-step run after which an open dispute has an active escrow |
| Disputes.ResolvedAtMostOnce | crates/intelligence/src/dispute.rs:338-409 | every run resolves a dispute at most once, and exactly when it is settled |
| Disputes.SettledStep | crates/intelligence/src/dispute.rs:300-447 | only a successful resolve settles a dispute, and its resolution is never changed |
| Disputes.InitKeepsFreezeWhen | crates/intelligence/src/dispute.rs:205-215 | setting up an escrow keeps the freeze iff the job has no open dispute |
| Disputes.DisputeEngine.InitiateDispute | crates/intelligence/src/dispute.rs:217-280 | the checks in order, then the dispute, its index entry, the freeze and the bond |
| Disputes.DisputeEngine.EscalateToVerification | crates/intelligence/src/dispute.rs:300-318 | only from validation |
| Disputes.DisputeEngine.SubmitVerificationResult | crates/intelligence/src/dispute.rs:320-336 | only from escalation |
| Disputes.DisputeEngine.ResolveDispute | crates/intelligence/src/dispute.rs:338-409 | the ruling, the escrow action and the bond, only from adjudication |
| Disputes.DisputeEngine.SubmitAppeal | crates/intelligence/src/dispute.rs:411-447 | only after resolution and within the window |
| Disputes.DisputeEngine.SetUpEscrow | crates/intelligence/src/dispute.rs:205-215 | an active escrow for the job |
| Redundancy.EvaluateRedundancy | crates/intelligence/src/verification.rs:434-476 | per policy; under majority, the hash with more than half of the results and its count, or a split |
| Redundancy.Decide | crates/intelligence/src/verification.rs:453-467 | whatever the map order, the majority verdict |
| Redundancy.VerdictDetermined | crates/intelligence/src/verification.rs:453-467 | the majority verdict is unique |
| Redundancy.CountHashes | crates/intelligence/src/verification.rs:454-457 | the map counts the occurrences of every reported hash |
| Redundancy.VerificationEngine.CompleteVerification | crates/intelligence/src/verification.rs:262-291 | a job escalates exactly from its threshold-th mismatch on, mismatches counted even for unknown jobs |
| Routing.Route | crates/intelligence/src/routing.rs:435-471 | min(k, eligible) eligible operators in descending score with nobody better left out |
| Routing.FallbackRoute | crates/intelligence/src/routing.rs:482-531 | the same without the excluded operators |
| Routing.SelectBest | crates/intelligence/src/routing.rs:401-433 | the best k of the ranked admissible operators |
| Routing.TakeBest | crates/intelligence/src/routing.rs:417-418 | the first k of the stable descending sort are a top-k selection |
| Routing.TotalFits | crates/intelligence/src/routing.rs:291-332 | weights summing to 100 keep every score within u32 |
| Routing.AdjustNeverWraps | crates/intelligence/src/routing.rs:409-415 | the tiebreak's wrapping addition is plain addition |
| Routing.RankedIsRight | crates/intelligence/src/routing.rs:401-415 | each ranked entry is its operator's score plus its tiebreak |
| Routing.SelectionIgnoresOrder | crates/intelligence/src/routing.rs:401-433 | without ties the selection does not depend on the listing order |
| Routing.SortedIsStable | crates/intelligence/src/routing.rs:417-417 | equal scores keep their order |
| Routing.SortedIsSorted | crates/intelligence/src/routing.rs:417-417 | the sort is a descending permutation |
| Routing.AdmissibleExactly | crates/intelligence/src/routing.rs:232-243 | exactly the eligible, not excluded operators are considered |
| Routing.IsEligible | crates/intelligence/src/routing.rs:245-289 | the chain of early exits decides eligibility |
| Routing.FirstIsEarliest | crates/intelligence/src/routing.rs:254-278 | the earliest constraint that sets a field decides it |
| Routing.WeightsOf | crates/intelligence/src/routing.rs:46-77 | every class's weights sum to 100 |
| Routing.Tiebreak | crates/intelligence/src/routing.rs:421-427 | the wrapping hash loop, reduced below 1000 |
| Routing.GenerateSeed | crates/intelligence/src/routing.rs:473-480 | the wrapping seed loop |
| RoutingScores.FasterIsRouted | crates/intelligence/src/routing.rs:401-531 | in adaptive mode, of two eligible operators alike in every other respect the slower is never selected without the faster |
| RoutingScores.BetterIsChosen | crates/intelligence/src/routing.rs:401-433 | an operator at least as good in every respect is chosen whenever the other is, unless they tie and the other is listed first |
| RoutingScores.NeverWithoutHigher | crates/intelligence/src/routing.rs:401-433 | nobody is chosen over a higher total plus tiebreak, nor at a tie over one listed earlier |
| RoutingScores.BetterNeverScoresLower | crates/intelligence/src/routing.rs:291-399 | lower latency, price and load, higher reputation and success, fewer frauds, longer uptime and more memory never lower the total |
| RoutingScores.TotalFollowsStanding | crates/intelligence/src/routing.rs:309-316 | more points in every respect never lower the total, and a lead worth a hundred raises it |
| RoutingScores.Priorities | crates/intelligence/src/routing.rs:46-77 | the order and proportions of the five weights in each class |
| RoutingScores.TenBeatsAThousand | crates/intelligence/src/routing.rs:344-356 | 10 ms score above 1000 ms in the low-latency class |
| RoutingScores.LatencyPointsAre | crates/intelligence/src/routing.rs:344-356 | a hundred up to 10 ms, then 1000 over the latency rounded down |
| RoutingScores.PricePointsAre | crates/intelligence/src/routing.rs:358-369 | a hundred for free, none at the budget, and the saved share in between rounded down |
| RoutingScores.PriceOrderExactlyWhen | crates/intelligence/src/routing.rs:358-369 | cheaper never has fewer points iff a hundred times the largest saving fits 64 bits or the budget exceeds 2^64 - 4 |
| RoutingScores.PointsWrap | crates/intelligence/src/routing.rs:358-397 | a price, an uptime and a memory size that score below a worse one because their points wrap |
| RoutingScores.LoadPointsAre | crates/intelligence/src/routing.rs:371-378 | the idle share in hundredths rounded down |
| RoutingScores.PlainReputationIs | crates/intelligence/src/routing.rs:332-342 | a tenth of the reputation rounded down, at most 1000 |
| RoutingScores.MeasuredReputationIs | crates/intelligence/src/routing.rs:144-151 | thousandths of success, less fifty for each of the first ten frauds, plus uptime points |
| RoutingScores.UptimePointsAre | crates/intelligence/src/routing.rs:147-147 | one per 10000 blocks, at most a hundred |
| RoutingScores.UptimeOrderExactlyWhen | crates/intelligence/src/routing.rs:147-147 | longer uptime never has fewer points iff the count fits 32 bits or has wrapped back to the maximum |
| RoutingScores.MemoryOrderExactlyWhen | crates/intelligence/src/routing.rs:397-397 | more memory never has fewer points iff the product fits 32 bits or has wrapped back to the maximum |
| RoutingScores.SimilarityIs | crates/intelligence/src/routing.rs:380-399 | kernel 50, region 30, memory 20 |
| RoutingScores.EligibleExactlyWhen | crates/intelligence/src/routing.rs:245-289 | eligible iff active with the kernel, capacity and budget, and within every bound its deciding constraint sets |
| RoutingScores.NumberAsked | crates/intelligence/src/routing.rs:36-44 | the explicit redundancy, or one, two or three by class |
| RoutingScores.TiebreakIsPolynomial | crates/intelligence/src/routing.rs:421-427 | the tiebreak is the seed and bytes in base 31, wrapped once |
| RoutingScores.SeedIsSum | crates/intelligence/src/routing.rs:473-480 | the seed is the bytes times rising powers of 31 plus 37 times the height, wrapped once |
| CrossPartition.RunConsistent | crates/truth/src/cross_partition.rs:314-375 | in every run known partitions' roots agree, no message id is accepted twice, and consumed is exactly accepted |
| CrossPartition.NonceNeverReused | crates/truth/src/cross_partition.rs:245-273 | the nonce error is never returned in any run |
| CrossPartition.ReceiptStands | crates/truth/src/cross_partition.rs:245-273 | a job and operator's receipt is never replaced |
| CrossPartition.ReceiptIsFirstCommit | crates/truth/src/cross_partition.rs:245-273 | in every run a receipt carries the output, operator and height of the first commit of its job and operator |
| CrossPartition.CommittedExactlyWhen | crates/truth/src/cross_partition.rs:245-273 | a commit is accepted iff its job and operator have not committed before |
| CrossPartition.AcceptedExactlyWhen | crates/truth/src/cross_partition.rs:100-123 | in every run a message is accepted iff new, no older than 10000 below the latest prune, proven against the root last recorded for its source, and signed by two validators |
| CrossPartition.WhyRefused | crates/truth/src/cross_partition.rs:100-123 | each reason for refusing, in order |
| CrossPartition.RootsFollow | crates/truth/src/cross_partition.rs:314-338 | the recorded root is the last one set for a partition not removed since |
| CrossPartition.HeightFollows | crates/truth/src/cross_partition.rs:372-375 | the minimum height is 10000 below the latest prune |
| CrossPartition.VerifyMerkleProof | crates/truth/src/cross_partition.rs:125-139 | the loop folds sorted pairs up to the root |
| CrossPartition.PathAdmitsOne | crates/truth/src/cross_partition.rs:125-139 | with an injective hash one path to one root admits one leaf |
| CrossPartition.ProofAdmitsOnePayload | crates/truth/src/cross_partition.rs:101-139 | with an injective hash all messages accepted with one proof, at any points of any runs, carry the same payload |
| CrossPartition.PartitionManager.ProcessMessage | crates/truth/src/cross_partition.rs:340-358 | the checks in order, then the id is consumed |
| CrossPartition.PartitionManager.RegisterReceipt | crates/truth/src/cross_partition.rs:245-273 | a duplicate is refused, otherwise nonce and receipt are recorded |
| CrossPartition.PartitionManager.UpdatePartitionRoot | crates/truth/src/cross_partition.rs:333-338 | both roots change together |
| CrossPartition.PartitionManager.AddPartitionRoot | crates/truth/src/cross_partition.rs:314-326 | both roots start at zero |
| CrossPartition.PartitionManager.DropPartition | crates/truth/src/cross_partition.rs:328-331 | both roots go |
| CrossPartition.PartitionManager.PruneMessages | crates/truth/src/cross_partition.rs:372-375 | raises the minimum height only, forgetting no consumed id |
| Pruning.PruneIsExact | crates/truth/src/pruning.rs:92-128 | when due, pruning what is listed removes exactly the blocks below the cutoff and a second look finds nothing |
| Pruning.DueExactlyWhen | crates/truth/src/pruning.rs:92-99 | due iff enabled and the current height exceeds the minimum height plus the retention |
| Pruning.ArchiveIsLastPuts | crates/truth/src/pruning.rs:69-128 | in every run each height holds the block last archived there and not pruned since |
| Pruning.RunIndexed | crates/truth/src/pruning.rs:69-128 | in every run the queue lists the archived heights once each |
| Pruning.AscendingThroughout | crates/truth/src/pruning.rs:69-128 | the queue is ascending at every point of a run iff every newly archived height exceeds those in the archive |
| Pruning.StatsAreExtremes | crates/truth/src/pruning.rs:134-151 | the queue's ends are the true extremes, and stay so under every pruning, iff the queue is ascending |
| Pruning.OutOfOrderStats | crates/truth/src/pruning.rs:134-151 | archived out of order, the reported earliest height is not the smallest |
| Pruning.StatePruner.ArchiveBlock | crates/truth/src/pruning.rs:69-90 | stores the block and queues a new height once |
| Pruning.StatePruner.PruneHeights | crates/truth/src/pruning.rs:115-128 | drops exactly the listed archived blocks, keeps the queue order, and counts them |
| Pruning.StatePruner.GetBlocksToPrune | crates/truth/src/pruning.rs:101-113 | nothing unless due, otherwise the queued heights below the cutoff |
| Pruning.StatePruner.GetStats | crates/truth/src/pruning.rs:134-151 | count, total bytes and the queue's ends, which bound every height iff the ends are right, as in an ascending queue |

## Left out

- Counters.GCounter.Increment: counts are unbounded; a u64 slot would need 2^64 increments by one replica to overflow.
- Counters.GCounter.Get: the sum wraps as in a release build; a debug build stops instead. The same holds of PNCounter.Get.
- Consensus.ConsensusEngine.ReceivePrevote: the whole method is one atomic step, while the source re-reads the lock between its checks and its write; heights and rounds are unbounded.
- Consensus.ConsensusEngine.ReceivePrecommit: one atomic step, as ReceivePrevote.
- Redundancy.EvaluateRedundancy: counts are unbounded, so lists of 2^32 results and more are not described.
- Routing.LoadScore: real arithmetic replaces floating point, so rounding and NaN are not described.
- Disputes.Mul64: arithmetic wraps as in a release build; a debug build stops instead.
- Chain.State.ApplyReceipt: artifact commitments carry no state, as in the source; later status changes of anchored receipts are not modelled.
- Inner edge sets of the graph are values inside its map, as the source owns them by value; the stand-alone observed-remove set is a class.
- LWWRegister, OperationId::max and merge_or_map: one comparison each; merge_or_map discards the merged value.
- KeyManager: a list of rotations with a backward scan; would only add easy members.
- MerkleTree height: computed in floating point and never read.
- Cross-round locking in consensus: the lock is overwritten unconditionally, so no cross-round safety is claimed.
- Validator and validator-set totals: they drift from their parts and slashing uses floating point.
- OperatorRegistry stake updates, deactivation and slashing outside transactions (after a slash the source looks in the wrong stake bucket).
- VerificationEngine sampling, queue and its own dispute records; RedundancyManager::determine_k.
- Jobs, receipts, kernels, rendering, delta and container formats, artifact storage and compaction.
- Canonical serde encodings, network protocols, RPC, SDK, CLI, logging, metrics, tracing and health checks.
