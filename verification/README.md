# Verification of a DPoS blockchain node

A model in Dafny of the core of go-medibloc, a blockchain node with delegated proof of stake, and
proofs about it.  `dafny verify dfyconfig.toml` checks the whole project.

## What is modelled

**The state trie** (`Bytes`, `TrieNodes`, `TrieKeys`, `TrieLaws`, `Trie`, `TrieHistory`, `TrieBatch`,
`TrieIterator`, `BlockAtomic`).  The Merkle Patricia trie with branch, ext and value nodes over a
content-addressed store that only grows, its batches and its iterator.  A node's hash is a datatype
constructor over the node: hashing with SHA3-256 after marshalling is taken to be injective.  The main
results: the trie behaves as a map, its root hash depends on the map alone and not on the history, a batch
is committed as it was seen, in whatever order its keys come, exactly if it is safe, the iterator lists
exactly the keys with a prefix in order, and `Block.Atomic` is all or nothing.

**The chain** (`BlockTree`, `Words`, `Slots`, `BlockChain`, `ChainRuns`, `StrayTail`, `Quorum`,
`TwoNodes`).  The tree
of accepted blocks, the height index, fork choice and the last irreversible block (LIB).  The main results:
whatever sequence of events a new node goes through, the LIB only moves up and nothing at or below it is
ever reverted; after every tail switch the index names exactly the tail's ancestors; forked tails are
dropped when the LIB moves; in any two runs, two nodes can only make conflicting blocks
irreversible in a dynasty of n if n/3 + 2 of its slots hold two blocks.

**The ledger** (`Errors`, `Uint128`, `Uint128Bytes`, `Sums`, `Ledger`, `Points`, `Effects`, `Conservation`,
`Registry`, `Votes`, `Fees`, `Receipts`, `Refusals`, `LedgerRuns`, `LedgerChain`, `VoteChains`, `GenesisRuns`,
`SelfPaid`, `StuckBlocks`).  Accounts, stakes, votes, candidates,
aliases, points and fees.  `Ledger` says what each transaction does as a function on states; the other
modules prove about it that coins are conserved, that candidates and accounts name each other, that vote
powers match the votes, that points stay within the stake and when a fee can be taken, for every chain of
blocks from genesis on; and exactly when a transaction runs, executes and is charged, and what it costs.

**Making and checking blocks** (`Transactions`, `LedgerTries`, `Codecs`, `Dynasty`, `BlockProduction`,
`AcceptedBlocks`, `BlockProcessing`, `SeatChains`).  Transactions
as the code runs them, writing tables step by step inside a batch, proved against `Ledger`; the same writes
as updates of the tries; dynasties and slots; the loops of the producer and the verifier.  The main results:
every block that a node mints is accepted by every node with the same parent state, which ends in the same
state; exactly the blocks are accepted whose signer has the seat of their slot, whose receipts are those
their transactions give and whose header is that of the state they lead to; the seats are those of the best
ranked candidates when the current dynasty began; and what a transaction writes in the four tries is the encoding of the state that `Ledger` says it
leads to.

**Pools and sync** (`BlockPool`, `RoundRobin`, `PendingTables`, `PendingPool`, `PoolRuns`, `Sync`).  The pool
of linked blocks as objects on the heap; the pending transactions with four tables that have to agree and a
selector that serves every sender in time; the search for the base block and the download from there.

`Options` and `Sequences` hold what several of these share.

## What the code does differently from what one may expect

- Deleting a key from a trie looks at a value node without looking at what is left of the route
  (common/trie/trie.go:324-326).  `TrieHistory.DeletesAsMapIffNotShadowed` says exactly when this matters,
  `TrieBatch.CommitIsRightIffSafe` exactly for which batches a commit can be relied on, and
  `TrieBatch.AllSafeIffPrefixFree` for which sets of keys it always can.  Names of aliases, which are keys of
  different lengths in the account trie, need not be prefix-free; a transaction is safe all the same, because
  it deletes only what is there (`LedgerTries.ScriptIsSafe`).
- A stake that fails leaves its sender without the points that the check counted on (core/block.go:275-293),
  so that it cannot be charged, and a block is not made as long as it is offered
  (`StuckBlocks.FailedStakeStopsBlock`).  So does an unstaking whose sender names itself as payer
  (`StuckBlocks.SelfPaidUnstakeStopsBlock`).  `LedgerChain.FillAbortsIff` says exactly when making a block is
  aborted.
- If a transaction names its own sender as payer, the sender's account is written twice and the nonce is not
  advanced (core/block.go:414-448; `LedgerRuns.AcceptAdvancesNonceIff`), so that the same transaction can run
  again.  For an application for candidacy this means that an account which quits and applies again gets its
  old id back without the votes that still name it, and those who voted for it can no longer unstake
  (`SelfPaid.SelfPaidCandidacyLosesVotes`).  Vote powers are right all along a chain exactly if no transaction
  does that (`VoteChains.EveryChainCountsVotesIff`), and never too high (`LedgerChain.EveryChainIsSolvent`).
- Coins unstaked at time zero, that is in the genesis block, do not come back until more are unstaked
  (core/state/account.go:208-233; `Effects.UnstakedCoinsReturn`).
- The operands of the subtraction in MinimumTimestampWithHeight are the wrong way round
  (consensus/dpos/dpos.go:605-607), so that this check never rejects anything; the check of the maximum
  height suffices (`Slots.AcceptedIffSlotsSuffice`).
- A tail that is forked before the LIB but higher than the main tail would not be dropped
  (core/blockchain.go:713-737; `BlockChains.BlockChain.SetLIB`).  There is none in any run in which the node
  makes its own blocks on its main tails (`ChainRuns.ForkedTailsAreDropped`).  A block pushed directly
  (core/block_manager.go:497-519) is not checked against the LIB, and blocks pushed on a branch that was given
  up show the case (`StrayTail.ForkedTailCanStay`).
- A block that is irreversible for one node can conflict with one that is for another node, without anybody
  having made two blocks for one slot, if they were confirmed in different dynasties
  (consensus/dpos/dpos.go:198-223; `TwoNodes.NodesCanDisagree`).
- A download whose target is not above the LIB can only be cancelled (sync/download.go:208-211;
  `Sync.DownloadCanSucceedIff`).

## Model

| member | source | states |
|---|---|---|
| TrieNodes.CanonicalFormIsUnique | common/trie/trie.go:232-329 | two tries in canonical form (no ext under ext, two filled slots in every branch, only a value in slot 16) with the same contents are the same trie and so have the same root hash |
| TrieNodes.SameKind | common/trie/trie.go:475-615 | canonical tries with the same contents have the same kind of node at the root |
| TrieNodes.SamePath | common/trie/trie.go:535-587 | canonical ext nodes with the same contents carry the same path |
| TrieKeys.KeyToRoute | common/trie/trie.go:625-633 | the loop over a key's bytes computes the route of its nibbles, high nibble first |
| TrieKeys.RouteToKey | common/trie/trie.go:636-643 | the loop over a route's pairs of nibbles computes its key |
| TrieKeys.PrefixLen | common/trie/trie.go:662-673 | the result is the length of the longest common prefix: the routes agree up to it and differ right after it |
| TrieKeys.KeyRoundTrip | common/trie/trie.go:625-643 | turning a key into a route and back gives the key, also with one odd nibble behind it |
| TrieKeys.RouteRoundTrip | common/trie/trie.go:625-643 | turning a route of even length into a key and back gives the route |
| TrieKeys.RoutePrefix | common/trie/trie.go:625-633 | a key is a prefix of another exactly if its route is a prefix of the other's |
| TrieKeys.RouteOrder | common/trie/trie.go:625-633 | keys whose routes are in order are in order byte by byte |
| TrieKeys.BeforeIsStrictOrder | common/trie/iterator.go:160-205 | the order in which keys are listed is a strict order, so that an ascending list repeats nothing |
| TrieLaws.SplitIsCanonical | common/trie/trie.go:555-586 | splitting an ext keeps the canonical form |
| TrieLaws.PutSplits | common/trie/trie.go:555-586 | splitting an ext at the first difference adds exactly the new route |
| TrieLaws.PutForksValue | common/trie/trie.go:589-615 | putting a longer route on a value moves the value to slot 16 and adds exactly the new route |
| TrieLaws.CollapseKeepsContents | common/trie/trie.go:269-291 | a branch left with one filled slot can be replaced by the ext or value made of it: same contents, canonical form |
| TrieLaws.RemoveBelowExt | common/trie/trie.go:294-322 | rejoining an ext with what is left below it removes exactly the one route |
| TrieLaws.VictimIsUnique | common/trie/trie.go:232-329 | deleting a route can hit at most one stored route |
| TrieLaws.VictimIfPresent | common/trie/trie.go:232-329 | deleting a stored route hits that route and no other |
| Tries.Trie.FetchNode | common/trie/trie.go:361-373 | a node is found exactly if its hash is stored, and is the node with that hash |
| Tries.Trie.SaveNode | common/trie/trie.go:448-453 | the store gains the node under its hash and loses nothing |
| Tries.Trie.GetRoute | common/trie/trie.go:375-410 | the walk over branch, ext and value nodes finds the value stored at the route, or NotFound |
| Tries.Trie.Get | common/trie/trie.go:194-196 | Get returns what a plain map would |
| Tries.Trie.Update | common/trie/trie.go:475-506 | the new subtrie is canonical and stored, and differs from the old one at exactly the given route |
| Tries.Trie.UpdateBranch | common/trie/trie.go:508-533 | the same for a branch |
| Tries.Trie.UpdateExt | common/trie/trie.go:535-587 | the same for an ext, with and without a split |
| Tries.Trie.SplitExt | common/trie/trie.go:555-586 | the nodes saved by a split are those of the split ext, with the common path above the branch |
| Tries.Trie.UpdateVal | common/trie/trie.go:589-615 | the same for a value |
| Tries.Trie.Put | common/trie/trie.go:199-207 | Put changes exactly its key; the store only grows |
| Tries.Trie.DeleteRoute | common/trie/trie.go:232-329 | deletion removes exactly one stored route (the route itself, or a value node met on the way to it) and keeps the canonical form; NotFound changes nothing and means that there is no such route |
| Tries.Trie.DeleteBranch | common/trie/trie.go:239-293 | the same for a branch, which collapses when one slot is left |
| Tries.Trie.SaveCollapsed | common/trie/trie.go:269-291 | the node saved for a branch with one filled slot is the joined ext, the ext or the value |
| Tries.Trie.DeleteExt | common/trie/trie.go:294-322 | the same for an ext, which is joined with an ext below it |
| Tries.Trie.Delete | common/trie/trie.go:184-191 | Delete removes exactly one entry, or nothing and returns NotFound |
| Tries.Trie.Clone | common/trie/trie.go:127-132 | a clone has the same root and contents over the same store |
| TrieHistory.EntriesDetermineRoot | common/trie/trie.go:210-212 | valid tries with equal contents have equal root hashes, whatever stores they are in |
| TrieHistory.SameRootIffSameEntries | common/trie/trie.go:210-212 | valid tries have the same root hash exactly if they have the same entries |
| TrieHistory.DeletesAsMapIffNotShadowed | common/trie/trie.go:324-326 | Delete behaves as deletion from a map, in effect and in result, exactly if no proper prefix of an absent key is stored as a leaf |
| TrieHistory.DeleteOfAbsentKeyCanHitAPrefix | common/trie/trie.go:324-326 | a concrete trie from which deleting an absent key removes another one |
| TrieHistory.NotShadowed | common/trie/trie.go:232-329 | present keys and keys of a prefix-free set are not shadowed |
| TrieHistory.CleanRunIsMapRun | common/trie/trie.go:184-207 | every sequence of Put and unshadowed Delete leaves the entries a map would have |
| TrieHistory.Replay | common/trie/trie.go:184-207 | running any sequence of operations on a new trie gives the entries of the specification |
| TrieHistory.HistoryIndependence | common/trie/trie.go:184-217 | any two clean histories that end in the same map end in the same root hash |
| TrieBatch.CommitGivesOverlay | common/trie/batch.go:85-111 | replaying the dirty keys of a safe batch in any order gives the base overlaid with the batch |
| TrieBatch.PresentDeletionsAreSafe | common/trie/batch.go:128-161 | a batch that deletes only keys of its base is safe, whatever its keys, prefixes of each other included |
| TrieBatch.CommitIsRightIffSafe | common/trie/batch.go:85-111 | a batch is committed as what was seen of it, in whatever order its table yields the keys, exactly if it is safe: no key that it deletes and its base lacks has a proper prefix that has to stay while the batch deletes every other key of the base with that prefix |
| TrieBatch.AllSafeIffPrefixFree | common/trie/batch.go:85-111 | every batch over a set of keys is safe exactly if the set is prefix-free |
| TrieBatch.CommitOrderLeavesNoTrace | common/trie/batch.go:92-107 | two commits of the same safe batch in different orders end in the same root hash |
| TrieBatch.Batch.BeginBatch | common/trie/batch.go:72-82 | a batch is opened unless one is open; what is seen does not change |
| TrieBatch.Batch.Commit | common/trie/batch.go:85-111 | the base becomes the replay of the dirty keys in some order, and exactly what was seen if the batch is safe |
| TrieBatch.Batch.RollBack | common/trie/batch.go:114-125 | the base is unchanged and is what is seen afterwards |
| TrieBatch.Batch.Get | common/trie/batch.go:164-186 | reads give the base overlaid with the batch's writes |
| TrieBatch.Batch.Put | common/trie/batch.go:189-207 | a write changes what is seen at its key; inside a batch the base keeps its root hash |
| TrieBatch.Batch.Delete | common/trie/batch.go:128-161 | a deletion inside a batch takes its key out of what is seen and reports an absent key; outside it is the trie's |
| BlockAtomic.BlockState.BeginBatch | core/block_state.go:154-163 | batches are opened on all four states, if none was open |
| BlockAtomic.BlockState.Write | core/block_state.go:296-333 | one write inside a batch changes what is seen of one state and nothing else, and fails exactly if it deletes what is not there |
| BlockAtomic.BlockState.RollBack | core/block_state.go:175-184 | all four states are closed without a change |
| BlockAtomic.BlockState.Commit | core/block_state.go:165-174 | what was seen of all four states is committed, if the four batches are safe |
| BlockAtomic.BlockState.Atomic | core/block.go:631-645 | all or nothing over account, transaction, candidate and dynasty states: an error leaves every committed entry and the store as they were, success of a safe update commits every write |
| BlockAtomic.SafeUpdateIf | core/block.go:631-645 | an update is safe if in each state it deletes only what was there before it, or writes prefix-free keys |
| TrieIterator.ItemsAreStored | common/trie/iterator.go:160-205 | what the traversal lists is stored under the listed route |
| TrieIterator.StoredAreItems | common/trie/iterator.go:160-205 | what is stored is listed |
| TrieIterator.ItemsAreSorted | common/trie/iterator.go:37-53 | the traversal lists routes in strictly ascending order, a branch's own value first |
| TrieIterator.ValidElements | common/trie/iterator.go:37-53 | the filled positions from an offset on, in order, slot 16 first |
| TrieIterator.SubTrie | common/trie/iterator.go:89-123 | the subtrie found holds exactly the routes under the prefix, or there is none |
| TrieIterator.Start | common/trie/iterator.go:56-87 | the initial stack has exactly the entries with the prefix before it |
| TrieIterator.Iterator.constructor | common/trie/iterator.go:56-87 | a new iterator has exactly the stored entries with the prefix before it, each once, in order |
| TrieIterator.Iterator.Next | common/trie/iterator.go:160-205 | Next terminates and yields the first of the entries still to come, with its value, until there are none |
| TrieIterator.Keys | common/trie/iterator.go:126-143 | the keys returned are exactly the stored keys with the prefix, in strictly ascending order |
| BlockTree.MeetIsHighestCommonAncestor | core/blockchain.go:401-440 | a block is an ancestor of both of two blocks exactly if it is an ancestor of the block at which they meet |
| BlockTree.MeetsAboveIffDescends | core/blockchain.go:443-449 | two chains meet at or above the LIB of one of them exactly if the LIB is an ancestor of the other's tip |
| BlockTree.BranchesAreDisjoint | core/blockchain.go:326-377 | the branches above the block at which two chains meet have no block in common |
| Slots.IndicesDetermineTimestamp | consensus/dpos/dpos.go:575-581 | dynasty index and proposer index together determine the slot |
| Slots.SeatsTakeTurns | consensus/dpos/dpos.go:579-581 | the first slot is of seat 0 and the slot after is of the next seat, round the n seats |
| Slots.DynastyIndexOfSlot | consensus/dpos/dpos.go:575-577 | the dynasty of a time is the number of its slot of three seconds divided by the number of proposers |
| Slots.HeightsNeedSlots | core/block_manager.go:577-589 | along a chain every block is at least one slot after the one below |
| Slots.DynastyIsMonotone | consensus/dpos/dpos.go:575-577 | dynasties do not go back in time |
| Slots.ProposersDiffer | consensus/dpos/dpos.go:575-581 | different blocks of a chain in one dynasty have different proposer indices |
| Slots.AcceptedIffSlotsSuffice | consensus/dpos/dpos.go:584-607 | over all 64-bit heights and timestamps, a block is accepted against the LIB exactly if it is above it, later, there is a slot for every height between, and the heights up to its slot fit in 64 bits; the check of the minimum timestamp never rejects |
| Slots.MissingBlocksRightIff | consensus/dpos/dpos.go:610-612 | the number of missing blocks is the number of free slots exactly if there are no more blocks than slots; otherwise it wraps around |
| Slots.DescendantsAreAccepted | consensus/dpos/dpos.go:584-612 | no descendant of the LIB is rejected for its height or timestamp |
| ChainRuns.RunNode | core/block_manager.go:171-519 | any sequence of received blocks, pushed blocks and triggers of the chain manager on a new node is a run: each step does what its event allows, the last snapshot is the state of the node |
| ChainRuns.Handle | core/block_manager.go:171-349 | one event of a node keeps it valid and does what the event allows |
| ChainRuns.DirectPush | core/block_manager.go:497-519 | a pushed block whose parent is stored becomes a tail, without a look at the LIB; otherwise nothing changes |
| ChainRuns.RunAdvances | core/block_manager.go:300-349 | over every run the tree only grows, the tail descends from the LIB and is replaced only by a higher one, and each LIB descends from the ones before it |
| ChainRuns.Finality | core/blockchain.go:277-377 | in every run a block at or below the LIB is an ancestor of every later LIB and tail: no tail switch reverts it |
| ChainRuns.StoredKeepsNoneAboveIff | core/blockchain.go:247-274 | storing a block keeps every forked tail at or below the main tail exactly if the block is not itself a forked one above it |
| ChainRuns.ManagedDropsForked | core/blockchain.go:713-737 | a round of the chain manager keeps them there, and drops all of them when it moves the LIB |
| ChainRuns.MadeBlockIsNotAbove | core/block_manager.go:497-519 | a block made on a block that was the main tail at some point descends from the LIB or is not above the main tail |
| ChainRuns.ForkedTailsAreDropped | core/blockchain.go:713-737 | in every run in which the node makes its blocks on its own main tails, no tail forked before the LIB is above the main tail, and each move of the LIB leaves only tails that descend from it |
| StrayTail.ForkedTailCanStay | core/blockchain.go:713-737 | a concrete run with pushed blocks of a branch that was given up, in which a forked tail above the main tail survives a move of the LIB |
| BlockChains.ProposersCountBlocks | consensus/dpos/dpos.go:206-222 | the confirmed proposers are as many as the blocks walked |
| BlockChains.FindLIB | consensus/dpos/dpos.go:188-223 | the result is the LIB or a block above it confirmed by a quorum of its dynasty, and no block above the result is confirmed; in numbers, a new LIB has at least 2n/3 blocks of its own period of n slots on top of it, up to the tail, and no block above the result has |
| BlockChains.ConfirmedIff | consensus/dpos/dpos.go:188-223 | a block is confirmed by the proposers counted on top of it exactly if it is in the tail's period of n slots of three seconds and the tail is at least 2n/3 (rounded down) higher |
| BlockChains.BlockChain.constructor | core/blockchain.go:507-540 | a new chain is valid with the genesis block as tail and LIB |
| BlockChains.BlockChain.BlockByHeight | core/blockchain.go:204-217 | the block returned for a height is the main tail's ancestor at that height |
| BlockChains.BlockChain.PutVerifiedNewBlock | core/blockchain.go:247-274 | the child is stored and becomes a tail in place of its parent, with no other change to the tails unless their table was full; tail and LIB stay; without a stored parent nothing changes |
| BlockChains.BlockChain.AddToTailBlocks | core/blockchain.go:676-678 | the block is among the tails; no other tail changes, and none is evicted unless the table is full |
| BlockChains.BlockChain.ProcessTask | core/block_manager.go:171-254 | a block is stored exactly if it is new, follows a stored parent that descends from the LIB, and executes; it then descends from the LIB |
| BlockChains.BlockChain.FindAncestorOnCanonical | core/blockchain.go:401-440 | the walk ends at the block where the chain meets the main chain; with breakAtLIB it fails exactly if that is below the LIB |
| BlockChains.BlockChain.IsForkedBeforeLIB | core/blockchain.go:443-449 | a block is forked before the LIB exactly if the LIB is not its ancestor |
| BlockChains.BlockChain.LoadBetweenBlocks | core/blockchain.go:463-482 | the blocks returned are the branch between the two blocks, from the top down |
| BlockChains.BlockChain.ForkChoice | core/blockchain.go:380-398 | the new tail descends from the LIB, is the old one or a higher tail, and no tail that descends from the LIB is higher |
| BlockChains.BlockChain.BuildIndexByBlockHeight | core/blockchain.go:484-505 | the index names the new chain's blocks above the common ancestor and is unchanged below it |
| BlockChains.BlockChain.SetTailBlock | core/blockchain.go:326-377 | succeeds exactly if the LIB is an ancestor of the new tail; then the index names the tail's ancestor at every height, and the reverted and new blocks are the two disjoint branches above the common ancestor, all above the LIB |
| BlockChains.BlockChain.SetLIB | core/blockchain.go:277-323 | the LIB never goes down, and the tails that stay are those that descend from it or are higher than the main tail |
| BlockChains.BlockChain.RemoveForkedBranch | core/blockchain.go:713-737 | a forked tail is dropped exactly if it is not above the main tail |
| BlockChains.BlockChain.ManageChain | core/block_manager.go:300-349 | one round of fork choice, tail switch and LIB update keeps everything valid and settled, reverts nothing at or below the LIB, and moves the LIB only to a confirmed block, and only when the tail moved and the transactions were rearranged |
| BlockChains.BlockChain.UpdateLIB | core/block_manager.go:328-341 | the LIB moves to the highest block that the main chain confirms, and the tails that stay are those that descend from it or are higher than the main tail |
| Quorum.QuorumsOverlap | consensus/dpos/dpos.go:188-190 | two quorums of a dynasty of n, a multiple of three, share at least n/3 + 2 proposers |
| Quorum.CommonProposerSignedTwice | consensus/dpos/dpos.go:198-223 | a proposer in the quorums of two conflicting blocks has two blocks in one slot |
| Quorum.QuorumIntersection | consensus/dpos/dpos.go:198-223 | conflicting blocks confirmed in one dynasty take at least n/3 + 2 slots with two different blocks |
| Quorum.ConfirmedStays | consensus/dpos/dpos.go:198-223 | a confirmed block stays confirmed when blocks are added |
| Quorum.NodesAgree | consensus/dpos/dpos.go:198-223 | two nodes with different views, in which a hash stands for one block, confirm compatible blocks in a dynasty unless n/3 + 2 slots of their joined views hold two blocks |
| TwoNodes.RunsAgree | core/block_manager.go:300-349 | the blocks that two nodes make irreversible at any points of any two runs, on tails of one dynasty, are on one branch unless n/3 + 2 slots of that dynasty hold two blocks |
| TwoNodes.NodesCanDisagree | consensus/dpos/dpos.go:198-223 | two concrete runs that make conflicting blocks irreversible on tails of different dynasties, without a slot that holds two blocks |
| BlockTree.TreesJoin | core/blockchain.go:247-274 | the views of two nodes with one genesis, in which a hash stands for one block, make one tree that extends both |
| Uint128Bytes.ToFixedSizeBytes | util/uint128.go:118-133 | sixteen big-endian bytes that stand for the number, or the error for a number out of range |
| Uint128Bytes.FromFixedSizeByteSlice | util/uint128.go:155-171 | the number that sixteen bytes stand for, or an error for any other length |
| Uint128Bytes.RoundTrip | util/uint128.go:118-181 | writing and reading is the identity in both directions |
| Points.PointsAreRegenerated | core/state/utils.go:12-63 | whenever they can be computed, points at a later time are min(staking, points + floor(staking * elapsed / 604800)) |
| Points.PointsFailIff | core/state/utils.go:12-63 | computing points fails exactly for more points than stake, a time that goes back, or an overflow of the product; otherwise they only grow, up to the stake |
| Points.RegenerationIsMonotone | core/state/utils.go:12-63 | points are monotone in time |
| Points.UpdatingInBetween | core/state/utils.go:12-63 | an update at an intermediate time never gains points and loses at most one |
| Points.AccountUpdatedInBetween | core/state/account.go:191-205 | the same for updates of an account |
| Points.FetchedIsCurrent | core/state/account_state.go:64-87 | a fetched account is as of the block's time, unless it never existed |
| Points.Refetched | core/state/account_state.go:64-92 | fetching an account written in the same block gives it back |
| Refusals.FetchedIff | core/state/account_state.go:64-87 | an account is fetched as the given one exactly if it is the stored one with points regenerated to the block's time and, a week after the last unstaking, the unstaked coins back in the balance; or an empty one if there is none |
| Refusals.ExecutesIff | core/block.go:176-208 | for every payload, a transaction of an account without repeated votes executes exactly under the conditions of its kind: balances, stakes and powers in range, at most 15 distinct live candidates, collateral of at least 10^18, free names, own aliases, height one for genesis payloads |
| Refusals.DistributionPays | core/transaction/genesis.go:74-102 | a genesis distribution sets the target's balance to the amount and adds it to the supply |
| Refusals.RewardIff | core/block.go:465-520 | paying the reward leads to a state exactly if there is a coinbase and the state differs in its balance, the reward and the supply by 464/10^11 of the parent's supply rounded down to a multiple of 10^10 |
| Effects.TransferMoves | core/transaction/transfer.go:78-110 | a transfer takes its value from the sender's balance and adds it to the receiver's, nothing for a self-transfer, and touches nobody else |
| Effects.StakeMoves | core/transaction/stake.go:47-89 | a stake moves coins from balance to stake, adds as many points, and adds the amount to each live candidate voted for |
| Effects.UnstakeMoves | core/transaction/stake.go:138-191 | unstaking moves coins from stake to unstaking, caps the points at the stake, and takes the amount from each live candidate voted for |
| Effects.UnstakedCoinsReturn | core/state/account.go:208-233 | after an unstaking, a fetch returns all unstaking coins to the balance exactly if it is a week later or more and the unstaking was not at time zero; before that they stay set aside |
| Effects.StakeThenUnstake | core/transaction/stake.go:47-191 | unstaking what was staked restores the stake and all vote powers |
| Effects.VoteMoves | core/transaction/vote.go:71-164 | a vote moves the voter's whole stake from the live candidates it had voted for to the new ones |
| Effects.BecomeThenQuit | core/transaction/candidate.go:89-222 | quitting after becoming a candidate always succeeds and restores the account and the candidates |
| Effects.RegisterThenDeregister | core/transaction/account_alias.go:78-225 | deregistering after registering an alias always succeeds and restores the account and the aliases |
| Effects.RewardIsRoundedInflation | core/block.go:505-520 | the reward is always defined and is 4.64e-9 of the supply rounded down to a multiple of 10^10 |
| Conservation.TransferConserves | core/transaction/transfer.go:78-110 | a transfer, also one to oneself, keeps the total of all holdings |
| Conservation.StakeConserves | core/transaction/stake.go:47-89 | a stake keeps the total |
| Conservation.UnstakeConserves | core/transaction/stake.go:138-191 | unstaking keeps the total |
| Conservation.VoteConserves | core/transaction/vote.go:71-164 | a vote keeps the total |
| Conservation.BecomeCandidateConserves | core/transaction/candidate.go:89-139 | the collateral of a candidate stays in the total |
| Conservation.QuitCandidateConserves | core/transaction/candidate.go:186-222 | the collateral returned stays in the total |
| Conservation.RegisterAliasConserves | core/transaction/account_alias.go:78-137 | the collateral of an alias stays in the total |
| Conservation.DeregisterAliasConserves | core/transaction/account_alias.go:184-225 | the collateral returned stays in the total |
| Conservation.GenesisDistributionConserves | core/transaction/genesis.go:74-102 | a genesis distribution adds the same to the total and to the supply |
| Conservation.FetchedHoldings | core/state/account.go:208-233 | unstaking that matures on a fetch changes no holdings |
| Conservation.ExecuteConserves | core/block.go:176-208 | executing any transaction keeps the difference between total and supply |
| Conservation.AcceptConserves | core/block.go:409-462 | charging a transaction moves no coins |
| Conservation.RewardConserves | core/block.go:465-502 | a block reward is added to the total and to the supply |
| Conservation.TransferFailsOnlyForLackOfBalance | core/transaction/transfer.go:78-110 | where everything is accounted for, a transfer fails exactly if the sender lacks the balance |
| Votes.StakeIsPartOfPower | consensus/dpos/state/dpos_state.go:303-315 | a voter's stake is at most the power of a candidate it voted for |
| Votes.ChangesPowers | consensus/dpos/state/dpos_state.go:288-315 | changing powers in turn changes each named live candidate by the amount once and no other |
| Votes.ChangeFails | consensus/dpos/state/dpos_state.go:288-315 | it fails exactly if the power of a named live candidate would leave the range |
| Votes.StakeKeepsVotes | core/transaction/stake.go:47-89 | a stake moves every live candidate's power as the stake of those who voted for it moves |
| Votes.UnstakeKeepsVotes | core/transaction/stake.go:138-191 | so does unstaking |
| Votes.VoteKeepsVotes | core/transaction/vote.go:71-164 | so does a vote |
| Votes.BecomeCandidateKeepsVotes | core/transaction/candidate.go:89-139 | a new candidate lacks exactly the stake of those who have voted for its id already, and the others lack what they did |
| Votes.QuitCandidateKeepsVotes | core/transaction/candidate.go:186-222 | so does a candidate that quits |
| Votes.ExecuteKeepsVotesIff | core/block.go:176-208 | no transaction gives a candidate more power than the stake behind it, and each keeps all powers equal to it exactly unless it is an application under an id that has got votes already |
| Votes.UnusedHasNoVotes | core/transaction/candidate.go:89-139 | while ids are used up, the id of a new transaction has no votes and is no candidate's |
| Votes.UnstakeFailsFor | core/transaction/stake.go:138-191 | unstaking fails exactly for lack of stake, an overflow of the unstaking coins, or a live candidate voted for whose power is below the amount |
| Votes.UnstakeFailsIff | core/transaction/stake.go:138-191 | where powers are right the last never happens: subtracting vote power never underflows |
| Votes.VoteFailsIff | core/transaction/vote.go:71-164 | a vote succeeds exactly if it has at most 15 different live candidates whose power does not overflow: taking back old votes never underflows |
| Fees.ExecuteKeepsPoints | core/transaction/stake.go:47-191 | executing keeps points within the stake |
| Fees.AcceptKeepsPoints | core/block.go:409-462 | charging keeps points within the stake |
| Fees.RewardKeepsPoints | core/block.go:465-502 | the reward keeps points within the stake |
| Fees.ExecutedPoints | core/block.go:252-293 | the points an account has after executing are those before, changed as the transaction announces |
| Fees.FeeIsPaidIff | core/block.go:252-462 | the fee of a transaction that passed the point check can be taken exactly unless it is a stake without payer that failed and whose sender lacks the points, or an unstaking that executed, names its sender as payer and leaves less stake than the fee |
| LedgerRuns.AcceptAdvancesNonceIff | core/block.go:409-462 | charging advances the sender's nonce exactly if the payer is not the sender itself |
| LedgerRuns.AcceptKeepsOtherNonces | core/block.go:409-462 | no other nonce changes |
| LedgerRuns.ExecuteKeepsNonces | core/block.go:176-208 | executing changes no nonce |
| LedgerRuns.ApplyKeepsSolvent | core/block.go:354-384 | running and charging any transaction keeps the ledger solvent: total equals supply, accounts and candidates name each other, points within stakes, no account ahead of time, no candidate with more power than the stake behind it |
| LedgerRuns.ApplyKeepsCountsIff | core/block.go:354-384 | running and charging a transaction keeps all vote powers right exactly unless its sender applies for candidacy, is no candidate, has an alias and the collateral, and there are votes for the application's id already |
| LedgerRuns.RewardKeepsSolvent | core/block.go:465-502 | paying the reward keeps the ledger solvent |
| LedgerRuns.FetchFailsIff | core/state/account_state.go:64-87 | in a solvent ledger an account cannot be fetched exactly if less than a week has passed and the product of its stake and the seconds does not fit in 128 bits |
| LedgerRuns.StakeFailsIff | core/transaction/stake.go:47-89 | in a solvent ledger a stake fails exactly for lack of balance |
| LedgerRuns.UnstakeFailsForStake | core/transaction/stake.go:138-191 | in a solvent ledger unstaking fails exactly for lack of stake or of power to take away, and for lack of stake alone where powers are right |
| LedgerRuns.QuitFailsIff | core/transaction/candidate.go:186-222 | in a solvent ledger quitting fails exactly for an account that is no candidate: the candidate is always found and its collateral always fits |
| LedgerRuns.ChargedIff | core/block.go:176-462 | in a solvent ledger a transaction that may run cannot be charged exactly if it is a stake above the sender's balance paid with points the sender does not have, or an unstaking within the sender's stake and the powers it voted for that names the sender as payer and leaves less stake than the fee |
| LedgerChain.MakeGenesis | core/genesis.go:98-137 | the loop over the genesis transactions computes the state after all of them, or the first error |
| LedgerChain.GenesisIsSolvent | core/genesis.go:98-137 | every genesis state is solvent, at height one and time zero |
| LedgerChain.GenesisIff | core/genesis.go:98-137 | there is a genesis state exactly if every transaction of the configuration in turn runs, executes and is charged, starting from an empty ledger at height one and time zero |
| LedgerChain.BlockKeepsSolvent | core/block.go:300-339 | accepting any block keeps the ledger solvent and never lowers the supply |
| LedgerChain.EveryChainIsSolvent | core/block.go:300-520 | after every chain of blocks the total of balances, stakes, unstaking coins and collaterals is the supply, points are within stakes, every candidate is the candidacy of the account that applied, and no candidate has more power than the stake of those who voted for it |
| SeatChains.EveryChainSeatsTheBest | consensus/dpos/dpos.go:459-513 | after every chain of blocks the seats are those of the n candidates ranked best in the state before the first block of the current period of n slots, and the signer of the last block has the seat of its slot |
| VoteChains.EveryChainCountsVotesIff | core/block.go:300-520 | in every chain of blocks every candidate's power is the stake of those who voted for it, before each transaction and at the end, exactly if no transaction of the chain is an application of an eligible sender under an id that has votes already |
| LedgerChain.EveryChainCountsVotes | core/block.go:300-520 | this holds in particular if no application for candidacy names its own sender as payer |
| SelfPaid.SelfPaidCandidacyLosesVotes | core/block.go:409-462 | a concrete chain with such an application: its nonce is not used up, it is sent again after the candidate has quit, the new candidate has no power although an account with a stake has voted for it, and that account cannot unstake |
| Registry.ExecuteKeepsRegistered | core/transaction/candidate.go:89-222 | every transaction keeps accounts and candidates naming each other, and a new candidate takes nobody's place |
| Registry.ChargeKeepsRegistered | core/block.go:409-462 | so does charging |
| LedgerChain.FillAbortsIff | consensus/dpos/dpos.go:389-439 | making a block on a solvent ledger is aborted exactly if one of the transactions offered, in the state in which it is offered, is of an account that cannot be fetched, or may run and is a stake above the balance paid with points not there yet, or an unstaking that takes away what its own sender, named as payer, would pay with |
| LedgerChain.FillChooses | consensus/dpos/dpos.go:389-439 | a block that is not aborted includes, in order and with their receipts, exactly the offered transactions that can be run and charged in the state in which they are offered |
| StuckBlocks.FailedStakeStopsBlock | core/block.go:252-462 | a concrete chain, and the first block on it: a stake above its sender's balance passes the check of points, cannot be charged, and stops the block |
| StuckBlocks.SelfPaidUnstakeStopsBlock | core/block.go:252-462 | a concrete chain on which an unstaking that names its sender as payer does the same |
| Transactions.WorkingBlock.Record | core/block_state.go:296-333 | every write is applied to the tables and logged: the log, replayed from where the batch began, gives the tables, and drops only what was there from the start |
| Transactions.WorkingBlock.ChangeCandidate | consensus/dpos/state/dpos_state.go:288-315 | one candidate's power changes by the amount, or an error leaves the state unchanged |
| Transactions.WorkingBlock.ChangeCandidates | core/transaction/stake.go:79-87 | the loop over the voted candidates changes each live one, in a strict way or passing over those gone |
| Transactions.WorkingBlock.CollectVotes | core/transaction/vote.go:89-102 | the loop over the candidates finds a duplicate exactly if there is one |
| Transactions.WorkingBlock.Transfer | core/transaction/transfer.go:78-110 | writing tables step by step ends in the state of the specification, or in its error with nothing but tables changed |
| Transactions.WorkingBlock.Stake | core/transaction/stake.go:47-89 | writing tables step by step ends in the state of the specification, or in its error with nothing but tables changed |
| Transactions.WorkingBlock.Unstake | core/transaction/stake.go:138-191 | writing tables step by step ends in the state of the specification, or in its error with nothing but tables changed |
| Transactions.WorkingBlock.Vote | core/transaction/vote.go:71-164 | writing tables step by step ends in the state of the specification, or in its error with nothing but tables changed |
| Transactions.WorkingBlock.BecomeCandidate | core/transaction/candidate.go:89-139 | writing tables step by step ends in the state of the specification, or in its error with nothing but tables changed |
| Transactions.WorkingBlock.QuitCandidate | core/transaction/candidate.go:186-222 | writing tables step by step ends in the state of the specification, or in its error with nothing but tables changed |
| Transactions.WorkingBlock.RegisterAlias | core/transaction/account_alias.go:78-137 | writing tables step by step ends in the state of the specification, or in its error with nothing but tables changed |
| Transactions.WorkingBlock.DeregisterAlias | core/transaction/account_alias.go:184-225 | writing tables step by step ends in the state of the specification, or in its error with nothing but tables changed |
| Transactions.WorkingBlock.GenesisDistribution | core/transaction/genesis.go:74-102 | writing tables step by step ends in the state of the specification, or in its error with nothing but tables changed |
| Transactions.WorkingBlock.Atomic | core/block.go:631-645 | a failed transaction leaves the state exactly as it was; a successful one leaves a log that leads from the old tables to the new ones |
| Transactions.WorkingBlock.TakeSeats | core/block.go:387-406 | a new dynasty takes its seats in one batch; further seats and everything else stay, and the log leads from the old tables to the new ones |
| Transactions.WorkingBlock.Run | core/block.go:176-208 | the checks in their order, then an atomic execution: the state and receipt of the specification, or its error and an unchanged state; the four rows below say what the specification is |
| Receipts.RunsIff | core/block.go:176-299 | a transaction runs exactly if it moves or stakes more than nothing, has its sender's next nonce, keeps the block within 3,000,000 of CPU and of bytes, and its price cpuPrice * cpu + netPrice * bytes fits in 128 bits and is within the payer's points, or within the sender's points plus a stake or less an unstaking |
| Receipts.ReceiptTells | core/block.go:176-232 | the receipt has 0, 1500 or 1000 CPU by payload, the size in bytes, and points cpuPrice * cpu + netPrice * bytes; it says executed with the executed state, or the error of the execution with the state before |
| Receipts.AcceptIff | core/block.go:409-462 | accepting succeeds with a state exactly if the payer has the points; then the payer has just so many less, the sender's nonce is one higher unless it pays by name, nobody else changes, and transaction and receipt are recorded under the hash and counted in the usage |
| Receipts.FeeIsTaken | core/block.go:354-462 | end to end, whoever pays has cpuPrice * cpu + netPrice * bytes points less than the payload left |
| Transactions.WorkingBlock.Accept | core/block.go:409-462 | nonce, fee, record and usage as specified, or an error and an unchanged state; stated without the specification in Receipts.AcceptIff |
| Transactions.WorkingBlock.Reward | core/block.go:465-502 | coinbase, reward and supply as specified, or an error and an unchanged state; stated without the specification in Refusals.RewardIff |
| LedgerTries.WriteIsEncoded | core/block_state.go:296-333 | a write in the tries, on the encoding of a state, gives the encoding of the state with the write applied |
| LedgerTries.ScriptIsEncoded | core/block.go:631-645 | so do all the writes of an update, one after the other |
| LedgerTries.ScriptIsSafe | core/block.go:631-645 | the update of a transaction deletes nothing that was not there before it, so that committing it is safe, also with aliases that are prefixes of each other |
| LedgerTries.EqualTriesEqualTables | core/block.go:300-339 | the entries of the four tries of two states agree exactly if their tables do |
| LedgerTries.SameRootsIffSameTables | core/block.go:300-339 | the four root hashes of two states agree exactly if their tables do: comparing roots is comparing tables |
| Codecs.CodecIsInjective | core/state/account_state.go:27-31 | there is a codec as the tries need it: keys with the prefixes of accounts and aliases, and values that tell where each part ends, are all different |
| LedgerTries.Run | core/block.go:354-384 | running a transaction with its update in the tries leaves there the encoding of the state of the specification, also when it fails |
| LedgerTries.Accept | core/block.go:409-462 | so does charging it |
| LedgerTries.Reward | core/block.go:465-502 | so does paying the reward |
| LedgerTries.ReplayInTries | core/block.go:342-384 | the tries follow the replay of a block's transactions, to its end or to its first error |
| LedgerTries.Begin | core/block.go:387-406 | a block starts in its parent's tries, with the seats of a new dynasty written if one begins, and the tries hold the state of the specification |
| LedgerTries.ExecuteBlock | core/block.go:96-125 | executing a block in its parent's tries gives the result of the specification, and the tries hold the state a block that passes ends in |
| Dynasties.MakeDynasty | consensus/dpos/dpos.go:480-498 | the n best ranked candidates padded with the empty address, each as often as it occurs, in ascending order |
| Dynasties.DynastyHoldsMostVoted | consensus/dpos/state/dpos_state.go:249-275 | every one of the n best ranked candidates has a seat, and one without a seat has no more votes than any of them |
| Dynasties.SetDynasty | consensus/dpos/state/dpos_state.go:278-285 | seat i goes to the i-th member, further seats are unchanged |
| Dynasties.SlotIsTheSame | consensus/dpos/dpos.go:515-558 | the slot derived from the deadline is the slot derived from the present time; it is after the tail and in step with it |
| Dynasties.DeadlineIsInTime | consensus/dpos/dpos.go:534-558 | the deadline is neither after the slot nor more than 1.1 seconds away |
| Dynasties.SlotsAround | consensus/dpos/dpos.go:515-532 | the next slot is the first multiple of three seconds not before the present second, the last slot the last one before it |
| Dynasties.MintsIff | consensus/dpos/dpos.go:534-558 | a block is made exactly if the tail is before the next slot and is of the slot before, or less than half a second is left; the deadline is 1.1 seconds away or at the slot |
| BlockProcessing.VerifyCPUUsage | core/block_data.go:237-251 | accepts exactly a usage within the limit that is the sum of the receipts modulo 2^64 |
| BlockProcessing.VerifyNetUsage | core/block_data.go:253-267 | accepts exactly a usage within the limit that is the sum of the receipts modulo 2^64 |
| BlockProduction.PriceFollowsDemand | core/block.go:696-753 | a child's price is never below the floor; above it, it does not fall after a block more than half full, does not rise after any other, and moves by at most a twentieth |
| AcceptedBlocks.PriceIsNext | core/block.go:653-753 | the price after a block is 95/100 of the price if the usage was at most 1,500,000 and 105/100 otherwise, rounded down, but at least supply / 201,600 / 3,000,000 / 100; it fails exactly if that is no 128-bit amount |
| AcceptedBlocks.StartsFromParent | core/block.go:53-93 | a child has a start exactly if both next prices are 128-bit amounts; the start has those prices, the parent's tables, and new seats exactly at the first block of a period or of all, taken by the parent's n best ranked candidates in order of address |
| AcceptedBlocks.SeatsAreTaken | consensus/dpos/state/dpos_state.go:278-285 | seating a dynasty gives seats 0 to n-1 to the n best ranked candidates, each as often as it occurs among them, in ascending order, and leaves the other seats |
| AcceptedBlocks.AcceptsIff | core/block.go:96-125 | a block is accepted with a state exactly if there are states between its transactions such that each transaction, run and charged, gives the next state and the receipt in the block, the signer has seat (timestamp / 3) mod n, the time is whole slots after the parent, and all thirteen header fields are those of the state after the reward |
| AcceptedBlocks.ReplayRuns | core/block.go:342-384 | a replay that succeeds is a chain of states, one after each transaction, with exactly the receipts in the block |
| AcceptedBlocks.RunsReplay | core/block.go:342-384 | conversely, such a chain of states is what a replay goes through |
| AcceptedBlocks.ReplayRecords | core/block.go:409-462 | after a replay every transaction is recorded under its hash with its receipt, or that of a later one with the same hash, and no other record changes |
| AcceptedBlocks.AfterAcceptedBlock | core/block.go:300-339 | after an accepted block the header is that of the state, every transaction is recorded with its receipt, and the seats are those its parent's candidates give, the signer's among them |
| BlockProcessing.Start | core/block.go:53-93 | the state a child starts from is the parent's with usages reset and prices moved on, and with the seats given anew to the parent's n best ranked candidates in order of address exactly at the first block of a period of n slots or the first after genesis |
| BlockProcessing.ExecuteAll | core/block.go:342-384 | the loop over the transactions ends in the state of the replay, or in its first error |
| BlockProcessing.CreateChild | core/block.go:96-125 | executing a block step by step gives the state of the specification or its error; of a well-placed block it succeeds only if the block is legal |
| BlockProcessing.VerifyHeader | core/block_manager.go:198-219 | accepts exactly a block whose usages add up, that is one higher than its parent, and later by whole slots |
| BlockProcessing.ProcessBlock | core/block_manager.go:171-229 | a received block leads to a state exactly if it is legal and leads to that state: whole slots after its parent, signed by the holder of its slot's seat, every receipt the one its transaction gives, and every header field that of the state after transactions and reward |
| BlockProcessing.FillBlock | consensus/dpos/dpos.go:389-439 | the loop over the offered transactions ends with the state and the included transactions of the specification |
| BlockProduction.FillReplays | consensus/dpos/dpos.go:389-439 | refused transactions leave no trace: replaying the included ones alone gives the same receipts and the same state |
| BlockProduction.FillAddsUp | core/block.go:458-459 | the usages of the block are the sums over its receipts and within the limits |
| BlockProduction.FillIncludesOffered | consensus/dpos/dpos.go:389-439 | only offered transactions are included |
| BlockProduction.FoundProposerHasSeat | consensus/dpos/dpos.go:501-513 | the proposer found before the block is made has the seat the block is checked against |
| BlockProduction.MintedBlockIsAccepted | consensus/dpos/dpos.go:267-457 | every block that a node mints on a state is accepted by every node with that state, and leads it to the producer's state |
| BlockProcessing.MintBlock | consensus/dpos/dpos.go:267-314 | minting step by step computes the block of the specification, which passes every check and is legal |
| BlockPools.TopIsTheUnlinkedAncestor | core/blockpool.go:105-118 | the topmost cached ancestor is the one cached ancestor whose parent is not cached |
| BlockPools.BlockPool.FindChildLinkedBlocks | core/blockpool.go:155-171 | the cached blocks whose parent has the hash |
| BlockPools.BlockPool.FindChildren | core/blockpool.go:121-140 | the children are those that name the block as parent, whether it is cached or not |
| BlockPools.BlockPool.FindUnlinkedAncestor | core/blockpool.go:105-118 | terminates at the topmost cached ancestor, and finds none exactly if the parent is not cached |
| BlockPools.BlockPool.Dispose | core/blockpool.go:187-196 | the block has no links left, and neither its parent nor its children link to it |
| BlockPools.BlockPool.Evict | core/blockpool.go:39-44 | after an eviction all links are the parent relation of what is left, and the evicted block has none |
| BlockPools.BlockPool.Remove | core/blockpool.go:86-91 | exactly the block is gone, and all links are right |
| BlockPools.BlockPool.Push | core/blockpool.go:56-83 | a new block is cached with all links right, at the cost of one other block when the cache is full; a known one is refused |
| RoundRobins.StepKeepsValid | common/roundrobin/round_robin_selector.go:33-144 | every operation keeps each key in exactly one place, and changes the set of keys as its name says |
| RoundRobins.BoundedWaiting | common/roundrobin/round_robin_selector.go:33-144 | in every run, a key with p included keys before it is served by the (p+1)-th Next at the latest, unless it is excluded or removed |
| RoundRobins.FullRound | common/roundrobin/round_robin_selector.go:33-42 | as many Next as there are included keys serve each once, in order, and restore the list |
| RoundRobins.RoundRobin.Next | common/roundrobin/round_robin_selector.go:33-42 | the first included key is served and goes to the end |
| RoundRobins.RoundRobin.Include | common/roundrobin/round_robin_selector.go:46-65 | a new or excluded key goes to the end of the included ones |
| RoundRobins.RoundRobin.Exclude | common/roundrobin/round_robin_selector.go:69-88 | a new or included key goes to the end of the excluded ones |
| RoundRobins.RoundRobin.Remove | common/roundrobin/round_robin_selector.go:91-109 | the key is gone from whichever list it was in |
| RoundRobins.RoundRobin.Reset | common/roundrobin/round_robin_selector.go:112-123 | the excluded keys follow the included ones in order, and none is excluded |
| RoundRobins.RoundRobin.Swap | common/roundrobin/round_robin_selector.go:125-144 | the key moves to the end of the other list |
| PendingTables.FromSet | core/transaction_pending.go:374-388 | setting a transaction keeps all nonces between the bounds and the greatest one attained |
| PendingTables.FromRemove | core/transaction_pending.go:390-403 | so does removing one that is not the greatest of several |
| PendingTables.PeekFirst | core/transaction_pending.go:405-416 | the transaction with the smallest nonce, or none for an empty account |
| PendingTables.PayerSet | core/transaction_pending.go:452-461 | the payer's bandwidth counters stay the sums over its transactions modulo 2^64 when one is set |
| PendingTables.PayerRemove | core/transaction_pending.go:463-471 | and when one is removed |
| PendingTables.PointSet | core/transaction_pending.go:505-514 | the account's point change stays the sum over its transactions when one is set |
| PendingTables.PointRemove | core/transaction_pending.go:524-532 | and when one is removed |
| PendingPools.PendingPool.PushOrReplace | core/transaction_pending.go:63-76 | the transaction is taken exactly if it is new, its nonce is acceptable or it replaces one more than ten minutes old, and all that its payer would pay for is affordable; success enters exactly this transaction, an error changes nothing, and all tables and the selector keep describing the same pending transactions |
| PendingPools.PendingPool.AcceptableNonce | core/transaction_pending.go:349-360 | the nonce is acceptable exactly if it is the next one of a new sender, or follows the sender's pending ones without a gap within the limit |
| PendingPools.PendingPool.CheckPayer | core/transaction_pending.go:441-503 | the counters give the verdict computed from the sums over the pending transactions: ok exactly if cpuPrice and netPrice times all that the payer would pay for, less what its own pending transactions bring, is within the points of the payer, or of the sender with what this transaction brings |
| PendingPools.AffordableIff | core/transaction_pending.go:441-503 | the verdict on points is ok exactly if the need, cpuPrice * cpu + netPrice * bytes over the payer's pending transactions with the new one (sums modulo 2^64) less the signed point changes of the payer's own, at least 0, is in range and within the payer's points, or the sender's with the new transaction's change |
| PendingPools.TakesIff | core/transaction_pending.go:63-193 | the whole verdict is ok exactly if the transaction is new, acceptable or a late enough replacement, and affordable |
| PendingTables.CountedWith | core/transaction_pending.go:452-530 | a pending transaction counts 0, 1500 or 1000 CPU by payload, its size in bytes, and plus or minus its amount in points for a stake or an unstaking |
| PendingPools.PendingPool.Push | core/transaction_pending.go:78-130 | a new transaction enters every table and its sender is included |
| PendingPools.PendingPool.Replace | core/transaction_pending.go:132-193 | a transaction takes the place of an older one of the same nonce in every table |
| PendingPools.PendingPool.Exchange | core/transaction_pending.go:176-190 | all tables describe the pending transactions with the one replaced, also when the payer changes |
| PendingPools.PendingPool.Prune | core/transaction_pending.go:208-244 | exactly the account's transactions up to the nonce are removed from every table, and the account leaves the selector exactly if none is left |
| PendingPools.PendingPool.RemoveFirst | core/transaction_pending.go:226-237 | one transaction leaves every table; entries that become empty are dropped |
| PendingPools.PendingPool.NonceUpperLimit | core/transaction_pending.go:247-262 | the nonces above the account's that are acceptable are those up to the result |
| PendingPools.PendingPool.Next | core/transaction_pending.go:265-304 | terminates; the senders first in line whose required transaction is missing are excluded, the next one is served its required or first transaction and goes to the end |
| PendingPools.PendingPool.ResetSelector | core/transaction_pending.go:315-321 | no nonce is required and every sender is included again, in order |
| PoolRuns.EverySenderIsServed | core/transaction_pending.go:265-304 | in every run of pushes, prunings, required nonces, resets and takes, a sender with p included senders before it is served by the (p+1)-th take at the latest, if it keeps having transactions and, at each take, the one required of it |
| PoolRuns.RunPool | core/transaction_pending.go:63-321 | any operations on a pool follow the specification: each take gives out the transaction that is up for the sender whose turn it is, and every sender in line is served in time |
| PoolRuns.Perform | core/transaction_pending.go:63-321 | one operation on the pool changes pending transactions, required nonces and the line as specified |
| Sync.Download.Query | sync/download.go:137-158 | a request is repeated until it is answered, at most as often as allowed |
| Sync.Download.FindBaseBlock | sync/download.go:117-161 | the search ends, after at most logarithmically many rounds of at least one and at most the allowed number of requests each, at a held block below the target with none between that was held at the start, or at the target if that is not above our LIB, unless a request stays unanswered; blocks may be added meanwhile |
| Sync.BaseIsHighest | sync/download.go:117-161 | if none is, that is the highest held block below the target |
| Sync.StepUpRequest | sync/download.go:188-224 | the loop over events with its two counters ends as the specification does |
| Sync.EveryRunIsOrderly | sync/download.go:188-224 | in every run heights are requested once each and in order, and the counters are those of the requests under way |
| Sync.SuccessMeansAllDownloaded | sync/download.go:188-224 | requests under way never exceed the limit, and success means that each height from base + 1 to the target was requested once and downloaded |
| Sync.EventCounts | sync/download.go:188-224 | in every run a tick requests the next height exactly if fewer than the limit are under way and one is left, a result ends its request, a failed one ends the download in failure, and the last successful one in success |
| Sync.FailsIff | sync/download.go:188-224 | a download fails exactly if one of its requests under way fails while it is not over |
| Sync.NeverStuck | sync/download.go:188-224 | a download under way has a request under way or starts one at the next tick |
| Sync.CanSucceedIff | sync/download.go:188-224 | a download can succeed exactly if the target is above the base |
| Sync.DownloadCanSucceedIff | sync/download.go:86-224 | from whatever base the search ends with, a download can succeed exactly if its target is above our LIB |

## Left out

- The cache of nodes of a prepared trie with its reference counts, and deprecated nodes: the model is of the trie that reads from and writes to its store.
- Storage failures, marshalling, hashing and signatures: nodes and blocks are values, a hash is injective, the signer of a block is a field of it, and a state root in a block header is the table itself.
- Aliasing of Go slices: routes, paths and lists are values, so that an append that shares memory with its argument is not seen.
- Goroutines, locks, timers and the clock: steps are atomic, times and answers of peers are parameters, and the order of events is any sequence of them.
- TrieIterator.Iterator.Next: the key is yielded with the odd nibble that the code leaves behind slot 16, which Keys and RouteToKey drop.
- BlockChains.BlockChain.PutVerifiedNewBlock: that the child follows its parent is demanded of the caller, as the checks before it in processTask establish it and as it holds of a block that the node made itself.
- ChainRuns.DirectPush: likewise for a pushed block, which the node has made itself.
- BlockChains.BlockChain.ProcessTask: whether the block executes is a parameter; executing blocks is modelled on their states in BlockProduction and BlockProcessing, and the tree does not hold states.
- BlockChains.BlockChain.RemoveForkedBranch: only the effect on the tails is modelled, blocks of dropped branches stay stored.
- BlockChains.BlockChain.AddToTailBlocks: which tail a full LRU cache evicts is left open; the cache is a library that is not part of this model.
- The functions of Ledger are on values: the fetched copy of an account that the code changes in place is a value that is written back.
- Votes of an account are a list in the order of the transaction, where the code iterates over a trie by id; this only decides which of several errors comes first.
- Points and unstaking: the conversion of seconds to a 64-bit duration is taken not to overflow.
- LedgerChain.EveryChainCountsVotes: a sufficient condition that the transactions alone decide; the exact one, on the states they run in, is in `VoteChains.EveryChainCountsVotesIff`.
- Refusals.ExecutesIff: of accounts that have not voted twice for the same candidate, which no account of a chain has (`LedgerRuns.ApplyKeepsSolvent`).
- Dynasties.DynastyHoldsMostVoted: the order of candidates with equal votes is whatever the library sort makes of the candidate trie, a function of the table.
- BlockProduction.MintedBlockIsAccepted: transactions are offered as a list in place of the clock and the pool; the hash and the signature of the block are not part of it.
- LedgerTries.ExecuteBlock: keys are injective functions of what they stand for, and a block is executed in the tries of its parent, where the code executes it in a copy of them.
- BlockPools.BlockPool.Push: no block has the zero hash, and a block is computed after the parent whose hash it contains; which block the LRU cache evicts is left open.
- Sync.Download.FindBaseBlock: peers that answer serve one chain that holds the target and our LIB.
- The future transaction pool, the transaction manager, event emission, RPC, networking, configuration, records and certifications are not part of this model.
