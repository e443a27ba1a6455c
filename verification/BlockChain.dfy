/**
 The block chain of a node: stored blocks, the index of the canonical chain by height, the main
 tail, the other tails, and the last irreversible block (LIB).
 */
module BlockChains {
  import opened Options
  import opened BlockTree
  import opened Slots

  datatype Error =
    | BlockNotExist | MissingParentBlock | AlreadyOnTheChain | ForkedBeforeLIB
    | InvalidBlockHeight | InvalidTimestamp | InvalidBlockInterval | InvalidExecution

  type Result<T> = Outcome<T, Error>

  /** What a node knows: the tree, its main tail, its LIB and the tails it could switch to. */
  datatype Snapshot = Snapshot(blocks: Blocks, tail: Block, lib: Block, tails: Blocks)

  ghost predicate Settled(genesis: Block, s: Snapshot) {
    Ancestor(s.blocks, genesis, s.lib, s.tail)
  }

  /** The tree grows, and the new LIB descends from the old one. */
  ghost predicate Advances(genesis: Block, s: Snapshot, t: Snapshot) {
    && Settled(genesis, s) && Settled(genesis, t)
    && Extends(s.blocks, t.blocks)
    && Ancestor(t.blocks, genesis, s.lib, t.lib)
  }

  lemma AdvancesTransitive(genesis: Block, s: Snapshot, t: Snapshot, u: Snapshot)
    requires Advances(genesis, s, t) && Advances(genesis, t, u)
    ensures Advances(genesis, s, u)
  {
    AncestorStays(t.blocks, u.blocks, genesis, s.lib, t.lib);
    AncestorTransitive(u.blocks, genesis, s.lib, t.lib, u.lib);
  }

  // --------------------------------------------------------------------------------------------
  // FindLIB
  // --------------------------------------------------------------------------------------------

  /** The proposer indices of the blocks of a chain above a height. */
  ghost function Proposers(bs: Blocks, genesis: Block, n: nat, tail: Block, above: nat): set<nat>
    requires Tree(bs, genesis) && On(bs, tail) && n > 0
    decreases tail.height - above
  {
    if above >= tail.height then {}
    else Proposers(bs, genesis, n, tail, above + 1) +
         {ProposerIndex(n, At(bs, genesis, tail, above + 1).timestamp)}
  }

  /** Every proposer counted has a block on the chain. */
  lemma {:induction false} ProposerHasBlock(bs: Blocks, genesis: Block, n: nat, tail: Block, above: nat, p: nat)
    returns (h: nat)
    requires Tree(bs, genesis) && On(bs, tail) && n > 0
    requires p in Proposers(bs, genesis, n, tail, above)
    ensures above < h <= tail.height && ProposerIndex(n, At(bs, genesis, tail, h).timestamp) == p
    decreases tail.height - above
  {
    if p in Proposers(bs, genesis, n, tail, above + 1) {
      h := ProposerHasBlock(bs, genesis, n, tail, above + 1, p);
    } else {
      h := above + 1;
    }
  }

  ghost predicate SameDynasty(n: nat, a: Block, b: Block)
    requires n > 0
  {
    DynastyIndex(n, a.timestamp) == DynastyIndex(n, b.timestamp)
  }

  /** The blocks from b up to the tail are of one dynasty and come from a quorum of its proposers. */
  ghost predicate Confirmed(bs: Blocks, genesis: Block, n: nat, b: Block, tail: Block)
    requires n > 0
  {
    && Ancestor(bs, genesis, b, tail)
    && SameDynasty(n, b, tail)
    && |Proposers(bs, genesis, n, tail, b.height - 1)| >= ConsensusSize(n)
  }

  /** Going down the chain, a dynasty is not returned to once it has been left. */
  lemma DynastyIsContiguous(bs: Blocks, genesis: Block, n: nat, tail: Block, h: nat, k: nat)
    requires Tree(bs, genesis) && On(bs, tail) && n > 0 && GENESIS_HEIGHT <= h <= k <= tail.height
    requires SameDynasty(n, At(bs, genesis, tail, h), tail)
    ensures SameDynasty(n, At(bs, genesis, tail, k), tail)
  {
    var x, y := At(bs, genesis, tail, h), At(bs, genesis, tail, k);
    AtOfAt(bs, genesis, tail, k, h);
    HeightsNeedSlots(bs, genesis, y, h);
    HeightsNeedSlots(bs, genesis, tail, k);
    DynastyIsMonotone(n, x.timestamp, y.timestamp);
    DynastyIsMonotone(n, y.timestamp, tail.timestamp);
  }

  lemma ProposerIsNew(bs: Blocks, genesis: Block, n: nat, tail: Block, h: nat)
    requires Tree(bs, genesis) && On(bs, tail) && n > 0 && GENESIS_HEIGHT <= h <= tail.height
    requires SameDynasty(n, At(bs, genesis, tail, h), tail)
    ensures ProposerIndex(n, At(bs, genesis, tail, h).timestamp) !in Proposers(bs, genesis, n, tail, h)
  {
    var p := ProposerIndex(n, At(bs, genesis, tail, h).timestamp);
    if p in Proposers(bs, genesis, n, tail, h) {
      var k := ProposerHasBlock(bs, genesis, n, tail, h, p);
      DynastyIsContiguous(bs, genesis, n, tail, h, k);
      ProposersDiffer(bs, genesis, n, tail, h, k);
      assert false;
    }
  }

  /** The number of proposers is the number of blocks: the quorum is one of blocks in a row. */
  lemma {:induction false} ProposersCountBlocks(bs: Blocks, genesis: Block, n: nat, tail: Block, h: nat)
    requires Tree(bs, genesis) && On(bs, tail) && n > 0 && GENESIS_HEIGHT <= h <= tail.height
    requires SameDynasty(n, At(bs, genesis, tail, h), tail)
    ensures |Proposers(bs, genesis, n, tail, h - 1)| == tail.height - h + 1
    decreases tail.height - h
  {
    if h < tail.height {
      DynastyIsContiguous(bs, genesis, n, tail, h, h + 1);
      ProposersCountBlocks(bs, genesis, n, tail, h + 1);
    }
    ProposerIsNew(bs, genesis, n, tail, h);
  }

  /** The blocks are in one period of n slots of three seconds, a slot for each proposer. */
  predicate SamePeriod(n: nat, a: Block, b: Block)
    requires n > 0
  {
    a.timestamp / 3 / n == b.timestamp / 3 / n
  }

  lemma DynastiesArePeriods(n: nat, a: Block, b: Block)
    requires n > 0
    ensures SameDynasty(n, a, b) <==> SamePeriod(n, a, b)
  {
    DynastyIndexOfSlot(n, a.timestamp);
    DynastyIndexOfSlot(n, b.timestamp);
  }

  /** A block is confirmed exactly by 2 n / 3 blocks on top of it, rounded down, in its period. */
  lemma ConfirmedIff(bs: Blocks, genesis: Block, n: nat, tail: Block, h: nat)
    requires Tree(bs, genesis) && On(bs, tail) && n > 0 && GENESIS_HEIGHT <= h <= tail.height
    ensures var b := At(bs, genesis, tail, h);
            Confirmed(bs, genesis, n, b, tail) <==> SamePeriod(n, b, tail) && tail.height - h >= 2 * n / 3
  {
    var b := At(bs, genesis, tail, h);
    DynastiesArePeriods(n, b, tail);
    if SameDynasty(n, b, tail) {
      ProposersCountBlocks(bs, genesis, n, tail, h);
    }
  }

  /** No block above a height is confirmed. */
  ghost predicate NoneConfirmed(bs: Blocks, genesis: Block, n: nat, tail: Block, above: nat)
    requires Tree(bs, genesis) && On(bs, tail) && n > 0
  {
    forall h :: above < h <= tail.height ==> !Confirmed(bs, genesis, n, At(bs, genesis, tail, h), tail)
  }

  lemma SameHeightSameBlock(bs: Blocks, genesis: Block, a: Block, b: Block, top: Block)
    requires Ancestor(bs, genesis, a, top) && Ancestor(bs, genesis, b, top)
    ensures a.height == b.height ==> a == b
    ensures a.hash != b.hash && a.height <= b.height ==> a.height < b.height
  {
  }

  /** One step of the walk down from the tail. */
  lemma WalkStep(bs: Blocks, genesis: Block, n: nat, tail: Block, cur: Block)
    requires n > 0 && Ancestor(bs, genesis, cur, tail) && GENESIS_HEIGHT < cur.height
    requires SameDynasty(n, cur, tail) && NoneConfirmed(bs, genesis, n, tail, cur.height)
    ensures Proposers(bs, genesis, n, tail, cur.height - 1) ==
            Proposers(bs, genesis, n, tail, cur.height) + {ProposerIndex(n, cur.timestamp)}
    ensures |Proposers(bs, genesis, n, tail, cur.height - 1)| >= ConsensusSize(n) ==>
              Confirmed(bs, genesis, n, cur, tail)
    ensures |Proposers(bs, genesis, n, tail, cur.height - 1)| < ConsensusSize(n) ==>
              NoneConfirmed(bs, genesis, n, tail, cur.height - 1)
    ensures cur.parentHash in bs && bs[cur.parentHash].height == cur.height - 1
    ensures Ancestor(bs, genesis, bs[cur.parentHash], tail)
  {
    ParentOfAt(bs, genesis, tail, cur.height);
  }

  lemma NothingConfirmedBelow(bs: Blocks, genesis: Block, n: nat, tail: Block, cur: Block, lib: Block)
    requires n > 0 && Ancestor(bs, genesis, cur, tail) && Ancestor(bs, genesis, lib, tail) && lib.height <= cur.height
    requires !SameDynasty(n, cur, tail) || cur.hash == lib.hash
    requires NoneConfirmed(bs, genesis, n, tail, cur.height)
    ensures NoneConfirmed(bs, genesis, n, tail, lib.height)
  {
    SameHeightSameBlock(bs, genesis, lib, cur, tail);
    forall h | lib.height < h <= tail.height
      ensures !Confirmed(bs, genesis, n, At(bs, genesis, tail, h), tail)
    {
      if h <= cur.height && SameDynasty(n, At(bs, genesis, tail, h), tail) {
        DynastyIsContiguous(bs, genesis, n, tail, h, cur.height);
      }
    }
  }

  /**
   Looks for a new LIB: the highest block above the current one whose dynasty peers on top of it
   make a quorum; the current one if there is none.  In numbers, it has 2 n / 3 blocks of its own
   period on top of it, and no higher block has.
   */
  method FindLIB(bs: Blocks, ghost genesis: Block, n: nat, tail: Block, lib: Block) returns (newLIB: Block)
    requires n > 0 && Ancestor(bs, genesis, lib, tail)
    ensures newLIB == lib || Confirmed(bs, genesis, n, newLIB, tail)
    ensures Ancestor(bs, genesis, newLIB, tail) && Ancestor(bs, genesis, lib, newLIB)
    ensures NoneConfirmed(bs, genesis, n, tail, newLIB.height)
    ensures newLIB != lib ==> SamePeriod(n, newLIB, tail) && tail.height - newLIB.height >= 2 * n / 3
    ensures forall h :: newLIB.height < h <= tail.height && SamePeriod(n, At(bs, genesis, tail, h), tail) ==>
              tail.height - h < 2 * n / 3
  {
    newLIB := WalkDown(bs, genesis, n, tail, lib);
    ConfirmedIff(bs, genesis, n, tail, newLIB.height);
    forall h | newLIB.height < h <= tail.height && SamePeriod(n, At(bs, genesis, tail, h), tail)
      ensures tail.height - h < 2 * n / 3
    {
      ConfirmedIff(bs, genesis, n, tail, h);
    }
  }

  /** The walk from the tail down to the first block with a quorum, the LIB, or another dynasty. */
  method WalkDown(bs: Blocks, ghost genesis: Block, n: nat, tail: Block, lib: Block) returns (newLIB: Block)
    requires n > 0 && Ancestor(bs, genesis, lib, tail)
    ensures newLIB == lib || Confirmed(bs, genesis, n, newLIB, tail)
    ensures Ancestor(bs, genesis, newLIB, tail) && Ancestor(bs, genesis, lib, newLIB)
    ensures NoneConfirmed(bs, genesis, n, tail, newLIB.height)
  {
    var tailDynastyIndex := DynastyIndex(n, tail.timestamp);
    var cur, confirmed := tail, {};
    while DynastyIndex(n, cur.timestamp) == tailDynastyIndex && cur.hash != lib.hash
      invariant Walked(bs, genesis, n, tail, lib, cur, confirmed)
      decreases cur.height
    {
      WalkOn(bs, genesis, n, tail, lib, cur, confirmed);
      confirmed := confirmed + {ProposerIndex(n, cur.timestamp)};
      if |confirmed| >= ConsensusSize(n) {
        return cur;
      }
      cur := bs[cur.parentHash];
    }
    AncestorsAreOrdered(bs, genesis, lib, lib, tail);
    NothingConfirmedBelow(bs, genesis, n, tail, cur, lib);
    return lib;
  }

  /** What is known on the way down from the tail: none of the blocks above is confirmed. */
  ghost predicate Walked(bs: Blocks, genesis: Block, n: nat, tail: Block, lib: Block, cur: Block, confirmed: set<nat>)
    requires n > 0
  {
    && Ancestor(bs, genesis, cur, tail) && Ancestor(bs, genesis, lib, tail) && lib.height <= cur.height
    && confirmed == Proposers(bs, genesis, n, tail, cur.height)
    && NoneConfirmed(bs, genesis, n, tail, cur.height)
  }

  lemma WalkOn(bs: Blocks, genesis: Block, n: nat, tail: Block, lib: Block, cur: Block, confirmed: set<nat>)
    requires n > 0 && Walked(bs, genesis, n, tail, lib, cur, confirmed)
    requires SameDynasty(n, cur, tail) && cur.hash != lib.hash
    ensures var confirmed' := confirmed + {ProposerIndex(n, cur.timestamp)};
            if |confirmed'| >= ConsensusSize(n)
            then Confirmed(bs, genesis, n, cur, tail) && Ancestor(bs, genesis, lib, cur)
            else && cur.parentHash in bs && bs[cur.parentHash].height < cur.height
                 && Walked(bs, genesis, n, tail, lib, bs[cur.parentHash], confirmed')
  {
    SameHeightSameBlock(bs, genesis, lib, cur, tail);
    WalkStep(bs, genesis, n, tail, cur);
    AncestorsAreOrdered(bs, genesis, lib, cur, tail);
  }

  // --------------------------------------------------------------------------------------------
  // The chain
  // --------------------------------------------------------------------------------------------

  class BlockChain {
    const genesis: Block
    var blocks: Blocks
    var heightIndex: map<nat, Hash>
    var mainTail: Block
    var lib: Block
    var tails: Blocks
    const tailSize: nat

    ghost function Snap(): Snapshot
      reads this
    {
      Snapshot(blocks, mainTail, lib, tails)
    }

    /** Up to the main tail, the index names the tail's ancestor at every height. */
    ghost predicate Indexed()
      requires Tree(blocks, genesis) && On(blocks, mainTail)
      reads this
    {
      forall h :: GENESIS_HEIGHT <= h <= mainTail.height ==>
        h in heightIndex && heightIndex[h] == At(blocks, genesis, mainTail, h).hash
    }

    ghost predicate Valid()
      reads this
    {
      && Settled(genesis, Snap())
      && Indexed()
      && |tails| <= tailSize && tailSize > 0
      && forall h :: h in tails ==> h in blocks && tails[h] == blocks[h]
    }

    constructor (genesis: Block, tailSize: nat)
      requires genesis.height == GENESIS_HEIGHT && genesis.timestamp == GENESIS_TIMESTAMP && tailSize > 0
      ensures Valid() && this.genesis == genesis && this.tailSize == tailSize
      ensures Snap() == Snapshot(map[genesis.hash := genesis], genesis, genesis, map[genesis.hash := genesis])
    {
      this.genesis, this.tailSize := genesis, tailSize;
      blocks := map[genesis.hash := genesis];
      heightIndex := map[GENESIS_HEIGHT := genesis.hash];
      mainTail, lib := genesis, genesis;
      tails := map[genesis.hash := genesis];
    }

    method BlockByHeight(height: nat) returns (r: Result<Block>)
      requires Valid() && height >= GENESIS_HEIGHT
      ensures r == if height > mainTail.height then Err(BlockNotExist)
                   else Ok(At(blocks, genesis, mainTail, height))
    {
      if height > mainTail.height {
        return Err(BlockNotExist);
      }
      return Ok(blocks[heightIndex[height]]);
    }

    // ------------------------------------------------------------------------------------------
    // New blocks
    // ------------------------------------------------------------------------------------------

    /** Stores a block that has been verified against its parent; it becomes a tail. */
    method PutVerifiedNewBlock(parent: Block, child: Block) returns (r: Result<()>)
      requires Valid()
      requires parent.hash in blocks ==> On(blocks, parent) && Follows(child, parent)
      requires child.hash in blocks ==> On(blocks, child)
      modifies this
      ensures Valid() && mainTail == old(mainTail) && lib == old(lib)
      ensures Advances(genesis, old(Snap()), Snap())
      ensures r == if parent.hash in old(blocks) then Ok(()) else Err(BlockNotExist)
      ensures blocks == if r.Ok? then old(blocks)[child.hash := child] else old(blocks)
      ensures r.Ok? ==> child.hash in tails && parent.hash !in tails
      ensures r.Ok? ==> tails.Keys <= old(tails).Keys + {child.hash}
      ensures r.Err? ==> tails == old(tails)
      ensures r.Ok? && |old(tails)| < tailSize ==> tails == old(tails)[child.hash := child] - {parent.hash}
    {
      Unmoved(genesis, Snap());
      if parent.hash !in blocks {
        return Err(BlockNotExist);
      }
      StoreBlock(parent, child);
      ReplaceTail(parent, child);
      return Ok(());
    }

    method StoreBlock(ghost parent: Block, child: Block)
      requires Valid() && On(blocks, parent) && Follows(child, parent)
      requires child.hash in blocks ==> On(blocks, child)
      modifies this`blocks
      ensures Valid() && blocks == old(blocks)[child.hash := child] && Advances(genesis, old(Snap()), Snap())
      ensures child.hash != parent.hash
    {
      if child.hash !in blocks {
        TreeGrows(blocks, genesis, child);
      } else {
        assert blocks[child.hash := child] == blocks;
      }
      GrowthKeeps(genesis, Snap(), blocks[child.hash := child], tails);
      blocks := blocks[child.hash := child];
    }

    method ReplaceTail(parent: Block, child: Block)
      requires |tails| <= tailSize && tailSize > 0 && parent.hash != child.hash
      modifies this`tails
      ensures child.hash in tails && tails[child.hash] == child && parent.hash !in tails && |tails| <= tailSize
      ensures forall h :: h in tails && h != child.hash ==> h in old(tails) && tails[h] == old(tails)[h]
      ensures |old(tails)| < tailSize ==> tails == old(tails)[child.hash := child] - {parent.hash}
    {
      AddToTailBlocks(child);
      if parent.hash in tails {
        SizeAfterRemove(tails, parent.hash);
      }
      tails := tails - {parent.hash};
    }

    /** The table of tails is bounded: adding one to a full table drops another one. */
    method AddToTailBlocks(b: Block)
      requires |tails| <= tailSize && tailSize > 0
      modifies this`tails
      ensures b.hash in tails && tails[b.hash] == b && |tails| <= tailSize
      ensures forall h :: h in tails && h != b.hash ==> h in old(tails) && tails[h] == old(tails)[h]
      ensures |old(tails)| < tailSize || b.hash in old(tails) ==> tails == old(tails)[b.hash := b]
    {
      SizeAfterPut(tails, b);
      tails := tails[b.hash := b];
      if |tails| > tailSize {
        var victim :| victim in tails && victim != b.hash by { SomeOther(tails, b.hash); }
        tails := tails - {victim};
      }
    }

    /** The checks a received block goes through before it is stored. */
    method ProcessTask(b: Block, executes: bool) returns (r: Result<()>)
      requires Valid()
      modifies this
      ensures Valid() && mainTail == old(mainTail) && lib == old(lib)
      ensures Advances(genesis, old(Snap()), Snap())
      ensures r.Ok? <==>
                && b.hash !in old(blocks) && b.parentHash in old(blocks)
                && Follows(b, old(blocks)[b.parentHash])
                && Ancestor(old(blocks), genesis, lib, old(blocks)[b.parentHash])
                && executes
      ensures blocks == if r.Ok? then old(blocks)[b.hash := b] else old(blocks)
      ensures r.Ok? ==> Ancestor(blocks, genesis, lib, b)
      ensures r.Ok? ==> b.hash in tails && tails.Keys <= old(tails).Keys + {b.hash}
      ensures r.Ok? && |old(tails)| < tailSize ==> tails == old(tails)[b.hash := b] - {b.parentHash}
      ensures r.Err? ==> tails == old(tails)
    {
      Unmoved(genesis, Snap());
      if b.hash in blocks {
        return Err(AlreadyOnTheChain);
      }
      if b.parentHash !in blocks {
        return Err(MissingParentBlock);
      }
      var parent := blocks[b.parentHash];
      var forked := IsForkedBeforeLIB(parent);
      if forked {
        return Err(ForkedBeforeLIB);
      }
      if parent.height + 1 != b.height {
        return Err(InvalidBlockHeight);
      }
      if b.timestamp <= parent.timestamp {
        return Err(InvalidTimestamp);
      }
      if (b.timestamp - parent.timestamp) % BLOCK_INTERVAL != 0 {
        return Err(InvalidBlockInterval);
      }
      if !executes {
        return Err(InvalidExecution);
      }
      r := PutVerifiedNewBlock(parent, b);
      AncestorStays(old(blocks), blocks, genesis, lib, parent);
      assert At(blocks, genesis, b, lib.height) == At(blocks, genesis, parent, lib.height);
    }

    // ------------------------------------------------------------------------------------------
    // Walking the chain
    // ------------------------------------------------------------------------------------------

    /** The most recent block of the canonical chain that a block descends from. */
    method FindAncestorOnCanonical(start: Block, breakAtLIB: bool) returns (r: Result<Block>)
      requires Valid() && On(blocks, start)
      ensures r.Ok? ==> r.value == Meet(blocks, genesis, start, mainTail)
      ensures r.Ok? <==> !breakAtLIB || Meet(blocks, genesis, start, mainTail).height >= lib.height
      ensures r.Err? ==> r.error == MissingParentBlock
    {
      var block := start;
      AtLeastGenesis(blocks, genesis, mainTail);
      while mainTail.height < block.height
        invariant On(blocks, block)
        invariant Meet(blocks, genesis, block, mainTail) == Meet(blocks, genesis, start, mainTail)
        decreases block.height
      {
        AtLeastGenesis(blocks, genesis, block);
        block := blocks[block.parentHash];
      }
      while true
        invariant On(blocks, block) && block.height <= mainTail.height
        invariant Meet(blocks, genesis, block, mainTail) == Meet(blocks, genesis, start, mainTail)
        decreases block.height
      {
        AtLeastGenesis(blocks, genesis, block);
        MeetBelow(blocks, genesis, block, mainTail);
        if breakAtLIB && block.height < lib.height {
          return Err(MissingParentBlock);
        }
        var canonical := BlockByHeight(block.height);
        if canonical.value.hash == block.hash {
          return Ok(block);
        }
        block := blocks[block.parentHash];
      }
    }

    method IsForkedBeforeLIB(block: Block) returns (forked: bool)
      requires Valid() && On(blocks, block)
      ensures forked <==> !Ancestor(blocks, genesis, lib, block)
    {
      var r := FindAncestorOnCanonical(block, true);
      MeetsAboveIffDescends(blocks, genesis, block, mainTail, lib);
      return r.Err?;
    }

    /** The blocks from one down to another it descends from, the lower one left out. */
    method LoadBetweenBlocks(from: Block, to: Block) returns (list: seq<Block>)
      requires Valid() && On(blocks, to) && Ancestor(blocks, genesis, from, to)
      ensures IsBranch(blocks, genesis, to, from.height, list)
    {
      list := [];
      var block := to;
      while block.hash != from.hash
        invariant Ancestor(blocks, genesis, block, to) && from.height <= block.height
        invariant IsBranch(blocks, genesis, to, block.height, list)
        decreases block.height
      {
        ghost var h := block.height;
        SameHeightSameBlock(blocks, genesis, from, block, to);
        ParentOfAt(blocks, genesis, to, h);
        list := list + [block];
        block := blocks[block.parentHash];
      }
    }

    // ------------------------------------------------------------------------------------------
    // The tail
    // ------------------------------------------------------------------------------------------

    /** A tail that descends from the LIB and is at least as high as any other such tail. */
    method ForkChoice() returns (newTail: Block)
      requires Valid()
      ensures On(blocks, newTail) && Ancestor(blocks, genesis, lib, newTail)
      ensures newTail == mainTail || (newTail.hash in tails && newTail.height > mainTail.height)
      ensures forall h :: h in tails && Ancestor(blocks, genesis, lib, tails[h]) ==> tails[h].height <= newTail.height
    {
      newTail := mainTail;
      var todo := tails.Keys;
      while todo != {}
        invariant todo <= tails.Keys
        invariant On(blocks, newTail) && Ancestor(blocks, genesis, lib, newTail)
        invariant newTail == mainTail || (newTail.hash in tails && newTail.height > mainTail.height)
        invariant forall h :: h in tails.Keys - todo && Ancestor(blocks, genesis, lib, tails[h]) ==>
                    tails[h].height <= newTail.height
        decreases todo
      {
        var h :| h in todo;
        todo := todo - {h};
        var forked := IsForkedBeforeLIB(tails[h]);
        if !forked && tails[h].height > newTail.height {
          newTail := tails[h];
        }
      }
    }

    /** Writes the index for the blocks from one down to another, the lower one left out. */
    method BuildIndexByBlockHeight(from: Block, to: Block) returns (list: seq<Block>)
      requires Valid() && On(blocks, to) && Ancestor(blocks, genesis, from, to)
      modifies this`heightIndex
      ensures IsBranch(blocks, genesis, to, from.height, list)
      ensures forall h :: from.height < h <= to.height ==>
                h in heightIndex && heightIndex[h] == At(blocks, genesis, to, h).hash
      ensures forall h :: h <= from.height && h in old(heightIndex) ==>
                h in heightIndex && heightIndex[h] == old(heightIndex)[h]
    {
      list := [];
      var block := to;
      while block.hash != from.hash
        invariant Ancestor(blocks, genesis, block, to) && from.height <= block.height
        invariant IsBranch(blocks, genesis, to, block.height, list)
        invariant forall h :: block.height < h <= to.height ==>
                    h in heightIndex && heightIndex[h] == At(blocks, genesis, to, h).hash
        invariant forall h :: h <= from.height && h in old(heightIndex) ==>
                    h in heightIndex && heightIndex[h] == old(heightIndex)[h]
        decreases block.height
      {
        ghost var h := block.height;
        SameHeightSameBlock(blocks, genesis, from, block, to);
        ParentOfAt(blocks, genesis, to, h);
        heightIndex := heightIndex[block.height := block.hash];
        list := list + [block];
        block := blocks[block.parentHash];
      }
    }

    /**
     Makes a block the main tail.  The reverted and the new blocks are the two branches above the
     block where the old and the new chain meet, and nothing at or below the LIB is reverted.
     */
    method SetTailBlock(newTail: Block) returns (r: Result<(seq<Block>, seq<Block>)>)
      requires Valid() && On(blocks, newTail)
      modifies this`heightIndex, this`mainTail
      ensures Valid() && Advances(genesis, old(Snap()), Snap())
      ensures r.Ok? <==> Ancestor(blocks, genesis, lib, newTail)
      ensures mainTail == if r.Ok? then newTail else old(mainTail)
      ensures r.Err? ==> r.error == MissingParentBlock && heightIndex == old(heightIndex)
      ensures r.Ok? ==> var (reverted, added) := r.value; var m := Meet(blocks, genesis, newTail, old(mainTail));
                && IsBranch(blocks, genesis, old(mainTail), m.height, reverted)
                && IsBranch(blocks, genesis, newTail, m.height, added)
                && forall b :: b in reverted ==> b.height > lib.height && b !in added
    {
      Unmoved(genesis, Snap());
      var ancestor := FindAncestorOnCanonical(newTail, true);
      MeetsAboveIffDescends(blocks, genesis, newTail, mainTail, lib);
      if ancestor.Err? {
        return Err(ancestor.error);
      }
      var a := ancestor.value;
      MeetIsCommon(blocks, genesis, newTail, mainTail);
      var reverted := LoadBetweenBlocks(a, mainTail);
      var added := BuildIndexByBlockHeight(a, newTail);
      NothingFinalReverted(blocks, genesis, newTail, mainTail, lib, reverted, added);
      SharedBelow(blocks, genesis, a, newTail, mainTail);
      mainTail := newTail;
      return Ok((reverted, added));
    }

    // ------------------------------------------------------------------------------------------
    // The last irreversible block
    // ------------------------------------------------------------------------------------------

    /**
     Moves the LIB up to a block of the main chain and drops the tails that do not descend from it,
     except those above the main tail, which the code fails to drop.
     */
    method SetLIB(newLIB: Block)
      requires Valid() && Ancestor(blocks, genesis, newLIB, mainTail)
      modifies this`lib, this`tails
      ensures Valid() && Advances(genesis, old(Snap()), Snap())
      ensures lib == if newLIB.height >= old(lib).height then newLIB else old(lib)
      ensures lib == old(lib) ==> tails == old(tails)
      ensures lib != old(lib) ==> forall h :: h in tails <==>
                h in old(tails) && (Ancestor(blocks, genesis, lib, old(tails)[h]) || old(tails)[h].height > mainTail.height)
      ensures forall h :: h in tails ==> h in old(tails) && tails[h] == old(tails)[h]
    {
      Unmoved(genesis, Snap());
      SameHeightSameBlock(blocks, genesis, newLIB, lib, mainTail);
      if lib.height > newLIB.height || lib.hash == newLIB.hash {
        return;
      }
      AncestorsAreOrdered(blocks, genesis, lib, newLIB, mainTail);
      lib := newLIB;
      RemoveForkedTails();
    }

    method RemoveForkedTails()
      requires Valid()
      modifies this`tails
      ensures Valid()
      ensures forall h :: h in tails <==>
                h in old(tails) && (Ancestor(blocks, genesis, lib, old(tails)[h]) || old(tails)[h].height > mainTail.height)
      ensures forall h :: h in tails ==> h in old(tails) && tails[h] == old(tails)[h]
    {
      var todo := tails.Keys;
      while todo != {}
        invariant Valid() && todo <= tails.Keys
        invariant forall h :: h in tails ==> h in old(tails) && tails[h] == old(tails)[h]
        invariant forall h :: h in old(tails) ==>
                    (h in tails <==> h in todo || Ancestor(blocks, genesis, lib, old(tails)[h]) ||
                                     old(tails)[h].height > mainTail.height)
        decreases todo
      {
        var h :| h in todo;
        todo := todo - {h};
        var forked := IsForkedBeforeLIB(tails[h]);
        if forked {
          RemoveForkedBranch(tails[h]);
        }
      }
    }

    /**
     Walks a forked branch down to the canonical chain and then forgets its tail.  The walk gives up
     at a block above the main tail.  The blocks stay stored: they are deleted under a key they are
     not stored under.
     */
    method RemoveForkedBranch(tail: Block)
      requires Valid() && On(blocks, tail) && !Ancestor(blocks, genesis, lib, tail)
      modifies this`tails
      ensures Valid()
      ensures tails == if tail.height > mainTail.height then old(tails) else old(tails) - {tail.hash}
    {
      var ancestor := FindAncestorOnCanonical(tail, false);
      var reached := WalkToCanonical(tail, ancestor.value);
      if reached {
        if tail.hash in tails {
          SizeAfterRemove(tails, tail.hash);
        }
        tails := tails - {tail.hash};
      }
    }

    /** Whether the walk from a forked tail down to the block where it meets the main chain gets there. */
    method WalkToCanonical(tail: Block, m: Block) returns (reached: bool)
      requires Valid() && On(blocks, tail) && !Ancestor(blocks, genesis, lib, tail)
      requires m == Meet(blocks, genesis, tail, mainTail)
      ensures reached <==> tail.height <= mainTail.height
    {
      var block := tail;
      MeetIsCommon(blocks, genesis, tail, mainTail);
      while block.hash != m.hash
        invariant Ancestor(blocks, genesis, block, tail) && m.height <= block.height
        invariant block != tail ==> tail.height <= mainTail.height
        decreases block.height
      {
        SameHeightSameBlock(blocks, genesis, m, block, tail);
        AtLeastGenesis(blocks, genesis, block);
        var canonical := BlockByHeight(block.height);
        if canonical.Err? || canonical.value.hash == block.hash {
          if canonical.Ok? {
            MeetIsHighestCommonAncestor(blocks, genesis, tail, mainTail, block);
          }
          return false;
        }
        ParentOfAt(blocks, genesis, tail, block.height);
        block := blocks[block.parentHash];
      }
      return true;
    }

    // ------------------------------------------------------------------------------------------
    // The chain manager
    // ------------------------------------------------------------------------------------------

    /**
     What the chain manager does on every trigger.  When the pending transactions cannot be rearranged
     after a switch of the tail, the LIB is left alone.
     */
    method ManageChain(n: nat, rearranges: bool) returns (reverted: seq<Block>)
      requires Valid() && n > 0
      modifies this
      ensures Valid() && Advances(genesis, old(Snap()), Snap()) && blocks == old(blocks)
      ensures mainTail == old(mainTail) || (mainTail.hash in old(tails) && mainTail.height > old(mainTail).height)
      ensures forall h :: h in old(tails) && Ancestor(blocks, genesis, old(lib), old(tails)[h]) ==>
                old(tails)[h].height <= mainTail.height
      ensures Ancestor(blocks, genesis, old(lib), mainTail)
      ensures forall b :: b in reverted ==> Ancestor(blocks, genesis, b, old(mainTail)) && b.height > old(lib).height
      ensures if mainTail == old(mainTail) then reverted == []
              else IsBranch(blocks, genesis, old(mainTail), Meet(blocks, genesis, mainTail, old(mainTail)).height, reverted)
      ensures lib == old(lib) || Confirmed(blocks, genesis, n, lib, mainTail)
      ensures mainTail != old(mainTail) && rearranges ==> NoneConfirmed(blocks, genesis, n, mainTail, lib.height)
      ensures mainTail == old(mainTail) || !rearranges ==> lib == old(lib)
      ensures lib == old(lib) ==> tails == old(tails)
      ensures lib != old(lib) ==> forall h :: h in tails <==>
                h in old(tails) && (Ancestor(blocks, genesis, lib, old(tails)[h]) || old(tails)[h].height > mainTail.height)
    {
      reverted := [];
      var newTail := ForkChoice();
      if newTail.hash == mainTail.hash {
        Unmoved(genesis, Snap());
        return;
      }
      var switched := SetTailBlock(newTail);
      reverted := switched.value.0;
      forall b | b in reverted
        ensures Ancestor(blocks, genesis, b, old(mainTail))
      {
        InBranch(blocks, genesis, old(mainTail), Meet(blocks, genesis, newTail, old(mainTail)).height, reverted, b);
      }
      if rearranges {
        UpdateLIB(n);
      }
    }

    /** Moves the LIB up as far as the main chain confirms it. */
    method UpdateLIB(n: nat)
      requires Valid() && n > 0
      modifies this`lib, this`tails
      ensures Valid() && Advances(genesis, old(Snap()), Snap())
      ensures lib == old(lib) || Confirmed(blocks, genesis, n, lib, mainTail)
      ensures NoneConfirmed(blocks, genesis, n, mainTail, lib.height)
      ensures lib == old(lib) ==> tails == old(tails)
      ensures lib != old(lib) ==> forall h :: h in tails <==>
                h in old(tails) && (Ancestor(blocks, genesis, lib, old(tails)[h]) || old(tails)[h].height > mainTail.height)
    {
      Unmoved(genesis, Snap());
      var newLIB := FindLIB(blocks, genesis, n, mainTail, lib);
      if lib.hash == newLIB.hash {
        return;
      }
      SetLIB(newLIB);
    }
  }

  /** Up to where they meet, two chains have the same blocks. */
  lemma SharedBelow(bs: Blocks, genesis: Block, a: Block, x: Block, y: Block)
    requires Ancestor(bs, genesis, a, x) && Ancestor(bs, genesis, a, y)
    ensures forall h :: GENESIS_HEIGHT <= h <= a.height ==> At(bs, genesis, x, h) == At(bs, genesis, y, h)
  {
    forall h | GENESIS_HEIGHT <= h <= a.height
      ensures At(bs, genesis, x, h) == At(bs, genesis, y, h)
    {
      AtOfAt(bs, genesis, x, a.height, h);
      AtOfAt(bs, genesis, y, a.height, h);
    }
  }

  lemma NothingFinalReverted(bs: Blocks, genesis: Block, x: Block, y: Block, lib: Block, xs: seq<Block>, ys: seq<Block>)
    requires Tree(bs, genesis) && On(bs, x) && On(bs, y)
    requires var m := Meet(bs, genesis, x, y);
             m.height >= lib.height && IsBranch(bs, genesis, y, m.height, xs) && IsBranch(bs, genesis, x, m.height, ys)
    ensures forall b :: b in xs ==> b.height > lib.height && b !in ys
  {
    var m := Meet(bs, genesis, x, y);
    BranchesAreDisjoint(bs, genesis, x, y, ys, xs);
    forall b | b in xs
      ensures b.height > lib.height
    {
      InBranch(bs, genesis, y, m.height, xs, b);
    }
  }

  /** Where a block meets a chain that is at least as high: on the chain, or where its parent does. */
  lemma MeetBelow(bs: Blocks, genesis: Block, x: Block, y: Block)
    requires Tree(bs, genesis) && On(bs, x) && On(bs, y) && x.height <= y.height
    ensures GENESIS_HEIGHT <= x.height
    ensures At(bs, genesis, y, x.height) == x ==> Meet(bs, genesis, x, y) == x
    ensures At(bs, genesis, y, x.height) != x ==>
              x != genesis && Meet(bs, genesis, x, y) == Meet(bs, genesis, bs[x.parentHash], y)
    ensures Meet(bs, genesis, x, y).height <= x.height
    decreases y.height
  {
    AtLeastGenesis(bs, genesis, x);
    AtLeastGenesis(bs, genesis, y);
    MeetIsCommon(bs, genesis, x, y);
    if x.height < y.height {
      MeetBelow(bs, genesis, x, bs[y.parentHash]);
    }
  }

  lemma SizeAfterPut(tails: Blocks, b: Block)
    ensures |tails[b.hash := b]| == if b.hash in tails then |tails| else |tails| + 1
  {
    assert tails[b.hash := b].Keys == tails.Keys + {b.hash};
  }

  lemma SizeAfterRemove(tails: Blocks, h: Hash)
    requires h in tails
    ensures |tails - {h}| == |tails| - 1
  {
    assert (tails - {h}).Keys == tails.Keys - {h};
  }

  lemma SomeOther(tails: Blocks, h: Hash)
    requires h in tails && |tails| > 1
    ensures exists l :: l in tails && l != h
  {
    SizeAfterRemove(tails, h);
    var l :| l in tails - {h};
  }

  lemma Unmoved(genesis: Block, s: Snapshot)
    requires Settled(genesis, s)
    ensures Advances(genesis, s, s)
  {
    AncestorsAreOrdered(s.blocks, genesis, s.lib, s.lib, s.tail);
  }

  lemma GrowthKeeps(genesis: Block, s: Snapshot, bs: Blocks, tails: Blocks)
    requires Settled(genesis, s) && Tree(bs, genesis) && Extends(s.blocks, bs)
    ensures Advances(genesis, s, s.(blocks := bs, tails := tails))
    ensures forall h :: GENESIS_HEIGHT <= h <= s.tail.height ==> At(bs, genesis, s.tail, h) == At(s.blocks, genesis, s.tail, h)
  {
    forall h | GENESIS_HEIGHT <= h <= s.tail.height
      ensures At(bs, genesis, s.tail, h) == At(s.blocks, genesis, s.tail, h)
    {
      AtStays(s.blocks, bs, genesis, s.tail, h);
    }
    AncestorStays(s.blocks, bs, genesis, s.lib, s.tail);
    Unmoved(genesis, s.(blocks := bs, tails := tails));
  }
}
