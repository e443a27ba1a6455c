/** The tree of accepted blocks and the ancestor relation on it. */
module BlockTree {

  /** A block hash; only equality of hashes matters. */
  type Hash = nat

  datatype Block = Block(hash: Hash, parentHash: Hash, height: nat, timestamp: nat)

  type Blocks = map<Hash, Block>

  /** Seconds between slots. */
  const BLOCK_INTERVAL := 3

  const GENESIS_HEIGHT := 1

  const GENESIS_TIMESTAMP := 0

  ghost predicate On(bs: Blocks, b: Block) {
    b.hash in bs && bs[b.hash] == b
  }

  /** What every block is checked for against its parent before it is stored. */
  predicate Follows(b: Block, parent: Block) {
    && b.parentHash == parent.hash
    && b.height == parent.height + 1
    && b.timestamp > parent.timestamp
    && (b.timestamp - parent.timestamp) % BLOCK_INTERVAL == 0
  }

  ghost predicate Linked(bs: Blocks, genesis: Block, b: Block) {
    b == genesis || (b.parentHash in bs && Follows(b, bs[b.parentHash]))
  }

  ghost predicate Tree(bs: Blocks, genesis: Block) {
    && On(bs, genesis) && genesis.height == GENESIS_HEIGHT && genesis.timestamp == GENESIS_TIMESTAMP
    && (forall h :: h in bs ==> bs[h].hash == h)
    && forall b :: On(bs, b) ==> Linked(bs, genesis, b)
  }

  /** Blocks are added but never changed. */
  ghost predicate Extends(bs: Blocks, bs': Blocks) {
    forall h :: h in bs ==> h in bs' && bs'[h] == bs[h]
  }

  lemma {:induction false} AtLeastGenesis(bs: Blocks, genesis: Block, b: Block)
    requires Tree(bs, genesis) && On(bs, b)
    ensures b.height >= GENESIS_HEIGHT
    ensures b.height == GENESIS_HEIGHT ==> b == genesis
    ensures b != genesis ==> b.timestamp > GENESIS_TIMESTAMP
    ensures b.timestamp % BLOCK_INTERVAL == 0
    decreases b.height
  {
    if b != genesis {
      AtLeastGenesis(bs, genesis, bs[b.parentHash]);
    }
  }

  /** The ancestor of a block at a height. */
  ghost function At(bs: Blocks, genesis: Block, b: Block, h: nat): (a: Block)
    requires Tree(bs, genesis) && On(bs, b) && GENESIS_HEIGHT <= h <= b.height
    ensures On(bs, a) && a.height == h
    decreases b.height
  {
    AtLeastGenesis(bs, genesis, b);
    if b.height == h then b else At(bs, genesis, bs[b.parentHash], h)
  }

  /** Both blocks are on the tree, and a is b or below it on the same branch. */
  ghost predicate Ancestor(bs: Blocks, genesis: Block, a: Block, b: Block) {
    && Tree(bs, genesis) && On(bs, b)
    && GENESIS_HEIGHT <= a.height <= b.height && At(bs, genesis, b, a.height) == a
  }

  lemma {:induction false} AtOfAt(bs: Blocks, genesis: Block, b: Block, h: nat, k: nat)
    requires Tree(bs, genesis) && On(bs, b) && GENESIS_HEIGHT <= k <= h <= b.height
    ensures At(bs, genesis, At(bs, genesis, b, h), k) == At(bs, genesis, b, k)
    decreases b.height
  {
    if h < b.height {
      AtLeastGenesis(bs, genesis, b);
      AtOfAt(bs, genesis, bs[b.parentHash], h, k);
    }
  }

  /** The parent of the ancestor at a height is the ancestor one below. */
  lemma ParentOfAt(bs: Blocks, genesis: Block, b: Block, h: nat)
    requires Tree(bs, genesis) && On(bs, b) && GENESIS_HEIGHT < h <= b.height
    ensures var a := At(bs, genesis, b, h);
            a != genesis && a.parentHash in bs && bs[a.parentHash] == At(bs, genesis, b, h - 1)
  {
    var a := At(bs, genesis, b, h);
    AtOfAt(bs, genesis, b, h, h - 1);
    assert At(bs, genesis, a, h - 1) == At(bs, genesis, bs[a.parentHash], h - 1);
  }

  lemma AncestorTransitive(bs: Blocks, genesis: Block, a: Block, b: Block, c: Block)
    requires Ancestor(bs, genesis, a, b) && Ancestor(bs, genesis, b, c)
    ensures Ancestor(bs, genesis, a, c)
  {
    AtOfAt(bs, genesis, c, b.height, a.height);
  }

  /** Ancestors of one block are ancestors of each other. */
  lemma AncestorsAreOrdered(bs: Blocks, genesis: Block, a: Block, b: Block, c: Block)
    requires Ancestor(bs, genesis, a, c) && Ancestor(bs, genesis, b, c) && a.height <= b.height
    ensures Ancestor(bs, genesis, a, b)
  {
    AtOfAt(bs, genesis, c, b.height, a.height);
  }

  /** Growing the tree keeps every ancestor. */
  lemma {:induction false} AtStays(bs: Blocks, bs': Blocks, genesis: Block, b: Block, h: nat)
    requires Tree(bs, genesis) && Tree(bs', genesis) && Extends(bs, bs') && On(bs, b)
    requires GENESIS_HEIGHT <= h <= b.height
    ensures On(bs', b) && At(bs', genesis, b, h) == At(bs, genesis, b, h)
    decreases b.height
  {
    AtLeastGenesis(bs, genesis, b);
    if h < b.height {
      AtStays(bs, bs', genesis, bs[b.parentHash], h);
    }
  }

  lemma AncestorStays(bs: Blocks, bs': Blocks, genesis: Block, a: Block, b: Block)
    requires Tree(bs, genesis) && Tree(bs', genesis) && Extends(bs, bs') && On(bs, b)
    ensures On(bs', b) && (Ancestor(bs', genesis, a, b) <==> Ancestor(bs, genesis, a, b))
  {
    if GENESIS_HEIGHT <= a.height <= b.height {
      AtStays(bs, bs', genesis, b, a.height);
    }
  }

  /** Two trees with the same genesis, in which a hash stands for the same block, make one tree. */
  lemma TreesJoin(bsA: Blocks, bsB: Blocks, genesis: Block)
    requires Tree(bsA, genesis) && Tree(bsB, genesis)
    requires forall h :: h in bsA && h in bsB ==> bsA[h] == bsB[h]
    ensures Tree(bsA + bsB, genesis) && Extends(bsA, bsA + bsB) && Extends(bsB, bsA + bsB)
  {
    var bs := bsA + bsB;
    forall b | On(bs, b)
      ensures Linked(bs, genesis, b)
    {
      assert if b.hash in bsB then On(bsB, b) && Linked(bsB, genesis, b) else On(bsA, b) && Linked(bsA, genesis, b);
    }
  }

  lemma TreeGrows(bs: Blocks, genesis: Block, b: Block)
    requires Tree(bs, genesis) && b.parentHash in bs && Follows(b, bs[b.parentHash]) && b.hash !in bs
    ensures Tree(bs[b.hash := b], genesis) && Extends(bs, bs[b.hash := b])
  {
    var bs' := bs[b.hash := b];
    forall c | On(bs', c)
      ensures Linked(bs', genesis, c)
    {
      assert c != b ==> On(bs, c);
    }
  }

  // --------------------------------------------------------------------------------------------
  // Where two branches meet
  // --------------------------------------------------------------------------------------------

  /** The highest common ancestor of two blocks. */
  ghost function Meet(bs: Blocks, genesis: Block, x: Block, y: Block): (a: Block)
    requires Tree(bs, genesis) && On(bs, x) && On(bs, y)
    ensures On(bs, a)
    decreases x.height + y.height
  {
    AtLeastGenesis(bs, genesis, x);
    AtLeastGenesis(bs, genesis, y);
    if x.height > y.height then Meet(bs, genesis, bs[x.parentHash], y)
    else if y.height > x.height then Meet(bs, genesis, x, bs[y.parentHash])
    else if x == y then x
    else Meet(bs, genesis, bs[x.parentHash], bs[y.parentHash])
  }

  /** The common ancestors of two blocks are exactly the ancestors of the block where they meet. */
  lemma {:induction false} MeetIsHighestCommonAncestor(bs: Blocks, genesis: Block, x: Block, y: Block, c: Block)
    requires Tree(bs, genesis) && On(bs, x) && On(bs, y)
    ensures Ancestor(bs, genesis, c, x) && Ancestor(bs, genesis, c, y) <==>
            Ancestor(bs, genesis, c, Meet(bs, genesis, x, y))
    decreases x.height + y.height
  {
    AtLeastGenesis(bs, genesis, x);
    AtLeastGenesis(bs, genesis, y);
    if x.height > y.height {
      MeetIsHighestCommonAncestor(bs, genesis, bs[x.parentHash], y, c);
    } else if y.height > x.height {
      MeetIsHighestCommonAncestor(bs, genesis, x, bs[y.parentHash], c);
    } else if x != y {
      MeetIsHighestCommonAncestor(bs, genesis, bs[x.parentHash], bs[y.parentHash], c);
    }
  }

  lemma MeetIsCommon(bs: Blocks, genesis: Block, x: Block, y: Block)
    requires Tree(bs, genesis) && On(bs, x) && On(bs, y)
    ensures var a := Meet(bs, genesis, x, y);
            Ancestor(bs, genesis, a, x) && Ancestor(bs, genesis, a, y)
  {
    var a := Meet(bs, genesis, x, y);
    AtLeastGenesis(bs, genesis, a);
    MeetIsHighestCommonAncestor(bs, genesis, x, y, a);
  }

  /** A block meets a chain at or above one of the chain's blocks exactly when it descends from it. */
  lemma MeetsAboveIffDescends(bs: Blocks, genesis: Block, x: Block, y: Block, lib: Block)
    requires Tree(bs, genesis) && On(bs, x) && On(bs, y)
    requires Ancestor(bs, genesis, lib, y)
    ensures Meet(bs, genesis, x, y).height >= lib.height <==> Ancestor(bs, genesis, lib, x)
  {
    var a := Meet(bs, genesis, x, y);
    MeetIsCommon(bs, genesis, x, y);
    MeetIsHighestCommonAncestor(bs, genesis, x, y, lib);
    if a.height >= lib.height {
      AncestorsAreOrdered(bs, genesis, lib, a, y);
    }
  }

  /** The blocks of a branch above a height, from the top down. */
  ghost predicate IsBranch(bs: Blocks, genesis: Block, top: Block, bottom: nat, list: seq<Block>)
    requires Tree(bs, genesis) && On(bs, top)
  {
    && GENESIS_HEIGHT <= bottom <= top.height
    && |list| == top.height - bottom
    && forall i :: 0 <= i < |list| ==> list[i] == At(bs, genesis, top, top.height - i)
  }

  lemma InBranch(bs: Blocks, genesis: Block, top: Block, bottom: nat, list: seq<Block>, b: Block)
    requires Tree(bs, genesis) && On(bs, top) && IsBranch(bs, genesis, top, bottom, list) && b in list
    ensures Ancestor(bs, genesis, b, top) && b.height > bottom
  {
    var i :| 0 <= i < |list| && list[i] == b;
    assert At(bs, genesis, top, top.height - i) == b;
  }

  /** The branches of two blocks above the point where they meet have no block in common. */
  lemma BranchesAreDisjoint(bs: Blocks, genesis: Block, x: Block, y: Block, xs: seq<Block>, ys: seq<Block>)
    requires Tree(bs, genesis) && On(bs, x) && On(bs, y)
    requires IsBranch(bs, genesis, x, Meet(bs, genesis, x, y).height, xs)
    requires IsBranch(bs, genesis, y, Meet(bs, genesis, x, y).height, ys)
    ensures forall b :: b in xs ==> b !in ys
  {
    var a := Meet(bs, genesis, x, y);
    forall b | b in xs
      ensures b !in ys
    {
      InBranch(bs, genesis, x, a.height, xs, b);
      if b in ys {
        InBranch(bs, genesis, y, a.height, ys, b);
        MeetIsHighestCommonAncestor(bs, genesis, x, y, b);
        assert false;
      }
    }
  }
}
