/** Two nodes that settle on conflicting blocks in one dynasty need many double-signed slots. */
module Quorum {
  import opened BlockTree
  import opened Slots
  import opened BlockChains

  /** The slot of a dynasty's proposer holds two different blocks. */
  ghost predicate DoubleSlot(bs: Blocks, n: nat, dynasty: nat, p: nat)
    requires n > 0
  {
    exists x, y ::
      && On(bs, x) && On(bs, y) && x != y && x.timestamp == y.timestamp
      && DynastyIndex(n, x.timestamp) == dynasty && ProposerIndex(n, x.timestamp) == p
  }

  ghost function DoubleSlots(bs: Blocks, n: nat, dynasty: nat): set<nat>
    requires n > 0
  {
    set p: nat | p < n && DoubleSlot(bs, n, dynasty, p)
  }

  ghost predicate Below(s: set<nat>, n: nat) {
    forall p :: p in s ==> p < n
  }

  lemma ProposersBelow(bs: Blocks, genesis: Block, n: nat, tail: Block, above: nat)
    requires Tree(bs, genesis) && On(bs, tail) && n > 0
    ensures Below(Proposers(bs, genesis, n, tail, above), n)
  {
    forall p | p in Proposers(bs, genesis, n, tail, above)
      ensures p < n
    {
      var h := ProposerHasBlock(bs, genesis, n, tail, above, p);
    }
  }

  lemma {:induction false} AtMost(s: set<nat>, n: nat)
    requires Below(s, n)
    ensures |s| <= n
  {
    if n == 0 {
      assert s == {};
    } else {
      AtMost(s - {n - 1}, n - 1);
    }
  }

  lemma Subset(a: set<nat>, b: set<nat>)
    requires a <= b
    ensures |a| <= |b|
  {
    assert b == a + (b - a);
  }

  /** Two quorums out of n, a multiple of three, have at least n/3 + 2 members in common. */
  lemma QuorumsOverlap(n: nat, s: set<nat>, t: set<nat>, common: set<nat>)
    requires n % 3 == 0 && Below(s, n) && Below(t, n)
    requires |s| >= ConsensusSize(n) && |t| >= ConsensusSize(n) && s * t <= common
    ensures |common| >= n / 3 + 2
  {
    AtMost(s + t, n);
    assert |s + t| == |s| + |t| - |s * t|;
    Subset(s * t, common);
  }

  /** A proposer of the quorum has a block between the confirmed block and the tail. */
  lemma ProposerBlock(bs: Blocks, genesis: Block, n: nat, a: Block, tail: Block, p: nat) returns (x: Block)
    requires n > 0 && Confirmed(bs, genesis, n, a, tail) && p in Proposers(bs, genesis, n, tail, a.height - 1)
    ensures On(bs, x) && Ancestor(bs, genesis, a, x) && x.timestamp % BLOCK_INTERVAL == 0
    ensures SameDynasty(n, x, tail) && ProposerIndex(n, x.timestamp) == p
  {
    var h := ProposerHasBlock(bs, genesis, n, tail, a.height - 1, p);
    x := At(bs, genesis, tail, h);
    DynastyIsContiguous(bs, genesis, n, tail, a.height, h);
    AtLeastGenesis(bs, genesis, x);
    AtOfAt(bs, genesis, tail, h, a.height);
  }

  /** A proposer on both branches above conflicting blocks has signed two blocks for its slot. */
  lemma CommonProposerSignedTwice(bs: Blocks, genesis: Block, n: nat, a: Block, tailA: Block, b: Block, tailB: Block, p: nat)
    requires n > 0 && Confirmed(bs, genesis, n, a, tailA) && Confirmed(bs, genesis, n, b, tailB)
    requires SameDynasty(n, tailA, tailB)
    requires !Ancestor(bs, genesis, a, b) && !Ancestor(bs, genesis, b, a)
    requires p in Proposers(bs, genesis, n, tailA, a.height - 1) && p in Proposers(bs, genesis, n, tailB, b.height - 1)
    ensures DoubleSlot(bs, n, DynastyIndex(n, tailA.timestamp), p)
  {
    var x := ProposerBlock(bs, genesis, n, a, tailA, p);
    var y := ProposerBlock(bs, genesis, n, b, tailB, p);
    IndicesDetermineTimestamp(n, x.timestamp, y.timestamp);
    ConflictingBlocks(bs, genesis, a, b, x, y);
  }

  lemma ConflictingBlocks(bs: Blocks, genesis: Block, a: Block, b: Block, x: Block, y: Block)
    requires Ancestor(bs, genesis, a, x) && Ancestor(bs, genesis, b, y)
    requires !Ancestor(bs, genesis, a, b) && !Ancestor(bs, genesis, b, a)
    ensures x != y
  {
    if x == y {
      if a.height <= b.height {
        AncestorsAreOrdered(bs, genesis, a, b, x);
      } else {
        AncestorsAreOrdered(bs, genesis, b, a, x);
      }
      assert false;
    }
  }

  /**
   Quorum intersection.  If two tails of one dynasty confirm blocks neither of which is an ancestor
   of the other, at least n/3 + 2 slots of that dynasty hold two different blocks.
   */
  lemma QuorumIntersection(bs: Blocks, genesis: Block, n: nat, a: Block, tailA: Block, b: Block, tailB: Block)
    requires n > 0 && n % 3 == 0
    requires Confirmed(bs, genesis, n, a, tailA) && Confirmed(bs, genesis, n, b, tailB)
    requires SameDynasty(n, tailA, tailB)
    requires !Ancestor(bs, genesis, a, b) && !Ancestor(bs, genesis, b, a)
    ensures |DoubleSlots(bs, n, DynastyIndex(n, tailA.timestamp))| >= n / 3 + 2
  {
    CommonProposersSignedTwice(bs, genesis, n, a, tailA, b, tailB);
    ConfirmationsOverlap(bs, genesis, n, a, tailA, b, tailB, DoubleSlots(bs, n, DynastyIndex(n, tailA.timestamp)));
  }

  lemma ConfirmationsOverlap(bs: Blocks, genesis: Block, n: nat, a: Block, tailA: Block, b: Block, tailB: Block,
                             common: set<nat>)
    requires n > 0 && n % 3 == 0
    requires Confirmed(bs, genesis, n, a, tailA) && Confirmed(bs, genesis, n, b, tailB)
    requires Proposers(bs, genesis, n, tailA, a.height - 1) * Proposers(bs, genesis, n, tailB, b.height - 1) <= common
    ensures |common| >= n / 3 + 2
  {
    ProposersBelow(bs, genesis, n, tailA, a.height - 1);
    ProposersBelow(bs, genesis, n, tailB, b.height - 1);
    QuorumsOverlap(n, Proposers(bs, genesis, n, tailA, a.height - 1), Proposers(bs, genesis, n, tailB, b.height - 1), common);
  }

  lemma CommonProposersSignedTwice(bs: Blocks, genesis: Block, n: nat, a: Block, tailA: Block, b: Block, tailB: Block)
    requires n > 0 && Confirmed(bs, genesis, n, a, tailA) && Confirmed(bs, genesis, n, b, tailB)
    requires SameDynasty(n, tailA, tailB)
    requires !Ancestor(bs, genesis, a, b) && !Ancestor(bs, genesis, b, a)
    ensures Proposers(bs, genesis, n, tailA, a.height - 1) * Proposers(bs, genesis, n, tailB, b.height - 1) <=
            DoubleSlots(bs, n, DynastyIndex(n, tailA.timestamp))
  {
    forall p | p in Proposers(bs, genesis, n, tailA, a.height - 1) && p in Proposers(bs, genesis, n, tailB, b.height - 1)
      ensures p in DoubleSlots(bs, n, DynastyIndex(n, tailA.timestamp))
    {
      CommonProposerSignedTwice(bs, genesis, n, a, tailA, b, tailB, p);
      ProposersBelow(bs, genesis, n, tailA, a.height - 1);
    }
  }

  // --------------------------------------------------------------------------------------------
  // Two nodes
  // --------------------------------------------------------------------------------------------

  lemma {:induction false} ProposersStay(bs: Blocks, bs': Blocks, genesis: Block, n: nat, tail: Block, above: nat)
    requires Tree(bs, genesis) && Tree(bs', genesis) && Extends(bs, bs') && On(bs, tail) && n > 0
    ensures On(bs', tail) && Proposers(bs', genesis, n, tail, above) == Proposers(bs, genesis, n, tail, above)
    decreases tail.height - above
  {
    if above < tail.height {
      AtStays(bs, bs', genesis, tail, above + 1);
      ProposersStay(bs, bs', genesis, n, tail, above + 1);
    }
  }

  lemma ConfirmedStays(bs: Blocks, bs': Blocks, genesis: Block, n: nat, b: Block, tail: Block)
    requires n > 0 && Tree(bs', genesis) && Extends(bs, bs')
    requires Confirmed(bs, genesis, n, b, tail)
    ensures Confirmed(bs', genesis, n, b, tail)
  {
    AncestorStays(bs, bs', genesis, b, tail);
    ProposersStay(bs, bs', genesis, n, tail, b.height - 1);
  }

  /**
   Agreement between nodes.  As long as fewer than n/3 + 2 slots of a dynasty hold two blocks, the
   blocks that any two nodes make irreversible with tails in that dynasty are on one branch.
   */
  lemma NodesAgree(bsA: Blocks, bsB: Blocks, genesis: Block, n: nat, a: Block, tailA: Block, b: Block, tailB: Block)
    requires n > 0 && n % 3 == 0
    requires forall h :: h in bsA && h in bsB ==> bsA[h] == bsB[h]
    requires Confirmed(bsA, genesis, n, a, tailA) && Confirmed(bsB, genesis, n, b, tailB)
    requires SameDynasty(n, tailA, tailB)
    requires |DoubleSlots(bsA + bsB, n, DynastyIndex(n, tailA.timestamp))| < n / 3 + 2
    ensures Ancestor(bsA + bsB, genesis, a, b) || Ancestor(bsA + bsB, genesis, b, a)
  {
    var bs := bsA + bsB;
    TreesJoin(bsA, bsB, genesis);
    ConfirmedStays(bsA, bs, genesis, n, a, tailA);
    ConfirmedStays(bsB, bs, genesis, n, b, tailB);
    if !Ancestor(bs, genesis, a, b) && !Ancestor(bs, genesis, b, a) {
      QuorumIntersection(bs, genesis, n, a, tailA, b, tailB);
    }
  }
}
