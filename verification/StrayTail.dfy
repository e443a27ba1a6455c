/**
 A run in which a forked tail survives a move of the LIB: the node is handed blocks of its own making
 that are made on a branch which has been given up.
 */
module StrayTail {
  import opened BlockTree
  import opened BlockChains

  const GENESIS := Block(1, 0, 1, 0)

  const DYNASTY_SIZE := 3

  /** The main branch, with a block in each slot from the second dynasty on. */
  function A(h: nat): Block {
    if h <= 1 then GENESIS else Block(h, h - 1, h, 3 * (h + 1))
  }

  /** The other branch, from genesis on. */
  function B(h: nat): Block {
    if h <= 1 then GENESIS else Block(10 + h, if h == 2 then 1 else 9 + h, h, 3 * (h - 1))
  }

  /** A node that knows the two branches up to the given heights and nothing else. */
  ghost predicate Knows(bs: Blocks, a: nat, b: nat) {
    && Tree(bs, GENESIS) && 1 <= a <= 7 && 1 <= b <= 8
    && (forall h: nat :: 1 <= h <= a ==> On(bs, A(h)))
    && (forall h: nat :: 1 <= h <= b ==> On(bs, B(h)))
    && forall h :: h in bs ==> h <= a || 12 <= h <= 10 + b
  }

  lemma {:induction false} AtA(bs: Blocks, a: nat, b: nat, h: nat, k: nat)
    requires Knows(bs, a, b) && 1 <= h <= k <= a
    ensures At(bs, GENESIS, A(k), h) == A(h)
    decreases k
  {
    if h < k {
      assert On(bs, A(k - 1));
      AtA(bs, a, b, h, k - 1);
    }
  }

  lemma {:induction false} AtB(bs: Blocks, a: nat, b: nat, h: nat, k: nat)
    requires Knows(bs, a, b) && 1 <= h <= k <= b
    ensures At(bs, GENESIS, B(k), h) == B(h)
    decreases k
  {
    if h < k {
      assert On(bs, B(k - 1));
      AtB(bs, a, b, h, k - 1);
    }
  }

  /** The other branch is forked before every block of the main branch above genesis. */
  lemma Forked(bs: Blocks, a: nat, b: nat, lib: Block)
    requires Knows(bs, a, b) && Ancestor(bs, GENESIS, lib, A(a)) && lib.height > 1
    ensures !Ancestor(bs, GENESIS, lib, B(b))
  {
    AtA(bs, a, b, lib.height, a);
    if lib.height <= b {
      AtB(bs, a, b, lib.height, b);
    }
  }

  /** Three blocks in the slots of a dynasty confirm the first of them. */
  lemma FirstIsConfirmed(bs: Blocks, a: nat, b: nat, h: nat)
    requires Knows(bs, a, b) && h + 2 == a && (h == 2 || h == 5)
    ensures Confirmed(bs, GENESIS, DYNASTY_SIZE, A(h), A(a))
  {
    AtA(bs, a, b, h, a);
    assert A(h).timestamp == 9 || A(h).timestamp == 18;
    assert A(a).timestamp == A(h).timestamp + 6;
    ProposersCountBlocks(bs, GENESIS, DYNASTY_SIZE, A(a), h);
  }

  /** The two tips are the tails. */
  ghost predicate Tips(tails: Blocks, a: nat, b: nat) {
    tails == (if b > 1 then map[a := A(a), 10 + b := B(b)] else map[a := A(a)])
  }

  lemma AFollows(bs: Blocks, a: nat, b: nat)
    requires Knows(bs, a, b) && a < 7
    ensures A(a + 1).hash !in bs && Follows(A(a + 1), A(a))
  {
  }

  lemma AIsKnown(bs: Blocks, a: nat, b: nat)
    requires Knows(bs, a, b) && a < 7
    ensures var next := A(a + 1);
            Tree(bs[next.hash := next], GENESIS) ==> Knows(bs[next.hash := next], a + 1, b)
  {
    var next := A(a + 1);
    assert forall h: nat :: 1 <= h <= a ==> A(h).hash != next.hash || A(h) == next;
    assert forall h: nat :: 1 <= h <= b ==> B(h).hash != next.hash || B(h) == next;
  }

  lemma AIsTip(tails: Blocks, a: nat, b: nat)
    requires Tips(tails, a, b) && 1 <= a <= 7 && 1 <= b <= 8 && a < 7
    ensures |tails| < 3 && Tips(tails[A(a + 1).hash := A(a + 1)] - {A(a).hash}, a + 1, b)
  {
    OneTip(a, A(a), a + 1, A(a + 1));
    TwoTips(a, A(a), a + 1, A(a + 1), 10 + b, B(b));
  }

  lemma OneTip(x: Hash, before: Block, y: Hash, next: Block)
    requires x != y
    ensures map[x := before][y := next] - {x} == map[y := next] && |map[x := before]| < 3
  {
  }

  lemma TwoTips(x: Hash, before: Block, y: Hash, next: Block, z: Hash, other: Block)
    requires x != y && x != z && y != z
    ensures map[x := before, z := other][y := next] - {x} == map[y := next, z := other] && |map[x := before, z := other]| < 3
  {
  }

  lemma BFollows(bs: Blocks, a: nat, b: nat)
    requires Knows(bs, a, b) && 1 < a && b < 8
    ensures B(b + 1).hash !in bs && Follows(B(b + 1), B(b))
  {
  }

  lemma BIsKnown(bs: Blocks, a: nat, b: nat)
    requires Knows(bs, a, b) && 1 < a && b < 8
    ensures var next := B(b + 1);
            Tree(bs[next.hash := next], GENESIS) ==> Knows(bs[next.hash := next], a, b + 1)
  {
    var next := B(b + 1);
    assert forall h: nat :: 1 <= h <= a ==> A(h).hash != next.hash || A(h) == next;
    assert forall h: nat :: 1 <= h <= b ==> B(h).hash != next.hash || B(h) == next;
  }

  lemma BIsTip(tails: Blocks, a: nat, b: nat)
    requires Tips(tails, a, b) && 1 <= a <= 7 && 1 <= b <= 8 && 1 < a && b < 8
    ensures |tails| < 3 && Tips(tails[B(b + 1).hash := B(b + 1)] - {B(b).hash}, a, b + 1)
  {
  }

  lemma NextOfA(bs: Blocks, tails: Blocks, a: nat, b: nat)
    requires Knows(bs, a, b) && Tips(tails, a, b) && a < 7
    ensures A(a + 1).hash !in bs && Follows(A(a + 1), A(a)) && |tails| < 3
    ensures var next := A(a + 1);
            && (Tree(bs[next.hash := next], GENESIS) ==> Knows(bs[next.hash := next], a + 1, b))
            && Tips(tails[next.hash := next] - {A(a).hash}, a + 1, b)
  {
    AFollows(bs, a, b);
    AIsKnown(bs, a, b);
    AIsTip(tails, a, b);
  }

  lemma NextOfB(bs: Blocks, tails: Blocks, a: nat, b: nat)
    requires Knows(bs, a, b) && Tips(tails, a, b) && 1 < a && b < 8
    ensures B(b + 1).hash !in bs && Follows(B(b + 1), B(b)) && |tails| < 3
    ensures var next := B(b + 1);
            && (Tree(bs[next.hash := next], GENESIS) ==> Knows(bs[next.hash := next], a, b + 1))
            && Tips(tails[next.hash := next] - {B(b).hash}, a, b + 1)
  {
    BFollows(bs, a, b);
    BIsKnown(bs, a, b);
    BIsTip(tails, a, b);
  }

  ghost predicate Stands(bc: BlockChain, a: nat, b: nat)
    reads bc
  {
    && bc.Valid() && bc.genesis == GENESIS && bc.tailSize >= 3
    && Knows(bc.blocks, a, b) && Tips(bc.tails, a, b) && Ancestor(bc.blocks, GENESIS, bc.lib, A(a))
  }

  /** A block on top of a tail that descends from the LIB is received. */
  method ReceiveOn(bc: BlockChain, parent: Block, b: Block)
    requires bc.Valid() && On(bc.blocks, parent) && Follows(b, parent) && b.hash !in bc.blocks
    requires Ancestor(bc.blocks, bc.genesis, bc.lib, parent) && |bc.tails| < bc.tailSize
    modifies bc
    ensures bc.Valid() && bc.mainTail == old(bc.mainTail) && bc.lib == old(bc.lib)
    ensures bc.blocks == old(bc.blocks)[b.hash := b] && bc.tails == old(bc.tails)[b.hash := b] - {parent.hash}
    ensures Ancestor(bc.blocks, bc.genesis, bc.lib, b)
  {
    var _ := bc.ProcessTask(b, true);
  }

  /** The chain manager switches to the one tail that descends from the LIB; the others stay. */
  method ManageOnto(bc: BlockChain, top: Block, ghost first: Block)
    requires bc.Valid() && top.height > bc.mainTail.height
    requires top.hash in bc.tails && bc.tails[top.hash] == top && Ancestor(bc.blocks, bc.genesis, bc.lib, top)
    requires forall h :: h in bc.tails && h != top.hash ==>
               !Ancestor(bc.blocks, bc.genesis, bc.lib, bc.tails[h]) && bc.tails[h].height > top.height
    requires Confirmed(bc.blocks, bc.genesis, DYNASTY_SIZE, first, top)
    modifies bc
    ensures bc.Valid() && bc.blocks == old(bc.blocks) && bc.tails == old(bc.tails)
    ensures bc.mainTail == top && bc.lib.height >= first.height
  {
    var _ := bc.ManageChain(DYNASTY_SIZE, true);
    assert bc.mainTail == top;
  }

  /** Receives the next block of the main branch. */
  method Receive(bc: BlockChain, a: nat, ghost b: nat)
    requires Stands(bc, a, b) && a < 7
    modifies bc
    ensures Stands(bc, a + 1, b) && bc.mainTail == old(bc.mainTail) && bc.lib == old(bc.lib)
  {
    NextOfA(bc.blocks, bc.tails, a, b);
    assert On(bc.blocks, A(a));
    ReceiveOn(bc, A(a), A(a + 1));
  }

  /** Pushes the next block of the other branch as one made by the node. */
  method Push(bc: BlockChain, ghost a: nat, b: nat)
    requires Stands(bc, a, b) && b < 8 && a > 1
    modifies bc
    ensures Stands(bc, a, b + 1) && bc.mainTail == old(bc.mainTail) && bc.lib == old(bc.lib)
  {
    NextOfB(bc.blocks, bc.tails, a, b);
    assert On(bc.blocks, A(a)) && On(bc.blocks, B(b));
    var _ := bc.PutVerifiedNewBlock(B(b), B(b + 1));
    AncestorStays(old(bc.blocks), bc.blocks, GENESIS, bc.lib, A(a));
  }

  /** Lets the chain manager run once the main branch has filled a dynasty. */
  method Trigger(bc: BlockChain, a: nat, ghost b: nat)
    requires Stands(bc, a, b) && (a == 4 || a == 7) && bc.mainTail.height < a
    requires b > 1 ==> !Ancestor(bc.blocks, GENESIS, bc.lib, B(b)) && b > a
    modifies bc
    ensures Stands(bc, a, b) && bc.mainTail == A(a) && bc.lib.height >= a - 2
  {
    FirstIsConfirmed(bc.blocks, a, b, a - 2);
    ManageOnto(bc, A(a), A(a - 2));
  }

  /** The forked branch is a tail above the main tail, and stays one when the LIB moves. */
  method ForkedTailCanStay() returns (bc: BlockChain)
    ensures bc.Valid() && bc.mainTail == A(7) && bc.lib.height > 4
    ensures B(8).hash in bc.tails && bc.tails[B(8).hash] == B(8)
    ensures !Ancestor(bc.blocks, GENESIS, bc.lib, B(8)) && B(8).height > bc.mainTail.height
  {
    bc := new BlockChain(GENESIS, 8);
    AncestorsAreOrdered(bc.blocks, GENESIS, GENESIS, GENESIS, GENESIS);
    for a := 1 to 4
      invariant fresh(bc) && Stands(bc, a, 1) && bc.mainTail == GENESIS
    {
      Receive(bc, a, 1);
    }
    Trigger(bc, 4, 1);
    for b := 1 to 8
      invariant fresh(bc) && Stands(bc, 4, b) && bc.mainTail == A(4) && bc.lib.height >= 2
    {
      Push(bc, 4, b);
    }
    for a := 4 to 7
      invariant fresh(bc) && Stands(bc, a, 8) && bc.mainTail == A(4) && bc.lib.height >= 2
    {
      Receive(bc, a, 8);
    }
    Forked(bc.blocks, 7, 8, bc.lib);
    Trigger(bc, 7, 8);
    Forked(bc.blocks, 7, 8, bc.lib);
  }
}
