/** Whole runs of a node: whatever blocks come in and whenever the chain manager is triggered. */
module ChainRuns {
  import opened BlockTree
  import opened BlockChains

  /**
   What can happen to a node: a block is received, which may or may not execute; a block made by the
   node itself is pushed without further checks; the chain manager is triggered.
   */
  datatype Event = Receive(block: Block, executes: bool) | Push(block: Block) | Trigger(rearranges: bool)

  /** Hashes are injective: the world tells for each hash the one block that has it. */
  type World = Hash -> Block

  /** A block made by the node itself follows the block it is made on. */
  ghost predicate Possible(world: World, e: Event) {
    match e
    case Receive(b, _) => world(b.hash) == b
    case Push(b) => world(b.hash) == b && Follows(b, world(b.parentHash))
    case Trigger(_) => true
  }

  ghost predicate AllPossible(world: World, events: seq<Event>) {
    forall k :: 0 <= k < |events| ==> Possible(world, events[k])
  }

  ghost function Start(genesis: Block): Snapshot {
    Snapshot(map[genesis.hash := genesis], genesis, genesis, map[genesis.hash := genesis])
  }

  ghost predicate TailsKnown(s: Snapshot) {
    forall h :: h in s.tails ==> h in s.blocks && s.tails[h] == s.blocks[h]
  }

  /** A received block is new, and follows a stored block that descends from the LIB. */
  ghost predicate Acceptable(genesis: Block, s: Snapshot, b: Block) {
    && b.hash !in s.blocks && b.parentHash in s.blocks
    && Follows(b, s.blocks[b.parentHash]) && Ancestor(s.blocks, genesis, s.lib, s.blocks[b.parentHash])
  }

  /** A block is stored and becomes a tail; nothing else becomes one. */
  ghost predicate Stored(s: Snapshot, b: Block, t: Snapshot) {
    && t.tail == s.tail && t.lib == s.lib && t.blocks == s.blocks[b.hash := b]
    && b.hash in t.tails && t.tails.Keys <= s.tails.Keys + {b.hash}
  }

  /** The main tail moves to a higher one, and the tails that a move of the LIB drops are dropped. */
  ghost predicate Managed(genesis: Block, s: Snapshot, t: Snapshot) {
    && t.blocks == s.blocks
    && (forall h :: h in s.tails && Ancestor(s.blocks, genesis, s.lib, s.tails[h]) ==> s.tails[h].height <= t.tail.height)
    && (t.lib == s.lib ==> t.tails == s.tails)
    && (t.lib != s.lib ==> forall h :: h in t.tails <==>
          h in s.tails && (Ancestor(t.blocks, genesis, t.lib, s.tails[h]) || s.tails[h].height > t.tail.height))
  }

  /** What an event did to a node. */
  ghost predicate Did(genesis: Block, n: nat, s: Snapshot, e: Event, t: Snapshot) {
    && n > 0 && Advances(genesis, s, t) && TailsKnown(t)
    && (t.lib != s.lib ==> Confirmed(t.blocks, genesis, n, t.lib, t.tail))
    && (t.tail == s.tail || t.tail.height > s.tail.height)
    && match e
       case Receive(b, executes) =>
         if executes && Acceptable(genesis, s, b) then Stored(s, b, t) && Ancestor(t.blocks, genesis, t.lib, b)
         else t == s
       case Push(b) =>
         if b.parentHash in s.blocks then Stored(s, b, t) && Follows(b, s.blocks[b.parentHash]) else t == s
       case Trigger(rearranges) =>
         && Managed(genesis, s, t)
         && (t.tail != s.tail && rearranges ==> NoneConfirmed(t.blocks, genesis, n, t.tail, t.lib.height))
  }

  ghost predicate StepAt(genesis: Block, n: nat, events: seq<Event>, run: seq<Snapshot>, k: nat) {
    k < |events| && k + 1 < |run| && Did(genesis, n, run[k], events[k], run[k + 1])
  }

  ghost predicate Began(genesis: Block, n: nat, events: seq<Event>, run: seq<Snapshot>) {
    && 0 < |run| <= |events| + 1 && run[0] == Start(genesis)
    && forall k :: 0 <= k < |run| - 1 ==> StepAt(genesis, n, events, run, k)
  }

  ghost predicate IsRun(genesis: Block, n: nat, events: seq<Event>, run: seq<Snapshot>) {
    |run| == |events| + 1 && Began(genesis, n, events, run)
  }

  lemma WentOn(genesis: Block, n: nat, events: seq<Event>, run: seq<Snapshot>, t: Snapshot)
    requires Began(genesis, n, events, run) && |run| <= |events| && Did(genesis, n, run[|run| - 1], events[|run| - 1], t)
    ensures Began(genesis, n, events, run + [t])
  {
    forall k | 0 <= k < |run|
      ensures StepAt(genesis, n, events, run + [t], k)
    {
      assert k < |run| - 1 ==> StepAt(genesis, n, events, run, k);
    }
  }

  // --------------------------------------------------------------------------------------------
  // The node
  // --------------------------------------------------------------------------------------------

  ghost predicate Knows(world: World, bs: Blocks) {
    forall h :: h in bs ==> bs[h] == world(h)
  }

  method Handle(bc: BlockChain, n: nat, e: Event, ghost world: World)
    requires bc.Valid() && n > 0 && Knows(world, bc.blocks) && Possible(world, e)
    modifies bc
    ensures bc.Valid() && Knows(world, bc.blocks) && Did(bc.genesis, n, old(bc.Snap()), e, bc.Snap())
  {
    match e
    case Receive(b, executes) =>
      var _ := bc.ProcessTask(b, executes);
    case Push(b) =>
      DirectPush(bc, n, b, world);
    case Trigger(rearranges) =>
      var _ := bc.ManageChain(n, rearranges);
  }

  /** Stores a block made by the node itself, if its parent is stored. */
  method DirectPush(bc: BlockChain, ghost n: nat, b: Block, ghost world: World)
    requires n > 0 && bc.Valid() && Knows(world, bc.blocks) && Possible(world, Push(b))
    modifies bc
    ensures bc.Valid() && Knows(world, bc.blocks) && Did(bc.genesis, n, old(bc.Snap()), Push(b), bc.Snap())
  {
    if b.parentHash !in bc.blocks {
      Unmoved(bc.genesis, bc.Snap());
      return;
    }
    var _ := bc.PutVerifiedNewBlock(bc.blocks[b.parentHash], b);
  }

  /** Every sequence of events that a new node goes through is a run. */
  method RunNode(genesis: Block, tailSize: nat, n: nat, events: seq<Event>, ghost world: World)
    returns (bc: BlockChain, ghost run: seq<Snapshot>)
    requires genesis.height == GENESIS_HEIGHT && genesis.timestamp == GENESIS_TIMESTAMP && tailSize > 0 && n > 0
    requires world(genesis.hash) == genesis && AllPossible(world, events)
    ensures fresh(bc) && bc.Valid() && bc.genesis == genesis && Knows(world, bc.blocks)
    ensures IsRun(genesis, n, events, run) && run[|events|] == bc.Snap()
  {
    bc := new BlockChain(genesis, tailSize);
    run := [bc.Snap()];
    for i := 0 to |events|
      invariant fresh(bc) && bc.Valid() && bc.genesis == genesis && Knows(world, bc.blocks)
      invariant |run| == i + 1 && Began(genesis, n, events, run) && run[i] == bc.Snap()
    {
      run := GoOn(bc, n, events, i, world, run);
    }
  }

  /** The next event of a run. */
  method GoOn(bc: BlockChain, n: nat, events: seq<Event>, i: nat, ghost world: World, ghost run: seq<Snapshot>)
    returns (ghost run': seq<Snapshot>)
    requires bc.Valid() && n > 0 && Knows(world, bc.blocks) && AllPossible(world, events)
    requires Began(bc.genesis, n, events, run) && |run| == i + 1 <= |events| && run[i] == bc.Snap()
    modifies bc
    ensures bc.Valid() && Knows(world, bc.blocks)
    ensures Began(bc.genesis, n, events, run') && |run'| == i + 2 && run'[i + 1] == bc.Snap()
  {
    assert Possible(world, events[i]);
    Handle(bc, n, events[i], world);
    WentOn(bc.genesis, n, events, run, bc.Snap());
    run' := run + [bc.Snap()];
  }

  // --------------------------------------------------------------------------------------------
  // Finality
  // --------------------------------------------------------------------------------------------

  lemma {:induction false} RunAdvances(genesis: Block, n: nat, events: seq<Event>, run: seq<Snapshot>, i: nat, j: nat)
    requires IsRun(genesis, n, events, run) && i < j < |run|
    ensures Advances(genesis, run[i], run[j])
    ensures run[j].tail == run[i].tail || run[j].tail.height > run[i].tail.height
    decreases j
  {
    assert StepAt(genesis, n, events, run, j - 1);
    if i < j - 1 {
      RunAdvances(genesis, n, events, run, i, j - 1);
      AdvancesTransitive(genesis, run[i], run[j - 1], run[j]);
    }
  }

  /**
   Finality: once a block is at or below the LIB it is on the main chain at every later point of
   the run, so no later switch of the tail reverts it.
   */
  lemma Finality(genesis: Block, n: nat, events: seq<Event>, run: seq<Snapshot>, i: nat, j: nat, b: Block)
    requires IsRun(genesis, n, events, run) && i < j < |run|
    requires Ancestor(run[i].blocks, genesis, b, run[i].lib)
    ensures Ancestor(run[j].blocks, genesis, b, run[j].lib) && Ancestor(run[j].blocks, genesis, b, run[j].tail)
  {
    RunAdvances(genesis, n, events, run, i, j);
    var bs := run[j].blocks;
    AncestorStays(run[i].blocks, bs, genesis, b, run[i].lib);
    AncestorTransitive(bs, genesis, b, run[i].lib, run[j].lib);
    AncestorTransitive(bs, genesis, b, run[j].lib, run[j].tail);
  }

  // --------------------------------------------------------------------------------------------
  // Tails
  // --------------------------------------------------------------------------------------------

  ghost predicate Descends(genesis: Block, s: Snapshot, b: Block) {
    Ancestor(s.blocks, genesis, s.lib, b)
  }

  /** No tail that is forked before the LIB is above the main tail. */
  ghost predicate NoneAbove(genesis: Block, s: Snapshot) {
    forall h :: h in s.tails ==> Descends(genesis, s, s.tails[h]) || s.tails[h].height <= s.tail.height
  }

  ghost predicate AllDescend(genesis: Block, s: Snapshot) {
    forall h :: h in s.tails ==> Descends(genesis, s, s.tails[h])
  }

  lemma StoredKeepsOthers(genesis: Block, s: Snapshot, b: Block, t: Snapshot, h: Hash)
    requires Advances(genesis, s, t) && TailsKnown(s) && TailsKnown(t) && Stored(s, b, t) && h in t.tails && h != b.hash
    ensures h in s.tails && t.tails[h] == s.tails[h] && (Descends(genesis, t, t.tails[h]) <==> Descends(genesis, s, s.tails[h]))
  {
    AncestorStays(s.blocks, t.blocks, genesis, s.lib, s.tails[h]);
  }

  /** Storing a block keeps forked tails below the main tail exactly if the block itself is not one above it. */
  lemma StoredKeepsNoneAboveIff(genesis: Block, s: Snapshot, b: Block, t: Snapshot)
    requires Advances(genesis, s, t) && TailsKnown(s) && TailsKnown(t) && Stored(s, b, t) && NoneAbove(genesis, s)
    ensures NoneAbove(genesis, t) <==> Descends(genesis, t, b) || b.height <= t.tail.height
  {
    assert t.tails[b.hash] == b;
    forall h | h in t.tails && h != b.hash
      ensures Descends(genesis, t, t.tails[h]) || t.tails[h].height <= t.tail.height
    {
      StoredKeepsOthers(genesis, s, b, t, h);
    }
  }

  /** A round of the chain manager keeps them below; if it moves the LIB, it drops every forked tail. */
  lemma ManagedDropsForked(genesis: Block, s: Snapshot, t: Snapshot)
    requires Advances(genesis, s, t) && TailsKnown(s) && TailsKnown(t) && Managed(genesis, s, t) && NoneAbove(genesis, s)
    requires t.tail == s.tail || t.tail.height > s.tail.height
    ensures NoneAbove(genesis, t)
    ensures t.lib != s.lib ==> AllDescend(genesis, t)
  {
    forall h | h in t.tails
      ensures t.tails[h] == s.tails[h] && s.tails[h].height <= t.tail.height
      ensures t.lib != s.lib ==> Descends(genesis, t, t.tails[h])
    {
      assert h in s.tails;
      assert Descends(genesis, s, s.tails[h]) || s.tails[h].height <= s.tail.height;
    }
  }

  /** Every block that the node makes is made on a block that was its main tail at some point. */
  ghost predicate MadeOnTails(events: seq<Event>, run: seq<Snapshot>) {
    forall k :: 0 <= k < |events| < |run| && events[k].Push? ==> MadeOnTail(run, k, events[k].block)
  }

  ghost predicate MadeOnTail(run: seq<Snapshot>, k: nat, b: Block) {
    exists i :: 0 <= i <= k && i < |run| && run[i].tail.hash == b.parentHash
  }

  /** A block made on an earlier main tail descends from the LIB or is not above the main tail. */
  lemma MadeBlockIsNotAbove(genesis: Block, n: nat, events: seq<Event>, run: seq<Snapshot>, k: nat, b: Block)
    requires IsRun(genesis, n, events, run) && k < |events| && events[k] == Push(b) && b.parentHash in run[k].blocks
    requires MadeOnTail(run, k, b)
    ensures Descends(genesis, run[k + 1], b) || b.height <= run[k + 1].tail.height
  {
    var i :| 0 <= i <= k && i < |run| && run[i].tail.hash == b.parentHash;
    assert StepAt(genesis, n, events, run, k);
    var s, t := run[k], run[k + 1];
    if i < k {
      RunAdvances(genesis, n, events, run, i, k);
    }
    var parent := s.blocks[b.parentHash];
    assert parent == run[i].tail;
    if parent == s.tail {
      AncestorStays(s.blocks, t.blocks, genesis, s.lib, parent);
      ChildDescends(t.blocks, genesis, t.lib, parent, b);
    }
  }

  lemma ChildDescends(bs: Blocks, genesis: Block, a: Block, parent: Block, b: Block)
    requires Tree(bs, genesis) && On(bs, b) && On(bs, parent) && Follows(b, parent) && Ancestor(bs, genesis, a, parent)
    ensures Ancestor(bs, genesis, a, b)
  {
    AtLeastGenesis(bs, genesis, parent);
    assert At(bs, genesis, b, a.height) == At(bs, genesis, parent, a.height);
  }

  /**
   In every run in which the node makes its blocks on its own main tails, no forked tail is ever
   above the main tail, and each move of the LIB leaves only tails that descend from it.
   */
  lemma {:induction false} ForkedTailsAreDropped(genesis: Block, n: nat, events: seq<Event>, run: seq<Snapshot>, j: nat)
    requires IsRun(genesis, n, events, run) && MadeOnTails(events, run) && j < |run|
    requires genesis.height == GENESIS_HEIGHT && genesis.timestamp == GENESIS_TIMESTAMP
    ensures NoneAbove(genesis, run[j]) && TailsKnown(run[j])
    ensures j > 0 && run[j].lib != run[j - 1].lib ==> AllDescend(genesis, run[j])
  {
    if j > 0 {
      var s, e, t := run[j - 1], events[j - 1], run[j];
      ForkedTailsAreDropped(genesis, n, events, run, j - 1);
      assert StepAt(genesis, n, events, run, j - 1);
      match e
      case Receive(b, _) =>
        if t != s {
          StoredKeepsNoneAboveIff(genesis, s, b, t);
        }
      case Push(b) =>
        if b.parentHash in s.blocks {
          MadeBlockIsNotAbove(genesis, n, events, run, j - 1, b);
          StoredKeepsNoneAboveIff(genesis, s, b, t);
        }
      case Trigger(_) =>
        ManagedDropsForked(genesis, s, t);
    }
  }
}
