/** Runs of two nodes: when what they hold irreversible is on one branch, and when it need not be. */
module TwoNodes {
  import opened BlockTree
  import opened Slots
  import opened BlockChains
  import opened ChainRuns
  import opened Quorum

  /** The LIB moves at the k-th event of a run. */
  ghost predicate MovesAt(run: seq<Snapshot>, k: nat) {
    k + 1 < |run| && run[k + 1].lib != run[k].lib
  }

  lemma KnewBefore(world: World, genesis: Block, n: nat, events: seq<Event>, run: seq<Snapshot>, k: nat)
    requires IsRun(genesis, n, events, run) && k < |run| && Knows(world, run[|events|].blocks)
    ensures Knows(world, run[k].blocks)
  {
    if k < |events| {
      RunAdvances(genesis, n, events, run, k, |events|);
    }
  }

  /**
   Agreement between runs: the blocks that two nodes make irreversible, at whatever point of their
   runs, on tails of one dynasty are on one branch, unless n/3 + 2 slots of that dynasty hold two
   blocks.
   */
  lemma RunsAgree(world: World, genesis: Block, n: nat, eventsA: seq<Event>, runA: seq<Snapshot>, i: nat,
                  eventsB: seq<Event>, runB: seq<Snapshot>, j: nat)
    requires IsRun(genesis, n, eventsA, runA) && IsRun(genesis, n, eventsB, runB) && n > 0 && n % 3 == 0
    requires Knows(world, runA[|eventsA|].blocks) && Knows(world, runB[|eventsB|].blocks)
    requires MovesAt(runA, i) && MovesAt(runB, j) && SameDynasty(n, runA[i + 1].tail, runB[j + 1].tail)
    ensures var bs, a, b := runA[i + 1].blocks + runB[j + 1].blocks, runA[i + 1].lib, runB[j + 1].lib;
            || Ancestor(bs, genesis, a, b) || Ancestor(bs, genesis, b, a)
            || |DoubleSlots(bs, n, DynastyIndex(n, runA[i + 1].tail.timestamp))| >= n / 3 + 2
  {
    KnewBefore(world, genesis, n, eventsA, runA, i + 1);
    KnewBefore(world, genesis, n, eventsB, runB, j + 1);
    ConfirmedWhenMoved(genesis, n, eventsA, runA, i);
    ConfirmedWhenMoved(genesis, n, eventsB, runB, j);
    SnapshotsAgree(world, genesis, n, runA[i + 1], runB[j + 1]);
  }

  lemma ConfirmedWhenMoved(genesis: Block, n: nat, events: seq<Event>, run: seq<Snapshot>, k: nat)
    requires IsRun(genesis, n, events, run) && n > 0 && MovesAt(run, k)
    ensures Confirmed(run[k + 1].blocks, genesis, n, run[k + 1].lib, run[k + 1].tail)
  {
    assert StepAt(genesis, n, events, run, k);
  }

  lemma SnapshotsAgree(world: World, genesis: Block, n: nat, s: Snapshot, t: Snapshot)
    requires n > 0 && n % 3 == 0 && Knows(world, s.blocks) && Knows(world, t.blocks) && SameDynasty(n, s.tail, t.tail)
    requires Confirmed(s.blocks, genesis, n, s.lib, s.tail) && Confirmed(t.blocks, genesis, n, t.lib, t.tail)
    ensures var bs := s.blocks + t.blocks;
            || Ancestor(bs, genesis, s.lib, t.lib) || Ancestor(bs, genesis, t.lib, s.lib)
            || |DoubleSlots(bs, n, DynastyIndex(n, s.tail.timestamp))| >= n / 3 + 2
  {
    if |DoubleSlots(s.blocks + t.blocks, n, DynastyIndex(n, s.tail.timestamp))| < n / 3 + 2 {
      NodesAgree(s.blocks, t.blocks, genesis, n, s.lib, s.tail, t.lib, t.tail);
    }
  }

  // --------------------------------------------------------------------------------------------
  // Two nodes that hold conflicting blocks irreversible without a slot with two blocks
  // --------------------------------------------------------------------------------------------

  const GENESIS := Block(1, 0, 1, 0)
  const SIZE := 3

  /** A branch of three blocks on top of genesis, with its own hashes and slots. */
  function Line(o: nat, ts: nat, h: nat): Block {
    if h <= 1 then GENESIS else Block(o + h, if h == 2 then 1 else o + h - 1, h, ts + 3 * (h - 2))
  }

  function LineBlocks(o: nat, ts: nat, k: nat): Blocks {
    if k <= 1 then map[1 := GENESIS] else LineBlocks(o, ts, k - 1)[o + k := Line(o, ts, k)]
  }

  function Events(o: nat, ts: nat): seq<Event> {
    [Receive(Line(o, ts, 2), true), Receive(Line(o, ts, 3), true), Receive(Line(o, ts, 4), true), Trigger(true)]
  }

  function TwoLines(h: Hash): Block {
    if 12 <= h <= 14 then Line(10, 9, h - 10) else if 22 <= h <= 24 then Line(20, 18, h - 20) else GENESIS
  }

  /** One branch fills the second dynasty, the other one the third. */
  ghost predicate IsLine(o: nat, ts: nat) {
    (o == 10 && ts == 9) || (o == 20 && ts == 18)
  }

  lemma OnLine(o: nat, ts: nat, k: nat, h: Hash)
    requires IsLine(o, ts) && 1 <= k <= 4
    ensures h in LineBlocks(o, ts, k) <==> h == 1 || o + 2 <= h <= o + k
    ensures h in LineBlocks(o, ts, k) ==> LineBlocks(o, ts, k)[h] == if h == 1 then GENESIS else Line(o, ts, h - o)
  {
  }

  /** A node that has received a branch up to a height, and has not been triggered yet. */
  ghost predicate Has(o: nat, ts: nat, k: nat, s: Snapshot) {
    && 1 <= k <= 4 && s.blocks == LineBlocks(o, ts, k) && s.tail == GENESIS && s.lib == GENESIS
    && Line(o, ts, k).hash in s.tails
  }

  /** Genesis is below every block. */
  lemma Root(bs: Blocks, genesis: Block, b: Block)
    requires Tree(bs, genesis) && On(bs, b)
    ensures Ancestor(bs, genesis, genesis, b)
  {
    AtLeastGenesis(bs, genesis, b);
    AtLeastGenesis(bs, genesis, At(bs, genesis, b, GENESIS_HEIGHT));
  }

  lemma Receives(o: nat, ts: nat, k: nat, s: Snapshot, t: Snapshot)
    requires IsLine(o, ts) && k < 4 && Has(o, ts, k, s) && Did(GENESIS, SIZE, s, Receive(Line(o, ts, k + 1), true), t)
    ensures Has(o, ts, k + 1, t)
  {
    var b := Line(o, ts, k + 1);
    OnLine(o, ts, k, b.hash);
    OnLine(o, ts, k, b.parentHash);
    Root(s.blocks, GENESIS, s.blocks[b.parentHash]);
    assert Acceptable(GENESIS, s, b);
  }

  /** The three blocks of a dynasty confirm the first of them. */
  lemma FirstIsConfirmed(o: nat, ts: nat, bs: Blocks)
    requires IsLine(o, ts) && Tree(bs, GENESIS) && bs == LineBlocks(o, ts, 4)
    ensures On(bs, Line(o, ts, 4)) && At(bs, GENESIS, Line(o, ts, 4), 2) == Line(o, ts, 2)
    ensures Confirmed(bs, GENESIS, SIZE, Line(o, ts, 2), Line(o, ts, 4))
  {
    var top := Line(o, ts, 4);
    OnLine(o, ts, 4, top.hash);
    OnlyBlockAt(o, ts, bs, At(bs, GENESIS, top, 2));
    OneDynasty(ts);
    ProposersCountBlocks(bs, GENESIS, SIZE, top, 2);
  }

  lemma OneDynasty(ts: nat)
    requires ts == 9 || ts == 18
    ensures DynastyIndex(SIZE, ts) == DynastyIndex(SIZE, ts + 6)
  {
    DynastyIndexOfSlot(SIZE, ts);
    DynastyIndexOfSlot(SIZE, ts + 6);
  }

  lemma OnlyBlockAt(o: nat, ts: nat, bs: Blocks, b: Block)
    requires IsLine(o, ts) && bs == LineBlocks(o, ts, 4) && On(bs, b)
    ensures 1 <= b.height <= 4 && b == Line(o, ts, b.height)
  {
    OnLine(o, ts, 4, b.hash);
  }

  lemma NotBelow(bs: Blocks, genesis: Block, n: nat, tail: Block, h: nat, above: nat)
    requires Tree(bs, genesis) && On(bs, tail) && n > 0 && GENESIS_HEIGHT <= h <= tail.height
    requires Confirmed(bs, genesis, n, At(bs, genesis, tail, h), tail) && NoneConfirmed(bs, genesis, n, tail, above)
    ensures h <= above
  {
  }

  lemma Switches(o: nat, ts: nat, s: Snapshot, t: Snapshot)
    requires IsLine(o, ts) && Has(o, ts, 4, s) && TailsKnown(s) && Did(GENESIS, SIZE, s, Trigger(true), t)
    ensures t.blocks == s.blocks && Tree(t.blocks, GENESIS) && t.tail == Line(o, ts, 4) && On(t.blocks, t.lib)
    ensures NoneConfirmed(t.blocks, GENESIS, SIZE, t.tail, t.lib.height)
  {
    var top := Line(o, ts, 4);
    assert s.tails[top.hash] == s.blocks[top.hash];
    OnLine(o, ts, 4, top.hash);
    Root(s.blocks, GENESIS, top);
    OnlyBlockAt(o, ts, t.blocks, t.tail);
  }

  /** The chain manager switches to the branch, and makes at least its first block irreversible. */
  lemma Manages(o: nat, ts: nat, s: Snapshot, t: Snapshot)
    requires IsLine(o, ts) && Has(o, ts, 4, s) && TailsKnown(s) && Did(GENESIS, SIZE, s, Trigger(true), t)
    ensures t.blocks == LineBlocks(o, ts, 4) && Tree(t.blocks, GENESIS)
    ensures On(t.blocks, t.lib) && t.lib.height >= 2
  {
    Switches(o, ts, s, t);
    FirstIsConfirmed(o, ts, t.blocks);
    NotBelow(t.blocks, GENESIS, SIZE, t.tail, 2, t.lib.height);
  }

  lemma LineStep(o: nat, ts: nat, run: seq<Snapshot>, k: nat)
    requires IsLine(o, ts) && IsRun(GENESIS, SIZE, Events(o, ts), run) && 1 <= k <= 4
    ensures TailsKnown(run[k])
    ensures k < 4 ==> Did(GENESIS, SIZE, run[k - 1], Receive(Line(o, ts, k + 1), true), run[k])
    ensures k == 4 ==> Did(GENESIS, SIZE, run[3], Trigger(true), run[4])
  {
    DidAt(GENESIS, SIZE, Events(o, ts), run, k - 1);
    EventAt(o, ts, k - 1);
  }

  lemma DidAt(genesis: Block, n: nat, events: seq<Event>, run: seq<Snapshot>, k: nat)
    requires IsRun(genesis, n, events, run) && k < |events|
    ensures Did(genesis, n, run[k], events[k], run[k + 1]) && TailsKnown(run[k + 1])
  {
    assert StepAt(genesis, n, events, run, k);
  }

  lemma EventAt(o: nat, ts: nat, k: nat)
    requires k < 4
    ensures Events(o, ts)[k] == if k < 3 then Receive(Line(o, ts, k + 2), true) else Trigger(true)
  {
  }

  lemma {:induction false} LineIsReceived(o: nat, ts: nat, run: seq<Snapshot>, k: nat)
    requires IsLine(o, ts) && IsRun(GENESIS, SIZE, Events(o, ts), run) && k <= 3
    ensures Has(o, ts, k + 1, run[k])
    decreases k
  {
    if k > 0 {
      LineIsReceived(o, ts, run, k - 1);
      LineStep(o, ts, run, k);
      Receives(o, ts, k, run[k - 1], run[k]);
    }
  }

  lemma LineIsConfirmed(o: nat, ts: nat, run: seq<Snapshot>)
    requires IsLine(o, ts) && IsRun(GENESIS, SIZE, Events(o, ts), run)
    ensures run[4].blocks == LineBlocks(o, ts, 4) && Tree(run[4].blocks, GENESIS)
    ensures On(run[4].blocks, run[4].lib) && run[4].lib.height >= 2
  {
    LineIsReceived(o, ts, run, 3);
    LineStep(o, ts, run, 3);
    LineStep(o, ts, run, 4);
    Manages(o, ts, run[3], run[4]);
  }

  /** Blocks of the two branches above genesis conflict. */
  lemma LinesConflict(bs: Blocks, a: Block, b: Block)
    requires bs == LineBlocks(10, 9, 4) + LineBlocks(20, 18, 4) && Tree(bs, GENESIS)
    requires Tree(LineBlocks(10, 9, 4), GENESIS) && Tree(LineBlocks(20, 18, 4), GENESIS)
    requires On(LineBlocks(10, 9, 4), a) && On(LineBlocks(20, 18, 4), b) && a.height >= 2 && b.height >= 2
    ensures !Ancestor(bs, GENESIS, a, b) && !Ancestor(bs, GENESIS, b, a)
  {
    var bsA, bsB := LineBlocks(10, 9, 4), LineBlocks(20, 18, 4);
    SameBlocks();
    TreesJoin(bsA, bsB, GENESIS);
    AtStays(bsA, bs, GENESIS, a, 2);
    AtStays(bsB, bs, GENESIS, b, 2);
    OnlyBlockAt(10, 9, bsA, At(bsA, GENESIS, a, 2));
    OnlyBlockAt(20, 18, bsB, At(bsB, GENESIS, b, 2));
    if Ancestor(bs, GENESIS, a, b) {
      AtOfAt(bs, GENESIS, b, a.height, 2);
    }
    if Ancestor(bs, GENESIS, b, a) {
      AtOfAt(bs, GENESIS, a, b.height, 2);
    }
  }

  lemma SameBlocks()
    ensures var bsA, bsB := LineBlocks(10, 9, 4), LineBlocks(20, 18, 4);
            forall h :: h in bsA && h in bsB ==> bsA[h] == bsB[h]
  {
    var bsA, bsB := LineBlocks(10, 9, 4), LineBlocks(20, 18, 4);
    forall h | h in bsA && h in bsB
      ensures bsA[h] == bsB[h]
    {
      OnLine(10, 9, 4, h);
      OnLine(20, 18, 4, h);
    }
  }

  /** No slot holds two blocks of the two branches. */
  lemma NoDoubleSlot(bs: Blocks, dynasty: nat)
    requires bs == LineBlocks(10, 9, 4) + LineBlocks(20, 18, 4)
    ensures DoubleSlots(bs, SIZE, dynasty) == {}
  {
    forall x, y | On(bs, x) && On(bs, y) && x.timestamp == y.timestamp
      ensures x == y
    {
      OnEither(bs, x);
      OnEither(bs, y);
    }
  }

  lemma OnEither(bs: Blocks, x: Block)
    requires bs == LineBlocks(10, 9, 4) + LineBlocks(20, 18, 4) && On(bs, x)
    ensures 1 <= x.height <= 4 && (x == Line(10, 9, x.height) || x == Line(20, 18, x.height))
  {
    OnLine(10, 9, 4, x.hash);
    OnLine(20, 18, 4, x.hash);
  }

  /**
   Agreement does not reach over dynasties: of two nodes, one is given a branch that fills the second
   dynasty, the other one a branch that fills the third.  They hold conflicting blocks irreversible,
   and no slot holds two blocks.
   */
  method NodesCanDisagree() returns (a: BlockChain, b: BlockChain, ghost runA: seq<Snapshot>, ghost runB: seq<Snapshot>)
    ensures IsRun(GENESIS, SIZE, Events(10, 9), runA) && runA[4] == a.Snap() && Knows(TwoLines, a.blocks)
    ensures IsRun(GENESIS, SIZE, Events(20, 18), runB) && runB[4] == b.Snap() && Knows(TwoLines, b.blocks)
    ensures var bs := runA[4].blocks + runB[4].blocks;
            && !Ancestor(bs, GENESIS, runA[4].lib, runB[4].lib) && !Ancestor(bs, GENESIS, runB[4].lib, runA[4].lib)
            && forall dynasty: nat :: DoubleSlots(bs, SIZE, dynasty) == {}
  {
    a, runA := RunLine(10, 9);
    b, runB := RunLine(20, 18);
    Conflict(runA, runB);
  }

  method RunLine(o: nat, ts: nat) returns (bc: BlockChain, ghost run: seq<Snapshot>)
    requires IsLine(o, ts)
    ensures fresh(bc) && IsRun(GENESIS, SIZE, Events(o, ts), run) && run[4] == bc.Snap() && Knows(TwoLines, bc.blocks)
  {
    LinePossible(o, ts);
    bc, run := RunNode(GENESIS, 8, SIZE, Events(o, ts), TwoLines);
  }

  lemma LinePossible(o: nat, ts: nat)
    requires IsLine(o, ts)
    ensures AllPossible(TwoLines, Events(o, ts)) && TwoLines(GENESIS.hash) == GENESIS
  {
    forall k | 0 <= k < 4
      ensures Possible(TwoLines, Events(o, ts)[k])
    {
    }
  }

  lemma Conflict(runA: seq<Snapshot>, runB: seq<Snapshot>)
    requires IsRun(GENESIS, SIZE, Events(10, 9), runA) && IsRun(GENESIS, SIZE, Events(20, 18), runB)
    ensures var bs := runA[4].blocks + runB[4].blocks;
            && !Ancestor(bs, GENESIS, runA[4].lib, runB[4].lib) && !Ancestor(bs, GENESIS, runB[4].lib, runA[4].lib)
            && forall dynasty: nat :: DoubleSlots(bs, SIZE, dynasty) == {}
  {
    LineIsConfirmed(10, 9, runA);
    LineIsConfirmed(20, 18, runB);
    var bs := runA[4].blocks + runB[4].blocks;
    SameBlocks();
    TreesJoin(runA[4].blocks, runB[4].blocks, GENESIS);
    LinesConflict(bs, runA[4].lib, runB[4].lib);
    forall dynasty: nat
      ensures DoubleSlots(bs, SIZE, dynasty) == {}
    {
      NoDoubleSlot(bs, dynasty);
    }
  }
}
