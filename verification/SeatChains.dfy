/** Who has the seats after every chain of blocks. */
module SeatChains {
  import opened Options
  import opened Ledger
  import opened Dynasties
  import opened BlockProduction
  import opened AcceptedBlocks
  import opened LedgerChain
  import Slots

  /** Blocks are not at time zero, and times do not go back. */
  lemma TimesGoOn(n: nat, rank: Ranking, genesis: seq<Tx>, blocks: seq<BlockData>, s: State)
    requires n > 0 && blocks != [] && ChainState(n, rank, genesis, blocks) == Ok(s)
    ensures s.timestamp == blocks[|blocks| - 1].timestamp > 0
  {
    var parent := ChainStep(n, rank, genesis, blocks, s);
    AfterAcceptedBlock(n, rank, parent, blocks[|blocks| - 1], s);
  }

  /** The first block of the period that the chain ends in, and the state it was made on. */
  ghost predicate BeganWith(n: nat, rank: Ranking, genesis: seq<Tx>, blocks: seq<BlockData>, k: nat, before: State)
    requires n > 0 && blocks != []
  {
    && k < |blocks| && ChainState(n, rank, genesis, blocks[..k]) == Ok(before)
    && blocks[k].timestamp / 3 / n == blocks[|blocks| - 1].timestamp / 3 / n
    && (k == 0 || before.timestamp / 3 / n < blocks[k].timestamp / 3 / n)
  }

  /** The last block begins a period. */
  lemma BeginsPeriod(n: nat, rank: Ranking, genesis: seq<Tx>, blocks: seq<BlockData>, parent: State)
    requires n > 0 && blocks != [] && ChainState(n, rank, genesis, blocks[..|blocks| - 1]) == Ok(parent)
    requires |blocks| == 1 || (parent.timestamp > 0 && Renews(n, parent.timestamp, blocks[|blocks| - 1].timestamp))
    ensures BeganWith(n, rank, genesis, blocks, |blocks| - 1, parent)
  {
  }

  /** The last block is in the period of the one before. */
  lemma GoesOnWithPeriod(n: nat, rank: Ranking, genesis: seq<Tx>, blocks: seq<BlockData>, k: nat, before: State)
    requires n > 0 && |blocks| > 1
    requires var front := blocks[..|blocks| - 1];
             && BeganWith(n, rank, genesis, front, k, before)
             && blocks[|blocks| - 1].timestamp / 3 / n == front[|front| - 1].timestamp / 3 / n
    ensures BeganWith(n, rank, genesis, blocks, k, before)
  {
    assert blocks[..|blocks| - 1][..k] == blocks[..k];
  }

  lemma SamePeriodAsParent(n: nat, parentTs: nat, ts: nat)
    requires n > 0 && parentTs <= ts && !Renews(n, parentTs, ts)
    ensures ts / 3 / n == parentTs / 3 / n
  {
    PeriodsGoOn(n, parentTs / 3, ts / 3);
  }

  lemma PeriodsGoOn(n: nat, a: nat, b: nat)
    requires n > 0 && a <= b
    ensures a / n <= b / n
  {
    Slots.DivMod(a, n);
    Slots.DivMod(b, n);
    Slots.AtLeastOne(a / n - b / n, n);
  }

  /** The seats after a block, and the one its signer has. */
  lemma SeatsAfterBlock(n: nat, rank: Ranking, parent: State, b: BlockData, s: State)
    requires n > 0 && Accepts(n, rank, parent, b, s)
    ensures s.timestamp == b.timestamp > parent.timestamp && HasSeat(n, s.dynasty, s.timestamp, b.signer)
    ensures if Renews(n, parent.timestamp, b.timestamp)
            then Seated(n, parent.candidates, rank(parent.candidates), s.dynasty)
            else s.dynasty == parent.dynasty
  {
    AfterAcceptedBlock(n, rank, parent, b, s);
  }

  /**
   After every chain of blocks the seats are those of the candidates that were ranked best when the
   period of n slots began that the last block is in; whoever signed the last block has one of them.
   */
  lemma {:induction false} EveryChainSeatsTheBest(n: nat, rank: Ranking, genesis: seq<Tx>, blocks: seq<BlockData>, s: State)
    returns (k: nat, before: State)
    requires n > 0 && blocks != [] && ChainState(n, rank, genesis, blocks) == Ok(s)
    ensures BeganWith(n, rank, genesis, blocks, k, before)
    ensures Seated(n, before.candidates, rank(before.candidates), s.dynasty)
    ensures HasSeat(n, s.dynasty, s.timestamp, blocks[|blocks| - 1].signer)
    decreases |blocks|
  {
    var parent := ChainStep(n, rank, genesis, blocks, s);
    var front, b := blocks[..|blocks| - 1], blocks[|blocks| - 1];
    SeatsAfterBlock(n, rank, parent, b, s);
    if front == [] {
      GenesisIsSolvent(genesis);
    } else {
      TimesGoOn(n, rank, genesis, front, parent);
    }
    if front == [] || Renews(n, parent.timestamp, b.timestamp) {
      k, before := |front|, parent;
      BeginsPeriod(n, rank, genesis, blocks, parent);
    } else {
      k, before := EveryChainSeatsTheBest(n, rank, genesis, front, parent);
      SamePeriodAsParent(n, parent.timestamp, b.timestamp);
      GoesOnWithPeriod(n, rank, genesis, blocks, k, before);
    }
  }
}
