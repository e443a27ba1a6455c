/** When vote powers are right all along a chain, and when they are not. */
module VoteChains {
  import opened Options
  import opened Ledger
  import opened Votes
  import opened LedgerRuns
  import opened Dynasties
  import opened BlockProduction
  import opened LedgerChain
  import BlockTree

  /** A transaction and the state it runs in. */
  type Step = (State, Tx)

  ghost function GenesisSteps(txs: seq<Tx>): seq<Step>
    requires GenesisState(txs).Ok?
  {
    if txs == [] then []
    else
      var front := txs[..|txs| - 1];
      GenesisSteps(front) + [(GenesisState(front).value, txs[|txs| - 1])]
  }

  ghost function ReplaySteps(s: State, txs: seq<(Tx, Receipt)>): seq<Step>
    requires Replay(s, txs).Ok?
    decreases |txs|
  {
    if txs == [] then []
    else [(s, txs[0].0)] + ReplaySteps(ApplyTransaction(s, txs[0].0).value.0, txs[1..])
  }

  /** All transactions of a chain, from the first one of the genesis block on. */
  ghost function ChainSteps(n: nat, rank: Ranking, genesis: seq<Tx>, blocks: seq<BlockData>): seq<Step>
    requires n > 0 && ChainState(n, rank, genesis, blocks).Ok?
  {
    if blocks == [] then GenesisSteps(genesis)
    else
      var front, b := blocks[..|blocks| - 1], blocks[|blocks| - 1];
      var parent := ChainState(n, rank, genesis, front).value;
      ChainSteps(n, rank, genesis, front) + ReplaySteps(StartChild(n, rank, parent, b.timestamp).value, b.transactions)
  }

  ghost predicate AllCounted(steps: seq<Step>) {
    forall k :: 0 <= k < |steps| ==> PowersMatch(steps[k].0)
  }

  ghost predicate NoneTakesOver(steps: seq<Step>) {
    forall k :: 0 <= k < |steps| ==> !TakesOver(steps[k].0, steps[k].1)
  }

  lemma Joined(a: seq<Step>, b: seq<Step>)
    ensures AllCounted(a + b) <==> AllCounted(a) && AllCounted(b)
    ensures NoneTakesOver(a + b) <==> NoneTakesOver(a) && NoneTakesOver(b)
  {
    forall k | 0 <= k < |b|
      ensures (a + b)[|a| + k] == b[k]
    {
    }
    forall k | 0 <= k < |a|
      ensures (a + b)[k] == a[k]
    {
    }
  }

  lemma OneStep(s: State, tx: Tx)
    ensures AllCounted([(s, tx)]) <==> PowersMatch(s)
    ensures NoneTakesOver([(s, tx)]) <==> !TakesOver(s, tx)
  {
    var steps: seq<Step> := [(s, tx)];
    assert steps[0].0 == s && steps[0].1 == tx;
  }

  /** A step in front of others; after is whether powers match at their end. */
  lemma StepBefore(s: State, tx: Tx, s': State, rest: seq<Step>, after: bool)
    requires PowersMatch(s) && (PowersMatch(s') <==> !TakesOver(s, tx))
    requires PowersMatch(s') ==> (AllCounted(rest) && after <==> NoneTakesOver(rest))
    requires !PowersMatch(s') ==> !(AllCounted(rest) && after)
    ensures AllCounted([(s, tx)] + rest) && after <==> NoneTakesOver([(s, tx)] + rest)
  {
    Joined([(s, tx)], rest);
    OneStep(s, tx);
  }

  /** A step behind others. */
  lemma StepBehind(front: seq<Step>, s: State, tx: Tx, s': State)
    requires AllCounted(front) && PowersMatch(s) <==> NoneTakesOver(front)
    requires PowersMatch(s) ==> (PowersMatch(s') <==> !TakesOver(s, tx))
    ensures AllCounted(front + [(s, tx)]) && PowersMatch(s') <==> NoneTakesOver(front + [(s, tx)])
  {
    Joined(front, [(s, tx)]);
    OneStep(s, tx);
  }

  /** Whether all powers are right up to the end of the genesis block. */
  ghost predicate GenesisCounts(txs: seq<Tx>)
    requires GenesisState(txs).Ok?
  {
    AllCounted(GenesisSteps(txs)) && PowersMatch(GenesisState(txs).value)
  }

  lemma {:induction false} GenesisCountsIff(txs: seq<Tx>)
    requires GenesisState(txs).Ok?
    ensures GenesisCounts(txs) <==> NoneTakesOver(GenesisSteps(txs))
  {
    if txs == [] {
      GenesisCountsVotes(txs);
    } else {
      var front, tx := txs[..|txs| - 1], txs[|txs| - 1];
      GenesisCountsIff(front);
      GenesisStep(txs, GenesisState(front).value);
      GenesisCountsStep(front, GenesisState(front).value, tx);
    }
  }

  lemma GenesisCountsStep(front: seq<Tx>, s: State, tx: Tx)
    requires GenesisState(front) == Ok(s) && ApplyTransaction(s, tx).Ok?
    requires AllCounted(GenesisSteps(front)) && PowersMatch(s) <==> NoneTakesOver(GenesisSteps(front))
    ensures var steps := GenesisSteps(front) + [(s, tx)];
            AllCounted(steps) && PowersMatch(ApplyTransaction(s, tx).value.0) <==> NoneTakesOver(steps)
  {
    GenesisIsSolvent(front);
    if PowersMatch(s) {
      ApplyKeepsCountsIff(s, tx);
    }
    StepBehind(GenesisSteps(front), s, tx, ApplyTransaction(s, tx).value.0);
  }

  lemma ReplayStep(s: State, txs: seq<(Tx, Receipt)>) returns (s': State)
    requires txs != [] && Replay(s, txs).Ok?
    ensures ApplyTransaction(s, txs[0].0).Ok? && s' == ApplyTransaction(s, txs[0].0).value.0
    ensures Replay(s, txs) == Replay(s', txs[1..])
    ensures ReplaySteps(s, txs) == [(s, txs[0].0)] + ReplaySteps(s', txs[1..])
  {
    s' := ApplyTransaction(s, txs[0].0).value.0;
  }

  lemma ReplayBegins(s: State, txs: seq<(Tx, Receipt)>)
    requires Replay(s, txs).Ok? && !PowersMatch(s)
    ensures !(AllCounted(ReplaySteps(s, txs)) && PowersMatch(Replay(s, txs).value))
  {
    if txs != [] {
      assert ReplaySteps(s, txs)[0].0 == s;
    }
  }

  lemma {:induction false} ReplayCountsIff(s: State, txs: seq<(Tx, Receipt)>)
    requires Solvent(s) && PowersMatch(s) && Replay(s, txs).Ok?
    ensures AllCounted(ReplaySteps(s, txs)) && PowersMatch(Replay(s, txs).value) <==> NoneTakesOver(ReplaySteps(s, txs))
    decreases |txs|
  {
    if txs != [] {
      var tx, rest := txs[0].0, txs[1..];
      var s' := ReplayStep(s, txs);
      ApplyKeepsSolvent(s, tx);
      ApplyKeepsCountsIff(s, tx);
      if PowersMatch(s') {
        ReplayCountsIff(s', rest);
      } else {
        ReplayBegins(s', rest);
      }
      StepBefore(s, tx, s', ReplaySteps(s', rest), PowersMatch(Replay(s', rest).value));
    }
  }

  /** The state a block starts from has the powers of its parent, and the one it ends in those after its transactions. */
  lemma AroundReplay(n: nat, rank: Ranking, parent: State, b: BlockData, s: State) returns (s0: State)
    requires n > 0 && Solvent(parent) && parent.height >= BlockTree.GENESIS_HEIGHT && Accepts(n, rank, parent, b, s)
    ensures StartChild(n, rank, parent, b.timestamp) == Ok(s0) && Replay(s0, b.transactions).Ok? && Solvent(s0)
    ensures PowersMatch(s0) <==> PowersMatch(parent)
    ensures PowersMatch(s) <==> PowersMatch(Replay(s0, b.transactions).value)
  {
    s0 := StartChild(n, rank, parent, b.timestamp).value;
    StartOfChild(n, rank, parent, b.timestamp);
    LaterIsSolvent(parent, s0);
    var s1 := Replay(s0, b.transactions).value;
    ReplayKeepsSolvent(s0, b.transactions);
    RewardKeepsCounts(s1, b.coinbase, parent.supply);
  }

  lemma BlockCountsIff(n: nat, rank: Ranking, parent: State, b: BlockData, s: State, front: seq<Step>)
    requires n > 0 && Solvent(parent) && parent.height >= BlockTree.GENESIS_HEIGHT && Accepts(n, rank, parent, b, s)
    requires AllCounted(front) && PowersMatch(parent) <==> NoneTakesOver(front)
    ensures StartChild(n, rank, parent, b.timestamp).Ok?
    ensures Replay(StartChild(n, rank, parent, b.timestamp).value, b.transactions).Ok?
    ensures var steps := front + ReplaySteps(StartChild(n, rank, parent, b.timestamp).value, b.transactions);
            AllCounted(steps) && PowersMatch(s) <==> NoneTakesOver(steps)
  {
    var s0 := AroundReplay(n, rank, parent, b, s);
    Joined(front, ReplaySteps(s0, b.transactions));
    if PowersMatch(parent) {
      ReplayCountsIff(s0, b.transactions);
    } else {
      ReplayBegins(s0, b.transactions);
    }
  }

  /**
   In every chain of blocks every candidate's vote power is the stake of those who voted for it, before
   each of its transactions and at its end, exactly if none of its transactions takes over votes.
   */
  lemma {:induction false} EveryChainCountsVotesIff(n: nat, rank: Ranking, genesis: seq<Tx>, blocks: seq<BlockData>, s: State)
    requires n > 0 && ChainState(n, rank, genesis, blocks) == Ok(s)
    ensures var steps := ChainSteps(n, rank, genesis, blocks);
            AllCounted(steps) && PowersMatch(s) <==> NoneTakesOver(steps)
    decreases |blocks|
  {
    if blocks == [] {
      GenesisCountsIff(genesis);
    } else {
      var front, b := blocks[..|blocks| - 1], blocks[|blocks| - 1];
      var parent := ChainStep(n, rank, genesis, blocks, s);
      EveryChainCountsVotesIff(n, rank, genesis, front, parent);
      ChainIsSolvent(n, rank, genesis, front, parent);
      BlockCountsIff(n, rank, parent, b, s, ChainSteps(n, rank, genesis, front));
    }
  }
}
