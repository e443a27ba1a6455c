/** What holds of the ledger after every chain of blocks, from the genesis block on. */
module LedgerChain {
  import opened Options
  import opened Errors
  import opened Uint128
  import opened Ledger
  import opened Conservation
  import opened Votes
  import opened LedgerRuns
  import opened Registry
  import opened Dynasties
  import opened Transactions
  import opened BlockProduction
  import BlockTree

  const EMPTY := State(0, BlockTree.GENESIS_HEIGHT, 0, 0, 0, 0, 0, 0, map[], map[], map[], map[], map[])

  /** The transactions of the genesis configuration, each of which has to execute. */
  function GenesisState(txs: seq<Tx>): Result<State> {
    if txs == [] then Ok(EMPTY)
    else
      var s :- GenesisState(txs[..|txs| - 1]);
      var tx := txs[|txs| - 1];
      var (s', receipt) :- ExecuteTransaction(s, tx);
      if receipt.error.Some? then Err(receipt.error.value) else AcceptTransaction(s', tx, receipt)
  }

  method MakeGenesis(txs: seq<Tx>) returns (r: Result<State>)
    ensures r == GenesisState(txs)
  {
    var block := new WorkingBlock(EMPTY);
    for i := 0 to |txs|
      invariant !block.batching && GenesisState(txs[..i]) == Ok(block.state)
      invariant fresh(block)
    {
      assert txs[..i + 1][..i] == txs[..i];
      var receipt := block.Run(txs[i]);
      if receipt.Err? {
        GenesisStops(txs, i + 1);
        return Err(receipt.error);
      }
      if receipt.value.error.Some? {
        GenesisStops(txs, i + 1);
        return Err(receipt.value.error.value);
      }
      var accepted := block.Accept(txs[i], receipt.value);
      if accepted.Err? {
        GenesisStops(txs, i + 1);
        return Err(accepted.error);
      }
    }
    assert txs[..|txs|] == txs;
    return Ok(block.state);
  }

  /** The first transaction to fail decides. */
  lemma {:induction false} GenesisStops(txs: seq<Tx>, i: nat)
    requires i <= |txs| && GenesisState(txs[..i]).Err?
    ensures GenesisState(txs) == GenesisState(txs[..i])
    decreases |txs| - i
  {
    if i < |txs| {
      assert txs[..i + 1][..i] == txs[..i];
      GenesisStops(txs, i + 1);
    } else {
      assert txs[..i] == txs;
    }
  }

  /** The state at the end of a chain of accepted blocks. */
  ghost function ChainState(n: nat, rank: Ranking, genesis: seq<Tx>, blocks: seq<BlockData>): Result<State>
    requires n > 0
  {
    if blocks == [] then GenesisState(genesis)
    else
      var parent :- ChainState(n, rank, genesis, blocks[..|blocks| - 1]);
      var b := blocks[|blocks| - 1];
      if !WellPlaced(parent, b) then Err(InvalidBlockRoot) else CheckExecution(n, rank, parent, b)
  }

  /** No application for candidacy among the transactions is paid for by its sender by name. */
  ghost predicate AllUseNonces(txs: seq<(Tx, Receipt)>) {
    forall i :: 0 <= i < |txs| ==> UsesNonce(txs[i].0)
  }

  // --------------------------------------------------------------------------------------------
  // Genesis
  // --------------------------------------------------------------------------------------------

  lemma EmptyIsSolvent(s: State)
    requires s.accounts == map[] && s.candidates == map[] && s.supply == 0
    ensures Solvent(s) && VotesOk(s)
  {
    assert AccountHoldings(s.accounts) == map[];
    assert Collaterals(s.candidates) == map[];
  }

  lemma GenesisStep(txs: seq<Tx>, s: State)
    requires txs != [] && GenesisState(txs).Ok?
    requires GenesisState(txs[..|txs| - 1]) == Ok(s)
    ensures ApplyTransaction(s, txs[|txs| - 1]).Ok?
    ensures GenesisState(txs) == Ok(ApplyTransaction(s, txs[|txs| - 1]).value.0)
    ensures ApplyTransaction(s, txs[|txs| - 1]).value.1.executed
  {
  }

  /** The states from an empty ledger on through transactions that all run, execute and are charged. */
  ghost predicate AllExecute(states: seq<State>, txs: seq<Tx>) {
    && |states| == |txs| + 1
    && states[0] == State(0, 1, 0, 0, 0, 0, 0, 0, map[], map[], map[], map[], map[])
    && forall i, j :: 0 <= i < |txs| && j == i + 1 ==> Executes(states[i], txs[i], states[j])
  }

  ghost predicate Executes(s: State, tx: Tx, s': State) {
    && ApplyTransaction(s, tx).Ok? && ApplyTransaction(s, tx).value.0 == s'
    && ApplyTransaction(s, tx).value.1.executed
  }

  lemma OneMoreExecutes(states: seq<State>, txs: seq<Tx>, tx: Tx, s: State)
    requires AllExecute(states, txs) && Executes(states[|txs|], tx, s)
    ensures AllExecute(states + [s], txs + [tx])
  {
  }

  lemma FrontAndLast<T>(list: seq<T>)
    requires list != []
    ensures list[..|list| - 1] + [list[|list| - 1]] == list
  {
  }

  lemma OneLessExecutes(states: seq<State>, txs: seq<Tx>)
    requires AllExecute(states, txs) && txs != []
    ensures AllExecute(states[..|txs|], txs[..|txs| - 1])
    ensures Executes(states[|txs| - 1], txs[|txs| - 1], states[|txs|])
  {
    var front, rest := states[..|txs|], txs[..|txs| - 1];
    forall i, j | 0 <= i < |rest| && j == i + 1
      ensures Executes(front[i], rest[i], front[j])
    {
      assert Executes(states[i], txs[i], states[j]);
    }
  }

  /** There is a genesis state exactly if every transaction of the configuration executes, in order. */
  lemma {:induction false} GenesisIff(txs: seq<Tx>, s: State)
    ensures GenesisState(txs) == Ok(s) <==> exists states :: AllExecute(states, txs) && states[|txs|] == s
    decreases |txs|
  {
    if GenesisState(txs) == Ok(s) {
      var states := GenesisExecutes(txs, s);
    }
    if states :| AllExecute(states, txs) && states[|txs|] == s {
      ExecutesAsGenesis(states, txs);
    }
  }

  lemma {:induction false} GenesisExecutes(txs: seq<Tx>, s: State) returns (states: seq<State>)
    requires GenesisState(txs) == Ok(s)
    ensures AllExecute(states, txs) && states[|txs|] == s
    decreases |txs|
  {
    if txs == [] {
      states := [s];
    } else {
      var front := txs[..|txs| - 1];
      var before := GenesisState(front).value;
      var prefix := GenesisExecutes(front, before);
      GenesisStep(txs, before);
      OneMoreExecutes(prefix, front, txs[|txs| - 1], s);
      FrontAndLast(txs);
      states := prefix + [s];
    }
  }

  lemma {:induction false} ExecutesAsGenesis(states: seq<State>, txs: seq<Tx>)
    requires AllExecute(states, txs)
    ensures GenesisState(txs) == Ok(states[|txs|])
    decreases |txs|
  {
    if txs != [] {
      var k := |txs| - 1;
      OneLessExecutes(states, txs);
      ExecutesAsGenesis(states[..k + 1], txs[..k]);
    }
  }

  ghost predicate SolventAt(s: State, height: nat) {
    Solvent(s) && s.height == height && s.timestamp % INTERVAL == 0
  }

  /** Every genesis block makes a solvent ledger, at time zero. */
  lemma {:induction false} GenesisIsSolvent(txs: seq<Tx>)
    requires GenesisState(txs).Ok?
    ensures var s := GenesisState(txs).value; SolventAt(s, BlockTree.GENESIS_HEIGHT) && s.timestamp == 0
  {
    if txs == [] {
      EmptyIsSolvent(EMPTY);
    } else {
      var s, tx := GenesisState(txs[..|txs| - 1]).value, txs[|txs| - 1];
      GenesisIsSolvent(txs[..|txs| - 1]);
      GenesisStep(txs, s);
      ApplyKeepsSolvent(s, tx);
      ApplyAddsUsage(s, tx);
    }
  }

  lemma {:induction false} GenesisCountsVotes(txs: seq<Tx>)
    requires GenesisState(txs).Ok? && forall i :: 0 <= i < |txs| ==> UsesNonce(txs[i])
    ensures VotesOk(GenesisState(txs).value)
  {
    if txs == [] {
      EmptyIsSolvent(EMPTY);
    } else {
      var s, tx := GenesisState(txs[..|txs| - 1]).value, txs[|txs| - 1];
      GenesisCountsVotes(txs[..|txs| - 1]);
      GenesisStep(txs, s);
      ApplyKeepsVotes(s, tx);
    }
  }

  // --------------------------------------------------------------------------------------------
  // Blocks
  // --------------------------------------------------------------------------------------------

  /** Running a transaction above the genesis block leaves the supply alone. */
  lemma ApplyKeepsSupply(s: State, tx: Tx)
    requires ApplyTransaction(s, tx).Ok? && s.height != BlockTree.GENESIS_HEIGHT
    ensures ApplyTransaction(s, tx).value.0.supply == s.supply
  {
    if Execute(s, tx).Ok? {
      SupplyUnchanged(s, tx);
    }
  }

  lemma {:induction false} ReplayKeepsSolvent(s: State, txs: seq<(Tx, Receipt)>)
    requires Solvent(s) && s.height != BlockTree.GENESIS_HEIGHT && Replay(s, txs).Ok?
    ensures var s' := Replay(s, txs).value;
            Solvent(s') && s'.supply == s.supply && s'.timestamp == s.timestamp && s'.height == s.height
    decreases |txs|
  {
    if txs != [] {
      var tx := txs[0].0;
      ApplyKeepsSolvent(s, tx);
      ApplyKeepsSupply(s, tx);
      ApplyAddsUsage(s, tx);
      ReplayKeepsSolvent(ApplyTransaction(s, tx).value.0, txs[1..]);
    }
  }

  lemma {:induction false} ReplayKeepsVotes(s: State, txs: seq<(Tx, Receipt)>)
    requires VotesOk(s) && Replay(s, txs).Ok? && AllUseNonces(txs)
    ensures VotesOk(Replay(s, txs).value)
    decreases |txs|
  {
    if txs != [] {
      ApplyKeepsVotes(s, txs[0].0);
      ReplayKeepsVotes(ApplyTransaction(s, txs[0].0).value.0, txs[1..]);
    }
  }

  /** A later time and another dynasty change nothing that either is about. */
  lemma LaterIsSolvent(s: State, s': State)
    requires s'.timestamp >= s.timestamp
    requires s'.accounts == s.accounts && s'.candidates == s.candidates && s'.supply == s.supply
    ensures Solvent(s) ==> Solvent(s')
    ensures VotesOk(s) ==> VotesOk(s')
    ensures PowersMatch(s) <==> PowersMatch(s')
  {
    assert forall a :: Candidacy(s', a) == Candidacy(s, a);
    assert forall a :: NonceOf(s', a) == NonceOf(s, a);
  }

  lemma ContentsKeepSolvent(s0: State, parentSupply: Amount, b: BlockData)
    requires Solvent(s0) && s0.supply == parentSupply && s0.height != BlockTree.GENESIS_HEIGHT
    requires CheckContents(s0, parentSupply, b).Ok?
    ensures var s := CheckContents(s0, parentSupply, b).value;
            Solvent(s) && s.timestamp == s0.timestamp && s.height == s0.height && s.supply >= parentSupply
  {
    var s1 := Replay(s0, b.transactions).value;
    ReplayKeepsSolvent(s0, b.transactions);
    RewardKeepsSolvent(s1, b.coinbase, parentSupply);
    RewardKeepsHeader(s1, b.coinbase, parentSupply);
    RewardConserves(s1, b.coinbase, parentSupply);
  }

  /** Accepting any block keeps the ledger solvent. */
  lemma BlockKeepsSolvent(n: nat, rank: Ranking, parent: State, b: BlockData, s: State)
    requires n > 0 && Solvent(parent) && parent.height >= BlockTree.GENESIS_HEIGHT && Accepts(n, rank, parent, b, s)
    ensures Solvent(s) && s.timestamp == b.timestamp && s.height == parent.height + 1 && s.supply >= parent.supply
  {
    var s0 := StartChild(n, rank, parent, b.timestamp).value;
    StartOfChild(n, rank, parent, b.timestamp);
    LaterIsSolvent(parent, s0);
    ContentsKeepSolvent(s0, parent.supply, b);
  }

  /** Accepting a block keeps the vote powers right. */
  lemma BlockKeepsVotes(n: nat, rank: Ranking, parent: State, b: BlockData, s: State)
    requires n > 0 && VotesOk(parent) && Accepts(n, rank, parent, b, s) && AllUseNonces(b.transactions)
    ensures VotesOk(s)
  {
    var s0 := StartChild(n, rank, parent, b.timestamp).value;
    StartOfChild(n, rank, parent, b.timestamp);
    LaterIsSolvent(parent, s0);
    ContentsKeepVotes(s0, parent.supply, b);
  }

  lemma ContentsKeepVotes(s0: State, parentSupply: Amount, b: BlockData)
    requires VotesOk(s0) && CheckContents(s0, parentSupply, b).Ok? && AllUseNonces(b.transactions)
    ensures VotesOk(CheckContents(s0, parentSupply, b).value)
  {
    ReplayKeepsVotes(s0, b.transactions);
    RewardKeepsCounts(Replay(s0, b.transactions).value, b.coinbase, parentSupply);
  }

  lemma StepKeepsSolvent(n: nat, rank: Ranking, parent: State, b: BlockData, s: State, height: nat)
    requires n > 0 && SolventAt(parent, height) && height >= BlockTree.GENESIS_HEIGHT && Accepts(n, rank, parent, b, s)
    ensures SolventAt(s, height + 1)
  {
    StaysOnSlots(parent, b);
    BlockKeepsSolvent(n, rank, parent, b, s);
  }

  lemma StaysOnSlots(parent: State, b: BlockData)
    requires parent.timestamp % INTERVAL == 0 && WellPlaced(parent, b)
    ensures b.timestamp % INTERVAL == 0
  {
  }

  lemma ChainStep(n: nat, rank: Ranking, genesis: seq<Tx>, blocks: seq<BlockData>, s: State) returns (parent: State)
    requires n > 0 && blocks != [] && ChainState(n, rank, genesis, blocks) == Ok(s)
    ensures ChainState(n, rank, genesis, blocks[..|blocks| - 1]) == Ok(parent)
    ensures Accepts(n, rank, parent, blocks[|blocks| - 1], s)
  {
    parent := ChainState(n, rank, genesis, blocks[..|blocks| - 1]).value;
  }

  lemma {:induction false} ChainIsSolvent(n: nat, rank: Ranking, genesis: seq<Tx>, blocks: seq<BlockData>, s: State)
    requires n > 0 && ChainState(n, rank, genesis, blocks) == Ok(s)
    ensures SolventAt(s, BlockTree.GENESIS_HEIGHT + |blocks|)
    decreases |blocks|
  {
    if blocks == [] {
      GenesisIsSolvent(genesis);
    } else {
      var parent := ChainStep(n, rank, genesis, blocks, s);
      var front := blocks[..|blocks| - 1];
      ChainIsSolvent(n, rank, genesis, front, parent);
      StepKeepsSolvent(n, rank, parent, blocks[|blocks| - 1], s, BlockTree.GENESIS_HEIGHT + |front|);
    }
  }

  /**
   After every chain of blocks every coin is accounted for, no account has more points than stake,
   accounts and candidates name each other, and no candidate has more power than the stake behind it.
   */
  lemma EveryChainIsSolvent(n: nat, rank: Ranking, genesis: seq<Tx>, blocks: seq<BlockData>, s: State)
    requires n > 0 && ChainState(n, rank, genesis, blocks) == Ok(s)
    ensures Total(s) == s.supply
    ensures forall a :: a in s.accounts ==> s.accounts[a].points <= s.accounts[a].staking
    ensures forall id :: id in s.candidates ==> id.from in s.accounts && s.accounts[id.from].candidateId == Some(id)
    ensures forall id :: id in s.candidates ==> s.candidates[id].votePower <= Support(s.accounts, id)
    ensures s.height == BlockTree.GENESIS_HEIGHT + |blocks| && s.timestamp % INTERVAL == 0
  {
    ChainIsSolvent(n, rank, genesis, blocks, s);
    forall id | id in s.candidates
      ensures id.from in s.accounts && s.accounts[id.from].candidateId == Some(id)
    {
      assert Candidacy(s, id.from) == Some(id);
    }
  }

  /**
   After every chain of blocks in which no application for candidacy is paid for by its sender by
   name, every candidate's vote power is the stake of those who voted for it.
   */
  lemma {:induction false} EveryChainCountsVotes(n: nat, rank: Ranking, genesis: seq<Tx>, blocks: seq<BlockData>, s: State)
    requires n > 0 && ChainState(n, rank, genesis, blocks) == Ok(s)
    requires forall i :: 0 <= i < |genesis| ==> UsesNonce(genesis[i])
    requires forall k :: 0 <= k < |blocks| ==> AllUseNonces(blocks[k].transactions)
    ensures VotesOk(s)
    ensures forall id :: id in s.candidates ==> s.candidates[id].votePower == Support(s.accounts, id)
    decreases |blocks|
  {
    if blocks == [] {
      GenesisCountsVotes(genesis);
    } else {
      var parent := ChainStep(n, rank, genesis, blocks, s);
      EveryChainCountsVotes(n, rank, genesis, blocks[..|blocks| - 1], parent);
      BlockKeepsVotes(n, rank, parent, blocks[|blocks| - 1], s);
    }
  }

  // --------------------------------------------------------------------------------------------
  // Making blocks on a solvent ledger
  // --------------------------------------------------------------------------------------------

  /** A transaction that stops the making of a block, told from the state in which it is offered. */
  ghost predicate Aborts(s: State, tx: Tx) {
    || Unfetchable(s, tx.from)
    || (&& ExecuteTransaction(s, tx).Ok?
        && var from, usage := GetAccount(s, tx.from).value, PointUsage(s, tx).value;
           StakesTooMuch(tx, from, usage) || UnstakesTooMuch(s, tx, from, usage))
  }

  ghost function AfterOffer(s: State, tx: Tx): State {
    if ApplyTransaction(s, tx).Ok? then ApplyTransaction(s, tx).value.0 else s
  }

  /** The state in which the k-th transaction is offered. */
  ghost function OfferedIn(s: State, offered: seq<Tx>, k: nat): State
    requires k <= |offered|
    decreases k
  {
    if k == 0 then s else OfferedIn(AfterOffer(s, offered[0]), offered[1..], k - 1)
  }

  lemma AbortsIff(s: State, tx: Tx)
    requires Solvent(s)
    ensures Aborts(s, tx) <==> GetAccount(s, tx.from).Err? || (ExecuteTransaction(s, tx).Ok? && ApplyTransaction(s, tx).Err?)
    ensures Solvent(AfterOffer(s, tx))
  {
    FetchFailsIff(s, tx.from);
    if ExecuteTransaction(s, tx).Ok? {
      ChargedIff(s, tx);
    }
    if ApplyTransaction(s, tx).Ok? {
      ApplyKeepsSolvent(s, tx);
    }
  }

  /** One more transaction is offered. */
  lemma FillStep(s: State, included: seq<(Tx, Receipt)>, offered: seq<Tx>) returns (included': seq<(Tx, Receipt)>)
    requires Solvent(s) && offered != []
    ensures Aborts(s, offered[0]) ==> Fill(s, included, offered).Err?
    ensures !Aborts(s, offered[0]) ==>
            Fill(s, included, offered) == Fill(AfterOffer(s, offered[0]), included', offered[1..])
  {
    var tx := offered[0];
    AbortsIff(s, tx);
    included' := if ApplyTransaction(s, tx).Ok? then included + [(tx, ApplyTransaction(s, tx).value.1)] else included;
  }

  /**
   Making a block on a solvent ledger is aborted exactly if one of the transactions offered, in the
   state in which it is offered, is of an account that cannot be fetched, or may run and stakes or
   unstakes too much to be charged.
   */
  lemma {:induction false} FillAbortsIff(s: State, included: seq<(Tx, Receipt)>, offered: seq<Tx>)
    requires Solvent(s)
    ensures Fill(s, included, offered).Err? <==>
            exists k :: 0 <= k < |offered| && Aborts(OfferedIn(s, offered, k), offered[k])
    decreases |offered|
  {
    if offered != [] {
      var included' := FillStep(s, included, offered);
      if Aborts(s, offered[0]) {
        assert OfferedIn(s, offered, 0) == s;
      } else {
        var s', rest := AfterOffer(s, offered[0]), offered[1..];
        AbortsIff(s, offered[0]);
        FillAbortsIff(s', included', rest);
        if k :| 0 <= k < |rest| && Aborts(OfferedIn(s', rest, k), rest[k]) {
          assert OfferedIn(s, offered, k + 1) == OfferedIn(s', rest, k);
        }
        if k :| 0 <= k < |offered| && Aborts(OfferedIn(s, offered, k), offered[k]) {
          assert k > 0 && OfferedIn(s, offered, k) == OfferedIn(s', rest, k - 1);
        }
      }
    }
  }

  /** Those that can be run and charged in the state in which they are offered, with their receipts. */
  ghost function Chosen(s: State, offered: seq<Tx>): seq<(Tx, Receipt)>
    decreases |offered|
  {
    if offered == [] then []
    else
      var rest := Chosen(AfterOffer(s, offered[0]), offered[1..]);
      if ApplyTransaction(s, offered[0]).Ok? then [(offered[0], ApplyTransaction(s, offered[0]).value.1)] + rest else rest
  }

  /** A block that is not aborted includes exactly the transactions that can be run and charged when offered. */
  lemma {:induction false} FillChooses(s: State, included: seq<(Tx, Receipt)>, offered: seq<Tx>)
    requires Fill(s, included, offered).Ok?
    ensures Fill(s, included, offered).value == (OfferedIn(s, offered, |offered|), included + Chosen(s, offered))
    decreases |offered|
  {
    if offered == [] {
      assert included + [] == included;
    } else {
      var tx, s', rest := offered[0], AfterOffer(s, offered[0]), offered[1..];
      FillGoesOn(s, included, offered);
      if ApplyTransaction(s, tx).Ok? {
        var t := (tx, ApplyTransaction(s, tx).value.1);
        FillChooses(s', included + [t], rest);
        Regrouped(included, t, Chosen(s', rest));
      } else {
        FillChooses(s', included, rest);
      }
    }
  }

  lemma FillGoesOn(s: State, included: seq<(Tx, Receipt)>, offered: seq<Tx>)
    requires offered != [] && Fill(s, included, offered).Ok?
    ensures var tx := offered[0];
            Fill(s, included, offered) ==
            Fill(AfterOffer(s, tx),
                 if ApplyTransaction(s, tx).Ok? then included + [(tx, ApplyTransaction(s, tx).value.1)] else included,
                 offered[1..])
  {
  }

  lemma Regrouped<T>(a: seq<T>, t: T, b: seq<T>)
    ensures a + [t] + b == a + ([t] + b)
  {
  }
}
