/** Making a block on top of a state, and checking a block received from somebody else. */
module BlockProduction {
  import opened Options
  import opened Errors
  import opened Uint128
  import opened Words
  import opened Ledger
  import opened Slots
  import opened Dynasties
  import BlockTree

  const INTERVAL := BlockTree.BLOCK_INTERVAL

  /**
   A block as it travels: header fields, signer and transactions with their receipts.  The header
   has the tables themselves where the code has their root hashes: equal roots and equal contents
   are the same thing for tries.
   */
  datatype BlockData = BlockData(
    height: nat,
    timestamp: nat,
    coinbase: Address,
    signer: Address,
    reward: Amount,
    supply: Amount,
    cpuPrice: Amount,
    cpuUsage: nat,
    netPrice: Amount,
    netUsage: nat,
    accounts: Accounts,
    aliases: map<string, Address>,
    candidates: Candidates,
    dynasty: map<nat, Address>,
    txTable: map<Id, (Tx, Receipt)>,
    transactions: seq<(Tx, Receipt)>)

  // --------------------------------------------------------------------------------------------
  // Child states
  // --------------------------------------------------------------------------------------------

  const BLOCKS_IN_WINDOW := 201600

  function MinPrice(supply: Amount, limit: nat): Result<Amount>
    requires limit > 0
  {
    MulWithRat(supply / BLOCKS_IN_WINDOW / limit, 1, 100)
  }

  function ChildPrice(price: Amount, usage: nat, limit: nat, supply: Amount): Result<Amount>
    requires limit > 0
  {
    var moved :- if usage <= limit * 5 / 10 then MulWithRat(price, 95, 100) else MulWithRat(price, 105, 100);
    var floor :- MinPrice(supply, limit);
    Ok(if floor > moved then floor else moved)
  }

  /**
   The price follows the demand: it is never below the floor; above the floor it does not fall after a
   block that was more than half full, does not rise after any other, and moves by at most a twentieth.
   */
  lemma PriceFollowsDemand(price: Amount, usage: nat, limit: nat, supply: Amount)
    requires limit > 0 && ChildPrice(price, usage, limit, supply).Ok?
    ensures var p, floor := ChildPrice(price, usage, limit, supply).value, MinPrice(supply, limit).value;
            && p >= floor
            && (2 * usage <= limit ==> p <= price || p == floor)
            && (2 * usage > limit + 1 ==> p >= price)
            && (p != floor ==> 95 * price - 100 < 100 * p <= 105 * price)
  {
  }

  /** The state a block on top of the parent starts from. */
  function InitChild(parent: State, ts: nat): Result<State> {
    var cpu :- ChildPrice(parent.cpuPrice, parent.cpuUsage, CPU_LIMIT, parent.supply);
    var net :- ChildPrice(parent.netPrice, parent.netUsage, NET_LIMIT, parent.supply);
    Ok(parent.(timestamp := ts, height := parent.height + 1, cpuUsage := 0, netUsage := 0, cpuPrice := cpu, netPrice := net))
  }

  function StartChild(n: nat, rank: Ranking, parent: State, ts: nat): Result<State>
    requires n > 0
  {
    var s :- InitChild(parent, ts);
    var dynasty := MintDynasty(n, rank, parent, ts);
    Ok(if dynasty.None? then s else s.(dynasty := SetDynasty(s.dynasty, dynasty.value)))
  }

  // --------------------------------------------------------------------------------------------
  // Checking
  // --------------------------------------------------------------------------------------------

  /** Runs the transactions of a block; each has to give the receipt that came with it. */
  function Replay(s: State, txs: seq<(Tx, Receipt)>): Result<State>
    decreases |txs|
  {
    if txs == [] then Ok(s)
    else
      var (s', receipt) :- ExecuteTransaction(s, txs[0].0);
      if receipt != txs[0].1 then Err(WrongReceipt)
      else
        var s'' :- AcceptTransaction(s', txs[0].0, txs[0].1);
        Replay(s'', txs[1..])
  }

  function CheckState(s: State, b: BlockData): Result<()> {
    if s.cpuPrice != b.cpuPrice then Err(InvalidCPUPrice)
    else if s.netPrice != b.netPrice then Err(InvalidNetPrice)
    else if s.reward != b.reward then Err(InvalidBlockReward)
    else if s.supply != b.supply then Err(InvalidBlockSupply)
    else if s.accounts != b.accounts || s.aliases != b.aliases then Err(InvalidBlockRoot)
    else if s.txs != b.txTable then Err(InvalidBlockRoot)
    else if s.candidates != b.candidates || s.dynasty != b.dynasty then Err(InvalidBlockRoot)
    else Ok(())
  }

  function CheckProposer(n: nat, s: State, signer: Address): Result<()>
    requires n > 0
  {
    var proposer :- GetProposer(s.dynasty, ProposerIndex(n, s.timestamp));
    if signer != proposer then Err(InvalidBlockProposer) else Ok(())
  }

  function CheckContents(s0: State, parentSupply: Amount, b: BlockData): Result<State> {
    var s1 :- Replay(s0, b.transactions);
    var s2 :- PayReward(s1, b.coinbase, parentSupply);
    var _ :- CheckState(s2, b);
    Ok(s2)
  }

  /** The state a block starts from, provided that its signer has the seat of its slot. */
  function CheckStart(n: nat, rank: Ranking, parent: State, ts: nat, signer: Address): Result<State>
    requires n > 0
  {
    var s0 :- StartChild(n, rank, parent, ts);
    var _ :- CheckProposer(n, s0, signer);
    Ok(s0)
  }

  function CheckExecution(n: nat, rank: Ranking, parent: State, b: BlockData): Result<State>
    requires n > 0
  {
    var s0 :- CheckStart(n, rank, parent, b.timestamp, b.signer);
    CheckContents(s0, parent.supply, b)
  }

  ghost function SumCpu(txs: seq<(Tx, Receipt)>): nat {
    if txs == [] then 0 else SumCpu(txs[..|txs| - 1]) + txs[|txs| - 1].1.cpuUsage
  }

  ghost function SumNet(txs: seq<(Tx, Receipt)>): nat {
    if txs == [] then 0 else SumNet(txs[..|txs| - 1]) + txs[|txs| - 1].1.netUsage
  }

  /** The usages in the header are within the limits and what the receipts add up to, modulo 2^64. */
  ghost predicate UsageOk(b: BlockData) {
    && b.cpuUsage <= CPU_LIMIT && SumCpu(b.transactions) % TWO_64 == b.cpuUsage
    && b.netUsage <= NET_LIMIT && SumNet(b.transactions) % TWO_64 == b.netUsage
  }

  /** A later time, by a whole number of slots. */
  ghost predicate InStep(a: nat, b: nat) {
    b > a && (b - a) % INTERVAL == 0
  }

  /** What a block's header is checked for before it is executed. */
  ghost predicate WellPlaced(parent: State, b: BlockData) {
    && UsageOk(b)
    && b.height == parent.height + 1
    && InStep(parent.timestamp, b.timestamp)
  }

  /** A node whose chain ends in the parent state takes the block over and reaches the given state. */
  ghost predicate Accepts(n: nat, rank: Ranking, parent: State, b: BlockData, s: State)
    requires n > 0
  {
    WellPlaced(parent, b) && CheckExecution(n, rank, parent, b) == Ok(s)
  }

  // --------------------------------------------------------------------------------------------
  // Making
  // --------------------------------------------------------------------------------------------

  /**
   Offers transactions to a block one after the other, on top of those it includes already.  One out
   of turn or refused is passed over; one that ran but cannot be charged aborts the block.
   */
  function Fill(s: State, included: seq<(Tx, Receipt)>, offered: seq<Tx>): Result<(State, seq<(Tx, Receipt)>)>
    decreases |offered|
  {
    if offered == [] then Ok((s, included))
    else
      var tx := offered[0];
      var from :- GetAccount(s, tx.from);
      if from.nonce + 1 != tx.nonce || ExecuteTransaction(s, tx).Err? then Fill(s, included, offered[1..])
      else
        var (s', receipt) := ExecuteTransaction(s, tx).value;
        var s'' :- AcceptTransaction(s', tx, receipt);
        Fill(s'', included + [(tx, receipt)], offered[1..])
  }

  function Complete(s0: State, parentSupply: Amount, coinbase: Address, offered: seq<Tx>)
    : Result<(State, seq<(Tx, Receipt)>)>
  {
    var (s1, txs) :- Fill(s0, [], offered);
    var s2 :- PayReward(s1, coinbase, parentSupply);
    Ok((s2, txs))
  }

  function Seal(s: State, coinbase: Address, signer: Address, txs: seq<(Tx, Receipt)>): BlockData {
    BlockData(s.height, s.timestamp, coinbase, signer, s.reward, s.supply, s.cpuPrice, s.cpuUsage, s.netPrice,
              s.netUsage, s.accounts, s.aliases, s.candidates, s.dynasty, s.txs, txs)
  }

  function MintFrom(s0: State, parentSupply: Amount, coinbase: Address, signer: Address, offered: seq<Tx>)
    : Result<(BlockData, State)>
  {
    var (s, txs) :- Complete(s0, parentSupply, coinbase, offered);
    Ok((Seal(s, coinbase, signer, txs), s))
  }

  /** A tick of the clock at a node with the given proposers and their coinbases. */
  function Mint(n: nat, rank: Ranking, proposers: map<Address, Address>, parent: State, now: nat, offered: seq<Tx>)
    : Result<(BlockData, State)>
    requires n > 0
  {
    var deadline :- CheckDeadline(parent.timestamp, now);
    MintAt(n, rank, proposers, parent, Unix(deadline), NextMintSlot(now), offered)
  }

  function MintAt(n: nat, rank: Ranking, proposers: map<Address, Address>, parent: State, deadline: nat, ts: nat,
                  offered: seq<Tx>): Result<(BlockData, State)>
    requires n > 0
  {
    var proposer :- FindMintProposer(n, rank, parent, deadline);
    if proposer !in proposers then Err(InvalidBlockProposer)
    else
      var s0 :- StartChild(n, rank, parent, ts);
      MintFrom(s0, parent.supply, proposers[proposer], proposer, offered)
  }

  // --------------------------------------------------------------------------------------------
  // Producer and verifier agree
  // --------------------------------------------------------------------------------------------

  lemma {:induction false} ReplayAppends(s: State, txs: seq<(Tx, Receipt)>, tx: Tx, receipt: Receipt, s1: State)
    requires Replay(s, txs).Ok?
    requires ExecuteTransaction(Replay(s, txs).value, tx) == Ok((s1, receipt))
    requires AcceptTransaction(s1, tx, receipt).Ok?
    ensures Replay(s, txs + [(tx, receipt)]) == AcceptTransaction(s1, tx, receipt)
    decreases |txs|
  {
    var longer := txs + [(tx, receipt)];
    if txs == [] {
      assert longer[1..] == [];
      assert Replay(AcceptTransaction(s1, tx, receipt).value, []) == AcceptTransaction(s1, tx, receipt);
    } else {
      assert longer[0] == txs[0] && longer[1..] == txs[1..] + [(tx, receipt)];
      var (s', _) := ExecuteTransaction(s, txs[0].0).value;
      ReplayAppends(AcceptTransaction(s', txs[0].0, txs[0].1).value, txs[1..], tx, receipt, s1);
    }
  }

  /** Refused transactions leave no trace: replaying the included ones alone gives the same state. */
  lemma {:induction false} FillReplays(start: State, s: State, included: seq<(Tx, Receipt)>, offered: seq<Tx>)
    requires Replay(start, included) == Ok(s) && Fill(s, included, offered).Ok?
    ensures var (s', txs) := Fill(s, included, offered).value; Replay(start, txs) == Ok(s')
    decreases |offered|
  {
    if offered != [] {
      var tx := offered[0];
      if GetAccount(s, tx.from).value.nonce + 1 != tx.nonce || ExecuteTransaction(s, tx).Err? {
        FillReplays(start, s, included, offered[1..]);
      } else {
        var (s1, receipt) := ExecuteTransaction(s, tx).value;
        ReplayAppends(start, included, tx, receipt, s1);
        FillReplays(start, AcceptTransaction(s1, tx, receipt).value, included + [(tx, receipt)], offered[1..]);
      }
    }
  }

  /** What transactions leave alone in a block's state. */
  ghost predicate SameHeader(s: State, s': State) {
    && s'.timestamp == s.timestamp && s'.height == s.height
    && s'.cpuPrice == s.cpuPrice && s'.netPrice == s.netPrice && s'.reward == s.reward
    && s'.cpuUsage == s.cpuUsage && s'.netUsage == s.netUsage && s'.txs == s.txs && s'.dynasty == s.dynasty
  }

  lemma StakingKeepsHeader(s: State, tx: Tx)
    requires tx.payload.Stake? || tx.payload.Unstake? || tx.payload.Vote?
    requires Execute(s, tx).Ok?
    ensures SameHeader(s, Execute(s, tx).value)
  {
  }

  lemma RegisteringKeepsHeader(s: State, tx: Tx)
    requires tx.payload.BecomeCandidate? || tx.payload.QuitCandidate? || tx.payload.RegisterAlias? || tx.payload.DeregisterAlias?
    requires Execute(s, tx).Ok?
    ensures SameHeader(s, Execute(s, tx).value)
  {
    match tx.payload
    case BecomeCandidate(_) =>
    case QuitCandidate =>
    case RegisterAlias(_, _) =>
    case DeregisterAlias =>
  }

  lemma ExecuteKeepsHeader(s: State, tx: Tx)
    requires Execute(s, tx).Ok?
    ensures SameHeader(s, Execute(s, tx).value)
  {
    match tx.payload
    case Transfer(_, _) =>
    case Stake(_) => StakingKeepsHeader(s, tx);
    case Unstake(_) => StakingKeepsHeader(s, tx);
    case Vote(_) => StakingKeepsHeader(s, tx);
    case BecomeCandidate(_) => RegisteringKeepsHeader(s, tx);
    case QuitCandidate => RegisteringKeepsHeader(s, tx);
    case RegisterAlias(_, _) => RegisteringKeepsHeader(s, tx);
    case DeregisterAlias => RegisteringKeepsHeader(s, tx);
    case Genesis =>
    case GenesisDistribution(_, _) =>
  }

  /** A charged transaction adds its receipt's usage, which still fits in the block. */
  lemma ApplyAddsUsage(s: State, tx: Tx)
    requires ApplyTransaction(s, tx).Ok?
    ensures var (s', receipt) := ApplyTransaction(s, tx).value;
            && s'.timestamp == s.timestamp && s'.height == s.height && s'.dynasty == s.dynasty
            && s'.cpuUsage == s.cpuUsage + receipt.cpuUsage <= CPU_LIMIT
            && s'.netUsage == s.netUsage + receipt.netUsage <= NET_LIMIT
  {
    if Execute(s, tx).Ok? {
      ExecuteKeepsHeader(s, tx);
    }
  }

  lemma SumsAppend(txs: seq<(Tx, Receipt)>, tx: Tx, receipt: Receipt)
    ensures SumCpu(txs + [(tx, receipt)]) == SumCpu(txs) + receipt.cpuUsage
    ensures SumNet(txs + [(tx, receipt)]) == SumNet(txs) + receipt.netUsage
  {
    var longer := txs + [(tx, receipt)];
    assert longer[..|longer| - 1] == txs;
  }

  ghost predicate UsageAddsUp(s: State, txs: seq<(Tx, Receipt)>) {
    s.cpuUsage == SumCpu(txs) <= CPU_LIMIT && s.netUsage == SumNet(txs) <= NET_LIMIT
  }

  lemma {:induction false} FillAddsUp(s: State, included: seq<(Tx, Receipt)>, offered: seq<Tx>)
    requires UsageAddsUp(s, included) && Fill(s, included, offered).Ok?
    ensures var (s', txs) := Fill(s, included, offered).value;
            UsageAddsUp(s', txs) && s'.timestamp == s.timestamp && s'.height == s.height
    decreases |offered|
  {
    if offered != [] {
      var tx := offered[0];
      if GetAccount(s, tx.from).value.nonce + 1 != tx.nonce || ExecuteTransaction(s, tx).Err? {
        FillAddsUp(s, included, offered[1..]);
      } else {
        var (s', receipt) := ApplyTransaction(s, tx).value;
        ApplyAddsUsage(s, tx);
        SumsAppend(included, tx, receipt);
        FillAddsUp(s', included + [(tx, receipt)], offered[1..]);
      }
    }
  }

  /** The included transactions are among those offered, and each is recorded with its receipt. */
  lemma {:induction false} FillIncludesOffered(s: State, included: seq<(Tx, Receipt)>, offered: seq<Tx>)
    requires Fill(s, included, offered).Ok?
    ensures var txs := Fill(s, included, offered).value.1;
            && included <= txs
            && forall i :: |included| <= i < |txs| ==> txs[i].0 in offered
    decreases |offered|
  {
    if offered != [] {
      var tx := offered[0];
      if GetAccount(s, tx.from).value.nonce + 1 != tx.nonce || ExecuteTransaction(s, tx).Err? {
        FillIncludesOffered(s, included, offered[1..]);
      } else {
        var (s', receipt) := ApplyTransaction(s, tx).value;
        FillIncludesOffered(s', included + [(tx, receipt)], offered[1..]);
      }
    }
  }

  lemma RewardKeepsHeader(s: State, coinbase: Address, parentSupply: Amount)
    requires PayReward(s, coinbase, parentSupply).Ok?
    ensures SameHeader(s, PayReward(s, coinbase, parentSupply).value.(reward := s.reward))
  {
  }

  lemma SealedStatePasses(s: State, coinbase: Address, signer: Address, txs: seq<(Tx, Receipt)>)
    ensures CheckState(s, Seal(s, coinbase, signer, txs)).Ok?
    ensures UsageAddsUp(s, txs) ==> UsageOk(Seal(s, coinbase, signer, txs))
  {
  }

  /** The contents of a completed block pass the checks, and the check ends in the same state. */
  lemma CompletedBlockPasses(s0: State, parentSupply: Amount, coinbase: Address, signer: Address, offered: seq<Tx>)
    requires s0.cpuUsage == s0.netUsage == 0 && Complete(s0, parentSupply, coinbase, offered).Ok?
    ensures var (s, txs) := Complete(s0, parentSupply, coinbase, offered).value;
            var b := Seal(s, coinbase, signer, txs);
            && CheckContents(s0, parentSupply, b) == Ok(s) && UsageOk(b)
            && s.timestamp == s0.timestamp && s.height == s0.height
  {
    var (s1, txs) := Fill(s0, [], offered).value;
    FillReplays(s0, s0, [], offered);
    FillAddsUp(s0, [], offered);
    RewardKeepsHeader(s1, coinbase, parentSupply);
    SealedStatePasses(PayReward(s1, coinbase, parentSupply).value, coinbase, signer, txs);
  }

  lemma StartOfChild(n: nat, rank: Ranking, parent: State, ts: nat)
    requires n > 0 && StartChild(n, rank, parent, ts).Ok?
    ensures var s0 := StartChild(n, rank, parent, ts).value;
            && s0.cpuUsage == s0.netUsage == 0 && s0.timestamp == ts && s0.height == parent.height + 1
            && s0.accounts == parent.accounts && s0.candidates == parent.candidates && s0.supply == parent.supply
  {
  }

  /** The proposer found from the deadline has the seat that the block is checked against. */
  lemma FoundProposerHasSeat(n: nat, rank: Ranking, parent: State, deadline: nat, ts: nat)
    requires n > 0 && NextMintSlotInSec(deadline) == ts
    requires FindMintProposer(n, rank, parent, deadline).Ok? && StartChild(n, rank, parent, ts).Ok?
    ensures CheckStart(n, rank, parent, ts, FindMintProposer(n, rank, parent, deadline).value) ==
            StartChild(n, rank, parent, ts)
  {
    DynastyMembers(AddressesOf(parent.candidates, rank(parent.candidates)), n);
  }

  /** What is made from a start state is well placed and passes the checks from the same start state. */
  lemma MadeBlockPasses(parent: State, s0: State, coinbase: Address, signer: Address, offered: seq<Tx>)
    requires MintFrom(s0, parent.supply, coinbase, signer, offered).Ok?
    requires s0.cpuUsage == s0.netUsage == 0 && s0.height == parent.height + 1
    requires InStep(parent.timestamp, s0.timestamp)
    ensures var (b, s) := MintFrom(s0, parent.supply, coinbase, signer, offered).value;
            && WellPlaced(parent, b) && b.timestamp == s0.timestamp && b.signer == signer
            && CheckContents(s0, parent.supply, b) == Ok(s)
  {
    CompletedBlockPasses(s0, parent.supply, coinbase, signer, offered);
  }

  lemma AcceptedAtLast(n: nat, rank: Ranking, parent: State, b: BlockData, s0: State, s: State)
    requires n > 0 && WellPlaced(parent, b)
    requires CheckStart(n, rank, parent, b.timestamp, b.signer) == Ok(s0)
    requires CheckContents(s0, parent.supply, b) == Ok(s)
    ensures Accepts(n, rank, parent, b, s)
  {
  }

  lemma MadeBlockIsAccepted(n: nat, rank: Ranking, parent: State, s0: State, coinbase: Address, signer: Address,
                            offered: seq<Tx>, b: BlockData, s: State)
    requires n > 0 && MadeBy(n, rank, parent, s0, coinbase, signer, offered, b, s)
    requires InStep(parent.timestamp, s0.timestamp)
    ensures Accepts(n, rank, parent, b, s) && b.timestamp == s0.timestamp
  {
    StartOfChild(n, rank, parent, s0.timestamp);
    MadeBlockPasses(parent, s0, coinbase, signer, offered);
    AcceptedAtLast(n, rank, parent, b, s0, s);
  }

  /** A block made from the state and with the proposer that it is going to be checked against. */
  ghost predicate MadeBy(n: nat, rank: Ranking, parent: State, s0: State, coinbase: Address, signer: Address,
                         offered: seq<Tx>, b: BlockData, s: State)
    requires n > 0
  {
    && CheckStart(n, rank, parent, s0.timestamp, signer) == Ok(s0)
    && MintFrom(s0, parent.supply, coinbase, signer, offered) == Ok((b, s))
  }

  lemma MintedAt(n: nat, rank: Ranking, proposers: map<Address, Address>, parent: State, deadline: nat, ts: nat,
                 offered: seq<Tx>, b: BlockData, s: State) returns (signer: Address, s0: State)
    requires n > 0 && MintAt(n, rank, proposers, parent, deadline, ts, offered) == Ok((b, s))
    requires NextMintSlotInSec(deadline) == ts
    ensures signer in proposers && s0.timestamp == ts
    ensures MadeBy(n, rank, parent, s0, proposers[signer], signer, offered, b, s)
  {
    signer := FindMintProposer(n, rank, parent, deadline).value;
    s0 := StartChild(n, rank, parent, ts).value;
    FoundProposerHasSeat(n, rank, parent, deadline, ts);
    StartOfChild(n, rank, parent, ts);
  }

  lemma MintedBy(n: nat, rank: Ranking, proposers: map<Address, Address>, parent: State, now: nat,
                 offered: seq<Tx>, b: BlockData, s: State) returns (signer: Address, s0: State)
    requires n > 0 && Mint(n, rank, proposers, parent, now, offered) == Ok((b, s))
    ensures signer in proposers && s0.timestamp == NextMintSlot(now)
    ensures MadeBy(n, rank, parent, s0, proposers[signer], signer, offered, b, s)
  {
    SlotIsTheSame(parent.timestamp, now);
    var deadline := Unix(CheckDeadline(parent.timestamp, now).value);
    signer, s0 := MintedAt(n, rank, proposers, parent, deadline, NextMintSlot(now), offered, b, s);
  }

  lemma MintedInStep(tailTs: nat, now: nat)
    requires tailTs % INTERVAL == 0 && CheckDeadline(tailTs, now).Ok?
    ensures InStep(tailTs, NextMintSlot(now))
  {
    SlotIsTheSame(tailTs, now);
  }

  /**
   Producer and verifier agree: every block a node mints on a state is accepted by every node with
   that state, which ends in the state of the producer.
   */
  lemma MintedBlockIsAccepted(n: nat, rank: Ranking, proposers: map<Address, Address>, parent: State, now: nat,
                              offered: seq<Tx>, b: BlockData, s: State)
    requires n > 0 && parent.timestamp % INTERVAL == 0
    requires Mint(n, rank, proposers, parent, now, offered) == Ok((b, s))
    ensures Accepts(n, rank, parent, b, s) && b.timestamp == NextMintSlot(now)
  {
    var signer, s0 := MintedBy(n, rank, proposers, parent, now, offered, b, s);
    MintedInStep(parent.timestamp, now);
    MadeBlockIsAccepted(n, rank, parent, s0, proposers[signer], signer, offered, b, s);
  }
}
