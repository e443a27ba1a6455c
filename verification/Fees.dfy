/** Points never exceed the stake, and when a transaction's fee can be taken. */
module Fees {
  import opened Options
  import opened Uint128
  import opened Ledger
  import opened Points

  ghost predicate PointsWithinStake(s: State) {
    forall a :: a in s.accounts ==> PointsOk(s.accounts[a])
  }

  lemma FetchedPoints(s: State, a: Address)
    requires PointsWithinStake(s) && GetAccount(s, a).Ok?
    ensures PointsOk(GetAccount(s, a).value)
  {
    if a in s.accounts {
      PointsFailIff(s.accounts[a], s.timestamp);
    }
  }

  lemma RefetchedPoints(s: State, a: Address)
    requires a in s.accounts && Current(s.accounts[a], s.timestamp)
    ensures GetAccount(s, a).Ok? && GetAccount(s, a).value.points == s.accounts[a].points
  {
    Refetched(s, a);
  }

  // --------------------------------------------------------------------------------------------
  // What executing does to points
  // --------------------------------------------------------------------------------------------

  function PointsAfter(acc: Account, p: Payload): int {
    match p
    case Stake(amount) => acc.points + amount
    case Unstake(amount) => if acc.staking - amount < acc.points then acc.staking - amount else acc.points
    case _ => acc.points
  }

  /** One account is written; it is current, and its points are what the payload makes of them. */
  ghost predicate Updated(s: State, a: Address, p: Payload, s': State) {
    && GetAccount(s, a).Ok? && s'.timestamp == s.timestamp
    && a in s'.accounts && s'.accounts == s.accounts[a := s'.accounts[a]]
    && Current(s'.accounts[a], s.timestamp)
    && s'.accounts[a].points == PointsAfter(GetAccount(s, a).value, p)
    && s'.accounts[a].nonce == GetAccount(s, a).value.nonce
    && (PointsOk(GetAccount(s, a).value) ==> PointsOk(s'.accounts[a]))
  }

  lemma StakeUpdates(s: State, user: Address, amount: Amount)
    requires amount != 0 && ExecuteStake(s, user, amount).Ok?
    ensures Updated(s, user, Stake(amount), ExecuteStake(s, user, amount).value)
  {
    FetchedIsCurrent(s, user);
  }

  lemma UnstakeUpdates(s: State, user: Address, amount: Amount)
    requires ExecuteUnstake(s, user, amount).Ok?
    ensures Updated(s, user, Unstake(amount), ExecuteUnstake(s, user, amount).value)
  {
    FetchedIsCurrent(s, user);
  }

  lemma VoteUpdates(s: State, voter: Address, ids: seq<Id>)
    requires ExecuteVote(s, voter, ids).Ok?
    ensures Updated(s, voter, Vote(ids), ExecuteVote(s, voter, ids).value)
  {
    FetchedIsCurrent(s, voter);
  }

  lemma BecomeCandidateUpdates(s: State, addr: Address, id: Id, collateral: Amount)
    requires ExecuteBecomeCandidate(s, addr, id, collateral).Ok?
    ensures Updated(s, addr, BecomeCandidate(collateral), ExecuteBecomeCandidate(s, addr, id, collateral).value)
  {
    FetchedIsCurrent(s, addr);
  }

  lemma QuitCandidateUpdates(s: State, addr: Address)
    requires ExecuteQuitCandidate(s, addr).Ok?
    ensures Updated(s, addr, QuitCandidate, ExecuteQuitCandidate(s, addr).value)
  {
    FetchedIsCurrent(s, addr);
  }

  lemma RegisterAliasUpdates(s: State, addr: Address, name: string, collateral: Amount)
    requires ExecuteRegisterAlias(s, addr, name, collateral).Ok?
    ensures Updated(s, addr, RegisterAlias(name, collateral), ExecuteRegisterAlias(s, addr, name, collateral).value)
  {
    FetchedIsCurrent(s, addr);
  }

  lemma DeregisterAliasUpdates(s: State, addr: Address)
    requires ExecuteDeregisterAlias(s, addr).Ok?
    ensures Updated(s, addr, DeregisterAlias, ExecuteDeregisterAlias(s, addr).value)
  {
    FetchedIsCurrent(s, addr);
  }

  lemma GenesisDistributionUpdates(s: State, target: Address, amount: Amount)
    requires ExecuteGenesisDistribution(s, target, amount).Ok?
    ensures Updated(s, target, GenesisDistribution(target, amount), ExecuteGenesisDistribution(s, target, amount).value)
  {
    FetchedIsCurrent(s, target);
  }

  /** A transfer writes the sender and then the receiver. */
  lemma TransferUpdates(s: State, from: Address, to: Address, value: Amount) returns (s1: State)
    requires ExecuteTransfer(s, from, to, value).Ok?
    ensures Updated(s, from, Transfer(to, value), s1)
    ensures Updated(s1, to, Transfer(to, value), ExecuteTransfer(s, from, to, value).value)
  {
    var sender := GetAccount(s, from).value;
    s1 := PutAccount(s, from, sender.(balance := sender.balance - value));
    FetchedIsCurrent(s, from);
    FetchedIsCurrent(s1, to);
  }

  /** Every other transaction writes the account of its sender, or of its target at genesis. */
  ghost function Subject(tx: Tx): Address {
    if tx.payload.GenesisDistribution? then tx.payload.target else tx.from
  }

  lemma OthersUpdate(s: State, tx: Tx)
    requires Convertible(tx) && Execute(s, tx).Ok? && !tx.payload.Transfer? && !tx.payload.Genesis?
    ensures Updated(s, Subject(tx), tx.payload, Execute(s, tx).value)
  {
    match tx.payload
    case Stake(amount) => StakeUpdates(s, tx.from, amount);
    case Unstake(amount) => UnstakeUpdates(s, tx.from, amount);
    case Vote(ids) => VoteUpdates(s, tx.from, ids);
    case BecomeCandidate(collateral) => BecomeCandidateUpdates(s, tx.from, tx.Hash(), collateral);
    case QuitCandidate => QuitCandidateUpdates(s, tx.from);
    case RegisterAlias(name, collateral) => RegisterAliasUpdates(s, tx.from, name, collateral);
    case DeregisterAlias => DeregisterAliasUpdates(s, tx.from);
    case GenesisDistribution(target, amount) => GenesisDistributionUpdates(s, target, amount);
  }

  // --------------------------------------------------------------------------------------------
  // Points within the stake
  // --------------------------------------------------------------------------------------------

  lemma UpdatedKeepsPoints(s: State, a: Address, p: Payload, s': State)
    requires PointsWithinStake(s) && Updated(s, a, p, s')
    ensures PointsWithinStake(s')
  {
    FetchedPoints(s, a);
  }

  lemma ExecuteKeepsPoints(s: State, tx: Tx)
    requires PointsWithinStake(s) && Convertible(tx) && Execute(s, tx).Ok?
    ensures PointsWithinStake(Execute(s, tx).value)
  {
    if tx.payload.Transfer? {
      var s1 := TransferUpdates(s, tx.from, tx.payload.to, tx.payload.value);
      UpdatedKeepsPoints(s, tx.from, tx.payload, s1);
      UpdatedKeepsPoints(s1, tx.payload.to, tx.payload, Execute(s, tx).value);
    } else if !tx.payload.Genesis? {
      OthersUpdate(s, tx);
      UpdatedKeepsPoints(s, Subject(tx), tx.payload, Execute(s, tx).value);
    }
  }

  lemma AcceptKeepsPoints(s: State, tx: Tx, receipt: Receipt)
    requires PointsWithinStake(s) && AcceptTransaction(s, tx, receipt).Ok?
    ensures PointsWithinStake(AcceptTransaction(s, tx, receipt).value)
  {
    FetchedPoints(s, tx.from);
    if tx.payer.Some? {
      FetchedPoints(s, tx.payer.value);
    }
  }

  lemma RewardKeepsPoints(s: State, coinbase: Address, parentSupply: Amount)
    requires PointsWithinStake(s) && PayReward(s, coinbase, parentSupply).Ok?
    ensures PointsWithinStake(PayReward(s, coinbase, parentSupply).value)
  {
    FetchedPoints(s, coinbase);
  }

  // --------------------------------------------------------------------------------------------
  // The fee
  // --------------------------------------------------------------------------------------------

  lemma UpdatedPoints(s: State, a: Address, p: Payload, s': State, b: Address)
    requires Updated(s, a, p, s') && GetAccount(s, b).Ok?
    ensures GetAccount(s', b).Ok?
    ensures GetAccount(s', b).value.points ==
            if a == b then PointsAfter(GetAccount(s, a).value, p) else GetAccount(s, b).value.points
  {
    if a == b {
      RefetchedPoints(s', a);
    }
  }

  /** The points an account is fetched with once a transaction has been executed. */
  lemma ExecutedPoints(s: State, tx: Tx, b: Address)
    requires Convertible(tx) && Execute(s, tx).Ok? && GetAccount(s, b).Ok?
    ensures var s' := Execute(s, tx).value;
            && GetAccount(s', b).Ok?
            && GetAccount(s', b).value.points ==
               if b == tx.from then PointsAfter(GetAccount(s, b).value, tx.payload) else GetAccount(s, b).value.points
  {
    if tx.payload.Transfer? {
      var s1 := TransferUpdates(s, tx.from, tx.payload.to, tx.payload.value);
      UpdatedPoints(s, tx.from, tx.payload, s1, b);
      UpdatedPoints(s1, tx.payload.to, tx.payload, Execute(s, tx).value, b);
    } else if !tx.payload.Genesis? {
      OthersUpdate(s, tx);
      UpdatedPoints(s, Subject(tx), tx.payload, Execute(s, tx).value, b);
    }
  }

  /** A stake that failed leaves its sender without the points it was going to add. */
  ghost predicate UnpaidStake(s: State, tx: Tx, receipt: Receipt) {
    && tx.payer.None? && tx.payload.Stake? && !receipt.executed
    && GetAccount(s, tx.from).Ok? && GetAccount(s, tx.from).value.points < receipt.points
  }

  /** An unstaking that its sender pays for by name takes away the stake that the points counted on. */
  ghost predicate UnpaidUnstake(s: State, tx: Tx, receipt: Receipt) {
    && tx.payer == Some(tx.from) && tx.payload.Unstake? && receipt.executed
    && GetAccount(s, tx.from).Ok? && GetAccount(s, tx.from).value.staking - tx.payload.amount < receipt.points
  }

  /**
   The fee of a transaction that passed the point check can be taken, unless the transaction is a
   stake that failed and its sender counted on the points it would have added, or an unstaking that
   names its sender as payer and leaves too small a stake.
   */
  lemma FeeIsPaidIff(s: State, tx: Tx)
    requires PointsWithinStake(s) && ExecuteTransaction(s, tx).Ok?
    ensures var (s1, receipt) := ExecuteTransaction(s, tx).value;
            AcceptTransaction(s1, tx, receipt).Ok? <==> !UnpaidStake(s, tx, receipt) && !UnpaidUnstake(s, tx, receipt)
  {
    var (s1, receipt) := ExecuteTransaction(s, tx).value;
    FetchedPoints(s, tx.from);
    if receipt.executed {
      ExecutedPoints(s, tx, tx.from);
      ExecutedPoints(s, tx, tx.PayerOrFrom());
      ChargedWhenPaid(s1, tx, receipt.points);
      PaidAfterExecuting(GetAccount(s, tx.from).value, tx, receipt.points);
    } else {
      ChargedWhenPaid(s, tx, receipt.points);
    }
  }

  /** Charging needs both accounts, and the payer's points. */
  lemma ChargedWhenPaid(s: State, tx: Tx, fee: Amount)
    requires GetAccount(s, tx.from).Ok? && GetAccount(s, tx.PayerOrFrom()).Ok?
    ensures Charge(s, tx, fee).Ok? <==> GetAccount(s, tx.PayerOrFrom()).value.points >= fee
  {
  }

  /** What the point check of a sender without payer is good for once the payload has been executed. */
  lemma PaidAfterExecuting(from: Account, tx: Tx, fee: Amount)
    requires PointsOk(from) && (tx.payload.Unstake? ==> tx.payload.amount <= from.staking)
    ensures CheckFromPoint(from, tx.payload, fee).Ok? ==> PointsAfter(from, tx.payload) >= fee
    ensures from.points >= fee ==>
            (PointsAfter(from, tx.payload) >= fee <==> !(tx.payload.Unstake? && from.staking - tx.payload.amount < fee))
  {
  }
}
