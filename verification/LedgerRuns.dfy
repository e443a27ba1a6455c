/** What every transaction keeps of the ledger, and what that makes impossible. */
module LedgerRuns {
  import opened Options
  import opened Uint128
  import opened Sums
  import opened Ledger
  import opened Points
  import opened Conservation
  import opened Votes
  import opened Fees
  import opened Registry

  /** No account has been updated at a time that is still to come. */
  ghost predicate NotAhead(s: State) {
    forall a :: a in s.accounts ==> s.accounts[a].lastPointsTs <= s.timestamp
  }

  /**
   Every coin is accounted for, candidates are registered, points are within the stake, and no
   candidate has more power than the stake behind it.
   */
  ghost predicate Solvent(s: State) {
    && Total(s) == s.supply && Registered(s) && PointsWithinStake(s) && NotAhead(s)
    && VotedDistinct(s) && PowersWithin(s)
  }

  // --------------------------------------------------------------------------------------------
  // Charging
  // --------------------------------------------------------------------------------------------

  /**
   Charging advances the sender's nonce by one exactly when the payer is somebody else or nobody:
   if the sender is named as payer, its account is written back once more without the new nonce.
   */
  lemma AcceptAdvancesNonceIff(s: State, tx: Tx, receipt: Receipt)
    requires AcceptTransaction(s, tx, receipt).Ok?
    ensures NonceOf(AcceptTransaction(s, tx, receipt).value, tx.from) == NonceOf(s, tx.from) + 1 <==>
            tx.payer != Some(tx.from)
  {
    FetchedFields(s, tx.from);
  }

  lemma AcceptKeepsOtherNonces(s: State, tx: Tx, receipt: Receipt, a: Address)
    requires AcceptTransaction(s, tx, receipt).Ok? && a != tx.from
    ensures NonceOf(AcceptTransaction(s, tx, receipt).value, a) == NonceOf(s, a)
  {
    if tx.payer == Some(a) {
      FetchedFields(s, a);
    }
  }

  /** Charging changes no votes and no stake. */
  lemma AcceptKeepsVotedAndStaked(s: State, tx: Tx, receipt: Receipt)
    requires AcceptTransaction(s, tx, receipt).Ok?
    ensures SameVotes(s.accounts, AcceptTransaction(s, tx, receipt).value.accounts)
  {
    ChargeKeepsVotedAndStaked(s, tx, receipt.points);
  }

  lemma ChargeKeepsVotedAndStaked(s: State, tx: Tx, fee: Amount)
    requires Charge(s, tx, fee).Ok?
    ensures SameVotes(s.accounts, Charge(s, tx, fee).value)
  {
    var accounts := Charge(s, tx, fee).value;
    if tx.payer.Some? {
      var from := GetAccount(s, tx.from).value;
      WritingKeepsVotes(s, tx.from, from.(nonce := from.nonce + 1));
      FetchedFields(s, tx.payer.value);
      SameVotesAgain(s.accounts, s.accounts[tx.from := from.(nonce := from.nonce + 1)],
                     tx.payer.value, accounts[tx.payer.value]);
    } else {
      WritingKeepsVotes(s, tx.from, accounts[tx.from]);
    }
  }

  lemma WritingKeepsVotes(s: State, a: Address, acc: Account)
    requires GetAccount(s, a).Ok?
    requires acc.voted == GetAccount(s, a).value.voted && acc.staking == GetAccount(s, a).value.staking
    ensures SameVotes(s.accounts, s.accounts[a := acc])
  {
    FetchedFields(s, a);
  }

  lemma SameVotesAgain(accounts: Accounts, accounts': Accounts, a: Address, acc: Account)
    requires SameVotes(accounts, accounts')
    requires var stored := if a in accounts then accounts[a] else NEW_ACCOUNT;
             acc.voted == stored.voted && acc.staking == stored.staking
    ensures SameVotes(accounts, accounts'[a := acc])
  {
  }

  /** Only an application for candidacy has to use its nonce up. */
  ghost predicate UsesNonce(tx: Tx) {
    tx.payload.BecomeCandidate? ==> tx.payer != Some(tx.from)
  }

  lemma AcceptKeepsVotes(s: State, tx: Tx, receipt: Receipt)
    requires PowersMatch(s) && VotedDistinct(s) && UsedBut(s, NewId(tx))
    requires tx.nonce == NonceOf(s, tx.from) + 1 && UsesNonce(tx)
    requires AcceptTransaction(s, tx, receipt).Ok?
    ensures VotesOk(AcceptTransaction(s, tx, receipt).value)
  {
    var s' := AcceptTransaction(s, tx, receipt).value;
    AcceptKeepsVotedAndStaked(s, tx, receipt);
    AcceptAdvancesNonceIff(s, tx, receipt);
    forall a | a != tx.from
      ensures NonceOf(s', a) == NonceOf(s, a)
    {
      AcceptKeepsOtherNonces(s, tx, receipt, a);
    }
    SameVotesKeepVotes(s, tx, s');
  }

  lemma SameVotesKeepVotes(s: State, tx: Tx, s': State)
    requires PowersMatch(s) && VotedDistinct(s) && UsedBut(s, NewId(tx))
    requires tx.nonce == NonceOf(s, tx.from) + 1
    requires SameVotes(s.accounts, s'.accounts) && s'.candidates == s.candidates
    requires forall a :: NonceOf(s', a) >= NonceOf(s, a)
    requires tx.payload.BecomeCandidate? ==> NonceOf(s', tx.from) == tx.nonce
    ensures VotesOk(s')
  {
    forall id | id in s'.candidates
      ensures s'.candidates[id].votePower == Support(s'.accounts, id)
    {
      SameSupport(s.accounts, s'.accounts, id);
    }
    assert forall id :: Used(s, id) || id in NewId(tx) ==> Used(s', id);
  }

  // --------------------------------------------------------------------------------------------
  // Transactions
  // --------------------------------------------------------------------------------------------

  /** Running and charging any transaction keeps the ledger solvent. */
  lemma ApplyKeepsSolvent(s: State, tx: Tx)
    requires Solvent(s) && ApplyTransaction(s, tx).Ok?
    ensures Solvent(ApplyTransaction(s, tx).value.0)
  {
    var (s1, receipt) := ExecuteTransaction(s, tx).value;
    ExecuteKeepsSolvent(s, tx);
    AcceptConserves(s1, tx, receipt);
    ChargeKeepsRegistered(s1, tx, receipt);
    AcceptKeepsPoints(s1, tx, receipt);
    AcceptIsNotAhead(s1, tx, receipt);
    AcceptKeepsCounts(s1, tx, receipt);
  }

  lemma ExecuteKeepsSolvent(s: State, tx: Tx)
    requires Solvent(s) && ExecuteTransaction(s, tx).Ok?
    ensures Solvent(ExecuteTransaction(s, tx).value.0)
  {
    if Execute(s, tx).Ok? {
      ExecuteKeepsRegistered(s, tx);
      ExecuteConserves(s, tx);
      ExecuteKeepsPoints(s, tx);
      ExecuteIsNotAhead(s, tx);
      ExecuteKeepsVotesIff(s, tx);
    }
  }

  /** Charging changes nothing that is counted. */
  lemma AcceptKeepsCounts(s: State, tx: Tx, receipt: Receipt)
    requires VotedDistinct(s) && AcceptTransaction(s, tx, receipt).Ok?
    ensures var s' := AcceptTransaction(s, tx, receipt).value;
            VotedDistinct(s') && (PowersMatch(s') <==> PowersMatch(s)) && (PowersWithin(s') <==> PowersWithin(s))
  {
    var s' := AcceptTransaction(s, tx, receipt).value;
    AcceptKeepsVotedAndStaked(s, tx, receipt);
    forall id
      ensures Support(s'.accounts, id) == Support(s.accounts, id)
    {
      SameSupport(s.accounts, s'.accounts, id);
    }
  }

  /** The sender may apply for candidacy: it is no candidate, has an alias, and can put up a collateral that suffices. */
  ghost predicate Eligible(s: State, tx: Tx) {
    && tx.payload.BecomeCandidate? && GetAccount(s, tx.from).Ok?
    && var acc := GetAccount(s, tx.from).value;
       && acc.candidateId.None? && acc.alias.Some?
       && CANDIDATE_COLLATERAL_MINIMUM <= tx.payload.collateral <= acc.balance
  }

  /** An application of an eligible sender under an id for which there are votes already. */
  ghost predicate TakesOver(s: State, tx: Tx) {
    Eligible(s, tx) && TakesUpVotes(s, tx)
  }

  /** Running and charging a transaction keeps the vote powers right exactly unless it takes over votes. */
  lemma ApplyKeepsCountsIff(s: State, tx: Tx)
    requires Registered(s) && CountsOk(s) && ApplyTransaction(s, tx).Ok?
    ensures PowersMatch(ApplyTransaction(s, tx).value.0) <==> !TakesOver(s, tx)
  {
    var (s1, receipt) := ExecuteTransaction(s, tx).value;
    if Execute(s, tx).Ok? {
      ExecuteKeepsRegistered(s, tx);
      ExecuteKeepsVotesIff(s, tx);
    }
    AcceptKeepsCounts(s1, tx, receipt);
    if tx.payload.BecomeCandidate? {
      EligibleExecutes(s, tx);
    }
  }

  lemma EligibleExecutes(s: State, tx: Tx)
    requires tx.payload.BecomeCandidate?
    ensures Eligible(s, tx) <==> Execute(s, tx).Ok?
  {
  }

  lemma ExecutedVotes(s: State, tx: Tx)
    requires VotesOk(s) && ExecuteTransaction(s, tx).Ok?
    ensures var s1 := ExecuteTransaction(s, tx).value.0;
            && PowersMatch(s1) && VotedDistinct(s1) && UsedBut(s1, NewId(tx))
            && tx.nonce == NonceOf(s1, tx.from) + 1
  {
    FetchedFields(s, tx.from);
    UnusedHasNoVotes(s, tx.Hash());
    if Execute(s, tx).Ok? {
      ExecuteKeepsVotesIff(s, tx);
      ExecuteKeepsNonces(s, tx, tx.from);
    }
  }

  /** While applications use their nonces up, no id gets votes before it is a candidate's. */
  lemma ApplyKeepsVotes(s: State, tx: Tx)
    requires VotesOk(s) && UsesNonce(tx) && ApplyTransaction(s, tx).Ok?
    ensures VotesOk(ApplyTransaction(s, tx).value.0)
  {
    var (s1, receipt) := ExecuteTransaction(s, tx).value;
    ExecutedVotes(s, tx);
    AcceptKeepsVotes(s1, tx, receipt);
  }

  lemma UpdatedKeepsNonces(s: State, b: Address, p: Payload, s': State, a: Address)
    requires Updated(s, b, p, s')
    ensures NonceOf(s', a) == NonceOf(s, a)
  {
    FetchedFields(s, b);
  }

  lemma ExecuteKeepsNonces(s: State, tx: Tx, a: Address)
    requires Convertible(tx) && Execute(s, tx).Ok?
    ensures NonceOf(Execute(s, tx).value, a) == NonceOf(s, a)
  {
    if tx.payload.Transfer? {
      var s1 := TransferUpdates(s, tx.from, tx.payload.to, tx.payload.value);
      UpdatedKeepsNonces(s, tx.from, tx.payload, s1, a);
      UpdatedKeepsNonces(s1, tx.payload.to, tx.payload, Execute(s, tx).value, a);
    } else if !tx.payload.Genesis? {
      OthersUpdate(s, tx);
      UpdatedKeepsNonces(s, Subject(tx), tx.payload, Execute(s, tx).value, a);
    }
  }

  lemma ExecuteIsNotAhead(s: State, tx: Tx)
    requires NotAhead(s) && Convertible(tx) && Execute(s, tx).Ok?
    ensures NotAhead(Execute(s, tx).value)
  {
    if tx.payload.Transfer? {
      var s1 := TransferUpdates(s, tx.from, tx.payload.to, tx.payload.value);
      assert NotAhead(s1);
    } else if !tx.payload.Genesis? {
      OthersUpdate(s, tx);
    }
  }

  lemma AcceptIsNotAhead(s: State, tx: Tx, receipt: Receipt)
    requires NotAhead(s) && AcceptTransaction(s, tx, receipt).Ok?
    ensures NotAhead(AcceptTransaction(s, tx, receipt).value)
  {
    FetchedIsCurrent(s, tx.from);
    if tx.payer.Some? {
      FetchedIsCurrent(s, tx.payer.value);
    }
  }

  /** Paying the block reward keeps the ledger solvent, and the votes counted. */
  lemma RewardKeepsSolvent(s: State, coinbase: Address, parentSupply: Amount)
    requires Solvent(s) && s.supply == parentSupply && PayReward(s, coinbase, parentSupply).Ok?
    ensures Solvent(PayReward(s, coinbase, parentSupply).value)
  {
    RewardConserves(s, coinbase, parentSupply);
    UnrelatedKeepsRegistered(s, coinbase, PayReward(s, coinbase, parentSupply).value);
    RewardKeepsPoints(s, coinbase, parentSupply);
    FetchedIsCurrent(s, coinbase);
    RewardKeepsCounts(s, coinbase, parentSupply);
  }

  lemma RewardKeepsCounts(s: State, coinbase: Address, parentSupply: Amount)
    requires VotedDistinct(s) && PayReward(s, coinbase, parentSupply).Ok?
    ensures var s' := PayReward(s, coinbase, parentSupply).value;
            && VotedDistinct(s') && (UsedBut(s, {}) ==> UsedBut(s', {}))
            && (PowersMatch(s) <==> PowersMatch(s')) && (PowersWithin(s) ==> PowersWithin(s'))
  {
    var s' := PayReward(s, coinbase, parentSupply).value;
    UnrelatedKeepsVotes(s, coinbase, s');
    GapsDecide(s, s');
    forall id | PowersMatch(s') && id in s.candidates
      ensures s.candidates[id].votePower == Support(s.accounts, id)
    {
      assert id in s'.candidates && Gap(s', id) == Gap(s, id);
    }
  }

  // --------------------------------------------------------------------------------------------
  // What cannot happen in a solvent ledger
  // --------------------------------------------------------------------------------------------

  /** The product of an account's stake and the seconds since its points were updated is out of range. */
  ghost predicate Unfetchable(s: State, a: Address) {
    && a in s.accounts
    && var elapsed := s.timestamp - s.accounts[a].lastPointsTs;
       elapsed < WEEK && s.accounts[a].staking * elapsed >= LIMIT
  }

  lemma FetchFailsIff(s: State, a: Address)
    requires Solvent(s)
    ensures GetAccount(s, a).Err? <==> Unfetchable(s, a)
  {
    if a in s.accounts {
      HoldingsWithinSupply(s, a);
      PointsFailIff(s.accounts[a], s.timestamp);
    }
  }

  /** The supply leaves room for a week's regeneration of the largest stake there could be. */
  predicate SupplyInRange(s: State) {
    s.supply * WEEK < LIMIT
  }

  lemma ProductInRange(staking: nat, supply: nat, elapsed: nat)
    requires staking <= supply && elapsed < WEEK && supply * WEEK < LIMIT
    ensures staking * elapsed < LIMIT
  {
    MulMonotone(elapsed, WEEK, staking);
    assert staking * WEEK <= supply * WEEK;
  }

  /** With such a supply an account can always be fetched. */
  lemma FetchNeverFails(s: State, a: Address)
    requires Solvent(s) && SupplyInRange(s)
    ensures GetAccount(s, a).Ok?
  {
    FetchFailsIff(s, a);
    if a in s.accounts && s.timestamp - s.accounts[a].lastPointsTs < WEEK {
      HoldingsWithinSupply(s, a);
      ProductInRange(s.accounts[a].staking, s.supply, s.timestamp - s.accounts[a].lastPointsTs);
    }
  }

  /** A candidate's support is at most all there is. */
  lemma SupportWithinTotal(s: State, id: Id)
    ensures Support(s.accounts, id) <= Total(s)
  {
    SumIsMonotone(Weights(s.accounts, id), AccountHoldings(s.accounts));
    SumIsNonNegative(Collaterals(s.candidates));
  }

  /** What an account may stake fits in its stake and in its points. */
  lemma StakedFits(s: State, user: Address, amount: Amount)
    requires Solvent(s) && GetAccount(s, user).Ok? && amount <= GetAccount(s, user).value.balance
    ensures var acc := GetAccount(s, user).value; acc.points + amount <= acc.staking + amount < LIMIT
  {
    FetchedHoldings(s, user);
    HoldingsWithinSupply(s, user);
    FetchedPoints(s, user);
  }

  lemma StakedPowersFit(s: State, user: Address, amount: Amount)
    requires Solvent(s) && GetAccount(s, user).Ok? && amount <= GetAccount(s, user).value.balance
    ensures ChangeVotePowers(s.candidates, GetAccount(s, user).value.voted, amount, false).Ok?
  {
    var acc := GetAccount(s, user).value;
    StakedFits(s, user, amount);
    FetchedDistinct(s, user);
    StakedPowersInRange(s, user, amount, acc.(balance := acc.balance - amount, staking := acc.staking + amount));
    ChangeFails(s.candidates, acc.voted, amount);
  }

  /** A stake fails for lack of balance and for nothing else. */
  lemma StakeFailsIff(s: State, user: Address, amount: Amount)
    requires Solvent(s) && GetAccount(s, user).Ok?
    ensures ExecuteStake(s, user, amount).Err? <==> GetAccount(s, user).value.balance < amount
  {
    if GetAccount(s, user).value.balance >= amount {
      StakedFits(s, user, amount);
      StakedPowersFit(s, user, amount);
    }
  }

  lemma StakedPowersInRange(s: State, user: Address, amount: Amount, acc': Account)
    requires Solvent(s) && GetAccount(s, user).Ok?
    requires var acc := GetAccount(s, user).value;
             && Holdings(acc') == Holdings(acc) && acc'.staking == acc.staking + amount && acc'.voted == acc.voted
    ensures forall id :: id in acc'.voted && id in s.candidates ==> s.candidates[id].votePower + amount < LIMIT
  {
    PutFetched(s, user, acc');
    forall id | id in acc'.voted && id in s.candidates
      ensures s.candidates[id].votePower + amount < LIMIT
    {
      SupportAfterPut(s, user, acc', id);
      SupportWithinTotal(PutAccount(s, user, acc'), id);
    }
  }

  /** Unstaking fails for lack of stake or, where powers have gone wrong, of power to take away. */
  lemma UnstakeFailsForStake(s: State, user: Address, amount: Amount)
    requires Solvent(s) && GetAccount(s, user).Ok?
    ensures var acc := GetAccount(s, user).value;
            ExecuteUnstake(s, user, amount).Err? <==> acc.staking < amount || !Covered(s, acc, amount)
    ensures PowersMatch(s) ==> (ExecuteUnstake(s, user, amount).Err? <==> GetAccount(s, user).value.staking < amount)
  {
    UnstakeFailsFor(s, user, amount);
    if PowersMatch(s) {
      UnstakeFailsIff(s, user, amount);
    }
    FetchedHoldings(s, user);
    HoldingsWithinSupply(s, user);
  }

  /** Quitting fails for an account that is no candidate and for nothing else: the collateral fits. */
  lemma QuitFailsIff(s: State, addr: Address)
    requires Solvent(s) && GetAccount(s, addr).Ok?
    ensures ExecuteQuitCandidate(s, addr).Err? <==> GetAccount(s, addr).value.candidateId.None?
  {
    FetchedFields(s, addr);
    var acc := GetAccount(s, addr).value;
    if acc.candidateId.Some? {
      assert Candidacy(s, addr) == acc.candidateId;
      CollateralFits(s, addr, acc.candidateId.value);
    }
  }

  lemma CollateralFits(s: State, a: Address, id: Id)
    requires Total(s) == s.supply && GetAccount(s, a).Ok? && id in s.candidates
    ensures GetAccount(s, a).value.balance + s.candidates[id].collateral < LIMIT
  {
    FetchedHoldings(s, a);
    SumIsNonNegative(AccountHoldings(s.accounts));
    if a in s.accounts {
      PartOfSum(AccountHoldings(s.accounts), a);
    }
    PartOfSum(Collaterals(s.candidates), id);
  }

  /** A stake above the sender's balance that counts on the points it would have brought. */
  ghost predicate StakesTooMuch(tx: Tx, from: Account, usage: Amount) {
    && tx.payload.Stake? && tx.payer.None?
    && from.balance < tx.payload.amount && from.points < usage
  }

  /** An unstaking that takes away the stake its points need, and names its sender as payer. */
  ghost predicate UnstakesTooMuch(s: State, tx: Tx, from: Account, usage: Amount) {
    && tx.payload.Unstake? && tx.payer == Some(tx.from)
    && tx.payload.amount <= from.staking < tx.payload.amount + usage && Covered(s, from, tx.payload.amount)
  }

  /** Whether a transaction that may run can also be charged, told from the state before. */
  lemma ChargedIff(s: State, tx: Tx)
    requires Solvent(s) && ExecuteTransaction(s, tx).Ok?
    ensures var from, usage := GetAccount(s, tx.from).value, PointUsage(s, tx).value;
            ApplyTransaction(s, tx).Err? <==> StakesTooMuch(tx, from, usage) || UnstakesTooMuch(s, tx, from, usage)
  {
    FeeIsPaidIff(s, tx);
    if tx.payload.Stake? {
      StakeFailsIff(s, tx.from, tx.payload.amount);
    }
    if tx.payload.Unstake? {
      UnstakeFailsForStake(s, tx.from, tx.payload.amount);
    }
  }
}
