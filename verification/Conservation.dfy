/** Token conservation: what the ledger holds changes exactly as the recorded supply does. */
module Conservation {
  import opened Options
  import opened Uint128
  import opened Sums
  import opened Ledger
  import opened Points

  /** Everything an account owns: balance, stake, unstaking coins and alias collateral. */
  function Holdings(acc: Account): nat {
    acc.balance + acc.staking + acc.unstaking + if acc.alias.Some? then acc.alias.value.collateral else 0
  }

  ghost function AccountHoldings(accounts: Accounts): map<Address, int> {
    map a | a in accounts :: Holdings(accounts[a])
  }

  ghost function Collaterals(cs: Candidates): map<Id, int> {
    map c | c in cs :: cs[c].collateral
  }

  /** All the coins there are. */
  ghost function Total(s: State): int {
    Sum(AccountHoldings(s.accounts)) + Sum(Collaterals(s.candidates))
  }

  ghost function HoldingsAt(s: State, a: Address): nat {
    if a in s.accounts then Holdings(s.accounts[a]) else 0
  }

  /** Looking at an account lets matured coins return to the balance, which changes no total. */
  lemma FetchedHoldings(s: State, a: Address)
    requires GetAccount(s, a).Ok?
    ensures Holdings(GetAccount(s, a).value) == HoldingsAt(s, a)
  {
  }

  lemma TotalAfterPut(s: State, a: Address, acc: Account)
    ensures Total(PutAccount(s, a, acc)) == Total(s) - HoldingsAt(s, a) + Holdings(acc)
  {
    SumPut(AccountHoldings(s.accounts), a, Holdings(acc));
    assert AccountHoldings(s.accounts[a := acc]) == AccountHoldings(s.accounts)[a := Holdings(acc)];
  }

  /** Writing a fetched account back changes the total by what its holdings have changed by. */
  lemma PutFetched(s: State, a: Address, acc: Account)
    requires GetAccount(s, a).Ok?
    ensures Total(PutAccount(s, a, acc)) == Total(s) - Holdings(GetAccount(s, a).value) + Holdings(acc)
  {
    FetchedHoldings(s, a);
    TotalAfterPut(s, a, acc);
  }

  lemma {:induction false} VotePowersKeepCollaterals(cs: Candidates, ids: seq<Id>, delta: int, strict: bool)
    requires ChangeVotePowers(cs, ids, delta, strict).Ok?
    ensures Collaterals(ChangeVotePowers(cs, ids, delta, strict).value) == Collaterals(cs)
    decreases |ids|
  {
    if ids != [] {
      if ids[0] in cs {
        var cs' := ChangeVotePower(cs, ids[0], delta).value;
        assert Collaterals(cs') == Collaterals(cs);
        VotePowersKeepCollaterals(cs', ids[1..], delta, strict);
      } else {
        VotePowersKeepCollaterals(cs, ids[1..], delta, strict);
      }
    }
  }

  lemma TransferConserves(s: State, from: Address, to: Address, value: Amount)
    requires ExecuteTransfer(s, from, to, value).Ok?
    ensures Total(ExecuteTransfer(s, from, to, value).value) == Total(s)
  {
    var sender := GetAccount(s, from).value;
    var paid := sender.(balance := sender.balance - value);
    var s1 := PutAccount(s, from, paid);
    var receiver := GetAccount(s1, to).value;
    var got := receiver.(balance := receiver.balance + value);
    assert ExecuteTransfer(s, from, to, value) == Ok(PutAccount(s1, to, got));
    PutFetched(s, from, paid);
    PutFetched(s1, to, got);
  }

  lemma StakeConserves(s: State, user: Address, amount: Amount)
    requires ExecuteStake(s, user, amount).Ok?
    ensures Total(ExecuteStake(s, user, amount).value) == Total(s)
  {
    var s' := ExecuteStake(s, user, amount).value;
    PutFetched(s, user, s'.accounts[user]);
    VotePowersKeepCollaterals(s.candidates, GetAccount(s, user).value.voted, amount, false);
  }

  lemma UnstakeConserves(s: State, user: Address, amount: Amount)
    requires ExecuteUnstake(s, user, amount).Ok?
    ensures Total(ExecuteUnstake(s, user, amount).value) == Total(s)
  {
    var s' := ExecuteUnstake(s, user, amount).value;
    PutFetched(s, user, s'.accounts[user]);
    VotePowersKeepCollaterals(s.candidates, GetAccount(s, user).value.voted, 0 - amount, false);
  }

  lemma VoteConserves(s: State, voter: Address, ids: seq<Id>)
    requires ExecuteVote(s, voter, ids).Ok?
    ensures Total(ExecuteVote(s, voter, ids).value) == Total(s)
  {
    var acc := GetAccount(s, voter).value;
    var s' := ExecuteVote(s, voter, ids).value;
    PutFetched(s, voter, s'.accounts[voter]);
    VotePowersKeepCollaterals(s.candidates, ids, acc.staking, true);
    VotePowersKeepCollaterals(ChangeVotePowers(s.candidates, ids, acc.staking, true).value, acc.voted, 0 - acc.staking, false);
  }

  lemma BecomeCandidateConserves(s: State, addr: Address, id: Id, collateral: Amount)
    requires id !in s.candidates && ExecuteBecomeCandidate(s, addr, id, collateral).Ok?
    ensures Total(ExecuteBecomeCandidate(s, addr, id, collateral).value) == Total(s)
  {
    var s' := ExecuteBecomeCandidate(s, addr, id, collateral).value;
    PutFetched(s, addr, s'.accounts[addr]);
    SumPut(Collaterals(s.candidates), id, collateral);
    assert Collaterals(s'.candidates) == Collaterals(s.candidates)[id := collateral];
  }

  lemma QuitCandidateConserves(s: State, addr: Address)
    requires ExecuteQuitCandidate(s, addr).Ok?
    ensures Total(ExecuteQuitCandidate(s, addr).value) == Total(s)
  {
    var id := GetAccount(s, addr).value.candidateId.value;
    var s' := ExecuteQuitCandidate(s, addr).value;
    PutFetched(s, addr, s'.accounts[addr]);
    SumRemove(Collaterals(s.candidates), id);
    assert Collaterals(s'.candidates) == Collaterals(s.candidates) - {id};
  }

  lemma OneAccountConserves(s: State, addr: Address, s': State)
    requires GetAccount(s, addr).Ok? && addr in s'.accounts
    requires s'.accounts == s.accounts[addr := s'.accounts[addr]] && s'.candidates == s.candidates
    requires Holdings(s'.accounts[addr]) == Holdings(GetAccount(s, addr).value)
    ensures Total(s') == Total(s)
  {
    PutFetched(s, addr, s'.accounts[addr]);
  }

  lemma RegisterAliasConserves(s: State, addr: Address, name: string, collateral: Amount)
    requires ExecuteRegisterAlias(s, addr, name, collateral).Ok?
    ensures Total(ExecuteRegisterAlias(s, addr, name, collateral).value) == Total(s)
  {
    OneAccountConserves(s, addr, ExecuteRegisterAlias(s, addr, name, collateral).value);
  }

  lemma DeregisterAliasConserves(s: State, addr: Address)
    requires ExecuteDeregisterAlias(s, addr).Ok?
    ensures Total(ExecuteDeregisterAlias(s, addr).value) == Total(s)
  {
    OneAccountConserves(s, addr, ExecuteDeregisterAlias(s, addr).value);
  }

  /** Only the genesis block's distributions change the supply. */
  lemma SupplyUnchanged(s: State, tx: Tx)
    requires Execute(s, tx).Ok?
    ensures Execute(s, tx).value.supply == s.supply || tx.payload.GenesisDistribution?
  {
    match tx.payload
    case RegisterAlias(_, _) =>
    case DeregisterAlias =>
    case BecomeCandidate(_) =>
    case QuitCandidate =>
    case _ =>
  }

  lemma GenesisDistributionConserves(s: State, target: Address, amount: Amount)
    requires ExecuteGenesisDistribution(s, target, amount).Ok?
    ensures var s' := ExecuteGenesisDistribution(s, target, amount).value;
            Total(s') - s'.supply == Total(s) - s.supply
  {
    var s' := ExecuteGenesisDistribution(s, target, amount).value;
    PutFetched(s, target, s'.accounts[target]);
  }

  /** Executing any transaction keeps the difference between what there is and the supply. */
  lemma ExecuteConserves(s: State, tx: Tx)
    requires Execute(s, tx).Ok? && (tx.payload.BecomeCandidate? ==> tx.Hash() !in s.candidates)
    ensures var s' := Execute(s, tx).value; Total(s') - s'.supply == Total(s) - s.supply
  {
    SupplyUnchanged(s, tx);
    match tx.payload
    case Transfer(to, value) => TransferConserves(s, tx.from, to, value);
    case Stake(amount) => StakeConserves(s, tx.from, amount);
    case Unstake(amount) => UnstakeConserves(s, tx.from, amount);
    case Vote(ids) => VoteConserves(s, tx.from, ids);
    case BecomeCandidate(collateral) => BecomeCandidateConserves(s, tx.from, tx.Hash(), collateral);
    case QuitCandidate => QuitCandidateConserves(s, tx.from);
    case RegisterAlias(name, collateral) => RegisterAliasConserves(s, tx.from, name, collateral);
    case DeregisterAlias => DeregisterAliasConserves(s, tx.from);
    case Genesis =>
    case GenesisDistribution(target, amount) => GenesisDistributionConserves(s, target, amount);
  }

  /** Charging a transaction moves no coins. */
  lemma AcceptConserves(s: State, tx: Tx, receipt: Receipt)
    requires AcceptTransaction(s, tx, receipt).Ok?
    ensures var s' := AcceptTransaction(s, tx, receipt).value; Total(s') == Total(s) && s'.supply == s.supply
  {
    var s' := AcceptTransaction(s, tx, receipt).value;
    if tx.payer.Some? {
      TwoAccountsConserve(s, tx.from, s'.accounts[tx.from], tx.payer.value, s'.accounts[tx.payer.value], s');
    } else {
      OneAccountConserves(s, tx.from, s');
    }
  }

  lemma TwoAccountsConserve(s: State, a: Address, accA: Account, b: Address, accB: Account, s': State)
    requires GetAccount(s, a).Ok? && GetAccount(s, b).Ok?
    requires a == b ==> accA == accB
    requires s'.accounts == s.accounts[a := accA][b := accB] && s'.candidates == s.candidates
    requires Holdings(accA) == Holdings(GetAccount(s, a).value) && Holdings(accB) == Holdings(GetAccount(s, b).value)
    ensures Total(s') == Total(s)
  {
    var s1 := PutAccount(s, a, accA);
    PutFetched(s, a, accA);
    FetchedHoldings(s, b);
    TotalAfterPut(s1, b, accB);
  }

  /** A block reward is added to the supply and to what there is. */
  lemma RewardConserves(s: State, coinbase: Address, parentSupply: Amount)
    requires PayReward(s, coinbase, parentSupply).Ok? && s.supply == parentSupply
    ensures var s' := PayReward(s, coinbase, parentSupply).value;
            Total(s') - s'.supply == Total(s) - s.supply && s'.supply >= s.supply
  {
    var s' := PayReward(s, coinbase, parentSupply).value;
    PutFetched(s, coinbase, s'.accounts[coinbase]);
  }

  /** Where everything is accounted for, no account holds more than the supply. */
  lemma HoldingsWithinSupply(s: State, a: Address)
    requires Total(s) == s.supply
    ensures HoldingsAt(s, a) <= s.supply
  {
    var h, c := AccountHoldings(s.accounts), Collaterals(s.candidates);
    SumIsNonNegative(h);
    SumIsNonNegative(c);
    if a in s.accounts {
      PartOfSum(h, a);
    }
  }

  lemma TwoHoldingsWithinSupply(s: State, a: Address, b: Address)
    requires Total(s) == s.supply && a != b
    ensures HoldingsAt(s, a) + HoldingsAt(s, b) <= s.supply
  {
    var h, c := AccountHoldings(s.accounts), Collaterals(s.candidates);
    SumIsNonNegative(h);
    SumIsNonNegative(c);
    if a in s.accounts && b in s.accounts {
      SumSplit(h, a);
      PartOfSum(h - {a}, b);
    } else {
      HoldingsWithinSupply(s, a);
      HoldingsWithinSupply(s, b);
    }
  }

  /** A transfer never fails for an overflow of the receiver's balance. */
  lemma TransferFailsOnlyForLackOfBalance(s: State, from: Address, to: Address, value: Amount)
    requires Total(s) == s.supply
    requires GetAccount(s, from).Ok? && GetAccount(s, to).Ok?
    ensures ExecuteTransfer(s, from, to, value).Err? <==> GetAccount(s, from).value.balance < value
  {
    var sender := GetAccount(s, from).value;
    if sender.balance >= value {
      ReceiverHasRoom(s, from, to, value);
    }
  }

  lemma ReceiverHasRoom(s: State, from: Address, to: Address, value: Amount)
    requires Total(s) == s.supply
    requires GetAccount(s, from).Ok? && GetAccount(s, to).Ok? && value <= GetAccount(s, from).value.balance
    ensures var sender := GetAccount(s, from).value;
            var s1 := PutAccount(s, from, sender.(balance := sender.balance - value));
            GetAccount(s1, to).Ok? && GetAccount(s1, to).value.balance + value < LIMIT
  {
    if from == to {
      SenderHasRoom(s, from, value);
    } else {
      FetchedHoldings(s, from);
      FetchedHoldings(s, to);
      TwoHoldingsWithinSupply(s, from, to);
    }
  }

  lemma SenderHasRoom(s: State, from: Address, value: Amount)
    requires Total(s) == s.supply && GetAccount(s, from).Ok? && value <= GetAccount(s, from).value.balance
    ensures var sender := GetAccount(s, from).value;
            var s1 := PutAccount(s, from, sender.(balance := sender.balance - value));
            GetAccount(s1, from).Ok? && GetAccount(s1, from).value.balance + value < LIMIT
  {
    var sender := GetAccount(s, from).value;
    FetchedHoldings(s, from);
    FetchedIsCurrent(s, from);
    Refetched(PutAccount(s, from, sender.(balance := sender.balance - value)), from);
    HoldingsWithinSupply(s, from);
  }
}
