/** When an account can be fetched, when a transaction executes, and what a block pays out. */
module Refusals {
  import opened Options
  import opened Sequences
  import opened Uint128
  import opened Ledger
  import opened Points
  import opened Votes
  import opened Effects

  // --------------------------------------------------------------------------------------------
  // Accounts
  // --------------------------------------------------------------------------------------------

  /** The coins that an account has unstaked are back a week after the last of them were unstaked. */
  ghost predicate ComesBack(acc: Account, ts: nat) {
    acc.lastUnstakingTs != 0 && ts >= acc.lastUnstakingTs + 604800
  }

  ghost predicate PointsInRange(acc: Account, ts: nat) {
    && acc.lastPointsTs <= ts && acc.points <= acc.staking
    && (ts - acc.lastPointsTs < 604800 ==> acc.staking * (ts - acc.lastPointsTs) < LIMIT)
  }

  /** An account as of a time, from how it is stored. */
  ghost predicate AsOf(acc: Account, ts: nat, acc': Account) {
    && acc' == acc.(points := acc'.points, lastPointsTs := ts, balance := acc'.balance, unstaking := acc'.unstaking,
                    lastUnstakingTs := acc'.lastUnstakingTs)
    && (if acc.lastPointsTs == ts then acc'.points == acc.points
        else PointsInRange(acc, ts) && acc'.points == Regenerated(acc.staking, acc.points, ts - acc.lastPointsTs))
    && if ComesBack(acc, ts)
       then acc'.balance == acc.balance + acc.unstaking && acc'.unstaking == 0 && acc'.lastUnstakingTs == 0
       else acc'.balance == acc.balance && acc'.unstaking == acc.unstaking && acc'.lastUnstakingTs == acc.lastUnstakingTs
  }

  /** A fetch gives the account as of the time of the block, or an empty one. */
  lemma FetchedIff(s: State, a: Address, acc: Account)
    ensures GetAccount(s, a) == Ok(acc) <==>
            if a in s.accounts then AsOf(s.accounts[a], s.timestamp, acc)
            else acc == Account(0, 0, 0, [], None, 0, 0, 0, 0, None)
  {
    if a in s.accounts && s.accounts[a].lastPointsTs != s.timestamp {
      PointsFailIff(s.accounts[a], s.timestamp);
      if CurrentPoints(s.accounts[a], s.timestamp).Ok? {
        PointsAreRegenerated(s.accounts[a], s.timestamp);
      }
    }
  }

  // --------------------------------------------------------------------------------------------
  // Payloads
  // --------------------------------------------------------------------------------------------

  ghost predicate PowersStayInRange(cs: Candidates, ids: seq<Id>, delta: int) {
    forall id :: id in ids && id in cs ==> 0 <= cs[id].votePower + delta < LIMIT
  }

  ghost predicate MayTransfer(s: State, from: Account, sender: Address, to: Address, value: nat) {
    && value <= from.balance
    && (sender == to || (GetAccount(s, to).Ok? && GetAccount(s, to).value.balance + value < LIMIT))
  }

  ghost predicate MayStake(s: State, acc: Account, amount: nat) {
    && amount <= acc.balance && acc.staking + amount < LIMIT && acc.points + amount < LIMIT
    && PowersStayInRange(s.candidates, acc.voted, amount)
  }

  ghost predicate MayUnstake(s: State, acc: Account, amount: nat) {
    amount <= acc.staking && acc.unstaking + amount < LIMIT && PowersStayInRange(s.candidates, acc.voted, 0 - amount)
  }

  /** At most 15 different candidates; the stake is added to their powers before it is taken from the others'. */
  ghost predicate MayVote(s: State, acc: Account, ids: seq<Id>) {
    && |ids| <= 15 && Distinct(ids)
    && (forall id :: id in ids ==> id in s.candidates && s.candidates[id].votePower + acc.staking < LIMIT)
    && (forall id :: id in acc.voted && id in s.candidates && id !in ids ==> s.candidates[id].votePower >= acc.staking)
  }

  ghost predicate MayBecomeCandidate(acc: Account, collateral: nat) {
    acc.candidateId == None && acc.alias != None && 1_000_000_000_000_000_000 <= collateral <= acc.balance
  }

  ghost predicate MayQuit(s: State, acc: Account) {
    && acc.candidateId.Some? && acc.candidateId.value in s.candidates
    && acc.balance + s.candidates[acc.candidateId.value].collateral < LIMIT
  }

  ghost predicate MayRegister(s: State, acc: Account, name: string, collateral: nat) {
    acc.alias == None && name !in s.aliases && 1_000_000_000_000_000_000 <= collateral <= acc.balance
  }

  ghost predicate MayDeregister(s: State, acc: Account, addr: Address) {
    && acc.alias.Some? && acc.alias.value.name != ""
    && acc.alias.value.name in s.aliases && s.aliases[acc.alias.value.name] == addr
    && acc.balance + acc.alias.value.collateral < LIMIT
  }

  ghost predicate MayDistribute(s: State, acc: Account, amount: nat) {
    s.height == 1 && acc.balance == 0 && s.supply + amount < LIMIT
  }

  /** Whose account a transaction is about: the sender's or, at genesis, the target's. */
  ghost function About(tx: Tx): Address {
    if tx.payload.GenesisDistribution? then tx.payload.target else tx.from
  }

  ghost predicate May(s: State, tx: Tx, acc: Account) {
    match tx.payload
    case Transfer(to, value) => MayTransfer(s, acc, tx.from, to, value)
    case Stake(amount) => MayStake(s, acc, amount)
    case Unstake(amount) => MayUnstake(s, acc, amount)
    case Vote(ids) => MayVote(s, acc, ids)
    case BecomeCandidate(collateral) => MayBecomeCandidate(acc, collateral)
    case QuitCandidate => MayQuit(s, acc)
    case RegisterAlias(name, collateral) => MayRegister(s, acc, name, collateral)
    case DeregisterAlias => MayDeregister(s, acc, tx.from)
    case Genesis => s.height == 1
    case GenesisDistribution(target, amount) => MayDistribute(s, acc, amount)
  }

  lemma TransferIff(s: State, from: Address, to: Address, value: Amount)
    requires GetAccount(s, from).Ok?
    ensures ExecuteTransfer(s, from, to, value).Ok? <==> MayTransfer(s, GetAccount(s, from).value, from, to, value)
  {
    var sender := GetAccount(s, from).value;
    if value <= sender.balance {
      var taken := sender.(balance := sender.balance - value);
      var s1 := PutAccount(s, from, taken);
      assert Withdraw(s, from, value) == Ok(s1);
      if from == to {
        FetchedAgain(s, from, taken, s1);
      }
      DepositIff(s1, to, value);
    }
  }

  lemma DepositIff(s: State, to: Address, value: Amount)
    ensures Deposit(s, to, value).Ok? <==> GetAccount(s, to).Ok? && GetAccount(s, to).value.balance + value < LIMIT
  {
  }

  lemma {:induction false} AddingIff(cs: Candidates, ids: seq<Id>, amount: nat)
    requires Distinct(ids)
    ensures ChangeVotePowers(cs, ids, amount, true).Ok? <==>
            forall id :: id in ids ==> id in cs && cs[id].votePower + amount < LIMIT
    decreases |ids|
  {
    if ids != [] {
      assert ids == [ids[0]] + ids[1..];
      assert ids[0] !in ids[1..];
      if ids[0] in cs && cs[ids[0]].votePower + amount < LIMIT {
        var cs' := ChangeVotePower(cs, ids[0], amount).value;
        AddingIff(cs', ids[1..], amount);
        assert forall id :: id in ids[1..] ==> (id in cs <==> id in cs') && (id in cs ==> cs'[id] == cs[id]);
      }
    }
  }

  lemma VoteIff(s: State, voter: Address, ids: seq<Id>)
    requires GetAccount(s, voter).Ok? && Distinct(GetAccount(s, voter).value.voted)
    ensures ExecuteVote(s, voter, ids).Ok? <==> MayVote(s, GetAccount(s, voter).value, ids)
  {
    var acc := GetAccount(s, voter).value;
    if |ids| <= 15 && Distinct(ids) {
      AddingIff(s.candidates, ids, acc.staking);
      if ChangeVotePowers(s.candidates, ids, acc.staking, true).Ok? {
        ChangesPowers(s.candidates, ids, acc.staking, true);
        ChangeFails(ChangeVotePowers(s.candidates, ids, acc.staking, true).value, acc.voted, 0 - acc.staking);
      }
    }
  }

  lemma RegistersIff(s: State, tx: Tx)
    requires GetAccount(s, tx.from).Ok?
    requires tx.payload.BecomeCandidate? || tx.payload.QuitCandidate? ||
             tx.payload.RegisterAlias? || tx.payload.DeregisterAlias?
    ensures Execute(s, tx).Ok? <==> May(s, tx, GetAccount(s, tx.from).value)
  {
    match tx.payload
    case BecomeCandidate(_) =>
    case QuitCandidate =>
    case RegisterAlias(_, _) =>
    case DeregisterAlias =>
  }

  lemma StakesIff(s: State, tx: Tx)
    requires GetAccount(s, tx.from).Ok? && Distinct(GetAccount(s, tx.from).value.voted)
    requires tx.payload.Stake? || tx.payload.Unstake?
    ensures Execute(s, tx).Ok? <==> May(s, tx, GetAccount(s, tx.from).value)
  {
    var acc := GetAccount(s, tx.from).value;
    match tx.payload
    case Stake(amount) => ChangeFails(s.candidates, acc.voted, amount);
    case Unstake(amount) => ChangeFails(s.candidates, acc.voted, 0 - amount);
  }

  /** The transactions of an account that has not voted twice for the same candidate execute exactly if they may. */
  lemma ExecutesIff(s: State, tx: Tx)
    requires GetAccount(s, About(tx)).Ok? && Distinct(GetAccount(s, About(tx)).value.voted)
    ensures Execute(s, tx).Ok? <==> May(s, tx, GetAccount(s, About(tx)).value)
  {
    if tx.payload.Transfer? {
      TransferIff(s, tx.from, tx.payload.to, tx.payload.value);
    } else if tx.payload.Vote? {
      VoteIff(s, tx.from, tx.payload.candidates);
    } else if tx.payload.Stake? || tx.payload.Unstake? {
      StakesIff(s, tx);
    } else if !tx.payload.Genesis? && !tx.payload.GenesisDistribution? {
      RegistersIff(s, tx);
    }
  }

  /** What comes into being at genesis: the target's balance and as much supply. */
  lemma DistributionPays(s: State, target: Address, amount: Amount)
    requires ExecuteGenesisDistribution(s, target, amount).Ok?
    ensures var s' := ExecuteGenesisDistribution(s, target, amount).value;
            && target in s'.accounts && s'.accounts[target] == GetAccount(s, target).value.(balance := amount)
            && s' == s.(accounts := s.accounts[target := s'.accounts[target]], supply := s'.supply)
            && s'.supply == s.supply + amount
  {
  }

  // --------------------------------------------------------------------------------------------
  // The reward
  // --------------------------------------------------------------------------------------------

  /** 464 of 10^11 of the supply, in units of 10^10. */
  ghost predicate IsReward(supply: nat, reward: nat) {
    && reward % 10_000_000_000 == 0
    && reward * 100_000_000_000 <= supply * 464 < (reward + 10_000_000_000) * 100_000_000_000
  }

  /** The reward of a block goes to its coinbase and adds to the supply of the parent; nothing else changes. */
  lemma RewardIff(s: State, coinbase: Address, supply: Amount, s': State)
    ensures PayReward(s, coinbase, supply) == Ok(s') <==>
            && coinbase != 0 && GetAccount(s, coinbase).Ok? && IsReward(supply, s'.reward)
            && s'.supply == supply + s'.reward && coinbase in s'.accounts
            && var acc := GetAccount(s, coinbase).value;
               && s'.accounts[coinbase].balance == acc.balance + s'.reward
               && s'.accounts[coinbase] == acc.(balance := s'.accounts[coinbase].balance)
               && s' == s.(accounts := s.accounts[coinbase := s'.accounts[coinbase]],
                           reward := s'.reward, supply := s'.supply)
  {
    RewardIsRoundedInflation(supply);
    OneReward(supply, MintReward(supply).value, s'.reward);
  }

  lemma OneReward(supply: nat, a: nat, b: nat)
    requires IsReward(supply, a)
    ensures IsReward(supply, b) <==> a == b
  {
  }
}
