/** What transactions do for whom, and which transaction undoes which. */
module Effects {
  import opened Sequences
  import opened Uint128
  import opened Ledger
  import opened Points
  import opened Votes

  /** An account up to the time it was last looked at. */
  ghost predicate SameBut(acc: Account, acc': Account) {
    acc' == acc.(lastPointsTs := acc'.lastPointsTs)
  }

  /** Only the accounts of one or two addresses have changed. */
  ghost predicate OthersUntouched(s: State, s': State, a: Address, b: Address) {
    && s'.accounts.Keys == s.accounts.Keys + {a, b}
    && forall x :: x in s.accounts && x != a && x != b ==> s'.accounts[x] == s.accounts[x]
  }

  /** What a fetch gives after an account has been fetched, changed and written in the same block. */
  lemma FetchedAgain(s: State, a: Address, acc: Account, s': State)
    requires GetAccount(s, a).Ok? && s'.timestamp == s.timestamp && a in s'.accounts && s'.accounts[a] == acc
    requires var f := GetAccount(s, a).value;
             acc == f.(balance := acc.balance, alias := acc.alias, candidateId := acc.candidateId)
    ensures GetAccount(s', a).Ok? && SameBut(acc, GetAccount(s', a).value)
  {
    FetchedIsCurrent(s, a);
    Refetched(s', a);
  }

  lemma DepositMoves(s: State, to: Address, value: Amount)
    requires Deposit(s, to, value).Ok?
    ensures var s' := Deposit(s, to, value).value;
            && GetAccount(s', to).Ok? && GetAccount(s', to).value.balance == GetAccount(s, to).value.balance + value
            && s' == PutAccount(s, to, s'.accounts[to])
  {
    var s' := Deposit(s, to, value).value;
    FetchedAgain(s, to, s'.accounts[to], s');
  }

  /** A transfer takes its value from the sender and gives it to the receiver, who may be the same. */
  lemma TransferMoves(s: State, from: Address, to: Address, value: Amount)
    requires ExecuteTransfer(s, from, to, value).Ok?
    ensures var s' := ExecuteTransfer(s, from, to, value).value;
            && GetAccount(s, to).Ok? && GetAccount(s', from).Ok? && GetAccount(s', to).Ok?
            && GetAccount(s', from).value.balance == GetAccount(s, from).value.balance - (if from == to then 0 else value)
            && GetAccount(s', to).value.balance == GetAccount(s, to).value.balance + (if from == to then 0 else value)
            && OthersUntouched(s, s', from, to) && s'.candidates == s.candidates && s'.aliases == s.aliases
  {
    var sender := GetAccount(s, from).value;
    var taken := sender.(balance := sender.balance - value);
    var s1 := PutAccount(s, from, taken);
    assert ExecuteTransfer(s, from, to, value) == Deposit(s1, to, value);
    FetchedAgain(s, from, taken, s1);
    DepositMoves(s1, to, value);
    if from != to {
      FetchedAgain(s, from, taken, Deposit(s1, to, value).value);
    }
  }

  // --------------------------------------------------------------------------------------------
  // Stake and vote
  // --------------------------------------------------------------------------------------------

  /** Changing powers by an amount and back leaves the candidates as they were. */
  lemma PowersBack(cs: Candidates, cs': Candidates, cs'': Candidates, ids: seq<Id>, delta: int)
    requires PowersChanged(cs, cs', ids, delta) && PowersChanged(cs', cs'', ids, 0 - delta)
    ensures cs'' == cs
  {
    assert forall id :: id in cs ==> cs''[id] == cs[id];
  }

  /** A stake moves coins from the balance to the stake and brings as many points. */
  lemma StakeMoves(s: State, user: Address, amount: Amount)
    requires ExecuteStake(s, user, amount).Ok?
    ensures var acc, s' := GetAccount(s, user).value, ExecuteStake(s, user, amount).value;
            && user in s'.accounts && OthersUntouched(s, s', user, user)
            && s'.accounts[user] == acc.(balance := acc.balance - amount, staking := acc.staking + amount,
                                         points := acc.points + amount)
            && (Distinct(acc.voted) ==> PowersChanged(s.candidates, s'.candidates, acc.voted, amount))
  {
    var acc := GetAccount(s, user).value;
    if Distinct(acc.voted) {
      ChangesPowers(s.candidates, acc.voted, amount, false);
    }
  }

  /** Unstaking sets coins aside that come back a week later, and leaves no more points than stake. */
  lemma UnstakeMoves(s: State, user: Address, amount: Amount)
    requires ExecuteUnstake(s, user, amount).Ok?
    ensures var acc, s' := GetAccount(s, user).value, ExecuteUnstake(s, user, amount).value;
            && user in s'.accounts && OthersUntouched(s, s', user, user)
            && s'.accounts[user] == acc.(staking := acc.staking - amount, unstaking := acc.unstaking + amount,
                                         lastUnstakingTs := s.timestamp,
                                         points := Min(acc.points, acc.staking - amount))
            && (Distinct(acc.voted) ==> PowersChanged(s.candidates, s'.candidates, acc.voted, 0 - amount))
  {
    var acc := GetAccount(s, user).value;
    if Distinct(acc.voted) {
      ChangesPowers(s.candidates, acc.voted, 0 - amount, false);
    }
  }

  /**
   Coins that have been unstaked are back in the balance, together with those that were on their way
   already, when the account is fetched a week later or more, and not before; coins unstaked at time
   zero, in the genesis block, do not come back until more are unstaked.
   */
  lemma UnstakedCoinsReturn(s: State, user: Address, amount: Amount, later: State)
    requires ExecuteUnstake(s, user, amount).Ok? && GetAccount(later, user).Ok?
    requires user in later.accounts && later.accounts[user] == ExecuteUnstake(s, user, amount).value.accounts[user]
    ensures var acc, acc' := GetAccount(s, user).value, GetAccount(later, user).value;
            if s.timestamp > 0 && later.timestamp >= s.timestamp + 604800
            then acc'.balance == acc.balance + acc.unstaking + amount && acc'.unstaking == 0
            else acc'.balance == acc.balance && acc'.unstaking == acc.unstaking + amount
  {
    UnstakeMoves(s, user, amount);
  }

  /** Unstaking what has just been staked restores the stake and every candidate's power. */
  lemma StakeThenUnstake(s: State, user: Address, amount: Amount)
    requires VotesOk(s) && ExecuteStake(s, user, amount).Ok?
    requires ExecuteUnstake(ExecuteStake(s, user, amount).value, user, amount).Ok?
    ensures var s2 := ExecuteUnstake(ExecuteStake(s, user, amount).value, user, amount).value;
            s2.candidates == s.candidates && s2.accounts[user].staking == GetAccount(s, user).value.staking
  {
    var acc, s1 := GetAccount(s, user).value, ExecuteStake(s, user, amount).value;
    FetchedDistinct(s, user);
    StakeMoves(s, user, amount);
    FetchedFields(s1, user);
    UnstakeMoves(s1, user, amount);
    PowersBack(s.candidates, s1.candidates, ExecuteUnstake(s1, user, amount).value.candidates, acc.voted, amount);
  }

  /** A vote moves the voter's whole stake from the candidates it had voted for to those it votes for. */
  lemma VoteMoves(s: State, voter: Address, ids: seq<Id>)
    requires VotesOk(s) && ExecuteVote(s, voter, ids).Ok?
    ensures var acc, s' := GetAccount(s, voter).value, ExecuteVote(s, voter, ids).value;
            && voter in s'.accounts && s'.accounts[voter] == acc.(voted := ids)
            && OthersUntouched(s, s', voter, voter) && s'.candidates.Keys == s.candidates.Keys
            && forall id :: id in s.candidates ==>
                 s'.candidates[id].votePower ==
                 s.candidates[id].votePower + Delta(ids, id, acc.staking) - Delta(acc.voted, id, acc.staking)
  {
    var acc := GetAccount(s, voter).value;
    FetchedDistinct(s, voter);
    ChangesPowers(s.candidates, ids, acc.staking, true);
    var added := ChangeVotePowers(s.candidates, ids, acc.staking, true).value;
    ChangesPowers(added, acc.voted, 0 - acc.staking, false);
  }

  // --------------------------------------------------------------------------------------------
  // Candidates and aliases
  // --------------------------------------------------------------------------------------------

  /** Quitting as a candidate undoes becoming one: the collateral is back and the candidate is gone. */
  lemma BecomeThenQuit(s: State, addr: Address, id: Id, collateral: Amount)
    requires id !in s.candidates && ExecuteBecomeCandidate(s, addr, id, collateral).Ok?
    ensures var s1 := ExecuteBecomeCandidate(s, addr, id, collateral).value;
            && id in s1.candidates && s1.candidates[id] == Candidate(addr, collateral, 0)
            && ExecuteQuitCandidate(s1, addr).Ok?
            && var s2 := ExecuteQuitCandidate(s1, addr).value;
               && s2.candidates == s.candidates && OthersUntouched(s, s2, addr, addr)
               && SameBut(GetAccount(s, addr).value, s2.accounts[addr])
  {
    var s1 := ExecuteBecomeCandidate(s, addr, id, collateral).value;
    FetchedAgain(s, addr, s1.accounts[addr], s1);
  }

  /** Deregistering undoes registering an alias: the collateral is back and the name is free again. */
  lemma RegisterThenDeregister(s: State, addr: Address, name: string, collateral: Amount)
    requires name != "" && ExecuteRegisterAlias(s, addr, name, collateral).Ok?
    ensures var s1 := ExecuteRegisterAlias(s, addr, name, collateral).value;
            && name in s1.aliases && s1.aliases[name] == addr
            && ExecuteDeregisterAlias(s1, addr).Ok?
            && var s2 := ExecuteDeregisterAlias(s1, addr).value;
               && s2.aliases == s.aliases && OthersUntouched(s, s2, addr, addr)
               && SameBut(GetAccount(s, addr).value, s2.accounts[addr])
  {
    var s1 := ExecuteRegisterAlias(s, addr, name, collateral).value;
    FetchedAgain(s, addr, s1.accounts[addr], s1);
  }

  // --------------------------------------------------------------------------------------------
  // The reward
  // --------------------------------------------------------------------------------------------

  /** The reward is the inflation of the supply rounded down to a multiple of 10^10, and always defined. */
  lemma RewardIsRoundedInflation(supply: Amount)
    ensures MintReward(supply).Ok?
    ensures var reward := MintReward(supply).value;
            && reward % 10_000_000_000 == 0
            && reward * 100_000_000_000 <= supply * 464 < (reward + 10_000_000_000) * 100_000_000_000
  {
  }
}
