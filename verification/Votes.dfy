/** Vote power: what a candidate has is what those who voted for it have staked. */
module Votes {
  import opened Sequences
  import opened Uint128
  import opened Sums
  import opened Ledger

  function Weight(acc: Account, id: Id): nat {
    if id in acc.voted then acc.staking else 0
  }

  ghost function Weights(accounts: Accounts, id: Id): map<Address, int> {
    map a | a in accounts :: Weight(accounts[a], id)
  }

  /** The stake of the accounts that voted for a candidate. */
  ghost function Support(accounts: Accounts, id: Id): int {
    Sum(Weights(accounts, id))
  }

  ghost function NonceOf(s: State, a: Address): nat {
    if a in s.accounts then s.accounts[a].nonce else 0
  }

  /** The id is the hash of a transaction that has been charged. */
  ghost predicate Used(s: State, id: Id) {
    id.nonce <= NonceOf(s, id.from)
  }

  ghost predicate PowersMatch(s: State) {
    forall id :: id in s.candidates ==> s.candidates[id].votePower == Support(s.accounts, id)
  }

  ghost predicate VotedDistinct(s: State) {
    forall a :: a in s.accounts ==> Distinct(s.accounts[a].voted)
  }

  /** Every id that occurs anywhere is used, except possibly one. */
  ghost predicate UsedBut(s: State, extra: set<Id>) {
    && (forall id :: id in s.candidates ==> Used(s, id) || id in extra)
    && forall a, id :: a in s.accounts && id in s.accounts[a].voted ==> Used(s, id) || id in extra
  }

  /** Every power is right, and nobody has voted twice for the same candidate. */
  ghost predicate CountsOk(s: State) {
    PowersMatch(s) && VotedDistinct(s)
  }

  ghost predicate VotesOk(s: State) {
    CountsOk(s) && UsedBut(s, {})
  }

  /** No power is more than the stake behind it. */
  ghost predicate PowersWithin(s: State) {
    forall id :: id in s.candidates ==> s.candidates[id].votePower <= Support(s.accounts, id)
  }

  /** What a candidate's power lacks, or has too much. */
  ghost function Gap(s: State, id: Id): int
    requires id in s.candidates
  {
    Support(s.accounts, id) - s.candidates[id].votePower
  }

  /** Every candidate that is left lacks what it lacked before. */
  ghost predicate SameGaps(s: State, s': State) {
    forall id :: id in s'.candidates ==> id in s.candidates && Gap(s', id) == Gap(s, id)
  }

  /** Powers have moved with the votes, and no id that is not used has come in, but possibly some. */
  ghost predicate StillCounts(s: State, s': State, extra: set<Id>) {
    VotedDistinct(s') && SameGaps(s, s') && (UsedBut(s, {}) ==> UsedBut(s', extra))
  }

  lemma GapsDecide(s: State, s': State)
    requires SameGaps(s, s')
    ensures PowersMatch(s) ==> PowersMatch(s')
    ensures PowersWithin(s) ==> PowersWithin(s')
  {
    forall id | id in s'.candidates
      ensures Gap(s', id) == Gap(s, id)
    {
    }
  }

  // --------------------------------------------------------------------------------------------
  // Fetching and writing accounts
  // --------------------------------------------------------------------------------------------

  /** Fetching an account leaves its votes, stake, nonce and registrations as they are stored. */
  lemma FetchedFields(s: State, a: Address)
    requires GetAccount(s, a).Ok?
    ensures var acc, stored := GetAccount(s, a).value, if a in s.accounts then s.accounts[a] else NEW_ACCOUNT;
            && acc.voted == stored.voted && acc.staking == stored.staking && acc.nonce == stored.nonce
            && acc.candidateId == stored.candidateId && acc.alias == stored.alias
  {
  }

  lemma SupportAfterPut(s: State, a: Address, acc: Account, id: Id)
    requires GetAccount(s, a).Ok?
    ensures Support(s.accounts[a := acc], id) ==
            Support(s.accounts, id) - Weight(GetAccount(s, a).value, id) + Weight(acc, id)
  {
    FetchedFields(s, a);
    SumPut(Weights(s.accounts, id), a, Weight(acc, id));
    assert Weights(s.accounts[a := acc], id) == Weights(s.accounts, id)[a := Weight(acc, id)];
  }

  ghost predicate SameVotes(accounts: Accounts, accounts': Accounts) {
    && accounts.Keys <= accounts'.Keys
    && forall a :: a in accounts' ==>
         var stored := if a in accounts then accounts[a] else NEW_ACCOUNT;
         accounts'[a].voted == stored.voted && accounts'[a].staking == stored.staking
  }

  lemma SameSupport(accounts: Accounts, accounts': Accounts, id: Id)
    requires SameVotes(accounts, accounts')
    ensures Support(accounts', id) == Support(accounts, id)
  {
    SumIgnoresZeros(Weights(accounts, id), Weights(accounts', id));
  }

  /** Nobody supports a candidate that nobody has voted for. */
  lemma NoSupport(accounts: Accounts, id: Id)
    requires forall a :: a in accounts ==> id !in accounts[a].voted
    ensures Support(accounts, id) == 0
  {
    SumIgnoresZeros(map[], Weights(accounts, id));
  }

  /** A voter's stake is part of the power of the candidates it voted for: taking it away never underflows. */
  lemma StakeIsPartOfPower(s: State, a: Address, id: Id)
    requires PowersMatch(s) && GetAccount(s, a).Ok? && id in s.candidates
    ensures s.candidates[id].votePower >= Weight(GetAccount(s, a).value, id)
  {
    FetchedFields(s, a);
    var w := Weights(s.accounts, id);
    SumIsNonNegative(w);
    if a in s.accounts {
      PartOfSum(w, a);
    }
  }

  // --------------------------------------------------------------------------------------------
  // Changing powers
  // --------------------------------------------------------------------------------------------

  function Delta(ids: seq<Id>, id: Id, delta: int): int {
    if id in ids then delta else 0
  }

  /** cs' is cs with the power of the given candidates changed by delta. */
  ghost predicate PowersChanged(cs: Candidates, cs': Candidates, ids: seq<Id>, delta: int) {
    && cs'.Keys == cs.Keys
    && forall id :: id in cs ==>
         && cs'[id].votePower == cs[id].votePower + Delta(ids, id, delta)
         && cs'[id].addr == cs[id].addr && cs'[id].collateral == cs[id].collateral
  }

  lemma {:induction false} ChangesPowers(cs: Candidates, ids: seq<Id>, delta: int, strict: bool)
    requires Distinct(ids) && ChangeVotePowers(cs, ids, delta, strict).Ok?
    ensures PowersChanged(cs, ChangeVotePowers(cs, ids, delta, strict).value, ids, delta)
    ensures strict ==> forall id :: id in ids ==> id in cs
    decreases |ids|
  {
    if ids != [] {
      assert ids == [ids[0]] + ids[1..];
      assert ids[0] !in ids[1..];
      var cs' := if ids[0] in cs then ChangeVotePower(cs, ids[0], delta).value else cs;
      ChangesPowers(cs', ids[1..], delta, strict);
    }
  }

  /** Changing powers fails only at a candidate whose power would leave the range. */
  lemma {:induction false} ChangeFails(cs: Candidates, ids: seq<Id>, delta: int)
    requires Distinct(ids)
    ensures ChangeVotePowers(cs, ids, delta, false).Ok? <==>
            forall id :: id in ids && id in cs ==> 0 <= cs[id].votePower + delta < LIMIT
    decreases |ids|
  {
    if ids != [] {
      assert ids == [ids[0]] + ids[1..];
      assert ids[0] !in ids[1..];
      if ids[0] !in cs {
        ChangeFails(cs, ids[1..], delta);
      } else if 0 <= cs[ids[0]].votePower + delta < LIMIT {
        var cs' := ChangeVotePower(cs, ids[0], delta).value;
        ChangeFails(cs', ids[1..], delta);
        assert forall id :: id in ids[1..] && id in cs ==> cs'[id] == cs[id];
      }
    }
  }

  // --------------------------------------------------------------------------------------------
  // Transactions
  // --------------------------------------------------------------------------------------------

  /** If powers move as the weight of the one account that changes does, they lack what they lacked. */
  lemma PowersFollow(s: State, a: Address, acc: Account, s': State)
    requires GetAccount(s, a).Ok? && s'.accounts == s.accounts[a := acc]
    requires forall id :: id in s'.candidates ==>
               id in s.candidates &&
               s'.candidates[id].votePower - s.candidates[id].votePower ==
               Weight(acc, id) - Weight(GetAccount(s, a).value, id)
    ensures SameGaps(s, s')
  {
    forall id | id in s'.candidates
      ensures Gap(s', id) == Gap(s, id)
    {
      SupportAfterPut(s, a, acc, id);
    }
  }

  /** One account is written, with its nonce as it was; its votes are old ones or of known candidates. */
  ghost predicate OneAccountWritten(s: State, a: Address, s': State) {
    && a in s'.accounts && s'.accounts == s.accounts[a := s'.accounts[a]]
    && GetAccount(s, a).Ok? && s'.accounts[a].nonce == GetAccount(s, a).value.nonce
    && Distinct(s'.accounts[a].voted)
    && forall id :: id in s'.accounts[a].voted ==> id in GetAccount(s, a).value.voted || id in s.candidates
  }

  lemma IdsStayUsed(s: State, a: Address, s': State, extra: set<Id>)
    requires VotedDistinct(s) && OneAccountWritten(s, a, s')
    requires forall id :: id in s'.candidates ==> id in s.candidates || id in extra
    ensures VotedDistinct(s') && (UsedBut(s, {}) ==> UsedBut(s', extra))
  {
    FetchedFields(s, a);
    assert forall id :: Used(s, id) ==> Used(s', id);
    forall b, id | UsedBut(s, {}) && b in s'.accounts && id in s'.accounts[b].voted
      ensures Used(s', id)
    {
      if b == a && id !in GetAccount(s, a).value.voted {
        assert id in s.candidates;
      } else {
        assert b in s.accounts && id in s.accounts[b].voted;
      }
    }
  }

  lemma FetchedDistinct(s: State, a: Address)
    requires VotedDistinct(s) && GetAccount(s, a).Ok?
    ensures Distinct(GetAccount(s, a).value.voted)
  {
    FetchedFields(s, a);
  }

  /** A transaction that writes one account and leaves votes, stake and candidates alone. */
  lemma UnrelatedKeepsVotes(s: State, a: Address, s': State)
    requires VotedDistinct(s) && GetAccount(s, a).Ok? && a in s'.accounts && s'.accounts == s.accounts[a := s'.accounts[a]]
    requires var acc, acc' := GetAccount(s, a).value, s'.accounts[a];
             acc'.voted == acc.voted && acc'.staking == acc.staking && acc'.nonce == acc.nonce
    requires s'.candidates == s.candidates
    ensures StillCounts(s, s', {})
  {
    FetchedDistinct(s, a);
    PowersFollow(s, a, s'.accounts[a], s');
    IdsStayUsed(s, a, s', {});
  }

  lemma TransferKeepsVotes(s: State, from: Address, to: Address, value: Amount)
    requires VotedDistinct(s) && ExecuteTransfer(s, from, to, value).Ok?
    ensures StillCounts(s, ExecuteTransfer(s, from, to, value).value, {})
  {
    var sender := GetAccount(s, from).value;
    var s1 := PutAccount(s, from, sender.(balance := sender.balance - value));
    UnrelatedKeepsVotes(s, from, s1);
    UnrelatedKeepsVotes(s1, to, ExecuteTransfer(s, from, to, value).value);
  }

  lemma StakeKeepsVotes(s: State, user: Address, amount: Amount)
    requires VotedDistinct(s) && ExecuteStake(s, user, amount).Ok?
    ensures StillCounts(s, ExecuteStake(s, user, amount).value, {})
  {
    var acc, s' := GetAccount(s, user).value, ExecuteStake(s, user, amount).value;
    FetchedDistinct(s, user);
    ChangesPowers(s.candidates, acc.voted, amount, false);
    PowersFollow(s, user, s'.accounts[user], s');
    IdsStayUsed(s, user, s', {});
  }

  lemma UnstakeKeepsVotes(s: State, user: Address, amount: Amount)
    requires VotedDistinct(s) && ExecuteUnstake(s, user, amount).Ok?
    ensures StillCounts(s, ExecuteUnstake(s, user, amount).value, {})
  {
    var acc, s' := GetAccount(s, user).value, ExecuteUnstake(s, user, amount).value;
    FetchedDistinct(s, user);
    ChangesPowers(s.candidates, acc.voted, 0 - amount, false);
    PowersFollow(s, user, s'.accounts[user], s');
    IdsStayUsed(s, user, s', {});
  }

  lemma VoteKeepsVotes(s: State, voter: Address, ids: seq<Id>)
    requires VotedDistinct(s) && ExecuteVote(s, voter, ids).Ok?
    ensures StillCounts(s, ExecuteVote(s, voter, ids).value, {})
  {
    var acc, s' := GetAccount(s, voter).value, ExecuteVote(s, voter, ids).value;
    var added := ChangeVotePowers(s.candidates, ids, acc.staking, true).value;
    FetchedDistinct(s, voter);
    ChangesPowers(s.candidates, ids, acc.staking, true);
    ChangesPowers(added, acc.voted, 0 - acc.staking, false);
    PowersFollow(s, voter, s'.accounts[voter], s');
    IdsStayUsed(s, voter, s', {});
  }

  /** A new candidate lacks what those who voted for its id already have staked; the others lack what they did. */
  lemma BecomeCandidateKeepsVotes(s: State, addr: Address, id: Id, collateral: Amount)
    requires VotedDistinct(s) && id !in s.candidates && ExecuteBecomeCandidate(s, addr, id, collateral).Ok?
    ensures var s' := ExecuteBecomeCandidate(s, addr, id, collateral).value;
            && VotedDistinct(s') && (UsedBut(s, {}) ==> UsedBut(s', {id}))
            && SameGaps(s, s'.(candidates := s'.candidates - {id}))
            && id in s'.candidates && Gap(s', id) == Support(s.accounts, id)
  {
    var s' := ExecuteBecomeCandidate(s, addr, id, collateral).value;
    FetchedDistinct(s, addr);
    FetchedFields(s, addr);
    SupportAfterPut(s, addr, s'.accounts[addr], id);
    PowersFollow(s, addr, s'.accounts[addr], s'.(candidates := s'.candidates - {id}));
    IdsStayUsed(s, addr, s', {id});
  }

  /** With one candidate more, the powers match exactly if those of the others and its own do. */
  lemma OneMoreCandidate(s: State, s': State, id: Id)
    requires id !in s.candidates && id in s'.candidates && s.candidates.Keys <= s'.candidates.Keys
    requires SameGaps(s, s'.(candidates := s'.candidates - {id})) && Gap(s', id) >= 0
    ensures PowersMatch(s) ==> (PowersMatch(s') <==> Gap(s', id) == 0)
    ensures PowersWithin(s) ==> PowersWithin(s')
  {
    var t := s'.(candidates := s'.candidates - {id});
    GapsDecide(s, t);
    forall c | c in s'.candidates && c != id
      ensures Gap(s', c) == Gap(t, c)
    {
    }
    assert s'.candidates[id].votePower == Support(s'.accounts, id) - Gap(s', id);
    forall c | c in s'.candidates && c != id
      ensures PowersMatch(s) ==> s'.candidates[c].votePower == Support(s'.accounts, c)
      ensures PowersWithin(s) ==> s'.candidates[c].votePower <= Support(s'.accounts, c)
    {
      assert c in t.candidates;
    }
  }

  lemma QuitCandidateKeepsVotes(s: State, addr: Address)
    requires VotedDistinct(s) && ExecuteQuitCandidate(s, addr).Ok?
    ensures StillCounts(s, ExecuteQuitCandidate(s, addr).value, {})
  {
    var s' := ExecuteQuitCandidate(s, addr).value;
    FetchedDistinct(s, addr);
    PowersFollow(s, addr, s'.accounts[addr], s');
    IdsStayUsed(s, addr, s', {});
  }

  lemma RegisterAliasKeepsVotes(s: State, addr: Address, name: string, collateral: Amount)
    requires VotedDistinct(s) && ExecuteRegisterAlias(s, addr, name, collateral).Ok?
    ensures StillCounts(s, ExecuteRegisterAlias(s, addr, name, collateral).value, {})
  {
    UnrelatedKeepsVotes(s, addr, ExecuteRegisterAlias(s, addr, name, collateral).value);
  }

  lemma DeregisterAliasKeepsVotes(s: State, addr: Address)
    requires VotedDistinct(s) && ExecuteDeregisterAlias(s, addr).Ok?
    ensures StillCounts(s, ExecuteDeregisterAlias(s, addr).value, {})
  {
    UnrelatedKeepsVotes(s, addr, ExecuteDeregisterAlias(s, addr).value);
  }

  lemma GenesisDistributionKeepsVotes(s: State, target: Address, amount: Amount)
    requires VotedDistinct(s) && ExecuteGenesisDistribution(s, target, amount).Ok?
    ensures StillCounts(s, ExecuteGenesisDistribution(s, target, amount).value, {})
  {
    UnrelatedKeepsVotes(s, target, ExecuteGenesisDistribution(s, target, amount).value);
  }

  /** The id a transaction may bring into the ledger. */
  ghost function NewId(tx: Tx): set<Id> {
    if tx.payload.BecomeCandidate? then {tx.Hash()} else {}
  }

  /** An application under an id that has got votes already. */
  ghost predicate TakesUpVotes(s: State, tx: Tx) {
    tx.payload.BecomeCandidate? && Support(s.accounts, tx.Hash()) != 0
  }

  lemma OthersKeepVotes(s: State, tx: Tx)
    requires VotedDistinct(s) && Execute(s, tx).Ok? && !tx.payload.BecomeCandidate?
    ensures StillCounts(s, Execute(s, tx).value, {})
  {
    match tx.payload
    case Transfer(to, value) => TransferKeepsVotes(s, tx.from, to, value);
    case Stake(amount) => StakeKeepsVotes(s, tx.from, amount);
    case Unstake(amount) => UnstakeKeepsVotes(s, tx.from, amount);
    case Vote(ids) => VoteKeepsVotes(s, tx.from, ids);
    case QuitCandidate => QuitCandidateKeepsVotes(s, tx.from);
    case RegisterAlias(name, collateral) => RegisterAliasKeepsVotes(s, tx.from, name, collateral);
    case DeregisterAlias => DeregisterAliasKeepsVotes(s, tx.from);
    case Genesis =>
    case GenesisDistribution(target, amount) => GenesisDistributionKeepsVotes(s, target, amount);
  }

  /**
   Executing a transaction never gives a candidate more power than the stake behind it, and keeps
   every power equal to it exactly unless it is an application under an id that has got votes already.
   */
  lemma ExecuteKeepsVotesIff(s: State, tx: Tx)
    requires VotedDistinct(s) && Execute(s, tx).Ok? && (tx.payload.BecomeCandidate? ==> tx.Hash() !in s.candidates)
    ensures var s' := Execute(s, tx).value;
            && VotedDistinct(s') && (UsedBut(s, {}) ==> UsedBut(s', NewId(tx)))
            && (PowersWithin(s) ==> PowersWithin(s'))
            && (PowersMatch(s) ==> (PowersMatch(s') <==> !TakesUpVotes(s, tx)))
  {
    var s' := Execute(s, tx).value;
    if tx.payload.BecomeCandidate? {
      var id := tx.Hash();
      BecomeCandidateKeepsVotes(s, tx.from, id, tx.payload.collateral);
      SumIsNonNegative(Weights(s.accounts, id));
      OneMoreCandidate(s, s', id);
    } else {
      OthersKeepVotes(s, tx);
      GapsDecide(s, s');
    }
  }

  /** An id that is not used yet has no votes, and is no candidate's. */
  lemma UnusedHasNoVotes(s: State, id: Id)
    requires UsedBut(s, {}) && !Used(s, id)
    ensures Support(s.accounts, id) == 0 && id !in s.candidates
  {
    NoSupport(s.accounts, id);
  }

  // --------------------------------------------------------------------------------------------
  // Underflow
  // --------------------------------------------------------------------------------------------

  /** The power of every live candidate that the account voted for covers the amount. */
  ghost predicate Covered(s: State, acc: Account, amount: Amount) {
    forall id :: id in acc.voted && id in s.candidates ==> s.candidates[id].votePower >= amount
  }

  /** Unstaking fails for lack of stake, an overflow of the unstaking coins, or a power that does not cover it. */
  lemma UnstakeFailsFor(s: State, user: Address, amount: Amount)
    requires VotedDistinct(s) && GetAccount(s, user).Ok?
    ensures var acc := GetAccount(s, user).value;
            ExecuteUnstake(s, user, amount).Err? <==>
            acc.staking < amount || acc.unstaking + amount >= LIMIT || !Covered(s, acc, amount)
  {
    var acc := GetAccount(s, user).value;
    FetchedDistinct(s, user);
    ChangeFails(s.candidates, acc.voted, 0 - amount);
  }

  /** Where powers are right the last of these never happens. */
  lemma UnstakeFailsIff(s: State, user: Address, amount: Amount)
    requires CountsOk(s) && GetAccount(s, user).Ok?
    ensures var acc := GetAccount(s, user).value;
            ExecuteUnstake(s, user, amount).Err? <==> acc.staking < amount || acc.unstaking + amount >= LIMIT
  {
    var acc := GetAccount(s, user).value;
    UnstakeFailsFor(s, user, amount);
    forall id | id in acc.voted && id in s.candidates && amount <= acc.staking
      ensures s.candidates[id].votePower >= amount
    {
      StakeIsPartOfPower(s, user, id);
    }
  }

  lemma {:induction false} StrictChangeFails(cs: Candidates, ids: seq<Id>, delta: nat)
    requires Distinct(ids)
    ensures ChangeVotePowers(cs, ids, delta, true).Ok? <==>
            forall id :: id in ids ==> id in cs && cs[id].votePower + delta < LIMIT
    decreases |ids|
  {
    if ids != [] {
      assert ids == [ids[0]] + ids[1..];
      assert ids[0] !in ids[1..];
      if ids[0] in cs && cs[ids[0]].votePower + delta < LIMIT {
        var cs' := ChangeVotePower(cs, ids[0], delta).value;
        StrictChangeFails(cs', ids[1..], delta);
        assert forall id :: id in ids[1..] && id in cs ==> cs'[id] == cs[id];
      }
    }
  }

  /** A vote fails for the votes it casts, never for taking back the votes it replaces. */
  lemma VoteFailsIff(s: State, voter: Address, ids: seq<Id>)
    requires CountsOk(s) && GetAccount(s, voter).Ok?
    ensures var staking := GetAccount(s, voter).value.staking;
            ExecuteVote(s, voter, ids).Ok? <==>
            && |ids| <= VOTE_MAXIMUM && Distinct(ids)
            && forall id :: id in ids ==> id in s.candidates && s.candidates[id].votePower + staking < LIMIT
  {
    var acc := GetAccount(s, voter).value;
    if Distinct(ids) {
      StrictChangeFails(s.candidates, ids, acc.staking);
      var r := ChangeVotePowers(s.candidates, ids, acc.staking, true);
      if r.Ok? {
        ChangesPowers(s.candidates, ids, acc.staking, true);
        OldVotesCanBeTakenBack(s, voter, r.value, ids);
      }
    }
  }

  lemma OldVotesCanBeTakenBack(s: State, voter: Address, added: Candidates, ids: seq<Id>)
    requires CountsOk(s) && GetAccount(s, voter).Ok?
    requires PowersChanged(s.candidates, added, ids, GetAccount(s, voter).value.staking)
    ensures var acc := GetAccount(s, voter).value; ChangeVotePowers(added, acc.voted, 0 - acc.staking, false).Ok?
  {
    var acc := GetAccount(s, voter).value;
    FetchedDistinct(s, voter);
    ChangeFails(added, acc.voted, 0 - acc.staking);
    forall id | id in acc.voted && id in added
      ensures 0 <= added[id].votePower - acc.staking < LIMIT
    {
      StakeIsPartOfPower(s, voter, id);
    }
  }
}
