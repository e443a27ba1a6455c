/** Who is a candidate: accounts and candidates name each other. */
module Registry {
  import opened Options
  import opened Uint128
  import opened Ledger
  import opened Votes

  /** The candidacy an account is stored with. */
  ghost function Candidacy(s: State, a: Address): Option<Id> {
    if a in s.accounts then s.accounts[a].candidateId else None
  }

  /** Every candidate is the candidacy of the account that applied for it, and the other way round. */
  ghost predicate Registered(s: State) {
    && (forall id :: id in s.candidates ==> s.candidates[id].addr == id.from && Candidacy(s, id.from) == Some(id))
    && (forall a :: Candidacy(s, a).Some? ==> Candidacy(s, a).value in s.candidates && Candidacy(s, a).value.from == a)
  }

  ghost predicate SameOwners(cs: Candidates, cs': Candidates) {
    cs'.Keys == cs.Keys && forall id :: id in cs ==> cs'[id].addr == cs[id].addr
  }

  lemma {:induction false} VotePowersKeepOwners(cs: Candidates, ids: seq<Id>, delta: int, strict: bool)
    requires ChangeVotePowers(cs, ids, delta, strict).Ok?
    ensures SameOwners(cs, ChangeVotePowers(cs, ids, delta, strict).value)
    decreases |ids|
  {
    if ids != [] {
      var cs' := if ids[0] in cs then ChangeVotePower(cs, ids[0], delta).value else cs;
      VotePowersKeepOwners(cs', ids[1..], delta, strict);
    }
  }

  /** Writing a fetched account back, with its candidacy as it was, changes nothing. */
  lemma UnrelatedKeepsRegistered(s: State, a: Address, s': State)
    requires Registered(s) && GetAccount(s, a).Ok? && a in s'.accounts
    requires s'.accounts == s.accounts[a := s'.accounts[a]] && SameOwners(s.candidates, s'.candidates)
    requires s'.accounts[a].candidateId == GetAccount(s, a).value.candidateId
    ensures Registered(s')
  {
    FetchedFields(s, a);
    assert forall b :: Candidacy(s', b) == Candidacy(s, b);
  }

  lemma TransferKeepsRegistered(s: State, from: Address, to: Address, value: Amount)
    requires Registered(s) && ExecuteTransfer(s, from, to, value).Ok?
    ensures Registered(ExecuteTransfer(s, from, to, value).value)
  {
    var s1 := Withdraw(s, from, value).value;
    UnrelatedKeepsRegistered(s, from, s1);
    UnrelatedKeepsRegistered(s1, to, ExecuteTransfer(s, from, to, value).value);
  }

  lemma StakeKeepsRegistered(s: State, user: Address, amount: Amount)
    requires Registered(s) && ExecuteStake(s, user, amount).Ok?
    ensures Registered(ExecuteStake(s, user, amount).value)
  {
    VotePowersKeepOwners(s.candidates, GetAccount(s, user).value.voted, amount, false);
    UnrelatedKeepsRegistered(s, user, ExecuteStake(s, user, amount).value);
  }

  lemma UnstakeKeepsRegistered(s: State, user: Address, amount: Amount)
    requires Registered(s) && ExecuteUnstake(s, user, amount).Ok?
    ensures Registered(ExecuteUnstake(s, user, amount).value)
  {
    VotePowersKeepOwners(s.candidates, GetAccount(s, user).value.voted, 0 - amount, false);
    UnrelatedKeepsRegistered(s, user, ExecuteUnstake(s, user, amount).value);
  }

  lemma VoteKeepsRegistered(s: State, voter: Address, ids: seq<Id>)
    requires Registered(s) && ExecuteVote(s, voter, ids).Ok?
    ensures Registered(ExecuteVote(s, voter, ids).value)
  {
    var acc := GetAccount(s, voter).value;
    VotePowersKeepOwners(s.candidates, ids, acc.staking, true);
    VotePowersKeepOwners(ChangeVotePowers(s.candidates, ids, acc.staking, true).value, acc.voted, 0 - acc.staking, false);
    UnrelatedKeepsRegistered(s, voter, ExecuteVote(s, voter, ids).value);
  }

  /** An account that is no candidate has no candidacy left over, whichever of its transactions it comes from. */
  lemma NewCandidacyIsNew(s: State, addr: Address, id: Id)
    requires Registered(s) && GetAccount(s, addr).Ok? && GetAccount(s, addr).value.candidateId.None? && id.from == addr
    ensures id !in s.candidates
  {
    FetchedFields(s, addr);
  }

  lemma BecomeCandidateKeepsRegistered(s: State, addr: Address, id: Id, collateral: Amount)
    requires Registered(s) && id.from == addr && ExecuteBecomeCandidate(s, addr, id, collateral).Ok?
    ensures id !in s.candidates && Registered(ExecuteBecomeCandidate(s, addr, id, collateral).value)
  {
    var s' := ExecuteBecomeCandidate(s, addr, id, collateral).value;
    NewCandidacyIsNew(s, addr, id);
    FetchedFields(s, addr);
    assert forall b :: b != addr ==> Candidacy(s', b) == Candidacy(s, b);
  }

  lemma QuitCandidateKeepsRegistered(s: State, addr: Address)
    requires Registered(s) && ExecuteQuitCandidate(s, addr).Ok?
    ensures Registered(ExecuteQuitCandidate(s, addr).value)
  {
    var s', id := ExecuteQuitCandidate(s, addr).value, GetAccount(s, addr).value.candidateId.value;
    FetchedFields(s, addr);
    assert Candidacy(s, addr) == Some(id);
    forall b | b != addr
      ensures Candidacy(s', b) == Candidacy(s, b) != Some(id)
    {
    }
    forall c | c in s'.candidates
      ensures c.from != addr
    {
      assert Candidacy(s, c.from) == Some(c);
    }
  }

  lemma OthersKeepRegistered(s: State, tx: Tx)
    requires tx.payload.RegisterAlias? || tx.payload.DeregisterAlias? || tx.payload.Genesis? || tx.payload.GenesisDistribution?
    requires Registered(s) && Execute(s, tx).Ok?
    ensures Registered(Execute(s, tx).value)
  {
    match tx.payload
    case RegisterAlias(_, _) => UnrelatedKeepsRegistered(s, tx.from, Execute(s, tx).value);
    case DeregisterAlias => UnrelatedKeepsRegistered(s, tx.from, Execute(s, tx).value);
    case Genesis =>
    case GenesisDistribution(target, _) => UnrelatedKeepsRegistered(s, target, Execute(s, tx).value);
  }

  /** Executing any transaction keeps the register, and a new candidacy takes nobody's place. */
  lemma ExecuteKeepsRegistered(s: State, tx: Tx)
    requires Registered(s) && Execute(s, tx).Ok?
    ensures Registered(Execute(s, tx).value)
    ensures tx.payload.BecomeCandidate? ==> tx.Hash() !in s.candidates
  {
    match tx.payload
    case Transfer(to, value) => TransferKeepsRegistered(s, tx.from, to, value);
    case Stake(amount) => StakeKeepsRegistered(s, tx.from, amount);
    case Unstake(amount) => UnstakeKeepsRegistered(s, tx.from, amount);
    case Vote(ids) => VoteKeepsRegistered(s, tx.from, ids);
    case BecomeCandidate(collateral) => BecomeCandidateKeepsRegistered(s, tx.from, tx.Hash(), collateral);
    case QuitCandidate => QuitCandidateKeepsRegistered(s, tx.from);
    case _ => OthersKeepRegistered(s, tx);
  }

  lemma ChargeKeepsRegistered(s: State, tx: Tx, receipt: Receipt)
    requires Registered(s) && AcceptTransaction(s, tx, receipt).Ok?
    ensures Registered(AcceptTransaction(s, tx, receipt).value)
  {
    var s' := AcceptTransaction(s, tx, receipt).value;
    FetchedFields(s, tx.from);
    if tx.payer.Some? {
      FetchedFields(s, tx.payer.value);
    }
    assert forall b :: Candidacy(s', b) == Candidacy(s, b);
  }
}
