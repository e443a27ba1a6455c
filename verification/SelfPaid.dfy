/**
 What becomes of transactions that name their own sender as payer.  Their nonce is not used up, so
 that the very same transaction can run again; an application for candidacy that does gives its id
 to a second candidate, which has none of the votes that the first one left behind.
 */
module SelfPaid {
  import opened Options
  import opened Errors
  import opened Uint128
  import opened Sums
  import opened Ledger
  import opened Votes
  import opened Dynasties
  import opened LedgerChain
  import opened GenesisRuns
  import BlockTree

  const COLLATERAL: Amount := CANDIDATE_COLLATERAL_MINIMUM
  const NAME := "someapplicant"

  const GIVE_APPLICANT := Tx(3, 1, GenesisDistribution(1, 2_000_000_000_000_000_000), None, 0)
  const GIVE_VOTER := Tx(3, 2, GenesisDistribution(2, 10), None, 0)
  const REGISTER := Tx(1, 1, RegisterAlias(NAME, COLLATERAL), None, 0)
  const STAKE := Tx(2, 1, Stake(10), None, 0)
  const APPLY := Tx(1, 2, BecomeCandidate(COLLATERAL), Some(1), 0)
  const VOTE := Tx(2, 2, Vote([APPLY.Hash()]), None, 0)
  const QUIT := Tx(1, 2, QuitCandidate, Some(1), 0)

  const ID := APPLY.Hash()
  const GIVEN := NEW_ACCOUNT.(balance := 2_000_000_000_000_000_000)
  const APPLICANT := NEW_ACCOUNT.(balance := COLLATERAL, nonce := 1, alias := Some(Alias(NAME, COLLATERAL)))
  const CANDIDATE := APPLICANT.(balance := 0, candidateId := Some(ID))
  const HOLDER := NEW_ACCOUNT.(balance := 10)
  const VOTER := NEW_ACCOUNT.(staking := 10, points := 10, nonce := 1)
  const HAS_VOTED := VOTER.(voted := [ID], nonce := 2)
  const GIVER := NEW_ACCOUNT.(nonce := 2)

  /** The genesis block after some transactions: bandwidth costs nothing, and all accounts are as of time zero. */
  ghost predicate Looks(s: State, accounts: Accounts, candidates: Candidates, ran: nat) {
    && s.timestamp == 0 && s.height == BlockTree.GENESIS_HEIGHT && s.cpuPrice == 0 && s.netPrice == 0
    && s.cpuUsage <= 1500 * ran <= 15_000 && s.netUsage == 0
    && s.supply <= 2_000_000_000_000_000_010
    && s.accounts == accounts && s.candidates == candidates
  }

  /** The three accounts involved. */
  function Three(applicant: Account, voter: Account): Accounts {
    map[1 := applicant, 2 := voter, 3 := GIVER]
  }

  // --------------------------------------------------------------------------------------------
  // The transactions
  // --------------------------------------------------------------------------------------------

  /** Charging nothing to a sender that names itself as payer writes its account back as it was. */
  lemma FreeCharge(s: State, tx: Tx)
    requires tx.payer == Some(tx.from) && tx.from in s.accounts && GetAccount(s, tx.from) == Ok(s.accounts[tx.from])
    ensures Charge(s, tx, 0) == Ok(s.accounts)
  {
    var acc := s.accounts[tx.from];
    assert acc.(points := acc.points - 0) == acc;
    assert s.accounts[tx.from := acc.(nonce := acc.nonce + 1)][tx.from := acc] == s.accounts;
  }

  lemma GivesApplicant(s: State) returns (s': State)
    requires Looks(s, map[], map[], 0) && s.supply == 0
    ensures Becomes(s, GIVE_APPLICANT, s') && s'.supply == 2_000_000_000_000_000_000 && s'.aliases == s.aliases
    ensures Looks(s', map[1 := GIVEN, 3 := NEW_ACCOUNT.(nonce := 1)], map[], 1)
  {
    assert PointUsage(s, GIVE_APPLICANT) == Ok(0);
    var s1 := Execute(s, GIVE_APPLICANT).value;
    assert s1 == PutAccount(s, 1, GIVEN).(supply := 2_000_000_000_000_000_000);
    FreeOfCharge(s1, GIVE_APPLICANT, NEW_ACCOUNT);
    s' := ApplyTransaction(s, GIVE_APPLICANT).value.0;
  }

  lemma GivesVoter(s: State) returns (s': State)
    requires Looks(s, map[1 := GIVEN, 3 := NEW_ACCOUNT.(nonce := 1)], map[], 1) && s.supply == 2_000_000_000_000_000_000
    ensures Becomes(s, GIVE_VOTER, s') && s'.aliases == s.aliases && Looks(s', Three(GIVEN, HOLDER), map[], 2)
  {
    assert PointUsage(s, GIVE_VOTER) == Ok(0);
    var s1 := Execute(s, GIVE_VOTER).value;
    assert s1 == PutAccount(s, 2, HOLDER).(supply := 2_000_000_000_000_000_010);
    FreeOfCharge(s1, GIVE_VOTER, NEW_ACCOUNT.(nonce := 1));
    s' := ApplyTransaction(s, GIVE_VOTER).value.0;
    assert s'.accounts == s.accounts[2 := HOLDER][3 := GIVER];
  }

  lemma Registers(s: State) returns (s': State)
    requires Looks(s, Three(GIVEN, HOLDER), map[], 2) && s.aliases == map[]
    ensures Becomes(s, REGISTER, s') && Looks(s', Three(APPLICANT, HOLDER), map[], 3)
  {
    assert GetAccount(s, 1) == Ok(GIVEN);
    assert PointUsage(s, REGISTER) == Ok(0);
    var acc := GIVEN.(balance := COLLATERAL, alias := Some(Alias(NAME, COLLATERAL)));
    var s1 := Execute(s, REGISTER).value;
    assert s1 == PutAccount(s, 1, acc).(aliases := s.aliases[NAME := 1]);
    FreeOfCharge(s1, REGISTER, acc);
    s' := ApplyTransaction(s, REGISTER).value.0;
    assert s'.accounts == s.accounts[1 := APPLICANT];
  }

  lemma Stakes(s: State) returns (s': State)
    requires Looks(s, Three(APPLICANT, HOLDER), map[], 3)
    ensures Becomes(s, STAKE, s') && Looks(s', Three(APPLICANT, VOTER), map[], 4)
  {
    assert GetAccount(s, 2) == Ok(HOLDER);
    assert PointUsage(s, STAKE) == Ok(0);
    var acc := HOLDER.(balance := 0, staking := 10, points := 10);
    var s1 := Execute(s, STAKE).value;
    assert ChangeVotePowers(s.candidates, [], 10, false) == Ok(s.candidates);
    assert s1 == PutAccount(s, 2, acc);
    FreeOfCharge(s1, STAKE, acc);
    s' := ApplyTransaction(s, STAKE).value.0;
    assert s'.accounts == s.accounts[2 := VOTER];
  }

  lemma Applies(s: State, voter: Account, ran: nat) returns (s': State)
    requires ran < 9 && Looks(s, Three(APPLICANT, voter), map[], ran)
    ensures Becomes(s, APPLY, s')
    ensures Looks(s', Three(CANDIDATE, voter), map[ID := Candidate(1, COLLATERAL, 0)], ran + 1)
  {
    assert GetAccount(s, 1) == Ok(APPLICANT);
    assert PointUsage(s, APPLY) == Ok(0);
    var s1 := Execute(s, APPLY).value;
    assert s1 == PutAccount(s, 1, CANDIDATE).(candidates := s.candidates[ID := Candidate(1, COLLATERAL, 0)]);
    FreeCharge(s1, APPLY);
    s' := ApplyTransaction(s, APPLY).value.0;
  }

  lemma CastsVote(s: State) returns (s': State)
    requires Looks(s, Three(CANDIDATE, VOTER), map[ID := Candidate(1, COLLATERAL, 0)], 5)
    ensures Becomes(s, VOTE, s')
    ensures Looks(s', Three(CANDIDATE, HAS_VOTED), map[ID := Candidate(1, COLLATERAL, 10)], 6)
  {
    assert GetAccount(s, 2) == Ok(VOTER);
    assert PointUsage(s, VOTE) == Ok(0);
    var cs := s.candidates[ID := Candidate(1, COLLATERAL, 10)];
    assert ChangeVotePowers(s.candidates, [ID], 10, true) == Ok(cs);
    assert ChangeVotePowers(cs, [], -10, false) == Ok(cs);
    var s1 := Execute(s, VOTE).value;
    assert s1 == PutAccount(s, 2, VOTER.(voted := [ID])).(candidates := cs);
    FreeOfCharge(s1, VOTE, VOTER.(voted := [ID]));
    s' := ApplyTransaction(s, VOTE).value.0;
    assert s'.accounts == s.accounts[2 := HAS_VOTED];
  }

  lemma Quits(s: State) returns (s': State)
    requires Looks(s, Three(CANDIDATE, HAS_VOTED), map[ID := Candidate(1, COLLATERAL, 10)], 6)
    ensures Becomes(s, QUIT, s') && Looks(s', Three(APPLICANT, HAS_VOTED), map[], 7)
  {
    assert GetAccount(s, 1) == Ok(CANDIDATE);
    assert PointUsage(s, QUIT) == Ok(0);
    var s1 := Execute(s, QUIT).value;
    assert s1 == PutAccount(s, 1, APPLICANT).(candidates := s.candidates - {ID});
    assert s.candidates - {ID} == map[];
    FreeCharge(s1, QUIT);
    s' := ApplyTransaction(s, QUIT).value.0;
  }

  // --------------------------------------------------------------------------------------------
  // The chain
  // --------------------------------------------------------------------------------------------

  ghost predicate Listed(txs: seq<Tx>) {
    && |txs| == 8
    && txs[0] == GIVE_APPLICANT && txs[1] == GIVE_VOTER && txs[2] == REGISTER && txs[3] == STAKE
    && txs[4] == APPLY && txs[5] == VOTE && txs[6] == QUIT && txs[7] == APPLY
  }

  lemma Begins(txs: seq<Tx>)
    ensures After(txs, 0, EMPTY) && Looks(EMPTY, map[], map[], 0) && EMPTY.supply == 0 && EMPTY.aliases == map[]
  {
  }

  lemma Given(txs: seq<Tx>, s0: State) returns (s: State)
    requires Listed(txs) && After(txs, 0, s0) && Looks(s0, map[], map[], 0) && s0.supply == 0
    ensures After(txs, 2, s) && Looks(s, Three(GIVEN, HOLDER), map[], 2) && s.aliases == s0.aliases
  {
    var s1 := GivesApplicant(s0);
    GoesOn(txs, 0, s0, s1);
    s := GivesVoter(s1);
    GoesOn(txs, 1, s1, s);
  }

  lemma HasStaked(txs: seq<Tx>, s: State) returns (s': State)
    requires Listed(txs) && After(txs, 2, s) && Looks(s, Three(GIVEN, HOLDER), map[], 2) && s.aliases == map[]
    ensures After(txs, 4, s') && Looks(s', Three(APPLICANT, VOTER), map[], 4)
  {
    var s1 := Registers(s);
    GoesOn(txs, 2, s, s1);
    s' := Stakes(s1);
    GoesOn(txs, 3, s1, s');
  }

  lemma HasVotes(txs: seq<Tx>, s: State) returns (s': State)
    requires Listed(txs) && After(txs, 4, s) && Looks(s, Three(APPLICANT, VOTER), map[], 4)
    ensures After(txs, 6, s')
    ensures Looks(s', Three(CANDIDATE, HAS_VOTED), map[ID := Candidate(1, COLLATERAL, 10)], 6)
  {
    var s1 := Applies(s, VOTER, 4);
    GoesOn(txs, 4, s, s1);
    s' := CastsVote(s1);
    GoesOn(txs, 5, s1, s');
  }

  lemma AppliesAgain(txs: seq<Tx>, s: State) returns (s': State)
    requires Listed(txs) && After(txs, 6, s)
    requires Looks(s, Three(CANDIDATE, HAS_VOTED), map[ID := Candidate(1, COLLATERAL, 10)], 6)
    ensures After(txs, 8, s')
    ensures Looks(s', Three(CANDIDATE, HAS_VOTED), map[ID := Candidate(1, COLLATERAL, 0)], 8)
  {
    var s1 := Quits(s);
    GoesOn(txs, 6, s, s1);
    s' := Applies(s1, HAS_VOTED, 7);
    GoesOn(txs, 7, s1, s');
  }

  const GENESIS := [GIVE_APPLICANT, GIVE_VOTER, REGISTER, STAKE, APPLY, VOTE, QUIT, APPLY]

  /**
   An account applies, paying for itself by name, gets a vote, quits, and sends the same application
   again, which its nonce, never used up, admits: its vote power is then nothing, although an account
   with a stake of 10 has voted for it.  The chain is that of a genesis block alone.
   */
  lemma SelfPaidCandidacyLosesVotes(n: nat, rank: Ranking) returns (s: State)
    requires n > 0
    ensures ChainState(n, rank, GENESIS, []) == Ok(s)
    ensures ID in s.candidates && s.candidates[ID].votePower == 0 && Support(s.accounts, ID) == 10
    ensures NonceOf(s, 1) == APPLY.nonce - 1
    ensures ExecuteUnstake(s, 2, 10) == Err(Underflow)
  {
    var txs := GENESIS;
    Begins(txs);
    s := Given(txs, EMPTY);
    s := HasStaked(txs, s);
    s := HasVotes(txs, s);
    s := AppliesAgain(txs, s);
    assert txs[..8] == txs;
    SupportOfTwo(s.accounts);
    CannotUnstake(s);
  }

  /** There is no power to take the voter's stake away from. */
  lemma CannotUnstake(s: State)
    requires Looks(s, Three(CANDIDATE, HAS_VOTED), map[ID := Candidate(1, COLLATERAL, 0)], 8)
    ensures ExecuteUnstake(s, 2, 10) == Err(Underflow)
  {
    assert GetAccount(s, 2) == Ok(HAS_VOTED);
    assert ChangeVotePowers(s.candidates, [ID], -10, false) == Err(Underflow);
  }

  lemma SupportOfTwo(accounts: Accounts)
    requires accounts == Three(CANDIDATE, HAS_VOTED)
    ensures Support(accounts, ID) == 10
  {
    var w := Weights(accounts, ID);
    SumSplit(w, 2);
    SumSplit(w - {2}, 1);
    SumSplit(w - {2} - {1}, 3);
    assert w - {2} - {1} - {3} == map[];
  }
}
