/**
 Chains on which a block cannot be made as long as one transaction is offered: it passes the check of
 its sender's points, and executing it, or failing to, leaves too few of them to charge it.
 */
module StuckBlocks {
  import opened Options
  import opened Errors
  import opened Ledger
  import opened Dynasties
  import opened BlockProduction
  import opened LedgerChain
  import opened GenesisRuns
  import BlockTree

  const COINS := 1_000_000_000_000_000_000

  /** The least price of a unit of bandwidth for this supply, and of a thousand units. */
  const PRICE := 16_534
  const FEE := 16_534_000

  const GIVE := Tx(3, 1, GenesisDistribution(2, COINS), None, 0)
  const STAKE := Tx(2, 1, Stake(FEE), None, 0)
  const FAILING_STAKE := Tx(1, 1, Stake(FEE), None, 0)
  const UNSTAKE := Tx(2, 2, Unstake(FEE), Some(2), 0)

  const HOLDER := NEW_ACCOUNT.(balance := COINS)
  const STAKER := NEW_ACCOUNT.(balance := COINS - FEE, staking := FEE, points := FEE, nonce := 1)
  const GIVER := NEW_ACCOUNT.(nonce := 1)

  /** The genesis block, in which bandwidth costs nothing and little of it is used. */
  ghost predicate Looks(s: State, accounts: Accounts) {
    && s.timestamp == 0 && s.height == BlockTree.GENESIS_HEIGHT && s.cpuPrice == 0 && s.netPrice == 0
    && s.cpuUsage <= 1000 && s.netUsage == 0 && s.supply == COINS
    && s.accounts == accounts && s.candidates == map[]
  }

  ghost predicate Blank(s: State) {
    && s.timestamp == 0 && s.height == BlockTree.GENESIS_HEIGHT && s.cpuPrice == 0 && s.netPrice == 0
    && s.cpuUsage == 0 && s.netUsage == 0 && s.supply == 0 && s.accounts == map[] && s.candidates == map[]
  }

  lemma Gives(s: State) returns (s': State)
    requires Blank(s)
    ensures Becomes(s, GIVE, s') && s'.cpuUsage == 0 && Looks(s', map[2 := HOLDER, 3 := GIVER])
  {
    assert PointUsage(s, GIVE) == Ok(0);
    var s1 := Execute(s, GIVE).value;
    assert s1 == PutAccount(s, 2, HOLDER).(supply := COINS);
    FreeOfCharge(s1, GIVE, NEW_ACCOUNT);
    s' := ApplyTransaction(s, GIVE).value.0;
  }

  lemma Stakes(s: State) returns (s': State)
    requires Looks(s, map[2 := HOLDER, 3 := GIVER]) && s.cpuUsage == 0
    ensures Becomes(s, STAKE, s') && Looks(s', map[2 := STAKER, 3 := GIVER])
  {
    assert GetAccount(s, 2) == Ok(HOLDER);
    assert PointUsage(s, STAKE) == Ok(0);
    var acc := HOLDER.(balance := COINS - FEE, staking := FEE, points := FEE);
    var s1 := Execute(s, STAKE).value;
    assert ChangeVotePowers(s.candidates, [], FEE, false) == Ok(s.candidates);
    assert s1 == PutAccount(s, 2, acc);
    FreeOfCharge(s1, STAKE, acc);
    s' := ApplyTransaction(s, STAKE).value.0;
    assert s'.accounts == s.accounts[2 := STAKER];
  }

  lemma PriceOfChild(usage: nat, limit: nat)
    requires limit == 3_000_000 && usage <= 1000
    ensures ChildPrice(0, usage, limit, COINS) == Ok(PRICE)
  {
    assert COINS / BLOCKS_IN_WINDOW == 4_960_317_460_317;
    assert COINS / BLOCKS_IN_WINDOW / limit == 1_653_439;
    assert MinPrice(COINS, limit) == Ok(PRICE);
  }

  /** The first block after the genesis block starts with both prices at their floor. */
  lemma StartsAtFloor(n: nat, rank: Ranking, s: State, accounts: Accounts) returns (s0: State)
    requires n > 0 && Looks(s, accounts)
    ensures StartChild(n, rank, s, 3) == Ok(s0)
    ensures s0.timestamp == 3 && s0.cpuPrice == PRICE && s0.netPrice == PRICE && s0.cpuUsage == 0 && s0.netUsage == 0
    ensures s0.accounts == accounts && s0.candidates == map[]
  {
    PriceOfChild(s.cpuUsage, CPU_LIMIT);
    PriceOfChild(s.netUsage, NET_LIMIT);
    s0 := StartChild(n, rank, s, 3).value;
  }

  lemma FailingStakeAborts(s0: State)
    requires s0.cpuPrice == PRICE && s0.netPrice == PRICE && s0.cpuUsage == 0 && s0.netUsage == 0
    requires s0.accounts == map[2 := HOLDER, 3 := GIVER]
    ensures Fill(s0, [], [FAILING_STAKE]) == Err(Underflow)
  {
    assert GetAccount(s0, 1) == Ok(NEW_ACCOUNT);
    assert PointUsage(s0, FAILING_STAKE) == Ok(FEE);
    assert Execute(s0, FAILING_STAKE) == Err(BalanceNotEnough);
    assert AcceptTransaction(s0, FAILING_STAKE, ExecuteTransaction(s0, FAILING_STAKE).value.1) == Err(Underflow);
  }

  lemma UnstakeAborts(s0: State)
    requires s0.timestamp == 3 && s0.cpuPrice == PRICE && s0.netPrice == PRICE && s0.cpuUsage == 0 && s0.netUsage == 0
    requires s0.accounts == map[2 := STAKER, 3 := GIVER] && s0.candidates == map[]
    ensures Fill(s0, [], [UNSTAKE]) == Err(Underflow)
  {
    var acc := STAKER.(lastPointsTs := 3);
    assert GetAccount(s0, 2) == Ok(acc);
    assert PointUsage(s0, UNSTAKE) == Ok(FEE);
    var left := acc.(staking := 0, unstaking := FEE, lastUnstakingTs := 3, points := 0);
    assert ChangeVotePowers(s0.candidates, [], -FEE, false) == Ok(s0.candidates);
    var s1 := PutAccount(s0, 2, left);
    assert Execute(s0, UNSTAKE) == Ok(s1);
    assert GetAccount(s1, 2) == Ok(left);
    assert AcceptTransaction(s1, UNSTAKE, ExecuteTransaction(s0, UNSTAKE).value.1) == Err(Underflow);
  }

  lemma Begins(txs: seq<Tx>) returns (s: State)
    ensures After(txs, 0, s) && Blank(s)
  {
    s := EMPTY;
  }

  lemma Given(txs: seq<Tx>, s0: State) returns (s: State)
    requires |txs| > 0 && txs[0] == GIVE && After(txs, 0, s0) && Blank(s0)
    ensures After(txs, 1, s) && s.cpuUsage == 0 && Looks(s, map[2 := HOLDER, 3 := GIVER])
  {
    s := Gives(s0);
    GoesOn(txs, 0, s0, s);
  }

  lemma Staked(txs: seq<Tx>, s1: State) returns (s: State)
    requires |txs| > 1 && txs[1] == STAKE && After(txs, 1, s1) && s1.cpuUsage == 0
    requires Looks(s1, map[2 := HOLDER, 3 := GIVER])
    ensures After(txs, 2, s) && Looks(s, map[2 := STAKER, 3 := GIVER])
  {
    s := Stakes(s1);
    GoesOn(txs, 1, s1, s);
  }

  lemma IsChain(n: nat, rank: Ranking, txs: seq<Tx>, s: State)
    requires n > 0 && After(txs, |txs|, s)
    ensures ChainState(n, rank, txs, []) == Ok(s)
  {
    assert txs[..|txs|] == txs;
  }

  /** A stake above its sender's balance stops the first block of a chain. */
  lemma FailedStakeStopsBlock(n: nat, rank: Ranking) returns (s: State, s0: State)
    requires n > 0
    ensures ChainState(n, rank, [GIVE], []) == Ok(s) && StartChild(n, rank, s, 3) == Ok(s0)
    ensures Fill(s0, [], [FAILING_STAKE]) == Err(Underflow)
  {
    s := Begins([GIVE]);
    s := Given([GIVE], s);
    IsChain(n, rank, [GIVE], s);
    s0 := StartsAtFloor(n, rank, s, map[2 := HOLDER, 3 := GIVER]);
    FailingStakeAborts(s0);
  }

  /** So does an unstaking of everything whose sender names itself as payer. */
  lemma SelfPaidUnstakeStopsBlock(n: nat, rank: Ranking) returns (s: State, s0: State)
    requires n > 0
    ensures ChainState(n, rank, [GIVE, STAKE], []) == Ok(s) && StartChild(n, rank, s, 3) == Ok(s0)
    ensures Fill(s0, [], [UNSTAKE]) == Err(Underflow)
  {
    s := Begins([GIVE, STAKE]);
    s := Given([GIVE, STAKE], s);
    s := Staked([GIVE, STAKE], s);
    IsChain(n, rank, [GIVE, STAKE], s);
    s0 := StartsAtFloor(n, rank, s, map[2 := STAKER, 3 := GIVER]);
    UnstakeAborts(s0);
  }
}
