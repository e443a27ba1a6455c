/**
 The ledger: accounts, aliases, candidates and what each transaction does to them.  A transaction
 works on the state it is given and either yields the changed state or an error, in which case the
 caller keeps the state it had.
 */
module Ledger {
  import opened Options
  import opened Sequences
  import opened Errors
  import opened Uint128
  import BlockTree

  type Address = nat

  const NO_ADDRESS: Address := 0

  /** Hashing a transaction is modelled as an injective function of what it signs. */
  datatype Id = TxHash(from: Address, nonce: nat, payload: Payload)

  datatype Payload =
    | Transfer(to: Address, value: Amount)
    | Stake(amount: Amount)
    | Unstake(amount: Amount)
    | Vote(candidates: seq<Id>)
    | BecomeCandidate(collateral: Amount)
    | QuitCandidate
    | RegisterAlias(name: string, aliasCollateral: Amount)
    | DeregisterAlias
    | Genesis
    | GenesisDistribution(target: Address, balance: Amount)

  datatype Tx = Tx(from: Address, nonce: nat, payload: Payload, payer: Option<Address>, size: nat) {
    function Hash(): Id {
      TxHash(from, nonce, payload)
    }

    function PayerOrFrom(): Address {
      if payer.Some? then payer.value else from
    }
  }

  datatype Alias = Alias(name: string, collateral: Amount)

  /** The voted candidates are kept in the order the account's vote table yields them. */
  datatype Account = Account(
    balance: Amount,
    nonce: nat,
    staking: Amount,
    voted: seq<Id>,
    candidateId: Option<Id>,
    points: Amount,
    lastPointsTs: nat,
    unstaking: Amount,
    lastUnstakingTs: nat,
    alias: Option<Alias>)

  const NEW_ACCOUNT := Account(0, 0, 0, [], None, 0, 0, 0, 0, None)

  datatype Candidate = Candidate(addr: Address, collateral: Amount, votePower: Amount)

  type Accounts = map<Address, Account>

  type Candidates = map<Id, Candidate>

  datatype Receipt = Receipt(
    executed: bool, timestamp: nat, height: nat, cpuUsage: nat, netUsage: nat, points: Amount, error: Option<Error>)

  datatype State = State(
    timestamp: nat,
    height: nat,
    supply: Amount,
    reward: Amount,
    cpuPrice: Amount,
    netPrice: Amount,
    cpuUsage: nat,
    netUsage: nat,
    accounts: Accounts,
    aliases: map<string, Address>,
    candidates: Candidates,
    dynasty: map<nat, Address>,
    txs: map<Id, (Tx, Receipt)>)

  const WEEK := 604800
  const VOTE_MAXIMUM := 15
  const ALIAS_COLLATERAL_MINIMUM := 1_000_000_000_000_000_000
  const CANDIDATE_COLLATERAL_MINIMUM := 1_000_000_000_000_000_000
  const CPU_LIMIT := 3_000_000
  const NET_LIMIT := 3_000_000

  // --------------------------------------------------------------------------------------------
  // Accounts
  // --------------------------------------------------------------------------------------------

  /** Points come back over a week in proportion to the stake. */
  function CurrentPoints(acc: Account, ts: nat): Result<Amount> {
    var used :- Sub(acc.staking, acc.points);
    var elapsed := ts - acc.lastPointsTs;
    if elapsed >= WEEK then Ok(acc.staking)
    else if elapsed < 0 then Err(ElapsedTimestamp)
    else if elapsed == 0 then Ok(acc.points)
    else
      var product :- Mul(acc.staking, elapsed);
      var regen := product / WEEK;
      if regen >= used then Ok(acc.staking) else Add(acc.points, regen)
  }

  function UpdatePoints(acc: Account, ts: nat): Result<Account> {
    if acc.lastPointsTs == ts then Ok(acc)
    else
      var points :- CurrentPoints(acc, ts);
      Ok(acc.(points := points, lastPointsTs := ts))
  }

  /** Unstaked coins are returned to the balance a week after the last unstaking. */
  function UpdateUnstaking(acc: Account, ts: nat): Result<Account> {
    if acc.lastUnstakingTs == 0 || ts - acc.lastUnstakingTs < WEEK then Ok(acc)
    else
      var balance :- Add(acc.balance, acc.unstaking);
      Ok(acc.(balance := balance, unstaking := 0, lastUnstakingTs := 0))
  }

  /** An account as of the time of the state. */
  function GetAccount(s: State, addr: Address): Result<Account> {
    if addr !in s.accounts then Ok(NEW_ACCOUNT)
    else
      var acc :- UpdatePoints(s.accounts[addr], s.timestamp);
      UpdateUnstaking(acc, s.timestamp)
  }

  function PutAccount(s: State, addr: Address, acc: Account): State {
    s.(accounts := s.accounts[addr := acc])
  }

  // --------------------------------------------------------------------------------------------
  // Vote power
  // --------------------------------------------------------------------------------------------

  /** Changes the vote power of one candidate; an unknown candidate is an error. */
  function ChangeVotePower(cs: Candidates, id: Id, delta: int): Result<Candidates> {
    if id !in cs then Err(NotFound)
    else
      var power :- Checked(cs[id].votePower + delta);
      Ok(cs[id := cs[id].(votePower := power)])
  }

  /**
   Changes the vote power of candidates one after the other.  A vote for an unknown candidate is an
   error; for candidates already voted for, those that have quit are passed over.
   */
  function ChangeVotePowers(cs: Candidates, ids: seq<Id>, delta: int, strict: bool): Result<Candidates>
    decreases |ids|
  {
    if ids == [] then Ok(cs)
    else if ids[0] !in cs then
      if strict then Err(NotCandidate) else ChangeVotePowers(cs, ids[1..], delta, strict)
    else
      var cs' :- ChangeVotePower(cs, ids[0], delta);
      ChangeVotePowers(cs', ids[1..], delta, strict)
  }

  // --------------------------------------------------------------------------------------------
  // Transactions
  // --------------------------------------------------------------------------------------------

  function ExecuteTransfer(s: State, from: Address, to: Address, value: Amount): Result<State> {
    var s1 :- Withdraw(s, from, value);
    Deposit(s1, to, value)
  }

  function Withdraw(s: State, from: Address, value: Amount): Result<State> {
    var sender :- GetAccount(s, from);
    if sender.balance < value then Err(BalanceNotEnough)
    else Ok(PutAccount(s, from, sender.(balance := sender.balance - value)))
  }

  function Deposit(s: State, to: Address, value: Amount): Result<State> {
    var receiver :- GetAccount(s, to);
    var balance :- Add(receiver.balance, value);
    Ok(PutAccount(s, to, receiver.(balance := balance)))
  }

  function ExecuteStake(s: State, user: Address, amount: Amount): Result<State> {
    var acc :- GetAccount(s, user);
    if acc.balance < amount then Err(BalanceNotEnough)
    else
      var staking :- Add(acc.staking, amount);
      var points :- Add(acc.points, amount);
      var s1 := PutAccount(s, user, acc.(balance := acc.balance - amount, staking := staking, points := points));
      var cs :- ChangeVotePowers(s1.candidates, acc.voted, amount, false);
      Ok(s1.(candidates := cs))
  }

  function ExecuteUnstake(s: State, user: Address, amount: Amount): Result<State> {
    var acc :- GetAccount(s, user);
    if acc.staking < amount then Err(StakingNotEnough)
    else
      var staking := acc.staking - amount;
      var unstaking :- Add(acc.unstaking, amount);
      var s1 := PutAccount(s, user, acc.(
        staking := staking,
        unstaking := unstaking,
        lastUnstakingTs := s.timestamp,
        points := if staking < acc.points then staking else acc.points));
      var cs :- ChangeVotePowers(s1.candidates, acc.voted, 0 - amount, false);
      Ok(s1.(candidates := cs))
  }

  function ExecuteVote(s: State, voter: Address, ids: seq<Id>): Result<State> {
    if |ids| > VOTE_MAXIMUM then Err(OverMaxVote)
    else
      var acc :- GetAccount(s, voter);
      if !Distinct(ids) then Err(DuplicateVote)
      else
        var added :- ChangeVotePowers(s.candidates, ids, acc.staking, true);
        var cs :- ChangeVotePowers(added, acc.voted, 0 - acc.staking, false);
        Ok(PutAccount(s.(candidates := cs), voter, acc.(voted := ids)))
  }

  function ExecuteBecomeCandidate(s: State, addr: Address, id: Id, collateral: Amount): Result<State> {
    var acc :- GetAccount(s, addr);
    if acc.candidateId.Some? then Err(AlreadyCandidate)
    else if acc.alias.None? then Err(AliasNotExist)
    else if collateral < CANDIDATE_COLLATERAL_MINIMUM then Err(NotEnoughCandidateCollateral)
    else if acc.balance < collateral then Err(BalanceNotEnough)
    else
      var s1 := PutAccount(s, addr, acc.(balance := acc.balance - collateral, candidateId := Some(id)));
      Ok(s1.(candidates := s1.candidates[id := Candidate(addr, collateral, 0)]))
  }

  function ExecuteQuitCandidate(s: State, addr: Address): Result<State> {
    var acc :- GetAccount(s, addr);
    if acc.candidateId.None? || acc.candidateId.value !in s.candidates then Err(NotCandidate)
    else
      var id := acc.candidateId.value;
      var balance :- Add(acc.balance, s.candidates[id].collateral);
      var s1 := PutAccount(s, addr, acc.(balance := balance, candidateId := None));
      Ok(s1.(candidates := s1.candidates - {id}))
  }

  function ExecuteRegisterAlias(s: State, addr: Address, name: string, collateral: Amount): Result<State> {
    if collateral < ALIAS_COLLATERAL_MINIMUM then Err(AliasCollateralLimit)
    else
      var acc :- GetAccount(s, addr);
      if acc.alias.Some? then Err(AliasAlreadyHave)
      else if name in s.aliases then
        var owner :- GetAccount(s, s.aliases[name]);
        Err(AliasAlreadyTaken)
      else if acc.balance < collateral then Err(BalanceNotEnough)
      else
        var s1 := PutAccount(s, addr, acc.(balance := acc.balance - collateral, alias := Some(Alias(name, collateral))));
        Ok(s1.(aliases := s1.aliases[name := addr]))
  }

  function ExecuteDeregisterAlias(s: State, addr: Address): Result<State> {
    var acc :- GetAccount(s, addr);
    if acc.alias.None? || acc.alias.value.name == "" then Err(AliasNotExist)
    else
      var alias := acc.alias.value;
      var balance :- Add(acc.balance, alias.collateral);
      if alias.name !in s.aliases then Err(NotFound)
      else if s.aliases[alias.name] != addr then Err(Unauthorized)
      else
        Ok(PutAccount(s.(aliases := s.aliases - {alias.name}), addr, acc.(balance := balance, alias := None)))
  }

  function ExecuteGenesisDistribution(s: State, target: Address, amount: Amount): Result<State> {
    if s.height != BlockTree.GENESIS_HEIGHT then Err(NotGenesisBlock)
    else
      var acc :- GetAccount(s, target);
      if acc.balance != 0 then Err(GenesisDistributionAllowedOnce)
      else
        var balance :- Add(acc.balance, amount);
        var supply :- Add(s.supply, amount);
        Ok(PutAccount(s, target, acc.(balance := balance)).(supply := supply))
  }

  function Execute(s: State, tx: Tx): Result<State> {
    match tx.payload
    case Transfer(to, value) => ExecuteTransfer(s, tx.from, to, value)
    case Stake(amount) => ExecuteStake(s, tx.from, amount)
    case Unstake(amount) => ExecuteUnstake(s, tx.from, amount)
    case Vote(ids) => ExecuteVote(s, tx.from, ids)
    case BecomeCandidate(collateral) => ExecuteBecomeCandidate(s, tx.from, tx.Hash(), collateral)
    case QuitCandidate => ExecuteQuitCandidate(s, tx.from)
    case RegisterAlias(name, collateral) => ExecuteRegisterAlias(s, tx.from, name, collateral)
    case DeregisterAlias => ExecuteDeregisterAlias(s, tx.from)
    case Genesis => if s.height == BlockTree.GENESIS_HEIGHT then Ok(s) else Err(NotGenesisBlock)
    case GenesisDistribution(target, amount) => ExecuteGenesisDistribution(s, target, amount)
  }

  // --------------------------------------------------------------------------------------------
  // Bandwidth and points
  // --------------------------------------------------------------------------------------------

  function CpuCost(p: Payload): nat {
    match p
    case Genesis => 0
    case GenesisDistribution(_, _) => 0
    case RegisterAlias(_, _) => 1500
    case DeregisterAlias => 1500
    case _ => 1000
  }

  function NetCost(tx: Tx): nat {
    match tx.payload
    case Genesis => 0
    case GenesisDistribution(_, _) => 0
    case _ => tx.size
  }

  /** Whether executing adds (true) or takes away points, and how many. */
  function PointChange(p: Payload): (bool, Amount) {
    match p
    case Stake(amount) => (true, amount)
    case Unstake(amount) => (false, amount)
    case _ => (true, 0)
  }

  function PointUsage(s: State, tx: Tx): Result<Amount> {
    var cpu :- Checked(s.cpuPrice * CpuCost(tx.payload));
    var net :- Checked(s.netPrice * NetCost(tx));
    Add(cpu, net)
  }

  /** Transactions whose value makes them void are refused before anything else is looked at. */
  predicate Convertible(tx: Tx) {
    match tx.payload
    case Transfer(_, value) => value != 0
    case Stake(amount) => amount != 0
    case _ => true
  }

  function CheckFromPoint(from: Account, p: Payload, usage: Amount): Result<()> {
    var (positive, abs) := PointChange(p);
    var avail := if positive then Add(from.points, abs) else Sub(from.points, abs);
    if avail.Err? && avail.error != Underflow then Err(avail.error)
    else if (if avail.Err? then 0 else avail.value) < usage then Err(PointNotEnough)
    else Ok(())
  }

  function CheckAvailablePoint(s: State, tx: Tx, usage: Amount): Result<()> {
    if tx.payer.Some? then
      var payer :- GetAccount(s, tx.payer.value);
      if payer.points < usage then Err(PointNotEnough) else Ok(())
    else
      var from :- GetAccount(s, tx.from);
      CheckFromPoint(from, tx.payload, usage)
  }

  // --------------------------------------------------------------------------------------------
  // Blocks
  // --------------------------------------------------------------------------------------------

  /** Runs a transaction: an error refuses it; otherwise its receipt says whether it executed. */
  function ExecuteTransaction(s: State, tx: Tx): Result<(State, Receipt)> {
    if !Convertible(tx) then Err(InvalidTransaction)
    else
      var from :- GetAccount(s, tx.from);
      if tx.nonce != from.nonce + 1 then Err(NonceNotExecutable)
      else if s.cpuUsage + CpuCost(tx.payload) > CPU_LIMIT then Err(ExceedBlockMaxCPUUsage)
      else if s.netUsage + NetCost(tx) > NET_LIMIT then Err(ExceedBlockMaxNetUsage)
      else
        var usage :- PointUsage(s, tx);
        var _ :- CheckAvailablePoint(s, tx, usage);
        var outcome := Execute(s, tx);
        var receipt := Receipt(outcome.Ok?, s.timestamp, s.height, CpuCost(tx.payload), NetCost(tx), usage,
                               if outcome.Ok? then None else Some(outcome.error));
        Ok((if outcome.Ok? then outcome.value else s, receipt))
  }

  /**
   Advances the sender's nonce and takes the fee.  The sender's and the payer's account are fetched
   before either is written back, and the payer's is written last.
   */
  function Charge(s: State, tx: Tx, fee: Amount): Result<Accounts> {
    var fetched :- GetAccount(s, tx.from);
    var from := fetched.(nonce := fetched.nonce + 1);
    if tx.payer.None? then
      var points :- Sub(from.points, fee);
      Ok(s.accounts[tx.from := from.(points := points)])
    else
      var payer :- GetAccount(s, tx.payer.value);
      var points :- Sub(payer.points, fee);
      Ok(s.accounts[tx.from := from][tx.payer.value := payer.(points := points)])
  }

  /** Charges an executed transaction and records it. */
  function AcceptTransaction(s: State, tx: Tx, receipt: Receipt): Result<State> {
    var accounts :- Charge(s, tx, receipt.points);
    Ok(s.(accounts := accounts,
          txs := s.txs[tx.Hash() := (tx, receipt)],
          cpuUsage := s.cpuUsage + receipt.cpuUsage,
          netUsage := s.netUsage + receipt.netUsage))
  }

  const INFLATION_NUM := 464
  const INFLATION_DENOM := 100_000_000_000
  const INFLATION_ROUND_DOWN := 10_000_000_000

  function MintReward(parentSupply: Amount): Result<Amount> {
    var reward :- MulWithRat(parentSupply, INFLATION_NUM, INFLATION_DENOM);
    Mul(reward / INFLATION_ROUND_DOWN, INFLATION_ROUND_DOWN)
  }

  function PayReward(s: State, coinbase: Address, parentSupply: Amount): Result<State> {
    if coinbase == NO_ADDRESS then Err(CoinbaseNotSet)
    else
      var reward :- MintReward(parentSupply);
      var supply :- Add(parentSupply, reward);
      var acc :- GetAccount(s, coinbase);
      var balance :- Add(acc.balance, reward);
      Ok(PutAccount(s, coinbase, acc.(balance := balance)).(reward := reward, supply := supply))
  }

  /** Runs and charges a transaction; a refused transaction or a failed charge is an error. */
  function ApplyTransaction(s: State, tx: Tx): Result<(State, Receipt)> {
    var (s1, receipt) :- ExecuteTransaction(s, tx);
    var s2 :- AcceptTransaction(s1, tx, receipt);
    Ok((s2, receipt))
  }
}
