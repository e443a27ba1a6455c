/**
 Transactions as they work on a block: accounts, candidates and aliases are written one after the
 other, and a batch around them makes what an aborted transaction wrote disappear.
 */
module Transactions {
  import opened Options
  import opened Sequences
  import opened Errors
  import opened Uint128
  import opened Ledger
  import opened Dynasties
  import BlockTree

  /** A state whose tables are put back to those of another one. */
  function Restored(s: State, base: State): State {
    s.(accounts := base.accounts, aliases := base.aliases, candidates := base.candidates,
       dynasty := base.dynasty, txs := base.txs)
  }

  /**
   What a transaction did, against what it has to do: success leaves the expected state, and a
   failure gives the expected error and leaves nothing behind that restoring the tables would not undo.
   */
  ghost predicate Does(expected: Result<State>, r: Result<()>, before: State, after: State) {
    match expected
    case Ok(s) => r == Ok(()) && after == s
    case Err(e) => r == Err(e) && Restored(after, before) == before
  }

  // --------------------------------------------------------------------------------------------
  // Writes
  // --------------------------------------------------------------------------------------------

  datatype TableWrite =
    | PutAcc(addr: Address, acc: Account)
    | PutAlias(name: string, owner: Address)
    | DropAlias(dropped: string)
    | PutCandidate(id: Id, candidate: Candidate)
    | DropCandidate(gone: Id)
    | PutTx(tx: Tx, receipt: Receipt)
    | PutSeat(seat: nat, member: Address)

  function Apply(s: State, w: TableWrite): State {
    match w
    case PutAcc(addr, acc) => PutAccount(s, addr, acc)
    case PutAlias(name, owner) => s.(aliases := s.aliases[name := owner])
    case DropAlias(name) => s.(aliases := s.aliases - {name})
    case PutCandidate(id, candidate) => s.(candidates := s.candidates[id := candidate])
    case DropCandidate(id) => s.(candidates := s.candidates - {id})
    case PutTx(tx, receipt) => s.(txs := s.txs[tx.Hash() := (tx, receipt)])
    case PutSeat(seat, member) => s.(dynasty := s.dynasty[seat := member])
  }

  function ApplyAll(s: State, log: seq<TableWrite>): State {
    if log == [] then s else Apply(ApplyAll(s, log[..|log| - 1]), log[|log| - 1])
  }

  /** What is dropped is there. */
  predicate Droppable(s: State, w: TableWrite) {
    && (w.DropAlias? ==> w.dropped in s.aliases)
    && (w.DropCandidate? ==> w.gone in s.candidates)
  }

  /** What is dropped was there before the first write, and still is when it is dropped. */
  ghost predicate Allowed(base: State, log: seq<TableWrite>) {
    log == [] ||
    var front, w := log[..|log| - 1], log[|log| - 1];
    Allowed(base, front) && Droppable(base, w) && Droppable(ApplyAll(base, front), w)
  }

  /** The writes lead from the tables of one state to those of another. */
  ghost predicate Wrote(base: State, log: seq<TableWrite>, s: State) {
    Allowed(base, log) && Restored(s, ApplyAll(base, log)) == s
  }

  lemma WroteOneMore(base: State, log: seq<TableWrite>, s: State, w: TableWrite)
    requires Wrote(base, log, s) && Droppable(base, w) && Droppable(s, w)
    ensures Wrote(base, log + [w], Apply(s, w))
  {
    assert (log + [w])[..|log|] == log;
  }

  class WorkingBlock {
    var state: State
    var base: State
    var batching: bool
    var log: seq<TableWrite>

    /** The tables are those the batch began with and what has been written since. */
    ghost predicate Logged()
      reads this
    {
      Wrote(base, log, state)
    }

    constructor (s: State)
      ensures state == s && !batching
    {
      state, base, batching, log := s, s, false, [];
    }

    method BeginBatch()
      requires !batching
      modifies this
      ensures batching && base == state && state == old(state) && Logged()
    {
      base, batching, log := state, true, [];
    }

    method RollBack()
      requires batching
      modifies this
      ensures !batching && state == Restored(old(state), old(base))
    {
      state := Restored(state, base);
      batching := false;
    }

    method Commit()
      requires batching
      modifies this`batching
      ensures !batching
    {
      batching := false;
    }

    /** Every write to the tables. */
    method Record(w: TableWrite)
      requires Logged() && Droppable(base, w) && Droppable(state, w)
      modifies this`state, this`log
      ensures Logged() && state == Apply(old(state), w)
    {
      WroteOneMore(base, log, state, w);
      state, log := Apply(state, w), log + [w];
    }

    // ------------------------------------------------------------------------------------------
    // Vote power
    // ------------------------------------------------------------------------------------------

    method ChangeCandidate(id: Id, delta: int) returns (r: Result<()>)
      requires Logged()
      modifies this`state, this`log
      ensures Logged()
      ensures match ChangeVotePower(old(state).candidates, id, delta)
              case Ok(cs) => r == Ok(()) && state == old(state).(candidates := cs)
              case Err(e) => r == Err(e) && state == old(state)
    {
      if id !in state.candidates {
        return Err(NotFound);
      }
      var power := Checked(state.candidates[id].votePower + delta);
      if power.Err? {
        return Err(power.error);
      }
      var candidate := state.candidates[id].(votePower := power.value);
      Record(PutCandidate(id, candidate));
      return Ok(());
    }

    /** Changes the vote power of candidates in turn, in a strict way or passing over those gone. */
    method ChangeCandidates(ids: seq<Id>, delta: int, strict: bool) returns (r: Result<()>)
      requires Logged()
      modifies this`state, this`log
      ensures Logged()
      ensures match ChangeVotePowers(old(state).candidates, ids, delta, strict)
              case Ok(cs) => r == Ok(()) && state == old(state).(candidates := cs)
              case Err(e) => r == Err(e) && Restored(state, old(state)) == old(state)
    {
      var i := 0;
      while i < |ids|
        invariant 0 <= i <= |ids|
        invariant ChangeVotePowers(old(state).candidates, ids, delta, strict) ==
                  ChangeVotePowers(state.candidates, ids[i..], delta, strict)
        invariant state == old(state).(candidates := state.candidates) && Logged()
      {
        assert ids[i..][0] == ids[i] && ids[i..][1..] == ids[i + 1..];
        var one := ChangeCandidate(ids[i], delta);
        if one == Err(NotFound) {
          if strict {
            return Err(NotCandidate);
          }
        } else if one.Err? {
          return one;
        }
        i := i + 1;
      }
      return Ok(());
    }

    // ------------------------------------------------------------------------------------------
    // Transactions
    // ------------------------------------------------------------------------------------------

    method Transfer(from: Address, to: Address, value: Amount) returns (r: Result<()>)
      requires Logged() && base == state
      modifies this`state, this`log
      ensures Logged()
      ensures Does(ExecuteTransfer(old(state), from, to, value), r, old(state), state)
    {
      r := Send(from, value);
      if r.Err? {
        return;
      }
      r := Receive(to, value);
    }

    method Send(from: Address, value: Amount) returns (r: Result<()>)
      requires Logged()
      modifies this`state, this`log
      ensures Logged()
      ensures Does(Withdraw(old(state), from, value), r, old(state), state)
      ensures Restored(state, old(state)) == old(state)
    {
      var sender := GetAccount(state, from);
      if sender.Err? {
        return Err(sender.error);
      }
      if sender.value.balance < value {
        return Err(BalanceNotEnough);
      }
      Record(PutAcc(from, sender.value.(balance := sender.value.balance - value)));
      return Ok(());
    }

    method Receive(to: Address, value: Amount) returns (r: Result<()>)
      requires Logged()
      modifies this`state, this`log
      ensures Logged()
      ensures Does(Deposit(old(state), to, value), r, old(state), state)
    {
      var receiver := GetAccount(state, to);
      if receiver.Err? {
        return Err(receiver.error);
      }
      var balance := Add(receiver.value.balance, value);
      if balance.Err? {
        return Err(balance.error);
      }
      Record(PutAcc(to, receiver.value.(balance := balance.value)));
      return Ok(());
    }

    method Stake(user: Address, amount: Amount) returns (r: Result<()>)
      requires Logged() && base == state
      modifies this`state, this`log
      ensures Logged()
      ensures Does(ExecuteStake(old(state), user, amount), r, old(state), state)
    {
      var acc := GetAccount(state, user);
      if acc.Err? {
        return Err(acc.error);
      }
      if acc.value.balance < amount {
        return Err(BalanceNotEnough);
      }
      var staking := Add(acc.value.staking, amount);
      if staking.Err? {
        return Err(staking.error);
      }
      var points := Add(acc.value.points, amount);
      if points.Err? {
        return Err(points.error);
      }
      Record(PutAcc(user, acc.value.(
        balance := acc.value.balance - amount, staking := staking.value, points := points.value)));
      r := ChangeCandidates(acc.value.voted, amount, false);
    }

    method Unstake(user: Address, amount: Amount) returns (r: Result<()>)
      requires Logged() && base == state
      modifies this`state, this`log
      ensures Logged()
      ensures Does(ExecuteUnstake(old(state), user, amount), r, old(state), state)
    {
      var acc := GetAccount(state, user);
      if acc.Err? {
        return Err(acc.error);
      }
      if acc.value.staking < amount {
        return Err(StakingNotEnough);
      }
      var staking := acc.value.staking - amount;
      var unstaking := Add(acc.value.unstaking, amount);
      if unstaking.Err? {
        return Err(unstaking.error);
      }
      var points := acc.value.points;
      if staking < points {
        points := staking;
      }
      Record(PutAcc(user, acc.value.(
        staking := staking, unstaking := unstaking.value, lastUnstakingTs := state.timestamp, points := points)));
      r := ChangeCandidates(acc.value.voted, 0 - amount, false);
    }

    /** The candidates of a vote are collected one by one; one that is there already is an error. */
    static method CollectVotes(ids: seq<Id>) returns (distinct: bool)
      ensures distinct <==> Distinct(ids)
    {
      var voted: set<Id> := {};
      for i := 0 to |ids|
        invariant voted == set k | 0 <= k < i :: ids[k]
        invariant Distinct(ids[..i])
      {
        if ids[i] in voted {
          var k :| 0 <= k < i && ids[k] == ids[i];
          return false;
        }
        voted := voted + {ids[i]};
      }
      assert ids == ids[..|ids|];
      return true;
    }

    method Vote(voter: Address, ids: seq<Id>) returns (r: Result<()>)
      requires Logged() && base == state
      modifies this`state, this`log
      ensures Logged()
      ensures Does(ExecuteVote(old(state), voter, ids), r, old(state), state)
    {
      if |ids| > VOTE_MAXIMUM {
        return Err(OverMaxVote);
      }
      var acc := GetAccount(state, voter);
      if acc.Err? {
        return Err(acc.error);
      }
      var distinct := CollectVotes(ids);
      if !distinct {
        return Err(DuplicateVote);
      }
      r := ChangeCandidates(ids, acc.value.staking, true);
      if r.Err? {
        return;
      }
      r := ChangeCandidates(acc.value.voted, 0 - acc.value.staking, false);
      if r.Err? {
        return;
      }
      Record(PutAcc(voter, acc.value.(voted := ids)));
    }

    method BecomeCandidate(addr: Address, id: Id, collateral: Amount) returns (r: Result<()>)
      requires Logged() && base == state
      modifies this`state, this`log
      ensures Logged()
      ensures Does(ExecuteBecomeCandidate(old(state), addr, id, collateral), r, old(state), state)
    {
      var acc := GetAccount(state, addr);
      if acc.Err? {
        return Err(acc.error);
      }
      if acc.value.candidateId.Some? {
        return Err(AlreadyCandidate);
      }
      if acc.value.alias.None? {
        return Err(AliasNotExist);
      }
      if collateral < CANDIDATE_COLLATERAL_MINIMUM {
        return Err(NotEnoughCandidateCollateral);
      }
      if acc.value.balance < collateral {
        return Err(BalanceNotEnough);
      }
      Record(PutAcc(addr, acc.value.(
        balance := acc.value.balance - collateral, candidateId := Some(id))));
      Record(PutCandidate(id, Candidate(addr, collateral, 0)));
      return Ok(());
    }

    method QuitCandidate(addr: Address) returns (r: Result<()>)
      requires Logged() && base == state
      modifies this`state, this`log
      ensures Logged()
      ensures Does(ExecuteQuitCandidate(old(state), addr), r, old(state), state)
    {
      var acc := GetAccount(state, addr);
      if acc.Err? {
        return Err(acc.error);
      }
      if acc.value.candidateId.None? || acc.value.candidateId.value !in state.candidates {
        return Err(NotCandidate);
      }
      var id := acc.value.candidateId.value;
      var balance := Add(acc.value.balance, state.candidates[id].collateral);
      if balance.Err? {
        return Err(balance.error);
      }
      Record(PutAcc(addr, acc.value.(balance := balance.value, candidateId := None)));
      Record(DropCandidate(id));
      return Ok(());
    }

    method RegisterAlias(addr: Address, name: string, collateral: Amount) returns (r: Result<()>)
      requires Logged() && base == state
      modifies this`state, this`log
      ensures Logged()
      ensures Does(ExecuteRegisterAlias(old(state), addr, name, collateral), r, old(state), state)
    {
      if collateral < ALIAS_COLLATERAL_MINIMUM {
        return Err(AliasCollateralLimit);
      }
      var acc := GetAccount(state, addr);
      if acc.Err? {
        return Err(acc.error);
      }
      if acc.value.alias.Some? {
        return Err(AliasAlreadyHave);
      }
      if name in state.aliases {
        var owner := GetAccount(state, state.aliases[name]);
        return Err(if owner.Err? then owner.error else AliasAlreadyTaken);
      }
      if acc.value.balance < collateral {
        return Err(BalanceNotEnough);
      }
      Record(PutAcc(addr, acc.value.(
        balance := acc.value.balance - collateral, alias := Some(Alias(name, collateral)))));
      Record(PutAlias(name, addr));
      return Ok(());
    }

    method DeregisterAlias(addr: Address) returns (r: Result<()>)
      requires Logged() && base == state
      modifies this`state, this`log
      ensures Logged()
      ensures Does(ExecuteDeregisterAlias(old(state), addr), r, old(state), state)
    {
      var acc := GetAccount(state, addr);
      if acc.Err? {
        return Err(acc.error);
      }
      if acc.value.alias.None? || acc.value.alias.value.name == "" {
        return Err(AliasNotExist);
      }
      var alias := acc.value.alias.value;
      var balance := Add(acc.value.balance, alias.collateral);
      if balance.Err? {
        return Err(balance.error);
      }
      if alias.name !in state.aliases {
        return Err(NotFound);
      }
      if state.aliases[alias.name] != addr {
        return Err(Unauthorized);
      }
      Record(DropAlias(alias.name));
      Record(PutAcc(addr, acc.value.(balance := balance.value, alias := None)));
      return Ok(());
    }

    method GenesisDistribution(target: Address, amount: Amount) returns (r: Result<()>)
      requires Logged() && base == state
      modifies this`state, this`log
      ensures Logged()
      ensures Does(ExecuteGenesisDistribution(old(state), target, amount), r, old(state), state)
    {
      if state.height != BlockTree.GENESIS_HEIGHT {
        return Err(NotGenesisBlock);
      }
      var acc := GetAccount(state, target);
      if acc.Err? {
        return Err(acc.error);
      }
      if acc.value.balance != 0 {
        return Err(GenesisDistributionAllowedOnce);
      }
      // Nothing is added to an empty balance but the amount, which is in range.
      var balance := Add(acc.value.balance, amount);
      Record(PutAcc(target, acc.value.(balance := balance.value)));
      var supply := Add(state.supply, amount);
      if supply.Err? {
        return Err(supply.error);
      }
      state := state.(supply := supply.value);
      return Ok(());
    }

    method ExecutePayload(tx: Tx) returns (r: Result<()>)
      requires Logged() && base == state
      modifies this`state, this`log
      ensures Logged()
      ensures Does(Execute(old(state), tx), r, old(state), state)
    {
      match tx.payload
      case Transfer(to, value) => r := Transfer(tx.from, to, value);
      case Stake(amount) => r := Stake(tx.from, amount);
      case Unstake(amount) => r := Unstake(tx.from, amount);
      case Vote(ids) => r := Vote(tx.from, ids);
      case BecomeCandidate(collateral) => r := BecomeCandidate(tx.from, tx.Hash(), collateral);
      case QuitCandidate => r := QuitCandidate(tx.from);
      case RegisterAlias(name, collateral) => r := RegisterAlias(tx.from, name, collateral);
      case DeregisterAlias => r := DeregisterAlias(tx.from);
      case Genesis => r := if state.height == BlockTree.GENESIS_HEIGHT then Ok(()) else Err(NotGenesisBlock);
      case GenesisDistribution(target, amount) => r := GenesisDistribution(target, amount);
    }

    /** Executes in a batch: a failed transaction leaves the state exactly as it was. */
    method Atomic(tx: Tx) returns (r: Result<()>)
      requires !batching
      modifies this
      ensures !batching
      ensures match Execute(old(state), tx)
              case Ok(s) => r == Ok(()) && state == s && Wrote(old(state), log, s)
              case Err(e) => r == Err(e) && state == old(state)
    {
      BeginBatch();
      r := ExecutePayload(tx);
      if r.Err? {
        RollBack();
      } else {
        Commit();
      }
    }

    // ------------------------------------------------------------------------------------------
    // Blocks
    // ------------------------------------------------------------------------------------------

    /** Gives the seats to the members of a new dynasty, one by one. */
    method TakeSeats(dynasty: seq<Address>)
      requires !batching
      modifies this
      ensures !batching && base == old(state) && Logged()
      ensures state == old(state).(dynasty := SetDynasty(old(state).dynasty, dynasty))
    {
      BeginBatch();
      for i := 0 to |dynasty|
        invariant batching && base == old(state) && Logged()
        invariant state == old(state).(dynasty := SetDynasty(old(state).dynasty, dynasty[..i]))
      {
        assert dynasty[..i + 1][..i] == dynasty[..i];
        Record(PutSeat(i, dynasty[i]));
      }
      assert dynasty[..|dynasty|] == dynasty;
      Commit();
    }

    method Run(tx: Tx) returns (r: Result<Receipt>)
      requires !batching
      modifies this
      ensures !batching
      ensures match ExecuteTransaction(old(state), tx)
              case Ok(done) => r == Ok(done.1) && state == done.0
              case Err(e) => r == Err(e) && state == old(state)
      ensures r.Ok? ==> if r.value.executed then Wrote(old(state), log, state) else state == old(state)
    {
      if !Convertible(tx) {
        return Err(InvalidTransaction);
      }
      var from := GetAccount(state, tx.from);
      if from.Err? {
        return Err(from.error);
      }
      if tx.nonce != from.value.nonce + 1 {
        return Err(NonceNotExecutable);
      }
      if state.cpuUsage + CpuCost(tx.payload) > CPU_LIMIT {
        return Err(ExceedBlockMaxCPUUsage);
      }
      if state.netUsage + NetCost(tx) > NET_LIMIT {
        return Err(ExceedBlockMaxNetUsage);
      }
      var usage := PointUsage(state, tx);
      if usage.Err? {
        return Err(usage.error);
      }
      var enough := CheckAvailablePoint(state, tx, usage.value);
      if enough.Err? {
        return Err(enough.error);
      }
      var outcome := Atomic(tx);
      return Ok(Receipt(outcome.Ok?, state.timestamp, state.height, CpuCost(tx.payload), NetCost(tx), usage.value,
                        if outcome.Ok? then None else Some(outcome.error)));
    }

    method Accept(tx: Tx, receipt: Receipt) returns (r: Result<()>)
      requires !batching
      modifies this
      ensures !batching
      ensures match AcceptTransaction(old(state), tx, receipt)
              case Ok(s) => r == Ok(()) && state == s && Wrote(old(state), log, s)
              case Err(e) => r == Err(e) && state == old(state)
    {
      var from := GetAccount(state, tx.from);
      if from.Err? {
        return Err(from.error);
      }
      var sender := from.value.(nonce := from.value.nonce + 1);
      var payer := sender;
      if tx.payer.Some? {
        var fetched := GetAccount(state, tx.payer.value);
        if fetched.Err? {
          return Err(fetched.error);
        }
        payer := fetched.value;
      }
      var points := Sub(payer.points, receipt.points);
      if points.Err? {
        return Err(points.error);
      }
      payer := payer.(points := points.value);
      if tx.payer.None? {
        sender := payer;
      }
      WriteCharge(tx, receipt, sender, payer);
      state := state.(cpuUsage := state.cpuUsage + receipt.cpuUsage, netUsage := state.netUsage + receipt.netUsage);
      return Ok(());
    }

    method WriteCharge(tx: Tx, receipt: Receipt, sender: Account, payer: Account)
      requires !batching
      modifies this
      ensures !batching && base == old(state) && Logged()
      ensures state == old(state).(
                accounts := if tx.payer.None? then old(state).accounts[tx.from := sender]
                            else old(state).accounts[tx.from := sender][tx.payer.value := payer],
                txs := old(state).txs[tx.Hash() := (tx, receipt)])
    {
      BeginBatch();
      Record(PutAcc(tx.from, sender));
      if tx.payer.Some? {
        Record(PutAcc(tx.payer.value, payer));
      }
      Record(PutTx(tx, receipt));
      Commit();
    }

    method Reward(coinbase: Address, parentSupply: Amount) returns (r: Result<()>)
      requires !batching
      modifies this
      ensures !batching
      ensures match PayReward(old(state), coinbase, parentSupply)
              case Ok(s) => r == Ok(()) && state == s && Wrote(old(state), log, s)
              case Err(e) => r == Err(e) && state == old(state)
    {
      if coinbase == NO_ADDRESS {
        return Err(CoinbaseNotSet);
      }
      var reward := MintReward(parentSupply);
      if reward.Err? {
        return Err(reward.error);
      }
      var supply := Add(parentSupply, reward.value);
      if supply.Err? {
        return Err(supply.error);
      }
      var acc := GetAccount(state, coinbase);
      if acc.Err? {
        return Err(acc.error);
      }
      var balance := Add(acc.value.balance, reward.value);
      if balance.Err? {
        return Err(balance.error);
      }
      BeginBatch();
      Record(PutAcc(coinbase, acc.value.(balance := balance.value)));
      Commit();
      state := state.(reward := reward.value, supply := supply.value);
      return Ok(());
    }
  }
}
