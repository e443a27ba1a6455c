/** The steps of making a block, and of checking one received from somebody else. */
module BlockProcessing {
  import opened Options
  import opened Errors
  import opened Uint128
  import opened Words
  import opened Ledger
  import opened Dynasties
  import opened Transactions
  import opened BlockProduction
  import opened AcceptedBlocks

  // --------------------------------------------------------------------------------------------
  // Checking
  // --------------------------------------------------------------------------------------------

  method VerifyCPUUsage(b: BlockData) returns (r: Result<()>)
    ensures r.Ok? <==> b.cpuUsage <= CPU_LIMIT && SumCpu(b.transactions) % TWO_64 == b.cpuUsage
    ensures r == Err(InvalidCPUUsage) <==> b.cpuUsage > CPU_LIMIT
  {
    if b.cpuUsage > CPU_LIMIT {
      return Err(InvalidCPUUsage);
    }
    var usage := 0;
    for i := 0 to |b.transactions|
      invariant usage == SumCpu(b.transactions[..i]) % TWO_64
    {
      assert b.transactions[..i + 1][..i] == b.transactions[..i];
      usage := (usage + b.transactions[i].1.cpuUsage) % TWO_64;
    }
    assert b.transactions[..|b.transactions|] == b.transactions;
    return if usage != b.cpuUsage then Err(WrongCPUUsage) else Ok(());
  }

  method VerifyNetUsage(b: BlockData) returns (r: Result<()>)
    ensures r.Ok? <==> b.netUsage <= NET_LIMIT && SumNet(b.transactions) % TWO_64 == b.netUsage
    ensures r == Err(InvalidNetUsage) <==> b.netUsage > NET_LIMIT
  {
    if b.netUsage > NET_LIMIT {
      return Err(InvalidNetUsage);
    }
    var usage := 0;
    for i := 0 to |b.transactions|
      invariant usage == SumNet(b.transactions[..i]) % TWO_64
    {
      assert b.transactions[..i + 1][..i] == b.transactions[..i];
      usage := (usage + b.transactions[i].1.netUsage) % TWO_64;
    }
    assert b.transactions[..|b.transactions|] == b.transactions;
    return if usage != b.netUsage then Err(WrongNetUsage) else Ok(());
  }

  method VerifyHeader(parent: State, b: BlockData) returns (r: Result<()>)
    ensures r.Ok? <==> WellPlaced(parent, b)
  {
    r := VerifyCPUUsage(b);
    if r.Err? {
      return;
    }
    r := VerifyNetUsage(b);
    if r.Err? {
      return;
    }
    if b.height != parent.height + 1 {
      return Err(InvalidBlockHeight);
    }
    if b.timestamp <= parent.timestamp {
      return Err(InvalidTimestamp);
    }
    if (b.timestamp - parent.timestamp) % INTERVAL != 0 {
      return Err(InvalidBlockInterval);
    }
  }

  method Start(n: nat, rank: Ranking, parent: State, ts: nat) returns (r: Result<State>)
    requires n > 0
    ensures r == StartChild(n, rank, parent, ts)
    ensures r.Ok? ==> Starts(n, rank, parent, ts, r.value)
  {
    StartsFromParent(n, rank, parent, ts);
    r := InitChild(parent, ts);
    if r.Err? {
      return;
    }
    if NewDynasty(n, parent.timestamp, ts) {
      var dynasty := MakeDynasty(AddressesOf(parent.candidates, rank(parent.candidates)), n);
      var child := new WorkingBlock(r.value);
      child.TakeSeats(dynasty);
      r := Ok(child.state);
    }
  }

  method ExecuteAll(block: WorkingBlock, txs: seq<(Tx, Receipt)>) returns (r: Result<()>)
    requires !block.batching
    modifies block
    ensures !block.batching
    ensures match Replay(old(block.state), txs)
            case Ok(s) => r == Ok(()) && block.state == s
            case Err(e) => r == Err(e)
  {
    var i := 0;
    while i < |txs|
      invariant 0 <= i <= |txs| && !block.batching
      invariant Replay(old(block.state), txs) == Replay(block.state, txs[i..])
    {
      var (tx, expected) := txs[i];
      assert txs[i..][0] == txs[i] && txs[i..][1..] == txs[i + 1..];
      var receipt := block.Run(tx);
      if receipt.Err? {
        return Err(receipt.error);
      }
      if receipt.value != expected {
        return Err(WrongReceipt);
      }
      r := block.Accept(tx, expected);
      if r.Err? {
        return;
      }
      i := i + 1;
    }
    return Ok(());
  }

  /** Executes a block on its parent's state, step by step. */
  method CreateChild(n: nat, rank: Ranking, parent: State, b: BlockData) returns (r: Result<State>)
    requires n > 0
    ensures r == CheckExecution(n, rank, parent, b)
    ensures r.Ok? && WellPlaced(parent, b) ==> exists states :: Legal(n, rank, parent, b, states, r.value)
  {
    var s0 := Start(n, rank, parent, b.timestamp);
    if s0.Err? {
      return Err(s0.error);
    }
    var proposer := CheckProposer(n, s0.value, b.signer);
    if proposer.Err? {
      return Err(proposer.error);
    }
    var child := new WorkingBlock(s0.value);
    var done := ExecuteAll(child, b.transactions);
    if done.Err? {
      return Err(done.error);
    }
    var paid := child.Reward(b.coinbase, parent.supply);
    if paid.Err? {
      return Err(paid.error);
    }
    var same := CheckState(child.state, b);
    if same.Err? {
      return Err(same.error);
    }
    r := Ok(child.state);
    AcceptsIff(n, rank, parent, b, child.state);
  }

  /** What a node does with a received block: it reaches a state exactly if the block is legal and leads to it. */
  method ProcessBlock(n: nat, rank: Ranking, parent: State, b: BlockData) returns (r: Result<State>)
    requires n > 0
    ensures WellPlaced(parent, b) ==> r == CheckExecution(n, rank, parent, b)
    ensures !WellPlaced(parent, b) ==> r.Err?
    ensures r.Ok? ==> exists states :: Legal(n, rank, parent, b, states, r.value)
    ensures forall s, states :: Legal(n, rank, parent, b, states, s) ==> r == Ok(s)
  {
    forall s, states | Legal(n, rank, parent, b, states, s)
      ensures Accepts(n, rank, parent, b, s)
    {
      LegalIsAccepted(n, rank, parent, b, states, s);
    }
    var header := VerifyHeader(parent, b);
    if header.Err? {
      return Err(header.error);
    }
    r := CreateChild(n, rank, parent, b);
  }

  // --------------------------------------------------------------------------------------------
  // Making
  // --------------------------------------------------------------------------------------------

  method FillBlock(block: WorkingBlock, offered: seq<Tx>) returns (r: Result<seq<(Tx, Receipt)>>)
    requires !block.batching
    modifies block
    ensures !block.batching
    ensures match Fill(old(block.state), [], offered)
            case Ok(filled) => r == Ok(filled.1) && block.state == filled.0
            case Err(e) => r == Err(e)
  {
    var included: seq<(Tx, Receipt)> := [];
    var i := 0;
    while i < |offered|
      invariant 0 <= i <= |offered| && !block.batching
      invariant Fill(old(block.state), [], offered) == Fill(block.state, included, offered[i..])
    {
      var tx := offered[i];
      assert offered[i..][0] == tx && offered[i..][1..] == offered[i + 1..];
      i := i + 1;
      var from := GetAccount(block.state, tx.from);
      if from.Err? {
        return Err(from.error);
      }
      if from.value.nonce + 1 != tx.nonce {
        continue;
      }
      var receipt := block.Run(tx);
      if receipt.Err? {
        continue;
      }
      var accepted := block.Accept(tx, receipt.value);
      if accepted.Err? {
        return Err(accepted.error);
      }
      included := included + [(tx, receipt.value)];
    }
    return Ok(included);
  }

  method Make(s0: State, parentSupply: Amount, coinbase: Address, signer: Address, offered: seq<Tx>)
    returns (r: Result<(BlockData, State)>)
    ensures r == MintFrom(s0, parentSupply, coinbase, signer, offered)
  {
    var block := new WorkingBlock(s0);
    var txs := FillBlock(block, offered);
    if txs.Err? {
      return Err(txs.error);
    }
    var paid := block.Reward(coinbase, parentSupply);
    if paid.Err? {
      return Err(paid.error);
    }
    return Ok((Seal(block.state, coinbase, signer, txs.value), block.state));
  }

  /** Makes, seals and signs a block when it is the node's turn; other nodes accept what it makes. */
  method MintBlock(n: nat, rank: Ranking, proposers: map<Address, Address>, parent: State, now: nat, offered: seq<Tx>)
    returns (r: Result<(BlockData, State)>)
    requires n > 0
    ensures r == Mint(n, rank, proposers, parent, now, offered)
    ensures r.Ok? && parent.timestamp % INTERVAL == 0 ==> Accepts(n, rank, parent, r.value.0, r.value.1)
    ensures r.Ok? && parent.timestamp % INTERVAL == 0 ==>
            exists states :: Legal(n, rank, parent, r.value.0, states, r.value.1)
  {
    var deadline := CheckDeadline(parent.timestamp, now);
    if deadline.Err? {
      return Err(deadline.error);
    }
    var proposer := FindMintProposer(n, rank, parent, Unix(deadline.value));
    if proposer.Err? {
      return Err(proposer.error);
    }
    if proposer.value !in proposers {
      return Err(InvalidBlockProposer);
    }
    var start := Start(n, rank, parent, NextMintSlot(now));
    if start.Err? {
      return Err(start.error);
    }
    r := Make(start.value, parent.supply, proposers[proposer.value], proposer.value, offered);
    if r.Ok? && parent.timestamp % INTERVAL == 0 {
      MintedBlockIsAccepted(n, rank, proposers, parent, now, offered, r.value.0, r.value.1);
      AcceptsIff(n, rank, parent, r.value.0, r.value.1);
    }
  }
}
