/** Which transactions run, what they cost, and what is written when they are charged. */
module Receipts {
  import opened Options
  import opened Uint128
  import opened Ledger
  import opened Fees

  ghost predicate AtGenesis(p: Payload) {
    p.Genesis? || p.GenesisDistribution?
  }

  ghost predicate AboutAlias(p: Payload) {
    p.RegisterAlias? || p.DeregisterAlias?
  }

  /** The bandwidth of a transaction in CPU and in bytes, and its price in points. */
  ghost function Cpu(tx: Tx): nat {
    if AtGenesis(tx.payload) then 0 else if AboutAlias(tx.payload) then 1500 else 1000
  }

  ghost function Bytes(tx: Tx): nat {
    if AtGenesis(tx.payload) then 0 else tx.size
  }

  ghost function Price(s: State, tx: Tx): nat {
    s.cpuPrice * Cpu(tx) + s.netPrice * Bytes(tx)
  }

  /** The points that a sender who pays for itself may spend: a stake brings some, an unstaking takes some. */
  ghost function Spendable(from: Account, p: Payload): nat {
    match p
    case Stake(amount) => from.points + amount
    case Unstake(amount) => if amount > from.points then 0 else from.points - amount
    case _ => from.points
  }

  ghost predicate CanPay(s: State, tx: Tx, from: Account) {
    if tx.payer.Some?
    then GetAccount(s, tx.payer.value).Ok? && GetAccount(s, tx.payer.value).value.points >= Price(s, tx)
    else Price(s, tx) <= Spendable(from, tx.payload) < LIMIT
  }

  /**
   A transaction runs exactly if it moves or stakes something where it has to, has the next nonce of
   its sender, fits into the block, and its price is an amount that somebody can pay.
   */
  lemma RunsIff(s: State, tx: Tx)
    ensures ExecuteTransaction(s, tx).Ok? <==>
            && (tx.payload.Transfer? ==> tx.payload.value > 0) && (tx.payload.Stake? ==> tx.payload.amount > 0)
            && GetAccount(s, tx.from).Ok? && tx.nonce == GetAccount(s, tx.from).value.nonce + 1
            && s.cpuUsage + Cpu(tx) <= 3_000_000 && s.netUsage + Bytes(tx) <= 3_000_000
            && Price(s, tx) < LIMIT && CanPay(s, tx, GetAccount(s, tx.from).value)
  {
    CostsAreBandwidth(s, tx);
  }

  lemma CostsAreBandwidth(s: State, tx: Tx)
    ensures CpuCost(tx.payload) == Cpu(tx) && NetCost(tx) == Bytes(tx)
    ensures PointUsage(s, tx).Ok? <==> Price(s, tx) < LIMIT
    ensures PointUsage(s, tx).Ok? ==> PointUsage(s, tx).value == Price(s, tx)
  {
    assert s.cpuPrice * Cpu(tx) >= 0 && s.netPrice * Bytes(tx) >= 0;
  }

  /** The receipt of a transaction that ran, which has the state of its execution or the one before. */
  lemma ReceiptTells(s: State, tx: Tx, s1: State, r: Receipt)
    requires ExecuteTransaction(s, tx) == Ok((s1, r))
    ensures r.cpuUsage == Cpu(tx) && r.netUsage == Bytes(tx)
    ensures r.points == s.cpuPrice * r.cpuUsage + s.netPrice * r.netUsage
    ensures r.timestamp == s.timestamp && r.height == s.height
    ensures match Execute(s, tx)
            case Ok(s') => r.executed && r.error == None && s1 == s'
            case Err(e) => !r.executed && r.error == Some(e) && s1 == s
  {
    CostsAreBandwidth(s, tx);
  }

  /** A charge writes the sender and the payer, and takes nothing but the fee. */
  ghost predicate Charged(s: State, tx: Tx, fee: nat, accounts: Accounts) {
    var from, payer := tx.from, tx.PayerOrFrom();
    && GetAccount(s, from).Ok? && GetAccount(s, payer).Ok?
    && accounts.Keys == s.accounts.Keys + {from, payer}
    && (forall a :: a in s.accounts && a != from && a != payer ==> accounts[a] == s.accounts[a])
    && var sender, paid := GetAccount(s, from).value, GetAccount(s, payer).value;
       && paid.points >= fee
       && (payer != from ==>
             && accounts[from] == sender.(nonce := sender.nonce + 1)
             && accounts[payer] == paid.(points := paid.points - fee))
       && (payer == from ==>
             accounts[from] == sender.(nonce := if tx.payer.None? then sender.nonce + 1 else sender.nonce,
                                       points := sender.points - fee))
  }

  /** Accepting a transaction charges it, records it under its hash with its receipt and adds up the usage. */
  lemma AcceptIff(s: State, tx: Tx, r: Receipt, s2: State)
    ensures AcceptTransaction(s, tx, r) == Ok(s2) <==>
            && Charged(s, tx, r.points, s2.accounts)
            && s2.txs == s.txs[TxHash(tx.from, tx.nonce, tx.payload) := (tx, r)]
            && s2.cpuUsage == s.cpuUsage + r.cpuUsage && s2.netUsage == s.netUsage + r.netUsage
            && s2 == s.(accounts := s2.accounts, txs := s2.txs, cpuUsage := s2.cpuUsage, netUsage := s2.netUsage)
  {
    ChargeIff(s, tx, r.points, s2.accounts);
  }

  lemma ChargeIff(s: State, tx: Tx, fee: Amount, accounts: Accounts)
    ensures Charge(s, tx, fee) == Ok(accounts) <==> Charged(s, tx, fee, accounts)
  {
    if Charge(s, tx, fee).Ok? {
      ChargeCharges(s, tx, fee, Charge(s, tx, fee).value);
    }
    if Charged(s, tx, fee, accounts) {
      OneCharge(s, tx, fee, accounts, Charge(s, tx, fee).value);
    }
  }

  lemma ChargeCharges(s: State, tx: Tx, fee: Amount, accounts: Accounts)
    requires Charge(s, tx, fee) == Ok(accounts)
    ensures Charged(s, tx, fee, accounts)
  {
  }

  lemma OneCharge(s: State, tx: Tx, fee: nat, accounts: Accounts, again: Accounts)
    requires Charged(s, tx, fee, accounts) && Charged(s, tx, fee, again)
    ensures accounts == again
  {
    assert forall a :: a in accounts ==> accounts[a] == again[a];
  }

  /**
   End to end: whoever pays for a transaction has as many points less as CPU and bytes cost at the
   prices of the block, counted from what the payload has made of the points.
   */
  lemma FeeIsTaken(s: State, tx: Tx, s2: State, r: Receipt)
    requires ApplyTransaction(s, tx) == Ok((s2, r))
    ensures var payer := tx.PayerOrFrom();
            && GetAccount(s, payer).Ok? && payer in s2.accounts
            && var acc := GetAccount(s, payer).value;
               s2.accounts[payer].points + s.cpuPrice * Cpu(tx) + s.netPrice * Bytes(tx) ==
               if payer == tx.from && r.executed then PointsAfter(acc, tx.payload) else acc.points
  {
    var s1 := ExecuteTransaction(s, tx).value.0;
    ReceiptTells(s, tx, s1, r);
    AcceptIff(s1, tx, r, s2);
    RunsIff(s, tx);
    if r.executed {
      ExecutedPoints(s, tx, tx.PayerOrFrom());
    }
  }
}
