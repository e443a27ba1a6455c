/** The pool of pending transactions: what it takes, what it drops and whose turn it is. */
module PendingPools {
  import opened Options
  import opened Sequences
  import opened Errors
  import opened Uint128
  import opened Words
  import opened Ledger
  import opened PendingTables
  import RoundRobins

  const MAX_PENDING_BY_ACCOUNT := 4096

  /** Ten minutes, in nanoseconds. */
  const ALLOW_REPLACE_PENDING_DURATION := 600_000_000_000

  datatype Price = Price(cpu: Amount, net: Amount)

  // --------------------------------------------------------------------------------------------
  // What the pool takes, told from the pending transactions alone
  // --------------------------------------------------------------------------------------------

  /** The first nonce of a sender is the next one; a later one follows without a gap, up to a limit. */
  ghost predicate NonceAcceptable(pending: Table, tx: Tx, accNonce: nat) {
    if !IsSender(pending, tx.from) then tx.nonce == accNonce + 1
    else
      && accNonce < tx.nonce <= accNonce + 4096
      && exists m: nat :: (tx.from, m) in pending && tx.nonce <= m + 1
  }

  function PointsFor(cpu: int, net: int, price: Price): Result<Amount> {
    var c :- Checked(price.cpu * cpu);
    var n :- Checked(price.net * net);
    Add(c, n)
  }

  function LessChange(usage: Amount, change: int): Result<Amount> {
    var modified := Checked(usage - change);
    if modified == Err(Underflow) then Ok(0) else modified
  }

  /** Whether the account that pays has the points, given what its pending transactions will need and bring. */
  function CheckPoints(t: Pending, cpu: int, net: int, change: int, acc: Account, payer: Account, price: Price)
    : Result<()>
  {
    var usage :- PointsFor(cpu, net, price);
    var modified :- LessChange(usage, change);
    if t.tx.payer.Some? then (if payer.points < modified then Err(PointNotEnough) else Ok(()))
    else CheckFromPoint(acc, t.tx.payload, modified)
  }

  /** The points of all that the payer would have to pay for, less what its own transactions bring. */
  ghost function PointVerdict(pending: Table, t: Pending, acc: Account, payer: Account, price: Price): Result<()> {
    var p := t.tx.PayerOrFrom();
    var paid := ByPayer(pending, p)[SlotOf(t) := t];
    CheckPoints(t, U64(Total(paid, Cpu)), U64(Total(paid, Net)), Total(BySender(pending, p), Points), acc, payer, price)
  }

  ghost function Verdict(pending: Table, t: Pending, acc: Account, payer: Account, price: Price, now: nat): Result<()> {
    var k := SlotOf(t);
    if k in pending && pending[k].tx.Hash() == t.tx.Hash() then Err(DuplicatedTransaction)
    else if k in pending && pending[k].incomeTime + ALLOW_REPLACE_PENDING_DURATION >= now then Err(FailedToReplacePendingTx)
    else if k !in pending && !NonceAcceptable(pending, t.tx, acc.nonce) then Err(NonceNotAcceptable)
    else PointVerdict(pending, t, acc, payer, price)
  }

  /** The points for all that the payer would have to pay for. */
  ghost function Due(pending: Table, t: Pending, price: Price): int {
    var paid := ByPayer(pending, t.tx.PayerOrFrom())[SlotOf(t) := t];
    price.cpu * (Total(paid, Cpu) % TWO_64) + price.net * (Total(paid, Net) % TWO_64)
  }

  /** The points that the payer needs, once its own pending transactions have brought and taken theirs. */
  ghost function Need(pending: Table, t: Pending, price: Price): nat {
    var left := Due(pending, t, price) - Total(BySender(pending, t.tx.PayerOrFrom()), Points);
    if left < 0 then 0 else left
  }

  /** The points that a sender without payer has, with those a stake brings and an unstaking takes away. */
  ghost function Available(acc: Account, p: Payload): nat {
    match p
    case Stake(amount) => acc.points + amount
    case Unstake(amount) => if acc.points < amount then 0 else acc.points - amount
    case _ => acc.points
  }

  ghost predicate Affordable(pending: Table, t: Pending, acc: Account, payer: Account, price: Price) {
    && Due(pending, t, price) < LIMIT && Need(pending, t, price) < LIMIT
    && if t.tx.payer.Some? then Need(pending, t, price) <= payer.points
       else Need(pending, t, price) <= Available(acc, t.tx.payload) < LIMIT
  }

  /**
   The pool takes a transaction exactly if it is new, takes the place of one that is more than ten
   minutes old or has an acceptable nonce, and can be paid for together with all that its payer pays for.
   */
  ghost predicate Takes(pending: Table, t: Pending, acc: Account, payer: Account, price: Price, now: nat) {
    var k := SlotOf(t);
    && (k in pending ==> pending[k].tx.payload != t.tx.payload && now > pending[k].incomeTime + 600_000_000_000)
    && (k !in pending ==> NonceAcceptable(pending, t.tx, acc.nonce))
    && Affordable(pending, t, acc, payer, price)
  }

  lemma DueIsUsage(cpu: nat, net: nat, price: Price)
    ensures PointsFor(cpu, net, price).Ok? <==> price.cpu * cpu + price.net * net < LIMIT
    ensures PointsFor(cpu, net, price).Ok? ==> PointsFor(cpu, net, price).value == price.cpu * cpu + price.net * net
  {
    assert price.cpu * cpu >= 0 && price.net * net >= 0;
  }

  lemma AffordableIff(pending: Table, t: Pending, acc: Account, payer: Account, price: Price)
    ensures PointVerdict(pending, t, acc, payer, price).Ok? <==> Affordable(pending, t, acc, payer, price)
  {
    var paid := ByPayer(pending, t.tx.PayerOrFrom())[SlotOf(t) := t];
    var cpu, net := U64(Total(paid, Cpu)), U64(Total(paid, Net));
    DueIsUsage(cpu, net, price);
    ChecksNeed(t, cpu, net, Total(BySender(pending, t.tx.PayerOrFrom()), Points), acc, payer, price);
  }

  lemma ChecksNeed(t: Pending, cpu: nat, net: nat, change: int, acc: Account, payer: Account, price: Price)
    ensures CheckPoints(t, cpu, net, change, acc, payer, price).Ok? <==>
            var due := price.cpu * cpu + price.net * net;
            var need := if due - change < 0 then 0 else due - change;
            && due < LIMIT && need < LIMIT
            && if t.tx.payer.Some? then need <= payer.points else need <= Available(acc, t.tx.payload) < LIMIT
  {
    DueIsUsage(cpu, net, price);
  }

  lemma TakesIff(pending: Table, t: Pending, acc: Account, payer: Account, price: Price, now: nat)
    requires WellKeyed(pending)
    ensures Verdict(pending, t, acc, payer, price, now).Ok? <==> Takes(pending, t, acc, payer, price, now)
  {
    AffordableIff(pending, t, acc, payer, price);
  }

  /** Without an account's transactions up to a nonce. */
  ghost function Pruned(pending: Table, addr: Address, limit: nat): Table {
    map k | k in pending && !(k.0 == addr && k.1 <= limit) :: pending[k]
  }

  /** The transaction that is up for an account: the required nonce's if one is set, else the first. */
  ghost predicate IsUp(pending: Table, required: map<Address, nat>, a: Address, t: Pending) {
    if a in required then (a, required[a]) in pending && pending[(a, required[a])] == t
    else
      && t.tx.from == a && SlotOf(t) in pending && pending[SlotOf(t)] == t
      && forall n: nat :: (a, n) in pending ==> t.tx.nonce <= n
  }

  ghost predicate HasNone(pending: Table, required: map<Address, nat>, a: Address) {
    a in required && (a, required[a]) !in pending
  }

  // --------------------------------------------------------------------------------------------
  // All tables together
  // --------------------------------------------------------------------------------------------

  /** All tables are indices of the pending transactions; some senders' entries may be left empty. */
  ghost predicate Indices(all: ByHash, from: Froms, payer: Payers, point: PointsOf, pending: Table, extra: set<Address>) {
    && WellKeyed(pending) && HashIndex(all, pending)
    && FromIndex(from, pending, extra) && PayerIndex(payer, pending) && PointIndex(point, pending, {})
  }

  lemma InsertKeepsIndices(all: ByHash, from: Froms, payer: Payers, point: PointsOf, pending: Table, t: Pending)
    requires Indices(all, from, payer, point, pending, {}) && SlotOf(t) !in pending && t.tx.nonce > 0
    ensures var a, p := t.tx.from, t.tx.PayerOrFrom();
            var af := if a in from then from[a] else NEW_FROM;
            var ap := if p in payer then payer[p] else NEW_PAYER;
            var apo := if a in point then point[a] else NEW_POINT;
            Indices(all[t.tx.Hash() := t], from[a := af.Set(t)], payer[p := ap.Set(t)], point[a := apo.Set(t)],
                    pending[SlotOf(t) := t], {})
  {
    HashInsert(all, pending, t);
    FromInsert(from, pending, t, {});
    PayerInsert(payer, pending, t);
    PointInsert(point, pending, t, {});
  }

  /** The payers' entries once the one of the payer q has lost a transaction in favour of another one. */
  function Repaid(payer: Payers, q: Address, t: Pending): Payers
    requires q in payer
  {
    var oldPayer, p := payer[q].Remove(SlotOf(t)), t.tx.PayerOrFrom();
    var left := if oldPayer.txs == map[] then payer - {q} else payer[q := oldPayer];
    var accPayer := if p == q then oldPayer else if p in payer then payer[p] else NEW_PAYER;
    left[p := accPayer.Set(t)]
  }

  lemma ExchangeKeepsIndices(all: ByHash, from: Froms, payer: Payers, point: PointsOf, pending: Table, t: Pending)
    requires Indices(all, from, payer, point, pending, {}) && SlotOf(t) in pending
    ensures var a, k := t.tx.from, SlotOf(t);
            var replaced := pending[k];
            var q := replaced.tx.PayerOrFrom();
            && a in from && a in point && q in payer
            && Indices((all - {replaced.tx.Hash()})[t.tx.Hash() := t], from[a := from[a].Remove(k.1).Set(t)],
                       Repaid(payer, q, t), point[a := point[a].Remove(k).Set(t)], pending[k := t], {})
  {
    var a, p, k := t.tx.from, t.tx.PayerOrFrom(), SlotOf(t);
    var rest, q := pending - {k}, pending[k].tx.PayerOrFrom();
    assert rest[k := t] == pending[k := t];
    HashDelete(all, pending, k);
    HashInsert(all - {pending[k].tx.Hash()}, rest, t);
    FromReplace(from, pending, t);
    PointDelete(point, pending, k);
    var point' := point[a := point[a].Remove(k)];
    PointInsert(point', rest, t, {a});
    assert point'[a := point'[a].Set(t)] == point[a := point[a].Remove(k).Set(t)];
    PayerDelete(payer, pending, k);
    var oldPayer := payer[q].Remove(k);
    PayerInsert(if oldPayer.txs == map[] then payer - {q} else payer[q := oldPayer], rest, t);
  }

  lemma RemoveFirstKeepsIndices(all: ByHash, from: Froms, payer: Payers, point: PointsOf, pending: Table, t: Pending)
    requires Indices(all, from, payer, point, pending, {t.tx.from})
    requires SlotOf(t) in pending && pending[SlotOf(t)] == t
    requires t.tx.from in from && forall n: nat :: n in from[t.tx.from].txs ==> t.tx.nonce <= n
    ensures var a, p, k := t.tx.from, t.tx.PayerOrFrom(), SlotOf(t);
            && p in payer && a in point
            && var accPayer, accPoint := payer[p].Remove(k), point[a].Remove(k);
               Indices(all - {t.tx.Hash()}, from[a := from[a].Remove(k.1)],
                       if accPayer.txs == map[] then payer - {p} else payer[p := accPayer],
                       if accPoint.txs == map[] then point - {a} else point[a := accPoint], pending - {k}, {a})
  {
    var a, k := t.tx.from, SlotOf(t);
    OnlyOne(from, pending, t);
    FromDelete(from, pending, k, {a});
    PayerDelete(payer, pending, k);
    PointDelete(point, pending, k);
    var point' := point[a := point[a].Remove(k)];
    PointDropEmpty(point', pending - {k}, a);
    assert point' - {a} == point - {a};
    HashDelete(all, pending, k);
  }

  /** If the first of a sender's transactions is also the last, it is the only one. */
  lemma OnlyOne(from: Froms, pending: Table, t: Pending)
    requires FromIndex(from, pending, {t.tx.from}) && SlotOf(t) in pending
    requires t.tx.from in from && forall n: nat :: n in from[t.tx.from].txs ==> t.tx.nonce <= n
    ensures t.tx.nonce != from[t.tx.from].maxNonce || from[t.tx.from].txs.Keys == {t.tx.nonce}
  {
    assert FromEntry(from, pending, {t.tx.from}, t.tx.from);
    assert (t.tx.from, t.tx.nonce) in pending;
  }

  /** The selector has exactly the senders. */
  ghost predicate InLine(line: RoundRobins.Lists<Address>, pending: Table) {
    forall a: Address :: a in line.Keys() <==> IsSender(pending, a)
  }

  /** Serving, excluding one in line and resetting change nobody's being in line. */
  lemma StillInLine(line: RoundRobins.Lists<Address>, op: RoundRobins.Op<Address>, pending: Table)
    requires line.Valid() && InLine(line, pending)
    requires op.Next? || op.Reset? || (op.Exclude? && op.key in line.Keys())
    ensures InLine(RoundRobins.Step(line, op), pending)
  {
    RoundRobins.StepKeepsValid(line, op);
  }

  lemma InLineAfterInsert(line: RoundRobins.Lists<Address>, pending: Table, t: Pending)
    requires line.Valid() && InLine(line, pending)
    ensures InLine(RoundRobins.Step(line, RoundRobins.Include(t.tx.from)), pending[SlotOf(t) := t])
  {
    RoundRobins.StepKeepsValid(line, RoundRobins.Include(t.tx.from));
    forall a: Address
      ensures a in RoundRobins.Step(line, RoundRobins.Include(t.tx.from)).Keys() <==> IsSender(pending[SlotOf(t) := t], a)
    {
      SenderAfterInsert(pending, t, a);
    }
  }

  lemma InLineAfterExchange(line: RoundRobins.Lists<Address>, pending: Table, t: Pending)
    requires InLine(line, pending) && SlotOf(t) in pending
    ensures InLine(line, pending[SlotOf(t) := t])
  {
    var pending' := pending[SlotOf(t) := t];
    forall a: Address
      ensures IsSender(pending', a) <==> IsSender(pending, a)
    {
      SenderAfterInsert(pending, t, a);
      assert IsSender(pending, t.tx.from) by { assert (t.tx.from, t.tx.nonce) in pending; }
    }
  }

  lemma InLineAfterPrune(line: RoundRobins.Lists<Address>, pending: Table, addr: Address, limit: nat)
    requires line.Valid() && InLine(line, pending) && IsSender(pending, addr)
    ensures var pending' := Pruned(pending, addr, limit);
            InLine(if IsSender(pending', addr) then line else RoundRobins.Step(line, RoundRobins.Remove(addr)), pending')
  {
    var pending' := Pruned(pending, addr, limit);
    RoundRobins.StepKeepsValid(line, RoundRobins.Remove(addr));
    forall a: Address | a != addr
      ensures IsSender(pending', a) <==> IsSender(pending, a)
    {
      if IsSender(pending, a) {
        var n: nat :| (a, n) in pending;
        assert (a, n) in pending';
      }
    }
  }

  // --------------------------------------------------------------------------------------------
  // The pool
  // --------------------------------------------------------------------------------------------

  class PendingPool {
    var all: ByHash
    var from: Froms
    var payer: Payers
    var point: PointsOf
    var nonceCache: map<Address, nat>
    const selector: RoundRobins.RoundRobin<Address>
    ghost var pending: Table

    ghost predicate Indexed()
      reads this
    {
      Indices(all, from, payer, point, pending, {})
    }

    /** All tables are about the pending transactions, and the selector has exactly the senders. */
    ghost predicate Valid()
      reads this, selector
    {
      Indexed() && selector.Valid() && InLine(selector.Contents(), pending)
    }

    constructor ()
      ensures Valid() && fresh(selector) && pending == map[] && nonceCache == map[]
    {
      selector := new RoundRobins.RoundRobin<Address>();
      all, from, payer, point, nonceCache, pending := map[], map[], map[], map[], map[], map[];
    }

    method PushOrReplace(t: Pending, acc: Account, payerAcc: Account, price: Price, now: nat) returns (r: Result<()>)
      requires Valid()
      modifies this, selector
      ensures Valid() && nonceCache == old(nonceCache)
      ensures r == Verdict(old(pending), t, acc, payerAcc, price, now)
      ensures r.Ok? <==> Takes(old(pending), t, acc, payerAcc, price, now)
      ensures pending == if r.Ok? then old(pending)[SlotOf(t) := t] else old(pending)
      ensures selector.Contents() == if r.Ok? && SlotOf(t) !in old(pending)
                then RoundRobins.Step(old(selector.Contents()), RoundRobins.Include(t.tx.from))
                else old(selector.Contents())
    {
      TakesIff(pending, t, acc, payerAcc, price, now);
      if t.tx.Hash() in all {
        return Err(DuplicatedTransaction);
      }
      SenderEntry(t.tx.from);
      if t.tx.from in from && t.tx.nonce in from[t.tx.from].txs {
        r := Replace(t, acc, payerAcc, price, now);
      } else {
        r := Push(t, acc, payerAcc, price);
      }
    }

    lemma SenderEntry(a: Address)
      requires Indexed()
      ensures FromEntry(from, pending, {}, a) && PointEntry(point, pending, {}, a) && PayerEntry(payer, pending, a)
    {
    }

    method AcceptableNonce(tx: Tx, accNonce: nat) returns (ok: bool)
      requires Indexed()
      ensures ok == NonceAcceptable(pending, tx, accNonce)
    {
      SenderEntry(tx.from);
      var af := if tx.from in from then from[tx.from] else NEW_FROM;
      if |af.txs| == 0 {
        assert !IsSender(pending, tx.from);
        return accNonce + 1 == tx.nonce;
      }
      assert (tx.from, af.maxNonce) in pending;
      var upper := accNonce + MAX_PENDING_BY_ACCOUNT;
      if af.maxNonce + 1 < upper {
        upper := af.maxNonce + 1;
      }
      return accNonce < tx.nonce <= upper;
    }

    /** The check of the points, from the counters of the payer's entries. */
    method CheckPayer(t: Pending, acc: Account, payerAcc: Account, price: Price) returns (r: Result<()>)
      requires Indexed()
      ensures r == PointVerdict(pending, t, acc, payerAcc, price)
      ensures r.Ok? <==> Affordable(pending, t, acc, payerAcc, price)
    {
      AffordableIff(pending, t, acc, payerAcc, price);
      var p := t.tx.PayerOrFrom();
      SenderEntry(p);
      var ap := if p in payer then payer[p] else NEW_PAYER;
      var change := if p in point then point[p].change else NEW_POINT.change;
      NoneOfPayer(pending, p);
      NoneOfSender(pending, p);
      EmptyTotal(Cpu);
      EmptyTotal(Net);
      EmptyTotal(Points);
      PayerSet(ap, ByPayer(pending, p), t);
      var with := ap.Set(t);
      return CheckPoints(t, with.cpu, with.net, change, acc, payerAcc, price);
    }

    method Push(t: Pending, acc: Account, payerAcc: Account, price: Price) returns (r: Result<()>)
      requires Valid() && SlotOf(t) !in pending
      modifies this, selector
      ensures Valid() && nonceCache == old(nonceCache)
      ensures r == if !NonceAcceptable(old(pending), t.tx, acc.nonce) then Err(NonceNotAcceptable)
                   else PointVerdict(old(pending), t, acc, payerAcc, price)
      ensures pending == if r.Ok? then old(pending)[SlotOf(t) := t] else old(pending)
      ensures selector.Contents() == if r.Ok?
                then RoundRobins.Step(old(selector.Contents()), RoundRobins.Include(t.tx.from))
                else old(selector.Contents())
    {
      var acceptable := AcceptableNonce(t.tx, acc.nonce);
      if !acceptable {
        return Err(NonceNotAcceptable);
      }
      r := CheckPayer(t, acc, payerAcc, price);
      if r.Err? {
        return;
      }
      InLineAfterInsert(selector.Contents(), pending, t);
      Insert(t);
      selector.Include(t.tx.from);
    }

    /** Enters a transaction in every table. */
    method Insert(t: Pending)
      requires Indexed() && SlotOf(t) !in pending && t.tx.nonce > 0
      modifies this
      ensures Indexed() && pending == old(pending)[SlotOf(t) := t] && nonceCache == old(nonceCache)
    {
      InsertKeepsIndices(all, from, payer, point, pending, t);
      var a, p := t.tx.from, t.tx.PayerOrFrom();
      var af := if a in from then from[a] else NEW_FROM;
      var ap := if p in payer then payer[p] else NEW_PAYER;
      var apo := if a in point then point[a] else NEW_POINT;
      all, from, payer, point, pending :=
        all[t.tx.Hash() := t], from[a := af.Set(t)], payer[p := ap.Set(t)], point[a := apo.Set(t)], pending[SlotOf(t) := t];
    }

    method Replace(t: Pending, acc: Account, payerAcc: Account, price: Price, now: nat) returns (r: Result<()>)
      requires Valid() && SlotOf(t) in pending
      modifies this
      ensures Valid() && nonceCache == old(nonceCache)
      ensures r == if old(pending)[SlotOf(t)].incomeTime + ALLOW_REPLACE_PENDING_DURATION >= now
                   then Err(FailedToReplacePendingTx)
                   else PointVerdict(old(pending), t, acc, payerAcc, price)
      ensures pending == if r.Ok? then old(pending)[SlotOf(t) := t] else old(pending)
    {
      SenderEntry(t.tx.from);
      assert (t.tx.from, t.tx.nonce) in pending;
      var replaced := from[t.tx.from].txs[t.tx.nonce];
      if replaced.incomeTime + ALLOW_REPLACE_PENDING_DURATION >= now {
        return Err(FailedToReplacePendingTx);
      }
      r := CheckPayer(t, acc, payerAcc, price);
      if r.Err? {
        return;
      }
      InLineAfterExchange(selector.Contents(), pending, t);
      Exchange(replaced, t);
    }

    /** Puts a transaction in the place of another one of the same sender and nonce. */
    method Exchange(replaced: Pending, t: Pending)
      requires Indexed() && SlotOf(t) in pending && pending[SlotOf(t)] == replaced
      modifies this
      ensures Indexed() && pending == old(pending)[SlotOf(t) := t] && nonceCache == old(nonceCache)
    {
      all, from, payer, point := Exchanged(all, from, payer, point, pending, replaced, t);
      pending := pending[SlotOf(t) := t];
    }

    /** The tables with a transaction in the place of another one. */
    static method Exchanged(all: ByHash, from: Froms, payer: Payers, point: PointsOf, ghost pending: Table,
                            replaced: Pending, t: Pending)
      returns (all': ByHash, from': Froms, payer': Payers, point': PointsOf)
      requires Indices(all, from, payer, point, pending, {}) && SlotOf(t) in pending && pending[SlotOf(t)] == replaced
      ensures Indices(all', from', payer', point', pending[SlotOf(t) := t], {})
    {
      ExchangeKeepsIndices(all, from, payer, point, pending, t);
      var a, p, k := t.tx.from, t.tx.PayerOrFrom(), SlotOf(t);
      var q := replaced.tx.PayerOrFrom();
      var accPayer := if p in payer then payer[p] else NEW_PAYER;

      var oldPayer := payer[q].Remove(k);
      var left := if oldPayer.txs == map[] then payer - {q} else payer[q := oldPayer];
      if p == q {
        // The entry of the new payer is the one just changed.
        accPayer := oldPayer;
      }
      all' := (all - {replaced.tx.Hash()})[t.tx.Hash() := t];
      from' := from[a := from[a].Remove(k.1).Set(t)];
      payer' := left[p := accPayer.Set(t)];
      point' := point[a := point[a].Remove(k).Set(t)];
    }

    // ------------------------------------------------------------------------------------------
    // Pruning
    // ------------------------------------------------------------------------------------------

    /** Removes exactly the account's transactions up to the given nonce. */
    method Prune(addr: Address, limit: nat)
      requires Valid()
      modifies this, selector
      ensures Valid() && nonceCache == old(nonceCache)
      ensures pending == Pruned(old(pending), addr, limit)
      ensures selector.Contents() == if old(IsSender(pending, addr)) && !IsSender(pending, addr)
                then RoundRobins.Step(old(selector.Contents()), RoundRobins.Remove(addr))
                else old(selector.Contents())
    {
      SenderEntry(addr);
      if addr !in from {
        assert forall n: nat :: (addr, n) !in pending;
        NothingToPrune(pending, addr, limit);
        return;
      }
      PruneSender(addr, limit);
    }

    method PruneSender(addr: Address, limit: nat)
      requires Valid() && addr in from && IsSender(pending, addr)
      modifies this, selector
      ensures Valid() && nonceCache == old(nonceCache)
      ensures pending == Pruned(old(pending), addr, limit)
      ensures selector.Contents() == if IsSender(pending, addr) then old(selector.Contents())
                else RoundRobins.Step(old(selector.Contents()), RoundRobins.Remove(addr))
    {
      InLineAfterPrune(selector.Contents(), pending, addr, limit);
      var empty := RemoveUpTo(addr, limit);
      if empty {
        from := from - {addr};
        selector.Remove(addr);
      }
    }

    method RemoveUpTo(addr: Address, limit: nat) returns (empty: bool)
      requires Indexed() && addr in from
      modifies this
      ensures nonceCache == old(nonceCache) && pending == Pruned(old(pending), addr, limit)
      ensures addr in from && Indices(all, if empty then from - {addr} else from, payer, point, pending, {})
      ensures empty <==> !IsSender(pending, addr)
    {
      ghost var before := pending;
      LooseEntry(from, pending, addr);
      while true
        invariant Indices(all, from, payer, point, pending, {addr}) && nonceCache == old(nonceCache)
        invariant Pruned(pending, addr, limit) == Pruned(before, addr, limit)
        decreases |pending|
      {
        assert FromEntry(from, pending, {addr}, addr);
        var first := PeekFirst(from[addr], pending, addr);
        if first.None? || first.value.tx.nonce > limit {
          break;
        }
        PrunedAfterDelete(pending, SlotOf(first.value), limit);
        RemoveFirst(addr, first.value);
      }
      assert FromEntry(from, pending, {addr}, addr);
      NothingToPrune(pending, addr, limit);
      FromDropEmpty(from, pending, addr);
      empty := from[addr].txs == map[];
      assert FromEntry(if empty then from - {addr} else from, pending, {}, addr);
    }

    /** Removes the transaction of an account with the smallest nonce from every table. */
    method RemoveFirst(addr: Address, t: Pending)
      requires Indices(all, from, payer, point, pending, {addr}) && addr in from
      requires t.tx.from == addr && SlotOf(t) in pending && pending[SlotOf(t)] == t
      requires forall n: nat :: n in from[addr].txs ==> t.tx.nonce <= n
      modifies this
      ensures Indices(all, from, payer, point, pending, {addr})
      ensures pending == old(pending) - {SlotOf(t)} && nonceCache == old(nonceCache)
    {
      RemoveFirstKeepsIndices(all, from, payer, point, pending, t);
      var k, p := SlotOf(t), t.tx.PayerOrFrom();
      from := from[addr := from[addr].Remove(t.tx.nonce)];
      var accPayer := payer[p].Remove(k);
      payer := if accPayer.txs == map[] then payer - {p} else payer[p := accPayer];
      var accPoint := point[addr].Remove(k);
      point := if accPoint.txs == map[] then point - {addr} else point[addr := accPoint];
      all := all - {t.tx.Hash()};
      pending := pending - {k};
    }

    // ------------------------------------------------------------------------------------------
    // Selecting
    // ------------------------------------------------------------------------------------------

    /** The greatest nonce that a new transaction of an account may have. */
    method NonceUpperLimit(addr: Address, accNonce: nat) returns (limit: nat)
      requires Indexed()
      ensures forall tx: Tx :: tx.from == addr && tx.nonce > accNonce ==>
                (NonceAcceptable(pending, tx, accNonce) <==> tx.nonce <= limit)
    {
      SenderEntry(addr);
      if addr !in from {
        return accNonce + 1;
      }
      EntryIsNotEmpty(from, pending, addr);
      assert (addr, from[addr].maxNonce) in pending;
      limit := accNonce + MAX_PENDING_BY_ACCOUNT;
      if from[addr].maxNonce + 1 < limit {
        limit := from[addr].maxNonce + 1;
      }
    }

    /**
     The next transaction in round-robin order over the senders.  The j senders first in line whose
     required transaction is not there are excluded; the one after them, if any, is served.
     */
    method Next() returns (r: Option<Pending>, ghost j: nat)
      requires Valid()
      modifies selector
      ensures Valid()
      ensures var line := old(selector.incl);
              && j <= |line|
              && (forall i :: 0 <= i < j ==> HasNone(pending, nonceCache, line[i]))
              && (r.None? ==> j == |line|)
              && (r.Some? ==> j < |line| && IsUp(pending, nonceCache, line[j], r.value))
              && selector.excl == old(selector.excl) + line[..j]
              && selector.incl == if r.None? then [] else line[j + 1..] + [line[j]]
    {
      ghost var line, excluded := selector.incl, selector.excl;
      j := 0;
      while selector.HasNext()
        invariant Valid() && j <= |line|
        invariant forall i :: 0 <= i < j ==> HasNone(pending, nonceCache, line[i])
        invariant selector.incl == line[j..] && selector.excl == excluded + line[..j]
        decreases |selector.incl|
      {
        r := TryFirst();
        if r.Some? {
          return;
        }
        j := j + 1;
      }
      return None, j;
    }

    /** Serves the first in line, or excludes it. */
    method TryFirst() returns (r: Option<Pending>)
      requires Valid() && selector.HasNext()
      modifies selector
      ensures Valid()
      ensures var line := old(selector.incl);
              && (r.Some? ==> IsUp(pending, nonceCache, line[0], r.value))
              && (r.None? ==> HasNone(pending, nonceCache, line[0]))
              && selector.incl == (if r.None? then line[1..] else line[1..] + [line[0]])
              && selector.excl == (if r.None? then old(selector.excl) + [line[0]] else old(selector.excl))
    {
      ghost var before := selector.Contents();
      StillInLine(before, RoundRobins.Op.Next, pending);
      var next := selector.Next();
      var addr := next.value;
      r := Up(addr, before);
      if r.None? {
        StillInLine(selector.Contents(), RoundRobins.Exclude(addr), pending);
        LastGoes(before.incl[1..], addr);
        selector.Exclude(addr);
      }
    }

    /** The transaction that is up for a sender. */
    method Up(addr: Address, ghost line: RoundRobins.Lists<Address>) returns (r: Option<Pending>)
      requires Indexed() && InLine(line, pending) && addr in line.Keys()
      ensures r.Some? ==> IsUp(pending, nonceCache, addr, r.value)
      ensures r.None? ==> HasNone(pending, nonceCache, addr)
    {
      SenderEntry(addr);
      EntryIsNotEmpty(from, pending, addr);
      if addr !in nonceCache {
        r := PeekFirst(from[addr], pending, addr);
      } else if nonceCache[addr] in from[addr].txs {
        r := Some(from[addr].txs[nonceCache[addr]]);
      } else {
        r := None;
      }
    }

    method SetRequiredNonce(addr: Address, nonce: nat)
      requires Valid()
      modifies this
      ensures Valid() && pending == old(pending) && nonceCache == old(nonceCache)[addr := nonce]
    {
      nonceCache := nonceCache[addr := nonce];
    }

    method ResetSelector()
      requires Valid()
      modifies this, selector
      ensures Valid() && pending == old(pending) && nonceCache == map[]
      ensures selector.incl == old(selector.incl + selector.excl) && selector.excl == []
    {
      nonceCache := map[];
      StillInLine(selector.Contents(), RoundRobins.Reset, pending);
      selector.Reset();
    }
  }

  lemma LooseEntry(from: Froms, pending: Table, a: Address)
    requires FromIndex(from, pending, {}) && a in from
    ensures FromIndex(from, pending, {a})
  {
    var extra := {a};
    forall b: Address
      ensures FromEntry(from, pending, extra, b)
    {
      assert FromEntry(from, pending, {}, b);
    }
  }

  lemma EntryIsNotEmpty(from: Froms, pending: Table, a: Address)
    requires FromIndex(from, pending, {}) && a in from
    ensures exists n: nat :: n in from[a].txs
  {
    assert FromEntry(from, pending, {}, a);
    var n: nat :| (a, n) in pending;
    assert n in from[a].txs;
  }

  lemma NothingToPrune(pending: Table, addr: Address, limit: nat)
    requires forall n: nat :: (addr, n) in pending ==> n > limit
    ensures Pruned(pending, addr, limit) == pending
  {
    forall k | k in pending
      ensures !(k.0 == addr && k.1 <= limit)
    {
      assert (k.0, k.1) in pending;
    }
  }

  lemma PrunedAfterDelete(pending: Table, k: Slot, limit: nat)
    requires k.1 <= limit
    ensures Pruned(pending - {k}, k.0, limit) == Pruned(pending, k.0, limit)
  {
  }

  lemma LastGoes(list: seq<Address>, k: Address)
    requires Distinct(list + [k])
    ensures RoundRobins.Without(list + [k], k) == list
  {
    RoundRobins.WithoutOne(list + [k], |list|);
  }
}
