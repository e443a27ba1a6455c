/**
 The tables of the pending transaction pool: by hash, by sender, by payer and by whose points change.
 Each is an index of one and the same table of pending transactions by sender and nonce.
 */
module PendingTables {
  import opened Options
  import opened Sums
  import opened Words
  import opened Ledger

  type Slot = (Address, nat)

  datatype Pending = Pending(tx: Tx, incomeTime: nat)

  type Table = map<Slot, Pending>

  function SlotOf(t: Pending): Slot {
    (t.tx.from, t.tx.nonce)
  }

  /** The signed change of points that executing a transaction brings. */
  function Points(t: Pending): int {
    var (positive, abs) := PointChange(t.tx.payload);
    if positive then abs else 0 - abs
  }

  // --------------------------------------------------------------------------------------------
  // Sums over a table
  // --------------------------------------------------------------------------------------------

  ghost function Costs(txs: Table, cost: Pending -> int): map<Slot, int> {
    map k | k in txs :: cost(txs[k])
  }

  ghost function Total(txs: Table, cost: Pending -> int): int {
    Sum(Costs(txs, cost))
  }

  function Cpu(t: Pending): int {
    CpuCost(t.tx.payload)
  }

  function Net(t: Pending): int {
    NetCost(t.tx)
  }

  /** What a pending transaction is counted with. */
  lemma CountedWith(t: Pending)
    ensures t.tx.payload.Stake? ==> Points(t) == t.tx.payload.amount
    ensures t.tx.payload.Unstake? ==> Points(t) + t.tx.payload.amount == 0
    ensures !t.tx.payload.Stake? && !t.tx.payload.Unstake? ==> Points(t) == 0
    ensures Cpu(t) == match t.tx.payload
                      case Genesis => 0 case GenesisDistribution(_, _) => 0
                      case RegisterAlias(_, _) => 1500 case DeregisterAlias => 1500 case _ => 1000
    ensures Net(t) == if t.tx.payload.Genesis? || t.tx.payload.GenesisDistribution? then 0 else t.tx.size
  {
  }

  lemma TotalAfterSet(txs: Table, k: Slot, t: Pending, cost: Pending -> int)
    ensures Total(txs[k := t], cost) == Total(txs, cost) - (if k in txs then cost(txs[k]) else 0) + cost(t)
  {
    SumPut(Costs(txs, cost), k, cost(t));
    assert Costs(txs[k := t], cost) == Costs(txs, cost)[k := cost(t)];
  }

  lemma TotalAfterRemove(txs: Table, k: Slot, cost: Pending -> int)
    requires k in txs
    ensures Total(txs - {k}, cost) == Total(txs, cost) - cost(txs[k])
  {
    SumRemove(Costs(txs, cost), k);
    assert Costs(txs - {k}, cost) == Costs(txs, cost) - {k};
  }

  lemma EmptyTotal(cost: Pending -> int)
    ensures Total(map[], cost) == 0
  {
    assert Costs(map[], cost) == map[];
  }

  // --------------------------------------------------------------------------------------------
  // The pending transactions of a sender and of a payer
  // --------------------------------------------------------------------------------------------

  ghost function BySender(pending: Table, a: Address): Table {
    map k | k in pending && k.0 == a :: pending[k]
  }

  ghost function ByPayer(pending: Table, p: Address): Table {
    map k | k in pending && pending[k].tx.PayerOrFrom() == p :: pending[k]
  }

  /** Entries are under their own sender and nonce, and nonces start from one. */
  ghost predicate WellKeyed(pending: Table) {
    forall k :: k in pending ==> k == SlotOf(pending[k]) && k.1 > 0
  }

  // --------------------------------------------------------------------------------------------
  // By sender
  // --------------------------------------------------------------------------------------------

  datatype AccountFrom = AccountFrom(minNonce: nat, maxNonce: nat, txs: map<nat, Pending>) {
    function Set(t: Pending): AccountFrom {
      var n := t.tx.nonce;
      var min := if txs == map[] || minNonce > n then n else minNonce;
      var max := if txs == map[] || maxNonce < n then n else maxNonce;
      AccountFrom(min, max, txs[n := t])
    }

    function Remove(n: nat): AccountFrom {
      if n !in txs then this
      else AccountFrom(if minNonce == n then minNonce + 1 else minNonce,
                       if maxNonce == n && n > 0 then maxNonce - 1 else maxNonce,
                       txs - {n})
    }
  }

  const NEW_FROM := AccountFrom(0, 0, map[])

  /** The account's transactions are the sender's pending ones, all between the bounds. */
  ghost predicate FromOk(af: AccountFrom, pending: Table, a: Address) {
    && (forall n: nat :: n in af.txs <==> (a, n) in pending)
    && (forall n: nat :: n in af.txs ==> af.txs[n] == pending[(a, n)] && af.minNonce <= n <= af.maxNonce)
  }

  /** The greatest nonce is that of a transaction. */
  ghost predicate MaxIsThere(af: AccountFrom) {
    af.txs != map[] ==> af.maxNonce in af.txs
  }

  lemma FromSet(af: AccountFrom, pending: Table, t: Pending)
    requires FromOk(af, pending, t.tx.from)
    ensures FromOk(af.Set(t), pending[SlotOf(t) := t], t.tx.from)
    ensures MaxIsThere(af) ==> MaxIsThere(af.Set(t))
  {
  }

  lemma FromRemove(af: AccountFrom, pending: Table, k: Slot)
    requires FromOk(af, pending, k.0) && k in pending && k.1 > 0
    ensures FromOk(af.Remove(k.1), pending - {k}, k.0)
    ensures MaxIsThere(af) && (k.1 != af.maxNonce || af.txs.Keys == {k.1}) ==> MaxIsThere(af.Remove(k.1))
  {
  }

  /** The pending transaction of an account with the smallest nonce. */
  method PeekFirst(af: AccountFrom, ghost pending: Table, ghost a: Address) returns (r: Option<Pending>)
    requires FromOk(af, pending, a) && WellKeyed(pending)
    ensures r.None? <==> af.txs == map[]
    ensures r.Some? ==>
              && r.value.tx.from == a && r.value.tx.nonce in af.txs && af.txs[r.value.tx.nonce] == r.value
              && forall n: nat :: n in af.txs ==> r.value.tx.nonce <= n
  {
    if |af.txs| == 0 {
      return None;
    }
    ghost var n :| n in af.txs;
    for i := af.minNonce to af.maxNonce + 1
      invariant forall m: nat :: m in af.txs ==> m >= i
    {
      if i in af.txs {
        return Some(af.txs[i]);
      }
    }
    assert false;
    return None;
  }

  // --------------------------------------------------------------------------------------------
  // By payer and by change of points
  // --------------------------------------------------------------------------------------------

  /** The counters are unsigned 64-bit integers. */
  datatype AccountPayer = AccountPayer(cpu: nat, net: nat, txs: Table) {
    function Set(t: Pending): AccountPayer {
      var k := SlotOf(t);
      var (c, n) := if k in txs then (U64(cpu - Cpu(txs[k])), U64(net - Net(txs[k]))) else (cpu, net);
      AccountPayer(U64(c + Cpu(t)), U64(n + Net(t)), txs[k := t])
    }

    function Remove(k: Slot): AccountPayer {
      if k !in txs then this
      else AccountPayer(U64(cpu - Cpu(txs[k])), U64(net - Net(txs[k])), txs - {k})
    }

    ghost predicate Holds(expected: Table) {
      txs == expected && cpu == U64(Total(expected, Cpu)) && net == U64(Total(expected, Net))
    }
  }

  const NEW_PAYER := AccountPayer(0, 0, map[])

  lemma PayerSet(ap: AccountPayer, txs: Table, t: Pending)
    requires ap.Holds(txs)
    ensures ap.Set(t).Holds(txs[SlotOf(t) := t])
  {
    CounterAfterSet(txs, t, Cpu);
    CounterAfterSet(txs, t, Net);
  }

  lemma CounterAfterSet(txs: Table, t: Pending, cost: Pending -> int)
    ensures var k, total := SlotOf(t), U64(Total(txs, cost));
            U64(Total(txs[k := t], cost)) == U64((if k in txs then U64(total - cost(txs[k])) else total) + cost(t))
  {
    var k, total := SlotOf(t), Total(txs, cost);
    TotalAfterSet(txs, k, t, cost);
    if k in txs {
      WrapsLate(total, -cost(txs[k]));
      WrapsLate(total - cost(txs[k]), cost(t));
    } else {
      WrapsLate(total, cost(t));
    }
  }

  lemma PayerRemove(ap: AccountPayer, txs: Table, k: Slot)
    requires ap.Holds(txs) && k in txs
    ensures ap.Remove(k).Holds(txs - {k})
  {
    TotalAfterRemove(txs, k, Cpu);
    TotalAfterRemove(txs, k, Net);
    WrapsLate(Total(txs, Cpu), -Cpu(txs[k]));
    WrapsLate(Total(txs, Net), -Net(txs[k]));
  }

  datatype AccountPoint = AccountPoint(change: int, txs: Table) {
    function Set(t: Pending): AccountPoint {
      var k := SlotOf(t);
      AccountPoint((if k in txs then change - Points(txs[k]) else change) + Points(t), txs[k := t])
    }

    function Remove(k: Slot): AccountPoint {
      if k !in txs then this else AccountPoint(change - Points(txs[k]), txs - {k})
    }

    ghost predicate Holds(expected: Table) {
      txs == expected && change == Total(expected, Points)
    }
  }

  const NEW_POINT := AccountPoint(0, map[])

  lemma PointSet(ap: AccountPoint, txs: Table, t: Pending)
    requires ap.Holds(txs)
    ensures ap.Set(t).Holds(txs[SlotOf(t) := t])
  {
    TotalAfterSet(txs, SlotOf(t), t, Points);
  }

  lemma PointRemove(ap: AccountPoint, txs: Table, k: Slot)
    requires ap.Holds(txs) && k in txs
    ensures ap.Remove(k).Holds(txs - {k})
  {
    TotalAfterRemove(txs, k, Points);
  }

  // --------------------------------------------------------------------------------------------
  // The indices
  // --------------------------------------------------------------------------------------------

  type ByHash = map<Id, Pending>

  type Froms = map<Address, AccountFrom>

  type Payers = map<Address, AccountPayer>

  type PointsOf = map<Address, AccountPoint>

  ghost predicate HashIndex(all: ByHash, pending: Table) {
    && (forall k :: k in pending ==> pending[k].tx.Hash() in all && all[pending[k].tx.Hash()] == pending[k])
    && forall h :: h in all ==>
         && all[h].tx.Hash() == h
         && SlotOf(all[h]) in pending && pending[SlotOf(all[h])] == all[h]
  }

  ghost predicate IsSender(pending: Table, a: Address) {
    exists n: nat :: (a, n) in pending
  }

  ghost predicate IsPayer(pending: Table, p: Address) {
    exists k :: k in pending && pending[k].tx.PayerOrFrom() == p
  }

  /** There is an entry for an address exactly if it is a sender, or one whose entry may be empty. */
  ghost predicate FromEntry(from: Froms, pending: Table, extra: set<Address>, a: Address) {
    && (a in from <==> IsSender(pending, a) || a in extra)
    && (a in from ==> FromOk(from[a], pending, a) && MaxIsThere(from[a]))
  }

  ghost predicate FromIndex(from: Froms, pending: Table, extra: set<Address>) {
    forall a: Address :: FromEntry(from, pending, extra, a)
  }

  ghost predicate PointEntry(point: PointsOf, pending: Table, extra: set<Address>, a: Address) {
    && (a in point <==> IsSender(pending, a) || a in extra)
    && (a in point ==> point[a].Holds(BySender(pending, a)))
  }

  ghost predicate PointIndex(point: PointsOf, pending: Table, extra: set<Address>) {
    forall a: Address :: PointEntry(point, pending, extra, a)
  }

  ghost predicate PayerEntry(payer: Payers, pending: Table, p: Address) {
    && (p in payer <==> IsPayer(pending, p))
    && (p in payer ==> payer[p].Holds(ByPayer(pending, p)))
  }

  ghost predicate PayerIndex(payer: Payers, pending: Table) {
    forall p: Address :: PayerEntry(payer, pending, p)
  }

  lemma HashInsert(all: ByHash, pending: Table, t: Pending)
    requires HashIndex(all, pending) && WellKeyed(pending) && SlotOf(t) !in pending
    ensures HashIndex(all[t.tx.Hash() := t], pending[SlotOf(t) := t])
  {
  }

  lemma HashDelete(all: ByHash, pending: Table, k: Slot)
    requires HashIndex(all, pending) && WellKeyed(pending) && k in pending
    ensures HashIndex(all - {pending[k].tx.Hash()}, pending - {k})
  {
  }

  // What inserting and deleting do to a sender and a payer and their transactions.

  lemma SenderAfterInsert(pending: Table, t: Pending, b: Address)
    ensures IsSender(pending[SlotOf(t) := t], b) <==> IsSender(pending, b) || b == t.tx.from
    ensures BySender(pending[SlotOf(t) := t], b) ==
            if b == t.tx.from then BySender(pending, b)[SlotOf(t) := t] else BySender(pending, b)
  {
    var pending' := pending[SlotOf(t) := t];
    assert (t.tx.from, t.tx.nonce) in pending';
    if IsSender(pending, b) {
      var n: nat :| (b, n) in pending;
      assert (b, n) in pending';
    }
  }

  lemma SenderAfterDelete(pending: Table, k: Slot, b: Address)
    requires k in pending
    ensures b != k.0 ==> (IsSender(pending - {k}, b) <==> IsSender(pending, b))
    ensures b == k.0 ==> IsSender(pending, b)
    ensures BySender(pending - {k}, b) == if b == k.0 then BySender(pending, b) - {k} else BySender(pending, b)
  {
    assert (k.0, k.1) in pending;
    if b != k.0 && IsSender(pending, b) {
      var n: nat :| (b, n) in pending;
      assert (b, n) in pending - {k};
    }
  }

  lemma PayerAfterInsert(pending: Table, t: Pending, q: Address)
    requires SlotOf(t) !in pending
    ensures IsPayer(pending[SlotOf(t) := t], q) <==> IsPayer(pending, q) || q == t.tx.PayerOrFrom()
    ensures ByPayer(pending[SlotOf(t) := t], q) ==
            if q == t.tx.PayerOrFrom() then ByPayer(pending, q)[SlotOf(t) := t] else ByPayer(pending, q)
  {
    var pending' := pending[SlotOf(t) := t];
    assert SlotOf(t) in pending';
    if IsPayer(pending, q) {
      var k :| k in pending && pending[k].tx.PayerOrFrom() == q;
      assert k in pending' && pending'[k].tx.PayerOrFrom() == q;
    }
  }

  lemma PayerAfterDelete(pending: Table, k: Slot, q: Address)
    requires k in pending
    ensures q != pending[k].tx.PayerOrFrom() ==> (IsPayer(pending - {k}, q) <==> IsPayer(pending, q))
    ensures q == pending[k].tx.PayerOrFrom() ==> IsPayer(pending, q)
    ensures ByPayer(pending - {k}, q) ==
            if q == pending[k].tx.PayerOrFrom() then ByPayer(pending, q) - {k} else ByPayer(pending, q)
  {
    if q != pending[k].tx.PayerOrFrom() && IsPayer(pending, q) {
      var l :| l in pending && pending[l].tx.PayerOrFrom() == q;
      assert l in pending - {k};
    }
  }

  lemma NoneOfSender(pending: Table, a: Address)
    ensures BySender(pending, a) == map[] <==> !IsSender(pending, a)
  {
    if IsSender(pending, a) {
      var n: nat :| (a, n) in pending;
      assert (a, n) in BySender(pending, a);
    } else {
      forall k | k in pending
        ensures k.0 != a
      {
        assert (k.0, k.1) in pending;
      }
    }
  }

  lemma NoneOfPayer(pending: Table, p: Address)
    ensures ByPayer(pending, p) == map[] <==> !IsPayer(pending, p)
  {
    if IsPayer(pending, p) {
      var k :| k in pending && pending[k].tx.PayerOrFrom() == p;
      assert k in ByPayer(pending, p);
    }
  }

  // By sender.

  lemma FromInsert(from: Froms, pending: Table, t: Pending, extra: set<Address>)
    requires FromIndex(from, pending, extra) && extra <= {t.tx.from}
    ensures var af := if t.tx.from in from then from[t.tx.from] else NEW_FROM;
            FromIndex(from[t.tx.from := af.Set(t)], pending[SlotOf(t) := t], {})
  {
    var a := t.tx.from;
    var af := if a in from then from[a] else NEW_FROM;
    assert FromEntry(from, pending, extra, a);
    FromSet(af, pending, t);
    var from', pending' := from[a := af.Set(t)], pending[SlotOf(t) := t];
    forall b: Address
      ensures FromEntry(from', pending', {}, b)
    {
      assert FromEntry(from, pending, extra, b);
      SenderAfterInsert(pending, t, b);
    }
  }

  lemma FromDelete(from: Froms, pending: Table, k: Slot, extra: set<Address>)
    requires FromIndex(from, pending, extra) && extra <= {k.0} && k in pending && k.1 > 0
    requires k.0 in from && (k.1 != from[k.0].maxNonce || from[k.0].txs.Keys == {k.1})
    ensures FromIndex(from[k.0 := from[k.0].Remove(k.1)], pending - {k}, {k.0})
  {
    assert FromEntry(from, pending, extra, k.0);
    FromRemove(from[k.0], pending, k);
    var from', pending', extra' := from[k.0 := from[k.0].Remove(k.1)], pending - {k}, {k.0};
    forall b: Address
      ensures FromEntry(from', pending', extra', b)
    {
      assert FromEntry(from, pending, extra, b);
      SenderAfterDelete(pending, k, b);
    }
  }

  /** An entry that has become empty is dropped. */
  lemma FromDropEmpty(from: Froms, pending: Table, a: Address)
    requires FromIndex(from, pending, {a})
    ensures a in from && FromIndex(if from[a].txs == map[] then from - {a} else from, pending, {})
  {
    assert FromEntry(from, pending, {a}, a);
    if from[a].txs != map[] {
      var n :| n in from[a].txs;
      assert (a, n) in pending;
    }
    var from' := if from[a].txs == map[] then from - {a} else from;
    forall b: Address
      ensures FromEntry(from', pending, {}, b)
    {
      assert FromEntry(from, pending, {a}, b);
    }
  }

  /** Taking a transaction out and putting another one in its place. */
  lemma FromReplace(from: Froms, pending: Table, t: Pending)
    requires FromIndex(from, pending, {}) && SlotOf(t) in pending && t.tx.nonce > 0
    ensures t.tx.from in from
    ensures FromIndex(from[t.tx.from := from[t.tx.from].Remove(t.tx.nonce).Set(t)], pending[SlotOf(t) := t], {})
  {
    var a, k := t.tx.from, SlotOf(t);
    assert FromEntry(from, pending, {}, a) && (a, t.tx.nonce) in pending;
    FromRemove(from[a], pending, k);
    FromSet(from[a].Remove(k.1), pending - {k}, t);
    assert (pending - {k})[k := t] == pending[k := t];
    var from', pending' := from[a := from[a].Remove(k.1).Set(t)], pending[k := t];
    forall b: Address
      ensures FromEntry(from', pending', {}, b)
    {
      assert FromEntry(from, pending, {}, b);
      SenderAfterInsert(pending, t, b);
    }
  }

  // By change of points.

  lemma PointInsert(point: PointsOf, pending: Table, t: Pending, extra: set<Address>)
    requires PointIndex(point, pending, extra) && extra <= {t.tx.from}
    ensures var ap := if t.tx.from in point then point[t.tx.from] else NEW_POINT;
            PointIndex(point[t.tx.from := ap.Set(t)], pending[SlotOf(t) := t], {})
  {
    var a := t.tx.from;
    var ap := if a in point then point[a] else NEW_POINT;
    assert PointEntry(point, pending, extra, a);
    if a !in point {
      NoneOfSender(pending, a);
      EmptyTotal(Points);
    }
    PointSet(ap, BySender(pending, a), t);
    var point', pending' := point[a := ap.Set(t)], pending[SlotOf(t) := t];
    forall b: Address
      ensures PointEntry(point', pending', {}, b)
    {
      assert PointEntry(point, pending, extra, b);
      SenderAfterInsert(pending, t, b);
    }
  }

  lemma PointDelete(point: PointsOf, pending: Table, k: Slot)
    requires PointIndex(point, pending, {}) && k in pending
    ensures k.0 in point && PointIndex(point[k.0 := point[k.0].Remove(k)], pending - {k}, {k.0})
  {
    assert PointEntry(point, pending, {}, k.0);
    SenderAfterDelete(pending, k, k.0);
    assert k in BySender(pending, k.0);
    PointRemove(point[k.0], BySender(pending, k.0), k);
    var point', pending', extra' := point[k.0 := point[k.0].Remove(k)], pending - {k}, {k.0};
    forall b: Address
      ensures PointEntry(point', pending', extra', b)
    {
      assert PointEntry(point, pending, {}, b);
      SenderAfterDelete(pending, k, b);
    }
  }

  lemma PointDropEmpty(point: PointsOf, pending: Table, a: Address)
    requires PointIndex(point, pending, {a})
    ensures a in point && PointIndex(if point[a].txs == map[] then point - {a} else point, pending, {})
  {
    assert PointEntry(point, pending, {a}, a);
    NoneOfSender(pending, a);
    var point' := if point[a].txs == map[] then point - {a} else point;
    forall b: Address
      ensures PointEntry(point', pending, {}, b)
    {
      assert PointEntry(point, pending, {a}, b);
    }
  }

  // By payer.

  lemma PayerInsert(payer: Payers, pending: Table, t: Pending)
    requires PayerIndex(payer, pending) && SlotOf(t) !in pending
    ensures var p := t.tx.PayerOrFrom();
            var ap := if p in payer then payer[p] else NEW_PAYER;
            PayerIndex(payer[p := ap.Set(t)], pending[SlotOf(t) := t])
  {
    var p := t.tx.PayerOrFrom();
    var ap := if p in payer then payer[p] else NEW_PAYER;
    assert PayerEntry(payer, pending, p);
    if p !in payer {
      NoneOfPayer(pending, p);
      EmptyTotal(Cpu);
      EmptyTotal(Net);
    }
    PayerSet(ap, ByPayer(pending, p), t);
    var payer', pending' := payer[p := ap.Set(t)], pending[SlotOf(t) := t];
    forall q: Address
      ensures PayerEntry(payer', pending', q)
    {
      assert PayerEntry(payer, pending, q);
      PayerAfterInsert(pending, t, q);
    }
  }

  lemma PayerDelete(payer: Payers, pending: Table, k: Slot)
    requires PayerIndex(payer, pending) && k in pending
    ensures var p := pending[k].tx.PayerOrFrom();
            && p in payer
            && var removed := payer[p].Remove(k);
               && PayerIndex(if removed.txs == map[] then payer - {p} else payer[p := removed], pending - {k})
               && (removed.txs == map[] ==> removed == NEW_PAYER)
  {
    var p := pending[k].tx.PayerOrFrom();
    assert PayerEntry(payer, pending, p);
    PayerAfterDelete(pending, k, p);
    assert k in ByPayer(pending, p);
    PayerRemove(payer[p], ByPayer(pending, p), k);
    var removed := payer[p].Remove(k);
    NoneOfPayer(pending - {k}, p);
    EmptyTotal(Cpu);
    EmptyTotal(Net);
    var payer', pending' := if removed.txs == map[] then payer - {p} else payer[p := removed], pending - {k};
    forall q: Address
      ensures PayerEntry(payer', pending', q)
    {
      assert PayerEntry(payer, pending, q);
      PayerAfterDelete(pending, k, q);
    }
  }
}
