/** Runs of the pool of pending transactions: every sender whose turn can come gets it in time. */
module PoolRuns {
  import opened Options
  import opened Ledger
  import opened PendingTables
  import opened PendingPools
  import RoundRobins

  type Line = RoundRobins.Lists<Address>

  datatype PoolOp =
    | Push(t: Pending, acc: Account, payerAcc: Account, price: Price, now: nat)
    | Prune(addr: Address, limit: nat)
    | SetRequired(sender: Address, nonce: nat)
    | Reset
    | Take

  /** What the pool has, which nonces are required, and who is in line. */
  datatype View = View(pending: Table, required: map<Address, nat>, line: Line)

  /** How many senders at the front of the line do not have the transaction required of them. */
  ghost function Blocked(pending: Table, required: map<Address, nat>, line: seq<Address>): (j: nat)
    ensures j <= |line| && forall i :: 0 <= i < j ==> HasNone(pending, required, line[i])
    ensures j < |line| ==> !HasNone(pending, required, line[j])
  {
    if line == [] || !HasNone(pending, required, line[0]) then 0
    else 1 + Blocked(pending, required, line[1..])
  }

  lemma BlockedIs(pending: Table, required: map<Address, nat>, line: seq<Address>, j: nat)
    requires j <= |line| && forall i :: 0 <= i < j ==> HasNone(pending, required, line[i])
    requires j < |line| ==> !HasNone(pending, required, line[j])
    ensures Blocked(pending, required, line) == j
  {
  }

  /** The sender that an operation takes a transaction of. */
  ghost function Taken(v: View, op: PoolOp): Option<Address> {
    var j := Blocked(v.pending, v.required, v.line.incl);
    if op.Take? && j < |v.line.incl| then Some(v.line.incl[j]) else None
  }

  ghost function PoolStep(v: View, op: PoolOp): View {
    match op
    case Push(t, acc, payerAcc, price, now) =>
      if Verdict(v.pending, t, acc, payerAcc, price, now).Err? then v
      else View(v.pending[SlotOf(t) := t], v.required,
                if SlotOf(t) in v.pending then v.line else RoundRobins.Step(v.line, RoundRobins.Include(t.tx.from)))
    case Prune(addr, limit) =>
      var left := Pruned(v.pending, addr, limit);
      View(left, v.required,
           if IsSender(v.pending, addr) && !IsSender(left, addr) then RoundRobins.Step(v.line, RoundRobins.Remove(addr))
           else v.line)
    case SetRequired(sender, nonce) => v.(required := v.required[sender := nonce])
    case Reset => View(v.pending, map[], RoundRobins.Lists(v.line.incl + v.line.excl, []))
    case Take =>
      var j, incl := Blocked(v.pending, v.required, v.line.incl), v.line.incl;
      v.(line := RoundRobins.Lists(if j == |incl| then [] else incl[j + 1..] + [incl[j]], v.line.excl + incl[..j]))
  }

  ghost function PoolRun(v: View, ops: seq<PoolOp>): View {
    if ops == [] then v else PoolStep(PoolRun(v, ops[..|ops| - 1]), ops[|ops| - 1])
  }

  ghost function TakenAt(v: View, ops: seq<PoolOp>, i: nat): Option<Address>
    requires i < |ops|
  {
    Taken(PoolRun(v, ops[..i]), ops[i])
  }

  function CountTakes(ops: seq<PoolOp>): nat {
    if ops == [] then 0 else CountTakes(ops[..|ops| - 1]) + if ops[|ops| - 1].Take? then 1 else 0
  }

  /** After the operation the sender still has transactions, and when one is taken it has the one required of it. */
  ghost predicate StaysUp(v: View, op: PoolOp, a: Address) {
    IsSender(PoolStep(v, op).pending, a) && (op.Take? ==> !HasNone(v.pending, v.required, a))
  }

  ghost predicate AlwaysUp(v: View, ops: seq<PoolOp>, a: Address) {
    forall i :: 0 <= i < |ops| ==> StaysUp(PoolRun(v, ops[..i]), ops[i], a)
  }

  // --------------------------------------------------------------------------------------------
  // Fairness
  // --------------------------------------------------------------------------------------------

  /** Excluding the front of a line, one after the other. */
  lemma {:induction false} FrontExcluded(line: Line, j: nat)
    requires line.Valid() && j <= |line.incl|
    ensures RoundRobins.Lists(line.incl[j..], line.excl + line.incl[..j]).Valid()
    decreases j
  {
    if j == 0 {
      assert line.incl[j..] == line.incl && line.excl + line.incl[..j] == line.excl;
    } else {
      FrontExcluded(line, j - 1);
      var before := RoundRobins.Lists(line.incl[j - 1..], line.excl + line.incl[..j - 1]);
      RoundRobins.StepKeepsValid(before, RoundRobins.Exclude(line.incl[j - 1]));
      assert before.incl[0] == line.incl[j - 1] && before.incl[0] in before.incl;
      assert before.incl[1..] == line.incl[j..];
      assert before.excl + [line.incl[j - 1]] == line.excl + line.incl[..j];
    }
  }

  lemma TakeKeepsValid(v: View)
    requires v.line.Valid()
    ensures PoolStep(v, Take).line.Valid()
  {
    var j, incl := Blocked(v.pending, v.required, v.line.incl), v.line.incl;
    FrontExcluded(v.line, j);
    var left := RoundRobins.Lists(incl[j..], v.line.excl + incl[..j]);
    RoundRobins.StepKeepsValid(left, RoundRobins.Op.Next);
    if j < |incl| {
      assert left.incl[1..] == incl[j + 1..] && left.incl[0] == incl[j];
    }
  }

  lemma PoolStepKeepsValid(v: View, op: PoolOp)
    requires v.line.Valid()
    ensures PoolStep(v, op).line.Valid()
  {
    match op
    case Push(t, _, _, _, _) => RoundRobins.StepKeepsValid(v.line, RoundRobins.Include(t.tx.from));
    case Prune(addr, _) => RoundRobins.StepKeepsValid(v.line, RoundRobins.Remove(addr));
    case SetRequired(_, _) =>
    case Reset => RoundRobins.StepKeepsValid(v.line, RoundRobins.Reset);
    case Take => TakeKeepsValid(v);
  }

  /** Only being served puts a sender further back; each Take for another moves it up. */
  lemma PoolStepMovesUp(v: View, op: PoolOp, a: Address, p: nat) returns (q: nat)
    requires v.line.Valid() && RoundRobins.At(v.line, a, p) && StaysUp(v, op, a) && Taken(v, op) != Some(a)
    ensures RoundRobins.At(PoolStep(v, op).line, a, q) && q <= p - if op.Take? then 1 else 0
  {
    q := p;
    match op
    case Push(t, _, _, _, _) =>
      if PoolStep(v, op).line != v.line {
        q := RoundRobins.StepMovesUp(v.line, RoundRobins.Include(t.tx.from), a, p);
      }
    case Prune(addr, _) =>
      if PoolStep(v, op).line != v.line {
        q := RoundRobins.StepMovesUp(v.line, RoundRobins.Remove(addr), a, p);
      }
    case SetRequired(_, _) =>
    case Reset =>
    case Take => q := p - Blocked(v.pending, v.required, v.line.incl) - 1;
  }

  lemma {:induction false} PoolRunKeepsValid(v: View, ops: seq<PoolOp>)
    requires v.line.Valid()
    ensures PoolRun(v, ops).line.Valid()
    decreases |ops|
  {
    if ops != [] {
      PoolRunKeepsValid(v, ops[..|ops| - 1]);
      PoolStepKeepsValid(PoolRun(v, ops[..|ops| - 1]), ops[|ops| - 1]);
    }
  }

  lemma {:induction false} SenderMovesUp(v: View, ops: seq<PoolOp>, a: Address, p: nat) returns (q: nat)
    requires v.line.Valid() && RoundRobins.At(v.line, a, p) && AlwaysUp(v, ops, a)
    requires forall i :: 0 <= i < |ops| ==> TakenAt(v, ops, i) != Some(a)
    ensures RoundRobins.At(PoolRun(v, ops).line, a, q) && q + CountTakes(ops) <= p
    decreases |ops|
  {
    q := p;
    if ops != [] {
      var front, n := ops[..|ops| - 1], |ops| - 1;
      forall i | 0 <= i < |front|
        ensures TakenAt(v, front, i) != Some(a) && StaysUp(PoolRun(v, front[..i]), front[i], a)
      {
        assert front[..i] == ops[..i];
        assert TakenAt(v, ops, i) != Some(a);
      }
      var r := SenderMovesUp(v, front, a, p);
      PoolRunKeepsValid(v, front);
      assert TakenAt(v, ops, n) != Some(a);
      q := PoolStepMovesUp(PoolRun(v, front), ops[n], a, r);
    }
  }

  /** A sender that is always up is served, if there are more Takes than the p senders before it. */
  ghost predicate ServedInTime(v: View, ops: seq<PoolOp>, a: Address, p: nat) {
    AlwaysUp(v, ops, a) && CountTakes(ops) > p ==> exists i :: 0 <= i < |ops| && TakenAt(v, ops, i) == Some(a)
  }

  /**
   Fairness: a sender with p senders before it in line gets a transaction taken by the (p + 1)-th
   Take at the latest, whatever else is pushed, pruned, required or reset, provided that it keeps
   having transactions and, whenever one is taken, the one required of it.
   */
  lemma EverySenderIsServed(v: View, ops: seq<PoolOp>, a: Address, p: nat)
    requires v.line.Valid() && RoundRobins.At(v.line, a, p)
    ensures ServedInTime(v, ops, a, p)
  {
    if AlwaysUp(v, ops, a) && forall i :: 0 <= i < |ops| ==> TakenAt(v, ops, i) != Some(a) {
      var _ := SenderMovesUp(v, ops, a, p);
    }
  }

  // --------------------------------------------------------------------------------------------
  // The pool itself
  // --------------------------------------------------------------------------------------------

  ghost function ViewOf(pool: PendingPool): View
    reads pool, pool.selector
  {
    View(pool.pending, pool.nonceCache, pool.selector.Contents())
  }

  /** What an operation gives out: the transaction that is up for the sender it takes. */
  ghost predicate GivesOut(v: View, op: PoolOp, r: Option<Pending>) {
    match Taken(v, op)
    case None => r.None?
    case Some(a) => r.Some? && IsUp(v.pending, v.required, a, r.value)
  }

  method Perform(pool: PendingPool, op: PoolOp) returns (r: Option<Pending>)
    requires pool.Valid()
    modifies pool, pool.selector
    ensures pool.Valid() && ViewOf(pool) == PoolStep(old(ViewOf(pool)), op) && GivesOut(old(ViewOf(pool)), op, r)
  {
    r := None;
    match op
    case Push(t, acc, payerAcc, price, now) =>
      var _ := pool.PushOrReplace(t, acc, payerAcc, price, now);
    case Prune(addr, limit) =>
      pool.Prune(addr, limit);
    case SetRequired(sender, nonce) =>
      pool.SetRequiredNonce(sender, nonce);
    case Reset =>
      pool.ResetSelector();
    case Take =>
      r := PerformTake(pool);
  }

  lemma TakeIs(v: View, j: nat, r: Option<Pending>, v': View)
    requires var line := v.line.incl;
             && j <= |line| && (forall i :: 0 <= i < j ==> HasNone(v.pending, v.required, line[i]))
             && (r.None? ==> j == |line|)
             && (r.Some? ==> j < |line| && IsUp(v.pending, v.required, line[j], r.value))
             && v'.line.excl == v.line.excl + line[..j]
             && v'.line.incl == if r.None? then [] else line[j + 1..] + [line[j]]
    requires v'.pending == v.pending && v'.required == v.required
    ensures v' == PoolStep(v, Take) && GivesOut(v, Take, r)
  {
    BlockedIs(v.pending, v.required, v.line.incl, j);
  }

  method PerformTake(pool: PendingPool) returns (r: Option<Pending>)
    requires pool.Valid()
    modifies pool.selector
    ensures pool.Valid() && ViewOf(pool) == PoolStep(old(ViewOf(pool)), Take) && GivesOut(old(ViewOf(pool)), Take, r)
  {
    ghost var v, j := ViewOf(pool), 0;
    r, j := pool.Next();
    TakeIs(v, j, r, ViewOf(pool));
  }

  /** What the operations up to the k-th have given out. */
  ghost predicate GaveOut(v: View, ops: seq<PoolOp>, k: nat, taken: seq<Option<Pending>>) {
    && k <= |ops| && |taken| == k
    && forall i :: 0 <= i < k ==> GivesOut(PoolRun(v, ops[..i]), ops[i], taken[i])
  }

  lemma OneMore(v: View, ops: seq<PoolOp>, k: nat, taken: seq<Option<Pending>>, r: Option<Pending>)
    requires k < |ops| && GaveOut(v, ops, k, taken) && GivesOut(PoolRun(v, ops[..k]), ops[k], r)
    ensures PoolRun(v, ops[..k + 1]) == PoolStep(PoolRun(v, ops[..k]), ops[k])
    ensures GaveOut(v, ops, k + 1, taken + [r])
  {
    assert ops[..k + 1][..k] == ops[..k];
  }

  /** Every sender in line is served in time. */
  ghost predicate Fair(v: View, ops: seq<PoolOp>) {
    forall a: Address, p: nat :: RoundRobins.At(v.line, a, p) ==> ServedInTime(v, ops, a, p)
  }

  lemma EveryRunIsFair(v: View, ops: seq<PoolOp>)
    requires v.line.Valid()
    ensures Fair(v, ops)
  {
    forall a: Address, p: nat | RoundRobins.At(v.line, a, p)
      ensures ServedInTime(v, ops, a, p)
    {
      EverySenderIsServed(v, ops, a, p);
    }
  }

  /**
   Any operations on a pool: what it gives out is what is up for the senders whose turn it is, and
   every sender in line gets its turn in time.
   */
  method RunPool(pool: PendingPool, ops: seq<PoolOp>) returns (taken: seq<Option<Pending>>)
    requires pool.Valid()
    modifies pool, pool.selector
    ensures pool.Valid() && ViewOf(pool) == PoolRun(old(ViewOf(pool)), ops)
    ensures GaveOut(old(ViewOf(pool)), ops, |ops|, taken) && Fair(old(ViewOf(pool)), ops)
  {
    ghost var v := ViewOf(pool);
    EveryRunIsFair(v, ops);
    taken := [];
    for k := 0 to |ops|
      invariant pool.Valid() && GaveOut(v, ops, k, taken) && ViewOf(pool) == PoolRun(v, ops[..k])
    {
      var r := Perform(pool, ops[k]);
      OneMore(v, ops, k, taken, r);
      taken := taken + [r];
    }
    assert ops[..|ops|] == ops;
  }
}
