/** What an accepted block is: where it starts from, who signed it, what ran in it and what its header says. */
module AcceptedBlocks {
  import opened Options
  import opened Uint128
  import opened Ledger
  import opened Slots
  import opened Dynasties
  import opened BlockProduction

  // --------------------------------------------------------------------------------------------
  // The start of a block
  // --------------------------------------------------------------------------------------------

  /**
   The price after a block: a twentieth less if the block was at most half full, a twentieth more
   otherwise, and at least a hundredth of what the supply is worth per unit and block of four weeks.
   */
  ghost function NextPrice(price: nat, usage: nat, supply: nat): nat {
    var moved := if usage <= 1_500_000 then price * 95 / 100 else price * 105 / 100;
    var floor := supply / 201_600 / 3_000_000 / 100;
    if moved < floor then floor else moved
  }

  lemma PriceIsNext(price: Amount, usage: nat, limit: nat, supply: Amount)
    requires limit == 3_000_000
    ensures ChildPrice(price, usage, limit, supply).Ok? <==> NextPrice(price, usage, supply) < LIMIT
    ensures ChildPrice(price, usage, limit, supply).Ok? ==>
            ChildPrice(price, usage, limit, supply).value == NextPrice(price, usage, supply)
  {
  }

  /** The addresses of the n best ranked candidates, and the empty address where there are fewer. */
  ghost function Best(cs: Candidates, ids: seq<Id>, n: nat): seq<Address> {
    seq(n, i requires 0 <= i < n => if i < |ids| && ids[i] in cs then cs[ids[i]].addr else 0)
  }

  /** The first n seats are taken by the n best ranked candidates, in the order of their addresses. */
  ghost predicate Seated(n: nat, cs: Candidates, ids: seq<Id>, seats: map<nat, Address>) {
    && (forall i :: 0 <= i < n ==> i in seats)
    && (forall i, j :: 0 <= i < j < n ==> seats[i] <= seats[j])
    && multiset(seq(n, i requires 0 <= i < n => seats[i])) == multiset(Best(cs, ids, n))
  }

  ghost predicate SameFrom(n: nat, seats: map<nat, Address>, seats': map<nat, Address>) {
    forall i: nat :: i >= n ==> (i in seats <==> i in seats') && (i in seats ==> seats'[i] == seats[i])
  }

  /** A block at the given time begins a period of n slots of three seconds, or is the first of all. */
  ghost predicate Renews(n: nat, parentTs: nat, ts: nat)
    requires n > 0
  {
    ts / 3 / n > parentTs / 3 / n || parentTs == 0
  }

  ghost predicate SeatsOfChild(n: nat, rank: Ranking, parent: State, ts: nat, seats: map<nat, Address>)
    requires n > 0
  {
    if Renews(n, parent.timestamp, ts)
    then Seated(n, parent.candidates, rank(parent.candidates), seats) && SameFrom(n, parent.dynasty, seats)
    else seats == parent.dynasty
  }

  lemma RenewsIff(n: nat, parentTs: nat, ts: nat)
    requires n > 0
    ensures NewDynasty(n, parentTs, ts) <==> Renews(n, parentTs, ts)
  {
    DynastyIndexOfSlot(n, parentTs);
    DynastyIndexOfSlot(n, ts);
  }

  lemma SeatsAreTaken(n: nat, cs: Candidates, ids: seq<Id>, seats: map<nat, Address>, d: seq<Address>)
    requires d == DynastyOf(AddressesOf(cs, ids), n)
    ensures Seated(n, cs, ids, SetDynasty(seats, d)) && SameFrom(n, seats, SetDynasty(seats, d))
  {
    DynastyMembers(AddressesOf(cs, ids), n);
    assert Padded(AddressesOf(cs, ids), n) == Best(cs, ids, n);
    RowIsSeated(n, cs, ids, SetDynasty(seats, d), d);
  }

  lemma RowIsSeated(n: nat, cs: Candidates, ids: seq<Id>, seats: map<nat, Address>, d: seq<Address>)
    requires |d| == n && Ascending(d) && multiset(d) == multiset(Best(cs, ids, n))
    requires forall i :: 0 <= i < n ==> i in seats && seats[i] == d[i]
    ensures Seated(n, cs, ids, seats)
  {
    assert seq(n, i requires 0 <= i < n => seats[i]) == d;
  }

  ghost function NextCpuPrice(parent: State): nat {
    NextPrice(parent.cpuPrice, parent.cpuUsage, parent.supply)
  }

  ghost function NextNetPrice(parent: State): nat {
    NextPrice(parent.netPrice, parent.netUsage, parent.supply)
  }

  /**
   A block starts from its parent's state with the prices moved on; the seats are given anew, by rank
   among the parent's candidates, exactly at the first block of a period and at the first of all.
   */
  ghost predicate Starts(n: nat, rank: Ranking, parent: State, ts: nat, s0: State)
    requires n > 0
  {
    && s0.timestamp == ts && s0.height == parent.height + 1 && s0.cpuUsage == 0 && s0.netUsage == 0
    && s0.cpuPrice == NextCpuPrice(parent) && s0.netPrice == NextNetPrice(parent)
    && SeatsOfChild(n, rank, parent, ts, s0.dynasty)
    && s0.supply == parent.supply && s0.reward == parent.reward && s0.accounts == parent.accounts
    && s0.aliases == parent.aliases && s0.candidates == parent.candidates && s0.txs == parent.txs
  }

  /** There is a start unless a price is too large for an amount. */
  lemma StartsFromParent(n: nat, rank: Ranking, parent: State, ts: nat)
    requires n > 0
    ensures StartChild(n, rank, parent, ts).Ok? <==> NextCpuPrice(parent) < LIMIT && NextNetPrice(parent) < LIMIT
    ensures StartChild(n, rank, parent, ts).Ok? ==> Starts(n, rank, parent, ts, StartChild(n, rank, parent, ts).value)
  {
    PriceIsNext(parent.cpuPrice, parent.cpuUsage, CPU_LIMIT, parent.supply);
    PriceIsNext(parent.netPrice, parent.netUsage, NET_LIMIT, parent.supply);
    if StartChild(n, rank, parent, ts).Ok? {
      SeatsOfStart(n, rank, parent, ts, InitChild(parent, ts).value);
    }
  }

  lemma SeatsOfStart(n: nat, rank: Ranking, parent: State, ts: nat, s: State)
    requires n > 0 && InitChild(parent, ts) == Ok(s) && s.dynasty == parent.dynasty
    ensures var s0 := StartChild(n, rank, parent, ts).value;
            s0 == s.(dynasty := s0.dynasty) && SeatsOfChild(n, rank, parent, ts, s0.dynasty)
  {
    RenewsIff(n, parent.timestamp, ts);
    if NewDynasty(n, parent.timestamp, ts) {
      var cs := parent.candidates;
      SeatsAreTaken(n, cs, rank(cs), parent.dynasty, DynastyOf(AddressesOf(cs, rank(cs)), n));
    }
  }

  // --------------------------------------------------------------------------------------------
  // The transactions of a block
  // --------------------------------------------------------------------------------------------

  /** The states before, between and after transactions that run and are charged with the receipts given. */
  ghost predicate Ran(states: seq<State>, txs: seq<(Tx, Receipt)>) {
    && |states| == |txs| + 1
    && forall i :: 0 <= i < |txs| ==> ApplyTransaction(states[i], txs[i].0) == Ok((states[i + 1], txs[i].1))
  }

  lemma {:induction false} ReplayRuns(s: State, txs: seq<(Tx, Receipt)>, s': State) returns (states: seq<State>)
    requires Replay(s, txs) == Ok(s')
    ensures Ran(states, txs) && states[0] == s && states[|txs|] == s'
    decreases |txs|
  {
    if txs == [] {
      states := [s];
    } else {
      var next := ReplayStep(s, txs, s');
      var rest := ReplayRuns(next, txs[1..], s');
      states := [s] + rest;
    }
  }

  lemma {:induction false} RunsReplay(states: seq<State>, txs: seq<(Tx, Receipt)>)
    requires Ran(states, txs)
    ensures Replay(states[0], txs) == Ok(states[|txs|])
    decreases |txs|
  {
    if txs != [] {
      assert Ran(states[1..], txs[1..]);
      RunsReplay(states[1..], txs[1..]);
    }
  }

  lemma OneByOne<T>(a: seq<T>, b: seq<T>)
    requires b != []
    ensures a + [b[0]] + b[1..] == a + b
  {
  }

  lemma ReplayStep(s: State, txs: seq<(Tx, Receipt)>, s': State) returns (next: State)
    requires txs != [] && Replay(s, txs) == Ok(s')
    ensures ApplyTransaction(s, txs[0].0) == Ok((next, txs[0].1)) && Replay(next, txs[1..]) == Ok(s')
  {
    next := ApplyTransaction(s, txs[0].0).value.0;
  }

  lemma ApplyAddsUp(s: State, done: seq<(Tx, Receipt)>, t: (Tx, Receipt), s': State)
    requires UsageAddsUp(s, done) && ApplyTransaction(s, t.0) == Ok((s', t.1))
    ensures UsageAddsUp(s', done + [t])
    ensures s'.timestamp == s.timestamp && s'.height == s.height && s'.dynasty == s.dynasty
  {
    ApplyAddsUsage(s, t.0);
    SumsAppend(done, t.0, t.1);
  }

  /** The usages of the receipts add up, and the header of the state stays. */
  lemma {:induction false} ReplayAddsUp(s: State, done: seq<(Tx, Receipt)>, txs: seq<(Tx, Receipt)>, s': State)
    requires UsageAddsUp(s, done) && Replay(s, txs) == Ok(s')
    ensures UsageAddsUp(s', done + txs)
    ensures s'.timestamp == s.timestamp && s'.height == s.height && s'.dynasty == s.dynasty
    decreases |txs|
  {
    if txs == [] {
      assert done + txs == done;
    } else {
      var t, rest := txs[0], txs[1..];
      var next := ReplayStep(s, txs, s');
      ApplyAddsUp(s, done, t, next);
      ReplayAddsUp(next, done + [t], rest, s');
      OneByOne(done, txs);
    }
  }

  /**
   Every transaction is recorded under its hash, with its receipt unless one of the same hash follows;
   what is recorded under other hashes stays.
   */
  ghost predicate Recorded(before: map<Id, (Tx, Receipt)>, txs: seq<(Tx, Receipt)>, after: map<Id, (Tx, Receipt)>) {
    && (forall i :: 0 <= i < |txs| ==> HashOf(txs[i]) in after)
    && (forall i :: 0 <= i < |txs| && (forall j :: i < j < |txs| ==> HashOf(txs[j]) != HashOf(txs[i])) ==>
          after[HashOf(txs[i])] == txs[i])
    && (forall h :: (forall i :: 0 <= i < |txs| ==> HashOf(txs[i]) != h) ==>
          (h in before <==> h in after) && (h in before ==> after[h] == before[h]))
  }

  ghost function HashOf(t: (Tx, Receipt)): Id {
    TxHash(t.0.from, t.0.nonce, t.0.payload)
  }

  lemma RecordedOneMore(before: map<Id, (Tx, Receipt)>, txs: seq<(Tx, Receipt)>, after: map<Id, (Tx, Receipt)>,
                        t: (Tx, Receipt))
    requires Recorded(before, txs, after)
    ensures Recorded(before, txs + [t], after[HashOf(t) := t])
  {
    var longer, later := txs + [t], after[HashOf(t) := t];
    forall i | 0 <= i < |longer| && (forall j :: i < j < |longer| ==> HashOf(longer[j]) != HashOf(longer[i]))
      ensures later[HashOf(longer[i])] == longer[i]
    {
      if i < |txs| {
        assert HashOf(longer[|txs|]) != HashOf(longer[i]);
        assert forall j :: i < j < |txs| ==> HashOf(longer[j]) == HashOf(txs[j]);
      }
    }
    forall h | forall i :: 0 <= i < |longer| ==> HashOf(longer[i]) != h
      ensures (h in before <==> h in later) && (h in before ==> later[h] == before[h])
    {
      assert HashOf(longer[|txs|]) != h;
      assert forall i :: 0 <= i < |txs| ==> HashOf(longer[i]) == HashOf(txs[i]);
    }
  }

  lemma ApplyRecords(s: State, t: (Tx, Receipt), s': State)
    requires ApplyTransaction(s, t.0) == Ok((s', t.1))
    ensures s'.txs == s.txs[HashOf(t) := t]
  {
    if Execute(s, t.0).Ok? {
      ExecuteKeepsHeader(s, t.0);
    }
  }

  lemma {:induction false} ReplayRecords(before: map<Id, (Tx, Receipt)>, s: State, done: seq<(Tx, Receipt)>,
                                         txs: seq<(Tx, Receipt)>, s': State)
    requires Recorded(before, done, s.txs) && Replay(s, txs) == Ok(s')
    ensures Recorded(before, done + txs, s'.txs)
    decreases |txs|
  {
    if txs == [] {
      assert done + txs == done;
    } else {
      var t, rest := txs[0], txs[1..];
      var next := ReplayStep(s, txs, s');
      ApplyRecords(s, t, next);
      RecordedOneMore(before, done, s.txs, t);
      ReplayRecords(before, next, done + [t], rest, s');
      OneByOne(done, txs);
    }
  }

  // --------------------------------------------------------------------------------------------
  // The whole block
  // --------------------------------------------------------------------------------------------

  /** The header of a block says what the state after the block is. */
  ghost predicate HeaderOf(b: BlockData, s: State) {
    && b.height == s.height && b.timestamp == s.timestamp
    && b.reward == s.reward && b.supply == s.supply
    && b.cpuPrice == s.cpuPrice && b.cpuUsage == s.cpuUsage && b.netPrice == s.netPrice && b.netUsage == s.netUsage
    && b.accounts == s.accounts && b.aliases == s.aliases && b.candidates == s.candidates
    && b.dynasty == s.dynasty && b.txTable == s.txs
  }

  /** The seat of a slot: the slots of three seconds go round the n seats. */
  ghost predicate HasSeat(n: nat, seats: map<nat, Address>, ts: nat, signer: Address)
    requires n > 0
  {
    var seat := (ts / 3) % n;
    seat in seats && seats[seat] == signer
  }

  /**
   A legal block: a whole number of slots after its parent, signed by whoever has the seat of its
   slot, with the receipts its transactions give and the header of the state they and the reward lead to.
   */
  ghost predicate Legal(n: nat, rank: Ranking, parent: State, b: BlockData, states: seq<State>, s: State)
    requires n > 0
  {
    && b.timestamp > parent.timestamp && (b.timestamp - parent.timestamp) % 3 == 0
    && Ran(states, b.transactions)
    && StartChild(n, rank, parent, b.timestamp) == Ok(states[0])
    && HasSeat(n, states[0].dynasty, b.timestamp, b.signer)
    && PayReward(states[|b.transactions|], b.coinbase, parent.supply) == Ok(s)
    && HeaderOf(b, s)
  }

  lemma SeatIsChecked(n: nat, rank: Ranking, parent: State, ts: nat, signer: Address, s0: State)
    requires n > 0
    ensures CheckStart(n, rank, parent, ts, signer) == Ok(s0) <==>
            StartChild(n, rank, parent, ts) == Ok(s0) && HasSeat(n, s0.dynasty, ts, signer)
  {
    if StartChild(n, rank, parent, ts).Ok? {
      StartOfChild(n, rank, parent, ts);
    }
  }

  /** What the transactions of a block leave in the fields that the header has besides the tables. */
  lemma AfterReplay(s0: State, b: BlockData, parentSupply: Amount, s1: State, s: State)
    requires s0.cpuUsage == s0.netUsage == 0 && Replay(s0, b.transactions) == Ok(s1)
    requires PayReward(s1, b.coinbase, parentSupply) == Ok(s)
    ensures UsageAddsUp(s, b.transactions) && Recorded(s0.txs, b.transactions, s.txs)
    ensures s.timestamp == s0.timestamp && s.height == s0.height && s.dynasty == s0.dynasty
  {
    ReplayAddsUp(s0, [], b.transactions, s1);
    ReplayRecords(s0.txs, s0, [], b.transactions, s1);
    assert [] + b.transactions == b.transactions;
    RewardKeepsHeader(s1, b.coinbase, parentSupply);
  }

  lemma UsageIsHeader(s: State, b: BlockData)
    requires UsageAddsUp(s, b.transactions)
    ensures UsageOk(b) <==> b.cpuUsage == s.cpuUsage && b.netUsage == s.netUsage
  {
  }

  lemma StateIsChecked(s: State, b: BlockData)
    ensures HeaderOf(b, s) <==>
            && CheckState(s, b).Ok? && b.height == s.height && b.timestamp == s.timestamp
            && b.cpuUsage == s.cpuUsage && b.netUsage == s.netUsage
  {
  }

  lemma AcceptedIsLegal(n: nat, rank: Ranking, parent: State, b: BlockData, s: State) returns (states: seq<State>)
    requires n > 0 && Accepts(n, rank, parent, b, s)
    ensures Legal(n, rank, parent, b, states, s)
  {
    var s0 := CheckStart(n, rank, parent, b.timestamp, b.signer).value;
    SeatIsChecked(n, rank, parent, b.timestamp, b.signer, s0);
    StartOfChild(n, rank, parent, b.timestamp);
    states := LegalContents(s0, parent.supply, b, s);
  }

  lemma LegalContents(s0: State, parentSupply: Amount, b: BlockData, s: State) returns (states: seq<State>)
    requires CheckContents(s0, parentSupply, b) == Ok(s) && UsageOk(b)
    requires s0.cpuUsage == s0.netUsage == 0 && b.height == s0.height && b.timestamp == s0.timestamp
    ensures Ran(states, b.transactions) && states[0] == s0
    ensures PayReward(states[|b.transactions|], b.coinbase, parentSupply) == Ok(s) && HeaderOf(b, s)
  {
    var s1 := Replay(s0, b.transactions).value;
    states := ReplayRuns(s0, b.transactions, s1);
    AfterReplay(s0, b, parentSupply, s1, s);
    UsageIsHeader(s, b);
    StateIsChecked(s, b);
  }

  lemma LegalIsAccepted(n: nat, rank: Ranking, parent: State, b: BlockData, states: seq<State>, s: State)
    requires n > 0 && Legal(n, rank, parent, b, states, s)
    ensures Accepts(n, rank, parent, b, s)
  {
    SeatIsChecked(n, rank, parent, b.timestamp, b.signer, states[0]);
    StartOfChild(n, rank, parent, b.timestamp);
    RunsReplay(states, b.transactions);
    AfterReplay(states[0], b, parent.supply, states[|b.transactions|], s);
    UsageIsHeader(s, b);
    StateIsChecked(s, b);
    AcceptedAtLast(n, rank, parent, b, states[0], s);
  }

  /** Exactly the legal blocks are accepted. */
  lemma AcceptsIff(n: nat, rank: Ranking, parent: State, b: BlockData, s: State)
    requires n > 0
    ensures Accepts(n, rank, parent, b, s) <==> exists states :: Legal(n, rank, parent, b, states, s)
  {
    if Accepts(n, rank, parent, b, s) {
      var states := AcceptedIsLegal(n, rank, parent, b, s);
    }
    if states :| Legal(n, rank, parent, b, states, s) {
      LegalIsAccepted(n, rank, parent, b, states, s);
    }
  }

  /** The state after an accepted block: its header, its records, and the seats its parent's candidates have. */
  lemma AfterAcceptedBlock(n: nat, rank: Ranking, parent: State, b: BlockData, s: State)
    requires n > 0 && Accepts(n, rank, parent, b, s)
    ensures HeaderOf(b, s) && s.height == parent.height + 1
    ensures Recorded(parent.txs, b.transactions, s.txs)
    ensures SeatsOfChild(n, rank, parent, b.timestamp, s.dynasty) && HasSeat(n, s.dynasty, b.timestamp, b.signer)
  {
    var states := AcceptedIsLegal(n, rank, parent, b, s);
    StartsFromParent(n, rank, parent, b.timestamp);
    RunsReplay(states, b.transactions);
    AfterReplay(states[0], b, parent.supply, states[|b.transactions|], s);
  }
}
