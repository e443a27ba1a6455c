/** Dynasties: who may produce the block of a slot, and when a block is produced. */
module Dynasties {
  import opened Options
  import opened Sequences
  import opened Errors
  import opened Ledger
  import opened Slots
  import opened BlockTree

  /** The candidates in the order the library sort leaves them in: a function of the candidate table. */
  type Ranking = Candidates -> seq<Id>

  /** Every candidate once, more vote power before less. */
  ghost predicate Ranks(cs: Candidates, ids: seq<Id>) {
    && Distinct(ids)
    && (forall id :: id in ids <==> id in cs)
    && forall i, j :: 0 <= i < j < |ids| && ids[i] in cs && ids[j] in cs ==>
         cs[ids[i]].votePower >= cs[ids[j]].votePower
  }

  function AddressesOf(cs: Candidates, ids: seq<Id>): (r: seq<Address>)
    ensures |r| == |ids|
    ensures forall i :: 0 <= i < |ids| && ids[i] in cs ==> r[i] == cs[ids[i]].addr
  {
    seq(|ids|, i requires 0 <= i < |ids| => if ids[i] in cs then cs[ids[i]].addr else NO_ADDRESS)
  }

  // --------------------------------------------------------------------------------------------
  // The members of a dynasty
  // --------------------------------------------------------------------------------------------

  function Insert(a: Address, list: seq<Address>): (r: seq<Address>)
    ensures r != []
  {
    if list == [] || a <= list[0] then [a] + list else [list[0]] + Insert(a, list[1..])
  }

  function SortAddresses(list: seq<Address>): seq<Address> {
    if list == [] then [] else Insert(list[0], SortAddresses(list[1..]))
  }

  ghost predicate Ascending(list: seq<Address>) {
    forall i, j :: 0 <= i < j < |list| ==> list[i] <= list[j]
  }

  lemma {:induction false} InsertKeepsMembers(a: Address, list: seq<Address>)
    ensures multiset(Insert(a, list)) == multiset(list) + multiset{a}
  {
    if list != [] {
      assert list == [list[0]] + list[1..];
      InsertKeepsMembers(a, list[1..]);
    }
  }

  lemma Prepended(a: Address, list: seq<Address>)
    requires Ascending(list) && (list == [] || a <= list[0])
    ensures Ascending([a] + list)
  {
  }

  lemma {:induction false} InsertIsSorted(a: Address, list: seq<Address>)
    requires Ascending(list)
    ensures Ascending(Insert(a, list))
    ensures Insert(a, list)[0] == if list == [] || a <= list[0] then a else list[0]
  {
    if list == [] || a <= list[0] {
      Prepended(a, list);
    } else {
      assert Ascending(list[1..]);
      InsertIsSorted(a, list[1..]);
      Prepended(list[0], Insert(a, list[1..]));
    }
  }

  lemma {:induction false} SortIsSorted(list: seq<Address>)
    ensures Ascending(SortAddresses(list)) && multiset(SortAddresses(list)) == multiset(list)
  {
    if list != [] {
      assert list == [list[0]] + list[1..];
      SortIsSorted(list[1..]);
      InsertIsSorted(list[0], SortAddresses(list[1..]));
      InsertKeepsMembers(list[0], SortAddresses(list[1..]));
    }
  }

  function Padded(ranked: seq<Address>, n: nat): (d: seq<Address>)
    ensures |d| == n
  {
    seq(n, i requires 0 <= i < n => if i < |ranked| then ranked[i] else NO_ADDRESS)
  }

  function DynastyOf(ranked: seq<Address>, n: nat): seq<Address> {
    SortAddresses(Padded(ranked, n))
  }

  lemma DynastyMembers(ranked: seq<Address>, n: nat)
    ensures var d := DynastyOf(ranked, n);
            |d| == n && Ascending(d) && multiset(d) == multiset(Padded(ranked, n))
  {
    SortIsSorted(Padded(ranked, n));
    assert |multiset(DynastyOf(ranked, n))| == |multiset(Padded(ranked, n))|;
  }

  /** The n candidates with the most votes, filled up with the empty address, in order of address. */
  method MakeDynasty(ranked: seq<Address>, n: nat) returns (dynasty: seq<Address>)
    ensures dynasty == DynastyOf(ranked, n)
    ensures |dynasty| == n && Ascending(dynasty) && multiset(dynasty) == multiset(Padded(ranked, n))
  {
    dynasty := [];
    for i := 0 to n
      invariant dynasty == Padded(ranked, n)[..i]
    {
      if i >= |ranked| {
        dynasty := dynasty + [NO_ADDRESS];
      } else {
        dynasty := dynasty + [ranked[i]];
      }
    }
    assert dynasty == Padded(ranked, n);
    DynastyMembers(ranked, n);
    dynasty := SortAddresses(dynasty);
  }

  /**
   A dynasty has a seat for each of the n best ranked candidates, and whoever has no seat as a
   candidate has at most the vote power of each that has one.
   */
  lemma DynastyHoldsMostVoted(cs: Candidates, ids: seq<Id>, n: nat)
    requires Ranks(cs, ids)
    ensures var d := DynastyOf(AddressesOf(cs, ids), n);
            && (forall i :: 0 <= i < n && i < |ids| ==> cs[ids[i]].addr in d)
            && (forall id :: id in cs && cs[id].addr !in d ==>
                  |ids| > n && forall i :: 0 <= i < n ==> cs[ids[i]].votePower >= cs[id].votePower)
  {
    var ranked := AddressesOf(cs, ids);
    var d := DynastyOf(ranked, n);
    DynastyMembers(ranked, n);
    forall i | 0 <= i < n && i < |ids|
      ensures cs[ids[i]].addr in d
    {
      assert Padded(ranked, n)[i] in multiset(Padded(ranked, n));
    }
    forall id | id in cs && cs[id].addr !in d
      ensures |ids| > n && forall i :: 0 <= i < n ==> cs[ids[i]].votePower >= cs[id].votePower
    {
      var j :| 0 <= j < |ids| && ids[j] == id;
    }
  }

  // --------------------------------------------------------------------------------------------
  // The dynasty of a block
  // --------------------------------------------------------------------------------------------

  /** A block gets a new dynasty when it is the first after genesis or the first of its dynasty. */
  predicate NewDynasty(n: nat, parentTs: nat, ts: nat)
    requires n > 0
  {
    DynastyIndex(n, ts) > DynastyIndex(n, parentTs) || parentTs == GENESIS_TIMESTAMP
  }

  /** The dynasty that the block after the given state works with at a time, if it is a new one. */
  function MintDynasty(n: nat, rank: Ranking, parent: State, ts: nat): Option<seq<Address>>
    requires n > 0
  {
    if NewDynasty(n, parent.timestamp, ts)
    then Some(DynastyOf(AddressesOf(parent.candidates, rank(parent.candidates)), n))
    else None
  }

  function SetDynasty(seats: map<nat, Address>, dynasty: seq<Address>): (r: map<nat, Address>)
    ensures forall i :: 0 <= i < |dynasty| ==> i in r && r[i] == dynasty[i]
    ensures forall i: nat :: i in r <==> i in seats || i < |dynasty|
    ensures forall i :: i in seats && i >= |dynasty| ==> r[i] == seats[i]
  {
    if dynasty == [] then seats
    else
      var k := |dynasty| - 1;
      SetDynasty(seats, dynasty[..k])[k := dynasty[k]]
  }

  function GetProposer(seats: map<nat, Address>, i: nat): Result<Address> {
    if i in seats then Ok(seats[i]) else Err(NotFound)
  }

  function FindMintProposer(n: nat, rank: Ranking, parent: State, ts: nat): Result<Address>
    requires n > 0
  {
    var mintTs := NextMintSlotInSec(ts);
    var dynasty := MintDynasty(n, rank, parent, mintTs);
    if dynasty.None? then GetProposer(parent.dynasty, ProposerIndex(n, mintTs))
    else
      DynastyMembers(AddressesOf(parent.candidates, rank(parent.candidates)), n);
      Ok(dynasty.value[ProposerIndex(n, mintTs)])
  }

  // --------------------------------------------------------------------------------------------
  // The time of a block
  // --------------------------------------------------------------------------------------------

  // Clock times are in nanoseconds, timestamps in seconds.

  const SECOND := 1_000_000_000

  const MIN_MINT_DURATION := 500_000_000

  const MAX_MINT_DURATION := 1_100_000_000

  function Unix(t: nat): nat {
    t / SECOND
  }

  /** The division of the code truncates towards zero. */
  function LastMintSlot(t: nat): nat {
    if Unix(t) == 0 then 0 else (Unix(t) - 1) / BLOCK_INTERVAL * BLOCK_INTERVAL
  }

  function NextMintSlotInSec(ts: nat): nat {
    (ts + BLOCK_INTERVAL - 1) / BLOCK_INTERVAL * BLOCK_INTERVAL
  }

  function NextMintSlot(t: nat): nat {
    NextMintSlotInSec(Unix(t))
  }

  function MintDeadline(t: nat): nat {
    if Unix(t + MAX_MINT_DURATION) < NextMintSlot(t) then t + MAX_MINT_DURATION else NextMintSlot(t) * SECOND
  }

  function CheckDeadline(tailTs: nat, t: nat): Result<nat> {
    if tailTs >= NextMintSlot(t) then Err(BlockMintedInNextSlot)
    else if tailTs == LastMintSlot(t) then Ok(MintDeadline(t))
    else if NextMintSlot(t) * SECOND - t < MIN_MINT_DURATION then Ok(MintDeadline(t))
    else Err(WaitingBlockInLastSlot)
  }

  /** The slots before and after a time: multiples of three seconds, the next one possibly right then. */
  lemma SlotsAround(t: nat)
    ensures var sec, last, next := t / 1_000_000_000, LastMintSlot(t), NextMintSlot(t);
            && next % 3 == 0 && sec <= next < sec + 3
            && last % 3 == 0 && (if sec == 0 then last == 0 else last < sec <= last + 3)
  {
  }

  /**
   A block is made for the next slot if the tail is before it, and either has the slot before or less
   than half a second is left; there are 1.1 seconds for it, but no longer than until the slot.
   */
  lemma MintsIff(tailTs: nat, t: nat)
    ensures var next := NextMintSlot(t);
            && (CheckDeadline(tailTs, t).Ok? <==>
                  tailTs < next && (tailTs == LastMintSlot(t) || t + 500_000_000 > next * 1_000_000_000))
            && (CheckDeadline(tailTs, t).Ok? ==>
                  CheckDeadline(tailTs, t).value ==
                  if (t + 1_100_000_000) / 1_000_000_000 < next then t + 1_100_000_000 else next * 1_000_000_000)
  {
  }

  /**
   The slot that decides whose turn it is, taken from the deadline, is the slot stamped on the block,
   taken from the present time; it is after the tail, and in step with it.
   */
  lemma SlotIsTheSame(tailTs: nat, now: nat)
    requires CheckDeadline(tailTs, now).Ok?
    ensures NextMintSlotInSec(Unix(CheckDeadline(tailTs, now).value)) == NextMintSlot(now)
    ensures NextMintSlot(now) > tailTs
    ensures tailTs % BLOCK_INTERVAL == 0 ==> (NextMintSlot(now) - tailTs) % BLOCK_INTERVAL == 0
  {
    var sec, d := Unix(now), Unix(MintDeadline(now));
    assert sec <= d <= NextMintSlot(now);
  }

  /** The deadline is never after the slot, and within the longest time allowed for minting. */
  lemma DeadlineIsInTime(tailTs: nat, now: nat)
    requires CheckDeadline(tailTs, now).Ok?
    ensures var deadline := CheckDeadline(tailTs, now).value;
            deadline <= NextMintSlot(now) * SECOND && deadline <= now + MAX_MINT_DURATION
  {
    if Unix(now + MAX_MINT_DURATION) >= NextMintSlot(now) {
      assert now + MAX_MINT_DURATION >= Unix(now + MAX_MINT_DURATION) * SECOND;
    }
  }
}
