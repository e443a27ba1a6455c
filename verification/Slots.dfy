/** Slots, dynasties and proposers, and the bounds that slots put on heights. */
module Slots {
  import opened BlockTree
  import opened Words

  const NUMBER_OF_ROUNDS := 1

  function ConsensusSize(n: nat): nat {
    n * 2 / 3 + 1
  }

  function DynastyIndex(n: nat, ts: nat): nat
    requires n > 0
  {
    ts / (n * NUMBER_OF_ROUNDS * BLOCK_INTERVAL)
  }

  function ProposerIndex(n: nat, ts: nat): (i: nat)
    requires n > 0
    ensures i < n
  {
    (ts / BLOCK_INTERVAL) % n
  }

  lemma DivMod(a: nat, n: nat)
    requires n > 0
    ensures a == (a / n) * n + a % n
  {
  }

  lemma AtLeastOne(d: int, n: int)
    requires n > 0
    ensures d > 0 ==> d * n >= n
    ensures d < 0 ==> d * n <= -n
  {
  }

  lemma DivUnique(a: nat, n: nat, q: nat, r: nat)
    requires n > 0 && a == q * n + r && r < n
    ensures a / n == q
  {
    DivMod(a, n);
    var d := a / n - q;
    assert d * n == r - a % n;
    AtLeastOne(d, n);
  }

  lemma DynastyIndexOfSlot(n: nat, ts: nat)
    requires n > 0
    ensures DynastyIndex(n, ts) == ts / BLOCK_INTERVAL / n
  {
    var s := ts / 3;
    var q := s / n;
    DivMod(s, n);
    DivMod(ts, 3);
    var r := (s % n) * 3 + ts % 3;
    assert ts == q * (n * 3) + r by {
      calc {
        ts;
        s * 3 + ts % 3;
        (q * n + s % n) * 3 + ts % 3;
        q * n * 3 + (s % n) * 3 + ts % 3;
        q * (n * 3) + r;
      }
    }
    DivUnique(ts, n * 3, q, r);
  }

  lemma NextInTurn(n: nat, s: nat)
    requires n > 0
    ensures (s + 1) % n == if s % n + 1 == n then 0 else s % n + 1
  {
    DivMod(s, n);
    OneMore(n, s, s / n, s % n);
  }

  lemma OneMore(n: nat, s: nat, q: nat, r: nat)
    requires r < n && s == q * n + r
    ensures (s + 1) % n == if r + 1 == n then 0 else r + 1
  {
    if r + 1 == n {
      assert (q + 1) * n == q * n + n;
      ModUnique(s + 1, n, q + 1, 0);
    } else {
      ModUnique(s + 1, n, q, r + 1);
    }
  }

  /** The seats take turns: the first slot is of the first seat, and the slot after is of the next seat. */
  lemma SeatsTakeTurns(n: nat, ts: nat)
    requires n > 0
    ensures ts < 3 ==> ProposerIndex(n, ts) == 0
    ensures var i := ProposerIndex(n, ts); ProposerIndex(n, ts + 3) == if i + 1 == n then 0 else i + 1
  {
    var s := ts / 3;
    assert (ts + 3) / 3 == s + 1;
    NextInTurn(n, s);
    if ts < 3 {
      ModUnique(0, n, 0, 0);
    }
  }

  lemma ModUnique(a: nat, n: nat, q: nat, r: nat)
    requires n > 0 && a == q * n + r && r < n
    ensures a % n == r
  {
    DivUnique(a, n, q, r);
    DivMod(a, n);
  }

  /** The dynasty and the proposer index determine the slot, and a slot holds one timestamp. */
  lemma IndicesDetermineTimestamp(n: nat, s: nat, t: nat)
    requires n > 0 && s % BLOCK_INTERVAL == 0 && t % BLOCK_INTERVAL == 0
    requires DynastyIndex(n, s) == DynastyIndex(n, t) && ProposerIndex(n, s) == ProposerIndex(n, t)
    ensures s == t
  {
    DynastyIndexOfSlot(n, s);
    DynastyIndexOfSlot(n, t);
    DivMod(s / 3, n);
    DivMod(t / 3, n);
  }

  // --------------------------------------------------------------------------------------------
  // Along a chain
  // --------------------------------------------------------------------------------------------

  /** Each block of a chain is at least one slot after the one below it. */
  lemma {:induction false} HeightsNeedSlots(bs: Blocks, genesis: Block, b: Block, h: nat)
    requires Tree(bs, genesis) && On(bs, b) && GENESIS_HEIGHT <= h <= b.height
    ensures var a := At(bs, genesis, b, h);
            b.timestamp - a.timestamp >= BLOCK_INTERVAL * (b.height - h)
    decreases b.height
  {
    if h < b.height {
      AtLeastGenesis(bs, genesis, b);
      HeightsNeedSlots(bs, genesis, bs[b.parentHash], h);
    }
  }

  /** Dynasties do not go back along a chain. */
  lemma DynastyIsMonotone(n: nat, s: nat, t: nat)
    requires n > 0 && s <= t
    ensures DynastyIndex(n, s) <= DynastyIndex(n, t)
  {
    var m := n * 3;
    DivMod(s, m);
    DivMod(t, m);
    AtLeastOne(s / m - t / m, m);
  }

  /** Different blocks of one chain in one dynasty have different proposer indices. */
  lemma ProposersDiffer(bs: Blocks, genesis: Block, n: nat, b: Block, h: nat, k: nat)
    requires Tree(bs, genesis) && On(bs, b) && n > 0 && GENESIS_HEIGHT <= h < k <= b.height
    requires DynastyIndex(n, At(bs, genesis, b, h).timestamp) == DynastyIndex(n, At(bs, genesis, b, k).timestamp)
    ensures ProposerIndex(n, At(bs, genesis, b, h).timestamp) != ProposerIndex(n, At(bs, genesis, b, k).timestamp)
  {
    var x, y := At(bs, genesis, b, h), At(bs, genesis, b, k);
    AtOfAt(bs, genesis, b, k, h);
    HeightsNeedSlots(bs, genesis, y, h);
    AtLeastGenesis(bs, genesis, x);
    AtLeastGenesis(bs, genesis, y);
    if ProposerIndex(n, x.timestamp) == ProposerIndex(n, y.timestamp) {
      IndicesDetermineTimestamp(n, x.timestamp, y.timestamp);
    }
  }

  // --------------------------------------------------------------------------------------------
  // Heights against timestamps
  // --------------------------------------------------------------------------------------------

  function MaximumHeight(libHeight: nat, libTs: int, ts: int): nat {
    U64(U64(ts - libTs) / BLOCK_INTERVAL + libHeight)
  }

  /** The subtraction of heights is the unsigned one of the code, in the order the code has it. */
  function MinimumTimestamp(libTs: int, libHeight: nat, height: nat): int {
    I64(I64(U64(libHeight - height)) * BLOCK_INTERVAL + libTs)
  }

  datatype HeightCheck = Accepted | CannotRevertLIB | InvalidHeightByLIB | InvalidTimestampByLIB

  function VerifyHeightAndTimestamp(lib: Block, b: Block): HeightCheck {
    if b.height <= lib.height || b.timestamp <= lib.timestamp then CannotRevertLIB
    else if b.height > MaximumHeight(lib.height, lib.timestamp, b.timestamp) then InvalidHeightByLIB
    else if b.timestamp < MinimumTimestamp(lib.timestamp, lib.height, b.height) then InvalidTimestampByLIB
    else Accepted
  }

  function MissingBlocks(lib: Block, b: Block): nat {
    U64(MaximumHeight(lib.height, lib.timestamp, b.timestamp) - b.height)
  }

  /** Heights are unsigned and timestamps signed 64-bit integers. */
  predicate In64Bits(b: Block) {
    b.height < TWO_64 && b.timestamp < TWO_63
  }

  /** The greatest height wraps around once the slots since the LIB lead out of 64 bits. */
  lemma MaximumHeightWraps(lib: Block, b: Block)
    requires In64Bits(lib) && In64Bits(b) && b.timestamp > lib.timestamp
    ensures var max := (b.timestamp - lib.timestamp) / BLOCK_INTERVAL + lib.height;
            MaximumHeight(lib.height, lib.timestamp, b.timestamp) == if max < TWO_64 then max else max - TWO_64
  {
    Wraps(b.timestamp - lib.timestamp);
    Wraps((b.timestamp - lib.timestamp) / BLOCK_INTERVAL + lib.height);
  }

  lemma MinimumTimestampIsEarlier(lib: Block, b: Block)
    requires In64Bits(lib) && In64Bits(b) && b.height > lib.height
    requires 3 * (b.height - lib.height) <= b.timestamp - lib.timestamp
    ensures MinimumTimestamp(lib.timestamp, lib.height, b.height) == lib.timestamp - 3 * (b.height - lib.height)
  {
    Signed(lib.height - b.height);
    Signed(lib.timestamp - 3 * (b.height - lib.height));
  }

  /**
   A block is accepted against the last irreversible block exactly when it is above it, later, has a
   slot for every height in between, and the heights up to its slot fit in 64 bits.  The check on the
   minimum timestamp never rejects: with its operands in the order the code has them it asks for less
   the higher the block is.
   */
  lemma AcceptedIffSlotsSuffice(lib: Block, b: Block)
    requires In64Bits(lib) && In64Bits(b)
    ensures VerifyHeightAndTimestamp(lib, b) == Accepted <==>
            && b.height > lib.height && b.timestamp > lib.timestamp
            && b.height - lib.height <= (b.timestamp - lib.timestamp) / 3
            && lib.height + (b.timestamp - lib.timestamp) / 3 < TWO_64
    ensures VerifyHeightAndTimestamp(lib, b) == CannotRevertLIB <==> b.height <= lib.height || b.timestamp <= lib.timestamp
    ensures VerifyHeightAndTimestamp(lib, b) != InvalidTimestampByLIB
  {
    if b.height > lib.height && b.timestamp > lib.timestamp {
      MaximumHeightWraps(lib, b);
      if b.height - lib.height <= (b.timestamp - lib.timestamp) / BLOCK_INTERVAL {
        MinimumTimestampIsEarlier(lib, b);
      }
    }
  }

  /** The count of missing blocks is the number of slots left free, unless there are more blocks than slots. */
  lemma MissingBlocksRightIff(lib: Block, b: Block)
    requires In64Bits(lib) && In64Bits(b)
    requires b.height > lib.height && b.timestamp > lib.timestamp
    ensures MissingBlocks(lib, b) == (b.timestamp - lib.timestamp) / BLOCK_INTERVAL - (b.height - lib.height) <==>
            b.height - lib.height <= (b.timestamp - lib.timestamp) / BLOCK_INTERVAL
  {
    MaximumHeightWraps(lib, b);
    Wraps(MaximumHeight(lib.height, lib.timestamp, b.timestamp) - b.height);
  }

  /** No descendant of the last irreversible block is ever rejected for its height or timestamp. */
  lemma DescendantsAreAccepted(bs: Blocks, genesis: Block, lib: Block, b: Block)
    requires Tree(bs, genesis) && On(bs, b) && Ancestor(bs, genesis, lib, b) && b != lib
    requires b.timestamp < TWO_63
    ensures VerifyHeightAndTimestamp(lib, b) == Accepted
    ensures MissingBlocks(lib, b) == (b.timestamp - lib.timestamp) / BLOCK_INTERVAL - (b.height - lib.height)
  {
    AtLeastGenesis(bs, genesis, lib);
    HeightsNeedSlots(bs, genesis, b, lib.height);
    HeightsNeedSlots(bs, genesis, b, GENESIS_HEIGHT);
    HeightsNeedSlots(bs, genesis, lib, GENESIS_HEIGHT);
    AcceptedIffSlotsSuffice(lib, b);
    MissingBlocksRightIff(lib, b);
  }
}
