/** A codec: entities as bytes that tell where they end, so that no two entities have the same ones. */
module Codecs {
  import opened Options
  import opened Errors
  import opened Bytes
  import opened TrieNodes
  import opened Ledger
  import opened LedgerTries

  // --------------------------------------------------------------------------------------------
  // Numbers, texts and flags
  // --------------------------------------------------------------------------------------------

  function Ones(n: nat): seq<Byte> {
    if n == 0 then [0] else [1] + Ones(n - 1)
  }

  lemma {:induction false} OnesEnd(n: nat, m: nat, r: seq<Byte>, r': seq<Byte>)
    requires Ones(n) + r == Ones(m) + r'
    ensures n == m && r == r'
  {
    var a, b := Ones(n) + r, Ones(m) + r';
    assert a[0] == Ones(n)[0] && b[0] == Ones(m)[0];
    if n == 0 || m == 0 {
      assert a[1..] == r || n > 0;
      assert b[1..] == r' || m > 0;
    } else {
      assert a[1..] == Ones(n - 1) + r && b[1..] == Ones(m - 1) + r';
      OnesEnd(n - 1, m - 1, r, r');
    }
  }

  /** The bytes of a number behind their count. */
  function Nat(x: nat): seq<Byte> {
    Ones(|Shortest(x)|) + Shortest(x)
  }

  lemma NatEnds(x: nat, y: nat, r: seq<Byte>, r': seq<Byte>)
    requires Nat(x) + r == Nat(y) + r'
    ensures x == y && r == r'
  {
    var a, b := Shortest(x), Shortest(y);
    assert Nat(x) + r == Ones(|a|) + (a + r);
    assert Nat(y) + r' == Ones(|b|) + (b + r');
    OnesEnd(|a|, |b|, a + r, b + r');
    assert a == (a + r)[..|a|] && b == (b + r')[..|b|];
    assert r == (a + r)[|a|..] && r' == (b + r')[|b|..];
    ShortestIsInverse(x);
    ShortestIsInverse(y);
  }

  function Text(s: string): seq<Byte> {
    if s == [] then [0] else [1] + (Nat(s[0] as int) + Text(s[1..]))
  }

  lemma {:induction false} TextEnds(s: string, t: string, r: seq<Byte>, r': seq<Byte>)
    requires Text(s) + r == Text(t) + r'
    ensures s == t && r == r'
    decreases |s|
  {
    var a, b := Text(s) + r, Text(t) + r';
    assert a[0] == Text(s)[0] && b[0] == Text(t)[0];
    if s == [] || t == [] {
      assert s == [] ==> a[1..] == r;
      assert t == [] ==> b[1..] == r';
    } else {
      assert a[1..] == Nat(s[0] as int) + (Text(s[1..]) + r);
      assert b[1..] == Nat(t[0] as int) + (Text(t[1..]) + r');
      NatEnds(s[0] as int, t[0] as int, Text(s[1..]) + r, Text(t[1..]) + r');
      TextEnds(s[1..], t[1..], r, r');
      assert s == [s[0]] + s[1..] && t == [t[0]] + t[1..];
    }
  }

  // --------------------------------------------------------------------------------------------
  // Ids and payloads
  // --------------------------------------------------------------------------------------------

  function OfId(id: Id): seq<Byte>
    decreases id
  {
    Nat(id.from) + (Nat(id.nonce) + OfPayload(id.payload))
  }

  function OfIds(ids: seq<Id>): seq<Byte>
    decreases ids
  {
    if ids == [] then [0] else [1] + (OfId(ids[0]) + OfIds(ids[1..]))
  }

  function OfPayload(p: Payload): seq<Byte>
    decreases p, 1
  {
    [Kind(p)] + Rest(p)
  }

  function Kind(p: Payload): Byte {
    match p
    case Transfer(_, _) => 0
    case Stake(_) => 1
    case Unstake(_) => 2
    case Vote(_) => 3
    case BecomeCandidate(_) => 4
    case QuitCandidate => 5
    case RegisterAlias(_, _) => 6
    case DeregisterAlias => 7
    case Genesis => 8
    case GenesisDistribution(_, _) => 9
  }

  function Rest(p: Payload): seq<Byte>
    decreases p, 0
  {
    match p
    case Transfer(to, value) => Nat(to) + Nat(value)
    case Stake(amount) => Nat(amount)
    case Unstake(amount) => Nat(amount)
    case Vote(candidates) => OfIds(candidates)
    case BecomeCandidate(collateral) => Nat(collateral)
    case QuitCandidate => []
    case RegisterAlias(name, collateral) => Text(name) + Nat(collateral)
    case DeregisterAlias => []
    case Genesis => []
    case GenesisDistribution(target, balance) => Nat(target) + Nat(balance)
  }

  lemma TagEnds(t: Byte, a: seq<Byte>, r: seq<Byte>, t': Byte, b: seq<Byte>, r': seq<Byte>)
    requires ([t] + a) + r == ([t'] + b) + r'
    ensures t == t' && a + r == b + r'
  {
    assert ([t] + a) + r == [t] + (a + r) && ([t'] + b) + r' == [t'] + (b + r');
    assert ([t] + (a + r))[0] == t && ([t'] + (b + r'))[0] == t';
    assert ([t] + (a + r))[1..] == a + r && ([t'] + (b + r'))[1..] == b + r';
  }

  lemma TwoNatsEnd(x: nat, y: nat, r: seq<Byte>, x': nat, y': nat, r': seq<Byte>)
    requires (Nat(x) + Nat(y)) + r == (Nat(x') + Nat(y')) + r'
    ensures x == x' && y == y' && r == r'
  {
    assert (Nat(x) + Nat(y)) + r == Nat(x) + (Nat(y) + r);
    assert (Nat(x') + Nat(y')) + r' == Nat(x') + (Nat(y') + r');
    NatEnds(x, x', Nat(y) + r, Nat(y') + r');
    NatEnds(y, y', r, r');
  }

  lemma {:induction false} IdEnds(x: Id, y: Id, r: seq<Byte>, r': seq<Byte>)
    requires OfId(x) + r == OfId(y) + r'
    ensures x == y && r == r'
    decreases x
  {
    assert OfId(x) + r == (Nat(x.from) + Nat(x.nonce)) + (OfPayload(x.payload) + r);
    assert OfId(y) + r' == (Nat(y.from) + Nat(y.nonce)) + (OfPayload(y.payload) + r');
    TwoNatsEnd(x.from, x.nonce, OfPayload(x.payload) + r, y.from, y.nonce, OfPayload(y.payload) + r');
    PayloadEnds(x.payload, y.payload, r, r');
  }

  lemma {:induction false} IdsEnd(x: seq<Id>, y: seq<Id>, r: seq<Byte>, r': seq<Byte>)
    requires OfIds(x) + r == OfIds(y) + r'
    ensures x == y && r == r'
    decreases x
  {
    var a := if x == [] then [] else OfId(x[0]) + OfIds(x[1..]);
    var b := if y == [] then [] else OfId(y[0]) + OfIds(y[1..]);
    assert OfIds(x) == [if x == [] then 0 else 1] + a && OfIds(y) == [if y == [] then 0 else 1] + b;
    TagEnds(if x == [] then 0 else 1, a, r, if y == [] then 0 else 1, b, r');
    if x == [] {
      assert a + r == r && b + r' == r';
    } else {
      assert a + r == OfId(x[0]) + (OfIds(x[1..]) + r) && b + r' == OfId(y[0]) + (OfIds(y[1..]) + r');
      IdEnds(x[0], y[0], OfIds(x[1..]) + r, OfIds(y[1..]) + r');
      IdsEnd(x[1..], y[1..], r, r');
      assert x == [x[0]] + x[1..] && y == [y[0]] + y[1..];
    }
  }

  lemma {:induction false} PayloadEnds(x: Payload, y: Payload, r: seq<Byte>, r': seq<Byte>)
    requires OfPayload(x) + r == OfPayload(y) + r'
    ensures x == y && r == r'
    decreases x, 1
  {
    TagEnds(Kind(x), Rest(x), r, Kind(y), Rest(y), r');
    RestEnds(x, y, r, r');
  }

  lemma {:induction false} RestEnds(x: Payload, y: Payload, r: seq<Byte>, r': seq<Byte>)
    requires Kind(x) == Kind(y) && Rest(x) + r == Rest(y) + r'
    ensures x == y && r == r'
    decreases x, 0
  {
    match x
    case Transfer(to, value) => TwoNatsEnd(to, value, r, y.to, y.value, r');
    case Stake(amount) => NatEnds(amount, y.amount, r, r');
    case Unstake(amount) => NatEnds(amount, y.amount, r, r');
    case Vote(candidates) => IdsEnd(candidates, y.candidates, r, r');
    case BecomeCandidate(collateral) => NatEnds(collateral, y.collateral, r, r');
    case QuitCandidate => NothingEnds(r, r');
    case RegisterAlias(name, collateral) => TextNatEnd(name, collateral, r, y.name, y.aliasCollateral, r');
    case DeregisterAlias => NothingEnds(r, r');
    case Genesis => NothingEnds(r, r');
    case GenesisDistribution(target, balance) => TwoNatsEnd(target, balance, r, y.target, y.balance, r');
  }

  lemma NothingEnds(r: seq<Byte>, r': seq<Byte>)
    requires [] + r == [] + r'
    ensures r == r'
  {
    assert [] + r == r && [] + r' == r';
  }

  lemma TextNatEnd(s: string, n: nat, r: seq<Byte>, t: string, m: nat, r': seq<Byte>)
    requires (Text(s) + Nat(n)) + r == (Text(t) + Nat(m)) + r'
    ensures s == t && n == m && r == r'
  {
    assert (Text(s) + Nat(n)) + r == Text(s) + (Nat(n) + r);
    assert (Text(t) + Nat(m)) + r' == Text(t) + (Nat(m) + r');
    TextEnds(s, t, Nat(n) + r, Nat(m) + r');
    NatEnds(n, m, r, r');
  }

  // --------------------------------------------------------------------------------------------
  // Values
  // --------------------------------------------------------------------------------------------

  function Nats(xs: seq<nat>): seq<Byte> {
    if xs == [] then [] else Nat(xs[0]) + Nats(xs[1..])
  }

  lemma {:induction false} NatsEnd(xs: seq<nat>, ys: seq<nat>, r: seq<Byte>, r': seq<Byte>)
    requires |xs| == |ys| && Nats(xs) + r == Nats(ys) + r'
    ensures xs == ys && r == r'
    decreases |xs|
  {
    if xs == [] {
      assert Nats(xs) + r == r && Nats(ys) + r' == r';
    } else {
      assert Nats(xs) + r == Nat(xs[0]) + (Nats(xs[1..]) + r) && Nats(ys) + r' == Nat(ys[0]) + (Nats(ys[1..]) + r');
      NatEnds(xs[0], ys[0], Nats(xs[1..]) + r, Nats(ys[1..]) + r');
      NatsEnd(xs[1..], ys[1..], r, r');
      assert xs == [xs[0]] + xs[1..] && ys == [ys[0]] + ys[1..];
    }
  }

  function OfCandidacy(id: Option<Id>): seq<Byte> {
    OfIds(if id.None? then [] else [id.value])
  }

  function OfAlias(alias: Option<Alias>): seq<Byte> {
    if alias.None? then Text("") + Nat(0) else Text([' '] + alias.value.name) + Nat(alias.value.collateral)
  }

  lemma AliasEnds(x: Option<Alias>, y: Option<Alias>)
    requires OfAlias(x) == OfAlias(y)
    ensures x == y
  {
    var s, n := if x.None? then "" else [' '] + x.value.name, if x.None? then 0 else x.value.collateral;
    var t, m := if y.None? then "" else [' '] + y.value.name, if y.None? then 0 else y.value.collateral;
    TextEnds(s, t, Nat(n), Nat(m));
    assert Nat(n) + [] == Nat(n) && Nat(m) + [] == Nat(m);
    NatEnds(n, m, [], []);
    if x.Some? {
      assert s[1..] == x.value.name && t[1..] == y.value.name;
    }
  }

  function Figures(acc: Account): seq<nat> {
    [acc.balance, acc.nonce, acc.staking, acc.points, acc.lastPointsTs, acc.unstaking, acc.lastUnstakingTs]
  }

  function OfAccount(acc: Account): seq<Byte> {
    Nats(Figures(acc)) + (OfIds(acc.voted) + (OfCandidacy(acc.candidateId) + OfAlias(acc.alias)))
  }

  lemma AccountsDiffer(x: Account, y: Account)
    requires OfAccount(x) == OfAccount(y)
    ensures x == y
  {
    var vx, vy := OfCandidacy(x.candidateId) + OfAlias(x.alias), OfCandidacy(y.candidateId) + OfAlias(y.alias);
    NatsEnd(Figures(x), Figures(y), OfIds(x.voted) + vx, OfIds(y.voted) + vy);
    IdsEnd(x.voted, y.voted, vx, vy);
    CandidaciesEnd(x.candidateId, y.candidateId, OfAlias(x.alias), OfAlias(y.alias));
    AliasEnds(x.alias, y.alias);
    SameFigures(x, y);
  }

  lemma CandidaciesEnd(x: Option<Id>, y: Option<Id>, r: seq<Byte>, r': seq<Byte>)
    requires OfCandidacy(x) + r == OfCandidacy(y) + r'
    ensures x == y && r == r'
  {
    var a, b := if x.None? then [] else [x.value], if y.None? then [] else [y.value];
    IdsEnd(a, b, r, r');
    if x.Some? && y.Some? {
      assert a[0] == b[0];
    }
  }

  lemma SameFigures(x: Account, y: Account)
    requires Figures(x) == Figures(y)
    ensures x == y.(voted := x.voted, candidateId := x.candidateId, alias := x.alias)
  {
    var a, b := Figures(x), Figures(y);
    assert a[0] == b[0] && a[1] == b[1] && a[2] == b[2] && a[3] == b[3] && a[4] == b[4] && a[5] == b[5] && a[6] == b[6];
  }

  function OfCandidate(c: Candidate): seq<Byte> {
    Nats([c.addr, c.collateral, c.votePower])
  }

  lemma CandidatesDiffer(x: Candidate, y: Candidate)
    requires OfCandidate(x) == OfCandidate(y)
    ensures x == y
  {
    var a, b := [x.addr, x.collateral, x.votePower], [y.addr, y.collateral, y.votePower];
    assert Nats(a) + [] == Nats(a) && Nats(b) + [] == Nats(b);
    NatsEnd(a, b, [], []);
    assert a[0] == b[0] && a[1] == b[1] && a[2] == b[2];
  }

  function Code(e: Error): nat {
    match e
    case Overflow => 0
    case Underflow => 1
    case InvalidBytesSize => 2
    case ElapsedTimestamp => 3
    case NotFound => 4
    case Unauthorized => 5
    case InvalidTransaction => 6
    case NonceNotExecutable => 7
    case ExceedBlockMaxCPUUsage => 8
    case ExceedBlockMaxNetUsage => 9
    case PointNotEnough => 10
    case BalanceNotEnough => 11
    case StakingNotEnough => 12
    case OverMaxVote => 13
    case DuplicateVote => 14
    case AlreadyCandidate => 15
    case NotCandidate => 16
    case NotEnoughCandidateCollateral => 17
    case AliasCollateralLimit => 18
    case AliasAlreadyHave => 19
    case AliasAlreadyTaken => 20
    case AliasNotExist => 21
    case NotGenesisBlock => 22
    case GenesisDistributionAllowedOnce => 23
    case CoinbaseNotSet => 24
    case InvalidBlockProposer => 25
    case WrongReceipt => 26
    case InvalidCPUPrice => 27
    case InvalidNetPrice => 28
    case InvalidBlockReward => 29
    case InvalidBlockSupply => 30
    case InvalidBlockRoot => 31
    case BlockMintedInNextSlot => 32
    case WaitingBlockInLastSlot => 33
    case InvalidBlockHeight => 34
    case InvalidTimestamp => 35
    case InvalidBlockInterval => 36
    case InvalidCPUUsage => 37
    case WrongCPUUsage => 38
    case InvalidNetUsage => 39
    case WrongNetUsage => 40
    case DuplicatedTransaction => 41
    case NonceNotAcceptable => 42
    case FailedToReplacePendingTx => 43
  }

  function Coded(n: nat): Error {
    match n
    case 0 => Overflow
    case 1 => Underflow
    case 2 => InvalidBytesSize
    case 3 => ElapsedTimestamp
    case 4 => NotFound
    case 5 => Unauthorized
    case 6 => InvalidTransaction
    case 7 => NonceNotExecutable
    case 8 => ExceedBlockMaxCPUUsage
    case 9 => ExceedBlockMaxNetUsage
    case 10 => PointNotEnough
    case 11 => BalanceNotEnough
    case 12 => StakingNotEnough
    case 13 => OverMaxVote
    case 14 => DuplicateVote
    case 15 => AlreadyCandidate
    case 16 => NotCandidate
    case 17 => NotEnoughCandidateCollateral
    case 18 => AliasCollateralLimit
    case 19 => AliasAlreadyHave
    case 20 => AliasAlreadyTaken
    case 21 => AliasNotExist
    case 22 => NotGenesisBlock
    case 23 => GenesisDistributionAllowedOnce
    case 24 => CoinbaseNotSet
    case 25 => InvalidBlockProposer
    case 26 => WrongReceipt
    case 27 => InvalidCPUPrice
    case 28 => InvalidNetPrice
    case 29 => InvalidBlockReward
    case 30 => InvalidBlockSupply
    case 31 => InvalidBlockRoot
    case 32 => BlockMintedInNextSlot
    case 33 => WaitingBlockInLastSlot
    case 34 => InvalidBlockHeight
    case 35 => InvalidTimestamp
    case 36 => InvalidBlockInterval
    case 37 => InvalidCPUUsage
    case 38 => WrongCPUUsage
    case 39 => InvalidNetUsage
    case 40 => WrongNetUsage
    case 41 => DuplicatedTransaction
    case 42 => NonceNotAcceptable
    case _ => FailedToReplacePendingTx
  }

  lemma Decoded(e: Error)
    ensures Coded(Code(e)) == e
  {
  }

  lemma CodesDiffer(x: Error, y: Error)
    requires Code(x) == Code(y)
    ensures x == y
  {
    Decoded(x);
    Decoded(y);
  }

  function Entry(tx: Tx, receipt: Receipt): seq<nat> {
    [tx.from, tx.nonce, tx.size, if tx.payer.None? then 0 else tx.payer.value + 1,
     if receipt.executed then 1 else 0, receipt.timestamp, receipt.height, receipt.cpuUsage, receipt.netUsage,
     receipt.points, if receipt.error.None? then 0 else Code(receipt.error.value) + 1]
  }

  function OfEntry(e: (Tx, Receipt)): seq<Byte> {
    Nats(Entry(e.0, e.1)) + OfPayload(e.0.payload)
  }

  lemma EntriesDiffer(x: (Tx, Receipt), y: (Tx, Receipt))
    requires OfEntry(x) == OfEntry(y)
    ensures x == y
  {
    NatsEnd(Entry(x.0, x.1), Entry(y.0, y.1), OfPayload(x.0.payload), OfPayload(y.0.payload));
    assert OfPayload(x.0.payload) + [] == OfPayload(y.0.payload) + [];
    PayloadEnds(x.0.payload, y.0.payload, [], []);
    SameEntry(x.0, x.1, y.0, y.1);
  }

  lemma SameEntry(tx: Tx, receipt: Receipt, tx': Tx, receipt': Receipt)
    requires Entry(tx, receipt) == Entry(tx', receipt')
    ensures tx == tx'.(payload := tx.payload) && receipt == receipt'
  {
    var a, b := Entry(tx, receipt), Entry(tx', receipt');
    assert a[0] == b[0] && a[1] == b[1] && a[2] == b[2] && a[3] == b[3];
    assert a[4] == b[4] && a[5] == b[5] && a[6] == b[6] && a[7] == b[7] && a[8] == b[8] && a[9] == b[9] && a[10] == b[10];
    if receipt.error.Some? {
      CodesDiffer(receipt.error.value, receipt'.error.value);
    }
  }

  // --------------------------------------------------------------------------------------------
  // The codec
  // --------------------------------------------------------------------------------------------

  /** Behind the prefixes "ac_" and "al_". */
  function AccountKey(a: Address): Key {
    [97, 99, 95] + Nat(a)
  }

  function AliasKey(name: string): Key {
    [97, 108, 95] + Text(name)
  }

  const CODEC := Codec(AccountKey, AliasKey, OfId, OfId, Nat, OfAccount, Nat, OfEntry, OfCandidate)

  lemma NatsDiffer()
    ensures OneToOne(Nat) && ValuesDiffer(Nat)
  {
    forall a: nat, b: nat | Nat(a) == Nat(b)
      ensures a == b
    {
      NatEnds(a, b, [], []);
    }
  }

  lemma IdsDiffer()
    ensures OneToOne(OfId)
  {
    forall a: Id, b: Id | OfId(a) == OfId(b)
      ensures a == b
    {
      IdEnds(a, b, [], []);
    }
  }

  lemma AccountKeysDiffer()
    ensures OneToOne(AccountKey) && OneToOne(AliasKey)
    ensures forall a: Address, name: string :: AccountKey(a) != AliasKey(name)
  {
    forall a: Address, b: Address | AccountKey(a) == AccountKey(b)
      ensures a == b
    {
      assert Nat(a) == AccountKey(a)[3..] && Nat(b) == AccountKey(b)[3..];
      NatEnds(a, b, [], []);
    }
    forall s: string, t: string | AliasKey(s) == AliasKey(t)
      ensures s == t
    {
      assert Text(s) == AliasKey(s)[3..] && Text(t) == AliasKey(t)[3..];
      TextEnds(s, t, [], []);
    }
    forall a: Address, name: string
      ensures AccountKey(a) != AliasKey(name)
    {
      assert AccountKey(a)[1] == 99 && AliasKey(name)[1] == 108;
    }
  }

  lemma EntitiesDiffer()
    ensures ValuesDiffer(OfAccount) && ValuesDiffer(OfEntry) && ValuesDiffer(OfCandidate)
  {
    forall x: Account, y: Account | OfAccount(x) == OfAccount(y)
      ensures x == y
    {
      AccountsDiffer(x, y);
    }
    forall x: (Tx, Receipt), y: (Tx, Receipt) | OfEntry(x) == OfEntry(y)
      ensures x == y
    {
      EntriesDiffer(x, y);
    }
    forall x: Candidate, y: Candidate | OfCandidate(x) == OfCandidate(y)
      ensures x == y
    {
      CandidatesDiffer(x, y);
    }
  }

  /** The codec gives no two entities the same key, and no two values the same bytes. */
  lemma CodecIsInjective()
    ensures CODEC.Injective()
    ensures ValuesDiffer(CODEC.account) && ValuesDiffer(CODEC.address) && ValuesDiffer(CODEC.tx) && ValuesDiffer(CODEC.candidate)
  {
    NatsDiffer();
    IdsDiffer();
    AccountKeysDiffer();
    EntitiesDiffer();
  }
}
