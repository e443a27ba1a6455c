/**
 The ledger in its tries: what a transaction writes, run as an update of the block state's four
 tries, leaves there the encoding of the state that the ledger says it leads to.
 */
module LedgerTries {
  import opened Options
  import opened Errors
  import opened Uint128
  import opened Ledger
  import opened Transactions
  import opened Dynasties
  import opened BlockProduction
  import opened TrieNodes
  import TrieHistory
  import BlockAtomic

  type Entries = TrieHistory.Entries

  /** How entities become keys and values. */
  datatype Codec = Codec(
    accountKey: Address -> Key, aliasKey: string -> Key, txKey: Id -> Key, candidateKey: Id -> Key, seatKey: nat -> Key,
    account: Account -> Value, address: Address -> Value, tx: ((Tx, Receipt)) -> Value, candidate: Candidate -> Value)
  {
    /** No two entities have the same key, and the prefixes keep accounts and aliases apart. */
    ghost predicate Injective() {
      && OneToOne(accountKey) && OneToOne(aliasKey) && OneToOne(txKey) && OneToOne(candidateKey) && OneToOne(seatKey)
      && forall a: Address, name: string :: accountKey(a) != aliasKey(name)
    }
  }

  ghost predicate OneToOne<K(!new)>(key: K -> Key) {
    forall a: K, b: K :: key(a) == key(b) ==> a == b
  }

  // --------------------------------------------------------------------------------------------
  // Encoding
  // --------------------------------------------------------------------------------------------

  ghost function Encoded<K(!new), V>(m: map<K, V>, key: K -> Key, value: V -> Value): Entries
    requires OneToOne(key)
  {
    map k | k in m :: key(k) := value(m[k])
  }

  lemma EncodedPut<K(!new), V>(m: map<K, V>, k: K, v: V, key: K -> Key, value: V -> Value)
    requires OneToOne(key)
    ensures Encoded(m[k := v], key, value) == Encoded(m, key, value)[key(k) := value(v)]
  {
  }

  lemma EncodedDrop<K(!new), V>(m: map<K, V>, k: K, key: K -> Key, value: V -> Value)
    requires OneToOne(key)
    ensures Encoded(m - {k}, key, value) == Encoded(m, key, value) - {key(k)}
    ensures k in m ==> key(k) in Encoded(m, key, value)
  {
  }

  /** The account trie has the accounts and the aliases. */
  ghost function EncodedAccounts(c: Codec, accounts: Accounts, aliases: map<string, Address>): Entries
    requires c.Injective()
  {
    Encoded(accounts, c.accountKey, c.account) + Encoded(aliases, c.aliasKey, c.address)
  }

  ghost function Encode(c: Codec, s: State): BlockAtomic.Views
    requires c.Injective()
  {
    BlockAtomic.Views(EncodedAccounts(c, s.accounts, s.aliases), EncodedTxs(c, s.txs),
                      EncodedCandidates(c, s.candidates), EncodedSeats(c, s.dynasty))
  }

  ghost function EncodedTxs(c: Codec, txs: map<Id, (Tx, Receipt)>): Entries
    requires c.Injective()
  {
    Encoded(txs, c.txKey, c.tx)
  }

  ghost function EncodedCandidates(c: Codec, cs: Candidates): Entries
    requires c.Injective()
  {
    Encoded(cs, c.candidateKey, c.candidate)
  }

  ghost function EncodedSeats(c: Codec, seats: map<nat, Address>): Entries
    requires c.Injective()
  {
    Encoded(seats, c.seatKey, c.address)
  }

  function EncodedWrite(c: Codec, w: TableWrite): BlockAtomic.Write {
    match w
    case PutAcc(addr, acc) => BlockAtomic.Write(BlockAtomic.Accounts, TrieHistory.PutOp(c.accountKey(addr), c.account(acc)))
    case PutAlias(name, owner) =>
      BlockAtomic.Write(BlockAtomic.Accounts, TrieHistory.PutOp(c.aliasKey(name), c.address(owner)))
    case DropAlias(name) => BlockAtomic.Write(BlockAtomic.Accounts, TrieHistory.DeleteOp(c.aliasKey(name)))
    case PutCandidate(id, candidate) =>
      BlockAtomic.Write(BlockAtomic.Candidates, TrieHistory.PutOp(c.candidateKey(id), c.candidate(candidate)))
    case DropCandidate(id) => BlockAtomic.Write(BlockAtomic.Candidates, TrieHistory.DeleteOp(c.candidateKey(id)))
    case PutTx(tx, receipt) =>
      BlockAtomic.Write(BlockAtomic.Transactions, TrieHistory.PutOp(c.txKey(tx.Hash()), c.tx((tx, receipt))))
    case PutSeat(seat, member) => BlockAtomic.Write(BlockAtomic.Dynasty, TrieHistory.PutOp(c.seatKey(seat), c.address(member)))
  }

  function Script(c: Codec, log: seq<TableWrite>): seq<BlockAtomic.Write> {
    if log == [] then [] else Script(c, log[..|log| - 1]) + [EncodedWrite(c, log[|log| - 1])]
  }

  // --------------------------------------------------------------------------------------------
  // One write
  // --------------------------------------------------------------------------------------------

  lemma PutInEither(a: Entries, b: Entries, k: Key, v: Value)
    ensures k !in b ==> a[k := v] + b == (a + b)[k := v]
    ensures a + b[k := v] == (a + b)[k := v]
    ensures k !in a ==> a + (b - {k}) == (a + b) - {k}
  {
  }

  lemma KeyOf<K(!new), V>(m: map<K, V>, key: K -> Key, value: V -> Value, x: Key) returns (k: K)
    requires OneToOne(key) && x in Encoded(m, key, value)
    ensures k in m && key(k) == x
  {
    k :| k in m && key(k) == x;
  }

  /** No account has the key of an alias. */
  lemma Apart(c: Codec, s: State, addr: Address, name: string)
    requires c.Injective()
    ensures c.accountKey(addr) !in Encoded(s.aliases, c.aliasKey, c.address)
    ensures c.aliasKey(name) !in Encoded(s.accounts, c.accountKey, c.account)
  {
    if c.accountKey(addr) in Encoded(s.aliases, c.aliasKey, c.address) {
      var _ := KeyOf(s.aliases, c.aliasKey, c.address, c.accountKey(addr));
    }
    if c.aliasKey(name) in Encoded(s.accounts, c.accountKey, c.account) {
      var _ := KeyOf(s.accounts, c.accountKey, c.account, c.aliasKey(name));
    }
  }

  lemma AccountWritten(c: Codec, s: State, addr: Address, acc: Account)
    requires c.Injective()
    ensures EncodedAccounts(c, s.accounts[addr := acc], s.aliases) ==
            EncodedAccounts(c, s.accounts, s.aliases)[c.accountKey(addr) := c.account(acc)]
  {
    var a, b := Encoded(s.accounts, c.accountKey, c.account), Encoded(s.aliases, c.aliasKey, c.address);
    EncodedPut(s.accounts, addr, acc, c.accountKey, c.account);
    Apart(c, s, addr, "");
    PutInEither(a, b, c.accountKey(addr), c.account(acc));
  }

  lemma AliasWritten(c: Codec, s: State, name: string, owner: Address)
    requires c.Injective()
    ensures EncodedAccounts(c, s.accounts, s.aliases[name := owner]) ==
            EncodedAccounts(c, s.accounts, s.aliases)[c.aliasKey(name) := c.address(owner)]
  {
    var a, b := Encoded(s.accounts, c.accountKey, c.account), Encoded(s.aliases, c.aliasKey, c.address);
    EncodedPut(s.aliases, name, owner, c.aliasKey, c.address);
    PutInEither(a, b, c.aliasKey(name), c.address(owner));
  }

  lemma AliasDropped(c: Codec, s: State, name: string)
    requires c.Injective() && name in s.aliases
    ensures c.aliasKey(name) in EncodedAccounts(c, s.accounts, s.aliases)
    ensures EncodedAccounts(c, s.accounts, s.aliases - {name}) == EncodedAccounts(c, s.accounts, s.aliases) - {c.aliasKey(name)}
  {
    var a, b := Encoded(s.accounts, c.accountKey, c.account), Encoded(s.aliases, c.aliasKey, c.address);
    EncodedDrop(s.aliases, name, c.aliasKey, c.address);
    Apart(c, s, 0, name);
    PutInEither(a, b, c.aliasKey(name), []);
  }

  lemma AccountWriteIsEncoded(c: Codec, s: State, w: TableWrite)
    requires c.Injective() && Droppable(s, w) && (w.PutAcc? || w.PutAlias? || w.DropAlias?)
    ensures BlockAtomic.AfterWrite(Encode(c, s), EncodedWrite(c, w)) == Some(Encode(c, Apply(s, w)))
  {
    match w
    case PutAcc(addr, acc) => AccountWritten(c, s, addr, acc);
    case PutAlias(name, owner) => AliasWritten(c, s, name, owner);
    case DropAlias(name) => AliasDropped(c, s, name);
  }

  lemma CandidateWritten(c: Codec, cs: Candidates, id: Id, candidate: Candidate)
    requires c.Injective()
    ensures EncodedCandidates(c, cs[id := candidate]) == EncodedCandidates(c, cs)[c.candidateKey(id) := c.candidate(candidate)]
  {
    EncodedPut(cs, id, candidate, c.candidateKey, c.candidate);
  }

  lemma CandidateDropped(c: Codec, cs: Candidates, id: Id)
    requires c.Injective() && id in cs
    ensures c.candidateKey(id) in EncodedCandidates(c, cs)
    ensures EncodedCandidates(c, cs - {id}) == EncodedCandidates(c, cs) - {c.candidateKey(id)}
  {
    EncodedDrop(cs, id, c.candidateKey, c.candidate);
  }

  lemma TxWritten(c: Codec, txs: map<Id, (Tx, Receipt)>, tx: Tx, receipt: Receipt)
    requires c.Injective()
    ensures EncodedTxs(c, txs[tx.Hash() := (tx, receipt)]) == EncodedTxs(c, txs)[c.txKey(tx.Hash()) := c.tx((tx, receipt))]
  {
    EncodedPut(txs, tx.Hash(), (tx, receipt), c.txKey, c.tx);
  }

  lemma InCandidates(v: BlockAtomic.Views, op: TrieHistory.Op)
    requires op.DeleteOp? ==> op.key in v.candidates
    ensures BlockAtomic.AfterWrite(v, BlockAtomic.Write(BlockAtomic.Candidates, op)) ==
            Some(v.(candidates := TrieHistory.MapStep(v.candidates, op)))
  {
  }

  lemma OnlyCandidates(c: Codec, s: State, cs: Candidates)
    requires c.Injective()
    ensures Encode(c, s.(candidates := cs)) == Encode(c, s).(candidates := EncodedCandidates(c, cs))
  {
  }

  lemma CandidateWriteIsEncoded(c: Codec, s: State, w: TableWrite)
    requires c.Injective() && Droppable(s, w) && (w.PutCandidate? || w.DropCandidate?)
    ensures BlockAtomic.AfterWrite(Encode(c, s), EncodedWrite(c, w)) == Some(Encode(c, Apply(s, w)))
  {
    OnlyCandidates(c, s, Apply(s, w).candidates);
    if w.PutCandidate? {
      CandidateWritten(c, s.candidates, w.id, w.candidate);
    } else {
      CandidateDropped(c, s.candidates, w.gone);
    }
    InCandidates(Encode(c, s), EncodedWrite(c, w).op);
  }

  lemma TxWriteIsEncoded(c: Codec, s: State, w: TableWrite)
    requires c.Injective() && w.PutTx?
    ensures BlockAtomic.AfterWrite(Encode(c, s), EncodedWrite(c, w)) == Some(Encode(c, Apply(s, w)))
  {
    TxWritten(c, s.txs, w.tx, w.receipt);
  }

  lemma SeatWritten(c: Codec, seats: map<nat, Address>, seat: nat, member: Address)
    requires c.Injective()
    ensures EncodedSeats(c, seats[seat := member]) == EncodedSeats(c, seats)[c.seatKey(seat) := c.address(member)]
  {
    EncodedPut(seats, seat, member, c.seatKey, c.address);
  }

  lemma SeatWriteIsEncoded(c: Codec, s: State, w: TableWrite)
    requires c.Injective() && w.PutSeat?
    ensures BlockAtomic.AfterWrite(Encode(c, s), EncodedWrite(c, w)) == Some(Encode(c, Apply(s, w)))
  {
    OnlySeats(c, s, Apply(s, w).dynasty);
    SeatWritten(c, s.dynasty, w.seat, w.member);
    InSeats(Encode(c, s), c.seatKey(w.seat), c.address(w.member));
  }

  lemma InSeats(v: BlockAtomic.Views, k: Key, x: Value)
    ensures BlockAtomic.AfterWrite(v, BlockAtomic.Write(BlockAtomic.Dynasty, TrieHistory.PutOp(k, x))) ==
            Some(v.(dynasty := v.dynasty[k := x]))
  {
  }

  lemma OnlySeats(c: Codec, s: State, seats: map<nat, Address>)
    requires c.Injective()
    ensures Encode(c, s.(dynasty := seats)) == Encode(c, s).(dynasty := EncodedSeats(c, seats))
  {
  }

  /** Writing in the tries and encoding what was written is the same. */
  lemma WriteIsEncoded(c: Codec, s: State, w: TableWrite)
    requires c.Injective() && Droppable(s, w)
    ensures BlockAtomic.AfterWrite(Encode(c, s), EncodedWrite(c, w)) == Some(Encode(c, Apply(s, w)))
  {
    if w.PutAcc? || w.PutAlias? || w.DropAlias? {
      AccountWriteIsEncoded(c, s, w);
    } else if w.PutTx? {
      TxWriteIsEncoded(c, s, w);
    } else if w.PutSeat? {
      SeatWriteIsEncoded(c, s, w);
    } else {
      CandidateWriteIsEncoded(c, s, w);
    }
  }

  /** What a write deletes is in the trie if what it drops is in the table. */
  lemma DropIsThere(c: Codec, s: State, w: TableWrite)
    requires c.Injective() && Droppable(s, w)
    ensures var e := EncodedWrite(c, w); e.op.DeleteOp? ==> e.op.key in Encode(c, s).Of(e.part)
  {
    match w
    case DropAlias(name) => AliasDropped(c, s, name);
    case DropCandidate(id) => CandidateDropped(c, s.candidates, id);
    case _ =>
  }

  // --------------------------------------------------------------------------------------------
  // Equal tries, equal tables
  // --------------------------------------------------------------------------------------------

  ghost predicate ValuesDiffer<V(!new)>(value: V -> Value) {
    forall v: V, w: V :: value(v) == value(w) ==> v == w
  }

  lemma EncodedIsInjective<K(!new), V(!new)>(m: map<K, V>, n: map<K, V>, key: K -> Key, value: V -> Value)
    requires OneToOne(key) && ValuesDiffer(value)
    ensures Encoded(m, key, value) == Encoded(n, key, value) ==> m == n
  {
    var em, en := Encoded(m, key, value), Encoded(n, key, value);
    if em == en {
      forall k
        ensures k in m <==> k in n
        ensures k in m && k in n ==> m[k] == n[k]
      {
        if k in m {
          assert key(k) in en && en[key(k)] == value(m[k]);
        }
        if k in n {
          assert key(k) in em && em[key(k)] == value(n[k]);
        }
      }
    }
  }

  ghost predicate Within(a: Entries, b: Entries) {
    forall x :: x in a ==> x in b && b[x] == a[x]
  }

  lemma WithinEachOther(a: Entries, b: Entries)
    requires Within(a, b) && Within(b, a)
    ensures a == b
  {
  }

  /** Accounts and aliases can be told apart in the account trie. */
  lemma AccountsOf(c: Codec, s: State, t: State)
    requires c.Injective() && EncodedAccounts(c, s.accounts, s.aliases) == EncodedAccounts(c, t.accounts, t.aliases)
    ensures Within(Encoded(s.accounts, c.accountKey, c.account), Encoded(t.accounts, c.accountKey, c.account))
  {
    var es, et := Encoded(s.accounts, c.accountKey, c.account), Encoded(t.accounts, c.accountKey, c.account);
    forall x | x in es
      ensures x in et && et[x] == es[x]
    {
      var a := KeyOf(s.accounts, c.accountKey, c.account, x);
      Apart(c, s, a, "");
      Apart(c, t, a, "");
      assert EncodedAccounts(c, s.accounts, s.aliases)[x] == es[x];
      assert x in EncodedAccounts(c, t.accounts, t.aliases);
    }
  }

  lemma AliasesOf(c: Codec, s: State, t: State)
    requires c.Injective() && EncodedAccounts(c, s.accounts, s.aliases) == EncodedAccounts(c, t.accounts, t.aliases)
    ensures Within(Encoded(s.aliases, c.aliasKey, c.address), Encoded(t.aliases, c.aliasKey, c.address))
  {
    var es, et := Encoded(s.aliases, c.aliasKey, c.address), Encoded(t.aliases, c.aliasKey, c.address);
    forall x | x in es
      ensures x in et && et[x] == es[x]
    {
      var name := KeyOf(s.aliases, c.aliasKey, c.address, x);
      Apart(c, t, 0, name);
      assert EncodedAccounts(c, s.accounts, s.aliases)[x] == es[x];
      assert x in EncodedAccounts(c, t.accounts, t.aliases);
    }
  }

  lemma EqualAccounts(c: Codec, s: State, t: State)
    requires c.Injective() && ValuesDiffer(c.account) && EncodedAccounts(c, s.accounts, s.aliases) == EncodedAccounts(c, t.accounts, t.aliases)
    ensures s.accounts == t.accounts
  {
    AccountsOf(c, s, t);
    AccountsOf(c, t, s);
    WithinEachOther(Encoded(s.accounts, c.accountKey, c.account), Encoded(t.accounts, c.accountKey, c.account));
    EncodedIsInjective(s.accounts, t.accounts, c.accountKey, c.account);
  }

  lemma EqualAliases(c: Codec, s: State, t: State)
    requires c.Injective() && ValuesDiffer(c.address) && EncodedAccounts(c, s.accounts, s.aliases) == EncodedAccounts(c, t.accounts, t.aliases)
    ensures s.aliases == t.aliases
  {
    AliasesOf(c, s, t);
    AliasesOf(c, t, s);
    WithinEachOther(Encoded(s.aliases, c.aliasKey, c.address), Encoded(t.aliases, c.aliasKey, c.address));
    EncodedIsInjective(s.aliases, t.aliases, c.aliasKey, c.address);
  }

  /** Two states whose four tries agree have the same tables: comparing roots is comparing tables. */
  lemma EqualTriesEqualTables(c: Codec, s: State, t: State)
    requires c.Injective()
    requires ValuesDiffer(c.account) && ValuesDiffer(c.address) && ValuesDiffer(c.tx) && ValuesDiffer(c.candidate)
    ensures Encode(c, s) == Encode(c, t) <==> Restored(s, t) == s
  {
    if Encode(c, s) == Encode(c, t) {
      EqualAccounts(c, s, t);
      EqualAliases(c, s, t);
      EncodedIsInjective(s.txs, t.txs, c.txKey, c.tx);
      EncodedIsInjective(s.candidates, t.candidates, c.candidateKey, c.candidate);
      EncodedIsInjective(s.dynasty, t.dynasty, c.seatKey, c.address);
    }
    if Restored(s, t) == s {
      SameTables(c, s, t);
    }
  }

  lemma SameTables(c: Codec, s: State, t: State)
    requires c.Injective() && Restored(s, t) == s
    ensures Encode(c, s) == Encode(c, t)
  {
    assert s.accounts == Restored(s, t).accounts == t.accounts;
  }

  // --------------------------------------------------------------------------------------------
  // Updates
  // --------------------------------------------------------------------------------------------

  lemma {:induction false} ScriptIsEncoded(c: Codec, base: State, log: seq<TableWrite>)
    requires c.Injective() && Allowed(base, log)
    ensures BlockAtomic.AfterWrites(Encode(c, base), Script(c, log)) == Some(Encode(c, ApplyAll(base, log)))
  {
    if log != [] {
      var front, w := log[..|log| - 1], log[|log| - 1];
      ScriptIsEncoded(c, base, front);
      WriteIsEncoded(c, ApplyAll(base, front), w);
      assert Script(c, log)[..|Script(c, log)| - 1] == Script(c, front);
    }
  }

  lemma {:induction false} ScriptDeletesWhatWasThere(c: Codec, base: State, log: seq<TableWrite>, e: BlockAtomic.Write)
    requires c.Injective() && Allowed(base, log) && e in Script(c, log)
    ensures e.op.DeleteOp? ==> e.op.key in Encode(c, base).Of(e.part)
  {
    var front, w := log[..|log| - 1], log[|log| - 1];
    if e in Script(c, front) {
      ScriptDeletesWhatWasThere(c, base, front, e);
    } else {
      DropIsThere(c, base, w);
    }
  }

  /** The update of a transaction deletes nothing that was not there before, and is therefore safe. */
  lemma ScriptIsSafe(c: Codec, base: State, log: seq<TableWrite>)
    requires c.Injective() && Allowed(base, log)
    ensures BlockAtomic.SafeUpdate(Encode(c, base), Script(c, log))
  {
    var v, script := Encode(c, base), Script(c, log);
    forall p: BlockAtomic.Part, k: Key | BlockAtomic.Write(p, TrieHistory.DeleteOp(k)) in script
      ensures k in v.Of(p)
    {
      ScriptDeletesWhatWasThere(c, base, log, BlockAtomic.Write(p, TrieHistory.DeleteOp(k)));
    }
    BlockAtomic.SafeUpdateIf(v, script);
  }

  /** The tries hold the state. */
  ghost predicate Holds(c: Codec, tries: BlockAtomic.BlockState, s: State)
    requires c.Injective()
    reads tries.accounts, tries.accounts.trie, tries.accounts.trie.storage
    reads tries.transactions, tries.transactions.trie, tries.transactions.trie.storage
    reads tries.candidates, tries.candidates.trie, tries.candidates.trie.storage
    reads tries.dynasty, tries.dynasty.trie, tries.dynasty.trie.storage
  {
    tries.Valid() && tries.Idle() && tries.Committed() == Encode(c, s)
  }

  /** Runs the writes of an update in the tries, and lets it fail or succeed. */
  method Update(c: Codec, tries: BlockAtomic.BlockState, log: seq<TableWrite>, fails: bool, ghost base: State, ghost s: State)
    requires c.Injective() && Holds(c, tries, base) && (if fails then s == base else Wrote(base, log, s))
    modifies tries.accounts, tries.accounts.trie, tries.accounts.trie.storage
    modifies tries.transactions, tries.transactions.trie, tries.candidates, tries.candidates.trie
    modifies tries.dynasty, tries.dynasty.trie
    ensures Holds(c, tries, s)
  {
    if !fails {
      ScriptIsEncoded(c, base, log);
      ScriptIsSafe(c, base, log);
      SameTables(c, s, ApplyAll(base, log));
    }
    var _, _ := tries.Atomic(Script(c, log), fails);
  }

  /** The four root hashes of two states agree exactly if their tables do. */
  lemma SameRootsIffSameTables(c: Codec, a: BlockAtomic.BlockState, s: State, b: BlockAtomic.BlockState, t: State)
    requires c.Injective() && Holds(c, a, s) && Holds(c, b, t)
    requires ValuesDiffer(c.account) && ValuesDiffer(c.address) && ValuesDiffer(c.tx) && ValuesDiffer(c.candidate)
    ensures SameRoots(a, b) <==> Restored(s, t) == s
  {
    TrieHistory.SameRootIffSameEntries(a.accounts.trie, b.accounts.trie);
    TrieHistory.SameRootIffSameEntries(a.transactions.trie, b.transactions.trie);
    TrieHistory.SameRootIffSameEntries(a.candidates.trie, b.candidates.trie);
    TrieHistory.SameRootIffSameEntries(a.dynasty.trie, b.dynasty.trie);
    EqualTriesEqualTables(c, s, t);
  }

  ghost predicate SameRoots(a: BlockAtomic.BlockState, b: BlockAtomic.BlockState)
    reads a.accounts.trie, a.transactions.trie, a.candidates.trie, a.dynasty.trie
    reads b.accounts.trie, b.transactions.trie, b.candidates.trie, b.dynasty.trie
  {
    && a.accounts.trie.rootHash == b.accounts.trie.rootHash
    && a.transactions.trie.rootHash == b.transactions.trie.rootHash
    && a.candidates.trie.rootHash == b.candidates.trie.rootHash
    && a.dynasty.trie.rootHash == b.dynasty.trie.rootHash
  }

  // --------------------------------------------------------------------------------------------
  // Blocks
  // --------------------------------------------------------------------------------------------

  method Run(c: Codec, tries: BlockAtomic.BlockState, block: WorkingBlock, tx: Tx) returns (r: Result<Receipt>)
    requires c.Injective() && !block.batching && Holds(c, tries, block.state)
    modifies block
    modifies tries.accounts, tries.accounts.trie, tries.accounts.trie.storage
    modifies tries.transactions, tries.transactions.trie, tries.candidates, tries.candidates.trie
    modifies tries.dynasty, tries.dynasty.trie
    ensures !block.batching && Holds(c, tries, block.state)
    ensures match ExecuteTransaction(old(block.state), tx)
            case Ok(done) => r == Ok(done.1) && block.state == done.0
            case Err(e) => r == Err(e) && block.state == old(block.state)
  {
    ghost var before := block.state;
    r := block.Run(tx);
    if r.Ok? {
      Update(c, tries, block.log, !r.value.executed, before, block.state);
    }
  }

  method Accept(c: Codec, tries: BlockAtomic.BlockState, block: WorkingBlock, tx: Tx, receipt: Receipt)
    returns (r: Result<()>)
    requires c.Injective() && !block.batching && Holds(c, tries, block.state)
    modifies block
    modifies tries.accounts, tries.accounts.trie, tries.accounts.trie.storage
    modifies tries.transactions, tries.transactions.trie, tries.candidates, tries.candidates.trie
    modifies tries.dynasty, tries.dynasty.trie
    ensures !block.batching && Holds(c, tries, block.state)
    ensures match AcceptTransaction(old(block.state), tx, receipt)
            case Ok(s) => r == Ok(()) && block.state == s
            case Err(e) => r == Err(e) && block.state == old(block.state)
  {
    ghost var before := block.state;
    r := block.Accept(tx, receipt);
    if r.Ok? {
      Update(c, tries, block.log, false, before, block.state);
    }
  }

  method Reward(c: Codec, tries: BlockAtomic.BlockState, block: WorkingBlock, coinbase: Address, parentSupply: Amount)
    returns (r: Result<()>)
    requires c.Injective() && !block.batching && Holds(c, tries, block.state)
    modifies block
    modifies tries.accounts, tries.accounts.trie, tries.accounts.trie.storage
    modifies tries.transactions, tries.transactions.trie, tries.candidates, tries.candidates.trie
    modifies tries.dynasty, tries.dynasty.trie
    ensures !block.batching && Holds(c, tries, block.state)
    ensures match PayReward(old(block.state), coinbase, parentSupply)
            case Ok(s) => r == Ok(()) && block.state == s
            case Err(e) => r == Err(e) && block.state == old(block.state)
  {
    ghost var before := block.state;
    r := block.Reward(coinbase, parentSupply);
    if r.Ok? {
      Update(c, tries, block.log, false, before, block.state);
    }
  }

  /**
   Executes the transactions of a block in the tries: after as many of them as succeed, the tries
   hold the state that replaying them gives.
   */
  method ReplayInTries(c: Codec, tries: BlockAtomic.BlockState, block: WorkingBlock, txs: seq<(Tx, Receipt)>)
    returns (r: Result<()>)
    requires c.Injective() && !block.batching && Holds(c, tries, block.state)
    modifies block
    modifies tries.accounts, tries.accounts.trie, tries.accounts.trie.storage
    modifies tries.transactions, tries.transactions.trie, tries.candidates, tries.candidates.trie
    modifies tries.dynasty, tries.dynasty.trie
    ensures !block.batching && Holds(c, tries, block.state)
    ensures match Replay(old(block.state), txs)
            case Ok(s) => r == Ok(()) && block.state == s
            case Err(e) => r == Err(e)
  {
    var i := 0;
    while i < |txs|
      invariant 0 <= i <= |txs| && !block.batching && Holds(c, tries, block.state)
      invariant Replay(old(block.state), txs) == Replay(block.state, txs[i..])
    {
      var (tx, expected) := txs[i];
      assert txs[i..][0] == txs[i] && txs[i..][1..] == txs[i + 1..];
      var receipt := Run(c, tries, block, tx);
      if receipt.Err? {
        return Err(receipt.error);
      }
      if receipt.value != expected {
        return Err(WrongReceipt);
      }
      r := Accept(c, tries, block, tx, expected);
      if r.Err? {
        return;
      }
      i := i + 1;
    }
    return Ok(());
  }

  method TakeSeats(c: Codec, tries: BlockAtomic.BlockState, block: WorkingBlock, dynasty: seq<Address>)
    requires c.Injective() && !block.batching && Holds(c, tries, block.state)
    modifies block
    modifies tries.accounts, tries.accounts.trie, tries.accounts.trie.storage
    modifies tries.transactions, tries.transactions.trie, tries.candidates, tries.candidates.trie
    modifies tries.dynasty, tries.dynasty.trie
    ensures !block.batching && Holds(c, tries, block.state)
    ensures block.state == old(block.state).(dynasty := SetDynasty(old(block.state).dynasty, dynasty))
  {
    ghost var before := block.state;
    block.TakeSeats(dynasty);
    Update(c, tries, block.log, false, before, block.state);
  }

  /** A block starts with the tables of its parent, but for the seats of a dynasty that begins with it. */
  lemma StartTables(n: nat, rank: Ranking, parent: State, ts: nat)
    requires n > 0 && InitChild(parent, ts).Ok?
    ensures var init, dynasty := InitChild(parent, ts).value, MintDynasty(n, rank, parent, ts);
            && Restored(init, parent) == init
            && StartChild(n, rank, parent, ts) ==
               Ok(if dynasty.None? then init else init.(dynasty := SetDynasty(init.dynasty, dynasty.value)))
  {
  }

  method NewSeats(n: nat, rank: Ranking, parent: State, ts: nat) returns (dynasty: Option<seq<Address>>)
    requires n > 0
    ensures dynasty == MintDynasty(n, rank, parent, ts)
  {
    if !NewDynasty(n, parent.timestamp, ts) {
      return None;
    }
    var seats := MakeDynasty(AddressesOf(parent.candidates, rank(parent.candidates)), n);
    return Some(seats);
  }

  /** The block on top of the parent, with the seats of a new dynasty if one begins. */
  method Begin(c: Codec, tries: BlockAtomic.BlockState, n: nat, rank: Ranking, parent: State, ts: nat)
    returns (r: Result<WorkingBlock>)
    requires c.Injective() && n > 0 && Holds(c, tries, parent)
    modifies tries.accounts, tries.accounts.trie, tries.accounts.trie.storage
    modifies tries.transactions, tries.transactions.trie, tries.candidates, tries.candidates.trie
    modifies tries.dynasty, tries.dynasty.trie
    ensures match StartChild(n, rank, parent, ts)
            case Ok(s0) => r.Ok? && fresh(r.value) && !r.value.batching && r.value.state == s0 && Holds(c, tries, s0)
            case Err(e) => r == Err(e)
  {
    var init := InitChild(parent, ts);
    if init.Err? {
      return Err(init.error);
    }
    StartTables(n, rank, parent, ts);
    SameTables(c, init.value, parent);
    var child := new WorkingBlock(init.value);
    var dynasty := NewSeats(n, rank, parent, ts);
    if dynasty.Some? {
      TakeSeats(c, tries, child, dynasty.value);
    }
    return Ok(child);
  }

  /**
   Executes a block in its parent's tries: the result is that of the specification, and if the block
   passes, the tries hold the state it ends in.
   */
  method ExecuteBlock(c: Codec, tries: BlockAtomic.BlockState, n: nat, rank: Ranking, parent: State, b: BlockData)
    returns (r: Result<State>)
    requires c.Injective() && n > 0 && Holds(c, tries, parent)
    modifies tries.accounts, tries.accounts.trie, tries.accounts.trie.storage
    modifies tries.transactions, tries.transactions.trie, tries.candidates, tries.candidates.trie
    modifies tries.dynasty, tries.dynasty.trie
    ensures r == CheckExecution(n, rank, parent, b)
    ensures r.Ok? ==> Holds(c, tries, r.value)
  {
    var child := Begin(c, tries, n, rank, parent, b.timestamp);
    if child.Err? {
      return Err(child.error);
    }
    var proposer := CheckProposer(n, child.value.state, b.signer);
    if proposer.Err? {
      return Err(proposer.error);
    }
    r := ExecuteContents(c, tries, child.value, parent.supply, b);
  }

  method ExecuteContents(c: Codec, tries: BlockAtomic.BlockState, block: WorkingBlock, parentSupply: Amount, b: BlockData)
    returns (r: Result<State>)
    requires c.Injective() && !block.batching && Holds(c, tries, block.state)
    modifies block
    modifies tries.accounts, tries.accounts.trie, tries.accounts.trie.storage
    modifies tries.transactions, tries.transactions.trie, tries.candidates, tries.candidates.trie
    modifies tries.dynasty, tries.dynasty.trie
    ensures r == CheckContents(old(block.state), parentSupply, b)
    ensures r.Ok? ==> Holds(c, tries, r.value)
  {
    var done := ReplayInTries(c, tries, block, b.transactions);
    if done.Err? {
      return Err(done.error);
    }
    var paid := Reward(c, tries, block, b.coinbase, parentSupply);
    if paid.Err? {
      return Err(paid.error);
    }
    var same := CheckState(block.state, b);
    return if same.Err? then Err(same.error) else Ok(block.state);
  }
}
