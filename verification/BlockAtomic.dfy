/**
 Atomic updates of a block state.  A block state keeps accounts, transactions, candidates and the
 dynasty in four batches over one store; an update opens all four, writes, and then commits all or
 rolls all back.
 */
module BlockAtomic {
  import opened Options
  import opened TrieNodes
  import opened Tries
  import opened TrieHistory
  import opened TrieBatch

  datatype Part = Accounts | Transactions | Candidates | Dynasty

  /** The entries of the four parts. */
  datatype Views = Views(accounts: Entries, transactions: Entries, candidates: Entries, dynasty: Entries) {
    ghost function Of(p: Part): Entries {
      match p
      case Accounts => accounts
      case Transactions => transactions
      case Candidates => candidates
      case Dynasty => dynasty
    }

    ghost function With(p: Part, m: Entries): Views {
      match p
      case Accounts => this.(accounts := m)
      case Transactions => this.(transactions := m)
      case Candidates => this.(candidates := m)
      case Dynasty => this.(dynasty := m)
    }
  }

  /** One write of an update: in which part, and what. */
  datatype Write = Write(part: Part, op: Op)

  // --------------------------------------------------------------------------------------------
  // An update carried out on plain maps
  // --------------------------------------------------------------------------------------------

  /** A write fails only when it deletes a key that is not there. */
  ghost function AfterWrite(v: Views, w: Write): Option<Views> {
    if w.op.DeleteOp? && w.op.key !in v.Of(w.part) then None
    else Some(v.With(w.part, MapStep(v.Of(w.part), w.op)))
  }

  ghost function AfterWrites(v: Views, script: seq<Write>): Option<Views> {
    if script == [] then Some(v)
    else
      match AfterWrites(v, script[..|script| - 1])
      case None => None
      case Some(before) => AfterWrite(before, script[|script| - 1])
  }

  lemma AfterOneMore(v: Views, script: seq<Write>, i: nat)
    requires i < |script| && AfterWrites(v, script[..i]).Some?
    ensures AfterWrites(v, script[..i + 1]) == AfterWrite(AfterWrites(v, script[..i]).value, script[i])
  {
    assert script[..i + 1][..i] == script[..i];
  }

  lemma {:induction false} FailureStays(v: Views, script: seq<Write>, i: nat)
    requires i <= |script| && AfterWrites(v, script[..i]).None?
    ensures AfterWrites(v, script).None?
    decreases |script| - i
  {
    if i == |script| {
      assert script[..i] == script;
    } else {
      assert script[..i + 1][..i] == script[..i];
      FailureStays(v, script, i + 1);
    }
  }

  // --------------------------------------------------------------------------------------------
  // What an update leaves in the tables of dirty keys
  // --------------------------------------------------------------------------------------------

  ghost function DirtyAfter(dirties: Dirties, op: Op): Dirties {
    match op
    case PutOp(key, value) => dirties[key := Dirty(value, false)]
    case DeleteOp(key) => dirties[key := Dirty(if key in dirties then dirties[key].value else [], true)]
  }

  ghost function DirtyAfterAll(script: seq<Write>, p: Part): Dirties {
    if script == [] then map[]
    else
      var before, w := DirtyAfterAll(script[..|script| - 1], p), script[|script| - 1];
      if w.part == p then DirtyAfter(before, w.op) else before
  }

  /** No deletion of the update can take another entry along when it is committed. */
  ghost predicate SafeUpdate(v: Views, script: seq<Write>) {
    forall p: Part :: Safe(v.Of(p), DirtyAfterAll(script, p))
  }

  /** The keys a script writes in one part. */
  ghost function Written(script: seq<Write>, part: Part): set<Key> {
    set w | w in script && w.part == part :: w.op.key
  }

  lemma {:induction false} DirtyIsWritten(script: seq<Write>, p: Part)
    ensures DirtyAfterAll(script, p).Keys <= Written(script, p)
    ensures forall k :: Deletes(DirtyAfterAll(script, p), k) ==> Write(p, DeleteOp(k)) in script
  {
    if script != [] {
      var n := |script| - 1;
      assert script == script[..n] + [script[n]];
      DirtyIsWritten(script[..n], p);
    }
  }

  /** Deleting only what was there before the update is safe, and so is an update on prefix-free keys. */
  lemma SafeUpdateIf(v: Views, script: seq<Write>)
    requires forall p: Part ::
               || (forall k :: Write(p, DeleteOp(k)) in script ==> k in v.Of(p))
               || PrefixFree(v.Of(p).Keys + Written(script, p))
    ensures SafeUpdate(v, script)
  {
    forall p: Part
      ensures Safe(v.Of(p), DirtyAfterAll(script, p))
    {
      var dirties := DirtyAfterAll(script, p);
      DirtyIsWritten(script, p);
      if PrefixFree(v.Of(p).Keys + Written(script, p)) {
        PrefixFreeIsSafe(v.Of(p), dirties);
      } else {
        PresentDeletionsAreSafe(v.Of(p), dirties);
      }
    }
  }

  // --------------------------------------------------------------------------------------------
  // The block state
  // --------------------------------------------------------------------------------------------

  class BlockState {
    const accounts: Batch
    const transactions: Batch
    const candidates: Batch
    const dynasty: Batch

    ghost predicate Valid()
      reads accounts, accounts.trie, accounts.trie.storage
      reads transactions, transactions.trie, transactions.trie.storage
      reads candidates, candidates.trie, candidates.trie.storage
      reads dynasty, dynasty.trie, dynasty.trie.storage
    {
      && accounts != transactions && accounts != candidates && accounts != dynasty
      && transactions != candidates && transactions != dynasty && candidates != dynasty
      && accounts.trie != transactions.trie && accounts.trie != candidates.trie && accounts.trie != dynasty.trie
      && transactions.trie != candidates.trie && transactions.trie != dynasty.trie && candidates.trie != dynasty.trie
      && accounts.trie.storage == transactions.trie.storage == candidates.trie.storage == dynasty.trie.storage
      && accounts.Valid() && transactions.Valid() && candidates.Valid() && dynasty.Valid()
    }

    constructor (storage: Storage)
      requires Sound(storage.nodes)
      ensures Valid() && Idle() && accounts.trie.storage == storage
      ensures Committed() == Views(map[], map[], map[], map[])
    {
      accounts := new Batch(storage);
      transactions := new Batch(storage);
      candidates := new Batch(storage);
      dynasty := new Batch(storage);
    }

    ghost predicate Idle()
      reads accounts, transactions, candidates, dynasty
    {
      !accounts.batching && !transactions.batching && !candidates.batching && !dynasty.batching
    }

    ghost predicate Open()
      reads accounts, transactions, candidates, dynasty
    {
      accounts.batching && transactions.batching && candidates.batching && dynasty.batching
    }

    /** What is in the tries. */
    ghost function Committed(): Views
      reads accounts.trie, transactions.trie, candidates.trie, dynasty.trie
    {
      Views(accounts.trie.contents, transactions.trie.contents, candidates.trie.contents, dynasty.trie.contents)
    }

    /** What reads see. */
    ghost function Seen(): Views
      reads accounts, transactions, candidates, dynasty
      reads accounts.trie, transactions.trie, candidates.trie, dynasty.trie
    {
      Views(accounts.View(), transactions.View(), candidates.View(), dynasty.View())
    }

    ghost function DirtyIn(p: Part): Dirties
      reads accounts, transactions, candidates, dynasty
    {
      match p
      case Accounts => accounts.dirties
      case Transactions => transactions.dirties
      case Candidates => candidates.dirties
      case Dynasty => dynasty.dirties
    }

    method BeginBatch() returns (ok: bool)
      requires Valid()
      modifies accounts, transactions, candidates, dynasty
      ensures Valid() && ok == old(Idle())
      ensures ok ==> Open() && Seen() == Committed() && forall p: Part :: DirtyIn(p) == map[]
    {
      var r := accounts.BeginBatch();
      if r.Err? {
        return false;
      }
      r := transactions.BeginBatch();
      if r.Err? {
        return false;
      }
      r := candidates.BeginBatch();
      if r.Err? {
        return false;
      }
      r := dynasty.BeginBatch();
      return r.Ok?;
    }

    method RollBack()
      requires Valid() && Open()
      modifies accounts, transactions, candidates, dynasty
      ensures Valid() && Idle()
    {
      var _ := accounts.RollBack();
      var _ := transactions.RollBack();
      var _ := candidates.RollBack();
      var _ := dynasty.RollBack();
    }

    method Write(w: Write) returns (ok: bool)
      requires Valid() && Open()
      modifies accounts, transactions, candidates, dynasty
      ensures Valid() && Open()
      ensures ok == AfterWrite(old(Seen()), w).Some?
      ensures ok ==> Seen() == AfterWrite(old(Seen()), w).value
      ensures ok ==> forall p: Part ::
                DirtyIn(p) == if p == w.part then DirtyAfter(old(DirtyIn(p)), w.op) else old(DirtyIn(p))
    {
      match w.part
      case Accounts => ok := WriteTo(accounts, w.op);
      case Transactions => ok := WriteTo(transactions, w.op);
      case Candidates => ok := WriteTo(candidates, w.op);
      case Dynasty => ok := WriteTo(dynasty, w.op);
    }

    static method WriteTo(batch: Batch, op: Op) returns (ok: bool)
      requires batch.Valid() && batch.batching
      modifies batch
      ensures batch.Valid() && batch.batching
      ensures ok == !(op.DeleteOp? && op.key !in old(batch.View()))
      ensures ok ==> batch.View() == MapStep(old(batch.View()), op) && batch.dirties == DirtyAfter(old(batch.dirties), op)
    {
      match op
      case PutOp(key, value) =>
        batch.BatchPut(key, value);
        return true;
      case DeleteOp(key) =>
        var r := batch.BatchDelete(key);
        return r.Ok?;
    }

    /** Commits part after part; if every part is safe the tries end up with what reads saw. */
    method Commit()
      requires Valid() && Open()
      modifies accounts, accounts.trie, accounts.trie.storage
      modifies transactions, transactions.trie, candidates, candidates.trie, dynasty, dynasty.trie
      ensures Valid() && Idle()
      ensures (forall p: Part :: Safe(old(Committed()).Of(p), old(DirtyIn(p)))) ==> Committed() == old(Seen())
    {
      assert Safe(old(Committed()).Of(Accounts), old(DirtyIn(Accounts))) ==>
             Safe(accounts.trie.contents, accounts.dirties);
      assert Safe(old(Committed()).Of(Transactions), old(DirtyIn(Transactions))) ==>
             Safe(transactions.trie.contents, transactions.dirties);
      assert Safe(old(Committed()).Of(Candidates), old(DirtyIn(Candidates))) ==>
             Safe(candidates.trie.contents, candidates.dirties);
      assert Safe(old(Committed()).Of(Dynasty), old(DirtyIn(Dynasty))) ==>
             Safe(dynasty.trie.contents, dynasty.dirties);
      var _, _ := accounts.Commit();
      transactions.StaysValid();
      candidates.StaysValid();
      dynasty.StaysValid();
      label A:
      var _, _ := transactions.Commit();
      accounts.StaysValid@A();
      candidates.StaysValid@A();
      dynasty.StaysValid@A();
      label B:
      var _, _ := candidates.Commit();
      accounts.StaysValid@B();
      transactions.StaysValid@B();
      dynasty.StaysValid@B();
      label C:
      var _, _ := dynasty.Commit();
      accounts.StaysValid@C();
      transactions.StaysValid@C();
      candidates.StaysValid@C();
    }

    method RunScript(script: seq<Write>) returns (ok: bool)
      requires Valid() && Open() && forall p: Part :: DirtyIn(p) == map[]
      modifies accounts, transactions, candidates, dynasty
      ensures Valid() && Open()
      ensures ok == AfterWrites(old(Seen()), script).Some?
      ensures ok ==> Seen() == AfterWrites(old(Seen()), script).value
      ensures ok ==> forall p: Part :: DirtyIn(p) == DirtyAfterAll(script, p)
    {
      for i := 0 to |script|
        invariant Valid() && Open()
        invariant AfterWrites(old(Seen()), script[..i]) == Some(Seen())
        invariant forall p: Part :: DirtyIn(p) == DirtyAfterAll(script[..i], p)
      {
        AfterOneMore(old(Seen()), script, i);
        assert script[..i + 1][..i] == script[..i];
        var done := Write(script[i]);
        if !done {
          FailureStays(old(Seen()), script, i + 1);
          return false;
        }
      }
      assert script[..|script|] == script;
      return true;
    }

    /**
     Runs an update, given as the writes it makes before it returns and whether it returns an error.
     Either all four parts take all of its writes or none of them changes.
     */
    method Atomic(script: seq<Write>, fails: bool) returns (execErr: bool, err: bool)
      requires Valid()
      modifies accounts, accounts.trie, accounts.trie.storage
      modifies transactions, transactions.trie, candidates, candidates.trie, dynasty, dynasty.trie
      ensures Valid() && err == !old(Idle()) && (err ==> !execErr)
      ensures !err ==> Idle() && execErr == (fails || AfterWrites(old(Committed()), script).None?)
      ensures err || execErr ==>
                Committed() == old(Committed()) && accounts.trie.storage.nodes == old(accounts.trie.storage.nodes)
      ensures !err && !execErr && SafeUpdate(old(Committed()), script) ==>
                Committed() == AfterWrites(old(Committed()), script).value
    {
      var begun := BeginBatch();
      if !begun {
        return false, true;
      }
      var ok := RunScript(script);
      if !ok || fails {
        RollBack();
        return true, false;
      }
      assert SafeUpdate(old(Committed()), script) ==> forall p: Part :: Safe(Committed().Of(p), DirtyIn(p));
      Commit();
      return false, false;
    }
  }
}
