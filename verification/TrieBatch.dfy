/**
 The batch overlay: writes are collected in a table of dirty keys and replayed on the trie at
 commit, in whatever order the table yields its keys.
 */
module TrieBatch {
  import opened Options
  import opened TrieNodes
  import opened Tries
  import opened TrieHistory

  datatype Dirty = Dirty(value: Value, deleteFlag: bool)

  type Dirties = map<Key, Dirty>

  /** The entries as they will be once the writes are applied. */
  ghost function Overlay(m: Entries, dirties: Dirties): Entries {
    map k | k in m.Keys + dirties.Keys && !(k in dirties && dirties[k].deleteFlag) ::
      if k in dirties then dirties[k].value else m[k]
  }

  lemma OverlayPut(m: Entries, dirties: Dirties, key: Key, value: Value)
    ensures Overlay(m, dirties[key := Dirty(value, false)]) == Overlay(m, dirties)[key := value]
  {
  }

  lemma OverlayDelete(m: Entries, dirties: Dirties, key: Key, value: Value)
    ensures Overlay(m, dirties[key := Dirty(value, true)]) == Overlay(m, dirties) - {key}
  {
  }

  ghost function OpOf(dirties: Dirties, key: Key): Op
    requires key in dirties
  {
    if dirties[key].deleteFlag then DeleteOp(key) else PutOp(key, dirties[key].value)
  }

  /** An order in which every dirty key comes exactly once. */
  ghost predicate IsOrder(order: seq<Key>, keys: set<Key>) {
    && (forall k :: k in order <==> k in keys)
    && forall i, j :: 0 <= i < j < |order| ==> order[i] != order[j]
  }

  ghost function Replayed(m: Entries, dirties: Dirties, order: seq<Key>): Entries
    requires forall k :: k in order ==> k in dirties
  {
    if order == [] then m
    else TrieStep(Replayed(m, dirties, order[..|order| - 1]), OpOf(dirties, order[|order| - 1]))
  }

  lemma ReplayedStep(m: Entries, dirties: Dirties, order: seq<Key>, key: Key)
    requires key in dirties && forall k :: k in order ==> k in dirties
    ensures Replayed(m, dirties, order + [key]) == TrieStep(Replayed(m, dirties, order), OpOf(dirties, key))
  {
    assert (order + [key])[..|order|] == order;
  }

  lemma OrderExtends(order: seq<Key>, keys: set<Key>, key: Key)
    requires IsOrder(order, keys) && key !in keys
    ensures IsOrder(order + [key], keys + {key})
  {
  }

  // --------------------------------------------------------------------------------------------
  // When replaying gives the overlay
  // --------------------------------------------------------------------------------------------

  ghost function Only(dirties: Dirties, keys: seq<Key>): Dirties {
    map k | k in dirties && k in keys :: dirties[k]
  }

  lemma OverlayStep(m: Entries, dirties: Dirties, done: seq<Key>, key: Key)
    requires key in dirties && key !in done
    ensures var cur := Overlay(m, Only(dirties, done));
            Overlay(m, Only(dirties, done + [key])) ==
            if dirties[key].deleteFlag then cur - {key} else cur[key := dirties[key].value]
  {
    assert Only(dirties, done + [key]) == Only(dirties, done)[key := dirties[key]];
  }

  /** The batch deletes the key. */
  ghost predicate Deletes(dirties: Dirties, key: Key) {
    key in dirties && dirties[key].deleteFlag
  }

  /**
   Replaying the deletion of k, which is not in the base, can take p along: p is a proper prefix of k
   that has to stay, and every key of the base that extends p is deleted by the batch as well.
   */
  ghost predicate Misfires(m: Entries, dirties: Dirties, k: Key, p: Key) {
    && Deletes(dirties, k) && k !in m && p <= k && p != k && p in Overlay(m, dirties)
    && forall q :: q in m && p <= q && q != p ==> Deletes(dirties, q)
  }

  ghost predicate Safe(m: Entries, dirties: Dirties) {
    forall k, p :: !Misfires(m, dirties, k, p)
  }

  /** A batch that deletes only what is in the base is safe, whatever its keys. */
  lemma PresentDeletionsAreSafe(m: Entries, dirties: Dirties)
    requires forall k :: Deletes(dirties, k) ==> k in m
    ensures Safe(m, dirties)
  {
  }

  lemma PrefixFreeIsSafe(m: Entries, dirties: Dirties)
    requires PrefixFree(m.Keys + dirties.Keys)
    ensures Safe(m, dirties)
  {
  }

  /** A key of the base that the batch deletes anyway, and that a deletion of a longer key can take along. */
  ghost predicate Spent(m: Entries, dirties: Dirties, x: Key) {
    x in m && Deletes(dirties, x) && exists k :: Deletes(dirties, k) && k !in m && x <= k && x != k
  }

  /** The trie in the middle of a replay: the overlay of what is done, but for keys deleted early. */
  ghost predicate Near(m: Entries, dirties: Dirties, exact: Entries, cur: Entries) {
    && (forall x :: x in cur ==> x in exact && cur[x] == exact[x])
    && forall x :: x in exact && x !in cur ==> Spent(m, dirties, x)
  }

  /** In a safe batch, what the deletion of an absent key takes along is deleted by the batch anyway. */
  lemma ShadowIsSpent(m: Entries, dirties: Dirties, done: seq<Key>, cur: Entries, key: Key, p: Key)
    requires Safe(m, dirties) && Deletes(dirties, key) && key !in done && key !in cur
    requires Near(m, dirties, Overlay(m, Only(dirties, done)), cur) && ShadowedBy(cur, key, p)
    ensures Spent(m, dirties, p)
  {
    var k := key;
    if key in m {
      assert Spent(m, dirties, key);
      k :| Deletes(dirties, k) && k !in m && key <= k && key != k;
    }
    assert forall q :: q in m && !Deletes(dirties, q) ==> q in Overlay(m, Only(dirties, done)) && q in cur;
    assert !Misfires(m, dirties, k, p);
    if p in Overlay(m, dirties) {
      assert false;
    }
  }

  lemma NearStep(m: Entries, dirties: Dirties, done: seq<Key>, cur: Entries, key: Key)
    requires Safe(m, dirties) && key in dirties && key !in done
    requires Near(m, dirties, Overlay(m, Only(dirties, done)), cur)
    ensures Near(m, dirties, Overlay(m, Only(dirties, done + [key])), TrieStep(cur, OpOf(dirties, key)))
  {
    OverlayStep(m, dirties, done, key);
    if dirties[key].deleteFlag && key !in cur && Shadowed(cur, key) {
      ShadowIsSpent(m, dirties, done, cur, key, ShadowOf(cur, key));
    }
  }

  lemma {:induction false} ReplayedIsNear(m: Entries, dirties: Dirties, order: seq<Key>)
    requires Safe(m, dirties)
    requires forall k :: k in order ==> k in dirties
    requires forall i, j :: 0 <= i < j < |order| ==> order[i] != order[j]
    ensures Near(m, dirties, Overlay(m, Only(dirties, order)), Replayed(m, dirties, order))
  {
    if order != [] {
      var done, key := order[..|order| - 1], order[|order| - 1];
      assert order == done + [key];
      ReplayedIsNear(m, dirties, done);
      NearStep(m, dirties, done, Replayed(m, dirties, done), key);
    }
  }

  /** A safe batch is committed rightly in every order. */
  lemma CommitGivesOverlay(m: Entries, dirties: Dirties, order: seq<Key>)
    requires Safe(m, dirties) && IsOrder(order, dirties.Keys)
    ensures Replayed(m, dirties, order) == Overlay(m, dirties)
  {
    ReplayedIsNear(m, dirties, order);
    assert Only(dirties, order) == dirties;
  }

  // An order in which a batch that is not safe goes wrong.

  lemma {:induction false} SomeOrder(keys: set<Key>) returns (order: seq<Key>)
    ensures IsOrder(order, keys)
  {
    order := [];
    if keys != {} {
      var k :| k in keys;
      order := SomeOrder(keys - {k});
      OrderExtends(order, keys - {k}, k);
      assert keys - {k} + {k} == keys;
      order := order + [k];
    }
  }

  lemma OrdersJoin(a: seq<Key>, keysA: set<Key>, b: seq<Key>, keysB: set<Key>)
    requires IsOrder(a, keysA) && IsOrder(b, keysB) && keysA !! keysB
    ensures IsOrder(a + b, keysA + keysB)
  {
    forall i, j | 0 <= i < j < |a + b|
      ensures (a + b)[i] != (a + b)[j]
    {
      if i < |a| <= j {
        assert a[i] in a && b[j - |a|] in b;
      }
    }
  }

  lemma {:induction false} ReplayedFromThere(m: Entries, dirties: Dirties, first: seq<Key>, rest: seq<Key>)
    requires forall k :: k in first + rest ==> k in dirties
    ensures (forall k :: k in first ==> k in dirties) && (forall k :: k in rest ==> k in dirties)
    ensures Replayed(m, dirties, first + rest) == Replayed(Replayed(m, dirties, first), dirties, rest)
    decreases |rest|
  {
    assert forall k :: k in first ==> k in first + rest;
    assert forall k :: k in rest ==> k in first + rest;
    if rest == [] {
      assert first + rest == first;
    } else {
      var whole, n := first + rest, |rest| - 1;
      assert whole[..|whole| - 1] == first + rest[..n];
      ReplayedFromThere(m, dirties, first, rest[..n]);
    }
  }

  lemma {:induction false} SameReplay(m: Entries, dirties: Dirties, part: Dirties, order: seq<Key>)
    requires forall k :: k in order ==> k in dirties && k in part && part[k] == dirties[k]
    ensures Replayed(m, dirties, order) == Replayed(m, part, order)
  {
    if order != [] {
      SameReplay(m, dirties, part, order[..|order| - 1]);
    }
  }

  lemma {:induction false} StaysGone(m: Entries, dirties: Dirties, order: seq<Key>, p: Key)
    requires p !in m && p !in order && forall k :: k in order ==> k in dirties
    ensures p !in Replayed(m, dirties, order)
  {
    if order != [] {
      StaysGone(m, dirties, order[..|order| - 1], p);
    }
  }

  /** Once the batch has dealt with p and what extends it, the deletion of k hits p. */
  lemma HitsPrefix(m: Entries, dirties: Dirties, k: Key, p: Key, first: seq<Key>)
    requires Misfires(m, dirties, k, p)
    requires IsOrder(first, set q | q in dirties && (q == p || (q in m && p <= q)))
    ensures p !in Replayed(m, dirties, first + [k])
  {
    var part := Only(dirties, first);
    PresentDeletionsAreSafe(m, part);
    CommitGivesOverlay(m, part, first);
    SameReplay(m, dirties, part, first);
    var cur := Overlay(m, part);
    assert ShadowedBy(cur, k, p);
    DeletedVictim(cur, k, p);
    ReplayedStep(m, dirties, first, k);
  }

  lemma MisfireGoesWrong(m: Entries, dirties: Dirties, k: Key, p: Key) returns (order: seq<Key>)
    requires Misfires(m, dirties, k, p)
    ensures IsOrder(order, dirties.Keys) && Replayed(m, dirties, order) != Overlay(m, dirties)
  {
    var before := set q | q in dirties && (q == p || (q in m && p <= q));
    var first := SomeOrder(before);
    var rest := SomeOrder(dirties.Keys - before - {k});
    HitsPrefix(m, dirties, k, p, first);
    OrderExtends(first, before, k);
    OrdersJoin(first + [k], before + {k}, rest, dirties.Keys - before - {k});
    assert before + {k} + (dirties.Keys - before - {k}) == dirties.Keys;
    order := first + [k] + rest;
    ReplayedFromThere(m, dirties, first + [k], rest);
    StaysGone(Replayed(m, dirties, first + [k]), dirties, rest, p);
  }

  /** A batch is committed rightly in every order exactly if it is safe. */
  lemma CommitIsRightIffSafe(m: Entries, dirties: Dirties)
    ensures (forall order :: IsOrder(order, dirties.Keys) ==> Replayed(m, dirties, order) == Overlay(m, dirties)) <==>
            Safe(m, dirties)
  {
    if Safe(m, dirties) {
      forall order | IsOrder(order, dirties.Keys)
        ensures Replayed(m, dirties, order) == Overlay(m, dirties)
      {
        CommitGivesOverlay(m, dirties, order);
      }
    } else {
      var k, p :| Misfires(m, dirties, k, p);
      var order := MisfireGoesWrong(m, dirties, k, p);
    }
  }

  ghost predicate SafeOver(keys: set<Key>) {
    forall m: Entries, dirties: Dirties :: m.Keys <= keys && dirties.Keys <= keys ==> Safe(m, dirties)
  }

  /** Every batch over a set of keys is safe exactly when the set is prefix-free. */
  lemma AllSafeIffPrefixFree(keys: set<Key>)
    ensures SafeOver(keys) <==> PrefixFree(keys)
  {
    if !PrefixFree(keys) {
      var a, b :| a in keys && b in keys && a <= b && a != b;
      var m: Entries, dirties: Dirties := map[a := []], map[b := Dirty([], true)];
      assert Misfires(m, dirties, b, a);
    } else {
      forall m: Entries, dirties: Dirties | m.Keys <= keys && dirties.Keys <= keys
        ensures Safe(m, dirties)
      {
        PrefixFreeIsSafe(m, dirties);
      }
    }
  }

  // --------------------------------------------------------------------------------------------
  // The batch
  // --------------------------------------------------------------------------------------------

  class Batch {
    const trie: Trie
    var batching: bool
    var dirties: Dirties

    ghost predicate Valid()
      reads this, trie, trie.storage
    {
      trie.Valid()
    }

    /** What reads see. */
    ghost function View(): Entries
      reads this, trie
    {
      if batching then Overlay(trie.contents, dirties) else trie.contents
    }

    /** A batch stays valid when others add nodes to the store. */
    twostate lemma StaysValid()
      requires old(Valid()) && unchanged(this, trie)
      requires Sound(trie.storage.nodes) && Grows(old(trie.storage.nodes), trie.storage.nodes)
      ensures Valid()
    {
      StoredStays(old(trie.storage.nodes), trie.storage.nodes, trie.rootHash);
    }

    constructor (storage: Storage)
      requires Sound(storage.nodes)
      ensures Valid() && fresh(trie) && trie.storage == storage && trie.contents == map[] && !batching
    {
      trie := new Trie(storage);
      batching := false;
      dirties := map[];
    }

    method BeginBatch() returns (r: Result<()>)
      requires Valid()
      modifies this
      ensures Valid() && batching
      ensures r == if old(batching) then Err(AlreadyBatching) else Ok(())
      ensures r.Err? ==> dirties == old(dirties)
      ensures r.Ok? ==> dirties == map[] && View() == old(View())
    {
      if batching {
        return Err(AlreadyBatching);
      }
      dirties := map[];
      batching := true;
      assert View() == trie.contents;
      return Ok(());
    }

    /** Replays the dirty keys on the trie in the order the table yields them. */
    method Commit() returns (r: Result<()>, ghost order: seq<Key>)
      requires Valid()
      modifies this, trie, trie.storage
      ensures Valid() && !batching && Grows(old(trie.storage.nodes), trie.storage.nodes)
      ensures r == if old(batching) then Ok(()) else Err(NotBatching)
      ensures r.Err? ==> View() == old(View()) && trie.rootHash == old(trie.rootHash)
      ensures r.Ok? ==> IsOrder(order, old(dirties).Keys)
      ensures r.Ok? ==> View() == Replayed(old(trie.contents), old(dirties), order)
      ensures r.Ok? && Safe(old(trie.contents), old(dirties)) ==> View() == old(View())
    {
      order := [];
      if !batching {
        return Err(NotBatching), order;
      }
      order := ReplayAll();
      if Safe(old(trie.contents), dirties) {
        CommitGivesOverlay(old(trie.contents), dirties, order);
      }
      dirties := map[];
      batching := false;
      return Ok(()), order;
    }

    method ReplayAll() returns (ghost order: seq<Key>)
      requires Valid()
      modifies trie, trie.storage
      ensures Valid() && Grows(old(trie.storage.nodes), trie.storage.nodes)
      ensures IsOrder(order, dirties.Keys) && trie.contents == Replayed(old(trie.contents), dirties, order)
    {
      order := [];
      var todo := dirties.Keys;
      while todo != {}
        invariant trie.Valid() && Grows(old(trie.storage.nodes), trie.storage.nodes)
        invariant todo <= dirties.Keys
        invariant IsOrder(order, dirties.Keys - todo)
        invariant trie.contents == Replayed(old(trie.contents), dirties, order)
        decreases todo
      {
        var key :| key in todo;
        Apply(key, dirties[key]);
        ReplayedStep(old(trie.contents), dirties, order, key);
        OrderExtends(order, dirties.Keys - todo, key);
        assert dirties.Keys - todo + {key} == dirties.Keys - (todo - {key});
        todo := todo - {key};
        order := order + [key];
      }
    }

    /** Applies one write to the trie; deleting a key that is not there is no error. */
    method Apply(key: Key, d: Dirty)
      requires Valid()
      modifies trie, trie.storage
      ensures Valid() && Grows(old(trie.storage.nodes), trie.storage.nodes)
      ensures trie.contents == TrieStep(old(trie.contents), OpOf(map[key := d], key))
    {
      if d.deleteFlag {
        ghost var m := trie.contents;
        var r, victim := trie.Delete(key);
        DeleteOutcome(m, key, r.Ok?, victim, trie.contents);
      } else {
        trie.Put(key, d.value);
      }
    }

    method RollBack() returns (r: Result<()>)
      requires Valid()
      modifies this
      ensures Valid() && !batching && View() == trie.contents
      ensures r == if old(batching) then Ok(()) else Err(NotBatching)
      ensures r.Ok? ==> dirties == map[]
    {
      if !batching {
        return Err(NotBatching);
      }
      dirties := map[];
      batching := false;
      return Ok(());
    }

    method Get(key: Key) returns (r: Result<Value>)
      requires Valid()
      ensures r == if key in View() then Ok(View()[key]) else Err(NotFound)
    {
      if batching && key in dirties {
        if dirties[key].deleteFlag {
          return Err(NotFound);
        }
        return Ok(dirties[key].value);
      }
      r := trie.Get(key);
    }

    method Put(key: Key, value: Value)
      requires Valid()
      modifies this, trie, trie.storage
      ensures Valid() && batching == old(batching) && Grows(old(trie.storage.nodes), trie.storage.nodes)
      ensures View() == old(View())[key := value]
      ensures batching ==> trie.contents == old(trie.contents) && trie.rootHash == old(trie.rootHash)
      ensures batching ==> dirties.Keys == old(dirties).Keys + {key}
    {
      if batching {
        BatchPut(key, value);
      } else {
        trie.Put(key, value);
      }
    }

    method BatchPut(key: Key, value: Value)
      requires Valid() && batching
      modifies this
      ensures batching && dirties == old(dirties)[key := Dirty(value, false)]
      ensures View() == old(View())[key := value]
    {
      OverlayPut(trie.contents, dirties, key, value);
      dirties := dirties[key := Dirty(value, false)];
    }

    method Delete(key: Key) returns (r: Result<()>)
      requires Valid()
      modifies this, trie, trie.storage
      ensures Valid() && batching == old(batching) && Grows(old(trie.storage.nodes), trie.storage.nodes)
      ensures batching ==> trie.contents == old(trie.contents) && trie.rootHash == old(trie.rootHash)
      ensures batching ==> View() == old(View()) - {key}
      ensures batching ==> r == if key in old(View()) then Ok(()) else Err(NotFound)
      ensures batching ==> dirties.Keys <= old(dirties).Keys + {key}
      ensures !batching ==> View() == TrieDeleted(old(View()), key)
      ensures !batching ==> r == if TrieFinds(old(View()), key) then Ok(()) else Err(NotFound)
    {
      if batching {
        r := BatchDelete(key);
      } else {
        ghost var m, victim := trie.contents, [];
        r, victim := trie.Delete(key);
        DeleteOutcome(m, key, r.Ok?, victim, trie.contents);
      }
    }

    method BatchDelete(key: Key) returns (r: Result<()>)
      requires Valid() && batching
      modifies this
      ensures batching && View() == old(View()) - {key}
      ensures dirties == if r.Err? then old(dirties)
                else old(dirties)[key := Dirty(if key in old(dirties) then old(dirties)[key].value else [], true)]
      ensures r == if key in old(View()) then Ok(()) else Err(NotFound)
    {
      if key in dirties {
        if dirties[key].deleteFlag {
          return Err(NotFound);
        }
        OverlayDelete(trie.contents, dirties, key, dirties[key].value);
        dirties := dirties[key := Dirty(dirties[key].value, true)];
        return Ok(());
      }
      var found := trie.Get(key);
      if found.Err? {
        return Err(found.error);
      }
      OverlayDelete(trie.contents, dirties, key, []);
      dirties := dirties[key := Dirty([], true)];
      return Ok(());
    }

    /** The root hash is not available while a batch is open. */
    method RootHash() returns (r: Result<Digest>)
      ensures r == if batching then Err(AlreadyBatching) else Ok(trie.rootHash)
    {
      if batching {
        return Err(AlreadyBatching);
      }
      return Ok(trie.rootHash);
    }
  }

  /**
   Two batches that start from equal tries and hold the same writes reach the same root hash,
   however their tables order the keys.
   */
  lemma CommitOrderLeavesNoTrace(a: Trie, b: Trie, m: Entries, dirties: Dirties,
                                 orderA: seq<Key>, orderB: seq<Key>)
    requires a.Valid() && b.Valid()
    requires Safe(m, dirties)
    requires IsOrder(orderA, dirties.Keys) && a.contents == Replayed(m, dirties, orderA)
    requires IsOrder(orderB, dirties.Keys) && b.contents == Replayed(m, dirties, orderB)
    ensures a.rootHash == b.rootHash
  {
    CommitGivesOverlay(m, dirties, orderA);
    CommitGivesOverlay(m, dirties, orderB);
    EntriesDetermineRoot(a, b);
  }
}
