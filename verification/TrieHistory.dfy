/**
 Whole histories of a trie.  The entries a history leaves behind are a function of the history, and
 the root hash is a function of the entries, so the order and the detours of a history leave no
 trace in the root hash.
 */
module TrieHistory {
  import opened TrieNodes
  import opened TrieKeys
  import opened Tries

  type Entries = map<Key, Value>

  datatype Op = PutOp(key: Key, value: Value) | DeleteOp(key: Key)

  /** Two tries with the same entries have the same root hash. */
  lemma EntriesDetermineRoot(a: Trie, b: Trie)
    requires a.Valid() && b.Valid() && a.contents == b.contents
    ensures a.rootHash == b.rootHash
  {
    CanonicalFormIsUnique(a.rootHash, b.rootHash);
  }

  /** Valid tries have the same root hash exactly if they have the same entries. */
  lemma SameRootIffSameEntries(a: Trie, b: Trie)
    requires a.Valid() && b.Valid()
    ensures a.rootHash == b.rootHash <==> a.contents == b.contents
  {
    if a.contents == b.contents {
      EntriesDetermineRoot(a, b);
    }
    if a.rootHash == b.rootHash {
      forall key: Key
        ensures key in a.contents <==> key in b.contents
        ensures key in a.contents && key in b.contents ==> a.contents[key] == b.contents[key]
      {
        LookupKey(a.rootHash, a.contents, key);
        LookupKey(b.rootHash, b.contents, key);
      }
    }
  }

  // --------------------------------------------------------------------------------------------
  // Deletion against deletion from a plain map
  // --------------------------------------------------------------------------------------------

  /** A stored proper prefix of the key that no other stored key extends. */
  ghost predicate ShadowedBy(m: Entries, key: Key, k: Key) {
    k in m && k <= key && k != key && forall x :: x in m && k <= x ==> x == k
  }

  ghost predicate Shadowed(m: Entries, key: Key) {
    exists k :: ShadowedBy(m, key, k)
  }

  ghost function ShadowOf(m: Entries, key: Key): (k: Key)
    requires Shadowed(m, key)
    ensures ShadowedBy(m, key, k)
  {
    var k :| ShadowedBy(m, key, k); k
  }

  /** Whether the trie reports success when it deletes a key, and the entries that remain. */
  ghost predicate TrieFinds(m: Entries, key: Key) {
    key in m || Shadowed(m, key)
  }

  ghost function TrieDeleted(m: Entries, key: Key): Entries {
    if key in m then m - {key}
    else if Shadowed(m, key) then m - {ShadowOf(m, key)}
    else m
  }

  lemma DeletedVictim(m: Entries, key: Key, k: Key)
    requires MapVictim(m, key, k)
    ensures TrieFinds(m, key) && TrieDeleted(m, key) == m - {k}
  {
    if key !in m {
      assert ShadowedBy(m, key, k);
      var l := ShadowOf(m, key);
      assert k <= l || l <= k;
    }
  }

  lemma NoVictim(m: Entries, key: Key)
    requires forall k :: !MapVictim(m, key, k)
    ensures !TrieFinds(m, key) && TrieDeleted(m, key) == m
  {
    assert !MapVictim(m, key, key);
    forall k
      ensures !ShadowedBy(m, key, k)
    {
      assert !MapVictim(m, key, k);
    }
  }

  lemma DeleteOutcome(m: Entries, key: Key, ok: bool, victim: Key, m': Entries)
    requires ok ==> MapVictim(m, key, victim) && m' == m - {victim}
    requires !ok ==> m' == m && forall k :: !MapVictim(m, key, k)
    ensures m' == TrieDeleted(m, key) && ok == TrieFinds(m, key)
  {
    if ok {
      DeletedVictim(m, key, victim);
    } else {
      NoVictim(m, key);
    }
  }

  /**
   The trie deletes as a map does (the entry at the key and no other, success exactly when the key
   is present) if and only if no stored proper prefix shadows the key.
   */
  lemma DeletesAsMapIffNotShadowed(m: Entries, key: Key)
    ensures TrieDeleted(m, key) == m - {key} && (TrieFinds(m, key) <==> key in m) <==> !Shadowed(m, key)
  {
    if !Shadowed(m, key) && key !in m {
      assert m - {key} == m;
    }
  }

  /** Deleting an absent key can remove another one. */
  lemma DeleteOfAbsentKeyCanHitAPrefix()
    ensures var m: Entries := map[[1] := [7]];
            [1, 2] !in m && TrieFinds(m, [1, 2]) && TrieDeleted(m, [1, 2]) == map[]
  {
    var m: Entries := map[[1] := [7]];
    assert ShadowedBy(m, [1, 2], [1]);
    assert m - {[1]} == map[];
  }

  /** Present keys are never shadowed; nor is any key of a prefix-free set. */
  lemma NotShadowed(m: Entries, key: Key)
    requires key in m || PrefixFree(m.Keys + {key})
    ensures !Shadowed(m, key)
  {
  }

  ghost predicate PrefixFree(keys: set<Key>) {
    forall a, b :: a in keys && b in keys && a <= b ==> a == b
  }

  // --------------------------------------------------------------------------------------------
  // Histories
  // --------------------------------------------------------------------------------------------

  ghost function TrieStep(m: Entries, op: Op): Entries {
    match op
    case PutOp(key, value) => m[key := value]
    case DeleteOp(key) => TrieDeleted(m, key)
  }

  ghost function TrieRun(ops: seq<Op>): Entries {
    if ops == [] then map[] else TrieStep(TrieRun(ops[..|ops| - 1]), ops[|ops| - 1])
  }

  ghost function MapStep(m: Entries, op: Op): Entries {
    match op
    case PutOp(key, value) => m[key := value]
    case DeleteOp(key) => m - {key}
  }

  ghost function MapRun(ops: seq<Op>): Entries {
    if ops == [] then map[] else MapStep(MapRun(ops[..|ops| - 1]), ops[|ops| - 1])
  }

  /** Every deletion in the history is of a key that is not shadowed at that point. */
  ghost predicate Clean(ops: seq<Op>) {
    forall i :: 0 <= i < |ops| && ops[i].DeleteOp? ==> !Shadowed(MapRun(ops[..i]), ops[i].key)
  }

  lemma {:induction false} CleanRunIsMapRun(ops: seq<Op>)
    requires Clean(ops)
    ensures TrieRun(ops) == MapRun(ops)
  {
    if ops != [] {
      var n := |ops| - 1;
      forall i | 0 <= i < n
        ensures ops[..n][..i] == ops[..i]
      {
      }
      CleanRunIsMapRun(ops[..n]);
      if ops[n].DeleteOp? {
        DeletesAsMapIffNotShadowed(MapRun(ops[..n]), ops[n].key);
      }
    }
  }

  /** Carries out a history on a new trie. */
  method Replay(storage: Storage, ops: seq<Op>) returns (t: Trie)
    requires Sound(storage.nodes)
    modifies storage
    ensures fresh(t) && t.storage == storage && t.Valid() && Grows(old(storage.nodes), storage.nodes)
    ensures t.contents == TrieRun(ops)
  {
    t := new Trie(storage);
    for i := 0 to |ops|
      invariant fresh(t) && t.storage == storage && t.Valid() && Grows(old(storage.nodes), storage.nodes)
      invariant t.contents == TrieRun(ops[..i])
    {
      assert ops[..i + 1][..i] == ops[..i];
      match ops[i]
      case PutOp(key, value) =>
        t.Put(key, value);
      case DeleteOp(key) =>
        ghost var m := t.contents;
        var r, victim := t.Delete(key);
        DeleteOutcome(m, key, r.Ok?, victim, t.contents);
    }
    assert ops[..|ops|] == ops;
  }

  /**
   History independence: two clean histories with the same outcome as plain maps leave the same
   trie, whatever stores they ran on.
   */
  lemma HistoryIndependence(a: Trie, opsA: seq<Op>, b: Trie, opsB: seq<Op>)
    requires a.Valid() && a.contents == TrieRun(opsA) && Clean(opsA)
    requires b.Valid() && b.contents == TrieRun(opsB) && Clean(opsB)
    requires MapRun(opsA) == MapRun(opsB)
    ensures a.rootHash == b.rootHash
  {
    CleanRunIsMapRun(opsA);
    CleanRunIsMapRun(opsB);
    EntriesDetermineRoot(a, b);
  }
}
