/**
 The trie itself: nodes are read from and saved to a store that is addressed by node hash and only
 grows; the trie object changes its root hash.
 */
module Tries {
  import opened Options
  import opened TrieNodes
  import opened TrieKeys
  import opened TrieLaws

  datatype Error = NotFound | InvalidNodeType | AlreadyBatching | NotBatching

  type Result<T> = Outcome<T, Error>

  type Nodes = map<Digest, Node>

  /** Every stored node is stored under its own hash. */
  ghost predicate Sound(nodes: Nodes) {
    forall h :: h in nodes ==> h == Hash(nodes[h])
  }

  /** Nothing that was stored is lost or changed. */
  ghost predicate Grows(nodes: Nodes, nodes': Nodes) {
    forall h :: h in nodes ==> h in nodes' && nodes'[h] == nodes[h]
  }

  /** Every node of the trie is in the store. */
  ghost predicate Stored(nodes: Nodes, d: Digest)
    decreases d
  {
    d.Hash? ==>
      && d in nodes
      && match d.node
         case Val(_) => true
         case Ext(_, next) => Stored(nodes, next)
         case Branch(slots) => forall i :: 0 <= i < |slots| ==> Stored(nodes, slots[i])
  }

  lemma {:induction false} StoredStays(nodes: Nodes, nodes': Nodes, d: Digest)
    requires Grows(nodes, nodes') && Stored(nodes, d)
    ensures Stored(nodes', d)
    decreases d
  {
    if d.Hash? {
      match d.node
      case Val(_) =>
      case Ext(_, next) => StoredStays(nodes, nodes', next);
      case Branch(slots) =>
        forall i | 0 <= i < |slots| {
          StoredStays(nodes, nodes', slots[i]);
        }
    }
  }

  class Storage {
    var nodes: Nodes

    constructor ()
      ensures nodes == map[]
    {
      nodes := map[];
    }
  }

  /** A trie that can be worked on: canonical, with every node in a sound store. */
  ghost predicate Good(nodes: Nodes, d: Digest) {
    Sound(nodes) && Stored(nodes, d) && Canonical(d)
  }

  /** The outcome of putting v at r in d. */
  ghost predicate IsPut(nodes: Nodes, d: Digest, r: Route, v: Value, nodes': Nodes, d': Digest) {
    && Good(nodes', d') && Grows(nodes, nodes')
    && d'.Hash?
    && PutLaw(d, r, v, d')
    && (d.Hash? && !d.node.Ext? ==> !d'.node.Ext?)
  }

  /** The outcome of removing the key k from d. */
  ghost predicate IsRemove(nodes: Nodes, d: Digest, k: Route, nodes': Nodes, d': Digest) {
    Good(nodes', d') && Grows(nodes, nodes') && RemoveLaw(d, k, d')
  }

  class Trie {
    var rootHash: Digest
    const storage: Storage
    ghost var contents: map<Key, Value>

    ghost predicate Valid()
      reads this, storage
    {
      Good(storage.nodes, rootHash) && Represents(rootHash, contents)
    }

    constructor (storage: Storage)
      requires Sound(storage.nodes)
      ensures Valid() && this.storage == storage && contents == map[] && rootHash == Empty
    {
      this.storage := storage;
      rootHash := Empty;
      contents := map[];
    }

    /** A second trie over the same store with the same root. */
    constructor Clone(t: Trie)
      requires t.Valid()
      ensures Valid() && storage == t.storage && contents == t.contents && rootHash == t.rootHash
    {
      storage := t.storage;
      rootHash := t.rootHash;
      contents := t.contents;
    }

    // ------------------------------------------------------------------------------------------
    // Nodes
    // ------------------------------------------------------------------------------------------

    method FetchNode(hash: Digest) returns (r: Result<Node>)
      requires Sound(storage.nodes)
      ensures r.Ok? <==> hash in storage.nodes
      ensures r.Ok? ==> hash == Hash(r.value)
      ensures r.Err? ==> r.error == NotFound
    {
      if hash !in storage.nodes {
        return Err(NotFound);
      }
      return Ok(storage.nodes[hash]);
    }

    /** Saves a node whose children are saved. */
    method SaveNode(n: Node) returns (hash: Digest)
      requires Sound(storage.nodes)
      requires match n
               case Val(_) => true
               case Ext(_, next) => Stored(storage.nodes, next)
               case Branch(slots) => forall i :: 0 <= i < |slots| ==> Stored(storage.nodes, slots[i])
      modifies storage
      ensures hash == Hash(n) && storage.nodes == old(storage.nodes)[hash := n]
      ensures Sound(storage.nodes) && Grows(old(storage.nodes), storage.nodes)
      ensures Stored(storage.nodes, hash)
    {
      hash := Hash(n);
      storage.nodes := storage.nodes[hash := n];
      if n.Ext? {
        StoredStays(old(storage.nodes), storage.nodes, n.next);
      } else if n.Branch? {
        forall i | 0 <= i < |n.slots| {
          StoredStays(old(storage.nodes), storage.nodes, n.slots[i]);
        }
      }
    }

    /** Saves an extension over a path, or nothing when the path is empty. */
    method SaveUnder(path: Route, d: Digest) returns (hash: Digest)
      requires Sound(storage.nodes) && Stored(storage.nodes, d)
      modifies storage
      ensures hash == Under(path, d)
      ensures Sound(storage.nodes) && Grows(old(storage.nodes), storage.nodes)
      ensures Stored(storage.nodes, hash)
    {
      if |path| > 0 {
        hash := SaveNode(Ext(path, d));
      } else {
        hash := d;
      }
    }

    // ------------------------------------------------------------------------------------------
    // Get
    // ------------------------------------------------------------------------------------------

    method GetRoute(root: Digest, route: Route) returns (r: Result<Value>)
      requires Good(storage.nodes, root)
      ensures r == match Lookup(root, route) case Some(v) => Ok(v) case None => Err(NotFound)
    {
      var cur, rest := root, route;
      while true
        invariant Good(storage.nodes, cur)
        invariant Lookup(cur, rest) == Lookup(root, route)
        decreases cur
      {
        var node :- FetchNode(cur);
        match node
        case Branch(slots) =>
          if |rest| == 0 {
            cur := slots[16];
          } else {
            cur := slots[rest[0]];
            rest := rest[1..];
          }
        case Ext(path, next) =>
          var matchLen := PrefixLen(path, rest);
          if matchLen != |path| {
            return Err(NotFound);
          }
          cur := next;
          rest := rest[matchLen..];
        case Val(v) =>
          if |rest| != 0 {
            return Err(NotFound);
          }
          return Ok(v);
      }
    }

    method Get(key: Key) returns (r: Result<Value>)
      requires Valid()
      ensures r == if key in contents then Ok(contents[key]) else Err(NotFound)
    {
      var route := KeyToRoute(key);
      r := GetRoute(rootHash, route);
      LookupKey(rootHash, contents, key);
    }

    // ------------------------------------------------------------------------------------------
    // Put
    // ------------------------------------------------------------------------------------------

    method Update(root: Digest, route: Route, value: Value) returns (hash: Digest)
      requires Good(storage.nodes, root)
      modifies storage
      ensures IsPut(old(storage.nodes), root, route, value, storage.nodes, hash)
      decreases root, 1
    {
      if root == Empty {
        hash := SaveNode(Val(value));
        hash := SaveUnder(route, hash);
        PutIntoEmpty(route, value);
        return;
      }
      var fetched := FetchNode(root);
      var n := fetched.value;
      match n
      case Branch(_) => hash := UpdateBranch(root, n, route, value);
      case Ext(_, _) => hash := UpdateExt(root, n, route, value);
      case Val(_) => hash := UpdateVal(root, n, route, value);
    }

    method UpdateBranch(root: Digest, n: Node, route: Route, value: Value) returns (hash: Digest)
      requires root == Hash(n) && n.Branch? && Good(storage.nodes, root)
      modifies storage
      ensures IsPut(old(storage.nodes), root, route, value, storage.nodes, hash)
      decreases root, 0
    {
      ghost var before := storage.nodes;
      var index, child: Digest;
      if |route| == 0 {
        index := 16;
        child := SaveNode(Val(value));
        PutAtSlot16(n.slots, value);
      } else {
        index := route[0];
        child := Update(n.slots[route[0]], route[1..], value);
        PutBelowSlot(n.slots, route[0], route[1..], value, child);
        assert [route[0]] + route[1..] == route;
      }
      forall i | 0 <= i < 17 {
        StoredStays(before, storage.nodes, n.slots[i]);
      }
      FilledSlotsStay(n.slots, index, child);
      hash := SaveNode(Branch(n.slots[index := child]));
    }

    method UpdateExt(root: Digest, n: Node, route: Route, value: Value) returns (hash: Digest)
      requires root == Hash(n) && n.Ext? && Good(storage.nodes, root)
      modifies storage
      ensures IsPut(old(storage.nodes), root, route, value, storage.nodes, hash)
      decreases root, 0
    {
      var path, next := n.path, n.next;
      var matchLen := PrefixLen(path, route);
      if matchLen == |path| {
        var child := Update(next, route[matchLen..], value);
        PutBelowExt(path, next, route[matchLen..], value, child);
        assert path + route[matchLen..] == route;
        hash := SaveNode(Ext(path, child));
        return;
      }
      hash := SplitExt(path, next, route, matchLen, value);
      SplitIsCanonical(path, next, route, matchLen, value);
      PutSplits(path, next, route, matchLen, value);
      hash := SaveUnder(path[..matchLen], hash);
    }

    /** Saves the branch at which a path and a route part. */
    method SplitExt(path: Route, next: Digest, route: Route, matchLen: nat, value: Value) returns (hash: Digest)
      requires matchLen < |path| && matchLen <= |route|
      requires matchLen < |route| ==> path[matchLen] != route[matchLen]
      requires Sound(storage.nodes) && Stored(storage.nodes, next)
      modifies storage
      ensures hash == Split(path, next, route, matchLen, value)
      ensures Sound(storage.nodes) && Grows(old(storage.nodes), storage.nodes)
      ensures Stored(storage.nodes, hash)
    {
      var slots := EmptySlots();
      if matchLen + 1 == |path| {
        slots := slots[path[matchLen] := next];
      } else {
        hash := SaveNode(Ext(path[matchLen + 1..], next));
        slots := slots[path[matchLen] := hash];
      }
      ghost var kept := slots[path[matchLen]];
      ghost var before := storage.nodes;
      hash := SaveNode(Val(value));
      if matchLen == |route| {
        slots := slots[16 := hash];
      } else if matchLen + 1 == |route| {
        slots := slots[route[matchLen] := hash];
      } else {
        hash := SaveNode(Ext(route[matchLen + 1..], hash));
        slots := slots[route[matchLen] := hash];
      }
      StoredStays(before, storage.nodes, kept);
      hash := SaveNode(Branch(slots));
    }

    method UpdateVal(root: Digest, n: Node, route: Route, value: Value) returns (hash: Digest)
      requires root == Hash(n) && n.Val? && Good(storage.nodes, root)
      modifies storage
      ensures IsPut(old(storage.nodes), root, route, value, storage.nodes, hash)
    {
      hash := SaveNode(Val(value));
      if |route| == 0 {
        return;
      }
      var slots := EmptySlots()[16 := root];
      if |route| == 1 {
        slots := slots[route[0] := hash];
      } else {
        hash := SaveNode(Ext(route[1..], hash));
        slots := slots[route[0] := hash];
      }
      assert Branch(slots) == Fork(root, route, value).node;
      hash := SaveNode(Branch(slots));
      PutForksValue(root, route, value);
    }

    method Put(key: Key, value: Value)
      requires Valid()
      modifies this, storage
      ensures Valid() && Grows(old(storage.nodes), storage.nodes)
      ensures contents == old(contents)[key := value]
    {
      var route := KeyToRoute(key);
      var hash := Update(rootHash, route, value);
      RepresentsPut(rootHash, contents, key, value, hash);
      rootHash := hash;
      contents := contents[key := value];
    }

    // ------------------------------------------------------------------------------------------
    // Delete
    // ------------------------------------------------------------------------------------------

    /** Counts the filled slots and finds the last of them. */
    method CountFilled(slots: seq<Digest>) returns (count: nat, index: nat)
      requires |slots| == 17
      ensures index < 17
      ensures count == 0 ==> forall i :: 0 <= i < 17 ==> slots[i].Empty?
      ensures count > 0 ==> slots[index].Hash?
      ensures count == 1 ==> forall i :: 0 <= i < 17 && i != index ==> slots[i].Empty?
      ensures count > 1 ==> TwoFilled(slots)
    {
      count, index := 0, 0;
      for i := 0 to 17
        invariant index < 17 && (count > 0 ==> index < i && slots[index].Hash?)
        invariant count == 0 ==> forall j :: 0 <= j < i ==> slots[j].Empty?
        invariant count == 1 ==> forall j :: 0 <= j < i && j != index ==> slots[j].Empty?
        invariant count > 1 ==> TwoFilled(slots)
      {
        if slots[i] != Empty {
          assert count > 0 ==> TwoFilled(slots) by {
            if count > 0 {
              assert slots[index].Hash? && slots[i].Hash?;
            }
          }
          index := i;
          count := count + 1;
        }
      }
    }

    method DeleteRoute(root: Digest, route: Route) returns (r: Result<Digest>, ghost victim: Route)
      requires Good(storage.nodes, root)
      modifies storage
      ensures Grows(old(storage.nodes), storage.nodes) && Sound(storage.nodes)
      ensures r.Ok? ==> Victim(root, route, victim)
      ensures r.Ok? ==> IsRemove(old(storage.nodes), root, victim, storage.nodes, r.value)
      ensures r.Err? ==> r.error == NotFound && storage.nodes == old(storage.nodes)
      ensures r.Err? ==> forall k :: !Victim(root, route, k)
      ensures root.Hash? && root.node.Val? ==> r == Ok(Empty)
      decreases root, 1
    {
      victim := [];
      var fetched := FetchNode(root);
      if fetched.Err? {
        return Err(fetched.error), victim;
      }
      match fetched.value
      case Branch(_) => r, victim := DeleteBranch(root, fetched.value, route);
      case Ext(_, _) => r, victim := DeleteExt(root, fetched.value, route);
      case Val(_) =>
        VictimInValue(root, route);
        return Ok(Empty), [];
    }

    method DeleteBranch(root: Digest, n: Node, route: Route) returns (r: Result<Digest>, ghost victim: Route)
      requires root == Hash(n) && n.Branch? && Good(storage.nodes, root)
      modifies storage
      ensures Grows(old(storage.nodes), storage.nodes) && Sound(storage.nodes)
      ensures r.Ok? ==> Victim(root, route, victim)
      ensures r.Ok? ==> IsRemove(old(storage.nodes), root, victim, storage.nodes, r.value)
      ensures r.Err? ==> r.error == NotFound && storage.nodes == old(storage.nodes)
      ensures r.Err? ==> forall k :: !Victim(root, route, k)
      decreases root, 0
    {
      ghost var before := storage.nodes;
      var index, nextRoute: Route;
      if |route| == 0 {
        index, nextRoute := 16, [];
      } else {
        index, nextRoute := route[0], route[1..];
      }
      r, victim := DeleteRoute(n.slots[index], nextRoute);
      if r.Err? {
        forall k
          ensures !Victim(root, route, k)
        {
          VictimThroughSlot(n.slots, route, k);
        }
        return;
      }
      var child := r.value;
      victim := LiftVictim(n.slots, route, victim, child);
      var slots := n.slots[index := child];
      forall i | 0 <= i < 17
        ensures Stored(storage.nodes, slots[i])
      {
        StoredStays(before, storage.nodes, n.slots[i]);
      }
      var count, only := CountFilled(slots);
      OneSlotStays(n.slots, index, child);
      if count < 2 {
        var lone := FetchNode(slots[only]);
        var hash := SaveCollapsed(slots, only, lone.value);
        CollapseKeepsContents(slots, only);
        return Ok(hash), victim;
      }
      var hash := SaveNode(Branch(slots));
      return Ok(hash), victim;
    }

    /** Saves what replaces a branch with one filled slot. */
    method SaveCollapsed(slots: seq<Digest>, only: nat, lone: Node) returns (hash: Digest)
      requires only < 17 == |slots| && slots[only] == Hash(lone) && Good(storage.nodes, slots[only])
      requires slots[16].Hash? ==> slots[16].node.Val?
      modifies storage
      ensures hash == Collapse(slots, only)
      ensures Sound(storage.nodes) && Grows(old(storage.nodes), storage.nodes)
      ensures Stored(storage.nodes, hash)
    {
      match lone
      case Branch(_) => hash := SaveNode(Ext([only], slots[only]));
      case Ext(path, next) => hash := SaveNode(Ext([only] + path, next));
      case Val(_) =>
        if only == 16 {
          return slots[only];
        }
        hash := SaveNode(Ext([only], slots[only]));
    }

    method DeleteExt(root: Digest, n: Node, route: Route) returns (r: Result<Digest>, ghost victim: Route)
      requires root == Hash(n) && n.Ext? && Good(storage.nodes, root)
      modifies storage
      ensures Grows(old(storage.nodes), storage.nodes) && Sound(storage.nodes)
      ensures r.Ok? ==> Victim(root, route, victim)
      ensures r.Ok? ==> IsRemove(old(storage.nodes), root, victim, storage.nodes, r.value)
      ensures r.Err? ==> r.error == NotFound && storage.nodes == old(storage.nodes)
      ensures r.Err? ==> forall k :: !Victim(root, route, k)
      decreases root, 0
    {
      victim := [];
      var path, next := n.path, n.next;
      var matchLen := PrefixLen(path, route);
      if matchLen != |path| {
        forall k | Victim(root, route, k)
          ensures false
        {
          VictimAboveExt(path, next, route, k);
        }
        return Err(NotFound), victim;
      }
      ghost var rest := route[matchLen..];
      assert route == path + rest;
      r, victim := DeleteRoute(next, route[matchLen..]);
      if r.Err? {
        forall k | Victim(root, route, k)
          ensures false
        {
          VictimAboveExt(path, next, route, k);
        }
        return;
      }
      var child := r.value;
      VictimBelowExt(path, next, rest, victim);
      RemoveBelowExt(path, next, victim, child);
      CanonicalRejoin(path, child);
      victim := path + victim;
      if child == Empty {
        return Ok(Empty), victim;
      }
      var childNode := FetchNode(child);
      if childNode.value.Ext? {
        var hash := SaveNode(Ext(path + childNode.value.path, childNode.value.next));
        return Ok(hash), victim;
      }
      var hash := SaveNode(Ext(path, child));
      return Ok(hash), victim;
    }

    /**
     Deleting a key.  The entry removed is the one at the victim, which is the key itself when the
     key is present.
     */
    method Delete(key: Key) returns (r: Result<()>, ghost victim: Key)
      requires Valid()
      modifies this, storage
      ensures Valid() && Grows(old(storage.nodes), storage.nodes)
      ensures r == Ok(()) || r == Err(NotFound)
      ensures r.Ok? ==> MapVictim(old(contents), key, victim) && contents == old(contents) - {victim}
      ensures r.Err? ==> contents == old(contents) && rootHash == old(rootHash)
      ensures r.Err? ==> forall k :: !MapVictim(old(contents), key, k)
    {
      victim := [];
      var route := KeyToRoute(key);
      ghost var hit: Route;
      var deleted;
      deleted, hit := DeleteRoute(rootHash, route);
      if deleted.Err? {
        forall k | MapVictim(contents, key, k)
          ensures false
        {
          MapVictimIsVictim(rootHash, contents, key, k);
        }
        StoredStays(old(storage.nodes), storage.nodes, rootHash);
        return Err(deleted.error), victim;
      }
      victim := KeyOf(hit);
      VictimIsMapVictim(rootHash, contents, key, hit);
      RepresentsRemove(rootHash, contents, victim, deleted.value);
      rootHash := deleted.value;
      contents := contents - {victim};
      return Ok(()), victim;
    }
  }

  // --------------------------------------------------------------------------------------------
  // Steps of the delete proofs
  // --------------------------------------------------------------------------------------------

  lemma LiftVictim(slots: seq<Digest>, route: Route, k: Route, child: Digest) returns (victim: Route)
    requires |slots| == 17 && Canonical(Hash(Branch(slots)))
    requires Victim(slots[SlotOf(route)], RestOf(route), k)
    requires RemoveLaw(slots[SlotOf(route)], k, child)
    ensures Victim(Hash(Branch(slots)), route, victim)
    ensures RemoveLaw(Hash(Branch(slots)), victim, Hash(Branch(slots[SlotOf(route) := child])))
  {
    if route == [] {
      victim := [];
    } else {
      victim := [route[0]] + k;
      assert route == [route[0]] + route[1..];
      assert victim[1..] == k;
      VictimOfSlot(slots, route[0], route[1..], k);
    }
    RemoveThroughSlot(slots, victim, child);
  }

  ghost predicate AnyFilled(slots: seq<Digest>) {
    exists i :: 0 <= i < |slots| && slots[i].Hash?
  }

  /** A branch that loses one of its slots keeps another. */
  lemma OneSlotStays(slots: seq<Digest>, index: nat, child: Digest)
    requires index < |slots| && TwoFilled(slots)
    ensures AnyFilled(slots[index := child])
  {
    var a, b :| 0 <= a < b < |slots| && slots[a].Hash? && slots[b].Hash?;
    var i := if a == index then b else a;
    assert slots[index := child][i].Hash?;
  }

  // --------------------------------------------------------------------------------------------
  // Deletion on maps
  // --------------------------------------------------------------------------------------------

  /** The entry a deletion of key removes, in terms of the keys in the map. */
  ghost predicate MapVictim(m: map<Key, Value>, key: Key, k: Key) {
    k in m && k <= key && (k == key || forall x :: x in m && k <= x ==> x == k)
  }

  lemma VictimIsMapVictim(d: Digest, m: map<Key, Value>, key: Key, k: Route)
    requires Represents(d, m) && Victim(d, RouteOf(key), k)
    ensures k == RouteOf(KeyOf(k)) && MapVictim(m, key, KeyOf(k))
  {
    RouteAndKey(KeyOf(k), k);
    RoutePrefix(KeyOf(k), key);
    RouteAndKey(key, k);
    if k != RouteOf(key) {
      forall x | x in m && KeyOf(k) <= x
        ensures x == KeyOf(k)
      {
        LookupKey(d, m, x);
        RoutePrefix(KeyOf(k), x);
        RouteAndKey(x, k);
        assert Has(d, RouteOf(x));
      }
    }
  }

  lemma MapVictimIsVictim(d: Digest, m: map<Key, Value>, key: Key, k: Key)
    requires Represents(d, m) && MapVictim(m, key, k)
    ensures Victim(d, RouteOf(key), RouteOf(k))
  {
    LookupKey(d, m, k);
    RoutePrefix(k, key);
    if k != key {
      forall s: Route | Has(d, s) && RouteOf(k) <= s
        ensures s == RouteOf(k)
      {
        var x := KeyOf(s);
        RouteAndKey(x, s);
        RoutePrefix(k, x);
      }
    }
  }
}
