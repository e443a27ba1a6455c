/** The pool of received blocks, linked to their parents and children as far as these are there. */
module BlockPools {
  import opened Options
  import opened BlockTree

  /** The parent hash of the genesis block, which is no block's hash. */
  const GENESIS_PARENT_HASH: Hash := 0

  // --------------------------------------------------------------------------------------------
  // The parent relation among cached blocks
  // --------------------------------------------------------------------------------------------

  /** From the hashes of cached blocks to their parents' hashes. */
  type View = map<Hash, Hash>

  /** A block is computed after the parent whose hash it contains. */
  ghost predicate Ordered(view: View, rank: Hash -> nat) {
    forall h :: h in view ==> h != GENESIS_PARENT_HASH && rank(view[h]) < rank(h)
  }

  /** The topmost cached ancestor of a cached block. */
  ghost function Top(view: View, rank: Hash -> nat, h: Hash): Hash
    requires Ordered(view, rank) && h in view
    decreases rank(h)
  {
    if view[h] in view then Top(view, rank, view[h]) else h
  }

  /** t is reached from h through cached blocks. */
  ghost predicate Above(view: View, rank: Hash -> nat, h: Hash, t: Hash)
    requires Ordered(view, rank) && h in view
    decreases rank(h)
  {
    t == h || (view[h] in view && Above(view, rank, view[h], t))
  }

  /** The topmost ancestor is the one ancestor whose parent is not cached. */
  lemma {:induction false} TopIsTheUnlinkedAncestor(view: View, rank: Hash -> nat, h: Hash, t: Hash)
    requires Ordered(view, rank) && h in view
    ensures t == Top(view, rank, h) <==> t in view && Above(view, rank, h, t) && view[t] !in view
    decreases rank(h)
  {
    if view[h] in view {
      TopIsTheUnlinkedAncestor(view, rank, view[h], t);
    }
  }

  // --------------------------------------------------------------------------------------------
  // Linked blocks
  // --------------------------------------------------------------------------------------------

  class LinkedBlock {
    const block: Block
    var parent: LinkedBlock?
    var children: map<Hash, LinkedBlock>

    constructor (b: Block)
      ensures block == b && parent == null && children == map[]
    {
      block, parent, children := b, null, map[];
    }

    method LinkParent(plb: LinkedBlock)
      modifies this`parent, plb`children
      ensures plb.children == old(plb.children)[block.hash := this] && parent == plb
    {
      plb.children := plb.children[block.hash := this];
      parent := plb;
    }

    method UnlinkParent(plb: LinkedBlock)
      modifies this`parent, plb`children
      ensures plb.children == old(plb.children) - {block.hash} && parent == null
    {
      plb.children := plb.children - {block.hash};
      parent := null;
    }
  }

  type Cache = map<Hash, LinkedBlock>

  /** What the links of a block have to be: the cached block with its parent's hash, if there is one, */
  ghost function ParentIn(cache: Cache, b: Block): LinkedBlock? {
    if b.parentHash in cache then cache[b.parentHash] else null
  }

  /** and the cached blocks with its hash as their parent's. */
  ghost function ChildrenIn(cache: Cache, h: Hash): Cache {
    map c | c in cache && cache[c].block.parentHash == h :: cache[c]
  }

  lemma ChildrenWithout(cache: Cache, h: Hash, l: Hash)
    requires h in cache
    ensures ChildrenIn(cache - {h}, l) ==
            if cache[h].block.parentHash == l then ChildrenIn(cache, l) - {h} else ChildrenIn(cache, l)
  {
  }

  lemma ChildrenWith(cache: Cache, lb: LinkedBlock, l: Hash)
    requires lb.block.hash !in cache
    ensures ChildrenIn(cache[lb.block.hash := lb], l) ==
            if lb.block.parentHash == l then ChildrenIn(cache, l)[lb.block.hash := lb] else ChildrenIn(cache, l)
  {
  }

  // --------------------------------------------------------------------------------------------
  // The pool
  // --------------------------------------------------------------------------------------------

  class BlockPool {
    var cache: Cache
    const size: nat
    ghost const rank: Hash -> nat

    ghost function View(): View
      reads this
    {
      map h | h in cache :: cache[h].block.parentHash
    }

    ghost predicate Linked(lb: LinkedBlock)
      reads this, lb
    {
      lb.parent == ParentIn(cache, lb.block) && lb.children == ChildrenIn(cache, lb.block.hash)
    }

    /** Links to parents and children are exactly the parent relation among the cached blocks. */
    ghost predicate Valid()
      reads this, cache.Values
    {
      && (forall h :: h in cache ==> cache[h].block.hash == h && h != GENESIS_PARENT_HASH)
      && (forall h :: h in cache ==> rank(cache[h].block.parentHash) < rank(h))
      && (forall h :: h in cache ==> Linked(cache[h]))
    }

    constructor (n: nat, ghost r: Hash -> nat)
      requires n > 0
      ensures Valid() && cache == map[] && size == n && rank == r
    {
      cache, size, rank := map[], n, r;
    }

    predicate Has(b: Block)
      reads this
    {
      b.hash in cache
    }

    /** The cached blocks that name a hash as their parent. */
    method FindChildLinkedBlocks(hash: Hash) returns (found: set<Hash>)
      requires hash != GENESIS_PARENT_HASH
      ensures found == set c | c in cache && cache[c].block.parentHash == hash
    {
      found := {};
      var keys := cache.Keys;
      while keys != {}
        invariant keys <= cache.Keys
        invariant found == set c | c in cache && c !in keys && cache[c].block.parentHash == hash
        decreases |keys|
      {
        var key :| key in keys;
        keys := keys - {key};
        if cache[key].block.parentHash != GENESIS_PARENT_HASH && cache[key].block.parentHash == hash {
          found := found + {key};
        }
      }
    }

    method FindChildren(b: Block) returns (found: set<Hash>)
      requires Valid() && b.hash != GENESIS_PARENT_HASH
      ensures found == set c | c in View() && View()[c] == b.hash
    {
      if b.hash in cache {
        assert Linked(cache[b.hash]);
        found := cache[b.hash].children.Keys;
        return;
      }
      found := FindChildLinkedBlocks(b.hash);
    }

    /** Follows the links from a block's parent up to the last one. */
    method FindUnlinkedAncestor(b: Block) returns (r: Option<Block>)
      requires Valid()
      ensures Ordered(View(), rank)
      ensures r.None? <==> b.parentHash !in View()
      ensures r.Some? ==> r.value.hash == Top(View(), rank, b.parentHash)
      ensures r.Some? ==> r.value.hash in cache && cache[r.value.hash].block == r.value
    {
      if b.parentHash !in cache {
        return None;
      }
      var lb: LinkedBlock := cache[b.parentHash];
      while lb.parent != null
        invariant lb.block.hash in cache && cache[lb.block.hash] == lb
        invariant Top(View(), rank, lb.block.hash) == Top(View(), rank, b.parentHash)
        decreases rank(lb.block.hash)
      {
        assert Linked(lb);
        lb := lb.parent;
      }
      assert Linked(lb);
      return Some(lb.block);
    }

    /** Cuts a block off from its parent and its children. */
    static method Dispose(lb: LinkedBlock)
      requires lb.parent != lb && lb.parent !in lb.children.Values
      requires forall c :: c in lb.children ==> lb.children[c].block.hash == c && lb.children[c] != lb
      modifies lb, (if lb.parent == null then {} else {lb.parent})`children, lb.children.Values`parent
      ensures lb.parent == null && lb.children == map[]
      ensures old(lb.parent) != null ==> old(lb.parent).children == old(lb.parent.children) - {lb.block.hash}
      ensures forall c :: c in old(lb.children) ==> old(lb.children)[c].parent == null
    {
      ghost var kids, plb := lb.children, lb.parent;
      if lb.parent != null {
        lb.UnlinkParent(lb.parent);
      }
      while lb.children != map[]
        invariant lb.parent == null
        invariant forall c :: c in lb.children ==> c in kids && lb.children[c] == kids[c]
        invariant forall c :: c in kids && c !in lb.children ==> kids[c].parent == null
        invariant plb != null ==> plb.children == old(lb.parent.children) - {lb.block.hash}
        decreases lb.children.Keys
      {
        var c :| c in lb.children;
        lb.children[c].UnlinkParent(lb);
      }
    }

    /** Takes a block out of the cache and cuts it off. */
    method Evict(h: Hash)
      requires Valid() && h in cache
      modifies this`cache, cache.Values
      ensures Valid() && cache == old(cache) - {h}
      ensures old(cache)[h].parent == null && old(cache)[h].children == map[]
    {
      var lb := cache[h];
      Surroundings(h);
      cache := cache - {h};
      Dispose(lb);
      forall l | l in cache
        ensures Linked(cache[l])
      {
        ChildrenWithout(old(cache), h, l);
        assert old(Linked(cache[l]));
      }
    }

    /** A cached block is neither its own parent nor its own child, and its children are those that name it. */
    lemma Surroundings(h: Hash)
      requires Valid() && h in cache
      ensures var lb := cache[h];
              && lb.parent != lb && lb.parent !in lb.children.Values
              && (lb.parent != null ==> lb.block.parentHash in cache && cache[lb.block.parentHash] == lb.parent)
              && (forall c :: c in lb.children ==> lb.children[c].block.hash == c && lb.children[c] != lb)
              && (forall l :: l in cache && cache[l].block.parentHash != h ==> cache[l] !in lb.children.Values)
              && (forall l :: l in cache && cache[l].block.parentHash == h ==> l in lb.children && lb.children[l] == cache[l])
    {
      assert Linked(cache[h]);
    }

    method Remove(b: Block)
      requires Valid()
      modifies this`cache, cache.Values
      ensures Valid() && cache == old(cache) - {b.hash}
    {
      if b.hash in cache {
        Evict(b.hash);
      }
    }

    /** Enters a block, linked to its parent and children, and evicts one when the cache is over its size. */
    method Push(b: Block) returns (ok: bool, evicted: Hash)
      requires Valid() && size > 0 && b.hash != GENESIS_PARENT_HASH && rank(b.parentHash) < rank(b.hash)
      modifies this`cache, cache.Values
      ensures Valid()
      ensures ok <==> b.hash !in old(cache)
      ensures !ok ==> cache == old(cache)
      ensures ok ==> b.hash in cache && cache[b.hash].block == b && fresh(cache[b.hash])
      ensures ok && |old(cache)| < size ==> cache == old(cache)[b.hash := cache[b.hash]]
      ensures ok && |old(cache)| >= size ==> evicted in old(cache) && cache == (old(cache) - {evicted})[b.hash := cache[b.hash]]
    {
      evicted := b.hash;
      if Has(b) {
        return false, evicted;
      }
      Link(b);
      SizeAfterPut(old(cache), b.hash, cache[b.hash]);
      if |cache| > size {
        SomeOther(cache, b.hash);
        evicted :| evicted in cache && evicted != b.hash;
        PutThenRemove(old(cache), b.hash, cache[b.hash], evicted);
        Evict(evicted);
      }
      return true, evicted;
    }

    method Link(b: Block)
      requires Valid() && b.hash !in cache && b.hash != GENESIS_PARENT_HASH && rank(b.parentHash) < rank(b.hash)
      modifies this`cache, cache.Values
      ensures Valid() && b.hash in cache && cache == old(cache)[b.hash := cache[b.hash]]
      ensures cache[b.hash].block == b && fresh(cache[b.hash])
    {
      var lb := new LinkedBlock(b);
      LinkUp(lb);
      cache := cache[b.hash := lb];
      forall l | l in cache
        ensures Linked(cache[l])
      {
        ChildrenWith(old(cache), lb, l);
      }
    }

    method LinkUp(lb: LinkedBlock)
      requires Valid() && lb !in cache.Values && lb.parent == null && lb.children == map[]
      requires lb.block.hash !in cache && lb.block.hash != GENESIS_PARENT_HASH && lb.block.parentHash != lb.block.hash
      modifies lb, cache.Values
      ensures lb.parent == ParentIn(cache, lb.block) && lb.children == ChildrenIn(cache, lb.block.hash)
      ensures forall l :: l in cache ==>
                && cache[l].parent == (if cache[l].block.parentHash == lb.block.hash then lb else ParentIn(cache, cache[l].block))
                && cache[l].children == (if l == lb.block.parentHash then ChildrenIn(cache, l)[lb.block.hash := lb]
                                         else ChildrenIn(cache, l))
    {
      var b := lb.block;
      assert forall l :: l in cache ==> Linked(cache[l]);
      if b.parentHash in cache {
        lb.LinkParent(cache[b.parentHash]);
      }
      var kids := FindChildLinkedBlocks(b.hash);
      Adopt(lb, kids);
    }

    /** Links a new block to the cached ones that name it as their parent. */
    method Adopt(lb: LinkedBlock, kids: set<Hash>)
      requires kids <= cache.Keys && lb !in cache.Values && lb.children == map[]
      requires forall c :: c in cache ==> cache[c].block.hash == c
      modifies lb`children, cache.Values`parent
      ensures lb.children == map c | c in kids :: cache[c]
      ensures forall c :: c in cache ==> cache[c].parent == if c in kids then lb else old(cache[c].parent)
    {
      var rest := kids;
      while rest != {}
        invariant rest <= kids
        invariant lb.children == map c | c in kids && c !in rest :: cache[c]
        invariant forall c :: c in cache ==>
                    cache[c].parent == if c in kids && c !in rest then lb else old(cache[c].parent)
        decreases rest
      {
        var c :| c in rest;
        cache[c].LinkParent(lb);
        rest := rest - {c};
      }
    }
  }

  lemma SomeOther(cache: Cache, h: Hash)
    requires h in cache && |cache| > 1
    ensures exists l :: l in cache && l != h
  {
    SizeAfterRemove(cache, h);
    var l :| l in cache - {h};
  }

  lemma SizeAfterRemove(cache: Cache, h: Hash)
    requires h in cache
    ensures |cache - {h}| == |cache| - 1
  {
    assert (cache - {h}).Keys == cache.Keys - {h};
  }

  lemma PutThenRemove(cache: Cache, h: Hash, lb: LinkedBlock, e: Hash)
    requires e != h
    ensures cache[h := lb] - {e} == (cache - {e})[h := lb]
  {
  }

  lemma SizeAfterPut(cache: Cache, h: Hash, lb: LinkedBlock)
    requires h !in cache
    ensures |cache[h := lb]| == |cache| + 1
  {
    assert cache[h := lb].Keys == cache.Keys + {h};
  }
}
