/**
 What putting and deleting mean for a trie, and the case analysis that shows each way the trie
 code rebuilds a node (extending, splitting, collapsing, merging) has that meaning and keeps the
 canonical form.
 */
module TrieLaws {
  import opened Options
  import opened TrieNodes

  /** d' is d with the value at r set to v and nothing else changed. */
  ghost predicate PutLaw(d: Digest, r: Route, v: Value, d': Digest) {
    forall s: Route :: Lookup(d', s) == if s == r then Some(v) else Lookup(d, s)
  }

  /** d' is d with the entry at k removed and nothing else changed. */
  ghost predicate RemoveLaw(d: Digest, k: Route, d': Digest) {
    forall s: Route :: Lookup(d', s) == if s == k then None else Lookup(d, s)
  }

  /** No stored key properly extends k. */
  ghost predicate Leaf(d: Digest, k: Route) {
    forall s: Route :: Has(d, s) && k <= s ==> s == k
  }

  /**
   The key that a deletion along r removes.  Deletion stops at the first value node it meets
   without looking at what is left of the route, so besides r itself this can be a stored proper
   prefix of r that no other stored key extends.
   */
  ghost predicate Victim(d: Digest, r: Route, k: Route) {
    Has(d, k) && k <= r && (k == r || Leaf(d, k))
  }

  lemma VictimIsUnique(d: Digest, r: Route, k: Route, l: Route)
    requires Victim(d, r, k) && Victim(d, r, l)
    ensures k == l
  {
    if |k| <= |l| {
      assert k <= l;
    } else {
      assert l <= k;
    }
  }

  lemma VictimIfPresent(d: Digest, r: Route)
    requires Has(d, r)
    ensures Victim(d, r, r)
    ensures forall k :: Victim(d, r, k) ==> k == r
  {
    forall k | Victim(d, r, k) ensures k == r {
      VictimIsUnique(d, r, k, r);
    }
  }

  // --------------------------------------------------------------------------------------------
  // Nodes below a path
  // --------------------------------------------------------------------------------------------

  /** A subtrie reached over a path: no node is needed for the empty path. */
  function Under(path: Route, d: Digest): Digest {
    if path == [] then d else Hash(Ext(path, d))
  }

  lemma LookupUnder(path: Route, d: Digest, r: Route)
    ensures Lookup(Under(path, d), r) == if path <= r then Lookup(d, r[|path|..]) else None
  {
    if path == [] {
      assert r[0..] == r;
    }
  }

  function EmptySlots(): (s: seq<Digest>)
    ensures |s| == 17 && forall i :: 0 <= i < 17 ==> s[i] == Empty
  {
    seq(17, _ => Empty)
  }

  /** The node an extension is rewritten to when what it leads to has changed to d. */
  function Rejoin(path: Route, d: Digest): Digest {
    if d.Empty? then Empty
    else if d.node.Ext? then Hash(Ext(path + d.node.path, d.node.next))
    else Hash(Ext(path, d))
  }

  lemma PrefixOfConcat(p: Route, q: Route, r: Route)
    ensures p + q <= r <==> p <= r && q <= r[|p|..]
  {
    if p <= r {
      assert r == p + r[|p|..];
    }
    if p + q <= r {
      assert r == p + q + r[|p + q|..];
    }
  }

  lemma LookupRejoin(path: Route, d: Digest, r: Route)
    ensures Lookup(Rejoin(path, d), r) == Lookup(Hash(Ext(path, d)), r)
  {
    if d.Hash? && d.node.Ext? {
      var p := d.node.path;
      PrefixOfConcat(path, p, r);
      if path + p <= r {
        assert r[|path|..][|p|..] == r[|path + p|..];
      }
    }
  }

  lemma CanonicalRejoin(path: Route, d: Digest)
    requires path != [] && Canonical(d)
    ensures Canonical(Rejoin(path, d))
  {
  }

  // --------------------------------------------------------------------------------------------
  // Putting
  // --------------------------------------------------------------------------------------------

  lemma PutIntoEmpty(r: Route, v: Value)
    ensures var d := Under(r, Hash(Val(v))); Canonical(d) && PutLaw(Empty, r, v, d)
  {
    forall s: Route
      ensures Lookup(Under(r, Hash(Val(v))), s) == if s == r then Some(v) else None
    {
      LookupUnder(r, Hash(Val(v)), s);
    }
  }

  lemma PutBelowSlot(slots: seq<Digest>, i: Nibble, r: Route, v: Value, child: Digest)
    requires |slots| == 17 && PutLaw(slots[i], r, v, child)
    ensures PutLaw(Hash(Branch(slots)), [i] + r, v, Hash(Branch(slots[i := child])))
  {
    var d, d' := Hash(Branch(slots)), Hash(Branch(slots[i := child]));
    forall s: Route
      ensures Lookup(d', s) == if s == [i] + r then Some(v) else Lookup(d, s)
    {
      if s != [] && s[0] == i {
        assert s == [i] + s[1..];
        assert s[1..] == r <==> s == [i] + r;
      }
    }
  }

  lemma PutAtSlot16(slots: seq<Digest>, v: Value)
    requires |slots| == 17
    ensures PutLaw(Hash(Branch(slots)), [], v, Hash(Branch(slots[16 := Hash(Val(v))])))
  {
    var d, d' := Hash(Branch(slots)), Hash(Branch(slots[16 := Hash(Val(v))]));
    forall s: Route
      ensures Lookup(d', s) == if s == [] then Some(v) else Lookup(d, s)
    {
      if s != [] {
        assert d'.node.slots[s[0]] == slots[s[0]];
      }
    }
  }

  lemma FilledSlotsStay(slots: seq<Digest>, i: int, child: Digest)
    requires 0 <= i < |slots| && TwoFilled(slots) && child.Hash?
    ensures TwoFilled(slots[i := child])
  {
    var a, b :| 0 <= a < b < |slots| && slots[a].Hash? && slots[b].Hash?;
    assert slots[i := child][a].Hash? && slots[i := child][b].Hash?;
  }

  lemma PutBelowExt(path: Route, next: Digest, r: Route, v: Value, next': Digest)
    requires PutLaw(next, r, v, next')
    ensures PutLaw(Hash(Ext(path, next)), path + r, v, Hash(Ext(path, next')))
  {
    var d, d' := Hash(Ext(path, next)), Hash(Ext(path, next'));
    forall s: Route
      ensures Lookup(d', s) == if s == path + r then Some(v) else Lookup(d, s)
    {
      if path <= s {
        assert s == path + s[|path|..];
        assert s[|path|..] == r <==> s == path + r;
      }
    }
  }

  /** The branch put in place of an extension whose path leaves the route after n nibbles. */
  function Split(path: Route, next: Digest, route: Route, n: nat, v: Value): Digest
    requires n < |path| && n <= |route|
    requires n < |route| ==> path[n] != route[n]
  {
    var slots := EmptySlots()[path[n] := Under(path[n + 1..], next)];
    Hash(Branch(if n == |route| then slots[16 := Hash(Val(v))]
                else slots[route[n] := Under(route[n + 1..], Hash(Val(v)))]))
  }

  lemma SplitIsCanonical(path: Route, next: Digest, route: Route, n: nat, v: Value)
    requires n < |path| && n <= |route|
    requires n < |route| ==> path[n] != route[n]
    requires next.Hash? && !next.node.Ext? && Canonical(next)
    ensures Canonical(Split(path, next, route, n, v))
  {
    var slots := Split(path, next, route, n, v).node.slots;
    var i, j := path[n], if n == |route| then 16 else route[n];
    assert slots[i].Hash? && slots[j].Hash?;
    assert Canonical(Under(path[n + 1..], next));
    if i < j {
      assert TwoFilled(slots);
    } else {
      assert TwoFilled(slots);
    }
  }

  lemma PutSplitsAt(path: Route, next: Digest, route: Route, v: Value)
    requires path != []
    requires route != [] ==> path[0] != route[0]
    ensures PutLaw(Hash(Ext(path, next)), route, v, Split(path, next, route, 0, v))
  {
    var d, d' := Hash(Ext(path, next)), Split(path, next, route, 0, v);
    forall s: Route
      ensures Lookup(d', s) == if s == route then Some(v) else Lookup(d, s)
    {
      if s != [] {
        if s[0] == path[0] {
          LookupUnder(path[1..], next, s[1..]);
          assert path <= s <==> path[1..] <= s[1..];
          if path <= s {
            assert s[1..][|path| - 1..] == s[|path|..];
          }
        } else if route != [] && s[0] == route[0] {
          LookupUnder(route[1..], Hash(Val(v)), s[1..]);
          assert s == [s[0]] + s[1..] && route == [route[0]] + route[1..];
          assert s[1..] == route[1..] <==> s == route;
        }
      }
    }
  }

  lemma LookupExtInTwoSteps(p: Route, q: Route, d: Digest, r: Route)
    requires q != []
    ensures Lookup(Under(p, Hash(Ext(q, d))), r) == Lookup(Hash(Ext(p + q, d)), r)
  {
    LookupUnder(p, Hash(Ext(q, d)), r);
    LookupRejoin(p, Hash(Ext(q, d)), r);
    if p == [] {
      assert p + q == q;
    }
  }

  lemma PutSplits(path: Route, next: Digest, route: Route, n: nat, v: Value)
    requires n < |path| && n <= |route| && path[..n] == route[..n]
    requires n < |route| ==> path[n] != route[n]
    ensures PutLaw(Hash(Ext(path, next)), route, v, Under(path[..n], Split(path, next, route, n, v)))
  {
    var common, p, q := path[..n], path[n..], route[n..];
    assert path == common + p && route == common + q;
    assert p[1..] == path[n + 1..];
    if n < |route| {
      assert q[1..] == route[n + 1..];
    }
    assert Split(path, next, route, n, v) == Split(p, next, q, 0, v);
    PutSplitsAt(p, next, q, v);
    var below := Hash(Ext(p, next));
    PutUnder(common, below, q, v, Split(p, next, q, 0, v));
    forall s: Route
      ensures Lookup(Under(common, below), s) == Lookup(Hash(Ext(path, next)), s)
    {
      LookupExtInTwoSteps(common, p, next, s);
    }
  }

  lemma PutUnder(path: Route, d: Digest, r: Route, v: Value, d': Digest)
    requires PutLaw(d, r, v, d')
    ensures PutLaw(Under(path, d), path + r, v, Under(path, d'))
  {
    if path != [] {
      PutBelowExt(path, d, r, v, d');
    } else {
      assert path + r == r;
    }
  }

  /** The branch put in place of a value node whose key the new route extends. */
  function Fork(prior: Digest, route: Route, v: Value): Digest
    requires route != []
  {
    Hash(Branch(EmptySlots()[16 := prior][route[0] := Under(route[1..], Hash(Val(v)))]))
  }

  lemma PutForksValue(prior: Digest, route: Route, v: Value)
    requires route != [] && prior.Hash? && prior.node.Val?
    ensures Canonical(Fork(prior, route, v)) && PutLaw(prior, route, v, Fork(prior, route, v))
  {
    var d' := Fork(prior, route, v);
    assert d'.node.slots[route[0]].Hash? && d'.node.slots[16].Hash?;
    assert TwoFilled(d'.node.slots);
    forall s: Route
      ensures Lookup(d', s) == if s == route then Some(v) else Lookup(prior, s)
    {
      if s != [] && s[0] == route[0] {
        LookupUnder(route[1..], Hash(Val(v)), s[1..]);
        assert s == [s[0]] + s[1..] && route == [route[0]] + route[1..];
        assert s[1..] == route[1..] <==> s == route;
      }
    }
  }

  // --------------------------------------------------------------------------------------------
  // Deleting
  // --------------------------------------------------------------------------------------------

  lemma VictimInValue(d: Digest, r: Route)
    requires d.Hash? && d.node.Val?
    ensures Victim(d, r, [])
  {
  }

  lemma VictimBelowExt(path: Route, next: Digest, r: Route, k: Route)
    ensures Victim(next, r, k) ==> Victim(Hash(Ext(path, next)), path + r, path + k)
  {
    var d := Hash(Ext(path, next));
    if Victim(next, r, k) {
      assert (path + k)[|path|..] == k;
      if Leaf(next, k) {
        forall s: Route | Has(d, s) && path + k <= s
          ensures s == path + k
        {
          assert path <= s && s == path + s[|path|..];
          assert k == (path + k)[|path|..] <= s[|path|..];
          assert Has(next, s[|path|..]);
        }
      }
    }
  }

  lemma VictimAboveExt(path: Route, next: Digest, r: Route, k: Route)
    requires Victim(Hash(Ext(path, next)), r, k)
    ensures path <= r && path <= k && Victim(next, r[|path|..], k[|path|..])
  {
    var d := Hash(Ext(path, next));
    assert path <= k <= r;
    var k' := k[|path|..];
    assert k == path + k';
    assert k' <= r[|path|..];
    if Leaf(d, k) {
      forall s: Route | Has(next, s) && k' <= s
        ensures s == k'
      {
        assert (path + s)[|path|..] == s;
        assert Has(d, path + s) && k <= path + s;
      }
    }
  }

  lemma RemoveBelowExt(path: Route, next: Digest, k: Route, next': Digest)
    requires RemoveLaw(next, k, next')
    ensures RemoveLaw(Hash(Ext(path, next)), path + k, Rejoin(path, next'))
  {
    var d, d' := Hash(Ext(path, next)), Rejoin(path, next');
    forall s: Route
      ensures Lookup(d', s) == if s == path + k then None else Lookup(d, s)
    {
      LookupRejoin(path, next', s);
      if path <= s {
        assert s == path + s[|path|..];
        assert s[|path|..] == k <==> s == path + k;
      }
    }
  }

  /** The slot of a branch and the rest of the route that a walk along r goes on with. */
  function SlotOf(r: Route): (i: int)
    ensures 0 <= i < 17
  {
    if r == [] then 16 else r[0]
  }

  function RestOf(r: Route): Route {
    if r == [] then [] else r[1..]
  }

  lemma VictimThroughSlot(slots: seq<Digest>, r: Route, k: Route)
    requires Canonical(Hash(Branch(slots)))
    ensures Victim(Hash(Branch(slots)), r, k) ==>
              SlotOf(k) == SlotOf(r) && Victim(slots[SlotOf(r)], RestOf(r), RestOf(k))
  {
    var d := Hash(Branch(slots));
    if Victim(d, r, k) && k != r {
      if k == [] {
        var i, j :| 0 <= i < j < 17 && slots[i].Hash? && slots[j].Hash?;
        var s := KeyThroughSlot(d, i);
        assert false;
      }
      assert k[0] == r[0];
      forall s: Route | Has(slots[r[0]], s) && k[1..] <= s
        ensures s == k[1..]
      {
        assert ([r[0]] + s)[1..] == s;
        assert Has(d, [r[0]] + s) && k <= [r[0]] + s;
      }
    }
  }

  lemma VictimOfSlot(slots: seq<Digest>, i: Nibble, r: Route, k: Route)
    requires |slots| == 17 && Victim(slots[i], r, k)
    ensures Victim(Hash(Branch(slots)), [i] + r, [i] + k)
  {
    var d := Hash(Branch(slots));
    assert ([i] + k)[1..] == k;
    if Leaf(slots[i], k) {
      forall s: Route | Has(d, s) && [i] + k <= s
        ensures s == [i] + k
      {
        assert s == [s[0]] + s[1..] && k == ([i] + k)[1..] <= s[1..];
        assert Has(slots[i], s[1..]);
      }
    }
  }

  lemma RemoveThroughSlot(slots: seq<Digest>, k: Route, child: Digest)
    requires |slots| == 17
    requires RemoveLaw(slots[SlotOf(k)], RestOf(k), child)
    ensures RemoveLaw(Hash(Branch(slots)), k, Hash(Branch(slots[SlotOf(k) := child])))
  {
    var d, d' := Hash(Branch(slots)), Hash(Branch(slots[SlotOf(k) := child]));
    forall s: Route
      ensures Lookup(d', s) == if s == k then None else Lookup(d, s)
    {
      if s != [] && k != [] && s[0] == k[0] {
        assert s == [s[0]] + s[1..] && k == [k[0]] + k[1..];
        assert s[1..] == k[1..] <==> s == k;
      }
    }
  }

  /** What replaces a branch that has only slot i left. */
  function Collapse(slots: seq<Digest>, i: int): Digest
    requires 0 <= i < 17 == |slots|
  {
    if i == 16 then slots[16] else Rejoin([i], slots[i])
  }

  lemma CollapseKeepsContents(slots: seq<Digest>, i: int)
    requires 0 <= i < 17 == |slots| && slots[i].Hash?
    requires forall j :: 0 <= j < 17 && j != i ==> slots[j].Empty?
    requires forall j :: 0 <= j < 17 ==> Canonical(slots[j])
    requires slots[16].Hash? ==> slots[16].node.Val?
    ensures Canonical(Collapse(slots, i)) && SameContents(Hash(Branch(slots)), Collapse(slots, i))
  {
    forall r: Route
      ensures Lookup(Hash(Branch(slots)), r) == Lookup(Collapse(slots, i), r)
    {
      if i < 16 {
        LookupRejoin([i], slots[i], r);
        assert r != [] && r[0] == i ==> [i] <= r;
      }
    }
  }
}
