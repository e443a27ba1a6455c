/**
 Nodes of the Merkle Patricia trie and what a trie means.

 A digest stands for SHA3-256 over the marshalled node.  It is modelled as a datatype
 constructor over the node, which makes it an injective function of the node and nothing else.
 */
module TrieNodes {
  import opened Options
  import opened Bytes

  type Nibble = n: int | 0 <= n < 16

  type Route = seq<Nibble>

  type Key = seq<Byte>

  type Value = seq<Byte>

  datatype Node =
    | Branch(slots: seq<Digest>)
    | Ext(path: Route, next: Digest)
    | Val(value: Value)

  datatype Digest = Empty | Hash(node: Node)

  /** The value a trie holds at a route. */
  ghost function Lookup(d: Digest, r: Route): Option<Value>
    decreases d
  {
    match d
    case Empty => None
    case Hash(Val(v)) => if r == [] then Some(v) else None
    case Hash(Ext(path, next)) => if path <= r then Lookup(next, r[|path|..]) else None
    case Hash(Branch(slots)) =>
      if |slots| != 17 then None
      else if r == [] then Lookup(slots[16], [])
      else Lookup(slots[r[0]], r[1..])
  }

  ghost predicate Has(d: Digest, r: Route) {
    Lookup(d, r).Some?
  }

  ghost predicate TwoFilled(slots: seq<Digest>) {
    exists i, j :: 0 <= i < j < |slots| && slots[i].Hash? && slots[j].Hash?
  }

  /**
   Canonical form: extension paths are nonempty and never lead to another extension, every branch
   has at least two filled slots, and slot 16 holds only a value node.
   */
  ghost predicate Canonical(d: Digest)
    decreases d
  {
    match d
    case Empty => true
    case Hash(Val(_)) => true
    case Hash(Ext(path, next)) => path != [] && next.Hash? && !next.node.Ext? && Canonical(next)
    case Hash(Branch(slots)) =>
      && |slots| == 17
      && TwoFilled(slots)
      && (slots[16].Hash? ==> slots[16].node.Val?)
      && forall i :: 0 <= i < 17 ==> Canonical(slots[i])
  }

  /** Two tries hold the same values at the same routes. */
  ghost predicate SameContents(a: Digest, b: Digest) {
    forall r: Route :: Lookup(a, r) == Lookup(b, r)
  }

  // --------------------------------------------------------------------------------------------
  // Canonical tries with equal contents are identical
  // --------------------------------------------------------------------------------------------

  /** A canonical trie that is not empty holds at least one key. */
  lemma {:induction false} SomeKey(d: Digest) returns (r: Route)
    requires Canonical(d) && d.Hash?
    ensures Has(d, r)
    decreases d
  {
    match d.node
    case Val(_) => r := [];
    case Ext(path, next) =>
      var r' := SomeKey(next);
      r := path + r';
      assert r[|path|..] == r';
    case Branch(slots) =>
      var i, j :| 0 <= i < j < 17 && slots[i].Hash? && slots[j].Hash?;
      r := KeyThroughSlot(d, i);
  }

  lemma {:induction false} KeyThroughSlot(d: Digest, i: Nibble) returns (r: Route)
    requires Canonical(d) && d.Hash? && d.node.Branch? && d.node.slots[i].Hash?
    ensures Has(d, r) && r != [] && r[0] == i
    decreases d, 0
  {
    var r' := SomeKey(d.node.slots[i]);
    r := [i] + r';
    assert r[1..] == r';
  }

  /** The keys below anything but an extension do not all start with the same nibble. */
  lemma {:induction false} KeyAvoiding(d: Digest, x: Nibble) returns (r: Route)
    requires Canonical(d) && d.Hash? && !d.node.Ext?
    ensures Has(d, r) && (r == [] || r[0] != x)
  {
    if d.node.Val? {
      r := [];
    } else {
      var slots := d.node.slots;
      var i, j :| 0 <= i < j < 17 && slots[i].Hash? && slots[j].Hash?;
      if i != x {
        r := KeyThroughSlot(d, i);
      } else if j == 16 {
        r := [];
      } else {
        r := KeyThroughSlot(d, j);
      }
    }
  }

  lemma {:induction false} SameKind(a: Digest, b: Digest)
    requires Canonical(a) && Canonical(b) && SameContents(a, b)
    requires a.Hash? && b.Hash?
    ensures a.node.Ext? ==> b.node.Ext?
    ensures a.node.Val? ==> b.node.Val?
  {
    assert Lookup(a, []) == Lookup(b, []);
    if a.node.Ext? && !b.node.Ext? {
      var r := KeyAvoiding(b, a.node.path[0]);
      assert false;
    }
    if a.node.Val? && !b.node.Val? {
      if b.node.Branch? {
        var slots := b.node.slots;
        var i, j :| 0 <= i < j < 17 && slots[i].Hash? && slots[j].Hash?;
        var r := KeyThroughSlot(b, i);
        assert false;
      }
    }
  }

  lemma {:induction false} ExtKeyAvoiding(d: Digest, x: Nibble) returns (r: Route)
    requires Canonical(d) && d.Hash? && d.node.Ext?
    ensures var n := |d.node.path|; Has(d, r) && (|r| == n || (|r| > n && r[n] != x))
  {
    var s := KeyAvoiding(d.node.next, x);
    r := d.node.path + s;
    assert r[|d.node.path|..] == s;
  }

  lemma {:induction false} SamePath(a: Digest, b: Digest)
    requires Canonical(a) && Canonical(b) && SameContents(a, b)
    requires a.Hash? && b.Hash? && a.node.Ext? && b.node.Ext?
    ensures |a.node.path| >= |b.node.path| ==> b.node.path == a.node.path
  {
    var p, q := a.node.path, b.node.path;
    var r := SomeKey(a);
    assert Lookup(a, r) == Lookup(b, r);
    if |p| > |q| {
      var t := ExtKeyAvoiding(b, p[|q|]);
      assert false;
    }
  }

  /** The contents of a canonical trie determine every one of its nodes, and so its root hash. */
  lemma {:induction false} CanonicalFormIsUnique(a: Digest, b: Digest)
    requires Canonical(a) && Canonical(b) && SameContents(a, b)
    ensures a == b
    decreases a
  {
    if a.Empty? || b.Empty? {
      if a.Hash? {
        var r := SomeKey(a);
      } else if b.Hash? {
        var r := SomeKey(b);
      }
    } else {
      SameKind(a, b);
      SameKind(b, a);
      match a.node
      case Val(_) =>
        assert Lookup(a, []) == Lookup(b, []);
      case Ext(path, next) =>
        SamePath(a, b);
        SamePath(b, a);
        forall r: Route
          ensures Lookup(next, r) == Lookup(b.node.next, r)
        {
          assert (path + r)[|path|..] == r;
          assert Lookup(a, path + r) == Lookup(b, path + r);
        }
        CanonicalFormIsUnique(next, b.node.next);
      case Branch(slots) =>
        forall i | 0 <= i < 17
          ensures slots[i] == b.node.slots[i]
        {
          forall r: Route
            ensures Lookup(slots[i], r) == Lookup(b.node.slots[i], r)
          {
            if i < 16 {
              assert ([i] + r)[1..] == r;
              assert Lookup(a, [i] + r) == Lookup(b, [i] + r);
            } else if r == [] {
              assert Lookup(a, []) == Lookup(b, []);
            }
          }
          CanonicalFormIsUnique(slots[i], b.node.slots[i]);
        }
        assert slots == b.node.slots;
    }
  }
}
