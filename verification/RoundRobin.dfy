/** Selection in round-robin order over the included ones of a changing set of keys. */
module RoundRobins {
  import opened Options
  import opened Sequences

  predicate Disjoint<K(==)>(a: seq<K>, b: seq<K>) {
    forall k :: k in a ==> k !in b
  }

  /** A list without one of its elements. */
  function Without<K(==)>(list: seq<K>, k: K): seq<K> {
    if list == [] then []
    else if list[0] == k then list[1..]
    else [list[0]] + Without(list[1..], k)
  }

  lemma {:induction false} WithoutOne<K>(list: seq<K>, i: nat)
    requires Distinct(list) && i < |list|
    ensures Without(list, list[i]) == list[..i] + list[i + 1..]
    decreases |list|
  {
    if i > 0 {
      WithoutOne(list[1..], i - 1);
      assert list[1..][..i - 1] == list[1..i] && list[1..][i..] == list[i + 1..];
      assert [list[0]] + (list[1..i] + list[i + 1..]) == list[..i] + list[i + 1..];
    }
  }

  lemma WithoutKeepsOthers<K>(list: seq<K>, k: K)
    requires Distinct(list) && k in list
    ensures Distinct(Without(list, k))
    ensures forall x :: x in Without(list, k) <==> x in list && x != k
  {
    var i :| 0 <= i < |list| && list[i] == k;
    WithoutOne(list, i);
    var rest := list[..i] + list[i + 1..];
    forall x | x in list && x != k
      ensures x in rest
    {
      var j :| 0 <= j < |list| && list[j] == x;
      assert x == rest[if j < i then j else j - 1];
    }
  }

  /** What the selector holds: the included keys in the order they are served, and the excluded ones. */
  datatype Lists<K> = Lists(incl: seq<K>, excl: seq<K>) {
    ghost predicate Valid() {
      && Distinct(incl) && Distinct(excl)
      && Disjoint(incl, excl)
    }

    ghost function Keys(): set<K> {
      (set k | k in incl) + (set k | k in excl)
    }
  }

  // --------------------------------------------------------------------------------------------
  // The operations
  // --------------------------------------------------------------------------------------------

  datatype Op<K> = Next | Include(key: K) | Exclude(key: K) | Remove(key: K) | Reset

  function Step<K(==)>(s: Lists<K>, op: Op<K>): Lists<K> {
    match op
    case Next => if s.incl == [] then s else Lists(s.incl[1..] + [s.incl[0]], s.excl)
    case Include(k) => if k in s.incl then s else Lists(s.incl + [k], Without(s.excl, k))
    case Exclude(k) => if k in s.excl then s else Lists(Without(s.incl, k), s.excl + [k])
    case Remove(k) => Lists(Without(s.incl, k), Without(s.excl, k))
    case Reset => Lists(s.incl + s.excl, [])
  }

  /** The key an operation serves. */
  function Served<K>(s: Lists<K>, op: Op<K>): Option<K> {
    if op.Next? && s.incl != [] then Some(s.incl[0]) else None
  }

  lemma {:induction false} WithoutAbsent<K>(list: seq<K>, k: K)
    requires k !in list
    ensures Without(list, k) == list
  {
    if list != [] {
      WithoutAbsent(list[1..], k);
    }
  }

  lemma RotatedIsDistinct<K>(list: seq<K>)
    requires Distinct(list) && list != []
    ensures Distinct(list[1..] + [list[0]])
    ensures forall k :: k in list[1..] + [list[0]] <==> k in list
  {
    assert list == [list[0]] + list[1..];
  }

  lemma WithoutIsDistinct<K>(list: seq<K>, k: K)
    requires Distinct(list)
    ensures Distinct(Without(list, k))
    ensures forall x :: x in Without(list, k) <==> x in list && x != k
  {
    if k in list {
      WithoutKeepsOthers(list, k);
    } else {
      WithoutAbsent(list, k);
    }
  }

  lemma JoinedIsDistinct<K>(a: seq<K>, b: seq<K>)
    requires Distinct(a) && Distinct(b) && Disjoint(a, b)
    ensures Distinct(a + b)
  {
    forall i, j | 0 <= i < j < |a + b|
      ensures (a + b)[i] != (a + b)[j]
    {
      if i < |a| <= j {
        assert a[i] in a && b[j - |a|] in b;
      }
    }
  }

  /** Every operation keeps each key in one place; what it does to the set of keys is as named. */
  lemma StepKeepsValid<K>(s: Lists<K>, op: Op<K>)
    requires s.Valid()
    ensures Step(s, op).Valid()
    ensures forall k :: k in Step(s, op).Keys() <==>
              (k in s.Keys() && op != Remove(k)) || op == Include(k) || op == Exclude(k)
  {
    match op
    case Next =>
      if s.incl != [] {
        RotatedIsDistinct(s.incl);
      }
    case Include(x) =>
      WithoutIsDistinct(s.excl, x);
    case Exclude(x) =>
      WithoutIsDistinct(s.incl, x);
    case Remove(x) =>
      RemoveKeepsValid(s, x);
    case Reset =>
      JoinedIsDistinct(s.incl, s.excl);
  }

  lemma RemoveKeepsValid<K>(s: Lists<K>, x: K)
    requires s.Valid()
    ensures Step(s, Remove(x)).Valid()
    ensures forall k :: k in Step(s, Remove(x)).Keys() <==> k in s.Keys() && k != x
  {
    WithoutIsDistinct(s.incl, x);
    WithoutIsDistinct(s.excl, x);
    StillDisjoint(s.incl, s.excl, x);
  }

  lemma StillDisjoint<K>(a: seq<K>, b: seq<K>, x: K)
    requires Distinct(a) && Distinct(b) && Disjoint(a, b)
    ensures Disjoint(Without(a, x), Without(b, x))
  {
    WithoutIsDistinct(a, x);
    WithoutIsDistinct(b, x);
  }

  // --------------------------------------------------------------------------------------------
  // Fairness
  // --------------------------------------------------------------------------------------------

  function Run<K(==)>(s: Lists<K>, ops: seq<Op<K>>): Lists<K> {
    if ops == [] then s else Step(Run(s, ops[..|ops| - 1]), ops[|ops| - 1])
  }

  /** The key served by the i-th operation of a run. */
  function ServedAt<K(==)>(s: Lists<K>, ops: seq<Op<K>>, i: nat): Option<K>
    requires i < |ops|
  {
    Served(Run(s, ops[..i]), ops[i])
  }

  function CountNext<K>(ops: seq<Op<K>>): nat {
    if ops == [] then 0 else CountNext(ops[..|ops| - 1]) + if ops[|ops| - 1].Next? then 1 else 0
  }

  /** The key is not taken out of the included ones by any of the operations. */
  ghost predicate StaysIn<K>(ops: seq<Op<K>>, k: K) {
    forall i :: 0 <= i < |ops| ==> ops[i] != Exclude(k) && ops[i] != Remove(k)
  }

  ghost predicate At<K>(s: Lists<K>, k: K, p: nat) {
    p < |s.incl| && s.incl[p] == k
  }

  /** No operation but its own serving puts an included key further back; each Next moves it up. */
  lemma StepMovesUp<K>(s: Lists<K>, op: Op<K>, k: K, p: nat) returns (q: nat)
    requires s.Valid() && At(s, k, p) && op != Exclude(k) && op != Remove(k) && Served(s, op) != Some(k)
    ensures At(Step(s, op), k, q) && q <= p - if op.Next? then 1 else 0
  {
    q := p;
    match op
    case Next =>
      q := p - 1;
    case Include(x) =>
    case Exclude(x) =>
      if x !in s.excl {
        q := PositionWithout(s.incl, x, p);
      }
    case Remove(x) =>
      q := PositionWithout(s.incl, x, p);
    case Reset =>
  }

  lemma PositionWithout<K>(list: seq<K>, x: K, p: nat) returns (q: nat)
    requires Distinct(list) && p < |list| && list[p] != x
    ensures q <= p && q < |Without(list, x)| && Without(list, x)[q] == list[p]
  {
    q := p;
    if x in list {
      var i :| 0 <= i < |list| && list[i] == x;
      WithoutOne(list, i);
      if i < p {
        q := p - 1;
      }
    } else {
      WithoutAbsent(list, x);
    }
  }

  lemma {:induction false} RunKeepsValid<K>(s: Lists<K>, ops: seq<Op<K>>)
    requires s.Valid()
    ensures Run(s, ops).Valid()
    decreases |ops|
  {
    if ops != [] {
      RunKeepsValid(s, ops[..|ops| - 1]);
      StepKeepsValid(Run(s, ops[..|ops| - 1]), ops[|ops| - 1]);
    }
  }

  lemma {:induction false} MovesUp<K>(s: Lists<K>, ops: seq<Op<K>>, k: K, p: nat) returns (q: nat)
    requires s.Valid() && At(s, k, p) && StaysIn(ops, k)
    requires forall i :: 0 <= i < |ops| ==> ServedAt(s, ops, i) != Some(k)
    ensures At(Run(s, ops), k, q) && q + CountNext(ops) <= p
    decreases |ops|
  {
    q := p;
    if ops != [] {
      var front, n := ops[..|ops| - 1], |ops| - 1;
      forall i | 0 <= i < |front|
        ensures ServedAt(s, front, i) != Some(k)
      {
        assert front[..i] == ops[..i];
        assert ServedAt(s, front, i) == ServedAt(s, ops, i);
      }
      var r := MovesUp(s, front, k, p);
      RunKeepsValid(s, front);
      assert ServedAt(s, ops, n) != Some(k);
      q := StepMovesUp(Run(s, front), ops[n], k, r);
    }
  }

  /**
   Bounded waiting: a key with p included keys before it is served by the (p + 1)-th Next at the
   latest, whatever is included, excluded, removed or reset meanwhile, as long as it stays in.
   */
  lemma BoundedWaiting<K>(s: Lists<K>, ops: seq<Op<K>>, k: K, p: nat)
    requires s.Valid() && At(s, k, p) && StaysIn(ops, k) && CountNext(ops) > p
    ensures exists i :: 0 <= i < |ops| && ServedAt(s, ops, i) == Some(k)
  {
    if forall i :: 0 <= i < |ops| ==> ServedAt(s, ops, i) != Some(k) {
      var _ := MovesUp(s, ops, k, p);
    }
  }

  /** A full round serves every included key once, in order, and ends where it began. */
  lemma {:induction false} FullRound<K>(s: Lists<K>, j: nat)
    requires j <= |s.incl|
    ensures var ops := seq(j, _ => Next);
            && Run(s, ops) == Lists(s.incl[j..] + s.incl[..j], s.excl)
            && forall i :: 0 <= i < j ==> ServedAt(s, ops, i) == Some(s.incl[i])
    decreases j
  {
    var ops: seq<Op<K>> := seq(j, _ => Next);
    if j > 0 {
      var front: seq<Op<K>> := seq(j - 1, _ => Next);
      assert ops[..j - 1] == front;
      FullRound(s, j - 1);
      forall i | 0 <= i < j
        ensures ServedAt(s, ops, i) == Some(s.incl[i])
      {
        if i < j - 1 {
          assert ops[..i] == front[..i];
          assert ServedAt(s, front, i) == Some(s.incl[i]);
        }
      }
    }
  }

  // --------------------------------------------------------------------------------------------
  // The selector
  // --------------------------------------------------------------------------------------------

  /** The lookup tells for each key whether it is in the list of the included or the excluded ones. */
  class RoundRobin<K(==,!new)> {
    var incl: seq<K>
    var excl: seq<K>
    var lookup: map<K, bool>

    ghost function Contents(): Lists<K>
      reads this
    {
      Lists(incl, excl)
    }

    ghost predicate Valid()
      reads this
    {
      && Contents().Valid()
      && lookup.Keys == Contents().Keys()
      && forall k :: k in lookup ==> (lookup[k] <==> k in incl)
    }

    constructor ()
      ensures Valid() && Contents() == Lists([], [])
    {
      incl, excl, lookup := [], [], map[];
    }

    predicate HasNext()
      reads this
    {
      |incl| != 0
    }

    method Next() returns (r: Option<K>)
      requires Valid()
      modifies this
      ensures Valid() && Contents() == Step(old(Contents()), Op.Next)
      ensures r == Served(old(Contents()), Op.Next)
    {
      StepKeepsValid(Contents(), Op.Next);
      if incl == [] {
        return None;
      }
      r := Some(incl[0]);
      incl := incl[1..] + [incl[0]];
    }

    method Include(k: K)
      requires Valid()
      modifies this
      ensures Valid() && Contents() == Step(old(Contents()), Op.Include(k))
    {
      StepKeepsValid(Contents(), Op.Include(k));
      if k !in lookup {
        WithoutAbsent(excl, k);
        incl := incl + [k];
        lookup := lookup[k := true];
        return;
      }
      if lookup[k] {
        return;
      }
      Swap(k);
    }

    method Exclude(k: K)
      requires Valid()
      modifies this
      ensures Valid() && Contents() == Step(old(Contents()), Op.Exclude(k))
    {
      StepKeepsValid(Contents(), Op.Exclude(k));
      if k !in lookup {
        WithoutAbsent(incl, k);
        excl := excl + [k];
        lookup := lookup[k := false];
        return;
      }
      if !lookup[k] {
        return;
      }
      Swap(k);
    }

    method Remove(k: K)
      requires Valid()
      modifies this
      ensures Valid() && Contents() == Step(old(Contents()), Op.Remove(k))
    {
      StepKeepsValid(Contents(), Op.Remove(k));
      if k !in lookup {
        WithoutAbsent(incl, k);
        WithoutAbsent(excl, k);
        return;
      }
      if lookup[k] {
        WithoutAbsent(excl, k);
        incl := Without(incl, k);
      } else {
        WithoutAbsent(incl, k);
        excl := Without(excl, k);
      }
      lookup := lookup - {k};
    }

    method Reset()
      requires Valid()
      modifies this
      ensures Valid() && Contents() == Step(old(Contents()), Op.Reset)
    {
      while excl != []
        invariant Valid() && incl + excl == old(incl) + old(excl)
        decreases |excl|
      {
        ghost var before := incl + excl;
        var k := excl[0];
        assert Without(excl, k) == excl[1..];
        Swap(k);
        assert incl + excl == before;
      }
    }

    /** Moves a key to the end of the other list. */
    method Swap(k: K)
      requires Valid() && k in lookup
      modifies this
      ensures Valid() && lookup.Keys == old(lookup.Keys)
      ensures Contents() == Step(old(Contents()), if old(k in incl) then Op.Exclude(k) else Op.Include(k))
      ensures old(k !in incl) ==> incl == old(incl) + [k] && excl == Without(old(excl), k)
    {
      StepKeepsValid(Contents(), if k in incl then Op.Exclude(k) else Op.Include(k));
      WithoutIsDistinct(incl, k);
      WithoutIsDistinct(excl, k);
      if lookup[k] {
        incl := Without(incl, k);
        excl := excl + [k];
      } else {
        excl := Without(excl, k);
        incl := incl + [k];
      }
      lookup := lookup[k := !lookup[k]];
    }
  }
}
