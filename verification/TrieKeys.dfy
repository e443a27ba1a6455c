/** Byte keys and the nibble routes they are stored under. */
module TrieKeys {
  import opened Options
  import opened Bytes
  import opened TrieNodes

  /** The route of a key: two nibbles a byte, the high one first. */
  function RouteOf(key: Key): (r: Route)
    ensures |r| == 2 * |key|
  {
    seq(2 * |key|, i requires 0 <= i < 2 * |key| => if i % 2 == 0 then key[i / 2] / 16 else key[i / 2] % 16)
  }

  /**
   The key of a route.  The elements are the bytes the code works on: an odd one at the end is
   dropped, and a byte built from elements above 15 would wrap around.
   */
  function KeyOf(route: seq<int>): (k: Key)
    ensures |k| == |route| / 2
  {
    seq(|route| / 2, i requires 0 <= i < |route| / 2 => (route[2 * i] * 16 + route[2 * i + 1]) % 256)
  }

  lemma KeyRoundTrip(key: Key, tail: seq<int>)
    requires |tail| <= 1
    ensures KeyOf(RouteOf(key) + tail) == key
  {
  }

  lemma RouteRoundTrip(r: Route)
    requires |r| % 2 == 0
    ensures RouteOf(KeyOf(r)) == r
  {
    forall i | 0 <= i < |r|
      ensures RouteOf(KeyOf(r))[i] == r[i]
    {
      var j := i / 2;
      Nibbles(r[2 * j], r[2 * j + 1]);
      assert i == 2 * j || i == 2 * j + 1;
    }
  }

  /** A byte is made of its two nibbles. */
  lemma Nibbles(hi: int, lo: int)
    requires 0 <= hi < 16 && 0 <= lo < 16
    ensures (hi * 16 + lo) % 256 / 16 == hi && (hi * 16 + lo) % 256 % 16 == lo
  {
  }

  lemma RouteAt(key: Key, i: nat)
    requires i < |key|
    ensures key[i] == 16 * (RouteOf(key)[2 * i] as int) + RouteOf(key)[2 * i + 1]
  {
  }

  lemma RoutePrefix(p: Key, k: Key)
    ensures RouteOf(p) <= RouteOf(k) <==> p <= k
  {
    if RouteOf(p) <= RouteOf(k) {
      forall i | 0 <= i < |p|
        ensures p[i] == k[i]
      {
        RouteAt(p, i);
        RouteAt(k, i);
      }
    }
    if p <= k {
      forall i | 0 <= i < 2 * |p|
        ensures RouteOf(p)[i] == RouteOf(k)[i]
      {
        assert p[i / 2] == k[i / 2];
      }
    }
  }

  /** Byte-wise lexicographic order: a is before b. */
  ghost predicate Before(a: seq<int>, b: seq<int>) {
    exists n :: DiffersAt(a, b, n)
  }

  ghost predicate DiffersAt(a: seq<int>, b: seq<int>, n: int) {
    && 0 <= n <= |a| && n < |b|
    && a[..n] == b[..n]
    && (n < |a| ==> a[n] < b[n])
  }

  /** Ordering routes orders their keys. */
  lemma RouteOrder(a: Key, b: Key)
    requires Before(RouteOf(a), RouteOf(b))
    ensures Before(a, b)
  {
    var n :| DiffersAt(RouteOf(a), RouteOf(b), n);
    var m := n / 2;
    forall i | 0 <= i < m
      ensures a[i] == b[i]
    {
      RouteAt(a, i);
      RouteAt(b, i);
      assert RouteOf(a)[2 * i] == RouteOf(a)[..n][2 * i] == RouteOf(b)[2 * i];
      assert RouteOf(a)[2 * i + 1] == RouteOf(a)[..n][2 * i + 1] == RouteOf(b)[2 * i + 1];
    }
    assert a[..m] == b[..m];
    if m < |a| {
      if n % 2 == 1 {
        assert RouteOf(a)[n - 1] == RouteOf(a)[..n][n - 1] == RouteOf(b)[n - 1];
      }
      RouteAt(a, m);
      RouteAt(b, m);
      assert a[m] < b[m];
    }
    assert DiffersAt(a, b, m);
  }

  /** A strict order, so that an ascending list has no repetitions. */
  lemma BeforeIsStrictOrder(a: seq<int>, b: seq<int>, c: seq<int>)
    requires Before(a, b) && Before(b, c)
    ensures Before(a, c) && !Before(a, a)
  {
    var m :| DiffersAt(a, b, m);
    var n :| DiffersAt(b, c, n);
    var l := if m <= n then m else n;
    assert a[..l] == a[..m][..l] == b[..m][..l] == b[..l];
    assert c[..l] == c[..n][..l] == b[..n][..l] == b[..l];
    if m < n {
      assert b[m] == b[..n][m] == c[..n][m] == c[m];
    } else if n < m {
      assert a[n] == a[..m][n] == b[..m][n] == b[n];
    }
    assert DiffersAt(a, c, l);
  }

  // --------------------------------------------------------------------------------------------
  // The loops
  // --------------------------------------------------------------------------------------------

  method KeyToRoute(key: Key) returns (route: Route)
    ensures route == RouteOf(key)
  {
    var buf := new Nibble[2 * |key|](_ => 0);
    for i := 0 to |key|
      invariant forall j :: 0 <= j < 2 * i ==> buf[j] == RouteOf(key)[j]
    {
      buf[2 * i] := key[i] / 16;
      buf[2 * i + 1] := key[i] % 16;
    }
    route := buf[..];
  }

  method RouteToKey(route: seq<int>) returns (key: Key)
    ensures key == KeyOf(route)
  {
    var buf := new Byte[|route| / 2](_ => 0);
    for i := 0 to |route| / 2
      invariant forall j :: 0 <= j < i ==> buf[j] == KeyOf(route)[j]
    {
      buf[i] := (route[2 * i] * 16 + route[2 * i + 1]) % 256;
    }
    key := buf[..];
  }

  /** The length of the longest common prefix. */
  method PrefixLen(a: Route, b: Route) returns (n: nat)
    ensures n <= |a| && n <= |b| && a[..n] == b[..n]
    ensures n < |a| && n < |b| ==> a[n] != b[n]
  {
    var length := |a|;
    if |b| < length {
      length := |b|;
    }
    for i := 0 to length
      invariant a[..i] == b[..i]
    {
      if a[i] != b[i] {
        return i;
      }
    }
    return length;
  }

  // --------------------------------------------------------------------------------------------
  // A trie as a map from keys
  // --------------------------------------------------------------------------------------------

  ghost function AtRoute(m: map<Key, Value>, r: Route): Option<Value> {
    if |r| % 2 == 0 && KeyOf(r) in m then Some(m[KeyOf(r)]) else None
  }

  ghost function AtKey(m: map<Key, Value>, key: Key): Option<Value> {
    if key in m then Some(m[key]) else None
  }

  /** The trie holds exactly the entries of the map. */
  ghost predicate Represents(d: Digest, m: map<Key, Value>) {
    forall r: Route :: Lookup(d, r) == AtRoute(m, r)
  }

  lemma LookupKey(d: Digest, m: map<Key, Value>, key: Key)
    requires Represents(d, m)
    ensures Lookup(d, RouteOf(key)) == AtKey(m, key)
  {
    KeyRoundTrip(key, []);
    assert RouteOf(key) + [] == RouteOf(key);
  }

  lemma RepresentsPut(d: Digest, m: map<Key, Value>, key: Key, v: Value, d': Digest)
    requires Represents(d, m)
    requires forall s: Route :: Lookup(d', s) == if s == RouteOf(key) then Some(v) else Lookup(d, s)
    ensures Represents(d', m[key := v])
  {
    forall r: Route
      ensures Lookup(d', r) == AtRoute(m[key := v], r)
    {
      RouteAndKey(key, r);
    }
  }

  lemma RepresentsRemove(d: Digest, m: map<Key, Value>, key: Key, d': Digest)
    requires Represents(d, m)
    requires forall s: Route :: Lookup(d', s) == if s == RouteOf(key) then None else Lookup(d, s)
    ensures Represents(d', m - {key})
  {
    forall r: Route
      ensures Lookup(d', r) == AtRoute(m - {key}, r)
    {
      RouteAndKey(key, r);
    }
  }

  lemma RouteAndKey(key: Key, r: Route)
    ensures r == RouteOf(key) <==> |r| % 2 == 0 && KeyOf(r) == key
  {
    KeyRoundTrip(key, []);
    assert RouteOf(key) + [] == RouteOf(key);
    if |r| % 2 == 0 {
      RouteRoundTrip(r);
    }
  }
}
