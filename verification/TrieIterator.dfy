/**
 The iterator over the keys with a given prefix: a stack of branch nodes still to be finished, from
 which Next takes one value after the other.
 */
module TrieIterator {
  import opened Options
  import opened TrieNodes
  import opened TrieKeys
  import opened TrieLaws
  import opened Tries

  datatype Item = Item(route: Route, value: Value)

  /** The slot visited at a position: slot 16 comes first, at position -1. */
  function SlotAt(pos: int): int {
    if pos == -1 then 16 else pos
  }

  /** The byte sequence kept for a route: slot 16 leaves its index at the end. */
  ghost predicate Spells(key: seq<int>, route: Route) {
    key == route || (|key| == |route| + 1 && key[..|route|] == route)
  }

  // --------------------------------------------------------------------------------------------
  // The values below a node, in order
  // --------------------------------------------------------------------------------------------

  ghost function Items(d: Digest, route: Route): seq<Item>
    decreases d, 18
  {
    match d
    case Empty => []
    case Hash(Val(v)) => [Item(route, v)]
    case Hash(Ext(path, next)) => Items(next, route + path)
    case Hash(Branch(_)) => ItemsFrom(d, -1, route)
  }

  /** The values below the slots of a branch from a position on. */
  ghost function ItemsFrom(d: Digest, pos: int, route: Route): seq<Item>
    requires d.Hash? && d.node.Branch? && -1 <= pos <= 16
    decreases d, 16 - pos
  {
    if pos == 16 || |d.node.slots| != 17 then []
    else ItemsAt(d, pos, route) + ItemsFrom(d, pos + 1, route)
  }

  ghost function ItemsAt(d: Digest, pos: int, route: Route): seq<Item>
    requires d.Hash? && d.node.Branch? && -1 <= pos < 16 && |d.node.slots| == 17
    decreases d, 0
  {
    Items(d.node.slots[SlotAt(pos)], if pos == -1 then route else route + [pos])
  }

  ghost predicate Holds(d: Digest, route: Route, it: Item) {
    route <= it.route && Lookup(d, it.route[|route|..]) == Some(it.value)
  }

  lemma {:induction false} ItemsAreStored(d: Digest, route: Route, it: Item)
    requires Canonical(d) && it in Items(d, route)
    ensures Holds(d, route, it)
    decreases d, 18
  {
    match d.node
    case Val(_) => assert it.route[|route|..] == [];
    case Ext(path, next) =>
      ItemsAreStored(next, route + path, it);
      assert it.route[|route|..][|path|..] == it.route[|route + path|..];
    case Branch(_) => var _ := ItemsFromAreStored(d, -1, route, it);
  }

  lemma {:induction false} ItemsFromAreStored(d: Digest, pos: int, route: Route, it: Item) returns (at: int)
    requires Canonical(d) && d.Hash? && d.node.Branch? && -1 <= pos <= 16
    requires it in ItemsFrom(d, pos, route)
    ensures Holds(d, route, it)
    ensures pos <= at < 16
    ensures if at == -1 then it.route == route else |it.route| > |route| && it.route[|route|] == at
    decreases d, 16 - pos
  {
    if it in ItemsAt(d, pos, route) {
      at := pos;
      var child := d.node.slots[SlotAt(pos)];
      if pos == -1 {
        ItemsAreStored(child, route, it);
      } else {
        ItemsAreStored(child, route + [pos], it);
        assert it.route[|route|..][1..] == it.route[|route| + 1..];
      }
    } else {
      at := ItemsFromAreStored(d, pos + 1, route, it);
    }
  }

  lemma {:induction false} StoredAreItems(d: Digest, route: Route, r: Route)
    requires Canonical(d) && Has(d, r)
    ensures Item(route + r, Lookup(d, r).value) in Items(d, route)
    decreases d, 18
  {
    match d.node
    case Val(_) => assert route + r == route;
    case Ext(path, next) =>
      StoredAreItems(next, route + path, r[|path|..]);
      assert route + path + r[|path|..] == route + r;
    case Branch(_) => StoredAreItemsFrom(d, -1, route, r);
  }

  lemma {:induction false} StoredAreItemsFrom(d: Digest, pos: int, route: Route, r: Route)
    requires Canonical(d) && d.Hash? && d.node.Branch? && Has(d, r)
    requires -1 <= pos <= if r == [] then -1 else r[0]
    ensures Item(route + r, Lookup(d, r).value) in ItemsFrom(d, pos, route)
    decreases d, 16 - pos
  {
    if r == [] {
      StoredAreItems(d.node.slots[16], route, []);
    } else if pos == r[0] {
      StoredAreItems(d.node.slots[pos], route + [pos], r[1..]);
      assert route + [pos] + r[1..] == route + r;
    } else {
      StoredAreItemsFrom(d, pos + 1, route, r);
    }
  }

  ghost predicate Sorted(items: seq<Item>) {
    forall i, j :: 0 <= i < j < |items| ==> Before(items[i].route, items[j].route)
  }

  lemma SortedConcat(a: seq<Item>, b: seq<Item>)
    requires Sorted(a) && Sorted(b)
    requires forall x, y :: x in a && y in b ==> Before(x.route, y.route)
    ensures Sorted(a + b)
  {
  }

  lemma {:induction false} ItemsAreSorted(d: Digest, route: Route)
    requires Canonical(d)
    ensures Sorted(Items(d, route))
    decreases d, 18
  {
    if d.Hash? {
      match d.node
      case Val(_) =>
      case Ext(path, next) => ItemsAreSorted(next, route + path);
      case Branch(_) => ItemsFromAreSorted(d, -1, route);
    }
  }

  lemma {:induction false} ItemsFromAreSorted(d: Digest, pos: int, route: Route)
    requires Canonical(d) && d.Hash? && d.node.Branch? && -1 <= pos <= 16
    ensures Sorted(ItemsFrom(d, pos, route))
    decreases d, 16 - pos
  {
    if pos < 16 {
      ItemsAreSorted(d.node.slots[SlotAt(pos)], if pos == -1 then route else route + [pos]);
      ItemsFromAreSorted(d, pos + 1, route);
      forall x, y | x in ItemsAt(d, pos, route) && y in ItemsFrom(d, pos + 1, route)
        ensures Before(x.route, y.route)
      {
        LaterSlotsComeLater(d, pos, route, x, y);
      }
      SortedConcat(ItemsAt(d, pos, route), ItemsFrom(d, pos + 1, route));
    }
  }

  lemma LaterSlotsComeLater(d: Digest, pos: int, route: Route, x: Item, y: Item)
    requires Canonical(d) && d.Hash? && d.node.Branch? && -1 <= pos < 16
    requires x in ItemsAt(d, pos, route) && y in ItemsFrom(d, pos + 1, route)
    ensures Before(x.route, y.route)
  {
    var at := ItemsFromAreStored(d, pos + 1, route, y);
    if pos == -1 {
      ItemsAreStored(d.node.slots[16], route, x);
      assert x.route == route;
    } else {
      ItemsAreStored(d.node.slots[pos], route + [pos], x);
      assert x.route[..|route|] == (route + [pos])[..|route|] == route;
      assert x.route[|route|] == (route + [pos])[|route|];
    }
    assert y.route[..|route|] == route;
    assert DiffersAt(x.route, y.route, |route|);
  }

  // --------------------------------------------------------------------------------------------
  // The iterator
  // --------------------------------------------------------------------------------------------

  datatype State = State(node: Node, pos: int, route: Route)

  ghost predicate FilledFrom(slots: seq<Digest>, pos: int) {
    |slots| == 17 && -1 <= pos < 16 && exists p :: pos <= p < 16 && slots[SlotAt(p)].Hash?
  }

  ghost predicate StateOk(nodes: Nodes, s: State) {
    Good(nodes, Hash(s.node)) && (s.node.Branch? ==> FilledFrom(s.node.slots, s.pos))
  }

  lemma CanonicalIsFilled(d: Digest)
    requires Canonical(d) && d.Hash? && d.node.Branch?
    ensures FilledFrom(d.node.slots, -1)
  {
    var slots := d.node.slots;
    var i, j :| 0 <= i < j < 17 && slots[i].Hash? && slots[j].Hash?;
    assert slots[SlotAt(i)].Hash?;
  }

  ghost function StateItems(s: State): seq<Item> {
    if !s.node.Branch? then Items(Hash(s.node), s.route)
    else if -1 <= s.pos <= 16 then ItemsFrom(Hash(s.node), s.pos, s.route)
    else []
  }

  /** Everything the states on a stack will still yield, the top of the stack first. */
  ghost function Pending(stack: seq<State>): seq<Item> {
    if stack == [] then []
    else StateItems(stack[|stack| - 1]) + Pending(stack[..|stack| - 1])
  }

  /** The positions from offset on at which a branch has a filled slot. */
  method ValidElements(offset: int, slots: seq<Digest>) returns (valid: seq<int>)
    requires |slots| == 17 && -1 <= offset < 16
    ensures forall p :: p in valid <==> offset <= p < 16 && slots[SlotAt(p)].Hash?
    ensures forall i, j :: 0 <= i < j < |valid| ==> valid[i] < valid[j]
  {
    valid := [];
    for i := offset to 16
      invariant forall p :: p in valid <==> offset <= p < i && slots[SlotAt(p)].Hash?
      invariant forall a :: 0 <= a < |valid| ==> valid[a] < i
      invariant forall a, b :: 0 <= a < b < |valid| ==> valid[a] < valid[b]
    {
      if i == -1 {
        if slots[16] != Empty {
          valid := valid + [-1];
        }
      } else if slots[i] != Empty {
        valid := valid + [i];
      }
    }
  }

  /** Empty slots yield nothing. */
  lemma {:induction false} SkipEmptySlots(d: Digest, pos: int, next: int, route: Route)
    requires Canonical(d) && d.Hash? && d.node.Branch? && -1 <= pos <= next <= 16
    requires forall p :: pos <= p < next ==> d.node.slots[SlotAt(p)].Empty?
    ensures ItemsFrom(d, pos, route) == ItemsFrom(d, next, route)
    decreases next - pos
  {
    if pos < next {
      SkipEmptySlots(d, pos + 1, next, route);
      assert d.node.slots[SlotAt(pos)].Empty?;
      assert ItemsAt(d, pos, route) == [];
    }
  }

  /** What a branch yields, in terms of its first and second filled positions. */
  lemma SplitFirst(d: Digest, pos: int, valid: seq<int>, route: Route)
    requires Canonical(d) && d.Hash? && d.node.Branch? && -1 <= pos < 16 && valid != []
    requires forall p :: p in valid <==> pos <= p < 16 && d.node.slots[SlotAt(p)].Hash?
    requires forall i, j :: 0 <= i < j < |valid| ==> valid[i] < valid[j]
    ensures -1 <= valid[0] < 16 && d.node.slots[SlotAt(valid[0])].Hash?
    ensures |valid| > 1 ==> -1 <= valid[1] < 16 && d.node.slots[SlotAt(valid[1])].Hash?
    ensures ItemsFrom(d, pos, route) ==
            ItemsAt(d, valid[0], route) + if |valid| > 1 then ItemsFrom(d, valid[1], route) else []
  {
    assert valid[0] in valid;
    var next := 16;
    if |valid| > 1 {
      assert valid[1] in valid;
      next := valid[1];
    }
    SkipEmptySlots(d, pos, valid[0], route);
    SkipEmptySlots(d, valid[0] + 1, next, route);
  }

  /** The items are the entries whose keys have the prefix, each once and in order. */
  ghost predicate Enumerates(items: seq<Item>, m: map<Key, Value>, prefix: Key) {
    && (forall it :: it in items ==> |it.route| % 2 == 0 && prefix <= KeyOf(it.route) &&
                                     AtKey(m, KeyOf(it.route)) == Some(it.value))
    && (forall k :: k in m && prefix <= k ==> Item(RouteOf(k), m[k]) in items)
    && Sorted(items)
  }

  /** The subtrie at h, reached over route, holds all that the trie holds under the prefix. */
  ghost predicate Covers(root: Digest, prefix: Route, h: Digest, route: Route) {
    forall s: Route :: prefix <= s ==>
      Lookup(root, s) == if route <= s then Lookup(h, s[|route|..]) else None
  }

  /** The state of the search for a prefix: the subtrie reached, the route to it, what is left. */
  ghost predicate Searching(root: Digest, whole: Route, cur: Digest, route: Route, rest: Route) {
    && (if rest != [] then route + rest == whole else whole <= route)
    && Covers(root, whole, cur, route)
  }

  ghost predicate NothingUnder(root: Digest, whole: Route) {
    forall s: Route :: whole <= s ==> !Has(root, s)
  }

  /** The part of the trie below a prefix, and the route to it. */
  method SubTrie(t: Trie, prefix: Key) returns (found: Option<(Digest, Route)>)
    requires t.Valid()
    ensures found.Some? ==> var (h, route) := found.value;
              Good(t.storage.nodes, h) && Searching(t.rootHash, RouteOf(prefix), h, route, [])
    ensures found.None? ==> NothingUnder(t.rootHash, RouteOf(prefix))
  {
    var rest := KeyToRoute(prefix);
    ghost var whole := rest;
    var cur, route: Route := t.rootHash, [];
    CoverStart(t.rootHash, whole);
    var more := true;
    while |rest| > 0
      invariant Good(t.storage.nodes, cur) && Searching(t.rootHash, whole, cur, route, rest)
      decreases cur
    {
      more, cur, route, rest := SubTrieStep(t, whole, cur, route, rest);
      if !more {
        return None;
      }
    }
    return Some((cur, route));
  }

  method SubTrieStep(t: Trie, ghost whole: Route, cur: Digest, route: Route, rest: Route)
    returns (more: bool, cur': Digest, route': Route, rest': Route)
    requires Good(t.storage.nodes, cur) && rest != []
    requires Searching(t.rootHash, whole, cur, route, rest)
    ensures !more ==> NothingUnder(t.rootHash, whole)
    ensures more ==> Good(t.storage.nodes, cur') && Searching(t.rootHash, whole, cur', route', rest')
    ensures more ==> cur' < cur
  {
    more, cur', route', rest' := false, cur, route, rest;
    var fetched := t.FetchNode(cur);
    if fetched.Err? {
      CoverNothing(t.rootHash, whole, cur, route, rest);
      return;
    }
    match fetched.value
    case Branch(slots) =>
      CoverThroughSlot(t.rootHash, whole, cur, route, rest);
      return true, slots[rest[0]], route + [rest[0]], rest[1..];
    case Ext(path, next) =>
      var matchLen := PrefixLen(path, rest);
      if matchLen != |path| && matchLen != |rest| {
        CoverNothing(t.rootHash, whole, cur, route, rest);
        return;
      }
      CoverThroughExt(t.rootHash, whole, path, next, route);
      RestAfterExt(whole, route, path, rest, matchLen);
      return true, next, route + path, rest[matchLen..];
    case Val(_) =>
      CoverNothing(t.rootHash, whole, cur, route, rest);
      return;
  }

  lemma CoverStart(root: Digest, whole: Route)
    ensures Covers(root, whole, root, [])
  {
    var empty: Route := [];
    forall s: Route | whole <= s
      ensures Lookup(root, s) == Lookup(root, s[|empty|..])
    {
      assert s[|empty|..] == s;
    }
  }

  /** Nothing below a node agrees with what is left of the prefix. */
  lemma CoverNothing(root: Digest, whole: Route, cur: Digest, route: Route, rest: Route)
    requires Covers(root, whole, cur, route) && route + rest == whole && rest != []
    requires match cur
             case Empty => true
             case Hash(Val(_)) => true
             case Hash(Ext(path, _)) => exists n: nat :: n < |path| && n < |rest| && path[n] != rest[n]
             case Hash(Branch(_)) => false
    ensures NothingUnder(root, whole)
  {
    forall s: Route | whole <= s
      ensures !Has(root, s)
    {
      assert rest <= s[|route|..] by {
        assert s == whole + s[|whole|..];
      }
    }
  }

  lemma RestAfterExt(whole: Route, route: Route, path: Route, rest: Route, n: nat)
    requires route + rest == whole && n <= |path| && n <= |rest| && path[..n] == rest[..n]
    requires n == |path| || n == |rest|
    ensures if n < |rest| then route + path + rest[n..] == whole else whole <= route + path
  {
    assert rest == path[..n] + rest[n..];
    if n == |path| {
      assert path[..n] == path;
    } else {
      assert path == rest + path[n..];
    }
  }

  lemma CoverThroughSlot(root: Digest, whole: Route, cur: Digest, route: Route, rest: Route)
    requires Covers(root, whole, cur, route) && route + rest == whole && rest != []
    requires cur.Hash? && cur.node.Branch? && |cur.node.slots| == 17
    ensures Covers(root, whole, cur.node.slots[rest[0]], route + [rest[0]])
  {
    forall s: Route | whole <= s
      ensures Lookup(root, s) == if route + [rest[0]] <= s
                                 then Lookup(cur.node.slots[rest[0]], s[|route| + 1..]) else None
    {
      assert s[|route|] == whole[|route|] == rest[0];
      assert s[|route|..][1..] == s[|route| + 1..];
    }
  }

  lemma CoverThroughExt(root: Digest, whole: Route, path: Route, next: Digest, route: Route)
    requires Covers(root, whole, Hash(Ext(path, next)), route)
    ensures Covers(root, whole, next, route + path)
  {
    forall s: Route | whole <= s
      ensures Lookup(root, s) == if route + path <= s then Lookup(next, s[|route + path|..]) else None
    {
      PrefixOfConcat(route, path, s);
      if route + path <= s {
        assert s[|route|..][|path|..] == s[|route + path|..];
      }
    }
  }

  lemma EnumeratesSubTrie(root: Digest, m: map<Key, Value>, prefix: Key, h: Digest, route: Route)
    requires Represents(root, m) && Canonical(h)
    requires Searching(root, RouteOf(prefix), h, route, [])
    ensures Enumerates(Items(h, route), m, prefix)
  {
    var items := Items(h, route);
    forall it | it in items
      ensures |it.route| % 2 == 0 && prefix <= KeyOf(it.route) && AtKey(m, KeyOf(it.route)) == Some(it.value)
    {
      ItemsAreStored(h, route, it);
      assert RouteOf(prefix) <= it.route;
      assert Lookup(root, it.route) == Some(it.value);
      RouteRoundTrip(it.route);
      RoutePrefix(prefix, KeyOf(it.route));
    }
    forall k | k in m && prefix <= k
      ensures Item(RouteOf(k), m[k]) in items
    {
      RoutePrefix(prefix, k);
      LookupKey(root, m, k);
      StoredAreItems(h, route, RouteOf(k)[|route|..]);
      assert route + RouteOf(k)[|route|..] == RouteOf(k);
    }
    ItemsAreSorted(h, route);
  }

  lemma EnumeratesNothing(root: Digest, m: map<Key, Value>, prefix: Key)
    requires Represents(root, m)
    requires NothingUnder(root, RouteOf(prefix))
    ensures Enumerates([], m, prefix)
  {
    forall k | k in m
      ensures !(prefix <= k)
    {
      RoutePrefix(prefix, k);
      LookupKey(root, m, k);
      assert Has(root, RouteOf(k));
    }
  }

  /** The state an iteration of a subtrie starts in: a branch starts at its first filled position. */
  method FirstState(node: Node, route: Route) returns (s: State)
    requires Canonical(Hash(node))
    ensures s.node == node && (node.Branch? ==> FilledFrom(node.slots, s.pos))
    ensures StateItems(s) == Items(Hash(node), route)
  {
    var pos := -1;
    if node.Branch? {
      CanonicalIsFilled(Hash(node));
      var valid := ValidElements(-1, node.slots);
      if |valid| > 0 {
        pos := valid[0];
        assert valid[0] in valid;
        assert forall p :: -1 <= p < pos ==> p !in valid;
        SkipEmptySlots(Hash(node), -1, pos, route);
      }
    }
    s := State(node, pos, route);
  }

  /** The stack of a new iterator. */
  method Start(t: Trie, prefix: Key) returns (states: seq<State>)
    requires t.Valid()
    ensures forall s :: s in states ==> StateOk(t.storage.nodes, s)
    ensures Enumerates(Pending(states), t.contents, prefix)
  {
    var found := SubTrie(t, prefix);
    if found.None? {
      EnumeratesNothing(t.rootHash, t.contents, prefix);
      return [];
    }
    var (h, route) := found.value;
    EnumeratesSubTrie(t.rootHash, t.contents, prefix, h, route);
    states := StartAt(t, h, route);
  }

  method StartAt(t: Trie, h: Digest, route: Route) returns (states: seq<State>)
    requires Good(t.storage.nodes, h)
    ensures forall s :: s in states ==> StateOk(t.storage.nodes, s)
    ensures Pending(states) == Items(h, route)
  {
    if h == Empty {
      return [];
    }
    var fetched := t.FetchNode(h);
    var first := FirstState(fetched.value, route);
    states := [first];
    PendingConcat([], [first]);
    assert [] + [first] == [first] && [first][..0] == [];
  }

  lemma FreshStateItems(node: Node, route: Route)
    ensures StateItems(State(node, -1, route)) == Items(Hash(node), route)
  {
  }

  ghost function Descended(route: Route, slot: int): Route
    requires 0 <= slot <= 16
  {
    if slot == 16 then route else route + [slot]
  }

  lemma PendingConcat(stack: seq<State>, rest: seq<State>)
    requires |rest| <= 1
    ensures Pending(stack + rest) == Pending(rest) + Pending(stack)
  {
    if rest == [] {
      assert stack + rest == stack;
    } else {
      assert (stack + rest)[..|stack|] == stack;
      assert rest[..0] == [];
    }
  }

  /** Takes the first filled slot of a branch; the rest of the branch is left for later. */
  method EnterBranch(t: Trie, node: Node, pos: int, route: Route)
    returns (child: Node, slot: int, rest: seq<State>)
    requires StateOk(t.storage.nodes, State(node, pos, route)) && node.Branch?
    ensures 0 <= slot <= 16 && node.slots[slot] == Hash(child) && (slot == 16 ==> child.Val?)
    ensures StateOk(t.storage.nodes, State(child, -1, Descended(route, slot)))
    ensures |rest| <= 1 && forall s :: s in rest ==> StateOk(t.storage.nodes, s)
    ensures StateItems(State(node, pos, route)) ==
            StateItems(State(child, -1, Descended(route, slot))) + Pending(rest)
  {
    ghost var d := Hash(node);
    var valid := ValidElements(pos, node.slots);
    assert valid != [];
    SplitFirst(d, pos, valid, route);
    rest := [];
    if |valid| > 1 {
      rest := [State(node, valid[1], route)];
      assert rest[..0] == [] && Pending(rest) == ItemsFrom(d, valid[1], route) + [];
    }
    slot := SlotAt(valid[0]);
    assert Stored(t.storage.nodes, node.slots[slot]);
    var fetched := t.FetchNode(node.slots[slot]);
    child := fetched.value;
    if child.Branch? {
      CanonicalIsFilled(Hash(child));
    }
    FreshStateItems(child, Descended(route, slot));
  }

  method EnterExt(t: Trie, node: Node, pos: int, route: Route) returns (child: Node)
    requires StateOk(t.storage.nodes, State(node, pos, route)) && node.Ext?
    ensures node.next == Hash(child)
    ensures StateOk(t.storage.nodes, State(child, -1, route + node.path))
    ensures StateItems(State(node, pos, route)) == StateItems(State(child, -1, route + node.path))
  {
    assert Stored(t.storage.nodes, node.next);
    var fetched := t.FetchNode(node.next);
    child := fetched.value;
    if child.Branch? {
      CanonicalIsFilled(Hash(child));
    }
    FreshStateItems(child, route + node.path);
  }

  class Iterator {
    const root: Trie
    var stack: seq<State>
    var key: seq<int>
    var value: Value

    ghost predicate Valid()
      reads this, root, root.storage
    {
      forall s :: s in stack ==> StateOk(root.storage.nodes, s)
    }

    constructor (t: Trie, prefix: Key)
      requires t.Valid()
      ensures Valid() && root == t && Enumerates(Pending(stack), t.contents, prefix)
    {
      root := t;
      key, value := [], [];
      var states := Start(t, prefix);
      stack := states;
    }

    /** Moves to the next value; false when there is none left. */
    method Next() returns (more: bool)
      requires Valid()
      modifies this
      ensures Valid()
      ensures more <==> Pending(old(stack)) != []
      ensures more ==> value == Pending(old(stack))[0].value
      ensures more ==> Spells(key, Pending(old(stack))[0].route)
      ensures Pending(stack) == if more then Pending(old(stack))[1..] else []
    {
      if stack == [] {
        return false;
      }
      var state := stack[|stack| - 1];
      stack := stack[..|stack| - 1];
      var node, pos, trail: seq<int> := state.node, state.pos, state.route;
      ghost var route: Route := state.route;
      while !node.Val?
        invariant Valid() && StateOk(root.storage.nodes, State(node, pos, route))
        invariant if node.Val? then Spells(trail, route) else trail == route
        invariant StateItems(State(node, pos, route)) + Pending(stack) == Pending(old(stack))
        decreases Hash(node)
      {
        node, trail, route := Descend(node, pos, trail);
        pos := -1;
      }
      value := node.value;
      key := trail;
      return true;
    }

    /** One level down; what is left of a branch goes on the stack. */
    method Descend(node: Node, pos: int, trail: Route) returns (child: Node, trail': seq<int>, ghost route: Route)
      requires Valid() && StateOk(root.storage.nodes, State(node, pos, trail)) && !node.Val?
      modifies this`stack
      ensures Valid() && StateOk(root.storage.nodes, State(child, -1, route)) && Hash(child) < Hash(node)
      ensures if child.Val? then Spells(trail', route) else trail' == route
      ensures StateItems(State(child, -1, route)) + Pending(stack) ==
              StateItems(State(node, pos, trail)) + Pending(old(stack))
    {
      if node.Branch? {
        child, trail', route := DescendBranch(node, pos, trail);
      } else {
        child := EnterExt(root, node, pos, trail);
        trail' := trail + node.path;
        route := trail + node.path;
      }
    }

    method DescendBranch(node: Node, pos: int, trail: Route) returns (child: Node, trail': seq<int>, ghost route: Route)
      requires Valid() && StateOk(root.storage.nodes, State(node, pos, trail)) && node.Branch?
      modifies this`stack
      ensures Valid() && StateOk(root.storage.nodes, State(child, -1, route)) && Hash(child) < Hash(node)
      ensures if child.Val? then Spells(trail', route) else trail' == route
      ensures StateItems(State(child, -1, route)) + Pending(stack) ==
              StateItems(State(node, pos, trail)) + Pending(old(stack))
    {
      var slot, rest;
      child, slot, rest := EnterBranch(root, node, pos, trail);
      PendingConcat(stack, rest);
      trail' := trail + [slot];
      route := Descended(trail, slot);
      InThree(StateItems(State(child, -1, route)), Pending(rest), Pending(stack));
      stack := stack + rest;
    }
  }

  lemma InThree(a: seq<Item>, b: seq<Item>, c: seq<Item>)
    ensures a + b + c == a + (b + c)
  {
  }

  /** The keys with a prefix. */
  method Keys(t: Trie, prefix: Key) returns (keys: seq<Key>)
    requires t.Valid()
    ensures forall k :: k in keys <==> k in t.contents && prefix <= k
    ensures forall i, j :: 0 <= i < j < |keys| ==> Before(keys[i], keys[j])
  {
    var it := new Iterator(t, prefix);
    ghost var items := Pending(it.stack);
    keys := Drain(it, items);
    KeysOfItems(items, t.contents, prefix, keys);
  }

  ghost predicate WholeBytes(items: seq<Item>) {
    forall i :: 0 <= i < |items| ==> |items[i].route| % 2 == 0
  }

  method Drain(it: Iterator, ghost items: seq<Item>) returns (keys: seq<Key>)
    requires it.Valid() && Pending(it.stack) == items && WholeBytes(items)
    modifies it
    ensures |keys| == |items| && forall j :: 0 <= j < |items| ==> keys[j] == KeyOf(items[j].route)
  {
    keys := [];
    assert items == items[0..];
    while true
      invariant it.Valid() && |keys| <= |items| && Pending(it.stack) == items[|keys|..]
      invariant forall j :: 0 <= j < |keys| ==> keys[j] == KeyOf(items[j].route)
      decreases |items| - |keys|
    {
      var exist, k := NextKey(it);
      if !exist {
        break;
      }
      assert items[|keys|..][1..] == items[|keys| + 1..];
      keys := keys + [k];
    }
  }

  method NextKey(it: Iterator) returns (exist: bool, k: Key)
    requires it.Valid() && WholeBytes(Pending(it.stack))
    modifies it
    ensures it.Valid() && exist == (Pending(old(it.stack)) != [])
    ensures exist ==> k == KeyOf(Pending(old(it.stack))[0].route)
    ensures exist ==> Pending(it.stack) == Pending(old(it.stack))[1..]
  {
    k := [];
    exist := it.Next();
    if exist {
      k := RouteToKey(it.key);
      OddTailIsDropped(Pending(old(it.stack))[0].route, it.key);
    }
  }

  lemma OddTailIsDropped(route: Route, key: seq<int>)
    requires |route| % 2 == 0 && Spells(key, route)
    ensures KeyOf(key) == KeyOf(route)
  {
  }

  lemma KeysOfItems(items: seq<Item>, m: map<Key, Value>, prefix: Key, keys: seq<Key>)
    requires Enumerates(items, m, prefix)
    requires |keys| == |items| && forall j :: 0 <= j < |items| ==> keys[j] == KeyOf(items[j].route)
    ensures forall k :: k in keys <==> k in m && prefix <= k
    ensures forall i, j :: 0 <= i < j < |keys| ==> Before(keys[i], keys[j])
  {
    forall k
      ensures k in keys <==> k in m && prefix <= k
    {
      if k in keys {
        var j :| 0 <= j < |keys| && keys[j] == k;
        assert items[j] in items;
      }
      if k in m && prefix <= k {
        var j :| 0 <= j < |items| && items[j] == Item(RouteOf(k), m[k]);
        KeyRoundTrip(k, []);
        assert RouteOf(k) + [] == RouteOf(k);
        assert keys[j] == k;
      }
    }
    forall i, j | 0 <= i < j < |keys|
      ensures Before(keys[i], keys[j])
    {
      KeysAreOrdered(items, m, prefix, i, j);
    }
  }

  lemma KeysAreOrdered(items: seq<Item>, m: map<Key, Value>, prefix: Key, i: nat, j: nat)
    requires Enumerates(items, m, prefix) && i < j < |items|
    ensures Before(KeyOf(items[i].route), KeyOf(items[j].route))
  {
    assert items[i] in items && items[j] in items;
    RouteRoundTrip(items[i].route);
    RouteRoundTrip(items[j].route);
    RouteOrder(KeyOf(items[i].route), KeyOf(items[j].route));
  }
}
