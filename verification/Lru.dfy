/**
 One shard of the LRU cache (lru_move_to_front, lru_evict, and get, put and delete on the shard):
 a doubly linked list and a hash map changed together under a byte budget.
 */
module Lru {
  import opened Common
  import opened Keys

  datatype Slot = Slot(path: Path, value: Bytes, size: nat)

  class Node {
    const path: Path
    var value: Bytes
    var size: nat
    var next: Node?
    var prev: Node?

    constructor (path: Path, value: Bytes, size: nat)
      ensures this.path == path && this.value == value && this.size == size && next == null && prev == null
    {
      this.path := path;
      this.value := value;
      this.size := size;
      next := null;
      prev := null;
    }
  }

  // ---------------------------------------------------------------- on sequences

  function NodeAt(nodes: seq<Node>, i: int): Node? {
    if 0 <= i < |nodes| then nodes[i] else null
  }

  /** The links follow the sequence both ways. */
  ghost predicate Linked(nodes: seq<Node>)
    reads nodes`next, nodes`prev
  {
    && (forall i {:trigger nodes[i].next} | 0 <= i < |nodes| :: nodes[i].next == NodeAt(nodes, i + 1))
    && (forall i {:trigger nodes[i].prev} | 0 <= i < |nodes| :: nodes[i].prev == NodeAt(nodes, i - 1))
  }

  ghost predicate Distinct(nodes: seq<Node>) {
    forall i, j | 0 <= i < j < |nodes| :: nodes[i] != nodes[j] && nodes[i].path != nodes[j].path
  }

  function Sum(slots: seq<Slot>): nat {
    if slots == [] then 0 else Sum(slots[..|slots| - 1]) + slots[|slots| - 1].size
  }

  lemma {:induction false} SumAppend(a: seq<Slot>, b: seq<Slot>)
    ensures Sum(a + b) == Sum(a) + Sum(b)
  {
    if b == [] {
      assert a + b == a;
    } else {
      assert (a + b)[..|a + b| - 1] == a + b[..|b| - 1];
      SumAppend(a, b[..|b| - 1]);
    }
  }

  lemma SumOne(x: Slot)
    ensures Sum([x]) == x.size
  {
    assert [x][..0] == [];
  }

  lemma CutAt(s: seq<Slot>, at: nat)
    requires at < |s|
    ensures s == s[..at] + ([s[at]] + s[at + 1..]) && Without(s, at) == s[..at] + s[at + 1..]
  {
  }

  lemma SumWithout(s: seq<Slot>, at: nat)
    requires at < |s|
    ensures Sum(Without(s, at)) + s[at].size == Sum(s)
  {
    hide Sum, Without;
    var a, x, b := s[..at], [s[at]], s[at + 1..];
    CutAt(s, at);
    SumAppend(a, b);
    SumAppend(a, x + b);
    SumAppend(x, b);
    SumOne(s[at]);
  }

  /** What remains when slots are dropped from the old end until `need` more bytes fit. */
  ghost function Trimmed(slots: seq<Slot>, need: nat, budget: nat): seq<Slot> {
    if slots == [] || Sum(slots) + need <= budget then slots else Trimmed(slots[..|slots| - 1], need, budget)
  }

  /** Nothing more is dropped than has to be. */
  lemma {:induction false} TrimmedIs(slots: seq<Slot>, need: nat, budget: nat)
    ensures Trimmed(slots, need, budget) <= slots
    ensures Trimmed(slots, need, budget) == [] || Sum(Trimmed(slots, need, budget)) + need <= budget
    ensures forall n | |Trimmed(slots, need, budget)| < n <= |slots| :: Sum(slots[..n]) + need > budget
  {
    if slots != [] && Sum(slots) + need > budget {
      var rest := slots[..|slots| - 1];
      TrimmedIs(rest, need, budget);
      forall n | |Trimmed(slots, need, budget)| < n <= |slots| ensures Sum(slots[..n]) + need > budget {
        if n == |slots| { assert slots[..n] == slots; } else { assert slots[..n] == rest[..n]; }
      }
    }
  }

  /** The slots are what the nodes hold. */
  ghost predicate Described(nodes: seq<Node>, slots: seq<Slot>)
    reads nodes`value, nodes`size
  {
    && |slots| == |nodes|
    && forall i | 0 <= i < |nodes| :: slots[i] == Slot(nodes[i].path, nodes[i].value, nodes[i].size)
  }

  /** The hash map has exactly the nodes, each under its path. */
  ghost predicate Mapped(nodes: seq<Node>, cache: map<Path, Node>) {
    && (forall i | 0 <= i < |nodes| :: nodes[i].path in cache && cache[nodes[i].path] == nodes[i])
    && (forall p | p in cache :: cache[p] in nodes && cache[p].path == p)
  }

  // ---------------------------------------------------------------- the shard

  class Shard {
    var first: Node?
    var last: Node?
    var cache: map<Path, Node>
    var memory: nat
    var count: nat
    const budget: nat
    ghost var spine: seq<Node>
    ghost var slots: seq<Slot>    // most recently used first

    /** List, reverse links and pointers describe one sequence of distinct nodes and paths. */
    ghost predicate Shape()
      reads this`first, this`last, this`spine, spine`next, spine`prev
    {
      && Linked(spine) && Distinct(spine) && first == NodeAt(spine, 0) && last == NodeAt(spine, |spine| - 1)
    }

    ghost predicate Valid()
      reads this, spine
    {
      && Shape() && Described(spine, slots) && Mapped(spine, cache)
      && memory == Sum(slots) && count == |slots|
    }

    constructor (budget: nat)
      ensures Valid() && slots == [] && this.budget == budget && fresh(spine)
    {
      this.budget := budget;
      first, last, cache, memory, count := null, null, map[], 0, 0;
      spine, slots := [], [];
    }

    /** Take a node out of the list. */
    method Unlink(node: Node, ghost at: nat)
      requires Shape() && at < |spine| && node == spine[at]
      modifies this`first, this`last, this`spine, spine`next, spine`prev
      ensures Shape() && spine == Without(old(spine), at)
    {
      ghost var all := spine;
      assert all[at].prev == NodeAt(all, at - 1) && all[at].next == NodeAt(all, at + 1);
      if node.prev != null { node.prev.next := node.next; }
      if node.next != null { node.next.prev := node.prev; }
      if node == first { first := node.next; }
      if node == last { last := node.prev; }
      spine := Without(all, at);
      StillLinked(all, at);
      StillDistinct(all, at);
      EndsAre(all, at);
      hide Without, Linked, Distinct, NodeAt;
    }

    /** Put a node in front of the list. */
    method PushFront(node: Node)
      requires Shape() && forall i | 0 <= i < |spine| :: spine[i] != node && spine[i].path != node.path
      modifies this`first, this`last, this`spine, node`next, node`prev, spine`prev
      ensures Shape() && spine == [node] + old(spine)
    {
      ghost var all := spine;
      node.prev := null;
      node.next := first;
      if first != null {
        assert first == all[0];
        first.prev := node;
      }
      first := node;
      if last == null { last := node; }
      spine := [node] + all;
      FrontLinked(all, node);
      FrontDistinct(all, node);
      hide Linked, Distinct;
    }

    method Relink(node: Node, ghost at: nat)
      requires Shape() && at < |spine| && node == spine[at]
      modifies this`first, this`last, this`spine, spine`next, spine`prev
      ensures Shape() && spine == [node] + Without(old(spine), at)
    {
      ghost var all := spine;
      StillDistinct(all, at);
      AllPaths(all, at);
      hide Linked, Distinct, Without;
      Unlink(node, at);
      assert forall i | 0 <= i < |spine| :: spine[i] in all;
      PushFront(node);
    }

    /** lru_move_to_front. */
    method MoveToFront(node: Node, ghost at: nat)
      requires Valid() && at < |spine| && node == spine[at]
      modifies this`first, this`last, this`spine, this`slots, spine`next, spine`prev
      ensures Valid() && slots == [old(slots[at])] + Without(old(slots), at) && spine == [node] + Without(old(spine), at)
    {
      hide Linked, Without, Sum, Distinct, Shape, Described, Mapped;
      FirstIs();
      ghost var all := spine;
      MovedSlots(all, slots, at);
      ghost var next := [slots[at]] + Without(slots, at);
      if node == first {
        WithoutFirst(slots);
        WithoutFirst(spine);
      } else {
        MovedMap(all, cache, at);
        MovedSum(slots, at);
        Relink(node, at);
        slots := next;
      }
    }

    /** Remove a node from map and list. */
    method Drop(node: Node, ghost at: nat)
      requires Valid() && at < |spine| && node == spine[at]
      modifies this, spine`next, spine`prev
      ensures Valid() && |old(slots)| == |old(spine)| && slots == Without(old(slots), at) && spine == Without(old(spine), at)
      ensures forall q | q in cache :: q in old(cache)
    {
      hide Linked, Without, Sum, Distinct, Shape, Described, Mapped;
      ghost var all, was := spine, slots;
      ShapeParts();
      DroppedSlots(all, was, at);
      DroppedMap(all, cache, at);
      SumWithout(was, at);
      cache := cache - {node.path};
      assert Described(Without(all, at), Without(was, at));
      Unlink(node, at);
      assert Described(spine, Without(was, at));
      memory := memory - node.size;
      count := count - 1;
      slots := Without(was, at);
    }

    /** lru_evict: the least recently used entry goes. */
    method Evict() returns (value: Bytes)
      requires Valid() && slots != []
      modifies this, spine`next, spine`prev
      ensures Valid() && slots == old(slots)[..|old(slots)| - 1] && value == old(slots)[|old(slots)| - 1].value
      ensures |old(spine)| == |old(slots)| && spine == old(spine)[..|old(spine)| - 1] && forall q | q in cache :: q in old(cache)
    {
      hide Linked, Without, Sum, Distinct, Shape, Described, Mapped;
      LastIs();
      var node := last;
      value := node.value;
      ghost var n := |spine| - 1;
      WithoutLast(slots);
      WithoutLast(spine);
      Drop(node, n);
    }

    /** database_lru_cache_get on the shard: a hit becomes the most recent entry. */
    method Get(p: Path) returns (value: Option<Bytes>)
      requires Valid()
      modifies this, spine`next, spine`prev
      ensures Valid() && forall i | 0 <= i < |spine| :: spine[i] in old(spine)
      ensures value == Find(old(slots), p) && (value.None? ==> slots == old(slots))
      ensures forall q :: Find(slots, q) == Find(old(slots), q)
      ensures value.Some? ==> exists at :: 0 <= at < |old(slots)| && old(slots)[at].path == p && slots == [old(slots)[at]] + Without(old(slots), at)
    {
      hide Linked, Without, Sum, Distinct, Shape, Described, Mapped, Find;
      ShapeParts();
      FindIs(spine, slots, cache, p);
      if p !in cache {
        return None;
      }
      var node := cache[p];
      ghost var at :| 0 <= at < |spine| && spine[at] == node;
      NodeSlot(spine, slots, at);
      value := Some(node.value);
      ghost var was := slots;
      SlotPaths(spine, slots);
      WithoutIn(spine, at);
      MoveToFront(node, at);
      MovedFind(was, at);
    }

    /** Put on a path that is cached: new value, and to the front. */
    method Update(node: Node, v: Bytes, size: nat, ghost at: nat)
      requires Valid() && at < |spine| && node == spine[at]
      modifies this, spine
      ensures Valid() && |old(slots)| == |old(spine)| && slots == [Slot(node.path, v, size)] + Without(old(slots), at)
      ensures spine == [node] + Without(old(spine), at)
    {
      hide Linked, Without, Sum, Distinct, Shape, Mapped;
      ShapeParts();
      Others(spine, at);
      ghost var was := slots;
      NodeSlot(spine, slots, at);
      UpdatedSum(was, at, Slot(node.path, v, size));
      SizeBound(was, at);
      ghost var next := was[at := Slot(node.path, v, size)];
      memory := memory - node.size + size;
      node.value := v;
      node.size := size;
      slots := next;
      UpdatedSlots(spine, was, at, next);
      MoveToFront(node, at);
    }

    /** database_lru_cache_put on the shard. A new entry makes room for itself from the old end; the
        shard is then within its budget or holds nothing else. */
    method Put(p: Path, v: Bytes, size: nat) returns (displaced: Option<Bytes>)
      requires Valid()
      modifies this, spine
      ensures Valid() && displaced == Find(old(slots), p)
      ensures displaced.Some? ==> exists at :: 0 <= at < |old(slots)| && old(slots)[at].path == p && slots == [Slot(p, v, size)] + Without(old(slots), at)
      ensures displaced.None? ==> slots == [Slot(p, v, size)] + Trimmed(old(slots), size, budget)
      ensures displaced.None? ==> memory <= budget || |slots| == 1
      ensures forall n | n in spine && n !in old(spine) :: fresh(n)
    {
      hide Linked, Without, Sum, Distinct, Shape, Described, Mapped, Find, Trimmed;
      ShapeParts();
      FindIs(spine, slots, cache, p);
      if p in cache {
        var node := cache[p];
        ghost var at :| 0 <= at < |spine| && spine[at] == node;
        NodeSlot(spine, slots, at);
        displaced := Some(node.value);
        ghost var all := spine;
        StillDistinct(all, at);
        Update(node, v, size, at);
        return;
      }
      displaced := None;
      ghost var was, all := slots, spine;
      TrimmedIs(was, size, budget);
      MakeRoom(p, size);
      var node := new Node(p, v, size);
      assert forall i | 0 <= i < |spine| :: spine[i] in all;
      AddFront(node);
      SumAppend([Slot(p, v, size)], Trimmed(was, size, budget));
      SumOne(Slot(p, v, size));
      SumNone();
    }

    /** The eviction loop. */
    method MakeRoom(p: Path, size: nat)
      requires Valid() && p !in cache
      modifies this, spine`next, spine`prev
      ensures Valid() && p !in cache && slots == Trimmed(old(slots), size, budget)
      ensures forall i | 0 <= i < |spine| :: spine[i] in old(spine)
    {
      hide Linked, Without, Sum, Distinct, Shape, Described, Mapped, Trimmed;
      ghost var all := spine;
      while memory + size > budget && last != null
        invariant Valid() && p !in cache && Trimmed(slots, size, budget) == Trimmed(old(slots), size, budget)
        invariant forall i | 0 <= i < |spine| :: spine[i] in all
        decreases |slots|
      {
        Ends();
        TrimStep(slots, size, budget);
        ghost var before := spine;
        var _ := Evict();
        assert forall i | 0 <= i < |spine| :: spine[i] == before[i];
      }
      Ends();
      TrimStep(slots, size, budget);
    }

    /** A new node goes into map and list. */
    method AddFront(node: Node)
      requires Valid() && node.path !in cache && node !in spine
      modifies this, node`next, node`prev, spine`prev
      ensures Valid() && slots == [Slot(node.path, node.value, node.size)] + old(slots) && spine == [node] + old(spine)
    {
      hide Linked, Sum, Distinct, Shape, Described, Mapped;
      ShapeParts();
      ghost var all, x := spine, Slot(node.path, node.value, node.size);
      ghost var next := [x] + slots;
      AddedSlots(all, slots, node);
      AddedMap(all, cache, node);
      SumAppend([x], slots);
      SumOne(x);
      cache := cache[node.path := node];
      assert Described([node] + all, next);
      PushFront(node);
      assert Described(spine, next);
      memory := memory + node.size;
      count := count + 1;
      slots := next;
    }

    /** database_lru_cache_delete on the shard. */
    method Delete(p: Path)
      requires Valid()
      modifies this, spine`next, spine`prev
      ensures Valid() && forall i | 0 <= i < |spine| :: spine[i] in old(spine)
      ensures Find(old(slots), p).None? ==> slots == old(slots)
      ensures Find(old(slots), p).Some? ==> exists at :: 0 <= at < |old(slots)| && old(slots)[at].path == p && slots == Without(old(slots), at)
    {
      hide Linked, Without, Sum, Distinct, Shape, Described, Mapped, Find;
      ShapeParts();
      FindIs(spine, slots, cache, p);
      if p !in cache {
        return;
      }
      var node := cache[p];
      ghost var at :| 0 <= at < |spine| && spine[at] == node;
      NodeSlot(spine, slots, at);
      WithoutIn(spine, at);
      Drop(node, at);
    }

    lemma Ends()
      requires Valid()
      ensures last == null <==> slots == []
      ensures memory == Sum(slots)
    {
    }

    lemma ShapeParts()
      requires Valid()
      ensures Distinct(spine)
    {
    }

    lemma LastIs()
      requires Valid() && slots != []
      ensures |spine| == |slots| && last == spine[|spine| - 1] && slots[|slots| - 1].value == spine[|spine| - 1].value
    {
    }

    lemma FirstIs()
      requires Valid()
      ensures forall i | 0 <= i < |spine| && spine[i] == first :: i == 0
      ensures |spine| > 0 ==> first == spine[0]
    {
    }
  }

  lemma WithoutLast<T>(s: seq<T>)
    ensures s != [] ==> Without(s, |s| - 1) == s[..|s| - 1]
  {
  }

  lemma DroppedSlots(all: seq<Node>, slots: seq<Slot>, at: nat)
    requires at < |all| && Described(all, slots)
    ensures |slots| == |all| && Described(Without(all, at), Without(slots, at)) && slots[at].size == all[at].size
    ensures |Without(slots, at)| == |slots| - 1
  {
  }

  lemma DroppedMap(all: seq<Node>, cache: map<Path, Node>, at: nat)
    requires at < |all| && Mapped(all, cache) && Distinct(all)
    ensures Mapped(Without(all, at), cache - {all[at].path})
  {
    StillDistinct(all, at);
    AllPaths(all, at);
    var rest, less := Without(all, at), cache - {all[at].path};
    hide Without;
    forall i | 0 <= i < |rest| ensures rest[i].path in less && less[rest[i].path] == rest[i] {
      assert rest[i] in rest;
    }
  }

  /** The value a sequence of slots gives a path. */
  ghost function Find(slots: seq<Slot>, p: Path): Option<Bytes> {
    if slots == [] then None else if slots[0].path == p then Some(slots[0].value) else Find(slots[1..], p)
  }

  ghost predicate DistinctPaths(slots: seq<Slot>) {
    forall i, j | 0 <= i < j < |slots| :: slots[i].path != slots[j].path
  }

  lemma {:induction false} FindIn(slots: seq<Slot>, p: Path)
    ensures Find(slots, p).Some? ==> exists x :: x in slots && x.path == p && Find(slots, p) == Some(x.value)
    ensures Find(slots, p).None? ==> forall x | x in slots :: x.path != p
  {
    if slots != [] {
      if slots[0].path == p { assert slots[0] in slots; } else { FindIn(slots[1..], p); }
    }
  }

  lemma OnePath(slots: seq<Slot>, x: Slot, y: Slot)
    requires DistinctPaths(slots) && x in slots && y in slots && x.path == y.path
    ensures x == y
  {
  }

  /** With distinct paths only the slots matter, not their order. */
  lemma FindOf(slots: seq<Slot>, x: Slot)
    requires DistinctPaths(slots) && x in slots
    ensures Find(slots, x.path) == Some(x.value)
  {
    FindIn(slots, x.path);
    var y :| y in slots && y.path == x.path && Find(slots, x.path) == Some(y.value);
    OnePath(slots, x, y);
  }

  lemma FindSubset(a: seq<Slot>, b: seq<Slot>, p: Path)
    requires DistinctPaths(b) && forall x | x in a :: x in b
    ensures Find(a, p).Some? ==> Find(a, p) == Find(b, p)
  {
    FindIn(a, p);
    if Find(a, p).Some? {
      var x :| x in a && x.path == p && Find(a, p) == Some(x.value);
      FindOf(b, x);
    }
  }

  lemma FindSame(a: seq<Slot>, b: seq<Slot>, p: Path)
    requires DistinctPaths(a) && DistinctPaths(b) && forall x :: x in a <==> x in b
    ensures Find(a, p) == Find(b, p)
  {
    FindSubset(a, b, p);
    FindSubset(b, a, p);
  }

  lemma SlotPaths(nodes: seq<Node>, slots: seq<Slot>)
    requires Described(nodes, slots) && Distinct(nodes)
    ensures DistinctPaths(slots)
  {
  }

  /** The hash map and the slots agree on what is cached. */
  lemma FindIs(nodes: seq<Node>, slots: seq<Slot>, cache: map<Path, Node>, p: Path)
    requires Described(nodes, slots) && Distinct(nodes) && Mapped(nodes, cache)
    ensures p in cache ==> cache[p] in nodes && cache[p].path == p && Find(slots, p) == Some(cache[p].value)
    ensures p !in cache ==> Find(slots, p) == None
  {
    SlotPaths(nodes, slots);
    FindIn(slots, p);
    if p in cache {
      var i :| 0 <= i < |nodes| && nodes[i] == cache[p];
      assert slots[i] in slots;
      FindOf(slots, slots[i]);
    } else {
      forall i | 0 <= i < |slots| ensures slots[i].path != p { assert nodes[i].path in cache; }
    }
  }

  lemma NodeSlot(nodes: seq<Node>, slots: seq<Slot>, at: nat)
    requires Described(nodes, slots) && at < |nodes|
    ensures |slots| == |nodes| && slots[at] == Slot(nodes[at].path, nodes[at].value, nodes[at].size)
  {
  }

  /** Moving a slot to the front changes no answer. */
  lemma MovedFind(slots: seq<Slot>, at: nat)
    requires DistinctPaths(slots) && at < |slots|
    ensures forall q :: Find([slots[at]] + Without(slots, at), q) == Find(slots, q)
  {
    var moved := [slots[at]] + Without(slots, at);
    forall x ensures x in moved <==> x in slots {
      if x in slots {
        var k :| 0 <= k < |slots| && slots[k] == x;
        assert k != at ==> moved[1 + (if k < at then k else k - 1)] == x;
        assert k == at ==> moved[0] == x;
      }
    }
    assert DistinctPaths(moved);
    forall q ensures Find(moved, q) == Find(slots, q) { FindSame(moved, slots, q); }
  }

  lemma SumNone()
    ensures Sum([]) == 0
  {
  }

  lemma {:induction false} SizeBound(slots: seq<Slot>, at: nat)
    requires at < |slots|
    ensures slots[at].size <= Sum(slots)
  {
    SumWithout(slots, at);
  }

  lemma UpdatedSum(slots: seq<Slot>, at: nat, x: Slot)
    requires at < |slots|
    ensures Sum(slots[at := x]) == Sum(slots) - slots[at].size + x.size
    ensures Without(slots[at := x], at) == Without(slots, at) && |slots[at := x]| == |slots|
  {
    SumWithout(slots, at);
    SumWithout(slots[at := x], at);
  }

  lemma Others(nodes: seq<Node>, at: nat)
    requires at < |nodes| && Distinct(nodes)
    ensures forall i | 0 <= i < |nodes| && i != at :: nodes[i] != nodes[at]
  {
  }

  lemma UpdatedSlots(nodes: seq<Node>, slots: seq<Slot>, at: nat, next: seq<Slot>)
    requires at < |nodes| == |slots| && next == slots[at := Slot(nodes[at].path, nodes[at].value, nodes[at].size)]
    requires forall i | 0 <= i < |nodes| && i != at :: slots[i] == Slot(nodes[i].path, nodes[i].value, nodes[i].size)
    ensures Described(nodes, next)
  {
  }

  lemma AddedSlots(nodes: seq<Node>, slots: seq<Slot>, node: Node)
    requires Described(nodes, slots)
    ensures Described([node] + nodes, [Slot(node.path, node.value, node.size)] + slots)
  {
  }

  lemma AddedMap(nodes: seq<Node>, cache: map<Path, Node>, node: Node)
    requires Mapped(nodes, cache) && node.path !in cache
    ensures Mapped([node] + nodes, cache[node.path := node])
    ensures forall i | 0 <= i < |nodes| :: nodes[i] != node && nodes[i].path != node.path
  {
    var more := [node] + nodes;
    assert node in more && forall n | n in nodes :: n in more;
  }

  lemma TrimStep(slots: seq<Slot>, need: nat, budget: nat)
    ensures Trimmed(slots, need, budget) ==
              if slots == [] || Sum(slots) + need <= budget then slots else Trimmed(slots[..|slots| - 1], need, budget)
  {
  }

  lemma WithoutIn<T>(s: seq<T>, at: nat)
    requires at < |s|
    ensures forall i | 0 <= i < |Without(s, at)| :: Without(s, at)[i] in s
  {
  }

  lemma WithoutFirst<T>(s: seq<T>)
    ensures s != [] ==> [s[0]] + Without(s, 0) == s
  {
  }

  lemma AllPaths(all: seq<Node>, at: nat)
    requires at < |all| && Distinct(all)
    ensures forall i | 0 <= i < |Without(all, at)| :: Without(all, at)[i] != all[at] && Without(all, at)[i].path != all[at].path
  {
  }

  lemma MovedSlots(all: seq<Node>, slots: seq<Slot>, at: nat)
    requires at < |all| && Described(all, slots)
    ensures |slots| == |all| && Described([all[at]] + Without(all, at), [slots[at]] + Without(slots, at))
    ensures |[slots[at]] + Without(slots, at)| == |slots|
  {
  }

  lemma MovedSum(slots: seq<Slot>, at: nat)
    requires at < |slots|
    ensures Sum([slots[at]] + Without(slots, at)) == Sum(slots)
  {
    SumWithout(slots, at);
    SumAppend([slots[at]], Without(slots, at));
    SumOne(slots[at]);
  }

  lemma MovedMap(all: seq<Node>, cache: map<Path, Node>, at: nat)
    requires at < |all| && Mapped(all, cache)
    ensures Mapped([all[at]] + Without(all, at), cache)
  {
    var nodes := [all[at]] + Without(all, at);
    forall n | n in all ensures n in nodes {
      var k :| 0 <= k < |all| && all[k] == n;
      assert k != at ==> nodes[1 + (if k < at then k else k - 1)] == n;
      assert k == at ==> nodes[0] == n;
    }
  }

  lemma FrontLinked(all: seq<Node>, node: Node)
    requires node.prev == null && node.next == NodeAt(all, 0)
    requires forall k {:trigger all[k].next} | 0 <= k < |all| :: all[k].next == NodeAt(all, k + 1)
    requires forall k {:trigger all[k].prev} | 0 <= k < |all| :: all[k].prev == if k == 0 then node else NodeAt(all, k - 1)
    ensures Linked([node] + all)
  {
    var nodes := [node] + all;
    forall i | 0 <= i < |nodes| ensures nodes[i].next == NodeAt(nodes, i + 1) && nodes[i].prev == NodeAt(nodes, i - 1) {
      if i > 0 { assert nodes[i] == all[i - 1]; }
    }
  }

  lemma FrontDistinct(all: seq<Node>, node: Node)
    requires Distinct(all) && forall i | 0 <= i < |all| :: all[i] != node && all[i].path != node.path
    ensures Distinct([node] + all)
  {
  }

  lemma StillLinked(all: seq<Node>, at: nat)
    requires at < |all|
    requires forall k {:trigger all[k].next} | 0 <= k < |all| && k != at :: all[k].next == NodeAt(all, if k == at - 1 then at + 1 else k + 1)
    requires forall k {:trigger all[k].prev} | 0 <= k < |all| && k != at :: all[k].prev == NodeAt(all, if k == at + 1 then at - 1 else k - 1)
    ensures Linked(Without(all, at))
  {
    var rest := Without(all, at);
    forall i | 0 <= i < |rest| ensures rest[i].next == NodeAt(rest, i + 1) && rest[i].prev == NodeAt(rest, i - 1) {
      var k := if i < at then i else i + 1;
      assert rest[i] == all[k] && k != at;
    }
  }

  lemma StillDistinct(all: seq<Node>, at: nat)
    requires at < |all| && Distinct(all)
    ensures Distinct(Without(all, at)) && all[at] !in Without(all, at)
    ensures forall n :: n in Without(all, at) <==> n in all && n != all[at]
  {
    var rest := Without(all, at);
    forall n | n in all && n != all[at] ensures n in rest {
      var k :| 0 <= k < |all| && all[k] == n;
      assert rest[if k < at then k else k - 1] == n;
    }
  }

  lemma EndsAre(all: seq<Node>, at: nat)
    requires at < |all|
    ensures NodeAt(Without(all, at), 0) == if at == 0 then NodeAt(all, 1) else all[0]
    ensures NodeAt(Without(all, at), |all| - 2) == if at == |all| - 1 then NodeAt(all, at - 1) else all[|all| - 1]
  {
  }
}
