/**
 The B+tree of one trie level (bnode_search, bnode_find, bnode_descend, bnode_find_leaf,
 bnode_insert, bnode_split, and the step of btree_propagate_split that hangs the right half
 into the parent). Nodes are taken with what they mean, loaded or not.
 */
module BTree {
  import opened Common
  import opened NodeStore
  import opened Keys

  predicate Less(a: Chunk, b: Chunk) { ChunkCompare(a, b) < 0 }
  predicate AtMost(a: Chunk, b: Chunk) { a == b || Less(a, b) }

  lemma ChunkOrder()
    ensures forall a, b :: Less(a, b) ==> a != b && !Less(b, a)
    ensures forall a, b :: Less(a, b) || a == b || Less(b, a)
    ensures forall a, b, c :: Less(a, b) && Less(b, c) ==> Less(a, c)
  {
    Orders();
  }

  ghost predicate InRange(k: Chunk, lo: Option<Chunk>, hi: Option<Chunk>) {
    (lo.Some? ==> AtMost(lo.value, k)) && (hi.Some? ==> Less(k, hi.value))
  }

  ghost predicate Ascending(items: seq<Item>) {
    forall i, j | 0 <= i < j < |items| :: Less(items[i].tag.key, items[j].tag.key)
  }

  /** Range of the keys below entry i. The first separator is not a lower bound: an insert below
      it leaves it as it is. */
  ghost function LoOf(t: Tree, i: nat, lo: Option<Chunk>): Option<Chunk>
    requires i < |t.items|
  {
    if i == 0 && t.level > 1 then lo else Some(t.items[i].tag.key)
  }

  ghost function HiOf(t: Tree, i: nat, hi: Option<Chunk>): Option<Chunk>
    requires i < |t.items|
  {
    if i + 1 < |t.items| then Some(t.items[i + 1].tag.key) else hi
  }

  /** A well-formed B+tree whose keys lie in [lo, hi), as are those of all trie levels below. */
  ghost predicate Ordered(t: Tree, lo: Option<Chunk>, hi: Option<Chunk>)
    decreases t
  {
    && Ascending(t.items)
    && (forall i | 0 <= i < |t.items| && (i > 0 || t.level <= 1) :: InRange(t.items[i].tag.key, lo, hi))
    && (t.level > 1 ==> t.items != [] && forall i | 0 <= i < |t.items| ::
          t.items[i].tag.Sep? && t.items[i].sub.Some? && Ordered(t.items[i].sub.value, LoOf(t, i, lo), HiOf(t, i, hi)))
    && (t.level <= 1 ==> forall i | 0 <= i < |t.items| ::
          !t.items[i].tag.Sep? && (t.items[i].sub.Some? ==> Ordered(t.items[i].sub.value, None, None)))
  }

  /** The leaf entries of the B+tree from entry i on, in order. */
  ghost function LeavesFrom(t: Tree, i: nat): seq<Item>
    requires i <= |t.items|
    decreases t, |t.items| - i
  {
    if i == |t.items| then [] else LeavesAt(t.items[i]) + LeavesFrom(t, i + 1)
  }

  ghost function LeavesAt(item: Item): seq<Item>
    decreases item
  {
    if !item.tag.Sep? then [item] else if item.sub.Some? then LeavesFrom(item.sub.value, 0) else []
  }

  ghost function Leaves(t: Tree): seq<Item> { LeavesFrom(t, 0) }

  ghost predicate AllIn(items: seq<Item>, lo: Option<Chunk>, hi: Option<Chunk>) {
    && Ascending(items)
    && forall i | 0 <= i < |items| :: !items[i].tag.Sep? && InRange(items[i].tag.key, lo, hi)
  }

  lemma JoinRanges(a: seq<Item>, b: seq<Item>, lo: Option<Chunk>, mid: Chunk, hi: Option<Chunk>)
    requires AllIn(a, lo, Some(mid)) && AllIn(b, Some(mid), hi)
    requires (lo.Some? ==> AtMost(lo.value, mid)) && (hi.Some? ==> Less(mid, hi.value))
    ensures AllIn(a + b, lo, hi)
  {
    ChunkOrder();
    var ab := a + b;
    forall i | 0 <= i < |ab| ensures !ab[i].tag.Sep? && InRange(ab[i].tag.key, lo, hi) {
      if i < |a| { assert ab[i] == a[i]; } else { assert ab[i] == b[i - |a|]; }
    }
    forall i, j | 0 <= i < j < |ab| ensures Less(ab[i].tag.key, ab[j].tag.key) {
      if j < |a| { assert ab[i] == a[i] && ab[j] == a[j]; }
      else if i >= |a| { assert ab[i] == b[i - |a|] && ab[j] == b[j - |a|]; }
      else { assert ab[i] == a[i] && ab[j] == b[j - |a|]; }
    }
  }

  lemma NextBounds(t: Tree, i: nat, lo: Option<Chunk>, hi: Option<Chunk>)
    requires Ordered(t, lo, hi) && i + 1 < |t.items|
    ensures LoOf(t, i + 1, lo) == Some(t.items[i + 1].tag.key) == HiOf(t, i, hi)
    ensures LoOf(t, i, lo).Some? ==> AtMost(LoOf(t, i, lo).value, t.items[i + 1].tag.key)
    ensures hi.Some? ==> Less(t.items[i + 1].tag.key, hi.value)
  {
    hide LeavesFrom, LeavesAt;
    ChunkOrder();
  }

  /** Leaf entries come in ascending key order, within the bounds. */
  lemma {:induction false} LeavesOrdered(t: Tree, i: nat, lo: Option<Chunk>, hi: Option<Chunk>)
    requires Ordered(t, lo, hi) && i < |t.items|
    ensures AllIn(LeavesFrom(t, i), LoOf(t, i, lo), hi)
    decreases t, |t.items| - i
  {
    hide Ordered, AllIn, Less, AtMost, LeavesAt;
    var here := LeavesAt(t.items[i]);
    LeafRange(t, i, lo, hi);
    if i + 1 < |t.items| {
      LeavesOrdered(t, i + 1, lo, hi);
      NextBounds(t, i, lo, hi);
      JoinRanges(here, LeavesFrom(t, i + 1), LoOf(t, i, lo), t.items[i + 1].tag.key, hi);
    } else {
      assert here + LeavesFrom(t, i + 1) == here;
    }
  }

  lemma {:induction false} LeafRange(t: Tree, i: nat, lo: Option<Chunk>, hi: Option<Chunk>)
    requires Ordered(t, lo, hi) && i < |t.items|
    ensures AllIn(LeavesAt(t.items[i]), LoOf(t, i, lo), HiOf(t, i, hi))
    decreases t, 0
  {
    if t.level > 1 {
      var sub := t.items[i].sub.value;
      if sub.items != [] {
        LeavesOrdered(sub, 0, LoOf(t, i, lo), HiOf(t, i, hi));
        Widen(LeavesFrom(sub, 0), sub, LoOf(t, i, lo), HiOf(t, i, hi));
      }
    }
  }

  lemma Widen(items: seq<Item>, t: Tree, lo: Option<Chunk>, hi: Option<Chunk>)
    requires Ordered(t, lo, hi) && t.items != [] && AllIn(items, LoOf(t, 0, lo), hi)
    ensures AllIn(items, lo, hi)
  {
    ChunkOrder();
  }

  lemma AllLeaves(t: Tree, lo: Option<Chunk>, hi: Option<Chunk>)
    requires Ordered(t, lo, hi)
    ensures AllIn(Leaves(t), lo, hi)
  {
    if t.items != [] {
      LeavesOrdered(t, 0, lo, hi);
      Widen(Leaves(t), t, lo, hi);
    }
  }

  // ---------------------------------------------------------------- search

  /** Position k is the first whose key is not below c. */
  ghost predicate LowerBound(items: seq<Item>, c: Chunk, k: nat) {
    && k <= |items|
    && (forall i | 0 <= i < k :: Less(items[i].tag.key, c))
    && (forall i | k <= i < |items| :: !Less(items[i].tag.key, c))
    && (k < |items| ==> !Less(items[k].tag.key, c))
  }

  /** bnode_search. */
  method Search(items: seq<Item>, c: Chunk) returns (k: nat)
    requires Ascending(items)
    ensures LowerBound(items, c, k)
    ensures forall i | 0 <= i < |items| :: i < k <==> ChunkBefore(items[i].tag.key, c)
  {
    ChunkOrder();
    forall i | 0 <= i < |items| ensures Less(items[i].tag.key, c) <==> ChunkBefore(items[i].tag.key, c) { ChunkOrderIs(items[i].tag.key, c); }
    hide ChunkBefore;
    var lo, hi := 0, |items|;
    while lo < hi
      invariant 0 <= lo <= hi <= |items|
      invariant forall i | 0 <= i < lo :: Less(items[i].tag.key, c)
      invariant forall i | hi <= i < |items| :: !Less(items[i].tag.key, c)
    {
      var mid := lo + (hi - lo) / 2;
      if ChunkCompare(items[mid].tag.key, c) < 0 { lo := mid + 1; } else { hi := mid; }
    }
    k := lo;
  }

  /** bnode_find: the entry with key c, if the node has one, and the insertion point. */
  method Find(items: seq<Item>, c: Chunk) returns (found: bool, k: nat)
    requires Ascending(items)
    ensures LowerBound(items, c, k) && (found ==> k < |items| && items[k].tag.key == c)
    ensures found <==> exists i :: 0 <= i < |items| && items[i].tag.key == c
  {
    k := Search(items, c);
    Orders();
    ChunkOrder();
    found := k < |items| && ChunkCompare(items[k].tag.key, c) == 0;
  }

  /** The separator to follow for c: the last one not above c, or the first. */
  ghost predicate Follows(items: seq<Item>, c: Chunk, k: nat) {
    && k < |items|
    && (k > 0 ==> AtMost(items[k].tag.key, c))
    && (k + 1 < |items| ==> Less(c, items[k + 1].tag.key))
  }

  method ChildIndex(items: seq<Item>, c: Chunk) returns (k: nat)
    requires Ascending(items) && items != []
    ensures Follows(items, c, k)
  {
    var found, i := Find(items, c);
    ChunkOrder();
    k := if found then i else if i == 0 then 0 else i - 1;
  }

  ghost function LeavesUpTo(t: Tree, k: nat): seq<Item>
    requires k <= |t.items|
  {
    if k == 0 then [] else LeavesUpTo(t, k - 1) + LeavesAt(t.items[k - 1])
  }

  lemma {:induction false} LeavesSplit(t: Tree, k: nat)
    requires k <= |t.items|
    ensures Leaves(t) == LeavesUpTo(t, k) + LeavesFrom(t, k)
  {
    if k > 0 {
      LeavesSplit(t, k - 1);
      assert LeavesUpTo(t, k - 1) + (LeavesAt(t.items[k - 1]) + LeavesFrom(t, k))
          == LeavesUpTo(t, k - 1) + LeavesAt(t.items[k - 1]) + LeavesFrom(t, k);
    }
  }

  lemma {:induction false} UpToBelow(t: Tree, k: nat, lo: Option<Chunk>, hi: Option<Chunk>, x: Item)
    requires Ordered(t, lo, hi) && 0 < k < |t.items| && x in LeavesUpTo(t, k)
    ensures Less(x.tag.key, t.items[k].tag.key)
    decreases k
  {
    ChunkOrder();
    if x in LeavesAt(t.items[k - 1]) {
      LeafRange(t, k - 1, lo, hi);
    } else {
      UpToBelow(t, k - 1, lo, hi, x);
    }
  }

  lemma BeforeFollowed(t: Tree, lo: Option<Chunk>, hi: Option<Chunk>, c: Chunk, k: nat, x: Item)
    requires Ordered(t, lo, hi) && Follows(t.items, c, k) && x in LeavesUpTo(t, k)
    ensures Less(x.tag.key, c)
  {
    UpToBelow(t, k, lo, hi, x);
    ChunkOrder();
  }

  lemma AfterFollowed(t: Tree, lo: Option<Chunk>, hi: Option<Chunk>, c: Chunk, k: nat, x: Item)
    requires Ordered(t, lo, hi) && Follows(t.items, c, k) && x in LeavesFrom(t, k + 1)
    ensures Less(c, x.tag.key)
  {
    LeavesOrdered(t, k + 1, lo, hi);
    ChunkOrder();
  }

  lemma FollowedSplit(t: Tree, k: nat)
    requires k < |t.items| && t.items[k].tag.Sep? && t.items[k].sub.Some?
    ensures Leaves(t) == LeavesUpTo(t, k) + Leaves(t.items[k].sub.value) + LeavesFrom(t, k + 1)
  {
    LeavesSplit(t, k);
    assert LeavesFrom(t, k) == LeavesAt(t.items[k]) + LeavesFrom(t, k + 1);
  }

  /** Entries for c are found below the followed separator or nowhere. */
  lemma DescendTo(t: Tree, lo: Option<Chunk>, hi: Option<Chunk>, c: Chunk, k: nat, x: Item)
    requires Ordered(t, lo, hi) && t.level > 1 && Follows(t.items, c, k) && x.tag.key == c
    ensures x in Leaves(t) <==> x in Leaves(t.items[k].sub.value)
  {
    FollowedSplit(t, k);
    assert !Less(c, c) by { ChunkOrder(); }
    hide *;
    if x in LeavesUpTo(t, k) { BeforeFollowed(t, lo, hi, c, k, x); }
    if x in LeavesFrom(t, k + 1) { AfterFollowed(t, lo, hi, c, k, x); }
  }

  /** The first of the entries with key c. */
  ghost function Lookup(items: seq<Item>, c: Chunk): Option<Item> {
    if items == [] then None else if items[0].tag.key == c then Some(items[0]) else Lookup(items[1..], c)
  }

  lemma {:induction false} LookupIs(items: seq<Item>, c: Chunk, found: Option<Item>)
    requires Ascending(items)
    requires if found.Some? then found.value in items && found.value.tag.key == c else forall x | x in items :: x.tag.key != c
    ensures Lookup(items, c) == found
  {
    ChunkOrder();
    if items != [] && items[0].tag.key != c {
      assert found.Some? ==> found.value in items[1..];
      LookupIs(items[1..], c, found);
    }
  }

  /** A descent for c as far as it goes: at each level the last separator not above c, or the
      first; in the leaf the entry with that key. */
  ghost function Descend(t: Tree, c: Chunk): Option<Item>
    decreases t
  {
    if t.level <= 1 then Lookup(t.items, c)
    else
      var k := Followed(t.items, c);
      if k < |t.items| && t.items[k].sub.Some? then Descend(t.items[k].sub.value, c) else Lookup(t.items, c)
  }

  /** The last position whose key is not above c, or the first. */
  ghost function Followed(items: seq<Item>, c: Chunk): (k: nat)
    ensures items != [] ==> k < |items|
  {
    if |items| > 1 && AtMost(items[1].tag.key, c) then 1 + Followed(items[1..], c) else 0
  }

  lemma {:induction false} FollowedIs(items: seq<Item>, c: Chunk, k: nat)
    requires Ascending(items) && Follows(items, c, k)
    ensures Followed(items, c) == k
  {
    ChunkOrder();
    if k > 0 {
      assert k > 1 ==> Less(items[1].tag.key, items[k].tag.key);
      FollowedIs(items[1..], c, k - 1);
    }
  }

  /** btree_descend_with_path_lazy, then bnode_find: the descent finds the entry that a lookup in
      the flattened leaf entries finds. */
  method FindLeaf(t: Tree, c: Chunk) returns (found: Option<Item>)
    requires Ordered(t, None, None)
    ensures found == Descend(t, c) == Lookup(Leaves(t), c)
  {
    var cur := t;
    ghost var lo: Option<Chunk>, hi: Option<Chunk> := None, None;
    while cur.level > 1
      invariant Ordered(cur, lo, hi) && Descend(t, c) == Descend(cur, c)
      decreases cur
    {
      hide Descend, LeavesFrom;
      OrderedKeys(cur, lo, hi);
      var k := ChildIndex(cur.items, c);
      ChildOrdered(cur, lo, hi, k);
      DescendStep(cur, c, k);
      lo, hi := LoOf(cur, k, lo), HiOf(cur, k, hi);
      cur := cur.items[k].sub.value;
    }
    var here, i := Find(cur.items, c);
    found := if here then Some(cur.items[i]) else None;
    LookupIs(cur.items, c, found);
    DescendIsLookup(t, None, None, c);
  }

  lemma DescendStep(t: Tree, c: Chunk, k: nat)
    requires t.level > 1 && Ascending(t.items) && Follows(t.items, c, k) && t.items[k].sub.Some?
    ensures Descend(t, c) == Descend(t.items[k].sub.value, c)
  {
    FollowedIs(t.items, c, k);
  }

  lemma {:induction false} FollowsFollowed(items: seq<Item>, c: Chunk)
    requires Ascending(items) && items != []
    ensures Follows(items, c, Followed(items, c))
  {
    ChunkOrder();
    if |items| > 1 && AtMost(items[1].tag.key, c) { FollowsFollowed(items[1..], c); }
  }

  /** In a well-formed tree a descent answers like a lookup in the flattened leaf entries. */
  lemma {:induction false} DescendIsLookup(t: Tree, lo: Option<Chunk>, hi: Option<Chunk>, c: Chunk)
    requires Ordered(t, lo, hi)
    ensures Descend(t, c) == Lookup(Leaves(t), c)
    decreases t
  {
    if t.level <= 1 {
      LeafNode(t);
    } else {
      var k := Followed(t.items, c);
      FollowsFollowed(t.items, c);
      ChildOrdered(t, lo, hi, k);
      var sub := t.items[k].sub.value;
      DescendIsLookup(sub, LoOf(t, k, lo), HiOf(t, k, hi), c);
      AllLeaves(sub, LoOf(t, k, lo), HiOf(t, k, hi));
      AllLeaves(t, lo, hi);
      hide Ordered, LeavesFrom, Descend;
      FoundIs(Leaves(sub), c);
      var found := Lookup(Leaves(sub), c);
      if found.Some? {
        DescendTo(t, lo, hi, c, k, found.value);
      } else {
        forall x | x in Leaves(t) ensures x.tag.key != c { if x.tag.key == c { DescendTo(t, lo, hi, c, k, x); } }
      }
      LookupIs(Leaves(t), c, found);
    }
  }

  lemma {:induction false} FoundIs(items: seq<Item>, c: Chunk)
    ensures Lookup(items, c).Some? ==> Lookup(items, c).value in items && Lookup(items, c).value.tag.key == c
    ensures Lookup(items, c).None? ==> forall x | x in items :: x.tag.key != c
  {
    if items != [] { FoundIs(items[1..], c); }
  }

  /** Well-formed trees with the same flattened entries answer every key alike. */
  lemma SameAnswers(t: Tree, u: Tree, c: Chunk)
    requires Ordered(t, None, None) && Ordered(u, None, None) && Leaves(t) == Leaves(u)
    ensures Descend(t, c) == Descend(u, c)
  {
    DescendIsLookup(t, None, None, c);
    DescendIsLookup(u, None, None, c);
  }

  lemma LeafNode(t: Tree)
    requires forall i | 0 <= i < |t.items| :: !t.items[i].tag.Sep?
    ensures Leaves(t) == t.items
  {
    LeafSuffix(t, 0);
  }

  lemma {:induction false} LeafSuffix(t: Tree, i: nat)
    requires i <= |t.items| && forall i | 0 <= i < |t.items| :: !t.items[i].tag.Sep?
    ensures LeavesFrom(t, i) == t.items[i..]
    decreases |t.items| - i
  {
    if i < |t.items| { LeafSuffix(t, i + 1); }
  }

  /** Two entries with one key are one entry, so the answer is determined. */
  lemma OneEntry(t: Tree, x: Item, y: Item)
    requires Ordered(t, None, None) && x in Leaves(t) && y in Leaves(t) && x.tag.key == y.tag.key
    ensures x == y
  {
    AllLeaves(t, None, None);
    ChunkOrder();
  }

  // ---------------------------------------------------------------- split

  /** Leaf entries below a list of entries. */
  ghost function Cat(items: seq<Item>): seq<Item> {
    if items == [] then [] else LeavesAt(items[0]) + Cat(items[1..])
  }

  lemma {:induction false} CatAppend(a: seq<Item>, b: seq<Item>)
    ensures Cat(a + b) == Cat(a) + Cat(b)
  {
    if a == [] {
      assert a + b == b;
    } else {
      assert (a + b)[1..] == a[1..] + b;
      CatAppend(a[1..], b);
    }
  }

  lemma {:induction false} LeavesAreCat(t: Tree, i: nat)
    requires i <= |t.items|
    ensures LeavesFrom(t, i) == Cat(t.items[i..])
    decreases |t.items| - i
  {
    if i < |t.items| {
      LeavesAreCat(t, i + 1);
      assert t.items[i..][1..] == t.items[i + 1..];
    }
  }

  function LeftHalf(c: Tree, mid: nat): Tree
    requires mid <= |c.items|
  {
    Node(c.level, c.items[..mid])
  }

  function RightHalf(c: Tree, mid: nat): Tree
    requires mid <= |c.items|
  {
    Node(c.level, c.items[mid..])
  }

  lemma HalvesLeaves(c: Tree, mid: nat)
    requires mid <= |c.items|
    ensures Leaves(LeftHalf(c, mid)) + Leaves(RightHalf(c, mid)) == Leaves(c)
  {
    LeavesAreCat(LeftHalf(c, mid), 0);
    LeavesAreCat(RightHalf(c, mid), 0);
    LeavesAreCat(c, 0);
    assert LeftHalf(c, mid).items[0..] == c.items[..mid] && RightHalf(c, mid).items[0..] == c.items[mid..] && c.items[0..] == c.items;
    CatAppend(c.items[..mid], c.items[mid..]);
    assert c.items[..mid] + c.items[mid..] == c.items;
  }

  lemma LeftOrdered(c: Tree, mid: nat, lo: Option<Chunk>, hi: Option<Chunk>)
    requires Ordered(c, lo, hi) && 0 < mid < |c.items|
    ensures Ordered(LeftHalf(c, mid), lo, Some(c.items[mid].tag.key))
  {
    var l := LeftHalf(c, mid);
    forall i | 0 <= i < mid ensures LoOf(l, i, lo) == LoOf(c, i, lo) && HiOf(l, i, Some(c.items[mid].tag.key)) == HiOf(c, i, hi) {
    }
  }

  lemma RightOrdered(c: Tree, mid: nat, lo: Option<Chunk>, hi: Option<Chunk>)
    requires Ordered(c, lo, hi) && 0 < mid < |c.items|
    ensures Ordered(RightHalf(c, mid), Some(c.items[mid].tag.key), hi)
  {
    var r, key := RightHalf(c, mid), c.items[mid].tag.key;
    forall i | 0 <= i < |r.items|
      ensures r.items[i] == c.items[mid + i] && LoOf(r, i, Some(key)) == LoOf(c, mid + i, lo) && HiOf(r, i, hi) == HiOf(c, mid + i, hi)
    {
    }
  }

  /** The split key lies above the separator of the node that was split, unless that separator is
      the first of its parent and not a lower bound of the node's own first key. */
  lemma SplitKeyAbove(p: Tree, lo: Option<Chunk>, hi: Option<Chunk>, i: nat, mid: nat)
    requires Ordered(p, lo, hi) && p.level > 1 && i < |p.items| && 2 <= mid < |p.items[i].sub.value.items|
    requires i > 0 || AtMost(p.items[i].tag.key, p.items[i].sub.value.items[0].tag.key)
    ensures Less(p.items[i].tag.key, p.items[i].sub.value.items[mid].tag.key)
  {
    ChunkOrder();
    var c := p.items[i].sub.value;
    assert Less(c.items[0].tag.key, c.items[1].tag.key) && Less(c.items[1].tag.key, c.items[mid].tag.key);
    assert i > 0 ==> InRange(c.items[1].tag.key, LoOf(p, i, lo), HiOf(p, i, hi));
  }

  function Placed(items: seq<Item>, k: nat, e: Item): seq<Item>
    requires k <= |items|
  {
    items[..k] + [e] + items[k..]
  }

  /** Parent p after its child i was cut at mid, before the right half is hung in. */
  function Shrunk(p: Tree, i: nat, mid: nat): seq<Item>
    requires i < |p.items| && p.items[i].sub.Some? && mid <= |p.items[i].sub.value.items|
  {
    p.items[i := Item(p.items[i].tag, Some(LeftHalf(p.items[i].sub.value, mid)))]
  }

  function RightItem(c: Tree, mid: nat): Item
    requires mid < |c.items|
  {
    Item(Sep(c.items[mid].tag.key), Some(RightHalf(c, mid)))
  }

  /** Parent p once the right half of child i hangs at position k. */
  function Hung(p: Tree, i: nat, mid: nat, k: nat): Tree
    requires i < |p.items| && p.items[i].sub.Some? && mid < |p.items[i].sub.value.items| && k <= |p.items|
  {
    Node(p.level, Placed(Shrunk(p, i, mid), k, RightItem(p.items[i].sub.value, mid)))
  }

  ghost predicate Splits(p: Tree, lo: Option<Chunk>, hi: Option<Chunk>, i: nat, mid: nat, k: nat) {
    && Ordered(p, lo, hi) && p.level > 1 && i < |p.items| && 2 <= mid < |p.items[i].sub.value.items|
    && LowerBound(Shrunk(p, i, mid), p.items[i].sub.value.items[mid].tag.key, k)
  }

  lemma PlaceIs(p: Tree, lo: Option<Chunk>, hi: Option<Chunk>, i: nat, mid: nat, k: nat)
    requires Splits(p, lo, hi, i, mid, k)
    ensures if Less(p.items[i].tag.key, p.items[i].sub.value.items[mid].tag.key) then k == i + 1 else i == 0 && k == 0
  {
    ChunkOrder();
    var c := p.items[i].sub.value;
    if i > 0 { SplitKeyAbove(p, lo, hi, i, mid); }
    OrderedKeys(c, LoOf(p, i, lo), HiOf(p, i, hi));
    var items := Shrunk(p, i, mid);
    assert forall j | 0 <= j < |items| :: items[j].tag == p.items[j].tag;
    hide Ordered;
    assert Less(p.items[i].tag.key, c.items[mid].tag.key) ==> k > i;
    if i + 1 < |p.items| { assert Less(c.items[mid].tag.key, p.items[i + 1].tag.key); }
  }

  lemma HungLeaves(p: Tree, i: nat, mid: nat)
    requires i < |p.items| && p.items[i].tag.Sep? && p.items[i].sub.Some? && mid < |p.items[i].sub.value.items|
    ensures Leaves(Hung(p, i, mid, i + 1)) == Leaves(p)
  {
    var c := p.items[i].sub.value;
    var before, after := p.items[..i], p.items[i + 1..];
    var left, right := Item(p.items[i].tag, Some(LeftHalf(c, mid))), RightItem(c, mid);
    assert Hung(p, i, mid, i + 1).items == before + ([left] + ([right] + after));
    assert p.items == before + ([p.items[i]] + after);
    hide Hung, LeavesFrom, Cat;
    ListLeaves(Hung(p, i, mid, i + 1), before, [left] + ([right] + after));
    ListLeaves(p, before, [p.items[i]] + after);
    ConsLeaves(left, [right] + after);
    ConsLeaves(right, after);
    ConsLeaves(p.items[i], after);
    HalvesLeaves(c, mid);
  }

  /** Hung in front of the left half instead, the right half's entries come first. */
  lemma HungFirst(p: Tree, mid: nat)
    requires p.items != [] && p.items[0].tag.Sep? && p.items[0].sub.Some? && mid < |p.items[0].sub.value.items|
    ensures var l, r := Leaves(LeftHalf(p.items[0].sub.value, mid)), Leaves(RightHalf(p.items[0].sub.value, mid));
            exists rest :: Leaves(Hung(p, 0, mid, 0)) == r + (l + rest) && Leaves(p) == (l + r) + rest
  {
    var c, after := p.items[0].sub.value, p.items[1..];
    var left, right := Item(p.items[0].tag, Some(LeftHalf(c, mid))), RightItem(c, mid);
    assert Hung(p, 0, mid, 0).items == [] + ([right] + ([left] + after));
    assert p.items == [] + ([p.items[0]] + after);
    hide Hung, LeavesFrom;
    ListLeaves(Hung(p, 0, mid, 0), [], [right] + ([left] + after));
    ListLeaves(p, [], [p.items[0]] + after);
    ConsLeaves(right, [left] + after);
    ConsLeaves(left, after);
    ConsLeaves(p.items[0], after);
    HalvesLeaves(c, mid);
    assert Leaves(p) == (Leaves(LeftHalf(c, mid)) + Leaves(RightHalf(c, mid))) + Cat(after);
  }

  lemma ListLeaves(t: Tree, a: seq<Item>, b: seq<Item>)
    requires t.items == a + b
    ensures Leaves(t) == Cat(a) + Cat(b)
  {
    LeavesAreCat(t, 0);
    assert t.items[0..] == t.items;
    CatAppend(a, b);
  }

  lemma ConsLeaves(x: Item, rest: seq<Item>)
    requires x.tag.Sep? && x.sub.Some?
    ensures Cat([x] + rest) == Leaves(x.sub.value) + Cat(rest)
  {
    assert ([x] + rest)[1..] == rest;
  }

  /** q is p with child i cut and the right half, under key, next to it. */
  ghost predicate HungShape(p: Tree, q: Tree, i: nat, left: Tree, right: Tree, key: Chunk) {
    && i < |p.items| && |q.items| == |p.items| + 1 && q.level == p.level
    && (forall j | 0 <= j < i :: q.items[j] == p.items[j])
    && q.items[i] == Item(p.items[i].tag, Some(left)) && q.items[i + 1] == Item(Sep(key), Some(right))
    && (forall j | i + 1 < j < |q.items| :: q.items[j] == p.items[j - 1])
  }

  lemma HungShaped(p: Tree, i: nat, mid: nat)
    requires i < |p.items| && p.items[i].tag.Sep? && p.items[i].sub.Some? && mid < |p.items[i].sub.value.items|
    ensures HungShape(p, Hung(p, i, mid, i + 1), i, LeftHalf(p.items[i].sub.value, mid), RightHalf(p.items[i].sub.value, mid),
                      p.items[i].sub.value.items[mid].tag.key)
  {
  }

  lemma HungOrdered(p: Tree, q: Tree, lo: Option<Chunk>, hi: Option<Chunk>, i: nat, left: Tree, right: Tree, key: Chunk)
    requires Ordered(p, lo, hi) && p.level > 1 && HungShape(p, q, i, left, right, key)
    requires Less(p.items[i].tag.key, key) && InRange(key, LoOf(p, i, lo), HiOf(p, i, hi))
    requires Ordered(left, LoOf(p, i, lo), Some(key)) && Ordered(right, Some(key), HiOf(p, i, hi))
    ensures Ordered(q, lo, hi)
  {
    HungKeys(p, q, lo, hi, i, left, right, key);
    forall j | 0 <= j < |q.items|
      ensures q.items[j].tag.Sep? && q.items[j].sub.Some? && Ordered(q.items[j].sub.value, LoOf(q, j, lo), HiOf(q, j, hi))
    {
      HungChild(p, q, lo, hi, i, left, right, key, j);
    }
  }

  lemma HungChild(p: Tree, q: Tree, lo: Option<Chunk>, hi: Option<Chunk>, i: nat, left: Tree, right: Tree, key: Chunk, j: nat)
    requires Ordered(p, lo, hi) && p.level > 1 && HungShape(p, q, i, left, right, key) && j < |q.items|
    requires Ordered(left, LoOf(p, i, lo), Some(key)) && Ordered(right, Some(key), HiOf(p, i, hi))
    ensures q.items[j].tag.Sep? && q.items[j].sub.Some? && Ordered(q.items[j].sub.value, LoOf(q, j, lo), HiOf(q, j, hi))
  {
    hide Ordered;
    ChildOrdered(p, lo, hi, if j <= i then j else j - 1);
  }

  lemma ChildOrdered(p: Tree, lo: Option<Chunk>, hi: Option<Chunk>, i: nat)
    requires Ordered(p, lo, hi) && p.level > 1 && i < |p.items|
    ensures p.items[i].tag.Sep? && p.items[i].sub.Some? && Ordered(p.items[i].sub.value, LoOf(p, i, lo), HiOf(p, i, hi))
  {
  }

  lemma HungKeys(p: Tree, q: Tree, lo: Option<Chunk>, hi: Option<Chunk>, i: nat, left: Tree, right: Tree, key: Chunk)
    requires Ordered(p, lo, hi) && p.level > 1 && HungShape(p, q, i, left, right, key)
    requires Less(p.items[i].tag.key, key) && InRange(key, LoOf(p, i, lo), HiOf(p, i, hi))
    ensures Ascending(q.items) && forall j | 0 < j < |q.items| :: InRange(q.items[j].tag.key, lo, hi)
  {
    hide Ordered;
    OrderedKeys(p, lo, hi);
    forall j, m | 0 <= j < m < |q.items| ensures Less(q.items[j].tag.key, q.items[m].tag.key) {
      HungPair(p, q, hi, i, left, right, key, j, m);
    }
    forall j | 0 < j < |q.items| ensures InRange(q.items[j].tag.key, lo, hi) {
      ChunkOrder();
      if j == i + 1 && i > 0 { assert InRange(p.items[i].tag.key, lo, hi); }
      if j == i + 1 && i + 1 < |p.items| { assert InRange(p.items[i + 1].tag.key, lo, hi); }
    }
  }

  lemma HungPair(p: Tree, q: Tree, hi: Option<Chunk>, i: nat, left: Tree, right: Tree, key: Chunk, j: nat, m: nat)
    requires Ascending(p.items) && HungShape(p, q, i, left, right, key) && j < m < |q.items|
    requires Less(p.items[i].tag.key, key) && (i + 1 < |p.items| ==> Less(key, p.items[i + 1].tag.key))
    ensures Less(q.items[j].tag.key, q.items[m].tag.key)
  {
    if j == i + 1 {
      assert q.items[m] == p.items[m - 1];
      if m - 1 != i + 1 { assert Less(p.items[i + 1].tag.key, p.items[m - 1].tag.key); }
    } else if m == i + 1 {
      if j != i { assert Less(p.items[j].tag.key, p.items[i].tag.key); }
    } else {
      assert q.items[j].tag == p.items[if j <= i then j else j - 1].tag;
      assert q.items[m].tag == p.items[if m <= i then m else m - 1].tag;
    }
    ChunkOrder();
  }

  lemma OrderedKeys(p: Tree, lo: Option<Chunk>, hi: Option<Chunk>)
    requires Ordered(p, lo, hi)
    ensures Ascending(p.items) && forall i | 0 < i < |p.items| :: InRange(p.items[i].tag.key, lo, hi)
  {
  }

  lemma SplitKeeps(p: Tree, lo: Option<Chunk>, hi: Option<Chunk>, i: nat, mid: nat, k: nat)
    requires Splits(p, lo, hi, i, mid, k) && Less(p.items[i].tag.key, p.items[i].sub.value.items[mid].tag.key)
    ensures Leaves(Hung(p, i, mid, k)) == Leaves(p) && Ordered(Hung(p, i, mid, k), lo, hi)
  {
    PlaceIs(p, lo, hi, i, mid, k);
    var c := p.items[i].sub.value;
    HungLeaves(p, i, mid);
    HungShaped(p, i, mid);
    LeftOrdered(c, mid, LoOf(p, i, lo), HiOf(p, i, hi));
    RightOrdered(c, mid, LoOf(p, i, lo), HiOf(p, i, hi));
    OrderedKeys(c, LoOf(p, i, lo), HiOf(p, i, hi));
    HungOrdered(p, Hung(p, i, mid, k), lo, hi, i, LeftHalf(c, mid), RightHalf(c, mid), c.items[mid].tag.key);
  }

  /** Hanging the right half under the split key keeps the node well formed exactly when the split
      key is above the separator of the node that was split. It keeps the flattened entries exactly
      then or when one of the halves holds none. */
  lemma SplitKeepsIff(p: Tree, lo: Option<Chunk>, hi: Option<Chunk>, i: nat, mid: nat, k: nat)
    requires Splits(p, lo, hi, i, mid, k)
    ensures var c := p.items[i].sub.value;
            var above := Less(p.items[i].tag.key, c.items[mid].tag.key);
            && (Ordered(Hung(p, i, mid, k), lo, hi) <==> above)
            && (Leaves(Hung(p, i, mid, k)) == Leaves(p) <==> above || Leaves(LeftHalf(c, mid)) == [] || Leaves(RightHalf(c, mid)) == [])
  {
    if Less(p.items[i].tag.key, p.items[i].sub.value.items[mid].tag.key) {
      SplitKeeps(p, lo, hi, i, mid, k);
    } else {
      PlaceIs(p, lo, hi, i, mid, k);
      FrontNotOrdered(p, lo, hi, mid);
      FrontKeepsIff(p, lo, hi, mid);
    }
  }

  lemma FrontNotOrdered(p: Tree, lo: Option<Chunk>, hi: Option<Chunk>, mid: nat)
    requires Splits(p, lo, hi, 0, mid, 0) && !Less(p.items[0].tag.key, p.items[0].sub.value.items[mid].tag.key)
    ensures !Ordered(Hung(p, 0, mid, 0), lo, hi)
  {
    var c, q := p.items[0].sub.value, Hung(p, 0, mid, 0);
    OrderedKeys(c, LoOf(p, 0, lo), HiOf(p, 0, hi));
    assert q.items[1] == Item(p.items[0].tag, Some(LeftHalf(c, mid))) && LeftHalf(c, mid).items[1] == c.items[1];
    assert Less(c.items[1].tag.key, c.items[mid].tag.key);
    if Ordered(q, lo, hi) {
      ChildOrdered(q, lo, hi, 1);
      OrderedKeys(LeftHalf(c, mid), LoOf(q, 1, lo), HiOf(q, 1, hi));
      ChunkOrder();
    }
  }

  lemma FrontKeepsIff(p: Tree, lo: Option<Chunk>, hi: Option<Chunk>, mid: nat)
    requires Splits(p, lo, hi, 0, mid, 0)
    ensures var c := p.items[0].sub.value;
            Leaves(Hung(p, 0, mid, 0)) == Leaves(p) <==> Leaves(LeftHalf(c, mid)) == [] || Leaves(RightHalf(c, mid)) == []
  {
    ChildOrdered(p, lo, hi, 0);
    var c := p.items[0].sub.value;
    hide Ordered, LeavesFrom, Hung, LeftHalf, RightHalf, LowerBound;
    HungFirst(p, mid);
    var l, r := Leaves(LeftHalf(c, mid)), Leaves(RightHalf(c, mid));
    var rest :| Leaves(Hung(p, 0, mid, 0)) == r + (l + rest) && Leaves(p) == (l + r) + rest;
    if l != [] && r != [] { HalvesApart(c, mid, LoOf(p, 0, lo), HiOf(p, 0, hi)); }
    Swapped(l, r, rest);
  }

  lemma Swapped(l: seq<Item>, r: seq<Item>, rest: seq<Item>)
    requires l != [] && r != [] ==> l[0] != r[0]
    ensures r + (l + rest) == (l + r) + rest <==> l == [] || r == []
  {
    if l == [] {
      assert r + (l + rest) == r + rest && (l + r) + rest == r + rest;
    } else if r == [] {
      assert r + (l + rest) == l + rest && (l + r) + rest == l + rest;
    } else {
      assert (r + (l + rest))[0] == r[0] && ((l + r) + rest)[0] == l[0];
    }
  }

  lemma HalvesApart(c: Tree, mid: nat, lo: Option<Chunk>, hi: Option<Chunk>)
    requires Ordered(c, lo, hi) && 0 < mid < |c.items| && Leaves(LeftHalf(c, mid)) != [] && Leaves(RightHalf(c, mid)) != []
    ensures Leaves(LeftHalf(c, mid))[0] != Leaves(RightHalf(c, mid))[0]
  {
    LeftOrdered(c, mid, lo, hi);
    RightOrdered(c, mid, lo, hi);
    AllLeaves(LeftHalf(c, mid), lo, Some(c.items[mid].tag.key));
    AllLeaves(RightHalf(c, mid), Some(c.items[mid].tag.key), hi);
    ChunkOrder();
  }

  lemma ByteKeys()
    ensures forall a: Byte, b: Byte {:trigger Less([a], [b])} :: Less([a], [b]) <==> a < b
  {
    forall a: Byte, b: Byte ensures Less([a], [b]) <==> a < b {
      var x, y: Chunk := [a], [b];
      assert x[1..] == [] && y[1..] == [];
      assert Compare(x[1..], y[1..], ByteCompare) == 0;
    }
  }

  /** A child may be replaced by one with the same entries in the same range. */
  lemma ReplaceChild(p: Tree, lo: Option<Chunk>, hi: Option<Chunk>, i: nat, c: Tree)
    requires Ordered(p, lo, hi) && p.level > 1 && i < |p.items| && Ordered(c, LoOf(p, i, lo), HiOf(p, i, hi))
    requires Leaves(c) == Leaves(p.items[i].sub.value)
    ensures Leaves(p.(items := p.items[i := p.items[i].(sub := Some(c))])) == Leaves(p)
    ensures Ordered(p.(items := p.items[i := p.items[i].(sub := Some(c))]), lo, hi)
  {
    hide Ordered, LeavesFrom, LoOf, HiOf;
    ChildOrdered(p, lo, hi, i);
    var x := p.items[i].(sub := Some(c));
    var q := p.(items := p.items[i := x]);
    var before, after := p.items[..i], p.items[i + 1..];
    CutItems(p.items, i, x);
    SameLeaves(p, q, before, p.items[i], x, after);
    SameOrder(p, q, lo, hi, i, c);
  }

  lemma CutItems(items: seq<Item>, i: nat, x: Item)
    requires i < |items|
    ensures items == items[..i] + ([items[i]] + items[i + 1..]) && items[i := x] == items[..i] + ([x] + items[i + 1..])
  {
  }

  lemma SameLeaves(p: Tree, q: Tree, before: seq<Item>, x: Item, y: Item, after: seq<Item>)
    requires p.items == before + ([x] + after) && q.items == before + ([y] + after)
    requires x.tag.Sep? && y.tag.Sep? && x.sub.Some? && y.sub.Some? && Leaves(x.sub.value) == Leaves(y.sub.value)
    ensures Leaves(p) == Leaves(q)
  {
    hide LeavesFrom, Cat;
    ListLeaves(q, before, [y] + after);
    ListLeaves(p, before, [x] + after);
    ConsLeaves(y, after);
    ConsLeaves(x, after);
  }

  lemma SameOrder(p: Tree, q: Tree, lo: Option<Chunk>, hi: Option<Chunk>, i: nat, c: Tree)
    requires Ordered(p, lo, hi) && p.level > 1 && i < |p.items| && Ordered(c, LoOf(p, i, lo), HiOf(p, i, hi))
    requires q == p.(items := p.items[i := p.items[i].(sub := Some(c))])
    ensures Ordered(q, lo, hi)
  {
    OrderedKeys(p, lo, hi);
    forall j | 0 <= j < |q.items|
      ensures q.items[j].tag.Sep? && q.items[j].sub.Some? && Ordered(q.items[j].sub.value, LoOf(q, j, lo), HiOf(q, j, hi))
    {
      SameChild(p, q, lo, hi, i, c, j);
    }
  }

  lemma SameChild(p: Tree, q: Tree, lo: Option<Chunk>, hi: Option<Chunk>, i: nat, c: Tree, j: nat)
    requires Ordered(p, lo, hi) && p.level > 1 && i < |p.items| && Ordered(c, LoOf(p, i, lo), HiOf(p, i, hi)) && j < |p.items|
    requires q == p.(items := p.items[i := p.items[i].(sub := Some(c))])
    ensures q.items[j].tag == p.items[j].tag && q.items[j].tag.Sep? && q.items[j].sub.Some?
    ensures Ordered(q.items[j].sub.value, LoOf(q, j, lo), HiOf(q, j, hi))
  {
    hide Ordered;
    ChildOrdered(p, lo, hi, j);
  }

  /** When the root itself is split, a new root holds both halves. */
  lemma NewRoot(c: Tree, mid: nat)
    requires Ordered(c, None, None) && 0 < mid < |c.items| && c.level >= 1
    ensures var root := Node(c.level + 1, [Item(Sep(c.items[0].tag.key), Some(LeftHalf(c, mid))), RightItem(c, mid)]);
            Ordered(root, None, None) && Leaves(root) == Leaves(c)
  {
    var left, right := Item(Sep(c.items[0].tag.key), Some(LeftHalf(c, mid))), RightItem(c, mid);
    var root := Node(c.level + 1, [left, right]);
    assert root.items == [left] + ([right] + []);
    ListLeaves(root, [left], [right] + []);
    ConsLeaves(left, []);
    ConsLeaves(right, []);
    assert [left] + [] == [left];
    HalvesLeaves(c, mid);
    LeftOrdered(c, mid, None, None);
    RightOrdered(c, mid, None, None);
    assert LoOf(root, 0, None) == None && HiOf(root, 0, None) == Some(c.items[mid].tag.key);
    assert LoOf(root, 1, None) == Some(c.items[mid].tag.key) && HiOf(root, 1, None) == None;
  }

  // ---------------------------------------------------------------- in place

  class Bnode {
    const level: nat
    var entries: seq<Item>

    constructor (level: nat)
      ensures this.level == level && entries == []
    {
      this.level := level;
      entries := [];
    }

    ghost function Value(): Tree
      reads this
    {
      Node(level, entries)
    }

    /** bnode_insert: at the position the binary search gives. */
    method Insert(e: Item) returns (k: nat)
      requires Ascending(entries)
      modifies this
      ensures LowerBound(old(entries), e.tag.key, k) && entries == Placed(old(entries), k, e)
    {
      k := Search(entries, e.tag.key);
      entries := entries[..k] + [e] + entries[k..];
    }

    /** bnode_split: the right half moves to a new node, entry by entry. */
    method Split() returns (rc: int, right: Bnode, key: Chunk)
      requires Ascending(entries[|entries| / 2..])
      modifies this
      ensures fresh(right) && right.level == level
      ensures rc == (if old(|entries|) < 4 then -1 else 0)
      ensures rc == -1 ==> entries == old(entries)
      ensures rc == 0 ==>
                var mid := old(|entries|) / 2;
                entries == old(entries)[..mid] && right.entries == old(entries)[mid..] && key == old(entries)[mid].tag.key
    {
      right := new Bnode(level);
      if |entries| < 4 {
        return -1, right, [];
      }
      var mid := |entries| / 2;
      key := entries[mid].tag.key;
      var i := mid;
      while i < |entries|
        invariant mid <= i <= |entries| && right.entries == entries[mid..i] && entries == old(entries)
        modifies right
      {
        assert entries[mid..i] == entries[mid..][..i - mid] && entries[i] == entries[mid..][i - mid];
        var k := right.Insert(entries[i]);
        i := i + 1;
      }
      assert entries[mid..i] == entries[mid..];
      entries := entries[..mid];
      return 0, right, key;
    }
  }

  /** One step of btree_propagate_split, at any node of the B+tree: split child i, then insert the
      right half into its parent. */
  method SplitChild(parent: Bnode, i: nat, ghost lo: Option<Chunk>, ghost hi: Option<Chunk>) returns (rc: int)
    requires Ordered(parent.Value(), lo, hi) && parent.level > 1 && i < |parent.entries|
    modifies parent
    ensures rc == (if |old(parent.entries)[i].sub.value.items| < 4 then -1 else 0)
    ensures rc == -1 ==> parent.entries == old(parent.entries)
    ensures rc == 0 ==>
              var p := old(parent.Value());
              var c := p.items[i].sub.value;
              var mid := |c.items| / 2;
              var above := Less(p.items[i].tag.key, c.items[mid].tag.key);
              && (exists k :: Splits(p, lo, hi, i, mid, k) && parent.Value() == Hung(p, i, mid, k))
              && (Ordered(parent.Value(), lo, hi) <==> above)
              && (Leaves(parent.Value()) == Leaves(p) <==> above || Leaves(LeftHalf(c, mid)) == [] || Leaves(RightHalf(c, mid)) == [])
  {
    ghost var p := parent.Value();
    ChildOrdered(p, lo, hi, i);
    var c := parent.entries[i].sub.value;
    OrderedKeys(c, LoOf(p, i, lo), HiOf(p, i, hi));
    var node := new Bnode(c.level);
    node.entries := c.items;
    var right: Bnode, key: Chunk;
    rc, right, key := node.Split();
    if rc != 0 {
      return;
    }
    OrderedKeys(p, lo, hi);
    hide Ordered, LeavesFrom;
    parent.entries := parent.entries[i := Item(parent.entries[i].tag, Some(Node(c.level, node.entries)))];
    assert parent.entries == Shrunk(p, i, |c.items| / 2);
    var k := parent.Insert(Item(Sep(key), Some(Node(c.level, right.entries))));
    assert Splits(p, lo, hi, i, |c.items| / 2, k);
    SplitKeepsIff(p, lo, hi, i, |c.items| / 2, k);
  }
}
