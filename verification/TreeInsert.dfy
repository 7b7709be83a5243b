/**
 Inserting an entry into the B+tree of a trie level, as hbtrie_insert does for each chunk: descend
 with the path (btree_descend_with_path_lazy), insert into the leaf, split on the way up.
 */
module TreeInsert {
  import opened Common
  import opened NodeStore
  import opened Keys
  import opened BTree
  import opened SplitUp

  // ---------------------------------------------------------------- the descent

  /** The entries followed from t down to the leaf for key c. */
  ghost function PathTo(t: Tree, c: Chunk): seq<nat>
    decreases t
  {
    if t.level <= 1 then []
    else
      var k := Followed(t.items, c);
      if k < |t.items| && t.items[k].sub.Some? then [k] + PathTo(t.items[k].sub.value, c) else []
  }

  /** The key lies in the range of the child that is followed. */
  lemma FollowedRange(t: Tree, lo: Option<Chunk>, hi: Option<Chunk>, c: Chunk, k: nat)
    requires Ordered(t, lo, hi) && t.level > 1 && Follows(t.items, c, k) && InRange(c, lo, hi)
    ensures InRange(c, LoOf(t, k, lo), HiOf(t, k, hi))
  {
  }

  lemma FollowedChild(t: Tree, lo: Option<Chunk>, hi: Option<Chunk>, c: Chunk)
    requires Ordered(t, lo, hi) && t.level > 1 && InRange(c, lo, hi)
    ensures var k := Followed(t.items, c);
            && Branches(t, k) && Follows(t.items, c, k)
            && Ordered(t.items[k].sub.value, LoOf(t, k, lo), HiOf(t, k, hi)) && InRange(c, LoOf(t, k, lo), HiOf(t, k, hi))
  {
    OrderedKeys(t, lo, hi);
    assert t.items != [];
    FollowsFollowed(t.items, c);
    ChildOrdered(t, lo, hi, Followed(t.items, c));
    FollowedRange(t, lo, hi, c, Followed(t.items, c));
  }

  // ---------------------------------------------------------------- the tree with the entry in it

  /** t with e in the leaf where the descent ends. */
  ghost function GrowInto(t: Tree, e: Item): Tree
    decreases t
  {
    if t.level <= 1 then Node(t.level, Placed(t.items, Position(t.items, e.tag.key), e))
    else
      var k := Followed(t.items, e.tag.key);
      if k < |t.items| && t.items[k].sub.Some? then With(t, k, GrowInto(t.items[k].sub.value, e)) else t
  }

  /** An entry a leaf may take. */
  ghost predicate LeafItem(e: Item) {
    !e.tag.Sep? && (e.sub.Some? ==> Ordered(e.sub.value, None, None))
  }

  ghost predicate NoKey(items: seq<Item>, c: Chunk) {
    forall x | x in items :: x.tag.key != c
  }

  lemma PlacedAscending(items: seq<Item>, k: nat, e: Item)
    requires Ascending(items) && LowerBound(items, e.tag.key, k) && NoKey(items, e.tag.key)
    ensures Ascending(Placed(items, k, e))
  {
    ChunkOrder();
    var out := Placed(items, k, e);
    assert forall i | 0 <= i < k :: out[i] == items[i];
    assert out[k] == e && forall i | k < i < |out| :: out[i] == items[i - 1];
    forall i | k <= i < |items| ensures Less(e.tag.key, items[i].tag.key) { assert items[i] in items; }
  }

  lemma LeafGrows(t: Tree, lo: Option<Chunk>, hi: Option<Chunk>, e: Item)
    requires Ordered(t, lo, hi) && t.level <= 1 && InRange(e.tag.key, lo, hi) && LeafItem(e) && NoKey(Leaves(t), e.tag.key)
    ensures Ordered(GrowInto(t, e), lo, hi)
    ensures Leaves(GrowInto(t, e)) == Placed(Leaves(t), Position(Leaves(t), e.tag.key), e)
  {
    LeafNode(t);
    OrderedKeys(t, lo, hi);
    PositionIs(t.items, e.tag.key);
    PlacedAscending(t.items, Position(t.items, e.tag.key), e);
    var g := GrowInto(t, e);
    hide Position, LeavesFrom, Ascending, GrowInto;
    assert g == Node(t.level, Placed(t.items, Position(t.items, e.tag.key), e)) by { GrowLeaf(t, e); }
    forall i | 0 <= i < |g.items| ensures g.items[i] == e || g.items[i] in t.items { }
    LeafNode(g);
  }

  lemma GrowLeaf(t: Tree, e: Item)
    requires t.level <= 1
    ensures GrowInto(t, e) == Node(t.level, Placed(t.items, Position(t.items, e.tag.key), e))
  {
  }

  /** Splitting a list of ascending entries, the position of a key in the middle part decides. */
  lemma {:induction false} PositionJoin(a: seq<Item>, b: seq<Item>, c: seq<Item>, key: Chunk)
    requires (forall x | x in a :: Less(x.tag.key, key)) && (forall x | x in c :: !Less(x.tag.key, key))
    ensures Position(a + b + c, key) == |a| + Position(b, key)
    decreases |a| + |b|
  {
    if a != [] {
      assert (a + b + c)[1..] == a[1..] + b + c && (a + b + c)[0] == a[0];
      PositionJoin(a[1..], b, c, key);
    } else if b != [] {
      assert (a + b + c)[0] == b[0];
      if Less(b[0].tag.key, key) {
        assert (a + b + c)[1..] == a + b[1..] + c;
        PositionJoin(a, b[1..], c, key);
      }
    } else {
      assert a + b + c == c;
    }
  }

  lemma PlacedJoin(a: seq<Item>, b: seq<Item>, c: seq<Item>, k: nat, e: Item)
    requires k <= |b|
    ensures Placed(a + b + c, |a| + k, e) == a + Placed(b, k, e) + c
  {
  }

  lemma LessOnce(a: Chunk, b: Chunk)
    requires Less(a, b)
    ensures !Less(b, a)
  {
    ChunkOrder();
  }

  /** Putting e below the followed separator puts it at its place among all entries. */
  lemma NodeGrows(t: Tree, lo: Option<Chunk>, hi: Option<Chunk>, e: Item, k: nat, sub: Tree)
    requires Ordered(t, lo, hi) && Branches(t, k) && Follows(t.items, e.tag.key, k)
    requires Leaves(sub) == Placed(Leaves(t.items[k].sub.value), Position(Leaves(t.items[k].sub.value), e.tag.key), e)
    ensures Leaves(With(t, k, sub)) == Placed(Leaves(t), Position(Leaves(t), e.tag.key), e)
  {
    hide Ordered, LeavesFrom, LeavesUpTo, LeavesAt, Position, Placed, Less, Ascending, With;
    var key := e.tag.key;
    var before, here, after := LeavesUpTo(t, k), Leaves(t.items[k].sub.value), LeavesFrom(t, k + 1);
    FollowedSplit(t, k);
    WithSplit(t, k, sub);
    forall x | x in before ensures Less(x.tag.key, key) { BeforeFollowed(t, lo, hi, key, k, x); }
    forall x | x in after ensures !Less(x.tag.key, key) {
      AfterFollowed(t, lo, hi, key, k, x);
      LessOnce(key, x.tag.key);
    }
    PositionJoin(before, here, after, key);
    PlacedJoin(before, here, after, Position(here, key), e);
  }

  lemma WithSplit(t: Tree, k: nat, c: Tree)
    requires Branches(t, k)
    ensures Leaves(With(t, k, c)) == LeavesUpTo(t, k) + Leaves(c) + LeavesFrom(t, k + 1)
  {
    var q := With(t, k, c);
    FollowedSplit(q, k);
    UpToSame(t, q, k);
    LeavesAreCat(t, k + 1);
    LeavesAreCat(q, k + 1);
    assert q.items[k + 1..] == t.items[k + 1..];
  }

  lemma {:induction false} UpToSame(t: Tree, q: Tree, k: nat)
    requires k <= |t.items| && k <= |q.items| && t.items[..k] == q.items[..k]
    ensures LeavesUpTo(t, k) == LeavesUpTo(q, k)
  {
    if k > 0 {
      assert t.items[..k - 1] == t.items[..k][..k - 1] && q.items[..k - 1] == q.items[..k][..k - 1];
      assert t.items[..k][k - 1] == t.items[k - 1] && q.items[..k][k - 1] == q.items[k - 1];
      UpToSame(t, q, k - 1);
    }
  }

  lemma NoKeyBelow(t: Tree, lo: Option<Chunk>, hi: Option<Chunk>, c: Chunk, k: nat)
    requires Ordered(t, lo, hi) && Branches(t, k) && NoKey(Leaves(t), c)
    ensures NoKey(Leaves(t.items[k].sub.value), c)
  {
    FollowedSplit(t, k);
  }

  /** The tree stays well formed and its entries are the old ones with e at its place. */
  lemma {:induction false} GrowKeeps(t: Tree, lo: Option<Chunk>, hi: Option<Chunk>, e: Item)
    requires Ordered(t, lo, hi) && InRange(e.tag.key, lo, hi) && LeafItem(e) && NoKey(Leaves(t), e.tag.key)
    ensures Ordered(GrowInto(t, e), lo, hi)
    ensures Leaves(GrowInto(t, e)) == Placed(Leaves(t), Position(Leaves(t), e.tag.key), e)
    ensures OnPath(GrowInto(t, e), PathTo(t, e.tag.key)) && GrowInto(t, e).level == t.level
    decreases t
  {
    hide Ordered, LeavesFrom, Position, NoKey;
    if t.level <= 1 {
      LeafGrows(t, lo, hi, e);
    } else {
      FollowedChild(t, lo, hi, e.tag.key);
      var k := Followed(t.items, e.tag.key);
      var sub := t.items[k].sub.value;
      NoKeyBelow(t, lo, hi, e.tag.key, k);
      GrowKeeps(sub, LoOf(t, k, lo), HiOf(t, k, hi), e);
      NodeGrows(t, lo, hi, e, k, GrowInto(sub, e));
      WithOrdered(t, k, GrowInto(sub, e), lo, hi);
      assert ([k] + PathTo(sub, e.tag.key))[1..] == PathTo(sub, e.tag.key);
    }
  }

  // ---------------------------------------------------------------- insert, then look up

  ghost function Inserted(t: Tree, e: Item, full: seq<Item> -> bool): Tree
    requires OnPath(GrowInto(t, e), PathTo(t, e.tag.key))
  {
    Propagated(GrowInto(t, e), PathTo(t, e.tag.key), full)
  }

  lemma LookupPlaced(items: seq<Item>, e: Item, c: Chunk)
    requires Ascending(items) && NoKey(items, e.tag.key)
    ensures Lookup(Placed(items, Position(items, e.tag.key), e), c) == if c == e.tag.key then Some(e) else Lookup(items, c)
  {
    PositionIs(items, e.tag.key);
    var k := Position(items, e.tag.key);
    var out := Placed(items, k, e);
    PlacedAscending(items, k, e);
    FoundIs(items, c);
    assert items == items[..k] + items[k..];
    assert forall x :: x in out <==> x == e || x in items;
    hide Position;
    LookupIs(out, c, if c == e.tag.key then Some(e) else Lookup(items, c));
  }

  /** Insert a new key: the tree is well formed afterwards exactly when every split key was above its
      separator, and then the key is found with its entry and every other key as before. */
  lemma InsertIff(t: Tree, e: Item, full: seq<Item> -> bool)
    requires Ordered(t, None, None) && t.level >= 1 && LeafItem(e) && Descend(t, e.tag.key) == None
    ensures OnPath(GrowInto(t, e), PathTo(t, e.tag.key)) && Ordered(GrowInto(t, e), None, None) && GrowInto(t, e).level == t.level
    ensures Ordered(Inserted(t, e, full), None, None) <==> KeysAbove(GrowInto(t, e), PathTo(t, e.tag.key), full)
    ensures KeysAbove(GrowInto(t, e), PathTo(t, e.tag.key), full) ==>
              forall c :: Descend(Inserted(t, e, full), c) == if c == e.tag.key then Some(e) else Descend(t, c)
  {
    hide Ordered, LeavesFrom, Position, Descend, Lookup, GrowInto, PathTo, Propagated, KeysAbove;
    DescendIsLookup(t, None, None, e.tag.key);
    FoundIs(Leaves(t), e.tag.key);
    AllLeaves(t, None, None);
    GrowKeeps(t, None, None, e);
    PropagateIff(GrowInto(t, e), PathTo(t, e.tag.key), full);
    forall c ensures Descend(GrowInto(t, e), c) == if c == e.tag.key then Some(e) else Descend(t, c) {
      DescendIsLookup(GrowInto(t, e), None, None, c);
      DescendIsLookup(t, None, None, c);
      LookupPlaced(Leaves(t), e, c);
    }
  }

  // ---------------------------------------------------------------- in place

  /** The nodes passed on the way from t to cur, and the entries followed. */
  ghost predicate Passed(t: Tree, c: Chunk, vals: seq<Tree>, path: seq<nat>, cur: Tree) {
    && |vals| == |path| && (vals + [cur])[0] == t && PathTo(t, c) == path + PathTo(cur, c) && Descend(t, c) == Descend(cur, c)
    && forall j | 0 <= j < |path| ::
         && vals[j].level > 1 && Branches(vals[j], path[j]) && path[j] == Followed(vals[j].items, c)
         && vals[j].items[path[j]].sub.value == (vals + [cur])[j + 1]
  }

  lemma PassedStart(t: Tree, c: Chunk)
    ensures Passed(t, c, [], [], t)
  {
    assert [] + PathTo(t, c) == PathTo(t, c);
  }

  lemma PassedNext(t: Tree, c: Chunk, vals: seq<Tree>, path: seq<nat>, cur: Tree, k: nat)
    requires Passed(t, c, vals, path, cur) && cur.level > 1 && Branches(cur, k) && k == Followed(cur.items, c)
    ensures Passed(t, c, vals + [cur], path + [k], cur.items[k].sub.value)
  {
    hide PathTo, Descend, Followed;
    var sub := cur.items[k].sub.value;
    StepDown(cur, c, k);
    RegroupPath(path, k, PathTo(sub, c));
    var vals', path' := vals + [cur], path + [k];
    assert (vals' + [sub])[0] == t;
    forall j | 0 <= j < |path'|
      ensures vals'[j].level > 1 && Branches(vals'[j], path'[j]) && path'[j] == Followed(vals'[j].items, c)
      ensures vals'[j].items[path'[j]].sub.value == (vals' + [sub])[j + 1]
    {
      if j < |path| { assert vals'[j] == vals[j] && path'[j] == path[j] && (vals' + [sub])[j + 1] == vals'[j + 1]; }
    }
  }

  lemma StepDown(cur: Tree, c: Chunk, k: nat)
    requires cur.level > 1 && Branches(cur, k) && k == Followed(cur.items, c)
    ensures PathTo(cur, c) == [k] + PathTo(cur.items[k].sub.value, c) && Descend(cur, c) == Descend(cur.items[k].sub.value, c)
  {
  }

  lemma RegroupPath(path: seq<nat>, k: nat, rest: seq<nat>)
    ensures path + ([k] + rest) == (path + [k]) + rest
  {
  }

  lemma GrowNode(t: Tree, e: Item, k: nat)
    requires t.level > 1 && Branches(t, k) && k == Followed(t.items, e.tag.key)
    ensures GrowInto(t, e) == With(t, k, GrowInto(t.items[k].sub.value, e))
  {
  }

  /** The nodes of the descent once the leaf has the entry: what each holds is up to date. */
  ghost predicate GrownFrom(nodes: seq<Bnode>, vals: seq<Tree>, e: Item, d: nat)
    reads nodes
    requires |nodes| == |vals| && d <= |nodes|
  {
    && (forall j | 0 <= j < d :: nodes[j].Value() == vals[j])
    && (forall j | d <= j < |nodes| :: nodes[j].Value() == GrowInto(vals[j], e))
  }

  lemma GrownIsDescent(t: Tree, nodes: seq<Bnode>, vals: seq<Tree>, path: seq<nat>, leaf: Tree, e: Item)
    requires Passed(t, e.tag.key, vals, path, leaf) && |nodes| == |vals| + 1 && GrownFrom(nodes, vals + [leaf], e, 0)
    requires forall i, j | 0 <= i < j < |nodes| :: nodes[i] != nodes[j]
    ensures Descent(nodes, path)
  {
    hide PathTo, Descend, GrowInto, Followed;
    forall j | 0 <= j < |path|
      ensures Branches(nodes[j].Value(), path[j]) && nodes[j].Value().items[path[j]].sub.value == nodes[j + 1].Value()
    {
      GrowNode(vals[j], e, path[j]);
    }
  }

  /** A parent sees its child's new entry through its pointer; here its own copy is brought up to
      date. */
  method Refresh(nodes: seq<Bnode>, path: seq<nat>, ghost t: Tree, ghost vals: seq<Tree>, ghost leaf: Tree, ghost e: Item)
    requires Passed(t, e.tag.key, vals, path, leaf) && |path| == |vals| && |nodes| == |vals| + 1 && GrownFrom(nodes, vals + [leaf], e, |path|)
    requires forall i, j | 0 <= i < j < |nodes| :: nodes[i] != nodes[j]
    modifies nodes
    ensures GrownFrom(nodes, vals + [leaf], e, 0)
  {
    hide PathTo, Descend, GrowInto, Followed, Passed;
    ghost var all := vals + [leaf];
    var d := |path|;
    while d > 0
      invariant 0 <= d <= |path| && (forall j | 0 <= j < d :: nodes[j].Value() == all[j])
      invariant forall j | d <= j < |nodes| :: nodes[j].Value() == GrowInto(all[j], e)
    {
      d := d - 1;
      PassedAt(t, e.tag.key, vals, path, leaf, d);
      GrowNode(vals[d], e, path[d]);
      nodes[d].entries := nodes[d].entries[path[d] := nodes[d].entries[path[d]].(sub := Some(Node(nodes[d + 1].level, nodes[d + 1].entries)))];
    }
  }

  lemma PassedAt(t: Tree, c: Chunk, vals: seq<Tree>, path: seq<nat>, leaf: Tree, j: nat)
    requires Passed(t, c, vals, path, leaf) && j < |path|
    ensures |vals| == |path| && vals[j].level > 1 && Branches(vals[j], path[j]) && path[j] == Followed(vals[j].items, c)
    ensures vals[j].items[path[j]].sub.value == (vals + [leaf])[j + 1]
  {
  }

  method DescendWithPath(t: Tree, c: Chunk)
    returns (nodes: seq<Bnode>, path: seq<nat>, ghost vals: seq<Tree>, leaf: Tree)
    requires Ordered(t, None, None)
    ensures Passed(t, c, vals, path, leaf) && leaf.level <= 1 && Ascending(leaf.items)
    ensures |nodes| == |vals| + 1 && forall j | 0 <= j < |nodes| :: fresh(nodes[j]) && nodes[j].Value() == (vals + [leaf])[j]
    ensures forall i, j | 0 <= i < j < |nodes| :: nodes[i] != nodes[j]
  {
    hide PathTo, Descend, Ordered, Followed, Passed;
    nodes, path, vals, leaf := [], [], [], t;
    PassedStart(t, c);
    ghost var lo: Option<Chunk>, hi: Option<Chunk> := None, None;
    while leaf.level > 1
      invariant Passed(t, c, vals, path, leaf) && Ordered(leaf, lo, hi) && InRange(c, lo, hi)
      invariant |nodes| == |vals| && forall j | 0 <= j < |nodes| :: fresh(nodes[j]) && nodes[j].Value() == vals[j]
      invariant forall i, j | 0 <= i < j < |nodes| :: nodes[i] != nodes[j]
      decreases leaf
    {
      var node := new Bnode(leaf.level);
      node.entries := leaf.items;
      OrderedKeys(leaf, lo, hi);
      FollowedChild(leaf, lo, hi, c);
      var k := ChildIndex(leaf.items, c);
      FollowedIs(leaf.items, c, k);
      PassedNext(t, c, vals, path, leaf, k);
      nodes, path, vals := nodes + [node], path + [k], vals + [leaf];
      lo, hi := LoOf(leaf, k, lo), HiOf(leaf, k, hi);
      leaf := leaf.items[k].sub.value;
    }
    OrderedKeys(leaf, lo, hi);
    var node := new Bnode(leaf.level);
    node.entries := leaf.items;
    nodes := nodes + [node];
  }

  lemma AtLeaf(t: Tree, c: Chunk, vals: seq<Tree>, path: seq<nat>, leaf: Tree, found: bool, i: nat)
    requires Passed(t, c, vals, path, leaf) && leaf.level <= 1 && Ascending(leaf.items)
    requires if found then i < |leaf.items| && leaf.items[i].tag.key == c else forall j | 0 <= j < |leaf.items| :: leaf.items[j].tag.key != c
    ensures Descend(t, c) == (if found then Some(leaf.items[i]) else None) && PathTo(t, c) == path
    ensures |vals| == |path| && (vals + [leaf])[0] == t
  {
    LookupIs(leaf.items, c, if found then Some(leaf.items[i]) else None);
    assert path + [] == path;
  }

  lemma LeafGrown(leaf: Tree, e: Item, k: nat)
    requires leaf.level <= 1 && Ascending(leaf.items) && LowerBound(leaf.items, e.tag.key, k)
    ensures Node(leaf.level, Placed(leaf.items, k, e)) == GrowInto(leaf, e)
  {
    PositionIs(leaf.items, e.tag.key);
    LowerBoundUnique(leaf.items, e.tag.key, k, Position(leaf.items, e.tag.key));
  }

  /** Insert a key the tree does not have; a key it has is left to the version chain. */
  method InsertEntry(t: Tree, e: Item, full: seq<Item> -> bool) returns (inserted: bool, root: Bnode)
    requires Ordered(t, None, None) && t.level >= 1 && LeafItem(e)
    ensures inserted <==> Descend(t, e.tag.key) == None
    ensures !inserted ==> root.Value() == t
    ensures inserted ==> OnPath(GrowInto(t, e), PathTo(t, e.tag.key)) && root.Value() == Inserted(t, e, full)
    ensures inserted ==> (Ordered(root.Value(), None, None) <==> KeysAbove(GrowInto(t, e), PathTo(t, e.tag.key), full))
    ensures inserted && KeysAbove(GrowInto(t, e), PathTo(t, e.tag.key), full) ==>
              forall c :: Descend(root.Value(), c) == if c == e.tag.key then Some(e) else Descend(t, c)
  {
    hide PathTo, Descend, Ordered, Followed, Passed, GrowInto, KeysAbove, Propagated, Position, OnPath, Descent, LeavesFrom;
    var nodes, path, vals, leaf := DescendWithPath(t, e.tag.key);
    var found, i := Find(leaf.items, e.tag.key);
    AtLeaf(t, e.tag.key, vals, path, leaf, found, i);
    if found {
      return false, nodes[0];
    }
    InsertIff(t, e, full);
    var k := nodes[|path|].Insert(e);
    LeafGrown(leaf, e, k);
    assert GrownFrom(nodes, vals + [leaf], e, |path|);
    Refresh(nodes, path, t, vals, leaf, e);
    GrownIsDescent(t, nodes, vals, path, leaf, e);
    root := SplitAfterInsert(nodes, path, full);
    return true, root;
  }

  // ---------------------------------------------------------------- a key lost by inserts alone

  ghost predicate PlainLeaf(t: Tree) {
    t.level == 1 && Ascending(t.items) && forall i | 0 <= i < |t.items| :: !t.items[i].tag.Sep?
  }

  /** An insert into a root that is a leaf: no split below four entries, a new root at four. */
  lemma LeafInsert(t: Tree, e: Item, k: nat)
    requires PlainLeaf(t) && |t.items| <= 3 && LowerBound(t.items, e.tag.key, k)
    ensures var leaf := Node(1, Placed(t.items, k, e));
            && PathTo(t, e.tag.key) == [] && GrowInto(t, e) == leaf && OnPath(GrowInto(t, e), PathTo(t, e.tag.key))
            && KeysAbove(GrowInto(t, e), PathTo(t, e.tag.key), FullAtFour)
            && Inserted(t, e, FullAtFour) == if |t.items| == 3 then Root(leaf) else leaf
  {
    LeafGrown(t, e, k);
    hide Position, LowerBound, Ascending;
  }

  /** An insert into the first of two leaves: no split below four entries. */
  lemma FirstInsert(t: Tree, leaf: Tree, e: Item, k: nat)
    requires t.level == 2 && |t.items| == 2 && t.items[0].tag.Sep? && t.items[0].sub == Some(leaf) && Less(e.tag.key, t.items[1].tag.key)
    requires PlainLeaf(leaf) && |leaf.items| <= 3 && LowerBound(leaf.items, e.tag.key, k)
    ensures var grown := Node(1, Placed(leaf.items, k, e));
            && PathTo(t, e.tag.key) == [0] && GrowInto(t, e) == With(t, 0, grown) && OnPath(GrowInto(t, e), PathTo(t, e.tag.key))
            && (|leaf.items| < 3 ==> KeysAbove(GrowInto(t, e), PathTo(t, e.tag.key), FullAtFour))
            && Inserted(t, e, FullAtFour) == if |leaf.items| == 3 then HungAt(With(t, 0, grown), 0) else With(t, 0, grown)
  {
    LeafGrown(leaf, e, k);
    assert Followed(t.items, e.tag.key) == 0 by { ChunkOrder(); }
    hide Position, LowerBound, Ascending, Less, Followed;
    var grown := Node(1, Placed(leaf.items, k, e));
    assert PathTo(leaf, e.tag.key) == [] && [0] + PathTo(leaf, e.tag.key) == [0] && [0][1..] == [];
    assert GrowInto(t, e) == With(t, 0, grown) && With(With(t, 0, grown), 0, grown) == With(t, 0, grown);
    assert Climb(grown, [0][1..], FullAtFour) == (grown, |leaf.items| == 3);
    if |leaf.items| == 3 { assert |HungAt(With(t, 0, grown), 0).items| == 3; }
  }

  function LeafOf(keys: seq<Byte>): Tree {
    Node(1, seq(|keys|, i requires 0 <= i < |keys| => Entry1(keys[i])))
  }

  lemma LeafOfPlain(keys: seq<Byte>, b: Byte, k: nat)
    requires (forall i, j | 0 <= i < j < |keys| :: keys[i] < keys[j]) && k <= |keys|
    requires (forall i | 0 <= i < k :: keys[i] < b) && forall i | k <= i < |keys| :: keys[i] > b
    ensures PlainLeaf(LeafOf(keys)) && LowerBound(LeafOf(keys).items, [b], k)
    ensures Node(1, Placed(LeafOf(keys).items, k, Entry1(b))) == LeafOf(keys[..k] + [b] + keys[k..])
  {
    ByteKeys();
    var t := LeafOf(keys);
    assert forall i | 0 <= i < |keys| :: t.items[i].tag.key == [keys[i]];
    hide Less;
    assert Placed(t.items, k, Entry1(b)) == LeafOf(keys[..k] + [b] + keys[k..]).items;
  }

  function TwoLeaves(low: seq<Byte>): Tree {
    Node(2, [Item(Sep([5]), Some(LeafOf(low))), Item(Sep([9]), Some(LeafOf([9, 10])))])
  }

  lemma RootOfFour()
    ensures Root(LeafOf([5, 6, 9, 10])) == TwoLeaves([5, 6])
  {
    var c := LeafOf([5, 6, 9, 10]);
    assert LeftHalf(c, 2) == LeafOf([5, 6]) && RightHalf(c, 2) == LeafOf([9, 10]);
  }

  lemma HungInFront()
    ensures HungAt(TwoLeaves([1, 2, 5, 6]), 0) ==
              Node(2, [Item(Sep([5]), Some(LeafOf([5, 6]))), Item(Sep([5]), Some(LeafOf([1, 2]))), Item(Sep([9]), Some(LeafOf([9, 10])))])
  {
    var t, c := TwoLeaves([1, 2, 5, 6]), LeafOf([1, 2, 5, 6]);
    assert LeftHalf(c, 2) == LeafOf([1, 2]) && RightHalf(c, 2) == LeafOf([5, 6]) && c.items[2].tag.key == [5];
    assert Position(t.items, [5]) == 0 by { ByteKeys(); }
    hide Position;
    assert Shrunk(t, 0, 2) == [Item(Sep([5]), Some(LeafOf([1, 2]))), t.items[1]];
  }

  lemma OneNotFound(r: Tree)
    requires r == Node(2, [Item(Sep([5]), Some(LeafOf([5, 6]))), Item(Sep([5]), Some(LeafOf([1, 2]))), Item(Sep([9]), Some(LeafOf([9, 10])))])
    ensures Descend(r, [1]) == None
  {
    OneIsBelow();
    hide Less, AtMost, Descend;
    var leaf := LeafOf([5, 6]);
    FirstFollowed(r, [1], leaf);
    assert leaf.items[0].tag.key == [5] && leaf.items[1].tag.key == [6];
    NotAmong(leaf.items, [1]);
  }

  /** The tree answers exactly the keys of one byte in `keys`. */
  ghost predicate Answers(t: Tree, keys: set<Byte>) {
    forall c :: Descend(t, c) == if |c| == 1 && c[0] in keys then Some(Entry1(c[0])) else None
  }

  method AddKey(t: Tree, b: Byte, ghost keys: set<Byte>) returns (root: Bnode)
    requires Ordered(t, None, None) && t.level >= 1 && Answers(t, keys) && b !in keys
    ensures OnPath(GrowInto(t, Entry1(b)), PathTo(t, [b])) && root.Value() == Inserted(t, Entry1(b), FullAtFour)
    ensures KeysAbove(GrowInto(t, Entry1(b)), PathTo(t, [b]), FullAtFour) ==> Ordered(root.Value(), None, None) && Answers(root.Value(), keys + {b})
  {
    hide Ordered, Descend, GrowInto, PathTo, KeysAbove, Propagated, OnPath;
    var e := Entry1(b);
    assert Descend(t, e.tag.key) == None;
    var inserted;
    inserted, root := InsertEntry(t, e, FullAtFour);
  }

  method AddToLeaf(keys: seq<Byte>, b: Byte, k: nat, ghost all: set<Byte>) returns (root: Bnode)
    requires Ordered(LeafOf(keys), None, None) && Answers(LeafOf(keys), all) && b !in all && |keys| <= 3 && k <= |keys|
    requires (forall i, j | 0 <= i < j < |keys| :: keys[i] < keys[j])
    requires (forall i | 0 <= i < k :: keys[i] < b) && forall i | k <= i < |keys| :: keys[i] > b
    ensures var leaf := LeafOf(keys[..k] + [b] + keys[k..]); |leaf.items| >= |keys| + 1 && root.Value() == if |keys| == 3 then Root(leaf) else leaf
    ensures Ordered(root.Value(), None, None) && Answers(root.Value(), all + {b})
  {
    hide Ordered, Answers, Descend, GrowInto, PathTo, KeysAbove, Inserted, OnPath, LowerBound, PlainLeaf;
    LeafOfPlain(keys, b, k);
    LeafInsert(LeafOf(keys), Entry1(b), k);
    root := AddKey(LeafOf(keys), b, all);
  }

  method AddToFirst(keys: seq<Byte>, b: Byte, k: nat, ghost all: set<Byte>) returns (root: Bnode)
    requires Ordered(TwoLeaves(keys), None, None) && Answers(TwoLeaves(keys), all) && b !in all && |keys| <= 3 && k <= |keys| && b < 9
    requires (forall i, j | 0 <= i < j < |keys| :: keys[i] < keys[j])
    requires (forall i | 0 <= i < k :: keys[i] < b) && forall i | k <= i < |keys| :: keys[i] > b
    ensures var t := TwoLeaves(keys[..k] + [b] + keys[k..]); |LeafOf(keys[..k] + [b] + keys[k..]).items| == |keys| + 1 && root.Value() == if |keys| == 3 then HungAt(t, 0) else t
    ensures |keys| < 3 ==> Ordered(root.Value(), None, None) && Answers(root.Value(), all + {b})
  {
    hide Ordered, Answers, Descend, GrowInto, PathTo, KeysAbove, Inserted, OnPath, LowerBound, PlainLeaf, HungAt;
    LeafOfPlain(keys, b, k);
    assert Less([b], [9]) by { ByteKeys(); }
    FirstInsert(TwoLeaves(keys), LeafOf(keys), Entry1(b), k);
    assert With(TwoLeaves(keys), 0, LeafOf(keys[..k] + [b] + keys[k..])) == TwoLeaves(keys[..k] + [b] + keys[k..]);
    root := AddKey(TwoLeaves(keys), b, all);
  }

  lemma NothingThere()
    ensures Ordered(LeafOf([]), None, None) && Answers(LeafOf([]), {})
  {
    var t := LeafOf([]);
    assert t.items == [];
  }

  method TwoKeys() returns (r: Bnode)
    ensures r.Value() == LeafOf([5, 6]) && Ordered(r.Value(), None, None) && Answers(r.Value(), {5, 6})
  {
    hide Ordered, Answers, LeafOf, Root;
    NothingThere();
    r := AddToLeaf([], 5, 0, {});
    assert [][..0] + [5] + [][0..] == [5] && {} + {5} == {5};
    r := AddToLeaf([5], 6, 1, {5});
    assert [5][..1] + [6] + [5][1..] == [5, 6] && {5} + {6} == {5, 6};
  }

  method FourKeys() returns (r: Bnode)
    ensures r.Value() == TwoLeaves([5, 6]) && Ordered(r.Value(), None, None) && Answers(r.Value(), {5, 6, 9, 10})
  {
    hide Ordered, Answers, LeafOf, Root, TwoLeaves;
    r := TwoKeys();
    r := AddToLeaf([5, 6], 9, 2, {5, 6});
    assert [5, 6][..2] + [9] + [5, 6][2..] == [5, 6, 9] && {5, 6} + {9} == {5, 6, 9};
    r := AddToLeaf([5, 6, 9], 10, 3, {5, 6, 9});
    assert [5, 6, 9][..3] + [10] + [5, 6, 9][3..] == [5, 6, 9, 10] && {5, 6, 9} + {10} == {5, 6, 9, 10};
    RootOfFour();
  }

  method FiveKeys() returns (r: Bnode)
    ensures r.Value() == TwoLeaves([1, 5, 6]) && Ordered(r.Value(), None, None) && Answers(r.Value(), {5, 6, 9, 10, 1})
  {
    hide Ordered, Answers, LeafOf, HungAt, TwoLeaves;
    r := FourKeys();
    r := AddToFirst([5, 6], 1, 0, {5, 6, 9, 10});
    assert [5, 6][..0] + [1] + [5, 6][0..] == [1, 5, 6] && {5, 6, 9, 10} + {1} == {5, 6, 9, 10, 1};
  }

  /** From the empty tree, with a split at four entries: 5, 6, 9, 10, 1 go in and are all found; then 2
      goes in, and 1 is no longer found. */
  method LoseKey() returns (before: Bnode, after: Bnode)
    ensures Answers(before.Value(), {5, 6, 9, 10, 1}) && Descend(after.Value(), [1]) == None
  {
    hide Ordered, Answers, Descend, HungAt, LeafOf, TwoLeaves;
    before := FiveKeys();
    after := AddToFirst([1, 5, 6], 2, 1, {5, 6, 9, 10, 1});
    assert [1, 5, 6][..1] + [2] + [1, 5, 6][1..] == [1, 2, 5, 6];
    HungInFront();
    OneNotFound(after.Value());
  }
}
