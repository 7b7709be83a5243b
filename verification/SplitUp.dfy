/**
 Splitting after an insert (btree_split_after_insert and btree_propagate_split): the node at the
 end of a descent is cut in two when it is overfull, the right half is hung into the parent, and so
 on up the path, to a new root if need be. A path is the list of entries followed from the root.
 */
module SplitUp {
  import opened Common
  import opened NodeStore
  import opened Keys
  import opened BTree

  // ---------------------------------------------------------------- a node inside a tree

  ghost predicate OnPath(t: Tree, path: seq<nat>)
    decreases |path|
  {
    path == [] || (Branches(t, path[0]) && OnPath(t.items[path[0]].sub.value, path[1..]))
  }

  predicate Branches(t: Tree, i: nat) {
    t.level > 1 && i < |t.items| && t.items[i].tag.Sep? && t.items[i].sub.Some?
  }

  function With(t: Tree, i: nat, c: Tree): Tree
    requires i < |t.items|
  {
    t.(items := t.items[i := t.items[i].(sub := Some(c))])
  }

  ghost function Sub(t: Tree, path: seq<nat>): Tree
    requires OnPath(t, path)
    decreases |path|
  {
    if path == [] then t else Sub(t.items[path[0]].sub.value, path[1..])
  }

  ghost function LoAt(t: Tree, path: seq<nat>, lo: Option<Chunk>): Option<Chunk>
    requires OnPath(t, path)
    decreases |path|
  {
    if path == [] then lo else LoAt(t.items[path[0]].sub.value, path[1..], LoOf(t, path[0], lo))
  }

  ghost function HiAt(t: Tree, path: seq<nat>, hi: Option<Chunk>): Option<Chunk>
    requires OnPath(t, path)
    decreases |path|
  {
    if path == [] then hi else HiAt(t.items[path[0]].sub.value, path[1..], HiOf(t, path[0], hi))
  }

  /** t with the node at the end of the path replaced by c. */
  ghost function Graft(t: Tree, path: seq<nat>, c: Tree): Tree
    requires OnPath(t, path)
    decreases |path|
  {
    if path == [] then c else With(t, path[0], Graft(t.items[path[0]].sub.value, path[1..], c))
  }

  lemma {:induction false} SubOrdered(t: Tree, path: seq<nat>, lo: Option<Chunk>, hi: Option<Chunk>)
    requires Ordered(t, lo, hi) && OnPath(t, path)
    ensures Ordered(Sub(t, path), LoAt(t, path, lo), HiAt(t, path, hi))
    decreases |path|
  {
    if path != [] {
      ChildOrdered(t, lo, hi, path[0]);
      SubOrdered(t.items[path[0]].sub.value, path[1..], LoOf(t, path[0], lo), HiOf(t, path[0], hi));
    }
  }

  lemma WithLeaves(t: Tree, i: nat, c: Tree)
    requires Branches(t, i)
    ensures Leaves(With(t, i, c)) == Leaves(t) <==> Leaves(c) == Leaves(t.items[i].sub.value)
  {
    hide LeavesFrom, Cat;
    var x, y := t.items[i], t.items[i].(sub := Some(c));
    var before, after := t.items[..i], t.items[i + 1..];
    CutItems(t.items, i, y);
    ListLeaves(t, before, [x] + after);
    ListLeaves(With(t, i, c), before, [y] + after);
    ConsLeaves(x, after);
    ConsLeaves(y, after);
    Between(Cat(before), Leaves(x.sub.value), Leaves(c), Cat(after));
  }

  lemma Between(a: seq<Item>, x: seq<Item>, y: seq<Item>, b: seq<Item>)
    ensures a + (x + b) == a + (y + b) <==> x == y
  {
    if a + (x + b) == a + (y + b) {
      assert |x| == |y|;
      forall i | 0 <= i < |x| ensures x[i] == y[i] {
        assert (a + (x + b))[|a| + i] == x[i] && (a + (y + b))[|a| + i] == y[i];
      }
    }
  }

  lemma WithOrdered(t: Tree, i: nat, c: Tree, lo: Option<Chunk>, hi: Option<Chunk>)
    requires Ordered(t, lo, hi) && Branches(t, i)
    ensures Ordered(With(t, i, c), lo, hi) <==> Ordered(c, LoOf(t, i, lo), HiOf(t, i, hi))
  {
    var q := With(t, i, c);
    if Ordered(q, lo, hi) { ChildOrdered(q, lo, hi, i); }
    if Ordered(c, LoOf(t, i, lo), HiOf(t, i, hi)) { SameOrder(t, q, lo, hi, i, c); }
  }

  /** A node anywhere in a tree may be replaced by exactly the trees that hold the same entries in
      the same range. */
  lemma {:induction false} GraftIff(t: Tree, path: seq<nat>, c: Tree, lo: Option<Chunk>, hi: Option<Chunk>)
    requires Ordered(t, lo, hi) && OnPath(t, path)
    ensures Leaves(Graft(t, path, c)) == Leaves(t) <==> Leaves(c) == Leaves(Sub(t, path))
    ensures Ordered(Graft(t, path, c), lo, hi) <==> Ordered(c, LoAt(t, path, lo), HiAt(t, path, hi))
    decreases |path|
  {
    hide Ordered, LeavesFrom;
    if path != [] {
      ChildOrdered(t, lo, hi, path[0]);
      var child := t.items[path[0]].sub.value;
      GraftIff(child, path[1..], c, LoOf(t, path[0], lo), HiOf(t, path[0], hi));
      WithLeaves(t, path[0], Graft(child, path[1..], c));
      WithOrdered(t, path[0], Graft(child, path[1..], c), lo, hi);
    }
  }

  /** Cutting child i of the node at the end of any path: the whole tree stays ordered exactly when
      the split key is above the separator; its entries stay the same exactly then or when one of
      the halves holds none. */
  lemma SplitAnywhereIff(t: Tree, path: seq<nat>, lo: Option<Chunk>, hi: Option<Chunk>, i: nat, mid: nat, k: nat)
    requires Ordered(t, lo, hi) && OnPath(t, path) && Splits(Sub(t, path), LoAt(t, path, lo), HiAt(t, path, hi), i, mid, k)
    ensures var p := Sub(t, path);
            var c := p.items[i].sub.value;
            var above := Less(p.items[i].tag.key, c.items[mid].tag.key);
            var after := Graft(t, path, Hung(p, i, mid, k));
            && (Ordered(after, lo, hi) <==> above)
            && (Leaves(after) == Leaves(t) <==> above || Leaves(LeftHalf(c, mid)) == [] || Leaves(RightHalf(c, mid)) == [])
  {
    hide Ordered, LeavesFrom;
    var p := Sub(t, path);
    ChildOrdered(p, LoAt(t, path, lo), HiAt(t, path, hi), i);
    SplitKeepsIff(p, LoAt(t, path, lo), HiAt(t, path, hi), i, mid, k);
    GraftIff(t, path, Hung(p, i, mid, k), lo, hi);
  }

  // ---------------------------------------------------------------- up the path

  /** bnode_needs_split: at least four entries, and more bytes than a node may have. */
  predicate Overfull(t: Tree, full: seq<Item> -> bool) {
    |t.items| >= 4 && full(t.items)
  }

  function Mid(t: Tree): nat { |t.items| / 2 }

  function Position(items: seq<Item>, c: Chunk): (k: nat)
    ensures k <= |items|
  {
    if items != [] && Less(items[0].tag.key, c) then 1 + Position(items[1..], c) else 0
  }

  lemma {:induction false} PositionIs(items: seq<Item>, c: Chunk)
    requires Ascending(items)
    ensures LowerBound(items, c, Position(items, c))
  {
    ChunkOrder();
    if items != [] && Less(items[0].tag.key, c) {
      PositionIs(items[1..], c);
      var k := Position(items[1..], c);
      forall i | 0 <= i < k + 1 ensures Less(items[i].tag.key, c) { if i > 0 { assert items[i] == items[1..][i - 1]; } }
      forall i | k + 1 <= i < |items| ensures !Less(items[i].tag.key, c) { assert items[i] == items[1..][i - 1]; }
    }
  }

  lemma LowerBoundUnique(items: seq<Item>, c: Chunk, j: nat, k: nat)
    requires LowerBound(items, c, j) && LowerBound(items, c, k)
    ensures j == k
  {
  }

  /** Parent p with its child i, which is overfull, cut and hung in. */
  function HungAt(p: Tree, i: nat): Tree
    requires i < |p.items| && p.items[i].sub.Some? && |p.items[i].sub.value.items| >= 4
  {
    var c := p.items[i].sub.value;
    Hung(p, i, Mid(c), Position(p.items, c.items[Mid(c)].tag.key))
  }

  /** What the subtree t becomes when the node at the end of the path was overfull, and whether t
      itself is now to be cut. */
  ghost function Climb(t: Tree, path: seq<nat>, full: seq<Item> -> bool): (r: (Tree, bool))
    requires OnPath(t, path)
    ensures r.1 ==> |r.0.items| >= 4
    decreases |path|
  {
    if path == [] then (t, Overfull(t, full))
    else
      var (c, pending) := Climb(t.items[path[0]].sub.value, path[1..], full);
      var p := With(t, path[0], c);
      if !pending then (p, false) else (HungAt(p, path[0]), Overfull(HungAt(p, path[0]), full))
  }

  function Root(c: Tree): Tree
    requires |c.items| >= 4
  {
    Node(c.level + 1, [Item(Sep(c.items[0].tag.key), Some(LeftHalf(c, Mid(c)))), RightItem(c, Mid(c))])
  }

  /** The whole tree afterwards. */
  ghost function Propagated(t: Tree, path: seq<nat>, full: seq<Item> -> bool): Tree
    requires OnPath(t, path)
  {
    var (r, pending) := Climb(t, path, full);
    if pending then Root(r) else r
  }

  /** Every node cut on the way has its split key above its separator. */
  ghost predicate KeysAbove(t: Tree, path: seq<nat>, full: seq<Item> -> bool)
    requires OnPath(t, path)
    decreases |path|
  {
    path == [] ||
    var child := t.items[path[0]].sub.value;
    var (c, pending) := Climb(child, path[1..], full);
    KeysAbove(child, path[1..], full) && (pending ==> Less(t.items[path[0]].tag.key, c.items[Mid(c)].tag.key))
  }

  // ---------------------------------------------------------------- a misplaced half stays misplaced

  /** The second entry of x has a key below its separator. */
  ghost predicate BadHere(x: Tree) {
    && |x.items| > 1 && x.items[1].sub.Some? && |x.items[1].sub.value.items| > 1
    && Less(x.items[1].sub.value.items[1].tag.key, x.items[1].tag.key)
  }

  ghost predicate Bad(x: Tree)
    decreases x
  {
    x.level > 1 && (BadHere(x) || exists i :: 0 <= i < |x.items| && x.items[i].sub.Some? && Bad(x.items[i].sub.value))
  }

  lemma BadChild(x: Tree, i: nat)
    requires x.level > 1 && i < |x.items| && x.items[i].sub.Some? && Bad(x.items[i].sub.value)
    ensures Bad(x)
  {
  }

  lemma {:induction false} BadNotOrdered(x: Tree, lo: Option<Chunk>, hi: Option<Chunk>)
    requires Bad(x)
    ensures !Ordered(x, lo, hi)
    decreases x
  {
    if Ordered(x, lo, hi) {
      if BadHere(x) {
        ChildOrdered(x, lo, hi, 1);
        OrderedKeys(x.items[1].sub.value, LoOf(x, 1, lo), HiOf(x, 1, hi));
        ChunkOrder();
      } else {
        var i :| 0 <= i < |x.items| && x.items[i].sub.Some? && Bad(x.items[i].sub.value);
        BadNotOrdered(x.items[i].sub.value, LoOf(x, i, lo), HiOf(x, i, hi));
      }
    }
  }

  lemma BadCause(x: Tree) returns (i: nat)
    requires Bad(x)
    ensures x.level > 1 && (BadHere(x) || (i < |x.items| && x.items[i].sub.Some? && Bad(x.items[i].sub.value)))
  {
    i := 0;
    if !BadHere(x) {
      i :| 0 <= i < |x.items| && x.items[i].sub.Some? && Bad(x.items[i].sub.value);
    }
  }

  lemma BadSelf(x: Tree)
    requires x.level > 1 && BadHere(x)
    ensures Bad(x)
  {
  }

  lemma BadHalves(c: Tree, mid: nat)
    requires Bad(c) && 2 <= mid <= |c.items|
    ensures Bad(LeftHalf(c, mid)) || Bad(RightHalf(c, mid))
  {
    hide Bad;
    var i := BadCause(c);
    var l, r := LeftHalf(c, mid), RightHalf(c, mid);
    if BadHere(c) {
      assert l.items[1] == c.items[1];
      BadSelf(l);
    } else if i < mid {
      BadChild(l, i);
    } else {
      BadChild(r, i - mid);
    }
  }

  lemma BadHung(p: Tree, i: nat, mid: nat, k: nat)
    requires p.level > 1 && i < |p.items| && p.items[i].sub.Some? && 2 <= mid < |p.items[i].sub.value.items| && k <= |p.items|
    requires Bad(p.items[i].sub.value)
    ensures Bad(Hung(p, i, mid, k))
  {
    var c, q := p.items[i].sub.value, Hung(p, i, mid, k);
    BadHalves(c, mid);
    var at := if i < k then i else i + 1;
    assert q.items[k].sub == Some(RightHalf(c, mid)) && q.items[at].sub == Some(LeftHalf(c, mid));
    if Bad(LeftHalf(c, mid)) { BadChild(q, at); } else { BadChild(q, k); }
  }

  lemma MisplacedIsBad(p: Tree, mid: nat)
    requires p.level > 1 && p.items != [] && p.items[0].sub.Some? && 2 <= mid < |p.items[0].sub.value.items|
    requires Ascending(p.items[0].sub.value.items) && !Less(p.items[0].tag.key, p.items[0].sub.value.items[mid].tag.key)
    ensures Bad(Hung(p, 0, mid, 0))
  {
    var c, q := p.items[0].sub.value, Hung(p, 0, mid, 0);
    ChunkOrder();
    assert q.items[1] == Item(p.items[0].tag, Some(LeftHalf(c, mid))) && LeftHalf(c, mid).items[1] == c.items[1];
    assert Less(c.items[1].tag.key, c.items[mid].tag.key);
    assert BadHere(q);
  }

  // ---------------------------------------------------------------- keys of a node on the way

  /** The keys of a node that may be cut ascend, strictly from the second on, and are in range. */
  ghost predicate Loose(x: Tree, lo: Option<Chunk>, hi: Option<Chunk>) {
    |x.items| >= 4 ==>
      && AtMost(x.items[0].tag.key, x.items[1].tag.key)
      && (forall i, j | 1 <= i < j < |x.items| :: Less(x.items[i].tag.key, x.items[j].tag.key))
      && (forall i | 1 <= i < |x.items| :: InRange(x.items[i].tag.key, lo, hi))
  }

  lemma OrderedLoose(x: Tree, lo: Option<Chunk>, hi: Option<Chunk>)
    requires Ordered(x, lo, hi)
    ensures Loose(x, lo, hi)
  {
  }

  lemma SameKeysLoose(t: Tree, lo: Option<Chunk>, hi: Option<Chunk>, i: nat, c: Tree)
    requires Ordered(t, lo, hi) && i < |t.items|
    ensures Loose(With(t, i, c), lo, hi) && Ascending(With(t, i, c).items)
    ensures forall j | 0 <= j < |t.items| :: With(t, i, c).items[j].tag == t.items[j].tag
  {
    OrderedKeys(t, lo, hi);
    assert forall j | 0 <= j < |t.items| :: With(t, i, c).items[j].tag == t.items[j].tag;
  }

  /** The split key goes next to the separator of the node that was cut, or in front of the first. */
  lemma PlaceOf(t: Tree, lo: Option<Chunk>, hi: Option<Chunk>, i: nat, c: Tree)
    requires Ordered(t, lo, hi) && Branches(t, i) && |c.items| >= 4 && Loose(c, LoOf(t, i, lo), HiOf(t, i, hi))
    ensures var key := c.items[Mid(c)].tag.key;
            var k := Position(With(t, i, c).items, key);
            && LowerBound(With(t, i, c).items, key, k)
            && (if Less(t.items[i].tag.key, key) then k == i + 1 else i == 0 && k == 0)
  {
    var key, p := c.items[Mid(c)].tag.key, With(t, i, c);
    SameKeysLoose(t, lo, hi, i, c);
    PositionIs(p.items, key);
    OrderedKeys(t, lo, hi);
    assert InRange(c.items[1].tag.key, LoOf(t, i, lo), HiOf(t, i, hi)) && Less(c.items[1].tag.key, key);
    assert InRange(key, LoOf(t, i, lo), HiOf(t, i, hi));
    hide Ordered, Position;
    ChunkOrder();
    var k := Position(p.items, key);
    assert p.items[i].tag == t.items[i].tag;
    if i + 1 < |p.items| { assert p.items[i + 1].tag == t.items[i + 1].tag && Less(key, p.items[i + 1].tag.key); }
  }

  lemma HungLoose(t: Tree, lo: Option<Chunk>, hi: Option<Chunk>, i: nat, c: Tree)
    requires Ordered(t, lo, hi) && Branches(t, i) && |c.items| >= 4 && Loose(c, LoOf(t, i, lo), HiOf(t, i, hi))
    ensures Loose(HungAt(With(t, i, c), i), lo, hi)
  {
    var p := With(t, i, c);
    PlaceOf(t, lo, hi, i, c);
    OrderedKeys(t, lo, hi);
    var key := c.items[Mid(c)].tag.key;
    assert InRange(key, LoOf(t, i, lo), HiOf(t, i, hi));
    hide *;
    HungTags(p, i);
    SameTags(t, i, c);
    KeysLoose(t, HungAt(p, i), lo, hi, i, Position(p.items, key), key);
  }

  lemma SameTags(t: Tree, i: nat, c: Tree)
    requires i < |t.items|
    ensures |With(t, i, c).items| == |t.items| && With(t, i, c).items[i].sub == Some(c)
    ensures forall j | 0 <= j < |t.items| :: With(t, i, c).items[j].tag == t.items[j].tag
  {
  }

  lemma HungTags(p: Tree, i: nat)
    requires i < |p.items| && p.items[i].sub.Some? && |p.items[i].sub.value.items| >= 4
    ensures var c, q := p.items[i].sub.value, HungAt(p, i);
            var k := Position(p.items, c.items[Mid(c)].tag.key);
            && |q.items| == |p.items| + 1 && (forall j | 0 <= j < k :: q.items[j].tag == p.items[j].tag)
            && q.items[k].tag.key == c.items[Mid(c)].tag.key && (forall j | k < j < |q.items| :: q.items[j].tag == p.items[j - 1].tag)
  {
    hide Position;
  }

  lemma KeysLoose(t: Tree, q: Tree, lo: Option<Chunk>, hi: Option<Chunk>, i: nat, k: nat, key: Chunk)
    requires Ascending(t.items) && (forall j | 0 < j < |t.items| :: InRange(t.items[j].tag.key, lo, hi))
    requires i < |t.items| && InRange(key, LoOf(t, i, lo), HiOf(t, i, hi)) && t.level > 1
    requires if Less(t.items[i].tag.key, key) then k == i + 1 else i == 0 && k == 0
    requires |q.items| == |t.items| + 1 && (forall j | 0 <= j < k :: q.items[j].tag == t.items[j].tag)
    requires q.items[k].tag.key == key && forall j | k < j < |q.items| :: q.items[j].tag == t.items[j - 1].tag
    ensures Loose(q, lo, hi)
  {
    hide Less, AtMost;
    if |q.items| >= 4 {
      KeyInRange(t, lo, hi, i, key);
      forall j | 1 <= j < |q.items| ensures InRange(q.items[j].tag.key, lo, hi) { LooseRange(t, q, lo, hi, i, k, key, j); }
      forall a, b | 1 <= a < b < |q.items| ensures Less(q.items[a].tag.key, q.items[b].tag.key) { LoosePair(t, q, hi, i, k, key, a, b); }
      LooseFirst(t, q, i, k, key);
    }
  }

  lemma KeyInRange(t: Tree, lo: Option<Chunk>, hi: Option<Chunk>, i: nat, key: Chunk)
    requires (forall j | 0 < j < |t.items| :: InRange(t.items[j].tag.key, lo, hi)) && t.level > 1
    requires i < |t.items| && InRange(key, LoOf(t, i, lo), HiOf(t, i, hi))
    ensures InRange(key, lo, hi) && (i + 1 < |t.items| ==> Less(key, t.items[i + 1].tag.key))
  {
    ChunkOrder();
  }

  lemma LooseRange(t: Tree, q: Tree, lo: Option<Chunk>, hi: Option<Chunk>, i: nat, k: nat, key: Chunk, j: nat)
    requires Ascending(t.items) && (forall j | 0 < j < |t.items| :: InRange(t.items[j].tag.key, lo, hi)) && |t.items| >= 2
    requires i < |t.items| && InRange(key, lo, hi) && (if Less(t.items[i].tag.key, key) then k == i + 1 else i == 0 && k == 0)
    requires |q.items| == |t.items| + 1 && (forall j | 0 <= j < k :: q.items[j].tag == t.items[j].tag)
    requires q.items[k].tag.key == key && forall j | k < j < |q.items| :: q.items[j].tag == t.items[j - 1].tag
    requires 1 <= j < |q.items|
    ensures InRange(q.items[j].tag.key, lo, hi)
  {
    if k == 0 && j == 1 {
      assert Less(t.items[0].tag.key, t.items[1].tag.key) && InRange(t.items[1].tag.key, lo, hi);
      ChunkOrder();
    }
  }

  lemma LoosePair(t: Tree, q: Tree, hi: Option<Chunk>, i: nat, k: nat, key: Chunk, a: nat, b: nat)
    requires Ascending(t.items) && i < |t.items| && (i + 1 < |t.items| ==> Less(key, t.items[i + 1].tag.key))
    requires if Less(t.items[i].tag.key, key) then k == i + 1 else i == 0 && k == 0
    requires |q.items| == |t.items| + 1 && (forall j | 0 <= j < k :: q.items[j].tag == t.items[j].tag)
    requires q.items[k].tag.key == key && forall j | k < j < |q.items| :: q.items[j].tag == t.items[j - 1].tag
    requires 1 <= a < b < |q.items|
    ensures Less(q.items[a].tag.key, q.items[b].tag.key)
  {
    ChunkOrder();
    hide Less;
    if a == k {
      assert b - 1 == i + 1 || Less(t.items[i + 1].tag.key, t.items[b - 1].tag.key);
    } else if b == k {
      assert a == i || Less(t.items[a].tag.key, t.items[i].tag.key);
    }
  }

  lemma LooseFirst(t: Tree, q: Tree, i: nat, k: nat, key: Chunk)
    requires Ascending(t.items) && i < |t.items| && |t.items| >= 2
    requires if Less(t.items[i].tag.key, key) then k == i + 1 else i == 0 && k == 0
    requires |q.items| == |t.items| + 1 && (forall j | 0 <= j < k :: q.items[j].tag == t.items[j].tag)
    requires q.items[k].tag.key == key && forall j | k < j < |q.items| :: q.items[j].tag == t.items[j - 1].tag
    ensures AtMost(q.items[0].tag.key, q.items[1].tag.key)
  {
    ChunkOrder();
    assert Less(t.items[0].tag.key, t.items[1].tag.key);
  }

  // ---------------------------------------------------------------- the whole climb

  lemma ClimbStep(t: Tree, lo: Option<Chunk>, hi: Option<Chunk>, i: nat, c: Tree)
    requires Ordered(t, lo, hi) && Branches(t, i) && |c.items| >= 4
    requires Ordered(c, LoOf(t, i, lo), HiOf(t, i, hi)) && Leaves(c) == Leaves(t.items[i].sub.value)
    ensures var q := HungAt(With(t, i, c), i);
            if Less(t.items[i].tag.key, c.items[Mid(c)].tag.key) then Ordered(q, lo, hi) && Leaves(q) == Leaves(t) else Bad(q)
  {
    hide LeavesFrom, Position, Bad;
    var p, key := With(t, i, c), c.items[Mid(c)].tag.key;
    OrderedLoose(c, LoOf(t, i, lo), HiOf(t, i, hi));
    OrderedKeys(c, LoOf(t, i, lo), HiOf(t, i, hi));
    PlaceOf(t, lo, hi, i, c);
    ReplaceChild(t, lo, hi, i, c);
    hide Ordered;
    var k := Position(p.items, key);
    if Less(t.items[i].tag.key, key) {
      ShrunkBound(p, i, Mid(c), key, k);
      assert Splits(p, lo, hi, i, Mid(c), k);
      SplitKeeps(p, lo, hi, i, Mid(c), k);
    } else {
      MisplacedIsBad(p, Mid(c));
    }
  }

  lemma ShrunkBound(p: Tree, i: nat, mid: nat, key: Chunk, k: nat)
    requires i < |p.items| && p.items[i].sub.Some? && mid <= |p.items[i].sub.value.items| && LowerBound(p.items, key, k)
    ensures LowerBound(Shrunk(p, i, mid), key, k)
  {
    assert forall j | 0 <= j < |p.items| :: Shrunk(p, i, mid)[j].tag == p.items[j].tag;
  }

  /** On the way up entries and order are kept exactly when every split key is above its separator. */
  lemma {:induction false} ClimbKeeps(t: Tree, path: seq<nat>, lo: Option<Chunk>, hi: Option<Chunk>, full: seq<Item> -> bool)
    requires Ordered(t, lo, hi) && OnPath(t, path)
    ensures var r := Climb(t, path, full).0;
            && Loose(r, lo, hi)
            && (if KeysAbove(t, path, full) then Ordered(r, lo, hi) && Leaves(r) == Leaves(t) else Bad(r))
    decreases |path|
  {
    hide Ordered, LeavesFrom, Bad, HungAt, Loose;
    if path == [] {
      OrderedLoose(t, lo, hi);
    } else {
      var i, child := path[0], t.items[path[0]].sub.value;
      ChildOrdered(t, lo, hi, i);
      ClimbKeeps(child, path[1..], LoOf(t, i, lo), HiOf(t, i, hi), full);
      var (c, pending) := Climb(child, path[1..], full);
      if !pending {
        SameKeysLoose(t, lo, hi, i, c);
        if KeysAbove(child, path[1..], full) { ReplaceChild(t, lo, hi, i, c); } else { BadChild(With(t, i, c), i); }
      } else {
        HungLoose(t, lo, hi, i, c);
        if KeysAbove(child, path[1..], full) { ClimbStep(t, lo, hi, i, c); } else { BadHungAt(With(t, i, c), i); }
      }
    }
  }

  lemma BadHungAt(p: Tree, i: nat)
    requires p.level > 1 && i < |p.items| && p.items[i].sub.Some? && |p.items[i].sub.value.items| >= 4 && Bad(p.items[i].sub.value)
    ensures Bad(HungAt(p, i))
  {
    var c := p.items[i].sub.value;
    BadHung(p, i, Mid(c), Position(p.items, c.items[Mid(c)].tag.key));
  }

  lemma BadRoot(c: Tree)
    requires Bad(c) && |c.items| >= 4
    ensures Bad(Root(c))
  {
    BadHalves(c, Mid(c));
    if Bad(LeftHalf(c, Mid(c))) { BadChild(Root(c), 0); } else { BadChild(Root(c), 1); }
  }

  /** After an insert at the end of any path, however many nodes are cut: the tree is well formed
      exactly when every split key was above its separator, and then it holds the same entries and
      a descent finds for every key what it found before. */
  lemma PropagateIff(t: Tree, path: seq<nat>, full: seq<Item> -> bool)
    requires Ordered(t, None, None) && t.level >= 1 && OnPath(t, path)
    ensures Ordered(Propagated(t, path, full), None, None) <==> KeysAbove(t, path, full)
    ensures KeysAbove(t, path, full) ==> Leaves(Propagated(t, path, full)) == Leaves(t)
    ensures KeysAbove(t, path, full) ==> forall c :: Descend(Propagated(t, path, full), c) == Descend(t, c)
  {
    hide Ordered, LeavesFrom, Bad, KeysAbove, Descend, Climb;
    ClimbKeeps(t, path, None, None, full);
    var (r, pending) := Climb(t, path, full);
    var after := Propagated(t, path, full);
    if KeysAbove(t, path, full) {
      if pending { LevelKept(t, path, full); NewRoot(r, Mid(r)); }
      forall c ensures Descend(after, c) == Descend(t, c) { SameAnswers(after, t, c); }
    } else {
      if pending { BadRoot(r); }
      BadNotOrdered(after, None, None);
    }
  }

  lemma {:induction false} LevelKept(t: Tree, path: seq<nat>, full: seq<Item> -> bool)
    requires OnPath(t, path)
    ensures Climb(t, path, full).0.level == t.level
    decreases |path|
  {
    if path != [] { LevelKept(t.items[path[0]].sub.value, path[1..], full); }
  }

  // ---------------------------------------------------------------- separators that are lower bounds

  /** Every separator, also the first, is at or below the keys of the node it leads to. */
  ghost predicate Tight(t: Tree)
    decreases t
  {
    t.level > 1 ==> forall i | 0 <= i < |t.items| && t.items[i].sub.Some? :: TightEntry(t.items[i]) && Tight(t.items[i].sub.value)
  }

  ghost predicate TightEntry(e: Item)
    requires e.sub.Some?
  {
    e.sub.value.items != [] ==> AtMost(e.tag.key, e.sub.value.items[0].tag.key)
  }

  lemma TightParts(t: Tree, items: seq<Item>)
    requires t.level > 1 && forall i | 0 <= i < |items| && items[i].sub.Some? :: TightEntry(items[i]) && Tight(items[i].sub.value)
    ensures Tight(Node(t.level, items))
  {
  }

  lemma TightHalves(c: Tree, mid: nat)
    requires Tight(c) && mid <= |c.items|
    ensures Tight(LeftHalf(c, mid)) && Tight(RightHalf(c, mid))
  {
  }

  lemma TightWith(t: Tree, i: nat, c: Tree)
    requires Tight(t) && Branches(t, i) && Tight(c) && TightEntry(t.items[i].(sub := Some(c)))
    ensures Tight(With(t, i, c))
  {
  }

  lemma TightHung(p: Tree, i: nat, mid: nat, k: nat)
    requires Tight(p) && Branches(p, i) && 0 < mid < |p.items[i].sub.value.items| && k <= |p.items|
    ensures Tight(Hung(p, i, mid, k))
  {
    var c, q := p.items[i].sub.value, Hung(p, i, mid, k);
    TightHalves(c, mid);
    hide Tight;
    forall j | 0 <= j < |q.items| && q.items[j].sub.Some? ensures TightEntry(q.items[j]) && Tight(q.items[j].sub.value) {
      if j != k { TightAt(p, if j < k then j else j - 1); }
    }
    TightParts(p, q.items);
  }

  lemma TightAt(t: Tree, i: nat)
    requires Tight(t) && t.level > 1 && i < |t.items| && t.items[i].sub.Some?
    ensures TightEntry(t.items[i]) && Tight(t.items[i].sub.value)
  {
  }

  /** Where every separator is a lower bound, every split key is above its separator, and every
      separator is a lower bound again afterwards. */
  lemma {:induction false} TightClimb(t: Tree, path: seq<nat>, lo: Option<Chunk>, hi: Option<Chunk>, full: seq<Item> -> bool)
    requires Tight(t) && Ordered(t, lo, hi) && OnPath(t, path)
    ensures KeysAbove(t, path, full) && Tight(Climb(t, path, full).0)
    ensures t.items != [] ==> Climb(t, path, full).0.items != [] && Climb(t, path, full).0.items[0].tag == t.items[0].tag
    decreases |path|
  {
    hide Ordered, Tight, HungAt;
    if path != [] {
      var i, child := path[0], t.items[path[0]].sub.value;
      ChildOrdered(t, lo, hi, i);
      TightAt(t, i);
      TightClimb(child, path[1..], LoOf(t, i, lo), HiOf(t, i, hi), full);
      var (c, pending) := Climb(child, path[1..], full);
      ClimbKeeps(child, path[1..], LoOf(t, i, lo), HiOf(t, i, hi), full);
      if child.items == [] { EmptyClimb(child, path[1..], full); }
      TightWith(t, i, c);
      if pending { TightStep(t, lo, hi, i, c); }
    }
  }

  lemma EmptyClimb(t: Tree, path: seq<nat>, full: seq<Item> -> bool)
    requires OnPath(t, path) && t.items == []
    ensures Climb(t, path, full).0 == t
  {
  }

  lemma TightStep(t: Tree, lo: Option<Chunk>, hi: Option<Chunk>, i: nat, c: Tree)
    requires Ordered(t, lo, hi) && Branches(t, i) && Tight(With(t, i, c)) && |c.items| >= 4 && AtMost(t.items[i].tag.key, c.items[0].tag.key)
    requires Ordered(c, LoOf(t, i, lo), HiOf(t, i, hi))
    ensures Less(t.items[i].tag.key, c.items[Mid(c)].tag.key)
    ensures Tight(HungAt(With(t, i, c), i)) && HungAt(With(t, i, c), i).items != []
    ensures HungAt(With(t, i, c), i).items[0].tag == t.items[0].tag
  {
    var p, key := With(t, i, c), c.items[Mid(c)].tag.key;
    OrderedLoose(c, LoOf(t, i, lo), HiOf(t, i, hi));
    OrderedKeys(c, LoOf(t, i, lo), HiOf(t, i, hi));
    PlaceOf(t, lo, hi, i, c);
    hide Ordered, Tight, Position;
    assert Less(t.items[i].tag.key, key) by { assert Less(c.items[0].tag.key, key); ChunkOrder(); }
    TightHung(p, i, Mid(c), Position(p.items, key));
  }

  /** With lower-bound separators everywhere, an insert never misplaces anything: however many nodes
      are cut, the tree stays well formed with the same entries and answers. */
  lemma TightPropagates(t: Tree, path: seq<nat>, full: seq<Item> -> bool)
    requires Tight(t) && Ordered(t, None, None) && t.level >= 1 && OnPath(t, path)
    ensures var r := Propagated(t, path, full);
            Tight(r) && Ordered(r, None, None) && Leaves(r) == Leaves(t) && forall c :: Descend(r, c) == Descend(t, c)
  {
    TightClimb(t, path, None, None, full);
    PropagateIff(t, path, full);
    var (r, pending) := Climb(t, path, full);
    hide Ordered, LeavesFrom, Descend, Climb, Tight;
    if pending {
      TightHalves(r, Mid(r));
      LevelKept(t, path, full);
      TightParts(Root(r), Root(r).items);
    }
  }

  // ---------------------------------------------------------------- a key lost by a split

  function Entry1(b: Byte): Item { Item(Step([b]), None) }

  function FullAtFour(items: seq<Item>): bool { |items| >= 4 }

  /** The leaf under the first separator, 5, has since taken 1 to 3. */
  function LowLeaf(): Tree { Node(1, [Entry1(1), Entry1(2), Entry1(3), Entry1(5)]) }
  function HighLeaf(): Tree { Node(1, [Entry1(9)]) }
  function StaleRoot(): Tree { Node(2, [Item(Sep([5]), Some(LowLeaf())), Item(Sep([9]), Some(HighLeaf()))]) }

  lemma StaleOrdered()
    ensures Ordered(StaleRoot(), None, None) && OnPath(StaleRoot(), [0]) && Position(StaleRoot().items, [3]) == 0
  {
    ByteKeys();
    var t, low, high := StaleRoot(), LowLeaf(), HighLeaf();
    hide Less;
    assert Ordered(low, None, Some([9])) && Ordered(high, Some([9]), None);
    assert LoOf(t, 0, None) == None && HiOf(t, 0, None) == Some([9]) && LoOf(t, 1, None) == Some([9]) && HiOf(t, 1, None) == None;
  }

  lemma StaleAfter()
    requires OnPath(StaleRoot(), [0]) && Position(StaleRoot().items, [3]) == 0
    ensures Propagated(StaleRoot(), [0], FullAtFour) ==
              Node(2, [Item(Sep([3]), Some(Node(1, [Entry1(3), Entry1(5)]))), Item(Sep([5]), Some(Node(1, [Entry1(1), Entry1(2)]))),
                       Item(Sep([9]), Some(HighLeaf()))])
  {
    hide Position;
    var t, low := StaleRoot(), LowLeaf();
    assert Climb(low, [0][1..], FullAtFour) == (low, true);
    assert With(t, 0, low) == t && Mid(low) == 2 && low.items[2].tag.key == [3];
    assert LeftHalf(low, 2).items == [Entry1(1), Entry1(2)] && RightHalf(low, 2).items == [Entry1(3), Entry1(5)];
    assert Shrunk(t, 0, 2) == [Item(Sep([5]), Some(LeftHalf(low, 2))), t.items[1]];
  }

  lemma FirstFollowed(t: Tree, c: Chunk, sub: Tree)
    requires t.level > 1 && sub.level <= 1 && |t.items| > 1 && t.items[0].sub == Some(sub) && !AtMost(t.items[1].tag.key, c)
    ensures Descend(t, c) == Lookup(sub.items, c)
  {
    assert Followed(t.items, c) == 0;
  }

  lemma NotAmong(items: seq<Item>, c: Chunk)
    requires forall i | 0 <= i < |items| :: items[i].tag.key != c
    ensures Lookup(items, c) == None
  {
    FoundIs(items, c);
  }

  lemma OneIsBelow()
    ensures !AtMost([9], [1]) && !AtMost([5], [1])
  {
    ByteKeys();
  }

  lemma FoundBefore()
    ensures Descend(StaleRoot(), [1]) == Some(Entry1(1))
  {
    OneIsBelow();
    hide Less, AtMost, Descend;
    FirstFollowed(StaleRoot(), [1], LowLeaf());
  }

  lemma LostAfter(r: Tree)
    requires r == Node(2, [Item(Sep([3]), Some(Node(1, [Entry1(3), Entry1(5)]))), Item(Sep([5]), Some(Node(1, [Entry1(1), Entry1(2)]))),
                           Item(Sep([9]), Some(HighLeaf()))])
    ensures Descend(r, [1]) == None
  {
    OneIsBelow();
    hide Less, AtMost, Descend;
    FirstFollowed(r, [1], Node(1, [Entry1(3), Entry1(5)]));
    NotAmong([Entry1(3), Entry1(5)], [1]);
  }

  /** A well-formed tree with two separators, as a split of the root leaves them, in which key 1 is
      found; after the leaf's next split it is not, and the tree is not well formed. */
  lemma MisplacedExample()
    ensures exists t, path, full, c ::
              && Ordered(t, None, None) && OnPath(t, path) && Descend(t, c).Some?
              && !Ordered(Propagated(t, path, full), None, None) && Descend(Propagated(t, path, full), c).None?
  {
    hide *;
    StaleOrdered();
    StaleAfter();
    FoundBefore();
    LostAfter(Propagated(StaleRoot(), [0], FullAtFour));
    assert StaleRoot().level >= 1 by { StaleLevel(); }
    PropagateIff(StaleRoot(), [0], FullAtFour);
  }

  lemma StaleLevel()
    ensures StaleRoot().level == 2
  {
  }

  // ---------------------------------------------------------------- in place

  /** The bnodes of a descent: each is what its parent's followed entry holds. */
  ghost predicate Chained(vals: seq<Tree>, path: seq<nat>) {
    && |vals| == |path| + 1
    && forall j | 0 <= j < |path| :: Branches(vals[j], path[j]) && vals[j].items[path[j]].sub.value == vals[j + 1]
  }

  ghost function Values(nodes: seq<Bnode>): (vals: seq<Tree>)
    reads nodes
    ensures |vals| == |nodes| && forall j | 0 <= j < |nodes| :: vals[j] == nodes[j].Value()
  {
    seq(|nodes|, j requires 0 <= j < |nodes| reads nodes => nodes[j].Value())
  }

  ghost predicate Descent(nodes: seq<Bnode>, path: seq<nat>)
    reads nodes
  {
    (forall i, j | 0 <= i < j < |nodes| :: nodes[i] != nodes[j]) && Chained(Values(nodes), path)
  }

  lemma {:induction false} ChainedOnPath(vals: seq<Tree>, path: seq<nat>, d: nat)
    requires Chained(vals, path) && d <= |path|
    ensures OnPath(vals[d], path[d..])
    decreases |path| - d
  {
    if d < |path| {
      ChainedOnPath(vals, path, d + 1);
      assert path[d..][1..] == path[d + 1..];
    }
  }

  lemma {:induction false} ChainedOrdered(vals: seq<Tree>, path: seq<nat>, d: nat)
    requires Chained(vals, path) && d <= |path| && Ordered(vals[0], None, None)
    ensures exists lo, hi :: Ordered(vals[d], lo, hi)
    decreases d
  {
    hide Ordered;
    if d > 0 {
      ChainedOrdered(vals, path, d - 1);
      var lo, hi :| Ordered(vals[d - 1], lo, hi);
      ChildOrdered(vals[d - 1], lo, hi, path[d - 1]);
      assert Ordered(vals[d], LoOf(vals[d - 1], path[d - 1], lo), HiOf(vals[d - 1], path[d - 1], hi));
    }
  }

  /** The node at depth d has become x, to be cut if pending, when everything below it is done. */
  ghost predicate Reached(vals: seq<Tree>, path: seq<nat>, full: seq<Item> -> bool, d: nat, x: Tree, pending: bool)
    requires Chained(vals, path) && d <= |path|
  {
    OnPath(vals[d], path[d..]) && Climb(vals[d], path[d..], full) == (x, pending)
  }

  lemma ReachedFirst(vals: seq<Tree>, path: seq<nat>, full: seq<Item> -> bool)
    requires Chained(vals, path)
    ensures Reached(vals, path, full, |path|, vals[|path|], Overfull(vals[|path|], full))
  {
  }

  lemma ReachedNext(vals: seq<Tree>, path: seq<nat>, full: seq<Item> -> bool, d: nat, c: Tree, pending: bool)
    requires Chained(vals, path) && d < |path| && Reached(vals, path, full, d + 1, c, pending)
    ensures pending ==> |c.items| >= 4
    ensures var p := With(vals[d], path[d], c);
            if pending then Reached(vals, path, full, d, HungAt(p, path[d]), Overfull(HungAt(p, path[d]), full)) else Reached(vals, path, full, d, p, false)
  {
    hide HungAt, Overfull;
    ChainedOnPath(vals, path, d);
    assert path[d..][1..] == path[d + 1..];
  }

  /** A node on the way up has the keys to be cut at its middle. */
  lemma ReachedLoose(vals: seq<Tree>, path: seq<nat>, full: seq<Item> -> bool, d: nat, x: Tree, pending: bool)
    requires Chained(vals, path) && d <= |path| && Ordered(vals[0], None, None) && Reached(vals, path, full, d, x, pending) && |x.items| >= 4
    ensures Ascending(x.items[Mid(x)..]) && Less(x.items[0].tag.key, x.items[Mid(x)].tag.key)
  {
    hide Ordered, Climb;
    ChainedOrdered(vals, path, d);
    var lo, hi :| Ordered(vals[d], lo, hi);
    ClimbKeeps(vals[d], path[d..], lo, hi, full);
    var right := x.items[Mid(x)..];
    assert forall i | 0 <= i < |right| :: right[i] == x.items[Mid(x) + i];
    ChunkOrder();
  }

  lemma ParentAscending(vals: seq<Tree>, path: seq<nat>, d: nat, c: Tree)
    requires Chained(vals, path) && d < |path| && Ordered(vals[0], None, None)
    ensures Ascending(With(vals[d], path[d], c).items)
  {
    hide Ordered;
    ChainedOrdered(vals, path, d);
    var lo, hi :| Ordered(vals[d], lo, hi);
    SameKeysLoose(vals[d], lo, hi, path[d], c);
  }

  /** The cut child's left half in its place and the right half where the search puts it. */
  lemma InsertedIs(t: Tree, i: nat, c: Tree, entries: seq<Item>, k: nat)
    requires Branches(t, i) && |c.items| >= 4 && Ascending(With(t, i, c).items)
    requires var left := With(t, i, LeftHalf(c, Mid(c))).items;
             LowerBound(left, c.items[Mid(c)].tag.key, k) && entries == Placed(left, k, RightItem(c, Mid(c)))
    ensures Node(t.level, entries) == HungAt(With(t, i, c), i)
  {
    var p, key := With(t, i, c), c.items[Mid(c)].tag.key;
    assert Shrunk(p, i, Mid(c)) == With(t, i, LeftHalf(c, Mid(c))).items;
    PositionIs(p.items, key);
    ShrunkBound(p, i, Mid(c), key, Position(p.items, key));
    LowerBoundUnique(Shrunk(p, i, Mid(c)), key, k, Position(p.items, key));
  }

  /** x is to be cut and has been: the node is its left half, the rest is in `right`. */
  ghost predicate IsCut(node: Bnode, right: Bnode, key: Chunk, x: Tree, pending: bool)
    reads node, right
  {
    if pending then
      |x.items| >= 4 && node.Value() == LeftHalf(x, Mid(x)) && right.Value() == RightHalf(x, Mid(x)) && key == x.items[Mid(x)].tag.key
    else node.Value() == x
  }

  method CutIfFull(node: Bnode, full: seq<Item> -> bool, ghost vals: seq<Tree>, ghost path: seq<nat>, ghost d: nat, ghost x: Tree)
    returns (pending: bool, right: Bnode, key: Chunk)
    requires Chained(vals, path) && d <= |path| && Ordered(vals[0], None, None) && node.Value() == x
    requires Reached(vals, path, full, d, x, Overfull(x, full))
    modifies node
    ensures pending == Overfull(x, full) && fresh(right) && IsCut(node, right, key, x, pending)
  {
    hide Ordered, Climb;
    pending := |node.entries| >= 4 && full(node.entries);
    if pending {
      ReachedLoose(vals, path, full, d, x, true);
      var rc;
      rc, right, key := node.Split();
    } else {
      right := new Bnode(node.level);
      key := [];
    }
  }

  /** One turn of the loop: the child at depth d + 1 has become c; if it was cut, its right half
      goes into this node, which then may have to be cut itself. */
  method HangIn(nodes: seq<Bnode>, path: seq<nat>, full: seq<Item> -> bool, d: nat, right: Bnode, key: Chunk, pending: bool,
                ghost vals: seq<Tree>, ghost c: Tree)
    returns (right': Bnode, key': Chunk, pending': bool, ghost x: Tree)
    requires Chained(vals, path) && d < |path| && |nodes| == |vals| && Ordered(vals[0], None, None) && nodes[d].Value() == vals[d]
    requires Reached(vals, path, full, d + 1, c, pending) && IsCut(nodes[d + 1], right, key, c, pending)
    requires nodes[d] != nodes[d + 1] && right != nodes[d]
    modifies nodes[d]
    ensures Reached(vals, path, full, d, x, pending') && IsCut(nodes[d], right', key', x, pending') && (right' == right || fresh(right'))
  {
    hide Ordered, Climb, HungAt, Reached;
    var i, node := path[d], nodes[d];
    ghost var t := vals[d];
    ReachedNext(vals, path, full, d, c, pending);
    node.entries := node.entries[i := node.entries[i].(sub := Some(Node(nodes[d + 1].level, nodes[d + 1].entries)))];
    if !pending {
      x := With(t, i, c);
      return right, key, false, x;
    }
    assert node.entries == With(t, i, LeftHalf(c, Mid(c))).items;
    ParentAscending(vals, path, d, LeftHalf(c, Mid(c)));
    ParentAscending(vals, path, d, c);
    var k := node.Insert(Item(Sep(key), Some(Node(right.level, right.entries))));
    InsertedIs(t, i, c, node.entries, k);
    x := HungAt(With(t, i, c), i);
    pending', right', key' := CutIfFull(node, full, vals, path, d, x);
  }

  /** A root that was cut gets a new root above both halves. */
  method GrowRoot(left: Bnode, right: Bnode, key: Chunk, ghost x: Tree) returns (root: Bnode)
    requires IsCut(left, right, key, x, true) && Less(x.items[0].tag.key, x.items[Mid(x)].tag.key)
    ensures fresh(root) && root.Value() == Root(x)
  {
    root := new Bnode(left.level + 1);
    var k := root.Insert(Item(Sep(left.entries[0].tag.key), Some(Node(left.level, left.entries))));
    assert root.entries == [Item(Sep(x.items[0].tag.key), Some(LeftHalf(x, Mid(x))))];
    k := root.Insert(Item(Sep(key), Some(Node(right.level, right.entries))));
    assert k == 1;
  }

  /** btree_split_after_insert: `nodes` are the bnodes from the root to the one that took the entry.
      A parent sees what became of its child through its pointer; here its entry is brought up to
      date instead, also above the last node that was cut. */
  method SplitAfterInsert(nodes: seq<Bnode>, path: seq<nat>, full: seq<Item> -> bool) returns (root: Bnode)
    requires Descent(nodes, path) && Ordered(nodes[0].Value(), None, None) && nodes[0].level >= 1
    modifies nodes
    ensures OnPath(old(nodes[0].Value()), path) && root.Value() == Propagated(old(nodes[0].Value()), path, full)
    ensures Ordered(root.Value(), None, None) <==> KeysAbove(old(nodes[0].Value()), path, full)
    ensures KeysAbove(old(nodes[0].Value()), path, full) ==>
              Leaves(root.Value()) == old(Leaves(nodes[0].Value())) && forall c :: Descend(root.Value(), c) == Descend(old(nodes[0].Value()), c)
  {
    hide Ordered, LeavesFrom, Descend, Climb, KeysAbove, HungAt, Position;
    ghost var vals := Values(nodes);
    var d := |path|;
    ReachedFirst(vals, path, full);
    ghost var x := vals[d];
    var pending, right, key := CutIfFull(nodes[d], full, vals, path, d, x);
    while d > 0
      invariant 0 <= d <= |path| && (forall j | 0 <= j < d :: nodes[j].Value() == vals[j])
      invariant Reached(vals, path, full, d, x, pending) && IsCut(nodes[d], right, key, x, pending) && right !in nodes
    {
      d := d - 1;
      right, key, pending, x := HangIn(nodes, path, full, d, right, key, pending, vals, x);
    }
    ChainedOnPath(vals, path, 0);
    PropagateIff(vals[0], path, full);
    assert path[0..] == path;
    root := nodes[0];
    if pending {
      ReachedLoose(vals, path, full, 0, x, true);
      root := GrowRoot(nodes[0], right, key, x);
    }
  }
}
