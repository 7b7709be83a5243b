/**
 The forward range iterator (database_scan_start, seek_to_start_path, seek_position_leaf,
 database_scan_next, within_bounds): an explicit stack of frames walks a trie of B+trees.
 A frame is a B+tree node and the index of its next entry; the nodes are taken with what they
 mean, so a child that is not loaded yet is followed like one that is.
 */
module Scan {
  import opened Common
  import opened NodeStore
  import opened Keys
  import opened BTree
  import opened VersionChain

  type Pos = n: nat | n > 0 witness 1

  /** Chunk size of the trie and transaction id the scan reads at. */
  datatype Ctx = Ctx(cs: Pos, at: TxnId)

  /** A value entry met by the walk: its chunks from the root, the path rebuilt from them, and the
      value visible to this scan (none for a deletion). */
  datatype Hit = Hit(chunks: seq<Chunk>, path: Path, value: Option<Bytes>)

  function OrEmpty(v: Option<Bytes>): Bytes {
    if v.Some? then v.value else []
  }

  function Shown(content: Content, at: TxnId): Option<Bytes> {
    match content
    case Plain(v) => Some(OrEmpty(v))
    case Chain(vs) =>
      if vs == [] then Some([])
      else match Visible(vs, at)
           case None => None
           case Some(v) => Some(OrEmpty(v.value))
  }

  function HitAt(tag: Tag, chunks: seq<Chunk>, ctx: Ctx): Hit
    requires tag.Val?
  {
    Hit(chunks, PathOf(chunks, tag.meta, ctx.cs), Shown(tag.content, ctx.at))
  }

  /** What a hit shows, in numbers: the bytes of the first version of the chain that is not newer than
      the reader, unless that is a deletion; nothing if all are newer; a value without a chain always. */
  lemma ShownIs(tag: Tag, chunks: seq<Chunk>, ctx: Ctx, k: nat)
    requires tag.Val?
    ensures var value := HitAt(tag, chunks, ctx).value;
            match tag.content
            case Plain(v) => value == Some(if v.Some? then v.value else [])
            case Chain(vs) =>
              && (vs == [] ==> value == Some([]))
              && (vs != [] && (forall i | 0 <= i < |vs| :: Number(vs[i].txn) > Number(ctx.at)) ==> value == None)
              && (k < |vs| && Number(vs[k].txn) <= Number(ctx.at) && (forall i | 0 <= i < k :: Number(vs[i].txn) > Number(ctx.at)) ==>
                    value == if vs[k].deleted then None else Some(if vs[k].value.Some? then vs[k].value.value else []))
  {
    if tag.content.Chain? {
      var vs := tag.content.versions;
      forall i | 0 <= i < |vs| ensures vs[i].txn.AtMost(ctx.at) <==> Number(vs[i].txn) <= Number(ctx.at) { TxnOrderIs(vs[i].txn, ctx.at); }
      hide Number, TxnId.AtMost;
      if k < |vs| && vs[k].txn.AtMost(ctx.at) && forall i | 0 <= i < k :: !vs[i].txn.AtMost(ctx.at) { AtIs(vs, ctx.at, k); }
      if forall i | 0 <= i < |vs| :: !vs[i].txn.AtMost(ctx.at) { AtIs(vs, ctx.at, |vs|); }
    }
  }

  /** The hit of an entry stored under a path carries that path. */
  lemma HitPath(p: seq<Bytes>, tag: Tag, ctx: Ctx)
    requires p != [] && tag.Val? && tag.meta == MetaOf(p, ctx.cs)
    ensures HitAt(tag, Flat(CutPath(p, ctx.cs)), ctx).path == CutPath(p, ctx.cs)
    ensures HitAt(tag, Flat(CutPath(p, ctx.cs)), ctx).chunks == Flat(CutPath(p, ctx.cs))
  {
    SplitExact(p, ctx.cs);
  }

  // ---------------------------------------------------------------- the whole walk

  /** Value entries met from entry i of node t on, in walk order, below chunks `prefix`. */
  ghost function HitsFrom(t: Tree, i: nat, prefix: seq<Chunk>, ctx: Ctx): seq<Hit>
    decreases t, |t.items| - i
  {
    if i >= |t.items| then [] else ItemHits(t.items[i], prefix, ctx) + HitsFrom(t, i + 1, prefix, ctx)
  }

  ghost function ItemHits(item: Item, prefix: seq<Chunk>, ctx: Ctx): seq<Hit>
    decreases item
  {
    match item.tag
    case Sep(_) => SubHits(item.sub, prefix, ctx)
    case Step(k) => SubHits(item.sub, prefix + [k], ctx)
    case Val(k, _, _) => [HitAt(item.tag, prefix + [k], ctx)] + SubHits(item.sub, prefix + [k], ctx)
  }

  ghost function SubHits(sub: Option<Tree>, prefix: seq<Chunk>, ctx: Ctx): seq<Hit>
    decreases sub
  {
    if sub.Some? then HitsFrom(sub.value, 0, prefix, ctx) else []
  }

  // ---------------------------------------------------------------- the stack

  datatype Frame = Frame(node: Tree, idx: nat)

  /** The chunk a frame adds to the path: the key of the entry it stands behind, unless that is
      a separator. */
  function FrameChunk(f: Frame): seq<Chunk> {
    if 0 < f.idx <= |f.node.items| && !f.node.items[f.idx - 1].tag.Sep? then [f.node.items[f.idx - 1].tag.key] else []
  }

  function Chunks(stack: seq<Frame>): seq<Chunk> {
    if stack == [] then [] else Chunks(stack[..|stack| - 1]) + FrameChunk(stack[|stack| - 1])
  }

  ghost function Remaining(stack: seq<Frame>, ctx: Ctx): seq<Hit> {
    if stack == [] then []
    else
      var rest, f := stack[..|stack| - 1], stack[|stack| - 1];
      HitsFrom(f.node, f.idx, Chunks(rest), ctx) + Remaining(rest, ctx)
  }

  /** Entries still to be visited; every turn of the walk makes it smaller. */
  ghost function Work(t: Tree, i: nat): nat
    decreases t, |t.items| - i
  {
    if i >= |t.items| then 1 else ItemWork(t.items[i]) + Work(t, i + 1)
  }

  ghost function ItemWork(item: Item): nat
    decreases item
  {
    1 + (if item.sub.Some? then Work(item.sub.value, 0) else 0)
  }

  ghost function StackWork(stack: seq<Frame>): nat {
    if stack == [] then 0 else StackWork(stack[..|stack| - 1]) + Work(stack[|stack| - 1].node, stack[|stack| - 1].idx)
  }

  lemma Pushed(rest: seq<Frame>, f: Frame, ctx: Ctx)
    ensures Remaining(rest + [f], ctx) == HitsFrom(f.node, f.idx, Chunks(rest), ctx) + Remaining(rest, ctx)
    ensures Chunks(rest + [f]) == Chunks(rest) + FrameChunk(f)
    ensures StackWork(rest + [f]) == StackWork(rest) + Work(f.node, f.idx)
  {
    assert (rest + [f])[..|rest|] == rest;
  }

  function PushSub(stack: seq<Frame>, sub: Option<Tree>): seq<Frame> {
    if sub.Some? then stack + [Frame(sub.value, 0)] else stack
  }

  lemma PushedSub(stack: seq<Frame>, sub: Option<Tree>, ctx: Ctx)
    ensures Remaining(PushSub(stack, sub), ctx) == SubHits(sub, Chunks(stack), ctx) + Remaining(stack, ctx)
    ensures Chunks(PushSub(stack, sub)) == Chunks(stack)
    ensures StackWork(PushSub(stack, sub)) == StackWork(stack) + (if sub.Some? then Work(sub.value, 0) else 0)
  {
    if sub.Some? { Pushed(stack, Frame(sub.value, 0), ctx); }
  }

  function Own(item: Item, chunks: seq<Chunk>, ctx: Ctx): seq<Hit> {
    if item.tag.Val? then [HitAt(item.tag, chunks, ctx)] else []
  }

  function ItemChunk(item: Item): seq<Chunk> {
    if item.tag.Sep? then [] else [item.tag.key]
  }

  lemma ItemIs(item: Item, prefix: seq<Chunk>, ctx: Ctx)
    ensures ItemHits(item, prefix, ctx) == Own(item, prefix + ItemChunk(item), ctx) + SubHits(item.sub, prefix + ItemChunk(item), ctx)
  {
    assert prefix + [] == prefix;
  }

  lemma Resplit(d: seq<Hit>, a: seq<Hit>, b: seq<Hit>, r: seq<Hit>)
    ensures d + ((a + b) + r) == (d + a) + (b + r)
  {
  }

  lemma Regroup(own: seq<Hit>, sub: seq<Hit>, b: seq<Hit>, r: seq<Hit>)
    ensures ((own + sub) + b) + r == own + (sub + (b + r))
  {
  }

  /** One entry of the walk: behind it, its child on top, exactly its own hit is gone. */
  lemma OneEntryOn(rest: seq<Frame>, t: Tree, i: nat, ctx: Ctx)
    requires i < |t.items|
    ensures StackWork(PushSub(rest + [Frame(t, i + 1)], t.items[i].sub)) < StackWork(rest + [Frame(t, i)])
    ensures Chunks(PushSub(rest + [Frame(t, i + 1)], t.items[i].sub)) == Chunks(rest) + ItemChunk(t.items[i])
    ensures Remaining(rest + [Frame(t, i)], ctx) ==
              Own(t.items[i], Chunks(rest) + ItemChunk(t.items[i]), ctx) + Remaining(PushSub(rest + [Frame(t, i + 1)], t.items[i].sub), ctx)
  {
    hide Remaining, Chunks, StackWork, PushSub, Own, SubHits, ItemHits;
    var item, next := t.items[i], rest + [Frame(t, i + 1)];
    var p := Chunks(rest) + ItemChunk(item);
    Pushed(rest, Frame(t, i), ctx);
    Pushed(rest, Frame(t, i + 1), ctx);
    PushedSub(next, item.sub, ctx);
    assert Chunks(next) == p;
    ItemIs(item, Chunks(rest), ctx);
    Regroup(Own(item, p, ctx), SubHits(item.sub, p, ctx), HitsFrom(t, i + 1, Chunks(rest), ctx), Remaining(rest, ctx));
  }

  // ---------------------------------------------------------------- where hits stand in trie order

  ghost predicate AllBelow(hits: seq<Hit>, s: Ident) {
    forall h | h in hits :: IdentCompare(h.chunks, s) < 0
  }

  ghost predicate AllAtLeast(hits: seq<Hit>, s: Ident) {
    forall h | h in hits :: IdentCompare(h.chunks, s) >= 0
  }

  ghost function HitsUpTo(t: Tree, k: nat, prefix: seq<Chunk>, ctx: Ctx): seq<Hit>
    requires k <= |t.items|
  {
    if k == 0 then [] else HitsUpTo(t, k - 1, prefix, ctx) + ItemHits(t.items[k - 1], prefix, ctx)
  }

  lemma {:induction false} HitsSplit(t: Tree, k: nat, prefix: seq<Chunk>, ctx: Ctx)
    requires k <= |t.items|
    ensures HitsFrom(t, 0, prefix, ctx) == HitsUpTo(t, k, prefix, ctx) + HitsFrom(t, k, prefix, ctx)
  {
    if k > 0 {
      HitsSplit(t, k - 1, prefix, ctx);
      assert HitsFrom(t, k - 1, prefix, ctx) == ItemHits(t.items[k - 1], prefix, ctx) + HitsFrom(t, k, prefix, ctx);
      assert HitsUpTo(t, k - 1, prefix, ctx) + (ItemHits(t.items[k - 1], prefix, ctx) + HitsFrom(t, k, prefix, ctx))
          == HitsUpTo(t, k - 1, prefix, ctx) + ItemHits(t.items[k - 1], prefix, ctx) + HitsFrom(t, k, prefix, ctx);
    }
  }

  /** Every hit comes from a leaf entry of the B+tree, whose key follows the prefix. */
  lemma {:induction false} HitKey(t: Tree, i: nat, prefix: seq<Chunk>, ctx: Ctx, h: Hit) returns (x: Item)
    requires h in HitsFrom(t, i, prefix, ctx)
    ensures i < |t.items| && x in LeavesFrom(t, i) && !x.tag.Sep? && prefix + [x.tag.key] <= h.chunks
    decreases t, |t.items| - i
  {
    if h in ItemHits(t.items[i], prefix, ctx) {
      x := ItemKey(t.items[i], prefix, ctx, h);
    } else {
      x := HitKey(t, i + 1, prefix, ctx, h);
    }
  }

  lemma {:induction false} ItemKey(item: Item, prefix: seq<Chunk>, ctx: Ctx, h: Hit) returns (x: Item)
    requires h in ItemHits(item, prefix, ctx)
    ensures x in LeavesAt(item) && !x.tag.Sep? && prefix + [x.tag.key] <= h.chunks
    decreases item
  {
    ItemIs(item, prefix, ctx);
    if item.tag.Sep? {
      x := HitKey(item.sub.value, 0, prefix, ctx, h);
    } else {
      x := item;
      if h in SubHits(item.sub, prefix + [item.tag.key], ctx) {
        var y := HitKey(item.sub.value, 0, prefix + [item.tag.key], ctx, h);
      }
    }
  }

  lemma {:induction false} UpToKey(t: Tree, k: nat, prefix: seq<Chunk>, ctx: Ctx, h: Hit) returns (x: Item)
    requires k <= |t.items| && h in HitsUpTo(t, k, prefix, ctx)
    ensures x in LeavesUpTo(t, k) && !x.tag.Sep? && prefix + [x.tag.key] <= h.chunks
  {
    if h in ItemHits(t.items[k - 1], prefix, ctx) {
      x := ItemKey(t.items[k - 1], prefix, ctx, h);
    } else {
      x := UpToKey(t, k - 1, prefix, ctx, h);
    }
  }

  /** The first chunk after a common prefix decides. */
  lemma Differ(prefix: seq<Chunk>, a: Chunk, b: Chunk, x: Ident, y: Ident)
    requires prefix + [a] <= x && prefix + [b] <= y && a != b
    ensures IdentCompare(x, y) == ChunkCompare(a, b)
  {
    Orders();
    var n := |prefix|;
    assert x == prefix + x[n..] && y == prefix + y[n..];
    SkipCommon(prefix, x[n..], y[n..]);
    assert x[n] == a && y[n] == b;
    assert x[n..][0] == a && y[n..][0] == b;
  }

  lemma ProperPrefix(x: Ident, y: Ident)
    requires x <= y
    ensures IdentCompare(x, y) <= 0 <= IdentCompare(y, x) && (|x| < |y| ==> IdentCompare(x, y) < 0)
  {
    assert x + y[|x|..] == y && x + [] == x;
    SkipCommon(x, [], y[|x|..]);
    SkipCommon(x, y[|x|..], []);
  }

  lemma KeyBelow(prefix: seq<Chunk>, a: Chunk, b: Chunk, x: Ident, y: Ident)
    requires prefix + [a] <= x && prefix + [b] <= y && Less(a, b)
    ensures IdentCompare(x, y) < 0 < IdentCompare(y, x)
  {
    Orders();
    Differ(prefix, a, b, x, y);
    Differ(prefix, b, a, y, x);
  }

  /** Below the separator the seek follows everything may hold the start; what hangs before is
      smaller, what hangs after is greater. */
  lemma SeekDown(t: Tree, lo: Option<Chunk>, hi: Option<Chunk>, c: Chunk, k: nat, prefix: seq<Chunk>, s: Ident, ctx: Ctx)
    requires Ordered(t, lo, hi) && Follows(t.items, c, k) && prefix + [c] <= s && t.items[k].tag.Sep? && t.items[k].sub.Some?
    ensures HitsFrom(t, 0, prefix, ctx) ==
              HitsUpTo(t, k, prefix, ctx) + (HitsFrom(t.items[k].sub.value, 0, prefix, ctx) + HitsFrom(t, k + 1, prefix, ctx))
    ensures AllBelow(HitsUpTo(t, k, prefix, ctx), s) && AllAtLeast(HitsFrom(t, k + 1, prefix, ctx), s)
  {
    HitsSplit(t, k, prefix, ctx);
    ItemIs(t.items[k], prefix, ctx);
    assert HitsFrom(t, k, prefix, ctx) == ItemHits(t.items[k], prefix, ctx) + HitsFrom(t, k + 1, prefix, ctx);
    assert prefix + [] == prefix;
    forall h | h in HitsUpTo(t, k, prefix, ctx) ensures IdentCompare(h.chunks, s) < 0 {
      var x := UpToKey(t, k, prefix, ctx, h);
      BeforeFollowed(t, lo, hi, c, k, x);
      KeyBelow(prefix, x.tag.key, c, h.chunks, s);
    }
    forall h | h in HitsFrom(t, k + 1, prefix, ctx) ensures IdentCompare(h.chunks, s) >= 0 {
      var x := HitKey(t, k + 1, prefix, ctx, h);
      AfterFollowed(t, lo, hi, c, k, x);
      KeyBelow(prefix, c, x.tag.key, s, h.chunks);
    }
  }

  lemma {:induction false} LeafPrefix(t: Tree, k: nat)
    requires k <= |t.items| && forall i | 0 <= i < |t.items| :: !t.items[i].tag.Sep?
    ensures LeavesUpTo(t, k) == t.items[..k]
  {
    if k > 0 { LeafPrefix(t, k - 1); }
  }

  /** In a leaf: entries before the lower bound are smaller, entries above the chunk are greater. */
  lemma SeekLeaf(t: Tree, c: Chunk, k: nat, n: nat, prefix: seq<Chunk>, s: Ident, ctx: Ctx)
    requires LowerBound(t.items, c, k) && prefix + [c] <= s && (forall i | 0 <= i < |t.items| :: !t.items[i].tag.Sep?)
    requires k <= n <= |t.items| && (forall i | n <= i < |t.items| :: Less(c, t.items[i].tag.key))
    ensures AllBelow(HitsUpTo(t, k, prefix, ctx), s) && AllAtLeast(HitsFrom(t, n, prefix, ctx), s)
  {
    LeafPrefix(t, k);
    LeafSuffix(t, n);
    forall h | h in HitsUpTo(t, k, prefix, ctx) ensures IdentCompare(h.chunks, s) < 0 {
      var x := UpToKey(t, k, prefix, ctx, h);
      KeyBelow(prefix, x.tag.key, c, h.chunks, s);
    }
    forall h | h in HitsFrom(t, n, prefix, ctx) ensures IdentCompare(h.chunks, s) >= 0 {
      var x := HitKey(t, n, prefix, ctx, h);
      KeyBelow(prefix, c, x.tag.key, s, h.chunks);
    }
  }

  // ---------------------------------------------------------------- the seek on the stack

  /** Everything dropped so far is below s; the frames `rest` hold nothing below s; on top of them
      stands a frame at the start of node t, reached by the first m chunks of s. A start with an
      empty identifier may also drop a hit with exactly its chunks. */
  ghost predicate Seeking(all: seq<Hit>, dropped: seq<Hit>, rest: seq<Frame>, t: Tree, ctx: Ctx, s: Ident, m: nat, solid: bool) {
    && m <= |s| && Chunks(rest) == s[..m]
    && all == dropped + (HitsFrom(t, 0, s[..m], ctx) + Remaining(rest, ctx))
    && AllDropped(dropped, s, solid) && AllAtLeast(Remaining(rest, ctx), s)
  }

  ghost predicate AllDropped(hits: seq<Hit>, s: Ident, solid: bool) {
    forall h | h in hits :: IdentCompare(h.chunks, s) <= 0 && (solid ==> IdentCompare(h.chunks, s) < 0)
  }

  ghost predicate Sought(all: seq<Hit>, dropped: seq<Hit>, left: seq<Hit>, s: Ident, solid: bool) {
    all == dropped + left && AllDropped(dropped, s, solid) && (solid ==> AllAtLeast(left, s))
  }

  lemma DroppedBoth(a: seq<Hit>, b: seq<Hit>, s: Ident, solid: bool)
    requires AllDropped(a, s, solid) && AllDropped(b, s, solid)
    ensures AllDropped(a + b, s, solid)
  {
  }

  lemma BelowDropped(a: seq<Hit>, s: Ident, solid: bool)
    requires AllBelow(a, s)
    ensures AllDropped(a, s, solid)
  {
  }

  lemma AtLeastBoth(a: seq<Hit>, b: seq<Hit>, s: Ident)
    requires AllAtLeast(a, s) && AllAtLeast(b, s)
    ensures AllAtLeast(a + b, s)
  {
  }

  lemma Regroup4(d: seq<Hit>, a: seq<Hit>, b: seq<Hit>, c: seq<Hit>, r: seq<Hit>)
    ensures d + ((a + (b + c)) + r) == (d + a) + (b + (c + r))
  {
  }

  lemma Descended(all: seq<Hit>, dropped: seq<Hit>, rest: seq<Frame>, t: Tree, ctx: Ctx, s: Ident, m: nat, solid: bool,
                  lo: Option<Chunk>, hi: Option<Chunk>, k: nat)
    requires Seeking(all, dropped, rest, t, ctx, s, m, solid) && m < |s|
    requires Ordered(t, lo, hi) && Follows(t.items, s[m], k) && t.items[k].tag.Sep? && t.items[k].sub.Some?
    ensures Seeking(all, dropped + HitsUpTo(t, k, s[..m], ctx), rest + [Frame(t, k + 1)], t.items[k].sub.value, ctx, s, m, solid)
  {
    hide Remaining, Chunks, HitsFrom, HitsUpTo, AllDropped, AllAtLeast, Ordered;
    var sub, p := t.items[k].sub.value, s[..m];
    Pushed(rest, Frame(t, k + 1), ctx);
    assert p + [s[m]] <= s;
    SeekDown(t, lo, hi, s[m], k, p, s, ctx);
    assert Chunks(rest + [Frame(t, k + 1)]) == p + [] == p;
    BelowDropped(HitsUpTo(t, k, p, ctx), s, solid);
    DroppedBoth(dropped, HitsUpTo(t, k, p, ctx), s, solid);
    AtLeastBoth(HitsFrom(t, k + 1, p, ctx), Remaining(rest, ctx), s);
    Regroup4(dropped, HitsUpTo(t, k, p, ctx), HitsFrom(sub, 0, p, ctx), HitsFrom(t, k + 1, p, ctx), Remaining(rest, ctx));
  }

  /** The leaf frame put at entry n, with everything before it dropped. */
  lemma Positioned(all: seq<Hit>, dropped: seq<Hit>, rest: seq<Frame>, t: Tree, ctx: Ctx, s: Ident, m: nat, solid: bool, n: nat)
    requires Seeking(all, dropped, rest, t, ctx, s, m, solid) && n <= |t.items|
    requires AllDropped(HitsUpTo(t, n, s[..m], ctx), s, solid) && AllAtLeast(HitsFrom(t, n, s[..m], ctx), s)
    ensures Sought(all, dropped + HitsUpTo(t, n, s[..m], ctx), Remaining(rest + [Frame(t, n)], ctx), s, solid)
  {
    hide Remaining, Chunks, HitsFrom, HitsUpTo, AllDropped, AllAtLeast;
    var a, b, r := HitsUpTo(t, n, s[..m], ctx), HitsFrom(t, n, s[..m], ctx), Remaining(rest, ctx);
    Pushed(rest, Frame(t, n), ctx);
    HitsSplit(t, n, s[..m], ctx);
    DroppedBoth(dropped, a, s, solid);
    AtLeastBoth(b, r, s);
    Resplit(dropped, a, b, r);
  }

  /** Passing entry n of the leaf, into its trie child. */
  lemma Entered(all: seq<Hit>, dropped: seq<Hit>, rest: seq<Frame>, t: Tree, ctx: Ctx, s: Ident, m: nat, solid: bool, n: nat)
    requires Seeking(all, dropped, rest, t, ctx, s, m, solid) && m < |s| && n < |t.items|
    requires !t.items[n].tag.Sep? && t.items[n].tag.key == s[m] && t.items[n].sub.Some?
    requires AllDropped(HitsUpTo(t, n, s[..m], ctx), s, solid) && AllDropped(Own(t.items[n], s[..m + 1], ctx), s, solid)
    requires AllAtLeast(HitsFrom(t, n + 1, s[..m], ctx), s)
    ensures Seeking(all, dropped + HitsUpTo(t, n, s[..m], ctx) + Own(t.items[n], s[..m + 1], ctx),
                    rest + [Frame(t, n + 1)], t.items[n].sub.value, ctx, s, m + 1, solid)
  {
    hide Remaining, Chunks, HitsFrom, HitsUpTo, AllDropped, AllAtLeast, Own, ItemHits;
    var item, p, q := t.items[n], s[..m], s[..m + 1];
    var up, own, sub, after := HitsUpTo(t, n, p, ctx), Own(item, q, ctx), HitsFrom(item.sub.value, 0, q, ctx), HitsFrom(t, n + 1, p, ctx);
    Pushed(rest, Frame(t, n + 1), ctx);
    assert p + [s[m]] == q;
    HitsSplit(t, n, p, ctx);
    OneMoreHits(t, n, p, ctx);
    ItemIs(item, p, ctx);
    DroppedBoth(dropped, up, s, solid);
    DroppedBoth(dropped + up, own, s, solid);
    AtLeastBoth(after, Remaining(rest, ctx), s);
    Regroup5(dropped, up, own, sub, after, Remaining(rest, ctx));
  }

  lemma OneMoreHits(t: Tree, n: nat, prefix: seq<Chunk>, ctx: Ctx)
    requires n < |t.items|
    ensures HitsFrom(t, n, prefix, ctx) == ItemHits(t.items[n], prefix, ctx) + HitsFrom(t, n + 1, prefix, ctx)
  {
  }

  lemma Regroup5(d: seq<Hit>, a: seq<Hit>, b: seq<Hit>, c: seq<Hit>, e: seq<Hit>, r: seq<Hit>)
    ensures d + ((a + ((b + c) + e)) + r) == (d + a + b) + (c + (e + r))
  {
  }

  lemma OwnDropped(item: Item, q: Ident, s: Ident, ctx: Ctx, solid: bool)
    requires q <= s && (solid ==> |q| < |s|)
    ensures AllDropped(Own(item, q, ctx), s, solid)
  {
    ProperPrefix(q, s);
  }

  /** The matched entry when the start ends with it: everything it holds is at or above the start. */
  lemma MatchAtLeast(t: Tree, n: nat, s: Ident, ctx: Ctx)
    requires n < |t.items| && s != [] && !t.items[n].tag.Sep? && t.items[n].tag.key == s[|s| - 1]
    requires AllAtLeast(HitsFrom(t, n + 1, s[..|s| - 1], ctx), s)
    ensures AllAtLeast(HitsFrom(t, n, s[..|s| - 1], ctx), s)
  {
    var p := s[..|s| - 1];
    OneMoreHits(t, n, p, ctx);
    forall h | h in ItemHits(t.items[n], p, ctx) ensures IdentCompare(h.chunks, s) >= 0 {
      var x := ItemKey(t.items[n], p, ctx, h);
      assert p + [x.tag.key] == s;
      ProperPrefix(s, h.chunks);
    }
  }

  lemma AllUnder(t: Tree, s: Ident, ctx: Ctx)
    ensures AllAtLeast(HitsFrom(t, 0, s, ctx), s)
  {
    forall h | h in HitsFrom(t, 0, s, ctx) ensures IdentCompare(h.chunks, s) >= 0 {
      var x := HitKey(t, 0, s, ctx, h);
      ProperPrefix(s, h.chunks);
    }
  }

  // ---------------------------------------------------------------- what a scan yields

  predicate PastEnd(h: Hit, end: Option<Path>) {
    end.Some? && PathCompare(h.path, end.value) >= 0
  }

  predicate Emits(h: Hit, start: Option<Path>) {
    h.value.Some? && (start.Some? ==> PathCompare(h.path, start.value) >= 0)
  }

  /** One call of scan_next on what remains: the hit it returns, and what remains then. */
  ghost function NextOf(rem: seq<Hit>, start: Option<Path>, end: Option<Path>): (Option<Hit>, seq<Hit>) {
    if rem == [] || PastEnd(rem[0], end) then (None, [])
    else if Emits(rem[0], start) then (Some(rem[0]), rem[1..])
    else NextOf(rem[1..], start, end)
  }

  ghost function Results(rem: seq<Hit>, start: Option<Path>, end: Option<Path>): seq<Hit> {
    if rem == [] || PastEnd(rem[0], end) then []
    else (if Emits(rem[0], start) then [rem[0]] else []) + Results(rem[1..], start, end)
  }

  lemma {:induction false} ResultsNext(rem: seq<Hit>, start: Option<Path>, end: Option<Path>)
    ensures var (h, rest) := NextOf(rem, start, end);
            && Results(rem, start, end) == (if h.Some? then [h.value] + Results(rest, start, end) else [])
            && (h.Some? ==> |rest| < |rem| && h.value.value.Some?) && (h.None? ==> rest == [])
  {
    if rem != [] && !PastEnd(rem[0], end) && !Emits(rem[0], start) {
      ResultsNext(rem[1..], start, end);
      assert [] + Results(rem[1..], start, end) == Results(rem[1..], start, end);
    }
  }

  lemma NextHead(h: Hit, r: seq<Hit>, start: Option<Path>, end: Option<Path>)
    ensures NextOf([h] + r, start, end) ==
              if PastEnd(h, end) then (None, []) else if Emits(h, start) then (Some(h), r) else NextOf(r, start, end)
  {
    assert ([h] + r)[1..] == r;
  }

  lemma NextNone(start: Option<Path>, end: Option<Path>, ctx: Ctx)
    ensures NextOf([], start, end) == (None, []) && Remaining([], ctx) == []
  {
  }

  lemma Popped(rest: seq<Frame>, f: Frame, ctx: Ctx)
    requires f.idx >= |f.node.items|
    ensures Remaining(rest + [f], ctx) == Remaining(rest, ctx) && StackWork(rest) < StackWork(rest + [f])
  {
    Pushed(rest, f, ctx);
  }

  class Iterator {
    var stack: seq<Frame>
    var finished: bool
    const start: Option<Path>
    const end: Option<Path>
    const ctx: Ctx

    ghost function Rest(): seq<Hit>
      reads this
    {
      if finished then [] else Remaining(stack, ctx)
    }

    /** database_scan_next. Every turn of the loop leaves fewer entries below the stack. */
    method Next() returns (rc: int, h: Hit)
      modifies this
      ensures rc == 0 || rc == -1
      ensures NextOf(old(Rest()), start, end) == (if rc == 0 then Some(h) else None, Rest())
    {
      hide Remaining, HitsFrom, StackWork, NextOf, PushSub, Chunks, HitAt, PastEnd, Emits;
      NextNone(start, end, ctx);
      h := Hit([], [], None);
      if finished || stack == [] {
        return -1, h;
      }
      ghost var rem := Rest();
      var turn := 1;
      while turn == 1 && stack != []
        invariant turn in {-1, 0, 1} && (turn == 1 ==> !finished)
        invariant NextOf(rem, start, end) ==
                    if turn == 1 then NextOf(Remaining(stack, ctx), start, end) else (if turn == 0 then Some(h) else None, Rest())
        decreases turn, StackWork(stack)
      {
        turn, h := Turn();
      }
      if turn == 1 {
        finished := true;
        return -1, h;
      }
      return turn, h;
    }

    /** One turn of the walk: pop a frame that is done, or pass one entry; 1 means go on. */
    method Turn() returns (turn: int, h: Hit)
      requires !finished && stack != []
      modifies this
      ensures turn in {-1, 0, 1} && (turn == 1 ==> !finished && StackWork(stack) < old(StackWork(stack)))
      ensures NextOf(old(Remaining(stack, ctx)), start, end) ==
                if turn == 1 then NextOf(Remaining(stack, ctx), start, end) else (if turn == 0 then Some(h) else None, Rest())
    {
      hide Remaining, HitsFrom, StackWork, NextOf, PushSub, Chunks, HitAt, PastEnd, Emits;
      h := Hit([], [], None);
      turn := 1;
      var rest, f := stack[..|stack| - 1], stack[|stack| - 1];
      assert stack == rest + [f];
      if f.idx >= |f.node.items| {
        Popped(rest, f, ctx);
        stack := rest;
      } else {
        var item := f.node.items[f.idx];
        assert f == Frame(f.node, f.idx);
        OneEntryOn(rest, f.node, f.idx, ctx);
        stack := PushSub(rest + [Frame(f.node, f.idx + 1)], item.sub);
        if item.tag.Val? {
          h := HitAt(item.tag, Chunks(stack), ctx);
          NextHead(h, Remaining(stack, ctx), start, end);
          if PastEnd(h, end) {
            finished := true;
            turn := -1;
          } else if Emits(h, start) {
            turn := 0;
          }
        } else {
          assert [] + Remaining(stack, ctx) == Remaining(stack, ctx);
        }
      }
    }

    // -------------------------------------------------------------- seek

    ghost predicate At(all: seq<Hit>, dropped: seq<Hit>, t: Tree, s: Ident, m: nat, solid: bool)
      reads this
    {
      stack != [] && stack[|stack| - 1] == Frame(t, 0) && Seeking(all, dropped, stack[..|stack| - 1], t, ctx, s, m, solid)
    }

    /** Through the internal nodes of one B+tree to the leaf for chunk c, leaving each node on the
        stack behind the separator that was followed. */
    method FollowSeparators(c: Chunk, ghost all: seq<Hit>, ghost dropped0: seq<Hit>, ghost s: Ident, ghost m: nat, ghost solid: bool)
      returns (ghost dropped: seq<Hit>, t: Tree)
      requires m < |s| && c == s[m] && stack != [] && Ordered(stack[|stack| - 1].node, None, None)
      requires At(all, dropped0, stack[|stack| - 1].node, s, m, solid)
      modifies this`stack
      ensures At(all, dropped, t, s, m, solid)
      ensures Ascending(t.items) && forall i | 0 <= i < |t.items| :: LeafEntry(t.items[i])
    {
      hide Remaining, HitsFrom, Chunks, Seeking, Ordered, Follows, HitsUpTo;
      dropped := dropped0;
      t := stack[|stack| - 1].node;
      ghost var lo: Option<Chunk>, hi: Option<Chunk> := None, None;
      while t.level > 1
        invariant At(all, dropped, t, s, m, solid) && Ordered(t, lo, hi)
        decreases t
      {
        OrderedKeys(t, lo, hi);
        Internal(t, lo, hi);
        var k := ChildIndex(t.items, c);
        InRangeIndex(t.items, c, k);
        ChildOrdered(t, lo, hi, k);
        Descended(all, dropped, stack[..|stack| - 1], t, ctx, s, m, solid, lo, hi, k);
        dropped := dropped + HitsUpTo(t, k, s[..m], ctx);
        stack := stack[..|stack| - 1] + [Frame(t, k + 1)] + [Frame(t.items[k].sub.value, 0)];
        assert stack[..|stack| - 1] == stack[..|stack| - 2] + [Frame(t, k + 1)];
        lo, hi := LoOf(t, k, lo), HiOf(t, k, hi);
        t := t.items[k].sub.value;
      }
      LeafParts(t, lo, hi);
    }

    /** seek_position_leaf: 1 when the stack is in place, 0 when it went into the next trie level. */
    method PositionLeaf(t: Tree, c: Chunk, isLast: bool, ghost all: seq<Hit>, ghost dropped0: seq<Hit>, ghost s: Ident, ghost m: nat, ghost solid: bool)
      returns (r: int, ghost dropped: seq<Hit>)
      requires m < |s| && c == s[m] && (isLast ==> m + 1 == |s|) && (!isLast && solid ==> m + 1 < |s|)
      requires At(all, dropped0, t, s, m, solid)
      requires Ascending(t.items) && forall i | 0 <= i < |t.items| :: LeafEntry(t.items[i])
      modifies this`stack
      ensures r == 0 || r == 1
      ensures r == 1 ==> Sought(all, dropped, Remaining(stack, ctx), s, solid)
      ensures r == 0 ==> !isLast && stack != [] && Ordered(stack[|stack| - 1].node, None, None) && At(all, dropped, stack[|stack| - 1].node, s, m + 1, solid)
    {
      hide Remaining, HitsFrom, Chunks, Seeking, Sought, Ordered, HitsUpTo, AllDropped, AllAtLeast, Own;
      var found, k := Find(t.items, c);
      ghost var rest := stack[..|stack| - 1];
      ghost var p := s[..m];
      AboveMatch(t.items, c, k, found);
      assert p + [c] <= s;
      SeekLeaf(t, c, k, if found then k + 1 else k, p, s, ctx);
      BelowDropped(HitsUpTo(t, k, p, ctx), s, solid);
      if found && !isLast {
        OwnDropped(t.items[k], s[..m + 1], s, ctx, solid);
        if t.items[k].sub.Some? {
          Entered(all, dropped0, rest, t, ctx, s, m, solid, k);
          dropped := dropped0 + HitsUpTo(t, k, p, ctx) + Own(t.items[k], s[..m + 1], ctx);
          stack := stack[..|stack| - 1] + [Frame(t, k + 1)] + [Frame(t.items[k].sub.value, 0)];
          assert stack[..|stack| - 1] == rest + [Frame(t, k + 1)];
          return 0, dropped;
        }
        OwnOnly(t, k, p, ctx);
        assert p + [c] == s[..m + 1];
        DroppedBoth(HitsUpTo(t, k, p, ctx), Own(t.items[k], s[..m + 1], ctx), s, solid);
        Positioned(all, dropped0, rest, t, ctx, s, m, solid, k + 1);
        dropped := dropped0 + HitsUpTo(t, k + 1, p, ctx);
        stack := stack[..|stack| - 1] + [Frame(t, k + 1)];
        return 1, dropped;
      }
      if found { MatchAtLeast(t, k, s, ctx); }
      Positioned(all, dropped0, rest, t, ctx, s, m, solid, k);
      dropped := dropped0 + HitsUpTo(t, k, p, ctx);
      stack := stack[..|stack| - 1] + [Frame(t, k)];
      return 1, dropped;
    }

    /** One identifier of the start, chunk by chunk; done when the position is found. */
    method SeekIdent(p: Path, i: nat, ghost all: seq<Hit>, ghost dropped0: seq<Hit>, ghost s: Ident, ghost solid: bool)
      returns (done: bool, ghost dropped: seq<Hit>)
      requires i < |p| && p[i] != [] && s == Flat(p) && solid == Solid(p) && |Flat(p[..i])| <= |s|
      requires stack != [] && Ordered(stack[|stack| - 1].node, None, None)
      requires At(all, dropped0, stack[|stack| - 1].node, s, |Flat(p[..i])|, solid)
      modifies this`stack
      ensures done ==> Sought(all, dropped, Remaining(stack, ctx), s, solid)
      ensures !done ==> stack != [] && Ordered(stack[|stack| - 1].node, None, None) && |Flat(p[..i + 1])| <= |s|
                        && At(all, dropped, stack[|stack| - 1].node, s, |Flat(p[..i + 1])|, solid)
    {
      hide Remaining, HitsFrom, Chunks, Seeking, Sought, Ordered, AllAtLeast, Flat, Solid;
      dropped := dropped0;
      FlatPush(p, i);
      ghost var m := |Flat(p[..i])|;
      var j := 0;
      while j < |p[i]|
        invariant 0 <= j <= |p[i]| && m == |Flat(p[..i])| + j <= |s| && stack != [] && Ordered(stack[|stack| - 1].node, None, None)
        invariant At(all, dropped, stack[|stack| - 1].node, s, m, solid)
      {
        FlatIndex(p, i, j);
        var isLast := j == |p[i]| - 1 && i == |p| - 1;
        var t: Tree, r: int;
        dropped, t := FollowSeparators(p[i][j], all, dropped, s, m, solid);
        r, dropped := PositionLeaf(t, p[i][j], isLast, all, dropped, s, m, solid);
        if r == 1 {
          return true, dropped;
        }
        j := j + 1;
        m := m + 1;
      }
      return false, dropped;
    }

    /** seek_to_start_path. A start with an identifier without chunks gives up and walks from the
        first entry. */
    method Seek(root: Tree) returns (ghost dropped: seq<Hit>)
      requires start.Some? && stack == [Frame(root, 0)] && Ordered(root, None, None) && !finished
      modifies this`stack
      ensures Sought(HitsFrom(root, 0, [], ctx), dropped, Remaining(stack, ctx), Flat(start.value), Solid(start.value))
    {
      hide Remaining, HitsFrom, Chunks, Seeking, Sought, Ordered, AllAtLeast;
      var p := start.value;
      ghost var s, solid, all := Flat(p), Solid(p), HitsFrom(root, 0, [], ctx);
      SeekStart(root, ctx, s, solid);
      assert p[..0] == [] && |Flat(p[..0])| == 0;
      hide Flat;
      dropped := [];
      var i := 0;
      while i < |p|
        invariant 0 <= i <= |p| && |Flat(p[..i])| <= |s| && stack != [] && Ordered(stack[|stack| - 1].node, None, None)
        invariant At(all, dropped, stack[|stack| - 1].node, s, |Flat(p[..i])|, solid)
      {
        if p[i] == [] {
          stack := [Frame(root, 0)];
          GiveUp(root, ctx, s, p);
          return [];
        }
        var done;
        done, dropped := SeekIdent(p, i, all, dropped, s, solid);
        if done {
          return dropped;
        }
        i := i + 1;
      }
      assert p[..i] == p;
      SeekEnd(all, dropped, stack[..|stack| - 1], stack[|stack| - 1].node, ctx, s, solid);
      assert stack == stack[..|stack| - 1] + [stack[|stack| - 1]];
    }

    /** database_scan_start: without a lower bound the walk begins at the first entry. */
    constructor (root: Option<Tree>, start: Option<Path>, end: Option<Path>, ctx: Ctx)
      requires root.Some? ==> Ordered(root.value, None, None)
      ensures this.start == start && this.end == end && this.ctx == ctx && !finished
      ensures root.None? ==> Rest() == []
      ensures root.Some? && start.None? ==> Rest() == HitsFrom(root.value, 0, [], ctx)
      ensures root.Some? && start.Some? ==>
                exists dropped :: Sought(HitsFrom(root.value, 0, [], ctx), dropped, Rest(), Flat(start.value), Solid(start.value))
    {
      this.start := start;
      this.end := end;
      this.ctx := ctx;
      finished := false;
      stack := if root.Some? then [Frame(root.value, 0)] else [];
      new;
      if root.Some? {
        if start.Some? {
          ghost var dropped := Seek(root.value);
          assert Rest() == Remaining(stack, ctx);
          hide HitsFrom, Remaining, Sought;
          assert Sought(HitsFrom(root.value, 0, [], ctx), dropped, Rest(), Flat(start.value), Solid(start.value));
        } else {
          SeekStart(root.value, ctx, [], true);
          hide HitsFrom;
        }
      }
    }
  }

  lemma SeekStart(root: Tree, ctx: Ctx, s: Ident, solid: bool)
    ensures Seeking(HitsFrom(root, 0, [], ctx), [], [], root, ctx, s, 0, solid)
    ensures Remaining([Frame(root, 0)], ctx) == HitsFrom(root, 0, [], ctx)
  {
    Pushed([], Frame(root, 0), ctx);
    assert [] + [Frame(root, 0)] == [Frame(root, 0)];
  }

  lemma GiveUp(root: Tree, ctx: Ctx, s: Ident, p: Path)
    requires !Solid(p)
    ensures Sought(HitsFrom(root, 0, [], ctx), [], Remaining([Frame(root, 0)], ctx), s, Solid(p))
  {
    SeekStart(root, ctx, s, false);
  }

  lemma SeekEnd(all: seq<Hit>, dropped: seq<Hit>, rest: seq<Frame>, t: Tree, ctx: Ctx, s: Ident, solid: bool)
    requires Seeking(all, dropped, rest, t, ctx, s, |s|, solid)
    ensures Sought(all, dropped, Remaining(rest + [Frame(t, 0)], ctx), s, solid)
  {
    assert s[..|s|] == s;
    Pushed(rest, Frame(t, 0), ctx);
    AllUnder(t, s, ctx);
    hide HitsFrom, Remaining;
    AtLeastBoth(HitsFrom(t, 0, s, ctx), Remaining(rest, ctx), s);
  }

  ghost predicate LeafEntry(item: Item) {
    !item.tag.Sep? && (item.sub.Some? ==> Ordered(item.sub.value, None, None))
  }

  lemma LeafParts(t: Tree, lo: Option<Chunk>, hi: Option<Chunk>)
    requires Ordered(t, lo, hi) && t.level <= 1
    ensures Ascending(t.items) && forall i | 0 <= i < |t.items| :: LeafEntry(t.items[i])
  {
  }

  lemma Internal(t: Tree, lo: Option<Chunk>, hi: Option<Chunk>)
    requires Ordered(t, lo, hi) && t.level > 1
    ensures t.items != []
  {
  }

  lemma InRangeIndex(items: seq<Item>, c: Chunk, k: nat)
    requires Follows(items, c, k)
    ensures k < |items|
  {
  }

  lemma AboveMatch(items: seq<Item>, c: Chunk, k: nat, found: bool)
    requires Ascending(items) && LowerBound(items, c, k) && (found ==> k < |items| && items[k].tag.key == c)
    requires !found ==> forall i | 0 <= i < |items| :: items[i].tag.key != c
    ensures forall i | (if found then k + 1 else k) <= i < |items| :: Less(c, items[i].tag.key)
  {
    ChunkOrder();
  }

  lemma OwnOnly(t: Tree, k: nat, p: seq<Chunk>, ctx: Ctx)
    requires k < |t.items| && !t.items[k].tag.Sep? && t.items[k].sub.None?
    ensures HitsUpTo(t, k + 1, p, ctx) == HitsUpTo(t, k, p, ctx) + Own(t.items[k], p + [t.items[k].tag.key], ctx)
  {
    ItemIs(t.items[k], p, ctx);
  }

  // ---------------------------------------------------------------- a whole scan

  /** Start, then scan_next until it reports the end. */
  method ScanAll(root: Option<Tree>, start: Option<Path>, end: Option<Path>, ctx: Ctx) returns (found: seq<Hit>, ghost left: seq<Hit>)
    requires root.Some? ==> Ordered(root.value, None, None)
    ensures found == Results(left, start, end)
    ensures root.None? ==> left == []
    ensures root.Some? && start.None? ==> left == HitsFrom(root.value, 0, [], ctx)
    ensures root.Some? && start.Some? ==>
              exists dropped :: Sought(HitsFrom(root.value, 0, [], ctx), dropped, left, Flat(start.value), Solid(start.value))
  {
    hide HitsFrom, Sought, Results;
    var it := new Iterator(root, start, end, ctx);
    left := it.Rest();
    found := [];
    var rc := 0;
    ghost var rem := left;
    assert [] + Results(left, start, end) == Results(left, start, end);
    while rc == 0
      invariant it.start == start && it.end == end && rc in {0, -1}
      invariant rc == 0 ==> rem == it.Rest() && Results(left, start, end) == found + Results(rem, start, end)
      invariant rc == -1 ==> Results(left, start, end) == found
      decreases rc + 1, |rem|
    {
      ResultsNext(rem, start, end);
      var h: Hit;
      rc, h := it.Next();
      if rc == 0 {
        assert found + ([h] + Results(it.Rest(), start, end)) == (found + [h]) + Results(it.Rest(), start, end);
        found := found + [h];
        rem := it.Rest();
      } else {
        assert found + [] == found;
      }
    }
  }

  // ---------------------------------------------------------------- the result against the plain filter

  /** Visible and within the bounds, by path_compare. */
  predicate Wanted(h: Hit, start: Option<Path>, end: Option<Path>) {
    Emits(h, start) && !PastEnd(h, end)
  }

  ghost function Filtered(hits: seq<Hit>, start: Option<Path>, end: Option<Path>): seq<Hit> {
    if hits == [] then []
    else (if Wanted(hits[0], start, end) then [hits[0]] else []) + Filtered(hits[1..], start, end)
  }

  ghost predicate NoneWanted(hits: seq<Hit>, start: Option<Path>, end: Option<Path>) {
    forall h | h in hits :: !Wanted(h, start, end)
  }

  /** No hit past the end is followed by one that is wanted. */
  ghost predicate EndIsLast(hits: seq<Hit>, start: Option<Path>, end: Option<Path>) {
    forall i, j | 0 <= i < j < |hits| :: PastEnd(hits[i], end) ==> !Wanted(hits[j], start, end)
  }

  lemma {:induction false} FilteredAppend(a: seq<Hit>, b: seq<Hit>, start: Option<Path>, end: Option<Path>)
    ensures Filtered(a + b, start, end) == Filtered(a, start, end) + Filtered(b, start, end)
  {
    if a == [] {
      assert a + b == b;
    } else {
      assert (a + b)[1..] == a[1..] + b;
      FilteredAppend(a[1..], b, start, end);
    }
  }

  lemma {:induction false} FilteredNone(hits: seq<Hit>, start: Option<Path>, end: Option<Path>)
    ensures Filtered(hits, start, end) == [] <==> NoneWanted(hits, start, end)
  {
    if hits != [] {
      FilteredNone(hits[1..], start, end);
      assert forall h :: h in hits <==> h == hits[0] || h in hits[1..];
    }
  }

  /** Stopping at the first hit past the end loses nothing exactly when nothing wanted follows. */
  lemma {:induction false} StopIff(hits: seq<Hit>, start: Option<Path>, end: Option<Path>)
    ensures |Results(hits, start, end)| <= |Filtered(hits, start, end)|
    ensures |Results(hits, start, end)| == |Filtered(hits, start, end)| ==> Results(hits, start, end) == Filtered(hits, start, end)
    ensures Results(hits, start, end) == Filtered(hits, start, end) <==> EndIsLast(hits, start, end)
  {
    if hits != [] {
      StopIff(hits[1..], start, end);
      FilteredNone(hits[1..], start, end);
      assert EndIsLast(hits, start, end) <==> EndIsLast(hits[1..], start, end) && (PastEnd(hits[0], end) ==> NoneWanted(hits[1..], start, end)) by {
        EndTail(hits, start, end);
      }
    }
  }

  lemma EndTail(hits: seq<Hit>, start: Option<Path>, end: Option<Path>)
    requires hits != []
    ensures EndIsLast(hits, start, end) <==> EndIsLast(hits[1..], start, end) && (PastEnd(hits[0], end) ==> NoneWanted(hits[1..], start, end))
  {
    var rest := hits[1..];
    if EndIsLast(hits, start, end) {
      forall i, j | 0 <= i < j < |rest| ensures PastEnd(rest[i], end) ==> !Wanted(rest[j], start, end) {
        assert rest[i] == hits[i + 1] && rest[j] == hits[j + 1];
      }
    }
  }

  /** A scan returns exactly the visible keys in range, each once and in walk order, if and only
      if no such key comes before the start or after a key past the end in trie order. */
  lemma ScanExactIff(all: seq<Hit>, dropped: seq<Hit>, left: seq<Hit>, start: Option<Path>, end: Option<Path>)
    requires all == dropped + left
    ensures Results(left, start, end) == Filtered(all, start, end) <==> NoneWanted(dropped, start, end) && EndIsLast(left, start, end)
  {
    FilteredAppend(dropped, left, start, end);
    FilteredNone(dropped, start, end);
    StopIff(left, start, end);
    if Filtered(dropped, start, end) == [] {
      assert [] + Filtered(left, start, end) == Filtered(left, start, end);
    }
  }

  // ---------------------------------------------------------------- trie order of all hits

  /** Strictly ascending in trie order. */
  ghost predicate Sorted(hits: seq<Hit>) {
    forall i, j | 0 <= i < j < |hits| :: IdentCompare(hits[i].chunks, hits[j].chunks) < 0
  }

  lemma SortedJoin(a: seq<Hit>, b: seq<Hit>)
    requires Sorted(a) && Sorted(b) && forall x, y | x in a && y in b :: IdentCompare(x.chunks, y.chunks) < 0
    ensures Sorted(a + b)
  {
    var ab := a + b;
    forall i, j | 0 <= i < j < |ab| ensures IdentCompare(ab[i].chunks, ab[j].chunks) < 0 {
      if j < |a| { assert ab[i] == a[i] && ab[j] == a[j]; }
      else if i >= |a| { assert ab[i] == b[i - |a|] && ab[j] == b[j - |a|]; }
      else { assert ab[i] in a && ab[j] in b; }
    }
  }

  lemma {:induction false} HitsSorted(t: Tree, i: nat, lo: Option<Chunk>, hi: Option<Chunk>, prefix: seq<Chunk>, ctx: Ctx)
    requires Ordered(t, lo, hi)
    ensures Sorted(HitsFrom(t, i, prefix, ctx))
    decreases t, |t.items| - i
  {
    hide Ordered;
    if i < |t.items| {
      ItemSorted(t, i, lo, hi, prefix, ctx);
      HitsSorted(t, i + 1, lo, hi, prefix, ctx);
      forall x, y | x in ItemHits(t.items[i], prefix, ctx) && y in HitsFrom(t, i + 1, prefix, ctx)
        ensures IdentCompare(x.chunks, y.chunks) < 0
      {
        ItemsApart(t, i, lo, hi, prefix, ctx, x, y);
      }
      SortedJoin(ItemHits(t.items[i], prefix, ctx), HitsFrom(t, i + 1, prefix, ctx));
    }
  }

  lemma ItemsApart(t: Tree, i: nat, lo: Option<Chunk>, hi: Option<Chunk>, prefix: seq<Chunk>, ctx: Ctx, x: Hit, y: Hit)
    requires Ordered(t, lo, hi) && i < |t.items| && x in ItemHits(t.items[i], prefix, ctx) && y in HitsFrom(t, i + 1, prefix, ctx)
    ensures IdentCompare(x.chunks, y.chunks) < 0
  {
    hide Ordered, HitsFrom, ItemHits, LeavesFrom, LeavesAt;
    var a := ItemKey(t.items[i], prefix, ctx, x);
    var b := HitKey(t, i + 1, prefix, ctx, y);
    LeafRange(t, i, lo, hi);
    LeavesOrdered(t, i + 1, lo, hi);
    ChunkOrder();
    KeyBelow(prefix, a.tag.key, b.tag.key, x.chunks, y.chunks);
  }

  lemma {:induction false} ItemSorted(t: Tree, i: nat, lo: Option<Chunk>, hi: Option<Chunk>, prefix: seq<Chunk>, ctx: Ctx)
    requires Ordered(t, lo, hi) && i < |t.items|
    ensures Sorted(ItemHits(t.items[i], prefix, ctx))
    decreases t, 0
  {
    var item := t.items[i];
    ItemIs(item, prefix, ctx);
    var p := prefix + ItemChunk(item);
    if item.sub.Some? {
      SubOrdered(t, i, lo, hi);
      if t.level > 1 { HitsSorted(item.sub.value, 0, LoOf(t, i, lo), HiOf(t, i, hi), p, ctx); }
      else { HitsSorted(item.sub.value, 0, None, None, p, ctx); }
    }
    hide Ordered, HitsFrom;
    forall x, y | x in Own(item, p, ctx) && y in SubHits(item.sub, p, ctx) ensures IdentCompare(x.chunks, y.chunks) < 0 {
      var k := HitKey(item.sub.value, 0, p, ctx, y);
      ProperPrefix(p, y.chunks);
    }
    SortedJoin(Own(item, p, ctx), SubHits(item.sub, p, ctx));
  }

  lemma SubOrdered(t: Tree, i: nat, lo: Option<Chunk>, hi: Option<Chunk>)
    requires Ordered(t, lo, hi) && i < |t.items| && t.items[i].sub.Some?
    ensures if t.level > 1 then Ordered(t.items[i].sub.value, LoOf(t, i, lo), HiOf(t, i, hi)) else Ordered(t.items[i].sub.value, None, None)
  {
  }

  // ---------------------------------------------------------------- the condition in terms of keys

  /** With every identifier of the start non-empty: the scan is the plain filter if and only if no
      wanted key is below the start in trie order, and no wanted key comes, in trie order, after a
      key that is past the end and not below the start. */
  lemma ScanIff(all: seq<Hit>, dropped: seq<Hit>, left: seq<Hit>, start: Path, end: Option<Path>)
    requires Sought(all, dropped, left, Flat(start), true)
    ensures Results(left, Some(start), end) == Filtered(all, Some(start), end) <==>
              && (forall h | h in all && Wanted(h, Some(start), end) :: IdentCompare(h.chunks, Flat(start)) >= 0)
              && (forall i, j | 0 <= i < j < |all| && IdentCompare(all[i].chunks, Flat(start)) >= 0 && PastEnd(all[i], end) ::
                    !Wanted(all[j], Some(start), end))
  {
    hide Results, Filtered, IdentCompare;
    ScanExactIff(all, dropped, left, Some(start), end);
    DroppedIff(all, dropped, left, start, end);
    EndIff(all, dropped, left, start, end);
  }

  lemma DroppedIff(all: seq<Hit>, dropped: seq<Hit>, left: seq<Hit>, start: Path, end: Option<Path>)
    requires Sought(all, dropped, left, Flat(start), true)
    ensures NoneWanted(dropped, Some(start), end) <==>
              forall h | h in all && Wanted(h, Some(start), end) :: IdentCompare(h.chunks, Flat(start)) >= 0
  {
    hide IdentCompare, Wanted;
  }

  lemma EndIff(all: seq<Hit>, dropped: seq<Hit>, left: seq<Hit>, start: Path, end: Option<Path>)
    requires Sought(all, dropped, left, Flat(start), true)
    ensures EndIsLast(left, Some(start), end) <==>
              forall i, j | 0 <= i < j < |all| && IdentCompare(all[i].chunks, Flat(start)) >= 0 && PastEnd(all[i], end) ::
                !Wanted(all[j], Some(start), end)
  {
    hide IdentCompare, Wanted, PastEnd;
    var s, n := Flat(start), |dropped|;
    if EndIsLast(left, Some(start), end) {
      forall i, j | 0 <= i < j < |all| && IdentCompare(all[i].chunks, s) >= 0 && PastEnd(all[i], end)
        ensures !Wanted(all[j], Some(start), end)
      {
        assert all[i] in dropped || i >= n;
        assert all[i] == left[i - n] && all[j] == left[j - n];
      }
    } else {
      var i, j :| 0 <= i < j < |left| && PastEnd(left[i], end) && Wanted(left[j], Some(start), end);
      assert all[n + i] == left[i] && all[n + j] == left[j];
      assert left[i] in left;
    }
  }

  /** A stored key whose metadata fits its chunks, and that does not clash with a bound. */
  ghost predicate Clear(h: Hit, bound: Option<Path>) {
    Flat(h.path) == h.chunks && Solid(h.path) && (bound.Some? ==> Solid(bound.value) && !Clash(h.path, bound.value))
  }

  /** When no stored key clashes with a bound, the scan returns exactly the visible keys in range. */
  lemma ScanExact(all: seq<Hit>, dropped: seq<Hit>, left: seq<Hit>, start: Option<Path>, end: Option<Path>)
    requires Sorted(all) && (forall h | h in all :: Clear(h, start) && Clear(h, end))
    requires if start.Some? then Solid(start.value) && Sought(all, dropped, left, Flat(start.value), true) else dropped == [] && left == all
    ensures Results(left, start, end) == Filtered(all, start, end)
  {
    hide Results, Filtered, IdentCompare, Wanted, PastEnd, Clear, Solid, Sorted;
    if start.Some? { DroppedUnwanted(all, dropped, left, start.value, end); }
    assert all == dropped + left;
    EndIsLastOf(all, dropped, left, start, end);
    ScanExactIff(all, dropped, left, start, end);
  }

  lemma DroppedUnwanted(all: seq<Hit>, dropped: seq<Hit>, left: seq<Hit>, start: Path, end: Option<Path>)
    requires (forall h | h in all :: Clear(h, Some(start))) && Sought(all, dropped, left, Flat(start), true)
    ensures NoneWanted(dropped, Some(start), end)
  {
    hide IdentCompare, Wanted, Clear;
    forall h | h in dropped ensures !Wanted(h, Some(start), end) {
      assert h in all;
      BelowUnwanted(h, start, end);
    }
  }

  lemma EndIsLastOf(all: seq<Hit>, dropped: seq<Hit>, left: seq<Hit>, start: Option<Path>, end: Option<Path>)
    requires Sorted(all) && (forall h | h in all :: Clear(h, end)) && all == dropped + left
    ensures EndIsLast(left, start, end)
  {
    hide IdentCompare, Wanted, PastEnd, Clear;
    forall i, j | 0 <= i < j < |left| && PastEnd(left[i], end) ensures !Wanted(left[j], start, end) {
      assert left[i] == all[|dropped| + i] && left[j] == all[|dropped| + j];
      assert left[i] in all && left[j] in all;
      EndStays(left[i], left[j], start, end);
    }
  }

  lemma BelowUnwanted(h: Hit, start: Path, end: Option<Path>)
    requires Clear(h, Some(start)) && IdentCompare(h.chunks, Flat(start)) < 0
    ensures !Wanted(h, Some(start), end)
  {
    OrdersAgree(h.path, start);
  }

  lemma EndStays(x: Hit, y: Hit, start: Option<Path>, end: Option<Path>)
    requires Clear(x, end) && Clear(y, end) && PastEnd(x, end) && IdentCompare(x.chunks, y.chunks) < 0
    ensures !Wanted(y, start, end)
  {
    OrdersAgree(x.path, end.value);
    OrdersAgree(y.path, end.value);
    LaterIsAbove(x.chunks, y.chunks, Flat(end.value));
  }

  lemma LaterIsAbove(a: Ident, b: Ident, s: Ident)
    requires IdentCompare(a, b) < 0 && IdentCompare(a, s) >= 0
    ensures IdentCompare(b, s) >= 0
  {
    Orders();
  }

  /** The plain filter keeps the order and repeats nothing; without clashes among the stored keys
      it ascends in path order too. */
  lemma {:induction false} FilteredSorted(hits: seq<Hit>, start: Option<Path>, end: Option<Path>)
    requires Sorted(hits)
    ensures Sorted(Filtered(hits, start, end))
    ensures forall h | h in Filtered(hits, start, end) :: h in hits && Wanted(h, start, end)
    ensures forall h | h in hits && Wanted(h, start, end) :: h in Filtered(hits, start, end)
  {
    if hits != [] {
      FilteredSorted(hits[1..], start, end);
      var here := if Wanted(hits[0], start, end) then [hits[0]] else [];
      assert forall h :: h in hits <==> h == hits[0] || h in hits[1..];
      forall y | y in hits[1..] ensures IdentCompare(hits[0].chunks, y.chunks) < 0 {
        var j :| 0 <= j < |hits[1..]| && hits[1..][j] == y;
        assert hits[j + 1] == y;
      }
      SortedJoin(here, Filtered(hits[1..], start, end));
    }
  }

  lemma PathAscending(hits: seq<Hit>, i: nat, j: nat)
    requires Sorted(hits) && i < j < |hits| && Clear(hits[i], None) && Clear(hits[j], None) && !Clash(hits[i].path, hits[j].path)
    ensures PathCompare(hits[i].path, hits[j].path) < 0
  {
    OrdersAgree(hits[i].path, hits[j].path);
  }

  /** No key a scan should return comes, in trie order, before the start or after a key past the end that
      the scan meets. */
  ghost predicate Undisturbed(all: seq<Hit>, start: Option<Path>, end: Option<Path>) {
    && (start.Some? ==> forall h | h in all && Wanted(h, start, end) :: IdentCompare(h.chunks, Flat(start.value)) >= 0)
    && (forall i, j | 0 <= i < j < |all| && (start.Some? ==> IdentCompare(all[i].chunks, Flat(start.value)) >= 0) && PastEnd(all[i], end) ::
          !Wanted(all[j], start, end))
  }

  /** The hits that are not below s in trie order. */
  ghost function NotBelow(hits: seq<Hit>, s: Ident): seq<Hit> {
    if hits == [] then [] else (if IdentBefore(hits[0].chunks, s) then [] else [hits[0]]) + NotBelow(hits[1..], s)
  }

  lemma {:induction false} NotBelowIs(dropped: seq<Hit>, left: seq<Hit>, s: Ident)
    requires (forall i | 0 <= i < |dropped| :: IdentCompare(dropped[i].chunks, s) < 0) && forall i | 0 <= i < |left| :: IdentCompare(left[i].chunks, s) >= 0
    ensures NotBelow(dropped + left, s) == left
    decreases |dropped| + |left|
  {
    hide IdentCompare, IdentBefore;
    var all := dropped + left;
    if all != [] { IdentOrderIs(all[0].chunks, s); }
    if dropped != [] {
      assert all[1..] == dropped[1..] + left && all[0] == dropped[0];
      NotBelowIs(dropped[1..], left, s);
    } else if left != [] {
      assert all == left && left[1..] == [] + left[1..];
      NotBelowIs([], left[1..], s);
    }
  }

  /** What a scan meets: everything, or what the seek leaves. */
  ghost function Met(all: seq<Hit>, start: Option<Path>): seq<Hit> {
    if start.Some? then NotBelow(all, Flat(start.value)) else all
  }

  lemma SoughtIs(all: seq<Hit>, dropped: seq<Hit>, left: seq<Hit>, s: Ident)
    requires Sought(all, dropped, left, s, true)
    ensures left == NotBelow(all, s)
  {
    hide IdentCompare, NotBelow;
    forall i | 0 <= i < |dropped| ensures IdentCompare(dropped[i].chunks, s) < 0 { assert dropped[i] in dropped; }
    forall i | 0 <= i < |left| ensures IdentCompare(left[i].chunks, s) >= 0 { assert left[i] in left; }
    NotBelowIs(dropped, left, s);
  }

  /** The start is included, the end is not. */
  lemma BoundsAre(h: Hit, start: Option<Path>, end: Option<Path>)
    ensures Wanted(h, start, end) <==>
              h.value.Some? && (start.Some? ==> !PathBefore(h.path, start.value)) && (end.Some? ==> PathBefore(h.path, end.value))
    ensures h.value.Some? && start == Some(h.path) && (end.Some? ==> PathBefore(h.path, end.value)) ==> Wanted(h, start, end)
    ensures end == Some(h.path) ==> !Wanted(h, start, end)
  {
    if start.Some? { PathOrderIs(h.path, start.value); }
    if end.Some? { PathOrderIs(h.path, end.value); }
    hide PathBefore;
    Orders();
  }

  lemma {:induction false} ResultsWanted(hits: seq<Hit>, start: Option<Path>, end: Option<Path>)
    ensures forall h | h in Results(hits, start, end) :: h in hits && Wanted(h, start, end)
  {
    if hits != [] && !PastEnd(hits[0], end) {
      ResultsWanted(hits[1..], start, end);
      assert hits == [hits[0]] + hits[1..];
    }
  }

  lemma UndisturbedIff(all: seq<Hit>, dropped: seq<Hit>, left: seq<Hit>, start: Option<Path>, end: Option<Path>)
    requires if start.Some? then Sought(all, dropped, left, Flat(start.value), true) else dropped == [] && left == all
    ensures Results(left, start, end) == Filtered(all, start, end) <==> Undisturbed(all, start, end)
  {
    hide Results, Filtered, IdentCompare, Wanted, PastEnd, Sought;
    if start.Some? {
      ScanIff(all, dropped, left, start.value, end);
    } else {
      assert all == [] + left;
      ScanExactIff(all, [], left, start, end);
    }
  }

  /** The scan of any trie, from any start without empty identifiers or from none: it returns just what
      walking everything and filtering would exactly when nothing disturbs it, and nothing does when
      the stored keys clash with neither bound. */
  method RangeScan(root: Tree, start: Option<Path>, end: Option<Path>, ctx: Ctx) returns (found: seq<Hit>)
    requires Ordered(root, None, None) && (start.Some? ==> Solid(start.value))
    ensures found == Results(Met(HitsFrom(root, 0, [], ctx), start), start, end)
    ensures forall h | h in found ::
              h.value.Some? && (start.Some? ==> !PathBefore(h.path, start.value)) && (end.Some? ==> PathBefore(h.path, end.value))
    ensures found == Filtered(HitsFrom(root, 0, [], ctx), start, end) <==> Undisturbed(HitsFrom(root, 0, [], ctx), start, end)
    ensures Undisturbed(HitsFrom(root, 0, [], ctx), start, end) ==>
              Sorted(found) && forall h :: h in found <==> h in HitsFrom(root, 0, [], ctx) && Wanted(h, start, end)
    ensures (forall h | h in HitsFrom(root, 0, [], ctx) :: Clear(h, start) && Clear(h, end)) ==> Undisturbed(HitsFrom(root, 0, [], ctx), start, end)
  {
    hide HitsFrom, Results, Filtered, Sought, Clear, Sorted, Wanted, Undisturbed, NotBelow, PathBefore;
    ghost var left: seq<Hit>;
    found, left := ScanAll(Some(root), start, end, ctx);
    ghost var all := HitsFrom(root, 0, [], ctx);
    HitsSorted(root, 0, None, None, [], ctx);
    FilteredSorted(all, start, end);
    ghost var dropped: seq<Hit> := [];
    if start.Some? { dropped :| Sought(all, dropped, left, Flat(start.value), Solid(start.value)); }
    if start.Some? { SoughtIs(all, dropped, left, Flat(start.value)); }
    ResultsWanted(left, start, end);
    forall h | h in found ensures Wanted(h, start, end) { }
    forall h ensures Wanted(h, start, end) <==>
        h.value.Some? && (start.Some? ==> !PathBefore(h.path, start.value)) && (end.Some? ==> PathBefore(h.path, end.value))
    {
      BoundsAre(h, start, end);
    }
    UndisturbedIff(all, dropped, left, start, end);
    if forall h | h in all :: Clear(h, start) && Clear(h, end) { ScanExact(all, dropped, left, start, end); }
  }

  // ---------------------------------------------------------------- a key lost by the seek

  /** A trie with chunk size 1 that holds one key, "ab". */
  function LostLeaf(): Tree { Node(1, [Item(Val([2], Plain(Some([7])), [Meta(2, 2)]), None)]) }
  function LostRoot(): Tree { Node(1, [Item(Step([1]), Some(LostLeaf()))]) }

  lemma LostPath(ctx: Ctx)
    requires ctx.cs == 1
    ensures PathOf([[1], [2]], [Meta(2, 2)], ctx.cs) == OnePart()
  {
    var key: seq<Bytes>, b: Bytes := [[1, 2]], [1, 2];
    assert b[..1] == [1] && b[1..] == [2] && [2] + Zeros(0) == [2];
    assert Chunked(b[1..], 1) == [[2]];
    assert Chunked(b, 1) == [[1]] + [[2]] == [[1], [2]];
    assert key[1..] == [];
    assert CutPath(key, 1) == [Chunked(b, 1)] + [] == OnePart();
    assert MetaOf(key, 1) == [Meta(2, 2)] + [] == [Meta(2, 2)];
    ClashingPair();
    SplitExact(key, 1);
  }

  lemma LostHits(ctx: Ctx)
    requires ctx.cs == 1
    ensures Ordered(LostRoot(), None, None)
    ensures HitsFrom(LostRoot(), 0, [], ctx) == [Hit([[1], [2]], OnePart(), Some([7]))]
  {
    var leaf, root := LostLeaf(), LostRoot();
    assert [] + [[1]] == [[1]] && [[1]] + [[2]] == [[1], [2]];
    LostPath(ctx);
    var h := Hit([[1], [2]], OnePart(), Some([7]));
    assert HitsFrom(leaf, 1, [[1]], ctx) == [] && HitsFrom(root, 1, [], ctx) == [];
    assert ItemHits(leaf.items[0], [[1]], ctx) == [h] + [] == [h];
    assert HitsFrom(leaf, 0, [[1]], ctx) == [h] + [] == [h];
    assert HitsFrom(root, 0, [], ctx) == [h] + [] == [h];
  }

  /** A scan can lose a wanted key: "ab" is at or after the start "a", "c" in path order, but the
      seek skips it, since "a", "b" comes before "a", "c" chunk by chunk. */
  method LostKeyExample(ctx: Ctx) returns (start: Path, found: seq<Hit>)
    requires ctx.cs == 1
    ensures Ordered(LostRoot(), None, None) && Solid(start) && found == []
    ensures Filtered(HitsFrom(LostRoot(), 0, [], ctx), Some(start), None) == [Hit([[1], [2]], OnePart(), Some([7]))]
  {
    start := TwoParts();
    ClashingPair();
    LostHits(ctx);
    hide HitsFrom, Ordered;
    ghost var left: seq<Hit>;
    found, left := ScanAll(Some(LostRoot()), Some(start), None, ctx);
    ghost var h := Hit([[1], [2]], OnePart(), Some([7]));
    NothingLeft(h, left, start);
  }

  lemma NothingLeft(h: Hit, left: seq<Hit>, start: Path)
    requires h.path == OnePart() && h.chunks == Flat(OnePart()) && h.value.Some? && start == TwoParts()
    requires exists dropped :: Sought([h], dropped, left, Flat(start), Solid(start))
    ensures Results(left, Some(start), None) == [] && Filtered([h], Some(start), None) == [h]
  {
    ClashingPair();
    hide Flat, PathCompare;
    Orders();
    var dropped :| Sought([h], dropped, left, Flat(start), Solid(start));
    assert h in [h] && h !in left;
    assert left == [];
    assert [h][1..] == [] && Filtered([h][1..], Some(start), None) == [];
    assert Wanted(h, Some(start), None);
  }

  // ---------------------------------------------------------------- a scan reads one snapshot

  /** content later holds what it held, with newer versions in front; a plain value may have become the
      oldest version of a chain. */
  ghost predicate NewerContent(c: Content, later: Content, at: TxnId) {
    || later == c
    || (c.Chain? && c.versions != [] && later.Chain? && Fronted(c.versions, later.versions, at))
    || (c.Plain? && later.Chain? && exists x: TxnId :: Number(x) <= Number(at) && Fronted([Version(x, false, c.value)], later.versions, at))
  }

  ghost predicate Fronted(vs: seq<Version>, later: seq<Version>, at: TxnId) {
    exists more :: later == more + vs && forall i | 0 <= i < |more| :: Number(more[i].txn) > Number(at)
  }

  ghost predicate NewerTag(tag: Tag, later: Tag, at: TxnId) {
    if tag.Val? then later.Val? && later.key == tag.key && later.meta == tag.meta && NewerContent(tag.content, later.content, at) else later == tag
  }

  /** The trie later: the same entries, each with what it held and perhaps newer versions. */
  ghost predicate Newer(t: Tree, later: Tree, at: TxnId)
    decreases t
  {
    && later.level == t.level && |later.items| == |t.items|
    && forall i | 0 <= i < |t.items| ::
         && NewerTag(t.items[i].tag, later.items[i].tag, at)
         && later.items[i].sub.Some? == t.items[i].sub.Some?
         && (t.items[i].sub.Some? ==> Newer(t.items[i].sub.value, later.items[i].sub.value, at))
  }

  lemma FrontedShown(vs: seq<Version>, later: seq<Version>, at: TxnId)
    requires vs != [] && Fronted(vs, later, at)
    ensures Shown(Chain(later), at) == Shown(Chain(vs), at)
  {
    var more :| later == more + vs && forall i | 0 <= i < |more| :: Number(more[i].txn) > Number(at);
    forall i | 0 <= i < |more| ensures at.Less(more[i].txn) { TxnOrderIs(at, more[i].txn); }
    hide Number, TxnId.Less;
    AllAddedAbove(vs, more, at);
  }

  lemma NewerShown(c: Content, later: Content, at: TxnId)
    requires NewerContent(c, later, at)
    ensures Shown(later, at) == Shown(c, at)
  {
    if later != c {
      if c.Chain? {
        FrontedShown(c.versions, later.versions, at);
      } else {
        var x: TxnId :| Number(x) <= Number(at) && Fronted([Version(x, false, c.value)], later.versions, at);
        FrontedShown([Version(x, false, c.value)], later.versions, at);
        TxnOrderIs(x, at);
        AtIs([Version(x, false, c.value)], at, 0);
      }
    }
  }

  lemma {:induction false} SameHits(t: Tree, later: Tree, i: nat, prefix: seq<Chunk>, ctx: Ctx)
    requires Newer(t, later, ctx.at)
    ensures HitsFrom(later, i, prefix, ctx) == HitsFrom(t, i, prefix, ctx)
    decreases t, |t.items| - i
  {
    if i < |t.items| {
      SameItemHits(t.items[i], later.items[i], prefix, ctx);
      SameHits(t, later, i + 1, prefix, ctx);
    }
  }

  lemma {:induction false} SameItemHits(x: Item, y: Item, prefix: seq<Chunk>, ctx: Ctx)
    requires NewerTag(x.tag, y.tag, ctx.at) && y.sub.Some? == x.sub.Some? && (x.sub.Some? ==> Newer(x.sub.value, y.sub.value, ctx.at))
    ensures ItemHits(y, prefix, ctx) == ItemHits(x, prefix, ctx)
    decreases x
  {
    var p := if x.tag.Sep? then prefix else prefix + [x.tag.key];
    if x.sub.Some? { SameHits(x.sub.value, y.sub.value, 0, p, ctx); }
    if x.tag.Val? { NewerShown(x.tag.content, y.tag.content, ctx.at); }
  }

  lemma {:induction false} NewerOrdered(t: Tree, later: Tree, at: TxnId, lo: Option<Chunk>, hi: Option<Chunk>)
    requires Newer(t, later, at) && Ordered(t, lo, hi)
    ensures Ordered(later, lo, hi)
    decreases t
  {
    forall i | 0 <= i < |t.items| ensures later.items[i].tag.key == t.items[i].tag.key && later.items[i].tag.Sep? == t.items[i].tag.Sep? {
      assert NewerTag(t.items[i].tag, later.items[i].tag, at);
    }
    forall i | 0 <= i < |t.items| && t.items[i].sub.Some?
      ensures Ordered(later.items[i].sub.value, if t.level > 1 then LoOf(later, i, lo) else None, if t.level > 1 then HiOf(later, i, hi) else None)
    {
      if t.level > 1 {
        NewerOrdered(t.items[i].sub.value, later.items[i].sub.value, at, LoOf(t, i, lo), HiOf(t, i, hi));
      } else {
        NewerOrdered(t.items[i].sub.value, later.items[i].sub.value, at, None, None);
      }
    }
  }

  /** A range scan at one id returns the same before and after any number of newer writes to the keys
      that are there. */
  method SnapshotScan(root: Tree, later: Tree, start: Option<Path>, end: Option<Path>, ctx: Ctx) returns (before: seq<Hit>, after: seq<Hit>)
    requires Ordered(root, None, None) && (start.Some? ==> Solid(start.value)) && Newer(root, later, ctx.at)
    ensures after == before
  {
    NewerOrdered(root, later, ctx.at, None, None);
    SameHits(root, later, 0, [], ctx);
    hide *;
    before := RangeScan(root, start, end, ctx);
    after := RangeScan(later, start, end, ctx);
  }

  lemma {:induction false} FilteredTwice(hits: seq<Hit>, start: Option<Path>, end: Option<Path>)
    ensures Filtered(hits, start, end) == Filtered(Filtered(hits, None, None), start, end)
  {
    hide PathCompare;
    if hits != [] {
      FilteredTwice(hits[1..], start, end);
      var rest := Filtered(hits[1..], None, None);
      if hits[0].value.Some? { assert ([hits[0]] + rest)[1..] == rest; } else { assert [] + rest == rest; }
    }
  }

  /** Also when keys were added meanwhile: if the reader sees the same keys and values in both tries, and
      neither scan is disturbed, both return the same. A key all of whose versions are newer than the
      reader is not seen. */
  method SnapshotNewKeys(root: Tree, later: Tree, start: Option<Path>, end: Option<Path>, ctx: Ctx) returns (before: seq<Hit>, after: seq<Hit>)
    requires Ordered(root, None, None) && Ordered(later, None, None) && (start.Some? ==> Solid(start.value))
    requires Filtered(HitsFrom(root, 0, [], ctx), None, None) == Filtered(HitsFrom(later, 0, [], ctx), None, None)
    ensures Undisturbed(HitsFrom(root, 0, [], ctx), start, end) && Undisturbed(HitsFrom(later, 0, [], ctx), start, end) ==> after == before
  {
    hide *;
    FilteredTwice(HitsFrom(root, 0, [], ctx), start, end);
    FilteredTwice(HitsFrom(later, 0, [], ctx), start, end);
    before := RangeScan(root, start, end, ctx);
    after := RangeScan(later, start, end, ctx);
  }
}
