/**
 The unbounded reverse scan (seek_to_rightmost and database_scan_prev): a value whose entry also
 has a subtree is visited twice, first to descend, then to be reported (value_pending), and an
 index that is decremented past 0 wraps to SIZE_MAX, here -1.
 */
module Reverse {
  import opened Common
  import opened NodeStore
  import opened Scan

  datatype RFrame = RFrame(node: Tree, idx: int, pending: bool)

  ghost function Rev<T>(s: seq<T>): seq<T> {
    if s == [] then [] else Rev(s[1..]) + [s[0]]
  }

  lemma {:induction false} RevAppend<T>(a: seq<T>, b: seq<T>)
    ensures Rev(a + b) == Rev(b) + Rev(a)
  {
    if a == [] {
      assert a + b == b;
    } else {
      assert (a + b)[1..] == a[1..] + b;
      RevAppend(a[1..], b);
      assert Rev(b) + (Rev(a[1..]) + [a[0]]) == Rev(b) + Rev(a[1..]) + [a[0]];
    }
  }

  lemma RevOne<T>(x: T)
    ensures Rev([x]) == [x]
  {
    assert [x][1..] == [];
  }

  predicate Inside(f: RFrame) {
    0 <= f.idx < |f.node.items|
  }

  /** Only a value entry is ever pending. */
  ghost predicate FrameOk(f: RFrame) {
    f.pending ==> Inside(f) && f.node.items[f.idx].tag.Val?
  }

  /** Index of the entry a lower frame was left through; the wrapped index plus one is 0. */
  function Through(f: RFrame): int {
    if f.pending then f.idx else f.idx + 1
  }

  function RChunk(f: RFrame): seq<Chunk> {
    if 0 <= Through(f) < |f.node.items| then ItemChunk(f.node.items[Through(f)]) else []
  }

  function RChunks(stack: seq<RFrame>): seq<Chunk> {
    if stack == [] then [] else RChunks(stack[..|stack| - 1]) + RChunk(stack[|stack| - 1])
  }

  /** Hits still to come from one frame, last first. */
  ghost function FrameHits(f: RFrame, prefix: seq<Chunk>, ctx: Ctx): seq<Hit> {
    if !Inside(f) then []
    else if f.pending then Own(f.node.items[f.idx], prefix + ItemChunk(f.node.items[f.idx]), ctx) + Rev(HitsUpTo(f.node, f.idx, prefix, ctx))
    else Rev(HitsUpTo(f.node, f.idx + 1, prefix, ctx))
  }

  ghost function RRemaining(stack: seq<RFrame>, ctx: Ctx): seq<Hit> {
    if stack == [] then []
    else FrameHits(stack[|stack| - 1], RChunks(stack[..|stack| - 1]), ctx) + RRemaining(stack[..|stack| - 1], ctx)
  }

  ghost function RWork(t: Tree, n: nat): nat
    requires n <= |t.items|
    decreases t, n
  {
    if n == 0 then 1 else RItemWork(t.items[n - 1]) + RWork(t, n - 1)
  }

  ghost function RItemWork(item: Item): nat
    decreases item
  {
    2 + (if item.sub.Some? then RWork(item.sub.value, |item.sub.value.items|) else 0)
  }

  ghost function FrameWork(f: RFrame): nat {
    if !Inside(f) then 1 else if f.pending then 1 + RWork(f.node, f.idx) else RWork(f.node, f.idx + 1)
  }

  ghost function RStackWork(stack: seq<RFrame>): nat {
    if stack == [] then 0 else RStackWork(stack[..|stack| - 1]) + FrameWork(stack[|stack| - 1])
  }

  lemma RPushed(rest: seq<RFrame>, f: RFrame, ctx: Ctx)
    ensures RRemaining(rest + [f], ctx) == FrameHits(f, RChunks(rest), ctx) + RRemaining(rest, ctx)
    ensures RChunks(rest + [f]) == RChunks(rest) + RChunk(f)
    ensures RStackWork(rest + [f]) == RStackWork(rest) + FrameWork(f)
  {
    assert (rest + [f])[..|rest|] == rest;
  }

  /** What node t holds, last first. */
  ghost function NodeHits(t: Tree, prefix: seq<Chunk>, ctx: Ctx): seq<Hit> {
    Rev(HitsFrom(t, 0, prefix, ctx))
  }

  lemma WholeNode(t: Tree, prefix: seq<Chunk>, ctx: Ctx)
    ensures NodeHits(t, prefix, ctx) == FrameHits(RFrame(t, |t.items| - 1, false), prefix, ctx)
    ensures FrameWork(RFrame(t, |t.items| - 1, false)) == RWork(t, |t.items|)
  {
    HitsSplit(t, |t.items|, prefix, ctx);
    assert HitsUpTo(t, |t.items|, prefix, ctx) + [] == HitsUpTo(t, |t.items|, prefix, ctx);
  }

  /** Entry i, seen from behind: first what is below it, then its own value. */
  lemma ItemFromBehind(t: Tree, i: nat, prefix: seq<Chunk>, ctx: Ctx)
    requires i < |t.items|
    ensures var p := prefix + ItemChunk(t.items[i]);
            FrameHits(RFrame(t, i, false), prefix, ctx) ==
              Rev(SubHits(t.items[i].sub, p, ctx)) + (Own(t.items[i], p, ctx) + Rev(HitsUpTo(t, i, prefix, ctx)))
  {
    var item := t.items[i];
    var p := prefix + ItemChunk(item);
    ItemIs(item, prefix, ctx);
    var own, sub, up := Own(item, p, ctx), SubHits(item.sub, p, ctx), HitsUpTo(t, i, prefix, ctx);
    RevAppend(up, own + sub);
    RevAppend(own, sub);
    if item.tag.Val? { RevOne(HitAt(item.tag, p, ctx)); }
    assert Rev(own) == own;
    assert (Rev(sub) + own) + Rev(up) == Rev(sub) + (own + Rev(up));
  }

  lemma BehindHits(t: Tree, i: nat, prefix: seq<Chunk>, ctx: Ctx)
    requires i < |t.items|
    ensures FrameHits(RFrame(t, i as int - 1, false), prefix, ctx) == Rev(HitsUpTo(t, i, prefix, ctx))
    ensures FrameWork(RFrame(t, i as int - 1, false)) == RWork(t, i)
  {
  }

  // ---------------------------------------------------------------- the iterator

  ghost function Shows(hits: seq<Hit>): seq<Hit> {
    if hits == [] then [] else (if hits[0].value.Some? then [hits[0]] else []) + Shows(hits[1..])
  }

  ghost function PrevOf(rem: seq<Hit>): (Option<Hit>, seq<Hit>) {
    if rem == [] then (None, []) else if rem[0].value.Some? then (Some(rem[0]), rem[1..]) else PrevOf(rem[1..])
  }

  lemma PrevHead(h: Hit, r: seq<Hit>)
    ensures PrevOf([h] + r) == if h.value.Some? then (Some(h), r) else PrevOf(r)
  {
    assert ([h] + r)[1..] == r;
  }

  lemma {:induction false} ShowsNext(rem: seq<Hit>)
    ensures var (h, rest) := PrevOf(rem);
            && Shows(rem) == (if h.Some? then [h.value] + Shows(rest) else [])
            && (h.Some? ==> |rest| < |rem|) && (h.None? ==> rest == [])
  {
    if rem != [] && rem[0].value.None? {
      ShowsNext(rem[1..]);
      assert [] + Shows(rem[1..]) == Shows(rem[1..]);
    }
  }

  lemma PrevNone(ctx: Ctx)
    ensures PrevOf([]) == (None, []) && RRemaining([], ctx) == []
  {
  }

  /** Descending into the child of entry i leaves the frame at i, pending, for a value, and before
      i for anything else. */
  function LeftAt(t: Tree, i: nat): RFrame
    requires i < |t.items|
  {
    if t.items[i].tag.Val? then RFrame(t, i, true) else RFrame(t, i as int - 1, false)
  }

  lemma Descend(rest: seq<RFrame>, t: Tree, i: nat, ctx: Ctx)
    requires i < |t.items| && t.items[i].sub.Some?
    ensures RRemaining(rest + [RFrame(t, i, false)], ctx) ==
              NodeHits(t.items[i].sub.value, RChunks(rest + [LeftAt(t, i)]), ctx) + RRemaining(rest + [LeftAt(t, i)], ctx)
    ensures RStackWork(rest + [LeftAt(t, i)]) + RWork(t.items[i].sub.value, |t.items[i].sub.value.items|) < RStackWork(rest + [RFrame(t, i, false)])
    ensures FrameOk(LeftAt(t, i))
  {
    hide RRemaining, RChunks, RStackWork, HitsFrom, HitsUpTo, Rev;
    var item := t.items[i];
    RPushed(rest, RFrame(t, i, false), ctx);
    RPushed(rest, LeftAt(t, i), ctx);
    ItemFromBehind(t, i, RChunks(rest), ctx);
    BehindHits(t, i, RChunks(rest), ctx);
    WorkAt(t, i);
    var p := RChunks(rest) + ItemChunk(item);
    assert RChunks(rest + [LeftAt(t, i)]) == p;
    if !item.tag.Val? {
      assert Own(item, p, ctx) == [];
      assert [] + Rev(HitsUpTo(t, i, RChunks(rest), ctx)) == Rev(HitsUpTo(t, i, RChunks(rest), ctx));
    }
    RegroupTail(NodeHits(item.sub.value, p, ctx), FrameHits(LeftAt(t, i), RChunks(rest), ctx), RRemaining(rest, ctx));
  }

  lemma WorkAt(t: Tree, i: nat)
    requires i < |t.items|
    ensures FrameWork(RFrame(t, i, false)) == RItemWork(t.items[i]) + RWork(t, i) && FrameWork(RFrame(t, i, true)) == 1 + RWork(t, i)
  {
    assert RWork(t, i + 1) == RItemWork(t.items[i]) + RWork(t, i);
  }

  lemma RegroupTail(a: seq<Hit>, b: seq<Hit>, c: seq<Hit>)
    ensures (a + b) + c == a + (b + c)
  {
  }

  lemma SomeWork(item: Item)
    ensures RItemWork(item) >= 2
  {
  }

  lemma OwnLeft(f: RFrame, prefix: seq<Chunk>, ctx: Ctx)
    requires Inside(f) && FrameOk(f) && (f.node.items[f.idx].sub.None? || f.pending)
    ensures FrameHits(f, prefix, ctx) ==
              Own(f.node.items[f.idx], prefix + ItemChunk(f.node.items[f.idx]), ctx) + Rev(HitsUpTo(f.node, f.idx, prefix, ctx))
  {
    hide HitsFrom, HitsUpTo, Own;
    var t, i := f.node, f.idx;
    if !f.pending {
      var p := prefix + ItemChunk(t.items[i]);
      ItemFromBehind(t, i, prefix, ctx);
      assert f == RFrame(t, i, false);
      assert Rev(SubHits(t.items[i].sub, p, ctx)) == [];
      RegroupTail([], Own(t.items[i], p, ctx), Rev(HitsUpTo(t, i, prefix, ctx)));
      assert [] + Own(t.items[i], p, ctx) == Own(t.items[i], p, ctx);
    }
  }

  /** An entry without child, or one whose child is done: only its own value is left. */
  lemma Report(rest: seq<RFrame>, f: RFrame, ctx: Ctx)
    requires Inside(f) && FrameOk(f) && (f.node.items[f.idx].sub.None? || f.pending)
    ensures RRemaining(rest + [f], ctx) ==
              Own(f.node.items[f.idx], RChunks(rest) + ItemChunk(f.node.items[f.idx]), ctx) + RRemaining(rest + [RFrame(f.node, f.idx - 1, false)], ctx)
    ensures RStackWork(rest + [RFrame(f.node, f.idx - 1, false)]) < RStackWork(rest + [f])
  {
    hide RRemaining, RChunks, RStackWork, HitsFrom, HitsUpTo, Rev, FrameHits, RWork, RItemWork, Own, ItemChunk;
    var t, i := f.node, f.idx;
    RPushed(rest, f, ctx);
    RPushed(rest, RFrame(t, i - 1, false), ctx);
    BehindHits(t, i, RChunks(rest), ctx);
    WorkAt(t, i);
    SomeWork(t.items[i]);
    var p := RChunks(rest) + ItemChunk(t.items[i]);
    OwnLeft(f, RChunks(rest), ctx);
    RegroupTail(Own(t.items[i], p, ctx), Rev(HitsUpTo(t, i, RChunks(rest), ctx)), RRemaining(rest, ctx));
  }

  lemma Exhausted(rest: seq<RFrame>, f: RFrame, ctx: Ctx)
    requires !Inside(f)
    ensures RRemaining(rest + [f], ctx) == RRemaining(rest, ctx) && RStackWork(rest) < RStackWork(rest + [f])
  {
    RPushed(rest, f, ctx);
  }

  ghost predicate StackOk(stack: seq<RFrame>) {
    forall i | 0 <= i < |stack| :: FrameOk(stack[i])
  }

  class ReverseIterator {
    var stack: seq<RFrame>
    var finished: bool
    const ctx: Ctx

    ghost function Rest(): seq<Hit>
      reads this
    {
      if finished then [] else RRemaining(stack, ctx)
    }

    /** seek_to_rightmost: from a node just pushed down along last entries. */
    method SeekRightmost()
      requires stack != [] && StackOk(stack) && !finished
      modifies this`stack
      ensures StackOk(stack)
      ensures RRemaining(stack, ctx) ==
                NodeHits(old(stack[|stack| - 1].node), RChunks(old(stack[..|stack| - 1])), ctx) + RRemaining(old(stack[..|stack| - 1]), ctx)
      ensures RStackWork(stack) <= RStackWork(old(stack[..|stack| - 1])) + RWork(old(stack[|stack| - 1].node), |old(stack[|stack| - 1].node).items|)
    {
      hide RRemaining, NodeHits, RChunks, RStackWork, RWork, FrameWork, FrameHits;
      ghost var goal := NodeHits(stack[|stack| - 1].node, RChunks(stack[..|stack| - 1]), ctx) + RRemaining(stack[..|stack| - 1], ctx);
      ghost var work := RStackWork(stack[..|stack| - 1]) + RWork(stack[|stack| - 1].node, |stack[|stack| - 1].node.items|);
      var t := stack[|stack| - 1].node;
      var down := true;
      while down
        invariant stack != [] && StackOk(stack) && (down ==> t == stack[|stack| - 1].node)
        invariant down ==> goal == NodeHits(t, RChunks(stack[..|stack| - 1]), ctx) + RRemaining(stack[..|stack| - 1], ctx)
        invariant down ==> RStackWork(stack[..|stack| - 1]) + RWork(t, |t.items|) <= work
        invariant !down ==> goal == RRemaining(stack, ctx) && RStackWork(stack) <= work
        decreases down, t
      {
        ghost var rest := stack[..|stack| - 1];
        var n := |t.items|;
        WholeNode(t, RChunks(rest), ctx);
        RPushed(rest, RFrame(t, n - 1, false), ctx);
        if n == 0 {
          EmptyFrame(rest, stack[|stack| - 1], t, ctx);
          assert stack == rest + [stack[|stack| - 1]];
          down := false;
        } else if t.items[n - 1].sub.Some? {
          Descend(rest, t, n - 1, ctx);
          var sub := t.items[n - 1].sub.value;
          stack := stack[..|stack| - 1] + [LeftAt(t, n - 1)] + [RFrame(sub, 0, false)];
          assert stack[..|stack| - 1] == rest + [LeftAt(t, n - 1)];
          t := sub;
        } else {
          stack := stack[..|stack| - 1] + [RFrame(t, n - 1, false)];
          down := false;
        }
      }
    }

    /** One turn of database_scan_prev; 1 means go on. */
    method Turn() returns (turn: int, h: Hit)
      requires !finished && stack != [] && StackOk(stack)
      modifies this`stack
      ensures StackOk(stack) && (turn == 0 || (turn == 1 && RStackWork(stack) < old(RStackWork(stack))))
      ensures PrevOf(old(RRemaining(stack, ctx))) == if turn == 0 then (Some(h), RRemaining(stack, ctx)) else PrevOf(RRemaining(stack, ctx))
    {
      hide RRemaining, NodeHits, RChunks, RStackWork, RWork, FrameWork, FrameHits, PrevOf, HitAt;
      h := Hit([], [], None);
      turn := 1;
      var rest, f := stack[..|stack| - 1], stack[|stack| - 1];
      assert stack == rest + [f];
      if !Inside(f) {
        Exhausted(rest, f, ctx);
        stack := rest;
        return;
      }
      var t, i, item := f.node, f.idx, f.node.items[f.idx];
      if item.sub.Some? && !f.pending {
        assert f == RFrame(t, i, false);
        Descend(rest, t, i, ctx);
        var under := rest + [LeftAt(t, i)];
        var sub := item.sub.value;
        if item.tag.Sep? {
          stack := under + [RFrame(sub, |sub.items| - 1, false)];
          WholeNode(sub, RChunks(under), ctx);
          RPushed(under, RFrame(sub, |sub.items| - 1, false), ctx);
        } else {
          stack := under + [RFrame(sub, 0, false)];
          assert stack[..|stack| - 1] == under;
          SeekRightmost();
        }
        return;
      }
      Report(rest, f, ctx);
      stack := rest + [RFrame(t, i - 1, false)];
      if item.tag.Val? {
        h := HitAt(item.tag, RChunks(rest) + ItemChunk(item), ctx);
        PrevHead(h, RRemaining(stack, ctx));
        turn := if h.value.Some? then 0 else 1;
      } else {
        assert [] + RRemaining(stack, ctx) == RRemaining(stack, ctx);
      }
    }

    /** database_scan_prev without bounds. */
    method Prev() returns (rc: int, h: Hit)
      requires StackOk(stack)
      modifies this
      ensures StackOk(stack) && (rc == 0 || rc == -1)
      ensures PrevOf(old(Rest())) == (if rc == 0 then Some(h) else None, Rest())
    {
      hide RRemaining, RStackWork, PrevOf, StackOk;
      PrevNone(ctx);
      h := Hit([], [], None);
      if finished || stack == [] {
        return -1, h;
      }
      ghost var rem := Rest();
      var turn := 1;
      while turn == 1 && stack != []
        invariant (turn == 0 || turn == 1) && !finished && StackOk(stack)
        invariant PrevOf(rem) == if turn == 0 then (Some(h), RRemaining(stack, ctx)) else PrevOf(RRemaining(stack, ctx))
        decreases turn, RStackWork(stack)
      {
        turn, h := Turn();
      }
      if turn == 1 {
        finished := true;
        return -1, h;
      }
      return 0, h;
    }

    /** database_scan_start_reverse without bounds. */
    constructor (root: Option<Tree>, ctx: Ctx)
      ensures StackOk(stack) && this.ctx == ctx
      ensures Rest() == if root.Some? then Rev(HitsFrom(root.value, 0, [], ctx)) else []
    {
      this.ctx := ctx;
      finished := false;
      stack := if root.Some? then [RFrame(root.value, 0, false)] else [];
      new;
      if root.Some? {
        assert stack[..0] == [];
        assert RChunks([]) == [] && RRemaining([], ctx) == [];
        hide HitsFrom, Rev;
        SeekRightmost();
        assert NodeHits(root.value, [], ctx) + [] == NodeHits(root.value, [], ctx);
      }
    }
  }

  lemma EmptyFrame(rest: seq<RFrame>, f: RFrame, t: Tree, ctx: Ctx)
    requires f.node == t && t.items == []
    ensures RRemaining(rest + [f], ctx) == NodeHits(t, RChunks(rest), ctx) + RRemaining(rest, ctx)
    ensures RStackWork(rest + [f]) == RStackWork(rest) + RWork(t, 0)
  {
    RPushed(rest, f, ctx);
  }

  /** Start, then scan_prev until it reports the end. */
  method ScanAllReverse(root: Tree, ctx: Ctx) returns (found: seq<Hit>)
    ensures found == Rev(Results(HitsFrom(root, 0, [], ctx), None, None))
  {
    hide HitsFrom, Rev, Shows, Results, PrevOf, StackOk, ReverseIterator.Rest;
    var it := new ReverseIterator(Some(root), ctx);
    ghost var left := it.Rest();
    found := [];
    var rc := 0;
    ghost var rem := left;
    assert [] + Shows(left) == Shows(left);
    while rc == 0
      invariant (rc == 0 || rc == -1) && StackOk(it.stack)
      invariant rc == 0 ==> rem == it.Rest() && Shows(left) == found + Shows(rem)
      invariant rc == -1 ==> Shows(left) == found
      decreases rc + 1, |rem|
    {
      ShowsNext(rem);
      var h: Hit;
      rc, h := it.Prev();
      if rc == 0 {
        assert found + ([h] + Shows(it.Rest())) == (found + [h]) + Shows(it.Rest());
        found := found + [h];
        rem := it.Rest();
      } else {
        assert found + [] == found;
      }
    }
    ReverseIsReverse(HitsFrom(root, 0, [], ctx));
  }

  lemma {:induction false} ShowsAppend(a: seq<Hit>, b: seq<Hit>)
    ensures Shows(a + b) == Shows(a) + Shows(b)
  {
    if a == [] {
      assert a + b == b;
    } else {
      assert (a + b)[1..] == a[1..] + b && (a + b)[0] == a[0];
      ShowsAppend(a[1..], b);
      RegroupTail(if a[0].value.Some? then [a[0]] else [], Shows(a[1..]), Shows(b));
    }
  }

  /** Without bounds the reverse scan yields the forward scan's results, last first. */
  lemma {:induction false} ReverseIsReverse(hits: seq<Hit>)
    ensures Shows(Rev(hits)) == Rev(Results(hits, None, None))
  {
    if hits != [] {
      ReverseIsReverse(hits[1..]);
      ShowsAppend(Rev(hits[1..]), [hits[0]]);
      var here := if Emits(hits[0], None) then [hits[0]] else [];
      RevAppend(here, Results(hits[1..], None, None));
      if here != [] { RevOne(hits[0]); }
      assert [hits[0]][1..] == [];
    }
  }

  /** So does the reverse scan. */
  method SnapshotReverse(root: Tree, later: Tree, ctx: Ctx) returns (before: seq<Hit>, after: seq<Hit>)
    requires Newer(root, later, ctx.at)
    ensures after == before
  {
    SameHits(root, later, 0, [], ctx);
    hide *;
    before := ScanAllReverse(root, ctx);
    after := ScanAllReverse(later, ctx);
  }
}
