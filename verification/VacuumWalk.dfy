/**
 Phase 1 of the vacuum rewrite (database_vacuum_walk_hbnode) and the rewrite as a whole
 (database_vacuum_rewrite).
 */
module VacuumWalk {
  import opened Common
  import opened NodeStore
  import opened Layout
  import opened Walk
  import opened Collect
  import opened Flush
  import opened Vacuum

  /** Memory together with its layout and the tree each bnode means. */
  datatype View = View(m: Mem, l: Layout, tr: map<nat, Tree>)

  ghost predicate Sound(v: View, disk: Disk, next: nat) {
    WellFormed(v.m, v.l) && Known(v.m, disk, v.tr) && KeysBelow(v.l, next)
  }

  /** v has all nodes of v0 where they were, and perhaps more. */
  ghost predicate Larger(v0: View, v: View) {
    && v.l.root == v0.l.root
    && (forall b | b in v0.l.owner :: b in v.l.owner && v.l.owner[b] == v0.l.owner[b])
    && (forall b | b in v0.l.owner :: b in v.l.pos <==> b in v0.l.pos)
    && (forall b | b in v0.l.pos :: b in v.l.pos && v.l.pos[b] == v0.l.pos[b])
    && (forall h | h in v0.l.depth :: h in v.l.depth && v.l.depth[h] == v0.l.depth[h])
    && (forall h | h in v0.l.at :: h in v.l.at && v.l.at[h] == v0.l.at[h])
    && (forall h | h in v0.m.hs :: h in v.m.hs && v.m.hs[h] == v0.m.hs[h])
    && (forall b | b in v0.m.bs :: b in v.m.bs)
    && (forall b | b in v0.tr :: b in v.tr && v.tr[b] == v0.tr[b])
  }

  /** From v0 to v only nodes below h changed or appeared. */
  ghost predicate Within(v0: View, v: View, h: nat) {
    && Larger(v0, v) && Ranked(v0.l) && Ranked(v.l) && v0.m.bs.Keys == v0.l.owner.Keys && v.m.bs.Keys == v.l.owner.Keys
    && (forall x | x in v0.l.owner && !Under(v0.l, v0.l.owner[x], h) :: v.m.bs[x] == v0.m.bs[x])
    && (forall x | x in v.l.owner && x !in v0.l.owner :: Under(v.l, v.l.owner[x], h))
    && (forall g | g in v.l.depth && g !in v0.l.depth :: Under(v.l, g, h))
  }

  lemma {:induction false} UnderLarger(v0: View, v: View, x: nat, a: nat)
    requires Ranked(v0.l) && Ranked(v.l) && Larger(v0, v) && x in v0.l.depth
    ensures x in v.l.depth && (Under(v.l, x, a) <==> Under(v0.l, x, a))
    decreases v0.l.depth[x]
  {
    if x != v0.l.root { UnderLarger(v0, v, Up(v0.l, x), a); }
  }

  lemma WithinSelf(v: View, h: nat)
    requires WellFormed(v.m, v.l)
    ensures Within(v, v, h)
  {
  }

  lemma LargerTwice(v0: View, v1: View, v2: View)
    requires Larger(v0, v1) && Larger(v1, v2) && v0.m.bs.Keys == v0.l.owner.Keys && v1.m.bs.Keys == v1.l.owner.Keys
    ensures Larger(v0, v2)
  {
  }

  lemma LargerKeys(v0: View, v: View)
    requires Larger(v0, v) && Ranked(v0.l)
    ensures forall b | b in v0.l.owner :: b in v.l.owner && v.l.owner[b] == v0.l.owner[b]
    ensures forall b | b in v0.l.owner :: v0.l.owner[b] in v0.l.depth && v0.l.owner[b] in v.l.depth
  {
  }

  lemma WithinTwice(v0: View, v1: View, v2: View, h: nat)
    requires Within(v0, v1, h) && Within(v1, v2, h)
    ensures Within(v0, v2, h)
  {
    hide Under, Larger;
    LargerTwice(v0, v1, v2);
    LargerKeys(v0, v1);
    LargerKeys(v1, v2);
    hide Ranked;
    forall x | x in v0.l.owner && !Under(v0.l, v0.l.owner[x], h) ensures v2.m.bs[x] == v0.m.bs[x] {
      UnderLarger(v0, v1, v0.l.owner[x], h);
      assert v1.m.bs[x] == v0.m.bs[x];
    }
    forall x | x in v2.l.owner && x !in v0.l.owner ensures Under(v2.l, v2.l.owner[x], h) {
      if x in v1.l.owner { UnderLarger(v1, v2, v1.l.owner[x], h); }
    }
    forall g | g in v2.l.depth && g !in v0.l.depth ensures Under(v2.l, g, h) {
      if g in v1.l.depth { UnderLarger(v1, v2, g, h); }
    }
  }

  /** What happens below a child of h happens below h. */
  lemma ChildWithin(v1: View, v2: View, h: nat, c: nat, bn: nat, i: nat, off: nat)
    requires Larger(v1, v2) && Ranked(v1.l) && Ranked(v2.l) && v1.m.bs.Keys == v1.l.owner.Keys && v2.m.bs.Keys == v2.l.owner.Keys
    requires c in v1.l.at && Up(v1.l, c) == h && v1.l.at[c] == (bn, i)
    requires forall x | x in v1.l.owner && !Under(v1.l, v1.l.owner[x], c) :: v2.m.bs[x] == Patch(v1.m.bs[x], x, Some((bn, i)), off)
    requires forall x | x in v2.l.owner && x !in v1.l.owner :: Under(v2.l, v2.l.owner[x], c)
    requires forall g | g in v2.l.depth && g !in v1.l.depth :: Under(v2.l, g, c)
    ensures Within(v1, v2, h)
  {
    hide Under, Top;
    assert v2.l.at[c] == (bn, i) && Up(v2.l, c) == h;
    forall x | x in v1.l.depth ensures Under(v1.l, x, c) ==> Under(v1.l, x, h) { InChild(v1.l, h, c, x); }
    forall x | x in v2.l.depth ensures Under(v2.l, x, c) ==> Under(v2.l, x, h) { InChild(v2.l, h, c, x); }
    SelfUnder(v1.l, h);
    forall x | x in v1.l.owner && !Under(v1.l, v1.l.owner[x], h) ensures v2.m.bs[x] == v1.m.bs[x] {
      assert x != bn;
    }
  }

  // ---------------------------------------------------------------- sizes

  ghost function Size(t: Tree): nat
    decreases t, |t.items| + 1
  {
    1 + Sizes(t, 0)
  }

  /** Size of the subtrees from entry i on. */
  ghost function Sizes(t: Tree, i: nat): nat
    requires i <= |t.items|
    decreases t, |t.items| - i
  {
    if i == |t.items| then 0
    else (if t.items[i].sub.Some? then Size(t.items[i].sub.value) else 0) + Sizes(t, i + 1)
  }

  lemma {:induction false} SuffixSmaller(t: Tree, i: nat, j: nat)
    requires i <= j <= |t.items|
    ensures Sizes(t, j) <= Sizes(t, i)
    decreases j - i
  {
    if i < j { SuffixSmaller(t, i + 1, j); }
  }

  lemma SubSmaller(t: Tree, i: nat)
    requires i < |t.items| && t.items[i].sub.Some?
    ensures Size(t.items[i].sub.value) < Size(t)
  {
    SuffixSmaller(t, 0, i);
  }

  /** Total size of the trees on the stack. */
  ghost function StackSize(stack: seq<nat>, tr: map<nat, Tree>): nat {
    if stack == [] then 0
    else StackSize(stack[..|stack| - 1], tr) + (if stack[|stack| - 1] in tr then Size(tr[stack[|stack| - 1]]) else 0)
  }

  lemma StackPush(stack: seq<nat>, tr: map<nat, Tree>, b: nat)
    requires b in tr
    ensures StackSize(stack + [b], tr) == StackSize(stack, tr) + Size(tr[b])
  {
    assert (stack + [b])[..|stack|] == stack;
  }

  lemma {:induction false} StackLarger(stack: seq<nat>, tr: map<nat, Tree>, tr': map<nat, Tree>)
    requires forall b | b in stack :: b in tr && b in tr' && tr'[b] == tr[b]
    ensures StackSize(stack, tr') == StackSize(stack, tr)
  {
    if stack != [] {
      var rest := stack[..|stack| - 1];
      assert forall b | b in rest :: b in stack;
      assert stack[|stack| - 1] in stack;
      StackLarger(rest, tr, tr');
    }
  }

  // ---------------------------------------------------------------- progress of phase 1

  /** Bnodes below the children `proc` of h. */
  ghost function Reach(l: Layout, h: nat, proc: set<nat>): set<nat>
    requires Ranked(l)
  {
    Gathered(l, h, proc, l.owner.Keys)
  }

  ghost predicate VisitedReady(v: View, disk: Disk, visited: set<nat>) {
    forall b | b in visited :: b in v.m.bs && b in v.tr && EntriesReady(v.m, disk, b, v.tr[b], |v.m.bs[b].entries|)
  }

  lemma {:induction false} TopLarger(v0: View, v: View, x: nat, a: nat)
    requires Ranked(v0.l) && Ranked(v.l) && Larger(v0, v) && x in v0.l.depth && Under(v0.l, x, a) && x != a
    ensures x in v.l.depth && Under(v.l, x, a) && Top(v.l, x, a) == Top(v0.l, x, a)
    decreases v0.l.depth[x]
  {
    UnderLarger(v0, v, x, a);
    if Up(v0.l, x) != a { TopLarger(v0, v, Up(v0.l, x), a); }
  }

  /** New nodes that hang below no child in `proc` leave its reach alone. */
  lemma ReachLarger(v0: View, v: View, h: nat, proc: set<nat>)
    requires Ranked(v0.l) && Ranked(v.l) && Larger(v0, v)
    requires forall x | x in v.l.owner && x !in v0.l.owner && v.l.owner[x] != h && Under(v.l, v.l.owner[x], h) ::
               Top(v.l, v.l.owner[x], h) !in proc
    ensures Reach(v.l, h, proc) == Reach(v0.l, h, proc)
  {
    hide Under, Top, Larger, Ranked;
    LargerKeys(v0, v);
    forall x | x in v0.l.owner
      ensures v0.l.owner[x] != h && Under(v0.l, v0.l.owner[x], h) <==> v0.l.owner[x] != h && Under(v.l, v0.l.owner[x], h)
      ensures v0.l.owner[x] != h && Under(v0.l, v0.l.owner[x], h) ==> Top(v.l, v0.l.owner[x], h) == Top(v0.l, v0.l.owner[x], h)
    {
      UnderLarger(v0, v, v0.l.owner[x], h);
      if v0.l.owner[x] != h && Under(v0.l, v0.l.owner[x], h) { TopLarger(v0, v, v0.l.owner[x], h); }
    }
  }

  /** Key k is in no table of v. */
  ghost predicate Unused(v: View, k: nat) {
    && k !in v.m.bs && k !in v.m.hs && k !in v.tr
    && k !in v.l.owner && k !in v.l.pos && k !in v.l.at && k !in v.l.depth
  }

  ghost predicate CanLoad(v: View, bn: nat, i: nat) {
    && bn in v.m.bs && bn in v.l.owner && v.l.owner[bn] in v.l.depth && bn in v.tr
    && i < |v.m.bs[bn].entries| == |v.tr[bn].items| && v.m.bs[bn].entries[i].child.None? && v.tr[bn].items[i].sub.Some?
  }

  ghost function LoadView(v: View, bn: nat, i: nat, rec: Record, k: nat): View
    requires CanLoad(v, bn, i)
  {
    View(Load(v.m, bn, i, rec, k), LoadLayout(v.m, v.l, bn, i, rec.level, k), v.tr[k := v.tr[bn].items[i].sub.value])
  }

  lemma UnusedKey(v: View, k: nat)
    requires WellFormed(v.m, v.l) && v.tr.Keys == v.m.bs.Keys && k !in v.m.bs && k !in v.m.hs
    ensures Unused(v, k)
  {
    WellFormedKeys(v.m, v.l);
  }

  lemma LoadLarger(v: View, bn: nat, i: nat, rec: Record, k: nat)
    requires CanLoad(v, bn, i) && Unused(v, k)
    ensures Larger(v, LoadView(v, bn, i, rec, k))
  {
    if v.m.bs[bn].entries[i].tag.Sep? { } else { }
  }

  /** Loading entry i of bn keeps everything phase 1 has established. */
  lemma LoadStep(v: View, h: nat, visited: set<nat>, bn: nat, i: nat, stack: seq<nat>, rec: Record, k: nat)
    requires WellFormed(v.m, v.l) && CanLoad(v, bn, i) && Unused(v, k) && v.l.owner[bn] == h
    requires WellFormed(LoadView(v, bn, i, rec, k).m, LoadView(v, bn, i, rec, k).l)
    requires Inside(v.m, v.l, h, visited, bn, i, stack)
    ensures Within(v, LoadView(v, bn, i, rec, k), h)
    ensures Steps(LoadView(v, bn, i, rec, k).l, h, visited, bn, i) == Steps(v.l, h, visited, bn, i)
    ensures Reach(LoadView(v, bn, i, rec, k).l, h, Steps(v.l, h, visited, bn, i)) == Reach(v.l, h, Steps(v.l, h, visited, bn, i))
    ensures Inside(LoadView(v, bn, i, rec, k).m, LoadView(v, bn, i, rec, k).l, h, visited, bn, i, stack)
  {
    hide *;
    var v' := LoadView(v, bn, i, rec, k);
    CanLoadOwner(v, bn, i);
    RootIs(v, h, bn);
    RankedOf(v);
    RankedOf(v');
    LoadLarger(v, bn, i, rec, k);
    LoadInside(v, h, visited, bn, i, stack, rec, k);
    LoadUnder(v, h, bn, i, rec, k);
    LoadWithin(v, h, bn, i, rec, k);
    LoadStepsSame(v, h, visited, bn, i, rec, k);
    ReachLarger(v, v', h, Steps(v.l, h, visited, bn, i));
  }

  lemma CanLoadOwner(v: View, bn: nat, i: nat)
    requires CanLoad(v, bn, i)
    ensures bn in v.m.bs && bn in v.l.owner
  {
  }

  lemma RankedOf(v: View)
    requires WellFormed(v.m, v.l)
    ensures Ranked(v.l) && v.m.bs.Keys == v.l.owner.Keys
  {
  }

  lemma RootIs(v: View, h: nat, bn: nat)
    requires WellFormed(v.m, v.l) && bn in v.l.owner && v.l.owner[bn] == h
    ensures h in v.m.hs && v.m.hs[h] in v.m.bs
  {
  }

  lemma LoadStepsSame(v: View, h: nat, visited: set<nat>, bn: nat, i: nat, rec: Record, k: nat)
    requires CanLoad(v, bn, i) && Unused(v, k)
    ensures Steps(LoadView(v, bn, i, rec, k).l, h, visited, bn, i) == Steps(v.l, h, visited, bn, i)
    ensures k !in Steps(v.l, h, visited, bn, i)
  {
    if v.m.bs[bn].entries[i].tag.Sep? { } else { }
  }

  lemma LoadWithin(v: View, h: nat, bn: nat, i: nat, rec: Record, k: nat)
    requires CanLoad(v, bn, i) && Unused(v, k) && v.l.owner[bn] == h && Ranked(v.l) && v.m.bs.Keys == v.l.owner.Keys
    requires Ranked(LoadView(v, bn, i, rec, k).l) && LoadView(v, bn, i, rec, k).m.bs.Keys == LoadView(v, bn, i, rec, k).l.owner.Keys
    requires Larger(v, LoadView(v, bn, i, rec, k))
    requires LoadView(v, bn, i, rec, k).l.owner.Keys == v.l.owner.Keys + {k}
    requires Under(LoadView(v, bn, i, rec, k).l, LoadView(v, bn, i, rec, k).l.owner[k], h)
    requires forall g | g in LoadView(v, bn, i, rec, k).l.depth && g !in v.l.depth :: g == k && Under(LoadView(v, bn, i, rec, k).l, g, h)
    ensures Within(v, LoadView(v, bn, i, rec, k), h)
  {
    hide Larger, Under;
    LoadShape(v.m, bn, i, rec, k);
    assert LoadView(v, bn, i, rec, k).m == Load(v.m, bn, i, rec, k);
    hide Load, LoadLayout;
    SelfUnder(v.l, h);
  }

  /** A loaded node hangs below h: in h's own B+tree, or as a new child of h. */
  lemma LoadUnder(v: View, h: nat, bn: nat, i: nat, rec: Record, k: nat)
    requires CanLoad(v, bn, i) && Unused(v, k) && v.l.owner[bn] == h && Ranked(v.l) && Ranked(LoadView(v, bn, i, rec, k).l)
    ensures LoadView(v, bn, i, rec, k).l.owner.Keys == v.l.owner.Keys + {k}
    ensures Under(LoadView(v, bn, i, rec, k).l, LoadView(v, bn, i, rec, k).l.owner[k], h)
    ensures LoadView(v, bn, i, rec, k).l.owner[k] == h
            || (LoadView(v, bn, i, rec, k).l.owner[k] == k && Top(LoadView(v, bn, i, rec, k).l, k, h) == k)
    ensures forall g | g in LoadView(v, bn, i, rec, k).l.depth && g !in v.l.depth :: g == k && Under(LoadView(v, bn, i, rec, k).l, g, h)
  {
    SelfUnder(LoadView(v, bn, i, rec, k).l, h);
  }

  lemma LoadInside(v: View, h: nat, visited: set<nat>, bn: nat, i: nat, stack: seq<nat>, rec: Record, k: nat)
    requires CanLoad(v, bn, i) && Unused(v, k) && v.l.owner[bn] == h && Inside(v.m, v.l, h, visited, bn, i, stack)
    requires v.m.hs[h] in v.m.bs
    ensures Inside(LoadView(v, bn, i, rec, k).m, LoadView(v, bn, i, rec, k).l, h, visited, bn, i, stack)
  {
    var v' := LoadView(v, bn, i, rec, k);
    LoadShape(v.m, bn, i, rec, k);
    if v.m.bs[bn].entries[i].tag.Sep? {
      assert Owned(v'.l, h) == Owned(v.l, h) + {k};
    } else {
      assert Owned(v'.l, h) == Owned(v.l, h) by { assert v.l.owner[bn] == h && k != h; }
    }
  }

  // ---------------------------------------------------------------- one entry of phase 1

  /** The walk over the B+tree of h has done i entries of bn: entries passed are loaded and lead
      into the new file, and the new file has gained what is below the trie children passed. */
  ghost predicate Walking(v0: View, v: View, h: nat, disk: Disk, done: set<nat>, visited: set<nat>, bn: nat, i: nat, stack: seq<nat>) {
    && WellFormed(v.m, v.l) && Within(v0, v, h) && Inside(v.m, v.l, h, visited, bn, i, stack)
    && VisitedReady(v, disk, visited - {bn}) && bn in v.tr && EntriesReady(v.m, disk, bn, v.tr[bn], i)
    && Image(v.m, disk, done + Reach(v.l, h, Steps(v.l, h, visited, bn, i))) && Closed(disk)
  }

  /** Effect of rewriting all that is below c: elsewhere only c's parent entry changed. */
  ghost predicate Rewritten(v1: View, v2: View, c: nat, parent: Option<(nat, nat)>, off: nat) {
    && Larger(v1, v2) && Ranked(v1.l) && Ranked(v2.l) && v1.m.bs.Keys == v1.l.owner.Keys && v2.m.bs.Keys == v2.l.owner.Keys
    && (forall x | x in v1.l.owner && !Under(v1.l, v1.l.owner[x], c) :: v2.m.bs[x] == Patch(v1.m.bs[x], x, parent, off))
    && (forall x | x in v2.l.owner && x !in v1.l.owner :: Under(v2.l, v2.l.owner[x], c))
    && (forall g | g in v2.l.depth && g !in v1.l.depth :: Under(v2.l, g, c))
  }

  lemma SepParent(v: View, b: nat)
    requires SepsOk(v.m, v.l) && b in v.l.pos
    ensures v.l.pos[b].0 in v.m.bs && v.l.pos[b].1 < |v.m.bs[v.l.pos[b].0].entries|
    ensures v.m.bs[v.l.pos[b].0].entries[v.l.pos[b].1].child == Some(b)
    ensures Kid(v.m, v.m.bs[v.l.pos[b].0].entries[v.l.pos[b].1]) == Some(b)
  {
  }

  lemma {:induction false} OwnedSize(v: View, disk: Disk, b: nat)
    requires WellFormed(v.m, v.l) && Known(v.m, disk, v.tr) && b in v.m.bs
    ensures v.l.owner[b] in v.m.hs && v.m.hs[v.l.owner[b]] in v.tr && Size(v.tr[b]) <= Size(v.tr[v.m.hs[v.l.owner[b]]])
    decreases LEVELS - v.l.level[b]
  {
    hide Known, Size, SepsOk, StepsOk;
    KnownShape(v.m, disk, v.tr, b);
    if b in v.l.pos {
      var p, j := v.l.pos[b].0, v.l.pos[b].1;
      SepParent(v, b);
      KnownShape(v.m, disk, v.tr, p);
      KidTree(v.m, disk, v.tr, p, j);
      SubSmaller(v.tr[p], j);
      OwnedSize(v, disk, p);
    }
  }

  lemma EntryIsLast(m: Mem, disk: Disk, bn: nat, t: Tree, i: nat)
    requires EntriesReady(m, disk, bn, t, i) && i < |m.bs[bn].entries| && EntryReady(disk, m.bs[bn].entries[i], t.items[i])
    ensures EntriesReady(m, disk, bn, t, i + 1)
  {
  }

  lemma StepsStay(l: Layout, h: nat, visited: set<nat>, bn: nat, i: nat)
    requires forall g | g in l.at :: l.at[g] != (bn, i)
    ensures Steps(l, h, visited, bn, i + 1) == Steps(l, h, visited, bn, i)
  {
    forall g | g in l.at && l.at[g].0 == bn ensures l.at[g].1 != i { assert l.at[g] == (l.at[g].0, l.at[g].1); }
  }

  /** No hbtrie node hangs from a separator, nor from an entry without a child. */
  lemma NoStepAt(v: View, bn: nat, i: nat)
    requires StepsOk(v.m, v.l) && bn in v.m.bs && i < |v.m.bs[bn].entries|
    requires v.m.bs[bn].entries[i].tag.Sep? || v.m.bs[bn].entries[i].child.None?
    ensures forall g | g in v.l.at :: v.l.at[g] != (bn, i)
  {
  }

  lemma PushStep(v0: View, v: View, h: nat, disk: Disk, done: set<nat>, visited: set<nat>, bn: nat, i: nat, stack: seq<nat>)
    requires Walking(v0, v, h, disk, done, visited, bn, i, stack) && bn in v.m.bs && i < |v.m.bs[bn].entries|
    requires v.m.bs[bn].entries[i].tag.Sep? && v.m.bs[bn].entries[i].child.Some?
    ensures Walking(v0, v, h, disk, done, visited, bn, i + 1, stack + [v.m.bs[bn].entries[i].child.value])
    ensures Ranked(v.l) && Steps(v.l, h, visited, bn, i + 1) == Steps(v.l, h, visited, bn, i)
  {
    hide Ranked, SepsOk, StepsOk, RootsOk, Within, Inside, VisitedReady, EntriesReady, Image, Closed, Reach, Steps;
    PushChild(v.m, v.l, h, visited, bn, i, stack);
    NoStepAt(v, bn, i);
    StepsStay(v.l, h, visited, bn, i);
    ReadyLength(v.m, disk, bn, v.tr[bn], i);
    EntryIsLast(v.m, disk, bn, v.tr[bn], i);
  }

  lemma ReadyLength(m: Mem, disk: Disk, bn: nat, t: Tree, i: nat)
    requires EntriesReady(m, disk, bn, t, i)
    ensures bn in m.bs && |m.bs[bn].entries| == |t.items|
  {
  }

  lemma PassStep(v0: View, v: View, h: nat, disk: Disk, done: set<nat>, visited: set<nat>, bn: nat, i: nat, stack: seq<nat>)
    requires Walking(v0, v, h, disk, done, visited, bn, i, stack) && bn in v.m.bs && i < |v.m.bs[bn].entries|
    requires v.m.bs[bn].entries[i].child.None? && v.m.bs[bn].entries[i].off == 0
    ensures Walking(v0, v, h, disk, done, visited, bn, i + 1, stack)
    ensures Ranked(v.l) && Steps(v.l, h, visited, bn, i + 1) == Steps(v.l, h, visited, bn, i)
  {
    hide Ranked, SepsOk, StepsOk, RootsOk, Within, Inside, VisitedReady, EntriesReady, Image, Closed, Reach, Steps;
    PassEntry(v.m, v.l, h, visited, bn, i, stack);
    NoStepAt(v, bn, i);
    StepsStay(v.l, h, visited, bn, i);
    ReadyLength(v.m, disk, bn, v.tr[bn], i);
    EntryIsLast(v.m, disk, bn, v.tr[bn], i);
  }

  /** Loading the child of entry i changes nothing the walk has established. */
  lemma LoadedStep(v0: View, v: View, h: nat, disk: Disk, done: set<nat>, visited: set<nat>, bn: nat, i: nat, stack: seq<nat>, rec: Record, k: nat)
    requires Walking(v0, v, h, disk, done, visited, bn, i, stack) && CanLoad(v, bn, i) && Unused(v, k) && v.l.owner[bn] == h && bn !in done
    requires WellFormed(LoadView(v, bn, i, rec, k).m, LoadView(v, bn, i, rec, k).l)
    ensures Walking(v0, LoadView(v, bn, i, rec, k), h, disk, done, visited, bn, i, stack)
    ensures Ranked(v.l) && Ranked(LoadView(v, bn, i, rec, k).l)
    ensures Reach(LoadView(v, bn, i, rec, k).l, h, Steps(LoadView(v, bn, i, rec, k).l, h, visited, bn, i)) == Reach(v.l, h, Steps(v.l, h, visited, bn, i))
  {
    hide Ranked, SepsOk, StepsOk, RootsOk, Within, Inside, VisitedReady, EntriesReady, Image, Closed, Reach, Steps, LoadView, Unused;
    var v' := LoadView(v, bn, i, rec, k);
    LoadStep(v, h, visited, bn, i, stack, rec, k);
    WithinTwice(v0, v, v', h);
    LoadViewShape(v, bn, i, rec, k);
    LoadVisited(v, disk, visited, bn, i, rec, k);
    LoadEntries(v, v', disk, bn, i);
    LoadViewImage(v, h, disk, done, Steps(v.l, h, visited, bn, i), bn, i, rec, k);
  }

  lemma LoadViewImage(v: View, h: nat, disk: Disk, done: set<nat>, proc: set<nat>, bn: nat, i: nat, rec: Record, k: nat)
    requires Ranked(v.l) && CanLoad(v, bn, i) && Unused(v, k) && v.l.owner[bn] == h && bn !in done && Image(v.m, disk, done + Reach(v.l, h, proc))
    ensures Image(LoadView(v, bn, i, rec, k).m, disk, done + Reach(v.l, h, proc))
  {
    hide Image, Load, LoadLayout, Under, Top, Ranked;
    NotReached(v.l, h, proc, bn);
    LoadImage(v.m, disk, done + Reach(v.l, h, proc), bn, i, rec, k);
  }

  /** The bnodes of h itself are not among those below its children. */
  lemma NotReached(l: Layout, h: nat, proc: set<nat>, b: nat)
    requires Ranked(l) && b in l.owner && l.owner[b] == h
    ensures b !in Reach(l, h, proc)
  {
  }

  /** Nor is the bnode h hangs from. */
  lemma ParentNotReached(v: View, h: nat, proc: set<nat>)
    requires WellFormed(v.m, v.l) && h in v.m.hs && ParentOf(v.l, v.m.hs[h]).Some?
    ensures ParentOf(v.l, v.m.hs[h]).value.0 !in Reach(v.l, h, proc)
  {
    hide SepsOk, StepsOk;
    var p := ParentOf(v.l, v.m.hs[h]).value.0;
    assert h in v.l.at && v.l.at[h].0 == p;
    if Under(v.l, v.l.owner[p], h) { UnderDepth(v.l, v.l.owner[p], h); }
  }

  lemma HereNotDone(v0: View, v: View, h: nat, disk: Disk, done: set<nat>, visited: set<nat>, bn: nat, i: nat, stack: seq<nat>)
    requires Walking(v0, v, h, disk, done, visited, bn, i, stack) && done <= v0.l.owner.Keys && Ranked(v0.l) && Below(v0.l, h) !! done
    ensures Ranked(v.l) && bn !in done + Reach(v.l, h, Steps(v.l, h, visited, bn, i))
  {
    hide SepsOk, StepsOk, RootsOk, Inside, VisitedReady, EntriesReady, Image, Closed, Reach, Steps, Larger, Under, Ranked, Below;
    InsideOwned(v, h, visited, bn, i, stack);
    BelowFresh(v0, v, h, done);
    OwnBelow(v.l, h, bn);
    NotReached(v.l, h, Steps(v.l, h, visited, bn, i), bn);
  }

  lemma OwnBelow(l: Layout, h: nat, b: nat)
    requires Ranked(l) && b in l.owner && l.owner[b] == h
    ensures b in Below(l, h)
  {
    SelfUnder(l, h);
  }

  lemma LoadViewShape(v: View, bn: nat, i: nat, rec: Record, k: nat)
    requires CanLoad(v, bn, i) && Unused(v, k)
    ensures bn in LoadView(v, bn, i, rec, k).m.bs && bn in LoadView(v, bn, i, rec, k).tr
    ensures LoadView(v, bn, i, rec, k).tr[bn] == v.tr[bn]
    ensures v.m.bs.Keys <= LoadView(v, bn, i, rec, k).m.bs.Keys
    ensures forall x | x in v.m.bs :: LoadView(v, bn, i, rec, k).m.bs[x].off == v.m.bs[x].off
    ensures |LoadView(v, bn, i, rec, k).m.bs[bn].entries| == |v.m.bs[bn].entries|
    ensures forall j | 0 <= j < i :: LoadView(v, bn, i, rec, k).m.bs[bn].entries[j] == v.m.bs[bn].entries[j]
  {
    LoadShape(v.m, bn, i, rec, k);
  }

  lemma LoadVisited(v: View, disk: Disk, visited: set<nat>, bn: nat, i: nat, rec: Record, k: nat)
    requires CanLoad(v, bn, i) && Unused(v, k) && VisitedReady(v, disk, visited - {bn})
    ensures VisitedReady(LoadView(v, bn, i, rec, k), disk, visited - {bn})
  {
    LoadShape(v.m, bn, i, rec, k);
    hide Load, LoadLayout;
    forall b | b in visited - {bn}
      ensures EntriesReady(Load(v.m, bn, i, rec, k), disk, b, v.tr[b], |v.m.bs[b].entries|)
    {
      assert Load(v.m, bn, i, rec, k).bs[b] == v.m.bs[b];
    }
  }

  lemma LoadEntries(v: View, v': View, disk: Disk, bn: nat, i: nat)
    requires bn in v.m.bs && bn in v'.m.bs && bn in v.tr && |v'.m.bs[bn].entries| == |v.m.bs[bn].entries| && EntriesReady(v.m, disk, bn, v.tr[bn], i)
    requires forall j | 0 <= j < i :: v'.m.bs[bn].entries[j] == v.m.bs[bn].entries[j]
    ensures EntriesReady(v'.m, disk, bn, v.tr[bn], i)
  {
  }

  // ---------------------------------------------------------------- recursion into a trie child

  lemma StepChild(v: View, bn: nat, i: nat)
    requires WellFormed(v.m, v.l) && bn in v.m.bs && i < |v.m.bs[bn].entries|
    requires !v.m.bs[bn].entries[i].tag.Sep? && v.m.bs[bn].entries[i].child.Some?
    ensures var c := v.m.bs[bn].entries[i].child.value;
            && c in v.m.hs && v.m.hs[c] in v.m.bs && Kid(v.m, v.m.bs[bn].entries[i]) == Some(v.m.hs[c])
            && c in v.l.at && v.l.at[c] == (bn, i) && bn in v.l.owner && Up(v.l, c) == v.l.owner[bn]
            && ParentOf(v.l, v.m.hs[c]) == Some((bn, i)) && c in v.l.depth
    ensures forall g | g in v.l.at && v.l.at[g] == (bn, i) :: g == v.m.bs[bn].entries[i].child.value
  {
  }

  lemma StepsGrow(l: Layout, h: nat, visited: set<nat>, bn: nat, i: nat, c: nat)
    requires c in l.at && l.at[c] == (bn, i) && bn in visited
    requires forall g | g in l.at && l.at[g] == (bn, i) :: g == c
    ensures Steps(l, h, visited, bn, i + 1) == Steps(l, h, visited, bn, i) + {c} && c !in Steps(l, h, visited, bn, i)
  {
    forall g | g in l.at && l.at[g].0 == bn && l.at[g].1 == i ensures g == c { assert l.at[g] == (l.at[g].0, l.at[g].1); }
  }

  lemma ChildDisjoint(l: Layout, h: nat, c: nat, proc: set<nat>)
    requires Ranked(l) && c in l.at && Up(l, c) == h && c !in proc
    ensures Below(l, c) !! Reach(l, h, proc) && Below(l, c) <= Below(l, h)
  {
    hide Under, Top;
    forall x | x in l.owner
      ensures Under(l, l.owner[x], c) ==> l.owner[x] != h && Under(l, l.owner[x], h) && Top(l, l.owner[x], h) == c
    {
      InChild(l, h, c, l.owner[x]);
    }
  }

  lemma BelowFresh(v0: View, v: View, h: nat, done: set<nat>)
    requires Ranked(v0.l) && Ranked(v.l) && Larger(v0, v) && done <= v0.l.owner.Keys && Below(v0.l, h) !! done
    ensures Below(v.l, h) !! done
  {
    hide Under, Larger, Ranked;
    LargerKeys(v0, v);
    forall x | x in done ensures x !in Below(v.l, h) {
      UnderLarger(v0, v, v0.l.owner[x], h);
      assert x !in Below(v0.l, h);
    }
  }

  /** Nothing below a child of h is under way already. */
  lemma RecurseReady(v0: View, v: View, h: nat, disk: Disk, oldDisk: Disk, done: set<nat>, visited: set<nat>, bn: nat, i: nat, stack: seq<nat>)
    requires Walking(v0, v, h, disk, done, visited, bn, i, stack) && bn in v.m.bs && i < |v.m.bs[bn].entries| && Known(v.m, oldDisk, v.tr)
    requires !v.m.bs[bn].entries[i].tag.Sep? && v.m.bs[bn].entries[i].child.Some?
    requires done <= v0.l.owner.Keys && Below(v0.l, h) !! done
    ensures var c := v.m.bs[bn].entries[i].child.value;
            && c in v.m.hs && v.m.hs[c] in v.m.bs && ParentOf(v.l, v.m.hs[c]) == Some((bn, i))
            && v.m.hs[c] in v.tr && Size(v.tr[v.m.hs[c]]) < Size(v.tr[bn])
            && |v.tr[bn].items| == |v.m.bs[bn].entries| && v.tr[bn].items[i].sub == Some(v.tr[v.m.hs[c]])
            && Below(v.l, c) !! done + Reach(v.l, h, Steps(v.l, h, visited, bn, i))
  {
    hide Ranked, SepsOk, StepsOk, RootsOk, Inside, VisitedReady, EntriesReady, Image, Closed, Reach, Steps, Known, Size, Larger, Below, ParentOf;
    InsideOwned(v, h, visited, bn, i, stack);
    StepChild(v, bn, i);
    var c := v.m.bs[bn].entries[i].child.value;
    KidTree(v.m, oldDisk, v.tr, bn, i);
    KnownShape(v.m, oldDisk, v.tr, v.m.hs[c]);
    SubSmaller(v.tr[bn], i);
    StepsGrow(v.l, h, visited, bn, i, c);
    ChildDisjoint(v.l, h, c, Steps(v.l, h, visited, bn, i));
    BelowFresh(v0, v, h, done);
  }

  lemma InsideOwned(v: View, h: nat, visited: set<nat>, bn: nat, i: nat, stack: seq<nat>)
    requires Inside(v.m, v.l, h, visited, bn, i, stack)
    ensures bn in visited && bn in v.l.owner && v.l.owner[bn] == h && visited <= Owned(v.l, h)
    ensures forall b | b in visited :: b in v.l.owner && v.l.owner[b] == h
  {
    assert bn in Owned(v.l, h);
  }

  /** Work below a child c of h leaves the walk over h's own B+tree where it was. */
  lemma InsideKept(v: View, v2: View, h: nat, visited: set<nat>, bn: nat, i: nat, stack: seq<nat>, c: nat, off: nat)
    requires Inside(v.m, v.l, h, visited, bn, i, stack) && Rewritten(v, v2, c, Some((bn, i)), off)
    requires c in v.l.at && Up(v.l, c) == h && h in v.l.depth
    ensures Inside(v2.m, v2.l, h, visited, bn, i, stack)
    ensures forall x | x in visited :: x in v.m.bs && x in v2.m.bs && v2.m.bs[x] == Patch(v.m.bs[x], x, Some((bn, i)), off)
  {
    OwnedKept(v, v2, h, c, Some((bn, i)), off);
    RewrittenParts(v, v2, c, Some((bn, i)), off);
    forall x | x in visited ensures x in v.m.bs && x in v2.m.bs && v2.m.bs[x] == Patch(v.m.bs[x], x, Some((bn, i)), off) {
      assert x in Owned(v.l, h);
      hide Inside, Patch;
      OwnPatched(v, v2, h, c, Some((bn, i)), off, x);
    }
    hide Rewritten, Ranked;
    PatchedLength(v.m.bs[bn], bn, Some((bn, i)), off);
    InsideLarger(v, v2, h, visited, bn, i, stack);
  }

  lemma OwnedKept(v: View, v2: View, h: nat, c: nat, parent: Option<(nat, nat)>, off: nat)
    requires Rewritten(v, v2, c, parent, off) && c in v.l.at && Up(v.l, c) == h && h in v.l.depth
    ensures Owned(v2.l, h) == Owned(v.l, h)
  {
    LargerUp(v, v2, c);
    NotBelowChild(v2, h, c);
    hide Under, Ranked, Up;
  }

  lemma OwnPatched(v: View, v2: View, h: nat, c: nat, parent: Option<(nat, nat)>, off: nat, x: nat)
    requires Rewritten(v, v2, c, parent, off) && c in v.l.at && Up(v.l, c) == h && x in v.l.owner && v.l.owner[x] == h
    ensures x in v.m.bs && x in v2.m.bs && v2.m.bs[x] == Patch(v.m.bs[x], x, parent, off)
  {
    NotBelowChild(v, h, c);
    hide Under, Ranked, Up, Patch;
  }

  lemma PatchedLength(b: BNode, x: nat, parent: Option<(nat, nat)>, off: nat)
    ensures |Patch(b, x, parent, off).entries| == |b.entries|
  {
  }

  lemma InsideLarger(v: View, v2: View, h: nat, visited: set<nat>, bn: nat, i: nat, stack: seq<nat>)
    requires Inside(v.m, v.l, h, visited, bn, i, stack) && Larger(v, v2) && Owned(v2.l, h) == Owned(v.l, h)
    requires bn in v2.m.bs && |v2.m.bs[bn].entries| == |v.m.bs[bn].entries|
    ensures Inside(v2.m, v2.l, h, visited, bn, i, stack)
  {
    forall x | x in Owned(v.l, h) ensures x in v.l.owner { }
    hide Owned;
  }

  lemma NotBelowChild(v: View, h: nat, c: nat)
    requires Ranked(v.l) && c in v.l.at && Up(v.l, c) == h
    ensures h in v.l.depth && !Under(v.l, h, c)
  {
    if Under(v.l, h, c) { UnderDepth(v.l, h, c); }
  }

  lemma NewNotStep(v: View, v2: View, h: nat, visited: set<nat>, bn: nat, i: nat, c: nat, off: nat)
    requires Rewritten(v, v2, c, Some((bn, i)), off) && c in v.l.at && Up(v.l, c) == h
    requires forall b | b in visited :: b in v.l.owner && v.l.owner[b] == h
    ensures Steps(v2.l, h, visited, bn, i) == Steps(v.l, h, visited, bn, i)
  {
    NotBelowChild(v2, h, c);
    forall g | g in v2.l.at && g !in v.l.at ensures v2.l.at[g].0 !in visited {
      assert g in v2.l.depth && g !in v.l.depth;
      assert Under(v2.l, g, c) && g != c;
      assert Under(v2.l, Up(v2.l, g), c);
    }
  }

  lemma ReachStep(l: Layout, h: nat, proc: set<nat>, c: nat)
    requires Ranked(l) && c in l.at && Up(l, c) == h
    ensures Reach(l, h, proc + {c}) == Reach(l, h, proc) + Below(l, c)
  {
    hide Under, Top;
    forall x | x in l.owner
      ensures Under(l, l.owner[x], c) <==> l.owner[x] != h && Under(l, l.owner[x], h) && Top(l, l.owner[x], h) == c
    {
      InChild(l, h, c, l.owner[x]);
    }
  }

  lemma NewBelowChild(v: View, v2: View, h: nat, proc: set<nat>, c: nat, x: nat)
    requires Ranked(v2.l) && c in v2.l.at && Up(v2.l, c) == h && c !in proc
    requires x in v2.l.owner && Under(v2.l, v2.l.owner[x], c)
    ensures v2.l.owner[x] != h && Under(v2.l, v2.l.owner[x], h) && Top(v2.l, v2.l.owner[x], h) !in proc
  {
    hide Under, Top;
    InChild(v2.l, h, c, v2.l.owner[x]);
  }

  lemma ReachGrows(v: View, v2: View, h: nat, proc: set<nat>, c: nat, parent: Option<(nat, nat)>, off: nat)
    requires Rewritten(v, v2, c, parent, off) && c in v.l.at && Up(v.l, c) == h && c !in proc
    ensures Reach(v2.l, h, proc + {c}) == Reach(v.l, h, proc) + Below(v2.l, c)
  {
    LargerUp(v, v2, c);
    forall x | x in v2.l.owner && x !in v.l.owner
      ensures v2.l.owner[x] != h && Under(v2.l, v2.l.owner[x], h) && Top(v2.l, v2.l.owner[x], h) !in proc
    {
      NewBelowChild(v, v2, h, proc, c, x);
    }
    hide *;
    ReachLarger(v, v2, h, proc);
    ReachStep(v2.l, h, proc, c);
  }

  lemma LargerUp(v: View, v2: View, c: nat)
    requires Ranked(v.l) && Ranked(v2.l) && Larger(v, v2) && c in v.l.at
    ensures c in v2.l.at && v2.l.at[c] == v.l.at[c] && Up(v2.l, c) == Up(v.l, c)
  {
  }

  lemma StepsAreChildren(v: View, h: nat, visited: set<nat>, bn: nat, i: nat)
    requires Ranked(v.l) && forall b | b in visited :: b in v.l.owner && v.l.owner[b] == h
    ensures Steps(v.l, h, visited, bn, i) <= AllSteps(v.l, h)
  {
  }

  lemma VisitedKept(v: View, v2: View, disk: Disk, disk2: Disk, visited: set<nat>, bn: nat, i: nat, off: nat)
    requires VisitedReady(v, disk, visited - {bn}) && Extends(disk, disk2)
    requires forall x | x in visited :: x in v.m.bs && x in v2.m.bs && v2.m.bs[x] == Patch(v.m.bs[x], x, Some((bn, i)), off)
    requires forall b | b in v.tr :: b in v2.tr && v2.tr[b] == v.tr[b]
    ensures VisitedReady(v2, disk2, visited - {bn})
  {
    forall b | b in visited - {bn} ensures b in v2.tr && EntriesReady(v2.m, disk2, b, v2.tr[b], |v2.m.bs[b].entries|) {
      ReadyExtended(v.m, v2.m, disk, disk2, b, v.tr[b]);
    }
  }

  lemma EntriesPatched(m: Mem, m2: Mem, disk: Disk, disk2: Disk, bn: nat, t: Tree, i: nat, off: nat)
    requires EntriesReady(m, disk, bn, t, i) && Extends(disk, disk2) && i < |m.bs[bn].entries|
    requires bn in m2.bs && m2.bs[bn] == Patch(m.bs[bn], bn, Some((bn, i)), off)
    requires off != 0 && t.items[i].sub.Some? && Reads(disk2, off, t.items[i].sub.value) && m.bs[bn].entries[i].child.Some?
    ensures EntriesReady(m2, disk2, bn, t, i + 1)
  {
    hide Reads;
    forall j | 0 <= j < i + 1 ensures EntryReady(disk2, m2.bs[bn].entries[j], t.items[j]) {
      if j < i {
        var e := m.bs[bn].entries[j];
        assert EntryReady(disk, e, t.items[j]) && m2.bs[bn].entries[j] == e;
        if e.child.Some? && !e.tag.Sep? { ReadsExtended(disk, disk2, e.off, t.items[j].sub.value); }
      }
    }
  }

  /** After the recursive call for trie child c entry i is done. */
  lemma RecurseStep(v0: View, v: View, v2: View, h: nat, disk: Disk, disk2: Disk, done: set<nat>, visited: set<nat>,
                    bn: nat, i: nat, stack: seq<nat>, c: nat, off: nat)
    requires Walking(v0, v, h, disk, done, visited, bn, i, stack) && bn in v.m.bs && i < |v.m.bs[bn].entries|
    requires !v.m.bs[bn].entries[i].tag.Sep? && v.m.bs[bn].entries[i].child == Some(c)
    requires WellFormed(v2.m, v2.l) && Rewritten(v, v2, c, Some((bn, i)), off) && Extends(disk, disk2)
    requires i < |v.tr[bn].items| && v.tr[bn].items[i].sub.Some? && off != 0 && Reads(disk2, off, v.tr[bn].items[i].sub.value)
    requires Image(v2.m, disk2, done + Reach(v.l, h, Steps(v.l, h, visited, bn, i)) + Below(v2.l, c)) && Closed(disk2)
    ensures Walking(v0, v2, h, disk2, done, visited, bn, i + 1, stack)
    ensures Reach(v2.l, h, Steps(v2.l, h, visited, bn, i + 1)) == Reach(v.l, h, Steps(v.l, h, visited, bn, i)) + Below(v2.l, c)
  {
    hide Ranked, SepsOk, StepsOk, RootsOk, Within, Inside, VisitedReady, EntriesReady, Image, Closed, Reach, Steps, Reads, Extends, Patch, AllSteps, Below;
    hide Rewritten;
    InsideOwned(v, h, visited, bn, i, stack);
    StepChild(v, bn, i);
    RewrittenParts(v, v2, c, Some((bn, i)), off);
    InsideKept(v, v2, h, visited, bn, i, stack, c, off);
    LargerUp(v, v2, c);
    RewrittenWithin(v, v2, h, c, bn, i, off);
    WithinTwice(v0, v, v2, h);
    PatchedEntry(v, v2, bn, i, off);
    StepChild(v2, bn, i);
    PassEntry(v2.m, v2.l, h, visited, bn, i, stack);
    EntriesPatched(v.m, v2.m, disk, disk2, bn, v.tr[bn], i, off);
    VisitedKept(v, v2, disk, disk2, visited, bn, i, off);
    NewNotStep(v, v2, h, visited, bn, i, c, off);
    StepsGrow(v2.l, h, visited, bn, i, c);
    InsideOwned(v2, h, visited, bn, i, stack);
    StepsAreChildren(v2, h, visited, bn, i);
    ReachGrows(v, v2, h, Steps(v2.l, h, visited, bn, i), c, Some((bn, i)), off);
    assert done + Reach(v2.l, h, Steps(v2.l, h, visited, bn, i + 1))
        == done + Reach(v.l, h, Steps(v.l, h, visited, bn, i)) + Below(v2.l, c);
  }

  lemma RewrittenParts(v1: View, v2: View, c: nat, parent: Option<(nat, nat)>, off: nat)
    requires Rewritten(v1, v2, c, parent, off)
    ensures Larger(v1, v2) && Ranked(v1.l) && Ranked(v2.l)
    ensures forall b | b in v1.tr :: b in v2.tr && v2.tr[b] == v1.tr[b]
  {
  }

  lemma RewrittenWithin(v1: View, v2: View, h: nat, c: nat, bn: nat, i: nat, off: nat)
    requires Rewritten(v1, v2, c, Some((bn, i)), off) && c in v1.l.at && Up(v1.l, c) == h && v1.l.at[c] == (bn, i)
    ensures Within(v1, v2, h)
  {
    hide Larger, Ranked, Under;
    ChildWithin(v1, v2, h, c, bn, i, off);
  }

  lemma PatchedEntry(v: View, v2: View, bn: nat, i: nat, off: nat)
    requires bn in v.m.bs && bn in v2.m.bs && i < |v.m.bs[bn].entries| && v2.m.bs[bn] == Patch(v.m.bs[bn], bn, Some((bn, i)), off)
    ensures |v2.m.bs[bn].entries| == |v.m.bs[bn].entries|
    ensures v2.m.bs[bn].entries[i].tag == v.m.bs[bn].entries[i].tag && v2.m.bs[bn].entries[i].child == v.m.bs[bn].entries[i].child
  {
  }

  // ---------------------------------------------------------------- the methods

  /** bnode_entry_lazy_load_bnode_child, _hbtrie_child and _trie_child. */
  method LoadChild(db: Database, oldFile: PageFile, b: nat, i: nat, ghost v: View) returns (ghost v': View)
    requires db.mem == v.m && Sound(v, oldFile.nodes, db.next)
    requires b in db.mem.bs && i < |db.mem.bs[b].entries| && db.mem.bs[b].entries[i].child.None? && db.mem.bs[b].entries[i].off != 0
    modifies db`mem, db`next
    ensures CanLoad(v, b, i) && Unused(v, old(db.next)) && v.m.bs[b].entries[i].off in oldFile.nodes
    ensures v' == LoadView(v, b, i, oldFile.nodes[v.m.bs[b].entries[i].off], old(db.next))
    ensures db.mem == v'.m && Sound(v', oldFile.nodes, db.next)
  {
    hide WellFormed, Known, KeysBelow, Reads, Load, LoadLayout;
    OwnerKnown(v, b);
    KnownKeys(v, oldFile.nodes);
    LoadWellFormed(v.m, oldFile.nodes, v.l, v.tr, b, i, db.next);
    RecordThere(oldFile.nodes, db.mem.bs[b].entries[i].off, v.tr[b].items[i].sub.value);
    UnusedKey(v, db.next);
    v' := LoadView(v, b, i, oldFile.nodes[db.mem.bs[b].entries[i].off], db.next);
    db.mem := Load(db.mem, b, i, oldFile.nodes[db.mem.bs[b].entries[i].off], db.next);
    db.next := db.next + 1;
  }

  lemma OwnerKnown(v: View, b: nat)
    requires WellFormed(v.m, v.l) && b in v.m.bs
    ensures b in v.l.owner && v.l.owner[b] in v.l.depth
  {
  }

  lemma KnownKeys(v: View, disk: Disk)
    requires Known(v.m, disk, v.tr)
    ensures v.tr.Keys == v.m.bs.Keys
  {
  }

  lemma RecordThere(disk: Disk, off: nat, t: Tree)
    requires Reads(disk, off, t)
    ensures off in disk
  {
  }

  lemma WalkingAt(v0: View, v: View, h: nat, disk: Disk, done: set<nat>, visited: set<nat>, bn: nat, i: nat, stack: seq<nat>)
    requires Walking(v0, v, h, disk, done, visited, bn, i, stack)
    ensures bn in v.m.bs && bn in v.tr && i <= |v.m.bs[bn].entries| == |v.tr[bn].items| && bn in v.l.owner && v.l.owner[bn] == h
    ensures Ranked(v.l) && h in v.l.depth && Image(v.m, disk, done + Reach(v.l, h, Steps(v.l, h, visited, bn, i))) && Closed(disk)
    ensures forall c | c in stack :: c in v.m.bs
    ensures h in v.m.hs
  {
    hide VisitedReady, Image, Closed, Steps, Reach, SepsOk, StepsOk, RootsOk;
    InsideOwned(v, h, visited, bn, i, stack);
    forall c | c in stack ensures c in v.m.bs { assert c in Owned(v.l, h); }
  }

  /** The measure of the stack walk goes down by what entry i stood for. */
  lemma PushMeasure(v: View, oldDisk: Disk, bn: nat, i: nat, stack: seq<nat>)
    requires Known(v.m, oldDisk, v.tr) && bn in v.m.bs && i < |v.m.bs[bn].entries|
    requires v.m.bs[bn].entries[i].tag.Sep? && v.m.bs[bn].entries[i].child.Some?
    ensures bn in v.tr && |v.tr[bn].items| == |v.m.bs[bn].entries|
    ensures StackSize(stack + [v.m.bs[bn].entries[i].child.value], v.tr) + Sizes(v.tr[bn], i + 1) == StackSize(stack, v.tr) + Sizes(v.tr[bn], i)
  {
    hide Known, StackSize;
    KnownShape(v.m, oldDisk, v.tr, bn);
    KidTree(v.m, oldDisk, v.tr, bn, i);
    var c := v.m.bs[bn].entries[i].child.value;
    KnownShape(v.m, oldDisk, v.tr, c);
    StackPush(stack, v.tr, c);
  }

  lemma LargerStack(v: View, v2: View, oldDisk: Disk, stack: seq<nat>)
    requires Larger(v, v2) && Known(v.m, oldDisk, v.tr) && forall c | c in stack :: c in v.m.bs
    ensures StackSize(stack, v2.tr) == StackSize(stack, v.tr)
  {
    StackLarger(stack, v.tr, v2.tr);
  }

  lemma {:induction false} TreeAt(v: View, v2: View, b: nat)
    requires Larger(v, v2) && b in v.tr
    ensures b in v2.tr && v2.tr[b] == v.tr[b]
  {
  }

  /** Load the child of entry i if it is only on disk. */
  method EnsureLoaded(db: Database, oldFile: PageFile, h: nat, bn: nat, i: nat, stack: seq<nat>,
                      ghost v0: View, ghost v: View, ghost done: set<nat>, ghost visited: set<nat>, ghost disk: Disk)
    returns (ghost v': View)
    requires db.mem == v.m && Sound(v, oldFile.nodes, db.next)
    requires Walking(v0, v, h, disk, done, visited, bn, i, stack) && bn in v.m.bs && i < |v.m.bs[bn].entries| && bn in v.tr
    requires Ranked(v0.l) && Ranked(v.l) && done <= v0.l.owner.Keys && Below(v0.l, h) !! done
    modifies db`mem, db`next
    ensures db.mem == v'.m && Sound(v', oldFile.nodes, db.next) && Walking(v0, v', h, disk, done, visited, bn, i, stack) && Ranked(v'.l)
    ensures Reach(v'.l, h, Steps(v'.l, h, visited, bn, i)) == Reach(v.l, h, Steps(v.l, h, visited, bn, i))
    ensures bn in v'.m.bs && |v'.m.bs[bn].entries| == |v.m.bs[bn].entries| && bn in v'.tr && v'.tr[bn] == v.tr[bn]
    ensures StackSize(stack, v'.tr) == StackSize(stack, v.tr)
    ensures v'.m.bs[bn].entries[i].child.None? ==> v'.m.bs[bn].entries[i].off == 0
  {
    hide *;
    v' := v;
    SoundParts(v, oldFile.nodes, db.next);
    WalkingAt(v0, v, h, disk, done, visited, bn, i, stack);
    HereNotDone(v0, v, h, disk, done, visited, bn, i, stack);
    var e := db.mem.bs[bn].entries[i];
    if e.child.None? && e.off != 0 {
      ghost var k := db.next;
      v' := LoadChild(db, oldFile, bn, i, v);
      SoundParts(v', oldFile.nodes, db.next);
      LoadedStep(v0, v, h, disk, done, visited, bn, i, stack, oldFile.nodes[e.off], k);
      LoadLarger(v, bn, i, oldFile.nodes[e.off], k);
      LargerStack(v, v', oldFile.nodes, stack);
      TreeAt(v, v', bn);
      LoadViewShape(v, bn, i, oldFile.nodes[e.off], k);
      LoadedEntry(v, bn, i, oldFile.nodes[e.off], k);
    }
  }

  /** One turn of the inner loop: load the entry's child if it is only on disk, then push it
      (separator) or rewrite everything below it (trie child). */
  method VacuumEntry(db: Database, file: PageFile, oldFile: PageFile, h: nat, bn: nat, i: nat, stack: seq<nat>,
                     ghost v0: View, ghost v: View, ghost done: set<nat>, ghost visited: set<nat>)
    returns (ok: bool, stack': seq<nat>, ghost v': View)
    requires file != oldFile && file.Valid() && db.mem == v.m && Sound(v, oldFile.nodes, db.next)
    requires Walking(v0, v, h, file.nodes, done, visited, bn, i, stack) && bn in v.m.bs && i < |v.m.bs[bn].entries| && bn in v.tr
    requires Ranked(v0.l) && done <= v0.l.owner.Keys && Below(v0.l, h) !! done && i < |v.tr[bn].items|
    requires Ranked(v.l) && db.dirtyB !! done + Reach(v.l, h, Steps(v.l, h, visited, bn, i))
    modifies db`mem, db`next, db`dirtyB, file
    ensures file.Valid() && file.superRoot == old(file.superRoot)
    ensures ok ==> db.mem == v'.m && Sound(v', oldFile.nodes, db.next) && Extends(old(file.nodes), file.nodes)
    ensures ok ==> Walking(v0, v', h, file.nodes, done, visited, bn, i + 1, stack') && Ranked(v'.l) && db.dirtyB <= old(db.dirtyB)
    ensures ok ==> db.dirtyB !! done + Reach(v'.l, h, Steps(v'.l, h, visited, bn, i + 1))
    ensures ok ==> bn in v'.tr && v'.tr[bn] == v.tr[bn]
    ensures ok ==> StackSize(stack', v'.tr) + Sizes(v.tr[bn], i + 1) <= StackSize(stack, v.tr) + Sizes(v.tr[bn], i)
    ensures !ok ==> file.Full()
    decreases Size(v.tr[bn]), 0
  {
    hide *;
    ghost var disk := file.nodes;
    SoundParts(v, oldFile.nodes, db.next);
    WalkingAt(v0, v, h, disk, done, visited, bn, i, stack);
    StartWriting(v.m, disk);
    WritingParts(v.m, v.m, disk, disk, {});
    stack' := stack;
    v' := v;
    v' := EnsureLoaded(db, oldFile, h, bn, i, stack, v0, v, done, visited, disk);
    SoundParts(v', oldFile.nodes, db.next);
    var e := db.mem.bs[bn].entries[i];
    if e.child.None? {
      PassStep(v0, v', h, disk, done, visited, bn, i, stack);
      SizesDown(v.tr[bn], i);
      return true, stack', v';
    }
    if e.tag.Sep? {
      PushMeasure(v', oldFile.nodes, bn, i, stack);
      PushStep(v0, v', h, disk, done, visited, bn, i, stack);
      return true, stack + [e.child.value], v';
    }
    ghost var v1 := v';
    WalkingAt(v0, v1, h, disk, done, visited, bn, i, stack);
    RecurseReady(v0, v1, h, disk, oldFile.nodes, done, visited, bn, i, stack);
    HereNotDone(v0, v1, h, disk, done, visited, bn, i, stack);
    ghost var r := v1.m.hs[e.child.value];
    ok, v' := VacuumHb(db, file, oldFile, e.child.value, Some((bn, i)), v1, done + Reach(v1.l, h, Steps(v1.l, h, visited, bn, i)));
    if !ok {
      return;
    }
    SoundParts(v', oldFile.nodes, db.next);
    RewrittenParts(v1, v', e.child.value, Some((bn, i)), db.mem.bs[r].off);
    TreeAt(v1, v', r);
    RecurseStep(v0, v1, v', h, disk, file.nodes, done, visited, bn, i, stack, e.child.value, db.mem.bs[r].off);
    LargerStack(v1, v', oldFile.nodes, stack);
    TreeAt(v1, v', bn);
    SizesDown(v.tr[bn], i);
  }

  lemma SizesDown(t: Tree, i: nat)
    requires i < |t.items|
    ensures Sizes(t, i + 1) <= Sizes(t, i)
  {
  }

  lemma LoadedEntry(v: View, bn: nat, i: nat, rec: Record, k: nat)
    requires CanLoad(v, bn, i) && Unused(v, k)
    ensures bn in LoadView(v, bn, i, rec, k).m.bs && i < |LoadView(v, bn, i, rec, k).m.bs[bn].entries|
    ensures LoadView(v, bn, i, rec, k).m.bs[bn].entries[i].child == Some(k)
  {
  }

  lemma SoundParts(v: View, disk: Disk, next: nat)
    requires Sound(v, disk, next)
    ensures WellFormed(v.m, v.l) && Known(v.m, disk, v.tr) && v.m.bs.Keys == v.tr.Keys && Ranked(v.l) && v.m.bs.Keys == v.l.owner.Keys
  {
  }

  // ---------------------------------------------------------------- between two bnodes

  ghost predicate Between(v0: View, v: View, h: nat, disk: Disk, done: set<nat>, visited: set<nat>, stack: seq<nat>) {
    && WellFormed(v.m, v.l) && Within(v0, v, h) && AtHead(v.m, v.l, h, visited, stack) && VisitedReady(v, disk, visited)
    && Image(v.m, disk, done + Reach(v.l, h, VisitedSteps(v.l, visited))) && Closed(disk)
  }

  lemma BetweenStart(v: View, h: nat, disk: Disk, done: set<nat>)
    requires WellFormed(v.m, v.l) && h in v.m.hs && Image(v.m, disk, done) && Closed(disk)
    ensures Between(v, v, h, disk, done, {}, [v.m.hs[h]])
    ensures Ranked(v.l) && Reach(v.l, h, VisitedSteps(v.l, {})) == {}
  {
    hide Ranked, SepsOk, StepsOk, RootsOk, Within, AtHead, Image, Closed, Under, Top;
    StartWalk(v.m, v.l, h);
    WithinSelf(v, h);
    assert VisitedSteps(v.l, {}) == {};
    assert Reach(v.l, h, {}) == {} by { RankedOf(v); }
    assert done + {} == done;
  }

  lemma BetweenPop(v0: View, v: View, oldDisk: Disk, h: nat, disk: Disk, done: set<nat>, visited: set<nat>, stack: seq<nat>)
    requires Between(v0, v, h, disk, done, visited, stack) && stack != [] && Known(v.m, oldDisk, v.tr)
    ensures stack[|stack| - 1] in v.tr
    ensures Walking(v0, v, h, disk, done, visited + {stack[|stack| - 1]}, stack[|stack| - 1], 0, stack[..|stack| - 1])
    ensures StackSize(stack[..|stack| - 1], v.tr) + Sizes(v.tr[stack[|stack| - 1]], 0) < StackSize(stack, v.tr)
    ensures Ranked(v.l) && Steps(v.l, h, visited + {stack[|stack| - 1]}, stack[|stack| - 1], 0) == VisitedSteps(v.l, visited)
  {
    hide Ranked, SepsOk, StepsOk, RootsOk, Within, AtHead, Inside, Image, Closed, Known, Reach, VisitedReady, EntriesReady, Steps, VisitedSteps, Sizes;
    var b := stack[|stack| - 1];
    RankedOf(v);
    PopBnode(v.m, v.l, h, visited, stack);
    KnownShape(v.m, oldDisk, v.tr, b);
    NothingReady(v, disk, b);
    StepsAtStart(v.l, h, visited, b);
    assert visited + {b} - {b} == visited;
    assert StackSize(stack, v.tr) == StackSize(stack[..|stack| - 1], v.tr) + Size(v.tr[b]);
  }

  lemma NothingReady(v: View, disk: Disk, b: nat)
    requires b in v.m.bs && b in v.tr && |v.m.bs[b].entries| == |v.tr[b].items|
    ensures EntriesReady(v.m, disk, b, v.tr[b], 0)
  {
  }

  lemma StepsAtStart(l: Layout, h: nat, visited: set<nat>, b: nat)
    requires b !in visited
    ensures Steps(l, h, visited + {b}, b, 0) == VisitedSteps(l, visited)
  {
  }

  lemma StepsAtEnd(v: View, h: nat, visited: set<nat>, b: nat)
    requires StepsOk(v.m, v.l) && b in v.m.bs
    ensures Steps(v.l, h, visited, b, |v.m.bs[b].entries|) == VisitedSteps(v.l, visited)
  {
  }

  lemma BetweenAgain(v0: View, v: View, h: nat, disk: Disk, done: set<nat>, visited: set<nat>, b: nat, stack: seq<nat>)
    requires b in v.m.bs && Walking(v0, v, h, disk, done, visited, b, |v.m.bs[b].entries|, stack)
    ensures Between(v0, v, h, disk, done, visited, stack)
    ensures Ranked(v.l) && Steps(v.l, h, visited, b, |v.m.bs[b].entries|) == VisitedSteps(v.l, visited)
  {
    hide Ranked, SepsOk, StepsOk, RootsOk, Within, AtHead, Inside, Image, Closed, Reach, EntriesReady, Steps, VisitedSteps;
    LeaveBnode(v.m, v.l, h, visited, b, stack);
    StepsAtEnd(v, h, visited, b);
  }

  // ---------------------------------------------------------------- from phase 1 to phase 2

  lemma SubBIsOwned(v: View, h: nat)
    requires WellFormed(v.m, v.l) && h in v.m.hs
    ensures v.m.hs[h] in v.m.bs && SubB(v.l, v.m.hs[h]) == Owned(v.l, h)
  {
    hide SepsOk, StepsOk;
    forall x | x in v.l.owner ensures UnderB(v.l, x, v.m.hs[h]) <==> v.l.owner[x] == h {
      if UnderB(v.l, x, v.m.hs[h]) { UnderBLevel(v.l, x, v.m.hs[h]); }
      if v.l.owner[x] == h { UnderTreeRoot(v.m, v.l, x); }
    }
  }

  lemma BelowIs(v: View, h: nat)
    requires WellFormed(v.m, v.l) && h in v.m.hs
    ensures Below(v.l, h) == Reach(v.l, h, VisitedSteps(v.l, Owned(v.l, h))) + Owned(v.l, h)
    ensures Owned(v.l, h) !! Reach(v.l, h, VisitedSteps(v.l, Owned(v.l, h)))
  {
    hide SepsOk, StepsOk, RootsOk, Under, Top;
    RankedOf(v);
    forall x | x in v.l.owner && v.l.owner[x] != h && Under(v.l, v.l.owner[x], h)
      ensures Top(v.l, v.l.owner[x], h) in VisitedSteps(v.l, Owned(v.l, h))
    {
      var c := Top(v.l, v.l.owner[x], h);
      assert v.l.at[c].0 in Owned(v.l, h);
    }
    forall x | x in v.l.owner && v.l.owner[x] == h ensures Under(v.l, h, h) { SelfUnder(v.l, h); }
  }

  lemma ReadyForPhase2(v0: View, v: View, h: nat, disk: Disk, done: set<nat>, visited: set<nat>)
    requires Between(v0, v, h, disk, done, visited, []) && Ranked(v0.l) && h in v0.m.hs && h in v.m.hs && v0.m.hs[h] == v.m.hs[h]
    requires done <= v0.l.owner.Keys && Below(v0.l, h) !! done && v0.m.hs[h] in v0.l.owner
    requires v0.l.owner[v0.m.hs[h]] == h
    ensures visited == Owned(v.l, h) && v.m.hs[h] in v.m.bs
    ensures TreeReady(v.m, v.l, disk, v.tr, v.m.hs[h])
    ensures SubB(v.l, v.m.hs[h]) == Owned(v.l, h) && Owned(v.l, h) !! done + Reach(v.l, h, VisitedSteps(v.l, visited))
    ensures done + Reach(v.l, h, VisitedSteps(v.l, visited)) + Owned(v.l, h) == done + Below(v.l, h)
    ensures ParentOf(v.l, v.m.hs[h]) == ParentOf(v0.l, v0.m.hs[h])
  {
    hide SepsOk, StepsOk, RootsOk, Larger, Ranked, AtHead, Image, Closed, Reach, Below, VisitedSteps, SubB, Owned, EntriesReady, ParentOf, UnderB;
    WholeTree(v.m, v.l, h, visited);
    SubBIsOwned(v, h);
    BelowIs(v, h);
    BelowFresh(v0, v, h, done);
    SameParent(v0, v, h);
    VisitedIsTree(v, disk, visited, v.m.hs[h]);
  }

  lemma VisitedIsTree(v: View, disk: Disk, visited: set<nat>, r: nat)
    requires Ranked(v.l) && VisitedReady(v, disk, visited) && SubB(v.l, r) == visited
    ensures TreeReady(v.m, v.l, disk, v.tr, r)
  {
    forall x | x in v.l.owner && UnderB(v.l, x, r) ensures x in visited { assert x in SubB(v.l, r); }
  }

  lemma SameParent(v0: View, v: View, h: nat)
    requires Larger(v0, v) && Ranked(v0.l) && Ranked(v.l) && h in v0.m.hs && h in v.m.hs && v0.m.hs[h] == v.m.hs[h]
    requires v0.m.hs[h] in v0.l.owner && v0.l.owner[v0.m.hs[h]] == h
    ensures ParentOf(v.l, v.m.hs[h]) == ParentOf(v0.l, v0.m.hs[h])
  {
  }

  /** Phase 2 only repoints, so together the two phases rewrote what is below h. */
  lemma RewrittenBoth(v0: View, v: View, m2: Mem, h: nat, r: nat, parent: Option<(nat, nat)>)
    requires Within(v0, v, h) && r in v.l.owner && v.l.owner[r] == h && h in v.l.depth && OnlyBelowB(v.m, m2, v.l, r, parent) && m2.hs == v.m.hs
    ensures Rewritten(v0, View(m2, v.l, v.tr), h, parent, m2.bs[r].off)
  {
    hide Under, UnderB, Patch;
    SelfUnder(v.l, h);
    LargerMem(v0, v, m2);
    hide Larger, Ranked;
    forall x | x in v0.l.owner && !Under(v0.l, v0.l.owner[x], h) ensures m2.bs[x] == Patch(v0.m.bs[x], x, parent, m2.bs[r].off) {
      OutsideTree(v0, v, h, r, x);
    }
  }

  lemma LargerMem(v0: View, v: View, m2: Mem)
    requires Larger(v0, v) && m2.hs == v.m.hs && m2.bs.Keys == v.m.bs.Keys
    ensures Larger(v0, View(m2, v.l, v.tr))
    ensures forall x | x in v0.l.owner :: x in v.l.owner
  {
  }

  lemma OutsideTree(v0: View, v: View, h: nat, r: nat, x: nat)
    requires Ranked(v0.l) && Ranked(v.l) && Larger(v0, v) && x in v0.l.owner && !Under(v0.l, v0.l.owner[x], h)
    requires r in v.l.owner && v.l.owner[r] == h
    ensures x in v.l.owner && !UnderB(v.l, x, r)
  {
    SelfUnder(v0.l, v0.l.owner[x]);
    if UnderB(v.l, x, r) { UnderBLevel(v.l, x, r); }
  }

  lemma BetweenParts(v0: View, v: View, h: nat, disk: Disk, done: set<nat>, visited: set<nat>, stack: seq<nat>)
    requires Between(v0, v, h, disk, done, visited, stack)
    ensures Within(v0, v, h) && Larger(v0, v) && Ranked(v.l) && Closed(disk)
    ensures Image(v.m, disk, done + Reach(v.l, h, VisitedSteps(v.l, visited)))
  {
  }

  lemma RootKept(v0: View, v: View, h: nat)
    requires Larger(v0, v) && WellFormed(v0.m, v0.l) && h in v0.m.hs
    ensures h in v.m.hs && v.m.hs[h] == v0.m.hs[h] && v.m.hs[h] in v.m.bs && v0.m.hs[h] in v0.l.owner && v0.l.owner[v0.m.hs[h]] == h
    ensures v0.m.hs[h] in v.l.owner && v.l.owner[v0.m.hs[h]] == h && h in v0.l.depth && h in v.l.depth
    ensures v0.m.hs[h] in v0.tr ==> v.m.hs[h] in v.tr && v.tr[v.m.hs[h]] == v0.tr[v0.m.hs[h]]
  {
  }

  /** The inner loop over the entries of one bnode. */
  method VacuumEntries(db: Database, file: PageFile, oldFile: PageFile, h: nat, bn: nat, stack: seq<nat>,
                       ghost v0: View, ghost v: View, ghost done: set<nat>, ghost visited: set<nat>)
    returns (ok: bool, stack': seq<nat>, ghost v': View)
    requires file != oldFile && file.Valid() && db.mem == v.m && Sound(v, oldFile.nodes, db.next)
    requires Walking(v0, v, h, file.nodes, done, visited, bn, 0, stack) && bn in v.tr
    requires Ranked(v.l) && db.dirtyB !! done + Reach(v.l, h, Steps(v.l, h, visited, bn, 0))
    requires Ranked(v0.l) && done <= v0.l.owner.Keys && Below(v0.l, h) !! done
    modifies db`mem, db`next, db`dirtyB, file
    ensures file.Valid() && file.superRoot == old(file.superRoot)
    ensures ok ==> db.mem == v'.m && Sound(v', oldFile.nodes, db.next) && Extends(old(file.nodes), file.nodes)
    ensures ok ==> Between(v0, v', h, file.nodes, done, visited, stack') && Ranked(v'.l) && db.dirtyB <= old(db.dirtyB)
    ensures ok ==> db.dirtyB !! done + Reach(v'.l, h, VisitedSteps(v'.l, visited))
    ensures ok ==> StackSize(stack', v'.tr) <= StackSize(stack, v.tr) + Sizes(v.tr[bn], 0)
    ensures !ok ==> file.Full()
    decreases Size(v.tr[bn]), 1
  {
    hide *;
    ghost var disk, t := file.nodes, v.tr[bn];
    WalkingAt(v0, v, h, disk, done, visited, bn, 0, stack);
    StartWriting(v.m, disk);
    WritingParts(v.m, v.m, disk, disk, {});
    stack', v', ok := stack, v, true;
    var i: nat := 0;
    while i < |db.mem.bs[bn].entries|
      invariant bn in db.mem.bs && i <= |db.mem.bs[bn].entries| == |t.items|
      invariant file.Valid() && file.superRoot == old(file.superRoot) && Extends(disk, file.nodes)
      invariant db.mem == v'.m && Sound(v', oldFile.nodes, db.next) && bn in v'.tr && v'.tr[bn] == t
      invariant Walking(v0, v', h, file.nodes, done, visited, bn, i, stack') && Ranked(v'.l) && db.dirtyB <= old(db.dirtyB)
      invariant db.dirtyB !! done + Reach(v'.l, h, Steps(v'.l, h, visited, bn, i))
      invariant StackSize(stack', v'.tr) + Sizes(t, i) <= StackSize(stack, v.tr) + Sizes(t, 0)
      decreases |t.items| - i
    {
      ghost var disk1, v1 := file.nodes, v';
      ok, stack', v' := VacuumEntry(db, file, oldFile, h, bn, i, stack', v0, v', done, visited);
      if !ok {
        return;
      }
      ExtendsTwice(disk, disk1, file.nodes);
      i := i + 1;
      WalkingAt(v0, v', h, file.nodes, done, visited, bn, i, stack');
    }
    BetweenAgain(v0, v', h, file.nodes, done, visited, bn, stack');
    return true, stack', v';
  }

  lemma ExtendsTwice(d0: Disk, d1: Disk, d2: Disk)
    requires Extends(d0, d1) && Extends(d1, d2)
    ensures Extends(d0, d2)
  {
  }

  /** database_vacuum_walk_hbnode: rewrite everything below h into the new file. */
  method VacuumHb(db: Database, file: PageFile, oldFile: PageFile, h: nat, parent: Option<(nat, nat)>,
                  ghost v0: View, ghost done: set<nat>)
    returns (ok: bool, ghost v: View)
    requires file != oldFile && file.Valid() && db.mem == v0.m && Sound(v0, oldFile.nodes, db.next)
    requires h in db.mem.hs && db.mem.hs[h] in v0.tr && parent == ParentOf(v0.l, db.mem.hs[h])
    requires Image(db.mem, file.nodes, done) && Closed(file.nodes) && Ranked(v0.l) && Below(v0.l, h) !! done
    requires db.dirtyB !! done && (parent.Some? ==> parent.value.0 !in done)
    modifies db`mem, db`next, db`dirtyB, file
    ensures file.Valid() && file.superRoot == old(file.superRoot)
    ensures ok ==> db.mem == v.m && Sound(v, oldFile.nodes, db.next) && Extends(old(file.nodes), file.nodes)
    ensures ok ==> h in db.mem.hs && db.mem.hs[h] == v0.m.hs[h] && db.mem.hs[h] in db.mem.bs
    ensures ok ==> db.mem.bs[db.mem.hs[h]].off != 0 && Reads(file.nodes, db.mem.bs[db.mem.hs[h]].off, v0.tr[db.mem.hs[h]])
    ensures ok ==> Rewritten(v0, v, h, parent, db.mem.bs[db.mem.hs[h]].off)
    ensures ok ==> Ranked(v.l) && Image(db.mem, file.nodes, done + Below(v.l, h)) && Closed(file.nodes)
    ensures ok ==> db.dirtyB !! done + Below(v.l, h) && db.dirtyB <= old(db.dirtyB)
    ensures !ok ==> file.Full()
    decreases Size(v0.tr[v0.m.hs[h]]), 2
  {
    hide *;
    ghost var disk0, m0 := file.nodes, db.mem;
    SoundParts(v0, oldFile.nodes, db.next);
    ImageKeys(m0, disk0, done);
    StartWriting(m0, disk0);
    WritingParts(m0, m0, disk0, disk0, {});
    BetweenStart(v0, h, disk0, done);
    var stack := [db.mem.hs[h]];
    ghost var visited: set<nat> := {};
    v := v0;
    while stack != []
      invariant file.Valid() && file.superRoot == old(file.superRoot) && Extends(disk0, file.nodes)
      invariant db.mem == v.m && Sound(v, oldFile.nodes, db.next)
      invariant Between(v0, v, h, file.nodes, done, visited, stack) && Ranked(v.l) && db.dirtyB <= old(db.dirtyB)
      invariant db.dirtyB !! done + Reach(v.l, h, VisitedSteps(v.l, visited))
      decreases StackSize(stack, v.tr)
    {
      var bn := stack[|stack| - 1];
      ghost var disk1, v1 := file.nodes, v;
      SoundParts(v, oldFile.nodes, db.next);
      BetweenPop(v0, v, oldFile.nodes, h, disk1, done, visited, stack);
      BnodeSmaller(v0, v, oldFile.nodes, h, disk1, done, visited + {bn}, bn, stack[..|stack| - 1]);
      visited := visited + {bn};
      ok, stack, v := VacuumEntries(db, file, oldFile, h, bn, stack[..|stack| - 1], v0, v, done, visited);
      if !ok {
        return;
      }
      ExtendsTwice(disk0, disk1, file.nodes);
    }
    ghost var v1, disk1 := v, file.nodes;
    SoundParts(v1, oldFile.nodes, db.next);
    BetweenParts(v0, v1, h, disk1, done, visited, []);
    RootKept(v0, v1, h);
    ReadyForPhase2(v0, v1, h, disk1, done, visited);
    if parent.Some? { ParentNotReached(v1, h, VisitedSteps(v1.l, visited)); }
    ok := VacuumBnode(db, file, db.mem.hs[h], parent, v1.l, v1.tr, oldFile.nodes, done + Reach(v1.l, h, VisitedSteps(v1.l, visited)));
    if !ok {
      return;
    }
    v := View(db.mem, v1.l, v1.tr);
    SoundRepointed(v1, db.mem, oldFile.nodes, db.next);
    RewrittenBoth(v0, v1, db.mem, h, db.mem.hs[h], parent);
    ExtendsTwice(disk0, disk1, file.nodes);
  }

  lemma BnodeSmaller(v0: View, v: View, oldDisk: Disk, h: nat, disk: Disk, done: set<nat>, visited: set<nat>, bn: nat, stack: seq<nat>)
    requires Walking(v0, v, h, disk, done, visited, bn, 0, stack) && Known(v.m, oldDisk, v.tr) && WellFormed(v0.m, v0.l) && h in v0.m.hs && v0.m.hs[h] in v0.tr
    ensures bn in v.tr && Size(v.tr[bn]) <= Size(v0.tr[v0.m.hs[h]])
  {
    hide Ranked, SepsOk, StepsOk, RootsOk, Known, Size, Image, Closed, VisitedReady, EntriesReady, Reach, Steps, Inside, Larger;
    WalkingAt(v0, v, h, disk, done, visited, bn, 0, stack);
    OwnedSize(v, oldDisk, bn);
    RootKept(v0, v, h);
  }

  lemma SoundRepointed(v: View, m2: Mem, disk: Disk, next: nat)
    requires Sound(v, disk, next) && Repointed(v.m, m2)
    ensures Sound(View(m2, v.l, v.tr), disk, next) && m2.hs == v.m.hs
  {
    hide WellFormed, Known, KeysBelow;
    WellFormedRepointed(v.m, m2, v.l);
    KnownRepointed(v.m, m2, disk, v.tr);
  }

  // ---------------------------------------------------------------- the whole rewrite

  /** Every loaded bnode has a meaning, found by walking down from the root. */
  lemma {:induction false} MeaningOf(m: Mem, disk: Disk, l: Layout, root: Tree, b: nat) returns (t: Tree)
    requires WellFormed(m, l) && Means(m, disk, m.hs[l.root], root) && LevelsOk(root) && b in m.bs
    ensures Means(m, disk, b, t) && LevelsOk(t)
    decreases l.depth[l.owner[b]], LEVELS - l.level[b]
  {
    if ParentOf(l, b).None? {
      assert b == m.hs[l.root];
      t := root;
    } else {
      var (p, i) := ParentOf(l, b).value;
      Hangs(m, l, b);
      var u := MeaningOf(m, disk, l, root, p);
      t := u.items[i].sub.value;
      assert Kid(m, m.bs[p].entries[i]) == Some(b);
    }
  }

  lemma AllMeanings(m: Mem, disk: Disk, l: Layout, root: Tree) returns (tr: map<nat, Tree>)
    requires WellFormed(m, l) && Means(m, disk, m.hs[l.root], root) && LevelsOk(root)
    ensures Known(m, disk, tr) && m.hs[l.root] in m.bs && tr[m.hs[l.root]] == root
  {
    hide Means, LevelsOk, WellFormed, ParentOf;
    RootParts(m, l);
    forall b | b in m.bs ensures exists t :: Means(m, disk, b, t) && LevelsOk(t) {
      var t := MeaningOf(m, disk, l, root, b);
    }
    tr := map b | b in m.bs :: var t :| Means(m, disk, b, t) && LevelsOk(t); t;
    var r := m.hs[l.root];
    MeansUnique(m, disk, r, tr[r], root);
  }

  /** Everything loaded hangs below the root. */
  lemma AllBelow(v: View)
    requires WellFormed(v.m, v.l)
    ensures Below(v.l, v.l.root) == v.m.bs.Keys
  {
    forall b | b in v.l.owner ensures Under(v.l, v.l.owner[b], v.l.root) { UnderRoot(v.l, v.l.owner[b]); }
  }

  lemma RootParts(m: Mem, l: Layout)
    requires WellFormed(m, l)
    ensures Ranked(l) && l.root in m.hs && m.hs[l.root] in m.bs && ParentOf(l, m.hs[l.root]) == None
  {
  }

  lemma EmptyImage(m: Mem)
    ensures Image(m, map[], {}) && Closed(map[])
  {
  }

  /** database_vacuum_rewrite. On success the new file opens to what memory means (and so to what
      the old file holds, since the old file is not touched); it holds the record of every bnode
      of the trie once and no other, each after its children; no bnode is left dirty; and memory
      means the same, and is in step, with the new file in the place of the old one. */
  method VacuumRewrite(db: Database, oldFile: PageFile, firstFree: nat, failAfter: nat, ghost l: Layout, ghost t: Tree)
    returns (ok: bool, file: PageFile, ghost l': Layout)
    requires WellFormed(db.mem, l) && db.root == l.root && 0 < firstFree && KeysBelow(l, db.next)
    requires Means(db.mem, oldFile.nodes, db.mem.hs[l.root], t) && LevelsOk(t) && db.dirtyB <= db.mem.bs.Keys
    modifies db`mem, db`next, db`dirtyB
    ensures fresh(file) && file.Valid()
    ensures ok ==> Opens(file.nodes, file.superRoot, t)
    ensures ok ==> Image(db.mem, file.nodes, db.mem.bs.Keys) && Closed(file.nodes) && db.dirtyB == {}
    ensures ok ==> old(db.mem).bs.Keys <= db.mem.bs.Keys && db.root in db.mem.hs
    ensures ok ==> db.mem.hs[db.root] in db.mem.bs && Means(db.mem, oldFile.nodes, db.mem.hs[db.root], t)
    ensures ok ==> WellFormed(db.mem, l') && l'.root == l.root && KeysBelow(l', db.next)
    ensures ok ==> Means(db.mem, file.nodes, db.mem.hs[db.root], t) && Settled(db.mem, file.nodes, l', {})
    ensures !ok ==> file.superRoot == 0 && file.Full()
  {
    hide *;
    l' := l;
    file := new PageFile(oldFile.chunkSize, firstFree, failAfter);
    ghost var tr := AllMeanings(db.mem, oldFile.nodes, l, t);
    RootParts(db.mem, l);
    ghost var v0 := View(db.mem, l, tr);
    MakeSound(db.mem, l, tr, oldFile.nodes, db.next);
    SoundParts(v0, oldFile.nodes, db.next);
    EmptyImage(db.mem);
    ghost var v: View;
    ok, v := VacuumHb(db, file, oldFile, db.root, None, v0, {});
    if !ok {
      return;
    }
    var rootOff := db.mem.bs[db.mem.hs[db.root]].off;
    RewrittenParts(v0, v, db.root, None, rootOff);
    SameRoot(v0, v);
    SoundParts(v, oldFile.nodes, db.next);
    AllBelow(v);
    AllBelow(v0);
    assert {} + Below(v.l, v.l.root) == v.m.bs.Keys;
    KnownAt(v, oldFile.nodes, db.mem.hs[db.root]);
    assert db.dirtyB == {};
    l' := v.l;
    NextOf(v, oldFile.nodes, db.next);
    ImageSettled(v.m, file.nodes, v.l);
    MeansLoaded(v.m, oldFile.nodes, file.nodes, file.nodes, db.mem.hs[db.root], t);
    ok := file.WriteSuperblock(rootOff);
    if ok { OpensAt(file.nodes, rootOff, t); }
  }

  lemma NextOf(v: View, disk: Disk, next: nat)
    requires Sound(v, disk, next)
    ensures KeysBelow(v.l, next)
  {
  }

  /** When everything is in the new file, memory is in step with it. */
  lemma ImageSettled(m: Mem, disk: Disk, l: Layout)
    requires Image(m, disk, m.bs.Keys)
    ensures Settled(m, disk, l, {})
  {
    hide Mirrors, AllLoaded, Kid;
    forall b | b in m.bs ensures Stored(m, disk, l, b) { assert b in m.bs.Keys; }
  }

  /** With everything loaded, what memory means does not depend on a file. */
  lemma {:induction false} MeansLoaded(m: Mem, disk: Disk, disk': Disk, image: Disk, b: nat, t: Tree)
    requires Image(m, image, m.bs.Keys) && Means(m, disk, b, t)
    ensures Means(m, disk', b, t)
    decreases t
  {
    hide Image;
    NothingUnloaded(m, image, b);
    forall i | 0 <= i < |t.items| && m.bs[b].entries[i].child.Some?
      ensures Means(m, disk', Kid(m, m.bs[b].entries[i]).value, t.items[i].sub.value)
    {
      MeansLoaded(m, disk, disk', image, Kid(m, m.bs[b].entries[i]).value, t.items[i].sub.value);
    }
  }

  lemma NothingUnloaded(m: Mem, image: Disk, b: nat)
    requires Image(m, image, m.bs.Keys) && b in m.bs
    ensures forall i | 0 <= i < |m.bs[b].entries| && m.bs[b].entries[i].child.None? :: m.bs[b].entries[i].off == 0
  {
    assert b in m.bs.Keys && AllLoaded(m.bs[b]);
  }

  lemma MakeSound(m: Mem, l: Layout, tr: map<nat, Tree>, disk: Disk, next: nat)
    requires WellFormed(m, l) && Known(m, disk, tr) && KeysBelow(l, next)
    ensures Sound(View(m, l, tr), disk, next)
  {
  }

  lemma SameRoot(v0: View, v: View)
    requires Larger(v0, v)
    ensures v.l.root == v0.l.root && v0.m.bs.Keys <= v.m.bs.Keys && forall b | b in v0.tr :: b in v.tr && v.tr[b] == v0.tr[b]
  {
  }

  lemma KnownAt(v: View, disk: Disk, b: nat)
    requires Known(v.m, disk, v.tr) && b in v.m.bs
    ensures b in v.tr && Means(v.m, disk, b, v.tr[b])
  {
  }

  lemma OpensAt(disk: Disk, off: nat, t: Tree)
    requires off != 0 && Reads(disk, off, t)
    ensures Opens(disk, off, t)
  {
  }

  /** database_vacuum_run: flush, rewrite into a new file, swap the files. On success the live file
      opens to all that memory means, also to what the flush alone would have dropped, and the next
      flush finds everything in step. Before the swap the old file is the live one. */
  method VacuumRun(db: Database, file: PageFile, firstFree: nat, failAfter: nat, ghost l: Layout, ghost t: Tree, ghost t0: Tree, ghost s: set<nat>)
    returns (rc: int, live: PageFile, ghost l': Layout)
    requires WellFormed(db.mem, l) && db.root == l.root && file.Valid() && 0 < firstFree && KeysBelow(l, db.next)
    requires DirtyIsFlagged(l, db.dirtyB, db.dirtyH) && !Spins(l, db.dirtyB, db.dirtyH)
    requires SettledBut(db.mem, file.nodes, l, db.dirtyB, s) && UpOrDirty(db.mem, s, db.dirtyB)
    requires Means(db.mem, file.nodes, db.mem.hs[l.root], t) && LevelsOk(t) && Opens(file.nodes, file.superRoot, t0)
    modifies db, file
    ensures rc in {0, -1} && live.Valid()
    ensures rc == 0 ==> fresh(live) && Opens(live.nodes, live.superRoot, t) && WellFormed(db.mem, l') && db.root == l'.root
    ensures rc == 0 ==> db.dirtyB == {} && db.dirtyH == {} && Settled(db.mem, live.nodes, l', {}) && Means(db.mem, live.nodes, db.mem.hs[l'.root], t)
    ensures rc == 0 ==> SettledBut(db.mem, live.nodes, l', {}, {}) && UpOrDirty(db.mem, {}, {})
    ensures rc == 0 ==> Image(db.mem, live.nodes, db.mem.bs.Keys) && Closed(live.nodes) && KeysBelow(l', db.next)
    ensures rc == -1 ==>
              live == file &&
              (Opens(file.nodes, file.superRoot, t0) ||
               Opens(file.nodes, file.superRoot, Saved(old(db.mem), old(file.nodes), MarkedSet(l, old(db.dirtyB), old(db.dirtyH)) + s, old(db.mem).hs[l.root], t)))
  {
    hide *;
    live, l' := file, l;
    RootParts(db.mem, l);
    ghost var written;
    rc, written := FlushDirtyBnodes(db, file, l, t, t0, s);
    if rc != 0 {
      return;
    }
    RootParts(db.mem, l);
    var ok, rewritten: PageFile;
    ok, rewritten, l' := VacuumRewrite(db, file, firstFree, failAfter, l, t);
    if !ok {
      return -1, file, l;
    }
    live := rewritten;
    SettledIsSettledBut(db.mem, live.nodes, l', {});
    return 0, live, l';
  }
}
