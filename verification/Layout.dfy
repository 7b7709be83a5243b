/**
 The shape of the loaded part of the trie: which hbtrie node owns a bnode, where each node
 hangs, and which nodes a flush will write. Only proofs use it; the code keeps no such table.
 */
module Layout {
  import opened Common
  import opened NodeStore

  const LEVELS: nat := U16_LIMIT

  /** `owner`: hbtrie node of a bnode. `pos`: bnode and entry index from which a bnode that is
      not the root of its B+tree hangs. `at`: the same for every hbtrie node but the root. */
  datatype Layout = Layout(
    root: nat,
    owner: map<nat, nat>,
    level: map<nat, nat>,
    pos: map<nat, (nat, nat)>,
    at: map<nat, (nat, nat)>,
    depth: map<nat, nat>,
    maxDepth: nat)

  /** Depth grows by one at each trie step, level shrinks at each separator. */
  ghost predicate Ranked(l: Layout) {
    && l.level.Keys == l.owner.Keys
    && l.root in l.depth && l.depth[l.root] == 0
    && l.at.Keys == l.depth.Keys - {l.root}
    && (forall h | h in l.depth :: l.depth[h] <= l.maxDepth)
    && (forall b | b in l.owner :: l.owner[b] in l.depth && l.level[b] < LEVELS)
    && (forall h | h in l.at :: l.at[h].0 in l.owner && l.depth[h] == l.depth[l.owner[l.at[h].0]] + 1)
    && (forall b | b in l.pos ::
          && b in l.owner && l.pos[b].0 in l.owner
          && l.owner[l.pos[b].0] == l.owner[b] && l.level[b] < l.level[l.pos[b].0])
  }

  /** Separators with a loaded child are exactly the recorded positions of bnodes. */
  ghost predicate SepsOk(m: Mem, l: Layout) {
    && l.owner.Keys == m.bs.Keys == l.level.Keys
    && (forall b | b in m.bs :: l.level[b] == m.bs[b].level)
    && (forall b, i | b in m.bs && 0 <= i < |m.bs[b].entries| ::
          m.bs[b].entries[i].tag.Sep? && m.bs[b].entries[i].child.Some? ==>
            m.bs[b].entries[i].child.value in l.pos && l.pos[m.bs[b].entries[i].child.value] == (b, i))
    && (forall c | c in l.pos ::
          && l.pos[c].0 in m.bs && l.pos[c].1 < |m.bs[l.pos[c].0].entries|
          && m.bs[l.pos[c].0].entries[l.pos[c].1].tag.Sep?
          && m.bs[l.pos[c].0].entries[l.pos[c].1].child == Some(c))
  }

  /** Other entries with a loaded child are exactly the recorded positions of hbtrie nodes. */
  ghost predicate StepsOk(m: Mem, l: Layout) {
    && l.depth.Keys == m.hs.Keys
    && (forall b, i | b in m.bs && 0 <= i < |m.bs[b].entries| ::
          !m.bs[b].entries[i].tag.Sep? && m.bs[b].entries[i].child.Some? ==>
            m.bs[b].entries[i].child.value in l.at && l.at[m.bs[b].entries[i].child.value] == (b, i))
    && (forall h | h in l.at ::
          && l.at[h].0 in m.bs && l.at[h].1 < |m.bs[l.at[h].0].entries|
          && !m.bs[l.at[h].0].entries[l.at[h].1].tag.Sep?
          && m.bs[l.at[h].0].entries[l.at[h].1].child == Some(h))
  }

  /** The root bnode of an hbtrie node is the one that hangs from no separator. */
  ghost predicate RootsOk(m: Mem, l: Layout) {
    && l.depth.Keys == m.hs.Keys && l.owner.Keys == m.bs.Keys
    && (forall h | h in m.hs :: m.hs[h] in m.bs && l.owner[m.hs[h]] == h && m.hs[h] !in l.pos)
    && (forall b | b in m.bs && b !in l.pos :: l.owner[b] in m.hs && b == m.hs[l.owner[b]])
  }

  /** The loaded nodes form one tree: every node but the root hangs from exactly one entry. */
  ghost predicate WellFormed(m: Mem, l: Layout) {
    Ranked(l) && SepsOk(m, l) && StepsOk(m, l) && RootsOk(m, l)
  }

  function Up(l: Layout, h: nat): nat
    requires h in l.at && l.at[h].0 in l.owner
  {
    l.owner[l.at[h].0]
  }

  // ---------------------------------------------------------------- subtrees

  ghost predicate Under(l: Layout, x: nat, a: nat)
    requires Ranked(l) && x in l.depth
    decreases l.depth[x]
  {
    x == a || (x != l.root && Under(l, Up(l, x), a))
  }

  /** The child of a through which x is below a. */
  ghost function Top(l: Layout, x: nat, a: nat): (c: nat)
    requires Ranked(l) && x in l.depth && Under(l, x, a) && x != a
    ensures c in l.at && Up(l, c) == a && Under(l, x, c)
    decreases l.depth[x]
  {
    if Up(l, x) == a then x else Top(l, Up(l, x), a)
  }

  lemma {:induction false} UnderDepth(l: Layout, x: nat, a: nat)
    requires Ranked(l) && x in l.depth && Under(l, x, a)
    ensures a in l.depth && l.depth[a] <= l.depth[x] && (l.depth[a] == l.depth[x] ==> x == a)
    decreases l.depth[x]
  {
    if x != a { UnderDepth(l, Up(l, x), a); }
  }

  /** Subtrees of different children do not meet. */
  lemma {:induction false} TopIs(l: Layout, x: nat, c: nat, a: nat)
    requires Ranked(l) && x in l.depth && Under(l, x, c) && c in l.at && Up(l, c) == a
    ensures Under(l, x, a) && x != a && Top(l, x, a) == c
    decreases l.depth[x]
  {
    UnderDepth(l, x, c);
    if x != c {
      TopIs(l, Up(l, x), c, a);
    }
  }

  lemma {:induction false} UnderRoot(l: Layout, x: nat)
    requires Ranked(l) && x in l.depth
    ensures Under(l, x, l.root)
    decreases l.depth[x]
  {
    if x != l.root { UnderRoot(l, Up(l, x)); }
  }

  /** The same within one B+tree. */
  ghost predicate UnderB(l: Layout, b: nat, r: nat)
    requires Ranked(l) && b in l.owner
    decreases LEVELS - l.level[b]
  {
    b == r || (b in l.pos && UnderB(l, l.pos[b].0, r))
  }

  ghost function TopB(l: Layout, b: nat, r: nat): (c: nat)
    requires Ranked(l) && b in l.owner && UnderB(l, b, r) && b != r
    ensures c in l.pos && l.pos[c].0 == r && UnderB(l, b, c)
    decreases LEVELS - l.level[b]
  {
    if l.pos[b].0 == r then b else TopB(l, l.pos[b].0, r)
  }

  lemma {:induction false} UnderBLevel(l: Layout, b: nat, r: nat)
    requires Ranked(l) && b in l.owner && UnderB(l, b, r)
    ensures r in l.owner && l.owner[r] == l.owner[b] && l.level[b] <= l.level[r]
    ensures l.level[b] == l.level[r] ==> b == r
    decreases LEVELS - l.level[b]
  {
    if b != r { UnderBLevel(l, l.pos[b].0, r); }
  }

  lemma {:induction false} TopBIs(l: Layout, b: nat, c: nat, r: nat)
    requires Ranked(l) && b in l.owner && UnderB(l, b, c) && c in l.pos && l.pos[c].0 == r
    ensures UnderB(l, b, r) && b != r && TopB(l, b, r) == c
    decreases LEVELS - l.level[b]
  {
    UnderBLevel(l, b, c);
    if b != c {
      TopBIs(l, l.pos[b].0, c, r);
    }
  }

  lemma {:induction false} UnderTreeRoot(m: Mem, l: Layout, b: nat)
    requires Ranked(l) && RootsOk(m, l) && b in m.bs
    ensures l.owner[b] in m.hs && UnderB(l, b, m.hs[l.owner[b]])
    decreases LEVELS - l.level[b]
  {
    if b in l.pos { UnderTreeRoot(m, l, l.pos[b].0); }
  }

  // ---------------------------------------------------------------- what a flush writes

  ghost predicate HasStep(l: Layout, h: nat, s: set<nat>) {
    exists c :: c in s && c in l.at && l.at[c].0 in l.owner && Up(l, c) == h
  }

  ghost predicate Holds(l: Layout, b: nat, s: set<nat>) {
    exists c :: c in s && c in l.at && l.at[c].0 == b
  }

  ghost predicate HasSep(l: Layout, b: nat, s: set<nat>) {
    exists c :: c in s && c in l.pos && l.pos[c].0 == b
  }

  /** `flagged`: an hbtrie node is dirty or one below it is. `marked`: a bnode is dirty, holds
      a flagged trie child, or a bnode below it in its B+tree is marked. */
  ghost predicate Plan(l: Layout, dirtyB: set<nat>, dirtyH: set<nat>, marked: set<nat>, flagged: set<nat>) {
    && flagged <= l.depth.Keys && marked <= l.owner.Keys
    && (forall h | h in l.depth :: h in flagged <==> h in dirtyH || HasStep(l, h, flagged))
    && (forall b | b in l.owner :: b in marked <==> b in dirtyB || Holds(l, b, flagged) || HasSep(l, b, marked))
  }

  ghost predicate Flagged(l: Layout, dirtyH: set<nat>, h: nat)
    requires Ranked(l) && h in l.depth
    decreases l.maxDepth - l.depth[h]
  {
    h in dirtyH || exists c :: c in l.at && Up(l, c) == h && Flagged(l, dirtyH, c)
  }

  ghost predicate Marked(l: Layout, dirtyB: set<nat>, flagged: set<nat>, b: nat)
    requires Ranked(l) && b in l.owner
    decreases l.level[b]
  {
    b in dirtyB || Holds(l, b, flagged) || exists c :: c in l.pos && l.pos[c].0 == b && Marked(l, dirtyB, flagged, c)
  }

  ghost function FlaggedSet(l: Layout, dirtyH: set<nat>): set<nat>
    requires Ranked(l)
  {
    set h | h in l.depth && Flagged(l, dirtyH, h)
  }

  ghost function MarkedSet(l: Layout, dirtyB: set<nat>, dirtyH: set<nat>): set<nat>
    requires Ranked(l)
  {
    set b | b in l.owner && Marked(l, dirtyB, FlaggedSet(l, dirtyH), b)
  }

  lemma ThePlan(l: Layout, dirtyB: set<nat>, dirtyH: set<nat>)
    requires Ranked(l)
    ensures Plan(l, dirtyB, dirtyH, MarkedSet(l, dirtyB, dirtyH), FlaggedSet(l, dirtyH))
  {
    var flagged := FlaggedSet(l, dirtyH);
    var marked := MarkedSet(l, dirtyB, dirtyH);
    forall h | h in l.depth
      ensures h in flagged <==> h in dirtyH || HasStep(l, h, flagged)
    {
      if c :| c in l.at && Up(l, c) == h && Flagged(l, dirtyH, c) { assert c in flagged; }
    }
    forall b | b in l.owner
      ensures b in marked <==> b in dirtyB || Holds(l, b, flagged) || HasSep(l, b, marked)
    {
      if c :| c in l.pos && l.pos[c].0 == b && Marked(l, dirtyB, flagged, c) { assert c in marked; }
    }
  }

  /** A dirty bnode's hbtrie node is dirty. */
  ghost predicate DirtyIsFlagged(l: Layout, dirtyB: set<nat>, dirtyH: set<nat>) {
    && dirtyB <= l.owner.Keys && dirtyH <= l.depth.Keys
    && forall b | b in dirtyB :: l.owner[b] in dirtyH
  }

  lemma {:induction false} MarkedIsFlagged(l: Layout, dirtyB: set<nat>, dirtyH: set<nat>, marked: set<nat>, flagged: set<nat>, b: nat)
    requires Ranked(l) && DirtyIsFlagged(l, dirtyB, dirtyH) && Plan(l, dirtyB, dirtyH, marked, flagged) && b in marked
    ensures l.owner[b] in flagged
    decreases l.level[b]
  {
    if b in dirtyB {
    } else if c :| c in flagged && c in l.at && l.at[c].0 == b {
      assert Up(l, c) == l.owner[b];
      assert HasStep(l, l.owner[b], flagged);
    } else if HasSep(l, b, marked) {
      var c :| c in marked && c in l.pos && l.pos[c].0 == b;
      MarkedIsFlagged(l, dirtyB, dirtyH, marked, flagged, c);
    }
  }
}
