/**
 The first half of a flush: find every bnode that must be written, marking dirty flags upward
 on the way (propagate_dirty_upward and collect_dirty_bnodes_from_hbnode).
 */
module Collect {
  import opened Common
  import opened NodeStore
  import opened Layout
  import opened Walk

  datatype Info = Info(bnode: nat, hbnode: nat, parent: Option<(nat, nat)>, level: nat, depth: nat)

  ghost function Bnodes(list: seq<Info>): set<nat> {
    set k | 0 <= k < |list| :: list[k].bnode
  }

  ghost predicate InfoOk(l: Layout, d: Info) {
    && d.bnode in l.owner && d.bnode in l.level && d.hbnode == l.owner[d.bnode] && d.hbnode in l.depth
    && d.level == l.level[d.bnode] && d.depth == l.depth[d.hbnode]
    && d.parent == (if d.bnode in l.pos then Some(l.pos[d.bnode])
                    else if d.hbnode in l.at then Some(l.at[d.hbnode]) else None)
  }

  /** A list of distinct bnodes, each with its parent, level and depth. */
  ghost predicate ListOk(l: Layout, list: seq<Info>) {
    && (forall k | 0 <= k < |list| :: InfoOk(l, list[k]))
    && (forall j, k | 0 <= j < k < |list| :: list[j].bnode != list[k].bnode)
  }

  lemma ListGrows(l: Layout, list: seq<Info>, d: Info)
    requires ListOk(l, list) && InfoOk(l, d) && d.bnode !in Bnodes(list)
    ensures ListOk(l, list + [d]) && Bnodes(list + [d]) == Bnodes(list) + {d.bnode}
  {
    var all := list + [d];
    assert forall k | 0 <= k < |list| :: all[k] == list[k] && list[k].bnode in Bnodes(list);
    assert all[|list|] == d;
    forall x | x in Bnodes(list) + {d.bnode} ensures x in Bnodes(all) {
      if x == d.bnode { assert all[|list|].bnode == x; } else {
        var k :| 0 <= k < |list| && list[k].bnode == x;
        assert all[k].bnode == x;
      }
    }
  }

  // ---------------------------------------------------------------- propagate_dirty_upward

  /** The subtrees of the first i separators of r are closed, the others still as they were. */
  ghost predicate Swept(l: Layout, r: nat, i: nat, dirty: set<nat>, start: set<nat>, fin: set<nat>)
    requires Ranked(l)
  {
    && (forall b | b in l.owner && b != r && UnderB(l, b, r) ::
          b in dirty <==> b in (if l.pos[TopB(l, b, r)].1 < i then fin else start))
    && (r in dirty <==> r in start || exists c :: c in fin && c in l.pos && l.pos[c].0 == r && l.pos[c].1 < i)
  }

  lemma TopIsHere(l: Layout, b: nat, r: nat, i: nat, c: nat)
    requires Ranked(l) && b in l.owner && b != r && UnderB(l, b, r) && c in l.pos && l.pos[c] == (r, i)
    requires forall t | t in l.pos && l.pos[t] == (r, i) :: t == c
    ensures TopB(l, b, r) in l.pos && UnderB(l, b, TopB(l, b, r)) && (l.pos[TopB(l, b, r)].1 == i ==> TopB(l, b, r) == c)
  {
  }

  lemma SweepOne(l: Layout, r: nat, i: nat, c: nat, b: nat, dirty: set<nat>, dirty': set<nat>, start: set<nat>, fin: set<nat>)
    requires Ranked(l) && b in l.owner && b != r && UnderB(l, b, r) && c in l.pos && l.pos[c] == (r, i)
    requires forall t | t in l.pos && l.pos[t] == (r, i) :: t == c
    requires b in dirty <==> b in (if l.pos[TopB(l, b, r)].1 < i then fin else start)
    requires b in dirty' <==> b in (if UnderB(l, b, c) then fin else dirty)
    ensures b in dirty' <==> b in (if l.pos[TopB(l, b, r)].1 < i + 1 then fin else start)
  {
    hide UnderB, TopB, Ranked;
    if UnderB(l, b, c) { TopBIs(l, b, c, r); }
    TopIsHere(l, b, r, i, c);
  }

  lemma SweepRoot(l: Layout, r: nat, i: nat, c: nat, dirty: set<nat>, d: set<nat>, start: set<nat>, fin: set<nat>)
    requires Ranked(l) && c in l.pos && l.pos[c] == (r, i) && (forall t | t in l.pos && l.pos[t] == (r, i) :: t == c)
    requires Swept(l, r, i, dirty, start, fin) && (r in d <==> r in dirty || c in fin)
    ensures r in d <==> r in start || exists t :: t in fin && t in l.pos && l.pos[t].0 == r && l.pos[t].1 < i + 1
  {
    hide UnderB, TopB, Ranked;
    forall t | t in l.pos && l.pos[t].0 == r && l.pos[t].1 == i ensures t == c { assert l.pos[t] == (l.pos[t].0, l.pos[t].1); }
  }

  lemma SweptAt(l: Layout, r: nat, i: nat, dirty: set<nat>, start: set<nat>, fin: set<nat>, b: nat)
    requires Ranked(l) && Swept(l, r, i, dirty, start, fin) && b in l.owner && b != r && UnderB(l, b, r)
    ensures b in dirty <==> b in (if l.pos[TopB(l, b, r)].1 < i then fin else start)
  {
  }

  lemma MakeSwept(l: Layout, r: nat, i: nat, dirty: set<nat>, start: set<nat>, fin: set<nat>)
    requires Ranked(l)
    requires forall b | b in l.owner && b != r && UnderB(l, b, r) :: b in dirty <==> b in (if l.pos[TopB(l, b, r)].1 < i then fin else start)
    requires r in dirty <==> r in start || exists c :: c in fin && c in l.pos && l.pos[c].0 == r && l.pos[c].1 < i
    ensures Swept(l, r, i, dirty, start, fin)
  {
    hide UnderB, TopB, Ranked;
  }

  lemma SweepStep(l: Layout, r: nat, i: nat, c: nat, dirty: set<nat>, dirty': set<nat>, start: set<nat>, fin: set<nat>)
    requires Ranked(l) && r in l.owner && c in l.pos && l.pos[c] == (r, i)
    requires forall t | t in l.pos && l.pos[t] == (r, i) :: t == c
    requires Swept(l, r, i, dirty, start, fin)
    requires forall b | b in l.owner :: b in dirty' <==> b in (if UnderB(l, b, c) then fin else dirty)
    ensures Swept(l, r, i + 1, if c in dirty' then dirty' + {r} else dirty', start, fin)
  {
    SelfAndParent(l, r, c);
    hide UnderB, TopB, Ranked, Swept;
    var d := if c in dirty' then dirty' + {r} else dirty';
    forall b | b in l.owner && b != r && UnderB(l, b, r)
      ensures b in d <==> b in (if l.pos[TopB(l, b, r)].1 < i + 1 then fin else start)
    {
      SweptAt(l, r, i, dirty, start, fin, b);
      SweepOne(l, r, i, c, b, dirty, dirty', start, fin);
    }
    SweepRoot(l, r, i, c, dirty, d, start, fin);
    MakeSwept(l, r, i + 1, d, start, fin);
  }

  lemma SelfAndParent(l: Layout, r: nat, c: nat)
    requires Ranked(l) && r in l.owner && c in l.pos && l.pos[c].0 == r
    ensures !UnderB(l, r, c) && UnderB(l, c, c) && c in l.owner
  {
    if UnderB(l, r, c) { UnderBLevel(l, r, c); }
  }

  lemma SweepStart(l: Layout, r: nat, dirty: set<nat>, start: set<nat>, fin: set<nat>)
    requires Ranked(l) && r in l.owner
    requires forall b | b in l.owner && UnderB(l, b, r) :: b in dirty <==> b in start
    ensures Swept(l, r, 0, dirty, start, fin)
    ensures UnderB(l, r, r)
  {
  }

  /** Before its turn, the subtree of the i-th separator is as it was, and it lies under r. */
  lemma SweepInto(l: Layout, r: nat, i: nat, c: nat, dirty: set<nat>, start: set<nat>, fin: set<nat>)
    requires Ranked(l) && r in l.owner && c in l.pos && l.pos[c] == (r, i)
    requires Swept(l, r, i, dirty, start, fin)
    ensures forall b | b in l.owner && UnderB(l, b, c) :: UnderB(l, b, r) && (b in dirty <==> b in start)
  {
    hide UnderB, TopB, Ranked;
    forall b | b in l.owner && UnderB(l, b, c)
      ensures UnderB(l, b, r) && (b in dirty <==> b in start)
    {
      TopBIs(l, b, c, r);
    }
  }

  lemma SweepSkip(l: Layout, r: nat, i: nat, dirty: set<nat>, start: set<nat>, fin: set<nat>)
    requires Ranked(l) && Swept(l, r, i, dirty, start, fin)
    requires forall t | t in l.pos :: l.pos[t] != (r, i)
    ensures Swept(l, r, i + 1, dirty, start, fin)
  {
    forall t | t in l.pos && l.pos[t].0 == r ensures l.pos[t].1 != i {
      assert l.pos[t] == (l.pos[t].0, l.pos[t].1);
    }
  }

  lemma SweepEnd(m: Mem, l: Layout, r: nat, dirty: set<nat>, start: set<nat>, fin: set<nat>)
    requires Ranked(l) && SepsOk(m, l) && r in m.bs
    requires forall b | b in l.owner :: b in fin <==> b in start || HasSep(l, b, fin)
    requires Swept(l, r, |m.bs[r].entries|, dirty, start, fin)
    ensures forall b | b in l.owner && UnderB(l, b, r) :: b in dirty <==> b in fin
  {
    hide UnderB, Ranked;
    assert forall b | b in l.owner && b != r && UnderB(l, b, r) :: TopB(l, b, r) in l.pos && l.pos[TopB(l, b, r)].0 == r;
    hide TopB;
    assert HasSep(l, r, fin) <==> exists c :: c in fin && c in l.pos && l.pos[c].0 == r && l.pos[c].1 < |m.bs[r].entries|;
  }

  lemma SepAt(m: Mem, l: Layout, b: nat, i: nat)
    requires Ranked(l) && SepsOk(m, l) && b in m.bs && i < |m.bs[b].entries|
    ensures var e := m.bs[b].entries[i];
            if e.tag.Sep? && e.child.Some? then
              && e.child.value in m.bs && e.child.value in l.pos && l.pos[e.child.value] == (b, i)
              && e.child.value in l.owner && l.owner[e.child.value] == l.owner[b]
              && e.child.value in l.level && l.level[e.child.value] < l.level[b]
              && forall t | t in l.pos && l.pos[t] == (b, i) :: t == e.child.value
            else forall t | t in l.pos :: l.pos[t] != (b, i)
  {
  }

  // ---------------------------------------------------------------- collect_dirty_bnodes_from_hbnode

  /** Dirty set inside one B+tree before propagate_dirty_upward. */
  ghost function Seeds(l: Layout, startB: set<nat>, flagged: set<nat>): set<nat> {
    set b | b in l.owner && (b in startB || Holds(l, b, flagged))
  }

  lemma SeedsClose(l: Layout, startB: set<nat>, startH: set<nat>, marked: set<nat>, flagged: set<nat>)
    requires Plan(l, startB, startH, marked, flagged)
    ensures marked <= l.owner.Keys && flagged <= l.depth.Keys
    ensures forall b | b in l.owner :: b in marked <==> b in Seeds(l, startB, flagged) || HasSep(l, b, marked)
  {
  }

  lemma ChildrenStart(l: Layout, h: nat, startB: set<nat>, startH: set<nat>, nowB: set<nat>, nowH: set<nat>, marked: set<nat>, flagged: set<nat>)
    requires Ranked(l) && h in l.depth
    ensures AfterB(l, h, {}, nowB, marked, flagged) == nowB && AfterH(l, h, {}, nowH, flagged) == nowH
    ensures Gathered(l, h, {}, marked) == {}
  {
    assert flagged * {} == {};
    assert forall b :: !Holds(l, b, {});
  }

  /** With every trie child done, h is dirty exactly if flagged and its bnodes hold the seeds. */
  lemma ChildrenDone(m: Mem, l: Layout, h: nat, startB: set<nat>, startH: set<nat>, nowB: set<nat>, nowH: set<nat>, marked: set<nat>, flagged: set<nat>)
    requires WellFormed(m, l) && h in l.depth && h in m.hs
    requires Plan(l, startB, startH, marked, flagged)
    requires nowB * Below(l, h) == startB * Below(l, h) && nowH * HbBelow(l, h) == startH * HbBelow(l, h)
    ensures var b1 := AfterB(l, h, AllSteps(l, h), nowB, marked, flagged);
            && (forall b | b in l.owner && UnderB(l, b, m.hs[h]) :: b in b1 <==> b in Seeds(l, startB, flagged))
            && (forall b | b in Owned(l, h) :: UnderB(l, b, m.hs[h]) && (b in b1 <==> b in Seeds(l, startB, flagged)))
            && (forall b | b !in Owned(l, h) :: b in b1 <==> b in (nowB - Below(l, h)) + marked * Below(l, h))
    ensures AfterH(l, h, AllSteps(l, h), nowH, flagged) == (nowH - HbBelow(l, h)) + flagged * HbBelow(l, h)
    ensures Gathered(l, h, AllSteps(l, h), marked) == marked * Below(l, h) - Owned(l, h)
    ensures h in HbBelow(l, h) && Owned(l, h) <= Below(l, h)
  {
    hide UnderB, SepsOk, StepsOk;
    var b1 := AfterB(l, h, AllSteps(l, h), nowB, marked, flagged);
    forall b | b in l.owner ensures UnderB(l, b, m.hs[h]) <==> l.owner[b] == h {
      UnderTreeRoot(m, l, b);
      if UnderB(l, b, m.hs[h]) { UnderBLevel(l, b, m.hs[h]); }
    }
    forall b ensures Holds(l, b, flagged * AllSteps(l, h)) <==> b in Owned(l, h) && Holds(l, b, flagged) {
      if c :| c in flagged && c in l.at && l.at[c].0 == b && b in Owned(l, h) {
        assert c in flagged * AllSteps(l, h);
      }
    }
    assert HasStep(l, h, flagged) <==> flagged * AllSteps(l, h) != {} by {
      if c :| c in flagged && c in l.at && l.at[c].0 in l.owner && Up(l, c) == h { assert c in flagged * AllSteps(l, h); }
      if c :| c in flagged * AllSteps(l, h) { assert Up(l, c) == h; }
    }
    forall x | x in l.depth && x != h && Under(l, x, h) ensures Top(l, x, h) in AllSteps(l, h) { }
    assert Under(l, h, h);
    forall b | b in Owned(l, h) ensures b in Below(l, h) && (b in nowB <==> b in startB) {
      assert b in Below(l, h);
      assert b in nowB * Below(l, h) <==> b in startB * Below(l, h);
    }
    assert h in nowH <==> h in startH by {
      assert h in HbBelow(l, h);
      assert h in nowH * HbBelow(l, h) <==> h in startH * HbBelow(l, h);
    }
    DoneH(l, h, nowH, flagged);
    DoneB(l, h, nowB, marked, flagged);
    GatheredAll(l, h, marked);
  }

  lemma DoneH(l: Layout, h: nat, nowH: set<nat>, flagged: set<nat>)
    requires Ranked(l) && h in l.depth && flagged <= l.depth.Keys
    requires forall x | x in l.depth && x != h && Under(l, x, h) :: Top(l, x, h) in AllSteps(l, h)
    requires h in flagged <==> h in nowH || flagged * AllSteps(l, h) != {}
    ensures AfterH(l, h, AllSteps(l, h), nowH, flagged) == (nowH - HbBelow(l, h)) + flagged * HbBelow(l, h)
  {
    hide Top;
    var r := AfterH(l, h, AllSteps(l, h), nowH, flagged);
    assert Under(l, h, h);
    forall x ensures x in r <==> x in (nowH - HbBelow(l, h)) + flagged * HbBelow(l, h) { }
  }

  lemma DoneB(l: Layout, h: nat, nowB: set<nat>, marked: set<nat>, flagged: set<nat>)
    requires Ranked(l) && h in l.depth && marked <= l.owner.Keys
    requires forall x | x in l.depth && x != h && Under(l, x, h) :: Top(l, x, h) in AllSteps(l, h)
    requires forall b :: Holds(l, b, flagged * AllSteps(l, h)) ==> b in Owned(l, h)
    ensures forall b | b !in Owned(l, h) ::
              b in AfterB(l, h, AllSteps(l, h), nowB, marked, flagged) <==> b in (nowB - Below(l, h)) + marked * Below(l, h)
  {
    hide Top, Under, Holds, AllSteps;
    var all := AllSteps(l, h);
    assert forall b | b in l.owner :: l.owner[b] in l.depth;
    hide Ranked;
    forall b | b !in Owned(l, h)
      ensures b in AfterB(l, h, all, nowB, marked, flagged) <==> b in (nowB - Below(l, h)) + marked * Below(l, h)
    {
      assert !Holds(l, b, flagged * all);
    }
  }

  lemma GatheredAll(l: Layout, h: nat, marked: set<nat>)
    requires Ranked(l) && h in l.depth && marked <= l.owner.Keys
    requires forall x | x in l.depth && x != h && Under(l, x, h) :: Top(l, x, h) in AllSteps(l, h)
    ensures Gathered(l, h, AllSteps(l, h), marked) == marked * Below(l, h) - Owned(l, h)
  {
    hide Top, Under, AllSteps;
    assert forall b | b in l.owner :: l.owner[b] in l.depth;
    hide Ranked;
    var g := Gathered(l, h, AllSteps(l, h), marked);
    forall b ensures b in g <==> b in marked * Below(l, h) - Owned(l, h) { }
  }

  /** The hbtrie nodes that hang from visited bnodes. */
  ghost function VisitedSteps(l: Layout, visited: set<nat>): set<nat> {
    set c | c in l.at && l.at[c].0 in visited
  }

  ghost predicate Progress(l: Layout, h: nat, proc: set<nat>, oldB: set<nat>, oldH: set<nat>, dirtyB: set<nat>, dirtyH: set<nat>,
                           marked: set<nat>, flagged: set<nat>) {
    && Ranked(l)
    && dirtyB == AfterB(l, h, proc, oldB, marked, flagged)
    && dirtyH == AfterH(l, h, proc, oldH, flagged)
  }

  lemma StepsNone(l: Layout)
    ensures VisitedSteps(l, {}) == {}
  {
  }

  lemma StepsEnter(m: Mem, l: Layout, h: nat, visited: set<nat>, b: nat)
    requires b in visited
    ensures Steps(l, h, visited, b, 0) == VisitedSteps(l, visited - {b})
  {
  }

  lemma StepsLeave(m: Mem, l: Layout, h: nat, visited: set<nat>, b: nat)
    requires StepsOk(m, l) && b in m.bs
    ensures Steps(l, h, visited, b, |m.bs[b].entries|) == VisitedSteps(l, visited)
  {
  }

  lemma StepsSkip(m: Mem, l: Layout, h: nat, visited: set<nat>, b: nat, i: nat)
    requires StepsOk(m, l) && b in m.bs && i < |m.bs[b].entries|
    requires m.bs[b].entries[i].tag.Sep? || m.bs[b].entries[i].child.None?
    ensures Steps(l, h, visited, b, i + 1) == Steps(l, h, visited, b, i)
  {
  }

  lemma StepsAdd(m: Mem, l: Layout, h: nat, visited: set<nat>, b: nat, i: nat)
    requires WellFormed(m, l) && b in m.bs && i < |m.bs[b].entries| && b in visited && visited <= Owned(l, h)
    requires !m.bs[b].entries[i].tag.Sep? && m.bs[b].entries[i].child.Some?
    ensures var c := m.bs[b].entries[i].child.value;
            && c in l.at && l.at[c] == (b, i) && Up(l, c) == h && c in l.depth && c in m.hs && l.depth[c] == l.depth[h] + 1
            && l.depth[c] <= l.maxDepth
            && c !in Steps(l, h, visited, b, i)
            && Steps(l, h, visited, b, i + 1) == Steps(l, h, visited, b, i) + {c}
            && Steps(l, h, visited, b, i) <= AllSteps(l, h)
  {
  }

  lemma StepsAll(m: Mem, l: Layout, h: nat)
    requires WellFormed(m, l)
    ensures VisitedSteps(l, Owned(l, h)) == AllSteps(l, h)
  {
  }

  lemma WellFormedKeys(m: Mem, l: Layout)
    requires WellFormed(m, l)
    ensures l.owner.Keys == m.bs.Keys == l.level.Keys && l.depth.Keys == m.hs.Keys
    ensures forall b | b in m.bs :: m.bs[b].level == l.level[b]
  {
  }

  lemma RootKeys(m: Mem, l: Layout, h: nat)
    requires WellFormed(m, l) && h in m.hs
    ensures m.hs[h] in m.bs && m.hs[h] in l.owner && m.hs[h] in l.level && l.owner[m.hs[h]] == h && m.hs[h] !in l.pos
  {
  }

  /** The subtree of a child not yet done is as it was at the start. */
  lemma BeforeChild(l: Layout, h: nat, proc: set<nat>, c: nat, oldB: set<nat>, oldH: set<nat>, dirtyB: set<nat>, dirtyH: set<nat>,
                    startB: set<nat>, startH: set<nat>, marked: set<nat>, flagged: set<nat>, listed: set<nat>)
    requires Progress(l, h, proc, oldB, oldH, dirtyB, dirtyH, marked, flagged)
    requires c in l.at && Up(l, c) == h && c !in proc && proc <= AllSteps(l, h)
    requires oldB * Below(l, h) == startB * Below(l, h) && oldH * HbBelow(l, h) == startH * HbBelow(l, h)
    requires listed !! Below(l, h) && marked <= l.owner.Keys
    ensures dirtyB * Below(l, c) == startB * Below(l, c) && dirtyH * HbBelow(l, c) == startH * HbBelow(l, c)
    ensures (listed + Gathered(l, h, proc, marked)) !! Below(l, c)
    ensures c in HbBelow(l, c)
  {
    hide Under, Top;
    forall x | x in l.depth ensures Under(l, x, c) <==> x != h && Under(l, x, h) && Top(l, x, h) == c {
      InChild(l, h, c, x);
    }
    assert Below(l, c) <= Below(l, h) && HbBelow(l, c) <= HbBelow(l, h);
    assert forall d | d in flagged * proc :: d in l.at && l.owner[l.at[d].0] == h;
    forall b | b in Below(l, c) ensures b in dirtyB <==> b in startB {
      assert b in oldB * Below(l, h) <==> b in startB * Below(l, h);
    }
    forall x | x in HbBelow(l, c) ensures x in dirtyH <==> x in startH {
      assert x in oldH * HbBelow(l, h) <==> x in startH * HbBelow(l, h);
    }
    SelfUnder(l, c);
  }

  lemma SelfUnder(l: Layout, c: nat)
    requires Ranked(l) && c in l.depth
    ensures Under(l, c, c)
  {
  }

  /** Stack items carry, with each bnode, the entry it hangs from. */
  ghost predicate Items(l: Layout, h: nat, stack: seq<(nat, Option<(nat, nat)>)>, ids: seq<nat>) {
    && |stack| == |ids|
    && forall k | 0 <= k < |stack| ::
         && stack[k].0 == ids[k]
         && stack[k].1 == (if ids[k] in l.pos then Some(l.pos[ids[k]]) else if h in l.at then Some(l.at[h]) else None)
  }

  lemma OneItem(l: Layout, h: nat, b: nat, cross: Option<(nat, nat)>)
    requires b !in l.pos && cross == (if h in l.at then Some(l.at[h]) else None)
    ensures Items(l, h, [(b, cross)], [b])
  {
  }

  lemma NoItems(l: Layout, h: nat, stack: seq<(nat, Option<(nat, nat)>)>, ids: seq<nat>)
    requires Items(l, h, stack, ids) && stack == []
    ensures ids == []
  {
  }

  lemma PopItem(l: Layout, h: nat, stack: seq<(nat, Option<(nat, nat)>)>, ids: seq<nat>)
    requires Items(l, h, stack, ids) && stack != []
    ensures |ids| == |stack| && Items(l, h, stack[..|stack| - 1], ids[..|ids| - 1])
    ensures stack[|stack| - 1].0 == ids[|ids| - 1]
    ensures var b := ids[|ids| - 1];
            stack[|stack| - 1].1 == (if b in l.pos then Some(l.pos[b]) else if h in l.at then Some(l.at[h]) else None)
  {
  }

  lemma PushItem(l: Layout, h: nat, stack: seq<(nat, Option<(nat, nat)>)>, ids: seq<nat>, c: nat)
    requires Items(l, h, stack, ids) && c in l.pos
    ensures Items(l, h, stack + [(c, Some(l.pos[c]))], ids + [c])
  {
  }

  lemma Visiting(dirty: set<nat>, visited: set<nat>, b: nat, before: set<nat>)
    ensures before + dirty * (visited + {b}) == (if b in dirty then before + dirty * visited + {b} else before + dirty * visited)
  {
  }

  /** The whole B+tree of h is closed, so below h exactly the marked bnodes are dirty. */
  lemma OwnClosed(m: Mem, l: Layout, h: nat, oldB: set<nat>, b1: set<nat>, b2: set<nat>, marked: set<nat>)
    requires WellFormed(m, l) && h in m.hs && marked <= l.owner.Keys
    requires forall b | b in Owned(l, h) :: UnderB(l, b, m.hs[h])
    requires forall b | b !in Owned(l, h) :: b in b1 <==> b in (oldB - Below(l, h)) + marked * Below(l, h)
    requires forall b | b in l.owner :: b in b2 <==> b in (if UnderB(l, b, m.hs[h]) then marked else b1)
    requires b2 <= b1 + l.owner.Keys && b1 - l.owner.Keys <= b2
    requires Owned(l, h) <= Below(l, h)
    ensures b2 == (oldB - Below(l, h)) + marked * Below(l, h)
    ensures b2 * Owned(l, h) == marked * Owned(l, h)
  {
    hide Below, SepsOk, StepsOk;
    forall b | b in l.owner && UnderB(l, b, m.hs[h]) ensures b in Owned(l, h) { UnderBLevel(l, b, m.hs[h]); }
    var goal := (oldB - Below(l, h)) + marked * Below(l, h);
    forall b ensures b in b2 <==> b in goal {
      if b in l.owner { } else { assert b !in Owned(l, h) && b !in marked; }
    }
    assert b2 == goal;
  }

  lemma NothingMarked(l: Layout, h: nat, startB: set<nat>, startH: set<nat>, marked: set<nat>, flagged: set<nat>, oldB: set<nat>, b1: set<nat>)
    requires Ranked(l) && Plan(l, startB, startH, marked, flagged) && DirtyIsFlagged(l, startB, startH) && h !in flagged
    requires forall b | b in Owned(l, h) :: b in b1 <==> b in Seeds(l, startB, flagged)
    requires forall b | b !in Owned(l, h) :: b in b1 <==> b in (oldB - Below(l, h)) + marked * Below(l, h)
    requires Owned(l, h) <= Below(l, h)
    ensures b1 == (oldB - Below(l, h)) + marked * Below(l, h)
    ensures marked * Below(l, h) - Owned(l, h) == marked * Below(l, h)
  {
    hide Below;
    forall b | b in Owned(l, h) ensures b !in marked {
      if b in marked { MarkedIsFlagged(l, startB, startH, marked, flagged, b); }
    }
    assert forall b | b in Seeds(l, startB, flagged) :: b in marked;
  }

  class Database {
    var mem: Mem
    var root: nat
    var dirtyB: set<nat>
    var dirtyH: set<nat>
    var next: nat  // a key of neither table; keys are handed out in order

    constructor (mem: Mem, root: nat, dirtyB: set<nat>, dirtyH: set<nat>, next: nat)
      ensures this.mem == mem && this.root == root && this.dirtyB == dirtyB && this.dirtyH == dirtyH && this.next == next
    {
      this.mem := mem;
      this.root := root;
      this.dirtyB := dirtyB;
      this.dirtyH := dirtyH;
      this.next := next;
    }

    /** propagate_dirty_upward: within one B+tree, a bnode with a dirty loaded child becomes
        dirty. `start` is the set of dirty bnodes, `fin` its closure under parents. */
    method PropagateUp(r: nat, ghost l: Layout, ghost start: set<nat>, ghost fin: set<nat>)
      requires Ranked(l) && SepsOk(mem, l) && r in mem.bs && r in l.owner && r in l.level
      requires forall b | b in l.owner :: b in fin <==> b in start || HasSep(l, b, fin)
      requires forall b | b in l.owner && UnderB(l, b, r) :: b in dirtyB <==> b in start
      modifies this`dirtyB
      ensures forall b | b in l.owner :: b in dirtyB <==> b in (if UnderB(l, b, r) then fin else old(dirtyB))
      ensures dirtyB <= old(dirtyB) + l.owner.Keys && old(dirtyB) - l.owner.Keys <= dirtyB
      decreases l.level[r]
    {
      hide *;
      var i := 0;
      SweepStart(l, r, dirtyB, start, fin);
      while i < |mem.bs[r].entries|
        invariant 0 <= i <= |mem.bs[r].entries|
        invariant forall b | b in l.owner && !UnderB(l, b, r) :: b in dirtyB <==> b in old(dirtyB)
        invariant dirtyB <= old(dirtyB) + l.owner.Keys && old(dirtyB) - l.owner.Keys <= dirtyB
        invariant Swept(l, r, i, dirtyB, start, fin)
      {
        SepAt(mem, l, r, i);
        var e := mem.bs[r].entries[i];
        if e.tag.Sep? && e.child.Some? {
          var c := e.child.value;
          SweepInto(l, r, i, c, dirtyB, start, fin);
          ghost var before := dirtyB;
          PropagateUp(c, l, start, fin);
          SweepStep(l, r, i, c, before, dirtyB, start, fin);
          if c in dirtyB {
            dirtyB := dirtyB + {r};
          }
        } else {
          SweepSkip(l, r, i, dirtyB, start, fin);
        }
        i := i + 1;
      }
      SweepEnd(mem, l, r, dirtyB, start, fin);
    }

    /** Phase 1 of collect_dirty_bnodes_from_hbnode: walk the B+tree of h, collect below every
        loaded trie child, and mark the bnode and h when that child is dirty. */
    method CollectChildren(h: nat, depth: nat, list: seq<Info>, ghost l: Layout,
                           ghost startB: set<nat>, ghost startH: set<nat>, ghost marked: set<nat>, ghost flagged: set<nat>)
      returns (out: seq<Info>)
      requires WellFormed(mem, l) && h in mem.hs && h in l.depth && depth == l.depth[h]
      requires Plan(l, startB, startH, marked, flagged) && DirtyIsFlagged(l, startB, startH)
      requires dirtyB * Below(l, h) == startB * Below(l, h) && dirtyH * HbBelow(l, h) == startH * HbBelow(l, h)
      requires ListOk(l, list) && Bnodes(list) !! Below(l, h)
      modifies this`dirtyB, this`dirtyH
      ensures dirtyB == AfterB(l, h, AllSteps(l, h), old(dirtyB), marked, flagged)
      ensures dirtyH == AfterH(l, h, AllSteps(l, h), old(dirtyH), flagged)
      ensures ListOk(l, out) && Bnodes(out) == Bnodes(list) + Gathered(l, h, AllSteps(l, h), marked)
      decreases l.maxDepth - l.depth[h], 1
    {
      hide Ranked, SepsOk, StepsOk, RootsOk, Plan, DirtyIsFlagged, AtHead, Inside, ListOk, Under, UnderB;
      hide Below, HbBelow, AfterB, AfterH, Gathered, Steps, VisitedSteps, AllSteps, Owned, Bnodes, Seeds;
      out := list;
      var stack := [mem.hs[h]];
      ghost var visited: set<nat> := {};
      StartWalk(mem, l, h);
      ChildrenStart(l, h, startB, startH, dirtyB, dirtyH, marked, flagged);
      StepsNone(l);
      while |stack| > 0
        invariant AtHead(mem, l, h, visited, stack)
        invariant Progress(l, h, VisitedSteps(l, visited), old(dirtyB), old(dirtyH), dirtyB, dirtyH, marked, flagged)
        invariant ListOk(l, out) && Bnodes(out) == Bnodes(list) + Gathered(l, h, VisitedSteps(l, visited), marked)
        decreases |Owned(l, h) - visited|
      {
        WellFormedKeys(mem, l);
        PopBnode(mem, l, h, visited, stack);
        var bn := stack[|stack| - 1];
        stack := stack[..|stack| - 1];
        visited := visited + {bn};
        StepsEnter(mem, l, h, visited, bn);
        stack, out := CollectEntries(h, bn, depth, stack, out, visited, old(dirtyB), old(dirtyH), Bnodes(list), l, startB, startH, marked, flagged);
        LeaveBnode(mem, l, h, visited, bn, stack);
        StepsLeave(mem, l, h, visited, bn);
      }
      WholeTree(mem, l, h, visited);
      StepsAll(mem, l, h);
    }

    /** The entries of one bnode in phase 1. */
    method CollectEntries(h: nat, bn: nat, depth: nat, stack0: seq<nat>, list: seq<Info>,
                          ghost visited: set<nat>, ghost oldB: set<nat>, ghost oldH: set<nat>, ghost listed: set<nat>, ghost l: Layout,
                          ghost startB: set<nat>, ghost startH: set<nat>, ghost marked: set<nat>, ghost flagged: set<nat>)
      returns (stack: seq<nat>, out: seq<Info>)
      requires WellFormed(mem, l) && h in l.depth && depth == l.depth[h] && bn in mem.bs && bn in visited
      requires Plan(l, startB, startH, marked, flagged) && DirtyIsFlagged(l, startB, startH)
      requires oldB * Below(l, h) == startB * Below(l, h) && oldH * HbBelow(l, h) == startH * HbBelow(l, h)
      requires listed !! Below(l, h)
      requires Inside(mem, l, h, visited, bn, 0, stack0)
      requires Progress(l, h, Steps(l, h, visited, bn, 0), oldB, oldH, dirtyB, dirtyH, marked, flagged)
      requires ListOk(l, list) && Bnodes(list) == listed + Gathered(l, h, Steps(l, h, visited, bn, 0), marked)
      modifies this`dirtyB, this`dirtyH
      ensures var n := |mem.bs[bn].entries|;
              && Inside(mem, l, h, visited, bn, n, stack)
              && Progress(l, h, Steps(l, h, visited, bn, n), oldB, oldH, dirtyB, dirtyH, marked, flagged)
              && ListOk(l, out) && Bnodes(out) == listed + Gathered(l, h, Steps(l, h, visited, bn, n), marked)
      decreases l.maxDepth - l.depth[h], 0
    {
      hide Ranked, SepsOk, StepsOk, RootsOk, Plan, DirtyIsFlagged, AtHead, Inside, ListOk, Under, UnderB;
      hide Below, HbBelow, AfterB, AfterH, Gathered, Steps, VisitedSteps, AllSteps, Owned, Bnodes, Seeds;
      stack, out := stack0, list;
      var i: nat := 0;
      while i < |mem.bs[bn].entries|
        invariant 0 <= i <= |mem.bs[bn].entries|
        invariant Inside(mem, l, h, visited, bn, i, stack)
        invariant Progress(l, h, Steps(l, h, visited, bn, i), oldB, oldH, dirtyB, dirtyH, marked, flagged)
        invariant ListOk(l, out) && Bnodes(out) == listed + Gathered(l, h, Steps(l, h, visited, bn, i), marked)
      {
        var e := mem.bs[bn].entries[i];
        if e.tag.Sep? && e.child.Some? {
          PushChild(mem, l, h, visited, bn, i, stack);
          stack := stack + [e.child.value];
          StepsSkip(mem, l, h, visited, bn, i);
        } else {
          PassEntry(mem, l, h, visited, bn, i, stack);
          if e.child.Some? {
            var c := e.child.value;
            StepsAdd(mem, l, h, visited, bn, i);
            SeedsClose(l, startB, startH, marked, flagged);
            BeforeChild(l, h, Steps(l, h, visited, bn, i), c, oldB, oldH, dirtyB, dirtyH, startB, startH, marked, flagged, listed);
            AfterStep(l, h, Steps(l, h, visited, bn, i), c, oldB, oldH, marked, flagged);
            out := CollectHb(c, Some((bn, i)), depth + 1, out, l, startB, startH, marked, flagged);
            if c in dirtyH {
              dirtyB := dirtyB + {bn};
              dirtyH := dirtyH + {h};
            }
          } else {
            StepsSkip(mem, l, h, visited, bn, i);
          }
        }
        i := i + 1;
      }
    }

    /** Push the loaded B+tree children of bn, each with the entry it hangs from. */
    method PushSeps(bn: nat, stack: seq<(nat, Option<(nat, nat)>)>, ghost h: nat, ghost visited: set<nat>, ghost ids: seq<nat>, ghost l: Layout)
      returns (out: seq<(nat, Option<(nat, nat)>)>, ghost ids': seq<nat>)
      requires WellFormed(mem, l) && bn in mem.bs
      requires Inside(mem, l, h, visited, bn, 0, ids) && Items(l, h, stack, ids)
      ensures Inside(mem, l, h, visited, bn, |mem.bs[bn].entries|, ids') && Items(l, h, out, ids')
    {
      hide *;
      out, ids' := stack, ids;
      var i: nat := 0;
      while i < |mem.bs[bn].entries|
        invariant 0 <= i <= |mem.bs[bn].entries|
        invariant Inside(mem, l, h, visited, bn, i, ids') && Items(l, h, out, ids')
      {
        var e := mem.bs[bn].entries[i];
        if e.tag.Sep? && e.child.Some? {
          PushChild(mem, l, h, visited, bn, i, ids');
          PushItem(l, h, out, ids', e.child.value);
          out := out + [(e.child.value, Some((bn, i)))];
          ids' := ids' + [e.child.value];
        } else {
          PassEntry(mem, l, h, visited, bn, i, ids');
        }
        i := i + 1;
      }
    }

    /** Phase 2: every dirty bnode of the B+tree of h goes on the list with its parent. */
    method ListDirty(h: nat, cross: Option<(nat, nat)>, depth: nat, list: seq<Info>, ghost l: Layout)
      returns (out: seq<Info>)
      requires WellFormed(mem, l) && h in mem.hs && h in l.depth && depth == l.depth[h]
      requires cross == (if h in l.at then Some(l.at[h]) else None)
      requires ListOk(l, list) && Bnodes(list) !! Owned(l, h)
      ensures ListOk(l, out) && Bnodes(out) == Bnodes(list) + dirtyB * Owned(l, h)
    {
      hide Ranked, SepsOk, StepsOk, RootsOk, AtHead, Inside, ListOk, Bnodes, Items;
      out := list;
      var stack: seq<(nat, Option<(nat, nat)>)> := [(mem.hs[h], cross)];
      ghost var ids := [mem.hs[h]];
      ghost var visited: set<nat> := {};
      StartWalk(mem, l, h);
      RootKeys(mem, l, h);
      assert Items(l, h, [(mem.hs[h], cross)], [mem.hs[h]]) by { OneItem(l, h, mem.hs[h], cross); }
      while |stack| > 0
        invariant AtHead(mem, l, h, visited, ids) && Items(l, h, stack, ids)
        invariant ListOk(l, out) && Bnodes(out) == Bnodes(list) + dirtyB * visited
        invariant visited <= Owned(l, h)
        decreases |Owned(l, h) - visited|
      {
        WellFormedKeys(mem, l);
        PopItem(l, h, stack, ids);
        PopBnode(mem, l, h, visited, ids);
        Visiting(dirtyB, visited, ids[|ids| - 1], Bnodes(list));
        var bn := stack[|stack| - 1].0;
        var parent := stack[|stack| - 1].1;
        stack := stack[..|stack| - 1];
        ids := ids[..|ids| - 1];
        if bn in dirtyB {
          var d := Info(bn, h, parent, mem.bs[bn].level, depth);
          ListGrows(l, out, d);
          out := out + [d];
        }
        visited := visited + {bn};
        stack, ids := PushSeps(bn, stack, h, visited, ids, l);
        LeaveBnode(mem, l, h, visited, bn, ids);
      }
      assert ids == [] by { NoItems(l, h, stack, ids); }
      WholeTree(mem, l, h, visited);
    }

    /** collect_dirty_bnodes_from_hbnode: below h, exactly the marked bnodes end up dirty and
        listed, and exactly the flagged hbtrie nodes end up dirty. */
    method CollectHb(h: nat, cross: Option<(nat, nat)>, depth: nat, list: seq<Info>, ghost l: Layout,
                     ghost startB: set<nat>, ghost startH: set<nat>, ghost marked: set<nat>, ghost flagged: set<nat>)
      returns (out: seq<Info>)
      requires WellFormed(mem, l) && h in mem.hs && h in l.depth && depth == l.depth[h]
      requires cross == (if h in l.at then Some(l.at[h]) else None)
      requires Plan(l, startB, startH, marked, flagged) && DirtyIsFlagged(l, startB, startH)
      requires dirtyB * Below(l, h) == startB * Below(l, h) && dirtyH * HbBelow(l, h) == startH * HbBelow(l, h)
      requires ListOk(l, list) && Bnodes(list) !! Below(l, h)
      modifies this`dirtyB, this`dirtyH
      ensures dirtyB == (old(dirtyB) - Below(l, h)) + marked * Below(l, h)
      ensures dirtyH == (old(dirtyH) - HbBelow(l, h)) + flagged * HbBelow(l, h)
      ensures ListOk(l, out) && Bnodes(out) == Bnodes(list) + marked * Below(l, h)
      decreases l.maxDepth - l.depth[h], 2
    {
      hide Ranked, SepsOk, StepsOk, RootsOk, Plan, DirtyIsFlagged, AtHead, Inside, ListOk, Under, UnderB;
      hide Below, HbBelow, AfterB, AfterH, Gathered, Steps, VisitedSteps, AllSteps, Owned, Bnodes, Seeds;
      out := CollectChildren(h, depth, list, l, startB, startH, marked, flagged);
      ChildrenDone(mem, l, h, startB, startH, old(dirtyB), old(dirtyH), marked, flagged);
      ghost var b1 := dirtyB;
      if h in dirtyH {
        SeedsClose(l, startB, startH, marked, flagged);
        RootKeys(mem, l, h);
        PropagateUp(mem.hs[h], l, Seeds(l, startB, flagged), marked);
        OwnClosed(mem, l, h, old(dirtyB), b1, dirtyB, marked);
        out := ListDirty(h, cross, depth, out, l);
      } else {
        NothingMarked(l, h, startB, startH, marked, flagged, old(dirtyB), b1);
      }
    }
  }
}
