/**
 Two proof aids for the flush: the bookkeeping of a stack-driven walk over one B+tree, and the
 sets of nodes below an hbtrie node.
 */
module Walk {
  import opened NodeStore
  import opened Layout

  // ---------------------------------------------------------------- one B+tree

  ghost function Owned(l: Layout, h: nat): set<nat> {
    set b | b in l.owner && l.owner[b] == h
  }

  ghost predicate NoDup(s: seq<nat>) {
    forall i, j | 0 <= i < j < |s| :: s[i] != s[j]
  }

  /** Between two bnodes: the seen nodes are the root and everything hanging from a visited one. */
  ghost predicate AtHead(m: Mem, l: Layout, h: nat, visited: set<nat>, stack: seq<nat>) {
    && h in m.hs && visited <= Owned(l, h) && NoDup(stack)
    && (forall c | c in stack :: c in Owned(l, h) && c !in visited)
    && (forall c | c in Owned(l, h) ::
          c in visited || c in stack <==> c == m.hs[h] || (c in l.pos && l.pos[c].0 in visited))
  }

  /** Inside bnode b, with its first i entries done. */
  ghost predicate Inside(m: Mem, l: Layout, h: nat, visited: set<nat>, b: nat, i: nat, stack: seq<nat>) {
    && h in m.hs && visited <= Owned(l, h) && NoDup(stack) && b in visited && b in m.bs && i <= |m.bs[b].entries|
    && (forall c | c in stack :: c in Owned(l, h) && c !in visited)
    && (forall c | c in Owned(l, h) ::
          c in visited || c in stack <==>
            c == m.hs[h] || (c in l.pos && l.pos[c].0 in visited && (l.pos[c].0 == b ==> l.pos[c].1 < i)))
  }

  lemma StartWalk(m: Mem, l: Layout, h: nat)
    requires WellFormed(m, l) && h in m.hs
    ensures AtHead(m, l, h, {}, [m.hs[h]])
  {
    assert [m.hs[h]][0] == m.hs[h];
  }

  lemma PopBnode(m: Mem, l: Layout, h: nat, visited: set<nat>, stack: seq<nat>)
    requires l.owner.Keys == m.bs.Keys && AtHead(m, l, h, visited, stack) && stack != []
    ensures var b := stack[|stack| - 1];
            && b in m.bs && b in l.owner && l.owner[b] == h && b !in visited
            && Inside(m, l, h, visited + {b}, b, 0, stack[..|stack| - 1])
            && |Owned(l, h) - (visited + {b})| < |Owned(l, h) - visited|
  {
    var b := stack[|stack| - 1];
    var rest := stack[..|stack| - 1];
    assert b in stack && b in Owned(l, h);
    assert forall c :: c in stack <==> c in rest || c == b by { assert stack == rest + [b]; }
    assert b !in rest;
    assert Owned(l, h) - (visited + {b}) == (Owned(l, h) - visited) - {b};
  }

  lemma SepChild(m: Mem, l: Layout, h: nat, b: nat, i: nat)
    requires WellFormed(m, l) && b in m.bs && b in l.owner && l.owner[b] == h && i < |m.bs[b].entries|
    requires m.bs[b].entries[i].tag.Sep? && m.bs[b].entries[i].child.Some?
    ensures var c := m.bs[b].entries[i].child.value;
            c in l.pos && l.pos[c] == (b, i) && c in Owned(l, h) && h in m.hs && c != m.hs[h]
    ensures forall d | d in l.pos && l.pos[d] == (b, i) :: d == m.bs[b].entries[i].child.value
  {
    hide StepsOk;
  }

  lemma PushChild(m: Mem, l: Layout, h: nat, visited: set<nat>, b: nat, i: nat, stack: seq<nat>)
    requires WellFormed(m, l) && Inside(m, l, h, visited, b, i, stack) && i < |m.bs[b].entries|
    requires m.bs[b].entries[i].tag.Sep? && m.bs[b].entries[i].child.Some?
    ensures Inside(m, l, h, visited, b, i + 1, stack + [m.bs[b].entries[i].child.value])
    ensures m.bs[b].entries[i].child.value in l.pos && l.pos[m.bs[b].entries[i].child.value] == (b, i)
  {
    assert b in Owned(l, h);
    SepChild(m, l, h, b, i);
    var c := m.bs[b].entries[i].child.value;
    hide WellFormed, Owned;
    assert c !in visited && c !in stack;
    PushInside(m, l, h, visited, b, i, stack, c);
  }

  lemma PushInside(m: Mem, l: Layout, h: nat, visited: set<nat>, b: nat, i: nat, stack: seq<nat>, c: nat)
    requires Inside(m, l, h, visited, b, i, stack) && i < |m.bs[b].entries| && c !in visited && c !in stack && c in Owned(l, h)
    requires c in l.pos && l.pos[c] == (b, i) && forall d | d in l.pos && l.pos[d] == (b, i) :: d == c
    ensures Inside(m, l, h, visited, b, i + 1, stack + [c])
  {
    hide Owned;
    var more := stack + [c];
    forall d | d in Owned(l, h)
      ensures d in visited || d in more <==>
                d == m.hs[h] || (d in l.pos && l.pos[d].0 in visited && (l.pos[d].0 == b ==> l.pos[d].1 < i + 1))
    {
      assert d in more <==> d in stack || d == c;
      assert d in l.pos && l.pos[d].0 == b && l.pos[d].1 == i ==> l.pos[d] == (b, i);
    }
  }

  lemma PassEntry(m: Mem, l: Layout, h: nat, visited: set<nat>, b: nat, i: nat, stack: seq<nat>)
    requires WellFormed(m, l) && Inside(m, l, h, visited, b, i, stack) && i < |m.bs[b].entries|
    requires !(m.bs[b].entries[i].tag.Sep? && m.bs[b].entries[i].child.Some?)
    ensures Inside(m, l, h, visited, b, i + 1, stack) && visited <= Owned(l, h)
  {
    NoSepAt(m, l, b, i);
    hide WellFormed, Owned;
    forall d | d in l.pos && l.pos[d].0 == b ensures l.pos[d].1 != i { assert l.pos[d] == (l.pos[d].0, l.pos[d].1); }
  }

  lemma NoSepAt(m: Mem, l: Layout, b: nat, i: nat)
    requires WellFormed(m, l) && b in m.bs && i < |m.bs[b].entries|
    requires !(m.bs[b].entries[i].tag.Sep? && m.bs[b].entries[i].child.Some?)
    ensures forall d | d in l.pos :: l.pos[d] != (b, i)
  {
    hide Ranked, StepsOk, RootsOk;
  }

  lemma LeaveBnode(m: Mem, l: Layout, h: nat, visited: set<nat>, b: nat, stack: seq<nat>)
    requires WellFormed(m, l) && b in m.bs && Inside(m, l, h, visited, b, |m.bs[b].entries|, stack)
    ensures AtHead(m, l, h, visited, stack)
  {
  }

  /** With the stack empty every bnode of the B+tree has been visited. */
  lemma WholeTree(m: Mem, l: Layout, h: nat, visited: set<nat>)
    requires WellFormed(m, l) && AtHead(m, l, h, visited, [])
    ensures visited == Owned(l, h)
  {
    forall b | b in Owned(l, h) ensures b in visited { Visited(m, l, h, visited, b); }
  }

  lemma {:induction false} Visited(m: Mem, l: Layout, h: nat, visited: set<nat>, b: nat)
    requires WellFormed(m, l) && AtHead(m, l, h, visited, []) && b in Owned(l, h)
    ensures b in visited
    decreases LEVELS - l.level[b]
  {
    if b in l.pos { Visited(m, l, h, visited, l.pos[b].0); }
  }

  // ---------------------------------------------------------------- below an hbtrie node

  ghost function HbBelow(l: Layout, h: nat): set<nat>
    requires Ranked(l)
  {
    set x | x in l.depth && Under(l, x, h)
  }

  ghost function Below(l: Layout, h: nat): set<nat>
    requires Ranked(l)
  {
    set b | b in l.owner && Under(l, l.owner[b], h)
  }

  /** The children of h hanging from visited bnodes, for b only from its first i entries. */
  ghost function Steps(l: Layout, h: nat, visited: set<nat>, b: nat, i: nat): set<nat> {
    set c | c in l.at && l.at[c].0 in visited && (l.at[c].0 == b ==> l.at[c].1 < i)
  }

  ghost function AllSteps(l: Layout, h: nat): set<nat>
    requires Ranked(l)
  {
    set c | c in l.at && Up(l, c) == h
  }

  /** Dirty bnodes once the children `proc` of h are done, from dirty set `now`. */
  ghost function AfterB(l: Layout, h: nat, proc: set<nat>, now: set<nat>, marked: set<nat>, flagged: set<nat>): set<nat>
    requires Ranked(l)
  {
    set b | b in now + marked + l.owner.Keys &&
      if b in l.owner && l.owner[b] != h && Under(l, l.owner[b], h) && Top(l, l.owner[b], h) in proc then b in marked
      else b in now || Holds(l, b, flagged * proc)
  }

  ghost function AfterH(l: Layout, h: nat, proc: set<nat>, now: set<nat>, flagged: set<nat>): set<nat>
    requires Ranked(l)
  {
    set x | x in now + flagged + {h} &&
      if x in l.depth && x != h && Under(l, x, h) && Top(l, x, h) in proc then x in flagged
      else x in now || (x == h && flagged * proc != {})
  }

  /** Bnodes listed once the children `proc` of h are done. */
  ghost function Gathered(l: Layout, h: nat, proc: set<nat>, marked: set<nat>): set<nat>
    requires Ranked(l)
  {
    set b | b in marked && b in l.owner && l.owner[b] != h && Under(l, l.owner[b], h) && Top(l, l.owner[b], h) in proc
  }

  lemma InChild(l: Layout, h: nat, c: nat, x: nat)
    requires Ranked(l) && c in l.at && Up(l, c) == h && x in l.depth
    ensures Under(l, x, c) <==> x != h && Under(l, x, h) && Top(l, x, h) == c
  {
    if Under(l, x, c) { TopIs(l, x, c, h); }
  }

  lemma AfterStep(l: Layout, h: nat, proc: set<nat>, c: nat, nowB: set<nat>, nowH: set<nat>, marked: set<nat>, flagged: set<nat>)
    requires Ranked(l) && marked <= l.owner.Keys && flagged <= l.depth.Keys
    requires c in l.at && c !in proc && Up(l, c) == h && proc <= AllSteps(l, h)
    ensures var b1 := AfterB(l, h, proc, nowB, marked, flagged);
            var b2 := (b1 - Below(l, c)) + marked * Below(l, c);
            AfterB(l, h, proc + {c}, nowB, marked, flagged) == if c in flagged then b2 + {l.at[c].0} else b2
    ensures var h1 := AfterH(l, h, proc, nowH, flagged);
            var h2 := (h1 - HbBelow(l, c)) + flagged * HbBelow(l, c);
            AfterH(l, h, proc + {c}, nowH, flagged) == if c in flagged then h2 + {h} else h2
    ensures Gathered(l, h, proc + {c}, marked) == Gathered(l, h, proc, marked) + marked * Below(l, c)
  {
    hide Under, Top;
    forall x | x in l.depth ensures Under(l, x, c) <==> x != h && Under(l, x, h) && Top(l, x, h) == c {
      InChild(l, h, c, x);
    }
    StepB(l, h, proc, c, nowB, marked, flagged);
    StepH(l, h, proc, c, nowH, flagged);
  }

  lemma StepB(l: Layout, h: nat, proc: set<nat>, c: nat, nowB: set<nat>, marked: set<nat>, flagged: set<nat>)
    requires Ranked(l) && marked <= l.owner.Keys
    requires c in l.at && c !in proc && Up(l, c) == h && proc <= AllSteps(l, h)
    requires forall x | x in l.depth :: Under(l, x, c) <==> x != h && Under(l, x, h) && Top(l, x, h) == c
    ensures var b1 := AfterB(l, h, proc, nowB, marked, flagged);
            var b2 := (b1 - Below(l, c)) + marked * Below(l, c);
            AfterB(l, h, proc + {c}, nowB, marked, flagged) == if c in flagged then b2 + {l.at[c].0} else b2
  {
    hide Under, Top;
    var b1 := AfterB(l, h, proc, nowB, marked, flagged);
    var b2 := (b1 - Below(l, c)) + marked * Below(l, c);
    var b3 := if c in flagged then b2 + {l.at[c].0} else b2;
    var goal := AfterB(l, h, proc + {c}, nowB, marked, flagged);
    forall b ensures Holds(l, b, flagged * (proc + {c})) <==> Holds(l, b, flagged * proc) || (c in flagged && l.at[c].0 == b) {
      if Holds(l, b, flagged * proc) {
        var d :| d in flagged * proc && d in l.at && l.at[d].0 == b;
        assert d in flagged * (proc + {c});
      }
      if c in flagged && l.at[c].0 == b { assert c in flagged * (proc + {c}); }
    }
    forall b | Holds(l, b, flagged * (proc + {c})) ensures b in l.owner && l.owner[b] == h {
      var d :| d in flagged * (proc + {c}) && d in l.at && l.at[d].0 == b;
      assert d == c || d in AllSteps(l, h);
    }
    forall b ensures b in goal <==> b in b3 { }
  }

  lemma StepH(l: Layout, h: nat, proc: set<nat>, c: nat, nowH: set<nat>, flagged: set<nat>)
    requires Ranked(l) && flagged <= l.depth.Keys
    requires c in l.at && c !in proc && Up(l, c) == h && proc <= AllSteps(l, h)
    requires forall x | x in l.depth :: Under(l, x, c) <==> x != h && Under(l, x, h) && Top(l, x, h) == c
    ensures var h1 := AfterH(l, h, proc, nowH, flagged);
            var h2 := (h1 - HbBelow(l, c)) + flagged * HbBelow(l, c);
            AfterH(l, h, proc + {c}, nowH, flagged) == if c in flagged then h2 + {h} else h2
  {
    hide Under, Top;
    assert c in flagged ==> c in flagged * (proc + {c});
    assert flagged * proc <= flagged * (proc + {c});
    assert c !in flagged ==> flagged * (proc + {c}) == flagged * proc;
  }
}
