/**
 The copy-on-write flush (database_flush_dirty_bnodes): collected bnodes are written children
 first to fresh offsets, each parent entry is repointed, and one superblock write switches the
 root. What can be opened afterwards is stated for every state the invariants allow.
 */
module Flush {
  import opened Common
  import opened NodeStore
  import opened Layout
  import opened Walk
  import opened Collect

  // ---------------------------------------------------------------- order of writing

  /** compare_dirty_by_level: deeper hbtrie nodes first, then lower B+tree levels. */
  predicate Before(a: Info, b: Info) {
    a.depth > b.depth || (a.depth == b.depth && a.level < b.level)
  }

  ghost predicate Ordered(list: seq<Info>) {
    forall i, j | 0 <= i < j < |list| :: !Before(list[j], list[i])
  }

  function Inserted(list: seq<Info>, k: nat, d: Info): seq<Info>
    requires k <= |list|
  {
    list[..k] + [d] + list[k..]
  }

  lemma InsertInfo(l: Layout, list: seq<Info>, k: nat, d: Info)
    requires ListOk(l, list) && InfoOk(l, d) && d.bnode !in Bnodes(list) && k <= |list|
    ensures ListOk(l, Inserted(list, k, d)) && Bnodes(Inserted(list, k, d)) == Bnodes(list) + {d.bnode}
  {
    hide InfoOk;
    var all := Inserted(list, k, d);
    InsertedAt(list, k, d);
    assert forall i | 0 <= i < |list| :: list[i].bnode in Bnodes(list);
    InsertedBnodes(list, k, d);
  }

  lemma InsertedAt(list: seq<Info>, k: nat, d: Info)
    requires k <= |list|
    ensures var all := Inserted(list, k, d);
            |all| == |list| + 1 && forall i | 0 <= i < |all| :: all[i] == if i < k then list[i] else if i == k then d else list[i - 1]
  {
  }

  lemma InsertedBnodes(list: seq<Info>, k: nat, d: Info)
    requires k <= |list|
    ensures Bnodes(Inserted(list, k, d)) == Bnodes(list) + {d.bnode}
  {
    var all := Inserted(list, k, d);
    InsertedAt(list, k, d);
    forall x | x in Bnodes(list) + {d.bnode} ensures x in Bnodes(all) {
      if x == d.bnode { assert all[k].bnode == x; } else {
        var i :| 0 <= i < |list| && list[i].bnode == x;
        assert all[if i < k then i else i + 1].bnode == x;
      }
    }
  }

  lemma PrefixOk(l: Layout, list: seq<Info>, n: nat)
    requires ListOk(l, list) && n < |list|
    ensures ListOk(l, list[..n]) && list[n].bnode !in Bnodes(list[..n])
    ensures Bnodes(list[..n + 1]) == Bnodes(list[..n]) + {list[n].bnode}
  {
    var p := list[..n];
    assert forall i | 0 <= i < n :: p[i] == list[i];
    forall x | x in Bnodes(list[..n + 1]) ensures x in Bnodes(p) + {list[n].bnode} {
      var i :| 0 <= i < n + 1 && list[..n + 1][i].bnode == x;
      if i < n { assert p[i].bnode == x; }
    }
    forall x | x in Bnodes(p) + {list[n].bnode} ensures x in Bnodes(list[..n + 1]) {
      if x == list[n].bnode { assert list[..n + 1][n].bnode == x; } else {
        var i :| 0 <= i < n && p[i].bnode == x;
        assert list[..n + 1][i].bnode == x;
      }
    }
  }

  /** qsort with compare_dirty_by_level: the same bnodes, children before parents. */
  method SortInfos(list: seq<Info>, ghost l: Layout) returns (out: seq<Info>)
    requires ListOk(l, list)
    ensures ListOk(l, out) && Bnodes(out) == Bnodes(list) && Ordered(out) && |out| == |list|
  {
    hide ListOk, Bnodes, InfoOk, Inserted, Before, Ordered;
    out := [];
    var n := 0;
    EmptyList(l);
    assert list[..0] == [];
    while n < |list|
      invariant 0 <= n <= |list| && |out| == n
      invariant ListOk(l, out) && Bnodes(out) == Bnodes(list[..n]) && Ordered(out)
    {
      var d := list[n];
      var k := 0;
      while k < |out| && !Before(d, out[k])
        invariant 0 <= k <= |out|
        invariant forall i | 0 <= i < k :: !Before(d, out[i])
      {
        k := k + 1;
      }
      PrefixOk(l, list, n);
      assert InfoOk(l, d) by { GoodInfo(l, list, n); }
      InsertInfo(l, out, k, d);
      InsertOrdered(out, k, d);
      out := Inserted(out, k, d);
      n := n + 1;
    }
    assert list[..n] == list;
  }

  lemma EmptyList(l: Layout)
    ensures ListOk(l, []) && Bnodes([]) == {} && Ordered([])
  {
  }

  lemma GoodInfo(l: Layout, list: seq<Info>, n: nat)
    requires ListOk(l, list) && n < |list|
    ensures InfoOk(l, list[n])
  {
  }

  lemma InsertOrdered(list: seq<Info>, k: nat, d: Info)
    requires Ordered(list) && k <= |list|
    requires forall i | 0 <= i < k :: !Before(d, list[i])
    requires k < |list| ==> Before(d, list[k])
    ensures Ordered(Inserted(list, k, d)) && |Inserted(list, k, d)| == |list| + 1
  {
    InsertedAt(list, k, d);
  }

  // ---------------------------------------------------------------- the invariant of the files

  /** A clean bnode is on disk as it stands in memory; only an empty root may be unwritten. */
  ghost predicate Stored(m: Mem, disk: Disk, l: Layout, b: nat)
    requires b in m.bs
  {
    || (m.bs[b].off in disk && 0 < m.bs[b].off < UNWRITTEN && Mirrors(disk[m.bs[b].off], m.bs[b]))
    || (l.root in m.hs && b == m.hs[l.root] && m.bs[b] == BNode(1, [], UNWRITTEN))
  }

  /** Clean bnodes are stored, and their parent entry holds their offset. */
  ghost predicate Settled(m: Mem, disk: Disk, l: Layout, dirty: set<nat>) {
    && (forall b | b in m.bs && b !in dirty :: Stored(m, disk, l, b))
    && (forall b, i | b in m.bs && 0 <= i < |m.bs[b].entries| ::
          Kid(m, m.bs[b].entries[i]).Some? && Kid(m, m.bs[b].entries[i]).value !in dirty
          && Kid(m, m.bs[b].entries[i]).value in m.bs ==>
            m.bs[b].entries[i].off == m.bs[Kid(m, m.bs[b].entries[i]).value].off)
  }

  /** The same, except that the record of a clean bnode in s is what serialising it gives, without the
      children that serialising drops. */
  ghost predicate SettledBut(m: Mem, disk: Disk, l: Layout, dirty: set<nat>, s: set<nat>) {
    && (forall b | b in m.bs && b !in dirty && b in s :: Written(m, disk, b))
    && (forall b | b in m.bs && b !in dirty && b !in s :: Stored(m, disk, l, b))
    && (forall b, i | b in m.bs && 0 <= i < |m.bs[b].entries| ::
          Kid(m, m.bs[b].entries[i]).Some? && Kid(m, m.bs[b].entries[i]).value !in dirty
          && Kid(m, m.bs[b].entries[i]).value in m.bs ==>
            m.bs[b].entries[i].off == m.bs[Kid(m, m.bs[b].entries[i]).value].off)
  }

  lemma SettledIsSettledBut(m: Mem, disk: Disk, l: Layout, dirty: set<nat>)
    requires Settled(m, disk, l, dirty)
    ensures SettledBut(m, disk, l, dirty, {}) && UpOrDirty(m, {}, dirty)
  {
    hide Mirrors;
  }

  /** The parent of a bnode in s is in s, or dirty. */
  ghost predicate UpOrDirty(m: Mem, s: set<nat>, dirty: set<nat>) {
    forall b, i | b in m.bs && 0 <= i < |m.bs[b].entries| ::
      Kid(m, m.bs[b].entries[i]).Some? && Kid(m, m.bs[b].entries[i]).value in s ==> b in s || b in dirty
  }

  /** Progress of one writing pass: `written` bnodes are on disk as serialised, everything else
      in memory is as at the start, except entries that point to a written child. */
  ghost predicate Writing(m1: Mem, m: Mem, disk1: Disk, disk: Disk, written: set<nat>) {
    && Repointed(m1, m) && Extends(disk1, disk) && written <= m1.bs.Keys
    && (forall b | b in written :: Written(m, disk, b))
    && (forall b | b in m1.bs && b !in written :: m.bs[b].off == m1.bs[b].off)
    && (forall b, i | b in m1.bs && 0 <= i < |m1.bs[b].entries| :: PointsRight(m1, m, written, b, i))
  }

  ghost predicate Written(m: Mem, disk: Disk, b: nat) {
    b in m.bs && 0 < m.bs[b].off < UNWRITTEN && m.bs[b].off in disk && disk[m.bs[b].off] == Serialize(m.bs[b])
  }

  ghost predicate PointsRight(m1: Mem, m: Mem, written: set<nat>, b: nat, i: nat)
    requires b in m1.bs && i < |m1.bs[b].entries|
  {
    && b in m.bs && i < |m.bs[b].entries|
    && var k := Kid(m1, m1.bs[b].entries[i]);
       if k.Some? && k.value in written then k.value in m.bs && m.bs[b].entries[i].off == m.bs[k.value].off
       else m.bs[b].entries[i].off == m1.bs[b].entries[i].off
  }

  lemma StartWriting(m: Mem, disk: Disk)
    ensures Writing(m, m, disk, disk, {})
  {
  }

  function SetOff(m: Mem, b: nat, off: nat): Mem
    requires b in m.bs
  {
    m.(bs := m.bs[b := m.bs[b].(off := off)])
  }

  function SetEntryOff(m: Mem, p: nat, i: nat, off: nat): Mem
    requires p in m.bs && i < |m.bs[p].entries|
  {
    m.(bs := m.bs[p := m.bs[p].(entries := m.bs[p].entries[i := m.bs[p].entries[i].(off := off)])])
  }

  /** Where a bnode hangs. */
  ghost function ParentOf(l: Layout, b: nat): Option<(nat, nat)> {
    if b in l.pos then Some(l.pos[b])
    else if b in l.owner && l.owner[b] in l.at then Some(l.at[l.owner[b]]) else None
  }

  /** The kid of an entry is the bnode that hangs there. */
  lemma KidHangs(m: Mem, l: Layout, b: nat, i: nat, c: nat)
    requires WellFormed(m, l) && b in m.bs && i < |m.bs[b].entries|
    ensures Kid(m, m.bs[b].entries[i]) == Some(c) ==> c in m.bs && ParentOf(l, c) == Some((b, i))
    ensures c in m.bs && ParentOf(l, c) == Some((b, i)) ==> Kid(m, m.bs[b].entries[i]) == Some(c)
  {
    hide WellFormed, Kid, ParentOf;
    if Kid(m, m.bs[b].entries[i]) == Some(c) { KidHasParent(m, l, b, i, c); }
    if c in m.bs && ParentOf(l, c) == Some((b, i)) { ParentHasKid(m, l, b, i, c); }
  }

  lemma KidHasParent(m: Mem, l: Layout, b: nat, i: nat, c: nat)
    requires WellFormed(m, l) && b in m.bs && i < |m.bs[b].entries| && Kid(m, m.bs[b].entries[i]) == Some(c)
    ensures c in m.bs && ParentOf(l, c) == Some((b, i))
  {
    if m.bs[b].entries[i].tag.Sep? { hide StepsOk, RootsOk; } else { hide SepsOk; }
  }

  lemma ParentHasKid(m: Mem, l: Layout, b: nat, i: nat, c: nat)
    requires WellFormed(m, l) && b in m.bs && i < |m.bs[b].entries| && c in m.bs && ParentOf(l, c) == Some((b, i))
    ensures Kid(m, m.bs[b].entries[i]) == Some(c)
  {
    if c in l.pos { hide StepsOk, RootsOk; } else { hide SepsOk; }
  }

  /** One turn of the writing loop in memory: record the new offset, then repoint the parent. */
  function Repoint(m: Mem, b: nat, off: nat, parent: Option<(nat, nat)>): Mem
    requires b in m.bs
  {
    var m2 := SetOff(m, b, off);
    if parent.Some? && parent.value.0 in m2.bs && parent.value.1 < |m2.bs[parent.value.0].entries|
    then SetEntryOff(m2, parent.value.0, parent.value.1, off) else m2
  }

  lemma WriteOne(m1: Mem, m: Mem, disk1: Disk, disk: Disk, l: Layout, written: set<nat>, b: nat, off: nat)
    requires WellFormed(m1, l) && Writing(m1, m, disk1, disk, written)
    requires b in m1.bs && b !in written && off !in disk && 0 < off < UNWRITTEN
    requires ParentOf(l, b).Some? ==> ParentOf(l, b).value.0 !in written + {b}
    ensures b in m.bs
    ensures Writing(m1, Repoint(m, b, off, ParentOf(l, b)), disk1, disk[off := Serialize(m.bs[b])], written + {b})
  {
    hide Serialize, Ranked, SepsOk, StepsOk, RootsOk, PointsRight, ParentOf, Repoint, Written;
    var parent := ParentOf(l, b);
    var m3 := Repoint(m, b, off, parent);
    var disk2 := disk[off := Serialize(m.bs[b])];
    if parent.Some? { ParentExists(m1, l, b); }
    RepointEffect(m1, m, b, off, parent);
    forall c | c in written + {b} ensures Written(m3, disk2, c) {
      WrittenStays(m, m3, disk, disk2, b, off, c);
    }
    forall q, i | q in m1.bs && 0 <= i < |m1.bs[q].entries|
      ensures PointsRight(m1, m3, written + {b}, q, i)
    {
      PointsStill(m1, m, l, written, b, off, q, i);
    }
  }

  lemma RepointEffect(m1: Mem, m: Mem, b: nat, off: nat, parent: Option<(nat, nat)>)
    requires Repointed(m1, m) && b in m1.bs
    requires parent.Some? ==>
               && parent.value.0 in m1.bs && parent.value.0 != b && parent.value.1 < |m1.bs[parent.value.0].entries|
               && m1.bs[parent.value.0].entries[parent.value.1].child.Some?
    ensures var m3 := Repoint(m, b, off, parent);
            && Repointed(m1, m3)
            && m3.bs[b] == m.bs[b].(off := off)
            && (forall q | q in m1.bs && q != b && (parent.None? || q != parent.value.0) :: m3.bs[q] == m.bs[q])
            && (parent.Some? ==>
                  var (p, i) := parent.value;
                  i < |m.bs[p].entries| && m3.bs[p] == m.bs[p].(entries := m.bs[p].entries[i := m.bs[p].entries[i].(off := off)]))
  {
    assert SameNode(m1.bs[b], m.bs[b]);
    if parent.Some? {
      var (p, i) := parent.value;
      assert SameNode(m1.bs[p], m.bs[p]);
      WriteOneShape(m1, m, b, off, p, i);
    } else {
      var m3 := Repoint(m, b, off, parent);
      forall q | q in m1.bs ensures SameNode(m1.bs[q], m3.bs[q]) {
        assert SameNode(m1.bs[q], m.bs[q]);
      }
    }
  }

  lemma WrittenStays(m: Mem, m3: Mem, disk: Disk, disk2: Disk, b: nat, off: nat, c: nat)
    requires b in m.bs && b in m3.bs && m3.bs[b] == m.bs[b].(off := off)
    requires off !in disk && 0 < off < UNWRITTEN && disk2 == disk[off := Serialize(m.bs[b])]
    requires c == b || (Written(m, disk, c) && c in m3.bs && m3.bs[c] == m.bs[c])
    ensures Written(m3, disk2, c)
  {
    if c == b { SerializeIgnoresOff(m.bs[b], off); }
  }

  lemma PointsStill(m1: Mem, m: Mem, l: Layout, written: set<nat>, b: nat, off: nat, q: nat, i: nat)
    requires WellFormed(m1, l) && Repointed(m1, m) && b in m1.bs && b !in written
    requires ParentOf(l, b).Some? ==> ParentOf(l, b).value.0 !in written + {b}
    requires q in m1.bs && i < |m1.bs[q].entries| && PointsRight(m1, m, written, q, i)
    ensures PointsRight(m1, Repoint(m, b, off, ParentOf(l, b)), written + {b}, q, i)
  {
    hide Ranked, SepsOk, StepsOk, RootsOk, ParentOf, Repoint;
    KidHangs(m1, l, q, i, b);
    if ParentOf(l, b).Some? { ParentExists(m1, l, b); }
    RepointEffect(m1, m, b, off, ParentOf(l, b));
    assert SameNode(m1.bs[q], m.bs[q]);
  }

  lemma SerializeIgnoresOff(b: BNode, off: nat)
    ensures Serialize(b.(off := off)) == Serialize(b)
  {
  }

  lemma ParentExists(m: Mem, l: Layout, b: nat)
    requires WellFormed(m, l) && b in m.bs && ParentOf(l, b).Some?
    ensures var (p, i) := ParentOf(l, b).value; p in m.bs && i < |m.bs[p].entries| && m.bs[p].entries[i].child.Some?
    ensures ParentOf(l, b).value.0 in l.owner
  {
  }

  lemma WriteOneShape(m1: Mem, m: Mem, b: nat, off: nat, p: nat, i: nat)
    requires Repointed(m1, m) && b in m1.bs && p in m1.bs && i < |m1.bs[p].entries| && m1.bs[p].entries[i].child.Some? && p != b
    ensures p in m.bs && SameNode(m1.bs[p], m.bs[p]) && b in m.bs && i < |SetOff(m, b, off).bs[p].entries|
    ensures Repointed(m1, SetEntryOff(SetOff(m, b, off), p, i, off))
  {
    assert SameNode(m1.bs[p], m.bs[p]);
    var m3 := SetEntryOff(SetOff(m, b, off), p, i, off);
    forall q | q in m1.bs ensures SameNode(m1.bs[q], m3.bs[q]) {
      assert SameNode(m1.bs[q], m.bs[q]);
      forall j | 0 <= j < |m1.bs[q].entries| ensures SameEntry(m1.bs[q].entries[j], m3.bs[q].entries[j]) {
        assert SameEntry(m1.bs[q].entries[j], m.bs[q].entries[j]);
      }
    }
  }

  // ---------------------------------------------------------------- what the file then holds

  /** The tree a flush stores: in every bnode of w, a value entry whose trie child is on disk
      but not loaded loses that child; bnodes outside w keep their record. */
  ghost function Saved(m: Mem, disk: Disk, w: set<nat>, b: nat, t: Tree): Tree
    requires Means(m, disk, b, t)
    decreases t
  {
    if b !in w then t
    else Node(t.level, seq(|t.items|, i requires 0 <= i < |t.items| =>
      var e := m.bs[b].entries[i];
      Item(t.items[i].tag,
           if Drops(e) then None
           else if e.child.Some? then Some(Saved(m, disk, w, Kid(m, e).value, t.items[i].sub.value))
           else t.items[i].sub)))
  }

  /** w contains the parent of every bnode it contains. */
  ghost predicate UpClosed(m: Mem, w: set<nat>) {
    forall b, i | b in m.bs && 0 <= i < |m.bs[b].entries| ::
      Kid(m, m.bs[b].entries[i]).Some? && Kid(m, m.bs[b].entries[i]).value in w ==> b in w
  }

  /** After the pass: bnodes of w are written, the others stored, and entries point right. */
  ghost predicate Flushed(m: Mem, disk: Disk, l: Layout, w: set<nat>) {
    && (forall b | b in m.bs && b in w :: Written(m, disk, b))
    && (forall b | b in m.bs && b !in w :: Stored(m, disk, l, b))
    && (forall b, i | b in m.bs && 0 <= i < |m.bs[b].entries| ::
          Kid(m, m.bs[b].entries[i]).Some? && Kid(m, m.bs[b].entries[i]).value in m.bs ==>
            && m.bs[b].entries[i].off == m.bs[Kid(m, m.bs[b].entries[i]).value].off
            && 0 < m.bs[b].entries[i].off < UNWRITTEN)
  }

  /** The record of every written bnode decodes to its Saved tree. */
  lemma {:induction false} SavedIsRead(m: Mem, disk: Disk, l: Layout, w: set<nat>, b: nat, t: Tree)
    requires Means(m, disk, b, t) && Flushed(m, disk, l, w) && UpClosed(m, w)
    requires 0 < m.bs[b].off < UNWRITTEN
    ensures Reads(disk, m.bs[b].off, Saved(m, disk, w, b, t))
    decreases t
  {
    var off := m.bs[b].off;
    var u := Saved(m, disk, w, b, t);
    assert b in w ==> Written(m, disk, b);
    assert b !in w ==> Stored(m, disk, l, b);
    forall i | 0 <= i < |t.items|
      ensures && disk[off].entries[i].tag == u.items[i].tag
              && (disk[off].entries[i].off == 0 <==> u.items[i].sub.None?)
              && (u.items[i].sub.Some? ==> Reads(disk, disk[off].entries[i].off, u.items[i].sub.value))
    {
      var e := m.bs[b].entries[i];
      if e.child.Some? {
        var c := Kid(m, e).value;
        assert c in m.bs;
        SavedIsRead(m, disk, l, w, c, t.items[i].sub.value);
        assert b !in w ==> c !in w;
      }
    }
  }

  lemma {:induction false} SavedRepointed(m: Mem, m': Mem, disk: Disk, disk': Disk, w: set<nat>, b: nat, t: Tree)
    requires Means(m, disk, b, t) && Means(m', disk', b, t) && Repointed(m, m')
    ensures Saved(m, disk, w, b, t) == Saved(m', disk', w, b, t)
    decreases t
  {
    var u := Saved(m, disk, w, b, t);
    var u' := Saved(m', disk', w, b, t);
    assert SameNode(m.bs[b], m'.bs[b]);
    if b in w {
      forall i | 0 <= i < |t.items| ensures u.items[i] == u'.items[i] {
        var e := m.bs[b].entries[i];
        assert SameEntry(e, m'.bs[b].entries[i]);
        if e.child.Some? {
          SavedRepointed(m, m', disk, disk', w, Kid(m, e).value, t.items[i].sub.value);
        }
      }
      assert u.items == u'.items;
    }
  }

  /** If no bnode of w drops a child, nothing is lost ... */
  lemma {:induction false} NothingDropped(m: Mem, disk: Disk, w: set<nat>, b: nat, t: Tree)
    requires Means(m, disk, b, t)
    requires forall x | x in m.bs && x in w :: !DropsChild(m.bs[x])
    ensures Saved(m, disk, w, b, t) == t
    decreases t
  {
    if b in w {
      var u := Saved(m, disk, w, b, t);
      forall i | 0 <= i < |t.items| ensures u.items[i] == t.items[i] {
        var e := m.bs[b].entries[i];
        assert !Drops(e);
        if e.child.Some? {
          NothingDropped(m, disk, w, Kid(m, e).value, t.items[i].sub.value);
        }
      }
      assert u.items == t.items;
    }
  }

  /** ... and every bnode of the tree is reached from the root, so otherwise something is. */
  lemma {:induction false} Reached(m: Mem, disk: Disk, l: Layout, w: set<nat>, root: Tree, b: nat) returns (t: Tree)
    requires WellFormed(m, l) && UpClosed(m, w)
    requires Means(m, disk, m.hs[l.root], root) && Saved(m, disk, w, m.hs[l.root], root) == root
    requires b in m.bs
    ensures Means(m, disk, b, t) && Saved(m, disk, w, b, t) == t
    decreases l.depth[l.owner[b]], LEVELS - l.level[b]
  {
    if ParentOf(l, b).None? {
      assert b == m.hs[l.root];
      t := root;
    } else {
      var (p, i) := ParentOf(l, b).value;
      Hangs(m, l, b);
      var u := Reached(m, disk, l, w, root, p);
      t := u.items[i].sub.value;
      assert Kid(m, m.bs[p].entries[i]) == Some(b);
      if p in w {
        assert Saved(m, disk, w, p, u).items[i] == u.items[i];
      } else {
        assert b !in w;
      }
    }
  }

  lemma Hangs(m: Mem, l: Layout, b: nat)
    requires WellFormed(m, l) && b in m.bs && ParentOf(l, b).Some?
    ensures var (p, i) := ParentOf(l, b).value;
            && p in m.bs && i < |m.bs[p].entries| && m.bs[p].entries[i].child.Some? && Kid(m, m.bs[p].entries[i]) == Some(b)
            && (l.depth[l.owner[p]] < l.depth[l.owner[b]]
                || (l.depth[l.owner[p]] == l.depth[l.owner[b]] && l.level[b] < l.level[p]))
  {
  }

  /** A flush loses nothing if and only if no bnode it writes holds a value entry whose trie
      child is on disk but not loaded. */
  lemma LosslessIff(m: Mem, disk: Disk, l: Layout, w: set<nat>, t: Tree)
    requires WellFormed(m, l) && UpClosed(m, w) && Means(m, disk, m.hs[l.root], t)
    ensures Saved(m, disk, w, m.hs[l.root], t) == t <==> forall b | b in m.bs && b in w :: !DropsChild(m.bs[b])
  {
    if forall b | b in m.bs && b in w :: !DropsChild(m.bs[b]) {
      NothingDropped(m, disk, w, m.hs[l.root], t);
    }
    if Saved(m, disk, w, m.hs[l.root], t) == t {
      forall b | b in m.bs && b in w ensures !DropsChild(m.bs[b]) {
        var u := Reached(m, disk, l, w, t, b);
        forall i | 0 <= i < |m.bs[b].entries| ensures !Drops(m.bs[b].entries[i]) {
          assert Saved(m, disk, w, b, u).items[i] == u.items[i];
        }
      }
    }
  }

  // ---------------------------------------------------------------- one pass

  ghost function Owners(l: Layout, w: set<nat>): set<nat> {
    set b | b in w && b in l.owner :: l.owner[b]
  }

  lemma EverythingBelow(l: Layout)
    requires Ranked(l)
    ensures Below(l, l.root) == l.owner.Keys && HbBelow(l, l.root) == l.depth.Keys
  {
    forall x | x in l.depth ensures Under(l, x, l.root) { UnderRoot(l, x); }
  }

  /** A marked bnode's parent is marked. */
  lemma MarkedUpClosed(m: Mem, l: Layout, dirtyB: set<nat>, dirtyH: set<nat>, w: set<nat>, f: set<nat>)
    requires WellFormed(m, l) && Plan(l, dirtyB, dirtyH, w, f) && DirtyIsFlagged(l, dirtyB, dirtyH)
    ensures UpClosed(m, w)
  {
    forall b, i | b in m.bs && 0 <= i < |m.bs[b].entries|
      && Kid(m, m.bs[b].entries[i]).Some? && Kid(m, m.bs[b].entries[i]).value in w
      ensures b in w
    {
      MarkedParent(m, l, dirtyB, dirtyH, w, f, b, i);
    }
  }

  lemma MarkedParent(m: Mem, l: Layout, dirtyB: set<nat>, dirtyH: set<nat>, w: set<nat>, f: set<nat>, b: nat, i: nat)
    requires WellFormed(m, l) && Plan(l, dirtyB, dirtyH, w, f) && DirtyIsFlagged(l, dirtyB, dirtyH)
    requires b in m.bs && i < |m.bs[b].entries|
    requires Kid(m, m.bs[b].entries[i]).Some? && Kid(m, m.bs[b].entries[i]).value in w
    ensures b in w
  {
    var e := m.bs[b].entries[i];
    var c := Kid(m, e).value;
    if e.tag.Sep? {
      assert l.pos[c] == (b, i);
      assert HasSep(l, b, w);
    } else {
      var h := e.child.value;
      assert l.at[h] == (b, i) && l.owner[c] == h;
      MarkedIsFlagged(l, dirtyB, dirtyH, w, f, c);
      assert Holds(l, b, f);
    }
  }

  lemma WellFormedRepointed(m: Mem, m': Mem, l: Layout)
    requires WellFormed(m, l) && Repointed(m, m')
    ensures WellFormed(m', l)
  {
    assert forall b | b in m.bs :: SameNode(m.bs[b], m'.bs[b]);
    assert forall b, i | b in m.bs && 0 <= i < |m.bs[b].entries| :: SameEntry(m.bs[b].entries[i], m'.bs[b].entries[i]);
    SepsRepointed(m, m', l);
    StepsRepointed(m, m', l);
  }

  lemma SepsRepointed(m: Mem, m': Mem, l: Layout)
    requires SepsOk(m, l) && Repointed(m, m')
    ensures SepsOk(m', l)
  {
    assert forall b | b in m.bs :: SameNode(m.bs[b], m'.bs[b]);
    assert forall b, i | b in m.bs && 0 <= i < |m.bs[b].entries| :: SameEntry(m.bs[b].entries[i], m'.bs[b].entries[i]);
  }

  lemma StepsRepointed(m: Mem, m': Mem, l: Layout)
    requires StepsOk(m, l) && Repointed(m, m')
    ensures StepsOk(m', l)
  {
    assert forall b | b in m.bs :: SameNode(m.bs[b], m'.bs[b]);
    assert forall b, i | b in m.bs && 0 <= i < |m.bs[b].entries| :: SameEntry(m.bs[b].entries[i], m'.bs[b].entries[i]);
  }

  /** The sort puts the parent of the j-th bnode strictly later. */
  lemma ParentLater(m: Mem, l: Layout, list: seq<Info>, j: nat)
    requires WellFormed(m, l) && ListOk(l, list) && Ordered(list) && j < |list|
    ensures list[j].bnode in m.bs && list[j].parent == ParentOf(l, list[j].bnode)
    ensures ParentOf(l, list[j].bnode).Some? ==>
              var p := ParentOf(l, list[j].bnode).value.0;
              p !in Bnodes(list[..j]) && p != list[j].bnode
  {
    hide SepsOk, StepsOk, RootsOk;
    var b := list[j].bnode;
    assert InfoOk(l, list[j]);
    WellFormedKeys(m, l);
    if ParentOf(l, b).Some? {
      Hangs(m, l, b);
      var p := ParentOf(l, b).value.0;
      forall k | 0 <= k < j ensures list[..j][k].bnode != p {
        var child, other := list[j], list[k];
        assert InfoOk(l, other) && !Before(child, other);
        assert other.bnode == p ==> Before(child, other);
      }
    }
  }

  /** Step 3 of the flush: write each listed bnode at a fresh offset and repoint its parent,
      which becomes dirty again and is written later. */
  method WriteList(db: Database, file: PageFile, list: seq<Info>, ghost l: Layout) returns (ok: bool, ghost written: set<nat>)
    requires WellFormed(db.mem, l) && file.Valid()
    requires ListOk(l, list) && Ordered(list) && db.dirtyB == Bnodes(list) && UpClosed(db.mem, Bnodes(list))
    modifies db`mem, db`dirtyB, file
    ensures file.Valid() && file.superRoot == old(file.superRoot) && Extends(old(file.nodes), file.nodes)
    ensures Repointed(old(db.mem), db.mem)
    ensures Writing(old(db.mem), db.mem, old(file.nodes), file.nodes, written) && db.dirtyB == Bnodes(list) - written
    ensures ok ==> written == Bnodes(list) && db.dirtyB == {}
    ensures !ok ==> written < Bnodes(list) && UpClosed(old(db.mem), Bnodes(list) - written) && file.Full()
  {
    hide WellFormed, ListOk, Bnodes, PageFile.Full, Ordered, Writing, UpClosed, Serialize, ParentOf, Extends, Repointed, Repoint;
    ghost var m1 := db.mem;
    ghost var disk1 := file.nodes;
    StartWriting(m1, disk1);
    var j := 0;
    EmptyList(l);
    assert list[..0] == [];
    WritingParts(m1, m1, disk1, disk1, {});
    while j < |list|
      invariant 0 <= j <= |list|
      invariant file.Valid() && file.superRoot == old(file.superRoot)
      invariant Writing(m1, db.mem, disk1, file.nodes, Bnodes(list[..j]))
      invariant Extends(disk1, file.nodes) && Repointed(m1, db.mem)
      invariant db.dirtyB == Bnodes(list) - Bnodes(list[..j])
    {
      var info := list[j];
      var bn := info.bnode;
      ParentLater(m1, l, list, j);
      PrefixOk(l, list, j);
      ParentListed(m1, l, list, bn, j);
      KeysKept(m1, db.mem);
      var rec := Serialize(db.mem.bs[bn]);
      ghost var disk' := file.nodes;
      var stored, off := file.WriteNode(rec);
      if !stored {
        RestUpClosed(m1, l, list, j);
        return false, Bnodes(list[..j]);
      }
      WriteOne(m1, db.mem, disk1, disk', l, Bnodes(list[..j]), bn, off);
      db.mem := Repoint(db.mem, bn, off, info.parent);
      db.dirtyB := db.dirtyB - {bn};
      if info.parent.Some? {
        db.dirtyB := db.dirtyB + {info.parent.value.0};
      }
      j := j + 1;
      WritingParts(m1, db.mem, disk1, file.nodes, Bnodes(list[..j]));
    }
    assert list[..j] == list;
    return true, Bnodes(list);
  }

  /** What the sort puts later contains the parents of what it puts later. */
  lemma RestUpClosed(m: Mem, l: Layout, list: seq<Info>, j: nat)
    requires WellFormed(m, l) && ListOk(l, list) && Ordered(list) && j < |list| && UpClosed(m, Bnodes(list))
    ensures Bnodes(list[..j]) < Bnodes(list) && UpClosed(m, Bnodes(list) - Bnodes(list[..j]))
  {
    hide WellFormed, Kid, Ordered;
    PrefixOk(l, list, j);
    PrefixIn(list, j);
    var rest := Bnodes(list) - Bnodes(list[..j]);
    forall b, i | b in m.bs && 0 <= i < |m.bs[b].entries| && Kid(m, m.bs[b].entries[i]).Some? && Kid(m, m.bs[b].entries[i]).value in rest
      ensures b in rest
    {
      var c := Kid(m, m.bs[b].entries[i]).value;
      KidHangs(m, l, b, i, c);
      var k :| 0 <= k < |list| && list[k].bnode == c;
      LaterParent(m, l, list, j, k, c, b, i);
    }
  }

  lemma PrefixIn(list: seq<Info>, j: nat)
    requires j <= |list|
    ensures Bnodes(list[..j]) <= Bnodes(list)
  {
    forall b | b in Bnodes(list[..j]) ensures b in Bnodes(list) {
      var k :| 0 <= k < j && list[..j][k].bnode == b;
      assert list[k].bnode == b;
    }
  }

  lemma LaterParent(m: Mem, l: Layout, list: seq<Info>, j: nat, k: nat, c: nat, b: nat, i: nat)
    requires WellFormed(m, l) && ListOk(l, list) && Ordered(list) && j <= |list| && k < |list| && list[k].bnode == c
    requires c !in Bnodes(list[..j]) && c in m.bs && ParentOf(l, c) == Some((b, i))
    ensures b !in Bnodes(list[..j])
  {
    hide WellFormed, Ordered, ListOk, ParentOf, Bnodes;
    InPrefix(list, j, k);
    ParentLater(m, l, list, k);
    PrefixIn(list[..k], j);
    assert list[..k][..j] == list[..j];
  }

  lemma InPrefix(list: seq<Info>, j: nat, k: nat)
    requires j <= |list| && k < |list|
    ensures k < j ==> list[k].bnode in Bnodes(list[..j])
  {
    if k < j { assert list[..j][k] == list[k]; }
  }

  lemma WritingParts(m1: Mem, m: Mem, disk1: Disk, disk: Disk, w: set<nat>)
    requires Writing(m1, m, disk1, disk, w)
    ensures Repointed(m1, m) && Extends(disk1, disk)
  {
  }

  lemma KeysKept(m1: Mem, m: Mem)
    requires Repointed(m1, m)
    ensures m.bs.Keys == m1.bs.Keys
  {
  }

  lemma ParentListed(m: Mem, l: Layout, list: seq<Info>, b: nat, j: nat)
    requires WellFormed(m, l) && b in m.bs && UpClosed(m, Bnodes(list)) && j < |list| && list[j].bnode == b
    ensures b in Bnodes(list)
    ensures ParentOf(l, b).Some? ==> ParentOf(l, b).value.0 in Bnodes(list)
  {
    if ParentOf(l, b).Some? { Hangs(m, l, b); }
  }

  datatype Pass = Clean | Wrote | Failed

  ghost function HbnodesOf(list: seq<Info>): set<nat> {
    set k | 0 <= k < |list| :: list[k].hbnode
  }

  /** Step 4: clear is_dirty of every hbtrie node that had a bnode in the list. */
  method ClearFlags(db: Database, list: seq<Info>)
    modifies db`dirtyH
    ensures db.dirtyH == old(db.dirtyH) - HbnodesOf(list)
  {
    var i := 0;
    while i < |list|
      invariant 0 <= i <= |list|
      invariant db.dirtyH == old(db.dirtyH) - HbnodesOf(list[..i])
    {
      db.dirtyH := db.dirtyH - {list[i].hbnode};
      assert HbnodesOf(list[..i + 1]) == HbnodesOf(list[..i]) + {list[i].hbnode} by {
        assert list[..i + 1] == list[..i] + [list[i]];
        assert list[..i + 1][i] == list[i];
        assert forall k | 0 <= k < i :: list[..i + 1][k] == list[..i][k];
      }
      i := i + 1;
    }
    assert list[..i] == list;
  }

  lemma HbnodesAreOwners(l: Layout, list: seq<Info>)
    requires ListOk(l, list)
    ensures HbnodesOf(list) == Owners(l, Bnodes(list))
  {
    assert forall k | 0 <= k < |list| :: InfoOk(l, list[k]);
    forall h | h in HbnodesOf(list) ensures h in Owners(l, Bnodes(list)) {
      var k :| 0 <= k < |list| && list[k].hbnode == h;
      assert list[k].bnode in Bnodes(list);
    }
    forall h | h in Owners(l, Bnodes(list)) ensures h in HbnodesOf(list) {
      var b :| b in Bnodes(list) && b in l.owner && l.owner[b] == h;
      var k :| 0 <= k < |list| && list[k].bnode == b;
      assert list[k].hbnode == h;
    }
  }

  lemma EmptyIff(list: seq<Info>)
    ensures list == [] <==> Bnodes(list) == {}
  {
    if list != [] { assert list[0].bnode in Bnodes(list); }
  }

  /** One turn of the flush loop: it writes exactly the marked bnodes and leaves dirty exactly
      the flagged hbtrie nodes that own none of them. */
  method FlushPass(db: Database, file: PageFile, ghost l: Layout) returns (pass: Pass, ghost written: set<nat>)
    requires WellFormed(db.mem, l) && db.root == l.root && file.Valid()
    requires DirtyIsFlagged(l, db.dirtyB, db.dirtyH)
    modifies db`mem, db`dirtyB, db`dirtyH, file
    ensures file.Valid() && file.superRoot == old(file.superRoot) && Extends(old(file.nodes), file.nodes)
    ensures Repointed(old(db.mem), db.mem)
    ensures pass == Clean <==> MarkedSet(l, old(db.dirtyB), old(db.dirtyH)) == {}
    ensures pass == Clean ==> db.mem == old(db.mem) && file.nodes == old(file.nodes)
    ensures pass == Wrote ==> Writing(old(db.mem), db.mem, old(file.nodes), file.nodes, MarkedSet(l, old(db.dirtyB), old(db.dirtyH)))
    ensures pass == Failed ==>
              var w := MarkedSet(l, old(db.dirtyB), old(db.dirtyH));
              && written < w && UpClosed(old(db.mem), w - written) && Writing(old(db.mem), db.mem, old(file.nodes), file.nodes, written)
              && db.dirtyB == w - written && db.dirtyH == FlaggedSet(l, old(db.dirtyH)) && file.Full()
    ensures pass != Failed ==>
              db.dirtyB == {}
              && db.dirtyH == FlaggedSet(l, old(db.dirtyH)) - Owners(l, MarkedSet(l, old(db.dirtyB), old(db.dirtyH)))
  {
    hide Ranked, SepsOk, StepsOk, RootsOk, Plan, DirtyIsFlagged, ListOk, Ordered, Bnodes, Writing, UpClosed, Extends, Repointed;
    hide Below, HbBelow, MarkedSet, FlaggedSet, Owners, HbnodesOf;
    ghost var w := MarkedSet(l, db.dirtyB, db.dirtyH);
    ghost var f := FlaggedSet(l, db.dirtyH);
    ThePlan(l, db.dirtyB, db.dirtyH);
    PlanKeys(l, db.dirtyB, db.dirtyH, w, f);
    EverythingBelow(l);
    RootReady(db.mem, l);
    EmptyList(l);
    MarkedUpClosed(db.mem, l, db.dirtyB, db.dirtyH, w, f);
    var list := db.CollectHb(db.root, None, 0, [], l, db.dirtyB, db.dirtyH, w, f);
    assert Bnodes(list) == w;
    EmptyIff(list);
    StartWriting(db.mem, file.nodes);
    WritingParts(db.mem, db.mem, file.nodes, file.nodes, {});
    if |list| == 0 {
      assert Owners(l, {}) == {} by { NoOwners(l); }
      return Clean, {};
    }
    var sorted := SortInfos(list, l);
    EmptyIff(sorted);
    HbnodesAreOwners(l, sorted);
    var ok;
    ok, written := WriteList(db, file, sorted, l);
    if !ok {
      return Failed, written;
    }
    ClearFlags(db, sorted);
    return Wrote, written;
  }

  lemma NoOwners(l: Layout)
    ensures Owners(l, {}) == {}
  {
  }

  lemma RootReady(m: Mem, l: Layout)
    requires WellFormed(m, l)
    ensures l.root in m.hs && l.root in l.depth && l.depth[l.root] == 0 && l.root !in l.at
  {
  }

  lemma PlanKeys(l: Layout, dirtyB: set<nat>, dirtyH: set<nat>, w: set<nat>, f: set<nat>)
    requires Plan(l, dirtyB, dirtyH, w, f) && DirtyIsFlagged(l, dirtyB, dirtyH)
    ensures w <= l.owner.Keys && f <= l.depth.Keys && dirtyB <= w && dirtyB <= l.owner.Keys && dirtyH <= f && dirtyH <= l.depth.Keys
  {
  }

  // ---------------------------------------------------------------- termination

  /** Some hbtrie node below the root ends up flagged although it owns no bnode to write. */
  ghost predicate Spins(l: Layout, dirtyB: set<nat>, dirtyH: set<nat>)
    requires Ranked(l)
  {
    exists h :: h in FlaggedSet(l, dirtyH) && h != l.root && Owned(l, h) * MarkedSet(l, dirtyB, dirtyH) == {}
  }

  /** The dirty-flag invariant: an hbtrie node is dirty exactly when it owns a dirty bnode. */
  ghost predicate FlagsExact(l: Layout, dirtyB: set<nat>, dirtyH: set<nat>) {
    && dirtyB <= l.owner.Keys && dirtyH <= l.depth.Keys
    && forall h | h in l.depth :: h in dirtyH <==> exists b :: b in dirtyB && l.owner[b] == h
  }

  /** A pass that wrote something left no hbtrie node dirty, unless one spins. */
  lemma AllCleared(l: Layout, dirtyB: set<nat>, dirtyH: set<nat>)
    requires Ranked(l) && DirtyIsFlagged(l, dirtyB, dirtyH) && !Spins(l, dirtyB, dirtyH)
    requires MarkedSet(l, dirtyB, dirtyH) != {}
    ensures FlaggedSet(l, dirtyH) - Owners(l, MarkedSet(l, dirtyB, dirtyH)) == {}
  {
    hide FlaggedSet, MarkedSet, Ranked;
    var w := MarkedSet(l, dirtyB, dirtyH);
    var f := FlaggedSet(l, dirtyH);
    ThePlan(l, dirtyB, dirtyH);
    PlanKeys(l, dirtyB, dirtyH, w, f);
    forall h | h in f ensures h in Owners(l, w) {
      var b: nat;
      if h == l.root {
        var b0 :| b0 in w;
        b := Climb(l, dirtyB, dirtyH, w, f, b0);
      } else {
        b :| b in Owned(l, h) * w;
      }
      assert b in w && l.owner[b] == h;
    }
  }

  /** From a marked bnode, parents lead to a marked bnode of the root hbtrie node. */
  lemma {:induction false} Climb(l: Layout, dirtyB: set<nat>, dirtyH: set<nat>, w: set<nat>, f: set<nat>, b: nat) returns (r: nat)
    requires Ranked(l) && Plan(l, dirtyB, dirtyH, w, f) && DirtyIsFlagged(l, dirtyB, dirtyH) && b in w
    ensures r in w && l.owner[r] == l.root
    decreases l.depth[l.owner[b]]
  {
    var h := l.owner[b];
    if h == l.root {
      r := b;
    } else {
      MarkedIsFlagged(l, dirtyB, dirtyH, w, f, b);
      var p := l.at[h].0;
      assert Holds(l, p, f);
      r := Climb(l, dirtyB, dirtyH, w, f, p);
    }
  }

  /** Under the dirty-flag invariant the flush loop does not spin. */
  lemma ExactDoesNotSpin(l: Layout, dirtyB: set<nat>, dirtyH: set<nat>)
    requires Ranked(l) && FlagsExact(l, dirtyB, dirtyH)
    ensures DirtyIsFlagged(l, dirtyB, dirtyH) && !Spins(l, dirtyB, dirtyH)
  {
    hide FlaggedSet, MarkedSet;
    var w := MarkedSet(l, dirtyB, dirtyH);
    var f := FlaggedSet(l, dirtyH);
    assert DirtyIsFlagged(l, dirtyB, dirtyH);
    ThePlan(l, dirtyB, dirtyH);
    forall h | h in f && h != l.root ensures Owned(l, h) * w != {} {
      if h in dirtyH {
        var b :| b in dirtyB && l.owner[b] == h;
        assert b in Owned(l, h) * w;
      } else {
        var c :| c in f && c in l.at && l.at[c].0 in l.owner && Up(l, c) == h;
        assert Holds(l, l.at[c].0, f);
        assert l.at[c].0 in Owned(l, h) * w;
      }
    }
  }

  /** If one spins, a pass has something to write and leaves the state spinning. */
  lemma SpinsAgain(l: Layout, dirtyB: set<nat>, dirtyH: set<nat>)
    requires Ranked(l) && DirtyIsFlagged(l, dirtyB, dirtyH) && Spins(l, dirtyB, dirtyH)
    ensures MarkedSet(l, dirtyB, dirtyH) != {}
    ensures var dirtyH' := FlaggedSet(l, dirtyH) - Owners(l, MarkedSet(l, dirtyB, dirtyH));
            DirtyIsFlagged(l, {}, dirtyH') && Spins(l, {}, dirtyH')
  {
    hide FlaggedSet, MarkedSet;
    var w := MarkedSet(l, dirtyB, dirtyH);
    var f := FlaggedSet(l, dirtyH);
    ThePlan(l, dirtyB, dirtyH);
    var h :| h in f && h != l.root && Owned(l, h) * w == {};
    var p := l.at[h].0;
    assert Holds(l, p, f);
    assert p in w;
    var dirtyH' := f - Owners(l, w);
    assert h !in Owners(l, w) by {
      forall b | b in w && b in l.owner ensures l.owner[b] != h { assert b !in Owned(l, h) * w; }
    }
    var w' := MarkedSet(l, {}, dirtyH');
    var f' := FlaggedSet(l, dirtyH');
    ThePlan(l, {}, dirtyH');
    assert f' <= f by { FlaggedMonotone(l, dirtyH, dirtyH', f); }
    forall b | b in Owned(l, h) ensures b !in w' {
      assert b !in Owned(l, h) * w;
      MarkedShrinks(l, dirtyB, dirtyH, dirtyH', b);
    }
    assert Owned(l, h) * w' == {};
  }

  /** The dirty bits after n passes that each wrote what there was to write. */
  ghost function DirtyAfter(l: Layout, dirtyB: set<nat>, dirtyH: set<nat>, n: nat): (set<nat>, set<nat>)
    requires Ranked(l)
  {
    if n == 0 then (dirtyB, dirtyH)
    else
      var (b, h) := DirtyAfter(l, dirtyB, dirtyH, n - 1);
      ({}, FlaggedSet(l, h) - Owners(l, MarkedSet(l, b, h)))
  }

  /** Then there is something to write after every number of passes: the loop of the flush never
      ends. */
  lemma {:induction false} SpinsForever(l: Layout, dirtyB: set<nat>, dirtyH: set<nat>, n: nat)
    requires Ranked(l) && DirtyIsFlagged(l, dirtyB, dirtyH) && Spins(l, dirtyB, dirtyH)
    ensures var (b, h) := DirtyAfter(l, dirtyB, dirtyH, n);
            MarkedSet(l, b, h) != {} && DirtyIsFlagged(l, b, h) && Spins(l, b, h)
    decreases n
  {
    hide FlaggedSet, MarkedSet, Owners, Spins, DirtyIsFlagged, Ranked;
    if n > 0 {
      SpinsForever(l, dirtyB, dirtyH, n - 1);
      var (b, h) := DirtyAfter(l, dirtyB, dirtyH, n - 1);
      SpinsAgain(l, b, h);
    }
    var (b, h) := DirtyAfter(l, dirtyB, dirtyH, n);
    SpinsAgain(l, b, h);
  }

  lemma FlaggedMonotone(l: Layout, dirtyH: set<nat>, dirtyH': set<nat>, f: set<nat>)
    requires Ranked(l) && f == FlaggedSet(l, dirtyH) && dirtyH' <= f
    ensures FlaggedSet(l, dirtyH') <= f
  {
    forall h | h in FlaggedSet(l, dirtyH') ensures h in f { FlaggedIn(l, dirtyH, dirtyH', h); }
  }

  lemma {:induction false} FlaggedIn(l: Layout, dirtyH: set<nat>, dirtyH': set<nat>, h: nat)
    requires Ranked(l) && dirtyH' <= FlaggedSet(l, dirtyH) && h in l.depth && Flagged(l, dirtyH', h)
    ensures Flagged(l, dirtyH, h)
    decreases l.maxDepth - l.depth[h]
  {
    if h !in dirtyH' {
      var c :| c in l.at && Up(l, c) == h && Flagged(l, dirtyH', c);
      FlaggedIn(l, dirtyH, dirtyH', c);
    }
  }

  lemma {:induction false} MarkedShrinks(l: Layout, dirtyB: set<nat>, dirtyH: set<nat>, dirtyH': set<nat>, b: nat)
    requires Ranked(l) && FlaggedSet(l, dirtyH') <= FlaggedSet(l, dirtyH) && b in l.owner
    ensures b in MarkedSet(l, {}, dirtyH') ==> b in MarkedSet(l, dirtyB, dirtyH)
    decreases l.level[b]
  {
    var f', f := FlaggedSet(l, dirtyH'), FlaggedSet(l, dirtyH);
    if Marked(l, {}, f', b) {
      if Holds(l, b, f') {
        assert Holds(l, b, f);
      } else {
        var c :| c in l.pos && l.pos[c].0 == b && Marked(l, {}, f', c);
        MarkedShrinks(l, dirtyB, dirtyH, dirtyH', c);
      }
    }
  }

  // ---------------------------------------------------------------- the whole flush

  /** After a complete writing pass every clean bnode is stored and every entry points right. */
  lemma WritingDone(m1: Mem, m: Mem, disk1: Disk, disk: Disk, l: Layout, dirty: set<nat>, w: set<nat>, s: set<nat>)
    requires WellFormed(m1, l) && SettledBut(m1, disk1, l, dirty, s) && UpOrDirty(m1, s, dirty) && dirty <= w && UpClosed(m1, w)
    requires Writing(m1, m, disk1, disk, w)
    ensures Flushed(m, disk, l, w + s) && UpClosed(m, w + s)
  {
    hide Ranked, SepsOk, StepsOk, RootsOk, Mirrors, Serialize, PointsRight, UpClosed, SettledBut, UpOrDirty, Kid;
    UpBoth(m1, w, s, dirty);
    UpClosedRepointed(m1, m, w + s);
    forall b | b in m.bs && b !in w ensures b in s ==> Written(m, disk, b)
      ensures b !in s ==> Stored(m, disk, l, b)
    {
      UntouchedNode(m1, m, disk1, disk, w, w, b);
      SettledAt(m1, disk1, l, dirty, s, b);
    }
    forall b, i | b in m.bs && 0 <= i < |m.bs[b].entries|
      && Kid(m, m.bs[b].entries[i]).Some? && Kid(m, m.bs[b].entries[i]).value in m.bs
      ensures && m.bs[b].entries[i].off == m.bs[Kid(m, m.bs[b].entries[i]).value].off
              && 0 < m.bs[b].entries[i].off < UNWRITTEN
    {
      KidPoints(m1, m, disk1, disk, l, dirty, w, s, b, i);
    }
  }

  lemma UpBoth(m: Mem, w: set<nat>, s: set<nat>, dirty: set<nat>)
    requires UpClosed(m, w) && UpOrDirty(m, s, dirty) && dirty <= w
    ensures UpClosed(m, w + s)
  {
    hide Kid;
  }

  lemma SettledAt(m: Mem, disk: Disk, l: Layout, dirty: set<nat>, s: set<nat>, b: nat)
    requires SettledBut(m, disk, l, dirty, s) && b in m.bs && b !in dirty
    ensures if b in s then Written(m, disk, b) else Stored(m, disk, l, b)
  {
  }

  lemma SettledEntry(m: Mem, disk: Disk, l: Layout, dirty: set<nat>, s: set<nat>, b: nat, i: nat, c: nat)
    requires SettledBut(m, disk, l, dirty, s) && b in m.bs && i < |m.bs[b].entries|
    requires Kid(m, m.bs[b].entries[i]) == Some(c) && c in m.bs && c !in dirty
    ensures m.bs[b].entries[i].off == m.bs[c].off
  {
  }

  lemma UpClosedRepointed(m1: Mem, m: Mem, w: set<nat>)
    requires Repointed(m1, m) && UpClosed(m1, w)
    ensures UpClosed(m, w)
  {
    forall b, i | b in m.bs && 0 <= i < |m.bs[b].entries|
      && Kid(m, m.bs[b].entries[i]).Some? && Kid(m, m.bs[b].entries[i]).value in w
      ensures b in w
    {
      assert SameNode(m1.bs[b], m.bs[b]);
      assert SameEntry(m1.bs[b].entries[i], m.bs[b].entries[i]);
    }
  }

  /** Outside w, which contains every parent of what was written, nothing changed. */
  lemma UntouchedNode(m1: Mem, m: Mem, disk1: Disk, disk: Disk, w: set<nat>, written: set<nat>, b: nat)
    requires Writing(m1, m, disk1, disk, written) && written <= w && UpClosed(m1, w) && b in m1.bs && b !in w
    ensures m.bs[b] == m1.bs[b]
  {
    assert SameNode(m1.bs[b], m.bs[b]);
    forall i | 0 <= i < |m1.bs[b].entries| ensures m.bs[b].entries[i] == m1.bs[b].entries[i] {
      assert SameEntry(m1.bs[b].entries[i], m.bs[b].entries[i]);
      assert PointsRight(m1, m, written, b, i);
    }
    assert m.bs[b].entries == m1.bs[b].entries;
  }

  lemma KidPoints(m1: Mem, m: Mem, disk1: Disk, disk: Disk, l: Layout, dirty: set<nat>, w: set<nat>, s: set<nat>, b: nat, i: nat)
    requires WellFormed(m1, l) && SettledBut(m1, disk1, l, dirty, s) && dirty <= w && Writing(m1, m, disk1, disk, w)
    requires b in m.bs && i < |m.bs[b].entries|
    requires Kid(m, m.bs[b].entries[i]).Some? && Kid(m, m.bs[b].entries[i]).value in m.bs
    ensures m.bs[b].entries[i].off == m.bs[Kid(m, m.bs[b].entries[i]).value].off
    ensures 0 < m.bs[b].entries[i].off < UNWRITTEN
  {
    hide Ranked, SepsOk, StepsOk, Mirrors, Serialize, SettledBut;
    assert SameNode(m1.bs[b], m.bs[b]);
    assert SameEntry(m1.bs[b].entries[i], m.bs[b].entries[i]);
    var c := Kid(m, m.bs[b].entries[i]).value;
    assert Kid(m1, m1.bs[b].entries[i]) == Some(c);
    assert PointsRight(m1, m, w, b, i);
    KidHangs(m1, l, b, i, c);
    if c in w {
      assert Written(m, disk, c);
    } else {
      SettledAt(m1, disk1, l, dirty, s, c);
      SettledEntry(m1, disk1, l, dirty, s, b, i, c);
      RootReady(m1, l);
      RootKeys(m1, l, l.root);
      assert c != m1.hs[l.root];
    }
  }

  /** When the writing stops in between, what was written is on disk as serialised, and what is still to
      be written is dirty: a retry finds the files in step. */
  lemma WritingStopped(m1: Mem, m: Mem, disk1: Disk, disk: Disk, l: Layout, dirty: set<nat>, w: set<nat>, s: set<nat>, written: set<nat>)
    requires WellFormed(m1, l) && SettledBut(m1, disk1, l, dirty, s) && UpOrDirty(m1, s, dirty) && dirty <= w && UpClosed(m1, w)
    requires Writing(m1, m, disk1, disk, written) && written <= w
    ensures SettledBut(m, disk, l, w - written, s + written) && UpOrDirty(m, s + written, w - written)
  {
    hide Ranked, SepsOk, StepsOk, RootsOk, Mirrors, Serialize, PointsRight, UpClosed, SettledBut, UpOrDirty, Kid, Writing;
    forall b | b in m.bs && b !in w - written
      ensures if b in s + written then Written(m, disk, b) else Stored(m, disk, l, b)
    {
      StoppedNode(m1, m, disk1, disk, l, dirty, w, s, written, b);
    }
    forall b, i | b in m.bs && 0 <= i < |m.bs[b].entries| && Kid(m, m.bs[b].entries[i]).Some?
      ensures Kid(m, m.bs[b].entries[i]).value !in w - written && Kid(m, m.bs[b].entries[i]).value in m.bs ==>
                m.bs[b].entries[i].off == m.bs[Kid(m, m.bs[b].entries[i]).value].off
      ensures Kid(m, m.bs[b].entries[i]).value in s + written ==> b in s + written || b in w - written
    {
      StoppedEntry(m1, m, disk1, disk, l, dirty, w, s, written, b, i);
    }
    MakeSettled(m, disk, l, w - written, s + written);
  }

  lemma MakeSettled(m: Mem, disk: Disk, l: Layout, dirty: set<nat>, s: set<nat>)
    requires forall b | b in m.bs && b !in dirty :: if b in s then Written(m, disk, b) else Stored(m, disk, l, b)
    requires forall b, i | b in m.bs && 0 <= i < |m.bs[b].entries| && Kid(m, m.bs[b].entries[i]).Some? ::
               && (Kid(m, m.bs[b].entries[i]).value !in dirty && Kid(m, m.bs[b].entries[i]).value in m.bs ==>
                     m.bs[b].entries[i].off == m.bs[Kid(m, m.bs[b].entries[i]).value].off)
               && (Kid(m, m.bs[b].entries[i]).value in s ==> b in s || b in dirty)
    ensures SettledBut(m, disk, l, dirty, s) && UpOrDirty(m, s, dirty)
  {
    hide Kid, Written, Stored;
  }

  lemma StoppedNode(m1: Mem, m: Mem, disk1: Disk, disk: Disk, l: Layout, dirty: set<nat>, w: set<nat>, s: set<nat>, written: set<nat>, b: nat)
    requires SettledBut(m1, disk1, l, dirty, s) && dirty <= w && UpClosed(m1, w) && Writing(m1, m, disk1, disk, written) && written <= w
    requires b in m.bs && b !in w - written
    ensures if b in s + written then Written(m, disk, b) else Stored(m, disk, l, b)
  {
    hide Mirrors, Serialize, PointsRight, SettledBut, UpClosed;
    if b !in written {
      UntouchedNode(m1, m, disk1, disk, w, written, b);
      SettledAt(m1, disk1, l, dirty, s, b);
    }
  }

  lemma StoppedEntry(m1: Mem, m: Mem, disk1: Disk, disk: Disk, l: Layout, dirty: set<nat>, w: set<nat>, s: set<nat>, written: set<nat>, b: nat, i: nat)
    requires SettledBut(m1, disk1, l, dirty, s) && UpOrDirty(m1, s, dirty) && dirty <= w && UpClosed(m1, w)
    requires Writing(m1, m, disk1, disk, written) && written <= w && b in m.bs && i < |m.bs[b].entries| && Kid(m, m.bs[b].entries[i]).Some?
    ensures Kid(m, m.bs[b].entries[i]).value !in w - written && Kid(m, m.bs[b].entries[i]).value in m.bs ==>
              m.bs[b].entries[i].off == m.bs[Kid(m, m.bs[b].entries[i]).value].off
    ensures Kid(m, m.bs[b].entries[i]).value in s + written ==> b in s + written || b in w - written
  {
    hide Mirrors, Serialize, SettledBut, Written;
    assert SameNode(m1.bs[b], m.bs[b]);
    assert SameEntry(m1.bs[b].entries[i], m.bs[b].entries[i]);
    var c := Kid(m, m.bs[b].entries[i]).value;
    assert Kid(m1, m1.bs[b].entries[i]) == Some(c);
    assert PointsRight(m1, m, written, b, i);
    if c in m.bs && c !in w { SettledEntry(m1, disk1, l, dirty, s, b, i, c); }
  }

  /** A complete flush leaves the files in step, up to the children it dropped. */
  lemma FlushedSettles(m: Mem, disk: Disk, l: Layout, w: set<nat>)
    requires Flushed(m, disk, l, w) && UpClosed(m, w)
    ensures SettledBut(m, disk, l, {}, w) && UpOrDirty(m, w, {})
  {
    hide Kid, Written, Stored;
  }

  /** Without losses the invariant of the files is re-established with nothing dirty. */
  lemma SettledAgain(m: Mem, disk: Disk, l: Layout, w: set<nat>)
    requires Flushed(m, disk, l, w) && forall b | b in m.bs && b in w :: !DropsChild(m.bs[b])
    ensures Settled(m, disk, l, {})
  {
    forall b | b in m.bs ensures Stored(m, disk, l, b) {
      if b in w {
        assert Written(m, disk, b);
        forall i | 0 <= i < |m.bs[b].entries| ensures StoredOff(m.bs[b].entries[i]) == m.bs[b].entries[i].off {
          assert !Drops(m.bs[b].entries[i]);
        }
        assert Mirrors(disk[m.bs[b].off], m.bs[b]);
      }
    }
  }

  lemma SettledIsFlushed(m: Mem, disk: Disk, l: Layout, s: set<nat>)
    requires WellFormed(m, l) && SettledBut(m, disk, l, {}, s) && UpOrDirty(m, s, {})
    ensures Flushed(m, disk, l, s) && UpClosed(m, s)
  {
    hide WellFormed, SettledBut, UpOrDirty;
    StartWriting(m, disk);
    assert UpClosed(m, {});
    WritingDone(m, m, disk, disk, l, {}, {}, s);
    assert {} + s == s;
  }

  /** What the superblock then names opens to the Saved tree. */
  lemma RootOpens(m: Mem, disk: Disk, l: Layout, w: set<nat>, t: Tree)
    requires WellFormed(m, l) && Flushed(m, disk, l, w) && UpClosed(m, w) && Means(m, disk, m.hs[l.root], t)
    ensures var off := m.bs[m.hs[l.root]].off;
            Opens(disk, if off == UNWRITTEN then 0 else off, Saved(m, disk, w, m.hs[l.root], t))
  {
    hide Ranked, SepsOk, StepsOk, Mirrors, Serialize;
    RootReady(m, l);
    var r := m.hs[l.root];
    RootKeys(m, l, l.root);
    assert r in w ==> Written(m, disk, r);
    assert r !in w ==> Stored(m, disk, l, r);
    if m.bs[r].off == UNWRITTEN {
      assert t == Node(1, []);
    } else {
      SavedIsRead(m, disk, l, w, r, t);
    }
  }

  /** With no dirty bit there is nothing to mark or flag. */
  lemma NothingToDo(l: Layout)
    requires Ranked(l)
    ensures MarkedSet(l, {}, {}) == {} && FlaggedSet(l, {}) == {} && DirtyIsFlagged(l, {}, {})
  {
    forall h | h in l.depth ensures !Flagged(l, {}, h) { NotFlagged(l, h); }
    assert FlaggedSet(l, {}) == {};
    forall b | b in l.owner ensures !Marked(l, {}, {}, b) { NotMarked(l, b); }
  }

  lemma {:induction false} NotFlagged(l: Layout, h: nat)
    requires Ranked(l) && h in l.depth
    ensures !Flagged(l, {}, h)
    decreases l.maxDepth - l.depth[h]
  {
    forall c | c in l.at && Up(l, c) == h ensures !Flagged(l, {}, c) { NotFlagged(l, c); }
  }

  lemma {:induction false} NotMarked(l: Layout, b: nat)
    requires Ranked(l) && b in l.owner
    ensures !Marked(l, {}, {}, b)
    decreases l.level[b]
  {
    forall c | c in l.pos && l.pos[c].0 == b ensures !Marked(l, {}, {}, c) { NotMarked(l, c); }
  }

  lemma RepointedTwice(m1: Mem, m2: Mem, m3: Mem, disk1: Disk, disk2: Disk, disk3: Disk)
    requires Repointed(m1, m2) && Repointed(m2, m3) && Extends(disk1, disk2) && Extends(disk2, disk3)
    ensures Repointed(m1, m3) && Extends(disk1, disk3) && m3.hs == m1.hs
  {
    forall b | b in m1.bs ensures SameNode(m1.bs[b], m3.bs[b]) {
      assert SameNode(m1.bs[b], m2.bs[b]) && SameNode(m2.bs[b], m3.bs[b]);
      forall i | 0 <= i < |m1.bs[b].entries| ensures SameEntry(m1.bs[b].entries[i], m3.bs[b].entries[i]) {
        assert SameEntry(m1.bs[b].entries[i], m2.bs[b].entries[i]) && SameEntry(m2.bs[b].entries[i], m3.bs[b].entries[i]);
      }
    }
  }

  /** Fresh offsets never disturb what the superblock names: this is the crash atomicity. */
  lemma StillOpens(disk: Disk, disk': Disk, root: nat, t: Tree)
    requires Extends(disk, disk') && Opens(disk, root, t)
    ensures Opens(disk', root, t)
  {
    if root != 0 { ReadsExtended(disk, disk', root, t); }
  }

  lemma DropsRepointed(m: Mem, m': Mem, w: set<nat>)
    requires Repointed(m, m') && forall b | b in m.bs && b in w :: !DropsChild(m.bs[b])
    ensures forall b | b in m'.bs && b in w :: !DropsChild(m'.bs[b])
  {
    forall b | b in m'.bs && b in w ensures !DropsChild(m'.bs[b]) {
      assert SameNode(m.bs[b], m'.bs[b]);
      forall i | 0 <= i < |m'.bs[b].entries| ensures !Drops(m'.bs[b].entries[i]) {
        assert SameEntry(m.bs[b].entries[i], m'.bs[b].entries[i]);
        assert !Drops(m.bs[b].entries[i]);
      }
    }
  }

  /** When nothing had to be written, at most the root hbtrie node is still dirty. */
  lemma OnlyRootFlagged(l: Layout, dirtyB: set<nat>, dirtyH: set<nat>)
    requires Ranked(l) && !Spins(l, dirtyB, dirtyH) && MarkedSet(l, dirtyB, dirtyH) == {}
    ensures FlaggedSet(l, dirtyH) <= {l.root}
  {
    hide MarkedSet, FlaggedSet;
    forall h | h in FlaggedSet(l, dirtyH) ensures h == l.root {
      assert Owned(l, h) * {} == {};
    }
  }

  /** database_flush_dirty_bnodes. `t` is what the trie means, `t0` what the file on disk
      opens to before the call, `s` the bnodes whose records earlier flushes serialised. On success
      the file opens to Saved(t), which is t itself exactly when no bnode of s or written now drops a
      child (LosslessIff); at any failed write it still opens to t0. Either way the files are in step
      again for the next flush, which after a failed one ends unless RetrySpinsIff says otherwise. */
  method FlushDirtyBnodes(db: Database, file: PageFile, ghost l: Layout, ghost t: Tree, ghost t0: Tree, ghost s: set<nat>)
    returns (rc: int, ghost written: set<nat>)
    requires WellFormed(db.mem, l) && db.root == l.root && file.Valid()
    requires DirtyIsFlagged(l, db.dirtyB, db.dirtyH) && !Spins(l, db.dirtyB, db.dirtyH)
    requires SettledBut(db.mem, file.nodes, l, db.dirtyB, s) && UpOrDirty(db.mem, s, db.dirtyB)
    requires Means(db.mem, file.nodes, db.mem.hs[l.root], t)
    requires Opens(file.nodes, file.superRoot, t0)
    modifies db`mem, db`dirtyB, db`dirtyH, file
    ensures file.Valid() && rc in {0, -1}
    ensures rc == -1 ==> Opens(file.nodes, file.superRoot, t0) && file.Full()
    ensures rc == 0 ==>
              var w := MarkedSet(l, old(db.dirtyB), old(db.dirtyH));
              && written == w && db.dirtyB == {} && db.dirtyH == {}
              && Opens(file.nodes, file.superRoot, Saved(old(db.mem), old(file.nodes), w + s, old(db.mem).hs[l.root], t))
    ensures Repointed(old(db.mem), db.mem) && WellFormed(db.mem, l)
    ensures Means(db.mem, file.nodes, db.mem.hs[l.root], t)
    ensures SettledBut(db.mem, file.nodes, l, db.dirtyB, s + written) && UpOrDirty(db.mem, s + written, db.dirtyB)
    ensures rc == -1 ==>
              var w := MarkedSet(l, old(db.dirtyB), old(db.dirtyH));
              && written <= w && DirtyIsFlagged(l, db.dirtyB, db.dirtyH) && db.dirtyB == w - written
              && (db.dirtyH == FlaggedSet(l, old(db.dirtyH)) || (db.dirtyH == {} && written == w))
              && (Spins(l, db.dirtyB, db.dirtyH) <==>
                    exists h :: h in db.dirtyH && h != l.root && Owned(l, h) * w <= written && !HasStep(l, h, db.dirtyH))
    ensures rc == 0 && (forall b | b in old(db.mem).bs && b in MarkedSet(l, old(db.dirtyB), old(db.dirtyH)) + s :: !DropsChild(old(db.mem).bs[b])) ==>
              Settled(db.mem, file.nodes, l, {})
  {
    hide Ranked, SepsOk, StepsOk, RootsOk, Plan, DirtyIsFlagged, Writing, UpClosed, Extends, Repointed, Settled, Flushed, SettledBut, UpOrDirty;
    hide MarkedSet, FlaggedSet, Owners, Means, Reads, Opens, Saved, Spins, DropsChild, Owned, HasStep;
    ghost var m1, disk1, dB, dH := db.mem, file.nodes, db.dirtyB, db.dirtyH;
    ghost var w := MarkedSet(l, dB, dH);
    ghost var f := FlaggedSet(l, dH);
    RootReady(m1, l);
    ThePlan(l, dB, dH);
    PlanKeys(l, dB, dH, w, f);
    MarkedUpClosed(m1, l, dB, dH, w, f);
    StartWriting(m1, disk1);
    WritingParts(m1, m1, disk1, disk1, {});
    ghost var passes := 0;
    while true
      invariant file.Valid() && file.superRoot == old(file.superRoot) && Extends(disk1, file.nodes) && Repointed(m1, db.mem)
      invariant WellFormed(db.mem, l) && DirtyIsFlagged(l, db.dirtyB, db.dirtyH)
      invariant db.mem.hs == m1.hs
      invariant passes == 0 ==> db.mem == m1 && file.nodes == disk1 && db.dirtyB == dB && db.dirtyH == dH
      invariant passes == 1 ==> db.dirtyB == {} && db.dirtyH == {} && Flushed(db.mem, file.nodes, l, w + s) && UpClosed(db.mem, w + s)
      invariant 0 <= passes <= 1
      decreases 1 - passes
    {
      ghost var m2, disk2 := db.mem, file.nodes;
      NothingToDo(l);
      var pass;
      pass, written := FlushPass(db, file, l);
      RepointedTwice(m1, m2, db.mem, disk1, disk2, file.nodes);
      WellFormedRepointed(m1, db.mem, l);
      if pass == Failed {
        MeansRepointed(m1, db.mem, disk1, file.nodes, m1.hs[l.root], t);
        StillOpens(disk1, file.nodes, file.superRoot, t0);
        WritingStopped(m1, db.mem, disk1, file.nodes, l, dB, w, s, written);
        RetryIs(m1, l, dB, dH, w, f, written);
        return -1, written;
      }
      if pass == Clean {
        if passes == 0 {
          assert dB == {};
          SettledIsFlushed(m1, disk1, l, s);
          OnlyRootFlagged(l, dB, dH);
          assert w + s == s;
        }
        break;
      }
      AllCleared(l, dB, dH);
      WritingDone(m1, db.mem, disk1, file.nodes, l, dB, w, s);
      passes := passes + 1;
    }
    ghost var m3, disk3 := db.mem, file.nodes;
    written := w;
    assert w + s == s + w && w - w == {};
    MeansRepointed(m1, m3, disk1, disk3, m1.hs[l.root], t);
    SavedRepointed(m1, m3, disk1, disk3, w + s, m1.hs[l.root], t);
    RootOpens(m3, disk3, l, w + s, t);
    FlushedSettles(m3, disk3, l, w + s);
    if forall b | b in m1.bs && b in w + s :: !DropsChild(m1.bs[b]) {
      DropsRepointed(m1, m3, w + s);
      SettledAgain(m3, disk3, l, w + s);
    }
    RootKeys(m3, l, l.root);
    var rootOff := db.mem.bs[db.mem.hs[db.root]].off;
    db.dirtyH := db.dirtyH - {db.root};
    assert db.dirtyH == {};
    var ok := file.WriteSuperblock(if rootOff == UNWRITTEN then 0 else rootOff);
    if !ok {
      StillOpens(disk1, file.nodes, file.superRoot, t0);
      NothingToDo(l);
      NothingSpins(l);
      return -1, written;
    }
    return 0, written;
  }

  lemma NothingSpins(l: Layout)
    requires Ranked(l)
    ensures !Spins(l, {}, {})
  {
    NothingToDo(l);
  }

  // ---------------------------------------------------------------- after a failed write

  lemma {:induction false} FlaggedAgain(l: Layout, dirtyH: set<nat>, h: nat)
    requires Ranked(l) && h in l.depth
    ensures Flagged(l, FlaggedSet(l, dirtyH), h) <==> Flagged(l, dirtyH, h)
    decreases l.maxDepth - l.depth[h]
  {
    forall c | c in l.at && Up(l, c) == h ensures Flagged(l, FlaggedSet(l, dirtyH), c) <==> Flagged(l, dirtyH, c) { FlaggedAgain(l, dirtyH, c); }
  }

  lemma FlaggedTwice(l: Layout, dirtyH: set<nat>)
    requires Ranked(l)
    ensures FlaggedSet(l, FlaggedSet(l, dirtyH)) == FlaggedSet(l, dirtyH)
  {
    forall h | h in l.depth ensures Flagged(l, FlaggedSet(l, dirtyH), h) <==> Flagged(l, dirtyH, h) { FlaggedAgain(l, dirtyH, h); }
  }

  /** In the B+tree of h nothing is to be written again when none of it is left over and none holds a
      flagged child. */
  lemma {:induction false} NoneAgain(l: Layout, left: set<nat>, f: set<nat>, h: nat, b: nat)
    requires Ranked(l) && b in l.owner && l.owner[b] == h
    requires forall x | x in l.owner && l.owner[x] == h :: x !in left && !Holds(l, x, f)
    ensures !Marked(l, left, f, b)
    decreases l.level[b]
  {
    forall c | c in l.pos && l.pos[c].0 == b ensures !Marked(l, left, f, c) { NoneAgain(l, left, f, h, c); }
  }

  lemma HoldsStep(l: Layout, b: nat, f: set<nat>)
    requires Ranked(l) && b in l.owner
    ensures Holds(l, b, f) ==> HasStep(l, l.owner[b], f)
  {
    if c :| c in f && c in l.at && l.at[c].0 == b { assert Up(l, c) == l.owner[b]; }
  }

  lemma SomeAgain(l: Layout, left: set<nat>, f: set<nat>, h: nat) returns (b: nat)
    requires Ranked(l) && left <= l.owner.Keys && (Owned(l, h) * left != {} || HasStep(l, h, f))
    ensures b in l.owner && l.owner[b] == h && Marked(l, left, f, b)
  {
    if Owned(l, h) * left != {} {
      b :| b in Owned(l, h) * left;
    } else {
      var c :| c in f && c in l.at && l.at[c].0 in l.owner && Up(l, c) == h;
      b := l.at[c].0;
      assert Holds(l, b, f);
    }
  }

  /** After a write failed, the loop of a retry never ends exactly when some flagged hbtrie node other
      than the root had all its bnodes written before the failure and has no flagged child. */
  lemma RetrySpinsIff(l: Layout, dirtyB: set<nat>, dirtyH: set<nat>, written: set<nat>)
    requires Ranked(l) && DirtyIsFlagged(l, dirtyB, dirtyH) && written <= MarkedSet(l, dirtyB, dirtyH)
    ensures var w, f := MarkedSet(l, dirtyB, dirtyH), FlaggedSet(l, dirtyH);
            && DirtyIsFlagged(l, w - written, f)
            && (Spins(l, w - written, f) <==> exists h :: h in f && h != l.root && Owned(l, h) * w <= written && !HasStep(l, h, f))
  {
    var w, f := MarkedSet(l, dirtyB, dirtyH), FlaggedSet(l, dirtyH);
    var left := w - written;
    ThePlan(l, dirtyB, dirtyH);
    PlanKeys(l, dirtyB, dirtyH, w, f);
    forall b | b in left ensures l.owner[b] in f { MarkedIsFlagged(l, dirtyB, dirtyH, w, f, b); }
    FlaggedTwice(l, dirtyH);
    forall h | h in f ensures Owned(l, h) * MarkedSet(l, left, f) == {} <==> Owned(l, h) * w <= written && !HasStep(l, h, f) {
      AgainIs(l, left, f, h);
      NoneLeft(Owned(l, h), w, written);
    }
  }

  lemma NoneLeft(own: set<nat>, w: set<nat>, written: set<nat>)
    ensures own * (w - written) == {} <==> own * w <= written
  {
    forall b | b in own * w && b !in written ensures b in own * (w - written) { }
  }

  lemma AgainIs(l: Layout, left: set<nat>, f: set<nat>, h: nat)
    requires Ranked(l) && left <= l.owner.Keys && FlaggedSet(l, f) == f
    ensures Owned(l, h) * MarkedSet(l, left, f) == {} <==> Owned(l, h) * left == {} && !HasStep(l, h, f)
  {
    if Owned(l, h) * left == {} && !HasStep(l, h, f) {
      forall x | x in l.owner && l.owner[x] == h ensures x !in left && !Holds(l, x, f) {
        assert x in left ==> x in Owned(l, h) * left;
        HoldsStep(l, x, f);
      }
      forall b | b in Owned(l, h) ensures b !in MarkedSet(l, left, f) { NoneAgain(l, left, f, h, b); }
    } else {
      var b := SomeAgain(l, left, f, h);
      assert b in Owned(l, h) * MarkedSet(l, left, f);
    }
  }

  lemma RetryIs(m: Mem, l: Layout, dirtyB: set<nat>, dirtyH: set<nat>, w: set<nat>, f: set<nat>, written: set<nat>)
    requires WellFormed(m, l) && DirtyIsFlagged(l, dirtyB, dirtyH) && w == MarkedSet(l, dirtyB, dirtyH) && f == FlaggedSet(l, dirtyH) && written <= w
    ensures DirtyIsFlagged(l, w - written, f)
    ensures Spins(l, w - written, f) <==> exists h :: h in f && h != l.root && Owned(l, h) * w <= written && !HasStep(l, h, f)
  {
    hide MarkedSet, FlaggedSet, Spins, DirtyIsFlagged, Owned, HasStep;
    RetrySpinsIff(l, dirtyB, dirtyH, written);
  }

  /** The loop of the flush while some hbtrie node spins: however many passes it makes, none of them
      finds nothing to write. */
  method FlushPasses(db: Database, file: PageFile, n: nat, ghost l: Layout) returns (made: nat, pass: Pass)
    requires WellFormed(db.mem, l) && db.root == l.root && file.Valid()
    requires DirtyIsFlagged(l, db.dirtyB, db.dirtyH) && Spins(l, db.dirtyB, db.dirtyH)
    modifies db`mem, db`dirtyB, db`dirtyH, file
    ensures (pass == Failed && file.Full()) || (pass == Wrote && made == n)
  {
    hide Ranked, SepsOk, StepsOk, RootsOk, DirtyIsFlagged, Writing, Extends, Repointed, MarkedSet, FlaggedSet, Owners, Spins;
    made, pass := 0, Wrote;
    while made < n
      invariant made <= n && pass == Wrote && file.Valid() && WellFormed(db.mem, l) && db.root == l.root
      invariant DirtyIsFlagged(l, db.dirtyB, db.dirtyH) && Spins(l, db.dirtyB, db.dirtyH)
    {
      ghost var m := db.mem;
      RanksOf(m, l);
      SpinsAgain(l, db.dirtyB, db.dirtyH);
      ghost var written;
      pass, written := FlushPass(db, file, l);
      WellFormedRepointed(m, db.mem, l);
      if pass == Failed {
        return;
      }
      made := made + 1;
    }
  }

  lemma RanksOf(m: Mem, l: Layout)
    requires WellFormed(m, l)
    ensures Ranked(l)
  {
  }

  // ---------------------------------------------------------------- two failing inputs

  function KeptTag(): Tag { Val([1], Plain(Some([5])), [Meta(1, 1)]) }
  function LostTag(): Tag { Val([2], Plain(Some([9])), [Meta(2, 2)]) }
  function DropMem(): Mem { Mem(map[0 := BNode(1, [Entry(KeptTag(), None, 7)], UNWRITTEN)], map[0 := 0]) }
  function DropDisk(): Disk { map[7 := Record(1, [RecEntry(LostTag(), 0)])] }
  function DropLayout(): Layout { Layout(0, map[0 := 0], map[0 := 1], map[], map[], map[0 := 0], 0) }
  function DropTree(): Tree { Node(1, [Item(KeptTag(), Some(Node(1, [Item(LostTag(), None)])))]) }

  /** One bnode without loaded children. */
  ghost predicate Lone(m: Mem, l: Layout) {
    && m.bs.Keys == {0} && m.hs.Keys == {0} && m.hs[0] == 0 && m.bs[0].level == 1 && |m.bs[0].entries| == 1 && m.bs[0].entries[0].child.None?
    && l.root == 0 && l.owner.Keys == {0} && l.owner[0] == 0 && l.level.Keys == {0} && l.level[0] == 1
    && l.pos.Keys == {} && l.at.Keys == {} && l.depth.Keys == {0} && l.depth[0] == 0
  }

  lemma LoneRanked(m: Mem, l: Layout)
    requires Lone(m, l)
    ensures Ranked(l) && FlagsExact(l, {0}, {0})
  {
  }

  lemma LoneShape(m: Mem, l: Layout)
    requires Lone(m, l)
    ensures WellFormed(m, l)
  {
    LoneRanked(m, l);
    hide Ranked;
    assert SepsOk(m, l) && StepsOk(m, l) && RootsOk(m, l);
  }

  lemma LoneSettled(m: Mem, disk: Disk, l: Layout)
    requires Lone(m, l)
    ensures UpClosed(m, {0}) && Settled(m, disk, l, {0})
  {
    assert Kid(m, m.bs[0].entries[0]) == None;
  }

  lemma DropLone()
    ensures Lone(DropMem(), DropLayout())
  {
  }

  lemma DropMeans()
    ensures Means(DropMem(), DropDisk(), 0, DropTree()) && Saved(DropMem(), DropDisk(), {0}, 0, DropTree()) == Node(1, [Item(KeptTag(), None)])
  {
    var m, disk, t := DropMem(), DropDisk(), DropTree();
    assert m.bs[0].entries[0] == Entry(KeptTag(), None, 7);
    assert Reads(disk, 7, Node(1, [Item(LostTag(), None)]));
    assert Saved(m, disk, {0}, 0, t).items[0] == Item(KeptTag(), None);
  }

  /** A root bnode, dirty, with one value whose trie child, holding another value, is on disk and not
      loaded: the flush writes a tree without that child. */
  lemma DropExample()
    ensures exists m, disk, l, t, child ::
              && WellFormed(m, l) && Settled(m, disk, l, {0}) && UpClosed(m, {0}) && FlagsExact(l, {0}, {0})
              && Means(m, disk, m.hs[l.root], t) && t == Node(1, [Item(KeptTag(), Some(child))]) && child.items == [Item(LostTag(), None)]
              && Saved(m, disk, {0}, m.hs[l.root], t) == Node(1, [Item(KeptTag(), None)])
  {
    DropLone();
    LoneShape(DropMem(), DropLayout());
    LoneRanked(DropMem(), DropLayout());
    LoneSettled(DropMem(), DropDisk(), DropLayout());
    DropMeans();
    hide WellFormed, Settled, UpClosed, FlagsExact, Means, Saved, KeptTag, LostTag;
    var m, l, t := DropMem(), DropLayout(), DropTree();
    assert m.hs[l.root] == 0;
    assert t.items[0].sub.value.items == [Item(LostTag(), None)];
  }

  function SpinLayout(): Layout { Layout(0, map[0 := 0, 1 := 1], map[0 := 1, 1 := 1], map[], map[1 := (0, 0)], map[0 := 0, 1 := 1], 1) }
  function SpinRoot(): BNode { BNode(1, [Entry(Step([1]), Some(1), 5)], 9) }
  function SpinMem(): Mem { Mem(map[0 := SpinRoot(), 1 := BNode(1, [], 5)], map[0 := 0, 1 := 1]) }
  function SpinDisk(): Disk { map[5 := Record(1, []), 9 := Record(1, [RecEntry(Step([1]), 5)])] }

  lemma SpinRanked()
    ensures Ranked(SpinLayout())
  {
  }

  lemma SpinFlags()
    ensures Ranked(SpinLayout()) && DirtyIsFlagged(SpinLayout(), {}, {1}) && Spins(SpinLayout(), {}, {1})
  {
    var l := SpinLayout();
    SpinRanked();
    hide Ranked;
    assert Flagged(l, {1}, 1);
    forall h | h in l.at ensures h == 1 { }
    assert !Holds(l, 1, FlaggedSet(l, {1}));
    assert !Marked(l, {}, FlaggedSet(l, {1}), 1);
    assert Owned(l, 1) * MarkedSet(l, {}, {1}) == {};
    assert Spins(l, {}, {1});
  }

  /** Root and child dirty, flags exact, the child's bnode written, the root's not: a retry does not
      end. */
  lemma RetryExample()
    ensures var l, both := SpinLayout(), {0, 1};
            && WellFormed(SpinMem(), l) && FlagsExact(l, both, both) && {1} <= MarkedSet(l, both, both)
            && Spins(l, MarkedSet(l, both, both) - {1}, FlaggedSet(l, both))
  {
    hide *;
    SpinFlags();
    SpinWellFormed();
    BothExact();
    SpinOwned();
    RetryFrom(SpinLayout(), {0, 1});
  }

  lemma SpinWellFormed()
    ensures WellFormed(SpinMem(), SpinLayout())
  {
    SpinFlags();
    SpinShape();
    hide SpinLayout, SpinMem, Ranked, SepsOk, StepsOk, RootsOk, DirtyIsFlagged, Spins;
  }

  lemma RetryFrom(l: Layout, both: set<nat>)
    requires Ranked(l) && FlagsExact(l, both, both) && 1 in both && l.root != 1 && Owned(l, 1) == {1} && forall f :: !HasStep(l, 1, f)
    ensures {1} <= MarkedSet(l, both, both) && Spins(l, MarkedSet(l, both, both) - {1}, FlaggedSet(l, both))
  {
    hide *;
    ExactDoesNotSpin(l, both, both);
    ThePlan(l, both, both);
    PlanKeys(l, both, both, MarkedSet(l, both, both), FlaggedSet(l, both));
    RetrySpinsIff(l, both, both, {1});
  }

  lemma SpinOwned()
    ensures Owned(SpinLayout(), 1) == {1} && SpinLayout().root != 1 && forall f :: !HasStep(SpinLayout(), 1, f)
  {
    var l := SpinLayout();
    forall c | c in l.at ensures c == 1 && l.owner[l.at[c].0] == 0 { }
  }

  lemma BothExact()
    ensures FlagsExact(SpinLayout(), {0, 1}, {0, 1})
  {
    var l := SpinLayout();
    assert l.owner[0] == 0 && l.owner[1] == 1;
    assert forall h | h in l.depth :: h in {0, 1};
  }

  lemma SpinShape()
    ensures SepsOk(SpinMem(), SpinLayout()) && StepsOk(SpinMem(), SpinLayout()) && RootsOk(SpinMem(), SpinLayout())
  {
    assert SpinRoot().entries[0] == Entry(Step([1]), Some(1), 5);
  }

  lemma SpinSettled()
    ensures Settled(SpinMem(), SpinDisk(), SpinLayout(), {})
  {
    var m, disk := SpinMem(), SpinDisk();
    assert SpinRoot().entries[0] == Entry(Step([1]), Some(1), 5);
    assert Mirrors(disk[9], m.bs[0]) && Mirrors(disk[5], m.bs[1]);
  }

  /** A trie child flagged dirty whose only bnode is clean, everything being on disk: the loop never
      ends. */
  lemma SpinExample()
    ensures exists m, disk, l, dirtyH ::
              WellFormed(m, l) && Settled(m, disk, l, {}) && DirtyIsFlagged(l, {}, dirtyH) && Spins(l, {}, dirtyH)
  {
    hide *;
    SpinFlags();
    SpinWellFormed();
    SpinSettled();
  }
}
