/**
 The vacuum rewrite (database_vacuum_walk_hbnode, database_vacuum_walk_bnode and
 database_vacuum_rewrite): the whole trie, loaded or not, is copied post-order into a new file.
 */
module Vacuum {
  import opened Common
  import opened NodeStore
  import opened Layout
  import opened Collect
  import opened Flush

  // ---------------------------------------------------------------- lazy loading

  /** The bnode deserialised from a record read at offset `off`: no child is loaded. */
  function Loaded(rec: Record, off: nat): BNode {
    BNode(rec.level, seq(|rec.entries|, i requires 0 <= i < |rec.entries| =>
      Entry(rec.entries[i].tag, None, rec.entries[i].off)), off)
  }

  /** bnode_entry_lazy_load_*: the child of entry i of b becomes the new bnode (and, unless it is
      a separator's, a new hbtrie node around it). Both get the unused key k. */
  function Load(m: Mem, b: nat, i: nat, rec: Record, k: nat): Mem
    requires b in m.bs && i < |m.bs[b].entries|
  {
    var e := m.bs[b].entries[i];
    var parent := m.bs[b].(entries := m.bs[b].entries[i := e.(child := Some(k))]);
    Mem(m.bs[b := parent][k := Loaded(rec, e.off)], if e.tag.Sep? then m.hs else m.hs[k := k])
  }

  /** Levels shrink along separators and fit the 16-bit field. */
  ghost predicate LevelsOk(t: Tree) {
    && t.level < LEVELS
    && forall i | 0 <= i < |t.items| && t.items[i].sub.Some? ::
         (t.items[i].tag.Sep? ==> t.items[i].sub.value.level < t.level) && LevelsOk(t.items[i].sub.value)
  }

  /** Where a child could be loaded, reading it from the file gives the same meaning. */
  lemma {:induction false} LoadedMeans(m: Mem, disk: Disk, k: nat, off: nat, t: Tree)
    requires Reads(disk, off, t) && k in m.bs && m.bs[k] == Loaded(disk[off], off)
    ensures Means(m, disk, k, t)
  {
  }

  lemma {:induction false} LoadKeepsMeaning(m: Mem, disk: Disk, b: nat, i: nat, k: nat, x: nat, t: Tree)
    requires b in m.bs && i < |m.bs[b].entries| && m.bs[b].entries[i].child.None?
    requires k !in m.bs && k !in m.hs && m.bs[b].entries[i].off != 0 && m.bs[b].entries[i].off in disk
    requires Means(m, disk, x, t)
    ensures Means(Load(m, b, i, disk[m.bs[b].entries[i].off], k), disk, x, t)
    decreases t
  {
    var off := m.bs[b].entries[i].off;
    var m' := Load(m, b, i, disk[off], k);
    assert x in m.bs;
    forall j | 0 <= j < |t.items|
      ensures var e := m'.bs[x].entries[j];
              && e.tag == t.items[j].tag
              && (e.child.Some? ==>
                    Kid(m', e).Some? && t.items[j].sub.Some? && Means(m', disk, Kid(m', e).value, t.items[j].sub.value))
              && (e.child.None? ==>
                    && (e.off == 0 <==> t.items[j].sub.None?)
                    && (t.items[j].sub.Some? ==> Reads(disk, e.off, t.items[j].sub.value)))
    {
      var e := m.bs[x].entries[j];
      if e.child.Some? {
        assert Kid(m', m'.bs[x].entries[j]) == Kid(m, e);
        LoadKeepsMeaning(m, disk, b, i, k, Kid(m, e).value, t.items[j].sub.value);
      } else if x == b && j == i {
        LoadedMeans(m', disk, k, off, t.items[j].sub.value);
      }
    }
  }

  // ---------------------------------------------------------------- state of the walk

  /** What every loaded bnode means, in the old file. */
  ghost predicate Known(m: Mem, disk: Disk, tr: map<nat, Tree>) {
    && tr.Keys == m.bs.Keys
    && forall b | b in m.bs :: Means(m, disk, b, tr[b]) && LevelsOk(tr[b])
  }

  ghost predicate KeysBelow(l: Layout, next: nat) {
    (forall b | b in l.owner :: b < next) && (forall h | h in l.depth :: h < next)
  }

  /** Layout after loading entry i of b under key k. */
  ghost function LoadLayout(m: Mem, l: Layout, b: nat, i: nat, level: nat, k: nat): Layout
    requires b in m.bs && i < |m.bs[b].entries| && b in l.owner && l.owner[b] in l.depth
  {
    var d := l.depth[l.owner[b]] + 1;
    if m.bs[b].entries[i].tag.Sep? then
      l.(owner := l.owner[k := l.owner[b]], level := l.level[k := level], pos := l.pos[k := (b, i)])
    else
      l.(owner := l.owner[k := k], level := l.level[k := level], at := l.at[k := (b, i)],
         depth := l.depth[k := d], maxDepth := if d <= l.maxDepth then l.maxDepth else d)
  }

  lemma LoadShape(m: Mem, b: nat, i: nat, rec: Record, k: nat)
    requires b in m.bs && i < |m.bs[b].entries| && k !in m.bs
    ensures Load(m, b, i, rec, k).bs.Keys == m.bs.Keys + {k}
    ensures forall x | x in m.bs :: Load(m, b, i, rec, k).bs[x].level == m.bs[x].level && Load(m, b, i, rec, k).bs[x].off == m.bs[x].off
    ensures forall x | x in m.bs :: |Load(m, b, i, rec, k).bs[x].entries| == |m.bs[x].entries|
    ensures forall x, j | x in m.bs && 0 <= j < |m.bs[x].entries| ::
              Load(m, b, i, rec, k).bs[x].entries[j] ==
                if x == b && j == i then m.bs[b].entries[i].(child := Some(k)) else m.bs[x].entries[j]
    ensures Load(m, b, i, rec, k).bs[k].level == rec.level
    ensures forall j | 0 <= j < |Load(m, b, i, rec, k).bs[k].entries| :: Load(m, b, i, rec, k).bs[k].entries[j].child.None?
    ensures Load(m, b, i, rec, k).hs == if m.bs[b].entries[i].tag.Sep? then m.hs else m.hs[k := k]
    ensures forall x | x in m.bs && x != b :: Load(m, b, i, rec, k).bs[x] == m.bs[x]
  {
  }

  lemma LoadRanked(m: Mem, l: Layout, b: nat, i: nat, level: nat, k: nat)
    requires Ranked(l) && b in m.bs && i < |m.bs[b].entries| && b in l.owner && KeysBelow(l, k)
    requires level < LEVELS && (m.bs[b].entries[i].tag.Sep? ==> level < l.level[b])
    ensures Ranked(LoadLayout(m, l, b, i, level, k)) && KeysBelow(LoadLayout(m, l, b, i, level, k), k + 1)
  {
    hide Ranked;
    if m.bs[b].entries[i].tag.Sep? {
      RankedSep(l, b, i, level, k);
    } else {
      RankedStep(l, b, i, level, k);
    }
  }

  lemma RankedSep(l: Layout, b: nat, i: nat, level: nat, k: nat)
    requires Ranked(l) && b in l.owner && k !in l.owner && level < l.level[b]
    ensures Ranked(l.(owner := l.owner[k := l.owner[b]], level := l.level[k := level], pos := l.pos[k := (b, i)]))
  {
  }

  lemma RankedStep(l: Layout, b: nat, i: nat, level: nat, k: nat)
    requires Ranked(l) && b in l.owner && k !in l.owner && k !in l.depth && level < LEVELS
    ensures var d := l.depth[l.owner[b]] + 1;
            Ranked(l.(owner := l.owner[k := k], level := l.level[k := level], at := l.at[k := (b, i)],
                      depth := l.depth[k := d], maxDepth := if d <= l.maxDepth then l.maxDepth else d))
  {
  }

  /** m' has one more bnode k, hanging from entry i of b; nothing else moved. */
  ghost predicate OneMore(m: Mem, m': Mem, b: nat, i: nat, k: nat) {
    && b in m.bs && i < |m.bs[b].entries| && k !in m.bs && m.bs[b].entries[i].child.None?
    && m'.bs.Keys == m.bs.Keys + {k}
    && (forall x | x in m.bs :: m'.bs[x].level == m.bs[x].level && |m'.bs[x].entries| == |m.bs[x].entries|)
    && (forall x, j | x in m.bs && 0 <= j < |m.bs[x].entries| && !(x == b && j == i) :: m'.bs[x].entries[j] == m.bs[x].entries[j])
    && (forall j | 0 <= j < |m'.bs[k].entries| :: m'.bs[k].entries[j].child.None?)
    && m'.bs[b].entries[i].tag == m.bs[b].entries[i].tag && m'.bs[b].entries[i].child == Some(k)
  }

  lemma GrowSeps(m: Mem, l: Layout, m': Mem, l': Layout, b: nat, i: nat, k: nat)
    requires SepsOk(m, l) && OneMore(m, m', b, i, k) && k !in l.pos
    requires l'.owner.Keys == l.owner.Keys + {k} && l'.level == l.level[k := m'.bs[k].level]
    requires l'.pos == if m.bs[b].entries[i].tag.Sep? then l.pos[k := (b, i)] else l.pos
    ensures SepsOk(m', l')
  {
    forall x, j | x in m'.bs && 0 <= j < |m'.bs[x].entries| && m'.bs[x].entries[j].tag.Sep? && m'.bs[x].entries[j].child.Some?
      ensures m'.bs[x].entries[j].child.value in l'.pos && l'.pos[m'.bs[x].entries[j].child.value] == (x, j)
    {
      GrowSep(m, l, m', l', b, i, k, x, j);
    }
  }

  lemma GrowSep(m: Mem, l: Layout, m': Mem, l': Layout, b: nat, i: nat, k: nat, x: nat, j: nat)
    requires SepsOk(m, l) && OneMore(m, m', b, i, k) && k !in l.pos
    requires l'.pos == if m.bs[b].entries[i].tag.Sep? then l.pos[k := (b, i)] else l.pos
    requires x in m'.bs && 0 <= j < |m'.bs[x].entries| && m'.bs[x].entries[j].tag.Sep? && m'.bs[x].entries[j].child.Some?
    ensures m'.bs[x].entries[j].child.value in l'.pos && l'.pos[m'.bs[x].entries[j].child.value] == (x, j)
  {
    if !(x == b && j == i) {
      assert m'.bs[x].entries[j] == m.bs[x].entries[j];
    }
  }

  lemma GrowSteps(m: Mem, l: Layout, m': Mem, l': Layout, b: nat, i: nat, k: nat)
    requires StepsOk(m, l) && OneMore(m, m', b, i, k) && k !in l.at
    requires l'.depth.Keys == m'.hs.Keys
    requires l'.at == if m.bs[b].entries[i].tag.Sep? then l.at else l.at[k := (b, i)]
    ensures StepsOk(m', l')
  {
    forall x, j | x in m'.bs && 0 <= j < |m'.bs[x].entries| && !m'.bs[x].entries[j].tag.Sep? && m'.bs[x].entries[j].child.Some?
      ensures m'.bs[x].entries[j].child.value in l'.at && l'.at[m'.bs[x].entries[j].child.value] == (x, j)
    {
      GrowStep(m, l, m', l', b, i, k, x, j);
    }
  }

  lemma GrowStep(m: Mem, l: Layout, m': Mem, l': Layout, b: nat, i: nat, k: nat, x: nat, j: nat)
    requires StepsOk(m, l) && OneMore(m, m', b, i, k) && k !in l.at
    requires l'.at == if m.bs[b].entries[i].tag.Sep? then l.at else l.at[k := (b, i)]
    requires x in m'.bs && 0 <= j < |m'.bs[x].entries| && !m'.bs[x].entries[j].tag.Sep? && m'.bs[x].entries[j].child.Some?
    ensures m'.bs[x].entries[j].child.value in l'.at && l'.at[m'.bs[x].entries[j].child.value] == (x, j)
  {
    if !(x == b && j == i) {
      assert m'.bs[x].entries[j] == m.bs[x].entries[j];
    }
  }

  lemma LoadRoots(m: Mem, l: Layout, b: nat, i: nat, rec: Record, k: nat)
    requires RootsOk(m, l) && b in m.bs && i < |m.bs[b].entries| && b in l.owner && l.owner[b] in l.depth
    requires k !in m.bs && k !in l.pos && k !in l.depth && (forall c | c in l.pos :: c in l.owner)
    ensures RootsOk(Load(m, b, i, rec, k), LoadLayout(m, l, b, i, rec.level, k))
  {
    if m.bs[b].entries[i].tag.Sep? {
    } else {
    }
  }

  lemma LoadKnown(m: Mem, disk: Disk, tr: map<nat, Tree>, b: nat, i: nat, k: nat)
    requires Known(m, disk, tr) && k !in m.bs && k !in m.hs
    requires b in m.bs && i < |m.bs[b].entries| && m.bs[b].entries[i].child.None? && m.bs[b].entries[i].off != 0
    ensures |tr[b].items| == |m.bs[b].entries| && tr[b].items[i].sub.Some? && tr[b].items[i].tag == m.bs[b].entries[i].tag
    ensures Reads(disk, m.bs[b].entries[i].off, tr[b].items[i].sub.value)
    ensures LevelsOk(tr[b].items[i].sub.value) && disk[m.bs[b].entries[i].off].level == tr[b].items[i].sub.value.level < LEVELS
    ensures m.bs[b].entries[i].tag.Sep? ==> tr[b].items[i].sub.value.level < m.bs[b].level
    ensures Known(Load(m, b, i, disk[m.bs[b].entries[i].off], k), disk, tr[k := tr[b].items[i].sub.value])
  {
    var off := m.bs[b].entries[i].off;
    var t := tr[b];
    assert Means(m, disk, b, t) && LevelsOk(t);
    var sub := t.items[i].sub.value;
    var m' := Load(m, b, i, disk[off], k);
    LoadShape(m, b, i, disk[off], k);
    forall x | x in m'.bs ensures Means(m', disk, x, tr[k := sub][x]) && LevelsOk(tr[k := sub][x]) {
      if x == k { LoadedMeans(m', disk, k, off, sub); }
      else { LoadKeepsMeaning(m, disk, b, i, k, x, tr[x]); }
    }
  }

  lemma LoadWellFormed(m: Mem, disk: Disk, l: Layout, tr: map<nat, Tree>, b: nat, i: nat, next: nat)
    requires WellFormed(m, l) && Known(m, disk, tr) && KeysBelow(l, next)
    requires b in m.bs && b in l.owner && l.owner[b] in l.depth
    requires i < |m.bs[b].entries| && m.bs[b].entries[i].child.None? && m.bs[b].entries[i].off != 0
    ensures |tr[b].items| == |m.bs[b].entries| && tr[b].items[i].sub.Some?
    ensures Reads(disk, m.bs[b].entries[i].off, tr[b].items[i].sub.value)
    ensures WellFormed(Load(m, b, i, disk[m.bs[b].entries[i].off], next),
                       LoadLayout(m, l, b, i, disk[m.bs[b].entries[i].off].level, next))
    ensures KeysBelow(LoadLayout(m, l, b, i, disk[m.bs[b].entries[i].off].level, next), next + 1)
    ensures Known(Load(m, b, i, disk[m.bs[b].entries[i].off], next), disk, tr[next := tr[b].items[i].sub.value])
    ensures next !in m.bs && next !in m.hs
  {
    hide Ranked, SepsOk, StepsOk, RootsOk, Known, Load, LoadLayout, KeysBelow, Reads;
    FreshKey(m, l, next);
    LoadKnown(m, disk, tr, b, i, next);
    var rec := disk[m.bs[b].entries[i].off];
    WellFormedKeys(m, l);
    LoadRanked(m, l, b, i, rec.level, next);
    var m', l' := Load(m, b, i, rec, next), LoadLayout(m, l, b, i, rec.level, next);
    LoadFacts(m, l, b, i, rec, next);
    GrowSeps(m, l, m', l', b, i, next);
    GrowSteps(m, l, m', l', b, i, next);
    LoadRoots(m, l, b, i, rec, next);
  }

  lemma LoadFacts(m: Mem, l: Layout, b: nat, i: nat, rec: Record, k: nat)
    requires WellFormed(m, l) && b in m.bs && i < |m.bs[b].entries| && b in l.owner && l.owner[b] in l.depth
    requires k !in m.bs && k !in m.hs && m.bs[b].entries[i].child.None?
    ensures OneMore(m, Load(m, b, i, rec, k), b, i, k)
    ensures k !in l.pos && k !in l.at && k !in l.depth && (forall c | c in l.pos :: c in l.owner)
    ensures LoadLayout(m, l, b, i, rec.level, k).owner.Keys == l.owner.Keys + {k}
    ensures LoadLayout(m, l, b, i, rec.level, k).level == l.level[k := Load(m, b, i, rec, k).bs[k].level]
    ensures LoadLayout(m, l, b, i, rec.level, k).pos == if m.bs[b].entries[i].tag.Sep? then l.pos[k := (b, i)] else l.pos
    ensures LoadLayout(m, l, b, i, rec.level, k).at == if m.bs[b].entries[i].tag.Sep? then l.at else l.at[k := (b, i)]
    ensures LoadLayout(m, l, b, i, rec.level, k).depth.Keys == Load(m, b, i, rec, k).hs.Keys
  {
    hide SepsOk, StepsOk, RootsOk;
    WellFormedKeys(m, l);
    LoadShape(m, b, i, rec, k);
  }

  lemma FreshKey(m: Mem, l: Layout, next: nat)
    requires WellFormed(m, l) && KeysBelow(l, next)
    ensures next !in m.bs && next !in m.hs && next !in l.owner && next !in l.depth
  {
    WellFormedKeys(m, l);
  }

  // ---------------------------------------------------------------- phase 2: one B+tree

  /** The first n entries of b lead into the new file, or nowhere; separators are loaded. */
  ghost predicate EntriesReady(m: Mem, disk: Disk, b: nat, t: Tree, n: nat) {
    && b in m.bs && n <= |m.bs[b].entries| == |t.items|
    && forall j | 0 <= j < n :: EntryReady(disk, m.bs[b].entries[j], t.items[j])
  }

  ghost predicate EntryReady(disk: Disk, e: Entry, item: Item) {
    && (e.child.None? ==> e.off == 0)
    && (e.child.Some? && !e.tag.Sep? ==> e.off != 0 && item.sub.Some? && Reads(disk, e.off, item.sub.value))
  }

  ghost predicate TreeReady(m: Mem, l: Layout, disk: Disk, tr: map<nat, Tree>, r: nat)
    requires Ranked(l)
  {
    forall x | x in l.owner && UnderB(l, x, r) :: x in tr && x in m.bs && EntriesReady(m, disk, x, tr[x], |m.bs[x].entries|)
  }

  ghost function SubB(l: Layout, r: nat): set<nat>
    requires Ranked(l)
  {
    set x | x in l.owner && UnderB(l, x, r)
  }

  /** The new file holds the records of exactly the bnodes in `done`, one each. */
  ghost predicate Image(m: Mem, disk: Disk, done: set<nat>) {
    && done <= m.bs.Keys
    && (forall b | b in done :: m.bs[b].off in disk)
    && (forall o | o in disk :: exists b :: b in done && m.bs[b].off == o)
    && (forall b, c | b in done && c in done && m.bs[b].off == m.bs[c].off :: b == c)
    && Filed(m, disk, done) && Aligned(m, done)
  }

  /** The record of a bnode in `done` is what the bnode holds, and nothing of it is left unloaded. */
  ghost predicate Filed(m: Mem, disk: Disk, done: set<nat>) {
    forall b | b in done && b in m.bs ::
      && 0 < m.bs[b].off < UNWRITTEN && m.bs[b].off in disk && Mirrors(disk[m.bs[b].off], m.bs[b])
      && AllLoaded(m.bs[b])
  }

  ghost predicate AllLoaded(b: BNode) {
    forall i | 0 <= i < |b.entries| :: b.entries[i].child.None? ==> b.entries[i].off == 0
  }

  /** Every entry whose loaded child is in `done` holds that child's offset. */
  ghost predicate Aligned(m: Mem, done: set<nat>) {
    forall b, i | b in m.bs && 0 <= i < |m.bs[b].entries| ::
      Kid(m, m.bs[b].entries[i]).Some? && Kid(m, m.bs[b].entries[i]).value in done && Kid(m, m.bs[b].entries[i]).value in m.bs ==>
        m.bs[b].entries[i].off == m.bs[Kid(m, m.bs[b].entries[i]).value].off
  }

  /** Every child offset in the file is in the file, before its parent: children were written first. */
  ghost predicate Closed(disk: Disk) {
    forall o, i | o in disk && 0 <= i < |disk[o].entries| ::
      disk[o].entries[i].off == 0 || (disk[o].entries[i].off in disk && disk[o].entries[i].off < o)
  }

  function Patch(b: BNode, x: nat, parent: Option<(nat, nat)>, off: nat): BNode {
    if parent.Some? && parent.value.0 == x && parent.value.1 < |b.entries|
    then b.(entries := b.entries[parent.value.1 := b.entries[parent.value.1].(off := off)]) else b
  }

  /** Outside the B+tree below r only the parent entry of r changed. */
  ghost predicate OnlyBelowB(m0: Mem, m: Mem, l: Layout, r: nat, parent: Option<(nat, nat)>)
    requires Ranked(l)
  {
    && r in m.bs && m.bs.Keys == m0.bs.Keys == l.owner.Keys
    && forall x | x in m0.bs && !UnderB(l, x, r) :: m.bs[x] == Patch(m0.bs[x], x, parent, m.bs[r].off)
  }

  /** Progress in bnode r: its first i separators are written and repointed. */
  ghost predicate Walked(m0: Mem, m: Mem, l: Layout, disk: Disk, r: nat, t: Tree, i: nat)
    requires Ranked(l)
  {
    && Repointed(m0, m) && m0.bs.Keys == l.owner.Keys && r in m.bs && i <= |m.bs[r].entries| == |t.items|
    && (forall x | x in m0.bs && !UnderB(l, x, r) :: m.bs[x] == m0.bs[x])
    && (forall x | x in m0.bs && x != r && UnderB(l, x, r) && l.pos[TopB(l, x, r)].1 >= i :: m.bs[x] == m0.bs[x])
    && m.bs[r].off == m0.bs[r].off
    && (forall j | 0 <= j < |m.bs[r].entries| && (j >= i || !m.bs[r].entries[j].tag.Sep?) :: m.bs[r].entries[j] == m0.bs[r].entries[j])
    && (forall j | 0 <= j < i && m.bs[r].entries[j].tag.Sep? && m.bs[r].entries[j].child.Some? ::
          m.bs[r].entries[j].off != 0 && t.items[j].sub.Some? && Reads(disk, m.bs[r].entries[j].off, t.items[j].sub.value))
  }

  ghost function DoneSeps(l: Layout, r: nat, i: nat): set<nat>
    requires Ranked(l)
  {
    set x | x in l.owner && x != r && UnderB(l, x, r) && l.pos[TopB(l, x, r)].1 < i
  }

  lemma KnownRepointed(m: Mem, m': Mem, disk: Disk, tr: map<nat, Tree>)
    requires Known(m, disk, tr) && Repointed(m, m')
    ensures Known(m', disk, tr)
  {
    forall b | b in m'.bs ensures Means(m', disk, b, tr[b]) {
      MeansRepointed(m, m', disk, disk, b, tr[b]);
    }
  }

  /** A loaded child means what its parent's tree says. */
  lemma KidTree(m: Mem, disk: Disk, tr: map<nat, Tree>, b: nat, i: nat)
    requires Known(m, disk, tr) && b in m.bs && i < |m.bs[b].entries| && m.bs[b].entries[i].child.Some?
    ensures |tr[b].items| == |m.bs[b].entries| && tr[b].items[i].sub.Some?
    ensures Kid(m, m.bs[b].entries[i]).Some? && Kid(m, m.bs[b].entries[i]).value in m.bs
    ensures tr[Kid(m, m.bs[b].entries[i]).value] == tr[b].items[i].sub.value
  {
    assert Means(m, disk, b, tr[b]);
    var c := Kid(m, m.bs[b].entries[i]).value;
    assert Means(m, disk, c, tr[c]);
    MeansUnique(m, disk, c, tr[c], tr[b].items[i].sub.value);
  }

  lemma SepKid(m: Mem, e: Entry)
    requires e.tag.Sep?
    ensures Kid(m, e) == e.child
  {
  }

  lemma KnownShape(m: Mem, disk: Disk, tr: map<nat, Tree>, b: nat)
    requires Known(m, disk, tr) && b in m.bs
    ensures b in tr && m.bs[b].level == tr[b].level && |tr[b].items| == |m.bs[b].entries|
    ensures forall j | 0 <= j < |m.bs[b].entries| :: m.bs[b].entries[j].tag == tr[b].items[j].tag
    ensures forall j | 0 <= j < |m.bs[b].entries| && m.bs[b].entries[j].child.None? && m.bs[b].entries[j].off == 0 :: tr[b].items[j].sub.None?
  {
    assert Means(m, disk, b, tr[b]);
  }

  lemma StartWalked(m: Mem, l: Layout, disk: Disk, r: nat, t: Tree)
    requires Ranked(l) && m.bs.Keys == l.owner.Keys && r in m.bs && |m.bs[r].entries| == |t.items|
    ensures Walked(m, m, l, disk, r, t, 0) && DoneSeps(l, r, 0) == {}
  {
  }

  /** Before its turn the subtree of the i-th separator is untouched, so still ready. */
  lemma WalkInto(m0: Mem, m: Mem, l: Layout, disk0: Disk, disk: Disk, tr: map<nat, Tree>, r: nat, t: Tree, i: nat, c: nat, done: set<nat>)
    requires Ranked(l) && Walked(m0, m, l, disk, r, t, i) && TreeReady(m0, l, disk0, tr, r) && Extends(disk0, disk)
    requires c in l.pos && l.pos[c] == (r, i) && r in l.owner && SubB(l, r) !! done
    ensures TreeReady(m, l, disk, tr, c) && SubB(l, c) !! (done + DoneSeps(l, r, i)) && c in SubB(l, c)
  {
    hide EntriesReady;
    forall x | x in l.owner && UnderB(l, x, c)
      ensures UnderB(l, x, r) && x != r && TopB(l, x, r) == c && x !in DoneSeps(l, r, i)
      ensures x in tr && x in m.bs && EntriesReady(m, disk, x, tr[x], |m.bs[x].entries|)
    {
      TopBIs(l, x, c, r);
      assert x in SubB(l, r);
      ReadyExtended(m0, m, disk0, disk, x, tr[x]);
    }
  }

  lemma ReadyExtended(m0: Mem, m: Mem, disk0: Disk, disk: Disk, x: nat, t: Tree)
    requires x in m0.bs && x in m.bs && m.bs[x] == m0.bs[x] && EntriesReady(m0, disk0, x, t, |m0.bs[x].entries|) && Extends(disk0, disk)
    ensures EntriesReady(m, disk, x, t, |m.bs[x].entries|)
  {
    forall j | 0 <= j < |m.bs[x].entries| ensures EntryReady(disk, m.bs[x].entries[j], t.items[j]) {
      assert EntryReady(disk0, m0.bs[x].entries[j], t.items[j]);
      var e := m0.bs[x].entries[j];
      if e.child.Some? && !e.tag.Sep? { ReadsExtended(disk0, disk, e.off, t.items[j].sub.value); }
    }
  }

  lemma WalkStep(m0: Mem, m1: Mem, m2: Mem, l: Layout, disk1: Disk, disk2: Disk, r: nat, t: Tree, i: nat, c: nat)
    requires Ranked(l) && Walked(m0, m1, l, disk1, r, t, i) && Extends(disk1, disk2) && Repointed(m1, m2)
    requires i < |m1.bs[r].entries| && m1.bs[r].entries[i].tag.Sep? && m1.bs[r].entries[i].child == Some(c)
    requires c in l.pos && l.pos[c] == (r, i) && r in l.owner && (forall x | x in l.pos && l.pos[x] == (r, i) :: x == c)
    requires OnlyBelowB(m1, m2, l, c, Some((r, i)))
    requires t.items[i].sub.Some? && m2.bs[c].off != 0 && Reads(disk2, m2.bs[c].off, t.items[i].sub.value)
    ensures Walked(m0, m2, l, disk2, r, t, i + 1) && DoneSeps(l, r, i + 1) == DoneSeps(l, r, i) + SubB(l, c)
  {
    hide UnderB, TopB, Ranked, Reads, Repointed, DoneSeps, SubB;
    RepointedTwice(m0, m1, m2, disk1, disk1, disk1);
    InSep(l, r, c);
    WalkStepNodes(m0, m1, m2, l, disk1, r, t, i, c);
    forall j | 0 <= j < i && m2.bs[r].entries[j].tag.Sep? && m2.bs[r].entries[j].child.Some?
      ensures m2.bs[r].entries[j].off != 0 && t.items[j].sub.Some? && Reads(disk2, m2.bs[r].entries[j].off, t.items[j].sub.value)
    {
      assert m2.bs[r].entries[j] == m1.bs[r].entries[j];
      ReadsExtended(disk1, disk2, m1.bs[r].entries[j].off, t.items[j].sub.value);
    }
  }

  lemma InSep(l: Layout, r: nat, c: nat)
    requires Ranked(l) && c in l.pos && l.pos[c].0 == r
    ensures forall x | x in l.owner :: UnderB(l, x, c) <==> x != r && UnderB(l, x, r) && TopB(l, x, r) == c
  {
    forall x | x in l.owner ensures UnderB(l, x, c) <==> x != r && UnderB(l, x, r) && TopB(l, x, r) == c {
      if UnderB(l, x, c) { TopBIs(l, x, c, r); }
    }
  }

  lemma WalkStepNodes(m0: Mem, m1: Mem, m2: Mem, l: Layout, disk1: Disk, r: nat, t: Tree, i: nat, c: nat)
    requires Ranked(l) && Walked(m0, m1, l, disk1, r, t, i)
    requires i < |m1.bs[r].entries| && m1.bs[r].entries[i].tag.Sep?
    requires c in l.pos && l.pos[c] == (r, i) && r in l.owner && (forall x | x in l.pos && l.pos[x] == (r, i) :: x == c)
    requires OnlyBelowB(m1, m2, l, c, Some((r, i)))
    requires forall x | x in l.owner :: UnderB(l, x, c) <==> x != r && UnderB(l, x, r) && TopB(l, x, r) == c
    ensures m2.bs[r] == m1.bs[r].(entries := m1.bs[r].entries[i := m1.bs[r].entries[i].(off := m2.bs[c].off)])
    ensures forall x | x in m0.bs && !UnderB(l, x, r) :: m2.bs[x] == m0.bs[x]
    ensures forall x | x in m0.bs && x != r && UnderB(l, x, r) && l.pos[TopB(l, x, r)].1 >= i + 1 :: m2.bs[x] == m0.bs[x]
    ensures DoneSeps(l, r, i + 1) == DoneSeps(l, r, i) + SubB(l, c)
  {
    hide UnderB, TopB, Ranked;
    SelfUnderB(l, r);
    assert !UnderB(l, r, c);
  }

  lemma SelfUnderB(l: Layout, r: nat)
    requires Ranked(l) && r in l.owner
    ensures UnderB(l, r, r)
  {
  }

  lemma WalkPass(m0: Mem, m: Mem, l: Layout, disk: Disk, r: nat, t: Tree, i: nat)
    requires Ranked(l) && Walked(m0, m, l, disk, r, t, i) && i < |m.bs[r].entries|
    requires !(m.bs[r].entries[i].tag.Sep? && m.bs[r].entries[i].child.Some?)
    requires forall x | x in l.pos :: l.pos[x] != (r, i)
    ensures Walked(m0, m, l, disk, r, t, i + 1) && DoneSeps(l, r, i + 1) == DoneSeps(l, r, i)
  {
    DonePass(l, r, i);
    hide UnderB, TopB, Ranked, Reads, Repointed, DoneSeps;
  }

  lemma DonePass(l: Layout, r: nat, i: nat)
    requires Ranked(l) && forall x | x in l.pos :: l.pos[x] != (r, i)
    ensures DoneSeps(l, r, i + 1) == DoneSeps(l, r, i)
  {
    forall x | x in l.owner && x != r && UnderB(l, x, r) ensures l.pos[TopB(l, x, r)].1 != i { TopNotAt(l, r, i, x); }
    hide UnderB, TopB, Ranked;
  }

  lemma TopNotAt(l: Layout, r: nat, i: nat, x: nat)
    requires Ranked(l) && x in l.owner && x != r && UnderB(l, x, r) && forall y | y in l.pos :: l.pos[y] != (r, i)
    ensures l.pos[TopB(l, x, r)].1 != i
  {
    var c := TopB(l, x, r);
    assert l.pos[c] == (l.pos[c].0, l.pos[c].1);
  }

  /** With all entries pointing into the new file, the record of r decodes to its tree. */
  lemma RecordReads(m0: Mem, m: Mem, l: Layout, disk0: Disk, disk: Disk, oldDisk: Disk, tr: map<nat, Tree>, r: nat, off: nat)
    requires Ranked(l) && r in m0.bs && r in tr && r in l.owner && Known(m, oldDisk, tr) && Extends(disk0, disk)
    requires EntriesReady(m0, disk0, r, tr[r], |m0.bs[r].entries|)
    requires r in m.bs && Walked(m0, m, l, disk, r, tr[r], |m.bs[r].entries|)
    requires Closed(disk) && forall o | o in disk :: o < off
    ensures Reads(disk[off := Serialize(m.bs[r])], off, tr[r]) && Closed(disk[off := Serialize(m.bs[r])])
  {
    hide UnderB, TopB, Ranked, Repointed, Known;
    var t := tr[r];
    var disk' := disk[off := Serialize(m.bs[r])];
    KnownShape(m, oldDisk, tr, r);
    assert Extends(disk, disk');
    forall j | 0 <= j < |t.items|
      ensures disk'[off].entries[j].tag == t.items[j].tag
      ensures disk'[off].entries[j].off == 0 <==> t.items[j].sub.None?
      ensures t.items[j].sub.Some? ==> Reads(disk', disk'[off].entries[j].off, t.items[j].sub.value)
      ensures disk'[off].entries[j].off == 0 || disk'[off].entries[j].off in disk
    {
      var e := m.bs[r].entries[j];
      assert EntryReady(disk0, m0.bs[r].entries[j], t.items[j]);
      if e.child.Some? {
        if !e.tag.Sep? { ReadsExtended(disk0, disk, e.off, t.items[j].sub.value); }
        ReadsExtended(disk, disk', e.off, t.items[j].sub.value);
      } else {
        SameChildOff(m0, m, r, j);
      }
    }
  }

  lemma SameChildOff(m0: Mem, m: Mem, r: nat, j: nat)
    requires Repointed(m0, m) && r in m0.bs && j < |m0.bs[r].entries| && r in m.bs && j < |m.bs[r].entries| && m.bs[r].entries[j].child.None?
    ensures m0.bs[r].entries[j].child.None? && m.bs[r].entries[j].off == m0.bs[r].entries[j].off
  {
    assert SameNode(m0.bs[r], m.bs[r]);
    assert SameEntry(m0.bs[r].entries[j], m.bs[r].entries[j]);
  }

  /** What repointing changes: the offset of b, and that of the entry b hangs from. */
  ghost predicate OffsetMoved(m: Mem, m': Mem, b: nat, off: nat, parent: Option<(nat, nat)>) {
    && m'.hs == m.hs && m'.bs.Keys == m.bs.Keys && b in m.bs && m'.bs[b] == m.bs[b].(off := off)
    && (forall x | x in m.bs && x != b && (parent.Some? ==> x != parent.value.0) :: m'.bs[x] == m.bs[x])
    && (parent.Some? ==>
          var (p, i) := parent.value;
          && p != b && p in m.bs && i < |m.bs[p].entries|
          && m'.bs[p] == m.bs[p].(entries := m.bs[p].entries[i := m.bs[p].entries[i].(off := off)]))
  }

  lemma RepointMoves(m: Mem, l: Layout, b: nat, off: nat)
    requires WellFormed(m, l) && b in m.bs
    ensures OffsetMoved(m, Repoint(m, b, off, ParentOf(l, b)), b, off, ParentOf(l, b))
  {
    if ParentOf(l, b).Some? { Hangs(m, l, b); }
    hide Ranked, SepsOk, StepsOk, RootsOk, ParentOf;
    StartWriting(m, map[]);
    RepointEffect(m, m, b, off, ParentOf(l, b));
  }

  lemma ImageGrows(m: Mem, m': Mem, l: Layout, disk: Disk, done: set<nat>, b: nat, off: nat)
    requires Image(m, disk, done) && WellFormed(m, l) && b in m.bs && b !in done && off !in disk && 0 < off < UNWRITTEN
    requires m' == Repoint(m, b, off, ParentOf(l, b)) && (ParentOf(l, b).Some? ==> ParentOf(l, b).value.0 !in done) && AllLoaded(m.bs[b])
    ensures Image(m', disk[off := Serialize(m.bs[b])], done + {b})
  {
    RepointMoves(m, l, b, off);
    AlignedGrows(m, m', l, done, b, off);
    var parent := ParentOf(l, b);
    hide *;
    ImageMoved(m, m', disk, done, b, off, parent);
  }

  lemma ImageMoved(m: Mem, m': Mem, disk: Disk, done: set<nat>, b: nat, off: nat, parent: Option<(nat, nat)>)
    requires Image(m, disk, done) && b !in done && off !in disk && 0 < off < UNWRITTEN && OffsetMoved(m, m', b, off, parent)
    requires (parent.Some? ==> parent.value.0 !in done) && AllLoaded(m.bs[b]) && Aligned(m', done + {b})
    ensures Image(m', disk[off := Serialize(m.bs[b])], done + {b})
  {
    hide Aligned, OffsetMoved, Mirrors, Serialize, AllLoaded, Filed;
    MovedDone(m, m', done, b, off, parent);
    var disk', done' := disk[off := Serialize(m.bs[b])], done + {b};
    FiledMoved(m, m', disk, done, b, off);
    forall o | o in disk' ensures exists x :: x in done' && m'.bs[x].off == o {
      if o == off { assert b in done'; } else {
        var x :| x in done && m.bs[x].off == o;
        assert x in done';
      }
    }
  }

  lemma MovedDone(m: Mem, m': Mem, done: set<nat>, b: nat, off: nat, parent: Option<(nat, nat)>)
    requires OffsetMoved(m, m', b, off, parent) && done <= m.bs.Keys && b !in done && (parent.Some? ==> parent.value.0 !in done)
    ensures b in m.bs && m'.bs.Keys == m.bs.Keys && m'.bs[b] == m.bs[b].(off := off) && forall x | x in done :: m'.bs[x] == m.bs[x]
  {
  }

  lemma FiledMoved(m: Mem, m': Mem, disk: Disk, done: set<nat>, b: nat, off: nat)
    requires Filed(m, disk, done) && done <= m.bs.Keys && b !in done && off !in disk && 0 < off < UNWRITTEN
    requires b in m.bs && m'.bs.Keys == m.bs.Keys && m'.bs[b] == m.bs[b].(off := off) && AllLoaded(m.bs[b])
    requires forall x | x in done :: m'.bs[x] == m.bs[x]
    ensures Filed(m', disk[off := Serialize(m.bs[b])], done + {b})
  {
    hide Mirrors, Serialize, AllLoaded;
    MirrorsSerialized(m.bs[b], off);
  }

  lemma MirrorsSerialized(b: BNode, off: nat)
    requires AllLoaded(b)
    ensures Mirrors(Serialize(b), b.(off := off)) && AllLoaded(b.(off := off))
  {
  }

  lemma AlignedGrows(m: Mem, m': Mem, l: Layout, done: set<nat>, b: nat, off: nat)
    requires WellFormed(m, l) && b in m.bs && b !in done && Aligned(m, done) && m' == Repoint(m, b, off, ParentOf(l, b))
    ensures Aligned(m', done + {b})
  {
    hide *;
    forall x, i | x in m'.bs && 0 <= i < |m'.bs[x].entries| && Kid(m', m'.bs[x].entries[i]).Some?
                  && Kid(m', m'.bs[x].entries[i]).value in done + {b} && Kid(m', m'.bs[x].entries[i]).value in m'.bs
      ensures m'.bs[x].entries[i].off == m'.bs[Kid(m', m'.bs[x].entries[i]).value].off
    {
      AlignedEntry(m, m', l, done, b, off, x, i);
    }
    MakeAligned(m', done + {b});
  }

  lemma MakeAligned(m: Mem, done: set<nat>)
    requires forall b, i | b in m.bs && 0 <= i < |m.bs[b].entries| ::
               Kid(m, m.bs[b].entries[i]).Some? && Kid(m, m.bs[b].entries[i]).value in done && Kid(m, m.bs[b].entries[i]).value in m.bs ==>
                 m.bs[b].entries[i].off == m.bs[Kid(m, m.bs[b].entries[i]).value].off
    ensures Aligned(m, done)
  {
    hide Kid;
  }

  lemma AlignedEntry(m: Mem, m': Mem, l: Layout, done: set<nat>, b: nat, off: nat, x: nat, i: nat)
    requires WellFormed(m, l) && b in m.bs && b !in done && Aligned(m, done) && m' == Repoint(m, b, off, ParentOf(l, b))
    requires x in m'.bs && i < |m'.bs[x].entries| && Kid(m', m'.bs[x].entries[i]).Some?
    requires Kid(m', m'.bs[x].entries[i]).value in done + {b} && Kid(m', m'.bs[x].entries[i]).value in m'.bs
    ensures m'.bs[x].entries[i].off == m'.bs[Kid(m', m'.bs[x].entries[i]).value].off
  {
    RepointMoves(m, l, b, off);
    hide Ranked, SepsOk, StepsOk, RootsOk, Repoint, ParentOf, OffsetMoved, Kid;
    var c := Kid(m', m'.bs[x].entries[i]).value;
    MovedEntry(m, m', b, off, ParentOf(l, b), x, i, c);
    KidHangs(m, l, x, i, c);
    if c == b { assert ParentOf(l, b) == Some((x, i)); } else { KidHangs(m, l, x, i, b); }
  }

  lemma MovedEntry(m: Mem, m': Mem, b: nat, off: nat, parent: Option<(nat, nat)>, x: nat, i: nat, c: nat)
    requires OffsetMoved(m, m', b, off, parent) && x in m'.bs && i < |m'.bs[x].entries| && c in m'.bs
    ensures x in m.bs && i < |m.bs[x].entries| && Kid(m, m.bs[x].entries[i]) == Kid(m', m'.bs[x].entries[i])
    ensures m'.bs[x].entries[i].off == if parent == Some((x, i)) then off else m.bs[x].entries[i].off
    ensures c in m.bs && m'.bs[c].off == if c == b then off else m.bs[c].off
  {
  }

  /** Bnodes that are not in `done` may change, as long as no entry loses a child that is. */
  lemma ImageSame(m: Mem, m': Mem, disk: Disk, done: set<nat>)
    requires Image(m, disk, done) && done <= m'.bs.Keys && (forall x | x in done :: m'.bs[x] == m.bs[x])
    requires forall x, i | x in m'.bs && 0 <= i < |m'.bs[x].entries| && Kid(m', m'.bs[x].entries[i]).Some? && Kid(m', m'.bs[x].entries[i]).value in done ::
               && x in m.bs && i < |m.bs[x].entries| && m.bs[x].entries[i].off == m'.bs[x].entries[i].off
               && Kid(m, m.bs[x].entries[i]) == Kid(m', m'.bs[x].entries[i])
    ensures Image(m', disk, done)
  {
    forall o | o in disk ensures exists x :: x in done && m'.bs[x].off == o {
      var x :| x in done && m.bs[x].off == o;
    }
    hide Mirrors, AllLoaded;
    assert Filed(m', disk, done);
    assert Aligned(m', done);
  }

  lemma LoadImage(m: Mem, disk: Disk, done: set<nat>, b: nat, i: nat, rec: Record, k: nat)
    requires Image(m, disk, done) && b in m.bs && i < |m.bs[b].entries| && b !in done && k !in m.bs && k !in m.hs
    ensures Image(Load(m, b, i, rec, k), disk, done)
  {
    LoadShape(m, b, i, rec, k);
    ImageKeys(m, disk, done);
    hide Image, Load;
    ImageSame(m, Load(m, b, i, rec, k), disk, done);
  }

  lemma WellFormedRanked(m: Mem, l: Layout)
    requires WellFormed(m, l)
    ensures Ranked(l) && m.bs.Keys == l.owner.Keys == l.level.Keys && m.hs.Keys == l.depth.Keys
  {
  }

  lemma SepHere(m: Mem, l: Layout, b: nat, i: nat)
    requires WellFormed(m, l) && b in m.bs && i < |m.bs[b].entries|
    ensures var e := m.bs[b].entries[i];
            if e.tag.Sep? && e.child.Some? then
              && e.child.value in m.bs && e.child.value in l.pos && l.pos[e.child.value] == (b, i)
              && ParentOf(l, e.child.value) == Some((b, i))
              && e.child.value in l.owner && e.child.value in l.level && b in l.level && l.level[e.child.value] < l.level[b]
              && forall t | t in l.pos && l.pos[t] == (b, i) :: t == e.child.value
            else forall t | t in l.pos :: l.pos[t] != (b, i)
  {
    SepAt(m, l, b, i);
  }

  lemma EntriesKept(m: Mem, m': Mem, b: nat)
    requires Repointed(m, m') && b in m.bs
    ensures b in m'.bs && |m'.bs[b].entries| == |m.bs[b].entries|
  {
    assert SameNode(m.bs[b], m'.bs[b]);
  }

  lemma RootReadyB(m: Mem, l: Layout, disk: Disk, tr: map<nat, Tree>, b: nat)
    requires Ranked(l) && TreeReady(m, l, disk, tr, b) && b in l.owner
    ensures b in m.bs && b in tr && EntriesReady(m, disk, b, tr[b], |m.bs[b].entries|)
  {
    SelfUnderB(l, b);
  }

  lemma FinishBnode(m0: Mem, m1: Mem, m2: Mem, l: Layout, disk0: Disk, disk1: Disk, t: Tree, b: nat, off: nat, rec: Record, done: set<nat>)
    requires WellFormed(m0, l) && WellFormed(m1, l) && Repointed(m0, m1) && Extends(disk0, disk1) && b in m0.bs && b in m1.bs
    requires Walked(m0, m1, l, disk1, b, t, |m1.bs[b].entries|) && off !in disk1 && 0 < off < UNWRITTEN
    requires rec == Serialize(m1.bs[b]) && AllLoaded(m1.bs[b]) && (ParentOf(l, b).Some? ==> ParentOf(l, b).value.0 !in done)
    requires m2 == Repoint(m1, b, off, ParentOf(l, b))
    requires Image(m1, disk1, done + DoneSeps(l, b, |m1.bs[b].entries|)) && SubB(l, b) !! done
    ensures Repointed(m0, m2) && Extends(disk0, disk1[off := rec]) && OnlyBelowB(m0, m2, l, b, ParentOf(l, b))
    ensures b in m2.bs && m2.bs[b].off == off
    ensures Image(m2, disk1[off := rec], done + SubB(l, b))
    ensures DoneSeps(l, b, |m1.bs[b].entries|) + {b} == SubB(l, b)
  {
    hide Image, Repoint, Repointed, Walked, ParentOf, SubB, DoneSeps, Ranked, SepsOk, StepsOk, RootsOk, OnlyBelowB, AllLoaded, Serialize;
    WellFormedKeys(m0, l);
    SubBIs(m0, m1, l, b);
    WalkedOutside(m0, m1, l, disk1, b, t, |m1.bs[b].entries|);
    FinishRepoint(m0, m1, l, b, off);
    KeysKept(m0, m1);
    KeysKept(m0, m2);
    var d := done + DoneSeps(l, b, |m1.bs[b].entries|);
    assert done + SubB(l, b) == d + {b};
    ImageKeys(m1, disk1, d);
    if ParentOf(l, b).Some? { ParentOutside(m0, l, b); ParentNotDone(l, b, |m1.bs[b].entries|); }
    ImageGrows(m1, m2, l, disk1, d, b, off);
  }

  lemma ParentNotDone(l: Layout, b: nat, n: nat)
    requires Ranked(l) && ParentOf(l, b).Some? && ParentOf(l, b).value.0 in l.owner && !UnderB(l, ParentOf(l, b).value.0, b)
    ensures ParentOf(l, b).value.0 !in DoneSeps(l, b, n)
  {
  }

  lemma ReadyAllLoaded(m0: Mem, m: Mem, disk: Disk, b: nat, t: Tree)
    requires b in m0.bs && EntriesReady(m0, disk, b, t, |m0.bs[b].entries|) && Repointed(m0, m)
    ensures b in m.bs && AllLoaded(m.bs[b])
  {
    assert SameNode(m0.bs[b], m.bs[b]);
    forall j | 0 <= j < |m.bs[b].entries| && m.bs[b].entries[j].child.None? ensures m.bs[b].entries[j].off == 0 {
      assert EntryReady(disk, m0.bs[b].entries[j], t.items[j]);
      SameChildOff(m0, m, b, j);
    }
  }

  lemma OwnNotDone(l: Layout, b: nat, i: nat, done: set<nat>)
    requires Ranked(l) && b in l.owner && SubB(l, b) !! done
    ensures b !in done + DoneSeps(l, b, i)
  {
    SelfUnderB(l, b);
    assert b in SubB(l, b);
  }

  lemma ImageKeys(m: Mem, disk: Disk, done: set<nat>)
    requires Image(m, disk, done)
    ensures done <= m.bs.Keys
  {
  }

  lemma WalkedOutside(m0: Mem, m: Mem, l: Layout, disk: Disk, r: nat, t: Tree, i: nat)
    requires Ranked(l) && Walked(m0, m, l, disk, r, t, i)
    ensures m0.bs.Keys == l.owner.Keys && forall x | x in m0.bs && !UnderB(l, x, r) :: m.bs[x] == m0.bs[x]
  {
  }

  lemma SubBIs(m0: Mem, m1: Mem, l: Layout, b: nat)
    requires Ranked(l) && SepsOk(m0, l) && Repointed(m0, m1) && b in m0.bs && b in m1.bs && b in l.owner
    ensures DoneSeps(l, b, |m1.bs[b].entries|) + {b} == SubB(l, b) && b !in DoneSeps(l, b, |m1.bs[b].entries|)
  {
    hide UnderB, TopB;
    SelfUnderB(l, b);
    assert SameNode(m0.bs[b], m1.bs[b]);
  }

  lemma FinishRepoint(m0: Mem, m1: Mem, l: Layout, b: nat, off: nat)
    requires WellFormed(m0, l) && Repointed(m0, m1) && b in m0.bs && b in m1.bs
    requires forall x | x in m0.bs && !UnderB(l, x, b) :: m1.bs[x] == m0.bs[x]
    ensures Repointed(m0, Repoint(m1, b, off, ParentOf(l, b))) && OnlyBelowB(m0, Repoint(m1, b, off, ParentOf(l, b)), l, b, ParentOf(l, b))
    ensures Repoint(m1, b, off, ParentOf(l, b)).bs[b].off == off
    ensures forall x | x in m1.bs && x != b :: Repoint(m1, b, off, ParentOf(l, b)).bs[x].off == m1.bs[x].off
  {
    hide SepsOk, StepsOk, RootsOk, Ranked, UnderB, ParentOf, Repoint;
    var parent := ParentOf(l, b);
    WellFormedKeys(m0, l);
    SelfUnderB(l, b);
    if parent.Some? {
      Hangs(m0, l, b);
      ParentOutside(m0, l, b);
    }
    RepointEffect(m0, m1, b, off, parent);
  }

  lemma ParentOutside(m: Mem, l: Layout, b: nat)
    requires WellFormed(m, l) && b in m.bs && ParentOf(l, b).Some?
    ensures ParentOf(l, b).value.0 in l.owner && ParentOf(l, b).value.0 != b && !UnderB(l, ParentOf(l, b).value.0, b)
  {
    Hangs(m, l, b);
    var p := ParentOf(l, b).value.0;
    if UnderB(l, p, b) { UnderBLevel(l, p, b); }
  }

  /** database_vacuum_walk_bnode: post-order within one B+tree. Afterwards the new file holds at
      b's offset exactly what b means, the parent entry holds that offset, and nothing outside
      the subtree changed. */
  method VacuumBnode(db: Database, file: PageFile, b: nat, parent: Option<(nat, nat)>,
                     ghost l: Layout, ghost tr: map<nat, Tree>, ghost oldDisk: Disk, ghost done: set<nat>)
    returns (ok: bool)
    requires file.Valid() && WellFormed(db.mem, l) && Known(db.mem, oldDisk, tr) && b in db.mem.bs && b in l.owner
    requires parent == ParentOf(l, b)
    requires TreeReady(db.mem, l, file.nodes, tr, b) && Image(db.mem, file.nodes, done) && Closed(file.nodes) && SubB(l, b) !! done
    requires db.dirtyB !! done && (parent.Some? ==> parent.value.0 !in done)
    modifies db`mem, db`dirtyB, file
    ensures file.Valid() && file.superRoot == old(file.superRoot)
    ensures ok ==> Repointed(old(db.mem), db.mem) && Extends(old(file.nodes), file.nodes)
    ensures ok ==> b in db.mem.bs && b in tr && db.mem.bs[b].off != 0 && Reads(file.nodes, db.mem.bs[b].off, tr[b])
    ensures ok ==> OnlyBelowB(old(db.mem), db.mem, l, b, parent)
    ensures ok ==> Image(db.mem, file.nodes, done + SubB(l, b)) && Closed(file.nodes)
    ensures ok ==> db.dirtyB !! done + SubB(l, b) && db.dirtyB <= old(db.dirtyB)
    ensures !ok ==> file.Full()
    decreases l.level[b]
  {
    hide *;
    ghost var m0, disk0 := db.mem, file.nodes;
    WellFormedRanked(m0, l);
    KnownShape(m0, oldDisk, tr, b);
    StartWalked(m0, l, file.nodes, b, tr[b]);
    StartWriting(m0, disk0);
    WritingParts(m0, m0, disk0, disk0, {});
    assert done + {} == done;
    var i: nat := 0;
    while i < |db.mem.bs[b].entries|
      invariant b in db.mem.bs && i <= |db.mem.bs[b].entries| == |m0.bs[b].entries|
      invariant file.Valid() && file.superRoot == old(file.superRoot) && Extends(disk0, file.nodes)
      invariant Repointed(m0, db.mem) && Walked(m0, db.mem, l, file.nodes, b, tr[b], i)
      invariant Image(db.mem, file.nodes, done + DoneSeps(l, b, i)) && Closed(file.nodes)
      invariant db.dirtyB !! done + DoneSeps(l, b, i) && db.dirtyB <= old(db.dirtyB)
      decreases |m0.bs[b].entries| - i
    {
      ghost var m1, disk1 := db.mem, file.nodes;
      WellFormedRepointed(m0, m1, l);
      KnownRepointed(m0, m1, oldDisk, tr);
      SepHere(m1, l, b, i);
      var e := db.mem.bs[b].entries[i];
      if e.tag.Sep? && e.child.Some? {
        var c := e.child.value;
        KidTree(m1, oldDisk, tr, b, i);
        SepKid(m1, e);
        WalkInto(m0, m1, l, disk0, disk1, tr, b, tr[b], i, c, done);
        OwnNotDone(l, b, i, done);
        ok := VacuumBnode(db, file, c, Some((b, i)), l, tr, oldDisk, done + DoneSeps(l, b, i));
        if !ok {
          return false;
        }
        RepointedTwice(m0, m1, db.mem, disk0, disk1, file.nodes);
        EntriesKept(m1, db.mem, b);
        WalkStep(m0, m1, db.mem, l, disk1, file.nodes, b, tr[b], i, c);
        assert done + DoneSeps(l, b, i + 1) == done + DoneSeps(l, b, i) + SubB(l, c);
      } else {
        WalkPass(m0, m1, l, disk1, b, tr[b], i);
      }
      i := i + 1;
    }
    ok := WriteBnode(db, file, b, parent, l, tr, oldDisk, done, m0, disk0);
  }

  /** The end of database_vacuum_walk_bnode: all children are done, b itself is written. */
  method WriteBnode(db: Database, file: PageFile, b: nat, parent: Option<(nat, nat)>, ghost l: Layout, ghost tr: map<nat, Tree>,
                    ghost oldDisk: Disk, ghost done: set<nat>, ghost m0: Mem, ghost disk0: Disk)
    returns (ok: bool)
    requires file.Valid() && WellFormed(m0, l) && Known(m0, oldDisk, tr) && b in m0.bs && b in db.mem.bs && b in l.owner && parent == ParentOf(l, b)
    requires Repointed(m0, db.mem) && Extends(disk0, file.nodes) && b in tr && TreeReady(m0, l, disk0, tr, b) && SubB(l, b) !! done
    requires Walked(m0, db.mem, l, file.nodes, b, tr[b], |db.mem.bs[b].entries|) && Closed(file.nodes)
    requires Image(db.mem, file.nodes, done + DoneSeps(l, b, |db.mem.bs[b].entries|)) && (parent.Some? ==> parent.value.0 !in done)
    requires db.dirtyB !! done + DoneSeps(l, b, |db.mem.bs[b].entries|)
    modifies db`mem, db`dirtyB, file
    ensures file.Valid() && file.superRoot == old(file.superRoot)
    ensures ok ==> Repointed(m0, db.mem) && Extends(disk0, file.nodes)
    ensures ok ==> b in db.mem.bs && db.mem.bs[b].off != 0 && Reads(file.nodes, db.mem.bs[b].off, tr[b])
    ensures ok ==> OnlyBelowB(m0, db.mem, l, b, parent)
    ensures ok ==> Image(db.mem, file.nodes, done + SubB(l, b)) && Closed(file.nodes)
    ensures ok ==> db.dirtyB !! done + SubB(l, b) && db.dirtyB <= old(db.dirtyB)
    ensures !ok ==> file.Full()
  {
    hide WellFormed, Known, TreeReady, Image, Closed, SubB, DoneSeps, Repointed, Extends, OnlyBelowB, Walked, ParentOf, Serialize, Reads;
    hide Patch, Repoint, AllLoaded, EntriesReady, PageFile.Full;
    ghost var m1, disk1 := db.mem, file.nodes;
    WellFormedRanked(m0, l);
    KnownRepointed(m0, m1, oldDisk, tr);
    var off: nat;
    ok, off := file.WriteNode(Serialize(db.mem.bs[b]));
    if !ok {
      return false;
    }
    RootReadyB(m0, l, disk0, tr, b);
    ReadyAllLoaded(m0, m1, disk0, b, tr[b]);
    WellFormedRepointed(m0, m1, l);
    RecordReads(m0, m1, l, disk0, disk1, oldDisk, tr, b, off);
    db.mem := Repoint(db.mem, b, off, parent);
    db.dirtyB := db.dirtyB - {b};
    FinishBnode(m0, m1, db.mem, l, disk0, disk1, tr[b], b, off, Serialize(m1.bs[b]), done);
    return true;
  }
}
