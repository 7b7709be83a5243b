/**
 The trie of B+trees as the flush and vacuum code sees it: a table of bnodes and a table of
 hbtrie nodes in memory (pointers are table keys), and a page file of node records.
 A child is either loaded (a pointer) or only known by its file offset.
 */
module NodeStore {
  import opened Common

  /** One version of a value in an entry's MVCC chain, newest first. */
  datatype Version = Version(txn: TxnId, deleted: bool, value: Option<Bytes>)

  datatype Content = Plain(value: Option<Bytes>) | Chain(versions: seq<Version>)

  /** Per identifier: how many chunks it occupies and its exact byte length. */
  datatype Meta = Meta(chunks: nat, bytes: nat)

  /** What an entry says apart from where its child is: a B+tree separator (is_bnode_child),
      a plain trie step (no value), or a value. */
  datatype Tag =
    | Sep(key: Chunk)
    | Step(key: Chunk)
    | Val(key: Chunk, content: Content, meta: seq<Meta>)

  /** `child` is child_bnode for a separator, child for a trie step, trie_child for a value.
      `off` is child_disk_offset, 0 meaning "not on disk". */
  datatype Entry = Entry(tag: Tag, child: Option<nat>, off: nat)

  datatype BNode = BNode(level: nat, entries: seq<Entry>, off: nat)

  /** `bs` is the table of bnodes, `hs` maps an hbtrie node to the root bnode of its B+tree.
      The is_dirty bits of both tables are kept apart, as the sets of dirty nodes. */
  datatype Mem = Mem(bs: map<nat, BNode>, hs: map<nat, nat>)

  /** disk_offset of a bnode that was never written (UINT64_MAX). */
  const UNWRITTEN: nat := U64_LIMIT - 1

  // ---------------------------------------------------------------- records

  datatype RecEntry = RecEntry(tag: Tag, off: nat)

  datatype Record = Record(level: nat, entries: seq<RecEntry>)

  type Disk = map<nat, Record>

  /** bnode_serialize_v3: the offset of a value's trie child is written only when that child
      is loaded; separators and trie steps always carry their offset. */
  function StoredOff(e: Entry): nat {
    if e.tag.Val? && e.child.None? then 0 else e.off
  }

  function Serialize(b: BNode): Record {
    Record(b.level, seq(|b.entries|, i requires 0 <= i < |b.entries| =>
      RecEntry(b.entries[i].tag, StoredOff(b.entries[i]))))
  }

  /** The record that keeps every offset held in memory. */
  ghost predicate Mirrors(rec: Record, b: BNode) {
    && rec.level == b.level
    && |rec.entries| == |b.entries|
    && forall i | 0 <= i < |b.entries| ::
         rec.entries[i].tag == b.entries[i].tag && rec.entries[i].off == b.entries[i].off
  }

  /** A value entry whose trie child is on disk but not loaded: serialising it drops the child. */
  predicate Drops(e: Entry) {
    e.tag.Val? && e.child.None? && e.off != 0
  }

  predicate DropsChild(b: BNode) {
    exists i :: 0 <= i < |b.entries| && Drops(b.entries[i])
  }

  // ---------------------------------------------------------------- meaning

  /** What a node means, loaded or not. */
  datatype Tree = Node(level: nat, items: seq<Item>)
  datatype Item = Item(tag: Tag, sub: Option<Tree>)

  /** The file at offset `off` holds tree t. */
  ghost predicate Reads(disk: Disk, off: nat, t: Tree)
    decreases t
  {
    && off in disk
    && disk[off].level == t.level
    && |disk[off].entries| == |t.items|
    && forall i | 0 <= i < |t.items| ::
         && disk[off].entries[i].tag == t.items[i].tag
         && (disk[off].entries[i].off == 0 <==> t.items[i].sub.None?)
         && (t.items[i].sub.Some? ==> Reads(disk, disk[off].entries[i].off, t.items[i].sub.value))
  }

  /** The bnode an entry's loaded child leads to: the child itself, or the root bnode of the
      child hbtrie node. */
  function Kid(m: Mem, e: Entry): Option<nat> {
    if e.child.None? then None
    else if e.tag.Sep? then e.child
    else if e.child.value in m.hs then Some(m.hs[e.child.value]) else None
  }

  /** Bnode b means t: loaded children are followed in memory, the others read from the file. */
  ghost predicate Means(m: Mem, disk: Disk, b: nat, t: Tree)
    decreases t
  {
    && b in m.bs
    && m.bs[b].level == t.level
    && |m.bs[b].entries| == |t.items|
    && forall i | 0 <= i < |t.items| ::
         var e := m.bs[b].entries[i];
         && e.tag == t.items[i].tag
         && (e.child.Some? ==>
               Kid(m, e).Some? && t.items[i].sub.Some? && Means(m, disk, Kid(m, e).value, t.items[i].sub.value))
         && (e.child.None? ==>
               && (e.off == 0 <==> t.items[i].sub.None?)
               && (t.items[i].sub.Some? ==> Reads(disk, e.off, t.items[i].sub.value)))
  }

  /** m' is m with only disk offsets and the offsets of loaded children changed. */
  ghost predicate Repointed(m: Mem, m': Mem) {
    && m'.bs.Keys == m.bs.Keys
    && m'.hs == m.hs
    && (forall b | b in m.bs :: SameNode(m.bs[b], m'.bs[b]))
  }

  ghost predicate SameNode(x: BNode, y: BNode) {
    && x.level == y.level
    && |x.entries| == |y.entries|
    && forall i | 0 <= i < |x.entries| :: SameEntry(x.entries[i], y.entries[i])
  }

  ghost predicate SameEntry(e: Entry, f: Entry) {
    e.tag == f.tag && e.child == f.child && (e.child.None? ==> e.off == f.off)
  }

  ghost predicate Extends(disk: Disk, disk': Disk) {
    forall o | o in disk :: o in disk' && disk'[o] == disk[o]
  }

  lemma {:induction false} ReadsExtended(disk: Disk, disk': Disk, off: nat, t: Tree)
    requires Extends(disk, disk')
    requires Reads(disk, off, t)
    ensures Reads(disk', off, t)
    decreases t
  {
    forall i | 0 <= i < |t.items| && t.items[i].sub.Some?
      ensures Reads(disk', disk[off].entries[i].off, t.items[i].sub.value)
    {
      ReadsExtended(disk, disk', disk[off].entries[i].off, t.items[i].sub.value);
    }
  }

  /** A file offset holds at most one tree. */
  lemma {:induction false} ReadsUnique(disk: Disk, off: nat, t: Tree, u: Tree)
    requires Reads(disk, off, t) && Reads(disk, off, u)
    ensures t == u
    decreases t
  {
    forall i | 0 <= i < |t.items|
      ensures t.items[i] == u.items[i]
    {
      if t.items[i].sub.Some? {
        ReadsUnique(disk, disk[off].entries[i].off, t.items[i].sub.value, u.items[i].sub.value);
      }
    }
    assert t.items == u.items;
  }

  /** Repointing loaded children and growing the file changes no meaning. */
  lemma {:induction false} MeansRepointed(m: Mem, m': Mem, disk: Disk, disk': Disk, b: nat, t: Tree)
    requires Repointed(m, m') && Extends(disk, disk')
    requires Means(m, disk, b, t)
    ensures Means(m', disk', b, t)
    decreases t
  {
    assert SameNode(m.bs[b], m'.bs[b]);
    forall i | 0 <= i < |t.items|
      ensures var e := m'.bs[b].entries[i];
              && e.tag == t.items[i].tag
              && (e.child.Some? ==>
                    Kid(m', e).Some? && t.items[i].sub.Some? && Means(m', disk', Kid(m', e).value, t.items[i].sub.value))
              && (e.child.None? ==>
                    && (e.off == 0 <==> t.items[i].sub.None?)
                    && (t.items[i].sub.Some? ==> Reads(disk', e.off, t.items[i].sub.value)))
    {
      var e := m.bs[b].entries[i];
      assert SameEntry(e, m'.bs[b].entries[i]);
      if e.child.Some? {
        MeansRepointed(m, m', disk, disk', Kid(m, e).value, t.items[i].sub.value);
      } else if t.items[i].sub.Some? {
        ReadsExtended(disk, disk', e.off, t.items[i].sub.value);
      }
    }
  }

  lemma {:induction false} MeansUnique(m: Mem, disk: Disk, b: nat, t: Tree, u: Tree)
    requires Means(m, disk, b, t) && Means(m, disk, b, u)
    ensures t == u
    decreases t
  {
    forall i | 0 <= i < |t.items|
      ensures t.items[i] == u.items[i]
    {
      var e := m.bs[b].entries[i];
      if e.child.Some? {
        MeansUnique(m, disk, Kid(m, e).value, t.items[i].sub.value, u.items[i].sub.value);
      } else if t.items[i].sub.Some? {
        ReadsUnique(disk, e.off, t.items[i].sub.value, u.items[i].sub.value);
      }
    }
    assert t.items == u.items;
  }

  /** What opening a file whose superblock names `root` finds; root 0 is the empty trie. */
  ghost predicate Opens(disk: Disk, root: nat, t: Tree) {
    if root == 0 then t == Node(1, []) else Reads(disk, root, t)
  }

  // ---------------------------------------------------------------- page file

  function ContentLength(c: Content): nat {
    match c
    case Plain(v) => 4 + (if v.Some? then |v.value| else 0)
    case Chain(vs) => 2 + VersionsLength(vs)
  }

  function VersionsLength(vs: seq<Version>): nat {
    if vs == [] then 0
    else 29 + (if vs[0].deleted || vs[0].value.None? then 0 else |vs[0].value.value|) + VersionsLength(vs[1..])
  }

  function EntriesLength(es: seq<RecEntry>, chunkSize: nat): nat {
    if es == [] then 0
    else
      var body := match es[0].tag
        case Val(_, c, meta) => ContentLength(c) + (if es[0].off != 0 then 8 else 0)
                                + (if 0 < |meta| <= 255 then 1 + 8 * |meta| else 0)
        case _ => 8;
      chunkSize + 1 + body + EntriesLength(es[1..], chunkSize)
  }

  /** Length of the V3 encoding of a record. */
  function RecordLength(rec: Record, chunkSize: nat): nat {
    5 + EntriesLength(rec.entries, chunkSize)
  }

  lemma {:induction false} LengthsAdd(a: seq<RecEntry>, b: seq<RecEntry>, chunkSize: nat)
    ensures EntriesLength(a + b, chunkSize) == EntriesLength(a, chunkSize) + EntriesLength(b, chunkSize)
  {
    if a == [] {
      assert a + b == b;
    } else {
      assert (a + b)[1..] == a[1..] + b;
      LengthsAdd(a[1..], b, chunkSize);
    }
  }

  lemma {:induction false} DeletedLength(vs: seq<Version>)
    requires forall i | 0 <= i < |vs| :: vs[i].deleted
    ensures VersionsLength(vs) == 29 * |vs|
  {
    if vs != [] { DeletedLength(vs[1..]); }
  }

  /** 5 bytes begin a record; then each entry has its key, a byte of flags, and either 8 bytes for the child
      or a value with its own length. One more entry makes a record longer by just that entry. */
  lemma RecordLengthIs(level: nat, es: seq<RecEntry>, e: RecEntry, chunkSize: nat)
    ensures RecordLength(Record(level, []), chunkSize) == 5
    ensures var more := RecordLength(Record(level, es + [e]), chunkSize) - RecordLength(Record(level, es), chunkSize);
            && (!e.tag.Val? ==> more == chunkSize + 9)
            && (e.tag.Val? && e.tag.content.Plain? && e.tag.content.value.Some? && e.tag.meta == [] && e.off == 0 ==>
                  more == chunkSize + 5 + |e.tag.content.value.value|)
            && (e.tag.Val? && e.tag.content.Chain? && e.tag.meta == [] && e.off == 0 && (forall v | v in e.tag.content.versions :: v.deleted) ==>
                  more == chunkSize + 3 + 29 * |e.tag.content.versions|)
  {
    if e.tag.Val? && e.tag.content.Chain? && forall v | v in e.tag.content.versions :: v.deleted { DeletedLength(e.tag.content.versions); }
    LengthsAdd(es, [e], chunkSize);
    assert [e][1..] == [];
  }

  /** No two records overlap and all end at or before the cursor. A record takes 4 bytes for its length. */
  ghost predicate Apart(nodes: Disk, cursor: nat, chunkSize: nat) {
    && (forall o | o in nodes :: o + 4 + RecordLength(nodes[o], chunkSize) <= cursor)
    && (forall o, p | o in nodes && p in nodes && o < p :: o + 4 + RecordLength(nodes[o], chunkSize) <= p)
  }

  /** The page file: nodes are appended at the cursor, the superblock names the root node.
      `failAfter` is how many more writes the disk accepts; a write refused there is where a
      crash or an I/O error strikes. */
  class PageFile {
    var nodes: Disk
    var superRoot: nat
    var cursor: nat
    var failAfter: nat
    const chunkSize: nat

    ghost predicate Valid()
      reads this
    {
      0 < cursor && (forall o | o in nodes :: 0 < o < cursor && o < UNWRITTEN) && Apart(nodes, cursor, chunkSize)
    }

    /** No further node can be written. */
    ghost predicate Full()
      reads this
    {
      failAfter == 0 || cursor >= UNWRITTEN
    }

    constructor (chunkSize: nat, firstFree: nat, failAfter: nat)
      requires 0 < firstFree
      ensures Valid()
      ensures nodes == map[] && superRoot == 0 && cursor == firstFree
      ensures this.failAfter == failAfter && this.chunkSize == chunkSize
    {
      nodes := map[];
      superRoot := 0;
      cursor := firstFree;
      this.failAfter := failAfter;
      this.chunkSize := chunkSize;
    }

    /** Append a record at a fresh offset, or fail and change nothing on disk. */
    method WriteNode(rec: Record) returns (ok: bool, off: nat)
      requires Valid()
      modifies this
      ensures Valid()
      ensures superRoot == old(superRoot)
      ensures !ok ==> nodes == old(nodes)
      ensures ok ==> off == old(cursor) && 0 < off < UNWRITTEN && off !in old(nodes)
      ensures ok ==> nodes == old(nodes)[off := rec]
      ensures ok <==> !old(Full())
      ensures !ok ==> Full()
      ensures ok ==> failAfter == old(failAfter) - 1
      ensures cursor == if ok then old(cursor) + 4 + RecordLength(rec, chunkSize) else old(cursor)
    {
      off := cursor;
      ok := failAfter > 0 && cursor < UNWRITTEN;
      if ok {
        failAfter := failAfter - 1;
        nodes := nodes[off := rec];
        cursor := cursor + 4 + RecordLength(rec, chunkSize);
      }
    }

    /** One superblock write switches the root. */
    method WriteSuperblock(root: nat) returns (ok: bool)
      requires Valid()
      modifies this
      ensures Valid()
      ensures nodes == old(nodes) && cursor == old(cursor)
      ensures superRoot == if ok then root else old(superRoot)
      ensures ok <==> old(failAfter) > 0
      ensures !ok ==> Full()
      ensures ok ==> failAfter == old(failAfter) - 1
    {
      ok := failAfter > 0;
      if ok {
        failAfter := failAfter - 1;
        superRoot := root;
      }
    }
  }
}
