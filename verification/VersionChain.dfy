/**
 MVCC version chains (version_entry_find_visible, version_entry_add, version_entry_gc): a
 doubly linked list of versions, newest first.
 */
module VersionChain {
  import opened Common
  import opened NodeStore

  // ---------------------------------------------------------------- on values

  ghost predicate NewestFirst(vs: seq<Version>) {
    forall i, j | 0 <= i < j < |vs| :: vs[j].txn.Less(vs[i].txn)
  }

  /** Position of the first version at or below r, or the length if there is none. */
  function At(vs: seq<Version>, r: TxnId): (k: nat)
    ensures k <= |vs| && (k < |vs| ==> vs[k].txn.AtMost(r)) && forall i | 0 <= i < k :: !vs[i].txn.AtMost(r)
  {
    if vs == [] then 0 else if vs[0].txn.AtMost(r) then 0 else 1 + At(vs[1..], r)
  }

  /** What a reader at r sees: that version, unless it is a deletion. */
  function Visible(vs: seq<Version>, r: TxnId): Option<Version> {
    var k := At(vs, r);
    if k < |vs| && !vs[k].deleted then Some(vs[k]) else None
  }

  lemma AtIs(vs: seq<Version>, r: TxnId, k: nat)
    requires k <= |vs| && (k < |vs| ==> vs[k].txn.AtMost(r)) && forall i | 0 <= i < k :: !vs[i].txn.AtMost(r)
    ensures At(vs, r) == k
  {
  }

  /** In numbers: a reader sees no version above its own id, and sees none only if its first version at or
      below that id is a deletion. */
  lemma VisibleIs(vs: seq<Version>, r: TxnId)
    ensures Visible(vs, r).Some? ==>
              !Visible(vs, r).value.deleted && Number(Visible(vs, r).value.txn) <= Number(r) && Visible(vs, r).value.txn.time <= r.time
    ensures Visible(vs, r).None? ==>
              forall k | 0 <= k < |vs| && !vs[k].deleted && Number(vs[k].txn) <= Number(r) :: exists i :: 0 <= i < k && Number(vs[i].txn) <= Number(r)
  {
    forall i | 0 <= i < |vs| ensures vs[i].txn.AtMost(r) <==> Number(vs[i].txn) <= Number(r)
      ensures vs[i].txn.AtMost(r) ==> vs[i].txn.time <= r.time
    {
      TxnOrderIs(vs[i].txn, r);
    }
    hide Number, TxnId.AtMost;
    var at := At(vs, r);
    forall k | 0 <= k < |vs| && Visible(vs, r).None? && !vs[k].deleted && Number(vs[k].txn) <= Number(r)
      ensures exists i :: 0 <= i < k && Number(vs[i].txn) <= Number(r)
    {
      assert at < k && vs[at].txn.AtMost(r);
    }
  }

  /** Versions that survive with cutoff m: the head, and those with id at least m. */
  ghost predicate Survives(vs: seq<Version>, m: TxnId, i: nat)
    requires i < |vs|
  {
    i == 0 || m.AtMost(vs[i].txn)
  }

  /** How many versions remain when versions below m are dropped from the old end, down to the head. */
  ghost function Kept(vs: seq<Version>, m: TxnId): (n: nat)
    ensures n <= |vs| && (vs != [] ==> n > 0)
    ensures n > 1 ==> m.AtMost(vs[n - 1].txn)
    ensures forall i | n <= i < |vs| :: vs[i].txn.Less(m)
  {
    if |vs| <= 1 then |vs|
    else if vs[|vs| - 1].txn.Less(m) then Kept(vs[..|vs| - 1], m) else |vs|
  }

  ghost function Collected(vs: seq<Version>, m: TxnId): seq<Version> {
    vs[..Kept(vs, m)]
  }

  lemma KeptIs(vs: seq<Version>, m: TxnId, n: nat)
    requires n <= |vs| && (vs != [] ==> n > 0) && (n > 1 ==> m.AtMost(vs[n - 1].txn)) && forall i | n <= i < |vs| :: vs[i].txn.Less(m)
    ensures Kept(vs, m) == n
  {
  }

  /** On a chain that is newest first, exactly the surviving versions remain. */
  lemma CollectedExactly(vs: seq<Version>, m: TxnId, i: nat)
    requires NewestFirst(vs) && i < |vs|
    ensures i < Kept(vs, m) <==> Survives(vs, m, i)
    ensures i < Kept(vs, m) ==> Collected(vs, m)[i] == vs[i]
  {
    var n := Kept(vs, m);
    if 0 < i < n - 1 { assert vs[n - 1].txn.Less(vs[i].txn); }
  }

  /** The one way collection changes a read: what the reader saw was live, not the head, and
      below the cutoff. */
  ghost predicate LosesRead(vs: seq<Version>, m: TxnId, r: TxnId) {
    var k := At(vs, r);
    0 < k < |vs| && !vs[k].deleted && vs[k].txn.Less(m)
  }

  lemma ReadKeptIff(vs: seq<Version>, m: TxnId, r: TxnId)
    requires NewestFirst(vs)
    ensures Visible(Collected(vs, m), r) == Visible(vs, r) <==> !LosesRead(vs, m, r)
    ensures LosesRead(vs, m, r) ==> Visible(Collected(vs, m), r) == None
  {
    var k, n := At(vs, r), Kept(vs, m);
    if k < |vs| { CollectedExactly(vs, m, k); }
    AtIs(vs[..n], r, if k < n then k else n);
  }

  /** Reading at the cutoff itself, or above it, is no protection: with versions 10 and 5 and
      cutoff 7 a reader at 8 loses version 5. */
  lemma LostReadExample()
    ensures exists vs, m: TxnId, r :: NewestFirst(vs) && m.Less(r) && LosesRead(vs, m, r)
  {
    var vs := [Version(TxnId(0, 0, 10), false, None), Version(TxnId(0, 0, 5), false, None)];
    AtIs(vs, TxnId(0, 0, 8), 1);
    assert LosesRead(vs, TxnId(0, 0, 7), TxnId(0, 0, 8));
  }

  /** A version above r in front of the chain is invisible at r. */
  lemma AddedAbove(vs: seq<Version>, v: Version, r: TxnId)
    requires r.Less(v.txn)
    ensures Visible([v] + vs, r) == Visible(vs, r)
  {
    assert ([v] + vs)[1..] == vs;
  }

  lemma {:induction false} AllAddedAbove(vs: seq<Version>, more: seq<Version>, r: TxnId)
    requires forall i | 0 <= i < |more| :: r.Less(more[i].txn)
    ensures Visible(more + vs, r) == Visible(vs, r)
  {
    if more == [] {
      assert more + vs == vs;
    } else {
      AllAddedAbove(vs, more[1..], r);
      AddedAbove(more[1..] + vs, more[0], r);
      assert [more[0]] + (more[1..] + vs) == more + vs;
    }
  }

  // ---------------------------------------------------------------- the linked list

  class Node {
    const version: Version
    var next: Node?
    var prev: Node?

    constructor (version: Version)
      ensures this.version == version && next == null && prev == null
    {
      this.version := version;
      next := null;
      prev := null;
    }
  }

  ghost function Versions(nodes: seq<Node>): (vs: seq<Version>)
    ensures |vs| == |nodes| && forall i | 0 <= i < |vs| :: vs[i] == nodes[i].version
  {
    seq(|nodes|, i requires 0 <= i < |nodes| => nodes[i].version)
  }

  function NodeAt(nodes: seq<Node>, i: int): Node? {
    if 0 <= i < |nodes| then nodes[i] else null
  }

  /** The links follow the sequence both ways. */
  ghost predicate Linked(nodes: seq<Node>)
    reads nodes
  {
    && (forall i {:trigger nodes[i].next} | 0 <= i < |nodes| :: nodes[i].next == NodeAt(nodes, i + 1))
    && (forall i {:trigger nodes[i].prev} | 0 <= i < |nodes| :: nodes[i].prev == NodeAt(nodes, i - 1))
  }

  class Chain {
    var head: Node?
    ghost var spine: seq<Node>

    ghost predicate Valid()
      reads this, spine
    {
      && (head == null <==> spine == []) && (spine != [] ==> head == spine[0])
      && Linked(spine)
      && (forall i, j | 0 <= i < j < |spine| :: spine[i] != spine[j])
    }

    ghost function Contents(): seq<Version>
      reads this
    {
      Versions(spine)
    }

    constructor ()
      ensures Valid() && spine == []
    {
      head := null;
      spine := [];
    }

    /** version_entry_find_visible. */
    method FindVisible(r: TxnId) returns (found: Node?)
      requires Valid()
      ensures found == null <==> Visible(Contents(), r) == None
      ensures found != null ==> found in spine && Visible(Contents(), r) == Some(found.version)
      ensures found != null ==> !found.version.deleted && Number(found.version.txn) <= Number(r) && found.version.txn.time <= r.time
      ensures found == null ==>
                forall k | 0 <= k < |Contents()| && !Contents()[k].deleted && Number(Contents()[k].txn) <= Number(r) ::
                  exists i :: 0 <= i < k && Number(Contents()[i].txn) <= Number(r)
    {
      ghost var vs := Contents();
      VisibleIs(vs, r);
      hide Number;
      if head == null {
        return null;
      }
      if head.version.txn.AtMost(r) {
        AtIs(vs, r, 0);
        return if head.version.deleted then null else head;
      }
      assert head == spine[0];
      var current := head.next;
      ghost var i := 1;
      while current != null
        invariant 1 <= i <= |spine| && current == NodeAt(spine, i)
        invariant forall j | 0 <= j < i :: !vs[j].txn.AtMost(r)
        decreases |spine| - i
      {
        if current.version.txn.AtMost(r) {
          AtIs(vs, r, i);
          return if current.version.deleted then null else current;
        }
        current := current.next;
        i := i + 1;
      }
      AtIs(vs, r, i);
      return null;
    }

    /** version_entry_add. */
    method Add(v: Version)
      requires Valid()
      modifies this, spine
      ensures Valid() && Contents() == [v] + old(Contents())
      ensures |spine| == old(|spine|) + 1 && fresh(spine[0]) && spine[1..] == old(spine)
    {
      var n := new Node(v);
      if head != null {
        n.next := head;
        head.prev := n;
      }
      head := n;
      spine := [n] + spine;
    }

    method Oldest() returns (n: Node)
      requires Valid() && spine != []
      ensures n == spine[|spine| - 1]
    {
      n := head;
      ghost var i := 0;
      while n.next != null
        invariant 0 <= i < |spine| && n == spine[i]
        decreases |spine| - i
      {
        n := n.next;
        i := i + 1;
      }
    }

    lemma Ends()
      requires Valid()
      ensures (head == null <==> spine == []) && (spine != [] ==> head == spine[0])
      ensures |spine| > 1 ==> spine[|spine| - 1] != head
    {
    }

    /** Unlink a version that is not the head and step to the newer neighbour. */
    method Detach(gone: Node, ghost at: nat) returns (n: Node)
      requires Valid() && 0 < at < |spine| && gone == spine[at]
      modifies this`spine, spine
      ensures Valid() && spine == Without(old(spine), at) && n == spine[at - 1] && head == old(head)
    {
      ghost var all := spine;
      assert all[at - 1].next == NodeAt(all, at) && gone.prev == NodeAt(all, at - 1);
      n := gone.prev;
      gone.prev.next := gone.next;
      if gone.next != null {
        assert gone.next == all[at + 1];
        gone.next.prev := gone.prev;
      }
      spine := Without(all, at);
      StillLinked(all, at);
      hide Without, NodeAt;
    }

    /** Remove the oldest version. */
    method DropOldest(gone: Node) returns (n: Node)
      requires Valid() && |spine| > 1 && gone == spine[|spine| - 1]
      modifies this`spine, spine
      ensures Valid() && spine == old(spine)[..|old(spine)| - 1] && n == spine[|spine| - 1] && head == old(head)
    {
      hide Valid, Linked;
      ghost var all := spine;
      n := Detach(gone, |spine| - 1);
      WithoutLast(all, |all| - 1);
      assert all[..|all|] == all;
    }

    /** version_entry_gc. */
    method Collect(m: TxnId) returns (removed: nat)
      requires Valid()
      modifies this`spine, spine
      ensures Valid() && Contents() == Collected(old(Contents()), m)
      ensures |spine| <= old(|spine|) && spine == old(spine)[..|spine|] && removed == old(|spine|) - |spine|
    {
      ghost var vs, all := Contents(), spine;
      Ends();
      hide Valid, Linked, Kept, TxnId.Less;
      if head == null {
        return 0;
      }
      removed := 0;
      var current := Oldest();
      assert all[..|all|] == all;
      while current != head
        invariant Valid() && 0 < |spine| <= |all| && spine == all[..|spine|] && current == all[|spine| - 1] && head == all[0]
        invariant removed == |all| - |spine|
        invariant forall k | |spine| <= k < |vs| :: vs[k].txn.Less(m)
        decreases |spine|
      {
        if !current.version.txn.Less(m) {
          break;
        }
        assert vs[|spine| - 1].txn.Less(m);
        current := DropOldest(current);
        removed := removed + 1;
      }
      NotBelow(vs[|spine| - 1].txn, m);
      Ends();
      KeptIs(vs, m, |spine|);
      VersionsPrefix(all, |spine|);
    }
  }

  lemma WithoutLast(nodes: seq<Node>, n: nat)
    requires n < |nodes|
    ensures Without(nodes[..n + 1], n) == nodes[..n]
  {
  }

  lemma NotBelow(a: TxnId, m: TxnId)
    ensures a.Less(m) || m.AtMost(a)
  {
  }

  lemma VersionsPrefix(nodes: seq<Node>, n: nat)
    requires n <= |nodes|
    ensures Versions(nodes[..n]) == Versions(nodes)[..n]
  {
  }

  lemma StillLinked(all: seq<Node>, at: nat)
    requires 0 < at < |all|
    requires forall k {:trigger all[k].next} | 0 <= k < |all| && k != at :: all[k].next == NodeAt(all, if k == at - 1 then at + 1 else k + 1)
    requires forall k {:trigger all[k].prev} | 0 <= k < |all| && k != at :: all[k].prev == NodeAt(all, if k == at + 1 then at - 1 else k - 1)
    ensures Linked(Without(all, at))
  {
    var rest := Without(all, at);
    forall i | 0 <= i < |rest| ensures rest[i].next == NodeAt(rest, i + 1) && rest[i].prev == NodeAt(rest, i - 1) {
      var k := if i < at then i else i + 1;
      assert rest[i] == all[k] && k != at;
    }
  }
}
