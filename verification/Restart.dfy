/**
 What a restart restores from a log directory (the selection of files in wal_manager_recover), and
 so what a crash inside a compaction can and cannot change.
 */
module Restart {
  import opened Common
  import opened Recovery
  import opened Compaction

  ghost function RecSet(recs: seq<Rec>): set<Rec> {
    set r | r in recs
  }

  ghost predicate OnePerId(recs: set<Rec>) {
    forall a, b | a in recs && b in recs && a.txn == b.txn :: a == b
  }

  // ---------------------------------------------------------------- the store a set of records gives

  lemma {:induction false} SortedExists(recs: set<Rec>)
    ensures exists s :: SortedByTxn(s) && RecSet(s) == recs
  {
    if recs == {} {
      assert RecSet([]) == {};
    } else {
      var r :| r in recs;
      SortedExists(recs - {r});
      var s :| SortedByTxn(s) && RecSet(s) == recs - {r};
      Inserted(s, r);
    }
  }

  lemma {:induction false} Inserted(s: seq<Rec>, r: Rec)
    requires SortedByTxn(s)
    ensures exists t :: SortedByTxn(t) && RecSet(t) == RecSet(s) + {r}
    decreases s
  {
    if s == [] || s[|s| - 1].txn.AtMost(r.txn) {
      SortedPush(s, r);
    } else {
      var n := |s| - 1;
      assert s == s[..n] + [s[n]];
      Inserted(s[..n], r);
      var t: seq<Rec> :| SortedByTxn(t) && RecSet(t) == RecSet(s[..n]) + {r};
      forall x | x in t ensures x.txn.AtMost(s[n].txn) { assert x in RecSet(t); }
      SortedPush(t, s[n]);
      assert RecSet(t + [s[n]]) == RecSet(s) + {r} by { PushSet(t, s[n]); PushSet(s[..n], s[n]); }
    }
  }

  lemma SortedPush(s: seq<Rec>, r: Rec)
    requires SortedByTxn(s) && (s != [] ==> s[|s| - 1].txn.AtMost(r.txn))
    ensures SortedByTxn(s + [r]) && RecSet(s + [r]) == RecSet(s) + {r}
  {
    PushSet(s, r);
    forall i, j | 0 <= i < j < |s + [r]| ensures (s + [r])[i].txn.AtMost((s + [r])[j].txn) {
      if j == |s| && i < |s| - 1 { assert s[i].txn.AtMost(s[|s| - 1].txn); }
    }
  }

  lemma PushSet(s: seq<Rec>, r: Rec)
    ensures RecSet(s + [r]) == RecSet(s) + {r}
  {
  }

  /** The store left by replaying a set of records in order of their ids. */
  ghost function Restored(base: Store, recs: set<Rec>): Store {
    SortedExists(recs);
    var s :| SortedByTxn(s) && RecSet(s) == recs;
    Replay(base, s)
  }

  /** With one record per id it does not matter in what order, how often, or from which file. */
  lemma RestoredBy(base: Store, s: seq<Rec>)
    requires SortedByTxn(s) && OnePerId(RecSet(s))
    ensures Restored(base, RecSet(s)) == Replay(base, s)
  {
    SortedExists(RecSet(s));
    var t :| SortedByTxn(t) && RecSet(t) == RecSet(s) && Restored(base, RecSet(s)) == Replay(base, t);
    SameSet(base, s, t);
  }

  lemma SameSet(base: Store, s: seq<Rec>, t: seq<Rec>)
    requires SortedByTxn(s) && SortedByTxn(t) && OnePerId(RecSet(s)) && RecSet(s) == RecSet(t)
    ensures Replay(base, s) == Replay(base, t)
  {
    forall r ensures r in s <==> r in t {
      assert r in s <==> r in RecSet(s);
      assert r in t <==> r in RecSet(t);
    }
    assert OnePerTxn(s) by {
      forall a, b | a in s && b in s && a.txn == b.txn ensures a == b { assert a in RecSet(s) && b in RecSet(s); }
    }
    SameRecordsSameStore(base, s, t);
  }

  // ---------------------------------------------------------------- reading the directory

  /** The scan of the directory for thread logs, in whatever order it lists them. */
  method ScanDir(dir: LogDir) returns (names: seq<string>)
    ensures forall p :: p in names <==> p in dir.files && ThreadName(p)
  {
    names := [];
    var rest := dir.files.Keys;
    while rest != {}
      invariant rest <= dir.files.Keys && forall p :: p in names <==> p in dir.files && p !in rest && ThreadName(p)
      decreases |rest|
    {
      var p :| p in rest;
      if ThreadName(p) { names := names + [p]; }
      rest := rest - {p};
    }
  }

  method InManifest(dir: LogDir, p: string) returns (found: bool)
    ensures found <==> Listed(dir.manifest, p)
  {
    var j := 0;
    while j < |dir.manifest|
      invariant 0 <= j <= |dir.manifest| && forall i | 0 <= i < j :: dir.manifest[i].path != p
    {
      if dir.manifest[j].path == p {
        return true;
      }
      j := j + 1;
    }
    return false;
  }

  /** A manifest entry that recovery follows. */
  ghost predicate FromManifest(dir: LogDir, n: nat, r: Rec)
    reads dir
    requires n <= |dir.manifest|
  {
    exists i :: 0 <= i < n && dir.manifest[i].status != CompactedFile && dir.manifest[i].path in dir.files && r in dir.files[dir.manifest[i].path]
  }

  ghost predicate FromScan(dir: LogDir, names: seq<string>, r: Rec)
    reads dir
  {
    exists p :: p in names && !Listed(dir.manifest, p) && p in dir.files && r in dir.files[p]
  }

  /** Which files wal_manager_recover reads: entry by entry of the manifest, a file as often as it is
      listed, then the files of the scan that no entry names. */
  method ReadDir(dir: LogDir) returns (all: seq<Rec>)
    ensures RecSet(all) == dir.Records()
  {
    all := [];
    var i := 0;
    while i < |dir.manifest|
      invariant 0 <= i <= |dir.manifest| && forall r :: r in all <==> FromManifest(dir, i, r)
    {
      var e := dir.manifest[i];
      ghost var before := all;
      if e.status != CompactedFile && e.path in dir.files { all := all + dir.files[e.path]; }
      forall r ensures r in all <==> FromManifest(dir, i + 1, r) { ManifestStep(dir, i, r); }
      i := i + 1;
    }
    ghost var listed := all;
    var names := ScanDir(dir);
    i := 0;
    while i < |names|
      invariant 0 <= i <= |names| && forall r :: r in all <==> r in listed || FromScan(dir, names[..i], r)
    {
      var known := InManifest(dir, names[i]);
      ghost var before := all;
      if !known { all := all + dir.files[names[i]]; }
      forall r ensures r in all <==> r in listed || FromScan(dir, names[..i + 1], r) { ScanStep(dir, names, i, r); }
      i := i + 1;
    }
    assert names[..i] == names;
    forall r ensures r in all <==> r in dir.Records() { ReadBoth(dir, names, r); }
  }

  lemma ManifestStep(dir: LogDir, i: nat, r: Rec)
    requires i < |dir.manifest|
    ensures FromManifest(dir, i + 1, r) <==>
              FromManifest(dir, i, r) || (dir.manifest[i].status != CompactedFile && dir.manifest[i].path in dir.files && r in dir.files[dir.manifest[i].path])
  {
  }

  lemma ScanStep(dir: LogDir, names: seq<string>, i: nat, r: Rec)
    requires i < |names|
    ensures FromScan(dir, names[..i + 1], r) <==>
              FromScan(dir, names[..i], r) || (!Listed(dir.manifest, names[i]) && names[i] in dir.files && r in dir.files[names[i]])
  {
    assert names[..i + 1] == names[..i] + [names[i]];
  }

  lemma ReadBoth(dir: LogDir, names: seq<string>, r: Rec)
    requires forall p :: p in names <==> p in dir.files && ThreadName(p)
    ensures r in dir.Records() <==> FromManifest(dir, |dir.manifest|, r) || FromScan(dir, names, r)
  {
    if FromManifest(dir, |dir.manifest|, r) {
      var i :| 0 <= i < |dir.manifest| && dir.manifest[i].status != CompactedFile && dir.manifest[i].path in dir.files && r in dir.files[dir.manifest[i].path];
      assert Read(dir.manifest, dir.manifest[i].path);
    }
    if r in dir.Records() {
      var p :| p in dir.files && r in dir.files[p] && Read(dir.manifest, p);
      if ListedLive(dir.manifest, p) {
        var i :| 0 <= i < |dir.manifest| && dir.manifest[i].path == p && dir.manifest[i].status != CompactedFile;
      }
    }
  }

  /** wal_manager_recover on a directory. */
  method RecoverDir(dir: LogDir, base: Store) returns (store: Store)
    requires OnePerId(dir.Records())
    ensures store == Restored(base, dir.Records())
  {
    hide Replayed, Restored, OnePerId;
    var all := ReadDir(dir);
    var newest: TxnId;
    store, newest := Recover([all], base);
    ghost var sorted :| SortedByTxn(sorted) && multiset(sorted) == multiset(AllRecs([all])) && store == Replay(base, sorted);
    OneFile(all);
    SameMembers(sorted, all);
    assert RecSet(sorted) == RecSet(all);
    RestoredBy(base, sorted);
  }

  lemma OneFile(all: seq<Rec>)
    ensures AllRecs([all]) == all
  {
    var files := [all];
    assert files[..0] == [];
    assert AllRecs(files) == AllRecs(files[..0]) + all;
  }

  // ---------------------------------------------------------------- a crash in mid-life compaction

  /** Compaction stopped anywhere, or not at all, does not change what a restart restores. */
  method CrashKeepsStore(dir: LogDir, c: string, base: Store) returns (before: Store, after: Store)
    requires !ThreadName(c) && !Listed(dir.manifest, c) && c !in dir.files && OnePerId(dir.Records())
    modifies dir
    ensures before == Restored(base, old(dir.Records())) && after == before
  {
    hide Replayed, Restored, OnePerId;
    before := RecoverDir(dir, base);
    var done := dir.Compact(c);
    after := RecoverDir(dir, base);
  }

  // ---------------------------------------------------------------- a crash on close

  /** The record with the greatest id that touches k leaves e there. */
  ghost predicate TopEffect(recs: set<Rec>, k: Key, e: Option<Bytes>) {
    exists r :: r in recs && Effect(r.ops, k) == Some(e) && forall s | s in recs && Touches(s, k) :: s.txn.AtMost(r.txn)
  }

  /** Every key that the remaining records touch gets from them what all records gave it. */
  ghost predicate KeepsTops(all: set<Rec>, left: set<Rec>) {
    forall k, e :: TopEffect(left, k, e) ==> TopEffect(all, k, e)
  }

  lemma TopIs(s: seq<Rec>, k: Key, e: Option<Bytes>)
    requires SortedByTxn(s) && OnePerId(RecSet(s))
    ensures TopEffect(RecSet(s), k, e) <==> Last(s, k).Some? && Effect(Last(s, k).value.ops, k) == Some(e)
  {
    LastIs(s, k);
    LastWins(s, k);
    if Last(s, k).Some? {
      var w := Last(s, k).value;
      assert w in RecSet(s) && forall x | x in RecSet(s) && Touches(x, k) :: x.txn.AtMost(w.txn);
      if TopEffect(RecSet(s), k, e) {
        var r :| r in RecSet(s) && Effect(r.ops, k) == Some(e) && forall x | x in RecSet(s) && Touches(x, k) :: x.txn.AtMost(r.txn);
        assert Touches(r, k) && Touches(w, k);
        assert r.txn == w.txn;
      }
    }
  }

  lemma RestoredAt(base: Store, recs: set<Rec>, k: Key)
    requires OnePerId(recs)
    ensures forall e | TopEffect(recs, k, e) :: Lookup(Restored(base, recs), k) == e
    ensures (forall e :: !TopEffect(recs, k, e)) ==> Lookup(Restored(base, recs), k) == Lookup(base, k)
  {
    SortedExists(recs);
    var s :| SortedByTxn(s) && RecSet(s) == recs && Restored(base, recs) == Replay(base, s);
    ReplayEffect(base, s, k);
    LastIs(s, k);
    forall e ensures TopEffect(recs, k, e) <==> Last(s, k).Some? && Effect(Last(s, k).value.ops, k) == Some(e) { TopIs(s, k, e); }
    if Last(s, k).Some? { assert TopEffect(recs, k, Effect(Last(s, k).value.ops, k).value); }
  }

  lemma TopAbove(all: set<Rec>, left: set<Rec>, k: Key, e: Option<Bytes>)
    requires left <= all && OnePerId(all) && TopEffect(left, k, e)
    ensures exists f :: TopEffect(all, k, f)
  {
    SortedExists(all);
    var s :| SortedByTxn(s) && RecSet(s) == all;
    LastIs(s, k);
    var r :| r in left && Effect(r.ops, k) == Some(e);
    assert r in RecSet(s) && Touches(r, k);
    TopIs(s, k, Effect(Last(s, k).value.ops, k).value);
  }

  /** Replaying what a crash on close left over the checkpoint of the whole log is harmless exactly
      when every key it touches gets from it what the whole log gave that key. */
  lemma CloseKeepsIff(base: Store, all: set<Rec>, left: set<Rec>)
    requires left <= all && OnePerId(all)
    ensures Restored(Restored(base, all), left) == Restored(base, all) <==> KeepsTops(all, left)
  {
    hide TopEffect, Restored;
    var c := Restored(base, all);
    var d := Restored(c, left);
    forall k ensures RestoredAtBoth(c, d, all, left, k) { CloseAt(base, all, left, k); }
    if KeepsTops(all, left) {
      forall k ensures Lookup(d, k) == Lookup(c, k) { assert RestoredAtBoth(c, d, all, left, k); }
      SameStore(d, c);
    } else {
      var k, e :| TopEffect(left, k, e) && !TopEffect(all, k, e);
      assert RestoredAtBoth(c, d, all, left, k);
    }
  }

  ghost predicate RestoredAtBoth(c: Store, d: Store, all: set<Rec>, left: set<Rec>, k: Key) {
    Lookup(d, k) == Lookup(c, k) <==> forall e :: TopEffect(left, k, e) ==> TopEffect(all, k, e)
  }

  lemma CloseAt(base: Store, all: set<Rec>, left: set<Rec>, k: Key)
    requires left <= all && OnePerId(all)
    ensures RestoredAtBoth(Restored(base, all), Restored(Restored(base, all), left), all, left, k)
  {
    RestoredAt(base, all, k);
    RestoredAt(Restored(base, all), left, k);
    hide TopEffect, Restored;
    if e :| TopEffect(left, k, e) {
      TopAbove(all, left, k, e);
    }
  }

  lemma LeftWithin(manifest: seq<ManifestEntry>, files: Files, n: nat)
    requires n <= |SealedOf(manifest)|
    ensures LeftOver(manifest, files, n) <= Replayed(manifest, files)
  {
  }

  /** Close on a directory whose records are all in the checkpoint, stop anywhere, restart. */
  method CloseAndRestart(dir: LogDir, base: Store) returns (checkpoint: Store, after: Store)
    requires OnePerId(dir.Records())
    modifies dir
    ensures checkpoint == Restored(base, old(dir.Records()))
    ensures after == Restored(checkpoint, LeftAfter(old(dir.manifest), old(dir.files), old(dir.budget)))
    ensures after == checkpoint <==> KeepsTops(old(dir.Records()), LeftAfter(old(dir.manifest), old(dir.files), old(dir.budget)))
  {
    hide Replayed, Restored, KeepsTops, SealedOf, RemovedBy;
    checkpoint := RecoverDir(dir, base);
    ghost var all, left := dir.Records(), LeftAfter(dir.manifest, dir.files, dir.budget);
    LeftWithin(dir.manifest, dir.files, RemovedBy(|SealedOf(dir.manifest)|, dir.budget));
    var done := dir.DropSealed();
    after := RecoverDir(dir, checkpoint);
    CloseKeepsIff(base, all, left);
  }

  /** No prefix of the sealed files, gone, leaves a key with an older effect. */
  ghost predicate SafeToClose(manifest: seq<ManifestEntry>, files: Files) {
    forall n | 0 <= n <= |SealedOf(manifest)| :: KeepsTops(Replayed(manifest, files), LeftOver(manifest, files, n))
  }

  /** Every crash point of a close is harmless exactly when the directory is safe to close. */
  lemma SafeToCloseIff(manifest: seq<ManifestEntry>, files: Files, base: Store)
    requires OnePerId(Replayed(manifest, files))
    ensures var checkpoint := Restored(base, Replayed(manifest, files));
            (forall budget: nat :: Restored(checkpoint, LeftAfter(manifest, files, budget)) == checkpoint) <==> SafeToClose(manifest, files)
  {
    hide Replayed, Restored, KeepsTops, SealedOf;
    var all, sealed := Replayed(manifest, files), |SealedOf(manifest)|;
    var checkpoint := Restored(base, all);
    forall n | 0 <= n <= sealed
      ensures Restored(checkpoint, LeftOver(manifest, files, n)) == checkpoint <==> KeepsTops(all, LeftOver(manifest, files, n))
    {
      LeftWithin(manifest, files, n);
      CloseKeepsIff(base, all, LeftOver(manifest, files, n));
    }
    if forall budget: nat :: Restored(checkpoint, LeftAfter(manifest, files, budget)) == checkpoint {
      forall n | 0 <= n <= sealed ensures KeepsTops(all, LeftOver(manifest, files, n)) {
        assert RemovedBy(sealed, sealed + n) == n;
        assert Restored(checkpoint, LeftAfter(manifest, files, sealed + n)) == checkpoint;
      }
    }
  }

  /** What is removed earlier is no newer than what is removed later or stays. */
  ghost predicate OldestFirst(manifest: seq<ManifestEntry>, files: Files) {
    var sealed := SealedOf(manifest);
    forall i, p, r, s | 0 <= i < |sealed| && sealed[i] in files && r in files[sealed[i]]
                        && p in files && p !in sealed[..i + 1] && Read(manifest, p) && s in files[p] :: r.txn.AtMost(s.txn)
  }

  /** Files sealed in the order of their ids, as one thread seals them, are always safe to close. */
  lemma OldestFirstSafe(manifest: seq<ManifestEntry>, files: Files)
    requires OldestFirst(manifest, files)
    ensures SafeToClose(manifest, files)
  {
    var sealed := SealedOf(manifest);
    hide SealedOf, Read;
    forall n, k, e | 0 <= n <= |sealed| && TopEffect(LeftOver(manifest, files, n), k, e) ensures TopEffect(Replayed(manifest, files), k, e) {
      var all, left := Replayed(manifest, files), LeftOver(manifest, files, n);
      var r :| r in left && Effect(r.ops, k) == Some(e) && forall s | s in left && Touches(s, k) :: s.txn.AtMost(r.txn);
      forall s | s in all && Touches(s, k) ensures s.txn.AtMost(r.txn) {
        if s !in left { OlderGone(manifest, files, n, s, r); }
      }
    }
  }

  lemma StillThere(manifest: seq<ManifestEntry>, files: Files, gone: set<string>, p: string, r: Rec)
    requires p in files && p !in gone && Read(manifest, p) && r in files[p]
    ensures r in Replayed(manifest, files - gone)
  {
    assert p in files - gone && (files - gone)[p] == files[p];
  }

  lemma OlderGone(manifest: seq<ManifestEntry>, files: Files, n: nat, s: Rec, r: Rec)
    requires OldestFirst(manifest, files) && n <= |SealedOf(manifest)|
    requires s in Replayed(manifest, files) && s !in LeftOver(manifest, files, n) && r in LeftOver(manifest, files, n)
    ensures s.txn.AtMost(r.txn)
  {
    var sealed := SealedOf(manifest);
    hide SealedOf, Read;
    var q :| q in files && s in files[q] && Read(manifest, q);
    var p :| p in files && p !in sealed[..n] && r in files[p] && Read(manifest, p);
    if q !in sealed[..n] { StillThere(manifest, files, (set x | x in sealed[..n]), q, s); }
    var i :| 0 <= i < n && sealed[i] == q;
    assert sealed[..i + 1] == sealed[..n][..i + 1];
    assert p !in sealed[..i + 1];
  }

  const KEY: Key := [[1]]

  function OldRec(): Rec { Rec(TxnId(0, 0, 1), [Set(KEY, Some([1]))]) }
  function NewRec(): Rec { Rec(TxnId(0, 0, 2), [Set(KEY, Some([2]))]) }

  lemma ExampleEffects()
    ensures Effect(OldRec().ops, KEY) == Some(Some([1])) && Effect(NewRec().ops, KEY) == Some(Some([2]))
  {
    assert OldRec().ops[1..] == [] && NewRec().ops[1..] == [];
    assert Effect(OldRec().ops[1..], KEY) == None && Effect(NewRec().ops[1..], KEY) == None;
  }

  lemma ExampleSealed(a: string, b: string, manifest: seq<ManifestEntry>)
    requires manifest == [ManifestEntry(a, SealedFile), ManifestEntry(b, SealedFile)]
    ensures SealedOf(manifest) == [a, b] && forall p :: (p == a || p == b) ==> Read(manifest, p)
  {
    assert manifest[..1] == [manifest[0]] && manifest[..1][..0] == [];
    assert SealedOf(manifest[..1]) == [] + [a];
    assert manifest[0] == ManifestEntry(a, SealedFile) && manifest[1] == ManifestEntry(b, SealedFile);
  }

  lemma ExampleRecords(a: string, b: string, manifest: seq<ManifestEntry>, files: Files)
    requires a != b && manifest == [ManifestEntry(a, SealedFile), ManifestEntry(b, SealedFile)]
    requires files == map[a := [NewRec()], b := [OldRec()]]
    ensures Replayed(manifest, files) == {OldRec(), NewRec()} && LeftAfter(manifest, files, 3) == {OldRec()}
  {
    ExampleSealed(a, b, manifest);
    hide Read, SealedOf, OldRec, NewRec;
    assert RemovedBy(2, 3) == 1 && [a, b][..1] == [a];
    var left := files - (set p | p in [a, b][..1]);
    assert left == map[b := [OldRec()]];
    assert NewRec() in files[a] && OldRec() in files[b] && OldRec() in left[b];
  }

  lemma ExampleTops()
    ensures TopEffect({OldRec(), NewRec()}, KEY, Some([2])) && TopEffect({OldRec()}, KEY, Some([1])) && OnePerId({OldRec(), NewRec()})
  {
    ExampleEffects();
    hide Effect;
    assert NewRec() in {OldRec(), NewRec()} && OldRec() in {OldRec()};
    assert OldRec().txn.AtMost(NewRec().txn) && NewRec().txn.AtMost(NewRec().txn) && OldRec().txn.AtMost(OldRec().txn);
  }

  /** Two sealed files, the newer record of a key in the one removed first: a crash after that
      removal, and the restart brings the older value back over the checkpoint. */
  method CloseExample(a: string, b: string) returns (checkpoint: Store, after: Store)
    requires a != b
    ensures Lookup(checkpoint, KEY) == Some([2]) && Lookup(after, KEY) == Some([1])
  {
    ExampleTops();
    hide TopEffect, LeftAfter, Restored, OldRec, NewRec, OnePerId, KeepsTops;
    var none: Store := map[];
    var dir := new LogDir([ManifestEntry(a, SealedFile), ManifestEntry(b, SealedFile)], map[a := [NewRec()], b := [OldRec()]], 3);
    ExampleRecords(a, b, dir.manifest, dir.files);
    hide Replayed;
    checkpoint, after := CloseAndRestart(dir, none);
    RestoredAt(none, {OldRec(), NewRec()}, KEY);
    assert OnePerId({OldRec()}) by { OneIsOne(OldRec()); }
    RestoredAt(checkpoint, {OldRec()}, KEY);
  }

  lemma OneIsOne(r: Rec)
    ensures OnePerId({r})
  {
  }
}
