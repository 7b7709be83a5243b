/**
 Compaction of sealed log files (compact_wal_files) with crash points: the run may stop after any
 record written, any manifest entry appended and any file removed. The manifest is a list of
 entries that only grows; recovery looks at each entry by itself.
 */
module Compaction {
  import opened Common
  import opened Recovery

  datatype Status = ActiveFile | SealedFile | CompactedFile

  datatype ManifestEntry = ManifestEntry(path: string, status: Status)

  type Files = map<string, seq<Rec>>

  /** Names the directory scan accepts. */
  predicate ThreadName(n: string) {
    |n| >= 11 && n[..7] == "thread_" && n[|n| - 4..] == ".wal"
  }

  lemma ThreadNameIs(n: string)
    ensures ThreadName(n) <==> exists id :: n == "thread_" + id + ".wal"
  {
    if ThreadName(n) { assert n == "thread_" + n[7..|n| - 4] + ".wal"; }
    if id :| n == "thread_" + id + ".wal" { assert n[..7] == "thread_" && n[|n| - 4..] == ".wal"; }
  }

  // ---------------------------------------------------------------- what recovery reads

  ghost predicate Listed(manifest: seq<ManifestEntry>, p: string) {
    exists i :: 0 <= i < |manifest| && manifest[i].path == p
  }

  ghost predicate ListedLive(manifest: seq<ManifestEntry>, p: string) {
    exists i :: 0 <= i < |manifest| && manifest[i].path == p && manifest[i].status != CompactedFile
  }

  /** A file recovery reads: a manifest entry names it and is not COMPACTED, or the scan finds it
      and no entry names it at all. */
  ghost predicate Read(manifest: seq<ManifestEntry>, p: string) {
    ListedLive(manifest, p) || (ThreadName(p) && !Listed(manifest, p))
  }

  /** The distinct records recovery would replay. */
  ghost function Replayed(manifest: seq<ManifestEntry>, files: Files): set<Rec> {
    set p, r | p in files && r in files[p] && Read(manifest, p) :: r
  }

  ghost predicate SealedPath(manifest: seq<ManifestEntry>, p: string) {
    exists i :: 0 <= i < |manifest| && manifest[i] == ManifestEntry(p, SealedFile)
  }

  /** The sealed files, in the order of the manifest. */
  ghost function SealedOf(manifest: seq<ManifestEntry>): seq<string> {
    if manifest == [] then []
    else SealedOf(manifest[..|manifest| - 1]) + (if manifest[|manifest| - 1].status == SealedFile then [manifest[|manifest| - 1].path] else [])
  }

  lemma {:induction false} SealedHas(manifest: seq<ManifestEntry>)
    ensures forall p :: p in SealedOf(manifest) <==> SealedPath(manifest, p)
  {
    if manifest != [] {
      var n := |manifest| - 1;
      var rest := manifest[..n];
      SealedHas(rest);
      forall p ensures SealedPath(manifest, p) <==> SealedPath(rest, p) || manifest[n] == ManifestEntry(p, SealedFile) {
        if SealedPath(rest, p) {
          var i :| 0 <= i < |rest| && rest[i] == ManifestEntry(p, SealedFile);
          assert manifest[i] == rest[i];
        }
        if i :| 0 <= i < |manifest| && manifest[i] == ManifestEntry(p, SealedFile) { assert i < n ==> rest[i] == manifest[i]; }
      }
    }
  }

  lemma ListedMore(manifest: seq<ManifestEntry>, e: ManifestEntry, p: string)
    ensures Listed(manifest + [e], p) <==> Listed(manifest, p) || e.path == p
    ensures ListedLive(manifest + [e], p) <==> ListedLive(manifest, p) || (e.path == p && e.status != CompactedFile)
  {
    var more := manifest + [e];
    assert more[|manifest|] == e;
    if i :| 0 <= i < |manifest| && manifest[i].path == p { assert more[i] == manifest[i]; }
    if i :| 0 <= i < |manifest| && manifest[i].path == p && manifest[i].status != CompactedFile { assert more[i] == manifest[i]; }
  }

  /** A COMPACTED entry for a file that also has a SEALED one hides nothing. */
  lemma MarkHarmless(manifest: seq<ManifestEntry>, files: Files, p: string)
    requires SealedPath(manifest, p)
    ensures Replayed(manifest + [ManifestEntry(p, CompactedFile)], files) == Replayed(manifest, files)
    ensures forall q :: SealedPath(manifest, q) ==> SealedPath(manifest + [ManifestEntry(p, CompactedFile)], q)
    ensures forall q :: Listed(manifest + [ManifestEntry(p, CompactedFile)], q) <==> Listed(manifest, q)
    ensures forall q :: Read(manifest + [ManifestEntry(p, CompactedFile)], q) <==> Read(manifest, q)
  {
    var e := ManifestEntry(p, CompactedFile);
    SealedIsLive(manifest, p);
    forall q ensures Read(manifest + [e], q) <==> Read(manifest, q) { ListedMore(manifest, e, q); }
    forall q ensures Listed(manifest + [e], q) <==> Listed(manifest, q) { ListedMore(manifest, e, q); }
    forall q | SealedPath(manifest, q) ensures SealedPath(manifest + [e], q) {
      var i :| 0 <= i < |manifest| && manifest[i] == ManifestEntry(q, SealedFile);
      assert (manifest + [e])[i] == ManifestEntry(q, SealedFile);
    }
  }

  lemma SealedIsLive(manifest: seq<ManifestEntry>, p: string)
    requires SealedPath(manifest, p)
    ensures Listed(manifest, p) && ListedLive(manifest, p)
  {
    var i :| 0 <= i < |manifest| && manifest[i] == ManifestEntry(p, SealedFile);
  }

  /** A file no entry names and the scan does not accept can be written without effect. */
  lemma HiddenFile(manifest: seq<ManifestEntry>, files: Files, c: string, recs: seq<Rec>)
    requires !ThreadName(c) && !Listed(manifest, c)
    ensures Replayed(manifest, files[c := recs]) == Replayed(manifest, files)
  {
    var files' := files[c := recs];
    assert !Read(manifest, c) by { if ListedLive(manifest, c) { assert Listed(manifest, c); } }
    forall r ensures r in Replayed(manifest, files') <==> r in Replayed(manifest, files) {
      if p :| p in files && r in files[p] && Read(manifest, p) { assert p in files' && r in files'[p]; }
      if p :| p in files' && r in files'[p] && Read(manifest, p) { assert p in files && r in files[p]; }
    }
  }

  ghost predicate Covered(files: Files, p: string, c: string) {
    c in files && (p in files ==> forall r | r in files[p] :: r in files[c])
  }

  /** Naming a file whose records are all read anyway adds nothing. */
  lemma AnnounceHarmless(manifest: seq<ManifestEntry>, files: Files, c: string)
    requires c in files && forall r | r in files[c] :: r in Replayed(manifest, files)
    requires !ThreadName(c) && !Listed(manifest, c)
    ensures Replayed(manifest + [ManifestEntry(c, SealedFile)], files) == Replayed(manifest, files)
    ensures Read(manifest + [ManifestEntry(c, SealedFile)], c)
  {
    var e := ManifestEntry(c, SealedFile);
    forall q ensures Read(manifest + [e], q) <==> Read(manifest, q) || q == c { ListedMore(manifest, e, q); }
    forall r ensures r in Replayed(manifest + [e], files) <==> r in Replayed(manifest, files) {
      if p :| p in files && r in files[p] && Read(manifest + [e], p) { assert p == c || Read(manifest, p); }
      if p :| p in files && r in files[p] && Read(manifest, p) { assert Read(manifest + [e], p); }
    }
  }

  /** Removing a file whose records are all in another file that is read loses nothing. */
  lemma RemoveHarmless(manifest: seq<ManifestEntry>, files: Files, p: string, c: string)
    requires Covered(files, p, c) && p != c && Read(manifest, c)
    ensures Replayed(manifest, files - {p}) == Replayed(manifest, files)
  {
    var files' := files - {p};
    forall r ensures r in Replayed(manifest, files') <==> r in Replayed(manifest, files) {
      if q :| q in files && r in files[q] && Read(manifest, q) {
        if q == p { assert c in files' && r in files'[c]; } else { assert q in files' && r in files'[q]; }
      }
      if q :| q in files' && r in files'[q] && Read(manifest, q) { assert q in files && r in files[q]; }
    }
  }

  lemma SameReading(a: seq<ManifestEntry>, b: seq<ManifestEntry>, files: Files)
    requires forall q :: Read(b, q) <==> Read(a, q)
    ensures Replayed(b, files) == Replayed(a, files)
  {
  }

  // ---------------------------------------------------------------- the compaction pass

  /** Records of the listed files, in order. */
  ghost function Gathered(files: Files, paths: seq<string>): seq<Rec> {
    if paths == [] then []
    else
      var p := paths[|paths| - 1];
      Gathered(files, paths[..|paths| - 1]) + (if p in files then files[p] else [])
  }

  lemma {:induction false} GatheredHas(files: Files, paths: seq<string>, r: Rec)
    ensures r in Gathered(files, paths) <==> exists p :: p in paths && p in files && r in files[p]
  {
    if paths != [] {
      var rest, p := paths[..|paths| - 1], paths[|paths| - 1];
      assert paths == rest + [p];
      GatheredHas(files, rest, r);
      if p in files && r in files[p] { assert p in paths; }
      if q :| q in rest && q in files && r in files[q] { assert q in paths; }
    }
  }

  /** The entries that mark files as compacted. */
  ghost function Marks(paths: seq<string>): seq<ManifestEntry> {
    seq(|paths|, i requires 0 <= i < |paths| => ManifestEntry(paths[i], CompactedFile))
  }

  /** How many steps a pass in mid-life takes: the records written, a mark and a removal for each sealed
      file, and the entry for the new one. */
  ghost function PassLength(manifest: seq<ManifestEntry>, files: Files): nat {
    var sealed := SealedOf(manifest);
    if sealed == [] then 0 else |Gathered(files, sealed)| + 2 * |sealed| + 1
  }

  /** What a finished pass in mid-life makes of manifest and files: each sealed file is marked and gone,
      and one new file, named as sealed, holds their records sorted. */
  ghost predicate Compacted(manifest: seq<ManifestEntry>, files: Files, c: string, manifest': seq<ManifestEntry>, files': Files) {
    var sealed := SealedOf(manifest);
    if sealed == [] then manifest' == manifest && files' == files
    else
      && manifest' == manifest + Marks(sealed) + [ManifestEntry(c, SealedFile)]
      && c in files' && SortedByTxn(files'[c]) && multiset(files'[c]) == multiset(Gathered(files, sealed))
      && files' - {c} == files - (set p | p in sealed)
  }

  /** How many sealed files a close removes before it stops: all are marked first. */
  ghost function RemovedBy(sealed: nat, budget: nat): (n: nat)
    ensures n <= sealed
  {
    if budget < sealed then 0 else if budget - sealed < sealed then budget - sealed else sealed
  }

  /** The records left to replay when the first n sealed files are gone. */
  ghost function LeftOver(manifest: seq<ManifestEntry>, files: Files, n: nat): set<Rec>
    requires n <= |SealedOf(manifest)|
  {
    Replayed(manifest, files - (set p | p in SealedOf(manifest)[..n]))
  }

  ghost function LeftAfter(manifest: seq<ManifestEntry>, files: Files, budget: nat): set<Rec> {
    LeftOver(manifest, files, RemovedBy(|SealedOf(manifest)|, budget))
  }

  class LogDir {
    var manifest: seq<ManifestEntry>
    var files: Files
    var budget: nat   // steps until the crash

    constructor (manifest: seq<ManifestEntry>, files: Files, budget: nat)
      ensures this.manifest == manifest && this.files == files && this.budget == budget
    {
      this.manifest := manifest;
      this.files := files;
      this.budget := budget;
    }

    ghost function Records(): set<Rec>
      reads this
    {
      Replayed(manifest, files)
    }

    method SealedPaths() returns (paths: seq<string>)
      ensures paths == SealedOf(manifest)
    {
      paths := [];
      var i := 0;
      while i < |manifest|
        invariant 0 <= i <= |manifest| && paths == SealedOf(manifest[..i])
      {
        assert manifest[..i + 1][..i] == manifest[..i];
        if manifest[i].status == SealedFile { paths := paths + [manifest[i].path]; }
        i := i + 1;
      }
      assert manifest[..i] == manifest;
    }

    method Gather(paths: seq<string>) returns (all: seq<Rec>)
      ensures all == Gathered(files, paths)
    {
      all := [];
      var i := 0;
      while i < |paths|
        invariant 0 <= i <= |paths| && all == Gathered(files, paths[..i])
      {
        assert paths[..i + 1][..i] == paths[..i];
        if paths[i] in files { all := all + files[paths[i]]; }
        i := i + 1;
      }
      assert paths[..i] == paths;
    }

    /** Write the new file, record by record. */
    method WriteFile(c: string, recs: seq<Rec>) returns (done: bool)
      requires !ThreadName(c) && !Listed(manifest, c) && c !in files
      modifies this`files, this`budget
      ensures Records() == old(Records())
      ensures done <==> old(budget) >= |recs|
      ensures files == old(files)[c := if done then recs else recs[..old(budget)]]
      ensures done ==> budget == old(budget) - |recs|
    {
      hide Replayed;
      ghost var before := files;
      HiddenFile(manifest, before, c, []);
      files := files[c := []];
      var i := 0;
      while i < |recs|
        invariant 0 <= i <= |recs| && files == before[c := recs[..i]] && Records() == Replayed(manifest, before) && budget == old(budget) - i
      {
        if budget == 0 {
          return false;
        }
        budget := budget - 1;
        HiddenFile(manifest, before, c, recs[..i + 1]);
        assert recs[..i + 1] == recs[..i] + [recs[i]];
        files := files[c := files[c] + [recs[i]]];
        i := i + 1;
      }
      assert recs[..i] == recs;
      return true;
    }

    /** Append a COMPACTED entry for each sealed file. */
    method MarkFiles(paths: seq<string>) returns (done: bool)
      requires forall p | p in paths :: SealedPath(manifest, p)
      modifies this`manifest, this`budget
      ensures Records() == old(Records())
      ensures done <==> old(budget) >= |paths|
      ensures done ==> budget == old(budget) - |paths|
      ensures manifest == old(manifest) + Marks(if done then paths else paths[..old(budget)])
      ensures forall q :: Listed(manifest, q) <==> old(Listed(manifest, q))
      ensures forall q :: Read(manifest, q) <==> old(Read(manifest, q))
    {
      hide Replayed, Listed, SealedPath, Read;
      var i := 0;
      while i < |paths|
        invariant 0 <= i <= |paths| && Records() == old(Records()) && forall p | p in paths :: SealedPath(manifest, p)
        invariant budget == old(budget) - i && manifest == old(manifest) + Marks(paths[..i])
        invariant forall q :: Read(manifest, q) <==> old(Read(manifest, q))
        invariant forall q :: Listed(manifest, q) <==> old(Listed(manifest, q))
      {
        if budget == 0 {
          return false;
        }
        budget := budget - 1;
        MarkHarmless(manifest, files, paths[i]);
        manifest := manifest + [ManifestEntry(paths[i], CompactedFile)];
        assert Marks(paths[..i + 1]) == Marks(paths[..i]) + [ManifestEntry(paths[i], CompactedFile)];
        i := i + 1;
      }
      assert paths[..i] == paths;
      return true;
    }

    /** Remove the sealed files. */
    method RemoveFiles(paths: seq<string>, c: string) returns (done: bool)
      requires c !in paths && Read(manifest, c) && forall p | p in paths :: Covered(files, p, c)
      modifies this`files, this`budget
      ensures Records() == old(Records())
      ensures done <==> old(budget) >= |paths|
      ensures done ==> files == old(files) - (set p | p in paths)
      ensures !done ==> files == old(files) - (set p | p in paths[..old(budget)])
    {
      hide Replayed, Read;
      ghost var before := files;
      var i := 0;
      while i < |paths|
        invariant 0 <= i <= |paths| && Records() == old(Records()) && forall p | p in paths :: Covered(files, p, c)
        invariant files == before - (set p | p in paths[..i]) && budget == old(budget) - i
      {
        if budget == 0 {
          return false;
        }
        budget := budget - 1;
        RemoveHarmless(manifest, files, paths[i], c);
        assert paths[..i + 1] == paths[..i] + [paths[i]];
        files := files - {paths[i]};
        i := i + 1;
      }
      assert paths[..i] == paths;
      return true;
    }

    /** compact_wal_files in mid-life: wherever it stops, recovery would replay the same records as
        before it began; when it ends, they are all in the new file. */
    method Compact(c: string) returns (done: bool)
      requires !ThreadName(c) && !Listed(manifest, c) && c !in files
      modifies this
      ensures Records() == old(Records())
      ensures done ==> Compacted(old(manifest), old(files), c, manifest, files)
      ensures done <==> old(budget) >= PassLength(old(manifest), old(files))
      ensures done ==> forall p | old(SealedPath(manifest, p)) :: p !in files
      ensures done ==> forall p | p in old(files) && !old(SealedPath(manifest, p)) :: p in files && files[p] == old(files)[p]
    {
      hide Replayed, Gathered, SortedByTxn, Marks, Compacted;
      var paths := SealedPaths();
      SealedHas(manifest);
      if paths == [] {
        forall p ensures !SealedPath(manifest, p) { assert p !in paths; }
        NoneSealed(manifest, files, c);
        return true;
      }
      var all := Gather(paths);
      var sorted := SortRecs(all);
      ghost var first, before := manifest, files;
      NotItself(manifest, paths, c);
      assert |multiset(sorted)| == |multiset(all)|;
      done := WriteFile(c, sorted);
      if !done {
        return;
      }
      SameMembers(sorted, all);
      AllCovered(manifest, before, paths, c, sorted);
      done := MarkFiles(paths);
      if !done {
        return;
      }
      if budget == 0 {
        return false;
      }
      budget := budget - 1;
      AnnounceHarmless(manifest, files, c);
      manifest := manifest + [ManifestEntry(c, SealedFile)];
      done := RemoveFiles(paths, c);
      if done { PassDone(first, before, c, sorted, manifest, files); }
    }

    /** compact_wal_files on close, after a checkpoint: mark, then remove, writing no replacement.
        Stopped in between, exactly the records of the files not yet removed are left to replay. */
    method DropSealed() returns (done: bool)
      modifies this
      ensures Records() == LeftAfter(old(manifest), old(files), old(budget))
      ensures done <==> old(budget) >= 2 * |SealedOf(old(manifest))|
      ensures done ==> manifest == old(manifest) + Marks(SealedOf(old(manifest))) && files == old(files) - (set p | p in SealedOf(old(manifest)))
      ensures done ==> forall p | old(SealedPath(manifest, p)) :: p !in files
    {
      hide Replayed, Listed, SealedPath;
      var paths := SealedPaths();
      SealedHas(manifest);
      ghost var before, first := files, manifest;
      assert paths[..0] == [] && before - (set p | p in paths[..0]) == before;
      done := MarkFiles(paths);
      if !done {
        SameReading(first, manifest, before);
        return;
      }
      ghost var marked, n := manifest, budget;
      var i := 0;
      while i < |paths|
        invariant 0 <= i <= |paths| && files == before - (set p | p in paths[..i]) && manifest == marked && budget == n - i
      {
        if budget == 0 {
          SameReading(first, manifest, files);
          return false;
        }
        budget := budget - 1;
        assert paths[..i + 1] == paths[..i] + [paths[i]];
        files := files - {paths[i]};
        i := i + 1;
      }
      assert paths[..i] == paths;
      SameReading(first, manifest, files);
      return true;
    }
  }

  lemma NoneSealed(manifest: seq<ManifestEntry>, files: Files, c: string)
    requires SealedOf(manifest) == []
    ensures Compacted(manifest, files, c, manifest, files)
  {
  }

  lemma PassDone(manifest: seq<ManifestEntry>, files: Files, c: string, sorted: seq<Rec>, manifest': seq<ManifestEntry>, files': Files)
    requires SealedOf(manifest) != [] && c !in SealedOf(manifest) && c !in files
    requires SortedByTxn(sorted) && multiset(sorted) == multiset(Gathered(files, SealedOf(manifest)))
    requires manifest' == manifest + Marks(SealedOf(manifest)) + [ManifestEntry(c, SealedFile)]
    requires files' == files[c := sorted] - (set p | p in SealedOf(manifest))
    ensures Compacted(manifest, files, c, manifest', files')
  {
    hide SortedByTxn, Gathered, Marks, SealedOf;
  }

  lemma NotItself(manifest: seq<ManifestEntry>, paths: seq<string>, c: string)
    requires !Listed(manifest, c) && forall p | p in paths :: SealedPath(manifest, p)
    ensures c !in paths
  {
    if c in paths { SealedIsLive(manifest, c); }
  }

  lemma AllCovered(manifest: seq<ManifestEntry>, files: Files, paths: seq<string>, c: string, sorted: seq<Rec>)
    requires c !in paths && (forall p | p in paths :: SealedPath(manifest, p))
    requires forall r :: r in sorted <==> r in Gathered(files, paths)
    ensures forall p | p in paths :: Covered(files[c := sorted], p, c)
    ensures forall r | r in sorted :: r in Replayed(manifest, files)
  {
    forall r ensures r in sorted <==> exists p :: p in paths && p in files && r in files[p] { GatheredHas(files, paths, r); }
    forall p | p in paths ensures Read(manifest, p) { SealedIsLive(manifest, p); }
  }
}
