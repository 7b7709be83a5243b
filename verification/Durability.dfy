/**
 The log from end to end: operations accepted by a thread log, written to its files, read back
 after a crash that loses the buffer, decoded and replayed.
 */
module Durability {
  import opened Common
  import opened Keys
  import opened Codec
  import opened Recovery
  import ThreadWal

  /** What recovery makes of one frame; a payload that does not decode changes nothing. */
  function RecOf(f: Frame, cs: nat): Rec
    requires cs > 0
  {
    Rec(f.txn, match EntryOf(f) case None => [] case Some(e) => [OpOf(e, cs)])
  }

  function RecsOf(fs: seq<Frame>, cs: nat): (rs: seq<Rec>)
    requires cs > 0
    ensures |rs| == |fs| && forall i | 0 <= i < |fs| :: rs[i] == RecOf(fs[i], cs)
  {
    seq(|fs|, i requires 0 <= i < |fs| => RecOf(fs[i], cs))
  }

  lemma RecsAppend(a: seq<Frame>, b: seq<Frame>, cs: nat)
    requires cs > 0
    ensures RecsOf(a + b, cs) == RecsOf(a, cs) + RecsOf(b, cs)
  {
  }

  lemma {:induction false} FilesAppend(files: seq<seq<Frame>>, recs: seq<seq<Rec>>, cs: nat)
    requires cs > 0 && |recs| == |files| && forall i | 0 <= i < |files| :: recs[i] == RecsOf(files[i], cs)
    ensures AllRecs(recs) == RecsOf(ThreadWal.Joined(files), cs)
  {
    if files != [] {
      var n := |files| - 1;
      FilesAppend(files[..n], recs[..n], cs);
      RecsAppend(ThreadWal.Joined(files[..n]), files[n], cs);
    }
  }

  /** The records of logged operations are those operations, on flattened keys. */
  lemma RecsOfOps(ls: seq<Logged>, cs: nat, i: nat)
    requires cs > 0 && LogFits(ls) && i < |ls|
    ensures RecsOf(FramesOf(ls), cs)[i] == Rec(ls[i].txn, [OpOf(AsRead(ls[i].op), cs)])
  {
    hide Payload, Decoded;
    PayloadRoundTrip(ls[i].op);
  }

  ghost predicate AllWritable(fs: seq<Frame>) {
    forall i | 0 <= i < |fs| :: Writable(fs[i])
  }

  method ReadRecs(file: Bytes, crc: Bytes -> U32, cs: nat, ghost fs: seq<Frame>, ghost all: Bytes) returns (recs: seq<Rec>)
    requires cs > 0 && all == LogBytes(fs, crc) && AllWritable(fs) && file <= all
    ensures recs == RecsOf(fs[..Whole(fs, |file|)], cs)
  {
    assert all[..|file|] == file;
    ReadCut(fs, crc, |file|);
    var frames := ReadWalFile(file, crc);
    recs := RecsOf(frames, cs);
  }

  ghost predicate Ascending(fs: seq<Frame>) {
    forall i, j | 0 <= i < j < |fs| :: fs[i].txn.Less(fs[j].txn)
  }

  /** What of the current file survives a crash that leaves its first n bytes. */
  ghost function Surviving(w: ThreadWal.Wal, n: nat): seq<Frame>
    reads w
  {
    w.inFile[..Whole(w.inFile, n)]
  }

  /** A crash loses the buffer and perhaps the end of the current file that was not yet synced, cut
      at any byte: recovery leaves the store as if the operations still wholly there had been
      applied one after the other. In immediate mode that is every operation the log has accepted. */
  method CrashAndRecover(w: ThreadWal.Wal, n: nat, cs: nat, base: Store) returns (store: Store)
    requires cs > 0 && w.Core() && AllWritable(w.Accepted()) && Ascending(w.Accepted()) && w.synced <= n <= |w.file|
    ensures store == Replay(base, RecsOf(ThreadWal.Joined(w.inSealed) + Surviving(w, n), cs))
    ensures w.Valid() && w.mode == ThreadWal.Immediate ==> store == Replay(base, RecsOf(w.Accepted(), cs))
  {
    hide LogBytes, ThreadWal.Joined, Replay, Whole;
    ghost var files := w.inSealed + [Surviving(w, n)];
    ThreadWal.JoinedPush(w.inSealed, Surviving(w, n));
    ghost var fs := ThreadWal.Joined(files);
    InFiles(w, n, files);
    var recs: seq<seq<Rec>> := [];
    var i := 0;
    while i < |w.sealed|
      invariant 0 <= i <= |w.sealed| && |recs| == i && forall j | 0 <= j < i :: recs[j] == RecsOf(files[j], cs)
    {
      var r := ReadRecs(w.sealed[i], w.crc, cs, files[i], w.sealed[i]);
      ThreadWal.WholeAll(files[i], w.crc);
      assert files[i][..|files[i]|] == files[i];
      recs := recs + [r];
      i := i + 1;
    }
    var r := ReadRecs(w.file[..n], w.crc, cs, w.inFile, w.file);
    recs := recs + [r];
    FilesAppend(files, recs, cs);
    var newest: TxnId;
    store, newest := Recover(recs, base);
    ghost var sorted :| SortedByTxn(sorted) && multiset(sorted) == multiset(AllRecs(recs)) && store == Replay(base, sorted);
    SortedAlready(fs, cs);
    SameMembers(sorted, RecsOf(fs, cs));
    SameRecordsSameStore(base, RecsOf(fs, cs), sorted);
    if w.Valid() && w.mode == ThreadWal.Immediate { AllSurvive(w, n); }
  }

  lemma AllSurvive(w: ThreadWal.Wal, n: nat)
    requires w.Valid() && w.mode == ThreadWal.Immediate && w.synced <= n <= |w.file|
    ensures ThreadWal.Joined(w.inSealed) + Surviving(w, n) == w.Accepted()
  {
    hide LogBytes, ThreadWal.Joined, Whole;
    ThreadWal.WholeAll(w.inFile, w.crc);
    assert w.inFile[..|w.inFile|] == w.inFile && w.inBuffer == [];
  }

  lemma SortedAlready(fs: seq<Frame>, cs: nat)
    requires cs > 0 && Ascending(fs)
    ensures SortedByTxn(RecsOf(fs, cs)) && OnePerTxn(RecsOf(fs, cs))
  {
    var rs := RecsOf(fs, cs);
    forall a, b | a in rs && b in rs && a.txn == b.txn ensures a == b {
      var i :| 0 <= i < |rs| && rs[i] == a;
      var j :| 0 <= j < |rs| && rs[j] == b;
      assert i == j;
    }
  }

  lemma InFiles(w: ThreadWal.Wal, n: nat, files: seq<seq<Frame>>)
    requires AllWritable(w.Accepted()) && Ascending(w.Accepted()) && files == w.inSealed + [Surviving(w, n)]
    ensures Ascending(ThreadWal.Joined(files)) && AllWritable(w.inFile)
    ensures forall i | 0 <= i < |files| :: AllWritable(files[i])
  {
    ThreadWal.JoinedPush(w.inSealed, Surviving(w, n));
    hide ThreadWal.Joined, Whole, Writable;
    var fs, head, all := ThreadWal.Joined(files), ThreadWal.Joined(w.inSealed), w.Accepted();
    assert forall i | 0 <= i < |fs| :: fs[i] == all[i];
    assert forall i | 0 <= i < |w.inFile| :: w.inFile[i] == all[|head| + i];
    forall i | 0 <= i < |files| ensures AllWritable(files[i]) { OneFile(files, i); }
  }

  lemma {:induction false} OneFile(files: seq<seq<Frame>>, i: nat)
    requires i < |files| && AllWritable(ThreadWal.Joined(files))
    ensures AllWritable(files[i])
    decreases |files|
  {
    var n := |files| - 1;
    var all, head := ThreadWal.Joined(files), ThreadWal.Joined(files[..n]);
    assert all == head + files[n];
    if i == n {
      assert forall k | 0 <= k < |files[n]| :: files[n][k] == all[|head| + k];
    } else {
      assert forall k | 0 <= k < |head| :: head[k] == all[k];
      OneFile(files[..n], i);
    }
  }

  // ---------------------------------------------------------------- the recovered store and the live one

  function KeyOf(op: Op, cs: nat): Key
    requires cs > 0
  {
    Flat(CutPath(op.path, cs))
  }

  /** The operation as the live trie took it: an empty value is a value. */
  function LiveOp(op: Op, cs: nat): KeyOp
    requires cs > 0
  {
    match op
    case Put(_, v) => Set(KeyOf(op, cs), Some(v))
    case Delete(_) => Unset(KeyOf(op, cs))
  }

  function LiveRecs(ls: seq<Logged>, cs: nat): (rs: seq<Rec>)
    requires cs > 0
    ensures |rs| == |ls| && forall i | 0 <= i < |ls| :: rs[i] == Rec(ls[i].txn, [LiveOp(ls[i].op, cs)])
  {
    seq(|ls|, i requires 0 <= i < |ls| => Rec(ls[i].txn, [LiveOp(ls[i].op, cs)]))
  }

  /** The store that was live when the operations had been applied. */
  function Live(base: Store, ls: seq<Logged>, cs: nat): Store
    requires cs > 0
  {
    Replay(base, LiveRecs(ls, cs))
  }

  predicate EmptyPut(op: Op) { op.Put? && op.value == [] }

  /** The last operation on key k, and the last that is not a put of an empty value. */
  ghost function LastOn(ls: seq<Logged>, k: Key, cs: nat): Option<Op>
    requires cs > 0
  {
    if ls == [] then None
    else if KeyOf(ls[|ls| - 1].op, cs) == k then Some(ls[|ls| - 1].op) else LastOn(ls[..|ls| - 1], k, cs)
  }

  ghost function LastKept(ls: seq<Logged>, k: Key, cs: nat): Option<Op>
    requires cs > 0
  {
    if ls == [] then None
    else if KeyOf(ls[|ls| - 1].op, cs) == k && !EmptyPut(ls[|ls| - 1].op) then Some(ls[|ls| - 1].op) else LastKept(ls[..|ls| - 1], k, cs)
  }

  ghost function Left(op: Option<Op>, base: Store, k: Key): Option<Bytes> {
    if op.None? then Lookup(base, k) else if op.value.Put? then Some(op.value.value) else None
  }

  lemma OneEffect(op: KeyOp, k: Key)
    ensures Effect([op], k) == if Acts(op) && op.key == k then Some(if op.Set? then op.value else None) else None
  {
    assert [op][1..] == [];
    assert Effect([op][1..], k) == None;
  }

  lemma {:induction false} LiveAt(base: Store, ls: seq<Logged>, k: Key, cs: nat)
    requires cs > 0 && k != []
    ensures Lookup(Live(base, ls, cs), k) == Left(LastOn(ls, k, cs), base, k)
  {
    if ls != [] {
      var n := |ls| - 1;
      assert LiveRecs(ls, cs) == LiveRecs(ls[..n], cs) + [LiveRecs(ls, cs)[n]];
      ReplayPush(base, LiveRecs(ls[..n], cs), LiveRecs(ls, cs)[n]);
      OpsEffect(Live(base, ls[..n], cs), LiveRecs(ls, cs)[n].ops, k);
      OneEffect(LiveOp(ls[n].op, cs), k);
      LiveAt(base, ls[..n], k, cs);
    }
  }

  function LogRecs(ls: seq<Logged>, cs: nat): (rs: seq<Rec>)
    requires cs > 0
    ensures |rs| == |ls| && forall i | 0 <= i < |ls| :: rs[i] == Rec(ls[i].txn, [OpOf(AsRead(ls[i].op), cs)])
  {
    seq(|ls|, i requires 0 <= i < |ls| => Rec(ls[i].txn, [OpOf(AsRead(ls[i].op), cs)]))
  }

  lemma RecsAreLogRecs(ls: seq<Logged>, cs: nat)
    requires cs > 0 && LogFits(ls)
    ensures RecsOf(FramesOf(ls), cs) == LogRecs(ls, cs)
  {
    hide RecOf, FrameOf, Payload;
    forall i | 0 <= i < |ls| ensures RecsOf(FramesOf(ls), cs)[i] == LogRecs(ls, cs)[i] { RecsOfOps(ls, cs, i); }
  }

  lemma {:induction false} RecoveredAt(base: Store, ls: seq<Logged>, k: Key, cs: nat)
    requires cs > 0 && k != []
    ensures Lookup(Replay(base, LogRecs(ls, cs)), k) == Left(LastKept(ls, k, cs), base, k)
  {
    if ls != [] {
      var n := |ls| - 1;
      assert LogRecs(ls, cs) == LogRecs(ls[..n], cs) + [LogRecs(ls, cs)[n]];
      ReplayPush(base, LogRecs(ls[..n], cs), LogRecs(ls, cs)[n]);
      OpsEffect(Replay(base, LogRecs(ls[..n], cs)), LogRecs(ls, cs)[n].ops, k);
      OneEffect(OpOf(AsRead(ls[n].op), cs), k);
      RecoveredAt(base, ls[..n], k, cs);
    }
  }

  lemma {:induction false} KeptIsNotEmpty(ls: seq<Logged>, k: Key, cs: nat)
    requires cs > 0
    ensures LastKept(ls, k, cs).Some? ==> !EmptyPut(LastKept(ls, k, cs).value)
    ensures LastOn(ls, k, cs).Some? && !EmptyPut(LastOn(ls, k, cs).value) ==> LastKept(ls, k, cs) == LastOn(ls, k, cs)
    ensures LastOn(ls, k, cs).None? ==> LastKept(ls, k, cs).None?
  {
    if ls != [] { KeptIsNotEmpty(ls[..|ls| - 1], k, cs); }
  }

  /** The last operation on k put an empty value, and without the puts of empty values k would not be
      empty: the log cannot tell. */
  ghost predicate Forgotten(base: Store, ls: seq<Logged>, k: Key, cs: nat)
    requires cs > 0
  {
    && LastOn(ls, k, cs).Some? && EmptyPut(LastOn(ls, k, cs).value)
    && (LastKept(ls, k, cs).Some? || Lookup(base, k) != Some([]))
  }

  /** One put of an empty value at a new key is enough. */
  lemma ForgottenExample(txn: TxnId, path: seq<Bytes>, cs: nat)
    requires cs > 0
    ensures Forgotten(map[], [Logged(txn, Put(path, []))], KeyOf(Put(path, []), cs), cs)
  {
  }

  /** No operation has the empty key, live or recovered. */
  lemma {:induction false} NoEmptyKey(base: Store, recs: seq<Rec>)
    requires forall i | 0 <= i < |recs| :: |recs[i].ops| == 1
    ensures Lookup(Replay(base, recs), []) == Lookup(base, [])
  {
    if recs != [] {
      var n := |recs| - 1;
      assert recs == recs[..n] + [recs[n]];
      ReplayPush(base, recs[..n], recs[n]);
      OpsEffect(Replay(base, recs[..n]), recs[n].ops, []);
      assert recs[n].ops == [recs[n].ops[0]];
      OneEffect(recs[n].ops[0], []);
      NoEmptyKey(base, recs[..n]);
    }
  }

  /** Replaying a log gives back the live store exactly when no key is forgotten. */
  lemma RecoveredIsLiveIff(base: Store, ls: seq<Logged>, cs: nat)
    requires cs > 0 && LogFits(ls)
    ensures Replay(base, RecsOf(FramesOf(ls), cs)) == Live(base, ls, cs) <==> forall k :: k != [] ==> !Forgotten(base, ls, k, cs)
  {
    hide Replay, LastOn, LastKept, RecsOf, LiveRecs, Live, LogRecs;
    RecsAreLogRecs(ls, cs);
    var a, b := Replay(base, RecsOf(FramesOf(ls), cs)), Live(base, ls, cs);
    forall k | k != [] ensures Lookup(a, k) == Lookup(b, k) <==> !Forgotten(base, ls, k, cs) {
      LiveAt(base, ls, k, cs);
      RecoveredAt(base, ls, k, cs);
      KeptIsNotEmpty(ls, k, cs);
    }
    if forall k :: k != [] ==> !Forgotten(base, ls, k, cs) {
      EmptyKeySame(base, ls, cs);
      forall k ensures Lookup(a, k) == Lookup(b, k) { }
      SameStore(a, b);
    }
  }

  lemma EmptyKeySame(base: Store, ls: seq<Logged>, cs: nat)
    requires cs > 0 && LogFits(ls)
    ensures Lookup(Replay(base, RecsOf(FramesOf(ls), cs)), []) == Lookup(Live(base, ls, cs), [])
  {
    hide RecsOf;
    RecsAreLogRecs(ls, cs);
    NoEmptyKey(base, LogRecs(ls, cs));
    NoEmptyKey(base, LiveRecs(ls, cs));
  }

  /** A log in immediate mode, a crash at any moment, recovery: the store is the live one exactly when
      no key is forgotten. */
  method RestartIsLive(w: ThreadWal.Wal, n: nat, cs: nat, base: Store, ghost ls: seq<Logged>) returns (store: Store)
    requires cs > 0 && w.Valid() && w.mode == ThreadWal.Immediate && w.synced <= n <= |w.file|
    requires w.Accepted() == FramesOf(ls) && LogFits(ls) && Ascending(FramesOf(ls))
    ensures store == Live(base, ls, cs) <==> forall k :: k != [] ==> !Forgotten(base, ls, k, cs)
  {
    hide Replay, LogBytes, ThreadWal.Joined, Whole, Forgotten, Live, RecsOf, Payload;
    RecoveredIsLiveIff(base, ls, cs);
    store := CrashAndRecover(w, n, cs, base);
  }
}
