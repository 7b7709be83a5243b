/**
 Recovery (wal_manager_recover): the records of all log files are put together, sorted by
 transaction id and replayed. Seen from the keys, replay is last writer wins.
 */
module Recovery {
  import opened Common
  import opened Keys
  import opened Codec

  type Key = Ident
  type Store = map<Key, Bytes>

  /** One operation on a flattened key; a put without value bytes inserts nothing. */
  datatype KeyOp = Set(key: Key, value: Option<Bytes>) | Unset(key: Key)

  /** A log record: a put or delete, or a batch. */
  datatype Rec = Rec(txn: TxnId, ops: seq<KeyOp>)

  function OpOf(e: Entry, cs: nat): KeyOp
    requires cs > 0
  {
    match e
    case PutEntry(p, v) => Set(Flat(CutPath(p, cs)), v)
    case DeleteEntry(p) => Unset(Flat(CutPath(p, cs)))
  }

  /** hbtrie_insert refuses an empty path and a missing value; hbtrie_delete an empty path. */
  predicate Acts(op: KeyOp) {
    op.key != [] && (op.Set? ==> op.value.Some?)
  }

  function ApplyOp(m: Store, op: KeyOp): Store {
    if !Acts(op) then m else if op.Set? then m[op.key := op.value.value] else m - {op.key}
  }

  function ApplyOps(m: Store, ops: seq<KeyOp>): Store
    decreases ops
  {
    if ops == [] then m else ApplyOps(ApplyOp(m, ops[0]), ops[1..])
  }

  function Replay(m: Store, recs: seq<Rec>): Store
    decreases recs
  {
    if recs == [] then m else Replay(ApplyOps(m, recs[0].ops), recs[1..])
  }

  // ---------------------------------------------------------------- last effect on a key

  /** What a list of operations leaves at key k: nothing said, deleted, or a value. */
  ghost function Effect(ops: seq<KeyOp>, k: Key): Option<Option<Bytes>> {
    if ops == [] then None
    else
      var later := Effect(ops[1..], k);
      if later.Some? then later
      else if Acts(ops[0]) && ops[0].key == k then Some(if ops[0].Set? then ops[0].value else None)
      else None
  }

  ghost function Lookup(m: Store, k: Key): Option<Bytes> {
    if k in m then Some(m[k]) else None
  }

  ghost predicate Touches(r: Rec, k: Key) {
    Effect(r.ops, k).Some?
  }

  lemma {:induction false} OpsEffect(m: Store, ops: seq<KeyOp>, k: Key)
    ensures Lookup(ApplyOps(m, ops), k) == (if Effect(ops, k).Some? then Effect(ops, k).value else Lookup(m, k))
    decreases ops
  {
    if ops != [] { OpsEffect(ApplyOp(m, ops[0]), ops[1..], k); }
  }

  /** The last record of the list that touches k. */
  ghost function Last(recs: seq<Rec>, k: Key): (r: Option<Rec>)
    ensures r.Some? ==> Touches(r.value, k)
  {
    if recs == [] then None
    else if Touches(recs[|recs| - 1], k) then Some(recs[|recs| - 1])
    else Last(recs[..|recs| - 1], k)
  }

  lemma {:induction false} LastIs(recs: seq<Rec>, k: Key)
    ensures Last(recs, k).Some? ==> Last(recs, k).value in recs && Touches(Last(recs, k).value, k)
    ensures Last(recs, k).None? ==> forall r | r in recs :: !Touches(r, k)
  {
    if recs != [] { LastIs(recs[..|recs| - 1], k); }
  }

  lemma {:induction false} ReplayPush(m: Store, recs: seq<Rec>, r: Rec)
    ensures Replay(m, recs + [r]) == ApplyOps(Replay(m, recs), r.ops)
    decreases recs
  {
    if recs == [] {
      assert ([] + [r])[1..] == [];
    } else {
      assert (recs + [r])[1..] == recs[1..] + [r];
      ReplayPush(ApplyOps(m, recs[0].ops), recs[1..], r);
    }
  }

  lemma {:induction false} ReplayEffect(m: Store, recs: seq<Rec>, k: Key)
    ensures Lookup(Replay(m, recs), k) ==
              (if Last(recs, k).Some? then Effect(Last(recs, k).value.ops, k).value else Lookup(m, k))
  {
    if recs != [] {
      LastIs(recs, k);
      var rest, r := recs[..|recs| - 1], recs[|recs| - 1];
      assert recs == rest + [r];
      ReplayPush(m, rest, r);
      ReplayEffect(m, rest, k);
      OpsEffect(Replay(m, rest), r.ops, k);
    }
  }

  // ---------------------------------------------------------------- sorted replay

  ghost predicate SortedByTxn(recs: seq<Rec>) {
    forall i, j | 0 <= i < j < |recs| :: recs[i].txn.AtMost(recs[j].txn)
  }

  /** One transaction id, one record. */
  ghost predicate OnePerTxn(recs: seq<Rec>) {
    forall a, b | a in recs && b in recs && a.txn == b.txn :: a == b
  }

  /** r is the record with the greatest id among those that touch k. */
  ghost predicate Wins(r: Rec, recs: seq<Rec>, k: Key) {
    r in recs && Touches(r, k) && forall s | s in recs && Touches(s, k) :: s.txn.AtMost(r.txn)
  }

  lemma {:induction false} LastWins(recs: seq<Rec>, k: Key)
    requires SortedByTxn(recs)
    ensures Last(recs, k).Some? ==> Wins(Last(recs, k).value, recs, k)
  {
    if recs != [] {
      var rest, r := recs[..|recs| - 1], recs[|recs| - 1];
      assert recs == rest + [r];
      LastIs(recs, k);
      LastWins(rest, k);
      forall s | s in recs && Touches(s, k) && Last(recs, k).Some? ensures s.txn.AtMost(Last(recs, k).value.txn) {
        if Touches(r, k) { assert s.txn.AtMost(r.txn); } else { assert s in rest; }
      }
    }
  }

  lemma WinnerUnique(recs: seq<Rec>, k: Key, r: Rec, s: Rec)
    requires OnePerTxn(recs) && Wins(r, recs, k) && Wins(s, recs, k)
    ensures r == s
  {
  }

  /** Each key gets the effect of the record with the greatest transaction id that touches it; a
      key that no record touches keeps its value. */
  lemma GreatestWins(m: Store, recs: seq<Rec>, k: Key)
    requires SortedByTxn(recs)
    ensures (forall r | r in recs :: !Touches(r, k)) ==> Lookup(Replay(m, recs), k) == Lookup(m, k)
    ensures OnePerTxn(recs) ==> forall r | Wins(r, recs, k) :: Lookup(Replay(m, recs), k) == Effect(r.ops, k).value
  {
    ReplayEffect(m, recs, k);
    LastIs(recs, k);
    LastWins(recs, k);
    if OnePerTxn(recs) {
      forall r | Wins(r, recs, k) ensures Lookup(Replay(m, recs), k) == Effect(r.ops, k).value {
        WinnerUnique(recs, k, r, Last(recs, k).value);
      }
    }
  }

  /** Later in time wins, whatever the nanoseconds and counts: if all other records that touch a key have
      an earlier time, the key gets the effect of this one. */
  lemma LaterTimeWins(m: Store, recs: seq<Rec>, k: Key, r: Rec)
    requires SortedByTxn(recs) && r in recs && Touches(r, k) && forall s | s in recs && Touches(s, k) && s != r :: s.txn.time < r.txn.time
    ensures Lookup(Replay(m, recs), k) == Effect(r.ops, k).value
  {
    ReplayEffect(m, recs, k);
    LastIs(recs, k);
    LastWins(recs, k);
    var last := Last(recs, k).value;
    TxnOrderIs(r.txn, last.txn);
  }

  lemma SameStore(a: Store, b: Store)
    requires forall k :: Lookup(a, k) == Lookup(b, k)
    ensures a == b
  {
    forall k ensures k in a <==> k in b { assert Lookup(a, k) == Lookup(b, k); }
    forall k | k in a ensures a[k] == b[k] { assert Lookup(a, k) == Lookup(b, k); }
  }

  /** Two readings of the same records, split over files in any way and with any record read more
      than once, replay to the same store. */
  lemma SameRecordsSameStore(m: Store, a: seq<Rec>, b: seq<Rec>)
    requires SortedByTxn(a) && SortedByTxn(b) && OnePerTxn(a) && forall r :: r in a <==> r in b
    ensures Replay(m, a) == Replay(m, b)
  {
    forall k ensures Lookup(Replay(m, a), k) == Lookup(Replay(m, b), k) {
      SameAt(m, m, a, b, k);
    }
    SameStore(Replay(m, a), Replay(m, b));
  }

  lemma SameAt(m: Store, c: Store, a: seq<Rec>, b: seq<Rec>, k: Key)
    requires SortedByTxn(a) && SortedByTxn(b) && OnePerTxn(a) && forall r :: r in a <==> r in b
    requires (forall r | r in a :: !Touches(r, k)) ==> Lookup(m, k) == Lookup(c, k)
    ensures Lookup(Replay(m, a), k) == Lookup(Replay(c, b), k)
  {
    ReplayEffect(m, a, k);
    ReplayEffect(c, b, k);
    LastIs(a, k);
    LastIs(b, k);
    LastWins(a, k);
    LastWins(b, k);
    if Last(a, k).Some? { WinnerUnique(a, k, Last(a, k).value, Last(b, k).value); }
  }

  /** Replaying a log over a checkpoint that holds some of its records, in whatever order they were
      applied, gives the same store as replaying it over the older base. */
  lemma CheckpointHarmless(m: Store, log: seq<Rec>, held: seq<Rec>)
    requires SortedByTxn(log) && OnePerTxn(log) && forall r | r in held :: r in log
    ensures Replay(Replay(m, held), log) == Replay(m, log)
  {
    var c := Replay(m, held);
    forall k ensures Lookup(Replay(m, log), k) == Lookup(Replay(c, log), k) {
      ReplayEffect(m, held, k);
      LastIs(held, k);
      SameAt(m, c, log, log, k);
    }
    SameStore(Replay(m, log), Replay(c, log));
  }

  // ---------------------------------------------------------------- the recovery pass

  /** Sort by transaction id; equal ids may come out in any order. */
  method SortRecs(recs: seq<Rec>) returns (sorted: seq<Rec>)
    ensures SortedByTxn(sorted) && multiset(sorted) == multiset(recs)
    ensures forall i, j | 0 <= i < j < |sorted| :: Number(sorted[i].txn) <= Number(sorted[j].txn)
  {
    hide SortedByTxn, Number;
    sorted := [];
    NothingSorted();
    var n := 0;
    while n < |recs|
      invariant 0 <= n <= |recs| && SortedByTxn(sorted) && multiset(sorted) == multiset(recs[..n])
    {
      assert recs[..n + 1] == recs[..n] + [recs[n]];
      sorted := InsertRec(sorted, recs[n]);
      n := n + 1;
    }
    assert recs[..n] == recs;
    SortedByNumber(sorted);
  }

  lemma SortedByNumber(recs: seq<Rec>)
    requires SortedByTxn(recs)
    ensures forall i, j | 0 <= i < j < |recs| :: Number(recs[i].txn) <= Number(recs[j].txn)
  {
    forall i, j | 0 <= i < j < |recs| ensures Number(recs[i].txn) <= Number(recs[j].txn) { TxnOrderIs(recs[i].txn, recs[j].txn); }
  }

  lemma NothingSorted()
    ensures SortedByTxn([])
  {
  }

  method InsertRec(sorted: seq<Rec>, r: Rec) returns (out: seq<Rec>)
    requires SortedByTxn(sorted)
    ensures SortedByTxn(out) && multiset(out) == multiset(sorted) + multiset{r}
  {
    var k := |sorted|;
    while k > 0 && r.txn.Less(sorted[k - 1].txn)
      invariant 0 <= k <= |sorted| && forall i | k <= i < |sorted| :: r.txn.Less(sorted[i].txn)
    {
      k := k - 1;
    }
    InsertSorted(sorted, k, r);
    hide SortedByTxn;
    out := sorted[..k] + [r] + sorted[k..];
    assert sorted == sorted[..k] + sorted[k..];
  }

  lemma InsertSorted(sorted: seq<Rec>, k: nat, r: Rec)
    requires SortedByTxn(sorted) && k <= |sorted| && (k > 0 ==> !r.txn.Less(sorted[k - 1].txn))
    requires forall i | k <= i < |sorted| :: r.txn.Less(sorted[i].txn)
    ensures SortedByTxn(sorted[..k] + [r] + sorted[k..])
  {
    var out := sorted[..k] + [r] + sorted[k..];
    forall i, j | 0 <= i < j < |out| ensures out[i].txn.AtMost(out[j].txn) {
      assert forall x | 0 <= x < k :: out[x] == sorted[x];
      assert forall x | k < x < |out| :: out[x] == sorted[x - 1];
      if i < k && k > 0 { assert sorted[i].txn.AtMost(sorted[k - 1].txn); }
    }
  }

  ghost function AllRecs(files: seq<seq<Rec>>): seq<Rec> {
    if files == [] then [] else AllRecs(files[..|files| - 1]) + files[|files| - 1]
  }

  /** The replay loop: each record in order, keeping the greatest id. */
  method ApplySorted(sorted: seq<Rec>, base: Store) returns (store: Store, newest: TxnId)
    ensures store == Replay(base, sorted)
    ensures forall r | r in sorted :: r.txn.AtMost(newest)
    ensures newest == ZERO_TXN || exists r :: r in sorted && r.txn == newest
  {
    hide Replay;
    ReplayNone(base);
    store, newest := base, ZERO_TXN;
    var i := 0;
    assert sorted[..0] == [];
    while i < |sorted|
      invariant 0 <= i <= |sorted| && store == Replay(base, sorted[..i])
      invariant forall j | 0 <= j < i :: sorted[j].txn.AtMost(newest)
      invariant newest == ZERO_TXN || exists r :: r in sorted && r.txn == newest
    {
      assert sorted[..i + 1] == sorted[..i] + [sorted[i]];
      ReplayPush(base, sorted[..i], sorted[i]);
      if newest.Less(sorted[i].txn) { newest := sorted[i].txn; }
      store := ApplyOps(store, sorted[i].ops);
      i := i + 1;
    }
    assert sorted[..i] == sorted;
  }

  lemma ReplayNone(m: Store)
    ensures Replay(m, []) == m
  {
  }

  /** wal_manager_recover on the records of the files that are read: the store it leaves, and the
      id that becomes the last committed one. */
  method Recover(files: seq<seq<Rec>>, base: Store) returns (store: Store, newest: TxnId)
    ensures exists sorted :: SortedByTxn(sorted) && multiset(sorted) == multiset(AllRecs(files)) && store == Replay(base, sorted)
    ensures forall r | r in AllRecs(files) :: r.txn.AtMost(newest)
    ensures newest == ZERO_TXN || exists r :: r in AllRecs(files) && r.txn == newest
  {
    hide SortedByTxn, Replay, TxnId.AtMost, Number;
    var all: seq<Rec> := [];
    var i := 0;
    while i < |files|
      invariant 0 <= i <= |files| && all == AllRecs(files[..i])
    {
      assert files[..i + 1][..i] == files[..i];
      all := all + files[i];
      i := i + 1;
    }
    assert files[..i] == files;
    var sorted := SortRecs(all);
    store, newest := ApplySorted(sorted, base);
    SameMembers(sorted, all);
  }

  lemma SameMembers(a: seq<Rec>, b: seq<Rec>)
    requires multiset(a) == multiset(b)
    ensures forall r :: r in a <==> r in b
  {
    forall r ensures r in a <==> r in b {
      assert r in a <==> r in multiset(a);
      assert r in b <==> r in multiset(b);
    }
  }

  /** However the records were distributed over the files, and even if some file was read twice,
      recovery leaves the same store. */
  lemma RecoveryDetermined(base: Store, files: seq<seq<Rec>>, others: seq<seq<Rec>>, a: seq<Rec>, b: seq<Rec>)
    requires SortedByTxn(a) && multiset(a) == multiset(AllRecs(files)) && SortedByTxn(b) && multiset(b) == multiset(AllRecs(others))
    requires OnePerTxn(AllRecs(files)) && forall r :: r in AllRecs(files) <==> r in AllRecs(others)
    ensures Replay(base, a) == Replay(base, b)
  {
    SameMembers(a, AllRecs(files));
    SameMembers(b, AllRecs(others));
    SameRecordsSameStore(base, a, b);
  }
}
