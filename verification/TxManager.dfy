/**
 The transaction manager (tx_manager_begin, _commit, _abort, _get_min_active and
 recompute_global_min): active transactions in 64 shards, a minimum per shard, and a global
 minimum that begin never touches and that garbage collection uses as its cutoff.
 */
module TxManager {
  import opened Common

  const SHARDS: nat := 64

  datatype TxState = Active | Committed | Aborted

  class Txn {
    const id: TxnId
    var state: TxState

    constructor (id: TxnId)
      ensures this.id == id && state == Active
    {
      this.id := id;
      state := Active;
    }
  }

  function ShardOf(id: TxnId): nat {
    id.count % SHARDS
  }

  /** m is the least id of the list, or the sentinel when the list is empty. */
  ghost predicate IsMin(m: TxnId, txns: seq<Txn>) {
    && (txns == [] ==> m == SENTINEL_TXN)
    && (txns != [] ==> exists t :: t in txns && t.id == m)
    && (forall t | t in txns :: m.AtMost(t.id))
  }

  /** No two entries of the list are the same transaction or share an id. */
  ghost predicate Distinct(txns: seq<Txn>) {
    forall i, j | 0 <= i < j < |txns| :: txns[i].id != txns[j].id
  }

  /** Swap-and-pop: entry k is replaced by the last one. */
  function Removed(txns: seq<Txn>, k: nat): seq<Txn>
    requires k < |txns|
  {
    txns[k := txns[|txns| - 1]][..|txns| - 1]
  }

  /** Swap-and-pop removes that transaction and no other. */
  lemma RemovedIs(txns: seq<Txn>, k: nat)
    requires k < |txns| && Distinct(txns)
    ensures Distinct(Removed(txns, k)) && |Removed(txns, k)| == |txns| - 1
    ensures forall t :: t in Removed(txns, k) <==> t in txns && t != txns[k]
  {
    var rest := Removed(txns, k);
    forall t | t in txns && t != txns[k] ensures t in rest {
      var i :| 0 <= i < |txns| && txns[i] == t;
      if i == |txns| - 1 { assert rest[k] == t; } else { assert rest[i] == t; }
    }
  }

  method FindMin(txns: seq<Txn>) returns (m: TxnId)
    requires txns != []
    ensures IsMin(m, txns)
  {
    m := txns[0].id;
    var i := 1;
    while i < |txns|
      invariant 1 <= i <= |txns|
      invariant exists t :: t in txns && t.id == m
      invariant forall j | 0 <= j < i :: m.AtMost(txns[j].id)
    {
      if txns[i].id.Less(m) { m := txns[i].id; }
      i := i + 1;
    }
  }

  // ---------------------------------------------------------------- shards

  ghost function All(txns: seq<seq<Txn>>): set<Txn> {
    set s, t | 0 <= s < |txns| && t in txns[s] :: t
  }

  ghost predicate ShardOk(s: nat, txns: seq<Txn>, m: TxnId, newest: TxnId) {
    && Distinct(txns) && IsMin(m, txns)
    && forall t | t in txns :: ShardOf(t.id) == s && t.id.AtMost(newest)
  }

  ghost predicate ShardsOk(txns: seq<seq<Txn>>, mins: seq<TxnId>, newest: TxnId) {
    && |txns| == |mins| == SHARDS && newest.Less(SENTINEL_TXN)
    && forall s | 0 <= s < SHARDS :: ShardOk(s, txns[s], mins[s], newest)
  }

  lemma Pushed(txns: seq<Txn>, s: nat, m: TxnId, newest: TxnId, t: Txn)
    requires ShardOk(s, txns, m, newest) && newest.Less(t.id) && ShardOf(t.id) == s && newest.Less(SENTINEL_TXN)
    ensures ShardOk(s, txns + [t], if m == SENTINEL_TXN then t.id else m, t.id)
  {
    hide IsMin, Distinct;
    PushedMin(txns, m, newest, t);
    PushedDistinct(txns, newest, t);
  }

  lemma PushedMin(txns: seq<Txn>, m: TxnId, newest: TxnId, t: Txn)
    requires IsMin(m, txns) && newest.Less(t.id) && newest.Less(SENTINEL_TXN) && forall u | u in txns :: u.id.AtMost(newest)
    ensures IsMin(if m == SENTINEL_TXN then t.id else m, txns + [t])
  {
    var more := txns + [t];
    assert t in more;
    if txns != [] {
      var u :| u in txns && u.id == m;
      assert u in more && m.AtMost(newest);
    }
  }

  lemma PushedDistinct(txns: seq<Txn>, newest: TxnId, t: Txn)
    requires Distinct(txns) && newest.Less(t.id) && forall u | u in txns :: u.id.AtMost(newest)
    ensures Distinct(txns + [t])
  {
    assert forall i | 0 <= i < |txns| :: txns[i] in txns;
  }

  lemma ShardsPushed(txns: seq<seq<Txn>>, mins: seq<TxnId>, newest: TxnId, s: nat, t: Txn)
    requires ShardsOk(txns, mins, newest) && newest.Less(t.id) && t.id.Less(SENTINEL_TXN) && ShardOf(t.id) == s
    ensures |txns| == |mins| == SHARDS && s < SHARDS
    ensures ShardsOk(txns[s := txns[s] + [t]], if mins[s] == SENTINEL_TXN then mins[s := t.id] else mins, t.id)
  {
    hide Distinct, IsMin;
    Pushed(txns[s], s, mins[s], newest, t);
  }

  lemma AllPushed(txns: seq<seq<Txn>>, s: nat, t: Txn)
    requires s < |txns|
    ensures All(txns[s := txns[s] + [t]]) == All(txns) + {t}
  {
    var more := txns[s := txns[s] + [t]];
    assert t in more[s];
    forall u | u in All(txns) ensures u in All(more) {
      var r :| 0 <= r < |txns| && u in txns[r];
      assert u in more[r];
    }
    forall u | u in All(more) ensures u in All(txns) + {t} {
      var r :| 0 <= r < |more| && u in more[r];
      assert r != s ==> u in txns[r];
    }
  }

  /** Removing a transaction from its shard removes it from the manager. */
  lemma AllRemoved(txns: seq<seq<Txn>>, mins: seq<TxnId>, newest: TxnId, s: nat, k: nat)
    requires ShardsOk(txns, mins, newest) && s < SHARDS && k < |txns[s]|
    ensures All(txns[s := Removed(txns[s], k)]) == All(txns) - {txns[s][k]}
  {
    var less, t := txns[s := Removed(txns[s], k)], txns[s][k];
    RemovedIs(txns[s], k);
    forall u | u in All(less) ensures u in All(txns) && u != t {
      var r :| 0 <= r < |less| && u in less[r];
      assert u in txns[r];
      assert ShardOk(r, txns[r], mins[r], newest) && ShardOk(s, txns[s], mins[s], newest);
    }
    forall u | u in All(txns) && u != t ensures u in All(less) {
      var r :| 0 <= r < |txns| && u in txns[r];
      assert u in less[r];
    }
  }

  lemma Popped(txns: seq<Txn>, s: nat, m: TxnId, newest: TxnId, k: nat)
    requires ShardOk(s, txns, m, newest) && k < |txns|
    ensures Distinct(Removed(txns, k)) && forall t | t in Removed(txns, k) :: ShardOf(t.id) == s && t.id.AtMost(newest)
    ensures txns[k].id != m && Removed(txns, k) != [] ==> IsMin(m, Removed(txns, k))
  {
    RemovedIs(txns, k);
    if txns[k].id != m && Removed(txns, k) != [] {
      var u :| u in txns && u.id == m;
      assert u in Removed(txns, k);
    }
  }

  /** A shard's minimum is the sentinel exactly when the shard is empty. */
  lemma SentinelIffEmpty(txns: seq<seq<Txn>>, mins: seq<TxnId>, newest: TxnId, s: nat)
    requires ShardsOk(txns, mins, newest) && s < SHARDS
    ensures mins[s] == SENTINEL_TXN <==> txns[s] == []
    ensures forall t | t in txns[s] :: t in All(txns) && mins[s].AtMost(t.id)
    ensures txns[s] != [] ==> exists t :: t in All(txns) && t.id == mins[s]
  {
    assert ShardOk(s, txns[s], mins[s], newest);
    if txns[s] != [] {
      var t :| t in txns[s] && t.id == mins[s];
      assert t in All(txns);
    }
  }

  /** The least id among the active transactions, or the last committed id if there are none. */
  ghost predicate IsCutoff(m: TxnId, active: set<Txn>, lastCommitted: TxnId) {
    && (active == {} ==> m == lastCommitted)
    && (active != {} ==> exists t :: t in active && t.id == m)
    && (forall t | t in active :: m.AtMost(t.id))
  }

  /** Smallest shard minimum so far; the sentinel if all shards so far are empty. */
  ghost predicate Scanned(m: TxnId, txns: seq<seq<Txn>>, n: nat) {
    && (m == SENTINEL_TXN ==> forall s | 0 <= s < n && s < |txns| :: txns[s] == [])
    && (m != SENTINEL_TXN ==> exists t :: t in All(txns) && t.id == m)
    && (m != SENTINEL_TXN ==> forall s, t | 0 <= s < n && s < |txns| && t in txns[s] :: m.AtMost(t.id))
  }

  lemma ScanStep(txns: seq<seq<Txn>>, mins: seq<TxnId>, newest: TxnId, m: TxnId, n: nat)
    requires ShardsOk(txns, mins, newest) && n < SHARDS && Scanned(m, txns, n)
    ensures Scanned(if mins[n] != SENTINEL_TXN && (m == SENTINEL_TXN || mins[n].Less(m)) then mins[n] else m, txns, n + 1)
  {
    hide ShardsOk, All;
    SentinelIffEmpty(txns, mins, newest, n);
  }

  lemma ScanDone(txns: seq<seq<Txn>>, mins: seq<TxnId>, newest: TxnId, m: TxnId, lastCommitted: TxnId)
    requires ShardsOk(txns, mins, newest) && Scanned(m, txns, SHARDS)
    ensures IsCutoff(if m == SENTINEL_TXN then lastCommitted else m, All(txns), lastCommitted)
    ensures m == SENTINEL_TXN ==> All(txns) == {}
  {
  }

  /** What is in the manager was handed out by begin. */
  lemma AllKnown(txns: seq<seq<Txn>>, mins: seq<TxnId>, newest: TxnId, t: Txn)
    requires ShardsOk(txns, mins, newest) && t in All(txns)
    ensures t in txns[ShardOf(t.id)] && t.id.AtMost(newest)
  {
    var s :| 0 <= s < |txns| && t in txns[s];
    assert ShardOk(s, txns[s], mins[s], newest);
  }

  class Manager {
    var txns: seq<seq<Txn>>     // active transactions of each shard
    var mins: seq<TxnId>        // minimum of each shard
    var globalMin: TxnId
    var lastCommitted: TxnId
    ghost var newest: TxnId     // the greatest id handed out so far

    ghost predicate Valid()
      reads this, All(txns)
    {
      && ShardsOk(txns, mins, newest) && lastCommitted.AtMost(newest)
      && (globalMin != SENTINEL_TXN ==> globalMin.AtMost(newest) && forall t | t in All(txns) :: globalMin.AtMost(t.id))
      && (forall t | t in All(txns) :: t.state == Active)
    }

    /** The global minimum is set and is no active transaction's id. */
    ghost predicate Frozen()
      reads this
    {
      globalMin != SENTINEL_TXN && forall t | t in All(txns) :: t.id != globalMin
    }

    constructor ()
      ensures Valid() && All(txns) == {} && |txns| == 64
      ensures globalMin == SENTINEL_TXN && lastCommitted == ZERO_TXN && newest == ZERO_TXN
    {
      txns := seq(SHARDS, _ => []);
      mins := seq(SHARDS, _ => SENTINEL_TXN);
      globalMin := SENTINEL_TXN;
      lastCommitted := ZERO_TXN;
      newest := ZERO_TXN;
    }

    /** tx_manager_begin, with the fresh id from transaction_id_get_next as a parameter. */
    method Begin(id: TxnId) returns (t: Txn)
      requires Valid() && newest.Less(id) && id.Less(SENTINEL_TXN)
      modifies this
      ensures fresh(t) && t.id == id && t.state == Active
      ensures Valid() && newest == id
      ensures All(txns) == old(All(txns)) + {t}
      ensures globalMin == old(globalMin) && lastCommitted == old(lastCommitted)
      ensures old(Frozen()) ==> Frozen()
    {
      hide ShardsOk;
      t := new Txn(id);
      var s := ShardOf(id);
      ShardsPushed(txns, mins, newest, s, t);
      AllPushed(txns, s, t);
      txns := txns[s := txns[s] + [t]];
      if mins[s] == SENTINEL_TXN { mins := mins[s := id]; }
      newest := id;
    }

    /** recompute_global_min. */
    method RecomputeGlobalMin()
      requires Valid()
      modifies this`globalMin
      ensures Valid() && IsCutoff(globalMin, All(txns), lastCommitted) && globalMin != SENTINEL_TXN
    {
      var m := SENTINEL_TXN;
      var i := 0;
      while i < SHARDS
        invariant 0 <= i <= SHARDS && Scanned(m, txns, i)
      {
        ScanStep(txns, mins, newest, m, i);
        if mins[i] != SENTINEL_TXN && (m == SENTINEL_TXN || mins[i].Less(m)) { m := mins[i]; }
        i := i + 1;
      }
      ScanDone(txns, mins, newest, m, lastCommitted);
      hide All, ShardsOk;
      if m == SENTINEL_TXN {
        globalMin := lastCommitted;
        BelowSentinel(txns, mins, newest, lastCommitted);
      } else {
        ghost var t :| t in All(txns) && t.id == m;
        AllKnown(txns, mins, newest, t);
        globalMin := m;
      }
    }

    /** The part commit and abort share: swap-and-pop, then the shard minimum. */
    method RemoveFromShard(t: Txn)
      requires Valid() && t in All(txns)
      modifies this`txns, this`mins
      ensures Valid() && All(txns) == old(All(txns)) - {t}
    {
      AllKnown(txns, mins, newest, t);
      var s := ShardOf(t.id);
      var k := 0;
      while txns[s][k] != t
        invariant 0 <= k < |txns[s]| && t in txns[s][k..]
        decreases |txns[s]| - k
      {
        k := k + 1;
      }
      Popped(txns[s], s, mins[s], newest, k);
      AllRemoved(txns, mins, newest, s, k);
      var rest := Removed(txns[s], k);
      var m := mins[s];
      if t.id == m || rest == [] {
        if rest != [] { m := FindMin(rest); } else { m := SENTINEL_TXN; }
      }
      txns, mins := txns[s := rest], mins[s := m];
      hide Distinct, IsMin, All, Removed;
    }

    /** tx_manager_commit. The compare-and-swap loop on the last committed id is the one of the
        commit steps in module Seqlock, here run alone. */
    method Commit(t: Txn) returns (rc: int)
      requires Valid() && (t.state == Active ==> t in All(txns))
      modifies this, t
      ensures Valid() && newest == old(newest)
      ensures old(t.state) != Active ==> rc == -1 && unchanged(this) && unchanged(t)
      ensures old(t.state) == Active ==> rc == 0 && t.state == Committed && All(txns) == old(All(txns)) - {t}
      ensures old(t.state) == Active ==> lastCommitted == if old(lastCommitted).Less(t.id) then t.id else old(lastCommitted)
      ensures old(t.state) == Active ==>
                if old(globalMin) == t.id || old(globalMin) == SENTINEL_TXN then IsCutoff(globalMin, All(txns), lastCommitted)
                else globalMin == old(globalMin)
      ensures old(Frozen()) ==> globalMin == old(globalMin) && Frozen()
    {
      if t.state != Active {
        return -1;
      }
      AllKnown(txns, mins, newest, t);
      hide ShardsOk, All;
      if lastCommitted.Less(t.id) { lastCommitted := t.id; }
      RemoveFromShard(t);
      t.state := Committed;
      if t.id == globalMin || globalMin == SENTINEL_TXN {
        RecomputeGlobalMin();
      }
      return 0;
    }

    /** tx_manager_abort. */
    method Abort(t: Txn) returns (rc: int)
      requires Valid() && (t.state == Active ==> t in All(txns))
      modifies this, t
      ensures Valid() && newest == old(newest) && lastCommitted == old(lastCommitted)
      ensures old(t.state) != Active ==> rc == -1 && unchanged(this) && unchanged(t)
      ensures old(t.state) == Active ==> rc == 0 && t.state == Aborted && All(txns) == old(All(txns)) - {t}
      ensures old(t.state) == Active ==>
                if old(globalMin) == t.id || old(globalMin) == SENTINEL_TXN then IsCutoff(globalMin, All(txns), lastCommitted)
                else globalMin == old(globalMin)
      ensures old(Frozen()) ==> globalMin == old(globalMin) && Frozen()
    {
      if t.state != Active {
        return -1;
      }
      hide ShardsOk, All;
      RemoveFromShard(t);
      t.state := Aborted;
      if t.id == globalMin || globalMin == SENTINEL_TXN {
        RecomputeGlobalMin();
      }
      return 0;
    }

    /** tx_manager_get_min_active: the cutoff never exceeds the id of an active transaction, nor
        of one that begins later. */
    method GetMinActive() returns (cutoff: TxnId)
      requires Valid()
      modifies this`globalMin
      ensures Valid() && globalMin == cutoff
      ensures old(globalMin) != SENTINEL_TXN ==> cutoff == old(globalMin)
      ensures old(globalMin) == SENTINEL_TXN ==> IsCutoff(cutoff, All(txns), lastCommitted)
      ensures (forall t | t in All(txns) :: cutoff.AtMost(t.id)) && cutoff.AtMost(newest)
    {
      if globalMin == SENTINEL_TXN {
        RecomputeGlobalMin();
      }
      return globalMin;
    }
  }

  lemma BelowSentinel(txns: seq<seq<Txn>>, mins: seq<TxnId>, newest: TxnId, id: TxnId)
    requires ShardsOk(txns, mins, newest) && id.AtMost(newest)
    ensures id != SENTINEL_TXN
  {
  }

  /** Begin, then commit, then begin again: from then on the cutoff is the first id, however many
      transactions follow, because no later one can have that id. */
  method CutoffFreezes(a: TxnId, b: TxnId) returns (m: Manager)
    requires ZERO_TXN.Less(a) && a.Less(b) && b.Less(SENTINEL_TXN)
    ensures m.Valid() && m.Frozen() && m.globalMin == a && m.newest == b
  {
    m := new Manager();
    var t := m.Begin(a);
    var _ := m.Commit(t);
    assert All(m.txns) == {};
    var _ := m.Begin(b);
  }

  // ---------------------------------------------------------------- whole runs

  /** Begin with a given id, or commit or abort the k-th transaction begun. */
  datatype TxAct = BeginTx(id: TxnId) | CommitTx(k: nat) | AbortTx(k: nat) | Cutoff

  /** Ids are handed out in increasing order. */
  ghost predicate IdsRise(acts: seq<TxAct>, newest: TxnId) {
    acts == [] ||
    match acts[0]
    case BeginTx(id) => newest.Less(id) && id.Less(SENTINEL_TXN) && IdsRise(acts[1..], id)
    case _ => IdsRise(acts[1..], newest)
  }

  /** One action. What was begun and is active is known to the manager, before and after. */
  method Act(m: Manager, begun: seq<Txn>, act: TxAct, ghost rest: seq<TxAct>) returns (begun': seq<Txn>)
    requires m.Valid() && IdsRise([act] + rest, m.newest) && forall j | 0 <= j < |begun| :: begun[j].state == Active ==> begun[j] in All(m.txns)
    modifies m, begun
    ensures m.Valid() && IdsRise(rest, m.newest) && (old(m.Frozen()) ==> m.Frozen() && m.globalMin == old(m.globalMin))
    ensures begun' == begun || (|begun'| == |begun| + 1 && begun'[..|begun|] == begun && fresh(begun'[|begun|]))
    ensures forall j | 0 <= j < |begun'| :: begun'[j].state == Active ==> begun'[j] in All(m.txns)
    ensures forall t | t in All(m.txns) && t !in old(All(m.txns)) :: t in begun'
  {
    assert ([act] + rest)[1..] == rest && ([act] + rest)[0] == act;
    hide All, ShardsOk;
    begun' := begun;
    match act {
      case BeginTx(id) =>
        var t := m.Begin(id);
        begun' := begun + [t];
      case CommitTx(k) =>
        if k < |begun| { var _ := m.Commit(begun[k]); }
      case AbortTx(k) =>
        if k < |begun| { var _ := m.Abort(begun[k]); }
      case Cutoff =>
        var _ := m.GetMinActive();
    }
  }

  lemma ActsCut(acts: seq<TxAct>, i: nat)
    requires i < |acts|
    ensures acts[i..] == [acts[i]] + acts[i + 1..]
  {
  }

  /** Over every run: the shards hold exactly the transactions begun and not finished, their minima
      are right, and the cutoff is at or below every one of them. */
  method Run(acts: seq<TxAct>) returns (m: Manager, begun: seq<Txn>)
    requires IdsRise(acts, ZERO_TXN)
    ensures m.Valid()
    ensures forall t :: t in All(m.txns) <==> t in begun && t.state == Active
    ensures m.globalMin != SENTINEL_TXN ==> forall t | t in begun && t.state == Active :: m.globalMin.AtMost(t.id)
  {
    m := new Manager();
    begun := [];
    var i := 0;
    while i < |acts|
      invariant 0 <= i <= |acts| && fresh(m) && m.Valid() && IdsRise(acts[i..], m.newest) && (forall j | 0 <= j < |begun| :: fresh(begun[j]))
      invariant forall j | 0 <= j < |begun| :: begun[j].state == Active ==> begun[j] in All(m.txns)
      invariant forall t | t in All(m.txns) :: t in begun
    {
      hide All, ShardsOk, IdsRise;
      ActsCut(acts, i);
      begun := Act(m, begun, acts[i], acts[i + 1..]);
      i := i + 1;
    }
  }

  // ---------------------------------------------------------------- when the cutoff can still move

  /** A frozen cutoff stays what it is over every further run, whatever begins, commits or aborts. */
  method StaysFrozen(m: Manager, known: seq<Txn>, acts: seq<TxAct>)
    requires m.Valid() && m.Frozen() && IdsRise(acts, m.newest) && forall j | 0 <= j < |known| :: known[j].state == Active ==> known[j] in All(m.txns)
    modifies m, known
    ensures m.Valid() && m.Frozen() && m.globalMin == old(m.globalMin)
  {
    var begun := known;
    var i := 0;
    while i < |acts|
      invariant 0 <= i <= |acts| && m.Valid() && m.Frozen() && m.globalMin == old(m.globalMin) && IdsRise(acts[i..], m.newest)
      invariant forall j | 0 <= j < |begun| :: fresh(begun[j]) || begun[j] in known
      invariant forall j | 0 <= j < |begun| :: begun[j].state == Active ==> begun[j] in All(m.txns)
    {
      hide All, ShardsOk, IdsRise;
      ActsCut(acts, i);
      begun := Act(m, begun, acts[i], acts[i + 1..]);
      i := i + 1;
    }
  }

  /** A cutoff that is not frozen can still move: unset, the next question sets it; otherwise an
      active transaction has it as its id, and with that one's commit it rises. */
  method MovesOn(m: Manager, t: Txn, id: TxnId)
    requires m.Valid() && !m.Frozen() && m.newest.Less(id) && id.Less(SENTINEL_TXN)
    requires m.globalMin != SENTINEL_TXN ==> t in All(m.txns) && t.state == Active && t.id == m.globalMin
    modifies m, t
    ensures m.Valid() && m.globalMin != old(m.globalMin)
    ensures old(m.globalMin) != SENTINEL_TXN ==> old(m.globalMin).Less(m.globalMin)
  {
    if m.globalMin == SENTINEL_TXN {
      var cutoff := m.GetMinActive();
      return;
    }
    ghost var before := m.globalMin;
    var u := m.Begin(id);
    forall x | x in All(m.txns) && x != t ensures before.Less(x.id) { OthersAbove(m, t, x); }
    hide All, ShardsOk;
    var _ := m.Commit(t);
    assert u in All(m.txns);
  }

  lemma OthersAbove(m: Manager, t: Txn, x: Txn)
    requires m.Valid() && t in All(m.txns) && x in All(m.txns) && x != t && t.id == m.globalMin
    ensures m.globalMin.Less(x.id)
  {
    AllKnown(m.txns, m.mins, m.newest, t);
    AllKnown(m.txns, m.mins, m.newest, x);
    assert m.globalMin.AtMost(x.id);
  }
}
