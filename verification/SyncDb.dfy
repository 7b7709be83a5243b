/**
 The sync-only branches of put, get, delete, increment and batch: a store keyed by flattened
 chunks, and in front of it an LRU cache keyed by whole paths.
 */
module SyncDb {
  import opened Common
  import opened Keys
  import opened Lru

  type Store = map<Ident, Bytes>

  /** The trie takes no value for an empty path, nor below an identifier without chunks at its end. */
  predicate Effective(p: Path) {
    p != [] && p[|p| - 1] != []
  }

  /** Every path a caller builds from at least one identifier is taken; none ending in an identifier
      without chunks is; and a path that is taken has a place. */
  lemma EffectiveIs(names: seq<Bytes>, cs: nat, p: Path)
    requires cs > 0
    ensures Effective(CutPath(names, cs)) <==> names != []
    ensures !Effective(p + [[]]) && (Effective(p) ==> Flat(p) != [])
  {
    if names != [] { CutPathIs(names, cs, |names| - 1); }
    if Effective(p) { FlatPush(p, |p| - 1); }
    assert p != [] ==> p[..|p| - 1 + 1] == p;
  }

  function StorePut(s: Store, p: Path, v: Bytes): Store {
    if Effective(p) then s[Flat(p) := v] else s
  }

  function StoreDelete(s: Store, p: Path): Store {
    if Effective(p) then s - {Flat(p)} else s
  }

  function StoreFind(s: Store, p: Path): Option<Bytes> {
    if Effective(p) && Flat(p) in s then Some(s[Flat(p)]) else None
  }

  // ---------------------------------------------------------------- operations

  datatype BatchOp = BatchPut(path: Path, value: Bytes) | BatchDelete(path: Path)

  datatype Op =
    | PutOp(path: Path, value: Bytes)
    | GetOp(path: Path)
    | DeleteOp(path: Path)
    | IncrementOp(path: Path, delta: int)
    | BatchOps(ops: seq<BatchOp>)

  /** How numbers are read from and written to values, and the memory an entry takes. */
  datatype Env = Env(parse: Bytes -> int, format: int -> Bytes, sizeOf: (Path, Bytes) -> nat)

  function Incremented(s: Store, p: Path, delta: int, env: Env): Bytes {
    var now := StoreFind(s, p);
    env.format((if now.Some? && now.value != [] then env.parse(now.value) else 0) + delta)
  }

  function ApplyBatch(s: Store, ops: seq<BatchOp>): Store {
    if ops == [] then s
    else
      var rest, op := ops[..|ops| - 1], ops[|ops| - 1];
      match op
      case BatchPut(p, v) => StorePut(ApplyBatch(s, rest), p, v)
      case BatchDelete(p) => StoreDelete(ApplyBatch(s, rest), p)
  }

  /** What an operation does to a store without any cache. */
  function Apply(s: Store, op: Op, env: Env): Store {
    match op
    case PutOp(p, v) => StorePut(s, p, v)
    case GetOp(p) => s
    case DeleteOp(p) => StoreDelete(s, p)
    case IncrementOp(p, d) => StorePut(s, p, Incremented(s, p, d, env))
    case BatchOps(ops) => ApplyBatch(s, ops)
  }

  /** What it returns: the value found, or the new value of a counter. */
  function Answer(s: Store, op: Op, env: Env): Option<Bytes> {
    match op
    case GetOp(p) => StoreFind(s, p)
    case IncrementOp(p, d) => Some(Incremented(s, p, d, env))
    case _ => None
  }

  // ---------------------------------------------------------------- the cache beside the store

  /** The slots for other paths than p. */
  ghost function Purged(slots: seq<Slot>, p: Path): seq<Slot> {
    if slots == [] then [] else (if slots[0].path == p then [] else [slots[0]]) + Purged(slots[1..], p)
  }

  ghost function PurgedAll(slots: seq<Slot>, ops: seq<BatchOp>): seq<Slot> {
    if ops == [] then slots else Purged(PurgedAll(slots, ops[..|ops| - 1]), ops[|ops| - 1].path)
  }

  /** The slot of a cached path. */
  ghost function SlotOf(slots: seq<Slot>, p: Path): (x: Slot)
    requires Find(slots, p).Some?
    ensures x in slots && x.path == p && Find(slots, p) == Some(x.value)
  {
    if slots[0].path == p then slots[0] else SlotOf(slots[1..], p)
  }

  /** What stays cached beside p when p is put. */
  ghost function Kept(slots: seq<Slot>, p: Path, size: nat, budget: nat): seq<Slot> {
    if Find(slots, p).Some? then Purged(slots, p) else Trimmed(slots, size, budget)
  }

  ghost function CachedPut(slots: seq<Slot>, p: Path, v: Bytes, env: Env, budget: nat): seq<Slot> {
    [Slot(p, v, env.sizeOf(p, v))] + Kept(slots, p, env.sizeOf(p, v), budget)
  }

  datatype State = State(slots: seq<Slot>, store: Store)

  /** What an operation makes of cache and store. */
  ghost function After(s: State, op: Op, env: Env, budget: nat): State {
    match op
    case PutOp(p, v) => State(CachedPut(s.slots, p, v, env, budget), StorePut(s.store, p, v))
    case GetOp(p) =>
      if Find(s.slots, p).Some? then s.(slots := [SlotOf(s.slots, p)] + Purged(s.slots, p))
      else if StoreFind(s.store, p).Some? then s.(slots := CachedPut(s.slots, p, StoreFind(s.store, p).value, env, budget))
      else s
    case DeleteOp(p) => State(Purged(s.slots, p), StoreDelete(s.store, p))
    case IncrementOp(p, d) =>
      var v := Incremented(s.store, p, d, env);
      State(CachedPut(s.slots, p, v, env, budget), StorePut(s.store, p, v))
    case BatchOps(ops) => State(PurgedAll(s.slots, ops), ApplyBatch(s.store, ops))
  }

  /** What it returns through the cache. */
  ghost function Reply(s: State, op: Op, env: Env): Option<Bytes> {
    if op.GetOp? && Find(s.slots, op.path).Some? then Find(s.slots, op.path) else Answer(s.store, op, env)
  }

  /** Every cached value is the store's value for that path. */
  ghost predicate Agree(slots: seq<Slot>, s: Store) {
    forall x | x in slots :: StoreFind(s, x.path) == Some(x.value)
  }

  // ---------------------------------------------------------------- when one operation keeps agreement

  /** The trie takes the path, and what stays cached at its place has the same value. */
  ghost predicate PutFits(kept: seq<Slot>, p: Path, v: Bytes) {
    Effective(p) && forall x | x in kept && Flat(x.path) == Flat(p) :: x.value == v
  }

  /** What a batch leaves at a place: nothing said, deleted, or a value. */
  ghost function LastWrite(ops: seq<BatchOp>, k: Ident): Option<Option<Bytes>> {
    if ops == [] then None
    else
      var op := ops[|ops| - 1];
      if Effective(op.path) && Flat(op.path) == k then Some(if op.BatchPut? then Some(op.value) else None)
      else LastWrite(ops[..|ops| - 1], k)
  }

  /** Whether an operation leaves a cache that agrees with the store in agreement. */
  ghost predicate Harmless(s: State, op: Op, env: Env, budget: nat) {
    match op
    case PutOp(p, v) => PutFits(Kept(s.slots, p, env.sizeOf(p, v), budget), p, v)
    case GetOp(p) => true
    case DeleteOp(p) => !Effective(p) || forall x | x in s.slots && Flat(x.path) == Flat(p) :: x.path == p
    case IncrementOp(p, d) =>
      var v := Incremented(s.store, p, d, env);
      PutFits(Kept(s.slots, p, env.sizeOf(p, v), budget), p, v)
    case BatchOps(ops) =>
      forall x | x in PurgedAll(s.slots, ops) :: LastWrite(ops, Flat(x.path)) == None || LastWrite(ops, Flat(x.path)) == Some(Some(x.value))
  }

  lemma {:induction false} PurgedHas(slots: seq<Slot>, p: Path)
    ensures forall x :: x in Purged(slots, p) <==> x in slots && x.path != p
  {
    if slots != [] {
      PurgedHas(slots[1..], p);
      assert slots == [slots[0]] + slots[1..];
    }
  }

  lemma {:induction false} PurgedAllIn(slots: seq<Slot>, ops: seq<BatchOp>)
    ensures forall x | x in PurgedAll(slots, ops) :: x in slots
  {
    if ops != [] {
      PurgedAllIn(slots, ops[..|ops| - 1]);
      PurgedHas(PurgedAll(slots, ops[..|ops| - 1]), ops[|ops| - 1].path);
    }
  }

  lemma KeptIn(slots: seq<Slot>, p: Path, size: nat, budget: nat)
    ensures forall x | x in Kept(slots, p, size, budget) :: x in slots && x.path != p
  {
    PurgedHas(slots, p);
    TrimmedIs(slots, size, budget);
    FindIn(slots, p);
  }

  /** A put keeps the agreement exactly when the trie takes the path and no cached path that stays
      shares its place in the store with another value. */
  lemma PutAgreesIff(kept: seq<Slot>, s: Store, p: Path, v: Bytes, size: nat)
    requires Agree(kept, s)
    ensures Agree([Slot(p, v, size)] + kept, StorePut(s, p, v)) <==> PutFits(kept, p, v)
  {
    var s', all := StorePut(s, p, v), [Slot(p, v, size)] + kept;
    assert all[0] in all && forall x | x in kept :: x in all;
    if PutFits(kept, p, v) {
      forall x | x in all ensures StoreFind(s', x.path) == Some(x.value) { }
    }
    if Agree(all, s') {
      assert StoreFind(s', all[0].path) == Some(all[0].value);
      forall x | x in kept && Flat(x.path) == Flat(p) ensures x.value == v { assert StoreFind(s', x.path) == Some(x.value); }
    }
  }

  /** A delete keeps it exactly when no other cached path shares the place. */
  lemma DeleteAgreesIff(slots: seq<Slot>, s: Store, p: Path)
    requires Agree(slots, s)
    ensures Agree(Purged(slots, p), StoreDelete(s, p)) <==>
              !Effective(p) || forall x | x in slots && Flat(x.path) == Flat(p) :: x.path == p
  {
    PurgedHas(slots, p);
    var s' := StoreDelete(s, p);
    if x :| Effective(p) && x in slots && Flat(x.path) == Flat(p) && x.path != p {
      assert x in Purged(slots, p) && StoreFind(s', x.path) == None;
    }
  }

  lemma {:induction false} BatchFinds(s: Store, ops: seq<BatchOp>, p: Path)
    requires Effective(p)
    ensures StoreFind(ApplyBatch(s, ops), p) ==
              if LastWrite(ops, Flat(p)).Some? then LastWrite(ops, Flat(p)).value else StoreFind(s, p)
  {
    if ops != [] { BatchFinds(s, ops[..|ops| - 1], p); }
  }

  /** A batch keeps it exactly when, at the place of every path that stays cached, it leaves what
      was there or the cached value. */
  lemma BatchAgreesIff(slots: seq<Slot>, s: Store, ops: seq<BatchOp>)
    requires Agree(slots, s)
    ensures Agree(PurgedAll(slots, ops), ApplyBatch(s, ops)) <==>
              forall x | x in PurgedAll(slots, ops) :: LastWrite(ops, Flat(x.path)) == None || LastWrite(ops, Flat(x.path)) == Some(Some(x.value))
  {
    PurgedAllIn(slots, ops);
    forall x | x in PurgedAll(slots, ops)
      ensures StoreFind(ApplyBatch(s, ops), x.path) == Some(x.value) <==>
                LastWrite(ops, Flat(x.path)) == None || LastWrite(ops, Flat(x.path)) == Some(Some(x.value))
    {
      BatchFinds(s, ops, x.path);
    }
  }

  lemma GetAgrees(s: State, p: Path, env: Env, budget: nat)
    requires Agree(s.slots, s.store)
    ensures Agree(After(s, GetOp(p), env, budget).slots, s.store)
  {
    PurgedHas(s.slots, p);
    if Find(s.slots, p).None? && StoreFind(s.store, p).Some? {
      var v := StoreFind(s.store, p).value;
      var size := env.sizeOf(p, v);
      KeptIn(s.slots, p, size, budget);
      PutAgreesIff(Kept(s.slots, p, size, budget), s.store, p, v, size);
      assert StorePut(s.store, p, v) == s.store;
    }
  }

  /** One operation, whatever it is: agreement is kept exactly when the operation is harmless. */
  lemma StepAgreesIff(s: State, op: Op, env: Env, budget: nat)
    requires Agree(s.slots, s.store)
    ensures Agree(After(s, op, env, budget).slots, After(s, op, env, budget).store) <==> Harmless(s, op, env, budget)
  {
    hide Agree, Kept, Purged, PurgedAll, PutFits, Effective, StorePut, StoreDelete, Incremented, LastWrite;
    match op {
      case PutOp(p, v) => StoredAgrees(s, p, v, env, budget);
      case GetOp(p) => GetAgrees(s, p, env, budget);
      case DeleteOp(p) => DeleteAgreesIff(s.slots, s.store, p);
      case IncrementOp(p, d) => StoredAgrees(s, p, Incremented(s.store, p, d, env), env, budget);
      case BatchOps(ops) => BatchAgreesIff(s.slots, s.store, ops);
    }
  }

  lemma StoredAgrees(s: State, p: Path, v: Bytes, env: Env, budget: nat)
    requires Agree(s.slots, s.store)
    ensures Agree(CachedPut(s.slots, p, v, env, budget), StorePut(s.store, p, v)) <==> PutFits(Kept(s.slots, p, env.sizeOf(p, v), budget), p, v)
  {
    var size := env.sizeOf(p, v);
    KeptIn(s.slots, p, size, budget);
    PutAgreesIff(Kept(s.slots, p, size, budget), s.store, p, v, size);
  }

  /** While cache and store agree, every reply is the store's own answer. */
  lemma ReplyIsAnswer(s: State, op: Op, env: Env)
    requires Agree(s.slots, s.store)
    ensures Reply(s, op, env) == Answer(s.store, op, env)
  {
    if op.GetOp? { FindIn(s.slots, op.path); }
  }

  // ---------------------------------------------------------------- counters

  /** Printed numbers are read back. */
  ghost predicate Numeric(env: Env) {
    forall n :: env.format(n) != [] && env.parse(env.format(n)) == n
  }

  /** The number kept at a place; nothing and the empty value count as 0. */
  ghost function NumberAt(s: Store, k: Ident, env: Env): int {
    if k in s && s[k] != [] then env.parse(s[k]) else 0
  }

  /** Nothing changes at other places. */
  ghost predicate OthersKeep(s: Store, t: Store, k: Ident) {
    forall j | j != k :: (j in t <==> j in s) && (j in s ==> t[j] == s[j])
  }

  /** An increment adds delta to the number at the path's place, returns the sum and touches nothing
      else; on a path the trie does not take it counts from 0 and stores nothing. */
  lemma IncrementAdds(s: Store, p: Path, delta: int, env: Env)
    requires Numeric(env)
    ensures var t := StorePut(s, p, Incremented(s, p, delta, env));
            if Effective(p) then
              && NumberAt(t, Flat(p), env) == NumberAt(s, Flat(p), env) + delta && OthersKeep(s, t, Flat(p))
              && Incremented(s, p, delta, env) == env.format(NumberAt(s, Flat(p), env) + delta)
            else t == s && Incremented(s, p, delta, env) == env.format(delta)
  {
    var n := NumberAt(s, Flat(p), env) + delta;
    assert env.format(n) != [] && env.parse(env.format(n)) == n;
  }

  lemma IncrementIsPut(s: State, p: Path, delta: int, env: Env, budget: nat)
    ensures var op, v := IncrementOp(p, delta), Incremented(s.store, p, delta, env);
            && After(s, op, env, budget) == After(s, PutOp(p, v), env, budget)
            && Harmless(s, op, env, budget) == Harmless(s, PutOp(p, v), env, budget)
            && (Numeric(env) && Effective(p) ==>
                  var t := After(s, op, env, budget).store;
                  && NumberAt(t, Flat(p), env) == NumberAt(s.store, Flat(p), env) + delta && OthersKeep(s.store, t, Flat(p))
                  && v == env.format(NumberAt(s.store, Flat(p), env) + delta))
  {
    if Numeric(env) { IncrementAdds(s.store, p, delta, env); }
    hide Incremented, Numeric, NumberAt, OthersKeep, Kept, PutFits, StorePut, CachedPut;
  }

  /** The operation writes nothing at place k. */
  ghost predicate Spares(op: Op, k: Ident) {
    match op
    case GetOp(_) => true
    case BatchOps(ops) => LastWrite(ops, k) == None
    case _ => Effective(op.path) ==> Flat(op.path) != k
  }

  ghost predicate Counts(op: Op, k: Ident) {
    op.IncrementOp? && Effective(op.path) && Flat(op.path) == k
  }

  ghost function Added(ops: seq<Op>, k: Ident): int {
    if ops == [] then 0
    else Added(ops[..|ops| - 1], k) + if Counts(ops[|ops| - 1], k) then ops[|ops| - 1].delta else 0
  }

  lemma {:induction false} BatchSpares(s: Store, ops: seq<BatchOp>, k: Ident)
    requires LastWrite(ops, k) == None
    ensures var t := ApplyBatch(s, ops); (k in t <==> k in s) && (k in s ==> t[k] == s[k])
  {
    if ops != [] { BatchSpares(s, ops[..|ops| - 1], k); }
  }

  /** Over any run in which only increments write at a place, its number grows by the sum of their
      deltas: no increment is lost, whatever else runs between them. */
  lemma {:induction false} CounterSum(s: Store, ops: seq<Op>, k: Ident, env: Env)
    requires Numeric(env) && forall i | 0 <= i < |ops| :: Counts(ops[i], k) || Spares(ops[i], k)
    ensures NumberAt(ApplyAll(s, ops, env), k, env) == NumberAt(s, k, env) + Added(ops, k)
  {
    if ops != [] {
      var before, op := ApplyAll(s, ops[..|ops| - 1], env), ops[|ops| - 1];
      CounterSum(s, ops[..|ops| - 1], k, env);
      if op.IncrementOp? {
        IncrementAdds(before, op.path, op.delta, env);
      } else if op.BatchOps? {
        BatchSpares(before, op.ops, k);
      }
    }
  }

  // ---------------------------------------------------------------- reading back

  /** Whatever is cached and whatever shares the place: what is put at a path is read there next, a
      deleted path reads as absent, an increment reads as the number it returned. */
  lemma ReadYourWrite(s: State, p: Path, v: Bytes, delta: int, env: Env, budget: nat)
    ensures Reply(After(s, PutOp(p, v), env, budget), GetOp(p), env) == Some(v)
    ensures Reply(After(s, DeleteOp(p), env, budget), GetOp(p), env) == None
    ensures Reply(After(s, IncrementOp(p, delta), env, budget), GetOp(p), env) == Reply(s, IncrementOp(p, delta), env)
  {
    PurgedHas(s.slots, p);
    FindIn(Purged(s.slots, p), p);
  }

  /** The last operation of a batch on a path's place is what is read there next. */
  lemma ReadYourBatch(s: State, ops: seq<BatchOp>, i: nat, env: Env, budget: nat)
    requires i < |ops| && Effective(ops[i].path)
    requires forall j | i < j < |ops| :: Effective(ops[j].path) ==> Flat(ops[j].path) != Flat(ops[i].path)
    ensures Reply(After(s, BatchOps(ops), env, budget), GetOp(ops[i].path), env) == if ops[i].BatchPut? then Some(ops[i].value) else None
  {
    var p := ops[i].path;
    LastIs(ops, i);
    BatchFinds(s.store, ops, p);
    PurgedOf(s.slots, ops, i);
    FindIn(PurgedAll(s.slots, ops), p);
  }

  lemma {:induction false} LastIs(ops: seq<BatchOp>, i: nat)
    requires i < |ops| && Effective(ops[i].path)
    requires forall j | i < j < |ops| :: Effective(ops[j].path) ==> Flat(ops[j].path) != Flat(ops[i].path)
    ensures LastWrite(ops, Flat(ops[i].path)) == Some(if ops[i].BatchPut? then Some(ops[i].value) else None)
  {
    if i < |ops| - 1 { LastIs(ops[..|ops| - 1], i); }
  }

  lemma {:induction false} PurgedOf(slots: seq<Slot>, ops: seq<BatchOp>, i: nat)
    requires i < |ops|
    ensures forall x | x in PurgedAll(slots, ops) :: x.path != ops[i].path
  {
    var rest := ops[..|ops| - 1];
    PurgedHas(PurgedAll(slots, rest), ops[|ops| - 1].path);
    if i < |ops| - 1 { PurgedOf(slots, rest, i); }
  }

  // ---------------------------------------------------------------- in place

  class Db {
    var store: Store
    const lru: Shard
    const env: Env

    ghost function Now(): State
      reads this, lru
    {
      State(lru.slots, store)
    }

    ghost predicate Agrees()
      reads this, lru
    {
      Agree(lru.slots, store)
    }

    constructor (budget: nat, env: Env)
      ensures fresh(lru) && fresh(lru.spine) && lru.Valid() && Now() == State([], map[]) && this.env == env && lru.budget == budget
    {
      store := map[];
      lru := new Shard(budget);
      this.env := env;
    }

    lemma DistinctSlots()
      requires lru.Valid()
      ensures DistinctPaths(lru.slots)
    {
      SlotPaths(lru.spine, lru.slots);
    }

    method CachePut(p: Path, v: Bytes)
      requires lru.Valid()
      modifies lru, lru.spine
      ensures lru.Valid() && lru.slots == CachedPut(old(lru.slots), p, v, env, lru.budget)
      ensures forall n | n in lru.spine && n !in old(lru.spine) :: fresh(n)
    {
      hide Find, Trimmed, Without, Purged, Shard.Valid;
      DistinctSlots();
      ghost var before := lru.slots;
      var displaced := lru.Put(p, v, env.sizeOf(p, v));
      if displaced.Some? {
        ghost var at :| 0 <= at < |before| && before[at].path == p && lru.slots == [Slot(p, v, env.sizeOf(p, v))] + Without(before, at);
        PurgedIs(before, at);
      }
    }

    method CacheDelete(p: Path)
      requires lru.Valid()
      modifies lru, lru.spine
      ensures lru.Valid() && lru.slots == Purged(old(lru.slots), p)
      ensures forall i | 0 <= i < |lru.spine| :: lru.spine[i] in old(lru.spine)
    {
      hide Find, Without, Purged, Shard.Valid;
      DistinctSlots();
      ghost var before := lru.slots;
      FindIn(before, p);
      lru.Delete(p);
      if Find(before, p).Some? {
        ghost var at :| 0 <= at < |before| && before[at].path == p && lru.slots == Without(before, at);
        PurgedIs(before, at);
      } else {
        PurgedNone(before, p);
      }
    }

    /** database_put_sync: trie first, then cache. */
    method Put(p: Path, v: Bytes)
      requires lru.Valid()
      modifies this, lru, lru.spine
      ensures lru.Valid() && Now() == After(old(Now()), PutOp(p, v), env, lru.budget)
      ensures old(Agrees()) ==> (Agrees() <==> Harmless(old(Now()), PutOp(p, v), env, lru.budget))
      ensures forall n | n in lru.spine && n !in old(lru.spine) :: fresh(n)
    {
      hide Agree, StorePut, CachedPut, Harmless, Shard.Valid;
      ghost var was := Now();
      store := StorePut(store, p, v);
      CachePut(p, v);
      if Agree(was.slots, was.store) { StepAgreesIff(was, PutOp(p, v), env, lru.budget); }
    }

    /** database_get_sync: cache first, then trie; what the trie has is cached. */
    method Get(p: Path) returns (value: Option<Bytes>)
      requires lru.Valid()
      modifies lru, lru.spine
      ensures lru.Valid() && Now() == After(old(Now()), GetOp(p), env, lru.budget)
      ensures value == Reply(old(Now()), GetOp(p), env)
      ensures old(Agrees()) ==> Agrees() && value == StoreFind(store, p)
      ensures forall n | n in lru.spine && n !in old(lru.spine) :: fresh(n)
    {
      hide Agree, StoreFind, CachedPut, Find, Without, Purged, SlotOf, Shard.Valid;
      DistinctSlots();
      ghost var was := Now();
      if Agree(was.slots, was.store) {
        StepAgreesIff(was, GetOp(p), env, lru.budget);
        ReplyIsAnswer(was, GetOp(p), env);
      }
      value := lru.Get(p);
      if value.Some? {
        ghost var at :| 0 <= at < |was.slots| && was.slots[at].path == p && lru.slots == [was.slots[at]] + Without(was.slots, at);
        PurgedIs(was.slots, at);
        OnePath(was.slots, was.slots[at], SlotOf(was.slots, p));
        return;
      }
      value := StoreFind(store, p);
      if value.Some? { CachePut(p, value.value); }
    }

    /** database_delete_sync. */
    method Delete(p: Path)
      requires lru.Valid()
      modifies this, lru, lru.spine
      ensures lru.Valid() && Now() == After(old(Now()), DeleteOp(p), env, lru.budget)
      ensures old(Agrees()) ==> (Agrees() <==> Harmless(old(Now()), DeleteOp(p), env, lru.budget))
      ensures forall i | 0 <= i < |lru.spine| :: lru.spine[i] in old(lru.spine)
    {
      hide Agree, StoreDelete, Purged, Harmless, Shard.Valid;
      ghost var was := Now();
      store := StoreDelete(store, p);
      CacheDelete(p);
      if Agree(was.slots, was.store) { StepAgreesIff(was, DeleteOp(p), env, lru.budget); }
    }

    /** database_increment_sync: reads the trie, not the cache. */
    method Increment(p: Path, delta: int) returns (value: Bytes)
      requires lru.Valid()
      modifies this, lru, lru.spine
      ensures lru.Valid() && value == Incremented(old(store), p, delta, env)
      ensures Now() == After(old(Now()), IncrementOp(p, delta), env, lru.budget)
      ensures Numeric(env) && Effective(p) ==>
                && NumberAt(store, Flat(p), env) == NumberAt(old(store), Flat(p), env) + delta && OthersKeep(old(store), store, Flat(p))
                && value == env.format(NumberAt(old(store), Flat(p), env) + delta)
      ensures old(Agrees()) ==> (Agrees() <==> Harmless(old(Now()), IncrementOp(p, delta), env, lru.budget))
      ensures forall n | n in lru.spine && n !in old(lru.spine) :: fresh(n)
    {
      hide Agree, Incremented, After, Harmless, Shard.Valid, Numeric, NumberAt, OthersKeep, Effective, Flat, Agrees;
      IncrementIsPut(Now(), p, delta, env, lru.budget);
      value := Incremented(store, p, delta, env);
      Put(p, value);
    }

    /** The sync-only branch of a batch: each operation also drops its path from the cache. */
    method Batch(ops: seq<BatchOp>)
      requires lru.Valid()
      modifies this, lru, lru.spine
      ensures lru.Valid() && Now() == After(old(Now()), BatchOps(ops), env, lru.budget)
      ensures old(Agrees()) ==> (Agrees() <==> Harmless(old(Now()), BatchOps(ops), env, lru.budget))
      ensures forall i | 0 <= i < |lru.spine| :: lru.spine[i] in old(lru.spine)
    {
      hide Agree, StorePut, StoreDelete, Purged, Harmless, Shard.Valid;
      ghost var all, was := lru.spine, Now();
      var i := 0;
      while i < |ops|
        invariant 0 <= i <= |ops| && lru.Valid() && lru.slots == PurgedAll(was.slots, ops[..i]) && store == ApplyBatch(was.store, ops[..i])
        invariant forall j | 0 <= j < |lru.spine| :: lru.spine[j] in all
      {
        assert ops[..i + 1][..i] == ops[..i];
        ghost var before := lru.spine;
        match ops[i] {
          case BatchPut(p, v) => store := StorePut(store, p, v);
          case BatchDelete(p) => store := StoreDelete(store, p);
        }
        CacheDelete(ops[i].path);
        assert forall j | 0 <= j < |lru.spine| :: lru.spine[j] in before;
        i := i + 1;
      }
      assert ops[..i] == ops;
      if Agree(was.slots, was.store) { StepAgreesIff(was, BatchOps(ops), env, lru.budget); }
    }

    method Step(op: Op) returns (answer: Option<Bytes>)
      requires lru.Valid()
      modifies this, lru, lru.spine
      ensures lru.Valid() && Now() == After(old(Now()), op, env, lru.budget) && answer == Reply(old(Now()), op, env)
      ensures forall n | n in lru.spine && n !in old(lru.spine) :: fresh(n)
    {
      hide Agree, After, Harmless, StorePut, StoreDelete, Incremented, Shard.Valid;
      answer := None;
      match op {
        case PutOp(p, v) => Put(p, v);
        case GetOp(p) => answer := Get(p);
        case DeleteOp(p) => Delete(p);
        case IncrementOp(p, d) =>
          var v := Increment(p, d);
          answer := Some(v);
        case BatchOps(ops) => Batch(ops);
      }
    }
  }

  lemma {:induction false} PurgedNone(slots: seq<Slot>, p: Path)
    requires forall x | x in slots :: x.path != p
    ensures Purged(slots, p) == slots
  {
    if slots != [] { PurgedNone(slots[1..], p); }
  }

  lemma {:induction false} PurgedIs(slots: seq<Slot>, at: nat)
    requires at < |slots| && DistinctPaths(slots)
    ensures Purged(slots, slots[at].path) == Without(slots, at)
  {
    var p := slots[at].path;
    if at == 0 {
      PurgedNone(slots[1..], p);
    } else {
      PurgedIs(slots[1..], at - 1);
      assert Without(slots, at) == [slots[0]] + Without(slots[1..], at - 1);
    }
  }

  // ---------------------------------------------------------------- whole runs

  ghost function RunFrom(s: State, ops: seq<Op>, env: Env, budget: nat): State {
    if ops == [] then s else After(RunFrom(s, ops[..|ops| - 1], env, budget), ops[|ops| - 1], env, budget)
  }

  /** The state after the first n operations from an empty start. */
  ghost function At(ops: seq<Op>, n: nat, env: Env, budget: nat): State
    requires n <= |ops|
  {
    RunFrom(State([], map[]), ops[..n], env, budget)
  }

  lemma AtNext(ops: seq<Op>, n: nat, env: Env, budget: nat)
    requires n < |ops|
    ensures At(ops, n + 1, env, budget) == After(At(ops, n, env, budget), ops[n], env, budget)
  {
    assert ops[..n + 1][..n] == ops[..n];
  }

  /** Over every run, whatever is evicted: cache and store agree throughout exactly when every
      operation of the run is harmless where it is applied. */
  lemma RunAgreesIff(ops: seq<Op>, env: Env, budget: nat)
    ensures (forall n | 0 <= n <= |ops| :: Agree(At(ops, n, env, budget).slots, At(ops, n, env, budget).store)) <==>
              (forall n | 0 <= n < |ops| :: Harmless(At(ops, n, env, budget), ops[n], env, budget))
  {
    hide After, Harmless, Agree;
    if forall n | 0 <= n <= |ops| :: Agree(At(ops, n, env, budget).slots, At(ops, n, env, budget).store) {
      forall n | 0 <= n < |ops| ensures Harmless(At(ops, n, env, budget), ops[n], env, budget) {
        AtNext(ops, n, env, budget);
        StepAgreesIff(At(ops, n, env, budget), ops[n], env, budget);
        assert Agree(At(ops, n + 1, env, budget).slots, At(ops, n + 1, env, budget).store);
      }
    }
    if forall n | 0 <= n < |ops| :: Harmless(At(ops, n, env, budget), ops[n], env, budget) {
      forall n | 0 <= n <= |ops| ensures Agree(At(ops, n, env, budget).slots, At(ops, n, env, budget).store) {
        HarmlessAgrees(ops, n, env, budget);
      }
    }
  }

  lemma {:induction false} HarmlessAgrees(ops: seq<Op>, n: nat, env: Env, budget: nat)
    requires n <= |ops| && forall i | 0 <= i < n :: Harmless(At(ops, i, env, budget), ops[i], env, budget)
    ensures Agree(At(ops, n, env, budget).slots, At(ops, n, env, budget).store)
    decreases n
  {
    if n > 0 {
      hide After, Harmless, Agree;
      HarmlessAgrees(ops, n - 1, env, budget);
      AtNext(ops, n - 1, env, budget);
      StepAgreesIff(At(ops, n - 1, env, budget), ops[n - 1], env, budget);
    }
  }

  function ApplyAll(s: Store, ops: seq<Op>, env: Env): Store {
    if ops == [] then s else Apply(ApplyAll(s, ops[..|ops| - 1], env), ops[|ops| - 1], env)
  }

  /** The store goes its own way, whatever is cached. */
  lemma {:induction false} StoreAlone(s: State, ops: seq<Op>, env: Env, budget: nat)
    ensures RunFrom(s, ops, env, budget).store == ApplyAll(s.store, ops, env)
  {
    if ops != [] { StoreAlone(s, ops[..|ops| - 1], env, budget); }
  }

  /** Any run from an empty database: each reply, and the state at the end. While all operations are
      harmless each reply is the one the bare store would give. */
  method Run(budget: nat, env: Env, ops: seq<Op>) returns (db: Db, answers: seq<Option<Bytes>>)
    ensures db.lru.Valid() && db.Now() == At(ops, |ops|, env, budget) && db.store == ApplyAll(map[], ops, env)
    ensures |answers| == |ops| && forall n | 0 <= n < |ops| :: answers[n] == Reply(At(ops, n, env, budget), ops[n], env)
    ensures (forall n | 0 <= n < |ops| :: Harmless(At(ops, n, env, budget), ops[n], env, budget)) ==>
              db.Agrees() && forall n | 0 <= n < |ops| :: answers[n] == Answer(ApplyAll(map[], ops[..n], env), ops[n], env)
  {
    hide After, Reply, Answer, Harmless, Agree, Shard.Valid;
    db := new Db(budget, env);
    answers := [];
    var i := 0;
    while i < |ops|
      invariant 0 <= i <= |ops| && fresh(db) && fresh(db.lru) && (forall j | 0 <= j < |db.lru.spine| :: fresh(db.lru.spine[j]))
      invariant db.lru.Valid() && db.env == env && db.lru.budget == budget && db.Now() == At(ops, i, env, budget)
      invariant |answers| == i && forall n | 0 <= n < i :: answers[n] == Reply(At(ops, n, env, budget), ops[n], env)
    {
      AtNext(ops, i, env, budget);
      var a := db.Step(ops[i]);
      assert forall j | 0 <= j < |db.lru.spine| :: db.lru.spine[j] in db.lru.spine;
      answers := answers + [a];
      i := i + 1;
    }
    assert ops[..i] == ops;
    StoreAlone(State([], map[]), ops, env, budget);
    if forall n | 0 <= n < |ops| :: Harmless(At(ops, n, env, budget), ops[n], env, budget) {
      RunAgreesIff(ops, env, budget);
      forall n | 0 <= n < |ops| ensures answers[n] == Answer(ApplyAll(map[], ops[..n], env), ops[n], env) {
        StoreAlone(State([], map[]), ops[..n], env, budget);
        ReplyIsAnswer(At(ops, n, env, budget), ops[n], env);
      }
    }
  }

  // ---------------------------------------------------------------- paths the store can tell apart

  ghost predicate Separate(paths: iset<Path>) {
    && (forall p | p in paths :: Effective(p))
    && (forall p, q | p in paths && q in paths && Flat(p) == Flat(q) :: p == q)
  }

  ghost predicate Within(slots: seq<Slot>, paths: iset<Path>) {
    forall x | x in slots :: x.path in paths
  }

  ghost predicate Uses(op: Op, paths: iset<Path>) {
    match op
    case BatchOps(ops) => forall i | 0 <= i < |ops| :: ops[i].path in paths
    case _ => op.path in paths
  }

  lemma {:induction false} BatchTouchesOwn(slots: seq<Slot>, ops: seq<BatchOp>, paths: iset<Path>, x: Slot)
    requires Separate(paths) && (forall i | 0 <= i < |ops| :: ops[i].path in paths) && x.path in paths && x in PurgedAll(slots, ops)
    ensures LastWrite(ops, Flat(x.path)) == None
  {
    if ops != [] {
      var rest := ops[..|ops| - 1];
      PurgedHas(PurgedAll(slots, rest), ops[|ops| - 1].path);
      BatchTouchesOwn(slots, rest, paths, x);
    }
  }

  lemma SeparateHarmless(s: State, op: Op, env: Env, budget: nat, paths: iset<Path>)
    requires Separate(paths) && Within(s.slots, paths) && Uses(op, paths)
    ensures Harmless(s, op, env, budget) && Within(After(s, op, env, budget).slots, paths)
  {
    hide Kept, Purged, PurgedAll, Trimmed, Find, LastWrite, StoreFind, Incremented;
    match op {
      case PutOp(p, v) => KeptIn(s.slots, p, env.sizeOf(p, v), budget);
      case GetOp(p) =>
        PurgedHas(s.slots, p);
        if StoreFind(s.store, p).Some? { KeptIn(s.slots, p, env.sizeOf(p, StoreFind(s.store, p).value), budget); }
      case DeleteOp(p) => PurgedHas(s.slots, p);
      case IncrementOp(p, d) =>
        var v := Incremented(s.store, p, d, env);
        KeptIn(s.slots, p, env.sizeOf(p, v), budget);
      case BatchOps(ops) =>
        PurgedAllIn(s.slots, ops);
        forall x | x in PurgedAll(s.slots, ops) ensures LastWrite(ops, Flat(x.path)) == None { BatchTouchesOwn(s.slots, ops, paths, x); }
    }
  }

  /** On paths that the trie takes and tells apart, every run is harmless. */
  lemma {:induction false} SeparateRun(ops: seq<Op>, n: nat, env: Env, budget: nat, paths: iset<Path>)
    requires Separate(paths) && n <= |ops| && forall i | 0 <= i < |ops| :: Uses(ops[i], paths)
    ensures Within(At(ops, n, env, budget).slots, paths)
    ensures n < |ops| ==> Harmless(At(ops, n, env, budget), ops[n], env, budget)
    decreases n
  {
    hide After, Harmless, Separate, Uses;
    if n > 0 {
      SeparateRun(ops, n - 1, env, budget, paths);
      AtNext(ops, n - 1, env, budget);
      SeparateHarmless(At(ops, n - 1, env, budget), ops[n - 1], env, budget, paths);
    }
    if n < |ops| { SeparateHarmless(At(ops, n, env, budget), ops[n], env, budget, paths); }
  }

  /** Put one path, then another that shares its place: if both fit into the cache, the first is
      still answered with its old value, which the store no longer has. */
  lemma StaleAnswer(p: Path, q: Path, v: Bytes, w: Bytes, env: Env, budget: nat)
    requires p != q && Effective(p) && Effective(q) && Flat(p) == Flat(q) && env.sizeOf(p, v) + env.sizeOf(q, w) <= budget
    ensures var s := At([PutOp(p, v), PutOp(q, w)], 2, env, budget);
            Reply(s, GetOp(p), env) == Some(v) && Answer(s.store, GetOp(p), env) == Some(w)
  {
    var ops := [PutOp(p, v), PutOp(q, w)];
    var first, second := Slot(p, v, env.sizeOf(p, v)), Slot(q, w, env.sizeOf(q, w));
    AtNext(ops, 0, env, budget);
    AtNext(ops, 1, env, budget);
    assert At(ops, 0, env, budget) == State([], map[]);
    assert At(ops, 1, env, budget).slots == [first] + [] == [first];
    SumOne(first);
    assert [first][1..] == [];
    assert Find([first][1..], q) == None;
    assert Kept([first], q, second.size, budget) == [first];
    assert At(ops, 2, env, budget).slots == [second] + [first];
    assert ([second] + [first])[1..] == [first] && ([second] + [first])[0] == second;
    assert Find([first], p) == Some(v);
    assert Find([second] + [first], p) == Some(v);
  }

  /** Such paths exist: "a", "b" and "ab". */
  lemma SharedPlaceExample()
    ensures exists ops, p, env, budget ::
              var s := At(ops, |ops|, env, budget);
              Reply(s, GetOp(p), env).Some? && Answer(s.store, GetOp(p), env).Some? && Reply(s, GetOp(p), env) != Answer(s.store, GetOp(p), env)
  {
    ClashExample();
    var p, q :| Solid(p) && Solid(q) && Clash(p, q) && p != q && Flat(p) == Flat(q);
    assert Effective(p) && Effective(q);
    var env := Env(x => 0, n => [], (x, v) => 1);
    hide RunFrom, After, Reply, Answer;
    StaleAnswer(p, q, [1], [2], env, 2);
    var ops := [PutOp(p, [1]), PutOp(q, [2])];
    assert |ops| == 2;
  }
}
