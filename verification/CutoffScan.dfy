/**
 The scan of recompute_global_min as it runs, shard by shard and without a lock, while other threads
 begin, commit and abort transactions. Each of those is one step, as is the look at one shard; that a
 shard's minimum is right between them is proved of the transaction manager.
 */
module CutoffScan {
  import opened Common
  import opened TxManager

  /** `next` is the shard to be looked at, `found` the least id met so far. `late` are the active
      transactions that began in a shard after the scan had passed it; the code keeps no such set. */
  datatype State = State(active: set<TxnId>, newest: TxnId, last: TxnId, next: nat, found: TxnId, late: set<TxnId>)

  datatype Action = Begin(id: TxnId) | Commit(id: TxnId) | Abort(id: TxnId) | Look

  ghost function InShard(active: set<TxnId>, s: nat): set<TxnId> {
    set id | id in active && ShardOf(id) == s
  }

  ghost predicate LeastOf(m: TxnId, ids: set<TxnId>) {
    if ids == {} then m == SENTINEL_TXN else m in ids && forall id | id in ids :: m.AtMost(id)
  }

  function Smaller(a: TxnId, b: TxnId): TxnId { if b.Less(a) then b else a }

  ghost predicate Step(s: State, a: Action, s': State) {
    match a
    case Begin(id) =>
      && s.newest.Less(id) && id.Less(SENTINEL_TXN)
      && s' == s.(active := s.active + {id}, newest := id, late := if ShardOf(id) < s.next then s.late + {id} else s.late)
    case Commit(id) =>
      id in s.active && s' == s.(active := s.active - {id}, late := s.late - {id}, last := if s.last.Less(id) then id else s.last)
    case Abort(id) => id in s.active && s' == s.(active := s.active - {id}, late := s.late - {id})
    case Look =>
      s.next < SHARDS && exists m :: LeastOf(m, InShard(s.active, s.next)) && s' == s.(next := s.next + 1, found := Smaller(s.found, m))
  }

  /** A scan that is about to begin, whatever is active. */
  ghost predicate Ready(s: State) {
    && s.next == 0 && s.found == SENTINEL_TXN && s.late == {} && s.last.AtMost(s.newest) && s.newest.Less(SENTINEL_TXN)
    && forall id | id in s.active :: id.AtMost(s.newest)
  }

  ghost predicate Run(states: seq<State>, acts: seq<Action>) {
    |states| == |acts| + 1 && Ready(states[0]) && forall i | 0 <= i < |acts| :: Step(states[i], acts[i], states[i + 1])
  }

  /** What the scan stores as the cutoff when it is through. */
  function Cutoff(s: State): TxnId {
    if s.found == SENTINEL_TXN then s.last else s.found
  }

  ghost predicate Safe(s: State) {
    forall id | id in s.active :: Cutoff(s).AtMost(id)
  }

  /** Whatever is active in a shard that was passed is not below what was found, or came later. */
  ghost predicate Inv(s: State) {
    && s.late <= s.active && s.last.AtMost(s.newest) && s.newest.Less(SENTINEL_TXN) && s.next <= SHARDS
    && (forall id | id in s.active :: id.AtMost(s.newest))
    && (forall id | id in s.active && id !in s.late && ShardOf(id) < s.next :: s.found.AtMost(id))
    && (s.found == SENTINEL_TXN || s.found.AtMost(s.newest))
  }

  lemma TxnOrder()
    ensures forall a: TxnId, b: TxnId :: a.Less(b) || a == b || b.Less(a)
    ensures forall a: TxnId, b: TxnId :: a.Less(b) ==> !b.Less(a) && a != b
    ensures forall a: TxnId, b: TxnId, c: TxnId :: a.Less(b) && b.Less(c) ==> a.Less(c)
  {
  }

  lemma LookKeeps(s: State, s': State)
    requires Inv(s) && Step(s, Look, s')
    ensures Inv(s')
  {
    TxnOrder();
    var m :| LeastOf(m, InShard(s.active, s.next)) && s' == s.(next := s.next + 1, found := Smaller(s.found, m));
    hide TxnId.Less;
    forall id | id in s'.active && id !in s'.late && ShardOf(id) < s'.next ensures s'.found.AtMost(id) {
      if ShardOf(id) == s.next { assert id in InShard(s.active, s.next); }
    }
    if m != SENTINEL_TXN { assert m in InShard(s.active, s.next); }
  }

  lemma StepKeeps(s: State, a: Action, s': State)
    requires Inv(s) && Step(s, a, s')
    ensures Inv(s')
  {
    if a.Look? {
      LookKeeps(s, s');
    } else {
      TxnOrder();
      hide TxnId.Less;
    }
  }

  lemma {:induction false} RunKeeps(states: seq<State>, acts: seq<Action>, i: nat)
    requires Run(states, acts) && i < |states|
    ensures Inv(states[i])
  {
    hide Step, Inv;
    if i == 0 {
      assert Inv(states[0]) by { ReadyInv(states[0]); }
    } else {
      RunKeeps(states, acts, i - 1);
      StepKeeps(states[i - 1], acts[i - 1], states[i]);
    }
  }

  lemma ReadyInv(s: State)
    requires Ready(s)
    ensures Inv(s)
  {
  }

  /** Under every interleaving: once the scan is through, the cutoff is at or below every active id
      if and only if it is at or below those that began behind the scan's back. */
  lemma ScanSafeIff(states: seq<State>, acts: seq<Action>, i: nat)
    requires Run(states, acts) && i < |states| && states[i].next == SHARDS
    ensures Safe(states[i]) <==> forall id | id in states[i].late :: Cutoff(states[i]).AtMost(id)
  {
    RunKeeps(states, acts, i);
    var s := states[i];
    forall id | id in s.active && id !in s.late ensures Cutoff(s).AtMost(id) {
      assert ShardOf(id) < SHARDS && s.found.AtMost(id) && id.AtMost(s.newest);
      TxnOrder();
    }
  }

  // ---------------------------------------------------------------- the schedules that are safe

  /** x was the least active id of the shard looked at in one of the first i steps. */
  ghost predicate Met(states: seq<State>, acts: seq<Action>, i: nat, x: TxnId) {
    exists k :: 0 <= k < i && MetAt(states, acts, k, x)
  }

  ghost predicate MetAt(states: seq<State>, acts: seq<Action>, k: nat, x: TxnId) {
    && k < |acts| && k < |states| && acts[k].Look? && x in InShard(states[k].active, states[k].next)
    && LeastOf(x, InShard(states[k].active, states[k].next))
  }

  /** id began in one of the first i steps, in a shard the scan had passed, and is still active. */
  ghost predicate BeganBehind(states: seq<State>, acts: seq<Action>, i: nat, id: TxnId)
    requires i < |states|
  {
    id in states[i].active && exists k :: 0 <= k < i && LateAt(states, acts, k, id)
  }

  ghost predicate LateAt(states: seq<State>, acts: seq<Action>, k: nat, id: TxnId) {
    k < |acts| && k < |states| && acts[k] == Begin(id) && ShardOf(id) < states[k].next
  }

  /** An id above this one was committed in one of the first i steps. */
  ghost predicate CommittedAbove(acts: seq<Action>, i: nat, id: TxnId) {
    exists k :: 0 <= k < i && k < |acts| && acts[k].Commit? && id.Less(acts[k].id)
  }

  /** What began behind the scan is newer than everything there was when it started. */
  lemma {:induction false} LateIsNew(states: seq<State>, acts: seq<Action>, i: nat)
    requires Run(states, acts) && i < |states|
    ensures states[0].newest.AtMost(states[i].newest) && forall id | id in states[i].late :: states[0].newest.Less(id)
  {
    if i > 0 {
      LateIsNew(states, acts, i - 1);
      assert Step(states[i - 1], acts[i - 1], states[i]);
      TxnOrder();
      hide TxnId.Less;
    }
  }

  lemma {:induction false} BegunIsOld(states: seq<State>, acts: seq<Action>, i: nat, k: nat, id: TxnId)
    requires Run(states, acts) && k < i < |states| && LateAt(states, acts, k, id)
    ensures id.AtMost(states[i].newest)
    decreases i
  {
    assert Step(states[i - 1], acts[i - 1], states[i]);
    TxnOrder();
    hide TxnId.Less;
    if k < i - 1 { BegunIsOld(states, acts, i - 1, k, id); }
  }

  /** The set `late` is a fact about the schedule. */
  lemma {:induction false} LateIs(states: seq<State>, acts: seq<Action>, i: nat, id: TxnId)
    requires Run(states, acts) && i < |states|
    ensures id in states[i].late <==> BeganBehind(states, acts, i, id)
  {
    if i > 0 {
      LateIs(states, acts, i - 1, id);
      LateStep(states, acts, i, id);
    }
  }

  lemma LateStep(states: seq<State>, acts: seq<Action>, i: nat, id: TxnId)
    requires Run(states, acts) && 0 < i < |states|
    requires id in states[i - 1].late <==> BeganBehind(states, acts, i - 1, id)
    ensures id in states[i].late <==> BeganBehind(states, acts, i, id)
  {
    var s, a, s' := states[i - 1], acts[i - 1], states[i];
    assert Step(s, a, s');
    RunKeeps(states, acts, i - 1);
    if k :| 0 <= k < i && LateAt(states, acts, k, id) {
      if k < i - 1 {
        BegunIsOld(states, acts, i - 1, k, id);
        assert a != Begin(id) by { TxnOrder(); }
      }
    }
    if id in s'.late && id !in s.late { assert LateAt(states, acts, i - 1, id); }
    hide TxnId.Less;
  }

  /** What the scan has found is the least of what it met. */
  lemma {:induction false} FoundIs(states: seq<State>, acts: seq<Action>, i: nat)
    requires Run(states, acts) && i < |states|
    ensures states[i].found != SENTINEL_TXN ==> Met(states, acts, i, states[i].found)
    ensures forall x | Met(states, acts, i, x) :: x != SENTINEL_TXN && states[i].found.AtMost(x)
    ensures states[i].found == SENTINEL_TXN <==> !exists x :: Met(states, acts, i, x)
  {
    if i > 0 {
      FoundIs(states, acts, i - 1);
      FoundStep(states, acts, i - 1, i);
    }
  }

  lemma FoundStep(states: seq<State>, acts: seq<Action>, k: nat, i: nat)
    requires Run(states, acts) && i == k + 1 < |states|
    requires states[k].found != SENTINEL_TXN ==> Met(states, acts, k, states[k].found)
    requires forall x | Met(states, acts, k, x) :: x != SENTINEL_TXN && states[k].found.AtMost(x)
    ensures states[i].found != SENTINEL_TXN ==> Met(states, acts, i, states[i].found)
    ensures forall x | Met(states, acts, i, x) :: x != SENTINEL_TXN && states[i].found.AtMost(x)
    ensures states[i].found == SENTINEL_TXN <==> !exists x :: Met(states, acts, i, x)
  {
    var s, s' := states[k], states[i];
    assert Step(s, acts[k], s');
    RunKeeps(states, acts, k);
    forall x ensures Met(states, acts, i, x) <==> Met(states, acts, k, x) || MetAt(states, acts, k, x) { }
    if acts[k].Look? {
      var m :| LeastOf(m, InShard(s.active, s.next)) && s' == s.(next := s.next + 1, found := Smaller(s.found, m));
      LookedAt(states, acts, k, m);
      TxnOrder();
      hide Met, MetAt, TxnId.Less;
    } else {
      assert s'.found == s.found && forall x :: !MetAt(states, acts, k, x);
      hide Met, MetAt, TxnId.Less;
    }
  }

  /** A look meets the least id of its shard, if there is one. */
  lemma LookedAt(states: seq<State>, acts: seq<Action>, k: nat, m: TxnId)
    requires k < |acts| && k < |states| && acts[k].Look? && Inv(states[k])
    requires LeastOf(m, InShard(states[k].active, states[k].next))
    ensures forall x :: MetAt(states, acts, k, x) <==> x == m && m != SENTINEL_TXN
    ensures m != SENTINEL_TXN ==> m.Less(SENTINEL_TXN)
  {
    var ids := InShard(states[k].active, states[k].next);
    TxnOrder();
    if ids != {} { assert m in ids && m in states[k].active; }
    forall x ensures MetAt(states, acts, k, x) <==> x == m && m != SENTINEL_TXN { }
  }

  /** The last committed id is at or below an id newer than the start exactly when nothing above that
      id was committed during the scan. */
  lemma {:induction false} LastIs(states: seq<State>, acts: seq<Action>, i: nat, id: TxnId)
    requires Run(states, acts) && i < |states| && states[0].newest.Less(id)
    ensures states[i].last.AtMost(id) <==> !CommittedAbove(acts, i, id)
  {
    TxnOrder();
    if i > 0 {
      LastIs(states, acts, i - 1, id);
      assert Step(states[i - 1], acts[i - 1], states[i]);
      assert CommittedAbove(acts, i, id) <==> CommittedAbove(acts, i - 1, id) || (acts[i - 1].Commit? && id.Less(acts[i - 1].id));
      hide TxnId.Less, CommittedAbove;
    }
  }

  /** The schedule does no harm to id: if the scan met any id, it met one at or below it; if it met
      none, nothing above it was committed meanwhile. */
  ghost predicate Spares(states: seq<State>, acts: seq<Action>, i: nat, id: TxnId) {
    if exists x :: Met(states, acts, i, x) then exists x :: Met(states, acts, i, x) && x.AtMost(id)
    else !CommittedAbove(acts, i, id)
  }

  lemma SparesIs(states: seq<State>, acts: seq<Action>, i: nat, id: TxnId)
    requires Run(states, acts) && i < |states| && id in states[i].late
    ensures Cutoff(states[i]).AtMost(id) <==> Spares(states, acts, i, id)
  {
    FoundIs(states, acts, i);
    LateIsNew(states, acts, i);
    LastIs(states, acts, i, id);
    TxnOrder();
    hide Run, Met, CommittedAbove, TxnId.Less;
  }

  /** Which schedules are safe: under every interleaving the cutoff a scan ends with is at or below
      every active id if and only if the schedule spares each transaction that began in a shard the
      scan had passed and is still active. */
  lemma SafeScheduleIff(states: seq<State>, acts: seq<Action>, i: nat)
    requires Run(states, acts) && i < |states| && states[i].next == SHARDS
    ensures Safe(states[i]) <==> forall id | BeganBehind(states, acts, i, id) :: Spares(states, acts, i, id)
  {
    ScanSafeIff(states, acts, i);
    forall id ensures id in states[i].late <==> BeganBehind(states, acts, i, id) { LateIs(states, acts, i, id); }
    forall id | id in states[i].late ensures Cutoff(states[i]).AtMost(id) <==> Spares(states, acts, i, id) { SparesIs(states, acts, i, id); }
    hide Run, Cutoff, Spares, BeganBehind;
  }

  /** If a transaction that was active when the scan started is still active when it ends, the cutoff
      is safe, whatever began meanwhile. */
  lemma AnchoredScanSafe(states: seq<State>, acts: seq<Action>, i: nat, id: TxnId)
    requires Run(states, acts) && i < |states| && states[i].next == SHARDS && id in states[0].active && id in states[i].active
    ensures Safe(states[i])
  {
    RunKeeps(states, acts, i);
    LateIsNew(states, acts, i);
    TxnOrder();
    assert ShardOf(id) < SHARDS && id.AtMost(states[0].newest);
    hide Run, TxnId.Less;
    assert id !in states[i].late && states[i].found.AtMost(id);
  }

  ghost predicate NoLateBegin(states: seq<State>, acts: seq<Action>) {
    forall i | 0 <= i < |acts| && i < |states| && acts[i].Begin? :: ShardOf(acts[i].id) >= states[i].next
  }

  /** If no transaction begins in a shard the scan has passed, the cutoff is safe, however many commit
      or abort meanwhile. */
  lemma QuietScanSafe(states: seq<State>, acts: seq<Action>, i: nat)
    requires Run(states, acts) && NoLateBegin(states, acts) && i < |states| && states[i].next == SHARDS
    ensures Safe(states[i])
  {
    NoneLate(states, acts, i);
    ScanSafeIff(states, acts, i);
  }

  lemma {:induction false} NoneLate(states: seq<State>, acts: seq<Action>, i: nat)
    requires Run(states, acts) && NoLateBegin(states, acts) && i < |states|
    ensures states[i].late == {}
  {
    if i > 0 {
      NoneLate(states, acts, i - 1);
      assert Step(states[i - 1], acts[i - 1], states[i]);
    }
  }

  // ---------------------------------------------------------------- a cutoff above an active transaction

  const FIRST: TxnId := TxnId(0, 0, 64)
  const SECOND: TxnId := TxnId(0, 0, 65)

  /** After the first shard was found empty: FIRST begins there, SECOND begins and commits. */
  function Behind(next: nat): State {
    State({FIRST}, SECOND, SECOND, next, SENTINEL_TXN, {FIRST})
  }

  function RaceStates(n: nat): (states: seq<State>)
    ensures |states| == n + 5
  {
    var start := State({}, ZERO_TXN, ZERO_TXN, 0, SENTINEL_TXN, {});
    var looked := start.(next := 1);
    var one := State({FIRST}, FIRST, ZERO_TXN, 1, SENTINEL_TXN, {FIRST});
    [start, looked, one, State({FIRST, SECOND}, SECOND, ZERO_TXN, 1, SENTINEL_TXN, {FIRST}), Behind(1)]
      + seq(n, i requires 0 <= i < n => Behind(i + 2))
  }

  function RaceActs(n: nat): (acts: seq<Action>)
    ensures |acts| == n + 4
  {
    [Look, Begin(FIRST), Begin(SECOND), Commit(SECOND)] + seq(n, i requires 0 <= i < n => Look)
  }

  lemma RaceLook(next: nat)
    requires 1 <= next < SHARDS
    ensures Step(Behind(next), Look, Behind(next + 1))
  {
    assert InShard({FIRST}, next) == {};
    assert LeastOf(SENTINEL_TXN, InShard({FIRST}, next));
  }

  lemma RaceStart(states: seq<State>)
    requires states == RaceStates(0)
    ensures Ready(states[0]) && Step(states[0], Look, states[1]) && Step(states[1], Begin(FIRST), states[2])
    ensures Step(states[2], Begin(SECOND), states[3]) && Step(states[3], Commit(SECOND), states[4])
  {
    assert InShard({}, 0) == {};
    assert LeastOf(SENTINEL_TXN, InShard({}, 0));
    assert {} + {FIRST} == {FIRST} && {FIRST} + {SECOND} == {FIRST, SECOND} && {FIRST, SECOND} - {SECOND} == {FIRST} && {FIRST} - {SECOND} == {FIRST};
  }

  lemma RaceRun()
    ensures Run(RaceStates(SHARDS - 1), RaceActs(SHARDS - 1))
  {
    var n := SHARDS - 1;
    var states, acts, start := RaceStates(n), RaceActs(n), RaceStates(0);
    RaceStart(start);
    assert forall i | 0 <= i < 5 :: states[i] == start[i];
    forall i | 0 <= i < |acts| ensures Step(states[i], acts[i], states[i + 1]) {
      if i >= 4 {
        assert states[i] == Behind(i - 3) && states[i + 1] == Behind(i - 2) && acts[i] == Look;
        RaceLook(i - 3);
      }
    }
  }

  /** The scan can store a cutoff above a transaction that is active. */
  lemma UnsafeScanExample()
    ensures exists states: seq<State>, acts, i :: Run(states, acts) && 0 <= i < |states| && states[i].next == SHARDS && !Safe(states[i])
  {
    RaceRun();
    var states, acts := RaceStates(SHARDS - 1), RaceActs(SHARDS - 1);
    var i := |states| - 1;
    assert states[i] == Behind(SHARDS);
    assert FIRST in states[i].active && !Cutoff(states[i]).AtMost(FIRST);
    hide Run;
    assert !Safe(states[i]);
  }
}
