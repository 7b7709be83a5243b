/**
 The seqlock over a three-word transaction id (txn_id_seqlock_read, _write, _cas) and the
 commit loop on top of it, as interleaved atomic steps of any number of threads. A copy of the
 value goes word by word, in any order.
 */
module Seqlock {
  import opened Common

  function Word(v: TxnId, i: nat): nat {
    if i == 0 then v.time else if i == 1 then v.nanos else v.count
  }

  function SetWord(v: TxnId, i: nat, w: U64): TxnId {
    if i == 0 then v.(time := w) else if i == 1 then v.(nanos := w) else v.(count := w)
  }

  /** Why a thread is in txn_id_seqlock_read: a plain read, the read of the commit loop, or the
      read inside a compare-and-swap. `fails` counts the failed swaps of this commit so far. */
  datatype Why =
    | Plain
    | Commit(id: TxnId, fails: nat)
    | Cas(id: TxnId, expected: TxnId, fails: nat)

  datatype Job = Write(v: TxnId) | Swap(v: TxnId)

  datatype Proc =
    | Idle
    | Start(why: Why)                                    // about to load seq
    | Copying(why: Why, s1: nat, got: map<nat, U64>)     // words copied so far
    | WaitWrite(v: TxnId)                                // spinning on write_lock
    | WaitCas(id: TxnId, expected: TxnId, fails: nat)    // the same, in the commit loop
    | Locked(job: Job)                                   // lock held, value to be replaced
    | Storing(job: Job, done: set<nat>)                  // seq odd, words stored so far
    | Unlock(job: Job)                                   // seq even again
    | Failed(id: TxnId, fails: nat)                      // compare failed, lock still held
    | Returned(v: TxnId)                                 // a plain read is done

  /** `hist` lists the values the lock has held, oldest first; `begun` and `finished` are the
      ids whose commit loop was entered and left. These three are not in the program. */
  datatype State = State(
    seqno: nat, value: TxnId, lock: Option<nat>, procs: map<nat, Proc>,
    hist: seq<TxnId>, begun: set<TxnId>, finished: set<TxnId>)

  datatype Action =
    | BeginRead | BeginWrite(v: TxnId) | BeginCommit(id: TxnId)
    | LoadSeq | CopyWord(i: nat) | Check
    | Acquire | MakeOdd | StoreWord(i: nat) | MakeEven | Release
    | Leave

  const WORDS: set<nat> := {0, 1, 2}

  ghost predicate Complete(got: map<nat, U64>) {
    got.Keys == WORDS
  }

  function Assembled(got: map<nat, U64>): TxnId
    requires 0 in got && 1 in got && 2 in got
  {
    TxnId(got[0], got[1], got[2])
  }

  ghost predicate Enabled(s: State, t: nat, a: Action) {
    t in s.procs &&
    match (s.procs[t], a)
    case (Idle, BeginRead) => true
    case (Idle, BeginWrite(_)) => true
    case (Idle, BeginCommit(_)) => true
    case (Start(_), LoadSeq) => true
    case (Copying(_, _, got), CopyWord(i)) => i in WORDS && i !in got
    case (Copying(_, _, got), Check) => Complete(got)
    case (WaitWrite(_), Acquire) => s.lock.None?
    case (WaitCas(_, _, _), Acquire) => s.lock.None?
    case (Locked(_), MakeOdd) => true
    case (Storing(_, done), StoreWord(i)) => i in WORDS && i !in done
    case (Storing(_, done), MakeEven) => done == WORDS
    case (Unlock(_), Release) => true
    case (Failed(_, _), Release) => true
    case (Returned(_), Leave) => true
    case _ => false
  }

  /** What a thread does once its two sequence loads agree on an even number. */
  function AfterRead(why: Why, v: TxnId): Proc {
    match why
    case Plain => Returned(v)
    case Commit(id, fails) => if v.Less(id) then WaitCas(id, v, fails) else Idle
    case Cas(id, expected, fails) => if v == expected then Locked(Swap(id)) else Failed(id, fails)
  }

  ghost function Apply(s: State, t: nat, a: Action): State
    requires Enabled(s, t, a)
  {
    var p := s.procs[t];
    match a
    case BeginRead => s.(procs := s.procs[t := Start(Plain)])
    case BeginWrite(v) => s.(procs := s.procs[t := WaitWrite(v)])
    case BeginCommit(id) => s.(procs := s.procs[t := Start(Commit(id, 0))], begun := s.begun + {id})
    case LoadSeq => s.(procs := s.procs[t := Copying(p.why, s.seqno, map[])])
    case CopyWord(i) => s.(procs := s.procs[t := p.(got := p.got[i := Word(s.value, i)])])
    case Check =>
      if s.seqno != p.s1 || p.s1 % 2 == 1 then s.(procs := s.procs[t := Start(p.why)])
      else
        var v := Assembled(p.got);
        s.(procs := s.procs[t := AfterRead(p.why, v)],
           finished := if p.why.Commit? && !v.Less(p.why.id) then s.finished + {p.why.id} else s.finished)
    case Acquire =>
      s.(lock := Some(t), procs := s.procs[t :=
        if p.WaitWrite? then Locked(Write(p.v)) else Start(Cas(p.id, p.expected, p.fails))])
    case MakeOdd => s.(seqno := s.seqno + 1, procs := s.procs[t := Storing(p.job, {})])
    case StoreWord(i) =>
      s.(value := SetWord(s.value, i, Word(p.job.v, i)), procs := s.procs[t := p.(done := p.done + {i})])
    case MakeEven => s.(seqno := s.seqno + 1, procs := s.procs[t := Unlock(p.job)], hist := s.hist + [p.job.v])
    case Release =>
      if p.Failed? then s.(lock := None, procs := s.procs[t := Start(Commit(p.id, p.fails + 1))])
      else s.(lock := None, procs := s.procs[t := Idle],
              finished := if p.job.Swap? then s.finished + {p.job.v} else s.finished)
    case Leave => s.(procs := s.procs[t := Idle])
  }

  ghost predicate Init(s: State) {
    && s.seqno == 0 && s.lock == None && s.hist == [s.value] && s.begun == {} && s.finished == {}
    && forall t | t in s.procs :: s.procs[t] == Idle
  }

  datatype Event = Event(t: nat, a: Action)

  /** The states of a run, one more than there are events. */
  ghost predicate Run(states: seq<State>, events: seq<Event>) {
    && |states| == |events| + 1
    && Init(states[0])
    && forall i | 0 <= i < |events| ::
         Enabled(states[i], events[i].t, events[i].a) && states[i + 1] == Apply(states[i], events[i].t, events[i].a)
  }

  // ---------------------------------------------------------------- the seqlock

  predicate HoldsLock(p: Proc) {
    || p.Locked? || p.Storing? || p.Unlock? || p.Failed?
    || (p.Start? && p.why.Cas?) || (p.Copying? && p.why.Cas?)
  }

  /** The value last published. */
  ghost function Current(s: State): TxnId
    requires |s.hist| > 0
  {
    s.hist[|s.hist| - 1]
  }

  /** A reader that has seen no change holds words of the current value. */
  ghost predicate CopyOk(s: State, p: Proc)
    requires |s.hist| > 0
  {
    p.Copying? ==>
      && p.s1 <= s.seqno && p.got.Keys <= WORDS
      && (p.s1 == s.seqno && p.s1 % 2 == 0 ==> forall i | i in p.got :: p.got[i] == Word(Current(s), i))
  }

  ghost predicate StoreOk(s: State, p: Proc)
    requires |s.hist| > 0
  {
    p.Storing? ==>
      && s.seqno % 2 == 1 && p.done <= WORDS
      && forall i | i in WORDS :: Word(s.value, i) == Word(if i in p.done then p.job.v else Current(s), i)
  }

  ghost predicate Inv(s: State) {
    && |s.hist| == s.seqno / 2 + 1
    && (s.seqno % 2 == 0 ==> s.value == Current(s))
    && (s.seqno % 2 == 1 ==> s.lock.Some? && s.lock.value in s.procs && s.procs[s.lock.value].Storing?)
    && (forall t | t in s.procs :: HoldsLock(s.procs[t]) <==> s.lock == Some(t))
    && (forall t | t in s.procs :: CopyOk(s, s.procs[t]) && StoreOk(s, s.procs[t]))
  }

  lemma SameWords(v: TxnId, w: TxnId)
    requires forall i | i in WORDS :: Word(v, i) == Word(w, i)
    ensures v == w
  {
    assert 0 in WORDS && 1 in WORDS && 2 in WORDS;
  }

  lemma InitInv(s: State)
    requires Init(s)
    ensures Inv(s)
  {
  }

  /** Every step of every thread keeps the invariant. */
  lemma StepInv(s: State, t: nat, a: Action)
    requires Inv(s) && Enabled(s, t, a)
    ensures Inv(Apply(s, t, a))
  {
    hide Inv, Apply, Enabled;
    match a {
      case CopyWord(i) => CopyInv(s, t, i);
      case StoreWord(i) => StoreInv(s, t, i);
      case MakeOdd => OddInv(s, t);
      case MakeEven => EvenInv(s, t);
      case Check => CheckInv(s, t);
      case Acquire => AcquireInv(s, t);
      case Release => ReleaseInv(s, t);
      case _ => LocalInv(s, t, a);
    }
  }

  lemma LocalInv(s: State, t: nat, a: Action)
    requires Inv(s) && Enabled(s, t, a)
    requires a.BeginRead? || a.BeginWrite? || a.BeginCommit? || a.LoadSeq? || a.Leave?
    ensures Inv(Apply(s, t, a))
  {
  }

  lemma CheckInv(s: State, t: nat)
    requires Inv(s) && Enabled(s, t, Check)
    ensures Inv(Apply(s, t, Check))
  {
  }

  lemma AcquireInv(s: State, t: nat)
    requires Inv(s) && Enabled(s, t, Acquire)
    ensures Inv(Apply(s, t, Acquire))
  {
  }

  lemma ReleaseInv(s: State, t: nat)
    requires Inv(s) && Enabled(s, t, Release)
    ensures Inv(Apply(s, t, Release))
  {
  }

  lemma CopyInv(s: State, t: nat, i: nat)
    requires Inv(s) && Enabled(s, t, CopyWord(i))
    ensures Inv(Apply(s, t, CopyWord(i)))
  {
  }

  lemma StoreInv(s: State, t: nat, i: nat)
    requires Inv(s) && Enabled(s, t, StoreWord(i))
    ensures Inv(Apply(s, t, StoreWord(i)))
  {
  }

  lemma OddInv(s: State, t: nat)
    requires Inv(s) && Enabled(s, t, MakeOdd)
    ensures Inv(Apply(s, t, MakeOdd))
  {
  }

  lemma EvenInv(s: State, t: nat)
    requires Inv(s) && Enabled(s, t, MakeEven)
    ensures Inv(Apply(s, t, MakeEven))
  {
    SameWords(s.value, s.procs[t].job.v);
  }

  lemma {:induction false} RunInv(states: seq<State>, events: seq<Event>, i: nat)
    requires Run(states, events) && i < |states|
    ensures Inv(states[i])
  {
    hide Inv, Init, Apply, Enabled;
    if i == 0 {
      InitInv(states[0]);
    } else {
      RunInv(states, events, i - 1);
      StepInv(states[i - 1], events[i - 1].t, events[i - 1].a);
    }
  }

  /** Sequence number and history only grow. */
  lemma {:induction false} RunGrows(states: seq<State>, events: seq<Event>, i: nat, j: nat)
    requires Run(states, events) && i <= j < |states|
    ensures states[i].seqno <= states[j].seqno && states[i].hist <= states[j].hist && states[i].begun <= states[j].begun
    decreases j
  {
    if i < j { RunGrows(states, events, i, j - 1); }
  }

  /** While a thread stays in one copy its first sequence load does not change. */
  lemma {:induction false} SameLoad(states: seq<State>, events: seq<Event>, t: nat, i: nat, j: nat)
    requires Run(states, events) && i <= j < |states|
    requires forall k | i <= k <= j :: t in states[k].procs && states[k].procs[t].Copying?
    ensures states[j].procs[t].s1 == states[i].procs[t].s1
    decreases j
  {
    if i < j { SameLoad(states, events, t, i, j - 1); }
  }

  /** A read whose second sequence load is event j and whose first is event i: at every moment in
      between the lock held exactly the value it returns, whole. */
  lemma ReadIsWhole(states: seq<State>, events: seq<Event>, t: nat, i: nat, j: nat, k: nat)
    requires Run(states, events) && i < j < |events| && events[i] == Event(t, LoadSeq) && events[j] == Event(t, Check)
    requires forall n | i < n <= j :: t in states[n].procs && states[n].procs[t].Copying?
    requires states[j].procs[t].s1 == states[j].seqno && states[j].seqno % 2 == 0
    requires i < k <= j
    ensures Complete(states[j].procs[t].got) && |states[k].hist| > 0
    ensures states[k].value == Current(states[k]) == Assembled(states[j].procs[t].got)
    ensures t in states[j + 1].procs && states[j + 1].procs[t] == AfterRead(states[j].procs[t].why, states[k].value)
  {
    SameLoad(states, events, t, i + 1, j);
    RunGrows(states, events, i + 1, k);
    RunGrows(states, events, k, j);
    RunInv(states, events, j);
    RunInv(states, events, k);
    assert states[i + 1] == Apply(states[i], t, LoadSeq);
    SameWords(Assembled(states[j].procs[t].got), Current(states[j]));
  }

  // ---------------------------------------------------------------- commits

  /** The expected value of a compare-and-swap was published as number f or later. */
  ghost predicate Seen(s: State, expected: TxnId, f: nat) {
    exists k :: f <= k < |s.hist| && s.hist[k] == expected
  }

  ghost predicate CommitOk(s: State, p: Proc)
    requires |s.hist| > 0
  {
    match p
    case Start(Commit(id, f)) => id in s.begun && f < |s.hist|
    case Copying(Commit(id, f), s1, _) => id in s.begun && f <= s1 / 2 < |s.hist|
    case WaitCas(id, e, f) => id in s.begun && e.Less(id) && Seen(s, e, f)
    case Start(Cas(id, e, f)) => id in s.begun && e.Less(id) && Seen(s, e, f)
    case Copying(Cas(id, e, f), _, _) => id in s.begun && e.Less(id) && Seen(s, e, f)
    case Locked(Swap(id)) => id in s.begun && Current(s).Less(id)
    case Storing(Swap(id), _) => id in s.begun && Current(s).Less(id)
    case Unlock(Swap(id)) => id in s.begun && id.AtMost(Current(s))
    case Failed(id, f) => id in s.begun && f + 1 < |s.hist|
    case WaitWrite(_) => false
    case Locked(Write(_)) => false
    case Storing(Write(_), _) => false
    case Unlock(Write(_)) => false
    case _ => true
  }

  ghost predicate Rising(h: seq<TxnId>) {
    forall i, j | 0 <= i < j < |h| :: h[i].Less(h[j])
  }

  /** Nobody writes past the commit loop, so published values rise and come from commits. */
  ghost predicate CommitInv(s: State) {
    && Inv(s)
    && Rising(s.hist)
    && (forall k | 0 < k < |s.hist| :: s.hist[k] in s.begun)
    && (forall id | id in s.finished :: id in s.begun && id.AtMost(Current(s)))
    && (forall t | t in s.procs :: CommitOk(s, s.procs[t]))
  }

  lemma CommitInit(s: State)
    requires Init(s)
    ensures CommitInv(s)
  {
  }

  lemma SeenLater(s: State, s': State, e: TxnId, f: nat)
    requires Seen(s, e, f) && s.hist <= s'.hist
    ensures Seen(s', e, f)
  {
    var k :| f <= k < |s.hist| && s.hist[k] == e;
    assert s'.hist[k] == e;
  }

  lemma OthersOk(s: State, s': State, p: Proc)
    requires |s.hist| > 0 && CommitOk(s, p) && s'.hist == s.hist && s.begun <= s'.begun
    ensures CommitOk(s', p)
  {
  }

  /** Publishing a value only concerns the thread that holds the lock. */
  lemma OthersOkEven(s: State, s': State, p: Proc)
    requires |s.hist| > 0 && CommitOk(s, p) && !HoldsLock(p) && s.hist <= s'.hist && s.begun == s'.begun
    ensures CommitOk(s', p)
  {
    if p.WaitCas? { SeenLater(s, s', p.expected, p.fails); }
  }

  /** A compare-and-swap reads the current value, and a read that differs means it was raised. */
  lemma CheckedValue(s: State, t: nat)
    requires Inv(s) && Enabled(s, t, Check) && s.procs[t].s1 == s.seqno && s.seqno % 2 == 0
    ensures Assembled(s.procs[t].got) == Current(s) && s.procs[t].s1 / 2 == |s.hist| - 1
  {
    SameWords(Assembled(s.procs[t].got), Current(s));
  }

  lemma SeenLess(s: State, e: TxnId, f: nat)
    requires Rising(s.hist) && Seen(s, e, f)
    ensures e.AtMost(Current(s)) && (e != Current(s) ==> f + 1 < |s.hist|)
  {
  }

  /** The thread that steps keeps its own promise. */
  lemma ActorOk(s: State, t: nat, a: Action)
    requires CommitInv(s) && Enabled(s, t, a) && !a.BeginWrite? && !a.Check? && !a.MakeEven?
    ensures CommitOk(Apply(s, t, a), Apply(s, t, a).procs[t])
  {
    hide Rising;
    var p := s.procs[t];
    OthersOk(s, Apply(s, t, a), p);
  }

  lemma FinishedOk(s: State, t: nat, a: Action)
    requires CommitInv(s) && Enabled(s, t, a) && !a.Check?
    ensures forall id | id in Apply(s, t, a).finished :: id in s.begun && id.AtMost(Current(s))
  {
    hide Inv, Rising;
  }

  lemma CheckOk(s: State, t: nat)
    requires CommitInv(s) && Enabled(s, t, Check)
    ensures CommitOk(Apply(s, t, Check), Apply(s, t, Check).procs[t])
    ensures forall id | id in Apply(s, t, Check).finished :: id in s.begun && id.AtMost(Current(s))
  {
    var p := s.procs[t];
    if s.seqno == p.s1 && p.s1 % 2 == 0 {
      CheckedValue(s, t);
      if p.why.Cas? { SeenLess(s, p.why.expected, p.why.fails); }
      if p.why.Commit? { assert s.hist[|s.hist| - 1] == Current(s); assert Seen(s, Current(s), p.why.fails); }
    }
  }

  lemma EvenOk(s: State, t: nat)
    requires CommitInv(s) && Enabled(s, t, MakeEven)
    ensures CommitOk(Apply(s, t, MakeEven), Apply(s, t, MakeEven).procs[t])
    ensures Rising(Apply(s, t, MakeEven).hist) && Current(s).Less(Current(Apply(s, t, MakeEven)))
  {
    assert Current(s) == s.hist[|s.hist| - 1];
  }

  /** Every step except a plain write keeps the commit invariant. */
  lemma CommitStep(s: State, t: nat, a: Action)
    requires CommitInv(s) && Enabled(s, t, a) && !a.BeginWrite?
    ensures CommitInv(Apply(s, t, a))
  {
    StepInv(s, t, a);
    if a.MakeEven? {
      CommitEven(s, t);
    } else {
      if a.Check? { CheckOk(s, t); } else {
        ActorOk(s, t, a);
        FinishedOk(s, t, a);
      }
      CommitKeeps(s, t, a);
    }
  }

  lemma CommitEven(s: State, t: nat)
    requires CommitInv(s) && Enabled(s, t, MakeEven) && Inv(Apply(s, t, MakeEven))
    ensures CommitInv(Apply(s, t, MakeEven))
  {
    EvenOk(s, t);
    var s' := Apply(s, t, MakeEven);
    forall u | u in s'.procs ensures CommitOk(s', s'.procs[u]) {
      if u != t { OthersOkEven(s, s', s.procs[u]); }
    }
    hide Inv, Rising, CommitOk;
  }

  lemma ApplyFrame(s: State, t: nat, a: Action)
    requires Enabled(s, t, a) && !a.MakeEven?
    ensures t in s.procs && t in Apply(s, t, a).procs && Apply(s, t, a).procs == s.procs[t := Apply(s, t, a).procs[t]]
    ensures Apply(s, t, a).hist == s.hist && s.begun <= Apply(s, t, a).begun
  {
  }

  lemma CommitKeeps(s: State, t: nat, a: Action)
    requires CommitInv(s) && Enabled(s, t, a) && !a.BeginWrite? && !a.MakeEven? && Inv(Apply(s, t, a))
    requires CommitOk(Apply(s, t, a), Apply(s, t, a).procs[t])
    requires forall id | id in Apply(s, t, a).finished :: id in s.begun && id.AtMost(Current(s))
    ensures CommitInv(Apply(s, t, a))
  {
    assert |s.hist| > 0;
    hide Inv, Rising, CommitOk, Apply, Enabled;
    var s' := Apply(s, t, a);
    ApplyFrame(s, t, a);
    forall u | u in s'.procs ensures CommitOk(s', s'.procs[u]) {
      if u != t { OthersOk(s, s', s.procs[u]); }
    }
  }

  // ---------------------------------------------------------------- over whole runs

  ghost predicate NoWrites(events: seq<Event>) {
    forall i | 0 <= i < |events| :: !events[i].a.BeginWrite?
  }

  lemma {:induction false} RunCommits(states: seq<State>, events: seq<Event>, i: nat)
    requires Run(states, events) && NoWrites(events) && i < |states|
    ensures CommitInv(states[i])
  {
    hide CommitInv, Init, Apply, Enabled;
    if i == 0 {
      CommitInit(states[0]);
    } else {
      RunCommits(states, events, i - 1);
      CommitStep(states[i - 1], events[i - 1].t, events[i - 1].a);
    }
  }

  /** The last committed id never goes down, is at least the id of every commit that has
      finished, and is the initial value or the id of a commit. */
  lemma LastCommitted(states: seq<State>, events: seq<Event>, i: nat, j: nat)
    requires Run(states, events) && NoWrites(events) && i <= j < |states|
    ensures |states[i].hist| > 0 && |states[j].hist| > 0
    ensures Current(states[i]).AtMost(Current(states[j]))
    ensures forall id | id in states[i].finished :: id.AtMost(Current(states[j]))
    ensures Current(states[j]) == states[0].value || Current(states[j]) in states[j].begun
  {
    RunCommits(states, events, i);
    RunCommits(states, events, j);
    RunGrows(states, events, i, j);
    RunGrows(states, events, 0, j);
    assert states[j].hist[0] == states[0].value;
    assert states[j].hist[|states[i].hist| - 1] == Current(states[i]);
  }

  /** A read by t that loads the sequence number at event i, checks it at event j and returns v. */
  ghost predicate ReadBetween(states: seq<State>, events: seq<Event>, t: nat, i: nat, j: nat, v: TxnId) {
    && Run(states, events) && i < j < |events| && events[i] == Event(t, LoadSeq) && events[j] == Event(t, Check)
    && (forall n | i < n <= j :: t in states[n].procs && states[n].procs[t].Copying?)
    && states[j].procs[t].s1 == states[j].seqno && states[j].seqno % 2 == 0
    && Complete(states[j].procs[t].got) && v == Assembled(states[j].procs[t].got)
  }

  lemma ReadIsCurrent(states: seq<State>, events: seq<Event>, t: nat, i: nat, j: nat, v: TxnId, k: nat)
    requires ReadBetween(states, events, t, i, j, v) && i < k <= j
    ensures |states[k].hist| > 0 && Current(states[k]) == v
  {
    hide Run;
    ReadIsWhole(states, events, t, i, j, k);
  }

  /** What readers see never goes down: a read that begins after another has ended returns an id at
      least as great, whoever the readers are. */
  lemma ReadsRise(states: seq<State>, events: seq<Event>, t: nat, i: nat, j: nat, v: TxnId, u: nat, m: nat, n: nat, w: TxnId)
    requires NoWrites(events) && ReadBetween(states, events, t, i, j, v) && ReadBetween(states, events, u, m, n, w) && j < m
    ensures v.AtMost(w)
  {
    ReadIsCurrent(states, events, t, i, j, v, j);
    ReadIsCurrent(states, events, u, m, n, w, n);
    LastCommitted(states, events, j, n);
  }

  /** A read that begins after a commit has finished returns at least that commit's id, and every read
      returns the initial value or the id of a commit that has begun. */
  lemma ReadsCover(states: seq<State>, events: seq<Event>, t: nat, i: nat, j: nat, v: TxnId)
    requires NoWrites(events) && ReadBetween(states, events, t, i, j, v)
    ensures forall id | id in states[i].finished :: id.AtMost(v)
    ensures v == states[0].value || v in states[j].begun
  {
    ReadIsCurrent(states, events, t, i, j, v, j);
    LastCommitted(states, events, i, j);
  }

  /** A swap fails only because the value was raised since it was read. */
  lemma FailedSwap(states: seq<State>, events: seq<Event>, j: nat)
    requires Run(states, events) && NoWrites(events) && j < |events| && events[j].a == Check
    requires states[j].procs[events[j].t].why.Cas? && states[j + 1].procs[events[j].t].Failed?
    ensures |states[j].hist| > 0 && states[j].procs[events[j].t].why.expected.Less(Current(states[j]))
    ensures Current(states[j]) in states[j].begun
  {
    RunCommits(states, events, j);
    var t := events[j].t;
    CheckedValue(states[j], t);
    SeenLess(states[j], states[j].procs[t].why.expected, states[j].procs[t].why.fails);
  }

  predicate InCommit(p: Proc) {
    || ((p.Start? || p.Copying?) && !p.why.Plain?)
    || p.WaitCas? || p.Failed?
  }

  function Fails(p: Proc): nat
    requires InCommit(p)
  {
    if p.Start? || p.Copying? then p.why.fails else p.fails
  }

  /** p is somewhere in the commit of id. */
  predicate Commits(p: Proc, id: TxnId) {
    match p
    case Start(why) => !why.Plain? && why.id == id
    case Copying(why, _, _) => !why.Plain? && why.id == id
    case WaitCas(x, _, _) => x == id
    case Failed(x, _) => x == id
    case Locked(job) => job == Swap(id)
    case Storing(job, _) => job == Swap(id)
    case Unlock(job) => job == Swap(id)
    case _ => false
  }

  lemma CommitGoesOn(s: State, e: Event, t: nat, id: TxnId)
    requires Enabled(s, e.t, e.a) && t in s.procs && (Commits(s.procs[t], id) || id in s.finished)
    ensures var s' := Apply(s, e.t, e.a); t in s'.procs && (Commits(s'.procs[t], id) || id in s'.finished)
  {
  }

  lemma {:induction false} CommitUntilDone(states: seq<State>, events: seq<Event>, a: nat, i: nat)
    requires Run(states, events) && a < i < |states| && events[a].a.BeginCommit?
    ensures events[a].t in states[i].procs && (Commits(states[i].procs[events[a].t], events[a].a.id) || events[a].a.id in states[i].finished)
    decreases i
  {
    assert Enabled(states[i - 1], events[i - 1].t, events[i - 1].a) && states[i] == Apply(states[i - 1], events[i - 1].t, events[i - 1].a);
    if i > a + 1 {
      CommitUntilDone(states, events, a, i - 1);
      hide Apply, Enabled, Commits;
      CommitGoesOn(states[i - 1], events[i - 1], events[a].t, events[a].a.id);
    }
  }

  /** A commit that began at event a and is over, its thread being idle or busy with something else:
      from then on the published id is at least the committed one. */
  lemma CommitPublishes(states: seq<State>, events: seq<Event>, a: nat, i: nat, j: nat)
    requires Run(states, events) && NoWrites(events) && a < i <= j < |states| && events[a].a.BeginCommit?
    ensures events[a].t in states[i].procs && |states[j].hist| > 0
    ensures !Commits(states[i].procs[events[a].t], events[a].a.id) ==> events[a].a.id.AtMost(Current(states[j]))
  {
    CommitUntilDone(states, events, a, i);
    LastCommitted(states, events, i, j);
  }

  lemma {:induction false} RisingFits(h: seq<TxnId>, ids: set<TxnId>)
    requires Rising(h) && |h| > 0 && forall k | 0 < k < |h| :: h[k] in ids
    ensures |h| <= |ids| + 1
    decreases |h|
  {
    if |h| > 1 {
      var last := h[|h| - 1];
      var rest := h[..|h| - 1];
      assert forall k | 0 < k < |rest| :: rest[k].Less(last);
      RisingFits(rest, ids - {last});
    }
  }

  /** How often thread t let go of the lock after a failed swap, since it last began a commit. */
  ghost function Retries(states: seq<State>, events: seq<Event>, t: nat, i: nat): nat
    requires i < |states| == |events| + 1
  {
    if i == 0 then 0
    else
      var e, before := events[i - 1], states[i - 1].procs;
      if e.t != t then Retries(states, events, t, i - 1)
      else if e.a.BeginCommit? then 0
      else Retries(states, events, t, i - 1) + if e.a == Release && t in before && before[t].Failed? then 1 else 0
  }

  lemma {:induction false} FailsCounted(states: seq<State>, events: seq<Event>, t: nat, i: nat)
    requires Run(states, events) && i < |states| && t in states[i].procs && InCommit(states[i].procs[t])
    ensures Fails(states[i].procs[t]) == Retries(states, events, t, i)
    decreases i
  {
    if i > 0 {
      var s, e := states[i - 1], events[i - 1];
      assert Enabled(s, e.t, e.a) && states[i] == Apply(s, e.t, e.a);
      if e.t != t || !e.a.BeginCommit? { FailsCounted(states, events, t, i - 1); }
    }
  }

  /** No commit retries more often than there are commits. */
  lemma RetriesBounded(states: seq<State>, events: seq<Event>, i: nat, t: nat)
    requires Run(states, events) && NoWrites(events) && i < |states| && t in states[i].procs && InCommit(states[i].procs[t])
    ensures Retries(states, events, t, i) <= |states[i].begun|
  {
    FailsCounted(states, events, t, i);
    RunCommits(states, events, i);
    RisingFits(states[i].hist, states[i].begun);
    assert CommitOk(states[i], states[i].procs[t]);
  }
}
