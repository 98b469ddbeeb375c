/**
 Transactions under two-phase locking, as a state machine over all threads: a step
 is one lock or unlock request for one block, one record read, one record write-back,
 or a move of a client. Threads interleave freely.
 */
module TwoPhaseLocking {
  import opened Basics
  import opened LockTables

  type Val = int

  datatype RecordRange = RecordRange(addr: Addr, size: nat)

  /** An indexed record: where it is and how many bytes it has. */
  type Rec = r: RecordRange | r.size > 0 witness RecordRange(0, 1)

  datatype Mode = ReadOnly | ReadWrite | DeleteOnly | InsertOnly

  /** The access takes an exclusive lock. */
  predicate IsWrite(m: Mode) { !m.ReadOnly? }

  /** The access is written back by a commit; a new record is not. */
  predicate Stores(m: Mode) { m.ReadWrite? || m.DeleteOnly? }

  /** One entry of an access list: the record as read, and the local copy now. */
  datatype Access = Access(rec: Rec, mode: Mode, seen: Val, value: Val)

  datatype Phase =
    | Running
    | Locking(rec: Rec, mode: Mode, got: nat)
    | RollingBack(rec: Rec, mode: Mode, got: nat, freed: nat)
    | Committing(done: nat, written: bool, freed: nat)
    | Aborting(done: nat, freed: nat)

  /** A thread's transaction manager: its access list and where it is in its code. */
  datatype Txn = Txn(accesses: seq<Access>, phase: Phase)

  datatype State = State(
    values: map<Rec, Val>,       // the records in global memory
    table: Table,                // the locks
    txns: seq<Txn>,              // one transaction manager for each thread
    log: seq<seq<Access>>)       // access lists of committed transactions, in the order their commits started

  datatype Step =
    | Select(t: nat, rec: Rec, mode: Mode)
    | Insert(t: nat, rec: Rec)          // a new record, which no index leads to
    | TryKey(t: nat, granted: bool)     // a free lock may still be refused, a held one is never granted
    | Fetch(t: nat, hidden: Val)
    | RollKey(t: nat)
    | GiveUp(t: nat, again: bool)       // `again` while the limit on tries is not reached
    | Modify(t: nat, i: nat, value: Val)
    | Commit(t: nat)
    | WriteBack(t: nat)
    | UnlockKey(t: nat)
    | NextAccess(t: nat)
    | Finish(t: nat)
    | Abort(t: nat)

  function Keys(r: Rec): (keys: seq<Addr>)
    ensures |keys| > 0 && keys[0] == r.addr
  {
    BlockKeys(r.addr, r.size)
  }

  predicate Enabled(s: State, step: Step) {
    step.t < |s.txns| &&
    var x := s.txns[step.t];
    match step
    case Select(_, rec, mode) => x.phase.Running? && rec in s.values && !mode.InsertOnly?
    case Insert(_, rec) => x.phase.Running? && rec !in s.values
    case TryKey(_, granted) =>
      x.phase.Locking? && x.phase.got < |Keys(x.phase.rec)|
      && (granted ==> CanLock(s.table, Keys(x.phase.rec)[x.phase.got], IsWrite(x.phase.mode)))
    case Fetch(_, _) =>
      x.phase.Locking? && x.phase.got == |Keys(x.phase.rec)| && (x.phase.mode.InsertOnly? || x.phase.rec in s.values)
    case RollKey(_) => x.phase.RollingBack? && x.phase.freed < x.phase.got <= |Keys(x.phase.rec)|
    // an insertion that gives up breaks an assertion and ends the process
    case GiveUp(_, again) =>
      x.phase.RollingBack? && x.phase.freed >= x.phase.got && (x.phase.mode.InsertOnly? ==> again)
    case Modify(_, i, _) => x.phase.Running? && i < |x.accesses|
    case Commit(_) => x.phase.Running?
    case WriteBack(_) => x.phase.Committing? && x.phase.done < |x.accesses| && !x.phase.written
    case UnlockKey(_) =>
      (x.phase.Committing? || x.phase.Aborting?) && x.phase.done < |x.accesses|
      && (x.phase.Committing? ==> x.phase.written) && x.phase.freed < |Keys(x.accesses[x.phase.done].rec)|
    case NextAccess(_) =>
      (x.phase.Committing? || x.phase.Aborting?) && x.phase.done < |x.accesses|
      && (x.phase.Committing? ==> x.phase.written) && x.phase.freed >= |Keys(x.accesses[x.phase.done].rec)|
    case Finish(_) => (x.phase.Committing? || x.phase.Aborting?) && x.phase.done >= |x.accesses|
    case Abort(_) => x.phase.Running?
  }

  /** The thread after its step. */
  function NextTxn(s: State, step: Step): Txn
    requires Enabled(s, step)
  {
    var x := s.txns[step.t];
    var p := x.phase;
    match step
    case Select(_, rec, mode) => Txn(x.accesses, Locking(rec, mode, 0))
    case Insert(_, rec) => Txn(x.accesses, Locking(rec, InsertOnly, 0))
    case TryKey(_, granted) =>
      if granted then Txn(x.accesses, Locking(p.rec, p.mode, p.got + 1))
      else Txn(x.accesses, RollingBack(p.rec, p.mode, p.got, 0))
    case Fetch(_, hidden) =>
      var v := if p.mode.InsertOnly? then hidden else s.values[p.rec];
      Txn(x.accesses + [Access(p.rec, p.mode, v, if p.mode.DeleteOnly? then hidden else v)], Running)
    case RollKey(_) => Txn(x.accesses, RollingBack(p.rec, p.mode, p.got, p.freed + 1))
    case GiveUp(_, again) => Txn(x.accesses, if again then Locking(p.rec, p.mode, 0) else Aborting(0, 0))
    case Modify(_, i, v) => Txn(x.accesses[i := x.accesses[i].(value := v)], Running)
    case Commit(_) => Txn(x.accesses, Committing(0, false, 0))
    case WriteBack(_) => Txn(x.accesses, Committing(p.done, true, p.freed))
    case UnlockKey(_) => Txn(x.accesses, Unlocked(p))
    case NextAccess(_) =>
      Txn(x.accesses, if p.Committing? then Committing(p.done + 1, false, 0) else Aborting(p.done + 1, 0))
    case Finish(_) => Txn([], Running)
    case Abort(_) => Txn(x.accesses, Aborting(0, 0))
  }

  function NextTable(s: State, step: Step): Table
    requires Enabled(s, step)
  {
    var x := s.txns[step.t];
    var p := x.phase;
    match step
    case TryKey(_, granted) => if granted then LockKey(s.table, Keys(p.rec)[p.got], IsWrite(p.mode)) else s.table
    case RollKey(_) => FreeKey(s.table, Keys(p.rec)[p.freed])
    case UnlockKey(_) => FreeKey(s.table, Keys(x.accesses[p.done].rec)[p.freed])
    case _ => s.table
  }

  function NextValues(s: State, step: Step): map<Rec, Val>
    requires Enabled(s, step)
  {
    var x := s.txns[step.t];
    if step.WriteBack? && Stores(x.accesses[x.phase.done].mode)
    then s.values[x.accesses[x.phase.done].rec := x.accesses[x.phase.done].value]
    else s.values
  }

  function NextLog(s: State, step: Step): seq<seq<Access>>
    requires Enabled(s, step)
  {
    if step.Commit? then s.log + [s.txns[step.t].accesses] else s.log
  }

  function Perform(s: State, step: Step): State
    requires Enabled(s, step)
  {
    State(NextValues(s, step), NextTable(s, step), s.txns[step.t := NextTxn(s, step)], NextLog(s, step))
  }

  function Unlocked(p: Phase): Phase
    requires p.Committing? || p.Aborting?
  {
    if p.Committing? then Committing(p.done, p.written, p.freed + 1) else Aborting(p.done, p.freed + 1)
  }

  predicate Init(m0: map<Rec, Val>, s: State) {
    s.values == m0 && s.table == map[] && s.log == [] && forall t | 0 <= t < |s.txns| :: s.txns[t] == Txn([], Running)
  }

  // ----- the serial run -----

  /** One transaction run alone: its writes, in access order. */
  function Effect(m: map<Rec, Val>, accs: seq<Access>): map<Rec, Val>
    decreases |accs|
  {
    if accs == [] then m
    else Effect(if Stores(accs[0].mode) then m[accs[0].rec := accs[0].value] else m, accs[1..])
  }

  /** The committed transactions run one after the other. */
  function Replay(m: map<Rec, Val>, log: seq<seq<Access>>): map<Rec, Val> {
    if log == [] then m else Effect(Replay(m, log[..|log| - 1]), log[|log| - 1])
  }

  /** Every record, unless it is a new one, was read with the value it has in `m`. */
  predicate Saw(m: map<Rec, Val>, accs: seq<Access>) {
    forall i | 0 <= i < |accs| && !accs[i].mode.InsertOnly? :: accs[i].rec in m && accs[i].seen == m[accs[i].rec]
  }

  /** Every committed transaction read what it would have read in the serial run. */
  predicate SerialReads(m: map<Rec, Val>, log: seq<seq<Access>>) {
    forall i | 0 <= i < |log| :: Saw(Replay(m, log[..i]), log[i])
  }

  // ----- who holds which lock -----

  datatype Hold = Hold(key: Addr, write: bool)

  function Range(r: Rec, write: bool, i: nat, j: nat): multiset<Hold>
    requires j <= |Keys(r)|
    decreases j - i
  {
    if i >= j then multiset{} else multiset{Hold(Keys(r)[i], write)} + Range(r, write, i + 1, j)
  }

  function AccessHolds(accs: seq<Access>): multiset<Hold>
    decreases |accs|
  {
    if accs == [] then multiset{}
    else Range(accs[0].rec, IsWrite(accs[0].mode), 0, |Keys(accs[0].rec)|) + AccessHolds(accs[1..])
  }

  predicate PhaseOk(x: Txn) {
    match x.phase
    case Running => true
    case Locking(r, _, got) => got <= |Keys(r)|
    case RollingBack(r, _, got, freed) => freed <= got <= |Keys(r)|
    case Committing(done, written, freed) =>
      done <= |x.accesses| && (!written ==> freed == 0)
        && (done < |x.accesses| ==> freed <= |Keys(x.accesses[done].rec)|)
    case Aborting(done, freed) =>
      done <= |x.accesses| && (done < |x.accesses| ==> freed <= |Keys(x.accesses[done].rec)|)
  }

  /** The locks a thread must still give back. */
  function Holds(x: Txn): multiset<Hold>
    requires PhaseOk(x)
  {
    match x.phase
    case Running => AccessHolds(x.accesses)
    case Locking(r, m, got) => AccessHolds(x.accesses) + Range(r, IsWrite(m), 0, got)
    case RollingBack(r, m, got, freed) => AccessHolds(x.accesses) + Range(r, IsWrite(m), freed, got)
    case Committing(done, _, freed) => Remaining(x.accesses, done, freed)
    case Aborting(done, freed) => Remaining(x.accesses, done, freed)
  }

  function Remaining(accs: seq<Access>, done: nat, freed: nat): multiset<Hold>
    requires done <= |accs|
  {
    if done == |accs| then multiset{}
    else Range(accs[done].rec, IsWrite(accs[done].mode), freed, |Keys(accs[done].rec)|) + AccessHolds(accs[done + 1..])
  }

  function All(txns: seq<Txn>): multiset<Hold>
    requires forall x | x in txns :: PhaseOk(x)
    decreases |txns|
  {
    if txns == [] then multiset{} else Holds(txns[0]) + All(txns[1..])
  }

  function Readers(t: Table, k: Addr): nat { if k in t && t[k].Shared? then t[k].readers else 0 }

  function Writers(t: Table, k: Addr): nat { if k in t && t[k].Exclusive? then 1 else 0 }

  /** The lock table counts exactly the locks the threads hold. */
  ghost predicate Agree(t: Table, all: multiset<Hold>) {
    WellFormed(t) && forall k :: all[Hold(k, false)] == Readers(t, k) && all[Hold(k, true)] == Writers(t, k)
  }

  lemma LockAgrees(t: Table, all: multiset<Hold>, k: Addr, write: bool)
    requires Agree(t, all) && CanLock(t, k, write)
    ensures Agree(LockKey(t, k, write), all + multiset{Hold(k, write)})
  {
  }

  lemma FreeAgrees(t: Table, all: multiset<Hold>, k: Addr, write: bool)
    requires Agree(t, all) && Hold(k, write) in all
    ensures Agree(FreeKey(t, k), all - multiset{Hold(k, write)})
  {
    assert Readers(t, k) == all[Hold(k, false)] && Writers(t, k) == all[Hold(k, true)];
  }

  lemma {:induction false} AllUpdate(txns: seq<Txn>, t: nat, x: Txn)
    requires t < |txns| && PhaseOk(x) && forall y | y in txns :: PhaseOk(y)
    ensures forall y | y in txns[t := x] :: PhaseOk(y)
    ensures Holds(txns[t]) <= All(txns) && All(txns[t := x]) == All(txns) - Holds(txns[t]) + Holds(x)
    decreases |txns|
  {
    hide Holds, PhaseOk;
    if t == 0 {
      assert txns[0 := x] == [x] + txns[1..];
    } else {
      AllUpdate(txns[1..], t - 1, x);
      assert txns[t := x][1..] == txns[1..][t - 1 := x];
    }
  }

  lemma AllSame(txns: seq<Txn>, t: nat, x: Txn)
    requires t < |txns| && PhaseOk(x) && (forall y | y in txns :: PhaseOk(y)) && Holds(x) == Holds(txns[t])
    ensures (forall y | y in txns[t := x] :: PhaseOk(y)) && All(txns[t := x]) == All(txns)
  {
    hide Holds, PhaseOk, All;
    AllUpdate(txns, t, x);
  }

  lemma AllTakes(txns: seq<Txn>, t: nat, x: Txn, h: Hold)
    requires t < |txns| && PhaseOk(x) && (forall y | y in txns :: PhaseOk(y))
    requires Holds(x) == Holds(txns[t]) + multiset{h}
    ensures (forall y | y in txns[t := x] :: PhaseOk(y)) && All(txns[t := x]) == All(txns) + multiset{h}
  {
    hide Holds, PhaseOk, All;
    AllUpdate(txns, t, x);
  }

  lemma AllGives(txns: seq<Txn>, t: nat, x: Txn, h: Hold)
    requires t < |txns| && PhaseOk(x) && (forall y | y in txns :: PhaseOk(y))
    requires Holds(txns[t]) == Holds(x) + multiset{h}
    ensures (forall y | y in txns[t := x] :: PhaseOk(y)) && All(txns[t := x]) == All(txns) - multiset{h}
    ensures h in All(txns)
  {
    hide Holds, PhaseOk, All;
    AllUpdate(txns, t, x);
    assert h in Holds(txns[t]);
  }

  lemma {:induction false} AllTwo(txns: seq<Txn>, t: nat, u: nat)
    requires t < u < |txns| && forall y | y in txns :: PhaseOk(y)
    ensures Holds(txns[t]) + Holds(txns[u]) <= All(txns)
    decreases |txns|
  {
    hide Holds, PhaseOk;
    if t == 0 {
      AllUpdate(txns[1..], u - 1, txns[u]);
    } else {
      AllTwo(txns[1..], t - 1, u - 1);
    }
  }

  /** A key held exclusively by one thread is held by no other. */
  lemma Exclusion(table: Table, txns: seq<Txn>, t: nat, u: nat, k: Addr)
    requires t < |txns| && u < |txns| && t != u && forall y | y in txns :: PhaseOk(y)
    requires Agree(table, All(txns)) && Hold(k, true) in Holds(txns[t])
    ensures forall w: bool :: Hold(k, w) !in Holds(txns[u])
  {
    hide Holds, PhaseOk, All, WellFormed;
    if t < u { AllTwo(txns, t, u); } else { AllTwo(txns, u, t); }
    var both := Holds(txns[t]) + Holds(txns[u]);
    assert both[Hold(k, true)] <= All(txns)[Hold(k, true)] && both[Hold(k, false)] <= All(txns)[Hold(k, false)];
  }

  lemma {:induction false} AccessHoldsAppend(accs: seq<Access>, a: Access)
    ensures AccessHolds(accs + [a]) == AccessHolds(accs) + Range(a.rec, IsWrite(a.mode), 0, |Keys(a.rec)|)
    decreases |accs|
  {
    if accs != [] {
      assert (accs + [a])[1..] == accs[1..] + [a];
      AccessHoldsAppend(accs[1..], a);
    } else {
      assert (accs + [a])[1..] == [];
    }
  }

  lemma {:induction false} AccessHoldsKey(accs: seq<Access>, i: nat)
    requires i < |accs|
    ensures Hold(accs[i].rec.addr, IsWrite(accs[i].mode)) in AccessHolds(accs)
    decreases |accs|
  {
    if i > 0 { AccessHoldsKey(accs[1..], i - 1); }
  }

  lemma {:induction false} AccessHoldsModify(accs: seq<Access>, i: nat, v: Val)
    requires i < |accs|
    ensures AccessHolds(accs[i := accs[i].(value := v)]) == AccessHolds(accs)
    decreases |accs|
  {
    var accs' := accs[i := accs[i].(value := v)];
    if i == 0 {
      assert accs'[1..] == accs[1..];
    } else {
      AccessHoldsModify(accs[1..], i - 1, v);
      assert accs'[1..] == accs[1..][i - 1 := accs[i].(value := v)];
    }
  }

  lemma RangeNone(r: Rec, write: bool, i: nat, j: nat)
    requires j <= i && j <= |Keys(r)|
    ensures Range(r, write, i, j) == multiset{}
  {
  }

  lemma RangeFirst(r: Rec, write: bool, i: nat, j: nat)
    requires i < j <= |Keys(r)|
    ensures Range(r, write, i, j) == multiset{Hold(Keys(r)[i], write)} + Range(r, write, i + 1, j)
  {
    hide Keys;
  }

  lemma {:induction false} RangeLast(r: Rec, write: bool, i: nat, j: nat)
    requires i <= j < |Keys(r)|
    ensures Range(r, write, i, j + 1) == Range(r, write, i, j) + multiset{Hold(Keys(r)[j], write)}
    decreases j - i
  {
    hide Keys, Range;
    RangeFirst(r, write, i, j + 1);
    if i < j {
      RangeLast(r, write, i + 1, j);
      RangeFirst(r, write, i, j);
    } else {
      RangeNone(r, write, i, i);
      RangeNone(r, write, i + 1, i + 1);
    }
  }

  lemma RemainingAll(accs: seq<Access>, d: nat)
    requires d <= |accs|
    ensures Remaining(accs, d, 0) == AccessHolds(accs[d..])
  {
    hide Range;
    if d < |accs| { assert accs[d..][1..] == accs[d + 1..]; }
  }

  /** A transaction that starts to commit or to abort still holds all its locks. */
  lemma EndHolds(accs: seq<Access>)
    ensures Holds(Txn(accs, Committing(0, false, 0))) == AccessHolds(accs) == Holds(Txn(accs, Aborting(0, 0)))
  {
    RemainingAll(accs, 0);
    assert accs[0..] == accs;
  }

  lemma LockingHolds(accs: seq<Access>, r: Rec, m: Mode, got: nat)
    requires got <= |Keys(r)|
    ensures Holds(Txn(accs, Locking(r, m, 0))) == AccessHolds(accs) == Holds(Txn(accs, RollingBack(r, m, got, got)))
    ensures Holds(Txn(accs, RollingBack(r, m, got, 0))) == Holds(Txn(accs, Locking(r, m, got)))
    ensures got < |Keys(r)| ==>
      Holds(Txn(accs, Locking(r, m, got + 1))) ==
        Holds(Txn(accs, Locking(r, m, got))) + multiset{Hold(Keys(r)[got], IsWrite(m))}
  {
    hide Keys, AccessHolds;
    if got < |Keys(r)| { RangeLast(r, IsWrite(m), 0, got); }
  }

  lemma FetchedHolds(accs: seq<Access>, a: Access)
    ensures Holds(Txn(accs + [a], Running)) == Holds(Txn(accs, Locking(a.rec, a.mode, |Keys(a.rec)|)))
  {
    hide Keys, AccessHolds, Range;
    AccessHoldsAppend(accs, a);
  }

  lemma RolledHolds(accs: seq<Access>, r: Rec, m: Mode, got: nat, freed: nat)
    requires freed < got <= |Keys(r)|
    ensures Holds(Txn(accs, RollingBack(r, m, got, freed))) ==
      Holds(Txn(accs, RollingBack(r, m, got, freed + 1))) + multiset{Hold(Keys(r)[freed], IsWrite(m))}
  {
    hide Keys, AccessHolds;
  }

  lemma UnlockedHolds(accs: seq<Access>, d: nat, freed: nat)
    requires d < |accs| && freed < |Keys(accs[d].rec)|
    ensures Remaining(accs, d, freed) ==
      Remaining(accs, d, freed + 1) + multiset{Hold(Keys(accs[d].rec)[freed], IsWrite(accs[d].mode))}
  {
    hide Keys, AccessHolds;
  }

  lemma NextHolds(accs: seq<Access>, d: nat)
    requires d < |accs|
    ensures Remaining(accs, d, |Keys(accs[d].rec)|) == Remaining(accs, d + 1, 0)
  {
    hide Keys, AccessHolds;
    RemainingAll(accs, d + 1);
  }
}
