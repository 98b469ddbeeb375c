/**
 Two-phase locking is serializable: whatever the interleaving, committed transactions
 read and leave what a serial run in the order of their commits would.
 */
module Serializability {
  import opened Basics
  import opened LockTables
  import opened TwoPhaseLocking

  type Store = map<Rec, Val>

  // ----- locks -----

  predicate TakesLock(step: Step) { step.TryKey? && step.granted }

  lemma SameHoldsOpen(s: State, step: Step)
    requires Enabled(s, step) && PhaseOk(s.txns[step.t]) && !TakesLock(step)
    requires step.Select? || step.Insert? || step.TryKey? || step.Fetch? || step.Modify?
    ensures PhaseOk(NextTxn(s, step)) && Holds(NextTxn(s, step)) == Holds(s.txns[step.t])
  {
    hide Keys, Range, AccessHolds, Remaining;
    var x, x' := s.txns[step.t], NextTxn(s, step);
    match step
    case Select(_, rec, mode) => LockingHolds(x.accesses, rec, mode, 0);
    case Insert(_, rec) => LockingHolds(x.accesses, rec, InsertOnly, 0);
    case TryKey(_, _) => LockingHolds(x.accesses, x.phase.rec, x.phase.mode, x.phase.got);
    case Fetch(_, _) => FetchedHolds(x.accesses, x'.accesses[|x.accesses|]);
    case Modify(_, i, v) => AccessHoldsModify(x.accesses, i, v);
  }

  lemma SameHoldsEnd(s: State, step: Step)
    requires Enabled(s, step) && PhaseOk(s.txns[step.t])
    requires step.GiveUp? || step.Commit? || step.WriteBack? || step.NextAccess? || step.Finish? || step.Abort?
    ensures PhaseOk(NextTxn(s, step)) && Holds(NextTxn(s, step)) == Holds(s.txns[step.t])
  {
    hide Keys, Range, AccessHolds, Remaining;
    var x := s.txns[step.t];
    EndHolds(x.accesses);
    match step
    case GiveUp(_, _) => LockingHolds(x.accesses, x.phase.rec, x.phase.mode, x.phase.got);
    case NextAccess(_) => NextHolds(x.accesses, x.phase.done);
    case Finish(_) => NothingLeft(x);
    case _ =>
  }

  /** Steps that neither take nor give back a lock. */
  lemma SameHolds(s: State, step: Step)
    requires Enabled(s, step) && PhaseOk(s.txns[step.t]) && !TakesLock(step) && !step.RollKey? && !step.UnlockKey?
    ensures NextTable(s, step) == s.table && PhaseOk(NextTxn(s, step))
    ensures Holds(NextTxn(s, step)) == Holds(s.txns[step.t])
  {
    hide Keys, Holds, PhaseOk, NextTxn;
    if step.Select? || step.Insert? || step.TryKey? || step.Fetch? || step.Modify? {
      SameHoldsOpen(s, step);
    } else {
      SameHoldsEnd(s, step);
    }
  }

  lemma NothingLeft(x: Txn)
    requires PhaseOk(x) && (x.phase.Committing? || x.phase.Aborting?) && x.phase.done == |x.accesses|
    ensures Holds(x) == multiset{} == Holds(Txn([], Running))
  {
  }

  lemma TakesHold(s: State, step: Step) returns (k: Addr, w: bool)
    requires Enabled(s, step) && PhaseOk(s.txns[step.t]) && TakesLock(step)
    ensures PhaseOk(NextTxn(s, step)) && CanLock(s.table, k, w) && NextTable(s, step) == LockKey(s.table, k, w)
    ensures Holds(NextTxn(s, step)) == Holds(s.txns[step.t]) + multiset{Hold(k, w)}
  {
    hide Keys, LockKey, CanLock, Range, AccessHolds, Holds;
    var x := s.txns[step.t];
    k, w := Keys(x.phase.rec)[x.phase.got], IsWrite(x.phase.mode);
    LockingHolds(x.accesses, x.phase.rec, x.phase.mode, x.phase.got);
  }

  lemma GivesHold(s: State, step: Step) returns (k: Addr, w: bool)
    requires Enabled(s, step) && PhaseOk(s.txns[step.t]) && (step.RollKey? || step.UnlockKey?)
    ensures PhaseOk(NextTxn(s, step)) && NextTable(s, step) == FreeKey(s.table, k)
    ensures Holds(s.txns[step.t]) == Holds(NextTxn(s, step)) + multiset{Hold(k, w)}
  {
    hide Keys, FreeKey, Holds, PhaseOk, NextTxn, NextTable;
    if step.RollKey? { k, w := RollGives(s, step); } else { k, w := UnlockGives(s, step); }
  }

  lemma RollGives(s: State, step: Step) returns (k: Addr, w: bool)
    requires Enabled(s, step) && PhaseOk(s.txns[step.t]) && step.RollKey?
    ensures PhaseOk(NextTxn(s, step)) && NextTable(s, step) == FreeKey(s.table, k)
    ensures Holds(s.txns[step.t]) == Holds(NextTxn(s, step)) + multiset{Hold(k, w)}
  {
    hide Keys, FreeKey, Holds;
    var x := s.txns[step.t];
    k, w := Keys(x.phase.rec)[x.phase.freed], IsWrite(x.phase.mode);
    RolledHolds(x.accesses, x.phase.rec, x.phase.mode, x.phase.got, x.phase.freed);
  }

  lemma UnlockGives(s: State, step: Step) returns (k: Addr, w: bool)
    requires Enabled(s, step) && PhaseOk(s.txns[step.t]) && step.UnlockKey?
    ensures PhaseOk(NextTxn(s, step)) && NextTable(s, step) == FreeKey(s.table, k)
    ensures Holds(s.txns[step.t]) == Holds(NextTxn(s, step)) + multiset{Hold(k, w)}
  {
    hide Keys, FreeKey, Range, AccessHolds, Remaining;
    var x := s.txns[step.t];
    var a := x.accesses[x.phase.done];
    k, w := Keys(a.rec)[x.phase.freed], IsWrite(a.mode);
    UnlockedHolds(x.accesses, x.phase.done, x.phase.freed);
  }

  ghost predicate LocksOk(s: State) {
    (forall x | x in s.txns :: PhaseOk(x)) && Agree(s.table, All(s.txns))
  }

  /** The lock table keeps counting exactly the locks the threads still have to give back. */
  lemma LocksKept(s: State, step: Step)
    requires LocksOk(s) && Enabled(s, step)
    ensures LocksOk(Perform(s, step))
  {
    hide Holds, PhaseOk, Agree, All, FreeKey, LockKey, CanLock, Keys, NextTxn, NextTable;
    var t, x := step.t, NextTxn(s, step);
    if step.RollKey? || step.UnlockKey? {
      var k, w := GivesHold(s, step);
      AllGives(s.txns, t, x, Hold(k, w));
      FreeAgrees(s.table, All(s.txns), k, w);
    } else if TakesLock(step) {
      var k, w := TakesHold(s, step);
      AllTakes(s.txns, t, x, Hold(k, w));
      LockAgrees(s.table, All(s.txns), k, w);
    } else {
      SameHolds(s, step);
      AllSame(s.txns, t, x);
    }
  }

  // ----- values -----

  /** A record that is written is accessed once. */
  predicate WritesOnce(accs: seq<Access>) {
    forall i, j | 0 <= i < j < |accs| && accs[i].rec == accs[j].rec :: !Stores(accs[i].mode) && !Stores(accs[j].mode)
  }

  /** Access `i` of a committing transaction has yet to be written back. */
  predicate Unwritten(x: Txn, i: int) {
    x.phase.Committing? && 0 <= i < |x.accesses| && Stores(x.accesses[i].mode)
    && (i > x.phase.done || (i == x.phase.done && !x.phase.written))
  }

  predicate Open(x: Txn) { x.phase.Running? || x.phase.Locking? || x.phase.RollingBack? }

  predicate Known(m: Store, accs: seq<Access>) {
    forall i | 0 <= i < |accs| && !accs[i].mode.InsertOnly? :: accs[i].rec in m
  }

  ghost predicate TxnOk(m: Store, x: Txn) {
    && PhaseOk(x) && WritesOnce(x.accesses) && Known(m, x.accesses)
    && (x.phase.Locking? || x.phase.RollingBack? ==> x.phase.mode.InsertOnly? || x.phase.rec in m)
    && (Open(x) ==> Saw(m, x.accesses))
    && (forall i | Unwritten(x, i) :: m[x.accesses[i].rec] == x.accesses[i].value)
  }

  ghost predicate BeingWritten(txns: seq<Txn>, r: Rec) {
    exists t, i :: 0 <= t < |txns| && Unwritten(txns[t], i) && txns[t].accesses[i].rec == r
  }

  /** Memory holds the serial values, except where a commit is still writing. */
  ghost predicate ValuesOk(m: Store, values: Store, txns: seq<Txn>) {
    values.Keys == m.Keys && forall r | r in m :: values[r] == m[r] || BeingWritten(txns, r)
  }

  ghost predicate DataOk(m: Store, s: State) {
    (forall x | x in s.txns :: TxnOk(m, x)) && ValuesOk(m, s.values, s.txns)
  }

  ghost predicate Inv(m0: Store, s: State) {
    LocksOk(s) && SerialReads(m0, s.log) && DataOk(Replay(m0, s.log), s)
  }

  lemma HoldsAccess(x: Txn, i: nat)
    requires PhaseOk(x) && Open(x) && i < |x.accesses|
    ensures Hold(x.accesses[i].rec.addr, IsWrite(x.accesses[i].mode)) in Holds(x)
  {
    hide AccessHolds, Range, Keys;
    AccessHoldsKey(x.accesses, i);
  }

  lemma HoldsUnwritten(x: Txn, i: nat)
    requires PhaseOk(x) && Unwritten(x, i)
    ensures Hold(x.accesses[i].rec.addr, true) in Holds(x)
  {
    hide AccessHolds, Keys;
    var d := x.phase.done;
    if i > d {
      AccessHoldsKey(x.accesses[d + 1..], i - d - 1);
    }
  }

  lemma HoldsLocked(x: Txn)
    requires PhaseOk(x) && x.phase.Locking? && x.phase.got == |Keys(x.phase.rec)|
    ensures Hold(x.phase.rec.addr, IsWrite(x.phase.mode)) in Holds(x)
  {
    assert Range(x.phase.rec, IsWrite(x.phase.mode), 0, x.phase.got)
        == multiset{Hold(Keys(x.phase.rec)[0], IsWrite(x.phase.mode))}
          + Range(x.phase.rec, IsWrite(x.phase.mode), 1, x.phase.got);
  }

  /** A record locked by one thread is not being written by another. */
  lemma NotBeingWritten(s: State, t: nat, r: Rec, w: bool)
    requires LocksOk(s) && t < |s.txns| && Hold(r.addr, w) in Holds(s.txns[t]) && !s.txns[t].phase.Committing?
    ensures !BeingWritten(s.txns, r)
  {
    hide Holds, PhaseOk, Agree, All;
    forall u, i | 0 <= u < |s.txns| && Unwritten(s.txns[u], i) ensures s.txns[u].accesses[i].rec != r {
      HoldsUnwritten(s.txns[u], i);
      if s.txns[u].accesses[i].rec == r {
        Exclusion(s.table, s.txns, u, t, r.addr);
      }
    }
  }

  lemma {:induction false} EffectKeys(m: Store, accs: seq<Access>)
    requires Known(m, accs)
    ensures Effect(m, accs).Keys == m.Keys
    decreases |accs|
  {
    if accs != [] {
      var m' := if Stores(accs[0].mode) then m[accs[0].rec := accs[0].value] else m;
      assert m'.Keys == m.Keys;
      assert Known(m', accs[1..]);
      EffectKeys(m', accs[1..]);
    }
  }

  lemma {:induction false} EffectOther(m: Store, accs: seq<Access>, r: Rec)
    requires r in m && forall i | 0 <= i < |accs| && accs[i].rec == r :: !Stores(accs[i].mode)
    ensures r in Effect(m, accs) && Effect(m, accs)[r] == m[r]
    decreases |accs|
  {
    if accs != [] {
      EffectOther(if Stores(accs[0].mode) then m[accs[0].rec := accs[0].value] else m, accs[1..], r);
    }
  }

  lemma {:induction false} EffectWritten(m: Store, accs: seq<Access>, i: nat)
    requires i < |accs| && Stores(accs[i].mode) && WritesOnce(accs)
    ensures accs[i].rec in Effect(m, accs) && Effect(m, accs)[accs[i].rec] == accs[i].value
    decreases |accs|
  {
    var m' := if Stores(accs[0].mode) then m[accs[0].rec := accs[0].value] else m;
    if i == 0 {
      EffectOther(m', accs[1..], accs[0].rec);
    } else {
      EffectWritten(m', accs[1..], i - 1);
    }
  }

  /** The same values are still on their way after thread `t` has moved. */
  lemma StillWritten(m: Store, values: Store, txns: seq<Txn>, t: nat, x: Txn)
    requires ValuesOk(m, values, txns) && t < |txns|
    requires forall i | Unwritten(txns[t], i) :: Unwritten(x, i) && x.accesses[i].rec == txns[t].accesses[i].rec
    ensures ValuesOk(m, values, txns[t := x])
  {
    forall r | r in m && BeingWritten(txns, r) ensures BeingWritten(txns[t := x], r) {
      var u, i :| 0 <= u < |txns| && Unwritten(txns[u], i) && txns[u].accesses[i].rec == r;
      assert Unwritten(txns[t := x][u], i);
    }
  }

  predicate Quiet(step: Step) { !step.Fetch? && !step.Commit? && !step.WriteBack? }

  lemma QuietTxn(m: Store, s: State, step: Step)
    requires Enabled(s, step) && Quiet(step) && TxnOk(m, s.txns[step.t]) && s.values.Keys == m.Keys
    requires PhaseOk(NextTxn(s, step))
    ensures TxnOk(m, NextTxn(s, step))
    ensures var x, x' := s.txns[step.t], NextTxn(s, step);
      forall i | Unwritten(x, i) :: Unwritten(x', i) && x'.accesses[i].rec == x.accesses[i].rec
  {
    hide PhaseOk, Keys, CanLock;
  }

  /** A thread that has a record locked has no conflicting access to it in its list. */
  lemma NoUpgrade(s: State, t: nat, i: nat)
    requires LocksOk(s) && t < |s.txns| && s.txns[t].phase.Locking?
    requires s.txns[t].phase.got == |Keys(s.txns[t].phase.rec)|
    requires i < |s.txns[t].accesses| && s.txns[t].accesses[i].rec == s.txns[t].phase.rec
    ensures !IsWrite(s.txns[t].accesses[i].mode) && !IsWrite(s.txns[t].phase.mode)
  {
    hide AccessHolds, All, PhaseOk, WellFormed, Keys;
    var x := s.txns[t];
    var p, k := x.phase, x.phase.rec.addr;
    AccessHoldsKey(x.accesses, i);
    AllUpdate(s.txns, t, x);
    assert Hold(k, IsWrite(p.mode)) in Range(p.rec, IsWrite(p.mode), 0, p.got);
    var mine, all := Holds(x), All(s.txns);
    assert mine[Hold(k, true)] <= all[Hold(k, true)] && mine[Hold(k, false)] <= all[Hold(k, false)];
    assert all[Hold(k, true)] <= 1 && (all[Hold(k, true)] == 1 ==> all[Hold(k, false)] == 0);
  }

  lemma FetchKeeps(m: Store, s: State, step: Step)
    requires LocksOk(s) && DataOk(m, s) && Enabled(s, step) && step.Fetch?
    requires PhaseOk(NextTxn(s, step))
    ensures TxnOk(m, NextTxn(s, step)) && ValuesOk(m, s.values, s.txns[step.t := NextTxn(s, step)])
  {
    hide Holds, All, Agree, Keys;
    var t, x, x' := step.t, s.txns[step.t], NextTxn(s, step);
    assert x in s.txns && TxnOk(m, x);
    HoldsLocked(x);
    NotBeingWritten(s, t, x.phase.rec, IsWrite(x.phase.mode));
    forall i | 0 <= i < |x.accesses| && x.accesses[i].rec == x.phase.rec
      ensures !IsWrite(x.accesses[i].mode) && !IsWrite(x.phase.mode)
    {
      NoUpgrade(s, t, i);
    }
    StillWritten(m, s.values, s.txns, t, x');
  }

  /** Another thread's record is not one that a committing thread writes. */
  lemma OthersUntouched(m: Store, s: State, t: nat, u: nat, j: nat)
    requires LocksOk(s) && t < |s.txns| && u < |s.txns| && t != u && s.txns[t].phase.Running?
    requires j < |s.txns[u].accesses| && (Open(s.txns[u]) || Unwritten(s.txns[u], j))
    requires s.txns[u].accesses[j].rec in m
    ensures var r, m' := s.txns[u].accesses[j].rec, Effect(m, s.txns[t].accesses); r in m' && m'[r] == m[r]
  {
    hide Holds, All, Agree, PhaseOk, Effect;
    var accs, r := s.txns[t].accesses, s.txns[u].accesses[j].rec;
    if Open(s.txns[u]) { HoldsAccess(s.txns[u], j); } else { HoldsUnwritten(s.txns[u], j); }
    forall i | 0 <= i < |accs| && accs[i].rec == r ensures !IsWrite(accs[i].mode) {
      HoldsAccess(s.txns[t], i);
      if IsWrite(accs[i].mode) {
        Exclusion(s.table, s.txns, t, u, r.addr);
      }
    }
    EffectOther(m, accs, r);
  }

  lemma OthersKeep(m: Store, s: State, t: nat, u: nat)
    requires LocksOk(s) && t < |s.txns| && u < |s.txns| && t != u && s.txns[t].phase.Running?
    requires TxnOk(m, s.txns[u]) && Known(m, s.txns[t].accesses)
    ensures TxnOk(Effect(m, s.txns[t].accesses), s.txns[u])
  {
    hide LocksOk, PhaseOk, Effect;
    var x, m' := s.txns[u], Effect(m, s.txns[t].accesses);
    EffectKeys(m, s.txns[t].accesses);
    forall j | 0 <= j < |x.accesses| && !x.accesses[j].mode.InsertOnly? && (Open(x) || Unwritten(x, j))
      ensures m'[x.accesses[j].rec] == m[x.accesses[j].rec] {
      OthersUntouched(m, s, t, u, j);
    }
  }

  lemma CommitKeeps(m: Store, s: State, step: Step)
    requires LocksOk(s) && DataOk(m, s) && Enabled(s, step) && step.Commit?
    requires PhaseOk(NextTxn(s, step))
    ensures DataOk(Effect(m, s.txns[step.t].accesses), Perform(s, step))
  {
    hide LocksOk, PhaseOk, Effect;
    var t, x, x' := step.t, s.txns[step.t], NextTxn(s, step);
    var m', txns := Effect(m, x.accesses), s.txns[t := x'];
    assert x in s.txns && TxnOk(m, x);
    EffectKeys(m, x.accesses);
    forall i | Unwritten(x', i) ensures m'[x'.accesses[i].rec] == x'.accesses[i].value {
      EffectWritten(m, x.accesses, i);
    }
    forall u | 0 <= u < |txns| ensures TxnOk(m', txns[u]) {
      if u != t { OthersKeep(m, s, t, u); }
    }
    forall r | r in m' ensures s.values[r] == m'[r] || BeingWritten(txns, r) {
      CommitValue(m, s, step, r);
    }
  }

  lemma CommitValue(m: Store, s: State, step: Step, r: Rec)
    requires ValuesOk(m, s.values, s.txns) && Enabled(s, step) && step.Commit? && r in m
    requires r in Effect(m, s.txns[step.t].accesses)
    ensures s.values[r] == Effect(m, s.txns[step.t].accesses)[r] || BeingWritten(s.txns[step.t := NextTxn(s, step)], r)
  {
    hide Effect;
    var t, x, x' := step.t, s.txns[step.t], NextTxn(s, step);
    var txns := s.txns[t := x'];
    if i :| 0 <= i < |x.accesses| && x.accesses[i].rec == r && Stores(x.accesses[i].mode) {
      assert Unwritten(txns[t], i);
    } else {
      EffectOther(m, x.accesses, r);
      if BeingWritten(s.txns, r) {
        var u, i :| 0 <= u < |s.txns| && Unwritten(s.txns[u], i) && s.txns[u].accesses[i].rec == r;
        assert Unwritten(txns[u], i);
      }
    }
  }

  lemma WriteBackKeeps(m: Store, s: State, step: Step)
    requires DataOk(m, s) && Enabled(s, step) && step.WriteBack? && PhaseOk(NextTxn(s, step))
    ensures DataOk(m, Perform(s, step))
  {
    hide PhaseOk;
    var t, x, x' := step.t, s.txns[step.t], NextTxn(s, step);
    var a, values, txns := x.accesses[x.phase.done], NextValues(s, step), s.txns[t := x'];
    assert x in s.txns && TxnOk(m, x);
    if Stores(a.mode) {
      assert Unwritten(x, x.phase.done);
    }
    assert TxnOk(m, x') by {
      forall i | Unwritten(x', i) ensures Unwritten(x, i) {}
    }
    forall r | r in m ensures values[r] == m[r] || BeingWritten(txns, r) {
      if values[r] != m[r] {
        var u, i :| 0 <= u < |s.txns| && Unwritten(s.txns[u], i) && s.txns[u].accesses[i].rec == r;
        assert Unwritten(txns[u], i);
      }
    }
    assert forall y | y in txns :: TxnOk(m, y);
  }

  lemma ReplayAppend(m: Store, log: seq<seq<Access>>, accs: seq<Access>)
    ensures Replay(m, log + [accs]) == Effect(Replay(m, log), accs)
    ensures SerialReads(m, log) && Saw(Replay(m, log), accs) ==> SerialReads(m, log + [accs])
  {
    hide Effect;
    assert (log + [accs])[..|log|] == log;
    if SerialReads(m, log) && Saw(Replay(m, log), accs) {
      forall i | 0 <= i < |log + [accs]| ensures Saw(Replay(m, (log + [accs])[..i]), (log + [accs])[i]) {
        assert (log + [accs])[..i] == log[..i];
      }
    }
  }

  lemma QuietKeeps(m: Store, s: State, step: Step)
    requires DataOk(m, s) && Enabled(s, step) && Quiet(step) && PhaseOk(NextTxn(s, step))
    ensures DataOk(m, Perform(s, step))
  {
    hide PhaseOk, NextTxn, TxnOk;
    assert TxnOk(m, s.txns[step.t]);
    QuietTxn(m, s, step);
    StillWritten(m, s.values, s.txns, step.t, NextTxn(s, step));
    forall x | x in s.txns[step.t := NextTxn(s, step)] ensures TxnOk(m, x) {}
  }

  lemma StepKeeps(m0: Store, s: State, step: Step)
    requires Inv(m0, s) && Enabled(s, step)
    ensures Inv(m0, Perform(s, step))
  {
    hide TxnOk, ValuesOk, SerialReads, Replay, Agree, All, PhaseOk;
    var m := Replay(m0, s.log);
    LocksKept(s, step);
    assert NextTxn(s, step) in Perform(s, step).txns by { assert Perform(s, step).txns[step.t] == NextTxn(s, step); }
    if step.Fetch? {
      FetchKeeps(m, s, step);
      forall x | x in s.txns[step.t := NextTxn(s, step)] ensures TxnOk(m, x) {}
    } else if step.Commit? {
      CommitKeeps(m, s, step);
      ReplayAppend(m0, s.log, s.txns[step.t].accesses);
      OpenSaw(m, s.txns[step.t]);
    } else if step.WriteBack? {
      WriteBackKeeps(m, s, step);
    } else {
      QuietKeeps(m, s, step);
    }
  }

  lemma OpenSaw(m: Store, x: Txn)
    requires TxnOk(m, x) && Open(x)
    ensures Saw(m, x.accesses)
  {
  }

  // ----- whole runs -----

  predicate Legal(s: State, steps: seq<Step>)
    decreases |steps|
  {
    steps == [] || (Enabled(s, steps[0]) && Legal(Perform(s, steps[0]), steps[1..]))
  }

  function After(s: State, steps: seq<Step>): State
    requires Legal(s, steps)
    decreases |steps|
  {
    if steps == [] then s else After(Perform(s, steps[0]), steps[1..])
  }

  /** Every record in memory has a value of the serial run, at its end or earlier. */
  ghost predicate FromCommits(m0: Store, s: State) {
    s.values.Keys == m0.Keys && forall r | r in m0 :: FromPrefix(m0, s.log, r, s.values[r])
  }

  ghost predicate FromPrefix(m0: Store, log: seq<seq<Access>>, r: Rec, v: Val) {
    exists i :: 0 <= i <= |log| && r in Replay(m0, log[..i]) && v == Replay(m0, log[..i])[r]
  }

  lemma PrefixKept(m0: Store, log: seq<seq<Access>>, accs: seq<Access>, r: Rec, v: Val)
    requires FromPrefix(m0, log, r, v)
    ensures FromPrefix(m0, log + [accs], r, v)
  {
    hide Replay;
    var i :| 0 <= i <= |log| && r in Replay(m0, log[..i]) && v == Replay(m0, log[..i])[r];
    assert (log + [accs])[..i] == log[..i];
  }

  lemma FromCommitsKept(m0: Store, s: State, step: Step)
    requires Inv(m0, s) && FromCommits(m0, s) && Enabled(s, step)
    ensures FromCommits(m0, Perform(s, step))
  {
    hide Replay, LocksOk, SerialReads, PhaseOk, NextTxn, NextTable;
    var s', m := Perform(s, step), Replay(m0, s.log);
    var x := s.txns[step.t];
    assert x in s.txns && TxnOk(m, x);
    assert s.log[..|s.log|] == s.log;
    if step.Commit? {
      forall r | r in m0 ensures FromPrefix(m0, s'.log, r, s'.values[r]) {
        PrefixKept(m0, s.log, x.accesses, r, s.values[r]);
      }
    } else if step.WriteBack? && Stores(x.accesses[x.phase.done].mode) {
      assert Unwritten(x, x.phase.done);
    }
  }

  lemma {:induction false} InvAfter(m0: Store, s: State, steps: seq<Step>)
    requires Inv(m0, s) && FromCommits(m0, s) && Legal(s, steps)
    ensures Inv(m0, After(s, steps)) && FromCommits(m0, After(s, steps))
    decreases |steps|
  {
    hide Inv, FromCommits, Perform;
    if steps != [] {
      StepKeeps(m0, s, steps[0]);
      FromCommitsKept(m0, s, steps[0]);
      InvAfter(m0, Perform(s, steps[0]), steps[1..]);
    }
  }

  lemma {:induction false} NoHolds(txns: seq<Txn>)
    requires forall x | x in txns :: x == Txn([], Running)
    ensures All(txns) == multiset{}
    decreases |txns|
  {
    if txns != [] {
      assert txns[0] in txns && forall x | x in txns[1..] :: x in txns;
      NoHolds(txns[1..]);
    }
  }

  lemma InitHolds(m0: Store, s: State)
    requires Init(m0, s)
    ensures Inv(m0, s) && FromCommits(m0, s)
  {
    NoHolds(s.txns);
    assert Replay(m0, s.log) == m0;
    forall r | r in m0 ensures FromPrefix(m0, s.log, r, s.values[r]) {
      assert s.log[..0] == s.log;
    }
  }

  /** Serializability. In the serial run of the committed transactions, in the order
      their commits started, every transaction reads what it read; once no commit is
      in progress memory is what the serial run leaves. */
  lemma Serializable(m0: Store, s0: State, steps: seq<Step>)
    requires Init(m0, s0) && Legal(s0, steps)
    ensures var s := After(s0, steps);
      && SerialReads(m0, s.log)
      && ((forall t | 0 <= t < |s.txns| :: !s.txns[t].phase.Committing?) ==> s.values == Replay(m0, s.log))
  {
    hide Replay, SerialReads, LocksOk;
    InitHolds(m0, s0);
    InvAfter(m0, s0, steps);
  }

  /** Running and aborted transactions leave no trace: at every moment each record in
      memory has the value it has in the serial run of some first committed transactions. */
  lemma OnlyCommitsShow(m0: Store, s0: State, steps: seq<Step>, r: Rec)
    requires Init(m0, s0) && Legal(s0, steps) && r in m0
    ensures var s := After(s0, steps); r in s.values && FromPrefix(m0, s.log, r, s.values[r])
  {
    hide Inv, FromPrefix;
    InitHolds(m0, s0);
    InvAfter(m0, s0, steps);
  }

  lemma {:induction false} SomeHolder(txns: seq<Txn>, h: Hold) returns (t: nat)
    requires (forall x | x in txns :: PhaseOk(x)) && h in All(txns)
    ensures t < |txns| && h in Holds(txns[t])
    decreases |txns|
  {
    hide Holds, PhaseOk;
    if h in Holds(txns[0]) {
      t := 0;
    } else {
      var u := SomeHolder(txns[1..], h);
      t := u + 1;
    }
  }

  /** No lock outlives its transaction: every lock in the table is one that some
      thread took for a record in its access list, or is taking, and will give back. */
  lemma LocksAreHeld(m0: Store, s0: State, steps: seq<Step>, k: Addr)
    requires Init(m0, s0) && Legal(s0, steps) && k in After(s0, steps).table
    ensures exists t, w ::
      0 <= t < |After(s0, steps).txns| && PhaseOk(After(s0, steps).txns[t])
        && Hold(k, w) in Holds(After(s0, steps).txns[t])
  {
    hide Holds, PhaseOk, DataOk, SerialReads, All;
    InitHolds(m0, s0);
    InvAfter(m0, s0, steps);
    var s := After(s0, steps);
    var w := s.table[k].Exclusive?;
    var t := SomeHolder(s.txns, Hold(k, w));
  }

  /** With every transaction finished, no lock is left. */
  lemma AllReleased(m0: Store, s0: State, steps: seq<Step>)
    requires Init(m0, s0) && Legal(s0, steps)
    requires forall x | x in After(s0, steps).txns :: x == Txn([], Running)
    ensures After(s0, steps).table == map[]
  {
    hide Holds, PhaseOk, DataOk, SerialReads, All;
    InitHolds(m0, s0);
    InvAfter(m0, s0, steps);
    var s := After(s0, steps);
    NoHolds(s.txns);
    forall k ensures k !in s.table {
      assert Readers(s.table, k) == All(s.txns)[Hold(k, false)] && Writers(s.table, k) == All(s.txns)[Hold(k, true)];
    }
  }
}
