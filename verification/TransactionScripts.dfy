/**
 What transactions write: the records hold what the committed transactions last gave them,
 and that is what the threads asked for in their steps.
 */
module TransactionScripts {
  import opened Basics
  import opened LockTables
  import opened TwoPhaseLocking
  import opened Serializability

  // ----- the last committed values -----

  /** The value the list gives the record last, by an update or a deletion. */
  function LastIn(accs: seq<Access>, r: Rec): Option<Val>
    decreases |accs|
  {
    if accs == [] then None
    else
      var later := LastIn(accs[1..], r);
      if later.Some? then later
      else if accs[0].rec == r && (accs[0].mode.ReadWrite? || accs[0].mode.DeleteOnly?) then Some(accs[0].value)
      else None
  }

  /** The same over all committed transactions. */
  function LastOf(log: seq<seq<Access>>, r: Rec): Option<Val> {
    if log == [] then None
    else
      var last := LastIn(log[|log| - 1], r);
      if last.Some? then last else LastOf(log[..|log| - 1], r)
  }

  function Or(v: Option<Val>, w: Val): Val { if v.Some? then v.value else w }

  lemma {:induction false} EffectIsLast(m: Store, accs: seq<Access>, r: Rec)
    requires r in m
    ensures r in Effect(m, accs) && Effect(m, accs)[r] == Or(LastIn(accs, r), m[r])
    decreases |accs|
  {
    if accs != [] {
      var m' := if Stores(accs[0].mode) then m[accs[0].rec := accs[0].value] else m;
      EffectIsLast(m', accs[1..], r);
    }
  }

  lemma {:induction false} ReplayIsLast(m: Store, log: seq<seq<Access>>, r: Rec)
    requires r in m
    ensures r in Replay(m, log) && Replay(m, log)[r] == Or(LastOf(log, r), m[r])
    decreases |log|
  {
    hide Effect, LastIn;
    if log != [] {
      ReplayIsLast(m, log[..|log| - 1], r);
      EffectIsLast(Replay(m, log[..|log| - 1]), log[|log| - 1], r);
    }
  }

  /** With no commit in progress every record has the value that the last committed update
      or deletion gave it, and its first value if there was none. */
  lemma FinalValues(m0: Store, s0: State, steps: seq<Step>, r: Rec)
    requires Init(m0, s0) && Legal(s0, steps) && r in m0
    requires forall t | 0 <= t < |After(s0, steps).txns| :: !After(s0, steps).txns[t].phase.Committing?
    ensures var s := After(s0, steps); r in s.values && s.values[r] == Or(LastOf(s.log, r), m0[r])
  {
    hide Replay, SerialReads, LastOf, Init, Legal;
    Serializable(m0, s0, steps);
    ReplayIsLast(m0, After(s0, steps).log, r);
  }

  // ----- what the threads asked for -----

  /** One access as the steps of its thread describe it. */
  datatype Entry = Entry(rec: Rec, mode: Mode, hidden: Val, modified: Option<Val>)

  /** The accesses since the thread's last transaction, and the one being made. */
  datatype Script = Script(now: Option<(Rec, Mode)>, entries: seq<Entry>)

  function Read(sc: Script, step: Step): Script {
    match step
    case Select(_, rec, mode) => sc.(now := Some((rec, mode)))
    case Insert(_, rec) => sc.(now := Some((rec, InsertOnly)))
    case Fetch(_, hidden) =>
      if sc.now.None? then sc
      else Script(None, sc.entries + [Entry(sc.now.value.0, sc.now.value.1, hidden, None)])
    case Modify(_, i, v) =>
      if i < |sc.entries| then sc.(entries := sc.entries[i := sc.entries[i].(modified := Some(v))]) else sc
    case Finish(_) => Script(None, [])
    case _ => sc
  }

  /** The script of thread `t` after some steps. */
  function ScriptOf(steps: seq<Step>, t: nat): Script {
    if steps == [] then Script(None, [])
    else
      var sc, step := ScriptOf(steps[..|steps| - 1], t), steps[|steps| - 1];
      if step.t == t then Read(sc, step) else sc
  }

  /** The scripts of the transactions that have started to commit, in this order. */
  function Committed(steps: seq<Step>): seq<seq<Entry>> {
    if steps == [] then []
    else
      var most, step := steps[..|steps| - 1], steps[|steps| - 1];
      if step.Commit? then Committed(most) + [ScriptOf(most, step.t).entries] else Committed(most)
  }

  /** What an access leaves: the last modification, or else the record as it was read, or
      as it was made for a deletion or an insertion. */
  function ValueOf(e: Entry, seen: Val): Val {
    if e.modified.Some? then e.modified.value
    else if e.mode.DeleteOnly? || e.mode.InsertOnly? then e.hidden
    else seen
  }

  predicate Matches(e: Entry, a: Access) {
    a.rec == e.rec && a.mode == e.mode && a.value == ValueOf(e, a.seen)
  }

  predicate AllMatch(es: seq<Entry>, accs: seq<Access>) {
    |es| == |accs| && forall i | 0 <= i < |es| :: Matches(es[i], accs[i])
  }

  predicate Follows(sc: Script, x: Txn) {
    && AllMatch(sc.entries, x.accesses)
    && (x.phase.Locking? || x.phase.RollingBack? ==> sc.now == Some((x.phase.rec, x.phase.mode)))
  }

  lemma StepFollows(s: State, step: Step, sc: Script)
    requires Enabled(s, step) && Follows(sc, s.txns[step.t])
    ensures Follows(Read(sc, step), NextTxn(s, step))
  {
    hide Keys, CanLock;
  }

  ghost predicate RunFollows(s: State, steps: seq<Step>) {
    && (forall t | 0 <= t < |s.txns| :: Follows(ScriptOf(steps, t), s.txns[t]))
    && |Committed(steps)| == |s.log|
    && (forall i | 0 <= i < |s.log| :: AllMatch(Committed(steps)[i], s.log[i]))
  }

  lemma RunFollowsMore(s: State, steps: seq<Step>, step: Step)
    requires RunFollows(s, steps) && Enabled(s, step)
    ensures RunFollows(Perform(s, step), steps + [step])
  {
    hide Follows, AllMatch, NextTxn, NextTable, NextValues, Enabled, Read;
    assert (steps + [step])[..|steps|] == steps;
    ThreadKnown(s, step);
    StepFollows(s, step, ScriptOf(steps, step.t));
    if step.Commit? { FollowsMatches(ScriptOf(steps, step.t), s.txns[step.t]); }
  }

  lemma ThreadKnown(s: State, step: Step)
    requires Enabled(s, step)
    ensures step.t < |s.txns|
  {
  }

  lemma FollowsMatches(sc: Script, x: Txn)
    requires Follows(sc, x)
    ensures AllMatch(sc.entries, x.accesses)
  {
  }

  lemma {:induction false} FollowsAfter(s: State, before: seq<Step>, steps: seq<Step>)
    requires RunFollows(s, before) && Legal(s, steps)
    ensures RunFollows(After(s, steps), before + steps)
    decreases |steps|
  {
    hide RunFollows, Perform, Enabled;
    if steps == [] {
      assert before + steps == before;
    } else {
      RunFollowsMore(s, before, steps[0]);
      assert (before + [steps[0]]) + steps[1..] == before + steps;
      FollowsAfter(Perform(s, steps[0]), before + [steps[0]], steps[1..]);
    }
  }

  /** Every committed access is the one its thread asked for, with the value of the last
      modification the thread made of it. */
  lemma CommittedAsAsked(m0: Store, s0: State, steps: seq<Step>)
    requires Init(m0, s0) && Legal(s0, steps)
    ensures var log := After(s0, steps).log;
      |log| == |Committed(steps)| && forall i | 0 <= i < |log| :: AllMatch(Committed(steps)[i], log[i])
  {
    hide AllMatch, Legal;
    assert RunFollows(s0, []) by { StartFollows(m0, s0); }
    FollowsAfter(s0, [], steps);
    assert [] + steps == steps;
  }

  lemma StartFollows(m0: Store, s0: State)
    requires Init(m0, s0)
    ensures RunFollows(s0, [])
  {
  }

  // ----- aborted transactions -----

  /** How the transaction of thread `t` stands: open, committing or aborted. */
  datatype Stage = InProgress | Ending | GivenUp

  function StageOf(steps: seq<Step>, t: nat): Stage {
    if steps == [] then InProgress
    else
      var before, step := StageOf(steps[..|steps| - 1], t), steps[|steps| - 1];
      if step.t != t then before
      else if step.Commit? then Ending
      else if step.Abort? || (step.GiveUp? && !step.again) then GivenUp
      else if step.Finish? then InProgress
      else before
  }

  predicate Stands(stage: Stage, x: Txn) {
    match stage
    case InProgress => Open(x)
    case Ending => x.phase.Committing?
    case GivenUp => x.phase.Aborting?
  }

  ghost predicate AllStand(s: State, steps: seq<Step>) {
    forall t | 0 <= t < |s.txns| :: Stands(StageOf(steps, t), s.txns[t])
  }

  lemma StandsMore(s: State, steps: seq<Step>, step: Step)
    requires AllStand(s, steps) && Enabled(s, step)
    ensures AllStand(Perform(s, step), steps + [step])
  {
    hide Keys, CanLock, NextTable, NextValues;
    assert (steps + [step])[..|steps|] == steps;
    assert Stands(StageOf(steps, step.t), s.txns[step.t]);
  }

  lemma {:induction false} StandsAfter(s: State, before: seq<Step>, steps: seq<Step>)
    requires AllStand(s, before) && Legal(s, steps)
    ensures AllStand(After(s, steps), before + steps)
    decreases |steps|
  {
    hide AllStand, Perform, Enabled;
    if steps == [] {
      assert before + steps == before;
    } else {
      StandsMore(s, before, steps[0]);
      assert (before + [steps[0]]) + steps[1..] == before + steps;
      StandsAfter(Perform(s, steps[0]), before + [steps[0]], steps[1..]);
    }
  }

  lemma OnlyOpenCommit(s: State, t: nat, stage: Stage)
    requires t < |s.txns| && Stands(stage, s.txns[t])
    ensures stage.GivenUp? ==> forall step: Step | step.t == t && Enabled(s, step) ::
      step.UnlockKey? || step.NextAccess? || step.Finish?
  {
    hide Keys, CanLock;
  }

  /** A transaction that has aborted, by itself or for want of a lock, does nothing any more
      but give back its locks. */
  lemma AbortedOnlyReleases(m0: Store, s0: State, steps: seq<Step>, step: Step)
    requires Init(m0, s0) && Legal(s0, steps) && Enabled(After(s0, steps), step)
    requires StageOf(steps, step.t).GivenUp?
    ensures step.UnlockKey? || step.NextAccess? || step.Finish?
  {
    hide Legal, Stands, StageOf, Enabled;
    assert AllStand(s0, []) by { StartStands(m0, s0); }
    StandsAfter(s0, [], steps);
    assert [] + steps == steps;
    var s := After(s0, steps);
    ThreadKnown(s, step);
    OnlyOpenCommit(s, step.t, StageOf(steps, step.t));
  }

  lemma StartStands(m0: Store, s0: State)
    requires Init(m0, s0)
    ensures AllStand(s0, [])
  {
  }

  // ----- no thread is stuck -----

  lemma NextStep(s: State, t: nat) returns (step: Step)
    requires t < |s.txns| && PhaseOk(s.txns[t])
    requires var p := s.txns[t].phase; p.Locking? ==> p.mode.InsertOnly? || p.rec in s.values
    ensures step.t == t && Enabled(s, step)
  {
    hide Keys, CanLock;
    var x := s.txns[t];
    match x.phase
    case Running => step := Step.Commit(t);
    case Locking(r, _, got) =>
      if got < |Keys(r)| { step := TryKey(t, false); } else { step := Fetch(t, 0); }
    case RollingBack(_, _, got, freed) =>
      if freed < got { step := RollKey(t); } else { step := GiveUp(t, true); }
    case Committing(done, written, freed) =>
      if done == |x.accesses| { step := Finish(t); }
      else if !written { step := WriteBack(t); }
      else if freed < |Keys(x.accesses[done].rec)| { step := UnlockKey(t); }
      else { step := NextAccess(t); }
    case Aborting(done, freed) =>
      if done == |x.accesses| { step := Finish(t); }
      else if freed < |Keys(x.accesses[done].rec)| { step := UnlockKey(t); }
      else { step := NextAccess(t); }
  }

  /** In every run every thread can take a step. */
  lemma NeverStuck(m0: Store, s0: State, steps: seq<Step>, t: nat) returns (step: Step)
    requires Init(m0, s0) && Legal(s0, steps) && t < |After(s0, steps).txns|
    ensures step.t == t && Enabled(After(s0, steps), step)
  {
    hide Replay, SerialReads, Agree, Legal, Init, Enabled, PhaseOk;
    InitHolds(m0, s0);
    InvAfter(m0, s0, steps);
    var s := After(s0, steps);
    assert s.txns[t] in s.txns;
    step := NextStep(s, t);
  }
}
