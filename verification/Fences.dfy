/**
 The fence of one application thread, as a state machine: the thread issues
 operations, asynchronous writes complete at any moment, and a worker thread drains
 the fenced operations once no write is pending. Store fences are not modelled.
 */
module Fences {
  import opened Basics

  datatype Op = Read | Write(asynchronous: bool) | MFence | Lock | Unlock

  predicate NeedsQuiet(op: Op) { op.Lock? || op.Unlock? }

  /** A request keeps the number it got when it was issued. */
  datatype Request = Request(id: nat, op: Op)

  /** A request was started, while the asynchronous writes `pending` were. */
  datatype Started = Started(req: Request, pending: set<nat>)

  /** The fence and its history: the operations in the order they were issued, and the
      requests in the order they were started. */
  datatype State = State(
    mfenced: bool,
    inProcess: bool,
    pendingWrites: int,
    pendingWorks: seq<Request>,
    issued: seq<Op>,
    starts: seq<Started>,
    pending: set<nat>)        // the asynchronous writes started and not completed

  datatype Step =
    | Issue(op: Op)
    | Complete(i: nat)        // an asynchronous write has completed
    | Begin                   // ProcessFenced finds no pending write
    | ServeFront              // ... and takes the first fenced operation
    | End                     // ... until none is left

  predicate Enabled(s: State, step: Step) {
    match step
    case Issue(_) => !s.inProcess      // the fence is locked meanwhile
    case Complete(i) => i in s.pending
    case Begin => !s.inProcess && s.mfenced && s.pendingWrites == 0
    case ServeFront => s.inProcess && s.pendingWorks != []
    case End => s.inProcess && s.pendingWorks == []
  }

  /** A request starts. */
  function Start(s: State, r: Request): State {
    var s' := s.(starts := s.starts + [Started(r, s.pending)]);
    if r.op == Write(true) then s'.(pendingWrites := s.pendingWrites + 1, pending := s.pending + {r.id}) else s'
  }

  function Perform(s: State, step: Step): State
    requires Enabled(s, step)
  {
    match step
    case Issue(op) =>
      var r, s1 := Request(|s.issued|, op), s.(issued := s.issued + [op]);
      if s.mfenced then s1.(pendingWorks := s.pendingWorks + [r])
      else if op.MFence? then (var s2 := Start(s1, r); if s.pendingWrites != 0 then s2.(mfenced := true) else s2)
      else if NeedsQuiet(op) && s.pendingWrites != 0 then s1.(mfenced := true, pendingWorks := s.pendingWorks + [r])
      else Start(s1, r)
    case Complete(i) => s.(pendingWrites := s.pendingWrites - 1, pending := s.pending - {i})
    case Begin => s.(inProcess := true)
    case ServeFront =>
      var r := s.pendingWorks[0];
      var rest := s.(pendingWorks := s.pendingWorks[1..]);
      if r.op.MFence? && s.pendingWrites != 0 then Start(rest, r).(inProcess := false)
      else if NeedsQuiet(r.op) && s.pendingWrites != 0 then s.(inProcess := false)
      else Start(rest, r)
    case End => s.(mfenced := false, inProcess := false)
  }

  predicate Init(s: State) {
    && !s.mfenced && !s.inProcess && s.pendingWrites == 0
    && s.pendingWorks == [] && s.issued == [] && s.starts == [] && s.pending == {}
  }

  /** Write `i`, fence `m` and operation `j`, in this order. */
  predicate Across(issued: seq<Op>, i: nat, m: nat, j: nat) {
    i < m < j && m < |issued| && issued[m].MFence?
  }

  /** The request started in accordance with the fences: no write before an earlier
      fence was pending, and none at all if it is a lock operation. */
  ghost predicate StartOk(issued: seq<Op>, e: Started) {
    && (NeedsQuiet(e.req.op) ==> e.pending == {})
    && (forall i: nat, m: nat | i in e.pending :: !Across(issued, i, m, e.req.id))
  }

  /** All requests in the order they were issued. */
  function Numbered(issued: seq<Op>): (rs: seq<Request>)
    ensures |rs| == |issued|
  {
    seq(|issued|, k requires 0 <= k < |issued| => Request(k, issued[k]))
  }

  /** The requests in the order they were started. */
  function Requests(starts: seq<Started>): (rs: seq<Request>)
    ensures |rs| == |starts|
  {
    seq(|starts|, k requires 0 <= k < |starts| => starts[k].req)
  }

  /** The requests started are those issued first, in that order, and the others wait
      in the same order. */
  ghost predicate InOrder(issued: seq<Op>, starts: seq<Started>, waiting: seq<Request>) {
    Requests(starts) + waiting == Numbered(issued)
  }

  lemma OrderAt(issued: seq<Op>, starts: seq<Started>, waiting: seq<Request>)
    requires InOrder(issued, starts, waiting)
    ensures |starts| + |waiting| == |issued|
    ensures forall k | 0 <= k < |starts| :: starts[k].req == Request(k, issued[k])
    ensures waiting != [] ==> waiting[0] == Request(|starts|, issued[|starts|])
  {
    forall k | 0 <= k < |starts| ensures starts[k].req == Request(k, issued[k]) {
      assert Numbered(issued)[k] == Requests(starts)[k];
    }
    if waiting != [] { assert Numbered(issued)[|starts|] == waiting[0]; }
  }

  lemma OneMore(issued: seq<Op>, starts: seq<Started>, waiting: seq<Request>, op: Op)
    requires InOrder(issued, starts, waiting)
    ensures InOrder(issued + [op], starts, waiting + [Request(|issued|, op)])
  {
    assert Numbered(issued + [op]) == Numbered(issued) + [Request(|issued|, op)];
  }

  lemma NextInOrder(issued: seq<Op>, starts: seq<Started>, r: Request, rest: seq<Request>, pending: set<nat>)
    requires InOrder(issued, starts, [r] + rest)
    ensures InOrder(issued, starts + [Started(r, pending)], rest)
  {
    assert Requests(starts + [Started(r, pending)]) == Requests(starts) + [r];
  }

  ghost predicate Inv(s: State) {
    var k := |s.starts|;
    && InOrder(s.issued, s.starts, s.pendingWorks)
    && s.pendingWrites == |s.pending|
    && (forall i | i in s.pending :: i < k && s.issued[i] == Write(true))
    && (s.pendingWorks != [] || s.inProcess ==> s.mfenced)
    && (forall e | e in s.starts :: StartOk(s.issued, e))
    && (forall i: nat, m: nat | i in s.pending && Across(s.issued, i, m, k) :: m == k - 1 && s.mfenced && !s.inProcess)
  }

  /** What was started stays in accordance with the fences when more is issued. */
  lemma StillOk(issued: seq<Op>, issued': seq<Op>, e: Started)
    requires issued <= issued' && e.req.id <= |issued| && StartOk(issued, e)
    ensures StartOk(issued', e)
  {
    forall i: nat, m: nat | i in e.pending ensures !Across(issued', i, m, e.req.id) {
      assert !Across(issued, i, m, e.req.id);
    }
  }

  /** Only the request itself can be a fence between a pending write and what follows. */
  lemma NextFence(pending: set<nat>, pending': set<nat>, issued: seq<Op>, k: nat, next: nat)
    requires next == k + 1 <= |issued| && pending' <= pending + {k}
    requires forall i: nat, m: nat | i in pending :: !Across(issued, i, m, k)
    ensures forall i: nat, m: nat | i in pending' && Across(issued, i, m, next) :: m == k && issued[k].MFence?
  {
    forall i: nat, m: nat | i in pending' && Across(issued, i, m, next) ensures m == k {
      assert i in pending ==> !Across(issued, i, m, k);
    }
  }

  /** Starting the next request, given what it needs. */
  lemma StartKeeps(s: State, s': State, r: Request)
    requires s'.starts == s.starts && s'.pending == s.pending && s'.pendingWrites == s.pendingWrites
    requires s.issued <= s'.issued && InOrder(s'.issued, s.starts, [r] + s'.pendingWorks)
    requires Inv(s) && (s.mfenced ==> s.inProcess) && (NeedsQuiet(r.op) ==> s.pending == {})
    ensures var t := Start(s', r); var k := |t.starts|;
      && InOrder(t.issued, t.starts, t.pendingWorks)
      && k == |s.starts| + 1 && t.pendingWrites == |t.pending|
      && (forall i | i in t.pending :: i < k && t.issued[i] == Write(true))
      && (forall e | e in t.starts :: StartOk(t.issued, e))
      && (forall i: nat, m: nat | i in t.pending && Across(t.issued, i, m, k) :: m == k - 1 && r.op.MFence?)
  {
    hide InOrder;
    var t, k := Start(s', r), |s.starts|;
    OrderAt(s.issued, s.starts, s.pendingWorks);
    OrderAt(s'.issued, s.starts, [r] + s'.pendingWorks);
    NextInOrder(s'.issued, s.starts, r, s'.pendingWorks, s.pending);
    forall i: nat, m: nat | i in s.pending ensures !Across(t.issued, i, m, k) {
      assert !Across(s.issued, i, m, k);
    }
    forall j | 0 <= j <= k ensures StartOk(t.issued, t.starts[j]) {
      if j < k { StillOk(s.issued, t.issued, s.starts[j]); }
    }
    NextFence(s.pending, t.pending, t.issued, k, |t.starts|);
  }

  lemma IssueKeeps(s: State, op: Op)
    requires Inv(s) && Enabled(s, Issue(op))
    ensures Inv(Perform(s, Issue(op)))
  {
    hide InOrder, StartOk, Across;
    var r, s1, s' := Request(|s.issued|, op), s.(issued := s.issued + [op]), Perform(s, Issue(op));
    assert s.pendingWrites == 0 ==> s.pending == {};
    if !s.mfenced && (!NeedsQuiet(op) || s.pendingWrites == 0) {
      OneMore(s.issued, s.starts, [], op);
      assert [] + [r] == [r] + s1.pendingWorks;
      StartKeeps(s, s1, r);
    } else {
      QueueKeeps(s, s', r);
    }
  }

  lemma QueueKeeps(s: State, s': State, r: Request)
    requires Inv(s) && !s.inProcess && r.id == |s.issued|
    requires s' == s.(issued := s.issued + [r.op], mfenced := true, pendingWorks := s.pendingWorks + [r])
    ensures Inv(s')
  {
    hide InOrder;
    var k := |s.starts|;
    OrderAt(s.issued, s.starts, s.pendingWorks);
    OneMore(s.issued, s.starts, s.pendingWorks, r.op);
    forall j | 0 <= j < k ensures StartOk(s'.issued, s'.starts[j]) {
      StillOk(s.issued, s'.issued, s.starts[j]);
    }
    forall i: nat, m: nat | i in s'.pending && Across(s'.issued, i, m, k) ensures m == k - 1 {
      assert Across(s.issued, i, m, k);
    }
  }

  lemma ServeKeeps(s: State)
    requires Inv(s) && Enabled(s, ServeFront)
    ensures Inv(Perform(s, ServeFront))
  {
    hide InOrder, StartOk, Across;
    var r, s' := s.pendingWorks[0], Perform(s, ServeFront);
    var rest := s.(pendingWorks := s.pendingWorks[1..]);
    assert s.pendingWorks == [r] + rest.pendingWorks;
    if NeedsQuiet(r.op) && s.pendingWrites != 0 {
      assert s' == s.(inProcess := false);
    } else {
      StartKeeps(s, rest, r);
    }
  }

  lemma StepKeeps(s: State, step: Step)
    requires Inv(s) && Enabled(s, step)
    ensures Inv(Perform(s, step))
  {
    match step
    case Issue(op) => IssueKeeps(s, op);
    case ServeFront => ServeKeeps(s);
    case Begin => assert s.pending == {};
    case _ =>
  }

  // ----- whole runs -----

  predicate Legal(s: State, steps: seq<Step>)
    decreases |steps|
  {
    steps == [] || (Enabled(s, steps[0]) && Legal(Perform(s, steps[0]), steps[1..]))
  }

  function After(s: State, steps: seq<Step>): State
    requires Legal(s, steps)
    decreases |steps|
  {
    if steps == [] then s else After(Perform(s, steps[0]), steps[1..])
  }

  lemma {:induction false} InvAfter(s: State, steps: seq<Step>)
    requires Inv(s) && Legal(s, steps)
    ensures Inv(After(s, steps))
    decreases |steps|
  {
    hide Inv, Perform;
    if steps != [] {
      StepKeeps(s, steps[0]);
      InvAfter(Perform(s, steps[0]), steps[1..]);
    }
  }

  /** Requests start in issue order: those started are the first ones issued, the others
      are queued, in order, and queued requests imply that the fence is set. */
  lemma StartInOrder(s0: State, steps: seq<Step>)
    requires Init(s0) && Legal(s0, steps)
    ensures var s := After(s0, steps);
      && Requests(s.starts) + s.pendingWorks == Numbered(s.issued)
      && (s.pendingWorks != [] ==> s.mfenced) && s.pendingWrites == |s.pending|
  {
    InvAfter(s0, steps);
  }

  /** No request issued after a fence started while a write issued before it was pending. */
  lemma FenceOrder(s0: State, steps: seq<Step>, i: nat, m: nat, e: Started)
    requires Init(s0) && Legal(s0, steps)
    requires var s := After(s0, steps); e in s.starts && i < m < e.req.id && m < |s.issued| && s.issued[m].MFence?
    ensures i !in e.pending
  {
    InvAfter(s0, steps);
    var s := After(s0, steps);
    assert StartOk(s.issued, e) && Across(s.issued, i, m, e.req.id);
  }

  /** Lock operations start only when no write is pending. */
  lemma LocksWait(s0: State, steps: seq<Step>, e: Started)
    requires Init(s0) && Legal(s0, steps) && e in After(s0, steps).starts && NeedsQuiet(e.req.op)
    ensures e.pending == {}
  {
    InvAfter(s0, steps);
    assert StartOk(After(s0, steps).issued, e);
  }

  // ----- what is not held up -----

  /** With the fence open a request starts at once, unless it is a lock operation and
      writes are pending; a fence closes exactly if writes are pending. */
  lemma StartsAtOnce(s: State, op: Op)
    requires Enabled(s, Issue(op)) && !s.mfenced
    ensures var s' := Perform(s, Issue(op));
      if NeedsQuiet(op) && s.pendingWrites != 0
      then s'.starts == s.starts && s'.pendingWorks == s.pendingWorks + [Request(|s.issued|, op)] && s'.mfenced
      else
        && s'.starts == s.starts + [Started(Request(|s.issued|, op), s.pending)] && s'.pendingWorks == s.pendingWorks
        && (s'.mfenced <==> op.MFence? && s.pendingWrites != 0)
  {
  }

  /** While the queue is served its first request starts, unless it is a lock operation and
      writes are pending; with nothing queued the fence opens. */
  lemma FrontStarts(s: State)
    requires s.inProcess
    ensures s.pendingWorks == [] ==> Enabled(s, End) && !Perform(s, End).mfenced
    ensures s.pendingWorks != [] && (s.pendingWrites == 0 || !NeedsQuiet(s.pendingWorks[0].op)) ==>
      && Enabled(s, ServeFront)
      && var s' := Perform(s, ServeFront);
         s'.starts == s.starts + [Started(s.pendingWorks[0], s.pending)] && s'.pendingWorks == s.pendingWorks[1..]
  {
  }

  predicate Plain(step: Step) { step.Issue? ==> step.op.Read? || step.op.Write? }

  lemma {:induction false} PlainRun(s: State, steps: seq<Step>)
    requires Legal(s, steps) && forall step | step in steps :: Plain(step)
    requires !s.mfenced && !s.inProcess && s.pendingWorks == []
    ensures var s' := After(s, steps); !s'.mfenced && s'.pendingWorks == []
    decreases |steps|
  {
    if steps != [] {
      assert steps[0] in steps && Plain(steps[0]);
      PlainRun(Perform(s, steps[0]), steps[1..]);
    }
  }

  /** In a run without fences, locks and unlocks nothing is ever queued: every request has
      started. */
  lemma NothingQueued(s0: State, steps: seq<Step>)
    requires Init(s0) && Legal(s0, steps) && forall step | step in steps :: Plain(step)
    ensures var s := After(s0, steps); s.pendingWorks == [] && Requests(s.starts) == Numbered(s.issued)
  {
    hide Legal, Plain;
    StartInOrder(s0, steps);
    PlainRun(s0, steps);
    var s := After(s0, steps);
    assert Requests(s.starts) + [] == Requests(s.starts);
  }

  // ----- what is pending -----

  /** The asynchronous writes started before and not completed by these steps. */
  ghost predicate PendingIs(s: State, completed: set<nat>) {
    && (forall i | i in s.pending :: i !in completed)
    && (forall i | i in completed :: i < |s.starts|)
    && (forall k | 0 <= k < |s.starts| :: PendingAt(s, completed, k))
  }

  ghost predicate PendingAt(s: State, completed: set<nat>, k: nat)
    requires k < |s.starts|
  {
    s.starts[k].req.op == Write(true) ==> k in s.pending || k in completed
  }

  function Completed(steps: seq<Step>): set<nat> {
    set step | step in steps && step.Complete? :: step.i
  }

  /** A request starts, the next one in order of issue. */
  lemma PendingStart(s: State, s': State, r: Request, completed: set<nat>)
    requires PendingIs(s, completed) && r.id == |s.starts|
    requires s'.starts == s.starts + [Started(r, s.pending)]
    requires s'.pending == s.pending + if r.op == Write(true) then {r.id} else {}
    ensures PendingIs(s', completed)
  {
    forall k | 0 <= k < |s'.starts| ensures PendingAt(s', completed, k) {
      if k < |s.starts| { assert PendingAt(s, completed, k); }
    }
  }

  lemma PendingSame(s: State, s': State, completed: set<nat>)
    requires PendingIs(s, completed) && s'.starts == s.starts && s'.pending == s.pending
    ensures PendingIs(s', completed)
  {
    forall k | 0 <= k < |s'.starts| ensures PendingAt(s', completed, k) { assert PendingAt(s, completed, k); }
  }

  lemma PendingEnds(s: State, s': State, i: nat, completed: set<nat>)
    requires PendingIs(s, completed) && s'.starts == s.starts && s'.pending == s.pending - {i} && i < |s.starts|
    ensures PendingIs(s', completed + {i})
  {
    forall k | 0 <= k < |s'.starts| ensures PendingAt(s', completed + {i}, k) { assert PendingAt(s, completed, k); }
  }

  /** The request that a step starts, if any. */
  function Starting(s: State, step: Step): Option<Request> {
    match step
    case Issue(op) =>
      if s.mfenced || (NeedsQuiet(op) && s.pendingWrites != 0) then None else Some(Request(|s.issued|, op))
    case ServeFront =>
      if s.pendingWorks == [] || (NeedsQuiet(s.pendingWorks[0].op) && s.pendingWrites != 0) then None
      else Some(s.pendingWorks[0])
    case _ => None
  }

  /** A step starts a request, completes a write, or does neither. */
  lemma StepStarts(s: State, step: Step)
    requires Enabled(s, step)
    ensures var s', r := Perform(s, step), Starting(s, step);
      && s'.starts == s.starts + (if r.Some? then [Started(r.value, s.pending)] else [])
      && s'.pending == (if step.Complete? then s.pending - {step.i}
                        else if r.Some? && r.value.op == Write(true) then s.pending + {r.value.id} else s.pending)
  {
  }

  lemma StartingNext(s: State, step: Step)
    requires Inv(s) && Enabled(s, step)
    ensures Starting(s, step).Some? ==> Starting(s, step).value.id == |s.starts|
    ensures step.Complete? ==> step.i < |s.starts|
  {
    hide StartOk, Across, InOrder;
    OrderAt(s.issued, s.starts, s.pendingWorks);
  }

  lemma PendingStep(s: State, step: Step, completed: set<nat>)
    requires Inv(s) && Enabled(s, step) && PendingIs(s, completed)
    ensures PendingIs(Perform(s, step), completed + if step.Complete? then {step.i} else {})
  {
    hide Inv, Perform, Enabled, PendingIs;
    var s' := Perform(s, step);
    StepStarts(s, step);
    StartingNext(s, step);
    if step.Complete? {
      PendingEnds(s, s', step.i, completed);
    } else {
      assert completed + {} == completed;
      if Starting(s, step).Some? {
        PendingStart(s, s', Starting(s, step).value, completed);
      } else {
        PendingSame(s, s', completed);
      }
    }
  }

  lemma {:induction false} PendingAfter(s: State, steps: seq<Step>, completed: set<nat>)
    requires Inv(s) && Legal(s, steps) && PendingIs(s, completed)
    ensures PendingIs(After(s, steps), completed + Completed(steps))
    decreases |steps|
  {
    hide Inv, Perform, PendingIs, Enabled;
    if steps == [] {
      assert completed + Completed(steps) == completed;
    } else {
      var more := if steps[0].Complete? then {steps[0].i} else {};
      StepKeeps(s, steps[0]);
      PendingStep(s, steps[0], completed);
      PendingAfter(Perform(s, steps[0]), steps[1..], completed + more);
      assert Completed(steps) == more + Completed(steps[1..]) by {
        assert forall step :: step in steps <==> step == steps[0] || step in steps[1..];
      }
      assert completed + more + Completed(steps[1..]) == completed + Completed(steps);
    }
  }

  /** In every run the pending writes are exactly the asynchronous writes that have started
      and not completed. */
  lemma PendingExact(s0: State, steps: seq<Step>, i: nat)
    requires Init(s0) && Legal(s0, steps)
    ensures var s := After(s0, steps);
      i in s.pending <==> i < |s.starts| && s.starts[i].req.op == Write(true) && Complete(i) !in steps
  {
    hide Legal, StartOk, Across;
    InvAfter(s0, steps);
    PendingAfter(s0, steps, {});
    var s := After(s0, steps);
    assert {} + Completed(steps) == Completed(steps);
    OrderAt(s.issued, s.starts, s.pendingWorks);
    assert i in Completed(steps) <==> Complete(i) in steps;
    if i < |s.starts| { assert PendingAt(s, Completed(steps), i); }
  }
}
