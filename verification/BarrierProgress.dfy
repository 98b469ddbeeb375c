/**
 The barrier always comes to its end: a run that cannot go on has every node through all
 its calls, and every step brings all runs closer to it by one.
 */
module BarrierProgress {
  import opened ClusterBarrier
  import opened BarrierProofs

  // ----- no deadlock -----

  /** Every node has made all its calls and waits for nothing. */
  predicate Finished(r: Run, s: State) {
    forall n | 0 <= n < |s.nodes| :: s.nodes[n].call == |r.prog| && s.nodes[n].wait.NoGet?
  }

  ghost predicate Stuck(r: Run, s: State) {
    forall step :: !Enabled(r, s, step)
  }

  lemma {:induction false} NoPuts(r: Run, n: nat, lo: nat, hi: nat, c: nat)
    requires Puts(r, n, lo, hi) == [] && lo <= c < hi
    ensures !IsPut(r.prog, n, c)
    decreases hi - lo
  {
    hide IsPut, PutOf;
    if lo < c { NoPuts(r, n, lo + 1, hi, c); }
  }

  /** In a stuck state a node has finished or its Get is parked, and its Puts are stored. */
  lemma StuckNode(r: Run, s: State, n: nat)
    requires Inv(r, s) && Stuck(r, s) && n < |s.nodes|
    ensures if s.nodes[n].wait.NoGet? then s.nodes[n].call == |r.prog| else s.nodes[n].wait.ParkedAtMaster?
    ensures Puts(r, n, s.nodes[n].served, s.nodes[n].call) == []
  {
    hide IsPut, Puts, StoreOk, ParkedOk;
    assert Progress(r, s.nodes, n) && ChannelOk(r, s, n);
    assert !Enabled(r, s, Advance(n)) && !Enabled(r, s, Store(n)) && !Enabled(r, s, Receive(n));
  }

  /** The node whose Put a parked node waits for is parked itself, in an earlier call. */
  lemma Partner(r: Run, s: State, n: nat) returns (m: nat)
    requires Inv(r, s) && Stuck(r, s) && n < |s.nodes| && s.nodes[n].wait.ParkedAtMaster?
    ensures m < |s.nodes| && s.nodes[m].wait.ParkedAtMaster? && s.nodes[m].call < s.nodes[n].call
  {
    hide Stuck, Puts, Number, ChannelOk;
    var k := Wanted(s.nodes[n], n);
    m := k.part;
    assert Progress(r, s.nodes, n) && Progress(r, s.nodes, m);
    assert Queued(s.parked, Wants(r, s.nodes[n], n), n) && HoldsKey(r, s, k);
    assert IsPut(r.prog, m, k.call) && s.nodes[m].served <= k.call;
    StuckNode(r, s, m);
    if s.nodes[m].call > k.call { NoPuts(r, m, s.nodes[m].served, s.nodes[m].call, k.call); }
  }

  lemma {:induction false} NoneParked(r: Run, s: State, n: nat)
    requires Inv(r, s) && Stuck(r, s) && n < |s.nodes|
    ensures !s.nodes[n].wait.ParkedAtMaster?
    decreases s.nodes[n].call
  {
    hide Inv, Stuck;
    if s.nodes[n].wait.ParkedAtMaster? {
      var m := Partner(r, s, n);
      NoneParked(r, s, m);
    }
  }

  /** No deadlock: in every run, either every node has made all its calls or some step can
      be taken. */
  lemma NoDeadlock(r: Run, s0: State, steps: seq<Step>)
    requires Init(r, s0) && Legal(r, s0, steps)
    ensures var s := After(r, s0, steps); Finished(r, s) || exists step :: Enabled(r, s, step)
  {
    hide Inv;
    InitKeeps(r, s0);
    InvAfter(r, s0, steps);
    var s := After(r, s0, steps);
    if Stuck(r, s) {
      forall n | 0 <= n < |s.nodes| ensures s.nodes[n].call == |r.prog| && s.nodes[n].wait.NoGet? {
        StuckNode(r, s, n);
        NoneParked(r, s, n);
      }
    }
  }

  // ----- how far it is to the end -----

  /** The steps that call `c` costs node `n`: a Put is sent and stored, a Get is sent,
      taken by the store and answered, and the master starts and ends a Collect. */
  function Cost(r: Run, n: nat, c: nat): nat {
    if IsPut(r.prog, n, c) then 2 else if n != 0 || r.parts == 0 then 3 else 2 + 3 * (r.parts - 1)
  }

  /** What the calls from `c` on cost node `n`. */
  function CostFrom(r: Run, n: nat, c: nat): nat
    decreases |r.prog| - c
  {
    if c >= |r.prog| then 0 else Cost(r, n, c) + CostFrom(r, n, c + 1)
  }

  /** What node `n` has paid for the call it is in, with its Get taken by the store. */
  function Paid(x: Node, n: nat): nat {
    (if x.wait.NoGet? then 0 else 2) + (if n == 0 && x.at > 0 then 1 + 3 * (x.at - 1) else 0)
  }

  /** The steps still to be taken for node `n`. */
  function Left(r: Run, x: Node, chan: seq<Msg>, n: nat): int {
    CostFrom(r, n, x.call) + |chan| - Paid(x, n)
  }

  function LeftAll(r: Run, s: State, k: nat): int
    requires k <= |s.nodes| == |s.chan|
  {
    if k == 0 then 0 else LeftAll(r, s, k - 1) + Left(r, s.nodes[k - 1], s.chan[k - 1], k - 1)
  }

  /** The length of a complete run. */
  function Length(r: Run, k: nat): nat {
    if k == 0 then 0 else Length(r, k - 1) + CostFrom(r, k - 1, 0)
  }

  lemma AdvanceLeft(r: Run, s: State, n: nat)
    requires Enabled(r, s, Advance(n)) && Progress(r, s.nodes, n) && |s.nodes| == r.parts
    ensures var s' := AdvanceNode(r, s, n);
      Left(r, s'.nodes[n], s'.chan[n], n) == Left(r, s.nodes[n], s.chan[n], n) - 1
  {
    hide IsPut, PutOf, Wants, Collected;
    var x := s.nodes[n];
    assert CostFrom(r, n, x.call) == Cost(r, n, x.call) + CostFrom(r, n, x.call + 1);
  }

  lemma ReceiveLeft(r: Run, s: State, n: nat)
    requires Enabled(r, s, Receive(n)) && Progress(r, s.nodes, n) && s.nodes[n].wait.Answered?
    ensures var s' := ReceiveReply(r, s, n);
      Left(r, s'.nodes[n], s'.chan[n], n) == Left(r, s.nodes[n], s.chan[n], n) - 1
  {
    hide IsPut, Collected;
    var x := s.nodes[n];
    assert CostFrom(r, n, x.call) == Cost(r, n, x.call) + CostFrom(r, n, x.call + 1);
  }

  /** The store answers or parks a Get, or takes a Put and answers those who wait for it. */
  lemma StoreLeft(r: Run, s: State, n: nat, m: nat)
    requires Inv(r, s) && Enabled(r, s, Store(n)) && m < |s.nodes|
    ensures var s' := StoreMessage(r, s, n);
      && |s'.nodes| == |s'.chan| == |s.nodes| && s'.nodes[m].call == s.nodes[m].call
      && Paid(s'.nodes[m], m) == Paid(s.nodes[m], m)
      && |s'.chan[m]| == |s.chan[m]| - if m == n then 1 else 0
  {
    if s.chan[n][0].Put? {
      PutLeft(r, s, n, m);
    } else {
      GetLeft(r, s, n, m);
    }
  }

  lemma PutLeft(r: Run, s: State, n: nat, m: nat)
    requires Inv(r, s) && Enabled(r, s, Store(n)) && m < |s.nodes| && s.chan[n][0].Put?
    ensures var s' := StoreMessage(r, s, n);
      && |s'.nodes| == |s'.chan| == |s.nodes| && s'.nodes[m].call == s.nodes[m].call
      && Paid(s'.nodes[m], m) == Paid(s.nodes[m], m)
      && |s'.chan[m]| == |s.chan[m]| - if m == n then 1 else 0
  {
    hide StoreMessage, StoreOk, Progress, ChannelOk, Wants, CallOf;
    PutResult(r, s, n, m);
    var k := s.chan[n][0].key;
    if m in QueueFor(s, k) { assert Queued(s.parked, k, m); }
  }

  lemma GetLeft(r: Run, s: State, n: nat, m: nat)
    requires Inv(r, s) && Enabled(r, s, Store(n)) && m < |s.nodes| && s.chan[n][0].Get?
    ensures var s' := StoreMessage(r, s, n);
      && |s'.nodes| == |s'.chan| == |s.nodes| && s'.nodes[m].call == s.nodes[m].call
      && Paid(s'.nodes[m], m) == Paid(s.nodes[m], m)
      && |s'.chan[m]| == |s.chan[m]| - if m == n then 1 else 0
  {
    hide StoreOk, ParkedOk, Progress, Wants, Contribution, Puts, AnswerAll;
    ChannelPlace(r, s, n);
    assert s.chan[n][0] in s.chan[n] && s.nodes[n].wait.Asking?;
    var k := s.chan[n][0].key;
    if k in s.kvs { AnswerSingle(s.(chan := s.chan[n := s.chan[n][1..]]), n, k, s.kvs[k]); }
  }

  /** Every step is one of the steps of its node, and of no other. */
  lemma StepLeft(r: Run, s: State, step: Step, m: nat)
    requires Inv(r, s) && Enabled(r, s, step) && m < |s.nodes|
    ensures var s' := Perform(r, s, step);
      && |s'.nodes| == |s'.chan| == |s.nodes|
      && Left(r, s'.nodes[m], s'.chan[m], m) == Left(r, s.nodes[m], s.chan[m], m) - if m == step.n then 1 else 0
  {
    hide CostFrom, Puts, IsPut, StoreOk, ParkedOk, StoreMessage, Wants, Contribution;
    assert Progress(r, s.nodes, step.n) && ChannelOk(r, s, step.n);
    match step
    case Advance(n) => AdvanceLeft(r, s, n);
    case Receive(n) => ReceiveLeft(r, s, n);
    case Store(n) => StoreLeft(r, s, n, m);
  }

  lemma {:induction false} StepLeftAll(r: Run, s: State, step: Step, k: nat)
    requires Inv(r, s) && Enabled(r, s, step) && k <= |s.nodes|
    ensures var s' := Perform(r, s, step); |s'.nodes| == |s'.chan| == |s.nodes|
    ensures LeftAll(r, Perform(r, s, step), k) == LeftAll(r, s, k) - if step.n < k then 1 else 0
  {
    hide Inv, Perform, Left;
    StepLeft(r, s, step, step.n);
    if k > 0 {
      StepLeft(r, s, step, k - 1);
      StepLeftAll(r, s, step, k - 1);
    }
  }

  /** Nobody has paid more for a call than it costs. */
  lemma LeftPositive(r: Run, s: State, n: nat)
    requires Inv(r, s) && n < |s.nodes|
    ensures Left(r, s.nodes[n], s.chan[n], n) >= 0
  {
    hide StoreOk, ParkedOk, ChannelOk, Collected, IsPut;
    assert Progress(r, s.nodes, n);
    var x := s.nodes[n];
    if x.call < |r.prog| { assert CostFrom(r, n, x.call) >= Cost(r, n, x.call); }
  }

  lemma {:induction false} LeftAllPositive(r: Run, s: State, k: nat)
    requires Inv(r, s) && k <= |s.nodes|
    ensures LeftAll(r, s, k) >= 0
  {
    hide Left;
    if k > 0 {
      LeftPositive(r, s, k - 1);
      LeftAllPositive(r, s, k - 1);
    }
  }

  lemma {:induction false} LeftAtStart(r: Run, s: State, k: nat)
    requires Init(r, s) && k <= |s.nodes|
    ensures LeftAll(r, s, k) == Length(r, k)
  {
    hide CostFrom;
    if k > 0 { LeftAtStart(r, s, k - 1); }
  }

  lemma {:induction false} LeftAtEnd(r: Run, s: State, k: nat)
    requires Inv(r, s) && Stuck(r, s) && Finished(r, s) && k <= |s.nodes|
    ensures LeftAll(r, s, k) == 0
  {
    if k > 0 {
      LeftAtEnd(r, s, k - 1);
      EndNode(r, s, k - 1);
    }
  }

  lemma EndNode(r: Run, s: State, n: nat)
    requires Inv(r, s) && Stuck(r, s) && Finished(r, s) && n < |s.nodes|
    ensures Left(r, s.nodes[n], s.chan[n], n) == 0
  {
    hide StoreOk, ParkedOk, ChannelOk, IsPut;
    assert Progress(r, s.nodes, n) && !Enabled(r, s, Store(n));
  }

  lemma {:induction false} LeftAfter(r: Run, s: State, steps: seq<Step>)
    requires Inv(r, s) && Legal(r, s, steps)
    ensures var s' := After(r, s, steps);
      |s'.nodes| == |s'.chan| == |s.nodes| && LeftAll(r, s', |s'.nodes|) == LeftAll(r, s, |s.nodes|) - |steps|
    decreases |steps|
  {
    hide Perform, LeftAll, Enabled, Progress, ChannelOk, StoreOk, ParkedOk;
    if steps != [] {
      StepLeftAll(r, s, steps[0], |s.nodes|);
      EnabledNode(r, s, steps[0]);
      StepKeeps(r, s, steps[0]);
      LeftAfter(r, Perform(r, s, steps[0]), steps[1..]);
    }
  }

  lemma EnabledNode(r: Run, s: State, step: Step)
    requires Enabled(r, s, step)
    ensures step.n < |s.nodes|
  {
  }

  /** Every run ends, whatever the order of its steps: it has at most `Length` steps, it can
      go on exactly if it has fewer, and at the end every node has made all its calls. */
  lemma EveryRunEnds(r: Run, s0: State, steps: seq<Step>)
    requires Init(r, s0) && Legal(r, s0, steps)
    ensures |steps| <= Length(r, r.parts)
    ensures (exists step :: Enabled(r, After(r, s0, steps), step)) <==> |steps| < Length(r, r.parts)
    ensures |steps| == Length(r, r.parts) ==> Finished(r, After(r, s0, steps))
  {
    hide Inv, Enabled, LeftAll, Length, Perform;
    InitKeeps(r, s0);
    InvAfter(r, s0, steps);
    LeftAtStart(r, s0, |s0.nodes|);
    LeftAfter(r, s0, steps);
    var s := After(r, s0, steps);
    LeftAllPositive(r, s, |s.nodes|);
    NoDeadlock(r, s0, steps);
    if step :| Enabled(r, s, step) {
      StepLeftAll(r, s, step, |s.nodes|);
      EnabledNode(r, s, step);
      StepKeeps(r, s, step);
      LeftAllPositive(r, Perform(r, s, step), |s.nodes|);
    } else {
      LeftAtEnd(r, s, |s.nodes|);
    }
  }
}
