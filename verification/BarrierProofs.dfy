/**
 The barrier holds: no node leaves a fence before every node has entered it.
 */
module BarrierProofs {
  import opened ClusterBarrier

  /** Puts that reach the store only help: a node that stays where it is keeps its progress. */
  lemma ProgressStays(r: Run, nodes: seq<Node>, nodes': seq<Node>, m: nat)
    requires m < |nodes| == |nodes'| && Progress(r, nodes, m)
    requires forall j | 0 <= j < |nodes| :: nodes'[j].served >= nodes[j].served
    requires nodes'[m].call == nodes[m].call && nodes'[m].at == nodes[m].at && nodes'[m].served <= nodes'[m].call
    requires nodes[m].wait.NoGet? ==> nodes'[m].wait.NoGet?
    ensures Progress(r, nodes', m)
  {
    hide IsPut;
  }

  /** A node moves and nothing else does. */
  ghost predicate OnlyNode(s: State, s': State, n: nat)
    requires n < |s.nodes| == |s.chan| == |s.replies|
  {
    && |s'.nodes| == |s'.chan| == |s'.replies| == |s.nodes|
    && s'.nodes == s.nodes[n := s'.nodes[n]] && s'.chan == s.chan[n := s'.chan[n]]
    && s'.replies == s.replies[n := s'.replies[n]]
  }

  lemma ParkedStays(r: Run, s: State, s': State, n: nat)
    requires ParkedOk(r, s) && n < |s.nodes| == |s'.nodes| && s'.nodes == s.nodes[n := s'.nodes[n]]
    requires s'.kvs == s.kvs && s'.parked == s.parked
    requires !s.nodes[n].wait.ParkedAtMaster? && !s'.nodes[n].wait.ParkedAtMaster?
    ensures ParkedOk(r, s')
  {
    hide Wants;
    forall k: nat, m: nat | Queued(s'.parked, k, m)
      ensures m < |s'.nodes| && s'.nodes[m].wait.ParkedAtMaster? && Wants(r, s'.nodes[m], m) == k
    {
      assert Queued(s.parked, k, m);
    }
  }

  /** What has to be shown when a node moves without reaching the store. */
  lemma NodeMoves(r: Run, s: State, s': State, n: nat)
    requires Inv(r, s) && n < |s.nodes| && OnlyNode(s, s', n) && s'.kvs == s.kvs && s'.parked == s.parked
    requires s'.nodes[n].served == s.nodes[n].served && Progress(r, s'.nodes, n) && ChannelOk(r, s', n)
    requires !s.nodes[n].wait.ParkedAtMaster? && !s'.nodes[n].wait.ParkedAtMaster?
    ensures Inv(r, s')
  {
    hide IsPut, Puts, Wants, Contribution, Number;
    forall m | 0 <= m < |s'.nodes| ensures Progress(r, s'.nodes, m) && ChannelOk(r, s', m) {
      if m != n {
        ProgressStays(r, s.nodes, s'.nodes, m);
        assert ChannelOk(r, s, m);
      }
    }
    ParkedStays(r, s, s', n);
    forall k: Key | k.part < |s'.nodes| ensures HoldsKey(r, s', k) {
      assert HoldsKey(r, s, k);
    }
  }

  lemma AdvanceKeeps(r: Run, s: State, n: nat)
    requires Inv(r, s) && Enabled(r, s, Advance(n))
    ensures Inv(r, AdvanceNode(r, s, n))
  {
    var s', x := AdvanceNode(r, s, n), s.nodes[n];
    assert Progress(r, s.nodes, n) && ChannelOk(r, s, n);
    AdvanceNodeOk(r, s, n);
    NodeMoves(r, s, s', n);
  }

  lemma AdvanceNodeOk(r: Run, s: State, n: nat)
    requires Enabled(r, s, Advance(n)) && 0 < |s.nodes| == |s.replies| && Progress(r, s.nodes, n) && ChannelOk(r, s, n)
    ensures var s' := AdvanceNode(r, s, n);
      OnlyNode(s, s', n) && Progress(r, s'.nodes, n) && ChannelOk(r, s', n) && s'.nodes[n].served == s.nodes[n].served
      && !s'.nodes[n].wait.ParkedAtMaster? && s'.kvs == s.kvs && s'.parked == s.parked
  {
    var s', x := AdvanceNode(r, s, n), s.nodes[n];
    PutsAppend(r, n, x.served, x.call);
    assert s.chan[n] == Puts(r, n, x.served, x.call);
    assert forall j | 0 <= j < |s.nodes| :: s'.nodes[j].served == s.nodes[j].served;
  }

  lemma ReceiveKeeps(r: Run, s: State, n: nat)
    requires Inv(r, s) && Enabled(r, s, Receive(n))
    ensures Inv(r, ReceiveReply(r, s, n))
  {
    hide Puts, IsPut, ParkedOk, Number;
    var s', x := ReceiveReply(r, s, n), s.nodes[n];
    assert Progress(r, s.nodes, n) && ChannelOk(r, s, n) && x.wait.Answered?;
    assert HoldsKey(r, s, Wanted(x, n));
    ReceiveNodeOk(r, s, n);
    NodeMoves(r, s, s', n);
  }

  lemma ReceiveNodeOk(r: Run, s: State, n: nat)
    requires Enabled(r, s, Receive(n)) && 0 < |s.nodes| && Progress(r, s.nodes, n) && ChannelOk(r, s, n)
    requires s.nodes[n].wait.Answered? && Wanted(s.nodes[n], n).part < |s.nodes|
    requires s.nodes[n].call < s.nodes[Wanted(s.nodes[n], n).part].served
    ensures var s' := ReceiveReply(r, s, n); Progress(r, s'.nodes, n) && ChannelOk(r, s', n)
  {
    hide Puts, IsPut, Number;
    var s', x := ReceiveReply(r, s, n), s.nodes[n];
    PutsAppend(r, n, x.served, x.call);
    assert forall j | 0 <= j < |s.nodes| :: s'.nodes[j].served == s.nodes[j].served;
  }

  /** The state after the answers to a queue of different nodes. */
  lemma Answered(s: State, q: seq<nat>, k: nat, v: int, m: nat)
    requires |s.nodes| == |s.replies| && m < |s.nodes| && forall i, j | 0 <= i < j < |q| :: q[i] != q[j]
    ensures var s' := AnswerAll(s, q, k, v);
      && |s'.nodes| == |s'.replies| == |s.nodes| && s'.chan == s.chan && s'.kvs == s.kvs && s'.parked == s.parked
      && s'.nodes[m] == (if m in q then s.nodes[m].(wait := ClusterBarrier.Answered) else s.nodes[m])
      && s'.replies[m] == s.replies[m] + if m in q then [(k, v)] else []
  {
    AnswerOnce(q, m, (k, v));
  }

  lemma AnswerSingle(s: State, n: nat, k: nat, v: int)
    requires |s.nodes| == |s.replies| && n < |s.nodes|
    ensures AnswerAll(s, [n], k, v) ==
      s.(nodes := s.nodes[n := s.nodes[n].(wait := ClusterBarrier.Answered)],
         replies := s.replies[n := s.replies[n] + [(k, v)]])
  {
    var s' := AnswerAll(s, [n], k, v);
    forall m | 0 <= m < |s.nodes|
      ensures s'.nodes[m] == (if m == n then s.nodes[n].(wait := ClusterBarrier.Answered) else s.nodes[m])
      ensures s'.replies[m] == if m == n then s.replies[n] + [(k, v)] else s.replies[m]
    {
      Answered(s, [n], k, v, m);
    }
  }

  lemma GetKeeps(r: Run, s: State, n: nat)
    requires Inv(r, s) && Enabled(r, s, Store(n)) && s.chan[n][0].Get?
    ensures Inv(r, StoreMessage(r, s, n))
  {
    hide IsPut, Number;
    var x := s.nodes[n];
    assert Progress(r, s.nodes, n) && ChannelOk(r, s, n);
    if Puts(r, n, x.served, x.call) != [] { var _ := PutsHead(r, n, x.served, x.call); }
    if Wants(r, x, n) in s.kvs {
      AnswerKeeps(r, s, n);
    } else {
      ParkKeeps(r, s, n);
    }
  }

  lemma AnswerKeeps(r: Run, s: State, n: nat)
    requires Inv(r, s) && Enabled(r, s, Store(n)) && s.nodes[n].wait.Asking?
    requires s.chan[n] == [Get(Wants(r, s.nodes[n], n))] && Wants(r, s.nodes[n], n) in s.kvs
    ensures Inv(r, StoreMessage(r, s, n))
  {
    hide IsPut, AnswerAll, ParkedOk, Number;
    var s', x, k := StoreMessage(r, s, n), s.nodes[n], Wants(r, s.nodes[n], n);
    assert Progress(r, s.nodes, n) && ChannelOk(r, s, n);
    assert Puts(r, n, x.served, x.call) == [];
    AnswerSingle(s.(chan := s.chan[n := s.chan[n][1..]]), n, k, s.kvs[k]);
    assert HoldsKey(r, s, Wanted(x, n));
    ProgressStays(r, s.nodes, s'.nodes, n);
    assert ChannelOk(r, s', n);
    NodeMoves(r, s, s', n);
  }

  lemma ParkKeeps(r: Run, s: State, n: nat)
    requires Inv(r, s) && Enabled(r, s, Store(n)) && s.nodes[n].wait.Asking?
    requires s.chan[n] == [Get(Wants(r, s.nodes[n], n))] && Wants(r, s.nodes[n], n) !in s.kvs
    ensures Inv(r, StoreMessage(r, s, n))
  {
    hide IsPut, Puts, Number;
    var s', x, k := StoreMessage(r, s, n), s.nodes[n], Wants(r, s.nodes[n], n);
    forall m | 0 <= m < |s'.nodes| ensures Progress(r, s'.nodes, m) && ChannelOk(r, s', m) {
      assert Progress(r, s.nodes, m) && ChannelOk(r, s, m);
      ProgressStays(r, s.nodes, s'.nodes, m);
    }
    forall l: Key | l.part < |s'.nodes| ensures HoldsKey(r, s', l) {
      assert HoldsKey(r, s, l);
    }
    ParkedMore(r, s, s', n, k);
  }

  lemma ParkedMore(r: Run, s: State, s': State, n: nat, k: nat)
    requires ParkedOk(r, s) && n < |s.nodes| && s.nodes[n].wait.Asking? && k == Wants(r, s.nodes[n], n) && k !in s.kvs
    requires s'.nodes == s.nodes[n := s.nodes[n].(wait := ParkedAtMaster)] && s'.kvs == s.kvs
    requires s'.parked == s.parked[k := (if k in s.parked then s.parked[k] else []) + [n]]
    ensures ParkedOk(r, s')
  {
    hide Number;
    var q := if k in s.parked then s.parked[k] else [];
    assert n !in q by { assert Queued(s.parked, k, n) <==> n in q; }
    forall l: nat, m: nat | Queued(s'.parked, l, m)
      ensures m < |s'.nodes| && s'.nodes[m].wait.ParkedAtMaster? && Wants(r, s'.nodes[m], m) == l
    {
      if !(l == k && m == n) { assert Queued(s.parked, l, m); }
    }
    forall m | 0 <= m < |s'.nodes| && s'.nodes[m].wait.ParkedAtMaster?
      ensures Queued(s'.parked, Wants(r, s'.nodes[m], m), m)
    {
      if m != n { assert Queued(s.parked, Wants(r, s.nodes[m], m), m); }
    }
  }

  function QueueFor(s: State, k: nat): seq<nat> { if k in s.parked then s.parked[k] else [] }

  /** A Put reaches the store, node by node: `served` moves up for its sender, and
      those that were parked under its key are answered. */
  lemma PutResult(r: Run, s: State, n: nat, m: nat)
    requires Inv(r, s) && Enabled(r, s, Store(n)) && s.chan[n][0].Put? && m < |s.nodes|
    ensures var s', k, v := StoreMessage(r, s, n), s.chan[n][0].key, s.chan[n][0].value;
      var y := if m == n then s.nodes[m].(served := CallOf(r, k) + 1) else s.nodes[m];
      && |s'.nodes| == |s'.chan| == |s'.replies| == |s.nodes| && s'.kvs == s.kvs[k := v] && s'.parked == s.parked - {k}
      && s'.chan == s.chan[n := s.chan[n][1..]]
      && s'.nodes[m] == (if m in QueueFor(s, k) then y.(wait := ClusterBarrier.Answered) else y)
      && s'.replies[m] == s.replies[m] + if m in QueueFor(s, k) then [(k, v)] else []
  {
    hide StoreOk, Progress, ChannelOk, AnswerAll, CallOf, Wants;
    var k, v := s.chan[n][0].key, s.chan[n][0].value;
    var base := s.(chan := s.chan[n := s.chan[n][1..]], kvs := s.kvs[k := v],
                   nodes := s.nodes[n := s.nodes[n].(served := CallOf(r, k) + 1)], parked := s.parked - {k});
    Answered(base, QueueFor(s, k), k, v, m);
  }

  /** The sender and its first Put. */
  lemma FirstPut(r: Run, s: State, n: nat) returns (c: nat)
    requires Inv(r, s) && Enabled(r, s, Store(n)) && s.chan[n][0].Put?
    ensures var x, m := s.nodes[n], s.chan[n][0];
      && m == PutOf(r, n, c) && CallOf(r, m.key) == c && x.served <= c < x.call && IsPut(r.prog, n, c)
      && s.chan[n][1..] == Puts(r, n, c + 1, x.call) + (if x.wait.Asking? then [Get(Wants(r, x, n))] else [])
      && (forall d | x.served <= d < c :: !IsPut(r.prog, n, d))
  {
    hide IsPut, ParkedOk, StoreOk, Number, CallOf;
    var x := s.nodes[n];
    assert Progress(r, s.nodes, n) && ChannelOk(r, s, n);
    c := PutsHead(r, n, x.served, x.call);
    NumberCall(r, Key(c, n));
  }

  lemma PutNode(r: Run, s: State, n: nat, m: nat)
    requires Inv(r, s) && Enabled(r, s, Store(n)) && s.chan[n][0].Put? && m < |s.nodes|
    ensures Progress(r, StoreMessage(r, s, n).nodes, m) && |StoreMessage(r, s, n).nodes| == |s.nodes|
    ensures |StoreMessage(r, s, n).chan| == |StoreMessage(r, s, n).replies| == |s.nodes|
    ensures ChannelOk(r, StoreMessage(r, s, n), m)
  {
    hide IsPut, Puts, StoreMessage, StoreOk, Number, CallOf;
    var s', k := StoreMessage(r, s, n), s.chan[n][0].key;
    var c := FirstPut(r, s, n);
    assert Progress(r, s.nodes, m) && ChannelOk(r, s, m);
    PutResult(r, s, n, m);
    forall j | 0 <= j < |s.nodes| ensures s'.nodes[j].served >= s.nodes[j].served { PutResult(r, s, n, j); }
    if m in QueueFor(s, k) {
      assert Queued(s.parked, k, m);
      NumberUnique(r, Wanted(s.nodes[m], m), Key(c, n));
    }
    ProgressStays(r, s.nodes, s'.nodes, m);
  }

  lemma PutStore(r: Run, s: State, n: nat, l: Key)
    requires Inv(r, s) && Enabled(r, s, Store(n)) && s.chan[n][0].Put? && l.part < |s.nodes|
    ensures |StoreMessage(r, s, n).nodes| == |s.nodes| && HoldsKey(r, StoreMessage(r, s, n), l)
  {
    hide IsPut, Puts, StoreMessage, Progress, ChannelOk, ParkedOk, Number, CallOf;
    var c := FirstPut(r, s, n);
    PutResult(r, s, n, l.part);
    assert HoldsKey(r, s, l);
    if Number(r, l) == Number(r, Key(c, n)) { NumberUnique(r, l, Key(c, n)); }
  }

  lemma PutParked(r: Run, s: State, n: nat)
    requires Inv(r, s) && Enabled(r, s, Store(n)) && s.chan[n][0].Put?
    ensures ParkedOk(r, StoreMessage(r, s, n))
  {
    hide IsPut, Puts, StoreMessage, Progress, ChannelOk, StoreOk, Number, CallOf;
    var s', k := StoreMessage(r, s, n), s.chan[n][0].key;
    PutResult(r, s, n, n);
    forall l: nat, m: nat | Queued(s'.parked, l, m)
      ensures m < |s'.nodes| && s'.nodes[m].wait.ParkedAtMaster? && Wants(r, s'.nodes[m], m) == l
    {
      assert Queued(s.parked, l, m);
      PutResult(r, s, n, m);
      assert m in QueueFor(s, k) ==> Queued(s.parked, k, m);
    }
    forall m | 0 <= m < |s'.nodes| && s'.nodes[m].wait.ParkedAtMaster?
      ensures Queued(s'.parked, Wants(r, s'.nodes[m], m), m)
    {
      PutResult(r, s, n, m);
      assert Queued(s.parked, Wants(r, s.nodes[m], m), m);
    }
  }

  lemma PutKeeps(r: Run, s: State, n: nat)
    requires Inv(r, s) && Enabled(r, s, Store(n)) && s.chan[n][0].Put?
    ensures Inv(r, StoreMessage(r, s, n))
  {
    hide StoreMessage, Progress, ChannelOk, ParkedOk, HoldsKey;
    var s' := StoreMessage(r, s, n);
    PutNode(r, s, n, n);
    forall m | 0 <= m < |s.nodes| ensures Progress(r, s'.nodes, m) && ChannelOk(r, s', m) { PutNode(r, s, n, m); }
    PutParked(r, s, n);
    forall l: Key | l.part < |s'.nodes| ensures HoldsKey(r, s', l) { PutStore(r, s, n, l); }
  }

  lemma StepKeeps(r: Run, s: State, step: Step)
    requires Inv(r, s) && Enabled(r, s, step)
    ensures Inv(r, Perform(r, s, step))
  {
    hide Inv, AdvanceNode, StoreMessage, ReceiveReply;
    match step
    case Advance(n) => AdvanceKeeps(r, s, n);
    case Receive(n) => ReceiveKeeps(r, s, n);
    case Store(n) => if s.chan[n][0].Put? { PutKeeps(r, s, n); } else { GetKeeps(r, s, n); }
  }

  // ----- whole runs -----

  predicate Legal(r: Run, s: State, steps: seq<Step>)
    decreases |steps|
  {
    steps == [] || (Enabled(r, s, steps[0]) && Legal(r, Perform(r, s, steps[0]), steps[1..]))
  }

  function After(r: Run, s: State, steps: seq<Step>): State
    requires Legal(r, s, steps)
    decreases |steps|
  {
    if steps == [] then s else After(r, Perform(r, s, steps[0]), steps[1..])
  }

  lemma {:induction false} InvAfter(r: Run, s: State, steps: seq<Step>)
    requires Inv(r, s) && Legal(r, s, steps)
    ensures Inv(r, After(r, s, steps))
    decreases |steps|
  {
    hide Inv, Perform;
    if steps != [] {
      StepKeeps(r, s, steps[0]);
      InvAfter(r, Perform(r, s, steps[0]), steps[1..]);
    }
  }

  lemma InitKeeps(r: Run, s: State)
    requires Init(r, s)
    ensures Inv(r, s)
  {
  }

  /** The barrier: with a fence at call `c`, a node that has left it (is past call
      `c + 1`) implies that every node has entered it (has come to call `c`), and that
      every node but the master's has made its contribution. */
  lemma Barrier(r: Run, s0: State, steps: seq<Step>, c: nat, n: nat, m: nat)
    requires Init(r, s0) && Legal(r, s0, steps)
    requires c + 1 < |r.prog| && r.prog[c].Collect? && r.prog[c + 1].Broadcast?
    requires var s := After(r, s0, steps); n < |s.nodes| && m < |s.nodes| && s.nodes[n].call > c + 1
    ensures var s := After(r, s0, steps); s.nodes[m].call > c
  {
    hide StoreOk, ParkedOk, ChannelOk;
    InitKeeps(r, s0);
    InvAfter(r, s0, steps);
    var s := After(r, s0, steps);
    assert Progress(r, s.nodes, n) && Progress(r, s.nodes, m) && Progress(r, s.nodes, 0);
    if n != 0 { assert !IsPut(r.prog, n, c + 1) && s.nodes[0].served > c + 1; }
    assert !IsPut(r.prog, 0, c) && Collected(s.nodes, c, |s.nodes|);
  }

  /** Where a Get of node `n` is. */
  predicate InChannel(s: State, n: nat)
    requires n < |s.chan|
  {
    exists m | m in s.chan[n] :: m.Get?
  }

  ghost predicate Parked(s: State, n: nat) { exists k :: Queued(s.parked, k, n) }

  predicate InReply(s: State, n: nat)
    requires n < |s.replies|
  {
    s.replies[n] != []
  }

  lemma ChannelPlace(r: Run, s: State, n: nat)
    requires Inv(r, s) && n < |s.nodes|
    ensures s.nodes[n].wait.Asking? <==> InChannel(s, n)
    ensures InChannel(s, n) ==> s.chan[n][|s.chan[n]| - 1] == Get(Wants(r, s.nodes[n], n))
    ensures forall i | 0 <= i < |s.chan[n]| - 1 :: s.chan[n][i].Put?
  {
    hide IsPut, Puts, Progress, Wants, StoreOk, ParkedOk;
    var x := s.nodes[n];
    assert ChannelOk(r, s, n);
    forall i | 0 <= i < |Puts(r, n, x.served, x.call)| ensures Puts(r, n, x.served, x.call)[i].Put? {
      var _ := PutsAt(r, n, x.served, x.call, i);
    }
    if x.wait.Asking? { assert s.chan[n][|s.chan[n]| - 1].Get?; }
  }

  lemma ParkPlace(r: Run, s: State, n: nat)
    requires Inv(r, s) && n < |s.nodes|
    ensures s.nodes[n].wait.ParkedAtMaster? <==> Parked(s, n)
    ensures forall k | Queued(s.parked, k, n) :: k == Wants(r, s.nodes[n], n) && k !in s.kvs && Different(s.parked[k])
  {
    hide Wants, StoreOk, ChannelOk, Progress;
  }

  predicate Different(q: seq<nat>) { forall i, j | 0 <= i < j < |q| :: q[i] != q[j] }

  /** No Get is lost and none is answered twice: while a node waits, its Get is at exactly
      one place (on its way to the store, parked once in the queue of its key, which is
      not in the store, or answered by one reply with the value its partner contributed),
      and a node that does not wait has no Get anywhere. */
  lemma AnsweredOnce(r: Run, s0: State, steps: seq<Step>, n: nat)
    requires Init(r, s0) && Legal(r, s0, steps) && n < |After(r, s0, steps).nodes|
    ensures var s := After(r, s0, steps); n < |s.chan| == |s.replies|
    ensures var s := After(r, s0, steps); var x := s.nodes[n]; var k := Wants(r, x, n);
      && (!x.wait.NoGet? <==> InChannel(s, n) || Parked(s, n) || InReply(s, n))
      && !(InChannel(s, n) && Parked(s, n)) && !(InChannel(s, n) && InReply(s, n)) && !(Parked(s, n) && InReply(s, n))
      && (InChannel(s, n) ==> s.chan[n][|s.chan[n]| - 1] == Get(k))
      && (forall i | 0 <= i < |s.chan[n]| - 1 :: s.chan[n][i].Put?)
      && (forall l | Queued(s.parked, l, n) :: l == k && l !in s.kvs && Different(s.parked[l]))
      && (InReply(s, n) ==> s.replies[n] == [(k, Contribution(r, x, n))])
  {
    hide InChannel, Parked, Queued, Puts, Progress, Wants, Contribution, StoreOk, ParkedOk, Different;
    InitKeeps(r, s0);
    InvAfter(r, s0, steps);
    var s := After(r, s0, steps);
    assert ChannelOk(r, s, n);
    ChannelPlace(r, s, n);
    ParkPlace(r, s, n);
  }

  lemma {:induction false} PutsAt(r: Run, n: nat, lo: nat, hi: nat, i: nat) returns (c: nat)
    requires i < |Puts(r, n, lo, hi)|
    ensures Puts(r, n, lo, hi)[i] == PutOf(r, n, c) && lo <= c < hi && IsPut(r.prog, n, c)
    decreases hi - lo
  {
    hide IsPut, PutOf;
    var put := if IsPut(r.prog, n, lo) then 1 else 0;
    if i >= put { c := PutsAt(r, n, lo + 1, hi, i - put); } else { c := lo; }
  }

  lemma {:induction false} PutsOrdered(r: Run, n: nat, lo: nat, hi: nat, i: nat, j: nat) returns (c: nat, d: nat)
    requires i < j < |Puts(r, n, lo, hi)|
    ensures lo <= c < d && Puts(r, n, lo, hi)[i] == PutOf(r, n, c) && Puts(r, n, lo, hi)[j] == PutOf(r, n, d)
    decreases hi - lo
  {
    hide IsPut, PutOf;
    var put := if IsPut(r.prog, n, lo) then 1 else 0;
    if i >= put {
      c, d := PutsOrdered(r, n, lo + 1, hi, i - put, j - put);
    } else {
      c := lo;
      d := PutsAt(r, n, lo + 1, hi, j - 1);
    }
  }

  /** Two Puts on the way of one node have different keys. */
  lemma PutsDiffer(r: Run, n: nat, lo: nat, hi: nat, i: nat, j: nat)
    requires n < r.parts && i < j < |Puts(r, n, lo, hi)|
    ensures Puts(r, n, lo, hi)[i].key != Puts(r, n, lo, hi)[j].key
  {
    hide Puts, Number;
    var c, d := PutsOrdered(r, n, lo, hi, i, j);
    if Number(r, Key(c, n)) == Number(r, Key(d, n)) { NumberUnique(r, Key(c, n), Key(d, n)); }
  }

  /** No key is put twice: two Puts on their way have different keys, and neither is in
      the store yet. */
  lemma PutOnce(r: Run, s0: State, steps: seq<Step>, n: nat, i: nat, m: nat, j: nat)
    requires Init(r, s0) && Legal(r, s0, steps)
    requires var s := After(r, s0, steps);
      n < |s.chan| && m < |s.chan| && i < |s.chan[n]| && j < |s.chan[m]| && s.chan[n][i].Put? && s.chan[m][j].Put?
    ensures var s := After(r, s0, steps);
      s.chan[n][i].key !in s.kvs && (s.chan[n][i].key == s.chan[m][j].key ==> n == m && i == j)
  {
    hide IsPut, Puts, Progress, ParkedOk, Number;
    InitKeeps(r, s0);
    InvAfter(r, s0, steps);
    var s := After(r, s0, steps);
    assert ChannelOk(r, s, n) && ChannelOk(r, s, m);
    var c := PutsAt(r, n, s.nodes[n].served, s.nodes[n].call, i);
    var d := PutsAt(r, m, s.nodes[m].served, s.nodes[m].call, j);
    assert HoldsKey(r, s, Key(c, n));
    if n != m {
      if Number(r, Key(c, n)) == Number(r, Key(d, m)) { NumberUnique(r, Key(c, n), Key(d, m)); }
    } else if i < j {
      PutsDiffer(r, n, s.nodes[n].served, s.nodes[n].call, i, j);
    } else if j < i {
      PutsDiffer(r, n, s.nodes[n].served, s.nodes[n].call, j, i);
    }
  }
}
