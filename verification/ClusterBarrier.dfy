/**
 The cluster barrier: nodes make the same sequence of collective calls, each built
 from Put and Get on the master's key-value store, where a Get of a missing key is
 parked until the key is put. Partition 0 is the master's.
 */
module ClusterBarrier {
  import opened Basics

  /** Collect: everybody puts a value and the master gets them all. Broadcast: the
      master puts a value and everybody else gets it. A fence is both, in this order. */
  datatype Call = Collect | Broadcast

  /** What a run is about: the common calls, what each node contributes to each, and how
      many nodes there are. */
  datatype Run = Run(prog: seq<Call>, send: (nat, nat) -> int, parts: nat)

  /** One call and one partition. */
  datatype Key = Key(call: nat, part: nat)

  /** The key in the store: sync_key_, which grows by the number of partitions with every
      call, plus the partition number. */
  function Number(r: Run, k: Key): nat { k.call * r.parts + k.part }

  /** The call a key belongs to. */
  function CallOf(r: Run, number: nat): nat { if r.parts == 0 then 0 else number / r.parts }

  /** Different calls or partitions never use the same key. */
  lemma NumberUnique(r: Run, k: Key, l: Key)
    requires k.part < r.parts && l.part < r.parts && Number(r, k) == Number(r, l)
    ensures k == l
  {
    if k.call < l.call {
      MulMono(k.call, l.call, r.parts);
    } else if l.call < k.call {
      MulMono(l.call, k.call, r.parts);
    }
  }

  lemma NumberCall(r: Run, k: Key)
    requires k.part < r.parts
    ensures CallOf(r, Number(r, k)) == k.call
  {
    var q := Number(r, k) / r.parts;
    assert Number(r, k) == q * r.parts + Number(r, k) % r.parts;
    NumberUnique(r, k, Key(q, Number(r, k) % r.parts));
  }

  datatype Msg = Put(key: nat, value: int) | Get(key: nat)

  /** Where the Get of a node is. */
  datatype Wait = NoGet | Asking | ParkedAtMaster | Answered

  /** A node: the call it is in, the partition the master is at in a Collect, its Get,
      and (for the proof) before which call all its Puts have reached the store. */
  datatype Node = Node(call: nat, at: nat, wait: Wait, served: nat)

  datatype State = State(
    nodes: seq<Node>,
    chan: seq<seq<Msg>>,              // from each node to the store, in order
    replies: seq<seq<(nat, int)>>,    // from the store to each node
    kvs: map<nat, int>,
    parked: map<nat, seq<nat>>)

  datatype Step = Advance(n: nat) | Store(n: nat) | Receive(n: nat)

  predicate IsPut(prog: seq<Call>, n: nat, c: nat) {
    c < |prog| && (prog[c].Collect? <==> n != 0)
  }

  /** The key node `x` is waiting for. */
  function Wanted(x: Node, n: nat): Key {
    if n == 0 then Key(x.call, x.at) else Key(x.call, 0)
  }

  /** The same as a key in the store. */
  function Wants(r: Run, x: Node, n: nat): nat { Number(r, Wanted(x, n)) }

  predicate Enabled(r: Run, s: State, step: Step) {
    step.n < |s.nodes| == |s.chan| == |s.replies| &&
    match step
    case Advance(n) => s.nodes[n].wait.NoGet? && s.nodes[n].call < |r.prog|
    case Store(n) => s.chan[n] != []
    case Receive(n) => s.replies[n] != []
  }

  function PostNode(s: State, n: nat, x: Node, m: seq<Msg>): State
    requires n < |s.nodes| == |s.chan|
  {
    s.(nodes := s.nodes[n := x], chan := s.chan[n := s.chan[n] + m])
  }

  function PutOf(r: Run, n: nat, c: nat): Msg { Put(Number(r, Key(c, n)), r.send(c, n)) }

  /** A node goes on in its code. */
  function AdvanceNode(r: Run, s: State, n: nat): State
    requires Enabled(r, s, Advance(n))
  {
    var x := s.nodes[n];
    if IsPut(r.prog, n, x.call) then PostNode(s, n, x.(call := x.call + 1), [PutOf(r, n, x.call)])
    else if n == 0 && x.at == |s.nodes| then PostNode(s, n, x.(call := x.call + 1, at := 0), [])
    else if n == 0 && x.at == 0 then PostNode(s, n, x.(at := 1), [])
    else PostNode(s, n, x.(wait := Asking), [Get(Wants(r, x, n))])
  }

  /** The answers to node `n` when a queue is served: one for each time it is queued. */
  function Answers(q: seq<nat>, n: nat, a: (nat, int)): seq<(nat, int)> {
    if q == [] then [] else (if q[0] == n then [a] else []) + Answers(q[1..], n, a)
  }

  /** Every Get in the queue is answered. */
  function AnswerAll(s: State, q: seq<nat>, k: nat, v: int): State
    requires |s.nodes| == |s.replies|
  {
    s.(nodes := seq(|s.nodes|, n requires 0 <= n < |s.nodes| =>
                  if n in q then s.nodes[n].(wait := Answered) else s.nodes[n]),
       replies := seq(|s.nodes|, n requires 0 <= n < |s.nodes| => s.replies[n] + Answers(q, n, (k, v))))
  }

  /** The store takes the next message of node `n`. */
  function StoreMessage(r: Run, s: State, n: nat): State
    requires Enabled(r, s, Store(n))
  {
    var m := s.chan[n][0];
    var s1 := s.(chan := s.chan[n := s.chan[n][1..]]);
    match m
    case Put(k, v) =>
      var s2 := s1.(kvs := s1.kvs[k := v], nodes := s1.nodes[n := s1.nodes[n].(served := CallOf(r, k) + 1)]);
      if k in s2.parked then AnswerAll(s2.(parked := s2.parked - {k}), s2.parked[k], k, v) else s2
    case Get(k) =>
      if k in s.kvs then AnswerAll(s1, [n], k, s.kvs[k])
      else
        s1.(parked := s1.parked[k := (if k in s1.parked then s1.parked[k] else []) + [n]],
            nodes := s1.nodes[n := s1.nodes[n].(wait := ParkedAtMaster)])
  }

  /** A node gets the value it asked for. */
  function ReceiveReply(r: Run, s: State, n: nat): State
    requires Enabled(r, s, Receive(n))
  {
    var x := s.nodes[n];
    s.(replies := s.replies[n := s.replies[n][1..]],
       nodes := s.nodes[n := if n == 0 then x.(at := x.at + 1, wait := NoGet)
                             else x.(call := x.call + 1, wait := NoGet)])
  }

  predicate Init(r: Run, s: State) {
    && 0 < |s.nodes| == |s.chan| == |s.replies| == r.parts && s.kvs == map[] && s.parked == map[]
    && (forall n | 0 <= n < |s.nodes| :: s.nodes[n] == Node(0, 0, NoGet, 0))
    && (forall n | 0 <= n < |s.chan| :: s.chan[n] == [])
    && (forall n | 0 <= n < |s.replies| :: s.replies[n] == [])
  }

  // ----- the invariant -----

  /** The Puts of node `n` in calls `lo` to `hi - 1`. */
  function Puts(r: Run, n: nat, lo: nat, hi: nat): seq<Msg>
    decreases hi - lo
  {
    if lo >= hi then []
    else (if IsPut(r.prog, n, lo) then [PutOf(r, n, lo)] else []) + Puts(r, n, lo + 1, hi)
  }

  /** Everybody's Put for call `c` that the master collects has reached the store, for
      partitions below `at`. */
  ghost predicate Collected(nodes: seq<Node>, c: nat, at: nat) {
    forall j | 0 < j < at && j < |nodes| :: nodes[j].served > c
  }

  /** How far a node can be, given what has reached the store. */
  ghost predicate Progress(r: Run, nodes: seq<Node>, n: nat)
    requires n < |nodes|
  {
    var x := nodes[n];
    && x.served <= x.call <= |r.prog|
    && (forall c | 0 <= c < x.call && c < |r.prog| && !IsPut(r.prog, n, c) ::
          if n == 0 then Collected(nodes, c, |nodes|) else nodes[0].served > c)
    && (n == 0 ==> x.at <= |nodes| && Collected(nodes, x.call, x.at))
    && (n == 0 && x.at > 0 ==> x.call < |r.prog| && !IsPut(r.prog, 0, x.call))
    && (!x.wait.NoGet? ==> x.call < |r.prog| && !IsPut(r.prog, n, x.call) && (n == 0 ==> 0 < x.at < |nodes|))
  }

  /** The value that the node is waiting for. */
  function Contribution(r: Run, x: Node, n: nat): int { r.send(Wanted(x, n).call, Wanted(x, n).part) }

  ghost predicate ChannelOk(r: Run, s: State, n: nat)
    requires n < |s.nodes| == |s.chan| == |s.replies|
  {
    var x := s.nodes[n];
    && s.chan[n] == Puts(r, n, x.served, x.call) + (if x.wait.Asking? then [Get(Wants(r, x, n))] else [])
    && s.replies[n] == (if x.wait.Answered? then [(Wants(r, x, n), Contribution(r, x, n))] else [])
    && (x.wait.Answered? ==> Wants(r, x, n) in s.kvs)
  }

  /** The store holds the Put with key `k` exactly if it has reached it. */
  ghost predicate HoldsKey(r: Run, s: State, k: Key)
    requires k.part < |s.nodes|
  {
    && (Number(r, k) in s.kvs <==> IsPut(r.prog, k.part, k.call) && k.call < s.nodes[k.part].served)
    && (Number(r, k) in s.kvs ==> s.kvs[Number(r, k)] == r.send(k.call, k.part))
  }

  ghost predicate StoreOk(r: Run, s: State) {
    forall k: Key | k.part < |s.nodes| :: HoldsKey(r, s, k)
  }

  predicate Queued(parked: map<nat, seq<nat>>, k: nat, n: nat) { k in parked && n in parked[k] }

  /** A Get is parked exactly once, under a key that is not there. */
  ghost predicate ParkedOk(r: Run, s: State) {
    && (forall k | k in s.parked :: k !in s.kvs)
    && (forall k, i, j | k in s.parked && 0 <= i < j < |s.parked[k]| :: s.parked[k][i] != s.parked[k][j])
    && (forall k: nat, n: nat | Queued(s.parked, k, n) ::
          n < |s.nodes| && s.nodes[n].wait.ParkedAtMaster? && Wants(r, s.nodes[n], n) == k)
    && (forall n | 0 <= n < |s.nodes| && s.nodes[n].wait.ParkedAtMaster? ::
          Queued(s.parked, Wants(r, s.nodes[n], n), n))
  }

  ghost predicate Inv(r: Run, s: State) {
    && 0 < |s.nodes| == |s.chan| == |s.replies| == r.parts
    && (forall n | 0 <= n < |s.nodes| :: Progress(r, s.nodes, n) && ChannelOk(r, s, n))
    && StoreOk(r, s) && ParkedOk(r, s)
  }

  function Perform(r: Run, s: State, step: Step): State
    requires Enabled(r, s, step)
  {
    match step
    case Advance(n) => AdvanceNode(r, s, n)
    case Store(n) => StoreMessage(r, s, n)
    case Receive(n) => ReceiveReply(r, s, n)
  }

  // ----- lemmas -----

  lemma {:induction false} PutsAppend(r: Run, n: nat, lo: nat, hi: nat)
    requires lo <= hi
    ensures Puts(r, n, lo, hi + 1) == Puts(r, n, lo, hi) + if IsPut(r.prog, n, hi) then [PutOf(r, n, hi)] else []
    decreases hi - lo
  {
    hide IsPut, PutOf;
    if lo < hi {
      PutsAppend(r, n, lo + 1, hi);
    } else {
      assert Puts(r, n, lo + 1, lo + 1) == [];
    }
  }

  /** The first Put of a node that has not reached the store. */
  lemma {:induction false} PutsHead(r: Run, n: nat, lo: nat, hi: nat) returns (c: nat)
    requires Puts(r, n, lo, hi) != []
    ensures Puts(r, n, lo, hi)[0] == PutOf(r, n, c) && lo <= c < hi && IsPut(r.prog, n, c)
    ensures Puts(r, n, lo, hi)[1..] == Puts(r, n, c + 1, hi)
    ensures forall d | lo <= d < c :: !IsPut(r.prog, n, d)
    decreases hi - lo
  {
    hide IsPut, PutOf;
    if IsPut(r.prog, n, lo) {
      c := lo;
    } else {
      assert Puts(r, n, lo, hi) == Puts(r, n, lo + 1, hi);
      c := PutsHead(r, n, lo + 1, hi);
    }
  }

  lemma {:induction false} AnswerOnce(q: seq<nat>, n: nat, a: (nat, int))
    requires forall i, j | 0 <= i < j < |q| :: q[i] != q[j]
    ensures Answers(q, n, a) == if n in q then [a] else []
  {
    if q != [] { AnswerOnce(q[1..], n, a); }
  }
}
