/**
 The coherence protocol for one block: the home worker's directory entry and
 memory, every other worker's cache line, the channels between them, and the
 handlers as steps of a state machine.

 A handler runs under the block's lock, so it is one step. A channel delivers
 in order; a one-sided RDMA write travels in it as a message of its own. Every
 branch that the source reports as unexpected, and every epicAssert, clears
 the `ok` flag of its step.
 */
module Protocol {
  import opened Blocks
  import opened Basics
  import opened Sharers

  // ----- messages -----

  /** What a cache worker sends to the home worker. */
  datatype UpMsg =
    | Read(ptr: Ptr)
    | Write(ptr: Ptr)
    | WritePermissionOnly(ptr: Ptr)
    | ActiveInvalidate(ptr: Ptr)
    | WriteBackData(block: Block)          // one-sided write into home memory
    | WriteBack(ptr: Ptr)
    | FetchSharedReply(block: Block)
    | ReadForwardReply(block: Block)
    | FetchInvalidateReply(block: Block)
    | InvalidateAck
    | InvalidateForwardAck
    | WriteForwardAck

  /** What the home worker sends to a cache worker. */
  datatype DownMsg =
    | ReadReply(ptr: Ptr, block: Block)
    | LineData(ptr: Ptr, block: Block)     // one-sided write into the line
    | WriteReply
    | OwnershipAck
    | EvictAck
    | FetchAndShared
    | ReadForward(pwid: Wid, ptr: Ptr)
    | FetchAndInvalidate
    | Invalidate
    | InvalidateForward
    | WriteForward(pwid: Wid, ptr: Ptr)

  /** What an owner sends straight to the worker that asked the home worker. */
  datatype PeerMsg =
    | ReadData(ptr: Ptr, block: Block)
    | OwnershipData(ptr: Ptr, block: Block)

  // ----- the home worker -----

  datatype DirState = DirUnshared | DirDirty | DirShared | DirToDirty | DirToShared | DirToUnshared

  predicate InTransition(d: DirState) {
    d.DirToDirty? || d.DirToShared? || d.DirToUnshared?
  }

  /** The home worker's own entry in pending_works for this block. */
  datatype Pending =
    | Idle
    | FetchingShared
    | ForwardingRead(wid: Wid, ptr: Ptr)
    | Invalidating(fetch: bool, counter: int, store: Store)
    | InvalidatingForward(counter: int, wid: Wid, ptr: Ptr, perm: bool)
    | ForwardingWrite(wid: Wid, ptr: Ptr)

  datatype Parked = Parked(wid: Wid, msg: UpMsg)

  datatype Home = Home(
    state: DirState,
    shared: seq<Sharer>,
    mem: Block,
    pending: Pending,
    parked: seq<Parked>)

  /** The result of a home handler: messages to send, a local write that took
      effect, the bytes a local read returned, and whether nothing unexpected
      was met. */
  datatype HomeOut = HomeOut(
    home: Home,
    send: map<Wid, seq<DownMsg>>,
    wrote: Option<Store>,
    read: Option<Block>,
    ok: bool)

  function Out(h: Home, send: map<Wid, seq<DownMsg>>, ok: bool): HomeOut {
    HomeOut(h, send, None, None, ok)
  }

  /** Directory::ToShared with an address. A missing entry counts as unshared. */
  function DirAddShared(h: Home, e: Sharer): (Home, bool) {
    (h.(state := DirShared, shared := h.shared + [e]),
     (h.state.DirShared? || h.state.DirUnshared?) && (h.shared == [] || h.shared[0].wid != e.wid))
  }

  /** Directory::ToShared of an entry in DIR_TO_SHARED with a null address. */
  function DirFinishShared(h: Home): (Home, bool) {
    (h.(state := DirShared), h.state.DirToShared? && |h.shared| == 1)
  }

  /** Directory::ToDirty */
  function DirToDirtyBy(h: Home, e: Sharer): (Home, bool) {
    (h.(state := DirDirty, shared := [e]), h.state.DirUnshared? || h.state.DirShared? || h.state.DirToDirty?)
  }

  /** Directory::Remove; the entry is erased with its last address. */
  function DirRemove(h: Home, w: Wid): (Home, bool) {
    var rest := RemoveWid(h.shared, w);
    (h.(shared := rest, state := if rest == [] then DirUnshared else h.state), w in Wids(h.shared))
  }

  /** Directory::Clear; the entry is erased with its last address. */
  function DirClear(h: Home, e: Sharer): (Home, bool) {
    if h.state.DirUnshared? then (h, true)
    else
      var rest :=
        if h.state.DirDirty? then (if h.shared != [] && h.shared[0] == e then h.shared[1..] else h.shared)
        else RemoveAddr(h.shared, e);
      (h.(shared := rest, state := if rest == [] then DirUnshared else h.state),
       if h.state.DirDirty? then |h.shared| == 1 else h.state.DirShared? && h.shared != [])
  }

  /** ProcessRemoteRead outside a transition. */
  function ServeRead(h: Home, w: Wid, ptr: Ptr): HomeOut {
    if !h.state.DirDirty? then
      var (h', ok) := DirAddShared(h, Sharer(w, ptr));
      Out(h', map[w := [ReadReply(ptr, h.mem)]], ok)
    else if h.shared == [] then Out(h, map[], false)
    else
      Out(h.(state := DirToShared, pending := ForwardingRead(w, ptr)),
          map[h.shared[0].wid := [ReadForward(w, ptr)]],
          |h.shared| == 1)
  }

  /** ProcessRemoteWrite outside a transition. */
  function ServeWrite(h: Home, w: Wid, ptr: Ptr, perm: bool): HomeOut {
    match h.state
    case DirShared =>
      var targets := Wids(h.shared) - {w};
      var counter := |h.shared| - if w in Wids(h.shared) then 1 else 0;
      var ok := w in Wids(h.shared) ==> perm;
      if counter != 0 then
        Out(h.(state := DirToDirty, pending := InvalidatingForward(counter, w, ptr, perm)),
            map u | u in targets :: [InvalidateForward], ok)
      else
        var (h', ok') := DirToDirtyBy(h, Sharer(w, ptr));
        Out(h', map[w := [WriteReply]], ok && ok')
    case DirDirty =>
      if h.shared == [] then Out(h, map[], false)
      else
        Out(h.(state := DirToDirty, pending := ForwardingWrite(w, ptr)),
            map[h.shared[0].wid := [WriteForward(w, ptr)]],
            |h.shared| == 1)
    case _ =>
      var (h', ok) := DirToDirtyBy(h, Sharer(w, ptr));
      Out(h', map[w := [LineData(ptr, h.mem), WriteReply]], ok)
  }

  predicate IsRequest(m: UpMsg) {
    m.Read? || m.Write? || m.WritePermissionOnly? || m.ActiveInvalidate? || m.WriteBack?
  }

  /** Worker::ProcessRequest of a message that may be parked, outside a transition. */
  function Serve(h: Home, w: Wid, m: UpMsg): HomeOut
    requires IsRequest(m)
  {
    match m
    case Read(ptr) => ServeRead(h, w, ptr)
    case Write(ptr) => ServeWrite(h, w, ptr, false)
    case WritePermissionOnly(ptr) => ServeWrite(h, w, ptr, true)
    case ActiveInvalidate(ptr) => var (h', ok) := DirClear(h, Sharer(w, ptr)); Out(h', map[], ok)
    case WriteBack(ptr) => var (h', ok) := DirClear(h, Sharer(w, ptr)); Out(h', map[w := [EvictAck]], ok)
  }

  /** ProcessPendingWrite of the home worker's own write, on one reply. */
  function PendingWrite(h: Home, w: Wid): HomeOut
    requires h.pending.Invalidating?
  {
    var (h1, ok) := DirRemove(h, w);
    var counter := h.pending.counter - 1;
    if counter != 0 then
      Out(h1.(pending := Invalidating(h.pending.fetch, counter, h.pending.store)), map[], ok && h.state.DirToUnshared?)
    else
      HomeOut(h1.(state := DirUnshared, shared := [], pending := Idle, mem := Patch(h.mem, h.pending.store)),
              map[], Some(h.pending.store), None, ok && h.state.DirToUnshared?)
  }

  /** ProcessPendingInvalidateForward */
  function PendingInvalidateForward(h: Home, w: Wid): HomeOut
    requires h.pending.InvalidatingForward?
  {
    var p := h.pending;
    var (h1, ok) := DirRemove(h, w);
    var counter := p.counter - 1;
    if counter != 0 then
      Out(h1.(pending := InvalidatingForward(counter, p.wid, p.ptr, p.perm)), map[], ok && h.state.DirToDirty?)
    else
      var data := if !p.perm || h1.state.DirUnshared? then [LineData(p.ptr, h.mem)] else [];
      var (h2, ok2) := DirToDirtyBy(h1, Sharer(p.wid, p.ptr));
      Out(h2.(pending := Idle), map[p.wid := data + [WriteReply]], ok && ok2 && h.state.DirToDirty?)
  }

  /** Worker::ProcessPendingRequest at the home worker: a reply from worker `w`
      meets the pending work it belongs to. */
  function Reply(h: Home, w: Wid, m: UpMsg): HomeOut
    requires !IsRequest(m) && !m.WriteBackData?
  {
    match m
    case FetchSharedReply(b) =>
      if !h.pending.FetchingShared? then Out(h, map[], false)
      else
        var (h1, ok) := DirFinishShared(h.(mem := b, pending := Idle));
        HomeOut(h1, map[], None, Some(b), ok)
    case ReadForwardReply(b) =>
      if !h.pending.ForwardingRead? then Out(h, map[], false)
      else
        var (h1, ok1) := DirFinishShared(h.(mem := b, pending := Idle));
        var (h2, ok2) := DirAddShared(h1, Sharer(h.pending.wid, h.pending.ptr));
        Out(h2, map[], ok1 && ok2)
    case FetchInvalidateReply(b) =>
      if !(h.pending.Invalidating? && h.pending.fetch) then Out(h, map[], false)
      else PendingWrite(h.(mem := b), w)
    case InvalidateAck =>
      if !(h.pending.Invalidating? && !h.pending.fetch) then Out(h, map[], false)
      else PendingWrite(h, w)
    case InvalidateForwardAck =>
      if !h.pending.InvalidatingForward? then Out(h, map[], false)
      else PendingInvalidateForward(h, w)
    case WriteForwardAck =>
      if !h.pending.ForwardingWrite? then Out(h, map[], false)
      else
        var (h1, ok) := DirToDirtyBy(h, Sharer(h.pending.wid, h.pending.ptr));
        Out(h1.(pending := Idle), map[h.pending.wid := [OwnershipAck]], ok)
  }

  /** ProcessLocalRead of a local thread, outside a transition. */
  function LocalRead(h: Home): HomeOut {
    if h.state.DirDirty? then
      if h.shared == [] then Out(h, map[], false)
      else
        Out(h.(state := DirToShared, pending := FetchingShared),
            map[h.shared[0].wid := [FetchAndShared]], |h.shared| == 1)
    else HomeOut(h, map[], None, Some(h.mem), true)
  }

  /** ProcessLocalWrite of a local thread, outside a transition. */
  function LocalWrite(h: Home, s: Store): HomeOut {
    if h.state.DirDirty? || h.state.DirShared? then
      var m := if h.state.DirDirty? then FetchAndInvalidate else Invalidate;
      Out(h.(state := DirToUnshared, pending := Invalidating(h.state.DirDirty?, |h.shared|, s)),
          map u | u in Wids(h.shared) :: [m], true)
    else
      HomeOut(h.(mem := Patch(h.mem, s)), map[], Some(s), None, true)
  }

  // ----- a cache worker -----

  /** A worker's line for the block, together with the pending work that put it
      into a transition state. `evicting` tells a line that waits for the answer
      to its WRITE_BACK from one that waits for PENDING_INVALIDATE. */
  datatype Line =
    | Absent
    | CacheToShared(ptr: Ptr)
    | CacheShared(ptr: Ptr, data: Block)
    | CacheToDirty(ptr: Ptr, data: Block, perm: bool, store: Store, counter: int)
    | CacheDirty(ptr: Ptr, data: Block)
    | CacheToInvalid(ptr: Ptr, data: Block, evicting: bool)

  datatype Node = Node(
    line: Line,
    parked: seq<DownMsg>,     // to_serve_requests of the block
    up: seq<UpMsg>,           // channel to the home worker
    down: seq<DownMsg>,       // channel from the home worker
    peer: seq<PeerMsg>)       // data on its way from other workers

  datatype NodeOut = NodeOut(
    node: Node,
    send: Option<(Wid, PeerMsg)>,
    wrote: Option<Store>,
    read: Option<Block>,
    ok: bool)

  function NOut(n: Node, ok: bool): NodeOut { NodeOut(n, None, None, None, ok) }

  /** ProcessRemoteReadCache: FETCH_AND_SHARED and READ_FORWARD. */
  function ServeReadCache(n: Node, m: DownMsg): NodeOut
    requires m.FetchAndShared? || m.ReadForward?
  {
    match n.line
    case Absent => NOut(n, false)
    case CacheToDirty(_, _, _, _, _) => NOut(n.(parked := n.parked + [m]), true)
    case CacheToShared(_) => NOut(n, false)
    case CacheShared(_, _) => NOut(n, false)
    case CacheToInvalid(_, data, evicting) => AnswerRead(n, m, data, evicting)
    case CacheDirty(ptr, data) => AnswerRead(n.(line := CacheShared(ptr, data)), m, data, true)
  }

  function AnswerRead(n: Node, m: DownMsg, data: Block, ok: bool): NodeOut
    requires m.FetchAndShared? || m.ReadForward?
  {
    if m.FetchAndShared? then
      NOut(n.(up := n.up + [FetchSharedReply(data)]), ok)
    else
      NodeOut(n.(up := n.up + [ReadForwardReply(data)]), Some((m.pwid, ReadData(m.ptr, data))), None, None, ok)
  }

  /** ProcessRemoteWriteCache: INVALIDATE and INVALIDATE_FORWARD. */
  function ServeInvalidate(n: Node, m: DownMsg): NodeOut
    requires m.Invalidate? || m.InvalidateForward?
  {
    var ack := if m.Invalidate? then InvalidateAck else InvalidateForwardAck;
    match n.line
    case CacheToShared(_) => NOut(n.(parked := n.parked + [m]), true)
    case CacheShared(_, _) => NOut(n.(line := Absent, up := n.up + [ack]), true)
    case CacheDirty(_, _) => NOut(n.(line := Absent, up := n.up + [ack]), false)
    case _ => NOut(n.(up := n.up + [ack]), true)
  }

  /** ProcessRemoteWriteCache: FETCH_AND_INVALIDATE and WRITE_FORWARD. */
  function ServeWriteCache(n: Node, m: DownMsg): NodeOut
    requires m.FetchAndInvalidate? || m.WriteForward?
  {
    match n.line
    case Absent => NOut(n, false)
    case CacheToDirty(_, _, _, _, _) => NOut(n.(parked := n.parked + [m]), true)
    case CacheToShared(_) => NOut(n.(parked := n.parked + [m]), true)
    case CacheToInvalid(_, data, evicting) => AnswerWrite(n, m, data, evicting)
    case CacheShared(ptr, data) => AnswerWrite(n.(line := CacheToInvalid(ptr, data, false)), m, data, false)
    case CacheDirty(ptr, data) => AnswerWrite(n.(line := CacheToInvalid(ptr, data, false)), m, data, true)
  }

  function AnswerWrite(n: Node, m: DownMsg, data: Block, ok: bool): NodeOut
    requires m.FetchAndInvalidate? || m.WriteForward?
  {
    if m.FetchAndInvalidate? then
      NOut(n.(up := n.up + [FetchInvalidateReply(data)]), ok)
    else
      NodeOut(n.(up := n.up + [WriteForwardAck]), Some((m.pwid, OwnershipData(m.ptr, data))), None, None, ok)
  }

  predicate IsDemand(m: DownMsg) {
    m.FetchAndShared? || m.ReadForward? || m.FetchAndInvalidate?
      || m.Invalidate? || m.InvalidateForward? || m.WriteForward?
  }

  /** Worker::ProcessRequest at a cache worker. */
  function ServeDemand(n: Node, m: DownMsg): NodeOut
    requires IsDemand(m)
  {
    if m.FetchAndShared? || m.ReadForward? then ServeReadCache(n, m)
    else if m.Invalidate? || m.InvalidateForward? then ServeInvalidate(n, m)
    else ServeWriteCache(n, m)
  }

  /** ProcessPendingRead of a remote read. */
  function FinishRead(n: Node, ptr: Ptr, b: Block): NodeOut {
    if n.line.CacheToShared? && n.line.ptr == ptr then
      NodeOut(n.(line := CacheShared(ptr, b)), None, None, Some(b), true)
    else NOut(n, false)
  }

  /** A one-sided write lands in the line it was addressed to. */
  function Land(n: Node, ptr: Ptr, b: Block): (Node, bool) {
    match n.line
    case CacheToDirty(p, _, perm, store, counter) =>
      (if p == ptr then n.(line := CacheToDirty(p, b, perm, store, counter)) else n, p == ptr)
    case _ => (n, false)
  }

  /** ProcessPendingWrite of a remote write, after `delta` has been added to its
      counter: at zero the writer's bytes are copied (again) and the line is dirty. */
  function CountWrite(n: Node, delta: int): NodeOut {
    if !n.line.CacheToDirty? then NOut(n, false)
    else
      var l := n.line;
      var counter := l.counter + delta;
      if counter == 0 then
        NodeOut(n.(line := CacheDirty(l.ptr, Patch(l.data, l.store))), None, Some(l.store), None, true)
      else NOut(n.(line := CacheToDirty(l.ptr, l.data, l.perm, l.store, counter)), true)
  }

  /** A message from the home worker. */
  function FromHome(n: Node, m: DownMsg): NodeOut {
    match m
    case ReadReply(ptr, b) => FinishRead(n, ptr, b)
    case LineData(ptr, b) => var (n', ok) := Land(n, ptr, b); NOut(n', ok)
    case WriteReply => CountWrite(n, 0)
    case OwnershipAck => CountWrite(n, 1)
    case EvictAck =>
      NOut(n.(line := Absent), n.line.CacheToInvalid? && n.line.evicting)
    case _ => ServeDemand(n, m)
  }

  /** Data from the previous owner. */
  function FromPeer(n: Node, m: PeerMsg): NodeOut {
    match m
    case ReadData(ptr, b) => FinishRead(n, ptr, b)
    case OwnershipData(ptr, b) =>
      var (n', ok) := Land(n, ptr, b);
      var o := CountWrite(n', -1);
      o.(ok := o.ok && ok)
  }

  /** Cache::ReadWrite for a read; `ptr` is the address of a line it allocates. */
  function CacheRead(n: Node, ptr: Ptr): NodeOut {
    match n.line
    case Absent => NOut(n.(line := CacheToShared(ptr), up := n.up + [Read(ptr)]), true)
    case CacheShared(_, data) => NodeOut(n, None, None, Some(data), true)
    case CacheDirty(_, data) => NodeOut(n, None, None, Some(data), true)
    // a line on its way out still serves reads
    case CacheToInvalid(_, data, _) => NodeOut(n, None, None, Some(data), true)
    case _ => NOut(n, true)          // the request waits in to_serve_local_requests
  }

  /** Cache::ReadWrite for a write; `init` is the content of a line it allocates. */
  function CacheWrite(n: Node, ptr: Ptr, init: Block, s: Store): NodeOut {
    match n.line
    case Absent =>
      NOut(n.(line := CacheToDirty(ptr, init, false, s, 0), up := n.up + [Write(ptr)]), true)
    case CacheShared(p, data) =>
      NOut(n.(line := CacheToDirty(p, Patch(data, s), true, s, 0), up := n.up + [WritePermissionOnly(p)]), true)
    case CacheDirty(p, data) =>
      NodeOut(n.(line := CacheDirty(p, Patch(data, s))), None, Some(s), None, true)
    case _ => NOut(n, true)
  }

  /** Cache::Evict of one line; lines in a transition state are passed over. */
  function Evict(n: Node): NodeOut {
    match n.line
    case CacheShared(ptr, _) => NOut(n.(line := Absent, up := n.up + [ActiveInvalidate(ptr)]), true)
    case CacheDirty(ptr, data) =>
      NOut(n.(line := CacheToInvalid(ptr, data, true), up := n.up + [WriteBackData(data), WriteBack(ptr)]), true)
    case _ => NOut(n, true)
  }

  /** Worker::CompletionCheck of a PENDING_INVALIDATE. */
  function SendDone(n: Node): NodeOut {
    if n.line.CacheToInvalid? && !n.line.evicting then NOut(n.(line := Absent), true) else NOut(n, true)
  }

  // ----- the whole system -----

  datatype State = State(home: Home, nodes: map<Wid, Node>, latest: Block, ok: bool)

  datatype Step =
    | HomeLocalRead
    | HomeLocalWrite(store: Store)
    | HomeServeParked
    | HomeReceive(wid: Wid)
    | NodeRead(wid: Wid, ptr: Ptr)
    | NodeWrite(wid: Wid, ptr: Ptr, init: Block, store: Store)
    | NodeEvict(wid: Wid)
    | NodeSendDone(wid: Wid)
    | NodeServeParked(wid: Wid)
    | NodeReceive(wid: Wid)
    | NodeReceivePeer(wid: Wid, index: nat)

  /** What one step leaves behind, and the bytes it returned to a local reader. */
  datatype Result = Result(state: State, read: Option<Block>)

  predicate Enabled(s: State, step: Step) {
    match step
    case HomeLocalRead => !InTransition(s.home.state)
    case HomeLocalWrite(_) => !InTransition(s.home.state)
    case HomeServeParked => !InTransition(s.home.state) && s.home.parked != []
    // the polling thread empties the parked queue before it takes the next message
    case HomeReceive(w) =>
      w in s.nodes && s.nodes[w].up != [] &&
      (s.nodes[w].up[0].WriteBackData? || InTransition(s.home.state) || s.home.parked == [])
    case NodeServeParked(w) => w in s.nodes && s.nodes[w].parked != []
    case NodeReceive(w) => w in s.nodes && s.nodes[w].down != []
    case NodeReceivePeer(w, i) => w in s.nodes && i < |s.nodes[w].peer|
    case _ => step.wid in s.nodes
  }

  function Post(nodes: map<Wid, Node>, send: map<Wid, seq<DownMsg>>): map<Wid, Node> {
    map u | u in nodes :: if u in send then nodes[u].(down := nodes[u].down + send[u]) else nodes[u]
  }

  function Latest(b: Block, wrote: Option<Store>): Block {
    if wrote.Some? then Patch(b, wrote.value) else b
  }

  function AfterHome(s: State, o: HomeOut): Result {
    Result(State(o.home, Post(s.nodes, o.send), Latest(s.latest, o.wrote), s.ok && o.ok && o.send.Keys <= s.nodes.Keys),
           o.read)
  }

  function AfterNode(s: State, w: Wid, o: NodeOut): Result
    requires w in s.nodes
  {
    var nodes := s.nodes[w := o.node];
    var nodes' :=
      if o.send.Some? && o.send.value.0 in nodes then
        var r := o.send.value.0;
        nodes[r := nodes[r].(peer := nodes[r].peer + [o.send.value.1])]
      else nodes;
    Result(State(s.home, nodes', Latest(s.latest, o.wrote), s.ok && o.ok && (o.send.Some? ==> o.send.value.0 in nodes)),
           o.read)
  }

  /** Hand a request to the home worker: served, or parked in a transition. */
  function HandleRequest(h: Home, w: Wid, m: UpMsg): HomeOut
    requires IsRequest(m)
  {
    if InTransition(h.state) then Out(h.(parked := h.parked + [Parked(w, m)]), map[], true) else Serve(h, w, m)
  }

  function HomeHandle(h: Home, w: Wid, m: UpMsg): HomeOut {
    if m.WriteBackData? then Out(h.(mem := m.block), map[], true)
    else if IsRequest(m) then HandleRequest(h, w, m)
    else Reply(h, w, m)
  }

  function Perform(s: State, step: Step): Result
    requires Enabled(s, step)
  {
    match step
    case HomeLocalRead => AfterHome(s, LocalRead(s.home))
    case HomeLocalWrite(store) => AfterHome(s, LocalWrite(s.home, store))
    case HomeServeParked =>
      var p := s.home.parked[0];
      var h := s.home.(parked := s.home.parked[1..]);
      if IsRequest(p.msg) then AfterHome(s, Serve(h, p.wid, p.msg)) else AfterHome(s, Out(h, map[], false))
    case HomeReceive(w) =>
      var n := s.nodes[w];
      AfterHome(s.(nodes := s.nodes[w := n.(up := n.up[1..])]), HomeHandle(s.home, w, n.up[0]))
    case NodeRead(w, ptr) => AfterNode(s, w, CacheRead(s.nodes[w], ptr))
    case NodeWrite(w, ptr, init, store) => AfterNode(s, w, CacheWrite(s.nodes[w], ptr, init, store))
    case NodeEvict(w) => AfterNode(s, w, Evict(s.nodes[w]))
    case NodeSendDone(w) => AfterNode(s, w, SendDone(s.nodes[w]))
    case NodeServeParked(w) =>
      var n := s.nodes[w];
      var n' := n.(parked := n.parked[1..]);
      if IsDemand(n.parked[0]) then AfterNode(s, w, ServeDemand(n', n.parked[0])) else AfterNode(s, w, NOut(n', false))
    case NodeReceive(w) =>
      var n := s.nodes[w];
      AfterNode(s, w, FromHome(n.(down := n.down[1..]), n.down[0]))
    case NodeReceivePeer(w, i) =>
      var n := s.nodes[w];
      AfterNode(s, w, FromPeer(n.(peer := n.peer[..i] + n.peer[i+1..]), n.peer[i]))
  }

  /** Nothing is cached and nothing is on its way. */
  predicate Init(s: State) {
    && s.ok
    && s.home.state == DirUnshared && s.home.shared == [] && s.home.pending == Idle && s.home.parked == []
    && s.home.mem == s.latest
    && forall w | w in s.nodes :: s.nodes[w] == Node(Absent, [], [], [], [])
  }
}
