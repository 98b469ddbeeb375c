/**
 The inductive invariant of the protocol. Each worker is judged on its own:
 by what the home worker records about it (`View`) and by its line and the
 messages it has on the way, sorted by kind (`Traffic`).
 */
module Invariant {
  import opened Blocks
  import opened Basics
  import opened Sharers
  import opened Protocol

  // ----- traffic -----

  predicate IsReply(m: UpMsg) { !IsRequest(m) && !m.WriteBackData? }

  /** The requests (with write-back data) of a channel to the home worker, in order. */
  function Requests(up: seq<UpMsg>): seq<UpMsg> {
    if up == [] then [] else (if IsReply(up[0]) then [] else [up[0]]) + Requests(up[1..])
  }

  function Replies(up: seq<UpMsg>): seq<UpMsg> {
    if up == [] then [] else (if IsReply(up[0]) then [up[0]] else []) + Replies(up[1..])
  }

  function Grants(down: seq<DownMsg>): seq<DownMsg> {
    if down == [] then [] else (if IsDemand(down[0]) then [] else [down[0]]) + Grants(down[1..])
  }

  function Demands(down: seq<DownMsg>): seq<DownMsg> {
    if down == [] then [] else (if IsDemand(down[0]) then [down[0]] else []) + Demands(down[1..])
  }

  /** The parked requests of worker `w`, in order. */
  function ParkedOf(parked: seq<Parked>, w: Wid): seq<UpMsg> {
    if parked == [] then []
    else (if parked[0].wid == w then [parked[0].msg] else []) + ParkedOf(parked[1..], w)
  }

  /** A worker's line and messages: `asks` are its requests the home worker has
      not served yet, parked or in the channel. */
  datatype Traffic = Traffic(
    line: Line,
    asks: seq<UpMsg>,
    replies: seq<UpMsg>,
    grants: seq<DownMsg>,
    demands: seq<DownMsg>,
    waiting: seq<DownMsg>,
    peer: seq<PeerMsg>)

  function TrafficOf(h: Home, w: Wid, n: Node): Traffic {
    Traffic(n.line, ParkedOf(h.parked, w) + Requests(n.up), Replies(n.up),
      Grants(n.down), Demands(n.down), n.parked, n.peer)
  }

  function TrafficMap(s: State): map<Wid, Traffic> {
    map w | w in s.nodes :: TrafficOf(s.home, w, s.nodes[w])
  }

  // ----- what the home worker records about one worker -----

  /** The worker's part as the requester of the work the home worker has pending.
      `granted` says that the owner has already answered. */
  datatype Role =
    | NoRole
    | WantsRead(ptr: Ptr, granted: bool)
    | WantsWrite(ptr: Ptr, perm: bool)
    | WantsOwnership(ptr: Ptr, granted: bool)

  datatype View = View(
    entry: Option<Ptr>,         // its address in the sharer list
    owes: Option<DownMsg>,      // the demand it still has to answer
    role: Role,
    owner: bool,                // a single dirty holder is listed
    settled: bool,              // the directory is stably DIRTY
    mem: Block,
    latest: Block)

  /** The demand the home worker sent for its pending work. */
  function Demand(p: Pending): DownMsg
    requires !p.Idle?
  {
    match p
    case FetchingShared => FetchAndShared
    case ForwardingRead(w, ptr) => ReadForward(w, ptr)
    case Invalidating(fetch, _, _) => if fetch then FetchAndInvalidate else Invalidate
    case InvalidatingForward(_, _, _, _) => InvalidateForward
    case ForwardingWrite(w, ptr) => WriteForward(w, ptr)
  }

  predicate OwnerMode(h: Home) {
    h.state.DirDirty? || h.pending.FetchingShared? || h.pending.ForwardingRead? || h.pending.ForwardingWrite?
    || (h.pending.Invalidating? && h.pending.fetch)
  }

  function Owes(h: Home, w: Wid): Option<DownMsg> {
    if h.pending.Idle? || Entry(h.shared, w).None? || (h.pending.InvalidatingForward? && h.pending.wid == w) then None
    else Some(Demand(h.pending))
  }

  function RoleOf(h: Home, granted: bool, w: Wid): Role {
    match h.pending
    case ForwardingRead(r, ptr) => if r == w then WantsRead(ptr, granted) else NoRole
    case InvalidatingForward(_, r, ptr, perm) => if r == w then WantsWrite(ptr, perm) else NoRole
    case ForwardingWrite(r, ptr) => if r == w then WantsOwnership(ptr, granted) else NoRole
    case _ => NoRole
  }

  function ViewOf(h: Home, granted: bool, latest: Block, w: Wid): View {
    View(Entry(h.shared, w), Owes(h, w), RoleOf(h, granted, w), OwnerMode(h), h.state.DirDirty?, h.mem, latest)
  }

  // ----- one worker -----

  predicate Answers(d: DownMsg, m: UpMsg, latest: Block) {
    match d
    case FetchAndShared => m == FetchSharedReply(latest)
    case ReadForward(_, _) => m == ReadForwardReply(latest)
    case FetchAndInvalidate => m == FetchInvalidateReply(latest)
    case Invalidate => m == InvalidateAck
    case InvalidateForward => m == InvalidateForwardAck
    case WriteForward(_, _) => m == WriteForwardAck
    case _ => false
  }

  /** A demanded answer exists exactly once: as the demand in the channel, as
      the parked demand, or as the reply. */
  predicate DebtOk(v: View, t: Traffic) {
    if v.owes.None? then t.demands == [] && t.waiting == [] && t.replies == []
    else
      || (t.demands == [v.owes.value] && t.waiting == [] && t.replies == [])
      || (t.demands == [] && t.waiting == [v.owes.value] && t.replies == [])
      || (t.demands == [] && t.waiting == [] && |t.replies| == 1 && Answers(v.owes.value, t.replies[0], v.latest))
  }

  /** The reply on its way gives the worker's copy up. */
  predicate Leaving(t: Traffic) {
    t.replies != [] &&
    (t.replies[0].FetchInvalidateReply? || t.replies[0].InvalidateAck?
      || t.replies[0].InvalidateForwardAck? || t.replies[0].WriteForwardAck?)
  }

  /** The home worker counts, or will count, line `p` of the worker as a copy. */
  predicate Held(v: View, t: Traffic, p: Ptr) {
    (v.entry == Some(p) && !Leaving(t)) || v.role == WantsRead(p, true)
  }

  predicate Gone(v: View, t: Traffic) {
    (v.entry.None? || Leaving(t)) && !(v.role.WantsRead? && v.role.granted)
  }

  predicate NoGrant(t: Traffic) { t.grants == [] && t.peer == [] }

  /** A worker that is neither owner nor waiting for the answer to a request. */
  predicate Bystander(v: View, t: Traffic) {
    && NoGrant(t)
    && (v.role.NoRole? || (v.role.WantsRead? && v.role.granted))
    && (v.entry.Some? && v.owner ==> t.replies != [])
  }

  /** No copy; a shared copy may have been evicted before. */
  predicate NoCopy(v: View, t: Traffic, asks: seq<UpMsg>) {
    (asks == [] && Gone(v, t)) || (|asks| == 1 && asks[0].ActiveInvalidate? && (Gone(v, t) || Held(v, t, asks[0].ptr)))
  }

  predicate AbsentOk(v: View, t: Traffic) {
    Bystander(v, t) && NoCopy(v, t, t.asks)
  }

  predicate SharedOk(v: View, t: Traffic, ptr: Ptr, data: Block) {
    Bystander(v, t) && t.asks == [] && data == v.latest && Held(v, t, ptr)
  }

  /** The last request has not been served. */
  predicate Asking(v: View, t: Traffic, m: UpMsg) {
    Bystander(v, t) && t.asks != [] && t.asks[|t.asks|-1] == m && NoCopy(v, t, t.asks[..|t.asks|-1])
  }

  predicate ReadServed(v: View, t: Traffic, ptr: Ptr) {
    && t.asks == [] && t.replies == []
    && (|| (t.grants == [ReadReply(ptr, v.latest)] && t.peer == []
      && v.entry == Some(ptr) && !v.owner && v.role.NoRole?)
        || (t.grants == [] && t.peer == [ReadData(ptr, v.latest)]
            && ((v.entry == Some(ptr) && !v.owner && v.role.NoRole?)
              || (v.role == WantsRead(ptr, true) && v.entry.None?)))
        || (NoGrant(t) && v.role == WantsRead(ptr, false) && v.entry.None?))
  }

  /** Completing the write on `data` gives what it gives on the latest value. */
  predicate Ready(v: View, data: Block, s: Store) {
    Patch(data, s) == Patch(v.latest, s)
  }

  predicate WriteServed(v: View, t: Traffic, l: Line)
    requires l.CacheToDirty?
  {
    && t.asks == [] && t.replies == []
    && (|| (v.role == WantsWrite(l.ptr, l.perm) && NoGrant(t) && l.counter == 0 && !v.owner
            && (v.entry.Some? ==> l.perm && v.entry == Some(l.ptr) && l.data == Patch(v.latest, l.store)))
        || (v.role.WantsOwnership? && v.role.ptr == l.ptr && v.entry.None? && t.grants == []
            && (if !v.role.granted then t.peer == [] && l.counter == 0
                else (t.peer == [OwnershipData(l.ptr, v.latest)] && l.counter == 0)
                     || (t.peer == [] && l.counter == -1 && Ready(v, l.data, l.store))))
        || (v.role.NoRole? && v.owner && v.entry == Some(l.ptr)
            && (|| (t.grants == [LineData(l.ptr, v.latest), WriteReply] && t.peer == [] && l.counter == 0)
                || (t.grants == [WriteReply] && t.peer == [] && l.counter == 0 && Ready(v, l.data, l.store))
                || (t.grants == [OwnershipAck] && t.peer == [OwnershipData(l.ptr, v.latest)] && l.counter == 0)
                || (t.grants == [OwnershipAck] && t.peer == [] && l.counter == -1 && Ready(v, l.data, l.store))
                || (t.grants == [] && t.peer == [OwnershipData(l.ptr, v.latest)] && l.counter == 1))))
  }

  predicate ToDirtyOk(v: View, t: Traffic, l: Line)
    requires l.CacheToDirty?
  {
    || WriteServed(v, t, l)
    || (l.counter == 0 && !l.perm && Asking(v, t, Write(l.ptr)))
    || (l.counter == 0 && l.perm && Bystander(v, t) && t.asks == [WritePermissionOnly(l.ptr)]
        && (Gone(v, t) || (Held(v, t, l.ptr) && l.data == Patch(v.latest, l.store))))
  }

  predicate DirtyOk(v: View, t: Traffic, ptr: Ptr, data: Block) {
    && t.asks == [] && t.replies == [] && NoGrant(t) && v.role.NoRole?
    && v.owner && v.entry == Some(ptr) && data == v.latest
  }

  predicate EvictingOk(v: View, t: Traffic, ptr: Ptr, data: Block) {
    && t.peer == [] && v.role.NoRole?
    && if t.asks == [] then t.grants == [EvictAck] && v.entry.None? && t.replies == []
       else
         && t.grants == []
         && (t.asks == [WriteBack(ptr)]
           || (t.asks == [WriteBackData(data), WriteBack(ptr)] && v.entry.Some? && v.owner))
         && (v.entry.Some? ==> v.entry == Some(ptr))
         && (v.entry.Some? && v.owner && !Leaving(t) ==> data == v.latest)
         && (v.entry.Some? && v.settled && |t.asks| == 1 ==> v.mem == v.latest)
  }

  predicate PassedOnOk(v: View, t: Traffic) {
    && t.asks == [] && NoGrant(t) && v.role.NoRole? && t.demands == [] && t.waiting == []
    && (v.entry.Some? ==> Leaving(t))
  }

  predicate LineOk(v: View, t: Traffic) {
    match t.line
    case Absent => AbsentOk(v, t)
    case CacheToShared(ptr) => Asking(v, t, Read(ptr)) || ReadServed(v, t, ptr)
    case CacheShared(ptr, data) => SharedOk(v, t, ptr, data)
    case CacheToDirty(_, _, _, _, _) => ToDirtyOk(v, t, t.line)
    case CacheDirty(ptr, data) => DirtyOk(v, t, ptr, data)
    case CacheToInvalid(ptr, data, evicting) =>
      if evicting then EvictingOk(v, t, ptr, data) else PassedOnOk(v, t)
  }

  predicate NodeOk(v: View, t: Traffic) { DebtOk(v, t) && LineOk(v, t) }

  // ----- the home worker -----

  predicate DirOk(h: Home) {
    && Distinct(h.shared)
    && match h.pending
       case Idle =>
         || (h.state.DirUnshared? && h.shared == [])
         || (h.state.DirShared? && h.shared != [])
         || (h.state.DirDirty? && |h.shared| == 1)
       case FetchingShared => h.state.DirToShared? && |h.shared| == 1
       case ForwardingRead(r, _) => h.state.DirToShared? && |h.shared| == 1 && h.shared[0].wid != r
       case Invalidating(fetch, counter, _) =>
         h.state.DirToUnshared? && counter == |h.shared| > 0 && (fetch ==> |h.shared| == 1)
       case InvalidatingForward(counter, r, _, _) =>
         h.state.DirToDirty? && counter == (|h.shared| - if r in Wids(h.shared) then 1 else 0) > 0
       case ForwardingWrite(r, _) => h.state.DirToDirty? && |h.shared| == 1 && h.shared[0].wid != r
  }

  predicate WorkersKnown(h: Home, workers: set<Wid>) {
    && Wids(h.shared) <= workers
    && (h.pending.ForwardingRead? || h.pending.InvalidatingForward? || h.pending.ForwardingWrite? ==>
      h.pending.wid in workers)
  }

  /** Home memory is up to date whenever no dirty holder is listed. */
  predicate MemOk(h: Home, latest: Block) { !OwnerMode(h) ==> h.mem == latest }

  /** The owner has answered a forwarded request. */
  predicate Granted(h: Home, t: map<Wid, Traffic>) {
    (h.pending.ForwardingRead? || h.pending.ForwardingWrite?)
    && |h.shared| == 1 && h.shared[0].wid in t && t[h.shared[0].wid].replies != []
  }

  ghost predicate Good(h: Home, latest: Block, t: map<Wid, Traffic>) {
    && DirOk(h) && WorkersKnown(h, t.Keys) && MemOk(h, latest)
    && forall w | w in t :: NodeOk(ViewOf(h, Granted(h, t), latest, w), t[w])
  }

  /** Write-back data is the oldest message its sender has on the way. */
  predicate DataFirst(parked: seq<Parked>, w: Wid, up: seq<UpMsg>) {
    forall i | 0 <= i < |up| && up[i].WriteBackData? :: i == 0 && ParkedOf(parked, w) == []
  }

  ghost predicate Inv(s: State) {
    && s.ok
    && (forall p | p in s.home.parked :: IsRequest(p.msg) && p.wid in s.nodes)
    && (forall w | w in s.nodes :: DataFirst(s.home.parked, w, s.nodes[w].up))
    && Good(s.home, s.latest, TrafficMap(s))
  }
}
