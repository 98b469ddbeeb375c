/**
 A read or a write that spans several blocks: blocks at hand are copied at once, the
 others are requested, and a block in transition parks the whole request, which then
 starts over. The counter decides when the application is told. Between any two steps
 anybody else may change any of the blocks.
 */
module MultiBlock {
  import opened Basics
  import opened Blocks

  /** The part of block `i` that lies in the request, as copied while serving it. */
  function PieceStart(i: Addr, start: Addr): Addr { if i > start then i else start }

  function PieceLen(i: Addr, start: Addr, end: Addr): int {
    var nextb := i + BLOCK_SIZE;
    if nextb > end then end - PieceStart(i, start) else nextb - PieceStart(i, start)
  }

  predicate IsBlock(i: Addr, start: Addr, end: Addr) {
    i % BLOCK_SIZE == 0 && ToBlock(start) <= i < end
  }

  predicate InPiece(a: Addr, i: Addr, start: Addr, end: Addr) {
    PieceStart(i, start) <= a < PieceStart(i, start) + PieceLen(i, start, end)
  }

  /** The pieces tile the request: every byte is in the piece of exactly one block. */
  lemma Tiling(a: Addr, start: Addr, end: Addr)
    requires start <= a < end
    ensures ToBlock(a) <= a < ToBlock(a) + BLOCK_SIZE
    ensures IsBlock(ToBlock(a), start, end) && InPiece(a, ToBlock(a), start, end)
    ensures forall i: Addr | IsBlock(i, start, end) && InPiece(a, i, start, end) :: i == ToBlock(a)
  {
  }

  lemma PieceInside(i: Addr, start: Addr, end: Addr)
    requires IsBlock(i, start, end) && start < end
    ensures PieceLen(i, start, end) > 0 && PieceStart(i, start) + PieceLen(i, start, end) <= end
    ensures start <= PieceStart(i, start) && i <= PieceStart(i, start)
    ensures PieceStart(i, start) + PieceLen(i, start, end) <= i + BLOCK_SIZE
  {
  }

  /** `i` is where the loop over the blocks may stand. */
  predicate OnBlock(i: Addr, start: Addr) { i % BLOCK_SIZE == 0 && ToBlock(start) <= i }

  lemma FirstBlock(start: Addr, end: Addr)
    ensures OnBlock(ToBlock(start), start) && ToBlock(start) <= start
    ensures forall b: Addr | IsBlock(b, start, end) :: ToBlock(start) <= b < end
  {
  }

  lemma NextBlock(i: Addr, start: Addr, end: Addr)
    requires OnBlock(i, start)
    ensures OnBlock(i + BLOCK_SIZE, start) && (i < end ==> IsBlock(i, start, end))
    ensures forall b: Addr | IsBlock(b, start, end) && b < i + BLOCK_SIZE :: b <= i
  {
  }

  // ----- the lines over a run -----

  type Lines = map<Addr, Block>

  /** The request: a read into a buffer, or a write of the bytes of one. */
  datatype Job = Job(write: bool, start: Addr, end: Addr, text: seq<int>) {
    predicate Ok() { start < end && (write ==> |text| == end - start) }
  }

  /** What happens to the worker's copy of a block: somebody else changes it, or the
      request copies its piece, from the line or to it. */
  datatype Event = Changed(block: Addr, line: Block) | Copied(block: Addr)

  /** The request's bytes for block `b`. */
  function Piece(job: Job, b: Addr): (st: Store)
    requires job.Ok() && job.write && IsBlock(b, job.start, job.end)
    ensures st.off + |st.bytes| <= BLOCK_SIZE
  {
    var gs, len := PieceStart(b, job.start), PieceLen(b, job.start, job.end);
    PieceInside(b, job.start, job.end);
    Store(gs - b, job.text[gs - job.start..gs - job.start + len])
  }

  function Apply(job: Job, lines: Lines, e: Event): Lines
    requires job.Ok()
  {
    match e
    case Changed(b, line) => lines[b := line]
    case Copied(b) =>
      if job.write && b in lines && IsBlock(b, job.start, job.end) then lines[b := Patch(lines[b], Piece(job, b))]
      else lines
  }

  function Replay(job: Job, first: Lines, events: seq<Event>): Lines
    requires job.Ok()
  {
    if events == [] then first
    else Apply(job, Replay(job, first, events[..|events| - 1]), events[|events| - 1])
  }

  /** The line of block `b` as the request's last copy of its piece left it. */
  function LastCopy(job: Job, first: Lines, events: seq<Event>, b: Addr): Option<Block>
    requires job.Ok()
  {
    if events == [] then None
    else if events[|events| - 1] == Copied(b) && b in Replay(job, first, events)
      then Some(Replay(job, first, events)[b])
    else LastCopy(job, first, events[..|events| - 1], b)
  }

  lemma ReplayStep(job: Job, first: Lines, events: seq<Event>, e: Event)
    requires job.Ok()
    ensures Replay(job, first, events + [e]) == Apply(job, Replay(job, first, events), e)
    ensures forall b | e != Copied(b) :: LastCopy(job, first, events + [e], b) == LastCopy(job, first, events, b)
    ensures forall b | e == Copied(b) && b in Replay(job, first, events + [e]) ::
      LastCopy(job, first, events + [e], b) == Some(Replay(job, first, events + [e])[b])
  {
    hide Apply;
    assert (events + [e])[..|events|] == events;
  }

  /** What the others did, without the request. */
  function Others(events: seq<Event>): seq<Event> {
    if events == [] then []
    else if events[|events| - 1].Copied? then Others(events[..|events| - 1])
    else Others(events[..|events| - 1]) + [events[|events| - 1]]
  }

  /** A request changes no byte outside its range, whatever the others do meanwhile. */
  lemma {:induction false} OutsideUntouched(job: Job, first: Lines, events: seq<Event>, b: Addr, k: nat)
    requires job.Ok() && k < BLOCK_SIZE && !(job.start <= b + k < job.end)
    ensures b in Replay(job, first, events) <==> b in Replay(job, first, Others(events))
    ensures b in Replay(job, first, events) ==>
      Replay(job, first, events)[b][k] == Replay(job, first, Others(events))[b][k]
    decreases |events|
  {
    if events != [] {
      var most, e := events[..|events| - 1], events[|events| - 1];
      assert events == most + [e];
      OutsideUntouched(job, first, most, b, k);
      if e.Changed? { ReplayStep(job, first, Others(most), e); }
    }
  }

  /** A read changes nothing. */
  lemma {:induction false} ReadsChangeNothing(job: Job, first: Lines, events: seq<Event>)
    requires job.Ok() && !job.write
    ensures Replay(job, first, events) == Replay(job, first, Others(events))
    decreases |events|
  {
    if events != [] {
      var most, e := events[..|events| - 1], events[|events| - 1];
      assert events == most + [e];
      ReadsChangeNothing(job, first, most);
      if e.Changed? { ReplayStep(job, first, Others(most), e); }
    }
  }

  /** The piece of `b` in the line is the piece of `b` in the buffer. */
  ghost predicate SamePiece(start: Addr, end: Addr, line: Block, buf: seq<int>, b: Addr)
  {
    |buf| == end - start && forall a: Addr | start <= a < end && ToBlock(a) == b :: buf[a - start] == line[a - b]
  }

  lemma WrittenPiece(job: Job, line: Block, b: Addr)
    requires job.Ok() && job.write && IsBlock(b, job.start, job.end)
    ensures SamePiece(job.start, job.end, Patch(line, Piece(job, b)), job.text, b)
  {
    forall a: Addr | job.start <= a < job.end && ToBlock(a) == b
      ensures job.text[a - job.start] == Patch(line, Piece(job, b))[a - b]
    {
      Tiling(a, job.start, job.end);
    }
  }

  /** Writing a block again changes nothing exactly if the piece is still there. */
  lemma AgainHarmless(job: Job, lines: Lines, b: Addr)
    requires job.Ok() && job.write && IsBlock(b, job.start, job.end) && b in lines
    ensures Apply(job, lines, Copied(b)) == lines <==> SamePiece(job.start, job.end, lines[b], job.text, b)
  {
    WrittenPiece(job, lines[b], b);
    var line: Block, line': Block := lines[b], Patch(lines[b], Piece(job, b));
    assert lines[b := line'] == lines <==> line' == line by { assert lines[b := line'][b] == line'; }
    if SamePiece(job.start, job.end, line, job.text, b) {
      forall k | 0 <= k < BLOCK_SIZE ensures line'[k] == line[k] {
        if job.start <= b + k < job.end { assert ToBlock(b + k) == b; }
      }
    }
  }

  /** Nobody else changed the copy of `b` since the request wrote it. */
  predicate Alone(events: seq<Event>, b: Addr) {
    events != [] && var e := events[|events| - 1];
    if e.block == b then e.Copied? else Alone(events[..|events| - 1], b)
  }

  /** And it is still there as long as nobody else changed the line. */
  lemma {:induction false} StillThere(job: Job, first: Lines, events: seq<Event>, b: Addr)
    requires job.Ok() && job.write && IsBlock(b, job.start, job.end) && b in first && Alone(events, b)
    ensures b in Replay(job, first, events)
    ensures SamePiece(job.start, job.end, Replay(job, first, events)[b], job.text, b)
    decreases |events|
  {
    hide SamePiece, IsBlock;
    var most, e := events[..|events| - 1], events[|events| - 1];
    BlockStays(job, first, most, b);
    if e.block == b {
      WrittenPiece(job, Replay(job, first, most)[b], b);
    } else {
      StillThere(job, first, most, b);
    }
  }

  lemma {:induction false} BlockStays(job: Job, first: Lines, events: seq<Event>, b: Addr)
    requires job.Ok() && b in first
    ensures b in Replay(job, first, events)
    decreases |events|
  {
    if events != [] { BlockStays(job, first, events[..|events| - 1], b); }
  }

  // ----- the request -----

  /** What the request finds at a block: bytes it may use at once, a shared line that it
      wants to write, no line, or a line in transition. */
  datatype Found = Ready | Upgrade | Missing | InTransition

  /** The copies of one pass over the blocks from `i` to `stop`. */
  function Copies(found: map<Addr, Found>, i: Addr, stop: Addr): seq<Event>
    decreases stop - i
  {
    if i >= stop then []
    else
      var rest := Copies(found, i + BLOCK_SIZE, stop);
      if i in found && (found[i].Ready? || found[i].Upgrade?) then [Copied(i)] + rest else rest
  }

  /** The blocks before `stop` that the pass sends a sub-request for. */
  function Asked(found: map<Addr, Found>, stop: Addr): set<Addr> {
    set b | b in found && b < stop && (found[b].Missing? || found[b].Upgrade?)
  }

  lemma {:induction false} CopiesNext(found: map<Addr, Found>, i: Addr, j: Addr)
    requires i <= j && i % BLOCK_SIZE == j % BLOCK_SIZE
    ensures Copies(found, i, j + BLOCK_SIZE) ==
      Copies(found, i, j) + if j in found && (found[j].Ready? || found[j].Upgrade?) then [Copied(j)] else []
    decreases j - i
  {
    if i < j {
      assert i + BLOCK_SIZE <= j;
      CopiesNext(found, i + BLOCK_SIZE, j);
    }
  }

  lemma {:induction false} CopiesEnd(found: map<Addr, Found>, i: Addr, j: Addr, end: Addr)
    requires i <= j && i % BLOCK_SIZE == j % BLOCK_SIZE && end <= j < end + BLOCK_SIZE
    ensures Copies(found, i, j) == Copies(found, i, end)
    decreases j - i
  {
    if i < j {
      assert i + BLOCK_SIZE <= j;
      CopiesEnd(found, i + BLOCK_SIZE, j, end);
    }
  }

  class Request {
    const write: bool
    const start: Addr
    const end: Addr
    const buf: array<int>
    ghost const job: Job
    ghost const first: Lines
    var lines: Lines                // the worker's copy of every block
    var counter: int
    var notified: nat               // how often the application was told
    ghost var started: bool
    ghost var outstanding: set<Addr>
    ghost var parked: Option<Addr>
    ghost var events: seq<Event>

    constructor (write: bool, start: Addr, size: nat, buf: array<int>, lines: Lines)
      requires size > 0 && buf.Length == size
      requires forall b: Addr | IsBlock(b, start, start + size) :: b in lines
      ensures Valid() && !started && events == [] && outstanding == {} && parked.None?
      ensures this.buf == buf && this.write == write && this.start == start && end == start + size
      ensures this.lines == lines
      ensures job == Job(write, start, start + size, buf[..]) && first == lines
    {
      this.write, this.start, end, this.buf, this.lines := write, start, start + size, buf, lines;
      job, first := Job(write, start, start + size, buf[..]), lines;
      counter, notified, started, outstanding, parked, events := 0, 0, false, {}, None, [];
      new;
      assert job.text == buf[..];
    }

    ghost predicate Fixed()
      reads buf
    {
      && job.Ok() && job.write == write && job.start == start && job.end == end && buf.Length == end - start
      && (write ==> buf[..] == job.text)
    }

    /** The lines hold what the others put there and what the request wrote. */
    ghost predicate Lined()
      reads this`lines, this`events, buf
    {
      Fixed() && lines == Replay(job, first, events) && forall b: Addr | IsBlock(b, start, end) :: b in lines
    }

    /** The piece of the block is in its place, as it was when it was last copied. */
    ghost predicate Done(b: Addr)
      reads this`events, buf
    {
      Fixed() && var copy := LastCopy(job, first, events, b);
      copy.Some? && SamePiece(start, end, copy.value, buf[..], b)
    }

    /** The counter counts the sub-requests outstanding, and one more while parked. */
    ghost predicate Counted()
      reads this`counter, this`outstanding, this`parked
    {
      && counter == |outstanding| + (if parked.Some? then 1 else 0)
      && (forall b | b in outstanding :: IsBlock(b, start, end))
    }

    ghost predicate Placed()
      reads this`lines, this`events, buf
      ensures Placed() ==> start < end
    {
      && Lined()
      && (forall b | IsBlock(b, start, end) && LastCopy(job, first, events, b).Some? :: Done(b))
    }

    /** The application is told exactly when nothing is outstanding any more, and then once. */
    ghost predicate Valid()
      reads this, buf
    {
      && Counted() && Placed()
      && (!started ==> outstanding == {} && parked.None? && notified == 0)
      && (started && parked.None? ==> forall b: Addr | IsBlock(b, start, end) :: b in outstanding || Done(b))
      && notified == if started && parked.None? && outstanding == {} then 1 else 0
    }

    /** memcpy of the piece of `b` from its line. */
    method CopyOut(b: Addr)
      requires start < end && buf.Length == end - start && IsBlock(b, start, end) && b in lines
      modifies buf
      ensures forall j | 0 <= j < buf.Length ::
        buf[j] == if ToBlock(start + j) == b then lines[b][start + j - b] else old(buf[j])
    {
      PieceInside(b, start, end);
      var gs, len := PieceStart(b, start), PieceLen(b, start, end);
      var k := 0;
      while k < len
        invariant 0 <= k <= len
        invariant forall j | 0 <= j < buf.Length ::
          buf[j] == if gs <= start + j < gs + k then lines[b][start + j - b] else old(buf[j])
      {
        buf[gs - start + k] := lines[b][gs - b + k];
        k := k + 1;
      }
      forall a: Addr | start <= a < end ensures gs <= a < gs + len <==> ToBlock(a) == b {
        Tiling(a, start, end);
      }
    }

    /** memcpy of the piece of `b` to its line. */
    method CopyIn(b: Addr)
      requires Lined() && write && IsBlock(b, start, end)
      modifies this`lines
      ensures lines == old(lines)[b := Patch(old(lines)[b], Piece(job, b))]
    {
      hide Replay, IsBlock, PieceStart, PieceLen;
      PieceInside(b, start, end);
      var gs, len := PieceStart(b, start), PieceLen(b, start, end);
      var line, cs, ls := lines[b], gs - b, gs - start;
      assert Piece(job, b) == Store(cs, buf[ls..ls + len]);
      Splice(line, Piece(job, b));
      lines := lines[b := line[..cs] + buf[ls..ls + len] + line[cs + len..]];
    }

    /** The piece of one block, in the direction of the request. */
    method CopyPiece(b: Addr)
      requires Placed() && IsBlock(b, start, end)
      modifies this`lines, this`events, buf
      ensures Placed() && Done(b) && events == old(events) + [Copied(b)]
      ensures forall x | IsBlock(x, start, end) && old(Done(x)) :: Done(x)
    {
      hide IsBlock, ToBlock, Replay, LastCopy;
      ReplayStep(job, first, events, Copied(b));
      if write {
        WrittenPiece(job, lines[b], b);
        CopyIn(b);
      } else {
        CopyOut(b);
      }
      events := events + [Copied(b)];
    }

    /** Somebody else changes the worker's copy of a block: another request, data that
        arrives, an invalidation and a later fetch. */
    method Change(b: Addr, line: Block)
      requires Valid()
      modifies this`lines, this`events
      ensures Valid() && lines == old(lines)[b := line] && events == old(events) + [Changed(b, line)]
    {
      hide IsBlock, Replay, LastCopy, SamePiece;
      ReplayStep(job, first, events, Changed(b, line));
      lines := lines[b := line];
      events := events + [Changed(b, line)];
    }

    /** One block: copy its piece, request it, or park the whole request on it. */
    method ServeBlock(b: Addr, f: Found) returns (wait: bool)
      requires Counted() && Placed() && parked.None? && IsBlock(b, start, end)
      requires !f.InTransition? ==> b !in outstanding
      requires f.Upgrade? ==> write
      modifies this`counter, this`parked, this`outstanding, this`lines, this`events, buf
      ensures Counted() && Placed() && wait == f.InTransition? && parked == if wait then Some(b) else None
      ensures outstanding == old(outstanding) + if f.Missing? || f.Upgrade? then {b} else {}
      ensures events == old(events) + if f.Ready? || f.Upgrade? then [Copied(b)] else []
      ensures f.Ready? ==> Done(b)
      ensures forall x | IsBlock(x, start, end) && old(Done(x)) :: Done(x)
    {
      hide IsBlock, Done, Placed, Lined;
      if f.InTransition? {
        counter := counter + 1;
        parked := Some(b);
      } else if !f.Ready? {
        outstanding := outstanding + {b};
        counter := counter + 1;
      }
      if f.Ready? || f.Upgrade? { CopyPiece(b); }       // a shared line is written in advance
      wait := f.InTransition?;
    }

    /** All blocks in turn, up to one in transition. */
    method ServeBlocks(found: map<Addr, Found>) returns (wait: bool)
      requires Counted() && Placed() && parked.None?
      requires forall b: Addr :: b in found <==> IsBlock(b, start, end)
      requires forall b | b in found && found[b].Upgrade? :: write
      requires forall b | b in outstanding :: b in found && found[b].InTransition?
      modifies this`counter, this`parked, this`outstanding, this`lines, this`events, buf
      ensures Counted() && Placed() && wait == parked.Some?
      ensures wait ==> parked.value in found && found[parked.value].InTransition?
      ensures var stop := if wait then parked.value else end;
        && (forall b | b in found && b < stop :: !found[b].InTransition?)
        && outstanding == old(outstanding) + Asked(found, stop)
        && events == old(events) + Copies(found, ToBlock(start), stop)
      ensures !wait ==> forall b: Addr | IsBlock(b, start, end) :: b in outstanding || Done(b)
    {
      hide ToBlock, IsBlock, OnBlock, Counted, Placed, Done;
      FirstBlock(start, end);
      var i := ToBlock(start);
      while i < end
        invariant Counted() && Placed() && parked.None? && OnBlock(i, start)
        invariant ToBlock(start) <= i < end + BLOCK_SIZE && ToBlock(start) % BLOCK_SIZE == i % BLOCK_SIZE
        invariant forall b | b in found && b < i :: !found[b].InTransition? && (b in outstanding || Done(b))
        invariant forall b | b in outstanding && b >= i :: b in found && found[b].InTransition?
        invariant outstanding == old(outstanding) + Asked(found, i)
        invariant events == old(events) + Copies(found, ToBlock(start), i)
      {
        NextBlock(i, start, end);
        CopiesNext(found, ToBlock(start), i);
        wait := ServeBlock(i, found[i]);
        if wait { return; }
        i := i + BLOCK_SIZE;
      }
      CopiesEnd(found, ToBlock(start), i, end);
      wait := false;
    }

    /** Serve the request from its first block on; `found` says what it finds at each
        block, and `toServe` that the request had been parked. */
    method Serve(found: map<Addr, Found>, toServe: bool)
      requires Valid() && (if toServe then parked.Some? else !started)
      requires forall b: Addr :: b in found <==> IsBlock(b, start, end)
      requires forall b | b in found && found[b].Upgrade? :: write
      requires forall b | b in outstanding :: b in found && found[b].InTransition?
      modifies this, buf
      ensures Valid() && started
      ensures parked.Some? ==> parked.value in found && found[parked.value].InTransition?
      ensures var stop := if parked.Some? then parked.value else end;
        && (forall b | b in found && b < stop :: !found[b].InTransition?)
        && outstanding == old(outstanding) + Asked(found, stop)
        && events == old(events) + Copies(found, ToBlock(start), stop)
    {
      hide IsBlock, Done, Placed, ToBlock, Copies, Asked;
      if toServe { counter := counter - 1; }      // parking had added one
      started, parked := true, None;
      var wait := ServeBlocks(found);
      if counter == 0 { notified := notified + 1; }
    }

    /** The reply to the sub-request for block `b`, whose line now holds `line`: copy the
        piece, again if it was copied in advance, and count down. */
    method Reply(b: Addr, line: Block)
      requires Valid() && b in outstanding
      modifies this, buf
      ensures Valid() && started == old(started) && outstanding == old(outstanding) - {b} && parked == old(parked)
      ensures events == old(events) + [Changed(b, line), Copied(b)]
    {
      hide IsBlock, Done, Placed;
      Change(b, line);
      CopyPiece(b);
      outstanding := outstanding - {b};
      counter := counter - 1;
      if counter == 0 { notified := notified + 1; }
    }

    lemma Told()
      requires Valid()
      ensures lines == Replay(job, first, events) && (write ==> buf[..] == job.text)
      ensures started && parked.None? && outstanding == {} ==> notified == 1
    {
    }

    /** Once told, the application was told once; every block was copied, and the bytes of
        the buffer are those of the lines at the moment of their last copy: for a read the
        bytes found there, for a write the bytes left there. */
    lemma Complete()
      requires Valid() && notified > 0
      ensures notified == 1 && outstanding == {} && parked.None? && lines == Replay(job, first, events)
      ensures forall a: Addr | start <= a < end ::
        && LastCopy(job, first, events, ToBlock(a)).Some?
        && buf[a - start] == LastCopy(job, first, events, ToBlock(a)).value[a - ToBlock(a)]
    {
      hide Replay, LastCopy, Counted;
      forall a: Addr | start <= a < end
        ensures LastCopy(job, first, events, ToBlock(a)).Some?
        ensures buf[a - start] == LastCopy(job, first, events, ToBlock(a)).value[a - ToBlock(a)]
      {
        Tiling(a, start, end);
        assert Done(ToBlock(a));
        assert buf[..][a - start] == buf[a - start];
      }
    }
  }

  lemma TwoPasses()
    ensures Copies(map[0 := Ready, BLOCK_SIZE := InTransition], 0, BLOCK_SIZE) == [Copied(0)]
    ensures Copies(map[0 := Ready, BLOCK_SIZE := Ready], 0, 2 * BLOCK_SIZE) == [Copied(0), Copied(BLOCK_SIZE)]
    ensures forall b: Addr :: IsBlock(b, 0, 2 * BLOCK_SIZE) <==> b == 0 || b == BLOCK_SIZE
  {
    var found := map[0 := Ready, BLOCK_SIZE := Ready];
    assert Copies(found, BLOCK_SIZE, 2 * BLOCK_SIZE) ==
      [Copied(BLOCK_SIZE)] + Copies(found, 2 * BLOCK_SIZE, 2 * BLOCK_SIZE);
  }

  lemma Rewritten(job: Job, first: Lines, theirs: Block)
    requires job.write && job.start == 0 && job.end == 2 * BLOCK_SIZE == |job.text| && 0 in first
    ensures var lines := Replay(job, first, [Copied(0), Changed(0, theirs), Copied(0), Copied(BLOCK_SIZE)]);
      0 in lines && lines[0] == job.text[..BLOCK_SIZE]
  {
    hide Replay;
    var e0, e1, e2, e3 := Copied(0), Changed(0, theirs), Copied(0), Copied(BLOCK_SIZE);
    ReplayStep(job, first, [e0], e1);
    ReplayStep(job, first, [e0, e1], e2);
    ReplayStep(job, first, [e0, e1, e2], e3);
    assert [e0] + [e1] == [e0, e1] && [e0, e1] + [e2] == [e0, e1, e2] && [e0, e1, e2] + [e3] == [e0, e1, e2, e3];
    assert Patch(theirs, Piece(job, 0)) == job.text[..BLOCK_SIZE];
  }

  /** Starting over writes a block again that was written before the request was parked:
      what somebody else wrote there meanwhile is lost. */
  method WrittenAgain(buf: array<int>, lines: Lines, theirs: Block) returns (r: Request)
    requires buf.Length == 2 * BLOCK_SIZE && 0 in lines && BLOCK_SIZE in lines
    modifies buf
    ensures r.Valid() && r.write && r.notified == 1 && r.buf == buf && buf[..] == old(buf[..])
    ensures r.events == [Copied(0), Changed(0, theirs), Copied(0), Copied(BLOCK_SIZE)]
    ensures 0 in r.lines && r.lines[0] == buf[..BLOCK_SIZE]
  {
    hide Replay, Copies, IsBlock, Request.Valid;
    TwoPasses();
    r := new Request(true, 0, 2 * BLOCK_SIZE, buf, lines);
    var busy, free := map[0 := Ready, BLOCK_SIZE := InTransition], map[0 := Ready, BLOCK_SIZE := Ready];
    r.Serve(busy, false);
    assert BLOCK_SIZE in busy && r.parked == Some(BLOCK_SIZE);
    r.Change(0, theirs);
    r.Serve(free, true);
    r.Told();
    Rewritten(r.job, lines, theirs);
  }
}
