/**
 The wire format of work requests, the merging of several requests into one message,
 and the loop that splits a received message again.
 */
module Codec {

  type Byte = b: int | 0 <= b < 256

  type Bytes = seq<Byte>

  // ----- integers, least significant byte first -----

  function Limit(width: nat): nat { if width == 0 then 1 else 256 * Limit(width - 1) }

  function Encode(v: nat, width: nat): (s: Bytes)
    ensures |s| == width
  {
    if width == 0 then [] else [v % 256] + Encode(v / 256, width - 1)
  }

  function Decode(s: Bytes): nat {
    if s == [] then 0 else s[0] + 256 * Decode(s[1..])
  }

  lemma {:induction false} IntegerRoundTrip(v: nat, width: nat)
    requires v < Limit(width)
    ensures Decode(Encode(v, width)) == v
  {
    if width > 0 {
      IntegerRoundTrip(v / 256, width - 1);
      assert Encode(v, width)[1..] == Encode(v / 256, width - 1);
    }
  }

  // ----- work requests -----

  /** The integer fields that travel. A signed field stands for its two's complement
      word; `Addr` is also the key and the free memory, as they share storage. */
  datatype Field = Id | Pid | Pwid | Wid | Addr | Size | Status | Flag | Ptr | Counter | Gid | Arg

  function Width(f: Field): nat {
    match f
    case Addr => 8 case Size => 8 case Ptr => 8 case Arg => 8
    case _ => 4
  }

  /** A request: its operation code, its fields, and the bytes its pointer refers to. */
  datatype WorkRequest = WorkRequest(op: nat, fields: map<Field, nat>, data: Bytes)

  const MALLOC := 1
  const READ := 2
  const FETCH_AND_SHARED := 3
  const READ_FORWARD := 4
  const WRITE := 5
  const WRITE_PERMISSION_ONLY := 6
  const FETCH_AND_INVALIDATE := 7
  const INVALIDATE := 8
  const INVALIDATE_FORWARD := 9
  const WRITE_FORWARD := 10
  const WRITE_PERMISSION_ONLY_FORWARD := 11
  const UPDATE_MEM_STATS := 13
  const FETCH_MEM_STATS := 14
  const BROADCAST_MEM_STATS := 15
  const FREE := 24
  const ACTIVE_INVALIDATE := 25
  const WRITE_BACK := 26
  const PUT := 28
  const GET := 29
  const MALLOC_REPLY := 65537
  const FETCH_MEM_STATS_REPLY := 65538
  const READ_REPLY := 65539
  const WRITE_REPLY := 65540
  const GET_REPLY := 65543

  /** Bytes after the fields: none, as many as the size field says, or a text up to
      the next zero byte. */
  datatype Tail = NoTail | Counted | Text

  datatype Layout = Layout(fields: seq<Field>, tail: Tail) | Unrecognized

  /** What Ser appends after the operation code. */
  function SerLayout(op: nat): Layout {
    if op == UPDATE_MEM_STATS then Layout([Wid, Size, Addr], NoTail)
    else if op == FETCH_MEM_STATS_REPLY || op == BROADCAST_MEM_STATS then Layout([Size], Text)
    else if op == GET then Layout([Id, Wid, Addr], NoTail)
    else if op == PUT || op == GET_REPLY then Layout([Id, Wid, Addr, Size], Counted)
    else if op == FETCH_MEM_STATS then Layout([Wid], NoTail)
    else if op == MALLOC then Layout([Id, Wid, Size, Flag], NoTail)
    else if op == MALLOC_REPLY then Layout([Id, Wid, Addr, Status], NoTail)
    else if op == FREE then Layout([Id, Wid, Addr], NoTail)
    else if op == WRITE || op == WRITE_PERMISSION_ONLY then Layout([Id, Wid, Addr, Size, Ptr, Flag, Gid, Arg], NoTail)
    else if op == READ || op == FETCH_AND_SHARED || op == FETCH_AND_INVALIDATE || op == INVALIDATE then
      Layout([Id, Wid, Addr, Size, Ptr, Flag], NoTail)
    else if op == READ_FORWARD || op == WRITE_FORWARD || op == INVALIDATE_FORWARD
      || op == WRITE_PERMISSION_ONLY_FORWARD then
      Layout([Id, Wid, Addr, Size, Ptr, Flag, Pid, Pwid], NoTail)
    else if op == READ_REPLY then Layout([Id, Wid, Status], NoTail)
    else if op == WRITE_REPLY then Layout([Id, Wid, Status, Counter], NoTail)
    else if op == ACTIVE_INVALIDATE || op == WRITE_BACK then Layout([Id, Wid, Addr, Ptr], NoTail)
    else Unrecognized
  }

  /** What Deser reads after the operation code. */
  function DeserLayout(op: nat): Layout {
    if op == UPDATE_MEM_STATS then Layout([Wid, Size, Addr], NoTail)
    else if op == FETCH_MEM_STATS_REPLY || op == BROADCAST_MEM_STATS then Layout([Size], Text)
    else if op == GET || op == FREE then Layout([Id, Wid, Addr], NoTail)
    else if op == PUT || op == GET_REPLY then Layout([Id, Wid, Addr, Size], Counted)
    else if op == FETCH_MEM_STATS then Layout([Wid], NoTail)
    else if op == MALLOC then Layout([Id, Wid, Size, Flag], NoTail)
    else if op == MALLOC_REPLY then Layout([Id, Wid, Addr, Status], NoTail)
    else if op == WRITE then Layout([Id, Wid, Addr, Size, Ptr, Flag, Gid, Arg], NoTail)
    else if op == WRITE_PERMISSION_ONLY then Layout([Id, Wid, Addr, Size, Ptr, Flag, Gid, Arg], NoTail)
    else if op == READ || op == FETCH_AND_SHARED || op == FETCH_AND_INVALIDATE || op == INVALIDATE then
      Layout([Id, Wid, Addr, Size, Ptr, Flag], NoTail)
    else if op == READ_FORWARD || op == WRITE_FORWARD || op == INVALIDATE_FORWARD
      || op == WRITE_PERMISSION_ONLY_FORWARD then
      Layout([Id, Wid, Addr, Size, Ptr, Flag, Pid, Pwid], NoTail)
    else if op == READ_REPLY then Layout([Id, Wid, Status], NoTail)
    else if op == WRITE_REPLY then Layout([Id, Wid, Status, Counter], NoTail)
    else if op == ACTIVE_INVALIDATE || op == WRITE_BACK then Layout([Id, Wid, Addr, Ptr], NoTail)
    else Unrecognized
  }

  function Get(wr: WorkRequest, f: Field): nat { if f in wr.fields then wr.fields[f] else 0 }

  /** appendInteger over a list of fields. */
  function AppendFields(fs: seq<Field>, wr: WorkRequest): Bytes {
    if fs == [] then [] else Encode(Get(wr, fs[0]), Width(fs[0])) + AppendFields(fs[1..], wr)
  }

  function FieldsWidth(fs: seq<Field>): nat {
    if fs == [] then 0 else Width(fs[0]) + FieldsWidth(fs[1..])
  }

  function Ser(wr: WorkRequest): Bytes {
    var l := SerLayout(wr.op);
    if l.Unrecognized? then []
      else Encode(wr.op, 4) + AppendFields(l.fields, wr) + if l.tail.NoTail? then [] else wr.data
  }

  /** readInteger over a list of fields; the buffer must reach far enough. */
  function ReadFields(fs: seq<Field>, s: Bytes): map<Field, nat>
    requires FieldsWidth(fs) <= |s|
  {
    if fs == [] then map[]
    else ReadFields(fs[1..], s[Width(fs[0])..])[fs[0] := Decode(s[..Width(fs[0])])]
  }

  /** strlen: up to the first zero byte, or the end of the buffer. */
  function StrLen(s: Bytes): (n: nat)
    ensures n <= |s|
  {
    if s == [] || s[0] == 0 then 0 else 1 + StrLen(s[1..])
  }

  datatype Parsed = Parsed(wr: WorkRequest, len: nat) | BadMessage

  /** Deser: the request at the front of a buffer and the bytes it takes. A buffer
      that ends too early is a bad message. */
  function Deser(s: Bytes): Parsed {
    if |s| < 4 then BadMessage
    else
      var op := Decode(s[..4]);
      var l := DeserLayout(op);
      if l.Unrecognized? then Parsed(WorkRequest(op, map[], []), 4)
      else if |s| < 4 + FieldsWidth(l.fields) then BadMessage
      else
        var fields := ReadFields(l.fields, s[4..]);
        var rest := s[4 + FieldsWidth(l.fields)..];
        var n :=
          match l.tail
          case NoTail => 0
          case Text => StrLen(rest)
          case Counted => (if Size in fields then fields[Size] else 0);
        if n > |rest| then BadMessage
        else Parsed(WorkRequest(op, fields, rest[..n]), 4 + FieldsWidth(l.fields) + n)
  }

  /** A request that Ser can put into a message. */
  predicate Encodable(wr: WorkRequest) {
    var l := SerLayout(wr.op);
    && l.Layout?
    && (forall f :: Get(wr, f) < Limit(Width(f)))
    && (l.tail.Counted? ==> Get(wr, Size) == |wr.data|)
    && (l.tail.Text? ==> 0 !in wr.data)
  }

  /** What the receiver learns: the fields of the layout, and the data. */
  function Received(wr: WorkRequest): WorkRequest {
    var l := SerLayout(wr.op);
    if l.Unrecognized? then WorkRequest(wr.op, map[], [])
    else WorkRequest(wr.op, map f | f in l.fields :: Get(wr, f), if l.tail.NoTail? then [] else wr.data)
  }

  lemma {:induction false} AppendWidth(fs: seq<Field>, wr: WorkRequest)
    ensures |AppendFields(fs, wr)| == FieldsWidth(fs)
  {
    if fs != [] { AppendWidth(fs[1..], wr); }
  }

  lemma {:induction false} FieldsRoundTrip(fs: seq<Field>, wr: WorkRequest, rest: Bytes)
    requires forall f :: Get(wr, f) < Limit(Width(f))
    ensures FieldsWidth(fs) <= |AppendFields(fs, wr) + rest|
    ensures ReadFields(fs, AppendFields(fs, wr) + rest) == map f | f in fs :: Get(wr, f)
  {
    AppendWidth(fs, wr);
    if fs != [] {
      var f := fs[0];
      var s, front, tail := AppendFields(fs, wr) + rest, Encode(Get(wr, f), Width(f)), AppendFields(fs[1..], wr);
      assert s == front + (tail + rest);
      assert s[..Width(f)] == front && s[Width(f)..] == tail + rest;
      IntegerRoundTrip(Get(wr, f), Width(f));
      FieldsRoundTrip(fs[1..], wr, rest);
      assert forall g :: g in fs <==> g == f || g in fs[1..];
    }
  }

  lemma {:induction false} StrLenOf(s: Bytes, rest: Bytes)
    requires 0 !in s && (rest == [] || rest[0] == 0)
    ensures StrLen(s + rest) == |s|
  {
    if s != [] {
      assert (s + rest)[1..] == s[1..] + rest;
      StrLenOf(s[1..], rest);
    } else {
      assert s + rest == rest;
    }
  }

  /** Both sides use the same layouts. */
  lemma LayoutsAgree(op: nat)
    ensures SerLayout(op) == DeserLayout(op)
    ensures SerLayout(op).Layout? && SerLayout(op).tail.Counted? ==> Size in SerLayout(op).fields
    ensures SerLayout(op).Layout? ==> op < Limit(4)
  {
    assert Limit(4) == 256 * 256 * 256 * 256;
  }

  lemma SerParts(wr: WorkRequest, rest: Bytes)
    requires SerLayout(wr.op).Layout?
    ensures var l, s := SerLayout(wr.op), Ser(wr) + rest;
      var data := if l.tail.NoTail? then [] else wr.data;
      && |s| == 4 + FieldsWidth(l.fields) + |data| + |rest| && s[..4] == Encode(wr.op, 4)
      && s[4..] == AppendFields(l.fields, wr) + (data + rest) && s[4 + FieldsWidth(l.fields)..] == data + rest
  {
    hide SerLayout, AppendFields, FieldsWidth, Encode;
    EncodeWidth(wr.op, 4);
    AppendWidth(SerLayout(wr.op).fields, wr);
  }

  lemma EncodeWidth(v: nat, width: nat)
    ensures |Encode(v, width)| == width
  {
  }

  /** Deser undoes Ser and consumes exactly the bytes Ser wrote, whatever follows the
      message, as long as a zero byte or the end of the buffer comes next. */
  lemma RoundTrip(wr: WorkRequest, rest: Bytes)
    requires Encodable(wr) && (rest == [] || rest[0] == 0)
    ensures Deser(Ser(wr) + rest) == Parsed(Received(wr), |Ser(wr)|)
  {
    hide SerLayout, DeserLayout, AppendFields, FieldsWidth, ReadFields, Encode, Decode, Ser, StrLen, Limit, Get;
    var l, s := SerLayout(wr.op), Ser(wr) + rest;
    var data := if l.tail.NoTail? then [] else wr.data;
    SerParts(wr, rest);
    SerParts(wr, []);
    LayoutsAgree(wr.op);
    IntegerRoundTrip(wr.op, 4);
    FieldsRoundTrip(l.fields, wr, data + rest);
    if l.tail.Text? { StrLenOf(data, rest); }
    assert Ser(wr) + [] == Ser(wr);
    assert (data + rest)[..|data|] == data;
  }

  // ----- merged messages -----

  /** Several encodings in one message, separated by zero bytes. */
  function Join(parts: seq<Bytes>): Bytes {
    if parts == [] then [] else if |parts| == 1 then parts[0] else parts[0] + [0] + Join(parts[1..])
  }

  lemma JoinNone()
    ensures Join([]) == []
  {
  }

  lemma {:induction false} JoinAppend(parts: seq<Bytes>, p: Bytes)
    requires parts != []
    ensures Join(parts + [p]) == Join(parts) + [0] + p
  {
    assert (parts + [p])[1..] == parts[1..] + [p];
    if |parts| == 1 {
      assert parts[1..] + [p] == [p];
    } else {
      JoinAppend(parts[1..], p);
      assert parts[0] + [0] + (Join(parts[1..]) + [0] + p) == (parts[0] + [0] + Join(parts[1..])) + [0] + p;
    }
  }

  function SerAll(wrs: seq<WorkRequest>): seq<Bytes> {
    if wrs == [] then [] else [Ser(wrs[0])] + SerAll(wrs[1..])
  }

  function ReceivedAll(wrs: seq<WorkRequest>): seq<WorkRequest> {
    if wrs == [] then [] else [Received(wrs[0])] + ReceivedAll(wrs[1..])
  }

  lemma {:induction false} SerAllParts(wrs: seq<WorkRequest>)
    ensures |SerAll(wrs)| == |wrs|
    ensures wrs != [] ==> SerAll(wrs)[0] == Ser(wrs[0]) && SerAll(wrs)[1..] == SerAll(wrs[1..])
  {
    hide Ser;
    if wrs != [] {
      SerAllParts(wrs[1..]);
      assert ([Ser(wrs[0])] + SerAll(wrs[1..]))[1..] == SerAll(wrs[1..]);
    }
  }

  lemma JoinParts(parts: seq<Bytes>)
    ensures |parts| == 1 ==> Join(parts) == parts[0]
    ensures |parts| > 1 ==> Join(parts) == parts[0] + [0] + Join(parts[1..])
  {
  }

  lemma JoinFront(wrs: seq<WorkRequest>)
    requires wrs != []
    ensures Join(SerAll(wrs)) + [0] == Ser(wrs[0]) + ([0] + if |wrs| == 1 then [] else Join(SerAll(wrs[1..])) + [0])
  {
    hide Ser, SerAll, Join;
    SerAllParts(wrs);
    JoinParts(SerAll(wrs));
    if |wrs| > 1 {
      var a, b := Ser(wrs[0]), Join(SerAll(wrs[1..]));
      assert (a + [0] + b) + [0] == a + ([0] + (b + [0]));
    } else {
      assert [0] + [] == [0 as Byte];
    }
  }

  lemma NotEmpty(wr: WorkRequest)
    requires Encodable(wr)
    ensures |Ser(wr)| >= 4
  {
    hide SerLayout, Limit, Get;
    SerParts(wr, []);
    assert Ser(wr) + [] == Ser(wr);
  }

  lemma {:induction false} JoinSplit(wrs: seq<WorkRequest>)
    requires wrs != [] && forall wr | wr in wrs :: Encodable(wr)
    ensures Deser(Join(SerAll(wrs)) + [0]) == Parsed(Received(wrs[0]), |Ser(wrs[0])|) && |Ser(wrs[0])| >= 4
    ensures |Ser(wrs[0])| <= |Join(SerAll(wrs))|
    ensures |wrs| == 1 <==> |Ser(wrs[0])| == |Join(SerAll(wrs))|
    ensures |wrs| > 1 ==>
      Join(SerAll(wrs))[|Ser(wrs[0])|] == 0 && Join(SerAll(wrs))[|Ser(wrs[0])| + 1..] == Join(SerAll(wrs[1..]))
  {
    hide Encodable, Ser, Deser, Received, SerAll, Join;
    JoinFront(wrs);
    assert wrs[0] in wrs;
    NotEmpty(wrs[0]);
    RoundTrip(wrs[0], [0] + if |wrs| == 1 then [] else Join(SerAll(wrs[1..])) + [0]);
    SerAllParts(wrs);
    JoinParts(SerAll(wrs));
  }

  /** The receive loop: split a message of `byteLen` bytes and hand on its requests. Only
      the byte behind the message is written, be it in the next slot. */
  method ReceiveLoop(data: array<Byte>, byteLen: nat, ghost sent: seq<WorkRequest>) returns (got: seq<WorkRequest>)
    requires byteLen < data.Length && (forall wr | wr in sent :: Encodable(wr))
    requires data[..byteLen] == Join(SerAll(sent))
    modifies data
    ensures got == ReceivedAll(sent)
    ensures forall i | 0 <= i < data.Length && i != byteLen :: data[i] == old(data[i])
  {
    hide Encodable, Ser, Deser, Received, Join;
    assert sent == [] ==> Join(SerAll(sent)) == [] by { JoinNone(); }
    data[byteLen] := 0;
    got := [];
    var consumed := 0;
    ghost var k := 0;
    assert data[0..byteLen] == data[..byteLen] && sent[0..] == sent && ReceivedAll(sent) == [] + ReceivedAll(sent);
    while consumed < byteLen
      invariant 0 <= k <= |sent| && data[byteLen] == 0
      invariant k < |sent| ==> consumed <= byteLen && data[consumed..byteLen] == Join(SerAll(sent[k..]))
      invariant k == |sent| ==> consumed >= byteLen
      invariant got + ReceivedAll(sent[k..]) == ReceivedAll(sent)
      invariant forall i | 0 <= i < data.Length && i != byteLen :: data[i] == old(data[i])
      decreases byteLen - consumed
    {
      ghost var rest := sent[k..];
      assert rest[1..] == sent[k+1..];
      JoinSplit(rest);
      assert data[consumed..byteLen + 1] == Join(SerAll(rest)) + [0];
      var parsed := Deser(data[consumed..byteLen + 1]);
      got := got + [parsed.wr];
      consumed := consumed + parsed.len;
      if consumed < byteLen {
        assert data[consumed] == 0;
      }
      consumed := consumed + 1;
      k := k + 1;
    }
    if k < |sent| { JoinSplit(sent[k..]); }
  }
}
