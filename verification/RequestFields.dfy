/**
 Nothing a handler looks at is lost on the wire: field by field, which operations are
 handled by looking at it, and that a received request has it as it was sent.
 */
module RequestFields {
  import opened Codec

  predicate Forwards(op: nat) {
    op in {READ_FORWARD, WRITE_FORWARD, INVALIDATE_FORWARD, WRITE_PERMISSION_ONLY_FORWARD}
  }

  predicate Writes(op: nat) { op in {WRITE, WRITE_PERMISSION_ONLY} }

  /** Requests and demands about a block. */
  predicate AboutBlock(op: nat) {
    Forwards(op) || Writes(op) || op in {READ, FETCH_AND_SHARED, FETCH_AND_INVALIDATE, INVALIDATE}
  }

  predicate Evicts(op: nat) { op in {ACTIVE_INVALIDATE, WRITE_BACK} }

  predicate CarriesText(op: nat) { op in {FETCH_MEM_STATS_REPLY, BROADCAST_MEM_STATS} }

  predicate CarriesValue(op: nat) { op in {PUT, GET_REPLY} }

  /** The operations that have a handler. */
  predicate Handled(op: nat) {
    || AboutBlock(op) || Evicts(op) || CarriesText(op) || CarriesValue(op)
    || op in {READ_REPLY, WRITE_REPLY, MALLOC, MALLOC_REPLY, FREE, GET, UPDATE_MEM_STATS, FETCH_MEM_STATS}
  }

  /** The handler of the operation looks at the field, or hands it on. */
  predicate Reads(op: nat, f: Field) {
    match f
    case Id =>          // to find the pending work, here or at the sender
      AboutBlock(op) || op in {READ_REPLY, WRITE_REPLY, WRITE_BACK, MALLOC, MALLOC_REPLY, GET, GET_REPLY}
    case Pid => Forwards(op)
    case Pwid => Forwards(op)
    case Wid => Handled(op) && !CarriesText(op)
    case Addr =>        // also the key and the free memory
      AboutBlock(op) || Evicts(op) || op in {MALLOC_REPLY, FREE, GET, PUT, UPDATE_MEM_STATS}
    case Size => AboutBlock(op) || CarriesText(op) || CarriesValue(op) || op in {MALLOC, UPDATE_MEM_STATS}
    case Ptr => AboutBlock(op) || Evicts(op)
    case Flag => AboutBlock(op) || op == MALLOC
    case Status => op in {READ_REPLY, WRITE_REPLY, MALLOC_REPLY}
    case Counter => op == WRITE_REPLY
    case Gid => Writes(op)
    case Arg => Writes(op)
  }

  lemma ReadsTravel(op: nat, f: Field)
    requires Reads(op, f)
    ensures SerLayout(op).Layout? && f in SerLayout(op).fields
  {
  }

  lemma DataTravels(op: nat)
    requires CarriesText(op) || CarriesValue(op)
    ensures SerLayout(op).Layout? && !SerLayout(op).tail.NoTail?
  {
  }

  /** Every request with a handler can be sent, if its numbers fit their fields, its size
      is that of its value, and its text has no zero byte. */
  lemma HandledEncodable(wr: WorkRequest)
    requires Handled(wr.op) && forall f :: Get(wr, f) < Limit(Width(f))
    requires CarriesValue(wr.op) ==> Get(wr, Size) == |wr.data|
    requires CarriesText(wr.op) ==> 0 !in wr.data
    ensures Encodable(wr)
  {
    hide Limit, Get, Width;
  }

  /** A received request has every field its handler looks at, and its data, as sent. */
  lemma Arrives(wr: WorkRequest, rest: Bytes)
    requires Encodable(wr) && (rest == [] || rest[0] == 0)
    ensures var p := Deser(Ser(wr) + rest);
      && p.Parsed? && p.wr.op == wr.op
      && (forall f | Reads(wr.op, f) :: f in p.wr.fields && p.wr.fields[f] == Get(wr, f))
      && (CarriesText(wr.op) || CarriesValue(wr.op) ==> p.wr.data == wr.data)
  {
    hide Encodable, Ser, Deser, SerLayout, Reads, Get;
    RoundTrip(wr, rest);
    forall f | Reads(wr.op, f) ensures f in Received(wr).fields && Received(wr).fields[f] == Get(wr, f) {
      ReadsTravel(wr.op, f);
    }
    if CarriesText(wr.op) || CarriesValue(wr.op) { DataTravels(wr.op); }
  }

  /** Requests that their handler could tell apart have different encodings. */
  lemma EncodingsDiffer(a: WorkRequest, b: WorkRequest)
    requires Encodable(a) && Encodable(b) && a.op == b.op
    requires (exists f :: Reads(a.op, f) && Get(a, f) != Get(b, f))
      || ((CarriesText(a.op) || CarriesValue(a.op)) && a.data != b.data)
    ensures Ser(a) != Ser(b)
  {
    hide Encodable, Ser, Deser, Reads, Get;
    Arrives(a, []);
    Arrives(b, []);
  }

  /** The answer to a GET has no status on the wire, although its handler looks at one. */
  lemma GetReplyStatus(wr: WorkRequest)
    requires Encodable(wr) && wr.op == GET_REPLY
    ensures var p := Deser(Ser(wr)); p.Parsed? && Status !in p.wr.fields
  {
    hide Encodable, Ser, Deser, Get;
    RoundTrip(wr, []);
    assert Ser(wr) + [] == Ser(wr);
  }
}
