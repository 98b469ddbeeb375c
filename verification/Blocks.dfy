/**
 The bytes of one memory block and the effect of storing into part of it.
 A store never leaves its block: Cache::ReadWrite and ProcessLocalWrite split
 a request at block borders before any byte is copied.
 */
module Blocks {
  import opened Basics

  /** The bytes of a block. */
  type Block = s: seq<int> | |s| == BLOCK_SIZE witness seq(BLOCK_SIZE, _ => 0)

  /** A request's bytes that fall into this block: `bytes` go to offset `off`. */
  datatype Store = Store(off: nat, bytes: seq<int>)

  /** The memcpy of a store into a block. */
  function Patch(b: Block, s: Store): (r: Block)
    ensures |r| == |b|
    ensures forall i :: 0 <= i < |b| && s.off <= i < s.off + |s.bytes| ==> r[i] == s.bytes[i - s.off]
    ensures forall i :: 0 <= i < |b| && !(s.off <= i < s.off + |s.bytes|) ==> r[i] == b[i]
  {
    seq(|b|, i requires 0 <= i < |b| =>
      if s.off <= i < s.off + |s.bytes| then s.bytes[i - s.off] else b[i])
  }

  /** Copying the same bytes a second time changes nothing. */
  lemma PatchTwice(b: Block, s: Store)
    ensures Patch(Patch(b, s), s) == Patch(b, s)
  {
    var once := Patch(b, s);
    var twice := Patch(once, s);
    assert forall i :: 0 <= i < |b| ==> twice[i] == once[i];
  }

  /** A store within the block cuts it in three. */
  lemma Splice(b: Block, s: Store)
    requires s.off + |s.bytes| <= BLOCK_SIZE
    ensures Patch(b, s) == b[..s.off] + s.bytes + b[s.off + |s.bytes|..]
  {
  }

  /** The copy as it runs on a buffer. */
  method CopyStore(buffer: array<int>, s: Store)
    requires buffer.Length == BLOCK_SIZE
    modifies buffer
    ensures buffer[..] == Patch(old(buffer[..]), s)
  {
    var i := s.off;
    while i < s.off + |s.bytes| && i < buffer.Length
      invariant s.off <= i <= s.off + |s.bytes|
      invariant forall k | 0 <= k < buffer.Length ::
        buffer[k] == if s.off <= k < i then s.bytes[k - s.off] else old(buffer[k])
    {
      buffer[i] := s.bytes[i - s.off];
      i := i + 1;
    }
  }

  /** A whole block arrives in a buffer. */
  method CopyBlock(buffer: array<int>, b: Block)
    requires buffer.Length == BLOCK_SIZE
    modifies buffer
    ensures buffer[..] == b
  {
    var i := 0;
    while i < buffer.Length
      invariant 0 <= i <= buffer.Length && buffer[..i] == b[..i]
    {
      buffer[i] := b[i];
      i := i + 1;
    }
    assert buffer[..] == buffer[..i] && b[..i] == b;
  }
}
