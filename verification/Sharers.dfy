/**
 The sharer list of a directory entry: one global address per holder, that is
 the holder's worker id and the address of its cache line.
 */
module Sharers {
  import opened Basics

  type Wid = nat
  type Ptr = nat

  datatype Sharer = Sharer(wid: Wid, ptr: Ptr)

  /** The line address the list holds for worker `w`. */
  function Entry(list: seq<Sharer>, w: Wid): Option<Ptr> {
    if list == [] then None
    else if list[0].wid == w then Some(list[0].ptr)
    else Entry(list[1..], w)
  }

  /** The workers named by the list. */
  function Wids(list: seq<Sharer>): set<Wid> {
    if list == [] then {} else {list[0].wid} + Wids(list[1..])
  }

  /** No worker is named twice. */
  predicate Distinct(list: seq<Sharer>) {
    list == [] || (list[0].wid !in Wids(list[1..]) && Distinct(list[1..]))
  }

  /** Erase the first address of worker `w` (Directory::Remove). */
  function RemoveWid(list: seq<Sharer>, w: Wid): seq<Sharer> {
    if list == [] then []
    else if list[0].wid == w then list[1..]
    else [list[0]] + RemoveWid(list[1..], w)
  }

  /** Erase every occurrence of one address (list::remove in Directory::Clear). */
  function RemoveAddr(list: seq<Sharer>, e: Sharer): seq<Sharer> {
    if list == [] then []
    else if list[0] == e then RemoveAddr(list[1..], e)
    else [list[0]] + RemoveAddr(list[1..], e)
  }

  lemma SingleEntry(list: seq<Sharer>, w: Wid)
    requires |list| == 1
    ensures Entry(list, w) == if list[0].wid == w then Some(list[0].ptr) else None
    ensures Wids(list) == {list[0].wid} && Distinct(list)
  {
    assert list[1..] == [];
  }

  lemma {:induction false} EntryWids(list: seq<Sharer>, w: Wid)
    ensures Entry(list, w).Some? <==> w in Wids(list)
  {
    if list != [] { EntryWids(list[1..], w); }
  }

  lemma {:induction false} AppendEntry(list: seq<Sharer>, e: Sharer, w: Wid)
    ensures Entry(list + [e], w) ==
      if Entry(list, w).Some? then Entry(list, w) else if e.wid == w then Some(e.ptr) else None
    ensures Wids(list + [e]) == Wids(list) + {e.wid}
    ensures Distinct(list) && e.wid !in Wids(list) ==> Distinct(list + [e])
  {
    if list != [] {
      assert (list + [e])[1..] == list[1..] + [e];
      AppendEntry(list[1..], e, w);
    }
  }

  lemma {:induction false} RemoveWidEntry(list: seq<Sharer>, w: Wid, u: Wid)
    requires Distinct(list)
    ensures Distinct(RemoveWid(list, w)) && Wids(RemoveWid(list, w)) == Wids(list) - {w}
    ensures Entry(RemoveWid(list, w), u) == if u == w then None else Entry(list, u)
    ensures |RemoveWid(list, w)| == |list| - if w in Wids(list) then 1 else 0
  {
    if list != [] {
      RemoveWidEntry(list[1..], w, u);
      EntryWids(list[1..], u);
      if list[0].wid != w {
        assert RemoveWid(list, w)[1..] == RemoveWid(list[1..], w);
      }
    }
  }

  lemma {:induction false} RemoveAddrEntry(list: seq<Sharer>, e: Sharer, u: Wid)
    requires Distinct(list)
    ensures Distinct(RemoveAddr(list, e))
    ensures Wids(RemoveAddr(list, e)) == if Entry(list, e.wid) == Some(e.ptr) then Wids(list) - {e.wid} else Wids(list)
    ensures Entry(RemoveAddr(list, e), u) ==
      if u == e.wid && Entry(list, u) == Some(e.ptr) then None else Entry(list, u)
  {
    if list != [] {
      RemoveAddrEntry(list[1..], e, u);
      EntryWids(list[1..], e.wid);
      EntryWids(list[1..], u);
      if list[0] != e {
        assert RemoveAddr(list, e)[1..] == RemoveAddr(list[1..], e);
      }
    }
  }
}
