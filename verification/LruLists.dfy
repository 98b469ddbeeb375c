/**
 The doubly linked LRU lists of the cache: lines point to their neighbours, and every
 list has a head and a tail.
 */
module LruLists {
  import opened Basics
  import opened CacheStates

  datatype CacheLine = CacheLine(state: CacheState, pos: int, prev: Option<Addr>, next: Option<Addr>)

  type Lines = map<Addr, CacheLine>

  type Lists = seq<seq<Addr>>

  predicate At(lists: Lists, i: int, k: int) {
    0 <= i < |lists| && 0 <= k < |lists[i]|
  }

  predicate InLists(lists: Lists, a: Addr) {
    exists i :: 0 <= i < |lists| && a in lists[i]
  }

  /** Position `k` of list `i` is linked to its neighbours. */
  predicate NodeOk(lines: Lines, l: seq<Addr>, i: int, k: int)
    requires 0 <= k < |l|
  {
    && l[k] in lines && lines[l[k]].pos == i
    && lines[l[k]].prev == (if k == 0 then None else Some(l[k-1]))
    && lines[l[k]].next == (if k == |l| - 1 then None else Some(l[k+1]))
  }

  function First(l: seq<Addr>): Option<Addr> { if l == [] then None else Some(l[0]) }

  function Last(l: seq<Addr>): Option<Addr> { if l == [] then None else Some(l[|l| - 1]) }

  /** No line is linked twice. */
  ghost predicate Once(lists: Lists) {
    forall i, k, j, m | At(lists, i, k) && At(lists, j, m) && lists[i][k] == lists[j][m] :: i == j && k == m
  }

  ghost predicate Linked(lines: Lines, lists: Lists) {
    forall i, k | At(lists, i, k) :: NodeOk(lines, lists[i], i, k)
  }

  /** A line on no list has no neighbours. */
  ghost predicate Loose(lines: Lines, lists: Lists) {
    forall a | a in lines && !InLists(lists, a) :: lines[a].prev.None? && lines[a].next.None?
  }

  ghost predicate Ends(heads: seq<Option<Addr>>, tails: seq<Option<Addr>>, lists: Lists) {
    |heads| == |tails| == |lists| &&
    forall i | 0 <= i < |lists| :: heads[i] == First(lists[i]) && tails[i] == Last(lists[i])
  }

  ghost predicate Chains(lines: Lines, heads: seq<Option<Addr>>, tails: seq<Option<Addr>>, lists: Lists) {
    Once(lists) && Linked(lines, lists) && Loose(lines, lists) && Ends(heads, tails, lists)
  }

  /** The lines after one has been linked in front of a head. */
  function LinkLines(lines: Lines, a: Addr, i: int, head: Option<Addr>): Lines
    requires a in lines && (head.Some? ==> head.value in lines)
  {
    var l1 := lines[a := lines[a].(pos := i, prev := None, next := head)];
    if head.Some? then l1[head.value := l1[head.value].(prev := Some(a))] else l1
  }

  /** The lines after one has been taken out from between its neighbours. */
  function UnlinkLines(lines: Lines, a: Addr): Lines
    requires a in lines && (lines[a].next.Some? ==> lines[a].next.value in lines)
    requires lines[a].prev.Some? ==> lines[a].prev.value in lines
  {
    var l := lines[a];
    var l1 := if l.next.Some? then lines[l.next.value := lines[l.next.value].(prev := l.prev)] else lines;
    var l2 := if l.prev.Some? then l1[l.prev.value := l1[l.prev.value].(next := l.next)] else l1;
    l2[a := l2[a].(prev := None, next := None)]
  }

  lemma InListsAt(lists: Lists, i: nat, k: nat)
    requires At(lists, i, k)
    ensures InLists(lists, lists[i][k])
  {
    assert lists[i][k] in lists[i];
  }

  lemma PositionOf(lists: Lists, a: Addr) returns (i: nat, k: nat)
    requires InLists(lists, a)
    ensures At(lists, i, k) && lists[i][k] == a
  {
    i :| 0 <= i < |lists| && a in lists[i];
    k :| 0 <= k < |lists[i]| && lists[i][k] == a;
  }

  // ----- linking -----

  lemma LinkNode(lines: Lines, lists: Lists, a: Addr, i: nat, j: nat, k: nat)
    requires Once(lists) && Linked(lines, lists) && a in lines && !InLists(lists, a) && i < |lists|
    requires lists[i] != [] ==> lists[i][0] in lines
    requires At(lists[i := [a] + lists[i]], j, k)
    ensures NodeOk(LinkLines(lines, a, i, First(lists[i])), lists[i := [a] + lists[i]][j], j, k)
  {
    var lists' := lists[i := [a] + lists[i]];
    if j == i {
      if k > 0 {
        assert At(lists, i, k - 1) && NodeOk(lines, lists[i], i, k - 1);
        InListsAt(lists, i, k - 1);
        assert At(lists, i, 0);
      }
    } else {
      assert At(lists, j, k) && NodeOk(lines, lists[j], j, k);
      InListsAt(lists, j, k);
      if lists[i] != [] { assert At(lists, i, 0); }
    }
  }

  lemma LinkInLists(lists: Lists, a: Addr, i: nat, b: Addr)
    requires i < |lists|
    ensures InLists(lists[i := [a] + lists[i]], b) <==> b == a || InLists(lists, b)
  {
    var lists' := lists[i := [a] + lists[i]];
    if b == a { assert a in lists'[i]; }
    if InLists(lists, b) {
      var j :| 0 <= j < |lists| && b in lists[j];
      assert b in lists'[j];
    }
    if InLists(lists', b) && b != a {
      var j :| 0 <= j < |lists'| && b in lists'[j];
      assert b in lists[j];
    }
  }

  lemma LinkOnce(lists: Lists, a: Addr, i: nat)
    requires Once(lists) && !InLists(lists, a) && i < |lists|
    ensures Once(lists[i := [a] + lists[i]])
  {
    var lists' := lists[i := [a] + lists[i]];
    forall j, k, m, n | At(lists', j, k) && At(lists', m, n) && lists'[j][k] == lists'[m][n] ensures j == m && k == n {
      var k', n' := if j == i then k - 1 else k, if m == i then n - 1 else n;
      if k' >= 0 { assert At(lists, j, k'); InListsAt(lists, j, k'); }
      if n' >= 0 { assert At(lists, m, n'); InListsAt(lists, m, n'); }
    }
  }

  /** Linking in front keeps all lists well-formed. */
  lemma LinkKeeps(lines: Lines, heads: seq<Option<Addr>>, tails: seq<Option<Addr>>, lists: Lists, a: Addr, i: nat)
    requires Chains(lines, heads, tails, lists) && a in lines && !InLists(lists, a) && i < |lists|
    ensures heads[i].Some? ==> heads[i].value in lines
    ensures Chains(LinkLines(lines, a, i, heads[i]), heads[i := Some(a)],
                   tails[i := if tails[i].None? then Some(a) else tails[i]], lists[i := [a] + lists[i]])
  {
    if lists[i] != [] { assert At(lists, i, 0) && NodeOk(lines, lists[i], i, 0); }
    var lists', lines' := lists[i := [a] + lists[i]], LinkLines(lines, a, i, heads[i]);
    LinkOnce(lists, a, i);
    forall j, k | At(lists', j, k) ensures NodeOk(lines', lists'[j], j, k) { LinkNode(lines, lists, a, i, j, k); }
    forall b | b in lines' && !InLists(lists', b) ensures lines'[b].prev.None? && lines'[b].next.None? {
      LinkInLists(lists, a, i, b);
      if lists[i] != [] { InListsAt(lists, i, 0); }
    }
  }

  // ----- unlinking -----

  function Cut(l: seq<Addr>, k: nat): seq<Addr>
    requires k < |l|
  {
    l[..k] + l[k+1..]
  }

  lemma UnlinkNode(lines: Lines, lists: Lists, i: nat, k: nat, j: nat, m: nat)
    requires Once(lists) && Linked(lines, lists) && At(lists, i, k) && At(lists[i := Cut(lists[i], k)], j, m)
    ensures NodeOk(lines, lists[i], i, k)
    ensures lines[lists[i][k]].next.Some? ==> lines[lists[i][k]].next.value in lines
    ensures lines[lists[i][k]].prev.Some? ==> lines[lists[i][k]].prev.value in lines
    ensures NodeOk(UnlinkLines(lines, lists[i][k]), lists[i := Cut(lists[i], k)][j], j, m)
  {
    assert NodeOk(lines, lists[i], i, k);
    if k > 0 { assert At(lists, i, k - 1) && NodeOk(lines, lists[i], i, k - 1); }
    if k < |lists[i]| - 1 { assert At(lists, i, k + 1) && NodeOk(lines, lists[i], i, k + 1); }
    var m' := if j == i && m >= k then m + 1 else m;
    assert At(lists, j, m') && NodeOk(lines, lists[j], j, m') && lists[i := Cut(lists[i], k)][j][m] == lists[j][m'];
  }

  lemma UnlinkInLists(lists: Lists, i: nat, k: nat, b: Addr)
    requires Once(lists) && At(lists, i, k)
    ensures InLists(lists[i := Cut(lists[i], k)], b) <==> b != lists[i][k] && InLists(lists, b)
  {
    var lists' := lists[i := Cut(lists[i], k)];
    if InLists(lists', b) {
      var j, m := PositionOf(lists', b);
      var m' := if j == i && m >= k then m + 1 else m;
      assert At(lists, j, m') && lists[j][m'] == b;
      InListsAt(lists, j, m');
    }
    if b != lists[i][k] && InLists(lists, b) {
      var j, m := PositionOf(lists, b);
      var m' := if j == i && m > k then m - 1 else m;
      assert At(lists', j, m') && lists'[j][m'] == b;
      InListsAt(lists', j, m');
    }
  }

  lemma UnlinkOnce(lists: Lists, i: nat, k: nat)
    requires Once(lists) && At(lists, i, k)
    ensures Once(lists[i := Cut(lists[i], k)])
  {
    var lists' := lists[i := Cut(lists[i], k)];
    forall j, m, j', n | At(lists', j, m) && At(lists', j', n) && lists'[j][m] == lists'[j'][n]
      ensures j == j' && m == n {
      var m', n' := if j == i && m >= k then m + 1 else m, if j' == i && n >= k then n + 1 else n;
      assert At(lists, j, m') && At(lists, j', n') && lists[j][m'] == lists'[j][m] && lists[j'][n'] == lists'[j'][n];
    }
  }

  lemma UnlinkedLoose(lines: Lines, lists: Lists, i: nat, k: nat, b: Addr)
    requires Once(lists) && Linked(lines, lists) && Loose(lines, lists) && At(lists, i, k) && b in lines
    requires lines[lists[i][k]].next.Some? ==> lines[lists[i][k]].next.value in lines
    requires lists[i][k] in lines && (lines[lists[i][k]].prev.Some? ==> lines[lists[i][k]].prev.value in lines)
    requires !InLists(lists[i := Cut(lists[i], k)], b)
    ensures b in UnlinkLines(lines, lists[i][k])
    ensures var l := UnlinkLines(lines, lists[i][k])[b]; l.prev.None? && l.next.None?
  {
    UnlinkInLists(lists, i, k, b);
    assert NodeOk(lines, lists[i], i, k);
    if b != lists[i][k] {
      if k > 0 { InListsAt(lists, i, k - 1); }
      if k < |lists[i]| - 1 { InListsAt(lists, i, k + 1); }
    }
  }

  /** The head or tail that the unlinked line was. */
  function NewEnd(end: Option<Addr>, a: Addr, other: Option<Addr>): Option<Addr> {
    if end == Some(a) then other else end
  }

  /** Unlinking a linked line keeps all lists well-formed. */
  lemma UnlinkKeeps(lines: Lines, heads: seq<Option<Addr>>, tails: seq<Option<Addr>>, lists: Lists, i: nat, k: nat)
    requires Chains(lines, heads, tails, lists) && At(lists, i, k)
    ensures NodeOk(lines, lists[i], i, k)
    ensures lines[lists[i][k]].next.Some? ==> lines[lists[i][k]].next.value in lines
    ensures lines[lists[i][k]].prev.Some? ==> lines[lists[i][k]].prev.value in lines
    ensures var a := lists[i][k];
      Chains(UnlinkLines(lines, a), heads[i := NewEnd(heads[i], a, lines[a].next)],
             tails[i := NewEnd(tails[i], a, lines[a].prev)], lists[i := Cut(lists[i], k)])
  {
    hide Loose;
    assert NodeOk(lines, lists[i], i, k);
    if k > 0 { assert At(lists, i, k - 1) && NodeOk(lines, lists[i], i, k - 1); }
    if k < |lists[i]| - 1 { assert At(lists, i, k + 1) && NodeOk(lines, lists[i], i, k + 1); }
    var a := lists[i][k];
    var lines', lists' := UnlinkLines(lines, a), lists[i := Cut(lists[i], k)];
    UnlinkOnce(lists, i, k);
    forall j, m | At(lists', j, m) ensures NodeOk(lines', lists'[j], j, m) { UnlinkNode(lines, lists, i, k, j, m); }
    forall b | b in lines' && !InLists(lists', b) ensures lines'[b].prev.None? && lines'[b].next.None? {
      UnlinkedLoose(lines, lists, i, k, b);
    }
    CutEnds(lists, i, k);
    LooseIf(lines', lists');
  }

  lemma LooseIf(lines: Lines, lists: Lists)
    requires forall b | b in lines && !InLists(lists, b) :: lines[b].prev.None? && lines[b].next.None?
    ensures Loose(lines, lists)
  {
  }

  lemma CutEnds(lists: Lists, i: nat, k: nat)
    requires Once(lists) && At(lists, i, k)
    ensures var l, a := lists[i], lists[i][k];
      && First(Cut(l, k)) == NewEnd(First(l), a, if k == |l| - 1 then None else Some(l[k+1]))
      && Last(Cut(l, k)) == NewEnd(Last(l), a, if k == 0 then None else Some(l[k-1]))
  {
    var l := lists[i];
    assert At(lists, i, 0) && At(lists, i, |l| - 1);
  }

  /** Unlinking a line that is on no list changes nothing, whatever list is named. */
  lemma UnlinkTwice(lines: Lines, heads: seq<Option<Addr>>, tails: seq<Option<Addr>>, lists: Lists, a: Addr, i: nat)
    requires Chains(lines, heads, tails, lists) && a in lines && !InLists(lists, a) && i < |lists|
    ensures lines[a].prev.None? && lines[a].next.None? && UnlinkLines(lines, a) == lines
    ensures heads[i] != Some(a) && tails[i] != Some(a)
  {
    if lists[i] != [] {
      InListsAt(lists, i, 0);
      InListsAt(lists, i, |lists[i]| - 1);
    }
  }

  // ----- the order of the lists -----

  /** The lists with `a` at the front of list `i`. */
  function Pushed(lists: Lists, a: Addr, i: nat): Lists
    requires i < |lists|
  {
    lists[i := [a] + lists[i]]
  }

  function Remove(l: seq<Addr>, a: Addr): seq<Addr> {
    if l == [] then [] else if l[0] == a then Remove(l[1..], a) else [l[0]] + Remove(l[1..], a)
  }

  /** The lists without `a`, in the same order. */
  function Removed(lists: Lists, a: Addr): Lists {
    seq(|lists|, i requires 0 <= i < |lists| => Remove(lists[i], a))
  }

  lemma {:induction false} RemoveAbsent(l: seq<Addr>, a: Addr)
    requires a !in l
    ensures Remove(l, a) == l
  {
    if l != [] { RemoveAbsent(l[1..], a); }
  }

  lemma {:induction false} RemoveAt(l: seq<Addr>, k: nat)
    requires k < |l| && forall i, j | 0 <= i < j < |l| :: l[i] != l[j]
    ensures Remove(l, l[k]) == Cut(l, k)
  {
    if k == 0 {
      RemoveAbsent(l[1..], l[0]);
      assert Cut(l, 0) == l[1..];
    } else {
      RemoveAt(l[1..], k - 1);
      assert Cut(l, k) == [l[0]] + Cut(l[1..], k - 1);
    }
  }

  lemma RemovedAbsent(lists: Lists, a: Addr)
    requires !InLists(lists, a)
    ensures Removed(lists, a) == lists
  {
    forall i | 0 <= i < |lists| ensures Remove(lists[i], a) == lists[i] { RemoveAbsent(lists[i], a); }
  }

  lemma CutIsRemoved(lists: Lists, i: nat, k: nat)
    requires Once(lists) && At(lists, i, k)
    ensures lists[i := Cut(lists[i], k)] == Removed(lists, lists[i][k])
  {
    var a := lists[i][k];
    forall j | 0 <= j < |lists| ensures Remove(lists[j], a) == lists[i := Cut(lists[i], k)][j] {
      if j == i {
        assert forall m, n | 0 <= m < n < |lists[i]| ::
          At(lists, i, m) && At(lists, i, n) && lists[i][m] != lists[i][n];
        RemoveAt(lists[i], k);
      } else {
        forall m | 0 <= m < |lists[j]| ensures lists[j][m] != a { assert At(lists, j, m); }
        RemoveAbsent(lists[j], a);
      }
    }
  }
}
