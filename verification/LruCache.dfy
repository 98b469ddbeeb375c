/**
 The cache's bookkeeping: which lines are linked for eviction, how many bytes are in
 use, how many lines are on their way out, and how much may be evicted.
 */
module LruCache {
  import opened Basics
  import opened CacheStates
  import opened LruLists

  const LRU_NUM: nat := 10
  const MAX_EVICT: nat := 128

  ghost function Leaving(lines: Lines): set<Addr> { set a | a in lines && lines[a].state.ToInvalid? }

  /** Lines with a usable copy are linked; lines still waiting for one are not. */
  ghost predicate States(lines: Lines, lists: Lists, except: Option<Addr>) {
    forall a | a in lines && Some(a) != except ::
      && (lines[a].state.Shared? || lines[a].state.Dirty? ==> InLists(lists, a))
      && (lines[a].state.Invalid? || lines[a].state.ToShared? || lines[a].state.ToDirty? ==> !InLists(lists, a))
  }

  predicate Positions(lines: Lines) {
    forall a | a in lines :: -1 <= lines[a].pos < LRU_NUM
  }

  /** What a round of eviction finds: a list, and which locks it gets. */
  datatype Pick = Pick(list: nat, gotList: bool, gotLine: bool)

  class Cache {
    const maxCacheMem: nat
    var lines: Lines
    var heads: seq<Option<Addr>>
    var tails: seq<Option<Addr>>
    var usedBytes: int
    var toEvicted: int
    ghost var lists: Lists

    /** Everything but the link of one line. */
    ghost predicate ValidExcept(except: Option<Addr>)
      reads this
    {
      && Chains(lines, heads, tails, lists) && |lists| == LRU_NUM && Positions(lines)
      && States(lines, lists, except)
      && usedBytes == BLOCK_SIZE * |lines| && toEvicted == |Leaving(lines)|
    }

    ghost predicate Valid()
      reads this
    {
      ValidExcept(None)
    }

    /** The bytes of lines that stay. */
    function Live(): int
      reads this
    {
      usedBytes - toEvicted * BLOCK_SIZE
    }

    constructor (maxCacheMem: nat)
      ensures Valid() && this.maxCacheMem == maxCacheMem && lines == map[]
    {
      this.maxCacheMem := maxCacheMem;
      lines, usedBytes, toEvicted := map[], 0, 0;
      heads, tails, lists := seq(LRU_NUM, _ => None), seq(LRU_NUM, _ => None), seq(LRU_NUM, _ => []);
    }

    /** LinkLRU: to the front of one of the lists. */
    method LinkLRU(a: Addr, i: nat)
      requires Chains(lines, heads, tails, lists) && |lists| == LRU_NUM && Positions(lines)
      requires a in lines && !InLists(lists, a) && i < LRU_NUM
      modifies this`lines, this`heads, this`tails, this`lists
      ensures Chains(lines, heads, tails, lists) && |lists| == LRU_NUM && Positions(lines)
      ensures SameStates(lines, old(lines)) && forall b :: InLists(lists, b) <==> b == a || InLists(old(lists), b)
      ensures lists == Pushed(old(lists), a, i)
    {
      hide Chains, InLists;
      LinkKeeps(lines, heads, tails, lists, a, i);
      Sizes(lines, heads, tails, lists);
      forall b ensures InLists(lists[i := [a] + lists[i]], b) <==> b == a || InLists(lists, b)
        { LinkInLists(lists, a, i, b); }
      lines := LinkLines(lines, a, i, heads[i]);
      heads := heads[i := Some(a)];
      tails := tails[i := if tails[i].None? then Some(a) else tails[i]];
      lists := lists[i := [a] + lists[i]];
    }

    /** UnLinkLRU(cline, i), for a line of that list or a line of none. */
    method UnLinkFrom(a: Addr, i: nat)
      requires Chains(lines, heads, tails, lists) && |lists| == LRU_NUM && Positions(lines)
      requires a in lines && i < LRU_NUM && (InLists(lists, a) ==> lines[a].pos == i)
      modifies this`lines, this`heads, this`tails, this`lists
      ensures Chains(lines, heads, tails, lists) && |lists| == LRU_NUM && Positions(lines)
      ensures SameStates(lines, old(lines)) && forall b :: InLists(lists, b) <==> b != a && InLists(old(lists), b)
      ensures !old(InLists(lists, a)) ==> lines == old(lines) && heads == old(heads) && tails == old(tails)
      ensures lists == Removed(old(lists), a)
    {
      hide Chains, InLists, Removed;
      Sizes(lines, heads, tails, lists);
      if InLists(lists, a) {
        ghost var j, k := PositionOf(lists, a);
        ChainsOnce(lines, heads, tails, lists);
        CutIsRemoved(lists, j, k);
        UnlinkKeeps(lines, heads, tails, lists, j, k);
        forall b ensures InLists(lists[j := Cut(lists[j], k)], b) <==> b != a && InLists(lists, b) {
          CutInLists(lines, heads, tails, lists, j, k, b);
        }
        lists := lists[j := Cut(lists[j], k)];
      } else {
        UnlinkTwice(lines, heads, tails, lists, a, i);
        RemovedAbsent(lists, a);
      }
      var next, prev := lines[a].next, lines[a].prev;
      if heads[i] == Some(a) { heads := heads[i := next]; }
      if tails[i] == Some(a) { tails := tails[i := prev]; }
      assert heads == old(heads)[i := NewEnd(old(heads)[i], a, next)]
        && tails == old(tails)[i := NewEnd(old(tails)[i], a, prev)];
      lines := UnlinkLines(lines, a);
    }

    /** UnLinkLRU(cline): from the list it remembers, if any. */
    method UnLinkLRU(a: Addr)
      requires Chains(lines, heads, tails, lists) && |lists| == LRU_NUM && Positions(lines) && a in lines
      modifies this`lines, this`heads, this`tails, this`lists
      ensures Chains(lines, heads, tails, lists) && |lists| == LRU_NUM && Positions(lines)
      ensures SameStates(lines, old(lines)) && forall b :: InLists(lists, b) <==> b != a && InLists(old(lists), b)
      ensures lists == Removed(old(lists), a)
    {
      hide Chains, InLists, Removed;
      LinkedPos(lines, heads, tails, lists, a);
      if lines[a].pos != -1 {
        UnLinkFrom(a, lines[a].pos);
        Forget(a);
      } else {
        RemovedAbsent(lists, a);
      }
    }

    /** A line on no list forgets which one it was on. */
    method Forget(a: Addr)
      requires Chains(lines, heads, tails, lists) && Positions(lines) && a in lines && !InLists(lists, a)
      modifies this`lines
      ensures Chains(lines, heads, tails, lists) && Positions(lines) && SameStates(lines, old(lines))
    {
      hide Once, Ends;
      lines := lines[a := lines[a].(pos := -1)];
      forall i, k | At(lists, i, k) ensures NodeOk(lines, lists[i], i, k) {
        InListsAt(lists, i, k);
        assert NodeOk(old(lines), lists[i], i, k);
      }
    }

    /** A new line for a missed block. */
    method SetCLine(a: Addr)
      requires Valid() && a !in lines
      modifies this
      ensures Valid() && lines == old(lines)[a := CacheLine(Invalid, -1, None, None)]
      ensures Live() == old(Live()) + BLOCK_SIZE
    {
      hide Once, Ends, InLists;
      NotLinked(lines, heads, tails, lists, a);
      lines := lines[a := CacheLine(Invalid, -1, None, None)];
      usedBytes := usedBytes + BLOCK_SIZE;
      forall i, k | At(lists, i, k) ensures NodeOk(lines, lists[i], i, k) {
        assert NodeOk(old(lines), lists[i], i, k);
      }
      assert Leaving(lines) == Leaving(old(lines));
    }

    /** Change the state of a line that is, or is not, on a list as its new state asks. */
    method SetState(a: Addr, state: CacheState)
      requires ValidExcept(Some(a)) && a in lines && !lines[a].state.ToInvalid? && !state.ToInvalid?
      requires state.Shared? || state.Dirty? ==> InLists(lists, a)
      requires state.ToShared? || state.ToDirty? || state.Invalid? ==> !InLists(lists, a)
      modifies this`lines
      ensures Valid() && lines == old(lines)[a := old(lines[a]).(state := state)] && Live() == old(Live())
    {
      hide Once, Ends, InLists;
      lines := lines[a := lines[a].(state := state)];
      StateChange(old(lines), a, state, lists);
      assert Leaving(lines) == Leaving(old(lines));
    }

    method ToToShared(a: Addr)
      requires Valid() && a in lines && lines[a].state.Invalid?
      modifies this`lines
      ensures Valid() && lines == old(lines)[a := old(lines[a]).(state := CacheState.ToShared)]
    {
      hide Chains, InLists;
      SetState(a, CacheState.ToShared);
    }

    /** A miss, or an upgrade of a shared line, which is unlinked first. */
    method ToToDirty(a: Addr)
      requires Valid() && a in lines && (lines[a].state.Invalid? || lines[a].state.Shared?)
      modifies this
      ensures Valid() && a in lines && lines[a].state.ToDirty? && OthersSame(lines, old(lines), a)
      ensures lists == if old(lines[a]).state.Shared? then Removed(old(lists), a) else old(lists)
    {
      hide Chains, InLists, Removed;
      if lines[a].state.Shared? {
        Unhook(a);
      }
      SetState(a, CacheState.ToDirty);
    }

    /** UnLinkLRU inside an operation on the line. */
    method Unhook(a: Addr)
      requires ValidExcept(Some(a)) && a in lines
      modifies this`lines, this`heads, this`tails, this`lists
      ensures ValidExcept(Some(a)) && !InLists(lists, a) && SameStates(lines, old(lines))
      ensures lists == Removed(old(lists), a)
    {
      hide Chains, InLists, Removed;
      UnLinkLRU(a);
      assert Leaving(lines) == Leaving(old(lines));
      SameSize(lines, old(lines));
    }

    /** UnLinkLRU(cline, i) inside an operation on the line. */
    method UnhookFrom(a: Addr, i: nat)
      requires ValidExcept(Some(a)) && a in lines && i < LRU_NUM && (InLists(lists, a) ==> lines[a].pos == i)
      modifies this`lines, this`heads, this`tails, this`lists
      ensures ValidExcept(Some(a)) && !InLists(lists, a) && SameStates(lines, old(lines))
      ensures lists == Removed(old(lists), a)
    {
      hide Chains, InLists, Removed;
      UnLinkFrom(a, i);
      assert Leaving(lines) == Leaving(old(lines));
      SameSize(lines, old(lines));
    }

    /** LinkLRU inside an operation on the line. */
    method Hook(a: Addr, i: nat)
      requires ValidExcept(Some(a)) && a in lines && !InLists(lists, a) && i < LRU_NUM
      modifies this`lines, this`heads, this`tails, this`lists
      ensures ValidExcept(Some(a)) && InLists(lists, a) && SameStates(lines, old(lines))
      ensures |old(lists)| == LRU_NUM && lists == Pushed(old(lists), a, i)
    {
      hide Chains, InLists;
      LinkLRU(a, i);
      assert Leaving(lines) == Leaving(old(lines));
      SameSize(lines, old(lines));
    }

    /** The copy has arrived, or a dirty line is shared. */
    method ToShared(a: Addr, i: nat)
      requires Valid() && a in lines && (lines[a].state.ToShared? || lines[a].state.Dirty?) && i < LRU_NUM
      modifies this
      ensures Valid() && a in lines && lines[a].state.Shared? && OthersSame(lines, old(lines), a)
      ensures |old(lists)| == LRU_NUM
      ensures lists == if old(lines[a]).state.ToShared? then Pushed(old(lists), a, i) else old(lists)
    {
      hide Chains, InLists;
      if lines[a].state.ToShared? {
        Hook(a, i);
      }
      SetState(a, Shared);
    }

    method ToDirty(a: Addr, i: nat)
      requires Valid() && a in lines && lines[a].state.ToDirty? && i < LRU_NUM
      modifies this
      ensures Valid() && a in lines && lines[a].state.Dirty? && OthersSame(lines, old(lines), a)
      ensures |old(lists)| == LRU_NUM && lists == Pushed(old(lists), a, i)
    {
      hide Chains, InLists;
      Hook(a, i);
      SetState(a, Dirty);
    }

    /** A hit moves the line to the front of some list. */
    method Touch(a: Addr, i: nat)
      requires Valid() && a in lines && (lines[a].state.Shared? || lines[a].state.Dirty?) && i < LRU_NUM
      modifies this
      ensures Valid() && SameStates(lines, old(lines))
      ensures |old(lists)| == LRU_NUM && lists == Pushed(Removed(old(lists), a), a, i)
    {
      hide Chains, InLists;
      Unhook(a);
      Hook(a, i);
    }

    /** A line is given up: it waits for its last message to be sent. */
    method ToToInvalid(a: Addr)
      requires ValidExcept(Some(a)) && a in lines && (lines[a].state.Shared? || lines[a].state.Dirty?)
      modifies this`lines, this`toEvicted
      ensures Valid() && lines == old(lines)[a := old(lines[a]).(state := CacheState.ToInvalid)]
      ensures Live() == old(Live()) - BLOCK_SIZE
    {
      hide Once, Ends, InLists;
      lines := lines[a := lines[a].(state := CacheState.ToInvalid)];
      toEvicted := toEvicted + 1;
      StateChange(old(lines), a, CacheState.ToInvalid, lists);
      assert Leaving(lines) == Leaving(old(lines)) + {a};
    }

    /** The line is gone. */
    method ToInvalid(a: Addr)
      requires ValidExcept(Some(a)) && a in lines
      modifies this
      ensures Valid() && lines.Keys == old(lines).Keys - {a} && OthersSame(lines, old(lines), a)
      ensures Live() == old(Live()) - if old(lines[a]).state.ToInvalid? then 0 else BLOCK_SIZE
      ensures lists == Removed(old(lists), a)
    {
      hide Chains, InLists, Removed;
      Unhook(a);
      Erase(a);
    }

    method Erase(a: Addr)
      requires ValidExcept(Some(a)) && a in lines && !InLists(lists, a)
      modifies this`lines, this`usedBytes, this`toEvicted
      ensures Valid() && lines == old(lines) - {a}
      ensures Live() == old(Live()) - if old(lines[a]).state.ToInvalid? then 0 else BLOCK_SIZE
    {
      hide Chains, InLists;
      usedBytes := usedBytes - BLOCK_SIZE;
      if lines[a].state.ToInvalid? { toEvicted := toEvicted - 1; }
      EraseLoose(lines, heads, tails, lists, a);
      EraseCounts(lines, a);
      lines := lines - {a};
    }

    /** Evict a line that has just been unlinked: a clean one goes at once, a dirty one
        when its block has been written back. */
    method EvictLine(a: Addr)
      requires ValidExcept(Some(a)) && a in lines && (lines[a].state.Shared? || lines[a].state.Dirty?)
      modifies this
      ensures Valid() && Live() == old(Live()) - BLOCK_SIZE && OthersSame(lines, old(lines), a)
      ensures lists == if old(lines[a]).state.Shared? then Removed(old(lists), a) else old(lists)
      ensures if old(lines[a]).state.Shared? then a !in lines else a in lines && lines[a].state.ToInvalid?
    {
      hide Chains, InLists, States, Removed;
      if lines[a].state.Shared? {
        ToInvalid(a);
      } else {
        ToToInvalid(a);
      }
    }

    /** The last line of a list can be evicted. */
    predicate Idle(list: nat)
      requires list < |tails|
      reads this
    {
      tails[list].Some? && tails[list].value in lines && !LineInTransition(lines[tails[list].value].state)
    }

    /** Take the line at the end of a list, unless it is busy. */
    method EvictFrom(list: nat, gotLine: bool) returns (found: bool)
      requires Valid() && list < LRU_NUM
      modifies this
      ensures Valid() && |old(lists)| == |old(tails)| == LRU_NUM && (found <==> old(lists)[list] != [])
      ensures if gotLine && old(Idle(list)) then Evicted(list)
        else lines == old(lines) && lists == old(lists) && tails == old(tails) && Live() == old(Live())
    {
      hide Once, InLists, Linked, Loose, Removed, States;
      if tails[list].None? { return false; }
      var a := tails[list].value;
      TailLinked(lines, heads, tails, lists, list);
      if gotLine && !LineInTransition(lines[a].state) {
        LastRemoved(lines, heads, tails, lists, list);
        UsableCopy(lines, lists, a);
        UnhookFrom(a, lines[a].pos);
        RemovedAbsent(lists, a);
        EvictLine(a);
      }
      found := true;
    }

    /** The last line of the list, and no other, has been taken from it and is going. */
    twostate predicate Evicted(list: nat)
      reads this
    {
      && list < |old(lists)| && old(lists)[list] != []
      && var l := old(lists)[list]; var a := l[|l| - 1];
      && lists == old(lists)[list := l[..|l| - 1]] && Live() == old(Live()) - BLOCK_SIZE
      && a in old(lines) && OthersSame(lines, old(lines), a)
      && if old(lines)[a].state.Shared? then a !in lines else a in lines && lines[a].state.ToInvalid?
    }

    /** Evict up to `n` lines, but never so many that less than eight tenths of the
        allowed bytes stay in use. */
    method Evict(n: nat, picks: seq<Pick>) returns (done: nat)
      requires Valid() && |picks| >= n && forall p | p in picks :: p.list < LRU_NUM
      modifies this
      ensures Valid() && done <= Limit(n, old(Live()), maxCacheMem) && done <= n && done <= MAX_EVICT
      ensures if 5 * old(Live()) <= 4 * maxCacheMem then Live() == old(Live()) && lines == old(lines)
        else 5 * Live() >= 4 * maxCacheMem
      ensures Live() >= old(Live()) - Limit(n, old(Live()), maxCacheMem) * BLOCK_SIZE
      ensures Limit(n, old(Live()), maxCacheMem) == 0 ==> lines == old(lines) && lists == old(lists)
      ensures Smooth(old(lines), old(lists), picks, Limit(n, old(Live()), maxCacheMem)) ==>
        && done == Limit(n, old(Live()), maxCacheMem) && Live() == old(Live()) - done * BLOCK_SIZE
        && Shortened(old(lists), lists, picks, done)
    {
      hide ValidExcept, Smooth, Shortened, Idle, AllIdle;
      ghost var most := Limit(n, Live(), maxCacheMem);
      ghost var smooth := Smooth(lines, lists, picks, most);
      var used := usedBytes - toEvicted * BLOCK_SIZE;
      NothingShortened(lists, picks);
      LimitLargest(n, Live(), maxCacheMem);
      if 5 * used <= 4 * maxCacheMem { return 0; }
      var most' := (5 * used - 4 * maxCacheMem) / (5 * BLOCK_SIZE);
      var limit := if n > most' then most' else n;
      if limit > MAX_EVICT { limit := MAX_EVICT; }
      if smooth { SmoothIdle(lines, lists, picks, most); }
      var i := 0;
      while i < limit
        invariant 0 <= i <= limit && Valid() && Live() >= old(Live()) - i * BLOCK_SIZE
        invariant i == 0 ==> lines == old(lines) && lists == old(lists)
        invariant smooth ==> Live() == old(Live()) - i * BLOCK_SIZE && Shortened(old(lists), lists, picks, i)
        invariant smooth ==> AllIdle(lines, lists)
      {
        ghost var lines0, lists0, tails0 := lines, lists, tails;
        InShape();
        if smooth {
          NextIdle(old(lines), old(lists), lines, lists, picks, most, i);
          TailIdle(picks[i].list);
        }
        if picks[i].gotList {
          var found := EvictFrom(picks[i].list, picks[i].gotLine);
          if !found { return 0; }
        }
        if smooth {
          ShortenedNext(old(lists), lists0, picks, i);
          StillIdle(lines0, lists0, lines, picks[i].list);
        }
        i := i + 1;
      }
      done := i;
    }

    lemma InShape()
      requires Valid()
      ensures |lists| == |tails| == LRU_NUM && Once(lists)
    {
    }

    lemma TailIdle(list: nat)
      requires Valid() && list < LRU_NUM && AllIdle(lines, lists) && |lists| == LRU_NUM && lists[list] != []
      ensures |tails| == LRU_NUM && Idle(list)
    {
      hide Once, Linked, Loose, States;
      var k := |lists[list]| - 1;
      assert At(lists, list, k);
      InListsAt(lists, list, k);
    }
  }

  /** How many lines may go: as many as are asked for and the bytes above eight tenths
      allow, and not more than 128 in one round. */
  function Limit(n: nat, live: int, max: nat): nat {
    if 5 * live <= 4 * max then 0
    else
      var most := (5 * live - 4 * max) / (5 * BLOCK_SIZE);
      var limit := if n > most then most else n;
      if limit > MAX_EVICT then MAX_EVICT else limit
  }

  /** It is the largest number within these bounds. */
  lemma LimitLargest(n: nat, live: int, max: nat)
    ensures var k := Limit(n, live, max);
      && k <= n && k <= MAX_EVICT && (k > 0 ==> 5 * (live - k * BLOCK_SIZE) >= 4 * max)
      && (k == n || k == MAX_EVICT || 5 * (live - (k + 1) * BLOCK_SIZE) < 4 * max)
  {
  }

  /** No linked line is in transition. */
  ghost predicate AllIdle(lines: Lines, lists: Lists) {
    forall a | InLists(lists, a) :: a in lines && !LineInTransition(lines[a].state)
  }

  /** How often list `i` is among the first `k` picks. */
  function Picked(picks: seq<Pick>, k: nat, i: nat): nat
    requires k <= |picks|
  {
    if k == 0 then 0 else Picked(picks, k - 1, i) + if picks[k - 1].list == i then 1 else 0
  }

  /** Nothing is in the way of the first `k` picks: all locks are obtained, no linked line is
      in transition, and no list is picked more often than it has lines. */
  ghost predicate Smooth(lines: Lines, lists: Lists, picks: seq<Pick>, k: nat) {
    && k <= |picks| && AllIdle(lines, lists)
    && (forall j | 0 <= j < k :: picks[j].list < |lists| && picks[j].gotList && picks[j].gotLine)
    && (forall i | 0 <= i < |lists| :: Picked(picks, k, i) <= |lists[i]|)
  }

  /** Every list has lost its last lines, one for each time it was picked. */
  ghost predicate Shortened(before: Lists, lists: Lists, picks: seq<Pick>, k: nat) {
    && k <= |picks| && |lists| == |before|
    && forall i | 0 <= i < |lists| ::
         Picked(picks, k, i) <= |before[i]| && lists[i] == before[i][..|before[i]| - Picked(picks, k, i)]
  }

  lemma NothingShortened(lists: Lists, picks: seq<Pick>)
    ensures Shortened(lists, lists, picks, 0)
  {
  }

  lemma SmoothIdle(lines: Lines, lists: Lists, picks: seq<Pick>, k: nat)
    requires Smooth(lines, lists, picks, k)
    ensures AllIdle(lines, lists)
  {
  }

  lemma {:induction false} PickedMore(picks: seq<Pick>, j: nat, k: nat, i: nat)
    requires j <= k <= |picks|
    ensures Picked(picks, j, i) <= Picked(picks, k, i)
    decreases k - j
  {
    if j < k { PickedMore(picks, j, k - 1, i); }
  }

  lemma NextIdle(lines0: Lines, lists0: Lists, lines: Lines, lists: Lists, picks: seq<Pick>, k: nat, j: nat)
    requires Smooth(lines0, lists0, picks, k) && j < k && Shortened(lists0, lists, picks, j)
    ensures picks[j].gotList && picks[j].gotLine && picks[j].list < |lists| && lists[picks[j].list] != []
  {
    hide AllIdle;
    PickedMore(picks, j + 1, k, picks[j].list);
  }

  lemma ShortenedNext(lists0: Lists, lists: Lists, picks: seq<Pick>, j: nat)
    requires Shortened(lists0, lists, picks, j) && j < |picks| && picks[j].list < |lists| && lists[picks[j].list] != []
    ensures var l := lists[picks[j].list];
      Shortened(lists0, lists[picks[j].list := l[..|l| - 1]], picks, j + 1)
  {
  }

  lemma StillIdle(lines0: Lines, lists0: Lists, lines: Lines, list: nat)
    requires AllIdle(lines0, lists0) && Once(lists0) && list < |lists0| && lists0[list] != []
    requires var l := lists0[list]; OthersSame(lines, lines0, l[|l| - 1])
    ensures var l := lists0[list]; AllIdle(lines, lists0[list := l[..|l| - 1]])
  {
    var l := lists0[list];
    var lists := lists0[list := l[..|l| - 1]];
    assert Cut(l, |l| - 1) == l[..|l| - 1] && At(lists0, list, |l| - 1);
    forall a | InLists(lists, a) ensures a in lines && !LineInTransition(lines[a].state) {
      UnlinkInLists(lists0, list, |l| - 1, a);
    }
  }

  lemma ChainsOnce(lines: Lines, heads: seq<Option<Addr>>, tails: seq<Option<Addr>>, lists: Lists)
    requires Chains(lines, heads, tails, lists)
    ensures Once(lists)
  {
  }

  lemma LastRemoved(lines: Lines, heads: seq<Option<Addr>>, tails: seq<Option<Addr>>, lists: Lists, i: nat)
    requires Chains(lines, heads, tails, lists) && i < |lists| && tails[i].Some?
    ensures lists[i] != [] && lists[i][|lists[i]| - 1] == tails[i].value
    ensures Removed(lists, tails[i].value) == lists[i := lists[i][..|lists[i]| - 1]]
  {
    hide Removed, Once, Linked, Loose;
    var k := |lists[i]| - 1;
    ChainsOnce(lines, heads, tails, lists);
    CutIsRemoved(lists, i, k);
    assert Cut(lists[i], k) == lists[i][..k];
  }

  ghost predicate SameStates(lines: Lines, before: Lines) {
    lines.Keys == before.Keys && forall a | a in lines :: lines[a].state == before[a].state
  }

  lemma Sizes(lines: Lines, heads: seq<Option<Addr>>, tails: seq<Option<Addr>>, lists: Lists)
    requires Chains(lines, heads, tails, lists)
    ensures |heads| == |tails| == |lists|
  {
  }

  lemma CutInLists(lines: Lines, heads: seq<Option<Addr>>, tails: seq<Option<Addr>>,
    lists: Lists, i: nat, k: nat, b: Addr)
    requires Chains(lines, heads, tails, lists) && At(lists, i, k)
    ensures InLists(lists[i := Cut(lists[i], k)], b) <==> b != lists[i][k] && InLists(lists, b)
  {
    UnlinkInLists(lists, i, k, b);
  }

  lemma LinkedPos(lines: Lines, heads: seq<Option<Addr>>, tails: seq<Option<Addr>>, lists: Lists, a: Addr)
    requires Chains(lines, heads, tails, lists)
    ensures InLists(lists, a) ==> a in lines && 0 <= lines[a].pos < |lists| && a in lists[lines[a].pos]
  {
    if InLists(lists, a) {
      var i, k := PositionOf(lists, a);
      assert NodeOk(lines, lists[i], i, k);
    }
  }

  /** The other lines are in the states they were in. */
  ghost predicate OthersSame(lines: Lines, before: Lines, a: Addr) {
    forall b | b != a :: (b in lines <==> b in before) && (b in lines ==> lines[b].state == before[b].state)
  }

  lemma NotLinked(lines: Lines, heads: seq<Option<Addr>>, tails: seq<Option<Addr>>, lists: Lists, a: Addr)
    requires Chains(lines, heads, tails, lists) && a !in lines
    ensures !InLists(lists, a)
  {
    LinkedPos(lines, heads, tails, lists, a);
  }

  lemma StateChange(lines: Lines, a: Addr, state: CacheState, lists: Lists)
    requires a in lines && Linked(lines, lists) && Loose(lines, lists)
    ensures Linked(lines[a := lines[a].(state := state)], lists) && Loose(lines[a := lines[a].(state := state)], lists)
  {
    hide InLists;
    var lines' := lines[a := lines[a].(state := state)];
    forall i, k | At(lists, i, k) ensures NodeOk(lines', lists[i], i, k) {
      assert NodeOk(lines, lists[i], i, k);
    }
  }

  lemma SameSize(lines: Lines, before: Lines)
    requires SameStates(lines, before)
    ensures |lines| == |before|
  {
    assert |lines.Keys| == |lines| && |before.Keys| == |before|;
  }

  lemma EraseLoose(lines: Lines, heads: seq<Option<Addr>>, tails: seq<Option<Addr>>, lists: Lists, a: Addr)
    requires Chains(lines, heads, tails, lists) && a in lines && !InLists(lists, a)
    ensures Chains(lines - {a}, heads, tails, lists)
  {
    forall i, k | At(lists, i, k) ensures NodeOk(lines - {a}, lists[i], i, k) {
      InListsAt(lists, i, k);
      assert NodeOk(lines, lists[i], i, k);
    }
  }

  lemma EraseCounts(lines: Lines, a: Addr)
    requires a in lines
    ensures |lines - {a}| == |lines| - 1
    ensures |Leaving(lines - {a})| == |Leaving(lines)| - if lines[a].state.ToInvalid? then 1 else 0
  {
    assert (lines - {a}).Keys == lines.Keys - {a} && |(lines - {a}).Keys| == |lines - {a}| && |lines.Keys| == |lines|;
    assert Leaving(lines - {a}) == Leaving(lines) - {a};
  }

  /** A linked line that is not in transition has a copy. */
  lemma UsableCopy(lines: Lines, lists: Lists, a: Addr)
    requires States(lines, lists, None) && a in lines && InLists(lists, a) && !LineInTransition(lines[a].state)
    ensures States(lines, lists, Some(a)) && (lines[a].state.Shared? || lines[a].state.Dirty?)
  {
    hide InLists;
  }

  lemma TailLinked(lines: Lines, heads: seq<Option<Addr>>, tails: seq<Option<Addr>>, lists: Lists, i: nat)
    requires Chains(lines, heads, tails, lists) && i < |lists| && tails[i].Some?
    ensures tails[i].value in lines && InLists(lists, tails[i].value) && lines[tails[i].value].pos == i
  {
    var k := |lists[i]| - 1;
    assert At(lists, i, k) && NodeOk(lines, lists[i], i, k);
    InListsAt(lists, i, k);
  }
}
