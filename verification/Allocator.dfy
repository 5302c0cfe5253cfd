/**
 The heap allocator (alloc.c:112-141, 177-211, 214-349).

 The heap is an array of 4-byte words. Blocks lie end to end from heapbase to heaplimit, each behind
 a header word with its size in bytes and the allocated bit; a free block's second word links to the
 next free block in address order. Word 1 is heapbase, which C places so that heapbase + 4 is aligned
 to 8 bytes: so a byte address is aligned to 8 exactly if its word index is even. Word 0 stands for
 the static variable `freelist`, so that chunkpp, which points to a link, is a word index too.

 The collector and the other threads, which run while gcMalloc has released the heap lock, are
 parameters: see Collector and Window.
 */
module Allocator {
  import opened Common

  /** A block: the index of its header, its size in words, and whether it is free. */
  datatype Tile = Tile(addr: int, size: int, free: bool)

  const BASE: int := 1
  const GRAIN: int := 8

  function End(ts: seq<Tile>): int {
    if ts == [] then BASE else ts[|ts| - 1].addr + ts[|ts| - 1].size
  }

  /** Block k starts where the one before it ends, its payload is aligned, and so is its size. */
  predicate Follows(ts: seq<Tile>, k: nat)
    requires k < |ts|
  {
    && ts[k].addr == (if k == 0 then BASE else ts[k - 1].addr + ts[k - 1].size)
    && ts[k].addr % 2 == 1 && ts[k].size >= 2 && ts[k].size % 2 == 0
  }

  /** The blocks lie end to end from heapbase to limit. */
  ghost predicate Tiled(ts: seq<Tile>, limit: int) {
    End(ts) == limit && forall k: nat | k < |ts| :: Follows(ts, k)
  }

  lemma {:induction false} TilesApart(ts: seq<Tile>, limit: int, j: nat, k: nat)
    requires Tiled(ts, limit) && j < k < |ts|
    ensures ts[j].addr + ts[j].size <= ts[k].addr
    decreases k - j
  {
    assert Follows(ts, k) && Follows(ts, j) && Follows(ts, k - 1);
    if j < k - 1 {
      TilesApart(ts, limit, j, k - 1);
    }
  }

  lemma TileInside(ts: seq<Tile>, limit: int, k: nat)
    requires Tiled(ts, limit) && k < |ts|
    ensures BASE <= ts[k].addr && ts[k].addr + ts[k].size <= limit
  {
    if k > 0 {
      TilesApart(ts, limit, 0, k);
    }
    if k < |ts| - 1 {
      TilesApart(ts, limit, k, |ts| - 1);
    }
    assert Follows(ts, 0) && Follows(ts, k) && Follows(ts, |ts| - 1);
  }

  /** Every word of the heap belongs to exactly one block. */
  lemma {:induction false} TilesCover(ts: seq<Tile>, limit: int, x: int) returns (k: nat)
    requires Tiled(ts, limit) && BASE <= x < limit
    ensures k < |ts| && ts[k].addr <= x < ts[k].addr + ts[k].size
    ensures forall j | 0 <= j < |ts| && ts[j].addr <= x < ts[j].addr + ts[j].size :: j == k
    decreases |ts|
  {
    var n := |ts| - 1;
    if x >= ts[n].addr {
      k := n;
    } else {
      var init := ts[..n];
      assert Follows(ts, n);
      assert forall i: nat | i < n :: Follows(ts, i) ==> Follows(init, i);
      k := TilesCover(init, End(init), x);
    }
    forall j | 0 <= j < |ts| && ts[j].addr <= x < ts[j].addr + ts[j].size ensures j == k {
      if j < k {
        TilesApart(ts, limit, j, k);
      } else if k < j {
        TilesApart(ts, limit, k, j);
      }
    }
  }

  // ----- the free list -----

  function Header(t: Tile): int { 4 * t.size + if t.free then 0 else 1 }

  /** The address of the first free block from index k on; zero is NULL. */
  function NextFree(ts: seq<Tile>, k: nat): int
    requires k <= |ts|
    decreases |ts| - k
  {
    if k == |ts| then 0 else if ts[k].free then ts[k].addr else NextFree(ts, k + 1)
  }

  function FirstFree(ts: seq<Tile>, k: nat): (i: nat)
    requires k <= |ts|
    ensures k <= i <= |ts| && (i < |ts| ==> ts[i].free)
    ensures forall j | k <= j < i :: !ts[j].free
    ensures NextFree(ts, k) == if i < |ts| then ts[i].addr else 0
    decreases |ts| - k
  {
    if k == |ts| || ts[k].free then k else FirstFree(ts, k + 1)
  }

  /** Headers and links in memory are those of the blocks. */
  ghost predicate Linked(m: seq<int>, ts: seq<Tile>) {
    && (forall k {:trigger ts[k]} | 0 <= k < |ts| :: 0 < ts[k].addr && ts[k].addr + 1 < |m|)
    && |m| > 0 && m[0] == NextFree(ts, 0)
    && (forall k {:trigger ts[k]} | 0 <= k < |ts| :: m[ts[k].addr] == Header(ts[k]))
    && (forall k {:trigger ts[k]} | 0 <= k < |ts| && ts[k].free :: m[ts[k].addr + 1] == NextFree(ts, k + 1))
  }

  /** The part of Linked that concerns block i. */
  predicate TileLinked(m: seq<int>, ts: seq<Tile>, i: nat)
    requires i < |ts|
  {
    && 0 < ts[i].addr && ts[i].addr + 1 < |m| && m[ts[i].addr] == Header(ts[i])
    && (ts[i].free ==> m[ts[i].addr + 1] == NextFree(ts, i + 1))
  }

  lemma HeaderAt(m: seq<int>, ts: seq<Tile>, i: nat)
    requires Linked(m, ts) && i < |ts|
    ensures 0 < ts[i].addr < |m| && m[ts[i].addr] == Header(ts[i])
  {
  }

  lemma LinkedFrom(m: seq<int>, ts: seq<Tile>)
    requires |m| > 0 && m[0] == NextFree(ts, 0) && forall i: nat | i < |ts| :: TileLinked(m, ts, i)
    ensures Linked(m, ts)
  {
    forall k | 0 <= k < |ts| ensures TileLinked(m, ts, k) {
    }
    assert forall k {:trigger ts[k]} | 0 <= k < |ts| :: TileLinked(m, ts, k);
  }

  /** p is the link that leads to the first free block from index pos on. */
  predicate Link(ts: seq<Tile>, p: int, pos: nat) {
    && pos <= |ts|
    && if pos == 0 then p == 0 else ts[pos - 1].free && p == ts[pos - 1].addr + 1
  }

  /** The blocks fill the heap, memory shows them, and p is the link of the free list after index pos. */
  ghost predicate ListOk(m: seq<int>, ts: seq<Tile>, limit: int, p: int, pos: nat) {
    Tiled(ts, limit) && Linked(m, ts) && Link(ts, p, pos) && BASE <= limit <= |m| && pos <= |ts|
  }

  function FreeWords(ts: seq<Tile>): int {
    if ts == [] then 0 else FreeWords(ts[..|ts| - 1]) + if ts[|ts| - 1].free then ts[|ts| - 1].size else 0
  }

  /** The scan that starts at link `from` and stops at block k stops at link p: the last one before k,
      or the first. */
  predicate NextLink(ts: seq<Tile>, from: nat, k: nat, p: nat) {
    from <= p <= |ts| && k == FirstFree(ts, p) && (p == from || ts[p - 1].free)
  }

  /** Next fit: the first free block of at least n words from index k on. */
  function FirstFit(ts: seq<Tile>, k: nat, n: int): (i: nat)
    requires k <= |ts|
    ensures k <= i <= |ts| && (i < |ts| ==> ts[i].free && ts[i].size >= n)
    ensures forall j | k <= j < i :: !(ts[j].free && ts[j].size >= n)
    decreases |ts| - k
  {
    if k == |ts| || (ts[k].free && ts[k].size >= n) then k else FirstFit(ts, k + 1, n)
  }

  /** The first n words of block k are allocated; the rest of it stays free. */
  function Carve(ts: seq<Tile>, k: nat, n: int): seq<Tile>
    requires k < |ts|
  {
    var t := ts[k];
    if t.size == n then ts[k := Tile(t.addr, n, false)]
    else ts[..k] + [Tile(t.addr, n, false), Tile(t.addr + n, t.size - n, true)] + ts[k + 1..]
  }

  lemma CarveTiled(ts: seq<Tile>, limit: int, k: nat, n: int)
    requires Tiled(ts, limit) && k < |ts| && ts[k].free && 2 <= n <= ts[k].size && n % 2 == 0
    ensures Tiled(Carve(ts, k, n), limit)
  {
    var ts' := Carve(ts, k, n);
    forall i: nat | i < |ts'| ensures Follows(ts', i) {
      CarveFollows(ts, limit, k, n, i);
    }
    CarveEnd(ts, k, n);
    hide Carve;
    hide Follows;
  }

  lemma CarveEnd(ts: seq<Tile>, k: nat, n: int)
    requires k < |ts|
    ensures End(Carve(ts, k, n)) == End(ts)
  {
  }

  lemma CarveFollows(ts: seq<Tile>, limit: int, k: nat, n: int, i: nat)
    requires Tiled(ts, limit) && k < |ts| && ts[k].free && 2 <= n <= ts[k].size && n % 2 == 0 && i < |Carve(ts, k, n)|
    ensures Follows(Carve(ts, k, n), i)
  {
    var t := ts[k];
    var o: nat := if t.size == n || i <= k then i else i - 1;
    assert Follows(ts, k) && Follows(ts, o) && (o > 0 ==> Follows(ts, o - 1));
    hide Tiled;
    if t.size > n && i == k + 1 {
      hide Follows;
      Remainder(t.addr, t.size, n);
      assert Carve(ts, k, n)[i] == Tile(t.addr + n, t.size - n, true) && Carve(ts, k, n)[k] == Tile(t.addr, n, false);
      FollowsIf(Carve(ts, k, n), i);
    }
  }

  lemma FollowsIf(ts: seq<Tile>, k: nat)
    requires 0 < k < |ts| && ts[k].addr == ts[k - 1].addr + ts[k - 1].size
    requires ts[k].addr % 2 == 1 && ts[k].size >= 2 && ts[k].size % 2 == 0
    ensures Follows(ts, k)
  {
  }

  lemma Remainder(addr: int, size: int, n: int)
    requires addr % 2 == 1 && size % 2 == 0 && n % 2 == 0 && n < size
    ensures (addr + n) % 2 == 1 && size - n >= 2 && (size - n) % 2 == 0
  {
  }

  /** Carving leaves the last block alone, unless it is the one. */
  lemma CarveInit(ts: seq<Tile>, k: nat, n: int)
    requires k < |ts| - 1
    ensures var ts', init := Carve(ts, k, n), ts[..|ts| - 1];
            ts' != [] && ts'[..|ts'| - 1] == Carve(init, k, n) && ts'[|ts'| - 1] == ts[|ts| - 1]
  {
    var init := ts[..|ts| - 1];
    assert init[k + 1..] + [ts[|ts| - 1]] == ts[k + 1..];
    assert Carve(ts, k, n) == Carve(init, k, n) + [ts[|ts| - 1]];
  }

  lemma {:induction false} CarveFreeWords(ts: seq<Tile>, k: nat, n: int)
    requires k < |ts| && ts[k].free
    ensures FreeWords(Carve(ts, k, n)) == FreeWords(ts) - n
    decreases |ts|
  {
    var ts' := Carve(ts, k, n);
    var init := ts'[..|ts'| - 1];
    if k < |ts| - 1 {
      CarveInit(ts, k, n);
      CarveFreeWords(ts[..|ts| - 1], k, n);
    } else if ts[k].size == n {
      assert init == ts[..k];
    } else {
      assert init[..k] == ts[..k];
    }
  }

  lemma AppendFreeWords(ts: seq<Tile>, t: Tile)
    requires t.free
    ensures FreeWords(ts + [t]) == FreeWords(ts) + t.size
  {
    assert (ts + [t])[..|ts|] == ts;
  }

  // ----- what becomes of the free list -----

  lemma {:induction false} SameNext(ts: seq<Tile>, us: seq<Tile>, k: nat, d: nat)
    requires k <= |ts| && k + d <= |us| && |us| - d == |ts|
    requires forall j | k <= j < |ts| :: us[j + d] == ts[j]
    ensures NextFree(us, k + d) == NextFree(ts, k)
    decreases |ts| - k
  {
    if k < |ts| {
      assert us[k + d] == ts[k];
      if !ts[k].free {
        SameNext(ts, us, k + 1, d);
      }
    }
  }

  /** Up to the first free block nothing is free. */
  lemma {:induction false} SkipTo(ts: seq<Tile>, j: nat, i: nat)
    requires j <= i <= |ts| && forall q | j <= q < i :: !ts[q].free
    ensures NextFree(ts, j) == NextFree(ts, i)
    decreases i - j
  {
    if j < i {
      SkipTo(ts, j + 1, i);
    }
  }

  /** Links before a carved block: those that led to it lead to its remainder, or past it. */
  lemma {:induction false} NextAfterCarve(ts: seq<Tile>, k: nat, n: int, j: nat)
    requires j <= k < |ts| && ts[k].free
    ensures NextFree(Carve(ts, k, n), j) ==
      if exists q :: j <= q < k && ts[q].free then NextFree(ts, j)
      else if ts[k].size == n then NextFree(ts, k + 1) else ts[k].addr + n
    decreases k - j
  {
    var ts' := Carve(ts, k, n);
    if j < k {
      assert ts'[j] == ts[j];
      if !ts[j].free {
        NextAfterCarve(ts, k, n, j + 1);
      }
    } else if ts[k].size == n {
      assert ts'[k] == Tile(ts[k].addr, n, false);
      SameNext(ts, ts', k + 1, 0);
    } else {
      assert ts'[k] == Tile(ts[k].addr, n, false) && ts'[k + 1] == Tile(ts[k].addr + n, ts[k].size - n, true);
    }
  }

  /** Appending a free block at the end: the last link leads to it. */
  lemma {:induction false} NextAfterAppend(ts: seq<Tile>, t: Tile, j: nat)
    requires j <= |ts| && t.free && forall q | 0 <= q < |ts| :: ts[q].addr > 0
    ensures NextFree(ts + [t], j) == if NextFree(ts, j) != 0 then NextFree(ts, j) else t.addr
    decreases |ts| - j
  {
    if j < |ts| {
      assert (ts + [t])[j] == ts[j];
      if !ts[j].free {
        NextAfterAppend(ts, t, j + 1);
      }
    }
  }

  /** Memory m' is m with block k, the first free one after index pos, taken off the list through p. */
  ghost predicate Carves(m: seq<int>, ts: seq<Tile>, limit: int, p: int, pos: nat, k: nat, n: int, m': seq<int>) {
    && Tiled(ts, limit) && Linked(m, ts) && Link(ts, p, pos) && |m'| == |m| && limit <= |m|
    && k < |ts| && k == FirstFree(ts, pos) && 2 <= n <= ts[k].size && n % 2 == 0
    && var t := ts[k];
       && ts[k].addr + t.size <= |m| && p < |m| && 0 < t.addr
       && m'[t.addr] == Header(Tile(t.addr, n, false))
       && (t.size == n ==> m'[p] == m[t.addr + 1])
       && (t.size > n ==>
             && t.addr + n + 1 < |m| && m'[p] == t.addr + n && m'[t.addr + n] == 4 * (t.size - n)
             && m'[t.addr + n + 1] == m[t.addr + 1])
       && (forall x {:trigger m'[x]} | 0 <= x < |m| && x != p && !(t.addr <= x < t.addr + t.size) :: m'[x] == m[x])
  }

  lemma CarveBefore(m: seq<int>, ts: seq<Tile>, limit: int, p: int, pos: nat, k: nat, n: int, m': seq<int>, i: nat)
    requires Carves(m, ts, limit, p, pos, k, n, m') && i < k
    ensures var t, ts' := ts[i], Carve(ts, k, n);
            && ts'[i] == t && 0 < t.addr && t.addr + 1 < |m'| && m'[t.addr] == Header(t)
            && (t.free ==> m'[t.addr + 1] == NextFree(ts', i + 1))
  {
    TilesApart(ts, limit, i, k);
    assert Follows(ts, i) && Follows(ts, k);
    if pos > 0 {
      assert Follows(ts, pos - 1);
      if i < pos - 1 {
        TilesApart(ts, limit, i, pos - 1);
      } else if pos - 1 < i {
        TilesApart(ts, limit, pos - 1, i);
      }
    }
    NextAfterCarve(ts, k, n, i + 1);
    SkipTo(ts, pos, k);
    hide Tiled;
  }

  lemma MemoryAfter(m: seq<int>, ts: seq<Tile>, limit: int, p: int, pos: nat, k: nat, n: int, m': seq<int>, o: nat)
    requires Carves(m, ts, limit, p, pos, k, n, m') && k < o < |ts|
    ensures 0 < ts[o].addr && ts[o].addr + 1 < |m'| && m'[ts[o].addr] == Header(ts[o])
    ensures ts[o].free ==> m'[ts[o].addr + 1] == NextFree(ts, o + 1)
  {
    TilesApart(ts, limit, k, o);
    if pos > 0 {
      TilesApart(ts, limit, pos - 1, k);
      assert Follows(ts, pos - 1) && Follows(ts, k);
    }
    hide Tiled;
    hide NextFree;
  }

  lemma CarveAfter(m: seq<int>, ts: seq<Tile>, limit: int, p: int, pos: nat, k: nat, n: int, m': seq<int>, o: nat)
    requires Carves(m, ts, limit, p, pos, k, n, m') && k < o < |ts|
    ensures var t, ts' := ts[o], Carve(ts, k, n);
            var i := o + |ts'| - |ts|;
            && 0 <= i < |ts'| && ts'[i] == t && 0 < t.addr && t.addr + 1 < |m'| && m'[t.addr] == Header(t)
            && (t.free ==> m'[t.addr + 1] == NextFree(ts', i + 1))
  {
    hide *;
    MemoryAfter(m, ts, limit, p, pos, k, n, m', o);
    AfterCarve(ts, k, n);
    var ts' := Carve(ts, k, n);
    var d: nat := |ts'| - |ts|;
    assert forall j | o + 1 <= j < |ts| :: ts'[j + d] == ts[j];
    SameNext(ts, ts', o + 1, d);
  }

  lemma AfterCarve(ts: seq<Tile>, k: nat, n: int)
    requires k < |ts|
    ensures var ts' := Carve(ts, k, n);
            0 <= |ts'| - |ts| <= 1 && forall j {:trigger ts[j]} | k < j < |ts| :: ts'[j + |ts'| - |ts|] == ts[j]
  {
  }

  lemma CarveHead(m: seq<int>, ts: seq<Tile>, limit: int, p: int, pos: nat, k: nat, n: int, m': seq<int>)
    requires Carves(m, ts, limit, p, pos, k, n, m')
    ensures m'[0] == NextFree(Carve(ts, k, n), 0)
  {
    NextAfterCarve(ts, k, n, 0);
    if pos == 0 {
      SkipTo(ts, 0, k);
    } else {
      assert ts[pos - 1].free && pos - 1 < k;
    }
    hide Tiled;
    hide Carve;
  }

  lemma CarveLinked(m: seq<int>, ts: seq<Tile>, limit: int, p: int, pos: nat, k: nat, n: int, m': seq<int>)
    requires Carves(m, ts, limit, p, pos, k, n, m')
    ensures Linked(m', Carve(ts, k, n)) && Link(Carve(ts, k, n), p, pos) && pos <= |Carve(ts, k, n)|
  {
    hide Carves;
    hide NextFree;
    hide TileLinked;
    CarveHead(m, ts, limit, p, pos, k, n, m');
    CarvedShape(m, ts, limit, p, pos, k, n, m');
    var ts' := Carve(ts, k, n);
    hide Carve;
    hide Link;
    hide Linked;
    forall i: nat | i < |ts'| ensures TileLinked(m', ts', i) {
      CarvedTileLinked(m, ts, limit, p, pos, k, n, m', i);
    }
    LinkedFrom(m', ts');
  }

  lemma CarvedShape(m: seq<int>, ts: seq<Tile>, limit: int, p: int, pos: nat, k: nat, n: int, m': seq<int>)
    requires Carves(m, ts, limit, p, pos, k, n, m')
    ensures k < |ts| && pos <= k && |m'| > 0
    ensures var ts' := Carve(ts, k, n);
            Link(ts', p, pos) && pos <= |ts'| && k < |ts'| && (ts[k].size == n ==> |ts'| == |ts|)
    ensures ts[k].size != n ==> |Carve(ts, k, n)| == |ts| + 1
  {
    hide Tiled;
    hide NextFree;
  }

  /** Block i after carving: one before, one of the two parts, or one after. */
  lemma CarvedTileLinked(m: seq<int>, ts: seq<Tile>, limit: int, p: int, pos: nat, k: nat, n: int, m': seq<int>, i: nat)
    requires Carves(m, ts, limit, p, pos, k, n, m') && k < |ts| && i < |Carve(ts, k, n)|
    ensures TileLinked(m', Carve(ts, k, n), i)
  {
    hide Carves;
    hide NextFree;
    hide Carve;
    var ts' := Carve(ts, k, n);
    CarvedShape(m, ts, limit, p, pos, k, n, m');
    if i < k {
      CarveBefore(m, ts, limit, p, pos, k, n, m', i);
    } else if i > k && (ts[k].size == n || i > k + 1) {
      CarveAfter(m, ts, limit, p, pos, k, n, m', if ts[k].size == n then i else i - 1);
    } else {
      CarvedParts(m, ts, limit, p, pos, k, n, m');
    }
  }

  /** The allocated part and, if there is one, the free rest. */
  lemma CarvedParts(m: seq<int>, ts: seq<Tile>, limit: int, p: int, pos: nat, k: nat, n: int, m': seq<int>)
    requires Carves(m, ts, limit, p, pos, k, n, m') && k < |ts|
    ensures k < |Carve(ts, k, n)| && TileLinked(m', Carve(ts, k, n), k)
    ensures ts[k].size != n ==> k + 1 < |Carve(ts, k, n)| && TileLinked(m', Carve(ts, k, n), k + 1)
  {
    var t, ts' := ts[k], Carve(ts, k, n);
    assert Follows(ts, k);
    if t.size != n {
      SameNext(ts, ts', k + 1, 1);
    }
    hide Tiled;
    hide Follows;
    hide NextFree;
  }

  // ----- the rest of the world -----

  /** gc0: what the n-th collection makes of the blocks. Blocks that stay allocated are not moved. */
  type Collector = (seq<Tile>, nat) -> seq<Tile>

  predicate Survives(ts: seq<Tile>, ts': seq<Tile>) {
    forall k | 0 <= k < |ts'| && !ts'[k].free :: ts'[k] in ts
  }

  ghost predicate CollectorOk(gc: Collector) {
    forall ts, limit, n {:trigger Tiled(ts, limit), gc(ts, n)} | Tiled(ts, limit) ::
      Tiled(gc(ts, n), limit) && Survives(ts, gc(ts, n))
  }

  /** What runFinalizers returns when the n-th collection is the last one so far. */
  type Finalisers = nat -> bool

  predicate NoFit(ts: seq<Tile>, k: nat, n: int) {
    k <= |ts| && FirstFit(ts, k, n) == |ts|
  }

  /** The blocks after the collections of a call that fails in the given state, c of them before. */
  function Left(gc: Collector, fin: Finalisers, state: nat, ts: seq<Tile>, c: nat): seq<Tile>
    decreases 1 - state
  {
    if state == 0 then Left(gc, fin, 1, gc(ts, c), c + 1)
    else if state == 1 && fin(c) then gc(ts, c) else ts
  }

  /** None of those collections makes room for n words. */
  predicate Futile(gc: Collector, fin: Finalisers, state: nat, ts: seq<Tile>, c: nat, n: int)
    decreases 1 - state
  {
    if state == 0 then NoFit(gc(ts, c), 0, n) && Futile(gc, fin, 1, gc(ts, c), c + 1, n)
    else state == 1 && fin(c) ==> NoFit(gc(ts, c), 0, n)
  }

  /** How gcMalloc finds the heap when it takes the lock again. */
  datatype Window = Window(tiles: seq<Tile>, limit: int, pos: nat, state: nat)

  /** What other threads, and finalisers, do with the allocator while the lock is released: any number
      of allocations, collections and expansions, leaving the next-fit pointer at any link. */
  type Other = (seq<Tile>, int) -> Window

  ghost predicate WindowOk(w: Window, limit: int, heapmax: int) {
    && Tiled(w.tiles, w.limit) && limit <= w.limit <= heapmax && w.limit % 2 == 1 && w.state <= 3
    && w.pos <= |w.tiles| && (w.pos > 0 ==> w.tiles[w.pos - 1].free) && (w.state == 3 ==> w.limit == heapmax)
  }

  ghost predicate OtherOk(o: Other, heapmax: int) {
    forall ts, limit {:trigger o(ts, limit)} | Tiled(ts, limit) && limit <= heapmax ::
        WindowOk(o(ts, limit), limit, heapmax)
  }

  ghost predicate WorldOk(gc: Collector, others: seq<Other>, heapmax: int) {
    CollectorOk(gc) && forall o | o in others :: OtherOk(o, heapmax)
  }

  function Align(i: nat): nat { i - i % GRAIN }

  datatype Result = Block(payload: int) | OutOfMemory(prepared: bool) | Fault

  /** The end, as a word index, of a heap in `size` bytes from start on. */
  function Words(start: nat, size: nat): (w: nat)
    requires size >= 15
    ensures w % 2 == 1 && w >= BASE + 2
    ensures Align(start + 4 + GRAIN - 1) - 4 + 4 * (w - BASE) <= start + size
  {
    BASE + Align(size - (Align(start + 4 + GRAIN - 1) - 4 - start)) / 4
  }

  lemma FirstTile(m: seq<int>, limit: int)
    requires limit % 2 == 1 && BASE + 2 <= limit <= |m| && m[0] == BASE
    requires m[BASE] == 4 * (limit - BASE) && m[BASE + 1] == 0
    ensures var ts := [Tile(BASE, limit - BASE, true)];
            ListOk(m, ts, limit, 0, 0) && FreeWords(ts) == limit - BASE
  {
    var ts := [Tile(BASE, limit - BASE, true)];
    assert Follows(ts, 0) && NextFree(ts, 1) == 0 && FreeWords(ts[..0]) == 0;
  }

  lemma AlignBounds(i: nat)
    ensures i - GRAIN < Align(i) <= i && Align(i) % GRAIN == 0 && Align(i) == GRAIN * (i / GRAIN)
  {
  }

  /** What remains of `delta` bytes, `wanted` cut short to the maximum, once they are aligned. */
  lemma GrowthAligned(limit: int, heapmax: int, min: nat, wanted: nat, delta: nat)
    requires BASE <= limit < heapmax && limit % 2 == 1 && heapmax % 2 == 1 && min % GRAIN == 0 && GRAIN <= min <= wanted
    requires delta == if 4 * limit + wanted > 4 * heapmax then 4 * heapmax - 4 * limit else wanted
    requires wanted >= 2 * (limit - BASE)
    ensures GRAIN <= Align(delta) && Align(delta) % GRAIN == 0 && 4 * limit + Align(delta) <= 4 * heapmax
    ensures 4 * limit + Align(delta) < 4 * heapmax ==> Align(delta) >= min && Align(delta) >= 2 * (limit - BASE) - 4
    ensures delta - GRAIN < Align(delta) <= delta
  {
    AlignBounds(delta);
    hide Align;
    WholeGrains(limit / 2, heapmax / 2, min / GRAIN, wanted, delta, Align(delta) / GRAIN);
  }

  /** A heap that ends at word index limit grows by half its size or what is needed, but not beyond heapmax,
      in whole units of 8 bytes. */
  predicate GrowsBy(limit: int, heapmax: int, min: nat, delta: int) {
    var half, room := (4 * limit - 4 * BASE) / 2, 4 * heapmax - 4 * limit;
    var wanted := if half < min then min else half;
    var most := if wanted < room then wanted else room;
    delta % 8 == 0 && delta <= most < delta + 8
  }

  /** The same in units of 8 bytes. */
  lemma WholeGrains(l: int, h: int, k: int, wanted: int, delta: int, g: int)
    requires 0 <= l < h && 1 <= k && 8 * k <= wanted && 4 * l <= wanted
    requires delta == if 8 * l + wanted > 8 * h then 8 * (h - l) else wanted
    requires 8 * g <= delta < 8 * g + 8
    ensures 1 <= g && l + g <= h && (l + g < h ==> k <= g && 4 * l - 4 <= 8 * g)
  {
  }

  /** A header tells size and kind of its block. */
  lemma HeaderTells(t: Tile)
    ensures Header(t) / 4 == t.size && (Header(t) % 2 == 0) == t.free
  {
    var b := if t.free then 0 else 1;
    assert Header(t) == 4 * t.size + b && Header(t) == 2 * (2 * t.size) + b;
  }

  /** Payloads are aligned, and the sizes of the heap are multiples of 8. */
  predicate Aligned(heapbase: int, limit: int, heapmax: int) {
    heapbase % GRAIN == 4 && limit % 2 == 1 && heapmax % 2 == 1
  }

  /** Where the heap lies in the memory block it is given. */
  /** As many of the bytes as make whole units of 8. */
  predicate Fills(bytes: int, used: int) { used % 8 == 0 && used <= bytes < used + 8 }

  lemma Placed(start: nat, min: nat, max: nat)
    requires 15 <= min <= max
    ensures var b := Align(start + 4 + GRAIN - 1) - 4;
            && start <= b && b + 4 * (Words(start, max) - BASE) <= start + max
            && BASE + 2 <= Words(start, min) <= Words(start, max) && Aligned(b, Words(start, min), Words(start, max))
            && (b + 4) % 8 == 0 && b < start + 8
            && Fills(min - (b - start), 4 * (Words(start, min) - BASE))
            && Fills(max - (b - start), 4 * (Words(start, max) - BASE))
  {
    AlignBounds(start + 4 + GRAIN - 1);
    var b := Align(start + 4 + GRAIN - 1) - 4;
    WordsAre(start, min, b);
    WordsAre(start, max, b);
    hide Words;
    hide Align;
    Grains((start + 4 + GRAIN - 1) / GRAIN, (min - (b - start)) / GRAIN, (max - (b - start)) / GRAIN);
    assert (min - (b - start)) / GRAIN <= (max - (b - start)) / GRAIN;
  }

  lemma WordsAre(start: nat, size: nat, b: int)
    requires size >= 15 && b == Align(start + 4 + GRAIN - 1) - 4
    ensures start <= b <= start + 7 && Words(start, size) == BASE + 2 * ((size - (b - start)) / GRAIN)
    ensures size - (b - start) - GRAIN < GRAIN * ((size - (b - start)) / GRAIN) <= size - (b - start)
  {
    AlignBounds(start + 4 + GRAIN - 1);
    AlignBounds(size - (b - start));
    Grains(0, (size - (b - start)) / GRAIN, 0);
  }

  lemma Grains(g: int, l: int, m: int)
    ensures GRAIN * l / 4 == 2 * l
    ensures (GRAIN * g - 4) % GRAIN == 4 && (BASE + 2 * l) % 2 == 1 && (BASE + 2 * m) % 2 == 1
  {
  }

  class Heap {
    const heapbase: int    // a byte address
    const mem: array<int>
    const heapmax: int
    var limit: int
    var heapfree: int
    var chunkpp: nat
    var state: nat
    const gc: Collector
    const fin: Finalisers
    var collections: nat
    var others: seq<Other>
    ghost var tiles: seq<Tile>
    ghost var pos: nat

    ghost predicate Valid()
      reads this, mem
    {
      && BASE <= limit <= heapmax <= mem.Length && mem.Length > 0 && Aligned(heapbase, limit, heapmax)
      && pos <= |tiles| && ListOk(mem[..], tiles, limit, chunkpp, pos) && WorldOk(gc, others, heapmax)
      && heapfree == 4 * FreeWords(tiles) && state <= 3 && (state == 3 ==> limit == heapmax)
    }

    /** The byte address of word i. */
    function Address(i: int): int { heapbase + 4 * (i - BASE) }

    /** initialiseAlloc, given the memory block [start, start + max) (alloc.c:112-141). */
    constructor (start: nat, min: nat, max: nat, gc: Collector, fin: Finalisers, others: seq<Other>)
      requires 15 <= min <= max && WorldOk(gc, others, Words(start, max))
      ensures Valid() && state == 0 && pos == 0 && collections == 0 && fresh(mem)
      ensures this.others == others && this.gc == gc && this.fin == fin
      ensures start <= heapbase && heapbase + 4 * (heapmax - BASE) <= start + max
      // the first address at which payloads are aligned, and the most 8-byte units behind it
      ensures (heapbase + 4) % 8 == 0 && heapbase < start + 8
      ensures Fills(min - (heapbase - start), 4 * (limit - BASE))
      ensures Fills(max - (heapbase - start), 4 * (heapmax - BASE))
      ensures limit == Words(start, min) && heapmax == Words(start, max) && tiles == [Tile(BASE, limit - BASE, true)]
    {
      hide WorldOk;
      hide ListOk;
      hide Align;
      hide Words;
      hide Aligned;
      hide FreeWords;
      hide Fills;
      heapbase := Align(start + 4 + GRAIN - 1) - 4;
      limit := Words(start, min);
      heapmax := Words(start, max);
      var words := new int[Words(start, max)](_ => 0);
      words[0], words[BASE], words[BASE + 1] := BASE, 4 * (Words(start, min) - BASE), 0;
      mem := words;
      heapfree := 4 * (Words(start, min) - BASE);
      chunkpp, pos, state, collections := 0, 0, 0, 0;
      this.gc, this.fin := gc, fin;
      this.others := others;
      tiles := [Tile(BASE, Words(start, min) - BASE, true)];
      Placed(start, min, max);
      new;
      FirstTile(mem[..], limit);
    }

    /** memset(ret_addr, 0, ...) */
    method Clear(lo: nat, hi: nat)
      requires lo <= hi <= mem.Length
      modifies mem
      ensures forall y | 0 <= y < mem.Length :: mem[y] == if lo <= y < hi then 0 else old(mem[y])
    {
      var x := lo;
      while x < hi
        invariant lo <= x <= hi
        invariant forall y | 0 <= y < mem.Length :: mem[y] == if lo <= y < x then 0 else old(mem[y])
      {
        mem[x] := 0;
        x := x + 1;
      }
    }

    /** Unlinks n bytes of the free block at c, and marks them allocated. */
    method Unlink(c: nat, n: nat, ghost size: int)
      requires chunkpp < c && c + size <= mem.Length && 8 <= n && n / 4 <= size && n / 4 * 4 == n
      requires mem[c] == 4 * size && (n != 4 * size ==> n / 4 + 2 <= size)
      modifies mem
      ensures mem[c] == n + 1
      ensures n == 4 * size ==> mem[chunkpp] == old(mem[c + 1])
      ensures n != 4 * size ==>
        mem[chunkpp] == c + n / 4 && mem[c + n / 4] == 4 * size - n && mem[c + n / 4 + 1] == old(mem[c + 1])
      ensures forall x | 0 <= x < mem.Length && x != chunkpp && !(c <= x < c + size) :: mem[x] == old(mem[x])
    {
      var len := mem[c];
      if len == n {
        mem[chunkpp] := mem[c + 1];
      } else {
        var rem := c + n / 4;
        mem[rem] := len - n;
        mem[rem + 1] := mem[c + 1];
        mem[chunkpp] := rem;
      }
      mem[c] := n + 1;
    }

    /** Takes the free block at c, n bytes of it, off the list through chunkpp. */
    method Take(c: nat, n: nat, ghost k: nat)
      requires Valid() && k < |tiles| && k == FirstFree(tiles, pos) && c == tiles[k].addr
      requires n % GRAIN == 0 && GRAIN <= n <= 4 * tiles[k].size
      modifies this`heapfree, this`tiles, mem
      ensures Valid() && tiles == Carve(old(tiles), k, n / 4) && heapfree == old(heapfree) - n
      ensures c + n / 4 <= limit && forall x | c < x < c + n / 4 :: mem[x] == 0
      ensures forall x | 0 <= x < mem.Length && x != chunkpp && !(c <= x < c + old(tiles)[k].size) ::
          mem[x] == old(mem[x])
    {
      hide ListOk;
      hide NextFree;
      hide WorldOk;
      hide FreeWords;
      hide Carve;
      hide FirstFree;
      ghost var ts, m := tiles, mem[..];
      TakeBounds(m, ts, limit, chunkpp, pos, k, n);
      Unlink(c, n, ts[k].size);
      heapfree := heapfree - n;
      ghost var m1 := mem[..];
      Clear(c + 1, c + n / 4);
      tiles := Carve(ts, k, n / 4);
      TakeCarves(m, ts, limit, chunkpp, pos, k, n, m1, mem[..]);
      CarveFreeWords(ts, k, n / 4);
    }

    /** The scan for a chunk big enough, from chunkpp on (alloc.c:236-258); zero if there is none. */
    method Scan(n: nat) returns (c: nat)
      requires Valid() && n % GRAIN == 0 && n >= GRAIN
      modifies this`chunkpp, this`pos
      ensures Valid() && old(pos) <= pos
      ensures var k := FirstFit(tiles, old(pos), n / 4);
              if k < |tiles| then NextLink(tiles, old(pos), k, pos) && c == tiles[k].addr && c != 0
              else c == 0 && NoFit(tiles, pos, n / 4)
    {
      hide ListOk;
      hide FirstFree;
      hide FirstFit;
      hide FreeWords;
      hide WorldOk;
      hide NoFit;
      hide NextLink;
      hide Aligned;
      hide Scanned;
      ghost var fit, m := FirstFit(tiles, pos, n / 4), mem[..];
      AtStart(m, tiles, limit, chunkpp, pos, n / 4);
      while mem[chunkpp] != 0
        invariant m == mem[..] && ListOk(m, tiles, limit, chunkpp, pos) && chunkpp < mem.Length && pos <= |tiles|
        invariant Scanned(tiles, old(pos), pos, n / 4, fit)
        decreases |tiles| - pos
      {
        AtScan(m, tiles, limit, chunkpp, old(pos), pos, n, fit);
        c := mem[chunkpp];
        if mem[c] >= n {
          return;
        }
        chunkpp := c + 1;
        pos := FirstFree(tiles, pos) + 1;
      }
      AtScan(m, tiles, limit, chunkpp, old(pos), pos, n, fit);
      c := 0;
    }

    /** One scan of the free list, and the end of gcMalloc if it finds a block (alloc.c:330-349). The
        result is the payload of the block, or zero. */
    method TryAllocate(n: nat) returns (payload: nat)
      requires Valid() && n % GRAIN == 0 && n >= GRAIN
      modifies this`heapfree, this`tiles, this`chunkpp, this`pos, mem
      ensures Valid()
      ensures var k, ts := FirstFit(old(tiles), old(pos), n / 4), old(tiles);
              if k < |ts| then
                && payload == ts[k].addr + 1 && payload != 0
                && tiles == Carve(ts, k, n / 4) && heapfree == old(heapfree) - n
                && payload - 1 + n / 4 <= limit && (forall x | payload <= x < payload - 1 + n / 4 :: mem[x] == 0)
                && PayloadsKept(old(mem[..]), mem[..], ts) && NextLink(ts, old(pos), k, pos)
              else
                && payload == 0 && tiles == ts && heapfree == old(heapfree) && mem[..] == old(mem[..])
                && NoFit(tiles, pos, n / 4)
    {
      hide Carve;
      hide ListOk;
      hide FirstFree;
      hide FreeWords;
      hide WorldOk;
      hide PayloadsKept;
      ghost var k := FirstFit(tiles, pos, n / 4);
      InWords(n, if k < |tiles| then tiles[k].size else 0);
      var c := Scan(n);
      if c == 0 {
        return 0;
      }
      ghost var m, ts := mem[..], tiles;
      Take(c, n, k);
      TakeKeeps(m, ts, limit, chunkpp, pos, k, mem[..]);
      payload := c + 1;
    }

    /** By how many bytes to expand: half the heap or what is needed, but not beyond heapmax. */
    method Growth(min: nat) returns (delta: nat)
      requires min % GRAIN == 0 && min >= GRAIN && BASE <= limit < heapmax && limit % 2 == 1 && heapmax % 2 == 1
      ensures GRAIN <= delta && delta % GRAIN == 0 && 4 * limit + delta <= 4 * heapmax
      ensures 4 * limit + delta < 4 * heapmax ==> delta >= min && delta >= 2 * (limit - BASE) - 4
      ensures GrowsBy(limit, heapmax, min, delta)
    {
      delta := 4 * (limit - BASE) / 2;
      if delta < min {
        delta := min;
      }
      ghost var wanted := delta;
      if 4 * limit + delta > 4 * heapmax {
        delta := 4 * heapmax - 4 * limit;
      }
      GrowthAligned(limit, heapmax, min, wanted, delta);
      delta := Align(delta);
    }

    /** The last free chunk; zero if the list is empty. */
    method LastChunk() returns (chunk: nat, ghost q: nat)
      requires Valid()
      ensures if FirstFree(tiles, 0) == |tiles| then chunk == 0
              else 0 < chunk && chunk + 1 < limit && mem[chunk + 1] == 0 && q < |tiles| && Link(tiles, chunk + 1, q + 1)
    {
      hide Tiled;
      hide Linked;
      hide Link;
      hide FirstFree;
      AtHead(mem[..], tiles, limit);
      chunk := mem[0];
      q := FirstFree(tiles, 0);
      if chunk == 0 {
        return;
      }
      while mem[chunk + 1] != 0
        invariant 0 < chunk && chunk + 1 < mem.Length && q < |tiles| && Link(tiles, chunk + 1, q + 1)
        decreases |tiles| - q
      {
        AtLink(mem[..], tiles, limit, chunk + 1, q + 1);
        chunk := mem[chunk + 1];
        q := FirstFree(tiles, q + 1);
      }
      LinkInside(tiles, limit, chunk + 1, q + 1);
    }

    /** Appends the words from heaplimit on as one free chunk (alloc.c:177-211). With an empty free
        list C follows a null pointer: fault. */
    method ExpandHeap(min: nat) returns (fault: bool)
      requires Valid() && min % GRAIN == 0 && min >= GRAIN && limit < heapmax
      modifies this`limit, this`heapfree, this`tiles, mem
      ensures Valid() && PayloadsKept(old(mem[..]), mem[..], old(tiles))
      ensures fault <==> NoneFree(old(tiles))
      ensures fault ==> limit == old(limit) && tiles == old(tiles)
      ensures !fault ==> tiles == old(tiles) + [Tile(old(limit), limit - old(limit), true)] && old(limit) < limit
      ensures !fault ==> GrowsBy(old(limit), heapmax, min, 4 * (limit - old(limit)))
      ensures !fault && limit < heapmax ==>
        4 * (limit - old(limit)) >= min && 2 * (limit - old(limit)) >= old(limit) - BASE - 2
    {
      hide ListOk;
      hide Link;
      hide FirstFree;
      hide FreeWords;
      hide WorldOk;
      hide PayloadsKept;
      hide GrowsBy;
      ghost var ts, m := tiles, mem[..];
      var delta := Growth(min);
      var chunk, q := LastChunk();
      if chunk == 0 {
        PayloadsSame(m, ts);
        return true;
      }
      AppendChunk(delta, chunk, q);
      fault := false;
    }

    /** The free chunk at the end of the list is followed by a new one at heaplimit. */
    method AppendChunk(delta: nat, chunk: nat, ghost q: nat)
      requires Valid() && GRAIN <= delta && delta % GRAIN == 0 && 4 * limit + delta <= 4 * heapmax
      requires 0 < chunk && chunk + 1 < limit && mem[chunk + 1] == 0 && q < |tiles| && Link(tiles, chunk + 1, q + 1)
      modifies this`limit, this`heapfree, this`tiles, mem
      ensures Valid() && PayloadsKept(old(mem[..]), mem[..], old(tiles))
      ensures tiles == old(tiles) + [Tile(old(limit), limit - old(limit), true)] && 4 * (limit - old(limit)) == delta
    {
      hide ListOk;
      hide Link;
      hide FreeWords;
      hide WorldOk;
      hide PayloadsKept;
      ghost var ts, m := tiles, mem[..];
      mem[limit] := delta;
      mem[limit + 1] := 0;
      mem[chunk + 1] := limit;
      Expanded(m, ts, limit, delta, chunk + 1, q + 1, mem[..], chunkpp, pos);
      tiles := ts + [Tile(limit, delta / 4, true)];
      limit := limit + delta / 4;
      heapfree := heapfree + delta;
    }

    /** The blocks as the headers in memory tell them. */
    method Walk() returns (ts: seq<Tile>)
      requires Valid()
      ensures ts == tiles
    {
      hide Link;
      hide FreeWords;
      hide WorldOk;
      hide Tiled;
      hide Linked;
      hide Header;
      ts := [];
      var a := BASE;
      TilesEnd(tiles, limit, 0);
      while a < limit
        invariant |ts| <= |tiles| && ts == tiles[..|ts|] && (a < limit <==> |ts| < |tiles|)
        invariant |ts| < |tiles| ==> a == tiles[|ts|].addr
        decreases |tiles| - |ts|
      {
        HeaderAt(mem[..], tiles, |ts|);
        HeaderTells(tiles[|ts|]);
        TilesEnd(tiles, limit, |ts| + 1);
        ts := ts + [Tile(a, mem[a] / 4, mem[a] % 2 == 0)];
        a := a + mem[a] / 4;
      }
    }

    /** Lays out headers and links for the given blocks; no other word changes. */
    method Install(ts: seq<Tile>, end: int)
      requires Tiled(ts, end) && BASE <= end <= mem.Length && mem.Length > 0
      modifies mem
      ensures Linked(mem[..], ts) && PayloadsKept(old(mem[..]), mem[..], ts)
    {
      hide Tiled;
      hide PayloadsKept;
      hide Linked;
      var k, next := |ts|, 0;
      PayloadsSame(mem[..], ts);
      while k > 0
        invariant 0 <= k <= |ts| && next == NextFree(ts, k)
        invariant forall i: nat | k <= i < |ts| :: TileLinked(mem[..], ts, i)
        invariant PayloadsKept(old(mem[..]), mem[..], ts)
      {
        k := k - 1;
        TileInside(ts, end, k);
        ghost var m := mem[..];
        TileEven(ts, end, k);
        mem[ts[k].addr] := Header(ts[k]);
        if ts[k].free {
          mem[ts[k].addr + 1] := next;
          next := ts[k].addr;
        }
        TileLaid(m, ts, end, k, mem[..], old(mem[..]));
      }
      ghost var m := mem[..];
      mem[0] := next;
      assert mem[..] == m[0 := next];
      HeadLaid(m, ts, end, mem[..], old(mem[..]));
    }

    /** The collector runs; the next scan starts at the head of the list. */
    method Gc0(n: nat) returns (largest: nat)
      requires Valid() && n % GRAIN == 0 && n >= GRAIN
      modifies this`tiles, this`heapfree, this`chunkpp, this`pos, this`collections, mem
      ensures Valid() && chunkpp == 0 && pos == 0
      ensures tiles == gc(old(tiles), old(collections)) && collections == old(collections) + 1
      ensures Survives(old(tiles), tiles) && PayloadsKept(old(mem[..]), mem[..], tiles)
      ensures n <= largest <==> !NoFit(tiles, 0, n / 4)
    {
      hide ListOk;
      hide WorldOk;
      hide Tiled;
      hide Linked;
      hide Aligned;
      hide Survives;
      hide PayloadsKept;
      hide FreeWords;
      hide NoFit;
      var before := Walk();
      var after := gc(before, collections);
      CollectorKeeps(gc, others, heapmax, mem[..], before, limit, chunkpp, pos, collections);
      collections := collections + 1;
      Install(after, limit);
      tiles := after;
      heapfree := 4 * FreeWords(after);
      chunkpp, pos := 0, 0;
      ListAtHead(mem[..], after, limit);
      largest := Largest(after);
      LargestFits(after, n);
    }

    /** runFinalizers with the heap lock released: the other threads may leave anything but a broken
        heap. */
    method RunFinalizers() returns (res: bool)
      requires Valid()
      modifies this`tiles, this`heapfree, this`chunkpp, this`pos, this`limit, this`state, this`others, mem
      ensures Valid() && old(limit) <= limit
      ensures if old(others) != [] then |others| < |old(others)|
              else others == [] && tiles == old(tiles) && limit == old(limit) && state == old(state)
                   && pos == old(pos) && mem[..] == old(mem[..])
      ensures res == fin(collections)
    {
      hide ListOk;
      hide WorldOk;
      hide FreeWords;
      hide PayloadsKept;
      hide Tiled;
      hide Linked;
      hide Aligned;
      res := fin(collections);
      if others != [] {
        var before := Walk();
        var w := others[0](before, limit);
        OtherKeeps(gc, others, mem[..], before, limit, chunkpp, pos, heapbase, heapmax);
        others := others[1..];
        Install(w.tiles, w.limit);
        tiles, pos, limit, state := w.tiles, w.pos, w.limit, w.state;
        heapfree := 4 * FreeWords(w.tiles);
        chunkpp := LinkTo(w.tiles, w.pos);
        WindowList(mem[..], w, limit, heapmax);
      }
    }

    /** Case 1: finalisers run while the lock is released, and then perhaps the collector once more. */
    method Finalise(n: nat) returns (ghost sure: bool)
      requires Valid() && n % GRAIN == 0 && n >= GRAIN && state == 1
      modifies this, mem
      ensures Valid() && old(limit) <= limit
      ensures sure ==> !NoFit(tiles, pos, n / 4)
      ensures old(others) != [] ==> |others| < |old(others)|
      ensures old(others) == [] ==>
        && others == [] && limit == old(limit) && state == (if sure then 0 else 2)
        && Survives(old(tiles), tiles) && PayloadsKept(old(mem[..]), mem[..], tiles)
        && tiles == Left(gc, fin, 1, old(tiles), old(collections))
        && (sure <==> !Futile(gc, fin, 1, old(tiles), old(collections), n / 4))
        && (!sure ==> NoFit(tiles, pos, n / 4) || (tiles == old(tiles) && pos == old(pos)))
    {
      hide ListOk;
      hide FreeWords;
      hide WorldOk;
      hide Survives;
      hide PayloadsKept;
      hide FirstFit;
      hide FirstFree;
      hide NoFit;
      sure := false;
      ghost var ts, m := tiles, mem[..];
      KeptSame(m, ts);
      var res := RunFinalizers();
      if state == 1 {
        if res {
          var largest := Gc0(n);
          if n <= largest {
            state := 0;
            sure := true;
            return;
          }
        }
        state := 2;
      }
    }

    /** No chunk was found: what gcMalloc's switch does next (alloc.c:263-326). */
    method AllocFailed(n: nat) returns (r: Option<Result>, ghost sure: bool)
      requires Valid() && n % GRAIN == 0 && n >= GRAIN
      modifies this, mem
      ensures Valid() && old(limit) <= limit
      ensures sure ==> r.None? && !NoFit(tiles, pos, n / 4)
      // if it goes on scanning: other threads have acted, or the heap has grown, or the scan will
      // succeed, or the state has advanced
      ensures r.None? ==>
        || |others| < |old(others)|
        || (others == old(others)
            && (limit > old(limit) || (limit == old(limit) && (sure || (old(state) < state <= 2)))))
      ensures old(others) == [] ==>
        others == [] && Survives(old(tiles), tiles) && PayloadsKept(old(mem[..]), mem[..], tiles)
      // collections, which end in state 2 exactly if they make no room
      ensures old(others) == [] && old(state) <= 1 ==>
        && r.None? && limit == old(limit)
        && (sure <==> !Futile(gc, fin, old(state), old(tiles), old(collections), n / 4))
        && (!sure ==> state == 2 && tiles == Left(gc, fin, old(state), old(tiles), old(collections))
                      && (NoFit(tiles, pos, n / 4) || (tiles == old(tiles) && pos == old(pos))))
        && (old(state) == 0 && !sure ==> NoFit(tiles, 0, n / 4))
      // expansion: with an empty free list it faults; if heapmax does not cut it short, the next scan succeeds
      ensures old(state) == 2 && old(limit) < heapmax ==>
        && (r == Some(Fault) <==> NoneFree(old(tiles)))
        && (r.None? ==> state == 0 && limit > old(limit) && (sure || limit == heapmax))
        && (r.Some? ==> r == Some(Fault) && limit == old(limit) && tiles == old(tiles))
      // the end: whatever is free before chunkpp, or would be after a collection
      ensures old(state) == 2 && old(limit) == heapmax ==> r == Some(OutOfMemory(false)) && state == 3 && pos == 0
      ensures old(state) == 3 ==> r == Some(OutOfMemory(true)) && state == 0
      ensures old(state) == 3 || (old(state) == 2 && old(limit) == heapmax) ==>
        limit == heapmax && tiles == old(tiles) && mem[..] == old(mem[..])
      ensures old(state) <= 1 ==> r.None?
    {
      hide ListOk;
      hide FreeWords;
      hide WorldOk;
      hide Survives;
      hide PayloadsKept;
      hide FirstFit;
      hide FirstFree;
      hide NoFit;
      r, sure := None, false;
      ghost var ts, m := tiles, mem[..];
      KeptSame(m, ts);
      if state == 0 || state == 1 {
        if state == 0 {
          var largest := Gc0(n);
          if n <= largest {
            sure := true;
            return;
          }
          state := 1;
        }
        ghost var ts1, m1 := tiles, mem[..];
        sure := Finalise(n);
        KeptTwice(m, m1, mem[..], ts, ts1, tiles);
      } else if state == 2 {
        if limit < heapmax {
          var fault := ExpandHeap(n);
          KeptMore(m, mem[..], ts, tiles);
          if fault {
            return Some(Fault), false;
          }
          sure := limit < heapmax;
          FitAtEnd(tiles, pos, n / 4);
          state := 0;
        } else {
          state := 3;
          HeadLink(mem[..], tiles, limit, chunkpp, pos);
          chunkpp, pos := 0, 0;
          return Some(OutOfMemory(false)), false;
        }
      } else {
        state := 0;
        return Some(OutOfMemory(true)), false;
      }
    }

    /** gcMalloc (alloc.c:214-349). */
    method GcMalloc(len: nat) returns (r: Result, ghost at: nat)
      requires Valid()
      modifies this, mem
      ensures Valid() && old(limit) <= limit
      // the block is its caller's own, aligned, large enough, and cleared
      ensures r.Block? ==>
        && at < |tiles| && tiles[at] == Tile(r.payload - 1, Request(len) / 4, false)
        && Address(r.payload) % 8 == 0 && 4 * (tiles[at].size - 1) >= len && Cleared(mem[..], tiles[at])
      // next fit, if there is a block
      ensures var k := FirstFit(old(tiles), old(pos), Request(len) / 4);
              k < |old(tiles)| ==>
                && r.Block? && at == k && tiles == Carve(old(tiles), k, Request(len) / 4)
                && heapfree == old(heapfree) - Request(len)
                && NextLink(old(tiles), old(pos), k, pos)
                && state == old(state) && limit == old(limit)
                && others == old(others) && collections == old(collections)
      // no block moves or changes, but for those the collector frees
      ensures old(others) == [] ==>
        && others == []
        && forall k: nat | k < |tiles| && !tiles[k].free && !(r.Block? && k == at) ::
             tiles[k] in old(tiles) && SamePayload(old(mem[..]), mem[..], tiles[k])
      // at its full size the heap fails exactly if nothing from chunkpp on fits and, in states 0 and 1
      // only, no collection makes room
      ensures old(others) == [] && old(limit) == heapmax ==>
        (r.OutOfMemory? <==> NoFit(old(tiles), old(pos), Request(len) / 4)
                             && Futile(gc, fin, old(state), old(tiles), old(collections), Request(len) / 4))
      ensures old(state) == 3 ==>
        && (r.OutOfMemory? <==> NoFit(old(tiles), old(pos), Request(len) / 4))
        && (r.OutOfMemory? ==> r.prepared && tiles == old(tiles))
      ensures old(others) == [] && old(state) == 0 && r.OutOfMemory? ==> NoFit(tiles, 0, Request(len) / 4)
      ensures r.OutOfMemory? ==> limit == heapmax && state == (if r.prepared then 0 else 3)
      ensures old(others) == [] && r.OutOfMemory? ==> (r.prepared <==> old(state) == 3)
      ensures old(others) == [] && old(limit) == heapmax && r == OutOfMemory(false) ==>
        pos == 0 && tiles == Left(gc, fin, old(state), old(tiles), old(collections))
      // the null pointer in expandHeap
      ensures old(others) == [] ==>
        (r.Fault? <==> old(limit) < heapmax && NoFit(old(tiles), old(pos), Request(len) / 4)
                       && Futile(gc, fin, old(state), old(tiles), old(collections), Request(len) / 4)
                       && NoneFree(Left(gc, fin, old(state), old(tiles), old(collections))))
      ensures r.Fault? ==> NoneFree(tiles) && limit < heapmax
    {
      hide ListOk;
      hide FreeWords;
      hide WorldOk;
      hide Survives;
      hide PayloadsKept;
      hide FirstFit;
      hide FirstFree;
      hide Carve;
      hide Left;
      hide Futile;
      hide NextLink;
      hide Aligned;
      hide NoneFree;
      hide Cleared;
      hide SamePayload;
      var n := Request(len);
      ghost var sure, first := false, true;
      ghost var m0, ts0 := mem[..], tiles;
      ghost var futile, left := Futile(gc, fin, state, ts0, collections, n / 4), Left(gc, fin, state, ts0, collections);
      KeptSame(m0, ts0);
      NoCollection(gc, fin, state, ts0, collections, n / 4);
      while true
        invariant Valid() && old(limit) <= limit
        invariant first ==> tiles == ts0 && pos == old(pos) && heapfree == old(heapfree) && state == old(state)
                            && limit == old(limit) && others == old(others) && collections == old(collections) && !sure
        invariant !first ==> NoFit(ts0, old(pos), n / 4) && old(state) != 3
        invariant sure ==> !NoFit(tiles, pos, n / 4)
        invariant old(others) == [] ==> others == [] && Survives(ts0, tiles) && PayloadsKept(m0, mem[..], tiles)
        invariant old(others) == [] && !first && limit == old(limit) ==>
          && (sure <==> !futile) && (!sure ==> state == 2 && tiles == left && NoFit(tiles, pos, n / 4))
        invariant old(others) == [] && limit > old(limit) ==>
            !first && futile && (sure || limit == heapmax) && !NoneFree(left)
        invariant old(others) == [] && limit > old(limit) && !sure ==> state != 3
        invariant old(others) == [] && old(state) == 0 ==>
          state == 0 || sure || (state == 2 && NoFit(tiles, 0, n / 4))
        decreases |others|, heapmax - limit, if sure then 0 else 1, 3 - state
      {
        ghost var ts, m, k := tiles, mem[..], FirstFit(tiles, pos, n / 4);
        ghost var p, from := chunkpp, pos;
        var payload := TryAllocate(n);
        if payload != 0 {
          at := k;
          CarvedTile(ts, limit, k, n, mem[..], heapbase, heapmax, m, p, from);
          KeptButOne(m0, m, mem[..], ts0, ts, k, n / 4);
          return Block(payload), at;
        }
        first := false;
        var outcome;
        outcome, sure := AllocFailed(n);
        KeptTwice(m0, m, mem[..], ts0, ts, tiles);
        if outcome.Some? {
          KeptEach(m0, mem[..], ts0, tiles);
          return outcome.value, 0;
        }
      }
    }
  }

  /** From state 2 on nothing is collected. */
  lemma NoCollection(gc: Collector, fin: Finalisers, state: nat, ts: seq<Tile>, c: nat, n: int)
    ensures state >= 2 ==> Futile(gc, fin, state, ts, c, n) && Left(gc, fin, state, ts, c) == ts
  {
  }

  predicate NoneFree(ts: seq<Tile>) { FirstFree(ts, 0) == |ts| }

  /** The size in bytes, header included, of the block for a request of len bytes. */
  function Request(len: nat): (n: nat)
    // the least multiple of 8 with room for the header
    ensures n % 8 == 0 && n >= 8 && len + 4 <= n < len + 12
  {
    Align(len + 4 + GRAIN - 1)
  }

  predicate Cleared(m: seq<int>, t: Tile) {
    forall x {:trigger m[x]} | t.addr < x < t.addr + t.size :: 0 <= x < |m| && m[x] == 0
  }

  predicate SamePayload(m: seq<int>, m': seq<int>, t: Tile) {
    |m| == |m'| && forall x {:trigger m'[x]} | t.addr < x < t.addr + t.size && 0 <= x < |m| :: m'[x] == m[x]
  }

  lemma CarvedTile(ts: seq<Tile>, limit: int, k: nat, n: nat, m: seq<int>, heapbase: int, heapmax: int,
      m0: seq<int>, p: int, pos: nat)
    requires ListOk(m0, ts, limit, p, pos) && k < |ts| && n % GRAIN == 0
    requires n >= GRAIN && Aligned(heapbase, limit, heapmax)
    requires limit <= |m| && ts[k].addr + n / 4 <= limit && ts[k].addr >= 0
    requires forall x | ts[k].addr + 1 <= x < ts[k].addr + n / 4 :: m[x] == 0
    ensures k < |Carve(ts, k, n / 4)| && Carve(ts, k, n / 4)[k] == Tile(ts[k].addr, n / 4, false)
    ensures (heapbase + 4 * (ts[k].addr + 1 - BASE)) % GRAIN == 0 && 4 * (n / 4 - 1) == n - 4
    ensures Cleared(m, Carve(ts, k, n / 4)[k])
  {
    assert Follows(ts, k);
    TileInside(ts, limit, k);
    hide ListOk;
    PayloadAligned(heapbase, ts[k].addr, n);
  }

  lemma PayloadAligned(heapbase: int, addr: int, n: nat)
    requires heapbase % GRAIN == 4 && addr % 2 == 1 && n % GRAIN == 0
    ensures (heapbase + 4 * (addr + 1 - BASE)) % GRAIN == 0 && 4 * (n / 4 - 1) == n - 4
  {
    var h, a, g := heapbase / GRAIN, addr / 2, n / GRAIN;
    assert heapbase + 4 * (addr + 1 - BASE) == GRAIN * (h + a + 1);
    Grains(0, g, 0);
  }

  lemma KeptEach(m: seq<int>, m': seq<int>, ts: seq<Tile>, ts': seq<Tile>)
    ensures Survives(ts, ts') && PayloadsKept(m, m', ts') ==>
      forall k: nat | k < |ts'| && !ts'[k].free :: ts'[k] in ts && SamePayload(m, m', ts'[k])
  {
  }

  /** After block k has been carved every other allocated block is as it was. */
  lemma KeptButOne(m0: seq<int>, m1: seq<int>, m2: seq<int>, ts0: seq<Tile>, ts: seq<Tile>, k: nat, n: int)
    requires k < |ts| && PayloadsKept(m1, m2, ts)
    ensures Survives(ts0, ts) && PayloadsKept(m0, m1, ts) ==>
      forall j: nat | j < |Carve(ts, k, n)| && !Carve(ts, k, n)[j].free && j != k ::
        Carve(ts, k, n)[j] in ts0 && SamePayload(m0, m2, Carve(ts, k, n)[j])
  {
    if Survives(ts0, ts) && PayloadsKept(m0, m1, ts) {
      var ts' := Carve(ts, k, n);
      AfterCarve(ts, k, n);
      forall j: nat | j < |ts'| && !ts'[j].free && j != k ensures ts'[j] in ts0 && SamePayload(m0, m2, ts'[j]) {
        var i: nat := if j < k then j else j - (|ts'| - |ts|);
        assert ts'[j] == ts[i];
        assert PayloadsKept(m0, m1, ts) && PayloadsKept(m1, m2, ts);
        forall x | ts[i].addr < x < ts[i].addr + ts[i].size && 0 <= x < |m0| ensures m2[x] == m0[x] {
          assert m1[x] == m0[x];
        }
      }
    }
  }

  lemma HeadLink(m: seq<int>, ts: seq<Tile>, limit: int, p: int, pos: nat)
    requires ListOk(m, ts, limit, p, pos)
    ensures ListOk(m, ts, limit, 0, 0)
  {
  }

  lemma FitAtEnd(ts: seq<Tile>, pos: nat, n: int)
    requires pos < |ts|
    ensures ts[|ts| - 1].free && ts[|ts| - 1].size >= n ==> !NoFit(ts, pos, n)
  {
  }

  lemma KeptSame(m: seq<int>, ts: seq<Tile>)
    ensures PayloadsKept(m, m, ts) && Survives(ts, ts)
  {
  }

  lemma KeptTwice(m0: seq<int>, m1: seq<int>, m2: seq<int>, ts0: seq<Tile>, ts1: seq<Tile>, ts2: seq<Tile>)
    ensures Survives(ts0, ts1) && PayloadsKept(m0, m1, ts1) && Survives(ts1, ts2) && PayloadsKept(m1, m2, ts2) ==>
              Survives(ts0, ts2) && PayloadsKept(m0, m2, ts2)
  {
    if Survives(ts0, ts1) && PayloadsKept(m0, m1, ts1) && Survives(ts1, ts2) && PayloadsKept(m1, m2, ts2) {
      forall j, x | 0 <= j < |ts2| && !ts2[j].free && ts2[j].addr < x < ts2[j].addr + ts2[j].size && 0 <= x < |m0|
        ensures m2[x] == m0[x]
      {
        var i :| 0 <= i < |ts1| && ts1[i] == ts2[j];
        assert m1[x] == m0[x];
      }
    }
  }

  /** A free chunk may be added. */
  lemma KeptMore(m: seq<int>, m': seq<int>, ts: seq<Tile>, ts': seq<Tile>)
    requires PayloadsKept(m, m', ts)
    requires ts' == ts || exists t: Tile :: t.free && ts' == ts + [t]
    ensures Survives(ts, ts') && PayloadsKept(m, m', ts')
  {
  }

  lemma CollectorKeeps(gc: Collector, others: seq<Other>, heapmax: int, m: seq<int>, ts: seq<Tile>, limit: int,
      p: int, pos: nat, n: nat)
    requires WorldOk(gc, others, heapmax) && ListOk(m, ts, limit, p, pos)
    ensures Tiled(gc(ts, n), limit) && Survives(ts, gc(ts, n))
  {
    hide Linked;
    hide OtherOk;
    hide Survives;
  }

  lemma ListAtHead(m: seq<int>, ts: seq<Tile>, limit: int)
    requires Linked(m, ts) && Tiled(ts, limit) && BASE <= limit <= |m|
    ensures ListOk(m, ts, limit, 0, 0)
  {
    hide Linked;
    hide Tiled;
  }

  lemma OtherKeeps(gc: Collector, others: seq<Other>, m: seq<int>, ts: seq<Tile>, limit: int, p: int, pos: nat,
      heapbase: int, heapmax: int)
    requires WorldOk(gc, others, heapmax) && others != [] && ListOk(m, ts, limit, p, pos) && limit <= heapmax
    requires Aligned(heapbase, limit, heapmax)
    ensures WorldOk(gc, others[1..], heapmax)
    ensures var w := others[0](ts, limit);
            && WindowOk(w, limit, heapmax) && Tiled(w.tiles, w.limit) && limit <= w.limit <= heapmax && w.state <= 3
            && w.pos <= |w.tiles| && (w.state == 3 ==> w.limit == heapmax) && Aligned(heapbase, w.limit, heapmax)
            && (w.pos > 0 ==> w.tiles[w.pos - 1].addr >= 0)
  {
    var o := others[0];
    var w := o(ts, limit);
    assert OtherOk(o, heapmax) && WindowOk(w, limit, heapmax);
    if w.pos > 0 {
      TileEven(w.tiles, w.limit, w.pos - 1);
    }
    hide OtherOk;
    hide Tiled;
    hide CollectorOk;
  }

  /** The address of the link after index pos. */
  function LinkTo(ts: seq<Tile>, pos: nat): nat
    requires pos <= |ts| && (pos > 0 ==> ts[pos - 1].addr >= 0)
  {
    if pos == 0 then 0 else ts[pos - 1].addr + 1
  }

  lemma WindowList(m: seq<int>, w: Window, limit: int, heapmax: int)
    requires Linked(m, w.tiles) && Tiled(w.tiles, w.limit) && BASE <= w.limit <= |m|
    requires w.pos <= |w.tiles| && (w.pos > 0 ==> w.tiles[w.pos - 1].free && w.tiles[w.pos - 1].addr >= 0)
    ensures ListOk(m, w.tiles, w.limit, LinkTo(w.tiles, w.pos), w.pos)
  {
    hide Linked;
    hide Tiled;
  }

  /** The size in bytes of the largest free block. */
  function Largest(ts: seq<Tile>): nat {
    if ts == [] then 0
    else
      var rest, t := Largest(ts[1..]), ts[0];
      if t.free && 4 * t.size > rest then 4 * t.size else rest
  }

  lemma {:induction false} LargestFits(ts: seq<Tile>, n: nat)
    requires n % GRAIN == 0 && n >= GRAIN
    ensures n <= Largest(ts) <==> !NoFit(ts, 0, n / 4)
  {
    if ts != [] {
      LargestFits(ts[1..], n);
      FitInTail(ts, n / 4);
      InWords(n, ts[0].size);
      hide FirstFit;
    }
  }

  lemma FitInTail(ts: seq<Tile>, n: int)
    requires ts != []
    ensures FirstFit(ts, 0, n) < |ts| <==> (ts[0].free && ts[0].size >= n) || FirstFit(ts[1..], 0, n) < |ts[1..]|
  {
    var i, k := FirstFit(ts, 0, n), FirstFit(ts[1..], 0, n);
    if 0 < i < |ts| {
      assert ts[1..][i - 1] == ts[i];
    }
    if k < |ts| - 1 {
      assert ts[1..][k] == ts[k + 1];
    }
  }

  lemma TileEven(ts: seq<Tile>, limit: int, k: nat)
    requires Tiled(ts, limit) && k < |ts|
    ensures ts[k].size >= 2 && ts[k].addr >= BASE
  {
    assert Follows(ts, k);
    TileInside(ts, limit, k);
  }

  /** Where block k begins, or the heap ends. */
  lemma TilesEnd(ts: seq<Tile>, limit: int, k: nat)
    requires Tiled(ts, limit) && k <= |ts|
    ensures k < |ts| ==> ts[k].addr == (if k == 0 then BASE else ts[k - 1].addr + ts[k - 1].size) && ts[k].addr < limit
    ensures k == |ts| ==> limit == if k == 0 then BASE else ts[k - 1].addr + ts[k - 1].size
  {
    if k < |ts| {
      assert Follows(ts, k);
      TileInside(ts, limit, k);
    }
  }

  lemma TileLaid(m: seq<int>, ts: seq<Tile>, limit: int, k: nat, m': seq<int>, m0: seq<int>)
    requires Tiled(ts, limit) && k < |ts| && |m'| == |m| && BASE <= limit <= |m| && PayloadsKept(m0, m, ts)
    requires 0 <= ts[k].addr && ts[k].addr + 1 < |m| && m'[ts[k].addr] == Header(ts[k])
    requires ts[k].free ==> m'[ts[k].addr + 1] == NextFree(ts, k + 1)
    requires forall x {:trigger m'[x]} | 0 <= x < |m| && x != ts[k].addr && !(ts[k].free && x == ts[k].addr + 1) ::
        m'[x] == m[x]
    requires forall i: nat | k < i < |ts| :: TileLinked(m, ts, i)
    ensures forall i: nat | k <= i < |ts| :: TileLinked(m', ts, i)
    ensures PayloadsKept(m0, m', ts)
  {
    TileEven(ts, limit, k);
    forall i: nat | k < i < |ts| ensures TileLinked(m', ts, i) {
      TilesApart(ts, limit, k, i);
      assert TileLinked(m, ts, i);
    }
    forall j, x | 0 <= j < |ts| && !ts[j].free && ts[j].addr < x < ts[j].addr + ts[j].size && 0 <= x < |m|
      ensures m'[x] == m0[x]
    {
      assert m0[x] == m[x];
      if j != k {
        OtherTile(ts, limit, j, k, x);
      }
    }
  }

  lemma HeadLaid(m: seq<int>, ts: seq<Tile>, limit: int, m': seq<int>, m0: seq<int>)
    requires Tiled(ts, limit) && |m'| == |m| && 0 < |m| && PayloadsKept(m0, m, ts) && m' == m[0 := NextFree(ts, 0)]
    requires forall i: nat | i < |ts| :: TileLinked(m, ts, i)
    ensures Linked(m', ts) && PayloadsKept(m0, m', ts)
  {
    HeadKept(m, ts, limit, m'[0], m0);
    hide PayloadsKept;
    hide Tiled;
    hide NextFree;
    forall i: nat | i < |ts| ensures TileLinked(m', ts, i) {
      assert TileLinked(m, ts, i);
    }
    LinkedFrom(m', ts);
  }

  lemma HeadKept(m: seq<int>, ts: seq<Tile>, limit: int, v: int, m0: seq<int>)
    requires Tiled(ts, limit) && 0 < |m| && PayloadsKept(m0, m, ts)
    ensures PayloadsKept(m0, m[0 := v], ts)
  {
    forall j: nat | j < |ts| ensures ts[j].addr >= BASE {
      TileInside(ts, limit, j);
    }
    hide Tiled;
  }

  lemma AtHead(m: seq<int>, ts: seq<Tile>, limit: int)
    requires Tiled(ts, limit) && Linked(m, ts) && BASE <= limit <= |m|
    ensures |m| > 0
    ensures var k := FirstFree(ts, 0);
            if m[0] == 0 then k == |ts|
            else k < |ts| && m[0] == ts[k].addr && 0 < m[0] && m[0] + 1 < |m| && Link(ts, m[0] + 1, k + 1)
  {
    AtLink(m, ts, limit, 0, 0);
  }

  lemma PayloadsSame(m: seq<int>, ts: seq<Tile>)
    ensures PayloadsKept(m, m, ts)
  {
  }

  /** Memory m' is m with a free chunk of `size` words at limit, linked from the last link p. */
  ghost predicate Appends(m: seq<int>, ts: seq<Tile>, limit: int, size: int, p: nat, pos: nat, m': seq<int>) {
    && Tiled(ts, limit) && Linked(m, ts) && Link(ts, p, pos) && 0 < pos && BASE <= limit && limit % 2 == 1
    && p < |m| && m[p] == 0 && size >= 2 && size % 2 == 0 && limit + size <= |m| && |m'| == |m|
    && m'[p] == limit && m'[limit] == 4 * size && m'[limit + 1] == 0
    && (forall x {:trigger m'[x]} | 0 <= x < |m| && x != p && x != limit && x != limit + 1 :: m'[x] == m[x])
  }

  lemma AppendedTile(m: seq<int>, ts: seq<Tile>, limit: int, size: int, p: nat, pos: nat, m': seq<int>, i: nat)
    requires Appends(m, ts, limit, size, p, pos, m') && i < |ts|
    ensures TileLinked(m', ts + [Tile(limit, size, true)], i)
  {
    TileInside(ts, limit, i);
    TileInside(ts, limit, pos - 1);
    assert Follows(ts, i) && Follows(ts, pos - 1);
    NextAfterAppend(ts, Tile(limit, size, true), i + 1);
    var next, last := FirstFree(ts, i + 1), FirstFree(ts, pos);
    if i < pos - 1 {
      TilesApart(ts, limit, i, pos - 1);
      assert next <= pos - 1;
    } else if pos - 1 < i {
      TilesApart(ts, limit, pos - 1, i);
    }
    hide Tiled;
    hide NextFree;
    hide FirstFree;
  }

  lemma AppendedPayloads(m: seq<int>, ts: seq<Tile>, limit: int, size: int, p: nat, pos: nat, m': seq<int>)
    requires Appends(m, ts, limit, size, p, pos, m')
    ensures PayloadsKept(m, m', ts)
  {
    forall j, x | 0 <= j < |ts| && !ts[j].free && ts[j].addr < x < ts[j].addr + ts[j].size && 0 <= x < |m|
      ensures m'[x] == m[x]
    {
      TileInside(ts, limit, j);
      OtherTile(ts, limit, j, pos - 1, x);
      assert Follows(ts, pos - 1);
    }
  }

  /** The new chunk goes to the end of the list, behind the last free chunk. */
  lemma AppendLinked(m: seq<int>, ts: seq<Tile>, limit: int, size: int, p: nat, pos: nat, m': seq<int>, p0: nat,
      pos0: nat)
    requires Appends(m, ts, limit, size, p, pos, m') && Link(ts, p0, pos0)
    ensures var ts' := ts + [Tile(limit, size, true)];
            && Tiled(ts', limit + size) && Linked(m', ts') && Link(ts', p0, pos0)
            && FreeWords(ts') == FreeWords(ts) + size && PayloadsKept(m, m', ts)
  {
    var t := Tile(limit, size, true);
    var ts' := ts + [t];
    AppendFreeWords(ts, t);
    AppendedPayloads(m, ts, limit, size, p, pos, m');
    forall i: nat | i < |ts'| ensures Follows(ts', i) {
      if i < |ts| {
        assert Follows(ts, i);
      }
    }
    TileInside(ts, limit, pos - 1);
    NextAfterAppend(ts, t, 0);
    assert ts[pos - 1].free && FirstFree(ts, 0) <= pos - 1;
    forall i: nat | i < |ts'| ensures TileLinked(m', ts', i) {
      if i < |ts| {
        AppendedTile(m, ts, limit, size, p, pos, m', i);
      }
    }
    assert m'[0] == m[0];
    hide Tiled;
    hide Follows;
    hide FreeWords;
    hide PayloadsKept;
    LinkedFrom(m', ts');
  }

  lemma Expanded(m: seq<int>, ts: seq<Tile>, limit: int, delta: nat, p: nat, pos: nat, m': seq<int>, p0: nat, pos0: nat)
    requires ListOk(m, ts, limit, p0, pos0) && Link(ts, p, pos) && 0 < pos && limit % 2 == 1 && p < limit && m[p] == 0
    requires GRAIN <= delta && delta % GRAIN == 0 && 4 * limit + delta <= 4 * |m|
    requires m' == m[limit := delta][limit + 1 := 0][p := limit]
    ensures var ts' := ts + [Tile(limit, delta / 4, true)];
            && ListOk(m', ts', limit + delta / 4, p0, pos0) && 4 * (delta / 4) == delta && delta / 4 % 2 == 0
            && FreeWords(ts') == FreeWords(ts) + delta / 4 && PayloadsKept(m, m', ts)
  {
    hide Tiled;
    hide Linked;
    hide FreeWords;
    hide PayloadsKept;
    var w := delta / 4;
    assert delta == 4 * w && w % 2 == 0;
    assert Appends(m, ts, limit, w, p, pos, m') by {
      hide Link;
    }
    hide Appends;
    AppendLinked(m, ts, limit, w, p, pos, m', p0, pos0);
  }

  /** Block k and the link to it are free memory. */
  lemma TakeKeeps(m: seq<int>, ts: seq<Tile>, limit: int, p: nat, pos: nat, k: nat, m': seq<int>)
    requires ListOk(m, ts, limit, p, pos) && k < |ts| && ts[k].free && |m'| == |m|
    requires forall x | 0 <= x < |m| && x != p && !(ts[k].addr <= x < ts[k].addr + ts[k].size) :: m'[x] == m[x]
    ensures PayloadsKept(m, m', ts)
  {
    forall j, x | 0 <= j < |ts| && !ts[j].free && ts[j].addr < x < ts[j].addr + ts[j].size && 0 <= x < |m|
      ensures m'[x] == m[x]
    {
      OtherTile(ts, limit, j, k, x);
      if pos > 0 {
        OtherTile(ts, limit, j, pos - 1, x);
        assert Follows(ts, pos - 1);
      } else {
        TileInside(ts, limit, j);
      }
    }
  }

  lemma OtherTile(ts: seq<Tile>, limit: int, j: nat, k: nat, x: int)
    requires Tiled(ts, limit) && j < |ts| && k < |ts| && j != k && ts[j].addr <= x < ts[j].addr + ts[j].size
    ensures !(ts[k].addr <= x < ts[k].addr + ts[k].size)
  {
    if j < k {
      TilesApart(ts, limit, j, k);
    } else {
      TilesApart(ts, limit, k, j);
    }
  }

  lemma FitAt(ts: seq<Tile>, pos: nat, k: nat, n: nat)
    requires pos <= k < |ts| && k == FirstFree(ts, pos) && n % GRAIN == 0
    ensures FirstFit(ts, pos, n / 4) == if 4 * ts[k].size >= n then k else FirstFit(ts, k + 1, n / 4)
  {
    var w := n / 4;
    InWords(n, ts[k].size);
    SkipFit(ts, pos, k, w);
    assert FirstFit(ts, k, w) == if ts[k].size >= w then k else FirstFit(ts, k + 1, w);
    hide FirstFit;
  }

  /** A scan that started at link `from` and will stop at block fit has come to link pos. */
  predicate Scanned(ts: seq<Tile>, from: nat, pos: nat, w: int, fit: nat) {
    from <= pos <= |ts| && (pos == from || ts[pos - 1].free) && FirstFit(ts, pos, w) == fit
  }

  lemma AtStart(m: seq<int>, ts: seq<Tile>, limit: int, p: nat, pos: nat, w: int)
    requires ListOk(m, ts, limit, p, pos)
    ensures p < |m| && Scanned(ts, pos, pos, w, FirstFit(ts, pos, w))
  {
    LinkInside(ts, limit, p, pos);
  }

  /** What the scan sees at a link. */
  lemma AtScan(m: seq<int>, ts: seq<Tile>, limit: int, p: nat, from: nat, pos: nat, n: nat, fit: nat)
    requires ListOk(m, ts, limit, p, pos) && n % GRAIN == 0 && Scanned(ts, from, pos, n / 4, fit)
    ensures p < |m| && pos <= |ts|
    ensures m[p] == 0 ==> NoFit(ts, pos, n / 4) && fit == |ts|
    ensures m[p] != 0 ==>
      var k := FirstFree(ts, pos);
      && k < |ts| && m[p] == ts[k].addr && 0 < m[p] && m[p] + 1 < |m| && pos <= k
      && if m[m[p]] >= n then fit == k && NextLink(ts, from, k, pos)
         else ListOk(m, ts, limit, m[p] + 1, k + 1) && Scanned(ts, from, k + 1, n / 4, fit)
  {
    hide Tiled;
    hide Linked;
    hide Link;
    hide FirstFree;
    hide FirstFit;
    AtLink(m, ts, limit, p, pos);
    var k := FirstFree(ts, pos);
    if m[p] == 0 {
      SkipFit(ts, pos, |ts|, n / 4);
    } else {
      FitAt(ts, pos, k, n);
    }
  }

  lemma InWords(n: nat, size: int)
    requires n % GRAIN == 0
    ensures 4 * size >= n <==> size >= n / 4
  {
    var w := n / 4;
    assert n == 4 * w;
  }

  predicate PayloadsKept(m: seq<int>, m': seq<int>, ts: seq<Tile>) {
    |m'| == |m| &&
    forall k, x {:trigger ts[k], m'[x]} |
        0 <= k < |ts| && !ts[k].free && ts[k].addr < x < ts[k].addr + ts[k].size && 0 <= x < |m| ::
      m'[x] == m[x]
  }

  /** What chunkpp points at. */
  lemma AtLink(m: seq<int>, ts: seq<Tile>, limit: int, p: nat, pos: nat)
    requires Tiled(ts, limit) && Linked(m, ts) && Link(ts, p, pos) && BASE <= limit <= |m|
    ensures p < |m|
    ensures var k := FirstFree(ts, pos);
            if m[p] == 0 then k == |ts|
            else
              && k < |ts| && m[p] == ts[k].addr && 0 < m[p] && m[p] + 1 < |m| && m[m[p]] == 4 * ts[k].size
              && Link(ts, m[p] + 1, k + 1)
  {
    LinkInside(ts, limit, p, pos);
    var k := FirstFree(ts, pos);
    if k < |ts| {
      TileInside(ts, limit, k);
    }
    hide Tiled;
  }

  lemma {:induction false} SkipFit(ts: seq<Tile>, j: nat, i: nat, n: int)
    requires j <= i <= |ts| && forall q | j <= q < i :: !(ts[q].free && ts[q].size >= n)
    ensures FirstFit(ts, j, n) == FirstFit(ts, i, n)
    decreases i - j
  {
    if j < i {
      SkipFit(ts, j + 1, i, n);
    }
  }

  lemma TakeBounds(m: seq<int>, ts: seq<Tile>, limit: int, p: nat, pos: nat, k: nat, n: nat)
    requires ListOk(m, ts, limit, p, pos) && k < |ts| && k == FirstFree(ts, pos)
    requires n % GRAIN == 0 && GRAIN <= n <= 4 * ts[k].size
    ensures var t := ts[k];
            && BASE <= t.addr && t.addr + t.size <= limit && p < t.addr && t.addr % 2 == 1 && p % 2 == 0
            && 2 <= n / 4 <= t.size && n / 4 * 4 == n && n / 4 % 2 == 0
            && (n != 4 * t.size ==> n / 4 + 2 <= t.size) && t.free && m[t.addr] == 4 * t.size
  {
    TileInside(ts, limit, k);
    assert Follows(ts, k);
    if pos > 0 {
      TilesApart(ts, limit, pos - 1, k);
      assert Follows(ts, pos - 1);
    }
  }

  /** Unlinking and clearing, taken together. */
  lemma TakeCarves(m: seq<int>, ts: seq<Tile>, limit: int, p: nat, pos: nat, k: nat, n: nat, m1: seq<int>, m2: seq<int>)
    requires ListOk(m, ts, limit, p, pos) && k < |ts| && k == FirstFree(ts, pos)
    requires n % GRAIN == 0 && GRAIN <= n <= 4 * ts[k].size
    requires |m1| == |m| == |m2| && p < ts[k].addr && 0 < ts[k].addr && ts[k].addr + ts[k].size <= |m|
    requires m1[ts[k].addr] == n + 1 && 2 <= n / 4 <= ts[k].size && (n != 4 * ts[k].size ==> n / 4 + 2 <= ts[k].size)
    requires n == 4 * ts[k].size ==> m1[p] == m[ts[k].addr + 1]
    requires n != 4 * ts[k].size ==>
      m1[p] == ts[k].addr + n / 4 && m1[ts[k].addr + n / 4] == 4 * ts[k].size - n
      && m1[ts[k].addr + n / 4 + 1] == m[ts[k].addr + 1]
    requires forall x | 0 <= x < |m| && x != p && !(ts[k].addr <= x < ts[k].addr + ts[k].size) :: m1[x] == m[x]
    requires forall y | 0 <= y < |m| :: m2[y] == if ts[k].addr + 1 <= y < ts[k].addr + n / 4 then 0 else m1[y]
    ensures ListOk(m2, Carve(ts, k, n / 4), limit, p, pos) && pos <= |Carve(ts, k, n / 4)|
  {
    var w := n / 4;
    assert n == 4 * w && w % 2 == 0;
    assert Carves(m, ts, limit, p, pos, k, w, m2) by {
      hide Tiled;
      hide Linked;
      hide Link;
      hide FirstFree;
    }
    hide Carves;
    hide Carve;
    hide Tiled;
    hide Linked;
    hide Link;
    CarveTiled(ts, limit, k, w);
    CarveLinked(m, ts, limit, p, pos, k, w, m2);
  }

  lemma LinkInside(ts: seq<Tile>, limit: int, p: nat, pos: nat)
    requires Tiled(ts, limit) && Link(ts, p, pos) && limit >= BASE
    ensures p < limit && p % 2 == 0
  {
    if pos > 0 {
      TileInside(ts, limit, pos - 1);
      assert Follows(ts, pos - 1);
    }
  }

  // ----- failures with room left, or with room to grow -----

  /** A collector that finds the first block unused. */
  function FreeFirst(ts: seq<Tile>, n: nat): seq<Tile> {
    if ts == [] then ts else ts[0 := ts[0].(free := true)]
  }

  lemma FreeFirstIsOk()
    ensures CollectorOk(FreeFirst)
  {
    forall ts, limit, n | Tiled(ts, limit) ensures Tiled(FreeFirst(ts, n), limit) && Survives(ts, FreeFirst(ts, n)) {
      var ts' := FreeFirst(ts, n);
      forall i: nat | i < |ts'| ensures Follows(ts', i) {
        assert Follows(ts, i);
      }
    }
  }

  /** A heap of 48 bytes with blocks of 16 and 8 taken from it. */
  method SmallHeap() returns (h: Heap)
    ensures h.Valid() && fresh(h) && fresh(h.mem) && h.others == [] && h.gc == FreeFirst && !h.fin(h.collections + 1)
    ensures h.tiles == [UNUSED, USED, REST] && h.pos == 0 && h.state == 0 && h.limit == h.heapmax
  {
    FreeFirstIsOk();
    hide CollectorOk;
    assert WorldOk(FreeFirst, [], Words(4, 48));
    h := new Heap(4, 48, 48, FreeFirst, _ => false, []);
    hide WorldOk;
    hide FirstFit;
    hide FirstFree;
    hide Carve;
    hide Align;
    MissedSizes();
    MissedFits();
    var r;
    ghost var at;
    r, at := h.GcMalloc(12);
    assert h.tiles == [UNUSED, Tile(5, 8, true)] && h.pos == 0;
    r, at := h.GcMalloc(4);
  }

  /** That heap after a request for 1000. */
  method ExhaustedHeap() returns (h: Heap)
    ensures h.Valid() && fresh(h) && fresh(h.mem)
    ensures h.tiles == [UNUSED.(free := true), USED, REST] && h.pos == 0 && h.state == 3
  {
    hide WorldOk;
    hide Left;
    hide Futile;
    hide FirstFit;
    hide FirstFree;
    hide Carve;
    hide Align;
    ghost var at;
    MissedSizes();
    h := SmallHeap();
    MissedCollection(h.fin, h.collections);
    var r;
    r, at := h.GcMalloc(996);
  }

  /** A free block of the requested size is missed: after an OutOfMemoryError the state stays 3 while
      later requests are met, and the first scan that does not succeed from chunkpp on fails at once.
      24 bytes are free. A request for 1000 collects the first block and fails. A request of size 24
      takes the last block and leaves chunkpp behind the first. A request of size 16 fails. */
  method FreeBlockIsMissed() returns (h: Heap, r: Result)
    ensures h.Valid() && r == OutOfMemory(true)
    ensures h.tiles != [] && h.tiles[0] == Tile(BASE, Request(12) / 4, true) && !NoFit(h.tiles, 0, Request(12) / 4)
  {
    hide WorldOk;
    hide Left;
    hide Futile;
    hide FirstFit;
    hide FirstFree;
    hide Carve;
    hide Align;
    ghost var at;
    MissedSizes();
    MissedFits();
    h := ExhaustedHeap();
    r, at := h.GcMalloc(20);
    assert h.tiles == [UNUSED.(free := true), USED, REST.(free := false)] && h.pos == 1;
    r, at := h.GcMalloc(12);
  }

  const UNUSED := Tile(1, 4, false)
  const USED := Tile(5, 2, false)
  const REST := Tile(7, 6, true)

  lemma MissedSizes()
    ensures Request(12) == 16 && Request(4) == 8 && Request(996) == 1000 && Request(20) == 24 && Words(4, 48) == 13
  {
  }

  /** The requests that are met, and the last one. */
  lemma MissedFits()
    ensures var ts := [Tile(1, 12, true)];
            FirstFit(ts, 0, 4) == 0 && Carve(ts, 0, 4) == [UNUSED, Tile(5, 8, true)]
            && forall p: nat | NextLink(ts, 0, 0, p) :: p == 0
    ensures var ts := [UNUSED, Tile(5, 8, true)];
            && FirstFit(ts, 0, 2) == 1 && Carve(ts, 1, 2) == [UNUSED, USED, REST]
            && forall p: nat | NextLink(ts, 0, 1, p) :: p == 0
    ensures var ts := [UNUSED.(free := true), USED, REST];
            FirstFit(ts, 0, 6) == 2 && Carve(ts, 2, 6) == [UNUSED.(free := true), USED, REST.(free := false)]
            && forall p: nat | NextLink(ts, 0, 2, p) :: p == 1
    ensures var ts := [UNUSED.(free := true), USED, REST.(free := false)];
            NoFit(ts, 1, 4) && !NoFit(ts, 0, 4)
  {
    var ts := [UNUSED.(free := true), USED, REST];
    assert FirstFit(ts, 2, 6) == 2 && FirstFit(ts, 1, 6) == 2;
    assert Carve(ts, 2, 6) == [UNUSED.(free := true), USED, REST.(free := false)];
  }

  lemma MissedCollection(fin: Finalisers, c: nat)
    requires !fin(c + 1)
    ensures var ts := [UNUSED, USED, REST];
            && NoFit(ts, 0, 250) && Futile(FreeFirst, fin, 0, ts, c, 250)
            && Left(FreeFirst, fin, 0, ts, c) == [UNUSED.(free := true), USED, REST]
  {
  }

  lemma KeepIsOk()
    ensures CollectorOk((ts, n) => ts)
  {
  }

  lemma FullSizes()
    ensures Request(12) == 16 && Request(4) == 8 && Words(4, 16) == 5 && Words(4, 32) == 9
  {
  }

  lemma FullFits(gc: Collector, fin: Finalisers)
    requires forall ts, n :: gc(ts, n) == ts
    ensures var ts := [Tile(1, 4, true)];
            && FirstFit(ts, 0, 4) == 0 && Carve(ts, 0, 4) == [Tile(1, 4, false)]
            && forall p: nat | NextLink(ts, 0, 0, p) :: p == 0
    ensures var ts := [Tile(1, 4, false)];
            && NoFit(ts, 0, 2) && NoneFree(ts)
            && forall c: nat {:trigger Futile(gc, fin, 0, ts, c, 2)} {:trigger Left(gc, fin, 0, ts, c)} ::
                 Futile(gc, fin, 0, ts, c, 2) && Left(gc, fin, 0, ts, c) == ts
  {
  }

  /** A full heap below its maximum: the request after the one that takes everything makes C follow a
      null pointer. */
  method FullHeapFaults() returns (h: Heap, r: Result)
    ensures h.Valid() && r == Fault && h.limit < h.heapmax
  {
    KeepIsOk();
    hide CollectorOk;
    var keep := (ts, n) => ts;
    assert WorldOk(keep, [], Words(4, 32));
    FullSizes();
    FullFits(keep, _ => false);
    hide WorldOk;
    hide Align;
    hide FirstFit;
    hide FirstFree;
    hide Carve;
    hide Left;
    hide Futile;
    hide NoFit;
    hide NoneFree;
    hide NextLink;
    h := new Heap(4, 16, 32, keep, _ => false, []);
    assert h.tiles == [Tile(1, 4, true)];
    ghost var at;
    r, at := h.GcMalloc(12);
    assert h.tiles == [Tile(1, 4, false)];
    r, at := h.GcMalloc(4);
  }
}
