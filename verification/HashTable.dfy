/**
 The open-addressing hash table (hash.h:36-85, hash.c:8-32), used by the UTF-8, string and class tables.

 Entries are pointers (zero is NULL); `keyOf` gives the content a pointer stands for and `hash` the
 hash of a content. The table finds entries by content: COMPARE holds exactly if the contents are
 equal. (lock.c compares hashes only and is not modelled; no call asks to scavenge.)
 */
module HashTable {
  // ----- hash & (size - 1) -----

  predicate PowerOfTwo(n: int) {
    n == 1 || (n > 1 && n % 2 == 0 && PowerOfTwo(n / 2))
  }

  /** C's & on two's complement integers, for a non-negative mask. */
  function And(a: int, mask: nat): (r: nat)
    ensures r <= mask
    decreases mask
  {
    if mask == 0 then 0 else 2 * And(a / 2, mask / 2) + (if a % 2 == 1 && mask % 2 == 1 then 1 else 0)
  }

  /** Masking with size - 1 is reduction modulo size, for negative hashes too. */
  lemma {:induction false} MaskIsMod(a: int, n: nat)
    requires PowerOfTwo(n)
    ensures And(a, n - 1) == a % n
    decreases n
  {
    if n > 1 {
      MaskIsMod(a / 2, n / 2);
      HalfMod(a, n / 2);
    }
  }

  lemma HalfMod(a: int, h: nat)
    requires h > 0
    ensures a % (2 * h) == 2 * (a / 2 % h) + a % 2
  {
    var q, r := a / 2 / h, a / 2 % h;
    assert a / 2 == h * q + r;
    assert 2 * (h * q) == (2 * h) * q;
    ModIsUnique(a, 2 * h, q, 2 * r + a % 2);
  }

  lemma ModIsUnique(a: int, n: nat, q: int, r: int)
    requires n > 0 && a == n * q + r && 0 <= r < n
    ensures a % n == r
  {
    var p := a / n;
    assert a == n * p + a % n;
    Distributes(n, q, p);
    if q > p {
      AtLeast(n, q - p);
    } else if p > q {
      Distributes(n, p, q);
      AtLeast(n, p - q);
    }
  }

  lemma Distributes(n: int, a: int, b: int)
    ensures n * (a - b) == n * a - n * b
  {
  }

  lemma AtLeast(n: nat, k: nat)
    requires k >= 1
    ensures n * k >= n
  {
  }

  // ----- slots around the table -----

  function Next(i: nat, n: nat): nat { if i + 1 == n then 0 else i + 1 }

  /** The slot d steps after slot h. */
  function Slot(h: nat, d: nat, n: nat): int { if h + d < n then h + d else h + d - n }

  /** How many steps slot i is after slot h. */
  function Steps(h: nat, i: nat, n: nat): int { if h <= i then i - h else i - h + n }

  lemma MaskOfNext(i: nat, n: nat)
    requires PowerOfTwo(n) && i < n
    ensures And(i + 1, n - 1) == Next(i, n)
  {
    MaskIsMod(i + 1, n);
    if i + 1 < n {
      ModIsUnique(i + 1, n, 0, i + 1);
    } else {
      ModIsUnique(n, n, 1, 0);
    }
  }

  // ----- the table as two sequences -----

  function Count(ds: seq<int>): nat {
    if ds == [] then 0 else Count(ds[..|ds| - 1]) + if ds[|ds| - 1] != 0 then 1 else 0
  }

  lemma {:induction false} CountUpdate(ds: seq<int>, i: nat, d: int)
    requires i < |ds| && ds[i] == 0 && d != 0
    ensures Count(ds[i := d]) == Count(ds) + 1
    decreases |ds|
  {
    var n := |ds| - 1;
    if i == n {
      assert ds[i := d][..n] == ds[..n];
    } else {
      assert ds[i := d][..n] == ds[..n][i := d];
      CountUpdate(ds[..n], i, d);
    }
  }

  lemma {:induction false} CountFull(ds: seq<int>)
    requires forall i | 0 <= i < |ds| :: ds[i] != 0
    ensures Count(ds) == |ds|
    decreases |ds|
  {
    if ds != [] {
      CountFull(ds[..|ds| - 1]);
    }
  }

  lemma {:induction false} CountEmpty(ds: seq<int>)
    requires forall i | 0 <= i < |ds| :: ds[i] == 0
    ensures Count(ds) == 0
    decreases |ds|
  {
    if ds != [] {
      CountEmpty(ds[..|ds| - 1]);
    }
  }

  /** HASH and the content of an entry. */
  datatype Scheme<!K> = Scheme(hash: K -> int, keyOf: int -> K)

  /** The slot where the probe for key k starts. */
  function Home<K>(s: Scheme<K>, k: K, n: nat): (h: nat)
    requires n > 0
    ensures h < n
  {
    And(s.hash(k), n - 1)
  }

  /** Slot i is empty, or holds the hash of its entry, with no gap between it and its home slot. */
  ghost predicate SlotOk<K>(s: Scheme<K>, hs: seq<int>, ds: seq<int>, i: nat)
    requires |hs| == |ds| && i < |ds|
  {
    ds[i] != 0 ==>
      var h := Home(s, s.keyOf(ds[i]), |ds|);
      && hs[i] == s.hash(s.keyOf(ds[i]))
      && forall d: nat {:trigger Slot(h, d, |ds|)} | d < Steps(h, i, |ds|) :: ds[Slot(h, d, |ds|)] != 0
  }

  ghost predicate Distinct<K>(s: Scheme<K>, ds: seq<int>) {
    forall i: nat, j: nat {:trigger ds[i], ds[j]} | i < j < |ds| && ds[i] != 0 && ds[j] != 0 ::
        s.keyOf(ds[i]) != s.keyOf(ds[j])
  }

  /** Every entry can be reached by probing from its home slot, and no two are equivalent. */
  ghost predicate Probed<K>(s: Scheme<K>, hs: seq<int>, ds: seq<int>) {
    && |hs| == |ds| > 0 && PowerOfTwo(|ds|) && Distinct(s, ds)
    && forall i: nat | i < |ds| :: SlotOk(s, hs, ds, i)
  }

  /** The table holds exactly these entries. */
  ghost predicate Represents<K>(s: Scheme<K>, ds: seq<int>, m: map<K, int>) {
    && (forall i {:trigger ds[i]} | 0 <= i < |ds| && ds[i] != 0 :: s.keyOf(ds[i]) in m && m[s.keyOf(ds[i])] == ds[i])
    && (forall k {:trigger k in m} | k in m :: m[k] != 0 && s.keyOf(m[k]) == k && m[k] in ds)
  }

  /** The probe for key k has passed d slots, all of them taken by other entries. */
  ghost predicate Passed<K>(s: Scheme<K>, ds: seq<int>, k: K, d: nat) {
    |ds| > 0 && d <= |ds| &&
    forall e: nat {:trigger Slot(Home(s, k, |ds|), e, |ds|)} | e < d ::
      var x := ds[Slot(Home(s, k, |ds|), e, |ds|)]; x != 0 && s.keyOf(x) != k
  }

  /** A table that is not full has an empty slot on every probe. */
  lemma NotAllPassed<K>(s: Scheme<K>, ds: seq<int>, k: K, d: nat)
    requires Passed(s, ds, k, d) && Count(ds) < |ds|
    ensures d < |ds|
  {
    if d == |ds| {
      var h := Home(s, k, |ds|);
      forall i | 0 <= i < |ds| ensures ds[i] != 0 {
        assert Slot(h, Steps(h, i, |ds|), |ds|) == i;
      }
      CountFull(ds);
    }
  }

  /** Past an empty slot at the end of a probe no entry has the key. */
  lemma NotBeyond<K>(s: Scheme<K>, hs: seq<int>, ds: seq<int>, k: K, d: nat, j: nat)
    requires Probed(s, hs, ds) && Passed(s, ds, k, d) && d < |ds| && j < |ds|
    requires ds[Slot(Home(s, k, |ds|), d, |ds|)] == 0
    ensures ds[j] != 0 ==> s.keyOf(ds[j]) != k
  {
    var h := Home(s, k, |ds|);
    assert Slot(h, Steps(h, j, |ds|), |ds|) == j && SlotOk(s, hs, ds, j);
    hide Home;
  }

  /** An empty slot at the end of a probe: the key is nowhere in the table. */
  lemma ProbeIsExact<K>(s: Scheme<K>, hs: seq<int>, ds: seq<int>, m: map<K, int>, k: K, d: nat)
    requires Probed(s, hs, ds) && Represents(s, ds, m) && Passed(s, ds, k, d) && d < |ds|
    requires ds[Slot(Home(s, k, |ds|), d, |ds|)] == 0
    ensures k !in m
  {
    forall j: nat | j < |ds| ensures ds[j] != 0 ==> s.keyOf(ds[j]) != k {
      NotBeyond(s, hs, ds, k, d, j);
    }
  }

  /** Filling the empty slot at the end of the probe for the key of x. */
  lemma InsertKeeps<K>(s: Scheme<K>, hs: seq<int>, ds: seq<int>, m: map<K, int>, x: int, d: nat, i: nat)
    requires Probed(s, hs, ds) && Represents(s, ds, m) && x != 0 && d < |ds| && Passed(s, ds, s.keyOf(x), d)
    requires i == Slot(Home(s, s.keyOf(x), |ds|), d, |ds|) && ds[i] == 0
    ensures Probed(s, hs[i := s.hash(s.keyOf(x))], ds[i := x])
    ensures Represents(s, ds[i := x], m[s.keyOf(x) := x]) && Count(ds[i := x]) == Count(ds) + 1
  {
    ProbeIsExact(s, hs, ds, m, s.keyOf(x), d);
    CountUpdate(ds, i, x);
    var hs', ds' := hs[i := s.hash(s.keyOf(x))], ds[i := x];
    forall j: nat | j < |ds'| ensures SlotOk(s, hs', ds', j) {
      assert SlotOk(s, hs, ds, j);
      hide Probed;
      hide Represents;
      hide Home;
    }
    hide SlotOk;
    hide Home;
    InsertRepresents(s, ds, m, x, i);
  }

  lemma InsertRepresents<K>(s: Scheme<K>, ds: seq<int>, m: map<K, int>, x: int, i: nat)
    requires Represents(s, ds, m) && Distinct(s, ds) && x != 0 && i < |ds| && ds[i] == 0 && s.keyOf(x) !in m
    ensures Represents(s, ds[i := x], m[s.keyOf(x) := x]) && Distinct(s, ds[i := x])
  {
    var ds', m' := ds[i := x], m[s.keyOf(x) := x];
    forall k | k in m' ensures m'[k] in ds' {
      if k == s.keyOf(x) {
        assert ds'[i] == x;
      } else {
        var j :| 0 <= j < |ds| && ds[j] == m[k];
        assert ds'[j] == m[k];
      }
    }
  }

  class Table<K(!new, ==)> {
    var s: Scheme<K>    // what HASH and COMPARE find in memory
    var hashes: array<int>
    var datas: array<int>
    var size: nat
    var count: nat
    ghost var contents: map<K, int>

    ghost predicate Sound()
      reads this, hashes, datas
    {
      && hashes != datas && hashes.Length == datas.Length == size && size > 0
      && Probed(s, hashes[..], datas[..]) && Represents(s, datas[..], contents)
      && count == Count(datas[..]) && count <= size
    }

    ghost predicate Valid()
      reads this, hashes, datas
    {
      Sound() && 4 * count <= 3 * size
    }

    /** initHashTable */
    constructor (s: Scheme<K>, n: nat)
      requires PowerOfTwo(n)
      ensures Valid() && contents == map[] && size == n && this.s == s && fresh(hashes) && fresh(datas)
    {
      this.s := s;
      hashes := new int[n](_ => 0);
      datas := new int[n](_ => 0);
      size, count := n, 0;
      contents := map[];
      new;
      CountEmpty(datas[..]);
      assert forall i: nat | i < n :: datas[..][i] == 0;
      assert forall i: nat | i < n :: SlotOk(s, hashes[..], datas[..], i);
    }

    /** The probing loop: the slot of the entry for the key, or the empty slot where it belongs. */
    method Probe(ptr: int, key: K, h: int) returns (i: nat, ghost d: nat)
      requires Sound() && count < size && h == s.hash(key) && (ptr != 0 ==> s.keyOf(ptr) == key)
      ensures i < size && d < size && i == Slot(Home(s, key, size), d, size)
      ensures if datas[i] == 0 then Passed(s, datas[..], key, d) && key !in contents
              else key in contents && contents[key] == datas[i]
    {
      hide Passed;
      hide Probed;
      hide Represents;
      hide Count;
      hide Slot;
      hide And;
      ghost var hs, ds := hashes[..], datas[..];
      AtHome(s, hs, ds, key);
      i, d := And(h, size - 1), 0;
      while datas[i] != 0 && !(datas[i] == ptr || (hashes[i] == h && s.keyOf(datas[i]) == key))
        invariant i < size && d < size && i == Slot(Home(s, key, size), d, size) && Passed(s, ds, key, d)
        decreases size - d
      {
        assert hs[i] == hashes[i] && ds[i] == datas[i];
        NextSlot(s, hs, ds, key, d, i);
        d := d + 1;
        i := And(i + 1, size - 1);
      }
      assert ds[i] == datas[i];
      if datas[i] == 0 {
        ProbeIsExact(s, hs, ds, contents, key, d);
      } else {
        EntryIsHeld(s, ds, contents, i);
      }
    }

    /** resizeHash (hash.c:8-32) */
    method ResizeHash(n: nat)
      requires Sound() && PowerOfTwo(n) && count < n && 4 * count <= 3 * n
      modifies this`hashes, this`datas, this`size
      ensures Valid() && size == n && count == old(count) && contents == old(contents)
      ensures fresh(hashes) && fresh(datas)
    {
      hide SlotOk;
      hide Distinct;
      hide Home;
      hide Represents;
      hide Moved;
      hide Count;
      var hs := new int[n](_ => 0);
      var ds := new int[n](_ => 0);
      ghost var m: map<K, int> := map[];
      EmptyTable(s, hs[..], ds[..]);
      ghost var old0 := datas[..];
      assert old0[..size] == old0;
      NoneMoved(s, old0, contents);
      var i := size;
      while i > 0
        invariant 0 <= i <= size && Probed(s, hs[..], ds[..]) && Represents(s, ds[..], m)
        invariant Moved(s, old0, contents, m, i)
        invariant Count(ds[..]) + Count(old0[..i]) == count
        modifies hs, ds
      {
        i := i - 1;
        CountStep(old0, i);
        var x := datas[i];
        StepOver(s, old0, contents, m, i);
        if x != 0 {
          HashAt(s, hashes[..], old0, i);
          var hash := hashes[i];
          NotMovedYet(s, old0, contents, m, i);
          var j, d := FindEmpty(hs, ds, x, hash, m);
          InsertKeeps(s, hs[..], ds[..], m, x, d, j);
          hs[j] := hash;
          ds[j] := x;
          m := m[s.keyOf(x) := x];
        }
      }
      AllMoved(s, old0, contents, m);
      CountEmpty(old0[..0]);
      hashes, datas, size := hs, ds, n;
    }

    /** findHashEntry: the entry with this content; if there is none and add_if_absent is set, ptr. */
    method FindHashEntry(ptr: int, key: K, add: bool) returns (r: int)
      requires Valid() && (ptr != 0 ==> s.keyOf(ptr) == key) && (add ==> ptr != 0)
      modifies this`hashes, this`datas, this`size, this`count, this`contents, hashes, datas
      ensures Valid() && (hashes == old(hashes) || fresh(hashes)) && (datas == old(datas) || fresh(datas))
      ensures r == if key in old(contents) then old(contents)[key] else if add then ptr else 0
      ensures contents == if key !in old(contents) && add then old(contents)[key := ptr] else old(contents)
      // the table doubles when more than three quarters of it are taken
      ensures count == old(count) + if key !in old(contents) && add then 1 else 0
      ensures size == if count != old(count) && 4 * count > 3 * old(size) then 2 * old(size) else old(size)
    {
      hide Probed;
      hide Represents;
      hide Passed;
      hide Count;
      var h := s.hash(key);
      var i, d := Probe(ptr, key, h);
      r := datas[i];
      if r == 0 && add {
        ghost var hs, ds := hashes[..], datas[..];
        InsertKeeps(s, hs, ds, contents, ptr, d, i);
        hashes[i] := h;
        datas[i] := ptr;
        assert hashes[..] == hs[i := h] && datas[..] == ds[i := ptr];
        contents := contents[key := ptr];
        r := ptr;
        count := count + 1;
        ProbedSize(s, hs, ds);
        if count * 4 > size * 3 {
          GrowOnce(size);
          ResizeHash(size * 2);
        }
      }
    }

    /** Memory has changed, but not what the entries lead to: nor have the table's answers. */
    method MemoryIs(s': Scheme<K>)
      requires Valid() && s'.hash == s.hash && Keyed(s', contents)
      modifies this`s
      ensures Valid() && s == s'
    {
      EntriesStay(s, s', hashes[..], datas[..], contents);
      s := s';
    }

    /** findUtf8String and findInternedString (utf8.c:64-70, string.c:115-121) */
    method FindInterned(ptr: int) returns (r: int)
      requires Valid() && ptr != 0
      modifies this`hashes, this`datas, this`size, this`count, this`contents, hashes, datas
      ensures Valid() && (hashes == old(hashes) || fresh(hashes)) && (datas == old(datas) || fresh(datas))
      ensures (contents, r) == Intern(s, old(contents), ptr)
    {
      r := FindHashEntry(ptr, s.keyOf(ptr), true);
    }

    /** The slot for an entry that is not in the new table yet. */
    method FindEmpty(hs: array<int>, ds: array<int>, x: int, hash: int, ghost m: map<K, int>)
        returns (j: nat, ghost d: nat)
      requires Probed(s, hs[..], ds[..]) && Represents(s, ds[..], m) && x != 0 && hash == s.hash(s.keyOf(x))
      requires s.keyOf(x) !in m && Count(ds[..]) < ds.Length
      ensures d < ds.Length && j < ds.Length && j == Slot(Home(s, s.keyOf(x), ds.Length), d, ds.Length)
      ensures ds[j] == 0 && Passed(s, ds[..], s.keyOf(x), d)
    {
      var n := ds.Length;
      j, d := And(hash, n - 1), 0;
      while ds[j] != 0
        invariant j < n && d < n && j == Slot(Home(s, s.keyOf(x), n), d, n) && Passed(s, ds[..], s.keyOf(x), d)
        decreases n - d
      {
        assert ds[..][j] == ds[j];
        MaskOfNext(j, n);
        d := d + 1;
        NotAllPassed(s, ds[..], s.keyOf(x), d);
        j := And(j + 1, n - 1);
      }
    }
  }

  lemma AtHome<K>(s: Scheme<K>, hs: seq<int>, ds: seq<int>, k: K)
    requires Probed(s, hs, ds)
    ensures |ds| > 0 && Home(s, k, |ds|) == And(s.hash(k), |ds| - 1) < |ds|
    ensures Slot(Home(s, k, |ds|), 0, |ds|) == Home(s, k, |ds|) && Passed(s, ds, k, 0)
  {
    hide And;
  }

  /** A slot taken by another entry, as the hash or the comparison tells: the probe goes on. */
  lemma NextSlot<K>(s: Scheme<K>, hs: seq<int>, ds: seq<int>, k: K, d: nat, i: nat)
    requires Probed(s, hs, ds) && Passed(s, ds, k, d) && d < |ds| && i < |ds| && i == Slot(Home(s, k, |ds|), d, |ds|)
    requires ds[i] != 0 && !(hs[i] == s.hash(k) && s.keyOf(ds[i]) == k) && Count(ds) < |ds|
    ensures d + 1 < |ds| && Passed(s, ds, k, d + 1)
    ensures And(i + 1, |ds| - 1) == Slot(Home(s, k, |ds|), d + 1, |ds|) < |ds|
  {
    assert SlotOk(s, hs, ds, i);
    MaskOfNext(i, |ds|);
    hide Home;
    hide And;
    hide SlotOk;
    assert s.keyOf(ds[i]) != k;
    assert Passed(s, ds, k, d + 1) by {
      hide Probed;
    }
    NotAllPassed(s, ds, k, d + 1);
  }

  lemma EntryIsHeld<K>(s: Scheme<K>, ds: seq<int>, m: map<K, int>, i: nat)
    requires Represents(s, ds, m) && i < |ds| && ds[i] != 0
    ensures s.keyOf(ds[i]) in m && m[s.keyOf(ds[i])] == ds[i]
  {
  }

  lemma EntriesStay<K(!new)>(s: Scheme<K>, s': Scheme<K>, hs: seq<int>, ds: seq<int>, m: map<K, int>)
    requires Probed(s, hs, ds) && Represents(s, ds, m) && s'.hash == s.hash && Keyed(s', m)
    ensures Probed(s', hs, ds) && Represents(s', ds, m)
  {
    forall i | 0 <= i < |ds| && ds[i] != 0 ensures s'.keyOf(ds[i]) == s.keyOf(ds[i]) {
      EntryIsHeld(s, ds, m, i);
    }
    forall i: nat | i < |ds| ensures SlotOk(s', hs, ds, i) {
      assert SlotOk(s, hs, ds, i);
    }
  }

  lemma ProbedSize<K>(s: Scheme<K>, hs: seq<int>, ds: seq<int>)
    requires Probed(s, hs, ds)
    ensures PowerOfTwo(|ds|)
  {
  }

  lemma GrowOnce(n: nat)
    requires PowerOfTwo(n)
    ensures PowerOfTwo(n * 2)
  {
  }

  lemma CountStep(ds: seq<int>, i: nat)
    requires i < |ds|
    ensures Count(ds[..i + 1]) == Count(ds[..i]) + if ds[i] != 0 then 1 else 0
  {
    assert ds[..i + 1][..i] == ds[..i];
  }

  lemma HashAt<K>(s: Scheme<K>, hs: seq<int>, ds: seq<int>, i: nat)
    requires Probed(s, hs, ds) && i < |ds| && ds[i] != 0
    ensures hs[i] == s.hash(s.keyOf(ds[i]))
  {
    assert SlotOk(s, hs, ds, i);
  }

  lemma EmptyTable<K>(s: Scheme<K>, hs: seq<int>, ds: seq<int>)
    requires |hs| == |ds| && PowerOfTwo(|ds|) && forall i | 0 <= i < |ds| :: ds[i] == 0
    ensures Probed(s, hs, ds) && Represents(s, ds, map[]) && Count(ds) == 0
  {
    CountEmpty(ds);
    assert forall i: nat | i < |ds| :: SlotOk(s, hs, ds, i);
  }

  /** The new table holds the entries of the old one from slot i on. */
  ghost predicate Moved<K>(s: Scheme<K>, ds: seq<int>, contents: map<K, int>, m: map<K, int>, i: nat) {
    && (forall k {:trigger k in m} | k in m :: k in contents && m[k] == contents[k])
    && (forall j {:trigger ds[j]} | 0 <= j < |ds| && ds[j] != 0 :: s.keyOf(ds[j]) in m <==> i <= j)
  }

  lemma NoneMoved<K>(s: Scheme<K>, ds: seq<int>, contents: map<K, int>)
    ensures Moved(s, ds, contents, map[], |ds|)
  {
  }

  lemma StepOver<K>(s: Scheme<K>, ds: seq<int>, contents: map<K, int>, m: map<K, int>, i: nat)
    requires i < |ds| && Moved(s, ds, contents, m, i + 1)
    ensures ds[i] == 0 ==> Moved(s, ds, contents, m, i)
  {
  }

  lemma NotMovedYet<K>(s: Scheme<K>, ds: seq<int>, contents: map<K, int>, m: map<K, int>, i: nat)
    requires Distinct(s, ds) && Represents(s, ds, contents) && i < |ds|
    requires ds[i] != 0 && Moved(s, ds, contents, m, i + 1)
    ensures s.keyOf(ds[i]) !in m && Moved(s, ds, contents, m[s.keyOf(ds[i]) := ds[i]], i)
  {
  }

  lemma AllMoved<K>(s: Scheme<K>, ds: seq<int>, contents: map<K, int>, m: map<K, int>)
    requires Represents(s, ds, contents) && Moved(s, ds, contents, m, 0)
    ensures m == contents
  {
    forall k | k in contents ensures k in m {
      var j :| 0 <= j < |ds| && ds[j] == contents[k];
    }
  }

  // ----- interning over all histories -----

  /** findHashEntry with add_if_absent, on the entries so far. */
  function Intern<K(==)>(s: Scheme<K>, m: map<K, int>, ptr: int): (map<K, int>, int) {
    var k := s.keyOf(ptr);
    if k in m then (m, m[k]) else (m[k := ptr], ptr)
  }

  /** A call, and what the pointers lead to when it is made. */
  datatype Call<!K> = Call(s: Scheme<K>, ptr: int) {
    function Key(): K { s.keyOf(ptr) }
  }

  /** The results of a history of calls. */
  function Results<K(==)>(m: map<K, int>, calls: seq<Call<K>>): (rs: seq<int>)
    ensures |rs| == |calls|
    decreases |calls|
  {
    if calls == [] then []
    else
      var r := Intern(calls[0].s, m, calls[0].ptr);
      [r.1] + Results(r.0, calls[1..])
  }

  predicate Keyed<K(!new, ==)>(s: Scheme<K>, m: map<K, int>) {
    forall k | k in m :: s.keyOf(m[k]) == k
  }

  /** Memory may change between the calls, but not what an interned pointer leads to. Pointers that
      were not interned may be freed and used again. */
  ghost predicate Undisturbed<K(!new)>(m: map<K, int>, calls: seq<Call<K>>)
    decreases |calls|
  {
    calls != [] ==> Keyed(calls[0].s, m) && Undisturbed(Intern(calls[0].s, m, calls[0].ptr).0, calls[1..])
  }

  /** Once a content is known, exactly the calls with that content return its pointer. */
  lemma {:induction false} KnownIsReturned<K(!new)>(m: map<K, int>, calls: seq<Call<K>>, k: K, j: nat)
    requires Undisturbed(m, calls) && k in m && j < |calls|
    ensures Results(m, calls)[j] == m[k] <==> calls[j].Key() == k
    decreases j
  {
    var m' := Intern(calls[0].s, m, calls[0].ptr).0;
    if j == 0 {
      assert calls[0].s.keyOf(m[k]) == k;
    } else {
      assert m'[k] == m[k];
      KnownIsReturned(m', calls[1..], k, j - 1);
    }
  }

  /** Two calls, anywhere in a history, return the same pointer exactly if the contents are equal. */
  lemma {:induction false} InterningIsCanonical<K(!new)>(m: map<K, int>, calls: seq<Call<K>>, i: nat, j: nat)
    requires Undisturbed(m, calls) && i <= j < |calls|
    ensures Results(m, calls)[i] == Results(m, calls)[j] <==> calls[i].Key() == calls[j].Key()
    decreases j
  {
    var m' := Intern(calls[0].s, m, calls[0].ptr).0;
    if i > 0 {
      InterningIsCanonical(m', calls[1..], i - 1, j - 1);
    } else if j > 0 {
      KnownIsReturned(m', calls[1..], calls[0].Key(), j - 1);
    }
  }

  /** The first pointer asked with is the one returned, then and ever after. */
  lemma {:induction false} InternedPointerIsFirst<K(!new)>(calls: seq<Call<K>>, j: nat, i: nat)
    requires Undisturbed(map[], calls) && i <= j < |calls| && calls[i].Key() == calls[j].Key()
    requires forall h | 0 <= h < i :: calls[h].Key() != calls[i].Key()
    ensures Results(map[], calls)[j] == calls[i].ptr
  {
    InterningIsCanonical(map[], calls, i, j);
    FirstIsReturned(map[], calls, i);
  }

  lemma {:induction false} FirstIsReturned<K(!new)>(m: map<K, int>, calls: seq<Call<K>>, i: nat)
    requires i < |calls| && calls[i].Key() !in m
    requires forall h | 0 <= h < i :: calls[h].Key() != calls[i].Key()
    ensures Results(m, calls)[i] == calls[i].ptr
    decreases i
  {
    if i > 0 {
      FirstIsReturned(Intern(calls[0].s, m, calls[0].ptr).0, calls[1..], i - 1);
    }
  }

  lemma HistoryStep<K(!new)>(m: map<K, int>, calls: seq<Call<K>>, i: nat)
    requires i < |calls| && Undisturbed(m, calls[i..])
    ensures calls[i] in calls && Keyed(calls[i].s, m)
    ensures var r := Intern(calls[i].s, m, calls[i].ptr);
            Results(m, calls[i..]) == [r.1] + Results(r.0, calls[i + 1..]) && Undisturbed(r.0, calls[i + 1..])
  {
    assert calls[i..][0] == calls[i] && calls[i..][1..] == calls[i + 1..];
  }

  lemma HistoryEnds<K(!new)>(m: map<K, int>, calls: seq<Call<K>>)
    ensures Results(m, calls[|calls|..]) == []
  {
  }

  /** A history of calls on one table, as it probes, inserts and grows: it returns the results above. */
  method InternAll<K(!new, ==)>(t: Table<K>, calls: seq<Call<K>>) returns (rs: seq<int>)
    requires t.Valid() && Undisturbed(t.contents, calls)
    requires forall c | c in calls :: c.ptr != 0 && c.s.hash == t.s.hash
    modifies t, t.hashes, t.datas
    ensures t.Valid() && rs == Results(old(t.contents), calls)
    ensures forall i, j | 0 <= i <= j < |calls| :: rs[i] == rs[j] <==> calls[i].Key() == calls[j].Key()
  {
    hide Results;
    hide Undisturbed;
    hide Keyed;
    hide Intern;
    ghost var m := t.contents;
    rs := [];
    assert calls[0..] == calls;
    for i := 0 to |calls|
      invariant t.Valid() && t.s.hash == old(t.s.hash) && Undisturbed(t.contents, calls[i..])
      invariant (t.hashes == old(t.hashes) || fresh(t.hashes)) && (t.datas == old(t.datas) || fresh(t.datas))
      invariant |rs| == i && rs + Results(t.contents, calls[i..]) == Results(m, calls)
    {
      HistoryStep(t.contents, calls, i);
      t.MemoryIs(calls[i].s);
      var r := t.FindInterned(calls[i].ptr);
      rs := rs + [r];
    }
    HistoryEnds(t.contents, calls);
    forall i, j | 0 <= i <= j < |calls| ensures rs[i] == rs[j] <==> calls[i].Key() == calls[j].Key() {
      InterningIsCanonical(m, calls, i, j);
    }
  }
}
