/**
 Lock-free resolution of constant-pool entries (resolve.c:65-270).

 A constant-pool entry starts as one or two packed 16-bit indices and ends as a resolved value. Its
 tag goes through Locked while the value is stored, so a reader takes no lock: it reads the tag, reads
 the indices, and reads the tag again. Any number of threads resolve any entries, one memory access at
 a time in any interleaving; a 64-bit entry is read and written as two halves, in either order.
 Resolving a method or field reference resolves the class it names first, as a nested activation. A
 string is interned while its entry is locked, under the lock of the string table, which other code
 takes as well.
 */
module Resolution {
  import opened Common

  datatype Kind = ClassRef | MemberRef | StringRef

  /** An entry as the class file has it: a string or class has one index, a member two. */
  datatype Raw = Raw(kind: Kind, first: nat, second: nat)

  /** What the searches find: the class of a name, a member of a class, the interned string. */
  datatype Pool = Pool(
    raws: seq<Raw>, classNamed: nat -> int, memberOf: (int, nat) -> Option<int>, interned: nat -> int)

  ghost predicate PoolOk(p: Pool) {
    forall i {:trigger p.raws[i]} | 0 <= i < |p.raws| ::
      && p.raws[i].first < 0x1_0000 && p.raws[i].second < 0x1_0000
      && (p.raws[i].kind.MemberRef? ==> p.raws[i].first < |p.raws| && p.raws[p.raws[i].first].kind.ClassRef?)
  }

  /** What resolving entry i gives, when nothing else goes wrong. */
  function Value(p: Pool, i: nat): Option<int>
    requires PoolOk(p) && i < |p.raws|
  {
    var r := p.raws[i];
    match r.kind
    case ClassRef => Some(p.classNamed(r.first))
    case StringRef => Some(p.interned(r.first))
    case MemberRef => p.memberOf(p.classNamed(p.raws[r.first].first), r.second)
  }

  // ----- memory -----

  datatype Tag = RawTag | Locked | Resolved

  datatype Entry = Entry(tag: Tag, lo: int, hi: int)

  const HALF: int := 0x1_0000_0000

  function Lo(v: int): int { v % HALF }

  function Hi(v: int): int { v / HALF }

  function Join(lo: int, hi: int): int { hi * HALF + lo }

  function Packed(r: Raw): int { r.second * 0x1_0000 + r.first }

  function FirstIndex(lo: int): int { lo % 0x1_0000 }

  function SecondIndex(lo: int): int { (lo / 0x1_0000) % 0x1_0000 }

  // ----- threads -----

  datatype Phase =
    | Retry                                       // about to read the tag
    | ReadFirst                                   // the tag was raw
    | ReadSecond(a: int)                          // has read the first index
    | Recheck(a: int, b: int)                     // has read the indices
    | Find(a: int, b: int)                        // the tag was still raw
    | Awaiting(a: int, b: int)                    // a nested resolveClass(a) runs
    | Locking(v: int)                             // has found v
    | LockingString(a: int)                       // has made the string
    | Interning(a: int)                           // has written Locked; findInternedString begins
    | Probing(a: int)                             // holds the lock of the string table
    | Storing(v: int, low: bool, high: bool)      // has written Locked, and these halves
    | Loading(lo: Option<int>, hi: Option<int>)   // the tag was Resolved; has read these halves
    | Finished(result: Option<int>)

  datatype Activation = Activation(entry: nat, phase: Phase)

  /** The calls a thread is in, innermost last; none between calls. */
  type Thread = seq<Activation>

  /** The lock of the string table: free, or held by a resolving thread or by other code. */
  datatype TableLock = Free | HeldBy(thread: nat) | Outside

  datatype World = World(entries: seq<Entry>, threads: seq<Thread>, lock: TableLock)

  function Top(th: Thread): Activation
    requires th != []
  {
    th[|th| - 1]
  }

  function Become(th: Thread, ph: Phase): Thread
    requires th != []
  {
    th[..|th| - 1] + [Activation(Top(th).entry, ph)]
  }

  /** Thread t goes on as th; entry i becomes e. */
  ghost predicate Moves(w: World, t: nat, w': World, th: Thread, i: nat, e: Entry)
    requires t < |w.threads| && i < |w.entries|
  {
    w' == World(w.entries[i := e], w.threads[t := th], w.lock)
  }

  /** Thread t goes on as th, and takes or releases the lock. */
  ghost predicate Relocks(w: World, t: nat, w': World, th: Thread, lock: TableLock)
    requires t < |w.threads|
  {
    w' == World(w.entries, w.threads[t := th], lock)
  }

  ghost predicate StepOf(p: Pool, w: World, t: nat, w': World)
    requires PoolOk(p) && |w.entries| == |p.raws| && t < |w.threads|
  {
    var th := w.threads[t];
    if th == [] then
      exists i: nat :: i < |p.raws| && Moves(w, t, w', [Activation(i, Retry)], i, w.entries[i])
    else
      Top(th).entry < |w.entries| && ActivationStep(p, w, t, w', Top(th).entry, Top(th).phase)
  }

  ghost predicate ActivationStep(p: Pool, w: World, t: nat, w': World, i: nat, phase: Phase)
    requires PoolOk(p) && |w.entries| == |p.raws| && t < |w.threads| && w.threads[t] != [] && i < |w.entries|
  {
    var th, e, kind := w.threads[t], w.entries[i], p.raws[i].kind;
    match phase
    case Retry =>
      var ph := if e.tag.Locked? then Retry else if e.tag.Resolved? then Loading(None, None) else ReadFirst;
      Moves(w, t, w', Become(th, ph), i, e)
    case ReadFirst =>
      var a := FirstIndex(e.lo);
      Moves(w, t, w', Become(th, if kind.MemberRef? then ReadSecond(a) else Recheck(a, 0)), i, e)
    case ReadSecond(a) => Moves(w, t, w', Become(th, Recheck(a, SecondIndex(e.lo))), i, e)
    case Recheck(a, b) => Moves(w, t, w', Become(th, if e.tag.RawTag? then Find(a, b) else Retry), i, e)
    case Find(a, b) => FindStep(p, w, t, w', i, a, b)
    case Awaiting(_, _) => false
    case Locking(v) => Moves(w, t, w', Become(th, Storing(v, false, false)), i, e.(tag := Locked))
    case LockingString(a) => Moves(w, t, w', Become(th, Interning(a)), i, e.(tag := Locked))
    case Interning(a) => w.lock.Free? && Relocks(w, t, w', Become(th, Probing(a)), HeldBy(t))
    case Probing(a) => a >= 0 && Relocks(w, t, w', Become(th, Storing(p.interned(a), false, false)), Free)
    case Storing(v, low, high) =>
      if low && high then
        var ph := if kind.StringRef? then Loading(None, None) else Finished(Some(v));
        Moves(w, t, w', Become(th, ph), i, e.(tag := Resolved))
      else
        || (!low && Moves(w, t, w', Become(th, Storing(v, true, high)), i, e.(lo := Lo(v))))
        || (!high && Moves(w, t, w', Become(th, Storing(v, low, true)), i, e.(hi := Hi(v))))
    case Loading(lo, hi) =>
      if lo.Some? && hi.Some? then
        Moves(w, t, w', Become(th, Finished(Some(Join(lo.value, hi.value)))), i, e)
      else
        || (lo.None? && Moves(w, t, w', Become(th, Loading(Some(e.lo), hi)), i, e))
        || (hi.None? && Moves(w, t, w', Become(th, Loading(lo, Some(e.hi))), i, e))
    case Finished(result) =>
      if |th| == 1 then Moves(w, t, w', [], i, e) else ReturnStep(p, w, t, w', i, result)
  }

  /** The search with the decoded indices. Finding a class may fail for reasons outside this model,
      and then the entry stays as it is; a nested resolveClass is called for a member. */
  ghost predicate FindStep(p: Pool, w: World, t: nat, w': World, i: nat, a: int, b: int)
    requires PoolOk(p) && |w.entries| == |p.raws| && t < |w.threads| && w.threads[t] != [] && i < |w.entries|
  {
    var th, e := w.threads[t], w.entries[i];
    a >= 0 &&
    match p.raws[i].kind
    case ClassRef =>
      Moves(w, t, w', Become(th, Finished(None)), i, e) || Moves(w, t, w', Become(th, Locking(p.classNamed(a))), i, e)
    case StringRef => Moves(w, t, w', Become(th, LockingString(a)), i, e)
    case MemberRef => Moves(w, t, w', Become(th, Awaiting(a, b)) + [Activation(a, Retry)], i, e)
  }

  /** A nested resolveClass returns to the resolution of a member, which fails if the class was not
      found, if initialising it threw, or if it has no such member. */
  ghost predicate ReturnStep(p: Pool, w: World, t: nat, w': World, i: nat, result: Option<int>)
    requires PoolOk(p) && |w.entries| == |p.raws| && t < |w.threads| && |w.threads[t]| >= 2 && i < |w.entries|
  {
    var th, e := w.threads[t], w.entries[i];
    var caller := th[..|th| - 1];
    var ph := Top(caller).phase;
    && ph.Awaiting? && ph.b >= 0
    && (|| Moves(w, t, w', Become(caller, Finished(None)), i, e)
        || (&& result.Some? && p.memberOf(result.value, ph.b).Some?
            && Moves(w, t, w', Become(caller, Locking(p.memberOf(result.value, ph.b).value)), i, e)))
  }

  /** Other code takes or releases the lock of the string table. */
  predicate OutsideStep(w: World, w': World) {
    || (w.lock.Free? && w' == w.(lock := Outside))
    || (w.lock.Outside? && w' == w.(lock := Free))
  }

  ghost predicate Next(p: Pool, w: World, w': World)
    requires PoolOk(p)
  {
    |w.entries| == |p.raws| && (OutsideStep(w, w') || exists t: nat :: t < |w.threads| && StepOf(p, w, t, w'))
  }

  ghost predicate Init(p: Pool, w: World)
    requires PoolOk(p)
  {
    && |w.entries| == |p.raws| && !w.lock.HeldBy?
    && (forall i | 0 <= i < |w.entries| :: w.entries[i].tag.RawTag? && w.entries[i].lo == Packed(p.raws[i]))
    && (forall t | 0 <= t < |w.threads| :: w.threads[t] == [])
  }

  ghost predicate IsRun(p: Pool, run: seq<World>)
    requires PoolOk(p)
  {
    && run != [] && Init(p, run[0])
    && forall k: nat | k + 1 < |run| :: Next(p, run[k], run[k + 1])
  }

  // ----- the invariant -----

  lemma IndicesUnpack(r: Raw)
    requires r.first < 0x1_0000 && r.second < 0x1_0000
    ensures FirstIndex(Packed(r)) == r.first && SecondIndex(Packed(r)) == r.second
  {
  }

  lemma HalvesJoin(v: int)
    ensures Join(Lo(v), Hi(v)) == v
  {
  }

  /** Both halves hold the final value. */
  ghost predicate Settled(p: Pool, e: Entry, i: nat)
    requires PoolOk(p) && i < |p.raws|
  {
    Value(p, i).Some? && !e.tag.RawTag? && e.lo == Lo(Value(p, i).value) && e.hi == Hi(Value(p, i).value)
  }

  ghost predicate EntryInv(p: Pool, e: Entry, i: nat)
    requires PoolOk(p) && i < |p.raws|
  {
    match e.tag
    case RawTag => e.lo == Packed(p.raws[i])
    case Locked => true
    case Resolved => Settled(p, e, i)
  }

  ghost predicate ActivationInv(p: Pool, entries: seq<Entry>, act: Activation)
    requires PoolOk(p) && |entries| == |p.raws|
  {
    var i := act.entry;
    && i < |p.raws|
    && var e, r := entries[i], p.raws[i];
       match act.phase
       case Retry => true
       case ReadFirst => true
       case ReadSecond(a) => r.kind.MemberRef? && (e.tag.RawTag? ==> a == r.first)
       case Recheck(a, b) => e.tag.RawTag? ==> a == r.first && (r.kind.MemberRef? ==> b == r.second)
       case Find(a, b) => a == r.first && (r.kind.MemberRef? ==> b == r.second)
       case Awaiting(a, b) => r.kind.MemberRef? && a == r.first && b == r.second
       case Locking(v) => Value(p, i) == Some(v)
       case LockingString(a) => r.kind.StringRef? && a == r.first
       case Interning(a) => r.kind.StringRef? && a == r.first && !e.tag.RawTag?
       case Probing(a) => r.kind.StringRef? && a == r.first && !e.tag.RawTag?
       case Storing(v, low, high) =>
         && Value(p, i) == Some(v) && !e.tag.RawTag?
         && (low ==> e.lo == Lo(v)) && (high ==> e.hi == Hi(v))
       case Loading(lo, hi) =>
         && Settled(p, e, i)
         && (lo.Some? ==> lo.value == e.lo) && (hi.Some? ==> hi.value == e.hi)
       case Finished(result) => result.Some? ==> Value(p, i) == result
  }

  /** All calls of a thread but the innermost wait for the class they named. */
  ghost predicate Nested(p: Pool, th: Thread)
    requires PoolOk(p)
  {
    forall k | 0 <= k < |th| - 1 :: th[k].phase.Awaiting? && th[k].phase.a == th[k + 1].entry
  }

  ghost predicate ThreadInv(p: Pool, entries: seq<Entry>, th: Thread)
    requires PoolOk(p) && |entries| == |p.raws|
  {
    Nested(p, th) && forall k | 0 <= k < |th| :: ActivationInv(p, entries, th[k])
  }

  /** The activation has written Locked, and Resolved is still to come. */
  predicate Fills(ph: Phase) { ph.Interning? || ph.Probing? || ph.Storing? }

  /** Thread t is storing the value of entry i. */
  ghost predicate StoresAt(w: World, t: nat, i: nat) {
    t < |w.threads| && w.threads[t] != [] && Top(w.threads[t]).entry == i && Fills(Top(w.threads[t]).phase)
  }

  predicate IsProbing(th: Thread) { th != [] && Top(th).phase.Probing? }

  /** The lock is held by a resolving thread exactly while that thread probes the string table. */
  ghost predicate LockInv(w: World) {
    && (w.lock.HeldBy? ==> w.lock.thread < |w.threads|)
    && forall t: nat | t < |w.threads| :: IsProbing(w.threads[t]) <==> w.lock == HeldBy(t)
  }

  ghost predicate Inv(p: Pool, w: World)
    requires PoolOk(p)
  {
    && |w.entries| == |p.raws|
    && (forall i | 0 <= i < |w.entries| :: EntryInv(p, w.entries[i], i))
    && (forall t | 0 <= t < |w.threads| :: ThreadInv(p, w.entries, w.threads[t]))
    && (forall i: nat | i < |w.entries| && w.entries[i].tag.Locked? :: exists t: nat :: StoresAt(w, t, i))
    && LockInv(w)
  }

  /** An entry never becomes raw again, and a half that holds its final value keeps it. */
  ghost predicate EntryAdvances(p: Pool, e: Entry, e': Entry, i: nat)
    requires PoolOk(p) && i < |p.raws|
  {
    && (e'.tag.RawTag? ==> e' == e)
    && (Value(p, i).Some? && !e.tag.RawTag? && e.lo == Lo(Value(p, i).value) ==> e'.lo == e.lo)
    && (Value(p, i).Some? && !e.tag.RawTag? && e.hi == Hi(Value(p, i).value) ==> e'.hi == e.hi)
  }

  ghost predicate Advances(p: Pool, entries: seq<Entry>, entries': seq<Entry>)
    requires PoolOk(p)
  {
    |entries| == |entries'| == |p.raws| && forall i | 0 <= i < |entries| :: EntryAdvances(p, entries[i], entries'[i], i)
  }

  lemma ActivationStays(p: Pool, entries: seq<Entry>, entries': seq<Entry>, act: Activation)
    requires PoolOk(p) && Advances(p, entries, entries') && ActivationInv(p, entries, act)
    ensures ActivationInv(p, entries', act)
  {
    assert EntryAdvances(p, entries[act.entry], entries'[act.entry], act.entry);
    hide PoolOk;
    hide Value;
  }

  lemma ThreadStays(p: Pool, entries: seq<Entry>, entries': seq<Entry>, th: Thread)
    requires PoolOk(p) && Advances(p, entries, entries') && ThreadInv(p, entries, th)
    ensures ThreadInv(p, entries', th)
  {
    hide ActivationInv;
    hide PoolOk;
    forall k | 0 <= k < |th| ensures ActivationInv(p, entries', th[k]) {
      ActivationStays(p, entries, entries', th[k]);
    }
  }

  // ----- one access keeps it -----

  lemma BecomeKeeps(p: Pool, entries: seq<Entry>, th: Thread, ph: Phase)
    requires PoolOk(p) && |entries| == |p.raws| && th != [] && ThreadInv(p, entries, th)
    requires ActivationInv(p, entries, Activation(Top(th).entry, ph))
    ensures ThreadInv(p, entries, Become(th, ph))
  {
    hide ActivationInv;
    hide PoolOk;
    var th' := Become(th, ph);
    forall k | 0 <= k < |th'| ensures ActivationInv(p, entries, th'[k]) {
      assert k < |th| - 1 ==> th'[k] == th[k];
    }
  }

  /** What one access of the innermost activation does to its entry and to itself. */
  ghost predicate AccessOk(p: Pool, e: Entry, e': Entry, i: nat, ph: Phase)
    requires PoolOk(p) && i < |p.raws|
  {
    && EntryAdvances(p, e, e', i) && EntryInv(p, e', i)
    && (e'.tag.Locked? ==> e' == e || Fills(ph))
  }

  lemma ReadingAccess(p: Pool, w: World, t: nat, w': World, i: nat, phase: Phase)
    requires PoolOk(p) && Inv(p, w) && t < |w.threads| && w.threads[t] != [] && i < |w.entries|
    requires Top(w.threads[t]) == Activation(i, phase) && ActivationStep(p, w, t, w', i, phase)
    requires phase.Retry? || phase.ReadFirst? || phase.ReadSecond? || phase.Recheck? || phase.Loading?
    ensures w'.threads == w.threads[t := Become(w.threads[t], Top(w'.threads[t]).phase)] && w'.entries == w.entries
    ensures ActivationInv(p, w'.entries, Activation(i, Top(w'.threads[t]).phase))
  {
    var r, e := p.raws[i], w.entries[i];
    assert ThreadInv(p, w.entries, w.threads[t]) && ActivationInv(p, w.entries, Top(w.threads[t])) && EntryInv(p, e, i);
    assert w.entries[i := e] == w.entries;
    IndicesUnpack(r);
    if Value(p, i).Some? {
      HalvesJoin(Value(p, i).value);
    }
    hide Value;
    hide FirstIndex;
    hide SecondIndex;
    hide Packed;
    hide Inv;
    hide ThreadInv;
    hide Lo;
    hide Hi;
    hide Join;
  }

  lemma WritingAccess(p: Pool, w: World, t: nat, w': World, i: nat, phase: Phase)
    requires PoolOk(p) && Inv(p, w) && t < |w.threads| && w.threads[t] != [] && i < |w.entries|
    requires Top(w.threads[t]) == Activation(i, phase) && ActivationStep(p, w, t, w', i, phase)
    requires phase.Locking? || phase.LockingString? || phase.Storing?
    ensures w'.threads == w.threads[t := Become(w.threads[t], Top(w'.threads[t]).phase)]
    ensures |w'.entries| == |w.entries| && w'.entries == w.entries[i := w'.entries[i]]
    ensures AccessOk(p, w.entries[i], w'.entries[i], i, Top(w'.threads[t]).phase)
    ensures ActivationInv(p, w'.entries, Activation(i, Top(w'.threads[t]).phase))
  {
    var e := w.entries[i];
    assert ThreadInv(p, w.entries, w.threads[t]) && ActivationInv(p, w.entries, Top(w.threads[t])) && EntryInv(p, e, i);
    hide Value;
    hide Packed;
    hide Inv;
    hide ThreadInv;
    hide Lo;
    hide Hi;
  }

  /** Taking and releasing the lock of the string table. */
  lemma LockAccess(p: Pool, w: World, t: nat, w': World, i: nat, phase: Phase)
    requires PoolOk(p) && Inv(p, w) && t < |w.threads| && w.threads[t] != [] && i < |w.entries|
    requires Top(w.threads[t]) == Activation(i, phase) && ActivationStep(p, w, t, w', i, phase)
    requires phase.Interning? || phase.Probing?
    ensures w'.threads == w.threads[t := Become(w.threads[t], Top(w'.threads[t]).phase)] && w'.entries == w.entries
    ensures ActivationInv(p, w'.entries, Activation(i, Top(w'.threads[t]).phase)) && StoresAt(w', t, i)
  {
    assert ThreadInv(p, w.entries, w.threads[t]) && ActivationInv(p, w.entries, Top(w.threads[t]));
    hide Inv;
    hide ThreadInv;
    hide Lo;
    hide Hi;
  }

  /** The lock after a step of thread t. */
  lemma LockStays(p: Pool, w: World, t: nat, w': World)
    requires PoolOk(p) && LockInv(w) && |w.entries| == |p.raws| && t < |w.threads| && StepOf(p, w, t, w')
    requires |w'.threads| == |w.threads| && w'.threads == w.threads[t := w'.threads[t]]
    ensures LockInv(w')
  {
    var th := w.threads[t];
    if th == [] {
      var i: nat :| i < |p.raws| && Moves(w, t, w', [Activation(i, Retry)], i, w.entries[i]);
    } else if Top(th).phase.Finished? && |th| > 1 {
      ReturnIsNoProbe(p, w, t, w', Top(th).entry, Top(th).phase.result);
    }
    hide PoolOk;
    hide Value;
    hide ReturnStep;
    assert w'.lock != w.lock ==> Top(th).phase.Interning? || Top(th).phase.Probing?;
    assert IsProbing(th) ==> w'.lock.Free?;
    assert IsProbing(w'.threads[t]) ==> w'.lock == HeldBy(t);
  }

  lemma ReturnIsNoProbe(p: Pool, w: World, t: nat, w': World, i: nat, result: Option<int>)
    requires PoolOk(p) && |w.entries| == |p.raws| && t < |w.threads| && |w.threads[t]| >= 2 && i < |w.entries|
    requires ReturnStep(p, w, t, w', i, result)
    ensures w'.lock == w.lock && |w'.threads| == |w.threads| && !IsProbing(w'.threads[t])
  {
  }

  /** Calling and returning between activations touches no entry. */
  lemma FindAccess(p: Pool, w: World, t: nat, w': World, i: nat, phase: Phase)
    requires PoolOk(p) && Inv(p, w) && t < |w.threads| && w.threads[t] != [] && i < |w.entries|
    requires Top(w.threads[t]) == Activation(i, phase) && ActivationStep(p, w, t, w', i, phase) && phase.Find?
    ensures w'.entries == w.entries && |w'.threads| == |w.threads| && w'.threads == w.threads[t := w'.threads[t]]
    ensures ThreadInv(p, w'.entries, w'.threads[t])
  {
    var th := w.threads[t];
    assert ThreadInv(p, w.entries, th) && ActivationInv(p, w.entries, Top(th));
    assert w.entries[i := w.entries[i]] == w.entries;
    hide Inv;
    var a, b := phase.a, phase.b;
    if p.raws[i].kind.MemberRef? {
      BecomeKeeps(p, w.entries, th, Awaiting(a, b));
      hide ThreadInv;
      NestOne(p, w.entries, Become(th, Awaiting(a, b)), a);
    } else {
      var ph := Top(w'.threads[t]).phase;
      hide ThreadInv;
      BecomeKeeps(p, w.entries, th, ph);
    }
  }

  lemma NestOne(p: Pool, entries: seq<Entry>, th: Thread, a: nat)
    requires PoolOk(p) && |entries| == |p.raws| && th != [] && ThreadInv(p, entries, th) && a < |p.raws|
    requires Top(th).phase.Awaiting? && Top(th).phase.a == a
    ensures ThreadInv(p, entries, th + [Activation(a, Retry)])
  {
  }

  lemma ReturnAccess(p: Pool, w: World, t: nat, w': World, i: nat, phase: Phase)
    requires PoolOk(p) && Inv(p, w) && t < |w.threads| && w.threads[t] != [] && i < |w.entries|
    requires Top(w.threads[t]) == Activation(i, phase) && ActivationStep(p, w, t, w', i, phase) && phase.Finished?
    ensures w'.entries == w.entries && |w'.threads| == |w.threads| && w'.threads == w.threads[t := w'.threads[t]]
    ensures ThreadInv(p, w'.entries, w'.threads[t])
  {
    var th := w.threads[t];
    assert ThreadInv(p, w.entries, th) && ActivationInv(p, w.entries, Top(th));
    assert w.entries[i := w.entries[i]] == w.entries;
    hide Inv;
    if |th| > 1 {
      var caller := th[..|th| - 1];
      PrefixInv(p, w.entries, th);
      assert ActivationInv(p, w.entries, Top(caller)) && th[|th| - 2].phase.a == th[|th| - 1].entry;
      var ph := Top(w'.threads[t]).phase;
      hide ThreadInv;
      BecomeKeeps(p, w.entries, caller, ph);
    }
  }

  lemma PrefixInv(p: Pool, entries: seq<Entry>, th: Thread)
    requires PoolOk(p) && |entries| == |p.raws| && |th| >= 2 && ThreadInv(p, entries, th)
    ensures ThreadInv(p, entries, th[..|th| - 1])
  {
  }

  /** The stepping thread and its entry after one access. */
  lemma OwnStep(p: Pool, w: World, t: nat, w': World)
    requires PoolOk(p) && Inv(p, w) && t < |w.threads| && StepOf(p, w, t, w')
    ensures |w'.entries| == |w.entries| == |p.raws|
    ensures |w'.threads| == |w.threads| && w'.threads == w.threads[t := w'.threads[t]]
    ensures ThreadInv(p, w'.entries, w'.threads[t]) && Advances(p, w.entries, w'.entries)
    ensures forall i | 0 <= i < |w.entries| :: EntryInv(p, w'.entries[i], i)
    ensures forall i: nat | i < |w.entries| && w'.entries[i].tag.Locked? ::
        w'.entries[i] == w.entries[i] || StoresAt(w', t, i)
    ensures forall i: nat | i < |w.entries| && StoresAt(w, t, i) :: StoresAt(w', t, i) || w'.entries[i].tag.Resolved?
  {
    var th := w.threads[t];
    if th == [] {
      var i: nat :| i < |p.raws| && Moves(w, t, w', [Activation(i, Retry)], i, w.entries[i]);
      assert w.entries[i := w.entries[i]] == w.entries;
    } else {
      var i, phase := Top(th).entry, Top(th).phase;
      assert w.entries[i := w.entries[i]] == w.entries;
      assert ThreadInv(p, w.entries, th);
      if phase.Find? {
        FindAccess(p, w, t, w', i, phase);
      } else if phase.Finished? {
        ReturnAccess(p, w, t, w', i, phase);
      } else if phase.Interning? || phase.Probing? {
        LockAccess(p, w, t, w', i, phase);
        hide ActivationStep;
        hide ActivationInv;
        hide PoolOk;
        BecomeKeeps(p, w'.entries, th, Top(w'.threads[t]).phase);
      } else if phase.Locking? || phase.LockingString? || phase.Storing? {
        WritingAccess(p, w, t, w', i, phase);
        if phase.Storing? {
          StoringGoesOn(p, w, t, w', i, phase);
        }
        hide ActivationStep;
        hide ActivationInv;
        hide PoolOk;
        OneEntry(p, w.entries, w'.entries, i, Top(w'.threads[t]).phase);
        ThreadStays(p, w.entries, w'.entries, th);
        BecomeKeeps(p, w'.entries, th, Top(w'.threads[t]).phase);
        hide ThreadInv;
        hide EntryInv;
        hide EntryAdvances;
      } else {
        ReadingAccess(p, w, t, w', i, phase);
        hide ActivationStep;
        hide ActivationInv;
        hide PoolOk;
        BecomeKeeps(p, w'.entries, th, Top(w'.threads[t]).phase);
      }
    }
  }

  lemma StoringGoesOn(p: Pool, w: World, t: nat, w': World, i: nat, phase: Phase)
    requires PoolOk(p) && Inv(p, w) && t < |w.threads| && w.threads[t] != [] && i < |w.entries|
    requires Top(w.threads[t]) == Activation(i, phase) && ActivationStep(p, w, t, w', i, phase) && phase.Storing?
    ensures StoresAt(w', t, i) || w'.entries[i].tag.Resolved?
  {
  }

  lemma OneEntry(p: Pool, entries: seq<Entry>, entries': seq<Entry>, i: nat, ph: Phase)
    requires PoolOk(p) && |entries| == |p.raws| == |entries'| && i < |entries| && entries' == entries[i := entries'[i]]
    requires forall k | 0 <= k < |entries| :: EntryInv(p, entries[k], k)
    requires AccessOk(p, entries[i], entries'[i], i, ph)
    ensures Advances(p, entries, entries') && forall k | 0 <= k < |entries| :: EntryInv(p, entries'[k], k)
  {
  }

  lemma StepKeepsInv(p: Pool, w: World, w': World)
    requires PoolOk(p) && Inv(p, w) && Next(p, w, w')
    ensures Inv(p, w') && Advances(p, w.entries, w'.entries)
  {
    hide StepOf;
    if OutsideStep(w, w') {
      OutsideKeepsInv(p, w, w');
    } else {
      var t: nat :| t < |w.threads| && StepOf(p, w, t, w');
      ThreadStepKeepsInv(p, w, t, w');
    }
  }

  lemma OutsideKeepsInv(p: Pool, w: World, w': World)
    requires PoolOk(p) && Inv(p, w) && OutsideStep(w, w')
    ensures Inv(p, w') && Advances(p, w.entries, w'.entries)
  {
    hide PoolOk;
    hide ThreadInv;
    hide EntryInv;
    hide Value;
    forall i: nat | i < |w'.entries| && w'.entries[i].tag.Locked? ensures exists k: nat :: StoresAt(w', k, i) {
      var k: nat :| StoresAt(w, k, i);
      assert StoresAt(w', k, i);
    }
  }

  lemma ThreadStepKeepsInv(p: Pool, w: World, t: nat, w': World)
    requires PoolOk(p) && Inv(p, w) && t < |w.threads| && StepOf(p, w, t, w')
    ensures Inv(p, w') && Advances(p, w.entries, w'.entries)
  {
    OwnStep(p, w, t, w');
    LockStays(p, w, t, w');
    hide LockInv;
    hide StepOf;
    hide ThreadInv;
    hide EntryInv;
    hide EntryAdvances;
    hide PoolOk;
    forall k | 0 <= k < |w'.threads| ensures ThreadInv(p, w'.entries, w'.threads[k]) {
      if k != t {
        ThreadStays(p, w.entries, w'.entries, w.threads[k]);
      }
    }
    forall i: nat | i < |w'.entries| && w'.entries[i].tag.Locked? ensures exists k: nat :: StoresAt(w', k, i) {
      if !StoresAt(w', t, i) {
        var k: nat :| StoresAt(w, k, i);
        assert StoresAt(w', k, i);
      }
    }
  }

  // ----- every run -----

  lemma {:induction false} RunInv(p: Pool, run: seq<World>, k: nat)
    requires PoolOk(p) && IsRun(p, run) && k < |run|
    ensures Inv(p, run[k])
  {
    hide PoolOk;
    hide Next;
    if k > 0 {
      hide Inv;
      RunInv(p, run, k - 1);
      assert Next(p, run[k - 1], run[k - 1 + 1]);
      StepKeepsInv(p, run[k - 1], run[k]);
    }
  }

  /** Indices are used only if they were read from an entry that was still raw, so they are the ones
      of the class file, although the entry may hold half a pointer by now (resolve.c:78-81). */
  lemma DecodedIndicesAreOriginal(p: Pool, run: seq<World>, k: nat, t: nat)
    requires PoolOk(p) && IsRun(p, run) && k < |run| && t < |run[k].threads| && run[k].threads[t] != []
    requires Top(run[k].threads[t]).phase.Find?
    ensures var i, ph := Top(run[k].threads[t]).entry, Top(run[k].threads[t]).phase;
            i < |p.raws| && ph.a == p.raws[i].first && (p.raws[i].kind.MemberRef? ==> ph.b == p.raws[i].second)
  {
    RunInv(p, run, k);
    hide PoolOk;
    hide IsRun;
    assert ThreadInv(p, run[k].entries, run[k].threads[t]);
    assert ActivationInv(p, run[k].entries, Top(run[k].threads[t]));
  }

  /** Every call that succeeds returns the one value of its entry: calls that found it themselves,
      calls that read it half by half, and calls that raced with others storing it. */
  lemma ResolversAgree(p: Pool, run: seq<World>, k: nat, t: nat, n: nat)
    requires PoolOk(p) && IsRun(p, run) && k < |run| && t < |run[k].threads| && n < |run[k].threads[t]|
    requires run[k].threads[t][n].phase.Finished? && run[k].threads[t][n].phase.result.Some?
    ensures var act := run[k].threads[t][n];
            act.entry < |p.raws| && Value(p, act.entry) == act.phase.result
  {
    RunInv(p, run, k);
    hide PoolOk;
    hide IsRun;
    hide Value;
    assert ThreadInv(p, run[k].entries, run[k].threads[t]);
    assert ActivationInv(p, run[k].entries, run[k].threads[t][n]);
  }

  /** A resolved tag means the whole value is there, and it stays in memory from then on, even while
      another thread locks the entry again to store the same value. */
  lemma {:induction false} ResolvedValueStays(p: Pool, run: seq<World>, j: nat, k: nat, i: nat)
    requires PoolOk(p) && IsRun(p, run) && j <= k < |run| && i < |run[j].entries| && run[j].entries[i].tag.Resolved?
    ensures i < |p.raws| && i < |run[k].entries| && !run[k].entries[i].tag.RawTag? && Value(p, i).Some?
    ensures Join(run[k].entries[i].lo, run[k].entries[i].hi) == Value(p, i).value
    decreases k - j
  {
    SettledStays(p, run, j, k, i);
    HalvesJoin(Value(p, i).value);
  }

  lemma {:induction false} SettledStays(p: Pool, run: seq<World>, j: nat, k: nat, i: nat)
    requires PoolOk(p) && IsRun(p, run) && j <= k < |run| && i < |run[j].entries| && run[j].entries[i].tag.Resolved?
    ensures i < |p.raws| && i < |run[k].entries| && Settled(p, run[k].entries[i], i)
    decreases k - j
  {
    hide PoolOk;
    hide Next;
    hide Init;
    hide Value;
    if j == k {
      RunInv(p, run, k);
      assert EntryInv(p, run[k].entries[i], i);
      hide Inv;
    } else {
      SettledStays(p, run, j, k - 1, i);
      RunInv(p, run, k - 1);
      assert Next(p, run[k - 1], run[k - 1 + 1]);
      StepKeepsInv(p, run[k - 1], run[k]);
      assert EntryAdvances(p, run[k - 1].entries[i], run[k].entries[i], i);
      hide Inv;
    }
  }

  /** The tag never becomes raw again, and a raw entry has never been touched. */
  lemma {:induction false} NeverRawAgain(p: Pool, run: seq<World>, j: nat, k: nat, i: nat)
    requires PoolOk(p) && IsRun(p, run) && j <= k < |run| && i < |run[j].entries|
    ensures i < |run[k].entries| && (run[k].entries[i].tag.RawTag? ==> run[j].entries[i] == run[k].entries[i])
    decreases k - j
  {
    hide PoolOk;
    hide Next;
    hide Init;
    hide Value;
    hide Inv;
    if j < k {
      NeverRawAgain(p, run, j, k - 1, i);
      RunInv(p, run, k - 1);
      assert Next(p, run[k - 1], run[k - 1 + 1]);
      StepKeepsInv(p, run[k - 1], run[k]);
      assert EntryAdvances(p, run[k - 1].entries[i], run[k].entries[i], i);
    }
  }

  /** Nobody spins on a dead lock: behind every locked entry there is a thread that is storing, and
      whatever the others do it can take its next step, or it waits for the lock of the string table and
      the holder of that lock can release it. */
  lemma SomeoneIsStoring(p: Pool, run: seq<World>, k: nat, i: nat) returns (t: nat, w': World)
    requires PoolOk(p) && IsRun(p, run) && k < |run| && i < |run[k].entries| && run[k].entries[i].tag.Locked?
    ensures StoresAt(run[k], t, i) && |run[k].entries| == |p.raws| && Next(p, run[k], w')
    ensures StepOf(p, run[k], t, w') || (Top(run[k].threads[t]).phase.Interning? && !run[k].lock.Free? && w'.lock.Free?)
  {
    RunInv(p, run, k);
    hide PoolOk;
    hide IsRun;
    hide Value;
    var w := run[k];
    t :| StoresAt(w, t, i);
    if Top(w.threads[t]).phase.Interning? && !w.lock.Free? {
      w' := LockIsReleased(p, w);
    } else {
      w' := FillerSteps(p, w, t, i);
      assert Next(p, w, w') by {
        hide StepOf;
      }
    }
  }

  lemma LockIsReleased(p: Pool, w: World) returns (w': World)
    requires PoolOk(p) && Inv(p, w) && !w.lock.Free?
    ensures Next(p, w, w') && w'.lock.Free?
  {
    if w.lock.Outside? {
      w' := w.(lock := Free);
    } else {
      var u := w.lock.thread;
      var th := w.threads[u];
      assert IsProbing(th) && ThreadInv(p, w.entries, th) && ActivationInv(p, w.entries, Top(th));
      hide Inv;
      hide ThreadInv;
      hide Value;
      w' := World(w.entries, w.threads[u := Become(th, Storing(p.interned(Top(th).phase.a), false, false))], Free);
      assert StepOf(p, w, u, w');
    }
  }

  /** The thread that fills an entry can go on, if it does not wait for the lock. */
  lemma FillerSteps(p: Pool, w: World, t: nat, i: nat) returns (w': World)
    requires PoolOk(p) && Inv(p, w) && StoresAt(w, t, i) && i < |w.entries|
    requires Top(w.threads[t]).phase.Interning? ==> w.lock.Free?
    ensures |w.entries| == |p.raws| && StepOf(p, w, t, w')
  {
    var th, e := w.threads[t], w.entries[i];
    assert ThreadInv(p, w.entries, th) && ActivationInv(p, w.entries, Top(th));
    hide Inv;
    hide ThreadInv;
    hide Value;
    var ph := Top(th).phase;
    if ph.Interning? {
      w' := World(w.entries, w.threads[t := Become(th, Probing(ph.a))], HeldBy(t));
    } else if ph.Probing? {
      w' := World(w.entries, w.threads[t := Become(th, Storing(p.interned(ph.a), false, false))], Free);
    } else if ph.low && ph.high {
      var ph' := if p.raws[i].kind.StringRef? then Loading(None, None) else Finished(Some(ph.v));
      w' := World(w.entries[i := e.(tag := Resolved)], w.threads[t := Become(th, ph')], w.lock);
    } else if !ph.low {
      w' := World(w.entries[i := e.(lo := Lo(ph.v))], w.threads[t := Become(th, Storing(ph.v, true, ph.high))], w.lock);
    } else {
      w' := World(w.entries[i := e.(hi := Hi(ph.v))], w.threads[t := Become(th, Storing(ph.v, ph.low, true))], w.lock);
    }
  }

  // ----- which calls succeed -----

  /** Call n of thread t is in progress in all of these states. */
  ghost predicate InProgress(run: seq<World>, t: nat, n: nat, b: nat, k: nat) {
    && b <= k < |run|
    && forall x: nat {:trigger run[x]} | b <= x <= k :: t < |run[x].threads| && n < |run[x].threads[t]|
  }

  /** A call that has changed is the innermost of the stepping thread, or its caller if it has finished. */
  lemma CallChanges(p: Pool, w: World, w': World, t: nat, n: nat)
    requires PoolOk(p) && Inv(p, w) && Next(p, w, w')
    requires t < |w.threads| && n < |w.threads[t]| && t < |w'.threads| && n < |w'.threads[t]|
    requires w'.threads[t][n] != w.threads[t][n]
    ensures StepOf(p, w, t, w')
    ensures n == |w.threads[t]| - 1 || (n == |w.threads[t]| - 2 && Top(w.threads[t]).phase.Finished?)
  {
    hide StepOf;
    assert !OutsideStep(w, w');
    var u: nat :| u < |w.threads| && StepOf(p, w, u, w');
    OnlyOwnThread(p, w, u, w', n);
  }

  lemma OnlyOwnThread(p: Pool, w: World, t: nat, w': World, n: nat)
    requires PoolOk(p) && Inv(p, w) && t < |w.threads| && StepOf(p, w, t, w')
    ensures |w'.threads| == |w.threads| && w'.threads == w.threads[t := w'.threads[t]]
    ensures n < |w.threads[t]| && n < |w'.threads[t]| && w'.threads[t][n] != w.threads[t][n] ==>
              n == |w.threads[t]| - 1 || (n == |w.threads[t]| - 2 && Top(w.threads[t]).phase.Finished?)
  {
    hide Inv;
    hide PoolOk;
    hide StepOf;
    hide ThreadInv;
    hide EntryInv;
    hide Advances;
    hide StoresAt;
    OwnStep(p, w, t, w');
    SizesAgree(p, w);
    if n < |w.threads[t]| - 1 {
      LowerCallsStay(p, w, t, w', n);
    }
  }

  lemma BecomeKeepsLower(th: Thread, n: nat)
    requires n < |th| - 1
    ensures forall ph {:trigger Become(th, ph)} :: |Become(th, ph)| == |th| && Become(th, ph)[n] == th[n]
  {
  }

  /** But for the caller of one that returns, the outer calls stay as they are. */
  lemma LowerCallsStay(p: Pool, w: World, t: nat, w': World, n: nat)
    requires PoolOk(p) && |w.entries| == |p.raws| && t < |w.threads| && StepOf(p, w, t, w') && n < |w.threads[t]| - 1
    ensures |w'.threads| == |w.threads| && n < |w'.threads[t]|
    ensures n < |w.threads[t]| - 2 || !Top(w.threads[t]).phase.Finished? ==> w'.threads[t][n] == w.threads[t][n]
  {
    hide PoolOk;
    hide Join;
    hide Lo;
    hide Hi;
    hide FirstIndex;
    hide SecondIndex;
    var th := w.threads[t];
    if Top(th).phase.Finished? {
      ReturnKeepsLower(p, w, t, w', n);
    } else {
      BecomeKeepsLower(th, n);
      hide Become;
      hide ReturnStep;
    }
  }

  lemma ReturnKeepsLower(p: Pool, w: World, t: nat, w': World, n: nat)
    requires PoolOk(p) && |w.entries| == |p.raws| && t < |w.threads| && |w.threads[t]| >= 2 && n < |w.threads[t]| - 1
    requires Top(w.threads[t]).entry < |w.entries| && Top(w.threads[t]).phase.Finished?
    requires ReturnStep(p, w, t, w', Top(w.threads[t]).entry, Top(w.threads[t]).phase.result)
    ensures |w'.threads| == |w.threads| && n < |w'.threads[t]|
    ensures n < |w.threads[t]| - 2 ==> w'.threads[t][n] == w.threads[t][n]
  {
    hide PoolOk;
    var th := w.threads[t];
    var caller := th[..|th| - 1];
    if n < |caller| - 1 {
      BecomeKeepsLower(caller, n);
      assert caller[n] == th[n];
    }
  }

  /** What a call for a resolved entry may become. */
  predicate ReadsValue(p: Pool, act: Activation, i: nat)
    requires PoolOk(p) && i < |p.raws|
  {
    act.entry == i && (act.phase.Retry? || act.phase.Loading? || act.phase == Finished(Value(p, i)))
  }

  lemma ReaderStep(p: Pool, w: World, t: nat, w': World, n: nat, i: nat)
    requires PoolOk(p) && Inv(p, w) && t < |w.threads| && n == |w.threads[t]| - 1 && StepOf(p, w, t, w')
    requires i < |p.raws| && ReadsValue(p, w.threads[t][n], i) && Settled(p, w.entries[i], i)
    requires t < |w'.threads| && n < |w'.threads[t]|
    ensures ReadsValue(p, w'.threads[t][n], i)
  {
    var th := w.threads[t];
    assert ThreadInv(p, w.entries, th) && ActivationInv(p, w.entries, Top(th));
    hide Inv;
    hide ThreadInv;
    hide PoolOk;
    if th[n].phase.Finished? {
      hide ActivationInv;
    } else {
      HalvesJoin(Value(p, i).value);
      hide Join;
      hide Lo;
      hide Hi;
      hide Value;
    }
  }

  /** Once an entry was resolved, every call for it that begins or begins again returns its value, never NULL. */
  lemma {:induction false} ResolvedCallsSucceed(
      p: Pool, run: seq<World>, j: nat, b: nat, k: nat, t: nat, n: nat, i: nat)
    requires PoolOk(p) && IsRun(p, run) && j <= b && InProgress(run, t, n, b, k)
    requires i < |run[j].entries| && run[j].entries[i].tag.Resolved?
    requires run[b].threads[t][n] == Activation(i, Retry)
    ensures i < |p.raws| && ReadsValue(p, run[k].threads[t][n], i) && Value(p, i).Some?
    ensures run[k].threads[t][n].phase.Finished? ==> run[k].threads[t][n].phase.result == Value(p, i)
    decreases k - b
  {
    hide Next;
    hide Init;
    hide Value;
    hide PoolOk;
    hide Inv;
    SettledStays(p, run, j, k, i);
    if b < k {
      assert InProgress(run, t, n, b, k - 1);
      ResolvedCallsSucceed(p, run, j, b, k - 1, t, n, i);
      SettledStays(p, run, j, k - 1, i);
      RunInv(p, run, k - 1);
      assert Next(p, run[k - 1], run[k - 1 + 1]);
      hide IsRun;
      hide Settled;
      hide StepOf;
      ReaderGoesOn(p, run[k - 1], run[k], t, n, i);
    }
  }

  lemma ReaderGoesOn(p: Pool, w: World, w': World, t: nat, n: nat, i: nat)
    requires PoolOk(p) && Inv(p, w) && Next(p, w, w') && i < |p.raws| && i < |w.entries|
    requires t < |w.threads| && n < |w.threads[t]| && t < |w'.threads| && n < |w'.threads[t]|
    requires ReadsValue(p, w.threads[t][n], i) && Settled(p, w.entries[i], i)
    ensures ReadsValue(p, w'.threads[t][n], i)
  {
    hide StepOf;
    hide PoolOk;
    hide Settled;
    if w'.threads[t][n] != w.threads[t][n] {
      CallChanges(p, w, w', t, n);
      if n == |w.threads[t]| - 2 {
        WaitsForNested(p, w, t, n);
      } else {
        ReaderStep(p, w, t, w', n, i);
      }
    }
    hide Inv;
    hide Next;
  }

  lemma WaitsForNested(p: Pool, w: World, t: nat, n: nat)
    requires PoolOk(p) && Inv(p, w) && t < |w.threads| && n < |w.threads[t]| - 1
    ensures w.threads[t][n].phase.Awaiting? && w.threads[t][n].phase.a == w.threads[t][n + 1].entry
    ensures ActivationInv(p, w.entries, w.threads[t][n])
  {
    assert ThreadInv(p, w.entries, w.threads[t]);
  }

  /** The step by which call n of thread t fails: the search for its class fails, or the nested resolveClass
      has ended and the member cannot be had. The indices are those of the class file. */
  ghost predicate Fails(p: Pool, w: World, w': World, t: nat, n: nat)
    requires PoolOk(p)
  {
    && t < |w.threads| && n < |w.threads[t]| && t < |w'.threads| && n < |w'.threads[t]|
    && var act := w.threads[t][n];
       && act.entry < |p.raws| && w'.threads[t][n] == Activation(act.entry, Finished(None))
       && var r := p.raws[act.entry];
          || (r.kind.ClassRef? && act.phase.Find? && act.phase.a == r.first)
          || (&& r.kind.MemberRef? && act.phase == Awaiting(r.first, r.second)
              && n == |w.threads[t]| - 2 && Top(w.threads[t]).entry == r.first && Top(w.threads[t]).phase.Finished?)
  }

  lemma FailingStep(p: Pool, w: World, w': World, t: nat, n: nat)
    requires PoolOk(p) && Inv(p, w) && Next(p, w, w')
    requires t < |w.threads| && n < |w.threads[t]| && t < |w'.threads| && n < |w'.threads[t]|
    requires w'.threads[t][n] != w.threads[t][n] && w'.threads[t][n].phase == Finished(None)
    ensures Fails(p, w, w', t, n)
  {
    hide StepOf;
    hide Inv;
    hide PoolOk;
    hide Fails;
    CallChanges(p, w, w', t, n);
    hide Next;
    if n == |w.threads[t]| - 2 {
      CallerFails(p, w, w', t, n);
    } else {
      SearchFails(p, w, w', t, n);
    }
  }

  lemma SearchFails(p: Pool, w: World, w': World, t: nat, n: nat)
    requires PoolOk(p) && Inv(p, w) && t < |w.threads| && n == |w.threads[t]| - 1 && StepOf(p, w, t, w')
    requires t < |w'.threads| && n < |w'.threads[t]|
    requires w'.threads[t][n] != w.threads[t][n] && w'.threads[t][n].phase == Finished(None)
    ensures Fails(p, w, w', t, n)
  {
    hide Fails;
    hide Inv;
    hide PoolOk;
    hide ActivationInv;
    hide Value;
    hide Join;
    hide Lo;
    hide Hi;
    hide ReturnStep;
    SizesAgree(p, w);
    InnermostOk(p, w, t);
    var phase := Top(w.threads[t]).phase;
    if phase.Finished? && n > 0 && ReturnStep(p, w, t, w', Top(w.threads[t]).entry, phase.result) {
      ReturnShortens(p, w, t, w', Top(w.threads[t]).entry, phase.result);
    }
    assert phase.Find?;
    FindFails(p, w, w', t, n);
  }

  lemma ReturnShortens(p: Pool, w: World, t: nat, w': World, i: nat, result: Option<int>)
    requires PoolOk(p) && |w.entries| == |p.raws| && t < |w.threads| && |w.threads[t]| >= 2 && i < |w.entries|
    requires ReturnStep(p, w, t, w', i, result)
    ensures |w'.threads| == |w.threads| && |w'.threads[t]| == |w.threads[t]| - 1
  {
    hide PoolOk;
  }

  lemma SizesAgree(p: Pool, w: World)
    requires PoolOk(p) && Inv(p, w)
    ensures |w.entries| == |p.raws|
  {
  }

  lemma InnermostOk(p: Pool, w: World, t: nat)
    requires PoolOk(p) && Inv(p, w) && t < |w.threads| && w.threads[t] != []
    ensures Top(w.threads[t]).entry < |p.raws| && ActivationInv(p, w.entries, Top(w.threads[t]))
  {
    assert ThreadInv(p, w.entries, w.threads[t]);
  }

  lemma FindFails(p: Pool, w: World, w': World, t: nat, n: nat)
    requires PoolOk(p) && |w.entries| == |p.raws| && t < |w.threads| && n == |w.threads[t]| - 1
    requires ActivationInv(p, w.entries, w.threads[t][n]) && w.threads[t][n].phase.Find? && StepOf(p, w, t, w')
    requires t < |w'.threads| && n < |w'.threads[t]| && w'.threads[t][n].phase == Finished(None)
    ensures Fails(p, w, w', t, n)
  {
    hide PoolOk;
    hide Value;
  }

  lemma CallerFails(p: Pool, w: World, w': World, t: nat, n: nat)
    requires PoolOk(p) && Inv(p, w) && t < |w.threads| && n < |w.threads[t]| && n == |w.threads[t]| - 2
    requires StepOf(p, w, t, w') && Top(w.threads[t]).phase.Finished?
    requires t < |w'.threads| && n < |w'.threads[t]|
    requires w'.threads[t][n] != w.threads[t][n] && w'.threads[t][n].phase == Finished(None)
    ensures Fails(p, w, w', t, n)
  {
    WaitsForNested(p, w, t, n);
    hide Inv;
    hide PoolOk;
    hide Value;
  }

  /** A call ends in NULL only by such a step, after it has decoded the raw entry. */
  lemma {:induction false} NullOnlyAfterSearch(p: Pool, run: seq<World>, b: nat, k: nat, t: nat, n: nat)
      returns (x: nat)
    requires PoolOk(p) && IsRun(p, run) && InProgress(run, t, n, b, k) && run[b].threads[t][n].phase.Retry?
    requires run[k].threads[t][n].phase == Finished(None)
    ensures b <= x < k && Fails(p, run[x], run[x + 1], t, n)
    decreases k - b
  {
    hide Next;
    hide Init;
    hide Inv;
    hide PoolOk;
    assert InProgress(run, t, n, b, k - 1);
    if run[k - 1].threads[t][n] == run[k].threads[t][n] {
      x := NullOnlyAfterSearch(p, run, b, k - 1, t, n);
    } else {
      RunInv(p, run, k - 1);
      assert Next(p, run[k - 1], run[k - 1 + 1]);
      hide IsRun;
      hide Fails;
      FailingStep(p, run[k - 1], run[k], t, n);
      x := k - 1;
    }
  }

  // ----- calls do not go round for ever -----

  /** How far a call is from its end, by its own steps. */
  function Remaining(kind: Kind, ph: Phase): nat {
    match ph
    case Retry => 15
    case ReadFirst => 14
    case ReadSecond(_) => 13
    case Recheck(_, _) => 12
    case Find(_, _) => 11
    case Awaiting(_, _) => 10
    case Locking(_) => 9
    case LockingString(_) => 9
    case Interning(_) => 8
    case Probing(_) => 7
    case Storing(_, low, high) => (if low then 0 else 1) + (if high then 0 else 1) + if kind.StringRef? then 4 else 1
    case Loading(lo, hi) => 1 + (if lo.Some? then 0 else 1) + if hi.Some? then 0 else 1
    case Finished(_) => 0
  }

  /** Each step of a thread brings its innermost call closer to its end, or begins a nested one, unless the
      call waits for a locked entry or finds that another thread has changed the tag it had read. */
  lemma StepsAdvance(p: Pool, w: World, t: nat, w': World)
    requires PoolOk(p) && Inv(p, w) && t < |w.threads| && StepOf(p, w, t, w')
    requires w.threads[t] != [] && !Top(w.threads[t]).phase.Finished?
    ensures var th, i := w.threads[t], Top(w.threads[t]).entry;
            var e, kind, n := w.entries[i], p.raws[i].kind, |th| - 1;
            && |w'.threads| == |w.threads| && |w'.threads[t]| >= |th|
            && (Remaining(kind, w'.threads[t][n].phase) < Remaining(kind, Top(th).phase)
                || (Top(th).phase.Retry? && e.tag.Locked? && w'.threads[t] == th)
                || (Top(th).phase.Recheck? && !e.tag.RawTag? && w'.threads[t][n].phase.Retry?))
  {
    hide Inv;
    hide PoolOk;
    hide Value;
    hide Join;
    hide Lo;
    hide Hi;
    hide ReturnStep;
    hide ActivationInv;
    hide FirstIndex;
    hide SecondIndex;
    SizesAgree(p, w);
    InnermostOk(p, w, t);
    InternsStrings(p, w, t);
    BecomeAtTop(w.threads[t]);
    hide Become;
  }

  lemma BecomeAtTop(th: Thread)
    requires th != []
    ensures forall ph {:trigger Become(th, ph)} ::
              |Become(th, ph)| == |th| && Become(th, ph)[|th| - 1] == Activation(Top(th).entry, ph)
    ensures Become(th, Top(th).phase) == th
  {
  }

  /** Only string entries are interned. */
  lemma InternsStrings(p: Pool, w: World, t: nat)
    requires PoolOk(p) && Inv(p, w) && t < |w.threads| && w.threads[t] != []
    ensures var act := Top(w.threads[t]);
            && act.entry < |p.raws|
            && (act.phase.LockingString? || act.phase.Interning? || act.phase.Probing? ==>
                  p.raws[act.entry].kind.StringRef?)
            && (act.phase.ReadSecond? ==> p.raws[act.entry].kind.MemberRef?)
  {
    InnermostOk(p, w, t);
    hide Inv;
    hide PoolOk;
    hide Value;
  }

  /** For a resolved entry a call needs four of its own steps, whatever the others do meanwhile. */
  lemma ReadersAdvance(p: Pool, w: World, t: nat, w': World)
    requires PoolOk(p) && Inv(p, w) && t < |w.threads| && StepOf(p, w, t, w') && w.threads[t] != []
    requires var act := Top(w.threads[t]);
             act.phase.Loading? || (act.phase.Retry? && act.entry < |w.entries| && w.entries[act.entry].tag.Resolved?)
    ensures |w'.threads| == |w.threads| && |w'.threads[t]| == |w.threads[t]|
    ensures var ph, ph' := Top(w.threads[t]).phase, Top(w'.threads[t]).phase;
            if ph.Retry? then ph' == Loading(None, None)
            else (ph'.Loading? || ph'.Finished?) && Remaining(ClassRef, ph') == Remaining(ClassRef, ph) - 1 <= 2
  {
    var th := w.threads[t];
    assert ThreadInv(p, w.entries, th) && ActivationInv(p, w.entries, Top(th));
    hide Inv;
    hide ThreadInv;
    hide PoolOk;
    hide Value;
  }
}
