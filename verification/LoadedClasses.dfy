/**
 The table of loaded classes (class.c:67-78, 678-694, 808): one class for each name and loader.

 A class is added by addClassToHash and looked for by findHashedClass, which has a name and a loader in
 hand but no class. The first class added under a name and a loader is the one that counts.
 */
module LoadedClasses {
  import opened Utf8
  import opened HashTable

  const INITSZE: nat := 256

  datatype ClassBlock = ClassBlock(name: nat, loader: int)

  /** Where the names are, and the class that a pointer leads to. */
  datatype Memory = Memory(bytes: seq<byte>, classes: int -> ClassBlock)

  /** The characters of a class's name, and its loader. */
  type Key = (seq<int>, int)

  function KeyOf(mem: Memory, name: nat, loader: int): Key {
    (if Scannable(mem.bytes, name) then Units(mem.bytes, name) else [], loader)
  }

  function ClassKey(mem: Memory, cls: int): Key {
    KeyOf(mem, mem.classes(cls).name, mem.classes(cls).loader)
  }

  /** HASH: utf8Hash of the name alone. */
  function NameHash(k: Key): int { Hash(k.0) }

  function ClassScheme(mem: Memory): Scheme<Key> {
    Scheme(NameHash, (cls: int) => ClassKey(mem, cls))
  }

  predicate Named(mem: Memory, cls: int) {
    cls != 0 && Scannable(mem.bytes, mem.classes(cls).name)
  }

  /** findHashedClass's COMPARE with the hashes in hand; addClassToHash's is this for the class's own name
      and loader. */
  method CompareClass(mem: Memory, name: nat, loader: int, cls: int, hash1: int, hash2: int) returns (same: bool)
    requires Scannable(mem.bytes, name) && Named(mem, cls)
    requires hash1 == Hash(Units(mem.bytes, name)) && hash2 == ClassScheme(mem).hash(ClassKey(mem, cls))
    ensures same <==> KeyOf(mem, name, loader) == ClassScheme(mem).keyOf(cls)
  {
    var k := mem.classes(cls);
    same := hash1 == hash2;
    if same {
      same := Utf8Comp(mem.bytes, name, k.name);
      same := same && k.loader == loader;
    }
  }

  /** A call of one of the two, with the memory of that time. */
  datatype Request = Add(mem: Memory, cls: int) | Find(mem: Memory, name: nat, loader: int)
  {
    predicate Ok() {
      if Add? then Named(mem, cls) else Scannable(mem.bytes, name)
    }

    function Key(): Key {
      if Add? then ClassKey(mem, cls) else KeyOf(mem, name, loader)
    }
  }

  function Added(m: map<Key, int>, q: Request): map<Key, int> {
    if q.Add? && q.Key() !in m then m[q.Key() := q.cls] else m
  }

  /** Memory may change between two calls, but not the names and loaders of the classes in the table. */
  ghost predicate ClassesStay(m: map<Key, int>, history: seq<Request>)
    decreases |history|
  {
    history != [] ==>
      Keyed(ClassScheme(history[0].mem), m) && ClassesStay(Added(m, history[0]), history[1..])
  }

  /** The first class of a history that was added under a key, or NULL. */
  function FirstAdded(history: seq<Request>, k: Key): int {
    if history == [] then 0
    else if history[0].Add? && history[0].Key() == k then history[0].cls
    else FirstAdded(history[1..], k)
  }

  function Held(m: map<Key, int>, k: Key): int {
    if k in m then m[k] else 0
  }

  /** What the table holds after a history. */
  ghost predicate Holds(m: map<Key, int>, history: seq<Request>) {
    forall k: Key :: Held(m, k) == FirstAdded(history, k) && (k in m ==> m[k] != 0)
  }

  lemma {:induction false} FirstOfLonger(history: seq<Request>, q: Request, k: Key)
    requires forall p | p in history :: p.Ok()
    ensures FirstAdded(history + [q], k) ==
            if FirstAdded(history, k) != 0 then FirstAdded(history, k) else FirstAdded([q], k)
    decreases |history|
  {
    if history == [] {
      assert history + [q] == [q];
    } else {
      assert history[0].Ok() && (history + [q])[1..] == history[1..] + [q];
      FirstOfLonger(history[1..], q, k);
    }
  }

  lemma HoldsNext(m: map<Key, int>, history: seq<Request>, q: Request)
    requires Holds(m, history) && q.Ok() && forall p | p in history :: p.Ok()
    ensures Holds(Added(m, q), history + [q])
  {
    forall k: Key ensures Held(Added(m, q), k) == FirstAdded(history + [q], k) {
      FirstOfLonger(history, q, k);
      assert Held(m, k) == FirstAdded(history, k);
    }
  }

  method AddClassToHash(t: Table<Key>, mem: Memory, cls: int) returns (entry: int)
    requires t.Valid() && t.s == ClassScheme(mem) && cls != 0
    modifies t, t.hashes, t.datas
    ensures t.Valid() && t.s == old(t.s)
    ensures (t.hashes == old(t.hashes) || fresh(t.hashes)) && (t.datas == old(t.datas) || fresh(t.datas))
    ensures t.contents == Added(old(t.contents), Add(mem, cls)) && entry == Held(t.contents, ClassKey(mem, cls))
  {
    entry := t.FindHashEntry(cls, ClassKey(mem, cls), true);
  }

  method FindHashedClass(t: Table<Key>, mem: Memory, name: nat, loader: int) returns (cls: int)
    requires t.Valid() && t.s == ClassScheme(mem)
    modifies t, t.hashes, t.datas
    ensures t.Valid() && t.s == old(t.s)
    ensures (t.hashes == old(t.hashes) || fresh(t.hashes)) && (t.datas == old(t.datas) || fresh(t.datas))
    ensures t.contents == old(t.contents) && cls == Held(t.contents, KeyOf(mem, name, loader))
  {
    cls := t.FindHashEntry(0, KeyOf(mem, name, loader), false);
  }

  method Serve(t: Table<Key>, q: Request) returns (r: int)
    requires t.Valid() && t.s.hash == NameHash && Keyed(ClassScheme(q.mem), t.contents) && q.Ok()
    modifies t, t.hashes, t.datas
    ensures t.Valid() && t.s.hash == NameHash
    ensures (t.hashes == old(t.hashes) || fresh(t.hashes)) && (t.datas == old(t.datas) || fresh(t.datas))
    ensures t.contents == Added(old(t.contents), q) && r == Held(t.contents, q.Key())
  {
    t.MemoryIs(ClassScheme(q.mem));
    if q.Add? {
      r := AddClassToHash(t, q.mem, q.cls);
    } else {
      r := FindHashedClass(t, q.mem, q.name, q.loader);
    }
  }

  /** Each answer is the first class added under the key, by an earlier call or by the call itself. */
  ghost predicate Answered(history: seq<Request>, rs: seq<int>) {
    && |rs| <= |history|
    && forall j | 0 <= j < |rs| :: rs[j] == FirstAdded(history[..j + 1], history[j].Key())
  }

  lemma AnsweredNext(history: seq<Request>, rs: seq<int>, r: int)
    requires Answered(history, rs) && |rs| < |history|
    requires r == FirstAdded(history[..|rs| + 1], history[|rs|].Key())
    ensures Answered(history, rs + [r])
  {
    hide FirstAdded;
    hide Request.Key;
  }

  lemma HistoryStep(m: map<Key, int>, history: seq<Request>, j: nat)
    requires j < |history| && ClassesStay(m, history[j..]) && Holds(m, history[..j])
    requires forall q | q in history :: q.Ok()
    ensures history[j].Ok() && Keyed(ClassScheme(history[j].mem), m)
    ensures ClassesStay(Added(m, history[j]), history[j + 1..])
    ensures Holds(Added(m, history[j]), history[..j + 1])
    ensures Held(Added(m, history[j]), history[j].Key()) == FirstAdded(history[..j + 1], history[j].Key())
  {
    assert history[j..][0] == history[j] && history[j..][1..] == history[j + 1..];
    assert history[..j + 1] == history[..j] + [history[j]];
    hide FirstAdded;
    hide Added;
    HoldsNext(m, history[..j], history[j]);
  }

  /** A history of calls on the real table, from initialiseClass on: a call returns the first class that
      was added under its name and loader, by an earlier call or by itself, and NULL if there is none. */
  method ClassesAreUnique(history: seq<Request>) returns (rs: seq<int>)
    requires (forall q | q in history :: q.Ok()) && ClassesStay(map[], history)
    ensures |rs| == |history| && Answered(history, rs)
  {
    InitialSize();
    var t := new Table(ClassScheme(Memory([], _ => ClassBlock(0, 0))), INITSZE);
    rs := ServeAll(t, history);
  }

  method ServeAll(t: Table<Key>, history: seq<Request>) returns (rs: seq<int>)
    requires t.Valid() && t.contents == map[] && t.s.hash == NameHash
    requires (forall q | q in history :: q.Ok()) && ClassesStay(map[], history)
    modifies t, t.hashes, t.datas
    ensures |rs| == |history| && Answered(history, rs)
  {
    rs := [];
    assert history[0..] == history && history[..0] == [] && Holds(map[], []);
    hide FirstAdded;
    hide Answered;
    hide ClassesStay;
    hide Holds;
    hide Added;
    hide Held;
    hide Keyed;
    hide Request.Key;
    hide Request.Ok;
    for j := 0 to |history|
      invariant t.Valid()
      invariant (t.hashes == old(t.hashes) || fresh(t.hashes)) && (t.datas == old(t.datas) || fresh(t.datas))
      invariant t.s.hash == NameHash && Holds(t.contents, history[..j]) && ClassesStay(t.contents, history[j..])
      invariant |rs| == j && Answered(history, rs)
    {
      HistoryStep(t.contents, history, j);
      var r := Serve(t, history[j]);
      AnsweredNext(history, rs, r);
      rs := rs + [r];
    }
  }

  lemma InitialSize()
    ensures PowerOfTwo(INITSZE)
  {
    assert PowerOfTwo(2) && PowerOfTwo(4) && PowerOfTwo(8) && PowerOfTwo(16) && PowerOfTwo(32);
    assert PowerOfTwo(64) && PowerOfTwo(128);
  }
}
