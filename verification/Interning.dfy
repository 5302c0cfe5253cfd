/**
 The two interning tables: UTF-8 strings (utf8.c:8-16, 64-74) and Java strings (string.c:7-16, 115-121).

 Memory may change between two calls, except for the strings that are in the table.
 */
module Interning {
  import opened Utf8
  import opened HashTable

  const HASHTABSZE: nat := 1024

  lemma InitialSize()
    ensures PowerOfTwo(HASHTABSZE)
  {
    assert PowerOfTwo(2) && PowerOfTwo(4) && PowerOfTwo(8) && PowerOfTwo(16) && PowerOfTwo(32);
    assert PowerOfTwo(64) && PowerOfTwo(128) && PowerOfTwo(256) && PowerOfTwo(512);
  }

  /** utf8.c: HASH is utf8Hash; the content of a pointer is its characters. */
  function Utf8Scheme(m: seq<byte>): Scheme<seq<int>> {
    Scheme(Hash, (p: int) => if p >= 0 && Scannable(m, p) then Units(m, p) else [])
  }

  /** string.c: HASH is stringHash; the content of an object is its characters. */
  function StringScheme(objects: int -> JString): Scheme<seq<int>> {
    Scheme(Hash, (p: int) => if StringOk(objects(p)) then Chars(objects(p)) else [])
  }

  /** utf8.c's COMPARE with the hashes in hand. */
  method CompareUtf8(m: seq<byte>, ptr: nat, ptr2: nat, hash1: int, hash2: int) returns (same: bool)
    requires Scannable(m, ptr) && Scannable(m, ptr2)
    requires hash1 == Hash(Units(m, ptr)) && hash2 == Hash(Units(m, ptr2))
    ensures same <==> Utf8Scheme(m).keyOf(ptr) == Utf8Scheme(m).keyOf(ptr2)
  {
    same := ptr == ptr2;
    if !same && hash1 == hash2 {
      same := Utf8Comp(m, ptr, ptr2);
    }
  }

  /** string.c's COMPARE with the hashes in hand. */
  method CompareStrings(objects: int -> JString, ptr: int, ptr2: int, hash1: int, hash2: int) returns (same: bool)
    requires StringOk(objects(ptr)) && StringOk(objects(ptr2))
    requires hash1 == Hash(Chars(objects(ptr))) && hash2 == Hash(Chars(objects(ptr2)))
    ensures same <==> StringScheme(objects).keyOf(ptr) == StringScheme(objects).keyOf(ptr2)
  {
    same := ptr == ptr2;
    if !same && hash1 == hash2 {
      same := StringComp(objects(ptr), objects(ptr2));
    }
  }

  /** A call of findUtf8String with a pointer into the memory of that time. */
  function Utf8Call(c: (seq<byte>, nat)): Call<seq<int>> { Call(Utf8Scheme(c.0), c.1) }

  /** Interned pointers can be compared instead of the strings: two calls of findUtf8String, anywhere
      in a history from the empty table, return the same pointer exactly if convertUtf8 would have written
      the same characters for the strings they were given. */
  method InternedUtf8(history: seq<(seq<byte>, nat)>) returns (rs: seq<int>)
    requires forall k | 0 <= k < |history| :: history[k].1 != 0 && Scannable(history[k].0, history[k].1)
    requires Undisturbed(map[], seq(|history|, k requires 0 <= k < |history| => Utf8Call(history[k])))
    ensures |rs| == |history|
    ensures forall i, j | 0 <= i <= j < |history| ::
      rs[i] == rs[j] <==> Units(history[i].0, history[i].1) == Units(history[j].0, history[j].1)
  {
    var calls := seq(|history|, k requires 0 <= k < |history| => Utf8Call(history[k]));
    InitialSize();
    var t := new Table(Utf8Scheme([]), HASHTABSZE);
    rs := InternAll(t, calls);
    assert forall i | 0 <= i < |history| :: calls[i].Key() == Units(history[i].0, history[i].1);
  }

  /** A call of findInternedString. */
  function StringCall(c: (int -> JString, int)): Call<seq<int>> { Call(StringScheme(c.0), c.1) }

  /** The same for findInternedString. */
  method InternedStrings(history: seq<(int -> JString, int)>) returns (rs: seq<int>)
    requires forall k | 0 <= k < |history| :: history[k].1 != 0 && StringOk(history[k].0(history[k].1))
    requires Undisturbed(map[], seq(|history|, k requires 0 <= k < |history| => StringCall(history[k])))
    ensures |rs| == |history|
    ensures forall i, j | 0 <= i <= j < |history| ::
      rs[i] == rs[j] <==> Chars(history[i].0(history[i].1)) == Chars(history[j].0(history[j].1))
  {
    var calls := seq(|history|, k requires 0 <= k < |history| => StringCall(history[k]));
    InitialSize();
    var t := new Table(StringScheme(_ => JString([], 0, 0)), HASHTABSZE);
    rs := InternAll(t, calls);
    assert forall i | 0 <= i < |history| :: calls[i].Key() == Chars(history[i].0(history[i].1));
  }
}
