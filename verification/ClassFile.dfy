/**
 The class-file reader (defineClass, class.c:55-361; sections 4.1 to 4.7 of the JVMS).

 A read pointer moves over the bytes, and nothing checks that it stays inside them: `Undefined` stands
 for a read past the end, and for a name that is not in the constant pool. The errors C reports are a
 bad magic number, a bad tag in the constant pool, and a superclass of java/lang/Object. Loading the
 interfaces and the superclass, and the class table (LoadedClasses), are not part of this module.
 */
module ClassFile {
  import opened Common

  type byte = b: int | 0 <= b < 256

  datatype Problem = BadMagic | BadTag | ObjectHasSuper

  /** What a reader gives: a value and the position after it. */
  datatype Read<+T> = Got(value: T, next: nat) | Undefined | Error(problem: Problem) {
    predicate IsFailure() { !Got? }

    function PropagateFailure<U>(): Read<U>
      requires IsFailure()
    {
      match this
      case Undefined => Undefined
      case Error(e) => Error(e)
    }

    function Extract(): (T, nat)
      requires !IsFailure()
    {
      (value, next)
    }
  }

  // ----- numbers -----

  function U1(d: seq<byte>, p: nat): Read<int> {
    if p < |d| then Got(d[p], p + 1) else Undefined
  }

  function U2(d: seq<byte>, p: nat): Read<int> {
    if p + 2 <= |d| then Got(d[p] as int * 0x100 + d[p + 1], p + 2) else Undefined
  }

  function U4(d: seq<byte>, p: nat): Read<int> {
    if p + 4 <= |d| then
      Got(((d[p] as int * 0x100 + d[p + 1]) * 0x100 + d[p + 2]) * 0x100 + d[p + 3], p + 4)
    else Undefined
  }

  function U8(d: seq<byte>, p: nat): Read<int> {
    if p + 8 <= |d| then Got(U4(d, p).value * 0x1_0000_0000 + U4(d, p + 4).value, p + 8) else Undefined
  }

  function Block(d: seq<byte>, p: nat, n: nat): Read<seq<byte>> {
    if p + n <= |d| then Got(d[p..p + n], p + n) else Undefined
  }

  function W2(v: int): seq<byte> { [v / 0x100 % 0x100, v % 0x100] }

  function W4(v: int): seq<byte> { W2(v / 0x1_0000) + W2(v % 0x1_0000) }

  function W8(v: int): seq<byte> { W4(v / 0x1_0000_0000) + W4(v % 0x1_0000_0000) }

  predicate Is2(v: int) { 0 <= v < 0x1_0000 }

  predicate Is4(v: int) { 0 <= v < 0x1_0000_0000 }

  predicate Is8(v: int) { 0 <= v < 0x1_0000_0000_0000_0000 }

  /** The bytes w stand at p. */
  predicate Starts(d: seq<byte>, p: nat, w: seq<byte>) {
    p + |w| <= |d| && d[p..p + |w|] == w
  }

  lemma StartsBoth(d: seq<byte>, p: nat, a: seq<byte>, b: seq<byte>)
    ensures Starts(d, p, a + b) <==> Starts(d, p, a) && Starts(d, p + |a|, b)
  {
    if p + |a| + |b| <= |d| {
      assert d[p..p + |a| + |b|] == d[p..p + |a|] + d[p + |a|..p + |a| + |b|];
      var whole := d[p..p + |a| + |b|];
      assert whole[..|a|] == d[p..p + |a|] && whole[|a|..] == d[p + |a|..p + |a| + |b|];
      assert (a + b)[..|a|] == a && (a + b)[|a|..] == b;
    }
  }

  lemma ReadsU2(d: seq<byte>, p: nat, v: int)
    requires Is2(v) && Starts(d, p, W2(v))
    ensures U2(d, p) == Got(v, p + 2)
  {
    assert d[p] == d[p..p + 2][0] && d[p + 1] == d[p..p + 2][1];
  }

  lemma ReadsU4(d: seq<byte>, p: nat, v: int)
    requires Is4(v) && Starts(d, p, W4(v))
    ensures U4(d, p) == Got(v, p + 4)
  {
    StartsBoth(d, p, W2(v / 0x1_0000), W2(v % 0x1_0000));
    ReadsU2(d, p, v / 0x1_0000);
    ReadsU2(d, p + 2, v % 0x1_0000);
  }

  lemma ReadsU8(d: seq<byte>, p: nat, v: int)
    requires Is8(v) && Starts(d, p, W8(v))
    ensures U8(d, p) == Got(v, p + 8)
  {
    StartsBoth(d, p, W4(v / 0x1_0000_0000), W4(v % 0x1_0000_0000));
    ReadsU4(d, p, v / 0x1_0000_0000);
    ReadsU4(d, p + 4, v % 0x1_0000_0000);
  }

  lemma ReadsBlock(d: seq<byte>, p: nat, b: seq<byte>)
    requires Starts(d, p, b)
    ensures Block(d, p, |b|) == Got(b, p + |b|)
  {
  }

  // ----- tables -----

  /** n values, one after the other, behind those already read. */
  function Many<T>(d: seq<byte>, p: nat, n: nat, r: (seq<byte>, nat) -> Read<T>, before: seq<T>): Read<seq<T>>
    decreases n
  {
    if n == 0 then Got(before, p)
    else
      var (v, q) :- r(d, p);
      Many(d, q, n - 1, r, before + [v])
  }

  /** The loops of defineClass over a counted table. */
  method ReadTable<T>(d: seq<byte>, p: nat, n: nat, r: (seq<byte>, nat) -> Read<T>) returns (table: Read<seq<T>>)
    ensures table == Many(d, p, n, r, [])
  {
    var values, q := [], p;
    var i := 0;
    while i < n
      invariant i <= n && Many(d, q, n - i, r, values) == Many(d, p, n, r, [])
    {
      var one := r(d, q);
      if one.IsFailure() {
        return one.PropagateFailure();
      }
      values, q := values + [one.value], one.next;
      i := i + 1;
    }
    return Got(values, q);
  }

  function WriteMany<T>(xs: seq<T>, w: T -> seq<byte>): seq<byte> {
    if xs == [] then [] else w(xs[0]) + WriteMany(xs[1..], w)
  }

  function Views<T, U>(xs: seq<T>, view: T -> U): (us: seq<U>)
    ensures |us| == |xs|
  {
    if xs == [] then [] else [view(xs[0])] + Views(xs[1..], view)
  }

  /** Where w has written x, r reads what the reader keeps of x, up to the last byte. */
  ghost predicate RoundTrips<T, U>(
      d: seq<byte>, w: T -> seq<byte>, r: (seq<byte>, nat) -> Read<U>, view: T -> U, x: T) {
    forall p: nat {:trigger Starts(d, p, w(x))} | Starts(d, p, w(x)) :: r(d, p) == Got(view(x), p + |w(x)|)
  }

  /** If single values can be read back, so can a table of them. */
  lemma {:induction false} TableRoundTrips<T, U>(
      d: seq<byte>, p: nat, xs: seq<T>, w: T -> seq<byte>, r: (seq<byte>, nat) -> Read<U>, view: T -> U, before: seq<U>)
    requires Starts(d, p, WriteMany(xs, w)) && forall x | x in xs :: RoundTrips(d, w, r, view, x)
    ensures Many(d, p, |xs|, r, before) == Got(before + Views(xs, view), p + |WriteMany(xs, w)|)
    decreases |xs|
  {
    if xs == [] {
      assert before + Views(xs, view) == before;
    } else {
      StartsBoth(d, p, w(xs[0]), WriteMany(xs[1..], w));
      assert RoundTrips(d, w, r, view, xs[0]);
      TableRoundTrips(d, p + |w(xs[0])|, xs[1..], w, r, view, before + [view(xs[0])]);
      assert before + [view(xs[0])] + Views(xs[1..], view) == before + Views(xs, view);
    }
  }

  // ----- the constant pool -----

  const CONSTANT_UTF8 := 1
  const CONSTANT_INTEGER := 3
  const CONSTANT_FLOAT := 4
  const CONSTANT_LONG := 5
  const CONSTANT_DOUBLE := 6
  const CONSTANT_CLASS := 7
  const CONSTANT_STRING := 8
  const CONSTANT_FIELDREF := 9
  const CONSTANT_NAME_AND_TYPE := 12

  /** A slot of the pool: the string a Utf8 entry points at, or the tag and the 64-bit info word. */
  datatype Slot = Unset | Text(chars: seq<byte>) | Number(tag: int, info: int)

  /** What a C int becomes as an unsigned 64-bit number: its sign fills the upper half. */
  function SignExtend(w: int): int {
    if w < 0x8000_0000 then w else w + 0xFFFF_FFFF_0000_0000
  }

  /** (idx2 << 16) + idx1, computed as an int. */
  function Packed(first: int, second: int): int { SignExtend(second * 0x1_0000 + first) }

  function FirstIndex(info: int): int { info % 0x1_0000 }

  function SecondIndex(info: int): int { info / 0x1_0000 % 0x1_0000 }

  /** Both indices survive the packing, though the sign bit may have spread over the upper half. */
  lemma PackedIndices(first: int, second: int)
    requires Is2(first) && Is2(second)
    ensures FirstIndex(Packed(first, second)) == first && SecondIndex(Packed(first, second)) == second
    ensures Is8(Packed(first, second))
  {
  }

  /** The entry at p, and how many slots it takes. */
  function ReadConst(d: seq<byte>, p: nat): Read<(Slot, nat)> {
    var (tag, q) :- U1(d, p);
    if tag == CONSTANT_CLASS || tag == CONSTANT_STRING then
      var (i, next) :- U2(d, q);
      Got((Number(tag, i), 1), next)
    else if CONSTANT_FIELDREF <= tag <= CONSTANT_NAME_AND_TYPE then
      var (i, q1) :- U2(d, q);
      var (j, next) :- U2(d, q1);
      Got((Number(tag, Packed(i, j)), 1), next)
    else if tag == CONSTANT_INTEGER || tag == CONSTANT_FLOAT then
      var (w, next) :- U4(d, q);
      Got((Number(tag, SignExtend(w)), 1), next)
    else if tag == CONSTANT_LONG || tag == CONSTANT_DOUBLE then
      var (v, next) :- U8(d, q);
      Got((Number(tag, v), 2), next)
    else if tag == CONSTANT_UTF8 then
      var (length, q1) :- U2(d, q);
      var (chars, next) :- Block(d, q1, length);
      Got((Text(chars), 1), next)
    else Error(BadTag)
  }

  /** The entries from slot i on. A long or double leaves the slot after it unset. */
  function PoolFrom(d: seq<byte>, p: nat, i: nat, pool: seq<Slot>): Read<seq<Slot>>
    decreases |pool| - i
  {
    if i >= |pool| then Got(pool, p)
    else
      var (entry, q) :- ReadConst(d, p);
      PoolFrom(d, q, i + if entry.1 == 2 then 2 else 1, pool[i := entry.0])
  }

  function ReadPool(d: seq<byte>, p: nat): Read<seq<Slot>> {
    var (count, q) :- U2(d, p);
    PoolFrom(d, q, 1, seq(count, _ => Unset))
  }

  /** The loop over the constant pool (class.c:120-180). */
  method FillPool(d: seq<byte>, p: nat) returns (r: Read<seq<Slot>>)
    ensures r == ReadPool(d, p)
  {
    var count := U2(d, p);
    if count.IsFailure() {
      return count.PropagateFailure();
    }
    var info := new Slot[count.value](_ => Unset);
    assert info[..] == seq(count.value, _ => Unset);
    var i, q := 1, count.next;
    while i < info.Length
      invariant i >= 1 && PoolFrom(d, q, i, info[..]) == ReadPool(d, p)
      decreases info.Length - i
    {
      var entry := ReadConst(d, q);
      if entry.IsFailure() {
        return entry.PropagateFailure();
      }
      ghost var before := info[..];
      info[i] := entry.value.0;
      assert info[..] == before[i := entry.value.0];
      q := entry.next;
      if entry.value.1 == 2 {
        i := i + 1;
      }
      i := i + 1;
    }
    return Got(info[..], q);
  }

  /** An entry as section 4.4 has it, with the tags of its table 4.3. */
  datatype Const =
    | Utf8(chars: seq<byte>)
    | Word(tag: int, w: int)
    | Wide(tag: int, v: int)
    | One(tag: int, index: int)
    | Two(tag: int, first: int, second: int)

  predicate ConstOk(c: Const) {
    match c
    case Utf8(chars) => Is2(|chars|)
    case Word(tag, w) => 3 <= tag <= 4 && Is4(w)
    case Wide(tag, v) => 5 <= tag <= 6 && Is8(v)
    case One(tag, i) => 7 <= tag <= 8 && Is2(i)
    case Two(tag, i, j) => 9 <= tag <= 12 && Is2(i) && Is2(j)
  }

  function WriteConst(c: Const): seq<byte>
    requires ConstOk(c)
  {
    match c
    case Utf8(chars) => [1] + (W2(|chars|) + chars)
    case Word(tag, w) => [tag as byte] + W4(w)
    case Wide(tag, v) => [tag as byte] + W8(v)
    case One(tag, i) => [tag as byte] + W2(i)
    case Two(tag, i, j) => [tag as byte] + (W2(i) + W2(j))
  }

  function SlotsOf(c: Const): seq<Slot> {
    match c
    case Utf8(chars) => [Text(chars)]
    case Word(tag, w) => [Number(tag, SignExtend(w))]
    case Wide(tag, v) => [Number(tag, v), Unset]
    case One(tag, i) => [Number(tag, i)]
    case Two(tag, i, j) => [Number(tag, Packed(i, j))]
  }

  /** An entry with any other tag is an error. */
  lemma OtherTagsAreBad(d: seq<byte>, p: nat)
    ensures ReadConst(d, p) == Error(BadTag) <==> p < |d| && d[p] !in {1, 3, 4, 5, 6, 7, 8, 9, 10, 11, 12}
  {
    hide SignExtend;
    hide Packed;
  }

  lemma ReadsU1(d: seq<byte>, p: nat, b: byte, w: seq<byte>)
    ensures Starts(d, p, [b] + w) <==> U1(d, p) == Got(b as int, p + 1) && Starts(d, p + 1, w)
  {
    StartsBoth(d, p, [b], w);
  }

  lemma ReadsConst(d: seq<byte>, p: nat, c: Const)
    requires ConstOk(c) && Starts(d, p, WriteConst(c))
    ensures ReadConst(d, p) == Got((SlotsOf(c)[0], |SlotsOf(c)|), p + |WriteConst(c)|)
  {
    match c {
      case Utf8(chars) =>
        ReadsText(d, p, chars);
      case Two(tag, i, j) =>
        ReadsTwo(d, p, tag, i, j);
      case _ =>
        ReadsNumber(d, p, c);
    }
    hide *;
  }

  lemma ReadsText(d: seq<byte>, p: nat, chars: seq<byte>)
    requires ConstOk(Utf8(chars)) && Starts(d, p, WriteConst(Utf8(chars)))
    ensures ReadConst(d, p) == Got((SlotsOf(Utf8(chars))[0], |SlotsOf(Utf8(chars))|), p + |WriteConst(Utf8(chars))|)
  {
    hide U1;
    hide U2;
    hide Block;
    hide Starts;
    ReadsU1(d, p, 1, W2(|chars|) + chars);
    StartsBoth(d, p + 1, W2(|chars|), chars);
    ReadsU2(d, p + 1, |chars|);
    ReadsBlock(d, p + 3, chars);
  }

  lemma ReadsTwo(d: seq<byte>, p: nat, tag: int, i: int, j: int)
    requires ConstOk(Two(tag, i, j)) && Starts(d, p, WriteConst(Two(tag, i, j)))
    ensures var c := Two(tag, i, j);
            ReadConst(d, p) == Got((SlotsOf(c)[0], |SlotsOf(c)|), p + |WriteConst(c)|)
  {
    hide U1;
    hide U2;
    hide Packed;
    hide Starts;
    ReadsU1(d, p, tag as byte, W2(i) + W2(j));
    StartsBoth(d, p + 1, W2(i), W2(j));
    ReadsU2(d, p + 1, i);
    ReadsU2(d, p + 3, j);
  }

  lemma ReadsNumber(d: seq<byte>, p: nat, c: Const)
    requires ConstOk(c) && Starts(d, p, WriteConst(c)) && !c.Utf8? && !c.Two?
    ensures ReadConst(d, p) == Got((SlotsOf(c)[0], |SlotsOf(c)|), p + |WriteConst(c)|)
  {
    hide U1;
    hide U2;
    hide U4;
    hide U8;
    hide SignExtend;
    hide Starts;
    match c {
      case Word(tag, w) =>
        ReadsU1(d, p, tag as byte, W4(w));
        ReadsU4(d, p + 1, w);
      case Wide(tag, v) =>
        ReadsU1(d, p, tag as byte, W8(v));
        ReadsU8(d, p + 1, v);
      case One(tag, i) =>
        ReadsU1(d, p, tag as byte, W2(i));
        ReadsU2(d, p + 1, i);
    }
  }

  function WritePool(cs: seq<Const>): seq<byte>
    requires forall c | c in cs :: ConstOk(c)
  {
    if cs == [] then [] else WriteConst(cs[0]) + WritePool(cs[1..])
  }

  function PoolOf(cs: seq<Const>): seq<Slot> {
    if cs == [] then [] else SlotsOf(cs[0]) + PoolOf(cs[1..])
  }

  /** The pool that was written comes back, each entry in its slot, and a long or double in two. */
  lemma {:induction false} PoolRoundTrips(d: seq<byte>, p: nat, i: nat, cs: seq<Const>, pool: seq<Slot>)
    requires forall c | c in cs :: ConstOk(c)
    requires Starts(d, p, WritePool(cs)) && |pool| == i + |PoolOf(cs)| && forall k | i <= k < |pool| :: pool[k] == Unset
    ensures PoolFrom(d, p, i, pool) == Got(pool[..i] + PoolOf(cs), p + |WritePool(cs)|)
    decreases |cs|
  {
    hide Starts;
    hide ReadConst;
    hide WriteConst;
    hide ConstOk;
    if cs == [] {
      assert pool[..i] + PoolOf(cs) == pool;
    } else {
      var c, slots, rest := cs[0], SlotsOf(cs[0]), PoolOf(cs[1..]);
      StartsBoth(d, p, WriteConst(c), WritePool(cs[1..]));
      ReadsConst(d, p, c);
      var pool' := pool[i := slots[0]];
      FillSlots(pool, i, slots, rest, pool');
      PoolRoundTrips(d, p + |WriteConst(c)|, i + |slots|, cs[1..], pool');
    }
  }

  lemma FillSlots(pool: seq<Slot>, i: nat, slots: seq<Slot>, rest: seq<Slot>, pool': seq<Slot>)
    requires 1 <= |slots| <= 2 && (|slots| == 2 ==> slots[1] == Unset) && i + |slots| <= |pool|
    requires pool' == pool[i := slots[0]]
    requires forall k | i <= k < |pool| :: pool[k] == Unset
    ensures pool'[..i + |slots|] + rest == pool[..i] + (slots + rest)
    ensures forall k | i + |slots| <= k < |pool| :: pool'[k] == Unset
  {
    assert pool'[..i + |slots|] == pool[..i] + slots;
  }

  // ----- attributes -----

  /** A C string ends at its first zero byte. */
  function UpToNul(chars: seq<byte>): seq<byte> {
    if chars == [] || chars[0] == 0 then [] else [chars[0]] + UpToNul(chars[1..])
  }

  /** CP_UTF8; None where the pool has no string. */
  function TextAt(pool: seq<Slot>, i: int): Option<seq<byte>> {
    if 0 <= i < |pool| && pool[i].Text? then Some(UpToNul(pool[i].chars)) else None
  }

  type Reader<!T> = (seq<byte>, nat) -> Read<T>

  /** An attribute: if its name is one that is looked for here, its contents are read, and whatever
      its length field says does not matter; otherwise it is skipped by its length. */
  function ReadAttr<T>(pool: seq<Slot>, d: seq<byte>, p: nat, known: seq<byte> -> Option<Reader<T>>): Read<Option<T>> {
    var (name, q) :- U2(d, p);
    var (length, body) :- U4(d, q);
    var text := TextAt(pool, name);
    if text.None? then Undefined
    else
      match known(text.value)
      case None => Got(None, body + length)
      case Some(r) =>
        var (contents, next) :- r(d, body);
        Got(Some(contents), next)
  }

  function ReadAttrs<T>(
      pool: seq<Slot>, d: seq<byte>, p: nat, known: seq<byte> -> Option<Reader<T>>): Read<seq<Option<T>>> {
    var (count, q) :- U2(d, p);
    Many(d, q, count, (e: seq<byte>, i: nat) => ReadAttr(pool, e, i, known), [])
  }

  /** An attribute as section 4.7 has it. */
  datatype Attr<+T> = Known(name: int, contents: T) | Skipped(name: int, bytes: seq<byte>)

  function Seen<T, U>(a: Attr<T>, view: T -> U): Option<U> {
    match a
    case Known(_, contents) => Some(view(contents))
    case Skipped(_, _) => None
  }

  function WriteAttr<T>(a: Attr<T>, w: T -> seq<byte>): seq<byte> {
    var body := if a.Known? then w(a.contents) else a.bytes;
    W2(a.name) + (W4(|body|) + body)
  }

  /** The attribute's name is in the pool and says what the attribute is, and its contents can be
      read back. */
  ghost predicate AttrOk<T, U>(pool: seq<Slot>, d: seq<byte>, known: seq<byte> -> Option<Reader<U>>,
                               a: Attr<T>, w: T -> seq<byte>, view: T -> U) {
    && Is2(a.name) && TextAt(pool, a.name).Some?
    && Is4(|if a.Known? then w(a.contents) else a.bytes|)
    && var r := known(TextAt(pool, a.name).value);
       && (a.Known? <==> r.Some?)
       && (a.Known? ==> RoundTrips(d, w, r.value, view, a.contents))
  }

  lemma AttrRoundTrips<T, U>(pool: seq<Slot>, d: seq<byte>, known: seq<byte> -> Option<Reader<U>>,
                             a: Attr<T>, w: T -> seq<byte>, view: T -> U, p: nat)
    requires AttrOk(pool, d, known, a, w, view) && Starts(d, p, WriteAttr(a, w))
    ensures ReadAttr(pool, d, p, known) == Got(Seen(a, view), p + |WriteAttr(a, w)|)
  {
    var body := if a.Known? then w(a.contents) else a.bytes;
    StartsBoth(d, p, W2(a.name), W4(|body|) + body);
    StartsBoth(d, p + 2, W4(|body|), body);
    ReadsU2(d, p, a.name);
    ReadsU4(d, p + 2, |body|);
    hide U2;
    hide U4;
    hide W2;
    hide W4;
    assert |W2(a.name)| == 2 && |W4(|body|)| == 4 by {
      Lengths(a.name);
      Lengths(|body|);
    }
  }

  lemma Lengths(v: int)
    ensures |W2(v)| == 2 && |W4(v)| == 4 && |W8(v)| == 8
  {
  }

  function WriteAttrs<T>(attrs: seq<Attr<T>>, w: T -> seq<byte>): seq<byte> {
    W2(|attrs|) + WriteMany(attrs, (a: Attr<T>) => WriteAttr(a, w))
  }

  function SeenAll<T, U>(attrs: seq<Attr<T>>, view: T -> U): seq<Option<U>> {
    Views(attrs, (a: Attr<T>) => Seen(a, view))
  }

  lemma AttrsRoundTrip<T, U>(pool: seq<Slot>, d: seq<byte>, known: seq<byte> -> Option<Reader<U>>,
                             attrs: seq<Attr<T>>, w: T -> seq<byte>, view: T -> U, p: nat)
    requires Is2(|attrs|) && forall a | a in attrs :: AttrOk(pool, d, known, a, w, view)
    requires Starts(d, p, WriteAttrs(attrs, w))
    ensures ReadAttrs(pool, d, p, known) == Got(SeenAll(attrs, view), p + |WriteAttrs(attrs, w)|)
  {
    var write, read, see :=
      (a: Attr<T>) => WriteAttr(a, w), (e: seq<byte>, i: nat) => ReadAttr(pool, e, i, known),
      (a: Attr<T>) => Seen(a, view);
    StartsBoth(d, p, W2(|attrs|), WriteMany(attrs, write));
    ReadsU2(d, p, |attrs|);
    Lengths(|attrs|);
    forall a | a in attrs ensures RoundTrips(d, write, read, see, a) {
      forall q: nat | Starts(d, q, write(a)) ensures read(d, q) == Got(see(a), q + |write(a)|) {
        AttrRoundTrips(pool, d, known, a, w, view, q);
      }
    }
    hide Starts;
    hide U2;
    hide W2;
    hide RoundTrips;
    hide ReadAttr;
    hide WriteAttr;
    hide Seen;
    TableRoundTrips(d, p + 2, attrs, write, read, see, []);
    assert [] + Views(attrs, see) == Views(attrs, see);
  }

  /** The bytes of a C string literal. */
  function Ascii(s: string): seq<byte> {
    if s == "" then [] else [(s[0] as int) % 0x100] + Ascii(s[1..])
  }

  // ----- tables inside attributes -----

  /** A counted table. */
  function ReadCounted<T>(d: seq<byte>, p: nat, r: Reader<T>): Read<seq<T>> {
    var (count, q) :- U2(d, p);
    Many(d, q, count, r, [])
  }

  function WriteCounted<T>(xs: seq<T>, w: T -> seq<byte>): seq<byte> { W2(|xs|) + WriteMany(xs, w) }

  lemma CountedRoundTrips<T, U>(d: seq<byte>, p: nat, xs: seq<T>, w: T -> seq<byte>, r: Reader<U>, view: T -> U)
    requires Is2(|xs|) && Starts(d, p, WriteCounted(xs, w)) && forall x | x in xs :: RoundTrips(d, w, r, view, x)
    ensures ReadCounted(d, p, r) == Got(Views(xs, view), p + |WriteCounted(xs, w)|)
  {
    StartsBoth(d, p, W2(|xs|), WriteMany(xs, w));
    ReadsU2(d, p, |xs|);
    Lengths(|xs|);
    hide Starts;
    hide U2;
    hide W2;
    hide RoundTrips;
    TableRoundTrips(d, p + 2, xs, w, r, view, []);
    assert [] + Views(xs, view) == Views(xs, view);
  }

  /** A table whose values are kept as they are. */
  lemma {:induction false} SameViews<T>(xs: seq<T>, view: T -> T)
    requires forall x | x in xs :: view(x) == x
    ensures Views(xs, view) == xs
  {
    if xs != [] {
      SameViews(xs[1..], view);
    }
  }

  datatype Line = Line(startPc: int, lineNo: int)

  datatype Handler = Handler(startPc: int, endPc: int, handlerPc: int, catchType: int)

  predicate LineOk(l: Line) { Is2(l.startPc) && Is2(l.lineNo) }

  predicate HandlerOk(h: Handler) { Is2(h.startPc) && Is2(h.endPc) && Is2(h.handlerPc) && Is2(h.catchType) }

  function ReadLine(d: seq<byte>, p: nat): Read<Line> {
    var (s, q) :- U2(d, p);
    var (l, next) :- U2(d, q);
    Got(Line(s, l), next)
  }

  function ReadHandler(d: seq<byte>, p: nat): Read<Handler> {
    var (s, q) :- U2(d, p);
    var (e, q2) :- U2(d, q);
    var (h, q3) :- U2(d, q2);
    var (c, next) :- U2(d, q3);
    Got(Handler(s, e, h, c), next)
  }

  function WriteLine(l: Line): seq<byte> { W2(l.startPc) + W2(l.lineNo) }

  function WriteHandler(h: Handler): seq<byte> { (W2(h.startPc) + W2(h.endPc)) + (W2(h.handlerPc) + W2(h.catchType)) }

  function Same<T>(x: T): T { x }

  lemma LineRoundTrips(d: seq<byte>, l: Line)
    requires LineOk(l)
    ensures RoundTrips(d, WriteLine, ReadLine, Same, l)
  {
    forall p: nat | Starts(d, p, WriteLine(l)) ensures ReadLine(d, p) == Got(l, p + |WriteLine(l)|) {
      StartsBoth(d, p, W2(l.startPc), W2(l.lineNo));
      ReadsU2(d, p, l.startPc);
      ReadsU2(d, p + 2, l.lineNo);
    }
  }

  lemma HandlerRoundTrips(d: seq<byte>, h: Handler)
    requires HandlerOk(h)
    ensures RoundTrips(d, WriteHandler, ReadHandler, Same, h)
  {
    forall p: nat | Starts(d, p, WriteHandler(h)) ensures ReadHandler(d, p) == Got(h, p + |WriteHandler(h)|) {
      StartsBoth(d, p, W2(h.startPc) + W2(h.endPc), W2(h.handlerPc) + W2(h.catchType));
      StartsBoth(d, p, W2(h.startPc), W2(h.endPc));
      StartsBoth(d, p + 4, W2(h.handlerPc), W2(h.catchType));
      ReadsU2(d, p, h.startPc);
      ReadsU2(d, p + 2, h.endPc);
      ReadsU2(d, p + 4, h.handlerPc);
      ReadsU2(d, p + 6, h.catchType);
    }
  }

  lemma IndexRoundTrips(d: seq<byte>, i: int)
    requires Is2(i)
    ensures RoundTrips(d, W2, U2, Same, i)
  {
    forall p: nat | Starts(d, p, W2(i)) ensures U2(d, p) == Got(i, p + |W2(i)|) {
      ReadsU2(d, p, i);
    }
  }

  function ReadLines(d: seq<byte>, p: nat): Read<seq<Line>> { ReadCounted(d, p, ReadLine) }

  function WriteLines(ls: seq<Line>): seq<byte> { WriteCounted(ls, WriteLine) }

  predicate LinesOk(ls: seq<Line>) { Is2(|ls|) && forall l | l in ls :: LineOk(l) }

  lemma LinesRoundTrip(d: seq<byte>, ls: seq<Line>)
    requires LinesOk(ls)
    ensures RoundTrips(d, WriteLines, ReadLines, Same, ls)
  {
    hide WriteCounted;
    hide ReadCounted;
    hide Starts;
    forall p: nat | Starts(d, p, WriteLines(ls)) ensures ReadLines(d, p) == Got(ls, p + |WriteLines(ls)|) {
      forall l | l in ls ensures RoundTrips(d, WriteLine, ReadLine, Same, l) {
        LineRoundTrips(d, l);
      }
      hide RoundTrips;
      CountedRoundTrips(d, p, ls, WriteLine, ReadLine, Same);
      SameViews(ls, Same);
    }
  }

  // ----- fields -----

  /** A field as the class file has it, and as defineClass leaves it. */
  datatype Field = Field(access: int, name: int, desc: int, attrs: seq<Attr<int>>)

  datatype FieldBlock = FieldBlock(access: int, name: seq<byte>, desc: seq<byte>, constant: Option<int>)

  /** The last attribute of its kind counts. */
  function LastOf<T>(found: seq<Option<T>>): Option<T> {
    if found == [] then None
    else if found[|found| - 1].Some? then found[|found| - 1]
    else LastOf(found[..|found| - 1])
  }

  function FieldKnown(name: seq<byte>): Option<Reader<int>> {
    if name == Ascii("ConstantValue") then Some(U2) else None
  }

  function ReadField(pool: seq<Slot>, d: seq<byte>, p: nat): Read<FieldBlock> {
    var (access, q) :- U2(d, p);
    var (name, q2) :- U2(d, q);
    var (desc, q3) :- U2(d, q2);
    var (attrs, next) :- ReadAttrs(pool, d, q3, FieldKnown);
    if TextAt(pool, name).None? || TextAt(pool, desc).None? then Undefined
    else Got(FieldBlock(access, TextAt(pool, name).value, TextAt(pool, desc).value, LastOf(attrs)), next)
  }

  function WriteHead(access: int, name: int, desc: int, rest: seq<byte>): seq<byte> {
    W2(access) + (W2(name) + (W2(desc) + rest))
  }

  function WriteField(f: Field): seq<byte> { WriteHead(f.access, f.name, f.desc, WriteAttrs(f.attrs, W2)) }

  predicate HeadOk(pool: seq<Slot>, access: int, name: int, desc: int) {
    Is2(access) && Is2(name) && Is2(desc) && TextAt(pool, name).Some? && TextAt(pool, desc).Some?
  }

  /** An attribute with a two-byte index, named as it should be. */
  predicate IndexAttrOk(pool: seq<Slot>, a: Attr<int>, name: seq<byte>) {
    && Is2(a.name) && TextAt(pool, a.name).Some? && (a.Known? <==> TextAt(pool, a.name).value == name)
    && if a.Known? then Is2(a.contents) else Is4(|a.bytes|)
  }

  predicate FieldOk(pool: seq<Slot>, f: Field) {
    && HeadOk(pool, f.access, f.name, f.desc) && Is2(|f.attrs|)
    && forall a | a in f.attrs :: IndexAttrOk(pool, a, Ascii("ConstantValue"))
  }

  function FieldBlockOf(pool: seq<Slot>, f: Field): FieldBlock
    requires FieldOk(pool, f)
  {
    FieldBlock(f.access, TextAt(pool, f.name).value, TextAt(pool, f.desc).value, LastOf(SeenAll(f.attrs, Same)))
  }

  /** The three indices in front of a field or method. */
  lemma HeadStarts(d: seq<byte>, p: nat, access: int, name: int, desc: int, rest: seq<byte>)
    requires Is2(access) && Is2(name) && Is2(desc) && Starts(d, p, WriteHead(access, name, desc, rest))
    ensures U2(d, p) == Got(access, p + 2) && U2(d, p + 2) == Got(name, p + 4) && U2(d, p + 4) == Got(desc, p + 6)
    ensures Starts(d, p + 6, rest) && |WriteHead(access, name, desc, rest)| == 6 + |rest|
  {
    StartsBoth(d, p, W2(access), W2(name) + (W2(desc) + rest));
    StartsBoth(d, p + 2, W2(name), W2(desc) + rest);
    StartsBoth(d, p + 4, W2(desc), rest);
    ReadsU2(d, p, access);
    ReadsU2(d, p + 2, name);
    ReadsU2(d, p + 4, desc);
    hide U2;
    hide Starts;
  }

  lemma IndexAttrIsOk(pool: seq<Slot>, d: seq<byte>, a: Attr<int>, name: seq<byte>,
      known: seq<byte> -> Option<Reader<int>>)
    requires IndexAttrOk(pool, a, name) && (forall n :: known(n) == if n == name then Some(U2) else None)
    ensures AttrOk(pool, d, known, a, W2, Same)
  {
    if a.Known? {
      IndexRoundTrips(d, a.contents);
      Lengths(a.contents);
    }
    hide RoundTrips;
  }

  lemma FieldRoundTrips(pool: seq<Slot>, d: seq<byte>, f: Field, p: nat)
    requires FieldOk(pool, f) && Starts(d, p, WriteField(f))
    ensures ReadField(pool, d, p) == Got(FieldBlockOf(pool, f), p + |WriteField(f)|)
  {
    hide U2;
    hide Starts;
    hide WriteHead;
    hide WriteAttrs;
    hide ReadAttrs;
    hide LastOf;
    hide SeenAll;
    hide Ascii;
    hide AttrOk;
    HeadStarts(d, p, f.access, f.name, f.desc, WriteAttrs(f.attrs, W2));
    forall a | a in f.attrs ensures AttrOk(pool, d, FieldKnown, a, W2, Same) {
      IndexAttrIsOk(pool, d, a, Ascii("ConstantValue"), FieldKnown);
    }
    AttrsRoundTrip(pool, d, FieldKnown, f.attrs, W2, Same, p + 6);
  }

  // ----- methods -----

  /** The contents of the attributes looked for in a method. */
  datatype Info =
    | Code(maxStack: int, maxLocals: int, code: seq<byte>, handlers: seq<Handler>, attrs: seq<Attr<seq<Line>>>)
    | Exceptions(classes: seq<int>)

  datatype InfoRead =
    | CodeRead(maxStack: int, maxLocals: int, code: seq<byte>, handlers: seq<Handler>, lines: seq<Option<seq<Line>>>)
    | ExceptionsRead(classes: seq<int>)

  datatype Method = Method(access: int, name: int, desc: int, attrs: seq<Attr<Info>>)

  /** A method block. A native or abstract method keeps the zeros of memset. */
  datatype MethodBlock = MethodBlock(
    access: int, name: seq<byte>, desc: seq<byte>, maxStack: int, maxLocals: int,
    code: Option<seq<byte>>, handlers: seq<Handler>, lines: seq<Line>, throws: seq<int>)

  /** What an attribute leaves in the method block. */
  function Apply(mb: MethodBlock, i: InfoRead): MethodBlock {
    match i
    case CodeRead(maxStack, maxLocals, code, handlers, lines) =>
      var last := LastOf(lines);
      mb.(maxStack := maxStack, maxLocals := maxLocals, code := Some(code), handlers := handlers,
          lines := if last.Some? then last.value else mb.lines)
    case ExceptionsRead(classes) => mb.(throws := classes)
  }

  function ApplyAll(mb: MethodBlock, found: seq<Option<InfoRead>>): MethodBlock
    decreases |found|
  {
    if found == [] then mb
    else ApplyAll(if found[0].Some? then Apply(mb, found[0].value) else mb, found[1..])
  }

  function CodeKnown(name: seq<byte>): Option<Reader<seq<Line>>> {
    if name == Ascii("LineNumberTable") then Some(ReadLines) else None
  }

  function ReadCode(pool: seq<Slot>, d: seq<byte>, p: nat): Read<InfoRead> {
    var (maxStack, q) :- U2(d, p);
    var (maxLocals, q2) :- U2(d, q);
    var (length, q3) :- U4(d, q2);
    var (code, q4) :- Block(d, q3, length);
    var (handlers, q5) :- ReadCounted(d, q4, ReadHandler);
    var (lines, next) :- ReadAttrs(pool, d, q5, CodeKnown);
    Got(CodeRead(maxStack, maxLocals, code, handlers, lines), next)
  }

  function ReadExceptions(d: seq<byte>, p: nat): Read<InfoRead> {
    var (classes, next) :- ReadCounted(d, p, U2);
    Got(ExceptionsRead(classes), next)
  }

  function MethodKnown(pool: seq<Slot>, name: seq<byte>): Option<Reader<InfoRead>> {
    if name == Ascii("Code") then Some((d: seq<byte>, p: nat) => ReadCode(pool, d, p))
    else if name == Ascii("Exceptions") then Some(ReadExceptions)
    else None
  }

  function ReadMethod(pool: seq<Slot>, d: seq<byte>, p: nat): Read<MethodBlock> {
    var (access, q) :- U2(d, p);
    var (name, q2) :- U2(d, q);
    var (desc, q3) :- U2(d, q2);
    var (attrs, next) :- ReadAttrs(pool, d, q3, (n: seq<byte>) => MethodKnown(pool, n));
    if TextAt(pool, name).None? || TextAt(pool, desc).None? then Undefined
    else
      Got(ApplyAll(NewMethod(access, TextAt(pool, name).value, TextAt(pool, desc).value), attrs), next)
  }

  function NewMethod(access: int, name: seq<byte>, desc: seq<byte>): MethodBlock {
    MethodBlock(access, name, desc, 0, 0, None, [], [], [])
  }

  function WriteCode(c: Info): seq<byte>
    requires c.Code?
  {
    W2(c.maxStack) + (W2(c.maxLocals) + (W4(|c.code|) + (c.code +
      (WriteCounted(c.handlers, WriteHandler) + WriteAttrs(c.attrs, WriteLines)))))
  }

  function WriteInfo(i: Info): seq<byte> {
    match i
    case Code(_, _, _, _, _) => WriteCode(i)
    case Exceptions(classes) => WriteCounted(classes, W2)
  }

  function WriteMethod(m: Method): seq<byte> { WriteHead(m.access, m.name, m.desc, WriteAttrs(m.attrs, WriteInfo)) }

  predicate LinesAttrOk(pool: seq<Slot>, a: Attr<seq<Line>>) {
    && Is2(a.name) && TextAt(pool, a.name).Some?
    && (a.Known? <==> TextAt(pool, a.name).value == Ascii("LineNumberTable"))
    && if a.Known? then LinesOk(a.contents) && Is4(|WriteLines(a.contents)|) else Is4(|a.bytes|)
  }

  predicate InfoOk(pool: seq<Slot>, i: Info) {
    match i
    case Code(maxStack, maxLocals, code, handlers, attrs) =>
      && Is2(maxStack) && Is2(maxLocals) && Is4(|code|) && Is2(|handlers|) && Is2(|attrs|)
      && (forall h | h in handlers :: HandlerOk(h)) && (forall a | a in attrs :: LinesAttrOk(pool, a))
    case Exceptions(classes) => Is2(|classes|) && forall c | c in classes :: Is2(c)
  }

  predicate InfoAttrOk(pool: seq<Slot>, a: Attr<Info>) {
    && Is2(a.name) && TextAt(pool, a.name).Some?
    && var name := TextAt(pool, a.name).value;
       && (a.Known? <==> name == Ascii("Code") || name == Ascii("Exceptions"))
       && if a.Known? then
            InfoOk(pool, a.contents) && (a.contents.Code? <==> name == Ascii("Code")) && Is4(|WriteInfo(a.contents)|)
          else Is4(|a.bytes|)
  }

  predicate MethodOk(pool: seq<Slot>, m: Method) {
    HeadOk(pool, m.access, m.name, m.desc) && Is2(|m.attrs|) && forall a | a in m.attrs :: InfoAttrOk(pool, a)
  }

  function InfoView(i: Info): InfoRead {
    match i
    case Code(maxStack, maxLocals, code, handlers, attrs) =>
      CodeRead(maxStack, maxLocals, code, handlers, SeenAll(attrs, Same))
    case Exceptions(classes) => ExceptionsRead(classes)
  }

  function MethodBlockOf(pool: seq<Slot>, m: Method): MethodBlock
    requires MethodOk(pool, m)
  {
    ApplyAll(NewMethod(m.access, TextAt(pool, m.name).value, TextAt(pool, m.desc).value), SeenAll(m.attrs, InfoView))
  }

  /** Where the parts of a Code attribute stand. */
  lemma CodeParts(d: seq<byte>, c: Info, p: nat)
    requires c.Code? && Is2(c.maxStack) && Is2(c.maxLocals) && Is4(|c.code|) && Starts(d, p, WriteCode(c))
    ensures var q := p + 8 + |c.code|;
            var handlers, attrs := WriteCounted(c.handlers, WriteHandler), WriteAttrs(c.attrs, WriteLines);
            && U2(d, p) == Got(c.maxStack, p + 2) && U2(d, p + 2) == Got(c.maxLocals, p + 4)
            && U4(d, p + 4) == Got(|c.code|, p + 8) && Block(d, p + 8, |c.code|) == Got(c.code, q)
            && Starts(d, q, handlers) && Starts(d, q + |handlers|, attrs)
            && p + |WriteCode(c)| == q + |handlers| + |attrs|
  {
    hide U2;
    hide U4;
    hide W2;
    hide W4;
    hide Starts;
    hide Block;
    hide WriteCounted;
    hide WriteAttrs;
    var handlers, attrs := WriteCounted(c.handlers, WriteHandler), WriteAttrs(c.attrs, WriteLines);
    var tables := handlers + attrs;
    Lengths(c.maxStack);
    Lengths(c.maxLocals);
    Lengths(|c.code|);
    StartsBoth(d, p, W2(c.maxStack), W2(c.maxLocals) + (W4(|c.code|) + (c.code + tables)));
    StartsBoth(d, p + 2, W2(c.maxLocals), W4(|c.code|) + (c.code + tables));
    StartsBoth(d, p + 4, W4(|c.code|), c.code + tables);
    StartsBoth(d, p + 8, c.code, tables);
    StartsBoth(d, p + 8 + |c.code|, handlers, attrs);
    ReadsU2(d, p, c.maxStack);
    ReadsU2(d, p + 2, c.maxLocals);
    ReadsU4(d, p + 4, |c.code|);
    ReadsBlock(d, p + 8, c.code);
  }

  lemma HandlersRead(d: seq<byte>, hs: seq<Handler>, p: nat)
    requires Is2(|hs|) && (forall h | h in hs :: HandlerOk(h)) && Starts(d, p, WriteCounted(hs, WriteHandler))
    ensures ReadCounted(d, p, ReadHandler) == Got(hs, p + |WriteCounted(hs, WriteHandler)|)
  {
    hide WriteCounted;
    hide ReadCounted;
    hide Starts;
    forall h | h in hs ensures RoundTrips(d, WriteHandler, ReadHandler, Same, h) {
      HandlerRoundTrips(d, h);
    }
    hide RoundTrips;
    CountedRoundTrips(d, p, hs, WriteHandler, ReadHandler, Same);
    SameViews(hs, Same);
  }

  lemma LineTablesRead(pool: seq<Slot>, d: seq<byte>, attrs: seq<Attr<seq<Line>>>, p: nat)
    requires Is2(|attrs|) && (forall a | a in attrs :: LinesAttrOk(pool, a))
    requires Starts(d, p, WriteAttrs(attrs, WriteLines))
    ensures ReadAttrs(pool, d, p, CodeKnown) == Got(SeenAll(attrs, Same), p + |WriteAttrs(attrs, WriteLines)|)
  {
    hide ReadAttrs;
    hide WriteAttrs;
    hide SeenAll;
    hide Starts;
    hide AttrOk;
    hide LinesAttrOk;
    forall a | a in attrs ensures AttrOk(pool, d, CodeKnown, a, WriteLines, Same) {
      LinesAttrIsOk(pool, d, a);
    }
    AttrsRoundTrip(pool, d, CodeKnown, attrs, WriteLines, Same, p);
  }

  lemma CodeRoundTrips(pool: seq<Slot>, d: seq<byte>, c: Info, p: nat)
    requires c.Code? && InfoOk(pool, c) && Starts(d, p, WriteCode(c))
    ensures ReadCode(pool, d, p) == Got(InfoView(c), p + |WriteCode(c)|)
  {
    hide U2;
    hide U4;
    hide Starts;
    hide Block;
    hide ReadCounted;
    hide WriteCounted;
    hide ReadAttrs;
    hide WriteAttrs;
    hide WriteCode;
    hide SeenAll;
    hide LinesAttrOk;
    hide HandlerOk;
    CodeParts(d, c, p);
    var q := p + 8 + |c.code|;
    HandlersRead(d, c.handlers, q);
    LineTablesRead(pool, d, c.attrs, q + |WriteCounted(c.handlers, WriteHandler)|);
  }

  lemma LinesAttrIsOk(pool: seq<Slot>, d: seq<byte>, a: Attr<seq<Line>>)
    requires LinesAttrOk(pool, a)
    ensures AttrOk(pool, d, CodeKnown, a, WriteLines, Same)
  {
    hide Ascii;
    if a.Known? {
      LinesRoundTrip(d, a.contents);
    }
    hide RoundTrips;
    hide LinesOk;
  }

  lemma InfoAttrIsOk(pool: seq<Slot>, d: seq<byte>, a: Attr<Info>)
    requires InfoAttrOk(pool, a)
    ensures AttrOk(pool, d, (n: seq<byte>) => MethodKnown(pool, n), a, WriteInfo, InfoView)
  {
    CodeIsNotExceptions();
    hide Ascii;
    if a.Known? {
      var r := MethodKnown(pool, TextAt(pool, a.name).value).value;
      forall p: nat | Starts(d, p, WriteInfo(a.contents))
        ensures r(d, p) == Got(InfoView(a.contents), p + |WriteInfo(a.contents)|)
      {
        if a.contents.Code? {
          CodeRoundTrips(pool, d, a.contents, p);
        } else {
          ExceptionsRoundTrip(d, a.contents.classes, p);
        }
        hide ReadCode;
        hide ReadExceptions;
        hide WriteCode;
        hide Starts;
      }
    }
    hide InfoOk;
    hide WriteInfo;
  }

  lemma CodeIsNotExceptions()
    ensures Ascii("Code") != Ascii("Exceptions")
  {
    assert Ascii("Code")[0] != Ascii("Exceptions")[0];
  }

  lemma ExceptionsRoundTrip(d: seq<byte>, classes: seq<int>, p: nat)
    requires Is2(|classes|) && (forall c | c in classes :: Is2(c)) && Starts(d, p, WriteCounted(classes, W2))
    ensures ReadExceptions(d, p) == Got(ExceptionsRead(classes), p + |WriteCounted(classes, W2)|)
  {
    forall c | c in classes ensures RoundTrips(d, W2, U2, Same, c) {
      IndexRoundTrips(d, c);
    }
    hide RoundTrips;
    hide ReadCounted;
    hide WriteCounted;
    CountedRoundTrips(d, p, classes, W2, U2, Same);
    SameViews(classes, Same);
  }

  lemma MethodRoundTrips(pool: seq<Slot>, d: seq<byte>, m: Method, p: nat)
    requires MethodOk(pool, m) && Starts(d, p, WriteMethod(m))
    ensures ReadMethod(pool, d, p) == Got(MethodBlockOf(pool, m), p + |WriteMethod(m)|)
  {
    hide U2;
    hide Starts;
    hide WriteHead;
    hide WriteAttrs;
    hide ReadAttrs;
    hide SeenAll;
    hide ApplyAll;
    hide AttrOk;
    hide InfoAttrOk;
    hide MethodKnown;
    HeadStarts(d, p, m.access, m.name, m.desc, WriteAttrs(m.attrs, WriteInfo));
    var known := (n: seq<byte>) => MethodKnown(pool, n);
    forall a | a in m.attrs ensures AttrOk(pool, d, known, a, WriteInfo, InfoView) {
      InfoAttrIsOk(pool, d, a);
    }
    AttrsRoundTrip(pool, d, known, m.attrs, WriteInfo, InfoView, p + 6);
  }

  // ----- the class -----

  const MAGIC := 0xCAFEBABE

  /** A class file, and the class block that defineClass makes of it. */
  datatype ClassInfo = ClassInfo(
    minor: int, major: int, consts: seq<Const>, access: int, this_: int, super: int,
    interfaces: seq<int>, fields: seq<Field>, methods: seq<Method>, attrs: seq<Attr<int>>)

  datatype ClassBlock = ClassBlock(
    pool: seq<Slot>, access: int, name: seq<byte>, super: int, superName: Option<seq<byte>>,
    interfaces: seq<int>, fields: seq<FieldBlock>, methods: seq<MethodBlock>, sourceFile: Option<seq<byte>>)

  /** CP_UTF8(CP_CLASS(i)) */
  function ClassNameAt(pool: seq<Slot>, i: int): Option<seq<byte>> {
    if 0 <= i < |pool| && pool[i].Number? then TextAt(pool, FirstIndex(pool[i].info)) else None
  }

  function ClassKnown(name: seq<byte>): Option<Reader<int>> {
    if name == Ascii("SourceFile") then Some(U2) else None
  }

  function SourceFileOf(pool: seq<Slot>, found: seq<Option<int>>): Option<seq<byte>> {
    if LastOf(found).Some? then TextAt(pool, LastOf(found).value) else None
  }

  /** Magic number, version and constant pool. */
  function ReadStart(d: seq<byte>, p: nat): Read<seq<Slot>> {
    var (magic, q) :- U4(d, p);
    if magic != MAGIC then Error(BadMagic)
    else
      var (_, q2) :- U2(d, q);
      var (_, q3) :- U2(d, q2);
      ReadPool(d, q3)
  }

  /** The superclass of a class of the given name: its index, and its name unless it is Object. */
  function ReadSuper(pool: seq<Slot>, name: seq<byte>, d: seq<byte>, p: nat): Read<(int, Option<seq<byte>>)> {
    var (super, next) :- U2(d, p);
    if name == Ascii("java/lang/Object") then
      if super != 0 then Error(ObjectHasSuper) else Got((0, None), next)
    else if ClassNameAt(pool, super).None? then Undefined
    else Got((super, ClassNameAt(pool, super)), next)
  }

  /** What follows the constant pool. */
  function ReadRest(pool: seq<Slot>, d: seq<byte>, p: nat): Read<ClassBlock> {
    var (access, q) :- U2(d, p);
    var (this_, q2) :- U2(d, q);
    if ClassNameAt(pool, this_).None? then Undefined
    else
      var name := ClassNameAt(pool, this_).value;
      var (super, q3) :- ReadSuper(pool, name, d, q2);
      var (interfaces, q4) :- ReadCounted(d, q3, U2);
      var (fields, q5) :- ReadCounted(d, q4, (e: seq<byte>, i: nat) => ReadField(pool, e, i));
      var (methods, q6) :- ReadCounted(d, q5, (e: seq<byte>, i: nat) => ReadMethod(pool, e, i));
      var (attrs, next) :- ReadAttrs(pool, d, q6, ClassKnown);
      Got(ClassBlock(pool, access, name, super.0, super.1, interfaces, fields, methods, SourceFileOf(pool, attrs)),
          next)
  }

  function ReadClass(d: seq<byte>, p: nat): Read<ClassBlock> {
    var (pool, q) :- ReadStart(d, p);
    ReadRest(pool, d, q)
  }

  lemma MagicIsTested(d: seq<byte>, p: nat)
    requires p + 4 <= |d|
    ensures U4(d, p).value == MAGIC <==> d[p..p + 4] == [0xCA, 0xFE, 0xBA, 0xBE]
  {
    var a, b, c, e: int := d[p] as int, d[p + 1] as int, d[p + 2] as int, d[p + 3] as int;
    assert d[p..p + 4] == [d[p], d[p + 1], d[p + 2], d[p + 3]];
    assert U4(d, p).value == ((a * 0x100 + b) * 0x100 + c) * 0x100 + e;
  }

  /** A counted table, read by the loop. */
  method ReadCountedTable<T>(d: seq<byte>, p: nat, r: Reader<T>) returns (table: Read<seq<T>>)
    ensures table == ReadCounted(d, p, r)
  {
    var count := U2(d, p);
    if count.IsFailure() {
      return count.PropagateFailure();
    }
    table := ReadTable(d, count.next, count.value, r);
  }

  /** defineClass (class.c:84-361), up to entering the class in the table of loaded classes. */
  method DefineClass(d: seq<byte>, offset: nat) returns (r: Read<ClassBlock>)
    ensures r == ReadClass(d, offset)
    ensures offset + 4 <= |d| && d[offset..offset + 4] != [0xCA, 0xFE, 0xBA, 0xBE] ==> r == Error(BadMagic)
    ensures r.Got? ==> offset + 4 <= |d| && d[offset..offset + 4] == [0xCA, 0xFE, 0xBA, 0xBE]
  {
    if offset + 4 <= |d| {
      MagicIsTested(d, offset);
    }
    var magic := U4(d, offset);
    if magic.IsFailure() {
      return magic.PropagateFailure();
    }
    if magic.value != MAGIC {
      return Error(BadMagic);
    }
    if U2(d, magic.next).IsFailure() || U2(d, magic.next + 2).IsFailure() {
      return Undefined;
    }
    var filled := FillPool(d, magic.next + 4);
    if filled.IsFailure() {
      return filled.PropagateFailure();
    }
    r := DefineRest(filled.value, d, filled.next);
  }

  method DefineRest(pool: seq<Slot>, d: seq<byte>, p: nat) returns (r: Read<ClassBlock>)
    ensures r == ReadRest(pool, d, p)
  {
    hide ReadCounted;
    hide ReadAttrs;
    hide ReadSuper;
    hide U2;
    var access := U2(d, p);
    if access.IsFailure() {
      return access.PropagateFailure();
    }
    var index := U2(d, access.next);
    if index.IsFailure() {
      return index.PropagateFailure();
    }
    var name := ClassNameAt(pool, index.value);
    if name.None? {
      return Undefined;
    }
    var super := ReadSuper(pool, name.value, d, index.next);
    if super.IsFailure() {
      return super.PropagateFailure();
    }
    var interfaces := ReadCountedTable(d, super.next, U2);
    if interfaces.IsFailure() {
      return interfaces.PropagateFailure();
    }
    var fields := ReadCountedTable(d, interfaces.next, (e: seq<byte>, i: nat) => ReadField(pool, e, i));
    if fields.IsFailure() {
      return fields.PropagateFailure();
    }
    var methods := ReadCountedTable(d, fields.next, (e: seq<byte>, i: nat) => ReadMethod(pool, e, i));
    if methods.IsFailure() {
      return methods.PropagateFailure();
    }
    var attrs := ReadAttrs(pool, d, methods.next, ClassKnown);
    if attrs.IsFailure() {
      return attrs.PropagateFailure();
    }
    return Got(ClassBlock(pool, access.value, name.value, super.value.0, super.value.1, interfaces.value,
                          fields.value, methods.value, SourceFileOf(pool, attrs.value)), attrs.next);
  }

  // ----- a written class is read back -----

  predicate ConstsOk(cs: seq<Const>) { Is2(|PoolOf(cs)| + 1) && forall c | c in cs :: ConstOk(c) }

  /** Slot zero is never set. */
  function Pool(cs: seq<Const>): seq<Slot> { [Unset] + PoolOf(cs) }

  predicate NamesOk(pool: seq<Slot>, this_: int, super: int) {
    && Is2(this_) && Is2(super) && ClassNameAt(pool, this_).Some?
    && if ClassNameAt(pool, this_).value == Ascii("java/lang/Object") then super == 0
        else ClassNameAt(pool, super).Some?
  }

  predicate RestOk(pool: seq<Slot>, c: ClassInfo) {
    && Is2(c.access) && NamesOk(pool, c.this_, c.super)
    && Is2(|c.interfaces|) && Is2(|c.fields|) && Is2(|c.methods|) && Is2(|c.attrs|)
    && (forall i | i in c.interfaces :: Is2(i))
    && (forall f | f in c.fields :: FieldOk(pool, f)) && (forall m | m in c.methods :: MethodOk(pool, m))
    && (forall a | a in c.attrs :: IndexAttrOk(pool, a, Ascii("SourceFile")))
  }

  /** A class file by sections 4.1 to 4.7: its tables can be counted in two bytes, its indices lead to
      names, and its attributes are named after what they contain. */
  predicate ClassOk(c: ClassInfo) {
    Is2(c.minor) && Is2(c.major) && ConstsOk(c.consts) && RestOk(Pool(c.consts), c)
  }

  function WriteStart(c: ClassInfo): seq<byte>
    requires ConstsOk(c.consts)
  {
    [0xCA, 0xFE, 0xBA, 0xBE] + (W2(c.minor) + (W2(c.major) + (W2(|PoolOf(c.consts)| + 1) + WritePool(c.consts))))
  }

  function WriteRest(c: ClassInfo): seq<byte> {
    W2(c.access) + (W2(c.this_) + (W2(c.super) + (WriteCounted(c.interfaces, W2) +
      (WriteCounted(c.fields, WriteField) + (WriteCounted(c.methods, WriteMethod) + WriteAttrs(c.attrs, W2))))))
  }

  function WriteClass(c: ClassInfo): seq<byte>
    requires ConstsOk(c.consts)
  {
    WriteStart(c) + WriteRest(c)
  }

  function FieldView(pool: seq<Slot>, f: Field): FieldBlock {
    if FieldOk(pool, f) then FieldBlockOf(pool, f) else FieldBlock(0, [], [], None)
  }

  function MethodView(pool: seq<Slot>, m: Method): MethodBlock {
    if MethodOk(pool, m) then MethodBlockOf(pool, m) else NewMethod(0, [], [])
  }

  /** What the class block should hold. */
  function BlockOf(pool: seq<Slot>, c: ClassInfo): ClassBlock
    requires RestOk(pool, c)
  {
    var name := ClassNameAt(pool, c.this_).value;
    ClassBlock(
      pool, c.access, name, c.super, if name == Ascii("java/lang/Object") then None else ClassNameAt(pool, c.super),
      c.interfaces, Views(c.fields, (f: Field) => FieldView(pool, f)),
      Views(c.methods, (m: Method) => MethodView(pool, m)),
      SourceFileOf(pool, SeenAll(c.attrs, Same)))
  }

  lemma MagicBytes()
    ensures W4(MAGIC) == [0xCA, 0xFE, 0xBA, 0xBE]
  {
  }

  lemma StartRoundTrips(d: seq<byte>, c: ClassInfo, p: nat)
    requires Is2(c.minor) && Is2(c.major) && ConstsOk(c.consts) && Starts(d, p, WriteStart(c))
    ensures ReadStart(d, p) == Got(Pool(c.consts), p + |WriteStart(c)|)
  {
    hide U2;
    hide U4;
    hide W2;
    hide W4;
    hide Starts;
    hide PoolFrom;
    hide WritePool;
    hide PoolOf;
    hide ConstOk;
    var count, pool := |PoolOf(c.consts)| + 1, WritePool(c.consts);
    MagicBytes();
    Lengths(MAGIC);
    Lengths(c.minor);
    Lengths(c.major);
    Lengths(count);
    StartsBoth(d, p, W4(MAGIC), W2(c.minor) + (W2(c.major) + (W2(count) + pool)));
    StartsBoth(d, p + 4, W2(c.minor), W2(c.major) + (W2(count) + pool));
    StartsBoth(d, p + 6, W2(c.major), W2(count) + pool);
    StartsBoth(d, p + 8, W2(count), pool);
    ReadsU4(d, p, MAGIC);
    ReadsU2(d, p + 4, c.minor);
    ReadsU2(d, p + 6, c.major);
    ReadsU2(d, p + 8, count);
    var empty := seq(count, _ => Unset);
    PoolRoundTrips(d, p + 10, 1, c.consts, empty);
    assert empty[..1] == [Unset];
  }

  lemma FieldsRoundTrip(pool: seq<Slot>, d: seq<byte>, fs: seq<Field>, p: nat)
    requires Is2(|fs|) && (forall f | f in fs :: FieldOk(pool, f)) && Starts(d, p, WriteCounted(fs, WriteField))
    ensures ReadCounted(d, p, (e: seq<byte>, i: nat) => ReadField(pool, e, i))
            == Got(Views(fs, (f: Field) => FieldView(pool, f)), p + |WriteCounted(fs, WriteField)|)
  {
    hide Starts;
    hide FieldOk;
    hide WriteField;
    hide ReadField;
    hide FieldBlockOf;
    hide WriteCounted;
    hide ReadCounted;
    var read, view := (e: seq<byte>, i: nat) => ReadField(pool, e, i), (f: Field) => FieldView(pool, f);
    forall f | f in fs ensures RoundTrips(d, WriteField, read, view, f) {
      forall q: nat | Starts(d, q, WriteField(f)) ensures read(d, q) == Got(view(f), q + |WriteField(f)|) {
        FieldRoundTrips(pool, d, f, q);
      }
    }
    hide RoundTrips;
    CountedRoundTrips(d, p, fs, WriteField, read, view);
  }

  lemma MethodsRoundTrip(pool: seq<Slot>, d: seq<byte>, ms: seq<Method>, p: nat)
    requires Is2(|ms|) && (forall m | m in ms :: MethodOk(pool, m)) && Starts(d, p, WriteCounted(ms, WriteMethod))
    ensures ReadCounted(d, p, (e: seq<byte>, i: nat) => ReadMethod(pool, e, i))
            == Got(Views(ms, (m: Method) => MethodView(pool, m)), p + |WriteCounted(ms, WriteMethod)|)
  {
    hide Starts;
    hide MethodOk;
    hide WriteMethod;
    hide ReadMethod;
    hide MethodBlockOf;
    hide WriteCounted;
    hide ReadCounted;
    var read, view := (e: seq<byte>, i: nat) => ReadMethod(pool, e, i), (m: Method) => MethodView(pool, m);
    forall m | m in ms ensures RoundTrips(d, WriteMethod, read, view, m) {
      forall q: nat | Starts(d, q, WriteMethod(m)) ensures read(d, q) == Got(view(m), q + |WriteMethod(m)|) {
        MethodRoundTrips(pool, d, m, q);
      }
    }
    hide RoundTrips;
    CountedRoundTrips(d, p, ms, WriteMethod, read, view);
  }

  lemma InterfacesRoundTrip(d: seq<byte>, indices: seq<int>, p: nat)
    requires Is2(|indices|) && (forall i | i in indices :: Is2(i)) && Starts(d, p, WriteCounted(indices, W2))
    ensures ReadCounted(d, p, U2) == Got(indices, p + |WriteCounted(indices, W2)|)
  {
    hide ReadCounted;
    hide WriteCounted;
    forall i | i in indices ensures RoundTrips(d, W2, U2, Same, i) {
      IndexRoundTrips(d, i);
    }
    hide RoundTrips;
    CountedRoundTrips(d, p, indices, W2, U2, Same);
    SameViews(indices, Same);
  }

  lemma ClassAttrsRoundTrip(pool: seq<Slot>, d: seq<byte>, attrs: seq<Attr<int>>, p: nat)
    requires Is2(|attrs|) && (forall a | a in attrs :: IndexAttrOk(pool, a, Ascii("SourceFile")))
    requires Starts(d, p, WriteAttrs(attrs, W2))
    ensures ReadAttrs(pool, d, p, ClassKnown) == Got(SeenAll(attrs, Same), p + |WriteAttrs(attrs, W2)|)
  {
    hide Ascii;
    hide AttrOk;
    hide ReadAttrs;
    hide WriteAttrs;
    hide SeenAll;
    hide Starts;
    forall a | a in attrs ensures AttrOk(pool, d, ClassKnown, a, W2, Same) {
      IndexAttrIsOk(pool, d, a, Ascii("SourceFile"), ClassKnown);
    }
    AttrsRoundTrip(pool, d, ClassKnown, attrs, W2, Same, p);
  }

  /** Where the parts behind the constant pool stand. */
  lemma RestParts(d: seq<byte>, c: ClassInfo, p: nat)
    requires Is2(c.access) && Is2(c.this_) && Is2(c.super) && Starts(d, p, WriteRest(c))
    ensures var interfaces, fields := WriteCounted(c.interfaces, W2), WriteCounted(c.fields, WriteField);
            var methods, attrs := WriteCounted(c.methods, WriteMethod), WriteAttrs(c.attrs, W2);
            && U2(d, p) == Got(c.access, p + 2) && U2(d, p + 2) == Got(c.this_, p + 4)
            && U2(d, p + 4) == Got(c.super, p + 6)
            && Starts(d, p + 6, interfaces) && Starts(d, p + 6 + |interfaces|, fields)
            && Starts(d, p + 6 + |interfaces| + |fields|, methods)
            && Starts(d, p + 6 + |interfaces| + |fields| + |methods|, attrs)
            && |WriteRest(c)| == 6 + |interfaces| + |fields| + |methods| + |attrs|
  {
    hide U2;
    hide W2;
    hide Starts;
    hide WriteCounted;
    hide WriteAttrs;
    var interfaces, fields := WriteCounted(c.interfaces, W2), WriteCounted(c.fields, WriteField);
    var methods, attrs := WriteCounted(c.methods, WriteMethod), WriteAttrs(c.attrs, W2);
    Lengths(c.access);
    Lengths(c.this_);
    Lengths(c.super);
    StartsBoth(d, p, W2(c.access), W2(c.this_) + (W2(c.super) + (interfaces + (fields + (methods + attrs)))));
    StartsBoth(d, p + 2, W2(c.this_), W2(c.super) + (interfaces + (fields + (methods + attrs))));
    StartsBoth(d, p + 4, W2(c.super), interfaces + (fields + (methods + attrs)));
    StartsBoth(d, p + 6, interfaces, fields + (methods + attrs));
    StartsBoth(d, p + 6 + |interfaces|, fields, methods + attrs);
    StartsBoth(d, p + 6 + |interfaces| + |fields|, methods, attrs);
    ReadsU2(d, p, c.access);
    ReadsU2(d, p + 2, c.this_);
    ReadsU2(d, p + 4, c.super);
  }

  lemma RestRoundTrips(pool: seq<Slot>, d: seq<byte>, c: ClassInfo, p: nat)
    requires RestOk(pool, c) && Starts(d, p, WriteRest(c))
    ensures ReadRest(pool, d, p) == Got(BlockOf(pool, c), p + |WriteRest(c)|)
  {
    hide U2;
    hide Starts;
    hide ReadCounted;
    hide WriteCounted;
    hide ReadAttrs;
    hide WriteAttrs;
    hide WriteRest;
    hide SeenAll;
    hide Views;
    hide Ascii;
    hide FieldOk;
    hide MethodOk;
    hide IndexAttrOk;
    hide SourceFileOf;
    RestParts(d, c, p);
    var interfaces, fields := WriteCounted(c.interfaces, W2), WriteCounted(c.fields, WriteField);
    var methods := WriteCounted(c.methods, WriteMethod);
    InterfacesRoundTrip(d, c.interfaces, p + 6);
    FieldsRoundTrip(pool, d, c.fields, p + 6 + |interfaces|);
    MethodsRoundTrip(pool, d, c.methods, p + 6 + |interfaces| + |fields|);
    ClassAttrsRoundTrip(pool, d, c.attrs, p + 6 + |interfaces| + |fields| + |methods|);
  }

  /** Reading a class file gives back every part of the class that was written, wherever the file
      lies in the buffer, and ends exactly at its last byte. */
  lemma ClassRoundTrips(c: ClassInfo, before: seq<byte>, after: seq<byte>)
    requires ClassOk(c)
    ensures ReadClass(before + WriteClass(c) + after, |before|)
            == Got(BlockOf(Pool(c.consts), c), |before| + |WriteClass(c)|)
  {
    hide ReadStart;
    hide ReadRest;
    hide WriteStart;
    hide WriteRest;
    hide RestOk;
    hide BlockOf;
    hide PoolOf;
    var d, p := before + WriteClass(c) + after, |before|;
    assert d[p..p + |WriteClass(c)|] == WriteClass(c);
    StartsBoth(d, p, WriteStart(c), WriteRest(c));
    StartRoundTrips(d, c, p);
    RestRoundTrips(Pool(c.consts), d, c, p + |WriteStart(c)|);
  }
}
