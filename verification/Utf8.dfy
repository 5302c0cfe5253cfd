/**
 Modified UTF-8 (utf8.c:18-85; section 4.4.7 of the JVMS) and the strings made from it
 (string.c:59-111).

 A C string is an index into a block of bytes; it ends at a zero byte. Characters are C shorts.
 */
module Utf8 {
  type byte = b: int | 0 <= b < 256

  /** A 16-bit unit, and the C short with the same bits. */
  function Short(c: int): int { if c % 0x1_0000 < 0x8000 then c % 0x1_0000 else c % 0x1_0000 - 0x1_0000 }

  lemma ShortIs(c: int)
    ensures -0x8000 <= Short(c) < 0x8000 && (Short(c) - c) % 0x1_0000 == 0
  {
    assert c == 0x1_0000 * (c / 0x1_0000) + c % 0x1_0000;
  }

  /** How many bytes GET_UTF8_CHAR takes: x & 0x80 and x & 0x20 decide. */
  function Width(x: byte): nat {
    if x / 0x80 % 2 == 0 then 1 else if x / 0x20 % 2 == 0 then 2 else 3
  }

  /** The string at p ends within the block. */
  predicate Scannable(m: seq<byte>, p: nat)
    decreases |m| - p
  {
    p < |m| && (m[p] == 0 || (p + Width(m[p]) < |m| && Scannable(m, p + Width(m[p]))))
  }

  /** GET_UTF8_CHAR */
  function Char(m: seq<byte>, p: nat): (c: int)
    requires p < |m| && p + Width(m[p]) <= |m|
  {
    var x: int := m[p];
    if Width(x) == 1 then x
    else if Width(x) == 2 then x % 0x20 * 0x40 + (m[p + 1] as int) % 0x40
    else x % 0x10 * 0x1000 + (m[p + 1] as int) % 0x40 * 0x40 + (m[p + 2] as int) % 0x40
  }

  /** The characters of the string at p. */
  function Units(m: seq<byte>, p: nat): seq<int>
    requires Scannable(m, p)
    decreases |m| - p
  {
    if m[p] == 0 then [] else [Short(Char(m, p))] + Units(m, p + Width(m[p]))
  }

  // ----- the encoding of section 4.4.7 -----

  type unit = u: int | 0 <= u < 0x1_0000

  function Encode(u: unit): seq<byte> {
    if 1 <= u < 0x80 then [u]
    else if u < 0x800 then [0xC0 + u / 0x40, 0x80 + u % 0x40]
    else [0xE0 + u / 0x1000, 0x80 + u / 0x40 % 0x40, 0x80 + u % 0x40]
  }

  function EncodeAll(us: seq<unit>): seq<byte> {
    if us == [] then [] else Encode(us[0]) + EncodeAll(us[1..])
  }

  function Shorts(us: seq<unit>): (r: seq<int>)
    ensures |r| == |us|
  {
    seq(|us|, i requires 0 <= i < |us| => Short(us[i]))
  }

  lemma EncodedWidth(u: unit)
    ensures var e := Encode(u);
            && 1 <= |e| <= 3 && e[0] != 0 && Width(e[0]) == |e|
            && (|e| == 2 ==> e[0] % 0x20 == u / 0x40 && e[1] % 0x40 == u % 0x40)
            && (|e| == 3 ==> e[0] % 0x10 == u / 0x1000 && e[1] % 0x40 == u / 0x40 % 0x40 && e[2] % 0x40 == u % 0x40)
  {
  }

  /** The decoder takes exactly the bytes of one encoded unit, and gives the unit back. */
  lemma EncodedChar(a: seq<byte>, u: unit, b: seq<byte>)
    ensures var m, p := a + Encode(u) + b, |a|;
            m[p] != 0 && Width(m[p]) == |Encode(u)| && Char(m, p) == u
  {
    EncodedWidth(u);
    var m, p, e := a + Encode(u) + b, |a|, Encode(u);
    assert m[p] == e[0] && (|e| >= 2 ==> m[p + 1] == e[1]) && (|e| == 3 ==> m[p + 2] == e[2]);
    hide Encode;
    hide Width;
  }

  /** Decoding the encoding of any sequence of units gives it back, wherever it lies in memory. */
  lemma {:induction false} RoundTrip(a: seq<byte>, us: seq<unit>, b: seq<byte>)
    ensures var m := a + EncodeAll(us) + ([0] + b);
            Scannable(m, |a|) && Units(m, |a|) == Shorts(us)
    decreases |us|
  {
    var m := a + EncodeAll(us) + ([0] + b);
    if us == [] {
      assert m[|a|] == 0;
    } else {
      var e, rest := Encode(us[0]), EncodeAll(us[1..]);
      assert m == a + e + (rest + ([0] + b)) == (a + e) + rest + ([0] + b);
      hide Encode;
      hide EncodeAll;
      EncodedChar(a, us[0], rest + ([0] + b));
      RoundTrip(a + e, us[1..], b);
      assert Shorts(us) == [Short(us[0])] + Shorts(us[1..]);
      hide Char;
      hide Width;
    }
  }

  /** Different sequences of units have different encodings. */
  lemma EncodingIsInjective(us: seq<unit>, vs: seq<unit>)
    requires EncodeAll(us) == EncodeAll(vs)
    ensures us == vs
  {
    RoundTrip([], us, []);
    RoundTrip([], vs, []);
    hide EncodeAll;
    hide Units;
    assert Shorts(us) == Shorts(vs);
    forall i | 0 <= i < |us| ensures us[i] == vs[i] {
      assert Shorts(us)[i] == Shorts(vs)[i];
    }
  }

  // ----- the loops -----

  /** C's int */
  function Int32(i: int): int {
    var u := i % 0x1_0000_0000;
    if u < 0x8000_0000 then u else u - 0x1_0000_0000
  }

  function HashFrom(h: int, us: seq<int>): int
    decreases |us|
  {
    if us == [] then h else HashFrom(Int32(h * 37 + us[0]), us[1..])
  }

  function Hash(us: seq<int>): int { HashFrom(0, us) }

  /** The polynomial of the characters in 37, the first with the highest power. */
  function Polynomial(us: seq<int>): int {
    if us == [] then 0 else 37 * Polynomial(us[..|us| - 1]) + us[|us| - 1]
  }

  lemma {:induction false} HashFromLast(h: int, us: seq<int>, c: int)
    ensures HashFrom(h, us + [c]) == Int32(HashFrom(h, us) * 37 + c)
    decreases |us|
  {
    if us == [] {
      assert ([] + [c])[1..] == [];
    } else {
      assert (us + [c])[1..] == us[1..] + [c];
      HashFromLast(Int32(h * 37 + us[0]), us[1..], c);
    }
  }

  /** The hash is the int with the low 32 bits of that polynomial. */
  lemma {:induction false} HashIsPolynomial(us: seq<int>)
    ensures -0x8000_0000 <= Hash(us) < 0x8000_0000 && (Hash(us) - Polynomial(us)) % 0x1_0000_0000 == 0
    decreases |us|
  {
    if us != [] {
      var n := |us| - 1;
      HashIsPolynomial(us[..n]);
      HashFromLast(0, us[..n], us[n]);
      assert us[..n] + [us[n]] == us;
      Int32Is(Hash(us[..n]) * 37 + us[n]);
      hide Int32;
      SameLowBits(Hash(us[..n]), Polynomial(us[..n]), us[n], Hash(us));
    }
  }

  lemma Int32Is(i: int)
    ensures -0x8000_0000 <= Int32(i) < 0x8000_0000 && (Int32(i) - i) % 0x1_0000_0000 == 0
  {
    var n := 0x1_0000_0000;
    assert i == n * (i / n) + i % n;
  }

  lemma SameLowBits(a: int, b: int, c: int, r: int)
    requires (a - b) % 0x1_0000_0000 == 0 && (r - (a * 37 + c)) % 0x1_0000_0000 == 0
    ensures (r - (37 * b + c)) % 0x1_0000_0000 == 0
  {
    var n := 0x1_0000_0000;
    var k, l := (a - b) / n, (r - (a * 37 + c)) / n;
    assert a - b == n * k && r - (a * 37 + c) == n * l;
    assert r - (37 * b + c) == n * (l + 37 * k);
  }

  /** convertUtf8 writes the characters of the string, one after the other, and nothing else. */
  method ConvertUtf8(m: seq<byte>, utf8: nat, buff: array<int>, start: nat) returns (end: nat)
    requires Scannable(m, utf8) && start + |Units(m, utf8)| <= buff.Length
    modifies buff
    ensures end == start + |Units(m, utf8)|
    ensures buff[..] == old(buff[..])[..start] + Units(m, utf8) + old(buff[..])[end..]
  {
    var p := utf8;
    end := start;
    ghost var before := buff[..];
    ghost var done: seq<int> := [];
    while m[p] != 0
      invariant Scannable(m, p) && end == start + |done| && done + Units(m, p) == Units(m, utf8)
      invariant buff[..] == before[..start] + done + before[end..]
      decreases |m| - p
    {
      ghost var c := Short(Char(m, p));
      OneMore(before, done, c, start, Units(m, p + Width(m[p])));
      buff[end] := Short(Char(m, p));
      p := p + Width(m[p]);
      end := end + 1;
      done := done + [c];
      hide Char;
      hide Width;
    }
  }

  lemma OneMore(before: seq<int>, done: seq<int>, c: int, start: nat, rest: seq<int>)
    requires start + |done| < |before|
    ensures var end := start + |done|;
            (before[..start] + done + before[end..])[end := c] == before[..start] + (done + [c]) + before[end + 1..]
    ensures (done + [c]) + rest == done + ([c] + rest)
  {
  }

  /** utf8Len is the number of characters that convertUtf8 writes. */
  method Utf8Len(m: seq<byte>, utf8: nat) returns (count: nat)
    requires Scannable(m, utf8)
    ensures count == |Units(m, utf8)|
  {
    var p := utf8;
    count := 0;
    while m[p] != 0
      invariant Scannable(m, p) && count + |Units(m, p)| == |Units(m, utf8)|
      decreases |m| - p
    {
      p := p + Width(m[p]);
      count := count + 1;
    }
  }

  /** utf8Hash depends on the characters only. */
  method Utf8Hash(m: seq<byte>, utf8: nat) returns (hash: int)
    requires Scannable(m, utf8)
    ensures hash == Hash(Units(m, utf8))
  {
    var p := utf8;
    hash := 0;
    while m[p] != 0
      invariant Scannable(m, p) && HashFrom(hash, Units(m, p)) == Hash(Units(m, utf8))
      decreases |m| - p
    {
      hash := Int32(hash * 37 + Short(Char(m, p)));
      p := p + Width(m[p]);
    }
  }

  /** utf8Comp holds exactly if the characters are the same. */
  method Utf8Comp(m: seq<byte>, ptr: nat, ptr2: nat) returns (same: bool)
    requires Scannable(m, ptr) && Scannable(m, ptr2)
    ensures same <==> Units(m, ptr) == Units(m, ptr2)
  {
    var p: nat, q: nat := ptr, ptr2;
    while m[p] != 0 && m[q] != 0
      invariant Scannable(m, p) && Scannable(m, q)
      invariant Units(m, ptr) == Units(m, ptr2) <==> Units(m, p) == Units(m, q)
      decreases |m| - p
    {
      ghost var us, vs := Units(m, p), Units(m, q);
      if Short(Char(m, p)) != Short(Char(m, q)) {
        assert us[0] != vs[0];
        return false;
      }
      p := p + Width(m[p]);
      q := q + Width(m[q]);
      assert us[1..] == Units(m, p) && vs[1..] == Units(m, q);
      assert us == [us[0]] + us[1..] && vs == [vs[0]] + vs[1..];
    }
    return m[p] == 0 && m[q] == 0;
  }

  // ----- strings -----

  /** A java.lang.String: `count` characters of its array from `offset` on. */
  datatype JString = JString(value: seq<int>, offset: nat, count: nat)

  predicate StringOk(s: JString) { s.offset + s.count <= |s.value| }

  function Chars(s: JString): seq<int>
    requires StringOk(s)
  {
    s.value[s.offset..s.offset + s.count]
  }

  /** createString. (The fields of a new object are zero, so offset is.) */
  method CreateString(m: seq<byte>, utf8: nat) returns (s: JString)
    requires Scannable(m, utf8)
    ensures StringOk(s) && Chars(s) == Units(m, utf8)
  {
    var len := Utf8Len(m, utf8);
    var data := new int[len];
    var end := ConvertUtf8(m, utf8, data, 0);
    s := JString(data[..], 0, len);
  }

  method StringHash(s: JString) returns (hash: int)
    requires StringOk(s)
    ensures hash == Hash(Chars(s))
  {
    hash := 0;
    var len, p := s.count, s.offset;
    while len > 0
      invariant p + len == s.offset + s.count && s.offset <= p
      invariant HashFrom(hash, s.value[p..p + len]) == Hash(Chars(s))
    {
      assert s.value[p..p + len][1..] == s.value[p + 1..p + len];
      hash := Int32(hash * 37 + s.value[p]);
      p := p + 1;
      len := len - 1;
    }
  }

  method StringComp(s: JString, t: JString) returns (same: bool)
    requires StringOk(s) && StringOk(t)
    ensures same <==> Chars(s) == Chars(t)
  {
    if s.count == t.count {
      var len, p, q := s.count, s.offset, t.offset;
      while len > 0 && s.value[p] == t.value[q]
        invariant 0 <= len && p + len == s.offset + s.count && q + len == t.offset + t.count
        invariant s.offset <= p && t.offset <= q
        invariant forall i | 0 <= i < s.count - len :: Chars(s)[i] == Chars(t)[i]
      {
        assert s.value[p] == Chars(s)[s.count - len] && t.value[q] == Chars(t)[s.count - len];
        p, q, len := p + 1, q + 1, len - 1;
      }
      if len == 0 {
        return true;
      }
      assert s.value[p] == Chars(s)[s.count - len] && t.value[q] == Chars(t)[s.count - len];
    }
    return false;
  }
}
