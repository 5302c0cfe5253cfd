/**
 Method descriptors (section 4.3.3 of the JVMS) and the scanner that counts and pushes
 the argument words of a call (the SCAN_SIG macro of sig.h).
 */
module Descriptors {
  import opened Common

  // ----- the grammar -----

  datatype FieldType = Base(c: char) | Object(name: string) | Array(elem: FieldType)

  const BASE_CHARS: set<char> := {'B', 'C', 'D', 'F', 'I', 'J', 'S', 'Z'}

  predicate WellFormedType(t: FieldType) {
    match t
    case Base(c) => c in BASE_CHARS
    case Object(name) => ';' !in name
    case Array(elem) => WellFormedType(elem)
  }

  function Print(t: FieldType): string {
    match t
    case Base(c) => [c]
    case Object(name) => "L" + name + ";"
    case Array(elem) => "[" + Print(elem)
  }

  function PrintAll(ts: seq<FieldType>): string {
    if ts == [] then "" else Print(ts[0]) + PrintAll(ts[1..])
  }

  /** A method descriptor: the argument types in brackets, then the result. */
  function PrintMethod(ts: seq<FieldType>, result: string): string {
    "(" + PrintAll(ts) + ")" + result
  }

  /** Stack words a value of the type takes: two for long and double, one otherwise. */
  function Words(t: FieldType): nat {
    if t == Base('J') || t == Base('D') then 2 else 1
  }

  function WordsOf(ts: seq<FieldType>): seq<nat> {
    if ts == [] then [] else [Words(ts[0])] + WordsOf(ts[1..])
  }

  function Sum(s: seq<nat>): nat {
    if s == [] then 0 else s[0] + Sum(s[1..])
  }

  // ----- what the scanner reads; None when it would run past the end of the string -----

  function SkipBrackets(s: string, p: nat): (q: nat)
    requires p <= |s|
    ensures p <= q <= |s|
    ensures q < |s| ==> s[q] != '['
    decreases |s| - p
  {
    if p < |s| && s[p] == '[' then SkipBrackets(s, p + 1) else p
  }

  function SkipName(s: string, p: nat): (q: Option<nat>)
    requires p <= |s|
    ensures q.Some? ==> p < q.value <= |s|
    decreases |s| - p
  {
    if p == |s| then None else if s[p] == ';' then Some(p + 1) else SkipName(s, p + 1)
  }

  /** The position after a one-word argument. */
  function SkipSingle(s: string, p: nat): (q: Option<nat>)
    requires p < |s|
    ensures q.Some? ==> p < q.value <= |s|
  {
    var b := SkipBrackets(s, p);
    if b == |s| then None else if s[b] == 'L' then SkipName(s, b) else Some(b + 1)
  }

  /** The widths of the arguments from p on, and the position after the closing bracket. */
  function Widths(s: string, p: nat): (r: Option<(seq<nat>, nat)>)
    requires p <= |s|
    ensures r.Some? ==> p < r.value.1 <= |s|
    decreases |s| - p
  {
    if p == |s| then None
    else if s[p] == ')' then Some(([], p + 1))
    else
      var wide := s[p] == 'J' || s[p] == 'D';
      var q := if wide then Some(p + 1) else SkipSingle(s, p);
      if q.None? then None else
      var rest := Widths(s, q.value);
      if rest.None? then None
      else Some(([if wide then 2 else 1] + rest.value.0, rest.value.1))
  }

  predicate Scannable(s: string) {
    |s| > 0 && Widths(s, 1).Some?
  }

  function ArgWords(s: string): nat
    requires Scannable(s)
  {
    Sum(Widths(s, 1).value.0)
  }

  // ----- the scanner -----

  /** SCAN_SIG with `count += 2` for a wide argument and `count++` for any other. */
  method CountArgWords(sig: string) returns (count: nat, p: nat)
    requires Scannable(sig)
    ensures count == ArgWords(sig)
    ensures p == Widths(sig, 1).value.1
  {
    count := 0;
    p := 1;
    while sig[p] != ')'
      invariant p < |sig|
      invariant Widths(sig, p).Some?
      invariant count + Sum(Widths(sig, p).value.0) == ArgWords(sig)
      invariant Widths(sig, p).value.1 == Widths(sig, 1).value.1
      decreases |sig| - p
    {
      ghost var rest := Widths(sig, p).value.0;
      if sig[p] == 'J' || sig[p] == 'D' {
        count := count + 2;
        p := p + 1;
      } else {
        count := count + 1;
        p := SkipArgument(sig, p);
      }
      assert Widths(sig, p).value.0 == rest[1..];
    }
    p := p + 1;
  }

  /** The part of SCAN_SIG that moves past an argument that is neither long nor double. */
  method SkipArgument(sig: string, start: nat) returns (p: nat)
    requires start < |sig| && SkipSingle(sig, start).Some?
    ensures p == SkipSingle(sig, start).value
  {
    p := start;
    if sig[p] == '[' {
      p := p + 1;
      while sig[p] == '['
        invariant start <= p < |sig|
        invariant SkipBrackets(sig, p) == SkipBrackets(sig, start)
        decreases |sig| - p
      {
        p := p + 1;
      }
    }
    if sig[p] == 'L' {
      while sig[p] != ';'
        invariant p < |sig| && SkipName(sig, p) == SkipSingle(sig, start)
        decreases |sig| - p
      {
        p := p + 1;
      }
      p := p + 1;
    } else {
      p := p + 1;
    }
  }

  // ----- the scanner is exact on every printed descriptor -----

  lemma {:induction false} SkipNameFinds(s: string, p: nat, name: string)
    requires p + |name| < |s| && s[p..p + |name|] == name && s[p + |name|] == ';' && ';' !in name
    ensures SkipName(s, p) == Some(p + |name| + 1)
    decreases |name|
  {
    if name != [] {
      assert s[p] == name[0];
      SkipNameFinds(s, p + 1, name[1..]);
    }
  }

  lemma SkipSingleOfArray(s: string, p: nat)
    requires p + 1 < |s| && s[p] == '['
    ensures SkipSingle(s, p) == SkipSingle(s, p + 1)
  {
  }

  lemma SliceSplits(s: string, p: nat, a: string, b: string)
    requires p + |a + b| <= |s| && s[p..p + |a + b|] == a + b
    ensures s[p..p + |a|] == a && s[p + |a|..p + |a| + |b|] == b
    ensures a != [] ==> s[p] == a[0]
  {
    assert s[p..p + |a|] == s[p..p + |a + b|][..|a|];
    assert s[p + |a|..p + |a| + |b|] == s[p..p + |a + b|][|a|..];
    if a != [] {
      assert s[p] == s[p..p + |a + b|][0];
    }
  }

  lemma SkipObjectPrinted(s: string, p: nat, name: string)
    requires ';' !in name && p + |name| + 2 <= |s| && s[p..p + |name| + 2] == "L" + (name + ";")
    ensures SkipSingle(s, p) == Some(p + |name| + 2)
  {
    var a, b := "L", name + ";";
    assert |a| == 1 && |b| == |name| + 1;
    SliceSplits(s, p, a, b);
    SliceSplits(s, p + 1, name, ";");
    SkipNameFinds(s, p + 1, name);
    hide SkipName;
  }

  lemma {:induction false} SkipSinglePrinted(s: string, p: nat, t: FieldType)
    requires WellFormedType(t) && p + |Print(t)| <= |s| && s[p..p + |Print(t)|] == Print(t)
    ensures |Print(t)| > 0
    ensures SkipSingle(s, p) == Some(p + |Print(t)|)
    decreases t
  {
    match t {
      case Base(c) =>
        assert s[p] == s[p..p + 1][0];
      case Object(name) =>
        assert Print(t) == "L" + (name + ";");
        SkipObjectPrinted(s, p, name);
      case Array(elem) =>
        SliceSplits(s, p, "[", Print(elem));
        SkipSinglePrinted(s, p + 1, elem);
        SkipSingleOfArray(s, p);
        hide SkipSingle;
    }
  }

  /** What the scanner sees of a printed type. */
  lemma TypeIsScanned(s: string, p: nat, t: FieldType)
    requires WellFormedType(t) && p + |Print(t)| < |s| && s[p..p + |Print(t)|] == Print(t)
    ensures s[p] != ')' && (s[p] == 'J' || s[p] == 'D' <==> Words(t) == 2)
    ensures if Words(t) == 2 then |Print(t)| == 1 else SkipSingle(s, p) == Some(p + |Print(t)|)
  {
    hide SkipSingle;
    SkipSinglePrinted(s, p, t);
    assert s[p] == s[p..p + |Print(t)|][0] == Print(t)[0];
  }

  /** One argument, and what the scanner finds behind it. */
  lemma WidthsStep(s: string, p: nat, q: nat, words: nat, ws: seq<nat>, end: nat)
    requires p < q < |s| && s[p] != ')' && (s[p] == 'J' || s[p] == 'D' <==> words == 2) && 1 <= words <= 2
    requires if words == 2 then q == p + 1 else SkipSingle(s, p) == Some(q)
    requires Widths(s, q) == Some((ws, end))
    ensures Widths(s, p) == Some(([words] + ws, end))
  {
    hide SkipSingle;
  }

  lemma {:induction false} WidthsPrinted(s: string, p: nat, ts: seq<FieldType>)
    requires forall t :: t in ts ==> WellFormedType(t)
    requires p + |PrintAll(ts)| < |s| && s[p..p + |PrintAll(ts)|] == PrintAll(ts)
    requires s[p + |PrintAll(ts)|] == ')'
    ensures Widths(s, p) == Some((WordsOf(ts), p + |PrintAll(ts)| + 1))
    decreases |ts|
  {
    if ts != [] {
      var t, txt, rest := ts[0], Print(ts[0]), PrintAll(ts[1..]);
      var q := p + |txt|;
      assert PrintAll(ts) == txt + rest;
      hide PrintAll;
      hide Widths;
      hide SkipSingle;
      SliceSplits(s, p, txt, rest);
      TypeIsScanned(s, p, t);
      WidthsPrinted(s, q, ts[1..]);
      WidthsStep(s, p, q, Words(t), WordsOf(ts[1..]), q + |rest| + 1);
    }
  }

  /** For every list of types, the scanner stops just past the closing bracket of the printed
      descriptor and its widths are exactly the word sizes of the types. */
  lemma {:induction false} ScanIsExact(ts: seq<FieldType>, result: string)
    requires forall t :: t in ts ==> WellFormedType(t)
    ensures Scannable(PrintMethod(ts, result))
    ensures Widths(PrintMethod(ts, result), 1).value.0 == WordsOf(ts)
    ensures PrintMethod(ts, result)[Widths(PrintMethod(ts, result), 1).value.1..] == result
    ensures ArgWords(PrintMethod(ts, result)) == Sum(WordsOf(ts))
  {
    var s := PrintMethod(ts, result);
    assert s == "(" + PrintAll(ts) + ([')'] + result);
    assert s[1..1 + |PrintAll(ts)|] == PrintAll(ts);
    WidthsPrinted(s, 1, ts);
  }
}
