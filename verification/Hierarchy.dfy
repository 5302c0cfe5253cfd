/**
 Loaded classes and the searches through them (resolve.c).

 Classes, methods and fields are named by numbers where C has pointers. The methods of a class
 are consecutive, as the elements of `cb->methods` are, and so are its fields. A superclass is
 numbered before its subclasses, which is possible exactly because `super` has no cycle.
 */
module Hierarchy {
  import opened Common
  import opened Descriptors

  datatype ClassDecl = ClassDecl(
    super: Option<nat>, isInterface: bool, isSuper: bool,
    firstField: nat, fieldsCount: nat, firstMethod: nat, methodsCount: nat)

  datatype MethodDecl = MethodDecl(
    name: string, desc: string, isStatic: bool, isPrivate: bool, isNative: bool, isSync: bool)

  datatype FieldDecl = FieldDecl(name: string, desc: string, isStatic: bool)

  datatype Decls = Decls(classes: seq<ClassDecl>, methods: seq<MethodDecl>, fields: seq<FieldDecl>)

  predicate OwnsMethod(h: Decls, c: nat, m: nat)
    requires c < |h.classes|
  {
    h.classes[c].firstMethod <= m < h.classes[c].firstMethod + h.classes[c].methodsCount
  }

  predicate OwnsField(h: Decls, c: nat, f: nat)
    requires c < |h.classes|
  {
    h.classes[c].firstField <= f < h.classes[c].firstField + h.classes[c].fieldsCount
  }

  /** What the class loader leaves behind. */
  ghost predicate WellFormed(h: Decls) {
    && (forall c: nat | c < |h.classes| :: WellFormedClass(h, c))
    && (forall m: nat | m < |h.methods| :: WellFormedMethod(h, m))
    && (forall c: nat, d: nat, m: nat | c < |h.classes| && d < |h.classes| ::
          OwnsMethod(h, c, m) && OwnsMethod(h, d, m) ==> c == d)
    && (forall c: nat, d: nat, f: nat | c < |h.classes| && d < |h.classes| ::
          OwnsField(h, c, f) && OwnsField(h, d, f) ==> c == d)
  }

  ghost predicate WellFormedClass(h: Decls, c: nat)
    requires c < |h.classes|
  {
    var d := h.classes[c];
    && (d.super.Some? ==> d.super.value < c && !h.classes[d.super.value].isInterface)
    && d.firstMethod + d.methodsCount <= |h.methods|
    && d.firstField + d.fieldsCount <= |h.fields|
  }

  ghost predicate WellFormedMethod(h: Decls, m: nat)
    requires m < |h.methods|
  {
    Scannable(h.methods[m].desc)
  }

  /** No class declares two methods of one name and descriptor (section 4.6 of the JVMS). */
  ghost predicate DistinctSignatures(h: Decls) {
    forall c: nat, m: nat, n: nat | c < |h.classes| && m < |h.methods| && n < |h.methods| ::
      OwnsMethod(h, c, m) && OwnsMethod(h, c, n) && SameSignature(h, m, n) ==> m == n
  }

  predicate SameSignature(h: Decls, m: nat, n: nat)
    requires m < |h.methods| && n < |h.methods|
  {
    h.methods[m].name == h.methods[n].name && h.methods[m].desc == h.methods[n].desc
  }

  /** The methods linkClass enters into the method table. */
  predicate Eligible(d: MethodDecl) {
    !d.isStatic && !d.isPrivate && !(|d.name| > 0 && d.name[0] == '<')
  }

  // ----- the searches -----

  predicate HasSignature(h: Decls, m: nat, name: string, desc: string) {
    m < |h.methods| && h.methods[m].name == name && h.methods[m].desc == desc
  }

  function FindFrom(h: Decls, c: nat, name: string, desc: string, i: nat): (r: Option<nat>)
    requires WellFormed(h) && c < |h.classes| && i <= h.classes[c].methodsCount
    ensures r.Some? ==> OwnsMethod(h, c, r.value) && HasSignature(h, r.value, name, desc)
    ensures r.None? ==> forall m: nat | h.classes[c].firstMethod + i <= m ::
                          OwnsMethod(h, c, m) ==> !HasSignature(h, m, name, desc)
    decreases h.classes[c].methodsCount - i
  {
    if i == h.classes[c].methodsCount then None
    else
      var m := h.classes[c].firstMethod + i;
      if HasSignature(h, m, name, desc) then Some(m)
      else FindFrom(h, c, name, desc, i + 1)
  }

  function Find(h: Decls, c: nat, name: string, desc: string): Option<nat>
    requires WellFormed(h) && c < |h.classes|
  {
    FindFrom(h, c, name, desc, 0)
  }

  /** The search up the superclasses (lookupMethod). */
  function Lookup(h: Decls, c: nat, name: string, desc: string): (r: Option<nat>)
    requires WellFormed(h) && c < |h.classes|
    ensures r.Some? ==> HasSignature(h, r.value, name, desc)
    decreases c
  {
    assert WellFormedClass(h, c);
    var found := Find(h, c, name, desc);
    if found.Some? then found
    else if h.classes[c].super.Some? then Lookup(h, h.classes[c].super.value, name, desc)
    else None
  }

  /** findField stops at the first field of the right name, even if its type is wrong. */
  function FindFieldFrom(h: Decls, c: nat, name: string, desc: string, i: nat): (r: Option<nat>)
    requires WellFormed(h) && c < |h.classes| && i <= h.classes[c].fieldsCount
    ensures r.Some? ==> OwnsField(h, c, r.value) && r.value < |h.fields|
                        && h.fields[r.value].name == name && h.fields[r.value].desc == desc
    decreases h.classes[c].fieldsCount - i
  {
    if i == h.classes[c].fieldsCount then None
    else
      assert WellFormedClass(h, c);
      var f := h.classes[c].firstField + i;
      if h.fields[f].name == name then
        if h.fields[f].desc == desc then Some(f) else None
      else FindFieldFrom(h, c, name, desc, i + 1)
  }

  function LookupField(h: Decls, c: nat, name: string, desc: string): (r: Option<nat>)
    requires WellFormed(h) && c < |h.classes|
    ensures r.Some? ==> r.value < |h.fields|
                        && h.fields[r.value].name == name && h.fields[r.value].desc == desc
    decreases c
  {
    assert WellFormedClass(h, c);
    var found := FindFieldFrom(h, c, name, desc, 0);
    if found.Some? then found
    else if h.classes[c].super.Some? then LookupField(h, h.classes[c].super.value, name, desc)
    else None
  }

  /** a is d or a superclass of d, at any distance. */
  predicate IsAncestor(h: Decls, a: nat, d: nat)
    requires WellFormed(h) && d < |h.classes|
    decreases d
  {
    assert WellFormedClass(h, d);
    a == d || (h.classes[d].super.Some? && IsAncestor(h, a, h.classes[d].super.value))
  }

  lemma {:induction false} AncestorBound(h: Decls, a: nat, d: nat)
    requires WellFormed(h) && d < |h.classes| && IsAncestor(h, a, d)
    ensures a <= d
    decreases d
  {
    assert WellFormedClass(h, d);
    if a != d {
      AncestorBound(h, a, h.classes[d].super.value);
    }
  }

  lemma {:induction false} AncestorTransitive(h: Decls, a: nat, b: nat, d: nat)
    requires WellFormed(h) && d < |h.classes| && b < |h.classes|
    requires IsAncestor(h, a, b) && IsAncestor(h, b, d)
    ensures IsAncestor(h, a, d)
    decreases d
  {
    assert WellFormedClass(h, d);
    if b != d {
      AncestorTransitive(h, a, b, h.classes[d].super.value);
    }
  }

  /** Where a search found its method: in some ancestor, and no class in between declares one. */
  lemma {:induction false} LookupOwner(h: Decls, c: nat, name: string, desc: string) returns (a: nat)
    requires WellFormed(h) && c < |h.classes| && Lookup(h, c, name, desc).Some?
    ensures a <= c && IsAncestor(h, a, c) && OwnsMethod(h, a, Lookup(h, c, name, desc).value)
    ensures Find(h, a, name, desc) == Lookup(h, c, name, desc)
    decreases c
  {
    assert WellFormedClass(h, c);
    if Find(h, c, name, desc).Some? {
      a := c;
    } else {
      a := LookupOwner(h, h.classes[c].super.value, name, desc);
    }
  }

  // ----- what the searches find, without the searches -----

  /** The class n steps up from d. */
  function Above(h: Decls, d: nat, n: nat): Option<nat>
    decreases n
  {
    if d >= |h.classes| then None
    else if n == 0 then Some(d)
    else if h.classes[d].super.Some? then Above(h, h.classes[d].super.value, n - 1)
    else None
  }

  lemma {:induction false} AboveIsAncestor(h: Decls, a: nat, d: nat, n: nat)
    requires WellFormed(h) && d < |h.classes| && Above(h, d, n) == Some(a)
    ensures IsAncestor(h, a, d)
    decreases n
  {
    assert WellFormedClass(h, d);
    if n > 0 {
      AboveIsAncestor(h, a, h.classes[d].super.value, n - 1);
    }
  }

  lemma {:induction false} StepsTo(h: Decls, a: nat, d: nat) returns (n: nat)
    requires WellFormed(h) && d < |h.classes| && IsAncestor(h, a, d)
    ensures Above(h, d, n) == Some(a)
    decreases d
  {
    assert WellFormedClass(h, d);
    if a == d {
      n := 0;
    } else {
      n := StepsTo(h, a, h.classes[d].super.value);
      n := n + 1;
    }
  }

  /** The ancestors of d are the classes some number of steps up. */
  lemma AncestorIsAbove(h: Decls, a: nat, d: nat)
    requires WellFormed(h) && d < |h.classes|
    ensures IsAncestor(h, a, d) <==> exists n: nat :: Above(h, d, n) == Some(a)
  {
    if IsAncestor(h, a, d) {
      var n := StepsTo(h, a, d);
    }
    if n: nat :| Above(h, d, n) == Some(a) {
      AboveIsAncestor(h, a, d, n);
    }
  }

  ghost predicate Declares(h: Decls, a: nat, name: string, desc: string) {
    a < |h.classes| && exists m: nat :: OwnsMethod(h, a, m) && HasSignature(h, m, name, desc)
  }

  /** Class a declares the signature, and no class between d and a does. */
  ghost predicate IsNearest(h: Decls, d: nat, a: nat, name: string, desc: string)
    requires WellFormed(h) && d < |h.classes|
  {
    && IsAncestor(h, a, d) && Declares(h, a, name, desc)
    && forall b: nat | b < |h.classes| && b != a && IsAncestor(h, a, b) && IsAncestor(h, b, d) ::
         !Declares(h, b, name, desc)
  }

  /** Method r is declared with this signature by the nearest class that declares one. */
  ghost predicate IsFound(h: Decls, d: nat, name: string, desc: string, r: nat)
    requires WellFormed(h) && d < |h.classes|
  {
    HasSignature(h, r, name, desc)
    && exists a: nat | a < |h.classes| && OwnsMethod(h, a, r) :: IsNearest(h, d, a, name, desc)
  }

  /** A class is its own only ancestor at or below itself. */
  lemma NoneBetween(h: Decls, d: nat)
    requires WellFormed(h) && d < |h.classes|
    ensures forall b: nat | b < |h.classes| && IsAncestor(h, d, b) && IsAncestor(h, b, d) :: b == d
  {
    forall b: nat | b < |h.classes| && IsAncestor(h, d, b) && IsAncestor(h, b, d) ensures b == d {
      AncestorBound(h, d, b);
      AncestorBound(h, b, d);
    }
  }

  /** The search finds a method of the nearest declaring class, and fails only if no ancestor declares one. */
  lemma {:induction false} LookupIsNearest(h: Decls, d: nat, name: string, desc: string)
    requires WellFormed(h) && d < |h.classes|
    ensures Lookup(h, d, name, desc).Some? ==> IsFound(h, d, name, desc, Lookup(h, d, name, desc).value)
    ensures Lookup(h, d, name, desc).None? ==>
              forall a: nat | a < |h.classes| && IsAncestor(h, a, d) :: !Declares(h, a, name, desc)
    decreases d
  {
    assert WellFormedClass(h, d);
    var super := h.classes[d].super;
    if Find(h, d, name, desc).Some? {
      NoneBetween(h, d);
      assert IsNearest(h, d, d, name, desc);
    } else if super.Some? {
      LookupIsNearest(h, super.value, name, desc);
      if Lookup(h, super.value, name, desc).Some? {
        NearestFromAbove(h, d, name, desc, Lookup(h, super.value, name, desc).value);
      }
    }
  }

  lemma NearestFromAbove(h: Decls, d: nat, name: string, desc: string, r: nat)
    requires WellFormed(h) && d < |h.classes| && h.classes[d].super.Some? && !Declares(h, d, name, desc)
    requires h.classes[d].super.value < |h.classes| && IsFound(h, h.classes[d].super.value, name, desc, r)
    ensures IsFound(h, d, name, desc, r)
  {
    var a: nat :| a < |h.classes| && OwnsMethod(h, a, r) && IsNearest(h, h.classes[d].super.value, a, name, desc);
    assert IsNearest(h, d, a, name, desc);
  }

  /** Two ancestors of one class are on one chain. */
  lemma {:induction false} AncestorsOfOneClass(h: Decls, a: nat, b: nat, d: nat)
    requires WellFormed(h) && d < |h.classes| && a < |h.classes| && b < |h.classes|
    requires IsAncestor(h, a, d) && IsAncestor(h, b, d)
    ensures IsAncestor(h, a, b) || IsAncestor(h, b, a)
    decreases d
  {
    assert WellFormedClass(h, d);
    if a != d && b != d {
      AncestorsOfOneClass(h, a, b, h.classes[d].super.value);
    }
  }

  /** There is at most one such method, so the search finds it. */
  lemma FoundIsLookup(h: Decls, d: nat, name: string, desc: string, r: nat)
    requires WellFormed(h) && DistinctSignatures(h) && d < |h.classes| && IsFound(h, d, name, desc, r)
    ensures Lookup(h, d, name, desc) == Some(r)
  {
    LookupIsNearest(h, d, name, desc);
    var a: nat :| a < |h.classes| && OwnsMethod(h, a, r) && IsNearest(h, d, a, name, desc);
    var q := Lookup(h, d, name, desc).value;
    var b: nat :| b < |h.classes| && OwnsMethod(h, b, q) && IsNearest(h, d, b, name, desc);
    AncestorsOfOneClass(h, a, b, d);
    assert a == b;
    assert SameSignature(h, q, r);
  }

  /** f is the first field of class a with its name. */
  ghost predicate FirstOfName(h: Decls, a: nat, f: nat) {
    && a < |h.classes| && f < |h.fields| && OwnsField(h, a, f)
    && forall g: nat | g < f && OwnsField(h, a, g) :: h.fields[g].name != h.fields[f].name
  }

  /** Class a has a field of this name and type, which no earlier field of a has the name of. */
  ghost predicate DeclaresField(h: Decls, a: nat, name: string, desc: string, f: nat) {
    FirstOfName(h, a, f) && h.fields[f].name == name && h.fields[f].desc == desc
  }

  /** The field found for class d: in an ancestor a, with none in the classes below a. */
  ghost predicate IsFoundField(h: Decls, d: nat, a: nat, name: string, desc: string, f: nat)
    requires WellFormed(h) && d < |h.classes|
  {
    && IsAncestor(h, a, d) && DeclaresField(h, a, name, desc, f)
    && forall b: nat, g: nat | b < |h.classes| && b != a && IsAncestor(h, a, b) && IsAncestor(h, b, d) ::
         !DeclaresField(h, b, name, desc, g)
  }

  lemma {:induction false} FindFieldIsFirst(h: Decls, c: nat, name: string, desc: string, i: nat)
    requires WellFormed(h) && c < |h.classes| && i <= h.classes[c].fieldsCount
    requires forall g: nat | OwnsField(h, c, g) && g < h.classes[c].firstField + i && g < |h.fields| ::
               h.fields[g].name != name
    ensures forall f: nat :: DeclaresField(h, c, name, desc, f) <==> FindFieldFrom(h, c, name, desc, i) == Some(f)
    decreases h.classes[c].fieldsCount - i
  {
    assert WellFormedClass(h, c);
    if i < h.classes[c].fieldsCount && h.fields[h.classes[c].firstField + i].name != name {
      FindFieldIsFirst(h, c, name, desc, i + 1);
    }
  }

  /** A field is found in the nearest class that has it; inherited fields are found too. */
  lemma {:induction false} LookupFieldIsNearest(h: Decls, d: nat, name: string, desc: string) returns (a: nat)
    requires WellFormed(h) && d < |h.classes|
    ensures LookupField(h, d, name, desc).Some? ==>
              IsFoundField(h, d, a, name, desc, LookupField(h, d, name, desc).value)
    ensures LookupField(h, d, name, desc).None? ==>
              forall b: nat, f: nat | b < |h.classes| && IsAncestor(h, b, d) :: !DeclaresField(h, b, name, desc, f)
    decreases d
  {
    assert WellFormedClass(h, d);
    var super := h.classes[d].super;
    FindFieldIsFirst(h, d, name, desc, 0);
    a := d;
    if FindFieldFrom(h, d, name, desc, 0).Some? {
      NoneBetween(h, d);
    } else if super.Some? {
      a := LookupFieldIsNearest(h, super.value, name, desc);
    }
  }

  /** There is at most one such field, so the search finds it. */
  lemma FoundFieldIsLookup(h: Decls, d: nat, a: nat, name: string, desc: string, f: nat)
    requires WellFormed(h) && d < |h.classes| && IsFoundField(h, d, a, name, desc, f)
    ensures LookupField(h, d, name, desc) == Some(f)
  {
    var b := LookupFieldIsNearest(h, d, name, desc);
    assert LookupField(h, d, name, desc).Some?;
    AncestorsOfOneClass(h, a, b, d);
    assert a == b;
  }

  // ----- the C loops -----

  method FindMethod(h: Decls, c: nat, name: string, desc: string) returns (r: Option<nat>)
    requires WellFormed(h) && c < |h.classes|
    ensures r == Find(h, c, name, desc)
    ensures r.Some? ==> OwnsMethod(h, c, r.value) && HasSignature(h, r.value, name, desc)
    ensures forall m: nat | OwnsMethod(h, c, m) && (r.Some? ==> m < r.value) :: !HasSignature(h, m, name, desc)
  {
    assert WellFormedClass(h, c);
    var m := h.classes[c].firstMethod;
    var i := 0;
    while i < h.classes[c].methodsCount
      invariant i <= h.classes[c].methodsCount && m == h.classes[c].firstMethod + i
      invariant Find(h, c, name, desc) == FindFrom(h, c, name, desc, i)
      invariant forall n: nat | OwnsMethod(h, c, n) && n < m :: !HasSignature(h, n, name, desc)
    {
      if h.methods[m].name == name && h.methods[m].desc == desc {
        return Some(m);
      }
      i, m := i + 1, m + 1;
    }
    return None;
  }

  method LookupMethod(h: Decls, c: nat, name: string, desc: string) returns (r: Option<nat>)
    requires WellFormed(h) && c < |h.classes|
    ensures r == Lookup(h, c, name, desc)
    ensures r.Some? ==> IsFound(h, c, name, desc, r.value)
    ensures r.None? ==> forall a: nat | a < |h.classes| && IsAncestor(h, a, c) :: !Declares(h, a, name, desc)
    decreases c
  {
    assert WellFormedClass(h, c);
    LookupIsNearest(h, c, name, desc);
    r := FindMethod(h, c, name, desc);
    if r.None? && h.classes[c].super.Some? {
      r := LookupMethod(h, h.classes[c].super.value, name, desc);
    }
  }

  method FindField(h: Decls, c: nat, name: string, desc: string) returns (r: Option<nat>)
    requires WellFormed(h) && c < |h.classes|
    ensures r == FindFieldFrom(h, c, name, desc, 0)
    ensures forall f: nat :: DeclaresField(h, c, name, desc, f) <==> r == Some(f)
  {
    assert WellFormedClass(h, c);
    FindFieldIsFirst(h, c, name, desc, 0);
    var f := h.classes[c].firstField;
    var i := 0;
    while i < h.classes[c].fieldsCount
      invariant i <= h.classes[c].fieldsCount && f == h.classes[c].firstField + i
      invariant FindFieldFrom(h, c, name, desc, 0) == FindFieldFrom(h, c, name, desc, i)
    {
      if h.fields[f].name == name {
        return if h.fields[f].desc == desc then Some(f) else None;
      }
      i, f := i + 1, f + 1;
    }
    return None;
  }

  method LookupFieldUp(h: Decls, c: nat, name: string, desc: string) returns (r: Option<nat>, ghost a: nat)
    requires WellFormed(h) && c < |h.classes|
    ensures r == LookupField(h, c, name, desc)
    ensures r.Some? ==> IsFoundField(h, c, a, name, desc, r.value)
    ensures r.None? ==>
              forall b: nat, f: nat | b < |h.classes| && IsAncestor(h, b, c) :: !DeclaresField(h, b, name, desc, f)
    decreases c
  {
    assert WellFormedClass(h, c);
    a := LookupFieldIsNearest(h, c, name, desc);
    r := FindField(h, c, name, desc);
    if r.None? && h.classes[c].super.Some? {
      ghost var b: nat;
      r, b := LookupFieldUp(h, h.classes[c].super.value, name, desc);
    }
  }

  /** isSubClassOf: the loop of cast.c over the super pointers. */
  method IsSubClassOf(h: Decls, c: nat, test: nat) returns (r: bool)
    requires WellFormed(h) && test < |h.classes|
    ensures r == IsAncestor(h, c, test)
    ensures r <==> exists n: nat :: Above(h, test, n) == Some(c)
  {
    AncestorIsAbove(h, c, test);
    var t: Option<nat> := Some(test);
    while t.Some? && t.value != c
      invariant t.Some? ==> t.value < |h.classes|
      invariant IsAncestor(h, c, test) == (t.Some? && IsAncestor(h, c, t.value))
      decreases if t.Some? then t.value + 1 else 0
    {
      assert WellFormedClass(h, t.value);
      t := h.classes[t.value].super;
    }
    return t.Some?;
  }
}
