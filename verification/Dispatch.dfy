/**
 Dispatch through method tables against the search by name that it replaces.

 The interpreter's quick invokes index `method_table` (interp.c:1221, 1249, 1538); the slow ones
 and invokeinterface search by name and descriptor. The two agree exactly when no class along the
 superclass chain redeclares a table-eligible method as an ineligible one or the other way round:
 linkClass looks for the overridden method with lookupMethod, which skips neither private nor
 static methods (class.c:525).
 */
module Dispatch {
  import opened Common
  import opened Descriptors
  import opened Hierarchy
  import opened Linking

  // ----- statements -----

  /** Whatever a name search in the superclass finds for a method of c is table-eligible exactly
      when that method is. */
  ghost predicate CoherentClass(h: Decls, c: nat)
    requires WellFormed(h) && c < |h.classes|
  {
    forall m: nat | m < |h.methods| && OwnsMethod(h, c, m) ::
      var o := Overridden(h, c, m); o.Some? ==> Eligible(h.methods[m]) == Eligible(h.methods[o.value])
  }

  ghost predicate CoherentChain(h: Decls, d: nat)
    requires WellFormed(h) && d < |h.classes|
  {
    forall e: nat | e < |h.classes| && IsAncestor(h, e, d) :: CoherentClass(h, e)
  }

  /** For every eligible method m that a search in a finds, slot m.tableIndex of d's table holds
      what the search in d finds for m's name and descriptor. */
  ghost predicate DispatchesFrom(h: Decls, l: Links, a: nat, d: nat)
    requires WellFormed(h) && Sized(h, l) && a < |h.classes| && d < |h.classes|
  {
    forall name, desc | Lookup(h, a, name, desc).Some? ::
      var m := Lookup(h, a, name, desc).value;
      Eligible(h.methods[m]) ==>
        && l.methods[m].tableIndex < |l.classes[d].table|
        && Lookup(h, d, name, desc) == Some(l.classes[d].table[l.methods[m].tableIndex])
  }

  ghost predicate DispatchOk(h: Decls, l: Links, d: nat)
    requires WellFormed(h) && Sized(h, l) && d < |h.classes|
  {
    forall a: nat | a < |h.classes| && IsAncestor(h, a, d) :: DispatchesFrom(h, l, a, d)
  }

  ghost predicate ChainDispatchOk(h: Decls, l: Links, d: nat)
    requires WellFormed(h) && Sized(h, l) && d < |h.classes|
  {
    forall e: nat | e < |h.classes| && IsAncestor(h, e, d) :: DispatchOk(h, l, e)
  }

  // ----- the table of a coherent chain -----

  /** Slot k holds an eligible method with index k that a search in c finds. */
  ghost predicate SlotSound(h: Decls, l: Links, c: nat, k: nat)
    requires WellFormed(h) && Sized(h, l) && c < |h.classes| && k < |l.classes[c].table|
  {
    var m := l.classes[c].table[k];
    && m < |h.methods| && Eligible(h.methods[m]) && l.methods[m].tableIndex == k
    && Lookup(h, c, h.methods[m].name, h.methods[m].desc) == Some(m)
  }

  /** If a search in c finds the eligible method m, then m is in its slot. */
  ghost predicate MethodInSlot(h: Decls, l: Links, c: nat, m: nat)
    requires WellFormed(h) && Sized(h, l) && c < |h.classes| && m < |h.methods|
  {
    Lookup(h, c, h.methods[m].name, h.methods[m].desc) == Some(m) && Eligible(h.methods[m]) ==>
      l.methods[m].tableIndex < |l.classes[c].table| && l.classes[c].table[l.methods[m].tableIndex] == m
  }

  ghost predicate TableSound(h: Decls, l: Links, c: nat)
    requires WellFormed(h) && Sized(h, l) && c < |h.classes|
  {
    && (forall k: nat | k < |l.classes[c].table| :: SlotSound(h, l, c, k))
    && (forall m: nat | m < |h.methods| :: MethodInSlot(h, l, c, m))
  }

  ghost predicate Linked(h: Decls, l: Links, c: nat)
  {
    && WellFormed(h) && DistinctSignatures(h) && Consistent(h, l)
    && c < |h.classes| && l.classes[c].linked
  }

  lemma FindOwn(h: Decls, c: nat, m: nat)
    requires WellFormed(h) && DistinctSignatures(h) && c < |h.classes| && m < |h.methods| && OwnsMethod(h, c, m)
    ensures Find(h, c, h.methods[m].name, h.methods[m].desc) == Some(m)
  {
    var r := Find(h, c, h.methods[m].name, h.methods[m].desc);
    assert HasSignature(h, m, h.methods[m].name, h.methods[m].desc);
    assert r.Some?;
    assert SameSignature(h, r.value, m);
  }

  /** The index of an own eligible method: the overridden method's slot, or a new one. */
  lemma OwnIndex(h: Decls, l: Links, c: nat, m: nat)
    requires Linked(h, l, c) && CoherentClass(h, c) && m < |h.methods| && OwnsMethod(h, c, m)
    requires Eligible(h.methods[m])
    requires h.classes[c].super.Some? ==> h.classes[c].super.value < c && TableSound(h, l, h.classes[c].super.value)
    ensures var inherited := SuperLink(h, l, c).table;
            var k := l.methods[m].tableIndex;
            match Overridden(h, c, m)
            case Some(o) => k < |inherited| && inherited[k] == o && SameSignature(h, m, o)
            case None => |inherited| <= k < |l.classes[c].table| && k == |inherited| + NewBefore(h, c, m)
  {
    assert MethodReady(h, l, c, m);
    match Overridden(h, c, m) {
      case Some(o) =>
        assert MethodInSlot(h, l, h.classes[c].super.value, o);
      case None =>
        NewBeforeGrows(h, c, m, EndMethod(h, c));
    }
  }

  lemma {:induction false} NewBeforeGrows(h: Decls, c: nat, m: nat, n: nat)
    requires WellFormed(h) && c < |h.classes| && m < |h.methods| && OwnsMethod(h, c, m) && IsNew(h, c, m)
    requires m < n <= EndMethod(h, c)
    ensures NewBefore(h, c, m) < NewBefore(h, c, n)
    decreases n
  {
    if m + 1 < n {
      NewBeforeGrows(h, c, m, n - 1);
    }
  }

  lemma OwnIndexInjective(h: Decls, l: Links, c: nat, m: nat, n: nat)
    requires Linked(h, l, c) && CoherentClass(h, c) && m < |h.methods| && n < |h.methods|
    requires OwnsMethod(h, c, m) && OwnsMethod(h, c, n) && Eligible(h.methods[m]) && Eligible(h.methods[n])
    requires h.classes[c].super.Some? ==> h.classes[c].super.value < c && TableSound(h, l, h.classes[c].super.value)
    requires l.methods[m].tableIndex == l.methods[n].tableIndex
    ensures m == n
  {
    OwnIndex(h, l, c, m);
    OwnIndex(h, l, c, n);
    if Overridden(h, c, m).None? && m != n {
      NewBeforeGrows(h, c, if m < n then m else n, if m < n then n else m);
    }
    if Overridden(h, c, m).Some? {
      assert SameSignature(h, m, n);
    }
  }

  /** Along a coherent chain every slot is right and every visible eligible method is in its slot. */
  lemma {:induction false} TablesAreSound(h: Decls, l: Links, c: nat)
    requires Linked(h, l, c) && CoherentChain(h, c)
    ensures TableSound(h, l, c)
    decreases c
  {
    assert WellFormedClass(h, c);
    assert IsAncestor(h, c, c);
    var super := h.classes[c].super;
    if super.Some? {
      assert forall e: nat | e < |h.classes| && IsAncestor(h, e, super.value) :: IsAncestor(h, e, c);
      TablesAreSound(h, l, super.value);
    }
    forall k: nat | k < |l.classes[c].table| ensures SlotSound(h, l, c, k) {
      SlotIsSound(h, l, c, k);
    }
    forall m: nat | m < |h.methods| ensures MethodInSlot(h, l, c, m) {
      MethodIsInSlot(h, l, c, m);
    }
  }

  lemma SlotIsSound(h: Decls, l: Links, c: nat, k: nat)
    requires Linked(h, l, c) && CoherentClass(h, c) && k < |l.classes[c].table|
    requires h.classes[c].super.Some? ==> h.classes[c].super.value < c && TableSound(h, l, h.classes[c].super.value)
    ensures SlotSound(h, l, c, k)
  {
    assert SlotReady(h, l, c, k);
    var m := l.classes[c].table[k];
    var w := Writer(h, l, c, k, EndMethod(h, c));
    if w.Some? {
      FindOwn(h, c, m);
    } else {
      assert SlotSound(h, l, h.classes[c].super.value, k);
      var n := Find(h, c, h.methods[m].name, h.methods[m].desc);
    }
  }

  lemma MethodIsInSlot(h: Decls, l: Links, c: nat, m: nat)
    requires Linked(h, l, c) && CoherentClass(h, c) && m < |h.methods|
    requires h.classes[c].super.Some? ==> h.classes[c].super.value < c && TableSound(h, l, h.classes[c].super.value)
    ensures MethodInSlot(h, l, c, m)
  {
    var name, desc, k := h.methods[m].name, h.methods[m].desc, l.methods[m].tableIndex;
    if Lookup(h, c, name, desc) == Some(m) && Eligible(h.methods[m]) {
      if Find(h, c, name, desc).Some? {
        OwnIndex(h, l, c, m);
        assert SlotReady(h, l, c, k);
        OwnIndexInjective(h, l, c, m, Writer(h, l, c, k, EndMethod(h, c)).value);
      } else {
        assert MethodInSlot(h, l, h.classes[c].super.value, m);
        assert SlotReady(h, l, c, k);
        var w := Writer(h, l, c, k, EndMethod(h, c));
        if w.Some? {
          InheritedSlotIsFree(h, l, c, m, w.value);
        }
      }
    }
  }

  /** A method of c that c does not hide keeps its slot: no method of c has its index. */
  lemma InheritedSlotIsFree(h: Decls, l: Links, c: nat, m: nat, w: nat)
    requires Linked(h, l, c) && CoherentClass(h, c) && m < |h.methods| && w < |h.methods|
    requires h.classes[c].super.Some? && h.classes[c].super.value < c && TableSound(h, l, h.classes[c].super.value)
    requires Find(h, c, h.methods[m].name, h.methods[m].desc).None?
    requires l.methods[m].tableIndex < |SuperLink(h, l, c).table|
    requires SuperLink(h, l, c).table[l.methods[m].tableIndex] == m
    requires OwnsMethod(h, c, w) && Eligible(h.methods[w])
    ensures l.methods[w].tableIndex != l.methods[m].tableIndex
  {
    OwnIndex(h, l, c, w);
    assert !HasSignature(h, w, h.methods[m].name, h.methods[m].desc);
  }

  /** An eligible method keeps its index in every subclass that overrides it. */
  lemma {:induction false} IndexIsInherited(h: Decls, l: Links, a: nat, d: nat, name: string, desc: string)
    requires Linked(h, l, d) && CoherentChain(h, d) && a < |h.classes| && IsAncestor(h, a, d)
    requires Lookup(h, a, name, desc).Some? && Eligible(h.methods[Lookup(h, a, name, desc).value])
    ensures var r := Lookup(h, d, name, desc);
            && r.Some? && Eligible(h.methods[r.value])
            && l.methods[r.value].tableIndex == l.methods[Lookup(h, a, name, desc).value].tableIndex
    decreases d
  {
    assert WellFormedClass(h, d);
    if a != d {
      var super := h.classes[d].super.value;
      assert forall e: nat | e < |h.classes| && IsAncestor(h, e, super) :: IsAncestor(h, e, d);
      IndexIsInherited(h, l, a, super, name, desc);
      var own := Find(h, d, name, desc);
      if own.Some? {
        assert IsAncestor(h, d, d);
        assert MethodReady(h, l, d, own.value);
        assert Overridden(h, d, own.value) == Lookup(h, super, name, desc);
      }
    }
  }

  /** Indexed dispatch agrees with the search by name. */
  lemma DispatchAgrees(h: Decls, l: Links, d: nat)
    requires Linked(h, l, d) && CoherentChain(h, d)
    ensures DispatchOk(h, l, d)
  {
    TablesAreSound(h, l, d);
    forall a: nat | a < |h.classes| && IsAncestor(h, a, d) ensures DispatchesFrom(h, l, a, d) {
      forall name, desc | Lookup(h, a, name, desc).Some?
        && Eligible(h.methods[Lookup(h, a, name, desc).value])
        ensures var m := Lookup(h, a, name, desc).value;
                && l.methods[m].tableIndex < |l.classes[d].table|
                && Lookup(h, d, name, desc) == Some(l.classes[d].table[l.methods[m].tableIndex])
      {
        IndexIsInherited(h, l, a, d, name, desc);
        assert MethodInSlot(h, l, d, Lookup(h, d, name, desc).value);
      }
    }
  }

  /** No two slots of a table carry the same signature. */
  lemma SlotSignaturesDistinct(h: Decls, l: Links, d: nat, j: nat, k: nat)
    requires Linked(h, l, d) && CoherentChain(h, d) && j < k < |l.classes[d].table|
    ensures l.classes[d].table[j] < |h.methods| && l.classes[d].table[k] < |h.methods|
    ensures !SameSignature(h, l.classes[d].table[j], l.classes[d].table[k])
  {
    TablesAreSound(h, l, d);
    assert SlotSound(h, l, d, j) && SlotSound(h, l, d, k);
  }

  // ----- the condition is exact -----

  /** An eligible method that overrides an ineligible one gets index zero and a wrong slot. */
  lemma EligibleOverIneligibleFails(h: Decls, l: Links, c: nat, m: nat)
    requires Linked(h, l, c) && m < |h.methods| && OwnsMethod(h, c, m) && Eligible(h.methods[m])
    requires Overridden(h, c, m).Some? && !Eligible(h.methods[Overridden(h, c, m).value])
    requires h.classes[c].super.Some? && h.classes[c].super.value < c && TableSound(h, l, h.classes[c].super.value)
    ensures !DispatchOk(h, l, c)
  {
    var super, o := h.classes[c].super.value, Overridden(h, c, m).value;
    var name, desc := h.methods[m].name, h.methods[m].desc;
    IneligibleIndexIsZero(h, l, super, name, desc);
    assert MethodReady(h, l, c, m);
    FindOwn(h, c, m);
    assert IsAncestor(h, super, super) && IsAncestor(h, super, c);
    var inherited := l.classes[super].table;
    if DispatchOk(h, l, c) {
      UseDispatch(h, l, c, c, name, desc);
      assert l.classes[c].table[0] == m;
      if |inherited| > 0 {
        assert SlotSound(h, l, super, 0);
        var first := h.methods[inherited[0]];
        UseDispatch(h, l, super, c, first.name, first.desc);
      } else {
        var n := FirstNew(h, c, EndMethod(h, c));
        assert MethodReady(h, l, c, n);
        FindOwn(h, c, n);
        UseDispatch(h, l, c, c, h.methods[n].name, h.methods[n].desc);
      }
    }
  }

  lemma UseDispatch(h: Decls, l: Links, a: nat, d: nat, name: string, desc: string)
    requires WellFormed(h) && Sized(h, l) && a < |h.classes| && d < |h.classes| && IsAncestor(h, a, d)
    requires DispatchOk(h, l, d) && Lookup(h, a, name, desc).Some?
    requires Eligible(h.methods[Lookup(h, a, name, desc).value])
    ensures var k := l.methods[Lookup(h, a, name, desc).value].tableIndex;
            k < |l.classes[d].table| && Lookup(h, d, name, desc) == Some(l.classes[d].table[k])
  {
    assert DispatchesFrom(h, l, a, d);
  }

  lemma IneligibleIndexIsZero(h: Decls, l: Links, c: nat, name: string, desc: string)
    requires Linked(h, l, c) && Lookup(h, c, name, desc).Some?
    requires !Eligible(h.methods[Lookup(h, c, name, desc).value])
    ensures l.methods[Lookup(h, c, name, desc).value].tableIndex == 0
  {
    var a := LookupOwner(h, c, name, desc);
    AncestorsLinked(h, l, a, c);
    assert MethodReady(h, l, a, Lookup(h, c, name, desc).value);
  }

  lemma {:induction false} FirstNew(h: Decls, c: nat, m: nat) returns (n: nat)
    requires WellFormed(h) && c < |h.classes| && h.classes[c].firstMethod <= m <= EndMethod(h, c)
    requires NewBefore(h, c, m) > 0
    ensures OwnsMethod(h, c, n) && n < m && n < |h.methods| && IsNew(h, c, n) && NewBefore(h, c, n) == 0
    decreases m
  {
    assert WellFormedClass(h, c);
    if NewBefore(h, c, m - 1) > 0 {
      n := FirstNew(h, c, m - 1);
    } else {
      n := m - 1;
    }
  }

  /** An ineligible method that hides an eligible one is found by name but never by index. */
  lemma IneligibleOverEligibleFails(h: Decls, l: Links, c: nat, m: nat)
    requires Linked(h, l, c) && m < |h.methods| && OwnsMethod(h, c, m) && !Eligible(h.methods[m])
    requires Overridden(h, c, m).Some? && Eligible(h.methods[Overridden(h, c, m).value])
    requires h.classes[c].super.Some? && h.classes[c].super.value < c && TableSound(h, l, h.classes[c].super.value)
    ensures !DispatchOk(h, l, c)
  {
    var super, o := h.classes[c].super.value, Overridden(h, c, m).value;
    var k := l.methods[o].tableIndex;
    assert MethodInSlot(h, l, super, o);
    FindOwn(h, c, m);
    assert SlotReady(h, l, c, k) && SlotSound(h, l, super, k);
    assert l.classes[c].table[k] != m;
    assert IsAncestor(h, super, super) && IsAncestor(h, super, c);
    if DispatchOk(h, l, c) {
      UseDispatch(h, l, super, c, h.methods[m].name, h.methods[m].desc);
    }
  }

  lemma {:induction false} DispatchImpliesCoherent(h: Decls, l: Links, d: nat)
    requires Linked(h, l, d) && ChainDispatchOk(h, l, d)
    ensures CoherentChain(h, d)
    decreases d
  {
    assert WellFormedClass(h, d);
    var super := h.classes[d].super;
    if super.Some? {
      assert forall e: nat | e < |h.classes| && IsAncestor(h, e, super.value) :: IsAncestor(h, e, d);
      DispatchImpliesCoherent(h, l, super.value);
      TablesAreSound(h, l, super.value);
    }
    assert IsAncestor(h, d, d);
    forall m: nat | m < |h.methods| && OwnsMethod(h, d, m)
      ensures var o := Overridden(h, d, m); o.Some? ==> Eligible(h.methods[m]) == Eligible(h.methods[o.value])
    {
      var o := Overridden(h, d, m);
      if o.Some? {
        if Eligible(h.methods[m]) && !Eligible(h.methods[o.value]) {
          EligibleOverIneligibleFails(h, l, d, m);
        } else if !Eligible(h.methods[m]) && Eligible(h.methods[o.value]) {
          IneligibleOverEligibleFails(h, l, d, m);
        }
      }
    }
    assert CoherentClass(h, d);
    forall e: nat | e < |h.classes| && IsAncestor(h, e, d) ensures CoherentClass(h, e) {}
  }

  /** Table dispatch agrees with name search in d and all its superclasses if and only if no
      class among them changes the table-eligibility of an inherited signature. */
  lemma DispatchExactlyWhenCoherent(h: Decls, l: Links, d: nat)
    requires Linked(h, l, d)
    ensures ChainDispatchOk(h, l, d) <==> CoherentChain(h, d)
  {
    if CoherentChain(h, d) {
      forall e: nat | e < |h.classes| && IsAncestor(h, e, d) ensures DispatchOk(h, l, e) {
        AncestorsLinked(h, l, e, d);
        forall f: nat | f < |h.classes| && IsAncestor(h, f, e) ensures CoherentClass(h, f) {
          AncestorTransitive(h, f, e, d);
        }
        DispatchAgrees(h, l, e);
      }
    }
    if ChainDispatchOk(h, l, d) {
      DispatchImpliesCoherent(h, l, d);
    }
  }

  /** Class 1 has a private method "run", class 2 a public one of the same descriptor; the root
      class has one virtual method "id". */
  const PRIVATE_THEN_PUBLIC: Decls :=
    Decls(
      [ClassDecl(None, false, true, 0, 0, 0, 1),
       ClassDecl(Some(0), false, true, 0, 0, 1, 1),
       ClassDecl(Some(1), false, true, 0, 0, 2, 1)],
      [MethodDecl("id", "()I", false, false, false, false),
       MethodDecl("run", "()V", false, true, false, false),
       MethodDecl("run", "()V", false, false, false, false)],
      [])

  /** However these three classes are linked, some call through a method table is wrong. */
  lemma PrivateThenPublicFails(l: Links)
    requires WellFormed(PRIVATE_THEN_PUBLIC) && Consistent(PRIVATE_THEN_PUBLIC, l) && l.classes[2].linked
    ensures !ChainDispatchOk(PRIVATE_THEN_PUBLIC, l, 2)
  {
    var h := PRIVATE_THEN_PUBLIC;
    forall c: nat, m: nat, n: nat | c < |h.classes| && m < |h.methods| && n < |h.methods|
      && OwnsMethod(h, c, m) && OwnsMethod(h, c, n) ensures m == n {}
    DispatchExactlyWhenCoherent(h, l, 2);
    assert Find(h, 1, "run", "()V") == Some(1);
    assert Overridden(h, 2, 2) == Some(1);
    assert IsAncestor(h, 2, 2) && OwnsMethod(h, 2, 2) && !CoherentClass(h, 2);
  }

  lemma PrivateThenPublicIsWellFormed()
    ensures WellFormed(PRIVATE_THEN_PUBLIC) && DistinctSignatures(PRIVATE_THEN_PUBLIC)
  {
    var h := PRIVATE_THEN_PUBLIC;
    assert Widths("()I", 1) == Some(([], 2)) && Widths("()V", 1) == Some(([], 2));
    assert WellFormedClass(h, 0) && WellFormedClass(h, 1) && WellFormedClass(h, 2);
  }
}
