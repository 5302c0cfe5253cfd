/**
 Linking a class (linkClass in class.c): word offsets for its instance fields, argument counts,
 method-table indices, and the method table itself, each on top of what its superclass has.

 The part of each C struct that the loader fills is in Hierarchy.Decls; the part that linking
 writes is here.
 */
module Linking {
  import opened Common
  import opened Descriptors
  import opened Hierarchy

  datatype ClassLink = ClassLink(linked: bool, objectSize: nat, table: seq<nat>, finalizer: Option<nat>)
  datatype MethodLink = MethodLink(owner: nat, argsCount: nat, tableIndex: nat, maxLocals: nat, maxStack: nat)
  datatype FieldLink = FieldLink(offset: nat, staticValue: int)
  datatype Links = Links(classes: seq<ClassLink>, methods: seq<MethodLink>, fields: seq<FieldLink>)

  ghost predicate Sized(h: Decls, l: Links) {
    |l.classes| == |h.classes| && |l.methods| == |h.methods| && |l.fields| == |h.fields|
  }

  // ----- what linking a class must produce -----

  function SuperLink(h: Decls, l: Links, c: nat): ClassLink
    requires WellFormed(h) && Sized(h, l) && c < |h.classes|
  {
    assert WellFormedClass(h, c);
    if h.classes[c].super.Some? then l.classes[h.classes[c].super.value]
    else ClassLink(true, 0, [], None)
  }

  function Width(d: FieldDecl): nat {
    if |d.desc| > 0 && (d.desc[0] == 'J' || d.desc[0] == 'D') then 2 else 1
  }

  /** Words taken by the instance fields of c that come before field f. */
  function WidthBefore(h: Decls, c: nat, f: nat): nat
    requires WellFormed(h) && c < |h.classes|
    requires h.classes[c].firstField <= f <= h.classes[c].firstField + h.classes[c].fieldsCount
    decreases f
  {
    assert WellFormedClass(h, c);
    if f == h.classes[c].firstField then 0
    else WidthBefore(h, c, f - 1) + if h.fields[f - 1].isStatic then 0 else Width(h.fields[f - 1])
  }

  function EndField(h: Decls, c: nat): nat
    requires c < |h.classes|
  {
    h.classes[c].firstField + h.classes[c].fieldsCount
  }

  function EndMethod(h: Decls, c: nat): nat
    requires c < |h.classes|
  {
    h.classes[c].firstMethod + h.classes[c].methodsCount
  }

  /** The inherited method that m overrides, by name and descriptor. */
  function Overridden(h: Decls, c: nat, m: nat): (r: Option<nat>)
    requires WellFormed(h) && c < |h.classes| && m < |h.methods|
  {
    assert WellFormedClass(h, c);
    if h.classes[c].super.Some? then
      Lookup(h, h.classes[c].super.value, h.methods[m].name, h.methods[m].desc)
    else None
  }

  predicate IsNew(h: Decls, c: nat, m: nat)
    requires WellFormed(h) && c < |h.classes| && m < |h.methods|
  {
    Eligible(h.methods[m]) && Overridden(h, c, m).None?
  }

  /** How many methods of c before m need a slot of their own. */
  function NewBefore(h: Decls, c: nat, m: nat): nat
    requires WellFormed(h) && c < |h.classes|
    requires h.classes[c].firstMethod <= m <= EndMethod(h, c)
    decreases m
  {
    assert WellFormedClass(h, c);
    if m == h.classes[c].firstMethod then 0
    else NewBefore(h, c, m - 1) + if IsNew(h, c, m - 1) then 1 else 0
  }

  function SlotOf(h: Decls, l: Links, c: nat, m: nat): nat
    requires WellFormed(h) && Sized(h, l) && c < |h.classes| && OwnsMethod(h, c, m)
  {
    assert WellFormedClass(h, c);
    match Overridden(h, c, m)
    case Some(o) => l.methods[o].tableIndex
    case None => |SuperLink(h, l, c).table| + NewBefore(h, c, m)
  }

  /** The last table-eligible method of c before m whose index is k. */
  function Writer(h: Decls, l: Links, c: nat, k: nat, m: nat): (w: Option<nat>)
    requires WellFormed(h) && Sized(h, l) && c < |h.classes|
    requires h.classes[c].firstMethod <= m <= EndMethod(h, c)
    ensures w.Some? ==> OwnsMethod(h, c, w.value) && w.value < m && w.value < |h.methods|
                        && Eligible(h.methods[w.value]) && l.methods[w.value].tableIndex == k
    ensures w.None? ==> forall n: nat | OwnsMethod(h, c, n) && n < m && n < |h.methods| ::
                          Eligible(h.methods[n]) ==> l.methods[n].tableIndex != k
    decreases m
  {
    assert WellFormedClass(h, c);
    if m == h.classes[c].firstMethod then None
    else if Eligible(h.methods[m - 1]) && l.methods[m - 1].tableIndex == k then Some(m - 1)
    else Writer(h, l, c, k, m - 1)
  }

  predicate IsFinalizer(h: Decls, c: nat, m: nat)
    requires c < |h.classes| && m < |h.methods|
  {
    h.classes[c].super.Some? && Eligible(h.methods[m])
    && h.methods[m].name == "finalize" && h.methods[m].desc == "()V"
  }

  function FinalizerBefore(h: Decls, l: Links, c: nat, m: nat): Option<nat>
    requires WellFormed(h) && Sized(h, l) && c < |h.classes|
    requires h.classes[c].firstMethod <= m <= EndMethod(h, c)
    decreases m
  {
    assert WellFormedClass(h, c);
    if m == h.classes[c].firstMethod then SuperLink(h, l, c).finalizer
    else if IsFinalizer(h, c, m - 1) then Some(m - 1)
    else FinalizerBefore(h, l, c, m - 1)
  }

  ghost predicate FieldReady(h: Decls, l: Links, c: nat, f: nat)
    requires WellFormed(h) && Sized(h, l) && c < |h.classes| && OwnsField(h, c, f)
  {
    assert WellFormedClass(h, c);
    !h.fields[f].isStatic ==> l.fields[f].offset == SuperLink(h, l, c).objectSize + WidthBefore(h, c, f)
  }

  ghost predicate MethodReady(h: Decls, l: Links, c: nat, m: nat)
    requires WellFormed(h) && Sized(h, l) && c < |h.classes| && OwnsMethod(h, c, m)
  {
    assert WellFormedClass(h, c) && WellFormedMethod(h, m);
    && l.methods[m].owner == c
    && l.methods[m].argsCount == ArgWords(h.methods[m].desc) + (if h.methods[m].isStatic then 0 else 1)
    && (h.methods[m].isNative ==> l.methods[m].maxLocals == l.methods[m].argsCount && l.methods[m].maxStack == 0)
    && l.methods[m].tableIndex == if Eligible(h.methods[m]) then SlotOf(h, l, c, m) else 0
  }

  /** Slot k holds the method of c whose index is k, or else what the superclass has there. */
  ghost predicate SlotReady(h: Decls, l: Links, c: nat, k: nat)
    requires WellFormed(h) && Sized(h, l) && c < |h.classes| && k < |l.classes[c].table|
  {
    var w := Writer(h, l, c, k, EndMethod(h, c));
    var inherited := SuperLink(h, l, c).table;
    if w.Some? then l.classes[c].table[k] == w.value
    else k < |inherited| && l.classes[c].table[k] == inherited[k]
  }

  ghost predicate LinkedClass(h: Decls, l: Links, c: nat)
    requires WellFormed(h) && Sized(h, l) && c < |h.classes|
  {
    && l.classes[c].linked
    && (forall f: nat | OwnsField(h, c, f) :: FieldReady(h, l, c, f))
    && l.classes[c].objectSize == SuperLink(h, l, c).objectSize + WidthBefore(h, c, EndField(h, c))
    && (forall m: nat | OwnsMethod(h, c, m) :: MethodReady(h, l, c, m))
    && |l.classes[c].table| == |SuperLink(h, l, c).table| + NewBefore(h, c, EndMethod(h, c))
    && (forall k: nat | k < |l.classes[c].table| :: SlotReady(h, l, c, k))
    && l.classes[c].finalizer == FinalizerBefore(h, l, c, EndMethod(h, c))
  }

  /** Every linked class is properly linked and its superclass is linked too; the methods of
      the others still have the index zero that defineClass gave them. */
  ghost predicate Consistent(h: Decls, l: Links)
    requires WellFormed(h)
  {
    && Sized(h, l)
    && (forall c: nat | c < |h.classes| && l.classes[c].linked ::
          LinkedClass(h, l, c) && SuperLink(h, l, c).linked)
    && (forall c: nat, m: nat | c < |h.classes| && m < |h.methods| && OwnsMethod(h, c, m) ::
          !l.classes[c].linked ==> l.methods[m].tableIndex == 0)
  }

  ghost predicate Unchanged(h: Decls, l: Links, l': Links, c: nat)
    requires Sized(h, l) && Sized(h, l') && c < |h.classes|
  {
    && l.classes[c] == l'.classes[c]
    && (forall m: nat | m < |h.methods| && OwnsMethod(h, c, m) :: l.methods[m] == l'.methods[m])
    && (forall f: nat | f < |h.fields| && OwnsField(h, c, f) :: l.fields[f] == l'.fields[f])
  }

  // ----- the words of fields, without the loop -----

  /** Two words for a field of type J or D, and one for any other. */
  function Cells(h: Decls, f: nat): nat
    requires f < |h.fields|
  {
    if h.fields[f].desc != "" && h.fields[f].desc[0] in {'J', 'D'} then 2 else 1
  }

  /** Those are the words that a value of the field's type takes. */
  lemma CellsOfType(h: Decls, f: nat, t: FieldType)
    requires f < |h.fields| && WellFormedType(t) && h.fields[f].desc == Print(t)
    ensures Cells(h, f) == Words(t) == Width(h.fields[f])
  {
  }

  /** The words of the first n fields, as far as they are instance fields of class c itself. */
  function OwnCells(h: Decls, c: nat, n: nat): nat
    requires c < |h.classes| && n <= |h.fields|
  {
    if n == 0 then 0
    else OwnCells(h, c, n - 1) + if OwnsField(h, c, n - 1) && !h.fields[n - 1].isStatic then Cells(h, n - 1) else 0
  }

  lemma {:induction false} OwnCellsIsWidth(h: Decls, c: nat, n: nat)
    requires WellFormed(h) && c < |h.classes| && n <= |h.fields|
    ensures EndField(h, c) <= |h.fields|
    ensures n <= h.classes[c].firstField ==> OwnCells(h, c, n) == 0
    ensures h.classes[c].firstField <= n <= EndField(h, c) ==> OwnCells(h, c, n) == WidthBefore(h, c, n)
    ensures n >= EndField(h, c) ==> OwnCells(h, c, n) == WidthBefore(h, c, EndField(h, c))
    decreases n
  {
    assert WellFormedClass(h, c);
    if n > 0 {
      OwnCellsIsWidth(h, c, n - 1);
    }
  }

  /** Behind the inherited words every instance field of c comes after those declared before it. */
  ghost predicate LaidOut(h: Decls, c: nat, inherited: nat, fields: seq<FieldLink>, size: nat)
    requires c < |h.classes| && |fields| == |h.fields|
  {
    && size == inherited + OwnCells(h, c, |h.fields|)
    && forall f: nat | f < |h.fields| && OwnsField(h, c, f) && !h.fields[f].isStatic ::
         fields[f].offset == inherited + OwnCells(h, c, f)
  }

  lemma IsLaidOut(h: Decls, l: Links, c: nat, inherited: nat, size: nat)
    requires WellFormed(h) && Sized(h, l) && c < |h.classes| && inherited == SuperLink(h, l, c).objectSize
    requires EndField(h, c) <= |h.fields| && size == inherited + WidthBefore(h, c, EndField(h, c))
    requires forall f: nat | OwnsField(h, c, f) :: FieldReady(h, l, c, f)
    ensures LaidOut(h, c, inherited, l.fields, size)
  {
    OwnCellsIsWidth(h, c, |h.fields|);
    forall f: nat | f < |h.fields| && OwnsField(h, c, f) && !h.fields[f].isStatic
      ensures l.fields[f].offset == inherited + OwnCells(h, c, f)
    {
      assert FieldReady(h, l, c, f);
      OwnCellsIsWidth(h, c, f);
    }
  }

  // ----- the linker -----

  class ClassTable {
    const h: Decls
    var classes: seq<ClassLink>
    var methods: seq<MethodLink>
    var fields: seq<FieldLink>

    ghost function View(): Links
      reads this
    {
      Links(classes, methods, fields)
    }

    ghost predicate Valid()
      reads this
    {
      WellFormed(h) && Consistent(h, View())
    }

    method LinkClass(c: nat)
      requires Valid() && c < |h.classes|
      // the superclass of an interface, java.lang.Object, is linked before any interface is
      requires h.classes[c].isInterface ==> SuperLink(h, View(), c).linked
      modifies this
      ensures Valid() && classes[c].linked
      ensures forall x: nat | x < |h.classes| && (old(classes)[x].linked || !IsAncestor(h, x, c)) ::
                Unchanged(h, old(View()), View(), x)
      ensures forall x: nat, f: nat | x < |h.classes| && f < |h.fields| && OwnsField(h, x, f) ::
                !old(classes)[x].linked && classes[x].linked && h.fields[f].isStatic ==> fields[f].staticValue == 0
      decreases c
    {
      assert WellFormedClass(h, c);
      if classes[c].linked {
        return;
      }
      var super := h.classes[c].super;
      if !h.classes[c].isInterface && super.Some? && !classes[super.value].linked {
        LinkClass(super.value);
      }
      ghost var before := View();
      assert Unchanged(h, old(View()), before, c) by {
        if super.Some? && IsAncestor(h, c, super.value) {
          AncestorBound(h, c, super.value);
        }
      }
      LinkOne(c);
      assert SuperLink(h, View(), c).linked by {
        if super.Some? {
          assert Unchanged(h, before, View(), super.value);
        }
      }
      LinkingKeepsOthers(h, before, View(), c);
      forall x: nat, f: nat | x < |h.classes| && f < |h.fields| && OwnsField(h, x, f)
        && !old(classes)[x].linked && classes[x].linked && h.fields[f].isStatic
        ensures fields[f].staticValue == 0
      {
        assert x != c ==> Unchanged(h, before, View(), x);
      }
      forall x: nat | x < |h.classes| && (old(classes)[x].linked || !IsAncestor(h, x, c))
        ensures Unchanged(h, old(View()), View(), x)
      {
        assert x != c;
        assert Unchanged(h, before, View(), x);
      }
    }

    /** The body of linkClass once the superclass is linked. */
    method LinkOne(c: nat)
      requires WellFormed(h) && Sized(h, View()) && c < |h.classes|
      requires forall m: nat | m < |h.methods| && OwnsMethod(h, c, m) :: methods[m].tableIndex == 0
      modifies this
      ensures Sized(h, View()) && LinkedClass(h, View(), c)
      ensures forall x: nat | x < |h.classes| && x != c :: Unchanged(h, old(View()), View(), x)
      ensures forall f: nat | f < |h.fields| && OwnsField(h, c, f) ::
                h.fields[f].isStatic ==> fields[f].staticValue == 0
    {
      assert WellFormedClass(h, c);
      PrepareFields(c);
      ghost var l1 := View();
      var newMethods, finalizer := PrepareMethods(c);
      ghost var l2 := View();
      classes := classes[c := classes[c].(finalizer := finalizer)];
      PartsKept(h, l2, View(), c);
      ghost var l3 := View();
      BuildTable(c, newMethods);
      ghost var l4 := View();
      classes := classes[c := classes[c].(linked := true)];
      FieldsKept(h, l1, View(), c);
      PartsKept(h, l3, View(), c);
      SlotsKept(h, l4, View(), c);
      FinalizerDepends(h, l2, View(), c, EndMethod(h, c));
    }

    /** The field loop: static fields get their default value, instance fields an offset. */
    method PrepareFields(c: nat)
      requires WellFormed(h) && Sized(h, View()) && c < |h.classes|
      modifies `classes, `fields
      ensures Sized(h, View())
      ensures forall f: nat | OwnsField(h, c, f) :: FieldReady(h, View(), c, f)
      ensures forall f: nat | f < |h.fields| && OwnsField(h, c, f) ::
                h.fields[f].isStatic ==> fields[f].staticValue == 0
      ensures forall f: nat | f < |h.fields| && !OwnsField(h, c, f) :: fields[f] == old(fields)[f]
      ensures classes == old(classes)[c := old(classes)[c].(objectSize :=
                SuperLink(h, old(View()), c).objectSize + WidthBefore(h, c, EndField(h, c)))]
      // the same in words of the fields' types
      ensures LaidOut(h, c, SuperLink(h, old(View()), c).objectSize, fields, classes[c].objectSize)
    {
      assert WellFormedClass(h, c);
      hide LaidOut;
      hide OwnCells;
      hide WidthBefore;
      hide FieldReady;
      FieldLoop(c);
      IsLaidOut(h, View(), c, SuperLink(h, View(), c).objectSize, classes[c].objectSize);
    }

    method FieldLoop(c: nat)
      requires WellFormed(h) && Sized(h, View()) && c < |h.classes|
      modifies `classes, `fields
      ensures Sized(h, View())
      ensures forall f: nat | OwnsField(h, c, f) :: FieldReady(h, View(), c, f)
      ensures forall f: nat | f < |h.fields| && OwnsField(h, c, f) ::
                h.fields[f].isStatic ==> fields[f].staticValue == 0
      ensures forall f: nat | f < |h.fields| && !OwnsField(h, c, f) :: fields[f] == old(fields)[f]
      ensures classes == old(classes)[c := old(classes)[c].(objectSize :=
                SuperLink(h, old(View()), c).objectSize + WidthBefore(h, c, EndField(h, c)))]
    {
      assert WellFormedClass(h, c);
      ghost var inherited := SuperLink(h, View(), c).objectSize;
      var offset := 0;
      if h.classes[c].super.Some? {
        offset := classes[h.classes[c].super.value].objectSize;
      }
      var f := h.classes[c].firstField;
      while f < h.classes[c].firstField + h.classes[c].fieldsCount
        invariant h.classes[c].firstField <= f <= EndField(h, c)
        invariant |fields| == |old(fields)| && classes == old(classes)
        invariant offset == inherited + WidthBefore(h, c, f)
        invariant forall g: nat | OwnsField(h, c, g) && g < f :: FieldReady(h, View(), c, g)
        invariant forall g: nat | OwnsField(h, c, g) && g < f :: h.fields[g].isStatic ==> fields[g].staticValue == 0
        invariant forall g: nat | g < |h.fields| && !OwnsField(h, c, g) :: fields[g] == old(fields)[g]
      {
        if h.fields[f].isStatic {
          fields := fields[f := fields[f].(staticValue := 0)];
        } else {
          fields := fields[f := fields[f].(offset := offset)];
          offset := offset + Width(h.fields[f]);
        }
        f := f + 1;
      }
      classes := classes[c := classes[c].(objectSize := offset)];
    }

    /** The first method loop: argument counts and table indices. */
    method PrepareMethods(c: nat) returns (newMethods: nat, finalizer: Option<nat>)
      requires WellFormed(h) && Sized(h, View()) && c < |h.classes|
      requires forall m: nat | m < |h.methods| && OwnsMethod(h, c, m) :: methods[m].tableIndex == 0
      modifies `methods
      ensures Sized(h, View())
      ensures forall m: nat | OwnsMethod(h, c, m) :: MethodReady(h, View(), c, m)
      ensures forall m: nat | m < |h.methods| && !OwnsMethod(h, c, m) :: methods[m] == old(methods)[m]
      ensures newMethods == NewBefore(h, c, EndMethod(h, c))
      ensures finalizer == FinalizerBefore(h, View(), c, EndMethod(h, c))
    {
      assert WellFormedClass(h, c);
      var super, tableSize := h.classes[c].super, 0;
      newMethods, finalizer := 0, None;
      if super.Some? {
        tableSize, finalizer := |classes[super.value].table|, classes[super.value].finalizer;
      }
      var m := h.classes[c].firstMethod;
      while m < h.classes[c].firstMethod + h.classes[c].methodsCount
        invariant h.classes[c].firstMethod <= m <= EndMethod(h, c)
        invariant |methods| == |old(methods)|
        invariant newMethods == NewBefore(h, c, m)
        invariant finalizer == FinalizerBefore(h, old(View()), c, m)
        invariant forall n: nat | OwnsMethod(h, c, n) && n < m :: MethodReady(h, View(), c, n)
        invariant forall n: nat | OwnsMethod(h, c, n) && m <= n :: methods[n].tableIndex == 0
        invariant forall n: nat | n < |h.methods| && !OwnsMethod(h, c, n) :: methods[n] == old(methods)[n]
      {
        ghost var before := View();
        var isNew;
        isNew := PrepareMethod(c, m, tableSize + newMethods);
        if isNew {
          newMethods := newMethods + 1;
        }
        if IsFinalizer(h, c, m) {
          finalizer := Some(m);
        }
        forall n: nat | OwnsMethod(h, c, n) && n < m
          ensures MethodReady(h, View(), c, n)
        {
          MethodReadyDepends(h, before, View(), c, n);
        }
        m := m + 1;
      }
      FinalizerDepends(h, old(View()), View(), c, m);
    }

    /** One turn of the first method loop; says whether m takes the offered new slot. */
    method PrepareMethod(c: nat, m: nat, newSlot: nat) returns (isNew: bool)
      requires WellFormed(h) && Sized(h, View()) && c < |h.classes| && OwnsMethod(h, c, m)
      requires newSlot == |SuperLink(h, View(), c).table| + NewBefore(h, c, m)
      requires m < |h.methods| && methods[m].tableIndex == 0
      modifies `methods
      ensures |methods| == |old(methods)| && methods == old(methods)[m := methods[m]]
      ensures MethodReady(h, View(), c, m) && isNew == IsNew(h, c, m)
    {
      assert WellFormedClass(h, c);
      var super, d := h.classes[c].super, h.methods[m];
      assert WellFormedMethod(h, m);
      var count, _ := CountArgWords(d.desc);
      var mb := methods[m].(owner := c, argsCount := if d.isStatic then count else count + 1);
      if d.isNative {
        mb := mb.(maxLocals := mb.argsCount, maxStack := 0);
      }
      isNew := false;
      if Eligible(d) {
        var overridden := None;
        if super.Some? {
          overridden := LookupMethod(h, super.value, d.name, d.desc);
        }
        if overridden.Some? {
          mb := mb.(tableIndex := methods[overridden.value].tableIndex);
        } else {
          mb := mb.(tableIndex := newSlot);
          isNew := true;
        }
      }
      OverriddenElsewhere(h, c, m);
      methods := methods[m := mb];
    }

    /** The second method loop: a copy of the inherited table, then every own method at its index.
        An index past the end writes outside the allocated block and changes no slot of it. */
    method BuildTable(c: nat, newMethods: nat)
      requires WellFormed(h) && Sized(h, View()) && c < |h.classes|
      requires forall m: nat | OwnsMethod(h, c, m) :: MethodReady(h, View(), c, m)
      requires newMethods == NewBefore(h, c, EndMethod(h, c))
      modifies `classes
      ensures Sized(h, View())
      ensures |classes[c].table| == |SuperLink(h, old(View()), c).table| + newMethods
      ensures forall k: nat | k < |classes[c].table| :: SlotReady(h, View(), c, k)
      ensures classes == old(classes)[c := old(classes)[c].(table := classes[c].table)]
    {
      hide Writer;
      hide SlotReady;
      hide MethodReady;
      hide NewBefore;
      assert WellFormedClass(h, c);
      ghost var inherited := SuperLink(h, View(), c).table;
      hide TableWritten;
      var table: seq<nat> := seq(newMethods, _ => 0);
      if h.classes[c].super.Some? {
        table := classes[h.classes[c].super.value].table + table;
      }
      ghost var size := |table|;
      var m := h.classes[c].firstMethod;
      NoWriter(h, View(), c, table, m);
      while m < h.classes[c].firstMethod + h.classes[c].methodsCount
        invariant h.classes[c].firstMethod <= m <= EndMethod(h, c)
        invariant |table| == size == |inherited| + newMethods
        invariant classes == old(classes) && TableWritten(h, View(), c, table, m)
      {
        WriterStep(h, View(), c, table, m);
        var k := methods[m].tableIndex;
        if Eligible(h.methods[m]) && k < |table| {
          table := table[k := m];
        }
        m := m + 1;
      }
      ghost var l := View();
      classes := classes[c := classes[c].(table := table)];
      BuiltTable(h, l, View(), c, table);
    }
  }

  /** Slot k after the methods of c before m have been entered. */
  ghost predicate SlotWritten(h: Decls, l: Links, c: nat, table: seq<nat>, k: nat, m: nat)
    requires WellFormed(h) && Sized(h, l) && c < |h.classes|
    requires h.classes[c].firstMethod <= m <= EndMethod(h, c) && k < |table|
  {
    var w, inherited := Writer(h, l, c, k, m), SuperLink(h, l, c).table;
    if w.Some? then table[k] == w.value else k < |inherited| ==> table[k] == inherited[k]
  }

  ghost predicate TableWritten(h: Decls, l: Links, c: nat, table: seq<nat>, m: nat)
    requires WellFormed(h) && Sized(h, l) && c < |h.classes| && h.classes[c].firstMethod <= m <= EndMethod(h, c)
  {
    forall k: nat | k < |table| :: SlotWritten(h, l, c, table, k, m)
  }

  lemma NoWriter(h: Decls, l: Links, c: nat, table: seq<nat>, m: nat)
    requires WellFormed(h) && Sized(h, l) && c < |h.classes| && m == h.classes[c].firstMethod <= EndMethod(h, c)
    requires SuperLink(h, l, c).table <= table
    ensures TableWritten(h, l, c, table, m)
  {
  }

  /** One turn of the second method loop. */
  lemma WriterStep(h: Decls, l: Links, c: nat, table: seq<nat>, m: nat)
    requires WellFormed(h) && Sized(h, l) && c < |h.classes| && OwnsMethod(h, c, m) && m < EndMethod(h, c)
    requires TableWritten(h, l, c, table, m)
    ensures m < |h.methods| && m < |l.methods|
    ensures var i := l.methods[m].tableIndex;
            TableWritten(h, l, c, if Eligible(h.methods[m]) && i < |table| then table[i := m] else table, m + 1)
  {
    assert WellFormedClass(h, c);
    var i, n := l.methods[m].tableIndex, m + 1;
    var table' := if Eligible(h.methods[m]) && i < |table| then table[i := m] else table;
    forall k: nat | k < |table'| ensures SlotWritten(h, l, c, table', k, n) {
      assert SlotWritten(h, l, c, table, k, m);
    }
  }

  lemma BuiltTable(h: Decls, l: Links, l': Links, c: nat, table: seq<nat>)
    requires WellFormed(h) && Sized(h, l) && Sized(h, l') && c < |h.classes| && l'.methods == l.methods
    requires forall m: nat | OwnsMethod(h, c, m) :: MethodReady(h, l, c, m)
    requires |table| == |SuperLink(h, l, c).table| + NewBefore(h, c, EndMethod(h, c))
    requires TableWritten(h, l, c, table, EndMethod(h, c))
    requires l'.classes == l.classes[c := l.classes[c].(table := table)]
    ensures forall k: nat | k < |table| :: SlotReady(h, l', c, k)
  {
    assert WellFormedClass(h, c);
    var m := EndMethod(h, c);
    forall k: nat | k < |table| ensures SlotReady(h, l', c, k) {
      assert SlotWritten(h, l, c, table, k, m);
      if k >= |SuperLink(h, l, c).table| {
        NewSlotIsFilled(h, l, c, k, m);
      }
      WriterDepends(h, l, l', c, k, m);
      hide MethodReady;
      hide Writer;
    }
  }

  // ----- lemmas about the parts -----

  /** The method that n overrides belongs to a proper ancestor of its class. */
  lemma OverriddenElsewhere(h: Decls, c: nat, n: nat)
    requires WellFormed(h) && c < |h.classes| && n < |h.methods|
    ensures var o := Overridden(h, c, n); o.Some? ==> !OwnsMethod(h, c, o.value)
  {
    assert WellFormedClass(h, c);
    if Overridden(h, c, n).Some? {
      var a := LookupOwner(h, h.classes[c].super.value, h.methods[n].name, h.methods[n].desc);
    }
  }

  lemma MethodReadyDepends(h: Decls, l: Links, l': Links, c: nat, n: nat)
    requires WellFormed(h) && Sized(h, l) && Sized(h, l') && c < |h.classes| && OwnsMethod(h, c, n)
    requires MethodReady(h, l, c, n) && n < |h.methods| && l.methods[n] == l'.methods[n]
    requires SuperLink(h, l, c) == SuperLink(h, l', c)
    requires Overridden(h, c, n).Some? ==>
               var o := Overridden(h, c, n).value; !OwnsMethod(h, c, o) ==> l.methods[o] == l'.methods[o]
    ensures MethodReady(h, l', c, n)
  {
    OverriddenElsewhere(h, c, n);
  }

  lemma PartsKept(h: Decls, l: Links, l': Links, c: nat)
    requires WellFormed(h) && Sized(h, l) && Sized(h, l') && c < |h.classes| && l.methods == l'.methods
    requires SuperLink(h, l, c) == SuperLink(h, l', c)
    requires forall m: nat | OwnsMethod(h, c, m) :: MethodReady(h, l, c, m)
    ensures forall m: nat | OwnsMethod(h, c, m) :: MethodReady(h, l', c, m)
  {
    forall m: nat | OwnsMethod(h, c, m) ensures MethodReady(h, l', c, m) {
      assert WellFormedClass(h, c);
      MethodReadyDepends(h, l, l', c, m);
    }
  }

  lemma FieldsKept(h: Decls, l: Links, l': Links, c: nat)
    requires WellFormed(h) && Sized(h, l) && Sized(h, l') && c < |h.classes| && l.fields == l'.fields
    requires SuperLink(h, l, c) == SuperLink(h, l', c)
    requires forall f: nat | OwnsField(h, c, f) :: FieldReady(h, l, c, f)
    ensures forall f: nat | OwnsField(h, c, f) :: FieldReady(h, l', c, f)
  {
    forall f: nat | OwnsField(h, c, f) ensures FieldReady(h, l', c, f) {
      assert FieldReady(h, l, c, f);
    }
  }

  lemma SlotsKept(h: Decls, l: Links, l': Links, c: nat)
    requires WellFormed(h) && Sized(h, l) && Sized(h, l') && c < |h.classes| && l.methods == l'.methods
    requires SuperLink(h, l, c) == SuperLink(h, l', c) && l.classes[c].table == l'.classes[c].table
    requires forall k: nat | k < |l.classes[c].table| :: SlotReady(h, l, c, k)
    ensures forall k: nat | k < |l'.classes[c].table| :: SlotReady(h, l', c, k)
  {
    forall k: nat | k < |l'.classes[c].table| ensures SlotReady(h, l', c, k) {
      assert SlotReady(h, l, c, k);
      WriterDepends(h, l, l', c, k, EndMethod(h, c));
    }
  }

  lemma {:induction false} FinalizerDepends(h: Decls, l: Links, l': Links, c: nat, m: nat)
    requires WellFormed(h) && Sized(h, l) && Sized(h, l') && c < |h.classes|
    requires h.classes[c].firstMethod <= m <= EndMethod(h, c)
    requires SuperLink(h, l, c) == SuperLink(h, l', c)
    ensures FinalizerBefore(h, l, c, m) == FinalizerBefore(h, l', c, m)
    decreases m
  {
    assert WellFormedClass(h, c);
    if m > h.classes[c].firstMethod {
      FinalizerDepends(h, l, l', c, m - 1);
    }
  }

  lemma {:induction false} WriterDepends(h: Decls, l: Links, l': Links, c: nat, k: nat, m: nat)
    requires WellFormed(h) && Sized(h, l) && Sized(h, l') && c < |h.classes|
    requires h.classes[c].firstMethod <= m <= EndMethod(h, c)
    requires forall n: nat | n < |h.methods| && OwnsMethod(h, c, n) ::
        l.methods[n].tableIndex == l'.methods[n].tableIndex
    ensures Writer(h, l, c, k, m) == Writer(h, l', c, k, m)
    decreases m
  {
    assert WellFormedClass(h, c);
    if m > h.classes[c].firstMethod {
      WriterDepends(h, l, l', c, k, m - 1);
    }
  }

  /** Every slot past the inherited ones is some new method's. */
  lemma {:induction false} NewSlotIsFilled(h: Decls, l: Links, c: nat, k: nat, m: nat)
    requires WellFormed(h) && Sized(h, l) && c < |h.classes|
    requires h.classes[c].firstMethod <= m <= EndMethod(h, c)
    requires forall n: nat | OwnsMethod(h, c, n) :: MethodReady(h, l, c, n)
    requires |SuperLink(h, l, c).table| <= k < |SuperLink(h, l, c).table| + NewBefore(h, c, m)
    ensures Writer(h, l, c, k, m).Some?
    decreases m
  {
    assert WellFormedClass(h, c);
    if k < |SuperLink(h, l, c).table| + NewBefore(h, c, m - 1) {
      NewSlotIsFilled(h, l, c, k, m - 1);
    } else {
      assert MethodReady(h, l, c, m - 1);
    }
  }

  lemma {:induction false} AncestorsLinked(h: Decls, l: Links, a: nat, d: nat)
    requires WellFormed(h) && Consistent(h, l) && d < |h.classes| && l.classes[d].linked && IsAncestor(h, a, d)
    ensures a <= d && l.classes[a].linked
    decreases d
  {
    assert WellFormedClass(h, d);
    if a != d {
      AncestorsLinked(h, l, a, h.classes[d].super.value);
    }
  }

  /** Linking c leaves every class that was linked before properly linked. */
  lemma LinkingKeepsOthers(h: Decls, l: Links, l': Links, c: nat)
    requires WellFormed(h) && Consistent(h, l) && Sized(h, l') && c < |h.classes| && !l.classes[c].linked
    requires LinkedClass(h, l', c) && SuperLink(h, l', c).linked
    requires forall x: nat | x < |h.classes| && x != c :: Unchanged(h, l, l', x)
    ensures Consistent(h, l')
  {
    forall x: nat | x < |h.classes| && x != c && l'.classes[x].linked
      ensures LinkedClass(h, l', x) && SuperLink(h, l', x).linked
    {
      assert WellFormedClass(h, x);
      assert Unchanged(h, l, l', x);
      assert SuperLink(h, l', x) == SuperLink(h, l, x) by {
        if h.classes[x].super.Some? {
          assert Unchanged(h, l, l', h.classes[x].super.value);
        }
      }
      forall f: nat | OwnsField(h, x, f) ensures FieldReady(h, l', x, f) {
        assert FieldReady(h, l, x, f);
      }
      forall m: nat | OwnsMethod(h, x, m) ensures MethodReady(h, l', x, m) {
        assert MethodReady(h, l, x, m);
        if Overridden(h, x, m).Some? {
          var a := LookupOwner(h, h.classes[x].super.value, h.methods[m].name, h.methods[m].desc);
          AncestorsLinked(h, l, a, h.classes[x].super.value);
          assert Unchanged(h, l, l', a);
        }
      }
      forall k: nat | k < |l'.classes[x].table| ensures SlotReady(h, l', x, k) {
        assert SlotReady(h, l, x, k);
        WriterDepends(h, l, l', x, k, EndMethod(h, x));
      }
      FinalizerDepends(h, l, l', x, EndMethod(h, x));
    }
    forall x: nat, m: nat | x < |h.classes| && m < |h.methods| && OwnsMethod(h, x, m) && !l'.classes[x].linked
      ensures l'.methods[m].tableIndex == 0
    {
      assert Unchanged(h, l, l', x);
    }
  }
}
