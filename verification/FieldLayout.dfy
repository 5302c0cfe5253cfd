/** Where linking puts instance fields (class.c:468-493), over a whole superclass chain. */
module FieldLayout {
  import opened Common
  import opened Hierarchy
  import opened Linking

  /** f is an instance field that objects of class d have. */
  ghost predicate HasField(h: Decls, d: nat, f: nat)
    requires WellFormed(h) && d < |h.classes|
  {
    f < |h.fields| && !h.fields[f].isStatic
    && exists a: nat | a < |h.classes| && IsAncestor(h, a, d) :: OwnsField(h, a, f)
  }

  ghost predicate LinkedChain(h: Decls, l: Links, d: nat) {
    WellFormed(h) && Consistent(h, l) && d < |h.classes| && l.classes[d].linked
  }

  /** The words of the first n fields, as far as objects of class d have them. */
  ghost function AllCells(h: Decls, d: nat, n: nat): nat
    requires WellFormed(h) && d < |h.classes| && n <= |h.fields|
  {
    if n == 0 then 0
    else AllCells(h, d, n - 1) + if HasField(h, d, n - 1) then Cells(h, n - 1) else 0
  }

  /** The fields of a class are its own and those of its superclass. */
  lemma HasOwnOrInherited(h: Decls, d: nat, f: nat)
    requires WellFormed(h) && d < |h.classes| && f < |h.fields|
    ensures var super := h.classes[d].super;
            && (super.Some? ==> super.value < d)
            && (HasField(h, d, f) <==> (OwnsField(h, d, f) && !h.fields[f].isStatic)
                                       || (super.Some? && HasField(h, super.value, f)))
            && !(OwnsField(h, d, f) && super.Some? && HasField(h, super.value, f))
  {
    assert WellFormedClass(h, d);
    var super := h.classes[d].super;
    if HasField(h, d, f) {
      var a: nat :| a < |h.classes| && IsAncestor(h, a, d) && OwnsField(h, a, f);
    }
    if super.Some? && HasField(h, super.value, f) {
      var a: nat :| a < |h.classes| && IsAncestor(h, a, super.value) && OwnsField(h, a, f);
      AncestorBound(h, a, super.value);
      assert IsAncestor(h, a, d);
    }
    if OwnsField(h, d, f) {
      assert IsAncestor(h, d, d);
    }
  }

  lemma {:induction false} AllCellsSplit(h: Decls, d: nat, n: nat)
    requires WellFormed(h) && d < |h.classes| && n <= |h.fields|
    ensures h.classes[d].super.Some? ==> h.classes[d].super.value < d
    ensures AllCells(h, d, n) == OwnCells(h, d, n)
                                 + if h.classes[d].super.Some? then AllCells(h, h.classes[d].super.value, n) else 0
    decreases n
  {
    assert WellFormedClass(h, d);
    if n > 0 {
      AllCellsSplit(h, d, n - 1);
      HasOwnOrInherited(h, d, n - 1);
    }
  }

  /** object_size is the sum of the words of all instance fields that objects of the class have. */
  lemma {:induction false} SizeIsExact(h: Decls, l: Links, d: nat)
    requires LinkedChain(h, l, d)
    ensures l.classes[d].objectSize == AllCells(h, d, |h.fields|)
    decreases d
  {
    assert WellFormedClass(h, d);
    AllCellsSplit(h, d, |h.fields|);
    OwnCellsIsWidth(h, d, |h.fields|);
    if h.classes[d].super.Some? {
      SizeIsExact(h, l, h.classes[d].super.value);
    }
  }

  /** A field lies behind the superclass's fields and those declared before it. */
  lemma OffsetIsExact(h: Decls, l: Links, c: nat, f: nat)
    requires LinkedChain(h, l, c) && f < |h.fields| && OwnsField(h, c, f) && !h.fields[f].isStatic
    ensures var super := h.classes[c].super;
            && (super.Some? ==> super.value < c)
            && l.fields[f].offset == OwnCells(h, c, f)
                                     + if super.Some? then AllCells(h, super.value, |h.fields|) else 0
  {
    assert WellFormedClass(h, c) && FieldReady(h, l, c, f);
    OwnCellsIsWidth(h, c, f);
    if h.classes[c].super.Some? {
      SizeIsExact(h, l, h.classes[c].super.value);
    }
  }

  lemma {:induction false} SizeGrows(h: Decls, l: Links, a: nat, d: nat)
    requires LinkedChain(h, l, d) && a < |h.classes| && IsAncestor(h, a, d)
    ensures l.classes[a].linked && l.classes[a].objectSize <= l.classes[d].objectSize
    ensures a != d ==> l.classes[a].objectSize <= SuperLink(h, l, d).objectSize
    decreases d
  {
    assert WellFormedClass(h, d);
    if a != d {
      SizeGrows(h, l, a, h.classes[d].super.value);
    }
  }

  lemma {:induction false} WidthGrows(h: Decls, c: nat, f: nat, g: nat)
    requires WellFormed(h) && c < |h.classes| && f < |h.fields| && OwnsField(h, c, f) && !h.fields[f].isStatic
    requires f < g <= EndField(h, c)
    ensures WidthBefore(h, c, f) + Width(h.fields[f]) <= WidthBefore(h, c, g)
    decreases g
  {
    if f + 1 < g {
      WidthGrows(h, c, f, g - 1);
    }
  }

  /** A declared instance field lies between the inherited words and the size of its class. */
  lemma OwnRange(h: Decls, l: Links, c: nat, f: nat)
    requires LinkedChain(h, l, c) && f < |h.fields| && OwnsField(h, c, f) && !h.fields[f].isStatic
    ensures SuperLink(h, l, c).objectSize <= l.fields[f].offset
    ensures l.fields[f].offset + Width(h.fields[f]) <= l.classes[c].objectSize
  {
    assert FieldReady(h, l, c, f);
    WidthGrows(h, c, f, EndField(h, c));
  }

  /** Every instance field of an object of class d lies inside the object, and no two of them,
      inherited or not, share a word. */
  lemma FieldsAreDisjoint(h: Decls, l: Links, d: nat, f: nat, g: nat)
    requires LinkedChain(h, l, d) && HasField(h, d, f) && HasField(h, d, g) && f != g
    ensures l.fields[f].offset + Cells(h, f) <= l.classes[d].objectSize
    ensures l.fields[f].offset + Cells(h, f) <= l.fields[g].offset
            || l.fields[g].offset + Cells(h, g) <= l.fields[f].offset
  {
    var a: nat :| a < |h.classes| && IsAncestor(h, a, d) && OwnsField(h, a, f);
    var b: nat :| b < |h.classes| && IsAncestor(h, b, d) && OwnsField(h, b, g);
    SizeGrows(h, l, a, d);
    SizeGrows(h, l, b, d);
    OwnRange(h, l, a, f);
    OwnRange(h, l, b, g);
    if a == b {
      assert FieldReady(h, l, a, f) && FieldReady(h, l, a, g);
      if f < g {
        WidthGrows(h, a, f, g);
      } else {
        WidthGrows(h, a, g, f);
      }
    } else {
      AncestorsOfOneClass(h, a, b, d);
      if IsAncestor(h, a, b) {
        SizeGrows(h, l, a, b);
      } else {
        SizeGrows(h, l, b, a);
      }
    }
  }
}
