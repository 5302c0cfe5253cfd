/** What linkClass leaves behind (class.c:495-550), in terms of descriptors and access flags alone. */
module LinkResults {
  import opened Common
  import opened Descriptors
  import opened Hierarchy
  import opened Linking
  import opened FieldLayout

  /** args_count of a method: the words of its arguments, and one for the receiver. */
  lemma ArgumentWords(h: Decls, l: Links, c: nat, m: nat, ts: seq<FieldType>, result: string)
    requires LinkedChain(h, l, c) && OwnsMethod(h, c, m) && m < |h.methods|
    requires (forall t | t in ts :: WellFormedType(t)) && h.methods[m].desc == PrintMethod(ts, result)
    ensures l.methods[m].owner == c
    ensures l.methods[m].argsCount == Sum(WordsOf(ts)) + if h.methods[m].isStatic then 0 else 1
    ensures h.methods[m].isNative ==> l.methods[m].maxLocals == l.methods[m].argsCount && l.methods[m].maxStack == 0
  {
    assert MethodReady(h, l, c, m);
    ScanIsExact(ts, result);
  }

  /** What invokevirtual may have to find through the table. */
  predicate IsVirtual(d: MethodDecl) {
    !d.isStatic && !d.isPrivate && (d.name == "" || d.name[0] != '<')
  }

  lemma TableMethodsAreVirtual(d: MethodDecl)
    ensures Eligible(d) <==> IsVirtual(d)
  {
  }

  /** A method table holds virtual methods of the class and its superclasses, and nothing else. */
  lemma {:induction false} TableHoldsVirtualMethods(h: Decls, l: Links, c: nat, k: nat)
    requires LinkedChain(h, l, c) && k < |l.classes[c].table|
    ensures var m := l.classes[c].table[k];
            && m < |h.methods| && IsVirtual(h.methods[m])
            && exists a: nat | a < |h.classes| && IsAncestor(h, a, c) :: OwnsMethod(h, a, m)
    decreases c
  {
    assert WellFormedClass(h, c) && SlotReady(h, l, c, k);
    var m := l.classes[c].table[k];
    if Writer(h, l, c, k, EndMethod(h, c)).Some? {
      assert IsAncestor(h, c, c) && OwnsMethod(h, c, m);
    } else {
      var super := h.classes[c].super.value;
      TableHoldsVirtualMethods(h, l, super, k);
      var a: nat :| a < |h.classes| && IsAncestor(h, a, super) && OwnsMethod(h, a, m);
      assert IsAncestor(h, a, c);
    }
  }

  /** A method that is not virtual has no slot: its index stays zero. */
  lemma OthersHaveNoSlot(h: Decls, l: Links, c: nat, m: nat)
    requires LinkedChain(h, l, c) && OwnsMethod(h, c, m) && m < |h.methods| && !IsVirtual(h.methods[m])
    ensures l.methods[m].tableIndex == 0
  {
    assert MethodReady(h, l, c, m);
  }

  /** m is a virtual method finalize()V of class a, which is not java.lang.Object. */
  ghost predicate Finalizes(h: Decls, a: nat, m: nat) {
    && a < |h.classes| && h.classes[a].super.Some? && OwnsMethod(h, a, m)
    && HasSignature(h, m, "finalize", "()V") && IsVirtual(h.methods[m])
  }

  lemma {:induction false} OwnFinalizer(h: Decls, l: Links, c: nat, m: nat)
    requires WellFormed(h) && Sized(h, l) && DistinctSignatures(h) && c < |h.classes|
    requires h.classes[c].firstMethod <= m <= EndMethod(h, c)
    ensures forall n: nat | n < m && Finalizes(h, c, n) :: FinalizerBefore(h, l, c, m) == Some(n)
    ensures (forall n: nat | n < m :: !Finalizes(h, c, n)) ==>
              FinalizerBefore(h, l, c, m) == SuperLink(h, l, c).finalizer
    decreases m
  {
    assert WellFormedClass(h, c);
    if m > h.classes[c].firstMethod {
      OwnFinalizer(h, l, c, m - 1);
      assert Finalizes(h, c, m - 1) <==> IsFinalizer(h, c, m - 1);
      forall n: nat | n < m && Finalizes(h, c, n) ensures FinalizerBefore(h, l, c, m) == Some(n) {
        assert n < m - 1 && Finalizes(h, c, m - 1) ==> SameSignature(h, n, m - 1);
      }
    }
  }

  /** The finalizer of a class is the nearest finalize()V, that of java.lang.Object not counted. */
  lemma {:induction false} FinalizerIsNearest(h: Decls, l: Links, c: nat)
    requires LinkedChain(h, l, c) && DistinctSignatures(h)
    ensures match l.classes[c].finalizer
            case Some(m) =>
              exists a: nat {:trigger Finalizes(h, a, m)} |
                a < |h.classes| && IsAncestor(h, a, c) && Finalizes(h, a, m) ::
                forall b: nat, n: nat {:trigger Finalizes(h, b, n)} |
                  b < |h.classes| && b != a && IsAncestor(h, a, b) && IsAncestor(h, b, c) :: !Finalizes(h, b, n)
            case None =>
              forall a: nat, n: nat {:trigger Finalizes(h, a, n)} | a < |h.classes| && IsAncestor(h, a, c) ::
                !Finalizes(h, a, n)
    decreases c
  {
    assert WellFormedClass(h, c);
    OwnFinalizer(h, l, c, EndMethod(h, c));
    NoneBetween(h, c);
    if m: nat :| Finalizes(h, c, m) {
      assert IsAncestor(h, c, c);
    } else {
      if h.classes[c].super.Some? {
        FinalizerIsNearest(h, l, h.classes[c].super.value);
      }
    }
  }
}
