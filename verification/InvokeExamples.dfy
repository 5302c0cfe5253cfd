/**
 Programs on which the quick form of an invoke instruction is not the call of the JVMS (section 6.5).

 The root class has a method "id", its subclass a method "run" with the code aload_0, an invoke
 instruction that names "run", return. The reference machine calls "run" again. invokespecial of a
 public "run" indexes the superclass's table past its end (interp.c:1237-1252); invokevirtual of a
 private "run", whose index is zero, calls "id" (interp.c:1197-1213, 1532-1538).
 */
module InvokeExamples {
  import opened Common
  import opened Descriptors
  import opened Hierarchy
  import opened Linking
  import opened Dispatch
  import opened Bytecode
  import opened Reference
  import opened Quickening
  import opened Simulation

  function TwoClasses(isPrivate: bool): Decls {
    Decls(
      [ClassDecl(None, false, true, 0, 0, 0, 1), ClassDecl(Some(0), false, true, 0, 0, 1, 1)],
      [MethodDecl("id", "()I", false, false, false, false), MethodDecl("run", "()V", false, isPrivate, false, false)],
      [])
  }

  /** What linkClass makes of them. */
  function TwoLinks(isPrivate: bool): Links {
    Links(
      [ClassLink(true, 0, [0], None), ClassLink(true, 0, if isPrivate then [0] else [0, 1], None)],
      [MethodLink(0, 1, 0, 1, 1), MethodLink(1, 1, if isPrivate then 0 else 1, 1, 1)],
      [])
  }

  function Example(op: byte, isPrivate: bool): Program {
    Program(
      TwoClasses(isPrivate), TwoLinks(isPrivate),
      [OPC_ALOAD_0, op, 0, 0, OPC_RETURN], map[0 := 1, 1 := 1, 4 := 1], [Body(5, []), Body(0, [])],
      [[], [CpMethod(Some(1), "run", "()V")]], [0, 0],
      (m, args) => NativeVoid, 0, 0, 0, 0)
  }

  /** "run" is called on the object at address 8. */
  function Begin(p: Program): Machine {
    Machine([Frame(1, 0, [Some(8)], [], 8, None)], map[8 := Obj(1, [])], map[], [], 5, 1000)
  }

  // ----- the programs are well-formed -----

  lemma ClassesAreWellFormed(isPrivate: bool)
    ensures var h := TwoClasses(isPrivate); WellFormed(h) && DistinctSignatures(h)
  {
    var h := TwoClasses(isPrivate);
    assert Widths("()I", 1) == Some(([], 2)) && Widths("()V", 1) == Some(([], 2));
    assert WellFormedClass(h, 0) && WellFormedClass(h, 1);
  }

  lemma NothingOverridden(isPrivate: bool)
    requires WellFormed(TwoClasses(isPrivate))
    ensures var h := TwoClasses(isPrivate);
            && Overridden(h, 0, 0) == None && Overridden(h, 1, 1) == None
            && NewBefore(h, 0, 1) == 1 && NewBefore(h, 1, 2) == (if isPrivate then 0 else 1) && NewBefore(h, 1, 1) == 0
  {
    var h := TwoClasses(isPrivate);
    assert !HasSignature(h, 0, "run", "()V") && Find(h, 0, "run", "()V") == None;
  }

  lemma RootIsLinked(isPrivate: bool)
    requires WellFormed(TwoClasses(isPrivate))
    ensures LinkedClass(TwoClasses(isPrivate), TwoLinks(isPrivate), 0)
  {
    var h, l := TwoClasses(isPrivate), TwoLinks(isPrivate);
    NothingOverridden(isPrivate);
    assert Widths("()I", 1) == Some(([], 2));
    assert MethodReady(h, l, 0, 0);
    assert Writer(h, l, 0, 0, 1) == Some(0) && SlotReady(h, l, 0, 0);
  }

  lemma SubclassIsLinked(isPrivate: bool)
    requires WellFormed(TwoClasses(isPrivate))
    ensures LinkedClass(TwoClasses(isPrivate), TwoLinks(isPrivate), 1)
  {
    var h, l := TwoClasses(isPrivate), TwoLinks(isPrivate);
    NothingOverridden(isPrivate);
    assert Widths("()V", 1) == Some(([], 2));
    assert MethodReady(h, l, 1, 1);
    assert Writer(h, l, 1, 0, 2) == None && SlotReady(h, l, 1, 0);
    if !isPrivate {
      assert Writer(h, l, 1, 1, 2) == Some(1) && SlotReady(h, l, 1, 1);
    }
  }

  lemma SitesAreOk(op: byte, isPrivate: bool, s: int)
    requires op == OPC_INVOKEVIRTUAL || op == OPC_INVOKESPECIAL
    requires s in Example(op, isPrivate).sites
    ensures SiteWellFormed(Example(op, isPrivate), s)
  {
  }

  lemma ClassesAreOk(op: byte, isPrivate: bool, c: nat)
    requires c < 2 && WellFormed(TwoClasses(isPrivate))
    ensures ClassOk(Example(op, isPrivate), c)
  {
    hide LinkedClass;
    NothingOverridden(isPrivate);
    RootIsLinked(isPrivate);
    SubclassIsLinked(isPrivate);
  }

  lemma ExampleIsOk(op: byte, isPrivate: bool)
    requires op == OPC_INVOKEVIRTUAL || op == OPC_INVOKESPECIAL
    ensures ProgramOk(Example(op, isPrivate))
  {
    hide ClassOk;
    hide SiteWellFormed;
    hide WellFormed;
    hide DistinctSignatures;
    var p := Example(op, isPrivate);
    ClassesAreWellFormed(isPrivate);
    forall c: nat | c < |p.h.classes| ensures ClassOk(p, c) {
      ClassesAreOk(op, isPrivate, c);
    }
    forall s | s in p.sites ensures SiteWellFormed(p, s) {
      SitesAreOk(op, isPrivate, s);
    }
  }

  lemma ExampleFacts(op: byte, isPrivate: bool)
    requires op == OPC_INVOKEVIRTUAL || op == OPC_INVOKESPECIAL
    ensures var p := Example(op, isPrivate);
            && ProgramOk(p) && p.orig == [OPC_ALOAD_0, op, 0, 0, OPC_RETURN] && p.sites == map[0 := 1, 1 := 1, 4 := 1]
            && |p.h.classes| == 2 && |p.h.methods| == 2 && p.l == TwoLinks(isPrivate) && |p.bodies| == 2
            && !p.h.methods[0].isStatic && !p.h.methods[0].isNative
            && !p.h.methods[1].isStatic && !p.h.methods[1].isNative && p.h.methods[1].isPrivate == isPrivate
  {
    ExampleIsOk(op, isPrivate);
    hide ProgramOk;
  }

  /** What the invoke instruction names. */
  lemma ExampleNames(op: byte, isPrivate: bool)
    requires op == OPC_INVOKEVIRTUAL || op == OPC_INVOKESPECIAL
    ensures var p := Example(op, isPrivate);
            && ProgramOk(p) && 1 in p.sites && |p.h.classes| == 2 && |p.h.methods| == 2
            && SiteClass(p, 1) == 1 && Operand16(p.orig, 1) == 0 && Entry(p, 1, 0).CpMethod?
            && ResolveMethod(p, 1, 0) == Some(1) && IsSuperCall(p, 1, 1) == !isPrivate && !FromSuperclass(p, 1, 1)
            && Superclass(p, Loaded(p)) == Some(0)
  {
    var p := Example(op, isPrivate);
    ExampleIsOk(op, isPrivate);
    assert HasSignature(p.h, 1, "run", "()V") && Find(p.h, 1, "run", "()V") == Some(1);
    hide ProgramOk;
  }

  // ----- the reference machine -----

  /** The receiver is on the operand stack. */
  function Loaded(p: Program): Machine {
    Begin(p).(frames := [Frame(1, 1, [Some(8)], [8], 8, None)])
  }

  lemma LoadRuns(p: Program)
    requires ProgramOk(p) && At(p.orig, 0) == OPC_ALOAD_0
    ensures Exec(p, Begin(p), Load(0)) == Running(Loaded(p))
  {
    hide ProgramOk;
    assert Last(Begin(p)).stack + [8] == [8] && Begin(p).frames[..0] == [];
  }

  /** One argument, the receiver: the frame of method n. */
  lemma CallEnters(p: Program, n: nat, isPrivate: bool)
    requires ProgramOk(p) && p.l == TwoLinks(isPrivate) && n < |p.h.methods| == 2 && |p.bodies| == 2
    requires !p.h.methods[n].isStatic && !p.h.methods[n].isNative
    ensures var s := Enter(p, Loaded(p), n, 1);
            s.Running? && |s.m.frames| == 2 && Last(s.m).m == n
  {
    hide ProgramOk;
    hide SyncObject;
    var m := Loaded(p);
    assert PopArgs(m, 1).frames[..0] == [] && m.frames[..0] == [];
    assert TopAddress(5, []) == 5 && TopAddress(5, PopArgs(m, 1).frames) == 11;
  }

  lemma RefLoads(op: byte, isPrivate: bool)
    requires op == OPC_INVOKEVIRTUAL || op == OPC_INVOKESPECIAL
    ensures ProgramOk(Example(op, isPrivate))
    ensures var p := Example(op, isPrivate); Step(p, Running(Begin(p))) == Running(Loaded(p))
  {
    hide ProgramOk;
    hide Exec;
    hide Example;
    var p := Example(op, isPrivate);
    ExampleFacts(op, isPrivate);
    LoadRuns(p);
  }

  /** After two steps "run" has been called. */
  lemma ReferenceCallsRun(op: byte, isPrivate: bool)
    requires op == (if isPrivate then OPC_INVOKEVIRTUAL else OPC_INVOKESPECIAL)
    ensures ProgramOk(Example(op, isPrivate))
    ensures CallsMethod(Run(Example(op, isPrivate), Running(Begin(Example(op, isPrivate))), 2), 1)
  {
    hide ProgramOk;
    hide Example;
    hide Enter;
    hide RefOp;
    hide Step;
    var p := Example(op, isPrivate);
    ExampleFacts(op, isPrivate);
    RefLoads(op, isPrivate);
    RefIsSpecial(op, isPrivate);
    RefEnters(p);
    CallEnters(p, 1, isPrivate);
    assert Run(p, Running(Begin(p)), 2) == Run(p, Step(p, Running(Loaded(p))), 0);
  }

  lemma RefIsSpecial(op: byte, isPrivate: bool)
    requires op == (if isPrivate then OPC_INVOKEVIRTUAL else OPC_INVOKESPECIAL)
    ensures ProgramOk(Example(op, isPrivate)) && !InvokeSiteOk(Example(op, isPrivate), 1)
    ensures RefOp(Example(op, isPrivate), 1) == Invoke(Special(1))
  {
    hide ProgramOk;
    hide Example;
    hide IsSuperCall;
    hide FromSuperclass;
    hide ResolveMethod;
    hide ResolveInterfaceMethod;
    hide Superclass;
    hide SiteClass;
    hide Operand16;
    hide RefOp;
    hide TableIndexFits;
    hide KindSiteOk;
    var p := Example(op, isPrivate);
    ExampleFacts(op, isPrivate);
    ExampleNames(op, isPrivate);
    RefIsInvoke(p, 1);
  }

  lemma RefIsInvoke(p: Program, pc: int)
    requires ProgramOk(p) && pc in p.sites && Entry(p, SiteClass(p, pc), Operand16(p.orig, pc)).CpMethod?
    requires At(p.orig, pc) == OPC_INVOKEVIRTUAL || At(p.orig, pc) == OPC_INVOKESPECIAL
    ensures RefOp(p, pc) == InvokeOp(p, At(p.orig, pc), SiteClass(p, pc), Operand16(p.orig, pc))
  {
    hide ProgramOk;
    hide InvokeOp;
    hide At;
    hide Operand16;
    hide Entry;
  }

  lemma RefEnters(p: Program)
    requires ProgramOk(p) && |p.h.methods| == 2 && !p.h.methods[1].isStatic
    requires p.l.methods == TwoLinks(true).methods[1 := p.l.methods[1]]
    requires p.l.methods[1].argsCount == 1 && 1 in p.sites && p.sites[1] == 1 && RefOp(p, 1) == Invoke(Special(1))
    ensures Step(p, Running(Loaded(p))) == Enter(p, Loaded(p), 1, 1)
  {
    hide ProgramOk;
    hide Enter;
    hide RefOp;
    assert Select(p, Loaded(p), Special(1)) == Callee(1, 1);
  }

  predicate CallsMethod(s: State, n: nat) { s.Running? && |s.m.frames| == 2 && Last(s.m).m == n }

  // ----- the self-rewriting machine -----

  function BeginQuick(p: Program): Quick { Quick(Running(Begin(p)), p.orig, map[]) }

  function LoadedQuick(p: Program, op: byte): Quick {
    Quick(Running(Loaded(p)), [OPC_ALOAD_THIS, op, 0, 0, OPC_RETURN], map[])
  }

  /** aload_0 is rewritten, and loads the receiver. */
  lemma QuickLoads(op: byte, isPrivate: bool)
    requires op == OPC_INVOKEVIRTUAL || op == OPC_INVOKESPECIAL
    ensures ProgramOk(Example(op, isPrivate))
    ensures var p := Example(op, isPrivate); QuickRun(p, BeginQuick(p), 2) == LoadedQuick(p, op)
  {
    hide ProgramOk;
    hide Exec;
    hide Example;
    var p := Example(op, isPrivate);
    ExampleFacts(op, isPrivate);
    LoadRuns(p);
    var code := [OPC_ALOAD_THIS, op, 0, 0, OPC_RETURN];
    var one := Quick(Running(Begin(p)), code, map[]);
    assert QuickStep(p, BeginQuick(p)) == one;
    assert Fetch(p, code, map[], 0) == Fetched(code, map[], Some(Load(0)));
    assert QuickStep(p, one) == LoadedQuick(p, op);
    TwoDispatches(p, BeginQuick(p), one);
  }

  lemma TwoDispatches(p: Program, q: Quick, r: Quick)
    requires ProgramOk(p) && QuickStep(p, q) == r
    ensures QuickRun(p, q, 2) == QuickStep(p, r)
  {
    assert QuickRun(p, r, 1) == QuickRun(p, QuickStep(p, r), 0);
  }

  lemma {:induction false} QuickRunAdds(p: Program, q: Quick, j: nat, k: nat)
    requires ProgramOk(p)
    ensures QuickRun(p, QuickRun(p, q, j), k) == QuickRun(p, q, j + k)
    decreases j
  {
    if j > 0 {
      QuickRunAdds(p, QuickStep(p, q), j - 1, k);
    }
  }

  /** The invoke instruction is resolved and rewritten. */
  lemma QuickRewrites(op: byte, isPrivate: bool)
    requires op == (if isPrivate then OPC_INVOKEVIRTUAL else OPC_INVOKESPECIAL)
    ensures ProgramOk(Example(op, isPrivate))
    ensures var p := Example(op, isPrivate);
            QuickStep(p, LoadedQuick(p, op)) == RewrittenQuick(p, isPrivate)
  {
    hide ProgramOk;
    hide Example;
    hide Fetch;
    hide FetchInvoke;
    var p := Example(op, isPrivate);
    ExampleFacts(op, isPrivate);
    FetchIsSlow(p, LoadedQuick(p, op).code, map[], 1);
    SlowRewrites(op, isPrivate);
  }

  lemma FetchIsSlow(p: Program, code: seq<byte>, info: CpInfo, pc: int)
    requires ProgramOk(p) && pc in p.sites
    requires At(code, pc) == OPC_INVOKEVIRTUAL || At(code, pc) == OPC_INVOKESPECIAL
    ensures Fetch(p, code, info, pc) == FetchInvoke(p, code, info, pc, At(code, pc))
  {
    hide ProgramOk;
    hide FetchInvoke;
    hide At;
  }

  lemma FetchIsQuick(p: Program, code: seq<byte>, info: CpInfo, pc: int)
    requires ProgramOk(p) && pc in p.sites
    requires At(code, pc) == OPC_INVOKEVIRTUAL_QUICK || At(code, pc) == OPC_INVOKESUPER_QUICK
    ensures Fetch(p, code, info, pc) == Fetched(code, info, Some(InvokeAt(p, code, info, pc, At(code, pc))))
  {
    hide ProgramOk;
    hide InvokeAt;
    hide At;
  }

  lemma SlowRewrites(op: byte, isPrivate: bool)
    requires op == (if isPrivate then OPC_INVOKEVIRTUAL else OPC_INVOKESPECIAL)
    ensures ProgramOk(Example(op, isPrivate)) && 1 in Example(op, isPrivate).sites
    ensures var p := Example(op, isPrivate);
            var r := RewrittenQuick(p, isPrivate);
            FetchInvoke(p, LoadedQuick(p, op).code, map[], 1, op) == Fetched(r.code, r.info, None)
  {
    hide ProgramOk;
    hide Example;
    hide ResolveMethod;
    hide IsSuperCall;
    hide FromSuperclass;
    hide Superclass;
    hide InvokeRewrite;
    hide FetchInvoke;
    hide SiteClass;
    hide Entry;
    var p := Example(op, isPrivate);
    ExampleFacts(op, isPrivate);
    ExampleNames(op, isPrivate);
    NamesZero(op);
    FirstFetch(p, LoadedQuick(p, op).code, op);
    BytesRewritten(op, isPrivate);
  }

  lemma NamesZero(op: byte)
    ensures Operand16([OPC_ALOAD_THIS, op, 0, 0, OPC_RETURN], 1) == 0
  {
  }

  lemma FirstFetch(p: Program, code: seq<byte>, op: byte)
    requires ProgramOk(p) && 1 in p.sites && |p.h.classes| == 2 && |p.h.methods| == 2
    requires op == OPC_INVOKEVIRTUAL || op == OPC_INVOKESPECIAL
    requires SiteClass(p, 1) == 1 && Operand16(code, 1) == 0 && Entry(p, 1, 0).CpMethod?
    requires ResolveMethod(p, 1, 0) == Some(1)
    ensures |p.l.methods| == 2
    ensures FetchInvoke(p, code, map[], 1, op) ==
      Fetched(InvokeRewrite(code, 1, op, p.l.methods[1].tableIndex, p.l.methods[1].argsCount, IsSuperCall(p, 1, 1)),
          map[(1, 0) := 1], None)
  {
    hide ProgramOk;
    hide ResolveMethod;
    hide IsSuperCall;
    hide InvokeRewrite;
    hide SiteClass;
    hide Operand16;
    hide Entry;
    LinkSizes(p);
  }

  lemma BytesRewritten(op: byte, isPrivate: bool)
    requires op == (if isPrivate then OPC_INVOKEVIRTUAL else OPC_INVOKESPECIAL)
    ensures InvokeRewrite([OPC_ALOAD_THIS, op, 0, 0, OPC_RETURN], 1, op, if isPrivate then 0 else 1, 1, !isPrivate)
            == [OPC_ALOAD_THIS, QuickInvoke(isPrivate), 0, 1, OPC_RETURN]
  {
  }

  function QuickInvoke(isPrivate: bool): byte {
    if isPrivate then OPC_INVOKEVIRTUAL_QUICK else OPC_INVOKESUPER_QUICK
  }

  function RewrittenQuick(p: Program, isPrivate: bool): Quick {
    Quick(Running(Loaded(p)), [OPC_ALOAD_THIS, QuickInvoke(isPrivate), 0, 1, OPC_RETURN], map[(1, 0) := 1])
  }

  /** Four dispatches: the fourth runs the quick invoke. */
  lemma FourDispatches(op: byte, isPrivate: bool)
    requires op == (if isPrivate then OPC_INVOKEVIRTUAL else OPC_INVOKESPECIAL)
    ensures ProgramOk(Example(op, isPrivate))
    ensures var p := Example(op, isPrivate);
            QuickRun(p, BeginQuick(p), 4).state
            == Exec(p, Loaded(p), Invoke(if isPrivate then Slot(0, 1) else SuperSlot(1)))
  {
    hide ProgramOk;
    hide Example;
    hide QuickStep;
    hide Exec;
    hide QuickRun;
    var p := Example(op, isPrivate);
    QuickLoads(op, isPrivate);
    QuickRewrites(op, isPrivate);
    QuickInvokes(op, isPrivate);
    TwoDispatches(p, LoadedQuick(p, op), RewrittenQuick(p, isPrivate));
    QuickRunAdds(p, BeginQuick(p), 2, 2);
  }

  lemma QuickInvokes(op: byte, isPrivate: bool)
    requires op == (if isPrivate then OPC_INVOKEVIRTUAL else OPC_INVOKESPECIAL)
    ensures ProgramOk(Example(op, isPrivate))
    ensures var p := Example(op, isPrivate);
            QuickStep(p, RewrittenQuick(p, isPrivate)).state
            == Exec(p, Loaded(p), Invoke(if isPrivate then Slot(0, 1) else SuperSlot(1)))
  {
    hide ProgramOk;
    hide Example;
    hide Exec;
    hide Fetch;
    hide InvokeAt;
    var p := Example(op, isPrivate);
    ExampleFacts(op, isPrivate);
    FetchIsQuick(p, RewrittenQuick(p, isPrivate).code, RewrittenQuick(p, isPrivate).info, 1);
    QuickOperands(p, isPrivate);
  }

  lemma QuickOperands(p: Program, isPrivate: bool)
    requires ProgramOk(p) && 1 in p.sites
    ensures InvokeAt(p, RewrittenQuick(p, isPrivate).code, RewrittenQuick(p, isPrivate).info, 1, QuickInvoke(isPrivate))
            == Invoke(if isPrivate then Slot(0, 1) else SuperSlot(1))
  {
    hide ProgramOk;
    hide MethodAt;
    hide SiteClass;
  }

  /** invokespecial of the public method: the reference machine calls it, and the self-rewriting one has
      no callee. */
  lemma OwnPublicMethodFails()
    ensures var p := Example(OPC_INVOKESPECIAL, false);
            && ProgramOk(p) && !InvokeSiteOk(p, 1) && CallsMethod(Run(p, Running(Begin(p)), 2), 1)
            && QuickRun(p, BeginQuick(p), 4).state.Stuck?
  {
    hide ProgramOk;
    hide Example;
    hide InvokeSiteOk;
    hide QuickRun;
    hide Run;
    var p := Example(OPC_INVOKESPECIAL, false);
    ExampleFacts(OPC_INVOKESPECIAL, false);
    ExampleNames(OPC_INVOKESPECIAL, false);
    RefIsSpecial(OPC_INVOKESPECIAL, false);
    ReferenceCallsRun(OPC_INVOKESPECIAL, false);
    FourDispatches(OPC_INVOKESPECIAL, false);
    NoSuperSlot(p);
  }

  lemma NoSuperSlot(p: Program)
    requires ProgramOk(p) && |p.h.classes| == 2 && p.l == TwoLinks(false) && Superclass(p, Loaded(p)) == Some(0)
    ensures Exec(p, Loaded(p), Invoke(SuperSlot(1))).Stuck?
  {
    hide ProgramOk;
    hide Superclass;
    hide RaiseIn;
    hide Enter;
    hide ByName;
    hide SelectVirtual;
    hide ReceiverClass;
    hide Checked;
    LinkSizes(p);
    assert InTable(p, 0, 1) == None;
    assert Select(p, Loaded(p), SuperSlot(1)) == NoCallee;
  }

  /** invokevirtual of the private method: the reference machine calls it, and the self-rewriting one calls
      the method in slot 0, which is "id". */
  lemma OwnPrivateMethodFails()
    ensures var p := Example(OPC_INVOKEVIRTUAL, true);
            && ProgramOk(p) && !InvokeSiteOk(p, 1) && CallsMethod(Run(p, Running(Begin(p)), 2), 1)
            && CallsMethod(QuickRun(p, BeginQuick(p), 4).state, 0)
  {
    hide ProgramOk;
    hide Example;
    hide InvokeSiteOk;
    hide QuickRun;
    hide Run;
    hide Enter;
    hide Exec;
    var p := Example(OPC_INVOKEVIRTUAL, true);
    ExampleFacts(OPC_INVOKEVIRTUAL, true);
    RefIsSpecial(OPC_INVOKEVIRTUAL, true);
    ReferenceCallsRun(OPC_INVOKEVIRTUAL, true);
    FourDispatches(OPC_INVOKEVIRTUAL, true);
    CallEnters(p, 0, true);
    SlotZero(p);
  }

  lemma SlotZero(p: Program)
    requires ProgramOk(p) && p.l == TwoLinks(true) && |p.h.classes| == 2
    ensures Exec(p, Loaded(p), Invoke(Slot(0, 1))) == Enter(p, Loaded(p), 0, 1)
  {
    hide ProgramOk;
    hide Enter;
    assert Select(p, Loaded(p), Slot(0, 1)) == Callee(0, 1);
  }
}
