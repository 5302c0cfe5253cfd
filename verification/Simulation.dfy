/**
 Quickening preserves meaning: runs of the self-rewriting machine against runs of the reference
 machine, over every program and every number of steps.
 */
module Simulation {
  import opened Common
  import opened Hierarchy
  import opened Linking
  import opened Dispatch
  import opened Bytecode
  import opened Reference
  import opened Quickening

  // ----- what every run keeps -----

  /** The receiver of an instance method is its local 0 for the whole call, and the monitor the
      method took is the one its flags name. */
  ghost predicate FrameOk(p: Program, f: Frame)
    requires ProgramOk(p)
  {
    && f.m < |p.h.methods|
    && |f.locals| == p.l.methods[f.m].maxLocals
    && (!p.h.methods[f.m].isStatic ==> |f.locals| > 0 && f.locals[0] == Some(f.recv) && f.recv != 0)
    && f.sync == SyncObject(p, f.m, [f.recv])
  }

  ghost predicate FramesOk(p: Program, frames: seq<Frame>)
    requires ProgramOk(p)
  {
    forall f | f in frames :: FrameOk(p, f)
  }

  ghost predicate MachineOk(p: Program, m: Machine)
    requires ProgramOk(p)
  {
    m.frames != [] && FramesOk(p, m.frames)
  }

  ghost predicate StateOk(p: Program, s: State)
    requires ProgramOk(p)
  {
    match s
    case Running(m) => MachineOk(p, m)
    case Returned(m, _) => MachineOk(p, m)
    case Threw(m, _) => MachineOk(p, m)
    case Stuck => true
  }

  lemma GoOk(p: Program, m: Machine, pc: int, stack: seq<Word>)
    requires ProgramOk(p) && MachineOk(p, m)
    ensures StateOk(p, Go(m, pc, stack))
  {
    assert FrameOk(p, Last(m));
    var f := Last(m).(pc := pc, stack := stack);
    assert FrameOk(p, f);
  }

  lemma PrefixOk(p: Program, m: Machine)
    requires ProgramOk(p) && MachineOk(p, m) && |m.frames| > 1
    ensures MachineOk(p, LeaveFrame(m))
  {
  }

  lemma {:induction false} UnwindOk(p: Program, m: Machine, exc: Word, cls: nat)
    requires ProgramOk(p) && MachineOk(p, m) && cls < |p.h.classes|
    ensures StateOk(p, Unwind(p, m, exc, cls))
    decreases |m.frames|
  {
    var f := Last(m);
    assert FrameOk(p, f);
    var handler := FindHandler(p, p.bodies[f.m], f.pc, cls, 0);
    if handler.Some? {
      GoOk(p, m, handler.value, [exc]);
    } else if |m.frames| > 1 {
      PrefixOk(p, m);
      UnwindOk(p, LeaveFrame(m), exc, cls);
    }
  }

  lemma RaiseOk(p: Program, m: Machine, exc: Word)
    requires ProgramOk(p) && MachineOk(p, m)
    ensures StateOk(p, RaiseIn(p, m, exc))
  {
    if exc in m.heap && m.heap[exc].cls < |p.h.classes| {
      UnwindOk(p, m, exc, m.heap[exc].cls);
    }
  }

  lemma SetLastOk(p: Program, m: Machine, f: Frame)
    requires ProgramOk(p) && MachineOk(p, m) && FrameOk(p, f)
    ensures MachineOk(p, SetLast(m, f))
  {
  }

  lemma NativeOk(p: Program, m: Machine, pc: int, r: NativeResult)
    requires ProgramOk(p) && MachineOk(p, m)
    ensures StateOk(p, AfterNative(p, m, pc, r))
  {
    match r {
      case NativeVoid => GoOk(p, m, pc, Last(m).stack);
      case NativeValue(w) => GoOk(p, m, pc, Last(m).stack + [w]);
      case NativeThrow(exc) => RaiseOk(p, m, exc);
    }
  }

  lemma NewFrameOk(p: Program, m: Machine, callee: nat, args: seq<Word>)
    requires ProgramOk(p) && MachineOk(p, m) && callee < |p.h.methods| && |args| <= p.l.methods[callee].maxLocals
    requires p.h.methods[callee].isStatic || (args != [] && args[0] != 0)
    ensures MachineOk(p, m.(frames := m.frames + [NewFrame(p, callee, args)]))
  {
    assert FrameOk(p, NewFrame(p, callee, args));
  }

  lemma PoppedOk(p: Program, m: Machine, n: nat)
    requires ProgramOk(p) && MachineOk(p, m) && n <= |Last(m).stack|
    ensures MachineOk(p, SetLast(m, Last(m).(stack := Last(m).stack[..n])))
  {
    assert FrameOk(p, Last(m));
    assert FrameOk(p, Last(m).(stack := Last(m).stack[..n]));
    SetLastOk(p, m, Last(m).(stack := Last(m).stack[..n]));
  }

  lemma EnterOk(p: Program, m: Machine, callee: nat, nargs: nat)
    requires ProgramOk(p) && MachineOk(p, m)
    requires 0 < nargs <= |Last(m).stack| && callee < |p.h.methods| && !p.h.methods[callee].isStatic ==>
               Last(m).stack[|Last(m).stack| - nargs] != 0
    ensures StateOk(p, Enter(p, m, callee, nargs))
  {
    hide Unwind;
    if CanEnter(p, m, callee, nargs) {
      var args := Last(m).stack[|Last(m).stack| - nargs..];
      var popped := PopArgs(m, nargs);
      PoppedOk(p, m, |Last(m).stack| - nargs);
      RaiseOk(p, m.(stackEnd := m.stackEnd + 256), p.stackOverflow);
      NativeOk(p, Released(Locked(popped, SyncObject(p, callee, args)), SyncObject(p, callee, args)),
               NextPc(p, m), p.native(callee, args));
      NewFrameOk(p, Locked(popped, SyncObject(p, callee, args)), callee, args);
    }
  }

  lemma InvokeOk(p: Program, m: Machine, sel: Selector)
    requires ProgramOk(p) && MachineOk(p, m)
    requires sel.Named? || sel.InterfaceNamed? || sel.SuperNamed? || sel.Special? || sel.Static?
    ensures StateOk(p, InvokeStep(p, m, sel))
  {
    match Select(p, m, sel) {
      case Callee(callee, nargs) => EnterOk(p, m, callee, nargs);
      case NullReceiver => RaiseOk(p, m, p.nullPointer);
      case NoCallee =>
    }
  }

  lemma ReturnOk(p: Program, m: Machine, hasValue: bool)
    requires ProgramOk(p) && MachineOk(p, m)
    ensures StateOk(p, ReturnStep(p, m, hasValue))
  {
    var f := Last(m);
    if |m.frames| > 1 && !(hasValue && f.stack == []) {
      var rest := LeaveFrame(m);
      PrefixOk(p, m);
      GoOk(p, rest, NextPc(p, rest), Last(rest).stack + if hasValue then [f.stack[|f.stack| - 1]] else []);
    }
  }

  lemma FieldStepOk(p: Program, m: Machine, op: Op)
    requires ProgramOk(p) && MachineOk(p, m)
    ensures StateOk(p, FieldStep(p, m, op))
  {
    var r := FieldStep(p, m, op);
    RaiseOk(p, m, p.nullPointer);
    if r.Running? {
      assert FrameOk(p, Last(m));
    }
  }

  lemma LocalStepOk(p: Program, m: Machine, op: Op)
    requires ProgramOk(p) && MachineOk(p, m)
    requires (op.Store? || op.Inc?) && op.i == 0 && Last(m).m < |p.h.methods| ==> p.h.methods[Last(m).m].isStatic
    ensures StateOk(p, LocalStep(p, m, op))
  {
    var r := LocalStep(p, m, op);
    assert FrameOk(p, Last(m));
    if r.Running? {
      assert FrameOk(p, Last(r.m));
      SetLastOk(p, m, Last(r.m));
    }
  }

  lemma StackStepOk(p: Program, m: Machine, op: Op)
    requires ProgramOk(p) && MachineOk(p, m)
    ensures StateOk(p, StackStep(p, m, op))
  {
    var f := Last(m);
    var e := StackEffect(f, op, NextPc(p, m));
    if e.Some? {
      GoOk(p, m, e.value.next, f.stack[..|f.stack| - e.value.pops] + e.value.pushes);
    }
  }

  lemma AssignsLocalZero(p: Program, pc: int)
    requires ProgramOk(p) && pc in p.sites
    ensures var op := RefOp(p, pc); (op.Store? || op.Inc?) && op.i == 0 ==> StaticSite(p, pc)
  {
    assert SiteWellFormed(p, pc);
  }

  lemma RefOpKinds(p: Program, pc: int)
    requires ProgramOk(p) && pc in p.sites
    ensures var op := RefOp(p, pc);
            && !op.GetFieldThis?
            && (op.Invoke? ==> (op.sel.Named? || op.sel.InterfaceNamed? || op.sel.SuperNamed?
                                || op.sel.Special? || op.sel.Static?))
  {
  }

  /** Every step keeps the receivers and monitors of all frames. */
  lemma StepOk(p: Program, s: State)
    requires ProgramOk(p) && StateOk(p, s)
    ensures StateOk(p, Step(p, s))
  {
    if s.Running? && AtSite(p, s.m) {
      var op := RefOp(p, Last(s.m).pc);
      RefOpKinds(p, Last(s.m).pc);
      AssignsLocalZero(p, Last(s.m).pc);
      ExecOk(p, s.m, op);
    }
  }

  lemma ThrowOk(p: Program, m: Machine)
    requires ProgramOk(p) && MachineOk(p, m)
    ensures StateOk(p, ThrowStep(p, m))
  {
    RaiseOk(p, m, p.nullPointer);
    if Last(m).stack != [] {
      RaiseOk(p, m, Last(m).stack[|Last(m).stack| - 1]);
    }
  }

  lemma ExecOk(p: Program, m: Machine, op: Op)
    requires ProgramOk(p) && MachineOk(p, m)
    requires op.Invoke? ==> (op.sel.Named? || op.sel.InterfaceNamed? || op.sel.SuperNamed?
                             || op.sel.Special? || op.sel.Static?)
    requires (op.Store? || op.Inc?) && op.i == 0 && Last(m).m < |p.h.methods| ==> p.h.methods[Last(m).m].isStatic
    ensures StateOk(p, Exec(p, m, op))
  {
    if op.Invoke? {
      InvokeOk(p, m, op.sel);
    } else if op.Return? {
      ReturnOk(p, m, op.hasValue);
    } else if op.Throw? {
      ThrowOk(p, m);
    } else if op.Raise? {
      RaiseOk(p, m, op.exc);
    } else if IsFieldOp(op) {
      FieldStepOk(p, m, op);
    } else if op.Store? || op.Inc? {
      LocalStepOk(p, m, op);
    } else {
      StackStepOk(p, m, op);
    }
  }

  // ----- one operation -----

  /** A method that resolution found belongs to the class that its link data names. */
  lemma ResolvedIsOwned(p: Program, c: nat, i: nat)
    requires ProgramOk(p) && ResolveMethod(p, c, i).Some?
    ensures var n := ResolveMethod(p, c, i).value;
            && p.l.methods[n].owner < |p.h.classes| && OwnsMethod(p.h, p.l.methods[n].owner, n)
  {
    ProgramIsLinked(p);
    var e := Entry(p, c, i);
    assert EntryOk(p, e);
    var a := LookupOwner(p.h, e.cls.value, e.name, e.desc);
    assert MethodReady(p.h, p.l, a, ResolveMethod(p, c, i).value);
  }

  /** In a subclass d of n's class, n's slot holds what a search for n's signature finds, and that
      method takes as many arguments. */
  lemma SlotIsLookup(p: Program, n: nat, d: nat)
    requires ProgramOk(p) && n < |p.h.methods| && d < |p.h.classes| && Eligible(p.h.methods[n])
    requires p.l.methods[n].owner < |p.h.classes| && OwnsMethod(p.h, p.l.methods[n].owner, n)
    requires IsAncestor(p.h, p.l.methods[n].owner, d)
    ensures InTable(p, d, p.l.methods[n].tableIndex) == Lookup(p.h, d, p.h.methods[n].name, p.h.methods[n].desc)
    ensures InTable(p, d, p.l.methods[n].tableIndex).Some?
    ensures ArgsOf(p, InTable(p, d, p.l.methods[n].tableIndex).value) == ArgsOf(p, n)
  {
    ProgramIsLinked(p);
    var a := p.l.methods[n].owner;
    var name, desc := p.h.methods[n].name, p.h.methods[n].desc;
    FindOwn(p.h, a, n);
    DispatchAgrees(p.h, p.l, d);
    UseDispatch(p.h, p.l, a, d, name, desc);
    IndexIsInherited(p.h, p.l, a, d, name, desc);
    var r := Lookup(p.h, d, name, desc).value;
    var b := LookupOwner(p.h, d, name, desc);
    assert MethodReady(p.h, p.l, a, n) && MethodReady(p.h, p.l, b, r);
  }

  lemma NamedIsSlot(p: Program, m: Machine, n: nat)
    requires ProgramOk(p) && MachineOk(p, m) && n < |p.h.methods|
    requires p.l.methods[n].owner < |p.h.classes| ==> OwnsMethod(p.h, p.l.methods[n].owner, n)
    requires !Exec(p, m, Invoke(Named(n))).Stuck?
    ensures Exec(p, m, Invoke(Slot(p.l.methods[n].tableIndex, p.l.methods[n].argsCount)))
            == Exec(p, m, Invoke(Named(n)))
  {
    var nargs := ArgsOf(p, n);
    if Last(m).stack[|Last(m).stack| - nargs] != 0 {
      var d := ReceiverClass(p, m, nargs).value;
      SlotIsLookup(p, n, d);
    }
    assert Select(p, m, Named(n)) == Select(p, m, Slot(p.l.methods[n].tableIndex, nargs));
  }

  lemma SuperNamedIsSlot(p: Program, m: Machine, n: nat)
    requires ProgramOk(p) && MachineOk(p, m) && n < |p.h.methods|
    requires p.l.methods[n].owner < |p.h.classes| ==> OwnsMethod(p.h, p.l.methods[n].owner, n)
    requires Last(m).m < |p.h.methods| && p.l.methods[Last(m).m].owner < |p.h.classes|
    requires FromSuperclass(p, p.l.methods[Last(m).m].owner, n)
    requires !Exec(p, m, Invoke(SuperNamed(n))).Stuck?
    ensures Exec(p, m, Invoke(SuperSlot(p.l.methods[n].tableIndex))) == Exec(p, m, Invoke(SuperNamed(n)))
  {
    var s := Superclass(p, m).value;
    SlotIsLookup(p, n, s);
    assert Select(p, m, SuperNamed(n)) == Select(p, m, SuperSlot(p.l.methods[n].tableIndex));
  }

  // ----- invokevirtual -----

  /** The method that invokevirtual of instance method n runs for a receiver of class d (sections 6.5
      and 5.4.5 of the JVMS): a private method is not overridden. */
  function VirtualCallee(p: Program, d: nat, n: nat): Option<nat>
    requires ProgramOk(p) && d < |p.h.classes| && n < |p.h.methods|
  {
    if p.h.methods[n].isPrivate then Some(n) else Lookup(p.h, d, p.h.methods[n].name, p.h.methods[n].desc)
  }

  /** The table entry that invokevirtual_quick reads is that method if and only if n is not private. */
  lemma TableSlotExactlyForNonPrivate(p: Program, d: nat, n: nat)
    requires ProgramOk(p) && d < |p.h.classes| && n < |p.h.methods|
    requires !p.h.methods[n].isStatic && !(|p.h.methods[n].name| > 0 && p.h.methods[n].name[0] == '<')
    requires p.l.methods[n].owner < |p.h.classes| && OwnsMethod(p.h, p.l.methods[n].owner, n)
    requires IsAncestor(p.h, p.l.methods[n].owner, d)
    ensures InTable(p, d, p.l.methods[n].tableIndex) == VirtualCallee(p, d, n) <==> !p.h.methods[n].isPrivate
  {
    var k := p.l.methods[n].tableIndex;
    if !p.h.methods[n].isPrivate {
      SlotIsLookup(p, n, d);
    } else if InTable(p, d, k) == Some(n) {
      TableMethodIsInherited(p, d, k);
      assert false;
    }
  }

  // ----- invokespecial -----

  /** The method that invokespecial of method n runs in code of class c (section 6.5 of the JVMS),
      when C's own test takes it for a call of a superclass method. */
  function SpecialCallee(p: Program, c: nat, n: nat): Option<nat>
    requires ProgramOk(p) && c < |p.h.classes| && n < |p.h.methods|
  {
    assert WellFormedClass(p.h, c);
    if FromSuperclass(p, c, n) then Lookup(p.h, p.h.classes[c].super.value, p.h.methods[n].name, p.h.methods[n].desc)
    else Some(n)
  }

  /** invokesuper_quick runs that method if and only if n belongs to a superclass of c. */
  lemma SuperSlotExactlyForSuperclasses(p: Program, c: nat, n: nat)
    requires ProgramOk(p) && c < |p.h.classes| && n < |p.h.methods| && p.h.classes[c].super.Some?
    requires IsSuperCall(p, c, n) && Eligible(p.h.methods[n])
    requires p.l.methods[n].owner < |p.h.classes| && OwnsMethod(p.h, p.l.methods[n].owner, n)
    ensures var s := p.h.classes[c].super.value;
            && s < |p.h.classes|
            && (InTable(p, s, p.l.methods[n].tableIndex) == SpecialCallee(p, c, n) <==> FromSuperclass(p, c, n))
  {
    assert WellFormedClass(p.h, c);
    var s, k := p.h.classes[c].super.value, p.l.methods[n].tableIndex;
    if FromSuperclass(p, c, n) {
      SlotIsLookup(p, n, s);
    } else if InTable(p, s, k) == Some(n) {
      TableMethodIsInherited(p, s, k);
      assert false;
    }
  }

  /** A method in the table of class s is eligible and belongs to s or one of its superclasses. */
  lemma TableMethodIsInherited(p: Program, s: nat, k: nat)
    requires ProgramOk(p) && s < |p.h.classes| && k < |p.l.classes[s].table|
    ensures var n := p.l.classes[s].table[k];
            && n < |p.h.methods| && p.l.methods[n].owner < |p.h.classes|
            && IsAncestor(p.h, p.l.methods[n].owner, s) && Eligible(p.h.methods[n])
  {
    ProgramIsLinked(p);
    TablesAreSound(p.h, p.l, s);
    assert SlotSound(p.h, p.l, s, k);
    var n := p.l.classes[s].table[k];
    var a := LookupOwner(p.h, s, p.h.methods[n].name, p.h.methods[n].desc);
    assert MethodReady(p.h, p.l, a, n);
  }

  /** After aload_0 in an instance method the receiver is on the stack. */
  lemma LoadsReceiver(p: Program, m: Machine)
    requires ProgramOk(p) && MachineOk(p, m) && AtSite(p, m) && At(p.orig, Last(m).pc) == OPC_ALOAD_0
    requires !StaticSite(p, Last(m).pc)
    ensures Exec(p, m, RefOp(p, Last(m).pc)) == Go(m, Last(m).pc + 1, Last(m).stack + [Last(m).recv])
    ensures Last(m).recv != 0
  {
    assert FrameOk(p, Last(m));
    assert Last(m).stack[..|Last(m).stack| - 0] == Last(m).stack;
    assert SiteWellFormed(p, Last(m).pc);
  }

  lemma GetFieldOfReceiver(p: Program, m: Machine, offset: nat)
    requires ProgramOk(p) && m.frames != [] && Last(m).recv != 0
    requires At(p.orig, Last(m).pc + 1) == OPC_GETFIELD
    requires var one := SetLast(m, Last(m).(pc := Last(m).pc + 1, stack := Last(m).stack + [Last(m).recv]));
             !FieldStep(p, one, GetField(offset)).Stuck?
    ensures var one := SetLast(m, Last(m).(pc := Last(m).pc + 1, stack := Last(m).stack + [Last(m).recv]));
            FieldStep(p, one, GetField(offset)) == FieldStep(p, m, GetFieldThis(offset))
  {
    var one := SetLast(m, Last(m).(pc := Last(m).pc + 1, stack := Last(m).stack + [Last(m).recv]));
    assert Last(one).stack[..|Last(one).stack| - 1] == Last(m).stack;
    assert one.frames[..|one.frames| - 1] == m.frames[..|m.frames| - 1];
  }

  /** getfield_this does in one step what aload_0 and getfield do in two. */
  lemma FusedIsTwoSteps(p: Program, m: Machine, offset: nat)
    requires ProgramOk(p) && MachineOk(p, m) && AtSite(p, m)
    requires Matches(p, Last(m).pc, GetFieldThis(offset)) && RefOp(p, Last(m).pc) != GetFieldThis(offset)
    requires !Step(p, Step(p, Running(m))).Stuck?
    ensures Exec(p, m, GetFieldThis(offset)) == Step(p, Step(p, Running(m)))
  {
    LoadsReceiver(p, m);
    var one := SetLast(m, Last(m).(pc := Last(m).pc + 1, stack := Last(m).stack + [Last(m).recv]));
    assert Step(p, Running(m)) == Running(one);
    assert Last(one).pc == Last(m).pc + 1 && AtSite(p, one);
    assert Step(p, Running(one)) == FieldStep(p, one, GetField(offset));
    GetFieldOfReceiver(p, m, offset);
  }

  lemma MatchedInvoke(p: Program, m: Machine, op: Op)
    requires ProgramOk(p) && MachineOk(p, m) && AtSite(p, m) && Matches(p, Last(m).pc, op) && op.Invoke?
    requires !Exec(p, m, RefOp(p, Last(m).pc)).Stuck?
    ensures Exec(p, m, op) == Exec(p, m, RefOp(p, Last(m).pc))
  {
    hide Enter;
    hide RaiseIn;
    hide CanEnter;
    var r := RefOp(p, Last(m).pc);
    if op != r {
      assert SiteWellFormed(p, Last(m).pc);
      ResolvedIsOwned(p, SiteClass(p, Last(m).pc), Operand16(p.orig, Last(m).pc));
      if r.sel.Named? {
        NamedIsSlot(p, m, r.sel.m);
      } else {
        SuperNamedIsSlot(p, m, r.sel.m);
      }
    }
  }

  /** An operation that stands for the reference operation does what the reference machine does,
      in one step or, fused, in two. */
  lemma MatchedOp(p: Program, m: Machine, op: Op)
    requires ProgramOk(p) && MachineOk(p, m) && AtSite(p, m) && Matches(p, Last(m).pc, op)
    requires !Step(p, Step(p, Running(m))).Stuck?
    ensures || Exec(p, m, op) == Step(p, Running(m))
            || (op.GetFieldThis? && Exec(p, m, op) == Step(p, Step(p, Running(m))))
  {
    assert Step(p, Running(m)) == Exec(p, m, RefOp(p, Last(m).pc));
    assert !Step(p, Running(m)).Stuck?;
    RefOpKinds(p, Last(m).pc);
    if op.Invoke? {
      MatchedInvoke(p, m, op);
    } else if op.GetFieldThis? {
      FusedIsTwoSteps(p, m, op.offset);
    }
  }

  // ----- whole runs -----

  datatype Quick = Quick(state: State, code: seq<byte>, info: CpInfo)

  function QuickStep(p: Program, q: Quick): Quick
    requires ProgramOk(p)
  {
    if !q.state.Running? then q
    else if !AtSite(p, q.state.m) then q.(state := Stuck)
    else
      var r := Fetch(p, q.code, q.info, Last(q.state.m).pc);
      Quick(if r.op.Some? then Exec(p, q.state.m, r.op.value) else q.state, r.code, r.info)
  }

  function QuickRun(p: Program, q: Quick, n: nat): Quick
    requires ProgramOk(p)
    decreases n
  {
    if n == 0 then q else QuickRun(p, QuickStep(p, q), n - 1)
  }

  ghost predicate QuickOk(p: Program, q: Quick)
    requires ProgramOk(p)
  {
    QuickSafe(p) && StateOk(p, q.state) && CodeOk(p, q.code, q.info)
  }

  /** Dispatches still to come before the machine runs an operation. */
  function Pending(q: Quick): nat {
    if q.state.Running? && q.state.m.frames != [] then Rank(At(q.code, Last(q.state.m).pc)) else 0
  }

  /** One dispatch: either it only rewrites, and comes closer to running the instruction, or it
      advances the machine by one or two reference steps. */
  lemma QuickStepSimulates(p: Program, q: Quick, room: nat) returns (k: nat)
    requires ProgramOk(p) && QuickOk(p, q)
    requires room >= 2 && !Run(p, q.state, room).Stuck?
    ensures var q' := QuickStep(p, q);
            && QuickOk(p, q') && k <= 2 && q'.state == Run(p, q.state, k)
            && (k == 0 && q.state.Running? ==> Pending(q') < Pending(q))
            && (!q.state.Running? ==> q' == q)
  {
    var q' := QuickStep(p, q);
    StepOk(p, q.state);
    StepOk(p, Step(p, q.state));
    TwoSteps(p, q.state);
    if Step(p, Step(p, q.state)).Stuck? {
      StuckStays(p, q.state, 2, room);
    }
    k := 0;
    if q.state.Running? {
      var m := q.state.m;
      var r := Fetch(p, q.code, q.info, Last(m).pc);
      FetchIsOk(p, q.code, q.info, Last(m).pc);
      if r.op.Some? {
        MatchedOp(p, m, r.op.value);
        k := if Exec(p, m, r.op.value) == Step(p, q.state) then 1 else 2;
      }
    }
  }

  lemma TwoSteps(p: Program, s: State)
    requires ProgramOk(p)
    ensures Run(p, s, 1) == Step(p, s) && Run(p, s, 2) == Step(p, Step(p, s))
  {
    assert Run(p, s, 1) == Run(p, Step(p, s), 0);
    assert Run(p, s, 2) == Run(p, Step(p, s), 1);
  }

  lemma {:induction false} RunAdds(p: Program, s: State, a: nat, b: nat)
    requires ProgramOk(p)
    ensures Run(p, Run(p, s, a), b) == Run(p, s, a + b)
    decreases a
  {
    if a > 0 {
      RunAdds(p, Step(p, s), a - 1, b);
    }
  }

  /** A stuck machine stays stuck. */
  lemma {:induction false} StuckStays(p: Program, s: State, a: nat, b: nat)
    requires ProgramOk(p) && a <= b && Run(p, s, a).Stuck?
    ensures Run(p, s, b).Stuck?
    decreases a, b
  {
    if a > 0 {
      StuckStays(p, Step(p, s), a - 1, b - 1);
    } else if b > 0 {
      StuckStays(p, s, 0, b - 1);
    }
  }

  /** The rest of a run, after j steps that one dispatch accounts for, has not become stuck. */
  lemma RestOfRun(p: Program, s: State, j: nat, n: nat)
    requires ProgramOk(p) && j <= 2 && 0 < n && !Run(p, s, 2 * n + 2).Stuck?
    ensures !Run(p, Run(p, s, j), 2 * (n - 1) + 2).Stuck?
  {
    RunAdds(p, s, j, 2 * n);
    if Run(p, s, j + 2 * n).Stuck? {
      StuckStays(p, s, j + 2 * n, 2 * n + 2);
    }
  }

  /** n dispatches of the self-rewriting machine end in a state that the reference machine reaches
      too, in k steps, n - 2 <= 3k and k <= 2n: rewriting changes no result and cannot go on
      forever without running instructions. */
  lemma {:induction false} QuickRunSimulates(p: Program, q: Quick, n: nat) returns (k: nat)
    requires ProgramOk(p) && QuickOk(p, q)
    requires !Run(p, q.state, 2 * n + 2).Stuck?
    ensures k <= 2 * n
    ensures QuickOk(p, QuickRun(p, q, n)) && QuickRun(p, q, n).state == Run(p, q.state, k)
    ensures !q.state.Running? ==> QuickRun(p, q, n) == q
    ensures QuickRun(p, q, n).state.Running? ==> n <= 3 * k + Pending(q) - Pending(QuickRun(p, q, n))
    decreases n
  {
    if n == 0 {
      k := 0;
    } else {
      var j := QuickStepSimulates(p, q, 2 * n + 2);
      RestOfRun(p, q.state, j, n);
      var i := QuickRunSimulates(p, QuickStep(p, q), n - 1);
      RunAdds(p, q.state, j, i);
      k := j + i;
    }
  }
}
