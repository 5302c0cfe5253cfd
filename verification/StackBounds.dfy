/**
 How much of the Java stack a run needs.

 invokeMethod tests only that the callee's frame begins below stack_end (interp.c:1546-1551); its struct
 and its operand stack lie beyond. The code's operand-stack depths, as class-file verification checks them
 (section 4.10 of the JVMS), bound the rest: if each instruction is always reached with the same depth, and
 that is at most the method's max_stack, no frame reaches further than two frame structs and the largest
 max_stack beyond stack_end, which every overflow raises by 1024 bytes.
 */
module StackBounds {
  import opened Common
  import opened Hierarchy
  import opened Linking
  import opened Bytecode
  import opened Reference
  import opened Simulation
  import opened FlatStack
  import opened Interpreter

  /** The operand-stack depth before each instruction. */
  type Depths = map<int, nat>

  /** Whether calls of the method leave a result: its descriptor does not end in V. */
  predicate Gives(p: Program, m: nat) {
    m < |p.h.methods| && p.h.methods[m].desc != ""
    && p.h.methods[m].desc[|p.h.methods[m].desc| - 1] != 'V'
  }

  function MaxStack(p: Program, m: nat): nat {
    if m < |p.l.methods| then p.l.methods[m].maxStack else 0
  }

  /** The method that an invoke instruction names. */
  function NamedBy(sel: Selector): nat {
    match sel
    case Named(n) => n
    case InterfaceNamed(n) => n
    case SuperNamed(n) => n
    case Special(n) => n
    case Static(n) => n
    case _ => 0
  }

  predicate ByTable(op: Op) {
    op.Invoke? && (op.sel.Slot? || op.sel.SuperSlot?)
  }

  function Pops(p: Program, op: Op): nat
    requires Sized(p.h, p.l)
  {
    match op
    case Nop | Push(_) | Load(_) | Inc(_, _) | Goto(_) | GetStatic(_) | GetFieldThis(_) | Raise(_) | Undefined => 0
    case Store(_) | Pop | Dup | If(_, _) | GetField(_) | PutStatic(_) | Throw => 1
    case Swap | Binary(_) | IfCmp(_, _) | PutField(_) => 2
    case Invoke(sel) => ArgsOf(p, NamedBy(sel))
    case Return(hasValue) => if hasValue then 1 else 0
  }

  function Pushes(p: Program, op: Op): nat {
    match op
    case Push(_) | Load(_) | GetStatic(_) | GetField(_) | GetFieldThis(_) | Binary(_) => 1
    case Dup | Swap => 2
    case Invoke(sel) => if Gives(p, NamedBy(sel)) then 1 else 0
    case _ => 0
  }

  /** Where control may go on. */
  predicate LeadsTo(op: Op, next: int, t: int) {
    match op
    case If(_, target) => t == target || t == next
    case IfCmp(_, target) => t == target || t == next
    case Goto(target) => t == target
    case Return(_) | Throw | Raise(_) | Undefined => false
    case _ => t == next
  }

  /** The method has an instruction at pc, which is reached with d words on the operand stack. */
  predicate Reached(p: Program, depth: Depths, m: nat, pc: int, d: nat) {
    pc in p.sites && p.sites[pc] == m && pc in depth && depth[pc] == d <= MaxStack(p, m)
  }

  ghost predicate EdgesOk(p: Program, depth: Depths, m: nat, op: Op, next: int, d: nat) {
    forall t | LeadsTo(op, next, t) :: Reached(p, depth, m, t, d)
  }

  ghost predicate SiteDepthOk(p: Program, depth: Depths, s: int)
    requires ProgramOk(p) && s in p.sites
  {
    var op, m := RefOp(p, s), p.sites[s];
    && s in depth && Pops(p, op) <= depth[s] <= MaxStack(p, m)
    && (op.Return? ==> op.hasValue == Gives(p, m))
    && EdgesOk(p, depth, m, op, s + Length(At(p.orig, s)), depth[s] - Pops(p, op) + Pushes(p, op))
  }

  ghost predicate MethodDepthOk(p: Program, depth: Depths, m: nat)
    requires m < |p.bodies| && m < |p.h.methods|
  {
    && (!p.h.methods[m].isNative ==> Reached(p, depth, m, p.bodies[m].entry, 0))
    && forall e | e in p.bodies[m].handlers :: Reached(p, depth, m, p.bodies[m].entry + e.handlerPc, 1)
  }

  predicate ResultFits(p: Program, m: nat, r: NativeResult) {
    (r.NativeValue? ==> Gives(p, m)) && (r.NativeVoid? ==> !Gives(p, m))
  }

  /** The depths check: along every edge, at entries and handlers, and against max_stack. */
  ghost predicate DepthsOk(p: Program, depth: Depths)
    requires ProgramOk(p)
  {
    && (forall s | s in p.sites :: SiteDepthOk(p, depth, s))
    && (forall m: nat | m < |p.h.methods| :: MethodDepthOk(p, depth, m))
    && (forall m: nat, args: seq<Word> :: ResultFits(p, m, p.native(m, args)))
  }

  // ----- the frames of a running machine -----

  /** A frame that is running has the depth of its instruction. */
  predicate TopDepth(p: Program, depth: Depths, f: Frame) {
    Reached(p, depth, f.m, f.pc, |f.stack|)
  }

  /** A frame that has called method m is at the invoke, without the arguments. */
  ghost predicate CallerDepth(p: Program, depth: Depths, f: Frame, m: nat)
    requires ProgramOk(p)
  {
    && f.pc in p.sites && p.sites[f.pc] == f.m && f.pc in depth
    && RefOp(p, f.pc).Invoke?
    && var n := NamedBy(RefOp(p, f.pc).sel);
       |f.stack| + ArgsOf(p, n) == depth[f.pc] && Gives(p, m) == Gives(p, n)
  }

  ghost predicate CallersDepth(p: Program, depth: Depths, frames: seq<Frame>)
    requires ProgramOk(p)
  {
    forall i: nat {:trigger frames[i]} | i + 1 < |frames| :: CallerDepth(p, depth, frames[i], frames[i + 1].m)
  }

  /** Every frame but the first began below stack_end when it was called. */
  ghost predicate Begun(frames: seq<Frame>, base: nat, stackEnd: int) {
    forall i: nat {:trigger frames[..i]} | 0 < i < |frames| ::
      TopAddress(base, frames[..i]) + |frames[i].locals| <= stackEnd
  }

  ghost predicate Stacked(p: Program, depth: Depths, m: Machine)
    requires ProgramOk(p)
  {
    m.frames != [] && CallersDepth(p, depth, m.frames) && Begun(m.frames, m.base, m.stackEnd)
  }

  ghost predicate Bounded(p: Program, depth: Depths, m: Machine)
    requires ProgramOk(p)
  {
    Stacked(p, depth, m) && TopDepth(p, depth, Last(m))
  }

  /** What a step from m keeps, if the machine goes on. */
  ghost predicate Keeps(p: Program, depth: Depths, m: Machine, s: State)
    requires ProgramOk(p) && m.frames != []
  {
    s.Running? ==>
      && Bounded(p, depth, s.m) && s.m.base == m.base
      && |s.m.frames[0].locals| == |m.frames[0].locals|
  }

  /** Frame k is another frame of its method, and those above it are gone. */
  predicate Cut(frames: seq<Frame>, k: nat, frames': seq<Frame>) {
    && k < |frames| && |frames'| == k + 1 && frames'[..k] == frames[..k]
    && frames'[k].m == frames[k].m && |frames'[k].locals| == |frames[k].locals|
  }

  lemma CutCallers(p: Program, depth: Depths, frames: seq<Frame>, k: nat, frames': seq<Frame>)
    requires ProgramOk(p) && CallersDepth(p, depth, frames) && Cut(frames, k, frames')
    ensures CallersDepth(p, depth, frames')
  {
    hide ProgramOk;
    hide CallerDepth;
    forall i: nat | i + 1 < |frames'| ensures CallerDepth(p, depth, frames'[i], frames'[i + 1].m) {
      assert frames'[i] == frames'[..k][i] == frames[i];
      assert i + 1 < k ==> frames'[i + 1] == frames'[..k][i + 1];
      assert CallerDepth(p, depth, frames[i], frames[i + 1].m);
    }
  }

  lemma CutBegun(frames: seq<Frame>, k: nat, frames': seq<Frame>, base: nat, stackEnd: int, stackEnd': int)
    requires Begun(frames, base, stackEnd) && Cut(frames, k, frames') && stackEnd <= stackEnd'
    ensures Begun(frames', base, stackEnd') && |frames'[0].locals| == |frames[0].locals|
  {
    hide TopAddress;
    forall i: nat | 0 < i < |frames'| ensures TopAddress(base, frames'[..i]) + |frames'[i].locals| <= stackEnd' {
      assert frames'[..i] == frames'[..k][..i] == frames[..i];
      assert i < k ==> frames'[i] == frames'[..k][i];
    }
    assert k > 0 ==> frames'[0] == frames'[..k][0];
  }

  lemma CutStacked(p: Program, depth: Depths, m: Machine, k: nat, m': Machine)
    requires ProgramOk(p) && Stacked(p, depth, m) && Cut(m.frames, k, m'.frames)
    requires m'.base == m.base && m'.stackEnd >= m.stackEnd
    ensures Stacked(p, depth, m') && |m'.frames[0].locals| == |m.frames[0].locals|
  {
    hide ProgramOk;
    hide CallersDepth;
    hide Begun;
    CutCallers(p, depth, m.frames, k, m'.frames);
    CutBegun(m.frames, k, m'.frames, m.base, m.stackEnd, m'.stackEnd);
  }

  /** Frame k goes on, and those above it are gone. */
  lemma CutKeeps(p: Program, depth: Depths, m: Machine, k: nat, m': Machine)
    requires ProgramOk(p) && Stacked(p, depth, m) && k < |m.frames| && m'.frames != []
    requires m'.frames == m.frames[..k] + [Last(m')] && m'.base == m.base && m'.stackEnd >= m.stackEnd
    requires Last(m').m == m.frames[k].m && |Last(m').locals| == |m.frames[k].locals| && TopDepth(p, depth, Last(m'))
    ensures Keeps(p, depth, m, Running(m'))
  {
    hide ProgramOk;
    hide Stacked;
    hide TopDepth;
    CutStacked(p, depth, m, k, m');
  }

  lemma {:induction false} HandlerIsOne(p: Program, b: Body, pc: int, cls: nat, i: nat)
    requires WellFormed(p.h) && cls < |p.h.classes| && i <= |b.handlers|
    ensures var r := FindHandler(p, b, pc, cls, i);
            r.Some? ==> exists e | e in b.handlers :: r.value == b.entry + e.handlerPc
    decreases |b.handlers| - i
  {
    hide Catches;
    if i < |b.handlers| {
      assert b.handlers[i] in b.handlers;
      HandlerIsOne(p, b, pc, cls, i + 1);
    }
  }

  lemma StackedBelow(p: Program, depth: Depths, m: Machine)
    requires ProgramOk(p) && Stacked(p, depth, m) && |m.frames| > 1
    ensures var rest := LeaveFrame(m);
            && Stacked(p, depth, rest) && rest.base == m.base && rest.stackEnd == m.stackEnd
            && rest.frames == Below(m.frames) && |rest.frames[0].locals| == |m.frames[0].locals|
  {
    hide ProgramOk;
    hide Stacked;
    CutStacked(p, depth, m, |m.frames| - 2, LeaveFrame(m));
  }

  lemma {:induction false} UnwindKeeps(p: Program, depth: Depths, m: Machine, exc: Word, cls: nat)
    requires ProgramOk(p) && DepthsOk(p, depth) && Stacked(p, depth, m) && cls < |p.h.classes|
    ensures Keeps(p, depth, m, Unwind(p, m, exc, cls))
    decreases |m.frames|
  {
    hide ProgramOk;
    hide Stacked;
    hide Bounded;
    hide DepthsOk;
    hide FindHandler;
    NotEmpty(p, depth, m);
    var f := Last(m);
    if f.m < |p.bodies| {
      var handler := HandlerOf(p, f, cls);
      if handler.Some? {
        HandlerDepth(p, depth, f, cls);
        var m' := Go(m, handler.value, [exc]).m;
        assert Last(m').stack == [exc];
        CutKeeps(p, depth, m, |m.frames| - 1, m');
      } else if |m.frames| > 1 {
        StackedBelow(p, depth, m);
        UnwindKeeps(p, depth, LeaveFrame(m), exc, cls);
      }
    }
  }

  lemma NotEmpty(p: Program, depth: Depths, m: Machine)
    requires ProgramOk(p) && Stacked(p, depth, m)
    ensures m.frames != [] && WellFormed(p.h) && Sized(p.h, p.l) && |p.bodies| == |p.h.methods|
  {
  }

  function HandlerOf(p: Program, f: Frame, cls: nat): Option<int>
    requires WellFormed(p.h) && cls < |p.h.classes| && f.m < |p.bodies|
  {
    FindHandler(p, p.bodies[f.m], f.pc, cls, 0)
  }

  lemma HandlerDepth(p: Program, depth: Depths, f: Frame, cls: nat)
    requires ProgramOk(p) && DepthsOk(p, depth) && cls < |p.h.classes| && f.m < |p.bodies|
    ensures HandlerOf(p, f, cls).Some? ==> Reached(p, depth, f.m, HandlerOf(p, f, cls).value, 1)
  {
    HandlerIsOne(p, p.bodies[f.m], f.pc, cls, 0);
    assert MethodDepthOk(p, depth, f.m);
  }

  lemma RaiseKeeps(p: Program, depth: Depths, m: Machine, exc: Word)
    requires ProgramOk(p) && DepthsOk(p, depth) && Stacked(p, depth, m)
    ensures Keeps(p, depth, m, RaiseIn(p, m, exc))
  {
    hide Unwind;
    hide DepthsOk;
    hide Stacked;
    hide Bounded;
    hide ProgramOk;
    if exc != 0 && exc in m.heap && m.heap[exc].cls < |p.h.classes| {
      UnwindKeeps(p, depth, m, exc, m.heap[exc].cls);
    }
  }

  // ----- instructions other than calls and returns -----

  /** The instruction takes and leaves as many words as the depths check says, unless it raises. */
  ghost predicate Shaped(p: Program, m: Machine, op: Op, s: State)
    requires Sized(p.h, p.l) && m.frames != []
  {
    s.Running? ==>
      && s.m.frames != [] && s.m.frames == Below(m.frames) + [Last(s.m)]
      && s.m.base == m.base && s.m.stackEnd == m.stackEnd
      && Last(s.m).m == Last(m).m && |Last(s.m).locals| == |Last(m).locals|
      && LeadsTo(op, Last(m).pc + Length(At(p.orig, Last(m).pc)), Last(s.m).pc)
      && |Last(s.m).stack| == |Last(m).stack| - Pops(p, op) + Pushes(p, op)
  }

  lemma StackStepShaped(p: Program, m: Machine, op: Op)
    requires ProgramOk(p) && m.frames != [] && !op.Invoke? && !op.Return?
    ensures Shaped(p, m, op, StackStep(p, m, op))
  {
    hide ProgramOk;
  }

  lemma LocalStepShaped(p: Program, m: Machine, op: Op)
    requires ProgramOk(p) && m.frames != [] && !op.Invoke? && !op.Return?
    ensures Shaped(p, m, op, LocalStep(p, m, op))
  {
    hide ProgramOk;
  }

  predicate Faults(m: Machine, op: Op)
    requires m.frames != []
  {
    var s := Last(m).stack;
    || (op.GetField? && s != [] && s[|s| - 1] == 0)
    || (op.PutField? && |s| > 1 && s[|s| - 2] == 0)
  }

  lemma FieldStepShaped(p: Program, m: Machine, op: Op)
    requires ProgramOk(p) && m.frames != [] && IsFieldOp(op) && !op.GetFieldThis?
    ensures Faults(m, op) ==> FieldStep(p, m, op) == RaiseIn(p, m, p.nullPointer)
    ensures !Faults(m, op) ==> Shaped(p, m, op, FieldStep(p, m, op))
  {
    hide ProgramOk;
    hide RaiseIn;
  }

  /** The depth at the next instruction, by the check. */
  lemma ShapedKeeps(p: Program, depth: Depths, m: Machine, s: State)
    requires ProgramOk(p) && DepthsOk(p, depth) && Bounded(p, depth, m) && AtSite(p, m)
    requires Shaped(p, m, RefOp(p, Last(m).pc), s)
    ensures Keeps(p, depth, m, s)
  {
    hide ProgramOk;
    hide Stacked;
    hide Keeps;
    hide RefOp;
    hide Pops;
    hide Pushes;
    hide LeadsTo;
    assert SiteDepthOk(p, depth, Last(m).pc);
    if s.Running? {
      CutKeeps(p, depth, m, |m.frames| - 1, s.m);
    } else {
      KeepsFinal(p, depth, m, s);
    }
  }

  lemma KeepsFinal(p: Program, depth: Depths, m: Machine, s: State)
    requires ProgramOk(p) && m.frames != [] && !s.Running?
    ensures Keeps(p, depth, m, s)
  {
  }

  lemma PlainKeeps(p: Program, depth: Depths, m: Machine)
    requires ProgramOk(p) && DepthsOk(p, depth) && Bounded(p, depth, m) && AtSite(p, m)
    requires !RefOp(p, Last(m).pc).Invoke? && !RefOp(p, Last(m).pc).Return? && !RefOp(p, Last(m).pc).GetFieldThis?
    ensures Keeps(p, depth, m, Exec(p, m, RefOp(p, Last(m).pc)))
  {
    hide ProgramOk;
    hide DepthsOk;
    hide Stacked;
    hide Keeps;
    hide RefOp;
    hide RaiseIn;
    hide Shaped;
    hide FieldStep;
    hide LocalStep;
    hide StackStep;
    var op := RefOp(p, Last(m).pc);
    var s := Exec(p, m, op);
    if op.Throw? {
      ThrowKeeps(p, depth, m);
    } else if op.Raise? {
      RaiseKeeps(p, depth, m, op.exc);
    } else if IsFieldOp(op) {
      FieldStepShaped(p, m, op);
      if Faults(m, op) {
        RaiseKeeps(p, depth, m, p.nullPointer);
      } else {
        ShapedKeeps(p, depth, m, s);
      }
    } else {
      LocalStepShaped(p, m, op);
      StackStepShaped(p, m, op);
      ShapedKeeps(p, depth, m, s);
    }
  }

  lemma ThrowKeeps(p: Program, depth: Depths, m: Machine)
    requires ProgramOk(p) && DepthsOk(p, depth) && Bounded(p, depth, m)
    ensures Keeps(p, depth, m, ThrowStep(p, m))
  {
    hide ProgramOk;
    hide DepthsOk;
    hide Stacked;
    hide Keeps;
    hide RaiseIn;
    NotEmpty(p, depth, m);
    var s := Last(m).stack;
    if s == [] {
      KeepsFinal(p, depth, m, Stuck);
    } else {
      RaiseKeeps(p, depth, m, if s[|s| - 1] == 0 then p.nullPointer else s[|s| - 1]);
    }
  }

  // ----- returns -----

  lemma ReturnKeeps(p: Program, depth: Depths, m: Machine, hasValue: bool)
    requires ProgramOk(p) && DepthsOk(p, depth) && Bounded(p, depth, m) && AtSite(p, m)
    requires RefOp(p, Last(m).pc) == Return(hasValue)
    ensures Keeps(p, depth, m, ReturnStep(p, m, hasValue))
  {
    hide ProgramOk;
    hide Stacked;
    hide Bounded;
    hide Keeps;
    hide RefOp;
    var s := ReturnStep(p, m, hasValue);
    if s.Running? {
      ReturnDepth(p, depth, m, hasValue);
      CutKeeps(p, depth, m, |m.frames| - 2, s.m);
    } else {
      KeepsFinal(p, depth, m, s);
    }
  }

  /** After a call of m that leaves `value`, the caller has the depth of the next instruction. */
  lemma CallerReturns(p: Program, depth: Depths, f: Frame, m: nat, value: seq<Word>)
    requires ProgramOk(p) && DepthsOk(p, depth) && CallerDepth(p, depth, f, m)
    requires |value| == if Gives(p, m) then 1 else 0
    ensures TopDepth(p, depth, f.(pc := f.pc + Length(At(p.orig, f.pc)), stack := f.stack + value))
  {
    hide ProgramOk;
    assert SiteDepthOk(p, depth, f.pc);
    hide RefOp;
    hide DepthsOk;
    assert LeadsTo(RefOp(p, f.pc), f.pc + Length(At(p.orig, f.pc)), f.pc + Length(At(p.orig, f.pc)));
  }

  lemma GivesAtReturn(p: Program, depth: Depths, m: Machine, hasValue: bool)
    requires ProgramOk(p) && DepthsOk(p, depth) && AtSite(p, m) && RefOp(p, Last(m).pc) == Return(hasValue)
    ensures hasValue == Gives(p, Last(m).m)
  {
    hide ProgramOk;
    assert SiteDepthOk(p, depth, Last(m).pc);
    hide RefOp;
  }

  lemma ReturnShape(p: Program, m: Machine, hasValue: bool)
    requires ProgramOk(p) && m.frames != [] && ReturnStep(p, m, hasValue).Running?
    ensures |m.frames| > 1
    ensures var s, g := ReturnStep(p, m, hasValue), m.frames[|m.frames| - 2];
            && s.m.base == m.base && s.m.stackEnd == m.stackEnd && s.m.frames != []
            && s.m.frames == m.frames[..|m.frames| - 2] + [Last(s.m)]
            && Last(s.m).stack[..|g.stack|] == g.stack && |Last(s.m).stack| == |g.stack| + (if hasValue then 1 else 0)
            && Last(s.m) == g.(pc := g.pc + Length(At(p.orig, g.pc)), stack := Last(s.m).stack)
  {
    hide ProgramOk;
  }

  lemma ReturnDepth(p: Program, depth: Depths, m: Machine, hasValue: bool)
    requires ProgramOk(p) && DepthsOk(p, depth) && Bounded(p, depth, m) && AtSite(p, m)
    requires RefOp(p, Last(m).pc) == Return(hasValue) && ReturnStep(p, m, hasValue).Running?
    ensures var s, k := ReturnStep(p, m, hasValue), |m.frames| - 2;
            && k >= 0 && Stacked(p, depth, m) && s.m.frames != [] && s.m.frames == m.frames[..k] + [Last(s.m)]
            && s.m.base == m.base && s.m.stackEnd == m.stackEnd
            && Last(s.m).m == m.frames[k].m && |Last(s.m).locals| == |m.frames[k].locals|
            && TopDepth(p, depth, Last(s.m))
  {
    hide ProgramOk;
    hide DepthsOk;
    hide Begun;
    hide RefOp;
    hide ReturnStep;
    hide CallerDepth;
    hide TopDepth;
    ReturnShape(p, m, hasValue);
    GivesAtReturn(p, depth, m, hasValue);
    var k, f := |m.frames| - 2, Last(ReturnStep(p, m, hasValue).m);
    assert CallerDepth(p, depth, m.frames[k], m.frames[k + 1].m);
    CallerReturns(p, depth, m.frames[k], Last(m).m, f.stack[|m.frames[k].stack|..]);
    assert f.stack == m.frames[k].stack + f.stack[|m.frames[k].stack|..];
  }

  // ----- calls -----

  /** What a call has selected: a method with the descriptor of the one named, and its arguments. */
  lemma Selected(p: Program, m: Machine, sel: Selector)
    requires ProgramOk(p) && m.frames != [] && !sel.Slot? && !sel.SuperSlot? && Select(p, m, sel).Callee?
    ensures var r := Select(p, m, sel);
            && r.m < |p.h.methods| && r.nargs == ArgsOf(p, NamedBy(sel)) && Gives(p, r.m) == Gives(p, NamedBy(sel))
  {
    hide ProgramOk;
    hide IsAncestor;
    hide Eligible;
    hide Superclass;
  }

  /** The invoke of method m runs callee. */
  predicate Runs(p: Program, depth: Depths, m: Machine, callee: nat, nargs: nat)
    requires ProgramOk(p)
  {
    && AtSite(p, m) && RefOp(p, Last(m).pc).Invoke? && callee < |p.h.methods| && nargs <= |Last(m).stack|
    && var n := NamedBy(RefOp(p, Last(m).pc).sel);
       nargs == ArgsOf(p, n) && Gives(p, callee) == Gives(p, n)
  }

  /** Without its arguments, the calling frame waits for the callee. */
  lemma CallerPopped(p: Program, depth: Depths, m: Machine, callee: nat, nargs: nat)
    requires ProgramOk(p) && Bounded(p, depth, m) && Runs(p, depth, m, callee, nargs)
    ensures var f := Last(PopArgs(m, nargs));
            && CallerDepth(p, depth, f, callee) && f.pc == Last(m).pc && f.m == Last(m).m && f.locals == Last(m).locals
    ensures PopArgs(m, nargs).frames == Below(m.frames) + [Last(PopArgs(m, nargs))]
    ensures PopArgs(m, nargs).base == m.base && PopArgs(m, nargs).stackEnd == m.stackEnd
  {
    hide ProgramOk;
    hide Stacked;
    hide RefOp;
  }

  /** The machine with another top frame of the same method. */
  lemma RetopStacked(p: Program, depth: Depths, m: Machine, m': Machine)
    requires ProgramOk(p) && Stacked(p, depth, m) && m'.frames != [] && m'.frames == Below(m.frames) + [Last(m')]
    requires Last(m').m == Last(m).m && |Last(m').locals| == |Last(m).locals|
    requires m'.base == m.base && m'.stackEnd >= m.stackEnd
    ensures Stacked(p, depth, m') && |m'.frames[0].locals| == |m.frames[0].locals|
  {
    hide ProgramOk;
    hide CallersDepth;
    hide Begun;
    CutStacked(p, depth, m, |m.frames| - 1, m');
  }

  lemma KeepsFrom(p: Program, depth: Depths, m: Machine, m': Machine, s: State)
    requires ProgramOk(p) && m.frames != [] && m'.frames != [] && Keeps(p, depth, m', s)
    requires m'.base == m.base && |m'.frames[0].locals| == |m.frames[0].locals|
    ensures Keeps(p, depth, m, s)
  {
    hide Bounded;
  }

  lemma NativeKeeps(p: Program, depth: Depths, m: Machine, m': Machine, callee: nat, r: NativeResult)
    requires ProgramOk(p) && DepthsOk(p, depth) && Stacked(p, depth, m) && ResultFits(p, callee, r)
    requires m'.frames != [] && m'.frames == Below(m.frames) + [Last(m')] && CallerDepth(p, depth, Last(m'), callee)
    requires Last(m').m == Last(m).m && |Last(m').locals| == |Last(m).locals|
    requires m'.base == m.base && m'.stackEnd == m.stackEnd
    ensures Keeps(p, depth, m, AfterNative(p, m', NextPc(p, m'), r))
  {
    hide ProgramOk;
    hide DepthsOk;
    hide Stacked;
    hide Keeps;
    hide CallerDepth;
    hide TopDepth;
    hide RaiseIn;
    hide Gives;
    NotEmpty(p, depth, m);
    RetopStacked(p, depth, m, m');
    if r.NativeThrow? {
      RaiseKeeps(p, depth, m', r.exc);
      KeepsFrom(p, depth, m, m', RaiseIn(p, m', r.exc));
    } else {
      var value := if r.NativeValue? then [r.w] else [];
      CallerReturns(p, depth, Last(m'), callee, value);
      var s := AfterNative(p, m', NextPc(p, m'), r);
      assert Last(m').stack + [] == Last(m').stack;
      assert s == Go(m', NextPc(p, m'), Last(m').stack + value);
      assert s.m.frames == m.frames[..|m.frames| - 1] + [Last(s.m)];
      CutKeeps(p, depth, m, |m.frames| - 1, s.m);
    }
  }

  lemma PushKeeps(p: Program, depth: Depths, m: Machine, m': Machine, callee: nat, args: seq<Word>)
    requires ProgramOk(p) && DepthsOk(p, depth) && Stacked(p, depth, m) && CallerDepth(p, depth, Last(m), callee)
    requires callee < |p.h.methods| && !p.h.methods[callee].isNative && |args| <= p.l.methods[callee].maxLocals
    requires m'.frames == m.frames + [NewFrame(p, callee, args)] && m'.base == m.base && m'.stackEnd == m.stackEnd
    requires TopAddress(m.base, m.frames) + p.l.methods[callee].maxLocals <= m.stackEnd
    ensures Keeps(p, depth, m, Running(m'))
  {
    hide ProgramOk;
    hide CallerDepth;
    hide TopAddress;
    NotEmpty(p, depth, m);
    assert MethodDepthOk(p, depth, callee);
    var f := NewFrame(p, callee, args);
    assert f.m == callee && |f.locals| == p.l.methods[callee].maxLocals && TopDepth(p, depth, f);
    hide NewFrame;
    hide DepthsOk;
    hide TopDepth;
    forall i: nat | i + 1 < |m'.frames| ensures CallerDepth(p, depth, m'.frames[i], m'.frames[i + 1].m) {
      assert m'.frames[i] == m.frames[i];
    }
    forall i: nat | 0 < i < |m'.frames|
      ensures TopAddress(m'.base, m'.frames[..i]) + |m'.frames[i].locals| <= m'.stackEnd
    {
      if i < |m.frames| {
        assert m'.frames[..i] == m.frames[..i];
      } else {
        assert m'.frames[..i] == m.frames;
      }
    }
  }

  lemma EnterKeeps(p: Program, depth: Depths, m: Machine, callee: nat, nargs: nat)
    requires ProgramOk(p) && DepthsOk(p, depth) && Bounded(p, depth, m) && Runs(p, depth, m, callee, nargs)
    ensures Keeps(p, depth, m, Enter(p, m, callee, nargs))
  {
    hide ProgramOk;
    hide DepthsOk;
    hide Stacked;
    hide Keeps;
    hide CallerDepth;
    hide TopDepth;
    hide TopAddress;
    hide RaiseIn;
    hide AfterNative;
    hide NewFrame;
    hide SyncObject;
    hide Gives;
    hide RefOp;
    NotEmpty(p, depth, m);
    var s, popped := Enter(p, m, callee, nargs), PopArgs(m, nargs);
    if !CanEnter(p, m, callee, nargs) {
      KeepsFinal(p, depth, m, s);
    } else if TopAddress(m.base, popped.frames) + p.l.methods[callee].maxLocals > m.stackEnd {
      var raised := m.(stackEnd := m.stackEnd + 256);
      assert raised.frames == Below(m.frames) + [Last(raised)];
      RetopStacked(p, depth, m, raised);
      RaiseKeeps(p, depth, raised, p.stackOverflow);
      KeepsFrom(p, depth, m, raised, s);
    } else {
      CallerPopped(p, depth, m, callee, nargs);
      RetopStacked(p, depth, m, popped);
      var args := Last(m).stack[|Last(m).stack| - nargs..];
      var locked := Locked(popped, SyncObject(p, callee, args));
      if p.h.methods[callee].isNative {
        var released := Released(locked, SyncObject(p, callee, args));
        NativeIsOk(p, depth, callee, args);
        NativeKeeps(p, depth, m, released, callee, p.native(callee, args));
      } else {
        PushKeeps(p, depth, popped, s.m, callee, args);
        KeepsFrom(p, depth, m, popped, s);
      }
    }
  }

  lemma NativeIsOk(p: Program, depth: Depths, callee: nat, args: seq<Word>)
    requires ProgramOk(p) && DepthsOk(p, depth)
    ensures ResultFits(p, callee, p.native(callee, args))
  {
  }

  lemma InvokeKeeps(p: Program, depth: Depths, m: Machine, sel: Selector)
    requires ProgramOk(p) && DepthsOk(p, depth) && Bounded(p, depth, m) && AtSite(p, m)
    requires RefOp(p, Last(m).pc) == Invoke(sel) && !sel.Slot? && !sel.SuperSlot?
    ensures Keeps(p, depth, m, InvokeStep(p, m, sel))
  {
    hide ProgramOk;
    hide DepthsOk;
    hide Stacked;
    hide Keeps;
    hide Enter;
    hide RaiseIn;
    hide Select;
    hide RefOp;
    NotEmpty(p, depth, m);
    match Select(p, m, sel) {
      case Callee(callee, nargs) =>
        Selected(p, m, sel);
        if nargs <= |Last(m).stack| {
          EnterKeeps(p, depth, m, callee, nargs);
        } else {
          assert Enter(p, m, callee, nargs) == Stuck by {
            EnterTooFew(p, m, callee, nargs);
          }
          KeepsFinal(p, depth, m, Stuck);
        }
      case NullReceiver => RaiseKeeps(p, depth, m, p.nullPointer);
      case NoCallee => KeepsFinal(p, depth, m, Stuck);
    }
  }

  lemma EnterTooFew(p: Program, m: Machine, callee: nat, nargs: nat)
    requires ProgramOk(p) && m.frames != [] && nargs > |Last(m).stack|
    ensures Enter(p, m, callee, nargs) == Stuck
  {
    hide ProgramOk;
  }

  /** The loaded code has no quick instructions. */
  lemma RefOpIsSymbolic(p: Program, pc: int)
    requires ProgramOk(p) && pc in p.sites
    ensures var op := RefOp(p, pc);
            !op.GetFieldThis? && (op.Invoke? ==> !op.sel.Slot? && !op.sel.SuperSlot?)
  {
    hide ProgramOk;
    hide ResolveMethod;
    hide ResolveInterfaceMethod;
    hide ResolveField;
    hide IsSuperCall;
    hide FromSuperclass;
    hide StaticSite;
  }

  /** Every step keeps the depths and the place of every frame. */
  lemma StepKeeps(p: Program, depth: Depths, m: Machine)
    requires ProgramOk(p) && DepthsOk(p, depth) && Bounded(p, depth, m)
    ensures m.frames != [] && Keeps(p, depth, m, Step(p, Running(m)))
  {
    hide ProgramOk;
    hide DepthsOk;
    hide Bounded;
    hide Keeps;
    hide RefOp;
    hide Exec;
    BoundedIsStacked(p, depth, m);
    if !AtSite(p, m) {
      KeepsFinal(p, depth, m, Stuck);
    } else {
      var op := RefOp(p, Last(m).pc);
      RefOpIsSymbolic(p, Last(m).pc);
      ExecCases(p, m, op);
      if op.Invoke? {
        InvokeKeeps(p, depth, m, op.sel);
      } else if op.Return? {
        ReturnKeeps(p, depth, m, op.hasValue);
      } else {
        PlainKeeps(p, depth, m);
      }
    }
  }

  lemma BoundedIsStacked(p: Program, depth: Depths, m: Machine)
    requires ProgramOk(p) && Bounded(p, depth, m)
    ensures m.frames != [] && Stacked(p, depth, m)
  {
  }

  lemma ExecCases(p: Program, m: Machine, op: Op)
    requires ProgramOk(p) && m.frames != []
    ensures op.Invoke? ==> Exec(p, m, op) == InvokeStep(p, m, op.sel)
    ensures op.Return? ==> Exec(p, m, op) == ReturnStep(p, m, op.hasValue)
  {
    hide ProgramOk;
  }

  // ----- overflows -----

  /** stack_end stays, or an overflow raises it by 1024 bytes. */
  predicate EndRises(m: Machine, s: State) {
    s.Running? ==> s.m.stackEnd == m.stackEnd || s.m.stackEnd == m.stackEnd + 256
  }

  lemma {:induction false} UnwindKeepsEnd(p: Program, m: Machine, exc: Word, cls: nat)
    requires ProgramOk(p) && m.frames != [] && cls < |p.h.classes|
    ensures Unwind(p, m, exc, cls).Running? ==> Unwind(p, m, exc, cls).m.stackEnd == m.stackEnd
    decreases |m.frames|
  {
    hide ProgramOk;
    hide FindHandler;
    if Last(m).m < |p.bodies| && |m.frames| > 1 {
      UnwindKeepsEnd(p, LeaveFrame(m), exc, cls);
    }
  }

  lemma RaiseKeepsEnd(p: Program, m: Machine, exc: Word)
    requires ProgramOk(p) && m.frames != []
    ensures RaiseIn(p, m, exc).Running? ==> RaiseIn(p, m, exc).m.stackEnd == m.stackEnd
  {
    hide ProgramOk;
    hide Unwind;
    if exc != 0 && exc in m.heap && m.heap[exc].cls < |p.h.classes| {
      UnwindKeepsEnd(p, m, exc, m.heap[exc].cls);
    }
  }

  lemma EnterEnd(p: Program, m: Machine, callee: nat, nargs: nat)
    requires ProgramOk(p) && m.frames != []
    ensures EndRises(m, Enter(p, m, callee, nargs))
  {
    hide RaiseIn;
    hide NewFrame;
    hide TopAddress;
    if CanEnter(p, m, callee, nargs) {
      RaiseKeepsEnd(p, m.(stackEnd := m.stackEnd + 256), p.stackOverflow);
      var args := Last(m).stack[|Last(m).stack| - nargs..];
      var sync := SyncObject(p, callee, args);
      hide ProgramOk;
      hide SyncObject;
      var m' := Released(Locked(PopArgs(m, nargs), sync), sync);
      var r := p.native(callee, args);
      if r.NativeThrow? {
        RaiseKeepsEnd(p, m', r.exc);
      }
    }
  }

  lemma ExecEnd(p: Program, m: Machine, op: Op)
    requires ProgramOk(p) && m.frames != []
    ensures EndRises(m, Exec(p, m, op))
  {
    hide ProgramOk;
    hide RaiseIn;
    hide Enter;
    hide Select;
    RaiseKeepsEnd(p, m, p.nullPointer);
    if op.Invoke? {
      if Select(p, m, op.sel).Callee? {
        EnterEnd(p, m, Select(p, m, op.sel).m, Select(p, m, op.sel).nargs);
      }
    } else if op.Throw? {
      if Last(m).stack != [] {
        RaiseKeepsEnd(p, m, Last(m).stack[|Last(m).stack| - 1]);
      }
    } else if op.Raise? {
      RaiseKeepsEnd(p, m, op.exc);
    }
  }

  /** How many of the first n steps are calls that overflow. */
  function Overflows(p: Program, s: State, n: nat): nat
    requires ProgramOk(p)
    decreases n
  {
    if n == 0 || !s.Running? then 0
    else
      var s' := Step(p, s);
      (if s'.Running? && s'.m.stackEnd != s.m.stackEnd then 1 else 0) + Overflows(p, s', n - 1)
  }

  lemma StepEnd(p: Program, m: Machine)
    requires ProgramOk(p)
    ensures EndRises(m, Step(p, Running(m)))
  {
    hide ProgramOk;
    hide Exec;
    hide RefOp;
    if AtSite(p, m) {
      ExecEnd(p, m, RefOp(p, Last(m).pc));
    }
  }

  /** After n steps: every frame is where the depths check has it, and stack_end has risen as often as calls
      have overflowed. */
  lemma {:induction false} RunKeeps(p: Program, depth: Depths, m: Machine, n: nat)
    requires ProgramOk(p) && DepthsOk(p, depth) && Bounded(p, depth, m)
    ensures m.frames != [] && Keeps(p, depth, m, Run(p, Running(m), n))
    ensures var s := Run(p, Running(m), n);
            s.Running? ==> s.m.stackEnd == m.stackEnd + 256 * Overflows(p, Running(m), n)
    decreases n
  {
    hide ProgramOk;
    hide DepthsOk;
    hide Step;
    hide Stacked;
    StepKeeps(p, depth, m);
    StepEnd(p, m);
    if n > 0 {
      var s := Step(p, Running(m));
      if s.Running? {
        RunKeeps(p, depth, s.m, n - 1);
      } else {
        FinalStays(p, s, n - 1);
      }
    }
  }

  // ----- the block is large enough -----

  predicate MaxStackWithin(p: Program, words: nat) {
    forall m: nat | m < |p.l.methods| :: p.l.methods[m].maxStack <= words
  }

  /** The last frame of a bounded machine, with room for another frame struct. */
  lemma BoundedFits(p: Program, depth: Depths, m: Machine, words: nat, end: int, size: nat)
    requires ProgramOk(p) && Bounded(p, depth, m) && MaxStackWithin(p, words)
    requires m.base + |m.frames[0].locals| <= end && m.stackEnd <= end && end + 2 * FRAME_WORDS + words <= size
    ensures TopAddress(m.base, m.frames) + FRAME_WORDS <= size
  {
    hide ProgramOk;
    hide CallersDepth;
    var n := |m.frames| - 1;
    assert MaxStack(p, Last(m).m) <= words;
    assert n > 0 ==> TopAddress(m.base, m.frames[..n]) + |m.frames[n].locals| <= m.stackEnd;
    assert m.frames[..0] == [];
  }

  /** If the depths check succeeds, a run with at most `overflows` overflows that does nothing undefined
      stays within a block that reaches this far beyond stack_end. */
  lemma DepthsKeepRunSafe(p: Program, depth: Depths, m: Machine, words: nat, overflows: nat, size: nat)
    requires ProgramOk(p) && DepthsOk(p, depth) && Bounded(p, depth, m) && MaxStackWithin(p, words)
    requires forall k: nat :: !Run(p, Running(m), k).Stuck? && Overflows(p, Running(m), k) <= overflows
    requires m.base + |m.frames[0].locals| <= m.stackEnd + 256 * overflows
    requires m.stackEnd + 256 * overflows + 2 * FRAME_WORDS + words <= size
    ensures Safe(p, Running(m), m.base, size)
  {
    hide ProgramOk;
    hide DepthsOk;
    hide Bounded;
    hide Run;
    hide Overflows;
    hide TopAddress;
    forall k: nat ensures StateFits(Run(p, Running(m), k), m.base, size) {
      var s := Run(p, Running(m), k);
      RunKeeps(p, depth, m, k);
      assert !s.Stuck? && Overflows(p, Running(m), k) <= overflows;
      if s.Running? {
        BoundedFits(p, depth, s.m, words, m.stackEnd + 256 * overflows, size);
      }
    }
  }

  /** What executeMethod starts with is bounded. */
  lemma StartIsBounded(p: Program, depth: Depths, m: Machine, callee: nat, args: seq<Word>)
    requires ProgramOk(p) && DepthsOk(p, depth) && callee < |p.h.methods| && !p.h.methods[callee].isNative
    requires |args| <= p.l.methods[callee].maxLocals && m.frames == [NewFrame(p, callee, args)]
    ensures Bounded(p, depth, m)
  {
    assert MethodDepthOk(p, depth, callee);
    hide DepthsOk;
  }
}
