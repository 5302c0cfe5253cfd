/**
 executeJava and its surroundings on the real data: one block of stack words, one block of code
 bytes that is overwritten in place, and the registers of the dispatch loop. Every method is proved
 to do, on that data, what the reference machine does on separate frames and unchanging code.
 */
module Interpreter {
  import opened Common
  import opened Hierarchy
  import opened Linking
  import opened Bytecode
  import opened Reference
  import opened FlatStack
  import opened Quickening
  import opened Simulation

  /** Bytes of the instruction as its opcode now is. */
  function SizeNow(op: byte): nat {
    if op == OPC_LDC_QUICK then 2
    else if op == OPC_GETFIELD_THIS then 4
    else if op == OPC_ALOAD_THIS then 1
    else if op >= OPC_LDC_QUICK then 3
    else Length(op)
  }

  lemma SizeIsLength(p: Program, code: seq<byte>, info: CpInfo, pc: int)
    requires ProgramOk(p) && pc in p.sites && CodeOk(p, code, info)
    ensures At(code, pc) != OPC_GETFIELD_THIS ==> SizeNow(At(code, pc)) == Length(At(p.orig, pc))
    ensures IsInvokeOpcode(At(p.orig, pc)) ==>
              (At(code, pc) == OPC_INVOKEINTERFACE <==> At(p.orig, pc) == OPC_INVOKEINTERFACE)
  {
    assert SiteWellFormed(p, pc) && SiteOk(p, code, info, pc);
  }

  /** The state is defined and leaves room for one more frame struct on a stack of `size` words. */
  ghost predicate StateFits(s: State, base: nat, size: nat) {
    !s.Stuck? && (s.Running? ==> TopAddress(base, s.m.frames) + FRAME_WORDS <= size)
  }

  /** The reference run from s never becomes undefined and never outgrows the stack. */
  ghost predicate Safe(p: Program, s: State, base: nat, size: nat)
    requires ProgramOk(p)
  {
    forall k: nat :: StateFits(Run(p, s, k), base, size)
  }

  lemma SafeAfter(p: Program, s: State, j: nat, base: nat, size: nat)
    requires ProgramOk(p) && Safe(p, s, base, size)
    ensures StateFits(Run(p, s, j), base, size) && Safe(p, Run(p, s, j), base, size)
  {
    forall k: nat ensures StateFits(Run(p, Run(p, s, j), k), base, size) {
      RunAdds(p, s, j, k);
    }
  }

  lemma {:induction false} FinalStays(p: Program, s: State, n: nat)
    requires ProgramOk(p) && !s.Running?
    ensures Run(p, s, n) == s
    decreases n
  {
    if n > 0 {
      FinalStays(p, s, n - 1);
    }
  }

  /** Where one dispatch leads, seen from the reference run. */
  lemma DispatchOutcome(p: Program, q: Quick, base: nat, size: nat) returns (j: nat)
    requires ProgramOk(p) && QuickOk(p, q) && q.state.Running? && Safe(p, q.state, base, size)
    ensures AtSite(p, q.state.m) && StateFits(q.state, base, size)
    ensures var q' := QuickStep(p, q);
            && QuickOk(p, q') && q'.state == Run(p, q.state, j) && StateFits(q'.state, base, size)
            && Safe(p, q'.state, base, size) && (j == 0 ==> Pending(q') < Pending(q))
  {
    SafeAfter(p, q.state, 0, base, size);
    SafeAfter(p, q.state, 1, base, size);
    SafeAfter(p, q.state, 2, base, size);
    TwoSteps(p, q.state);
    j := QuickStepSimulates(p, q, 2);
    SafeAfter(p, q.state, j, base, size);
  }

  /** Every frame that has called another one is at an invoke instruction. */
  ghost predicate CallersOk(p: Program, frames: seq<Frame>) {
    forall i: nat | i + 1 < |frames| ::
      frames[i].pc in p.sites && IsInvokeOpcode(At(p.orig, frames[i].pc))
  }

  lemma LocalTop(mem: seq<int>, mem': seq<int>, base: nat, frames: seq<Frame>, f: Frame, i: nat, w: Word)
    requires frames != [] && HoldsTop(mem, base, frames) && i < |Top(frames).locals| && base <= LocalsAt(base, frames)
    requires LocalsAt(base, frames) + i < |mem| && mem' == mem[LocalsAt(base, frames) + i := w]
    requires f == Top(frames).(pc := f.pc, locals := Top(frames).locals[i := Some(w)], stack := f.stack)
    requires f.stack <= Top(frames).stack
    ensures HoldsTop(mem', base, Below(frames) + [f]) && SameBelow(mem, mem', LocalsAt(base, frames))
  {
    hide TopAddress;
    ChangeFrame(frames, f);
  }

  lemma SameCallers(p: Program, frames: seq<Frame>, f: Frame)
    requires frames != [] && CallersOk(p, frames)
    ensures CallersOk(p, Below(frames) + [f])
  {
  }

  lemma StackKept(mem: seq<int>, mem': seq<int>, at: nat, stack: seq<Word>)
    requires HoldsStack(mem, at, stack) && |mem'| == |mem|
    requires forall i | at <= i < at + |stack| :: mem'[i] == mem[i]
    ensures HoldsStack(mem', at, stack)
  {
  }

  lemma StackPrefix(mem: seq<int>, at: nat, stack: seq<Word>, n: nat)
    requires HoldsStack(mem, at, stack) && n <= |stack|
    ensures HoldsStack(mem, at, stack[..n])
  {
  }

  lemma PcSaved(mem: seq<int>, mem': seq<int>, at: int, pc: int, top: nat, limit: nat, base: nat)
    requires 0 <= at < |mem| == |mem'| && mem'[at] == pc && base <= at && limit <= top
    requires forall j | 0 <= j < |mem| && j < top && j != at :: mem'[j] == mem[j]
    ensures SameBelow(mem[at := pc], mem', limit) && (base <= top ==> SameBelow(mem, mem', base))
  {
  }

  /** A frame above the operand stack came and went; the pc was saved. */
  lemma NativeFrameGone(mem: seq<int>, mem': seq<int>, at: int, pc: int, top: nat, stack: seq<Word>, base: nat)
    requires 0 <= at && base <= at && at + FRAME_WORDS + |stack| <= top && HoldsStack(mem, at + FRAME_WORDS, stack)
    requires |mem'| == |mem| && at + LAST_PC < |mem| && mem'[at + LAST_PC] == pc
    requires forall j | 0 <= j < |mem| && j < top && j != at + LAST_PC :: mem'[j] == mem[j]
    ensures HoldsStack(mem', at + FRAME_WORDS, stack)
    ensures SameBelow(mem[at + LAST_PC := pc], mem', at + FRAME_WORDS) && SameBelow(mem, mem', base)
  {
    StackKept(mem, mem', at + FRAME_WORDS, stack);
    PcSaved(mem, mem', at + LAST_PC, pc, top, at + FRAME_WORDS, base);
  }

  lemma SameBelowTwice(m0: seq<int>, m1: seq<int>, m2: seq<int>, limit: nat)
    requires SameBelow(m0, m1, limit) && SameBelow(m1, m2, limit)
    ensures SameBelow(m0, m2, limit)
  {
  }

  lemma SameBelowLess(mem: seq<int>, mem': seq<int>, limit: nat, less: nat)
    requires SameBelow(mem, mem', limit) && less <= limit
    ensures SameBelow(mem, mem', less)
  {
  }

  lemma BelowIsSame(mem: seq<int>, mem': seq<int>, limit: nat, i: nat)
    requires SameBelow(mem, mem', limit) && i < |mem| && i < limit
    ensures |mem'| == |mem| && mem'[i] == mem[i]
  {
  }

  /** The method that calls is at an invoke instruction. */
  lemma OneMoreCaller(p: Program, frames: seq<Frame>, f: Frame)
    requires frames != [] && CallersOk(p, frames)
    requires Top(frames).pc in p.sites && IsInvokeOpcode(At(p.orig, Top(frames).pc))
    ensures CallersOk(p, frames + [f])
  {
    var frames' := frames + [f];
    forall i: nat | i + 1 < |frames'|
      ensures frames'[i].pc in p.sites && IsInvokeOpcode(At(p.orig, frames'[i].pc))
    {
      if i + 1 == |frames| {
        assert frames'[i] == Top(frames);
      }
    }
  }

  lemma StackStepIsGo(p: Program, m: Machine, op: Op)
    requires ProgramOk(p) && m.frames != [] && StackStep(p, m, op).Running?
    ensures StackEffect(Last(m), op, NextPc(p, m)).Some?
    ensures var e := StackEffect(Last(m), op, NextPc(p, m)).value;
            && e.pops <= |Last(m).stack|
            && StackStep(p, m, op) == Go(m, e.next, Last(m).stack[..|Last(m).stack| - e.pops] + e.pushes)
            && TopAddress(m.base, StackStep(p, m, op).m.frames) == TopAddress(m.base, m.frames) - e.pops + |e.pushes|
  {
    Address(m.base, m.frames);
    Address(m.base, StackStep(p, m, op).m.frames);
    ChangeFrame(m.frames, Last(StackStep(p, m, op).m));
  }

  /** The access that C answers with a NullPointerException. */
  predicate IsNullAccess(m: Machine, op: Op)
    requires m.frames != []
  {
    var s := Last(m).stack;
    || (op.GetField? && |s| >= 1 && s[|s| - 1] == 0)
    || (op.PutField? && |s| >= 2 && s[|s| - 2] == 0)
  }

  lemma SameLocals(base: nat, frames: seq<Frame>, f: Frame)
    requires frames != [] && |f.locals| == |Top(frames).locals|
    ensures TopAddress(base, Below(frames) + [f]) == TopAddress(base, frames) - |Top(frames).stack| + |f.stack|
  {
    Address(base, frames);
    Address(base, Below(frames) + [f]);
    ChangeFrame(frames, f);
  }

  /** A field instruction that neither raises nor is undefined replaces words of the operand stack. */
  lemma FieldStepIsGo(p: Program, m: Machine, op: Op)
    requires ProgramOk(p) && m.frames != [] && IsFieldOp(op) && FieldStep(p, m, op).Running? && !IsNullAccess(m, op)
    ensures var s, n, next := Last(m).stack, |Last(m).stack|, NextPc(p, m);
            match op
            case GetField(off) =>
              n >= 1 && s[n - 1] in m.heap && off < |m.heap[s[n - 1]].data|
              && FieldStep(p, m, op) == Go(m, next, s[..n - 1] + [m.heap[s[n - 1]].data[off]])
            case PutField(off) =>
              n >= 2 && s[n - 2] in m.heap && off < |m.heap[s[n - 2]].data|
              && var o := m.heap[s[n - 2]];
                 FieldStep(p, m, op)
                 == Go(m.(heap := m.heap[s[n - 2] := o.(data := o.data[off := s[n - 1]])]), next, s[..n - 2] + [])
            case GetFieldThis(off) =>
              Last(m).recv in m.heap && off < |m.heap[Last(m).recv].data|
              && FieldStep(p, m, op) == Go(m, Last(m).pc + 4, s[..n - 0] + [m.heap[Last(m).recv].data[off]])
            case GetStatic(f) =>
              f in m.statics && FieldStep(p, m, op) == Go(m, next, s[..n - 0] + [m.statics[f]])
            case PutStatic(f) =>
              && n >= 1 && f in m.statics
              && FieldStep(p, m, op) == Go(m.(statics := m.statics[f := s[n - 1]]), next, s[..n - 1] + [])
            case _ => true
    ensures TopAddress(m.base, FieldStep(p, m, op).m.frames)
            == TopAddress(m.base, m.frames)
               + (if op.GetField? then 0 else if op.PutField? then -2 else if op.PutStatic? then -1 else 1)
  {
    hide ProgramOk;
    hide TopAddress;
    hide NextPc;
    var s, n := Last(m).stack, |Last(m).stack|;
    assert s[..n - 0] == s;
    assert n >= 1 ==> s[..n - 1] + [] == s[..n - 1];
    assert n >= 2 ==> s[..n - 2] + [] == s[..n - 2];
    SameLocals(m.base, m.frames, Last(FieldStep(p, m, op).m));
  }

  /** The monitor of a static method does not depend on its arguments. */
  lemma StaticSync(p: Program, m: nat, a: Word, b: Word)
    requires ProgramOk(p) && m < |p.h.methods| && p.h.methods[m].isStatic
    ensures SyncObject(p, m, [a]) == SyncObject(p, m, [b])
  {
  }

  lemma RaiseIsUnwind(p: Program, m: Machine, exc: Word)
    requires ProgramOk(p) && m.frames != [] && !RaiseIn(p, m, exc).Stuck?
    ensures exc != 0 && exc in m.heap && m.heap[exc].cls < |p.h.classes|
    ensures RaiseIn(p, m, exc) == Unwind(p, m, exc, m.heap[exc].cls)
  {
  }

  lemma SyncOfArgs(p: Program, m: nat, args: seq<Word>, first: Word)
    requires ProgramOk(p) && m < |p.h.methods| && (args == [] ==> p.h.methods[m].isStatic)
    requires args != [] ==> args[0] == first
    ensures SyncObject(p, m, args) == SyncObject(p, m, [first])
  {
  }

  /** What Enter does when the method is not native and its frame fits. */
  lemma EnterIsCall(p: Program, m: Machine, callee: nat, nargs: nat)
    requires ProgramOk(p) && m.frames != [] && CanEnter(p, m, callee, nargs) && !p.h.methods[callee].isNative
    requires TopAddress(m.base, PopArgs(m, nargs).frames) + p.l.methods[callee].maxLocals <= m.stackEnd
    ensures var args, popped := Last(m).stack[|Last(m).stack| - nargs..], PopArgs(m, nargs);
            var sync := SyncObject(p, callee, args);
            && Enter(p, m, callee, nargs).Running?
            && Enter(p, m, callee, nargs).m
               == popped.(frames := popped.frames + [NewFrame(p, callee, args)],
                          log := if sync.Some? then m.log + [Lock(sync.value)] else m.log)
  {
  }

  /** A call overflows the stack, or a method that is not native gets a frame. */
  lemma EnterKinds(p: Program, m: Machine, callee: nat, nargs: nat)
    requires ProgramOk(p) && m.frames != [] && CanEnter(p, m, callee, nargs)
    ensures callee < |p.l.methods| && nargs <= p.l.methods[callee].maxLocals
    ensures var popped, args := PopArgs(m, nargs), Last(m).stack[|Last(m).stack| - nargs..];
            var fits := TopAddress(m.base, popped.frames) + p.l.methods[callee].maxLocals <= m.stackEnd;
            && (!fits ==> Enter(p, m, callee, nargs) == RaiseIn(p, m.(stackEnd := m.stackEnd + 256), p.stackOverflow))
            && (fits && !p.h.methods[callee].isNative ==>
                  Enter(p, m, callee, nargs).Running?
                  && Enter(p, m, callee, nargs).m.frames == popped.frames + [NewFrame(p, callee, args)])
  {
    hide RaiseIn;
    hide AfterNative;
    hide NewFrame;
    hide TopAddress;
  }

  /** The bytes an instruction may rewrite are there. */
  lemma SiteBytes(p: Program, code: seq<byte>, info: CpInfo, pc: int)
    requires ProgramOk(p) && pc in p.sites && CodeOk(p, code, info)
    ensures 0 <= pc < |code|
    ensures IsFieldOpcode(At(code, pc)) || IsInvokeOpcode(At(code, pc)) ==> pc + 2 < |code|
  {
    assert SiteWellFormed(p, pc) && SiteOk(p, code, info, pc);
  }

  lemma EnterNeeds(p: Program, m: Machine, callee: nat, nargs: nat)
    requires ProgramOk(p) && m.frames != [] && !Enter(p, m, callee, nargs).Stuck?
    ensures CanEnter(p, m, callee, nargs)
  {
  }

  lemma FetchExecutable(p: Program, code: seq<byte>, info: CpInfo, pc: int)
    requires ProgramOk(p) && QuickSafe(p) && pc in p.sites && CodeOk(p, code, info)
    ensures var r := Fetch(p, code, info, pc);
            r.op.Some? ==>
              && (r.op.value.Invoke? ==>
                    IsInvokeOpcode(At(p.orig, pc)) && !r.op.value.sel.Named? && !r.op.value.sel.SuperNamed?)
              && (r.op.value.GetFieldThis? ==> !StaticSite(p, pc))
              && (At(r.code, pc) == OPC_GETFIELD_THIS ==> r.op.value.GetFieldThis?)
  {
    hide CodeOk;
    hide Matches;
    hide InfoOk;
    hide FetchConstant;
    FetchIsOk(p, code, info, pc);
    FormKinds(p, code, info, pc);
    FetchKinds(p, code, info, pc);
    hide Fetch;
    hide ProgramOk;
  }

  /** Which opcodes yield which operations. */
  lemma FetchKinds(p: Program, code: seq<byte>, info: CpInfo, pc: int)
    requires ProgramOk(p) && pc in p.sites && 0 <= pc < |code|
    ensures var r, op := Fetch(p, code, info, pc), At(code, pc);
            r.op.Some? ==>
              && (r.op.value.Invoke? ==>
                    (IsInvokeOpcode(op) || IsQuickInvoke(op)) && !r.op.value.sel.Named? && !r.op.value.sel.SuperNamed?)
              && (r.op.value.GetFieldThis? <==> op == OPC_GETFIELD_THIS)
              && (At(r.code, pc) == OPC_GETFIELD_THIS ==> op == OPC_GETFIELD_THIS)
  {
    hide ProgramOk;
    hide ResolveField;
    hide ResolveMethod;
    hide ResolveInterfaceMethod;
  }

  /** Which instructions can show which opcodes. */
  lemma FormKinds(p: Program, code: seq<byte>, info: CpInfo, pc: int)
    requires ProgramOk(p) && pc in p.sites && CodeOk(p, code, info)
    ensures 0 <= pc < |code|
    ensures IsInvokeOpcode(At(code, pc)) || IsQuickInvoke(At(code, pc)) ==> IsInvokeOpcode(At(p.orig, pc))
    ensures At(code, pc) == OPC_GETFIELD_THIS ==> !StaticSite(p, pc)
  {
    assert SiteWellFormed(p, pc) && SiteOk(p, code, info, pc);
    hide ProgramOk;
    hide CodeOk;
    hide ResolveField;
    hide ResolveMethod;
  }

  lemma LeaveShorter(m: Machine)
    requires m.frames != []
    ensures |LeaveFrame(m).frames| == |m.frames| - 1
  {
  }

  class Interp {
    const p: Program
    const mem: array<int>      // the Java stack, by words
    const code: array<byte>    // the code of all methods
    const base: nat            // where the locals of the outermost method are
    var info: CpInfo
    var frame: int             // address of the current frame struct
    var lvars: int
    var ostack: int
    var pc: int
    var self: Word
    var mb: nat
    var lastFrame: int
    var heap: map<Word, Obj>
    var statics: map<nat, Word>
    var log: seq<LockEvent>    // calls of objectLock and objectUnlock
    var stackEnd: int
    var exception: Word

    // ----- what the data means -----

    ghost predicate Shared(m: Machine)
      reads `heap, `statics, `log, `stackEnd
    {
      m.base == base && m.heap == heap && m.statics == statics && m.log == log && m.stackEnd == stackEnd
    }

    ghost predicate Stacked(frames: seq<Frame>)
      reads mem
    {
      && frames != [] && CallersOk(p, frames)
      && Chain(mem[..], base, frames)
      && FRAME_WORDS <= base <= mem.Length && mem[base - FRAME_WORDS + MB] == 0
    }

    ghost predicate Registers(frames: seq<Frame>)
      requires ProgramOk(p) && frames != []
      reads `frame, `lastFrame, `lvars, `ostack, `pc, `mb, `self
    {
      var f := Top(frames);
      && frame == lastFrame == StructAt(base, frames) && lvars == LocalsAt(base, frames)
      && ostack == TopAddress(base, frames) && pc == f.pc && mb == f.m
      && (f.m < |p.h.methods| && !p.h.methods[f.m].isStatic ==> self == f.recv)
    }

    /** The registers and the stack hold the running machine m. */
    ghost predicate Represented(m: Machine)
      reads `heap, `statics, `log, `stackEnd, `frame, `lastFrame, `lvars, `ostack, `pc, `mb, `self, mem
    {
      ProgramOk(p) && MachineOk(p, m) && Shared(m) && Stacked(m.frames) && Registers(m.frames)
    }

    ghost predicate Finished(m: Machine)
      reads `heap, `statics, `log, `stackEnd, `lastFrame, mem
    {
      && Shared(m) && |m.frames| == 1 && FRAME_WORDS <= base
      && lastFrame == base + |m.frames[0].locals|
      && 0 <= lastFrame && lastFrame + FRAME_WORDS <= mem.Length && mem[lastFrame + PREV] == base - FRAME_WORDS
    }

    ghost predicate Represents(s: State)
      reads `heap, `statics, `log, `stackEnd, `frame, `lastFrame, `lvars, `ostack, `pc, `mb, `self, `exception, mem
    {
      match s
      case Running(m) => Represented(m)
      case Returned(m, value) => Finished(m) && (value.Some? ==> base < mem.Length && mem[base] == value.value)
      case Threw(m, exc) => Finished(m) && exception == exc
      case Stuck => false
    }

    ghost predicate FitsState(s: State) {
      s.Running? ==> TopAddress(base, s.m.frames) + FRAME_WORDS <= mem.Length
    }

    // ----- loads, stores and arithmetic -----

    lemma HoldsReads(m: Machine)
      requires Represented(m)
      ensures var f := Last(m);
              && ProgramOk(p) && m.frames != [] && f.m < |p.h.methods| && pc == f.pc && mb == f.m
              && m.base == base && m.heap == heap && m.statics == statics && m.stackEnd == stackEnd && m.log == log
              && TopAddress(base, m.frames) == ostack && frame == lastFrame == StructAt(base, m.frames)
              && (!p.h.methods[mb].isStatic ==> self == f.recv)
              && NextPc(p, m) == pc + Length(At(p.orig, pc))
              && FRAME_WORDS <= base <= lvars && lvars + |f.locals| == frame
              && frame + FRAME_WORDS + |f.stack| == ostack <= mem.Length
              && (forall i: nat | i < |f.locals| :: f.locals[i].Some? ==> mem[lvars + i] == f.locals[i].value)
              && (forall i: nat | i < |f.stack| :: mem[frame + FRAME_WORDS + i] == f.stack[i])
    {
      Address(base, m.frames);
      assert FrameOk(p, Last(m));
    }

    /** The operand stack of the last frame changed, and perhaps its pc, the heap or the statics. */
    lemma StackHolds(mem0: seq<int>, m: Machine, m': Machine, stack: seq<Word>)
      requires ProgramOk(p) && MachineOk(p, m) && MachineOk(p, m') && CallersOk(p, m.frames)
      requires Chain(mem0, base, m.frames) && FRAME_WORDS <= base <= |mem0| && mem0[base - FRAME_WORDS + MB] == 0
      requires m'.frames == Below(m.frames) + [Last(m).(pc := pc, stack := stack)]
      requires SameBelow(mem0, mem[..], StructAt(base, m.frames) + FRAME_WORDS)
      requires HoldsStack(mem[..], StructAt(base, m.frames) + FRAME_WORDS, stack)
      requires Shared(m') && frame == lastFrame == StructAt(base, m.frames) && lvars == LocalsAt(base, m.frames)
      requires ostack == frame + FRAME_WORDS + |stack| && mb == Last(m).m
      requires mb < |p.h.methods| && !p.h.methods[mb].isStatic ==> self == Last(m).recv
      ensures Represented(m')
    {
      StackChanges(mem0, mem[..], base, m.frames, pc, stack);
      ChangeFrame(m.frames, Last(m).(pc := pc, stack := stack));
      Address(base, m.frames);
      Address(base, m'.frames);
    }

    /** The parts of Represented. */
    lemma Parts(m: Machine)
      requires Represented(m)
      ensures ProgramOk(p) && MachineOk(p, m) && CallersOk(p, m.frames) && m.frames != [] && Shared(m)
      ensures Chain(mem[..], base, m.frames) && FRAME_WORDS <= base <= mem.Length && mem[base - FRAME_WORDS + MB] == 0
      ensures frame == lastFrame == StructAt(base, m.frames)
      ensures lvars == LocalsAt(base, m.frames) && base <= lvars <= frame
      ensures ostack == frame + FRAME_WORDS + |Last(m).stack| <= mem.Length && mb == Last(m).m && pc == Last(m).pc
      ensures mb < |p.h.methods| && !p.h.methods[mb].isStatic ==> self == Last(m).recv
      ensures HoldsStack(mem[..], frame + FRAME_WORDS, Last(m).stack)
    {
      HoldsReads(m);
      hide ProgramOk;
      hide Chain;
      hide TopAddress;
      hide CallersOk;
      hide FramesOk;
    }

    lemma PushedOk(m: Machine, next: int, stack: seq<Word>)
      requires ProgramOk(p) && m.frames != [] && StateOk(p, Go(m, next, stack))
      ensures Go(m, next, stack).Running? && MachineOk(p, Go(m, next, stack).m)
      ensures var m' := Go(m, next, stack).m;
              && m'.frames == Below(m.frames) + [Last(m).(pc := next, stack := stack)]
              && m'.base == m.base && m'.heap == m.heap && m'.statics == m.statics
              && m'.log == m.log && m'.stackEnd == m.stackEnd
    {
      hide ProgramOk;
      hide MachineOk;
    }

    /** Takes n words off the operand stack and puts `words` on it. */
    method PopPush(n: nat, words: seq<Word>, next: int, ghost m: Machine)
      requires Represented(m) && n <= |Last(m).stack| && ostack - n + |words| <= mem.Length
      requires StateOk(p, Go(m, next, Last(m).stack[..|Last(m).stack| - n] + words))
      modifies `ostack, `pc, mem
      ensures Represented(Go(m, next, Last(m).stack[..|Last(m).stack| - n] + words).m)
      ensures SameBelow(old(mem[..]), mem[..], base)
    {
      hide Represented;
      hide ProgramOk;
      hide MachineOk;
      hide StateOk;
      hide CallersOk;
      hide Chain;
      hide TopAddress;
      hide StructAt;
      hide LocalsAt;
      Parts(m);
      PushedOk(m, next, Last(m).stack[..|Last(m).stack| - n] + words);
      ghost var mem0, kept := mem[..], Last(m).stack[..|Last(m).stack| - n];
      ostack := ostack - n;
      ghost var at := ostack;
      var i := 0;
      while i < |words|
        invariant i <= |words| && ostack == at + i
        invariant forall k: nat | k < i :: mem[at + k] == words[k]
        invariant SameBelow(mem0, mem[..], at)
      {
        mem[ostack] := words[i];
        ostack := ostack + 1;
        i := i + 1;
      }
      pc := next;
      assert HoldsStack(mem[..], StructAt(base, m.frames) + FRAME_WORDS, kept + words);
      SameBelowLess(mem0, mem[..], at, StructAt(base, m.frames) + FRAME_WORDS);
      StackHolds(mem0, m, Go(m, next, kept + words).m, kept + words);
    }

    /** Reads the operands of an instruction and computes what it does to the operand stack. */
    method Operands(op: Op, next: int, ghost f: Frame) returns (e: Effect)
      requires StackEffect(f, op, next).Some?
      requires 0 <= lvars && lvars + |f.locals| <= mem.Length
      requires 0 <= ostack - |f.stack| && ostack <= mem.Length
      requires forall i: nat | i < |f.locals| :: f.locals[i].Some? ==> mem[lvars + i] == f.locals[i].value
      requires forall i: nat | i < |f.stack| :: mem[ostack - |f.stack| + i] == f.stack[i]
      ensures e == StackEffect(f, op, next).value
    {
      if |f.stack| >= 1 {
        assert mem[ostack - |f.stack| + (|f.stack| - 1)] == f.stack[|f.stack| - 1];
      }
      if |f.stack| >= 2 {
        assert mem[ostack - |f.stack| + (|f.stack| - 2)] == f.stack[|f.stack| - 2];
      }
      match op {
        case Nop => e := Effect(0, [], next);
        case Push(w) => e := Effect(0, [w], next);
        case Load(i) => e := Effect(0, [mem[lvars + i]], next);
        case Pop => e := Effect(1, [], next);
        case Dup => e := Effect(0, [mem[ostack - 1]], next);
        case Swap => e := Effect(2, [mem[ostack - 1], mem[ostack - 2]], next);
        case Binary(g) => e := Effect(2, [Apply(g, mem[ostack - 2], mem[ostack - 1])], next);
        case If(c, target) =>
          var v := ToInt(mem[ostack - 1]);
          e := Effect(1, [], if Holds(c, v, 0) then target else next);
        case IfCmp(c, target) =>
          var v1, v2 := ToInt(mem[ostack - 2]), ToInt(mem[ostack - 1]);
          e := Effect(2, [], if Holds(c, v1, v2) then target else next);
        case Goto(target) => e := Effect(0, [], target);
      }
    }

    method StackOp(op: Op, size: nat, ghost m: Machine)
      requires Represented(m) && size == Length(At(p.orig, pc))
      requires StackStep(p, m, op).Running? && StateOk(p, StackStep(p, m, op))
      requires TopAddress(base, StackStep(p, m, op).m.frames) <= mem.Length
      modifies `ostack, `pc, mem
      ensures Represented(StackStep(p, m, op).m)
      ensures SameBelow(old(mem[..]), mem[..], base)
    {
      hide *;
      HoldsReads(m);
      StackStepIsGo(p, m, op);
      var e := Operands(op, pc + size, Last(m));
      PopPush(e.pops, e.pushes, e.next, m);
    }

    /** A local variable of the last frame changed, and its operand stack got shorter or stayed. */
    lemma LocalHolds(mem0: seq<int>, m: Machine, m': Machine, i: nat, w: Word)
      requires ProgramOk(p) && MachineOk(p, m) && MachineOk(p, m') && CallersOk(p, m.frames)
      requires Chain(mem0, base, m.frames) && FRAME_WORDS <= base <= |mem0| && mem0[base - FRAME_WORDS + MB] == 0
      requires i < |Last(m).locals| && Last(m').stack <= Last(m).stack && Last(m').pc == pc
      requires m'.frames
            == Below(m.frames) + [Last(m).(pc := pc, locals := Last(m).locals[i := Some(w)], stack := Last(m').stack)]
      requires LocalsAt(base, m.frames) + i < |mem0| && mem[..] == mem0[LocalsAt(base, m.frames) + i := w]
      requires Shared(m') && frame == lastFrame == StructAt(base, m.frames) && lvars == LocalsAt(base, m.frames)
      requires ostack == frame + FRAME_WORDS + |Last(m').stack| && mb == Last(m).m
      requires mb < |p.h.methods| && !p.h.methods[mb].isStatic ==> self == Last(m).recv
      ensures Represented(m')
    {
      hide ProgramOk;
      hide FramesOk;
      hide CallersOk;
      hide TopAddress;
      hide HoldsStruct;
      ghost var lv := LocalsAt(base, m.frames);
      ChangeFrame(m.frames, Last(m'));
      Address(base, m.frames);
      Address(base, m'.frames);
      LocalTop(mem0, mem[..], base, m.frames, Last(m'), i, w);
      hide HoldsTop;
      TopChanges(mem0, mem[..], base, m.frames, Last(m'));
      SameCallers(p, m.frames, Last(m'));
    }

    /** What an assignment to a local reads, and the machine it has to reach. */
    lemma LocalFacts(op: Op, size: nat, m: Machine)
      requires Represented(m) && size == Length(At(p.orig, pc)) && (op.Store? || op.Inc?)
      requires LocalStep(p, m, op).Running? && StateOk(p, LocalStep(p, m, op))
      ensures ProgramOk(p) && MachineOk(p, m) && MachineOk(p, LocalStep(p, m, op).m) && CallersOk(p, m.frames)
      ensures Chain(mem[..], base, m.frames) && FRAME_WORDS <= base <= mem.Length && mem[base - FRAME_WORDS + MB] == 0
      ensures op.i < |Last(m).locals| && (op.Store? ==> Last(m).stack != []) && 0 <= lvars + op.i < mem.Length
              && 0 < ostack <= mem.Length && lvars == LocalsAt(base, m.frames) && base <= lvars
      ensures frame == lastFrame == StructAt(base, m.frames)
      ensures ostack == frame + FRAME_WORDS + |Last(m).stack| && mb == Last(m).m
              && m.frames != [] && (mb < |p.h.methods| && !p.h.methods[mb].isStatic ==> self == Last(m).recv)
      ensures var f, n, m' := Last(m), |Last(m).stack|, LocalStep(p, m, op).m;
              var w := if op.Store? then mem[ostack - 1] else ToWord(mem[lvars + op.i] + op.d);
              && m'.frames == Below(m.frames) + [f.(pc := pc + size, locals := f.locals[op.i := Some(w)],
                                                    stack := if op.Store? then f.stack[..n - 1] else f.stack)]
              && Shared(m')
    {
      HoldsReads(m);
      if op.Store? {
        var f := Last(m);
        assert mem[frame + FRAME_WORDS + (|f.stack| - 1)] == f.stack[|f.stack| - 1];
      }
      hide TopAddress;
      hide Chain;
      hide CallersOk;
    }

    method LocalOp(op: Op, size: nat, ghost m: Machine)
      requires Represented(m) && size == Length(At(p.orig, pc)) && (op.Store? || op.Inc?)
      requires LocalStep(p, m, op).Running? && StateOk(p, LocalStep(p, m, op))
      modifies `ostack, `pc, mem
      ensures Represented(LocalStep(p, m, op).m)
      ensures SameBelow(old(mem[..]), mem[..], base)
    {
      hide StateOk;
      hide TopAddress;
      hide StructAt;
      hide LocalsAt;
      hide Represented;
      hide ProgramOk;
      hide MachineOk;
      hide CallersOk;
      hide Chain;
      hide LocalStep;
      hide NextPc;
      LocalFacts(op, size, m);
      ghost var mem0 := mem[..];
      var w;
      if op.Store? {
        ostack := ostack - 1;
        w := mem[ostack];
      } else {
        w := ToWord(mem[lvars + op.i] + op.d);
      }
      mem[lvars + op.i] := w;
      pc := pc + size;
      LocalHolds(mem0, m, LocalStep(p, m, op).m, op.i, w);
    }

    method StoreField(o: Word, off: nat, v: Word, ghost m: Machine)
      requires Represented(m) && o in heap && off < |heap[o].data|
      modifies `heap
      ensures var m' := m.(heap := m.heap[o := m.heap[o].(data := m.heap[o].data[off := v])]);
              Represented(m') && Last(m') == Last(m)
    {
      heap := heap[o := heap[o].(data := heap[o].data[off := v])];
    }

    method StoreStatic(f: nat, v: Word, ghost m: Machine)
      requires Represented(m)
      modifies `statics
      ensures var m' := m.(statics := m.statics[f := v]); Represented(m') && Last(m') == Last(m)
    {
      statics := statics[f := v];
    }

    /** The words on top of the operand stack. */
    lemma TopWords(m: Machine)
      requires Represented(m)
      ensures 0 <= ostack - |Last(m).stack| && ostack <= mem.Length
      ensures |Last(m).stack| >= 1 ==> mem[ostack - 1] == Last(m).stack[|Last(m).stack| - 1]
      ensures |Last(m).stack| >= 2 ==> mem[ostack - 2] == Last(m).stack[|Last(m).stack| - 2]
    {
      HoldsReads(m);
      ghost var s := Last(m).stack;
      if |s| >= 1 {
        assert mem[frame + FRAME_WORDS + (|s| - 1)] == s[|s| - 1];
      }
      if |s| >= 2 {
        assert mem[frame + FRAME_WORDS + (|s| - 2)] == s[|s| - 2];
      }
    }

    /** What a field instruction that neither raises nor is undefined reads, and the step it takes. */
    lemma FieldOpFacts(op: Op, size: nat, m: Machine)
      requires Represented(m) && size == Length(At(p.orig, pc)) && IsFieldOp(op) && !IsNullAccess(m, op)
      requires FieldStep(p, m, op).Running? && StateOk(p, FieldStep(p, m, op))
      requires TopAddress(base, FieldStep(p, m, op).m.frames) <= mem.Length
      ensures ProgramOk(p) && m.frames != [] && mb < |p.h.methods| && m.heap == heap && m.statics == statics
      ensures ostack <= mem.Length
      ensures var s, n, next := Last(m).stack, |Last(m).stack|, pc + size;
              && (n >= 1 ==> 1 <= ostack && mem[ostack - 1] == s[n - 1])
              && (n >= 2 ==> 2 <= ostack && mem[ostack - 2] == s[n - 2])
              && (op.GetField? ==>
                    n >= 1 && s[n - 1] in heap && op.offset < |heap[s[n - 1]].data|
                    && FieldStep(p, m, op) == Go(m, next, s[..n - 1] + [heap[s[n - 1]].data[op.offset]]))
              && (op.PutField? ==>
                    n >= 2 && s[n - 2] in heap && op.offset < |heap[s[n - 2]].data|
                    && var o := heap[s[n - 2]];
                       FieldStep(p, m, op)
                       == Go(m.(heap := m.heap[s[n - 2] := o.(data := o.data[op.offset := s[n - 1]])]),
                             next, s[..n - 2] + []))
              && (op.GetFieldThis? && !p.h.methods[mb].isStatic ==>
                    self in heap && op.offset < |heap[self].data| && ostack < mem.Length
                    && FieldStep(p, m, op) == Go(m, pc + 4, s[..n - 0] + [heap[self].data[op.offset]]))
              && (op.GetStatic? ==>
                    op.field in statics && ostack < mem.Length
                    && FieldStep(p, m, op) == Go(m, next, s[..n - 0] + [statics[op.field]]))
              && (op.PutStatic? ==>
                    n >= 1 && op.field in statics
                    && FieldStep(p, m, op) == Go(m.(statics := m.statics[op.field := s[n - 1]]), next, s[..n - 1] + []))
    {
      hide *;
      HoldsReads(m);
      TopWords(m);
      FieldStepIsGo(p, m, op);
    }

    method GetFieldOp(op: Op, size: nat, ghost m: Machine)
      requires Represented(m) && size == Length(At(p.orig, pc)) && IsFieldOp(op) && !IsNullAccess(m, op)
      requires FieldStep(p, m, op).Running? && StateOk(p, FieldStep(p, m, op))
      requires TopAddress(base, FieldStep(p, m, op).m.frames) <= mem.Length
      requires op.GetField?
      modifies `ostack, `pc, mem
      ensures Represented(FieldStep(p, m, op).m)
      ensures SameBelow(old(mem[..]), mem[..], base)
    {
      hide *;
      FieldOpFacts(op, size, m);
      PopPush(1, [heap[mem[ostack - 1]].data[op.offset]], pc + size, m);
    }

    method GetFieldThisOp(op: Op, ghost size: nat, ghost m: Machine)
      requires Represented(m) && size == Length(At(p.orig, pc)) && IsFieldOp(op) && !IsNullAccess(m, op)
      requires FieldStep(p, m, op).Running? && StateOk(p, FieldStep(p, m, op))
      requires TopAddress(base, FieldStep(p, m, op).m.frames) <= mem.Length
      requires op.GetFieldThis?
      requires mb < |p.h.methods| ==> !p.h.methods[mb].isStatic
      modifies `ostack, `pc, mem
      ensures Represented(FieldStep(p, m, op).m)
      ensures SameBelow(old(mem[..]), mem[..], base)
    {
      hide *;
      FieldOpFacts(op, size, m);
      PopPush(0, [heap[self].data[op.offset]], pc + 4, m);
    }

    method PutFieldOp(op: Op, size: nat, ghost m: Machine)
      requires Represented(m) && size == Length(At(p.orig, pc)) && IsFieldOp(op) && !IsNullAccess(m, op)
      requires FieldStep(p, m, op).Running? && StateOk(p, FieldStep(p, m, op))
      requires TopAddress(base, FieldStep(p, m, op).m.frames) <= mem.Length
      requires op.PutField?
      modifies `ostack, `pc, `heap, mem
      ensures Represented(FieldStep(p, m, op).m)
      ensures SameBelow(old(mem[..]), mem[..], base)
    {
      hide *;
      FieldOpFacts(op, size, m);
      var o, v := mem[ostack - 2], mem[ostack - 1];
      StoreField(o, op.offset, v, m);
      PopPush(2, [], pc + size, m.(heap := m.heap[o := m.heap[o].(data := m.heap[o].data[op.offset := v])]));
    }

    method GetStaticOp(op: Op, size: nat, ghost m: Machine)
      requires Represented(m) && size == Length(At(p.orig, pc)) && IsFieldOp(op) && !IsNullAccess(m, op)
      requires FieldStep(p, m, op).Running? && StateOk(p, FieldStep(p, m, op))
      requires TopAddress(base, FieldStep(p, m, op).m.frames) <= mem.Length
      requires op.GetStatic?
      modifies `ostack, `pc, mem
      ensures Represented(FieldStep(p, m, op).m)
      ensures SameBelow(old(mem[..]), mem[..], base)
    {
      hide *;
      FieldOpFacts(op, size, m);
      PopPush(0, [statics[op.field]], pc + size, m);
    }

    method PutStaticOp(op: Op, size: nat, ghost m: Machine)
      requires Represented(m) && size == Length(At(p.orig, pc)) && IsFieldOp(op) && !IsNullAccess(m, op)
      requires FieldStep(p, m, op).Running? && StateOk(p, FieldStep(p, m, op))
      requires TopAddress(base, FieldStep(p, m, op).m.frames) <= mem.Length
      requires op.PutStatic?
      modifies `ostack, `pc, `statics, mem
      ensures Represented(FieldStep(p, m, op).m)
      ensures SameBelow(old(mem[..]), mem[..], base)
    {
      hide *;
      FieldOpFacts(op, size, m);
      var v := mem[ostack - 1];
      StoreStatic(op.field, v, m);
      PopPush(1, [], pc + size, m.(statics := m.statics[op.field := v]));
    }

    // ----- exceptions -----

    method FindCatchBlockInMethod(m: nat, cls: nat, pc: int) returns (r: Option<int>)
      requires ProgramOk(p) && m < |p.bodies| && cls < |p.h.classes|
      ensures r == FindHandler(p, p.bodies[m], pc, cls, 0)
      // the first entry of the exception table that fits
      ensures forall h: int :: r == Some(h) <==>
                exists i: nat :: FirstFitting(p, p.bodies[m], pc, cls, i)
                                 && h == p.bodies[m].entry + p.bodies[m].handlers[i].handlerPc
      ensures r == None <==>
                forall i: nat | i < |p.bodies[m].handlers| ::
                  !Fits(p, p.bodies[m].handlers[i], pc - p.bodies[m].entry, cls)
    {
      var b := p.bodies[m];
      HandlerFrom(p, b, pc, cls, 0);
      var i := 0;
      while i < |b.handlers|
        invariant i <= |b.handlers|
        invariant FindHandler(p, b, pc, cls, 0) == FindHandler(p, b, pc, cls, i)
      {
        var e := b.handlers[i];
        if e.startPc <= pc - b.entry < e.endPc {
          var caught := e.catchType.Finally?;
          if e.catchType.Class? {
            caught := IsSubClassOf(p.h, e.catchType.cls, cls);
          }
          if caught {
            return Some(b.entry + e.handlerPc);
          }
        }
        i := i + 1;
      }
      return None;
    }

    /** The words of the last frame's struct, and what its prev field leads to. */
    lemma StructWords(frames: seq<Frame>)
      requires Stacked(frames)
      ensures var at := StructAt(base, frames);
              && base <= LocalsAt(base, frames) <= at && at + FRAME_WORDS <= mem.Length
              && mem[at + MB] == Top(frames).m + 1 && mem[at + LVARS] == LocalsAt(base, frames)
              && mem[at + PREV] == PrevStruct(base, frames) && 0 <= PrevStruct(base, frames)
              && PrevStruct(base, frames) + FRAME_WORDS <= mem.Length
              && (mem[PrevStruct(base, frames) + MB] == 0 <==> |frames| == 1)
              && (|Top(frames).locals| > 0 && Top(frames).locals[0].Some? ==>
                    mem[LocalsAt(base, frames)] == Top(frames).locals[0].value)
              && (|frames| > 1 ==> mem[PrevStruct(base, frames) + LAST_PC] == Top(Below(frames)).pc)
    {
      Address(base, frames);
      if |frames| > 1 {
        Address(base, Below(frames));
        assert Chain(mem[..], base, Below(frames));
      }
    }

    /** The object whose monitor a method takes, from its flags and its first argument. */
    method SyncObjectOf(m: nat, first: Word) returns (ob: Option<Word>)
      requires ProgramOk(p) && m < |p.h.methods|
      ensures ob == SyncObject(p, m, [first])
    {
      ob := None;
      if p.h.methods[m].isSync {
        if !p.h.methods[m].isStatic {
          ob := Some(first);
        } else if p.l.methods[m].owner < |p.mirrors| {
          ob := Some(p.mirrors[p.l.methods[m].owner]);
        }
      }
    }

    method UnlockIf(ob: Option<Word>)
      modifies `log
      ensures log == if ob.Some? then old(log) + [Unlock(ob.value)] else old(log)
    {
      if ob.Some? {
        log := log + [Unlock(ob.value)];
      }
    }

    /** The stack, the shared state and last_frame agree with m; the other registers may be stale. */
    ghost predicate Suspended(m: Machine)
      reads `heap, `statics, `log, `stackEnd, `lastFrame, mem
    {
      && ProgramOk(p) && MachineOk(p, m) && Shared(m) && Stacked(m.frames) && lastFrame == StructAt(base, m.frames)
      && lastFrame + FRAME_WORDS <= mem.Length && mem[lastFrame + LAST_PC] == Top(m.frames).pc
    }

    /** What the struct at last_frame says about the last frame of m. */
    lemma SuspendedReads(m: Machine)
      requires Suspended(m)
      ensures var f, fr, prev := Last(m), lastFrame, PrevStruct(base, m.frames);
              && ProgramOk(p) && m.frames != [] && f.m < |p.h.methods| && f.m < |p.bodies|
              && 0 <= fr && fr + FRAME_WORDS <= mem.Length && mem[fr + MB] == f.m + 1 && mem[fr + LAST_PC] == f.pc
              && 0 <= mem[fr + LVARS] < mem.Length && mem[fr + LVARS] == LocalsAt(base, m.frames)
              && mem[fr + OSTACK] == fr + FRAME_WORDS
              && (!p.h.methods[f.m].isStatic ==> mem[mem[fr + LVARS]] == f.recv)
              && mem[fr + PREV] == prev && 0 <= prev && prev + FRAME_WORDS <= mem.Length
              && (mem[prev + MB] == 0 <==> |m.frames| == 1)
              && f.sync == SyncObject(p, f.m, [f.recv])
    {
      StructWords(m.frames);
      assert FrameOk(p, Last(m));
    }

    /** Leaving the last frame: its prev field leads to the frame that called it. */
    lemma SuspendedBelow(m: Machine)
      requires Suspended(m) && |m.frames| > 1
      ensures MachineOk(p, LeaveFrame(m)) && Stacked(Below(m.frames)) && LeaveFrame(m).frames == Below(m.frames)
      ensures var prev := PrevStruct(base, m.frames);
              prev == StructAt(base, Below(m.frames)) && mem[prev + LAST_PC] == Top(Below(m.frames)).pc
    {
      PrefixOk(p, m);
      StructWords(m.frames);
    }

    lemma UnwindStep(m: Machine, exc: Word, cls: nat)
      requires ProgramOk(p) && cls < |p.h.classes| && m.frames != [] && Last(m).m < |p.bodies|
      ensures var h := FindHandler(p, p.bodies[Last(m).m], Last(m).pc, cls, 0);
              && (h.Some? ==> Unwind(p, m, exc, cls) == Go(m, h.value, [exc]))
              && (h.None? && |m.frames| == 1 ==> Unwind(p, m, exc, cls) == Threw(m, exc))
              && (h.None? && |m.frames| > 1 ==> Unwind(p, m, exc, cls) == Unwind(p, LeaveFrame(m), exc, cls))
    {
    }

    /** One turn of the loop of findCatchBlock: unlock and go to the previous frame. */
    method LeaveToPrevious(ghost m: Machine)
      requires Suspended(m) && |m.frames| > 1
      modifies `lastFrame, `log
      ensures Suspended(LeaveFrame(m))
    {
      hide ProgramOk;
      hide MachineOk;
      hide SyncObject;
      hide Chain;
      hide CallersOk;
      hide StructAt;
      hide TopAddress;
      PreviousFrame(m);
      var fr := lastFrame;
      var ob := SyncObjectOf(mem[fr + MB] - 1, mem[mem[fr + LVARS]]);
      UnlockIf(ob);
      lastFrame := mem[fr + PREV];
    }

    /** The monitor to release and the frame to go on with, as the struct at last_frame tells. */
    lemma PreviousFrame(m: Machine)
      requires Suspended(m) && |m.frames| > 1
      ensures var fr := lastFrame;
              && ProgramOk(p) && Shared(m) && 0 <= fr && fr + FRAME_WORDS <= mem.Length
              && 0 < mem[fr + MB] <= |p.h.methods| && 0 <= mem[fr + LVARS] < mem.Length
              && SyncObject(p, mem[fr + MB] - 1, [mem[mem[fr + LVARS]]]) == Last(m).sync
              && MachineOk(p, LeaveFrame(m)) && LeaveFrame(m).frames == Below(m.frames) && Stacked(Below(m.frames))
              && mem[fr + PREV] == StructAt(base, Below(m.frames)) && 0 <= mem[fr + PREV]
              && mem[fr + PREV] + FRAME_WORDS <= mem.Length
              && mem[mem[fr + PREV] + LAST_PC] == Top(Below(m.frames)).pc
    {
      hide ProgramOk;
      hide MachineOk;
      hide Chain;
      hide CallersOk;
      hide StructAt;
      hide TopAddress;
      SuspendedReads(m);
      SuspendedBelow(m);
      if p.h.methods[Last(m).m].isStatic {
        StaticSync(p, Last(m).m, mem[mem[lastFrame + LVARS]], Last(m).recv);
      }
    }

    method FindCatchBlock(cls: nat, ghost m: Machine, ghost exc: Word)
      returns (handler: Option<int>, ghost cur: Machine)
      requires Suspended(m) && cls < |p.h.classes|
      modifies `lastFrame, `log
      ensures Suspended(cur) && cur.frames != []
      ensures Unwind(p, m, exc, cls) == if handler.Some? then Go(cur, handler.value, [exc]) else Threw(cur, exc)
      ensures handler.None? ==> |cur.frames| == 1
    {
      hide Suspended;
      hide ProgramOk;
      hide Unwind;
      hide FindHandler;
      hide SyncObject;
      hide TopAddress;
      cur := m;
      SuspendedReads(cur);
      UnwindStep(cur, exc, cls);
      handler := FindCatchBlockInMethod(mem[lastFrame + MB] - 1, cls, mem[lastFrame + LAST_PC]);
      while handler.None? && mem[mem[lastFrame + PREV] + MB] != 0
        invariant Suspended(cur) && cur.frames != [] && Last(cur).m < |p.bodies|
        invariant 0 <= lastFrame && lastFrame + FRAME_WORDS <= mem.Length
        invariant 0 <= mem[lastFrame + PREV] && mem[lastFrame + PREV] + FRAME_WORDS <= mem.Length
        invariant mem[mem[lastFrame + PREV] + MB] == 0 <==> |cur.frames| == 1
        invariant Unwind(p, m, exc, cls) == Unwind(p, cur, exc, cls)
        invariant handler == FindHandler(p, p.bodies[Last(cur).m], Last(cur).pc, cls, 0)
        decreases |cur.frames|
      {
        UnwindStep(cur, exc, cls);
        LeaveToPrevious(cur);
        LeaveShorter(cur);
        cur := LeaveFrame(cur);
        SuspendedReads(cur);
        handler := FindCatchBlockInMethod(mem[lastFrame + MB] - 1, cls, mem[lastFrame + LAST_PC]);
      }
      UnwindStep(cur, exc, cls);
    }

    /** throwException: the handler's frame goes on with the exception alone on its stack. */
    method ThrowException(exc: Word, ghost m: Machine) returns (done: bool)
      requires Represented(m) && !RaiseIn(p, m, exc).Stuck? && StateOk(p, RaiseIn(p, m, exc))
      requires FitsState(RaiseIn(p, m, exc))
      modifies `frame, `lvars, `ostack, `pc, `self, `mb, `lastFrame, `log, `exception, mem
      ensures Represents(RaiseIn(p, m, exc)) && done == !RaiseIn(p, m, exc).Running?
      ensures SameBelow(old(mem[..]), mem[..], base)
    {
      RaiseIsUnwind(p, m, exc);
      Suspend(m);
      var handler; ghost var cur;
      handler, cur := FindCatchBlock(heap[exc].cls, m, exc);
      done := handler.None?;
      if handler.None? {
        exception := exc;
        SuspendedFinishes(cur);
      } else {
        Resume(exc, handler.value, cur);
      }
    }

    /** Saving pc in the current frame struct. */
    method Suspend(ghost m: Machine)
      requires Represented(m)
      modifies mem
      ensures Suspended(m)
      ensures SameBelow(old(mem[..]), mem[..], base)
    {
      HoldsReads(m);
      SavePc(mem[..], base, m.frames);
      ghost var mem0 := mem[..];
      mem[frame + LAST_PC] := pc;
      assert mem[..] == mem0[StructAt(base, m.frames) + LAST_PC := Top(m.frames).pc];
    }

    lemma SuspendedFinishes(m: Machine)
      requires Suspended(m) && |m.frames| == 1
      ensures Finished(m)
    {
      SuspendedReads(m);
      StructWords(m.frames);
      assert Below(m.frames) == [];
    }

    /** What resuming at a handler needs to know of the frame it resumes. */
    lemma ResumeFacts(exc: Word, handlerPc: int, m: Machine)
      requires Suspended(m) && m.frames != [] && StateOk(p, Go(m, handlerPc, [exc]))
      requires TopAddress(base, Go(m, handlerPc, [exc]).m.frames) <= mem.Length
      ensures var f, fr := Last(m), lastFrame;
              && ProgramOk(p) && MachineOk(p, m) && MachineOk(p, Go(m, handlerPc, [exc]).m) && CallersOk(p, m.frames)
              && Chain(mem[..], base, m.frames) && FRAME_WORDS <= base && mem[base - FRAME_WORDS + MB] == 0 && Shared(m)
              && base <= mem.Length && f.m < |p.h.methods| && fr == StructAt(base, m.frames)
              && base <= fr && fr + FRAME_WORDS < mem.Length && mem[fr + MB] == f.m + 1
              && mem[fr + LVARS] == LocalsAt(base, m.frames) && mem[fr + OSTACK] == fr + FRAME_WORDS
              && 0 <= mem[fr + LVARS] < mem.Length && (!p.h.methods[f.m].isStatic ==> mem[mem[fr + LVARS]] == f.recv)
              && Go(m, handlerPc, [exc]).m.frames == Below(m.frames) + [f.(pc := handlerPc, stack := [exc])]
    {
      SuspendedReads(m);
      Address(base, m.frames);
      ChangeFrame(m.frames, Last(m).(pc := handlerPc, stack := [exc]));
      SameLocals(base, m.frames, Last(m).(pc := handlerPc, stack := [exc]));
      hide TopAddress;
      hide Chain;
      hide ProgramOk;
      hide CallersOk;
    }

    method Resume(exc: Word, handlerPc: int, ghost m: Machine)
      requires Suspended(m) && m.frames != [] && StateOk(p, Go(m, handlerPc, [exc]))
      requires TopAddress(base, Go(m, handlerPc, [exc]).m.frames) <= mem.Length
      modifies `frame, `lvars, `ostack, `pc, `self, `mb, mem
      ensures Represented(Go(m, handlerPc, [exc]).m)
      ensures SameBelow(old(mem[..]), mem[..], base)
    {
      hide Suspended;
      hide Represented;
      hide ProgramOk;
      hide MachineOk;
      hide StateOk;
      hide CallersOk;
      hide Chain;
      hide TopAddress;
      hide StructAt;
      hide LocalsAt;
      ResumeFacts(exc, handlerPc, m);
      ghost var mem0 := mem[..];
      frame := lastFrame;
      mb := mem[frame + MB] - 1;
      ostack := mem[frame + OSTACK];
      lvars := mem[frame + LVARS];
      self := mem[lvars];
      pc := handlerPc;
      mem[ostack] := exc;
      ostack := ostack + 1;
      StackHolds(mem0, m, Go(m, handlerPc, [exc]).m, [exc]);
    }

    // ----- returns -----

    /** Bytes of an invoke instruction, by the opcode that is there now (interp.c:1576, 1610). */
    function InvokeSize(at: int): int
      reads code
    {
      if At(code[..], at) == OPC_INVOKEINTERFACE then 5 else 3
    }

    lemma InvokeSizeIsLength(at: int)
      requires ProgramOk(p) && CodeOk(p, code[..], info) && at in p.sites && IsInvokeOpcode(At(p.orig, at))
      ensures InvokeSize(at) == Length(At(p.orig, at)) && 0 <= at < code.Length
    {
      SizeIsLength(p, code[..], info, at);
      assert SiteWellFormed(p, at);
    }

    /** The frame that called the last one, as the stack holds it. */
    lemma CallerReads(m: Machine)
      requires Represented(m) && |m.frames| > 1
      ensures var rest, prev := LeaveFrame(m), mem[frame + PREV];
              && ProgramOk(p) && MachineOk(p, rest) && rest.frames == Below(m.frames) && rest.frames != []
              && Chain(mem[..], base, rest.frames) && CallersOk(p, rest.frames)
              && HoldsStack(mem[..], prev + FRAME_WORDS, Last(rest).stack)
              && base <= prev == StructAt(base, rest.frames) && prev + FRAME_WORDS <= lvars
              && lvars == prev + FRAME_WORDS + |Last(rest).stack|
              && mem[prev + MB] == Last(rest).m + 1 && mem[prev + LAST_PC] == Last(rest).pc
              && base <= mem[prev + LVARS] == LocalsAt(base, rest.frames) <= prev
              && Last(rest).m < |p.h.methods|
              && (!p.h.methods[Last(rest).m].isStatic ==>
                   mem[prev + LVARS] < prev && mem[mem[prev + LVARS]] == Last(rest).recv)
    {
      hide ProgramOk;
      hide MachineOk;
      hide Chain;
      hide SavedPc;
      hide CallersOk;
      hide TopAddress;
      hide HoldsStack;
      CallerIsHeld(m);
      StructWords(m.frames);
      StructWords(Below(m.frames));
      Address(base, Below(m.frames));
    }

    lemma CallerIsHeld(m: Machine)
      requires Represented(m) && |m.frames| > 1
      ensures ProgramOk(p) && MachineOk(p, LeaveFrame(m)) && Stacked(m.frames) && Stacked(Below(m.frames))
      ensures LeaveFrame(m).frames == Below(m.frames) && frame == StructAt(base, m.frames)
      ensures lvars == LocalsAt(base, m.frames)
      ensures HoldsStack(mem[..], StructAt(base, Below(m.frames)) + FRAME_WORDS, Top(Below(m.frames)).stack)
      ensures var f := Last(LeaveFrame(m));
              && f.m < |p.h.methods|
              && (!p.h.methods[f.m].isStatic ==> |f.locals| > 0 && f.locals[0] == Some(f.recv))
    {
      PrefixOk(p, m);
      assert FrameOk(p, Last(LeaveFrame(m)));
      hide ProgramOk;
      hide TopAddress;
      hide FramesOk;
    }

    lemma ReturnPc(m: Machine)
      requires Represented(m) && |m.frames| > 1 && CodeOk(p, code[..], info)
      ensures var rest := LeaveFrame(m);
              && ProgramOk(p) && rest.frames != [] && 0 <= Last(rest).pc < code.Length
              && Last(rest).pc + InvokeSize(Last(rest).pc) == NextPc(p, rest)
    {
      var rest := LeaveFrame(m);
      assert m.frames[|m.frames| - 2] == Last(rest);
      InvokeSizeIsLength(Last(rest).pc);
    }

    lemma MonitorOfTop(m: Machine)
      requires Represented(m)
      ensures ProgramOk(p) && mb < |p.h.methods| && Last(m).sync == SyncObject(p, mb, [self])
    {
      assert FrameOk(p, Last(m));
      if p.h.methods[mb].isStatic {
        StaticSync(p, mb, Last(m).recv, self);
      }
    }

    method MethodReturn(hasValue: bool, ghost m: Machine) returns (done: bool)
      requires Represented(m) && CodeOk(p, code[..], info)
      requires !ReturnStep(p, m, hasValue).Stuck? && StateOk(p, ReturnStep(p, m, hasValue))
      modifies `frame, `lvars, `ostack, `pc, `self, `mb, `lastFrame, `log, mem
      ensures Represents(ReturnStep(p, m, hasValue)) && done == !ReturnStep(p, m, hasValue).Running?
      ensures SameBelow(old(mem[..]), mem[..], base)
    {
      ReturnReads(hasValue, m);
      hide Represented;
      hide ReturnStep;
      hide StateOk;
      if mem[mem[frame + PREV] + MB] == 0 {
        if hasValue {
          ostack := ostack - 1;
          mem[lvars] := mem[ostack];
          lvars := lvars + 1;
        }
        frame := mem[frame + PREV];
        return true;
      }
      ReturnInner(hasValue, m);
      return false;
    }

    /** What a return reads, and the step it has to take. */
    lemma ReturnReads(hasValue: bool, m: Machine)
      requires Represented(m) && !ReturnStep(p, m, hasValue).Stuck? && StateOk(p, ReturnStep(p, m, hasValue))
      ensures ReturnStep(p, m, hasValue).Running? ==> MachineOk(p, ReturnStep(p, m, hasValue).m)
      ensures ProgramOk(p) && m.frames != [] && (hasValue ==> Last(m).stack != [])
      ensures FRAME_WORDS <= base <= mem.Length && mem[base - FRAME_WORDS + MB] == 0
      ensures Shared(m) && base <= lvars <= frame == lastFrame && frame + FRAME_WORDS <= mem.Length
      ensures ostack <= mem.Length && (hasValue ==> base < ostack)
      ensures hasValue ==> mem[ostack - 1] == Last(m).stack[|Last(m).stack| - 1]
      ensures 0 <= mem[frame + PREV] && mem[frame + PREV] + FRAME_WORDS <= mem.Length
      ensures mem[mem[frame + PREV] + MB] == 0 <==> |m.frames| == 1
      ensures |m.frames| == 1 ==>
                && mem[frame + PREV] == base - FRAME_WORDS && lvars == base && frame == base + |m.frames[0].locals|
                && ReturnStep(p, m, hasValue)
                   == Returned(m, if hasValue then Some(Last(m).stack[|Last(m).stack| - 1]) else None)
      ensures |m.frames| > 1 ==>
                var rest := LeaveFrame(m);
                && rest.frames != []
                && ReturnStep(p, m, hasValue)
                   == Go(rest, NextPc(p, rest),
                         Last(rest).stack + if hasValue then [Last(m).stack[|Last(m).stack| - 1]] else [])
    {
      HoldsReads(m);
      TopWords(m);
      StructWords(m.frames);
      if |m.frames| == 1 {
        assert Below(m.frames) == [];
      }
    }

    /** Return to a method of the same run: its operand stack now ends where the locals began. */
    method ReturnInner(hasValue: bool, ghost m: Machine)
      requires Represented(m) && |m.frames| > 1 && CodeOk(p, code[..], info)
      requires ReturnStep(p, m, hasValue).Running? && StateOk(p, ReturnStep(p, m, hasValue))
      modifies `frame, `lvars, `ostack, `pc, `self, `mb, `lastFrame, `log, mem
      ensures Represented(ReturnStep(p, m, hasValue).m)
      ensures SameBelow(old(mem[..]), mem[..], base)
    {
      hide Represented;
      hide StateOk;
      hide MachineOk;
      hide ProgramOk;
      hide CodeOk;
      hide Chain;
      hide CallersOk;
      hide StructAt;
      hide LocalsAt;
      hide TopAddress;
      hide SyncObject;
      hide InvokeSize;
      hide NextPc;
      hide ReturnStep;
      ReturnReads(hasValue, m);
      CallerReads(m);
      ReturnPc(m);
      MonitorOfTop(m);
      ghost var mem0, rest := mem[..], LeaveFrame(m);
      ghost var value := if hasValue then [Last(m).stack[|Last(m).stack| - 1]] else [];
      BackToCaller(hasValue);
      assert HoldsStack(mem[..], StructAt(base, rest.frames) + FRAME_WORDS, Last(rest).stack + value);
      hide HoldsStack;
      StackHolds(mem0, rest, ReturnStep(p, m, hasValue).m, Last(rest).stack + value);
    }

    /** The result goes to the first local, the monitor is released, and the registers take their
        values from the struct of the calling frame. */
    method BackToCaller(hasValue: bool)
      requires ProgramOk(p) && mb < |p.h.methods| && 0 <= lvars <= frame && frame + FRAME_WORDS <= mem.Length
      requires var prev := mem[frame + PREV];
               && 0 <= prev && prev + FRAME_WORDS <= lvars && mem[prev + MB] > 0
               && 0 <= mem[prev + LVARS] <= prev && 0 <= mem[prev + LAST_PC] < code.Length
      requires hasValue ==> 1 <= ostack <= mem.Length
      modifies `frame, `lvars, `ostack, `pc, `self, `mb, `lastFrame, `log, mem
      ensures mem[..] == if hasValue then old(mem[..])[old(lvars) := old(mem[ostack - 1])] else old(mem[..])
      ensures var prev := old(mem[frame + PREV]);
              && frame == lastFrame == prev && mb == old(mem[prev + MB]) - 1 && lvars == old(mem[prev + LVARS])
              && self == old(mem[mem[prev + LVARS]])
              && pc == old(mem[prev + LAST_PC]) + InvokeSize(old(mem[prev + LAST_PC]))
      ensures ostack == old(lvars) + if hasValue then 1 else 0
      ensures var ob := SyncObject(p, old(mb), [old(self)]);
              log == if ob.Some? then old(log) + [Unlock(ob.value)] else old(log)
    {
      hide ProgramOk;
      hide SyncObject;
      hide InvokeSize;
      var ob := SyncObjectOf(mb, self);
      var to := PutResult(hasValue);
      UnlockIf(ob);
      ostack := to;
      LoadRegisters(mem[frame + PREV]);
    }

    /** The result goes to the first local. */
    method PutResult(hasValue: bool) returns (to: int)
      requires 0 <= lvars <= frame && frame + FRAME_WORDS <= mem.Length && (hasValue ==> 1 <= ostack <= mem.Length)
      modifies mem
      ensures mem[..] == if hasValue then old(mem[..])[lvars := old(mem[ostack - 1])] else old(mem[..])
      ensures forall a | 0 <= a < mem.Length && a != lvars :: mem[a] == old(mem[a])
      ensures to == lvars + if hasValue then 1 else 0
    {
      to := lvars;
      if hasValue {
        mem[lvars] := mem[ostack - 1];
        to := lvars + 1;
      }
    }

    /** The registers take their values from a frame struct. */
    method LoadRegisters(prev: int)
      requires 0 <= prev && prev + FRAME_WORDS <= mem.Length && mem[prev + MB] > 0
      requires 0 <= mem[prev + LVARS] <= prev && 0 <= mem[prev + LAST_PC] < code.Length
      modifies `frame, `lvars, `pc, `self, `mb, `lastFrame
      ensures frame == lastFrame == prev && mb == mem[prev + MB] - 1 && lvars == mem[prev + LVARS]
      ensures self == mem[lvars] && pc == mem[prev + LAST_PC] + InvokeSize(mem[prev + LAST_PC])
    {
      frame := prev;
      mb := mem[frame + MB] - 1;
      lvars := mem[frame + LVARS];
      self := mem[lvars];
      pc := mem[frame + LAST_PC];
      pc := pc + if code[pc] == OPC_INVOKEINTERFACE then 5 else 3;
      lastFrame := frame;
    }

    // ----- calls -----

    /** The word nargs below the top of the operand stack. */
    lemma ArgWord(m: Machine, nargs: nat)
      requires Represented(m)
      ensures m.frames != [] && ProgramOk(p) && ostack <= mem.Length
      ensures m.heap == heap && Last(m).m == mb < |p.h.methods|
      ensures 0 < nargs <= |Last(m).stack| ==>
                0 <= ostack - nargs && mem[ostack - nargs] == Last(m).stack[|Last(m).stack| - nargs]
    {
      HoldsReads(m);
      ghost var s := Last(m).stack;
      if 0 < nargs <= |s| {
        assert mem[frame + FRAME_WORDS + (|s| - nargs)] == s[|s| - nargs];
      }
    }

    /** The method to run, or the finding that the receiver is null. */
    method SelectCallee(sel: Selector, ghost m: Machine) returns (isNull: bool, callee: nat, nargs: nat)
      requires Represented(m) && !Select(p, m, sel).NoCallee? && !sel.Named? && !sel.SuperNamed?
      ensures isNull == Select(p, m, sel).NullReceiver?
      ensures !isNull ==> Select(p, m, sel) == Callee(callee, nargs)
      // invokeinterface: the nearest method of that signature, from the receiver's class upwards
      ensures sel.InterfaceNamed? && !isNull ==>
                && m.frames != [] && sel.m < |p.h.methods| && nargs == p.l.methods[sel.m].argsCount
                && 0 < nargs <= |Last(m).stack|
                && var ob := Last(m).stack[|Last(m).stack| - nargs];
                   && ob != 0 && ob in m.heap && m.heap[ob].cls < |p.h.classes|
                   && IsFound(p.h, m.heap[ob].cls, p.h.methods[sel.m].name, p.h.methods[sel.m].desc, callee)
    {
      ArgWord(m, 0);
      isNull, callee, nargs := false, 0, 0;
      match sel {
        case InterfaceNamed(n) =>
          nargs := p.l.methods[n].argsCount;
          ArgWord(m, nargs);
          var r := mem[ostack - nargs];
          if r == 0 {
            isNull := true;
          } else {
            var found := LookupMethod(p.h, heap[r].cls, p.h.methods[n].name, p.h.methods[n].desc);
            callee := found.value;
          }
        case Slot(k, n) =>
          nargs := n;
          ArgWord(m, nargs);
          var r := mem[ostack - nargs];
          if r == 0 {
            isNull := true;
          } else {
            callee := p.l.classes[heap[r].cls].table[k];
          }
        case SuperSlot(k) =>
          var super := p.h.classes[p.l.methods[mb].owner].super.value;
          callee := p.l.classes[super].table[k];
          nargs := ArgsOf(p, callee);
          ArgWord(m, nargs);
          isNull := mem[ostack - nargs] == 0;
        case Special(n) =>
          callee, nargs := n, p.l.methods[n].argsCount;
          ArgWord(m, nargs);
          isNull := mem[ostack - nargs] == 0;
        case Static(n) =>
          callee, nargs := n, p.l.methods[n].argsCount;
      }
    }

    lemma ArgsAre(m: Machine, nargs: nat)
      requires m.frames != [] && nargs <= |Last(m).stack|
      ensures ArgsAt(m, nargs, Last(m).stack[|Last(m).stack| - nargs..]) ==>
                && base <= ostack - nargs && ostack <= mem.Length
                && mem[ostack - nargs..ostack] == Last(m).stack[|Last(m).stack| - nargs..]
    {
    }

    /** The arguments of a call: the last nargs words of the operand stack. */
    ghost predicate ArgsAt(m: Machine, nargs: nat, args: seq<Word>)
      requires m.frames != []
      reads this, mem
    {
      && nargs <= |Last(m).stack| && args == Last(m).stack[|Last(m).stack| - nargs..]
      && base <= ostack - nargs && ostack <= mem.Length && mem[ostack - nargs..ostack] == args
    }

    lemma ArgsRead(m: Machine, nargs: nat)
      requires Represented(m) && nargs <= |Last(m).stack|
      ensures m.frames != [] && ArgsAt(m, nargs, Last(m).stack[|Last(m).stack| - nargs..])
    {
      HoldsReads(m);
      ghost var s := Last(m).stack;
      forall j | ostack - nargs <= j < ostack ensures mem[j] == s[j - frame - FRAME_WORDS] {
        assert mem[frame + FRAME_WORDS + (j - frame - FRAME_WORDS)] == s[j - frame - FRAME_WORDS];
      }
      assert mem[ostack - nargs..ostack] == s[|s| - nargs..];
    }

    /** The caller without its arguments: nothing moves, the operand stack ends lower. */
    lemma PoppedIsHeld(m: Machine, nargs: nat)
      requires Represented(m) && nargs <= |Last(m).stack|
      ensures m.frames != [] && MachineOk(p, PopArgs(m, nargs)) && Stacked(PopArgs(m, nargs).frames)
      ensures TopAddress(base, PopArgs(m, nargs).frames) == ostack - nargs
      ensures StructAt(base, PopArgs(m, nargs).frames) == frame && LocalsAt(base, PopArgs(m, nargs).frames) == lvars
      ensures Last(PopArgs(m, nargs)) == Last(m).(stack := Last(m).stack[..|Last(m).stack| - nargs])
    {
      hide Represented;
      hide ProgramOk;
      hide MachineOk;
      hide Chain;
      hide CallersOk;
      hide TopAddress;
      hide HoldsStack;
      Parts(m);
      var popped := PopArgs(m, nargs);
      PoppedOk(p, m, |Last(m).stack| - nargs);
      ChangeFrame(m.frames, Last(popped));
      SameCallers(p, m.frames, Last(popped));
      Address(base, m.frames);
      Address(base, popped.frames);
      StackPrefix(mem[..], frame + FRAME_WORDS, Last(m).stack, |Last(m).stack| - nargs);
      StackChanges(mem[..], mem[..], base, m.frames, pc, Last(popped).stack);
    }

    /** The stack after a call of a Java method: the callee's locals begin at the arguments. */
    lemma CallHolds(mem0: seq<int>, m: Machine, m': Machine, callee: nat, args: seq<Word>)
      requires ProgramOk(p) && MachineOk(p, m) && MachineOk(p, m') && Shared(m') && m.frames != []
      requires callee < |p.h.methods| && |args| <= p.l.methods[callee].maxLocals
      requires m'.frames == m.frames + [NewFrame(p, callee, args)]
      requires CallersOk(p, m.frames) && Last(m).pc in p.sites && IsInvokeOpcode(At(p.orig, Last(m).pc))
      requires Chain(mem0, base, m.frames) && SavedPc(mem0, base, m.frames)
      requires FRAME_WORDS <= base <= |mem0| && mem0[base - FRAME_WORDS + MB] == 0
      requires SameBelow(mem0, mem[..], TopAddress(base, m.frames))
      requires lvars == TopAddress(base, m.frames) && frame == lastFrame == lvars + p.l.methods[callee].maxLocals
      requires ostack == frame + FRAME_WORDS <= mem.Length && mb == callee && pc == p.bodies[callee].entry
      requires mem[lvars..lvars + |args|] == args && (args != [] ==> self == args[0])
      requires !p.h.methods[callee].isStatic ==> args != []
      requires HoldsStruct(mem[..], frame, callee, lvars, StructAt(base, m.frames))
      ensures Represented(m')
    {
      hide ProgramOk;
      hide MachineOk;
      hide Chain;
      hide CallersOk;
      hide TopAddress;
      hide HoldsTop;
      hide SavedPc;
      hide HoldsStruct;
      hide SameBelow;
      ghost var f := NewFrame(p, callee, args);
      assert Below(m'.frames) == m.frames && Top(m'.frames) == f;
      Address(base, m.frames);
      Address(base, m'.frames);
      NewTop(m.frames, callee, args);
      PushFrame(mem0, mem[..], base, m.frames, f);
      OneMoreCaller(p, m.frames, f);
      BelowIsSame(mem0, mem[..], TopAddress(base, m.frames), base - FRAME_WORDS + MB);
    }

    lemma NewTop(frames: seq<Frame>, callee: nat, args: seq<Word>)
      requires ProgramOk(p) && callee < |p.h.methods| && |args| <= p.l.methods[callee].maxLocals && frames != []
      requires TopAddress(base, frames) + p.l.methods[callee].maxLocals + FRAME_WORDS <= mem.Length
      requires mem[TopAddress(base, frames)..TopAddress(base, frames) + |args|] == args
      requires HoldsStruct(mem[..], TopAddress(base, frames) + p.l.methods[callee].maxLocals, callee,
          TopAddress(base, frames), StructAt(base, frames))
      ensures HoldsTop(mem[..], base, frames + [NewFrame(p, callee, args)])
    {
      hide ProgramOk;
      hide TopAddress;
      ghost var f, lv := NewFrame(p, callee, args), TopAddress(base, frames);
      assert Below(frames + [f]) == frames && Top(frames + [f]) == f;
      forall i: nat | i < |args| ensures mem[lv + i] == args[i] {
        assert mem[lv + i] == mem[lv..lv + |args|][i];
      }
      hide HoldsStruct;
    }

    /** Writes the callee's frame struct and saves the caller's pc. */
    method BuildFrame(newFrame: int, callee: nat, arg1: int)
      requires 0 <= frame && frame + FRAME_WORDS <= arg1 <= newFrame && newFrame + FRAME_WORDS <= mem.Length
      modifies mem
      ensures HoldsStruct(mem[..], newFrame, callee, arg1, frame)
      ensures mem[frame + LAST_PC] == pc
      ensures forall j | 0 <= j < newFrame && j != frame + LAST_PC :: mem[j] == old(mem[j])
      ensures forall i, j | arg1 <= i <= j <= newFrame :: mem[i..j] == old(mem[i..j])
    {
      mem[newFrame + MB] := callee + 1;
      mem[newFrame + LVARS] := arg1;
      mem[newFrame + OSTACK] := newFrame + FRAME_WORDS;
      mem[newFrame + PREV] := frame;
      mem[frame + LAST_PC] := pc;
    }

    method LockIf(ob: Option<Word>)
      modifies `log
      ensures log == if ob.Some? then old(log) + [Lock(ob.value)] else old(log)
    {
      if ob.Some? {
        log := log + [Lock(ob.value)];
      }
    }

    /** The registers of the called method; its locals are where the arguments are. */
    method EnterFrame(callee: nat, nargs: nat)
      requires ProgramOk(p) && callee < |p.h.methods| && 0 <= frame && frame + FRAME_WORDS <= ostack - nargs
      requires ostack <= mem.Length && nargs <= p.l.methods[callee].maxLocals
      requires ostack - nargs + p.l.methods[callee].maxLocals + FRAME_WORDS <= mem.Length
      modifies `frame, `lvars, `ostack, `pc, `self, `mb, `lastFrame, `log, mem
      ensures lvars == old(ostack) - nargs && frame == lastFrame == lvars + p.l.methods[callee].maxLocals
      ensures ostack == frame + FRAME_WORDS && mb == callee && pc == p.bodies[callee].entry
      ensures HoldsStruct(mem[..], frame, callee, lvars, old(frame)) && mem[old(frame) + LAST_PC] == old(pc)
      ensures forall j | 0 <= j < lvars && j != old(frame) + LAST_PC :: mem[j] == old(mem[j])
      ensures mem[lvars..lvars + nargs] == old(mem[ostack - nargs..ostack])
      ensures nargs > 0 ==> self == old(mem[ostack - nargs])
      ensures exists first: Word ::
                && (nargs > 0 ==> first == old(mem[ostack - nargs]))
                && var ob := SyncObject(p, callee, [first]);
                   log == if ob.Some? then old(log) + [Lock(ob.value)] else old(log)
    {
      assert callee < |p.l.methods| && callee < |p.bodies|;
      hide ProgramOk;
      var arg1 := ostack - nargs;
      var newFrame := arg1 + p.l.methods[callee].maxLocals;
      BuildFrame(newFrame, callee, arg1);
      lastFrame := newFrame;
      var first := mem[arg1];
      var ob := SyncObjectOf(callee, first);
      LockIf(ob);
      frame, mb, lvars := newFrame, callee, arg1;
      self := mem[lvars];
      ostack := newFrame + FRAME_WORDS;
      pc := p.bodies[callee].entry;
    }

    /** What a call of a Java method finds, and the machine it has to reach. */
    lemma JavaCallFacts(callee: nat, nargs: nat, m: Machine)
      requires Represented(m) && CanEnter(p, m, callee, nargs) && !p.h.methods[callee].isNative
      requires ostack - nargs + p.l.methods[callee].maxLocals <= stackEnd
      requires StateOk(p, Enter(p, m, callee, nargs))
      ensures m.frames != [] && Enter(p, m, callee, nargs).Running?
      ensures var args, popped := Last(m).stack[|Last(m).stack| - nargs..], PopArgs(m, nargs);
              var r := Enter(p, m, callee, nargs).m;
              && ProgramOk(p) && MachineOk(p, popped) && MachineOk(p, r) && popped.frames != [] && m.frames != []
              && callee < |p.h.methods| && callee < |p.l.methods| && callee < |p.bodies|
              && r.frames == popped.frames + [NewFrame(p, callee, args)]
              && r.base == base && r.heap == heap && r.statics == statics && r.stackEnd == stackEnd
              && r.log == (if SyncObject(p, callee, args).Some?
                           then log + [Lock(SyncObject(p, callee, args).value)] else log)
              && ArgsAt(m, nargs, args) && |args| == nargs && (args == [] ==> p.h.methods[callee].isStatic)
              && FRAME_WORDS <= base <= mem.Length && mem[base - FRAME_WORDS + MB] == 0
              && base <= lvars <= frame && frame + FRAME_WORDS <= ostack - nargs
              && CallersOk(p, popped.frames) && Last(popped).pc == pc
              && TopAddress(base, popped.frames) == ostack - nargs && StructAt(base, popped.frames) == frame
              && frame + LAST_PC < mem.Length
              && var mem1 := mem[..][frame + LAST_PC := pc];
                 Chain(mem1, base, popped.frames) && SavedPc(mem1, base, popped.frames)
    {
      hide Represented;
      hide ProgramOk;
      hide MachineOk;
      hide Chain;
      hide SavedPc;
      hide CallersOk;
      hide TopAddress;
      hide StructAt;
      hide LocalsAt;
      hide HoldsStack;
      hide NewFrame;
      hide SyncObject;
      hide Enter;
      Parts(m);
      LinkSizes(p);
      ArgsRead(m, nargs);
      PoppedIsHeld(m, nargs);
      Address(base, PopArgs(m, nargs).frames);
      EnterIsCall(p, m, callee, nargs);
      SavePc(mem[..], base, PopArgs(m, nargs).frames);
    }

    /** The call of a Java method that fits on the stack. */
    method JavaCall(callee: nat, nargs: nat, ghost m: Machine)
      requires Represented(m) && CanEnter(p, m, callee, nargs) && !p.h.methods[callee].isNative
      requires pc in p.sites && IsInvokeOpcode(At(p.orig, pc))
      requires ostack - nargs + p.l.methods[callee].maxLocals <= stackEnd
      requires ostack - nargs + p.l.methods[callee].maxLocals + FRAME_WORDS <= mem.Length
      requires StateOk(p, Enter(p, m, callee, nargs))
      modifies `frame, `lvars, `ostack, `pc, `self, `mb, `lastFrame, `log, mem
      ensures Enter(p, m, callee, nargs).Running? && Represented(Enter(p, m, callee, nargs).m)
      ensures SameBelow(old(mem[..]), mem[..], base)
    {
      hide Represented;
      hide Enter;
      hide Chain;
      hide SavedPc;
      hide StateOk;
      hide MachineOk;
      hide NewFrame;
      hide SyncObject;
      hide PopArgs;
      hide TopAddress;
      hide StructAt;
      hide LocalsAt;
      hide ProgramOk;
      hide CallersOk;
      hide IsInvokeOpcode;
      hide HoldsStruct;
      JavaCallFacts(callee, nargs, m);
      assert m.frames != [];
      ghost var args, popped := Last(m).stack[|Last(m).stack| - nargs..], PopArgs(m, nargs);
      ghost var mem1 := mem[..][frame + LAST_PC := pc];
      EnterFrame(callee, nargs);
      assert mem[lvars..lvars + nargs] == args;
      forall first: Word | args != [] ==> args[0] == first
        ensures SyncObject(p, callee, args) == SyncObject(p, callee, [first])
      {
        SyncOfArgs(p, callee, args, first);
      }
      CallHolds(mem1, popped, Enter(p, m, callee, nargs).m, callee, args);
    }

    /** The machine in which a native method's result is used, and the state it leads to. */
    lemma NativeMachine(callee: nat, nargs: nat, m: Machine)
      requires ProgramOk(p) && MachineOk(p, m) && CanEnter(p, m, callee, nargs) && p.h.methods[callee].isNative
      requires TopAddress(m.base, PopArgs(m, nargs).frames) + p.l.methods[callee].maxLocals <= m.stackEnd
      requires MachineOk(p, PopArgs(m, nargs))
      ensures var args, popped := Last(m).stack[|Last(m).stack| - nargs..], PopArgs(m, nargs);
              var sync := SyncObject(p, callee, args);
              var after := Released(Locked(popped, sync), sync);
              && after.frames == popped.frames && after.frames != [] && MachineOk(p, after)
              && after.frames == Below(m.frames) + [Last(m).(stack := Last(after).stack)]
              && after.base == m.base && after.heap == m.heap
              && after.statics == m.statics && after.stackEnd == m.stackEnd
              && after.log == (if sync.Some? then m.log + [Lock(sync.value)] + [Unlock(sync.value)] else m.log)
              && Enter(p, m, callee, nargs) == AfterNative(p, after, NextPc(p, m), p.native(callee, args))
              && callee < |p.h.methods| && callee < |p.l.methods| && p.l.methods[callee].maxLocals == nargs
              && |args| == nargs && (args == [] ==> p.h.methods[callee].isStatic)
    {
      hide AfterNative;
      hide RaiseIn;
      hide SyncObject;
      hide FramesOk;
      hide NextPc;
    }

    /** What a call of a native method finds: where its arguments and the caller's frame are. */
    lemma NativeCallMemory(nargs: nat, m: Machine)
      requires Represented(m) && nargs <= |Last(m).stack|
      ensures m.frames != [] && ProgramOk(p) && MachineOk(p, m)
      ensures CallersOk(p, m.frames) && MachineOk(p, PopArgs(m, nargs))
      ensures TopAddress(base, PopArgs(m, nargs).frames) == ostack - nargs
      ensures ArgsAt(m, nargs, Last(m).stack[|Last(m).stack| - nargs..])
      ensures base <= lvars <= frame == StructAt(base, m.frames)
              && frame + FRAME_WORDS + |Last(PopArgs(m, nargs)).stack| == ostack - nargs
      ensures HoldsStack(mem[..], frame + FRAME_WORDS, Last(PopArgs(m, nargs)).stack)
      ensures mb < |p.h.methods| && !p.h.methods[mb].isStatic ==> self == Last(m).recv
      ensures mb == Last(m).m && Last(m).pc == pc
      ensures lvars == LocalsAt(base, m.frames) && frame == lastFrame
      ensures frame + LAST_PC < mem.Length && Chain(mem[..][frame + LAST_PC := pc], base, m.frames)
      ensures FRAME_WORDS <= base <= mem.Length && mem[base - FRAME_WORDS + MB] == 0 && Shared(m)
    {
      hide Represented;
      hide ProgramOk;
      hide MachineOk;
      hide Chain;
      hide SavedPc;
      hide CallersOk;
      hide TopAddress;
      hide LocalsAt;
      hide ArgsAt;
      hide HoldsStack;
      Parts(m);
      ArgsRead(m, nargs);
      PoppedIsHeld(m, nargs);
      Address(base, PopArgs(m, nargs).frames);
      SavePc(mem[..], base, m.frames);
      StackPrefix(mem[..], frame + FRAME_WORDS, Last(m).stack, |Last(m).stack| - nargs);
    }

    lemma NativeCallFacts(callee: nat, nargs: nat, m: Machine)
      requires Represented(m) && CanEnter(p, m, callee, nargs) && p.h.methods[callee].isNative
      requires ostack - nargs + p.l.methods[callee].maxLocals <= stackEnd
      ensures m.frames != [] && ProgramOk(p) && |m.frames| > 0 && nargs <= |Last(m).stack|
      ensures var args, popped := Last(m).stack[|Last(m).stack| - nargs..], PopArgs(m, nargs);
              var sync := SyncObject(p, callee, args);
              var after := Released(Locked(popped, sync), sync);
              && after.frames != [] && MachineOk(p, after) && Last(after).pc == pc
              && Enter(p, m, callee, nargs) == AfterNative(p, after, NextPc(p, m), p.native(callee, args))
              && after.frames == Below(m.frames) + [Last(m).(pc := pc, stack := Last(after).stack)]
              && after.base == base && after.heap == heap && after.statics == statics && after.stackEnd == stackEnd
              && after.log == (if sync.Some? then log + [Lock(sync.value)] + [Unlock(sync.value)] else log)
              && ArgsAt(m, nargs, args) && |args| == nargs && (args == [] ==> p.h.methods[callee].isStatic)
              && callee < |p.h.methods| && callee < |p.l.methods| && p.l.methods[callee].maxLocals == nargs
              && base <= lvars <= frame == StructAt(base, m.frames)
              && frame + FRAME_WORDS + |Last(after).stack| == ostack - nargs
              && HoldsStack(mem[..], frame + FRAME_WORDS, Last(after).stack)
              && (mb < |p.h.methods| && !p.h.methods[mb].isStatic ==> self == Last(m).recv) && mb == Last(m).m
              && lvars == LocalsAt(base, m.frames) && frame == lastFrame
              && frame + LAST_PC < mem.Length && Chain(mem[..][frame + LAST_PC := pc], base, m.frames)
              && FRAME_WORDS <= base <= mem.Length && mem[base - FRAME_WORDS + MB] == 0
              && MachineOk(p, m) && CallersOk(p, m.frames)
    {
      hide Represented;
      hide AfterNative;
      hide Enter;
      hide MachineOk;
      hide SyncObject;
      hide Chain;
      hide TopAddress;
      hide LocalsAt;
      hide StructAt;
      hide HoldsStack;
      hide ArgsAt;
      hide CallersOk;
      hide ProgramOk;
      hide NextPc;
      NativeCallMemory(nargs, m);
      NativeMachine(callee, nargs, m);
      assert Last(m).(pc := pc) == Last(m);
    }

    /** The frame struct of a native method, its monitor, and the pc of the caller. */
    method EnterNative(callee: nat, nargs: nat) returns (args: seq<Word>, ob: Option<Word>)
      requires ProgramOk(p) && callee < |p.h.methods| && 0 <= frame && frame + FRAME_WORDS <= ostack - nargs
      requires ostack + FRAME_WORDS <= mem.Length && callee < |p.l.methods| && p.l.methods[callee].maxLocals == nargs
      modifies `lastFrame, `log, mem
      ensures args == old(mem[ostack - nargs..ostack])
      ensures mem[frame + LAST_PC] == pc && forall j | 0 <= j < ostack && j != frame + LAST_PC :: mem[j] == old(mem[j])
      ensures args != [] || p.h.methods[callee].isStatic ==> ob == SyncObject(p, callee, args)
      ensures log == if ob.Some? then old(log) + [Lock(ob.value)] else old(log)
    {
      var arg1 := ostack - nargs;
      var newFrame := arg1 + p.l.methods[callee].maxLocals;
      BuildFrame(newFrame, callee, arg1);
      lastFrame := newFrame;
      ob := SyncObjectOf(callee, mem[arg1]);
      LockIf(ob);
      args := mem[arg1..arg1 + nargs];
      if args != [] || p.h.methods[callee].isStatic {
        SyncOfArgs(p, callee, args, mem[arg1]);
      }
    }

    method NativeCall(callee: nat, nargs: nat, size: nat, ghost m: Machine) returns (done: bool)
      requires Represented(m) && CanEnter(p, m, callee, nargs) && p.h.methods[callee].isNative
      requires ostack - nargs + p.l.methods[callee].maxLocals <= stackEnd && ostack + FRAME_WORDS <= mem.Length
      requires pc + size == NextPc(p, m)
      requires !Enter(p, m, callee, nargs).Stuck? && StateOk(p, Enter(p, m, callee, nargs))
      requires FitsState(Enter(p, m, callee, nargs))
      modifies `frame, `lvars, `ostack, `pc, `self, `mb, `lastFrame, `log, `exception, mem
      ensures Represents(Enter(p, m, callee, nargs)) && done == !Enter(p, m, callee, nargs).Running?
      ensures SameBelow(old(mem[..]), mem[..], base)
    {
      hide Represented;
      hide Enter;
      hide Chain;
      hide StateOk;
      hide MachineOk;
      hide SyncObject;
      hide PopArgs;
      hide TopAddress;
      hide StructAt;
      hide LocalsAt;
      hide ProgramOk;
      hide CallersOk;
      hide AfterNative;
      hide Represents;
      hide FitsState;
      hide NextPc;
      hide CanEnter;
      hide HoldsStack;
      hide ArgsAt;
      hide SameBelow;
      ghost var mem0 := mem[..];
      NativeCallFacts(callee, nargs, m);
      ArgsAre(m, nargs);
      assert m.frames != [];
      ghost var sync := SyncObject(p, callee, Last(m).stack[|Last(m).stack| - nargs..]);
      ghost var after := Released(Locked(PopArgs(m, nargs), sync), sync);
      ghost var mem1 := mem[..][frame + LAST_PC := pc];
      var args, ob := EnterNative(callee, nargs);
      UnlockIf(ob);
      lastFrame := frame;
      ostack := ostack - nargs;
      NativeFrameGone(mem0, mem[..], frame, pc, old(ostack), Last(after).stack, base);
      StackHolds(mem1, m, after, Last(after).stack);
      ghost var mem2 := mem[..];
      done := NativeResultOp(p.native(callee, args), pc + size, after);
      SameBelowTwice(mem0, mem2, mem[..], base);
    }

    lemma NativeResultFacts(r: NativeResult, next: int, m: Machine)
      requires Represented(m) && !AfterNative(p, m, next, r).Stuck? && FitsState(AfterNative(p, m, next, r))
      ensures ProgramOk(p) && m.frames != []
      ensures r.NativeVoid? ==> AfterNative(p, m, next, r) == Go(m, next, Last(m).stack[..|Last(m).stack|] + [])
      ensures r.NativeValue? ==>
                && AfterNative(p, m, next, r) == Go(m, next, Last(m).stack[..|Last(m).stack|] + [r.w])
                && ostack + 1 <= mem.Length
      ensures r.NativeThrow? ==> AfterNative(p, m, next, r) == RaiseIn(p, m, r.exc)
      ensures ostack <= mem.Length
    {
      HoldsReads(m);
      var s := Last(m).stack;
      assert s[..|s|] == s && s + [] == s;
      if r.NativeValue? {
        var after := Go(m, next, s + [r.w]);
        Address(base, after.m.frames);
        ChangeFrame(m.frames, Last(after.m));
        Address(base, m.frames);
      }
      hide Represented;
      hide TopAddress;
    }

    /** The result of a native method, or the exception it left. */
    method NativeResultOp(r: NativeResult, next: int, ghost m: Machine) returns (done: bool)
      requires Represented(m) && !AfterNative(p, m, next, r).Stuck? && StateOk(p, AfterNative(p, m, next, r))
      requires FitsState(AfterNative(p, m, next, r))
      modifies `frame, `lvars, `ostack, `pc, `self, `mb, `lastFrame, `log, `exception, mem
      ensures Represents(AfterNative(p, m, next, r)) && done == !AfterNative(p, m, next, r).Running?
      ensures SameBelow(old(mem[..]), mem[..], base)
    {
      hide Represented;
      hide Represents;
      hide AfterNative;
      hide StateOk;
      hide FitsState;
      hide RaiseIn;
      hide ProgramOk;
      NativeResultFacts(r, next, m);
      match r {
        case NativeVoid =>
          PopPush(0, [], next, m);
          RunningIsRepresented(AfterNative(p, m, next, r));
          done := false;
        case NativeValue(w) =>
          PopPush(0, [w], next, m);
          RunningIsRepresented(AfterNative(p, m, next, r));
          done := false;
        case NativeThrow(exc) =>
          done := ThrowException(exc, m);
      }
    }

    method InvokeMethod(callee: nat, nargs: nat, size: nat, ghost m: Machine) returns (done: bool)
      requires Represented(m) && CanEnter(p, m, callee, nargs)
      requires pc in p.sites && IsInvokeOpcode(At(p.orig, pc)) && pc + size == NextPc(p, m)
      requires ostack + FRAME_WORDS <= mem.Length
      requires !Enter(p, m, callee, nargs).Stuck? && StateOk(p, Enter(p, m, callee, nargs))
      requires FitsState(Enter(p, m, callee, nargs))
      modifies `frame, `lvars, `ostack, `pc, `self, `mb, `lastFrame, `log, `exception, `stackEnd, mem
      ensures Represents(Enter(p, m, callee, nargs)) && done == !Enter(p, m, callee, nargs).Running?
      ensures SameBelow(old(mem[..]), mem[..], base)
    {
      InvokeFacts(callee, nargs, m);
      hide Represented;
      hide Enter;
      hide StateOk;
      hide Represents;
      hide NextPc;
      hide FitsState;
      if ostack - nargs + p.l.methods[callee].maxLocals > stackEnd {
        BumpStackEnd(m);
        done := ThrowException(p.stackOverflow, m.(stackEnd := m.stackEnd + 256));
      } else if p.h.methods[callee].isNative {
        done := NativeCall(callee, nargs, size, m);
      } else {
        JavaCall(callee, nargs, m);
        RunningIsRepresented(Enter(p, m, callee, nargs));
        done := false;
      }
    }

    lemma RunningIsRepresented(s: State)
      requires s.Running? && Represented(s.m)
      ensures Represents(s)
    {
    }

    method BumpStackEnd(ghost m: Machine)
      requires Represented(m)
      modifies `stackEnd
      ensures var m' := m.(stackEnd := m.stackEnd + 256); Represented(m') && m'.frames == m.frames
    {
      stackEnd := stackEnd + 256;
    }

    lemma InvokeFacts(callee: nat, nargs: nat, m: Machine)
      requires Represented(m) && CanEnter(p, m, callee, nargs) && FitsState(Enter(p, m, callee, nargs))
      ensures ProgramOk(p) && m.frames != [] && m.stackEnd == stackEnd
      ensures callee < |p.l.methods| && callee < |p.h.methods|
      ensures ostack - nargs + p.l.methods[callee].maxLocals > stackEnd ==>
                Enter(p, m, callee, nargs) == RaiseIn(p, m.(stackEnd := m.stackEnd + 256), p.stackOverflow)
      ensures ostack - nargs + p.l.methods[callee].maxLocals <= stackEnd && !p.h.methods[callee].isNative ==>
                ostack - nargs + p.l.methods[callee].maxLocals + FRAME_WORDS <= mem.Length
    {
      HoldsReads(m);
      PoppedIsHeld(m, nargs);
      EnterKinds(p, m, callee, nargs);
      ghost var popped := PopArgs(m, nargs);
      ghost var f := NewFrame(p, callee, Last(m).stack[|Last(m).stack| - nargs..]);
      assert Below(popped.frames + [f]) == popped.frames && Top(popped.frames + [f]) == f;
      Address(base, popped.frames + [f]);
      hide Represented;
      hide Enter;
      hide PopArgs;
      hide TopAddress;
      hide ProgramOk;
    }

    // ----- reading and rewriting the code -----

    function ByteAt(i: int): (b: byte)
      reads code
      ensures b == At(code[..], i)
    {
      if 0 <= i < code.Length then code[i] else 0
    }

    function IndexAt(i: int): (n: nat)
      reads code
      ensures n == Operand16(code[..], i)
    {
      Index16(ByteAt(i + 1), ByteAt(i + 2))
    }

    /** OPCODE_REWRITE */
    method OpcodeRewrite(opcode: byte)
      requires 0 <= pc < code.Length
      modifies code
      ensures code[..] == Put(old(code[..]), pc, opcode)
    {
      code[pc] := opcode;
    }

    /** OPCODE_REWRITE_OPERAND1 */
    method OpcodeRewriteOperand1(opcode: byte, operand1: byte)
      requires 0 <= pc && pc + 1 < code.Length
      modifies code
      ensures code[..] == Put(Put(old(code[..]), pc, opcode), pc + 1, operand1)
    {
      code[pc] := OPC_LOCK;
      code[pc + 1] := operand1;
      code[pc] := opcode;
    }

    /** OPCODE_REWRITE_OPERAND2 */
    method OpcodeRewriteOperand2(opcode: byte, operand1: byte, operand2: byte)
      requires 0 <= pc && pc + 2 < code.Length
      modifies code
      ensures code[..] == Put(Put(Put(old(code[..]), pc, opcode), pc + 1, operand1), pc + 2, operand2)
    {
      code[pc] := OPC_LOCK;
      code[pc + 1] := operand1;
      code[pc + 2] := operand2;
      code[pc] := opcode;
    }

    /** ldc and ldc_w with resolveSingleConstant */
    method LoadConstant(i: nat, quick: byte) returns (op: Option<Op>)
      requires ProgramOk(p) && pc in p.sites && 0 <= pc < code.Length
      modifies code, `info
      ensures Fetched(code[..], info, op) == FetchConstant(p, old(code[..]), old(info), pc, i, quick)
    {
      hide ProgramOk;
      var c := SiteClass(p, pc);
      var e := Entry(p, c, i);
      if !e.CpWord? && !e.CpString? {
        return Some(Undefined);
      }
      if e.CpString? {
        info := info[(c, i) := e.interned];
      }
      OpcodeRewrite(quick);
      return Some(Push(if e.CpWord? then e.w else e.interned));
    }

    method RewriteField(opcode: byte, offset: nat)
      requires 0 <= pc && pc + 1 < code.Length
      modifies code
      ensures code[..] == FieldRewrite(old(code[..]), pc, opcode, offset)
    {
      hide Put;
      if opcode == OPC_GETSTATIC || opcode == OPC_PUTSTATIC {
        OpcodeRewrite(QuickStatic(opcode));
      } else if offset > 255 {
        OpcodeRewrite(QuickFieldW(opcode));
      } else {
        OpcodeRewriteOperand1(QuickField(opcode), offset);
      }
    }

    /** The slow getstatic, putstatic, getfield and putfield. */
    method ResolveFieldOp(opcode: byte) returns (op: Option<Op>)
      requires ProgramOk(p) && pc in p.sites && 0 <= pc && pc + 2 < code.Length
      modifies code, `info
      ensures Fetched(code[..], info, op) == FetchField(p, old(code[..]), old(info), pc, opcode)
    {
      hide ProgramOk;
      hide Operand16;
      hide FieldRewrite;
      hide Cached;
      hide ResolveField;
      LinkSizes(p);
      var c, i := SiteClass(p, pc), IndexAt(pc);
      var f := Cached(info, c, i, ResolveField(p, c, i));
      if !Entry(p, c, i).CpField? {
        return Some(Undefined);
      }
      if f.None? {
        return Some(Raise(p.linkError));
      }
      if f.value >= |p.h.fields| || Width(p.h.fields[f.value]) == 2 {
        return Some(Undefined);
      }
      info := info[(c, i) := f.value];
      RewriteField(opcode, p.l.fields[f.value].offset);
      return None;
    }

    method RewriteInvoke(opcode: byte, index: nat, nargs: nat, isSuper: bool)
      requires 0 <= pc && pc + 2 < code.Length
      modifies code
      ensures code[..] == InvokeRewrite(old(code[..]), pc, opcode, index, nargs, isSuper)
    {
      hide Put;
      hide HighByte;
      if opcode == OPC_INVOKEVIRTUAL {
        if nargs < 256 && index < 256 {
          OpcodeRewriteOperand2(OPC_INVOKEVIRTUAL_QUICK, index, nargs);
        } else {
          OpcodeRewrite(OPC_INVOKEVIRTUAL_QUICK_W);
        }
      } else if opcode == OPC_INVOKESTATIC {
        OpcodeRewrite(OPC_INVOKESTATIC_QUICK);
      } else if isSuper {
        OpcodeRewriteOperand2(OPC_INVOKESUPER_QUICK, HighByte(index), index % 256);
      } else {
        OpcodeRewrite(OPC_INVOKENONVIRTUAL_QUICK);
      }
    }

    /** The slow invokes. */
    method ResolveInvoke(opcode: byte) returns (op: Option<Op>)
      requires ProgramOk(p) && pc in p.sites && 0 <= pc && pc + 2 < code.Length
      modifies code, `info
      ensures Fetched(code[..], info, op) == FetchInvoke(p, old(code[..]), old(info), pc, opcode)
    {
      hide ProgramOk;
      hide Operand16;
      hide InvokeRewrite;
      hide Cached;
      hide ResolveMethod;
      hide ResolveInterfaceMethod;
      hide IsSuperCall;
      LinkSizes(p);
      var c, i := SiteClass(p, pc), IndexAt(pc);
      var m := Cached(info, c, i,
        if opcode == OPC_INVOKEINTERFACE then ResolveInterfaceMethod(p, c, i) else ResolveMethod(p, c, i));
      if !IsMethodEntry(opcode, Entry(p, c, i)) {
        return Some(Undefined);
      }
      if m.None? {
        return Some(Raise(p.linkError));
      }
      if m.value >= |p.h.methods| {
        return Some(Undefined);
      }
      info := info[(c, i) := m.value];
      if opcode == OPC_INVOKEINTERFACE {
        return Some(Invoke(InterfaceNamed(m.value)));
      }
      RewriteInvoke(opcode, p.l.methods[m.value].tableIndex, p.l.methods[m.value].argsCount,
          IsSuperCall(p, c, m.value));
      return None;
    }

    /** What the self-rewriting machine does, by the opcode at pc. */
    lemma FetchCases()
      requires ProgramOk(p) && pc in p.sites && 0 <= pc < code.Length
      ensures var op, b1, b2, bytes := ByteAt(pc), ByteAt(pc + 1), ByteAt(pc + 2), code[..];
              var r := Fetch(p, bytes, info, pc);
              if op == OPC_LDC then r == FetchConstant(p, bytes, info, pc, b1, OPC_LDC_QUICK)
              else if op == OPC_LDC_W then r == FetchConstant(p, bytes, info, pc, IndexAt(pc), OPC_LDC_W_QUICK)
              else if op == OPC_ALOAD_0 then
                r == Fetched(Put(bytes, pc, if StaticSite(p, pc) then OPC_ILOAD_0 else OPC_ALOAD_THIS), info, None)
              else if op == OPC_ALOAD_THIS && b1 == OPC_GETFIELD_QUICK then
                r == Fetched(Put(bytes, pc, OPC_GETFIELD_THIS), info, None)
              else if IsFieldOpcode(op) then r == FetchField(p, bytes, info, pc, op)
              else if IsInvokeOpcode(op) then r == FetchInvoke(p, bytes, info, pc, op)
              else r == Fetched(bytes, info, Some(QuickOp(op, b1, b2)))
    {
      hide ProgramOk;
      hide FetchConstant;
      hide FetchField;
      hide FetchInvoke;
      hide Put;
    }

    /** A dispatch on the opcode at pc: rewrites the instruction, or yields the operation to run. */
    method Dispatch() returns (op: Option<Op>)
      requires ProgramOk(p) && QuickSafe(p) && pc in p.sites && CodeOk(p, code[..], info)
      modifies code, `info
      ensures Fetched(code[..], info, op) == Fetch(p, old(code[..]), old(info), pc)
      ensures CodeOk(p, code[..], info)
    {
      hide CodeOk;
      hide QuickSafe;
      hide ProgramOk;
      hide Operand16;
      hide Index16;
      hide Fetch;
      hide FetchConstant;
      hide FetchField;
      hide FetchInvoke;
      hide QuickOp;
      FetchIsOk(p, code[..], info, pc);
      SiteBytes(p, code[..], info, pc);
      FetchCases();
      var opcode, b1, b2 := ByteAt(pc), ByteAt(pc + 1), ByteAt(pc + 2);
      if opcode == OPC_LDC {
        op := LoadConstant(b1, OPC_LDC_QUICK);
      } else if opcode == OPC_LDC_W {
        op := LoadConstant(IndexAt(pc), OPC_LDC_W_QUICK);
      } else if opcode == OPC_ALOAD_0 {
        OpcodeRewrite(if StaticSite(p, pc) then OPC_ILOAD_0 else OPC_ALOAD_THIS);
        op := None;
      } else if opcode == OPC_ALOAD_THIS && b1 == OPC_GETFIELD_QUICK {
        OpcodeRewrite(OPC_GETFIELD_THIS);
        op := None;
      } else if IsFieldOpcode(opcode) {
        op := ResolveFieldOp(opcode);
      } else if IsInvokeOpcode(opcode) {
        op := ResolveInvoke(opcode);
      } else {
        op := Some(QuickOp(opcode, b1, b2));
      }
    }

    /** The opcodes that run without rewriting anything. */
    function QuickOp(opcode: byte, b1: byte, b2: byte): Op
      requires ProgramOk(p) && pc in p.sites
      reads this, code
    {
      var c, i := SiteClass(p, pc), IndexAt(pc);
      if opcode == OPC_LDC_QUICK then ConstantAt(info, c, b1)
      else if opcode == OPC_LDC_W_QUICK then ConstantAt(info, c, i)
      else if opcode == OPC_ALOAD_THIS then Load(0)
      else if opcode == OPC_GETFIELD_THIS then GetFieldThis(b2)
      else if opcode == OPC_GETSTATIC_QUICK then FieldAt(p, info, c, i, OPC_GETSTATIC)
      else if opcode == OPC_PUTSTATIC_QUICK then FieldAt(p, info, c, i, OPC_PUTSTATIC)
      else if opcode == OPC_GETFIELD_QUICK then GetField(b1)
      else if opcode == OPC_PUTFIELD_QUICK then PutField(b1)
      else if opcode == OPC_GETFIELD_QUICK_W then FieldAt(p, info, c, i, OPC_GETFIELD)
      else if opcode == OPC_PUTFIELD_QUICK_W then FieldAt(p, info, c, i, OPC_PUTFIELD)
      else if IsQuickInvoke(opcode) then InvokeAt(p, code[..], info, pc, opcode)
      else PlainOp(opcode, b1, b2, pc)
    }

    // ----- one turn of the dispatch loop -----

    /** A field instruction, with NULL_POINTER_CHECK. */
    method FieldOp(op: Op, size: nat, ghost m: Machine) returns (done: bool)
      requires Represented(m) && IsFieldOp(op) && !FieldStep(p, m, op).Stuck?
      requires StateOk(p, FieldStep(p, m, op)) && FitsState(FieldStep(p, m, op))
      requires size == Length(At(p.orig, pc)) || op.GetFieldThis?
      requires op.GetFieldThis? && mb < |p.h.methods| ==> !p.h.methods[mb].isStatic
      modifies `frame, `lvars, `ostack, `pc, `self, `mb, `lastFrame, `log, `exception, `heap, `statics, mem
      ensures Represents(FieldStep(p, m, op)) && done == !FieldStep(p, m, op).Running?
      ensures SameBelow(old(mem[..]), mem[..], base)
    {
      hide Represented;
      hide FieldStep;
      hide StateOk;
      hide Represents;
      hide TopAddress;
      hide ProgramOk;
      hide RaiseIn;
      Parts(m);
      TopWords(m);
      NullAccessRaises(m, op);
      if (op.GetField? && mem[ostack - 1] == 0) || (op.PutField? && mem[ostack - 2] == 0) {
        done := ThrowException(p.nullPointer, m);
        return;
      }
      if op.GetField? {
        GetFieldOp(op, size, m);
      } else if op.PutField? {
        PutFieldOp(op, size, m);
      } else if op.GetFieldThis? {
        GetFieldThisOp(op, Length(At(p.orig, pc)), m);
      } else if op.GetStatic? {
        GetStaticOp(op, size, m);
      } else {
        PutStaticOp(op, size, m);
      }
      RunningIsRepresented(FieldStep(p, m, op));
      done := false;
    }

    lemma NullAccessRaises(m: Machine, op: Op)
      requires ProgramOk(p) && m.frames != [] && IsFieldOp(op) && !FieldStep(p, m, op).Stuck?
      ensures IsNullAccess(m, op) ==> FieldStep(p, m, op) == RaiseIn(p, m, p.nullPointer)
      ensures !IsNullAccess(m, op) ==> FieldStep(p, m, op).Running?
      ensures op.GetField? ==> |Last(m).stack| >= 1
      ensures op.PutField? ==> |Last(m).stack| >= 2
    {
    }

    /** The operations a dispatch can yield, given how many bytes the instruction has. */
    ghost predicate Executable(op: Op, size: nat, m: Machine)
      requires ProgramOk(p)
      reads `pc, `mb, code
    {
      && (size == Length(At(p.orig, pc)) || op.GetFieldThis?)
      && (op.GetFieldThis? && mb < |p.h.methods| ==> !p.h.methods[mb].isStatic)
      && (op.Invoke? ==> pc in p.sites && IsInvokeOpcode(At(p.orig, pc)) && !op.sel.Named? && !op.sel.SuperNamed?)
    }

    method InvokeOp(sel: Selector, size: nat, ghost m: Machine) returns (done: bool)
      requires Represented(m) && !InvokeStep(p, m, sel).Stuck? && StateOk(p, InvokeStep(p, m, sel))
      requires FitsState(InvokeStep(p, m, sel)) && ostack + FRAME_WORDS <= mem.Length
      requires pc in p.sites && IsInvokeOpcode(At(p.orig, pc)) && size == Length(At(p.orig, pc))
      requires !sel.Named? && !sel.SuperNamed?
      modifies `frame, `lvars, `ostack, `pc, `self, `mb, `lastFrame, `log, `exception, `stackEnd, mem
      ensures Represents(InvokeStep(p, m, sel)) && done == !InvokeStep(p, m, sel).Running?
      ensures SameBelow(old(mem[..]), mem[..], base)
    {
      HoldsReads(m);
      hide Represented;
      hide Enter;
      hide Select;
      hide StateOk;
      hide Represents;
      hide RaiseIn;
      hide ProgramOk;
      hide FitsState;
      var isNull, callee, nargs := SelectCallee(sel, m);
      if isNull {
        done := ThrowException(p.nullPointer, m);
      } else {
        EnterNeeds(p, m, callee, nargs);
        done := InvokeMethod(callee, nargs, size, m);
      }
    }

    method ThrowOp(ghost m: Machine) returns (done: bool)
      requires Represented(m) && !ThrowStep(p, m).Stuck? && StateOk(p, ThrowStep(p, m)) && FitsState(ThrowStep(p, m))
      modifies `frame, `lvars, `ostack, `pc, `self, `mb, `lastFrame, `log, `exception, mem
      ensures Represents(ThrowStep(p, m)) && done == !ThrowStep(p, m).Running?
      ensures SameBelow(old(mem[..]), mem[..], base)
    {
      TopWords(m);
      hide Represented;
      hide StateOk;
      hide Represents;
      hide RaiseIn;
      if mem[ostack - 1] == 0 {
        done := ThrowException(p.nullPointer, m);
      } else {
        done := ThrowException(mem[ostack - 1], m);
      }
    }

    method Execute(op: Op, size: nat, ghost m: Machine) returns (done: bool)
      requires Represented(m) && CodeOk(p, code[..], info) && Executable(op, size, m)
      requires !Exec(p, m, op).Stuck? && StateOk(p, Exec(p, m, op)) && FitsState(Exec(p, m, op))
      requires ostack + FRAME_WORDS <= mem.Length
      modifies `frame, `lvars, `ostack, `pc, `self, `mb, `lastFrame, `log, `exception, `stackEnd, `heap, `statics, mem
      ensures Represents(Exec(p, m, op)) && done == !Exec(p, m, op).Running?
      ensures SameBelow(old(mem[..]), mem[..], base)
    {
      HoldsReads(m);
      OnlyRunning(m, op);
      hide Represented;
      hide Represents;
      hide StateOk;
      hide CodeOk;
      hide InvokeStep;
      hide ReturnStep;
      hide ThrowStep;
      hide RaiseIn;
      hide FieldStep;
      hide LocalStep;
      hide StackStep;
      hide TopAddress;
      if op.Invoke? {
        done := InvokeOp(op.sel, size, m);
      } else if op.Return? {
        done := MethodReturn(op.hasValue, m);
      } else if op.Throw? {
        done := ThrowOp(m);
      } else if op.Raise? {
        done := ThrowException(op.exc, m);
      } else if IsFieldOp(op) {
        done := FieldOp(op, size, m);
      } else {
        if op.Store? || op.Inc? {
          LocalOp(op, size, m);
        } else {
          StackOp(op, size, m);
        }
        RunningIsRepresented(Exec(p, m, op));
        done := false;
      }
    }

    lemma OnlyRunning(m: Machine, op: Op)
      requires ProgramOk(p) && m.frames != []
      ensures LocalStep(p, m, op).Running? || LocalStep(p, m, op).Stuck?
      ensures StackStep(p, m, op).Running? || StackStep(p, m, op).Stuck?
    {
    }

    /** One dispatch: exactly what the self-rewriting machine does. */
    method Step(ghost m: Machine) returns (done: bool, ghost s: State)
      requires Represented(m) && QuickOk(p, Quick(Running(m), code[..], info)) && AtSite(p, m)
      requires ostack + FRAME_WORDS <= mem.Length
      requires var q := QuickStep(p, Quick(Running(m), code[..], info));
               !q.state.Stuck? && FitsState(q.state) && QuickOk(p, q)
      modifies this, mem, code
      ensures Quick(s, code[..], info) == old(QuickStep(p, Quick(Running(m), code[..], info)))
      ensures Represents(s) && done == !s.Running? && QuickOk(p, Quick(s, code[..], info))
      ensures SameBelow(old(mem[..]), mem[..], base)
    {
      hide Represented;
      hide Represents;
      hide ProgramOk;
      hide Fetch;
      hide CodeOk;
      hide StateOk;
      hide FitsState;
      hide TopAddress;
      hide Exec;
      HoldsReads(m);
      FetchExecutable(p, code[..], info, pc);
      var op := Dispatch();
      if op.None? {
        done, s := false, Running(m);
        RunningIsRepresented(s);
      } else {
        SizeIsLength(p, code[..], info, pc);
        s := Exec(p, m, op.value);
        done := Execute(op.value, SizeNow(ByteAt(pc)), m);
      }
    }

    /** One dispatch, as j steps of the reference machine. */
    method Turn(ghost m: Machine) returns (done: bool, ghost s: State, ghost j: nat)
      requires Represented(m) && QuickOk(p, Quick(Running(m), code[..], info))
      requires Safe(p, Running(m), base, mem.Length)
      modifies this, mem, code
      ensures s == Run(p, Running(m), j) && Represents(s) && done == !s.Running?
      ensures QuickOk(p, Quick(s, code[..], info)) && Safe(p, s, base, mem.Length)
      ensures j == 0 ==> Pending(Quick(s, code[..], info)) < old(Pending(Quick(Running(m), code[..], info)))
      ensures SameBelow(old(mem[..]), mem[..], base)
    {
      ghost var q := Quick(Running(m), code[..], info);
      HoldsReads(m);
      j := DispatchOutcome(p, q, base, mem.Length);
      assert FitsState(QuickStep(p, q).state);
      hide Represented;
      hide Represents;
      hide QuickOk;
      hide Safe;
      hide QuickStep;
      hide Run;
      hide AtSite;
      hide TopAddress;
      hide FitsState;
      done, s := Step(m);
    }

    /** executeJava: dispatches until the outermost method has returned or left an exception. If the
        reference machine finishes from m within `fuel` steps, the loop ends, and with the result of
        the reference machine. */
    method ExecuteJava(ghost m: Machine, ghost fuel: nat)
      requires Represented(m) && QuickOk(p, Quick(Running(m), code[..], info))
      requires Safe(p, Running(m), base, mem.Length) && !Run(p, Running(m), fuel).Running?
      modifies this, mem, code
      ensures Represents(Run(p, Running(m), fuel))
      ensures CodeOk(p, code[..], info)
      ensures SameBelow(old(mem[..]), mem[..], base)
    {
      hide Represented;
      hide Safe;
      hide Run;
      hide Pending;
      hide CodeOk;
      hide StateOk;
      hide QuickSafe;
      hide ProgramOk;
      var done := false;
      ghost var s: State, k: nat := Running(m), 0;
      HoldsReads(m);
      RunNone(m);
      RunningIsRepresented(s);
      while !done
        invariant ProgramOk(p) && QuickOk(p, Quick(s, code[..], info))
        invariant s == Run(p, Running(m), k) && Represents(s) && done == !s.Running?
        invariant Safe(p, s, base, mem.Length)
        invariant !done ==> k <= fuel
        invariant SameBelow(old(mem[..]), mem[..], base)
        decreases !done, fuel - k, Pending(Quick(s, code[..], info))
      {
        ghost var j: nat;
        ghost var from := s;
        done, s, j := Turn(s.m);
        RunAdds(p, Running(m), k, j);
        k := k + j;
        if !done && k > fuel {
          StoppedBefore(m, fuel, k);
        }
      }
      StoppedTwice(m, fuel, k);
    }

    lemma RunNone(m: Machine)
      requires ProgramOk(p)
      ensures Run(p, Running(m), 0) == Running(m)
    {
    }

    lemma StoppedBefore(m: Machine, fuel: nat, k: nat)
      requires ProgramOk(p) && fuel <= k && !Run(p, Running(m), fuel).Running?
      ensures Run(p, Running(m), k) == Run(p, Running(m), fuel)
    {
      RunAdds(p, Running(m), fuel, k - fuel);
      FinalStays(p, Run(p, Running(m), fuel), k - fuel);
    }

    lemma StoppedTwice(m: Machine, fuel: nat, k: nat)
      requires ProgramOk(p) && !Run(p, Running(m), fuel).Running? && !Run(p, Running(m), k).Running?
      ensures Run(p, Running(m), k) == Run(p, Running(m), fuel)
    {
      if fuel <= k {
        StoppedBefore(m, fuel, k);
      } else {
        StoppedBefore(m, k, fuel);
      }
    }
  }
}
