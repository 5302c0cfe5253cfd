/**
 What calls, returns and exceptions do to the frames of the reference machine (interp.c:1540-1638,
 excep.c; sections 2.6, 2.10 and 6.5 of the JVMS), in terms of frames, words and lock operations alone.
 */
module CallsAndThrows {
  import opened Common
  import opened Hierarchy
  import opened Linking
  import opened Bytecode
  import opened Reference
  import opened Instructions

  // ----- calls -----

  /** The arguments of the call: the last n words of the operand stack, in order. */
  function Arguments(m: Machine, n: nat): seq<Word>
    requires m.frames != [] && n <= |Current(m).stack|
  {
    Current(m).stack[|Current(m).stack| - n..]
  }

  /** The lock operations at the start of a call: a synchronized static method takes the monitor of its
      class, a synchronized instance method that of its receiver. */
  function Taken(p: Program, r: nat, args: seq<Word>): seq<LockEvent>
    requires ProgramOk(p) && r < |p.h.methods|
  {
    var d := p.h.methods[r];
    if !d.isSync then []
    else if d.isStatic then
      if r < |p.l.methods| && p.l.methods[r].owner < |p.mirrors| then [Lock(p.mirrors[p.l.methods[r].owner])] else []
    else if args == [] then [] else [Lock(args[0])]
  }

  /** The method can be called with n words: as many as it takes, and the receiver among them. */
  predicate Callable(p: Program, m: Machine, r: nat, n: nat)
    requires m.frames != []
  {
    && r < |p.h.methods| && r < |p.l.methods| && n == p.l.methods[r].argsCount && n <= p.l.methods[r].maxLocals
    && n <= |Current(m).stack| && (p.h.methods[r].isStatic || n > 0)
    && (p.h.methods[r].isNative ==> n == p.l.methods[r].maxLocals)
  }

  /** The callers' frames, without the arguments. */
  function Callers(m: Machine, n: nat): seq<Frame>
    requires m.frames != [] && n <= |Current(m).stack|
  {
    var f := Current(m);
    m.frames[..|m.frames| - 1] + [f.(stack := f.stack[..|f.stack| - n])]
  }

  predicate Overflows(p: Program, m: Machine, r: nat, n: nat)
    requires m.frames != [] && n <= |Current(m).stack| && r < |p.l.methods|
  {
    TopAddress(m.base, Callers(m, n)) + p.l.methods[r].maxLocals > m.stackEnd
  }

  /** f is the frame of a call that has just begun. */
  ghost predicate IsNewFrame(p: Program, f: Frame, r: nat, args: seq<Word>)
    requires ProgramOk(p) && r < |p.bodies| && r < |p.l.methods|
  {
    && f.m == r && f.pc == p.bodies[r].entry && f.stack == [] && |f.locals| == p.l.methods[r].maxLocals
    && forall i: nat | i < |f.locals| :: f.locals[i] == if i < |args| then Some(args[i]) else None
  }

  /** A call of a Java method: the arguments leave the caller's operand stack and become the first locals. */
  lemma CallOpensFrame(p: Program, m: Machine, r: nat, n: nat)
    requires ProgramOk(p) && m.frames != [] && Callable(p, m, r, n) && !p.h.methods[r].isNative
    requires !Overflows(p, m, r, n)
    ensures r < |p.bodies| && Enter(p, m, r, n).Running?
    ensures var m' := Enter(p, m, r, n).m;
            && |m'.frames| == |m.frames| + 1 && m'.frames[..|m.frames|] == Callers(m, n)
            && IsNewFrame(p, Current(m'), r, Arguments(m, n))
            && m' == m.(frames := m'.frames, log := m.log + Taken(p, r, Arguments(m, n)))
  {
  }

  lemma TakenIs(p: Program, r: nat, args: seq<Word>)
    requires ProgramOk(p) && r < |p.h.methods|
    ensures Taken(p, r, args) == if SyncObject(p, r, args).Some? then [Lock(SyncObject(p, r, args).value)] else []
  {
  }

  /** A native method: its monitor is held around it, and its result is pushed or its exception thrown. */
  lemma NativeCall(p: Program, m: Machine, r: nat, n: nat)
    requires ProgramOk(p) && m.frames != [] && Callable(p, m, r, n) && p.h.methods[r].isNative
    requires !Overflows(p, m, r, n)
    ensures var f, args := Current(m), Arguments(m, n);
            var taken := Taken(p, r, args);
            var log := m.log + if taken == [] then [] else [Lock(taken[0].ob), Unlock(taken[0].ob)];
            var m' := m.(frames := Callers(m, n), log := log);
            match p.native(r, args)
            case NativeVoid => Enter(p, m, r, n) == Goes(m', f.pc + Length(At(p.orig, f.pc)), Current(m').stack)
            case NativeValue(w) =>
              Enter(p, m, r, n) == Goes(m', f.pc + Length(At(p.orig, f.pc)), Current(m').stack + [w])
            case NativeThrow(exc) => Enter(p, m, r, n) == RaiseIn(p, m', exc)
  {
    hide RaiseIn;
    hide Length;
    hide At;
    hide TopAddress;
    hide ProgramOk;
    var args := Arguments(m, n);
    var sync := SyncObject(p, r, args);
    TakenIs(p, r, args);
    hide SyncObject;
    hide Taken;
    assert m.log + [] == m.log;
    if sync.Some? {
      assert m.log + [Lock(sync.value), Unlock(sync.value)] == m.log + [Lock(sync.value)] + [Unlock(sync.value)];
    }
  }

  /** A call for which there is no room throws, and the end of the stack rises by 1024 bytes. */
  lemma CallOverflows(p: Program, m: Machine, r: nat, n: nat)
    requires ProgramOk(p) && m.frames != [] && Callable(p, m, r, n) && Overflows(p, m, r, n)
    ensures Enter(p, m, r, n) == RaiseIn(p, m.(stackEnd := m.stackEnd + 256), p.stackOverflow)
  {
  }

  // ----- returns -----

  /** What leaving a frame does to the log: the monitor its method took is released. */
  function Given(f: Frame): seq<LockEvent> {
    if f.sync.Some? then [Unlock(f.sync.value)] else []
  }

  /** ireturn, areturn and return: the caller gets the result on its operand stack and goes on behind its
      invoke instruction, which has five bytes for invokeinterface and three otherwise. */
  lemma ReturnToCaller(p: Program, m: Machine, op: int)
    requires ProgramOk(p) && op in {172, 176, 177} && IsAt(p, m, op) && |m.frames| > 1
    requires op == 177 || Current(m).stack != []
    requires 182 <= At(p.orig, m.frames[|m.frames| - 2].pc) <= 185
    ensures var f, g := Current(m), m.frames[|m.frames| - 2];
            var value := if op == 177 then [] else [f.stack[|f.stack| - 1]];
            var next := g.pc + if At(p.orig, g.pc) == 185 then 5 else 3;
            Step(p, Running(m)) == Running(m.(log := m.log + Given(f),
              frames := m.frames[..|m.frames| - 2] + [g.(pc := next, stack := g.stack + value)]))
  {
    hide ProgramOk;
    hide RefOp;
    hide Step;
    hide ReturnStep;
    Plain(p, m, op);
    hide Length;
    assert Step(p, Running(m)) == ReturnStep(p, m, op != 177);
    ReturnsTo(p, m, op != 177);
  }

  lemma ReturnsTo(p: Program, m: Machine, hasValue: bool)
    requires |m.frames| > 1 && (hasValue ==> Current(m).stack != [])
    requires 182 <= At(p.orig, m.frames[|m.frames| - 2].pc) <= 185
    ensures var f, g := Current(m), m.frames[|m.frames| - 2];
            var value := if hasValue then [f.stack[|f.stack| - 1]] else [];
            var next := g.pc + if At(p.orig, g.pc) == 185 then 5 else 3;
            ReturnStep(p, m, hasValue) == Running(m.(log := m.log + Given(f),
              frames := m.frames[..|m.frames| - 2] + [g.(pc := next, stack := g.stack + value)]))
  {
    assert m.log + [] == m.log;
    assert m.frames[..|m.frames| - 1][..|m.frames| - 2] == m.frames[..|m.frames| - 2];
  }

  /** The outermost method ends the run; its monitor is left to executeMethod. */
  lemma ReturnFromOutermost(p: Program, m: Machine, op: int)
    requires ProgramOk(p) && op in {172, 176, 177} && IsAt(p, m, op) && |m.frames| == 1
    requires op == 177 || Current(m).stack != []
    ensures var s := Current(m).stack;
            Step(p, Running(m)) == Returned(m, if op == 177 then None else Some(s[|s| - 1]))
  {
    hide ProgramOk;
    hide RefOp;
    hide Step;
    Plain(p, m, op);
  }

  // ----- exceptions -----

  /** athrow throws what is on the operand stack. */
  lemma AThrow(p: Program, m: Machine, s: seq<Word>, exc: Word)
    requires ProgramOk(p) && IsAt(p, m, 191) && Current(m).stack == s + [exc]
    ensures Step(p, Running(m)) == RaiseIn(p, m, if exc == 0 then p.nullPointer else exc)
  {
    hide ProgramOk;
    hide RefOp;
    hide Step;
    hide RaiseIn;
    Plain(p, m, 191);
  }

  /** Frame f has a handler for exceptions of the class, at pc. */
  ghost predicate Handles(p: Program, f: Frame, cls: nat, pc: int)
    requires ProgramOk(p) && cls < |p.h.classes|
  {
    f.m < |p.bodies| && exists i: nat :: FirstFitting(p, p.bodies[f.m], f.pc, cls, i)
                                         && pc == p.bodies[f.m].entry + p.bodies[f.m].handlers[i].handlerPc
  }

  ghost predicate HandlesNot(p: Program, f: Frame, cls: nat)
    requires ProgramOk(p) && cls < |p.h.classes|
  {
    && f.m < |p.bodies|
    && var b := p.bodies[f.m];
       forall i: nat | i < |b.handlers| :: !Fits(p, b.handlers[i], f.pc - b.entry, cls)
  }

  /** The monitors released when the frames above frame k are left, the innermost first. */
  function GivenAbove(frames: seq<Frame>, k: nat): seq<LockEvent>
    requires k < |frames|
    decreases |frames|
  {
    if k == |frames| - 1 then [] else Given(frames[|frames| - 1]) + GivenAbove(frames[..|frames| - 1], k)
  }

  /** One turn of the search for a handler. */
  lemma UnwindOnce(p: Program, m: Machine, exc: Word, cls: nat, pc: int)
    requires ProgramOk(p) && cls < |p.h.classes| && m.frames != []
    ensures HandlesNot(p, Current(m), cls) ==>
              Unwind(p, m, exc, cls) == if |m.frames| == 1 then Threw(m, exc) else Unwind(p, LeaveFrame(m), exc, cls)
    ensures Handles(p, Current(m), cls, pc) ==> Unwind(p, m, exc, cls) == Goes(m, pc, [exc])
  {
    hide FindHandler;
    hide ProgramOk;
    hide Fits;
    hide LeaveFrame;
    hide FirstFitting;
    FoundOrNot(p, m, cls, pc);
    hide Handles;
    hide HandlesNot;
  }

  lemma FoundOrNot(p: Program, m: Machine, cls: nat, pc: int)
    requires ProgramOk(p) && cls < |p.h.classes| && m.frames != []
    ensures Current(m) == Last(m)
    ensures var f := Current(m);
            && (Handles(p, f, cls, pc) ==>
                  f.m < |p.bodies| && FindHandler(p, p.bodies[f.m], f.pc, cls, 0) == Some(pc))
            && (HandlesNot(p, f, cls) ==> f.m < |p.bodies| && FindHandler(p, p.bodies[f.m], f.pc, cls, 0) == None)
  {
    var f := Current(m);
    if f.m < |p.bodies| {
      HandlerFrom(p, p.bodies[f.m], f.pc, cls, 0);
    }
    hide FindHandler;
    hide ProgramOk;
    hide Fits;
  }

  lemma LeftOnce(m: Machine, k: nat)
    requires k < |m.frames| - 1
    ensures var m' := LeaveFrame(m);
            && m'.frames == m.frames[..|m.frames| - 1] && m'.frames[..k + 1] == m.frames[..k + 1]
            && m'.log + GivenAbove(m'.frames, k) == m.log + GivenAbove(m.frames, k)
            && m' == m.(frames := m'.frames, log := m'.log)
  {
    assert m.log + [] == m.log;
    assert LeaveFrame(m).log == m.log + Given(m.frames[|m.frames| - 1]);
  }

  lemma {:induction false} UnwindsTo(p: Program, m: Machine, exc: Word, cls: nat, k: nat, pc: int)
    requires ProgramOk(p) && cls < |p.h.classes| && k < |m.frames| && Handles(p, m.frames[k], cls, pc)
    requires forall i: nat | k < i < |m.frames| :: HandlesNot(p, m.frames[i], cls)
    ensures Unwind(p, m, exc, cls) == Running(m.(log := m.log + GivenAbove(m.frames, k),
              frames := m.frames[..k] + [m.frames[k].(pc := pc, stack := [exc])]))
    decreases |m.frames|
  {
    hide ProgramOk;
    hide Handles;
    hide HandlesNot;
    hide Unwind;
    hide LeaveFrame;
    UnwindOnce(p, m, exc, cls, pc);
    if k < |m.frames| - 1 {
      LeftOnce(m, k);
      hide GivenAbove;
      UnwindsTo(p, LeaveFrame(m), exc, cls, k, pc);
      assert m.frames[..k] == m.frames[..k + 1][..k];
    } else {
      assert m.log + [] == m.log;
    }
  }

  lemma {:induction false} UnwindsOut(p: Program, m: Machine, exc: Word, cls: nat)
    requires ProgramOk(p) && cls < |p.h.classes| && m.frames != []
    requires forall i: nat | i < |m.frames| :: HandlesNot(p, m.frames[i], cls)
    ensures Unwind(p, m, exc, cls) ==
            Threw(m.(log := m.log + GivenAbove(m.frames, 0), frames := m.frames[..1]), exc)
    decreases |m.frames|
  {
    hide ProgramOk;
    hide Handles;
    hide HandlesNot;
    hide Unwind;
    hide LeaveFrame;
    UnwindOnce(p, m, exc, cls, 0);
    if |m.frames| > 1 {
      LeftOnce(m, 0);
      hide GivenAbove;
      UnwindsOut(p, LeaveFrame(m), exc, cls);
    } else {
      assert m.log + [] == m.log && m.frames[..1] == m.frames;
    }
  }

  /** An exception goes to the innermost frame with a handler that fits, which goes on at the first such
      handler with the exception alone on its operand stack. The frames above it are left, each with its
      monitor. */
  lemma ThrownToHandler(p: Program, m: Machine, exc: Word, k: nat, pc: int)
    requires ProgramOk(p) && exc != 0 && exc in m.heap && m.heap[exc].cls < |p.h.classes| && k < |m.frames|
    requires Handles(p, m.frames[k], m.heap[exc].cls, pc)
    requires forall i: nat | k < i < |m.frames| :: HandlesNot(p, m.frames[i], m.heap[exc].cls)
    ensures RaiseIn(p, m, exc) == Running(m.(log := m.log + GivenAbove(m.frames, k),
              frames := m.frames[..k] + [m.frames[k].(pc := pc, stack := [exc])]))
  {
    hide ProgramOk;
    hide Unwind;
    UnwindsTo(p, m, exc, m.heap[exc].cls, k, pc);
    hide Handles;
    hide HandlesNot;
  }

  /** If no frame has one the call ends with the exception, and the outermost frame keeps its monitor. */
  lemma ThrownOut(p: Program, m: Machine, exc: Word)
    requires ProgramOk(p) && exc != 0 && exc in m.heap && m.heap[exc].cls < |p.h.classes| && m.frames != []
    requires forall i: nat | i < |m.frames| :: HandlesNot(p, m.frames[i], m.heap[exc].cls)
    ensures RaiseIn(p, m, exc) == Threw(m.(log := m.log + GivenAbove(m.frames, 0), frames := m.frames[..1]), exc)
  {
    hide ProgramOk;
    hide Unwind;
    UnwindsOut(p, m, exc, m.heap[exc].cls);
    hide HandlesNot;
  }
}
