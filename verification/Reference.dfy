/** The reference machine: separate frames, code that never changes, selection by name. */
module Reference {
  import opened Common
  import opened Hierarchy
  import opened Linking
  import opened Bytecode

  datatype Obj = Obj(cls: nat, data: seq<Word>)

  /** `recv` is the first argument (the `this` that C caches) and `sync` the object whose monitor
      the method took. Locals hold nothing until the method assigns them. In a frame that has
      called another method, the arguments are gone from `stack` and `pc` is the invoke's. */
  datatype Frame = Frame(m: nat, pc: int, locals: seq<Option<Word>>, stack: seq<Word>,
                         recv: Word, sync: Option<Word>)

  datatype LockEvent = Lock(ob: Word) | Unlock(ob: Word)

  /** frames[0] belongs to the method that executeMethod started. `base` is the word address of
      its locals on the Java stack and `stackEnd` the address that the overflow test uses. */
  datatype Machine = Machine(frames: seq<Frame>, heap: map<Word, Obj>, statics: map<nat, Word>,
                             log: seq<LockEvent>, base: nat, stackEnd: int)

  datatype State = Running(m: Machine) | Returned(m: Machine, value: Option<Word>)
                 | Threw(m: Machine, exc: Word) | Stuck

  /** Words of a frame struct: method, saved pc, locals, operand stack, previous frame. */
  const FRAME_WORDS: nat := 5

  function Size(f: Frame): nat { |f.locals| + FRAME_WORDS + |f.stack| }

  /** The address just above the words that frames use when they are laid out one on another. */
  function TopAddress(base: nat, frames: seq<Frame>): nat {
    if frames == [] then base
    else TopAddress(base, frames[..|frames| - 1]) + Size(frames[|frames| - 1])
  }

  function Last(m: Machine): Frame
    requires m.frames != []
  {
    m.frames[|m.frames| - 1]
  }

  function SetLast(m: Machine, f: Frame): Machine
    requires m.frames != []
  {
    m.(frames := m.frames[..|m.frames| - 1] + [f])
  }

  /** The top frame goes on at pc with the given operand stack. */
  function Go(m: Machine, pc: int, stack: seq<Word>): State
    requires m.frames != []
  {
    Running(SetLast(m, Last(m).(pc := pc, stack := stack)))
  }

  function NextPc(p: Program, m: Machine): int
    requires m.frames != []
  {
    Last(m).pc + Length(At(p.orig, Last(m).pc))
  }

  function Locked(m: Machine, sync: Option<Word>): Machine {
    if sync.Some? then m.(log := m.log + [Lock(sync.value)]) else m
  }

  function Released(m: Machine, sync: Option<Word>): Machine {
    if sync.Some? then m.(log := m.log + [Unlock(sync.value)]) else m
  }

  /** The top frame is left and its monitor released. */
  function LeaveFrame(m: Machine): Machine
    requires m.frames != []
  {
    Released(m.(frames := m.frames[..|m.frames| - 1]), Last(m).sync)
  }

  // ----- exceptions (excep.c) -----

  predicate Catches(p: Program, t: CatchType, cls: nat)
    requires WellFormed(p.h) && cls < |p.h.classes|
  {
    match t
    case Finally => true
    case Unresolvable => false
    case Class(c) => IsAncestor(p.h, c, cls)
  }

  /** The first handler from i on whose range holds pc and that catches cls. */
  function FindHandler(p: Program, b: Body, pc: int, cls: nat, i: nat): (r: Option<int>)
    requires WellFormed(p.h) && cls < |p.h.classes| && i <= |b.handlers|
    decreases |b.handlers| - i
  {
    if i == |b.handlers| then None
    else
      var e := b.handlers[i];
      if e.startPc <= pc - b.entry < e.endPc && Catches(p, e.catchType, cls)
      then Some(b.entry + e.handlerPc)
      else FindHandler(p, b, pc, cls, i + 1)
  }

  /** The handler's range holds the code index, and it catches objects of the class: all of them, or those
      of a class that resolves and its subclasses. */
  ghost predicate Fits(p: Program, e: Handler, index: int, cls: nat)
    requires WellFormed(p.h) && cls < |p.h.classes|
  {
    && e.startPc <= index && index < e.endPc
    && (e.catchType == Finally || exists c: nat {:trigger IsAncestor(p.h, c, cls)} ::
          e.catchType == Class(c) && IsAncestor(p.h, c, cls))
  }

  /** Entry i of the exception table is the first that fits. */
  ghost predicate FirstFitting(p: Program, b: Body, pc: int, cls: nat, i: nat)
    requires WellFormed(p.h) && cls < |p.h.classes|
  {
    && i < |b.handlers| && Fits(p, b.handlers[i], pc - b.entry, cls)
    && forall k: nat | k < i :: !Fits(p, b.handlers[k], pc - b.entry, cls)
  }

  lemma {:induction false} HandlerFrom(p: Program, b: Body, pc: int, cls: nat, i: nat)
    requires WellFormed(p.h) && cls < |p.h.classes| && i <= |b.handlers|
    requires forall k: nat | k < i :: !Fits(p, b.handlers[k], pc - b.entry, cls)
    ensures forall k: nat | FirstFitting(p, b, pc, cls, k) ::
              FindHandler(p, b, pc, cls, i) == Some(b.entry + b.handlers[k].handlerPc)
    ensures FindHandler(p, b, pc, cls, i) == None <==>
              forall k: nat | k < |b.handlers| :: !Fits(p, b.handlers[k], pc - b.entry, cls)
    ensures FindHandler(p, b, pc, cls, i).Some? ==> exists k: nat :: FirstFitting(p, b, pc, cls, k)
    decreases |b.handlers| - i
  {
    if i < |b.handlers| {
      if Fits(p, b.handlers[i], pc - b.entry, cls) {
        assert FirstFitting(p, b, pc, cls, i);
        forall k: nat | FirstFitting(p, b, pc, cls, k) ensures k == i {
        }
      } else {
        HandlerFrom(p, b, pc, cls, i + 1);
      }
    }
  }

  function Unwind(p: Program, m: Machine, exc: Word, cls: nat): State
    requires ProgramOk(p) && cls < |p.h.classes| && m.frames != []
    decreases |m.frames|
  {
    var f := Last(m);
    if f.m >= |p.bodies| then Stuck else
    var handler := FindHandler(p, p.bodies[f.m], f.pc, cls, 0);
    if handler.Some? then Go(m, handler.value, [exc])
    else if |m.frames| == 1 then Threw(m, exc)
    else
      Unwind(p, LeaveFrame(m), exc, cls)
  }

  function RaiseIn(p: Program, m: Machine, exc: Word): State
    requires ProgramOk(p) && m.frames != []
  {
    if exc != 0 && exc in m.heap && m.heap[exc].cls < |p.h.classes|
    then Unwind(p, m, exc, m.heap[exc].cls)
    else Stuck
  }

  // ----- calls and returns -----

  datatype Selection = Callee(m: nat, nargs: nat) | NullReceiver | NoCallee

  function ArgsOf(p: Program, m: nat): nat
    requires Sized(p.h, p.l)
  {
    if m < |p.h.methods| then p.l.methods[m].argsCount else 0
  }

  /** The class of the receiver below nargs - 1 further arguments. */
  function ReceiverClass(p: Program, m: Machine, nargs: nat): Option<nat>
    requires m.frames != [] && 0 < nargs <= |Last(m).stack|
  {
    var s := Last(m).stack;
    var r := s[|s| - nargs];
    if r in m.heap && m.heap[r].cls < |p.h.classes| then Some(m.heap[r].cls) else None
  }

  function ByName(p: Program, c: nat, m: nat, nargs: nat): Selection
    requires ProgramOk(p) && c < |p.h.classes| && m < |p.h.methods|
  {
    var r := Lookup(p.h, c, p.h.methods[m].name, p.h.methods[m].desc);
    if r.Some? then Callee(r.value, nargs) else NoCallee
  }

  function InTable(p: Program, c: nat, k: nat): Option<nat>
    requires Sized(p.h, p.l) && c < |p.h.classes|
  {
    if k < |p.l.classes[c].table| then Some(p.l.classes[c].table[k]) else None
  }

  function Superclass(p: Program, m: Machine): Option<nat>
    requires ProgramOk(p) && m.frames != []
  {
    var k := Last(m).m;
    if k < |p.h.methods| && p.l.methods[k].owner < |p.h.classes| then
      assert WellFormedClass(p.h, p.l.methods[k].owner);
      p.h.classes[p.l.methods[k].owner].super
    else None
  }

  /** The method an invoke instruction runs. Selection by name demands what the JVMS demands of the
      code (sections 4.9.1 and 4.10): the receiver's class is the method's class or a subclass, and
      invokevirtual names no <init> or <clinit>. */
  function Select(p: Program, m: Machine, sel: Selector): Selection
    requires ProgramOk(p) && m.frames != []
  {
    match sel
    case Named(n) =>
      SelectVirtual(p, m, n, true)
    case InterfaceNamed(n) =>
      SelectVirtual(p, m, n, false)
    case Slot(k, nargs) =>
      if !(0 < nargs <= |Last(m).stack|) then NoCallee
      else if Last(m).stack[|Last(m).stack| - nargs] == 0 then NullReceiver
      else
        var d := ReceiverClass(p, m, nargs);
        var r := if d.Some? then InTable(p, d.value, k) else None;
        if r.Some? then Callee(r.value, nargs) else NoCallee
    case SuperNamed(n) =>
      var s := Superclass(p, m);
      if n < |p.h.methods| && s.Some? && s.value < |p.h.classes| && Eligible(p.h.methods[n])
      then Checked(p, m, ByName(p, s.value, n, ArgsOf(p, n))) else NoCallee
    case SuperSlot(k) =>
      var s := Superclass(p, m);
      var r := if s.Some? && s.value < |p.h.classes| then InTable(p, s.value, k) else None;
      if r.Some? then Checked(p, m, Callee(r.value, ArgsOf(p, r.value))) else NoCallee
    case Special(n) =>
      if n < |p.h.methods| && !p.h.methods[n].isStatic then Checked(p, m, Callee(n, ArgsOf(p, n))) else NoCallee
    case Static(n) =>
      if n < |p.h.methods| && p.h.methods[n].isStatic then Callee(n, ArgsOf(p, n)) else NoCallee
  }

  function SelectVirtual(p: Program, m: Machine, n: nat, byClass: bool): Selection
    requires ProgramOk(p) && m.frames != []
  {
    var nargs := ArgsOf(p, n);
    if n >= |p.h.methods| || !(0 < nargs <= |Last(m).stack|) || p.h.methods[n].isStatic then NoCallee
    else if Last(m).stack[|Last(m).stack| - nargs] == 0 then NullReceiver
    else
      var d := ReceiverClass(p, m, nargs);
      if d.None? then NoCallee
      else if byClass && !(p.l.methods[n].owner < |p.h.classes| && Eligible(p.h.methods[n])
                           && IsAncestor(p.h, p.l.methods[n].owner, d.value)) then NoCallee
      else ByName(p, d.value, n, nargs)
  }

  /** NULL_POINTER_CHECK(*arg1) once the callee is known. */
  function Checked(p: Program, m: Machine, s: Selection): Selection
    requires m.frames != []
  {
    if s.Callee? && 0 < s.nargs <= |Last(m).stack| then
      if Last(m).stack[|Last(m).stack| - s.nargs] == 0 then NullReceiver else s
    else NoCallee
  }

  function SyncObject(p: Program, callee: nat, args: seq<Word>): Option<Word>
    requires ProgramOk(p) && callee < |p.h.methods|
  {
    var d, c := p.h.methods[callee], p.l.methods[callee].owner;
    if !d.isSync then None
    else if d.isStatic then if c < |p.mirrors| then Some(p.mirrors[c]) else None
    else if args == [] then None else Some(args[0])
  }

  function NewFrame(p: Program, callee: nat, args: seq<Word>): Frame
    requires ProgramOk(p) && callee < |p.h.methods| && |args| <= p.l.methods[callee].maxLocals
  {
    var locals := seq(p.l.methods[callee].maxLocals, i requires i >= 0 => if i < |args| then Some(args[i]) else None);
    Frame(callee, p.bodies[callee].entry, locals, [], if args == [] then 0 else args[0],
          SyncObject(p, callee, args))
  }

  predicate CanEnter(p: Program, m: Machine, callee: nat, nargs: nat)
    requires Sized(p.h, p.l) && m.frames != []
  {
    && callee < |p.h.methods| && nargs <= |Last(m).stack| && p.l.methods[callee].argsCount == nargs
    && nargs <= p.l.methods[callee].maxLocals && (p.h.methods[callee].isStatic || nargs > 0)
    // linkClass gives native methods just their arguments as locals
    && (p.h.methods[callee].isNative ==> p.l.methods[callee].maxLocals == nargs)
  }

  function PopArgs(m: Machine, nargs: nat): Machine
    requires m.frames != [] && nargs <= |Last(m).stack|
  {
    SetLast(m, Last(m).(stack := Last(m).stack[..|Last(m).stack| - nargs]))
  }

  function AfterNative(p: Program, m: Machine, pc: int, r: NativeResult): State
    requires ProgramOk(p) && m.frames != []
  {
    match r
    case NativeVoid => Go(m, pc, Last(m).stack)
    case NativeValue(w) => Go(m, pc, Last(m).stack + [w])
    case NativeThrow(exc) => RaiseIn(p, m, exc)
  }

  /** invokeMethod */
  function Enter(p: Program, m: Machine, callee: nat, nargs: nat): State
    requires ProgramOk(p) && m.frames != []
  {
    if !CanEnter(p, m, callee, nargs) then Stuck
    else
      var args := Last(m).stack[|Last(m).stack| - nargs..];
      var popped := PopArgs(m, nargs);
      if TopAddress(m.base, popped.frames) + p.l.methods[callee].maxLocals > m.stackEnd then
        RaiseIn(p, m.(stackEnd := m.stackEnd + 256), p.stackOverflow)
      else
        var sync := SyncObject(p, callee, args);
        var locked := Locked(popped, sync);
        if p.h.methods[callee].isNative then
          AfterNative(p, Released(locked, sync), NextPc(p, m), p.native(callee, args))
        else
          Running(locked.(frames := locked.frames + [NewFrame(p, callee, args)]))
  }

  function InvokeStep(p: Program, m: Machine, sel: Selector): State
    requires ProgramOk(p) && m.frames != []
  {
    match Select(p, m, sel)
    case Callee(callee, nargs) => Enter(p, m, callee, nargs)
    case NullReceiver => RaiseIn(p, m, p.nullPointer)
    case NoCallee => Stuck
  }

  /** methodReturn: the monitor of the outermost method is left to executeMethod. */
  function ReturnStep(p: Program, m: Machine, hasValue: bool): State
    requires m.frames != []
  {
    var f := Last(m);
    if hasValue && f.stack == [] then Stuck
    else
      var value := if hasValue then Some(f.stack[|f.stack| - 1]) else None;
      if |m.frames| == 1 then Returned(m, value)
      else
        var rest := LeaveFrame(m);
        Go(rest, NextPc(p, rest), Last(rest).stack + if hasValue then [value.value] else [])
  }

  // ----- the other instructions -----

  function FieldStep(p: Program, m: Machine, op: Op): State
    requires ProgramOk(p) && m.frames != []
  {
    var s, pc := Last(m).stack, NextPc(p, m);
    var n := |s|;
    match op
    case GetField(off) =>
      if n < 1 then Stuck
      else if s[n - 1] == 0 then RaiseIn(p, m, p.nullPointer)
      else if s[n - 1] in m.heap && off < |m.heap[s[n - 1]].data| then
        Go(m, pc, s[..n - 1] + [m.heap[s[n - 1]].data[off]])
      else Stuck
    case PutField(off) =>
      if n < 2 then Stuck
      else if s[n - 2] == 0 then RaiseIn(p, m, p.nullPointer)
      else if s[n - 2] in m.heap && off < |m.heap[s[n - 2]].data| then
        var o := m.heap[s[n - 2]];
        Go(m.(heap := m.heap[s[n - 2] := o.(data := o.data[off := s[n - 1]])]), pc, s[..n - 2])
      else Stuck
    // the fused aload_0 and getfield: no null check, and four bytes further (interp.c:1109)
    case GetFieldThis(off) =>
      var r := Last(m).recv;
      if r in m.heap && off < |m.heap[r].data| then
        Go(m, Last(m).pc + 4, s + [m.heap[r].data[off]])
      else Stuck
    case GetStatic(f) =>
      if f in m.statics then Go(m, pc, s + [m.statics[f]]) else Stuck
    case PutStatic(f) =>
      if n < 1 || f !in m.statics then Stuck
      else Go(m.(statics := m.statics[f := s[n - 1]]), pc, s[..n - 1])
    case _ => Stuck
  }

  /** What an instruction does to the operand stack: words off, words on, and where to go on. */
  datatype Effect = Effect(pops: nat, pushes: seq<Word>, next: int)

  function StackEffect(f: Frame, op: Op, next: int): (e: Option<Effect>)
    ensures e.Some? ==> e.value.pops <= |f.stack|
  {
    var s, n := f.stack, |f.stack|;
    match op
    case Nop => Some(Effect(0, [], next))
    case Push(w) => Some(Effect(0, [w], next))
    case Load(i) =>
      if i < |f.locals| && f.locals[i].Some? then Some(Effect(0, [f.locals[i].value], next)) else None
    case Pop => if n >= 1 then Some(Effect(1, [], next)) else None
    case Dup => if n >= 1 then Some(Effect(0, [s[n - 1]], next)) else None
    case Swap => if n >= 2 then Some(Effect(2, [s[n - 1], s[n - 2]], next)) else None
    case Binary(g) => if n >= 2 then Some(Effect(2, [Apply(g, s[n - 2], s[n - 1])], next)) else None
    case If(c, target) =>
      if n >= 1 then Some(Effect(1, [], if Holds(c, ToInt(s[n - 1]), 0) then target else next)) else None
    case IfCmp(c, target) =>
      if n >= 2 then Some(Effect(2, [], if Holds(c, ToInt(s[n - 2]), ToInt(s[n - 1])) then target else next)) else None
    case Goto(target) => Some(Effect(0, [], target))
    case _ => None
  }

  function StackStep(p: Program, m: Machine, op: Op): State
    requires ProgramOk(p) && m.frames != []
  {
    var f := Last(m);
    var e := StackEffect(f, op, NextPc(p, m));
    if e.None? then Stuck
    else Go(m, e.value.next, f.stack[..|f.stack| - e.value.pops] + e.value.pushes)
  }

  /** Assignments to a local variable. */
  function LocalStep(p: Program, m: Machine, op: Op): State
    requires ProgramOk(p) && m.frames != []
  {
    var f, pc := Last(m), NextPc(p, m);
    match op
    case Store(i) =>
      if i < |f.locals| && f.stack != [] then
        Running(SetLast(m, f.(pc := pc, locals := f.locals[i := Some(f.stack[|f.stack| - 1])],
                              stack := f.stack[..|f.stack| - 1])))
      else Stuck
    case Inc(i, d) =>
      if i < |f.locals| && f.locals[i].Some? then
        Running(SetLast(m, f.(pc := pc, locals := f.locals[i := Some(ToWord(f.locals[i].value + d))])))
      else Stuck
    case _ => Stuck
  }

  predicate IsFieldOp(op: Op) {
    op.GetField? || op.PutField? || op.GetFieldThis? || op.GetStatic? || op.PutStatic?
  }

  function ThrowStep(p: Program, m: Machine): State
    requires ProgramOk(p) && m.frames != []
  {
    var s := Last(m).stack;
    if s == [] then Stuck
    else if s[|s| - 1] == 0 then RaiseIn(p, m, p.nullPointer)
    else RaiseIn(p, m, s[|s| - 1])
  }

  function Exec(p: Program, m: Machine, op: Op): State
    requires ProgramOk(p) && m.frames != []
  {
    if op.Invoke? then InvokeStep(p, m, op.sel)
    else if op.Return? then ReturnStep(p, m, op.hasValue)
    else if op.Throw? then ThrowStep(p, m)
    else if op.Raise? then RaiseIn(p, m, op.exc)
    else if IsFieldOp(op) then FieldStep(p, m, op)
    else if op.Store? || op.Inc? then LocalStep(p, m, op)
    else StackStep(p, m, op)
  }

  predicate AtSite(p: Program, m: Machine) {
    m.frames != [] && Last(m).pc in p.sites && p.sites[Last(m).pc] == Last(m).m
  }

  function Step(p: Program, s: State): State
    requires ProgramOk(p)
  {
    if !s.Running? then s
    else if !AtSite(p, s.m) then Stuck
    else Exec(p, s.m, RefOp(p, Last(s.m).pc))
  }

  function Run(p: Program, s: State, n: nat): State
    requires ProgramOk(p)
    decreases n
  {
    if n == 0 then s else Run(p, Step(p, s), n - 1)
  }
}
