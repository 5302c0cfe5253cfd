/**
 Calls from C into Java (execute.c and the macros of frame.h): a dummy frame and the method's frame
 above everything the calling frame may use, the arguments pushed as the descriptor says, the
 monitor, the interpreter, and everything taken back.
 */
module Execute {
  import opened Common
  import opened Descriptors
  import opened Hierarchy
  import opened Linking
  import opened Bytecode
  import opened Reference
  import opened FlatStack
  import opened Quickening
  import opened Simulation
  import opened Monitors
  import opened Interpreter

  /** A C argument: one word, or a 64-bit value that fills two. */
  datatype Arg = Single(w: Word) | Double(first: Word, second: Word)

  function ArgWidth(a: Arg): nat { if a.Single? then 1 else 2 }

  function WordsOfArgs(args: seq<Arg>): seq<Word> {
    if args == [] then []
    else (if args[0].Single? then [args[0].w] else [args[0].first, args[0].second]) + WordsOfArgs(args[1..])
  }

  /** The arguments are those the descriptor announces. */
  predicate Fit(args: seq<Arg>, widths: seq<nat>) {
    |args| == |widths| && forall i :: 0 <= i < |args| ==> ArgWidth(args[i]) == widths[i]
  }

  lemma {:induction false} WordsAreSum(args: seq<Arg>, widths: seq<nat>)
    requires Fit(args, widths)
    ensures |WordsOfArgs(args)| == Sum(widths)
    decreases |args|
  {
    if args != [] {
      WordsAreSum(args[1..], widths[1..]);
    }
  }

  lemma {:induction false} WordsAppend(args: seq<Arg>, a: Arg)
    ensures WordsOfArgs(args + [a]) == WordsOfArgs(args) + (if a.Single? then [a.w] else [a.first, a.second])
    decreases |args|
  {
    if args == [] {
      assert (args + [a])[1..] == [];
    } else {
      assert (args + [a])[1..] == args[1..] + [a];
      WordsAppend(args[1..], a);
    }
  }

  /** SCAN_SIG with VA_DOUBLE and VA_SINGLE: the words of the arguments from sp on, as many as
      linkClass counted (class.c:500, execute.c:41-44). */
  method PushArguments(mem: array<int>, start: nat, sig: string, args: seq<Arg>) returns (sp: nat)
    requires Scannable(sig) && Fit(args, Widths(sig, 1).value.0) && start + ArgWords(sig) <= mem.Length
    modifies mem
    ensures sp == start + ArgWords(sig) && mem[start..sp] == WordsOfArgs(args)
    ensures forall i | 0 <= i < mem.Length && !(start <= i < sp) :: mem[i] == old(mem[i])
  {
    hide Widths;
    hide SkipSingle;
    hide Fit;
    hide WordsOfArgs;
    sp := start;
    var p, n := 1, 0;
    WordsAreSum(args, Widths(sig, 1).value.0);
    NoArgs(sig, args);
    while sig[p] != ')'
      invariant p < |sig| && Widths(sig, p).Some? && n <= |args|
      invariant Fit(args[n..], Widths(sig, p).value.0)
      invariant sp == start + |WordsOfArgs(args[..n])|
      invariant sp + Sum(Widths(sig, p).value.0) == start + ArgWords(sig)
      invariant mem[start..sp] == WordsOfArgs(args[..n])
      invariant forall i | 0 <= i < mem.Length && !(start <= i < sp) :: mem[i] == old(mem[i])
      decreases |sig| - p
    {
      NextArg(sig, p, args, n);
      ghost var mem0 := mem[start..sp];
      var a := args[n];
      if sig[p] == 'J' || sig[p] == 'D' {
        mem[sp], mem[sp + 1] := a.first, a.second;
        sp := sp + 2;
        p := p + 1;
        assert mem[start..sp] == mem0 + [a.first, a.second];
      } else {
        mem[sp] := a.w;
        sp := sp + 1;
        p := SkipArgument(sig, p);
        assert mem[start..sp] == mem0 + [a.w];
      }
      n := n + 1;
    }
    LastArg(sig, p, args, n);
  }

  lemma NoArgs(sig: string, args: seq<Arg>)
    requires Scannable(sig) && Fit(args, Widths(sig, 1).value.0)
    ensures WordsOfArgs(args[..0]) == [] && args[0..] == args && 1 < |sig|
  {
  }

  /** The next argument is what the descriptor has at p. */
  lemma NextArg(sig: string, p: nat, args: seq<Arg>, n: nat)
    requires p < |sig| && Widths(sig, p).Some? && n <= |args| && Fit(args[n..], Widths(sig, p).value.0) && sig[p] != ')'
    ensures var wide := sig[p] == 'J' || sig[p] == 'D';
            && n < |args| && args[n].Double? == wide && (!wide ==> SkipSingle(sig, p).Some?)
            && var q := if wide then p + 1 else SkipSingle(sig, p).value;
               && q < |sig| && p < q && Widths(sig, q).Some? && Fit(args[n + 1..], Widths(sig, q).value.0)
               && Sum(Widths(sig, p).value.0) == (if wide then 2 else 1) + Sum(Widths(sig, q).value.0)
    ensures WordsOfArgs(args[..n + 1]) ==
              WordsOfArgs(args[..n]) + (if args[n].Single? then [args[n].w] else [args[n].first, args[n].second])
  {
    var widths, rest := Widths(sig, p).value.0, args[n..];
    assert ArgWidth(rest[0]) == widths[0];
    assert args[..n + 1] == args[..n] + [args[n]];
    WordsAppend(args[..n], args[n]);
    var q := if sig[p] == 'J' || sig[p] == 'D' then p + 1 else SkipSingle(sig, p).value;
    assert Widths(sig, q).value.0 == widths[1..];
    assert args[n + 1..] == rest[1..];
    hide WordsOfArgs;
    hide SkipSingle;
  }

  lemma LastArg(sig: string, p: nat, args: seq<Arg>, n: nat)
    requires p < |sig| && Widths(sig, p).Some? && n <= |args| && Fit(args[n..], Widths(sig, p).value.0) && sig[p] == ')'
    ensures n == |args| && args[..n] == args && Sum(Widths(sig, p).value.0) == 0
  {
  }

  // ----- the call -----

  /** The machine in which the method begins: one frame with the arguments as its first locals. */
  ghost function Start(t: Interp, callee: nat, args: seq<Word>): Machine
    requires ProgramOk(t.p) && callee < |t.p.h.methods| && |args| <= t.p.l.methods[callee].maxLocals
    reads t
  {
    var sync := SyncObject(t.p, callee, args);
    Locked(Machine([], t.heap, t.statics, t.log, t.base, t.stackEnd), sync).(frames := [NewFrame(t.p, callee, args)])
  }

  /** How the call ends: a native method at once, any other when the reference machine stops. */
  ghost function Outcome(p: Program, m: Machine, callee: nat, args: seq<Word>, fuel: nat): State
    requires ProgramOk(p) && callee < |p.h.methods|
  {
    if p.h.methods[callee].isNative then
      match p.native(callee, args)
      case NativeVoid => Returned(m, None)
      case NativeValue(w) => Returned(m, Some(w))
      case NativeThrow(exc) => Threw(m, exc)
    else Run(p, Running(m), fuel)
  }

  /** What the caller demands: room for the frames, a method, and arguments that fit it. */
  ghost predicate Callable(t: Interp, callee: nat, ob: Word, args: seq<Arg>)
    reads t, t.mem, t.code
  {
    var p, last := t.p, t.lastFrame;
    && ProgramOk(p) && QuickSafe(p) && CodeOk(p, t.code[..], t.info) && callee < |p.h.methods|
    && (p.h.methods[callee].isStatic <==> ob == 0)
    && Scannable(p.h.methods[callee].desc) && Fit(args, Widths(p.h.methods[callee].desc, 1).value.0)
    && p.l.methods[callee].argsCount == ArgWords(p.h.methods[callee].desc) + (if ob == 0 then 0 else 1)
    && p.l.methods[callee].argsCount <= p.l.methods[callee].maxLocals
    // last_frame is the frame of a method, and its operand stack begins after it
    && 0 <= last && last + FRAME_WORDS <= t.mem.Length && 0 < t.mem[last + MB] <= |p.l.methods|
    && last + FRAME_WORDS <= t.mem[last + OSTACK]
    && t.base == t.mem[last + OSTACK] + p.l.methods[t.mem[last + MB] - 1].maxStack + FRAME_WORDS
    && t.base + p.l.methods[callee].maxLocals + FRAME_WORDS <= t.mem.Length
  }

  function AllArgs(ob: Word, args: seq<Arg>): seq<Word> {
    (if ob == 0 then [] else [ob]) + WordsOfArgs(args)
  }

  lemma AllArgsFit(t: Interp, callee: nat, ob: Word, args: seq<Arg>)
    requires Callable(t, callee, ob, args)
    ensures |AllArgs(ob, args)| == t.p.l.methods[callee].argsCount
  {
    WordsAreSum(args, Widths(t.p.h.methods[callee].desc, 1).value.0);
  }

  /** Under the frame struct at `at` lies a dummy frame, and under that the caller's frame. */
  predicate OnDummyOver(mem: seq<int>, at: int, caller: int) {
    && 0 <= at && at + FRAME_WORDS <= |mem|
    && 0 <= mem[at + PREV] && mem[at + PREV] + FRAME_WORDS <= |mem|
    && mem[mem[at + PREV] + MB] == 0 && mem[mem[at + PREV] + PREV] == caller
  }

  /** CREATE_TOP_FRAME. (The C text never assigns sp, frame.h:16-18; it means ret = sp = dummy+1.) */
  method CreateTopFrame(t: Interp, callee: nat, maxStack: nat) returns (sp: nat)
    requires ProgramOk(t.p) && callee < |t.p.h.methods|
    requires 0 <= t.lastFrame && t.lastFrame + FRAME_WORDS <= t.mem.Length
    requires t.lastFrame + FRAME_WORDS <= t.mem[t.lastFrame + OSTACK]
    requires t.base == t.mem[t.lastFrame + OSTACK] + maxStack + FRAME_WORDS
    requires t.base + t.p.l.methods[callee].maxLocals + FRAME_WORDS <= t.mem.Length
    modifies t`lastFrame, t.mem
    ensures sp == t.base && t.lastFrame == sp + t.p.l.methods[callee].maxLocals
    ensures HoldsStruct(t.mem[..], t.lastFrame, callee, sp, sp - FRAME_WORDS)
    ensures OnDummyOver(t.mem[..], t.lastFrame, old(t.lastFrame))
    ensures SameBelow(old(t.mem[..]), t.mem[..], sp - FRAME_WORDS)
  {
    var last := t.lastFrame;
    var dummy := t.mem[last + OSTACK] + maxStack;
    sp := dummy + FRAME_WORDS;
    var newFrame := sp + t.p.l.methods[callee].maxLocals;
    t.mem[dummy + MB] := 0;
    t.mem[dummy + OSTACK] := sp;
    t.mem[dummy + PREV] := last;
    t.mem[newFrame + MB] := callee + 1;
    t.mem[newFrame + LVARS] := sp;
    t.mem[newFrame + OSTACK] := newFrame + FRAME_WORDS;
    t.mem[newFrame + PREV] := dummy;
    t.lastFrame := newFrame;
  }

  /** The registers of executeJava, from the frame at last_frame (interp.c:242-250). */
  method LoadRegisters(t: Interp)
    requires ProgramOk(t.p) && 0 <= t.lastFrame && t.lastFrame + FRAME_WORDS <= t.mem.Length
    requires 0 < t.mem[t.lastFrame + MB] <= |t.p.h.methods| && 0 <= t.mem[t.lastFrame + LVARS] < t.mem.Length
    modifies t`frame, t`mb, t`lvars, t`ostack, t`pc, t`self
    ensures t.frame == t.lastFrame && t.mb == t.mem[t.frame + MB] - 1 && t.lvars == t.mem[t.frame + LVARS]
    ensures t.ostack == t.mem[t.frame + OSTACK] && t.pc == t.p.bodies[t.mb].entry && t.self == t.mem[t.lvars]
  {
    t.frame := t.lastFrame;
    t.mb := t.mem[t.frame + MB] - 1;
    t.lvars := t.mem[t.frame + LVARS];
    t.ostack := t.mem[t.frame + OSTACK];
    t.pc := t.p.bodies[t.mb].entry;
    t.self := t.mem[t.lvars];
  }

  /** The block and the registers hold the machine in which the method begins. */
  lemma StartHolds(t: Interp, m: Machine, callee: nat, args: seq<Word>)
    requires ProgramOk(t.p) && callee < |t.p.h.methods| && |args| <= t.p.l.methods[callee].maxLocals
    requires m.frames == [NewFrame(t.p, callee, args)] && t.Shared(m)
    requires t.p.h.methods[callee].isStatic || (args != [] && args[0] != 0)
    requires FRAME_WORDS <= t.base && t.lastFrame == t.frame == t.base + t.p.l.methods[callee].maxLocals
    requires t.frame + FRAME_WORDS <= t.mem.Length
    requires HoldsStruct(t.mem[..], t.frame, callee, t.base, t.base - FRAME_WORDS)
    requires t.mem[t.base - FRAME_WORDS + MB] == 0 && t.mem[t.base..t.base + |args|] == args
    requires t.lvars == t.base && t.ostack == t.frame + FRAME_WORDS && t.mb == callee
    requires t.pc == t.p.bodies[callee].entry && t.self == t.mem[t.lvars]
    ensures t.Represented(m)
  {
    var f := NewFrame(t.p, callee, args);
    assert FrameOk(t.p, f) by {
      SyncOfArgs(t.p, callee, args, f.recv);
    }
    assert Below(m.frames) == [];
    Address(t.base, m.frames);
    forall i: nat | i < |args| ensures t.mem[t.base + i] == args[i] {
      assert t.mem[t.base + i] == t.mem[t.base..t.base + |args|][i];
    }
    assert HoldsTop(t.mem[..], t.base, m.frames);
  }

  /** Frames and arguments of the call, in place below everything the interpreter will use. */
  method PrepareCall(t: Interp, callee: nat, ob: Word, args: seq<Arg>) returns (ret: nat)
    requires Callable(t, callee, ob, args)
    modifies t`lastFrame, t.mem
    ensures ret == t.base && FRAME_WORDS <= t.base <= t.mem.Length
    ensures t.lastFrame == t.base + t.p.l.methods[callee].maxLocals && t.lastFrame + FRAME_WORDS <= t.mem.Length
    ensures HoldsStruct(t.mem[..], t.lastFrame, callee, t.base, t.base - FRAME_WORDS)
    ensures t.mem[t.base - FRAME_WORDS + MB] == 0 && t.mem[t.base - FRAME_WORDS + PREV] == old(t.lastFrame)
    ensures |AllArgs(ob, args)| == t.p.l.methods[callee].argsCount <= t.p.l.methods[callee].maxLocals
    ensures t.mem[t.base..t.base + |AllArgs(ob, args)|] == AllArgs(ob, args)
    ensures SameBelow(old(t.mem[..]), t.mem[..], t.base - FRAME_WORDS)
  {
    hide ProgramOk;
    hide CodeOk;
    hide QuickSafe;
    hide Fit;
    hide ArgWords;
    hide Widths;
    hide AllArgs;
    AllArgsFit(t, callee, ob, args);
    ret := CreateTopFrame(t, callee, t.p.l.methods[t.mem[t.lastFrame + MB] - 1].maxStack);
    PushAll(t.mem, ret, t.p.h.methods[callee].desc, ob, args);
  }

  /** The object, if there is one, and the arguments. */
  method PushAll(mem: array<int>, start: nat, sig: string, ob: Word, args: seq<Arg>)
    requires Scannable(sig) && Fit(args, Widths(sig, 1).value.0) && start + |AllArgs(ob, args)| <= mem.Length
    modifies mem
    ensures mem[start..start + |AllArgs(ob, args)|] == AllArgs(ob, args)
    ensures forall i | 0 <= i < mem.Length && !(start <= i < start + |AllArgs(ob, args)|) :: mem[i] == old(mem[i])
  {
    hide Fit;
    hide Widths;
    hide WordsOfArgs;
    WordsAreSum(args, Widths(sig, 1).value.0);
    var sp := start;
    if ob != 0 {
      mem[sp] := ob;
      sp := sp + 1;
    }
    ghost var first := sp;
    sp := PushArguments(mem, sp, sig, args);
    assert mem[start..sp] == mem[start..first] + mem[first..sp];
  }

  /** POP_TOP_FRAME undoes CREATE_TOP_FRAME: last_frame is again the frame that was current then. */
  method PopTopFrame(t: Interp, ghost caller: int)
    requires OnDummyOver(t.mem[..], t.lastFrame, caller)
    modifies t`lastFrame
    ensures t.lastFrame == caller
  {
    t.lastFrame := t.mem[t.mem[t.lastFrame + PREV] + PREV];
  }

  /** The call itself, between taking and releasing the monitor. */
  method RunCall(t: Interp, callee: nat, args: seq<Word>, ghost m: Machine, ghost fuel: nat)
    requires ProgramOk(t.p) && QuickSafe(t.p) && CodeOk(t.p, t.code[..], t.info) && callee < |t.p.h.methods|
    requires |args| <= t.p.l.methods[callee].maxLocals
    requires m.frames == [NewFrame(t.p, callee, args)] && t.Shared(m)
    requires t.p.h.methods[callee].isStatic || (args != [] && args[0] != 0)
    requires FRAME_WORDS <= t.base && t.lastFrame == t.base + t.p.l.methods[callee].maxLocals
    requires t.lastFrame + FRAME_WORDS <= t.mem.Length
    requires HoldsStruct(t.mem[..], t.lastFrame, callee, t.base, t.base - FRAME_WORDS)
    requires t.mem[t.base - FRAME_WORDS + MB] == 0 && t.mem[t.base..t.base + |args|] == args
    requires var r := Outcome(t.p, m, callee, args, fuel); !r.Running? && !r.Stuck?
    requires !t.p.h.methods[callee].isNative ==> Safe(t.p, Running(m), t.base, t.mem.Length)
    modifies t, t.mem, t.code
    ensures t.Represents(Outcome(t.p, m, callee, args, fuel))
    ensures CodeOk(t.p, t.code[..], t.info) && SameBelow(old(t.mem[..]), t.mem[..], t.base)
  {
    hide CodeOk;
    hide Run;
    hide Safe;
    if t.p.h.methods[callee].isNative {
      match t.p.native(callee, args) {
        case NativeVoid =>
        case NativeValue(w) => t.mem[t.base] := w;
        case NativeThrow(exc) => t.exception := exc;
      }
    } else {
      LoadRegisters(t);
      StartHolds(t, m, callee, args);
      StartIsOk(t, m);
      hide ProgramOk;
      hide QuickSafe;
      hide StateOk;
      t.ExecuteJava(m, fuel);
    }
  }

  lemma StartIsOk(t: Interp, m: Machine)
    requires t.Represented(m)
    ensures StateOk(t.p, Running(m))
  {
  }

  /** ob ? ob : mb->class */
  lemma SyncOfCall(p: Program, callee: nat, ob: Word, args: seq<Arg>)
    requires ProgramOk(p) && callee < |p.h.methods| && (p.h.methods[callee].isStatic <==> ob == 0)
    ensures SyncObject(p, callee, AllArgs(ob, args)) == SyncObject(p, callee, [ob])
    ensures p.h.methods[callee].isStatic || (AllArgs(ob, args) != [] && AllArgs(ob, args)[0] != 0)
    ensures callee < |p.l.methods|
  {
  }

  /** The call with the monitor of a synchronized method around it (execute.c:46-62). */
  method LockedCall(t: Interp, callee: nat, ob: Word, words: seq<Word>, ghost m: Machine, ghost fuel: nat)
    requires ProgramOk(t.p) && QuickSafe(t.p) && CodeOk(t.p, t.code[..], t.info) && callee < |t.p.h.methods|
    requires |words| <= t.p.l.methods[callee].maxLocals
    requires m.frames == [NewFrame(t.p, callee, words)] && m.base == t.base
    requires m.heap == t.heap && m.statics == t.statics && m.stackEnd == t.stackEnd
    requires var sync := SyncObject(t.p, callee, words);
             m.log == if sync.Some? then t.log + [Lock(sync.value)] else t.log
    requires SyncObject(t.p, callee, words) == SyncObject(t.p, callee, [ob])
    requires t.p.h.methods[callee].isStatic || (words != [] && words[0] != 0)
    requires FRAME_WORDS <= t.base && t.lastFrame == t.base + t.p.l.methods[callee].maxLocals
    requires t.lastFrame + FRAME_WORDS <= t.mem.Length
    requires HoldsStruct(t.mem[..], t.lastFrame, callee, t.base, t.base - FRAME_WORDS)
    requires t.mem[t.base - FRAME_WORDS + MB] == 0 && t.mem[t.base..t.base + |words|] == words
    requires var r := Outcome(t.p, m, callee, words, fuel); !r.Running? && !r.Stuck?
    requires !t.p.h.methods[callee].isNative ==> Safe(t.p, Running(m), t.base, t.mem.Length)
    modifies t, t.mem, t.code
    ensures CodeOk(t.p, t.code[..], t.info) && SameBelow(old(t.mem[..]), t.mem[..], t.base)
    ensures var r := Outcome(t.p, m, callee, words, fuel);
            && t.heap == r.m.heap && t.statics == r.m.statics
            && t.log == Released(r.m, SyncObject(t.p, callee, words)).log
            && (r.Returned? && r.value.Some? ==> t.base < t.mem.Length && t.mem[t.base] == r.value.value)
            && (r.Threw? ==> t.exception == r.exc)
    ensures 0 <= t.lastFrame && t.lastFrame + FRAME_WORDS <= t.mem.Length
    ensures t.mem[t.lastFrame + PREV] == t.base - FRAME_WORDS
  {
    hide ProgramOk;
    hide CodeOk;
    hide QuickSafe;
    hide Safe;
    hide Outcome;
    hide NewFrame;
    hide SyncObject;
    hide HoldsStruct;
    hide SameBelow;
    hide Interp.Represents;
    hide Interp.Represented;
    ghost var r := Outcome(t.p, m, callee, words, fuel);
    var sync := t.SyncObjectOf(callee, ob);
    t.LockIf(sync);
    RunCall(t, callee, words, m, fuel);
    OutcomeHeld(t, r);
    t.UnlockIf(sync);
  }

  /** executeMethodVaList: if the call ends, its result is at `ret` or its exception is pending, the
      monitors held and last_frame are as before, and no word below the dummy frame has changed. */
  method ExecuteMethod(t: Interp, callee: nat, ob: Word, args: seq<Arg>, ghost fuel: nat) returns (ret: nat)
    requires Callable(t, callee, ob, args) && Held(t.log).Some?
    requires |AllArgs(ob, args)| <= t.p.l.methods[callee].maxLocals
    requires var m := Start(t, callee, AllArgs(ob, args));
             var r := Outcome(t.p, m, callee, AllArgs(ob, args), fuel);
             && !r.Running? && !r.Stuck?
             && (!t.p.h.methods[callee].isNative ==> Safe(t.p, Running(m), t.base, t.mem.Length))
    modifies t, t.mem, t.code
    ensures ret == t.base && t.lastFrame == old(t.lastFrame) && Held(t.log) == Held(old(t.log))
    ensures SameBelow(old(t.mem[..]), t.mem[..], t.base - FRAME_WORDS)
    ensures var r := old(Outcome(t.p, Start(t, callee, AllArgs(ob, args)), callee, AllArgs(ob, args), fuel));
            && (r.Returned? && r.value.Some? ==> ret < t.mem.Length && t.mem[ret] == r.value.value)
            && (r.Threw? ==> t.exception == r.exc)
            && !r.Running? && !r.Stuck? && t.heap == r.m.heap && t.statics == r.m.statics
    ensures CodeOk(t.p, t.code[..], t.info)
  {
    hide ProgramOk;
    hide CodeOk;
    hide QuickSafe;
    hide Fit;
    hide Held;
    hide Safe;
    hide Outcome;
    hide NewFrame;
    hide WordsOfArgs;
    hide ArgWords;
    hide SyncObject;
    hide AllArgs;
    hide HoldsStruct;
    hide Interp.Represents;
    hide Interp.Represented;
    hide MachineOk;
    hide StateOk;
    hide Start;
    hide SameBelow;
    ghost var words, m := AllArgs(ob, args), Start(t, callee, AllArgs(ob, args));
    ghost var mem0 := t.mem[..];
    CallRestores(t, callee, words, fuel);
    SyncOfCall(t.p, callee, ob, args);
    StartFacts(t, callee, words);
    ret := PrepareCall(t, callee, ob, args);
    ghost var mem1 := t.mem[..];
    var all := t.mem[t.base..t.base + t.p.l.methods[callee].argsCount];
    LockedCall(t, callee, ob, all, m, fuel);
    SameTwice(mem0, mem1, t.mem[..], t.base - FRAME_WORDS, t.base);
    PopTopFrame(t, old(t.lastFrame));
  }

  lemma StartFacts(t: Interp, callee: nat, args: seq<Word>)
    requires ProgramOk(t.p) && callee < |t.p.h.methods| && |args| <= t.p.l.methods[callee].maxLocals
    ensures var m, sync := Start(t, callee, args), SyncObject(t.p, callee, args);
            && m.frames == [NewFrame(t.p, callee, args)] && m.base == t.base && m.heap == t.heap
            && m.statics == t.statics && m.stackEnd == t.stackEnd
            && m.log == if sync.Some? then t.log + [Lock(sync.value)] else t.log
  {
  }

  /** What the data says about how a call has ended. */
  lemma OutcomeHeld(t: Interp, r: State)
    requires t.Represents(r) && !r.Running?
    ensures !r.Stuck? && t.heap == r.m.heap && t.statics == r.m.statics && t.log == r.m.log
    ensures r.Returned? && r.value.Some? ==> t.base < t.mem.Length && t.mem[t.base] == r.value.value
    ensures r.Threw? ==> t.exception == r.exc
    ensures |r.m.frames| == 1 && 0 <= t.lastFrame && t.lastFrame + FRAME_WORDS <= t.mem.Length
    ensures FRAME_WORDS <= t.base && t.mem[t.lastFrame + PREV] == t.base - FRAME_WORDS
  {
  }

  lemma SameTwice(m0: seq<int>, m1: seq<int>, m2: seq<int>, a: nat, b: nat)
    requires SameBelow(m0, m1, a) && SameBelow(m1, m2, b) && a <= b
    ensures SameBelow(m0, m2, a) && |m2| == |m0| == |m1| && forall i | 0 <= i < |m1| && i < b :: m2[i] == m1[i]
  {
  }

  /** The monitors at the end of a call, once the outermost one is released. */
  lemma CallRestores(t: Interp, callee: nat, args: seq<Word>, fuel: nat)
    requires ProgramOk(t.p) && callee < |t.p.h.methods| && |args| <= t.p.l.methods[callee].maxLocals
    requires Held(t.log).Some?
    requires var r := Outcome(t.p, Start(t, callee, args), callee, args, fuel); !r.Running? && !r.Stuck?
    ensures var r := Outcome(t.p, Start(t, callee, args), callee, args, fuel);
            |r.m.frames| == 1 && Held(Released(r.m, SyncObject(t.p, callee, args)).log) == Held(t.log)
  {
    var m := Machine([], t.heap, t.statics, t.log, t.base, t.stackEnd);
    var f := NewFrame(t.p, callee, args);
    CallRestoresMonitors(t.p, m, f, fuel);
    var sync := SyncObject(t.p, callee, args);
    if sync.Some? {
      LockHeld(t.log, sync.value);
      UnlockHeld(t.log + [Lock(sync.value)], sync.value, Held(t.log).value);
    }
  }
}
