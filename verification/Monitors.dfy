/**
 Monitors over a whole call: every monitor a synchronized method takes is released once, on the
 same object and innermost first, whether the method returns, is native, or is unwound by an
 exception (execute.c:46-62, excep.c:44-55, interp.c:1561-1572, 1592-1603).
 */
module Monitors {
  import opened Common
  import opened Hierarchy
  import opened Linking
  import opened Bytecode
  import opened Reference

  /** The monitors held after the events, innermost last; None if some release did not match. */
  function Held(log: seq<LockEvent>): Option<seq<Word>> {
    if log == [] then Some([])
    else
      var before := Held(log[..|log| - 1]);
      if before.None? then None
      else
        match log[|log| - 1]
        case Lock(ob) => Some(before.value + [ob])
        case Unlock(ob) =>
          var s := before.value;
          if s != [] && s[|s| - 1] == ob then Some(s[..|s| - 1]) else None
  }

  function SyncOf(f: Frame): seq<Word> {
    if f.sync.Some? then [f.sync.value] else []
  }

  /** The monitors of the methods called so far, outermost first. */
  function Syncs(frames: seq<Frame>): seq<Word> {
    if frames == [] then [] else Syncs(frames[..|frames| - 1]) + SyncOf(frames[|frames| - 1])
  }

  /** The monitors held when a call starts, and the one its own method takes. */
  datatype Outside = Outside(held: seq<Word>, sync: Option<Word>)

  /** Exactly the monitors of the running methods are held, on top of those held before. */
  ghost predicate Balanced(m: Machine, before: Outside) {
    m.frames != [] && m.frames[0].sync == before.sync && Held(m.log) == Some(before.held + Syncs(m.frames))
  }

  ghost predicate BalancedState(s: State, before: Outside) {
    match s
    case Running(m) => Balanced(m, before)
    case Returned(m, _) => Balanced(m, before) && |m.frames| == 1
    case Threw(m, _) => Balanced(m, before) && |m.frames| == 1
    case Stuck => true
  }

  lemma LockHeld(log: seq<LockEvent>, ob: Word)
    requires Held(log).Some?
    ensures Held(log + [Lock(ob)]) == Some(Held(log).value + [ob])
  {
    assert (log + [Lock(ob)])[..|log|] == log;
  }

  lemma UnlockHeld(log: seq<LockEvent>, ob: Word, rest: seq<Word>)
    requires Held(log) == Some(rest + [ob])
    ensures Held(log + [Unlock(ob)]) == Some(rest)
  {
    assert (log + [Unlock(ob)])[..|log|] == log;
    assert (rest + [ob])[..|rest|] == rest;
  }

  lemma SetLastSyncs(m: Machine, f: Frame)
    requires m.frames != [] && f.sync == Last(m).sync
    ensures Syncs(SetLast(m, f).frames) == Syncs(m.frames)
  {
    assert SetLast(m, f).frames[..|m.frames| - 1] == m.frames[..|m.frames| - 1];
  }

  lemma GoBalanced(m: Machine, pc: int, stack: seq<Word>, before: Outside)
    requires Balanced(m, before)
    ensures BalancedState(Go(m, pc, stack), before)
  {
    SetLastSyncs(m, Last(m).(pc := pc, stack := stack));
  }

  lemma LeaveBalanced(m: Machine, before: Outside)
    requires Balanced(m, before) && |m.frames| > 1
    ensures Balanced(LeaveFrame(m), before)
  {
    var rest := m.frames[..|m.frames| - 1];
    if Last(m).sync.Some? {
      assert before.held + Syncs(m.frames) == (before.held + Syncs(rest)) + [Last(m).sync.value];
      UnlockHeld(m.log, Last(m).sync.value, before.held + Syncs(rest));
    } else {
      assert before.held + Syncs(m.frames) == before.held + Syncs(rest);
    }
  }

  lemma {:induction false} UnwindBalanced(p: Program, m: Machine, exc: Word, cls: nat, before: Outside)
    requires ProgramOk(p) && cls < |p.h.classes| && Balanced(m, before)
    ensures BalancedState(Unwind(p, m, exc, cls), before)
    decreases |m.frames|
  {
    var f := Last(m);
    if f.m < |p.bodies| {
      var handler := FindHandler(p, p.bodies[f.m], f.pc, cls, 0);
      if handler.Some? {
        GoBalanced(m, handler.value, [exc], before);
      } else if |m.frames| > 1 {
        LeaveBalanced(m, before);
        UnwindBalanced(p, LeaveFrame(m), exc, cls, before);
      }
    }
  }

  lemma RaiseBalanced(p: Program, m: Machine, exc: Word, before: Outside)
    requires ProgramOk(p) && Balanced(m, before)
    ensures BalancedState(RaiseIn(p, m, exc), before)
  {
    if exc in m.heap && m.heap[exc].cls < |p.h.classes| {
      UnwindBalanced(p, m, exc, m.heap[exc].cls, before);
    }
  }

  /** Taking a monitor and releasing it again, as around a native method. */
  lemma LockUnlock(m: Machine, sync: Option<Word>, before: Outside)
    requires Balanced(m, before)
    ensures Balanced(Released(Locked(m, sync), sync), before)
  {
    if sync.Some? {
      LockHeld(m.log, sync.value);
      UnlockHeld(Locked(m, sync).log, sync.value, Held(m.log).value);
    }
  }

  lemma CallBalanced(m: Machine, f: Frame, before: Outside)
    requires Balanced(m, before)
    ensures var l := Locked(m, f.sync); Balanced(l.(frames := l.frames + [f]), before)
  {
    var l := Locked(m, f.sync);
    assert (m.frames + [f])[..|m.frames|] == m.frames;
    if f.sync.Some? {
      LockHeld(m.log, f.sync.value);
      assert (before.held + Syncs(m.frames)) + [f.sync.value] == before.held + Syncs(m.frames + [f]);
    } else {
      assert before.held + Syncs(m.frames + [f]) == before.held + Syncs(m.frames);
    }
  }

  lemma NativeBalanced(p: Program, m: Machine, pc: int, r: NativeResult, before: Outside)
    requires ProgramOk(p) && Balanced(m, before)
    ensures BalancedState(AfterNative(p, m, pc, r), before)
  {
    match r {
      case NativeVoid => GoBalanced(m, pc, Last(m).stack, before);
      case NativeValue(w) => GoBalanced(m, pc, Last(m).stack + [w], before);
      case NativeThrow(exc) => RaiseBalanced(p, m, exc, before);
    }
  }

  lemma PopArgsBalanced(m: Machine, nargs: nat, before: Outside)
    requires Balanced(m, before) && nargs <= |Last(m).stack|
    ensures Balanced(PopArgs(m, nargs), before)
  {
    SetLastSyncs(m, Last(PopArgs(m, nargs)));
  }

  lemma EnterBalanced(p: Program, m: Machine, callee: nat, nargs: nat, before: Outside)
    requires ProgramOk(p) && Balanced(m, before)
    ensures BalancedState(Enter(p, m, callee, nargs), before)
  {
    assert m.frames != [];
    EnterCases(p, m, callee, nargs);
    hide Enter;
    hide CanEnter;
    hide ProgramOk;
    hide NewFrame;
    hide NextPc;
    hide Balanced;
    hide TopAddress;
    hide RaiseIn;
    hide AfterNative;
    hide Locked;
    hide Released;
    hide SyncObject;
    hide PopArgs;
    if CanEnter(p, m, callee, nargs) {
      var args := Last(m).stack[|Last(m).stack| - nargs..];
      var popped := PopArgs(m, nargs);
      PopArgsBalanced(m, nargs, before);
      if TopAddress(m.base, popped.frames) + p.l.methods[callee].maxLocals > m.stackEnd {
        OverflowBalanced(p, m, before);
      } else if p.h.methods[callee].isNative {
        NativeCallBalanced(p, popped, callee, args, NextPc(p, m), before);
      } else {
        JavaCallBalanced(p, popped, callee, args, before);
      }
    }
  }

  lemma EnterCases(p: Program, m: Machine, callee: nat, nargs: nat)
    requires ProgramOk(p) && m.frames != []
    ensures !CanEnter(p, m, callee, nargs) ==> Enter(p, m, callee, nargs).Stuck?
    ensures CanEnter(p, m, callee, nargs) ==>
      && nargs <= |Last(m).stack| && callee < |p.h.methods| == |p.l.methods| && nargs <= p.l.methods[callee].maxLocals
      && var args, popped := Last(m).stack[|Last(m).stack| - nargs..], PopArgs(m, nargs);
         var sync := SyncObject(p, callee, args);
         Enter(p, m, callee, nargs) ==
           if TopAddress(m.base, popped.frames) + p.l.methods[callee].maxLocals > m.stackEnd then
             RaiseIn(p, m.(stackEnd := m.stackEnd + 256), p.stackOverflow)
           else if p.h.methods[callee].isNative then
             AfterNative(p, Released(Locked(popped, sync), sync), NextPc(p, m), p.native(callee, args))
           else
             var locked := Locked(popped, sync);
             Running(locked.(frames := locked.frames + [NewFrame(p, callee, args)]))
  {
    hide RaiseIn;
    hide AfterNative;
    hide NewFrame;
    hide SyncObject;
    hide TopAddress;
    hide NextPc;
  }

  lemma OverflowBalanced(p: Program, m: Machine, before: Outside)
    requires ProgramOk(p) && Balanced(m, before)
    ensures BalancedState(RaiseIn(p, m.(stackEnd := m.stackEnd + 256), p.stackOverflow), before)
  {
    RaiseBalanced(p, m.(stackEnd := m.stackEnd + 256), p.stackOverflow, before);
  }

  lemma NativeCallBalanced(p: Program, m: Machine, callee: nat, args: seq<Word>, pc: int, before: Outside)
    requires ProgramOk(p) && Balanced(m, before) && callee < |p.h.methods|
    ensures var sync := SyncObject(p, callee, args);
            BalancedState(AfterNative(p, Released(Locked(m, sync), sync), pc, p.native(callee, args)), before)
  {
    var sync := SyncObject(p, callee, args);
    LockUnlock(m, sync, before);
    NativeBalanced(p, Released(Locked(m, sync), sync), pc, p.native(callee, args), before);
  }

  lemma JavaCallBalanced(p: Program, m: Machine, callee: nat, args: seq<Word>, before: Outside)
    requires ProgramOk(p) && Balanced(m, before)
    requires callee < |p.h.methods| && |args| <= p.l.methods[callee].maxLocals
    ensures var l := Locked(m, SyncObject(p, callee, args));
            Balanced(l.(frames := l.frames + [NewFrame(p, callee, args)]), before)
  {
    CallBalanced(m, NewFrame(p, callee, args), before);
  }

  lemma InvokeBalanced(p: Program, m: Machine, sel: Selector, before: Outside)
    requires ProgramOk(p) && Balanced(m, before)
    ensures BalancedState(InvokeStep(p, m, sel), before)
  {
    match Select(p, m, sel) {
      case Callee(callee, nargs) => EnterBalanced(p, m, callee, nargs, before);
      case NullReceiver => RaiseBalanced(p, m, p.nullPointer, before);
      case NoCallee =>
    }
  }

  lemma ReturnBalanced(p: Program, m: Machine, hasValue: bool, before: Outside)
    requires Balanced(m, before)
    ensures BalancedState(ReturnStep(p, m, hasValue), before)
  {
    var f := Last(m);
    if |m.frames| > 1 && !(hasValue && f.stack == []) {
      LeaveBalanced(m, before);
      var rest := LeaveFrame(m);
      GoBalanced(rest, NextPc(p, rest), Last(rest).stack + if hasValue then [f.stack[|f.stack| - 1]] else [], before);
    }
  }

  lemma PlainBalanced(p: Program, m: Machine, r: State, before: Outside)
    requires Balanced(m, before) && r.Running? && r.m.frames != [] && r.m.log == m.log
    requires r.m.frames == SetLast(m, Last(r.m)).frames && Last(r.m).sync == Last(m).sync
    ensures BalancedState(r, before)
  {
    SetLastSyncs(m, Last(r.m));
  }

  lemma ThrowBalanced(p: Program, m: Machine, before: Outside)
    requires ProgramOk(p) && Balanced(m, before)
    ensures BalancedState(ThrowStep(p, m), before)
  {
    RaiseBalanced(p, m, p.nullPointer, before);
    if Last(m).stack != [] {
      RaiseBalanced(p, m, Last(m).stack[|Last(m).stack| - 1], before);
    }
  }

  /** Any operation keeps the held monitors those of the running methods. */
  lemma ExecBalanced(p: Program, m: Machine, op: Op, before: Outside)
    requires ProgramOk(p) && Balanced(m, before)
    ensures BalancedState(Exec(p, m, op), before)
  {
    if op.Invoke? {
      InvokeBalanced(p, m, op.sel, before);
    } else if op.Return? {
      ReturnBalanced(p, m, op.hasValue, before);
    } else if op.Throw? {
      ThrowBalanced(p, m, before);
    } else if op.Raise? {
      RaiseBalanced(p, m, op.exc, before);
    } else if IsFieldOp(op) {
      FieldBalanced(p, m, op, before);
    } else if op.Store? || op.Inc? {
      LocalBalanced(p, m, op, before);
    } else {
      StackBalanced(p, m, op, before);
    }
  }

  lemma LocalBalanced(p: Program, m: Machine, op: Op, before: Outside)
    requires ProgramOk(p) && Balanced(m, before)
    ensures BalancedState(LocalStep(p, m, op), before)
  {
    var r := LocalStep(p, m, op);
    if r.Running? {
      PlainBalanced(p, m, r, before);
    }
  }

  lemma StackBalanced(p: Program, m: Machine, op: Op, before: Outside)
    requires ProgramOk(p) && Balanced(m, before)
    ensures BalancedState(StackStep(p, m, op), before)
  {
    var r := StackStep(p, m, op);
    if r.Running? {
      PlainBalanced(p, m, r, before);
    }
  }

  lemma FieldBalanced(p: Program, m: Machine, op: Op, before: Outside)
    requires ProgramOk(p) && Balanced(m, before)
    ensures BalancedState(FieldStep(p, m, op), before)
  {
    var r := FieldStep(p, m, op);
    RaiseBalanced(p, m, p.nullPointer, before);
    if r != RaiseIn(p, m, p.nullPointer) && r.Running? {
      PlainBalanced(p, m, r, before);
    }
  }

  lemma {:induction false} RunBalanced(p: Program, s: State, n: nat, before: Outside)
    requires ProgramOk(p) && BalancedState(s, before)
    ensures BalancedState(Run(p, s, n), before)
    decreases n
  {
    if n > 0 {
      if s.Running? && AtSite(p, s.m) {
        ExecBalanced(p, s.m, RefOp(p, Last(s.m).pc), before);
      }
      RunBalanced(p, Step(p, s), n - 1, before);
    }
  }

  /** One call from executeMethod: it takes f's monitor, runs, and releases the monitor of the
      outermost method itself. However long the call runs and however it ends, the monitors held
      afterwards are those held before. */
  lemma CallRestoresMonitors(p: Program, m: Machine, f: Frame, n: nat)
    requires ProgramOk(p) && m.frames == [] && Held(m.log).Some?
    ensures var s := Run(p, Running(Locked(m, f.sync).(frames := [f])), n);
            s.Returned? || s.Threw? ==>
              |s.m.frames| == 1 && Held(Released(s.m, f.sync).log) == Held(m.log)
  {
    var start := Locked(m, f.sync).(frames := [f]);
    var before := Outside(Held(m.log).value, f.sync);
    assert Syncs([f]) == SyncOf(f) by {
      assert [f][..0] == [];
    }
    if f.sync.Some? {
      LockHeld(m.log, f.sync.value);
    } else {
      assert before.held + Syncs([f]) == before.held;
    }
    RunBalanced(p, Running(start), n, before);
    var s := Run(p, Running(start), n);
    if s.Returned? || s.Threw? {
      var g := s.m.frames[0];
      assert s.m.frames[..0] == [] && Syncs(s.m.frames) == SyncOf(g);
      if g.sync.Some? {
        UnlockHeld(s.m.log, g.sync.value, before.held);
      } else {
        assert before.held + SyncOf(g) == before.held;
      }
    }
  }

  // ----- native code that calls back -----

  /** One call from executeMethod, with the events before and after it, and the states it goes through. */
  datatype Call = Call(before: seq<LockEvent>, frame: Frame, turns: seq<Turn>, after: seq<LockEvent>)

  /** A state, and what native code does if the instruction there calls a native method. */
  datatype Turn = Turn(state: State, native: Option<NativeRun>)

  /** Native code calls executeMethod again, one call after the other, each on a dummy frame of its own;
      it leaves any heap and any statics, and ends with any result. */
  datatype NativeRun = NativeRun(calls: seq<Call>, heap: map<Word, Obj>, statics: map<nat, Word>, result: NativeResult)

  ghost predicate IsCall(p: Program, c: Call)
    requires ProgramOk(p)
    decreases c
  {
    && c.turns != [] && Starts(c.turns[0].state, c) && Ends(c.turns[|c.turns| - 1].state, c)
    && forall i: nat | i + 1 < |c.turns| :: IsTurn(p, c.turns[i], c.turns[i + 1].state)
  }

  predicate Starts(s: State, c: Call) {
    s.Running? && s.m.frames == [c.frame] && s.m.log == Locked(s.m.(log := c.before), c.frame.sync).log
  }

  predicate Ends(s: State, c: Call) {
    (s.Returned? || s.Threw?) && c.after == Released(s.m, c.frame.sync).log
  }

  ghost predicate IsTurn(p: Program, t: Turn, s': State)
    requires ProgramOk(p)
    decreases t
  {
    if t.native.None? then s' == Step(p, t.state)
    else
      && t.state.Running? && CallsNative(p, t.state.m)
      && var m, run := t.state.m, t.native.value;
         var callee, nargs := NativeCallee(p, m).m, NativeCallee(p, m).nargs;
         var sync := SyncObject(p, callee, Last(m).stack[|Last(m).stack| - nargs..]);
         var entered := Locked(PopArgs(m, nargs), sync);
         && (forall i: nat | i < |run.calls| ::
              IsCall(p, run.calls[i]) && run.calls[i].before == EventsBefore(entered.log, run.calls, i))
         && var log := EventsBefore(entered.log, run.calls, |run.calls|);
            var after := entered.(heap := run.heap, statics := run.statics, log := log);
            s' == AfterNative(p, Released(after, sync), NextPc(p, m), run.result)
  }

  function EventsBefore(log: seq<LockEvent>, calls: seq<Call>, i: nat): seq<LockEvent>
    requires i <= |calls|
  {
    if i == 0 then log else calls[i - 1].after
  }

  function NativeCallee(p: Program, m: Machine): Selection
    requires ProgramOk(p) && m.frames != []
  {
    if !AtSite(p, m) then NoCallee
    else
      var op := RefOp(p, Last(m).pc);
      if op.Invoke? then Select(p, m, op.sel) else NoCallee
  }

  /** The next instruction calls a native method, and the stack has room for its frame. */
  predicate CallsNative(p: Program, m: Machine)
    requires ProgramOk(p)
  {
    && m.frames != [] && NativeCallee(p, m).Callee?
    && var callee, nargs := NativeCallee(p, m).m, NativeCallee(p, m).nargs;
       && CanEnter(p, m, callee, nargs) && p.h.methods[callee].isNative
       && TopAddress(m.base, PopArgs(m, nargs).frames) + p.l.methods[callee].maxLocals <= m.stackEnd
  }

  /** Native code that calls nothing is what the reference machine has. */
  lemma WithoutCallsIsStep(p: Program, t: Turn, s': State)
    requires ProgramOk(p) && IsTurn(p, t, s') && t.native.Some? && t.state.Running? && t.state.m.frames != []
    requires t.native.value.calls == [] && NativeCallee(p, t.state.m).Callee?
    requires var m := t.state.m;
             var c := NativeCallee(p, m);
             && t.native.value.heap == m.heap && t.native.value.statics == m.statics
             && c.nargs <= |Last(m).stack|
             && t.native.value.result == p.native(c.m, Last(m).stack[|Last(m).stack| - c.nargs..])
    ensures s' == Step(p, t.state)
  {
    hide Select;
    hide RaiseIn;
    hide SyncObject;
    hide NextPc;
    hide TopAddress;
  }

  /** However deep native code and Java code call each other, and however every call ends: the monitors
      held after a call are those held before it. */
  lemma {:induction false} NestedCallsRestoreMonitors(p: Program, c: Call)
    requires ProgramOk(p) && IsCall(p, c) && Held(c.before).Some?
    ensures Held(c.after) == Held(c.before)
    decreases c, |c.turns|
  {
    var n := |c.turns| - 1;
    var before := Outside(Held(c.before).value, c.frame.sync);
    TurnBalanced(p, c, n, before);
    EndRestores(c.turns[n].state, c, before);
  }

  lemma EndRestores(s: State, c: Call, before: Outside)
    requires Ends(s, c) && BalancedState(s, before) && before.sync == c.frame.sync
    requires Held(c.before) == Some(before.held)
    ensures Held(c.after) == Held(c.before)
  {
    var g := s.m.frames[0];
    assert s.m.frames[..0] == [] && Syncs(s.m.frames) == SyncOf(g);
    if g.sync.Some? {
      UnlockHeld(s.m.log, g.sync.value, before.held);
    } else {
      assert before.held + SyncOf(g) == before.held;
    }
  }

  lemma StartBalanced(s: State, c: Call, before: Outside)
    requires Starts(s, c) && Held(c.before) == Some(before.held) && before.sync == c.frame.sync
    ensures BalancedState(s, before)
  {
    assert [c.frame][..0] == [] && Syncs([c.frame]) == SyncOf(c.frame);
    if c.frame.sync.Some? {
      LockHeld(c.before, c.frame.sync.value);
    } else {
      assert before.held + SyncOf(c.frame) == before.held;
    }
  }

  lemma {:induction false} TurnBalanced(p: Program, c: Call, i: nat, before: Outside)
    requires ProgramOk(p) && IsCall(p, c) && i < |c.turns|
    requires Held(c.before) == Some(before.held) && before.sync == c.frame.sync
    ensures BalancedState(c.turns[i].state, before)
    decreases c, i
  {
    if i == 0 {
      StartBalanced(c.turns[0].state, c, before);
    } else {
      TurnBalanced(p, c, i - 1, before);
      var t := c.turns[i - 1];
      assert IsTurn(p, t, c.turns[i - 1 + 1].state);
      if t.native.None? {
        RunBalanced(p, t.state, 1, before);
        assert Run(p, Step(p, t.state), 0) == Step(p, t.state);
      } else {
        NativeTurnBalanced(p, t, c.turns[i].state, before);
      }
    }
  }

  lemma {:induction false} NativeTurnBalanced(p: Program, t: Turn, s': State, before: Outside)
    requires ProgramOk(p) && IsTurn(p, t, s') && t.native.Some? && BalancedState(t.state, before)
    ensures BalancedState(s', before)
    decreases t
  {
    var m, run := t.state.m, t.native.value;
    var callee, nargs := NativeCallee(p, m).m, NativeCallee(p, m).nargs;
    assert CanEnter(p, m, callee, nargs);
    hide CanEnter;
    hide ProgramOk;
    hide AfterNative;
    hide SyncObject;
    hide Held;
    hide Syncs;
    hide PopArgs;
    hide NativeCallee;
    var sync := SyncObject(p, callee, Last(m).stack[|Last(m).stack| - nargs..]);
    var popped := PopArgs(m, nargs);
    var entered := Locked(popped, sync);
    PopArgsBalanced(m, nargs, before);
    LockedHeld(popped, sync);
    forall i: nat | i < |run.calls|
      ensures Held(run.calls[i].before).Some? ==> Held(run.calls[i].after) == Held(run.calls[i].before)
    {
      assert IsCall(p, run.calls[i]);
      if Held(run.calls[i].before).Some? {
        NestedCallsRestoreMonitors(p, run.calls[i]);
      }
    }
    hide IsCall;
    CallsRestore(entered.log, run.calls, |run.calls|);
    var log := EventsBefore(entered.log, run.calls, |run.calls|);
    BackFromNative(popped, sync, run, log, before);
    NativeBalanced(p, Released(entered.(heap := run.heap, statics := run.statics, log := log), sync), NextPc(p, m),
        run.result, before);
  }

  lemma LockedHeld(m: Machine, sync: Option<Word>)
    requires Held(m.log).Some?
    ensures Held(Locked(m, sync).log).Some?
  {
    if sync.Some? {
      LockHeld(m.log, sync.value);
    }
  }

  /** The monitor taken for a native method is the innermost again when its calls are over. */
  lemma BackFromNative(m: Machine, sync: Option<Word>, run: NativeRun, log: seq<LockEvent>, before: Outside)
    requires Balanced(m, before) && Held(log) == Held(Locked(m, sync).log)
    ensures Balanced(Released(Locked(m, sync).(heap := run.heap, statics := run.statics, log := log), sync), before)
  {
    if sync.Some? {
      LockHeld(m.log, sync.value);
      UnlockHeld(log, sync.value, Held(m.log).value);
    }
  }

  lemma {:induction false} CallsRestore(log: seq<LockEvent>, calls: seq<Call>, n: nat)
    requires n <= |calls| && Held(log).Some?
    requires forall i: nat | i < |calls| :: calls[i].before == EventsBefore(log, calls, i)
    requires forall i: nat | i < |calls| ::
               Held(calls[i].before).Some? ==> Held(calls[i].after) == Held(calls[i].before)
    ensures Held(EventsBefore(log, calls, n)) == Held(log)
    decreases n
  {
    hide Held;
    if n > 0 {
      CallsRestore(log, calls, n - 1);
      assert calls[n - 1].before == EventsBefore(log, calls, n - 1);
    }
  }
}
