/**
 Threads that rewrite the same code get on (interp.c:188-209).

 A dispatch takes a bounded number of a thread's own accesses. It starts again only if another thread has
 changed the opcode between the two reads, if another thread is writing the instruction, or if it has itself
 brought the instruction closer to its final form. An instruction that shows OPC_LOCK is being written by a
 thread that can go on.
 */
module RewriteProgress {
  import opened Common
  import opened Bytecode
  import opened Reference
  import opened Quickening
  import opened RewriteRaces

  /** How many of a thread's own accesses are left until it runs its operation, at most. */
  function Remaining(ph: Phase): nat {
    match ph
    case Fetching => 12
    case Saw(_) => 11
    case One(_, _) => 10
    case Two(_, _, _) => 9
    case Checked(_, _, _) => 8
    case Writing(ws, _) => 1 + |ws|
    case Doing(_) => 0
  }

  lemma WritesAreFew(s: int, op: byte, r: Fetched)
    ensures |Writes(s, op, r)| <= 4
    ensures Writes(s, op, r) != [] ==>
              var last := Writes(s, op, r)[|Writes(s, op, r)| - 1]; last == Write(s, At(r.code, s)) && last.byte != op
    ensures Writes(s, op, r) == [] ==> At(r.code, s) == op
  {
  }

  /** Each access brings a thread closer to its operation, with the exceptions named. */
  lemma StepsAdvance(p: Program, w: World, t: nat, w': World)
    requires ProgramOk(p) && t < |w.threads| && w.threads[t].pc in p.sites && StepOf(p, w, t, w')
    requires !w.threads[t].phase.Doing?
    ensures |w'.threads| == |w.threads|
    ensures var th, ph' := w.threads[t], w'.threads[t].phase;
            || Remaining(ph') < Remaining(th.phase)
            || (th.phase.Fetching? && At(w.code, th.pc) == OPC_LOCK && w' == w)
            || (th.phase.Two? && Multi(th.phase.op) && At(w.code, th.pc) != th.phase.op && ph' == Fetching)
            || (th.phase == Writing([], None) && ph' == Fetching)
  {
    var th := w.threads[t];
    if th.phase.Checked? {
      WritesAreFew(th.pc, th.phase.op, Fetch(p, View(p, th.pc, th.phase.op, th.phase.b1, th.phase.b2), w.info, th.pc));
    }
    hide ProgramOk;
    hide Fetch;
    hide Writes;
    hide Multi;
  }

  /** How many dispatches of an instruction may only rewrite it. */
  function RewritesLeft(op: byte): nat {
    if op == OPC_ALOAD_0 then 2
    else if op == OPC_ALOAD_THIS || 178 <= op <= 185 then 1
    else 0
  }

  lemma FetchEndsOrRewrites(p: Program, code: seq<byte>, info: CpInfo, pc: int)
    requires ProgramOk(p) && pc in p.sites && 0 <= pc < |code|
    ensures var r := Fetch(p, code, info, pc);
            r.op.Some? || RewritesLeft(At(r.code, pc)) < RewritesLeft(At(code, pc))
  {
    hide ProgramOk;
    hide ResolveField;
    hide ResolveMethod;
    hide ResolveInterfaceMethod;
    hide Cached;
    hide SiteClass;
    hide Operand16;
    hide FieldAt;
    hide InvokeAt;
    hide PlainOp;
    hide ConstantAt;
    hide Entry;
    hide HighByte;
  }

  /** Quick opcodes never are OPC_LOCK. */
  lemma FetchWritesNoLock(p: Program, code: seq<byte>, info: CpInfo, pc: int)
    requires ProgramOk(p) && pc in p.sites && 0 <= pc < |code| && At(code, pc) != OPC_LOCK
    ensures At(Fetch(p, code, info, pc).code, pc) != OPC_LOCK
  {
    hide ProgramOk;
    hide ResolveField;
    hide ResolveMethod;
    hide ResolveInterfaceMethod;
    hide Cached;
    hide SiteClass;
    hide Operand16;
    hide FieldAt;
    hide InvokeAt;
    hide PlainOp;
    hide ConstantAt;
    hide Entry;
    hide HighByte;
  }

  // ----- a thread alone -----

  /** A run in which only thread t steps. */
  ghost predicate IsAlone(p: Program, run: seq<World>, t: nat)
    requires ProgramOk(p)
  {
    run != [] && forall i: nat | i + 1 < |run| :: AloneStep(p, run[i], t, run[i + 1])
  }

  ghost predicate AloneStep(p: Program, w: World, t: nat, w': World)
    requires ProgramOk(p)
  {
    t < |w.threads| && w.threads[t].pc in p.sites && StepOf(p, w, t, w')
  }

  function Last(run: seq<World>): World
    requires run != []
  {
    run[|run| - 1]
  }

  lemma OneMore(p: Program, run: seq<World>, t: nat, w': World)
    requires ProgramOk(p) && IsAlone(p, run, t) && AloneStep(p, Last(run), t, w')
    ensures IsAlone(p, run + [w'], t) && Last(run + [w']) == w' && (run + [w'])[0] == run[0]
  {
    hide AloneStep;
    hide ProgramOk;
  }

  predicate AtPhase(w: World, t: nat, pc: int, ph: Phase) {
    t < |w.threads| && w.threads[t] == Thread(pc, ph)
  }

  /** Thread t in another phase. */
  function InPhase(w: World, t: nat, ph: Phase): World
    requires t < |w.threads|
  {
    w.(threads := w.threads[t := w.threads[t].(phase := ph)])
  }

  lemma Reads(p: Program, run: seq<World>, t: nat, pc: int) returns (run': seq<World>)
    requires ProgramOk(p) && IsAlone(p, run, t) && pc in p.sites && AtPhase(Last(run), t, pc, Fetching)
    requires At(Last(run).code, pc) != OPC_LOCK
    ensures IsAlone(p, run', t) && run'[0] == run[0] && |run'| == |run| + 4
    ensures var w := Last(run);
            Last(run') == InPhase(w, t, Checked(At(w.code, pc), At(w.code, pc + 1), At(w.code, pc + 2)))
  {
    hide ProgramOk;
    hide Fetch;
    var w := Last(run);
    hide IsAlone;
    var op, b1, b2 := At(w.code, pc), At(w.code, pc + 1), At(w.code, pc + 2);
    var w1, w2 := InPhase(w, t, Saw(op)), InPhase(w, t, One(op, b1));
    var w3, w4 := InPhase(w, t, Two(op, b1, b2)), InPhase(w, t, Checked(op, b1, b2));
    OneMore(p, run, t, w1);
    OneMore(p, run + [w1], t, w2);
    OneMore(p, run + [w1] + [w2], t, w3);
    OneMore(p, run + [w1] + [w2] + [w3], t, w4);
    run' := run + [w1] + [w2] + [w3] + [w4];
  }

  /** The writes one after the other; the last is that of the opcode. */
  lemma {:induction false} WritesAll(p: Program, run: seq<World>, t: nat, pc: int, ws: seq<Write>, r: Option<Op>)
      returns (run': seq<World>)
    requires ProgramOk(p) && IsAlone(p, run, t) && pc in p.sites && AtPhase(Last(run), t, pc, Writing(ws, r))
    requires 0 <= pc < |Last(run).code| && (ws != [] ==> ws[|ws| - 1].at == pc)
    ensures IsAlone(p, run', t) && run'[0] == run[0] && |run'| == |run| + |ws|
    ensures AtPhase(Last(run'), t, pc, Writing([], r)) && |Last(run').code| == |Last(run).code|
    ensures At(Last(run').code, pc) == if ws == [] then At(Last(run).code, pc) else ws[|ws| - 1].byte
    decreases |ws|
  {
    hide ProgramOk;
    if ws == [] {
      run' := run;
    } else {
      var w := Last(run);
      var w' := World(Put(w.code, ws[0].at, ws[0].byte), w.info, w.threads[t := Thread(pc, Writing(ws[1..], r))]);
      assert AloneStep(p, w, t, w');
      hide IsAlone;
      hide Fetch;
      OneMore(p, run, t, w');
      run' := WritesAll(p, run + [w'], t, pc, ws[1..], r);
    }
  }

  lemma ViewShows(p: Program, s: int, op: byte, b1: byte, b2: byte)
    requires ProgramOk(p) && s in p.sites
    ensures 0 <= s < |p.orig| && |View(p, s, op, b1, b2)| == |p.orig| && At(View(p, s, op, b1, b2), s) == op
  {
    assert SiteWellFormed(p, s);
    hide ProgramOk;
  }

  /** One dispatch alone: it ends in an operation, or brings the instruction closer to its final form. */
  lemma DispatchAlone(p: Program, run: seq<World>, t: nat, pc: int) returns (run': seq<World>)
    requires ProgramOk(p) && IsAlone(p, run, t) && pc in p.sites && AtPhase(Last(run), t, pc, Fetching)
    requires At(Last(run).code, pc) != OPC_LOCK && |Last(run).code| == |p.orig|
    ensures IsAlone(p, run', t) && run'[0] == run[0] && |run'| <= |run| + 10
    ensures t < |Last(run').threads| && Last(run').threads[t].pc == pc && |Last(run').code| == |p.orig|
    ensures var ph, op, op' := Last(run').threads[t].phase, At(Last(run).code, pc), At(Last(run').code, pc);
            ph.Doing? || (ph.Fetching? && op' != OPC_LOCK && RewritesLeft(op') < RewritesLeft(op))
  {
    hide ProgramOk;
    var w0 := Last(run);
    hide IsAlone;
    hide Fetch;
    hide View;
    hide Writes;
    var op, b1, b2 := At(w0.code, pc), At(w0.code, pc + 1), At(w0.code, pc + 2);
    var view := View(p, pc, op, b1, b2);
    ViewShows(p, pc, op, b1, b2);
    var r := Fetch(p, view, w0.info, pc);
    FetchEndsOrRewrites(p, view, w0.info, pc);
    FetchWritesNoLock(p, view, w0.info, pc);
    WritesAreFew(pc, op, r);
    run' := Reads(p, run, t, pc);
    run' := Decides(p, run', t, pc, op, b1, b2);
    run' := WritesAll(p, run', t, pc, Writes(pc, op, r), r.op);
    run' := Ends(p, run', t, pc, r.op);
  }

  lemma Decides(p: Program, run: seq<World>, t: nat, pc: int, op: byte, b1: byte, b2: byte) returns (run': seq<World>)
    requires ProgramOk(p) && IsAlone(p, run, t) && pc in p.sites && AtPhase(Last(run), t, pc, Checked(op, b1, b2))
    ensures IsAlone(p, run', t) && run'[0] == run[0] && |run'| == |run| + 1 && Last(run').code == Last(run).code
    ensures var r := Fetch(p, View(p, pc, op, b1, b2), Last(run).info, pc);
            AtPhase(Last(run'), t, pc, Writing(Writes(pc, op, r), r.op))
  {
    hide ProgramOk;
    hide Fetch;
    hide View;
    hide Writes;
    var w := Last(run);
    var r := Fetch(p, View(p, pc, op, b1, b2), w.info, pc);
    var w' := World(w.code, r.info, w.threads[t := Thread(pc, Writing(Writes(pc, op, r), r.op))]);
    assert AloneStep(p, w, t, w');
    OneMore(p, run, t, w');
    run' := run + [w'];
    hide IsAlone;
  }

  lemma Ends(p: Program, run: seq<World>, t: nat, pc: int, r: Option<Op>) returns (run': seq<World>)
    requires ProgramOk(p) && IsAlone(p, run, t) && pc in p.sites && AtPhase(Last(run), t, pc, Writing([], r))
    ensures IsAlone(p, run', t) && run'[0] == run[0] && |run'| == |run| + 1 && Last(run').code == Last(run).code
    ensures AtPhase(Last(run'), t, pc, if r.Some? then Doing(r.value) else Fetching)
  {
    hide ProgramOk;
    hide Fetch;
    var w := Last(run);
    var w' := InPhase(w, t, if r.Some? then Doing(r.value) else Fetching);
    assert AloneStep(p, w, t, w');
    OneMore(p, run, t, w');
    run' := run + [w'];
    hide IsAlone;
  }

  /** A thread that runs alone from an instruction that nobody is writing gets to its operation. */
  lemma {:induction false} AloneToOperation(p: Program, run: seq<World>, t: nat, pc: int) returns (run': seq<World>)
    requires ProgramOk(p) && IsAlone(p, run, t) && pc in p.sites && AtPhase(Last(run), t, pc, Fetching)
    requires At(Last(run).code, pc) != OPC_LOCK && |Last(run).code| == |p.orig|
    ensures IsAlone(p, run', t) && run'[0] == run[0]
    ensures |run'| <= |run| + 10 * (1 + RewritesLeft(At(Last(run).code, pc)))
    ensures t < |Last(run').threads| && Last(run').threads[t].pc == pc && Last(run').threads[t].phase.Doing?
    decreases RewritesLeft(At(Last(run).code, pc))
  {
    hide ProgramOk;
    run' := DispatchAlone(p, run, t, pc);
    if !Last(run').threads[t].phase.Doing? {
      run' := AloneToOperation(p, run', t, pc);
    }
    hide IsAlone;
    hide RewritesLeft;
  }

  // ----- an instruction that shows OPC_LOCK -----

  /** Thread t is writing the instruction at s, and its last write is of another opcode. */
  ghost predicate IsWriting(w: World, t: nat, s: int) {
    && t < |w.threads| && w.threads[t].pc == s && w.threads[t].phase.Writing?
    && var ws := w.threads[t].phase.writes;
       ws != [] && ws[|ws| - 1].at == s && ws[|ws| - 1].byte != OPC_LOCK
  }

  ghost predicate LocksAreHeld(p: Program, w: World) {
    forall s | s in p.sites && At(w.code, s) == OPC_LOCK :: exists t: nat :: IsWriting(w, t, s)
  }

  lemma EndsInOpcode(p: Program, w: World, t: nat)
    requires ProgramOk(p) && Inv(p, w) && t < |w.threads|
    requires w.threads[t].phase.Writing? && w.threads[t].phase.writes != []
    ensures w.threads[t].pc in p.sites && IsWriting(w, t, w.threads[t].pc)
  {
    hide ProgramOk;
    hide Inv;
    hide WritesOk;
    hide Multi;
    ThreadOf(p, w, t);
    var s, ws := w.threads[t].pc, w.threads[t].phase.writes;
    if Multi(At(p.orig, s)) {
      LastOfMany(p, w.code, w.info, s, ws);
    } else {
      OnlyWrite(p, w.code, w.info, s, ws);
    }
  }

  lemma LastOfMany(p: Program, code: seq<byte>, info: CpInfo, s: int, ws: seq<Write>)
    requires ProgramOk(p) && s in p.sites && Multi(At(p.orig, s)) && ws != [] && WritesOk(p, code, info, s, ws)
    ensures ws[|ws| - 1].at == s && ws[|ws| - 1].byte != OPC_LOCK
  {
    hide ProgramOk;
    hide Target;
    hide FullWrites;
    hide CodeOk;
    hide Progress;
    hide WritesOk;
    hide Multi;
    WritesOpened(p, code, info, s, ws);
    UnwrittenOperands(p, s);
    TargetOpcode(p, info, s);
  }

  lemma OnlyWrite(p: Program, code: seq<byte>, info: CpInfo, s: int, ws: seq<Write>)
    requires ProgramOk(p) && s in p.sites && !Multi(At(p.orig, s)) && ws != [] && WritesOk(p, code, info, s, ws)
    ensures ws[|ws| - 1].at == s && ws[|ws| - 1].byte != OPC_LOCK
  {
    hide ProgramOk;
    hide Target;
    hide CodeOk;
    hide Progress;
    hide Seen;
  }

  /** One write: the writing thread and the instruction's opcode. */
  lemma WriteEffect(p: Program, w: World, u: nat, w': World)
    requires ProgramOk(p) && Inv(p, w) && u < |w.threads| && w.threads[u].pc in p.sites && StepOf(p, w, u, w')
    requires w.threads[u].phase.Writing? && w.threads[u].phase.writes != []
    ensures var pc := w.threads[u].pc;
            && (forall t: nat | t < |w.threads| && t != u :: t < |w'.threads| && w'.threads[t] == w.threads[t])
            && (At(w'.code, pc) == OPC_LOCK ==> IsWriting(w', u, pc))
    ensures forall s | s in p.sites && s != w.threads[u].pc :: At(w'.code, s) == At(w.code, s)
  {
    var pc, ws := w.threads[u].pc, w.threads[u].phase.writes;
    EndsInOpcode(p, w, u);
    ThreadOf(p, w, u);
    NextWrite(p, w, pc, ws);
    CodeSize(p, w);
    hide Inv;
    hide WritesOk;
    forall s | s in p.sites && s != pc ensures At(w'.code, s) == At(w.code, s) {
      LengthIsPositive(At(p.orig, s));
      hide ProgramOk;
      RewriteRaces.OtherBytes(p, w.code, pc, ws[0].at, ws[0].byte, s);
      hide Put;
    }
    hide ProgramOk;
  }

  lemma CodeSize(p: Program, w: World)
    requires ProgramOk(p) && Inv(p, w)
    ensures |w.code| == |p.orig|
  {
  }

  lemma LengthIsPositive(op: byte)
    ensures Length(op) >= 1
  {
  }

  lemma WriteKeepsLocks(p: Program, w: World, u: nat, w': World)
    requires ProgramOk(p) && Inv(p, w) && LocksAreHeld(p, w) && u < |w.threads| && w.threads[u].pc in p.sites
    requires w.threads[u].phase.Writing? && w.threads[u].phase.writes != [] && StepOf(p, w, u, w')
    ensures LocksAreHeld(p, w')
  {
    hide ProgramOk;
    hide Inv;
    hide StepOf;
    WriteEffect(p, w, u, w');
    var pc := w.threads[u].pc;
    forall s | s in p.sites && At(w'.code, s) == OPC_LOCK ensures exists t: nat :: IsWriting(w', t, s) {
      if s != pc {
        var t: nat :| IsWriting(w, t, s);
        assert IsWriting(w', t, s);
      }
    }
  }

  lemma OtherStepsKeepLocks(p: Program, w: World, u: nat, w': World)
    requires ProgramOk(p) && LocksAreHeld(p, w) && u < |w.threads| && w.threads[u].pc in p.sites
    requires !(w.threads[u].phase.Writing? && w.threads[u].phase.writes != []) && StepOf(p, w, u, w')
    ensures LocksAreHeld(p, w')
  {
    hide ProgramOk;
    hide Fetch;
    hide Writes;
    hide View;
    assert w'.code == w.code && |w'.threads| == |w.threads|;
    assert forall t: nat | t < |w.threads| && t != u :: w'.threads[t] == w.threads[t];
    hide StepOf;
    forall s | s in p.sites && At(w'.code, s) == OPC_LOCK ensures exists t: nat :: IsWriting(w', t, s) {
      var t: nat :| IsWriting(w, t, s);
      assert IsWriting(w', t, s);
    }
  }

  lemma {:induction false} RunKeepsLocks(p: Program, run: seq<World>, i: nat)
    requires ProgramOk(p) && QuickSafe(p) && IsRun(p, run) && i < |run|
    ensures LocksAreHeld(p, run[i])
    decreases i
  {
    hide Inv;
    hide QuickSafe;
    hide StepOf;
    hide LocksAreHeld;
    if i == 0 {
      LoadedShowsNoLock(p, run[0]);
    } else {
      RunKeepsLocks(p, run, i - 1);
      RunInv(p, run, i - 1);
      var w, w' := run[i - 1], run[i];
      assert Next(p, w, run[i - 1 + 1]);
      var u: nat :| u < |w.threads| && w.threads[u].pc in p.sites && StepOf(p, w, u, w');
      hide ProgramOk;
      if w.threads[u].phase.Writing? && w.threads[u].phase.writes != [] {
        WriteKeepsLocks(p, w, u, w');
      } else {
        OtherStepsKeepLocks(p, w, u, w');
      }
    }
  }

  lemma LoadedShowsNoLock(p: Program, w: World)
    requires ProgramOk(p) && w.code == p.orig
    ensures LocksAreHeld(p, w)
  {
    forall s | s in p.sites ensures At(w.code, s) != OPC_LOCK {
      assert SiteWellFormed(p, s);
    }
  }

  /** In every state of every run, an instruction that shows OPC_LOCK is being written by a thread that can take
      its next step, and that will write another opcode. */
  lemma LockIsBeingReplaced(p: Program, run: seq<World>, i: nat, s: int) returns (t: nat, w': World)
    requires ProgramOk(p) && QuickSafe(p) && IsRun(p, run) && i < |run|
    requires s in p.sites && At(run[i].code, s) == OPC_LOCK
    ensures IsWriting(run[i], t, s) && AloneStep(p, run[i], t, w')
  {
    RunKeepsLocks(p, run, i);
    hide IsRun;
    hide ProgramOk;
    hide QuickSafe;
    hide Fetch;
    var w := run[i];
    t :| IsWriting(w, t, s);
    var x, rest, r := w.threads[t].phase.writes[0], w.threads[t].phase.writes[1..], w.threads[t].phase.result;
    w' := World(Put(w.code, x.at, x.byte), w.info, w.threads[t := Thread(s, Writing(rest, r))]);
  }
}
