/**
 Several threads running, and rewriting, the same code (interp.c:188-209).

 A dispatch is broken into its single byte accesses: read the opcode, read the operand bytes, for
 the instructions whose operands get overwritten read the opcode again, then write LOCK, the new
 operands and the new opcode one byte at a time. Any number of threads interleave these accesses in
 any order over one code block (sequentially consistent memory). Looking an operand up in the
 constant pool is one step here; module Resolution opens that step up.
 */
module RewriteRaces {
  import opened Common
  import opened Hierarchy
  import opened Linking
  import opened Bytecode
  import opened Reference
  import opened Quickening

  datatype Write = Write(at: int, byte: byte)

  datatype Phase =
    | Fetching                                          // about to read the opcode
    | Saw(op: byte)                                     // dispatched on it
    | One(op: byte, b1: byte)                           // read pc[1]
    | Two(op: byte, b1: byte, b2: byte)                 // read pc[2]
    | Checked(op: byte, b1: byte, b2: byte)             // the opcode, where it matters, is still op
    | Writing(writes: seq<Write>, result: Option<Op>)   // bytes still to be written
    | Doing(effect: Op)                                     // runs the operation

  datatype Thread = Thread(pc: int, phase: Phase)

  datatype World = World(code: seq<byte>, info: CpInfo, threads: seq<Thread>)

  // ----- the steps of one thread -----

  /** The instructions with WITH_OPCODE_CHANGE_CP_DINDEX, whose operand bytes get overwritten. */
  predicate Multi(op: byte) { OPC_GETFIELD <= op <= OPC_INVOKESPECIAL }

  /** The code as far as one thread has read it: its own instruction by the bytes it holds. */
  function View(p: Program, s: int, op: byte, b1: byte, b2: byte): seq<byte> {
    var v := Put(p.orig, s, op);
    if At(p.orig, s) == OPC_ALOAD_0 then Put(Put(v, s + 1, b1), s + 2, b2)
    else
      var n := Length(At(p.orig, s));
      var v1 := if n >= 2 then Put(v, s + 1, b1) else v;
      if n >= 3 then Put(v1, s + 2, b2) else v1
  }

  /** The bytes to write, in order, so that the instruction at s becomes what r says. */
  function Writes(s: int, op: byte, r: Fetched): seq<Write> {
    var q := At(r.code, s);
    if q == op then []
    else if q == OPC_GETFIELD_QUICK || q == OPC_PUTFIELD_QUICK then
      [Write(s, OPC_LOCK), Write(s + 1, At(r.code, s + 1)), Write(s, q)]
    else if q == OPC_INVOKEVIRTUAL_QUICK || q == OPC_INVOKESUPER_QUICK then
      [Write(s, OPC_LOCK), Write(s + 1, At(r.code, s + 1)), Write(s + 2, At(r.code, s + 2)), Write(s, q)]
    else [Write(s, q)]
  }

  /** One access of a thread. After an operation the thread may be at any instruction. */
  ghost predicate StepOf(p: Program, w: World, t: nat, w': World)
    requires ProgramOk(p) && t < |w.threads| && w.threads[t].pc in p.sites
  {
    var th := w.threads[t];
    var pc := th.pc;
    match th.phase
    case Fetching =>
      var op := At(w.code, pc);
      Moves(w, t, w', Thread(pc, if op == OPC_LOCK then Fetching else Saw(op)))
    case Saw(op) => Moves(w, t, w', Thread(pc, One(op, At(w.code, pc + 1))))
    case One(op, b1) => Moves(w, t, w', Thread(pc, Two(op, b1, At(w.code, pc + 2))))
    case Two(op, b1, b2) =>
      Moves(w, t, w', Thread(pc, if Multi(op) && At(w.code, pc) != op then Fetching else Checked(op, b1, b2)))
    case Checked(op, b1, b2) =>
      var r := Fetch(p, View(p, pc, op, b1, b2), w.info, pc);
      w' == World(w.code, r.info, w.threads[t := Thread(pc, Writing(Writes(pc, op, r), r.op))])
    case Writing(ws, result) =>
      if ws == [] then
        Moves(w, t, w', Thread(pc, if result.Some? then Doing(result.value) else Fetching))
      else
        w' == World(Put(w.code, ws[0].at, ws[0].byte), w.info, w.threads[t := Thread(pc, Writing(ws[1..], result))])
    case Doing(_) =>
      exists next :: next in p.sites && Moves(w, t, w', Thread(next, Fetching))
  }

  ghost predicate Moves(w: World, t: nat, w': World, th: Thread)
    requires t < |w.threads|
  {
    w' == w.(threads := w.threads[t := th])
  }

  ghost predicate Next(p: Program, w: World, w': World)
    requires ProgramOk(p)
  {
    exists t: nat :: t < |w.threads| && w.threads[t].pc in p.sites && StepOf(p, w, t, w')
  }

  /** Code as loaded, no reference resolved, every thread about to read an opcode. */
  ghost predicate Init(p: Program, w: World)
    requires ProgramOk(p)
  {
    && w.code == p.orig && InfoOk(p, w.info)
    && forall th | th in w.threads :: th.pc in p.sites && th.phase == Fetching
  }

  /** The states of a run, one access apart. */
  ghost predicate IsRun(p: Program, run: seq<World>)
    requires ProgramOk(p)
  {
    && run != [] && Init(p, run[0])
    && forall i: nat | i + 1 < |run| :: Next(p, run[i], run[i + 1])
  }

  // ----- what an instruction with overwritten operands becomes -----

  /** The loaded code with the instruction at s rewritten. */
  function Target(p: Program, s: int): seq<byte>
    requires ProgramOk(p) && s in p.sites
  {
    Fetch(p, p.orig, map[], s).code
  }

  /** s has begun to change and both operand bytes have their final values. */
  ghost predicate Settled(p: Program, code: seq<byte>, s: int)
    requires ProgramOk(p) && s in p.sites
  {
    && At(code, s) != At(p.orig, s)
    && At(code, s + 1) == At(Target(p, s), s + 1) && At(code, s + 2) == At(Target(p, s), s + 2)
  }

  /** The getfield at s can be run by the aload_0 before it. */
  ghost predicate Fusable(p: Program, code: seq<byte>, info: CpInfo, s: int)
    requires ProgramOk(p)
  {
    && s in p.sites && At(p.orig, s) == OPC_GETFIELD && At(Target(p, s), s) == OPC_GETFIELD_QUICK
    && Settled(p, code, s) && CodeOk(p, Target(p, s), info)
  }

  // ----- the invariant -----

  /** A thread may have dispatched on op at s. */
  ghost predicate Seen(p: Program, code: seq<byte>, info: CpInfo, s: int, op: byte)
    requires ProgramOk(p) && s in p.sites
  {
    var o := At(p.orig, s);
    if o == OPC_ALOAD_0 then
      || op == OPC_ALOAD_0
      || (if StaticSite(p, s) then op == OPC_ILOAD_0
          else op == OPC_ALOAD_THIS || (op == OPC_GETFIELD_THIS && Fusable(p, code, info, s + 1)))
    else if Multi(o) then
      op == o || (op == At(Target(p, s), s) && Settled(p, code, s) && CodeOk(p, Target(p, s), info))
    else CodeOk(p, Put(p.orig, s, op), info)
  }

  ghost predicate OperandsOk(p: Program, code: seq<byte>, s: int)
    requires ProgramOk(p) && s in p.sites
  {
    var o := At(p.orig, s);
    if Multi(o) then
      && (At(code, s + 1) == At(p.orig, s + 1) || At(code, s + 1) == At(Target(p, s), s + 1))
      && (At(code, s + 2) == At(p.orig, s + 2) || At(code, s + 2) == At(Target(p, s), s + 2))
      && (At(code, s) == o ==> At(code, s + 1) == At(p.orig, s + 1) && At(code, s + 2) == At(p.orig, s + 2))
    else SameOperands(p, code, s)
  }

  ghost predicate SiteInv(p: Program, code: seq<byte>, info: CpInfo, s: int)
    requires ProgramOk(p) && s in p.sites
  {
    && OperandsOk(p, code, s)
    && if At(code, s) == OPC_LOCK then
         Multi(At(p.orig, s)) && At(Target(p, s), s) != At(p.orig, s) && CodeOk(p, Target(p, s), info)
       else Seen(p, code, info, s, At(code, s))
  }

  /** What a thread that dispatched on op knows of the byte it read at pc[1]. */
  ghost predicate FirstOk(p: Program, code: seq<byte>, info: CpInfo, s: int, op: byte, b1: byte)
    requires ProgramOk(p) && s in p.sites
  {
    var o := At(p.orig, s);
    if o == OPC_ALOAD_0 then
      op == OPC_ALOAD_THIS && b1 == OPC_GETFIELD_QUICK ==> Fusable(p, code, info, s + 1)
    else if Multi(o) then
      if op == o then At(code, s) == o ==> b1 == At(p.orig, s + 1) else b1 == At(Target(p, s), s + 1)
    else Length(o) >= 2 ==> b1 == At(p.orig, s + 1)
  }

  ghost predicate SecondOk(p: Program, code: seq<byte>, s: int, op: byte, b2: byte)
    requires ProgramOk(p) && s in p.sites
  {
    var o := At(p.orig, s);
    if o == OPC_ALOAD_0 then
      op == OPC_GETFIELD_THIS ==> s + 1 in p.sites && b2 == At(Target(p, s + 1), s + 2)
    else if Multi(o) then
      if op == o then At(code, s) == o ==> b2 == At(p.orig, s + 2) else b2 == At(Target(p, s), s + 2)
    else Length(o) >= 3 ==> b2 == At(p.orig, s + 2)
  }

  function FullWrites(p: Program, s: int): seq<Write>
    requires ProgramOk(p) && s in p.sites
  {
    Writes(s, At(p.orig, s), Fetched(Target(p, s), map[], None))
  }

  /** So many of the bytes of an instruction's final form have been written. */
  ghost predicate Progress(p: Program, code: seq<byte>, s: int, done: nat)
    requires ProgramOk(p) && s in p.sites
  {
    && (done >= 1 ==> At(code, s) != At(p.orig, s))
    && (done >= 2 ==> At(code, s + 1) == At(Target(p, s), s + 1))
    && (done >= 3 ==> At(code, s + 2) == At(Target(p, s), s + 2))
  }

  /** The writes still to come end in the final form, and those before them have taken effect. */
  ghost predicate WritesOk(p: Program, code: seq<byte>, info: CpInfo, s: int, ws: seq<Write>)
    requires ProgramOk(p) && s in p.sites
  {
    ws == [] ||
    (var o, full := At(p.orig, s), FullWrites(p, s);
     if Multi(o) then
       var done := |full| - |ws|;
       && done >= 0 && ws == full[done..] && At(Target(p, s), s) != o && CodeOk(p, Target(p, s), info)
       && Progress(p, code, s, done)
     else
       |ws| == 1 && ws[0].at == s && ws[0].byte != o && ws[0].byte != OPC_LOCK && Seen(p, code, info, s, ws[0].byte))
  }

  ghost predicate ThreadInv(p: Program, code: seq<byte>, info: CpInfo, th: Thread)
    requires ProgramOk(p)
  {
    var s := th.pc;
    && s in p.sites
    && match th.phase
       case Fetching => true
       case Saw(op) => Seen(p, code, info, s, op)
       case One(op, b1) => Seen(p, code, info, s, op) && FirstOk(p, code, info, s, op, b1)
       case Two(op, b1, b2) =>
         Seen(p, code, info, s, op) && FirstOk(p, code, info, s, op, b1) && SecondOk(p, code, s, op, b2)
       case Checked(op, b1, b2) =>
         && Seen(p, code, info, s, op) && FirstOk(p, code, info, s, op, b1) && SecondOk(p, code, s, op, b2)
         && (Multi(op) ==> b1 == At(p.orig, s + 1) && b2 == At(p.orig, s + 2))
       case Writing(ws, result) =>
         WritesOk(p, code, info, s, ws) && (result.Some? ==> Matches(p, s, result.value))
       case Doing(op) => Matches(p, s, op)
  }

  ghost predicate Inv(p: Program, w: World)
    requires ProgramOk(p)
  {
    && |w.code| == |p.orig| && InfoOk(p, w.info)
    && (forall s | s in p.sites :: SiteInv(p, w.code, w.info, s))
    && (forall i: nat | i < |w.threads| :: ThreadInv(p, w.code, w.info, w.threads[i]))
  }

  // ----- bytes only move forward -----

  ghost predicate SiteAdvances(p: Program, code: seq<byte>, code': seq<byte>, s: int)
    requires ProgramOk(p) && s in p.sites
  {
    && (At(code, s) != At(p.orig, s) ==> At(code', s) != At(p.orig, s))
    && (Multi(At(p.orig, s)) ==>
          && (At(code, s + 1) == At(Target(p, s), s + 1) ==> At(code', s + 1) == At(Target(p, s), s + 1))
          && (At(code, s + 2) == At(Target(p, s), s + 2) ==> At(code', s + 2) == At(Target(p, s), s + 2)))
  }

  /** No instruction goes back: one that has left its loaded opcode never shows it again, and an
      operand byte that has its final value keeps it. Resolved entries stay as they are. */
  ghost predicate Advances(p: Program, w: World, w': World)
    requires ProgramOk(p)
  {
    && |w'.code| == |w.code| && InfoOk(p, w'.info) && (forall k | k in w.info :: k in w'.info)
    && forall s | s in p.sites :: SiteAdvances(p, w.code, w'.code, s)
  }

  lemma CodeOkGrows(p: Program, code: seq<byte>, info: CpInfo, info': CpInfo)
    requires ProgramOk(p) && CodeOk(p, code, info) && InfoOk(p, info') && forall k | k in info :: k in info'
    ensures CodeOk(p, code, info')
  {
    forall s | s in p.sites ensures SiteOk(p, code, info', s) {
      FormDepends(p, code, info, s, code, info');
    }
  }

  lemma FusableStays(p: Program, w: World, w': World, s: int)
    requires ProgramOk(p) && Advances(p, w, w') && Fusable(p, w.code, w.info, s)
    ensures Fusable(p, w'.code, w'.info, s)
  {
    assert SiteAdvances(p, w.code, w'.code, s);
    CodeOkGrows(p, Target(p, s), w.info, w'.info);
  }

  lemma SeenStays(p: Program, w: World, w': World, s: int, op: byte)
    requires ProgramOk(p) && Advances(p, w, w') && s in p.sites && Seen(p, w.code, w.info, s, op)
    ensures Seen(p, w'.code, w'.info, s, op)
  {
    var o := At(p.orig, s);
    if o == OPC_ALOAD_0 {
      if Fusable(p, w.code, w.info, s + 1) {
        FusableStays(p, w, w', s + 1);
      }
    } else if Multi(o) {
      if op != o {
        assert SiteAdvances(p, w.code, w'.code, s);
        CodeOkGrows(p, Target(p, s), w.info, w'.info);
      }
    } else {
      CodeOkGrows(p, Put(p.orig, s, op), w.info, w'.info);
    }
  }

  lemma WritesOpened(p: Program, code: seq<byte>, info: CpInfo, s: int, ws: seq<Write>)
    requires ProgramOk(p) && s in p.sites && Multi(At(p.orig, s)) && ws != [] && WritesOk(p, code, info, s, ws)
    ensures var full := FullWrites(p, s);
            && |ws| <= |full| && ws == full[|full| - |ws|..] && ws[0] == full[|full| - |ws|]
            && ws[1..] == full[|full| - |ws| + 1..]
            && Progress(p, code, s, |full| - |ws|)
    ensures At(Target(p, s), s) != At(p.orig, s) && CodeOk(p, Target(p, s), info)
  {
    hide ProgramOk;
    hide Target;
    hide FullWrites;
    hide CodeOk;
    hide Seen;
  }

  lemma WritesClosed(p: Program, code: seq<byte>, info: CpInfo, s: int, ws: seq<Write>)
    requires ProgramOk(p) && s in p.sites && Multi(At(p.orig, s))
    requires |ws| <= |FullWrites(p, s)| && ws == FullWrites(p, s)[|FullWrites(p, s)| - |ws|..]
    requires Progress(p, code, s, |FullWrites(p, s)| - |ws|)
    requires At(Target(p, s), s) != At(p.orig, s) && CodeOk(p, Target(p, s), info)
    ensures WritesOk(p, code, info, s, ws)
  {
    hide ProgramOk;
    hide Target;
    hide FullWrites;
    hide CodeOk;
    hide Seen;
  }

  lemma ProgressStays(p: Program, w: World, w': World, s: int, done: nat)
    requires ProgramOk(p) && Advances(p, w, w') && s in p.sites && Multi(At(p.orig, s)) && Progress(p, w.code, s, done)
    ensures Progress(p, w'.code, s, done)
  {
    hide ProgramOk;
    hide Target;
    hide InfoOk;
    assert SiteAdvances(p, w.code, w'.code, s);
  }

  lemma OneWriteStays(p: Program, w: World, w': World, s: int, ws: seq<Write>)
    requires ProgramOk(p) && Advances(p, w, w') && s in p.sites && WritesOk(p, w.code, w.info, s, ws)
    requires !Multi(At(p.orig, s))
    ensures WritesOk(p, w'.code, w'.info, s, ws)
  {
    hide ProgramOk;
    hide Seen;
    hide Target;
    hide Advances;
    hide FullWrites;
    if ws != [] {
      SeenStays(p, w, w', s, ws[0].byte);
    }
  }

  lemma WritesStay(p: Program, w: World, w': World, s: int, ws: seq<Write>)
    requires ProgramOk(p) && Advances(p, w, w') && s in p.sites && WritesOk(p, w.code, w.info, s, ws)
    ensures WritesOk(p, w'.code, w'.info, s, ws)
  {
    hide ProgramOk;
    hide Target;
    hide CodeOk;
    hide FullWrites;
    hide Progress;
    hide Seen;
    if !Multi(At(p.orig, s)) {
      OneWriteStays(p, w, w', s, ws);
    } else if ws != [] {
      WritesOpened(p, w.code, w.info, s, ws);
      CodeOkGrows(p, Target(p, s), w.info, w'.info);
      ProgressStays(p, w, w', s, |FullWrites(p, s)| - |ws|);
      hide WritesOk;
      WritesClosed(p, w'.code, w'.info, s, ws);
    }
  }

  lemma BytesStay(p: Program, w: World, w': World, s: int, op: byte, b1: byte, b2: byte)
    requires ProgramOk(p) && Advances(p, w, w') && s in p.sites
    ensures FirstOk(p, w.code, w.info, s, op, b1) ==> FirstOk(p, w'.code, w'.info, s, op, b1)
    ensures SecondOk(p, w.code, s, op, b2) ==> SecondOk(p, w'.code, s, op, b2)
  {
    assert SiteAdvances(p, w.code, w'.code, s);
    if At(p.orig, s) == OPC_ALOAD_0 && Fusable(p, w.code, w.info, s + 1) {
      FusableStays(p, w, w', s + 1);
    }
    hide Fusable;
  }

  /** What a thread knows stays true whatever the others do. */
  lemma ThreadStays(p: Program, w: World, w': World, th: Thread)
    requires ProgramOk(p) && Advances(p, w, w') && ThreadInv(p, w.code, w.info, th)
    ensures ThreadInv(p, w'.code, w'.info, th)
  {
    hide Seen;
    hide FirstOk;
    hide SecondOk;
    hide WritesOk;
    hide Advances;
    hide ProgramOk;
    hide Matches;
    var s := th.pc;
    match th.phase {
      case Fetching =>
      case Saw(op) => SeenStays(p, w, w', s, op);
      case One(op, b1) => SeenStays(p, w, w', s, op); BytesStay(p, w, w', s, op, b1, 0);
      case Two(op, b1, b2) => SeenStays(p, w, w', s, op); BytesStay(p, w, w', s, op, b1, b2);
      case Checked(op, b1, b2) => SeenStays(p, w, w', s, op); BytesStay(p, w, w', s, op, b1, b2);
      case Writing(ws, _) => WritesStay(p, w, w', s, ws);
      case Doing(_) =>
    }
  }

  // ----- one access keeps the invariant -----

  /** getfield_quick appears only where a getfield was, and only once its operand is in place. */
  lemma QuickGetFieldIsFusable(p: Program, w: World, s: int)
    requires ProgramOk(p) && Inv(p, w) && s in p.sites && At(w.code, s) == OPC_GETFIELD_QUICK
    ensures Fusable(p, w.code, w.info, s)
  {
    assert SiteInv(p, w.code, w.info, s) && SiteWellFormed(p, s);
    var o := At(p.orig, s);
    if Multi(o) {
      TargetOpcode(p, w.info, s);
    } else if o != OPC_ALOAD_0 {
      OneByteOpcode(p, w.info, s, OPC_GETFIELD_QUICK);
    }
  }

  /** A rewritten opcode is a quick one, and getfield_quick comes from getfield. */
  lemma TargetOpcode(p: Program, info: CpInfo, s: int)
    requires ProgramOk(p) && s in p.sites && Multi(At(p.orig, s))
    ensures CodeOk(p, Target(p, s), info) ==>
              var q := At(Target(p, s), s);
              && (q != At(p.orig, s) ==> q >= OPC_LDC_QUICK && q != OPC_LOCK && q != OPC_ALOAD_THIS)
              && (q == OPC_GETFIELD_QUICK ==> At(p.orig, s) == OPC_GETFIELD)
  {
    if CodeOk(p, Target(p, s), info) {
      assert SiteOk(p, Target(p, s), info, s) && SiteWellFormed(p, s);
    }
  }

  /** The other instructions change their opcode only, and never to one with new operands. */
  lemma OneByteOpcode(p: Program, info: CpInfo, s: int, b: byte)
    requires ProgramOk(p) && s in p.sites && !Multi(At(p.orig, s)) && At(p.orig, s) != OPC_ALOAD_0
    ensures CodeOk(p, Put(p.orig, s, b), info) ==>
              && b != OPC_LOCK && b != OPC_GETFIELD_QUICK && b != OPC_PUTFIELD_QUICK
              && b != OPC_INVOKEVIRTUAL_QUICK && b != OPC_INVOKESUPER_QUICK && b != OPC_GETFIELD_THIS
              && (b == At(p.orig, s) || b >= OPC_LDC_QUICK)
  {
    assert SiteWellFormed(p, s);
    if CodeOk(p, Put(p.orig, s, b), info) {
      assert SiteOk(p, Put(p.orig, s, b), info, s);
    }
  }

  lemma ReadFirst(p: Program, w: World, s: int, op: byte)
    requires ProgramOk(p) && Inv(p, w) && s in p.sites && Seen(p, w.code, w.info, s, op)
    ensures FirstOk(p, w.code, w.info, s, op, At(w.code, s + 1))
  {
    assert SiteInv(p, w.code, w.info, s) && SiteWellFormed(p, s);
    if At(p.orig, s) == OPC_ALOAD_0 && At(w.code, s + 1) == OPC_GETFIELD_QUICK {
      QuickGetFieldIsFusable(p, w, s + 1);
    }
    hide Fusable;
    hide ProgramOk;
    hide CodeOk;
  }

  lemma ReadSecond(p: Program, w: World, s: int, op: byte)
    requires ProgramOk(p) && Inv(p, w) && s in p.sites && Seen(p, w.code, w.info, s, op)
    ensures SecondOk(p, w.code, s, op, At(w.code, s + 2))
  {
    assert SiteInv(p, w.code, w.info, s) && SiteWellFormed(p, s);
    hide ProgramOk;
    hide CodeOk;
  }

  /** Only the loaded opcodes are rechecked, and then the operands read are the loaded ones. */
  lemma Recheck(p: Program, w: World, s: int, op: byte, b1: byte, b2: byte)
    requires ProgramOk(p) && Inv(p, w) && s in p.sites && Seen(p, w.code, w.info, s, op)
    requires FirstOk(p, w.code, w.info, s, op, b1) && SecondOk(p, w.code, s, op, b2)
    requires Multi(op) && At(w.code, s) == op
    ensures op == At(p.orig, s) && b1 == At(p.orig, s + 1) && b2 == At(p.orig, s + 2)
  {
    SeenMulti(p, w, s, op);
  }

  lemma SeenMulti(p: Program, w: World, s: int, op: byte)
    requires ProgramOk(p) && Inv(p, w) && s in p.sites && Seen(p, w.code, w.info, s, op) && Multi(op)
    ensures op == At(p.orig, s)
  {
    if Multi(At(p.orig, s)) {
      TargetOpcode(p, w.info, s);
    } else if At(p.orig, s) != OPC_ALOAD_0 {
      OneByteOpcode(p, w.info, s, op);
    }
  }

  // ----- the decision of a thread that has read its bytes -----

  lemma OriginalIsOk(p: Program, info: CpInfo)
    requires ProgramOk(p) && InfoOk(p, info)
    ensures CodeOk(p, p.orig, info)
  {
  }

  /** Resolving from the loaded bytes gives the target, whatever has been resolved already. */
  lemma FetchGivesTarget(p: Program, info: CpInfo, s: int)
    requires ProgramOk(p) && QuickSafe(p) && InfoOk(p, info) && s in p.sites && Multi(At(p.orig, s))
    ensures var r := Fetch(p, p.orig, info, s);
            && r.code == Target(p, s) && FetchOk(p, p.orig, info, s, r)
            && (r.op.None? <==> At(r.code, s) != At(p.orig, s)) && (r.op.Some? ==> r.code == p.orig)
            && (forall k | k in info :: k in r.info)
  {
    hide CodeOk;
    hide Matches;
    hide Rank;
    OriginalIsOk(p, info);
    FetchIsOk(p, p.orig, info, s);
    CachedIsResolved(p, info, SiteClass(p, s), Operand16(p.orig, s));
    assert SiteWellFormed(p, s);
    PutBytes(p.orig, s);
    hide ProgramOk;
    hide InfoOk;
    hide ResolveField;
    hide ResolveMethod;
    hide ResolveInterfaceMethod;
    hide Put;
  }

  lemma PutBytes(code: seq<byte>, s: int)
    ensures forall b: byte | 0 <= s < |code| :: At(Put(code, s, b), s) == b
  {
  }

  lemma ViewOfLoaded(p: Program, s: int)
    requires ProgramOk(p) && s in p.sites && Multi(At(p.orig, s))
    ensures View(p, s, At(p.orig, s), At(p.orig, s + 1), At(p.orig, s + 2)) == p.orig
  {
    assert SiteWellFormed(p, s);
    hide ProgramOk;
  }

  /** The bytes to write after resolving: none, or all that lead to the target. */
  lemma WritesOfTarget(p: Program, s: int, r: Fetched)
    requires ProgramOk(p) && s in p.sites && r.code == Target(p, s)
    ensures At(r.code, s) == At(p.orig, s) ==> Writes(s, At(p.orig, s), r) == []
    ensures Writes(s, At(p.orig, s), r) == FullWrites(p, s)
  {
    hide ProgramOk;
    hide Target;
  }

  /** A thread that dispatched on the loaded opcode and found it unchanged. */
  lemma DecideSlow(p: Program, w: World, s: int, b1: byte, b2: byte)
    requires ProgramOk(p) && QuickSafe(p) && Inv(p, w) && s in p.sites && Multi(At(p.orig, s))
    requires b1 == At(p.orig, s + 1) && b2 == At(p.orig, s + 2)
    ensures Decided(p, w, s, At(p.orig, s), b1, b2)
  {
    hide Fetch;
    hide ProgramOk;
    hide CodeOk;
    hide Target;
    hide Matches;
    hide View;
    hide Writes;
    hide FullWrites;
    hide WritesOk;
    hide SiteInv;
    hide ThreadInv;
    ViewOfLoaded(p, s);
    FetchGivesTarget(p, w.info, s);
    var r := Fetch(p, p.orig, w.info, s);
    WritesOfTarget(p, s, r);
    OkInfo(p, r.code, r.info);
    if At(r.code, s) != At(p.orig, s) {
      WritesClosed(p, w.code, r.info, s, FullWrites(p, s));
    } else {
      NothingToWrite(p, w.code, r.info, s);
    }
  }

  lemma NothingToWrite(p: Program, code: seq<byte>, info: CpInfo, s: int)
    requires ProgramOk(p) && s in p.sites
    ensures WritesOk(p, code, info, s, [])
  {
  }

  /** What follows from the decision: the resolved entries grow, the writes are the right ones, and
      an operation it yields stands for the reference operation. */
  ghost predicate Decided(p: Program, w: World, s: int, op: byte, b1: byte, b2: byte)
    requires ProgramOk(p) && s in p.sites
  {
    var r := Fetch(p, View(p, s, op, b1, b2), w.info, s);
    && InfoOk(p, r.info) && (forall k | k in w.info :: k in r.info)
    && WritesOk(p, w.code, r.info, s, Writes(s, op, r))
    && (r.op.Some? ==> Matches(p, s, r.op.value))
  }

  /** Quick opcodes are run and not rewritten. */
  lemma QuickStays(p: Program, code: seq<byte>, info: CpInfo, s: int)
    requires ProgramOk(p) && s in p.sites
    requires At(code, s) >= OPC_LDC_QUICK && At(code, s) != OPC_ALOAD_THIS
    ensures var r := Fetch(p, code, info, s); r.code == code && r.info == info && r.op.Some?
  {
  }

  lemma DecideQuick(p: Program, w: World, s: int, b1: byte, b2: byte)
    requires ProgramOk(p) && QuickSafe(p) && Inv(p, w) && s in p.sites && Multi(At(p.orig, s))
    requires At(Target(p, s), s) != At(p.orig, s) && CodeOk(p, Target(p, s), w.info)
    requires b1 == At(Target(p, s), s + 1) && b2 == At(Target(p, s), s + 2)
    ensures Decided(p, w, s, At(Target(p, s), s), b1, b2)
  {
    hide Fetch;
    hide ProgramOk;
    hide Target;
    hide Matches;
    hide CodeOk;
    hide SiteInv;
    hide ThreadInv;
    hide InfoOk;
    var q := At(Target(p, s), s);
    TargetOpcode(p, w.info, s);
    ViewOfTarget(p, s);
    QuickStays(p, Target(p, s), w.info, s);
    FetchIsOk(p, Target(p, s), w.info, s);
    OkInfo(p, Target(p, s), w.info);
    NothingToWrite(p, w.code, w.info, s);
    hide View;
    hide WritesOk;
  }

  lemma ViewOfTarget(p: Program, s: int)
    requires ProgramOk(p) && s in p.sites && Multi(At(p.orig, s))
    ensures var t := Target(p, s); View(p, s, At(t, s), At(t, s + 1), At(t, s + 2)) == t
  {
    TargetBytes(p, s);
    hide ProgramOk;
    hide Target;
  }

  /** The target differs from the loaded code in the three bytes of the instruction at most. */
  lemma TargetBytes(p: Program, s: int)
    requires ProgramOk(p) && s in p.sites && Multi(At(p.orig, s))
    ensures var t := Target(p, s);
            && |t| == |p.orig| && 0 <= s && s + 3 <= |t|
            && (forall k | 0 <= k < |t| && !(s <= k < s + 3) :: t[k] == p.orig[k])
  {
    assert SiteWellFormed(p, s);
  }

  lemma FetchGrowsInfo(p: Program, code: seq<byte>, info: CpInfo, s: int)
    requires ProgramOk(p) && s in p.sites
    ensures forall k | k in info :: k in Fetch(p, code, info, s).info
  {
  }

  /** Only the opcode changes, and only from the loaded one. */
  lemma OneByteFetch(p: Program, info: CpInfo, s: int, op: byte)
    requires ProgramOk(p) && s in p.sites && !Multi(At(p.orig, s)) && At(p.orig, s) != OPC_ALOAD_0
    requires op == At(p.orig, s) || (op >= OPC_LDC_QUICK && op != OPC_ALOAD_THIS)
    ensures var v := Put(p.orig, s, op);
            var r := Fetch(p, v, info, s);
            && 0 <= s < |p.orig| && r.code == Put(p.orig, s, At(r.code, s))
            && (At(r.code, s) != op ==> op == At(p.orig, s)) && At(v, s) == op
  {
    assert SiteWellFormed(p, s);
  }

  lemma DecideOneByte(p: Program, w: World, s: int, op: byte, b1: byte, b2: byte)
    requires ProgramOk(p) && QuickSafe(p) && Inv(p, w) && s in p.sites
    requires !Multi(At(p.orig, s)) && At(p.orig, s) != OPC_ALOAD_0 && CodeOk(p, Put(p.orig, s, op), w.info)
    requires Length(At(p.orig, s)) >= 2 ==> b1 == At(p.orig, s + 1)
    requires Length(At(p.orig, s)) >= 3 ==> b2 == At(p.orig, s + 2)
    ensures Decided(p, w, s, op, b1, b2)
  {
    var v := Put(p.orig, s, op);
    assert SiteWellFormed(p, s);
    assert View(p, s, op, b1, b2) == v;
    OneByteOpcode(p, w.info, s, op);
    NotAloadThis(p, w.info, s, op);
    OneByteFetch(p, w.info, s, op);
    FetchIsOk(p, v, w.info, s);
    FetchGrowsInfo(p, v, w.info, s);
    var r := Fetch(p, v, w.info, s);
    OneByteOpcode(p, r.info, s, At(r.code, s));
    hide Fetch;
    hide ProgramOk;
    hide Matches;
    hide View;
  }

  lemma NotAloadThis(p: Program, info: CpInfo, s: int, b: byte)
    requires ProgramOk(p) && s in p.sites && !Multi(At(p.orig, s)) && At(p.orig, s) != OPC_ALOAD_0
    requires CodeOk(p, Put(p.orig, s, b), info)
    ensures b != OPC_ALOAD_THIS
  {
    assert SiteWellFormed(p, s) && SiteOk(p, Put(p.orig, s, b), info, s);
  }

  /** The outcomes of dispatching on an aload_0 or one of its quick forms. */
  lemma LoadFetch(p: Program, v: seq<byte>, info: CpInfo, s: int)
    requires ProgramOk(p) && s in p.sites && 0 <= s < |v|
    ensures var r := Fetch(p, v, info, s);
            var op := At(v, s);
            && (op == OPC_ALOAD_0 ==> r.info == info && r.op == None)
            && (op == OPC_ALOAD_0 ==> At(r.code, s) == if StaticSite(p, s) then OPC_ILOAD_0 else OPC_ALOAD_THIS)
            && (op == OPC_ILOAD_0 ==> r == Fetched(v, info, Some(Load(0))))
            && (op == OPC_ALOAD_THIS && At(v, s + 1) == OPC_GETFIELD_QUICK ==>
                (r.info == info && r.op == None && At(r.code, s) == OPC_GETFIELD_THIS))
            && (op == OPC_ALOAD_THIS && At(v, s + 1) != OPC_GETFIELD_QUICK ==> r == Fetched(v, info, Some(Load(0))))
            && (op == OPC_GETFIELD_THIS ==> r == Fetched(v, info, Some(GetFieldThis(At(v, s + 2)))))
  {
  }

  lemma DecideLoad(p: Program, w: World, s: int, op: byte, b1: byte, b2: byte)
    requires ProgramOk(p) && Inv(p, w) && s in p.sites && At(p.orig, s) == OPC_ALOAD_0
    requires Seen(p, w.code, w.info, s, op) && FirstOk(p, w.code, w.info, s, op, b1) && SecondOk(p, w.code, s, op, b2)
    ensures Decided(p, w, s, op, b1, b2)
  {
    hide Fetch;
    hide ProgramOk;
    hide Target;
    hide InfoOk;
    hide CodeOk;
    hide SiteInv;
    hide ThreadInv;
    hide Settled;
    ViewOfLoad(p, s, op, b1, b2);
    var v := View(p, s, op, b1, b2);
    if op == OPC_GETFIELD_THIS {
      QuickOffset(p, Target(p, s + 1), w.info, s + 1);
    }
    LoadFetch(p, v, w.info, s);
    hide View;
  }

  lemma ViewOfLoad(p: Program, s: int, op: byte, b1: byte, b2: byte)
    requires ProgramOk(p) && s in p.sites && At(p.orig, s) == OPC_ALOAD_0
    ensures var v := View(p, s, op, b1, b2);
            && 0 <= s < |v| && At(v, s) == op && At(v, s + 1) == b1
            && (op == OPC_GETFIELD_THIS && s + 2 < |v| ==> At(v, s + 2) == b2)
            && s + 1 in p.sites && p.sites[s + 1] == p.sites[s]
            && (At(p.orig, s + 1) == OPC_GETFIELD ==> s + 3 < |v|)
  {
    assert SiteWellFormed(p, s) && SiteWellFormed(p, s + 1);
    hide ProgramOk;
  }

  /** Whatever bytes a thread has read, its decision is right. */
  lemma DecisionIsRight(p: Program, w: World, th: Thread)
    requires ProgramOk(p) && QuickSafe(p) && Inv(p, w) && ThreadInv(p, w.code, w.info, th) && th.phase.Checked?
    ensures Decided(p, w, th.pc, th.phase.op, th.phase.b1, th.phase.b2)
  {
    hide Decided;
    hide ProgramOk;
    hide QuickSafe;
    hide Inv;
    hide Fusable;
    hide CodeOk;
    hide Settled;
    hide Target;
    var s, op, b1, b2 := th.pc, th.phase.op, th.phase.b1, th.phase.b2;
    var o := At(p.orig, s);
    if o == OPC_ALOAD_0 {
      DecideLoad(p, w, s, op, b1, b2);
    } else if Multi(o) {
      if op == o {
        DecideSlow(p, w, s, b1, b2);
      } else {
        DecideQuick(p, w, s, b1, b2);
      }
    } else {
      DecideOneByte(p, w, s, op, b1, b2);
    }
  }

  // ----- one byte is written -----

  function Written(code: seq<byte>, x: Write): seq<byte> { Put(code, x.at, x.byte) }

  /** The bytes that bring an instruction to its final form. */
  lemma FullWritesAt(p: Program, s: int, k: nat)
    requires ProgramOk(p) && s in p.sites && k < |FullWrites(p, s)|
    requires At(Target(p, s), s) != At(p.orig, s)
    ensures var x := FullWrites(p, s)[k];
            && s <= x.at < s + 3 && (x.at == s ==> x.byte == OPC_LOCK || x.byte == At(Target(p, s), s))
            && (x.at != s ==> x.byte == At(Target(p, s), x.at))
  {
    hide ProgramOk;
    hide Target;
  }

  /** The next byte a thread has to write. */
  lemma NextWrite(p: Program, w: World, s: int, ws: seq<Write>)
    requires ProgramOk(p) && Inv(p, w) && s in p.sites && ws != [] && WritesOk(p, w.code, w.info, s, ws)
    ensures 0 <= s <= ws[0].at < s + Length(At(p.orig, s)) <= |w.code| && At(p.orig, s) != OPC_LOCK
    ensures ws[0].at == s ==> ws[0].byte != At(p.orig, s)
    ensures Multi(At(p.orig, s)) ==> ws[0].at == s || ws[0].byte == At(Target(p, s), ws[0].at)
    ensures !Multi(At(p.orig, s)) ==> ws[0].at == s
  {
    assert SiteWellFormed(p, s);
    hide Fetch;
    hide ProgramOk;
    hide CodeOk;
    hide InfoOk;
    hide Seen;
    hide FullWrites;
    hide Target;
    if Multi(At(p.orig, s)) {
      FullWritesAt(p, s, |FullWrites(p, s)| - |ws|);
    }
  }

  lemma PutAt(code: seq<byte>, i: int, b: byte)
    requires 0 <= i < |code|
    ensures |Put(code, i, b)| == |code|
    ensures forall k {:trigger At(Put(code, i, b), k)} :: At(Put(code, i, b), k) == if k == i then b else At(code, k)
  {
  }

  lemma OwnAdvances(p: Program, w: World, s: int, ws: seq<Write>)
    requires ProgramOk(p) && Inv(p, w) && s in p.sites && ws != [] && WritesOk(p, w.code, w.info, s, ws)
    ensures SiteAdvances(p, w.code, Written(w.code, ws[0]), s)
  {
    hide ProgramOk;
    hide Inv;
    hide Target;
    hide WritesOk;
    hide SiteAdvances;
    NextWrite(p, w, s, ws);
    OneByteAdvances(p, w.code, s, ws[0]);
  }

  lemma OneByteAdvances(p: Program, code: seq<byte>, s: int, x: Write)
    requires ProgramOk(p) && s in p.sites && 0 <= x.at < |code|
    requires x.at == s ==> x.byte != At(p.orig, s)
    requires Multi(At(p.orig, s)) ==> x.at == s || x.byte == At(Target(p, s), x.at)
    requires !Multi(At(p.orig, s)) ==> x.at == s
    ensures SiteAdvances(p, code, Written(code, x), s)
  {
    hide ProgramOk;
    hide Target;
    hide Multi;
    PutAt(code, x.at, x.byte);
    hide At;
  }

  /** The bytes of other instructions do not change. */
  lemma OtherBytes(p: Program, code: seq<byte>, s: int, at: int, b: byte, t: int)
    requires ProgramOk(p) && |code| == |p.orig| && s in p.sites && t in p.sites && s != t
    requires s <= at < s + Length(At(p.orig, s))
    ensures forall k {:trigger At(Put(code, at, b), k)} | t <= k < t + Length(At(p.orig, t)) ::
        At(Put(code, at, b), k) == At(code, k)
  {
    assert SiteWellFormed(p, s) && SiteWellFormed(p, t) && Apart(p, s, t) && Apart(p, t, s);
  }

  lemma MultiLength(p: Program, s: int)
    ensures Multi(At(p.orig, s)) ==> Length(At(p.orig, s)) == 3
  {
  }

  lemma WriteAdvances(p: Program, w: World, s: int, ws: seq<Write>, w': World)
    requires ProgramOk(p) && Inv(p, w) && s in p.sites && ws != [] && WritesOk(p, w.code, w.info, s, ws)
    requires w'.code == Written(w.code, ws[0]) && w'.info == w.info
    ensures Advances(p, w, w')
  {
    NextWrite(p, w, s, ws);
    hide ProgramOk;
    hide WritesOk;
    hide SiteInv;
    hide ThreadInv;
    hide InfoOk;
    hide SiteAdvances;
    forall t | t in p.sites ensures SiteAdvances(p, w.code, w'.code, t) {
      if t == s {
        OwnAdvances(p, w, s, ws);
      } else {
        OtherBytes(p, w.code, s, ws[0].at, ws[0].byte, t);
        SameBytesAdvance(p, w.code, w'.code, t);
      }
    }
  }

  lemma SameBytesAdvance(p: Program, code: seq<byte>, code': seq<byte>, t: int)
    requires ProgramOk(p) && t in p.sites
    requires forall k {:trigger At(code', k)} | t <= k < t + Length(At(p.orig, t)) :: At(code', k) == At(code, k)
    ensures SiteAdvances(p, code, code', t)
  {
    MultiLength(p, t);
    hide ProgramOk;
    hide Target;
  }

  /** An instruction whose own bytes stay keeps its invariant. */
  lemma SiteStays(p: Program, w: World, w': World, t: int)
    requires ProgramOk(p) && Inv(p, w) && Advances(p, w, w') && t in p.sites
    requires forall k {:trigger At(w'.code, k)} | t <= k < t + Length(At(p.orig, t)) :: At(w'.code, k) == At(w.code, k)
    ensures SiteInv(p, w'.code, w'.info, t)
  {
    assert SiteInv(p, w.code, w.info, t);
    MultiLength(p, t);
    assert At(w'.code, t) == At(w.code, t);
    if At(w.code, t) == OPC_LOCK {
      CodeOkGrows(p, Target(p, t), w.info, w'.info);
    } else {
      SeenStays(p, w, w', t, At(w.code, t));
    }
    hide ProgramOk;
    hide CodeOk;
    hide Target;
    hide Seen;
    hide Advances;
  }

  /** The effect of one write on the instruction it belongs to. */
  lemma WriteMultiSite(p: Program, w: World, s: int, done: nat)
    requires ProgramOk(p) && Inv(p, w) && s in p.sites && Multi(At(p.orig, s)) && done < |FullWrites(p, s)|
    requires 0 <= FullWrites(p, s)[done].at < |w.code|
    requires Progress(p, w.code, s, done) && At(Target(p, s), s) != At(p.orig, s) && CodeOk(p, Target(p, s), w.info)
    ensures var code' := Written(w.code, FullWrites(p, s)[done]);
            SiteInv(p, code', w.info, s) && Progress(p, code', s, done + 1)
  {
    hide ProgramOk;
    hide Target;
    hide CodeOk;
    hide InfoOk;
    hide ThreadInv;
    hide FullWrites;
    assert SiteInv(p, w.code, w.info, s);
    TargetOpcode(p, w.info, s);
    UnwrittenOperands(p, s);
    var x := FullWrites(p, s)[done];
    PutAt(w.code, x.at, x.byte);
    hide Inv;
    hide Put;
    hide At;
  }

  /** The write takes the instruction, and what is left to write, one byte on. */
  lemma WriteMulti(p: Program, w: World, s: int, ws: seq<Write>)
    requires ProgramOk(p) && Inv(p, w) && s in p.sites && ws != [] && WritesOk(p, w.code, w.info, s, ws)
    requires Multi(At(p.orig, s))
    ensures var code' := Written(w.code, ws[0]);
            SiteInv(p, code', w.info, s) && WritesOk(p, code', w.info, s, ws[1..])
  {
    hide *;
    NextWrite(p, w, s, ws);
    WritesOpened(p, w.code, w.info, s, ws);
    WriteMultiSite(p, w, s, |FullWrites(p, s)| - |ws|);
    WritesClosed(p, Written(w.code, ws[0]), w.info, s, ws[1..]);
  }

  /** An operand byte that is not rewritten is final as loaded. */
  lemma UnwrittenOperands(p: Program, s: int)
    requires ProgramOk(p) && s in p.sites && Multi(At(p.orig, s)) && At(Target(p, s), s) != At(p.orig, s)
    ensures var full := FullWrites(p, s);
            && 1 <= |full| <= 4 && full[|full| - 1] == Write(s, At(Target(p, s), s))
            && (|full| > 1 ==> full[0] == Write(s, OPC_LOCK) && full[1] == Write(s + 1, At(Target(p, s), s + 1)))
            && (|full| == 2 ==> false)
            && (|full| == 4 ==> full[2] == Write(s + 2, At(Target(p, s), s + 2)))
            && (|full| == 1 ==> At(Target(p, s), s + 1) == At(p.orig, s + 1))
            && (|full| < 4 ==> At(Target(p, s), s + 2) == At(p.orig, s + 2))
  {
    assert SiteWellFormed(p, s);
  }

  lemma WriteOpcode(p: Program, w: World, s: int, ws: seq<Write>, w': World)
    requires ProgramOk(p) && Inv(p, w) && s in p.sites && ws != [] && WritesOk(p, w.code, w.info, s, ws)
    requires !Multi(At(p.orig, s))
    requires w'.code == Written(w.code, ws[0]) && w'.info == w.info
    ensures SiteInv(p, w'.code, w.info, s) && WritesOk(p, w'.code, w.info, s, ws[1..])
  {
    NextWrite(p, w, s, ws);
    assert SiteInv(p, w.code, w.info, s);
    PutAt(w.code, ws[0].at, ws[0].byte);
    WriteAdvances(p, w, s, ws, w');
    SeenStays(p, w, w', s, ws[0].byte);
    hide ProgramOk;
    hide Seen;
    hide Target;
    hide CodeOk;
    hide InfoOk;
    hide ThreadInv;
    hide Inv;
    hide Advances;
  }

  /** Between a write to one instruction and the next state, every instruction is in order. */
  lemma WriteKeepsSites(p: Program, w: World, s: int, ws: seq<Write>, w': World)
    requires ProgramOk(p) && Inv(p, w) && s in p.sites && ws != [] && WritesOk(p, w.code, w.info, s, ws)
    requires w'.code == Written(w.code, ws[0]) && w'.info == w.info
    ensures Advances(p, w, w') && WritesOk(p, w'.code, w'.info, s, ws[1..])
    ensures forall t | t in p.sites :: SiteInv(p, w'.code, w'.info, t)
  {
    WriteAdvances(p, w, s, ws, w');
    NextWrite(p, w, s, ws);
    hide ProgramOk;
    hide WritesOk;
    hide SiteInv;
    hide ThreadInv;
    hide InfoOk;
    hide Advances;
    if Multi(At(p.orig, s)) {
      WriteMulti(p, w, s, ws);
    } else {
      WriteOpcode(p, w, s, ws, w');
    }
    forall t | t in p.sites && t != s ensures SiteInv(p, w'.code, w'.info, t) {
      OtherBytes(p, w.code, s, ws[0].at, ws[0].byte, t);
      SiteStays(p, w, w', t);
    }
  }

  /** Resolving an entry disturbs no instruction. */
  lemma ResolveKeepsSites(p: Program, w: World, w': World)
    requires ProgramOk(p) && Inv(p, w) && w'.code == w.code
    requires InfoOk(p, w'.info) && forall k | k in w.info :: k in w'.info
    ensures Advances(p, w, w')
    ensures forall t | t in p.sites :: SiteInv(p, w'.code, w'.info, t)
  {
    hide ProgramOk;
    hide SiteInv;
    hide ThreadInv;
    hide InfoOk;
    forall t | t in p.sites ensures SiteInv(p, w'.code, w'.info, t) {
      SiteStays(p, w, w', t);
    }
  }

  // ----- one step -----

  /** What the stepping thread knows afterwards. */
  lemma ThreadSteps(p: Program, w: World, t: nat, w': World)
    requires ProgramOk(p) && QuickSafe(p) && Inv(p, w) && t < |w.threads| && w.threads[t].pc in p.sites
    requires StepOf(p, w, t, w')
    ensures |w'.threads| == |w.threads| && |w'.code| == |w.code| && InfoOk(p, w'.info) && Advances(p, w, w')
    ensures ThreadInv(p, w'.code, w'.info, w'.threads[t])
    ensures forall i: nat | i < |w.threads| && i != t :: w'.threads[i] == w.threads[i]
    ensures forall s | s in p.sites :: SiteInv(p, w'.code, w'.info, s)
  {
    hide *;
    match w.threads[t].phase {
      case Checked(_, _, _) =>
        CheckedSteps(p, w, t, w');
      case Writing(_, _) =>
        WritingSteps(p, w, t, w');
      case _ =>
        ReadingSteps(p, w, t, w');
        ReadingKeeps(p, w);
        ResolveKeepsSites(p, w, w');
    }
  }

  lemma ReadingKeeps(p: Program, w: World)
    requires ProgramOk(p) && Inv(p, w)
    ensures InfoOk(p, w.info)
  {
  }

  lemma ThreadOf(p: Program, w: World, t: nat)
    requires ProgramOk(p) && Inv(p, w) && t < |w.threads|
    ensures ThreadInv(p, w.code, w.info, w.threads[t])
  {
    hide ProgramOk;
    hide ThreadInv;
  }

  lemma CheckedSteps(p: Program, w: World, t: nat, w': World)
    requires ProgramOk(p) && QuickSafe(p) && Inv(p, w) && t < |w.threads| && w.threads[t].pc in p.sites
    requires StepOf(p, w, t, w') && w.threads[t].phase.Checked?
    ensures |w'.threads| == |w.threads| && |w'.code| == |w.code| && InfoOk(p, w'.info) && Advances(p, w, w')
    ensures ThreadInv(p, w'.code, w'.info, w'.threads[t])
    ensures forall i: nat | i < |w.threads| && i != t :: w'.threads[i] == w.threads[i]
    ensures forall s | s in p.sites :: SiteInv(p, w'.code, w'.info, s)
  {
    hide ProgramOk;
    hide QuickSafe;
    hide SiteInv;
    hide InfoOk;
    hide Advances;
    hide WritesOk;
    hide Matches;
    hide Inv;
    hide Fetch;
    ThreadOf(p, w, t);
    DecisionIsRight(p, w, w.threads[t]);
    ResolveKeepsSites(p, w, w');
  }

  lemma WritingSteps(p: Program, w: World, t: nat, w': World)
    requires ProgramOk(p) && Inv(p, w) && t < |w.threads| && w.threads[t].pc in p.sites
    requires StepOf(p, w, t, w') && w.threads[t].phase.Writing?
    ensures |w'.threads| == |w.threads| && |w'.code| == |w.code| && InfoOk(p, w'.info) && Advances(p, w, w')
    ensures ThreadInv(p, w'.code, w'.info, w'.threads[t])
    ensures forall i: nat | i < |w.threads| && i != t :: w'.threads[i] == w.threads[i]
    ensures forall s | s in p.sites :: SiteInv(p, w'.code, w'.info, s)
  {
    hide ProgramOk;
    hide InfoOk;
    hide SiteInv;
    hide WritesOk;
    hide Advances;
    hide Matches;
    hide Inv;
    hide StepOf;
    hide ThreadInv;
    WritingStep(p, w, t, w');
    var s, ws, result := w.threads[t].pc, w.threads[t].phase.writes, w.threads[t].phase.result;
    if ws == [] {
      ResolveKeepsSites(p, w, w');
      HasWritten(p, w', s, result);
    } else {
      WriteKeepsSites(p, w, s, ws, w');
      StillWrites(p, w', s, ws[1..], result);
    }
  }

  /** What is written next, and what the thread goes on with. */
  lemma WritingStep(p: Program, w: World, t: nat, w': World)
    requires ProgramOk(p) && Inv(p, w) && t < |w.threads| && w.threads[t].pc in p.sites
    requires StepOf(p, w, t, w') && w.threads[t].phase.Writing?
    ensures InfoOk(p, w.info) && w'.info == w.info && |w'.code| == |w.code|
    ensures var s, ws, result := w.threads[t].pc, w.threads[t].phase.writes, w.threads[t].phase.result;
            && WritesOk(p, w.code, w.info, s, ws) && (result.Some? ==> Matches(p, s, result.value))
            && w'.code == (if ws == [] then w.code else Written(w.code, ws[0]))
            && w'.threads == w.threads[t := Thread(s, if ws != [] then Writing(ws[1..], result)
                                                      else if result.Some? then Doing(result.value) else Fetching)]
  {
    assert ThreadInv(p, w.code, w.info, w.threads[t]);
    hide ProgramOk;
    hide InfoOk;
    hide WritesOk;
    hide Matches;
    hide SiteInv;
  }

  lemma HasWritten(p: Program, w: World, s: int, result: Option<Op>)
    requires ProgramOk(p) && s in p.sites && (result.Some? ==> Matches(p, s, result.value))
    ensures ThreadInv(p, w.code, w.info, Thread(s, if result.Some? then Doing(result.value) else Fetching))
  {
    hide ProgramOk;
    hide Matches;
  }

  lemma StillWrites(p: Program, w: World, s: int, ws: seq<Write>, result: Option<Op>)
    requires ProgramOk(p) && s in p.sites && WritesOk(p, w.code, w.info, s, ws)
    requires result.Some? ==> Matches(p, s, result.value)
    ensures ThreadInv(p, w.code, w.info, Thread(s, Writing(ws, result)))
  {
    hide ProgramOk;
    hide Matches;
    hide WritesOk;
  }

  lemma ReadOpcode(p: Program, w: World, s: int)
    requires ProgramOk(p) && Inv(p, w) && s in p.sites
    ensures At(w.code, s) != OPC_LOCK ==> Seen(p, w.code, w.info, s, At(w.code, s))
  {
    assert SiteInv(p, w.code, w.info, s);
    hide Seen;
  }

  /** The accesses that only read. */
  lemma ReadingSteps(p: Program, w: World, t: nat, w': World)
    requires ProgramOk(p) && Inv(p, w) && t < |w.threads| && w.threads[t].pc in p.sites
    requires StepOf(p, w, t, w') && !w.threads[t].phase.Checked? && !w.threads[t].phase.Writing?
    ensures w'.code == w.code && w'.info == w.info && |w'.threads| == |w.threads|
    ensures ThreadInv(p, w'.code, w'.info, w'.threads[t])
    ensures forall i: nat | i < |w.threads| && i != t :: w'.threads[i] == w.threads[i]
  {
    hide Seen;
    hide FirstOk;
    hide SecondOk;
    hide Matches;
    hide InfoOk;
    hide ProgramOk;
    hide SiteInv;
    var th := w.threads[t];
    var s := th.pc;
    assert ThreadInv(p, w.code, w.info, th);
    match th.phase {
      case Fetching => ReadOpcode(p, w, s);
      case Saw(op) => ReadFirst(p, w, s, op);
      case One(op, b1) => ReadSecond(p, w, s, op);
      case Two(op, b1, b2) =>
        if Multi(op) && At(w.code, s) == op {
          Recheck(p, w, s, op, b1, b2);
        }
      case _ =>
    }
  }

  lemma StepKeepsInv(p: Program, w: World, w': World)
    requires ProgramOk(p) && QuickSafe(p) && Inv(p, w) && Next(p, w, w')
    ensures Inv(p, w') && Advances(p, w, w')
  {
    var t: nat :| t < |w.threads| && w.threads[t].pc in p.sites && StepOf(p, w, t, w');
    ThreadSteps(p, w, t, w');
    hide StepOf;
    hide ProgramOk;
    hide SiteInv;
    hide ThreadInv;
    hide InfoOk;
    hide Advances;
    forall i: nat | i < |w'.threads| ensures ThreadInv(p, w'.code, w'.info, w'.threads[i]) {
      if i != t {
        assert w'.threads[i] == w.threads[i];
        ThreadStays(p, w, w', w.threads[i]);
      }
    }
  }

  lemma InitInv(p: Program, w: World)
    requires ProgramOk(p) && Init(p, w)
    ensures Inv(p, w)
  {
    OriginalIsOk(p, w.info);
    forall s | s in p.sites ensures SiteInv(p, w.code, w.info, s) {
      InitSite(p, w.info, s);
    }
    hide SiteInv;
    hide ProgramOk;
    hide InfoOk;
  }

  lemma InitSite(p: Program, info: CpInfo, s: int)
    requires ProgramOk(p) && InfoOk(p, info) && s in p.sites
    ensures SiteInv(p, p.orig, info, s)
  {
    OriginalIsOk(p, info);
    assert SiteWellFormed(p, s);
    assert Put(p.orig, s, At(p.orig, s)) == p.orig;
    hide CodeOk;
    hide ProgramOk;
    hide Target;
  }

  // ----- every run -----

  lemma {:induction false} RunInv(p: Program, run: seq<World>, i: nat)
    requires ProgramOk(p) && QuickSafe(p) && IsRun(p, run) && i < |run|
    ensures Inv(p, run[i])
  {
    hide Inv;
    hide Next;
    hide Init;
    if i == 0 {
      InitInv(p, run[0]);
    } else {
      RunInv(p, run, i - 1);
      assert Next(p, run[i - 1], run[i - 1 + 1]);
      StepKeepsInv(p, run[i - 1], run[i]);
    }
  }

  lemma ThreadIs(p: Program, run: seq<World>, i: nat, t: nat)
    requires ProgramOk(p) && QuickSafe(p) && IsRun(p, run) && i < |run| && t < |run[i].threads|
    ensures Inv(p, run[i]) && ThreadInv(p, run[i].code, run[i].info, run[i].threads[t])
  {
    hide ThreadInv;
    hide SiteInv;
    hide InfoOk;
    hide IsRun;
    hide ProgramOk;
    hide QuickSafe;
    RunInv(p, run, i);
  }

  /** Past the recheck of an opcode whose operands get overwritten, a thread holds the operands as
      they were loaded, although others may have overwritten them by now (interp.c:188-191). */
  lemma RecheckedOperandsAreOriginal(p: Program, run: seq<World>, i: nat, t: nat)
    requires ProgramOk(p) && QuickSafe(p) && IsRun(p, run) && i < |run| && t < |run[i].threads|
    requires run[i].threads[t].phase.Checked? && Multi(run[i].threads[t].phase.op)
    ensures var th := run[i].threads[t];
            && th.pc in p.sites && th.phase.op == At(p.orig, th.pc)
            && th.phase.b1 == At(p.orig, th.pc + 1) && th.phase.b2 == At(p.orig, th.pc + 2)
  {
    hide IsRun;
    hide ProgramOk;
    hide QuickSafe;
    hide Inv;
    ThreadIs(p, run, i, t);
    SeenMulti(p, run[i], run[i].threads[t].pc, run[i].threads[t].phase.op);
  }

  /** Whatever the others have overwritten meanwhile, the operation a thread runs stands for the one
      the reference machine runs there. */
  lemma RacingThreadsRunTheRightOperation(p: Program, run: seq<World>, i: nat, t: nat)
    requires ProgramOk(p) && QuickSafe(p) && IsRun(p, run) && i < |run| && t < |run[i].threads|
    requires run[i].threads[t].phase.Doing?
    ensures run[i].threads[t].pc in p.sites && Matches(p, run[i].threads[t].pc, run[i].threads[t].phase.effect)
  {
    hide IsRun;
    hide ProgramOk;
    hide QuickSafe;
    hide Inv;
    hide Matches;
    ThreadIs(p, run, i, t);
  }

  /** A thread that dispatched on the quick form of an instruction whose operands get overwritten has
      read the final operands, never a mixture (interp.c:196-209). */
  lemma QuickOperandsAreFinal(p: Program, run: seq<World>, i: nat, t: nat)
    requires ProgramOk(p) && QuickSafe(p) && IsRun(p, run) && i < |run| && t < |run[i].threads|
    requires run[i].threads[t].phase.Two? || run[i].threads[t].phase.Checked?
    requires run[i].threads[t].pc in p.sites && Multi(At(p.orig, run[i].threads[t].pc))
    requires run[i].threads[t].phase.op != At(p.orig, run[i].threads[t].pc)
    ensures var th := run[i].threads[t];
            && th.phase.op == At(Target(p, th.pc), th.pc)
            && th.phase.b1 == At(Target(p, th.pc), th.pc + 1) && th.phase.b2 == At(Target(p, th.pc), th.pc + 2)
  {
    hide IsRun;
    hide ProgramOk;
    hide QuickSafe;
    hide Inv;
    hide Target;
    ThreadIs(p, run, i, t);
  }

  /** An instruction that has left its loaded opcode never shows it again. */
  lemma {:induction false} OpcodesNeverReturn(p: Program, run: seq<World>, i: nat, j: nat, s: int)
    requires ProgramOk(p) && QuickSafe(p) && IsRun(p, run) && i <= j < |run| && s in p.sites
    ensures At(run[i].code, s) != At(p.orig, s) ==> At(run[j].code, s) != At(p.orig, s)
    decreases j - i
  {
    hide Inv;
    hide Next;
    hide Init;
    hide ProgramOk;
    hide InfoOk;
    if i < j {
      OpcodesNeverReturn(p, run, i, j - 1, s);
      RunInv(p, run, j - 1);
      assert Next(p, run[j - 1], run[j - 1 + 1]);
      StepKeepsInv(p, run[j - 1], run[j]);
      assert SiteAdvances(p, run[j - 1].code, run[j].code, s);
    }
  }

  /** Whenever no instruction shows OPC_LOCK, the code is one that a single thread could have left:
      every instruction has its loaded form or a whole quick form. */
  lemma UnlockedCodeIsWhole(p: Program, run: seq<World>, i: nat)
    requires ProgramOk(p) && QuickSafe(p) && IsRun(p, run) && i < |run|
    requires forall s | s in p.sites :: At(run[i].code, s) != OPC_LOCK
    ensures CodeOk(p, run[i].code, run[i].info)
  {
    RunInv(p, run, i);
    var w := run[i];
    hide Next;
    hide Init;
    hide ProgramOk;
    hide InfoOk;
    hide SiteInv;
    hide SiteOk;
    forall s | s in p.sites ensures SiteOk(p, w.code, w.info, s) {
      UnlockedSite(p, w, s);
    }
  }

  lemma UnlockedSite(p: Program, w: World, s: int)
    requires ProgramOk(p) && Inv(p, w) && s in p.sites && At(w.code, s) != OPC_LOCK
    requires s + 1 in p.sites ==> At(w.code, s + 1) != OPC_LOCK
    ensures SiteOk(p, w.code, w.info, s)
  {
    assert SiteInv(p, w.code, w.info, s) && SiteWellFormed(p, s);
    var o := At(p.orig, s);
    if o == OPC_ALOAD_0 {
      assert SiteInv(p, w.code, w.info, s + 1);
      hide ProgramOk;
      hide Target;
      hide CodeOk;
    } else if Multi(o) {
      UnlockedMulti(p, w, s);
    } else {
      UnlockedOneByte(p, w, s);
    }
  }

  lemma UnlockedMulti(p: Program, w: World, s: int)
    requires ProgramOk(p) && Inv(p, w) && s in p.sites && Multi(At(p.orig, s)) && At(w.code, s) != OPC_LOCK
    ensures SiteOk(p, w.code, w.info, s)
  {
    UnlockedBytes(p, w, s);
    hide *;
    if At(w.code, s) != At(p.orig, s) {
      FormDepends(p, Target(p, s), w.info, s, w.code, w.info);
    }
  }

  /** It has its bytes as loaded, or those of its final form. */
  lemma UnlockedBytes(p: Program, w: World, s: int)
    requires ProgramOk(p) && Inv(p, w) && s in p.sites && Multi(At(p.orig, s)) && At(w.code, s) != OPC_LOCK
    ensures At(w.code, s) == At(p.orig, s) ==> SiteOk(p, w.code, w.info, s)
    ensures At(w.code, s) != At(p.orig, s) ==>
      && SiteOk(p, Target(p, s), w.info, s) && At(Target(p, s), s) != OPC_GETFIELD_THIS
      && forall k {:trigger At(w.code, k)} | s <= k < s + Length(At(p.orig, s)) :: At(w.code, k) == At(Target(p, s), k)
  {
    assert SiteInv(p, w.code, w.info, s);
    MultiLength(p, s);
    if At(w.code, s) != At(p.orig, s) {
      assert SiteOk(p, Target(p, s), w.info, s);
      TargetOpcode(p, w.info, s);
    }
    hide ProgramOk;
    hide Target;
    hide InfoOk;
    hide ConstantForm;
    hide LoadForm;
    hide FieldForm;
    hide InvokeForm;
  }

  lemma UnlockedOneByte(p: Program, w: World, s: int)
    requires ProgramOk(p) && Inv(p, w) && s in p.sites && At(w.code, s) != OPC_LOCK
    requires !Multi(At(p.orig, s)) && At(p.orig, s) != OPC_ALOAD_0
    ensures SiteOk(p, w.code, w.info, s)
  {
    var v := Put(p.orig, s, At(w.code, s));
    assert SiteInv(p, w.code, w.info, s) && SiteWellFormed(p, s);
    OneByteOpcode(p, w.info, s, At(w.code, s));
    PutAt(p.orig, s, At(w.code, s));
    assert SiteOk(p, v, w.info, s);
    hide ProgramOk;
    hide SiteOk;
    hide InfoOk;
    FormDepends(p, v, w.info, s, w.code, w.info);
  }
}
