/**
 The reference machine by the book: what each modelled instruction does, from the bytes of the code as
 loaded, in the opcode numbers and the words of section 6.5 of the JVMS. Nothing here goes by the
 machine's own decoding: operands are bytes, values are 32-bit integers, methods and fields are the
 nearest declarations. (The instructions are interp.c:444-1293, the opcodes jam.h.)
 */
module Instructions {
  import opened Common
  import opened Hierarchy
  import opened Linking
  import opened Bytecode
  import opened Reference

  // ----- words and operands -----

  /** The int that a word stands for. */
  predicate IsInt(w: Word, v: int) {
    -0x8000_0000 <= v < 0x8000_0000 && (w - v) % 0x1_0000_0000 == 0
  }

  /** The word that stands for an int, whatever its size. */
  predicate IsWordOf(w: Word, v: int) {
    0 <= w < 0x1_0000_0000 && (w - v) % 0x1_0000_0000 == 0
  }

  lemma WordOf(v: int)
    ensures IsWordOf(ToWord(v), v)
  {
    assert v == v / 0x1_0000_0000 * 0x1_0000_0000 + v % 0x1_0000_0000;
  }

  lemma IntOf(w: Word)
    ensures IsInt(w, ToInt(w)) && forall v | IsInt(w, v) :: v == ToInt(w)
  {
    WordOf(w);
  }

  /** A two's complement byte, and one of two bytes. */
  predicate IsSigned8(b: byte, v: int) { -128 <= v < 128 && (b == v || b == v + 256) }

  predicate IsSigned16(hi: byte, lo: byte, v: int) {
    -32768 <= v < 32768 && (256 * hi + lo == v || 256 * hi + lo == v + 65536)
  }

  lemma SignedOperands(hi: byte, lo: byte)
    ensures IsSigned8(hi, SignedByte(hi)) && IsSigned16(hi, lo, Signed16(hi, lo))
    ensures forall v | IsSigned8(hi, v) :: v == SignedByte(hi)
    ensures forall v | IsSigned16(hi, lo, v) :: v == Signed16(hi, lo)
  {
  }

  // ----- where the machine is -----

  /** The machine is at an instruction with this opcode. */
  predicate IsAt(p: Program, m: Machine, op: int)
    requires ProgramOk(p)
  {
    && m.frames != [] && var f := m.frames[|m.frames| - 1];
       f.pc in p.sites && p.sites[f.pc] == f.m && 0 <= f.pc < |p.orig| && p.orig[f.pc] == op
  }

  function Current(m: Machine): Frame
    requires m.frames != []
  {
    m.frames[|m.frames| - 1]
  }

  /** The byte k after the opcode. */
  function Operand(p: Program, m: Machine, k: nat): byte
    requires m.frames != []
  {
    At(p.orig, Current(m).pc + k)
  }

  /** The current frame goes on at pc with this operand stack, and nothing else changes. */
  function Goes(m: Machine, pc: int, stack: seq<Word>): State
    requires m.frames != []
  {
    Running(m.(frames := m.frames[..|m.frames| - 1] + [Current(m).(pc := pc, stack := stack)]))
  }

  lemma Decoded(p: Program, m: Machine, op: int)
    requires ProgramOk(p) && IsAt(p, m, op)
    ensures m.frames != [] && AtSite(p, m) && op == At(p.orig, Current(m).pc) && Current(m) == Last(m)
    ensures Step(p, Running(m)) == Exec(p, m, RefOp(p, Current(m).pc))
  {
    hide ProgramOk;
  }

  /** Most instructions are decoded from their bytes alone. */
  lemma Plain(p: Program, m: Machine, op: int)
    requires ProgramOk(p) && IsAt(p, m, op) && op != 18 && op != 19 && op != 42 && !(178 <= op <= 185)
    ensures var f := Current(m);
            && f == Last(m) && f.pc in p.sites && AtSite(p, m)
            && RefOp(p, f.pc) == PlainOp(op, Operand(p, m, 1), Operand(p, m, 2), f.pc)
            && NextPc(p, m) == f.pc + Length(op) && Step(p, Running(m)) == Exec(p, m, RefOp(p, f.pc))
  {
    hide ProgramOk;
    hide PlainOp;
    hide Exec;
  }

  /** An instruction on the operand stack alone. */
  lemma StackInstruction(p: Program, m: Machine, op: int, pushes: seq<Word>, keep: nat, pc: int)
    requires ProgramOk(p) && IsAt(p, m, op) && keep <= |Current(m).stack|
    requires var o := RefOp(p, Current(m).pc);
             StackEffect(Last(m), o, NextPc(p, m)) == Some(Effect(|Current(m).stack| - keep, pushes, pc))
    ensures Step(p, Running(m)) == Goes(m, pc, Current(m).stack[..keep] + pushes)
  {
    hide ProgramOk;
    hide RefOp;
    Decoded(p, m, op);
    EffectsAreDone(p, m, RefOp(p, Current(m).pc));
    hide Exec;
    hide StackEffect;
  }

  lemma EffectsAreDone(p: Program, m: Machine, o: Op)
    requires ProgramOk(p) && m.frames != [] && StackEffect(Last(m), o, NextPc(p, m)).Some?
    ensures Exec(p, m, o) == StackStep(p, m, o)
  {
    hide ProgramOk;
    hide StackStep;
    hide InvokeStep;
    hide ReturnStep;
    hide ThrowStep;
    hide RaiseIn;
    hide FieldStep;
    hide LocalStep;
    hide NextPc;
    hide Apply;
    hide Holds;
  }

  // ----- constants -----

  lemma Nop(p: Program, m: Machine)
    requires ProgramOk(p) && IsAt(p, m, 0)
    ensures Step(p, Running(m)) == Goes(m, Current(m).pc + 1, Current(m).stack)
  {
    var s := Current(m).stack;
    StackInstruction(p, m, 0, [], |s|, Current(m).pc + 1);
    assert s[..|s|] + [] == s;
  }

  /** An instruction that pushes a constant: aconst_null, iconst, bipush, sipush. */
  ghost predicate PushesConstant(op: int, b1: byte, b2: byte, v: int, length: nat) {
    || (op == 1 && v == 0 && length == 1)
    || (2 <= op <= 8 && v == op - 3 && length == 1)
    || (op == 16 && IsSigned8(b1, v) && length == 2)
    || (op == 17 && IsSigned16(b1, b2, v) && length == 3)
  }

  lemma PushConstant(p: Program, m: Machine, op: int, v: int, length: nat, w: Word)
    requires ProgramOk(p) && IsAt(p, m, op) && IsWordOf(w, v)
    requires PushesConstant(op, Operand(p, m, 1), Operand(p, m, 2), v, length)
    ensures Step(p, Running(m)) == Goes(m, Current(m).pc + length, Current(m).stack + [w])
  {
    hide ProgramOk;
    hide RefOp;
    hide PushesConstant;
    hide IsWordOf;
    var s := Current(m).stack;
    ConstantIsPushed(p, m, op, v, length, w);
    StackInstruction(p, m, op, [w], |s|, Current(m).pc + length);
    assert s[..|s|] == s;
  }

  lemma ConstantIsPushed(p: Program, m: Machine, op: int, v: int, length: nat, w: Word)
    requires ProgramOk(p) && IsAt(p, m, op) && IsWordOf(w, v)
    requires PushesConstant(op, Operand(p, m, 1), Operand(p, m, 2), v, length)
    ensures Current(m) == Last(m) && RefOp(p, Current(m).pc) == Push(w)
    ensures NextPc(p, m) == Current(m).pc + length
  {
    hide ProgramOk;
    hide RefOp;
    hide Step;
    hide Exec;
    Plain(p, m, op);
    var b1, b2 := Operand(p, m, 1), Operand(p, m, 2);
    SignedOperands(b1, b2);
    hide Operand;
    hide SignedByte;
    hide Signed16;
    hide IsSigned8;
    hide IsSigned16;
    OneWord(v, w);
    OneWordOfZero();
    hide IsWordOf;
    hide ToWord;
  }

  lemma OneWord(v: int, w: Word)
    requires IsWordOf(w, v)
    ensures w == ToWord(v)
  {
  }

  lemma OneWordOfZero()
    ensures ToWord(0) == 0
  {
  }

  /** ldc and ldc_w push the integer, float or string of a pool entry. */
  lemma LoadConstant(p: Program, m: Machine, op: int, w: Word)
    requires ProgramOk(p) && (op == 18 || op == 19) && IsAt(p, m, op)
    requires var i := if op == 18 then Operand(p, m, 1) else 256 * Operand(p, m, 1) + Operand(p, m, 2);
             PoolAt(p, m, i) == CpWord(w) || PoolAt(p, m, i) == CpString(w)
    ensures Step(p, Running(m)) == Goes(m, Current(m).pc + (if op == 18 then 2 else 3), Current(m).stack + [w])
  {
    hide ProgramOk;
    hide PoolAt;
    hide Step;
    hide Exec;
    var s := Current(m).stack;
    OwnClass(p, m, op);
    Decoded(p, m, op);
    assert RefOp(p, Current(m).pc) == Push(w) by {
      hide PlainOp;
      hide FieldOp;
      hide InvokeOp;
    }
    hide RefOp;
    hide Operand16;
    StackInstruction(p, m, op, [w], |s|, Current(m).pc + if op == 18 then 2 else 3);
    assert s[..|s|] == s;
  }

  /** Entry i of the constant pool of the class whose method runs. */
  function PoolAt(p: Program, m: Machine, i: nat): CpEntry
    requires m.frames != []
  {
    if Current(m).m < |p.l.methods| then
      var c := p.l.methods[Current(m).m].owner;
      if c < |p.pools| && i < |p.pools[c]| then p.pools[c][i] else CpOther
    else CpOther
  }

  lemma OwnClass(p: Program, m: Machine, op: int)
    requires ProgramOk(p) && IsAt(p, m, op)
    ensures var pc := Current(m).pc;
            && Current(m).m < |p.l.methods| && SiteClass(p, pc) == p.l.methods[Current(m).m].owner
            && forall i: nat :: Entry(p, SiteClass(p, pc), i) == PoolAt(p, m, i)
    ensures Operand16(p.orig, Current(m).pc) == 256 * Operand(p, m, 1) + Operand(p, m, 2)
  {
    assert SiteWellFormed(p, Current(m).pc);
    hide ProgramOk;
  }

  // ----- local variables and the operand stack -----

  /** The local variable of iload, aload, istore, astore and their short forms. */
  predicate NamesLocal(op: int, b1: byte, i: nat, length: nat) {
    || (op in {21, 25, 54, 58} && i == b1 && length == 2)
    || (26 <= op <= 29 && i == op - 26 && length == 1)
    || (42 <= op <= 45 && i == op - 42 && length == 1)
    || (59 <= op <= 62 && i == op - 59 && length == 1)
    || (75 <= op <= 78 && i == op - 75 && length == 1)
  }

  lemma LoadLocal(p: Program, m: Machine, op: int, i: nat, length: nat, w: Word)
    requires ProgramOk(p) && IsAt(p, m, op) && op < 54 && NamesLocal(op, Operand(p, m, 1), i, length)
    requires i < |Current(m).locals| && Current(m).locals[i] == Some(w)
    ensures Step(p, Running(m)) == Goes(m, Current(m).pc + length, Current(m).stack + [w])
  {
    hide ProgramOk;
    var s := Current(m).stack;
    Decoded(p, m, op);
    StackInstruction(p, m, op, [w], |s|, Current(m).pc + length);
    assert s[..|s|] == s;
  }

  lemma StoreLocal(p: Program, m: Machine, op: int, i: nat, length: nat)
    requires ProgramOk(p) && IsAt(p, m, op) && op >= 54 && NamesLocal(op, Operand(p, m, 1), i, length)
    requires i < |Current(m).locals| && Current(m).stack != []
    ensures var f, n := Current(m), |Current(m).stack| - 1;
            Step(p, Running(m)) == Running(m.(frames := m.frames[..|m.frames| - 1] +
              [f.(pc := f.pc + length, locals := f.locals[i := Some(f.stack[n])], stack := f.stack[..n])]))
  {
    hide ProgramOk;
    hide RefOp;
    hide Step;
    Plain(p, m, op);
    hide ProgramOk;
  }

  /** iinc adds a signed byte. */
  lemma IncrementLocal(p: Program, m: Machine, x: Word, d: int, w: Word)
    requires ProgramOk(p) && IsAt(p, m, 132) && IsSigned8(Operand(p, m, 2), d) && IsWordOf(w, x + d)
    requires Operand(p, m, 1) < |Current(m).locals| && Current(m).locals[Operand(p, m, 1)] == Some(x)
    ensures var f := Current(m);
            Step(p, Running(m)) == Running(m.(frames := m.frames[..|m.frames| - 1] +
              [f.(pc := f.pc + 3, locals := f.locals[Operand(p, m, 1) := Some(w)])]))
  {
    hide ProgramOk;
    hide RefOp;
    hide Step;
    hide LocalStep;
    IncrementDecoded(p, m, d);
    OneWord(x + d, w);
    hide ToWord;
    hide IsWordOf;
    hide IsSigned8;
    var f := Current(m);
    assert Step(p, Running(m)) == LocalStep(p, m, Inc(Operand(p, m, 1), d));
    Incremented(p, m, Operand(p, m, 1), d, x);
  }

  lemma Incremented(p: Program, m: Machine, i: nat, d: int, x: Word)
    requires ProgramOk(p) && m.frames != [] && i < |Current(m).locals| && Current(m).locals[i] == Some(x)
    ensures var f := Current(m);
            LocalStep(p, m, Inc(i, d)) == Running(m.(frames := m.frames[..|m.frames| - 1] +
              [f.(pc := NextPc(p, m), locals := f.locals[i := Some(ToWord(x + d))])]))
  {
    hide ProgramOk;
    hide ToWord;
    hide NextPc;
  }

  lemma IncrementDecoded(p: Program, m: Machine, d: int)
    requires ProgramOk(p) && IsAt(p, m, 132) && IsSigned8(Operand(p, m, 2), d)
    ensures var f := Current(m);
            f.pc in p.sites && RefOp(p, f.pc) == Inc(Operand(p, m, 1), d) && NextPc(p, m) == f.pc + 3
    ensures Step(p, Running(m)) == Exec(p, m, Inc(Operand(p, m, 1), d))
  {
    hide ProgramOk;
    hide RefOp;
    hide Step;
    hide Exec;
    Plain(p, m, 132);
    SignedOperands(Operand(p, m, 2), 0);
    hide Operand;
    hide SignedByte;
    hide IsSigned8;
  }

  lemma PopDupSwap(p: Program, m: Machine, op: int, s: seq<Word>, a: Word, b: Word)
    requires ProgramOk(p) && op in {87, 89, 95} && IsAt(p, m, op)
    ensures op == 87 && Current(m).stack == s + [a] ==> Step(p, Running(m)) == Goes(m, Current(m).pc + 1, s)
    ensures op == 89 && Current(m).stack == s + [a] ==>
              Step(p, Running(m)) == Goes(m, Current(m).pc + 1, s + [a, a])
    ensures op == 95 && Current(m).stack == s + [a, b] ==>
              Step(p, Running(m)) == Goes(m, Current(m).pc + 1, s + [b, a])
  {
    hide ProgramOk;
    hide RefOp;
    hide Step;
    var pc := Current(m).pc + 1;
    Plain(p, m, op);
    if op == 87 && Current(m).stack == s + [a] {
      StackInstruction(p, m, op, [], |s|, pc);
      assert s + [] == s == (s + [a])[..|s|];
    } else if op == 89 && Current(m).stack == s + [a] {
      StackInstruction(p, m, op, [a], |s + [a]|, pc);
      assert (s + [a])[..|s + [a]|] + [a] == s + [a, a];
    } else if op == 95 && Current(m).stack == s + [a, b] {
      StackInstruction(p, m, op, [b, a], |s|, pc);
      assert (s + [a, b])[..|s|] == s;
    }
  }

  /** iadd and isub, in 32 bits. */
  lemma AddAndSubtract(p: Program, m: Machine, op: int, s: seq<Word>, a: Word, b: Word, w: Word)
    requires ProgramOk(p) && IsAt(p, m, op) && Current(m).stack == s + [a, b]
    requires (op == 96 && IsWordOf(w, a + b)) || (op == 100 && IsWordOf(w, a - b))
    ensures Step(p, Running(m)) == Goes(m, Current(m).pc + 1, s + [w])
  {
    hide ProgramOk;
    hide RefOp;
    hide Step;
    Plain(p, m, op);
    SumOf(a, b, w);
    hide Apply;
    hide IsWordOf;
    StackInstruction(p, m, op, [w], |s|, Current(m).pc + 1);
    assert (s + [a, b])[..|s|] == s;
  }

  lemma SumOf(a: Word, b: Word, w: Word)
    ensures IsWordOf(w, a + b) ==> Apply(Add, a, b) == w
    ensures IsWordOf(w, a - b) ==> Apply(Sub, a, b) == w
  {
    IntOf(a);
    IntOf(b);
    hide ToInt;
    WordOf(ToInt(a) + ToInt(b));
    WordOf(ToInt(a) - ToInt(b));
    hide ToWord;
    var i, j, n := ToInt(a), ToInt(b), 0x1_0000_0000;
    var k, l := (a - i) / n, (b - j) / n;
    assert a == i + n * k && b == j + n * l;
    assert (a + b) - (i + j) == n * (k + l) && (a - b) - (i - j) == n * (k - l);
    if IsWordOf(w, a + b) {
      SameWord(w, Apply(Add, a, b), a + b, i + j, k + l);
    }
    if IsWordOf(w, a - b) {
      SameWord(w, Apply(Sub, a, b), a - b, i - j, k - l);
    }
  }

  lemma SameWord(w: Word, w': Word, v: int, v': int, k: int)
    requires IsWordOf(w, v) && IsWordOf(w', v') && v - v' == 0x1_0000_0000 * k
    ensures w == w'
  {
  }

  // ----- branches -----

  predicate Compares(k: int, a: int, b: int) {
    || (k == 0 && a == b) || (k == 1 && a != b) || (k == 2 && a < b)
    || (k == 3 && a >= b) || (k == 4 && a > b) || (k == 5 && a <= b)
  }

  lemma ConditionIs(k: nat, a: int, b: int)
    requires k < 6
    ensures Holds(CondOf(k), a, b) <==> Compares(k, a, b)
  {
  }

  lemma BranchOp(p: Program, m: Machine, op: int, offset: int)
    requires ProgramOk(p) && 153 <= op <= 164 && IsAt(p, m, op)
    requires IsSigned16(Operand(p, m, 1), Operand(p, m, 2), offset)
    ensures var to := Current(m).pc + offset;
            RefOp(p, Current(m).pc) == if op < 159 then If(CondOf(op - 153), to) else IfCmp(CondOf(op - 159), to)
    ensures Current(m) == Last(m) && NextPc(p, m) == Current(m).pc + 3
  {
    hide ProgramOk;
    hide RefOp;
    hide Step;
    hide Exec;
    hide CondOf;
    Plain(p, m, op);
    SignedOperands(Operand(p, m, 1), Operand(p, m, 2));
    hide Operand;
    hide Signed16;
    hide IsSigned16;
  }

  /** ifeq, ifne, iflt, ifge, ifgt, ifle: signed comparison with zero, and a signed 16-bit offset. */
  lemma BranchOnZero(p: Program, m: Machine, op: int, s: seq<Word>, a: Word, v: int, offset: int)
    requires ProgramOk(p) && 153 <= op <= 158 && IsAt(p, m, op) && Current(m).stack == s + [a] && IsInt(a, v)
    requires IsSigned16(Operand(p, m, 1), Operand(p, m, 2), offset)
    ensures var pc := Current(m).pc;
            Step(p, Running(m)) == Goes(m, if Compares(op - 153, v, 0) then pc + offset else pc + 3, s)
  {
    hide ProgramOk;
    hide Step;
    hide Exec;
    var pc := Current(m).pc;
    BranchOp(p, m, op, offset);
    hide RefOp;
    hide IsSigned16;
    IntOf(a);
    hide ToInt;
    hide IsInt;
    ConditionIs(op - 153, v, 0);
    hide Compares;
    hide Holds;
    hide CondOf;
    StackInstruction(p, m, op, [], |s|, if Compares(op - 153, v, 0) then pc + offset else pc + 3);
    assert s + [] == s == (s + [a])[..|s|];
  }

  /** if_icmpeq to if_icmple: signed comparison of two ints. */
  lemma BranchOnCompare(p: Program, m: Machine, op: int, s: seq<Word>, a: Word, b: Word, v: int, u: int, offset: int)
    requires ProgramOk(p) && 159 <= op <= 164 && IsAt(p, m, op) && Current(m).stack == s + [a, b]
    requires IsInt(a, v) && IsInt(b, u) && IsSigned16(Operand(p, m, 1), Operand(p, m, 2), offset)
    ensures var pc := Current(m).pc;
            Step(p, Running(m)) == Goes(m, if Compares(op - 159, v, u) then pc + offset else pc + 3, s)
  {
    hide ProgramOk;
    hide Step;
    hide Exec;
    var pc := Current(m).pc;
    BranchOp(p, m, op, offset);
    hide RefOp;
    hide IsSigned16;
    IntOf(a);
    IntOf(b);
    hide ToInt;
    hide IsInt;
    ConditionIs(op - 159, v, u);
    hide Compares;
    hide Holds;
    hide CondOf;
    StackInstruction(p, m, op, [], |s|, if Compares(op - 159, v, u) then pc + offset else pc + 3);
    assert s + [] == s == (s + [a, b])[..|s|];
  }

  lemma GoTo(p: Program, m: Machine, offset: int)
    requires ProgramOk(p) && IsAt(p, m, 167) && IsSigned16(Operand(p, m, 1), Operand(p, m, 2), offset)
    ensures Step(p, Running(m)) == Goes(m, Current(m).pc + offset, Current(m).stack)
  {
    hide ProgramOk;
    hide RefOp;
    hide Step;
    hide Exec;
    var s := Current(m).stack;
    Plain(p, m, 167);
    SignedOperands(Operand(p, m, 1), Operand(p, m, 2));
    hide Operand;
    hide Signed16;
    hide IsSigned16;
    StackInstruction(p, m, 167, [], |s|, Current(m).pc + offset);
    assert s[..|s|] + [] == s;
  }

  // ----- fields -----

  /** The 16-bit index in the two bytes after the opcode. */
  function Index(p: Program, m: Machine): nat
    requires m.frames != []
  {
    256 * Operand(p, m, 1) + Operand(p, m, 2)
  }

  /** The instruction names field f, of one word, which class a declares. */
  ghost predicate NamesField(p: Program, m: Machine, a: nat, f: nat)
    requires ProgramOk(p) && m.frames != []
  {
    var e := PoolAt(p, m, Index(p, m));
    && e.CpField? && e.cls.Some? && e.cls.value < |p.h.classes|
    && IsFoundField(p.h, e.cls.value, a, e.name, e.desc, f)
    && (e.desc == "" || e.desc[0] !in {'J', 'D'})
  }

  lemma FieldIsNamed(p: Program, m: Machine, op: int, a: nat, f: nat)
    requires ProgramOk(p) && 178 <= op <= 181 && IsAt(p, m, op) && NamesField(p, m, a, f)
    ensures var pc := Current(m).pc;
            && f < |p.h.fields| && f < |p.l.fields| && Current(m) == Last(m) && NextPc(p, m) == pc + 3
            && Step(p, Running(m)) == FieldStep(p, m, RefOp(p, pc))
            && (op == 178 ==> RefOp(p, pc) == GetStatic(f)) && (op == 179 ==> RefOp(p, pc) == PutStatic(f))
            && (op == 180 ==> RefOp(p, pc) == GetField(p.l.fields[f].offset))
            && (op == 181 ==> RefOp(p, pc) == PutField(p.l.fields[f].offset))
  {
    hide ProgramOk;
    hide RefOp;
    hide Step;
    hide FieldStep;
    hide LookupField;
    hide ResolveField;
    hide NamesField;
    FieldDecoded(p, m, op);
    ResolvesField(p, m, op, a, f);
  }

  lemma FieldDecoded(p: Program, m: Machine, op: int)
    requires ProgramOk(p) && 178 <= op <= 181 && IsAt(p, m, op)
    ensures var f, i := Current(m), Index(p, m);
            && f == Last(m) && f.pc in p.sites && NextPc(p, m) == f.pc + 3
            && Step(p, Running(m)) == Exec(p, m, RefOp(p, f.pc))
            && (PoolAt(p, m, i).CpField? ==>
                  RefOp(p, f.pc) == FieldOp(p, op, ResolveField(p, SiteClass(p, f.pc), i)))
  {
    hide ProgramOk;
    hide PoolAt;
    hide ResolveField;
    hide FieldOp;
    hide InvokeOp;
    hide PlainOp;
    hide Exec;
    OwnClass(p, m, op);
    Decoded(p, m, op);
  }

  lemma ResolvesField(p: Program, m: Machine, op: int, a: nat, f: nat)
    requires ProgramOk(p) && 178 <= op <= 181 && IsAt(p, m, op) && NamesField(p, m, a, f)
    ensures Current(m).pc in p.sites && PoolAt(p, m, Index(p, m)).CpField? && f < |p.h.fields| && f < |p.l.fields|
    ensures ResolveField(p, SiteClass(p, Current(m).pc), Index(p, m)) == Some(f) && Width(p.h.fields[f]) == 1
  {
    OwnClass(p, m, op);
    var e := PoolAt(p, m, Index(p, m));
    FoundFieldIsLookup(p.h, e.cls.value, a, e.name, e.desc, f);
    hide PoolAt;
    hide Index;
    hide LookupField;
  }

  lemma Statics(p: Program, m: Machine, op: int, a: nat, f: nat, s: seq<Word>, w: Word)
    requires ProgramOk(p) && (op == 178 || op == 179) && IsAt(p, m, op) && NamesField(p, m, a, f)
    ensures op == 178 && f in m.statics ==>
              Step(p, Running(m)) == Goes(m, Current(m).pc + 3, Current(m).stack + [m.statics[f]])
    ensures op == 179 && f in m.statics && Current(m).stack == s + [w] ==>
              Step(p, Running(m)) == Goes(m.(statics := m.statics[f := w]), Current(m).pc + 3, s)
  {
    FieldIsNamed(p, m, op, a, f);
    hide ProgramOk;
    hide NamesField;
    hide RefOp;
    hide Step;
    assert (s + [w])[..|s|] == s;
  }

  /** getfield: the word at the field's offset in the object under the top of the stack. */
  lemma GetFieldReads(p: Program, m: Machine, a: nat, f: nat, s: seq<Word>, ob: Word)
    requires ProgramOk(p) && IsAt(p, m, 180) && NamesField(p, m, a, f) && Current(m).stack == s + [ob]
    ensures f < |p.l.fields|
    ensures ob == 0 ==> Step(p, Running(m)) == RaiseIn(p, m, p.nullPointer)
    ensures ob != 0 && ob in m.heap && p.l.fields[f].offset < |m.heap[ob].data| ==>
              Step(p, Running(m)) == Goes(m, Current(m).pc + 3, s + [m.heap[ob].data[p.l.fields[f].offset]])
  {
    FieldIsNamed(p, m, 180, a, f);
    hide ProgramOk;
    hide NamesField;
    hide RefOp;
    hide Step;
    hide RaiseIn;
    assert (s + [ob])[..|s|] == s;
  }

  lemma PutFieldWrites(p: Program, m: Machine, a: nat, f: nat, s: seq<Word>, ob: Word, w: Word)
    requires ProgramOk(p) && IsAt(p, m, 181) && NamesField(p, m, a, f) && Current(m).stack == s + [ob, w]
    ensures f < |p.l.fields|
    ensures ob == 0 ==> Step(p, Running(m)) == RaiseIn(p, m, p.nullPointer)
    ensures ob != 0 && ob in m.heap && p.l.fields[f].offset < |m.heap[ob].data| ==>
              var o := m.heap[ob];
              Step(p, Running(m)) == Goes(m.(heap := m.heap[ob := o.(data := o.data[p.l.fields[f].offset := w])]),
                                          Current(m).pc + 3, s)
  {
    FieldIsNamed(p, m, 181, a, f);
    hide ProgramOk;
    hide NamesField;
    hide RefOp;
    hide Step;
    hide RaiseIn;
    assert (s + [ob, w])[..|s|] == s;
  }

  lemma RaisesWhat(p: Program, m: Machine, exc: Word)
    requires ProgramOk(p) && m.frames != []
    ensures Exec(p, m, Raise(exc)) == RaiseIn(p, m, exc)
  {
    hide ProgramOk;
    hide RaiseIn;
  }

  /** A field that does not resolve. */
  lemma UnresolvedField(p: Program, m: Machine, op: int)
    requires ProgramOk(p) && 178 <= op <= 181 && IsAt(p, m, op) && PoolAt(p, m, Index(p, m)).CpField?
    requires var e := PoolAt(p, m, Index(p, m));
             e.cls.Some? ==> e.cls.value < |p.h.classes| && forall b: nat, f: nat |
               b < |p.h.classes| && IsAncestor(p.h, b, e.cls.value) :: !DeclaresField(p.h, b, e.name, e.desc, f)
    ensures Step(p, Running(m)) == RaiseIn(p, m, p.linkError)
  {
    hide RaiseIn;
    hide LookupField;
    hide Exec;
    FieldDecoded(p, m, op);
    hide RefOp;
    OwnClass(p, m, op);
    var e := PoolAt(p, m, Index(p, m));
    if e.cls.Some? {
      var a := LookupFieldIsNearest(p.h, e.cls.value, e.name, e.desc);
    }
    assert ResolveField(p, SiteClass(p, Current(m).pc), Index(p, m)) == None;
    RaisesWhat(p, m, p.linkError);
  }

  // ----- which method an invoke instruction runs -----

  /** The instruction names method n: the nearest declaration, from the class in the pool entry upwards. */
  ghost predicate NamesMethod(p: Program, m: Machine, op: int, n: nat)
    requires ProgramOk(p) && m.frames != []
  {
    var e := PoolAt(p, m, Index(p, m));
    && (if op == 185 then e.CpInterfaceMethod? else e.CpMethod?) && e.cls.Some? && e.cls.value < |p.h.classes|
    && IsFound(p.h, e.cls.value, e.name, e.desc, n)
  }

  /** Below n - 1 words on the operand stack is a reference to an object of class d. */
  predicate HasReceiver(p: Program, m: Machine, n: nat, d: nat)
    requires m.frames != []
  {
    && 0 < n <= |Current(m).stack| && d < |p.h.classes|
    && var ob := Current(m).stack[|Current(m).stack| - n];
       ob != 0 && ob in m.heap && m.heap[ob].cls == d
  }

  predicate HasNullReceiver(m: Machine, n: nat)
    requires m.frames != []
  {
    0 < n <= |Current(m).stack| && Current(m).stack[|Current(m).stack| - n] == 0
  }

  function Args(p: Program, n: nat): nat {
    if n < |p.l.methods| then p.l.methods[n].argsCount else 0
  }

  /** The class whose method runs has ACC_SUPER, and n, neither private nor `<...>`, is a superclass's. */
  predicate CallsSuper(p: Program, m: Machine, n: nat)
    requires ProgramOk(p) && m.frames != [] && n < |p.h.methods|
  {
    && Current(m).m < |p.l.methods| && n < |p.l.methods|
    && var c, d := p.l.methods[Current(m).m].owner, p.h.methods[n];
       && c < |p.h.classes| && p.h.classes[c].isSuper && !d.isPrivate && (d.name == "" || d.name[0] != '<')
       && p.l.methods[n].owner < |p.h.classes| && p.l.methods[n].owner != c && IsAncestor(p.h, p.l.methods[n].owner, c)
  }

  lemma InvokeDecoded(p: Program, m: Machine, op: int)
    requires ProgramOk(p) && 182 <= op <= 185 && IsAt(p, m, op)
    ensures var f, i, e := Current(m), Index(p, m), PoolAt(p, m, Index(p, m));
            && f == Last(m) && f.pc in p.sites && Step(p, Running(m)) == Exec(p, m, RefOp(p, f.pc))
            && ((if op == 185 then e.CpInterfaceMethod? else e.CpMethod?) ==>
                  RefOp(p, f.pc) == InvokeOp(p, op, SiteClass(p, f.pc), i))
  {
    hide ProgramOk;
    hide RefOp;
    hide PoolAt;
    hide Exec;
    hide Step;
    hide InvokeOp;
    OwnClass(p, m, op);
    Decoded(p, m, op);
    InvokeRefOp(p, Current(m).pc);
    hide Operand;
    hide SiteClass;
  }

  lemma InvokeRefOp(p: Program, pc: int)
    requires ProgramOk(p) && pc in p.sites && 182 <= At(p.orig, pc) <= 185
    ensures var op, c, i := At(p.orig, pc), SiteClass(p, pc), Operand16(p.orig, pc);
            IsMethodEntry(op, Entry(p, c, i)) ==> RefOp(p, pc) == InvokeOp(p, op, c, i)
  {
    hide ProgramOk;
    hide Entry;
    hide SiteClass;
    hide ResolveField;
    hide FieldOp;
    hide InvokeOp;
    hide PlainOp;
    hide Operand16;
  }

  lemma ResolvesMethod(p: Program, m: Machine, op: int, n: nat)
    requires ProgramOk(p) && 182 <= op <= 185 && IsAt(p, m, op) && NamesMethod(p, m, op, n)
    ensures Current(m).pc in p.sites && n < |p.h.methods| && n < |p.l.methods|
    ensures var c, i := SiteClass(p, Current(m).pc), Index(p, m);
            (if op == 185 then ResolveInterfaceMethod(p, c, i) else ResolveMethod(p, c, i)) == Some(n)
  {
    OwnClass(p, m, op);
    var e := PoolAt(p, m, Index(p, m));
    FoundIsLookup(p.h, e.cls.value, e.name, e.desc, n);
    hide PoolAt;
    hide Index;
    hide Lookup;
  }

  /** A method that does not resolve. */
  lemma UnresolvedMethod(p: Program, m: Machine, op: int)
    requires ProgramOk(p) && 182 <= op <= 185 && IsAt(p, m, op)
    requires var e := PoolAt(p, m, Index(p, m));
             && (if op == 185 then e.CpInterfaceMethod? else e.CpMethod?)
             && (e.cls.Some? ==> e.cls.value < |p.h.classes| && forall b: nat |
                   b < |p.h.classes| && IsAncestor(p.h, b, e.cls.value) :: !Declares(p.h, b, e.name, e.desc))
    ensures Step(p, Running(m)) == RaiseIn(p, m, p.linkError)
  {
    hide RaiseIn;
    hide Exec;
    hide Lookup;
    InvokeDecoded(p, m, op);
    hide RefOp;
    OwnClass(p, m, op);
    var e := PoolAt(p, m, Index(p, m));
    if e.cls.Some? {
      var d := e.cls.value;
      LookupIsNearest(p.h, d, e.name, e.desc);
    }
    RaisesWhat(p, m, p.linkError);
  }

  /** How each instruction selects, in the reference machine's terms. */
  function SelectorOf(p: Program, m: Machine, op: int, n: nat): Selector
    requires ProgramOk(p) && m.frames != [] && n < |p.h.methods|
  {
    if op == 182 then if p.h.methods[n].isPrivate then Special(n) else Named(n)
    else if op == 185 then InterfaceNamed(n)
    else if op == 184 then Static(n)
    else if CallsSuper(p, m, n) then SuperNamed(n) else Special(n)
  }

  lemma SelectorIs(p: Program, m: Machine, op: int, n: nat)
    requires ProgramOk(p) && 182 <= op <= 185 && IsAt(p, m, op) && NamesMethod(p, m, op, n)
    ensures Current(m).pc in p.sites && n < |p.h.methods| && n < |p.l.methods|
    ensures InvokeOp(p, op, SiteClass(p, Current(m).pc), Index(p, m)) ==
            if p.h.methods[n].isStatic != (op == 184) then Raise(p.changeError) else Invoke(SelectorOf(p, m, op, n))
  {
    ResolvesMethod(p, m, op, n);
    OwnClass(p, m, op);
    CallsSuperIs(p, m, n);
    hide NamesMethod;
    hide ResolveMethod;
    hide ResolveInterfaceMethod;
    hide CallsSuper;
    hide IsSuperCall;
    hide FromSuperclass;
    hide ProgramOk;
    hide PoolAt;
    hide Index;
  }

  lemma InvokeNamed(p: Program, m: Machine, op: int, n: nat)
    requires ProgramOk(p) && 182 <= op <= 185 && IsAt(p, m, op) && NamesMethod(p, m, op, n)
    ensures Current(m) == Last(m) && n < |p.h.methods| && n < |p.l.methods| && Args(p, n) == ArgsOf(p, n)
    ensures Step(p, Running(m)) ==
            if p.h.methods[n].isStatic != (op == 184) then RaiseIn(p, m, p.changeError)
            else InvokeStep(p, m, SelectorOf(p, m, op, n))
  {
    hide ProgramOk;
    hide RaiseIn;
    hide InvokeStep;
    hide InvokeOp;
    hide SelectorOf;
    hide RefOp;
    hide Step;
    InvokeDecoded(p, m, op);
    SelectorIs(p, m, op, n);
    RaisesWhat(p, m, p.changeError);
    SizesAgree(p);
    hide NamesMethod;
  }

  lemma SizesAgree(p: Program)
    requires ProgramOk(p)
    ensures |p.l.methods| == |p.h.methods| && |p.l.classes| == |p.h.classes| && |p.bodies| == |p.h.methods|
  {
  }

  /** The selections, given what the searches find. */
  lemma Selections(p: Program, m: Machine, n: nat, d: nat, r: nat)
    requires ProgramOk(p) && m.frames != [] && n < |p.h.methods| && n < |p.l.methods|
    ensures p.h.methods[n].isStatic ==> Select(p, m, Static(n)) == Callee(n, Args(p, n))
    ensures !p.h.methods[n].isStatic && HasNullReceiver(m, Args(p, n)) ==>
              Select(p, m, Special(n)).NullReceiver? && Select(p, m, Named(n)).NullReceiver?
              && Select(p, m, InterfaceNamed(n)).NullReceiver?
    ensures !p.h.methods[n].isStatic && HasReceiver(p, m, Args(p, n), d) ==>
              && Select(p, m, Special(n)) == Callee(n, Args(p, n))
              && var found := Lookup(p.h, d, p.h.methods[n].name, p.h.methods[n].desc);
                 Select(p, m, InterfaceNamed(n)) == if found.Some? then Callee(found.value, Args(p, n)) else NoCallee
    ensures HasReceiver(p, m, Args(p, n), d) && Eligible(p.h.methods[n]) && p.l.methods[n].owner < |p.h.classes|
            && IsAncestor(p.h, p.l.methods[n].owner, d)
            && Lookup(p.h, d, p.h.methods[n].name, p.h.methods[n].desc) == Some(r) ==>
              Select(p, m, Named(n)) == Callee(r, Args(p, n))
  {
    hide ProgramOk;
    hide Lookup;
    hide IsAncestor;
    hide Superclass;
  }

  lemma SuperSelection(p: Program, m: Machine, n: nat, d: nat, s: nat, r: nat)
    requires ProgramOk(p) && m.frames != [] && n < |p.h.methods| && n < |p.l.methods| && Eligible(p.h.methods[n])
    requires s < |p.h.classes| && Superclass(p, m) == Some(s)
    requires Lookup(p.h, s, p.h.methods[n].name, p.h.methods[n].desc) == Some(r)
    ensures HasReceiver(p, m, Args(p, n), d) ==> Select(p, m, SuperNamed(n)) == Callee(r, Args(p, n))
    ensures HasNullReceiver(m, Args(p, n)) ==> Select(p, m, SuperNamed(n)).NullReceiver?
  {
    hide ProgramOk;
    hide Lookup;
    hide Superclass;
  }

  /** What an invoke does with its selection. */
  lemma SelectedIsEntered(p: Program, m: Machine, sel: Selector)
    requires ProgramOk(p) && m.frames != []
    ensures match Select(p, m, sel)
            case Callee(r, nargs) => InvokeStep(p, m, sel) == Enter(p, m, r, nargs)
            case NullReceiver => InvokeStep(p, m, sel) == RaiseIn(p, m, p.nullPointer)
            case NoCallee => InvokeStep(p, m, sel) == Stuck
  {
    hide ProgramOk;
    hide Select;
    hide Enter;
    hide RaiseIn;
  }

  lemma CallsSuperIs(p: Program, m: Machine, n: nat)
    requires ProgramOk(p) && m.frames != [] && n < |p.h.methods| && Current(m).m < |p.l.methods|
    requires p.l.methods[Current(m).m].owner < |p.h.classes|
    ensures var c := p.l.methods[Current(m).m].owner;
            CallsSuper(p, m, n) <==> IsSuperCall(p, c, n) && FromSuperclass(p, c, n)
  {
    var c := p.l.methods[Current(m).m].owner;
    assert WellFormedClass(p.h, c);
    if p.h.classes[c].super.Some? && IsAncestor(p.h, c, p.h.classes[c].super.value) {
      AncestorBound(p.h, c, p.h.classes[c].super.value);
    }
  }

  lemma SearchFinds(p: Program, d: nat, name: string, desc: string, r: nat)
    requires ProgramOk(p) && d < |p.h.classes|
    ensures IsFound(p.h, d, name, desc, r) ==> Lookup(p.h, d, name, desc) == Some(r)
    ensures Lookup(p.h, d, name, desc).None? ==>
              forall a: nat | a < |p.h.classes| && IsAncestor(p.h, a, d) :: !Declares(p.h, a, name, desc)
  {
    LookupIsNearest(p.h, d, name, desc);
    if IsFound(p.h, d, name, desc, r) {
      FoundIsLookup(p.h, d, name, desc, r);
    }
    hide Lookup;
    hide IsFound;
  }

  lemma OwnSuper(p: Program, m: Machine, s: nat)
    requires ProgramOk(p) && m.frames != [] && Current(m).m < |p.l.methods|
    requires p.l.methods[Current(m).m].owner < |p.h.classes|
    requires p.h.classes[p.l.methods[Current(m).m].owner].super == Some(s)
    ensures Superclass(p, m) == Some(s)
  {
    SizesAgree(p);
  }

  /** A static method called as an instance method, or the other way round. */
  lemma WrongKind(p: Program, m: Machine, op: int, n: nat)
    requires ProgramOk(p) && 182 <= op <= 185 && IsAt(p, m, op) && NamesMethod(p, m, op, n)
    requires n < |p.h.methods| && p.h.methods[n].isStatic != (op == 184)
    ensures Step(p, Running(m)) == RaiseIn(p, m, p.changeError)
  {
    hide *;
    InvokeNamed(p, m, op, n);
  }

  /** invokestatic runs the method it names. */
  lemma InvokeStatic(p: Program, m: Machine, n: nat)
    requires ProgramOk(p) && IsAt(p, m, 184) && NamesMethod(p, m, 184, n)
    requires n < |p.h.methods| && p.h.methods[n].isStatic
    ensures Step(p, Running(m)) == Enter(p, m, n, Args(p, n))
  {
    hide ProgramOk;
    hide Step;
    hide Enter;
    hide Select;
    hide NamesMethod;
    InvokeNamed(p, m, 184, n);
    Selections(p, m, n, 0, n);
    SelectedIsEntered(p, m, Static(n));
  }

  /** invokespecial, but for calls of a superclass's method, and invokevirtual of a private method run
      the method they name. */
  lemma InvokeItself(p: Program, m: Machine, op: int, n: nat, d: nat)
    requires ProgramOk(p) && (op == 182 || op == 183) && IsAt(p, m, op) && NamesMethod(p, m, op, n)
    requires n < |p.h.methods| && !p.h.methods[n].isStatic
    requires if op == 182 then p.h.methods[n].isPrivate else !CallsSuper(p, m, n)
    ensures HasReceiver(p, m, Args(p, n), d) ==> Step(p, Running(m)) == Enter(p, m, n, Args(p, n))
    ensures HasNullReceiver(m, Args(p, n)) ==> Step(p, Running(m)) == RaiseIn(p, m, p.nullPointer)
  {
    hide ProgramOk;
    hide Step;
    hide Enter;
    hide Select;
    hide NamesMethod;
    hide CallsSuper;
    hide RaiseIn;
    hide HasReceiver;
    hide HasNullReceiver;
    InvokeNamed(p, m, op, n);
    Selections(p, m, n, d, n);
    SelectedIsEntered(p, m, Special(n));
  }

  /** invokeinterface runs the nearest method with the same name and type, from the receiver's class
      upwards. It fails only if there is none. */
  lemma InvokeInterface(p: Program, m: Machine, n: nat, d: nat, r: nat)
    requires ProgramOk(p) && IsAt(p, m, 185) && NamesMethod(p, m, 185, n)
    requires n < |p.h.methods| && !p.h.methods[n].isStatic
    ensures HasReceiver(p, m, Args(p, n), d) && IsFound(p.h, d, p.h.methods[n].name, p.h.methods[n].desc, r) ==>
              Step(p, Running(m)) == Enter(p, m, r, Args(p, n))
    ensures HasNullReceiver(m, Args(p, n)) ==> Step(p, Running(m)) == RaiseIn(p, m, p.nullPointer)
    ensures HasReceiver(p, m, Args(p, n), d) && Select(p, m, InterfaceNamed(n)).NoCallee? ==>
              forall a: nat | a < |p.h.classes| && IsAncestor(p.h, a, d) ::
                !Declares(p.h, a, p.h.methods[n].name, p.h.methods[n].desc)
  {
    hide ProgramOk;
    hide Step;
    hide Enter;
    hide Select;
    hide NamesMethod;
    hide RaiseIn;
    hide HasNullReceiver;
    hide Lookup;
    hide IsFound;
    InvokeNamed(p, m, 185, n);
    if d < |p.h.classes| {
      SearchFinds(p, d, p.h.methods[n].name, p.h.methods[n].desc, r);
    }
    Selections(p, m, n, d, r);
    SelectedIsEntered(p, m, InterfaceNamed(n));
  }

  /** invokevirtual of a method that is not private: the same, for receivers of the method's class and
      its subclasses. */
  lemma InvokeVirtual(p: Program, m: Machine, n: nat, d: nat, r: nat)
    requires ProgramOk(p) && IsAt(p, m, 182) && NamesMethod(p, m, 182, n) && n < |p.h.methods| && n < |p.l.methods|
    requires !p.h.methods[n].isStatic && !p.h.methods[n].isPrivate
    requires p.h.methods[n].name == "" || p.h.methods[n].name[0] != '<'
    ensures HasReceiver(p, m, Args(p, n), d) && p.l.methods[n].owner < |p.h.classes|
            && IsAncestor(p.h, p.l.methods[n].owner, d)
            && IsFound(p.h, d, p.h.methods[n].name, p.h.methods[n].desc, r) ==>
              Step(p, Running(m)) == Enter(p, m, r, Args(p, n))
    ensures HasNullReceiver(m, Args(p, n)) ==> Step(p, Running(m)) == RaiseIn(p, m, p.nullPointer)
  {
    hide ProgramOk;
    hide Step;
    hide Enter;
    hide Select;
    hide NamesMethod;
    hide RaiseIn;
    hide HasNullReceiver;
    hide Lookup;
    hide IsFound;
    hide IsAncestor;
    InvokeNamed(p, m, 182, n);
    if d < |p.h.classes| {
      SearchFinds(p, d, p.h.methods[n].name, p.h.methods[n].desc, r);
    }
    Selections(p, m, n, d, r);
    SelectedIsEntered(p, m, Named(n));
  }

  /** invokespecial of a superclass's method runs the nearest one from the superclass upwards. */
  lemma InvokeSuper(p: Program, m: Machine, n: nat, d: nat, s: nat, r: nat)
    requires ProgramOk(p) && IsAt(p, m, 183) && NamesMethod(p, m, 183, n) && n < |p.h.methods|
    requires !p.h.methods[n].isStatic && CallsSuper(p, m, n) && s < |p.h.classes|
    requires p.h.classes[p.l.methods[Current(m).m].owner].super == Some(s)
    requires IsFound(p.h, s, p.h.methods[n].name, p.h.methods[n].desc, r)
    ensures HasReceiver(p, m, Args(p, n), d) ==> Step(p, Running(m)) == Enter(p, m, r, Args(p, n))
    ensures HasNullReceiver(m, Args(p, n)) ==> Step(p, Running(m)) == RaiseIn(p, m, p.nullPointer)
  {
    hide ProgramOk;
    hide Step;
    hide Enter;
    hide Select;
    hide NamesMethod;
    hide RaiseIn;
    hide HasReceiver;
    hide HasNullReceiver;
    hide Lookup;
    hide IsFound;
    hide IsAncestor;
    InvokeNamed(p, m, 183, n);
    SearchFinds(p, s, p.h.methods[n].name, p.h.methods[n].desc, r);
    OwnSuper(p, m, s);
    SuperSelection(p, m, n, d, s, r);
    SelectedIsEntered(p, m, SuperNamed(n));
  }
}
