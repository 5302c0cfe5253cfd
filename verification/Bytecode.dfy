/**
 Programs, instructions and the reference interpreter.

 The reference interpreter is what interp.c computes when nothing is ever cached: it works on the
 bytecode as loaded, resolves every operand again each time it runs an instruction, selects
 methods by name, and keeps each method's locals and operand stack apart (sections 2.6, 2.10 and
 6.5 of the JVMS). `Stuck` stands for what C leaves undefined: a popped empty stack, a reference
 to no object, a jump into the middle of an instruction.
 */
module Bytecode {
  import opened Common
  import opened Hierarchy
  import opened Linking
  import opened Dispatch

  type byte = b: int | 0 <= b < 256

  /** A stack word (u4). References are words too; zero is null. */
  type Word = int
  const WORD_RANGE: int := 0x1_0000_0000

  function ToWord(i: int): Word { i % WORD_RANGE }

  function ToInt(w: Word): int {
    var u := ToWord(w);
    if u < 0x8000_0000 then u else u - WORD_RANGE
  }

  function SignedByte(b: byte): int { if b < 128 then b else b - 256 }

  function Index16(hi: byte, lo: byte): nat { hi * 256 + lo }

  function Signed16(hi: byte, lo: byte): int { SignedByte(hi) * 256 + lo }

  // ----- opcodes (jam.h) -----

  const OPC_NOP: byte := 0
  const OPC_ACONST_NULL: byte := 1
  const OPC_ICONST_M1: byte := 2
  const OPC_ICONST_0: byte := 3
  const OPC_ICONST_5: byte := 8
  const OPC_BIPUSH: byte := 16
  const OPC_SIPUSH: byte := 17
  const OPC_LDC: byte := 18
  const OPC_LDC_W: byte := 19
  const OPC_ILOAD: byte := 21
  const OPC_ALOAD: byte := 25
  const OPC_ILOAD_0: byte := 26
  const OPC_ILOAD_3: byte := 29
  const OPC_ALOAD_0: byte := 42
  const OPC_ALOAD_3: byte := 45
  const OPC_ISTORE: byte := 54
  const OPC_ASTORE: byte := 58
  const OPC_ISTORE_0: byte := 59
  const OPC_ISTORE_3: byte := 62
  const OPC_ASTORE_0: byte := 75
  const OPC_ASTORE_3: byte := 78
  const OPC_POP: byte := 87
  const OPC_DUP: byte := 89
  const OPC_SWAP: byte := 95
  const OPC_IADD: byte := 96
  const OPC_ISUB: byte := 100
  const OPC_IINC: byte := 132
  const OPC_IFEQ: byte := 153
  const OPC_IFLE: byte := 158
  const OPC_IF_ICMPEQ: byte := 159
  const OPC_IF_ICMPLE: byte := 164
  const OPC_GOTO: byte := 167
  const OPC_IRETURN: byte := 172
  const OPC_ARETURN: byte := 176
  const OPC_RETURN: byte := 177
  const OPC_GETSTATIC: byte := 178
  const OPC_PUTSTATIC: byte := 179
  const OPC_GETFIELD: byte := 180
  const OPC_PUTFIELD: byte := 181
  const OPC_INVOKEVIRTUAL: byte := 182
  const OPC_INVOKESPECIAL: byte := 183
  const OPC_INVOKESTATIC: byte := 184
  const OPC_INVOKEINTERFACE: byte := 185
  const OPC_ATHROW: byte := 191
  const OPC_LDC_QUICK: byte := 203
  const OPC_LDC_W_QUICK: byte := 204
  const OPC_GETFIELD_QUICK: byte := 206
  const OPC_PUTFIELD_QUICK: byte := 207
  const OPC_GETSTATIC_QUICK: byte := 210
  const OPC_PUTSTATIC_QUICK: byte := 211
  const OPC_INVOKEVIRTUAL_QUICK: byte := 214
  const OPC_INVOKENONVIRTUAL_QUICK: byte := 215
  const OPC_INVOKESUPER_QUICK: byte := 216
  const OPC_INVOKEVIRTUAL_QUICK_W: byte := 226
  const OPC_GETFIELD_QUICK_W: byte := 227
  const OPC_PUTFIELD_QUICK_W: byte := 228
  const OPC_GETFIELD_THIS: byte := 229
  const OPC_LOCK: byte := 230
  const OPC_ALOAD_THIS: byte := 231
  const OPC_INVOKESTATIC_QUICK: byte := 232

  function Length(op: byte): nat {
    if op in {OPC_BIPUSH, OPC_LDC, OPC_ILOAD, OPC_ALOAD, OPC_ISTORE, OPC_ASTORE} then 2
    else if op in {OPC_SIPUSH, OPC_LDC_W, OPC_IINC, OPC_GOTO} then 3
    else if OPC_IFEQ <= op <= OPC_IF_ICMPLE then 3
    else if OPC_GETSTATIC <= op <= OPC_INVOKESTATIC then 3
    else if op == OPC_INVOKEINTERFACE then 5
    else 1
  }

  // ----- programs -----

  /** A constant-pool entry together with what resolveClass finds for the class it names. */
  datatype CpEntry =
    | CpWord(w: Word)
    | CpString(interned: Word)
    | CpField(cls: Option<nat>, name: string, desc: string)
    | CpMethod(cls: Option<nat>, name: string, desc: string)
    | CpInterfaceMethod(cls: Option<nat>, name: string, desc: string)
    | CpOther

  /** catch_type: zero, a class that cannot be resolved, or a class. */
  datatype CatchType = Finally | Unresolvable | Class(cls: nat)

  datatype Handler = Handler(startPc: nat, endPc: nat, handlerPc: nat, catchType: CatchType)

  datatype Body = Body(entry: int, handlers: seq<Handler>)

  datatype NativeResult = NativeVoid | NativeValue(w: Word) | NativeThrow(exc: Word)

  /** `orig` is the code of all methods as loaded; `sites` maps the address of every instruction
      to its method. The exceptions the VM raises itself are given as objects. */
  datatype Program = Program(
    h: Decls, l: Links,
    orig: seq<byte>, sites: map<int, nat>, bodies: seq<Body>,
    pools: seq<seq<CpEntry>>, mirrors: seq<Word>,
    native: (nat, seq<Word>) -> NativeResult,
    linkError: Word, changeError: Word, nullPointer: Word, stackOverflow: Word)

  predicate Apart(p: Program, s: int, t: int) {
    s < t ==> s + Length(At(p.orig, s)) <= t
  }

  /** The bytes of the instruction at s belong to it alone. */
  ghost predicate SiteWellFormed(p: Program, s: int)
    requires Sized(p.h, p.l) && s in p.sites
  {
    && 0 <= s && s + Length(At(p.orig, s)) <= |p.orig|
    && p.sites[s] < |p.h.methods|
    && p.l.methods[p.sites[s]].owner < |p.h.classes|
    && At(p.orig, s) < OPC_LDC_QUICK
    && (forall t {:trigger Apart(p, s, t)} | t in p.sites :: Apart(p, s, t))
    // control does not fall off the end of a method
    && (At(p.orig, s) == OPC_ALOAD_0 ==> s + 1 in p.sites && p.sites[s + 1] == p.sites[s])
    // an instance method does not assign to its local 0
    && (WritesLocal(p.orig, s) == Some(0) ==> p.h.methods[p.sites[s]].isStatic)
  }

  /** The local variable that the instruction at s assigns. */
  function WritesLocal(code: seq<byte>, s: int): Option<nat> {
    var op := At(code, s);
    if op == OPC_ISTORE || op == OPC_ASTORE || op == OPC_IINC then Some(At(code, s + 1))
    else if OPC_ISTORE_0 <= op <= OPC_ISTORE_3 then Some(op - OPC_ISTORE_0)
    else if OPC_ASTORE_0 <= op <= OPC_ASTORE_3 then Some(op - OPC_ASTORE_0)
    else None
  }

  ghost predicate ProgramOk(p: Program) {
    && WellFormed(p.h) && DistinctSignatures(p.h) && Sized(p.h, p.l)
    && |p.bodies| == |p.h.methods| && |p.pools| == |p.h.classes| && |p.mirrors| == |p.h.classes|
    && (forall c: nat {:trigger ClassOk(p, c)} | c < |p.h.classes| :: ClassOk(p, c))
    && (forall s {:trigger SiteWellFormed(p, s)} | s in p.sites :: SiteWellFormed(p, s))
    && (forall c: nat, i: nat {:trigger EntryOk(p, Entry(p, c, i))} :: EntryOk(p, Entry(p, c, i)))
  }

  ghost predicate ClassOk(p: Program, c: nat)
    requires WellFormed(p.h) && Sized(p.h, p.l) && c < |p.h.classes|
  {
    LinkedClass(p.h, p.l, c) && CoherentClass(p.h, c)
  }

  predicate EntryOk(p: Program, e: CpEntry) {
    (e.CpField? || e.CpMethod? || e.CpInterfaceMethod?) && e.cls.Some? ==> e.cls.value < |p.h.classes|
  }

  function At(code: seq<byte>, i: int): byte {
    if 0 <= i < |code| then code[i] else 0
  }

  /** CP_DINDEX */
  function Operand16(code: seq<byte>, s: int): nat {
    Index16(At(code, s + 1), At(code, s + 2))
  }

  lemma ProgramIsLinked(p: Program)
    requires ProgramOk(p)
    ensures Consistent(p.h, p.l)
    ensures forall c: nat | c < |p.h.classes| :: p.l.classes[c].linked && CoherentChain(p.h, c)
  {
    forall c: nat | c < |p.h.classes|
      ensures p.l.classes[c].linked && LinkedClass(p.h, p.l, c) && CoherentClass(p.h, c)
      ensures SuperLink(p.h, p.l, c).linked
    {
      assert ClassOk(p, c) && WellFormedClass(p.h, c);
      if p.h.classes[c].super.Some? {
        assert ClassOk(p, p.h.classes[c].super.value);
      }
    }
  }

  // ----- resolution -----

  function Entry(p: Program, c: nat, i: nat): CpEntry {
    if c < |p.pools| && i < |p.pools[c]| then p.pools[c][i] else CpOther
  }

  function ResolveField(p: Program, c: nat, i: nat): (r: Option<nat>)
    requires ProgramOk(p)
    ensures r.Some? ==> r.value < |p.h.fields|
  {
    var e := Entry(p, c, i);
    assert EntryOk(p, e);
    if e.CpField? && e.cls.Some? then LookupField(p.h, e.cls.value, e.name, e.desc) else None
  }

  function ResolveMethod(p: Program, c: nat, i: nat): (r: Option<nat>)
    requires ProgramOk(p)
    ensures r.Some? ==> r.value < |p.h.methods|
  {
    var e := Entry(p, c, i);
    assert EntryOk(p, e);
    if e.CpMethod? && e.cls.Some? then Lookup(p.h, e.cls.value, e.name, e.desc) else None
  }

  function ResolveInterfaceMethod(p: Program, c: nat, i: nat): (r: Option<nat>)
    requires ProgramOk(p)
    ensures r.Some? ==> r.value < |p.h.methods|
  {
    var e := Entry(p, c, i);
    assert EntryOk(p, e);
    if e.CpInterfaceMethod? && e.cls.Some? then Lookup(p.h, e.cls.value, e.name, e.desc) else None
  }

  // ----- operations -----

  datatype Arith = Add | Sub
  datatype Cond = Eq | Ne | Lt | Ge | Gt | Le

  function Apply(f: Arith, a: Word, b: Word): Word {
    match f
    case Add => ToWord(ToInt(a) + ToInt(b))
    case Sub => ToWord(ToInt(a) - ToInt(b))
  }

  predicate Holds(c: Cond, a: int, b: int) {
    match c
    case Eq => a == b
    case Ne => a != b
    case Lt => a < b
    case Ge => a >= b
    case Gt => a > b
    case Le => a <= b
  }

  function CondOf(k: nat): Cond {
    [Eq, Ne, Lt, Ge, Gt, Le][if k < 6 then k else 0]
  }

  /** How an invoke instruction finds the method to run. */
  datatype Selector =
    | Named(m: nat)               // invokevirtual, by the name and descriptor of m
    | InterfaceNamed(m: nat)      // invokeinterface, likewise
    | Slot(k: nat, nargs: nat)    // method-table index of the receiver's class
    | SuperNamed(m: nat)          // invokespecial of a superclass method, by name
    | SuperSlot(k: nat)           // method-table index of the superclass
    | Special(m: nat)
    | Static(m: nat)

  datatype Op =
    | Nop | Push(w: Word) | Load(i: nat) | Store(i: nat) | Inc(i: nat, d: int)
    | Pop | Dup | Swap | Binary(arith: Arith)
    | If(c: Cond, target: int) | IfCmp(c: Cond, target: int) | Goto(target: int)
    | GetField(offset: nat) | PutField(offset: nat) | GetFieldThis(offset: nat)
    | GetStatic(field: nat) | PutStatic(field: nat)
    | Invoke(sel: Selector) | Return(hasValue: bool)
    | Throw | Raise(exc: Word) | Undefined

  /** The instructions that are never rewritten. */
  function PlainOp(b0: byte, b1: byte, b2: byte, pc: int): Op {
    if b0 == OPC_NOP then Nop
    else if b0 == OPC_ACONST_NULL then Push(0)
    else if OPC_ICONST_M1 <= b0 <= OPC_ICONST_5 then Push(ToWord(b0 - OPC_ICONST_0))
    else if b0 == OPC_BIPUSH then Push(ToWord(SignedByte(b1)))
    else if b0 == OPC_SIPUSH then Push(ToWord(Signed16(b1, b2)))
    else if b0 == OPC_ILOAD || b0 == OPC_ALOAD then Load(b1)
    else if OPC_ILOAD_0 <= b0 <= OPC_ILOAD_3 then Load(b0 - OPC_ILOAD_0)
    else if OPC_ALOAD_0 < b0 <= OPC_ALOAD_3 then Load(b0 - OPC_ALOAD_0)
    else if b0 == OPC_ISTORE || b0 == OPC_ASTORE then Store(b1)
    else if OPC_ISTORE_0 <= b0 <= OPC_ISTORE_3 then Store(b0 - OPC_ISTORE_0)
    else if OPC_ASTORE_0 <= b0 <= OPC_ASTORE_3 then Store(b0 - OPC_ASTORE_0)
    else if b0 == OPC_POP then Pop
    else if b0 == OPC_DUP then Dup
    else if b0 == OPC_SWAP then Swap
    else if b0 == OPC_IADD then Binary(Add)
    else if b0 == OPC_ISUB then Binary(Sub)
    else if b0 == OPC_IINC then Inc(b1, SignedByte(b2))
    else if OPC_IFEQ <= b0 <= OPC_IFLE then If(CondOf(b0 - OPC_IFEQ), pc + Signed16(b1, b2))
    else if OPC_IF_ICMPEQ <= b0 <= OPC_IF_ICMPLE then
      IfCmp(CondOf(b0 - OPC_IF_ICMPEQ), pc + Signed16(b1, b2))
    else if b0 == OPC_GOTO then Goto(pc + Signed16(b1, b2))
    else if b0 == OPC_IRETURN || b0 == OPC_ARETURN then Return(true)
    else if b0 == OPC_RETURN then Return(false)
    else if b0 == OPC_ATHROW then Throw
    else Undefined
  }

  // ----- decoding without caches -----

  function ConstantOp(e: CpEntry): Op {
    match e
    case CpWord(w) => Push(w)
    case CpString(w) => Push(w)
    case _ => Undefined
  }

  /** Fields of type long and double are left out (see the README). */
  function FieldOp(p: Program, op: byte, f: Option<nat>): Op
    requires ProgramOk(p) && (f.Some? ==> f.value < |p.h.fields|)
  {
    if f.None? then Raise(p.linkError)
    else if Width(p.h.fields[f.value]) == 2 then Undefined
    else if op == OPC_GETSTATIC then GetStatic(f.value)
    else if op == OPC_PUTSTATIC then PutStatic(f.value)
    else if op == OPC_GETFIELD then GetField(p.l.fields[f.value].offset)
    else PutField(p.l.fields[f.value].offset)
  }

  /** The test of OPC_INVOKESPECIAL for a call of a superclass method (interp.c:1237). */
  predicate IsSuperCall(p: Program, c: nat, m: nat)
    requires c < |p.h.classes| && m < |p.h.methods|
  {
    var d := p.h.methods[m];
    p.h.classes[c].isSuper && !d.isPrivate && !(|d.name| > 0 && d.name[0] == '<')
  }

  /** Method m belongs to a superclass of class c. Section 6.5 of the JVMS asks for this too; C does not. */
  predicate FromSuperclass(p: Program, c: nat, m: nat)
    requires ProgramOk(p) && c < |p.h.classes| && m < |p.h.methods|
  {
    assert WellFormedClass(p.h, c);
    && p.h.classes[c].super.Some? && p.l.methods[m].owner < |p.h.classes|
    && IsAncestor(p.h, p.l.methods[m].owner, p.h.classes[c].super.value)
  }

  function InvokeOp(p: Program, op: byte, c: nat, i: nat): Op
    requires ProgramOk(p) && c < |p.h.classes|
  {
    var m := if op == OPC_INVOKEINTERFACE then ResolveInterfaceMethod(p, c, i) else ResolveMethod(p, c, i);
    if m.None? then Raise(p.linkError)
    // an IncompatibleClassChangeError, which C does not raise
    else if p.h.methods[m.value].isStatic != (op == OPC_INVOKESTATIC) then Raise(p.changeError)
    // a private method is not overridden: the call runs the method itself
    else if op == OPC_INVOKEVIRTUAL && p.h.methods[m.value].isPrivate then Invoke(Special(m.value))
    else if op == OPC_INVOKEVIRTUAL then Invoke(Named(m.value))
    else if op == OPC_INVOKEINTERFACE then Invoke(InterfaceNamed(m.value))
    else if op == OPC_INVOKESTATIC then Invoke(Static(m.value))
    else if IsSuperCall(p, c, m.value) && FromSuperclass(p, c, m.value) then Invoke(SuperNamed(m.value))
    else Invoke(Special(m.value))
  }

  predicate IsMethodEntry(op: byte, e: CpEntry) {
    if op == OPC_INVOKEINTERFACE then e.CpInterfaceMethod? else e.CpMethod?
  }

  predicate IsFieldOpcode(op: byte) { OPC_GETSTATIC <= op <= OPC_PUTFIELD }
  predicate IsInvokeOpcode(op: byte) { OPC_INVOKEVIRTUAL <= op <= OPC_INVOKEINTERFACE }

  function SiteClass(p: Program, pc: int): (c: nat)
    requires ProgramOk(p) && pc in p.sites
    ensures c < |p.h.classes|
  {
    assert SiteWellFormed(p, pc);
    p.l.methods[p.sites[pc]].owner
  }

  predicate StaticSite(p: Program, pc: int)
    requires ProgramOk(p) && pc in p.sites
  {
    assert SiteWellFormed(p, pc);
    p.h.methods[p.sites[pc]].isStatic
  }

  /** What the instruction at pc does, by the code as loaded. */
  function RefOp(p: Program, pc: int): Op
    requires ProgramOk(p) && pc in p.sites
  {
    var op, c, i := At(p.orig, pc), SiteClass(p, pc), Operand16(p.orig, pc);
    if op == OPC_ALOAD_0 then Load(0)
    else if op == OPC_LDC then ConstantOp(Entry(p, c, At(p.orig, pc + 1)))
    else if op == OPC_LDC_W then ConstantOp(Entry(p, c, i))
    else if IsFieldOpcode(op) then
      if Entry(p, c, i).CpField? then FieldOp(p, op, ResolveField(p, c, i)) else Undefined
    else if IsInvokeOpcode(op) then
      if IsMethodEntry(op, Entry(p, c, i)) then InvokeOp(p, op, c, i) else Undefined
    else PlainOp(op, At(p.orig, pc + 1), At(p.orig, pc + 2), pc)
  }
}
