/**
 The self-rewriting interpreter.

 interp.c resolves the operand of an instruction once and then overwrites the instruction in
 place with a "quick" form: the opcode alone, or also one or both operand bytes. `Fetch` is one
 dispatch of that interpreter; it either only rewrites (C then dispatches on the new opcode) or
 yields an operation. The module proves that it computes what the reference machine computes.
 */
module Quickening {
  import opened Common
  import opened Hierarchy
  import opened Linking
  import opened Dispatch
  import opened Bytecode
  import opened Reference

  /** CP_INFO of the entries that hold a value: constants, and references once resolved. */
  type CpInfo = map<(nat, nat), int>

  datatype Fetched = Fetched(code: seq<byte>, info: CpInfo, op: Option<Op>)

  function Put(code: seq<byte>, i: int, b: byte): seq<byte> {
    if 0 <= i < |code| then code[i := b] else code
  }

  // ----- one dispatch -----

  function FetchConstant(p: Program, code: seq<byte>, info: CpInfo, pc: int, i: nat, quick: byte): Fetched
    requires ProgramOk(p) && pc in p.sites
  {
    var c := SiteClass(p, pc);
    match Entry(p, c, i)
    case CpWord(w) => Fetched(Put(code, pc, quick), info, Some(Push(w)))
    case CpString(w) => Fetched(Put(code, pc, quick), info[(c, i) := w], Some(Push(w)))
    case _ => Fetched(code, info, Some(Undefined))
  }

  function ConstantAt(info: CpInfo, c: nat, i: nat): Op {
    if (c, i) in info then Push(info[(c, i)]) else Undefined
  }

  /** resolveField and resolveMethod: the cached value if there is one. */
  function Cached(info: CpInfo, c: nat, i: nat, resolved: Option<nat>): Option<nat> {
    if (c, i) in info && info[(c, i)] >= 0 then Some(info[(c, i)]) else resolved
  }

  function QuickStatic(op: byte): byte {
    if op == OPC_GETSTATIC then OPC_GETSTATIC_QUICK else OPC_PUTSTATIC_QUICK
  }

  function QuickField(op: byte): byte {
    if op == OPC_GETFIELD then OPC_GETFIELD_QUICK else OPC_PUTFIELD_QUICK
  }

  function QuickFieldW(op: byte): byte {
    if op == OPC_GETFIELD then OPC_GETFIELD_QUICK_W else OPC_PUTFIELD_QUICK_W
  }

  /** The bytes once a field instruction is resolved. */
  function FieldRewrite(code: seq<byte>, pc: int, op: byte, offset: nat): seq<byte> {
    if op == OPC_GETSTATIC || op == OPC_PUTSTATIC then Put(code, pc, QuickStatic(op))
    else if offset > 255 then Put(code, pc, QuickFieldW(op))
    else Put(Put(code, pc, QuickField(op)), pc + 1, offset)
  }

  function FetchField(p: Program, code: seq<byte>, info: CpInfo, pc: int, op: byte): Fetched
    requires ProgramOk(p) && pc in p.sites
  {
    var c, i := SiteClass(p, pc), Operand16(code, pc);
    var f := Cached(info, c, i, ResolveField(p, c, i));
    if !Entry(p, c, i).CpField? then Fetched(code, info, Some(Undefined))
    else if f.None? then Fetched(code, info, Some(Raise(p.linkError)))
    else if f.value >= |p.h.fields| || Width(p.h.fields[f.value]) == 2 then
      Fetched(code, info, Some(Undefined))
    else
      var info' := info[(c, i) := f.value];
      Fetched(FieldRewrite(code, pc, op, p.l.fields[f.value].offset), info', None)
  }

  function FieldAt(p: Program, info: CpInfo, c: nat, i: nat, op: byte): Op
    requires ProgramOk(p)
  {
    if (c, i) in info && 0 <= info[(c, i)] < |p.h.fields| then
      FieldOp(p, op, Some(info[(c, i)]))
    else Undefined
  }

  /** The bytes once an invoke instruction is resolved. */
  function InvokeRewrite(code: seq<byte>, pc: int, op: byte, index: nat, nargs: nat, isSuper: bool): seq<byte> {
    if op == OPC_INVOKEVIRTUAL then
      if nargs < 256 && index < 256 then
        Put(Put(Put(code, pc, OPC_INVOKEVIRTUAL_QUICK), pc + 1, index), pc + 2, nargs)
      else Put(code, pc, OPC_INVOKEVIRTUAL_QUICK_W)
    else if op == OPC_INVOKESTATIC then Put(code, pc, OPC_INVOKESTATIC_QUICK)
    else if isSuper then
      // the bytes keep the low 16 bits of the index
      Put(Put(Put(code, pc, OPC_INVOKESUPER_QUICK), pc + 1, HighByte(index)), pc + 2, index % 256)
    else Put(code, pc, OPC_INVOKENONVIRTUAL_QUICK)
  }

  function FetchInvoke(p: Program, code: seq<byte>, info: CpInfo, pc: int, op: byte): Fetched
    requires ProgramOk(p) && pc in p.sites
  {
    var c, i := SiteClass(p, pc), Operand16(code, pc);
    var m := Cached(info, c, i,
      if op == OPC_INVOKEINTERFACE then ResolveInterfaceMethod(p, c, i) else ResolveMethod(p, c, i));
    if !IsMethodEntry(op, Entry(p, c, i)) then Fetched(code, info, Some(Undefined))
    else if m.None? then Fetched(code, info, Some(Raise(p.linkError)))
    else if m.value >= |p.h.methods| then Fetched(code, info, Some(Undefined))
    else
      var info' := info[(c, i) := m.value];
      var index, nargs := p.l.methods[m.value].tableIndex, p.l.methods[m.value].argsCount;
      if op == OPC_INVOKEINTERFACE then Fetched(code, info', Some(Invoke(InterfaceNamed(m.value))))
      else Fetched(InvokeRewrite(code, pc, op, index, nargs, IsSuperCall(p, c, m.value)), info', None)
  }

  function HighByte(i: nat): byte { (i / 256) % 256 }

  function MethodAt(p: Program, info: CpInfo, c: nat, i: nat): Option<nat> {
    if (c, i) in info && 0 <= info[(c, i)] < |p.h.methods| then Some(info[(c, i)]) else None
  }

  function InvokeAt(p: Program, code: seq<byte>, info: CpInfo, pc: int, op: byte): Op
    requires ProgramOk(p) && pc in p.sites
  {
    var i := Operand16(code, pc);
    var m := MethodAt(p, info, SiteClass(p, pc), i);
    if op == OPC_INVOKEVIRTUAL_QUICK then Invoke(Slot(At(code, pc + 1), At(code, pc + 2)))
    else if op == OPC_INVOKESUPER_QUICK then Invoke(SuperSlot(i))
    else if m.None? then Undefined
    else if op == OPC_INVOKEVIRTUAL_QUICK_W then
      Invoke(Slot(p.l.methods[m.value].tableIndex, p.l.methods[m.value].argsCount))
    else if op == OPC_INVOKESTATIC_QUICK then Invoke(Static(m.value))
    else Invoke(Special(m.value))
  }

  predicate IsQuickInvoke(op: byte) {
    op in {OPC_INVOKEVIRTUAL_QUICK, OPC_INVOKENONVIRTUAL_QUICK, OPC_INVOKESUPER_QUICK,
           OPC_INVOKEVIRTUAL_QUICK_W, OPC_INVOKESTATIC_QUICK}
  }

  /** The instruction at pc as the bytes now are. */
  function Fetch(p: Program, code: seq<byte>, info: CpInfo, pc: int): Fetched
    requires ProgramOk(p) && pc in p.sites
  {
    var op, b1, b2, c := At(code, pc), At(code, pc + 1), At(code, pc + 2), SiteClass(p, pc);
    var i := Operand16(code, pc);
    if op == OPC_LDC then FetchConstant(p, code, info, pc, b1, OPC_LDC_QUICK)
    else if op == OPC_LDC_W then FetchConstant(p, code, info, pc, i, OPC_LDC_W_QUICK)
    else if op == OPC_LDC_QUICK then Fetched(code, info, Some(ConstantAt(info, c, b1)))
    else if op == OPC_LDC_W_QUICK then Fetched(code, info, Some(ConstantAt(info, c, i)))
    else if op == OPC_ALOAD_0 then
      Fetched(Put(code, pc, if StaticSite(p, pc) then OPC_ILOAD_0 else OPC_ALOAD_THIS), info, None)
    else if op == OPC_ALOAD_THIS then
      if b1 == OPC_GETFIELD_QUICK then Fetched(Put(code, pc, OPC_GETFIELD_THIS), info, None)
      else Fetched(code, info, Some(Load(0)))
    else if op == OPC_GETFIELD_THIS then Fetched(code, info, Some(GetFieldThis(b2)))
    else if IsFieldOpcode(op) then FetchField(p, code, info, pc, op)
    else if op == OPC_GETSTATIC_QUICK then Fetched(code, info, Some(FieldAt(p, info, c, i, OPC_GETSTATIC)))
    else if op == OPC_PUTSTATIC_QUICK then Fetched(code, info, Some(FieldAt(p, info, c, i, OPC_PUTSTATIC)))
    else if op == OPC_GETFIELD_QUICK then Fetched(code, info, Some(GetField(b1)))
    else if op == OPC_PUTFIELD_QUICK then Fetched(code, info, Some(PutField(b1)))
    else if op == OPC_GETFIELD_QUICK_W then Fetched(code, info, Some(FieldAt(p, info, c, i, OPC_GETFIELD)))
    else if op == OPC_PUTFIELD_QUICK_W then Fetched(code, info, Some(FieldAt(p, info, c, i, OPC_PUTFIELD)))
    else if IsInvokeOpcode(op) then FetchInvoke(p, code, info, pc, op)
    else if IsQuickInvoke(op) then Fetched(code, info, Some(InvokeAt(p, code, info, pc, op)))
    else Fetched(code, info, Some(PlainOp(op, b1, b2, pc)))
  }

  // ----- the forms an instruction can have -----

  function PoolValue(p: Program, c: nat, i: nat): Option<int>
    requires ProgramOk(p)
  {
    match Entry(p, c, i)
    case CpWord(w) => Some(w)
    case CpString(w) => Some(w)
    case CpField(_, _, _) => (var r := ResolveField(p, c, i); if r.Some? then Some(r.value as int) else None)
    case CpMethod(_, _, _) => (var r := ResolveMethod(p, c, i); if r.Some? then Some(r.value as int) else None)
    case CpInterfaceMethod(_, _, _) =>
      (var r := ResolveInterfaceMethod(p, c, i); if r.Some? then Some(r.value as int) else None)
    case CpOther => None
  }

  /** A resolved entry holds the one value resolution can give it; a constant always does. */
  ghost predicate InfoOk(p: Program, info: CpInfo)
    requires ProgramOk(p)
  {
    && (forall k | k in info :: PoolValue(p, k.0, k.1) == Some(info[k]))
    && (forall c: nat, i: nat | Entry(p, c, i).CpWord? :: (c, i) in info)
  }

  predicate SameOperands(p: Program, code: seq<byte>, s: int) {
    forall k {:trigger At(code, k)} | s < k < s + Length(At(p.orig, s)) :: At(code, k) == At(p.orig, k)
  }

  predicate IsConstant(e: CpEntry) { e.CpWord? || e.CpString? }

  predicate Known(info: CpInfo, c: nat, i: nat) { (c, i) in info }

  /** The quick forms of the instruction at s, by its opcode as loaded. */
  ghost predicate ConstantForm(p: Program, code: seq<byte>, info: CpInfo, s: int)
    requires ProgramOk(p) && s in p.sites
  {
    var o, b, c := At(p.orig, s), At(code, s), SiteClass(p, s);
    var i := if o == OPC_LDC then At(p.orig, s + 1) as nat else Operand16(p.orig, s);
    && SameOperands(p, code, s) && Known(info, c, i) && IsConstant(Entry(p, c, i))
    && ((o == OPC_LDC && b == OPC_LDC_QUICK) || (o == OPC_LDC_W && b == OPC_LDC_W_QUICK))
  }

  ghost predicate LoadForm(p: Program, code: seq<byte>, s: int)
    requires ProgramOk(p) && s in p.sites
  {
    && At(p.orig, s) == OPC_ALOAD_0
    && if StaticSite(p, s) then At(code, s) == OPC_ILOAD_0
       else || At(code, s) == OPC_ALOAD_THIS
            || (At(code, s) == OPC_GETFIELD_THIS && At(code, s + 1) == OPC_GETFIELD_QUICK)
  }

  ghost predicate FieldForm(p: Program, code: seq<byte>, info: CpInfo, s: int)
    requires ProgramOk(p) && s in p.sites
  {
    var o, b, c, i := At(p.orig, s), At(code, s), SiteClass(p, s), Operand16(p.orig, s);
    var f := ResolveField(p, c, i);
    && IsFieldOpcode(o) && Entry(p, c, i).CpField? && f.Some? && Width(p.h.fields[f.value]) == 1
    && if o == OPC_GETSTATIC || o == OPC_PUTSTATIC then
         b == QuickStatic(o) && SameOperands(p, code, s) && Known(info, c, i)
       else
         || (b == QuickFieldW(o) && SameOperands(p, code, s) && Known(info, c, i))
         || (b == QuickField(o) && At(code, s + 1) == p.l.fields[f.value].offset)
  }

  ghost predicate InvokeForm(p: Program, code: seq<byte>, info: CpInfo, s: int)
    requires ProgramOk(p) && s in p.sites
  {
    var o, b, c, i := At(p.orig, s), At(code, s), SiteClass(p, s), Operand16(p.orig, s);
    var m := ResolveMethod(p, c, i);
    && Entry(p, c, i).CpMethod? && m.Some?
    && var index, nargs := p.l.methods[m.value].tableIndex, p.l.methods[m.value].argsCount;
       || (o == OPC_INVOKEVIRTUAL && b == OPC_INVOKEVIRTUAL_QUICK
           && At(code, s + 1) == index && At(code, s + 2) == nargs)
       || (o == OPC_INVOKESPECIAL && b == OPC_INVOKESUPER_QUICK && IsSuperCall(p, c, m.value)
           && At(code, s + 1) == HighByte(index) && At(code, s + 2) == index % 256)
       || (&& SameOperands(p, code, s) && Known(info, c, i)
           && (|| (o == OPC_INVOKEVIRTUAL && b == OPC_INVOKEVIRTUAL_QUICK_W)
               || (o == OPC_INVOKESPECIAL && b == OPC_INVOKENONVIRTUAL_QUICK && !IsSuperCall(p, c, m.value))
               || (o == OPC_INVOKESTATIC && b == OPC_INVOKESTATIC_QUICK)))
  }

  /** The bytes of instruction s are the loaded ones or one of its quick forms. */
  ghost predicate SiteOk(p: Program, code: seq<byte>, info: CpInfo, s: int)
    requires ProgramOk(p) && s in p.sites
  {
    || (At(code, s) == At(p.orig, s) && SameOperands(p, code, s))
    || ConstantForm(p, code, info, s)
    || LoadForm(p, code, s)
    || FieldForm(p, code, info, s)
    || InvokeForm(p, code, info, s)
  }

  ghost predicate CodeOk(p: Program, code: seq<byte>, info: CpInfo)
    requires ProgramOk(p)
  {
    |code| == |p.orig| && InfoOk(p, info) && forall s | s in p.sites :: SiteOk(p, code, info, s)
  }

  /** How many times C can dispatch on an instruction again before it runs it. */
  function Rank(op: byte): nat {
    if op == OPC_ALOAD_0 then 2
    else if op == OPC_ALOAD_THIS || (OPC_GETSTATIC <= op <= OPC_INVOKESTATIC) then 1
    else 0
  }

  lemma LinkSizes(p: Program)
    requires ProgramOk(p)
    ensures |p.l.fields| == |p.h.fields| && |p.l.methods| == |p.h.methods| == |p.bodies|
  {
  }

  /** A table index survives the two operand bytes of invokesuper_quick. */
  predicate TableIndexFits(p: Program, m: nat) {
    m < |p.l.methods| && p.l.methods[m].tableIndex < 0x1_0000
  }

  function SiteMethod(p: Program, s: int): (m: Option<nat>)
    requires ProgramOk(p) && s in p.sites
    ensures m.Some? ==> m.value < |p.h.methods|
  {
    var c, i := SiteClass(p, s), Operand16(p.orig, s);
    if At(p.orig, s) == OPC_INVOKEINTERFACE then ResolveInterfaceMethod(p, c, i) else ResolveMethod(p, c, i)
  }

  /** invokestatic, and no other instruction, names a static method. */
  predicate KindSiteOk(p: Program, s: int)
    requires ProgramOk(p) && s in p.sites
  {
    var m := SiteMethod(p, s);
    IsInvokeOpcode(At(p.orig, s)) && m.Some? ==> p.h.methods[m.value].isStatic == (At(p.orig, s) == OPC_INVOKESTATIC)
  }

  /** invokevirtual names no private method. */
  predicate VirtualSiteOk(p: Program, s: int)
    requires ProgramOk(p) && s in p.sites
  {
    var m := SiteMethod(p, s);
    At(p.orig, s) == OPC_INVOKEVIRTUAL && m.Some? ==> !p.h.methods[m.value].isPrivate
  }

  /** What C takes for a call of a superclass method at s is one, and the operand bytes can hold the index. */
  predicate SuperSiteOk(p: Program, s: int)
    requires ProgramOk(p) && s in p.sites
  {
    var c, m := SiteClass(p, s), SiteMethod(p, s);
    At(p.orig, s) == OPC_INVOKESPECIAL && m.Some? && IsSuperCall(p, c, m.value) ==>
      FromSuperclass(p, c, m.value) && TableIndexFits(p, m.value)
  }

  predicate InvokeSiteOk(p: Program, s: int)
    requires ProgramOk(p) && s in p.sites
  {
    KindSiteOk(p, s) && VirtualSiteOk(p, s) && SuperSiteOk(p, s)
  }

  /** What the quick forms take for granted. */
  ghost predicate QuickSafe(p: Program)
    requires ProgramOk(p)
  {
    forall s | s in p.sites :: InvokeSiteOk(p, s)
  }

  /** The operation op, fetched at pc, stands for the reference operation there. */
  ghost predicate Matches(p: Program, pc: int, op: Op)
    requires ProgramOk(p) && pc in p.sites
  {
    var r := RefOp(p, pc);
    || op == r
    || (r.Invoke? && r.sel.Named? && r.sel.m < |p.h.methods|
        && op == Invoke(Slot(p.l.methods[r.sel.m].tableIndex, p.l.methods[r.sel.m].argsCount)))
    || (r.Invoke? && r.sel.SuperNamed? && r.sel.m < |p.h.methods|
        && op == Invoke(SuperSlot(p.l.methods[r.sel.m].tableIndex)))
    || (op.GetFieldThis? && At(p.orig, pc) == OPC_ALOAD_0 && pc + 1 in p.sites
        && p.sites[pc + 1] == p.sites[pc] && At(p.orig, pc + 1) == OPC_GETFIELD
        && !StaticSite(p, pc) && RefOp(p, pc + 1) == GetField(op.offset))
  }

  // ----- one dispatch keeps the forms and means what the reference says -----

  ghost predicate FetchOk(p: Program, code: seq<byte>, info: CpInfo, pc: int, r: Fetched)
    requires ProgramOk(p) && pc in p.sites
  {
    && CodeOk(p, r.code, r.info)
    && (r.op.None? ==> Rank(At(r.code, pc)) < Rank(At(code, pc)))
    && (r.op.Some? ==> Matches(p, pc, r.op.value))
  }

  /** The form of an instruction depends on its own bytes and on the opcode after an aload_0. */
  lemma FormDepends(p: Program, code: seq<byte>, info: CpInfo, s: int, code': seq<byte>, info': CpInfo)
    requires ProgramOk(p) && s in p.sites && SiteOk(p, code, info, s)
    requires forall k {:trigger At(code', k)} | s <= k < s + Length(At(p.orig, s)) :: At(code', k) == At(code, k)
    requires At(code, s) == OPC_GETFIELD_THIS ==> At(code', s + 1) == At(code, s + 1)
    requires forall k | k in info :: k in info'
    ensures SiteOk(p, code', info', s)
  {
    assert At(code', s) == At(code, s);
    assert Length(At(p.orig, s)) >= 3 ==> At(code', s + 1) == At(code, s + 1) && At(code', s + 2) == At(code, s + 2);
    assert SameOperands(p, code, s) ==> SameOperands(p, code', s);
  }

  /** Rewriting one instruction that is not getfield_quick leaves all others in form. */
  lemma OthersKept(p: Program, code: seq<byte>, info: CpInfo, pc: int, code': seq<byte>, info': CpInfo)
    requires ProgramOk(p) && pc in p.sites && CodeOk(p, code, info) && InfoOk(p, info') && |code'| == |code|
    requires At(code, pc) != OPC_GETFIELD_QUICK
    requires forall k {:trigger At(code', k)} | !(pc <= k < pc + Length(At(p.orig, pc))) :: At(code', k) == At(code, k)
    requires forall k | k in info :: k in info'
    requires SiteOk(p, code', info', pc)
    ensures CodeOk(p, code', info')
  {
    hide ProgramOk;
    hide SiteOk;
    hide InfoOk;
    forall s | s in p.sites ensures SiteOk(p, code', info', s) {
      if s != pc {
        OtherBytes(p, code, info, pc, s);
        FormDepends(p, code, info, s, code', info');
      }
    }
  }

  /** Another instruction has no byte in common with the one at pc, and none that its form depends on
      if the opcode there is not getfield_quick. */
  lemma OtherBytes(p: Program, code: seq<byte>, info: CpInfo, pc: int, s: int)
    requires ProgramOk(p) && pc in p.sites && s in p.sites && s != pc && SiteOk(p, code, info, s)
    ensures s + Length(At(p.orig, s)) <= pc || pc + Length(At(p.orig, pc)) <= s
    ensures At(code, s) == OPC_GETFIELD_THIS && At(code, pc) != OPC_GETFIELD_QUICK ==>
      !(pc <= s + 1 < pc + Length(At(p.orig, pc)))
  {
    assert SiteWellFormed(p, s) && SiteWellFormed(p, pc) && Apart(p, s, pc) && Apart(p, pc, s);
    if At(code, s) == OPC_GETFIELD_THIS {
      assert At(p.orig, s) < OPC_LDC_QUICK && LoadForm(p, code, s);
    }
    hide ProgramOk;
    hide ConstantForm;
    hide FieldForm;
    hide InvokeForm;
    hide Length;
  }

  lemma OriginalOperand(p: Program, code: seq<byte>, pc: int)
    requires Length(At(p.orig, pc)) >= 3 && SameOperands(p, code, pc)
    ensures Operand16(code, pc) == Operand16(p.orig, pc)
  {
    assert At(code, pc + 1) == At(p.orig, pc + 1) && At(code, pc + 2) == At(p.orig, pc + 2);
  }

  lemma InfoValue(p: Program, info: CpInfo, c: nat, i: nat)
    requires ProgramOk(p) && InfoOk(p, info) && Known(info, c, i)
    ensures PoolValue(p, c, i) == Some(info[(c, i)])
  {
  }

  lemma OkInfo(p: Program, code: seq<byte>, info: CpInfo)
    requires ProgramOk(p) && CodeOk(p, code, info)
    ensures InfoOk(p, info)
  {
  }

  /** The one-byte rewrites: the opcode changes, the operands stay. */
  lemma PutOpcode(p: Program, code: seq<byte>, info: CpInfo, pc: int, quick: byte, info': CpInfo)
    requires ProgramOk(p) && pc in p.sites && CodeOk(p, code, info)
    ensures 0 <= pc < |code|
    ensures At(Put(code, pc, quick), pc) == quick
    ensures forall k {:trigger At(Put(code, pc, quick), k)} | k != pc :: At(Put(code, pc, quick), k) == At(code, k)
    ensures SameOperands(p, code, pc) ==> SameOperands(p, Put(code, pc, quick), pc)
  {
    assert SiteWellFormed(p, pc);
  }

  lemma SlowConstantOk(p: Program, code: seq<byte>, info: CpInfo, pc: int, i: nat, quick: byte)
    requires ProgramOk(p) && pc in p.sites && CodeOk(p, code, info)
    requires At(code, pc) == At(p.orig, pc) && SameOperands(p, code, pc)
    requires || (At(p.orig, pc) == OPC_LDC && i == At(p.orig, pc + 1) as nat && quick == OPC_LDC_QUICK)
             || (At(p.orig, pc) == OPC_LDC_W && i == Operand16(p.orig, pc) && quick == OPC_LDC_W_QUICK)
    ensures FetchOk(p, code, info, pc, FetchConstant(p, code, info, pc, i, quick))
  {
    var r, c := FetchConstant(p, code, info, pc, i, quick), SiteClass(p, pc);
    if IsConstant(Entry(p, c, i)) {
      PutOpcode(p, code, info, pc, quick, r.info);
      assert Known(r.info, c, i);
      assert ConstantForm(p, r.code, r.info, pc);
      OthersKept(p, code, info, pc, r.code, r.info);
    }
  }

  /** Where the quick forms of ldc and ldc_w can stand. */
  lemma ConstantCases(p: Program, code: seq<byte>, info: CpInfo, pc: int)
    requires ProgramOk(p) && pc in p.sites && CodeOk(p, code, info)
    requires At(code, pc) in {OPC_LDC, OPC_LDC_W, OPC_LDC_QUICK, OPC_LDC_W_QUICK}
    ensures var o := At(p.orig, pc);
            && (o == OPC_LDC || o == OPC_LDC_W) && SameOperands(p, code, pc) && At(code, pc + 1) == At(p.orig, pc + 1)
            && (o == OPC_LDC_W ==> Operand16(code, pc) == Operand16(p.orig, pc))
            && (At(code, pc) == o
                || (ConstantForm(p, code, info, pc)
                    && At(code, pc) == if o == OPC_LDC then OPC_LDC_QUICK else OPC_LDC_W_QUICK))
  {
    assert SiteWellFormed(p, pc) && SiteOk(p, code, info, pc);
    hide CodeOk;
    hide ProgramOk;
    hide ResolveField;
    hide ResolveMethod;
    assert SameOperands(p, code, pc);
    assert At(code, pc + 1) == At(p.orig, pc + 1);
    if At(p.orig, pc) == OPC_LDC_W {
      OriginalOperand(p, code, pc);
    }
  }

  lemma FetchConstantOk(p: Program, code: seq<byte>, info: CpInfo, pc: int)
    requires ProgramOk(p) && pc in p.sites && CodeOk(p, code, info)
    requires At(code, pc) in {OPC_LDC, OPC_LDC_W, OPC_LDC_QUICK, OPC_LDC_W_QUICK}
    ensures FetchOk(p, code, info, pc, Fetch(p, code, info, pc))
  {
    hide CodeOk;
    hide ProgramOk;
    hide SameOperands;
    hide FetchConstant;
    ConstantCases(p, code, info, pc);
    OkInfo(p, code, info);
    var o, c := At(p.orig, pc), SiteClass(p, pc);
    var i: nat := if o == OPC_LDC then At(p.orig, pc + 1) as nat else Operand16(p.orig, pc);
    if At(code, pc) == o {
      SlowConstantOk(p, code, info, pc, i, if o == OPC_LDC then OPC_LDC_QUICK else OPC_LDC_W_QUICK);
    } else {
      InfoValue(p, info, c, i);
    }
  }

  /** Where the quick forms of aload_0 can stand. */
  lemma LoadCases(p: Program, code: seq<byte>, info: CpInfo, pc: int)
    requires ProgramOk(p) && pc in p.sites && CodeOk(p, code, info)
    requires At(code, pc) in {OPC_ALOAD_0, OPC_ALOAD_THIS, OPC_GETFIELD_THIS}
    ensures At(p.orig, pc) == OPC_ALOAD_0 && 0 <= pc < |code|
    ensures pc + 1 in p.sites && p.sites[pc + 1] == p.sites[pc]
    ensures At(code, pc) != OPC_ALOAD_0 ==> !StaticSite(p, pc)
    ensures At(code, pc) == OPC_GETFIELD_THIS ==> At(code, pc + 1) == OPC_GETFIELD_QUICK
  {
    assert SiteWellFormed(p, pc) && SiteOk(p, code, info, pc);
    hide CodeOk;
    hide ProgramOk;
    hide ResolveField;
    hide ResolveMethod;
  }

  /** The offset after getfield_quick is that of the reference operation. */
  lemma QuickOffset(p: Program, code: seq<byte>, info: CpInfo, pc: int)
    requires ProgramOk(p) && pc in p.sites && CodeOk(p, code, info) && At(code, pc) == OPC_GETFIELD_QUICK
    ensures At(p.orig, pc) == OPC_GETFIELD && RefOp(p, pc) == GetField(At(code, pc + 1))
  {
    assert SiteOk(p, code, info, pc) && SiteWellFormed(p, pc);
    assert FieldForm(p, code, info, pc);
    hide CodeOk;
    hide ProgramOk;
    hide ResolveMethod;
  }

  lemma FetchLoadOk(p: Program, code: seq<byte>, info: CpInfo, pc: int)
    requires ProgramOk(p) && pc in p.sites && CodeOk(p, code, info)
    requires At(code, pc) in {OPC_ALOAD_0, OPC_ALOAD_THIS, OPC_GETFIELD_THIS}
    ensures FetchOk(p, code, info, pc, Fetch(p, code, info, pc))
  {
    hide CodeOk;
    hide ProgramOk;
    hide FieldAt;
    hide InvokeAt;
    hide FetchConstant;
    hide FetchField;
    hide FetchInvoke;
    LoadCases(p, code, info, pc);
    var r := Fetch(p, code, info, pc);
    if r.op.None? {
      RewriteLoadOk(p, code, info, pc, At(r.code, pc));
    } else if At(code, pc) == OPC_GETFIELD_THIS {
      QuickOffset(p, code, info, pc + 1);
    }
  }

  lemma RewriteLoadOk(p: Program, code: seq<byte>, info: CpInfo, pc: int, quick: byte)
    requires ProgramOk(p) && pc in p.sites && CodeOk(p, code, info) && At(code, pc) != OPC_GETFIELD_QUICK
    requires 0 <= pc < |code| ==> LoadForm(p, Put(code, pc, quick), pc)
    ensures CodeOk(p, Put(code, pc, quick), info)
  {
    PutOpcode(p, code, info, pc, quick, info);
    hide LoadForm;
    hide ConstantForm;
    hide FieldForm;
    hide InvokeForm;
    OthersKept(p, code, info, pc, Put(code, pc, quick), info);
  }

  /** Rewriting the opcode and the byte after it. */
  lemma PutOperand(p: Program, code: seq<byte>, info: CpInfo, pc: int, quick: byte, b1: byte)
    requires ProgramOk(p) && pc in p.sites && CodeOk(p, code, info) && Length(At(p.orig, pc)) >= 3
    ensures 0 <= pc && pc + 3 <= |code|
    ensures var c2 := Put(Put(code, pc, quick), pc + 1, b1);
            && |c2| == |code| && At(c2, pc) == quick && At(c2, pc + 1) == b1
            && forall k {:trigger At(c2, k)} | k != pc && k != pc + 1 :: At(c2, k) == At(code, k)
  {
    assert SiteWellFormed(p, pc);
  }

  lemma PutOperands(p: Program, code: seq<byte>, info: CpInfo, pc: int, quick: byte, b1: byte, b2: byte)
    requires ProgramOk(p) && pc in p.sites && CodeOk(p, code, info) && Length(At(p.orig, pc)) >= 3
    ensures var c3 := Put(Put(Put(code, pc, quick), pc + 1, b1), pc + 2, b2);
            && |c3| == |code| && At(c3, pc) == quick && At(c3, pc + 1) == b1 && At(c3, pc + 2) == b2
            && forall k {:trigger At(c3, k)} | k != pc && k != pc + 1 && k != pc + 2 :: At(c3, k) == At(code, k)
  {
    assert SiteWellFormed(p, pc);
  }

  /** A cached entry holds what resolving it again would give. */
  lemma CachedIsResolved(p: Program, info: CpInfo, c: nat, i: nat)
    requires ProgramOk(p) && InfoOk(p, info)
    ensures Entry(p, c, i).CpField? ==> Cached(info, c, i, ResolveField(p, c, i)) == ResolveField(p, c, i)
    ensures Entry(p, c, i).CpMethod? ==> Cached(info, c, i, ResolveMethod(p, c, i)) == ResolveMethod(p, c, i)
    ensures Entry(p, c, i).CpInterfaceMethod? ==>
              Cached(info, c, i, ResolveInterfaceMethod(p, c, i)) == ResolveInterfaceMethod(p, c, i)
  {
    if Known(info, c, i) {
      InfoValue(p, info, c, i);
    }
  }

  lemma SlowFieldOk(p: Program, code: seq<byte>, info: CpInfo, pc: int)
    requires ProgramOk(p) && pc in p.sites && CodeOk(p, code, info)
    requires IsFieldOpcode(At(code, pc)) && At(code, pc) == At(p.orig, pc) && SameOperands(p, code, pc)
    ensures FetchOk(p, code, info, pc, FetchField(p, code, info, pc, At(code, pc)))
  {
    var op := At(code, pc);
    var r, c, i := FetchField(p, code, info, pc, op), SiteClass(p, pc), Operand16(p.orig, pc);
    OriginalOperand(p, code, pc);
    CachedIsResolved(p, info, c, i);
    var f := ResolveField(p, c, i);
    if r.op.None? {
      assert Known(r.info, c, i) && PoolValue(p, c, i) == Some(f.value);
      var offset := p.l.fields[f.value].offset;
      if op == OPC_GETSTATIC || op == OPC_PUTSTATIC || offset > 255 {
        PutOpcode(p, code, info, pc, At(r.code, pc), r.info);
      } else {
        PutOperand(p, code, info, pc, QuickField(op), offset);
      }
      assert FieldForm(p, r.code, r.info, pc);
      OthersKept(p, code, info, pc, r.code, r.info);
    }
  }

  predicate IsQuickField(op: byte) {
    op in {OPC_GETSTATIC_QUICK, OPC_PUTSTATIC_QUICK, OPC_GETFIELD_QUICK, OPC_PUTFIELD_QUICK,
           OPC_GETFIELD_QUICK_W, OPC_PUTFIELD_QUICK_W}
  }

  lemma QuickFieldOk(p: Program, code: seq<byte>, info: CpInfo, pc: int)
    requires ProgramOk(p) && pc in p.sites && CodeOk(p, code, info) && IsQuickField(At(code, pc))
    ensures FetchOk(p, code, info, pc, Fetch(p, code, info, pc))
  {
    assert SiteWellFormed(p, pc) && SiteOk(p, code, info, pc);
    var c, i := SiteClass(p, pc), Operand16(p.orig, pc);
    assert FieldForm(p, code, info, pc);
    if SameOperands(p, code, pc) {
      OriginalOperand(p, code, pc);
    }
    if Known(info, c, i) {
      InfoValue(p, info, c, i);
    }
  }

  lemma SlowInvokeOk(p: Program, code: seq<byte>, info: CpInfo, pc: int)
    requires ProgramOk(p) && pc in p.sites && CodeOk(p, code, info) && KindSiteOk(p, pc)
    requires IsInvokeOpcode(At(code, pc)) && At(code, pc) == At(p.orig, pc) && SameOperands(p, code, pc)
    ensures FetchOk(p, code, info, pc, FetchInvoke(p, code, info, pc, At(code, pc)))
  {
    var c, i := SiteClass(p, pc), Operand16(p.orig, pc);
    OriginalOperand(p, code, pc);
    CachedIsResolved(p, info, c, i);
    if At(code, pc) == OPC_INVOKEINTERFACE {
      var m := ResolveInterfaceMethod(p, c, i);
      if Entry(p, c, i).CpInterfaceMethod? && m.Some? {
        InfoGrows(p, code, info, pc, c, i, m.value);
      }
    } else if Entry(p, c, i).CpMethod? && ResolveMethod(p, c, i).Some? {
      RewriteInvokeOk(p, code, info, pc, ResolveMethod(p, c, i).value);
    }
  }

  lemma InfoGrows(p: Program, code: seq<byte>, info: CpInfo, pc: int, c: nat, i: nat, v: int)
    requires ProgramOk(p) && pc in p.sites && CodeOk(p, code, info) && PoolValue(p, c, i) == Some(v)
    ensures CodeOk(p, code, info[(c, i) := v]) && Known(info[(c, i) := v], c, i)
  {
    forall s | s in p.sites ensures SiteOk(p, code, info[(c, i) := v], s) {
      FormDepends(p, code, info, s, code, info[(c, i) := v]);
    }
  }

  lemma RewriteInvokeOk(p: Program, code: seq<byte>, info: CpInfo, pc: int, m: nat)
    requires ProgramOk(p) && pc in p.sites && CodeOk(p, code, info) && m < |p.h.methods|
    requires OPC_INVOKEVIRTUAL <= At(code, pc) <= OPC_INVOKESTATIC
    requires At(code, pc) == At(p.orig, pc) && SameOperands(p, code, pc)
    requires Entry(p, SiteClass(p, pc), Operand16(p.orig, pc)).CpMethod?
    requires ResolveMethod(p, SiteClass(p, pc), Operand16(p.orig, pc)) == Some(m)
    requires Operand16(code, pc) == Operand16(p.orig, pc)
    requires Cached(info, SiteClass(p, pc), Operand16(p.orig, pc), Some(m)) == Some(m)
    ensures FetchOk(p, code, info, pc, FetchInvoke(p, code, info, pc, At(code, pc)))
  {
    var op, c, i := At(code, pc), SiteClass(p, pc), Operand16(p.orig, pc);
    var r := FetchInvoke(p, code, info, pc, op);
    InfoGrows(p, code, info, pc, c, i, m);
    RewrittenInvoke(p, code, info, pc, m);
    OthersKept(p, code, r.info, pc, r.code, r.info);
  }

  lemma RewrittenInvoke(p: Program, code: seq<byte>, info: CpInfo, pc: int, m: nat)
    requires ProgramOk(p) && pc in p.sites && CodeOk(p, code, info) && m < |p.h.methods|
    requires OPC_INVOKEVIRTUAL <= At(code, pc) <= OPC_INVOKESTATIC
    requires At(code, pc) == At(p.orig, pc) && SameOperands(p, code, pc)
    requires Entry(p, SiteClass(p, pc), Operand16(p.orig, pc)).CpMethod?
    requires ResolveMethod(p, SiteClass(p, pc), Operand16(p.orig, pc)) == Some(m)
    requires Operand16(code, pc) == Operand16(p.orig, pc)
    requires Cached(info, SiteClass(p, pc), Operand16(p.orig, pc), Some(m)) == Some(m)
    ensures var r := FetchInvoke(p, code, info, pc, At(code, pc));
            && r.op.None? && |r.code| == |code| && Rank(At(r.code, pc)) == 0
            && r.info == info[(SiteClass(p, pc), Operand16(p.orig, pc)) := m]
            && (forall k {:trigger At(r.code, k)} | !(pc <= k < pc + 3) :: At(r.code, k) == At(code, k))
            && InvokeForm(p, r.code, r.info, pc)
  {
    var op, c, i := At(code, pc), SiteClass(p, pc), Operand16(p.orig, pc);
    var index, nargs := p.l.methods[m].tableIndex, p.l.methods[m].argsCount;
    var r := FetchInvoke(p, code, info, pc, op);
    assert Known(r.info, c, i);
    if op == OPC_INVOKEVIRTUAL && nargs < 256 && index < 256 {
      PutOperands(p, code, info, pc, OPC_INVOKEVIRTUAL_QUICK, index, nargs);
    } else if op == OPC_INVOKESPECIAL && IsSuperCall(p, c, m) {
      PutOperands(p, code, info, pc, OPC_INVOKESUPER_QUICK, HighByte(index), index % 256);
    } else {
      PutOpcode(p, code, info, pc, At(r.code, pc), r.info);
    }
  }

  /** The two operand bytes of invokesuper_quick give the index back exactly if it is below 65536. */
  lemma SuperIndexRoundTrips(index: nat)
    ensures Index16(HighByte(index), index % 256) == index <==> index < 0x1_0000
  {
    var q, r := index / 256, index % 256;
    assert index == q * 256 + r;
    if index < 0x1_0000 {
      assert q % 256 == q;
    }
  }

  /** In any of its quick forms an invoke instruction stands for the reference operation if and only if
      its site is of the kinds above. */
  lemma InvokeFormMatches(p: Program, code: seq<byte>, info: CpInfo, pc: int)
    requires ProgramOk(p) && pc in p.sites && InfoOk(p, info) && InvokeForm(p, code, info, pc)
    ensures Matches(p, pc, InvokeAt(p, code, info, pc, At(code, pc))) <==> InvokeSiteOk(p, pc)
  {
    var c, i := SiteClass(p, pc), Operand16(p.orig, pc);
    var m := ResolveMethod(p, c, i).value;
    LinkSizes(p);
    assert SameOperands(p, code, pc) ==> Operand16(code, pc) == Operand16(p.orig, pc) by {
      if SameOperands(p, code, pc) {
        OriginalOperand(p, code, pc);
      }
    }
    assert Known(info, c, i) ==> info[(c, i)] == m by {
      if Known(info, c, i) {
        InfoValue(p, info, c, i);
      }
    }
    var index := p.l.methods[m].tableIndex;
    SuperIndexRoundTrips(index);
    assert At(code, pc) == OPC_INVOKESUPER_QUICK ==> (Operand16(code, pc) == index <==> index < 0x1_0000);
    hide HighByte;
    hide Index16;
    hide Operand16;
    hide ProgramOk;
    hide InfoOk;
    hide SameOperands;
    hide ResolveMethod;
    hide IsSuperCall;
  }

  lemma QuickInvokeOk(p: Program, code: seq<byte>, info: CpInfo, pc: int)
    requires ProgramOk(p) && QuickSafe(p) && pc in p.sites && CodeOk(p, code, info) && IsQuickInvoke(At(code, pc))
    ensures FetchOk(p, code, info, pc, Fetch(p, code, info, pc))
  {
    assert SiteWellFormed(p, pc) && SiteOk(p, code, info, pc) && InvokeSiteOk(p, pc);
    InvokeFormMatches(p, code, info, pc);
    hide InvokeAt;
    hide Matches;
    hide InvokeForm;
  }

  lemma PlainOk(p: Program, code: seq<byte>, info: CpInfo, pc: int)
    requires ProgramOk(p) && pc in p.sites && CodeOk(p, code, info)
    requires At(code, pc) == At(p.orig, pc) && SameOperands(p, code, pc)
    requires At(code, pc) != OPC_ALOAD_0 && At(code, pc) != OPC_LDC && At(code, pc) != OPC_LDC_W
    requires !IsFieldOpcode(At(code, pc)) && !IsInvokeOpcode(At(code, pc))
    ensures FetchOk(p, code, info, pc, Fetch(p, code, info, pc))
  {
    assert SiteWellFormed(p, pc);
    var op := At(code, pc);
    PlainDepends(op, At(code, pc + 1), At(code, pc + 2), At(p.orig, pc + 1), At(p.orig, pc + 2), pc);
  }

  /** An operation depends on no byte past the length of its instruction. */
  lemma PlainDepends(op: byte, b1: byte, b2: byte, c1: byte, c2: byte, pc: int)
    requires op < OPC_LDC_QUICK
    requires (Length(op) >= 2 ==> b1 == c1) && (Length(op) >= 3 ==> b2 == c2)
    ensures PlainOp(op, b1, b2, pc) == PlainOp(op, c1, c2, pc)
  {
  }

  /** One dispatch keeps every instruction in one of its forms, and the operation it yields, if
      any, stands for the reference operation. */
  lemma FetchIsOk(p: Program, code: seq<byte>, info: CpInfo, pc: int)
    requires ProgramOk(p) && QuickSafe(p) && pc in p.sites && CodeOk(p, code, info)
    ensures FetchOk(p, code, info, pc, Fetch(p, code, info, pc))
  {
    var op := At(code, pc);
    assert SiteWellFormed(p, pc) && SiteOk(p, code, info, pc);
    if op in {OPC_LDC, OPC_LDC_W, OPC_LDC_QUICK, OPC_LDC_W_QUICK} {
      FetchConstantOk(p, code, info, pc);
    } else if op in {OPC_ALOAD_0, OPC_ALOAD_THIS, OPC_GETFIELD_THIS} {
      FetchLoadOk(p, code, info, pc);
    } else if IsFieldOpcode(op) {
      SlowFieldOk(p, code, info, pc);
    } else if IsQuickField(op) {
      QuickFieldOk(p, code, info, pc);
    } else if IsInvokeOpcode(op) {
      SlowInvokeOk(p, code, info, pc);
    } else if IsQuickInvoke(op) {
      QuickInvokeOk(p, code, info, pc);
    } else if op == At(p.orig, pc) {
      PlainOk(p, code, info, pc);
    }
  }
}
