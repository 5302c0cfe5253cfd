/**
 The Java stack as one block of words.

 C lays frames one on another: a frame's locals, then the five words of its Frame struct, then its
 operand stack, on which the next frame's locals begin at the first argument. `Chain` says that
 such a block, read through the saved pointers, holds a list of reference frames.
 */
module FlatStack {
  import opened Common
  import opened Bytecode
  import opened Reference

  // Word offsets inside a Frame struct.
  const MB: nat := 0
  const LAST_PC: nat := 1
  const LVARS: nat := 2
  const OSTACK: nat := 3
  const PREV: nat := 4

  function Below(frames: seq<Frame>): seq<Frame>
    requires frames != []
  {
    frames[..|frames| - 1]
  }

  function Top(frames: seq<Frame>): Frame
    requires frames != []
  {
    frames[|frames| - 1]
  }

  /** Where the locals of the last frame begin, and where its struct is. */
  function LocalsAt(base: nat, frames: seq<Frame>): nat
    requires frames != []
  {
    TopAddress(base, Below(frames))
  }

  function StructAt(base: nat, frames: seq<Frame>): nat
    requires frames != []
  {
    LocalsAt(base, frames) + |Top(frames).locals|
  }

  /** The struct that the last frame's prev field points to; the dummy frame lies under base. */
  function PrevStruct(base: nat, frames: seq<Frame>): int
    requires frames != []
  {
    if |frames| == 1 then base - FRAME_WORDS else StructAt(base, Below(frames))
  }

  ghost predicate HoldsLocals(mem: seq<int>, at: nat, locals: seq<Option<Word>>) {
    && at + |locals| <= |mem|
    && forall i: nat | i < |locals| :: locals[i].Some? ==> mem[at + i] == locals[i].value
  }

  ghost predicate HoldsStack(mem: seq<int>, at: nat, stack: seq<Word>) {
    && at + |stack| <= |mem|
    && forall i: nat | i < |stack| :: mem[at + i] == stack[i]
  }

  ghost predicate HoldsStruct(mem: seq<int>, at: nat, m: nat, lvars: nat, prev: int) {
    && at + FRAME_WORDS <= |mem|
    && mem[at + MB] == m + 1 && mem[at + LVARS] == lvars
    && mem[at + OSTACK] == at + FRAME_WORDS && mem[at + PREV] == prev
  }

  /** The last frame: locals, struct and operand stack. */
  ghost predicate HoldsTop(mem: seq<int>, base: nat, frames: seq<Frame>)
    requires frames != []
  {
    var f, lv, at := Top(frames), LocalsAt(base, frames), StructAt(base, frames);
    && HoldsLocals(mem, lv, f.locals)
    && HoldsStruct(mem, at, f.m, lv, PrevStruct(base, frames))
    && HoldsStack(mem, at + FRAME_WORDS, f.stack)
  }

  ghost predicate SavedPc(mem: seq<int>, base: nat, frames: seq<Frame>)
    requires frames != []
  {
    StructAt(base, frames) + LAST_PC < |mem| && mem[StructAt(base, frames) + LAST_PC] == Top(frames).pc
  }

  /** The block holds all frames, and every calling frame has saved its pc. */
  ghost predicate Chain(mem: seq<int>, base: nat, frames: seq<Frame>) {
    frames != [] ==>
      && HoldsTop(mem, base, frames)
      && Chain(mem, base, Below(frames))
      && (|frames| > 1 ==> SavedPc(mem, base, Below(frames)))
  }

  ghost predicate SameBelow(mem: seq<int>, mem': seq<int>, limit: nat) {
    |mem'| == |mem| && forall i: nat | i < |mem| && i < limit :: mem'[i] == mem[i]
  }

  lemma TopAddressGrows(base: nat, frames: seq<Frame>)
    requires frames != []
    ensures base <= TopAddress(base, Below(frames))
    ensures TopAddress(base, frames) == StructAt(base, frames) + FRAME_WORDS + |Top(frames).stack|
  {
    TopAddressBase(base, Below(frames));
  }

  lemma {:induction false} TopAddressBase(base: nat, frames: seq<Frame>)
    ensures base <= TopAddress(base, frames)
    decreases |frames|
  {
    if frames != [] {
      TopAddressBase(base, Below(frames));
    }
  }

  /** Words from the top address on do not matter. */
  lemma {:induction false} ChainDepends(mem: seq<int>, mem': seq<int>, base: nat, frames: seq<Frame>)
    requires Chain(mem, base, frames) && SameBelow(mem, mem', TopAddress(base, frames))
    ensures Chain(mem', base, frames)
    decreases |frames|
  {
    if frames != [] {
      TopAddressGrows(base, frames);
      if |frames| > 1 {
        TopAddressGrows(base, Below(frames));
      }
      ChainDepends(mem, mem', base, Below(frames));
    }
  }

  lemma ChangeFrame(frames: seq<Frame>, f: Frame)
    requires frames != []
    ensures Below(Below(frames) + [f]) == Below(frames) && Top(Below(frames) + [f]) == f
  {
  }

  /** A change above the locals of the last frame needs that frame to be checked again only. */
  lemma TopChanges(mem: seq<int>, mem': seq<int>, base: nat, frames: seq<Frame>, f: Frame)
    requires frames != [] && Chain(mem, base, frames) && SameBelow(mem, mem', LocalsAt(base, frames))
    requires HoldsTop(mem', base, Below(frames) + [f])
    ensures Chain(mem', base, Below(frames) + [f])
  {
    ChangeFrame(frames, f);
    ChainDepends(mem, mem', base, Below(frames));
    if |frames| > 1 {
      TopAddressGrows(base, Below(frames));
    }
  }

  /** As TopChanges, when locals and struct stay as they are. */
  lemma StackChanges(mem: seq<int>, mem': seq<int>, base: nat, frames: seq<Frame>, pc: int, stack: seq<Word>)
    requires frames != [] && Chain(mem, base, frames)
    requires SameBelow(mem, mem', StructAt(base, frames) + FRAME_WORDS)
    requires HoldsStack(mem', StructAt(base, frames) + FRAME_WORDS, stack)
    ensures Chain(mem', base, Below(frames) + [Top(frames).(pc := pc, stack := stack)])
  {
    var f := Top(frames).(pc := pc, stack := stack);
    ChangeFrame(frames, f);
    TopChanges(mem, mem', base, frames, f);
  }

  /** Saving the pc of the last frame in its struct. */
  lemma SavePc(mem: seq<int>, base: nat, frames: seq<Frame>)
    requires frames != [] && Chain(mem, base, frames)
    ensures StructAt(base, frames) + LAST_PC < |mem|
    ensures var mem' := mem[StructAt(base, frames) + LAST_PC := Top(frames).pc];
            Chain(mem', base, frames) && SavedPc(mem', base, frames)
  {
    var mem' := mem[StructAt(base, frames) + LAST_PC := Top(frames).pc];
    ChangeFrame(frames, Top(frames));
    assert Below(frames) + [Top(frames)] == frames;
    TopChanges(mem, mem', base, frames, Top(frames));
  }

  /** A new frame on top of a saved one. */
  lemma PushFrame(mem: seq<int>, mem': seq<int>, base: nat, frames: seq<Frame>, f: Frame)
    requires frames != [] && Chain(mem, base, frames) && SavedPc(mem, base, frames)
    requires SameBelow(mem, mem', TopAddress(base, frames))
    requires HoldsTop(mem', base, frames + [f])
    ensures Chain(mem', base, frames + [f])
  {
    assert Below(frames + [f]) == frames;
    ChainDepends(mem, mem', base, frames);
    TopAddressGrows(base, frames);
  }

  lemma Address(base: nat, frames: seq<Frame>)
    requires frames != []
    ensures TopAddress(base, frames) == StructAt(base, frames) + FRAME_WORDS + |Top(frames).stack|
    ensures base <= LocalsAt(base, frames) <= StructAt(base, frames)
  {
    TopAddressGrows(base, frames);
  }
}
