/**
 Class initialisation by any number of threads (initClass, class.c:556-632; section 5.5 of the JVMS).

 Every thread has a stack of initClass activations, nested through the superclass and through Java
 code running in a static initialiser. An activation is broken into its lock operations and its
 accesses to the class block's flags; the class's monitor is a re-entrant lock with wait and
 notifyAll. Classes are linked already. Java code (a static initialiser, or whatever a thread runs
 between calls) may initialise any class, take and release any class's monitor, throw and catch.
 */
module ClassInit {
  import opened Common

  datatype Flags = Linked | Bad | Initing | Inited

  /** A superclass has a smaller number than its subclasses. */
  datatype Decl = Decl(super: Option<nat>, isInterface: bool, hasClinit: bool)

  ghost predicate DeclsOk(ds: seq<Decl>) {
    forall c {:trigger ds[c]} | 0 <= c < |ds| :: ds[c].super.Some? ==> ds[c].super.value < c
  }

  /** The class block's flags and initing_tid, and the monitor of the class object. */
  datatype Class = Class(flags: Flags, initing: nat, owner: Option<nat>, count: nat)

  datatype Phase =
    | Enter                 // objectLock
    | Test                  // the while loop's condition, and the tests after it
    | Waiting(saved: nat)   // in objectWait
    | Woken(saved: nat)     // notified, about to lock again
    | Claim                 // flags = CLASS_INITING
    | Claimed               // objectUnlock
    | Super                 // reads the superclass's flags
    | SuperCall             // initClass(cb->super) runs
    | Clinit                // looks for <clinit>
    | Running               // <clinit> runs
    | Check                 // exceptionOccured
    | Wrapping              // makes the ExceptionInInitializerError
    | FailLock | SetBad
    | SuccessLock | SetInited
    | Notify | Leave        // notifyAll, then objectUnlock
    | Returned

  datatype Activation = Activation(cls: nat, phase: Phase)

  /** The initClass calls of a thread, innermost last, and whether an exception is pending. */
  datatype Thread = Thread(stack: seq<Activation>, pending: bool)

  /** `started` lists the classes whose <clinit> was called, in order; C does not have it. */
  datatype World = World(classes: seq<Class>, threads: seq<Thread>, started: seq<nat>)

  function Top(th: Thread): Activation
    requires th.stack != []
  {
    th.stack[|th.stack| - 1]
  }

  function Become(th: Thread, ph: Phase, pending: bool): Thread
    requires th.stack != []
  {
    Thread(th.stack[..|th.stack| - 1] + [Activation(Top(th).cls, ph)], pending)
  }

  function Call(th: Thread, c: nat): Thread {
    Thread(th.stack + [Activation(c, Enter)], th.pending)
  }

  // ----- the monitor -----

  predicate CanLock(k: Class, t: nat) { k.owner == None || k.owner == Some(t) }

  function Lock(k: Class, t: nat): Class { k.(owner := Some(t), count := k.count + 1) }

  function Unlock(k: Class): Class {
    if k.count <= 1 then k.(owner := None, count := 0) else k.(count := k.count - 1)
  }

  /** objectNotifyAll: every thread waiting on class c has to lock it again. */
  function Wake(th: Thread, c: nat): Thread {
    if th.stack != [] && Top(th).cls == c && Top(th).phase.Waiting? then
      Become(th, Woken(Top(th).phase.saved), th.pending)
    else th
  }

  // ----- the steps of initClass -----

  /** Thread t's innermost activation goes on at ph; its class becomes k. */
  function Goes(w: World, t: nat, k: Class, ph: Phase, pending: bool): World
    requires t < |w.threads| && w.threads[t].stack != [] && Top(w.threads[t]).cls < |w.classes|
  {
    var th := w.threads[t];
    World(w.classes[Top(th).cls := k], w.threads[t := Become(th, ph, pending)], w.started)
  }

  predicate Ready(ds: seq<Decl>, classes: seq<Class>, c: nat)
    requires c < |ds|
  {
    || ds[c].isInterface || ds[c].super.None?
    || (ds[c].super.value < |classes| && classes[ds[c].super.value].flags.Inited?)
  }

  predicate InCall(ds: seq<Decl>, w: World, t: nat) {
    |w.classes| == |ds| && t < |w.threads| && w.threads[t].stack != [] && Top(w.threads[t]).cls < |ds|
  }

  /** Thread t is not blocked in objectLock or objectWait. */
  predicate Enabled(ds: seq<Decl>, w: World, t: nat)
    requires InCall(ds, w, t)
  {
    var ph, k := Top(w.threads[t]).phase, w.classes[Top(w.threads[t]).cls];
    && !ph.Waiting? && !ph.SuperCall?
    && (ph in {Enter, FailLock, SuccessLock} ==> CanLock(k, t))
    && (ph.Woken? ==> k.owner == None)
  }

  /** The state after the next step of thread t. */
  function After(ds: seq<Decl>, w: World, t: nat): World
    requires InCall(ds, w, t)
  {
    var th := w.threads[t];
    var c, p := Top(th).cls, th.pending;
    var k := w.classes[c];
    match Top(th).phase
    case Enter => Goes(w, t, Lock(k, t), Test, p)
    case Test =>
      if k.flags.Initing? && k.initing != t then Goes(w, t, k.(owner := None, count := 0), Waiting(k.count), p)
      else if k.flags.Initing? || k.flags.Inited? then Goes(w, t, k, Leave, p)
      else if k.flags.Bad? then Goes(w, t, Unlock(k), Returned, true)
      else Goes(w, t, k, Claim, p)
    case Waiting(_) => w
    case Woken(saved) => Goes(w, t, k.(owner := Some(t), count := saved), Test, p)
    case Claim => Goes(w, t, k.(flags := Initing, initing := t), Claimed, p)
    case Claimed => Goes(w, t, Unlock(k), Super, p)
    case Super =>
      if Ready(ds, w.classes, c) then Goes(w, t, k, Clinit, p)
      else w.(threads := w.threads[t := Call(Become(th, SuperCall, p), ds[c].super.value)])
    case SuperCall => w
    case Clinit =>
      if ds[c].hasClinit then World(w.classes, w.threads[t := Become(th, Running, p)], w.started + [c])
      else Goes(w, t, k, Check, p)
    case Running => Goes(w, t, k, Check, p)
    case Check => if p then Goes(w, t, k, Wrapping, false) else Goes(w, t, k, SuccessLock, p)
    case Wrapping => Goes(w, t, k, FailLock, true)
    case FailLock => Goes(w, t, Lock(k, t), SetBad, p)
    case SetBad => Goes(w, t, k.(flags := Bad), Notify, p)
    case SuccessLock => Goes(w, t, Lock(k, t), SetInited, p)
    case SetInited => Goes(w, t, k.(flags := Inited), Notify, p)
    case Notify =>
      var woken := seq(|w.threads|, i requires 0 <= i < |w.threads| => Wake(w.threads[i], c));
      w.(threads := woken[t := Become(th, Leave, p)])
    case Leave => Goes(w, t, Unlock(k), Returned, p)
    case Returned => w.(threads := w.threads[t := Return(th)])
  }

  /** The innermost call returns. A call for the superclass goes on by whether it threw. */
  function Return(th: Thread): Thread
    requires th.stack != []
  {
    var caller := Thread(th.stack[..|th.stack| - 1], th.pending);
    if caller.stack != [] && Top(caller).phase.SuperCall? then
      Become(caller, if th.pending then FailLock else Clinit, th.pending)
    else caller
  }

  /** The next step of thread t's initClass calls. */
  predicate CallStep(ds: seq<Decl>, w: World, t: nat, w': World) {
    InCall(ds, w, t) && Enabled(ds, w, t) && w' == After(ds, w, t)
  }

  // ----- the steps of Java code, and waking without a notify -----

  /** The thread runs Java code: a static initialiser, or outside of any call. */
  predicate InJava(th: Thread) {
    th.stack == [] || Top(th).phase.Running? || Top(th).phase.Wrapping?
  }

  ghost predicate JavaCalls(ds: seq<Decl>, w: World, t: nat, w': World) {
    && t < |w.threads| && InJava(w.threads[t]) && !w.threads[t].pending
    && exists c: nat :: c < |ds| && w' == w.(threads := w.threads[t := Call(w.threads[t], c)])
  }

  ghost predicate JavaThrows(w: World, t: nat, w': World) {
    && t < |w.threads| && InJava(w.threads[t])
    && exists pending :: w' == w.(threads := w.threads[t := w.threads[t].(pending := pending)])
  }

  ghost predicate JavaLocks(w: World, t: nat, w': World) {
    && t < |w.threads| && InJava(w.threads[t])
    && exists c: nat :: c < |w.classes| && CanLock(w.classes[c], t)
         && w' == w.(classes := w.classes[c := Lock(w.classes[c], t)])
  }

  ghost predicate JavaUnlocks(w: World, t: nat, w': World) {
    && t < |w.threads| && InJava(w.threads[t])
    && exists c: nat :: c < |w.classes| && w.classes[c].owner == Some(t)
         && w' == w.(classes := w.classes[c := Unlock(w.classes[c])])
  }

  ghost predicate SpuriousWake(w: World, t: nat, w': World) {
    t < |w.threads| && exists c: nat :: w' == w.(threads := w.threads[t := Wake(w.threads[t], c)])
  }

  ghost predicate StepOf(ds: seq<Decl>, w: World, t: nat, w': World)
    requires |w.classes| == |ds|
  {
    || CallStep(ds, w, t, w') || JavaCalls(ds, w, t, w') || JavaThrows(w, t, w')
    || JavaLocks(w, t, w') || JavaUnlocks(w, t, w') || SpuriousWake(w, t, w')
  }

  ghost predicate Next(ds: seq<Decl>, w: World, w': World) {
    |w.classes| == |ds| && exists t: nat :: t < |w.threads| && StepOf(ds, w, t, w')
  }

  ghost predicate Init(ds: seq<Decl>, w: World) {
    && |w.classes| == |ds| && w.started == []
    && (forall c | 0 <= c < |w.classes| ::
          w.classes[c].flags.Linked? && w.classes[c].owner == None && w.classes[c].count == 0)
    && (forall t | 0 <= t < |w.threads| :: w.threads[t].stack == [])
  }

  ghost predicate IsRun(ds: seq<Decl>, run: seq<World>) {
    && DeclsOk(ds) && run != [] && Init(ds, run[0])
    && forall i: nat | i + 1 < |run| :: Next(ds, run[i], run[i + 1])
  }

  // ----- the invariant -----

  /** The activation has claimed its class and not yet settled it. */
  predicate Works(ph: Phase) {
    ph in {Claimed, Super, SuperCall, Clinit, Running, Check, Wrapping, FailLock, SetBad, SuccessLock, SetInited}
  }

  predicate Holds(ph: Phase) { ph in {Test, Claim, Claimed, SetBad, SetInited, Notify, Leave} }

  predicate Throwing(ph: Phase) { ph in {FailLock, SetBad} }

  predicate Calm(ph: Phase) {
    || ph in {Enter, Test, Claim, Claimed, Super, Clinit, SuccessLock, SetInited}
    || ph.Waiting? || ph.Woken?
  }

  /** The superclass is initialised, or this thread is initialising it. */
  predicate SuperReady(ds: seq<Decl>, classes: seq<Class>, t: nat, c: nat)
    requires c < |ds|
  {
    ds[c].isInterface || ds[c].super.None?
    || (ds[c].super.value < |classes|
        && (classes[ds[c].super.value].flags.Inited?
            || (classes[ds[c].super.value].flags.Initing? && classes[ds[c].super.value].initing == t)))
  }

  /** What a call of initClass leaves to its caller. */
  predicate Outcome(k: Class, t: nat, pending: bool) {
    match k.flags
    case Inited => !pending
    case Bad => pending
    case Initing => k.initing == t && !pending
    case Linked => false
  }

  ghost predicate ActivationInv(ds: seq<Decl>, w: World, t: nat, act: Activation, pending: bool) {
    && |w.classes| == |ds| && act.cls < |ds|
    && var k, ph := w.classes[act.cls], act.phase;
       && (Works(ph) ==> k.flags.Initing? && k.initing == t)
       && (Holds(ph) ==> k.owner == Some(t))
       && (ph.Claim? ==> k.flags.Linked?)
       && (ph in {Claimed, Super, SuperCall, Clinit} ==> act.cls !in w.started)
       && (ph.Clinit? ==> SuperReady(ds, w.classes, t, act.cls))
       && (ph.SuperCall? ==> !ds[act.cls].isInterface && ds[act.cls].super.Some?)
       && (Throwing(ph) ==> pending) && (Calm(ph) ==> !pending)
       && (ph.Waiting? || ph.Woken? ==> ph.saved > 0)
       && (ph in {Notify, Leave, Returned} ==> Outcome(k, t, pending))
  }

  predicate NestedPhase(ph: Phase) { ph.SuperCall? || ph.Running? || ph.Wrapping? }

  ghost predicate ThreadInv(ds: seq<Decl>, w: World, t: nat, th: Thread) {
    && (forall k | 0 <= k < |th.stack| :: ActivationInv(ds, w, t, th.stack[k], th.pending))
    && (forall k | 0 <= k < |th.stack| - 1 :: NestedPhase(th.stack[k].phase))
    && (forall k | 0 <= k < |th.stack| - 1 ::
          th.stack[k].phase.SuperCall? ==>
            th.stack[k].cls < |ds| && ds[th.stack[k].cls].super == Some(th.stack[k + 1].cls))
    && (th.stack != [] ==> !Top(th).phase.SuperCall?)
    && (forall j, k | 0 <= j < k < |th.stack| ::
         Works(th.stack[j].phase) && Works(th.stack[k].phase) ==> th.stack[j].cls != th.stack[k].cls)
  }

  ghost predicate ClassInv(w: World, c: nat)
    requires c < |w.classes|
  {
    && (w.classes[c].flags.Linked? ==> c !in w.started)
    && (w.classes[c].owner.Some? <==> w.classes[c].count > 0)
  }

  ghost predicate Inv(ds: seq<Decl>, w: World) {
    && |w.classes| == |ds|
    && (forall t | 0 <= t < |w.threads| :: ThreadInv(ds, w, t, w.threads[t]))
    && (forall c | 0 <= c < |w.classes| :: ClassInv(w, c))
    && (forall i, j | 0 <= i < j < |w.started| :: w.started[i] != w.started[j])
  }

  // ----- what a step of thread t can do to the others -----

  /** Flags change under the class's lock, to claim it or to settle what this thread claimed. */
  ghost predicate ClassHarmless(k: Class, k': Class, t: nat) {
    && (k'.flags != k.flags || k'.initing != k.initing ==>
          k.owner == Some(t) && (k.flags.Linked? || (k.flags.Initing? && k.initing == t)))
    && (k.owner.Some? && k.owner != Some(t) ==> k'.owner == k.owner)
  }

  ghost predicate Harmless(w: World, w': World, t: nat) {
    && |w'.classes| == |w.classes| && |w'.threads| == |w.threads|
    && (forall c | 0 <= c < |w.classes| :: ClassHarmless(w.classes[c], w'.classes[c], t))
    && (forall c: nat | c < |w.classes| && c in w'.started ::
          c in w.started || (w.classes[c].flags.Initing? && w.classes[c].initing == t))
  }

  lemma ActivationStays(ds: seq<Decl>, w: World, w': World, t: nat, u: nat, act: Activation, pending: bool)
    requires Harmless(w, w', t) && u != t && ActivationInv(ds, w, u, act, pending)
    ensures ActivationInv(ds, w', u, act, pending)
  {
    assert ClassHarmless(w.classes[act.cls], w'.classes[act.cls], t);
    var s := ds[act.cls].super;
    if s.Some? && s.value < |w.classes| {
      assert ClassHarmless(w.classes[s.value], w'.classes[s.value], t);
    }
  }

  lemma ThreadStays(ds: seq<Decl>, w: World, w': World, t: nat, u: nat, th: Thread)
    requires Harmless(w, w', t) && u != t && ThreadInv(ds, w, u, th)
    ensures ThreadInv(ds, w', u, th)
  {
    hide ActivationInv;
    hide Harmless;
    forall k | 0 <= k < |th.stack| ensures ActivationInv(ds, w', u, th.stack[k], th.pending) {
      ActivationStays(ds, w, w', t, u, th.stack[k], th.pending);
    }
  }

  lemma WakeKeeps(ds: seq<Decl>, w: World, u: nat, th: Thread, c: nat)
    requires ThreadInv(ds, w, u, th)
    ensures ThreadInv(ds, w, u, Wake(th, c))
  {
    if Wake(th, c) != th {
      var act := Top(th);
      assert ActivationInv(ds, w, u, act, th.pending);
      assert ActivationInv(ds, w, u, Activation(act.cls, Woken(act.phase.saved)), th.pending);
      hide ActivationInv;
      LowerKept(ds, w, w, u, th);
      BecomeInv(ds, w, w, u, th, Woken(act.phase.saved), th.pending);
    }
  }

  /** The outer activations of the stepping thread are left alone. */
  ghost predicate LowerInv(ds: seq<Decl>, w': World, t: nat, th: Thread) {
    forall k {:trigger th.stack[k]} | 0 <= k < |th.stack| - 1 :: forall pending ::
        ActivationInv(ds, w', t, th.stack[k], pending)
  }

  lemma LowerKept(ds: seq<Decl>, w: World, w': World, t: nat, th: Thread)
    requires ThreadInv(ds, w, t, th) && th.stack != []
    requires |w'.classes| == |w.classes| && Top(th).cls < |w.classes|
    requires w'.classes == w.classes[Top(th).cls := w'.classes[Top(th).cls]]
    requires var k, k' := w.classes[Top(th).cls], w'.classes[Top(th).cls];
             (k'.flags == k.flags && k'.initing == k.initing && w'.started == w.started)
             || ((Works(Top(th).phase) || k.flags.Linked?)
                 && (w'.started == w.started || w'.started == w.started + [Top(th).cls]))
    ensures LowerInv(ds, w', t, th)
  {
    forall k, pending | 0 <= k < |th.stack| - 1 ensures ActivationInv(ds, w', t, th.stack[k], pending) {
      assert ActivationInv(ds, w, t, th.stack[k], th.pending) && NestedPhase(th.stack[k].phase);
      assert Works(Top(th).phase) ==> th.stack[k].cls != th.stack[|th.stack| - 1].cls;
    }
  }

  lemma BecomeInv(ds: seq<Decl>, w: World, w': World, t: nat, th: Thread, ph: Phase, pending: bool)
    requires th.stack != [] && ThreadInv(ds, w, t, th) && LowerInv(ds, w', t, th) && !ph.SuperCall?
    requires ActivationInv(ds, w', t, Activation(Top(th).cls, ph), pending)
    requires Works(ph) ==>
               || Works(Top(th).phase)
               || (|w.classes| == |ds| && Top(th).cls < |ds| && w.classes[Top(th).cls].flags.Linked?)
    ensures ThreadInv(ds, w', t, Become(th, ph, pending))
  {
    var th' := Become(th, ph, pending);
    var n := |th.stack| - 1;
    forall k | 0 <= k < |th'.stack| ensures ActivationInv(ds, w', t, th'.stack[k], pending) {
      assert k < n ==> th'.stack[k] == th.stack[k];
    }
    forall j, k | 0 <= j < k < |th'.stack| && Works(th'.stack[j].phase) && Works(th'.stack[k].phase)
      ensures th'.stack[j].cls != th'.stack[k].cls
    {
      assert th'.stack[j] == th.stack[j];
      assert ActivationInv(ds, w, t, th.stack[j], th.pending);
      assert k < n ==> th'.stack[k] == th.stack[k];
    }
    hide ActivationInv;
  }

  // ----- the steps of initClass keep the invariant -----

  /** A step of thread t that touches class c only. */
  ghost predicate OneClass(w: World, t: nat, w': World, c: nat) {
    && |w'.threads| == |w.threads| && |w'.classes| == |w.classes| && c < |w.classes|
    && w'.classes == w.classes[c := w'.classes[c]]
    && var k, k' := w.classes[c], w'.classes[c];
       && ClassHarmless(k, k', t)
       && (k'.owner.Some? <==> k'.count > 0)
       && (w'.started == w.started
           || (w'.started == w.started + [c] && c !in w.started && k.flags.Initing? && k.initing == t && k' == k))
       && (k'.flags.Linked? ==> k.flags.Linked?)
  }

  lemma OneClassIsHarmless(w: World, t: nat, w': World, c: nat)
    requires OneClass(w, t, w', c)
    ensures Harmless(w, w', t)
  {
  }

  lemma OneClassKeeps(ds: seq<Decl>, w: World, t: nat, w': World, c: nat)
    requires Inv(ds, w) && OneClass(w, t, w', c)
    ensures forall d | 0 <= d < |w'.classes| :: ClassInv(w', d)
    ensures forall i, j | 0 <= i < j < |w'.started| :: w'.started[i] != w'.started[j]
  {
    forall d | 0 <= d < |w'.classes| ensures ClassInv(w', d) {
      assert ClassInv(w, d);
    }
    hide ThreadInv;
  }

  /** The other threads after a step of thread t. */
  ghost predicate ThreadsKept(w: World, t: nat, w': World) {
    && t < |w.threads| == |w'.threads|
    && forall u | 0 <= u < |w.threads| && u != t ::
         w'.threads[u] == w.threads[u] || exists c :: w'.threads[u] == Wake(w.threads[u], c)
  }

  lemma Assemble(ds: seq<Decl>, w: World, t: nat, w': World)
    requires Inv(ds, w) && Harmless(w, w', t) && ThreadsKept(w, t, w') && ThreadInv(ds, w', t, w'.threads[t])
    requires forall d | 0 <= d < |w'.classes| :: ClassInv(w', d)
    requires forall i, j | 0 <= i < j < |w'.started| :: w'.started[i] != w'.started[j]
    ensures Inv(ds, w')
  {
    hide ThreadInv;
    hide ClassInv;
    forall u | 0 <= u < |w'.threads| ensures ThreadInv(ds, w', u, w'.threads[u]) {
      if u != t {
        ThreadStays(ds, w, w', t, u, w.threads[u]);
        hide Harmless;
        if w'.threads[u] != w.threads[u] {
          var c: nat :| w'.threads[u] == Wake(w.threads[u], c);
          WakeKeeps(ds, w', u, w.threads[u], c);
        }
      }
    }
  }

  /** The innermost activation has gone on in place, and its class is as the step left it. */
  ghost predicate Carried(ds: seq<Decl>, w: World, t: nat, w': World)
    requires t < |w.threads| && w.threads[t].stack != [] && Top(w.threads[t]).cls < |w.classes|
  {
    && |w'.threads| == |w.threads| && w'.threads[t].stack != []
    && w'.threads == w.threads[t := Become(w.threads[t], Top(w'.threads[t]).phase, w'.threads[t].pending)]
    && var c, ph, ph' := Top(w.threads[t]).cls, Top(w.threads[t]).phase, Top(w'.threads[t]).phase;
       && OneClass(w, t, w', c) && !ph'.SuperCall?
       && (|| Works(ph) || w.classes[c].flags.Linked?
           || (w'.classes[c].flags == w.classes[c].flags && w'.classes[c].initing == w.classes[c].initing
               && w'.started == w.started && !Works(ph')))
       && ActivationInv(ds, w', t, Activation(c, ph'), w'.threads[t].pending)
  }

  predicate Locking(ph: Phase) { ph in {Enter, FailLock, SuccessLock} || ph.Woken? }

  lemma LockingStep(ds: seq<Decl>, w: World, t: nat, w': World)
    requires Inv(ds, w) && CallStep(ds, w, t, w')
    requires Locking(Top(w.threads[t]).phase)
    ensures Carried(ds, w, t, w')
  {
    var th := w.threads[t];
    var act := Top(th);
    assert ThreadInv(ds, w, t, th) && ActivationInv(ds, w, t, act, th.pending) && ClassInv(w, act.cls);
    hide Inv;
    hide ThreadInv;
  }

  lemma TestStep(ds: seq<Decl>, w: World, t: nat, w': World)
    requires Inv(ds, w) && CallStep(ds, w, t, w')
    requires Top(w.threads[t]).phase.Test?
    ensures Carried(ds, w, t, w')
  {
    var th := w.threads[t];
    var act := Top(th);
    assert ThreadInv(ds, w, t, th) && ActivationInv(ds, w, t, act, th.pending) && ClassInv(w, act.cls);
    hide Inv;
    hide ThreadInv;
  }

  lemma FlagStep(ds: seq<Decl>, w: World, t: nat, w': World)
    requires Inv(ds, w) && CallStep(ds, w, t, w')
    requires Top(w.threads[t]).phase in {Claim, SetBad, SetInited}
    ensures Carried(ds, w, t, w')
  {
    var th := w.threads[t];
    var act := Top(th);
    assert ThreadInv(ds, w, t, th) && ActivationInv(ds, w, t, act, th.pending) && ClassInv(w, act.cls);
    hide Inv;
    hide ThreadInv;
  }

  lemma UnlockStep(ds: seq<Decl>, w: World, t: nat, w': World)
    requires Inv(ds, w) && CallStep(ds, w, t, w')
    requires Top(w.threads[t]).phase in {Claimed, Leave}
    ensures Carried(ds, w, t, w')
  {
    var th := w.threads[t];
    var act := Top(th);
    assert ThreadInv(ds, w, t, th) && ActivationInv(ds, w, t, act, th.pending) && ClassInv(w, act.cls);
    hide Inv;
    hide ThreadInv;
  }

  lemma ClinitStep(ds: seq<Decl>, w: World, t: nat, w': World)
    requires Inv(ds, w) && CallStep(ds, w, t, w')
    requires Top(w.threads[t]).phase in {Clinit, Running, Check, Wrapping}
    ensures Carried(ds, w, t, w')
  {
    var th := w.threads[t];
    var act := Top(th);
    assert ThreadInv(ds, w, t, th) && ActivationInv(ds, w, t, act, th.pending) && ClassInv(w, act.cls);
    hide Inv;
    hide ThreadInv;
  }

  lemma CarriedKeepsInv(ds: seq<Decl>, w: World, t: nat, w': World)
    requires Inv(ds, w) && t < |w.threads| && w.threads[t].stack != [] && Top(w.threads[t]).cls < |w.classes|
    requires Carried(ds, w, t, w')
    ensures Inv(ds, w') && Harmless(w, w', t)
  {
    var th := w.threads[t];
    assert ThreadInv(ds, w, t, th) && ActivationInv(ds, w, t, Top(th), th.pending);
    OneClassIsHarmless(w, t, w', Top(th).cls);
    OneClassKeeps(ds, w, t, w', Top(th).cls);
    LowerKept(ds, w, w', t, th);
    BecomeInv(ds, w, w', t, th, Top(w'.threads[t]).phase, w'.threads[t].pending);
    hide ActivationInv;
    hide ThreadInv;
    hide OneClass;
    hide ClassInv;
    hide Harmless;
    hide LowerInv;
    Assemble(ds, w, t, w');
  }

  /** Steps that only change the stepping thread. */
  lemma ThreadOnly(ds: seq<Decl>, w: World, t: nat, w': World)
    requires Inv(ds, w) && t < |w.threads| && |w'.threads| == |w.threads|
    requires w' == w.(threads := w.threads[t := w'.threads[t]])
    requires ThreadInv(ds, w, t, w'.threads[t])
    ensures Inv(ds, w') && Harmless(w, w', t)
  {
    hide ActivationInv;
    hide ClassInv;
    SameClasses(ds, w, w', t, w'.threads[t]);
    ClassesSame(w, w');
    hide ThreadInv;
    Assemble(ds, w, t, w');
  }

  lemma ClassesSame(w: World, w': World)
    requires w'.classes == w.classes && w'.started == w.started
    ensures forall c: nat | c < |w.classes| :: ClassInv(w, c) == ClassInv(w', c)
  {
  }

  lemma SameClasses(ds: seq<Decl>, w: World, w': World, t: nat, th: Thread)
    requires w'.classes == w.classes && w'.started == w.started
    ensures ThreadInv(ds, w, t, th) == ThreadInv(ds, w', t, th)
  {
    assert forall act, pending :: ActivationInv(ds, w, t, act, pending) == ActivationInv(ds, w', t, act, pending);
    hide ActivationInv;
  }

  lemma SuperStep(ds: seq<Decl>, w: World, t: nat, w': World)
    requires DeclsOk(ds) && Inv(ds, w) && CallStep(ds, w, t, w') && Top(w.threads[t]).phase.Super?
    ensures Inv(ds, w') && Harmless(w, w', t)
  {
    var th := w.threads[t];
    var c := Top(th).cls;
    assert ThreadInv(ds, w, t, th) && ActivationInv(ds, w, t, Top(th), th.pending);
    hide Inv;
    LowerKept(ds, w, w, t, th);
    assert w.classes[c := w.classes[c]] == w.classes;
    if Ready(ds, w.classes, c) {
      BecomeInv(ds, w, w, t, th, Clinit, th.pending);
    } else {
      CallInv(ds, w, t, th);
    }
    hide ThreadInv;
    hide ActivationInv;
    ThreadOnly(ds, w, t, w');
  }

  /** The call for the superclass. */
  lemma CallInv(ds: seq<Decl>, w: World, t: nat, th: Thread)
    requires DeclsOk(ds) && th.stack != [] && ThreadInv(ds, w, t, th) && LowerInv(ds, w, t, th)
    requires Top(th).phase.Super? && |w.classes| == |ds| && Top(th).cls < |ds|
    requires !ds[Top(th).cls].isInterface && ds[Top(th).cls].super.Some?
    ensures ThreadInv(ds, w, t, Call(Become(th, SuperCall, th.pending), ds[Top(th).cls].super.value))
  {
    var c := ds[Top(th).cls].super.value;
    var below := Become(th, SuperCall, th.pending);
    var th' := Call(below, c);
    var n := |th.stack|;
    assert ActivationInv(ds, w, t, th.stack[n - 1], th.pending);
    assert ActivationInv(ds, w, t, Activation(Top(th).cls, SuperCall), th.pending);
    assert ActivationInv(ds, w, t, Activation(c, Enter), th.pending);
    hide ActivationInv;
    forall k | 0 <= k < |th'.stack| ensures ActivationInv(ds, w, t, th'.stack[k], th.pending) {
      assert k < n - 1 ==> th'.stack[k] == th.stack[k];
    }
    forall j, k | 0 <= j < k < |th'.stack| && Works(th'.stack[j].phase) && Works(th'.stack[k].phase)
      ensures th'.stack[j].cls != th'.stack[k].cls
    {
      assert th'.stack[j].cls == th.stack[j].cls && th'.stack[k].cls == th.stack[k].cls;
    }
  }

  lemma NotifyStep(ds: seq<Decl>, w: World, t: nat, w': World)
    requires Inv(ds, w) && CallStep(ds, w, t, w') && Top(w.threads[t]).phase.Notify?
    ensures Inv(ds, w') && Harmless(w, w', t)
  {
    var th := w.threads[t];
    assert ThreadInv(ds, w, t, th) && ActivationInv(ds, w, t, Top(th), th.pending);
    LowerKept(ds, w, w, t, th);
    BecomeInv(ds, w, w, t, th, Leave, th.pending);
    ClassesSame(w, w');
    SameClasses(ds, w, w', t, w'.threads[t]);
    hide ThreadInv;
    hide ActivationInv;
    hide ClassInv;
    Assemble(ds, w, t, w');
  }

  lemma ReturnKeeps(ds: seq<Decl>, w: World, t: nat, w': World)
    requires Inv(ds, w) && CallStep(ds, w, t, w') && Top(w.threads[t]).phase.Returned?
    ensures Inv(ds, w') && Harmless(w, w', t)
  {
    var th := w.threads[t];
    var n := |th.stack|;
    assert ThreadInv(ds, w, t, th) && ActivationInv(ds, w, t, th.stack[n - 1], th.pending);
    var caller := Thread(th.stack[..n - 1], th.pending);
    if n >= 2 {
      assert ActivationInv(ds, w, t, th.stack[n - 2], th.pending) && NestedPhase(th.stack[n - 2].phase);
      if Top(caller).phase.SuperCall? {
        var next := if th.pending then FailLock else Clinit;
        assert ds[Top(caller).cls].super == Some(th.stack[n - 1].cls);
        assert ActivationInv(ds, w, t, Activation(Top(caller).cls, next), th.pending);
        ReturnInv(ds, w, t, th, next);
      } else {
        PrefixInv(ds, w, t, th);
      }
    }
    hide Inv;
    hide ThreadInv;
    hide ActivationInv;
    ThreadOnly(ds, w, t, w');
  }

  lemma PrefixInv(ds: seq<Decl>, w: World, t: nat, th: Thread)
    requires |th.stack| >= 2 && ThreadInv(ds, w, t, th) && !th.stack[|th.stack| - 2].phase.SuperCall?
    ensures ThreadInv(ds, w, t, Thread(th.stack[..|th.stack| - 1], th.pending))
  {
    hide ActivationInv;
  }

  lemma ReturnInv(ds: seq<Decl>, w: World, t: nat, th: Thread, next: Phase)
    requires |th.stack| >= 2 && ThreadInv(ds, w, t, th) && th.stack[|th.stack| - 2].phase.SuperCall? && !next.SuperCall?
    requires ActivationInv(ds, w, t, Activation(th.stack[|th.stack| - 2].cls, next), th.pending)
    ensures ThreadInv(ds, w, t, Become(Thread(th.stack[..|th.stack| - 1], th.pending), next, th.pending))
  {
    var n := |th.stack|;
    var th' := Become(Thread(th.stack[..n - 1], th.pending), next, th.pending);
    hide ActivationInv;
    assert forall k | 0 <= k < n - 2 :: th'.stack[k] == th.stack[k];
    assert th'.stack[n - 2].cls == th.stack[n - 2].cls;
  }

  // ----- the other steps -----

  lemma JavaCallKeeps(ds: seq<Decl>, w: World, t: nat, w': World)
    requires Inv(ds, w) && JavaCalls(ds, w, t, w')
    ensures Inv(ds, w') && Harmless(w, w', t)
  {
    var th := w.threads[t];
    var c: nat :| c < |ds| && w' == w.(threads := w.threads[t := Call(th, c)]);
    assert ThreadInv(ds, w, t, th);
    assert ActivationInv(ds, w, t, Activation(c, Enter), th.pending);
    hide Inv;
    hide ActivationInv;
    assert ThreadInv(ds, w, t, Call(th, c)) by {
      var th' := Call(th, c);
      assert forall k | 0 <= k < |th.stack| :: th'.stack[k] == th.stack[k];
    }
    hide ThreadInv;
    ThreadOnly(ds, w, t, w');
  }

  lemma JavaThrowKeeps(ds: seq<Decl>, w: World, t: nat, w': World)
    requires Inv(ds, w) && JavaThrows(w, t, w')
    ensures Inv(ds, w') && Harmless(w, w', t)
  {
    var th := w.threads[t];
    assert ThreadInv(ds, w, t, th);
    var th' := w'.threads[t];
    forall k | 0 <= k < |th.stack| ensures ActivationInv(ds, w, t, th.stack[k], th'.pending) {
      assert ActivationInv(ds, w, t, th.stack[k], th.pending) && NestedPhase(th.stack[k].phase);
    }
    hide Inv;
    hide ActivationInv;
    assert ThreadInv(ds, w, t, th');
    hide ThreadInv;
    ThreadOnly(ds, w, t, w');
  }

  lemma JavaMonitorKeeps(ds: seq<Decl>, w: World, t: nat, w': World)
    requires Inv(ds, w) && (JavaLocks(w, t, w') || JavaUnlocks(w, t, w'))
    ensures Inv(ds, w') && Harmless(w, w', t)
  {
    var th := w.threads[t];
    assert ThreadInv(ds, w, t, th);
    var c: nat :| c < |w.classes| && w' == w.(classes := w.classes[c := w'.classes[c]])
                  && ((CanLock(w.classes[c], t) && w'.classes[c] == Lock(w.classes[c], t))
                      || (w.classes[c].owner == Some(t) && w'.classes[c] == Unlock(w.classes[c])));
    assert ClassInv(w, c);
    OneClassIsHarmless(w, t, w', c);
    OneClassKeeps(ds, w, t, w', c);
    forall k | 0 <= k < |th.stack| ensures ActivationInv(ds, w', t, th.stack[k], th.pending) {
      assert ActivationInv(ds, w, t, th.stack[k], th.pending) && NestedPhase(th.stack[k].phase);
    }
    hide ActivationInv;
    assert ThreadInv(ds, w', t, th);
    hide ThreadInv;
    hide ClassInv;
    hide Harmless;
    Assemble(ds, w, t, w');
  }

  lemma SpuriousWakeKeeps(ds: seq<Decl>, w: World, t: nat, w': World)
    requires Inv(ds, w) && SpuriousWake(w, t, w')
    ensures Inv(ds, w') && Harmless(w, w', t)
  {
    var c: nat :| w' == w.(threads := w.threads[t := Wake(w.threads[t], c)]);
    assert ThreadInv(ds, w, t, w.threads[t]);
    WakeKeeps(ds, w, t, w.threads[t], c);
    hide Inv;
    hide ThreadInv;
    ThreadOnly(ds, w, t, w');
  }

  lemma CallStepKeeps(ds: seq<Decl>, w: World, t: nat, w': World)
    requires DeclsOk(ds) && Inv(ds, w) && CallStep(ds, w, t, w')
    ensures Inv(ds, w') && Harmless(w, w', t)
  {
    var ph := Top(w.threads[t]).phase;
    if ph.Super? {
      SuperStep(ds, w, t, w');
    } else if ph.Notify? {
      NotifyStep(ds, w, t, w');
    } else if ph.Returned? {
      ReturnKeeps(ds, w, t, w');
    } else if !ph.Waiting? && !ph.SuperCall? {
      if Locking(ph) {
        LockingStep(ds, w, t, w');
      } else if ph.Test? {
        TestStep(ds, w, t, w');
      } else if ph in {Claim, SetBad, SetInited} {
        FlagStep(ds, w, t, w');
      } else if ph in {Claimed, Leave} {
        UnlockStep(ds, w, t, w');
      } else {
        ClinitStep(ds, w, t, w');
      }
      hide Inv;
      hide Carried;
      CarriedKeepsInv(ds, w, t, w');
    }
    hide Inv;
    hide Harmless;
  }

  lemma StepKeepsInv(ds: seq<Decl>, w: World, t: nat, w': World)
    requires DeclsOk(ds) && Inv(ds, w) && t < |w.threads| && StepOf(ds, w, t, w')
    ensures Inv(ds, w') && Harmless(w, w', t)
  {
    assert |w.classes| == |ds|;
    hide Inv;
    hide CallStep;
    hide JavaCalls;
    hide JavaThrows;
    hide JavaLocks;
    hide JavaUnlocks;
    hide SpuriousWake;
    hide Harmless;
    hide DeclsOk;
    if CallStep(ds, w, t, w') {
      CallStepKeeps(ds, w, t, w');
    } else if JavaCalls(ds, w, t, w') {
      JavaCallKeeps(ds, w, t, w');
    } else if JavaThrows(w, t, w') {
      JavaThrowKeeps(ds, w, t, w');
    } else if SpuriousWake(w, t, w') {
      SpuriousWakeKeeps(ds, w, t, w');
    } else {
      JavaMonitorKeeps(ds, w, t, w');
    }
  }

  // ----- every run -----

  lemma {:induction false} RunInv(ds: seq<Decl>, run: seq<World>, i: nat)
    requires IsRun(ds, run) && i < |run|
    ensures Inv(ds, run[i])
  {
    hide CallStep;
    hide JavaCalls;
    hide JavaThrows;
    hide JavaLocks;
    hide JavaUnlocks;
    hide SpuriousWake;
    if i > 0 {
      hide Inv;
      hide StepOf;
      RunInv(ds, run, i - 1);
      assert Next(ds, run[i - 1], run[i - 1 + 1]);
      var t: nat :| t < |run[i - 1].threads| && StepOf(ds, run[i - 1], t, run[i]);
      StepKeepsInv(ds, run[i - 1], t, run[i]);
    }
  }

  /** Each class's static initialiser is started at most once, whichever threads ask for it. */
  lemma ClinitRunsAtMostOnce(ds: seq<Decl>, run: seq<World>, i: nat, a: nat, b: nat)
    requires IsRun(ds, run) && i < |run| && a < b < |run[i].started|
    ensures run[i].started[a] != run[i].started[b]
  {
    RunInv(ds, run, i);
  }

  /** CLASS_INITED and CLASS_BAD are final. */
  lemma {:induction false} SettledIsFinal(ds: seq<Decl>, run: seq<World>, i: nat, j: nat, c: nat)
    requires IsRun(ds, run) && i <= j < |run| && c < |run[i].classes|
    ensures c < |run[j].classes|
    ensures run[i].classes[c].flags.Inited? || run[i].classes[c].flags.Bad? ==>
              run[j].classes[c].flags == run[i].classes[c].flags
    decreases j - i
  {
    hide Init;
    hide StepOf;
    if i < j {
      SettledIsFinal(ds, run, i, j - 1, c);
      RunInv(ds, run, j - 1);
      hide Inv;
      assert Next(ds, run[j - 1], run[j - 1 + 1]);
      var t: nat :| t < |run[j - 1].threads| && StepOf(ds, run[j - 1], t, run[j]);
      StepKeepsInv(ds, run[j - 1], t, run[j]);
      assert ClassHarmless(run[j - 1].classes[c], run[j].classes[c], t);
    }
  }

  /** A static initialiser starts only when the superclass is initialised, or is being initialised by
      the same thread (step 7 of section 5.5). */
  lemma ClinitStartsAfterSuperclass(ds: seq<Decl>, run: seq<World>, i: nat) returns (t: nat)
    requires IsRun(ds, run) && i + 1 < |run| && run[i + 1].started != run[i].started
    ensures t < |run[i].threads| && run[i].threads[t].stack != []
    ensures var c := Top(run[i].threads[t]).cls;
            c < |ds| && run[i + 1].started == run[i].started + [c] && SuperReady(ds, run[i].classes, t, c)
  {
    RunInv(ds, run, i);
    assert Next(ds, run[i], run[i + 1]);
    hide Init;
    hide Inv;
    t :| t < |run[i].threads| && StepOf(ds, run[i], t, run[i + 1]);
    var w, th := run[i], run[i].threads[t];
    assert CallStep(ds, w, t, run[i + 1]);
    assert Top(th).phase.Clinit?;
    AtClinit(ds, w, t);
  }

  lemma AtClinit(ds: seq<Decl>, w: World, t: nat)
    requires Inv(ds, w) && t < |w.threads| && w.threads[t].stack != [] && Top(w.threads[t]).phase.Clinit?
    ensures Top(w.threads[t]).cls < |ds| && SuperReady(ds, w.classes, t, Top(w.threads[t]).cls)
  {
    assert ThreadInv(ds, w, t, w.threads[t]);
    assert ActivationInv(ds, w, t, Top(w.threads[t]), w.threads[t].pending);
  }

  /** Every return finds the class initialised, or bad with an exception pending, or being initialised
      by the caller itself; an exception is pending only in the second case. */
  lemma ReturnsAreSettled(ds: seq<Decl>, run: seq<World>, i: nat, t: nat)
    requires IsRun(ds, run) && i < |run| && t < |run[i].threads| && run[i].threads[t].stack != []
    requires Top(run[i].threads[t]).phase.Returned?
    ensures Top(run[i].threads[t]).cls < |run[i].classes|
    ensures Outcome(run[i].classes[Top(run[i].threads[t]).cls], t, run[i].threads[t].pending)
  {
    RunInv(ds, run, i);
    assert ThreadInv(ds, run[i], t, run[i].threads[t]);
    assert ActivationInv(ds, run[i], t, Top(run[i].threads[t]), run[i].threads[t].pending);
    hide IsRun;
  }
}
