/** What becomes of a class by how its static initialiser ends (class.c:588-631; section 5.5 of the JVMS). */
module ClassInitOutcome {
  import opened Common
  import opened ClassInit

  /** Call n of thread t is for class c, and at this point. */
  predicate IsAt(w: World, t: nat, n: nat, c: nat, ph: Phase) {
    t < |w.threads| && n < |w.threads[t].stack| && w.threads[t].stack[n] == Activation(c, ph)
  }

  predicate IsInnermost(w: World, t: nat, n: nat) {
    t < |w.threads| && n == |w.threads[t].stack| - 1
  }

  /** The call has failed: it is on its way to CLASS_BAD, or there, with an exception pending. */
  ghost predicate Failing(w: World, t: nat, n: nat, c: nat) {
    && t < |w.threads| && n < |w.threads[t].stack| && w.threads[t].stack[n].cls == c && c < |w.classes|
    && var th, ph := w.threads[t], w.threads[t].stack[n].phase;
       || ph.Wrapping?
       || (IsInnermost(w, t, n) && th.pending
           && (ph in {Check, FailLock, SetBad} || (ph in {Notify, Leave, Returned} && w.classes[c].flags.Bad?)))
  }

  /** The call has succeeded: it is on its way to CLASS_INITED, or there, with no exception pending. */
  ghost predicate Succeeding(w: World, t: nat, n: nat, c: nat) {
    && IsInnermost(w, t, n) && w.threads[t].stack[n].cls == c && c < |w.classes|
    && var th, ph := w.threads[t], w.threads[t].stack[n].phase;
       && !th.pending
       && (ph in {Check, SuccessLock, SetInited} || (ph in {Notify, Leave, Returned} && w.classes[c].flags.Inited?))
  }

  /** A failing call has not initialised its class, nor a succeeding one spoilt it. */
  lemma OutcomeIsOpen(ds: seq<Decl>, w: World, t: nat, n: nat, c: nat)
    requires Inv(ds, w)
    ensures Failing(w, t, n, c) ==> !w.classes[c].flags.Inited?
    ensures Succeeding(w, t, n, c) ==> !w.classes[c].flags.Bad?
  {
    if t < |w.threads| && n < |w.threads[t].stack| {
      assert ThreadInv(ds, w, t, w.threads[t]);
      assert ActivationInv(ds, w, t, w.threads[t].stack[n], w.threads[t].pending);
    }
    hide Inv;
    hide ThreadInv;
  }

  /** The steps of other threads leave a call as it is, but for waking it. */
  lemma OthersLeave(ds: seq<Decl>, w: World, u: nat, w': World, t: nat, n: nat, c: nat)
    requires DeclsOk(ds) && Inv(ds, w) && u < |w.threads| && t < |w.threads| && StepOf(ds, w, u, w') && u != t
    ensures Failing(w, t, n, c) ==> Failing(w', t, n, c)
    ensures Succeeding(w, t, n, c) ==> Succeeding(w', t, n, c)
  {
    StepKeepsInv(ds, w, u, w');
    ThreadsStay(ds, w, u, w', t);
    hide StepOf;
    hide Inv;
    if c < |w.classes| {
      assert ClassHarmless(w.classes[c], w'.classes[c], u);
    }
  }

  lemma ThreadsStay(ds: seq<Decl>, w: World, u: nat, w': World, t: nat)
    requires |w.classes| == |ds| && u < |w.threads| && t < |w.threads| && StepOf(ds, w, u, w') && u != t
    ensures |w'.threads| == |w.threads|
    ensures w'.threads[t] == w.threads[t] || exists c :: w'.threads[t] == Wake(w.threads[t], c)
  {
    if CallStep(ds, w, u, w') && Top(w.threads[u]).phase.Notify? {
      assert w'.threads[t] == Wake(w.threads[t], Top(w.threads[u]).cls);
    }
    hide Wake;
  }

  /** The call has returned. */
  predicate Over(w: World, t: nat, n: nat) {
    t < |w.threads| && n >= |w.threads[t].stack|
  }

  /** A step of the thread's own calls, while call n is failing or succeeding. */
  lemma OwnCall(ds: seq<Decl>, w: World, t: nat, w': World, n: nat, c: nat)
    requires Inv(ds, w) && CallStep(ds, w, t, w') && n < |w.threads[t].stack|
    ensures Failing(w, t, n, c) ==>
              Failing(w', t, n, c) || (Over(w', t, n) && c < |w'.classes| && w'.classes[c].flags.Bad?)
    ensures Succeeding(w, t, n, c) ==>
              Succeeding(w', t, n, c) || (Over(w', t, n) && c < |w'.classes| && w'.classes[c].flags.Inited?)
  {
    var th := w.threads[t];
    assert ThreadInv(ds, w, t, th);
    assert n < |th.stack| - 1 ==> NestedPhase(th.stack[n].phase);
    hide Inv;
    hide ThreadInv;
    if n < |th.stack| - 1 {
      NestedStep(ds, w, t, w', n);
    }
  }

  /** A call that waits for a nested one keeps its place. */
  lemma NestedStep(ds: seq<Decl>, w: World, t: nat, w': World, n: nat)
    requires CallStep(ds, w, t, w') && n < |w.threads[t].stack| - 1
    ensures |w'.threads| == |w.threads| && |w'.classes| == |w.classes| && n < |w'.threads[t].stack|
    ensures !w.threads[t].stack[n].phase.SuperCall? ==> w'.threads[t].stack[n] == w.threads[t].stack[n]
  {
    var th := w.threads[t];
    if th.stack != [] {
      BecomeKeepsBelow(th, n);
      ReturnKeepsBelow(th, n);
    }
    hide Become;
    hide Call;
    hide Return;
    hide Enabled;
    hide Lock;
    hide Unlock;
    hide Ready;
  }

  lemma BecomeKeepsBelow(th: Thread, n: nat)
    requires n < |th.stack| - 1
    ensures forall ph, pending {:trigger Become(th, ph, pending)} ::
              n < |Become(th, ph, pending).stack| && Become(th, ph, pending).stack[n] == th.stack[n]
    ensures forall ph, pending, c {:trigger Call(Become(th, ph, pending), c)} ::
              && n < |Call(Become(th, ph, pending), c).stack|
              && Call(Become(th, ph, pending), c).stack[n] == th.stack[n]
  {
  }

  lemma ReturnKeepsBelow(th: Thread, n: nat)
    requires n < |th.stack| - 1
    ensures n < |Return(th).stack| && (!th.stack[n].phase.SuperCall? ==> Return(th).stack[n] == th.stack[n])
  {
  }

  lemma OwnStep(ds: seq<Decl>, w: World, t: nat, w': World, n: nat, c: nat)
    requires Inv(ds, w) && StepOf(ds, w, t, w') && t < |w.threads| && n < |w.threads[t].stack|
    ensures Failing(w, t, n, c) ==>
              Failing(w', t, n, c) || (Over(w', t, n) && c < |w'.classes| && w'.classes[c].flags.Bad?)
    ensures Succeeding(w, t, n, c) ==>
              Succeeding(w', t, n, c) || (Over(w', t, n) && c < |w'.classes| && w'.classes[c].flags.Inited?)
  {
    if CallStep(ds, w, t, w') {
      hide Inv;
      hide CallStep;
      OwnCall(ds, w, t, w', n, c);
    } else {
      hide CallStep;
      assert ThreadInv(ds, w, t, w.threads[t]);
      hide Inv;
      hide ThreadInv;
    }
  }

  // ----- every run -----

  /** Call n of thread t is in progress in all of these states. */
  ghost predicate InProgress(run: seq<World>, t: nat, n: nat, x: nat, y: nat) {
    && x <= y < |run|
    && forall z: nat {:trigger run[z]} | x <= z <= y :: t < |run[z].threads| && n < |run[z].threads[t].stack|
  }

  lemma StepKeepsOutcome(ds: seq<Decl>, w: World, w': World, t: nat, n: nat, c: nat)
    requires DeclsOk(ds) && Inv(ds, w) && Next(ds, w, w')
    ensures Failing(w, t, n, c) ==>
              Failing(w', t, n, c) || (Over(w', t, n) && c < |w'.classes| && w'.classes[c].flags.Bad?)
    ensures Succeeding(w, t, n, c) ==>
              Succeeding(w', t, n, c) || (Over(w', t, n) && c < |w'.classes| && w'.classes[c].flags.Inited?)
  {
    hide StepOf;
    hide Inv;
    hide DeclsOk;
    var u: nat :| u < |w.threads| && StepOf(ds, w, u, w');
    if t < |w.threads| && n < |w.threads[t].stack| {
      hide Failing;
      hide Succeeding;
      hide Over;
      if u == t {
        OwnStep(ds, w, t, w', n, c);
      } else {
        OthersLeave(ds, w, u, w', t, n, c);
      }
    }
  }

  /** From the point on where a call has failed its class is never initialised, and while the call is in progress
      it stays on its way to CLASS_BAD. Once it is over the class is bad. */
  lemma {:induction false} FailureIsFinal(ds: seq<Decl>, run: seq<World>, x: nat, y: nat, t: nat, n: nat, c: nat)
    requires IsRun(ds, run) && x <= y < |run| && Failing(run[x], t, n, c)
    ensures c < |run[y].classes| && !run[y].classes[c].flags.Inited?
    ensures Failing(run[y], t, n, c) || run[y].classes[c].flags.Bad?
    ensures InProgress(run, t, n, x, y) ==> Failing(run[y], t, n, c)
    decreases y - x
  {
    hide Next;
    hide Init;
    hide Inv;
    hide Failing;
    RunInv(ds, run, y);
    if x < y {
      FailureIsFinal(ds, run, x, y - 1, t, n, c);
      RunInv(ds, run, y - 1);
      assert Next(ds, run[y - 1], run[y - 1 + 1]);
      SettledIsFinal(ds, run, y - 1, y, c);
      StepKeepsOutcome(ds, run[y - 1], run[y], t, n, c);
      if InProgress(run, t, n, x, y) {
        assert InProgress(run, t, n, x, y - 1);
      }
    }
    OutcomeIsOpen(ds, run[y], t, n, c);
    FailingClass(run[y], t, n, c);
    hide IsRun;
  }

  lemma FailingClass(w: World, t: nat, n: nat, c: nat)
    ensures Failing(w, t, n, c) || Succeeding(w, t, n, c) ==> c < |w.classes|
  {
  }

  lemma {:induction false} SuccessIsFinal(ds: seq<Decl>, run: seq<World>, x: nat, y: nat, t: nat, n: nat, c: nat)
    requires IsRun(ds, run) && x <= y < |run| && Succeeding(run[x], t, n, c)
    ensures c < |run[y].classes| && !run[y].classes[c].flags.Bad?
    ensures Succeeding(run[y], t, n, c) || run[y].classes[c].flags.Inited?
    ensures InProgress(run, t, n, x, y) ==> Succeeding(run[y], t, n, c)
    decreases y - x
  {
    hide Next;
    hide Init;
    hide Inv;
    hide Succeeding;
    RunInv(ds, run, y);
    if x < y {
      SuccessIsFinal(ds, run, x, y - 1, t, n, c);
      RunInv(ds, run, y - 1);
      assert Next(ds, run[y - 1], run[y - 1 + 1]);
      SettledIsFinal(ds, run, y - 1, y, c);
      StepKeepsOutcome(ds, run[y - 1], run[y], t, n, c);
      if InProgress(run, t, n, x, y) {
        assert InProgress(run, t, n, x, y - 1);
      }
    }
    OutcomeIsOpen(ds, run[y], t, n, c);
    FailingClass(run[y], t, n, c);
    hide IsRun;
  }

  /** Thread t's innermost call n runs the static initialiser of class c, which ends with this step. */
  ghost predicate InitialiserEnds(ds: seq<Decl>, w: World, w': World, t: nat, n: nat, c: nat) {
    IsInnermost(w, t, n) && IsAt(w, t, n, c, Running) && CallStep(ds, w, t, w')
  }

  /** A static initialiser that ends with an exception: its class is initialised in no later state, and the call
      can return only with the class bad and an exception pending. */
  lemma ThrowingInitialiserFails(ds: seq<Decl>, run: seq<World>, x: nat, y: nat, t: nat, n: nat, c: nat)
    requires IsRun(ds, run) && x < y < |run| && InitialiserEnds(ds, run[x], run[x + 1], t, n, c)
    requires run[x].threads[t].pending
    ensures c < |run[y].classes| && !run[y].classes[c].flags.Inited?
    ensures InProgress(run, t, n, x, y) && run[y].threads[t].stack[n].phase.Returned? ==>
              run[y].classes[c].flags.Bad? && run[y].threads[t].pending
    ensures Over(run[y], t, n) ==> run[y].classes[c].flags.Bad?
  {
    assert Failing(run[x + 1], t, n, c);
    hide CallStep;
    FailureIsFinal(ds, run, x + 1, y, t, n, c);
    hide IsRun;
    if InProgress(run, t, n, x, y) {
      assert InProgress(run, t, n, x + 1, y);
    }
  }

  /** One that ends without an exception: its class is bad in no later state, and the call can return only with
      the class initialised and nothing pending. */
  lemma EndingInitialiserSucceeds(ds: seq<Decl>, run: seq<World>, x: nat, y: nat, t: nat, n: nat, c: nat)
    requires IsRun(ds, run) && x < y < |run| && InitialiserEnds(ds, run[x], run[x + 1], t, n, c)
    requires !run[x].threads[t].pending
    ensures c < |run[y].classes| && !run[y].classes[c].flags.Bad?
    ensures InProgress(run, t, n, x, y) && run[y].threads[t].stack[n].phase.Returned? ==>
              run[y].classes[c].flags.Inited? && !run[y].threads[t].pending
    ensures Over(run[y], t, n) ==> run[y].classes[c].flags.Inited?
  {
    RunInv(ds, run, x);
    assert Succeeding(run[x + 1], t, n, c) by {
      assert ThreadInv(ds, run[x], t, run[x].threads[t]);
      assert ActivationInv(ds, run[x], t, run[x].threads[t].stack[n], false);
    }
    hide CallStep;
    hide Inv;
    SuccessIsFinal(ds, run, x + 1, y, t, n, c);
    hide IsRun;
    if InProgress(run, t, n, x, y) {
      assert InProgress(run, t, n, x + 1, y);
    }
  }

  /** The call for the superclass returns with an exception pending. */
  ghost predicate SuperclassThrows(ds: seq<Decl>, w: World, w': World, t: nat, n: nat, c: nat) {
    IsInnermost(w, t, n + 1) && IsAt(w, t, n, c, SuperCall) && w.threads[t].stack[n + 1].phase.Returned?
    && w.threads[t].pending && CallStep(ds, w, t, w')
  }

  /** Then the class fails with its superclass. */
  lemma ThrowingSuperclassFails(ds: seq<Decl>, run: seq<World>, x: nat, y: nat, t: nat, n: nat, c: nat)
    requires IsRun(ds, run) && x < y < |run| && SuperclassThrows(ds, run[x], run[x + 1], t, n, c)
    ensures c < |run[y].classes| && !run[y].classes[c].flags.Inited?
    ensures Failing(run[y], t, n, c) || run[y].classes[c].flags.Bad?
  {
    RunInv(ds, run, x);
    assert Failing(run[x + 1], t, n, c) by {
      assert ThreadInv(ds, run[x], t, run[x].threads[t]);
      assert ActivationInv(ds, run[x], t, run[x].threads[t].stack[n], true);
    }
    hide CallStep;
    hide Inv;
    FailureIsFinal(ds, run, x + 1, y, t, n, c);
  }
}
