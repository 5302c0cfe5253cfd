/**
 Class initialisation and deadlock (class.c:567-595).

 initClass cannot deadlock if two conditions hold. The first: classes can be ranked so that a
 superclass ranks below its subclasses, and a static initialiser asks only for classes that rank below
 its own, or that its thread is initialising already. The second: Java code holds no class's monitor
 when it asks for a class or ends a static initialiser. Then the calls of a thread descend, a thread can
 only wait for one that has descended further, and some call can step or some monitor can be released.

 The first condition is exact: if the classes cannot be ranked, a run with a thread for each class ends
 in a deadlock. Without the second, a run ends in threads that wait for ever although nobody asks.
 */
module ClassInitProgress {
  import opened Common
  import opened ClassInit

  /** A rank for every class, by which superclasses come first. */
  type Rank = nat -> nat

  ghost predicate RankOk(ds: seq<Decl>, rank: Rank) {
    forall c: nat {:trigger ds[c]} | c < |ds| && ds[c].super.Some? && !ds[c].isInterface ::
        rank(ds[c].super.value) < rank(c)
  }

  /** Activation j of the thread initialises class c. */
  predicate Initialises(th: Thread, j: nat, c: nat) {
    j < |th.stack| && th.stack[j].cls == c && Works(th.stack[j].phase)
  }

  /** What Java code in this thread may ask for. */
  ghost predicate MayAsk(rank: Rank, th: Thread, c: nat) {
    th.stack == [] || rank(c) < rank(Top(th).cls) || exists j: nat :: Initialises(th, j, c)
  }

  /** Java code in thread t holds no class's monitor. */
  predicate HoldsNone(w: World, t: nat) {
    forall c | 0 <= c < |w.classes| :: w.classes[c].owner != Some(t)
  }

  ghost predicate RankedCall(ds: seq<Decl>, rank: Rank, w: World, t: nat, w': World) {
    && t < |w.threads| && InJava(w.threads[t]) && !w.threads[t].pending && HoldsNone(w, t)
    && exists c: nat :: c < |ds| && MayAsk(rank, w.threads[t], c)
         && w' == w.(threads := w.threads[t := Call(w.threads[t], c)])
  }

  /** A static initialiser has released the classes' monitors when it ends. */
  predicate QuietCall(ds: seq<Decl>, w: World, t: nat, w': World) {
    CallStep(ds, w, t, w') && (InJava(w.threads[t]) ==> HoldsNone(w, t))
  }

  /** Java code takes or releases a class's monitor. */
  ghost predicate MonitorStep(w: World, t: nat, w': World) {
    JavaLocks(w, t, w') || JavaUnlocks(w, t, w')
  }

  /** Static initialisers ask for classes of lower rank only, and Java code holds no class's monitor when it
      asks. */
  ghost predicate QuietStep(ds: seq<Decl>, rank: Rank, w: World, t: nat, w': World) {
    || QuietCall(ds, w, t, w') || RankedCall(ds, rank, w, t, w') || JavaThrows(w, t, w')
    || MonitorStep(w, t, w') || SpuriousWake(w, t, w')
  }

  ghost predicate QuietNext(ds: seq<Decl>, rank: Rank, w: World, w': World) {
    |w.classes| == |ds| && exists t: nat :: t < |w.threads| && QuietStep(ds, rank, w, t, w')
  }

  ghost predicate IsQuietRun(ds: seq<Decl>, rank: Rank, run: seq<World>) {
    && DeclsOk(ds) && RankOk(ds, rank) && run != [] && Init(ds, run[0])
    && forall i: nat | i + 1 < |run| :: QuietNext(ds, rank, run[i], run[i + 1])
  }

  /** Thread u is inside the critical section, of one of its calls, that took the lock of class c. */
  ghost predicate OwnsInCall(w: World, u: nat, c: nat) {
    && u < |w.threads| && c < |w.classes| && w.classes[c].count == 1
    && w.threads[u].stack != [] && Top(w.threads[u]).cls == c && Holds(Top(w.threads[u]).phase)
  }

  /** A lock is held by a call in its critical section or by Java code. */
  ghost predicate Owns(w: World, u: nat, c: nat) {
    OwnsInCall(w, u, c) || (u < |w.threads| && InJava(w.threads[u]))
  }

  ghost predicate WorksOn(w: World, u: nat, k: nat, c: nat) {
    u < |w.threads| && k < |w.threads[u].stack| && w.threads[u].stack[k].cls == c && Works(w.threads[u].stack[k].phase)
  }

  predicate Waits(w: World, t: nat) {
    && t < |w.threads| && w.threads[t].stack != []
    && Top(w.threads[t]).phase.Waiting? && Top(w.threads[t]).cls < |w.classes|
  }

  /** The lock is taken once in a call, so once again after a wait. */
  predicate SavesOne(th: Thread) {
    th.stack != [] && (Top(th).phase.Waiting? || Top(th).phase.Woken?) ==> Top(th).phase.saved == 1
  }

  /** Nobody waits for a class that is settled, unless the notification is still to come. */
  ghost predicate WaitOk(w: World, t: nat) {
    Waits(w, t) ==>
      var c := Top(w.threads[t]).cls;
      || (w.classes[c].flags.Initing? && w.classes[c].initing != t)
      || (w.classes[c].owner.Some? && OwnsInCall(w, w.classes[c].owner.value, c)
          && Top(w.threads[w.classes[c].owner.value]).phase.Notify?)
  }

  /** The innermost call is for a class that an outer one initialises, and will find that out. */
  ghost predicate Again(th: Thread) {
    && th.stack != [] && Top(th).phase in {Enter, Test, Leave, Returned}
    && exists j: nat :: j < |th.stack| - 1 && Initialises(th, j, Top(th).cls)
  }

  /** The calls of a thread descend in rank, but for an innermost one of that kind. */
  ghost predicate Descends(rank: Rank, th: Thread) {
    forall k | 0 <= k < |th.stack| - 1 ::
      rank(th.stack[k + 1].cls) < rank(th.stack[k].cls) || (k + 1 == |th.stack| - 1 && Again(th))
  }

  ghost predicate QuietInv(ds: seq<Decl>, rank: Rank, w: World) {
    && (forall t | 0 <= t < |w.threads| :: Descends(rank, w.threads[t]) && SavesOne(w.threads[t]))
    && (forall c: nat | c < |w.classes| && w.classes[c].owner.Some? :: Owns(w, w.classes[c].owner.value, c))
    && (forall t: nat | t < |w.threads| :: WaitOk(w, t))
    && (forall c: nat | c < |w.classes| && w.classes[c].flags.Initing? ::
          exists k: nat :: WorksOn(w, w.classes[c].initing, k, c))
  }

  lemma {:induction false} DescendsTo(rank: Rank, th: Thread, j: nat, k: nat)
    requires Descends(rank, th) && j < k < |th.stack| && (k < |th.stack| - 1 || !Again(th))
    ensures rank(th.stack[k].cls) < rank(th.stack[j].cls)
    decreases k - j
  {
    assert rank(th.stack[k - 1 + 1].cls) < rank(th.stack[k - 1].cls);
    if j < k - 1 {
      DescendsTo(rank, th, j, k - 1);
    }
  }

  /** A call of thread u can step, or Java code in it can release a class's monitor. */
  ghost predicate CanGoOn(ds: seq<Decl>, w: World, u: nat) {
    || (InCall(ds, w, u) && Enabled(ds, w, u))
    || (u < |w.threads| && InJava(w.threads[u]) && !HoldsNone(w, u))
  }

  /** Follow the waits: a blocked thread waits for the lock of a thread inside its critical section, or
      for the thread that initialises the class, which has itself descended to a class of lower rank. */
  lemma {:induction false} SomeoneIsEnabled(ds: seq<Decl>, rank: Rank, w: World, t: nat) returns (u: nat)
    requires Inv(ds, w) && QuietInv(ds, rank, w) && t < |w.threads| && w.threads[t].stack != []
    ensures CanGoOn(ds, w, u)
    decreases if w.threads[t].stack != [] then rank(Top(w.threads[t]).cls) else 0
  {
    hide Inv;
    hide QuietInv;
    hide Descends;
    hide Enabled;
    hide Owns;
    var c := Top(w.threads[t]).cls;
    AtTop(ds, rank, w, t);
    if Enabled(ds, w, t) {
      u := t;
    } else if w.classes[c].owner.Some? {
      u := w.classes[c].owner.value;
      OwnerIsEnabled(ds, w, u, c);
    } else {
      u := w.classes[c].initing;
      var n: nat :| WorksOn(w, u, n, c);
      var other := w.threads[u];
      AtTop(ds, rank, w, u);
      if n == |other.stack| - 1 {
        WorkerIsEnabled(ds, w, u, c);
      } else if Again(other) {
        var d := Top(other).cls;
        if !Enabled(ds, w, u) {
          u := w.classes[d].owner.value;
          OwnerIsEnabled(ds, w, u, d);
        }
      } else {
        DescendsTo(rank, other, n, |other.stack| - 1);
        u := SomeoneIsEnabled(ds, rank, w, u);
      }
    }
  }

  /** Where a call in progress may be blocked. */
  lemma AtTop(ds: seq<Decl>, rank: Rank, w: World, t: nat)
    requires Inv(ds, w) && QuietInv(ds, rank, w) && t < |w.threads| && w.threads[t].stack != []
    ensures InCall(ds, w, t) && Descends(rank, w.threads[t])
    ensures var c, ph := Top(w.threads[t]).cls, Top(w.threads[t]).phase;
            && (w.classes[c].owner.Some? ==> Owns(w, w.classes[c].owner.value, c))
            && (!Enabled(ds, w, t) && w.classes[c].owner == None ==>
                  w.classes[c].flags.Initing? && exists k: nat :: WorksOn(w, w.classes[c].initing, k, c))
            && (ph in {Enter, Test, Leave, Returned} && !Enabled(ds, w, t) ==> w.classes[c].owner.Some?)
  {
    assert ThreadInv(ds, w, t, w.threads[t]);
    var act := Top(w.threads[t]);
    assert ActivationInv(ds, w, t, act, w.threads[t].pending);
    assert WaitOk(w, t);
  }

  lemma OwnerIsEnabled(ds: seq<Decl>, w: World, u: nat, c: nat)
    requires Inv(ds, w) && c < |w.classes| && w.classes[c].owner == Some(u) && Owns(w, u, c)
    ensures CanGoOn(ds, w, u)
  {
  }

  lemma WorkerIsEnabled(ds: seq<Decl>, w: World, u: nat, c: nat)
    requires Inv(ds, w) && u < |w.threads| && w.threads[u].stack != [] && Top(w.threads[u]).cls == c < |w.classes|
    requires Works(Top(w.threads[u]).phase) && w.classes[c].owner == None
    ensures InCall(ds, w, u) && Enabled(ds, w, u)
  {
    assert ThreadInv(ds, w, u, w.threads[u]);
  }

  /** The threads after a step of thread t: the others stay or are woken. */
  lemma OthersKept(ds: seq<Decl>, rank: Rank, w: World, t: nat, w': World)
    requires |w.classes| == |ds| && t < |w.threads| && QuietStep(ds, rank, w, t, w')
    ensures ThreadsKept(w, t, w') && |w'.classes| == |w.classes|
  {
    if CallStep(ds, w, t, w') {
      var act := Top(w.threads[t]);
      if act.phase.Notify? {
        forall u | 0 <= u < |w.threads| && u != t ensures exists c :: w'.threads[u] == Wake(w.threads[u], c) {
          assert w'.threads[u] == Wake(w.threads[u], act.cls);
        }
      }
      hide Wake;
    }
  }

  lemma OthersDescend(rank: Rank, th: Thread, c: nat)
    requires Descends(rank, th) && SavesOne(th)
    ensures Descends(rank, Wake(th, c)) && SavesOne(Wake(th, c))
  {
    if Wake(th, c) != th {
      StrictBecomes(rank, th, Woken(Top(th).phase.saved), th.pending);
    }
  }

  /** Unless the innermost call is for a class in progress, it may go on anywhere. */
  lemma StrictBecomes(rank: Rank, th: Thread, ph: Phase, pending: bool)
    requires Descends(rank, th) && th.stack != [] && !Again(th) && (ph.Waiting? || ph.Woken? ==> ph.saved == 1)
    ensures Descends(rank, Become(th, ph, pending)) && SavesOne(Become(th, ph, pending))
    ensures forall k | 0 <= k < |th.stack| - 1 :: rank(th.stack[k + 1].cls) < rank(th.stack[k].cls)
  {
    hide Again;
  }

  lemma AgainBecomes(rank: Rank, th: Thread, ph: Phase, pending: bool)
    requires Descends(rank, th) && Again(th) && ph in {Test, Leave, Returned}
    ensures Descends(rank, Become(th, ph, pending)) && SavesOne(Become(th, ph, pending))
  {
    var th' := Become(th, ph, pending);
    var j: nat :| j < |th.stack| - 1 && Initialises(th, j, Top(th).cls);
    assert Initialises(th', j, Top(th').cls);
    assert Again(th');
    hide Again;
  }

  lemma CallDescends(rank: Rank, th: Thread, c: nat)
    requires Descends(rank, th) && !Again(th) && MayAsk(rank, th, c)
    ensures Descends(rank, Call(th, c)) && SavesOne(Call(th, c))
  {
    var th' := Call(th, c);
    forall k | 0 <= k < |th'.stack| - 1
      ensures rank(th'.stack[k + 1].cls) < rank(th'.stack[k].cls) || (k + 1 == |th'.stack| - 1 && Again(th'))
    {
      if k < |th.stack| - 1 {
        assert rank(th.stack[k + 1].cls) < rank(th.stack[k].cls);
      } else if !(rank(c) < rank(Top(th).cls)) {
        var j: nat :| Initialises(th, j, c);
        assert Initialises(th', j, c);
      }
    }
  }

  /** But for calling and returning, a step moves the innermost activation on. */
  lemma CallStepBecomes(ds: seq<Decl>, w: World, t: nat, w': World)
    requires CallStep(ds, w, t, w') && !Top(w.threads[t]).phase.Returned?
    requires Top(w.threads[t]).phase.Super? ==> Ready(ds, w.classes, Top(w.threads[t]).cls)
    ensures |w'.threads| == |w.threads| && w'.threads[t].stack != []
    ensures var th, th' := w.threads[t], w'.threads[t];
            && th' == Become(th, Top(th').phase, th'.pending) && !Top(th').phase.Woken?
            && (Top(th').phase.Waiting? ==> Top(th).phase.Test? && Top(th').phase.saved == w.classes[Top(th).cls].count)
  {
  }

  /** A call for a class in progress finds it so and leaves. */
  lemma AgainLeaves(ds: seq<Decl>, w: World, t: nat, w': World)
    requires Inv(ds, w) && CallStep(ds, w, t, w') && Again(w.threads[t]) && !Top(w.threads[t]).phase.Returned?
    ensures |w'.threads| == |w.threads| && w'.threads[t].stack != []
    ensures Top(w'.threads[t]).phase in {Test, Leave, Returned}
    ensures w'.threads[t] == Become(w.threads[t], Top(w'.threads[t]).phase, w'.threads[t].pending)
  {
    var th := w.threads[t];
    var j: nat :| j < |th.stack| - 1 && Initialises(th, j, Top(th).cls);
    assert ThreadInv(ds, w, t, th) && ActivationInv(ds, w, t, th.stack[j], th.pending);
    hide Inv;
    hide ThreadInv;
    hide ActivationInv;
    hide Again;
    CallStepBecomes(ds, w, t, w');
  }

  /** The stepping thread still descends. */
  lemma OwnDescends(ds: seq<Decl>, rank: Rank, w: World, t: nat, w': World)
    requires RankOk(ds, rank) && Inv(ds, w) && QuietInv(ds, rank, w) && CallStep(ds, w, t, w')
    ensures |w'.threads| == |w.threads| && Descends(rank, w'.threads[t]) && SavesOne(w'.threads[t])
  {
    var th := w.threads[t];
    var act := Top(th);
    assert Descends(rank, th) && SavesOne(th) && ThreadInv(ds, w, t, th) && ActivationInv(ds, w, t, act, th.pending);
    assert act.phase.Test? ==> Owns(w, t, act.cls);
    hide QuietInv;
    hide Descends;
    hide SavesOne;
    if act.phase.Returned? {
      hide Inv;
      ReturnDescends(ds, rank, w, t);
    } else if act.phase.Super? && !Ready(ds, w.classes, act.cls) {
      hide Inv;
      hide ThreadInv;
      SuperCallDescends(ds, rank, th, ds[act.cls].super.value);
    } else if Again(th) {
      AgainLeaves(ds, w, t, w');
      hide CallStep;
      hide Inv;
      AgainBecomes(rank, th, Top(w'.threads[t]).phase, w'.threads[t].pending);
    } else {
      hide Inv;
      CallStepBecomes(ds, w, t, w');
      hide CallStep;
      hide ActivationInv;
      hide Again;
      StrictBecomes(rank, th, Top(w'.threads[t]).phase, w'.threads[t].pending);
    }
  }

  lemma SuperCallDescends(ds: seq<Decl>, rank: Rank, th: Thread, s: nat)
    requires RankOk(ds, rank) && Descends(rank, th) && th.stack != [] && Top(th).phase.Super? && Top(th).cls < |ds|
    requires ds[Top(th).cls].super == Some(s) && !ds[Top(th).cls].isInterface
    ensures Descends(rank, Call(Become(th, SuperCall, th.pending), s))
    ensures SavesOne(Call(Become(th, SuperCall, th.pending), s))
  {
    var th1 := Become(th, SuperCall, th.pending);
    assert !Again(th) && !Again(th1) && Top(th1).cls == Top(th).cls;
    hide Again;
    StrictBecomes(rank, th, SuperCall, th.pending);
    hide Descends;
    hide Become;
    CallDescends(rank, th1, s);
  }

  lemma ReturnDescends(ds: seq<Decl>, rank: Rank, w: World, t: nat)
    requires t < |w.threads| && w.threads[t].stack != [] && Descends(rank, w.threads[t])
    requires ThreadInv(ds, w, t, w.threads[t])
    ensures Descends(rank, Return(w.threads[t])) && SavesOne(Return(w.threads[t]))
  {
    var th := w.threads[t];
    var n := |th.stack|;
    if n >= 2 {
      assert NestedPhase(th.stack[n - 2].phase);
    }
    hide ThreadInv;
    hide Again;
  }

  lemma QuietDescends(ds: seq<Decl>, rank: Rank, w: World, t: nat, w': World)
    requires RankOk(ds, rank) && Inv(ds, w) && QuietInv(ds, rank, w) && t < |w.threads| && QuietStep(ds, rank, w, t, w')
    ensures |w'.threads| == |w.threads|
    ensures forall u | 0 <= u < |w'.threads| :: Descends(rank, w'.threads[u]) && SavesOne(w'.threads[u])
  {
    OthersKept(ds, rank, w, t, w');
    hide Inv;
    hide Descends;
    hide SavesOne;
    assert Descends(rank, w.threads[t]) && SavesOne(w.threads[t]);
    forall u | 0 <= u < |w'.threads| ensures Descends(rank, w'.threads[u]) && SavesOne(w'.threads[u]) {
      if u != t {
        if w'.threads[u] != w.threads[u] {
          var c: nat :| w'.threads[u] == Wake(w.threads[u], c);
          OthersDescend(rank, w.threads[u], c);
        }
      } else if QuietCall(ds, w, t, w') {
        OwnDescends(ds, rank, w, t, w');
      } else if RankedCall(ds, rank, w, t, w') {
        var c: nat :| c < |ds| && MayAsk(rank, w.threads[t], c)
                      && w' == w.(threads := w.threads[t := Call(w.threads[t], c)]);
        assert !Again(w.threads[t]);
        CallDescends(rank, w.threads[t], c);
      } else if MonitorStep(w, t, w') {
        assert w'.threads == w.threads;
      } else if SpuriousWake(w, t, w') {
        var c: nat :| w' == w.(threads := w.threads[t := Wake(w.threads[t], c)]);
        OthersDescend(rank, w.threads[t], c);
      } else {
        ThrowDescends(rank, w, t, w');
      }
      hide CallStep;
    }
  }

  lemma ThrowDescends(rank: Rank, w: World, t: nat, w': World)
    requires JavaThrows(w, t, w') && Descends(rank, w.threads[t]) && SavesOne(w.threads[t])
    ensures Descends(rank, w'.threads[t]) && SavesOne(w'.threads[t])
  {
  }

  // The owners of locks.

  lemma OwnerStays(w: World, t: nat, w': World, v: nat, d: nat)
    requires ThreadsKept(w, t, w') && v != t && Owns(w, v, d)
    requires d < |w.classes| == |w'.classes| && w'.classes[d].count == w.classes[d].count
    ensures Owns(w', v, d) && (OwnsInCall(w, v, d) ==> OwnsInCall(w', v, d)) && w'.threads[v] == w.threads[v]
  {
  }

  /** The class of the stepping call: its lock is free, or held by a call in its critical section. */
  lemma OwnLock(ds: seq<Decl>, rank: Rank, w: World, t: nat, w': World)
    requires Inv(ds, w) && QuietInv(ds, rank, w) && QuietCall(ds, w, t, w')
    ensures var c := Top(w.threads[t]).cls;
            && |w'.classes| == |w.classes| && w'.classes == w.classes[c := w'.classes[c]]
            && (w'.classes[c].owner == Some(t) ==> OwnsInCall(w', t, c))
            && (w'.classes[c].owner.Some? && w'.classes[c].owner != Some(t) ==> w'.classes[c] == w.classes[c])
  {
    hide Inv;
    hide QuietInv;
    var act := Top(w.threads[t]);
    CallFacts(ds, rank, w, t);
    if !act.phase.Returned? && (act.phase.Super? ==> Ready(ds, w.classes, act.cls)) {
      CallStepBecomes(ds, w, t, w');
    }
  }

  /** What is known of the class that thread t's innermost call is about. */
  lemma CallFacts(ds: seq<Decl>, rank: Rank, w: World, t: nat)
    requires Inv(ds, w) && QuietInv(ds, rank, w) && InCall(ds, w, t) && (InJava(w.threads[t]) ==> HoldsNone(w, t))
    ensures var k, ph := w.classes[Top(w.threads[t]).cls], Top(w.threads[t]).phase;
            && (k.owner == Some(t) <==> Holds(ph)) && (k.owner == Some(t) ==> k.count == 1)
            && (k.owner.Some? <==> k.count > 0)
            && (ph.Waiting? || ph.Woken? ==> ph.saved == 1)
            && (ph.Claim? ==> k.flags.Linked?) && (Works(ph) ==> k.flags.Initing? && k.initing == t)
  {
    var th := w.threads[t];
    var act := Top(th);
    assert ThreadInv(ds, w, t, th) && ActivationInv(ds, w, t, act, th.pending) && ClassInv(w, act.cls) && SavesOne(th);
    assert w.classes[act.cls].owner == Some(t) ==> Owns(w, t, act.cls);
    hide Inv;
    hide QuietInv;
    hide ThreadInv;
  }

  lemma QuietOwners(ds: seq<Decl>, rank: Rank, w: World, t: nat, w': World)
    requires Inv(ds, w) && QuietInv(ds, rank, w) && t < |w.threads| && QuietStep(ds, rank, w, t, w')
    ensures |w'.classes| == |w.classes|
    ensures forall c: nat | c < |w'.classes| && w'.classes[c].owner.Some? :: Owns(w', w'.classes[c].owner.value, c)
  {
    hide *;
    Sizes(ds, w);
    OthersKept(ds, rank, w, t, w');
    forall c: nat | c < |w'.classes| && w'.classes[c].owner.Some? ensures Owns(w', w'.classes[c].owner.value, c) {
      if QuietCall(ds, w, t, w') {
        CallOwner(ds, rank, w, t, w', c);
      } else if MonitorStep(w, t, w') {
        MonitorOwner(ds, rank, w, t, w', c);
      } else {
        CalmStep(ds, rank, w, t, w');
        OwnerIs(ds, rank, w, c);
        CalmOwner(w, t, w', w.classes[c].owner.value, c);
      }
    }
  }

  lemma Sizes(ds: seq<Decl>, w: World)
    requires Inv(ds, w)
    ensures |w.classes| == |ds|
  {
  }

  // What holds of a single class or thread.

  lemma OwnerIs(ds: seq<Decl>, rank: Rank, w: World, c: nat)
    requires QuietInv(ds, rank, w) && c < |w.classes| && w.classes[c].owner.Some?
    ensures Owns(w, w.classes[c].owner.value, c)
  {
  }

  lemma WaitIs(ds: seq<Decl>, rank: Rank, w: World, v: nat)
    requires QuietInv(ds, rank, w) && v < |w.threads|
    ensures WaitOk(w, v)
  {
  }

  lemma WorkerIs(ds: seq<Decl>, rank: Rank, w: World, c: nat)
    requires QuietInv(ds, rank, w) && c < |w.classes| && w.classes[c].flags.Initing?
    ensures exists k: nat :: WorksOn(w, w.classes[c].initing, k, c)
  {
  }

  lemma CallOwner(ds: seq<Decl>, rank: Rank, w: World, t: nat, w': World, c: nat)
    requires Inv(ds, w) && QuietInv(ds, rank, w) && QuietCall(ds, w, t, w') && ThreadsKept(w, t, w')
    requires c < |w'.classes| && w'.classes[c].owner.Some?
    ensures Owns(w', w'.classes[c].owner.value, c)
  {
    hide Inv;
    hide QuietInv;
    hide CallStep;
    hide ThreadsKept;
    OwnLock(ds, rank, w, t, w');
    var v := w'.classes[c].owner.value;
    if w'.classes[c] == w.classes[c] {
      OwnerIs(ds, rank, w, c);
      if v != t {
        OwnerStays(w, t, w', v, c);
      } else {
        OwnerIsTop(w, t, c);
      }
    }
  }

  /** A step of Java code, or a spurious wake-up, changes no class and no call with a lock or at work. */
  lemma CalmStep(ds: seq<Decl>, rank: Rank, w: World, t: nat, w': World)
    requires t < |w.threads| && QuietStep(ds, rank, w, t, w') && !QuietCall(ds, w, t, w') && !MonitorStep(w, t, w')
    ensures IsCalm(w, t, w') && w'.classes == w.classes
  {
    hide CallStep;
    hide MayAsk;
  }

  predicate IsCalm(w: World, t: nat, w': World) {
    && t < |w.threads| && w'.classes == w.classes && |w'.threads| == |w.threads|
    && w'.threads == w.threads[t := w'.threads[t]]
    && (Waits(w', t) ==> Waits(w, t) && Top(w'.threads[t]) == Top(w.threads[t]))
    && (w.threads[t].stack != [] && Holds(Top(w.threads[t]).phase) ==> w'.threads[t].stack == w.threads[t].stack)
    && (InJava(w.threads[t]) && !HoldsNone(w, t) ==> w'.threads[t].stack == w.threads[t].stack)
    && (forall k | 0 <= k < |w.threads[t].stack| && Works(w.threads[t].stack[k].phase) ::
          k < |w'.threads[t].stack| && w'.threads[t].stack[k] == w.threads[t].stack[k])
  }

  lemma CalmOwner(w: World, t: nat, w': World, v: nat, c: nat)
    requires IsCalm(w, t, w') && Owns(w, v, c) && c < |w.classes| && w.classes[c].owner == Some(v)
    ensures Owns(w', v, c) && w'.threads[v].stack == w.threads[v].stack
    ensures OwnsInCall(w, v, c) ==> OwnsInCall(w', v, c)
  {
  }

  /** Java code takes a free monitor, or one it holds. */
  lemma MonitorKeeps(w: World, t: nat, w': World)
    requires MonitorStep(w, t, w')
    ensures t < |w.threads| && InJava(w.threads[t]) && w'.threads == w.threads && |w'.classes| == |w.classes|
    ensures forall c | 0 <= c < |w.classes| ::
              && w'.classes[c].flags == w.classes[c].flags && w'.classes[c].initing == w.classes[c].initing
              && (w'.classes[c] == w.classes[c]
                  || (w.classes[c].owner in {None, Some(t)} && w'.classes[c].owner in {None, Some(t)}))
  {
  }

  lemma MonitorOwner(ds: seq<Decl>, rank: Rank, w: World, t: nat, w': World, c: nat)
    requires QuietInv(ds, rank, w) && MonitorStep(w, t, w') && c < |w'.classes| && w'.classes[c].owner.Some?
    ensures Owns(w', w'.classes[c].owner.value, c)
  {
    hide QuietInv;
    hide MonitorStep;
    MonitorKeeps(w, t, w');
    if w'.classes[c] == w.classes[c] {
      OwnerIs(ds, rank, w, c);
    }
  }

  lemma MonitorWait(w: World, t: nat, w': World, v: nat)
    requires MonitorStep(w, t, w') && WaitOk(w, v)
    ensures WaitOk(w', v)
  {
    hide MonitorStep;
    MonitorKeeps(w, t, w');
  }

  lemma MonitorWorker(ds: seq<Decl>, rank: Rank, w: World, t: nat, w': World, c: nat)
    requires QuietInv(ds, rank, w) && MonitorStep(w, t, w') && c < |w'.classes| && w'.classes[c].flags.Initing?
    ensures exists k: nat :: WorksOn(w', w'.classes[c].initing, k, c)
  {
    hide QuietInv;
    hide MonitorStep;
    MonitorKeeps(w, t, w');
    WorkerIs(ds, rank, w, c);
    var k: nat :| WorksOn(w, w.classes[c].initing, k, c);
    assert WorksOn(w', w.classes[c].initing, k, c);
  }

  lemma CalmWait(w: World, t: nat, w': World, v: nat)
    requires IsCalm(w, t, w') && WaitOk(w, v) && v < |w.threads|
    ensures WaitOk(w', v)
  {
    if Waits(w', v) {
      var c := Top(w'.threads[v]).cls;
      assert Waits(w, v) && Top(w.threads[v]).cls == c;
      if w.classes[c].owner.Some? && OwnsInCall(w, w.classes[c].owner.value, c) {
        CalmOwner(w, t, w', w.classes[c].owner.value, c);
      }
      hide IsCalm;
    }
  }

  lemma CalmWork(w: World, t: nat, w': World, k: nat, c: nat)
    requires IsCalm(w, t, w') && WorksOn(w, t, k, c)
    ensures WorksOn(w', t, k, c)
  {
  }

  // The waiting threads.

  /** A call changes flags only under the lock, and the one that settles a class notifies next. */
  lemma OwnFlags(ds: seq<Decl>, rank: Rank, w: World, t: nat, w': World)
    requires Inv(ds, w) && QuietInv(ds, rank, w) && QuietCall(ds, w, t, w')
    ensures var c := Top(w.threads[t]).cls;
            var k, k' := w.classes[c], w'.classes[c];
            && |w'.classes| == |w.classes| && w'.classes == w.classes[c := k'] && |w'.threads| == |w.threads|
            && (k'.flags != k.flags || k'.initing != k.initing ==>
                 k.owner == Some(t) && !Top(w.threads[t]).phase.Notify?)
            && (k'.initing != k.initing ==> k.flags.Linked?)
            && (k'.flags != k.flags && k.flags.Initing? ==>
                  OwnsInCall(w', t, c) && k'.owner == Some(t) && Top(w'.threads[t]).phase.Notify?)
  {
    hide Inv;
    hide QuietInv;
    var act := Top(w.threads[t]);
    CallFacts(ds, rank, w, t);
    if !act.phase.Returned? && (act.phase.Super? ==> Ready(ds, w.classes, act.cls)) {
      CallStepBecomes(ds, w, t, w');
    }
  }

  /** A thread starts to wait while another initialises the class; a notification leaves nobody waiting. */
  lemma OwnWaits(ds: seq<Decl>, w: World, t: nat, w': World)
    requires Inv(ds, w) && CallStep(ds, w, t, w')
    ensures var c := Top(w.threads[t]).cls;
            && |w'.classes| == |w.classes| && |w'.threads| == |w.threads|
            && (Top(w.threads[t]).phase.Notify? ==> forall v: nat | Waits(w', v) :: Top(w'.threads[v]).cls != c)
            && (Waits(w', t) ==>
                  w'.classes[c].flags.Initing? && w'.classes[c].initing != t && Top(w'.threads[t]).cls == c)
  {
    var act := Top(w.threads[t]);
    assert ThreadInv(ds, w, t, w.threads[t]);
    hide Inv;
    if act.phase.Returned? {
      ReturnWaits(ds, w, t, w');
    } else if act.phase.Notify? {
      hide ThreadInv;
    } else {
      hide ThreadInv;
      hide Wake;
      if act.phase.Super? ==> Ready(ds, w.classes, act.cls) {
        CallStepBecomes(ds, w, t, w');
      }
    }
  }

  lemma ReturnWaits(ds: seq<Decl>, w: World, t: nat, w': World)
    requires CallStep(ds, w, t, w') && Top(w.threads[t]).phase.Returned? && ThreadInv(ds, w, t, w.threads[t])
    ensures |w'.classes| == |w.classes| && |w'.threads| == |w.threads| && !Waits(w', t)
  {
    var th := w.threads[t];
    if |th.stack| >= 2 {
      assert NestedPhase(th.stack[|th.stack| - 2].phase);
    }
    hide ThreadInv;
  }

  lemma WaitStays(ds: seq<Decl>, rank: Rank, w: World, t: nat, w': World, v: nat)
    requires Inv(ds, w) && QuietInv(ds, rank, w) && QuietCall(ds, w, t, w')
    requires v != t && WaitOk(w, v) && ThreadsKept(w, t, w')
    ensures WaitOk(w', v)
  {
    hide Inv;
    hide QuietInv;
    hide CallStep;
    hide OwnsInCall;
    OwnFlags(ds, rank, w, t, w');
    OwnWaits(ds, w, t, w');
    if Waits(w', v) {
      var d := Top(w'.threads[v]).cls;
      assert w'.threads[v] == w.threads[v] && Waits(w, v);
      if w.classes[d].owner.Some? && w.classes[d].owner.value != t && OwnsInCall(w, w.classes[d].owner.value, d) {
        NotifierStays(ds, rank, w, t, w', w.classes[d].owner.value, d);
      } else if w.classes[d].owner == Some(t) {
        OwnerIsTop(w, t, d);
      }
    }
  }

  lemma OwnerIsTop(w: World, t: nat, d: nat)
    ensures OwnsInCall(w, t, d) ==> t < |w.threads| && w.threads[t].stack != [] && Top(w.threads[t]).cls == d
  {
  }

  /** Another thread in its critical section keeps the lock. */
  lemma NotifierStays(ds: seq<Decl>, rank: Rank, w: World, t: nat, w': World, u: nat, d: nat)
    requires Inv(ds, w) && QuietInv(ds, rank, w) && QuietCall(ds, w, t, w')
    requires u != t && ThreadsKept(w, t, w') && OwnsInCall(w, u, d) && w.classes[d].owner == Some(u)
    ensures d < |w'.classes| && w'.classes[d] == w.classes[d] && OwnsInCall(w', u, d) && w'.threads[u] == w.threads[u]
  {
    hide QuietInv;
    hide Inv;
    CallFacts(ds, rank, w, t);
    OwnLock(ds, rank, w, t, w');
    if Top(w.threads[t]).cls == d {
      OnlyOwnClass(ds, w, t, w');
    }
    hide CallStep;
    OwnerStays(w, t, w', u, d);
  }

  /** A call touches the class of another owner only by reading. */
  lemma OnlyOwnClass(ds: seq<Decl>, w: World, t: nat, w': World)
    requires InCall(ds, w, t) && CallStep(ds, w, t, w')
    requires !Holds(Top(w.threads[t]).phase)
    ensures var k := w.classes[Top(w.threads[t]).cls];
            |w'.classes| == |w.classes| && (k.owner.Some? && k.owner.value != t ==> w'.classes == w.classes)
  {
    hide Become;
    hide Call;
    hide Return;
    hide Wake;
  }

  lemma QuietWaits(ds: seq<Decl>, rank: Rank, w: World, t: nat, w': World)
    requires Inv(ds, w) && QuietInv(ds, rank, w) && t < |w.threads| && QuietStep(ds, rank, w, t, w')
    ensures forall v: nat | v < |w'.threads| :: WaitOk(w', v)
  {
    hide *;
    Sizes(ds, w);
    OthersKept(ds, rank, w, t, w');
    ThreadsCount(w, t, w');
    forall v: nat | v < |w'.threads| ensures WaitOk(w', v) {
      WaitIs(ds, rank, w, v);
      if QuietCall(ds, w, t, w') {
        if v == t {
          OwnWaitOk(ds, w, t, w');
        } else {
          WaitStays(ds, rank, w, t, w', v);
        }
      } else if MonitorStep(w, t, w') {
        MonitorWait(w, t, w', v);
      } else {
        CalmStep(ds, rank, w, t, w');
        CalmWait(w, t, w', v);
      }
    }
  }

  lemma ThreadsCount(w: World, t: nat, w': World)
    requires ThreadsKept(w, t, w')
    ensures t < |w'.threads| == |w.threads|
  {
  }

  lemma OwnWaitOk(ds: seq<Decl>, w: World, t: nat, w': World)
    requires Inv(ds, w) && QuietCall(ds, w, t, w')
    ensures WaitOk(w', t)
  {
    hide Inv;
    hide CallStep;
    OwnWaits(ds, w, t, w');
  }

  // The initialising threads.

  lemma WorkStays(w: World, t: nat, w': World, v: nat, k: nat, c: nat)
    requires ThreadsKept(w, t, w') && v != t && WorksOn(w, v, k, c)
    ensures WorksOn(w', v, k, c)
  {
  }

  lemma OwnWork(ds: seq<Decl>, w: World, t: nat, w': World, k: nat, c: nat)
    requires Inv(ds, w) && CallStep(ds, w, t, w') && c < |w.classes| && WorksOn(w, t, k, c)
    ensures |w'.classes| == |w.classes| && |w'.threads| == |w.threads|
    ensures w'.classes[c].flags.Initing? ==> exists n: nat :: WorksOn(w', t, n, c)
  {
    var th := w.threads[t];
    var act := Top(th);
    assert ThreadInv(ds, w, t, th) && ActivationInv(ds, w, t, act, th.pending);
    hide Inv;
    hide ThreadInv;
    hide ActivationInv;
    if act.phase.Returned? {
      assert WorksOn(w', t, k, c);
    } else {
      if act.phase.Super? ==> Ready(ds, w.classes, act.cls) {
        CallStepBecomes(ds, w, t, w');
        if k == |th.stack| - 1 {
          hide Wake;
          if w'.classes[c].flags.Initing? {
            assert Works(Top(w'.threads[t]).phase);
            assert WorksOn(w', t, k, c);
          }
        } else {
          assert WorksOn(w', t, k, c);
        }
      } else {
        assert WorksOn(w', t, k, c);
      }
    }
  }

  /** A class is newly claimed by the stepping call only. */
  lemma NewClaim(ds: seq<Decl>, w: World, t: nat, w': World, c: nat)
    requires CallStep(ds, w, t, w') && c < |w.classes| == |w'.classes| && w'.classes[c].flags.Initing?
    requires !w.classes[c].flags.Initing? || w'.classes[c].initing != w.classes[c].initing
    ensures Top(w.threads[t]) == Activation(c, Claim) && w'.classes[c].initing == t
  {
    hide Become;
    hide Call;
    hide Return;
    hide Wake;
    hide Ready;
  }

  lemma NewWork(ds: seq<Decl>, w: World, t: nat, w': World, c: nat)
    requires CallStep(ds, w, t, w') && c < |w.classes| == |w'.classes| && w'.classes[c].flags.Initing?
    requires !w.classes[c].flags.Initing? || w'.classes[c].initing != w.classes[c].initing
    ensures w'.classes[c].initing == t && exists n: nat :: WorksOn(w', t, n, c)
  {
    NewClaim(ds, w, t, w', c);
    assert WorksOn(w', t, |w.threads[t].stack| - 1, c);
  }

  lemma QuietWorkers(ds: seq<Decl>, rank: Rank, w: World, t: nat, w': World)
    requires Inv(ds, w) && QuietInv(ds, rank, w) && t < |w.threads| && QuietStep(ds, rank, w, t, w')
    ensures |w'.classes| == |w.classes|
    ensures forall c: nat | c < |w'.classes| && w'.classes[c].flags.Initing? ::
              exists k: nat :: WorksOn(w', w'.classes[c].initing, k, c)
  {
    hide *;
    Sizes(ds, w);
    OthersKept(ds, rank, w, t, w');
    forall c: nat | c < |w'.classes| && w'.classes[c].flags.Initing?
      ensures exists k: nat :: WorksOn(w', w'.classes[c].initing, k, c)
    {
      if QuietCall(ds, w, t, w') {
        CallWorker(ds, rank, w, t, w', c);
      } else if MonitorStep(w, t, w') {
        MonitorWorker(ds, rank, w, t, w', c);
      } else {
        CalmStep(ds, rank, w, t, w');
        CalmWorker(ds, rank, w, t, w', c);
      }
    }
  }

  lemma CalmWorker(ds: seq<Decl>, rank: Rank, w: World, t: nat, w': World, c: nat)
    requires QuietInv(ds, rank, w) && IsCalm(w, t, w') && ThreadsKept(w, t, w')
    requires c < |w'.classes| && w'.classes[c].flags.Initing?
    ensures exists k: nat :: WorksOn(w', w'.classes[c].initing, k, c)
  {
    hide QuietInv;
    hide ThreadsKept;
    WorkerIs(ds, rank, w, c);
    var u := w.classes[c].initing;
    var k: nat :| WorksOn(w, u, k, c);
    if u != t {
      WorkStays(w, t, w', u, k, c);
    } else {
      CalmWork(w, t, w', k, c);
    }
  }

  lemma CallWorker(ds: seq<Decl>, rank: Rank, w: World, t: nat, w': World, c: nat)
    requires Inv(ds, w) && QuietInv(ds, rank, w) && QuietCall(ds, w, t, w') && ThreadsKept(w, t, w')
    requires c < |w'.classes| == |w.classes| && w'.classes[c].flags.Initing?
    ensures exists k: nat :: WorksOn(w', w'.classes[c].initing, k, c)
  {
    hide Inv;
    hide QuietInv;
    hide CallStep;
    hide ThreadsKept;
    var u := w'.classes[c].initing;
    if !w.classes[c].flags.Initing? || u != w.classes[c].initing {
      NewWork(ds, w, t, w', c);
    } else {
      WorkerIs(ds, rank, w, c);
      var k: nat :| WorksOn(w, u, k, c);
      if u != t {
        WorkStays(w, t, w', u, k, c);
      } else {
        OwnWork(ds, w, t, w', k, c);
      }
    }
  }

  lemma QuietKeeps(ds: seq<Decl>, rank: Rank, w: World, w': World)
    requires DeclsOk(ds) && RankOk(ds, rank) && Inv(ds, w) && QuietInv(ds, rank, w) && QuietNext(ds, rank, w, w')
    ensures Inv(ds, w') && QuietInv(ds, rank, w')
  {
    hide Inv;
    hide QuietStep;
    var t: nat :| t < |w.threads| && QuietStep(ds, rank, w, t, w');
    QuietDescends(ds, rank, w, t, w');
    QuietOwners(ds, rank, w, t, w');
    QuietWaits(ds, rank, w, t, w');
    QuietWorkers(ds, rank, w, t, w');
    QuietIsAStep(ds, rank, w, t, w');
    StepKeepsInv(ds, w, t, w');
    hide StepOf;
    hide Descends;
    hide WaitOk;
    hide OwnsInCall;
    hide WorksOn;
  }

  lemma QuietIsAStep(ds: seq<Decl>, rank: Rank, w: World, t: nat, w': World)
    requires |w.classes| == |ds| && QuietStep(ds, rank, w, t, w')
    ensures StepOf(ds, w, t, w')
  {
    hide CallStep;
    hide MayAsk;
    if RankedCall(ds, rank, w, t, w') {
      var c: nat :| c < |ds| && MayAsk(rank, w.threads[t], c)
                    && w' == w.(threads := w.threads[t := Call(w.threads[t], c)]);
      assert JavaCalls(ds, w, t, w');
    }
  }

  lemma {:induction false} QuietRunInv(ds: seq<Decl>, rank: Rank, run: seq<World>, i: nat)
    requires IsQuietRun(ds, rank, run) && i < |run|
    ensures Inv(ds, run[i]) && QuietInv(ds, rank, run[i])
  {
    hide QuietStep;
    if i > 0 {
      hide Inv;
      hide QuietInv;
      QuietRunInv(ds, rank, run, i - 1);
      assert QuietNext(ds, rank, run[i - 1], run[i - 1 + 1]);
      QuietKeeps(ds, rank, run[i - 1], run[i]);
    }
  }

  /** Java code that holds a class's monitor can release it. */
  lemma CanRelease(w: World, u: nat) returns (w': World)
    requires u < |w.threads| && InJava(w.threads[u]) && !HoldsNone(w, u)
    ensures JavaUnlocks(w, u, w')
  {
    var c: nat :| c < |w.classes| && w.classes[c].owner == Some(u);
    w' := w.(classes := w.classes[c := Unlock(w.classes[c])]);
  }

  /** Under the two conditions initClass cannot deadlock: as long as any call is in progress, some call
      can take its next step, without a spurious wake-up, or Java code can release a class's monitor. */
  lemma InitialisationCannotDeadlock(ds: seq<Decl>, rank: Rank, run: seq<World>, i: nat, t: nat)
      returns (u: nat, w': World)
    requires IsQuietRun(ds, rank, run) && i < |run| && t < |run[i].threads| && run[i].threads[t].stack != []
    ensures CallStep(ds, run[i], u, w') || JavaUnlocks(run[i], u, w')
  {
    QuietRunInv(ds, rank, run, i);
    hide IsQuietRun;
    hide HoldsNone;
    u := SomeoneIsEnabled(ds, rank, run[i], t);
    if InCall(ds, run[i], u) && Enabled(ds, run[i], u) {
      w' := After(ds, run[i], u);
    } else {
      w' := CanRelease(run[i], u);
    }
  }

  // ----- who may ask for whom -----

  /** Which static initialiser may ask for which class, and whether Java code may hold the monitor of a class
      when it asks for one or when a static initialiser ends. */
  datatype Rules = Rules(asks: set<(nat, nat)>, holding: bool)

  predicate Free(rules: Rules, w: World, t: nat) {
    rules.holding || HoldsNone(w, t)
  }

  ghost predicate AskedCall(ds: seq<Decl>, rules: Rules, w: World, t: nat, w': World) {
    && t < |w.threads| && InJava(w.threads[t]) && !w.threads[t].pending && Free(rules, w, t)
    && exists c: nat :: c < |ds| && (w.threads[t].stack == [] || (Top(w.threads[t]).cls, c) in rules.asks)
         && w' == w.(threads := w.threads[t := Call(w.threads[t], c)])
  }

  ghost predicate RuledStep(ds: seq<Decl>, rules: Rules, w: World, t: nat, w': World) {
    || (CallStep(ds, w, t, w') && (InJava(w.threads[t]) ==> Free(rules, w, t))) || AskedCall(ds, rules, w, t, w')
    || JavaThrows(w, t, w') || MonitorStep(w, t, w') || SpuriousWake(w, t, w')
  }

  ghost predicate RuledNext(ds: seq<Decl>, rules: Rules, w: World, w': World) {
    |w.classes| == |ds| && exists t: nat :: t < |w.threads| && RuledStep(ds, rules, w, t, w')
  }

  ghost predicate IsRuledRun(ds: seq<Decl>, rules: Rules, run: seq<World>) {
    && DeclsOk(ds) && run != [] && Init(ds, run[0])
    && forall i: nat | i + 1 < |run| :: RuledNext(ds, rules, run[i], run[i + 1])
  }

  lemma RuledRunIsRun(ds: seq<Decl>, rules: Rules, run: seq<World>)
    requires IsRuledRun(ds, rules, run)
    ensures IsRun(ds, run)
  {
    hide CallStep;
    hide JavaThrows;
    hide SpuriousWake;
    hide JavaLocks;
    hide JavaUnlocks;
    forall i: nat | i + 1 < |run| ensures Next(ds, run[i], run[i + 1]) {
      var w, w' := run[i], run[i + 1];
      assert RuledNext(ds, rules, w, w');
      var t: nat :| t < |w.threads| && RuledStep(ds, rules, w, t, w');
      if AskedCall(ds, rules, w, t, w') {
        assert JavaCalls(ds, w, t, w');
      }
      assert StepOf(ds, w, t, w');
    }
  }

  /** To initialise class c, class d may have to be initialised. */
  predicate Needs(ds: seq<Decl>, asks: set<(nat, nat)>, c: nat, d: nat) {
    && c < |ds| && d < |ds|
    && ((!ds[c].isInterface && ds[c].super == Some(d)) || (c != d && (c, d) in asks))
  }

  /** Superclasses come first, and what a static initialiser asks for comes before its class. */
  ghost predicate Ranks(ds: seq<Decl>, asks: set<(nat, nat)>, rank: Rank) {
    forall c: nat, d: nat :: Needs(ds, asks, c, d) ==> rank(d) < rank(c)
  }

  /** Only classes with a static initialiser ask. */
  predicate AskersHaveClinit(ds: seq<Decl>, asks: set<(nat, nat)>) {
    forall p | p in asks :: p.0 < |ds| && p.1 < |ds| && ds[p.0].hasClinit
  }

  /** Some call is in progress, none can step, and no Java code can release a class's monitor. */
  ghost predicate Deadlocked(ds: seq<Decl>, w: World) {
    && (exists t | 0 <= t < |w.threads| :: w.threads[t].stack != [])
    && forall t: nat, w' :: !CallStep(ds, w, t, w') && !JavaUnlocks(w, t, w')
  }

  ghost predicate CanDeadlock(ds: seq<Decl>, rules: Rules) {
    exists run :: IsRuledRun(ds, rules, run) && Deadlocked(ds, Last(run))
  }

  function Last(run: seq<World>): World
    requires run != []
  {
    run[|run| - 1]
  }

  /** If the classes can be ranked, the runs are among those that cannot deadlock. */
  lemma RankedIsQuiet(ds: seq<Decl>, asks: set<(nat, nat)>, rank: Rank, run: seq<World>)
    requires IsRuledRun(ds, Rules(asks, false), run) && Ranks(ds, asks, rank) && AskersHaveClinit(ds, asks)
    ensures IsQuietRun(ds, rank, run)
  {
    assert RankOk(ds, rank) by {
      forall c: nat | c < |ds| && ds[c].super.Some? && !ds[c].isInterface ensures rank(ds[c].super.value) < rank(c) {
        assert Needs(ds, asks, c, ds[c].super.value);
      }
    }
    forall i: nat | i + 1 < |run| ensures QuietNext(ds, rank, run[i], run[i + 1]) {
      assert RuledNext(ds, Rules(asks, false), run[i], run[i + 1]);
      RankedStepIsQuiet(ds, asks, rank, run[i], run[i + 1]);
    }
  }

  lemma RankedStepIsQuiet(ds: seq<Decl>, asks: set<(nat, nat)>, rank: Rank, w: World, w': World)
    requires RuledNext(ds, Rules(asks, false), w, w') && Ranks(ds, asks, rank) && AskersHaveClinit(ds, asks)
    ensures QuietNext(ds, rank, w, w')
  {
    hide CallStep;
    hide JavaThrows;
    hide SpuriousWake;
    var t: nat :| t < |w.threads| && RuledStep(ds, Rules(asks, false), w, t, w');
    if AskedCall(ds, Rules(asks, false), w, t, w') {
      var th := w.threads[t];
      var c: nat :| c < |ds| && (th.stack == [] || (Top(th).cls, c) in asks)
                    && w' == w.(threads := w.threads[t := Call(th, c)]);
      AskIsRanked(ds, asks, rank, th, c);
      assert RankedCall(ds, rank, w, t, w');
    }
    assert QuietStep(ds, rank, w, t, w');
  }

  /** A static initialiser that asks for its own class finds it in its thread's hands. */
  lemma AskIsRanked(ds: seq<Decl>, asks: set<(nat, nat)>, rank: Rank, th: Thread, c: nat)
    requires Ranks(ds, asks, rank) && AskersHaveClinit(ds, asks) && InJava(th) && c < |ds|
    requires th.stack == [] || (Top(th).cls, c) in asks
    ensures MayAsk(rank, th, c)
  {
    if th.stack != [] {
      if Top(th).cls == c {
        assert Initialises(th, |th.stack| - 1, c);
      } else {
        assert Needs(ds, asks, Top(th).cls, c);
      }
    }
  }

  lemma RankedCannotDeadlock(ds: seq<Decl>, asks: set<(nat, nat)>, rank: Rank)
    requires Ranks(ds, asks, rank) && AskersHaveClinit(ds, asks)
    ensures !CanDeadlock(ds, Rules(asks, false))
  {
    if CanDeadlock(ds, Rules(asks, false)) {
      var run :| IsRuledRun(ds, Rules(asks, false), run) && Deadlocked(ds, Last(run));
      RankedIsQuiet(ds, asks, rank, run);
      var w := Last(run);
      var t :| 0 <= t < |w.threads| && w.threads[t].stack != [];
      var u, w' := InitialisationCannotDeadlock(ds, rank, run, |run| - 1, t);
    }
  }

  /** If no static initialiser asks for anything, the order of loading is a rank. */
  lemma LoadingOrderRanks(ds: seq<Decl>)
    requires DeclsOk(ds)
    ensures Ranks(ds, {}, c => c)
  {
  }

  lemma OutermostCallsCannotDeadlock(ds: seq<Decl>)
    requires DeclsOk(ds)
    ensures !CanDeadlock(ds, Rules({}, false))
  {
    LoadingOrderRanks(ds);
    RankedCannotDeadlock(ds, {}, c => c);
  }

  // ----- ranking the classes, as far as possible -----

  /** The classes in `done` need only one another, and are ranked. */
  ghost predicate RankedSet(ds: seq<Decl>, asks: set<(nat, nat)>, done: set<nat>, rank: Rank) {
    && (forall c | c in done :: c < |ds| && rank(c) < |done|)
    && (forall c: nat, d: nat :: c in done && Needs(ds, asks, c, d) ==> d in done && rank(d) < rank(c))
  }

  /** Class c needs a class outside `done`. */
  ghost predicate Needy(ds: seq<Decl>, asks: set<(nat, nat)>, done: set<nat>, c: nat) {
    exists d: nat :: Needs(ds, asks, c, d) && d !in done
  }

  /** Every class outside `done` needs another one there. */
  ghost predicate Knotted(ds: seq<Decl>, asks: set<(nat, nat)>, done: set<nat>) {
    forall c: nat | c < |ds| && c !in done :: Needy(ds, asks, done, c)
  }

  lemma RankOneMore(ds: seq<Decl>, asks: set<(nat, nat)>, done: set<nat>, rank: Rank, c: nat) returns (rank': Rank)
    requires RankedSet(ds, asks, done, rank) && c < |ds| && c !in done && !Needy(ds, asks, done, c)
    ensures RankedSet(ds, asks, done + {c}, rank')
  {
    rank' := x => if x == c then |done| else rank(x);
    forall a: nat, b: nat | a in done + {c} && Needs(ds, asks, a, b) ensures b in done + {c} && rank'(b) < rank'(a) {
      assert b in done;
    }
  }

  /** Rank classes that need only ranked ones as long as there are any. */
  lemma {:induction false} RankOrKnot(ds: seq<Decl>, asks: set<(nat, nat)>, done: set<nat>, rank: Rank)
      returns (done': set<nat>, rank': Rank)
    requires RankedSet(ds, asks, done, rank)
    ensures RankedSet(ds, asks, done', rank') && Knotted(ds, asks, done')
    decreases |Numbers(|ds|) - done|
  {
    if Knotted(ds, asks, done) {
      done', rank' := done, rank;
    } else {
      var c: nat :| c < |ds| && c !in done && !Needy(ds, asks, done, c);
      rank' := RankOneMore(ds, asks, done, rank, c);
      assert Numbers(|ds|) - done == Numbers(|ds|) - (done + {c}) + {c};
      done', rank' := RankOrKnot(ds, asks, done + {c}, rank');
    }
  }

  function Numbers(n: nat): (r: set<nat>)
    ensures forall c :: c in r <==> 0 <= c < n
  {
    if n == 0 then {} else Numbers(n - 1) + {n - 1}
  }

  // ----- runs into a deadlock -----

  lemma Extend(ds: seq<Decl>, rules: Rules, run: seq<World>, t: nat, w': World)
    requires IsRuledRun(ds, rules, run) && |Last(run).classes| == |ds|
    requires t < |Last(run).threads| && RuledStep(ds, rules, Last(run), t, w')
    ensures IsRuledRun(ds, rules, run + [w'])
  {
    hide RuledStep;
    hide Init;
    var run' := run + [w'];
    forall i: nat | i + 1 < |run'| ensures RuledNext(ds, rules, run'[i], run'[i + 1]) {
      if i + 1 < |run| {
        assert RuledNext(ds, rules, run[i], run[i + 1]);
      }
    }
  }

  /** A step of thread t's innermost call from one point to another, and what becomes of the class. */
  predicate Moves(d: Decl, ready: bool, t: nat, k: Class, ph: Phase, k': Class, ph': Phase) {
    match ph
    case Enter => CanLock(k, t) && k' == Lock(k, t) && ph' == Test
    case Test =>
      (k.flags.Initing? && k.initing != t && k' == k.(owner := None, count := 0) && ph' == Waiting(k.count))
      || (k.flags.Linked? && k' == k && ph' == Claim)
    case Claim => k' == k.(flags := Initing, initing := t) && ph' == Claimed
    case Claimed => k' == Unlock(k) && ph' == Super
    case Super => ready && k' == k && ph' == Clinit
    case Clinit => k' == k && ph' == if d.hasClinit then Running else Check
    case Running => k' == k && ph' == Check
    case Check => k' == k && ph' == SuccessLock
    case SuccessLock => CanLock(k, t) && k' == Lock(k, t) && ph' == SetInited
    case SetInited => k' == k.(flags := Inited) && ph' == Notify
    case Leave => k' == Unlock(k) && ph' == Returned
    case _ => false
  }

  lemma MovesAreSteps(ds: seq<Decl>, w: World, t: nat, k: Class, outer: seq<Activation>, c: nat, ph: Phase, ph': Phase)
    requires |w.classes| == |ds| && t < |w.threads| && c < |ds| && w.threads[t] == InCallAt(outer, c, ph)
    requires Moves(ds[c], Ready(ds, w.classes, c), t, w.classes[c], ph, k, ph')
    ensures InCall(ds, w, t) && Enabled(ds, w, t) && (InJava(w.threads[t]) ==> ph.Running?)
    ensures var w' := After(ds, w, t);
            w'.classes == w.classes[c := k] && w'.threads == w.threads[t := InCallAt(outer, c, ph')]
  {
    hide Ready;
    assert Become(w.threads[t], ph', false).stack == outer + [Activation(c, ph')];
  }

  /** The next step of thread t, from one point of its innermost call to another. */
  lemma Go(ds: seq<Decl>, rules: Rules, run: seq<World>, t: nat, k: Class, outer: seq<Activation>, c: nat,
      ph: Phase, ph': Phase)
      returns (run': seq<World>)
    requires IsRuledRun(ds, rules, run) && |Last(run).classes| == |ds| && t < |Last(run).threads| && c < |ds|
    requires Last(run).threads[t] == InCallAt(outer, c, ph)
    requires Moves(ds[c], Ready(ds, Last(run).classes, c), t, Last(run).classes[c], ph, k, ph')
    requires ph.Running? ==> Free(rules, Last(run), t)
    ensures IsRuledRun(ds, rules, run')
    ensures var w, w' := Last(run), Last(run');
            w'.classes == w.classes[c := k] && w'.threads == w.threads[t := InCallAt(outer, c, ph')]
  {
    hide Moves;
    hide After;
    hide Enabled;
    hide InCall;
    hide Ready;
    hide Free;
    var w := Last(run);
    hide IsRuledRun;
    MovesAreSteps(ds, w, t, k, outer, c, ph, ph');
    var w' := After(ds, w, t);
    Extend(ds, rules, run, t, w');
    run' := run + [w'];
  }

  function InCallAt(outer: seq<Activation>, c: nat, ph: Phase): Thread {
    Thread(outer + [Activation(c, ph)], false)
  }

  predicate Sized(ds: seq<Decl>, w: World, t: nat, c: nat) {
    |w.classes| == |ds| && t < |w.threads| && c < |ds|
  }

  /** The innermost call of thread t, for class c whose lock is free, gets to the test. */
  lemma EnterToTest(ds: seq<Decl>, rules: Rules, run: seq<World>, t: nat, outer: seq<Activation>, c: nat)
      returns (run': seq<World>)
    requires IsRuledRun(ds, rules, run) && Sized(ds, Last(run), t, c)
    requires Last(run).threads[t] == InCallAt(outer, c, Enter)
    requires Last(run).classes[c].owner == None && Last(run).classes[c].count == 0
    ensures IsRuledRun(ds, rules, run')
    ensures var w, w' := Last(run), Last(run');
            && w'.threads == w.threads[t := InCallAt(outer, c, Test)]
            && w'.classes == w.classes[c := w.classes[c].(owner := Some(t), count := 1)]
  {
    var k := Last(run).classes[c];
    hide IsRuledRun;
    run' := Go(ds, rules, run, t, Lock(k, t), outer, c, Enter, Test);
  }

  /** Java code in thread t asks for class c. */
  lemma Ask(ds: seq<Decl>, rules: Rules, run: seq<World>, t: nat, c: nat) returns (run': seq<World>)
    requires IsRuledRun(ds, rules, run) && Sized(ds, Last(run), t, c) && Free(rules, Last(run), t)
    requires InJava(Last(run).threads[t]) && !Last(run).threads[t].pending
    requires Last(run).threads[t].stack == [] || (Top(Last(run).threads[t]).cls, c) in rules.asks
    ensures IsRuledRun(ds, rules, run')
    ensures var w, w' := Last(run), Last(run');
            w'.threads == w.threads[t := InCallAt(w.threads[t].stack, c, Enter)] && w'.classes == w.classes
  {
    var w := Last(run);
    hide IsRuledRun;
    var w' := w.(threads := w.threads[t := Call(w.threads[t], c)]);
    assert AskedCall(ds, rules, w, t, w');
    Extend(ds, rules, run, t, w');
    run' := run + [w'];
  }

  /** Thread t, between calls, claims class c and lets go of its lock. */
  lemma ReachSuper(ds: seq<Decl>, rules: Rules, run: seq<World>, t: nat, c: nat) returns (run': seq<World>)
    requires IsRuledRun(ds, rules, run) && Sized(ds, Last(run), t, c) && Free(rules, Last(run), t)
    requires Last(run).threads[t] == IDLE && Last(run).classes[c] == Class(Linked, 0, None, 0)
    ensures IsRuledRun(ds, rules, run')
    ensures var w, w' := Last(run), Last(run');
            && w'.threads == w.threads[t := InCallAt([], c, Super)]
            && w'.classes == w.classes[c := Class(Initing, t, None, 0)]
  {
    hide IsRuledRun;
    hide Ready;
    run' := Ask(ds, rules, run, t, c);
    run' := EnterToTest(ds, rules, run', t, [], c);
    run' := Go(ds, rules, run', t, Class(Linked, 0, Some(t), 1), [], c, Test, Claim);
    run' := Go(ds, rules, run', t, Class(Initing, t, Some(t), 1), [], c, Claim, Claimed);
    run' := Go(ds, rules, run', t, Class(Initing, t, None, 0), [], c, Claimed, Super);
  }

  /** The innermost call of thread t, for a class that another thread is initialising, waits. */
  lemma EnterToWait(ds: seq<Decl>, rules: Rules, run: seq<World>, t: nat, outer: seq<Activation>, c: nat)
      returns (run': seq<World>)
    requires IsRuledRun(ds, rules, run) && Sized(ds, Last(run), t, c)
    requires Last(run).threads[t] == InCallAt(outer, c, Enter)
    requires var k := Last(run).classes[c]; k.flags.Initing? && k.initing != t && k.owner == None && k.count == 0
    ensures IsRuledRun(ds, rules, run')
    ensures var w, w' := Last(run), Last(run');
            w'.threads == w.threads[t := InCallAt(outer, c, Waiting(1))] && w'.classes == w.classes
  {
    var k := Last(run).classes[c];
    hide IsRuledRun;
    hide Ready;
    run' := EnterToTest(ds, rules, run, t, outer, c);
    run' := Go(ds, rules, run', t, k, outer, c, Test, Waiting(1));
  }

  /** The static initialiser that thread t runs. */
  lemma ReachClinit(ds: seq<Decl>, rules: Rules, run: seq<World>, t: nat, c: nat) returns (run': seq<World>)
    requires IsRuledRun(ds, rules, run) && Sized(ds, Last(run), t, c)
    requires Last(run).threads[t] == InCallAt([], c, Super) && Ready(ds, Last(run).classes, c)
    ensures IsRuledRun(ds, rules, run')
    ensures var w, w' := Last(run), Last(run');
            && w'.threads == w.threads[t := InCallAt([], c, if ds[c].hasClinit then Running else Check)]
            && w'.classes == w.classes
  {
    var k := Last(run).classes[c];
    hide IsRuledRun;
    run' := Go(ds, rules, run, t, k, [], c, Super, Clinit);
    hide Ready;
    run' := Go(ds, rules, run', t, k, [], c, Clinit, if ds[c].hasClinit then Running else Check);
  }

  /** Thread t, about to initialise class c, calls initClass for the superclass. */
  lemma ReachSuperclass(ds: seq<Decl>, rules: Rules, run: seq<World>, t: nat, c: nat) returns (run': seq<World>)
    requires IsRuledRun(ds, rules, run) && Sized(ds, Last(run), t, c)
    requires Last(run).threads[t] == InCallAt([], c, Super) && !Ready(ds, Last(run).classes, c)
    ensures IsRuledRun(ds, rules, run')
    ensures var w, w' := Last(run), Last(run');
            && w'.threads == w.threads[t := InCallAt([Activation(c, SuperCall)], ds[c].super.value, Enter)]
            && w'.classes == w.classes
  {
    var w := Last(run);
    hide IsRuledRun;
    var w' := After(ds, w, t);
    var at := InCallAt([Activation(c, SuperCall)], ds[c].super.value, Enter);
    assert w.threads[t].stack[..0] == [] && w'.threads[t].stack == at.stack;
    assert w'.threads == w.threads[t := at];
    assert CallStep(ds, w, t, w');
    hide Ready;
    Extend(ds, rules, run, t, w');
    run' := run + [w'];
  }

  const IDLE := Thread([], false)
  const FRESH := Class(Linked, 0, None, 0)

  lemma FromTheStart(ds: seq<Decl>, rules: Rules, n: nat) returns (run: seq<World>)
    requires DeclsOk(ds)
    ensures IsRuledRun(ds, rules, run)
    ensures Last(run).classes == seq(|ds|, _ => FRESH) && Last(run).threads == seq(n, _ => IDLE)
  {
    run := [World(seq(|ds|, _ => FRESH), seq(n, _ => IDLE), [])];
  }

  ghost predicate NobodyWaits(w: World) {
    forall u | 0 <= u < |w.threads| :: w.threads[u].stack == [] || !Top(w.threads[u]).phase.Waiting?
  }

  /** Thread t notifies, and nobody waits. */
  lemma NotifyNobody(ds: seq<Decl>, rules: Rules, run: seq<World>, t: nat, c: nat) returns (run': seq<World>)
    requires IsRuledRun(ds, rules, run) && Sized(ds, Last(run), t, c) && NobodyWaits(Last(run))
    requires Last(run).threads[t] == InCallAt([], c, Notify)
    ensures IsRuledRun(ds, rules, run')
    ensures var w, w' := Last(run), Last(run');
            w'.threads == w.threads[t := InCallAt([], c, Leave)] && w'.classes == w.classes
  {
    var w := Last(run);
    hide IsRuledRun;
    var w' := After(ds, w, t);
    forall u | 0 <= u < |w.threads| ensures Wake(w.threads[u], c) == w.threads[u] {
    }
    assert w.threads[t].stack[..0] == [];
    assert w'.threads == w.threads[t := InCallAt([], c, Leave)];
    assert CallStep(ds, w, t, w');
    hide Wake;
    Extend(ds, rules, run, t, w');
    run' := run + [w'];
  }

  lemma ReturnIsAStep(ds: seq<Decl>, w: World, t: nat, c: nat)
    requires Sized(ds, w, t, c) && w.threads[t] == InCallAt([], c, Returned)
    ensures InCall(ds, w, t) && Enabled(ds, w, t) && After(ds, w, t) == w.(threads := w.threads[t := IDLE])
  {
    assert Return(w.threads[t]) == IDLE;
    hide Return;
  }

  /** The outermost call of thread t returns. */
  lemma ReachIdle(ds: seq<Decl>, rules: Rules, run: seq<World>, t: nat, c: nat) returns (run': seq<World>)
    requires IsRuledRun(ds, rules, run) && Sized(ds, Last(run), t, c)
    requires Last(run).threads[t] == InCallAt([], c, Returned)
    ensures IsRuledRun(ds, rules, run')
    ensures var w, w' := Last(run), Last(run'); w'.threads == w.threads[t := IDLE] && w'.classes == w.classes
  {
    hide After;
    hide Enabled;
    hide InCall;
    var w := Last(run);
    hide IsRuledRun;
    ReturnIsAStep(ds, w, t, c);
    var w' := After(ds, w, t);
    Extend(ds, rules, run, t, w');
    run' := run + [w'];
  }

  /** Thread t runs the static initialiser of class c, if there is one. */
  lemma ReachCheck(ds: seq<Decl>, rules: Rules, run: seq<World>, t: nat, c: nat) returns (run': seq<World>)
    requires IsRuledRun(ds, rules, run) && Sized(ds, Last(run), t, c) && Free(rules, Last(run), t)
    requires Last(run).threads[t] == InCallAt([], c, Super) && Ready(ds, Last(run).classes, c)
    ensures IsRuledRun(ds, rules, run')
    ensures var w, w' := Last(run), Last(run');
            w'.threads == w.threads[t := InCallAt([], c, Check)] && w'.classes == w.classes
  {
    var k := Last(run).classes[c];
    hide IsRuledRun;
    run' := ReachClinit(ds, rules, run, t, c);
    hide Ready;
    if ds[c].hasClinit {
      run' := Go(ds, rules, run', t, k, [], c, Running, Check);
    }
  }

  /** Thread t, about to initialise class c whose superclass is ready, does so. */
  lemma ReachNotify(ds: seq<Decl>, rules: Rules, run: seq<World>, t: nat, c: nat) returns (run': seq<World>)
    requires IsRuledRun(ds, rules, run) && Sized(ds, Last(run), t, c) && Free(rules, Last(run), t)
    requires Last(run).threads[t] == InCallAt([], c, Super) && Ready(ds, Last(run).classes, c)
    requires Last(run).classes[c] == Class(Initing, t, None, 0)
    ensures IsRuledRun(ds, rules, run')
    ensures var w, w' := Last(run), Last(run');
            && w'.threads == w.threads[t := InCallAt([], c, Notify)]
            && w'.classes == w.classes[c := Class(Inited, t, Some(t), 1)]
  {
    var k := Last(run).classes[c];
    hide IsRuledRun;
    hide Ready;
    run' := ReachCheck(ds, rules, run, t, c);
    run' := Go(ds, rules, run', t, k, [], c, Check, SuccessLock);
    run' := Go(ds, rules, run', t, Lock(k, t), [], c, SuccessLock, SetInited);
    run' := Go(ds, rules, run', t, Class(Inited, t, Some(t), 1), [], c, SetInited, Notify);
  }

  /** The same, until the call returns. */
  lemma Finish(ds: seq<Decl>, rules: Rules, run: seq<World>, t: nat, c: nat) returns (run': seq<World>)
    requires IsRuledRun(ds, rules, run) && Sized(ds, Last(run), t, c)
    requires Free(rules, Last(run), t) && NobodyWaits(Last(run))
    requires Last(run).threads[t] == InCallAt([], c, Super) && Ready(ds, Last(run).classes, c)
    requires Last(run).classes[c] == Class(Initing, t, None, 0)
    ensures IsRuledRun(ds, rules, run')
    ensures var w, w' := Last(run), Last(run');
            && w'.threads == w.threads[t := IDLE] && w'.classes == w.classes[c := Class(Inited, t, None, 0)]
  {
    hide Ready;
    var w := Last(run);
    hide IsRuledRun;
    run' := ReachNotify(ds, rules, run, t, c);
    assert NobodyWaits(Last(run'));
    hide NobodyWaits;
    run' := NotifyNobody(ds, rules, run', t, c);
    run' := Go(ds, rules, run', t, Class(Inited, t, None, 0), [], c, Leave, Returned);
    run' := ReachIdle(ds, rules, run', t, c);
  }

  /** Thread c, for class c, has initialised it if it is in `done`, and has claimed it if not. */
  predicate Prepared(done: set<nat>, c: nat, th: Thread, k: Class) {
    if c in done then th == IDLE && k == Class(Inited, c, None, 0)
    else th == InCallAt([], c, Super) && k == Class(Initing, c, None, 0)
  }

  ghost predicate FirstStage(ds: seq<Decl>, done: set<nat>, w: World, n: nat) {
    && |w.classes| == |w.threads| == |ds|
    && (forall c: nat | c < n && c < |ds| :: Prepared(done, c, w.threads[c], w.classes[c]))
    && (forall c: nat | n <= c < |ds| :: w.threads[c] == IDLE && w.classes[c] == FRESH)
  }

  /** A superclass outside `done` puts the class outside as well. */
  lemma SuperIsDone(ds: seq<Decl>, asks: set<(nat, nat)>, done: set<nat>, rank: Rank, c: nat)
    requires DeclsOk(ds) && RankedSet(ds, asks, done, rank) && c in done
    ensures c < |ds| && (!ds[c].isInterface && ds[c].super.Some? ==> ds[c].super.value in done && ds[c].super.value < c)
  {
    if !ds[c].isInterface && ds[c].super.Some? {
      assert Needs(ds, asks, c, ds[c].super.value);
    }
  }

  /** Class after class: those in `done` are initialised, those in the knot are claimed, each by a thread
      of its own. */
  lemma {:induction false} PrepareAll(ds: seq<Decl>, rules: Rules, done: set<nat>, rank: Rank, n: nat)
      returns (run: seq<World>)
    requires DeclsOk(ds) && RankedSet(ds, rules.asks, done, rank) && n <= |ds|
    ensures IsRuledRun(ds, rules, run) && FirstStage(ds, done, Last(run), n)
  {
    if n == 0 {
      run := FromTheStart(ds, rules, |ds|);
    } else {
      var c := n - 1;
      run := PrepareAll(ds, rules, done, rank, c);
      run := ReachSuper(ds, rules, run, c, c);
      if c in done {
        SuperIsDone(ds, rules.asks, done, rank, c);
        run := Finish(ds, rules, run, c, c);
      }
    }
  }

  predicate Blocked(th: Thread) {
    th.stack != [] && Top(th).phase.Waiting?
  }

  ghost predicate SecondStage(ds: seq<Decl>, done: set<nat>, w: World, n: nat) {
    && |w.classes| == |w.threads| == |ds|
    && (forall c: nat | c < n && c < |ds| :: if c in done then w.threads[c].stack == [] else Blocked(w.threads[c]))
    && (forall c: nat | n <= c < |ds| :: Prepared(done, c, w.threads[c], w.classes[c]))
    && (forall c: nat | c < |ds| ::
          w.classes[c] == Class(if c in done then Inited else Initing, c, None, 0))
  }

  lemma SecondStarts(ds: seq<Decl>, done: set<nat>, w: World)
    requires FirstStage(ds, done, w, |ds|)
    ensures SecondStage(ds, done, w, 0)
  {
    forall c: nat | c < |ds|
      ensures Prepared(done, c, w.threads[c], w.classes[c])
      ensures w.classes[c] == Class(if c in done then Inited else Initing, c, None, 0)
    {
    }
  }

  lemma SecondGoesOn(ds: seq<Decl>, done: set<nat>, w: World, c: nat, w': World)
    requires SecondStage(ds, done, w, c) && c < |ds| && w'.classes == w.classes
    requires if c in done then w'.threads == w.threads
             else |w'.threads| == |ds| && Blocked(w'.threads[c]) && w'.threads == w.threads[c := w'.threads[c]]
    ensures SecondStage(ds, done, w', c + 1)
  {
    hide Blocked;
    assert Prepared(done, c, w.threads[c], w.classes[c]);
    forall a: nat | c + 1 <= a < |ds| ensures Prepared(done, a, w'.threads[a], w'.classes[a]) {
      hide Prepared;
      assert Prepared(done, a, w.threads[a], w.classes[a]);
    }
  }

  lemma SecondAt(ds: seq<Decl>, done: set<nat>, w: World, c: nat)
    requires SecondStage(ds, done, w, c) && c < |ds| && c !in done
    ensures Sized(ds, w, c, c) && |w.threads| == |ds| && w.threads[c] == InCallAt([], c, Super)
    ensures HoldsNone(w, c)
    ensures forall d: nat | d < |ds| && d !in done :: w.classes[d] == Class(Initing, d, None, 0)
    ensures forall d: nat | d in done && d < |ds| :: w.classes[d] == Class(Inited, d, None, 0)
  {
    assert Prepared(done, c, w.threads[c], w.classes[c]);
  }

  /** The superclass of c, or what its static initialiser asks for, is another class of the knot. */
  lemma NeededInKnot(ds: seq<Decl>, asks: set<(nat, nat)>, done: set<nat>, w: World, c: nat) returns (d: nat)
    requires DeclsOk(ds) && AskersHaveClinit(ds, asks) && Knotted(ds, asks, done)
    requires SecondStage(ds, done, w, c) && c < |ds| && c !in done
    ensures d < |ds| && d != c && w.classes[d] == Class(Initing, d, None, 0)
    ensures if Ready(ds, w.classes, c) then (c, d) in asks && ds[c].hasClinit else ds[c].super == Some(d)
  {
    SecondAt(ds, done, w, c);
    hide SecondStage;
    if Ready(ds, w.classes, c) {
      assert Needy(ds, asks, done, c);
      d :| Needs(ds, asks, c, d) && d !in done;
    } else {
      d := ds[c].super.value;
    }
  }

  /** Thread c goes on until it needs class d, which another thread has claimed. */
  lemma WaitFor(ds: seq<Decl>, rules: Rules, run: seq<World>, c: nat, d: nat) returns (run': seq<World>)
    requires IsRuledRun(ds, rules, run) && Sized(ds, Last(run), c, c) && Free(rules, Last(run), c)
    requires Last(run).threads[c] == InCallAt([], c, Super)
    requires d < |ds| && d != c && Last(run).classes[d] == Class(Initing, d, None, 0)
    requires if Ready(ds, Last(run).classes, c) then (c, d) in rules.asks && ds[c].hasClinit else ds[c].super == Some(d)
    ensures IsRuledRun(ds, rules, run')
    ensures var w, w' := Last(run), Last(run');
            && w'.classes == w.classes && |w'.threads| == |w.threads| && w'.threads == w.threads[c := w'.threads[c]]
            && Blocked(w'.threads[c])
  {
    var w := Last(run);
    hide IsRuledRun;
    hide Ready;
    if Ready(ds, w.classes, c) {
      run' := ReachClinit(ds, rules, run, c, c);
      run' := Ask(ds, rules, run', c, d);
      run' := EnterToWait(ds, rules, run', c, [Activation(c, Running)], d);
    } else {
      run' := ReachSuperclass(ds, rules, run, c, c);
      run' := EnterToWait(ds, rules, run', c, [Activation(c, SuperCall)], d);
    }
  }

  lemma BlockOne(ds: seq<Decl>, rules: Rules, done: set<nat>, run: seq<World>, c: nat) returns (run': seq<World>)
    requires DeclsOk(ds) && AskersHaveClinit(ds, rules.asks) && Knotted(ds, rules.asks, done)
    requires IsRuledRun(ds, rules, run) && c < |ds| && c !in done && SecondStage(ds, done, Last(run), c)
    ensures IsRuledRun(ds, rules, run') && SecondStage(ds, done, Last(run'), c + 1)
  {
    hide SecondStage;
    hide Knotted;
    hide AskersHaveClinit;
    hide Ready;
    hide RuledNext;
    hide Init;
    hide Blocked;
    var w := Last(run);
    SecondAt(ds, done, w, c);
    var d := NeededInKnot(ds, rules.asks, done, w, c);
    run' := WaitFor(ds, rules, run, c, d);
    SecondGoesOn(ds, done, w, c, Last(run'));
  }

  lemma {:induction false} BlockAll(ds: seq<Decl>, rules: Rules, done: set<nat>, rank: Rank, n: nat)
      returns (run: seq<World>)
    requires DeclsOk(ds) && AskersHaveClinit(ds, rules.asks) && Knotted(ds, rules.asks, done)
    requires RankedSet(ds, rules.asks, done, rank) && n <= |ds|
    ensures IsRuledRun(ds, rules, run) && SecondStage(ds, done, Last(run), n)
  {
    hide SecondStage;
    hide FirstStage;
    hide Knotted;
    hide RankedSet;
    hide AskersHaveClinit;
    if n == 0 {
      run := PrepareAll(ds, rules, done, rank, |ds|);
      SecondStarts(ds, done, Last(run));
    } else {
      run := BlockAll(ds, rules, done, rank, n - 1);
      if n - 1 in done {
        SecondGoesOn(ds, done, Last(run), n - 1, Last(run));
      } else {
        run := BlockOne(ds, rules, done, run, n - 1);
      }
    }
  }

  /** Thread t is about to take a lock that another thread holds. */
  predicate AtLock(w: World, t: nat) {
    && t < |w.threads| && w.threads[t].stack != [] && Top(w.threads[t]).phase.Enter?
    && Top(w.threads[t]).cls < |w.classes| && !CanLock(w.classes[Top(w.threads[t]).cls], t)
  }

  /** Threads between calls, waiting or at a lock, and no monitor held but by those that wait. */
  ghost predicate AllBlocked(w: World) {
    && (forall t | 0 <= t < |w.threads| :: w.threads[t].stack == [] || Blocked(w.threads[t]) || AtLock(w, t))
    && (forall c | 0 <= c < |w.classes| && w.classes[c].owner.Some? ::
          w.classes[c].owner.value < |w.threads| && Blocked(w.threads[w.classes[c].owner.value]))
  }

  lemma BlockedIsDeadlocked(ds: seq<Decl>, w: World, t: nat)
    requires AllBlocked(w) && t < |w.threads| && Blocked(w.threads[t])
    ensures Deadlocked(ds, w)
  {
    forall u: nat, w' ensures !CallStep(ds, w, u, w') {
      if u < |w.threads| && w.threads[u].stack != [] {
        assert Blocked(w.threads[u]) || AtLock(w, u);
      }
      hide After;
    }
    hide CallStep;
    forall u: nat, w' ensures !JavaUnlocks(w, u, w') {
    }
  }

  /** The converse: if the classes cannot be ranked, a run of as many threads as there are classes ends
      in a deadlock. */
  lemma UnrankedCanDeadlock(ds: seq<Decl>, asks: set<(nat, nat)>, done: set<nat>, rank: Rank, c: nat)
    requires DeclsOk(ds) && AskersHaveClinit(ds, asks)
    requires RankedSet(ds, asks, done, rank) && Knotted(ds, asks, done) && c < |ds| && c !in done
    ensures CanDeadlock(ds, Rules(asks, false))
  {
    hide Knotted;
    hide RankedSet;
    hide AskersHaveClinit;
    var run := BlockAll(ds, Rules(asks, false), done, rank, |ds|);
    var w := Last(run);
    hide IsRuledRun;
    SecondEnds(ds, done, w, c);
    BlockedIsDeadlocked(ds, w, c);
  }

  lemma SecondEnds(ds: seq<Decl>, done: set<nat>, w: World, c: nat)
    requires SecondStage(ds, done, w, |ds|) && c < |ds| && c !in done
    ensures AllBlocked(w) && c < |w.threads| && Blocked(w.threads[c])
  {
    hide Blocked;
  }

  ghost predicate Rankable(ds: seq<Decl>, asks: set<(nat, nat)>) {
    exists rank: Rank :: Ranks(ds, asks, rank)
  }

  /** If Java code holds no class's monitor when it asks for a class, initClass cannot deadlock exactly if the
      classes can be ranked: every class above its superclass and above what its static initialiser asks for. */
  lemma DeadlockExactlyIfUnranked(ds: seq<Decl>, asks: set<(nat, nat)>)
    requires DeclsOk(ds) && AskersHaveClinit(ds, asks)
    ensures CanDeadlock(ds, Rules(asks, false)) <==> !Rankable(ds, asks)
  {
    hide CanDeadlock;
    hide AskersHaveClinit;
    if Rankable(ds, asks) {
      var rank: Rank :| Ranks(ds, asks, rank);
      RankedCannotDeadlock(ds, asks, rank);
    } else {
      var done, rank := RankOrKnot(ds, asks, {}, _ => 0);
      var c := LeftOver(ds, asks, done, rank);
      UnrankedCanDeadlock(ds, asks, done, rank, c);
    }
  }

  lemma AllRanked(ds: seq<Decl>, asks: set<(nat, nat)>, done: set<nat>, rank: Rank)
    requires RankedSet(ds, asks, done, rank) && forall a: nat | a < |ds| :: a in done
    ensures Rankable(ds, asks)
  {
    assert Ranks(ds, asks, rank);
  }

  lemma LeftOver(ds: seq<Decl>, asks: set<(nat, nat)>, done: set<nat>, rank: Rank) returns (c: nat)
    requires RankedSet(ds, asks, done, rank) && !Rankable(ds, asks)
    ensures c < |ds| && c !in done
  {
    if forall a: nat | a < |ds| :: a in done {
      AllRanked(ds, asks, done, rank);
    }
    c :| c < |ds| && c !in done;
  }

  // ----- two runs -----

  /** A deadlock of two threads, both of them in a call. */
  ghost predicate BothStuck(ds: seq<Decl>, w: World) {
    |w.threads| == 2 && Deadlocked(ds, w) && forall t: nat | t < 2 :: w.threads[t].stack != []
  }

  /** Two classes without superclasses whose static initialisers use each other. */
  const PAIR := [Decl(None, false, true), Decl(None, false, true)]
  const EACH_OTHER := Rules({(0, 1), (1, 0)}, false)

  /** With static initialisers that use each other's class, two threads can wait for each other
      for ever: a run ends with both in a call and no call able to step. */
  lemma MutualInitialisersCanDeadlock() returns (run: seq<World>)
    ensures IsRun(PAIR, run) && IsRuledRun(PAIR, EACH_OTHER, run) && BothStuck(PAIR, Last(run))
  {
    run := FromTheStart(PAIR, EACH_OTHER, 2);
    hide IsRuledRun;
    run := ReachSuper(PAIR, EACH_OTHER, run, 0, 0);
    run := ReachClinit(PAIR, EACH_OTHER, run, 0, 0);
    run := ReachSuper(PAIR, EACH_OTHER, run, 1, 1);
    run := ReachClinit(PAIR, EACH_OTHER, run, 1, 1);
    run := Ask(PAIR, EACH_OTHER, run, 0, 1);
    run := EnterToWait(PAIR, EACH_OTHER, run, 0, [Activation(0, Running)], 1);
    run := Ask(PAIR, EACH_OTHER, run, 1, 0);
    run := EnterToWait(PAIR, EACH_OTHER, run, 1, [Activation(1, Running)], 0);
    RuledRunIsRun(PAIR, EACH_OTHER, run);
    hide IsRun;
    BlockedIsDeadlocked(PAIR, Last(run), 0);
  }

  /** A class and its subclass, whose static initialisers ask for nothing. */
  const CHAIN := [Decl(None, false, true), Decl(Some(0), false, true)]
  const MONITORS := Rules({}, true)

  /** If Java code holds a class's monitor, threads can wait for ever although no static initialiser asks
      for anything: thread 0 holds the monitor of the superclass and asks for the subclass, thread 1
      initialises the subclass and needs that monitor. */
  lemma HeldMonitorCanDeadlock() returns (run: seq<World>)
    ensures IsRun(CHAIN, run) && IsRuledRun(CHAIN, MONITORS, run) && BothStuck(CHAIN, Last(run))
  {
    run := FromTheStart(CHAIN, MONITORS, 2);
    var w0 := Last(run);
    var w := w0.(classes := w0.classes[0 := Lock(w0.classes[0], 0)]);
    assert CanLock(w0.classes[0], 0) && JavaLocks(w0, 0, w);
    Extend(CHAIN, MONITORS, run, 0, w);
    run := run + [w];
    hide IsRuledRun;
    run := ReachSuper(CHAIN, MONITORS, run, 1, 1);
    run := ReachSuperclass(CHAIN, MONITORS, run, 1, 1);
    run := Ask(CHAIN, MONITORS, run, 0, 1);
    run := EnterToWait(CHAIN, MONITORS, run, 0, [], 1);
    RuledRunIsRun(CHAIN, MONITORS, run);
    hide IsRun;
    BlockedIsDeadlocked(CHAIN, Last(run), 0);
  }
}
