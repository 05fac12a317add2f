/** What a call has done when it has returned, whatever ran beside it: an explicit
  * destroy has torn its handle down, and dropping the last reference has freed it. */
module CallEffects {
  import opened Options
  import opened References
  import opened Lifetimes
  import opened CallsReturn
  import opened FreeOrder

  // ---- Validity is lost for good ---------------------------------------------------------------

  /** No handle becomes valid again or forgets its own teardown. */
  ghost predicate Fades(s: Sys, u: Sys) {
    && |u.objs| >= |s.objs|
    && forall o :: 0 <= o < |s.objs| ==>
         (u.objs[o].valid ==> s.objs[o].valid) && u.objs[o].finis >= s.objs[o].finis
  }

  lemma CreateFades(s: Sys, a: Action)
    requires Enabled(s, a) && a.Create?
    ensures Fades(s, Step(s, a))
  {
    CreateGrows(s, a.parent, a.clock, a.isClock);
    forall o | 0 <= o < |s.objs|
      ensures Step(s, a).objs[o].valid == s.objs[o].valid && Step(s, a).objs[o].finis == s.objs[o].finis
    {
      assert Step(s, a).objs[o] == Older(s.objs, a.parent, a.clock, o);
    }
  }

  lemma DropOneFades(s: Sys, t: nat, o: nat)
    requires o < |s.objs|
    ensures Fades(s, DropOne(s, t, o))
  {
  }

  lemma MoveToFades(s: Sys, t: nat, at: Stage)
    requires Stack(s, t) != [] && !Top(s, t).value.Tear? && Top(s, t).value.obj < |s.objs|
    ensures Fades(s, MoveTo(s, t, at)) && |MoveTo(s, t, at).objs| == |s.objs|
  {
  }

  lemma FiniFades(s: Sys, t: nat)
    requires Inv(s) && Enabled(s, Fini(t))
    ensures Fades(s, Step(s, Fini(t)))
  {
    hide DropOne;
    var o := Top(s, t).value.obj;
    if s.objs[o].clock.Some? && s.objs[o].clock.value < |s.objs| {
      DropOneFades(AfterFini(s, t), t, s.objs[o].clock.value);
    }
  }

  lemma DropParentFades(s: Sys, t: nat)
    requires Enabled(s, DropParent(t))
    ensures Fades(s, Step(s, DropParent(t)))
  {
    hide DropOne, MoveTo;
    var o := Top(s, t).value.obj;
    MoveToFades(s, t, Freeing);
    var u := MoveTo(s, t, Freeing);
    if s.objs[o].parent.Some? && s.objs[o].parent.value < |s.objs| {
      DropOneFades(Put(u, o, u.objs[o].(held := false)), t, s.objs[o].parent.value);
    }
  }

  lemma StepFades(s: Sys, a: Action)
    requires Inv(s)
    ensures Fades(s, Step(s, a))
  {
    hide Inv, DropOne, MoveTo, Created;
    if Enabled(s, a) {
      match a
      case Create(_, _, _) => CreateFades(s, a);
      case DropRef(t, o) => DropOneFades(Put(s, o, s.objs[o].(ext := s.objs[o].ext - 1)), t, o);
      case Fini(t) => FiniFades(s, t);
      case DropParent(t) => DropParentFades(s, t);
      case Acquire(t) => MoveToFades(s, t, Holding);
      case Begin(t) => MoveToFades(s, t, Torn);
      case Release(t) => if Top(s, t).value.Finalize? { MoveToFades(s, t, Dropping); }
      case _ =>
    }
  }

  // ---- An explicit destroy ------------------------------------------------------------------------

  /** An explicit destroy past its teardown has left its handle invalid. */
  ghost predicate Started(s: Sys, t: nat) {
    Stack(s, t) != [] && Stack(s, t)[0].Destroy? && Stack(s, t)[0].at == Torn ==>
      Stack(s, t)[0].obj < |s.objs| && !s.objs[Stack(s, t)[0].obj].valid
  }

  /** A step that leaves the bottom frame of t alone. */
  lemma SameBottomStarted(s: Sys, u: Sys, t: nat)
    requires Fades(s, u) && Started(s, t)
    requires Stack(u, t) != [] ==> Stack(s, t) != [] && Stack(u, t)[0] == Stack(s, t)[0]
    ensures Started(u, t)
  {
  }

  lemma BeginStarted(s: Sys, t: nat)
    requires Inv(s) && Enabled(s, Begin(t)) && |Stack(s, t)| == 1
    ensures Started(Step(s, Begin(t)), t)
    ensures var u := Step(s, Begin(t)); Stack(u, t) != [] && Stack(u, t)[0].obj == Stack(s, t)[0].obj
    ensures Stack(s, t)[0].Destroy? ==> Step(s, Begin(t)).stacks[t][0] == Destroy(Stack(s, t)[0].obj, Torn)
  {
    hide Inv;
  }

  lemma OneFrameStarted(s: Sys, a: Action)
    requires Inv(s) && Enabled(s, a) && IsCallStep(a) && |Stack(s, a.thread)| == 1
    ensures Started(Step(s, a), a.thread)
  {
    hide Inv;
    if a.Begin? {
      BeginStarted(s, a.thread);
    }
  }

  lemma CallStepStarted(s: Sys, a: Action, t: nat)
    requires Inv(s) && Enabled(s, a) && IsCallStep(a) && Started(s, t)
    ensures Started(Step(s, a), t)
  {
    hide Inv, Enabled, Step, Started;
    var u := Step(s, a);
    CallStepWork(s, a, a.thread + 1);
    CallStepLocal(s, a);
    StepFades(s, a);
    if a.thread != t {
      SameBottomStarted(s, u, t);
    } else if |Stack(s, t)| == 1 {
      OneFrameStarted(s, a);
    } else {
      assert Stack(u, t)[0] == Stack(u, t)[..|Stack(s, t)| - 1][0];
      SameBottomStarted(s, u, t);
    }
  }

  lemma OtherStepStarted(s: Sys, a: Action, t: nat)
    requires Enabled(s, a) && !IsCallStep(a) && Started(s, t) && Fades(s, Step(s, a))
    ensures Started(Step(s, a), t)
  {
    if a.DropRef? || a.CallDestroy? {
      assert a.thread != t ==> Stack(Step(s, a), t) == Stack(s, t);
    } else {
      assert Stack(Step(s, a), t) == Stack(s, t);
    }
  }

  lemma StepKeepsStarted(s: Sys, a: Action, t: nat)
    requires Inv(s) && Started(s, t)
    ensures Started(Step(s, a), t)
  {
    hide Inv, Enabled, Step, Started;
    StepFades(s, a);
    if !Enabled(s, a) {
      Idle(s, a);
    } else if IsCallStep(a) {
      CallStepStarted(s, a, t);
    } else {
      OtherStepStarted(s, a, t);
    }
  }

  lemma {:induction false} RunFromKeepsStarted(s: Sys, acts: seq<Action>, t: nat)
    requires Inv(s) && Started(s, t)
    ensures Started(RunFrom(s, acts), t)
    decreases |acts|
  {
    hide Inv, Step, Started;
    if acts != [] {
      StepKeepsStarted(s, acts[0], t);
      StepKeepsInv(s, acts[0]);
      RunFromKeepsStarted(Step(s, acts[0]), acts[1..], t);
    }
  }

  /** The lock holder that is past the teardown finds nobody at work on its handle. */
  lemma TornIsFinied(s: Sys, t: nat)
    requires Inv(s) && Started(s, t) && Enabled(s, Release(t)) && Top(s, t).value.Destroy?
    ensures var o := Top(s, t).value.obj; !s.objs[o].valid && s.objs[o].finis == 1
  {
    hide Counted, MayCall, Refs;
    var o, d := Top(s, t).value.obj, |Stack(s, t)| - 1;
    TopFrame(s, t);
    DestroyIsFirst(s, t, d);
    assert Placed(s, o) && Sound(s.objs[o]);
    if s.objs[o].tearing.Some? {
      var at := s.objs[o].tearing.value;
      HolderOwns(s, t, d);
      TearHolds(s, at.thread, at.depth);
    }
  }

  lemma InitStarted(t: nat)
    ensures Started(Init(), t)
  {
  }

  lemma FiniedOnce(s: Sys, o: nat)
    requires Inv(s) && o < |s.objs| && s.objs[o].finis >= 1
    ensures !s.objs[o].valid && s.objs[o].finis == 1
  {
    assert Sound(s.objs[o]);
  }

  lemma FiniedStays(s: Sys, a: Action, o: nat)
    requires Inv(s) && o < |s.objs| && s.objs[o].finis == 1
    ensures o < |Step(s, a).objs| && !Step(s, a).objs[o].valid && Step(s, a).objs[o].finis == 1
  {
    hide Inv, Step;
    StepFades(s, a);
    StepKeepsInv(s, a);
    FiniedOnce(Step(s, a), o);
  }

  /** When an explicit destroy is about to give the lock back, and when it has, its
    * handle is invalid and its own teardown has run once, whoever ran it. */
  lemma DestroyedBeforeRelease(acts: seq<Action>, t: nat)
    requires Enabled(Run(acts), Release(t)) && Top(Run(acts), t).value.Destroy?
    ensures var o := Top(Run(acts), t).value.obj;
      var before, after := Run(acts).objs, Step(Run(acts), Release(t)).objs;
      && !before[o].valid && before[o].finis == 1
      && o < |after| && !after[o].valid && after[o].finis == 1
  {
    hide Inv, Started, RunFrom;
    var s := Run(acts);
    var o := Top(s, t).value.obj;
    RunKeepsInv(acts);
    InitInv();
    InitStarted(t);
    RunFromKeepsStarted(Init(), acts, t);
    TornIsFinied(s, t);
    FiniedStays(s, Release(t), o);
  }

  /** The call is still under way, or the handle has been torn down. */
  ghost predicate Destroying(s: Sys, t: nat, o: nat) {
    && o < |s.objs|
    && (s.objs[o].finis == 1 || (Stack(s, t) != [] && Stack(s, t)[0].Destroy? && Stack(s, t)[0].obj == o))
  }

  lemma StartLeaves(s: Sys, a: Action, t: nat)
    requires Enabled(s, a) && !IsCallStep(a) && Stack(s, t) != []
    ensures Stack(Step(s, a), t) == Stack(s, t)
  {
  }

  lemma OwnStepDestroying(s: Sys, a: Action, o: nat)
    requires Inv(s) && Enabled(s, a) && IsCallStep(a) && LocalTo(s, Step(s, a), a.thread)
    requires Started(s, a.thread) && Destroying(s, a.thread, o) && s.objs[o].finis != 1
    ensures Destroying(Step(s, a), a.thread, o)
  {
    hide Inv, Started;
    var t := a.thread;
    var u := Step(s, a);
    StepFades(s, a);
    if |Stack(s, t)| > 1 {
      assert Stack(u, t)[0] == Stack(u, t)[..|Stack(s, t)| - 1][0];
      assert Stack(s, t)[0] == Stack(s, t)[..|Stack(s, t)| - 1][0];
    } else if a.Release? {
      TornIsFinied(s, t);
    } else if a.DropParent? {
      DropFacts(s, t);
    } else if a.FreeMemory? {
      FreeFacts(s, t);
    }
  }

  lemma StepKeepsDestroying(s: Sys, a: Action, t: nat, o: nat)
    requires Inv(s) && Started(s, t) && Destroying(s, t, o)
    ensures Destroying(Step(s, a), t, o)
  {
    hide Inv, Enabled, Step, Started;
    StepFades(s, a);
    if s.objs[o].finis == 1 {
      FiniedStays(s, a, o);
    } else if !Enabled(s, a) {
      Idle(s, a);
    } else if IsCallStep(a) {
      CallStepLocal(s, a);
      CallStepWork(s, a, a.thread + 1);
      if a.thread == t {
        OwnStepDestroying(s, a, o);
      }
    } else {
      StartLeaves(s, a, t);
    }
  }

  lemma {:induction false} RunFromKeepsDestroying(s: Sys, acts: seq<Action>, t: nat, o: nat)
    requires Inv(s) && Started(s, t) && Destroying(s, t, o)
    ensures Inv(RunFrom(s, acts)) && Destroying(RunFrom(s, acts), t, o)
    decreases |acts|
  {
    hide Inv, Step, Started, Destroying;
    if acts != [] {
      StepKeepsDestroying(s, acts[0], t, o);
      StepKeepsStarted(s, acts[0], t);
      StepKeepsInv(s, acts[0]);
      RunFromKeepsDestroying(Step(s, acts[0]), acts[1..], t, o);
    }
  }

  lemma CallStarts(s: Sys, t: nat, o: nat)
    requires Inv(s) && Enabled(s, CallDestroy(t, o))
    ensures var u := Step(s, CallDestroy(t, o)); Inv(u) && Started(u, t) && Destroying(u, t, o)
  {
    hide Inv;
    StepKeepsInv(s, CallDestroy(t, o));
  }

  /** An explicit destroy takes effect.  Whatever runs beside it and after it, whenever
    * the calling thread is out of all calls, the handle is invalid and its own teardown
    * has run once. */
  lemma DestroyTearsDown(acts: seq<Action>, t: nat, o: nat, more: seq<Action>)
    requires o < |Run(acts).objs| && Run(acts).objs[o].ext > 0 && Stack(Run(acts), t) == []
    ensures Enabled(Run(acts), CallDestroy(t, o))
    ensures var v := Run(acts + [CallDestroy(t, o)] + more);
      o < |v.objs| && (Stack(v, t) == [] ==> !v.objs[o].valid && v.objs[o].finis == 1)
  {
    hide Run, Inv, Started, Step, RunFrom;
    RunKeepsInv(acts);
    RunAppend(acts, [CallDestroy(t, o)]);
    RunFrom1(Run(acts), CallDestroy(t, o));
    RunAppend(acts + [CallDestroy(t, o)], more);
    CallStarts(Run(acts), t, o);
    RunFromKeepsDestroying(Step(Run(acts), CallDestroy(t, o)), more, t, o);
    var v := Run(acts + [CallDestroy(t, o)] + more);
    if v.objs[o].finis == 1 {
      FiniedOnce(v, o);
    }
  }

  // ---- Dropping references ------------------------------------------------------------------------------

  /** The handle is being finalized on thread t, or has been freed. */
  ghost predicate GoingOn(s: Sys, t: nat, o: nat) {
    && o < |s.objs|
    && (s.objs[o].life.Freed? || (s.objs[o].life.Dying? && s.objs[o].life.place.thread == t))
  }

  lemma {:induction false} RunFromKeepsGoing(s: Sys, acts: seq<Action>, t: nat, o: nat)
    requires Inv(s) && GoingOn(s, t, o)
    ensures Inv(RunFrom(s, acts)) && GoingOn(RunFrom(s, acts), t, o)
    decreases |acts|
  {
    hide Inv, Step;
    if acts != [] {
      StepLife(s, acts[0], o);
      StepKeepsInv(s, acts[0]);
      RunFromKeepsGoing(Step(s, acts[0]), acts[1..], t, o);
    }
  }

  lemma DyingIsOnStack(s: Sys, t: nat, o: nat)
    requires Inv(s) && GoingOn(s, t, o) && Stack(s, t) == []
    ensures s.objs[o].life.Freed?
  {
    assert Placed(s, o);
  }

  lemma LastDropStarts(s: Sys, t: nat, o: nat)
    requires Inv(s) && Enabled(s, DropRef(t, o)) && s.objs[o].rc == 1
    ensures GoingOn(Step(s, DropRef(t, o)), t, o)
  {
    hide Inv;
  }

  /** Dropping the last reference frees the handle: whenever the dropping thread is out
    * of all calls again, its memory has been freed. */
  lemma LastDropFrees(acts: seq<Action>, t: nat, o: nat, more: seq<Action>)
    requires o < |Run(acts).objs| && Run(acts).objs[o].ext == Run(acts).objs[o].rc == 1 && Stack(Run(acts), t) == []
    ensures Enabled(Run(acts), DropRef(t, o))
    ensures var v := Run(acts + [DropRef(t, o)] + more);
      o < |v.objs| && (Stack(v, t) == [] ==> v.objs[o].life.Freed?)
  {
    hide Run, Inv, Step, RunFrom;
    RunKeepsInv(acts);
    RunAppend(acts, [DropRef(t, o)]);
    RunFrom1(Run(acts), DropRef(t, o));
    RunAppend(acts + [DropRef(t, o)], more);
    LastDropStarts(Run(acts), t, o);
    StepKeepsInv(Run(acts), DropRef(t, o));
    RunFromKeepsGoing(Step(Run(acts), DropRef(t, o)), more, t, o);
    var v := Run(acts + [DropRef(t, o)] + more);
    if Stack(v, t) == [] {
      DyingIsOnStack(v, t, o);
    }
  }

  /** Copying a reference and dropping the copy changes nothing. */
  lemma CopyThenDrop(acts: seq<Action>, t: nat, o: nat)
    requires o < |Run(acts).objs| && Run(acts).objs[o].ext > 0 && Stack(Run(acts), t) == []
    ensures var copied := Step(Run(acts), IncRef(o));
      && o < |copied.objs| && copied.objs[o].ext == Run(acts).objs[o].ext + 1
      && Step(copied, DropRef(t, o)) == Run(acts)
  {
    hide Run, Inv;
    var s := Run(acts);
    RunKeepsInv(acts);
    CountsSound(s, o);
    var x := s.objs[o];
    assert Step(s, IncRef(o)).objs == s.objs[o := x.(rc := x.rc + 1, ext := x.ext + 1)];
    assert s.objs[o := x] == s.objs;
  }

  /** A new handle is valid, the program holds it, it is linked under its parent and
    * keeps the parent, and a timer its clock, alive: both have one reference more. */
  lemma BornLinked(acts: seq<Action>, p: Option<nat>, k: Option<nat>, isClock: bool)
    requires p.Some? ==> Usable(Run(acts), p.value) && Run(acts).objs[p.value].valid && !Run(acts).objs[p.value].isClock
    requires k.Some? ==> Usable(Run(acts), k.value) && Run(acts).objs[k.value].valid && Run(acts).objs[k.value].isClock
    requires isClock ==> p == None && k == None
    ensures var s, u := Run(acts), Step(Run(acts), Create(p, k, isClock));
      var child := |s.objs|;
      && |u.objs| == child + 1 && Usable(u, child) && u.objs[child].valid && u.objs[child].clock == k
      && u.objs[child].isClock == isClock
      && (p.Some? ==> ChildOf(u, child, p.value) && Refs(u.objs, p.value) == Refs(s.objs, p.value) + 1)
      && (k.Some? ==> Refs(u.objs, k.value) == Refs(s.objs, k.value) + 1)
      && forall o :: 0 <= o < child ==> u.objs[o] == s.objs[o].(rc := u.objs[o].rc)
  {
    hide Run, Inv, Refs;
    var s := Run(acts);
    var u := Step(s, Create(p, k, isClock));
    RunKeepsInv(acts);
    CreateGrows(s, p, k, isClock);
    forall o | 0 <= o < |s.objs| ensures u.objs[o] == s.objs[o].(rc := u.objs[o].rc) {
      assert u.objs[o] == Older(s.objs, p, k, o);
    }
    var front := u.objs[..|s.objs|];
    assert u.objs == front + [Newborn(p, k, isClock)];
    if p.Some? {
      RefsAppend(front, Newborn(p, k, isClock), p.value);
      SameRefs(s.objs, front, p.value);
    }
    if k.Some? {
      RefsAppend(front, Newborn(p, k, isClock), k.value);
      SameRefs(s.objs, front, k.value);
    }
  }

  lemma FiniDropsClock(s: Sys, t: nat)
    requires Inv(s) && Enabled(s, Fini(t)) && s.objs[Top(s, t).value.obj].clock.Some?
    ensures var u := Step(s, Fini(t));
      var x := Top(s, t).value.obj;
      var k := s.objs[x].clock.value;
      && k < |s.objs| == |u.objs| && u.objs[x].clock == None && u.objs[x].finis == 1
      && (!u.objs[k].life.Alive? <==> LastHeldOnce(s, k))
      && (!u.objs[k].life.Alive? ==> Top(u, t) == Some(Finalize(k, Wanting)))
  {
    hide Sound, Placed, Known, Shaped, Locked, Refs;
    var x := Top(s, t).value.obj;
    var k := s.objs[x].clock.value;
    FiniFacts(s, t);
    RefsAtLeast(s.objs, x, k);
    HolderKeepsAlive(s, x, k);
    assert Counted(s.objs, k);
  }

  /** A timer's own teardown releases its clock, and starts the clock's finalizer on the
    * same stack exactly when the program has no reference to the clock left and no
    * other timer holds it. */
  lemma FiniReleasesClockExactly(acts: seq<Action>, t: nat)
    requires Enabled(Run(acts), Fini(t)) && Run(acts).objs[Top(Run(acts), t).value.obj].clock.Some?
    ensures var s, u := Run(acts), Step(Run(acts), Fini(t));
      var x := Top(s, t).value.obj;
      var k := s.objs[x].clock.value;
      && k < |s.objs| == |u.objs| && u.objs[x].clock == None && u.objs[x].finis == 1
      && (!u.objs[k].life.Alive? <==> LastHeldOnce(s, k))
      && (!u.objs[k].life.Alive? ==> Top(u, t) == Some(Finalize(k, Wanting)))
  {
    hide Run, Inv;
    RunKeepsInv(acts);
    FiniDropsClock(Run(acts), t);
  }
}
