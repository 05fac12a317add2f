/** What the reference machine guarantees about the lives of handles, in every
  * interleaving, and a run that shows where it stops. */
module Lifetimes {
  import opened Options
  import opened References

  /** A handle's own teardown runs at most once, and before its memory is freed. */
  lemma FiniOnceBeforeFree(acts: seq<Action>, o: nat)
    requires o < |Run(acts).objs|
    ensures var x := Run(acts).objs[o];
      x.finis <= 1 && (x.valid ==> x.finis == 0) && (x.life.Freed? ==> x.finis == 1)
  {
    RunKeepsInv(acts);
    assert Sound(Run(acts).objs[o]);
  }

  /** Every child is torn down before its parent. */
  lemma ChildrenFiniFirst(acts: seq<Action>, c: nat)
    requires c < |Run(acts).objs| && Run(acts).objs[c].parent.Some?
    ensures var objs := Run(acts).objs;
      var p := objs[c].parent.value;
      p < |objs| && (objs[p].finis == 1 ==> objs[c].finis == 1)
  {
    RunKeepsInv(acts);
    var objs := Run(acts).objs;
    assert Rooted(objs, c) && ChildrenFirst(objs, c) && Sound(objs[c]);
  }

  /** The reference count of a handle is what the program holds and borrows, plus
    * one for each child that has not released it, plus one for each timer not
    * torn down whose clock it is; and it is zero exactly from the start of the
    * finalizer on. */
  lemma CountIsExact(acts: seq<Action>, o: nat)
    requires o < |Run(acts).objs|
    ensures var s := Run(acts);
      && s.objs[o].rc == s.objs[o].ext + |s.objs[o].pins| + Refs(s.objs, o)
      && (s.objs[o].rc == 0 <==> !s.objs[o].life.Alive?)
  {
    RunKeepsInv(acts);
    assert Counted(Run(acts).objs, o) && Sound(Run(acts).objs[o]);
  }

  /** A timer not torn down keeps its clock alive, and a handle keeps its parent
    * alive until it releases it. */
  lemma ReferencesKeepAlive(acts: seq<Action>, c: nat)
    requires c < |Run(acts).objs|
    ensures var objs := Run(acts).objs;
      && (objs[c].clock.Some? ==> objs[c].clock.value < |objs| && objs[objs[c].clock.value].life.Alive?)
      && (objs[c].parent.Some? && objs[c].held ==>
            objs[c].parent.value < |objs| && objs[objs[c].parent.value].life.Alive?)
  {
    RunKeepsInv(acts);
    var s := Run(acts);
    assert Rooted(s.objs, c);
    if s.objs[c].clock.Some? {
      HolderKeepsAlive(s, c, s.objs[c].clock.value);
    }
    if s.objs[c].parent.Some? && s.objs[c].held {
      HolderKeepsAlive(s, c, s.objs[c].parent.value);
    }
  }

  /** The pointer to a parent whose finalizer has started is left only in a handle
    * that has been torn down, has released the parent, and has nothing left to do
    * but free its own memory. */
  lemma ParentPointerValid(acts: seq<Action>, c: nat)
    requires c < |Run(acts).objs| && Run(acts).objs[c].parent.Some?
    ensures var objs := Run(acts).objs;
      && objs[c].parent.value < |objs|
      && (!objs[objs[c].parent.value].life.Alive? ==>
            objs[c].finis == 1 && !objs[c].held && objs[c].life.Dying? && objs[c].life.at == Freeing)
  {
    ReferencesKeepAlive(acts, c);
    RunKeepsInv(acts);
    assert Sound(Run(acts).objs[c]) && Rooted(Run(acts).objs, c);
  }

  /** Unlinking writes into a parent that is alive. */
  lemma UnlinkFindsParentAlive(acts: seq<Action>, t: nat)
    requires Enabled(Run(acts), Unlink(t))
    ensures var objs := Run(acts).objs;
      var p := objs[Top(Run(acts), t).value.obj].parent;
      p.Some? ==> p.value < |objs| && objs[p.value].life.Alive?
  {
    var s := Run(acts);
    RunKeepsInv(acts);
    TopFrame(s, t);
    assert Known(s, Place(t, |Stack(s, t)| - 1)) && Sound(s.objs[Top(s, t).value.obj]);
    ReferencesKeepAlive(acts, Top(s, t).value.obj);
  }

  // ---- Which of parent and child is freed first -------------------------------------------------

  /** The program holds and borrows no reference to p, and one handle does. */
  predicate LastHeldOnce(s: Sys, p: nat) {
    p < |s.objs| && s.objs[p].ext == 0 && s.objs[p].pins == {} && Refs(s.objs, p) == 1
  }

  /** The parent of the handle whose finalizer is about to release it. */
  function Releasing(s: Sys, t: nat): Option<nat>
    requires Enabled(s, DropParent(t))
  {
    s.objs[Top(s, t).value.obj].parent
  }

  lemma DropStartsParent(s: Sys, t: nat)
    requires Inv(s) && Enabled(s, DropParent(t)) && Releasing(s, t).Some?
    ensures var p := Releasing(s, t).value;
      var u := Step(s, DropParent(t));
      && p < |s.objs| == |u.objs|
      && (!u.objs[p].life.Alive? <==> LastHeldOnce(s, p))
      && (!u.objs[p].life.Alive? ==> u.objs[p].life == Dying(Place(t, |Stack(s, t)|), Wanting))
  {
    hide Sound, Placed, Known, Shaped, Locked, Refs;
    var c, p := Top(s, t).value.obj, Releasing(s, t).value;
    DropFacts(s, t);
    RefsAtLeast(s.objs, c, p);
    HolderKeepsAlive(s, c, p);
    assert Counted(s.objs, p);
  }

  /** Releasing the parent starts its finalizer exactly when the program has no
    * reference to it left and this child is its only holder. */
  lemma ReleaseStartsParentExactly(acts: seq<Action>, t: nat)
    requires Enabled(Run(acts), DropParent(t)) && Releasing(Run(acts), t).Some?
    ensures var s := Run(acts);
      var p := Releasing(s, t).value;
      p < |Step(s, DropParent(t)).objs|
      && (!Step(s, DropParent(t)).objs[p].life.Alive? <==> LastHeldOnce(s, p))
  {
    hide Run, Inv, Step;
    RunKeepsInv(acts);
    DropStartsParent(Run(acts), t);
  }

  /** Moving a frame to another stage leaves every handle's frame where it is. */
  lemma MoveToLife(s: Sys, t: nat, at: Stage, o: nat)
    requires PlacesOk(s) && Stack(s, t) != [] && !Top(s, t).value.Tear? && Top(s, t).value.obj < |s.objs|
    requires o < |s.objs|
    ensures var life := MoveTo(s, t, at).objs[o].life;
      life == s.objs[o].life || (life.Dying? && s.objs[o].life.Dying? && life.place == s.objs[o].life.place)
  {
    TopFrame(s, t);
    assert Known(s, Place(t, |Stack(s, t)| - 1));
  }

  lemma DropOneLife(s: Sys, t: nat, x: nat, o: nat)
    requires x < |s.objs| && o < |s.objs| && o != x
    ensures DropOne(s, t, x).objs[o] == s.objs[o]
  {
  }

  /** From the start of a finalizer a handle's frame stays where it is until, on top
    * of its stack, it frees the handle; and freed is for good. */
  ghost predicate LivesOn(s: Sys, u: Sys, o: nat)
    requires o < |s.objs|
  {
    && o < |u.objs|
    && (s.objs[o].life.Freed? ==> u.objs[o].life.Freed?)
    && (s.objs[o].life.Dying? ==>
          var p := s.objs[o].life.place;
          || (u.objs[o].life.Dying? && u.objs[o].life.place == p)
          || (u.objs[o].life.Freed? && p.depth + 1 == |Stack(s, p.thread)|))
  }

  lemma FiniLife(s: Sys, t: nat, o: nat)
    requires Inv(s) && Enabled(s, Fini(t)) && o < |s.objs| && !s.objs[o].life.Alive?
    ensures LivesOn(s, Step(s, Fini(t)), o)
  {
    hide Sound, Counted, Placed, Known, Shaped, Locked, Refs;
    var x := Top(s, t).value.obj;
    FiniFacts(s, t);
    if s.objs[x].clock.Some? {
      HolderKeepsAlive(s, x, s.objs[x].clock.value);
      DropOneLife(AfterFini(s, t), t, s.objs[x].clock.value, o);
    }
  }

  lemma DropParentLife(s: Sys, t: nat, o: nat)
    requires Inv(s) && Enabled(s, DropParent(t)) && o < |s.objs| && !s.objs[o].life.Alive?
    ensures LivesOn(s, Step(s, DropParent(t)), o)
  {
    hide Sound, Counted, Placed, Known, Shaped, Locked, Refs;
    var x := Top(s, t).value.obj;
    DropFacts(s, t);
    MoveToLife(s, t, Freeing, o);
    if s.objs[x].parent.Some? {
      HolderKeepsAlive(s, x, s.objs[x].parent.value);
      var u := MoveTo(s, t, Freeing);
      DropOneLife(Put(u, x, u.objs[x].(held := false)), t, s.objs[x].parent.value, o);
    }
  }

  lemma FreeLife(s: Sys, t: nat, o: nat)
    requires Inv(s) && Enabled(s, FreeMemory(t)) && o < |s.objs| && !s.objs[o].life.Alive?
    ensures LivesOn(s, Step(s, FreeMemory(t)), o)
  {
    hide Sound, Counted, Placed, Known, Shaped, Locked, Refs;
    FreeFacts(s, t);
  }

  lemma StageLife(s: Sys, a: Action, o: nat)
    requires Inv(s) && Enabled(s, a) && o < |s.objs| && (a.Acquire? || a.Begin? || a.Release?)
    ensures LivesOn(s, Step(s, a), o)
  {
    hide Sound, Counted, Placed, Known, Shaped, Locked, Refs;
    MoveToLife(s, a.thread, if a.Acquire? then Holding else if a.Begin? then Torn else Dropping, o);
  }

  lemma CreateLife(s: Sys, a: Action, o: nat)
    requires Enabled(s, a) && o < |s.objs| && a.Create?
    ensures LivesOn(s, Step(s, a), o)
  {
    hide Enabled, Step;
    CreateGrows(s, a.parent, a.clock, a.isClock);
    assert Step(s, a).objs[o] == Older(s.objs, a.parent, a.clock, o);
  }

  lemma StepLife(s: Sys, a: Action, o: nat)
    requires Inv(s) && o < |s.objs| && !s.objs[o].life.Alive?
    ensures LivesOn(s, Step(s, a), o)
  {
    hide Sound, Counted, Placed, Known, Shaped, Locked, Refs;
    hide RunFini, ReleaseParent, FreeObj, MoveTo, Created, AfterUnlock;
    if Enabled(s, a) {
      match a
      case Create(_, _, _) => CreateLife(s, a, o);
      case DropRef(t, x) =>
        CountsSound(s, x);
        DropOneLife(Put(s, x, s.objs[x].(ext := s.objs[x].ext - 1)), t, x, o);
      case Acquire(_) => StageLife(s, a, o);
      case Begin(_) => StageLife(s, a, o);
      case Fini(t) => FiniLife(s, t, o);
      case Release(_) => StageLife(s, a, o);
      case DropParent(t) => DropParentLife(s, t, o);
      case FreeMemory(t) => FreeLife(s, t, o);
      case _ =>
    }
  }

  /** The finalizer of p runs nested in that of c, or p is freed. */
  ghost predicate ParentAhead(s: Sys, c: nat, p: nat) {
    && c < |s.objs| && p < |s.objs|
    && (s.objs[p].life.Freed?
        || (s.objs[c].life.Dying? && s.objs[p].life.Dying?
            && s.objs[p].life.place == Place(s.objs[c].life.place.thread, s.objs[c].life.place.depth + 1)))
  }

  lemma StepGrows(s: Sys, a: Action)
    requires Inv(s)
    ensures |Step(s, a).objs| >= |s.objs|
  {
    hide Sound, Counted, Placed, Known, Shaped, Locked, Refs, Inv;
  }

  lemma StepKeepsAhead(s: Sys, a: Action, c: nat, p: nat)
    requires Inv(s) && ParentAhead(s, c, p)
    ensures ParentAhead(Step(s, a), c, p)
  {
    hide Step, Sound, Counted, Known, Shaped, Locked, Rooted;
    StepLife(s, a, p);
    if !s.objs[p].life.Freed? {
      StepLife(s, a, c);
      assert Placed(s, p);
    } else {
      StepGrows(s, a);
    }
  }

  lemma {:induction false} StaysAhead(s: Sys, acts: seq<Action>, c: nat, p: nat)
    requires Inv(s) && ParentAhead(s, c, p)
    ensures ParentAhead(RunFrom(s, acts), c, p)
    decreases |acts|
  {
    hide Step, Inv, ParentAhead;
    if acts != [] {
      StepKeepsAhead(s, acts[0], c, p);
      StepKeepsInv(s, acts[0]);
      StaysAhead(Step(s, acts[0]), acts[1..], c, p);
    }
  }

  /** Once c's finalizer has released the parent p, c is never freed before p. */
  ghost predicate NeverFreedBefore(s: Sys, c: nat, p: nat) {
    forall more: seq<Action> ::
      var u := RunFrom(s, more);
      c < |u.objs| && p < |u.objs| && (u.objs[c].life.Freed? ==> u.objs[p].life.Freed?)
  }

  lemma AheadNeverFreedBefore(s: Sys, c: nat, p: nat)
    requires Inv(s) && ParentAhead(s, c, p)
    ensures NeverFreedBefore(s, c, p)
  {
    hide Inv;
    forall more: seq<Action>
      ensures var u := RunFrom(s, more);
        c < |u.objs| && p < |u.objs| && (u.objs[c].life.Freed? ==> u.objs[p].life.Freed?)
    {
      StaysAhead(s, more, c, p);
    }
  }

  /** A child whose parent lives on after its release can be freed next. */
  lemma ChildCanGoFirst(s: Sys, t: nat)
    requires Inv(s) && Enabled(s, DropParent(t)) && Releasing(s, t).Some?
    requires var p := Releasing(s, t).value;
      p < |s.objs| && Step(s, DropParent(t)).objs[p].life.Alive?
    ensures !NeverFreedBefore(Step(s, DropParent(t)), Top(s, t).value.obj, Releasing(s, t).value)
  {
    hide Inv, Refs;
    var c, p := Top(s, t).value.obj, Releasing(s, t).value;
    var u := Step(s, DropParent(t));
    DropFacts(s, t);
    assert Top(u, t) == Some(Finalize(c, Freeing));
    var v := Step(u, FreeMemory(t));
    assert [FreeMemory(t)][1..] == [] && RunFrom(u, [FreeMemory(t)]) == RunFrom(v, []) == v;
    assert v.objs[c].life.Freed? && v.objs[p].life.Alive?;
  }

  lemma DropLeavesAhead(s: Sys, t: nat)
    requires Inv(s) && Enabled(s, DropParent(t)) && Releasing(s, t).Some?
    requires LastHeldOnce(s, Releasing(s, t).value)
    ensures ParentAhead(Step(s, DropParent(t)), Top(s, t).value.obj, Releasing(s, t).value)
  {
    hide Sound, Placed, Known, Shaped, Locked, Refs;
    DropStartsParent(s, t);
    DropFacts(s, t);
  }

  /** The exact condition.  When a child's finalizer releases its parent: if the
    * program has no reference to the parent left and the child is its only holder,
    * then in every continuation the parent is freed before the child; otherwise the
    * child can still be freed first. */
  lemma ParentFreedFirstExactly(acts: seq<Action>, t: nat)
    requires Enabled(Run(acts), DropParent(t)) && Releasing(Run(acts), t).Some?
    ensures var s := Run(acts);
      var c, p := Top(s, t).value.obj, Releasing(s, t).value;
      LastHeldOnce(s, p) <==> NeverFreedBefore(Run(acts + [DropParent(t)]), c, p)
  {
    hide Run, Inv, Step, NeverFreedBefore;
    var s := Run(acts);
    RunKeepsInv(acts);
    RunAppend(acts, [DropParent(t)]);
    RunFrom1(s, DropParent(t));
    StepKeepsInv(s, DropParent(t));
    DropStartsParent(s, t);
    if LastHeldOnce(s, Releasing(s, t).value) {
      DropLeavesAhead(s, t);
      AheadNeverFreedBefore(Step(s, DropParent(t)), Top(s, t).value.obj, Releasing(s, t).value);
    } else {
      ChildCanGoFirst(s, t);
    }
  }

  lemma FinalizerBelow(s: Sys, t: nat)
    requires Inv(s) && Enabled(s, FreeMemory(t)) && |Stack(s, t)| > 1 && !s.objs[Top(s, t).value.obj].isClock
    ensures var below := Stack(s, t)[|Stack(s, t)| - 2];
      && below.Finalize? && below.obj < |s.objs| && s.objs[below.obj].parent == Some(Top(s, t).value.obj)
      && !s.objs[below.obj].life.Freed?
  {
    hide Sound, Counted, Placed, Rooted, ChildrenFirst, Locked;
    FreeFacts(s, t);
    TopFrame(s, t);
    assert Shaped(s, Place(t, |Stack(s, t)| - 1));
    assert Known(s, Place(t, |Stack(s, t)| - 2));
  }

  /** A finalizer nested in another one, unless it is a clock's, was started by a
    * child that dropped the last reference: that child is still unfreed when its
    * parent is freed. */
  lemma NestedMeansParentFirst(acts: seq<Action>, t: nat)
    requires Enabled(Run(acts), FreeMemory(t)) && |Stack(Run(acts), t)| > 1
    requires !Run(acts).objs[Top(Run(acts), t).value.obj].isClock
    ensures var s := Run(acts);
      var p, below := Top(s, t).value.obj, Stack(s, t)[|Stack(s, t)| - 2];
      below.Finalize? && below.obj < |s.objs| && s.objs[below.obj].parent == Some(p) && !s.objs[below.obj].life.Freed?
  {
    RunKeepsInv(acts);
    FinalizerBelow(Run(acts), t);
  }

  /** A finalizer finds no linked child: a child would have kept its handle alive. */
  lemma FinalizerFindsNoChildren(acts: seq<Action>, t: nat, c: nat)
    requires Enabled(Run(acts), Begin(t)) && Top(Run(acts), t).value.Finalize?
    ensures !ChildOf(Run(acts), c, Top(Run(acts), t).value.obj)
  {
    var s := Run(acts);
    RunKeepsInv(acts);
    TopFrame(s, t);
    assert Known(s, Place(t, |Stack(s, t)| - 1));
    if ChildOf(s, c, Top(s, t).value.obj) {
      assert Sound(s.objs[c]);
      HolderKeepsAlive(s, c, Top(s, t).value.obj);
    }
  }

  /** The teardown loop only ever visits valid children. */
  lemma LoopMakesProgress(acts: seq<Action>, t: nat, c: nat)
    requires Enabled(Run(acts), Visit(t, c))
    ensures Run(acts).objs[c].valid && !Step(Run(acts), Visit(t, c)).objs[c].valid
  {
    RunKeepsInv(acts);
    LinkedChildIsValid(Run(acts), t, c);
  }

  /** Teardowns run on one thread at a time. */
  lemma OneThreadTearsDown(acts: seq<Action>, t: nat, i: nat, u: nat, j: nat)
    requires i < |Stack(Run(acts), t)| && Stack(Run(acts), t)[i].Tear?
    requires j < |Stack(Run(acts), u)| && Stack(Run(acts), u)[j].Tear?
    ensures t == u
  {
    RunKeepsInv(acts);
    TearHolds(Run(acts), t, i);
    TearHolds(Run(acts), u, j);
  }

  /** The step of a thread inside a call, rather than the start of one. */
  predicate IsCallStep(a: Action) {
    a.Acquire? || a.Begin? || a.Visit? || a.Fini? || a.Unlink? || a.Release? || a.DropParent? || a.FreeMemory?
  }

  /** A thread inside a call can step, unless it waits for a lock another thread has. */
  lemma TopCanStep(s: Sys, t: nat) returns (a: Action)
    requires Inv(s) && Stack(s, t) != [] && (s.owner == None || s.owner == Some(t) || !TopAt(s, t, Wanting))
    ensures Enabled(s, a) && IsCallStep(a) && a.thread == t
  {
    hide Sound, Counted, MayCall;
    TopFrame(s, t);
    assert Known(s, Place(t, |Stack(s, t)| - 1));
    match Top(s, t).value
    case Tear(o, finied) =>
      if finied {
        a := Unlink(t);
      } else if c :| 0 <= c < |s.objs| && ChildOf(s, c, o) {
        a := Visit(t, c);
      } else {
        a := Fini(t);
      }
    case _ =>
      match Top(s, t).value.at {
        case Wanting => a := Acquire(t);
        case Holding => a := Begin(t);
        case Torn => HolderOwns(s, t, |Stack(s, t)| - 1); a := Release(t);
        case Dropping => a := DropParent(t);
        case Freeing => a := FreeMemory(t);
      }
  }

  lemma OwnerIsInside(s: Sys)
    requires Inv(s) && s.owner.Some?
    ensures Stack(s, s.owner.value) != []
  {
    assert Depth(Stack(s, s.owner.value)) == s.depth;
  }

  lemma SomeoneSteps(s: Sys, t: nat) returns (a: Action)
    requires Inv(s) && Stack(s, t) != []
    ensures Enabled(s, a) && IsCallStep(a) && Stack(s, a.thread) != []
  {
    hide Inv, Enabled;
    if s.owner.Some? {
      OwnerIsInside(s);
      a := TopCanStep(s, s.owner.value);
    } else {
      a := TopCanStep(s, t);
    }
  }

  /** While any thread is inside a call, some thread can step: the one that owns
    * the tree lock if there is one. */
  lemma NeverStuck(acts: seq<Action>, t: nat) returns (a: Action)
    requires Stack(Run(acts), t) != []
    ensures Enabled(Run(acts), a) && IsCallStep(a)
  {
    hide Run;
    RunKeepsInv(acts);
    a := SomeoneSteps(Run(acts), t);
  }

  // ---- A run in which a parent is freed first -------------------------------------------------------------------

  /** Two handles and one thread. */
  function Pair(root: Obj, child: Obj, stack: seq<Frame>, depth: nat): Sys {
    Sys([root, child], map[0 := stack], if depth > 0 then Some(0) else None, depth)
  }

  /** A handle at one moment of its finalizer, which stands at depth d of thread 0. */
  function Phase(parent: Option<nat>, held: bool, valid: bool, linked: bool, finis: nat,
                 tearing: Option<Place>, d: nat, at: Stage): Obj
  {
    Obj(parent, held, None, false, valid, linked, finis, 0, 0, {}, tearing, Dying(Place(0, d), at))
  }

  const ROOT: Obj := Obj(None, false, None, false, true, false, 0, 1, 0, {}, None, Alive)

  /** Systems in which only thread 0 has a stack agree when their parts do. */
  lemma Same(s: Sys, u: Sys)
    requires s.objs == u.objs && s.owner == u.owner && s.depth == u.depth && Stack(s, 0) == Stack(u, 0)
    requires s.stacks.Keys == u.stacks.Keys && (forall t :: t in u.stacks ==> t == 0)
    ensures s == u
  {
    forall t | t in s.stacks ensures s.stacks[t] == u.stacks[t] {
      assert t == 0;
    }
  }

  /** The child at its last step, its parent at some phase of the nested finalizer. */
  function Nested(root: Obj, frames: seq<Frame>, depth: nat): Sys {
    Pair(root, Phase(Some(0), false, false, false, 1, None, 0, Freeing), [Finalize(1, Freeing)] + frames, depth)
  }

  // The moments of the run, in order.
  const CHILD_WANTS: Sys :=
    Pair(ROOT, Phase(Some(0), true, true, true, 0, None, 0, Wanting), [Finalize(1, Wanting)], 0)
  const CHILD_HOLDS: Sys :=
    Pair(ROOT, Phase(Some(0), true, true, true, 0, None, 0, Holding), [Finalize(1, Holding)], 1)
  const CHILD_TEARS: Sys :=
    Pair(ROOT, Phase(Some(0), true, false, true, 0, Some(Place(0, 1)), 0, Torn),
         [Finalize(1, Torn), Tear(1, false)], 1)
  const CHILD_FINIED: Sys :=
    Pair(ROOT, Phase(Some(0), true, false, true, 1, Some(Place(0, 1)), 0, Torn),
         [Finalize(1, Torn), Tear(1, true)], 1)
  const CHILD_TORN: Sys :=
    Pair(ROOT, Phase(Some(0), true, false, false, 1, None, 0, Torn), [Finalize(1, Torn)], 1)
  const CHILD_DROPS: Sys :=
    Pair(ROOT, Phase(Some(0), true, false, false, 1, None, 0, Dropping), [Finalize(1, Dropping)], 0)
  const ROOT_WANTS: Sys :=
    Nested(Phase(None, false, true, false, 0, None, 1, Wanting), [Finalize(0, Wanting)], 0)
  const ROOT_HOLDS: Sys :=
    Nested(Phase(None, false, true, false, 0, None, 1, Holding), [Finalize(0, Holding)], 1)
  const ROOT_TEARS: Sys :=
    Nested(Phase(None, false, false, false, 0, Some(Place(0, 2)), 1, Torn), [Finalize(0, Torn), Tear(0, false)], 1)
  const ROOT_FINIED: Sys :=
    Nested(Phase(None, false, false, false, 1, Some(Place(0, 2)), 1, Torn), [Finalize(0, Torn), Tear(0, true)], 1)
  const ROOT_TORN: Sys :=
    Nested(Phase(None, false, false, false, 1, None, 1, Torn), [Finalize(0, Torn)], 1)
  const ROOT_DROPS: Sys :=
    Nested(Phase(None, false, false, false, 1, None, 1, Dropping), [Finalize(0, Dropping)], 0)
  const ROOT_FREES: Sys :=
    Nested(Phase(None, false, false, false, 1, None, 1, Freeing), [Finalize(0, Freeing)], 0)

  /** A root and its child, both with one reference held by the program; then the
    * program drops both, the root's first. */
  lemma BothDropped()
    ensures var s := Step(Step(Init(), Create(None, None, false)), Create(Some(0), None, false));
      Step(Step(s, DropRef(0, 0)), DropRef(0, 1)) == CHILD_WANTS
  {
    var child := Newborn(Some(0), None, false);
    var s1 := Sys([Newborn(None, None, false)], map[], None, 0);
    Same(Step(Init(), Create(None, None, false)), s1);
    var s2 := Sys([ROOT.(rc := 2, ext := 1), child], map[], None, 0);
    Same(Step(s1, Create(Some(0), None, false)), s2);
    var s3 := Sys([ROOT, child], map[], None, 0);
    Same(Step(s2, DropRef(0, 0)), s3);
    Same(Step(s3, DropRef(0, 1)), CHILD_WANTS);
  }

  lemma ChildBegins()
    ensures Step(Step(CHILD_WANTS, Acquire(0)), Begin(0)) == CHILD_TEARS
  {
    Same(Step(CHILD_WANTS, Acquire(0)), CHILD_HOLDS);
    Same(Step(CHILD_HOLDS, Begin(0)), CHILD_TEARS);
  }

  lemma ChildFinishes()
    ensures Step(Step(Step(CHILD_TEARS, Fini(0)), Unlink(0)), Release(0)) == CHILD_DROPS
  {
    Same(Step(CHILD_TEARS, Fini(0)), CHILD_FINIED);
    Same(Step(CHILD_FINIED, Unlink(0)), CHILD_TORN);
    Same(Step(CHILD_TORN, Release(0)), CHILD_DROPS);
  }

  lemma RootStarts()
    ensures Step(Step(CHILD_DROPS, DropParent(0)), Acquire(0)) == ROOT_HOLDS
  {
    Same(Step(CHILD_DROPS, DropParent(0)), ROOT_WANTS);
    Same(Step(ROOT_WANTS, Acquire(0)), ROOT_HOLDS);
  }

  lemma RootBegins()
    ensures Step(ROOT_HOLDS, Begin(0)) == ROOT_TEARS
  {
    Same(Step(ROOT_HOLDS, Begin(0)), ROOT_TEARS);
  }

  lemma RootFinis()
    ensures Step(ROOT_TEARS, Fini(0)) == ROOT_FINIED
  {
    Same(Step(ROOT_TEARS, Fini(0)), ROOT_FINIED);
  }

  lemma RootUnlinks()
    ensures Step(ROOT_FINIED, Unlink(0)) == ROOT_TORN
  {
    Same(Step(ROOT_FINIED, Unlink(0)), ROOT_TORN);
  }

  lemma RootReleases()
    ensures Step(ROOT_TORN, Release(0)) == ROOT_DROPS
  {
    Same(Step(ROOT_TORN, Release(0)), ROOT_DROPS);
  }

  lemma RootDrops()
    ensures Step(ROOT_DROPS, DropParent(0)) == ROOT_FREES
  {
    Same(Step(ROOT_DROPS, DropParent(0)), ROOT_FREES);
  }

  lemma RootFreed()
    ensures var objs := Step(ROOT_FREES, FreeMemory(0)).objs;
      |objs| == 2 && objs[0].life.Freed? && !objs[1].life.Freed? && objs[1].parent == Some(0)
  {
  }

  lemma RunFrom3(s: Sys, a: Action, b: Action, c: Action)
    ensures RunFrom(s, [a, b, c]) == Step(Step(Step(s, a), b), c)
  {
    hide Step;
    assert [a, b, c][1..] == [b, c] && [b, c][1..] == [c];
    assert RunFrom(Step(s, a), [b, c]) == RunFrom(Step(Step(s, a), b), [c]);
  }

  lemma RunFrom4(s: Sys, a: Action, b: Action, c: Action, d: Action)
    ensures RunFrom(s, [a, b, c, d]) == Step(Step(Step(Step(s, a), b), c), d)
  {
    hide Step;
    assert [a, b, c, d][1..] == [b, c, d];
    RunFrom3(Step(s, a), b, c, d);
  }

  lemma RunFrom5(s: Sys, a: Action, b: Action, c: Action, d: Action, e: Action)
    ensures RunFrom(s, [a, b, c, d, e]) == Step(Step(Step(Step(Step(s, a), b), c), d), e)
  {
    hide Step;
    assert [a, b, c, d, e][1..] == [b, c, d, e];
    RunFrom4(Step(s, a), b, c, d, e);
  }

  lemma RunNothing()
    ensures Run([]) == Init()
  {
  }

  /** The finalizer releases the parent before it frees its own memory, so when a
    * child held the last reference the parent's memory is freed first, and the
    * child still points to it. */
  lemma ParentCanBeFreedFirst() returns (acts: seq<Action>)
    ensures var objs := Run(acts).objs;
      |objs| == 2 && objs[0].life.Freed? && !objs[1].life.Freed? && objs[1].parent == Some(0)
  {
    hide Step, Run, RunFrom;
    var drop := [Create(None, None, false), Create(Some(0), None, false), DropRef(0, 0), DropRef(0, 1)];
    RunAppend([], drop);
    RunNothing();
    RunFrom4(Init(), drop[0], drop[1], drop[2], drop[3]);
    BothDropped();
    var child := [Acquire(0), Begin(0), Fini(0), Unlink(0), Release(0)];
    RunAppend([] + drop, child);
    RunFrom5(Run([] + drop), child[0], child[1], child[2], child[3], child[4]);
    ChildBegins();
    ChildFinishes();
    var root := [DropParent(0), Acquire(0), Begin(0), Fini(0), Unlink(0)];
    RunAppend([] + drop + child, root);
    RunFrom5(Run([] + drop + child), root[0], root[1], root[2], root[3], root[4]);
    RootStarts();
    RootBegins();
    RootFinis();
    RootUnlinks();
    var free := [Release(0), DropParent(0), FreeMemory(0)];
    RunAppend([] + drop + child + root, free);
    RunFrom3(Run([] + drop + child + root), free[0], free[1], free[2]);
    RootReleases();
    RootDrops();
    RootFreed();
    acts := [] + drop + child + root + free;
  }
}
