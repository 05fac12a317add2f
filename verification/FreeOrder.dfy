/** Which of a parent and its child is freed first, once the child's finalizer has
  * released the parent: whatever the program does meanwhile, the parent can be
  * freed first, unless the program keeps a reference to it. */
module FreeOrder {
  import opened Options
  import opened References
  import opened Lifetimes
  import opened CallsReturn

  /** The references to a handle that the program holds or lends to its own calls. */
  function ProgramShare(x: Obj): nat {
    x.ext + |x.pins|
  }

  function Shares(objs: seq<Obj>): nat {
    if objs == [] then 0 else Shares(objs[..|objs| - 1]) + ProgramShare(objs[|objs| - 1])
  }

  lemma {:induction false} SameShares(objs: seq<Obj>, n: seq<Obj>)
    requires |n| == |objs| && forall o :: 0 <= o < |objs| ==> ProgramShare(n[o]) == ProgramShare(objs[o])
    ensures Shares(n) == Shares(objs)
  {
    if objs != [] {
      SameShares(objs[..|objs| - 1], n[..|n| - 1]);
    }
  }

  lemma {:induction false} SharesPut(objs: seq<Obj>, o: nat, x: Obj)
    requires o < |objs|
    ensures Shares(objs[o := x]) + ProgramShare(objs[o]) == Shares(objs) + ProgramShare(x)
  {
    var last := |objs| - 1;
    if o == last {
      assert objs[o := x][..last] == objs[..last];
    } else {
      SharesPut(objs[..last], o, x);
      assert objs[o := x][..last] == objs[..last][o := x];
    }
  }

  // ---- What a step of a call leaves alone -------------------------------------------------------

  /** A step of thread t that works on its top frame: no share changes, the frames
    * below the top stay, and only the freed handle loses its parent. */
  ghost predicate LocalTo(s: Sys, u: Sys, t: nat) {
    && |u.objs| == |s.objs|
    && (forall o :: 0 <= o < |s.objs| ==> ProgramShare(u.objs[o]) == ProgramShare(s.objs[o]))
    && Stack(s, t) != []
    && |Stack(u, t)| >= |Stack(s, t)| - 1
    && Stack(u, t)[..|Stack(s, t)| - 1] == Stack(s, t)[..|Stack(s, t)| - 1]
    && (forall o :: 0 <= o < |s.objs| && Top(s, t) != Some(Finalize(o, Freeing)) ==>
          u.objs[o].parent == s.objs[o].parent)
  }

  lemma SameShare(x: Obj, n: nat, life: Life)
    ensures ProgramShare(x.(rc := n, life := life)) == ProgramShare(x)
  {
  }

  lemma DropOneLocal(s: Sys, u: Sys, t: nat, o: nat)
    requires LocalTo(s, u, t) && o < |u.objs| && |Stack(u, t)| >= |Stack(s, t)|
    ensures LocalTo(s, DropOne(u, t, o), t)
  {
    hide ProgramShare;
    assert forall x: Obj, n, life :: ProgramShare(x.(rc := n, life := life)) == ProgramShare(x) by {
      forall x: Obj, n, life ensures ProgramShare(x.(rc := n, life := life)) == ProgramShare(x) {
        SameShare(x, n, life);
      }
    }
  }

  lemma FiniLocal(s: Sys, t: nat)
    requires Inv(s) && Enabled(s, Fini(t))
    ensures LocalTo(s, Step(s, Fini(t)), t)
  {
    hide Sound, Counted, Placed, Known, Shaped, Locked, Refs;
    var o := Top(s, t).value.obj;
    FiniFacts(s, t);
    if s.objs[o].clock.Some? {
      DropOneLocal(s, AfterFini(s, t), t, s.objs[o].clock.value);
    }
  }

  lemma DropParentLocal(s: Sys, t: nat)
    requires Inv(s) && Enabled(s, DropParent(t))
    ensures LocalTo(s, Step(s, DropParent(t)), t)
  {
    hide Sound, Counted, Placed, Known, Shaped, Locked, Refs;
    var o := Top(s, t).value.obj;
    DropFacts(s, t);
    if s.objs[o].parent.Some? {
      var u := MoveTo(s, t, Freeing);
      DropOneLocal(s, Put(u, o, u.objs[o].(held := false)), t, s.objs[o].parent.value);
    }
  }

  lemma ReleaseLocal(s: Sys, t: nat)
    requires Inv(s) && Enabled(s, Release(t))
    ensures LocalTo(s, Step(s, Release(t)), t)
  {
    hide Sound, Counted, Placed, Known, Shaped, Locked, Refs;
    if Top(s, t).value.Destroy? {
      Unpinned(s, t);
    }
  }

  lemma FreeLocal(s: Sys, t: nat)
    requires Inv(s) && Enabled(s, FreeMemory(t))
    ensures LocalTo(s, Step(s, FreeMemory(t)), t)
  {
    hide Sound, Counted, Placed, Known, Shaped, Locked, Refs;
    FreeFacts(s, t);
    assert Top(s, t) == Some(Finalize(Top(s, t).value.obj, Freeing));
  }

  lemma StageLocal(s: Sys, a: Action)
    requires Enabled(s, a) && (a.Acquire? || a.Begin? || a.Visit? || a.Unlink?)
    ensures LocalTo(s, Step(s, a), a.thread)
  {
  }

  lemma CallStepLocal(s: Sys, a: Action)
    requires Inv(s) && Enabled(s, a) && IsCallStep(a)
    ensures LocalTo(s, Step(s, a), a.thread)
  {
    hide Inv, Enabled, Step, LocalTo;
    match a
    case Fini(t) => FiniLocal(s, t);
    case Release(t) => ReleaseLocal(s, t);
    case DropParent(t) => DropParentLocal(s, t);
    case FreeMemory(t) => FreeLocal(s, t);
    case _ => StageLocal(s, a);
  }

  // ---- Thread t stops above a chain of finalizers at their last step ------------------------------

  predicate AtLastStep(base: seq<Frame>) {
    forall i :: 0 <= i < |base| ==> base[i].Finalize? && base[i].at == Freeing
  }

  predicate StandsOn(s: Sys, t: nat, base: seq<Frame>) {
    |base| <= |Stack(s, t)| && Stack(s, t)[..|base|] == base
  }

  /** Thread v has a call to finish, other than those of the chain. */
  predicate Busy(s: Sys, t: nat, base: seq<Frame>, v: nat) {
    if v == t then |Stack(s, t)| > |base| else Stack(s, v) != []
  }

  lemma {:induction false} LastStepHoldsNothing(base: seq<Frame>)
    requires AtLastStep(base)
    ensures Depth(base) == 0
  {
    if base != [] {
      LastStepHoldsNothing(base[..|base| - 1]);
    }
  }

  /** Thread t does not own the tree lock there, so a busy thread can step. */
  lemma BusySteps(s: Sys, t: nat, base: seq<Frame>, v: nat) returns (a: Action)
    requires Inv(s) && StandsOn(s, t, base) && AtLastStep(base) && Busy(s, t, base, v)
    ensures Enabled(s, a) && IsCallStep(a) && Busy(s, t, base, a.thread)
  {
    hide Enabled, ObjsOk, PlacesOk, ShapeOk, CountsOk, Depth;
    if s.owner.Some? {
      OwnerIsInside(s);
      if s.owner.value == t && Stack(s, t) == base {
        LastStepHoldsNothing(base);
        assert false;
      }
      assert Stack(s, t)[..|base|] == base;
      a := TopCanStep(s, s.owner.value);
    } else {
      a := TopCanStep(s, v);
    }
  }

  /** What the steps of the busy threads and of the program keep. */
  lemma BusyStepKeeps(s: Sys, a: Action, t: nat, base: seq<Frame>, n: nat)
    requires Inv(s) && Enabled(s, a) && IsCallStep(a) && StandsOn(s, t, base) && Busy(s, t, base, a.thread)
    requires Bounded(s, n) && a.thread < n
    ensures var u := Step(s, a);
      && Inv(u) && StandsOn(u, t, base) && Bounded(u, n)
      && WorkLeft(u, n) < WorkLeft(s, n) && Shares(u.objs) == Shares(s.objs) && |u.objs| == |s.objs|
      && (forall o :: 0 <= o < |s.objs| ==> ProgramShare(u.objs[o]) == ProgramShare(s.objs[o]))
  {
    hide Inv, Enabled, Step, WorkLeft;
    var u := Step(s, a);
    CallStepWork(s, a, n);
    CallStepLocal(s, a);
    StepKeepsInv(s, a);
    SameShares(s.objs, u.objs);
    if a.thread == t {
      var k := |Stack(s, t)| - 1;
      assert Stack(u, t)[..|base|] == Stack(u, t)[..k][..|base|];
      assert Stack(s, t)[..|base|] == Stack(s, t)[..k][..|base|];
    }
  }

  /** The handle of the last frame of the chain is not the one at work, so its
    * pointer to the parent stays. */
  lemma BusyKeepsPointer(s: Sys, a: Action, t: nat, base: seq<Frame>)
    requires Inv(s) && Enabled(s, a) && IsCallStep(a) && StandsOn(s, t, base) && Busy(s, t, base, a.thread)
    requires base != [] && AtLastStep(base)
    ensures var c := base[|base| - 1].obj;
      c < |s.objs| == |Step(s, a).objs| && Step(s, a).objs[c].parent == s.objs[c].parent
  {
    hide Enabled, Step, ObjsOk, ShapeOk, CountsOk, Locked, Placed;
    var c := base[|base| - 1].obj;
    assert Known(s, Place(t, |base| - 1));
    CallStepLocal(s, a);
    TopFrame(s, a.thread);
    assert Known(s, Place(a.thread, |Stack(s, a.thread)| - 1));
  }

  /** Nothing is left but the chain. */
  ghost predicate Resting(s: Sys, t: nat, base: seq<Frame>) {
    && Stack(s, t) == base
    && (forall v: nat :: v != t ==> Stack(s, v) == [])
    && (forall o :: 0 <= o < |s.objs| ==> s.objs[o].ext == 0)
  }

  /** A call finishes, or the program drops a reference that it holds in s. */
  predicate IsEnding(s: Sys, a: Action) {
    IsCallStep(a) || (a.DropRef? && a.obj < |s.objs| && ProgramShare(s.objs[a.obj]) > 0)
  }

  /** The program drops a reference on a thread that is in no call. */
  lemma DropRefStep(s: Sys, v: nat, o: nat, t: nat, base: seq<Frame>, n: nat)
    requires Inv(s) && StandsOn(s, t, base) && Bounded(s, n) && v < n && v != t
    requires Stack(s, v) == [] && o < |s.objs| && s.objs[o].ext > 0
    ensures Enabled(s, DropRef(v, o)) && IsEnding(s, DropRef(v, o))
    ensures var u := Step(s, DropRef(v, o));
      && Inv(u) && StandsOn(u, t, base) && Bounded(u, n) && |u.objs| == |s.objs|
      && Shares(u.objs) < Shares(s.objs)
      && (forall q :: 0 <= q < |s.objs| ==>
            ProgramShare(u.objs[q]) <= ProgramShare(s.objs[q]) && u.objs[q].parent == s.objs[q].parent)
  {
    hide Inv, Shares;
    var x := s.objs[o].(ext := s.objs[o].ext - 1);
    var u := Step(s, DropRef(v, o));
    StepKeepsInv(s, DropRef(v, o));
    SharesPut(s.objs, o, x);
    SameShares(Put(s, o, x).objs, u.objs);
    assert forall w: nat :: w != v ==> Stack(u, w) == Stack(s, w);
  }

  /** Whether the steps stay endings when seen from an earlier state. */
  lemma EndingsEarlier(s: Sys, u: Sys, more: seq<Action>)
    requires |u.objs| == |s.objs|
    requires forall o :: 0 <= o < |s.objs| ==> ProgramShare(u.objs[o]) <= ProgramShare(s.objs[o])
    requires forall a :: a in more ==> IsEnding(u, a)
    ensures forall a :: a in more ==> IsEnding(s, a)
  {
    hide ProgramShare;
    forall a | a in more ensures IsEnding(s, a) {
      assert IsEnding(u, a);
    }
  }

  lemma BusyBelow(s: Sys, t: nat, base: seq<Frame>, v: nat, n: nat)
    requires Busy(s, t, base, v) && Bounded(s, n) && t < n
    ensures v < n
  {
  }

  lemma NobodyBusy(s: Sys, t: nat, base: seq<Frame>, n: nat)
    requires Inv(s) && StandsOn(s, t, base) && base != [] && AtLastStep(base) && Bounded(s, n) && t < n
    requires forall v: nat :: v < n ==> !Busy(s, t, base, v)
    requires forall o :: 0 <= o < |s.objs| ==> s.objs[o].ext == 0
    ensures Resting(s, t, base) && base[|base| - 1].obj < |s.objs|
  {
    hide ObjsOk, ShapeOk, CountsOk, Locked, Placed;
    assert !Busy(s, t, base, t);
    assert Known(s, Place(t, |base| - 1));
    forall v: nat | v != t ensures Stack(s, v) == [] {
      assert v < n ==> !Busy(s, t, base, v);
    }
  }

  /** The calls of all threads down to the chain finish, then the program drops a
    * reference, and so on until nothing is left. */
  lemma {:induction false} Exhaust(s: Sys, t: nat, base: seq<Frame>, n: nat) returns (more: seq<Action>)
    requires Inv(s) && StandsOn(s, t, base) && AtLastStep(base) && base != [] && Bounded(s, n) && t < n && n >= 2
    ensures var v := RunFrom(s, more);
      var c := base[|base| - 1].obj;
      && Inv(v) && Resting(v, t, base) && |v.objs| == |s.objs|
      && c < |s.objs| && v.objs[c].parent == s.objs[c].parent
    ensures forall a :: a in more ==> IsEnding(s, a)
    decreases Shares(s.objs), WorkLeft(s, n)
  {
    hide Inv, Enabled, Step, WorkLeft, Stack, Shares, ProgramShare, StandsOn, AtLastStep;
    if v: nat :| v < n && Busy(s, t, base, v) {
      var a := BusySteps(s, t, base, v);
      BusyBelow(s, t, base, a.thread, n);
      BusyStepKeeps(s, a, t, base, n);
      BusyKeepsPointer(s, a, t, base);
      var rest := Exhaust(Step(s, a), t, base, n);
      EndingsEarlier(s, Step(s, a), rest);
      more := [a] + rest;
      assert more[1..] == rest;
    } else if o: nat :| o < |s.objs| && s.objs[o].ext > 0 {
      var v := if t == 0 then 1 else 0;
      assert !Busy(s, t, base, v);
      DropRefStep(s, v, o, t, base, n);
      var rest := Exhaust(Step(s, DropRef(v, o)), t, base, n);
      EndingsEarlier(s, Step(s, DropRef(v, o)), rest);
      more := [DropRef(v, o)] + rest;
      assert more[1..] == rest;
    } else {
      more := [];
      NobodyBusy(s, t, base, n);
    }
  }

  // ---- What is left is the chain --------------------------------------------------------------------

  /** A handle that is not alive holds no reference: it has been freed, or it is in
    * the chain. */
  lemma RestingHoldsNothing(s: Sys, t: nat, base: seq<Frame>, o: nat, q: nat)
    requires Inv(s) && Resting(s, t, base) && AtLastStep(base) && o < |s.objs| && !s.objs[o].life.Alive?
    ensures RefsOf(s.objs[o], q) == 0
    ensures s.objs[o].life.Dying? ==> exists i :: 0 <= i < |base| && base[i].obj == o
  {
    hide Counted, Known, Shaped, Locked, Refs, Rooted, ChildrenFirst;
    assert Sound(s.objs[o]) && Placed(s, o);
    if s.objs[o].life.Dying? {
      assert base[s.objs[o].life.place.depth].obj == o;
    }
  }

  lemma OlderHoldsNothing(s: Sys, c: nat, k: nat)
    requires Inv(s) && c <= k < |s.objs|
    ensures RefsOf(s.objs[c], k) == 0
  {
    hide Sound, Counted, PlacesOk, ShapeOk, Locked;
    assert Rooted(s.objs, c);
  }

  lemma UnheldIsDead(s: Sys, t: nat, base: seq<Frame>, k: nat)
    requires Inv(s) && Resting(s, t, base) && AtLastStep(base) && k < |s.objs| && Refs(s.objs, k) == 0
    ensures !s.objs[k].life.Alive?
  {
    hide Refs, Known, ShapeOk, Locked, Rooted, ChildrenFirst;
    assert Sound(s.objs[k]) && Counted(s.objs, k) && Placed(s, k);
    forall v ensures v !in s.objs[k].pins {
      assert v != t ==> Stack(s, v) == [];
    }
    assert s.objs[k].pins == {};
  }

  /** From the youngest handle down, nobody holds a reference to it, so it is dead. */
  lemma {:induction false} NoneAlive(s: Sys, t: nat, base: seq<Frame>, k: nat)
    requires Inv(s) && Resting(s, t, base) && AtLastStep(base) && k <= |s.objs|
    ensures forall o :: k <= o < |s.objs| ==> !s.objs[o].life.Alive?
    decreases |s.objs| - k
  {
    hide Inv, Resting, AtLastStep;
    if k < |s.objs| {
      NoneAlive(s, t, base, k + 1);
      forall c | 0 <= c < |s.objs| ensures RefsOf(s.objs[c], k) == 0 {
        if c > k {
          RestingHoldsNothing(s, t, base, c, k);
        } else {
          OlderHoldsNothing(s, c, k);
        }
      }
      NoRefs(s.objs, k);
      UnheldIsDead(s, t, base, k);
    }
  }

  /** Below the finalizer of a handle other than a clock, at its last step, there are
    * only finalizers of descendants, at their last step. */
  lemma {:induction false} ChainBelow(s: Sys, t: nat, j: nat)
    requires Inv(s) && j < |Stack(s, t)| && Stack(s, t)[j].Finalize? && Stack(s, t)[j].at == Freeing
    requires Stack(s, t)[j].obj < |s.objs| && !s.objs[Stack(s, t)[j].obj].isClock
    ensures AtLastStep(Stack(s, t)[..j + 1])
    ensures forall i :: 0 <= i <= j ==> Stack(s, t)[i].obj >= Stack(s, t)[j].obj
  {
    hide Counted, Known, Placed, Locked, ChildrenFirst;
    if j > 0 {
      assert Shaped(s, Place(t, j));
      var below := Stack(s, t)[j - 1];
      assert FrameAt(s, Place(t, j - 1)) == Some(below);
      assert Sound(s.objs[below.obj]) && Rooted(s.objs, below.obj);
      ChainBelow(s, t, j - 1);
    }
  }

  // ---- The parent can be freed first ------------------------------------------------------------------

  lemma ChainStands(s: Sys, t: nat, base: seq<Frame>)
    requires |base| <= |Stack(s, t)| && base == Stack(s, t)[..|base|]
    ensures StandsOn(s, t, base)
  {
  }

  lemma ReleasedFrame(s: Sys, t: nat)
    requires Inv(s) && Enabled(s, DropParent(t)) && Releasing(s, t).Some?
    ensures var u := Step(s, DropParent(t));
      var c, p := Top(s, t).value.obj, Releasing(s, t).value;
      && |Stack(u, t)| >= |Stack(s, t)| && Stack(u, t)[|Stack(s, t)| - 1] == Finalize(c, Freeing)
      && p < c < |s.objs| == |u.objs| && u.objs[c].parent == Some(p) && !u.objs[c].isClock
  {
    hide Counted, Placed, Known, Shaped, Locked, Refs;
    DropFacts(s, t);
    assert Sound(s.objs[Top(s, t).value.obj]);
  }

  /** The frames of thread t up to that of the handle that has just released its
    * parent: all at their last step, all of handles younger than the parent. */
  lemma ReleasedChain(s: Sys, t: nat) returns (base: seq<Frame>)
    requires Inv(s) && Enabled(s, DropParent(t)) && Releasing(s, t).Some?
    ensures var u := Step(s, DropParent(t));
      var c, p := Top(s, t).value.obj, Releasing(s, t).value;
      && StandsOn(u, t, base) && AtLastStep(base) && base != [] && base[|base| - 1].obj == c
      && p < c < |u.objs| == |s.objs| && u.objs[c].parent == Some(p)
      && ProgramShare(u.objs[p]) == ProgramShare(s.objs[p])
      && forall i :: 0 <= i < |base| ==> base[i].obj > p
  {
    hide Inv, StandsOn, AtLastStep, ProgramShare;
    var u := Step(s, DropParent(t));
    var d := |Stack(s, t)| - 1;
    base := Stack(u, t)[..d + 1];
    StepKeepsInv(s, DropParent(t));
    DropParentLocal(s, t);
    ReleasedFrame(s, t);
    ChainBelow(u, t, d);
    ChainStands(u, t, base);
  }

  /** At rest a handle older than the whole chain has been freed, and the last of the
    * chain has not. */
  lemma RestingFreed(s: Sys, t: nat, base: seq<Frame>, p: nat)
    requires Inv(s) && Resting(s, t, base) && AtLastStep(base) && base != [] && p < |s.objs|
    requires forall i :: 0 <= i < |base| ==> base[i].obj > p
    ensures s.objs[p].life.Freed?
    ensures var c := base[|base| - 1].obj; c < |s.objs| && s.objs[c].life.Dying? && s.objs[c].life.at == Freeing
  {
    hide ObjsOk, ShapeOk, Locked, CountsOk, Placed;
    NoneAlive(s, t, base, 0);
    RestingHoldsNothing(s, t, base, p, 0);
    assert Known(s, Place(t, |base| - 1));
  }

  lemma ParentGoesFirst(s: Sys, t: nat) returns (more: seq<Action>)
    requires Inv(s) && Enabled(s, DropParent(t)) && Releasing(s, t).Some?
    ensures var u := Step(s, DropParent(t));
      var v := RunFrom(u, more);
      var c, p := Top(s, t).value.obj, Releasing(s, t).value;
      && p < c < |v.objs| && v.objs[p].life.Freed?
      && v.objs[c].life.Dying? && v.objs[c].life.at == Freeing && v.objs[c].parent == Some(p)
      && forall a :: a in more ==> IsEnding(u, a)
  {
    hide Inv, Step, StandsOn, AtLastStep, Resting, RunFrom, IsEnding;
    var u := Step(s, DropParent(t));
    var base := ReleasedChain(s, t);
    StepKeepsInv(s, DropParent(t));
    var n := KeysBelow(u.stacks.Keys);
    var m := n + t + 2;
    more := Exhaust(u, t, base, m);
    RestingFreed(RunFrom(u, more), t, base, Releasing(s, t).value);
  }

  /** Whatever holds the parent when a child's finalizer releases it, the calls under
    * way can return and the program can drop what it holds so that the parent's memory
    * is freed before the child's, the child still pointing to it. */
  lemma ParentCanGoFirst(acts: seq<Action>, t: nat) returns (more: seq<Action>)
    requires Enabled(Run(acts), DropParent(t)) && Releasing(Run(acts), t).Some?
    ensures var c, p := Top(Run(acts), t).value.obj, Releasing(Run(acts), t).value;
      var objs := Run(acts + [DropParent(t)] + more).objs;
      && p < c < |objs| && objs[p].life.Freed? && !objs[c].life.Freed? && objs[c].parent == Some(p)
    ensures forall a :: a in more ==> IsEnding(Run(acts + [DropParent(t)]), a)
  {
    hide Run, Inv, Step, RunFrom, IsEnding;
    RunKeepsInv(acts);
    RunAppend(acts, [DropParent(t)]);
    RunFrom1(Run(acts), DropParent(t));
    more := ParentGoesFirst(Run(acts), t);
    RunAppend(acts + [DropParent(t)], more);
  }

  // ---- When the child is freed first --------------------------------------------------------------------

  lemma HeldIsAlive(s: Sys, p: nat)
    requires Inv(s) && p < |s.objs| && ProgramShare(s.objs[p]) > 0
    ensures s.objs[p].life.Alive?
  {
    assert Sound(s.objs[p]) && Counted(s.objs, p);
  }

  /** From s on, at every step until c is freed, the program holds or lends a reference to p. */
  ghost predicate HeldUntilFreed(s: Sys, more: seq<Action>, c: nat, p: nat) {
    forall k :: 0 <= k <= |more| ==>
      var v := RunFrom(s, more[..k]);
      c < |v.objs| && p < |v.objs| && (v.objs[c].life.Freed? || ProgramShare(v.objs[p]) > 0)
  }

  /** The rule of use: if the program holds or lends a reference to the parent at every
    * step until the child is freed, then until then the parent's finalizer has not
    * even begun. */
  lemma HeldParentGoesLast(acts: seq<Action>, more: seq<Action>, c: nat, p: nat)
    requires HeldUntilFreed(Run(acts), more, c, p)
    ensures forall k :: 0 <= k <= |more| ==>
      var v := RunFrom(Run(acts), more[..k]);
      c < |v.objs| && p < |v.objs| && (v.objs[p].life.Alive? || v.objs[c].life.Freed?)
  {
    hide Run, Inv, RunFrom, ProgramShare;
    RunKeepsInv(acts);
    forall k | 0 <= k <= |more|
      ensures var v := RunFrom(Run(acts), more[..k]);
        c < |v.objs| && p < |v.objs| && (v.objs[p].life.Alive? || v.objs[c].life.Freed?)
    {
      var v := RunFrom(Run(acts), more[..k]);
      RunFromKeepsInv(Run(acts), more[..k]);
      if !v.objs[c].life.Freed? {
        HeldIsAlive(v, p);
      }
    }
  }

  /** The program drops no reference to p. */
  predicate Keeps(more: seq<Action>, p: nat) {
    forall a :: a in more ==> !(a.DropRef? && a.obj == p)
  }

  lemma StartsKeepShare(s: Sys, a: Action, p: nat)
    requires p < |s.objs| && ProgramShare(s.objs[p]) > 0 && !(a.DropRef? && a.obj == p)
    requires Enabled(s, a) && !IsCallStep(a)
    ensures p < |Step(s, a).objs| && ProgramShare(Step(s, a).objs[p]) > 0
  {
    match a
    case Create(q, k, isClock) =>
      CreateGrows(s, q, k, isClock);
      assert Step(s, a).objs[p] == Older(s.objs, q, k, p);
    case CallDestroy(v, o) =>
      if o == p {
        assert v in Step(s, a).objs[p].pins;
      }
    case _ =>
  }

  lemma OthersKeepShare(s: Sys, a: Action, p: nat)
    requires Inv(s) && p < |s.objs| && ProgramShare(s.objs[p]) > 0 && !(a.DropRef? && a.obj == p)
    ensures p < |Step(s, a).objs| && ProgramShare(Step(s, a).objs[p]) > 0
  {
    hide Inv;
    if Enabled(s, a) {
      if IsCallStep(a) {
        hide Step, Enabled;
        CallStepLocal(s, a);
      } else {
        StartsKeepShare(s, a, p);
      }
    }
  }

  lemma {:induction false} KeptIsAlive(s: Sys, more: seq<Action>, p: nat)
    requires Inv(s) && p < |s.objs| && ProgramShare(s.objs[p]) > 0 && Keeps(more, p)
    ensures p < |RunFrom(s, more).objs| && RunFrom(s, more).objs[p].life.Alive?
    decreases |more|
  {
    hide Inv, Step, ProgramShare;
    if more == [] {
      HeldIsAlive(s, p);
    } else {
      OthersKeepShare(s, more[0], p);
      StepKeepsInv(s, more[0]);
      KeptIsAlive(Step(s, more[0]), more[1..], p);
    }
  }

  /** In every continuation in which the program drops no reference to p, c is freed before p. */
  ghost predicate ChildFirstIfKept(s: Sys, c: nat, p: nat) {
    forall more :: Keeps(more, p) ==>
      var v := RunFrom(s, more);
      p < |v.objs| && (v.objs[p].life.Freed? ==> c < |v.objs| && v.objs[c].life.Freed?)
  }

  lemma KeptMeansChildFirst(s: Sys, c: nat, p: nat)
    requires Inv(s) && p < |s.objs| && ProgramShare(s.objs[p]) > 0
    ensures ChildFirstIfKept(s, c, p)
  {
    hide Inv, ProgramShare, Keeps, RunFrom;
    forall more | Keeps(more, p)
      ensures p < |RunFrom(s, more).objs| && RunFrom(s, more).objs[p].life.Alive?
    {
      KeptIsAlive(s, more, p);
    }
  }

  lemma EndingsKeep(s: Sys, more: seq<Action>, p: nat)
    requires p < |s.objs| && ProgramShare(s.objs[p]) == 0 && forall a :: a in more ==> IsEnding(s, a)
    ensures Keeps(more, p)
  {
    forall a | a in more ensures !(a.DropRef? && a.obj == p) {
      assert IsEnding(s, a);
    }
  }

  /** The exact condition.  A program that keeps the references it has to the parent can
    * rely on the child being freed first exactly if, when the child's finalizer
    * releases the parent, it holds or lends one. */
  lemma ChildFirstExactly(acts: seq<Action>, t: nat)
    requires Enabled(Run(acts), DropParent(t)) && Releasing(Run(acts), t).Some?
    ensures var s := Run(acts);
      var c, p := Top(s, t).value.obj, Releasing(s, t).value;
      p < |s.objs|
      && (s.objs[p].ext > 0 || s.objs[p].pins != {} <==> ChildFirstIfKept(Run(acts + [DropParent(t)]), c, p))
  {
    hide Run, Inv, Step, RunFrom, IsEnding, Keeps;
    var s := Run(acts);
    var c, p := Top(s, t).value.obj, Releasing(s, t).value;
    RunKeepsInv(acts);
    RunAppend(acts, [DropParent(t)]);
    RunFrom1(s, DropParent(t));
    var u := Step(s, DropParent(t));
    var base := ReleasedChain(s, t);
    StepKeepsInv(s, DropParent(t));
    if ProgramShare(s.objs[p]) > 0 {
      KeptMeansChildFirst(u, c, p);
    } else {
      var more := ParentGoesFirst(s, t);
      EndingsKeep(u, more, p);
      assert !ChildFirstIfKept(u, c, p);
    }
  }
}
