/** The calls of the reference machine return: each step of a call uses up some of
  * what the handles and the calls under way have left. */
module CallsReturn {
  import opened Options
  import opened References
  import opened Lifetimes

  function StageLeft(at: Stage): nat {
    match at
    case Wanting => 5
    case Holding => 4
    case Torn => 3
    case Dropping => 2
    case Freeing => 1
  }

  /** What a handle has left: its teardown, and its finalizer. */
  function Left(x: Obj): nat {
    (if x.valid then 3 else if x.tearing.None? then 0 else if x.finis == 0 then 2 else 1)
      + (match x.life case Alive => 6 case Dying(_, at) => StageLeft(at) case Freed => 0)
  }

  function AllLeft(objs: seq<Obj>): nat {
    if objs == [] then 0 else AllLeft(objs[..|objs| - 1]) + Left(objs[|objs| - 1])
  }

  /** What an explicit destroy at the bottom of a stack has left. */
  function CallLeft(stack: seq<Frame>): nat {
    if stack != [] && stack[0].Destroy? && StageLeft(stack[0].at) > 2 then StageLeft(stack[0].at) - 2 else 0
  }

  function CallsLeft(s: Sys, n: nat): nat {
    if n == 0 then 0 else CallsLeft(s, n - 1) + CallLeft(Stack(s, n - 1))
  }

  function WorkLeft(s: Sys, n: nat): nat {
    AllLeft(s.objs) + CallsLeft(s, n)
  }

  lemma {:induction false} LeftPut(objs: seq<Obj>, o: nat, x: Obj)
    requires o < |objs|
    ensures AllLeft(objs[o := x]) + Left(objs[o]) == AllLeft(objs) + Left(x)
  {
    var last := |objs| - 1;
    if o == last {
      assert objs[o := x][..last] == objs[..last];
    } else {
      LeftPut(objs[..last], o, x);
      assert objs[o := x][..last] == objs[..last][o := x];
    }
  }

  /** Only the stack of t differs. */
  ghost predicate OnlyAt(s: Sys, u: Sys, t: nat) {
    forall v: nat :: v != t ==> Stack(u, v) == Stack(s, v)
  }

  lemma {:induction false} CallsAt(s: Sys, u: Sys, t: nat, n: nat)
    requires OnlyAt(s, u, t)
    ensures CallsLeft(u, n) + (if t < n then CallLeft(Stack(s, t)) else 0)
         == CallsLeft(s, n) + (if t < n then CallLeft(Stack(u, t)) else 0)
  {
    if n > 0 {
      CallsAt(s, u, t, n - 1);
    }
  }

  /** One step of t, in terms of the one record and the one stack it changes. */
  lemma WorkAt(s: Sys, u: Sys, t: nat, n: nat, o: nat)
    requires OnlyAt(s, u, t) && o < |s.objs| && |u.objs| == |s.objs| && u.objs == s.objs[o := u.objs[o]] && t < n
    ensures WorkLeft(u, n) + Left(s.objs[o]) + CallLeft(Stack(s, t))
         == WorkLeft(s, n) + Left(u.objs[o]) + CallLeft(Stack(u, t))
  {
    hide AllLeft, CallsLeft, Left, CallLeft;
    CallsAt(s, u, t, n);
    LeftPut(s.objs, o, u.objs[o]);
  }

  lemma DropOneWork(s: Sys, t: nat, o: nat, n: nat)
    requires o < |s.objs| && s.objs[o].life.Alive? && t < n
    ensures WorkLeft(DropOne(s, t, o), n) <= WorkLeft(s, n) && OnlyAt(s, DropOne(s, t, o), t)
  {
    hide WorkLeft;
    WorkAt(s, DropOne(s, t, o), t, n, o);
  }

  lemma StartTearWork(s: Sys, t: nat, o: nat, n: nat)
    requires o < |s.objs| && Stack(s, t) != [] && t < n && Sound(s.objs[o])
    ensures WorkLeft(StartTear(s, t, o), n) == WorkLeft(s, n) - (if s.objs[o].valid then 1 else 0)
    ensures OnlyAt(s, StartTear(s, t, o), t)
  {
    hide WorkLeft;
    WorkAt(s, StartTear(s, t, o), t, n, o);
  }

  /** A frame moves to the next stage. */
  lemma MoveToWork(s: Sys, t: nat, at: Stage, n: nat)
    requires PlacesOk(s) && Stack(s, t) != [] && !Top(s, t).value.Tear? && Top(s, t).value.obj < |s.objs| && t < n
    requires StageLeft(Top(s, t).value.at) == StageLeft(at) + 1
    requires Top(s, t).value.Destroy? ==> StageLeft(at) > 2
    ensures WorkLeft(MoveTo(s, t, at), n) == WorkLeft(s, n) - 1 && OnlyAt(s, MoveTo(s, t, at), t)
  {
    hide WorkLeft;
    var o := Top(s, t).value.obj;
    TopFrame(s, t);
    assert Known(s, Place(t, |Stack(s, t)| - 1));
    assert s.objs[o := s.objs[o]] == s.objs;
    WorkAt(s, MoveTo(s, t, at), t, n, o);
  }

  lemma TopRecord(s: Sys, t: nat)
    requires PlacesOk(s) && ShapeOk(s) && Stack(s, t) != []
    ensures Known(s, Place(t, |Stack(s, t)| - 1)) && Shaped(s, Place(t, |Stack(s, t)| - 1))
    ensures FrameAt(s, Place(t, |Stack(s, t)| - 1)) == Top(s, t)
  {
    TopFrame(s, t);
  }

  lemma TearIsNotValid(s: Sys, t: nat)
    requires Inv(s) && Stack(s, t) != [] && Top(s, t).value.Tear?
    ensures var x := Top(s, t).value.obj;
      x < |s.objs| && !s.objs[x].valid && s.objs[x].tearing.Some? && (Top(s, t).value.finied <==> s.objs[x].finis == 1)
  {
    TopRecord(s, t);
    assert Placed(s, Top(s, t).value.obj) && Sound(s.objs[Top(s, t).value.obj]);
  }

  lemma FiniWork(s: Sys, t: nat, n: nat)
    requires Inv(s) && Enabled(s, Fini(t)) && t < n
    ensures WorkLeft(Step(s, Fini(t)), n) < WorkLeft(s, n) && OnlyAt(s, Step(s, Fini(t)), t)
  {
    hide WorkLeft, Sound, Counted, Placed, Locked, Refs;
    var o := Top(s, t).value.obj;
    var u := AfterFini(s, t);
    TopRecord(s, t);
    FiniFacts(s, t);
    TearIsNotValid(s, t);
    WorkAt(s, u, t, n, o);
    if s.objs[o].clock.Some? {
      HolderKeepsAlive(s, o, s.objs[o].clock.value);
      DropOneWork(u, t, s.objs[o].clock.value, n);
    }
  }

  lemma UnlinkWork(s: Sys, t: nat, n: nat)
    requires Inv(s) && Enabled(s, Unlink(t)) && t < n
    ensures WorkLeft(Step(s, Unlink(t)), n) < WorkLeft(s, n) && OnlyAt(s, Step(s, Unlink(t)), t)
  {
    hide WorkLeft, Sound, Counted, Placed, Locked, Refs;
    TopRecord(s, t);
    TearIsNotValid(s, t);
    WorkAt(s, Step(s, Unlink(t)), t, n, Top(s, t).value.obj);
  }

  lemma BeginWork(s: Sys, t: nat, n: nat)
    requires Inv(s) && Enabled(s, Begin(t)) && t < n
    ensures WorkLeft(Step(s, Begin(t)), n) < WorkLeft(s, n) && OnlyAt(s, Step(s, Begin(t)), t)
  {
    hide WorkLeft, Counted, Placed, Locked, Refs, Known, Shaped;
    var o := Top(s, t).value.obj;
    MoveToWork(s, t, Torn, n);
    var u := MoveTo(s, t, Torn);
    if s.objs[o].valid {
      WorkAt(u, StartTear(u, t, o), t, n, o);
      BeginSound(s, t);
    }
  }

  lemma {:induction false} SameCallsLeft(s: Sys, u: Sys, n: nat)
    requires u.stacks == s.stacks
    ensures CallsLeft(u, n) == CallsLeft(s, n)
  {
    if n > 0 {
      SameCallsLeft(s, u, n - 1);
    }
  }

  lemma SameWorkLeft(s: Sys, u: Sys, n: nat)
    requires u.stacks == s.stacks && u.objs == s.objs
    ensures WorkLeft(u, n) == WorkLeft(s, n)
  {
    SameCallsLeft(s, u, n);
  }

  lemma ReleaseWork(s: Sys, t: nat, n: nat)
    requires Inv(s) && Enabled(s, Release(t)) && t < n
    ensures WorkLeft(Step(s, Release(t)), n) < WorkLeft(s, n) && OnlyAt(s, Step(s, Release(t)), t)
  {
    hide WorkLeft, Sound, Counted, Placed, Locked, Refs;
    TopRecord(s, t);
    if Top(s, t).value.Finalize? {
      MoveToWork(s, t, Dropping, n);
      SameWorkLeft(MoveTo(s, t, Dropping), Step(s, Release(t)), n);
    } else {
      WorkAt(s, Step(s, Release(t)), t, n, Top(s, t).value.obj);
    }
  }

  lemma DropParentWork(s: Sys, t: nat, n: nat)
    requires Inv(s) && Enabled(s, DropParent(t)) && t < n
    ensures WorkLeft(Step(s, DropParent(t)), n) < WorkLeft(s, n) && OnlyAt(s, Step(s, DropParent(t)), t)
  {
    hide WorkLeft, Sound, Counted, Placed, Locked, Refs, Known, Shaped;
    var o := Top(s, t).value.obj;
    DropFacts(s, t);
    MoveToWork(s, t, Freeing, n);
    var u := MoveTo(s, t, Freeing);
    var v := Put(u, o, u.objs[o].(held := false));
    WorkAt(u, v, t, n, o);
    if s.objs[o].parent.Some? {
      HolderKeepsAlive(s, o, s.objs[o].parent.value);
      DropOneWork(v, t, s.objs[o].parent.value, n);
    }
  }

  lemma FreeWork(s: Sys, t: nat, n: nat)
    requires Inv(s) && Enabled(s, FreeMemory(t)) && t < n
    ensures WorkLeft(Step(s, FreeMemory(t)), n) < WorkLeft(s, n) && OnlyAt(s, Step(s, FreeMemory(t)), t)
  {
    hide WorkLeft, Sound, Counted, Placed, Locked, Refs, Known, Shaped;
    FreeFacts(s, t);
    WorkAt(s, Step(s, FreeMemory(t)), t, n, Top(s, t).value.obj);
  }

  lemma AcquireWork(s: Sys, t: nat, n: nat)
    requires Inv(s) && Enabled(s, Acquire(t)) && t < n
    ensures WorkLeft(Step(s, Acquire(t)), n) < WorkLeft(s, n) && OnlyAt(s, Step(s, Acquire(t)), t)
  {
    hide WorkLeft, Sound, Counted, Placed, Locked, Refs, Known, Shaped, MoveTo;
    MoveToWork(s, t, Holding, n);
    SameWorkLeft(MoveTo(s, t, Holding), Step(s, Acquire(t)), n);
    assert forall v: nat :: Stack(Step(s, Acquire(t)), v) == Stack(MoveTo(s, t, Holding), v);
  }

  lemma VisitWork(s: Sys, t: nat, c: nat, n: nat)
    requires Inv(s) && Enabled(s, Visit(t, c)) && t < n
    ensures WorkLeft(Step(s, Visit(t, c)), n) < WorkLeft(s, n) && OnlyAt(s, Step(s, Visit(t, c)), t)
  {
    hide WorkLeft, Counted, Placed, Locked, Refs, Known, Shaped;
    LinkedChildIsValid(s, t, c);
    StartTearWork(s, t, c, n);
  }

  /** Every step of a call leaves less to do, whichever thread takes it. */
  lemma CallStepWork(s: Sys, a: Action, n: nat)
    requires Inv(s) && Enabled(s, a) && IsCallStep(a) && a.thread < n
    ensures WorkLeft(Step(s, a), n) < WorkLeft(s, n) && OnlyAt(s, Step(s, a), a.thread)
  {
    hide Inv, Enabled, Step, WorkLeft, OnlyAt;
    match a
    case Acquire(t) => AcquireWork(s, t, n);
    case Begin(t) => BeginWork(s, t, n);
    case Visit(t, c) => VisitWork(s, t, c, n);
    case Fini(t) => FiniWork(s, t, n);
    case Unlink(t) => UnlinkWork(s, t, n);
    case Release(t) => ReleaseWork(s, t, n);
    case DropParent(t) => DropParentWork(s, t, n);
    case FreeMemory(t) => FreeWork(s, t, n);
    case _ =>
  }

  /** All threads inside calls are below n. */
  ghost predicate Bounded(s: Sys, n: nat) {
    forall t: nat :: t >= n ==> Stack(s, t) == []
  }

  lemma {:induction false} KeysBelow(ks: set<nat>) returns (n: nat)
    ensures forall k :: k in ks ==> k < n
  {
    if ks == {} {
      n := 0;
    } else {
      var k :| k in ks;
      var m := KeysBelow(ks - {k});
      n := if k < m then m else k + 1;
      forall x | x in ks ensures x < n {
        assert x == k || x in ks - {k};
      }
    }
  }

  lemma {:induction false} StepsToReturn(s: Sys, n: nat) returns (more: seq<Action>)
    requires Inv(s) && Bounded(s, n)
    ensures forall t: nat :: Stack(RunFrom(s, more), t) == []
    ensures (forall a :: a in more ==> IsCallStep(a)) && |more| <= WorkLeft(s, n)
    decreases WorkLeft(s, n)
  {
    hide Inv, Enabled, Step, WorkLeft, Stack;
    if t: nat :| t < n && Stack(s, t) != [] {
      var a := SomeoneSteps(s, t);
      CallStepWork(s, a, n);
      StepKeepsInv(s, a);
      var u := Step(s, a);
      assert Bounded(u, n);
      var rest := StepsToReturn(u, n);
      more := [a] + rest;
      assert more[1..] == rest;
    } else {
      more := [];
    }
  }

  /** Every call returns.  Whatever creations, destroys and dropped references came
    * before, there is a bound on the steps calls can still take until others start:
    * each lowers it, on any thread and in any order. */
  lemma CallStepsRunOut(acts: seq<Action>, a: Action, n: nat)
    requires Enabled(Run(acts), a) && IsCallStep(a) && a.thread < n
    ensures WorkLeft(Step(Run(acts), a), n) < WorkLeft(Run(acts), n)
  {
    hide Run, Inv, Enabled, Step, WorkLeft;
    RunKeepsInv(acts);
    CallStepWork(Run(acts), a, n);
  }

  /** From every reachable state the calls under way can all return, without
    * another one starting. */
  lemma CallsCanReturn(acts: seq<Action>) returns (more: seq<Action>)
    ensures forall a :: a in more ==> IsCallStep(a)
    ensures forall t: nat :: Stack(Run(acts + more), t) == []
  {
    hide Run, Inv, RunFrom, WorkLeft;
    var s := Run(acts);
    RunKeepsInv(acts);
    var n := KeysBelow(s.stacks.Keys);
    more := StepsToReturn(s, n);
    RunAppend(acts, more);
  }
}
