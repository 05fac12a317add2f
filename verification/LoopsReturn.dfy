/** The loops of the executor return after a shutdown: each step of the threads
  * under way uses up some of what the waiting thread has left. */
module LoopsReturn {
  import opened CallbackGroups
  import opened Executors

  /** The step of a thread already at work: no call, arrival, addition or destruction starts. */
  predicate IsUnderWay(a: Action) {
    || a.Advance? || a.WaitReturns? || a.Leave?
    || a.TriggerAfterLeave? || a.TriggerAfterPush? || a.TriggerAfterShutdown?
  }

  /** The waiting thread serves an entity it has, and a loop waits only after it
    * has found the context up. */
  predicate Steady(s: Exec) {
    && (s.pc.Take? || s.pc.Enter? || s.pc.Start? || s.pc.Inside? ==> s.pc.todo != [])
    && (BeforeWaitReturns(s.pc) && !s.mode.Once? ==> s.passOk)
  }

  lemma DeliverKeepsSteady(c: Config, s: Exec)
    requires Steady(s) && Delivering(s.pc)
    ensures Steady(Deliver(c, s))
  {
    hide CanRun, LeftGroup, Entered, GroupOf, TakeItem, Record, Items;
  }

  lemma PrepareKeepsSteady(c: Config, s: Exec)
    requires Steady(s) && !Delivering(s.pc)
    ensures Steady(Prepare(c, s))
  {
    hide CanRun, Alive, Forget, GroupOf;
  }

  lemma StepKeepsSteady(c: Config, s: Exec, a: Action)
    requires Steady(s)
    ensures Steady(Step(c, s, a))
  {
    hide Prepare, Deliver, SetStage, SetAdder, Pushing, Arrived, ReadyOf, LeftGroup;
    if a.Advance? {
      if Delivering(s.pc) {
        DeliverKeepsSteady(c, s);
      } else {
        PrepareKeepsSteady(c, s);
      }
    }
  }

  lemma InitIsSteady()
    ensures Steady(Init())
  {
  }

  lemma {:induction false} RunIsSteady(c: Config, acts: seq<Action>)
    ensures Steady(Run(c, acts))
  {
    hide Run, Step, Steady;
    if acts == [] {
      RunNothing(c);
      InitIsSteady();
    } else {
      RunIsSteady(c, acts[..|acts| - 1]);
      LastStep(c, acts);
      StepKeepsSteady(c, Run(c, acts[..|acts| - 1]), acts[|acts| - 1]);
    }
  }

  // ---- What the waiting thread has left once the context is down ------------------------------

  /** What a task has left: to leave its group and to trigger the guard. */
  function TaskLeft(s: Exec, task: nat): nat {
    if task >= |s.workers| then 0
    else match s.workers[task].stage case Running => 2 case Left => 1 case Finished => 0
  }

  /** From the end of a pass the tasks kept are pruned once and joined. */
  function PassLeft(s: Exec): nat {
    4 * |s.tasks| + 5
  }

  function Rank(s: Exec): nat {
    match s.pc
    case Idle => 0
    case Join(todo) => 1 + 3 * |todo| - (if todo == [] then 0 else 2 - TaskLeft(s, todo[0]))
    case LoopCheck => 3 * |s.tasks| + 3
    case PruneTasks(todo, kept) => 4 * |todo| + 3 * |kept| + 4
    case Inside(todo, _) => PassLeft(s) + 10 * |todo| - 4
    case Start(todo, _, _) => PassLeft(s) + 10 * |todo| - 3
    case Enter(todo, _, _) => PassLeft(s) + 10 * |todo| - 2
    case Take(todo, _) => PassLeft(s) + 10 * |todo| - 1
    case Dispatch(todo, _) => PassLeft(s) + 10 * |todo|
    case AfterWait(_, _) => PassLeft(s)
    case Blocked(_) => PassLeft(s) + (if s.wake.latch then 1 else 2)
    case Fill(_) => PassLeft(s) + 3
    case Filter(todo, _) => PassLeft(s) + 4 + |todo|
    case Validate(all, todo, _) => PassLeft(s) + 5 + |all| + |todo|
    case Snapshot => PassLeft(s) + 6 + 2 * |s.reg.waitables|
  }

  /** Down, and whatever wait is under way or to come in this pass will be woken. */
  ghost predicate Closing(s: Exec) {
    !s.wake.contextOk && (BeforeWaitReturns(s.pc) ==> WakeupDue(s))
  }

  lemma {:induction false} AliveLength(rs: seq<Reg>, dead: set<nat>)
    ensures |Alive(rs, dead)| <= |rs|
  {
    if rs != [] {
      AliveLength(rs[..|rs| - 1], dead);
    }
  }

  lemma DeliverRank(c: Config, s: Exec)
    requires Steady(s) && Delivering(s.pc) && !s.wake.contextOk
    ensures Rank(Deliver(c, s)) < Rank(s)
  {
    hide CanRun, LeftGroup, Entered, GroupOf, TakeItem, Record, Items, TaskLeft;
  }

  lemma ForgetKeepsTasks(c: Config, s: Exec)
    ensures Prepare(c, s).tasks == s.tasks
  {
  }

  lemma PrepareRank(c: Config, s: Exec)
    requires s.pc.LoopCheck? || (BeforeWaitReturns(s.pc) && !s.pc.Blocked?)
    requires !s.wake.contextOk
    ensures Rank(Prepare(c, s)) < Rank(s)
  {
    hide CanRun, Alive, Forget, GroupOf;
    if s.pc.Validate? {
      AliveLength(s.pc.all, s.pc.dead);
      ForgetKeepsTasks(c, s);
    }
  }

  lemma KeepTasksRank(s: Exec)
    requires s.pc.PruneTasks? || (s.pc.Join? && (s.pc.tasksLeft == [] || IsFinished(s, s.pc.tasksLeft[0])))
    ensures Rank(KeepTasks(s)) < Rank(s)
  {
  }

  lemma NextKeepsClosing(c: Config, s: Exec)
    requires Closing(s)
    ensures Closing(Next(c, s))
  {
    hide Next;
    NextWakes(c, s);
  }

  lemma DownIs(s: Exec)
    requires Closing(s)
    ensures !s.wake.contextOk
  {
  }

  lemma AdvanceRank(c: Config, s: Exec)
    requires Steady(s) && Closing(s) && !s.pc.Idle? && !s.pc.Blocked?
    requires s.pc.Join? ==> s.pc.tasksLeft == [] || IsFinished(s, s.pc.tasksLeft[0])
    ensures Closing(Next(c, s)) && Rank(Next(c, s)) < Rank(s)
  {
    hide Prepare, Deliver, KeepTasks, Rank, Steady, Closing;
    NextKeepsClosing(c, s);
    if s.pc.PruneTasks? || s.pc.Join? {
      KeepTasksRank(s);
    } else if Delivering(s.pc) {
      DownIs(s);
      DeliverRank(c, s);
    } else {
      DownIs(s);
      PrepareRank(c, s);
    }
  }

  /** A blocked wait returns, or is woken by a thread that owes it a trigger. */
  lemma BlockedStep(c: Config, s: Exec) returns (a: Action)
    requires s.pc.Blocked? && Closing(s)
    ensures Enabled(s, a) && IsUnderWay(a) && Closing(Step(c, s, a)) && Rank(Step(c, s, a)) < Rank(s)
  {
    hide ReadyOf;
    if s.wake.latch {
      a := WaitReturns;
    } else if s.wake.owed > 0 {
      a := TriggerAfterShutdown;
    } else if SomeoneLeft(s.workers) {
      var w :| 0 <= w < |s.workers| && s.workers[w].stage.Left?;
      a := TriggerAfterLeave(w);
    } else {
      var i :| 0 <= i < |s.reg.adders| && s.reg.adders[i].Pushed?;
      a := TriggerAfterPush(i);
    }
  }

  /** A task that is waited for leaves its group, or triggers the guard and ends. */
  lemma JoinStep(c: Config, s: Exec) returns (a: Action)
    requires s.pc.Join? && s.pc.tasksLeft != [] && s.pc.tasksLeft[0] < |s.workers| && Closing(s)
    requires !IsFinished(s, s.pc.tasksLeft[0])
    ensures Enabled(s, a) && IsUnderWay(a) && Closing(Step(c, s, a)) && Rank(Step(c, s, a)) < Rank(s)
  {
    hide LeftGroup;
    var w := s.pc.tasksLeft[0];
    a := if s.workers[w].stage.Running? then Leave(w) else TriggerAfterLeave(w);
  }

  lemma JoinsOwnTasks(s: Exec)
    requires Accounted(s) && s.pc.Join? && s.pc.tasksLeft != []
    ensures s.pc.tasksLeft[0] < |s.workers|
  {
    assert s.pc.tasksLeft[0] in Retained(s);
  }

  lemma ClosingStep(c: Config, s: Exec) returns (a: Action)
    requires Inv(c, s) && Steady(s) && Closing(s) && !s.pc.Idle?
    ensures Enabled(s, a) && IsUnderWay(a) && Closing(Step(c, s, a)) && Rank(Step(c, s, a)) < Rank(s)
  {
    hide Next, Rank, Steady, Closing, Accounted, Registered, Exclusive, Counted, Conserved, NoneMissed;
    if s.pc.Blocked? {
      a := BlockedStep(c, s);
    } else if s.pc.Join? && s.pc.tasksLeft != [] && !IsFinished(s, s.pc.tasksLeft[0]) {
      JoinsOwnTasks(s);
      a := JoinStep(c, s);
    } else {
      AdvanceRank(c, s);
      a := Advance;
    }
  }

  lemma {:induction false} StepsToIdle(c: Config, s: Exec) returns (more: seq<Action>)
    requires Inv(c, s) && Steady(s) && Closing(s)
    ensures RunFrom(c, s, more).pc.Idle? && forall a :: a in more ==> IsUnderWay(a)
    decreases Rank(s)
  {
    hide Inv, Step, Rank, Steady, Closing, Enabled;
    if s.pc.Idle? {
      more := [];
    } else {
      var a := ClosingStep(c, s);
      StepKeepsInv(c, s, a);
      StepKeepsSteady(c, s, a);
      var rest := StepsToIdle(c, Step(c, s, a));
      more := [a] + rest;
      assert more[1..] == rest;
    }
  }

  lemma WillBeWoken(c: Config, acts: seq<Action>)
    requires !Run(c, acts).wake.contextOk
    requires Run(c, acts).mode.Once? && BeforeWaitReturns(Run(c, acts).pc) ==>
      !Reported(c, acts) || OtherTriggered(c, acts)
    ensures Closing(Run(c, acts))
  {
    hide Run;
    RunIsSteady(c, acts);
    NoLostWakeup(c, acts, Reg(0, 0));
    ShutdownDueExactly(c, acts);
  }

  /** After a shutdown the executor returns.  From every reachable state with the
    * context down, a loop, single- or multi-threaded, can end from wherever it
    * stands, its callbacks finishing first; and so can a direct call, except one
    * whose wait has not returned although the shutdown has been reported before and
    * nobody else has triggered the guard since.  Nobody new has to add, send or call
    * anything. */
  lemma ShutdownEndsLoops(c: Config, acts: seq<Action>) returns (more: seq<Action>)
    requires !Run(c, acts).wake.contextOk
    requires Run(c, acts).mode.Once? && BeforeWaitReturns(Run(c, acts).pc) ==>
      !Reported(c, acts) || OtherTriggered(c, acts)
    ensures forall a :: a in more ==> IsUnderWay(a)
    ensures Run(c, acts + more).pc.Idle?
    ensures forall w :: 0 <= w < |Run(c, acts + more).workers| ==> Run(c, acts + more).workers[w].stage.Finished?
  {
    hide Run, Inv, RunFrom;
    var s := Run(c, acts);
    RunKeepsInv(c, acts);
    RunIsSteady(c, acts);
    WillBeWoken(c, acts);
    more := StepsToIdle(c, s);
    RunSplit(c, acts, more);
    ReturnsWhenAllFinished(c, acts + more);
  }
}
