/** What the steps of the executor achieve: which entities a call waits on, what a wait
  * reports, what a multi-threaded pass hands to worker threads and keeps of it, and
  * what additions, destructions and arrivals leave behind. */
module ExecutorEffects {
  import opened CallbackGroups
  import opened Executors
  import opened SpinOnces

  // ---- What a pass should hand over --------------------------------------------------------------

  /** How many items of e the first entities of the pass took. */
  function Served(rs: seq<Reg>, took: seq<bool>, e: nat): nat
    requires |took| == |rs|
  {
    if rs == [] then 0
    else
      var last := |rs| - 1;
      Served(rs[..last], took[..last], e) + (if took[last] && rs[last].ent == e then 1 else 0)
  }

  /** How many callbacks of group g they started. */
  function StartedIn(c: Config, rs: seq<Reg>, took: seq<bool>, g: nat): nat
    requires |took| == |rs|
  {
    if rs == [] then 0
    else
      var last := |rs| - 1;
      StartedIn(c, rs[..last], took[..last], g) + (if took[last] && c.groupOf(rs[last].ent) == g then 1 else 0)
  }

  /** The workers they were handed to, in order, each with the oldest item left. */
  function Handed(data: Traffic, rs: seq<Reg>, took: seq<bool>): seq<Worker>
    requires |took| == |rs|
  {
    if rs == [] then []
    else
      var last := |rs| - 1;
      var e := rs[last].ent;
      var k := Served(rs[..last], took[..last], e);
      Handed(data, rs[..last], took[..last])
        + (if took[last] && k < |Items(data.queue, e)| then [Worker(e, Items(data.queue, e)[k], Running)] else [])
  }

  /** The i-th entity is served at its turn: it is ready, an item is left for it, and
    * its group is reentrant or has nothing running, this pass included. */
  predicate HasTurn(c: Config, s: Exec, ready: set<nat>, rs: seq<Reg>, took: seq<bool>, i: nat)
    requires |took| == |rs| && i < |rs|
  {
    var e, g := rs[i].ent, c.groupOf(rs[i].ent);
    && e in ready
    && Served(rs[..i], took[..i], e) < |Items(s.data.queue, e)|
    && (c.kindOf(g) == Reentrant || Count(s.running, g) + StartedIn(c, rs[..i], took[..i], g) == 0)
  }

  /** The state t after the entities rs of a pass begun in s, those marked served. */
  ghost predicate AfterServing(c: Config, s: Exec, t: Exec, ready: set<nat>, rs: seq<Reg>, took: seq<bool>)
    requires |took| == |rs|
  {
    && (forall i :: 0 <= i < |rs| ==> (took[i] <==> HasTurn(c, s, ready, rs, took, i)))
    && (forall e :: Given(s.data, t.data, e, Served(rs, took, e)))
    && (forall g :: Count(t.running, g) == Count(s.running, g) + StartedIn(c, rs, took, g))
    && t.workers == s.workers + Handed(s.data, rs, took)
    && t.tasks == s.tasks + seq(|Handed(s.data, rs, took)|, k => |s.workers| + k)
    && t.reg == s.reg && t.wake == s.wake && t.mode == s.mode
  }

  lemma TurnsStay(c: Config, s: Exec, ready: set<nat>, rs: seq<Reg>, took: seq<bool>, r: Reg, b: bool, i: nat)
    requires |took| == |rs| && i < |rs|
    ensures HasTurn(c, s, ready, rs + [r], took + [b], i) <==> HasTurn(c, s, ready, rs, took, i)
  {
    assert (rs + [r])[..i] == rs[..i] && (took + [b])[..i] == took[..i];
  }

  lemma ServedSnoc(c: Config, data: Traffic, rs: seq<Reg>, took: seq<bool>, r: Reg, b: bool)
    requires |took| == |rs|
    ensures forall e :: Served(rs + [r], took + [b], e) == Served(rs, took, e) + (if b && r.ent == e then 1 else 0)
    ensures forall g ::
      StartedIn(c, rs + [r], took + [b], g) == StartedIn(c, rs, took, g) + (if b && c.groupOf(r.ent) == g then 1 else 0)
    ensures var k := Served(rs, took, r.ent);
      Handed(data, rs + [r], took + [b])
        == Handed(data, rs, took)
           + (if b && k < |Items(data.queue, r.ent)| then [Worker(r.ent, Items(data.queue, r.ent)[k], Running)] else [])
  {
    assert (rs + [r])[..|rs|] == rs && (took + [b])[..|rs|] == took;
  }

  // ---- One entity ----------------------------------------------------------------------------------

  lemma AloneFour(c: Config, s: Exec)
    ensures Alone(c, s, 4) == Next(c, Next(c, Next(c, Next(c, s))))
  {
    hide Next;
    AloneTwo(c, s);
    AloneAdd(c, s, 2, 2);
    AloneTwo(c, Alone(c, s, 2));
  }

  /** A ready entity in a free group: checked, taken, entered, handed over. */
  lemma HandOverAlone(c: Config, s: Exec)
    requires s.pc.Dispatch? && s.pc.todo != [] && s.mode.Workers? && CanRun(c, s, GroupOf(c, s.pc.todo[0]))
    requires s.pc.todo[0].ent in s.pc.ready && Items(s.data.queue, s.pc.todo[0].ent) != []
    ensures var g, e := GroupOf(c, s.pc.todo[0]), s.pc.todo[0].ent;
      var item := Items(s.data.queue, e)[0];
      Alone(c, s, 4)
        == s.(data := Record(TakeItem(s.data, e), e, item), running := Entered(s.running, g),
              workers := s.workers + [Worker(e, item, Running)], tasks := s.tasks + [|s.workers|],
              pc := Dispatch(s.pc.todo[1..], s.pc.ready))
  {
    hide Prepare, KeepTasks, Record, TakeItem, Entered, GroupOf, CanRun, Items;
    var todo, ready := s.pc.todo, s.pc.ready;
    var g, e := GroupOf(c, todo[0]), todo[0].ent;
    var item := Items(s.data.queue, e)[0];
    var s1 := s.(pc := Take(todo, ready));
    assert Next(c, s) == s1;
    var s2 := s.(data := TakeItem(s.data, e), pc := Enter(todo, ready, item));
    assert Next(c, s1) == s2;
    var s3 := s2.(running := Entered(s.running, g), pc := Start(todo, ready, item));
    assert Next(c, s2) == s3;
    AloneFour(c, s);
  }

  lemma PassOver(c: Config, s: Exec) returns (n: nat)
    requires s.pc.Dispatch? && s.pc.todo != [] && s.mode.Workers?
    requires var e := s.pc.todo[0].ent;
      !CanRun(c, s, GroupOf(c, s.pc.todo[0])) || e !in s.pc.ready || Items(s.data.queue, e) == []
    ensures Alone(c, s, n) == s.(pc := Dispatch(s.pc.todo[1..], s.pc.ready))
  {
    hide Prepare, KeepTasks, Record, TakeItem, GroupOf, Items, CanRun;
    if !CanRun(c, s, GroupOf(c, s.pc.todo[0])) {
      n := 1;
      AloneFirst(c, s, 0);
    } else {
      n := 2;
      AloneTwo(c, s);
      assert Next(c, s) == s.(pc := Take(s.pc.todo, s.pc.ready));
    }
  }

  lemma CanRunMeans(c: Config, s: Exec, g: nat)
    ensures CanRun(c, s, g) <==> c.kindOf(g) == Reentrant || Count(s.running, g) == 0
  {
  }

  lemma TakeGives(data: Traffic, e: nat, x: nat)
    requires Items(data.queue, e) != []
    ensures Given(data, Record(TakeItem(data, e), e, Items(data.queue, e)[0]), x, if x == e then 1 else 0)
  {
    assert Items(data.queue, x)[..0] == [] && Items(data.queue, x)[0..] == Items(data.queue, x);
    assert Items(data.queue, e)[..1] == [Items(data.queue, e)[0]];
  }

  lemma GivenNothing(data: Traffic, x: nat)
    ensures Given(data, data, x, 0)
  {
    assert Items(data.queue, x)[..0] == [] && Items(data.queue, x)[0..] == Items(data.queue, x);
    assert Items(data.dispatched, x) + [] == Items(data.dispatched, x);
  }

  /** What is left of a queue after k items. */
  lemma LeftOver(s: Exec, t: Exec, e: nat, k: nat)
    requires Given(s.data, t.data, e, k)
    ensures Items(t.data.queue, e) == [] <==> k >= |Items(s.data.queue, e)|
    ensures k < |Items(s.data.queue, e)| ==> Items(t.data.queue, e)[0] == Items(s.data.queue, e)[k]
  {
  }

  /** The next entity is passed over. */
  lemma PassedOver(c: Config, s: Exec, t: Exec, ready: set<nat>, rs: seq<Reg>, took: seq<bool>, r: Reg, pc: Pc)
    requires |took| == |rs| && AfterServing(c, s, t, ready, rs, took)
    requires !CanRun(c, t, GroupOf(c, r)) || r.ent !in ready || Items(t.data.queue, r.ent) == []
    ensures AfterServing(c, s, t.(pc := pc), ready, rs + [r], took + [false])
  {
    hide Given, Served, StartedIn, Handed, Items;
    var more, marks := rs + [r], took + [false];
    ServedSnoc(c, s.data, rs, took, r, false);
    assert Handed(s.data, rs, took) + [] == Handed(s.data, rs, took);
    CanRunMeans(c, t, GroupOf(c, r));
    LeftOver(s, t, r.ent, Served(rs, took, r.ent));
    assert more[..|rs|] == rs && marks[..|rs|] == took;
    forall i | 0 <= i < |more| ensures marks[i] <==> HasTurn(c, s, ready, more, marks, i) {
      if i < |rs| {
        TurnsStay(c, s, ready, rs, took, r, false, i);
      }
    }
  }

  lemma TasksSnoc(tasks: seq<nat>, first: nat, n: nat)
    ensures tasks + seq(n, k => first + k) + [first + n] == tasks + seq(n + 1, k => first + k)
  {
  }

  /** The next entity's oldest item is handed over. */
  lemma HandedOver(c: Config, s: Exec, t: Exec, ready: set<nat>, rs: seq<Reg>, took: seq<bool>, r: Reg, u: Exec)
    requires |took| == |rs| && AfterServing(c, s, t, ready, rs, took)
    requires CanRun(c, t, GroupOf(c, r)) && r.ent in ready && Items(t.data.queue, r.ent) != []
    requires u == t.(data := Record(TakeItem(t.data, r.ent), r.ent, Items(t.data.queue, r.ent)[0]),
                     running := Entered(t.running, GroupOf(c, r)),
                     workers := t.workers + [Worker(r.ent, Items(t.data.queue, r.ent)[0], Running)],
                     tasks := t.tasks + [|t.workers|], pc := u.pc)
    ensures AfterServing(c, s, u, ready, rs + [r], took + [true])
  {
    hide Given, Served, StartedIn, Handed, Items, Record, TakeItem;
    var more, marks := rs + [r], took + [true];
    ServedSnoc(c, s.data, rs, took, r, true);
    CanRunMeans(c, t, GroupOf(c, r));
    LeftOver(s, t, r.ent, Served(rs, took, r.ent));
    assert more[..|rs|] == rs && marks[..|rs|] == took;
    forall i | 0 <= i < |more| ensures marks[i] <==> HasTurn(c, s, ready, more, marks, i) {
      if i < |rs| {
        TurnsStay(c, s, ready, rs, took, r, true, i);
      }
    }
    forall e ensures Given(s.data, u.data, e, Served(more, marks, e)) {
      TakeGives(t.data, r.ent, e);
      GivenTwice(s.data, t.data, u.data, e, Served(rs, took, e), if e == r.ent then 1 else 0);
    }
    var hands := Handed(s.data, rs, took);
    assert u.workers == s.workers + (hands + [Worker(r.ent, Items(t.data.queue, r.ent)[0], Running)]);
    TasksSnoc(s.tasks, |s.workers|, |hands|);
  }

  lemma {:induction false} ServeAlone(c: Config, s: Exec, t: Exec, eligible: seq<Reg>, i: nat, took: seq<bool>)
    returns (n: nat, marks: seq<bool>)
    requires i <= |eligible| == |eligible[..i]| + (|eligible| - i) && |took| == i
    requires t.mode.Workers? && t.pc.Dispatch? && t.pc.todo == eligible[i..]
    requires AfterServing(c, s, t, t.pc.ready, eligible[..i], took)
    ensures |marks| == |eligible|
    ensures var u := Alone(c, t, n);
      AfterServing(c, s, u, t.pc.ready, eligible, marks) && u.pc == Dispatch([], t.pc.ready)
    decreases |eligible| - i
  {
    hide Next, AfterServing, CanRun, Items;
    if i == |eligible| {
      assert eligible[..i] == eligible && eligible[i..] == [];
      n, marks := 0, took;
      AloneNone(c, t);
    } else {
      var r := eligible[i];
      var todo := eligible[i..];
      assert todo[0] == r && todo[1..] == eligible[i + 1..] && eligible[..i] + [r] == eligible[..i + 1];
      var m: nat;
      var mark := CanRun(c, t, GroupOf(c, r)) && r.ent in t.pc.ready && Items(t.data.queue, r.ent) != [];
      if mark {
        m := 4;
        HandOverAlone(c, t);
        HandedOver(c, s, t, t.pc.ready, eligible[..i], took, r, Alone(c, t, m));
      } else {
        m := PassOver(c, t);
        PassedOver(c, s, t, t.pc.ready, eligible[..i], took, r, Dispatch(todo[1..], t.pc.ready));
      }
      var k;
      k, marks := ServeAlone(c, s, Alone(c, t, m), eligible, i + 1, took + [mark]);
      AloneAdd(c, t, m, k);
      n := m + k;
    }
  }

  lemma NothingYet(c: Config, s: Exec, t: Exec, ready: set<nat>)
    requires t == s.(pc := t.pc)
    ensures AfterServing(c, s, t, ready, [], [])
  {
    hide Items;
    forall e ensures Given(s.data, t.data, e, 0) {
      GivenNothing(s.data, e);
    }
    assert s.workers + [] == s.workers && s.tasks + seq(0, k => |s.workers| + k) == s.tasks;
  }

  lemma EndWorkersPass(c: Config, s: Exec)
    requires s.pc.Dispatch? && s.pc.todo == [] && s.mode.Workers?
    ensures Next(c, s) == s.(pc := PruneTasks(s.tasks, []))
  {
  }

  /** A pass of the multi-threaded loop hands over exactly what it should.  From the
    * return of a wait with the context up, the waiting thread left alone ends the pass;
    * at its turn each entity that is ready, has an item left, and whose group is
    * reentrant or idle loses its oldest item to a worker of its own, which runs and is
    * kept, in the order of the list; the group counts it; and nobody else gets anything. */
  lemma WorkersPassServes(c: Config, acts: seq<Action>) returns (n: nat, took: seq<bool>)
    requires Run(c, acts).pc.AfterWait? && Run(c, acts).mode.Workers? && Run(c, acts).wake.contextOk
    ensures var s := Run(c, acts);
      var eligible := s.pc.eligible;
      var t := Alone(c, s, n);
      && t.pc == PruneTasks(t.tasks, []) && |took| == |eligible|
      && (forall i :: 0 <= i < |eligible| ==> (took[i] <==> HasTurn(c, s, s.pc.ready, eligible, took, i)))
      && (forall e :: Given(s.data, t.data, e, Served(eligible, took, e)))
      && (forall g :: Count(t.running, g) == Count(s.running, g) + StartedIn(c, eligible, took, g))
      && t.workers == s.workers + Handed(s.data, eligible, took)
      && t.tasks == s.tasks + seq(|Handed(s.data, eligible, took)|, k => |s.workers| + k)
      && t.reg == s.reg && t.wake == s.wake
  {
    hide Run, Next, Given, Served, StartedIn, Handed, HasTurn;
    var s := Run(c, acts);
    var eligible := s.pc.eligible;
    UpNext(c, s);
    var t := s.(pc := Dispatch(eligible, s.pc.ready));
    NothingYet(c, s, t, s.pc.ready);
    assert eligible[0..] == eligible && eligible[..0] == [];
    var k;
    k, took := ServeAlone(c, s, t, eligible, 0, []);
    var u := Alone(c, t, k);
    EndWorkersPass(c, u);
    AloneFirst(c, s, k + 1);
    Chain(c, t, k, u, 1);
    AloneFirst(c, u, 0);
    AloneNone(c, Next(c, u));
    n := 1 + (k + 1);
  }

  lemma SameFinished(s: Exec, t: Exec)
    requires t.workers == s.workers
    ensures forall x :: IsFinished(t, x) <==> IsFinished(s, x)
  {
  }

  lemma PruneNext(c: Config, s: Exec)
    requires s.pc.PruneTasks?
    ensures var todo, kept := s.pc.tasksLeft, s.pc.kept;
      Next(c, s)
        == if todo == [] then s.(tasks := kept, pc := LoopCheck)
           else s.(pc := PruneTasks(todo[1..], if IsFinished(s, todo[0]) then kept else kept + [todo[0]]))
  {
  }

  /** Tasks keep their order while finished ones are dropped. */
  lemma {:induction false} PruneLeft(c: Config, s: Exec, todo: seq<nat>) returns (n: nat, kept: seq<nat>)
    requires Accounted(s) && s.pc.PruneTasks? && s.pc.tasksLeft == todo
    ensures Alone(c, s, n) == s.(tasks := kept, pc := LoopCheck) && Accounted(Alone(c, s, n))
    ensures forall t :: t in kept <==> t in s.pc.kept || (t in todo && !IsFinished(s, t))
    decreases |todo|
  {
    hide Accounted, IsFinished, Next, Alone;
    NextAccounted(c, s);
    PruneNext(c, s);
    if todo == [] {
      n, kept := 1, s.pc.kept;
      AloneFirst(c, s, 0);
      AloneNone(c, Next(c, s));
    } else {
      var m;
      m, kept := PruneLeft(c, Next(c, s), todo[1..]);
      AloneFirst(c, s, m);
      n := 1 + m;
      assert todo == [todo[0]] + todo[1..];
      SameFinished(s, Next(c, s));
    }
  }

  /** Between passes exactly the finished tasks are dropped, and the others keep their order. */
  lemma PruneDropsFinished(c: Config, acts: seq<Action>) returns (n: nat)
    requires Run(c, acts).pc.PruneTasks? && Run(c, acts).pc.kept == []
    ensures var s := Run(c, acts);
      var t := Alone(c, s, n);
      && t == s.(tasks := t.tasks, pc := LoopCheck)
      && (forall x :: x in t.tasks <==> x in s.pc.tasksLeft && !(x < |s.workers| && s.workers[x].stage.Finished?))
      && Increasing(t.tasks, |s.workers|)
  {
    hide Run, Next, Increasing;
    var s := Run(c, acts);
    RunKeepsInv(c, acts);
    var kept;
    n, kept := PruneLeft(c, s, s.pc.tasksLeft);
  }

  // ---- What a call waits on --------------------------------------------------------------------------

  /** Exactly the listed entities that exist and whose groups are reentrant or idle. */
  ghost predicate WaitsOn(c: Config, s: Exec, eligible: seq<Reg>) {
    forall r :: r in eligible <==>
      && r in s.reg.waitables && r.ent !in s.reg.destroyed
      && (c.kindOf(c.groupOf(r.ent)) == Reentrant || Count(s.running, c.groupOf(r.ent)) == 0)
  }

  lemma FreeIsWaitedOn(c: Config, s: Exec)
    ensures WaitsOn(c, s, Free(c, s.running, Existing(s.reg.waitables, s.reg.destroyed)))
  {
    ExistingMembers(s.reg.waitables, s.reg.destroyed);
    FreeMembers(c, s.running, Existing(s.reg.waitables, s.reg.destroyed));
  }

  lemma SnapshotReachesWait(c: Config, s: Exec) returns (n: nat, eligible: seq<Reg>)
    requires s.pc.Snapshot? && UniqueIds(s.reg.waitables)
    ensures WaitsOn(c, s, eligible)
    ensures var t := Alone(c, s, n);
      && t == s.(reg := s.reg.(waitables := t.reg.waitables), pc := Blocked(eligible))
      && forall r :: r in t.reg.waitables <==> r in s.reg.waitables && r.ent !in s.reg.destroyed
  {
    n := PrepareAlone(c, s);
    eligible := Free(c, s.running, Existing(s.reg.waitables, s.reg.destroyed));
    FreeIsWaitedOn(c, s);
    ExistingMembers(s.reg.waitables, s.reg.destroyed);
  }

  lemma LoopHeadNext(c: Config, s: Exec)
    requires s.pc.LoopCheck? && s.wake.contextOk
    ensures Next(c, s) == s.(passOk := true, pc := Snapshot)
  {
  }

  /** A call gets to its wait.  From every reachable state between calls, a direct call,
    * and a loop while the context is up, waits on exactly the entities it should, and
    * forgets exactly the destroyed ones. */
  lemma CallReachesWait(c: Config, acts: seq<Action>, m: Mode) returns (n: nat, eligible: seq<Reg>)
    requires Run(c, acts).pc.Idle? && (m.Once? || Run(c, acts).wake.contextOk)
    ensures WaitsOn(c, Run(c, acts), eligible)
    ensures var s := Run(c, acts);
      var t := Alone(c, Step(c, s, Call(m)), n);
      && t.pc == Blocked(eligible) && t.mode == m && t.wake == s.wake && t.data == s.data && t.running == s.running
      && forall r :: r in t.reg.waitables <==> r in s.reg.waitables && r.ent !in s.reg.destroyed
  {
    hide Run, Next, UniqueIds;
    RunKeepsInv(c, acts);
    var s := Step(c, Run(c, acts), Call(m));
    if m.Once? {
      n, eligible := SnapshotReachesWait(c, s);
    } else {
      LoopHeadNext(c, s);
      var k;
      k, eligible := SnapshotReachesWait(c, Next(c, s));
      AloneFirst(c, s, k);
      n := 1 + k;
    }
  }

  /** A loop goes on while the context is up: from every reachable loop head it gets to
    * the next wait, keeping its tasks. */
  lemma LoopGoesOn(c: Config, acts: seq<Action>) returns (n: nat, eligible: seq<Reg>)
    requires Run(c, acts).pc.LoopCheck? && Run(c, acts).wake.contextOk
    ensures WaitsOn(c, Run(c, acts), eligible)
    ensures var s := Run(c, acts);
      var t := Alone(c, s, n);
      t == s.(reg := s.reg.(waitables := t.reg.waitables), passOk := true, pc := Blocked(eligible))
  {
    hide Run, Next, UniqueIds;
    var s := Run(c, acts);
    RunKeepsInv(c, acts);
    LoopHeadNext(c, s);
    var k;
    k, eligible := SnapshotReachesWait(c, Next(c, s));
    AloneFirst(c, s, k);
    n := 1 + k;
  }

  /** A wait returns when the guard is latched or an entity in its set has data, and
    * then reports exactly those; a direct call may time out when neither is so. */
  lemma WaitReports(c: Config, acts: seq<Action>)
    requires Run(c, acts).pc.Blocked?
    ensures var s := Run(c, acts);
      var some := exists r :: r in s.pc.eligible && Items(s.data.queue, r.ent) != [];
      && (Enabled(s, WaitReturns) <==> s.wake.latch || some)
      && (Enabled(s, WaitReturns) ==>
            var t := Step(c, s, WaitReturns);
            && t.pc.AfterWait? && t.pc.eligible == s.pc.eligible && t.wake == s.wake.(latch := false)
            && t == s.(wake := t.wake, pc := t.pc)
            && forall e :: e in t.pc.ready <==>
                 exists r :: r in s.pc.eligible && r.ent == e && Items(s.data.queue, e) != [])
      && (s.mode.Once? && !s.wake.latch && !some ==> Step(c, s, WaitTimesOut) == s.(pc := Idle))
  {
    hide Run, Items;
    var s := Run(c, acts);
    if r :| r in s.pc.eligible && Items(s.data.queue, r.ent) != [] {
      assert r.ent in ReadyOf(s.data, s.pc.eligible);
    }
  }

  // ---- What other threads leave behind ------------------------------------------------------------------

  lemma NextAdds(c: Config, s: Exec)
    ensures Next(c, s).reg.added == s.reg.added && Next(c, s).reg.destroyed == s.reg.destroyed
  {
    hide KeepTasks, Alive, CanRun, Record, TakeItem, LeftGroup, Entered;
    NextRegistry(c, s);
  }

  lemma StepKeepsAdded(c: Config, s: Exec, a: Action, r: Reg)
    ensures r in s.reg.added ==> r in Step(c, s, a).reg.added
    ensures s.reg.destroyed <= Step(c, s, a).reg.destroyed
  {
    hide Prepare, Deliver, KeepTasks, ReadyOf, Arrived;
    if a.Advance? {
      NextAdds(c, s);
    }
  }

  lemma {:induction false} RunKeepsAdded(c: Config, s: Exec, acts: seq<Action>, r: Reg)
    ensures r in s.reg.added ==> r in RunFrom(c, s, acts).reg.added
    ensures s.reg.destroyed <= RunFrom(c, s, acts).reg.destroyed
    decreases |acts|
  {
    hide Step;
    if acts != [] {
      StepKeepsAdded(c, s, acts[0], r);
      RunKeepsAdded(c, Step(c, s, acts[0]), acts[1..], r);
    }
  }

  lemma AddSteps(c: Config, s: Exec, e: nat)
    ensures var i, r := |s.reg.adders|, Reg(s.reg.nextId, e);
      var t := Step(c, Step(c, Step(c, s, TakeId(e)), Push(i)), TriggerAfterPush(i));
      && t.reg.waitables == s.reg.waitables + [r] && t.reg.added == s.reg.added + [r]
      && t.reg.nextId == s.reg.nextId + 1 && t.wake.latch
  {
  }

  /** An addition takes effect: the entity is listed last, under a number of its own,
    * and the guard is latched, and it stays listed through everything that follows
    * until the entity is destroyed. */
  lemma AddTakesEffect(c: Config, acts: seq<Action>, e: nat, more: seq<Action>)
    ensures var s := Run(c, acts);
      var i, r := |s.reg.adders|, Reg(s.reg.nextId, e);
      var add := [TakeId(e)] + [Push(i)] + [TriggerAfterPush(i)];
      var t, v := Run(c, acts + add), Run(c, acts + add + more);
      && t.reg.waitables == s.reg.waitables + [r] && t.reg.nextId == s.reg.nextId + 1 && t.wake.latch
      && (r in v.reg.waitables || e in v.reg.destroyed)
  {
    hide Run, Step, RunFrom;
    var s := Run(c, acts);
    var i, r := |s.reg.adders|, Reg(s.reg.nextId, e);
    var add := [TakeId(e)] + [Push(i)] + [TriggerAfterPush(i)];
    RunMore(c, acts, TakeId(e));
    RunMore(c, acts + [TakeId(e)], Push(i));
    RunMore(c, acts + [TakeId(e)] + [Push(i)], TriggerAfterPush(i));
    assert acts + add == acts + [TakeId(e)] + [Push(i)] + [TriggerAfterPush(i)];
    AddSteps(c, s, e);
    RunSplit(c, acts + add, more);
    RunKeepsAdded(c, Run(c, acts + add), more, r);
    NothingForgotten(c, acts + add + more, r);
  }

  /** A destroyed entity stays destroyed, so no call begun afterwards waits on it. */
  lemma DestroyedForGood(c: Config, acts: seq<Action>, e: nat, more: seq<Action>)
    ensures e in Run(c, acts + [Destroy(e)] + more).reg.destroyed
  {
    hide Run, RunFrom;
    RunMore(c, acts, Destroy(e));
    RunSplit(c, acts + [Destroy(e)], more);
    RunKeepsAdded(c, Run(c, acts + [Destroy(e)]), more, Reg(0, 0));
  }

  /** The items a run sends to an entity, in order. */
  function Sent(acts: seq<Action>, e: nat): seq<nat> {
    if acts == [] then []
    else
      var last := acts[|acts| - 1];
      Sent(acts[..|acts| - 1], e) + (if last.Arrive? && last.ent == e then [last.item] else [])
  }

  lemma NextArrives(c: Config, s: Exec)
    ensures Next(c, s).data.arrived == s.data.arrived
  {
    hide KeepTasks, Alive, CanRun, LeftGroup, Entered, Forget;
    if !s.pc.Take? && !s.pc.Start? {
      NextData(c, s);
    }
  }

  lemma StepArrives(c: Config, s: Exec, a: Action, e: nat)
    ensures Items(Step(c, s, a).data.arrived, e)
         == Items(s.data.arrived, e) + (if a.Arrive? && a.ent == e then [a.item] else [])
  {
    hide Next, SetStage, SetAdder, Pushing, ReadyOf, LeftGroup;
    if a.Advance? {
      NextArrives(c, s);
    }
  }

  lemma NoItems(e: nat)
    ensures Items(map[], e) == []
  {
  }

  /** Nothing sent is lost, invented or reordered: what the callbacks of an entity were
    * given, then the item in hand, then the items still queued, are what was sent. */
  lemma {:induction false} EverythingSentArrives(c: Config, acts: seq<Action>, e: nat)
    ensures var s := Run(c, acts);
      && Items(s.data.arrived, e) == Sent(acts, e)
      && Items(s.data.dispatched, e) + InHand(s.pc, e) + Items(s.data.queue, e) == Sent(acts, e)
  {
    hide Run, Step, Items;
    if acts == [] {
      RunNothing(c);
      assert Items(map[], e) == [] by { NoItems(e); }
    } else {
      EverythingSentArrives(c, acts[..|acts| - 1], e);
      LastStep(c, acts);
      StepArrives(c, Run(c, acts[..|acts| - 1]), acts[|acts| - 1], e);
    }
    Conservation(c, acts, e);
  }
}
