/** The executor as a protocol between one waiting thread, the worker threads
  * that run callbacks, threads that add entities, and threads that shut the
  * context down. */
module Executors {
  import opened CallbackGroups

  /** The group of every entity and the kind of every group, fixed at creation. */
  datatype Config = Config(groupOf: nat -> nat, kindOf: nat -> GroupKind)

  /** An entity under its registration number. */
  datatype Reg = Reg(id: nat, ent: nat)

  /** How the waiting thread was called: one pass, passes with callbacks run
    * inline, or passes with callbacks on worker threads. */
  datatype Mode = Once | Spin | Workers

  /** Left: out of its group, and owing the wakeup trigger. */
  datatype Stage = Running | Left | Finished

  datatype Worker = Worker(ent: nat, item: nat, stage: Stage)

  /** Pushed: visible to the next pass, and owing the wakeup trigger. */
  datatype Adder = HasId(reg: Reg) | Pushed | Added

  /** Where the waiting thread is.  `todo` is what a loop has still to visit. */
  datatype Pc =
    | Idle
    | LoopCheck
    | Snapshot
    | Validate(all: seq<Reg>, todo: seq<Reg>, dead: set<nat>)
    | Filter(todo: seq<Reg>, eligible: seq<Reg>)
    | Fill(eligible: seq<Reg>)
    | Blocked(eligible: seq<Reg>)
    | AfterWait(eligible: seq<Reg>, ready: set<nat>)
    | Dispatch(todo: seq<Reg>, ready: set<nat>)
    | Take(todo: seq<Reg>, ready: set<nat>)
    | Enter(todo: seq<Reg>, ready: set<nat>, item: nat)
    | Start(todo: seq<Reg>, ready: set<nat>, item: nat)
    | Inside(todo: seq<Reg>, ready: set<nat>)
    | PruneTasks(tasksLeft: seq<nat>, kept: seq<nat>)
    | Join(tasksLeft: seq<nat>)

  /** `added` records every registration pushed. */
  datatype Registry = Registry(
    waitables: seq<Reg>, nextId: nat, adders: seq<Adder>, added: seq<Reg>, destroyed: set<nat>)

  /** What wakes a wait: the latched guard, and the shutdowns that still owe it a trigger. */
  datatype Wakeup = Wakeup(contextOk: bool, owed: nat, latch: bool)

  /** Per entity, the items waiting in the middleware; `arrived` and `dispatched`
    * record every item that came in and every item handed to a callback. */
  datatype Traffic = Traffic(
    queue: map<nat, seq<nat>>, arrived: map<nat, seq<nat>>, dispatched: map<nat, seq<nat>>)

  /** `passOk` records whether the context was up when the pass began. */
  datatype Exec = Exec(
    reg: Registry, wake: Wakeup, data: Traffic, running: map<nat, nat>, workers: seq<Worker>,
    tasks: seq<nat>, mode: Mode, passOk: bool, pc: Pc)

  datatype Action =
    | Call(mode: Mode)
    | Advance
    | WaitReturns
    | WaitTimesOut
    | Leave(worker: nat)
    | TriggerAfterLeave(worker: nat)
    | TakeId(ent: nat)
    | Push(adder: nat)
    | TriggerAfterPush(adder: nat)
    | Shutdown
    | TriggerAfterShutdown
    | Arrive(ent: nat, item: nat)
    | Destroy(ent: nat)

  function Init(): Exec {
    Exec(Registry([], 0, [], [], {}), Wakeup(true, 0, false), Traffic(map[], map[], map[]), map[], [],
         [], Once, false, Idle)
  }

  function Items(m: map<nat, seq<nat>>, e: nat): seq<nat> {
    if e in m then m[e] else []
  }

  function Count(m: map<nat, nat>, g: nat): nat {
    if g in m then m[g] else 0
  }

  function GroupOf(c: Config, r: Reg): nat {
    c.groupOf(r.ent)
  }

  predicate CanRun(c: Config, s: Exec, g: nat) {
    MayRun(c.kindOf(g), Count(s.running, g))
  }

  predicate IsFinished(s: Exec, task: nat) {
    task < |s.workers| && s.workers[task].stage.Finished?
  }

  /** The registrations whose numbers are not among `dead`. */
  function Alive(rs: seq<Reg>, dead: set<nat>): seq<Reg> {
    if rs == [] then []
    else Alive(rs[..|rs| - 1], dead) + (if rs[|rs| - 1].id in dead then [] else [rs[|rs| - 1]])
  }

  /** The entities of a wait set that have data. */
  function ReadyOf(data: Traffic, eligible: seq<Reg>): set<nat> {
    set r | r in eligible && Items(data.queue, r.ent) != [] :: r.ent
  }

  function EndPass(s: Exec): Exec {
    s.(pc := match s.mode case Once => Idle case Spin => LoopCheck case Workers => PruneTasks(s.tasks, []))
  }

  // ---- The waiting thread ---------------------------------------------------------

  /** Forgetting the registrations found destroyed, in the list as it is now. */
  function Forget(reg: Registry, dead: set<nat>): Registry {
    if dead == {} then reg else reg.(waitables := Alive(reg.waitables, dead))
  }

  /** From the loop head to the wait. */
  function Prepare(c: Config, s: Exec): Exec {
    match s.pc
    case LoopCheck =>
      if s.wake.contextOk then s.(passOk := true, pc := Snapshot)
      else s.(pc := if s.mode.Workers? then Join(s.tasks) else Idle)
    case Snapshot => s.(pc := Validate(s.reg.waitables, s.reg.waitables, {}))
    case Validate(all, todo, dead) =>
      if todo == [] then s.(reg := Forget(s.reg, dead), pc := Filter(Alive(all, dead), []))
      else s.(pc := Validate(all, todo[1..], if todo[0].ent in s.reg.destroyed then dead + {todo[0].id} else dead))
    case Filter(todo, eligible) =>
      if todo == [] then s.(pc := Fill(eligible))
      else s.(pc := Filter(todo[1..], if CanRun(c, s, GroupOf(c, todo[0])) then eligible + [todo[0]] else eligible))
    case Fill(eligible) => s.(pc := Blocked(eligible))
    case _ => s
  }

  function TakeItem(data: Traffic, e: nat): Traffic
    requires Items(data.queue, e) != []
  {
    data.(queue := data.queue[e := Items(data.queue, e)[1..]])
  }

  function Record(data: Traffic, e: nat, item: nat): Traffic {
    data.(dispatched := data.dispatched[e := Items(data.dispatched, e) + [item]])
  }

  function Entered(running: map<nat, nat>, g: nat): map<nat, nat> {
    running[g := Count(running, g) + 1]
  }

  function LeftGroup(running: map<nat, nat>, g: nat): map<nat, nat> {
    running[g := OneFewer(Count(running, g))]
  }

  /** From the wait to the end of the pass. */
  function Deliver(c: Config, s: Exec): Exec {
    match s.pc
    case AfterWait(eligible, ready) => if s.wake.contextOk then s.(pc := Dispatch(eligible, ready)) else EndPass(s)
    case Dispatch(todo, ready) =>
      if todo == [] then EndPass(s)
      else if CanRun(c, s, GroupOf(c, todo[0])) then s.(pc := Take(todo, ready))
      else s.(pc := Dispatch(todo[1..], ready))
    case Take(todo, ready) =>
      if todo == [] then s
      else if todo[0].ent in ready && Items(s.data.queue, todo[0].ent) != [] then
        s.(data := TakeItem(s.data, todo[0].ent), pc := Enter(todo, ready, Items(s.data.queue, todo[0].ent)[0]))
      else s.(pc := Dispatch(todo[1..], ready))
    case Enter(todo, ready, item) =>
      if todo == [] then s
      else s.(running := Entered(s.running, GroupOf(c, todo[0])), pc := Start(todo, ready, item))
    case Start(todo, ready, item) =>
      if todo == [] then s
      else if s.mode.Workers? then
        s.(data := Record(s.data, todo[0].ent, item), workers := s.workers + [Worker(todo[0].ent, item, Running)],
           tasks := s.tasks + [|s.workers|], pc := Dispatch(todo[1..], ready))
      else s.(data := Record(s.data, todo[0].ent, item), pc := Inside(todo, ready))
    case Inside(todo, ready) =>
      if todo == [] then s
      else s.(running := LeftGroup(s.running, GroupOf(c, todo[0])), pc := Dispatch(todo[1..], ready))
    case _ => s
  }

  /** Between passes of the multi-threaded loop, and after the last. */
  function KeepTasks(s: Exec): Exec {
    match s.pc
    case PruneTasks(todo, kept) =>
      if todo == [] then s.(tasks := kept, pc := LoopCheck)
      else s.(pc := PruneTasks(todo[1..], if IsFinished(s, todo[0]) then kept else kept + [todo[0]]))
    case Join(todo) =>
      if todo == [] then s.(pc := Idle)
      else if IsFinished(s, todo[0]) then s.(pc := Join(todo[1..]))
      else s
    case _ => s
  }

  predicate Delivering(pc: Pc) {
    pc.AfterWait? || pc.Dispatch? || pc.Take? || pc.Enter? || pc.Start? || pc.Inside?
  }

  // ---- All threads ------------------------------------------------------------------

  predicate Enabled(s: Exec, a: Action) {
    match a
    case Call(_) => s.pc.Idle?
    case Advance => true
    case WaitReturns => s.pc.Blocked? && (s.wake.latch || ReadyOf(s.data, s.pc.eligible) != {})
    case WaitTimesOut => s.pc.Blocked? && s.mode.Once? && !s.wake.latch && ReadyOf(s.data, s.pc.eligible) == {}
    case Leave(w) => w < |s.workers| && s.workers[w].stage.Running?
    case TriggerAfterLeave(w) => w < |s.workers| && s.workers[w].stage.Left?
    case TakeId(_) => true
    case Push(i) => i < |s.reg.adders| && s.reg.adders[i].HasId?
    case TriggerAfterPush(i) => i < |s.reg.adders| && s.reg.adders[i].Pushed?
    case Shutdown => s.wake.contextOk
    case TriggerAfterShutdown => s.wake.owed > 0
    case Arrive(_, _) => true
    case Destroy(_) => true
  }

  function SetStage(workers: seq<Worker>, w: nat, stage: Stage): seq<Worker>
    requires w < |workers|
  {
    workers[w := workers[w].(stage := stage)]
  }

  function SetAdder(reg: Registry, i: nat, a: Adder): Registry
    requires i < |reg.adders|
  {
    reg.(adders := reg.adders[i := a])
  }

  function Pushing(reg: Registry, i: nat): Registry
    requires i < |reg.adders| && reg.adders[i].HasId?
  {
    SetAdder(reg, i, Pushed).(
      waitables := reg.waitables + [reg.adders[i].reg], added := reg.added + [reg.adders[i].reg])
  }

  function Arrived(data: Traffic, e: nat, item: nat): Traffic {
    data.(queue := data.queue[e := Items(data.queue, e) + [item]],
          arrived := data.arrived[e := Items(data.arrived, e) + [item]])
  }

  function Triggered(wake: Wakeup): Wakeup {
    wake.(latch := true)
  }

  /** The waiting thread's next step. */
  function Next(c: Config, s: Exec): Exec {
    if s.pc.PruneTasks? || s.pc.Join? then KeepTasks(s)
    else if Delivering(s.pc) then Deliver(c, s)
    else Prepare(c, s)
  }

  /** One step of one thread; an action that is not possible changes nothing. */
  function Step(c: Config, s: Exec, a: Action): Exec {
    if !Enabled(s, a) then s
    else
      match a
      case Call(m) =>
        if m.Once? then s.(mode := Once, passOk := s.wake.contextOk, pc := Snapshot)
        else s.(mode := m, tasks := [], pc := LoopCheck)
      case Advance => Next(c, s)
      case WaitReturns =>
        s.(wake := s.wake.(latch := false), pc := AfterWait(s.pc.eligible, ReadyOf(s.data, s.pc.eligible)))
      case WaitTimesOut => EndPass(s)
      case Leave(w) =>
        s.(workers := SetStage(s.workers, w, Left), running := LeftGroup(s.running, c.groupOf(s.workers[w].ent)))
      case TriggerAfterLeave(w) => s.(workers := SetStage(s.workers, w, Finished), wake := Triggered(s.wake))
      case TakeId(e) =>
        s.(reg := s.reg.(nextId := s.reg.nextId + 1, adders := s.reg.adders + [HasId(Reg(s.reg.nextId, e))]))
      case Push(i) => s.(reg := Pushing(s.reg, i))
      case TriggerAfterPush(i) => s.(reg := SetAdder(s.reg, i, Added), wake := Triggered(s.wake))
      case Shutdown => s.(wake := s.wake.(contextOk := false, owed := s.wake.owed + 1))
      case TriggerAfterShutdown => s.(wake := Wakeup(s.wake.contextOk, s.wake.owed - 1, true))
      case Arrive(e, item) => s.(data := Arrived(s.data, e, item))
      case Destroy(e) => s.(reg := s.reg.(destroyed := s.reg.destroyed + {e}))
  }

  function RunFrom(c: Config, s: Exec, acts: seq<Action>): Exec
    decreases |acts|
  {
    if acts == [] then s else RunFrom(c, Step(c, s, acts[0]), acts[1..])
  }

  function Run(c: Config, acts: seq<Action>): Exec {
    RunFrom(c, Init(), acts)
  }

  // ---- Registrations -------------------------------------------------------------------

  ghost predicate UniqueIds(rs: seq<Reg>) {
    forall i, j :: 0 <= i < j < |rs| ==> rs[i].id != rs[j].id
  }

  /** Numbers are given out once, every listed registration has been pushed, and
    * what is no longer listed has been destroyed. */
  ghost predicate Listed(reg: Registry) {
    && (forall r :: r in reg.waitables ==> r in reg.added)
    && (forall r :: r in reg.added ==> r.ent in reg.destroyed || r in reg.waitables)
    && (forall r :: r in reg.added ==> r.id < reg.nextId)
    && (forall r, q :: r in reg.added && q in reg.added && r.id == q.id ==> r == q)
    && UniqueIds(reg.waitables)
  }

  ghost predicate OwnNumber(reg: Registry, id: nat) {
    id < reg.nextId && forall r :: r in reg.added ==> r.id != id
  }

  /** The numbers the adders hold are their own. */
  ghost predicate Numbered(reg: Registry) {
    && (forall i :: 0 <= i < |reg.adders| && reg.adders[i].HasId? ==> OwnNumber(reg, reg.adders[i].reg.id))
    && (forall i, j :: 0 <= i < j < |reg.adders| && reg.adders[i].HasId? && reg.adders[j].HasId? ==>
          reg.adders[i].reg.id != reg.adders[j].reg.id)
  }

  ghost predicate Seen(all: seq<Reg>, id: nat) {
    exists r :: r in all && r.id == id
  }

  ghost predicate OnlyDestroyed(reg: Registry, dead: set<nat>) {
    forall r :: r in reg.added && r.id in dead ==> r.ent in reg.destroyed
  }

  /** A pass looks at pushed registrations, and drops destroyed ones only. */
  ghost predicate Looking(reg: Registry, pc: Pc) {
    pc.Validate? ==>
      && (forall r :: r in pc.all ==> r in reg.added)
      && (forall r :: r in pc.todo ==> r in pc.all)
      && (forall id :: id in pc.dead ==> Seen(pc.all, id))
      && OnlyDestroyed(reg, pc.dead)
  }

  ghost predicate Registered(s: Exec) {
    Listed(s.reg) && Numbered(s.reg) && Looking(s.reg, s.pc)
  }

  lemma {:induction false} AliveMembers(rs: seq<Reg>, dead: set<nat>)
    ensures forall r :: r in Alive(rs, dead) <==> r in rs && r.id !in dead
  {
    if rs != [] {
      AliveMembers(rs[..|rs| - 1], dead);
      assert rs == rs[..|rs| - 1] + [rs[|rs| - 1]];
    }
  }

  lemma UniqueSnoc(rs: seq<Reg>, r: Reg)
    requires UniqueIds(rs) && forall q :: q in rs ==> q.id != r.id
    ensures UniqueIds(rs + [r])
  {
  }

  lemma {:induction false} AliveUnique(rs: seq<Reg>, dead: set<nat>)
    requires UniqueIds(rs)
    ensures UniqueIds(Alive(rs, dead))
  {
    if rs != [] {
      var front, last := rs[..|rs| - 1], rs[|rs| - 1];
      AliveUnique(front, dead);
      AliveMembers(front, dead);
      if last.id !in dead {
        UniqueSnoc(Alive(front, dead), last);
      }
    }
  }

  lemma ForgetKeepsListed(reg: Registry, dead: set<nat>)
    requires Listed(reg) && Numbered(reg) && OnlyDestroyed(reg, dead)
    ensures Listed(Forget(reg, dead)) && Numbered(Forget(reg, dead))
  {
    hide UniqueIds;
    AliveMembers(reg.waitables, dead);
    AliveUnique(reg.waitables, dead);
  }

  lemma ValidateOne(reg: Registry, all: seq<Reg>, todo: seq<Reg>, dead: set<nat>)
    requires Listed(reg) && Looking(reg, Validate(all, todo, dead)) && todo != []
    ensures Looking(reg, Validate(all, todo[1..], if todo[0].ent in reg.destroyed then dead + {todo[0].id} else dead))
  {
    assert todo[0] in todo;
    assert Seen(all, todo[0].id);
  }

  lemma DeliverRegistry(c: Config, s: Exec)
    ensures Deliver(c, s).reg == s.reg && (Delivering(s.pc) ==> !Deliver(c, s).pc.Validate?)
  {
    hide CanRun, LeftGroup, Entered, GroupOf, TakeItem, Record, Items;
  }

  lemma PrepareRegistry(c: Config, s: Exec)
    ensures !s.pc.Validate? ==> Prepare(c, s).reg == s.reg
    ensures !s.pc.Validate? && !s.pc.Snapshot? ==> !Prepare(c, s).pc.Validate?
  {
    hide CanRun, Alive, Forget, GroupOf;
  }

  /** The waiting thread touches the registry only when it forgets. */
  lemma NextRegistry(c: Config, s: Exec)
    ensures !s.pc.Validate? ==> Next(c, s).reg == s.reg
    ensures !s.pc.Validate? && !s.pc.Snapshot? ==> !Next(c, s).pc.Validate?
  {
    hide Prepare, Deliver, CanRun, IsFinished;
    if Delivering(s.pc) {
      DeliverRegistry(c, s);
    } else {
      PrepareRegistry(c, s);
    }
  }

  lemma SnapshotLooks(reg: Registry)
    requires Listed(reg)
    ensures Looking(reg, Validate(reg.waitables, reg.waitables, {}))
  {
  }

  lemma NextKeepsRegistered(c: Config, s: Exec)
    requires Registered(s)
    ensures Registered(Next(c, s))
  {
    hide Listed, Numbered, Deliver, KeepTasks;
    NextRegistry(c, s);
    match s.pc {
      case Validate(all, todo, dead) =>
        if todo == [] {
          ForgetKeepsListed(s.reg, dead);
        } else {
          ValidateOne(s.reg, all, todo, dead);
        }
      case Snapshot => SnapshotLooks(s.reg);
      case _ =>
    }
  }

  lemma PushKeepsRegistered(reg: Registry, i: nat, pc: Pc)
    requires Listed(reg) && Numbered(reg) && Looking(reg, pc)
    requires i < |reg.adders| && reg.adders[i].HasId?
    ensures Listed(Pushing(reg, i)) && Numbered(Pushing(reg, i)) && (Looking(Pushing(reg, i), pc))
  {
    hide UniqueIds;
    assert OwnNumber(reg, reg.adders[i].reg.id);
    UniqueSnoc(reg.waitables, reg.adders[i].reg);
  }

  lemma TakeIdKeepsRegistered(reg: Registry, e: nat, pc: Pc)
    requires Listed(reg) && Numbered(reg) && Looking(reg, pc)
    ensures var next := reg.(nextId := reg.nextId + 1, adders := reg.adders + [HasId(Reg(reg.nextId, e))]);
      Listed(next) && Numbered(next) && Looking(next, pc)
  {
  }

  lemma TriggeredKeepsRegistered(reg: Registry, i: nat, pc: Pc)
    requires Listed(reg) && Numbered(reg) && Looking(reg, pc) && i < |reg.adders|
    ensures Listed(SetAdder(reg, i, Added)) && Numbered(SetAdder(reg, i, Added)) && Looking(SetAdder(reg, i, Added), pc)
  {
  }

  lemma DestroyKeepsRegistered(reg: Registry, e: nat, pc: Pc)
    requires Listed(reg) && Numbered(reg) && Looking(reg, pc)
    ensures var next := reg.(destroyed := reg.destroyed + {e});
      Listed(next) && Numbered(next) && Looking(next, pc)
  {
  }

  lemma StepKeepsRegistered(c: Config, s: Exec, a: Action)
    requires Registered(s)
    ensures Registered(Step(c, s, a))
  {
    hide Listed, Numbered, Next, SetAdder, Pushing, ReadyOf;
    if Enabled(s, a) {
      match a {
        case Advance => NextKeepsRegistered(c, s);
        case TakeId(e) => TakeIdKeepsRegistered(s.reg, e, s.pc);
        case Push(i) => PushKeepsRegistered(s.reg, i, s.pc);
        case TriggerAfterPush(i) => TriggeredKeepsRegistered(s.reg, i, s.pc);
        case Destroy(e) => DestroyKeepsRegistered(s.reg, e, s.pc);
        case _ =>
      }
    }
  }

  // ---- Callback groups -------------------------------------------------------------------

  /** The callbacks of group g that are running on worker threads. */
  function OnWorkers(c: Config, workers: seq<Worker>, g: nat): nat {
    if workers == [] then 0
    else
      var last := workers[|workers| - 1];
      OnWorkers(c, workers[..|workers| - 1], g)
        + (if last.stage.Running? && c.groupOf(last.ent) == g then 1 else 0)
  }

  /** The callback of group g that the waiting thread has entered and not left or handed over. */
  function OnWaiting(c: Config, pc: Pc, g: nat): nat {
    if (pc.Start? || pc.Inside?) && pc.todo != [] && GroupOf(c, pc.todo[0]) == g then 1 else 0
  }

  /** Each group's count is the number of its callbacks entered and not yet left. */
  ghost predicate Counted(c: Config, s: Exec, g: nat) {
    Count(s.running, g) == OnWorkers(c, s.workers, g) + OnWaiting(c, s.pc, g)
  }

  /** The waiting thread enters only a group that may run. */
  ghost predicate Exclusive(c: Config, s: Exec) {
    && (forall g :: c.kindOf(g).MutuallyExclusive? ==> Count(s.running, g) <= 1)
    && ((s.pc.Take? || s.pc.Enter?) && s.pc.todo != [] ==> CanRun(c, s, GroupOf(c, s.pc.todo[0])))
  }

  lemma {:induction false} WorkerUpdate(c: Config, workers: seq<Worker>, w: nat, x: Worker, g: nat)
    requires w < |workers|
    ensures OnWorkers(c, workers[w := x], g) + OnWorkers(c, [workers[w]], g)
         == OnWorkers(c, workers, g) + OnWorkers(c, [x], g)
  {
    var last := |workers| - 1;
    var after := workers[w := x];
    assert [workers[w]][..0] == [] && [x][..0] == [];
    if w == last {
      assert after[..last] == workers[..last];
    } else {
      WorkerUpdate(c, workers[..last], w, x, g);
      assert after[..last] == workers[..last][w := x] && after[last] == workers[last];
    }
  }

  lemma WorkerAdded(c: Config, workers: seq<Worker>, x: Worker, g: nat)
    ensures OnWorkers(c, workers + [x], g) == OnWorkers(c, workers, g) + OnWorkers(c, [x], g)
  {
    assert (workers + [x])[..|workers|] == workers && [x][..0] == [];
  }

  lemma OneWorker(c: Config, x: Worker, g: nat)
    ensures OnWorkers(c, [x], g) == if x.stage.Running? && c.groupOf(x.ent) == g then 1 else 0
  {
    assert [x][..0] == [];
  }

  lemma StageChange(c: Config, workers: seq<Worker>, w: nat, stage: Stage, g: nat)
    requires w < |workers|
    ensures OnWorkers(c, SetStage(workers, w, stage), g)
          + (if workers[w].stage.Running? && c.groupOf(workers[w].ent) == g then 1 else 0)
         == OnWorkers(c, workers, g) + (if stage.Running? && c.groupOf(workers[w].ent) == g then 1 else 0)
  {
    var x := workers[w].(stage := stage);
    WorkerUpdate(c, workers, w, x, g);
    OneWorker(c, x, g);
    OneWorker(c, workers[w], g);
  }

  lemma DeliverCounts(c: Config, s: Exec)
    requires s.pc.AfterWait? || s.pc.Dispatch? || s.pc.Take?
    ensures Deliver(c, s).running == s.running && Deliver(c, s).workers == s.workers
    ensures !Deliver(c, s).pc.Start? && !Deliver(c, s).pc.Inside?
  {
    hide CanRun, GroupOf, TakeItem, Items;
  }

  lemma PrepareCounts(c: Config, s: Exec)
    requires !Delivering(s.pc)
    ensures Prepare(c, s).running == s.running && Prepare(c, s).workers == s.workers
    ensures !Delivering(Prepare(c, s).pc)
  {
    hide CanRun, Alive, Forget, GroupOf;
  }

  /** Outside entering, starting and leaving, the waiting thread changes no count. */
  lemma NextCounts(c: Config, s: Exec, g: nat)
    requires !(s.pc.Enter? || s.pc.Start? || s.pc.Inside?)
    ensures Next(c, s).running == s.running && Next(c, s).workers == s.workers
    ensures OnWaiting(c, s.pc, g) == OnWaiting(c, Next(c, s).pc, g) == 0
  {
    hide Prepare, Deliver, CanRun, IsFinished, GroupOf;
    if Delivering(s.pc) {
      DeliverCounts(c, s);
    } else {
      PrepareCounts(c, s);
    }
  }

  lemma NextKeepsCounted(c: Config, s: Exec, g: nat)
    requires Counted(c, s, g)
    ensures Counted(c, Next(c, s), g)
  {
    hide Prepare, KeepTasks, OnWorkers, CanRun, ReadyOf, Record, TakeItem;
    if s.pc.Start? && s.pc.todo != [] {
      var x := Worker(s.pc.todo[0].ent, s.pc.item, Running);
      WorkerAdded(c, s.workers, x, g);
      OneWorker(c, x, g);
    } else if !(s.pc.Enter? || s.pc.Start? || s.pc.Inside?) {
      NextCounts(c, s, g);
    }
  }

  lemma StepKeepsCounted(c: Config, s: Exec, a: Action, g: nat)
    requires Counted(c, s, g)
    ensures Counted(c, Step(c, s, a), g)
  {
    hide Next, OnWorkers, SetStage, ReadyOf, SetAdder, Pushing, Arrived;
    if Enabled(s, a) {
      match a {
        case Leave(w) => StageChange(c, s.workers, w, Left, g);
        case TriggerAfterLeave(w) => StageChange(c, s.workers, w, Finished, g);
        case Advance => NextKeepsCounted(c, s, g);
        case _ =>
      }
    }
  }

  lemma NextEntersNothing(c: Config, s: Exec)
    requires !Delivering(s.pc)
    ensures !Next(c, s).pc.Take? && !Next(c, s).pc.Enter?
  {
  }

  lemma NextKeepsExclusive(c: Config, s: Exec)
    requires Exclusive(c, s)
    ensures Exclusive(c, Next(c, s))
  {
    hide Prepare, KeepTasks, ReadyOf, Record, TakeItem;
    if !(s.pc.Enter? || s.pc.Start? || s.pc.Inside?) {
      NextCounts(c, s, 0);
    }
    if !Delivering(s.pc) {
      NextEntersNothing(c, s);
    }
  }

  lemma StepKeepsExclusive(c: Config, s: Exec, a: Action)
    requires Exclusive(c, s)
    ensures Exclusive(c, Step(c, s, a))
  {
    hide Next, SetStage, ReadyOf, SetAdder, Pushing, Arrived;
    if Enabled(s, a) && a.Advance? {
      NextKeepsExclusive(c, s);
    }
  }

  lemma {:induction false} RunningIsCounted(c: Config, workers: seq<Worker>, w: nat)
    requires w < |workers| && workers[w].stage.Running?
    ensures OnWorkers(c, workers, c.groupOf(workers[w].ent)) >= 1
  {
    if w < |workers| - 1 {
      RunningIsCounted(c, workers[..|workers| - 1], w);
    }
  }

  lemma {:induction false} TwoAreCounted(c: Config, workers: seq<Worker>, v: nat, w: nat)
    requires v < w < |workers| && workers[v].stage.Running? && workers[w].stage.Running?
    requires c.groupOf(workers[v].ent) == c.groupOf(workers[w].ent)
    ensures OnWorkers(c, workers, c.groupOf(workers[w].ent)) >= 2
  {
    if w < |workers| - 1 {
      TwoAreCounted(c, workers[..|workers| - 1], v, w);
    } else {
      RunningIsCounted(c, workers[..w], v);
    }
  }

  /** In every run a group's count is the number of its callbacks entered and not
    * left, and at most one for a mutually exclusive group. */
  lemma MutualExclusion(c: Config, acts: seq<Action>, g: nat)
    ensures var s := Run(c, acts);
      && Count(s.running, g) == OnWorkers(c, s.workers, g) + OnWaiting(c, s.pc, g)
      && (c.kindOf(g).MutuallyExclusive? ==> OnWorkers(c, s.workers, g) + OnWaiting(c, s.pc, g) <= 1)
  {
    RunKeepsInv(c, acts);
    assert Counted(c, Run(c, acts), g);
  }

  /** Two callbacks run at the same time only in a reentrant group. */
  lemma OverlapMeansReentrant(c: Config, acts: seq<Action>, v: nat, w: nat)
    requires v < w < |Run(c, acts).workers|
    requires var ws := Run(c, acts).workers;
      && ws[v].stage.Running? && ws[w].stage.Running? && c.groupOf(ws[v].ent) == c.groupOf(ws[w].ent)
    ensures c.kindOf(c.groupOf(Run(c, acts).workers[w].ent)).Reentrant?
  {
    hide Run, OnWorkers;
    var s := Run(c, acts);
    TwoAreCounted(c, s.workers, v, w);
    MutualExclusion(c, acts, c.groupOf(s.workers[w].ent));
  }

  /** Whoever leaves a group finds its count above zero, so the count never stops
    * at zero while a callback is still inside. */
  lemma LeaveNeverUnderflows(c: Config, acts: seq<Action>, w: nat)
    ensures var s := Run(c, acts);
      && (Enabled(s, Leave(w)) ==> Count(s.running, c.groupOf(s.workers[w].ent)) > 0)
      && (s.pc.Inside? && s.pc.todo != [] ==> Count(s.running, GroupOf(c, s.pc.todo[0])) > 0)
  {
    hide Run, OnWorkers;
    var s := Run(c, acts);
    if Enabled(s, Leave(w)) {
      RunningIsCounted(c, s.workers, w);
      MutualExclusion(c, acts, c.groupOf(s.workers[w].ent));
    }
    if s.pc.Inside? && s.pc.todo != [] {
      MutualExclusion(c, acts, GroupOf(c, s.pc.todo[0]));
    }
  }

  // ---- Conservation of data ----------------------------------------------------------------

  /** The item of entity e taken and not yet handed to a callback. */
  function InHand(pc: Pc, e: nat): seq<nat> {
    if (pc.Enter? || pc.Start?) && pc.todo != [] && pc.todo[0].ent == e then [pc.item] else []
  }

  ghost predicate Conserved(s: Exec, e: nat) {
    Items(s.data.dispatched, e) + InHand(s.pc, e) + Items(s.data.queue, e) == Items(s.data.arrived, e)
  }

  lemma PrepareData(c: Config, s: Exec)
    requires !Delivering(s.pc)
    ensures Prepare(c, s).data == s.data && !Delivering(Prepare(c, s).pc)
  {
    hide CanRun, Alive, Forget, GroupOf;
  }

  lemma DeliverData(c: Config, s: Exec)
    requires Delivering(s.pc) && !s.pc.Take? && !s.pc.Start?
    ensures Deliver(c, s).data == s.data
    ensures !s.pc.Enter? ==> !Deliver(c, s).pc.Enter? && !Deliver(c, s).pc.Start?
    ensures s.pc.Enter? ==>
      Deliver(c, s).pc == if s.pc.todo == [] then s.pc else Start(s.pc.todo, s.pc.ready, s.pc.item)
  {
    hide CanRun, LeftGroup, Entered, GroupOf, TakeItem, Record, Items;
  }

  /** The waiting thread touches the data only when it takes and when it hands over. */
  lemma NextData(c: Config, s: Exec)
    requires !s.pc.Take? && !s.pc.Start?
    ensures Next(c, s).data == s.data
    ensures !s.pc.Enter? ==> !Next(c, s).pc.Enter? && !Next(c, s).pc.Start?
    ensures s.pc.Enter? ==>
      Next(c, s).pc == if s.pc.todo == [] then s.pc else Start(s.pc.todo, s.pc.ready, s.pc.item)
  {
    hide Prepare, Deliver, CanRun, IsFinished;
    if Delivering(s.pc) {
      DeliverData(c, s);
    } else {
      PrepareData(c, s);
    }
  }

  lemma NextLeavesData(c: Config, s: Exec, e: nat)
    requires !s.pc.Take? && !s.pc.Start?
    ensures Next(c, s).data == s.data && InHand(Next(c, s).pc, e) == InHand(s.pc, e)
  {
    hide Next;
    NextData(c, s);
  }

  lemma TakeMoves(data: Traffic, e: nat, x: nat)
    requires Items(data.queue, e) != []
    ensures var t := TakeItem(data, e);
      Items(data.queue, x) == (if x == e then [Items(data.queue, e)[0]] else []) + Items(t.queue, x)
  {
  }

  lemma TakeLeaves(data: Traffic, e: nat, x: nat)
    requires Items(data.queue, e) != []
    ensures Items(TakeItem(data, e).dispatched, x) == Items(data.dispatched, x)
    ensures Items(TakeItem(data, e).arrived, x) == Items(data.arrived, x)
  {
  }

  lemma TakeConserves(c: Config, s: Exec, e: nat)
    requires Conserved(s, e) && s.pc.Take?
    ensures Conserved(Deliver(c, s), e)
  {
    hide TakeItem, GroupOf, CanRun, Items;
    if s.pc.todo != [] && s.pc.todo[0].ent in s.pc.ready && Items(s.data.queue, s.pc.todo[0].ent) != [] {
      var t := Deliver(c, s);
      TakeMoves(s.data, s.pc.todo[0].ent, e);
      TakeLeaves(s.data, s.pc.todo[0].ent, e);
      assert Items(s.data.queue, e) == InHand(t.pc, e) + Items(t.data.queue, e);
      assert Items(s.data.dispatched, e) + [] == Items(s.data.dispatched, e);
    }
  }

  lemma RecordMoves(data: Traffic, e: nat, item: nat, x: nat)
    ensures Items(Record(data, e, item).dispatched, x) == Items(data.dispatched, x) + (if x == e then [item] else [])
    ensures Items(Record(data, e, item).queue, x) == Items(data.queue, x)
    ensures Items(Record(data, e, item).arrived, x) == Items(data.arrived, x)
  {
  }

  lemma StartConserves(c: Config, s: Exec, e: nat)
    requires Conserved(s, e) && s.pc.Start?
    ensures Conserved(Deliver(c, s), e)
  {
    hide Record, GroupOf, CanRun, Items;
    if s.pc.todo != [] {
      assert Items(s.data.dispatched, e) + InHand(s.pc, e) + [] == Items(s.data.dispatched, e) + InHand(s.pc, e);
      RecordMoves(s.data, s.pc.todo[0].ent, s.pc.item, e);
    }
  }

  lemma NextKeepsConserved(c: Config, s: Exec, e: nat)
    requires Conserved(s, e)
    ensures Conserved(Next(c, s), e)
  {
    hide Prepare, Deliver, KeepTasks, Items, InHand;
    if s.pc.Take? {
      TakeConserves(c, s, e);
    } else if s.pc.Start? {
      StartConserves(c, s, e);
    } else {
      NextLeavesData(c, s, e);
    }
  }

  lemma ArriveConserves(data: Traffic, e: nat, item: nat, x: nat)
    ensures Items(Arrived(data, e, item).dispatched, x) == Items(data.dispatched, x)
    ensures Items(Arrived(data, e, item).queue, x) == Items(data.queue, x) + (if x == e then [item] else [])
    ensures Items(Arrived(data, e, item).arrived, x) == Items(data.arrived, x) + (if x == e then [item] else [])
  {
  }

  lemma OthersLeaveData(c: Config, s: Exec, a: Action)
    requires !a.Advance? && !a.Arrive?
    ensures Step(c, s, a).data == s.data
    ensures Step(c, s, a).pc == s.pc
      || !(s.pc.Enter? || s.pc.Start? || Step(c, s, a).pc.Enter? || Step(c, s, a).pc.Start?)
  {
    hide Next, SetStage, ReadyOf, SetAdder, Pushing, LeftGroup;
  }

  lemma StepKeepsConserved(c: Config, s: Exec, a: Action, e: nat)
    requires Conserved(s, e)
    ensures Conserved(Step(c, s, a), e)
  {
    hide Next, Items, Arrived, SetStage, ReadyOf, SetAdder, Pushing, LeftGroup;
    if a.Advance? {
      NextKeepsConserved(c, s, e);
    } else if a.Arrive? {
      ArriveConserves(s.data, a.ent, a.item, e);
    } else {
      OthersLeaveData(c, s, a);
    }
  }

  /** In every run, what the callbacks of an entity were given, then the item in
    * hand, then the items still queued, are what arrived, in order. */
  lemma Conservation(c: Config, acts: seq<Action>, e: nat)
    ensures var s := Run(c, acts);
      Items(s.data.dispatched, e) + InHand(s.pc, e) + Items(s.data.queue, e) == Items(s.data.arrived, e)
  {
    RunKeepsInv(c, acts);
    assert Conserved(Run(c, acts), e);
  }

  // ---- Worker tasks ---------------------------------------------------------------------------

  /** The tasks the multi-threaded loop still keeps. */
  function Retained(s: Exec): seq<nat> {
    match s.pc
    case Idle => []
    case PruneTasks(todo, kept) => kept + todo
    case Join(todo) => todo
    case _ => if s.mode.Workers? then s.tasks else []
  }

  ghost predicate Increasing(ts: seq<nat>, bound: nat) {
    && (forall i, j :: 0 <= i < j < |ts| ==> ts[i] < ts[j])
    && (forall t :: t in ts ==> t < bound)
  }

  /** Tasks are kept once each, in dispatch order, and every task not kept has finished. */
  ghost predicate Accounted(s: Exec) {
    && (s.pc.PruneTasks? || s.pc.Join? ==> s.mode.Workers?)
    && Increasing(Retained(s), |s.workers|)
    && forall t :: 0 <= t < |s.workers| ==> IsFinished(s, t) || t in Retained(s)
  }

  lemma IncreasingDrop(a: seq<nat>, b: seq<nat>, bound: nat)
    requires b != [] && Increasing(a + b, bound)
    ensures Increasing(a + b[1..], bound)
  {
    var r := a + b;
    var u := a + b[1..];
    forall i, j | 0 <= i < j < |u| ensures u[i] < u[j] {
      assert u[i] == (if i < |a| then r[i] else r[i + 1]) && u[j] == (if j < |a| then r[j] else r[j + 1]);
    }
    forall t | t in u ensures t < bound {
      assert t in r;
    }
  }

  lemma IncreasingSnoc(ts: seq<nat>, n: nat)
    requires Increasing(ts, n)
    ensures Increasing(ts + [n], n + 1)
  {
    forall i | 0 <= i < |ts| ensures ts[i] < n {
      assert ts[i] in ts;
    }
  }

  /** Dropping a finished task from the front of what is left. */
  lemma DropAccounted(s: Exec, t: Exec, a: seq<nat>, b: seq<nat>)
    requires Accounted(s) && t.workers == s.workers && (t.pc.PruneTasks? || t.pc.Join? ==> t.mode.Workers?)
    requires b != [] && Retained(s) == a + b && Retained(t) == a + b[1..] && IsFinished(s, b[0])
    ensures Accounted(t)
  {
    hide Increasing;
    var r := Retained(s);
    var u := Retained(t);
    IncreasingDrop(a, b, |s.workers|);
    forall x | 0 <= x < |t.workers| ensures IsFinished(t, x) || x in u {
      if x in r && x != b[0] {
        assert x in a || x in b[1..];
      }
    }
  }

  lemma SameAccounted(s: Exec, t: Exec)
    requires Accounted(s) && t.workers == s.workers && Retained(t) == Retained(s)
    requires t.pc.PruneTasks? || t.pc.Join? ==> t.mode.Workers?
    ensures Accounted(t)
  {
    assert forall x :: IsFinished(s, x) ==> IsFinished(t, x);
  }

  lemma KeepTasksAccounted(s: Exec)
    requires Accounted(s)
    ensures Accounted(KeepTasks(s))
  {
    hide Increasing;
    match s.pc
    case PruneTasks(todo, kept) =>
      if todo != [] && IsFinished(s, todo[0]) {
        DropAccounted(s, KeepTasks(s), kept, todo);
      } else {
        if todo != [] {
          assert (kept + [todo[0]]) + todo[1..] == kept + todo;
        } else {
          assert kept + todo == kept;
        }
        SameAccounted(s, KeepTasks(s));
      }
    case Join(todo) =>
      if todo != [] && IsFinished(s, todo[0]) {
        assert [] + todo == todo && [] + todo[1..] == todo[1..];
        DropAccounted(s, KeepTasks(s), [], todo);
      } else {
        SameAccounted(s, KeepTasks(s));
      }
    case _ =>
  }

  lemma PrepareRetains(c: Config, s: Exec)
    requires !Delivering(s.pc) && !s.pc.PruneTasks? && !s.pc.Join?
    ensures var t := Prepare(c, s);
      && t.workers == s.workers && t.mode == s.mode && t.tasks == s.tasks
      && (t.pc == s.pc || (s.pc.LoopCheck? && t.pc == if s.mode.Workers? then Join(s.tasks) else Idle)
          || (!s.pc.Idle? && !t.pc.Idle? && !t.pc.PruneTasks? && !t.pc.Join?))
  {
    hide CanRun, Alive, Forget, GroupOf;
  }

  lemma DeliverRetains(c: Config, s: Exec)
    requires Delivering(s.pc) && !s.pc.Start?
    ensures var t := Deliver(c, s);
      && t.workers == s.workers && t.mode == s.mode && t.tasks == s.tasks
      && (t.pc == EndPass(s).pc || Delivering(t.pc))
  {
    hide CanRun, LeftGroup, Entered, GroupOf, TakeItem, Items;
  }

  lemma NextRetains(c: Config, s: Exec)
    requires Accounted(s)
    requires !s.pc.PruneTasks? && !s.pc.Join? && !s.pc.Start?
    ensures Retained(Next(c, s)) == Retained(s) && Next(c, s).workers == s.workers
    ensures Next(c, s).pc.PruneTasks? || Next(c, s).pc.Join? ==> Next(c, s).mode.Workers?
  {
    hide Increasing, IsFinished, Prepare, Deliver, Accounted;
    assert [] + s.tasks == s.tasks;
    if Delivering(s.pc) {
      DeliverRetains(c, s);
    } else {
      PrepareRetains(c, s);
    }
  }

  lemma StartAccounted(c: Config, s: Exec)
    requires Accounted(s) && s.pc.Start?
    ensures Accounted(Next(c, s))
  {
    hide Record, Increasing, CanRun, Prepare, KeepTasks;
    var t := Next(c, s);
    if s.pc.todo != [] && s.mode.Workers? {
      IncreasingSnoc(s.tasks, |s.workers|);
      assert Retained(t) == s.tasks + [|s.workers|];
      forall x | 0 <= x < |t.workers| ensures IsFinished(t, x) || x in Retained(t) {
        if x < |s.workers| {
          assert IsFinished(s, x) || x in s.tasks;
        }
      }
    } else {
      SameAccounted(s, t);
    }
  }

  lemma StageAccounted(s: Exec, t: Exec, w: nat, stage: Stage)
    requires Accounted(s) && w < |s.workers| && !s.workers[w].stage.Finished?
    requires t.workers == SetStage(s.workers, w, stage) && t.pc == s.pc && t.mode == s.mode && t.tasks == s.tasks
    ensures Accounted(t)
  {
    assert Retained(t) == Retained(s);
    forall x | 0 <= x < |t.workers| ensures IsFinished(t, x) || x in Retained(t) {
      assert IsFinished(s, x) || x in Retained(s);
    }
  }

  lemma NextAccounted(c: Config, s: Exec)
    requires Accounted(s)
    ensures Accounted(Next(c, s))
  {
    hide Prepare, Deliver, KeepTasks, Accounted, Retained;
    if s.pc.PruneTasks? || s.pc.Join? {
      KeepTasksAccounted(s);
    } else if s.pc.Start? {
      StartAccounted(c, s);
    } else {
      NextRetains(c, s);
      SameAccounted(s, Next(c, s));
    }
  }

  lemma OthersAccounted(c: Config, s: Exec, a: Action)
    requires Accounted(s) && Enabled(s, a) && !a.Leave? && !a.TriggerAfterLeave? && !a.Advance?
    ensures Accounted(Step(c, s, a))
  {
    hide SetStage, ReadyOf, SetAdder, Pushing, Arrived, Increasing;
    SameAccounted(s, Step(c, s, a));
  }

  lemma StepKeepsAccounted(c: Config, s: Exec, a: Action)
    requires Accounted(s)
    ensures Accounted(Step(c, s, a))
  {
    hide Next, SetStage, ReadyOf, SetAdder, Pushing, Arrived, Accounted, Retained;
    if Enabled(s, a) {
      var t := Step(c, s, a);
      match a {
        case Leave(w) => StageAccounted(s, t, w, Left);
        case TriggerAfterLeave(w) => StageAccounted(s, t, w, Finished);
        case Advance => NextAccounted(c, s);
        case _ => OthersAccounted(c, s, a);
      }
    }
  }

  /** At each loop head of the multi-threaded executor the tasks ever dispatched
    * are the retained ones, each once, and finished ones; and when it has
    * returned, every callback it ever dispatched has finished. */
  lemma ReturnsWhenAllFinished(c: Config, acts: seq<Action>)
    ensures var s := Run(c, acts);
      && (s.pc.LoopCheck? && s.mode.Workers? ==>
            Increasing(s.tasks, |s.workers|)
            && forall t :: 0 <= t < |s.workers| ==> t in s.tasks || s.workers[t].stage.Finished?)
      && (s.pc.Idle? ==> forall t :: 0 <= t < |s.workers| ==> s.workers[t].stage.Finished?)
  {
    var s := Run(c, acts);
    RunKeepsInv(c, acts);
    forall t | 0 <= t < |s.workers|
      ensures s.workers[t].stage.Finished? || t in Retained(s)
    {
      assert IsFinished(s, t) || t in Retained(s);
    }
  }

  // ---- No lost wakeup -------------------------------------------------------------------------

  ghost predicate SomeoneLeft(workers: seq<Worker>) {
    exists w :: 0 <= w < |workers| && workers[w].stage.Left?
  }

  ghost predicate SomeonePushed(adders: seq<Adder>) {
    exists i :: 0 <= i < |adders| && adders[i].Pushed?
  }

  /** The guard is latched, or somebody who has pushed an entity, left a group or
    * shut the context down still owes it a trigger. */
  ghost predicate WakeupDue(s: Exec) {
    || s.wake.latch
    || s.wake.owed > 0
    || SomeoneLeft(s.workers)
    || SomeonePushed(s.reg.adders)
  }

  /** The pass has this registration in its wait set, or may still put it there. */
  predicate Considered(pc: Pc, r: Reg) {
    match pc
    case Validate(all, _, dead) => r in all && r.id !in dead
    case Filter(todo, eligible) => r in todo || r in eligible
    case Fill(eligible) => r in eligible
    case Blocked(eligible) => r in eligible
    case _ => true
  }

  /** Registered, not destroyed, and free to run a callback. */
  predicate Wanted(c: Config, s: Exec, r: Reg) {
    r in s.reg.waitables && r.ent !in s.reg.destroyed && CanRun(c, s, GroupOf(c, r))
  }

  ghost predicate NoneMissed(c: Config, s: Exec) {
    forall r :: Wanted(c, s, r) && !Considered(s.pc, r) ==> WakeupDue(s)
  }

  /** Between the start of a pass and the return of its wait. */
  predicate BeforeWaitReturns(pc: Pc) {
    pc.Snapshot? || pc.Validate? || pc.Filter? || pc.Fill? || pc.Blocked?
  }

  ghost predicate ShutdownNoticed(s: Exec) {
    BeforeWaitReturns(s.pc) && s.passOk && !s.wake.contextOk ==> WakeupDue(s)
  }

  lemma NextConsiders(c: Config, s: Exec, r: Reg)
    requires Registered(s) && Wanted(c, s, r) && Considered(s.pc, r) && BeforeWaitReturns(s.pc)
    ensures Considered(Next(c, s).pc, r)
  {
    hide KeepTasks, Deliver, Numbered;
    match s.pc
    case Validate(all, todo, dead) =>
      if todo == [] {
        AliveMembers(all, dead);
      } else {
        assert todo[0] in todo;
      }
    case Filter(todo, eligible) =>
      if todo != [] {
        assert todo == [todo[0]] + todo[1..];
      }
    case _ =>
  }

  lemma NextForgets(c: Config, s: Exec, r: Reg)
    requires r in Next(c, s).reg.waitables
    ensures r in s.reg.waitables
  {
    if s.pc.Validate? {
      AliveMembers(s.reg.waitables, s.pc.dead);
    }
  }

  lemma DeliverWakes(c: Config, s: Exec)
    requires Delivering(s.pc)
    ensures Deliver(c, s).wake == s.wake && Deliver(c, s).reg == s.reg && !BeforeWaitReturns(Deliver(c, s).pc)
  {
    hide CanRun, LeftGroup, Entered, GroupOf, TakeItem, Record, Items;
  }

  lemma PrepareWakes(c: Config, s: Exec)
    ensures var t := Prepare(c, s);
      && t.running == s.running && t.wake == s.wake && t.workers == s.workers
      && t.reg.adders == s.reg.adders && t.reg.destroyed == s.reg.destroyed
      && (BeforeWaitReturns(s.pc) ==> t.passOk == s.passOk)
      && (!BeforeWaitReturns(s.pc) && BeforeWaitReturns(t.pc) ==> t.pc.Snapshot? && s.wake.contextOk)
  {
    hide CanRun, Alive, GroupOf;
  }

  /** Before the wait returns the waiting thread changes neither the groups nor
    * what others owe; afterwards every registration is considered again. */
  lemma NextWakes(c: Config, s: Exec)
    ensures BeforeWaitReturns(s.pc) ==> Next(c, s).running == s.running
    ensures Next(c, s).wake == s.wake && Next(c, s).reg.adders == s.reg.adders
    ensures Next(c, s).reg.destroyed == s.reg.destroyed
    ensures BeforeWaitReturns(s.pc) ==> Next(c, s).workers == s.workers && Next(c, s).passOk == s.passOk
    ensures !BeforeWaitReturns(s.pc) && BeforeWaitReturns(Next(c, s).pc) ==>
      Next(c, s).pc.Snapshot? && s.wake.contextOk
  {
    hide Prepare, Deliver, CanRun, IsFinished;
    if Delivering(s.pc) {
      DeliverWakes(c, s);
    } else {
      PrepareWakes(c, s);
    }
  }

  lemma AllConsidered(pc: Pc, r: Reg)
    ensures !BeforeWaitReturns(pc) || pc.Snapshot? ==> Considered(pc, r)
  {
  }

  lemma NextKeepsNoneMissed(c: Config, s: Exec)
    requires Registered(s) && NoneMissed(c, s)
    ensures NoneMissed(c, Next(c, s))
  {
    hide Next, Registered, Considered;
    var t := Next(c, s);
    NextWakes(c, s);
    forall r | Wanted(c, t, r) && !Considered(t.pc, r) ensures WakeupDue(t) {
      NextForgets(c, s, r);
      if BeforeWaitReturns(s.pc) {
        assert Wanted(c, s, r);
        if Considered(s.pc, r) {
          NextConsiders(c, s, r);
        }
      } else {
        AllConsidered(t.pc, r);
      }
    }
  }

  lemma NextKeepsShutdownNoticed(c: Config, s: Exec)
    requires ShutdownNoticed(s)
    ensures ShutdownNoticed(Next(c, s))
  {
    hide Next;
    NextWakes(c, s);
  }

  /** A step of another thread that is not a debt being paid leaves every debt. */
  lemma DebtsStay(c: Config, s: Exec, a: Action)
    requires WakeupDue(s) && Enabled(s, a) && !a.Advance? && !a.WaitReturns?
    ensures WakeupDue(Step(c, s, a))
  {
    hide ReadyOf, Arrived, LeftGroup;
    var t := Step(c, s, a);
    if SomeoneLeft(s.workers) && !a.TriggerAfterLeave? {
      var w :| 0 <= w < |s.workers| && s.workers[w].stage.Left?;
      assert t.workers[w].stage.Left?;
    } else if SomeonePushed(s.reg.adders) && !a.TriggerAfterPush? {
      var i :| 0 <= i < |s.reg.adders| && s.reg.adders[i].Pushed?;
      assert t.reg.adders[i].Pushed?;
    }
  }

  /** What makes a registration wanted, or shuts the context down, leaves a debt. */
  lemma NewWantedLeavesDebt(c: Config, s: Exec, a: Action, r: Reg)
    requires Enabled(s, a) && !a.Advance? && !Wanted(c, s, r) && Wanted(c, Step(c, s, a), r)
    ensures WakeupDue(Step(c, s, a))
  {
    hide ReadyOf, Arrived;
    var t := Step(c, s, a);
    match a
    case Leave(w) => assert t.workers[w].stage.Left?;
    case Push(i) => assert t.reg.adders[i].Pushed?;
    case _ =>
  }

  lemma OthersKeepPc(c: Config, s: Exec, a: Action)
    requires Enabled(s, a) && !a.Advance?
    ensures BeforeWaitReturns(Step(c, s, a).pc) ==>
      Step(c, s, a).pc == s.pc || Step(c, s, a).pc.Snapshot?
    ensures Step(c, s, a).pc == s.pc ==> !a.WaitReturns?
    ensures Step(c, s, a).pc == s.pc ==> Step(c, s, a).passOk == s.passOk
    ensures Step(c, s, a).pc.Snapshot? && Step(c, s, a).pc != s.pc ==>
      Step(c, s, a).passOk == s.wake.contextOk == Step(c, s, a).wake.contextOk
  {
  }

  lemma OthersKeepNoneMissed(c: Config, s: Exec, a: Action)
    requires NoneMissed(c, s) && Enabled(s, a) && !a.Advance?
    ensures NoneMissed(c, Step(c, s, a))
  {
    hide Step, Enabled, Wanted, WakeupDue, Considered;
    var t := Step(c, s, a);
    OthersKeepPc(c, s, a);
    forall r | Wanted(c, t, r) && !Considered(t.pc, r) ensures WakeupDue(t) {
      AllConsidered(t.pc, r);
      if !Wanted(c, s, r) {
        NewWantedLeavesDebt(c, s, a, r);
      } else {
        DebtsStay(c, s, a);
      }
    }
  }

  lemma ShutdownLeavesDebt(c: Config, s: Exec, a: Action)
    requires Enabled(s, a) && !a.Advance? && s.wake.contextOk && !Step(c, s, a).wake.contextOk
    ensures WakeupDue(Step(c, s, a))
  {
    hide ReadyOf;
  }

  lemma OthersKeepShutdownNoticed(c: Config, s: Exec, a: Action)
    requires ShutdownNoticed(s) && Enabled(s, a) && !a.Advance?
    ensures ShutdownNoticed(Step(c, s, a))
  {
    hide Step, Enabled, WakeupDue;
    var t := Step(c, s, a);
    OthersKeepPc(c, s, a);
    if BeforeWaitReturns(t.pc) && t.passOk && !t.wake.contextOk {
      if s.wake.contextOk {
        ShutdownLeavesDebt(c, s, a);
      } else {
        DebtsStay(c, s, a);
      }
    }
  }

  lemma StepKeepsNoticed(c: Config, s: Exec, a: Action)
    requires Registered(s) && NoneMissed(c, s) && ShutdownNoticed(s)
    ensures NoneMissed(c, Step(c, s, a)) && ShutdownNoticed(Step(c, s, a))
  {
    hide NoneMissed, ShutdownNoticed, Next, Registered;
    if Enabled(s, a) {
      if a.Advance? {
        NextKeepsNoneMissed(c, s);
        NextKeepsShutdownNoticed(c, s);
      } else {
        OthersKeepNoneMissed(c, s, a);
        OthersKeepShutdownNoticed(c, s, a);
      }
    }
  }

  // ---- Every interleaving -----------------------------------------------------------------------

  ghost predicate Inv(c: Config, s: Exec) {
    && Registered(s)
    && Exclusive(c, s) && (forall g :: Counted(c, s, g))
    && (forall e :: Conserved(s, e))
    && Accounted(s)
    && NoneMissed(c, s) && ShutdownNoticed(s)
  }

  lemma InitInv(c: Config)
    ensures Inv(c, Init())
  {
  }

  lemma StepKeepsInv(c: Config, s: Exec, a: Action)
    requires Inv(c, s)
    ensures Inv(c, Step(c, s, a))
  {
    hide Step, Registered, Exclusive, Counted, Conserved, Accounted, NoneMissed, ShutdownNoticed;
    var t := Step(c, s, a);
    StepKeepsRegistered(c, s, a);
    StepKeepsExclusive(c, s, a);
    forall g ensures Counted(c, t, g) {
      StepKeepsCounted(c, s, a, g);
    }
    forall e ensures Conserved(t, e) {
      StepKeepsConserved(c, s, a, e);
    }
    StepKeepsAccounted(c, s, a);
    StepKeepsNoticed(c, s, a);
  }

  lemma {:induction false} RunFromKeepsInv(c: Config, s: Exec, acts: seq<Action>)
    requires Inv(c, s)
    ensures Inv(c, RunFrom(c, s, acts))
    decreases |acts|
  {
    hide Inv, Step;
    if acts != [] {
      StepKeepsInv(c, s, acts[0]);
      RunFromKeepsInv(c, Step(c, s, acts[0]), acts[1..]);
    }
  }

  lemma RunKeepsInv(c: Config, acts: seq<Action>)
    ensures Inv(c, Run(c, acts))
  {
    hide Inv;
    InitInv(c);
    RunFromKeepsInv(c, Init(), acts);
  }

  /** No lost wakeup.  In every interleaving, from the snapshot to the return of
    * the wait: if a registered entity that is not destroyed and whose group is
    * free is neither in the wait set nor about to be put there, a wakeup is due;
    * and so it is if the context went down since the pass began. */
  lemma NoLostWakeup(c: Config, acts: seq<Action>, r: Reg)
    ensures var s := Run(c, acts);
      && (Wanted(c, s, r) && !Considered(s.pc, r) ==> WakeupDue(s))
      && (BeforeWaitReturns(s.pc) && s.passOk && !s.wake.contextOk ==> WakeupDue(s))
  {
    RunKeepsInv(c, acts);
  }

  /** A due wakeup arrives: the wait can return at once, or some thread can take
    * a step after which it can. */
  lemma DueWakeupArrives(c: Config, s: Exec) returns (a: Action)
    requires s.pc.Blocked? && WakeupDue(s)
    ensures Enabled(s, a)
    ensures a.WaitReturns? || Enabled(Step(c, s, a), WaitReturns)
  {
    hide ReadyOf;
    if s.wake.latch {
      a := WaitReturns;
    } else if s.wake.owed > 0 {
      a := TriggerAfterShutdown;
    } else if SomeoneLeft(s.workers) {
      var w :| 0 <= w < |s.workers| && s.workers[w].stage.Left?;
      a := TriggerAfterLeave(w);
    } else {
      var i :| 0 <= i < |s.reg.adders| && s.reg.adders[i].Pushed?;
      a := TriggerAfterPush(i);
    }
  }

  lemma {:induction false} NoneRunning(c: Config, workers: seq<Worker>, g: nat)
    requires forall w :: 0 <= w < |workers| ==> workers[w].stage.Finished?
    ensures OnWorkers(c, workers, g) == 0
  {
    if workers != [] {
      NoneRunning(c, workers[..|workers| - 1], g);
    }
  }

  lemma HasData(s: Exec, r: Reg)
    requires s.pc.Blocked? && r in s.pc.eligible && Items(s.data.queue, r.ent) != []
    ensures Enabled(s, WaitReturns)
  {
    assert r.ent in ReadyOf(s.data, s.pc.eligible);
  }

  /** Once everybody else has come to rest, a blocked executor waits on every
    * entity pushed and not destroyed, and an item arriving for any of them ends
    * the wait. */
  lemma RestingExecutorWaitsOnAll(c: Config, acts: seq<Action>, r: Reg, item: nat)
    requires Run(c, acts).pc.Blocked? && !WakeupDue(Run(c, acts))
    requires forall w :: 0 <= w < |Run(c, acts).workers| ==> Run(c, acts).workers[w].stage.Finished?
    requires r in Run(c, acts).reg.added && r.ent !in Run(c, acts).reg.destroyed
    ensures var s := Run(c, acts);
      && r in s.pc.eligible
      && (Items(s.data.queue, r.ent) != [] ==> Enabled(s, WaitReturns))
      && Enabled(Step(c, s, Arrive(r.ent, item)), WaitReturns)
  {
    hide Run, WakeupDue;
    var s := Run(c, acts);
    RunKeepsInv(c, acts);
    MutualExclusion(c, acts, GroupOf(c, r));
    NoneRunning(c, s.workers, GroupOf(c, r));
    NoLostWakeup(c, acts, r);
    assert Wanted(c, s, r);
    if Items(s.data.queue, r.ent) != [] {
      HasData(s, r);
    }
    HasData(Step(c, s, Arrive(r.ent, item)), r);
  }

  /** Every registration ever pushed is still listed unless its entity has been
    * destroyed, although passes forget destroyed ones while others are added. */
  lemma NothingForgotten(c: Config, acts: seq<Action>, r: Reg)
    ensures var s := Run(c, acts);
      && (r in s.reg.waitables ==> r in s.reg.added)
      && (r in s.reg.added && r.ent !in s.reg.destroyed ==> r in s.reg.waitables)
  {
    RunKeepsInv(c, acts);
  }

  // ---- When a shutdown is noticed ----------------------------------------------------------

  /** A wait has returned since the shutdown paid its trigger: from here on, a
    * caller has been told. */
  function Reported(c: Config, acts: seq<Action>): bool {
    if acts == [] then false
    else
      var before, a := acts[..|acts| - 1], acts[|acts| - 1];
      var s := Run(c, before);
      Reported(c, before)
        || (a.WaitReturns? && Enabled(s, a) && !s.wake.contextOk && s.wake.owed == 0)
  }

  /** Somebody other than a shutdown, who had added an entity or left a group, has
    * triggered the guard since a wait last returned. */
  function OtherTriggered(c: Config, acts: seq<Action>): bool {
    if acts == [] then false
    else
      var before, a := acts[..|acts| - 1], acts[|acts| - 1];
      if !Enabled(Run(c, before), a) then OtherTriggered(c, before)
      else !a.WaitReturns? && (a.TriggerAfterPush? || a.TriggerAfterLeave? || OtherTriggered(c, before))
  }

  /** What one step does to the guard, the shutdown and its debt. */
  lemma StepWake(c: Config, s: Exec, a: Action)
    ensures var w, v := s.wake, Step(c, s, a).wake;
      if !Enabled(s, a) then v == w
      else match a
           case WaitReturns => v == w.(latch := false)
           case TriggerAfterLeave(_) => v == w.(latch := true)
           case TriggerAfterPush(_) => v == w.(latch := true)
           case Shutdown => v == Wakeup(false, w.owed + 1, w.latch)
           case TriggerAfterShutdown => w.owed > 0 && v == Wakeup(w.contextOk, w.owed - 1, true)
           case _ => v == w
  {
    hide Next, SetStage, SetAdder, Pushing, Arrived, ReadyOf, LeftGroup;
    if a.Advance? {
      NextWakes(c, s);
    }
  }

  lemma {:induction false} RunFromMore(c: Config, s: Exec, acts: seq<Action>, a: Action)
    ensures RunFrom(c, s, acts + [a]) == Step(c, RunFrom(c, s, acts), a)
    decreases |acts|
  {
    hide Step;
    if acts == [] {
      assert acts + [a] == [a] && [a][1..] == [];
    } else {
      assert (acts + [a])[1..] == acts[1..] + [a];
      RunFromMore(c, Step(c, s, acts[0]), acts[1..], a);
    }
  }

  lemma RunMore(c: Config, acts: seq<Action>, a: Action)
    ensures Run(c, acts + [a]) == Step(c, Run(c, acts), a)
  {
    hide Step;
    RunFromMore(c, Init(), acts, a);
  }

  lemma {:induction false} RunFromAppend(c: Config, s: Exec, acts: seq<Action>, more: seq<Action>)
    ensures RunFrom(c, s, acts + more) == RunFrom(c, RunFrom(c, s, acts), more)
    decreases |acts|
  {
    hide Step;
    if acts == [] {
      assert acts + more == more;
    } else {
      assert (acts + more)[1..] == acts[1..] + more;
      RunFromAppend(c, Step(c, s, acts[0]), acts[1..], more);
    }
  }

  lemma RunSplit(c: Config, acts: seq<Action>, more: seq<Action>)
    ensures Run(c, acts + more) == RunFrom(c, Run(c, acts), more)
  {
    hide Step;
    RunFromAppend(c, Init(), acts, more);
  }

  lemma LastStep(c: Config, acts: seq<Action>)
    requires acts != []
    ensures Run(c, acts) == Step(c, Run(c, acts[..|acts| - 1]), acts[|acts| - 1])
  {
    hide Run, Step;
    RunMore(c, acts[..|acts| - 1], acts[|acts| - 1]);
    assert acts[..|acts| - 1] + [acts[|acts| - 1]] == acts;
  }

  lemma OwedTriggerWakes(c: Config, s: Exec)
    ensures s.pc.Blocked? && s.wake.latch ==> Enabled(s, WaitReturns)
    ensures s.pc.Blocked? && s.wake.owed > 0 ==> Enabled(Step(c, s, TriggerAfterShutdown), WaitReturns)
  {
    hide ReadyOf, Next;
  }

  lemma RunNothing(c: Config)
    ensures Run(c, []) == Init()
  {
  }

  /** In every run, once the context is down, some wakeup of the shutdown is due
    * until a wait has returned after the trigger; so a blocked wait, whether a loop
    * or a direct call began it, can return or can after the trigger. */
  lemma {:induction false} ShutdownDueUntilReported(c: Config, acts: seq<Action>)
    ensures var s := Run(c, acts);
      && (!s.wake.contextOk && !Reported(c, acts) ==> s.wake.latch || s.wake.owed > 0)
      && (s.pc.Blocked? && !s.wake.contextOk && !Reported(c, acts) ==>
            Enabled(s, WaitReturns) || Enabled(Step(c, s, TriggerAfterShutdown), WaitReturns))
  {
    hide Run, Step;
    if acts == [] {
      RunNothing(c);
    } else {
      var before := acts[..|acts| - 1];
      ShutdownDueUntilReported(c, before);
      LastStep(c, acts);
      StepWake(c, Run(c, before), acts[|acts| - 1]);
    }
    OwedTriggerWakes(c, Run(c, acts));
  }

  lemma EnabledShutdown(s: Exec, a: Action)
    ensures Enabled(s, a) && a.Shutdown? ==> s.wake.contextOk
  {
  }

  lemma {:induction false} ReportedMeansDown(c: Config, acts: seq<Action>)
    ensures Reported(c, acts) ==> !Run(c, acts).wake.contextOk
    ensures Reported(c, acts) ==> Run(c, acts).wake.owed == 0
  {
    hide Run, Step;
    if acts != [] {
      var before := acts[..|acts| - 1];
      ReportedMeansDown(c, before);
      LastStep(c, acts);
      StepWake(c, Run(c, before), acts[|acts| - 1]);
    }
  }

  /** A shutdown owes at most one trigger, and until it has paid, nothing is reported. */
  lemma {:induction false} OwedMeansDown(c: Config, acts: seq<Action>)
    ensures var w := Run(c, acts).wake;
      w.owed <= 1 && (w.owed > 0 ==> !w.contextOk && !Reported(c, acts))
  {
    hide Run, Step, Enabled;
    if acts == [] {
      RunNothing(c);
    } else {
      var before, a := acts[..|acts| - 1], acts[|acts| - 1];
      OwedMeansDown(c, before);
      LastStep(c, acts);
      ReportedMeansDown(c, before);
      EnabledShutdown(Run(c, before), a);
      StepWake(c, Run(c, before), a);
    }
  }

  /** In every run, the guard is latched or a shutdown owes it a trigger exactly if
    * the context is down and no wait has returned since the shutdown's trigger, or
    * somebody else has triggered the guard since a wait last returned.  So after the
    * report of a shutdown only others wake a wait. */
  lemma {:induction false} ShutdownDueExactly(c: Config, acts: seq<Action>)
    ensures var w := Run(c, acts).wake;
      w.latch || w.owed > 0 <==> (!w.contextOk && !Reported(c, acts)) || OtherTriggered(c, acts)
  {
    hide Run, Step, Enabled;
    if acts == [] {
      RunNothing(c);
    } else {
      var before, a := acts[..|acts| - 1], acts[|acts| - 1];
      ShutdownDueExactly(c, before);
      LastStep(c, acts);
      ReportedMeansDown(c, before);
      OwedMeansDown(c, before);
      EnabledShutdown(Run(c, before), a);
      StepWake(c, Run(c, before), a);
    }
  }

  lemma EmptyPassAlone(c: Config, s: Exec)
    requires s.pc.Snapshot? && s.reg.waitables == []
    ensures Next(c, Next(c, Next(c, Next(c, s)))) == s.(pc := Blocked([]))
  {
    hide CanRun, KeepTasks, Deliver;
    assert Next(c, s) == s.(pc := Validate([], [], {}));
    assert Next(c, s.(pc := Validate([], [], {}))) == s.(pc := Filter([], []));
    assert Next(c, s.(pc := Filter([], []))) == s.(pc := Fill([]));
  }

  lemma EmptyPass(c: Config, acts: seq<Action>)
    requires Run(c, acts).pc.Snapshot? && Run(c, acts).reg.waitables == []
    ensures Run(c, acts + [Advance, Advance, Advance, Advance]) == Run(c, acts).(pc := Blocked([]))
  {
    hide Next, Run;
    RunMore(c, acts, Advance);
    RunMore(c, acts + [Advance], Advance);
    RunMore(c, acts + [Advance] + [Advance], Advance);
    RunMore(c, acts + [Advance] + [Advance] + [Advance], Advance);
    assert acts + [Advance] + [Advance] + [Advance] + [Advance] == acts + [Advance, Advance, Advance, Advance];
    EmptyPassAlone(c, Run(c, acts));
  }

  lemma AfterWaitDown(c: Config, s: Exec)
    requires s.pc.AfterWait? && !s.wake.contextOk && s.mode.Once?
    ensures Next(c, s) == s.(pc := Idle)
  {
  }

  /** The first spinOnce after a shutdown consumes its trigger and reports it; a
    * second one blocks with nothing to wake it. */
  lemma SecondSpinOnceBlocks(c: Config) returns (acts: seq<Action>)
    ensures Reported(c, acts)
    ensures var s := Run(c, acts);
      s.pc.Blocked? && !s.wake.contextOk && !WakeupDue(s) && !Enabled(s, WaitReturns)
  {
    hide Next, Run;
    var pass := [Advance, Advance, Advance, Advance];
    RunNothing(c);
    var a1 := [] + [Shutdown];
    RunMore(c, [], Shutdown);
    var a2 := a1 + [TriggerAfterShutdown];
    RunMore(c, a1, TriggerAfterShutdown);
    var a3 := a2 + [Call(Once)];
    RunMore(c, a2, Call(Once));
    EmptyPass(c, a3);
    var a4 := a3 + pass + [WaitReturns];
    RunMore(c, a3 + pass, WaitReturns);
    var a5 := a4 + [Advance];
    RunMore(c, a4, Advance);
    AfterWaitDown(c, Run(c, a4));
    var a6 := a5 + [Call(Once)];
    RunMore(c, a5, Call(Once));
    EmptyPass(c, a6);
    acts := a6 + pass;
    ShutdownDueUntilReported(c, acts);
  }
}
