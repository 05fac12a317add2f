/** One pass of the executor as its waiting thread runs it: the loops over the
  * registered entities, in place, and what they amount to when no other thread
  * acts in between. */
module SpinOnces {
  import opened CallbackGroups
  import opened Executors
  import WaitSets

  /** The registrations whose entities have not been destroyed. */
  function Existing(rs: seq<Reg>, destroyed: set<nat>): seq<Reg> {
    if rs == [] then []
    else
      var last := rs[|rs| - 1];
      Existing(rs[..|rs| - 1], destroyed) + (if last.ent in destroyed then [] else [last])
  }

  /** The registrations whose groups may run. */
  function Free(c: Config, running: map<nat, nat>, rs: seq<Reg>): seq<Reg> {
    if rs == [] then []
    else
      var last := rs[|rs| - 1];
      Free(c, running, rs[..|rs| - 1])
        + (if MayRun(c.kindOf(GroupOf(c, last)), Count(running, GroupOf(c, last))) then [last] else [])
  }

  /** Serving one entity: at most one item, of the ready ones whose group may run. */
  function Serve(c: Config, running: map<nat, nat>, ready: set<nat>, data: Traffic, r: Reg): Traffic {
    if MayRun(c.kindOf(GroupOf(c, r)), Count(running, GroupOf(c, r)))
      && r.ent in ready && Items(data.queue, r.ent) != []
    then Record(TakeItem(data, r.ent), r.ent, Items(data.queue, r.ent)[0])
    else data
  }

  function ServeAll(c: Config, running: map<nat, nat>, ready: set<nat>, data: Traffic, rs: seq<Reg>): Traffic {
    if rs == [] then data
    else Serve(c, running, ready, ServeAll(c, running, ready, data, rs[..|rs| - 1]), rs[|rs| - 1])
  }

  /** How often an entity is registered. */
  function Times(rs: seq<Reg>, e: nat): nat {
    if rs == [] then 0 else Times(rs[..|rs| - 1], e) + (if rs[|rs| - 1].ent == e then 1 else 0)
  }

  function Min(a: nat, b: nat): nat {
    if a < b then a else b
  }

  predicate FreeEntity(c: Config, running: map<nat, nat>, e: nat) {
    MayRun(c.kindOf(c.groupOf(e)), Count(running, c.groupOf(e)))
  }

  /** The callbacks of e were given its k oldest items, in order, and nothing else
    * about e changed. */
  ghost predicate Given(before: Traffic, after: Traffic, e: nat, k: nat) {
    && k <= |Items(before.queue, e)|
    && Items(after.dispatched, e) == Items(before.dispatched, e) + Items(before.queue, e)[..k]
    && Items(after.queue, e) == Items(before.queue, e)[k..]
    && Items(after.arrived, e) == Items(before.arrived, e)
  }

  /** A pass over rs gives e one item for each time it is listed, as long as there
    * are any, if it is ready and its group free. */
  function Share(c: Config, running: map<nat, nat>, ready: set<nat>, data: Traffic, rs: seq<Reg>, e: nat): nat {
    if FreeEntity(c, running, e) && e in ready then Min(Times(rs, e), |Items(data.queue, e)|) else 0
  }

  lemma ServeGives(c: Config, running: map<nat, nat>, ready: set<nat>, data: Traffic, r: Reg, e: nat)
    ensures var one := r.ent == e && FreeEntity(c, running, e) && e in ready && Items(data.queue, e) != [];
      Given(data, Serve(c, running, ready, data, r), e, if one then 1 else 0)
  {
    assert Items(data.queue, e)[..0] == [] && Items(data.queue, e)[0..] == Items(data.queue, e);
    if Items(data.queue, e) != [] {
      assert Items(data.queue, e)[..1] == [Items(data.queue, e)[0]];
    }
  }

  lemma SliceTwice(p: seq<nat>, q: seq<nat>, j: nat, k: nat)
    requires j + k <= |q|
    ensures (p + q[..j]) + q[j..][..k] == p + q[..j + k]
    ensures q[j..][k..] == q[j + k..]
  {
    assert q[..j] + q[j..][..k] == q[..j + k];
    assert (p + q[..j]) + q[j..][..k] == p + (q[..j] + q[j..][..k]);
  }

  lemma GivenTwice(a: Traffic, b: Traffic, d: Traffic, e: nat, j: nat, k: nat)
    requires Given(a, b, e, j) && Given(b, d, e, k)
    ensures Given(a, d, e, j + k)
  {
    hide Items;
    SliceTwice(Items(a.dispatched, e), Items(a.queue, e), j, k);
  }

  /** What serving all the listed entities means for each one. */
  lemma {:induction false} ServeAllGives(c: Config, running: map<nat, nat>, ready: set<nat>, data: Traffic,
                                         rs: seq<Reg>, e: nat)
    ensures Given(data, ServeAll(c, running, ready, data, rs), e, Share(c, running, ready, data, rs, e))
  {
    hide Items, Serve, FreeEntity;
    if rs == [] {
      assert Items(data.queue, e)[..0] == [] && Items(data.queue, e)[0..] == Items(data.queue, e);
      assert Items(data.dispatched, e) + [] == Items(data.dispatched, e);
    } else {
      var front := rs[..|rs| - 1];
      var mid := ServeAll(c, running, ready, data, front);
      var j := Share(c, running, ready, data, front, e);
      ServeAllGives(c, running, ready, data, front, e);
      ServeGives(c, running, ready, mid, rs[|rs| - 1], e);
      var one := rs[|rs| - 1].ent == e && FreeEntity(c, running, e) && e in ready && Items(mid.queue, e) != [];
      GivenTwice(data, mid, ServeAll(c, running, ready, data, rs), e, j, if one then 1 else 0);
      assert Share(c, running, ready, data, rs, e) == j + if one then 1 else 0;
    }
  }

  /** With every entity listed once, a ready one of a free group is served exactly one item. */
  lemma {:induction false} OnceEach(rs: seq<Reg>, e: nat)
    requires forall i, j :: 0 <= i < j < |rs| ==> rs[i].ent != rs[j].ent
    ensures Times(rs, e) == if exists r :: r in rs && r.ent == e then 1 else 0
  {
    if rs != [] {
      var front, last := rs[..|rs| - 1], rs[|rs| - 1];
      OnceEach(front, e);
      assert rs == front + [last];
      if r :| r in rs && r.ent == e {
        assert r in front || r == last;
        assert last.ent == e ==> forall q :: q in front ==> q.ent != e;
      }
    }
  }

  /** The eligible entities are exactly the listed ones whose groups are free ... */
  lemma {:induction false} FreeMembers(c: Config, running: map<nat, nat>, rs: seq<Reg>)
    ensures forall r :: r in Free(c, running, rs) <==> r in rs && FreeEntity(c, running, r.ent)
  {
    if rs != [] {
      FreeMembers(c, running, rs[..|rs| - 1]);
      assert rs == rs[..|rs| - 1] + [rs[|rs| - 1]];
    }
  }

  /** ... in the order of the list, and as often. */
  lemma {:induction false} FreeAcross(c: Config, running: map<nat, nat>, a: seq<Reg>, b: seq<Reg>)
    ensures Free(c, running, a + b) == Free(c, running, a) + Free(c, running, b)
  {
    if b == [] {
      assert a + b == a;
    } else {
      assert (a + b)[..|a + b| - 1] == a + b[..|b| - 1];
      FreeAcross(c, running, a, b[..|b| - 1]);
    }
  }

  lemma FreeLast(c: Config, running: map<nat, nat>, rs: seq<Reg>)
    requires rs != []
    ensures var front, last := rs[..|rs| - 1], rs[|rs| - 1];
      Free(c, running, rs)
        == if FreeEntity(c, running, last.ent) then Free(c, running, front) + [last] else Free(c, running, front)
  {
  }

  lemma ExistingLast(rs: seq<Reg>, destroyed: set<nat>)
    requires rs != []
    ensures var front, last := rs[..|rs| - 1], rs[|rs| - 1];
      Existing(rs, destroyed)
        == if last.ent in destroyed then Existing(front, destroyed) else Existing(front, destroyed) + [last]
  {
  }

  lemma ExistingNone(destroyed: set<nat>)
    ensures Existing([], destroyed) == []
  {
  }

  lemma TimesNone(e: nat)
    ensures Times([], e) == 0
  {
  }

  lemma TimesSnoc(rs: seq<Reg>, r: Reg, e: nat)
    ensures Times(rs + [r], e) == Times(rs, e) + (if r.ent == e then 1 else 0)
  {
    assert (rs + [r])[..|rs|] == rs;
  }

  lemma {:induction false} FreeTimes(c: Config, running: map<nat, nat>, rs: seq<Reg>, e: nat)
    ensures Times(Free(c, running, rs), e) == if FreeEntity(c, running, e) then Times(rs, e) else 0
  {
    hide Times, FreeEntity;
    TimesNone(e);
    if rs != [] {
      hide Free;
      var front, last := rs[..|rs| - 1], rs[|rs| - 1];
      FreeTimes(c, running, front, e);
      FreeLast(c, running, rs);
      TimesSnoc(Free(c, running, front), last, e);
      TimesSnoc(front, last, e);
      assert front + [last] == rs;
    }
  }

  lemma {:induction false} ExistingTimes(rs: seq<Reg>, destroyed: set<nat>, e: nat)
    ensures Times(Existing(rs, destroyed), e) == if e in destroyed then 0 else Times(rs, e)
  {
    hide Times, Existing;
    TimesNone(e);
    ExistingNone(destroyed);
    if rs != [] {
      var front, last := rs[..|rs| - 1], rs[|rs| - 1];
      ExistingTimes(front, destroyed, e);
      ExistingLast(rs, destroyed);
      TimesSnoc(Existing(front, destroyed), last, e);
      TimesSnoc(front, last, e);
      assert front + [last] == rs;
    }
  }

  lemma {:induction false} ListedAtAll(rs: seq<Reg>, e: nat)
    ensures Times(rs, e) > 0 ==> exists r :: r in rs && r.ent == e
  {
    if rs != [] {
      ListedAtAll(rs[..|rs| - 1], e);
      assert rs[|rs| - 1] in rs;
    }
  }

  /** What a whole pass gives an entity, given what was registered before. */
  function PassShare(c: Config, running: map<nat, nat>, destroyed: set<nat>, data: Traffic, rs: seq<Reg>, e: nat): nat {
    if e !in destroyed && FreeEntity(c, running, e) then Min(Times(rs, e), |Items(data.queue, e)|) else 0
  }

  lemma PassGives(c: Config, running: map<nat, nat>, destroyed: set<nat>, data: Traffic, rs: seq<Reg>, e: nat)
    ensures var eligible := Free(c, running, Existing(rs, destroyed));
      Given(data, ServeAll(c, running, ReadyOf(data, eligible), data, eligible), e,
            PassShare(c, running, destroyed, data, rs, e))
  {
    hide Free, Existing, ServeAll, Times, Items, FreeEntity, Given;
    var eligible := Free(c, running, Existing(rs, destroyed));
    var ready := ReadyOf(data, eligible);
    ServeAllGives(c, running, ready, data, eligible, e);
    FreeTimes(c, running, Existing(rs, destroyed), e);
    ExistingTimes(rs, destroyed, e);
    ListedAtAll(eligible, e);
    if Times(eligible, e) > 0 && Items(data.queue, e) != [] {
      var r :| r in eligible && r.ent == e;
      assert e in ready;
    }
  }

  ghost predicate SameCounts(a: map<nat, nat>, b: map<nat, nat>) {
    forall g :: Count(a, g) == Count(b, g)
  }

  /** What the loop over all registrations has found after the first i. */
  ghost predicate FoundDead(rs: seq<Reg>, i: nat, destroyed: set<nat>, dead: set<nat>)
    requires i <= |rs|
  {
    forall id :: id in dead <==> exists k :: 0 <= k < i && rs[k].id == id && rs[k].ent in destroyed
  }

  lemma {:induction false} AliveIsExisting(rs: seq<Reg>, destroyed: set<nat>, dead: set<nat>)
    requires forall k :: 0 <= k < |rs| ==> (rs[k].id in dead <==> rs[k].ent in destroyed)
    ensures Alive(rs, dead) == Existing(rs, destroyed)
  {
    if rs != [] {
      AliveIsExisting(rs[..|rs| - 1], destroyed, dead);
    }
  }

  /** With distinct numbers, forgetting by number forgets exactly the destroyed. */
  lemma FoundDeadIsDestroyed(rs: seq<Reg>, destroyed: set<nat>, dead: set<nat>)
    requires UniqueIds(rs) && FoundDead(rs, |rs|, destroyed, dead)
    ensures Alive(rs, dead) == Existing(rs, destroyed)
  {
    forall k | 0 <= k < |rs| ensures rs[k].id in dead <==> rs[k].ent in destroyed {
      if rs[k].id in dead {
        var j :| 0 <= j < |rs| && rs[j].id == rs[k].id && rs[j].ent in destroyed;
        assert j == k;
      }
    }
    AliveIsExisting(rs, destroyed, dead);
  }

  lemma SameCountsSelf(running: map<nat, nat>)
    ensures SameCounts(running, running)
  {
  }

  lemma {:induction false} NoneDead(rs: seq<Reg>, dead: set<nat>)
    requires dead == {}
    ensures Alive(rs, dead) == rs
  {
    if rs != [] {
      NoneDead(rs[..|rs| - 1], dead);
    }
  }

  lemma {:induction false} ExistingMembers(rs: seq<Reg>, destroyed: set<nat>)
    ensures forall r :: r in Existing(rs, destroyed) <==> r in rs && r.ent !in destroyed
  {
    if rs != [] {
      ExistingMembers(rs[..|rs| - 1], destroyed);
      assert rs == rs[..|rs| - 1] + [rs[|rs| - 1]];
    }
  }

  lemma {:induction false} ExistingIsValid(rs: seq<Reg>, destroyed: set<nat>)
    requires UniqueIds(rs)
    ensures UniqueIds(Existing(rs, destroyed))
    ensures forall r :: r in Existing(rs, destroyed) <==> r in rs && r.ent !in destroyed
  {
    ExistingMembers(rs, destroyed);
    if rs != [] {
      var front := Existing(rs[..|rs| - 1], destroyed);
      ExistingIsValid(rs[..|rs| - 1], destroyed);
      forall i | 0 <= i < |front| ensures front[i].id != rs[|rs| - 1].id {
        assert front[i] in rs[..|rs| - 1];
      }
    }
  }

  datatype Outcome = Dispatched | ContextDown | TimedOut | StillBlocked

  /** The handle of an entity: of the kind of wait-set slot it takes. */
  function HandleOf(slotKind: nat -> WaitSets.Kind, e: nat): WaitSets.Held {
    WaitSets.Held(slotKind(e), e + 1)
  }

  /** The wakeup guard's own handle, which is no entity's. */
  const WAKEUP: nat := 0

  /** What the middleware reports when asked: the entities that have data, and the
    * wakeup guard if it is latched. */
  function Signals(slotKind: nat -> WaitSets.Kind, data: Traffic, latch: bool): set<WaitSets.Held> {
    (set e | e in data.queue && data.queue[e] != [] :: HandleOf(slotKind, e))
      + (if latch then {WaitSets.Held(WaitSets.GuardCondition, WAKEUP)} else {})
  }

  /** The handle of a listed entity is reported exactly if the entity is ready. */
  lemma SignalsReady(slotKind: nat -> WaitSets.Kind, data: Traffic, latch: bool, eligible: seq<Reg>, r: Reg)
    requires r in eligible
    ensures HandleOf(slotKind, r.ent) in Signals(slotKind, data, latch) <==> r.ent in ReadyOf(data, eligible)
    ensures WaitSets.Held(WaitSets.GuardCondition, WAKEUP) in Signals(slotKind, data, latch) <==> latch
  {
  }

  lemma FlagsReady(data: Traffic, eligible: seq<Reg>, flags: seq<bool>)
    requires |flags| == |eligible|
    requires forall i :: 0 <= i < |eligible| ==> (flags[i] <==> eligible[i].ent in ReadyOf(data, eligible))
    ensures true in flags <==> ReadyOf(data, eligible) != {}
  {
    if e :| e in ReadyOf(data, eligible) {
      var i :| 0 <= i < |eligible| && eligible[i].ent == e;
      assert flags[i];
    }
  }

  class Executor {
    const config: Config
    /** The kind of slot each entity takes in the wait set. */
    const slotKind: nat -> WaitSets.Kind
    const waitSet: WaitSets.WaitSet
    var waitables: seq<Reg>
    var nextId: nat
    /** Shared with the rest of the process: which entities exist, the groups'
      * counts, the data, and the wakeup guard. */
    var destroyed: set<nat>
    var running: map<nat, nat>
    var data: Traffic
    var wake: Wakeup

    ghost predicate Valid()
      reads this
    {
      UniqueIds(waitables) && forall r :: r in waitables ==> r.id < nextId
    }

    constructor (config: Config, slotKind: nat -> WaitSets.Kind)
      ensures Valid() && fresh(waitSet) && this.slotKind == slotKind && waitables == [] && this.config == config
      ensures running == map[] && data == Traffic(map[], map[], map[]) && wake == Wakeup(true, 0, false)
    {
      this.config := config;
      this.slotKind := slotKind;
      waitSet := new WaitSets.WaitSet(WaitSets.Capacity(0, 0, 0, 0, 0, 0));
      waitables := [];
      nextId := 0;
      destroyed := {};
      running := map[];
      data := Traffic(map[], map[], map[]);
      wake := Wakeup(true, 0, false);
    }

    method Add(ent: nat)
      requires Valid()
      modifies `waitables, `nextId, `wake
      ensures Valid() && nextId == old(nextId) + 1
      ensures waitables == old(waitables) + [Reg(old(nextId), ent)]
      ensures wake == Triggered(old(wake))
    {
      var id := nextId;
      nextId := nextId + 1;
      waitables := waitables + [Reg(id, ent)];
      wake := Triggered(wake);
    }

    /** The registered entities that still exist, forgetting the rest. */
    method LiveWaitables() returns (live: seq<Reg>)
      requires Valid()
      modifies `waitables
      ensures Valid() && live == waitables == Existing(old(waitables), destroyed)
    {
      var all := waitables;
      var dead: set<nat> := {};
      for i := 0 to |all|
        invariant waitables == all && FoundDead(all, i, destroyed, dead)
      {
        ghost var before := dead;
        if all[i].ent in destroyed {
          dead := dead + {all[i].id};
        }
        forall id ensures id in dead <==> exists k :: 0 <= k < i + 1 && all[k].id == id && all[k].ent in destroyed {
          assert id in before <==> exists k :: 0 <= k < i && all[k].id == id && all[k].ent in destroyed;
        }
      }
      FoundDeadIsDestroyed(all, destroyed, dead);
      if dead != {} {
        waitables := Alive(waitables, dead);
      } else {
        NoneDead(all, dead);
      }
      live := Alive(all, dead);
      ExistingIsValid(all, destroyed);
    }

    method Eligible(live: seq<Reg>) returns (eligible: seq<Reg>)
      ensures eligible == Free(config, running, live)
      ensures forall r :: r in eligible <==> r in live && FreeEntity(config, running, r.ent)
    {
      FreeMembers(config, running, live);
      eligible := [];
      for i := 0 to |live|
        invariant eligible == Free(config, running, live[..i])
      {
        assert live[..i + 1][..i] == live[..i];
        var g := GroupOf(config, live[i]);
        if MayRun(config.kindOf(g), Count(running, g)) {
          eligible := eligible + [live[i]];
        }
      }
      assert live[..|live|] == live;
    }

    /** The wait as it can return now: sized, filled and read back by slot, it says of
      * the guard and of each eligible entity whether it is ready. */
    method Wait(eligible: seq<Reg>) returns (woken: bool, flags: seq<bool>)
      modifies waitSet
      ensures woken <==> wake.latch
      ensures |flags| == |eligible|
      ensures forall i :: 0 <= i < |eligible| ==> (flags[i] <==> eligible[i].ent in ReadyOf(data, eligible))
    {
      var handles := seq(|eligible|, i requires 0 <= i < |eligible| => HandleOf(slotKind, eligible[i].ent));
      var ready := Signals(slotKind, data, wake.latch);
      woken, flags := waitSet.Poll(WAKEUP, handles, ready);
      SignalsReady(slotKind, data, wake.latch, [Reg(0, 0)], Reg(0, 0));
      forall i | 0 <= i < |eligible| ensures flags[i] <==> eligible[i].ent in ReadyOf(data, eligible) {
        assert handles[i] == HandleOf(slotKind, eligible[i].ent);
        SignalsReady(slotKind, data, wake.latch, eligible, eligible[i]);
      }
    }

    /** Each ready entity's callback in turn, on this thread, inside its group. */
    method DispatchInline(eligible: seq<Reg>, flags: seq<bool>, ghost ready: set<nat>)
      requires |flags| == |eligible|
      requires forall i :: 0 <= i < |eligible| ==> (flags[i] <==> eligible[i].ent in ready)
      modifies `running, `data
      ensures data == ServeAll(config, old(running), ready, old(data), eligible)
      ensures forall e :: Given(old(data), data, e, Share(config, old(running), ready, old(data), eligible, e))
      ensures SameCounts(running, old(running))
    {
      ghost var counts := running;
      for i := 0 to |eligible|
        invariant SameCounts(running, counts)
        invariant data == ServeAll(config, counts, ready, old(data), eligible[..i])
      {
        assert eligible[..i + 1][..i] == eligible[..i];
        var e, g := eligible[i].ent, GroupOf(config, eligible[i]);
        if MayRun(config.kindOf(g), Count(running, g)) {
          if flags[i] && Items(data.queue, e) != [] {
            var item := Items(data.queue, e)[0];
            data := TakeItem(data, e);
            running := Entered(running, g);
            data := Record(data, e, item);
            running := LeftGroup(running, g);
          }
        }
      }
      assert eligible[..|eligible|] == eligible;
      forall e ensures Given(old(data), data, e, Share(config, old(running), ready, old(data), eligible, e)) {
        ServeAllGives(config, old(running), ready, old(data), eligible, e);
      }
    }

    /** One pass.  What the wait reports ready is what has data when it returns. */
    method SpinOnce(timed: bool) returns (outcome: Outcome)
      requires Valid()
      modifies this, waitSet
      ensures Valid() && waitables == Existing(old(waitables), destroyed)
      ensures nextId == old(nextId) && destroyed == old(destroyed) && SameCounts(running, old(running))
      ensures var eligible := Free(config, old(running), waitables);
        var ready := ReadyOf(old(data), eligible);
        && outcome ==
             (if !old(wake).latch && ready == {} then (if timed then TimedOut else StillBlocked)
              else if old(wake).contextOk then Dispatched else ContextDown)
        && wake == (if outcome.TimedOut? || outcome.StillBlocked? then old(wake) else old(wake).(latch := false))
        && data ==
             if outcome.Dispatched? then ServeAll(config, old(running), ready, old(data), eligible) else old(data)
      ensures outcome.Dispatched? ==> forall e ::
        Given(old(data), data, e, PassShare(config, old(running), destroyed, old(data), old(waitables), e))
    {
      hide ServeAll, Free, Existing, SameCounts, UniqueIds, Given, Share, PassShare;
      SameCountsSelf(running);
      var live := LiveWaitables();
      var eligible := Eligible(live);
      ghost var ready := ReadyOf(data, eligible);
      var woken, flags := Wait(eligible);
      FlagsReady(data, eligible, flags);
      if !woken && true !in flags {
        return if timed then TimedOut else StillBlocked;
      }
      wake := wake.(latch := false);
      if !wake.contextOk {
        return ContextDown;
      }
      forall e ensures Given(data, ServeAll(config, running, ready, data, eligible), e,
                             PassShare(config, running, destroyed, data, old(waitables), e)) {
        PassGives(config, running, destroyed, data, old(waitables), e);
      }
      DispatchInline(eligible, flags, ready);
      outcome := Dispatched;
    }
  }

  // ---- The pass is the protocol's waiting thread left alone -----------------------------------

  /** n steps of the waiting thread with nobody else acting. */
  function Alone(c: Config, s: Exec, n: nat): Exec {
    if n == 0 then s else Next(c, Alone(c, s, n - 1))
  }

  lemma {:induction false} AloneAdd(c: Config, s: Exec, n: nat, m: nat)
    ensures Alone(c, s, n + m) == Alone(c, Alone(c, s, n), m)
  {
    hide Next;
    if m > 0 {
      AloneAdd(c, s, n, m - 1);
    }
  }

  /** One step, then n more. */
  lemma AloneFirst(c: Config, s: Exec, n: nat)
    ensures Alone(c, s, 1 + n) == Alone(c, Next(c, s), n)
  {
    hide Next;
    AloneAdd(c, s, 1, n);
    assert Alone(c, s, 1) == Next(c, Alone(c, s, 0));
  }

  function DeadIn(rs: seq<Reg>, destroyed: set<nat>): set<nat> {
    set r | r in rs && r.ent in destroyed :: r.id
  }

  lemma DeadInNext(rs: seq<Reg>, destroyed: set<nat>, i: nat)
    requires i < |rs|
    ensures DeadIn(rs[..i + 1], destroyed)
         == if rs[i].ent in destroyed then DeadIn(rs[..i], destroyed) + {rs[i].id} else DeadIn(rs[..i], destroyed)
  {
    assert rs[..i + 1] == rs[..i] + [rs[i]];
  }

  lemma DeadInIsFound(rs: seq<Reg>, destroyed: set<nat>)
    ensures FoundDead(rs, |rs|, destroyed, DeadIn(rs, destroyed))
  {
    forall id ensures id in DeadIn(rs, destroyed)
      <==> exists k :: 0 <= k < |rs| && rs[k].id == id && rs[k].ent in destroyed
    {
      if id in DeadIn(rs, destroyed) {
        var r :| r in rs && r.ent in destroyed && r.id == id;
        var k :| 0 <= k < |rs| && rs[k] == r;
      }
    }
  }

  lemma {:induction false} ValidateAlone(c: Config, s: Exec, i: nat) returns (n: nat)
    requires s.pc.Validate? && i <= |s.pc.all|
    requires s.pc.todo == s.pc.all[i..] && s.pc.dead == DeadIn(s.pc.all[..i], s.reg.destroyed)
    ensures Alone(c, s, n) == s.(pc := Validate(s.pc.all, [], DeadIn(s.pc.all, s.reg.destroyed)))
    decreases |s.pc.all| - i
  {
    hide CanRun, Deliver, KeepTasks, DeadIn, Forget, Alive;
    var all := s.pc.all;
    if i == |all| {
      assert all[..i] == all;
      n := 0;
    } else {
      DeadInNext(all, s.reg.destroyed, i);
      assert all[i..][1..] == all[i + 1..];
      var t := Next(c, s);
      assert t == s.(pc := Validate(all, all[i + 1..], DeadIn(all[..i + 1], s.reg.destroyed)));
      var m := ValidateAlone(c, t, i + 1);
      AloneFirst(c, s, m);
      n := 1 + m;
    }
  }

  lemma FreeNext(c: Config, running: map<nat, nat>, live: seq<Reg>, i: nat)
    requires i < |live|
    ensures Free(c, running, live[..i + 1])
         == if MayRun(c.kindOf(GroupOf(c, live[i])), Count(running, GroupOf(c, live[i])))
            then Free(c, running, live[..i]) + [live[i]] else Free(c, running, live[..i])
  {
    assert live[..i + 1][..i] == live[..i];
  }

  lemma {:induction false} FilterAlone(c: Config, s: Exec, live: seq<Reg>, i: nat) returns (n: nat)
    requires i <= |live| && s.pc == Filter(live[i..], Free(c, s.running, live[..i]))
    ensures Alone(c, s, n) == s.(pc := Filter([], Free(c, s.running, live)))
    decreases |live| - i
  {
    hide Deliver, KeepTasks, Forget, Alive, Free;
    if i == |live| {
      assert live[..i] == live;
      n := 0;
    } else {
      assert live[i..][1..] == live[i + 1..];
      FreeNext(c, s.running, live, i);
      var t := Next(c, s);
      assert t == s.(pc := Filter(live[i + 1..], Free(c, s.running, live[..i + 1])));
      var m := FilterAlone(c, t, live, i + 1);
      AloneFirst(c, s, m);
      n := 1 + m;
    }
  }

  lemma Chain(c: Config, s: Exec, n: nat, t: Exec, m: nat)
    requires Alone(c, s, n) == t
    ensures Alone(c, s, n + m) == Alone(c, t, m)
  {
    AloneAdd(c, s, n, m);
  }

  lemma AloneTwo(c: Config, s: Exec)
    ensures Alone(c, s, 2) == Next(c, Next(c, s))
  {
    hide Next;
    assert Alone(c, s, 1) == Next(c, Alone(c, s, 0));
  }

  lemma SnapshotNext(c: Config, s: Exec)
    requires s.pc.Snapshot?
    ensures Next(c, s) == s.(pc := Validate(s.reg.waitables, s.reg.waitables, {}))
    ensures s.reg.waitables[0..] == s.reg.waitables && DeadIn(s.reg.waitables[..0], s.reg.destroyed) == {}
  {
    hide CanRun, Deliver, KeepTasks;
  }

  lemma ForgetNext(c: Config, s: Exec)
    requires s.pc.Validate? && s.pc.todo == [] && s.pc.all == s.reg.waitables
    requires s.pc.dead == {} ==> Alive(s.pc.all, s.pc.dead) == s.pc.all
    ensures Next(c, s)
         == s.(reg := s.reg.(waitables := Alive(s.pc.all, s.pc.dead)), pc := Filter(Alive(s.pc.all, s.pc.dead), []))
    ensures Alive(s.pc.all, s.pc.dead)[0..] == Alive(s.pc.all, s.pc.dead)
    ensures Free(c, s.running, Alive(s.pc.all, s.pc.dead)[..0]) == []
  {
    hide CanRun, Deliver, KeepTasks, Alive;
  }

  lemma FillNext(c: Config, s: Exec)
    requires s.pc.Filter? && s.pc.todo == []
    ensures Next(c, Next(c, s)) == s.(pc := Blocked(s.pc.eligible))
  {
    hide CanRun, Deliver, KeepTasks;
  }

  /** From the snapshot to the wait, left alone. */
  lemma PrepareAlone(c: Config, s: Exec) returns (n: nat)
    requires s.pc.Snapshot? && UniqueIds(s.reg.waitables)
    ensures var live := Existing(s.reg.waitables, s.reg.destroyed);
      Alone(c, s, n) == s.(reg := s.reg.(waitables := live), pc := Blocked(Free(c, s.running, live)))
  {
    hide Next, Free, DeadIn, Existing, Alive, Alone;
    var all := s.reg.waitables;
    var live := Existing(all, s.reg.destroyed);
    var dead := DeadIn(all, s.reg.destroyed);
    var s1 := s.(pc := Validate(all, all, {}));
    SnapshotNext(c, s);
    var a := ValidateAlone(c, s1, 0);
    var s2 := s.(pc := Validate(all, [], dead));
    var s3 := s.(reg := s.reg.(waitables := live), pc := Filter(live, []));
    DeadInIsFound(all, s.reg.destroyed);
    FoundDeadIsDestroyed(all, s.reg.destroyed, dead);
    if dead == {} {
      NoneDead(all, dead);
    }
    ForgetNext(c, s2);
    var b := FilterAlone(c, s3, live, 0);
    var s4 := s3.(pc := Filter([], Free(c, s.running, live)));
    FillNext(c, s4);
    AloneAdd(c, s4, 1, 1);
    AloneTwo(c, s4);
    Chain(c, s3, b, s4, 2);
    AloneFirst(c, s2, b + 2);
    Chain(c, s1, a, s2, 1 + (b + 2));
    AloneFirst(c, s, a + (1 + (b + 2)));
    n := 1 + (a + (1 + (b + 2)));
  }

  lemma EnterLeave(running: map<nat, nat>, g: nat)
    ensures SameCounts(LeftGroup(Entered(running, g), g), running)
  {
  }

  lemma AloneFive(c: Config, s: Exec)
    ensures Alone(c, s, 5) == Next(c, Next(c, Next(c, Next(c, Next(c, s)))))
  {
    hide Next;
    AloneTwo(c, s);
    AloneAdd(c, s, 2, 2);
    AloneTwo(c, Alone(c, s, 2));
    assert Alone(c, s, 5) == Next(c, Alone(c, s, 4));
  }

  /** A ready entity in a free group: checked, taken, entered, run, left. */
  lemma RunOneAlone(c: Config, s: Exec)
    requires s.pc.Dispatch? && s.pc.todo != [] && !s.mode.Workers? && CanRun(c, s, GroupOf(c, s.pc.todo[0]))
    requires s.pc.todo[0].ent in s.pc.ready && Items(s.data.queue, s.pc.todo[0].ent) != []
    ensures var g, e := GroupOf(c, s.pc.todo[0]), s.pc.todo[0].ent;
      Alone(c, s, 5)
        == s.(data := Record(TakeItem(s.data, e), e, Items(s.data.queue, e)[0]),
              running := LeftGroup(Entered(s.running, g), g), pc := Dispatch(s.pc.todo[1..], s.pc.ready))
  {
    hide Prepare, KeepTasks, Record, TakeItem, LeftGroup, Entered, GroupOf, CanRun, Items;
    var todo, ready := s.pc.todo, s.pc.ready;
    var g, e := GroupOf(c, todo[0]), todo[0].ent;
    var item := Items(s.data.queue, e)[0];
    var s1 := s.(pc := Take(todo, ready));
    assert Next(c, s) == s1;
    var s2 := s.(data := TakeItem(s.data, e), pc := Enter(todo, ready, item));
    assert Next(c, s1) == s2;
    var s3 := s2.(running := Entered(s.running, g), pc := Start(todo, ready, item));
    assert Next(c, s2) == s3;
    var s4 := s3.(data := Record(s2.data, e, item), pc := Inside(todo, ready));
    assert Next(c, s3) == s4;
    AloneFive(c, s);
  }

  lemma ServeOneAlone(c: Config, s: Exec) returns (n: nat, after: map<nat, nat>)
    requires s.pc.Dispatch? && s.pc.todo != [] && !s.mode.Workers?
    ensures SameCounts(after, s.running)
    ensures Alone(c, s, n)
         == s.(data := Serve(c, s.running, s.pc.ready, s.data, s.pc.todo[0]), running := after,
               pc := Dispatch(s.pc.todo[1..], s.pc.ready))
  {
    hide Prepare, KeepTasks, Record, TakeItem, LeftGroup, Entered, GroupOf, Items, SameCounts;
    var todo, ready := s.pc.todo, s.pc.ready;
    after := s.running;
    SameCountsSelf(s.running);
    if !CanRun(c, s, GroupOf(c, todo[0])) {
      n := 1;
      AloneFirst(c, s, 0);
    } else if todo[0].ent in ready && Items(s.data.queue, todo[0].ent) != [] {
      n := 5;
      RunOneAlone(c, s);
      after := LeftGroup(Entered(s.running, GroupOf(c, todo[0])), GroupOf(c, todo[0]));
      EnterLeave(s.running, GroupOf(c, todo[0]));
    } else {
      n := 2;
      AloneTwo(c, s);
      assert Next(c, s) == s.(pc := Take(todo, ready));
    }
  }

  lemma ServeSame(c: Config, a: map<nat, nat>, b: map<nat, nat>, ready: set<nat>, data: Traffic, r: Reg)
    requires SameCounts(a, b)
    ensures Serve(c, a, ready, data, r) == Serve(c, b, ready, data, r)
  {
    hide Record, TakeItem, Items;
  }

  lemma SameCountsTrans(a: map<nat, nat>, b: map<nat, nat>, d: map<nat, nat>)
    requires SameCounts(a, b) && SameCounts(b, d)
    ensures SameCounts(a, d)
  {
  }

  lemma EndNext(c: Config, s: Exec)
    requires !s.mode.Workers? && s.pc.Dispatch? && s.pc.todo == []
    ensures Next(c, s) == s.(pc := EndPass(s).pc)
  {
  }

  lemma {:induction false} DispatchAlone(c: Config, s: Exec, eligible: seq<Reg>, i: nat, counts: map<nat, nat>,
                                         data: Traffic)
    returns (n: nat, after: map<nat, nat>)
    requires !s.mode.Workers? && s.pc.Dispatch? && i <= |eligible| && s.pc.todo == eligible[i..]
    requires SameCounts(s.running, counts) && s.data == ServeAll(c, counts, s.pc.ready, data, eligible[..i])
    ensures SameCounts(after, counts)
    ensures Alone(c, s, n)
         == s.(data := ServeAll(c, counts, s.pc.ready, data, eligible), running := after, pc := EndPass(s).pc)
    decreases |eligible| - i
  {
    hide Next, Serve, SameCounts;
    if i == |eligible| {
      assert eligible[..i] == eligible;
      n, after := 1, s.running;
      AloneFirst(c, s, 0);
      EndNext(c, s);
    } else {
      var r := eligible[i];
      var m, mid := ServeOneAlone(c, s);
      SameCountsTrans(mid, s.running, counts);
      ServeSame(c, s.running, counts, s.pc.ready, s.data, r);
      assert eligible[i..][1..] == eligible[i + 1..];
      assert eligible[..i + 1][..i] == eligible[..i];
      var t := Alone(c, s, m);
      var k;
      k, after := DispatchAlone(c, t, eligible, i + 1, counts, data);
      AloneAdd(c, s, m, k);
      n := m + k;
    }
  }

  lemma DownNext(c: Config, s: Exec)
    requires s.pc.AfterWait? && !s.wake.contextOk
    ensures Next(c, s) == EndPass(s)
  {
  }

  lemma AloneNone(c: Config, s: Exec)
    ensures Alone(c, s, 0) == s
  {
  }

  lemma NothingServed(c: Config, running: map<nat, nat>, ready: set<nat>, data: Traffic)
    ensures ServeAll(c, running, ready, data, []) == data
  {
  }

  lemma UpNext(c: Config, s: Exec)
    requires s.pc.AfterWait? && s.wake.contextOk
    ensures Next(c, s) == s.(pc := Dispatch(s.pc.eligible, s.pc.ready))
  {
  }

  lemma PassAlone(c: Config, s: Exec) returns (n: nat, m: nat)
    requires s.pc.Snapshot? && !s.mode.Workers? && UniqueIds(s.reg.waitables)
    ensures var live := Existing(s.reg.waitables, s.reg.destroyed);
      var eligible := Free(c, s.running, live);
      var ready := ReadyOf(s.data, eligible);
      var blocked := Alone(c, s, n);
      && blocked.pc == Blocked(eligible) && blocked.reg == s.reg.(waitables := live) && blocked.data == s.data
      && (Enabled(blocked, WaitReturns) <==> s.wake.latch || ready != {})
      && (Enabled(blocked, WaitReturns) ==>
            var end := Alone(c, Step(c, blocked, WaitReturns), m);
            && end.pc == (if s.mode.Once? then Idle else LoopCheck) && end.reg == blocked.reg
            && SameCounts(end.running, s.running)
            && end.data == if s.wake.contextOk then ServeAll(c, s.running, ready, s.data, eligible) else s.data)
  {
    hide Next, Free, Existing, ServeAll, SameCounts, UniqueIds, Alone;
    var live := Existing(s.reg.waitables, s.reg.destroyed);
    var eligible := Free(c, s.running, live);
    n := PrepareAlone(c, s);
    var blocked := Alone(c, s, n);
    m := 0;
    SameCountsSelf(s.running);
    if Enabled(blocked, WaitReturns) {
      var woken := Step(c, blocked, WaitReturns);
      if s.wake.contextOk {
        var t := woken.(pc := Dispatch(eligible, ReadyOf(s.data, eligible)));
        UpNext(c, woken);
        NothingServed(c, s.running, ReadyOf(s.data, eligible), s.data);
        assert eligible[0..] == eligible && eligible[..0] == [];
        var k, _ := DispatchAlone(c, t, eligible, 0, s.running, s.data);
        AloneFirst(c, woken, k);
        m := 1 + k;
      } else {
        DownNext(c, woken);
        AloneFirst(c, woken, 0);
        AloneNone(c, Next(c, woken));
        m := 1;
      }
    }
  }

  /** The protocol run alone, from any reachable start of a pass that runs callbacks
    * inline, called directly or by the loop, does what the methods above do.  The
    * waiting thread reaches its wait with the destroyed entities forgotten and the free
    * ones in its wait set; and from the return of the wait it reaches the end of the
    * pass with the ready entities served, or none if the context is down. */
  lemma SpinOnceIsThePass(c: Config, acts: seq<Action>) returns (n: nat, m: nat)
    requires Run(c, acts).pc.Snapshot? && !Run(c, acts).mode.Workers?
    ensures var s := Run(c, acts);
      var live := Existing(s.reg.waitables, s.reg.destroyed);
      var eligible := Free(c, s.running, live);
      var ready := ReadyOf(s.data, eligible);
      var blocked := Alone(c, s, n);
      && blocked.pc == Blocked(eligible) && blocked.reg == s.reg.(waitables := live) && blocked.data == s.data
      && (Enabled(blocked, WaitReturns) <==> s.wake.latch || ready != {})
      && (Enabled(blocked, WaitReturns) ==>
            var end := Alone(c, Step(c, blocked, WaitReturns), m);
            && end.pc == (if s.mode.Once? then Idle else LoopCheck) && end.reg == blocked.reg
            && SameCounts(end.running, s.running)
            && end.data == if s.wake.contextOk then ServeAll(c, s.running, ready, s.data, eligible) else s.data)
  {
    hide Run, Step, Alone, Free, Existing, ServeAll, SameCounts;
    RunKeepsInv(c, acts);
    n, m := PassAlone(c, Run(c, acts));
  }
}
