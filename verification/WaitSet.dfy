/** The wait set: sized per kind, filled once per pass, read back by slot. */
module WaitSets {
  import opened Options

  datatype Kind = Subscription | Timer | GuardCondition | Client | Service | Event

  /** An entity handle the wait set points to. */
  datatype Held = Held(kind: Kind, handle: nat)

  datatype Capacity = Capacity(
    subscriptions: nat, guardConditions: nat, timers: nat, clients: nat, services: nat, events: nat)
  {
    function Of(k: Kind): nat {
      match k
      case Subscription => subscriptions
      case GuardCondition => guardConditions
      case Timer => timers
      case Client => clients
      case Service => services
      case Event => events
    }
  }

  function CountKind(hs: seq<Held>, k: Kind): nat {
    if hs == [] then 0
    else CountKind(hs[..|hs| - 1], k) + (if hs[|hs| - 1].kind == k then 1 else 0)
  }

  lemma CountOneMore(hs: seq<Held>, h: Held)
    ensures forall k: Kind :: CountKind(hs + [h], k) == CountKind(hs, k) + (if h.kind == k then 1 else 0)
  {
    assert (hs + [h])[..|hs|] == hs;
  }

  lemma CountSnoc(hs: seq<Held>, i: nat, k: Kind)
    requires i < |hs|
    ensures CountKind(hs[..i + 1], k) == CountKind(hs[..i], k) + (if hs[i].kind == k then 1 else 0)
  {
    assert hs[..i + 1][..i] == hs[..i];
  }

  lemma {:induction false} CountMonotone(hs: seq<Held>, i: nat, k: Kind)
    requires i <= |hs|
    ensures CountKind(hs[..i], k) <= CountKind(hs, k)
  {
    if i < |hs| {
      CountMonotone(hs[..|hs| - 1], i, k);
      assert hs[..|hs| - 1][..i] == hs[..i];
    } else {
      assert hs[..i] == hs;
    }
  }

  /** One slot for each entity, and one more guard condition for the wakeup. */
  method CapacityFor(waitables: seq<Held>) returns (cap: Capacity)
    ensures forall k: Kind :: cap.Of(k) == CountKind(waitables, k) + (if k == GuardCondition then 1 else 0)
  {
    cap := Capacity(0, 1, 0, 0, 0, 0);
    for i := 0 to |waitables|
      invariant forall k: Kind :: cap.Of(k) == CountKind(waitables[..i], k) + (if k == GuardCondition then 1 else 0)
    {
      CountOneMore(waitables[..i], waitables[i]);
      assert waitables[..i + 1] == waitables[..i] + [waitables[i]];
      match waitables[i].kind {
        case Subscription => cap := cap.(subscriptions := cap.subscriptions + 1);
        case Timer => cap := cap.(timers := cap.timers + 1);
        case GuardCondition => cap := cap.(guardConditions := cap.guardConditions + 1);
        case Client => cap := cap.(clients := cap.clients + 1);
        case Service => cap := cap.(services := cap.services + 1);
        case Event => cap := cap.(events := cap.events + 1);
      }
    }
    assert waitables[..|waitables|] == waitables;
  }

  /** The slot the i-th entity gets: how many of its kind came before it. */
  function SlotOf(hs: seq<Held>, i: nat): nat
    requires i < |hs|
  {
    CountKind(hs[..i], hs[i].kind)
  }

  type Entries = seq<Option<Held>>

  /** rcl's arrays, one per kind, as far as they are filled. */
  datatype Arrays = Arrays(
    subscriptions: Entries, guardConditions: Entries, timers: Entries, clients: Entries, services: Entries,
    events: Entries)
  {
    function Of(k: Kind): Entries {
      match k
      case Subscription => subscriptions
      case GuardCondition => guardConditions
      case Timer => timers
      case Client => clients
      case Service => services
      case Event => events
    }

    function With(k: Kind, es: Entries): (r: Arrays)
      ensures forall j: Kind :: r.Of(j) == if j == k then es else Of(j)
    {
      match k
      case Subscription => this.(subscriptions := es)
      case GuardCondition => this.(guardConditions := es)
      case Timer => this.(timers := es)
      case Client => this.(clients := es)
      case Service => this.(services := es)
      case Event => this.(events := es)
    }
  }

  const NO_ENTRIES: Arrays := Arrays([], [], [], [], [], [])

  /** What a wait leaves of an entry. */
  function Observed(e: Option<Held>, ready: set<Held>): Option<Held> {
    if e.Some? && e.value in ready then e else None
  }

  function ObserveAll(es: seq<Option<Held>>, ready: set<Held>): seq<Option<Held>> {
    seq(|es|, j requires 0 <= j < |es| => Observed(es[j], ready))
  }

  predicate Holds(arrays: Arrays, h: Held, slot: nat) {
    slot < |arrays.Of(h.kind)| && arrays.Of(h.kind)[slot] == Some(h)
  }

  /** The first entities of `all` are held, each in the slot it was given, and
    * the arrays hold nothing else. */
  ghost predicate Placed(arrays: Arrays, held: seq<Held>, all: seq<Held>, slots: seq<nat>) {
    && |slots| <= |all|
    && held == all[..|slots|]
    && (forall k: Kind :: |arrays.Of(k)| == CountKind(held, k))
    && (forall i :: 0 <= i < |slots| ==> slots[i] == SlotOf(all, i))
    && (forall i :: 0 <= i < |slots| ==> Holds(arrays, all[i], slots[i]))
  }

  function Append(arrays: Arrays, h: Held): Arrays {
    arrays.With(h.kind, arrays.Of(h.kind) + [Some(h)])
  }

  lemma HoldsStays(arrays: Arrays, h: Held, g: Held, slot: nat)
    ensures Holds(arrays, g, slot) ==> Holds(Append(arrays, h), g, slot)
    ensures Holds(Append(arrays, h), h, |arrays.Of(h.kind)|)
  {
  }

  lemma AppendCounts(arrays: Arrays, held: seq<Held>, h: Held)
    requires forall k: Kind :: |arrays.Of(k)| == CountKind(held, k)
    ensures forall k: Kind :: |Append(arrays, h).Of(k)| == CountKind(held + [h], k)
  {
    CountOneMore(held, h);
  }

  lemma PlacedNothing(all: seq<Held>)
    ensures Placed(NO_ENTRIES, [], all, [])
  {
  }

  lemma PlaceOne(arrays: Arrays, held: seq<Held>, all: seq<Held>, slots: seq<nat>)
    requires Placed(arrays, held, all, slots) && |slots| < |all|
    ensures var h := all[|slots|];
      var slot := |arrays.Of(h.kind)|;
      && slot < CountKind(all, h.kind)
      && Placed(Append(arrays, h), held + [h], all, slots + [slot])
  {
    hide CountKind, Append, Holds;
    var n := |slots|;
    var h := all[n];
    CountSnoc(all, n, h.kind);
    CountMonotone(all, n + 1, h.kind);
    AppendCounts(arrays, held, h);
    var slot := |arrays.Of(h.kind)|;
    var more := slots + [slot];
    assert held + [h] == all[..n + 1];
    forall i | 0 <= i < |more| ensures more[i] == SlotOf(all, i) && Holds(Append(arrays, h), all[i], more[i]) {
      HoldsStays(arrays, h, all[i], more[i]);
    }
  }

  /** After the wait, the slot of an entity is filled exactly when the entity is ready. */
  lemma ReadyBySlot(before: Arrays, after: Arrays, ready: set<Held>, h: Held, slot: nat)
    requires Holds(before, h, slot)
    requires forall k: Kind :: after.Of(k) == ObserveAll(before.Of(k), ready)
    ensures slot < |after.Of(h.kind)| && (after.Of(h.kind)[slot].Some? <==> h in ready)
  {
  }

  lemma {:induction false} CountPrepend(h: Held, hs: seq<Held>, k: Kind)
    ensures CountKind([h] + hs, k) == (if h.kind == k then 1 else 0) + CountKind(hs, k)
  {
    if hs == [] {
      assert [h] + hs == [h] && [h][..0] == [];
    } else {
      var last := |hs| - 1;
      assert ([h] + hs)[..|hs|] == [h] + hs[..last];
      CountPrepend(h, hs[..last], k);
    }
  }

  class WaitSet {
    var capacity: Capacity
    /** A wait empties the entries that are not ready. */
    var entries: Arrays
    /** What has been added since the last clear, kept alive until the next. */
    var held: seq<Held>

    constructor (cap: Capacity)
      ensures capacity == cap && held == [] && entries == NO_ENTRIES
    {
      capacity := cap;
      entries := NO_ENTRIES;
      held := [];
    }

    method Clear()
      modifies this`entries, this`held
      ensures held == [] && entries == NO_ENTRIES
    {
      entries := NO_ENTRIES;
      held := [];
    }

    /** Resize only when the capacity differs.  What the arrays hold is not
      * defined until the next clear. */
    method EnsureCapacity(cap: Capacity)
      modifies this`capacity
      ensures capacity == cap
    {
      if capacity != cap {
        capacity := cap;
      }
    }

    /** None when the array of this kind is full. */
    method Add(h: Held) returns (slot: Option<nat>)
      modifies this`entries, this`held
      ensures slot ==
        if |old(entries).Of(h.kind)| < capacity.Of(h.kind) then Some(|old(entries).Of(h.kind)|) else None
      ensures slot.Some? ==>
        held == old(held) + [h] && entries == Append(old(entries), h)
      ensures slot.None? ==> held == old(held) && entries == old(entries)
    {
      if |entries.Of(h.kind)| >= capacity.Of(h.kind) {
        return None;
      }
      slot := Some(|entries.Of(h.kind)|);
      entries := Append(entries, h);
      held := held + [h];
    }

    /** The wait: entries of entities that are not ready are emptied. */
    method Wait(ready: set<Held>)
      modifies this`entries
      ensures forall k: Kind :: entries.Of(k) == ObserveAll(old(entries).Of(k), ready)
    {
      entries := Arrays(
        ObserveAll(entries.subscriptions, ready), ObserveAll(entries.guardConditions, ready),
        ObserveAll(entries.timers, ready), ObserveAll(entries.clients, ready),
        ObserveAll(entries.services, ready), ObserveAll(entries.events, ready));
    }

    method IsReady(k: Kind, index: nat) returns (ready: bool)
      ensures ready <==> index < |entries.Of(k)| && entries.Of(k)[index].Some?
    {
      ready := index < |entries.Of(k)| && entries.Of(k)[index].Some?;
    }

    /** Size and fill the wait set for one pass.  No add is refused, each entity
      * sits in the slot it is given, every slot of every kind is taken, and all
      * entities are held. */
    method Fill(wakeup: nat, eligible: seq<Held>) returns (slots: seq<nat>)
      modifies this
      ensures var all := [Held(GuardCondition, wakeup)] + eligible;
        && held == all
        && |slots| == |all|
        && Placed(entries, held, all, slots)
        && (forall k: Kind :: |entries.Of(k)| == capacity.Of(k) == CountKind(all, k))
    {
      hide CountKind, Holds, SlotOf, Append;
      ghost var all := [Held(GuardCondition, wakeup)] + eligible;
      var cap := CapacityFor(eligible);
      forall k: Kind ensures cap.Of(k) == CountKind(all, k) {
        CountPrepend(all[0], eligible, k);
      }
      EnsureCapacity(cap);
      Clear();
      PlacedNothing(all);
      PlaceOne(entries, held, all, []);
      var first := Add(Held(GuardCondition, wakeup));
      slots := [first.value];
      assert [] + slots == slots;
      for n := 0 to |eligible|
        invariant capacity == cap
        invariant |slots| == n + 1 && Placed(entries, held, all, slots)
      {
        PlaceOne(entries, held, all, slots);
        var slot := Add(eligible[n]);
        slots := slots + [slot.value];
      }
      assert all[..|slots|] == all;
    }

    /** One pass over the wait set: fill it, wait, and read each slot back.  The
      * answer read for an entity is about that entity. */
    method Poll(wakeup: nat, eligible: seq<Held>, ready: set<Held>) returns (woken: bool, flags: seq<bool>)
      modifies this
      ensures woken <==> Held(GuardCondition, wakeup) in ready
      ensures |flags| == |eligible|
      ensures forall i :: 0 <= i < |eligible| ==> (flags[i] <==> eligible[i] in ready)
    {
      var slots := Fill(wakeup, eligible);
      ghost var all := held;
      ghost var filled := entries;
      Wait(ready);
      ReadyBySlot(filled, entries, ready, all[0], slots[0]);
      woken := IsReady(GuardCondition, slots[0]);
      ghost var observed := entries;
      flags := [];
      for i := 0 to |eligible|
        invariant |flags| == i && entries == observed
        invariant forall j :: 0 <= j < i ==> (flags[j] <==> eligible[j] in ready)
      {
        ReadyBySlot(filled, entries, ready, eligible[i], slots[i + 1]);
        var flag := IsReady(eligible[i].kind, slots[i + 1]);
        flags := flags + [flag];
      }
    }
  }

  /** Slots of one kind are distinct and in range. */
  lemma SlotsApart(all: seq<Held>, i: nat, j: nat)
    requires i < j < |all| && all[i].kind == all[j].kind
    ensures SlotOf(all, i) < SlotOf(all, j) < CountKind(all, all[j].kind)
  {
    var k := all[i].kind;
    CountSnoc(all, i, k);
    CountMonotone(all[..j], i + 1, k);
    assert all[..j][..i + 1] == all[..i + 1];
    CountSnoc(all, j, k);
    CountMonotone(all, j + 1, k);
  }

  /** Every slot of the computed capacity is given to some entity. */
  lemma {:induction false} EverySlotTaken(all: seq<Held>, k: Kind, slot: nat) returns (i: nat)
    requires slot < CountKind(all, k)
    ensures i < |all| && all[i].kind == k && SlotOf(all, i) == slot
  {
    var last := |all| - 1;
    if all[last].kind == k && slot == CountKind(all[..last], k) {
      i := last;
    } else {
      i := EverySlotTaken(all[..last], k, slot);
      assert all[..last][..i] == all[..i];
    }
  }
}
