/** Futures: one atomic state holding the value, once it has arrived, and the
  * callbacks waiting for it.  A callback is named by a number. */
module Futures {
  import opened Options

  datatype State<A> = State(value: Option<A>, callbacks: seq<nat>)

  /** The atomic step of completing: the callbacks to run and the new state.  A
    * second completion changes nothing. */
  function CompleteStep<A>(s: State<A>, v: A): (seq<nat>, State<A>) {
    if s.value.Some? then ([], s) else (s.callbacks, State(Some(v), []))
  }

  /** The atomic step of registering: the value, if it has arrived, and the new state. */
  function RegisterStep<A>(s: State<A>, cb: nat): (Option<A>, State<A>) {
    if s.value.Some? then (s.value, s) else (None, s.(callbacks := s.callbacks + [cb]))
  }

  function Calls<A>(cbs: seq<nat>, v: A): seq<(nat, A)> {
    seq(|cbs|, i requires 0 <= i < |cbs| => (cbs[i], v))
  }

  class Future<A> {
    var state: State<A>
    /** What has been called, with which value, in order. */
    var called: seq<(nat, A)>

    constructor ()
      ensures state == State(None, []) && called == []
    {
      state := State(None, []);
      called := [];
    }

    method IsDone() returns (done: bool)
      ensures done <==> state.value.Some?
    {
      done := state.value.Some?;
    }

    method Complete(v: A)
      modifies this
      ensures state == CompleteStep(old(state), v).1
      ensures called == old(called) + Calls(CompleteStep(old(state), v).0, v)
      ensures old(state).value.Some? ==> state == old(state) && called == old(called)
      ensures old(state).value.None? ==>
        && state == State(Some(v), []) && |called| == |old(called)| + |old(state).callbacks|
        && called[..|old(called)|] == old(called)
        && forall i :: 0 <= i < |old(state).callbacks| ==> called[|old(called)| + i] == (old(state).callbacks[i], v)
    {
      var (cbs, next) := CompleteStep(state, v);
      state := next;
      for i := 0 to |cbs|
        invariant state == next
        invariant called == old(called) + Calls(cbs[..i], v)
      {
        called := called + [(cbs[i], v)];
        assert Calls(cbs[..i + 1], v) == Calls(cbs[..i], v) + [(cbs[i], v)];
      }
      assert cbs[..|cbs|] == cbs;
    }

    method OnComplete(cb: nat)
      modifies this
      ensures state == RegisterStep(old(state), cb).1
      ensures called == old(called) + (match old(state).value case Some(v) => [(cb, v)] case None => [])
      ensures state == if old(state).value.Some? then old(state) else State(None, old(state).callbacks + [cb])
    {
      var (arrived, next) := RegisterStep(state, cb);
      state := next;
      if arrived.Some? {
        called := called + [(cb, arrived.value)];
      }
    }
  }

  // ---- Competing threads ------------------------------------------------------

  /** One call of `complete` or `onComplete` past its atomic step: the callbacks
    * it still has to run, with their value. */
  datatype InFlight<A> = InFlight(v: A, todo: seq<nat>)

  datatype System<A> = System(
    fut: State<A>,
    flights: seq<InFlight<A>>,
    ran: seq<(nat, A)>,
    registered: seq<nat>)

  datatype Action<A> =
    | Complete(v: A)
    | OnComplete(cb: nat)
    | RunNext(flight: nat)

  function Init<A>(): System<A> {
    System(State(None, []), [], [], [])
  }

  /** One atomic step of some thread.  A registration uses a callback of its own;
    * an action that is not possible changes nothing. */
  function Step<A>(s: System<A>, a: Action<A>): System<A> {
    match a
    case Complete(v) =>
      var (cbs, next) := CompleteStep(s.fut, v);
      s.(fut := next, flights := s.flights + [InFlight(v, cbs)])
    case OnComplete(cb) =>
      if cb in s.registered then s
      else
        var (arrived, next) := RegisterStep(s.fut, cb);
        s.(fut := next,
           flights := if arrived.Some? then s.flights + [InFlight(arrived.value, [cb])] else s.flights,
           registered := s.registered + [cb])
    case RunNext(k) =>
      if k < |s.flights| && s.flights[k].todo != [] then
        var f := s.flights[k];
        s.(flights := s.flights[k := f.(todo := f.todo[1..])], ran := s.ran + [(f.todo[0], f.v)])
      else s
  }

  function Run<A>(acts: seq<Action<A>>): System<A> {
    if acts == [] then Init() else Step(Run(acts[..|acts| - 1]), acts[|acts| - 1])
  }

  function Occurrences(s: seq<nat>, cb: nat): nat {
    if s == [] then 0 else (if s[0] == cb then 1 else 0) + Occurrences(s[1..], cb)
  }

  function TimesInFlight<A>(flights: seq<InFlight<A>>, cb: nat): nat {
    if flights == [] then 0
    else TimesInFlight(flights[..|flights| - 1], cb) + Occurrences(flights[|flights| - 1].todo, cb)
  }

  function TimesRan<A>(ran: seq<(nat, A)>, cb: nat): nat {
    if ran == [] then 0
    else TimesRan(ran[..|ran| - 1], cb) + (if ran[|ran| - 1].0 == cb then 1 else 0)
  }

  /** A registered callback is in one place, another in none. */
  ghost predicate OnePlace<A>(s: System<A>, cb: nat) {
    Occurrences(s.fut.callbacks, cb) + TimesInFlight(s.flights, cb) + TimesRan(s.ran, cb)
      == if cb in s.registered then 1 else 0
  }

  ghost predicate Settled<A>(s: System<A>) {
    && (s.fut.value.Some? ==> s.fut.callbacks == [])
    && (forall k :: 0 <= k < |s.flights| && s.flights[k].todo != [] ==> s.fut.value == Some(s.flights[k].v))
    && (forall k :: 0 <= k < |s.ran| ==> s.fut.value == Some(s.ran[k].1))
  }

  lemma {:induction false} OccurrencesSnoc(s: seq<nat>, x: nat, cb: nat)
    ensures Occurrences(s + [x], cb) == Occurrences(s, cb) + (if x == cb then 1 else 0)
  {
    if s == [] {
      assert [x][1..] == [];
    } else {
      assert (s + [x])[1..] == s[1..] + [x];
      OccurrencesSnoc(s[1..], x, cb);
    }
  }

  lemma {:induction false} FlightsUpdate<A>(flights: seq<InFlight<A>>, k: nat, f: InFlight<A>, cb: nat)
    requires k < |flights|
    ensures TimesInFlight(flights[k := f], cb) + Occurrences(flights[k].todo, cb)
         == TimesInFlight(flights, cb) + Occurrences(f.todo, cb)
  {
    var last := |flights| - 1;
    var after := flights[k := f];
    if k == last {
      assert after[..last] == flights[..last];
    } else {
      FlightsUpdate(flights[..last], k, f, cb);
      assert after[..last] == flights[..last][k := f] && after[last] == flights[last];
    }
  }

  lemma FlightAdded<A>(flights: seq<InFlight<A>>, f: InFlight<A>, cb: nat)
    ensures TimesInFlight(flights + [f], cb) == TimesInFlight(flights, cb) + Occurrences(f.todo, cb)
  {
    assert (flights + [f])[..|flights|] == flights;
  }

  lemma StepKeepsSettled<A>(s: System<A>, a: Action<A>)
    requires Settled(s)
    ensures Settled(Step(s, a))
  {
  }

  lemma CompleteKeepsOnePlace<A>(s: System<A>, v: A, cb: nat)
    requires OnePlace(s, cb)
    ensures OnePlace(Step(s, Complete(v)), cb)
  {
    var (cbs, next) := CompleteStep(s.fut, v);
    FlightAdded(s.flights, InFlight(v, cbs), cb);
  }

  lemma OnCompleteKeepsOnePlace<A>(s: System<A>, x: nat, cb: nat)
    requires OnePlace(s, cb) && x !in s.registered
    ensures OnePlace(Step(s, OnComplete(x)), cb)
  {
    OccurrencesSnoc(s.fut.callbacks, x, cb);
    OccurrencesSnoc([], x, cb);
    assert [] + [x] == [x];
    assert cb in s.registered + [x] <==> cb in s.registered || cb == x;
    if s.fut.value.Some? {
      FlightAdded(s.flights, InFlight(s.fut.value.value, [x]), cb);
    }
  }

  lemma OccurrencesNext(s: seq<nat>, cb: nat)
    requires s != []
    ensures Occurrences(s, cb) == (if s[0] == cb then 1 else 0) + Occurrences(s[1..], cb)
  {
  }

  lemma RanAdded<A>(ran: seq<(nat, A)>, x: nat, v: A, cb: nat)
    ensures TimesRan(ran + [(x, v)], cb) == TimesRan(ran, cb) + (if x == cb then 1 else 0)
  {
    assert (ran + [(x, v)])[..|ran|] == ran;
  }

  lemma RunNextKeepsOnePlace<A>(s: System<A>, k: nat, cb: nat)
    requires OnePlace(s, cb) && k < |s.flights| && s.flights[k].todo != []
    ensures OnePlace(Step(s, RunNext(k)), cb)
  {
    hide TimesInFlight, Occurrences, TimesRan;
    var f := s.flights[k];
    FlightsUpdate(s.flights, k, f.(todo := f.todo[1..]), cb);
    OccurrencesNext(f.todo, cb);
    RanAdded(s.ran, f.todo[0], f.v, cb);
  }

  lemma StepKeepsOnePlace<A>(s: System<A>, a: Action<A>, cb: nat)
    requires OnePlace(s, cb)
    ensures OnePlace(Step(s, a), cb)
  {
    match a
    case Complete(v) => CompleteKeepsOnePlace(s, v, cb);
    case OnComplete(x) => if x !in s.registered { OnCompleteKeepsOnePlace(s, x, cb); }
    case RunNext(k) => if k < |s.flights| && s.flights[k].todo != [] { RunNextKeepsOnePlace(s, k, cb); }
  }

  lemma {:induction false} RunSettled<A>(acts: seq<Action<A>>)
    ensures Settled(Run(acts))
  {
    if acts != [] {
      RunSettled(acts[..|acts| - 1]);
      StepKeepsSettled(Run(acts[..|acts| - 1]), acts[|acts| - 1]);
    }
  }

  /** In every interleaving a registered callback is in exactly one place: still
    * stored, in flight on one call, or already run. */
  lemma {:induction false} ExactlyOnePlace<A>(acts: seq<Action<A>>, cb: nat)
    ensures OnePlace(Run(acts), cb)
  {
    if acts != [] {
      ExactlyOnePlace(acts[..|acts| - 1], cb);
      StepKeepsOnePlace(Run(acts[..|acts| - 1]), acts[|acts| - 1], cb);
    }
  }

  /** The value the first completion supplied. */
  function FirstCompletion<A>(acts: seq<Action<A>>): Option<A> {
    if acts == [] then None
    else
      var before := FirstCompletion(acts[..|acts| - 1]);
      if before.None? && acts[|acts| - 1].Complete? then Some(acts[|acts| - 1].v) else before
  }

  /** The first completion wins, and its value never changes afterwards. */
  lemma {:induction false} FirstCompletionWins<A>(acts: seq<Action<A>>)
    ensures Run(acts).fut.value == FirstCompletion(acts)
  {
    if acts != [] {
      FirstCompletionWins(acts[..|acts| - 1]);
    }
  }

  lemma {:induction false} ValueIsStable<A>(acts: seq<Action<A>>, more: seq<Action<A>>)
    requires Run(acts).fut.value.Some?
    ensures Run(acts + more).fut.value == Run(acts).fut.value
  {
    if more == [] {
      assert acts + more == acts;
    } else {
      var last := |more| - 1;
      assert (acts + more)[..|acts + more| - 1] == acts + more[..last];
      ValueIsStable(acts, more[..last]);
    }
  }

  lemma {:induction false} NothingInFlight<A>(flights: seq<InFlight<A>>, cb: nat)
    requires forall k :: 0 <= k < |flights| ==> flights[k].todo == []
    ensures TimesInFlight(flights, cb) == 0
  {
    if flights != [] {
      NothingInFlight(flights[..|flights| - 1], cb);
    }
  }

  /** Once the future is complete and every call has returned, exactly the
    * registered callbacks have run, each exactly once and with the winning value. */
  lemma AllRunExactlyOnce<A>(acts: seq<Action<A>>)
    requires FirstCompletion(acts).Some?
    requires forall k :: 0 <= k < |Run(acts).flights| ==> Run(acts).flights[k].todo == []
    ensures var s := Run(acts);
      && (forall cb :: TimesRan(s.ran, cb) == if cb in s.registered then 1 else 0)
      && (forall k :: 0 <= k < |s.ran| ==> Some(s.ran[k].1) == FirstCompletion(acts))
  {
    var s := Run(acts);
    RunSettled(acts);
    FirstCompletionWins(acts);
    forall cb ensures TimesRan(s.ran, cb) == if cb in s.registered then 1 else 0 {
      ExactlyOnePlace(acts, cb);
      NothingInFlight(s.flights, cb);
    }
  }

  lemma RanMeansComplete<A>(s: System<A>)
    requires Settled(s)
    ensures s.ran != [] ==> s.fut.value.Some?
  {
    if s.ran != [] {
      assert s.fut.value == Some(s.ran[0].1);
    }
  }

  lemma {:induction false} StoredInOrder<A>(acts: seq<Action<A>>)
    requires FirstCompletion(acts).None?
    ensures Run(acts).fut.callbacks == Run(acts).registered
  {
    if acts != [] {
      StoredInOrder(acts[..|acts| - 1]);
      FirstCompletionWins(acts[..|acts| - 1]);
    }
  }

  /** Until it is complete, no callback runs: all wait, in registration order. */
  lemma NoneRunsBeforeCompletion<A>(acts: seq<Action<A>>)
    requires FirstCompletion(acts).None?
    ensures Run(acts).ran == [] && Run(acts).fut.callbacks == Run(acts).registered
  {
    RunSettled(acts);
    FirstCompletionWins(acts);
    StoredInOrder(acts);
    RanMeansComplete(Run(acts));
  }

  // ---- In registration order ----------------------------------------------------------

  /** Of what has run, the calls of the given callbacks. */
  function RanOf<A>(ran: seq<(nat, A)>, cbs: seq<nat>): seq<nat> {
    if ran == [] then []
    else RanOf(ran[..|ran| - 1], cbs) + (if ran[|ran| - 1].0 in cbs then [ran[|ran| - 1].0] else [])
  }

  /** The k-th call under way works through cbs, and has got this far. */
  ghost predicate WorksThrough<A>(s: System<A>, k: nat, cbs: seq<nat>) {
    && k < |s.flights| && s.fut.value.Some?
    && (forall cb :: cb in cbs ==> cb in s.registered)
    && RanOf(s.ran, cbs) + s.flights[k].todo == cbs
  }

  lemma {:induction false} OccursIn(s: seq<nat>, cb: nat)
    ensures Occurrences(s, cb) > 0 <==> cb in s
  {
    if s != [] {
      OccursIn(s[1..], cb);
    }
  }

  lemma {:induction false} RanOfCounts<A>(ran: seq<(nat, A)>, cbs: seq<nat>, cb: nat)
    requires cb in RanOf(ran, cbs)
    ensures TimesRan(ran, cb) > 0
  {
    if cb in RanOf(ran[..|ran| - 1], cbs) {
      RanOfCounts(ran[..|ran| - 1], cbs, cb);
    }
  }

  lemma {:induction false} InFlightCounts<A>(flights: seq<InFlight<A>>, k: nat, cb: nat)
    requires k < |flights| && cb in flights[k].todo
    ensures TimesInFlight(flights, cb) >= 1
  {
    if k == |flights| - 1 {
      OccursIn(flights[k].todo, cb);
    } else {
      InFlightCounts(flights[..|flights| - 1], k, cb);
    }
  }

  lemma {:induction false} InOneFlight<A>(flights: seq<InFlight<A>>, j: nat, k: nat, cb: nat)
    requires j < |flights| && k < |flights| && j != k && cb in flights[j].todo && cb in flights[k].todo
    ensures TimesInFlight(flights, cb) >= 2
  {
    var last := |flights| - 1;
    OccursIn(flights[last].todo, cb);
    if j == last {
      InFlightCounts(flights[..last], k, cb);
    } else if k == last {
      InFlightCounts(flights[..last], j, cb);
    } else {
      InOneFlight(flights[..last], j, k, cb);
    }
  }

  lemma RanOfNext<A>(ran: seq<(nat, A)>, x: nat, v: A, cbs: seq<nat>)
    ensures RanOf(ran + [(x, v)], cbs) == RanOf(ran, cbs) + (if x in cbs then [x] else [])
  {
    assert (ran + [(x, v)])[..|ran|] == ran;
  }

  /** A callback of cbs that another call has is in two places. */
  lemma NotElsewhere<A>(s: System<A>, k: nat, cbs: seq<nat>, j: nat)
    requires WorksThrough(s, k, cbs) && j < |s.flights| && j != k && s.flights[j].todo != []
    requires OnePlace(s, s.flights[j].todo[0])
    ensures s.flights[j].todo[0] !in cbs
  {
    var cb := s.flights[j].todo[0];
    if cb in cbs {
      InFlightCounts(s.flights, j, cb);
      if cb in s.flights[k].todo {
        InOneFlight(s.flights, j, k, cb);
      } else {
        assert cb in RanOf(s.ran, cbs);
        RanOfCounts(s.ran, cbs, cb);
      }
    }
  }

  lemma StepWorksThrough<A>(s: System<A>, a: Action<A>, k: nat, cbs: seq<nat>)
    requires WorksThrough(s, k, cbs) && forall cb :: OnePlace(s, cb)
    ensures WorksThrough(Step(s, a), k, cbs)
  {
    hide OnePlace;
    if a.RunNext? && a.flight < |s.flights| && s.flights[a.flight].todo != [] {
      var f := s.flights[a.flight];
      RanOfNext(s.ran, f.todo[0], f.v, cbs);
      if a.flight == k {
        assert f.todo == [f.todo[0]] + f.todo[1..];
        assert f.todo[0] in cbs;
      } else {
        NotElsewhere(s, k, cbs, a.flight);
      }
    }
  }

  lemma CompletionStarts<A>(s: System<A>, v: A)
    requires s.fut.value.None? && s.ran == [] && s.fut.callbacks == s.registered
    ensures WorksThrough(Step(s, Complete(v)), |s.flights|, s.registered)
  {
    assert RanOf(s.ran, s.registered) == [];
  }

  lemma {:induction false} RunWorksThrough<A>(acts: seq<Action<A>>, v: A, more: seq<Action<A>>)
    requires FirstCompletion(acts).None?
    ensures WorksThrough(Run(acts + [Complete(v)] + more), |Run(acts).flights|, Run(acts).registered)
  {
    hide WorksThrough, OnePlace, Step;
    var all := acts + [Complete(v)] + more;
    if more == [] {
      assert all == acts + [Complete(v)] && all[..|all| - 1] == acts;
      NoneRunsBeforeCompletion(acts);
      FirstCompletionWins(acts);
      CompletionStarts(Run(acts), v);
    } else {
      var last := |more| - 1;
      assert all[..|all| - 1] == acts + [Complete(v)] + more[..last];
      RunWorksThrough(acts, v, more[..last]);
      var mid := Run(all[..|all| - 1]);
      forall cb ensures OnePlace(mid, cb) {
        ExactlyOnePlace(all[..|all| - 1], cb);
      }
      StepWorksThrough(mid, all[|all| - 1], |Run(acts).flights|, Run(acts).registered);
    }
  }

  /** The callbacks waiting when a future is first completed run in registration order,
    * whatever other calls run in between: those that have run are a first part of them,
    * and the completing call still has the rest. */
  lemma WaitingRunInOrder<A>(acts: seq<Action<A>>, v: A, more: seq<Action<A>>)
    requires FirstCompletion(acts).None?
    ensures var s, u := Run(acts), Run(acts + [Complete(v)] + more);
      && |s.flights| < |u.flights|
      && RanOf(u.ran, s.registered) + u.flights[|s.flights|].todo == s.registered
  {
    hide Run, RanOf;
    RunWorksThrough(acts, v, more);
  }
}
