/** Service clients: requests in flight, and the responses that answer them. */
module Clients {
  import opened Options
  import opened Futures

  /** Calls waiting for a response: sequence number and future. */
  type Pending = seq<(int, nat)>

  function FindPending(pending: Pending, seqNo: int): Option<nat> {
    if pending == [] then Option.None
    else if pending[0].0 == seqNo then Option.Some(pending[0].1)
    else FindPending(pending[1..], seqNo)
  }

  function DropPending(pending: Pending, seqNo: int): Pending {
    if pending == [] then []
    else (if pending[0].0 == seqNo then [] else [pending[0]]) + DropPending(pending[1..], seqNo)
  }

  ghost predicate DistinctNumbers(pending: Pending) {
    forall i, j :: 0 <= i < j < |pending| ==> pending[i].0 != pending[j].0
  }

  /** fut is the future of the first call waiting under n. */
  ghost predicate FirstUnder(pending: Pending, n: int, fut: nat) {
    exists i :: 0 <= i < |pending| && pending[i] == (n, fut) && forall j :: 0 <= j < i ==> pending[j].0 != n
  }

  lemma {:induction false} FindsFirst(pending: Pending, n: int)
    ensures FindPending(pending, n).Some? ==> FirstUnder(pending, n, FindPending(pending, n).value)
  {
    if pending != [] {
      if pending[0].0 == n {
        assert pending[0] == (n, pending[0].1);
      } else {
        FindsFirst(pending[1..], n);
        if FindPending(pending, n).Some? {
          var fut := FindPending(pending, n).value;
          var i :| 0 <= i < |pending[1..]| && pending[1..][i] == (n, fut)
            && forall j :: 0 <= j < i ==> pending[1..][j].0 != n;
          assert pending[i + 1] == (n, fut);
          forall j | 0 <= j < i + 1 ensures pending[j].0 != n {
            assert j > 0 ==> pending[j] == pending[1..][j - 1];
          }
        }
      }
    }
  }

  lemma {:induction false} DropKeepsAll(pending: Pending, n: int)
    requires forall e :: e in pending ==> e.0 != n
    ensures DropPending(pending, n) == pending
  {
    if pending != [] {
      assert pending[0] in pending;
      DropKeepsAll(pending[1..], n);
    }
  }

  /** With distinct numbers a response uses up one call at most. */
  lemma {:induction false} DropsOnce(pending: Pending, n: int)
    ensures DistinctNumbers(pending) ==>
      && DistinctNumbers(DropPending(pending, n))
      && |DropPending(pending, n)| == |pending| - (if FindPending(pending, n).Some? then 1 else 0)
  {
    if DistinctNumbers(pending) {
      DropKeepsDistinct(pending, n);
      if pending != [] {
        if pending[0].0 == n {
          forall e | e in pending[1..] ensures e.0 != n {}
          DropKeepsAll(pending[1..], n);
        } else {
          DropsOnce(pending[1..], n);
        }
      }
    }
  }

  /** The table of one client.  Futures are named by numbers. */
  class Client {
    var pending: Pending

    constructor ()
      ensures pending == []
    {
      pending := [];
    }

    /** The second half of `call`, once the request has its sequence number. */
    method Register(seqNo: int, fut: nat)
      modifies this
      ensures pending == old(pending) + [(seqNo, fut)]
    {
      pending := pending + [(seqNo, fut)];
    }

    /** Take one response: the future of the first call that waits under its number,
      * if any; afterwards no call waits under it, and every other still does. */
    method TakeResponse(seqNo: int) returns (waiting: Option<nat>)
      modifies this
      ensures match waiting
              case Some(fut) => FirstUnder(old(pending), seqNo, fut)
              case None => forall e :: e in old(pending) ==> e.0 != seqNo
      ensures forall e :: e in pending <==> e in old(pending) && e.0 != seqNo
      ensures pending == DropPending(old(pending), seqNo)
      ensures DistinctNumbers(old(pending)) ==>
        DistinctNumbers(pending) && |pending| == |old(pending)| - (if waiting.Some? then 1 else 0)
    {
      PendingLookup(pending, seqNo);
      FindsFirst(pending, seqNo);
      DropsOnce(pending, seqNo);
      waiting := FindPending(pending, seqNo);
      pending := DropPending(pending, seqNo);
    }
  }

  // ---- Callers, the network and the executor, interleaved -------------------------

  datatype Call = Call(seqNo: int, registered: bool)

  /** `calls` in sending order, each with the future of the same number; `sent`
    * the sequence numbers given out; `inbox`
    * the responses waiting in the middleware; `completing` the completions handed
    * to an executor and not yet run; `answers` what the servers replied;
    * `dropped` the sequence numbers whose response found nobody waiting. */
  datatype Exchange<R(==)> = Exchange(
    calls: seq<Call>,
    sent: set<int>,
    pending: Pending,
    inbox: multiset<int>,
    completing: multiset<(nat, R)>,
    futures: seq<State<R>>,
    answers: map<int, R>,
    dropped: set<int>)

  datatype Action<R> =
    | Send(seqNo: int)
    | Register(call: nat)
    | Arrive(seqNo: int, response: R)
    | Take(seqNo: int)
    | RunCompletion(call: nat, response: R)

  ghost function Init<R>(): Exchange<R> {
    Exchange([], {}, [], multiset{}, multiset{}, [], map[], {})
  }

  /** The middleware numbers requests apart, a server answers a request at most
    * once, and responses may be handed over in any order. */
  ghost predicate Enabled<R>(s: Exchange<R>, a: Action<R>) {
    match a
    case Send(n) => n !in s.sent
    case Register(c) => c < |s.calls| && !s.calls[c].registered
    case Arrive(n, _) => n in s.sent && n !in s.answers
    case Take(n) => n in s.inbox && n in s.answers
    case RunCompletion(c, r) => (c, r) in s.completing && c < |s.futures|
  }

  ghost function Step<R>(s: Exchange<R>, a: Action<R>): Exchange<R> {
    if !Enabled(s, a) then s
    else
      match a
      case Send(n) =>
        s.(calls := s.calls + [Call(n, false)], sent := s.sent + {n}, futures := s.futures + [State(Option.None, [])])
      case Register(c) =>
        s.(calls := s.calls[c := s.calls[c].(registered := true)], pending := s.pending + [(s.calls[c].seqNo, c)])
      case Arrive(n, r) => s.(inbox := s.inbox + multiset{n}, answers := s.answers[n := r])
      case Take(n) =>
        var taken := s.(inbox := s.inbox - multiset{n}, pending := DropPending(s.pending, n));
        (match FindPending(s.pending, n)
         case None => taken.(dropped := s.dropped + {n})
         case Some(c) => taken.(completing := s.completing + multiset{(c, s.answers[n])}))
      case RunCompletion(c, r) =>
        s.(completing := s.completing - multiset{(c, r)},
           futures := s.futures[c := CompleteStep(s.futures[c], r).1])
  }

  ghost function RunFrom<R>(s: Exchange<R>, acts: seq<Action<R>>): Exchange<R>
    decreases |acts|
  {
    if acts == [] then s else RunFrom(Step(s, acts[0]), acts[1..])
  }

  ghost function Run<R>(acts: seq<Action<R>>): Exchange<R> {
    RunFrom(Init(), acts)
  }

  // ---- Where a call is --------------------------------------------------------------

  ghost predicate Waiting<R>(s: Exchange<R>, c: nat)
    requires c < |s.calls|
  {
    (s.calls[c].seqNo, c) in s.pending
  }

  ghost predicate Completing<R>(s: Exchange<R>, c: nat)
    requires c < |s.calls|
  {
    s.calls[c].seqNo in s.answers && (c, s.answers[s.calls[c].seqNo]) in s.completing
  }

  ghost predicate Done<R>(s: Exchange<R>, c: nat) {
    c < |s.futures| && s.futures[c].value.Some?
  }

  /** The response is on its way to the future, or there. */
  ghost predicate Answered<R>(s: Exchange<R>, c: nat)
    requires c < |s.calls|
  {
    Completing(s, c) || Done(s, c)
  }

  /** The response to this call has been taken from the middleware. */
  ghost predicate Taken<R>(s: Exchange<R>, c: nat)
    requires c < |s.calls|
  {
    s.calls[c].seqNo in s.answers && s.calls[c].seqNo !in s.inbox
  }

  /** Its response found nobody waiting. */
  ghost predicate Dropped<R>(s: Exchange<R>, c: nat)
    requires c < |s.calls|
  {
    s.calls[c].seqNo in s.dropped
  }

  ghost predicate Tables<R>(s: Exchange<R>) {
    && |s.futures| == |s.calls|
    && (forall c, d :: 0 <= c < d < |s.calls| ==> s.calls[c].seqNo != s.calls[d].seqNo)
    && (forall n, c :: (n, c) in s.pending ==> c < |s.calls| && s.calls[c].seqNo == n)
    && DistinctNumbers(s.pending)
    && (forall n :: s.inbox[n] <= 1)
    && (forall n :: n in s.inbox ==> n in s.answers)
    && (forall n :: n in s.dropped ==> n in s.answers)
    && (forall n :: n in s.answers ==> n in s.sent)
    && (forall c :: 0 <= c < |s.calls| ==> s.calls[c].seqNo in s.sent)
    && (forall p :: p in s.completing ==>
          && s.completing[p] == 1
          && p.0 < |s.calls| && s.calls[p.0].seqNo in s.answers && s.answers[s.calls[p.0].seqNo] == p.1)
  }

  ghost predicate CallInv<R>(s: Exchange<R>, c: nat)
    requires c < |s.calls|
  {
    && !(Completing(s, c) && Done(s, c))
    && !(Dropped(s, c) && Answered(s, c))
    && (Taken(s, c) <==> Dropped(s, c) || Answered(s, c))
    && (Waiting(s, c) <==> s.calls[c].registered && !Answered(s, c))
    && (Answered(s, c) ==> s.calls[c].registered)
    && (Done(s, c) ==> s.futures[c].value == Option.Some(s.answers[s.calls[c].seqNo]))
  }

  ghost predicate Inv<R>(s: Exchange<R>) {
    Tables(s) && forall c :: 0 <= c < |s.calls| ==> CallInv(s, c)
  }

  lemma {:induction false} PendingLookup(pending: Pending, n: int)
    ensures match FindPending(pending, n)
            case None => forall c :: (n, c) !in pending
            case Some(c) => (n, c) in pending
    ensures forall e :: e in DropPending(pending, n) <==> e in pending && e.0 != n
  {
    if pending != [] {
      PendingLookup(pending[1..], n);
      assert pending == [pending[0]] + pending[1..];
    }
  }

  lemma {:induction false} DropKeepsDistinct(pending: Pending, n: int)
    requires DistinctNumbers(pending)
    ensures DistinctNumbers(DropPending(pending, n))
  {
    if pending != [] {
      DropKeepsDistinct(pending[1..], n);
      PendingLookup(pending[1..], n);
      var rest := DropPending(pending[1..], n);
      forall j | 0 <= j < |rest| ensures rest[j].0 != pending[0].0 {
        assert rest[j] in pending[1..];
      }
      if pending[0].0 != n {
        assert DropPending(pending, n) == [pending[0]] + rest;
      }
    }
  }

  lemma SendKeepsInv<R>(s: Exchange<R>, n: int)
    requires Inv(s) && Enabled(s, Send(n))
    ensures Inv(Step(s, Send(n)))
  {
    var t := Step(s, Send(n));
    forall c | 0 <= c < |t.calls| ensures CallInv(t, c) {
      if c < |s.calls| {
        assert CallInv(s, c);
      }
    }
  }

  lemma RegisterKeepsTables<R>(s: Exchange<R>, c: nat)
    requires Inv(s) && Enabled(s, Register(c))
    ensures Tables(Step(s, Register(c)))
  {
    var n := s.calls[c].seqNo;
    assert CallInv(s, c);
    forall i | 0 <= i < |s.pending| ensures s.pending[i].0 != n {
      var (m, d) := s.pending[i];
      assert (m, d) in s.pending;
    }
  }

  lemma RegisterKeepsCall<R>(s: Exchange<R>, c: nat, d: nat)
    requires Inv(s) && Enabled(s, Register(c)) && d < |s.calls|
    ensures CallInv(Step(s, Register(c)), d)
  {
    var t := Step(s, Register(c));
    assert CallInv(s, d);
    assert t.calls[d].seqNo == s.calls[d].seqNo;
    assert Answered(t, d) <==> Answered(s, d);
    assert Waiting(t, d) <==> Waiting(s, d) || d == c;
  }

  lemma RegisterKeepsInv<R>(s: Exchange<R>, c: nat)
    requires Inv(s) && Enabled(s, Register(c))
    ensures Inv(Step(s, Register(c)))
  {
    RegisterKeepsTables(s, c);
    forall d | 0 <= d < |s.calls| ensures CallInv(Step(s, Register(c)), d) {
      RegisterKeepsCall(s, c, d);
    }
  }

  lemma ArriveKeepsInv<R>(s: Exchange<R>, n: int, r: R)
    requires Inv(s) && Enabled(s, Arrive(n, r))
    ensures Inv(Step(s, Arrive(n, r)))
  {
    var t := Step(s, Arrive(n, r));
    forall c | 0 <= c < |t.calls| ensures CallInv(t, c) {
      assert CallInv(s, c);
    }
  }

  lemma TakeKeepsTables<R>(s: Exchange<R>, n: int)
    requires Inv(s) && Enabled(s, Take(n))
    ensures Tables(Step(s, Take(n)))
  {
    var t := Step(s, Take(n));
    PendingLookup(s.pending, n);
    DropKeepsDistinct(s.pending, n);
    match FindPending(s.pending, n)
    case None =>
    case Some(c) =>
      assert CallInv(s, c);
      assert (c, s.answers[n]) !in s.completing;
  }

  lemma TakeKeepsCall<R>(s: Exchange<R>, n: int, d: nat)
    requires Inv(s) && Enabled(s, Take(n)) && d < |s.calls|
    ensures CallInv(Step(s, Take(n)), d)
  {
    var t := Step(s, Take(n));
    PendingLookup(s.pending, n);
    assert CallInv(s, d);
    var m := s.calls[d].seqNo;
    assert Waiting(t, d) <==> Waiting(s, d) && m != n;
    match FindPending(s.pending, n)
    case None =>
      assert m == n ==> !Waiting(s, d);
    case Some(c) =>
      assert s.calls[c].seqNo == n;
      assert m == n <==> d == c;
  }

  lemma TakeKeepsInv<R>(s: Exchange<R>, n: int)
    requires Inv(s) && Enabled(s, Take(n))
    ensures Inv(Step(s, Take(n)))
  {
    TakeKeepsTables(s, n);
    forall d | 0 <= d < |s.calls| ensures CallInv(Step(s, Take(n)), d) {
      TakeKeepsCall(s, n, d);
    }
  }

  lemma RunCompletionKeepsInv<R>(s: Exchange<R>, c: nat, r: R)
    requires Inv(s) && Enabled(s, RunCompletion(c, r))
    ensures Inv(Step(s, RunCompletion(c, r)))
  {
    var t := Step(s, RunCompletion(c, r));
    assert CallInv(s, c);
    forall d | 0 <= d < |t.calls| ensures CallInv(t, d) {
      assert CallInv(s, d);
    }
  }

  lemma StepKeepsInv<R>(s: Exchange<R>, a: Action<R>)
    requires Inv(s)
    ensures Inv(Step(s, a))
  {
    if Enabled(s, a) {
      match a
      case Send(n) => SendKeepsInv(s, n);
      case Register(c) => RegisterKeepsInv(s, c);
      case Arrive(n, r) => ArriveKeepsInv(s, n, r);
      case Take(n) => TakeKeepsInv(s, n);
      case RunCompletion(c, r) => RunCompletionKeepsInv(s, c, r);
    }
  }

  lemma InitInv<R>()
    ensures Inv<R>(Init())
  {
  }

  lemma {:induction false} RunFromKeepsInv<R>(s: Exchange<R>, acts: seq<Action<R>>)
    requires Inv(s)
    ensures Inv(RunFrom(s, acts))
    decreases |acts|
  {
    hide Inv, Step;
    if acts != [] {
      StepKeepsInv(s, acts[0]);
      RunFromKeepsInv(Step(s, acts[0]), acts[1..]);
    }
  }

  lemma RunKeepsInv<R>(acts: seq<Action<R>>)
    ensures Inv(Run(acts))
  {
    hide Inv;
    InitInv<R>();
    RunFromKeepsInv(Init<R>(), acts);
  }

  // ---- What every interleaving guarantees ---------------------------------------------

  function Count(a: bool, b: bool, c: bool, d: bool): nat {
    (if a then 1 else 0) + (if b then 1 else 0) + (if c then 1 else 0) + (if d then 1 else 0)
  }

  /** A sent call is in exactly one of four states: not yet registered, waiting,
    * answered, or dropped. */
  lemma ExactlyOneState<R>(acts: seq<Action<R>>, c: nat)
    requires c < |Run(acts).calls|
    ensures var s := Run(acts);
      Count(!s.calls[c].registered && !Dropped(s, c),
            Waiting(s, c) && !Dropped(s, c),
            Answered(s, c),
            Dropped(s, c)) == 1
  {
    RunKeepsInv(acts);
    assert CallInv(Run(acts), c);
  }

  /** A future is completed only by the response to its own request. */
  lemma OwnResponseOnly<R>(acts: seq<Action<R>>, c: nat)
    requires c < |Run(acts).calls| && Done(Run(acts), c)
    ensures var s := Run(acts);
      s.calls[c].seqNo in s.answers && s.futures[c].value == Option.Some(s.answers[s.calls[c].seqNo])
  {
    RunKeepsInv(acts);
    assert CallInv(Run(acts), c);
  }

  /** Each completion that runs finds its future still open, so none is completed twice. */
  lemma CompletedAtMostOnce<R>(acts: seq<Action<R>>, c: nat, r: R)
    requires Enabled(Run(acts), RunCompletion(c, r))
    ensures !Done(Run(acts), c)
    ensures Step(Run(acts), RunCompletion(c, r)).futures[c].value == Option.Some(r)
  {
    RunKeepsInv(acts);
    assert CallInv(Run(acts), c);
  }

  /** Taking a response drops it exactly when its call is not registered yet;
    * otherwise the call is answered. */
  lemma DroppedExactlyInTheGap<R>(acts: seq<Action<R>>, c: nat)
    requires c < |Run(acts).calls| && Enabled(Run(acts), Take(Run(acts).calls[c].seqNo))
    ensures var s := Run(acts);
      var t := Step(s, Take(s.calls[c].seqNo));
      && (Dropped(t, c) <==> !s.calls[c].registered)
      && (Answered(t, c) <==> s.calls[c].registered)
  {
    var s := Run(acts);
    RunKeepsInv(acts);
    assert CallInv(s, c);
    StepKeepsInv(s, Take(s.calls[c].seqNo));
    assert CallInv(Step(s, Take(s.calls[c].seqNo)), c);
    PendingLookup(s.pending, s.calls[c].seqNo);
  }

  lemma StepKeepsCalls<R>(s: Exchange<R>, a: Action<R>, c: nat)
    requires c < |s.calls|
    ensures var t := Step(s, a);
      && c < |t.calls| && t.calls[c].seqNo == s.calls[c].seqNo
      && (Dropped(s, c) ==> Dropped(t, c))
  {
  }

  lemma {:induction false} RunFromAppend<R>(s: Exchange<R>, acts: seq<Action<R>>, more: seq<Action<R>>)
    ensures RunFrom(s, acts + more) == RunFrom(RunFrom(s, acts), more)
    decreases |acts|
  {
    hide Step;
    if acts == [] {
      assert acts + more == more;
    } else {
      assert (acts + more)[1..] == acts[1..] + more;
      RunFromAppend(Step(s, acts[0]), acts[1..], more);
    }
  }

  lemma {:induction false} StaysDropped<R>(s: Exchange<R>, acts: seq<Action<R>>, c: nat)
    requires c < |s.calls| && Dropped(s, c)
    ensures c < |RunFrom(s, acts).calls| && Dropped(RunFrom(s, acts), c)
    decreases |acts|
  {
    hide Step;
    if acts != [] {
      StepKeepsCalls(s, acts[0], c);
      StaysDropped(Step(s, acts[0]), acts[1..], c);
    }
  }

  /** A dropped call stays dropped: its future never completes, even once the
    * call has been registered and waits. */
  lemma DroppedForever<R>(acts: seq<Action<R>>, more: seq<Action<R>>, c: nat)
    requires c < |Run(acts).calls| && Dropped(Run(acts), c)
    ensures c < |Run(acts + more).calls| && Dropped(Run(acts + more), c) && !Answered(Run(acts + more), c)
  {
    hide RunFrom;
    RunFromAppend(Init<R>(), acts, more);
    StaysDropped(Run(acts), more, c);
    RunKeepsInv(acts + more);
    assert CallInv(Run(acts + more), c);
  }

  /** One call sent, answered, and its response taken before it is registered. */
  ghost function Gap<R>(r: R): Exchange<R> {
    Exchange([Call(0, false)], {0}, [], multiset{}, multiset{}, [State(Option.None, [])], map[0 := r], {0})
  }

  lemma GapReached<R>(r: R)
    ensures Step(Step(Step(Init<R>(), Send(0)), Arrive(0, r)), Take(0)) == Gap(r)
  {
    var s1 := Step(Init<R>(), Send(0));
    assert s1 == Exchange([Call(0, false)], {0}, [], multiset{}, multiset{}, [State(Option.None, [])], map[], {});
    var s2 := Step(s1, Arrive(0, r));
    assert s2.inbox == multiset{0} && s2.answers == map[0 := r];
    var s3 := Step(s2, Take(0));
    assert s3.inbox == multiset{} && s3.pending == [] && s3.dropped == {0};
  }

  lemma RegisteredTooLate<R>(r: R)
    ensures var s := Step(Gap(r), Register(0));
      |s.calls| == 1 && s.calls[0].registered && Dropped(s, 0) && Waiting(s, 0) && !Done(s, 0)
  {
    assert Step(Gap(r), Register(0)).pending == [(0, 0)];
    assert (0, 0) in [(0, 0)];
  }

  lemma RunFrom4<R>(s: Exchange<R>, a: Action<R>, b: Action<R>, c: Action<R>, d: Action<R>)
    ensures RunFrom(s, [a, b, c, d]) == Step(Step(Step(Step(s, a), b), c), d)
  {
    hide Step;
    assert [a, b, c, d][1..] == [b, c, d] && [b, c, d][1..] == [c, d] && [c, d][1..] == [d] && [d][1..] == [];
    assert RunFrom(Step(s, a), [b, c, d]) == RunFrom(Step(Step(s, a), b), [c, d]);
    assert RunFrom(Step(Step(s, a), b), [c, d]) == RunFrom(Step(Step(Step(s, a), b), c), [d]);
    assert RunFrom(Step(Step(Step(s, a), b), c), [d]) == RunFrom(Step(Step(Step(Step(s, a), b), c), d), []);
  }

  /** The gap is real: a response taken between sending a request and registering
    * its call is dropped, and the call then waits. */
  lemma ResponseCanBeDropped<R>(r: R) returns (acts: seq<Action<R>>)
    ensures var s := Run(acts);
      |s.calls| == 1 && s.calls[0].registered && Dropped(s, 0) && Waiting(s, 0) && !Done(s, 0)
  {
    hide Step, RunFrom;
    acts := [Send(0), Arrive(0, r), Take(0), Register(0)];
    RunFrom4(Init<R>(), Send(0), Arrive(0, r), Take(0), Register(0));
    GapReached(r);
    RegisteredTooLate(r);
  }

  lemma {:induction false} FindsAppended(pending: Pending, n: int, c: nat)
    requires forall d :: (n, d) !in pending
    ensures FindPending(pending + [(n, c)], n) == Option.Some(c)
  {
    if pending == [] {
      assert pending + [(n, c)] == [(n, c)];
    } else {
      assert pending[0] in pending && pending[0] == (pending[0].0, pending[0].1);
      assert (pending + [(n, c)])[1..] == pending[1..] + [(n, c)];
      FindsAppended(pending[1..], n, c);
    }
  }

  lemma SentAndRegistered<R>(s: Exchange<R>, n: int)
    requires Tables(s) && n !in s.sent
    ensures var c := |s.calls|;
      var u := Step(Step(s, Send(n)), Register(c));
      && u.calls == s.calls + [Call(n, true)] && u.pending == s.pending + [(n, c)] && u.sent == s.sent + {n}
      && u.futures == s.futures + [State(Option.None, [])] && u.completing == s.completing
      && u.answers == s.answers && u.inbox == s.inbox
      && forall d :: (n, d) !in s.pending
  {
  }

  lemma AnsweredAndTaken<R>(s: Exchange<R>, n: int, c: nat, r: R)
    requires n in s.sent && n !in s.answers && FindPending(s.pending, n) == Option.Some(c)
    ensures var u := Step(Step(s, Arrive(n, r)), Take(n));
      (c, r) in u.completing && u.futures == s.futures && u.calls == s.calls
  {
  }

  lemma Completes<R>(s: Exchange<R>, c: nat, r: R)
    requires (c, r) in s.completing && c < |s.futures| && s.futures[c].value.None?
    ensures var u := Step(s, RunCompletion(c, r));
      |u.futures| == |s.futures| && u.futures[c].value == Option.Some(r) && u.calls == s.calls
  {
  }

  /** A call is answered: sent, registered, replied to, the reply taken and its completion
    * run, whatever came before, its future holds the reply. */
  lemma CallRoundTrip<R>(acts: seq<Action<R>>, n: int, r: R)
    requires n !in Run(acts).sent
    ensures var s := Run(acts);
      var c := |s.calls|;
      var u := Step(Step(Step(Step(Step(s, Send(n)), Register(c)), Arrive(n, r)), Take(n)), RunCompletion(c, r));
      && |u.calls| == c + 1 && u.calls[c] == Call(n, true)
      && |u.futures| == c + 1 && u.futures[c].value == Option.Some(r)
  {
    hide Run, Step;
    var s := Run(acts);
    var c := |s.calls|;
    RunKeepsInv(acts);
    SentAndRegistered(s, n);
    FindsAppended(s.pending, n, c);
    var t := Step(Step(s, Send(n)), Register(c));
    AnsweredAndTaken(t, n, c, r);
    Completes(Step(Step(t, Arrive(n, r)), Take(n)), c, r);
  }
}
