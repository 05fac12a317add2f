/** What a signal or a shutdown has done when it is over, whatever ran beside it: its
  * contexts are down, and every guard listed with them has been triggered. */
module ShutdownEffects {
  import opened Options
  import opened Sequences
  import opened SwapTables
  import opened ShutdownGuards

  /** Torn down or shut down. */
  predicate Down(s: Sys, c: nat) {
    c < |s.ctxs| && !(s.ctxs[c].valid && s.ctxs[c].up)
  }

  /** No context comes up again, no trigger is taken back, and nothing is created in place. */
  ghost predicate Declines(s: Sys, t: Sys) {
    && |t.ctxs| >= |s.ctxs| && |t.guards| >= |s.guards| && |t.calls| >= |s.calls|
    && (forall c :: 0 <= c < |s.ctxs| ==>
          (t.ctxs[c].valid ==> s.ctxs[c].valid) && (t.ctxs[c].up ==> s.ctxs[c].up))
    && (forall g :: 0 <= g < |s.guards| ==>
          && t.guards[g].ctx == s.guards[g].ctx
          && (s.guards[g].triggered ==> t.guards[g].triggered) && (s.guards[g].finied ==> t.guards[g].finied))
  }

  lemma TriggeringDeclines(s: Sys, g: nat)
    ensures Declines(s, Triggering(s, g)) && Triggering(s, g) == s.(guards := Triggering(s, g).guards)
  {
  }

  lemma CallDeclines(s: Sys, i: nat)
    requires Enabled(s, CallStep(i))
    ensures Declines(s, StepCall(s, i))
  {
    hide GiveBack, Triggering;
    if s.calls[i].ShutIn? && s.calls[i].next < |s.ctxs[s.calls[i].ctx].list| {
      TriggeringDeclines(s, s.ctxs[s.calls[i].ctx].list[s.calls[i].next]);
    }
  }

  lemma SignalDeclines(s: Sys)
    requires Enabled(s, SignalStep)
    ensures Declines(s, StepSignal(s))
  {
  }

  lemma TearDeclines(s: Sys)
    requires Enabled(s, TearStep)
    ensures Declines(s, StepTear(s))
  {
    hide SwapRemove;
  }

  lemma StepDeclines(s: Sys, a: Action)
    ensures Declines(s, Step(s, a))
  {
    hide StepCall, StepSignal, StepTear, More, Fewer, Count;
    if Enabled(s, a) {
      match a
      case CallStep(i) => CallDeclines(s, i);
      case SignalStep => SignalDeclines(s);
      case TearStep => TearDeclines(s);
      case _ =>
    }
  }

  // ---- The signal thread's walk ------------------------------------------------------------

  /** How many contexts of the table the signal thread is past. */
  function Passed(sig: Sig): nat {
    match sig
    case Asleep => 0
    case Walk(i) => i
    case Look(i) => i
    case Trigger(i, _) => i + 1
  }

  /** Every context the walk is past is down. */
  ghost predicate WalkedDown(s: Sys) {
    forall j :: 0 <= j < Passed(s.sig) && j < |s.table| ==> Down(s, s.table[j])
  }

  /** While the signal thread walks, it has the table lock, and the table stays. */
  lemma TableStays(s: Sys, a: Action)
    requires TablesOk(s) && !s.sig.Asleep?
    ensures Step(s, a).table == s.table
  {
    hide Distinct, CtxOk, GuardOk, SwapRemove;
    if a.CallStep? && Enabled(s, a) {
      assert CallOk(s, a.call);
    }
  }

  lemma SignalStepWalks(s: Sys)
    requires TablesOk(s) && WalkedDown(s) && Enabled(s, SignalStep)
    ensures WalkedDown(Step(s, SignalStep))
    ensures !s.sig.Asleep? && Step(s, SignalStep).sig.Asleep? ==>
      forall c :: c in s.table ==> Down(Step(s, SignalStep), c)
  {
    hide Distinct, CtxOk, GuardOk, CallOk;
    StepDeclines(s, SignalStep);
  }

  lemma OtherStepKeepsSig(s: Sys, a: Action)
    requires !a.SignalStep?
    ensures Step(s, a).sig == s.sig
  {
    hide SwapRemove;
  }

  lemma Idle(s: Sys, a: Action)
    requires !Enabled(s, a)
    ensures Step(s, a) == s
  {
  }

  lemma StepKeepsWalked(s: Sys, a: Action)
    requires TablesOk(s) && WalkedDown(s)
    ensures WalkedDown(Step(s, a))
  {
    hide TablesOk, Step, Enabled;
    if a.SignalStep? && Enabled(s, a) {
      SignalStepWalks(s);
    } else {
      StepDeclines(s, a);
      if a.SignalStep? {
        Idle(s, a);
      } else {
        OtherStepKeepsSig(s, a);
      }
      if !s.sig.Asleep? {
        TableStays(s, a);
      }
    }
  }

  lemma {:induction false} RunIsWalked(s: Sys, acts: seq<Action>)
    requires Inv(s) && WalkedDown(s)
    ensures WalkedDown(RunFrom(s, acts))
    decreases |acts|
  {
    hide Step, WalkedDown, TablesOk, RefsOk;
    if acts != [] {
      StepKeepsWalked(s, acts[0]);
      StepKeepsInv(s, acts[0]);
      RunIsWalked(Step(s, acts[0]), acts[1..]);
    }
  }

  /** In every run, all contexts that the signal thread is past in its walk are down,
    * and when its round ends, every context of the table is. */
  lemma RoundTakesDown(acts: seq<Action>)
    ensures var s := Run(acts);
      && (forall j :: 0 <= j < Passed(s.sig) && j < |s.table| ==> Down(s, s.table[j]))
      && (Enabled(s, SignalStep) && !s.sig.Asleep? && Step(s, SignalStep).sig.Asleep? ==>
            forall c :: c in s.table ==> Down(Step(s, SignalStep), c))
  {
    hide TablesOk, RefsOk, Step, RunFrom, Enabled;
    InitInv();
    RunIsWalked(Init(), acts);
    RunKeepsInv(acts);
    var s := Run(acts);
    if Enabled(s, SignalStep) {
      SignalStepWalks(s);
    }
  }

  /** The round under way will take c down, or has. */
  ghost predicate InRound(s: Sys, c: nat) {
    Down(s, c) || (!s.sig.Asleep? && c in s.table && WalkedDown(s))
  }

  lemma DownStays(s: Sys, a: Action, c: nat)
    requires Down(s, c)
    ensures Down(Step(s, a), c)
  {
    hide Step;
    StepDeclines(s, a);
  }

  lemma StepKeepsInRound(s: Sys, a: Action, c: nat)
    requires TablesOk(s) && InRound(s, c)
    ensures InRound(Step(s, a), c)
  {
    hide TablesOk, Step, Enabled, WalkedDown, Down;
    if Down(s, c) {
      DownStays(s, a, c);
    } else {
      StepKeepsWalked(s, a);
      TableStays(s, a);
      if !a.SignalStep? {
        OtherStepKeepsSig(s, a);
      } else if Enabled(s, a) {
        SignalStepWalks(s);
      } else {
        Idle(s, a);
      }
    }
  }

  lemma {:induction false} RunKeepsInRound(s: Sys, acts: seq<Action>, c: nat)
    requires Inv(s) && InRound(s, c)
    ensures InRound(RunFrom(s, acts), c)
    decreases |acts|
  {
    hide Step, InRound, TablesOk, RefsOk;
    if acts != [] {
      StepKeepsInRound(s, acts[0], c);
      StepKeepsInv(s, acts[0]);
      RunKeepsInRound(Step(s, acts[0]), acts[1..], c);
    }
  }

  lemma WakeStarts(s: Sys, c: nat)
    requires s.sig.Asleep? && Enabled(s, SignalStep) && c in s.table
    ensures InRound(Step(s, SignalStep), c)
  {
  }

  lemma {:induction false} RunFromAppend(s: Sys, acts: seq<Action>, more: seq<Action>)
    ensures RunFrom(s, acts + more) == RunFrom(RunFrom(s, acts), more)
    decreases |acts|
  {
    hide Step;
    if acts == [] {
      assert acts + more == more;
    } else {
      assert (acts + more)[1..] == acts[1..] + more;
      RunFromAppend(Step(s, acts[0]), acts[1..], more);
    }
  }

  /** A run, one more step, and what follows. */
  lemma RunOn(acts: seq<Action>, a: Action, more: seq<Action>)
    ensures Run(acts + [a] + more) == RunFrom(Step(Run(acts), a), more)
  {
    hide Step;
    RunFromAppend(Init(), acts, [a] + more);
    assert acts + [a] + more == acts + ([a] + more);
    assert ([a] + more)[1..] == more;
  }

  lemma InRoundAtEnd(s: Sys, c: nat)
    requires InRound(s, c) && s.sig.Asleep?
    ensures Down(s, c)
  {
  }

  /** A signal takes effect.  Once the signal thread is woken, whenever it is asleep
    * again every context that was in the table then is down, for good. */
  lemma SignalTakesEffect(acts: seq<Action>, c: nat, more: seq<Action>)
    requires Run(acts).sig.Asleep? && Run(acts).tableLock.Nobody? && c in Run(acts).table
    ensures var v := Run(acts + [SignalStep] + more);
      v.sig.Asleep? ==> Down(v, c)
  {
    hide Run, Step, RunFrom, InRound, TablesOk, RefsOk;
    var s := Run(acts);
    RunKeepsInv(acts);
    WakeStarts(s, c);
    StepKeepsInv(s, SignalStep);
    RunKeepsInRound(Step(s, SignalStep), more, c);
    RunOn(acts, SignalStep, more);
    if Run(acts + [SignalStep] + more).sig.Asleep? {
      InRoundAtEnd(Run(acts + [SignalStep] + more), c);
    }
  }

  // ---- Whom a shutdown wakes ------------------------------------------------------------

  predicate Listed(s: Sys, c: nat, g: nat) {
    c < |s.ctxs| && g in s.ctxs[c].list
  }

  predicate Triggered(s: Sys, g: nat) {
    g < |s.guards| && s.guards[g].triggered
  }

  predicate Shuts(call: Call, c: nat) {
    (call.ShutWant? || call.ShutIn?) && call.ctx == c
  }

  ghost predicate ShutUnderWay(s: Sys, c: nat) {
    exists i :: 0 <= i < |s.calls| && Shuts(s.calls[i], c)
  }

  predicate SignalAt(s: Sys, c: nat) {
    s.sig.Trigger? && s.sig.i < |s.table| && s.table[s.sig.i] == c
  }

  /** The guard once found room in the list of c. */
  predicate Member(s: Sys, c: nat, g: nat) {
    g < |s.guards| && s.guards[g].ctx == c && s.guards[g].admitted
  }

  lemma ListedIsMember(s: Sys, c: nat, g: nat)
    requires TablesOk(s) && Listed(s, c, g)
    ensures Member(s, c, g)
  {
    hide GuardOk, CallOk, Distinct;
    assert CtxOk(s, c) && Entry(s, c, g);
  }

  lemma AddingIsNoMember(s: Sys, i: nat)
    requires TablesOk(s) && i < |s.calls| && s.calls[i].AddIn?
    ensures s.calls[i].guard < |s.guards| && s.calls[i].ctx < |s.ctxs|
    ensures !s.guards[s.calls[i].guard].admitted && s.calls[i].guard !in s.ctxs[s.calls[i].ctx].list
  {
    hide Distinct;
    assert CallOk(s, i);
    assert CtxOk(s, s.calls[i].ctx) && GuardOk(s, s.calls[i].guard);
  }

  lemma CallStepBack(s: Sys, i: nat, c: nat, g: nat)
    requires TablesOk(s) && Member(s, c, g) && Enabled(s, CallStep(i))
    ensures Member(Step(s, CallStep(i)), c, g)
    ensures Listed(Step(s, CallStep(i)), c, g) ==> Listed(s, c, g)
  {
    hide TablesOk;
    if s.calls[i].AddIn? {
      AddingIsNoMember(s, i);
    }
  }

  lemma TearStepBack(s: Sys, c: nat, g: nat)
    requires TablesOk(s) && Member(s, c, g) && Enabled(s, TearStep)
    ensures Member(Step(s, TearStep), c, g)
    ensures Listed(Step(s, TearStep), c, g) ==> Listed(s, c, g)
  {
    hide SwapRemove, GuardOk, CallOk, Distinct;
    if s.tear.GuardIn? {
      var x := s.guards[s.tear.guard].ctx;
      assert CtxOk(s, x);
      RemovesFromDistinct(s.ctxs[x].list, s.tear.guard);
    }
  }

  /** A member that is listed after a step was listed before it. */
  lemma ListedBack(s: Sys, a: Action, c: nat, g: nat)
    requires TablesOk(s) && Member(s, c, g)
    ensures Member(Step(s, a), c, g)
    ensures Listed(Step(s, a), c, g) ==> Listed(s, c, g)
  {
    hide StepCall, StepTear, CtxOk, CallOk;
    assert GuardOk(s, g);
    if Enabled(s, a) {
      match a
      case CallStep(i) => CallStepBack(s, i, c, g);
      case TearStep => TearStepBack(s, c, g);
      case _ =>
    }
  }

  /** A listed guard has been triggered, or its context is up, or somebody shutting the
    * context down has still to reach it. */
  ghost predicate Woken(s: Sys, c: nat, g: nat) {
    Listed(s, c, g) ==> Triggered(s, g) || s.ctxs[c].up || ShutUnderWay(s, c) || SignalAt(s, c)
  }

  lemma CallsElsewhere(s: Sys, i: nat, j: nat)
    requires Enabled(s, CallStep(i)) && j < |s.calls| && j != i
    ensures |Step(s, CallStep(i)).calls| == |s.calls| && Step(s, CallStep(i)).calls[j] == s.calls[j]
  {
  }

  lemma ShutGoesOn(s: Sys, i: nat)
    requires Enabled(s, CallStep(i)) && (s.calls[i].ShutWant? || s.calls[i].ShutIn?)
    requires s.calls[i].ShutIn? ==> s.calls[i].next < |s.ctxs[s.calls[i].ctx].list|
    ensures var t := Step(s, CallStep(i)); i < |t.calls| && t.calls[i].ShutIn? && t.calls[i].ctx == s.calls[i].ctx
  {
  }

  lemma CallStepWakes(s: Sys, i: nat, c: nat, g: nat)
    requires TablesOk(s) && Enabled(s, CallStep(i)) && Listed(s, c, g) && ShutUnderWay(s, c)
    ensures Triggered(Step(s, CallStep(i)), g) || ShutUnderWay(Step(s, CallStep(i)), c)
  {
    hide CtxOk, GuardOk, Distinct, Triggering;
    var j :| 0 <= j < |s.calls| && Shuts(s.calls[j], c);
    var t := Step(s, CallStep(i));
    TriggeringFrames(s, 0);
    if j != i {
      CallsElsewhere(s, i, j);
    } else {
      assert CallOk(s, i);
      if s.calls[i].ShutIn? && s.calls[i].next >= |s.ctxs[c].list| {
        var k :| 0 <= k < |s.ctxs[c].list| && s.ctxs[c].list[k] == g;
      } else {
        ShutGoesOn(s, i);
      }
    }
  }

  lemma SignalStepWakes(s: Sys, c: nat, g: nat)
    requires TablesOk(s) && Enabled(s, SignalStep) && Listed(s, c, g) && (SignalAt(s, c) || s.ctxs[c].up)
    ensures var t := Step(s, SignalStep);
      Triggered(t, g) || (c < |t.ctxs| && t.ctxs[c].up) || SignalAt(t, c)
  {
    hide CtxOk, GuardOk, CallOk, Distinct;
    if s.sig.Trigger? && SignalAt(s, c) && s.sig.next >= |s.ctxs[c].list| {
      var k :| 0 <= k < |s.ctxs[c].list| && s.ctxs[c].list[k] == g;
    }
  }

  lemma CallsLeaveUp(s: Sys, i: nat, c: nat)
    requires Enabled(s, CallStep(i)) && c < |s.ctxs|
    ensures |StepCall(s, i).ctxs| == |s.ctxs| && StepCall(s, i).ctxs[c].up == s.ctxs[c].up
  {
    hide GiveBack;
  }

  /** Only a shutdown, the signal thread, or the end of its teardown takes a context down. */
  lemma OthersLeaveUp(s: Sys, a: Action, c: nat)
    requires TablesOk(s) && c < |s.ctxs| && s.ctxs[c].up && !a.SignalStep?
    ensures var t := Step(s, a); c < |t.ctxs| && (t.ctxs[c].up || ShutUnderWay(t, c) || t.ctxs[c].list == [])
  {
    hide GuardOk, CallOk, Distinct, SwapRemove, More, Fewer, Count, StepCall;
    if a == Shutdown(c) && Enabled(s, a) {
      assert Shuts(Step(s, a).calls[|s.calls|], c);
    }
    if a.CallStep? && Enabled(s, a) {
      CallsLeaveUp(s, a.call, c);
    }
    assert CtxOk(s, c);
  }

  /** While the signal thread is at a context, nobody else moves it on. */
  lemma OthersLeaveSignal(s: Sys, a: Action, c: nat)
    requires TablesOk(s) && SignalAt(s, c) && !a.SignalStep?
    ensures SignalAt(Step(s, a), c)
  {
    hide TablesOk, Step;
    OtherStepKeepsSig(s, a);
    TableStays(s, a);
  }

  lemma OthersLeaveShut(s: Sys, a: Action, c: nat)
    requires ShutUnderWay(s, c) && !a.CallStep?
    ensures ShutUnderWay(Step(s, a), c)
  {
    hide SwapRemove;
    var j :| 0 <= j < |s.calls| && Shuts(s.calls[j], c);
    assert Shuts(Step(s, a).calls[j], c);
  }

  lemma StepKeepsWoken(s: Sys, a: Action, c: nat, g: nat)
    requires TablesOk(s) && Member(s, c, g) && Woken(s, c, g)
    ensures Member(Step(s, a), c, g) && Woken(Step(s, a), c, g)
  {
    hide TablesOk, Step, ShutUnderWay, SignalAt, Enabled;
    var t := Step(s, a);
    ListedBack(s, a, c, g);
    StepDeclines(s, a);
    if !Enabled(s, a) {
      Idle(s, a);
    } else if Listed(t, c, g) && !Triggered(s, g) {
      if s.ctxs[c].up {
        if a.SignalStep? {
          SignalStepWakes(s, c, g);
        } else {
          OthersLeaveUp(s, a, c);
        }
      } else if SignalAt(s, c) {
        if a.SignalStep? {
          SignalStepWakes(s, c, g);
        } else {
          OthersLeaveSignal(s, a, c);
        }
      } else if a.CallStep? {
        CallStepWakes(s, a.call, c, g);
      } else {
        OthersLeaveShut(s, a, c);
      }
    }
  }

  lemma {:induction false} RunKeepsWoken(s: Sys, acts: seq<Action>, c: nat, g: nat)
    requires Inv(s) && Member(s, c, g) && Woken(s, c, g)
    ensures Member(RunFrom(s, acts), c, g) && Woken(RunFrom(s, acts), c, g)
    decreases |acts|
  {
    hide Step, Woken, TablesOk, RefsOk;
    if acts != [] {
      StepKeepsWoken(s, acts[0], c, g);
      StepKeepsInv(s, acts[0]);
      RunKeepsWoken(Step(s, acts[0]), acts[1..], c, g);
    }
  }

  lemma RunSplit(acts: seq<Action>, more: seq<Action>)
    ensures Run(acts + more) == RunFrom(Run(acts), more)
  {
    hide Step;
    RunFromAppend(Init(), acts, more);
  }

  /** A shutdown leaves nobody waiting.  A guard that was in its context's list while
    * the context was up has been triggered as soon as the context is down and nobody is
    * still at work shutting it down, whichever way it went down and whatever ran
    * beside it, unless the guard has left the list to be torn down. */
  lemma DownMeansTriggered(acts: seq<Action>, c: nat, g: nat, more: seq<Action>)
    requires Listed(Run(acts), c, g) && Run(acts).ctxs[c].up
    ensures var v := Run(acts + more);
      Listed(v, c, g) && !v.ctxs[c].up && !ShutUnderWay(v, c) && !SignalAt(v, c) ==> Triggered(v, g)
  {
    hide Run, RunFrom, TablesOk, RefsOk, Listed;
    RunKeepsInv(acts);
    ListedIsMember(Run(acts), c, g);
    RunKeepsWoken(Run(acts), more, c, g);
    RunSplit(acts, more);
  }

  lemma ListedIsValid(s: Sys, c: nat, g: nat)
    requires TablesOk(s) && Listed(s, c, g)
    ensures s.ctxs[c].valid
  {
    hide GuardOk, CallOk, Distinct;
    assert CtxOk(s, c);
  }

  /** So a signal wakes everybody: once the round is over, every guard that was listed
    * with a context of the table, and still is, has been triggered, unless a shutdown
    * called by the program is still at it. */
  lemma SignalTriggersAll(acts: seq<Action>, c: nat, g: nat, more: seq<Action>)
    requires Run(acts).sig.Asleep? && Run(acts).tableLock.Nobody? && c in Run(acts).table
    requires Listed(Run(acts), c, g) && Run(acts).ctxs[c].up
    ensures var v := Run(acts + [SignalStep] + more);
      v.sig.Asleep? && Listed(v, c, g) && !ShutUnderWay(v, c) ==> Triggered(v, g)
  {
    hide Run, TablesOk, RefsOk;
    var v := Run(acts + [SignalStep] + more);
    SignalTakesEffect(acts, c, more);
    DownMeansTriggered(acts, c, g, [SignalStep] + more);
    assert acts + [SignalStep] + more == acts + ([SignalStep] + more);
    RunKeepsInv(acts + [SignalStep] + more);
    if Listed(v, c, g) {
      ListedIsValid(v, c, g);
    }
  }

  // ---- A shutdown called by the program ------------------------------------------------------------

  /** Call i is shutting c down, or has triggered g. */
  ghost predicate Shutting(s: Sys, i: nat, c: nat, g: nat) {
    && i < |s.calls| && c < |s.ctxs| && !s.ctxs[c].up
    && (Listed(s, c, g) ==> Triggered(s, g) || Shuts(s.calls[i], c))
  }

  lemma OwnStepShuts(s: Sys, i: nat, c: nat, g: nat)
    requires TablesOk(s) && Enabled(s, CallStep(i)) && Listed(s, c, g) && Shuts(s.calls[i], c)
    ensures var t := Step(s, CallStep(i)); i < |t.calls| && (Triggered(t, g) || Shuts(t.calls[i], c))
  {
    hide CtxOk, GuardOk, Distinct, Triggering;
    assert CallOk(s, i);
    if s.calls[i].ShutIn? && s.calls[i].next >= |s.ctxs[c].list| {
      var k :| 0 <= k < |s.ctxs[c].list| && s.ctxs[c].list[k] == g;
    } else {
      ShutGoesOn(s, i);
    }
  }

  lemma OthersLeaveCall(s: Sys, a: Action, i: nat)
    requires i < |s.calls| && a != CallStep(i)
    ensures i < |Step(s, a).calls| && Step(s, a).calls[i] == s.calls[i]
  {
    hide StepCall, SwapRemove, More, Fewer, Count;
    if a.CallStep? && Enabled(s, a) {
      CallsElsewhere(s, a.call, i);
    }
  }

  lemma StepKeepsShutting(s: Sys, a: Action, i: nat, c: nat, g: nat)
    requires TablesOk(s) && Member(s, c, g) && Shutting(s, i, c, g)
    ensures Member(Step(s, a), c, g) && Shutting(Step(s, a), i, c, g)
  {
    hide TablesOk, Step, Enabled;
    ListedBack(s, a, c, g);
    StepDeclines(s, a);
    if !Enabled(s, a) {
      Idle(s, a);
    } else if a != CallStep(i) {
      OthersLeaveCall(s, a, i);
    } else if Listed(s, c, g) && !Triggered(s, g) {
      OwnStepShuts(s, i, c, g);
    }
  }

  lemma {:induction false} RunKeepsShutting(s: Sys, acts: seq<Action>, i: nat, c: nat, g: nat)
    requires Inv(s) && Member(s, c, g) && Shutting(s, i, c, g)
    ensures Shutting(RunFrom(s, acts), i, c, g)
    decreases |acts|
  {
    hide Step, Shutting, TablesOk, RefsOk;
    if acts != [] {
      StepKeepsShutting(s, acts[0], i, c, g);
      StepKeepsInv(s, acts[0]);
      RunKeepsShutting(Step(s, acts[0]), acts[1..], i, c, g);
    }
  }

  lemma ShutdownStarts(s: Sys, c: nat, g: nat)
    requires Enabled(s, Shutdown(c)) && Listed(s, c, g) && s.ctxs[c].up
    ensures Shutting(Step(s, Shutdown(c)), |s.calls|, c, g)
  {
  }

  /** A shutdown called by the program takes the context down at once and for good, and
    * when the call has returned, every guard that was listed before it, and still is,
    * has been triggered. */
  lemma ShutdownTakesEffect(acts: seq<Action>, c: nat, g: nat, more: seq<Action>)
    requires NamedCtx(Run(acts), c) && Run(acts).ctxs[c].valid && Run(acts).ctxs[c].up && Listed(Run(acts), c, g)
    ensures var i := |Run(acts).calls|;
      var v := Run(acts + [Shutdown(c)] + more);
      && i < |v.calls| && c < |v.ctxs| && !v.ctxs[c].up
      && (v.calls[i].Returned? && Listed(v, c, g) ==> Triggered(v, g))
  {
    hide Run, RunFrom, Step, TablesOk, RefsOk, Member;
    var s := Run(acts);
    RunKeepsInv(acts);
    ListedIsMember(s, c, g);
    ListedBack(s, Shutdown(c), c, g);
    ShutdownStarts(s, c, g);
    StepKeepsInv(s, Shutdown(c));
    RunKeepsShutting(Step(s, Shutdown(c)), more, |s.calls|, c, g);
    RunOn(acts, Shutdown(c), more);
  }

  lemma {:induction false} StaysDown(s: Sys, acts: seq<Action>, c: nat)
    requires c < |s.ctxs| && !s.ctxs[c].up
    ensures c < |RunFrom(s, acts).ctxs| && !RunFrom(s, acts).ctxs[c].up
    decreases |acts|
  {
    hide Step;
    if acts != [] {
      StepDeclines(s, acts[0]);
      StaysDown(Step(s, acts[0]), acts[1..], c);
    }
  }

  /** Also one with no guard listed takes the context down for good. */
  lemma ShutdownTakesDown(acts: seq<Action>, c: nat, more: seq<Action>)
    requires NamedCtx(Run(acts), c) && Run(acts).ctxs[c].valid
    ensures var v := Run(acts + [Shutdown(c)] + more); c < |v.ctxs| && !v.ctxs[c].up
  {
    hide Run, RunFrom;
    RunOn(acts, Shutdown(c), more);
    StaysDown(Step(Run(acts), Shutdown(c)), more, c);
  }

  // ---- Registration and references ------------------------------------------------------------

  lemma JoinsStep(s: Sys, i: nat)
    requires TablesOk(s) && Enabled(s, CallStep(i))
    ensures var t := Step(s, CallStep(i));
      && i < |t.calls|
      && (s.calls[i].AddIn? ==>
            && t.calls[i].Returned?
            && (Listed(t, s.calls[i].ctx, s.calls[i].guard) <==> |s.ctxs[s.calls[i].ctx].list| < 32))
      && (s.calls[i].RegisterIn? ==>
            && t.calls[i].Returned? && NamedCtx(t, s.calls[i].ctx)
            && (s.calls[i].ctx in t.table <==> |s.table| < 64))
  {
    hide CtxOk, GuardOk, Distinct;
    assert CallOk(s, i);
    if s.calls[i].AddIn? {
      AddingIsNoMember(s, i);
    }
  }

  /** A guard being registered joins the list exactly if there is room for it, a
    * context the table; the call returns either way. */
  lemma JoinsIfRoom(acts: seq<Action>, i: nat)
    requires Enabled(Run(acts), CallStep(i))
    ensures var s, t := Run(acts), Step(Run(acts), CallStep(i));
      && i < |t.calls|
      && (s.calls[i].AddIn? ==>
            && t.calls[i].Returned?
            && (Listed(t, s.calls[i].ctx, s.calls[i].guard) <==> |s.ctxs[s.calls[i].ctx].list| < 32))
      && (s.calls[i].RegisterIn? ==>
            && t.calls[i].Returned? && NamedCtx(t, s.calls[i].ctx)
            && (s.calls[i].ctx in t.table <==> |s.table| < 64))
  {
    hide Run, TablesOk, RefsOk;
    RunKeepsInv(acts);
    JoinsStep(Run(acts), i);
  }

  lemma MoreThenFewer(m: map<nat, nat>, k: nat)
    requires Count(m, k) > 0
    ensures Fewer(More(m, k), k) == m && Count(More(m, k), k) == Count(m, k) + 1
  {
  }

  /** Copying a reference and dropping the copy changes nothing. */
  lemma CopyThenDrop(acts: seq<Action>, c: nat, g: nat)
    ensures var s := Run(acts);
      && (NamedCtx(s, c) ==>
            var t := Step(s, HoldContext(c));
            Count(t.refs.ctxExt, c) == Count(s.refs.ctxExt, c) + 1 && Step(t, DropContext(c)) == s)
      && (NamedGuard(s, g) ==>
            var t := Step(s, HoldGuard(g));
            Count(t.refs.guardExt, g) == Count(s.refs.guardExt, g) + 1 && Step(t, DropGuard(g)) == s)
  {
    hide Run;
    var s := Run(acts);
    CountsAreExact(acts, c, g);
    if NamedCtx(s, c) {
      MoreThenFewer(s.refs.ctx, c);
      MoreThenFewer(s.refs.ctxExt, c);
    }
    if NamedGuard(s, g) {
      MoreThenFewer(s.refs.guard, g);
      MoreThenFewer(s.refs.guardExt, g);
    }
  }

  // ---- One whole life ------------------------------------------------------------

  /** A context and its guard, both made and registered. */
  const MADE: Sys := Sys(
    [Ctx(true, true, false, [0], 0, true)], [Guard(0, true, false, Some(1), true, false)], [0], Nobody, Nobody,
    [Returned, Returned], Asleep, Rest, Refs(map[0 := 2], map[0 := 1], map[0 := 1], map[0 := 1], {}))

  /** After a signal. */
  const SIGNALLED: Sys := MADE.(
    ctxs := [Ctx(true, false, false, [0], 0, true)], guards := [Guard(0, true, false, Some(1), true, true)])

  /** The guard dropped and finalized, its reference to the context released. */
  const GUARD_GONE: Sys := SIGNALLED.(
    ctxs := [Ctx(true, false, false, [], 0, true)], guards := [Guard(0, false, true, Some(1), true, true)],
    refs := Refs(map[0 := 1], map[0 := 1], map[0 := 0], map[0 := 0], {0}))

  const ALL_GONE: Sys := GUARD_GONE.(
    ctxs := [Ctx(false, false, true, [], 0, true)], table := [],
    refs := Refs(map[0 := 0], map[0 := 0], map[0 := 0], map[0 := 0], {0}))

  const MAKE_CONTEXT: seq<Action> := [NewContext, CallStep(0), CallStep(0)]
  const MAKE_GUARD: seq<Action> := [NewGuard(0), AddGuard(0, 0)]
  const ADD_GUARD: seq<Action> := [CallStep(1), CallStep(1)]
  const SIGNAL: seq<Action> := [SignalStep, SignalStep, SignalStep, SignalStep, SignalStep, SignalStep]
  const DROP_GUARD: seq<Action> := [DropGuard(0), TearGuard(0)]
  const END_GUARD: seq<Action> := [TearStep, TearStep, TearStep, ReleaseContext(0)]
  const DROP_CONTEXT: seq<Action> := [DropContext(0), TearContext(0)]
  const END_CONTEXT: seq<Action> := [TearStep, TearStep, TearStep]

  /** The states a run goes through. */
  lemma {:induction false} Follow(path: seq<Sys>, acts: seq<Action>)
    requires |path| == |acts| + 1 && forall i :: 0 <= i < |acts| ==> Step(path[i], acts[i]) == path[i + 1]
    ensures RunFrom(path[0], acts) == path[|acts|]
  {
    hide Step;
    if acts != [] {
      Follow(path[1..], acts[1..]);
    }
  }

  const CONTEXT_MADE: Sys := Sys(
    [Ctx(true, true, false, [], 0, true)], [], [0], Nobody, Nobody, [Returned], Asleep, Rest,
    Refs(map[0 := 1], map[0 := 1], map[], map[], {}))

  lemma MakesContext()
    ensures RunFrom(Init(), MAKE_CONTEXT) == CONTEXT_MADE
  {
    var s1 := Sys([Ctx(true, true, false, [], 0, false)], [], [], Nobody, Nobody, [RegisterWant(0)], Asleep, Rest,
                  Refs(map[0 := 1], map[], map[], map[], {}));
    var s2 := s1.(calls := [RegisterIn(0)], tableLock := Caller(0));
    Follow([Init(), s1, s2, CONTEXT_MADE], MAKE_CONTEXT);
  }

  const GUARD_ADDING: Sys := CONTEXT_MADE.(
    guards := [Guard(0, true, false, Some(1), false, false)], calls := [Returned, AddWant(0, 0)],
    refs := Refs(map[0 := 2], map[0 := 0], map[0 := 1], map[0 := 0], {}))

  lemma MakesGuard()
    ensures RunFrom(CONTEXT_MADE, MAKE_GUARD) == GUARD_ADDING
  {
    var s1 := CONTEXT_MADE.(
      guards := [Guard(0, true, false, None, false, false)],
      refs := Refs(map[0 := 2], map[0 := 1], map[0 := 1], map[0 := 1], {}));
    assert Step(s1, AddGuard(0, 0)) == GUARD_ADDING;
    Follow([CONTEXT_MADE, s1, GUARD_ADDING], MAKE_GUARD);
  }

  lemma AddsGuard()
    ensures RunFrom(GUARD_ADDING, ADD_GUARD) == MADE
  {
    var s1 := GUARD_ADDING.(calls := [Returned, AddIn(0, 0)], guardLock := Caller(1));
    var made := Step(s1, CallStep(1));
    assert s1.ctxs[0].list + [0] == [0];
    assert made.ctxs == MADE.ctxs && made.guards == MADE.guards && made.calls == MADE.calls;
    assert made.refs == MADE.refs;
    Follow([GUARD_ADDING, s1, MADE], ADD_GUARD);
  }

  lemma Signals()
    ensures RunFrom(MADE, SIGNAL) == SIGNALLED
  {
    var s1 := MADE.(sig := Walk(0), tableLock := Signal);
    var s2 := s1.(sig := Look(0), guardLock := Signal);
    var s3 := s2.(ctxs := SIGNALLED.ctxs, sig := Trigger(0, 0));
    var s4 := s3.(guards := SIGNALLED.guards, sig := Trigger(0, 1));
    var s5 := s4.(sig := Walk(1), guardLock := Nobody);
    Follow([MADE, s1, s2, s3, s4, s5, SIGNALLED], SIGNAL);
  }

  const GUARD_DROPPED: Sys := SIGNALLED.(
    guards := [Guard(0, false, false, Some(1), true, true)], tear := GuardWant(0),
    refs := Refs(map[0 := 2], map[0 := 1], map[0 := 0], map[0 := 0], {}))

  lemma DropsGuard()
    ensures RunFrom(SIGNALLED, DROP_GUARD) == GUARD_DROPPED
  {
    var s1 := SIGNALLED.(refs := GUARD_DROPPED.refs);
    Follow([SIGNALLED, s1, GUARD_DROPPED], DROP_GUARD);
  }

  lemma EndsGuard()
    ensures RunFrom(GUARD_DROPPED, END_GUARD) == GUARD_GONE
  {
    var s1 := GUARD_DROPPED.(tear := GuardIn(0), guardLock := Teardown);
    var s2 := s1.(ctxs := GUARD_GONE.ctxs, tear := GuardFini(0), guardLock := Nobody);
    var s3 := s2.(guards := GUARD_GONE.guards, tear := Rest);
    Follow([GUARD_DROPPED, s1, s2, s3, GUARD_GONE], END_GUARD);
  }

  const CONTEXT_DROPPED: Sys := GUARD_GONE.(
    ctxs := [Ctx(false, false, false, [], 0, true)], tear := CtxWant(0), refs := ALL_GONE.refs)

  lemma DropsContext()
    ensures RunFrom(GUARD_GONE, DROP_CONTEXT) == CONTEXT_DROPPED
  {
    var s1 := GUARD_GONE.(refs := ALL_GONE.refs);
    Follow([GUARD_GONE, s1, CONTEXT_DROPPED], DROP_CONTEXT);
  }

  lemma EndsContext()
    ensures RunFrom(CONTEXT_DROPPED, END_CONTEXT) == ALL_GONE
  {
    var s1 := CONTEXT_DROPPED.(tear := CtxIn(0), tableLock := Teardown);
    var s2 := s1.(table := [], tear := CtxFini(0), tableLock := Nobody);
    Follow([CONTEXT_DROPPED, s1, s2, ALL_GONE], END_CONTEXT);
  }

  /** A whole life: a context and a guard are made and registered, a signal takes the
    * one down and triggers the other, and once their references are dropped both are
    * finalized and out of the list and the table. */
  lemma WholeLife() returns (make: seq<Action>, end: seq<Action>)
    ensures Run(make) == MADE && Run(make + SIGNAL) == SIGNALLED && Run(make + SIGNAL + end) == ALL_GONE
  {
    hide RunFrom;
    make := MAKE_CONTEXT + MAKE_GUARD + ADD_GUARD;
    MakesContext();
    RunSplit(MAKE_CONTEXT, MAKE_GUARD);
    MakesGuard();
    RunSplit(MAKE_CONTEXT + MAKE_GUARD, ADD_GUARD);
    AddsGuard();
    RunSplit(make, SIGNAL);
    Signals();
    end := DROP_GUARD + END_GUARD + DROP_CONTEXT + END_CONTEXT;
    var a := make + SIGNAL;
    RunSplit(a, DROP_GUARD);
    DropsGuard();
    RunSplit(a + DROP_GUARD, END_GUARD);
    EndsGuard();
    RunSplit(a + DROP_GUARD + END_GUARD, DROP_CONTEXT);
    DropsContext();
    RunSplit(a + DROP_GUARD + END_GUARD + DROP_CONTEXT, END_CONTEXT);
    EndsContext();
    assert a + end == a + DROP_GUARD + END_GUARD + DROP_CONTEXT + END_CONTEXT;
  }
}
