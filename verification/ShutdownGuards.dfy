/** The guard conditions a context triggers when it shuts down, and the table of
  * contexts the signal thread shuts down: registration, removal in a guard's or
  * context's own teardown, and the two shutdown paths, interleaved. */
module ShutdownGuards {
  import opened Options
  import opened Sequences
  import opened SwapTables

  const MAX_GUARDS: nat := 32
  const MAX_CONTEXTS: nat := 64

  /** `valid` is the handle's flag, `up` rcl's, `finied` whether `rcl_context_fini`
    * has run; `list` the registered guards, `maker` the call that made the context,
    * `admitted` whether it found room in the table. */
  datatype Ctx = Ctx(valid: bool, up: bool, finied: bool, list: seq<nat>, maker: nat, admitted: bool)

  /** `adder` is the call that registers the guard, once there is one; `admitted`
    * whether it found room, `triggered` whether any shutdown has triggered the guard. */
  datatype Guard = Guard(ctx: nat, valid: bool, finied: bool, adder: Option<nat>, admitted: bool, triggered: bool)

  datatype Holder = Nobody | Signal | Teardown | Caller(index: nat)

  /** A call into the library by some thread: making a context, registering a
    * guard, or shutting a context down. */
  datatype Call =
    | RegisterWant(ctx: nat)
    | RegisterIn(ctx: nat)
    | AddWant(ctx: nat, guard: nat)
    | AddIn(ctx: nat, guard: nat)
    | ShutWant(ctx: nat)
    | ShutIn(ctx: nat, next: nat)
    | Returned

  /** The signal thread; from Walk on it has the table lock, in Look and Trigger the guard lock too. */
  datatype Sig = Asleep | Walk(i: nat) | Look(i: nat) | Trigger(i: nat, next: nat)

  /** The one teardown the tree lock admits at a time. */
  datatype Tear =
    | Rest
    | GuardWant(guard: nat)
    | GuardIn(guard: nat)
    | GuardFini(guard: nat)
    | CtxWant(ctx: nat)
    | CtxIn(ctx: nat)
    | CtxFini(ctx: nat)

  /** The reference counts of contexts and guards, how many of each the program
    * holds itself, and the guards that have released their contexts. */
  datatype Refs = Refs(
    ctx: map<nat, nat>, ctxExt: map<nat, nat>, guard: map<nat, nat>, guardExt: map<nat, nat>, released: set<nat>)

  datatype Sys = Sys(
    ctxs: seq<Ctx>, guards: seq<Guard>, table: seq<nat>, tableLock: Holder, guardLock: Holder,
    calls: seq<Call>, sig: Sig, tear: Tear, refs: Refs)

  datatype Action =
    | NewContext
    | NewGuard(ctx: nat)
    | HoldContext(ctx: nat)
    | DropContext(ctx: nat)
    | HoldGuard(guard: nat)
    | DropGuard(guard: nat)
    | AddGuard(ctx: nat, guard: nat)
    | Shutdown(ctx: nat)
    | CallStep(call: nat)
    | SignalStep
    | TearGuard(guard: nat)
    | TearContext(ctx: nat)
    | TearStep
    | ReleaseContext(guard: nat)

  function Init(): Sys {
    Sys([], [], [], Nobody, Nobody, [], Asleep, Rest, Refs(map[], map[], map[], map[], {}))
  }

  function Count(m: map<nat, nat>, k: nat): nat {
    if k in m then m[k] else 0
  }

  function More(m: map<nat, nat>, k: nat): map<nat, nat> {
    m[k := Count(m, k) + 1]
  }

  function Fewer(m: map<nat, nat>, k: nat): map<nat, nat> {
    m[k := if Count(m, k) > 0 then Count(m, k) - 1 else 0]
  }

  /** The call borrows a reference to this context from its caller. */
  predicate UsesCtx(call: Call, c: nat) {
    match call
    case RegisterWant(x) => x == c
    case RegisterIn(x) => x == c
    case AddWant(x, _) => x == c
    case AddIn(x, _) => x == c
    case ShutWant(x) => x == c
    case ShutIn(x, _) => x == c
    case Returned => false
  }

  predicate UsesGuard(call: Call, g: nat) {
    (call.AddWant? || call.AddIn?) && call.guard == g
  }

  function SetList(s: Sys, c: nat, list: seq<nat>): Sys
    requires c < |s.ctxs|
  {
    s.(ctxs := s.ctxs[c := s.ctxs[c].(list := list)])
  }

  function SetCall(s: Sys, i: nat, call: Call): Sys
    requires i < |s.calls|
  {
    s.(calls := s.calls[i := call])
  }

  function Triggering(s: Sys, g: nat): Sys {
    if g < |s.guards| then s.(guards := s.guards[g := s.guards[g].(triggered := true)]) else s
  }

  /** The program holds a reference, so it can name the handle in a call. */
  predicate NamedCtx(s: Sys, c: nat) {
    c < |s.ctxs| && Count(s.refs.ctxExt, c) > 0
  }

  predicate NamedGuard(s: Sys, g: nat) {
    g < |s.guards| && Count(s.refs.guardExt, g) > 0
  }

  predicate Enabled(s: Sys, a: Action) {
    match a
    case NewContext => true
    case NewGuard(c) => NamedCtx(s, c) && s.ctxs[c].valid
    case HoldContext(c) => NamedCtx(s, c)
    case DropContext(c) => NamedCtx(s, c)
    case HoldGuard(g) => NamedGuard(s, g)
    case DropGuard(g) => NamedGuard(s, g)
    case AddGuard(c, g) =>
      && NamedCtx(s, c) && s.ctxs[c].valid
      && NamedGuard(s, g) && s.guards[g].valid && s.guards[g].ctx == c && s.guards[g].adder == None
    case Shutdown(c) => NamedCtx(s, c) && s.ctxs[c].valid
    case CallStep(i) =>
      i < |s.calls|
      && (match s.calls[i]
          case RegisterWant(_) => s.tableLock.Nobody?
          case RegisterIn(c) => c < |s.ctxs|
          case AddWant(_, _) => s.guardLock.Nobody?
          case AddIn(c, g) => c < |s.ctxs| && g < |s.guards|
          case ShutWant(c) => s.guardLock.Nobody?
          case ShutIn(c, _) => c < |s.ctxs|
          case Returned => false)
    case SignalStep =>
      (match s.sig
       case Asleep => s.tableLock.Nobody?
       case Walk(i) => i < |s.table| ==> s.guardLock.Nobody?
       case Look(i) => i < |s.table| && s.table[i] < |s.ctxs|
       case Trigger(i, _) => i < |s.table| && s.table[i] < |s.ctxs|)
    case TearGuard(g) => s.tear.Rest? && g < |s.guards| && s.guards[g].valid && Count(s.refs.guard, g) == 0
    case TearContext(c) => s.tear.Rest? && c < |s.ctxs| && s.ctxs[c].valid && Count(s.refs.ctx, c) == 0
    case TearStep =>
      (match s.tear
       case Rest => false
       case GuardWant(_) => s.guardLock.Nobody?
       case GuardIn(g) => g < |s.guards| && s.guards[g].ctx < |s.ctxs|
       case GuardFini(g) => g < |s.guards|
       case CtxWant(_) => s.tableLock.Nobody?
       case CtxIn(_) => true
       case CtxFini(c) => c < |s.ctxs|)
    case ReleaseContext(g) => g < |s.guards| && s.guards[g].finied && g !in s.refs.released
  }

  /** A call returns what it borrowed; a new context is handed to the program. */
  function GiveBack(r: Refs, call: Call): Refs {
    match call
    case RegisterIn(c) => r.(ctxExt := More(r.ctxExt, c))
    case AddIn(c, g) => r.(ctxExt := More(r.ctxExt, c), guardExt := More(r.guardExt, g))
    case ShutIn(c, _) => r.(ctxExt := More(r.ctxExt, c))
    case _ => r
  }

  function StepCall(s: Sys, i: nat): Sys
    requires Enabled(s, CallStep(i))
  {
    match s.calls[i]
    case RegisterWant(c) => SetCall(s, i, RegisterIn(c)).(tableLock := Caller(i))
    case RegisterIn(c) =>
      var room := |s.table| < MAX_CONTEXTS;
      SetCall(s, i, Returned).(
        table := if room then s.table + [c] else s.table,
        ctxs := s.ctxs[c := s.ctxs[c].(admitted := room)], tableLock := Nobody,
        refs := GiveBack(s.refs, RegisterIn(c)))
    case AddWant(c, g) => SetCall(s, i, AddIn(c, g)).(guardLock := Caller(i))
    case AddIn(c, g) =>
      var list := s.ctxs[c].list;
      var room := |list| < MAX_GUARDS;
      SetList(SetCall(s, i, Returned), c, if room then list + [g] else list).(
        guards := s.guards[g := s.guards[g].(admitted := room)], guardLock := Nobody,
        refs := GiveBack(s.refs, AddIn(c, g)))
    case ShutWant(c) => SetCall(s, i, ShutIn(c, 0)).(guardLock := Caller(i))
    case ShutIn(c, k) =>
      if k < |s.ctxs[c].list| then SetCall(Triggering(s, s.ctxs[c].list[k]), i, ShutIn(c, k + 1))
      else SetCall(s, i, Returned).(guardLock := Nobody, refs := GiveBack(s.refs, ShutIn(c, k)))
  }

  function StepSignal(s: Sys): Sys
    requires Enabled(s, SignalStep)
  {
    match s.sig
    case Asleep => s.(sig := Walk(0), tableLock := Signal)
    case Walk(i) =>
      if i < |s.table| then s.(sig := Look(i), guardLock := Signal) else s.(sig := Asleep, tableLock := Nobody)
    case Look(i) =>
      var c := s.table[i];
      if s.ctxs[c].valid && s.ctxs[c].up then
        s.(ctxs := s.ctxs[c := s.ctxs[c].(up := false)], sig := Trigger(i, 0))
      else s.(sig := Walk(i + 1), guardLock := Nobody)
    case Trigger(i, k) =>
      var list := s.ctxs[s.table[i]].list;
      if k < |list| then Triggering(s, list[k]).(sig := Trigger(i, k + 1))
      else s.(sig := Walk(i + 1), guardLock := Nobody)
  }

  function StepTear(s: Sys): Sys
    requires Enabled(s, TearStep)
  {
    match s.tear
    case GuardWant(g) => s.(tear := GuardIn(g), guardLock := Teardown)
    case GuardIn(g) =>
      var c := s.guards[g].ctx;
      SetList(s, c, SwapRemove(s.ctxs[c].list, g)).(tear := GuardFini(g), guardLock := Nobody)
    case GuardFini(g) => s.(guards := s.guards[g := s.guards[g].(finied := true)], tear := Rest)
    case CtxWant(c) => s.(tear := CtxIn(c), tableLock := Teardown)
    case CtxIn(c) => s.(table := SwapRemove(s.table, c), tear := CtxFini(c), tableLock := Nobody)
    case CtxFini(c) => s.(ctxs := s.ctxs[c := s.ctxs[c].(up := false, finied := true)], tear := Rest)
  }

  /** One step; an action that is not possible changes nothing.  A shutdown of a
    * context that is already down returns at once. */
  function Step(s: Sys, a: Action): Sys {
    if !Enabled(s, a) then s
    else
      match a
      case NewContext =>
        s.(ctxs := s.ctxs + [Ctx(true, true, false, [], |s.calls|, false)], calls := s.calls + [RegisterWant(|s.ctxs|)],
           refs := s.refs.(ctx := More(s.refs.ctx, |s.ctxs|)))
      case NewGuard(c) =>
        var r := s.refs;
        s.(guards := s.guards + [Guard(c, true, false, None, false, false)],
           refs := r.(ctx := More(r.ctx, c), guard := More(r.guard, |s.guards|),
                      guardExt := More(r.guardExt, |s.guards|)))
      case HoldContext(c) =>
        s.(refs := s.refs.(ctx := More(s.refs.ctx, c), ctxExt := More(s.refs.ctxExt, c)))
      case DropContext(c) =>
        s.(refs := s.refs.(ctx := Fewer(s.refs.ctx, c), ctxExt := Fewer(s.refs.ctxExt, c)))
      case HoldGuard(g) =>
        s.(refs := s.refs.(guard := More(s.refs.guard, g), guardExt := More(s.refs.guardExt, g)))
      case DropGuard(g) =>
        s.(refs := s.refs.(guard := Fewer(s.refs.guard, g), guardExt := Fewer(s.refs.guardExt, g)))
      case AddGuard(c, g) =>
        s.(guards := s.guards[g := s.guards[g].(adder := Some(|s.calls|))], calls := s.calls + [AddWant(c, g)],
           refs := s.refs.(ctxExt := Fewer(s.refs.ctxExt, c), guardExt := Fewer(s.refs.guardExt, g)))
      case Shutdown(c) =>
        if s.ctxs[c].up then
          s.(ctxs := s.ctxs[c := s.ctxs[c].(up := false)], calls := s.calls + [ShutWant(c)],
             refs := s.refs.(ctxExt := Fewer(s.refs.ctxExt, c)))
        else s
      case CallStep(i) => StepCall(s, i)
      case SignalStep => StepSignal(s)
      case TearGuard(g) => s.(guards := s.guards[g := s.guards[g].(valid := false)], tear := GuardWant(g))
      case TearContext(c) => s.(ctxs := s.ctxs[c := s.ctxs[c].(valid := false)], tear := CtxWant(c))
      case TearStep => StepTear(s)
      case ReleaseContext(g) =>
        s.(refs := s.refs.(ctx := Fewer(s.refs.ctx, s.guards[g].ctx), released := s.refs.released + {g}))
  }

  function RunFrom(s: Sys, acts: seq<Action>): Sys
    decreases |acts|
  {
    if acts == [] then s else RunFrom(Step(s, acts[0]), acts[1..])
  }

  function Run(acts: seq<Action>): Sys {
    RunFrom(Init(), acts)
  }

  // ---- What holds throughout ------------------------------------------------------------

  /** The guard found room and is not past its removal. */
  predicate ListedGuard(s: Sys, g: nat)
    requires g < |s.guards|
  {
    s.guards[g].admitted && !s.guards[g].finied && s.tear != GuardFini(g)
  }

  /** The context found room and is not past its removal. */
  predicate ListedCtx(s: Sys, c: nat)
    requires c < |s.ctxs|
  {
    s.ctxs[c].admitted && !s.ctxs[c].finied && s.tear != CtxFini(c)
  }

  /** A list entry: a child of the context, registered, and not past its removal. */
  predicate Entry(s: Sys, c: nat, g: nat) {
    && g < |s.guards| && s.guards[g].ctx == c && ListedGuard(s, g)
    && s.guards[g].adder.Some? && s.guards[g].adder.value < |s.calls| && s.calls[s.guards[g].adder.value].Returned?
  }

  ghost predicate CtxOk(s: Sys, c: nat)
    requires c < |s.ctxs|
  {
    && Distinct(s.ctxs[c].list) && |s.ctxs[c].list| <= MAX_GUARDS
    && (forall g :: g in s.ctxs[c].list ==> Entry(s, c, g))
    && (!s.ctxs[c].valid && !s.ctxs[c].finied ==> s.tear == CtxWant(c) || s.tear == CtxIn(c) || s.tear == CtxFini(c))
    && (s.ctxs[c].finied ==> !s.ctxs[c].valid)
    && (!s.ctxs[c].valid ==> s.ctxs[c].list == [])
    && (ListedCtx(s, c) ==> c in s.table)
  }

  predicate GuardOk(s: Sys, g: nat)
    requires g < |s.guards|
  {
    && s.guards[g].ctx < |s.ctxs|
    && (s.guards[g].finied ==> !s.guards[g].valid)
    && (!s.guards[g].valid && !s.guards[g].finied ==>
          s.tear == GuardWant(g) || s.tear == GuardIn(g) || s.tear == GuardFini(g))
    && (!s.ctxs[s.guards[g].ctx].valid ==> s.guards[g].finied)
    && (s.guards[g].adder.Some? ==> s.guards[g].adder.value < |s.calls|)
    && (ListedGuard(s, g) ==> g in s.ctxs[s.guards[g].ctx].list)
  }

  predicate Adding(s: Sys, i: nat, c: nat, g: nat) {
    && c < |s.ctxs| && s.ctxs[c].valid
    && g < |s.guards| && s.guards[g].ctx == c && s.guards[g].valid && s.guards[g].adder == Some(i)
  }

  predicate TriggeredUpTo(s: Sys, list: seq<nat>, k: nat) {
    k <= |list| && forall j :: 0 <= j < k ==> list[j] < |s.guards| && s.guards[list[j]].triggered
  }

  predicate CallOk(s: Sys, i: nat)
    requires i < |s.calls|
  {
    match s.calls[i]
    case RegisterWant(c) => c < |s.ctxs| && s.ctxs[c].valid && s.ctxs[c].maker == i && c !in s.table
    case RegisterIn(c) =>
      c < |s.ctxs| && s.ctxs[c].valid && s.ctxs[c].maker == i && c !in s.table && s.tableLock == Caller(i)
    case AddWant(c, g) => Adding(s, i, c, g)
    case AddIn(c, g) => Adding(s, i, c, g) && s.guardLock == Caller(i)
    case ShutWant(c) => c < |s.ctxs| && s.ctxs[c].valid
    case ShutIn(c, k) =>
      && c < |s.ctxs| && s.ctxs[c].valid && s.guardLock == Caller(i)
      && TriggeredUpTo(s, s.ctxs[c].list, k)
    case Returned => true
  }

  predicate SigOk(s: Sys) {
    match s.sig
    case Asleep => true
    case Walk(_) => s.tableLock == Signal
    case Look(i) => s.tableLock == Signal && s.guardLock == Signal && i < |s.table| && s.table[i] < |s.ctxs|
    case Trigger(i, k) =>
      && s.tableLock == Signal && s.guardLock == Signal && i < |s.table| && s.table[i] < |s.ctxs|
      && TriggeredUpTo(s, s.ctxs[s.table[i]].list, k)
  }

  predicate TearOk(s: Sys) {
    match s.tear
    case Rest => true
    case GuardWant(g) => g < |s.guards| && !s.guards[g].valid && !s.guards[g].finied
    case GuardIn(g) => g < |s.guards| && !s.guards[g].valid && !s.guards[g].finied && s.guardLock == Teardown
    case GuardFini(g) => g < |s.guards| && !s.guards[g].valid && !s.guards[g].finied
    case CtxWant(c) => c < |s.ctxs| && !s.ctxs[c].valid && !s.ctxs[c].finied
    case CtxIn(c) => c < |s.ctxs| && !s.ctxs[c].valid && !s.ctxs[c].finied && s.tableLock == Teardown
    case CtxFini(c) => c < |s.ctxs| && !s.ctxs[c].valid && !s.ctxs[c].finied
  }

  /** The table lists contexts once each, none whose registration is pending, and
    * none past its removal. */
  ghost predicate TableOk(s: Sys) {
    && Distinct(s.table) && |s.table| <= MAX_CONTEXTS
    && forall c :: c in s.table ==> c < |s.ctxs| && ListedCtx(s, c)
  }

  ghost predicate TablesOk(s: Sys) {
    && (forall c :: 0 <= c < |s.ctxs| ==> CtxOk(s, c))
    && (forall g :: 0 <= g < |s.guards| ==> GuardOk(s, g))
    && (forall i :: 0 <= i < |s.calls| ==> CallOk(s, i))
    && SigOk(s) && TearOk(s) && TableOk(s)
  }

  // ---- References -------------------------------------------------------------------------

  function Users(calls: seq<Call>, c: nat): nat {
    if calls == [] then 0
    else Users(calls[..|calls| - 1], c) + (if UsesCtx(calls[|calls| - 1], c) then 1 else 0)
  }

  function GuardUsers(calls: seq<Call>, g: nat): nat {
    if calls == [] then 0
    else GuardUsers(calls[..|calls| - 1], g) + (if UsesGuard(calls[|calls| - 1], g) then 1 else 0)
  }

  /** The guards of c that have not released it. */
  function Holders(guards: seq<Guard>, released: set<nat>, c: nat): nat {
    if guards == [] then 0
    else
      var g := |guards| - 1;
      Holders(guards[..g], released, c) + (if guards[g].ctx == c && g !in released then 1 else 0)
  }

  /** A context's count is what the program holds, plus one for each of its guards
    * that has not released it, plus one for each call that borrows it. */
  predicate CtxCounted(s: Sys, c: nat) {
    Count(s.refs.ctx, c) == Count(s.refs.ctxExt, c) + Holders(s.guards, s.refs.released, c) + Users(s.calls, c)
  }

  predicate GuardCounted(s: Sys, g: nat) {
    Count(s.refs.guard, g) == Count(s.refs.guardExt, g) + GuardUsers(s.calls, g)
  }

  /** What has been torn down has no references left, and releases come after finis. */
  ghost predicate Spent(s: Sys) {
    && (forall c :: 0 <= c < |s.ctxs| && !s.ctxs[c].valid ==> Count(s.refs.ctx, c) == 0)
    && (forall g :: 0 <= g < |s.guards| && !s.guards[g].valid ==> Count(s.refs.guard, g) == 0)
    && (forall g :: g in s.refs.released ==> g < |s.guards| && s.guards[g].finied)
  }

  ghost predicate RefsOk(s: Sys) {
    (forall c :: CtxCounted(s, c)) && (forall g :: GuardCounted(s, g)) && Spent(s)
  }

  lemma {:induction false} UsersSet(calls: seq<Call>, i: nat, x: Call, c: nat)
    requires i < |calls|
    ensures Users(calls[i := x], c) + (if UsesCtx(calls[i], c) then 1 else 0)
         == Users(calls, c) + (if UsesCtx(x, c) then 1 else 0)
  {
    var last := |calls| - 1;
    if i == last {
      assert calls[i := x][..last] == calls[..last];
    } else {
      UsersSet(calls[..last], i, x, c);
      assert calls[i := x][..last] == calls[..last][i := x];
    }
  }

  lemma {:induction false} GuardUsersSet(calls: seq<Call>, i: nat, x: Call, g: nat)
    requires i < |calls|
    ensures GuardUsers(calls[i := x], g) + (if UsesGuard(calls[i], g) then 1 else 0)
         == GuardUsers(calls, g) + (if UsesGuard(x, g) then 1 else 0)
  {
    var last := |calls| - 1;
    if i == last {
      assert calls[i := x][..last] == calls[..last];
    } else {
      GuardUsersSet(calls[..last], i, x, g);
      assert calls[i := x][..last] == calls[..last][i := x];
    }
  }

  lemma UsersAdded(calls: seq<Call>, x: Call, k: nat)
    ensures Users(calls + [x], k) == Users(calls, k) + (if UsesCtx(x, k) then 1 else 0)
    ensures GuardUsers(calls + [x], k) == GuardUsers(calls, k) + (if UsesGuard(x, k) then 1 else 0)
  {
    assert (calls + [x])[..|calls|] == calls;
  }

  lemma HoldersAdded(guards: seq<Guard>, x: Guard, released: set<nat>, c: nat)
    requires |guards| !in released
    ensures Holders(guards + [x], released, c) == Holders(guards, released, c) + (if x.ctx == c then 1 else 0)
  {
    assert (guards + [x])[..|guards|] == guards;
  }

  lemma {:induction false} HoldersSame(guards: seq<Guard>, other: seq<Guard>, released: set<nat>, c: nat)
    requires |other| == |guards| && forall g :: 0 <= g < |guards| ==> other[g].ctx == guards[g].ctx
    ensures Holders(other, released, c) == Holders(guards, released, c)
  {
    if guards != [] {
      HoldersSame(guards[..|guards| - 1], other[..|guards| - 1], released, c);
    }
  }

  lemma {:induction false} HoldersLater(guards: seq<Guard>, released: set<nat>, g: nat, c: nat)
    requires g >= |guards|
    ensures Holders(guards, released + {g}, c) == Holders(guards, released, c)
  {
    if guards != [] {
      HoldersLater(guards[..|guards| - 1], released, g, c);
    }
  }

  lemma {:induction false} HoldersRelease(guards: seq<Guard>, released: set<nat>, g: nat, c: nat)
    requires g < |guards| && g !in released
    ensures Holders(guards, released + {g}, c) + (if guards[g].ctx == c then 1 else 0) == Holders(guards, released, c)
  {
    if g < |guards| - 1 {
      HoldersRelease(guards[..|guards| - 1], released, g, c);
    } else {
      HoldersLater(guards[..g], released, g, c);
    }
  }

  lemma {:induction false} HolderCounts(guards: seq<Guard>, released: set<nat>, g: nat)
    requires g < |guards| && g !in released
    ensures Holders(guards, released, guards[g].ctx) > 0
  {
    if g < |guards| - 1 {
      HolderCounts(guards[..|guards| - 1], released, g);
    }
  }

  lemma {:induction false} UserCounts(calls: seq<Call>, i: nat, k: nat)
    requires i < |calls|
    ensures UsesCtx(calls[i], k) ==> Users(calls, k) > 0
    ensures UsesGuard(calls[i], k) ==> GuardUsers(calls, k) > 0
  {
    if i < |calls| - 1 {
      UserCounts(calls[..|calls| - 1], i, k);
    }
  }

  /** A context without references has no guard that is not finalized and is in no call. */
  lemma NobodyLeft(s: Sys, c: nat)
    requires RefsOk(s) && Count(s.refs.ctx, c) == 0
    ensures forall g :: 0 <= g < |s.guards| && s.guards[g].ctx == c ==> s.guards[g].finied
    ensures forall i :: 0 <= i < |s.calls| ==> !UsesCtx(s.calls[i], c)
  {
    assert CtxCounted(s, c);
    forall g | 0 <= g < |s.guards| && s.guards[g].ctx == c ensures s.guards[g].finied {
      if g !in s.refs.released {
        HolderCounts(s.guards, s.refs.released, g);
      }
    }
    forall i | 0 <= i < |s.calls| ensures !UsesCtx(s.calls[i], c) {
      UserCounts(s.calls, i, c);
    }
  }

  lemma NoAdderLeft(s: Sys, g: nat)
    requires RefsOk(s) && Count(s.refs.guard, g) == 0
    ensures forall i :: 0 <= i < |s.calls| ==> !UsesGuard(s.calls[i], g)
  {
    assert GuardCounted(s, g);
    forall i | 0 <= i < |s.calls| ensures !UsesGuard(s.calls[i], g) {
      UserCounts(s.calls, i, g);
    }
  }

  // ---- Each kind of step keeps it ---------------------------------------------------------

  lemma NoneIsDistinct()
    ensures Distinct<nat>([])
  {
  }

  lemma NewKeepsTables(s: Sys, a: Action)
    requires TablesOk(s) && Enabled(s, a) && (a.NewContext? || a.NewGuard?)
    ensures TablesOk(Step(s, a))
  {
    hide Distinct;
    NoneIsDistinct();
    var t := Step(s, a);
    forall c | 0 <= c < |t.ctxs| ensures CtxOk(t, c) { if c < |s.ctxs| { assert CtxOk(s, c); } }
    forall g | 0 <= g < |t.guards| ensures GuardOk(t, g) { if g < |s.guards| { assert GuardOk(s, g); } }
    forall i | 0 <= i < |t.calls| ensures CallOk(t, i) { if i < |s.calls| { assert CallOk(s, i); } }
  }

  lemma CallStartKeepsTables(s: Sys, a: Action)
    requires TablesOk(s) && Enabled(s, a) && (a.AddGuard? || a.Shutdown?)
    ensures TablesOk(Step(s, a))
  {
    hide Distinct;
    var t := Step(s, a);
    forall c | 0 <= c < |t.ctxs| ensures CtxOk(t, c) { if c < |s.ctxs| { assert CtxOk(s, c); } }
    forall g | 0 <= g < |t.guards| ensures GuardOk(t, g) { if g < |s.guards| { assert GuardOk(s, g); } }
    forall i | 0 <= i < |t.calls| ensures CallOk(t, i) { if i < |s.calls| { assert CallOk(s, i); } }
  }

  lemma DistinctSnocIf(s: seq<nat>, x: nat)
    ensures Distinct(s) && x !in s ==> Distinct(s + [x])
  {
  }

  /** A context joins the table, or is left out when it is full. */
  lemma RegisterKeepsTables(s: Sys, i: nat)
    requires TablesOk(s) && Enabled(s, CallStep(i)) && (s.calls[i].RegisterWant? || s.calls[i].RegisterIn?)
    ensures TablesOk(Step(s, CallStep(i)))
  {
    hide Distinct;
    var t := Step(s, CallStep(i));
    assert CallOk(s, i);
    DistinctSnocIf(s.table, s.calls[i].ctx);
    forall c | 0 <= c < |t.ctxs| ensures CtxOk(t, c) { assert CtxOk(s, c); }
    forall g | 0 <= g < |t.guards| ensures GuardOk(t, g) { assert GuardOk(s, g); }
    forall j | 0 <= j < |t.calls| ensures CallOk(t, j) { assert CallOk(s, j); }
    assert CtxOk(s, s.calls[i].ctx);
  }

  /** A guard joins its context's list, or is refused when it is full. */
  lemma AddKeepsTables(s: Sys, i: nat)
    requires TablesOk(s) && Enabled(s, CallStep(i)) && s.calls[i].AddIn?
    ensures TablesOk(Step(s, CallStep(i)))
  {
    hide Distinct;
    var t := Step(s, CallStep(i));
    assert CallOk(s, i);
    var x, h := s.calls[i].ctx, s.calls[i].guard;
    assert CtxOk(s, x) && h !in s.ctxs[x].list && GuardOk(s, h);
    DistinctSnocIf(s.ctxs[x].list, h);
    forall c | 0 <= c < |t.ctxs| ensures CtxOk(t, c) { assert CtxOk(s, c); }
    forall g | 0 <= g < |t.guards| ensures GuardOk(t, g) { assert GuardOk(s, g); }
    forall j | 0 <= j < |t.calls| ensures CallOk(t, j) { assert CallOk(s, j); }
  }

  lemma ListedGuards(s: Sys, c: nat, k: nat)
    requires TablesOk(s) && c < |s.ctxs| && k < |s.ctxs[c].list|
    ensures Entry(s, c, s.ctxs[c].list[k])
  {
    assert CtxOk(s, c) && s.ctxs[c].list[k] in s.ctxs[c].list;
  }

  lemma TriggerOne(s: Sys, list: seq<nat>, k: nat)
    requires TriggeredUpTo(s, list, k) && k < |list| && list[k] < |s.guards|
    ensures TriggeredUpTo(Triggering(s, list[k]), list, k + 1)
  {
  }

  /** A trigger changes nothing the invariant speaks of, but for the guards already triggered. */
  lemma TriggeringKeepsTables(s: Sys, h: nat)
    requires TablesOk(s)
    ensures TablesOk(Triggering(s, h))
  {
    hide Distinct;
    var t := Triggering(s, h);
    forall c | 0 <= c < |t.ctxs| ensures CtxOk(t, c) { assert CtxOk(s, c); }
    forall g | 0 <= g < |t.guards| ensures GuardOk(t, g) { assert GuardOk(s, g); }
    forall j | 0 <= j < |t.calls| ensures CallOk(t, j) { assert CallOk(s, j); }
  }

  /** A call that moves on without touching a list or the table. */
  lemma CallMovesKeepsTables(s: Sys, i: nat, call: Call, lock: Holder, refs: Refs)
    requires TablesOk(s) && i < |s.calls| && !s.calls[i].Returned?
    requires s.guardLock == Caller(i) || s.guardLock.Nobody? || lock == s.guardLock
    requires CallOk(SetCall(s, i, call).(guardLock := lock, refs := refs), i)
    ensures TablesOk(SetCall(s, i, call).(guardLock := lock, refs := refs))
  {
    hide Distinct;
    var t := SetCall(s, i, call).(guardLock := lock, refs := refs);
    forall c | 0 <= c < |t.ctxs| ensures CtxOk(t, c) { assert CtxOk(s, c); }
    forall g | 0 <= g < |t.guards| ensures GuardOk(t, g) { assert GuardOk(s, g); }
    forall j | 0 <= j < |t.calls| ensures CallOk(t, j) { assert CallOk(s, j); }
  }

  lemma CallAt(s: Sys, i: nat)
    requires TablesOk(s) && i < |s.calls|
    ensures CallOk(s, i)
  {
  }

  lemma TriggeringFrames(s: Sys, h: nat)
    ensures Triggering(s, h) == s.(guards := Triggering(s, h).guards)
  {
  }

  /** A call gets the guard lock, or triggers the next guard of a list. */
  lemma ListCallKeepsTables(s: Sys, i: nat)
    requires TablesOk(s) && Enabled(s, CallStep(i))
    requires s.calls[i].AddWant? || s.calls[i].ShutWant? || s.calls[i].ShutIn?
    ensures TablesOk(Step(s, CallStep(i)))
  {
    hide TablesOk, Triggering;
    assert CallOk(s, i) by { CallAt(s, i); }
    match s.calls[i]
    case AddWant(c, g) => CallMovesKeepsTables(s, i, AddIn(c, g), Caller(i), s.refs);
    case ShutWant(c) => CallMovesKeepsTables(s, i, ShutIn(c, 0), Caller(i), s.refs);
    case ShutIn(c, k) =>
      var list := s.ctxs[c].list;
      if k < |list| {
        ListedGuards(s, c, k);
        TriggeringKeepsTables(s, list[k]);
        TriggerOne(s, list, k);
        TriggeringFrames(s, list[k]);
        CallMovesKeepsTables(Triggering(s, list[k]), i, ShutIn(c, k + 1), Caller(i), s.refs);
      } else {
        CallMovesKeepsTables(s, i, Returned, Nobody, GiveBack(s.refs, s.calls[i]));
      }
    case _ =>
  }

  /** The signal thread moves on without triggering. */
  lemma SignalMovesKeepsTables(s: Sys, sig: Sig, tableLock: Holder, guardLock: Holder)
    requires TablesOk(s)
    requires s.tableLock == Signal || s.tableLock.Nobody? || tableLock == s.tableLock
    requires s.guardLock == Signal || s.guardLock.Nobody? || guardLock == s.guardLock
    requires SigOk(s.(sig := sig, tableLock := tableLock, guardLock := guardLock))
    ensures TablesOk(s.(sig := sig, tableLock := tableLock, guardLock := guardLock))
  {
    hide Distinct;
    var t := s.(sig := sig, tableLock := tableLock, guardLock := guardLock);
    forall c | 0 <= c < |t.ctxs| ensures CtxOk(t, c) { assert CtxOk(s, c); }
    forall g | 0 <= g < |t.guards| ensures GuardOk(t, g) { assert GuardOk(s, g); }
    forall j | 0 <= j < |t.calls| ensures CallOk(t, j) { assert CallOk(s, j); }
  }

  lemma DownKeepsTables(s: Sys, x: nat)
    requires TablesOk(s) && x < |s.ctxs|
    ensures TablesOk(s.(ctxs := s.ctxs[x := s.ctxs[x].(up := false)]))
  {
    hide Distinct;
    var t := s.(ctxs := s.ctxs[x := s.ctxs[x].(up := false)]);
    forall c | 0 <= c < |t.ctxs| ensures CtxOk(t, c) { assert CtxOk(s, c); }
    forall g | 0 <= g < |t.guards| ensures GuardOk(t, g) { assert GuardOk(s, g); }
    forall j | 0 <= j < |t.calls| ensures CallOk(t, j) { assert CallOk(s, j); }
  }

  lemma SigAt(s: Sys)
    requires TablesOk(s)
    ensures SigOk(s) && TableOk(s) && TearOk(s)
  {
  }

  lemma SignalKeepsTables(s: Sys)
    requires TablesOk(s) && Enabled(s, SignalStep)
    ensures TablesOk(Step(s, SignalStep))
  {
    hide TablesOk, Triggering;
    assert SigOk(s) && TableOk(s) by { SigAt(s); }
    match s.sig
    case Asleep => SignalMovesKeepsTables(s, Walk(0), Signal, s.guardLock);
    case Walk(i) =>
      if i < |s.table| {
        assert s.table[i] in s.table;
        SignalMovesKeepsTables(s, Look(i), s.tableLock, Signal);
      } else {
        SignalMovesKeepsTables(s, Asleep, Nobody, s.guardLock);
      }
    case Look(i) =>
      var c := s.table[i];
      if s.ctxs[c].valid && s.ctxs[c].up {
        DownKeepsTables(s, c);
        SignalMovesKeepsTables(s.(ctxs := s.ctxs[c := s.ctxs[c].(up := false)]), Trigger(i, 0), Signal, Signal);
      } else {
        SignalMovesKeepsTables(s, Walk(i + 1), Signal, Nobody);
      }
    case Trigger(i, k) =>
      var list := s.ctxs[s.table[i]].list;
      if k < |list| {
        ListedGuards(s, s.table[i], k);
        TriggeringKeepsTables(s, list[k]);
        TriggerOne(s, list, k);
        TriggeringFrames(s, list[k]);
        SignalMovesKeepsTables(Triggering(s, list[k]), Trigger(i, k + 1), Signal, Signal);
      } else {
        SignalMovesKeepsTables(s, Walk(i + 1), Signal, Nobody);
      }
  }

  lemma HeadIsEntry(s: Sys, c: nat)
    requires c < |s.ctxs| && CtxOk(s, c)
    ensures s.ctxs[c].list != [] ==> Entry(s, c, s.ctxs[c].list[0])
  {
    if s.ctxs[c].list != [] {
      assert s.ctxs[c].list[0] in s.ctxs[c].list;
    }
  }

  lemma StartTearKeepsTables(s: Sys, a: Action)
    requires TablesOk(s) && RefsOk(s) && Enabled(s, a) && (a.TearGuard? || a.TearContext?)
    ensures TablesOk(Step(s, a))
  {
    hide Distinct, RefsOk, Count;
    if a.TearContext? {
      NobodyLeft(s, a.ctx);
    } else {
      NoAdderLeft(s, a.guard);
    }
    var t := Step(s, a);
    forall c | 0 <= c < |t.ctxs| ensures CtxOk(t, c) {
      assert CtxOk(s, c);
      HeadIsEntry(s, c);
    }
    forall g | 0 <= g < |t.guards| ensures GuardOk(t, g) { assert GuardOk(s, g); }
    forall j | 0 <= j < |t.calls| ensures CallOk(t, j) { assert CallOk(s, j); }
    assert a.TearContext? ==> CtxOk(s, a.ctx);
    assert a.TearGuard? ==> GuardOk(s, a.guard);
  }

  /** Waiting for and getting a lock on the way through a teardown. */
  lemma TearLocksKeepsTables(s: Sys)
    requires TablesOk(s) && Enabled(s, TearStep) && (s.tear.GuardWant? || s.tear.CtxWant?)
    ensures TablesOk(Step(s, TearStep))
  {
    hide Distinct;
    var t := Step(s, TearStep);
    forall c | 0 <= c < |t.ctxs| ensures CtxOk(t, c) { assert CtxOk(s, c); }
    forall g | 0 <= g < |t.guards| ensures GuardOk(t, g) { assert GuardOk(s, g); }
    forall j | 0 <= j < |t.calls| ensures CallOk(t, j) { assert CallOk(s, j); }
  }

  lemma EmptyHasNothing(a: seq<nat>, b: seq<nat>)
    requires forall y :: y in b ==> y in a
    ensures a == [] ==> b == []
  {
    if b != [] {
      assert b[0] in b;
    }
  }

  /** A guard leaves its context's list. */
  lemma RemoveGuardKeepsTables(s: Sys)
    requires TablesOk(s) && Enabled(s, TearStep) && s.tear.GuardIn?
    ensures TablesOk(Step(s, TearStep))
  {
    hide Distinct, SwapRemove;
    var t := Step(s, TearStep);
    var h := s.tear.guard;
    var x := s.guards[h].ctx;
    assert CtxOk(s, x);
    RemovesFromDistinct(s.ctxs[x].list, h);
    forall c | 0 <= c < |t.ctxs| ensures CtxOk(t, c) {
      assert CtxOk(s, c);
      assert c != x ==> h !in s.ctxs[c].list;
      EmptyHasNothing(s.ctxs[x].list, t.ctxs[x].list);
    }
    forall g | 0 <= g < |t.guards| ensures GuardOk(t, g) { assert GuardOk(s, g); }
    forall j | 0 <= j < |t.calls| ensures CallOk(t, j) { assert CallOk(s, j); }
  }

  /** A context leaves the table. */
  lemma RemoveContextKeepsTables(s: Sys)
    requires TablesOk(s) && Enabled(s, TearStep) && s.tear.CtxIn?
    ensures TablesOk(Step(s, TearStep))
  {
    hide Distinct, SwapRemove;
    var t := Step(s, TearStep);
    RemovesFromDistinct(s.table, s.tear.ctx);
    forall c | 0 <= c < |t.ctxs| ensures CtxOk(t, c) { assert CtxOk(s, c); }
    forall g | 0 <= g < |t.guards| ensures GuardOk(t, g) { assert GuardOk(s, g); }
    forall j | 0 <= j < |t.calls| ensures CallOk(t, j) { assert CallOk(s, j); }
  }

  lemma FiniGuardKeepsTables(s: Sys)
    requires TablesOk(s) && Enabled(s, TearStep) && s.tear.GuardFini?
    ensures TablesOk(Step(s, TearStep))
  {
    hide Distinct;
    var t := Step(s, TearStep);
    forall c | 0 <= c < |t.ctxs| ensures CtxOk(t, c) { assert CtxOk(s, c); }
    forall g | 0 <= g < |t.guards| ensures GuardOk(t, g) { assert GuardOk(s, g); }
    forall j | 0 <= j < |t.calls| ensures CallOk(t, j) { assert CallOk(s, j); }
  }

  lemma FiniContextKeepsTables(s: Sys)
    requires TablesOk(s) && Enabled(s, TearStep) && s.tear.CtxFini?
    ensures TablesOk(Step(s, TearStep))
  {
    hide Distinct;
    var t := Step(s, TearStep);
    forall c | 0 <= c < |t.ctxs| ensures CtxOk(t, c) { assert CtxOk(s, c); }
    forall g | 0 <= g < |t.guards| ensures GuardOk(t, g) { assert GuardOk(s, g); }
    forall j | 0 <= j < |t.calls| ensures CallOk(t, j) { assert CallOk(s, j); }
  }

  /** Counting references touches no list and no table. */
  lemma RefsKeepTables(s: Sys, r: Refs)
    requires TablesOk(s)
    ensures TablesOk(s.(refs := r))
  {
    hide Distinct;
    var t := s.(refs := r);
    forall c | 0 <= c < |t.ctxs| ensures CtxOk(t, c) { assert CtxOk(s, c); }
    forall g | 0 <= g < |t.guards| ensures GuardOk(t, g) { assert GuardOk(s, g); }
    forall j | 0 <= j < |t.calls| ensures CallOk(t, j) { assert CallOk(s, j); }
  }

  lemma StepKeepsTables(s: Sys, a: Action)
    requires TablesOk(s) && RefsOk(s)
    ensures TablesOk(Step(s, a))
  {
    hide TablesOk, RefsOk, StepCall, StepSignal, StepTear;
    if Enabled(s, a) {
      match a
      case CallStep(i) =>
        if s.calls[i].RegisterWant? || s.calls[i].RegisterIn? {
          RegisterKeepsTables(s, i);
        } else if s.calls[i].AddIn? {
          AddKeepsTables(s, i);
        } else {
          ListCallKeepsTables(s, i);
        }
      case SignalStep => SignalKeepsTables(s);
      case TearGuard(_) => StartTearKeepsTables(s, a);
      case TearContext(_) => StartTearKeepsTables(s, a);
      case TearStep =>
        match s.tear {
          case GuardIn(_) => RemoveGuardKeepsTables(s);
          case GuardFini(_) => FiniGuardKeepsTables(s);
          case CtxIn(_) => RemoveContextKeepsTables(s);
          case CtxFini(_) => FiniContextKeepsTables(s);
          case _ => TearLocksKeepsTables(s);
        }
      case NewContext => NewKeepsTables(s, a);
      case NewGuard(_) => NewKeepsTables(s, a);
      case AddGuard(_, _) => CallStartKeepsTables(s, a);
      case Shutdown(_) => CallStartKeepsTables(s, a);
      case _ => RefsKeepTables(s, Step(s, a).refs);
    }
  }

  // ---- Each kind of step keeps the counts ---------------------------------------------------

  lemma CountMore(m: map<nat, nat>, k: nat, x: nat)
    ensures Count(More(m, k), x) == Count(m, x) + (if x == k then 1 else 0)
    ensures Count(m, k) > 0 ==> Count(Fewer(m, k), x) == Count(m, x) - (if x == k then 1 else 0)
  {
  }

  /** The steps that change neither calls nor references: finis and locks, the
    * signal thread, and starting a teardown. */
  lemma QuietKeepsRefs(s: Sys, t: Sys)
    requires RefsOk(s) && t.calls == s.calls && t.refs == s.refs && |t.ctxs| == |s.ctxs| && |t.guards| == |s.guards|
    requires forall g :: 0 <= g < |s.guards| ==> t.guards[g].ctx == s.guards[g].ctx
    requires forall g :: 0 <= g < |s.guards| && s.guards[g].finied ==> t.guards[g].finied
    requires forall g :: 0 <= g < |s.guards| && !t.guards[g].valid ==> !s.guards[g].valid || Count(s.refs.guard, g) == 0
    requires forall c :: 0 <= c < |s.ctxs| && !t.ctxs[c].valid ==> !s.ctxs[c].valid || Count(s.refs.ctx, c) == 0
    ensures RefsOk(t)
  {
    forall c ensures CtxCounted(t, c) {
      assert CtxCounted(s, c);
      HoldersSame(s.guards, t.guards, s.refs.released, c);
    }
    forall g ensures GuardCounted(t, g) {
      assert GuardCounted(s, g);
    }
  }

  predicate Returns(call: Call) {
    call.RegisterIn? || call.AddIn? || call.ShutIn?
  }

  predicate SameBorrower(a: Call, b: Call) {
    match a
    case RegisterWant(c) => b == RegisterIn(c)
    case AddWant(c, g) => b == AddIn(c, g)
    case ShutWant(c) => b == ShutIn(c, 0)
    case ShutIn(c, _) => b.ShutIn? && b.ctx == c
    case _ => false
  }

  /** What a call borrows it gives back when it returns, and meanwhile keeps. */
  lemma CallKeepsRefs(s: Sys, t: Sys, i: nat, call: Call)
    requires RefsOk(s) && i < |s.calls| && t.calls == s.calls[i := call]
    requires |t.ctxs| == |s.ctxs| && (forall c :: 0 <= c < |s.ctxs| ==> t.ctxs[c].valid == s.ctxs[c].valid)
    requires |t.guards| == |s.guards| && forall g :: 0 <= g < |s.guards| ==>
      && t.guards[g].ctx == s.guards[g].ctx && t.guards[g].valid == s.guards[g].valid
      && t.guards[g].finied == s.guards[g].finied
    requires if call.Returned? then t.refs == GiveBack(s.refs, s.calls[i]) && Returns(s.calls[i])
             else t.refs == s.refs && SameBorrower(s.calls[i], call)
    ensures RefsOk(t)
  {
    forall c ensures CtxCounted(t, c) {
      assert CtxCounted(s, c);
      HoldersSame(s.guards, t.guards, s.refs.released, c);
      UsersSet(s.calls, i, call, c);
      if call.Returned? {
        CountMore(s.refs.ctxExt, s.calls[i].ctx, c);
      }
    }
    forall g ensures GuardCounted(t, g) {
      assert GuardCounted(s, g);
      GuardUsersSet(s.calls, i, call, g);
      if call.Returned? && s.calls[i].AddIn? {
        CountMore(s.refs.guardExt, s.calls[i].guard, g);
      }
    }
  }

  lemma CallStepKeepsRefs(s: Sys, i: nat)
    requires RefsOk(s) && Enabled(s, CallStep(i))
    ensures RefsOk(Step(s, CallStep(i)))
  {
    hide RefsOk;
    CallKeepsRefs(s, Step(s, CallStep(i)), i, Step(s, CallStep(i)).calls[i]);
  }

  lemma CallStartKeepsRefs(s: Sys, a: Action)
    requires RefsOk(s) && Enabled(s, a) && (a.AddGuard? || a.Shutdown?)
    ensures RefsOk(Step(s, a))
  {
    hide More, Fewer, Users, GuardUsers, Holders, Count;
    var t := Step(s, a);
    forall c ensures CtxCounted(t, c) {
      assert CtxCounted(s, c);
      HoldersSame(s.guards, t.guards, s.refs.released, c);
      UsersAdded(s.calls, if a.AddGuard? then AddWant(a.ctx, a.guard) else ShutWant(a.ctx), c);
      CountMore(s.refs.ctxExt, a.ctx, c);
    }
    forall g ensures GuardCounted(t, g) {
      assert GuardCounted(s, g);
      UsersAdded(s.calls, if a.AddGuard? then AddWant(a.ctx, a.guard) else ShutWant(a.ctx), g);
      if a.AddGuard? {
        CountMore(s.refs.guardExt, a.guard, g);
      }
    }
  }

  lemma NewKeepsRefs(s: Sys, a: Action)
    requires RefsOk(s) && Enabled(s, a) && (a.NewContext? || a.NewGuard?)
    ensures RefsOk(Step(s, a))
  {
    hide More, Fewer, Users, GuardUsers, Holders, Count;
    var t := Step(s, a);
    forall c ensures CtxCounted(t, c) {
      assert CtxCounted(s, c);
      if a.NewContext? {
        UsersAdded(s.calls, RegisterWant(|s.ctxs|), c);
        CountMore(s.refs.ctx, |s.ctxs|, c);
      } else {
        HoldersAdded(s.guards, Guard(a.ctx, true, false, None, false, false), s.refs.released, c);
        CountMore(s.refs.ctx, a.ctx, c);
      }
    }
    forall g ensures GuardCounted(t, g) {
      assert GuardCounted(s, g);
      UsersAdded(s.calls, RegisterWant(|s.ctxs|), g);
      CountMore(s.refs.guard, |s.guards|, g);
      CountMore(s.refs.guardExt, |s.guards|, g);
    }
    forall c | 0 <= c < |t.ctxs| && !t.ctxs[c].valid ensures Count(t.refs.ctx, c) == 0 {
      CountMore(s.refs.ctx, if a.NewContext? then |s.ctxs| else a.ctx, c);
    }
    forall g | 0 <= g < |t.guards| && !t.guards[g].valid ensures Count(t.refs.guard, g) == 0 {
      CountMore(s.refs.guard, |s.guards|, g);
    }
  }

  /** The program's own copies and drops. */
  lemma HoldKeepsRefs(s: Sys, a: Action)
    requires RefsOk(s) && Enabled(s, a) && (a.HoldContext? || a.DropContext? || a.HoldGuard? || a.DropGuard?)
    ensures RefsOk(Step(s, a))
  {
    hide More, Fewer, Users, GuardUsers, Holders, Count;
    var t := Step(s, a);
    var onCtx := a.HoldContext? || a.DropContext?;
    var k := if onCtx then a.ctx else a.guard;
    assert CtxCounted(s, k) && GuardCounted(s, k);
    forall c ensures CtxCounted(t, c) {
      assert CtxCounted(s, c);
      CountMore(s.refs.ctx, k, c);
      CountMore(s.refs.ctxExt, k, c);
    }
    forall g ensures GuardCounted(t, g) {
      assert GuardCounted(s, g);
      CountMore(s.refs.guard, k, g);
      CountMore(s.refs.guardExt, k, g);
    }
    forall c | 0 <= c < |t.ctxs| && !t.ctxs[c].valid ensures Count(t.refs.ctx, c) == 0 {
      CountMore(s.refs.ctx, k, c);
    }
    forall g | 0 <= g < |t.guards| && !t.guards[g].valid ensures Count(t.refs.guard, g) == 0 {
      CountMore(s.refs.guard, k, g);
    }
  }

  lemma ReleaseKeepsRefs(s: Sys, g: nat)
    requires RefsOk(s) && Enabled(s, ReleaseContext(g))
    ensures RefsOk(Step(s, ReleaseContext(g)))
  {
    hide More, Fewer, Users, GuardUsers, Holders, Count;
    var t := Step(s, ReleaseContext(g));
    var x := s.guards[g].ctx;
    HolderCounts(s.guards, s.refs.released, g);
    assert CtxCounted(s, x);
    forall c ensures CtxCounted(t, c) {
      assert CtxCounted(s, c);
      HoldersRelease(s.guards, s.refs.released, g, c);
      CountMore(s.refs.ctx, x, c);
    }
    forall h ensures GuardCounted(t, h) {
      assert GuardCounted(s, h);
    }
    forall c | 0 <= c < |t.ctxs| && !t.ctxs[c].valid ensures Count(t.refs.ctx, c) == 0 {
      CountMore(s.refs.ctx, x, c);
    }
  }

  lemma StepKeepsRefs(s: Sys, a: Action)
    requires TablesOk(s) && RefsOk(s)
    ensures RefsOk(Step(s, a))
  {
    hide RefsOk, StepCall, CtxOk, CallOk;
    if Enabled(s, a) {
      match a
      case CallStep(i) => CallStepKeepsRefs(s, i);
      case AddGuard(_, _) => CallStartKeepsRefs(s, a);
      case Shutdown(_) => CallStartKeepsRefs(s, a);
      case NewContext => NewKeepsRefs(s, a);
      case NewGuard(_) => NewKeepsRefs(s, a);
      case HoldContext(_) => HoldKeepsRefs(s, a);
      case DropContext(_) => HoldKeepsRefs(s, a);
      case HoldGuard(_) => HoldKeepsRefs(s, a);
      case DropGuard(_) => HoldKeepsRefs(s, a);
      case ReleaseContext(g) => ReleaseKeepsRefs(s, g);
      case _ => QuietKeepsRefs(s, Step(s, a));
    }
  }

  ghost predicate Inv(s: Sys) {
    TablesOk(s) && RefsOk(s)
  }

  lemma StepKeepsInv(s: Sys, a: Action)
    requires Inv(s)
    ensures Inv(Step(s, a))
  {
    hide Step, TablesOk, RefsOk;
    StepKeepsTables(s, a);
    StepKeepsRefs(s, a);
  }

  lemma {:induction false} RunFromKeepsInv(s: Sys, acts: seq<Action>)
    requires Inv(s)
    ensures Inv(RunFrom(s, acts))
    decreases |acts|
  {
    hide Inv, Step;
    if acts != [] {
      StepKeepsInv(s, acts[0]);
      RunFromKeepsInv(Step(s, acts[0]), acts[1..]);
    }
  }

  lemma InitInv()
    ensures Inv(Init())
  {
  }

  lemma RunKeepsInv(acts: seq<Action>)
    ensures Inv(Run(acts))
  {
    hide Inv;
    InitInv();
    RunFromKeepsInv(Init(), acts);
  }

  // ---- What every interleaving guarantees ---------------------------------------------------------

  /** The entries of a context's list are distinct children of that context whose
    * rcl guards have not been finalized, at most 32 of them, and there are none
    * once the context is being torn down. */
  lemma ListedGuardsAreLive(acts: seq<Action>, c: nat)
    requires c < |Run(acts).ctxs|
    ensures var s := Run(acts);
      var list := s.ctxs[c].list;
      && Distinct(list) && |list| <= MAX_GUARDS
      && (forall g :: g in list ==> g < |s.guards| && s.guards[g].ctx == c && !s.guards[g].finied)
      && (!s.ctxs[c].valid ==> list == [])
  {
    RunKeepsInv(acts);
    assert CtxOk(Run(acts), c);
    forall g | g in Run(acts).ctxs[c].list ensures Entry(Run(acts), c, g) {}
  }

  /** The counts are exact: what the program holds, plus a context's guards that have
    * not released it, plus the calls that borrow the handle; and a handle the
    * program can name has not begun its teardown. */
  lemma CountsAreExact(acts: seq<Action>, c: nat, g: nat)
    ensures var s := Run(acts);
      && Count(s.refs.ctx, c) == Count(s.refs.ctxExt, c) + Holders(s.guards, s.refs.released, c) + Users(s.calls, c)
      && Count(s.refs.guard, g) == Count(s.refs.guardExt, g) + GuardUsers(s.calls, g)
      && (NamedCtx(s, c) ==> s.ctxs[c].valid) && (NamedGuard(s, g) ==> s.guards[g].valid)
  {
    hide TablesOk;
    RunKeepsInv(acts);
    assert CtxCounted(Run(acts), c) && GuardCounted(Run(acts), g);
  }

  /** A context's finalizer starts once its last reference is gone, and finds every
    * guard ever made under it finalized, the list empty, and no call at work on it. */
  lemma TeardownFindsNobody(acts: seq<Action>, c: nat)
    requires Enabled(Run(acts), TearContext(c))
    ensures var s := Run(acts);
      && (forall g :: 0 <= g < |s.guards| && s.guards[g].ctx == c ==> s.guards[g].finied)
      && (forall i :: 0 <= i < |s.calls| ==> !UsesCtx(s.calls[i], c))
      && s.ctxs[c].list == []
  {
    hide Run;
    RunKeepsInv(acts);
    NobodyLeft(Run(acts), c);
    assert CtxOk(Run(acts), c);
    HeadIsEntry(Run(acts), c);
  }

  /** When a context's own `rcl_context_fini` is about to run, its list is empty,
    * every guard ever made under it has been finalized, and the signal thread can
    * no longer find it. */
  lemma ContextFinalizedLast(acts: seq<Action>)
    requires Run(acts).tear.CtxFini?
    ensures var s := Run(acts);
      var c := s.tear.ctx;
      && c < |s.ctxs| && s.ctxs[c].list == [] && c !in s.table
      && (forall g :: 0 <= g < |s.guards| && s.guards[g].ctx == c ==> s.guards[g].finied)
  {
    var s := Run(acts);
    RunKeepsInv(acts);
    assert CtxOk(s, s.tear.ctx);
    forall g | 0 <= g < |s.guards| && s.guards[g].ctx == s.tear.ctx ensures s.guards[g].finied {
      assert GuardOk(s, g);
    }
  }

  /** When a guard is about to be finalized it is in no list. */
  lemma GuardUnlistedBeforeFini(acts: seq<Action>, c: nat)
    requires Run(acts).tear.GuardFini? && c < |Run(acts).ctxs|
    ensures Run(acts).tear.guard !in Run(acts).ctxs[c].list
  {
    RunKeepsInv(acts);
    assert CtxOk(Run(acts), c);
  }

  /** While the signal thread looks at a context, that context has not been
    * finalized, and neither has any guard it may trigger there. */
  lemma SignalTouchesOnlyLive(acts: seq<Action>, k: nat)
    requires Run(acts).sig.Look? || Run(acts).sig.Trigger?
    ensures var s := Run(acts);
      && s.sig.i < |s.table| && s.table[s.sig.i] < |s.ctxs| && !s.ctxs[s.table[s.sig.i]].finied
      && (k < |s.ctxs[s.table[s.sig.i]].list| ==>
            var g := s.ctxs[s.table[s.sig.i]].list[k];
            g < |s.guards| && !s.guards[g].finied)
  {
    var s := Run(acts);
    RunKeepsInv(acts);
    assert s.table[s.sig.i] in s.table;
    if k < |s.ctxs[s.table[s.sig.i]].list| {
      ListedGuards(s, s.table[s.sig.i], k);
    }
  }

  /** So for a shutdown called by the program. */
  lemma CallerTouchesOnlyLive(acts: seq<Action>, i: nat, k: nat)
    requires i < |Run(acts).calls| && Run(acts).calls[i].ShutIn?
    ensures var s := Run(acts);
      var c := s.calls[i].ctx;
      && c < |s.ctxs| && !s.ctxs[c].finied
      && (k < |s.ctxs[c].list| ==> var g := s.ctxs[c].list[k]; g < |s.guards| && !s.guards[g].finied)
  {
    var s := Run(acts);
    RunKeepsInv(acts);
    assert CallOk(s, i);
    var c := s.calls[i].ctx;
    assert CtxOk(s, c);
    if k < |s.ctxs[c].list| {
      ListedGuards(s, c, k);
    }
  }

  /** A shutdown that is done walking the list has triggered every guard in it. */
  lemma ShutdownTriggersAll(acts: seq<Action>, g: nat)
    ensures var s := Run(acts);
      && (s.sig.Trigger? ==>
            && s.sig.i < |s.table| && s.table[s.sig.i] < |s.ctxs|
            && (s.sig.next == |s.ctxs[s.table[s.sig.i]].list| && g in s.ctxs[s.table[s.sig.i]].list ==>
                  g < |s.guards| && s.guards[g].triggered))
      && (forall i :: 0 <= i < |s.calls| && s.calls[i].ShutIn? ==>
            && s.calls[i].ctx < |s.ctxs|
            && (s.calls[i].next == |s.ctxs[s.calls[i].ctx].list| && g in s.ctxs[s.calls[i].ctx].list ==>
                  g < |s.guards| && s.guards[g].triggered))
  {
    hide Run;
    var s := Run(acts);
    RunKeepsInv(acts);
    forall i | 0 <= i < |s.calls| && s.calls[i].ShutIn?
      ensures s.calls[i].ctx < |s.ctxs|
      ensures s.calls[i].next == |s.ctxs[s.calls[i].ctx].list| && g in s.ctxs[s.calls[i].ctx].list ==>
        g < |s.guards| && s.guards[g].triggered
    {
      assert CallOk(s, i);
    }
  }

  /** The table lists at most 64 contexts, each once: exactly those that found room
    * when they were made and are not past their removal. */
  lemma TableIsExact(acts: seq<Action>, c: nat)
    ensures var s := Run(acts);
      && Distinct(s.table) && |s.table| <= MAX_CONTEXTS
      && (c in s.table <==> c < |s.ctxs| && ListedCtx(s, c))
  {
    RunKeepsInv(acts);
    if c < |Run(acts).ctxs| {
      assert CtxOk(Run(acts), c);
    }
  }

  /** A context's list holds exactly its guards that found room when they were
    * registered and are not past their removal: removing one moves another, and
    * loses none. */
  lemma ListIsExact(acts: seq<Action>, g: nat)
    requires g < |Run(acts).guards|
    ensures var s := Run(acts);
      s.guards[g].ctx < |s.ctxs| && (g in s.ctxs[s.guards[g].ctx].list <==> ListedGuard(s, g))
  {
    var s := Run(acts);
    RunKeepsInv(acts);
    assert GuardOk(s, g);
    if g in s.ctxs[s.guards[g].ctx].list {
      assert CtxOk(s, s.guards[g].ctx);
      assert Entry(s, s.guards[g].ctx, g);
    }
  }
}
