/** The three locks of the C side: the recursive tree lock, the lock of the
  * context table and the lock of the shutdown guard lists, and what each call
  * does with them. */
module LockOrder {
  datatype Lock = TreeLock | TableLock | GuardsLock

  datatype Op = Acquire(lock: Lock) | Release(lock: Lock)

  /** The order in which nested locks are taken. */
  function Rank(l: Lock): nat {
    match l
    case TreeLock => 0
    case TableLock => 1
    case GuardsLock => 2
  }

  // ---- What each call does -------------------------------------------------------------

  /** What a handle's own teardown locks: a context leaves the table, a guard leaves
    * its context's list, and a timer whose clock it held last finalizes the clock. */
  datatype Kind = Context | Guard | Timer(lastOfClock: bool) | Other

  /** A valid handle with its valid children, as a teardown finds them. */
  datatype Handle = Handle(kind: Kind, children: seq<Handle>)

  datatype Job =
    | Destroy(handle: Handle)
    | Finalize(chain: seq<Handle>)
    | AllocateChild
    | RegisterContext
    | AddShutdownGuard
    | ShutdownContext
    | SignalRound(contexts: nat)

  function Section(l: Lock, inside: seq<Op>): seq<Op> {
    [Acquire(l)] + inside + [Release(l)]
  }

  function Fini(k: Kind): seq<Op> {
    match k
    case Context => Section(TableLock, [])
    case Guard => Section(GuardsLock, [])
    case Timer(last) => if last then Section(TreeLock, []) else []
    case Other => []
  }

  /** Children first, then the handle's own teardown. */
  function Teardown(h: Handle): seq<Op> {
    TeardownAll(h.children) + Fini(h.kind)
  }

  function TeardownAll(hs: seq<Handle>): seq<Op> {
    if hs == [] then [] else Teardown(hs[0]) + TeardownAll(hs[1..])
  }

  /** A finalizer tears its handle down and, when that drops the last reference to
    * the parent, runs the parent's finalizer next, after giving the lock back. */
  function FinalizeAll(chain: seq<Handle>): seq<Op> {
    if chain == [] then [] else Section(TreeLock, Teardown(chain[0])) + FinalizeAll(chain[1..])
  }

  function Rounds(n: nat): seq<Op> {
    if n == 0 then [] else Section(GuardsLock, []) + Rounds(n - 1)
  }

  function Program(job: Job): seq<Op> {
    match job
    case Destroy(h) => Section(TreeLock, Teardown(h))
    case Finalize(chain) => FinalizeAll(chain)
    case AllocateChild => Section(TreeLock, [])
    case RegisterContext => Section(TableLock, [])
    case AddShutdownGuard => Section(GuardsLock, [])
    case ShutdownContext => Section(GuardsLock, [])
    case SignalRound(n) => Section(TableLock, Rounds(n))
  }

  // ---- Every call keeps the order ---------------------------------------------------------

  /** Taking l with these locks held goes up the order, or takes the tree lock again. */
  predicate MayTake(held: seq<Lock>, l: Lock) {
    (l == TreeLock && TreeLock in held) || forall h :: h in held ==> Rank(h) < Rank(l)
  }

  /** From here the program takes locks in order, releases the one taken last, and
    * ends with none held. */
  predicate Ordered(prog: seq<Op>, held: seq<Lock>) {
    if prog == [] then held == []
    else
      match prog[0]
      case Acquire(l) => MayTake(held, l) && Ordered(prog[1..], held + [l])
      case Release(l) => held != [] && held[|held| - 1] == l && Ordered(prog[1..], held[..|held| - 1])
  }

  lemma OrderedAcquire(l: Lock, rest: seq<Op>, held: seq<Lock>)
    requires MayTake(held, l) && Ordered(rest, held + [l])
    ensures Ordered([Acquire(l)] + rest, held)
  {
    assert ([Acquire(l)] + rest)[1..] == rest;
  }

  lemma OrderedRelease(l: Lock, rest: seq<Op>, held: seq<Lock>)
    requires Ordered(rest, held)
    ensures Ordered([Release(l)] + rest, held + [l])
  {
    assert ([Release(l)] + rest)[1..] == rest;
    assert (held + [l])[..|held|] == held;
  }

  lemma OrderedEmptySection(l: Lock, rest: seq<Op>, held: seq<Lock>)
    requires MayTake(held, l) && Ordered(rest, held)
    ensures Ordered(Section(l, []) + rest, held)
  {
    OrderedRelease(l, rest, held);
    OrderedAcquire(l, [Release(l)] + rest, held);
    assert Section(l, []) + rest == [Acquire(l)] + ([Release(l)] + rest);
  }

  predicate OnlyTree(held: seq<Lock>) {
    held != [] && forall h :: h in held ==> h == TreeLock
  }

  lemma OrderedFini(k: Kind, rest: seq<Op>, held: seq<Lock>)
    requires OnlyTree(held) && Ordered(rest, held)
    ensures Ordered(Fini(k) + rest, held)
  {
    assert held[0] in held;
    match k
    case Context => OrderedEmptySection(TableLock, rest, held);
    case Guard => OrderedEmptySection(GuardsLock, rest, held);
    case Timer(last) => if last { OrderedEmptySection(TreeLock, rest, held); } else { assert [] + rest == rest; }
    case Other => assert [] + rest == rest;
  }

  /** Tearing down a whole subtree under the tree lock keeps the order, whatever its shape. */
  lemma {:induction false} OrderedTeardown(h: Handle, rest: seq<Op>, held: seq<Lock>)
    requires OnlyTree(held) && Ordered(rest, held)
    ensures Ordered(Teardown(h) + rest, held)
  {
    OrderedFini(h.kind, rest, held);
    OrderedTeardownAll(h.children, Fini(h.kind) + rest, held);
    assert Teardown(h) + rest == TeardownAll(h.children) + (Fini(h.kind) + rest);
  }

  lemma {:induction false} OrderedTeardownAll(hs: seq<Handle>, rest: seq<Op>, held: seq<Lock>)
    requires OnlyTree(held) && Ordered(rest, held)
    ensures Ordered(TeardownAll(hs) + rest, held)
  {
    if hs == [] {
      assert [] + rest == rest;
    } else {
      OrderedTeardownAll(hs[1..], rest, held);
      OrderedTeardown(hs[0], TeardownAll(hs[1..]) + rest, held);
      assert TeardownAll(hs) + rest == Teardown(hs[0]) + (TeardownAll(hs[1..]) + rest);
    }
  }

  lemma SectionAcross(l: Lock, inside: seq<Op>, rest: seq<Op>)
    ensures Section(l, inside) + rest == [Acquire(l)] + (inside + ([Release(l)] + rest))
  {
  }

  lemma OrderedTree(h: Handle, rest: seq<Op>)
    requires Ordered(rest, [])
    ensures Ordered(Section(TreeLock, Teardown(h)) + rest, [])
  {
    hide Ordered, Teardown, Section;
    OrderedRelease(TreeLock, rest, []);
    assert [] + [TreeLock] == [TreeLock];
    OrderedTeardown(h, [Release(TreeLock)] + rest, [TreeLock]);
    OrderedAcquire(TreeLock, Teardown(h) + ([Release(TreeLock)] + rest), []);
    SectionAcross(TreeLock, Teardown(h), rest);
  }

  lemma {:induction false} OrderedFinalizeAll(chain: seq<Handle>)
    ensures Ordered(FinalizeAll(chain), [])
  {
    if chain != [] {
      OrderedFinalizeAll(chain[1..]);
      OrderedTree(chain[0], FinalizeAll(chain[1..]));
    }
  }

  lemma {:induction false} OrderedRounds(n: nat, rest: seq<Op>)
    requires Ordered(rest, [TableLock])
    ensures Ordered(Rounds(n) + rest, [TableLock])
  {
    if n == 0 {
      assert [] + rest == rest;
    } else {
      OrderedRounds(n - 1, rest);
      OrderedEmptySection(GuardsLock, Rounds(n - 1) + rest, [TableLock]);
      assert Rounds(n) + rest == Section(GuardsLock, []) + (Rounds(n - 1) + rest);
    }
  }

  lemma OrderedSectionAlone(l: Lock)
    ensures Ordered(Section(l, []), [])
  {
    OrderedEmptySection(l, [], []);
    assert Section(l, []) + [] == Section(l, []);
  }

  /** Every call, for every shape of the trees it tears down, takes the locks in the
    * order tree, table, guards, nests them properly, and returns with none held. */
  lemma EveryJobIsOrdered(job: Job)
    ensures Ordered(Program(job), [])
  {
    match job
    case Destroy(h) =>
      OrderedTree(h, []);
      assert Program(job) + [] == Program(job);
    case Finalize(chain) => OrderedFinalizeAll(chain);
    case AllocateChild => OrderedSectionAlone(TreeLock);
    case RegisterContext => OrderedSectionAlone(TableLock);
    case AddShutdownGuard => OrderedSectionAlone(GuardsLock);
    case ShutdownContext => OrderedSectionAlone(GuardsLock);
    case SignalRound(n) =>
      OrderedRelease(TableLock, [], []);
      assert [] + [TableLock] == [TableLock] && [Release(TableLock)] + [] == [Release(TableLock)];
      OrderedRounds(n, [Release(TableLock)]);
      OrderedAcquire(TableLock, Rounds(n) + [Release(TableLock)], []);
      assert Program(job) == [Acquire(TableLock)] + (Rounds(n) + [Release(TableLock)]);
  }

  // ---- Every call takes the locks it needs --------------------------------------------------

  function Takes(prog: seq<Op>, l: Lock): nat {
    if prog == [] then 0 else (if prog[0] == Acquire(l) then 1 else 0) + Takes(prog[1..], l)
  }

  /** How often the teardown of a tree needs a lock: the table's once for each context in
    * it, the guard lists' once for each guard, and the tree's once more for each timer
    * that is the last to hold its clock. */
  function Needs(h: Handle, l: Lock): nat {
    NeedsAll(h.children, l)
      + (match h.kind
         case Context => if l == TableLock then 1 else 0
         case Guard => if l == GuardsLock then 1 else 0
         case Timer(last) => if l == TreeLock && last then 1 else 0
         case Other => 0)
  }

  function NeedsAll(hs: seq<Handle>, l: Lock): nat {
    if hs == [] then 0 else Needs(hs[0], l) + NeedsAll(hs[1..], l)
  }

  lemma {:induction false} TakesAcross(a: seq<Op>, b: seq<Op>, l: Lock)
    ensures Takes(a + b, l) == Takes(a, l) + Takes(b, l)
  {
    if a == [] {
      assert a + b == b;
    } else {
      assert (a + b)[1..] == a[1..] + b;
      TakesAcross(a[1..], b, l);
    }
  }

  lemma TakesSection(l: Lock, inside: seq<Op>, m: Lock)
    ensures Takes(Section(l, inside), m) == Takes(inside, m) + (if m == l then 1 else 0)
  {
    TakesAcross([Acquire(l)] + inside, [Release(l)], m);
    TakesAcross([Acquire(l)], inside, m);
    assert [Acquire(l)][1..] == [] && [Release(l)][1..] == [];
  }

  lemma {:induction false} TakesTeardown(h: Handle, l: Lock)
    ensures Takes(Teardown(h), l) == Needs(h, l)
  {
    TakesTeardownAll(h.children, l);
    TakesAcross(TeardownAll(h.children), Fini(h.kind), l);
    TakesSection(TableLock, [], l);
    TakesSection(GuardsLock, [], l);
    TakesSection(TreeLock, [], l);
  }

  lemma {:induction false} TakesTeardownAll(hs: seq<Handle>, l: Lock)
    ensures Takes(TeardownAll(hs), l) == NeedsAll(hs, l)
  {
    if hs != [] {
      TakesTeardown(hs[0], l);
      TakesTeardownAll(hs[1..], l);
      TakesAcross(Teardown(hs[0]), TeardownAll(hs[1..]), l);
    }
  }

  lemma {:induction false} TakesFinalizeAll(chain: seq<Handle>, l: Lock)
    ensures Takes(FinalizeAll(chain), l) == NeedsAll(chain, l) + (if l == TreeLock then |chain| else 0)
  {
    if chain != [] {
      TakesFinalizeAll(chain[1..], l);
      TakesTeardown(chain[0], l);
      TakesSection(TreeLock, Teardown(chain[0]), l);
      TakesAcross(Section(TreeLock, Teardown(chain[0])), FinalizeAll(chain[1..]), l);
    }
  }

  lemma {:induction false} TakesRounds(n: nat, l: Lock)
    ensures Takes(Rounds(n), l) == if l == GuardsLock then n else 0
  {
    if n > 0 {
      TakesRounds(n - 1, l);
      TakesSection(GuardsLock, [], l);
      TakesAcross(Section(GuardsLock, []), Rounds(n - 1), l);
    }
  }

  /** How often each call needs each lock: a destroy the tree's once and what its tree
    * needs, a chain of finalizers likewise for each of them, an allocation the tree's, a
    * registration that of its table or list, a shutdown the lists', and a round of the
    * signal thread the table's once and the lists' once for each context. */
  function JobNeeds(job: Job, l: Lock): nat {
    match job
    case Destroy(h) => Needs(h, l) + (if l == TreeLock then 1 else 0)
    case Finalize(chain) => NeedsAll(chain, l) + (if l == TreeLock then |chain| else 0)
    case AllocateChild => if l == TreeLock then 1 else 0
    case RegisterContext => if l == TableLock then 1 else 0
    case AddShutdownGuard => if l == GuardsLock then 1 else 0
    case ShutdownContext => if l == GuardsLock then 1 else 0
    case SignalRound(n) => if l == TableLock then 1 else if l == GuardsLock then n else 0
  }

  /** Each call takes each lock as often as it needs it. */
  lemma EveryJobTakes(job: Job, l: Lock)
    ensures Takes(Program(job), l) == JobNeeds(job, l)
  {
    TakesSection(TableLock, [], l);
    TakesSection(GuardsLock, [], l);
    TakesSection(TreeLock, [], l);
    match job
    case Destroy(h) => TakesTeardown(h, l); TakesSection(TreeLock, Teardown(h), l);
    case Finalize(chain) => TakesFinalizeAll(chain, l);
    case SignalRound(n) => TakesRounds(n, l); TakesSection(TableLock, Rounds(n), l);
    case _ =>
  }

  /** The locks held after a program. */
  function HeldAfter(prog: seq<Op>, held: seq<Lock>): seq<Lock>
    decreases |prog|
  {
    if prog == [] then held
    else
      match prog[0]
      case Acquire(l) => HeldAfter(prog[1..], held + [l])
      case Release(_) => HeldAfter(prog[1..], if held == [] then [] else held[..|held| - 1])
  }

  /** Every other lock is taken while `outer` is held. */
  predicate Within(prog: seq<Op>, held: seq<Lock>, outer: Lock) {
    forall i :: 0 <= i < |prog| && prog[i].Acquire? && prog[i].lock != outer ==> outer in HeldAfter(prog[..i], held)
  }

  lemma {:induction false} HeldAcross(a: seq<Op>, b: seq<Op>, held: seq<Lock>)
    ensures HeldAfter(a + b, held) == HeldAfter(b, HeldAfter(a, held))
    decreases |a|
  {
    if a == [] {
      assert a + b == b;
    } else {
      assert (a + b)[1..] == a[1..] + b;
      match a[0]
      case Acquire(l) => HeldAcross(a[1..], b, held + [l]);
      case Release(_) => HeldAcross(a[1..], b, if held == [] then [] else held[..|held| - 1]);
    }
  }

  lemma SliceAcross(a: seq<Op>, b: seq<Op>, i: nat)
    requires i <= |a + b|
    ensures (a + b)[..i] == if i <= |a| then a[..i] else a + b[..i - |a|]
  {
  }

  lemma WithinAt(a: seq<Op>, b: seq<Op>, held: seq<Lock>, outer: Lock, i: nat)
    requires Within(a, held, outer) && Within(b, HeldAfter(a, held), outer)
    requires i < |a + b| && (a + b)[i].Acquire? && (a + b)[i].lock != outer
    ensures outer in HeldAfter((a + b)[..i], held)
  {
    hide HeldAfter;
    SliceAcross(a, b, i);
    if i >= |a| {
      var j := i - |a|;
      HeldAcross(a, b[..j], held);
      assert a + b[..0] == a;
      assert b[j].Acquire? && b[j].lock != outer;
    }
  }

  lemma WithinAcross(a: seq<Op>, b: seq<Op>, held: seq<Lock>, outer: Lock)
    requires Within(a, held, outer) && Within(b, HeldAfter(a, held), outer)
    ensures Within(a + b, held, outer)
  {
    hide HeldAfter;
    var prog := a + b;
    forall i | 0 <= i < |prog| && prog[i].Acquire? && prog[i].lock != outer
      ensures outer in HeldAfter(prog[..i], held)
    {
      WithinAt(a, b, held, outer, i);
    }
  }

  lemma HeldSection(l: Lock, inside: seq<Op>, held: seq<Lock>)
    requires HeldAfter(inside, held + [l]) == held + [l]
    ensures HeldAfter(Section(l, inside), held) == held
  {
    HeldAcross([Acquire(l)] + inside, [Release(l)], held);
    HeldAcross([Acquire(l)], inside, held);
    assert [Acquire(l)][1..] == [] && [Release(l)][1..] == [];
    assert (held + [l])[..|held|] == held;
  }

  lemma WithinSection(l: Lock, inside: seq<Op>, held: seq<Lock>, outer: Lock)
    requires l == outer || outer in held
    requires Within(inside, held + [l], outer) && HeldAfter(inside, held + [l]) == held + [l]
    ensures Within(Section(l, inside), held, outer)
  {
    assert [Acquire(l)][..0] == [] && [Acquire(l)][1..] == [];
    assert HeldAfter([Acquire(l)], held) == held + [l];
    WithinAcross([Acquire(l)], inside, held, outer);
    WithinAcross([Acquire(l)] + inside, [Release(l)], held, outer);
  }

  lemma FiniWithin(k: Kind, held: seq<Lock>)
    requires TreeLock in held
    ensures Within(Fini(k), held, TreeLock) && HeldAfter(Fini(k), held) == held
  {
    match k
    case Context => WithinSection(TableLock, [], held, TreeLock); HeldSection(TableLock, [], held);
    case Guard => WithinSection(GuardsLock, [], held, TreeLock); HeldSection(GuardsLock, [], held);
    case Timer(last) => WithinSection(TreeLock, [], held, TreeLock); HeldSection(TreeLock, [], held);
    case Other =>
  }

  lemma {:induction false} TeardownWithin(h: Handle, held: seq<Lock>)
    requires TreeLock in held
    ensures Within(Teardown(h), held, TreeLock) && HeldAfter(Teardown(h), held) == held
  {
    hide Within, Fini;
    TeardownAllWithin(h.children, held);
    FiniWithin(h.kind, held);
    WithinAcross(TeardownAll(h.children), Fini(h.kind), held, TreeLock);
    HeldAcross(TeardownAll(h.children), Fini(h.kind), held);
  }

  lemma {:induction false} TeardownAllWithin(hs: seq<Handle>, held: seq<Lock>)
    requires TreeLock in held
    ensures Within(TeardownAll(hs), held, TreeLock) && HeldAfter(TeardownAll(hs), held) == held
  {
    if hs != [] {
      TeardownWithin(hs[0], held);
      TeardownAllWithin(hs[1..], held);
      WithinAcross(Teardown(hs[0]), TeardownAll(hs[1..]), held, TreeLock);
      HeldAcross(Teardown(hs[0]), TeardownAll(hs[1..]), held);
    }
  }

  lemma {:induction false} FinalizeAllWithin(chain: seq<Handle>)
    ensures Within(FinalizeAll(chain), [], TreeLock) && HeldAfter(FinalizeAll(chain), []) == []
  {
    if chain != [] {
      var first := Section(TreeLock, Teardown(chain[0]));
      FinalizeAllWithin(chain[1..]);
      TeardownWithin(chain[0], [] + [TreeLock]);
      WithinSection(TreeLock, Teardown(chain[0]), [], TreeLock);
      HeldSection(TreeLock, Teardown(chain[0]), []);
      WithinAcross(first, FinalizeAll(chain[1..]), [], TreeLock);
      HeldAcross(first, FinalizeAll(chain[1..]), []);
    }
  }

  lemma {:induction false} RoundsWithin(n: nat, held: seq<Lock>)
    requires TableLock in held
    ensures Within(Rounds(n), held, TableLock) && HeldAfter(Rounds(n), held) == held
  {
    if n > 0 {
      RoundsWithin(n - 1, held);
      WithinSection(GuardsLock, [], held, TableLock);
      HeldSection(GuardsLock, [], held);
      WithinAcross(Section(GuardsLock, []), Rounds(n - 1), held, TableLock);
      HeldAcross(Section(GuardsLock, []), Rounds(n - 1), held);
    }
  }

  /** A destroy and a finalizer take every other lock under the tree lock, so nobody sees
    * a tree half torn down; a round of the signal thread shuts contexts down under the
    * table lock, so none of them can be torn down meanwhile. */
  lemma LocksAreNested(h: Handle, chain: seq<Handle>, n: nat)
    ensures Within(Program(Destroy(h)), [], TreeLock)
    ensures Within(Program(Finalize(chain)), [], TreeLock)
    ensures Within(Program(SignalRound(n)), [], TableLock)
  {
    hide Within;
    TeardownWithin(h, [] + [TreeLock]);
    WithinSection(TreeLock, Teardown(h), [], TreeLock);
    FinalizeAllWithin(chain);
    RoundsWithin(n, [] + [TableLock]);
    WithinSection(TableLock, Rounds(n), [], TableLock);
  }

  // ---- Threads -------------------------------------------------------------------------------

  /** What a thread has still to do in its current call, and the locks it holds. */
  datatype Thread = Thread(prog: seq<Op>, held: seq<Lock>)

  type Threads = seq<Thread>

  datatype Action = Start(thread: nat, job: Job) | Move(thread: nat)

  /** Nobody else has l, and neither has t unless it is the recursive tree lock. */
  predicate Obtainable(ts: Threads, t: nat, l: Lock)
    requires t < |ts|
  {
    && (forall u :: 0 <= u < |ts| && u != t ==> l !in ts[u].held)
    && (l == TreeLock || l !in ts[t].held)
  }

  predicate Enabled(ts: Threads, a: Action) {
    match a
    case Start(t, _) => t < |ts| && ts[t].prog == []
    case Move(t) =>
      && t < |ts| && ts[t].prog != []
      && (match ts[t].prog[0]
          case Acquire(l) => Obtainable(ts, t, l)
          case Release(l) => ts[t].held != [] && ts[t].held[|ts[t].held| - 1] == l)
  }

  function Step(ts: Threads, a: Action): Threads {
    if !Enabled(ts, a) then ts
    else
      match a
      case Start(t, job) => ts[t := Thread(Program(job), ts[t].held)]
      case Move(t) =>
        var x := ts[t];
        ts[t := Thread(x.prog[1..], match x.prog[0]
                                    case Acquire(l) => x.held + [l]
                                    case Release(_) => x.held[..|x.held| - 1])]
  }

  /** Any number of threads, all outside every call. */
  function Init(n: nat): Threads {
    seq(n, _ => Thread([], []))
  }

  function Run(n: nat, acts: seq<Action>): Threads {
    if acts == [] then Init(n) else Step(Run(n, acts[..|acts| - 1]), acts[|acts| - 1])
  }

  ghost predicate Inv(ts: Threads) {
    && (forall t :: 0 <= t < |ts| ==> Ordered(ts[t].prog, ts[t].held))
    && (forall t, u, l :: 0 <= t < |ts| && 0 <= u < |ts| && l in ts[t].held && l in ts[u].held ==> t == u)
  }

  lemma StepKeepsInv(ts: Threads, a: Action)
    requires Inv(ts)
    ensures Inv(Step(ts, a))
  {
    if Enabled(ts, a) {
      match a
      case Start(_, job) => EveryJobIsOrdered(job);
      case Move(_) =>
    }
  }

  lemma {:induction false} RunKeepsInv(n: nat, acts: seq<Action>)
    ensures Inv(Run(n, acts)) && |Run(n, acts)| == n
  {
    if acts != [] {
      RunKeepsInv(n, acts[..|acts| - 1]);
      StepKeepsInv(Run(n, acts[..|acts| - 1]), acts[|acts| - 1]);
    }
  }

  /** Each lock has at most one holder. */
  lemma {:induction false} MutualExclusion(n: nat, acts: seq<Action>, t: nat, u: nat, l: Lock)
    requires t < |Run(n, acts)| && u < |Run(n, acts)|
    requires l in Run(n, acts)[t].held && l in Run(n, acts)[u].held
    ensures t == u
  {
    RunKeepsInv(n, acts);
  }

  /** Following who holds what a blocked thread wants goes up the order, so it ends
    * at a thread that can move. */
  lemma {:induction false} SomeoneMoves(ts: Threads, t: nat) returns (a: Action)
    requires Inv(ts) && t < |ts| && ts[t].prog != []
    ensures a.Move? && Enabled(ts, a)
    decreases if ts[t].prog[0].Acquire? then 3 - Rank(ts[t].prog[0].lock) else 0
  {
    assert Ordered(ts[t].prog, ts[t].held);
    if Enabled(ts, Move(t)) {
      a := Move(t);
    } else {
      var l := ts[t].prog[0].lock;
      var u :| 0 <= u < |ts| && u != t && l in ts[u].held;
      assert Ordered(ts[u].prog, ts[u].held);
      if Enabled(ts, Move(u)) {
        a := Move(u);
      } else {
        assert ts[u].prog[0].Acquire?;
        a := SomeoneMoves(ts, u);
      }
    }
  }

  /** Deadlock freedom: whatever calls any number of threads have started, while
    * some thread is inside a call, one of them can move. */
  lemma NeverDeadlocked(n: nat, acts: seq<Action>, t: nat) returns (a: Action)
    requires t < |Run(n, acts)| && Run(n, acts)[t].prog != []
    ensures a.Move? && Enabled(Run(n, acts), a)
  {
    RunKeepsInv(n, acts);
    a := SomeoneMoves(Run(n, acts), t);
  }

  function Remaining(ts: Threads): nat {
    if ts == [] then 0 else Remaining(ts[..|ts| - 1]) + |ts[|ts| - 1].prog|
  }

  lemma {:induction false} RemainingUpdate(ts: Threads, t: nat, x: Thread)
    requires t < |ts|
    ensures Remaining(ts[t := x]) + |ts[t].prog| == Remaining(ts) + |x.prog|
  {
    var last := |ts| - 1;
    if t == last {
      assert ts[t := x][..last] == ts[..last];
    } else {
      RemainingUpdate(ts[..last], t, x);
      assert ts[t := x][..last] == ts[..last][t := x];
    }
  }

  /** Every move shortens what the threads have still to do, so once no new calls
    * start, all calls return after that many moves, in whatever order they come. */
  lemma MovesRunOut(n: nat, acts: seq<Action>, a: Action)
    requires a.Move? && Enabled(Run(n, acts), a)
    ensures Remaining(Step(Run(n, acts), a)) == Remaining(Run(n, acts)) - 1
  {
    var ts := Run(n, acts);
    RemainingUpdate(ts, a.thread, Step(ts, a)[a.thread]);
  }

  lemma {:induction false} AllDone(ts: Threads)
    requires forall t :: 0 <= t < |ts| ==> ts[t].prog == []
    ensures Remaining(ts) == 0
  {
    if ts != [] {
      AllDone(ts[..|ts| - 1]);
    }
  }

  /** A thread outside every call holds nothing and can start any of them, and then has
    * all of it to do. */
  lemma StartBringsAll(n: nat, acts: seq<Action>, t: nat, job: Job)
    requires t < |Run(n, acts)| && Run(n, acts)[t].prog == []
    ensures var ts, us := Run(n, acts), Step(Run(n, acts), Start(t, job));
      && us == ts[t := Thread(Program(job), [])]
      && Remaining(us) == Remaining(ts) + |Program(job)|
  {
    RunKeepsInv(n, acts);
    var ts := Run(n, acts);
    assert Ordered(ts[t].prog, ts[t].held);
    RemainingUpdate(ts, t, Thread(Program(job), []));
  }

  /** From every reachable state the calls under way can all return. */
  lemma {:induction false} CallsCanReturn(n: nat, acts: seq<Action>) returns (more: seq<Action>)
    ensures forall t :: 0 <= t < |Run(n, acts + more)| ==> Run(n, acts + more)[t] == Thread([], [])
    ensures |more| == Remaining(Run(n, acts))
    decreases Remaining(Run(n, acts))
  {
    var ts := Run(n, acts);
    RunKeepsInv(n, acts);
    if t :| 0 <= t < |ts| && ts[t].prog != [] {
      var a := NeverDeadlocked(n, acts, t);
      MovesRunOut(n, acts, a);
      assert (acts + [a])[..|acts|] == acts;
      var rest := CallsCanReturn(n, acts + [a]);
      more := [a] + rest;
      assert acts + more == acts + [a] + rest;
    } else {
      more := [];
      assert acts + more == acts;
      AllDone(ts);
    }
  }
}
