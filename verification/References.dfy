/** Reference counts, finalizers and the recursive tree lock, interleaved over any
  * number of threads: creating handles, destroying them explicitly, dropping
  * references, and the finalizers that run on whichever thread drops the last. */
module References {
  import opened Options

  /** Where a finalizer or an explicit destroy stands: before taking the tree lock,
    * holding it before and after the teardown, and, for a finalizer, releasing
    * the parent and freeing the memory. */
  datatype Stage = Wanting | Holding | Torn | Dropping | Freeing

  /** A call on some thread's stack.  `finied` says whether the handle's own
    * teardown has run. */
  datatype Frame =
    | Finalize(obj: nat, at: Stage)
    | Destroy(obj: nat, at: Stage)
    | Tear(obj: nat, finied: bool)

  /** A frame's thread and its depth in that thread's stack. */
  datatype Place = Place(thread: nat, depth: nat)

  datatype Life = Alive | Dying(place: Place, at: Stage) | Freed

  /** One handle.  `held` is whether the reference to the parent is still counted,
    * `ext` the references the program holds, `pins` the threads whose explicit
    * destroy borrows one, `clock` the clock of a timer until its teardown.
    * `tearing` and `life` also record which frame is at work on the handle. */
  datatype Obj = Obj(
    parent: Option<nat>, held: bool, clock: Option<nat>, isClock: bool,
    valid: bool, linked: bool, finis: nat,
    rc: nat, ext: nat, pins: set<nat>,
    tearing: Option<Place>, life: Life)

  datatype Sys = Sys(objs: seq<Obj>, stacks: map<nat, seq<Frame>>, owner: Option<nat>, depth: nat)

  datatype Action =
    | Create(parent: Option<nat>, clock: Option<nat>, isClock: bool)
    | IncRef(obj: nat)
    | DropRef(thread: nat, obj: nat)
    | CallDestroy(thread: nat, obj: nat)
    | Acquire(thread: nat)
    | Begin(thread: nat)
    | Visit(thread: nat, child: nat)
    | Fini(thread: nat)
    | Unlink(thread: nat)
    | Release(thread: nat)
    | DropParent(thread: nat)
    | FreeMemory(thread: nat)

  function Init(): Sys {
    Sys([], map[], None, 0)
  }

  // ---- Stacks ------------------------------------------------------------------------

  function Stack(s: Sys, t: nat): seq<Frame> {
    if t in s.stacks then s.stacks[t] else []
  }

  function FrameAt(s: Sys, p: Place): Option<Frame> {
    if p.depth < |Stack(s, p.thread)| then Some(Stack(s, p.thread)[p.depth]) else None
  }

  function Top(s: Sys, t: nat): Option<Frame> {
    if Stack(s, t) == [] then None else Some(Stack(s, t)[|Stack(s, t)| - 1])
  }

  function Push(s: Sys, t: nat, f: Frame): Sys {
    s.(stacks := s.stacks[t := Stack(s, t) + [f]])
  }

  function SetTop(s: Sys, t: nat, f: Frame): Sys
    requires Stack(s, t) != []
  {
    s.(stacks := s.stacks[t := Stack(s, t)[|Stack(s, t)| - 1 := f]])
  }

  function Pop(s: Sys, t: nat): Sys
    requires Stack(s, t) != []
  {
    s.(stacks := s.stacks[t := Stack(s, t)[..|Stack(s, t)| - 1]])
  }

  function Put(s: Sys, o: nat, x: Obj): Sys
    requires o < |s.objs|
  {
    s.(objs := s.objs[o := x])
  }

  // ---- Steps ---------------------------------------------------------------------------

  /** A reference handed from the program or a handle is gone; at zero, thread t
    * starts the finalizer. */
  function DropOne(s: Sys, t: nat, o: nat): Sys
    requires o < |s.objs|
  {
    var x := s.objs[o];
    if x.rc > 1 then Put(s, o, x.(rc := x.rc - 1))
    else
      Push(Put(s, o, x.(rc := 0, life := Dying(Place(t, |Stack(s, t)|), Wanting))), t, Finalize(o, Wanting))
  }

  /** The program can name a handle it holds a reference to. */
  predicate Usable(s: Sys, o: nat) {
    o < |s.objs| && s.objs[o].ext > 0
  }

  predicate TopTears(s: Sys, t: nat, finied: bool) {
    match Top(s, t) case Some(Tear(o, d)) => d == finied && o < |s.objs| case _ => false
  }

  predicate TopAt(s: Sys, t: nat, at: Stage) {
    match Top(s, t)
    case Some(Finalize(o, a)) => a == at && o < |s.objs|
    case Some(Destroy(o, a)) => a == at && o < |s.objs|
    case _ => false
  }

  predicate ChildOf(s: Sys, c: nat, p: nat) {
    c < |s.objs| && s.objs[c].linked && s.objs[c].parent == Some(p)
  }

  predicate Enabled(s: Sys, a: Action) {
    match a
    case Create(p, k, isClock) =>
      && (p.Some? ==> Usable(s, p.value) && s.objs[p.value].valid && !s.objs[p.value].isClock)
      && (k.Some? ==> Usable(s, k.value) && s.objs[k.value].valid && s.objs[k.value].isClock)
      && (isClock ==> p == None && k == None)
    case IncRef(o) => Usable(s, o)
    case DropRef(t, o) => Usable(s, o) && Stack(s, t) == []
    case CallDestroy(t, o) => Usable(s, o) && Stack(s, t) == []
    case Acquire(t) => TopAt(s, t, Wanting) && (s.owner == None || s.owner == Some(t))
    case Begin(t) => TopAt(s, t, Holding)
    case Visit(t, c) => TopTears(s, t, false) && ChildOf(s, c, Top(s, t).value.obj)
    case Fini(t) =>
      TopTears(s, t, false) && forall c :: 0 <= c < |s.objs| ==> !ChildOf(s, c, Top(s, t).value.obj)
    case Unlink(t) => TopTears(s, t, true)
    case Release(t) => TopAt(s, t, Torn) && s.depth > 0
    case DropParent(t) => TopAt(s, t, Dropping)
    case FreeMemory(t) => TopAt(s, t, Freeing)
  }

  function AddRef(s: Sys, o: Option<nat>): Sys
    requires o.Some? ==> o.value < |s.objs|
  {
    if o.None? then s else Put(s, o.value, s.objs[o.value].(rc := s.objs[o.value].rc + 1))
  }

  function Newborn(p: Option<nat>, k: Option<nat>, isClock: bool): Obj {
    Obj(p, p.Some?, k, isClock, true, p.Some?, 0, 1, 1, {}, None, Alive)
  }

  /** A new handle takes a reference to its parent, a timer one to its clock too. */
  function Created(s: Sys, p: Option<nat>, k: Option<nat>, isClock: bool): Sys
    requires (p.Some? ==> p.value < |s.objs|) && (k.Some? ==> k.value < |s.objs|)
  {
    var t := AddRef(AddRef(s, p), k);
    t.(objs := t.objs + [Newborn(p, k, isClock)])
  }

  /** The frame with its new stage, which a finalizer also records. */
  function MoveTo(s: Sys, t: nat, at: Stage): Sys
    requires Stack(s, t) != [] && !Top(s, t).value.Tear? && Top(s, t).value.obj < |s.objs|
  {
    match Top(s, t).value
    case Finalize(o, _) =>
      Put(SetTop(s, t, Finalize(o, at)), o, s.objs[o].(life := Dying(Place(t, |Stack(s, t)| - 1), at)))
    case Destroy(o, _) => SetTop(s, t, Destroy(o, at))
  }

  /** `rcllean_destroy_locked` on a valid handle starts a teardown; on another it does nothing. */
  function StartTear(s: Sys, t: nat, o: nat): Sys
    requires o < |s.objs|
  {
    if s.objs[o].valid then
      Push(Put(s, o, s.objs[o].(valid := false, tearing := Some(Place(t, |Stack(s, t)|)))), t, Tear(o, false))
    else s
  }

  function RunFini(s: Sys, t: nat): Sys
    requires Stack(s, t) != [] && Top(s, t).value.obj < |s.objs|
  {
    var o := Top(s, t).value.obj;
    var x := s.objs[o];
    var u := Put(SetTop(s, t, Tear(o, true)), o, x.(finis := x.finis + 1, clock := None));
    if x.clock.Some? && x.clock.value < |s.objs| then DropOne(u, t, x.clock.value) else u
  }

  function LeaveTree(s: Sys, t: nat): Sys
    requires Stack(s, t) != [] && Top(s, t).value.obj < |s.objs|
  {
    var o := Top(s, t).value.obj;
    Put(Pop(s, t), o, s.objs[o].(linked := false, tearing := None))
  }

  function Unlocked(s: Sys): Sys
    requires s.depth > 0
  {
    s.(depth := s.depth - 1, owner := if s.depth == 1 then None else s.owner)
  }

  function AfterUnlock(s: Sys, t: nat): Sys
    requires Stack(s, t) != [] && !Top(s, t).value.Tear? && Top(s, t).value.obj < |s.objs|
  {
    match Top(s, t).value
    case Finalize(_, _) => MoveTo(s, t, Dropping)
    case Destroy(o, _) => Put(Pop(s, t), o, s.objs[o].(ext := s.objs[o].ext + 1, pins := s.objs[o].pins - {t}))
  }

  /** The parent's reference goes before the pointer to it and the memory do. */
  function ReleaseParent(s: Sys, t: nat): Sys
    requires Stack(s, t) != [] && !Top(s, t).value.Tear? && Top(s, t).value.obj < |s.objs|
  {
    var o := Top(s, t).value.obj;
    var u := MoveTo(s, t, Freeing);
    var v := Put(u, o, u.objs[o].(held := false));
    if s.objs[o].parent.Some? && s.objs[o].parent.value < |s.objs| then DropOne(v, t, s.objs[o].parent.value) else v
  }

  function FreeObj(s: Sys, t: nat): Sys
    requires Stack(s, t) != [] && Top(s, t).value.obj < |s.objs|
  {
    var o := Top(s, t).value.obj;
    Put(Pop(s, t), o, s.objs[o].(parent := None, life := Freed))
  }

  /** One atomic step; an action that is not possible changes nothing. */
  function Step(s: Sys, a: Action): Sys {
    if !Enabled(s, a) then s
    else
      match a
      case Create(p, k, isClock) => Created(s, p, k, isClock)
      case IncRef(o) => Put(s, o, s.objs[o].(rc := s.objs[o].rc + 1, ext := s.objs[o].ext + 1))
      case DropRef(t, o) => DropOne(Put(s, o, s.objs[o].(ext := s.objs[o].ext - 1)), t, o)
      case CallDestroy(t, o) =>
        Push(Put(s, o, s.objs[o].(ext := s.objs[o].ext - 1, pins := s.objs[o].pins + {t})), t, Destroy(o, Wanting))
      case Acquire(t) => MoveTo(s, t, Holding).(owner := Some(t), depth := s.depth + 1)
      case Begin(t) => StartTear(MoveTo(s, t, Torn), t, Top(s, t).value.obj)
      case Visit(t, c) => StartTear(s, t, c)
      case Fini(t) => RunFini(s, t)
      case Unlink(t) => LeaveTree(s, t)
      case Release(t) => Unlocked(AfterUnlock(s, t))
      case DropParent(t) => ReleaseParent(s, t)
      case FreeMemory(t) => FreeObj(s, t)
  }

  function RunFrom(s: Sys, acts: seq<Action>): Sys
    decreases |acts|
  {
    if acts == [] then s else RunFrom(Step(s, acts[0]), acts[1..])
  }

  function Run(acts: seq<Action>): Sys {
    RunFrom(Init(), acts)
  }

  // ---- What holds of each handle ----------------------------------------------------------

  /** The record of one handle is consistent with itself. */
  predicate Sound(x: Obj) {
    && (x.valid ==> x.finis == 0 && x.tearing.None?)
    && (x.tearing.Some? ==> x.finis <= 1)
    && (!x.valid && x.tearing.None? ==> x.finis == 1)
    && (x.linked <==> x.parent.Some? && (x.valid || x.tearing.Some?))
    && (x.linked ==> x.held)
    && (x.held ==> x.parent.Some?)
    && (x.clock.Some? ==> x.finis == 0)
    && (x.isClock ==> x.parent.None? && x.clock.None?)
    && (x.rc > 0 <==> x.life.Alive?)
    && (x.parent.Some? && !x.held ==> x.life.Dying? && x.life.at == Freeing)
    && (match x.life
        case Alive => true
        case Dying(p, at) =>
          && (at == Freeing ==> !x.held)
          && (at == Dropping || at == Freeing ==> !x.valid && x.tearing.None?)
          && (at == Torn ==> !x.valid && (x.tearing.Some? ==> x.tearing.value == Place(p.thread, p.depth + 1)))
        case Freed => !x.valid && x.tearing.None? && x.parent.None?)
  }

  /** Parents and clocks are older handles, and a clock is no parent. */
  predicate Rooted(objs: seq<Obj>, o: nat)
    requires o < |objs|
  {
    && (objs[o].parent.Some? ==> objs[o].parent.value < o && !objs[objs[o].parent.value].isClock)
    && (objs[o].clock.Some? ==> objs[o].clock.value < o && objs[objs[o].clock.value].isClock)
  }

  /** The frames a handle records are there. */
  predicate Placed(s: Sys, o: nat)
    requires o < |s.objs|
  {
    && (s.objs[o].tearing.Some? ==>
          FrameAt(s, s.objs[o].tearing.value) == Some(Tear(o, s.objs[o].finis == 1)))
    && (s.objs[o].life.Dying? ==>
          FrameAt(s, s.objs[o].life.place) == Some(Finalize(o, s.objs[o].life.at)))
    && (forall t :: t in s.objs[o].pins ==>
          FrameAt(s, Place(t, 0)).Some? && FrameAt(s, Place(t, 0)).value.Destroy?
          && FrameAt(s, Place(t, 0)).value.obj == o)
  }

  /** Each frame is the one its handle records. */
  predicate Known(s: Sys, p: Place) {
    match FrameAt(s, p)
    case None => true
    case Some(Tear(o, _)) => o < |s.objs| && s.objs[o].tearing == Some(p)
    case Some(Finalize(o, at)) => o < |s.objs| && s.objs[o].life == Dying(p, at)
    case Some(Destroy(o, at)) =>
      p.depth == 0 && o < |s.objs| && p.thread in s.objs[o].pins && at != Dropping && at != Freeing
  }

  /** What a frame may have above it. */
  predicate MayCall(objs: seq<Obj>, f: Frame, g: Frame) {
    && f.obj < |objs| && g.obj < |objs|
    && match f
       case Tear(x, finied) =>
         if finied then g.Finalize? && objs[g.obj].isClock && !objs[x].isClock
         else g.Tear? && objs[g.obj].parent == Some(x)
       case Finalize(x, at) =>
         (at == Torn && g.Tear? && g.obj == x)
         || (at == Freeing && g.Finalize? && objs[x].parent == Some(g.obj))
       case Destroy(x, at) => at == Torn && g.Tear? && g.obj == x
  }

  predicate Shaped(s: Sys, p: Place) {
    FrameAt(s, p).Some? ==>
      if p.depth == 0 then !FrameAt(s, p).value.Tear?
      else
        FrameAt(s, Place(p.thread, p.depth - 1)).Some?
        && MayCall(s.objs, FrameAt(s, Place(p.thread, p.depth - 1)).value, FrameAt(s, p).value)
  }

  predicate Holds(f: Frame) {
    !f.Tear? && (f.at == Holding || f.at == Torn)
  }

  function Depth(stack: seq<Frame>): nat {
    if stack == [] then 0
    else Depth(stack[..|stack| - 1]) + (if Holds(stack[|stack| - 1]) then 1 else 0)
  }

  /** The lock is held by the one thread with holding frames, once for each. */
  ghost predicate Locked(s: Sys) {
    && (s.owner.None? <==> s.depth == 0)
    && forall t: nat :: Depth(Stack(s, t)) == if s.owner == Some(t) then s.depth else 0
  }

  function RefsOf(x: Obj, o: nat): nat {
    (if x.held && x.parent == Some(o) then 1 else 0) + (if x.clock == Some(o) then 1 else 0)
  }

  function Refs(objs: seq<Obj>, o: nat): nat {
    if objs == [] then 0 else Refs(objs[..|objs| - 1], o) + RefsOf(objs[|objs| - 1], o)
  }

  /** The count is the program's references, the borrowed ones, the children that
    * have not released theirs, and the timers not torn down that hold this clock. */
  predicate Counted(objs: seq<Obj>, o: nat)
    requires o < |objs|
  {
    objs[o].rc == objs[o].ext + |objs[o].pins| + Refs(objs, o)
  }

  predicate ChildrenFirst(objs: seq<Obj>, c: nat)
    requires c < |objs|
  {
    objs[c].parent.Some? && objs[c].parent.value < |objs| && objs[objs[c].parent.value].finis > 0 ==> objs[c].finis > 0
  }

  ghost predicate ObjsOk(objs: seq<Obj>) {
    forall o :: 0 <= o < |objs| ==> Sound(objs[o]) && Rooted(objs, o) && ChildrenFirst(objs, o)
  }

  ghost predicate PlacesOk(s: Sys) {
    && (forall o :: 0 <= o < |s.objs| ==> Placed(s, o))
    && (forall p :: Known(s, p))
  }

  ghost predicate ShapeOk(s: Sys) {
    forall p :: Shaped(s, p)
  }

  ghost predicate CountsOk(objs: seq<Obj>) {
    forall o :: 0 <= o < |objs| ==> Counted(objs, o)
  }

  ghost predicate Inv(s: Sys) {
    ObjsOk(s.objs) && PlacesOk(s) && ShapeOk(s) && Locked(s) && CountsOk(s.objs)
  }

  // ---- Stacks and counts under change ---------------------------------------------------------

  lemma PushFrames(s: Sys, t: nat, f: Frame)
    ensures forall p :: FrameAt(Push(s, t, f), p) == if p == Place(t, |Stack(s, t)|) then Some(f) else FrameAt(s, p)
  {
  }

  lemma SetTopFrames(s: Sys, t: nat, f: Frame)
    requires Stack(s, t) != []
    ensures forall p ::
      FrameAt(SetTop(s, t, f), p) == if p == Place(t, |Stack(s, t)| - 1) then Some(f) else FrameAt(s, p)
  {
  }

  lemma PopFrames(s: Sys, t: nat)
    requires Stack(s, t) != []
    ensures forall p :: FrameAt(Pop(s, t), p) == if p == Place(t, |Stack(s, t)| - 1) then None else FrameAt(s, p)
  {
  }

  lemma TopFrame(s: Sys, t: nat)
    ensures Stack(s, t) != [] ==> FrameAt(s, Place(t, |Stack(s, t)| - 1)) == Top(s, t)
    ensures FrameAt(s, Place(t, |Stack(s, t)|)) == None
  {
  }

  function Held(f: Frame): nat {
    if Holds(f) then 1 else 0
  }

  lemma PushDepth(s: Sys, t: nat, f: Frame)
    ensures forall u: nat :: u != t ==> Depth(Stack(Push(s, t, f), u)) == Depth(Stack(s, u))
    ensures Depth(Stack(Push(s, t, f), t)) == Depth(Stack(s, t)) + Held(f)
  {
    assert (Stack(s, t) + [f])[..|Stack(s, t)|] == Stack(s, t);
  }

  lemma SetTopDepth(s: Sys, t: nat, f: Frame)
    requires Stack(s, t) != []
    ensures forall u: nat :: u != t ==> Depth(Stack(SetTop(s, t, f), u)) == Depth(Stack(s, u))
    ensures Depth(Stack(SetTop(s, t, f), t)) + Held(Top(s, t).value) == Depth(Stack(s, t)) + Held(f)
  {
    var st := Stack(s, t);
    assert st[|st| - 1 := f][..|st| - 1] == st[..|st| - 1];
  }

  lemma PopDepth(s: Sys, t: nat)
    requires Stack(s, t) != []
    ensures forall u: nat :: u != t ==> Depth(Stack(Pop(s, t), u)) == Depth(Stack(s, u))
    ensures Depth(Stack(Pop(s, t), t)) + Held(Top(s, t).value) == Depth(Stack(s, t))
  {
  }

  lemma {:induction false} DepthCounts(stack: seq<Frame>, i: nat)
    requires i < |stack| && Holds(stack[i])
    ensures Depth(stack) >= 1
  {
    if i < |stack| - 1 {
      DepthCounts(stack[..|stack| - 1], i);
    }
  }

  lemma {:induction false} RefsPut(objs: seq<Obj>, o: nat, x: Obj, q: nat)
    requires o < |objs|
    ensures Refs(objs[o := x], q) + RefsOf(objs[o], q) == Refs(objs, q) + RefsOf(x, q)
  {
    var last := |objs| - 1;
    if o == last {
      assert objs[o := x][..last] == objs[..last];
    } else {
      RefsPut(objs[..last], o, x, q);
      assert objs[o := x][..last] == objs[..last][o := x];
    }
  }

  lemma RefsAppend(objs: seq<Obj>, x: Obj, q: nat)
    ensures Refs(objs + [x], q) == Refs(objs, q) + RefsOf(x, q)
  {
    assert (objs + [x])[..|objs|] == objs;
  }

  lemma {:induction false} RefsAtLeast(objs: seq<Obj>, c: nat, q: nat)
    requires c < |objs|
    ensures Refs(objs, q) >= RefsOf(objs[c], q)
  {
    if c < |objs| - 1 {
      RefsAtLeast(objs[..|objs| - 1], c, q);
    }
  }

  /** A handle holding a reference keeps its target alive. */
  lemma HolderKeepsAlive(s: Sys, c: nat, q: nat)
    requires Inv(s) && c < |s.objs| && q < |s.objs| && RefsOf(s.objs[c], q) > 0
    ensures s.objs[q].life.Alive?
  {
    RefsAtLeast(s.objs, c, q);
    assert Sound(s.objs[q]) && Counted(s.objs, q);
  }

  // ---- Changing one record ------------------------------------------------------------------------

  /** x may replace the record of o: it is sound, its references are old ones, and
    * a first teardown comes after those of the children. */
  ghost predicate MayBecome(objs: seq<Obj>, o: nat, x: Obj)
    requires o < |objs|
  {
    && Sound(x) && x.isClock == objs[o].isClock
    && (x.parent == objs[o].parent || x.parent == None)
    && (x.clock == objs[o].clock || x.clock == None)
    && x.finis >= objs[o].finis
    && (x.finis > objs[o].finis ==> forall c :: 0 <= c < |objs| && objs[c].parent == Some(o) ==> objs[c].finis > 0)
  }

  lemma PutKeepsObjsOk(objs: seq<Obj>, o: nat, x: Obj)
    requires ObjsOk(objs) && o < |objs| && MayBecome(objs, o, x)
    ensures ObjsOk(objs[o := x])
  {
    hide Sound;
    var n := objs[o := x];
    forall q | 0 <= q < |n| ensures Sound(n[q]) && Rooted(n, q) && ChildrenFirst(n, q) {
      assert Sound(objs[q]) && Rooted(objs, q) && ChildrenFirst(objs, q);
    }
  }

  /** The two records put the same demands on the stacks. */
  predicate SamePlaces(x: Obj, y: Obj) {
    x.tearing == y.tearing && x.life == y.life && x.pins == y.pins && x.finis == y.finis
  }

  lemma PutKeepsPlacesOk(s: Sys, o: nat, x: Obj)
    requires PlacesOk(s) && o < |s.objs| && SamePlaces(s.objs[o], x)
    ensures PlacesOk(Put(s, o, x))
  {
    var t := Put(s, o, x);
    forall q | 0 <= q < |t.objs| ensures Placed(t, q) {
      assert Placed(s, q);
    }
    forall p ensures Known(t, p) {
      assert Known(s, p) && FrameAt(t, p) == FrameAt(s, p);
    }
  }

  lemma PutKeepsShapeOk(s: Sys, o: nat, x: Obj)
    requires ShapeOk(s) && o < |s.objs| && x.parent == s.objs[o].parent && x.isClock == s.objs[o].isClock
    ensures ShapeOk(Put(s, o, x))
  {
    var t := Put(s, o, x);
    forall p ensures Shaped(t, p) {
      assert Shaped(s, p);
    }
  }

  lemma PutKeepsLocked(s: Sys, o: nat, x: Obj)
    requires Locked(s) && o < |s.objs|
    ensures Locked(Put(s, o, x))
  {
    assert forall u: nat :: Stack(Put(s, o, x), u) == Stack(s, u);
  }

  lemma PutKeepsCounted(objs: seq<Obj>, o: nat, x: Obj, q: nat)
    requires o < |objs| && q < |objs| && Counted(objs, q) && RefsOf(x, q) == RefsOf(objs[o], q)
    requires x.rc - x.ext - |x.pins| == objs[o].rc - objs[o].ext - |objs[o].pins|
    ensures Counted(objs[o := x], q)
  {
    RefsPut(objs, o, x, q);
  }

  lemma PutKeepsCounts(objs: seq<Obj>, o: nat, x: Obj)
    requires CountsOk(objs) && o < |objs| && forall q: nat :: RefsOf(x, q) == RefsOf(objs[o], q)
    requires x.rc - x.ext - |x.pins| == objs[o].rc - objs[o].ext - |objs[o].pins|
    ensures CountsOk(objs[o := x])
  {
    hide Counted, RefsOf;
    var n := objs[o := x];
    forall q | 0 <= q < |n| ensures Counted(n, q) {
      PutKeepsCounted(objs, o, x, q);
    }
  }

  /** A frame of o is pushed and recorded. */
  lemma PushKeepsPlacesOk(s: Sys, t: nat, f: Frame, o: nat, x: Obj)
    requires PlacesOk(s) && o < |s.objs| && f.obj == o
    requires var y := s.objs[o];
      var p := Place(t, |Stack(s, t)|);
      match f
      case Tear(_, d) =>
        y.tearing.None? && x == x.(life := y.life, pins := y.pins, tearing := Some(p)) && d == (x.finis == 1)
      case Finalize(_, at) => y.life.Alive? && x.life == Dying(p, at) && SamePlaces(y, x.(life := y.life))
      case Destroy(_, at) =>
        p.depth == 0 && at == Wanting && x.pins == y.pins + {t} && SamePlaces(y, x.(pins := y.pins))
    ensures PlacesOk(Push(Put(s, o, x), t, f))
  {
    var u := Push(Put(s, o, x), t, f);
    PushFrames(Put(s, o, x), t, f);
    TopFrame(s, t);
    forall p ensures Known(u, p) {
      assert Known(s, p) && FrameAt(Put(s, o, x), p) == FrameAt(s, p);
    }
    forall q | 0 <= q < |u.objs| ensures Placed(u, q) {
      assert Placed(s, q);
      assert forall p :: FrameAt(Put(s, o, x), p) == FrameAt(s, p);
    }
  }

  /** The top frame of o moves on, and o records it. */
  lemma SetTopKeepsPlacesOk(s: Sys, t: nat, f: Frame, o: nat, x: Obj)
    requires PlacesOk(s) && o < |s.objs| && f.obj == o && Top(s, t).Some? && Top(s, t).value.obj == o
    requires var y := s.objs[o];
      var p := Place(t, |Stack(s, t)| - 1);
      match f
      case Tear(_, d) => Top(s, t).value.Tear? && SamePlaces(y, x.(finis := y.finis)) && d == (x.finis == 1)
      case Finalize(_, at) => Top(s, t).value.Finalize? && x.life == Dying(p, at) && SamePlaces(y, x.(life := y.life))
      case Destroy(_, at) => Top(s, t).value.Destroy? && at != Dropping && at != Freeing && SamePlaces(y, x)
    ensures PlacesOk(Put(SetTop(s, t, f), o, x))
  {
    var u := Put(SetTop(s, t, f), o, x);
    SetTopFrames(s, t, f);
    TopFrame(s, t);
    assert forall p :: FrameAt(u, p) == FrameAt(SetTop(s, t, f), p);
    assert Known(s, Place(t, |Stack(s, t)| - 1));
    forall p ensures Known(u, p) {
      assert Known(s, p);
    }
    forall q | 0 <= q < |u.objs| ensures Placed(u, q) {
      assert Placed(s, q);
    }
  }

  /** The top frame of o returns, and o forgets it. */
  lemma PopKeepsPlacesOk(s: Sys, t: nat, o: nat, x: Obj)
    requires PlacesOk(s) && o < |s.objs| && Top(s, t).Some? && Top(s, t).value.obj == o
    requires var y := s.objs[o];
      match Top(s, t).value
      case Tear(_, _) => x.tearing.None? && SamePlaces(y, x.(tearing := y.tearing))
      case Finalize(_, _) => x.life.Freed? && SamePlaces(y, x.(life := y.life))
      case Destroy(_, _) => x.pins == y.pins - {t} && SamePlaces(y, x.(pins := y.pins))
    ensures PlacesOk(Put(Pop(s, t), o, x))
  {
    var u := Put(Pop(s, t), o, x);
    PopFrames(s, t);
    TopFrame(s, t);
    assert forall p :: FrameAt(u, p) == FrameAt(Pop(s, t), p);
    assert Known(s, Place(t, |Stack(s, t)| - 1));
    forall p ensures Known(u, p) {
      assert Known(s, p);
    }
    forall q | 0 <= q < |u.objs| ensures Placed(u, q) {
      assert Placed(s, q);
    }
  }

  lemma PushKeepsShapeOk(s: Sys, t: nat, f: Frame)
    requires ShapeOk(s) && if Stack(s, t) == [] then !f.Tear? else MayCall(s.objs, Top(s, t).value, f)
    ensures ShapeOk(Push(s, t, f))
  {
    hide MayCall;
    PushFrames(s, t, f);
    TopFrame(s, t);
    forall p ensures Shaped(Push(s, t, f), p) {
      assert Shaped(s, p);
    }
  }

  lemma SetTopKeepsShapeOk(s: Sys, t: nat, f: Frame)
    requires ShapeOk(s) && Top(s, t).Some? && f.obj == Top(s, t).value.obj
    requires (f.Tear? <==> Top(s, t).value.Tear?) && (f.Finalize? <==> Top(s, t).value.Finalize?)
    ensures ShapeOk(SetTop(s, t, f))
  {
    SetTopFrames(s, t, f);
    TopFrame(s, t);
    assert Shaped(s, Place(t, |Stack(s, t)| - 1));
    forall p ensures Shaped(SetTop(s, t, f), p) {
      assert Shaped(s, p);
      if FrameAt(s, p).Some? && p.depth > 0 {
        assert p != Place(t, |Stack(s, t)|);
      }
    }
  }

  lemma PopKeepsShapeOk(s: Sys, t: nat)
    requires ShapeOk(s) && Top(s, t).Some?
    ensures ShapeOk(Pop(s, t))
  {
    hide MayCall;
    PopFrames(s, t);
    forall p ensures Shaped(Pop(s, t), p) {
      assert Shaped(s, p);
      if p.depth > 0 && FrameAt(Pop(s, t), p).Some? {
        assert p.depth - 1 < |Stack(s, p.thread)| - 1;
      }
    }
  }

  lemma IncRefSound(s: Sys, o: nat)
    requires Inv(s) && Usable(s, o)
    ensures MayBecome(s.objs, o, s.objs[o].(rc := s.objs[o].rc + 1, ext := s.objs[o].ext + 1))
  {
    assert Sound(s.objs[o]) && Counted(s.objs, o);
  }

  lemma IncRefKeepsInv(s: Sys, o: nat)
    requires Inv(s) && Usable(s, o)
    ensures Inv(Step(s, IncRef(o)))
  {
    hide ObjsOk, PlacesOk, ShapeOk, Locked, CountsOk;
    var x := s.objs[o].(rc := s.objs[o].rc + 1, ext := s.objs[o].ext + 1);
    IncRefSound(s, o);
    PutKeepsObjsOk(s.objs, o, x);
    PutKeepsPlacesOk(s, o, x);
    PutKeepsShapeOk(s, o, x);
    PutKeepsLocked(s, o, x);
    PutKeepsCounts(s.objs, o, x);
  }

  // ---- Dropping one reference -----------------------------------------------------------------------

  /** One reference to o is gone and not yet subtracted. */
  ghost predicate Overcounted(objs: seq<Obj>, o: nat) {
    && o < |objs| && objs[o].rc == 1 + objs[o].ext + |objs[o].pins| + Refs(objs, o)
    && forall q :: 0 <= q < |objs| && q != o ==> Counted(objs, q)
  }

  ghost predicate Owing(s: Sys, o: nat) {
    ObjsOk(s.objs) && PlacesOk(s) && ShapeOk(s) && Locked(s) && Overcounted(s.objs, o)
  }

  lemma PutSettlesCounts(objs: seq<Obj>, o: nat, x: Obj)
    requires Overcounted(objs, o) && x.rc == objs[o].rc - 1 && x.ext == objs[o].ext && x.pins == objs[o].pins
    requires x.parent == objs[o].parent && x.held == objs[o].held && x.clock == objs[o].clock
    ensures CountsOk(objs[o := x])
  {
    var n := objs[o := x];
    forall q | 0 <= q < |n| ensures Counted(n, q) {
      RefsPut(objs, o, x, q);
      assert q != o ==> Counted(objs, q);
    }
  }

  lemma PushKeepsLocked(s: Sys, t: nat, f: Frame)
    requires Locked(s) && !Holds(f)
    ensures Locked(Push(s, t, f))
  {
    PushDepth(s, t, f);
    forall u: nat ensures Depth(Stack(Push(s, t, f), u)) == Depth(Stack(s, u)) {}
  }

  lemma DropOneSound(x: Obj, p: Place)
    requires Sound(x) && x.rc > 0
    ensures x.rc > 1 ==> Sound(x.(rc := x.rc - 1))
    ensures Sound(x.(rc := 0, life := Dying(p, Wanting)))
  {
  }

  lemma OwedIsAlive(s: Sys, o: nat)
    requires Owing(s, o)
    ensures o < |s.objs| && Sound(s.objs[o]) && s.objs[o].rc > 0 && s.objs[o].life.Alive?
  {
  }

  lemma MayChangeCounts(objs: seq<Obj>, o: nat, x: Obj)
    requires o < |objs| && Sound(x) && x.isClock == objs[o].isClock && x.finis == objs[o].finis
    requires (x.parent == objs[o].parent || x.parent.None?) && (x.clock == objs[o].clock || x.clock.None?)
    ensures MayBecome(objs, o, x)
  {
  }

  lemma SameCalls(objs: seq<Obj>, o: nat, x: Obj)
    requires o < |objs| && x.parent == objs[o].parent && x.isClock == objs[o].isClock
    ensures forall f, g :: MayCall(objs[o := x], f, g) <==> MayCall(objs, f, g)
  {
  }

  lemma DropOneKeepsInv(s: Sys, t: nat, o: nat)
    requires Owing(s, o)
    requires Stack(s, t) == [] || MayCall(s.objs, Top(s, t).value, Finalize(o, Wanting))
    ensures Inv(DropOne(s, t, o))
  {
    hide ObjsOk, PlacesOk, ShapeOk, Locked, CountsOk, MayCall, Overcounted, MayBecome, Sound;
    OwedIsAlive(s, o);
    var x := s.objs[o];
    var p := Place(t, |Stack(s, t)|);
    DropOneSound(x, p);
    if x.rc > 1 {
      var y := x.(rc := x.rc - 1);
      MayChangeCounts(s.objs, o, y);
      PutKeepsObjsOk(s.objs, o, y);
      PutKeepsPlacesOk(s, o, y);
      PutKeepsShapeOk(s, o, y);
      PutKeepsLocked(s, o, y);
      PutSettlesCounts(s.objs, o, y);
    } else {
      var y := x.(rc := 0, life := Dying(p, Wanting));
      MayChangeCounts(s.objs, o, y);
      PutKeepsObjsOk(s.objs, o, y);
      PushKeepsPlacesOk(s, t, Finalize(o, Wanting), o, y);
      PutKeepsShapeOk(s, o, y);
      SameCalls(s.objs, o, y);
      PushKeepsShapeOk(Put(s, o, y), t, Finalize(o, Wanting));
      PutKeepsLocked(s, o, y);
      PushKeepsLocked(Put(s, o, y), t, Finalize(o, Wanting));
      PutSettlesCounts(s.objs, o, y);
    }
  }

  lemma CountsSound(s: Sys, o: nat)
    requires Inv(s) && o < |s.objs|
    ensures Sound(s.objs[o]) && (s.objs[o].ext > 0 ==> s.objs[o].rc > 0 && s.objs[o].life.Alive?)
    ensures s.objs[o].ext > 0 ==> Sound(s.objs[o].(ext := s.objs[o].ext - 1))
  {
    assert Counted(s.objs, o);
  }

  lemma ExtGone(objs: seq<Obj>, o: nat, x: Obj)
    requires CountsOk(objs) && o < |objs| && objs[o].ext > 0 && x == objs[o].(ext := objs[o].ext - 1)
    ensures Overcounted(objs[o := x], o)
  {
    var n := objs[o := x];
    forall q | 0 <= q < |n| ensures Refs(n, q) == Refs(objs, q) {
      RefsPut(objs, o, x, q);
    }
    assert Counted(objs, o);
    forall q | 0 <= q < |n| && q != o ensures Counted(n, q) {
      assert Counted(objs, q);
    }
  }

  lemma DropRefKeepsInv(s: Sys, t: nat, o: nat)
    requires Inv(s) && Enabled(s, DropRef(t, o))
    ensures Inv(Step(s, DropRef(t, o)))
  {
    hide ObjsOk, PlacesOk, ShapeOk, Locked, CountsOk, MayCall, Overcounted, MayBecome, DropOne;
    var x := s.objs[o].(ext := s.objs[o].ext - 1);
    CountsSound(s, o);
    MayChangeCounts(s.objs, o, x);
    PutKeepsObjsOk(s.objs, o, x);
    PutKeepsPlacesOk(s, o, x);
    PutKeepsShapeOk(s, o, x);
    PutKeepsLocked(s, o, x);
    ExtGone(s.objs, o, x);
    DropOneKeepsInv(Put(s, o, x), t, o);
  }

  // ---- Calls and the lock ---------------------------------------------------------------------------

  /** A thread outside every call borrows nothing. */
  lemma NotPinned(s: Sys, t: nat, o: nat)
    requires PlacesOk(s) && o < |s.objs| && Stack(s, t) == []
    ensures t !in s.objs[o].pins
  {
    assert Placed(s, o);
  }

  lemma CallDestroyKeepsInv(s: Sys, t: nat, o: nat)
    requires Inv(s) && Enabled(s, CallDestroy(t, o))
    ensures Inv(Step(s, CallDestroy(t, o)))
  {
    hide ObjsOk, PlacesOk, ShapeOk, Locked, CountsOk, MayCall, MayBecome, Refs;
    var x := s.objs[o].(ext := s.objs[o].ext - 1, pins := s.objs[o].pins + {t});
    NotPinned(s, t, o);
    CountsSound(s, o);
    MayChangeCounts(s.objs, o, x);
    PutKeepsObjsOk(s.objs, o, x);
    PushKeepsPlacesOk(s, t, Destroy(o, Wanting), o, x);
    PutKeepsShapeOk(s, o, x);
    PushKeepsShapeOk(Put(s, o, x), t, Destroy(o, Wanting));
    PutKeepsLocked(s, o, x);
    PushKeepsLocked(Put(s, o, x), t, Destroy(o, Wanting));
    PutKeepsCounts(s.objs, o, x);
  }

  /** Taking the lock once more, on the thread that has it or when it is free. */
  lemma TakeKeepsLocked(s: Sys, t: nat, f: Frame)
    requires Locked(s) && Top(s, t).Some? && !Holds(Top(s, t).value) && Holds(f)
    requires s.owner == None || s.owner == Some(t)
    ensures Locked(SetTop(s, t, f).(owner := Some(t), depth := s.depth + 1))
  {
    var u := SetTop(s, t, f).(owner := Some(t), depth := s.depth + 1);
    SetTopDepth(s, t, f);
    forall v: nat ensures Depth(Stack(u, v)) == if u.owner == Some(v) then u.depth else 0 {
      assert Stack(u, v) == Stack(SetTop(s, t, f), v);
      if v != t {
        assert Depth(Stack(s, v)) == 0;
      }
    }
  }

  /** A holding top frame is on the thread that owns the lock. */
  lemma HolderOwns(s: Sys, t: nat, i: nat)
    requires Locked(s) && i < |Stack(s, t)| && Holds(Stack(s, t)[i])
    ensures s.owner == Some(t) && s.depth > 0
  {
    DepthCounts(Stack(s, t), i);
  }

  lemma StaysLocked(s: Sys, t: nat, f: Frame)
    requires Locked(s) && Top(s, t).Some? && (Holds(Top(s, t).value) <==> Holds(f))
    ensures Locked(SetTop(s, t, f))
  {
    SetTopDepth(s, t, f);
    forall v: nat ensures Depth(Stack(SetTop(s, t, f), v)) == Depth(Stack(s, v)) {}
  }

  lemma GiveBackLocked(s: Sys, t: nat, u: Sys)
    requires Locked(s) && Top(s, t).Some? && Holds(Top(s, t).value) && u.owner == s.owner && u.depth == s.depth
    requires u.depth > 0
    requires (u.stacks == Pop(s, t).stacks) || exists f :: !Holds(f) && u.stacks == SetTop(s, t, f).stacks
    ensures Locked(Unlocked(u))
  {
    HolderOwns(s, t, |Stack(s, t)| - 1);
    assert Depth(Stack(u, t)) == Depth(Stack(s, t)) - 1 && forall v: nat :: v != t ==> Stack(u, v) == Stack(s, v) by {
      if u.stacks == Pop(s, t).stacks {
        PopDepth(s, t);
        assert Stack(u, t) == Stack(Pop(s, t), t);
      } else {
        var f :| !Holds(f) && u.stacks == SetTop(s, t, f).stacks;
        SetTopDepth(s, t, f);
        assert Stack(u, t) == Stack(SetTop(s, t, f), t);
      }
    }
    forall v: nat
      ensures Depth(Stack(Unlocked(u), v)) == if Unlocked(u).owner == Some(v) then Unlocked(u).depth else 0
    {
      assert Stack(Unlocked(u), v) == Stack(u, v);
      assert Depth(Stack(s, v)) == if s.owner == Some(v) then s.depth else 0;
    }
  }

  /** The record of the top frame's handle after that frame moves to another stage. */
  function Moved(s: Sys, t: nat, at: Stage): Obj
    requires Stack(s, t) != [] && !Top(s, t).value.Tear? && Top(s, t).value.obj < |s.objs|
  {
    var x := s.objs[Top(s, t).value.obj];
    if Top(s, t).value.Finalize? then x.(life := Dying(Place(t, |Stack(s, t)| - 1), at)) else x
  }

  function NextFrame(s: Sys, t: nat, at: Stage): Frame
    requires Stack(s, t) != [] && !Top(s, t).value.Tear?
  {
    match Top(s, t).value
    case Finalize(o, _) => Finalize(o, at)
    case Destroy(o, _) => Destroy(o, at)
  }

  /** Everything but the lock and the soundness of the moved record is kept. */
  lemma MoveToKeeps(s: Sys, t: nat, at: Stage)
    requires Inv(s) && Stack(s, t) != [] && !Top(s, t).value.Tear? && Top(s, t).value.obj < |s.objs|
    requires Sound(Moved(s, t, at)) && (Top(s, t).value.Destroy? ==> at != Dropping && at != Freeing)
    ensures var u := MoveTo(s, t, at);
      ObjsOk(u.objs) && PlacesOk(u) && ShapeOk(u) && CountsOk(u.objs) && |u.objs| == |s.objs|
      && u.owner == s.owner && u.depth == s.depth
      && Stack(u, t) == Stack(s, t)[|Stack(s, t)| - 1 := NextFrame(s, t, at)]
      && u.stacks == SetTop(s, t, NextFrame(s, t, at)).stacks
      && u.objs == s.objs[Top(s, t).value.obj := Moved(s, t, at)]
  {
    hide ObjsOk, PlacesOk, ShapeOk, Locked, CountsOk, MayCall, MayBecome, Sound, Refs;
    var o := Top(s, t).value.obj;
    var x := Moved(s, t, at);
    var f := NextFrame(s, t, at);
    MayChangeCounts(s.objs, o, x);
    PutKeepsObjsOk(s.objs, o, x);
    SetTopKeepsPlacesOk(s, t, f, o, x);
    SetTopKeepsShapeOk(s, t, f);
    PutKeepsShapeOk(SetTop(s, t, f), o, x);
    PutKeepsCounts(s.objs, o, x);
    assert s.objs[o := s.objs[o]] == s.objs;
    assert Put(SetTop(s, t, f), o, x) == MoveTo(s, t, at);
  }

  // ---- What the shape of a stack rules out --------------------------------------------------------------

  /** Every teardown runs under a frame that holds the lock. */
  lemma {:induction false} TearHolds(s: Sys, t: nat, i: nat)
    requires ShapeOk(s) && Locked(s) && FrameAt(s, Place(t, i)).Some? && FrameAt(s, Place(t, i)).value.Tear?
    ensures s.owner == Some(t) && s.depth > 0
  {
    assert Shaped(s, Place(t, i));
    var below := FrameAt(s, Place(t, i - 1)).value;
    if below.Tear? {
      TearHolds(s, t, i - 1);
    } else {
      HolderOwns(s, t, i - 1);
    }
  }

  /** A finalizer of anything but a clock never runs inside a teardown. */
  lemma {:induction false} NoTearBelow(s: Sys, t: nat, i: nat, j: nat)
    requires ShapeOk(s) && ObjsOk(s.objs) && i < j
    requires FrameAt(s, Place(t, j)).Some? && FrameAt(s, Place(t, j)).value.Finalize?
    requires var o := FrameAt(s, Place(t, j)).value.obj; o < |s.objs| && !s.objs[o].isClock
    ensures FrameAt(s, Place(t, i)).Some? && !FrameAt(s, Place(t, i)).value.Tear?
  {
    assert Shaped(s, Place(t, j));
    var below := FrameAt(s, Place(t, j - 1)).value;
    assert Sound(s.objs[below.obj]);
    if i < j - 1 {
      NoTearBelow(s, t, i, j - 1);
    }
  }

  /** The teardown of a clock calls nothing. */
  lemma ClockIsTop(s: Sys, t: nat, i: nat)
    requires ShapeOk(s) && ObjsOk(s.objs) && FrameAt(s, Place(t, i)).Some? && FrameAt(s, Place(t, i)).value.Tear?
    requires var o := FrameAt(s, Place(t, i)).value.obj; o < |s.objs| && s.objs[o].isClock
    ensures i + 1 == |Stack(s, t)|
  {
    assert Shaped(s, Place(t, i + 1));
  }

  lemma DestroyIsFirst(s: Sys, t: nat, i: nat)
    requires ShapeOk(s) && FrameAt(s, Place(t, i)).Some? && FrameAt(s, Place(t, i)).value.Destroy?
    ensures i == 0
  {
    assert Shaped(s, Place(t, i));
  }

  /** Nested teardowns go down the tree, unless the inner one is of a clock. */
  lemma {:induction false} NestedTears(s: Sys, t: nat, i: nat, j: nat)
    requires ShapeOk(s) && ObjsOk(s.objs) && i < j
    requires FrameAt(s, Place(t, i)).Some? && FrameAt(s, Place(t, i)).value.Tear?
    requires FrameAt(s, Place(t, j)).Some? && FrameAt(s, Place(t, j)).value.Tear?
    ensures var x, y := FrameAt(s, Place(t, i)).value.obj, FrameAt(s, Place(t, j)).value.obj;
      y < |s.objs| && (s.objs[y].isClock || x < y)
  {
    assert Shaped(s, Place(t, j));
    var below := FrameAt(s, Place(t, j - 1)).value;
    var y := FrameAt(s, Place(t, j)).value.obj;
    assert Rooted(s.objs, y);
    match below
    case Tear(_, _) =>
      if i < j - 1 {
        NestedTears(s, t, i, j - 1);
      }
    case Finalize(_, _) =>
      if !s.objs[y].isClock {
        NoTearBelow(s, t, i, j - 1);
      }
    case Destroy(_, _) =>
      DestroyIsFirst(s, t, j - 1);
  }

  /** The key invariant of the teardown loop: whatever child it finds linked is
    * still valid, so visiting it makes progress. */
  lemma LinkedChildIsValid(s: Sys, t: nat, c: nat)
    requires Inv(s) && Enabled(s, Visit(t, c))
    ensures s.objs[c].valid
  {
    hide Counted, MayCall;
    var p := Top(s, t).value.obj;
    var d := |Stack(s, t)| - 1;
    TopFrame(s, t);
    assert Sound(s.objs[c]) && Rooted(s.objs, c) && Placed(s, c);
    if !s.objs[c].valid {
      var at := s.objs[c].tearing.value;
      TearHolds(s, t, d);
      TearHolds(s, at.thread, at.depth);
      NestedTears(s, t, at.depth, d);
    }
  }

  /** Once a frame has the lock, nobody is tearing its handle down any more. */
  lemma NotTornElsewhere(s: Sys, t: nat)
    requires Inv(s) && Enabled(s, Begin(t))
    ensures s.objs[Top(s, t).value.obj].tearing.None?
  {
    hide Counted, MayCall;
    var o := Top(s, t).value.obj;
    var d := |Stack(s, t)| - 1;
    TopFrame(s, t);
    assert Known(s, Place(t, d)) && Placed(s, o);
    if s.objs[o].tearing.Some? {
      var at := s.objs[o].tearing.value;
      HolderOwns(s, t, d);
      TearHolds(s, at.thread, at.depth);
      if s.objs[o].isClock {
        ClockIsTop(s, t, at.depth);
      } else {
        NoTearBelow(s, t, at.depth, d);
      }
    }
  }

  // ---- The steps of a call ------------------------------------------------------------------------------

  lemma MovedHoldingSound(s: Sys, t: nat)
    requires Inv(s) && Enabled(s, Acquire(t))
    ensures Sound(Moved(s, t, Holding))
  {
    TopFrame(s, t);
    assert Known(s, Place(t, |Stack(s, t)| - 1)) && Sound(s.objs[Top(s, t).value.obj]);
  }

  lemma SameButLock(s: Sys, u: Sys)
    requires u.objs == s.objs && u.stacks == s.stacks
    ensures PlacesOk(s) ==> PlacesOk(u)
    ensures ShapeOk(s) ==> ShapeOk(u)
  {
    assert forall p :: FrameAt(u, p) == FrameAt(s, p);
    if PlacesOk(s) {
      forall p ensures Known(u, p) { assert Known(s, p); }
      forall o | 0 <= o < |u.objs| ensures Placed(u, o) { assert Placed(s, o); }
    }
    if ShapeOk(s) {
      forall p ensures Shaped(u, p) { assert Shaped(s, p); }
    }
  }

  lemma SameStacksLocked(s: Sys, u: Sys)
    requires Locked(s) && u.stacks == s.stacks && u.owner == s.owner && u.depth == s.depth
    ensures Locked(u)
  {
    assert forall v: nat :: Stack(u, v) == Stack(s, v);
  }

  lemma AcquireKeepsInv(s: Sys, t: nat)
    requires Inv(s) && Enabled(s, Acquire(t))
    ensures Inv(Step(s, Acquire(t)))
  {
    hide ObjsOk, PlacesOk, ShapeOk, Locked, CountsOk, MoveTo, Sound;
    MovedHoldingSound(s, t);
    MoveToKeeps(s, t, Holding);
    TakeKeepsLocked(s, t, NextFrame(s, t, Holding));
    SameButLock(MoveTo(s, t, Holding), Step(s, Acquire(t)));
    var u := SetTop(s, t, NextFrame(s, t, Holding)).(owner := Some(t), depth := s.depth + 1);
    SameStacksLocked(u, Step(s, Acquire(t)));
  }

  /** The record of a handle whose teardown starts at place p. */
  function Starting(x: Obj, p: Place): Obj {
    x.(valid := false, tearing := Some(p))
  }

  lemma StartingSound(s: Sys, o: nat, p: Place)
    requires ObjsOk(s.objs) && o < |s.objs| && s.objs[o].valid
    ensures Sound(Starting(s.objs[o], p)) && s.objs[o].tearing.None? && s.objs[o].finis == 0
  {
    assert Sound(s.objs[o]);
  }

  lemma StartTearKeepsInv(s: Sys, t: nat, o: nat)
    requires Inv(s) && o < |s.objs| && s.objs[o].valid
    requires Stack(s, t) != [] && MayCall(s.objs, Top(s, t).value, Tear(o, false))
    ensures Inv(StartTear(s, t, o))
  {
    hide ObjsOk, PlacesOk, ShapeOk, Locked, CountsOk, MayCall, MayBecome, Sound, Refs;
    var x := Starting(s.objs[o], Place(t, |Stack(s, t)|));
    StartingSound(s, o, Place(t, |Stack(s, t)|));
    MayChangeCounts(s.objs, o, x);
    PutKeepsObjsOk(s.objs, o, x);
    PushKeepsPlacesOk(s, t, Tear(o, false), o, x);
    PutKeepsShapeOk(s, o, x);
    SameCalls(s.objs, o, x);
    PushKeepsShapeOk(Put(s, o, x), t, Tear(o, false));
    PutKeepsLocked(s, o, x);
    PushKeepsLocked(Put(s, o, x), t, Tear(o, false));
    PutKeepsCounts(s.objs, o, x);
  }

  lemma VisitKeepsInv(s: Sys, t: nat, c: nat)
    requires Inv(s) && Enabled(s, Visit(t, c))
    ensures Inv(Step(s, Visit(t, c)))
  {
    hide ObjsOk, PlacesOk, ShapeOk, Locked, CountsOk, StartTear;
    LinkedChildIsValid(s, t, c);
    StartTearKeepsInv(s, t, c);
  }

  lemma MovedTornSound(s: Sys, t: nat)
    requires Inv(s) && Enabled(s, Begin(t))
    requires var x := s.objs[Top(s, t).value.obj]; !x.valid && x.tearing.None?
    ensures Sound(Moved(s, t, Torn))
  {
    TopFrame(s, t);
    assert Known(s, Place(t, |Stack(s, t)| - 1)) && Sound(s.objs[Top(s, t).value.obj]);
  }

  /** The lock holder finds its handle already torn down. */
  lemma BeginOnInvalidKeepsInv(s: Sys, t: nat)
    requires Inv(s) && Enabled(s, Begin(t)) && !s.objs[Top(s, t).value.obj].valid
    ensures Inv(Step(s, Begin(t)))
  {
    hide ObjsOk, PlacesOk, ShapeOk, Locked, CountsOk, MoveTo, Sound;
    NotTornElsewhere(s, t);
    MovedTornSound(s, t);
    MoveToKeeps(s, t, Torn);
    StaysLocked(s, t, NextFrame(s, t, Torn));
    SameStacksLocked(SetTop(s, t, NextFrame(s, t, Torn)), MoveTo(s, t, Torn));
  }

  lemma TornHolds(s: Sys, t: nat)
    requires Enabled(s, Begin(t))
    ensures Holds(Top(s, t).value) && Holds(NextFrame(s, t, Torn)) && !Holds(Tear(Top(s, t).value.obj, false))
  {
  }

  lemma BeginCalls(s: Sys, t: nat, x: Obj)
    requires Enabled(s, Begin(t))
    ensures MayCall(s.objs[Top(s, t).value.obj := x], NextFrame(s, t, Torn), Tear(Top(s, t).value.obj, false))
  {
  }

  lemma BeginSound(s: Sys, t: nat)
    requires Inv(s) && Enabled(s, Begin(t)) && s.objs[Top(s, t).value.obj].valid
    ensures Sound(Starting(Moved(s, t, Torn), Place(t, |Stack(s, t)|)))
    ensures s.objs[Top(s, t).value.obj].tearing.None? && s.objs[Top(s, t).value.obj].finis == 0
  {
    TopFrame(s, t);
    assert Known(s, Place(t, |Stack(s, t)| - 1)) && Sound(s.objs[Top(s, t).value.obj]);
  }

  /** The lock holder starts the teardown of its own handle. */
  lemma BeginOnValidKeepsInv(s: Sys, t: nat)
    requires Inv(s) && Enabled(s, Begin(t)) && s.objs[Top(s, t).value.obj].valid
    ensures Inv(Step(s, Begin(t)))
  {
    hide ObjsOk, PlacesOk, ShapeOk, Locked, CountsOk, MayCall, MayBecome, Sound, Refs, Holds;
    var o := Top(s, t).value.obj;
    var f := NextFrame(s, t, Torn);
    var m := Moved(s, t, Torn);
    var p := Place(t, |Stack(s, t)|);
    var x := Starting(m, p);
    BeginSound(s, t);
    MayChangeCounts(s.objs, o, x);
    PutKeepsObjsOk(s.objs, o, x);
    PutKeepsCounts(s.objs, o, x);
    SetTopKeepsPlacesOk(s, t, f, o, m);
    var u := Put(SetTop(s, t, f), o, m);
    assert s.objs[o := s.objs[o]] == s.objs;
    assert u == MoveTo(s, t, Torn);
    assert s.objs[o := m][o := x] == s.objs[o := x];
    PushKeepsPlacesOk(u, t, Tear(o, false), o, x);
    SetTopKeepsShapeOk(s, t, f);
    PutKeepsShapeOk(SetTop(s, t, f), o, x);
    BeginCalls(s, t, x);
    PushKeepsShapeOk(Put(SetTop(s, t, f), o, x), t, Tear(o, false));
    TornHolds(s, t);
    StaysLocked(s, t, f);
    PutKeepsLocked(SetTop(s, t, f), o, x);
    PushKeepsLocked(Put(SetTop(s, t, f), o, x), t, Tear(o, false));
    assert Step(s, Begin(t)) == Push(Put(SetTop(s, t, f), o, x), t, Tear(o, false));
  }

  /** The handle's own teardown, after every child's. */
  function Finied(x: Obj): Obj {
    x.(finis := x.finis + 1, clock := None)
  }

  lemma FiniFacts(s: Sys, t: nat)
    requires Inv(s) && Enabled(s, Fini(t))
    ensures var o := Top(s, t).value.obj;
      && s.objs[o].finis == 0 && s.objs[o].tearing.Some?
      && MayBecome(s.objs, o, Finied(s.objs[o]))
      && (s.objs[o].clock.Some? ==>
            s.objs[o].clock.value < o && s.objs[s.objs[o].clock.value].isClock && !s.objs[o].isClock)
  {
    hide Counted, MayCall;
    var o := Top(s, t).value.obj;
    TopFrame(s, t);
    assert Known(s, Place(t, |Stack(s, t)| - 1)) && Placed(s, o) && Sound(s.objs[o]) && Rooted(s.objs, o);
    forall c | 0 <= c < |s.objs| && s.objs[c].parent == Some(o) ensures s.objs[c].finis > 0 {
      assert !ChildOf(s, c, o);
      assert Sound(s.objs[c]);
    }
  }

  /** The teardown's effect before a clock's reference is dropped. */
  function AfterFini(s: Sys, t: nat): Sys
    requires Stack(s, t) != [] && Top(s, t).value.obj < |s.objs|
  {
    var o := Top(s, t).value.obj;
    Put(SetTop(s, t, Tear(o, true)), o, Finied(s.objs[o]))
  }

  lemma ClockReleased(objs: seq<Obj>, o: nat)
    requires CountsOk(objs) && o < |objs|
    ensures var k := objs[o].clock;
      && (k.Some? && k.value < |objs| && k.value != o ==> Overcounted(objs[o := Finied(objs[o])], k.value))
      && (k.None? ==> CountsOk(objs[o := Finied(objs[o])]))
  {
    var x := Finied(objs[o]);
    var n := objs[o := x];
    forall q | 0 <= q < |n|
      ensures Refs(n, q) + (if objs[o].clock == Some(q) then 1 else 0) == Refs(objs, q) && Counted(objs, q)
    {
      RefsPut(objs, o, x, q);
    }
    forall q | 0 <= q < |n| && objs[o].clock != Some(q) ensures Counted(n, q) {
      assert Counted(objs, q);
    }
  }

  lemma TearsHoldNothing(o: nat, d: bool)
    ensures !Holds(Tear(o, d))
  {
  }

  lemma AfterFiniKeeps(s: Sys, t: nat)
    requires Inv(s) && Enabled(s, Fini(t))
    ensures var u := AfterFini(s, t);
      ObjsOk(u.objs) && PlacesOk(u) && ShapeOk(u) && Locked(u)
  {
    hide ObjsOk, PlacesOk, ShapeOk, Locked, CountsOk, MayCall, MayBecome, Sound, Refs, Holds;
    var o := Top(s, t).value.obj;
    var x := Finied(s.objs[o]);
    FiniFacts(s, t);
    PutKeepsObjsOk(s.objs, o, x);
    SetTopKeepsPlacesOk(s, t, Tear(o, true), o, x);
    SetTopKeepsShapeOk(s, t, Tear(o, true));
    PutKeepsShapeOk(SetTop(s, t, Tear(o, true)), o, x);
    TearsHoldNothing(o, true);
    TearsHoldNothing(o, false);
    StaysLocked(s, t, Tear(o, true));
    PutKeepsLocked(SetTop(s, t, Tear(o, true)), o, x);
  }

  lemma FiniKeepsInv(s: Sys, t: nat)
    requires Inv(s) && Enabled(s, Fini(t))
    ensures Inv(Step(s, Fini(t)))
  {
    hide ObjsOk, PlacesOk, ShapeOk, Locked, CountsOk, Overcounted, MayBecome, Sound, Refs, Holds;
    var o := Top(s, t).value.obj;
    FiniFacts(s, t);
    AfterFiniKeeps(s, t);
    ClockReleased(s.objs, o);
    var u := AfterFini(s, t);
    assert Top(u, t) == Some(Tear(o, true));
    if s.objs[o].clock.Some? {
      var k := s.objs[o].clock.value;
      DropOneKeepsInv(u, t, k);
    }
  }

  lemma UnlinkSound(s: Sys, t: nat)
    requires Inv(s) && Enabled(s, Unlink(t))
    ensures Sound(s.objs[Top(s, t).value.obj].(linked := false, tearing := None))
  {
    var o := Top(s, t).value.obj;
    TopFrame(s, t);
    assert Known(s, Place(t, |Stack(s, t)| - 1)) && Placed(s, o) && Sound(s.objs[o]);
  }

  lemma PopKeepsLocked(s: Sys, t: nat)
    requires Locked(s) && Top(s, t).Some? && !Holds(Top(s, t).value)
    ensures Locked(Pop(s, t))
  {
    PopDepth(s, t);
    forall v: nat ensures Depth(Stack(Pop(s, t), v)) == Depth(Stack(s, v)) {}
  }

  /** A finished teardown leaves its parent's list and returns. */
  lemma UnlinkKeepsInv(s: Sys, t: nat)
    requires Inv(s) && Enabled(s, Unlink(t))
    ensures Inv(Step(s, Unlink(t)))
  {
    hide ObjsOk, PlacesOk, ShapeOk, Locked, CountsOk, MayCall, MayBecome, Sound, Refs, Holds;
    var o := Top(s, t).value.obj;
    var x := s.objs[o].(linked := false, tearing := None);
    UnlinkSound(s, t);
    MayChangeCounts(s.objs, o, x);
    PutKeepsObjsOk(s.objs, o, x);
    PopKeepsPlacesOk(s, t, o, x);
    PopKeepsShapeOk(s, t);
    PutKeepsShapeOk(Pop(s, t), o, x);
    TearsHoldNothing(o, true);
    PopKeepsLocked(s, t);
    PutKeepsLocked(Pop(s, t), o, x);
    PutKeepsCounts(s.objs, o, x);
  }

  lemma TopTornIsDone(s: Sys, t: nat)
    requires Inv(s) && TopAt(s, t, Torn) && Top(s, t).value.Finalize?
    ensures Sound(Moved(s, t, Dropping))
  {
    var o := Top(s, t).value.obj;
    TopFrame(s, t);
    assert Known(s, Place(t, |Stack(s, t)| - 1)) && Placed(s, o) && Sound(s.objs[o]);
  }

  lemma ReleaseFinalizerKeepsInv(s: Sys, t: nat)
    requires Inv(s) && Enabled(s, Release(t)) && Top(s, t).value.Finalize?
    ensures Inv(Step(s, Release(t)))
  {
    hide ObjsOk, PlacesOk, ShapeOk, Locked, CountsOk, MoveTo, Sound;
    TopTornIsDone(s, t);
    MoveToKeeps(s, t, Dropping);
    var f := NextFrame(s, t, Dropping);
    assert !Holds(f);
    GiveBackLocked(s, t, MoveTo(s, t, Dropping));
    SameButLock(MoveTo(s, t, Dropping), Step(s, Release(t)));
  }

  lemma Unpinned(s: Sys, t: nat)
    requires Inv(s) && TopAt(s, t, Torn) && Top(s, t).value.Destroy?
    ensures var x := s.objs[Top(s, t).value.obj];
      && Sound(x) && Sound(x.(ext := x.ext + 1, pins := x.pins - {t}))
      && |x.pins - {t}| == |x.pins| - 1
  {
    TopFrame(s, t);
    assert Known(s, Place(t, |Stack(s, t)| - 1)) && Sound(s.objs[Top(s, t).value.obj]);
  }

  lemma ReleaseDestroyKeepsInv(s: Sys, t: nat)
    requires Inv(s) && Enabled(s, Release(t)) && Top(s, t).value.Destroy?
    ensures Inv(Step(s, Release(t)))
  {
    hide ObjsOk, PlacesOk, ShapeOk, Locked, CountsOk, MayCall, MayBecome, Sound, Refs;
    var o := Top(s, t).value.obj;
    var x := s.objs[o].(ext := s.objs[o].ext + 1, pins := s.objs[o].pins - {t});
    Unpinned(s, t);
    MayChangeCounts(s.objs, o, x);
    PutKeepsObjsOk(s.objs, o, x);
    PopKeepsPlacesOk(s, t, o, x);
    PopKeepsShapeOk(s, t);
    PutKeepsShapeOk(Pop(s, t), o, x);
    PutKeepsCounts(s.objs, o, x);
    var u := Put(Pop(s, t), o, x);
    GiveBackLocked(s, t, u);
    SameButLock(u, Unlocked(u));
  }

  /** The parent's reference is gone from the record, not yet from the parent's count. */
  function Unheld(s: Sys, t: nat): Obj
    requires TopAt(s, t, Dropping)
  {
    Moved(s, t, Freeing).(held := false)
  }

  lemma DropFacts(s: Sys, t: nat)
    requires Inv(s) && Enabled(s, DropParent(t))
    ensures var o := Top(s, t).value.obj;
      && Top(s, t).value.Finalize? && Sound(Unheld(s, t)) && s.objs[o].life.Dying?
      && (s.objs[o].parent.Some? ==> s.objs[o].held && s.objs[o].parent.value < o)
      && (s.objs[o].parent.None? ==> !s.objs[o].held)
      && s.objs[o].clock.None?
  {
    var o := Top(s, t).value.obj;
    TopFrame(s, t);
    assert Known(s, Place(t, |Stack(s, t)| - 1)) && Sound(s.objs[o]) && Rooted(s.objs, o);
  }

  lemma ParentReleased(objs: seq<Obj>, o: nat, x: Obj)
    requires CountsOk(objs) && o < |objs| && objs[o].clock.None?
    requires x.rc == objs[o].rc && x.ext == objs[o].ext && x.pins == objs[o].pins
    requires x.clock.None? && x.parent == objs[o].parent && !x.held
    ensures var p := objs[o].parent;
      && (p.Some? && objs[o].held && p.value < |objs| && p.value != o ==> Overcounted(objs[o := x], p.value))
      && (p.None? ==> CountsOk(objs[o := x]))
  {
    var n := objs[o := x];
    forall q | 0 <= q < |n|
      ensures Refs(n, q) + (if objs[o].held && objs[o].parent == Some(q) then 1 else 0) == Refs(objs, q)
      ensures Counted(objs, q)
    {
      RefsPut(objs, o, x, q);
    }
    forall q | 0 <= q < |n| && objs[o].parent != Some(q) ensures Counted(n, q) {
      assert Counted(objs, q);
    }
  }

  lemma AfterUnheldKeeps(s: Sys, t: nat)
    requires Inv(s) && Enabled(s, DropParent(t))
    ensures var o := Top(s, t).value.obj;
      var u := Put(SetTop(s, t, Finalize(o, Freeing)), o, Unheld(s, t));
      ObjsOk(u.objs) && PlacesOk(u) && ShapeOk(u) && Locked(u)
  {
    hide ObjsOk, PlacesOk, ShapeOk, Locked, CountsOk, MayCall, MayBecome, Sound, Refs;
    var o := Top(s, t).value.obj;
    var x := Unheld(s, t);
    DropFacts(s, t);
    MayChangeCounts(s.objs, o, x);
    PutKeepsObjsOk(s.objs, o, x);
    SetTopKeepsPlacesOk(s, t, Finalize(o, Freeing), o, x);
    SetTopKeepsShapeOk(s, t, Finalize(o, Freeing));
    PutKeepsShapeOk(SetTop(s, t, Finalize(o, Freeing)), o, x);
    StaysLocked(s, t, Finalize(o, Freeing));
    PutKeepsLocked(SetTop(s, t, Finalize(o, Freeing)), o, x);
  }

  lemma DropParentKeepsInv(s: Sys, t: nat)
    requires Inv(s) && Enabled(s, DropParent(t))
    ensures Inv(Step(s, DropParent(t)))
  {
    hide ObjsOk, PlacesOk, ShapeOk, Locked, CountsOk, Overcounted, MayBecome, Sound, Refs, Holds;
    var o := Top(s, t).value.obj;
    var x := Unheld(s, t);
    DropFacts(s, t);
    AfterUnheldKeeps(s, t);
    ParentReleased(s.objs, o, x);
    var u := Put(SetTop(s, t, Finalize(o, Freeing)), o, x);
    assert Top(u, t) == Some(Finalize(o, Freeing));
    assert s.objs[o := Moved(s, t, Freeing)][o := x] == s.objs[o := x];
    if s.objs[o].parent.Some? {
      DropOneKeepsInv(u, t, s.objs[o].parent.value);
    }
  }

  /** The record of a freed handle. */
  function Gone(x: Obj): Obj {
    x.(parent := None, life := Freed)
  }

  lemma FreeFacts(s: Sys, t: nat)
    requires Inv(s) && Enabled(s, FreeMemory(t))
    ensures var x := s.objs[Top(s, t).value.obj];
      && Top(s, t).value.Finalize? && Sound(Gone(x)) && !x.held && x.tearing.None?
      && x.life == Dying(Place(t, |Stack(s, t)| - 1), Freeing)
  {
    var o := Top(s, t).value.obj;
    TopFrame(s, t);
    assert Known(s, Place(t, |Stack(s, t)| - 1)) && Sound(s.objs[o]);
  }

  lemma FreeKeepsShapeOk(s: Sys, t: nat)
    requires Inv(s) && Enabled(s, FreeMemory(t))
    ensures ShapeOk(Step(s, FreeMemory(t)))
  {
    hide Sound, Counted, Placed, Rooted, ChildrenFirst, Depth;
    var o := Top(s, t).value.obj;
    var u := Step(s, FreeMemory(t));
    FreeFacts(s, t);
    PopFrames(s, t);
    PopKeepsShapeOk(s, t);
    assert forall p :: FrameAt(u, p) == FrameAt(Pop(s, t), p);
    forall p ensures Shaped(u, p) {
      assert Shaped(Pop(s, t), p) && Known(s, p);
      if p.depth > 0 {
        assert Known(s, Place(p.thread, p.depth - 1));
      }
    }
  }

  lemma FreeKeepsInv(s: Sys, t: nat)
    requires Inv(s) && Enabled(s, FreeMemory(t))
    ensures Inv(Step(s, FreeMemory(t)))
  {
    hide ObjsOk, PlacesOk, ShapeOk, Locked, CountsOk, MayCall, MayBecome, Sound, Refs;
    var o := Top(s, t).value.obj;
    var x := Gone(s.objs[o]);
    FreeFacts(s, t);
    MayChangeCounts(s.objs, o, x);
    PutKeepsObjsOk(s.objs, o, x);
    PopKeepsPlacesOk(s, t, o, x);
    FreeKeepsShapeOk(s, t);
    PopKeepsLocked(s, t);
    PutKeepsLocked(Pop(s, t), o, x);
    PutKeepsCounts(s.objs, o, x);
  }

  // ---- Creation -------------------------------------------------------------------------------------------

  /** A record after a creation: a parent or clock has one reference more. */
  function Older(objs: seq<Obj>, p: Option<nat>, k: Option<nat>, q: nat): Obj
    requires q < |objs|
  {
    objs[q].(rc := objs[q].rc + (if p == Some(q) then 1 else 0) + (if k == Some(q) then 1 else 0))
  }

  /** What a creation changes. */
  ghost predicate Grown(s: Sys, p: Option<nat>, k: Option<nat>, isClock: bool, u: Sys) {
    && u.stacks == s.stacks && u.owner == s.owner && u.depth == s.depth
    && |u.objs| == |s.objs| + 1
    && u.objs[|s.objs|] == Newborn(p, k, isClock)
    && forall q :: 0 <= q < |s.objs| ==> u.objs[q] == Older(s.objs, p, k, q)
  }

  lemma CreateGrows(s: Sys, p: Option<nat>, k: Option<nat>, isClock: bool)
    requires Enabled(s, Create(p, k, isClock))
    ensures Grown(s, p, k, isClock, Step(s, Create(p, k, isClock)))
  {
  }

  lemma {:induction false} SameRefs(objs: seq<Obj>, n: seq<Obj>, q: nat)
    requires |n| == |objs| && forall c :: 0 <= c < |objs| ==> RefsOf(n[c], q) == RefsOf(objs[c], q)
    ensures Refs(n, q) == Refs(objs, q)
  {
    if objs != [] {
      SameRefs(objs[..|objs| - 1], n[..|n| - 1], q);
    }
  }

  lemma {:induction false} NoRefs(objs: seq<Obj>, q: nat)
    requires forall c :: 0 <= c < |objs| ==> RefsOf(objs[c], q) == 0
    ensures Refs(objs, q) == 0
  {
    if objs != [] {
      NoRefs(objs[..|objs| - 1], q);
    }
  }

  /** Nobody refers to a handle not yet created. */
  lemma UnbornUnreferenced(objs: seq<Obj>)
    requires ObjsOk(objs)
    ensures Refs(objs, |objs|) == 0
  {
    hide Sound, ChildrenFirst;
    forall c | 0 <= c < |objs| ensures RefsOf(objs[c], |objs|) == 0 {
      assert Rooted(objs, c);
    }
    NoRefs(objs, |objs|);
  }

  lemma GrownCounted(s: Sys, p: Option<nat>, k: Option<nat>, isClock: bool, u: Sys, q: nat)
    requires CountsOk(s.objs) && ObjsOk(s.objs) && Enabled(s, Create(p, k, isClock)) && Grown(s, p, k, isClock, u)
    requires q < |u.objs|
    ensures Counted(u.objs, q)
  {
    hide ObjsOk, Refs;
    var front := u.objs[..|s.objs|];
    assert u.objs == front + [Newborn(p, k, isClock)];
    RefsAppend(front, Newborn(p, k, isClock), q);
    forall c | 0 <= c < |front| ensures RefsOf(front[c], q) == RefsOf(s.objs[c], q) {
      assert u.objs[c] == Older(s.objs, p, k, c);
    }
    SameRefs(s.objs, front, q);
    if q == |s.objs| {
      UnbornUnreferenced(s.objs);
    } else {
      assert Counted(s.objs, q) && u.objs[q] == Older(s.objs, p, k, q);
    }
  }

  lemma GrownObjsOk(s: Sys, p: Option<nat>, k: Option<nat>, isClock: bool, u: Sys)
    requires Inv(s) && Enabled(s, Create(p, k, isClock)) && Grown(s, p, k, isClock, u)
    ensures ObjsOk(u.objs)
  {
    hide Placed, Known, Shaped, Locked, Refs;
    forall q | 0 <= q < |u.objs| ensures Sound(u.objs[q]) && Rooted(u.objs, q) && ChildrenFirst(u.objs, q) {
      if q < |s.objs| {
        assert u.objs[q] == Older(s.objs, p, k, q);
        assert Sound(s.objs[q]) && Rooted(s.objs, q) && ChildrenFirst(s.objs, q);
        CountsSound(s, q);
      } else if p.Some? {
        assert Sound(s.objs[p.value]);
      }
    }
  }

  lemma GrownPlacesOk(s: Sys, p: Option<nat>, k: Option<nat>, isClock: bool, u: Sys)
    requires PlacesOk(s) && ShapeOk(s) && Grown(s, p, k, isClock, u)
    ensures PlacesOk(u) && ShapeOk(u)
  {
    assert forall x :: FrameAt(u, x) == FrameAt(s, x);
    forall x ensures Known(u, x) && Shaped(u, x) {
      assert Known(s, x) && Shaped(s, x);
    }
    forall o | 0 <= o < |u.objs| ensures Placed(u, o) {
      if o < |s.objs| {
        assert Placed(s, o) && u.objs[o] == Older(s.objs, p, k, o);
      }
    }
  }

  lemma GrownLocked(s: Sys, p: Option<nat>, k: Option<nat>, isClock: bool, u: Sys)
    requires Locked(s) && Grown(s, p, k, isClock, u)
    ensures Locked(u)
  {
    SameStacksLocked(s, u);
  }

  lemma CreateKeepsInv(s: Sys, p: Option<nat>, k: Option<nat>, isClock: bool)
    requires Inv(s) && Enabled(s, Create(p, k, isClock))
    ensures Inv(Step(s, Create(p, k, isClock)))
  {
    hide ObjsOk, PlacesOk, ShapeOk, Locked, Enabled, Grown, Step, Counted;
    var u := Step(s, Create(p, k, isClock));
    CreateGrows(s, p, k, isClock);
    GrownObjsOk(s, p, k, isClock, u);
    GrownPlacesOk(s, p, k, isClock, u);
    GrownLocked(s, p, k, isClock, u);
    forall q | 0 <= q < |u.objs| ensures Counted(u.objs, q) {
      GrownCounted(s, p, k, isClock, u, q);
    }
  }

  // ---- Every interleaving ------------------------------------------------------------------------------------

  lemma Idle(s: Sys, a: Action)
    requires !Enabled(s, a)
    ensures Step(s, a) == s
  {
  }

  lemma IncRefEnabled(s: Sys, o: nat)
    requires Enabled(s, IncRef(o))
    ensures Usable(s, o)
  {
  }

  lemma BeginKeepsInv(s: Sys, t: nat)
    requires Inv(s) && Enabled(s, Begin(t))
    ensures Inv(Step(s, Begin(t)))
  {
    hide Inv, Step;
    if s.objs[Top(s, t).value.obj].valid {
      BeginOnValidKeepsInv(s, t);
    } else {
      BeginOnInvalidKeepsInv(s, t);
    }
  }

  lemma ReleaseKeepsInv(s: Sys, t: nat)
    requires Inv(s) && Enabled(s, Release(t))
    ensures Inv(Step(s, Release(t)))
  {
    hide Inv, Step;
    if Top(s, t).value.Finalize? {
      ReleaseFinalizerKeepsInv(s, t);
    } else {
      ReleaseDestroyKeepsInv(s, t);
    }
  }

  lemma StepKeepsInv(s: Sys, a: Action)
    requires Inv(s)
    ensures Inv(Step(s, a))
  {
    hide Inv, Enabled, Step;
    if !Enabled(s, a) {
      Idle(s, a);
    } else {
      match a
      case Create(p, k, isClock) => CreateKeepsInv(s, p, k, isClock);
      case IncRef(o) => IncRefEnabled(s, o); IncRefKeepsInv(s, o);
      case DropRef(t, o) => DropRefKeepsInv(s, t, o);
      case CallDestroy(t, o) => CallDestroyKeepsInv(s, t, o);
      case Acquire(t) => AcquireKeepsInv(s, t);
      case Begin(t) => BeginKeepsInv(s, t);
      case Visit(t, c) => VisitKeepsInv(s, t, c);
      case Fini(t) => FiniKeepsInv(s, t);
      case Unlink(t) => UnlinkKeepsInv(s, t);
      case Release(t) => ReleaseKeepsInv(s, t);
      case DropParent(t) => DropParentKeepsInv(s, t);
      case FreeMemory(t) => FreeKeepsInv(s, t);
    }
  }

  lemma InitInv()
    ensures Inv(Init())
  {
  }

  lemma {:induction false} RunFromKeepsInv(s: Sys, acts: seq<Action>)
    requires Inv(s)
    ensures Inv(RunFrom(s, acts))
    decreases |acts|
  {
    hide Inv, Step;
    if acts != [] {
      StepKeepsInv(s, acts[0]);
      RunFromKeepsInv(Step(s, acts[0]), acts[1..]);
    }
  }

  lemma RunKeepsInv(acts: seq<Action>)
    ensures Inv(Run(acts))
  {
    hide Inv;
    InitInv();
    RunFromKeepsInv(Init(), acts);
  }

  lemma {:induction false} RunFromAppend(s: Sys, acts: seq<Action>, more: seq<Action>)
    ensures RunFrom(s, acts + more) == RunFrom(RunFrom(s, acts), more)
    decreases |acts|
  {
    hide Step;
    if acts == [] {
      assert acts + more == more;
    } else {
      assert (acts + more)[1..] == acts[1..] + more;
      RunFromAppend(Step(s, acts[0]), acts[1..], more);
    }
  }

  lemma RunAppend(acts: seq<Action>, more: seq<Action>)
    ensures Run(acts + more) == RunFrom(Run(acts), more)
  {
    hide Step;
    RunFromAppend(Init(), acts, more);
  }

  lemma RunFrom1(s: Sys, a: Action)
    ensures RunFrom(s, [a]) == Step(s, a)
  {
    hide Step;
    assert [a][1..] == [];
  }
}
