/** Callback groups: how many callbacks of a group run, and whether another may start. */
module CallbackGroups {
  datatype GroupKind = MutuallyExclusive | Reentrant

  predicate MayRun(kind: GroupKind, running: nat) {
    kind.Reentrant? || running == 0
  }

  /** Natural subtraction stops at zero. */
  function OneFewer(running: nat): nat {
    if running == 0 then 0 else running - 1
  }

  datatype Ending = Returned | Threw(error: string)

  class CallbackGroup {
    const kind: GroupKind
    var running: nat

    constructor (kind: GroupKind)
      ensures this.kind == kind && running == 0
    {
      this.kind := kind;
      running := 0;
    }

    method CanRun() returns (ok: bool)
      ensures ok <==> kind == Reentrant || running == 0
    {
      match kind {
        case Reentrant => ok := true;
        case MutuallyExclusive => ok := running == 0;
      }
    }

    method Enter()
      modifies this
      ensures running == old(running) + 1
    {
      running := running + 1;
    }

    method Leave()
      modifies this
      ensures running == if old(running) == 0 then 0 else old(running) - 1
    {
      running := if running == 0 then 0 else running - 1;
    }

    /** Run a callback as a member of the group; `act` says how the callback ends,
      * given the count it finds.  It finds itself counted, what it throws is passed
      * on, and on either way out the count is restored. */
    method WithMembership(act: nat -> Ending) returns (e: Ending)
      modifies this
      ensures running == old(running)
      ensures e == act(old(running) + 1)
      ensures old(running) == 0 ==> e == act(1)
    {
      Enter();
      e := act(running);
      if e.Threw? {
        Leave();
        return e;
      }
      Leave();
    }
  }
}
