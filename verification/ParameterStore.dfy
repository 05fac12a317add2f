/** A node's declared parameters: declaring, undeclaring and setting them. */
module ParameterStores {
  import opened Options
  import opened Sequences
  import opened Parameters

  // ---- What the store holds, as a value ---------------------------------------

  datatype Contents<F> = Contents(params: map<string, Parameter<F>>, order: seq<string>)

  datatype Refusal =
    | AlreadyDeclared(name: string)
    | NotDeclared(name: string)
    | ReadOnly(name: string)
    | CheckFailed(error: CheckError)
    | ByCallback(reason: string)

  datatype SetResult = Successful | Refused(why: Refusal)

  datatype Outcome<+T> = Ok(value: T) | Error(why: Refusal)

  type Callback<!F> = seq<Parameter<F>> -> SetResult

  type Updates<F> = seq<(string, ParameterValue<F>)>

  /** The order list is duplicate-free and is exactly the key set, every
    * parameter is stored under its own name, and every value passes the check
    * of its own descriptor. */
  ghost predicate Inv<F>(lt: (F, F) -> bool, c: Contents<F>) {
    && Distinct(c.order)
    && (forall n :: n in c.params <==> n in c.order)
    && (forall n :: n in c.params ==> c.params[n].name == n)
    && (forall n :: n in c.params ==> Check(lt, c.params[n].descriptor, c.params[n].value) == None)
  }

  /** Store one value: a declared parameter keeps its descriptor, a new one is
    * appended to the order. */
  function Put<F>(c: Contents<F>, n: string, v: ParameterValue<F>): Contents<F> {
    if n in c.params then c.(params := c.params[n := c.params[n].(value := v)])
    else Contents(c.params[n := Parameter(n, v, DefaultDescriptor())], c.order + [n])
  }

  function PutAll<F>(c: Contents<F>, updates: Updates<F>): Contents<F> {
    if updates == [] then c
    else
      var last := |updates| - 1;
      Put(PutAll(c, updates[..last]), updates[last].0, updates[last].1)
  }

  /** Why one update is refused against what is stored, if it is. */
  function Objection<F>(lt: (F, F) -> bool, allowUndeclared: bool, c: Contents<F>, n: string, v: ParameterValue<F>)
    : Option<Refusal>
  {
    if n !in c.params then
      if allowUndeclared then None else Some(NotDeclared(n))
    else if c.params[n].descriptor.readOnly then Some(ReadOnly(n))
    else
      match Check(lt, c.params[n].descriptor, v)
      case None => None
      case Some(e) => Some(CheckFailed(e))
  }

  /** The record one update proposes. */
  function Proposal<F>(c: Contents<F>, n: string, v: ParameterValue<F>): Parameter<F> {
    if n in c.params then c.params[n].(value := v) else Parameter(n, v, DefaultDescriptor())
  }

  function Proposals<F>(c: Contents<F>, updates: Updates<F>): seq<Parameter<F>> {
    seq(|updates|, i requires 0 <= i < |updates| => Proposal(c, updates[i].0, updates[i].1))
  }

  /** The first objection to a batch, left to right. */
  function FirstObjection<F>(lt: (F, F) -> bool, allowUndeclared: bool, c: Contents<F>, updates: Updates<F>)
    : Option<Refusal>
  {
    if updates == [] then None
    else
      match Objection(lt, allowUndeclared, c, updates[0].0, updates[0].1)
      case Some(why) => Some(why)
      case None => FirstObjection(lt, allowUndeclared, c, updates[1..])
  }

  function FirstVeto<F>(callbacks: seq<Callback<F>>, proposed: seq<Parameter<F>>): SetResult {
    if callbacks == [] then Successful
    else if callbacks[0](proposed).Refused? then callbacks[0](proposed)
    else FirstVeto(callbacks[1..], proposed)
  }

  /** What a batch answers. */
  function SetAnswer<F>(lt: (F, F) -> bool, allowUndeclared: bool, callbacks: seq<Callback<F>>, c: Contents<F>,
                        updates: Updates<F>): SetResult
  {
    match FirstObjection(lt, allowUndeclared, c, updates)
    case Some(why) => Refused(why)
    case None => FirstVeto(callbacks, Proposals(c, updates))
  }

  /** What a batch leaves behind. */
  function AfterSet<F>(lt: (F, F) -> bool, allowUndeclared: bool, callbacks: seq<Callback<F>>, c: Contents<F>,
                       updates: Updates<F>): Contents<F>
  {
    if SetAnswer(lt, allowUndeclared, callbacks, c, updates).Successful? then PutAll(c, updates) else c
  }

  function DeclaredDescriptor<F>(n: string, default: ParameterValue<F>, d: ParameterDescriptor<F>)
    : ParameterDescriptor<F>
  {
    d.(name := n, ty := if d.ty == TNotSet then default.Type() else d.ty)
  }

  function DeclaredValue<F>(overrides: map<string, ParameterValue<F>>, n: string, default: ParameterValue<F>)
    : ParameterValue<F>
  {
    if n in overrides then overrides[n] else default
  }

  function DeclareObjection<F>(lt: (F, F) -> bool, overrides: map<string, ParameterValue<F>>, c: Contents<F>,
                               n: string, default: ParameterValue<F>, d: ParameterDescriptor<F>): Option<Refusal>
  {
    if n in c.params then Some(AlreadyDeclared(n))
    else
      match Check(lt, DeclaredDescriptor(n, default, d), DeclaredValue(overrides, n, default))
      case Some(e) => Some(CheckFailed(e))
      case None => None
  }

  function AfterDeclare<F>(lt: (F, F) -> bool, overrides: map<string, ParameterValue<F>>, c: Contents<F>,
                           n: string, default: ParameterValue<F>, d: ParameterDescriptor<F>): Contents<F>
  {
    if DeclareObjection(lt, overrides, c, n, default, d).Some? then c
    else
      var p := Parameter(n, DeclaredValue(overrides, n, default), DeclaredDescriptor(n, default, d));
      Contents(c.params[n := p], c.order + [n])
  }

  function Without(s: seq<string>, n: string): seq<string> {
    if s == [] then []
    else (if s[0] == n then [] else [s[0]]) + Without(s[1..], n)
  }

  function UndeclareObjection<F>(c: Contents<F>, n: string): Option<Refusal> {
    if n !in c.params then Some(NotDeclared(n))
    else if c.params[n].descriptor.readOnly then Some(ReadOnly(n))
    else None
  }

  function AfterUndeclare<F>(c: Contents<F>, n: string): Contents<F> {
    if UndeclareObjection(c, n).Some? then c
    else Contents(c.params - {n}, Without(c.order, n))
  }

  /** The records in the given order, skipping names that are not stored. */
  function Listing<F>(params: map<string, Parameter<F>>, order: seq<string>): seq<Parameter<F>> {
    if order == [] then []
    else (if order[0] in params then [params[order[0]]] else []) + Listing(params, order[1..])
  }

  lemma {:induction false} WithoutAbsent(s: seq<string>, n: string)
    requires n !in s
    ensures Without(s, n) == s
  {
    if s != [] {
      WithoutAbsent(s[1..], n);
    }
  }

  /** From a list without repetitions one place is cut out. */
  lemma {:induction false} WithoutCuts(s: seq<string>, n: string) returns (k: nat)
    requires n in s && Distinct(s)
    ensures k < |s| && s[k] == n && Without(s, n) == s[..k] + s[k + 1..]
  {
    if s[0] == n {
      k := 0;
      WithoutAbsent(s[1..], n);
    } else {
      var j := WithoutCuts(s[1..], n);
      k := j + 1;
      assert s[..k] == [s[0]] + s[1..][..j] && s[k + 1..] == s[1..][j + 1..];
    }
  }

  // ---- The store -------------------------------------------------------------

  class ParameterStore<!F(==)> {
    const lt: (F, F) -> bool
    const overrides: map<string, ParameterValue<F>>
    const allowUndeclared: bool
    var params: map<string, Parameter<F>>
    var order: seq<string>
    var onSet: seq<Callback<F>>

    ghost function Held(): Contents<F>
      reads this
    {
      Contents(params, order)
    }

    ghost predicate Valid()
      reads this
    {
      Inv(lt, Held())
    }

    constructor (lt: (F, F) -> bool, overrides: map<string, ParameterValue<F>>, allowUndeclared: bool)
      ensures this.lt == lt && this.overrides == overrides && this.allowUndeclared == allowUndeclared
      ensures Held() == Contents(map[], []) && onSet == []
      ensures Valid()
    {
      this.lt := lt;
      this.overrides := overrides;
      this.allowUndeclared := allowUndeclared;
      params := map[];
      order := [];
      onSet := [];
    }

    method Declare(name: string, default: ParameterValue<F>, descriptor: ParameterDescriptor<F>)
      returns (r: Outcome<ParameterValue<F>>)
      requires Valid()
      modifies this`params, this`order
      ensures Valid()
      ensures Held() == AfterDeclare(lt, overrides, old(Held()), name, default, descriptor)
      ensures r == match DeclareObjection(lt, overrides, old(Held()), name, default, descriptor)
                   case Some(why) => Error(why)
                   case None => Ok(params[name].value)
      ensures name in old(params) ==> r == Error(AlreadyDeclared(name)) && Held() == old(Held())
      ensures name !in old(params) ==>
        var d := descriptor.(name := name, ty := if descriptor.ty == TNotSet then default.Type() else descriptor.ty);
        var value := if name in overrides then overrides[name] else default;
        if Fits(lt, d, value) then
          r == Ok(value) && params == old(params)[name := Parameter(name, value, d)] && order == old(order) + [name]
        else r.Error? && r.why.CheckFailed? && Held() == old(Held())
    {
      if name in params {
        return Error(AlreadyDeclared(name));
      }
      var declaredType := if descriptor.ty == TNotSet then default.Type() else descriptor.ty;
      var d := descriptor.(name := name, ty := declaredType);
      var value := if name in overrides then overrides[name] else default;
      CheckMeaning(lt, d, value);
      match Check(lt, d, value) {
        case Some(e) => return Error(CheckFailed(e));
        case None =>
      }
      DeclareKeepsInv(lt, overrides, Held(), name, default, descriptor);
      params := params[name := Parameter(name, value, d)];
      order := order + [name];
      return Ok(value);
    }

    method Undeclare(name: string) returns (r: Outcome<()>)
      requires Valid()
      modifies this`params, this`order
      ensures Valid()
      ensures Held() == AfterUndeclare(old(Held()), name)
      ensures r == match UndeclareObjection(old(Held()), name) case Some(why) => Error(why) case None => Ok(())
      ensures name !in old(params) ==> r == Error(NotDeclared(name)) && Held() == old(Held())
      ensures name in old(params) && old(params)[name].descriptor.readOnly ==>
        r == Error(ReadOnly(name)) && Held() == old(Held())
      ensures name in old(params) && !old(params)[name].descriptor.readOnly ==>
        && r == Ok(()) && params == old(params) - {name}
        && exists k :: 0 <= k < |old(order)| && old(order)[k] == name && order == old(order)[..k] + old(order)[k + 1..]
    {
      if name !in params {
        return Error(NotDeclared(name));
      }
      if params[name].descriptor.readOnly {
        return Error(ReadOnly(name));
      }
      UndeclareKeepsInv(lt, Held(), name);
      ghost var k := WithoutCuts(order, name);
      params := params - {name};
      order := Without(order, name);
      return Ok(());
    }

    method Get(name: string) returns (r: Outcome<ParameterValue<F>>)
      ensures r == if name in params then Ok(params[name].value)
                   else if allowUndeclared then Ok(NotSet) else Error(NotDeclared(name))
    {
      if name in params {
        return Ok(params[name].value);
      }
      return if allowUndeclared then Ok(NotSet) else Error(NotDeclared(name));
    }

    /** The listing drops nothing: one record for each name, in order. */
    method All() returns (all: seq<Parameter<F>>)
      requires Valid()
      ensures |all| == |order|
      ensures forall i :: 0 <= i < |order| ==> order[i] in params && all[i] == params[order[i]]
    {
      all := Listing(params, order);
      ListingIsComplete(params, order);
    }

    method AddOnSetCallback(cb: Callback<F>)
      modifies this`onSet
      ensures onSet == old(onSet) + [cb]
    {
      onSet := onSet + [cb];
    }

    method SetAtomically(updates: Updates<F>) returns (r: SetResult)
      requires Valid()
      modifies this`params, this`order
      ensures Valid()
      ensures r == SetAnswer(lt, allowUndeclared, onSet, old(Held()), updates)
      ensures Held() == AfterSet(lt, allowUndeclared, onSet, old(Held()), updates)
    {
      ghost var c := Held();
      var current := params;
      var proposed := [];
      for i := 0 to |updates|
        invariant proposed == Proposals(c, updates[..i])
        invariant FirstObjection(lt, allowUndeclared, c, updates)
               == FirstObjection(lt, allowUndeclared, c, updates[i..])
      {
        var (name, value) := updates[i];
        assert updates[i..][0] == updates[i] && updates[i..][1..] == updates[i + 1..];
        if name !in current {
          if !allowUndeclared {
            return Refused(NotDeclared(name));
          }
          proposed := proposed + [Parameter(name, value, DefaultDescriptor())];
        } else {
          var p := current[name];
          if p.descriptor.readOnly {
            return Refused(ReadOnly(name));
          }
          match Check(lt, p.descriptor, value) {
            case Some(e) => return Refused(CheckFailed(e));
            case None => proposed := proposed + [p.(value := value)];
          }
        }
      }
      assert updates[..|updates|] == updates;

      for i := 0 to |onSet|
        invariant FirstVeto(onSet, proposed) == FirstVeto(onSet[i..], proposed)
      {
        var answer := onSet[i](proposed);
        assert onSet[i..][0] == onSet[i] && onSet[i..][1..] == onSet[i + 1..];
        if answer.Refused? {
          return answer;
        }
      }

      SetKeepsInv(lt, allowUndeclared, onSet, c, updates);
      for i := 0 to |proposed|
        invariant Held() == PutAll(c, updates[..i])
      {
        ghost var done := updates[..i];
        assert updates[..i + 1][..i] == done;
        PutAllKeepsDescriptors(c, done, updates[i].0);
        var p := proposed[i];
        if p.name !in params {
          order := order + [p.name];
        }
        params := params[p.name := p];
      }
      return Successful;
    }
  }

  // ---- Every operation keeps the invariant -------------------------------------

  lemma {:induction false} WithoutMembers(s: seq<string>, n: string)
    requires Distinct(s)
    ensures Distinct(Without(s, n))
    ensures forall x :: x in Without(s, n) <==> x in s && x != n
  {
    if s != [] {
      WithoutMembers(s[1..], n);
      assert s == [s[0]] + s[1..];
      var rest := Without(s[1..], n);
      assert s[0] !in rest;
      assert forall i :: 0 <= i < |rest| ==> rest[i] in rest;
    }
  }

  lemma {:induction false} ListingIsComplete<F>(params: map<string, Parameter<F>>, order: seq<string>)
    requires forall n :: n in order ==> n in params
    ensures |Listing(params, order)| == |order|
    ensures forall i :: 0 <= i < |order| ==> order[i] in params && Listing(params, order)[i] == params[order[i]]
  {
    if order != [] {
      ListingIsComplete(params, order[1..]);
    }
  }

  lemma PutKeepsInv<F>(lt: (F, F) -> bool, c: Contents<F>, n: string, v: ParameterValue<F>)
    requires Inv(lt, c)
    requires n in c.params ==> Check(lt, c.params[n].descriptor, v) == None
    ensures Inv(lt, Put(c, n, v))
  {
  }

  lemma {:induction false} PutAllKeepsDescriptors<F>(c: Contents<F>, updates: Updates<F>, n: string)
    ensures var after := PutAll(c, updates);
      && (n in after.params <==> n in c.params || exists i :: 0 <= i < |updates| && updates[i].0 == n)
      && (n in after.params ==>
            after.params[n].descriptor == (if n in c.params then c.params[n].descriptor else DefaultDescriptor()))
      && (n in after.params && (n in c.params ==> c.params[n].name == n) ==> after.params[n].name == n)
  {
    if updates != [] {
      var last := |updates| - 1;
      PutAllKeepsDescriptors(c, updates[..last], n);
      if updates[last].0 != n && (exists i :: 0 <= i < |updates| && updates[i].0 == n) {
        var i :| 0 <= i < |updates| && updates[i].0 == n;
        assert updates[..last][i].0 == n;
      }
    }
  }

  lemma {:induction false} NoObjectionAnywhere<F>(lt: (F, F) -> bool, allowUndeclared: bool, c: Contents<F>,
                                                  updates: Updates<F>)
    ensures FirstObjection(lt, allowUndeclared, c, updates) == None
       <==> forall i :: 0 <= i < |updates| ==> Objection(lt, allowUndeclared, c, updates[i].0, updates[i].1) == None
  {
    if updates != [] {
      NoObjectionAnywhere(lt, allowUndeclared, c, updates[1..]);
      assert updates == [updates[0]] + updates[1..];
    }
  }

  lemma {:induction false} PutAllKeepsInv<F>(lt: (F, F) -> bool, allowUndeclared: bool, c: Contents<F>,
                                             updates: Updates<F>)
    requires Inv(lt, c)
    requires forall i :: 0 <= i < |updates| ==> Objection(lt, allowUndeclared, c, updates[i].0, updates[i].1) == None
    ensures Inv(lt, PutAll(c, updates))
  {
    if updates != [] {
      var last := |updates| - 1;
      PutAllKeepsInv(lt, allowUndeclared, c, updates[..last]);
      PutAllKeepsDescriptors(c, updates[..last], updates[last].0);
      assert Objection(lt, allowUndeclared, c, updates[last].0, updates[last].1) == None;
      PutKeepsInv(lt, PutAll(c, updates[..last]), updates[last].0, updates[last].1);
    }
  }

  lemma SetKeepsInv<F>(lt: (F, F) -> bool, allowUndeclared: bool, callbacks: seq<Callback<F>>, c: Contents<F>,
                       updates: Updates<F>)
    requires Inv(lt, c)
    ensures Inv(lt, AfterSet(lt, allowUndeclared, callbacks, c, updates))
  {
    NoObjectionAnywhere(lt, allowUndeclared, c, updates);
    if FirstObjection(lt, allowUndeclared, c, updates) == None {
      PutAllKeepsInv(lt, allowUndeclared, c, updates);
    }
  }

  lemma DeclareKeepsInv<F>(lt: (F, F) -> bool, overrides: map<string, ParameterValue<F>>, c: Contents<F>,
                           n: string, default: ParameterValue<F>, d: ParameterDescriptor<F>)
    requires Inv(lt, c)
    ensures Inv(lt, AfterDeclare(lt, overrides, c, n, default, d))
  {
  }

  lemma UndeclareKeepsInv<F>(lt: (F, F) -> bool, c: Contents<F>, n: string)
    requires Inv(lt, c)
    ensures Inv(lt, AfterUndeclare(c, n))
  {
    WithoutMembers(c.order, n);
  }

  // ---- A batch is all or nothing --------------------------------------------------

  lemma {:induction false} NoVetoAnywhere<F>(callbacks: seq<Callback<F>>, proposed: seq<Parameter<F>>)
    ensures FirstVeto(callbacks, proposed) == Successful
       <==> forall k :: 0 <= k < |callbacks| ==> callbacks[k](proposed) == Successful
  {
    if callbacks != [] {
      NoVetoAnywhere(callbacks[1..], proposed);
      assert callbacks == [callbacks[0]] + callbacks[1..];
    }
  }

  /** What a batch may do to one name: an undeclared one must be allowed, a declared one
    * not be read-only and admit the value. */
  predicate Acceptable<F>(lt: (F, F) -> bool, allowUndeclared: bool, c: Contents<F>, n: string, v: ParameterValue<F>) {
    if n in c.params then !c.params[n].descriptor.readOnly && Fits(lt, c.params[n].descriptor, v)
    else allowUndeclared
  }

  /** The records callbacks are shown: the declared ones with the new values, and new
    * ones with the descriptor of an undeclared parameter. */
  predicate AreProposed<F(==)>(c: Contents<F>, updates: Updates<F>, proposed: seq<Parameter<F>>) {
    && |proposed| == |updates|
    && forall i :: 0 <= i < |updates| ==>
         var (n, v) := updates[i];
         proposed[i] == Parameter(n, v, if n in c.params then c.params[n].descriptor else DefaultDescriptor())
  }

  lemma ObjectionMeaning<F>(lt: (F, F) -> bool, allowUndeclared: bool, c: Contents<F>, n: string, v: ParameterValue<F>)
    ensures Objection(lt, allowUndeclared, c, n, v) == None <==> Acceptable(lt, allowUndeclared, c, n, v)
  {
    if n in c.params {
      CheckMeaning(lt, c.params[n].descriptor, v);
    }
  }

  lemma ProposalsAre<F>(lt: (F, F) -> bool, c: Contents<F>, updates: Updates<F>, proposed: seq<Parameter<F>>)
    requires Inv(lt, c) && AreProposed(c, updates, proposed)
    ensures Proposals(c, updates) == proposed
  {
  }

  /** A batch is accepted exactly when every name in it may be given its value in the
    * store as it was, and every callback agrees to the whole proposal. */
  lemma {:induction false} AcceptedExactly<F>(lt: (F, F) -> bool, allowUndeclared: bool, callbacks: seq<Callback<F>>,
                                              c: Contents<F>, updates: Updates<F>, proposed: seq<Parameter<F>>)
    requires Inv(lt, c) && AreProposed(c, updates, proposed)
    ensures SetAnswer(lt, allowUndeclared, callbacks, c, updates) == Successful
       <==> && (forall i :: 0 <= i < |updates| ==>
                  Acceptable(lt, allowUndeclared, c, updates[i].0, updates[i].1))
            && (forall k :: 0 <= k < |callbacks| ==> callbacks[k](proposed) == Successful)
  {
    hide Inv, Acceptable, Objection;
    ProposalsAre(lt, c, updates, proposed);
    NoObjectionAnywhere(lt, allowUndeclared, c, updates);
    NoVetoAnywhere(callbacks, proposed);
    forall i | 0 <= i < |updates|
      ensures Objection(lt, allowUndeclared, c, updates[i].0, updates[i].1) == None
         <==> Acceptable(lt, allowUndeclared, c, updates[i].0, updates[i].1)
    {
      ObjectionMeaning(lt, allowUndeclared, c, updates[i].0, updates[i].1);
    }
  }

  lemma {:induction false} FirstObjectionIs<F>(lt: (F, F) -> bool, allowUndeclared: bool, c: Contents<F>,
                                               updates: Updates<F>, i: nat)
    requires i < |updates| && !Acceptable(lt, allowUndeclared, c, updates[i].0, updates[i].1)
    requires forall j :: 0 <= j < i ==> Acceptable(lt, allowUndeclared, c, updates[j].0, updates[j].1)
    ensures FirstObjection(lt, allowUndeclared, c, updates)
         == Objection(lt, allowUndeclared, c, updates[i].0, updates[i].1)
    decreases i
  {
    hide Acceptable, Objection;
    ObjectionMeaning(lt, allowUndeclared, c, updates[0].0, updates[0].1);
    if i > 0 {
      forall j | 0 <= j < i - 1
        ensures Acceptable(lt, allowUndeclared, c, updates[1..][j].0, updates[1..][j].1)
      {
        assert updates[1..][j] == updates[j + 1];
      }
      FirstObjectionIs(lt, allowUndeclared, c, updates[1..], i - 1);
    }
  }

  /** The first update that may not be made is the one a refusal names: undeclared, else
    * read-only, else failing the check. */
  lemma RefusedForFirst<F>(lt: (F, F) -> bool, allowUndeclared: bool, callbacks: seq<Callback<F>>,
                           c: Contents<F>, updates: Updates<F>, i: nat)
    requires i < |updates| && !Acceptable(lt, allowUndeclared, c, updates[i].0, updates[i].1)
    requires forall j :: 0 <= j < i ==> Acceptable(lt, allowUndeclared, c, updates[j].0, updates[j].1)
    ensures var (n, v) := updates[i];
      var r := SetAnswer(lt, allowUndeclared, callbacks, c, updates);
      r.Refused?
      && if n !in c.params then r.why == NotDeclared(n)
         else if c.params[n].descriptor.readOnly then r.why == ReadOnly(n)
         else r.why.CheckFailed? && Check(lt, c.params[n].descriptor, v) == Some(r.why.error)
  {
    FirstObjectionIs(lt, allowUndeclared, c, updates, i);
    if updates[i].0 in c.params {
      CheckMeaning(lt, c.params[updates[i].0].descriptor, updates[i].1);
    }
  }

  lemma {:induction false} FirstVetoIs<F>(callbacks: seq<Callback<F>>, proposed: seq<Parameter<F>>, k: nat)
    requires k < |callbacks| && callbacks[k](proposed).Refused?
    requires forall j :: 0 <= j < k ==> callbacks[j](proposed) == Successful
    ensures FirstVeto(callbacks, proposed) == callbacks[k](proposed)
    decreases k
  {
    if k > 0 {
      FirstVetoIs(callbacks[1..], proposed, k - 1);
    }
  }

  /** With no such update, it is the answer of the first callback that refuses. */
  lemma RefusedByFirst<F>(lt: (F, F) -> bool, allowUndeclared: bool, callbacks: seq<Callback<F>>,
                          c: Contents<F>, updates: Updates<F>, proposed: seq<Parameter<F>>, k: nat)
    requires Inv(lt, c) && AreProposed(c, updates, proposed)
    requires forall i :: 0 <= i < |updates| ==> Acceptable(lt, allowUndeclared, c, updates[i].0, updates[i].1)
    requires k < |callbacks| && callbacks[k](proposed).Refused?
    requires forall j :: 0 <= j < k ==> callbacks[j](proposed) == Successful
    ensures SetAnswer(lt, allowUndeclared, callbacks, c, updates) == callbacks[k](proposed)
  {
    hide Inv, Acceptable, Objection;
    ProposalsAre(lt, c, updates, proposed);
    FirstVetoIs(callbacks, proposed, k);
    NoObjectionAnywhere(lt, allowUndeclared, c, updates);
    forall i | 0 <= i < |updates| ensures Objection(lt, allowUndeclared, c, updates[i].0, updates[i].1) == None {
      ObjectionMeaning(lt, allowUndeclared, c, updates[i].0, updates[i].1);
    }
  }

  /** Setting the updates one call at a time. */
  function OneByOne<F>(lt: (F, F) -> bool, allowUndeclared: bool, c: Contents<F>, updates: Updates<F>): Contents<F>
    decreases |updates|
  {
    if updates == [] then c
    else OneByOne(lt, allowUndeclared, AfterSet(lt, allowUndeclared, [], c, updates[..1]), updates[1..])
  }

  predicate OneByOneAccepted<F>(lt: (F, F) -> bool, allowUndeclared: bool, c: Contents<F>, updates: Updates<F>)
    decreases |updates|
  {
    updates == []
    || (&& SetAnswer(lt, allowUndeclared, [], c, updates[..1]) == Successful
        && OneByOneAccepted(lt, allowUndeclared, AfterSet(lt, allowUndeclared, [], c, updates[..1]), updates[1..]))
  }

  lemma {:induction false} PutAllFromFront<F>(c: Contents<F>, updates: Updates<F>)
    requires updates != []
    ensures PutAll(c, updates) == PutAll(Put(c, updates[0].0, updates[0].1), updates[1..])
  {
    var last := |updates| - 1;
    if last > 0 {
      PutAllFromFront(c, updates[..last]);
      assert updates[..last][1..] == updates[1..][..last - 1];
    }
  }

  lemma SingleSet<F>(lt: (F, F) -> bool, allowUndeclared: bool, c: Contents<F>, u: (string, ParameterValue<F>))
    ensures SetAnswer(lt, allowUndeclared, [], c, [u]) == Successful
       <==> Objection(lt, allowUndeclared, c, u.0, u.1) == None
    ensures AfterSet(lt, allowUndeclared, [], c, [u])
         == if Objection(lt, allowUndeclared, c, u.0, u.1) == None then Put(c, u.0, u.1) else c
  {
    assert [u][..0] == [] && [u][1..] == [];
    assert FirstObjection(lt, allowUndeclared, c, [u][1..]) == None;
    assert PutAll(c, [u]) == Put(PutAll(c, []), u.0, u.1);
  }

  lemma {:induction false} ObjectionsAfterPut<F>(lt: (F, F) -> bool, allowUndeclared: bool, c: Contents<F>,
                                                 u: (string, ParameterValue<F>), rest: Updates<F>)
    requires Objection(lt, allowUndeclared, c, u.0, u.1) == None
    ensures FirstObjection(lt, allowUndeclared, Put(c, u.0, u.1), rest) == None
       <==> FirstObjection(lt, allowUndeclared, c, rest) == None
  {
    if rest != [] {
      ObjectionsAfterPut(lt, allowUndeclared, c, u, rest[1..]);
    }
  }

  /** Without callbacks a batch is accepted exactly when setting its updates one
    * after the other would be, and then leaves the same store, repeated and
    * undeclared names included. */
  lemma {:induction false} BatchIsOneByOne<F>(lt: (F, F) -> bool, allowUndeclared: bool, c: Contents<F>,
                                              updates: Updates<F>)
    ensures SetAnswer(lt, allowUndeclared, [], c, updates) == Successful
       <==> OneByOneAccepted(lt, allowUndeclared, c, updates)
    ensures OneByOneAccepted(lt, allowUndeclared, c, updates)
       ==> AfterSet(lt, allowUndeclared, [], c, updates) == OneByOne(lt, allowUndeclared, c, updates)
    decreases |updates|
  {
    if updates != [] {
      var u := updates[0];
      assert updates[..1] == [u];
      SingleSet(lt, allowUndeclared, c, u);
      if Objection(lt, allowUndeclared, c, u.0, u.1) == None {
        var c1 := Put(c, u.0, u.1);
        BatchIsOneByOne(lt, allowUndeclared, c1, updates[1..]);
        PutAllFromFront(c, updates);
        ObjectionsAfterPut(lt, allowUndeclared, c, u, updates[1..]);
      }
    }
  }

  /** The last value a batch gives a name. */
  function LastValue<F>(updates: Updates<F>, n: string): Option<ParameterValue<F>> {
    if updates == [] then None
    else
      var last := |updates| - 1;
      if updates[last].0 == n then Some(updates[last].1) else LastValue(updates[..last], n)
  }

  /** The names of a batch that are not yet known, once each, in the order first met. */
  function NewNames<F>(known: seq<string>, updates: Updates<F>): seq<string> {
    if updates == [] then []
    else
      var last := |updates| - 1;
      var before := NewNames(known, updates[..last]);
      if updates[last].0 in known || updates[last].0 in before then before else before + [updates[last].0]
  }

  lemma {:induction false} PutAllMeaning<F>(c: Contents<F>, updates: Updates<F>)
    requires forall n :: n in c.params <==> n in c.order
    ensures PutAll(c, updates).order == c.order + NewNames(c.order, updates)
    ensures forall n :: n in PutAll(c, updates).params <==> n in c.order || n in NewNames(c.order, updates)
    ensures forall n :: n in PutAll(c, updates).params ==>
      match LastValue(updates, n)
      case None => n in c.params && PutAll(c, updates).params[n] == c.params[n]
      case Some(v) => PutAll(c, updates).params[n] == Proposal(c, n, v)
    ensures forall n :: n in NewNames(c.order, updates) ==> LastValue(updates, n).Some?
  {
    if updates != [] {
      PutAllMeaning(c, updates[..|updates| - 1]);
    }
  }

  /** A batch is all or nothing.  A refused one leaves the store as it was; after an
    * accepted one the last value per name wins, descriptors stay, and new names are
    * appended once each in first-occurrence order, as undeclared parameters. */
  lemma AcceptedBatchMeaning<F>(lt: (F, F) -> bool, allowUndeclared: bool, callbacks: seq<Callback<F>>,
                                c: Contents<F>, updates: Updates<F>)
    requires Inv(lt, c)
    ensures var after := AfterSet(lt, allowUndeclared, callbacks, c, updates);
      if SetAnswer(lt, allowUndeclared, callbacks, c, updates).Refused? then after == c
      else
        && after.order == c.order + NewNames(c.order, updates)
        && (forall n :: n in after.params <==> n in c.params || n in NewNames(c.order, updates))
        && (forall n :: n in after.params ==>
              match LastValue(updates, n)
              case None => n in c.params && after.params[n] == c.params[n]
              case Some(v) =>
                after.params[n]
                  == Parameter(n, v, if n in c.params then c.params[n].descriptor else DefaultDescriptor()))
        && (forall n :: n in NewNames(c.order, updates) ==> LastValue(updates, n).Some?)
  {
    PutAllMeaning(c, updates);
  }

  // ---- Over every run -----------------------------------------------------------

  /** One operation; a batch carries the callbacks it consulted, which may answer
    * differently each time. */
  datatype Op<!F> =
    | Declare(name: string, default: ParameterValue<F>, descriptor: ParameterDescriptor<F>)
    | Undeclare(name: string)
    | SetBatch(callbacks: seq<Callback<F>>, updates: Updates<F>)

  datatype Settings<!F> = Settings(lt: (F, F) -> bool, overrides: map<string, ParameterValue<F>>, allowUndeclared: bool)

  function After<F>(s: Settings<F>, c: Contents<F>, op: Op<F>): Contents<F> {
    match op
    case Declare(n, default, d) => AfterDeclare(s.lt, s.overrides, c, n, default, d)
    case Undeclare(n) => AfterUndeclare(c, n)
    case SetBatch(callbacks, updates) => AfterSet(s.lt, s.allowUndeclared, callbacks, c, updates)
  }

  function RunFrom<F>(s: Settings<F>, c: Contents<F>, ops: seq<Op<F>>): Contents<F> {
    if ops == [] then c else After(s, RunFrom(s, c, ops[..|ops| - 1]), ops[|ops| - 1])
  }

  lemma {:induction false} RunKeepsInv<F>(s: Settings<F>, c: Contents<F>, ops: seq<Op<F>>)
    requires Inv(s.lt, c)
    ensures Inv(s.lt, RunFrom(s, c, ops))
  {
    if ops != [] {
      RunKeepsInv(s, c, ops[..|ops| - 1]);
      var mid := RunFrom(s, c, ops[..|ops| - 1]);
      match ops[|ops| - 1]
      case Declare(n, default, d) => DeclareKeepsInv(s.lt, s.overrides, mid, n, default, d);
      case Undeclare(n) => UndeclareKeepsInv(s.lt, mid, n);
      case SetBatch(callbacks, updates) => SetKeepsInv(s.lt, s.allowUndeclared, callbacks, mid, updates);
    }
  }

  lemma EmptyInv<F>(lt: (F, F) -> bool)
    ensures Inv(lt, Contents(map[], []))
  {
  }

  lemma {:induction false} DistinctCount(s: seq<string>)
    requires Distinct(s)
    ensures |set n | n in s| == |s|
  {
    if s != [] {
      DistinctCount(s[1..]);
      assert s == [s[0]] + s[1..];
      assert (set n | n in s) == {s[0]} + (set n | n in s[1..]);
    }
  }

  lemma ListingCounts<F>(lt: (F, F) -> bool, c: Contents<F>)
    requires Inv(lt, c)
    ensures |Listing(c.params, c.order)| == |c.order| == |c.params|
  {
    ListingIsComplete(c.params, c.order);
    DistinctCount(c.order);
    assert c.params.Keys == set n | n in c.order;
  }

  lemma TypesKept<F>(lt: (F, F) -> bool, c: Contents<F>)
    requires Inv(lt, c)
    ensures forall n :: n in c.params ==>
      var p := c.params[n];
      p.descriptor.ty != TNotSet && !p.descriptor.dynamicTyping ==>
        p.value.Type() == p.descriptor.ty || p.value == NotSet
  {
  }

  /** From the empty store, any run keeps the listing complete and duplicate-free,
    * and a typed parameter without dynamic typing only ever holds its declared
    * type or nothing. */
  lemma EveryRunIsConsistent<F>(s: Settings<F>, ops: seq<Op<F>>)
    ensures var c := RunFrom(s, Contents(map[], []), ops);
      && Inv(s.lt, c)
      && |Listing(c.params, c.order)| == |c.order| == |c.params|
      && forall n :: n in c.params ==>
           var p := c.params[n];
           p.descriptor.ty != TNotSet && !p.descriptor.dynamicTyping ==>
             p.value.Type() == p.descriptor.ty || p.value == NotSet
  {
    hide Inv, RunFrom, Listing;
    EmptyInv(s.lt);
    RunKeepsInv(s, Contents(map[], []), ops);
    var c := RunFrom(s, Contents(map[], []), ops);
    ListingCounts(s.lt, c);
    TypesKept(s.lt, c);
  }

  lemma {:induction false} PutAllElsewhere<F>(c: Contents<F>, updates: Updates<F>, n: string)
    requires n in c.params && forall i :: 0 <= i < |updates| ==> updates[i].0 != n
    ensures n in PutAll(c, updates).params && PutAll(c, updates).params[n] == c.params[n]
  {
    if updates != [] {
      PutAllElsewhere(c, updates[..|updates| - 1], n);
    }
  }

  lemma ReadOnlySurvives<F>(s: Settings<F>, c: Contents<F>, op: Op<F>, n: string)
    requires n in c.params && c.params[n].descriptor.readOnly
    ensures n in After(s, c, op).params && After(s, c, op).params[n] == c.params[n]
  {
    match op
    case Declare(_, _, _) =>
    case Undeclare(_) =>
    case SetBatch(callbacks, updates) =>
      if SetAnswer(s.lt, s.allowUndeclared, callbacks, c, updates).Successful? {
        NoObjectionAnywhere(s.lt, s.allowUndeclared, c, updates);
        assert forall i :: 0 <= i < |updates| ==>
          Objection(s.lt, s.allowUndeclared, c, updates[i].0, updates[i].1) == None;
        PutAllElsewhere(c, updates, n);
      }
  }

  /** Once declared, a read-only parameter keeps its value and descriptor through
    * every later run, whatever the callbacks answer. */
  lemma {:induction false} ReadOnlyNeverChanges<F>(s: Settings<F>, c: Contents<F>, ops: seq<Op<F>>, n: string)
    requires n in c.params && c.params[n].descriptor.readOnly
    ensures n in RunFrom(s, c, ops).params && RunFrom(s, c, ops).params[n] == c.params[n]
  {
    if ops != [] {
      ReadOnlyNeverChanges(s, c, ops[..|ops| - 1], n);
      ReadOnlySurvives(s, RunFrom(s, c, ops[..|ops| - 1]), ops[|ops| - 1], n);
    }
  }

  lemma {:induction false} NewNamesAreGiven<F>(known: seq<string>, updates: Updates<F>)
    ensures updates == [] ==> NewNames(known, updates) == []
    ensures forall n :: n in NewNames(known, updates) ==> exists i :: 0 <= i < |updates| && updates[i].0 == n
  {
    if updates != [] {
      var last := |updates| - 1;
      NewNamesAreGiven(known, updates[..last]);
      forall n | n in NewNames(known, updates) ensures exists i :: 0 <= i < |updates| && updates[i].0 == n {
        if n in NewNames(known, updates[..last]) {
          var i :| 0 <= i < last && updates[..last][i].0 == n;
          assert updates[i].0 == n;
        } else {
          assert updates[last].0 == n;
        }
      }
    }
  }

  /** Without leave for undeclared parameters a batch adds no name. */
  lemma BatchAddsNone<F>(s: Settings<F>, c: Contents<F>, callbacks: seq<Callback<F>>, updates: Updates<F>, n: string)
    requires Inv(s.lt, c) && !s.allowUndeclared
    ensures n in AfterSet(s.lt, false, callbacks, c, updates).params ==> n in c.params
  {
    hide Objection;
    AcceptedBatchMeaning(s.lt, false, callbacks, c, updates);
    NewNamesAreGiven(c.order, updates);
    NoObjectionAnywhere(s.lt, false, c, updates);
    if SetAnswer(s.lt, false, callbacks, c, updates).Successful? && n in NewNames(c.order, updates) {
      var i :| 0 <= i < |updates| && updates[i].0 == n;
      ObjectionMeaning(s.lt, false, c, n, updates[i].1);
    }
  }

  /** Without leave for undeclared parameters, whatever a run sets, only a declaration
    * brings a name into the store. */
  lemma {:induction false} OnlyDeclaredNames<F>(s: Settings<F>, ops: seq<Op<F>>, n: string)
    requires !s.allowUndeclared
    ensures n in RunFrom(s, Contents(map[], []), ops).params ==>
      exists k :: 0 <= k < |ops| && ops[k].Declare? && ops[k].name == n
  {
    hide Inv, AfterSet;
    if ops != [] {
      var last := |ops| - 1;
      var mid := RunFrom(s, Contents(map[], []), ops[..last]);
      EmptyInv(s.lt);
      RunKeepsInv(s, Contents(map[], []), ops[..last]);
      OnlyDeclaredNames(s, ops[..last], n);
      if n in mid.params {
        var k :| 0 <= k < last && ops[..last][k].Declare? && ops[..last][k].name == n;
        assert ops[k].Declare? && ops[k].name == n;
      } else if ops[last].SetBatch? {
        BatchAddsNone(s, mid, ops[last].callbacks, ops[last].updates, n);
      }
    }
  }

  // ---- Command-line overrides -----------------------------------------------------

  datatype Block<F> = Block(name: string, entries: seq<(string, ParameterValue<F>)>)

  predicate IsWildcard(name: string) {
    name == "/**" || name == "/*" || name == "**"
  }

  predicate Applies(name: string, nodeFqn: string) {
    || IsWildcard(name)
    || name == nodeFqn
    || "/" + name == nodeFqn
    || name == if nodeFqn == "" then "" else nodeFqn[1..]
  }

  /** The entries of the applying blocks, wildcards or exact ones. */
  function Entries<F>(blocks: seq<Block<F>>, nodeFqn: string, wildcard: bool): Updates<F> {
    if blocks == [] then []
    else
      var b := blocks[|blocks| - 1];
      Entries(blocks[..|blocks| - 1], nodeFqn, wildcard)
        + (if Applies(b.name, nodeFqn) && IsWildcard(b.name) == wildcard then b.entries else [])
  }

  /** A node's fully qualified name is a slash and the rest; the blocks that apply to it
    * are the three wildcards and those with its name, written with the slash or without. */
  lemma BlocksThatApply(name: string, rest: string)
    ensures IsWildcard(name) <==> name in {"/**", "/*", "**"}
    ensures Applies(name, "/" + rest) <==> name in {"/**", "/*", "**", "/" + rest, rest}
  {
    if "/" + name == "/" + rest {
      assert name == ("/" + name)[1..] == ("/" + rest)[1..] == rest;
    }
    assert ("/" + rest)[1..] == rest;
  }

  /** Entry j of block i gives the node a value for n. */
  predicate Gives<F>(blocks: seq<Block<F>>, nodeFqn: string, wildcard: bool, n: string, i: int, j: int) {
    && 0 <= i < |blocks| && Applies(blocks[i].name, nodeFqn) && IsWildcard(blocks[i].name) == wildcard
    && 0 <= j < |blocks[i].entries| && blocks[i].entries[j].0 == n
  }

  lemma {:induction false} LastOfBoth<F>(a: Updates<F>, b: Updates<F>, n: string)
    ensures LastValue(a + b, n) == if LastValue(b, n).Some? then LastValue(b, n) else LastValue(a, n)
  {
    if b == [] {
      assert a + b == a;
    } else {
      assert (a + b)[..|a + b| - 1] == a + b[..|b| - 1];
      LastOfBoth(a, b[..|b| - 1], n);
    }
  }

  lemma {:induction false} LastInBlock<F>(entries: Updates<F>, n: string) returns (j: int)
    ensures LastValue(entries, n) == None ==> forall k :: 0 <= k < |entries| ==> entries[k].0 != n
    ensures LastValue(entries, n).Some? ==>
      && 0 <= j < |entries| && entries[j] == (n, LastValue(entries, n).value)
      && forall k :: j < k < |entries| ==> entries[k].0 != n
  {
    j := 0;
    if entries != [] {
      var last := |entries| - 1;
      if entries[last].0 == n {
        j := last;
      } else {
        j := LastInBlock(entries[..last], n);
        assert forall k :: 0 <= k < last ==> entries[..last][k] == entries[k];
      }
    }
  }

  lemma NothingGiven<F>(n: string)
    ensures LastValue<F>([], n) == None
  {
  }

  /** Of the entries of one kind of block, the last one for a name wins: the last block
    * that has it, and in that block its last entry. */
  lemma {:induction false} LastEntryWins<F>(blocks: seq<Block<F>>, nodeFqn: string, wildcard: bool, n: string)
    returns (i: int, j: int)
    ensures var v := LastValue(Entries(blocks, nodeFqn, wildcard), n);
      && (v == None ==> forall k, l :: !Gives(blocks, nodeFqn, wildcard, n, k, l))
      && (v.Some? ==>
            && Gives(blocks, nodeFqn, wildcard, n, i, j) && v.value == blocks[i].entries[j].1
            && forall k, l :: Gives(blocks, nodeFqn, wildcard, n, k, l) ==> k < i || (k == i && l <= j))
  {
    hide Applies, IsWildcard, LastValue;
    i, j := 0, 0;
    NothingGiven<F>(n);
    if blocks != [] {
      var last := |blocks| - 1;
      var front, b := blocks[..last], blocks[last];
      var own := if Applies(b.name, nodeFqn) && IsWildcard(b.name) == wildcard then b.entries else [];
      LastOfBoth(Entries(front, nodeFqn, wildcard), own, n);
      var x, y := LastEntryWins(front, nodeFqn, wildcard, n);
      var z := LastInBlock(own, n);
      forall k, l ensures Gives(blocks, nodeFqn, wildcard, n, k, l)
        <==> Gives(front, nodeFqn, wildcard, n, k, l) || (k == last && 0 <= l < |own| && own[l].0 == n) {}
      if LastValue(own, n).Some? {
        i, j := last, z;
      } else {
        i, j := x, y;
      }
    }
  }

  /** The override a node gets: the last entry of an exact block, failing that
    * the last entry of a wildcard block. */
  method CollectOverrides<F(==)>(blocks: seq<Block<F>>, nodeFqn: string) returns (out: map<string, ParameterValue<F>>)
    ensures forall n ::
      var exact := LastValue(Entries(blocks, nodeFqn, false), n);
      var chosen := if exact.Some? then exact else LastValue(Entries(blocks, nodeFqn, true), n);
      (n in out <==> chosen.Some?) && (n in out ==> out[n] == chosen.value)
  {
    var wildcards: Updates<F> := [];
    var exact: Updates<F> := [];
    for i := 0 to |blocks|
      invariant wildcards == Entries(blocks[..i], nodeFqn, true)
      invariant exact == Entries(blocks[..i], nodeFqn, false)
    {
      assert blocks[..i + 1][..i] == blocks[..i];
      var b := blocks[i];
      if !Applies(b.name, nodeFqn) {
        continue;
      }
      for j := 0 to |b.entries|
        invariant wildcards == Entries(blocks[..i], nodeFqn, true)
                            + (if IsWildcard(b.name) then b.entries[..j] else [])
        invariant exact == Entries(blocks[..i], nodeFqn, false)
                        + (if IsWildcard(b.name) then [] else b.entries[..j])
      {
        assert b.entries[..j + 1] == b.entries[..j] + [b.entries[j]];
        if IsWildcard(b.name) {
          wildcards := wildcards + [b.entries[j]];
        } else {
          exact := exact + [b.entries[j]];
        }
      }
      assert b.entries[..|b.entries|] == b.entries;
    }
    assert blocks[..|blocks|] == blocks;
    out := map[];
    for i := 0 to |wildcards|
      invariant forall n :: var v := LastValue(wildcards[..i], n);
        (n in out <==> v.Some?) && (n in out ==> out[n] == v.value)
    {
      assert wildcards[..i + 1][..i] == wildcards[..i];
      out := out[wildcards[i].0 := wildcards[i].1];
    }
    assert wildcards[..|wildcards|] == wildcards;
    ghost var base := out;
    for i := 0 to |exact|
      invariant forall n :: var v := LastValue(exact[..i], n);
        (n in out <==> v.Some? || n in base) && (n in out ==> out[n] == if v.Some? then v.value else base[n])
    {
      assert exact[..i + 1][..i] == exact[..i];
      out := out[exact[i].0 := exact[i].1];
    }
    assert exact[..|exact|] == exact;
  }
}
