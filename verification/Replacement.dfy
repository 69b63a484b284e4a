/**
  The compiler pass's rewriting step: gather every call that uses a request of a convertible init call,
  then replace the called functions. A request is identified with the operand value. Every value has
  one type, and the calls of the interface have the operand types of its functions.
 */
module Replacement {

  datatype Api = Wait | Start | Free | SendInit | RecvInit

  /** The five supported MPI functions, their optimised versions, other functions of MPI, all others. */
  datatype Callee = Mpi(api: Api) | Opt(api: Api) | OtherMpi(id: nat) | Foreign(id: nat)

  datatype CallInst = CallInst(callee: Callee, args: seq<nat>)

  datatype Ty = RequestPointer | BufferPointer | Int | DatatypeHandle | CommHandle | StatusPointer | OtherTy(id: nat)

  /** The operand types of an MPI function and of its optimised version alike. */
  function Signature(api: Api): seq<Ty> {
    match api
    case Wait => [RequestPointer, StatusPointer]
    case Start => [RequestPointer]
    case Free => [RequestPointer]
    case _ => [BufferPointer, Int, DatatypeHandle, Int, Int, CommHandle, RequestPointer]
  }

  predicate Matches(args: seq<nat>, signature: seq<Ty>, ty: nat -> Ty) {
    |args| == |signature| && forall k | 0 <= k < |args| :: ty(args[k]) == signature[k]
  }

  /** The operands of calls of the interface have the types the verifier of the IR demands. */
  predicate WellTyped(calls: seq<CallInst>, ty: nat -> Ty) {
    forall i | 0 <= i < |calls| && (calls[i].callee.Mpi? || calls[i].callee.Opt?) ::
      Matches(calls[i].args, Signature(calls[i].callee.api), ty)
  }

  /** A use of a value by an instruction that is not a call. */
  datatype OtherUse = BitCast(of: nat, onlyLifetime: bool) | Unsupported(of: nat)

  const REQUEST_ARG := 6

  // ---- specification ----

  predicate IsInit(c: CallInst) {
    (c.callee == Mpi(SendInit) || c.callee == Mpi(RecvInit)) && |c.args| == 7
  }

  predicate AllInits(calls: seq<CallInst>, inits: seq<nat>) {
    forall k | 0 <= k < |inits| :: inits[k] < |calls| && IsInit(calls[inits[k]])
  }

  /** The requests to convert. */
  function Requests(calls: seq<CallInst>, inits: seq<nat>): set<nat>
    requires AllInits(calls, inits)
  {
    set i | i in inits :: calls[i].args[REQUEST_ARG]
  }

  /** The calls to replace: all that use one of the requests, in any operand. */
  function Gathered(calls: seq<CallInst>, requests: set<nat>): set<nat> {
    set i | 0 <= i < |calls| && exists r :: r in requests && r in calls[i].args
  }

  /** No request of an init is used where the pass gives up. */
  predicate UsesSupported(calls: seq<CallInst>, uses: seq<OtherUse>, r: nat) {
    && (forall i | 0 <= i < |calls| && r in calls[i].args :: !calls[i].callee.Foreign?)
    && (forall u | u in uses && u.of == r :: u.BitCast? && u.onlyLifetime)
  }

  /** Every use of a request to convert is one the pass accepts. */
  predicate Gatherable(calls: seq<CallInst>, uses: seq<OtherUse>, inits: seq<nat>) {
    && AllInits(calls, inits)
    && (forall k | 0 <= k < |inits| :: UsesSupported(calls, uses, calls[inits[k]].args[REQUEST_ARG]))
  }

  predicate Supported(calls: seq<CallInst>, uses: seq<OtherUse>, inits: seq<nat>) {
    && Gatherable(calls, uses, inits)
    && (forall i | i in Gathered(calls, Requests(calls, inits)) :: calls[i].callee.Mpi?)
  }

  /** The pass succeeds exactly if every call that has a converted request as an operand is one of the five. */
  predicate OnlyInterfaceCalls(calls: seq<CallInst>, r: nat) {
    forall i | 0 <= i < |calls| && r in calls[i].args :: calls[i].callee.Mpi?
  }

  /** ... and every other use of it is a bitcast for lifetime markers. */
  predicate OnlyLifetimeUses(uses: seq<OtherUse>, r: nat) {
    forall u | u in uses && u.of == r :: u == BitCast(r, true)
  }

  /** Which programs the pass supports, request by request. */
  lemma SupportedExactly(calls: seq<CallInst>, uses: seq<OtherUse>, inits: seq<nat>)
    requires AllInits(calls, inits)
    ensures Supported(calls, uses, inits) <==>
      forall r | r in Requests(calls, inits) :: OnlyInterfaceCalls(calls, r) && OnlyLifetimeUses(uses, r)
  {
    var requests := Requests(calls, inits);
    forall k | 0 <= k < |inits| ensures calls[inits[k]].args[REQUEST_ARG] in requests {
      assert inits[k] in inits;
    }
    if Supported(calls, uses, inits) {
      forall r | r in requests ensures OnlyInterfaceCalls(calls, r) && OnlyLifetimeUses(uses, r) {
        var i :| i in inits && calls[i].args[REQUEST_ARG] == r;
        var k :| 0 <= k < |inits| && inits[k] == i;
        assert UsesSupported(calls, uses, calls[inits[k]].args[REQUEST_ARG]);
        assert forall j | 0 <= j < |calls| && r in calls[j].args :: j in Gathered(calls, requests);
      }
    } else if Gatherable(calls, uses, inits) {
      var i :| i in Gathered(calls, requests) && !calls[i].callee.Mpi?;
      var r :| r in requests && r in calls[i].args;
      assert !OnlyInterfaceCalls(calls, r);
    } else {
      var k :| 0 <= k < |inits| && !UsesSupported(calls, uses, calls[inits[k]].args[REQUEST_ARG]);
      var r := calls[inits[k]].args[REQUEST_ARG];
      assert !(OnlyInterfaceCalls(calls, r) && OnlyLifetimeUses(uses, r));
    }
  }

  function Optimised(c: CallInst): CallInst {
    if c.callee.Mpi? then c.(callee := Opt(c.callee.api)) else c
  }

  function Rewritten(calls: seq<CallInst>, gathered: set<nat>): seq<CallInst> {
    seq(|calls|, i requires 0 <= i < |calls| => if i in gathered then Optimised(calls[i]) else calls[i])
  }

  // ---- what the rewriting guarantees ----

  /** The call has a request to convert among its operands. */
  predicate Uses(c: CallInst, requests: set<nat>) {
    exists r :: r in requests && r in c.args
  }

  /** Call by call: those that use a request to convert are optimised, nothing else changes. */
  ghost predicate Converted(before: seq<CallInst>, after: seq<CallInst>, requests: set<nat>) {
    && |after| == |before|
    && forall i | 0 <= i < |before| ::
         && after[i].args == before[i].args
         && (if Uses(before[i], requests)
             then after[i].callee.Opt? && before[i].callee == Mpi(after[i].callee.api)
             else after[i] == before[i])
  }

  lemma RewrittenIsConverted(calls: seq<CallInst>, uses: seq<OtherUse>, inits: seq<nat>)
    requires Supported(calls, uses, inits)
    ensures var requests := Requests(calls, inits);
      Converted(calls, Rewritten(calls, Gathered(calls, requests)), requests)
  {
    var requests := Requests(calls, inits);
    forall i | 0 <= i < |calls| ensures i in Gathered(calls, requests) <==> Uses(calls[i], requests) {
    }
  }

  /** Which operand of a call of the interface is its request. */
  function RequestAt(api: Api): nat {
    if api.SendInit? || api.RecvInit? then REQUEST_ARG else 0
  }

  /** The call is one of the interface and `v` is its request. */
  predicate IsRequestOf(c: CallInst, v: nat) {
    (c.callee.Mpi? || c.callee.Opt?) && RequestAt(c.callee.api) < |c.args| && c.args[RequestAt(c.callee.api)] == v
  }

  /** A value that is the request of both an original and an optimised call. */
  ghost predicate HalfConverted(calls: seq<CallInst>, v: nat) {
    exists i, j | 0 <= i < |calls| && 0 <= j < |calls| ::
      && IsRequestOf(calls[i], v) && calls[i].callee.Mpi?
      && IsRequestOf(calls[j], v) && calls[j].callee.Opt?
  }

  /** Only the request operand of a call of the interface has the type of a request. */
  lemma OnlyOneRequest(c: CallInst, ty: nat -> Ty, v: nat)
    requires (c.callee.Mpi? || c.callee.Opt?) && Matches(c.args, Signature(c.callee.api), ty)
    requires v in c.args && ty(v) == RequestPointer
    ensures IsRequestOf(c, v)
  {
    var k :| 0 <= k < |c.args| && c.args[k] == v;
    assert Signature(c.callee.api)[k] == RequestPointer;
  }

  lemma RequestTypes(calls: seq<CallInst>, inits: seq<nat>, ty: nat -> Ty, r: nat)
    requires AllInits(calls, inits) && WellTyped(calls, ty) && r in Requests(calls, inits)
    ensures ty(r) == RequestPointer
  {
    var i :| i in inits && calls[i].args[REQUEST_ARG] == r;
    var k :| 0 <= k < |inits| && inits[k] == i;
    assert Matches(calls[i].args, Signature(calls[i].callee.api), ty);
  }

  /** The calls that are converted are exactly those whose request is to be converted. */
  lemma UsesAsRequest(calls: seq<CallInst>, inits: seq<nat>, ty: nat -> Ty, i: nat, v: nat)
    requires AllInits(calls, inits) && WellTyped(calls, ty) && i < |calls| && IsRequestOf(calls[i], v)
    ensures Uses(calls[i], Requests(calls, inits)) <==> v in Requests(calls, inits)
  {
    var requests := Requests(calls, inits);
    if v in requests {
      assert v in calls[i].args;
    }
    if Uses(calls[i], requests) {
      var r :| r in requests && r in calls[i].args;
      RequestTypes(calls, inits, ty, r);
      OnlyOneRequest(calls[i], ty, r);
    }
  }

  /**
    All or nothing: a converted request, also one that several inits share, is afterwards the request
    of optimised calls only, and the conversion leaves every other request as it was.
   */
  lemma AllOrNothing(before: seq<CallInst>, after: seq<CallInst>, inits: seq<nat>, ty: nat -> Ty, v: nat)
    requires AllInits(before, inits) && WellTyped(before, ty)
    requires Converted(before, after, Requests(before, inits))
    ensures HalfConverted(after, v) <==> v !in Requests(before, inits) && HalfConverted(before, v)
    ensures v in Requests(before, inits) ==>
      forall i | 0 <= i < |after| && IsRequestOf(after[i], v) :: after[i].callee.Opt?
  {
    var requests := Requests(before, inits);
    forall i | 0 <= i < |before|
      ensures IsRequestOf(after[i], v) <==> IsRequestOf(before[i], v)
      ensures IsRequestOf(before[i], v) ==> (Uses(before[i], requests) <==> v in requests)
    {
      SameRequest(before, after, requests, i, v);
      if IsRequestOf(before[i], v) {
        UsesAsRequest(before, inits, ty, i, v);
      }
    }
    hide Uses, IsRequestOf, Requests, Matches;
  }

  /** The operands still have the types that the called functions demand. */
  lemma StaysWellTyped(before: seq<CallInst>, after: seq<CallInst>, requests: set<nat>, ty: nat -> Ty)
    requires WellTyped(before, ty) && Converted(before, after, requests)
    ensures WellTyped(after, ty)
  {
    hide Uses, Signature;
  }

  lemma SameRequest(before: seq<CallInst>, after: seq<CallInst>, requests: set<nat>, i: nat, v: nat)
    requires Converted(before, after, requests) && i < |before|
    ensures IsRequestOf(after[i], v) <==> IsRequestOf(before[i], v)
  {}

  /** A send and a receive request, 10 and 20, with all calls of the interface, and a request 30 of other calls. */
  const BEFORE: seq<CallInst> :=
    [CallInst(Mpi(SendInit), [1, 2, 3, 4, 5, 6, 10]), CallInst(Mpi(RecvInit), [1, 2, 3, 4, 5, 6, 20]),
     CallInst(Mpi(Start), [10]), CallInst(Mpi(Start), [20]), CallInst(Mpi(Wait), [10, 7]), CallInst(Mpi(Wait), [20, 7]),
     CallInst(Mpi(Free), [10]), CallInst(Mpi(Free), [20]), CallInst(Mpi(Wait), [30, 7]), CallInst(Foreign(0), [30])]

  const AFTER: seq<CallInst> :=
    [CallInst(Opt(SendInit), [1, 2, 3, 4, 5, 6, 10]), CallInst(Opt(RecvInit), [1, 2, 3, 4, 5, 6, 20]),
     CallInst(Opt(Start), [10]), CallInst(Opt(Start), [20]), CallInst(Opt(Wait), [10, 7]), CallInst(Opt(Wait), [20, 7]),
     CallInst(Opt(Free), [10]), CallInst(Opt(Free), [20]), CallInst(Mpi(Wait), [30, 7]), CallInst(Foreign(0), [30])]

  lemma ExampleRequests()
    ensures AllInits(BEFORE, [0, 1]) && Requests(BEFORE, [0, 1]) == {10, 20}
  {
    assert 0 in [0, 1] && 1 in [0, 1];
  }

  lemma ExampleOperands(i: nat)
    requires i < |BEFORE|
    ensures 10 in BEFORE[i].args <==> i in {0, 2, 4, 6}
    ensures 20 in BEFORE[i].args <==> i in {1, 3, 5, 7}
  {}

  lemma ExampleUses(i: nat)
    requires i < |BEFORE|
    ensures i in Gathered(BEFORE, {10, 20}) <==> i < 8
    ensures 10 in BEFORE[i].args || 20 in BEFORE[i].args ==> BEFORE[i].callee.Mpi?
  {
    ExampleOperands(i);
    assert 10 in {10, 20} && 20 in {10, 20};
  }

  lemma ExampleRewritten(i: nat)
    requires i < |BEFORE|
    ensures |AFTER| == |BEFORE| && AFTER[i] == if i < 8 then Optimised(BEFORE[i]) else BEFORE[i]
  {}

  /** All five functions are replaced, for requests of both kinds, and lifetime markers do no harm. */
  lemma AllFiveReplaced()
    ensures Supported(BEFORE, [BitCast(10, true), Unsupported(30)], [0, 1])
    ensures Requests(BEFORE, [0, 1]) == {10, 20}
    ensures Rewritten(BEFORE, Gathered(BEFORE, {10, 20})) == AFTER
  {
    var uses := [BitCast(10, true), Unsupported(30)];
    ExampleRequests();
    forall i: nat | i < |BEFORE|
      ensures i in Gathered(BEFORE, {10, 20}) <==> i < 8
      ensures 10 in BEFORE[i].args || 20 in BEFORE[i].args ==> BEFORE[i].callee.Mpi?
      ensures |AFTER| == |BEFORE| && AFTER[i] == if i < 8 then Optimised(BEFORE[i]) else BEFORE[i]
    {
      ExampleUses(i);
      ExampleRewritten(i);
    }
    hide BEFORE, AFTER, Requests, Supported, Gathered, Optimised;
    assert OnlyLifetimeUses(uses, 10) && OnlyLifetimeUses(uses, 20);
    assert OnlyInterfaceCalls(BEFORE, 10) && OnlyInterfaceCalls(BEFORE, 20);
    SupportedExactly(BEFORE, uses, [0, 1]);
  }

  // ---- the code ----

  class IrModule {
    const calls: array<CallInst>
    const uses: seq<OtherUse>
    const ty: nat -> Ty

    constructor (calls: array<CallInst>, uses: seq<OtherUse>, ty: nat -> Ty)
      ensures this.calls == calls && this.uses == uses && this.ty == ty
    {
      this.calls, this.uses, this.ty := calls, uses, ty;
    }

    /** `replace_call`: the same operands, another function. */
    method ReplaceCall(i: nat, callee: Callee)
      requires i < calls.Length
      modifies calls
      ensures calls[..] == old(calls[..])[i := CallInst(callee, old(calls[i].args))]
    {
      var args: seq<nat> := [];
      var old_ := calls[i];
      for k := 0 to |old_.args|
        invariant args == old_.args[..k]
      {
        args := args + [old_.args[k]];
      }
      assert old_.args[..|old_.args|] == old_.args;
      calls[i] := CallInst(callee, args);
    }

    /** `get_usage_of_request`; `ok` is false where it asserts. */
    method GetUsageOfRequest(init: nat) returns (ok: bool, users: set<nat>)
      requires init < calls.Length
      ensures ok <==> IsInit(calls[init]) && UsesSupported(calls[..], uses, calls[init].args[REQUEST_ARG])
      ensures ok ==> users == Gathered(calls[..], {calls[init].args[REQUEST_ARG]})
    {
      users := {};
      ok := (calls[init].callee == Mpi(SendInit) || calls[init].callee == Mpi(RecvInit)) && |calls[init].args| == 7;
      if !ok {
        return;
      }
      var r := calls[init].args[REQUEST_ARG];
      for i := 0 to calls.Length
        invariant ok <==> forall k | 0 <= k < i && r in calls[k].args :: !calls[k].callee.Foreign?
        invariant ok ==> users == set k | 0 <= k < i && r in calls[k].args
      {
        if r in calls[i].args {
          if calls[i].callee.Foreign? {
            ok := false;
          } else {
            users := users + {i};
          }
        }
      }
      ghost var callsOk := ok;
      for i := 0 to |uses|
        invariant ok <==> callsOk && forall u | u in uses[..i] && u.of == r :: u.BitCast? && u.onlyLifetime
      {
        assert uses[..i + 1] == uses[..i] + [uses[i]];
        if uses[i].of == r && !(uses[i].BitCast? && uses[i].onlyLifetime) {
          ok := false;
        }
      }
      assert uses[..|uses|] == uses;
      assert forall k | 0 <= k < calls.Length :: calls[..][k] == calls[k];
      if ok {
        assert users == Gathered(calls[..], {r}) by {
          forall k | 0 <= k < calls.Length ensures k in users <==> k in Gathered(calls[..], {r}) {
            if r in calls[k].args {
              assert r in {r} && r in calls[..][k].args;
            }
          }
        }
      }
    }

    /** The gathering loops over the init calls. */
    method GatherCalls(inits: seq<nat>) returns (ok: bool, toReplace: set<nat>)
      requires forall k | 0 <= k < |inits| :: inits[k] < calls.Length
      ensures ok <==> Gatherable(calls[..], uses, inits)
      ensures ok ==> toReplace == Gathered(calls[..], Requests(calls[..], inits))
    {
      ok, toReplace := true, {};
      for k := 0 to |inits|
        invariant ok <==> Gatherable(calls[..], uses, inits[..k])
        invariant ok ==> toReplace == Gathered(calls[..], Requests(calls[..], inits[..k]))
      {
        var here, users := GetUsageOfRequest(inits[k]);
        assert inits[..k + 1] == inits[..k] + [inits[k]];
        GatherableSnoc(calls[..], uses, inits[..k], inits[k]);
        if ok && here {
          toReplace := toReplace + users;
          GatheredSnoc(calls[..], inits[..k], inits[k]);
        }
        ok := ok && here;
      }
      assert inits[..|inits|] == inits;
    }

    /** The replacing loop; where `ok` is false the pass asserts and produces nothing. */
    method ReplaceCalls(toReplace: set<nat>) returns (ok: bool)
      requires forall i | i in toReplace :: i < calls.Length
      modifies calls
      ensures ok <==> forall i | i in toReplace :: old(calls[..])[i].callee.Mpi?
      ensures ok ==> calls[..] == Rewritten(old(calls[..]), toReplace)
    {
      ghost var before := calls[..];
      ok := true;
      var left := toReplace;
      while left != {} && ok
        invariant left <= toReplace && calls.Length == |before|
        invariant ok <==> forall i | i in toReplace - left :: before[i].callee.Mpi?
        invariant ok ==> calls[..] == Rewritten(before, toReplace - left)
        decreases left, ok
      {
        var i :| i in left;
        assert calls[..][i] == before[i];
        if calls[i].callee.Mpi? {
          left := left - {i};
          ReplaceCall(i, Opt(calls[i].callee.api));
        } else {
          ok := false;
          left := left - {i};
        }
      }
      assert ok ==> toReplace - left == toReplace;
    }

    /**
      `replace_communication_calls`, for the init calls of both kinds. It succeeds exactly on the
      programs it supports; then each call that uses a converted request is its optimised version,
      nothing else has changed, and no request is left half converted.
     */
    method ReplaceCommunicationCalls(inits: seq<nat>) returns (ok: bool)
      requires WellTyped(calls[..], ty) && forall k | 0 <= k < |inits| :: inits[k] < calls.Length
      modifies calls
      ensures ok <==> Supported(old(calls[..]), uses, inits)
      ensures ok ==> Converted(old(calls[..]), calls[..], Requests(old(calls[..]), inits))
      ensures ok ==> WellTyped(calls[..], ty)
      ensures ok ==> forall v ::
        HalfConverted(calls[..], v) <==> v !in Requests(old(calls[..]), inits) && HalfConverted(old(calls[..]), v)
    {
      hide WellTyped, Converted, HalfConverted, Rewritten, UsesSupported, Requests;
      ghost var before := calls[..];
      var toReplace;
      ok, toReplace := GatherCalls(inits);
      if !ok {
        return;
      }
      ok := ReplaceCalls(toReplace);
      if ok {
        RewrittenIsConverted(before, uses, inits);
        StaysWellTyped(before, calls[..], Requests(before, inits), ty);
        forall v ensures HalfConverted(calls[..], v) <==> v !in Requests(before, inits) && HalfConverted(before, v) {
          AllOrNothing(before, calls[..], inits, ty, v);
        }
      }
    }
  }

  lemma GatherableSnoc(calls: seq<CallInst>, uses: seq<OtherUse>, inits: seq<nat>, i: nat)
    requires i < |calls|
    ensures Gatherable(calls, uses, inits + [i]) <==>
              && Gatherable(calls, uses, inits) && IsInit(calls[i])
              && UsesSupported(calls, uses, calls[i].args[REQUEST_ARG])
  {
    var all := inits + [i];
    assert all[|inits|] == i && forall k | 0 <= k < |inits| :: all[k] == inits[k];
    if Gatherable(calls, uses, all) {
      assert forall k | 0 <= k < |inits| :: IsInit(calls[all[k]]);
      assert forall k | 0 <= k < |inits| :: UsesSupported(calls, uses, calls[all[k]].args[REQUEST_ARG]);
    }
  }

  lemma GatheredSnoc(calls: seq<CallInst>, inits: seq<nat>, i: nat)
    requires AllInits(calls, inits) && i < |calls| && IsInit(calls[i])
    ensures AllInits(calls, inits + [i])
    ensures Gathered(calls, Requests(calls, inits + [i]))
         == Gathered(calls, Requests(calls, inits)) + Gathered(calls, {calls[i].args[REQUEST_ARG]})
  {
    assert Requests(calls, inits + [i]) == Requests(calls, inits) + {calls[i].args[REQUEST_ARG]};
  }
}
