/**
  The request object of the RDMA phase as the library implements it: fields updated in place by
  `b_send`, `b_recv`, `progress_recv_request`, `e_send` and `e_recv`. Each method is shown to do what
  the statements of `RdmaMachine.Advance` do one after the other, whatever the network, the peer and
  the user do before each statement: that is an input, a script of answers.
 */
module RdmaRequest {
  import opened Common
  import opened RdmaMachine
  import I = RdmaInvariant
  import T = RdmaTheorems

  const RDMA_SPIN_WAIT_THRESHOLD := 32

  // ---- specification in terms of the step system ----

  /**
    The state in which a statement of `role` is executed: of its own side, others may have changed the
    flag, the buffer and what is in flight; all else is as in the answer.
   */
  function Poll(role: Role, st: State, answer: State): State {
    var x, y := st.Get(role), answer.Get(role);
    answer.Set(role, x.(flag := y.flag, buf := y.buf, net := y.net))
  }

  function Statement(role: Role, st: State): State {
    if Enabled(st, Run(role)) then Apply(st, Run(role)) else st
  }

  predicate Outside(pc: Pc) {
    pc.Idle? || pc.Started?
  }

  /** A call that has the processor: it ends outside the library or when the answers run out. */
  function RunCall(role: Role, st: State, script: seq<State>): State
    decreases |script|
  {
    if Outside(st.Get(role).pc) || script == [] then st
    else RunCall(role, Statement(role, Poll(role, st, script[0])), script[1..])
  }

  lemma OneStatement(role: Role, st: State, script: seq<State>)
    requires script != [] && !Outside(st.Get(role).pc)
    ensures RunCall(role, st, script) == RunCall(role, Statement(role, Poll(role, st, script[0])), script[1..])
  {}

  lemma IssueDataStatement(role: Role, st: State, ctx: Context)
    requires st.Get(role).pc == Transfer(ctx, IssueData)
    ensures var x := st.Get(role);
      Statement(role, st) == st.(moves := st.moves + [Move(x.op, role)]).Set(role,
        x.(pc := Transfer(ctx, Stage.Fence), net := x.net[x.issued := Copy(x.epoch, map[], {})],
           dataId := Some(x.issued), issued := x.issued + 1))
  {}

  lemma FenceStatement(role: Role, st: State, ctx: Context)
    requires st.Get(role).pc == Transfer(ctx, Stage.Fence)
    ensures var x := st.Get(role);
      Statement(role, st) == st.Set(role, x.(pc := Transfer(ctx, IssueFlag), epoch := x.epoch + 1))
  {}

  lemma IssueFlagStatement(role: Role, st: State, ctx: Context)
    requires st.Get(role).pc == Transfer(ctx, IssueFlag)
    ensures var x := st.Get(role);
      Statement(role, st) == st.Set(role,
        x.(pc := Transfer(ctx, Stage.Flush), net := x.net[x.issued := Put(x.epoch, DoneFlag(x.op))],
           finId := Some(x.issued), issued := x.issued + 1))
  {}

  lemma AnnounceStatement(role: Role, st: State, ctx: Context)
    requires st.Get(role).pc == Announce(ctx)
    ensures var x := st.Get(role);
      Statement(role, st) == st.Set(role,
        x.(pc := AnnounceFlush(ctx), net := x.net[x.issued := Put(x.epoch, ReadyFlag(x.op))],
           annId := Some(x.issued), issued := x.issued + 1))
  {}

  /** Every answer is one that a run of the step system can bring about. */
  ghost predicate Justified(role: Role, st: State, script: seq<State>)
    decreases |script|
  {
    if Outside(st.Get(role).pc) || script == [] then true
    else
      var st' := Poll(role, st, script[0]);
      && (exists es :: Runs(st, es) && Exec(st, es) == st')
      && Justified(role, Statement(role, st'), script[1..])
  }

  lemma {:induction false} ReachableExec(st: State, es: seq<Event>)
    requires Reachable(st) && Runs(st, es)
    ensures Reachable(Exec(st, es))
    decreases |es|
  {
    if es != [] {
      hide Reachable;
      I.ReachableStep(st, es[0]);
      ReachableExec(Apply(st, es[0]), es[1..]);
    }
  }

  /** Under such answers a call is a run of the step system, so all that is proved of that holds here. */
  lemma {:induction false} CallIsRun(role: Role, st: State, script: seq<State>)
    requires Reachable(st) && Justified(role, st, script)
    ensures Reachable(RunCall(role, st, script))
    decreases |script|
  {
    if !Outside(st.Get(role).pc) && script != [] {
      var st' := Poll(role, st, script[0]);
      var es :| Runs(st, es) && Exec(st, es) == st';
      hide Reachable, Poll, Enabled, Apply;
      ReachableExec(st, es);
      if Enabled(st', Run(role)) {
        I.ReachableStep(st', Run(role));
      }
      CallIsRun(role, Statement(role, st'), script[1..]);
    }
  }

  /** A receiver's Wait that returns has delivered what the sender had at its Start of that operation. */
  lemma WaitDelivers(st: State, script: seq<State>)
    requires Reachable(st) && st.r.pc.Started?
    requires Justified(Receiver, Apply(st, CallWait(Receiver)), script)
    requires RunCall(Receiver, Apply(st, CallWait(Receiver)), script).r.pc.Idle?
    ensures var end := RunCall(Receiver, Apply(st, CallWait(Receiver)), script);
      && end.r.op >= 2 && |end.r.log| == end.r.op - 1 <= |end.s.log|
      && end.r.log[end.r.op - 2] == end.s.log[end.r.op - 2]
  {
    hide Reachable, RunCall, Justified;
    I.ReachableStep(st, CallWait(Receiver));
    CallIsRun(Receiver, Apply(st, CallWait(Receiver)), script);
    var end := RunCall(Receiver, Apply(st, CallWait(Receiver)), script);
    T.Integrity(end);
    OperationStays(Receiver, Apply(st, CallWait(Receiver)), script);
    I.ReachableInv(st);
  }

  lemma {:induction false} OperationStays(role: Role, st: State, script: seq<State>)
    ensures RunCall(role, st, script).Get(role).op == st.Get(role).op
    decreases |script|
  {
    if !Outside(st.Get(role).pc) && script != [] {
      StatementKeepsOperation(role, Poll(role, st, script[0]));
      OperationStays(role, Statement(role, Poll(role, st, script[0])), script[1..]);
    }
  }

  lemma StatementKeepsOperation(role: Role, st: State)
    ensures Statement(role, st).Get(role).op == st.Get(role).op
  {}

  // ---- what Start issues, in terms of the flag it tests ----

  lemma OwnSide(role: Role, st: State, answer: State)
    ensures var x, y := st.Get(role), answer.Get(role);
      Statement(role, Poll(role, st, answer)).Get(role) == Advance(role, x.(flag := y.flag, buf := y.buf, net := y.net))
  {}

  /** Two issues if the flag was 2n+1 at the test, one otherwise. */
  predicate Issued(f: int, x: Side, x': Side) {
    && x'.pc.Started? && x'.op == x.op + 1
    && if f == 2 * x'.op + 1 then
         && x'.issued == x.issued + 2 && x'.epoch == x.epoch + 1
         && x'.annId == None && x'.dataId == Some(x.issued) && x'.finId == Some(x.issued + 1)
         && x'.dataXfer == Some(x'.issued) && x'.flagXfer == x.flagXfer
       else
         && x'.issued == x.issued + 1 && x'.epoch == x.epoch
         && x'.annId == Some(x.issued) && x'.dataId == None && x'.finId == None
         && x'.flagXfer == Some(x'.issued) && x'.dataXfer == x.dataXfer
  }

  /** A side under outside steps: what others may change of it does not matter below. */
  predicate Same(x: Side, x': Side) {
    x' == x.(flag := x'.flag, buf := x'.buf, net := x'.net)
  }

  lemma TransferIssues(role: Role, st: State, script: seq<State>)
    requires st.Get(role).pc == Transfer(InStart, Load) && |script| >= 6
    ensures var x, x' := st.Get(role), RunCall(role, st, script).Get(role);
      Same(x.(pc := Started, issued := x.issued + 2, epoch := x.epoch + 1, dataId := Some(x.issued),
              finId := Some(x.issued + 1), dataXfer := Some(x.issued + 2)), x')
  {
    hide Statement, Poll, RunCall;
    var st1 := Statement(role, Poll(role, st, script[0]));
    OwnSide(role, st, script[0]);
    OneStatement(role, st, script);
    var st2 := Statement(role, Poll(role, st1, script[1]));
    OwnSide(role, st1, script[1]);
    OneStatement(role, st1, script[1..]);
    assert script[1..][1..] == script[2..];
    var st3 := Statement(role, Poll(role, st2, script[2]));
    OwnSide(role, st2, script[2]);
    OneStatement(role, st2, script[2..]);
    assert script[2..][1..] == script[3..];
    CloseIssues(role, st3, script[3..]);
  }

  lemma CloseIssues(role: Role, st: State, script: seq<State>)
    requires st.Get(role).pc == Transfer(InStart, Stage.Fence) && |script| >= 3
    ensures var x, x' := st.Get(role), RunCall(role, st, script).Get(role);
      Same(x.(pc := Started, issued := x.issued + 1, epoch := x.epoch + 1, finId := Some(x.issued),
              dataXfer := Some(x.issued + 1)), x')
  {
    hide Statement, Poll, RunCall;
    var st1 := Statement(role, Poll(role, st, script[0]));
    OwnSide(role, st, script[0]);
    OneStatement(role, st, script);
    var st2 := Statement(role, Poll(role, st1, script[1]));
    OwnSide(role, st1, script[1]);
    OneStatement(role, st1, script[1..]);
    assert script[1..][1..] == script[2..];
    var st3 := Statement(role, Poll(role, st2, script[2]));
    OwnSide(role, st2, script[2]);
    OneStatement(role, st2, script[2..]);
    Finished(role, st3, script[2..][1..]);
  }

  lemma AnnounceIssues(role: Role, st: State, script: seq<State>)
    requires st.Get(role).pc == Announce(InStart) && |script| >= 2
    ensures var x, x' := st.Get(role), RunCall(role, st, script).Get(role);
      Same(x.(pc := Started, issued := x.issued + 1, annId := Some(x.issued), flagXfer := Some(x.issued + 1)), x')
  {
    hide Statement, Poll, RunCall;
    var st1 := Statement(role, Poll(role, st, script[0]));
    OwnSide(role, st, script[0]);
    OneStatement(role, st, script);
    var st2 := Statement(role, Poll(role, st1, script[1]));
    OwnSide(role, st1, script[1]);
    OneStatement(role, st1, script[1..]);
    Finished(role, st2, script[1..][1..]);
  }

  lemma TestIssues(role: Role, st: State, answer: State)
    requires st.Get(role).pc == Check(InStart)
    ensures var x, x' := st.Get(role), Statement(role, Poll(role, st, answer)).Get(role);
      Same(x.(pc := if answer.Get(role).flag == 2 * x.op + 1 then Transfer(InStart, Load) else Announce(InStart)), x')
  {
    OwnSide(role, st, answer);
    hide Statement, Poll;
  }

  lemma StartedSide(role: Role, st: State)
    requires st.Get(role).pc.Idle?
    ensures Apply(st, Event.Start(role)) == st.Set(role, StartOp(role, st.Get(role)))
  {}

  lemma MovedIsIssued(f: int, x: Side, x': Side)
    requires f == 2 * (x.op + 1) + 1
    requires x' == x.(pc := Started, op := x.op + 1, annId := None, log := x'.log, flag := x'.flag, buf := x'.buf,
                      net := x'.net, issued := x.issued + 2, epoch := x.epoch + 1, dataId := Some(x.issued),
                      finId := Some(x.issued + 1), dataXfer := Some(x.issued + 2))
    ensures Issued(f, x, x')
  {}

  lemma AnnouncedIsIssued(f: int, x: Side, x': Side)
    requires f != 2 * (x.op + 1) + 1
    requires x' == x.(pc := Started, op := x.op + 1, annId := Some(x.issued), dataId := None, finId := None,
                      log := x'.log, flag := x'.flag, buf := x'.buf, net := x'.net, issued := x.issued + 1,
                      flagXfer := Some(x.issued + 1))
    ensures Issued(f, x, x')
  {}

  /** The rest of a Start after its test of the flag `f`. */
  lemma BranchIssues(f: int, role: Role, x: Side, st: State, script: seq<State>)
    requires |script| >= 6
    requires Same(StartOp(role, x).(pc := if f == 2 * (x.op + 1) + 1 then Transfer(InStart, Load)
                                          else Announce(InStart)), st.Get(role))
    ensures Issued(f, x, RunCall(role, st, script).Get(role))
  {
    hide RunCall, Issued;
    var x' := RunCall(role, st, script).Get(role);
    if f == 2 * (x.op + 1) + 1 {
      TransferIssues(role, st, script);
      MovedIsIssued(f, x, x');
    } else {
      AnnounceIssues(role, st, script);
      AnnouncedIsIssued(f, x, x');
    }
  }

  /** Start on either side, under any outside steps; the first answer holds the flag that is tested. */
  lemma StartIssues(role: Role, st: State, script: seq<State>)
    requires st.Get(role).pc.Idle? && |script| >= 7
    ensures Issued(script[0].Get(role).flag, st.Get(role),
                   RunCall(role, Apply(st, Event.Start(role)), script).Get(role))
  {
    var st0 := Apply(st, Event.Start(role));
    hide Statement, Poll, RunCall, Apply, Issued;
    StartedSide(role, st);
    TestIssues(role, st0, script[0]);
    var st1 := Statement(role, Poll(role, st0, script[0]));
    BranchIssues(script[0].Get(role).flag, role, st.Get(role), st1, script[1..]);
    OneStatement(role, st0, script);
  }

  // ---- the code ----

  class Request {
    const role: Role
    var flag: int
    var flagBuffer: int
    var opNumber: nat
    var buf: Buffer
    var flagXfer: Option<nat>
    var dataXfer: Option<nat>
    // the endpoint
    var net: map<nat, Flight>
    var issued: nat
    var epoch: nat
    /** All that is not a field of the request; history. */
    ghost var world: State
    ghost var annId: Option<nat>
    ghost var dataId: Option<nat>
    ghost var finId: Option<nat>
    ghost var log: seq<Buffer>

    ghost function View(pc: Pc): (st: State)
      reads this
      ensures st.Get(role).pc == pc
    {
      world.Set(role, Side(pc, opNumber, flag, buf, flagXfer, dataXfer, net, issued, epoch,
                           annId, dataId, finId, log))
    }

    constructor (role: Role, buf: Buffer, ghost world: State)
      ensures this.role == role && this.buf == buf && InitSide(View(Idle).Get(role))
      ensures View(Idle).Get(role.Peer()) == world.Get(role.Peer()) && View(Idle).moves == world.moves
    {
      this.role, this.buf, this.world := role, buf, world;
      flag, flagBuffer, opNumber, issued, epoch := 0, 0, 1, 0, 0;
      flagXfer, dataXfer, annId, dataId, finId := None, None, None, None, None;
      net, log := map[], [];
    }

    /** What happens outside before the next statement. */
    method Others(answer: State)
      modifies this`world, this`flag, this`buf, this`net
      ensures forall pc :: View(pc) == Poll(role, old(View(pc)), answer)
    {
      world := answer;
      flag, buf, net := answer.Get(role).flag, answer.Get(role).buf, answer.Get(role).net;
    }

    // Single statements, each with what happens outside before it.

    /** `flag == operation_number * 2 + 1`. */
    method CheckFlag(ghost ctx: Context, answer: State) returns (ready: bool)
      modifies this`world, this`flag, this`buf, this`net
      ensures View(if ready then Transfer(ctx, Load) else Announce(ctx))
           == Statement(role, Poll(role, old(View(Check(ctx))), answer))
    {
      hide Poll, RunCall;
      Others(answer);
      ready := flag == opNumber * 2 + 1;
    }

    /** `flag++`, first half. */
    method LoadFlag(ghost ctx: Context, answer: State) returns (loaded: int)
      modifies this`world, this`flag, this`buf, this`net
      ensures View(Transfer(ctx, Store(loaded)))
           == Statement(role, Poll(role, old(View(Transfer(ctx, Load))), answer))
    {
      hide Poll, RunCall;
      Others(answer);
      loaded := flag;
    }

    /** `flag++`, second half. */
    method StoreFlag(ghost ctx: Context, loaded: int, answer: State)
      modifies this`world, this`flag, this`buf, this`net
      ensures View(Transfer(ctx, IssueData))
           == Statement(role, Poll(role, old(View(Transfer(ctx, Store(loaded)))), answer))
    {
      hide Poll, RunCall;
      Others(answer);
      flag := loaded + 1;
    }

    /** `ucp_put_nbi` or `ucp_get_nbi` of the data. */
    method TransferData(ghost ctx: Context, answer: State)
      modifies this`world, this`flag, this`buf, this`net, this`issued, this`dataId
      ensures View(Transfer(ctx, Stage.Fence))
           == Statement(role, Poll(role, old(View(Transfer(ctx, IssueData))), answer))
    {
      hide Poll, RunCall, Statement;
      Others(answer);
      IssueDataStatement(role, View(Transfer(ctx, IssueData)), ctx);
      world := world.(moves := world.moves + [Move(opNumber, role)]);
      dataId, net, issued := Some(issued), net[issued := Copy(epoch, map[], {})], issued + 1;
    }

    /** `ucp_worker_fence`. */
    method FenceWorker(ghost ctx: Context, answer: State)
      modifies this`world, this`flag, this`buf, this`net, this`epoch
      ensures View(Transfer(ctx, IssueFlag))
           == Statement(role, Poll(role, old(View(Transfer(ctx, Stage.Fence))), answer))
    {
      hide Poll, RunCall, Statement;
      Others(answer);
      FenceStatement(role, View(Transfer(ctx, Stage.Fence)), ctx);
      epoch := epoch + 1;
    }

    /** `flag_buffer = operation_number * 2 + 2`, and its put. */
    method PutDone(ghost ctx: Context, answer: State)
      modifies this`world, this`flag, this`buf, this`net, this`issued, this`flagBuffer, this`finId
      ensures View(Transfer(ctx, Stage.Flush))
           == Statement(role, Poll(role, old(View(Transfer(ctx, IssueFlag))), answer))
    {
      hide Poll, RunCall, Statement;
      Others(answer);
      IssueFlagStatement(role, View(Transfer(ctx, IssueFlag)), ctx);
      flagBuffer := opNumber * 2 + 2;
      finId, net, issued := Some(issued), net[issued := Put(epoch, flagBuffer)], issued + 1;
    }

    /** `ucp_ep_flush_nb` after the data. */
    method FlushData(ghost ctx: Context, answer: State)
      modifies this`world, this`flag, this`buf, this`net, this`dataXfer
      ensures View(Resume(ctx)) == Statement(role, Poll(role, old(View(Transfer(ctx, Stage.Flush))), answer))
    {
      hide Poll, RunCall, Resume;
      Others(answer);
      dataXfer := Some(issued);
    }

    /** `flag_buffer = operation_number * 2 + 1`, and its put. */
    method PutReady(ghost ctx: Context, answer: State)
      modifies this`world, this`flag, this`buf, this`net, this`issued, this`flagBuffer, this`annId
      ensures View(AnnounceFlush(ctx)) == Statement(role, Poll(role, old(View(Announce(ctx))), answer))
    {
      hide Poll, RunCall, Statement;
      Others(answer);
      AnnounceStatement(role, View(Announce(ctx)), ctx);
      flagBuffer := opNumber * 2 + 1;
      annId, net, issued := Some(issued), net[issued := Put(epoch, flagBuffer)], issued + 1;
    }

    /** `ucp_ep_flush_nb` after the announcement. */
    method FlushFlag(ghost ctx: Context, answer: State)
      modifies this`world, this`flag, this`buf, this`net, this`flagXfer
      ensures View(Resume(ctx)) == Statement(role, Poll(role, old(View(AnnounceFlush(ctx))), answer))
    {
      hide Poll, RunCall, Resume;
      Others(answer);
      flagXfer := Some(issued);
    }

    /** One test of `wait_for_completion_blocking` on the announcement, if there was one. */
    method TestFlagFlush(answer: State) returns (done: bool)
      modifies this`world, this`flag, this`buf, this`net, this`flagXfer
      ensures View(if done then WaitData else WaitFlag) == Statement(role, Poll(role, old(View(WaitFlag)), answer))
    {
      hide Poll, RunCall;
      Others(answer);
      done := flagXfer == None || forall j | j in net :: flagXfer.value <= j;
      if done {
        flagXfer := None;
      }
    }

    /** The same on the data transfer. */
    method TestDataFlush(answer: State) returns (done: bool)
      modifies this`world, this`flag, this`buf, this`net, this`dataXfer
      ensures View(if done then Spin else WaitData) == Statement(role, Poll(role, old(View(WaitData)), answer))
    {
      hide Poll, RunCall;
      Others(answer);
      done := dataXfer == None || forall j | j in net :: dataXfer.value <= j;
      if done {
        dataXfer := None;
      }
    }

    /** The condition of both spin loops; the sender's Wait returns with the last test. */
    method TestFlag(goal: int, answer: State) returns (done: bool)
      requires goal == if role.Sender? then DoneFlag(opNumber) else ReadyFlag(opNumber)
      modifies this`world, this`flag, this`buf, this`net
      ensures View(if !done then Spin else if role.Sender? then Idle else CrossTest)
           == Statement(role, Poll(role, old(View(Spin)), answer))
    {
      hide Poll, RunCall;
      Others(answer);
      done := flag >= goal;
    }

    /** Both sides had announced; if not, the receiver's Wait returns. */
    method TestCrosstalk(answer: State) returns (crosstalk: bool)
      requires role.Receiver?
      modifies this`world, this`flag, this`buf, this`net, this`log
      ensures View(if crosstalk then Check(InWait) else Idle)
           == Statement(role, Poll(role, old(View(CrossTest)), answer))
    {
      hide Poll, RunCall;
      Others(answer);
      crosstalk := flag == opNumber * 2 + 1;
      if !crosstalk {
        log := log + [buf];
      }
    }

    /** One test for the transfer of the crosstalk case; after the last the receiver's Wait returns. */
    method TestCrossFlush(answer: State) returns (done: bool)
      requires role.Receiver?
      modifies this`world, this`flag, this`buf, this`net, this`dataXfer, this`log
      ensures View(if done then Idle else CrossWait) == Statement(role, Poll(role, old(View(CrossWait)), answer))
    {
      hide Poll, RunCall;
      Others(answer);
      done := dataXfer == None || forall j | j in net :: dataXfer.value <= j;
      if done {
        dataXfer, log := None, log + [buf];
      }
    }

    // The functions of the library.

    /** `flag++` and the data transfer. */
    method IncrementAndTransfer(ghost ctx: Context, script: seq<State>)
      requires |script| >= 3
      modifies this
      ensures RunCall(role, old(View(Transfer(ctx, Load))), script)
           == RunCall(role, View(Transfer(ctx, Stage.Fence)), script[3..])
    {
      hide RunCall, Statement, Poll;
      OneStatement(role, View(Transfer(ctx, Load)), script);
      var loaded := LoadFlag(ctx, script[0]);
      OneStatement(role, View(Transfer(ctx, Store(loaded))), script[1..]);
      StoreFlag(ctx, loaded, script[1..][0]);
      assert script[1..][1..] == script[2..];
      OneStatement(role, View(Transfer(ctx, IssueData)), script[2..]);
      TransferData(ctx, script[2..][0]);
      assert script[2..][1..] == script[3..];
    }

    /** The fence, the closing put and the flush. */
    method CloseTransfer(ghost ctx: Context, script: seq<State>)
      requires |script| >= 3
      modifies this
      ensures RunCall(role, old(View(Transfer(ctx, Stage.Fence))), script)
           == RunCall(role, View(Resume(ctx)), script[3..])
    {
      hide RunCall, Statement, Poll;
      OneStatement(role, View(Transfer(ctx, Stage.Fence)), script);
      FenceWorker(ctx, script[0]);
      OneStatement(role, View(Transfer(ctx, IssueFlag)), script[1..]);
      PutDone(ctx, script[1..][0]);
      assert script[1..][1..] == script[2..];
      OneStatement(role, View(Transfer(ctx, Stage.Flush)), script[2..]);
      FlushData(ctx, script[2..][0]);
      assert script[2..][1..] == script[3..];
    }

    /** The branch that moves the data; six statements. */
    method MoveData(ghost ctx: Context, script: seq<State>) returns (rest: seq<State>)
      requires |script| >= 6
      modifies this
      ensures rest == script[6..]
      ensures RunCall(role, old(View(Transfer(ctx, Load))), script) == RunCall(role, View(Resume(ctx)), rest)
    {
      hide RunCall;
      IncrementAndTransfer(ctx, script);
      CloseTransfer(ctx, script[3..]);
      rest := script[6..];
      assert script[3..][3..] == rest;
    }

    /** `b_send` and `b_recv`, which differ only in the direction of the data; at most seven statements. */
    method Begin(ghost ctx: Context, script: seq<State>) returns (rest: seq<State>)
      requires |script| >= 7
      modifies this
      ensures |rest| < |script|
      ensures RunCall(role, old(View(Check(ctx))), script) == RunCall(role, View(Resume(ctx)), rest)
    {
      hide RunCall, Statement, Poll;
      OneStatement(role, View(Check(ctx)), script);
      var ready := CheckFlag(ctx, script[0]);
      rest := script[1..];
      if ready {
        rest := MoveData(ctx, rest);
      } else {
        OneStatement(role, View(Announce(ctx)), rest);
        PutReady(ctx, rest[0]);
        rest := rest[1..];
        OneStatement(role, View(AnnounceFlush(ctx)), rest);
        FlushFlag(ctx, rest[0]);
        rest := rest[1..];
      }
    }

    /** `operation_number++` and the branch: as a call of the step system. */
    method StartOperation(script: seq<State>) returns (rest: seq<State>)
      requires |script| >= 7
      modifies this
      ensures RunCall(role, Apply(old(View(Idle)), Event.Start(role)), script) == View(Started)
    {
      hide RunCall, Statement, Poll, Apply;
      StartedSide(role, View(Idle));
      opNumber := opNumber + 1;
      annId, dataId, finId := None, None, None;
      log := if role.Sender? then log + [buf] else log;
      assert View(Check(InStart)) == Apply(old(View(Idle)), Event.Start(role));
      rest := Begin(InStart, script);
      Finished(role, View(Started), rest);
    }

    /** Start of an RDMA operation: the flag in the first answer decides which branch is taken. */
    method Start(script: seq<State>) returns (rest: seq<State>)
      requires |script| >= 7
      modifies this
      ensures RunCall(role, Apply(old(View(Idle)), Event.Start(role)), script) == View(Started)
      ensures opNumber == old(opNumber) + 1
      ensures if script[0].Get(role).flag == 2 * opNumber + 1
              then issued == old(issued) + 2 && epoch == old(epoch) + 1 && dataXfer == Some(issued)
                   && dataId == Some(old(issued)) && finId == Some(old(issued) + 1) && annId == None
              else issued == old(issued) + 1 && epoch == old(epoch) && flagXfer == Some(issued)
                   && annId == Some(old(issued)) && dataId == None && finId == None
    {
      hide RunCall, Statement, Poll, Apply;
      StartIssues(role, View(Idle), script);
      rest := StartOperation(script);
    }

    /**
      `progress_recv_request`: acts only when the sender is ready and the receiver has not pulled yet.
      `active` tells whether the request is between Start and Wait.
     */
    method ProgressRecv(ghost active: bool, script: seq<State>)
      requires role.Receiver? && |script| >= 6
      modifies this
      ensures var pc := if active then Started else Idle;
        if old(flag) == ReadyFlag(old(opNumber))
        then RunCall(role, Apply(old(View(pc)), Progress), script) == View(pc)
        else View(pc) == old(View(pc))
    {
      hide RunCall, Statement, Poll;
      if flag == opNumber * 2 + 1 {
        ghost var pc := if active then Started else Idle;
        assert View(Transfer(InProgress(active), Load)) == Apply(View(pc), Progress);
        var rest := MoveData(InProgress(active), script);
        Finished(role, View(pc), rest);
      }
    }

    /** The two flush waits with which both `e_send` and `e_recv` begin. */
    method AwaitHandles(script: seq<State>) returns (done: bool, rest: seq<State>, ghost pc: Pc)
      modifies this
      ensures RunCall(role, old(View(WaitFlag)), script) == RunCall(role, View(pc), rest)
      ensures |rest| <= |script| && if done then pc == Spin else rest == [] && !Outside(pc)
    {
      hide RunCall, Statement, Poll;
      rest, done := script, false;
      while !done && rest != []
        invariant |rest| <= |script|
        invariant RunCall(role, old(View(WaitFlag)), script)
               == RunCall(role, View(if done then WaitData else WaitFlag), rest)
        decreases |rest|
      {
        OneStatement(role, View(WaitFlag), rest);
        done := TestFlagFlush(rest[0]);
        rest := rest[1..];
      }
      if !done {
        pc := WaitFlag;
        return;
      }
      done := false;
      while !done && rest != []
        invariant |rest| <= |script|
        invariant RunCall(role, old(View(WaitFlag)), script)
               == RunCall(role, View(if done then Spin else WaitData), rest)
        decreases |rest|
      {
        OneStatement(role, View(WaitData), rest);
        done := TestDataFlush(rest[0]);
        rest := rest[1..];
      }
      pc := if done then Spin else WaitData;
    }

    /** Spins until the flag is at least `goal`: a bounded busy wait, then one that progresses others. */
    method SpinUntil(goal: int, script: seq<State>) returns (done: bool, rest: seq<State>)
      requires goal == if role.Sender? then DoneFlag(opNumber) else ReadyFlag(opNumber)
      modifies this`world, this`flag, this`buf, this`net
      ensures |rest| <= |script| && (!done ==> rest == [])
      ensures RunCall(role, old(View(Spin)), script)
           == RunCall(role, View(if !done then Spin else if role.Sender? then Idle else CrossTest), rest)
    {
      hide RunCall, Statement, Poll;
      rest, done := script, false;
      var count := 0;
      while !done && count < RDMA_SPIN_WAIT_THRESHOLD && rest != []
        invariant |rest| <= |script|
        invariant RunCall(role, old(View(Spin)), script)
               == RunCall(role, View(if !done then Spin else if role.Sender? then Idle else CrossTest), rest)
        decreases |rest|
      {
        count := count + 1;
        OneStatement(role, View(Spin), rest);
        done := TestFlag(goal, rest[0]);
        rest := rest[1..];
      }
      while !done && rest != []
        invariant |rest| <= |script|
        invariant RunCall(role, old(View(Spin)), script)
               == RunCall(role, View(if !done then Spin else if role.Sender? then Idle else CrossTest), rest)
        decreases |rest|
      {
        OneStatement(role, View(Spin), rest);
        done := TestFlag(goal, rest[0]);
        rest := rest[1..];
      }
    }

    /** `e_send`; it stops short only when the answers run out. */
    method ESend(script: seq<State>) returns (finished: bool, rest: seq<State>, ghost pc: Pc)
      requires role.Sender?
      modifies this
      ensures RunCall(role, Apply(old(View(Started)), CallWait(role)), script) == RunCall(role, View(pc), rest)
      ensures if finished then pc == Idle else rest == [] && !Outside(pc)
    {
      hide RunCall, Statement, Poll;
      assert View(WaitFlag) == Apply(View(Started), CallWait(role));
      finished, rest, pc := AwaitHandles(script);
      if finished {
        finished, rest := SpinUntil(opNumber * 2 + 2, rest);
        pc := if finished then Idle else Spin;
      }
    }

    /**
      The receiver fetches the data in Wait, because both sides had announced, and waits for it. Without
      an answer for each statement of the fetch it stops short before it.
     */
    method ResolveCrosstalk(script: seq<State>) returns (finished: bool, rest: seq<State>, ghost pc: Pc)
      requires role.Receiver?
      modifies this
      ensures RunCall(role, old(View(Check(InWait))), script) == RunCall(role, View(pc), rest)
      ensures if finished then pc == Idle else |rest| < 7 && !Outside(pc)
    {
      hide RunCall, Statement, Poll;
      rest, pc, finished := script, Check(InWait), false;
      if |script| < 7 {
        return;
      }
      rest := Begin(InWait, script);
      while !finished && rest != []
        invariant RunCall(role, old(View(Check(InWait))), script)
               == RunCall(role, View(if finished then Idle else CrossWait), rest)
        decreases |rest|
      {
        OneStatement(role, View(CrossWait), rest);
        finished := TestCrossFlush(rest[0]);
        rest := rest[1..];
      }
      pc := if finished then Idle else CrossWait;
    }

    /** `e_recv`; it stops short only when the answers run out. */
    method ERecv(script: seq<State>) returns (finished: bool, rest: seq<State>, ghost pc: Pc)
      requires role.Receiver?
      modifies this
      ensures RunCall(role, Apply(old(View(Started)), CallWait(role)), script) == RunCall(role, View(pc), rest)
      ensures if finished then pc == Idle else |rest| < 7 && !Outside(pc)
    {
      hide RunCall, Statement, Poll;
      assert View(WaitFlag) == Apply(View(Started), CallWait(role));
      finished, rest, pc := AwaitHandles(script);
      if !finished {
        return;
      }
      finished, rest := SpinUntil(opNumber * 2 + 1, rest);
      pc := if finished then CrossTest else Spin;
      if !finished || rest == [] {
        finished := false;
        return;
      }
      OneStatement(role, View(CrossTest), rest);
      var crosstalk := TestCrosstalk(rest[0]);
      rest := rest[1..];
      pc := Idle;
      if crosstalk {
        finished, rest, pc := ResolveCrosstalk(rest);
      }
    }
  }

  lemma Finished(role: Role, st: State, script: seq<State>)
    requires Outside(st.Get(role).pc)
    ensures RunCall(role, st, script) == st
  {}
}
