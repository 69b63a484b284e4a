/**
  Start and Wait while a request searches for its connection, and in fallback mode, as the library
  implements them: fields updated in place, with loops that poll MPI. Each method is shown to do what
  the statements of `ConnectionMachine.RunStep` do one after the other, whatever MPI, the network and
  the peer do before each statement: that is an input, a script of answers.
 */
module ConnectionRequest {
  import opened Common
  import opened ConnectionMachine
  import I = ConnectionInvariant

  // ---- specification in terms of the step system ----

  /** The state in which a statement of `role` is executed: its own fields, all else from the answer. */
  function Poll(role: Role, st: State, answer: State): State {
    if role.Sender? then answer.(s := st.s.(hs := answer.s.hs), sent := st.sent)
    else answer.(r := st.r.(hs := answer.r.hs, buf := answer.r.buf), posted := st.posted, early := st.early)
  }

  function Statement(role: Role, st: State): State {
    if CanRun(st, role) then RunStep(st, role) else st
  }

  predicate Outside(pc: Pc) {
    pc.Absent? || pc.Idle? || pc.Started?
  }

  /** A call that has the processor: it ends outside the library or when the answers run out. */
  function RunCall(role: Role, st: State, script: seq<State>): State
    decreases |script|
  {
    if Outside(st.Get(role).pc) || script == [] then st
    else RunCall(role, Statement(role, Poll(role, st, script[0])), script[1..])
  }

  lemma OneStatement(role: Role, st: State, script: seq<State>)
    requires script != [] && !Outside(st.Get(role).pc)
    ensures RunCall(role, st, script) == RunCall(role, Statement(role, Poll(role, st, script[0])), script[1..])
  {}

  lemma AfterStart(role: Role)
    ensures AfterProgress(role, AtStart) == StartPost
  {}

  lemma PostCheckStatement(role: Role, st: State, site: Site)
    requires st.Get(role).pc == PostCheck(site)
    ensures var x := st.Get(role);
      var st' := st.Set(role, x.(pc := AfterProgress(role, site)));
      Statement(role, st) ==
        if x.addr && role.Receiver? && x.kind.Searching? && x.backup == None && x.op == 1 then st'.PostReceive()
        else st'
  {}

  /** Every answer is one that events of the others can bring about. */
  ghost predicate Justified(role: Role, st: State, script: seq<State>)
    decreases |script|
  {
    if Outside(st.Get(role).pc) || script == [] then true
    else
      var st' := Poll(role, st, script[0]);
      && (exists es :: Runs(st, es) && Exec(st, es) == st')
      && Justified(role, Statement(role, st'), script[1..])
  }

  lemma {:induction false} ReachableExec(st: State, es: seq<Event>)
    requires Reachable(st) && Runs(st, es)
    ensures Reachable(Exec(st, es))
    decreases |es|
  {
    if es != [] {
      hide Reachable;
      I.ReachableStep(st, es[0]);
      ReachableExec(Apply(st, es[0]), es[1..]);
    }
  }

  /** Under such answers a call is a run of the step system, so all that is proved of that holds here. */
  lemma {:induction false} CallIsRun(role: Role, st: State, script: seq<State>)
    requires Reachable(st) && Justified(role, st, script)
    ensures Reachable(RunCall(role, st, script))
    decreases |script|
  {
    if !Outside(st.Get(role).pc) && script != [] {
      var st' := Poll(role, st, script[0]);
      var es :| Runs(st, es) && Exec(st, es) == st';
      hide Reachable;
      ReachableExec(st, es);
      if CanRun(st', role) {
        I.ReachableStep(st', Run(role));
      }
      CallIsRun(role, Statement(role, st'), script[1..]);
    }
  }

  function Uninitialised(role: Role, buf: Buffer, world: State): State {
    world.Set(role, Side(Absent, 0, Searching, false, Unsent, None, false, buf, []))
  }

  // ---- the code ----

  class Request {
    const role: Role
    var kind: Kind
    var op: nat
    var addr: bool
    var backup: Option<nat>
    var buf: Buffer
    /** All that is not a field of the request: MPI, the network and the peer. */
    var world: State
    var seen: bool
    ghost var log: seq<Buffer>

    ghost function View(pc: Pc): (st: State)
      reads this
      ensures st.Get(role).pc == pc
    {
      world.Set(role, Side(pc, op, kind, addr, world.Get(role).hs, backup, seen, buf, log))
    }

    /** `init_request`: the fields are cleared and the own handshake is sent. */
    constructor (role: Role, buf: Buffer, world: State)
      ensures this.role == role
      ensures View(Idle) == Apply(Uninitialised(role, buf, world), Init(role))
    {
      this.role, this.buf := role, buf;
      kind, op, addr, backup, seen, log := Searching, 0, false, None, false, [];
      this.world := world.Set(role, world.Get(role).(hs := Travelling));
    }

    /** What happens outside before the next statement. */
    method Others(answer: State)
      modifies this`world, this`buf
      ensures forall pc :: View(pc) == Poll(role, old(View(pc)), answer)
    {
      if role.Sender? {
        world := answer.(sent := world.sent);
      } else {
        world := answer.(posted := world.posted, early := world.early);
        buf := answer.r.buf;
      }
    }

    /** MPI_Irecv of the payload. */
    method PostReceive()
      requires role.Receiver?
      modifies this`world, this`backup
      ensures forall pc :: View(pc) == old(View(pc)).PostReceive()
    {
      backup := Some(world.posted);
      world := world.(posted := world.posted + 1);
    }

    /** MPI_Issend or MPI_Isend of the payload. */
    method PostSend()
      requires role.Sender?
      modifies this`world, this`backup
      ensures forall pc :: View(pc) == old(View(pc)).(
          s := old(View(pc)).s.(backup := Some(|old(View(pc)).sent|)), sent := old(View(pc)).sent + [buf])
    {
      backup := Some(|world.sent|);
      world := world.(sent := world.sent + [buf]);
    }

    // Single statements, each with what happens outside before it.

    /** MPI_Iprobe for the peer's handshake, unless its address is known. */
    method ProbeHandshake(site: Site, answer: State) returns (found: bool)
      modifies this`world, this`buf
      ensures View(if found then Pc.ReceiveInfo(site) else PostCheck(site))
           == Statement(role, Poll(role, old(View(Probe(site))), answer))
    {
      hide Poll, RunCall;
      Others(answer);
      found := !addr && world.Get(role.Peer()).hs.Visible?;
    }

    /** MPI_Recv of the handshake, which blocks while there is none. */
    method ReceiveHandshake(site: Site, answer: State) returns (received: bool)
      modifies this`world, this`buf, this`addr
      ensures View(if received then AwaitOwn(site) else Pc.ReceiveInfo(site))
           == Statement(role, Poll(role, old(View(Pc.ReceiveInfo(site))), answer))
    {
      hide Poll, RunCall;
      Others(answer);
      received := world.Get(role.Peer()).hs.Visible?;
      if received {
        addr := true;
        world := world.Set(role.Peer(), world.Get(role.Peer()).(hs := Matched));
      }
    }

    /** MPI_Test of the own handshake. */
    method TestHandshake(site: Site, answer: State) returns (matched: bool)
      modifies this`world, this`buf
      ensures View(if matched then PostCheck(site) else AwaitOwn(site))
           == Statement(role, Poll(role, old(View(AwaitOwn(site))), answer))
    {
      hide Poll, RunCall;
      Others(answer);
      matched := world.Get(role).hs.Matched?;
    }

    /** An active receiver that has a connection posts its receive, if not done already. */
    method PostIfConnected(site: Site, answer: State)
      modifies this`world, this`buf, this`backup
      ensures View(AfterProgress(role, site)) == Statement(role, Poll(role, old(View(PostCheck(site))), answer))
    {
      hide Poll, RunCall, Statement, AfterProgress;
      Others(answer);
      PostCheckStatement(role, View(PostCheck(site)), site);
      if addr && role.Receiver? && kind.Searching? && backup == None && op == 1 {
        PostReceive();
      }
    }

    /** MPI_Issend of the payload, always posted by the first Start. */
    method SendPayload(answer: State)
      requires role.Sender?
      modifies this`world, this`buf, this`backup
      ensures View(Started) == Statement(role, Poll(role, old(View(StartPost)), answer))
    {
      hide Poll, RunCall;
      Others(answer);
      PostSend();
    }

    /** The receiver's first Start posts its receive if there is a connection, or if the payload is there. */
    method PostOrProbe(answer: State)
      requires role.Receiver?
      modifies this`world, this`buf, this`backup
      ensures View(Started) == Statement(role, Poll(role, old(View(StartPost)), answer))
    {
      hide Poll, RunCall;
      Others(answer);
      if !addr {
        if world.posted < world.arrived {
          PostReceive();
          world := world.(early := true);
        }
      } else if backup == None {
        PostReceive();
      }
    }

    /** The sender's Wait takes note of a connection. */
    method TakeNote(answer: State)
      requires role.Sender?
      modifies this`world, this`buf, this`kind
      ensures View(TestSend) == Statement(role, Poll(role, old(View(NoteMode)), answer))
    {
      hide Poll, RunCall;
      Others(answer);
      if addr {
        kind := Rdma;
      }
    }

    /** MPI_Test of the payload send. */
    method TestPayloadSend(answer: State) returns (completed: bool)
      requires role.Sender?
      modifies this`world, this`buf, this`backup
      ensures View(if completed then DecideSend else Probe(AtWait))
           == Statement(role, Poll(role, old(View(TestSend)), answer))
    {
      hide Poll, RunCall;
      Others(answer);
      completed := backup == None || backup.value > 0 || world.matched > 0;
      if completed {
        backup := None;
      }
    }

    /** Without a connection by now, the sender falls back; Wait returns. */
    method ChooseSend(answer: State)
      requires role.Sender?
      modifies this`world, this`buf, this`kind, this`backup
      ensures View(Idle) == Statement(role, Poll(role, old(View(DecideSend)), answer))
    {
      hide Poll, RunCall;
      Others(answer);
      if !kind.Rdma? {
        kind := Fallback;
      }
      backup := None;
    }

    /** The condition of the receiver's Wait loop. */
    method TestLoop(answer: State) returns (again: bool)
      requires role.Receiver?
      modifies this`world, this`buf
      ensures View(if again then LoopProbe else PostIfNeeded)
           == Statement(role, Poll(role, old(View(LoopTest)), answer))
    {
      hide Poll, RunCall;
      Others(answer);
      again := !addr && !seen;
    }

    /** MPI_Iprobe for the payload. */
    method ProbePayload(answer: State)
      requires role.Receiver?
      modifies this`world, this`buf, this`seen
      ensures View(Probe(AtWait)) == Statement(role, Poll(role, old(View(LoopProbe)), answer))
    {
      hide Poll, RunCall;
      Others(answer);
      seen := world.posted < world.arrived;
    }

    method PostIfMissing(answer: State)
      requires role.Receiver?
      modifies this`world, this`buf, this`backup
      ensures View(DecideRecv) == Statement(role, Poll(role, old(View(PostIfNeeded)), answer))
    {
      hide Poll, RunCall;
      Others(answer);
      if backup == None {
        PostReceive();
      }
    }

    method ChooseRecv(answer: State)
      requires role.Receiver?
      modifies this`world, this`buf, this`kind
      ensures View(TestRecv) == Statement(role, Poll(role, old(View(DecideRecv)), answer))
    {
      hide Poll, RunCall;
      Others(answer);
      kind := if addr then Rdma else Fallback;
    }

    /** MPI_Test of the payload receive; when it has completed, Wait returns. */
    method TestPayloadReceive(answer: State) returns (completed: bool)
      requires role.Receiver?
      modifies this`world, this`buf, this`backup, this`log
      ensures View(if completed then Idle else TestRecv) == Statement(role, Poll(role, old(View(TestRecv)), answer))
    {
      hide Poll, RunCall;
      Others(answer);
      completed := backup == None || world.landed > backup.value;
      if completed {
        backup, log := None, log + [buf];
      }
    }

    /** MPI_Wait in fallback mode, which blocks until the request has completed. */
    method AwaitBackup(answer: State) returns (completed: bool)
      modifies this`world, this`buf, this`backup, this`log
      ensures View(if completed then Idle else MpiWait) == Statement(role, Poll(role, old(View(MpiWait)), answer))
    {
      hide Poll, RunCall;
      Others(answer);
      completed := backup == None ||
        if role.Sender? then backup.value > 0 || world.matched > 0 else world.landed > backup.value;
      if completed {
        backup := None;
        log := if role.Receiver? then log + [buf] else log;
      }
    }

    // The functions of the library.

    /** `receive_rdma_info`. */
    method ReceiveInfo(site: Site, script: seq<State>) returns (done: bool, rest: seq<State>, ghost pc: Pc)
      modifies this
      ensures RunCall(role, old(View(Pc.ReceiveInfo(site))), script) == RunCall(role, View(pc), rest)
      ensures |rest| <= |script| && (if done then pc == PostCheck(site) else rest == [] && !Outside(pc))
    {
      hide RunCall, Statement, Poll;
      rest, done := script, false;
      while rest != [] && !done
        invariant |rest| <= |script|
        invariant RunCall(role, old(View(Pc.ReceiveInfo(site))), script)
               == RunCall(role, View(if done then AwaitOwn(site) else Pc.ReceiveInfo(site)), rest)
        decreases |rest|, !done
      {
        OneStatement(role, View(Pc.ReceiveInfo(site)), rest);
        done := ReceiveHandshake(site, rest[0]);
        rest := rest[1..];
      }
      if !done {
        pc := Pc.ReceiveInfo(site);
        return;
      }
      done := false;
      while rest != [] && !done
        invariant |rest| <= |script|
        invariant RunCall(role, old(View(Pc.ReceiveInfo(site))), script)
               == RunCall(role, View(if done then PostCheck(site) else AwaitOwn(site)), rest)
        decreases |rest|, !done
      {
        OneStatement(role, View(AwaitOwn(site)), rest);
        done := TestHandshake(site, rest[0]);
        rest := rest[1..];
      }
      pc := if done then PostCheck(site) else AwaitOwn(site);
    }

    /** `progress_request_waiting_for_rdma`. */
    method ProgressWaiting(site: Site, script: seq<State>) returns (done: bool, rest: seq<State>, ghost pc: Pc)
      modifies this
      ensures RunCall(role, old(View(Probe(site))), script) == RunCall(role, View(pc), rest)
      ensures |rest| <= |script|
      ensures if done then pc == AfterProgress(role, site) && |rest| < |script| else rest == [] && !Outside(pc)
    {
      hide RunCall, Statement, Poll;
      rest, pc, done := script, Probe(site), false;
      if rest == [] {
        return;
      }
      OneStatement(role, View(pc), rest);
      var found := ProbeHandshake(site, rest[0]);
      rest := rest[1..];
      pc := PostCheck(site);
      if found {
        done, rest, pc := ReceiveInfo(site, rest);
        if !done {
          return;
        }
      }
      done := rest != [];
      if done {
        OneStatement(role, View(pc), rest);
        PostIfConnected(site, rest[0]);
        rest := rest[1..];
        pc := AfterProgress(role, site);
      }
    }

    /** Start in fallback mode. */
    method StartFallback()
      requires kind.Fallback?
      modifies this`op, this`log, this`world, this`backup
      ensures View(Started) == Apply(old(View(Idle)), Event.Start(role))
    {
      op := op + 1;
      if role.Sender? {
        log := log + [buf];
        PostSend();
      } else {
        PostReceive();
      }
    }

    /** `start_send_when_searching_for_connection` and `start_recv_when_searching_for_connection`. */
    method StartSearching(script: seq<State>) returns (done: bool, rest: seq<State>, ghost pc: Pc)
      requires kind.Searching?
      modifies this
      ensures RunCall(role, Apply(old(View(Idle)), Event.Start(role)), script) == RunCall(role, View(pc), rest)
      ensures if done then pc == Started else rest == [] && !Outside(pc)
    {
      hide RunCall, Statement, Poll, AfterProgress;
      op := op + 1;
      log := if role.Sender? then log + [buf] else log;
      assert View(Probe(AtStart)) == Apply(old(View(Idle)), Event.Start(role));
      hide Apply, StartStep;
      done, rest, pc := ProgressWaiting(AtStart, script);
      assert done ==> pc == StartPost by {
        AfterStart(role);
      }
      done := done && rest != [];
      if done {
        OneStatement(role, View(pc), rest);
        if role.Sender? {
          SendPayload(rest[0]);
        } else {
          PostOrProbe(rest[0]);
        }
        rest, pc := rest[1..], Started;
      }
    }

    /** MPIOPT_Start_send_internal and MPIOPT_Start_recv_internal, unless in RDMA mode. */
    method Start(script: seq<State>) returns (done: bool, rest: seq<State>, ghost pc: Pc)
      requires !kind.Rdma?
      modifies this
      ensures RunCall(role, Apply(old(View(Idle)), Event.Start(role)), script) == RunCall(role, View(pc), rest)
      ensures if done then pc == Started else rest == [] && !Outside(pc)
    {
      hide RunCall, Apply;
      if kind.Searching? {
        done, rest, pc := StartSearching(script);
      } else {
        StartFallback();
        done, rest, pc := true, script, Started;
      }
    }

    /** Wait is called; its local `flag` is 0. */
    method EnterWait(ghost pc: Pc)
      requires !kind.Rdma?
      requires pc == if kind.Fallback? then MpiWait else if role.Sender? then Probe(AtWait) else LoopTest
      modifies this`seen
      ensures View(pc) == Apply(old(View(Started)), CallWait(role))
    {
      seen := false;
    }

    /** One pass of the sender's Wait loop. */
    method TestOnce(script: seq<State>) returns (done: bool, flag: bool, rest: seq<State>, ghost pc: Pc)
      requires role.Sender?
      modifies this
      ensures RunCall(role, old(View(Probe(AtWait))), script) == RunCall(role, View(pc), rest)
      ensures if done then pc == (if flag then DecideSend else Probe(AtWait)) && |rest| < |script|
              else rest == [] && !Outside(pc)
    {
      hide RunCall, Statement, Poll;
      flag := false;
      done, rest, pc := ProgressWaiting(AtWait, script);
      if !done || rest == [] {
        done := false;
        return;
      }
      OneStatement(role, View(pc), rest);
      TakeNote(rest[0]);
      rest, pc := rest[1..], TestSend;
      done := rest != [];
      if done {
        OneStatement(role, View(pc), rest);
        flag := TestPayloadSend(rest[0]);
        rest, pc := rest[1..], if flag then DecideSend else Probe(AtWait);
      }
    }

    /** `wait_send_when_searching_for_connection`. */
    method WaitSend(script: seq<State>) returns (done: bool, rest: seq<State>, ghost pc: Pc)
      requires role.Sender? && kind.Searching?
      modifies this
      ensures RunCall(role, Apply(old(View(Started)), CallWait(role)), script) == RunCall(role, View(pc), rest)
      ensures if done then pc == Idle else rest == [] && !Outside(pc)
    {
      hide RunCall, Statement, Poll, AfterProgress, Apply;
      EnterWait(Probe(AtWait));
      rest, pc, done := script, Probe(AtWait), false;
      var flag := false;
      while !flag
        invariant pc == if flag then DecideSend else Probe(AtWait)
        invariant RunCall(role, Apply(old(View(Started)), CallWait(role)), script) == RunCall(role, View(pc), rest)
        decreases |rest|, !flag
      {
        var more;
        more, flag, rest, pc := TestOnce(rest);
        if !more {
          return;
        }
      }
      done := rest != [];
      if done {
        OneStatement(role, View(pc), rest);
        ChooseSend(rest[0]);
        rest, pc := rest[1..], Idle;
      }
    }

    /** One pass of the receiver's Wait loop, after its condition. */
    method SearchOnce(script: seq<State>) returns (done: bool, rest: seq<State>, ghost pc: Pc)
      requires role.Receiver?
      modifies this
      ensures RunCall(role, old(View(LoopProbe)), script) == RunCall(role, View(pc), rest)
      ensures if done then pc == LoopTest && |rest| < |script| else rest == [] && !Outside(pc)
    {
      hide RunCall, Statement, Poll;
      if script == [] {
        return false, [], LoopProbe;
      }
      OneStatement(role, View(LoopProbe), script);
      ProbePayload(script[0]);
      done, rest, pc := ProgressWaiting(AtWait, script[1..]);
    }

    /** The loop of the receiver's Wait: until the handshake or the payload is there. */
    method SearchLoop(script: seq<State>) returns (done: bool, rest: seq<State>, ghost pc: Pc)
      requires role.Receiver?
      modifies this
      ensures RunCall(role, old(View(LoopTest)), script) == RunCall(role, View(pc), rest)
      ensures if done then pc == PostIfNeeded else rest == [] && !Outside(pc)
    {
      hide RunCall, Statement, Poll;
      rest, pc, done := script, LoopTest, false;
      var again := true;
      while again && rest != []
        invariant pc == if again then LoopTest else PostIfNeeded
        invariant RunCall(role, old(View(LoopTest)), script) == RunCall(role, View(pc), rest)
        decreases |rest|
      {
        OneStatement(role, View(pc), rest);
        again := TestLoop(rest[0]);
        rest, pc := rest[1..], if again then LoopProbe else PostIfNeeded;
        if again {
          var more;
          more, rest, pc := SearchOnce(rest);
          if !more {
            return;
          }
        }
      }
      done := !again;
    }

    /** `wait_recv_when_searching_for_connection`. */
    method WaitRecv(script: seq<State>) returns (done: bool, rest: seq<State>, ghost pc: Pc)
      requires role.Receiver? && kind.Searching?
      modifies this
      ensures RunCall(role, Apply(old(View(Started)), CallWait(role)), script) == RunCall(role, View(pc), rest)
      ensures if done then pc == Idle else rest == [] && !Outside(pc)
    {
      hide RunCall, Statement, Poll, AfterProgress, Apply;
      EnterWait(LoopTest);
      done, rest, pc := SearchLoop(script);
      if done {
        done, rest, pc := FinishRecv(rest);
      }
    }

    /** The rest of the receiver's Wait: post the receive if needed, choose the mode, await the payload. */
    method FinishRecv(script: seq<State>) returns (done: bool, rest: seq<State>, ghost pc: Pc)
      requires role.Receiver?
      modifies this
      ensures RunCall(role, old(View(PostIfNeeded)), script) == RunCall(role, View(pc), rest)
      ensures if done then pc == Idle else rest == [] && !Outside(pc)
    {
      hide RunCall, Statement, Poll;
      rest, pc, done := script, PostIfNeeded, false;
      if rest == [] {
        return;
      }
      OneStatement(role, View(pc), rest);
      PostIfMissing(rest[0]);
      rest, pc := rest[1..], DecideRecv;
      if rest == [] {
        return;
      }
      OneStatement(role, View(pc), rest);
      ChooseRecv(rest[0]);
      rest, pc := rest[1..], TestRecv;
      while !done && rest != []
        invariant pc == if done then Idle else TestRecv
        invariant RunCall(role, old(View(PostIfNeeded)), script) == RunCall(role, View(pc), rest)
        decreases |rest|
      {
        OneStatement(role, View(pc), rest);
        done := TestPayloadReceive(rest[0]);
        rest, pc := rest[1..], if done then Idle else TestRecv;
      }
    }

    /** Wait in fallback mode. */
    method WaitFallback(script: seq<State>) returns (done: bool, rest: seq<State>, ghost pc: Pc)
      requires kind.Fallback?
      modifies this
      ensures RunCall(role, Apply(old(View(Started)), CallWait(role)), script) == RunCall(role, View(pc), rest)
      ensures if done then pc == Idle else rest == [] && !Outside(pc)
    {
      hide RunCall, Statement, Poll, AfterProgress, Apply;
      EnterWait(MpiWait);
      rest, pc, done := script, MpiWait, false;
      while !done && rest != []
        invariant pc == if done then Idle else MpiWait
        invariant RunCall(role, Apply(old(View(Started)), CallWait(role)), script) == RunCall(role, View(pc), rest)
        decreases |rest|
      {
        OneStatement(role, View(pc), rest);
        done := AwaitBackup(rest[0]);
        rest, pc := rest[1..], if done then Idle else MpiWait;
      }
    }
  }
}
