/**
  The RDMA phase of one persistent send/receive pair, as a step system.

  Each side runs the statements of `b_send`/`e_send` or `b_recv`/`e_recv`/`progress_recv_request`
  one memory access or one library call at a time. Between any two of them the network may deliver
  what either side has issued, and the user may call Start or Wait or, while the request is inactive,
  rewrite the message buffer.

  What is assumed of the network:
  - a flag put carries the value it had when it was issued;
  - operations are delivered in any order, except that a fence orders everything issued before it
    before everything issued after it (here: a later fence epoch waits for the earlier epochs);
  - a data transfer reads and writes the buffers byte by byte, in any order, and reading a byte and
    writing it are separate steps;
  - a flush completes once everything issued before it on the endpoint has completed;
  - both buffers have the same size.
  A request is not progressed while it is itself being started or waited on.
 */
module RdmaMachine {
  import opened Common

  /** Where a transfer was initiated: by Start, by the progress engine, or by the receiver's Wait. */
  datatype Context = InStart | InProgress(active: bool) | InWait

  /** The statements of the branch that moves the data. `flag++` is a load and a store. */
  datatype Stage = Load | Store(loaded: int) | IssueData | Fence | IssueFlag | Flush

  datatype Pc =
    | Idle                                    // inactive: before Start or after Wait
    | Check(ctx: Context)                     // about to compare the flag with 2n+1
    | Transfer(ctx: Context, stage: Stage)    // moving the data
    | Announce(ctx: Context)                  // about to put 2n+1 on the peer
    | AnnounceFlush(ctx: Context)
    | Started                                 // Start has returned
    | WaitFlag                                // Wait: flush of the announcement
    | WaitData                                // Wait: flush of the data transfer
    | Spin                                    // Wait: until the flag is high enough
    | CrossTest                               // receiver's Wait: was it crosstalk?
    | CrossWait                               // receiver's Wait: until the crosstalk transfer is flushed

  /** An operation in flight. A copy moves sender buffer to receiver buffer, whoever issued it. */
  datatype Flight =
    | Put(epoch: nat, value: int)
    | Copy(epoch: nat, wire: map<nat, byte>, done: set<nat>)

  /**
    One side. `net` holds what it has issued and is still in flight, keyed by issue number.
    A transfer handle holds the number of operations issued before its flush.

    No step depends on the history: `annId`, `dataId` and `finId` are the issue numbers of this
    operation's announcement, data transfer and closing flag put; `log` records, for the sender, the
    buffer at every Start and, for the receiver, the buffer at every return from Wait.
   */
  datatype Side = Side(
    pc: Pc,
    op: nat,
    flag: int,
    buf: Buffer,
    flagXfer: Option<nat>,
    dataXfer: Option<nat>,
    net: map<nat, Flight>,
    issued: nat,
    epoch: nat,
    annId: Option<nat>,
    dataId: Option<nat>,
    finId: Option<nat>,
    log: seq<Buffer>)

  /** History: which side moved the data of which operation. */
  datatype Move = Move(op: nat, mover: Role)

  datatype State = State(s: Side, r: Side, moves: seq<Move>) {
    function Get(role: Role): Side {
      if role.Sender? then s else r
    }

    function Set(role: Role, x: Side): State {
      if role.Sender? then this.(s := x) else this.(r := x)
    }
  }

  /** "Peer is ready in operation n" and "operation n is finished". */
  function ReadyFlag(n: nat): int { 2 * n + 1 }

  function DoneFlag(n: nat): int { 2 * n + 2 }

  function Resume(ctx: Context): Pc {
    match ctx
    case InStart => Started
    case InProgress(active) => if active then Started else Idle
    case InWait => CrossWait
  }

  predicate Deliverable(net: map<nat, Flight>, k: nat) {
    k in net && forall j | j in net :: net[k].epoch <= net[j].epoch
  }

  predicate Flushed(net: map<nat, Flight>, upto: nat) {
    forall j | j in net :: upto <= j
  }

  /** The return from Wait. */
  function Return(role: Role, x: Side): Side {
    x.(pc := Idle, log := if role.Receiver? then x.log + [x.buf] else x.log)
  }

  function AdvanceTransfer(x: Side): Side
    requires x.pc.Transfer?
  {
    match x.pc.stage
    case Load => x.(pc := x.pc.(stage := Store(x.flag)))
    case Store(v) => x.(pc := x.pc.(stage := IssueData), flag := v + 1)
    case IssueData =>
      x.(pc := x.pc.(stage := Fence),
         net := x.net[x.issued := Copy(x.epoch, map[], {})],
         dataId := Some(x.issued),
         issued := x.issued + 1)
    case Fence => x.(pc := x.pc.(stage := IssueFlag), epoch := x.epoch + 1)
    case IssueFlag =>
      x.(pc := x.pc.(stage := Flush),
         net := x.net[x.issued := Put(x.epoch, DoneFlag(x.op))],
         finId := Some(x.issued),
         issued := x.issued + 1)
    case Flush => x.(pc := Resume(x.pc.ctx), dataXfer := Some(x.issued))
  }

  /**
    The next statement of one side. The result is `x` itself where the code is outside the library
    or spins: a busy-wait iteration that finds nothing changes nothing.
   */
  function Advance(role: Role, x: Side): Side {
    match x.pc
    case Idle => x
    case Started => x
    case Check(ctx) =>
      x.(pc := if x.flag == ReadyFlag(x.op) then Transfer(ctx, Load) else Announce(ctx))
    case Transfer(_, _) => AdvanceTransfer(x)
    case Announce(ctx) =>
      x.(pc := AnnounceFlush(ctx),
         net := x.net[x.issued := Put(x.epoch, ReadyFlag(x.op))],
         annId := Some(x.issued),
         issued := x.issued + 1)
    case AnnounceFlush(ctx) => x.(pc := Resume(ctx), flagXfer := Some(x.issued))
    case WaitFlag =>
      if x.flagXfer.Some? && !Flushed(x.net, x.flagXfer.value) then x
      else x.(pc := WaitData, flagXfer := None)
    case WaitData =>
      if x.dataXfer.Some? && !Flushed(x.net, x.dataXfer.value) then x
      else x.(pc := Spin, dataXfer := None)
    case Spin =>
      if role.Sender? then
        if x.flag < DoneFlag(x.op) then x else Return(role, x)
      else
        if x.flag < ReadyFlag(x.op) then x else x.(pc := CrossTest)
    case CrossTest =>
      if x.flag == ReadyFlag(x.op) then x.(pc := Check(InWait)) else Return(role, x)
    case CrossWait =>
      if x.dataXfer.Some? && !Flushed(x.net, x.dataXfer.value) then x
      else Return(role, x.(dataXfer := None))
  }

  /** Start on an inactive request. */
  function StartOp(role: Role, x: Side): Side {
    x.(pc := Check(InStart), op := x.op + 1, annId := None, dataId := None, finId := None,
       log := if role.Sender? then x.log + [x.buf] else x.log)
  }

  datatype Event =
    | Start(role: Role)
    | CallWait(role: Role)
    | Write(role: Role, data: Buffer)            // the user rewrites an inactive buffer
    | Run(role: Role)                            // one statement
    | Progress                                   // progress_recv_request finds the sender ready
    | Deliver(role: Role, k: nat)                // a flag put issued by `role` lands
    | Fetch(role: Role, k: nat, i: nat)          // a copy reads byte i of the sender's buffer
    | StoreByte(role: Role, k: nat, i: nat)      // ... and writes it to the receiver's buffer
    | Retire(role: Role, k: nat)                 // a copy that has moved all bytes completes

  predicate Enabled(st: State, e: Event) {
    match e
    case Start(role) => st.Get(role).pc.Idle?
    case CallWait(role) => st.Get(role).pc.Started?
    case Write(role, data) => st.Get(role).pc.Idle? && |data| == |st.Get(role).buf|
    case Run(role) => Advance(role, st.Get(role)) != st.Get(role)
    case Progress => (st.r.pc.Idle? || st.r.pc.Started?) && st.r.flag == ReadyFlag(st.r.op)
    case Deliver(role, k) => var net := st.Get(role).net; Deliverable(net, k) && net[k].Put?
    case Fetch(role, k, i) =>
      var net := st.Get(role).net;
      Deliverable(net, k) && net[k].Copy? && i < |st.s.buf| && i !in net[k].wire
    case StoreByte(role, k, i) =>
      var net := st.Get(role).net;
      Deliverable(net, k) && net[k].Copy? && i < |st.r.buf| && i in net[k].wire && i !in net[k].done
    case Retire(role, k) =>
      var net := st.Get(role).net;
      Deliverable(net, k) && net[k].Copy? && forall i: nat | i < |st.s.buf| :: i in net[k].done
  }

  function Apply(st: State, e: Event): State
    requires Enabled(st, e)
  {
    match e
    case Start(role) => st.Set(role, StartOp(role, st.Get(role)))
    case CallWait(role) => st.Set(role, st.Get(role).(pc := WaitFlag))
    case Write(role, data) => st.Set(role, st.Get(role).(buf := data))
    case Run(role) =>
      var x := st.Get(role);
      var st' := st.Set(role, Advance(role, x));
      if x.pc.Transfer? && x.pc.stage.IssueData? then st'.(moves := st.moves + [Move(x.op, role)]) else st'
    case Progress => st.(r := st.r.(pc := Transfer(InProgress(st.r.pc.Started?), Load)))
    case Deliver(role, k) =>
      var x := st.Get(role);
      var y := st.Get(role.Peer());
      st.Set(role, x.(net := x.net - {k})).Set(role.Peer(), y.(flag := x.net[k].value))
    case Fetch(role, k, i) =>
      var x := st.Get(role);
      var c := x.net[k];
      st.Set(role, x.(net := x.net[k := c.(wire := c.wire[i := st.s.buf[i]])]))
    case StoreByte(role, k, i) =>
      var x := st.Get(role);
      var c := x.net[k];
      var st' := st.Set(role, x.(net := x.net[k := c.(done := c.done + {i})]));
      st'.(r := st'.r.(buf := st.r.buf[i := c.wire[i]]))
    case Retire(role, k) =>
      var x := st.Get(role);
      st.Set(role, x.(net := x.net - {k}))
  }

  /** Both sides have completed operation 1 by message; no flag has ever been put. */
  predicate Init(st: State) {
    && st.moves == []
    && |st.s.buf| == |st.r.buf|
    && InitSide(st.s) && InitSide(st.r)
  }

  predicate InitSide(x: Side) {
    x == Side(Idle, 1, 0, x.buf, None, None, map[], 0, 0, None, None, None, [])
  }

  /** The events of `es` can happen in this order from `st`. */
  predicate Runs(st: State, es: seq<Event>)
    decreases |es|
  {
    es == [] || (Enabled(st, es[0]) && Runs(Apply(st, es[0]), es[1..]))
  }

  function Exec(st: State, es: seq<Event>): State
    requires Runs(st, es)
    decreases |es|
  {
    if es == [] then st else Exec(Apply(st, es[0]), es[1..])
  }

  ghost predicate Reachable(st: State) {
    exists st0, es :: Init(st0) && Runs(st0, es) && st == Exec(st0, es)
  }
}
