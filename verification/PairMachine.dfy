/**
  One persistent pair from init onwards: operation 1 by message, later operations by RDMA or, after a
  fallback, by message. The two step systems run side by side and share the two message buffers; a
  side enters the RDMA system when its operation 1 has returned in RDMA mode, which the two sides do
  at different times, and remote flag puts may reach a side that is not there yet.
 */
module PairMachine {
  import opened Common
  import C = ConnectionMachine
  import D = RdmaMachine
  import CI = ConnectionInvariant
  import DI = RdmaInvariant

  /** `sent` and `received` are history: the sender's buffer at each Start, the receiver's at each return from Wait. */
  datatype State = State(c: C.State, d: D.State, sent: seq<Buffer>, received: seq<Buffer>)

  datatype Event =
    | Message(m: C.Event)
    | Remote(e: D.Event)
    | UserWrite(role: Role, data: Buffer)

  /** Operation 1 has returned in RDMA mode. */
  predicate Ready(c: C.State, role: Role) {
    c.Get(role).kind.Rdma? && c.Get(role).pc.Idle?
  }

  predicate Enabled(st: State, e: Event) {
    match e
    case Message(m) => C.Enabled(st.c, m) && !m.Write?
    case Remote(e) =>
      && D.Enabled(st.d, e)
      && (match e
          case Start(role) => Ready(st.c, role)
          case CallWait(role) => Ready(st.c, role)
          case Run(role) => Ready(st.c, role)
          case Progress => Ready(st.c, Receiver)
          case Write(_, _) => false
          case _ => true)
    case UserWrite(role, data) =>
      st.c.Get(role).pc.Idle? && st.d.Get(role).pc.Idle? && |data| == |st.d.Get(role).buf|
  }

  function WithBuffersC(c: C.State, sbuf: Buffer, rbuf: Buffer): C.State {
    c.(s := c.s.(buf := sbuf), r := c.r.(buf := rbuf))
  }

  function WithBuffersD(d: D.State, sbuf: Buffer, rbuf: Buffer): D.State {
    d.(s := d.s.(buf := sbuf), r := d.r.(buf := rbuf))
  }

  function Apply(st: State, e: Event): State
    requires Enabled(st, e)
  {
    match e
    case Message(m) =>
      var c' := C.Apply(st.c, m);
      var back := m == C.Run(Receiver) && (st.c.r.pc.TestRecv? || st.c.r.pc.MpiWait?) && c'.r.pc.Idle?;
      State(c', WithBuffersD(st.d, c'.s.buf, c'.r.buf),
            if m == C.Start(Sender) then st.sent + [st.c.s.buf] else st.sent,
            if back then st.received + [c'.r.buf] else st.received)
    case Remote(e) =>
      var d' := D.Apply(st.d, e);
      var back := e == D.Run(Receiver) && (st.d.r.pc.CrossTest? || st.d.r.pc.CrossWait?) && d'.r.pc.Idle?;
      State(WithBuffersC(st.c, d'.s.buf, d'.r.buf), d',
            if e == D.Start(Sender) then st.sent + [st.d.s.buf] else st.sent,
            if back then st.received + [d'.r.buf] else st.received)
    case UserWrite(role, data) =>
      st.(c := st.c.Set(role, st.c.Get(role).(buf := data)), d := st.d.Set(role, st.d.Get(role).(buf := data)))
  }

  predicate Initial(st: State) {
    && C.Initial(st.c) && D.Init(st.d)
    && st.c.s.buf == st.d.s.buf && st.c.r.buf == st.d.r.buf
    && st.sent == [] && st.received == []
  }

  predicate Runs(st: State, es: seq<Event>)
    decreases |es|
  {
    es == [] || (Enabled(st, es[0]) && Runs(Apply(st, es[0]), es[1..]))
  }

  function Exec(st: State, es: seq<Event>): State
    requires Runs(st, es)
    decreases |es|
  {
    if es == [] then st else Exec(Apply(st, es[0]), es[1..])
  }

  ghost predicate Reachable(st: State) {
    exists st0, es :: Initial(st0) && Runs(st0, es) && st == Exec(st0, es)
  }

  // ---- the invariant ----

  /** The RDMA system has not moved a side whose operation 1 has not returned. */
  predicate Handover(st: State, role: Role) {
    !Ready(st.c, role) ==> st.d.Get(role).pc.Idle? && st.d.Get(role).op == 1
  }

  predicate Links(st: State) {
    && st.c.s.buf == st.d.s.buf && st.c.r.buf == st.d.r.buf
    && Handover(st, Sender) && Handover(st, Receiver)
    && st.sent == st.c.s.log + st.d.s.log
    && st.received == st.c.r.log + st.d.r.log
  }

  predicate Inv(st: State) {
    CI.Inv(st.c) && DI.Inv(st.d) && Links(st)
  }

  lemma InitInv(st: State)
    requires Initial(st)
    ensures Inv(st)
  {
    CI.InitInv(st.c);
    DI.InitInv(st.d);
  }

  /** A message that lands finds the receiver inside an operation that is not an RDMA operation. */
  lemma LandingReceiver(c: C.State)
    requires CI.Inv(c) && C.Enabled(c, C.Land)
    ensures !Ready(c, Receiver) && |c.sent[c.landed]| == |c.r.buf|
  {
    CI.LandedLength(c);
  }

  /** A copy in flight finds the receiver inside an RDMA operation. */
  lemma CopyingReceiver(d: D.State, role: Role, k: nat)
    requires DI.Inv(d) && k in d.Get(role).net && d.Get(role).net[k].Copy?
    ensures d.r.op >= 2
  {
    var x, y := d.Get(role), d.Get(role.Peer());
    assert DI.PairOk(role, x, y, d.moves);
    assert DI.DataOk(role, x, d);
  }

  /** To the RDMA system, a step of the message system is at most a user write. */
  lemma MessageKeepsRdma(st: State, m: C.Event)
    requires Inv(st) && Enabled(st, Message(m))
    ensures DI.Inv(Apply(st, Message(m)).d)
  {
    hide DI.Inv, CI.Inv, C.RunStep, C.StartStep;
    if m.Land? {
      assert CI.Inv(st.c) && DI.Inv(st.d);
      LandingReceiver(st.c);
      DI.StepInv(st.d, D.Write(Receiver, st.c.sent[st.c.landed]));
    } else {
      MessageKeepsBuffers(st.c, m);
    }
  }

  lemma RunKeepsBuffers(c: C.State, role: Role)
    requires C.CanRun(c, role)
    ensures C.RunStep(c, role).s.buf == c.s.buf && C.RunStep(c, role).r.buf == c.r.buf
  {}

  lemma MessageKeepsBuffers(c: C.State, m: C.Event)
    requires C.Enabled(c, m) && !m.Write? && !m.Land?
    ensures C.Apply(c, m).s.buf == c.s.buf && C.Apply(c, m).r.buf == c.r.buf
  {
    hide C.RunStep;
    if m.Run? {
      RunKeepsBuffers(c, m.role);
    }
  }

  /** To the message system, a step of the RDMA system is at most a user write. */
  lemma RemoteKeepsMessages(st: State, e: D.Event)
    requires Inv(st) && Enabled(st, Remote(e))
    ensures CI.Inv(Apply(st, Remote(e)).c)
  {
    hide DI.Inv, CI.Inv, D.Advance;
    if e.StoreByte? {
      var rbuf := D.Apply(st.d, e).r.buf;
      CopyingReceiver(st.d, e.role, e.k);
      CI.StepInv(st.c, C.Write(Receiver, rbuf));
    } else {
      RemoteKeepsBuffers(st.d, e);
    }
  }

  lemma RemoteKeepsBuffers(d: D.State, e: D.Event)
    requires D.Enabled(d, e) && !e.Write? && !e.StoreByte?
    ensures D.Apply(d, e).s.buf == d.s.buf && D.Apply(d, e).r.buf == d.r.buf
  {}

  lemma ReadyStays(c: C.State, m: C.Event, role: Role)
    requires CI.Inv(c) && C.Enabled(c, m) && Ready(c, role)
    ensures Ready(C.Apply(c, m), role)
  {
    hide CI.ReceiverDataOk, CI.SenderPcOk, CI.ReceiverPcOk;
  }

  /** The receiver's Wait returns with this statement. */
  predicate MessageReturns(c: C.State, m: C.Event)
    requires C.Enabled(c, m)
  {
    m == C.Run(Receiver) && (c.r.pc.TestRecv? || c.r.pc.MpiWait?) && C.Apply(c, m).r.pc.Idle?
  }

  predicate RemoteReturns(d: D.State, e: D.Event)
    requires D.Enabled(d, e)
  {
    e == D.Run(Receiver) && (d.r.pc.CrossTest? || d.r.pc.CrossWait?) && D.Apply(d, e).r.pc.Idle?
  }

  lemma RunSenderLogs(c: C.State)
    requires CI.SenderPcOk(c) && C.CanRun(c, Sender)
    ensures C.RunStep(c, Sender).s.log == c.s.log && C.RunStep(c, Sender).r.log == c.r.log
  {}

  lemma RunReceiverLogs(c: C.State)
    requires CI.ReceiverPcOk(c) && C.CanRun(c, Receiver)
    ensures C.RunStep(c, Receiver).s.log == c.s.log
    ensures C.RunStep(c, Receiver).r.log ==
      if MessageReturns(c, C.Run(Receiver)) then c.r.log + [C.RunStep(c, Receiver).r.buf] else c.r.log
  {}

  lemma NotReady(c: C.State, m: C.Event)
    requires C.Enabled(c, m)
    ensures m.Start? ==> !Ready(c, m.role)
    ensures MessageReturns(c, m) ==> !Ready(c, Receiver)
  {}

  lemma MessageLogs(c: C.State, m: C.Event)
    requires CI.Inv(c) && C.Enabled(c, m)
    ensures var c' := C.Apply(c, m);
      && c'.s.log == (if m == C.Start(Sender) then c.s.log + [c.s.buf] else c.s.log)
      && c'.r.log == if MessageReturns(c, m) then c.r.log + [c'.r.buf] else c.r.log
  {
    hide C.RunStep, CI.HandshakeOk, CI.SenderPcOk, CI.ReceiverPcOk, CI.CountsOk, CI.ReceiverDataOk;
    if m == C.Run(Sender) {
      RunSenderLogs(c);
    } else if m.Run? {
      RunReceiverLogs(c);
    }
  }

  lemma RemoteLogs(d: D.State, e: D.Event)
    requires DI.Inv(d) && D.Enabled(d, e)
    ensures var d' := D.Apply(d, e);
      && d'.s.log == (if e == D.Start(Sender) then d.s.log + [d.s.buf] else d.s.log)
      && d'.r.log == if RemoteReturns(d, e) then d.r.log + [d'.r.buf] else d.r.log
  {
    if e.Run? {
      RunRemoteLogs(d, e.role);
    } else {
      hide DI.Inv, D.Advance;
    }
  }

  lemma AdvanceLogs(role: Role, x: D.Side)
    ensures var x' := D.Advance(role, x);
      x'.log ==
        if role.Receiver? && (x.pc.CrossTest? || x.pc.CrossWait?) && x'.pc.Idle? then x.log + [x'.buf] else x.log
  {}

  lemma RunRemoteLogs(d: D.State, role: Role)
    requires D.Enabled(d, D.Run(role))
    ensures var d' := D.Apply(d, D.Run(role));
      && d'.s.log == d.s.log
      && d'.r.log == if RemoteReturns(d, D.Run(role)) then d.r.log + [d'.r.buf] else d.r.log
  {
    hide D.Advance;
    AdvanceLogs(role, d.Get(role));
  }

  lemma MessageLinks(st: State, m: C.Event)
    requires Inv(st) && Enabled(st, Message(m))
    ensures Links(Apply(st, Message(m)))
  {
    hide CI.Inv, DI.Inv, C.Apply, C.Enabled;
    MessageLogs(st.c, m);
    forall role: Role ensures Handover(Apply(st, Message(m)), role) {
      if Ready(st.c, role) {
        ReadyStays(st.c, m, role);
      }
    }
    NotReady(st.c, m);
    if m == C.Start(Sender) {
      NoRemoteOperation(st, Sender);
    } else if MessageReturns(st.c, m) {
      NoRemoteOperation(st, Receiver);
    }
  }

  /** A side whose operation 1 has not returned has no RDMA operation to its name. */
  lemma NoRemoteOperation(st: State, role: Role)
    requires Inv(st) && !Ready(st.c, role)
    ensures st.d.Get(role).log == []
  {
    hide DI.Protocol, CI.Inv;
  }

  lemma RemoteLinks(st: State, e: D.Event)
    requires Inv(st) && Enabled(st, Remote(e))
    ensures Links(Apply(st, Remote(e)))
  {
    hide CI.Inv, DI.Inv, D.Advance;
    RemoteLogs(st.d, e);
    var st' := Apply(st, Remote(e));
    assert Handover(st', Sender) && Handover(st', Receiver);
  }

  /** Every event keeps the invariant. */
  lemma StepInv(st: State, e: Event)
    requires Inv(st) && Enabled(st, e)
    ensures Inv(Apply(st, e))
  {
    hide CI.Inv, DI.Inv, C.Apply, D.Apply;
    match e {
      case Message(m) =>
        CI.StepInv(st.c, m);
        MessageKeepsRdma(st, m);
        MessageLinks(st, m);
      case Remote(e) =>
        DI.StepInv(st.d, e);
        RemoteKeepsMessages(st, e);
        RemoteLinks(st, e);
      case UserWrite(role, data) =>
        WriteInv(st, role, data);
    }
  }

  lemma WriteInv(st: State, role: Role, data: Buffer)
    requires Inv(st) && Enabled(st, UserWrite(role, data))
    ensures Inv(Apply(st, UserWrite(role, data)))
  {
    hide CI.Inv, DI.Inv;
    CI.StepInv(st.c, C.Write(role, data));
    DI.StepInv(st.d, D.Write(role, data));
  }

  lemma {:induction false} ExecInv(st: State, es: seq<Event>)
    requires Inv(st) && Runs(st, es)
    ensures Inv(Exec(st, es))
    decreases |es|
  {
    if es != [] {
      StepInv(st, es[0]);
      ExecInv(Apply(st, es[0]), es[1..]);
    }
  }

  lemma ReachableInv(st: State)
    requires Reachable(st)
    ensures Inv(st)
  {
    var st0, es :| Initial(st0) && Runs(st0, es) && st == Exec(st0, es);
    InitInv(st0);
    ExecInv(st0, es);
  }

  // ---- each component runs by itself ----

  lemma ProjectStep(st: State, e: Event)
    requires Inv(st) && Enabled(st, e) && C.Reachable(st.c) && D.Reachable(st.d)
    ensures C.Reachable(Apply(st, e).c) && D.Reachable(Apply(st, e).d)
  {
    hide CI.Inv, DI.Inv, C.Reachable, D.Reachable, C.RunStep, C.StartStep, D.Advance;
    match e {
      case Message(m) =>
        CI.ReachableStep(st.c, m);
        if m.Land? {
          LandingReceiver(st.c);
          DI.ReachableStep(st.d, D.Write(Receiver, st.c.sent[st.c.landed]));
        } else {
          MessageKeepsBuffers(st.c, m);
        }
      case Remote(r) =>
        DI.ReachableStep(st.d, r);
        if r.StoreByte? {
          CopyingReceiver(st.d, r.role, r.k);
          CI.ReachableStep(st.c, C.Write(Receiver, D.Apply(st.d, r).r.buf));
        } else {
          RemoteKeepsBuffers(st.d, r);
        }
      case UserWrite(role, data) =>
        CI.ReachableStep(st.c, C.Write(role, data));
        DI.ReachableStep(st.d, D.Write(role, data));
    }
  }

  lemma {:induction false} ProjectExec(st: State, es: seq<Event>)
    requires Inv(st) && Runs(st, es) && C.Reachable(st.c) && D.Reachable(st.d)
    ensures C.Reachable(Exec(st, es).c) && D.Reachable(Exec(st, es).d)
    decreases |es|
  {
    hide Inv, C.Reachable, D.Reachable;
    if es != [] {
      ProjectStep(st, es[0]);
      StepInv(st, es[0]);
      ProjectExec(Apply(st, es[0]), es[1..]);
    }
  }

  /**
    In every run of a pair, what the RDMA system sees is one of its own runs, whatever the message
    system does meanwhile, and the other way round. So all that is proved of either holds of the pair.
   */
  lemma Projection(st: State)
    requires Reachable(st)
    ensures C.Reachable(st.c) && D.Reachable(st.d)
  {
    var st0, es :| Initial(st0) && Runs(st0, es) && st == Exec(st0, es);
    InitInv(st0);
    assert C.Runs(st0.c, []) && C.Exec(st0.c, []) == st0.c;
    assert D.Runs(st0.d, []) && D.Exec(st0.d, []) == st0.d;
    ProjectExec(st0, es);
  }

  // ---- the pair as a channel ----

  /** `operation_number` of a side. */
  function Operation(st: State, role: Role): nat {
    if Ready(st.c, role) then st.d.Get(role).op else st.c.Get(role).op
  }

  /** Between Wait and Start. */
  predicate Inactive(st: State, role: Role) {
    CI.Inactive(st.c.Get(role)) && st.d.Get(role).pc.Idle?
  }

  lemma MessageFacts(c: C.State)
    requires CI.Inv(c)
    ensures |c.s.log| == c.s.op && |c.r.log| == (if CI.Inactive(c.r) then c.r.op else c.r.op - 1)
    ensures |c.r.log| <= |c.s.log| && forall k | 0 <= k < |c.r.log| :: c.r.log[k] == c.s.log[k]
    ensures forall role: Role :: Ready(c, role) ==> c.Get(role).op == 1
    ensures forall role: Role :: Ready(c, role) ==> !c.Get(role.Peer()).kind.Fallback?
    ensures !c.s.kind.Fallback? ==> c.s.op <= 1
  {}

  lemma RemoteFacts(d: D.State)
    requires DI.Inv(d)
    ensures |d.s.log| == d.s.op - 1 && |d.r.log| == (if d.r.pc.Idle? then d.r.op - 1 else d.r.op - 2)
    ensures |d.r.log| <= |d.s.log| && forall k | 0 <= k < |d.r.log| :: d.r.log[k] == d.s.log[k]
    ensures d.s.op <= d.r.op + 1
  {
    hide DI.NetOk, DI.PcOk, DI.FlagValue;
  }

  /**
    End to end, over every run of a pair, in RDMA or fallback mode: the n-th buffer the receiver's
    Wait returns with is the buffer the sender had at its n-th Start, and the receiver has as many of
    them as it has completed operations. In RDMA mode the pair is in lock step.
   */
  lemma EndToEnd(st: State)
    requires Reachable(st)
    ensures |st.sent| == Operation(st, Sender)
    ensures |st.received| == if Inactive(st, Receiver) then Operation(st, Receiver) else Operation(st, Receiver) - 1
    ensures |st.received| <= |st.sent|
    ensures forall k | 0 <= k < |st.received| :: st.received[k] == st.sent[k]
    ensures Ready(st.c, Receiver) ==> |st.sent| <= |st.received| + 2
  {
    hide CI.Inv, DI.Inv;
    ReachableInv(st);
    MessageFacts(st.c);
    RemoteFacts(st.d);
  }
}
