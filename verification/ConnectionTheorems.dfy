/** What the handshake and the first operation guarantee, and where they fall short. */
module ConnectionTheorems {
  import opened Common
  import opened ConnectionMachine
  import opened ConnectionInvariant

  /** A side that has completed operation 1 and is inactive. */
  predicate Settled(x: Side) {
    x.pc.Idle? && x.op >= 1
  }

  /** No reachable state has one side in RDMA mode and the other in fallback mode. */
  lemma HandshakeAgreement(st: State, role: Role)
    requires Reachable(st)
    ensures !(st.Get(role).kind.Rdma? && st.Get(role.Peer()).kind.Fallback?)
    ensures Settled(st.s) && Settled(st.r) ==> st.s.kind == st.r.kind && !st.s.kind.Searching?
  {
    ReachableInv(st);
  }

  /**
    Exactly one payload receive is posted for operation 1 (and one for every fallback operation):
    none before it starts, never a second one, and one by the time Wait returns.
   */
  lemma OnePayloadReceive(st: State)
    requires Reachable(st)
    ensures st.r.op - 1 <= st.posted <= st.r.op
    ensures Settled(st.r) ==> st.posted == st.r.op == st.landed
  {
    ReachableInv(st);
  }

  /** The asserts of Start and of the receive posting: no backup request is ever overwritten. */
  predicate AssertsHold(st: State) {
    && (st.s.pc.StartPost? ==> st.s.backup == None && st.s.op == 1)
    && (st.r.pc.StartPost? ==> st.r.op == 1 && (!st.r.addr ==> st.r.backup == None))
    && (forall role: Role :: st.Get(role).pc.Idle? && st.Get(role).kind.Fallback? ==> st.Get(role).backup == None)
    && (forall role: Role :: InProgressCall(st.Get(role).pc) && !st.Get(role).addr ==> st.Get(role).kind.Searching?)
    && (Settled(st.s) ==> !st.s.kind.Searching?) && (Settled(st.r) ==> !st.r.kind.Searching?)
  }

  lemma AssertsNeverFail(st: State)
    requires Reachable(st)
    ensures AssertsHold(st)
  {
    ReachableInv(st);
  }

  /** The n-th buffer a receiver's Wait has returned is the sender's buffer at its n-th Start. */
  lemma MessageIntegrity(st: State)
    requires Reachable(st)
    ensures |st.s.log| == st.s.op && |st.r.log| <= |st.s.log|
    ensures Settled(st.r) ==> |st.r.log| == st.r.op
    ensures forall k | 0 <= k < |st.r.log| :: st.r.log[k] == st.s.log[k]
  {
    ReachableInv(st);
  }

  // ---- with the handshake visible before the payload ----

  /** In the receiver's Wait loop, after the probe for the handshake that follows the payload probe. */
  predicate PastProbe(pc: Pc) {
    pc.LoopTest? || pc.LoopProbe? || pc.PostIfNeeded? || (pc.PostCheck? && pc.site.AtWait?)
  }

  predicate OrderedInv(st: State) {
    && (st.arrived > 0 ==> st.s.hs.Visible? || st.s.hs.Matched?)
    && !st.r.kind.Fallback?
    && (st.r.seen ==> st.arrived > 0)
    && (st.r.seen && PastProbe(st.r.pc) ==> st.r.addr)
    && (st.r.pc.LoopProbe? ==> !st.r.seen)
    && (st.r.pc.PostIfNeeded? || st.r.pc.DecideRecv? ==> st.r.addr)
  }

  lemma OrderedRunSender(st: State)
    requires HandshakeOk(st.s, st.r) && OrderedInv(st) && Enabled(st, Run(Sender))
    ensures OrderedInv(Apply(st, Run(Sender)))
  {}

  lemma OrderedProgressReceiver(st: State)
    requires HandshakeOk(st.s, st.r) && HandshakeOk(st.r, st.s) && ReceiverPcOk(st)
    requires OrderedInv(st) && Enabled(st, Run(Receiver)) && InProgressCall(st.r.pc)
    ensures OrderedInv(Apply(st, Run(Receiver)))
  {}

  lemma OrderedRunReceiver(st: State)
    requires HandshakeOk(st.s, st.r) && HandshakeOk(st.r, st.s) && ReceiverPcOk(st)
    requires OrderedInv(st) && Enabled(st, Run(Receiver))
    ensures OrderedInv(Apply(st, Run(Receiver)))
  {
    if InProgressCall(st.r.pc) {
      OrderedProgressReceiver(st);
    }
  }

  lemma OrderedOther(st: State, e: Event)
    requires HandshakeOk(st.s, st.r) && OrderedInv(st) && Enabled(st, e) && HandshakeFirst(st, e) && !e.Run?
    ensures OrderedInv(Apply(st, e))
  {}

  lemma OrderedStep(st: State, e: Event)
    requires Inv(st) && OrderedInv(st) && Enabled(st, e) && HandshakeFirst(st, e)
    ensures OrderedInv(Apply(st, e))
  {
    hide ReceiverDataOk, SenderPcOk, ReceiverPcOk, OrderedInv, HandshakeOk;
    if e == Run(Sender) {
      OrderedRunSender(st);
    } else if e == Run(Receiver) {
      OrderedRunReceiver(st);
    } else {
      OrderedOther(st, e);
    }
  }

  lemma {:induction false} OrderedExec(st: State, es: seq<Event>)
    requires Inv(st) && OrderedInv(st) && OrderedRuns(st, es) && Runs(st, es)
    ensures OrderedInv(Exec(st, es))
    decreases |es|
  {
    if es != [] {
      OrderedStep(st, es[0]);
      StepInv(st, es[0]);
      OrderedExec(Apply(st, es[0]), es[1..]);
    }
  }

  /**
    If the handshake is visible before the payload, the receiver never chooses fallback, and once
    both sides have completed operation 1 both are in RDMA mode.
   */
  lemma OrderedMeansRdma(st: State)
    requires OrderedReachable(st)
    ensures !st.r.kind.Fallback?
    ensures Settled(st.r) ==> st.r.kind.Rdma?
    ensures Settled(st.s) && Settled(st.r) ==> st.s.kind.Rdma? && st.r.kind.Rdma?
  {
    var st0, es :| Initial(st0) && OrderedRuns(st0, es) && Runs(st0, es) && st == Exec(st0, es);
    InitInv(st0);
    ExecInv(st0, es);
    OrderedExec(st0, es);
  }

  // ---- where the first operation can hang ----

  /** The receiver's Start is the only thing that can make the sender of an ordered run fall back. */
  predicate CauseInv(st: State) {
    !st.early ==>
      && (st.posted > 0 ==> st.r.addr && !st.r.pc.AwaitOwn?)
      && (st.s.pc.DecideSend? ==> st.s.kind.Rdma?)
      && !st.s.kind.Fallback?
  }

  lemma CauseRunSender(st: State)
    requires HandshakeOk(st.s, st.r) && HandshakeOk(st.r, st.s) && CountsOk(st) && SenderPcOk(st)
    requires CauseInv(st) && Enabled(st, Run(Sender))
    ensures CauseInv(Apply(st, Run(Sender)))
  {}

  lemma CauseRunReceiver(st: State)
    requires HandshakeOk(st.r, st.s) && OrderedInv(st)
    requires CauseInv(st) && Enabled(st, Run(Receiver))
    ensures CauseInv(Apply(st, Run(Receiver)))
  {}

  lemma CauseStep(st: State, e: Event)
    requires Inv(st) && OrderedInv(st) && CauseInv(st) && Enabled(st, e)
    ensures CauseInv(Apply(st, e))
  {
    hide ReceiverDataOk;
    if e == Run(Sender) {
      CauseRunSender(st);
    } else if e == Run(Receiver) {
      CauseRunReceiver(st);
    }
  }

  lemma {:induction false} CauseExec(st: State, es: seq<Event>)
    requires Inv(st) && OrderedInv(st) && CauseInv(st) && OrderedRuns(st, es) && Runs(st, es)
    ensures CauseInv(Exec(st, es))
    decreases |es|
  {
    if es != [] {
      OrderedStep(st, es[0]);
      CauseStep(st, es[0]);
      StepInv(st, es[0]);
      CauseExec(Apply(st, es[0]), es[1..]);
    }
  }

  /**
    With the handshake visible before the payload, the sender falls back only if the receiver's Start
    probed for the handshake too early and then found the payload.
   */
  lemma OnlyEarlyPostMisleads(st: State)
    requires OrderedReachable(st) && !st.early
    ensures !st.s.kind.Fallback? && !st.r.kind.Fallback?
    ensures Settled(st.s) ==> st.s.kind.Rdma?
  {
    var st0, es :| Initial(st0) && OrderedRuns(st0, es) && Runs(st0, es) && st == Exec(st0, es);
    InitInv(st0);
    ExecInv(st0, es);
    OrderedExec(st0, es);
    CauseExec(st0, es);
  }

  /** A side waiting for its own handshake to be matched by a peer that has fallen back. */
  predicate Orphaned(st: State, role: Role) {
    st.Get(role).pc.AwaitOwn? && st.Get(role.Peer()).kind.Fallback?
  }

  lemma OrphanedStep(st: State, role: Role, e: Event)
    requires Inv(st) && Orphaned(st, role) && Enabled(st, e)
    ensures Orphaned(Apply(st, e), role) && Apply(st, e).Get(role).op == st.Get(role).op
  {
    hide ReceiverDataOk;
  }

  /** Such a side never completes its operation, whatever happens next. */
  lemma {:induction false} OrphanedForever(st: State, role: Role, es: seq<Event>)
    requires Inv(st) && Orphaned(st, role) && Runs(st, es)
    ensures Orphaned(Exec(st, es), role) && Exec(st, es).Get(role).op == st.Get(role).op
    decreases |es|
  {
    if es != [] {
      OrphanedStep(st, role, es[0]);
      StepInv(st, es[0]);
      OrphanedForever(Apply(st, es[0]), role, es[1..]);
    }
  }

  lemma {:induction false} Extend(st: State, es: seq<Event>, e: Event)
    requires Runs(st, es) && OrderedRuns(st, es) && Enabled(Exec(st, es), e) && HandshakeFirst(Exec(st, es), e)
    ensures Runs(st, es + [e]) && OrderedRuns(st, es + [e]) && Exec(st, es + [e]) == Apply(Exec(st, es), e)
    decreases |es|
  {
    if es == [] {
      assert Runs(Apply(st, e), []);
      assert [e][1..] == [];
    } else {
      Extend(Apply(st, es[0]), es[1..], e);
      assert (es + [e])[1..] == es[1..] + [e];
    }
  }

  predicate Leads(st: State, es: seq<Event>, st': State) {
    Runs(st, es) && OrderedRuns(st, es) && Exec(st, es) == st'
  }

  lemma {:induction false} LeadsTrans(st: State, es: seq<Event>, st': State, es': seq<Event>, st'': State)
    requires Leads(st, es, st') && Leads(st', es', st'')
    ensures Leads(st, es + es', st'')
    decreases |es'|
  {
    if es' == [] {
      assert es + es' == es;
    } else {
      Extend(st, es, es'[0]);
      assert es + es' == (es + [es'[0]]) + es'[1..];
      LeadsTrans(st, es + [es'[0]], Apply(st', es'[0]), es'[1..], st'');
    }
  }

  /** Both sides initialised; the sender's Start sees no handshake and sends the payload. */
  function SenderStarted(b: Buffer, c: Buffer): State {
    State(Side(Started, 1, Searching, false, Travelling, Some(0), false, b, [b]),
          Side(Idle, 0, Searching, false, Travelling, None, false, c, []),
          [b], 0, 0, 0, 0, false)
  }

  /** The receiver's Start sees no handshake. */
  function ReceiverProbed(b: Buffer, c: Buffer): State {
    SenderStarted(b, c).(r := Side(StartPost, 1, Searching, false, Travelling, None, false, c, []))
  }

  /** ... then it sees the payload, and its receive is matched. */
  function EarlyPosted(b: Buffer, c: Buffer): State {
    State(Side(Started, 1, Searching, false, Visible, Some(0), false, b, [b]),
          Side(Started, 1, Searching, false, Travelling, Some(0), false, c, []),
          [b], 1, 1, 1, 0, true)
  }

  /** The sender's Wait sees no handshake either, and its send complete. */
  function SenderFellBack(b: Buffer, c: Buffer): State {
    EarlyPosted(b, c).(s := Side(Idle, 1, Fallback, false, Visible, None, false, b, [b]))
  }

  /** Both sides initialised; the sender is about to probe in its Start. */
  function SenderProbes(b: Buffer, c: Buffer): State {
    State(Side(Probe(AtStart), 1, Searching, false, Travelling, None, false, b, [b]),
          Side(Idle, 0, Searching, false, Travelling, None, false, c, []), [], 0, 0, 0, 0, false)
  }

  lemma LeadsToSenderProbes(b: Buffer, c: Buffer) returns (st: State, es: seq<Event>)
    requires |b| == |c|
    ensures Initial(st) && st.s.buf == b && st.r.buf == c && Leads(st, es, SenderProbes(b, c))
    ensures es == [Init(Sender), Init(Receiver), Start(Sender)]
  {
    st := State(Side(Absent, 0, Searching, false, Unsent, None, false, b, []),
                Side(Absent, 0, Searching, false, Unsent, None, false, c, []), [], 0, 0, 0, 0, false);
    es := [];
    Extend(st, es, Init(Sender)); es := es + [Init(Sender)];
    Extend(st, es, Init(Receiver)); es := es + [Init(Receiver)];
    Extend(st, es, Start(Sender)); es := es + [Start(Sender)];
  }

  lemma LeadsFromSenderProbes(b: Buffer, c: Buffer)
    ensures Leads(SenderProbes(b, c), [Run(Sender), Run(Sender), Run(Sender)], SenderStarted(b, c))
  {
    var st := SenderProbes(b, c);
    var es := [];
    Extend(st, es, Run(Sender)); es := es + [Run(Sender)];
    Extend(st, es, Run(Sender)); es := es + [Run(Sender)];
    Extend(st, es, Run(Sender)); es := es + [Run(Sender)];
  }

  lemma LeadsToSenderStarted(b: Buffer, c: Buffer) returns (st: State, es: seq<Event>)
    requires |b| == |c|
    ensures Initial(st) && st.s.buf == b && st.r.buf == c && Leads(st, es, SenderStarted(b, c))
    ensures es == [Init(Sender), Init(Receiver), Start(Sender), Run(Sender), Run(Sender), Run(Sender)]
  {
    hide Leads;
    var runs := [Run(Sender), Run(Sender), Run(Sender)];
    st, es := LeadsToSenderProbes(b, c);
    LeadsFromSenderProbes(b, c);
    LeadsTrans(st, es, SenderProbes(b, c), runs, SenderStarted(b, c));
    es := es + runs;
  }

  lemma LeadsToReceiverProbed(b: Buffer, c: Buffer) returns (es: seq<Event>)
    ensures Leads(SenderStarted(b, c), es, ReceiverProbed(b, c))
  {
    var st := SenderStarted(b, c);
    es := [];
    Extend(st, es, Start(Receiver)); es := es + [Start(Receiver)];
    Extend(st, es, Run(Receiver)); es := es + [Run(Receiver)];
    Extend(st, es, Run(Receiver)); es := es + [Run(Receiver)];
  }

  lemma LeadsToEarlyPosted(b: Buffer, c: Buffer) returns (es: seq<Event>)
    ensures Leads(ReceiverProbed(b, c), es, EarlyPosted(b, c))
  {
    var st := ReceiverProbed(b, c);
    es := [];
    Extend(st, es, HandshakeArrives(Sender)); es := es + [HandshakeArrives(Sender)];
    Extend(st, es, PayloadArrives); es := es + [PayloadArrives];
    Extend(st, es, Run(Receiver)); es := es + [Run(Receiver)];
    Extend(st, es, Match); es := es + [Match];
  }

  lemma LeadsToSenderFellBack(b: Buffer, c: Buffer) returns (es: seq<Event>)
    ensures Leads(EarlyPosted(b, c), es, SenderFellBack(b, c))
  {
    var st := EarlyPosted(b, c);
    es := [];
    Extend(st, es, CallWait(Sender)); es := es + [CallWait(Sender)];
    Extend(st, es, Run(Sender)); es := es + [Run(Sender)];
    Extend(st, es, Run(Sender)); es := es + [Run(Sender)];
    Extend(st, es, Run(Sender)); es := es + [Run(Sender)];
    Extend(st, es, Run(Sender)); es := es + [Run(Sender)];
    Extend(st, es, Run(Sender)); es := es + [Run(Sender)];
  }

  lemma LeadsToOrphaned(b: Buffer, c: Buffer) returns (es: seq<Event>, st': State)
    ensures Leads(SenderFellBack(b, c), es, st') && Orphaned(st', Receiver)
  {
    var st := SenderFellBack(b, c);
    es := [];
    Extend(st, es, CallWait(Receiver)); es := es + [CallWait(Receiver)];
    Extend(st, es, Run(Receiver)); es := es + [Run(Receiver)];
    Extend(st, es, Run(Receiver)); es := es + [Run(Receiver)];
    Extend(st, es, Run(Receiver)); es := es + [Run(Receiver)];
    Extend(st, es, Run(Receiver)); es := es + [Run(Receiver)];
    st' := Exec(st, es);
  }

  /**
    The exception is real: for all buffers there is a run, with the handshake visible before the
    payload, in which the sender falls back and the receiver then waits forever for its handshake to
    be matched (`OrphanedForever`).
   */
  lemma EarlyPostHangs(b: Buffer, c: Buffer) returns (st: State)
    requires |b| == |c|
    ensures OrderedReachable(st) && Orphaned(st, Receiver) && st.early
  {
    var st0, es1 := LeadsToSenderStarted(b, c);
    var es2 := LeadsToReceiverProbed(b, c);
    var es2' := LeadsToEarlyPosted(b, c);
    var es3 := LeadsToSenderFellBack(b, c);
    var es4;
    es4, st := LeadsToOrphaned(b, c);
    LeadsTrans(SenderStarted(b, c), es2, ReceiverProbed(b, c), es2', EarlyPosted(b, c));
    LeadsTrans(st0, es1, SenderStarted(b, c), es2 + es2', EarlyPosted(b, c));
    LeadsTrans(st0, es1 + (es2 + es2'), EarlyPosted(b, c), es3, SenderFellBack(b, c));
    LeadsTrans(st0, es1 + (es2 + es2') + es3, SenderFellBack(b, c), es4, st);
    OrderedMeansRdma(st);
    if !st.early {
      OnlyEarlyPostMisleads(st);
    }
  }
}
