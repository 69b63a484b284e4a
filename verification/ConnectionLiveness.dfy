/**
  When operation 1 can still be completed. From any state of a run in which the handshake is visible
  before the payload, and in which both sides have started operation 1, there is a continuation in
  which both Waits return if and only if the sender has not missed the receiver's handshake.
 */
module ConnectionLiveness {
  import opened Common
  import opened ConnectionMachine
  import opened ConnectionInvariant
  import opened ConnectionTheorems

  /** In the sender's Wait, between its probe for the handshake and the test of its send. */
  predicate AfterProbe(pc: Pc) {
    (pc.PostCheck? && pc.site.AtWait?) || pc.NoteMode? || pc.TestSend?
  }

  /**
    The sender has fallen back, or it is bound to: its Wait has probed in vain and its send has been
    matched, or it has already found its send complete.
   */
  predicate Missed(st: State) {
    || st.s.kind.Fallback?
    || (st.s.kind.Searching? && !st.s.addr && (st.s.pc.DecideSend? || (AfterProbe(st.s.pc) && st.matched > 0)))
  }

  predicate BothStarted(st: State) {
    st.s.op >= 1 && st.r.op >= 1
  }

  /** What holds along the way. */
  predicate Good(st: State) {
    Inv(st) && OrderedInv(st) && BothStarted(st) && !Missed(st)
  }

  predicate Done(st: State) {
    Settled(st.s) && Settled(st.r)
  }

  // ---- a measure ----

  /** Weight of the statements before Wait, which both sides share. */
  function StartWeight(pc: Pc): nat {
    match pc
    case Probe(_) => 17
    case ReceiveInfo(_) => 16
    case AwaitOwn(_) => 15
    case PostCheck(_) => 14
    case StartPost => 13
    case _ => 12
  }

  function SenderWeight(x: Side): nat {
    if InProgressCall(x.pc) && !x.pc.site.AtWait? then StartWeight(x.pc)
    else match x.pc
      case PostCheck(_) => if x.addr then 4 else 10
      case NoteMode => if x.addr then 3 else 9
      case TestSend => if x.addr then 2 else 8
      case Probe(_) => if x.addr then 5 else 7
      case ReceiveInfo(_) => 6
      case AwaitOwn(_) => 5
      case DecideSend => 1
      case Idle => 0
      case _ => StartWeight(x.pc)
  }

  function ReceiverWeight(x: Side): nat {
    if InProgressCall(x.pc) && !x.pc.site.AtWait? then StartWeight(x.pc)
    else match x.pc
      case PostCheck(_) => if x.addr then 5 else 11
      case LoopTest => if x.addr then 4 else 10
      case LoopProbe => 9
      case Probe(_) => 8
      case ReceiveInfo(_) => 7
      case AwaitOwn(_) => 6
      case PostIfNeeded => 3
      case DecideRecv => 2
      case TestRecv => 1
      case Idle => 0
      case _ => StartWeight(x.pc)
  }

  function HandshakeWeight(x: Side): nat {
    if x.hs.Travelling? then 1 else 0
  }

  function CountWeight(st: State): nat {
    (if st.arrived == 0 then 1 else 0) + (if st.matched == 0 then 1 else 0) + (if st.landed == 0 then 1 else 0)
  }

  function Weight(st: State): nat {
    SenderWeight(st.s) + ReceiverWeight(st.r) + HandshakeWeight(st.s) + HandshakeWeight(st.r) + CountWeight(st)
  }

  // ---- a schedule ----

  /** Handshakes first, then the sender, then the receiver, then the payload. */
  function Next(st: State): Event {
    if st.s.hs.Travelling? then HandshakeArrives(Sender)
    else if st.r.hs.Travelling? then HandshakeArrives(Receiver)
    else if st.s.pc.Started? then CallWait(Sender)
    else if CanRun(st, Sender) && !(st.s.pc.TestSend? && st.s.addr && st.matched == 0) then Run(Sender)
    else if st.r.pc.Started? then CallWait(Receiver)
    else if CanRun(st, Receiver) && !(st.r.pc.TestRecv? && st.landed == 0) then Run(Receiver)
    else if st.arrived == 0 then PayloadArrives
    else if st.matched == 0 then Match
    else Land
  }

  /** Neither side can take a step of its own that makes progress. */
  predicate Blocked(st: State) {
    var e := Next(st);
    e.PayloadArrives? || e.Match? || e.Land?
  }

  /** Then both wait for the payload. */
  lemma BlockedSides(st: State)
    requires Good(st) && !Done(st) && Blocked(st)
    ensures st.s.pc.Idle? || (st.s.pc.TestSend? && st.s.addr && st.matched == 0)
    ensures st.r.pc.TestRecv? && st.landed == 0 && st.posted == 1
    ensures |st.sent| == 1
  {
  }

  lemma NextEnabled(st: State)
    requires Good(st) && !Done(st)
    ensures Enabled(st, Next(st)) && HandshakeFirst(st, Next(st))
  {
    if Blocked(st) {
      BlockedSides(st);
    }
  }

  /** The sender can take a step that makes progress. */
  predicate SenderMoves(st: State) {
    CanRun(st, Sender) && !st.r.hs.Travelling? && !(st.s.pc.TestSend? && st.s.addr && st.matched == 0)
  }

  predicate ReceiverMoves(st: State) {
    CanRun(st, Receiver) && !st.s.hs.Travelling? && !(st.r.pc.TestRecv? && st.landed == 0)
  }

  predicate SenderOk(st: State) {
    HandshakeOk(st.s, st.r) && HandshakeOk(st.r, st.s) && SenderPcOk(st) && st.s.op >= 1 && !Missed(st)
    && !st.r.hs.Unsent?
  }

  predicate ReceiverSideOk(st: State) {
    && HandshakeOk(st.s, st.r) && HandshakeOk(st.r, st.s) && CountsOk(st) && ReceiverPcOk(st) && OrderedInv(st)
    && st.r.op >= 1 && !st.s.hs.Unsent?
  }

  // Each statement lowers the weight of its side. While a side searches, a visible handshake is found.

  lemma SenderProgressLightens(st: State)
    requires SenderOk(st) && SenderMoves(st) && InProgressCall(st.s.pc)
    ensures var st' := RunStep(st, Sender);
      SenderWeight(st'.s) < SenderWeight(st.s) && st'.s.op >= 1 && !Missed(st')
  {
    hide SenderPcOk;
    NotFromIdle(st);
  }

  lemma NotFromIdle(st: State)
    requires SenderPcOk(st) && st.s.op >= 1 && InProgressCall(st.s.pc)
    ensures !st.s.pc.site.FromIdle?
  {}

  lemma SenderRestLightens(st: State)
    requires SenderOk(st) && SenderMoves(st) && !InProgressCall(st.s.pc)
    ensures var st' := RunStep(st, Sender);
      SenderWeight(st'.s) < SenderWeight(st.s) && st'.s.op >= 1 && !Missed(st')
  {
    hide HandshakeOk;
  }

  lemma ReceiverProgressLightens(st: State)
    requires ReceiverSideOk(st) && ReceiverMoves(st) && InProgressCall(st.r.pc)
    ensures var st' := RunStep(st, Receiver);
      ReceiverWeight(st'.r) < ReceiverWeight(st.r) && st'.r.op == st.r.op
  {
    hide ReceiverPcOk;
    ReceiverNotFromIdle(st);
  }

  lemma ReceiverNotFromIdle(st: State)
    requires ReceiverPcOk(st) && st.r.op >= 1 && InProgressCall(st.r.pc)
    ensures !st.r.pc.site.FromIdle?
  {}

  lemma ReceiverRestLightens(st: State)
    requires ReceiverSideOk(st) && ReceiverMoves(st) && !InProgressCall(st.r.pc)
    ensures var st' := RunStep(st, Receiver);
      ReceiverWeight(st'.r) < ReceiverWeight(st.r) && st'.r.op == st.r.op
  {
    hide HandshakeOk;
    if st.r.pc.LoopTest? || st.r.pc.LoopProbe? {
      ReceiverLoopLightens(st);
    }
  }

  lemma ReceiverLoopLightens(st: State)
    requires (st.r.pc.LoopTest? || st.r.pc.LoopProbe?) && OrderedInv(st)
    ensures var st' := RunStep(st, Receiver);
      ReceiverWeight(st'.r) < ReceiverWeight(st.r) && st'.r.op == st.r.op
  {}

  /** A statement of one side changes of the other only its handshake, and never un-does anything. */
  predicate Spares(st: State, st': State, role: Role) {
    && (role.Sender? ==> st'.r == st.r.(hs := st'.r.hs))
    && (role.Receiver? ==> st'.s == st.s.(hs := st'.s.hs))
    && st'.arrived == st.arrived && st'.matched == st.matched && st'.landed == st.landed
    && (st'.s.hs.Travelling? ==> st.s.hs.Travelling?) && (st'.r.hs.Travelling? ==> st.r.hs.Travelling?)
  }

  lemma RunSparesSender(st: State)
    requires CanRun(st, Receiver)
    ensures Spares(st, RunStep(st, Receiver), Receiver)
  {
    if InProgressCall(st.r.pc) {
      ProgressSparesSender(st);
    }
  }

  lemma ProgressSparesSender(st: State)
    requires CanRun(st, Receiver) && InProgressCall(st.r.pc)
    ensures Spares(st, RunStep(st, Receiver), Receiver)
  {}

  lemma RunSparesReceiver(st: State)
    requires CanRun(st, Sender)
    ensures Spares(st, RunStep(st, Sender), Sender)
  {}

  lemma RunSenderGood(st: State)
    requires Good(st) && SenderMoves(st)
    ensures var st' := RunStep(st, Sender);
      Weight(st') < Weight(st) && BothStarted(st') && !Missed(st')
  {
    assert SenderOk(st);
    hide Inv, OrderedInv, Missed, SenderOk, RunStep, SenderWeight;
    RunSparesReceiver(st);
    if InProgressCall(st.s.pc) {
      SenderProgressLightens(st);
    } else {
      SenderRestLightens(st);
    }
  }

  lemma RunReceiverGood(st: State)
    requires Good(st) && ReceiverMoves(st)
    ensures var st' := RunStep(st, Receiver);
      Weight(st') < Weight(st) && BothStarted(st') && !Missed(st')
  {
    assert ReceiverSideOk(st);
    hide Inv, OrderedInv, ReceiverSideOk, RunStep, ReceiverWeight;
    RunSparesSender(st);
    if InProgressCall(st.r.pc) {
      ReceiverProgressLightens(st);
    } else {
      ReceiverRestLightens(st);
    }
  }

  lemma CallWaitLightens(st: State, role: Role)
    requires st.Get(role).pc.Started? && !st.Get(role).kind.Fallback?
    ensures Weight(Apply(st, CallWait(role))) < Weight(st)
  {}

  lemma NetworkLightens(st: State, e: Event)
    requires Enabled(st, e)
    requires (e.PayloadArrives? && st.arrived == 0) || (e.Match? && st.matched == 0) || (e.Land? && st.landed == 0)
    ensures Weight(Apply(st, e)) < Weight(st)
  {}

  lemma ArrivalLightens(st: State, role: Role)
    requires Enabled(st, HandshakeArrives(role))
    ensures Weight(Apply(st, HandshakeArrives(role))) < Weight(st)
  {}

  lemma OtherLightens(st: State)
    requires Good(st) && !Done(st) && Enabled(st, Next(st)) && !Next(st).Run?
    ensures Weight(Apply(st, Next(st))) < Weight(st)
  {
    if Blocked(st) {
      BlockedSides(st);
    }
    hide Inv, Weight;
    if Next(st).CallWait? {
      CallWaitLightens(st, Next(st).role);
    } else if Next(st).HandshakeArrives? {
      ArrivalLightens(st, Next(st).role);
    } else {
      NetworkLightens(st, Next(st));
    }
  }

  lemma OtherKeeps(st: State)
    requires Good(st) && !Done(st) && Enabled(st, Next(st)) && !Next(st).Run?
    ensures BothStarted(Apply(st, Next(st))) && !Missed(Apply(st, Next(st)))
  {
    if Blocked(st) {
      BlockedSides(st);
    }
  }

  lemma NextKeeps(st: State)
    requires Good(st) && !Done(st) && Enabled(st, Next(st)) && HandshakeFirst(st, Next(st))
    ensures Good(Apply(st, Next(st))) && Weight(Apply(st, Next(st))) < Weight(st)
  {
    hide Inv, OrderedInv, Missed, Weight;
    StepInv(st, Next(st));
    OrderedStep(st, Next(st));
    if Next(st) == Run(Sender) {
      RunSenderGood(st);
    } else if Next(st) == Run(Receiver) {
      RunReceiverGood(st);
    } else {
      OtherKeeps(st);
      OtherLightens(st);
    }
  }

  /** No new Start, no user write, no progress call: only the network, the library and calls of Wait. */
  predicate Unaided(es: seq<Event>) {
    forall k | 0 <= k < |es| :: !es[k].Init? && !es[k].Start? && !es[k].Write? && !es[k].Progress?
  }

  /** The schedule completes operation 1 in at most `Weight(st)` steps. */
  lemma {:induction false} Completes(st: State) returns (es: seq<Event>)
    requires Good(st)
    ensures OrderedRuns(st, es) && Runs(st, es) && Unaided(es) && |es| <= Weight(st)
    ensures Done(Exec(st, es))
    decreases Weight(st)
  {
    hide Good, Next, Weight, Done;
    es := [];
    if !Done(st) {
      var e := Next(st);
      NextEnabled(st);
      NextKeeps(st);
      NextUnaided(st);
      var rest := Completes(Apply(st, e));
      es := [e] + rest;
      assert es[1..] == rest;
    }
  }

  lemma NextUnaided(st: State)
    ensures Unaided([Next(st)])
  {}

  // ---- the other half ----

  lemma MissedRunSender(st: State)
    requires SenderPcOk(st) && Missed(st) && CanRun(st, Sender)
    ensures Missed(RunStep(st, Sender))
  {}

  lemma MissedRunReceiver(st: State)
    requires Missed(st) && CanRun(st, Receiver)
    ensures Missed(RunStep(st, Receiver))
  {
    RunSparesSender(st);
    hide RunStep;
  }

  lemma MissedOther(st: State, e: Event)
    requires SenderPcOk(st) && Missed(st) && Enabled(st, e) && !e.Run?
    ensures Missed(Apply(st, e))
  {}

  lemma MissedStep(st: State, e: Event)
    requires Inv(st) && Missed(st) && Enabled(st, e)
    ensures Missed(Apply(st, e))
  {
    hide Missed, RunStep, SenderPcOk, ReceiverPcOk, ReceiverDataOk;
    if e == Run(Sender) {
      MissedRunSender(st);
    } else if e == Run(Receiver) {
      MissedRunReceiver(st);
    } else {
      MissedOther(st, e);
    }
  }

  lemma {:induction false} MissedForever(st: State, es: seq<Event>)
    requires Inv(st) && Missed(st) && Runs(st, es)
    ensures Inv(Exec(st, es)) && Missed(Exec(st, es))
    decreases |es|
  {
    if es != [] {
      StepInv(st, es[0]);
      MissedStep(st, es[0]);
      MissedForever(Apply(st, es[0]), es[1..]);
    }
  }

  /** A receiver whose first Wait has returned in RDMA mode rules out that the sender has missed it. */
  lemma MissedMeansUnsettled(st: State)
    requires Inv(st) && OrderedInv(st) && Missed(st)
    ensures !Settled(st.r)
  {}

  /** Both first Waits can return, with the handshake first, without a further Start or a progress call. */
  ghost predicate CanComplete(st: State) {
    exists es :: OrderedRuns(st, es) && Runs(st, es) && Unaided(es) && Done(Exec(st, es))
  }

  /**
    Exactly when operation 1 can be completed, and what prevents it: the receiver's Start posted its
    receive early. Once the sender has missed the handshake the receiver's first Wait never returns.
   */
  lemma CompletesExactly(st: State)
    requires OrderedReachable(st) && BothStarted(st)
    ensures CanComplete(st) <==> !Missed(st)
    ensures Missed(st) ==> forall es | OrderedRuns(st, es) && Runs(st, es) :: !Settled(Exec(st, es).r)
    ensures Missed(st) ==> st.early
    ensures st.s.pc.Idle? ==> (CanComplete(st) <==> !st.s.kind.Fallback?)
  {
    hide Inv, OrderedInv, Missed;
    OrderedReachableInv(st);
    if Missed(st) {
      forall es | OrderedRuns(st, es) && Runs(st, es) ensures !Settled(Exec(st, es).r) {
        MissedForever(st, es);
        OrderedExec(st, es);
        MissedMeansUnsettled(Exec(st, es));
      }
      MissedMeansEarly(st);
    } else {
      var es := Completes(st);
      assert OrderedRuns(st, es);
    }
    if st.s.pc.Idle? {
      IdleSender(st);
    }
  }

  lemma OrderedReachableInv(st: State)
    requires OrderedReachable(st)
    ensures Inv(st) && OrderedInv(st) && CauseInv(st)
  {
    var st0, es :| Initial(st0) && OrderedRuns(st0, es) && Runs(st0, es) && st == Exec(st0, es);
    InitInv(st0);
    ExecInv(st0, es);
    OrderedExec(st0, es);
    CauseExec(st0, es);
  }

  lemma MissedMeansEarly(st: State)
    requires Inv(st) && CauseInv(st) && Missed(st)
    ensures st.early
  {
    hide ReceiverDataOk;
  }

  lemma IdleSender(st: State)
    requires BothStarted(st) && Inv(st) && st.s.pc.Idle?
    ensures Missed(st) <==> st.s.kind.Fallback?
  {}

  /** Missing the handshake comes before falling back: a state with no fallback yet that cannot complete. */
  lemma FallbackComesLater(b: Buffer, c: Buffer) returns (st: State)
    requires |b| == |c|
    ensures OrderedReachable(st) && BothStarted(st) && st.s.kind.Searching? && !CanComplete(st)
  {
    var st0, es1 := LeadsToSenderStarted(b, c);
    var es2 := LeadsToReceiverProbed(b, c);
    var es3 := LeadsToEarlyPosted(b, c);
    var mid := EarlyPosted(b, c);
    LeadsTrans(SenderStarted(b, c), es2, ReceiverProbed(b, c), es3, mid);
    LeadsTrans(st0, es1, SenderStarted(b, c), es2 + es3, mid);
    var es := [];
    Extend(mid, es, CallWait(Sender)); es := es + [CallWait(Sender)];
    Extend(mid, es, Run(Sender)); es := es + [Run(Sender)];
    st := mid.(s := mid.s.(pc := PostCheck(AtWait)));
    LeadsTrans(st0, es1 + (es2 + es3), mid, es, st);
    CompletesExactly(st);
  }

  // ---- when the handshake can still be missed ----

  /** The receiver has posted its receive without a connection, or its Start still can. */
  predicate CanPostEarly(st: State) {
    || st.posted > 0
    || (!st.r.addr && (st.r.pc.StartPost? || (st.r.pc.PostCheck? && st.r.pc.site.AtStart?)))
    || (!st.r.addr && st.r.pc.Probe? && st.r.pc.site.AtStart? && st.s.hs.Travelling?)
  }

  /**
    The sender has missed the handshake or still can: it has no address, its Wait has just probed in vain
    or will because the handshake is still travelling, and the receiver can post early.
   */
  predicate AtRisk(st: State) {
    Missed(st) || (!st.s.addr && (st.r.hs.Travelling? || AfterProbe(st.s.pc)) && CanPostEarly(st))
  }

  /** A run, with the handshake first, to a state in which the sender has missed the handshake. */
  ghost predicate MayMiss(st: State) {
    exists es :: OrderedRuns(st, es) && Runs(st, es) && Missed(Exec(st, es))
  }

  // Without risk there is none later.

  lemma SafeRunSender(st: State)
    requires HandshakeOk(st.s, st.r) && HandshakeOk(st.r, st.s) && SenderPcOk(st) && !AtRisk(st)
    requires CanRun(st, Sender) && st.s.op >= 1 && !st.r.hs.Unsent? && CountsOk(st)
    ensures !AtRisk(RunStep(st, Sender))
  {}

  lemma SafeRunReceiver(st: State)
    requires HandshakeOk(st.s, st.r) && HandshakeOk(st.r, st.s) && OrderedInv(st) && !AtRisk(st)
    requires CanRun(st, Receiver) && !st.s.hs.Unsent?
    ensures !AtRisk(RunStep(st, Receiver))
  {}

  lemma SafeOther(st: State, e: Event)
    requires HandshakeOk(st.s, st.r) && HandshakeOk(st.r, st.s) && SenderPcOk(st) && ReceiverPcOk(st)
    requires CountsOk(st) && OrderedInv(st) && BothStarted(st) && !AtRisk(st) && Enabled(st, e) && !e.Run?
    ensures !AtRisk(Apply(st, e)) && BothStarted(Apply(st, e))
  {}

  lemma {:induction false} SafeForever(st: State, es: seq<Event>)
    requires Inv(st) && OrderedInv(st) && BothStarted(st) && !AtRisk(st) && OrderedRuns(st, es) && Runs(st, es)
    ensures !AtRisk(Exec(st, es))
    decreases |es|
  {
    if es != [] {
      SafeStep(st, es[0]);
      StepInv(st, es[0]);
      OrderedStep(st, es[0]);
      hide Inv, OrderedInv, AtRisk, BothStarted, Apply;
      SafeForever(Apply(st, es[0]), es[1..]);
    }
  }

  lemma Handshaken(st: State)
    requires Inv(st) && BothStarted(st)
    ensures !st.s.hs.Unsent? && !st.r.hs.Unsent?
  {}

  lemma ProgressKeepsOps(st: State, role: Role)
    requires CanRun(st, role) && InProgressCall(st.Get(role).pc)
    ensures RunStep(st, role).s.op == st.s.op && RunStep(st, role).r.op == st.r.op
  {}

  lemma RunKeepsOps(st: State, role: Role)
    requires CanRun(st, role)
    ensures RunStep(st, role).s.op == st.s.op && RunStep(st, role).r.op == st.r.op
  {
    if InProgressCall(st.Get(role).pc) {
      ProgressKeepsOps(st, role);
    }
  }

  lemma OpsNeverFall(st: State, e: Event)
    requires Enabled(st, e)
    ensures Apply(st, e).s.op >= st.s.op && Apply(st, e).r.op >= st.r.op
  {
    if e.Run? {
      hide RunStep;
      RunKeepsOps(st, e.role);
    }
  }

  lemma SafeStep(st: State, e: Event)
    requires Inv(st) && OrderedInv(st) && BothStarted(st) && !AtRisk(st) && Enabled(st, e)
    ensures !AtRisk(Apply(st, e)) && BothStarted(Apply(st, e))
  {
    Handshaken(st);
    hide OrderedInv, AtRisk, HandshakeOk, SenderPcOk, ReceiverPcOk, ReceiverDataOk, CountsOk, RunStep;
    if e == Run(Sender) {
      SafeRunSender(st);
      OpsNeverFall(st, e);
    } else if e == Run(Receiver) {
      SafeRunReceiver(st);
      OpsNeverFall(st, e);
    } else {
      SafeOther(st, e);
    }
  }

  // With risk there is a run that ends badly.

  function SenderDistance(pc: Pc): nat {
    if InProgressCall(pc) && !pc.site.AtWait? then StartWeight(pc)
    else if pc.StartPost? || pc.Started? then StartWeight(pc)
    else if pc.Probe? then 1 else 0
  }

  function ReceiverDistance(pc: Pc): nat {
    match pc case Probe(_) => 3 case PostCheck(_) => 2 case StartPost => 1 case _ => 0
  }

  function Distance(st: State): nat {
    SenderDistance(st.s.pc) + HandshakeWeight(st.s) + CountWeight(st)
    + if st.posted == 0 then 1 + ReceiverDistance(st.r.pc) else 0
  }

  /** The schedule: an early post of a payload that has arrived, its match, then the sender's vain probe. */
  function BadNext(st: State): Event {
    if st.posted == 0 && !st.r.pc.StartPost? then Run(Receiver)
    else if st.arrived == 0 && |st.sent| == 0 then Run(Sender)
    else if st.arrived == 0 && st.s.hs.Travelling? then HandshakeArrives(Sender)
    else if st.arrived == 0 then PayloadArrives
    else if st.posted == 0 then Run(Receiver)
    else if st.matched == 0 then Match
    else if st.s.pc.Started? then CallWait(Sender)
    else Run(Sender)
  }

  predicate Risky(st: State) {
    Inv(st) && OrderedInv(st) && BothStarted(st) && AtRisk(st)
  }

  lemma BadEnabled(st: State)
    requires Risky(st) && !Missed(st)
    ensures Enabled(st, BadNext(st)) && HandshakeFirst(st, BadNext(st))
  {
    hide ReceiverDataOk;
  }

  lemma BadRunSender(st: State)
    requires Risky(st) && !Missed(st) && BadNext(st) == Run(Sender) && CanRun(st, Sender)
    ensures AtRisk(RunStep(st, Sender)) && Distance(RunStep(st, Sender)) < Distance(st)
  {
    hide ReceiverPcOk, ReceiverDataOk;
  }

  lemma BadRunReceiver(st: State)
    requires Risky(st) && !Missed(st) && BadNext(st) == Run(Receiver) && CanRun(st, Receiver)
    ensures AtRisk(RunStep(st, Receiver)) && Distance(RunStep(st, Receiver)) < Distance(st)
  {
    hide SenderPcOk, ReceiverDataOk;
  }

  lemma BadOther(st: State)
    requires Risky(st) && !Missed(st) && Enabled(st, BadNext(st)) && !BadNext(st).Run?
    ensures AtRisk(Apply(st, BadNext(st))) && Distance(Apply(st, BadNext(st))) < Distance(st)
  {
    hide ReceiverDataOk, ReceiverPcOk;
  }

  lemma BadKeeps(st: State)
    requires Risky(st) && !Missed(st) && Enabled(st, BadNext(st)) && HandshakeFirst(st, BadNext(st))
    ensures Risky(Apply(st, BadNext(st))) && Distance(Apply(st, BadNext(st))) < Distance(st)
  {
    var e := BadNext(st);
    hide Inv, OrderedInv, AtRisk, Missed, RunStep, Distance;
    StepInv(st, e);
    OrderedStep(st, e);
    OpsNeverFall(st, e);
    if e == Run(Sender) {
      BadRunSender(st);
    } else if e == Run(Receiver) {
      BadRunReceiver(st);
    } else {
      BadOther(st);
    }
  }

  lemma {:induction false} EndsBadly(st: State) returns (es: seq<Event>)
    requires Risky(st)
    ensures OrderedRuns(st, es) && Runs(st, es) && Missed(Exec(st, es))
    decreases Distance(st)
  {
    hide Risky, BadNext, Distance, Missed, Apply, Enabled;
    es := [];
    if !Missed(st) {
      var e := BadNext(st);
      BadEnabled(st);
      BadKeeps(st);
      var rest := EndsBadly(Apply(st, e));
      es := [e] + rest;
      assert es[1..] == rest;
    }
  }

  /** Exactly when the handshake can still be missed, once both sides have started operation 1. */
  lemma MissesExactly(st: State)
    requires OrderedReachable(st) && BothStarted(st)
    ensures MayMiss(st) <==> AtRisk(st)
  {
    hide Inv, OrderedInv, CauseInv, OrderedReachable;
    OrderedReachableInv(st);
    if AtRisk(st) {
      var es := EndsBadly(st);
      assert OrderedRuns(st, es);
    } else {
      forall es | OrderedRuns(st, es) && Runs(st, es) ensures !Missed(Exec(st, es)) {
        SafeForever(st, es);
      }
    }
  }
}
