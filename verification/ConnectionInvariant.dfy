/** The inductive invariant of the handshake, of operation 1 and of the fallback mode. */
module ConnectionInvariant {
  import opened Common
  import opened ConnectionMachine

  predicate InProgressCall(pc: Pc) {
    pc.Probe? || pc.ReceiveInfo? || pc.AwaitOwn? || pc.PostCheck?
  }

  /** Not between Start and the return from Wait. */
  predicate Inactive(x: Side) {
    x.pc.Absent? || x.pc.Idle? || (InProgressCall(x.pc) && x.pc.site.FromIdle?)
  }

  // ---- the handshake ----

  predicate HandshakeOk(x: Side, y: Side) {
    && (x.addr <==> y.hs.Matched?)
    && (x.addr && !x.pc.AwaitOwn? ==> x.hs.Matched?)
    && (x.pc.AwaitOwn? ==> x.addr)
    && (x.pc.ReceiveInfo? ==> !x.addr && y.hs.Visible?)
    && (x.kind.Rdma? ==> x.addr && !x.pc.AwaitOwn?)
    && (x.kind.Fallback? ==> !x.addr)
    && (x.pc.Absent? <==> x.hs.Unsent?)
  }

  /** Started operation 1, but not yet sent its payload. */
  predicate BeforeSend(x: Side) {
    x.pc.StartPost? || (InProgressCall(x.pc) && x.pc.site.AtStart?)
  }

  /** In the progress call of Wait, or in the rest of the sender's Wait loop. */
  predicate InSenderWait(pc: Pc) {
    (InProgressCall(pc) && pc.site.AtWait?) || pc.NoteMode? || pc.TestSend? || pc.DecideSend?
  }

  predicate InReceiverWait(pc: Pc) {
    pc.LoopTest? || pc.LoopProbe? || pc.PostIfNeeded? || pc.DecideRecv?
  }

  predicate SenderPcOk(st: State) {
    var x := st.s;
    && x.op == |x.log|
    && |x.buf| == |st.r.buf|
    && (x.op == 0 <==> Inactive(x) && x.kind.Searching?)
    && (x.pc.Absent? ==> x.kind.Searching?)
    && (x.kind.Searching? && x.op == 1 ==>
          InProgressCall(x.pc) || x.pc.StartPost? || x.pc.Started? || InSenderWait(x.pc))
    && (x.kind.Rdma? ==> x.op == 1)
    && (x.kind.Searching? ==> x.op <= 1)
    && (x.kind.Rdma? ==> x.pc.Idle? || InSenderWait(x.pc))
    && (x.kind.Fallback? ==> x.op >= 1 && (x.pc.Idle? || x.pc.Started? || x.pc.MpiWait?))
    && ((x.pc.TestSend? || x.pc.DecideSend?) && x.kind.Searching? ==> !x.addr)
    && !x.pc.LoopTest? && !x.pc.LoopProbe? && !x.pc.PostIfNeeded? && !x.pc.DecideRecv? && !x.pc.TestRecv?
    // what has been sent
    && |st.sent| == (if x.op == 1 && x.kind.Searching? && BeforeSend(x) then 0 else x.op)
    && (forall k | 0 <= k < |st.sent| :: st.sent[k] == x.log[k])
    && (forall k | 0 <= k < |x.log| :: |x.log[k]| == |x.buf|)
    && (!Inactive(x) ==> x.op >= 1 && x.buf == x.log[x.op - 1])
    && (x.backup.Some? ==> x.backup.value + 1 == x.op == |st.sent|)
    && (x.pc.DecideSend? || Inactive(x) || BeforeSend(x) ==> x.backup == None)
    && (x.kind.Searching? && !x.pc.DecideSend? && !Inactive(x) && !BeforeSend(x) ==> x.backup == Some(0))
  }

  predicate CountsOk(st: State) {
    st.landed <= st.matched <= st.posted && st.matched <= st.arrived <= |st.sent|
  }

  predicate ReceiverPcOk(st: State) {
    var x := st.r;
    && (x.op == 0 <==> Inactive(x) && x.kind.Searching?)
    && (x.pc.Absent? ==> x.kind.Searching?)
    && (x.kind.Searching? ==> x.op <= 1)
    && (x.kind.Rdma? ==> x.op == 1 && (x.pc.Idle? || x.pc.TestRecv?))
    && (x.kind.Fallback? ==>
          x.op >= 1 && (x.pc.Idle? || x.pc.Started? || x.pc.MpiWait? || (x.pc.TestRecv? && x.op == 1)))
    && !x.pc.NoteMode? && !x.pc.TestSend? && !x.pc.DecideSend?
    && (x.pc.TestRecv? ==> !x.kind.Searching?)
    // what has been posted
    && (x.kind.Searching? ==>
          || x.pc.Idle? || x.pc.Absent? || InProgressCall(x.pc) || x.pc.StartPost? || x.pc.Started?
          || InReceiverWait(x.pc))
    && (x.kind.Searching? ==> st.posted <= x.op && (x.backup == if st.posted == 0 then None else Some(0)))
    && (x.pc.DecideRecv? ==> st.posted == 1)
    && (!x.kind.Searching? ==> st.posted == x.op)
    && (x.backup.Some? ==> x.backup.value + 1 == st.posted)
    && (x.pc.TestRecv? ==> x.backup.Some?)
    && (!x.kind.Searching? && x.backup == None ==> st.landed == st.posted)
    && (Inactive(x) ==> st.landed == st.posted && x.backup == None)
    && (!Inactive(x) ==> st.landed + 1 >= x.op)
    && (x.pc.StartPost? && !x.addr ==> x.backup == None)
    && (InProgressCall(x.pc) && x.pc.site.AtStart? ==> x.backup == None)
  }

  predicate ReceiverDataOk(st: State) {
    var x := st.r;
    && |x.log| == (if Inactive(x) then x.op else x.op - 1)
    && |x.log| <= st.landed <= |st.sent|
    && (forall k | 0 <= k < |x.log| :: x.log[k] == st.sent[k])
    && (!Inactive(x) && st.landed == x.op ==> x.buf == st.sent[x.op - 1])
  }

  predicate Inv(st: State) {
    && HandshakeOk(st.s, st.r) && HandshakeOk(st.r, st.s)
    && CountsOk(st) && SenderPcOk(st) && ReceiverPcOk(st) && ReceiverDataOk(st)
  }

  lemma InitInv(st: State)
    requires Initial(st)
    ensures Inv(st)
  {}

  predicate Handshakes(st: State) {
    HandshakeOk(st.s, st.r) && HandshakeOk(st.r, st.s)
  }

  predicate ReceiverUntouched(st: State, st': State) {
    && st'.r == st.r.(hs := st'.r.hs) && st.sent <= st'.sent
    && st'.arrived == st.arrived && st'.posted == st.posted
    && st'.matched == st.matched && st'.landed == st.landed
  }

  predicate SenderUntouched(st: State, st': State) {
    st'.s == st.s.(hs := st'.s.hs) && st'.sent == st.sent && |st'.r.buf| == |st.r.buf|
  }

  // ---- the handshake, event by event ----

  lemma HandshakeRunSender(st: State)
    requires Handshakes(st) && SenderPcOk(st) && CanRun(st, Sender)
    ensures Handshakes(RunStep(st, Sender))
  {}

  lemma HandshakeProgressReceiver(st: State)
    requires Handshakes(st) && ReceiverPcOk(st) && CanRun(st, Receiver) && InProgressCall(st.r.pc)
    ensures Handshakes(RunStep(st, Receiver))
  {}

  lemma HandshakeRunReceiver(st: State)
    requires Handshakes(st) && ReceiverPcOk(st) && CanRun(st, Receiver)
    ensures Handshakes(RunStep(st, Receiver))
  {
    if InProgressCall(st.r.pc) {
      HandshakeProgressReceiver(st);
    }
  }

  lemma HandshakeOfUser(st: State, e: Event)
    requires Handshakes(st) && Enabled(st, e) && (e.Init? || e.Start? || e.CallWait? || e.Progress?)
    ensures Handshakes(Apply(st, e))
  {}

  lemma HandshakeOther(st: State, e: Event)
    requires Handshakes(st) && Enabled(st, e) && !e.Run?
    ensures Handshakes(Apply(st, e))
  {
    if e.Init? || e.Start? || e.CallWait? || e.Progress? {
      HandshakeOfUser(st, e);
    }
  }

  // ---- the sender's part ----

  /** The sender's part only depends on the sender and on what has been sent. */
  lemma SenderFrame(st: State, st': State)
    requires SenderPcOk(st)
    requires SenderUntouched(st, st')
    ensures SenderPcOk(st')
  {}

  lemma SenderRunProbe(st: State)
    requires SenderPcOk(st) && CanRun(st, Sender) && (st.s.pc.Probe? || st.s.pc.AwaitOwn?)
    ensures SenderPcOk(RunStep(st, Sender))
  {}

  lemma SenderRunReceive(st: State)
    requires SenderPcOk(st) && CanRun(st, Sender) && st.s.pc.ReceiveInfo?
    ensures SenderPcOk(RunStep(st, Sender))
  {}

  lemma SenderRunPostCheck(st: State)
    requires SenderPcOk(st) && CanRun(st, Sender) && st.s.pc.PostCheck?
    ensures SenderPcOk(RunStep(st, Sender))
  {}

  lemma SenderRunPost(st: State)
    requires SenderPcOk(st) && CanRun(st, Sender) && (st.s.pc.StartPost? || st.s.pc.MpiWait?)
    ensures SenderPcOk(RunStep(st, Sender))
  {}

  lemma SenderRunWait(st: State)
    requires SenderPcOk(st) && CanRun(st, Sender) && (st.s.pc.NoteMode? || st.s.pc.TestSend? || st.s.pc.DecideSend?)
    ensures SenderPcOk(RunStep(st, Sender))
  {}

  lemma SenderStart(st: State)
    requires SenderPcOk(st) && Enabled(st, Start(Sender))
    ensures SenderPcOk(StartStep(st, Sender))
  {}

  lemma SenderOther(st: State, e: Event)
    requires SenderPcOk(st) && Enabled(st, e)
    requires e in {Init(Sender), CallWait(Sender), Progress(Sender)} || (e.Write? && e.role.Sender?)
    ensures SenderPcOk(Apply(st, e))
  {}

  // ---- the receiver's part ----

  predicate ReceiverOk(st: State) {
    CountsOk(st) && ReceiverPcOk(st) && ReceiverDataOk(st)
  }

  /** The receiver's part survives whatever only adds a message. */
  lemma ReceiverFrame(st: State, st': State)
    requires ReceiverOk(st)
    requires ReceiverUntouched(st, st')
    ensures ReceiverOk(st')
  {}

  lemma ReceiverRunProgress(st: State)
    requires ReceiverOk(st) && CanRun(st, Receiver) && InProgressCall(st.r.pc)
    ensures ReceiverOk(RunStep(st, Receiver))
  {}

  lemma ReceiverRunStart(st: State)
    requires ReceiverOk(st) && CanRun(st, Receiver) && st.r.pc.StartPost?
    ensures ReceiverOk(RunStep(st, Receiver))
  {}

  lemma ReceiverRunLoop(st: State)
    requires ReceiverOk(st) && CanRun(st, Receiver) && (st.r.pc.LoopTest? || st.r.pc.LoopProbe?)
    ensures ReceiverOk(RunStep(st, Receiver))
  {}

  lemma ReceiverRunPost(st: State)
    requires ReceiverOk(st) && CanRun(st, Receiver) && (st.r.pc.PostIfNeeded? || st.r.pc.DecideRecv?)
    ensures ReceiverOk(RunStep(st, Receiver))
  {}

  lemma ReceiverRunReturn(st: State)
    requires ReceiverOk(st) && CanRun(st, Receiver) && (st.r.pc.TestRecv? || st.r.pc.MpiWait?)
    ensures ReceiverOk(RunStep(st, Receiver))
  {}

  lemma ReceiverStart(st: State)
    requires ReceiverOk(st) && Enabled(st, Start(Receiver))
    ensures ReceiverOk(StartStep(st, Receiver))
  {}

  lemma ReceiverOther(st: State, e: Event)
    requires ReceiverOk(st) && Enabled(st, e)
    requires e in {Init(Receiver), CallWait(Receiver), Progress(Receiver)} || (e.Write? && e.role.Receiver?)
    ensures ReceiverOk(Apply(st, e))
  {}

  lemma ReceiverPayload(st: State, e: Event)
    requires ReceiverOk(st) && Enabled(st, e) && (e.PayloadArrives? || e.Match? || e.Land?)
    ensures ReceiverOk(Apply(st, e))
  {}

  // ---- the invariant over whole runs ----

  lemma SenderRunFrame(st: State)
    requires SenderPcOk(st) && CanRun(st, Sender)
    ensures ReceiverUntouched(st, RunStep(st, Sender))
  {}

  lemma ReceiverRunFrame(st: State)
    requires ReceiverPcOk(st) && CanRun(st, Receiver)
    ensures SenderUntouched(st, RunStep(st, Receiver))
  {}

  lemma RunSenderInv(st: State)
    requires Inv(st) && CanRun(st, Sender)
    ensures Inv(RunStep(st, Sender))
  {
    hide HandshakeOk, SenderPcOk, CountsOk, ReceiverPcOk, ReceiverDataOk, RunStep;
    HandshakeRunSender(st);
    SenderRunFrame(st);
    ReceiverFrame(st, RunStep(st, Sender));
    SenderPcs(st);
    if st.s.pc.PostCheck? {
      SenderRunPostCheck(st);
    } else if st.s.pc.ReceiveInfo? {
      SenderRunReceive(st);
    } else if InProgressCall(st.s.pc) {
      SenderRunProbe(st);
    } else if st.s.pc.StartPost? || st.s.pc.MpiWait? {
      SenderRunPost(st);
    } else {
      SenderRunWait(st);
    }
  }

  lemma RunReceiverInv(st: State)
    requires Inv(st) && CanRun(st, Receiver)
    ensures Inv(RunStep(st, Receiver))
  {
    hide HandshakeOk, SenderPcOk, CountsOk, ReceiverPcOk, ReceiverDataOk, RunStep;
    HandshakeRunReceiver(st);
    ReceiverRunFrame(st);
    SenderFrame(st, RunStep(st, Receiver));
    ReceiverPcs(st);
    if InProgressCall(st.r.pc) {
      ReceiverRunProgress(st);
    } else if st.r.pc.StartPost? {
      ReceiverRunStart(st);
    } else if st.r.pc.LoopTest? || st.r.pc.LoopProbe? {
      ReceiverRunLoop(st);
    } else if st.r.pc.PostIfNeeded? || st.r.pc.DecideRecv? {
      ReceiverRunPost(st);
    } else {
      ReceiverRunReturn(st);
    }
  }

  lemma SenderPcs(st: State)
    requires SenderPcOk(st) && CanRun(st, Sender)
    ensures InProgressCall(st.s.pc) || st.s.pc.StartPost? || st.s.pc.MpiWait?
         || st.s.pc.NoteMode? || st.s.pc.TestSend? || st.s.pc.DecideSend?
  {}

  lemma ReceiverPcs(st: State)
    requires ReceiverPcOk(st) && CanRun(st, Receiver)
    ensures InProgressCall(st.r.pc) || st.r.pc.StartPost? || st.r.pc.LoopTest? || st.r.pc.LoopProbe?
         || st.r.pc.PostIfNeeded? || st.r.pc.DecideRecv? || st.r.pc.TestRecv? || st.r.pc.MpiWait?
  {}

  lemma LandedLength(st: State)
    requires Inv(st) && Enabled(st, Land)
    ensures |st.sent[st.landed]| == |st.r.buf|
  {}

  lemma SenderEventFrame(st: State, e: Event)
    requires Enabled(st, e) && !e.Run?
    requires match e case PayloadArrives => false case Match => false case Land => false case _ => e.role.Sender?
    ensures ReceiverUntouched(st, Apply(st, e))
  {}

  lemma ReceiverEventFrame(st: State, e: Event)
    requires Inv(st) && Enabled(st, e) && !e.Run?
    requires match e case PayloadArrives => true case Match => true case Land => true case _ => e.role.Receiver?
    ensures SenderUntouched(st, Apply(st, e))
  {
    hide HandshakeOk, ReceiverPcOk, ReceiverDataOk;
  }

  lemma ArrivalFrame(st: State, role: Role)
    requires Enabled(st, HandshakeArrives(role))
    ensures var st' := Apply(st, HandshakeArrives(role)); SenderUntouched(st, st') && ReceiverUntouched(st, st')
  {}

  lemma PayloadInv(st: State, e: Event)
    requires Inv(st) && Enabled(st, e) && (e.PayloadArrives? || e.Match? || e.Land?)
    ensures Inv(Apply(st, e))
  {
    hide HandshakeOk, SenderPcOk, CountsOk, ReceiverPcOk, ReceiverDataOk, Apply;
    HandshakeOther(st, e);
    ReceiverEventFrame(st, e);
    SenderFrame(st, Apply(st, e));
    ReceiverPayload(st, e);
  }

  lemma UserInv(st: State, e: Event)
    requires Inv(st) && Enabled(st, e)
    requires e.Init? || e.Start? || e.CallWait? || e.Write? || e.Progress?
    ensures Inv(Apply(st, e))
  {
    hide HandshakeOk, SenderPcOk, CountsOk, ReceiverPcOk, ReceiverDataOk, Apply, Enabled;
    HandshakeOther(st, e);
    if e.role.Sender? {
      SenderEventFrame(st, e);
      ReceiverFrame(st, Apply(st, e));
      SenderUser(st, e);
    } else {
      ReceiverEventFrame(st, e);
      SenderFrame(st, Apply(st, e));
      ReceiverUser(st, e);
    }
  }

  lemma SenderUser(st: State, e: Event)
    requires SenderPcOk(st) && Enabled(st, e)
    requires (e.Init? || e.Start? || e.CallWait? || e.Write? || e.Progress?) && e.role.Sender?
    ensures SenderPcOk(Apply(st, e))
  {
    hide SenderPcOk;
    if e.Start? {
      SenderStart(st);
    } else {
      SenderOther(st, e);
    }
  }

  lemma ReceiverUser(st: State, e: Event)
    requires ReceiverOk(st) && Enabled(st, e)
    requires (e.Init? || e.Start? || e.CallWait? || e.Write? || e.Progress?) && e.role.Receiver?
    ensures ReceiverOk(Apply(st, e))
  {
    hide ReceiverOk;
    if e.Start? {
      ReceiverStart(st);
    } else {
      ReceiverOther(st, e);
    }
  }

  /** Every event keeps the invariant. */
  lemma StepInv(st: State, e: Event)
    requires Inv(st) && Enabled(st, e)
    ensures Inv(Apply(st, e))
  {
    hide HandshakeOk, SenderPcOk, CountsOk, ReceiverPcOk, ReceiverDataOk, RunStep;
    if e == Run(Sender) {
      RunSenderInv(st);
    } else if e == Run(Receiver) {
      RunReceiverInv(st);
    } else if e.HandshakeArrives? {
      HandshakeOther(st, e);
      ArrivalFrame(st, e.role);
      SenderFrame(st, Apply(st, e));
      ReceiverFrame(st, Apply(st, e));
    } else if e.PayloadArrives? || e.Match? || e.Land? {
      PayloadInv(st, e);
    } else {
      UserInv(st, e);
    }
  }

  lemma {:induction false} ExecInv(st: State, es: seq<Event>)
    requires Inv(st) && Runs(st, es)
    ensures Inv(Exec(st, es))
    decreases |es|
  {
    if es != [] {
      StepInv(st, es[0]);
      ExecInv(Apply(st, es[0]), es[1..]);
    }
  }

  lemma ReachableInv(st: State)
    requires Reachable(st)
    ensures Inv(st)
  {
    var st0, es :| Initial(st0) && Runs(st0, es) && st == Exec(st0, es);
    InitInv(st0);
    ExecInv(st0, es);
  }

  lemma {:induction false} Snoc(st: State, es: seq<Event>, e: Event)
    requires Runs(st, es) && Enabled(Exec(st, es), e)
    ensures Runs(st, es + [e]) && Exec(st, es + [e]) == Apply(Exec(st, es), e)
    decreases |es|
  {
    if es == [] {
      assert Runs(Apply(st, e), []) && ([] + [e])[1..] == [];
    } else {
      Snoc(Apply(st, es[0]), es[1..], e);
      assert (es + [e])[1..] == es[1..] + [e];
    }
  }

  lemma ReachableStep(st: State, e: Event)
    requires Reachable(st) && Enabled(st, e)
    ensures Reachable(Apply(st, e))
  {
    var st0, es :| Initial(st0) && Runs(st0, es) && st == Exec(st0, es);
    Snoc(st0, es, e);
  }
}
