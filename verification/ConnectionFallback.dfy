/**
  The first Wait of a receiver that does not see the handshake: it ends in fallback mode exactly when
  a payload is there to be received, and fallback operations then deliver.
 */
module ConnectionFallback {
  import opened Common
  import opened ConnectionMachine
  import opened ConnectionInvariant
  import opened ConnectionTheorems

  /** In the loop of the receiver's first Wait. */
  predicate InLoop(pc: Pc) {
    pc.LoopTest? || pc.LoopProbe? || (InProgressCall(pc) && pc.site.AtWait?)
  }

  /** ... without the handshake of the sender, which is still travelling. */
  predicate Searches(st: State) {
    InLoop(st.r.pc) && st.s.hs.Travelling?
  }

  // ---- what the loop has seen ----

  /** The payload the loop has seen is the one that the next receive would get. */
  predicate SeenInv(st: State) {
    st.r.seen && InLoop(st.r.pc) && !st.r.addr ==> st.posted < st.arrived
  }

  lemma SeenRunSender(st: State)
    requires SenderPcOk(st) && SeenInv(st) && CanRun(st, Sender)
    ensures SeenInv(RunStep(st, Sender))
  {
    SenderRunFrame(st);
    hide RunStep;
  }

  lemma SeenRunReceiver(st: State)
    requires ReceiverPcOk(st) && SeenInv(st) && CanRun(st, Receiver)
    ensures SeenInv(RunStep(st, Receiver))
  {}

  lemma SeenOther(st: State, e: Event)
    requires SeenInv(st) && Enabled(st, e) && !e.Run?
    ensures SeenInv(Apply(st, e))
  {}

  lemma SeenStep(st: State, e: Event)
    requires Inv(st) && SeenInv(st) && Enabled(st, e)
    ensures SeenInv(Apply(st, e))
  {
    hide SeenInv, RunStep;
    if e == Run(Sender) {
      SeenRunSender(st);
    } else if e == Run(Receiver) {
      SeenRunReceiver(st);
    } else {
      SeenOther(st, e);
    }
  }

  lemma {:induction false} SeenExec(st: State, es: seq<Event>)
    requires Inv(st) && SeenInv(st) && Runs(st, es)
    ensures Inv(Exec(st, es)) && SeenInv(Exec(st, es))
    decreases |es|
  {
    if es != [] {
      hide Inv, SeenInv, Apply, Enabled;
      SeenStep(st, es[0]);
      StepInv(st, es[0]);
      SeenExec(Apply(st, es[0]), es[1..]);
    }
  }

  lemma ReachableSeen(st: State)
    requires Reachable(st)
    ensures Inv(st) && SeenInv(st)
  {
    var st0, es :| Initial(st0) && Runs(st0, es) && st == Exec(st0, es);
    InitInv(st0);
    SeenExec(st0, es);
  }

  // ---- without a payload the loop goes on ----

  /** The handshake of the sender never becomes visible. */
  predicate NoHandshake(es: seq<Event>) {
    forall k | 0 <= k < |es| :: es[k] != HandshakeArrives(Sender)
  }

  lemma NoHandshakeTail(es: seq<Event>)
    requires NoHandshake(es) && es != []
    ensures es[0] != HandshakeArrives(Sender) && NoHandshake(es[1..])
  {}

  /** Since a state with `p` receives posted: still in the loop, or a further payload has come. */
  predicate Held(st: State, p: nat) {
    && st.s.hs.Travelling?
    && (st.arrived > p || (InLoop(st.r.pc) && st.posted == p && !st.r.seen))
  }

  lemma HeldRunSender(st: State, p: nat)
    requires Handshakes(st) && SenderPcOk(st) && Held(st, p) && CanRun(st, Sender)
    ensures Held(RunStep(st, Sender), p)
  {}

  lemma HeldRunReceiver(st: State, p: nat)
    requires Handshakes(st) && ReceiverPcOk(st) && Held(st, p) && CanRun(st, Receiver)
    ensures Held(RunStep(st, Receiver), p)
  {}

  lemma HeldOther(st: State, p: nat, e: Event)
    requires Handshakes(st) && Held(st, p) && Enabled(st, e) && !e.Run? && e != HandshakeArrives(Sender)
    ensures Held(Apply(st, e), p)
  {}

  lemma HeldStep(st: State, p: nat, e: Event)
    requires Inv(st) && Held(st, p) && Enabled(st, e) && e != HandshakeArrives(Sender)
    ensures Held(Apply(st, e), p)
  {
    hide Held, RunStep;
    if e == Run(Sender) {
      HeldRunSender(st, p);
    } else if e == Run(Receiver) {
      HeldRunReceiver(st, p);
    } else {
      HeldOther(st, p, e);
    }
  }

  lemma {:induction false} HeldExec(st: State, p: nat, es: seq<Event>)
    requires Inv(st) && Held(st, p) && Runs(st, es) && NoHandshake(es)
    ensures Inv(Exec(st, es)) && Held(Exec(st, es), p)
    decreases |es|
  {
    if es != [] {
      hide Inv, Held, Apply, Enabled, NoHandshake;
      NoHandshakeTail(es);
      HeldStep(st, p, es[0]);
      StepInv(st, es[0]);
      HeldExec(Apply(st, es[0]), p, es[1..]);
    }
  }

  // ---- with one it ends ----

  /** Statements of the receiver and the transfer of messages that are there; nothing new arrives. */
  predicate Alone(es: seq<Event>) {
    forall k | 0 <= k < |es| :: es[k] == Run(Receiver) || es[k].Match? || es[k].Land?
  }

  lemma AloneMeansNoHandshake(es: seq<Event>)
    requires Alone(es)
    ensures NoHandshake(es)
  {}

  /** From the loop to the return from Wait, in fallback mode. */
  predicate FallingBack(st: State) {
    && Inv(st) && SeenInv(st) && st.s.hs.Travelling? && st.r.op == 1
    && (InLoop(st.r.pc) ==> st.posted < st.arrived)
    && (InLoop(st.r.pc) || st.r.pc.PostIfNeeded? || st.r.pc.DecideRecv? || st.r.pc.TestRecv? || st.r.pc.Idle?)
    && st.arrived > 0
  }

  function LoopWeight(x: Side): nat {
    match x.pc
    case Probe(_) => if x.seen then 8 else 12
    case PostCheck(_) => if x.seen then 7 else 11
    case LoopTest => if x.seen then 6 else 10
    case LoopProbe => 9
    case PostIfNeeded => 3
    case DecideRecv => 2
    case TestRecv => 1
    case _ => 0
  }

  function Distance(st: State): nat {
    LoopWeight(st.r) + (if st.matched == 0 then 1 else 0) + (if st.landed == 0 then 1 else 0)
  }

  function NextAlone(st: State): Event {
    if st.r.pc.TestRecv? && st.matched == 0 then Match
    else if st.r.pc.TestRecv? && st.landed == 0 then Land
    else Run(Receiver)
  }

  lemma AloneEnabled(st: State)
    requires FallingBack(st) && !st.r.pc.Idle?
    ensures Enabled(st, NextAlone(st))
  {
    hide SenderPcOk;
  }

  lemma AloneRun(st: State)
    requires FallingBack(st) && !st.r.pc.Idle? && NextAlone(st) == Run(Receiver) && CanRun(st, Receiver)
    ensures var st' := RunStep(st, Receiver);
      && Distance(st') < Distance(st) && st'.s.hs.Travelling? && st'.r.op == 1 && st'.arrived > 0
      && (InLoop(st'.r.pc) ==> st'.posted < st'.arrived)
      && (InLoop(st'.r.pc) || st'.r.pc.PostIfNeeded? || st'.r.pc.DecideRecv? || st'.r.pc.TestRecv? || st'.r.pc.Idle?)
  {
    hide SenderPcOk, ReceiverDataOk;
  }

  lemma AloneKeeps(st: State)
    requires FallingBack(st) && !st.r.pc.Idle? && Enabled(st, NextAlone(st))
    ensures FallingBack(Apply(st, NextAlone(st))) && Distance(Apply(st, NextAlone(st))) < Distance(st)
    ensures Apply(st, NextAlone(st)).sent == st.sent
  {
    StepInv(st, NextAlone(st));
    SeenStep(st, NextAlone(st));
    hide Inv, SeenInv;
    if NextAlone(st) == Run(Receiver) {
      AloneRun(st);
      ReceiverSendsNothing(st);
      hide RunStep, Distance;
    }
  }

  lemma ReceiverSendsNothing(st: State)
    requires Inv(st) && CanRun(st, Receiver)
    ensures RunStep(st, Receiver).sent == st.sent
  {
    ReceiverRunFrame(st);
    hide RunStep;
  }

  lemma {:induction false} FallsBack(st: State) returns (es: seq<Event>)
    requires FallingBack(st)
    ensures Runs(st, es) && Alone(es) && FallingBack(Exec(st, es)) && Exec(st, es).r.pc.Idle?
    ensures Exec(st, es).sent == st.sent
    decreases Distance(st)
  {
    hide FallingBack, NextAlone, Distance, Apply, Enabled;
    es := [];
    if !st.r.pc.Idle? {
      var e := NextAlone(st);
      AloneEnabled(st);
      AloneKeeps(st);
      NextIsAlone(st);
      var rest := FallsBack(Apply(st, e));
      es := [e] + rest;
      assert es[1..] == rest;
    }
  }

  lemma NextIsAlone(st: State)
    ensures Alone([NextAlone(st)])
  {}

  /** Wait can return in fallback mode, with the first payload, although nothing new arrives. */
  ghost predicate CanFallBack(st: State) {
    exists es :: Runs(st, es) && Alone(es) && FellBack(Exec(st, es), st.sent)
  }

  predicate FellBack(st: State, sent: seq<Buffer>) {
    Settled(st.r) && st.r.kind.Fallback? && st.r.op == 1 && |sent| > 0 && st.r.log == [sent[0]]
  }

  lemma IdleFellBack(st: State)
    requires FallingBack(st) && st.r.pc.Idle?
    ensures FellBack(st, st.sent)
  {}

  lemma SettledInFallback(st: State)
    requires Inv(st) && st.s.hs.Travelling? && Settled(st.r)
    ensures st.r.kind.Fallback? && |st.r.log| >= 1 && |st.sent| >= 1 && st.s.op >= 1 && |st.s.log| == st.s.op
    ensures st.r.log[0] == st.sent[0] == st.s.log[0]
  {}

  lemma StartsFallingBack(st: State)
    requires Inv(st) && SeenInv(st) && Searches(st) && st.posted < st.arrived
    ensures FallingBack(st)
  {}

  lemma StartsHeld(st: State)
    requires Inv(st) && SeenInv(st) && Searches(st) && st.posted >= st.arrived
    ensures Held(st, st.posted)
  {}

  /**
    A receiver in the loop of its first Wait, while the handshake is travelling. By itself it can leave
    Wait exactly when there is a payload that no posted receive will take, and it then returns that
    payload in fallback mode. However long the handshake travels and whatever else happens, Wait returns
    only after such a payload has become visible, and always in fallback mode.
   */
  lemma WaitFallsBackExactly(st: State)
    requires Reachable(st) && Searches(st)
    ensures CanFallBack(st) <==> st.posted < st.arrived
    ensures forall es | Runs(st, es) && NoHandshake(es) && Settled(Exec(st, es).r) ::
      && Exec(st, es).arrived > st.posted && Exec(st, es).r.kind.Fallback?
      && |Exec(st, es).r.log| >= 1 && |Exec(st, es).s.log| >= 1 && Exec(st, es).r.log[0] == Exec(st, es).s.log[0]
  {
    ReachableSeen(st);
    hide Reachable, Inv, SeenInv, Searches, Held, FallingBack, NoHandshake, Settled, FellBack, Alone;
    if st.posted < st.arrived {
      StartsFallingBack(st);
      var es := FallsBack(st);
      IdleFellBack(Exec(st, es));
      assert CanFallBack(st);
    } else {
      StartsHeld(st);
    }
    forall es | Runs(st, es) && NoHandshake(es) && Settled(Exec(st, es).r)
      ensures var end := Exec(st, es);
        && end.arrived > st.posted && end.r.kind.Fallback?
        && |end.r.log| >= 1 && |end.s.log| >= 1 && end.r.log[0] == end.s.log[0]
    {
      ReturnsLate(st, es);
    }
    if CanFallBack(st) {
      var es :| Runs(st, es) && Alone(es) && FellBack(Exec(st, es), st.sent);
      AloneMeansNoHandshake(es);
      AloneArrivals(st, es);
      FellBackIsSettled(Exec(st, es), st.sent);
    }
  }

  lemma FellBackIsSettled(st: State, sent: seq<Buffer>)
    requires FellBack(st, sent)
    ensures Settled(st.r)
  {}

  lemma ReturnsLate(st: State, es: seq<Event>)
    requires Inv(st) && SeenInv(st) && Searches(st)
    requires Runs(st, es) && NoHandshake(es) && Settled(Exec(st, es).r)
    ensures var end := Exec(st, es);
      && end.arrived > st.posted && end.r.kind.Fallback?
      && |end.r.log| >= 1 && |end.s.log| >= 1 && end.r.log[0] == end.s.log[0]
  {
    if st.posted >= st.arrived {
      StartsHeld(st);
    }
    assert Held(st, st.posted);
    HeldExec(st, st.posted, es);
    SettledInFallback(Exec(st, es));
  }

  lemma {:induction false} AloneArrivals(st: State, es: seq<Event>)
    requires Runs(st, es) && Alone(es)
    ensures Exec(st, es).arrived == st.arrived
    decreases |es|
  {
    if es != [] {
      assert es[0] == Run(Receiver) || es[0].Match? || es[0].Land?;
      assert Alone(es[1..]);
      ArrivalsStay(st, es[0]);
      hide Alone, Apply, Enabled;
      AloneArrivals(Apply(st, es[0]), es[1..]);
    }
  }

  lemma ArrivalsStay(st: State, e: Event)
    requires Enabled(st, e) && (e == Run(Receiver) || e.Match? || e.Land?)
    ensures Apply(st, e).arrived == st.arrived
  {}

  // ---- a connected receiver has posted ----

  /** From the end of the progress call that has connected it on, an active receiver has its receive posted. */
  predicate PostedInv(st: State) {
    st.r.op == 1 && st.r.addr && !st.r.pc.AwaitOwn? && !st.r.pc.PostCheck? && st.r.pc != Probe(AtStart)
    ==> st.posted == 1
  }

  lemma PostedRunSender(st: State)
    requires Handshakes(st) && SenderPcOk(st) && PostedInv(st) && CanRun(st, Sender)
    ensures PostedInv(RunStep(st, Sender))
  {
    SenderRunFrame(st);
    SenderSparesConnection(st);
    hide RunStep, SenderPcOk;
  }

  lemma SenderSparesConnection(st: State)
    requires CanRun(st, Sender)
    ensures RunStep(st, Sender).r.addr == st.r.addr
  {}

  lemma PostedRunReceiver(st: State)
    requires ReceiverPcOk(st) && PostedInv(st) && CanRun(st, Receiver)
    ensures PostedInv(RunStep(st, Receiver))
  {}

  lemma PostedOther(st: State, e: Event)
    requires ReceiverPcOk(st) && HandshakeOk(st.r, st.s) && PostedInv(st) && Enabled(st, e) && !e.Run?
    ensures PostedInv(Apply(st, e))
  {}

  lemma PostedStep(st: State, e: Event)
    requires Inv(st) && PostedInv(st) && Enabled(st, e)
    ensures PostedInv(Apply(st, e))
  {
    hide PostedInv, RunStep;
    if e == Run(Sender) {
      PostedRunSender(st);
    } else if e == Run(Receiver) {
      PostedRunReceiver(st);
    } else {
      PostedOther(st, e);
    }
  }

  lemma {:induction false} PostedExec(st: State, es: seq<Event>)
    requires Inv(st) && PostedInv(st) && Runs(st, es)
    ensures PostedInv(Exec(st, es))
    decreases |es|
  {
    if es != [] {
      hide Inv, PostedInv, Apply, Enabled;
      PostedStep(st, es[0]);
      StepInv(st, es[0]);
      PostedExec(Apply(st, es[0]), es[1..]);
    }
  }

  /**
    A receiver in operation 1 whose progress call, Start or Wait has connected it has its receive posted
    as soon as that call is over, so the sender need not wait for the receiver's Wait. In particular the
    later posting in Start, guarded by a connection and no backup request, never happens.
   */
  lemma ConnectedHasPosted(st: State)
    requires Reachable(st) && st.r.op == 1 && st.r.addr && (st.r.pc.Started? || st.r.pc.StartPost? || st.r.pc.LoopTest?)
    ensures st.posted == 1 && (st.r.pc.StartPost? ==> st.r.backup != None)
  {
    var st0, es :| Initial(st0) && Runs(st0, es) && st == Exec(st0, es);
    InitInv(st0);
    PostedExec(st0, es);
    ReachableInv(st);
  }

  // ---- a handshake that is there is found ----

  /** The side is connected, or about to be. */
  predicate Connecting(st: State, role: Role, site: Site) {
    var x := st.Get(role);
    x.addr || ((x.pc == Probe(site) || x.pc == ReceiveInfo(site)) && st.Get(role.Peer()).hs.Visible?)
  }

  lemma ConnectingRun(st: State, role: Role, site: Site, runner: Role)
    requires Handshakes(st) && Connecting(st, role, site) && CanRun(st, runner)
    ensures Connecting(RunStep(st, runner), role, site)
  {}

  lemma ConnectingOther(st: State, role: Role, site: Site, e: Event)
    requires Handshakes(st) && Connecting(st, role, site) && Enabled(st, e) && !e.Run?
    ensures Connecting(Apply(st, e), role, site)
  {}

  lemma {:induction false} ConnectingExec(st: State, role: Role, site: Site, es: seq<Event>)
    requires Inv(st) && Connecting(st, role, site) && Runs(st, es)
    ensures Connecting(Exec(st, es), role, site)
    decreases |es|
  {
    if es != [] {
      StepInv(st, es[0]);
      hide SenderPcOk, ReceiverPcOk, ReceiverDataOk, CountsOk;
      if es[0].Run? {
        ConnectingRun(st, role, site, es[0].role);
      } else {
        ConnectingOther(st, role, site, es[0]);
      }
      hide Inv, Connecting, Apply, Enabled;
      ConnectingExec(Apply(st, es[0]), role, site, es[1..]);
    }
  }

  /**
    A call that probes while the handshake of the peer is there, from Start, from Wait or from the
    progress engine on behalf of an inactive or a started request, connects before it probes again or
    returns, whatever happens meanwhile.
   */
  lemma ProbeConnects(st: State, role: Role, es: seq<Event>)
    requires Reachable(st) && st.Get(role).pc.Probe? && st.Get(role.Peer()).hs.Visible? && Runs(st, es)
    ensures var x, pc := Exec(st, es).Get(role), st.Get(role).pc; x.addr || x.pc == pc || x.pc == ReceiveInfo(pc.site)
  {
    ReachableInv(st);
    ConnectingExec(st, role, st.Get(role).pc.site, es);
  }

  // ---- fallback operations happen, and deliver ----

  /** The receiver's Start has seen neither the handshake nor a payload. */
  function BothStartedBlind(b: Buffer, c: Buffer): State {
    SenderStarted(b, c).(r := Side(Started, 1, Searching, false, Travelling, None, false, c, []))
  }

  /** Its Wait has seen the payload, but no handshake. */
  function ReceiverSeesPayload(b: Buffer, c: Buffer): State {
    BothStartedBlind(b, c).(arrived := 1, r := Side(LoopTest, 1, Searching, false, Travelling, None, true, c, []))
  }

  function ReceiverFellBack(b: Buffer, c: Buffer): State {
    State(Side(Started, 1, Searching, false, Travelling, Some(0), false, b, [b]),
          Side(Idle, 1, Fallback, false, Travelling, None, true, b, [b]), [b], 1, 1, 1, 1, false)
  }

  function BothFellBack(b: Buffer, c: Buffer): State {
    ReceiverFellBack(b, c).(s := Side(Idle, 1, Fallback, false, Travelling, None, false, b, [b]))
  }

  function SecondDelivered(b: Buffer, d: Buffer): State {
    State(Side(Started, 2, Fallback, false, Travelling, Some(1), false, d, [b, d]),
          Side(Idle, 2, Fallback, false, Travelling, None, false, d, [b, d]), [b, d], 2, 2, 2, 2, false)
  }

  lemma ReachesBothStarted(b: Buffer, c: Buffer)
    requires |b| == |c|
    ensures Reachable(BothStartedBlind(b, c))
  {
    var st0, es1 := LeadsToSenderStarted(b, c);
    var es2 := LeadsToReceiverProbed(b, c);
    LeadsTrans(st0, es1, SenderStarted(b, c), es2, ReceiverProbed(b, c));
    assert Reachable(ReceiverProbed(b, c));
    hide Reachable, Leads;
    ReachableStep(ReceiverProbed(b, c), Run(Receiver));
  }

  lemma ReachesSeen(b: Buffer, c: Buffer)
    requires Reachable(BothStartedBlind(b, c))
    ensures Reachable(ReceiverSeesPayload(b, c))
  {
    hide Reachable;
    var st := BothStartedBlind(b, c);
    ReachableStep(st, PayloadArrives);
    var st1 := Apply(st, PayloadArrives);
    ReachableStep(st1, CallWait(Receiver));
    var st2 := Apply(st1, CallWait(Receiver));
    ReachableStep(st2, Run(Receiver));
    var st3 := Apply(st2, Run(Receiver));
    ReachableStep(st3, Run(Receiver));
    var st4 := Apply(st3, Run(Receiver));
    ReachableStep(st4, Run(Receiver));
    var st5 := Apply(st4, Run(Receiver));
    ReachableStep(st5, Run(Receiver));
    assert Apply(st5, Run(Receiver)) == ReceiverSeesPayload(b, c);
  }

  lemma ReachesReceiverFellBack(b: Buffer, c: Buffer)
    requires Reachable(ReceiverSeesPayload(b, c))
    ensures Reachable(ReceiverFellBack(b, c))
  {
    hide Reachable;
    var st := ReceiverSeesPayload(b, c);
    ReachableStep(st, Run(Receiver));
    var st1 := Apply(st, Run(Receiver));
    ReachableStep(st1, Run(Receiver));
    var st2 := Apply(st1, Run(Receiver));
    ReachableStep(st2, Match);
    var st3 := Apply(st2, Match);
    ReachableStep(st3, Land);
    var st4 := Apply(st3, Land);
    ReachableStep(st4, Run(Receiver));
    var st5 := Apply(st4, Run(Receiver));
    ReachableStep(st5, Run(Receiver));
    assert Apply(st5, Run(Receiver)) == ReceiverFellBack(b, c);
  }

  lemma ReachesBothFellBack(b: Buffer, c: Buffer)
    requires Reachable(ReceiverFellBack(b, c))
    ensures Reachable(BothFellBack(b, c))
  {
    hide Reachable;
    var st := ReceiverFellBack(b, c);
    ReachableStep(st, CallWait(Sender));
    var st1 := Apply(st, CallWait(Sender));
    ReachableStep(st1, Run(Sender));
    var st2 := Apply(st1, Run(Sender));
    ReachableStep(st2, Run(Sender));
    var st3 := Apply(st2, Run(Sender));
    ReachableStep(st3, Run(Sender));
    var st4 := Apply(st3, Run(Sender));
    ReachableStep(st4, Run(Sender));
    var st5 := Apply(st4, Run(Sender));
    ReachableStep(st5, Run(Sender));
    assert Apply(st5, Run(Sender)) == BothFellBack(b, c);
  }

  lemma ReachesSecondDelivered(b: Buffer, c: Buffer, d: Buffer)
    requires |b| == |c| == |d| && Reachable(BothFellBack(b, c))
    ensures Reachable(SecondDelivered(b, d))
  {
    hide Reachable;
    var st := BothFellBack(b, c);
    ReachableStep(st, Write(Sender, d));
    var st1 := Apply(st, Write(Sender, d));
    ReachableStep(st1, Event.Start(Sender));
    var st2 := Apply(st1, Event.Start(Sender));
    ReachableStep(st2, Event.Start(Receiver));
    var st3 := Apply(st2, Event.Start(Receiver));
    ReachableStep(st3, PayloadArrives);
    var st4 := Apply(st3, PayloadArrives);
    ReachableStep(st4, Match);
    var st5 := Apply(st4, Match);
    ReachableStep(st5, Land);
    var st6 := Apply(st5, Land);
    ReachableStep(st6, CallWait(Receiver));
    var st7 := Apply(st6, CallWait(Receiver));
    ReachableStep(st7, Run(Receiver));
    assert Apply(st7, Run(Receiver)) == SecondDelivered(b, d);
  }

  /**
    For all buffers, a run in which both sides end operation 1 in fallback mode and operation 2 then
    delivers the buffer the user has written in between.
   */
  lemma FallbackRun(b: Buffer, c: Buffer, d: Buffer) returns (st: State)
    requires |b| == |c| == |d|
    ensures Reachable(st) && Settled(st.s) && Settled(st.r) && st.s.kind.Fallback? && st.r.kind.Fallback?
    ensures st.r.op == st.s.op == 2 && st.r.log == [b, d]
  {
    hide Reachable;
    ReachesBothStarted(b, c);
    ReachesSeen(b, c);
    ReachesReceiverFellBack(b, c);
    ReachesBothFellBack(b, c);
    ReachesSecondDelivered(b, c, d);
    st := SecondDelivered(b, d);
    ReachableStep(st, CallWait(Sender));
    st := Apply(st, CallWait(Sender));
    ReachableStep(st, Run(Sender));
    st := Apply(st, Run(Sender));
  }
}
