/**
  Deadlock freedom of the RDMA phase: once both sides have started an operation, a program or network
  step is enabled until both Waits have returned, and each such step decreases a measure. Busy-wait
  iterations that find nothing change nothing, so they are not steps here.
 */
module RdmaLiveness {
  import opened Common
  import opened RdmaMachine
  import opened RdmaInvariant

  /** Steps of the library, the network and the program's call of Wait; not Start, not user writes. */
  predicate IsProgram(e: Event) {
    !e.Start? && !e.Write?
  }

  /** A side whose current operation can be completed without any further Start. */
  predicate Unfinished(st: State) {
    || (!st.s.pc.Idle? && st.s.op <= st.r.op)
    || (!st.r.pc.Idle? && st.r.op <= st.s.op)
  }

  // ---- a step is enabled ----

  lemma SomeDeliverable(role: Role, x: Side)
    requires SideOk(role, x) && x.net != map[]
    ensures exists k :: Deliverable(x.net, k)
  {
    if InFlight(x, x.annId) {
      if x.dataId.Some? && InFlight(x, x.dataId) {
        assert Deliverable(x.net, x.annId.value);
      } else {
        assert Deliverable(x.net, x.annId.value);
      }
    } else if InFlight(x, x.dataId) {
      assert Deliverable(x.net, x.dataId.value);
    } else {
      var k :| k in x.net;
      assert Deliverable(x.net, k);
    }
  }

  lemma NetworkStep(st: State, role: Role)
    requires SideOk(role, st.Get(role)) && st.Get(role).net != map[] && |st.s.buf| == |st.r.buf|
    ensures exists e :: IsProgram(e) && Enabled(st, e)
  {
    var x := st.Get(role);
    SomeDeliverable(role, x);
    var k :| Deliverable(x.net, k);
    if x.net[k].Put? {
      assert Enabled(st, Deliver(role, k));
    } else if i: nat :| i < |st.s.buf| && i !in x.net[k].done {
      if i in x.net[k].wire {
        assert Enabled(st, StoreByte(role, k, i));
      } else {
        assert Enabled(st, Fetch(role, k, i));
      }
    } else {
      assert Enabled(st, Retire(role, k));
    }
  }

  /** With nothing in flight, a side that is neither inactive nor spinning can take its next step. */
  lemma LocalStep(st: State, role: Role)
    requires SideOk(role, st.Get(role)) && st.Get(role).net == map[]
    requires !st.Get(role).pc.Idle? && !st.Get(role).pc.Spin?
    ensures exists e :: IsProgram(e) && Enabled(st, e)
  {
    if st.Get(role).pc.Started? {
      assert Enabled(st, CallWait(role));
    } else {
      assert Enabled(st, Run(role));
    }
  }

  /** With nothing in flight, a receiver that spins in an operation the sender has started is let go. */
  lemma ReceiverSpinEnds(x: Side, y: Side, moves: seq<Move>)
    requires PairOk(Receiver, x, y, moves) && x.net == map[] && y.net == map[]
    requires x.pc.Spin? && x.op <= y.op && (y.pc.Idle? || y.pc.Spin?)
    ensures Advance(Receiver, x) != x
  {}

  /** ... and so is a sender once the receiver is past the operation. */
  lemma SenderSpinEnds(x: Side, y: Side, moves: seq<Move>)
    requires PairOk(Sender, x, y, moves) && x.net == map[] && y.net == map[]
    requires x.pc.Spin? && x.op <= y.op && (y.pc.Idle? || x.op < y.op)
    ensures Advance(Sender, x) != x
  {}

  lemma StepEnabled(st: State)
    requires Inv(st) && Unfinished(st)
    ensures exists e :: IsProgram(e) && Enabled(st, e)
  {
    hide NetOk, PcOk, PhaseOk, FlagValue;
    var s, r := st.s, st.r;
    assert PairOk(Sender, s, r, st.moves) && PairOk(Receiver, r, s, st.moves);
    if s.net != map[] {
      NetworkStep(st, Sender);
    } else if r.net != map[] {
      NetworkStep(st, Receiver);
    } else if !s.pc.Idle? && !s.pc.Spin? {
      LocalStep(st, Sender);
    } else if !r.pc.Idle? && !r.pc.Spin? {
      LocalStep(st, Receiver);
    } else {
      Stuck(st);
    }
  }

  lemma Stuck(st: State)
    requires PairOk(Sender, st.s, st.r, st.moves) && Unfinished(st)
    requires st.s.net == map[] && st.r.net == map[]
    requires (st.s.pc.Idle? || st.s.pc.Spin?) && (st.r.pc.Idle? || st.r.pc.Spin?)
    ensures exists e :: IsProgram(e) && Enabled(st, e)
  {
    if st.r.pc.Spin? && st.r.op <= st.s.op {
      ReceiverSpinEnds(st.r, st.s, st.moves);
      assert Enabled(st, Run(Receiver));
    } else {
      SenderSpinEnds(st.s, st.r, st.moves);
      assert Enabled(st, Run(Sender));
    }
  }

  // ---- the measure ----

  function Indices(size: nat): (r: set<nat>)
    ensures forall i: nat :: i in r <==> i < size
  {
    if size == 0 then {} else Indices(size - 1) + {size - 1}
  }

  /** Fetches, stores and the retirement still ahead of a copy; 1 for a put. */
  function FlightWeight(f: Flight, size: nat): nat {
    match f
    case Put(_, _) => 1
    case Copy(_, wire, done) => 1 + |Indices(size) - wire.Keys| + |Indices(size) - done|
  }

  function IssueWeight(x: Side, id: Option<nat>, size: nat): nat {
    if InFlight(x, id) then FlightWeight(x.net[id.value], size) else 0
  }

  function NetWeight(x: Side, size: nat): nat {
    IssueWeight(x, x.annId, size) + IssueWeight(x, x.dataId, size) + IssueWeight(x, x.finId, size)
  }

  function PcWeight(pc: Pc): nat {
    match pc
    case Idle => 0
    case Check(ctx) => if ctx.InStart? then 20 else 4
    case Transfer(_, stage) =>
      (match stage
       case Load => 3 case Store(_) => 2 case IssueData => 1
       case Fence => 15 case IssueFlag => 14 case Flush => 12)
    case Announce(_) => 15
    case AnnounceFlush(_) => 13
    case Started => 10
    case WaitFlag => 9
    case WaitData => 8
    case Spin => 7
    case CrossTest => 6
    case CrossWait => 5
  }

  /** What a side that has not issued this operation's transfer may still have to do for it. */
  function TransferWeight(x: Side, size: nat): nat {
    if x.pc.Idle? || x.dataId.Some? then 0 else 2 * |Indices(size)| + 20
  }

  function SideMeasure(x: Side, size: nat): nat {
    PcWeight(x.pc) + TransferWeight(x, size) + NetWeight(x, size)
  }

  /** An upper bound on the steps still possible before the next Start. */
  function Measure(st: State): nat {
    SideMeasure(st.s, |st.s.buf|) + SideMeasure(st.r, |st.s.buf|)
  }

  lemma NetWeightFrame(x: Side, x': Side, size: nat)
    requires x'.net == x.net && x'.annId == x.annId && x'.dataId == x.dataId && x'.finId == x.finId
    ensures NetWeight(x', size) == NetWeight(x, size)
  {}

  lemma IssueDataDecreases(role: Role, x: Side, y: Side, moves: seq<Move>, size: nat)
    requires PairOk(role, x, y, moves) && x.pc.Transfer? && x.pc.stage.IssueData?
    ensures SideMeasure(Advance(role, x), size) < SideMeasure(x, size)
  {
    assert x.dataId == None && x.finId == None && (x.annId.Some? ==> x.annId.value != x.issued);
    hide PairOk;
    NewCopyDecreases(role, x, size);
  }

  lemma NewCopyDecreases(role: Role, x: Side, size: nat)
    requires x.pc.Transfer? && x.pc.stage.IssueData?
    requires x.dataId == None && x.finId == None && (x.annId.Some? ==> x.annId.value != x.issued)
    ensures SideMeasure(Advance(role, x), size) < SideMeasure(x, size)
  {
    var none: map<nat, byte> := map[];
    assert Indices(size) - none.Keys == Indices(size) && Indices(size) - {} == Indices(size);
  }

  lemma IssueFlagDecreases(role: Role, x: Side, y: Side, moves: seq<Move>, size: nat)
    requires PairOk(role, x, y, moves) && x.pc.Transfer? && x.pc.stage.IssueFlag?
    ensures SideMeasure(Advance(role, x), size) < SideMeasure(x, size)
  {
    hide PhaseOk, FlagValue;
  }

  lemma RunTransferDecreases(role: Role, x: Side, y: Side, moves: seq<Move>, size: nat)
    requires PairOk(role, x, y, moves) && x.pc.Transfer?
    ensures SideMeasure(Advance(role, x), size) < SideMeasure(x, size)
  {
    hide NetOk, PhaseOk, FlagValue, NetWeight;
    if x.pc.stage.IssueData? {
      IssueDataDecreases(role, x, y, moves, size);
    } else if x.pc.stage.IssueFlag? {
      IssueFlagDecreases(role, x, y, moves, size);
    } else {
      NetWeightFrame(x, Advance(role, x), size);
    }
  }

  lemma RunEntryDecreases(role: Role, x: Side, y: Side, moves: seq<Move>, size: nat)
    requires PairOk(role, x, y, moves) && (x.pc.Check? || x.pc.Announce? || x.pc.AnnounceFlush?)
    ensures SideMeasure(Advance(role, x), size) < SideMeasure(x, size)
  {
    hide FlagValue;
  }

  /** What a statement of Wait does to the measure, apart from the program counter. */
  lemma WaitKeepsWeights(role: Role, x: Side, x': Side, size: nat)
    requires x'.net == x.net && x'.annId == x.annId && x'.dataId == x.dataId && x'.finId == x.finId
    requires !x.pc.Idle? && PcWeight(x'.pc) < PcWeight(x.pc)
    ensures SideMeasure(x', size) < SideMeasure(x, size)
  {
    hide NetWeight, PcWeight;
    NetWeightFrame(x, x', size);
  }

  lemma RunWaitDecreases(role: Role, x: Side, size: nat)
    requires SideOk(role, x) && Advance(role, x) != x
    requires !x.pc.Transfer? && !x.pc.Check? && !x.pc.Announce? && !x.pc.AnnounceFlush?
    ensures SideMeasure(Advance(role, x), size) < SideMeasure(x, size)
  {
    hide NetOk, PcOk, NetWeight, SideMeasure;
    if x.pc.CrossTest? {
      CrossTestDecreases(role, x, size);
    } else {
      WaitKeepsWeights(role, x, Advance(role, x), size);
    }
  }

  lemma CrossTestDecreases(role: Role, x: Side, size: nat)
    requires SideOk(role, x) && x.pc.CrossTest?
    ensures SideMeasure(Advance(role, x), size) < SideMeasure(x, size)
  {
    hide NetOk, PcOk, NetWeight;
    NetWeightFrame(x, Advance(role, x), size);
  }

  lemma ProgressDecreases(x: Side, y: Side, moves: seq<Move>, size: nat)
    requires PairOk(Receiver, x, y, moves) && (x.pc.Idle? || x.pc.Started?) && x.flag == ReadyFlag(x.op)
    ensures SideMeasure(x.(pc := Transfer(InProgress(x.pc.Started?), Load)), size) < SideMeasure(x, size)
  {}

  lemma LandingDecreases(role: Role, x: Side, k: nat, size: nat)
    requires SideOk(role, x) && k in x.net
    ensures SideMeasure(x.(net := x.net - {k}), size) < SideMeasure(x, size)
  {}

  lemma FetchDecreases(role: Role, x: Side, k: nat, i: nat, b: byte, size: nat)
    requires SideOk(role, x) && k in x.net && x.net[k].Copy? && i < size && i !in x.net[k].wire
    ensures var c := x.net[k].(wire := x.net[k].wire[i := b]);
      SideMeasure(x.(net := x.net[k := c]), size) < SideMeasure(x, size)
  {
    var old_ := x.net[k];
    var c := old_.(wire := old_.wire[i := b]);
    assert Indices(size) - c.wire.Keys == (Indices(size) - old_.wire.Keys) - {i};
    ReplaceWeight(role, x, k, c, size);
  }

  lemma StoreDecreases(role: Role, x: Side, k: nat, i: nat, size: nat)
    requires SideOk(role, x) && k in x.net && x.net[k].Copy? && i < size && i !in x.net[k].done
    ensures var c := x.net[k].(done := x.net[k].done + {i});
      SideMeasure(x.(net := x.net[k := c]), size) < SideMeasure(x, size)
  {
    var old_ := x.net[k];
    var c := old_.(done := old_.done + {i});
    assert Indices(size) - c.done == (Indices(size) - old_.done) - {i};
    ReplaceWeight(role, x, k, c, size);
  }

  lemma ReplaceWeight(role: Role, x: Side, k: nat, c: Flight, size: nat)
    requires SideOk(role, x) && k in x.net && FlightWeight(c, size) < FlightWeight(x.net[k], size)
    ensures SideMeasure(x.(net := x.net[k := c]), size) < SideMeasure(x, size)
  {
    hide PcOk, FlightWeight;
  }

  /** Every program or network step decreases the measure. */
  lemma StepDecreases(st: State, e: Event)
    requires Inv(st) && IsProgram(e) && Enabled(st, e)
    ensures Measure(Apply(st, e)) < Measure(st)
  {
    hide NetOk, PcOk, PhaseOk, FlagValue, DataOk, SideMeasure;
    var role := if e.Progress? then Receiver else e.role;
    var x, y, size := st.Get(role), st.Get(role.Peer()), |st.s.buf|;
    assert PairOk(role, x, y, st.moves);
    match e {
      case CallWait(_) => CallWaitDecreases(x, size);
      case Progress => ProgressDecreases(x, y, st.moves, size);
      case Run(_) =>
        if x.pc.Transfer? {
          RunTransferDecreases(role, x, y, st.moves, size);
        } else if x.pc.Check? || x.pc.Announce? || x.pc.AnnounceFlush? {
          RunEntryDecreases(role, x, y, st.moves, size);
        } else {
          RunWaitDecreases(role, x, size);
        }
        OtherFields(role, x, size);
      case Deliver(_, k) =>
        LandingDecreases(role, x, k, size);
        FlagIrrelevant(y, x.net[k].value, size);
      case Retire(_, k) => LandingDecreases(role, x, k, size);
      case Fetch(_, k, i) => FetchDecreases(role, x, k, i, st.s.buf[i], size);
      case StoreByte(_, k, i) =>
        StoreDecreases(role, x, k, i, size);
        var x' := x.(net := x.net[k := x.net[k].(done := x.net[k].done + {i})]);
        BufferIrrelevant(if role.Receiver? then x' else y, st.r.buf[i := x.net[k].wire[i]], size);
    }
  }

  lemma CallWaitDecreases(x: Side, size: nat)
    requires x.pc.Started?
    ensures SideMeasure(x.(pc := WaitFlag), size) < SideMeasure(x, size)
  {}

  lemma FlagIrrelevant(x: Side, v: int, size: nat)
    ensures SideMeasure(x.(flag := v), size) == SideMeasure(x, size)
  {}

  lemma BufferIrrelevant(x: Side, b: Buffer, size: nat)
    ensures SideMeasure(x.(buf := b), size) == SideMeasure(x, size)
  {}

  lemma OtherFields(role: Role, x: Side, size: nat)
    ensures Advance(role, x).buf == x.buf
  {}

  // ---- whole runs ----

  predicate AllProgram(es: seq<Event>) {
    forall k | 0 <= k < |es| :: IsProgram(es[k])
  }

  /** A run without a new Start is finite: its length is bounded by the measure where it begins. */
  lemma {:induction false} RunsAreBounded(st: State, es: seq<Event>)
    requires Inv(st) && Runs(st, es) && AllProgram(es)
    ensures |es| + Measure(Exec(st, es)) <= Measure(st)
    decreases |es|
  {
    if es != [] {
      StepInv(st, es[0]);
      StepDecreases(st, es[0]);
      assert AllProgram(es[1..]);
      RunsAreBounded(Apply(st, es[0]), es[1..]);
    }
  }

  /**
    Deadlock freedom, for any reachable state and any schedule without a new Start: the schedule is
    finite, and if it cannot be extended, then no side is left in an operation its peer has started.
   */
  lemma WaitsReturn(st: State, es: seq<Event>)
    requires Reachable(st) && Runs(st, es) && AllProgram(es)
    ensures |es| <= Measure(st)
    ensures (forall e | IsProgram(e) :: !Enabled(Exec(st, es), e)) ==> !Unfinished(Exec(st, es))
  {
    ReachableInv(st);
    ExecInv(st, es);
    RunsAreBounded(st, es);
    if Unfinished(Exec(st, es)) {
      StepEnabled(Exec(st, es));
    }
  }

  /** In particular, when both sides are in operation n, both Waits return. */
  lemma BothWaitsReturn(st: State, es: seq<Event>)
    requires Reachable(st) && st.s.op == st.r.op && Runs(st, es) && AllProgram(es)
    requires forall e | IsProgram(e) :: !Enabled(Exec(st, es), e)
    ensures Exec(st, es).s.pc.Idle? && Exec(st, es).r.pc.Idle?
    ensures Exec(st, es).s.op == st.s.op && Exec(st, es).r.op == st.r.op
  {
    WaitsReturn(st, es);
    OpsStay(st, es);
  }

  lemma {:induction false} OpsStay(st: State, es: seq<Event>)
    requires Runs(st, es) && AllProgram(es)
    ensures Exec(st, es).s.op == st.s.op && Exec(st, es).r.op == st.r.op
    decreases |es|
  {
    if es != [] {
      assert IsProgram(es[0]) && AllProgram(es[1..]);
      OpsStay(Apply(st, es[0]), es[1..]);
    }
  }
}
