/**
  What a pair can do, as opposed to what it never does: operation 1 can connect it, from then on every
  further operation can be completed, and any sequence of buffers can be delivered.
 */
module PairDelivery {
  import opened Common
  import opened PairMachine
  import C = ConnectionMachine
  import CI = ConnectionInvariant
  import CT = ConnectionTheorems
  import CL = ConnectionLiveness
  import D = RdmaMachine
  import DI = RdmaInvariant
  import DL = RdmaLiveness

  /** Both sides are in RDMA mode and between Wait and Start. */
  predicate Quiet(st: State) {
    Connected(st) && st.d.s.pc.Idle? && st.d.r.pc.Idle?
  }

  predicate Connected(st: State) {
    Ready(st.c, Sender) && Ready(st.c, Receiver)
  }

  // ---- runs ----

  lemma {:induction false} Snoc(st: State, es: seq<Event>, e: Event)
    requires Runs(st, es) && Enabled(Exec(st, es), e)
    ensures Runs(st, es + [e]) && Exec(st, es + [e]) == Apply(Exec(st, es), e)
    decreases |es|
  {
    hide Apply, Enabled;
    if es == [] {
      assert Runs(Apply(st, e), []) && ([] + [e])[1..] == [];
    } else {
      Snoc(Apply(st, es[0]), es[1..], e);
      assert (es + [e])[1..] == es[1..] + [e];
    }
  }

  lemma ReachableStep(st: State, e: Event)
    requires Reachable(st) && Enabled(st, e)
    ensures Reachable(Apply(st, e))
  {
    var st0, es :| Initial(st0) && Runs(st0, es) && st == Exec(st0, es);
    Snoc(st0, es, e);
  }

  lemma {:induction false} ReachableExec(st: State, es: seq<Event>)
    requires Reachable(st) && Runs(st, es)
    ensures Reachable(Exec(st, es))
    decreases |es|
  {
    if es != [] {
      hide Reachable, Apply, Enabled;
      ReachableStep(st, es[0]);
      ReachableExec(Apply(st, es[0]), es[1..]);
    }
  }

  // ---- the first operation ----

  /** Neither a user write, which both systems must see, nor a new Start. */
  predicate NoWrite(ms: seq<C.Event>) {
    forall k | 0 <= k < |ms| :: !ms[k].Write?
  }

  predicate NoStart(ms: seq<C.Event>) {
    forall k | 0 <= k < |ms| :: !ms[k].Start?
  }

  lemma MessageSpares(st: State, m: C.Event)
    requires Enabled(st, Message(m))
    ensures var st' := Apply(st, Message(m));
      && st'.c == C.Apply(st.c, m) && st'.d.s.pc == st.d.s.pc && st'.d.r.pc == st.d.r.pc
      && (!m.Start? ==> st'.sent == st.sent)
  {
    hide C.Apply;
  }

  /** A run of the message system is one of the pair. */
  lemma {:induction false} LiftMessages(st: State, ms: seq<C.Event>) returns (es: seq<Event>)
    requires C.Runs(st.c, ms) && NoWrite(ms)
    ensures Runs(st, es) && Exec(st, es).c == C.Exec(st.c, ms)
    ensures Exec(st, es).d.s.pc == st.d.s.pc && Exec(st, es).d.r.pc == st.d.r.pc
    ensures NoStart(ms) ==> Exec(st, es).sent == st.sent
    decreases |ms|
  {
    es := [];
    if ms != [] {
      var st' := Apply(st, Message(ms[0]));
      MessageSpares(st, ms[0]);
      assert NoWrite(ms[1..]) && (NoStart(ms) ==> NoStart(ms[1..]) && !ms[0].Start?);
      hide Apply, C.Apply, C.Enabled, Enabled, NoWrite, NoStart;
      var rest := LiftMessages(st', ms[1..]);
      es := [Message(ms[0])] + rest;
      assert es[1..] == rest;
    }
  }

  /** Both sides have been initialised and started; neither has seen the other. */
  function BothStarted(c: C.State): C.State {
    C.State(C.Side(C.Started, 1, Searching, false, C.Travelling, Some(0), false, c.s.buf, [c.s.buf]),
            C.Side(C.Probe(C.AtStart), 1, Searching, false, C.Travelling, None, false, c.r.buf, []),
            [c.s.buf], 0, 0, 0, 0, false)
  }

  lemma Starts(c: C.State) returns (ms: seq<C.Event>)
    requires C.Initial(c)
    ensures CT.Leads(c, ms, BothStarted(c)) && NoWrite(ms)
  {
    var c0;
    c0, ms := CT.LeadsToSenderStarted(c.s.buf, c.r.buf);
    assert c == c0;
    CT.Extend(c, ms, C.Start(Receiver));
    ms := ms + [C.Start(Receiver)];
  }

  /** From there operation 1 can be completed, in RDMA mode. */
  lemma Connects(c: C.State) returns (ms: seq<C.Event>)
    requires C.OrderedReachable(c) && CL.BothStarted(c) && !CL.Missed(c)
    ensures C.Runs(c, ms) && NoWrite(ms) && NoStart(ms)
    ensures var c' := C.Exec(c, ms); Ready(c', Sender) && Ready(c', Receiver)
  {
    CL.OrderedReachableInv(c);
    ms := CL.Completes(c);
    assert C.OrderedReachable(C.Exec(c, ms)) by {
      OrderedOn(c, ms);
    }
    CT.OrderedMeansRdma(C.Exec(c, ms));
  }

  lemma OrderedOn(c: C.State, ms: seq<C.Event>)
    requires C.OrderedReachable(c) && C.Runs(c, ms) && C.OrderedRuns(c, ms)
    ensures C.OrderedReachable(C.Exec(c, ms))
  {
    var c0, ms0 :| C.Initial(c0) && C.OrderedRuns(c0, ms0) && C.Runs(c0, ms0) && c == C.Exec(c0, ms0);
    CT.LeadsTrans(c0, ms0, c, ms, C.Exec(c, ms));
  }

  /** From every initial state operation 1 can be completed in RDMA mode, and delivers. */
  lemma FirstOperation(st0: State) returns (st: State)
    requires Initial(st0)
    ensures Reachable(st) && Quiet(st) && st.sent == st.received == [st0.c.s.buf]
  {
    assert Runs(st0, []) && Exec(st0, []) == st0;
    assert Reachable(st0);
    var ms := Starts(st0.c);
    var es := LiftMessages(st0, ms);
    ReachableExec(st0, es);
    var st1 := Exec(st0, es);
    assert C.OrderedReachable(st1.c);
    ReachableInv(st1);
    assert st1.sent == [st0.c.s.buf] by {
      NoRemoteOperation(st1, Sender);
    }
    hide CI.Inv, DI.Inv, C.OrderedReachable, Reachable, CT.Leads;
    ms := Connects(st1.c);
    es := LiftMessages(st1, ms);
    ReachableExec(st1, es);
    st := Exec(st1, es);
    AllDelivered(st);
  }

  // ---- every further operation ----

  lemma OpsAgree(d: D.State)
    requires DI.Inv(d) && d.s.pc.Idle? && d.r.pc.Idle?
    ensures d.s.op == d.r.op
  {}

  /** In a quiet state everything sent has been received. */
  lemma AllDelivered(st: State)
    requires Reachable(st) && Quiet(st)
    ensures st.received == st.sent && |st.sent| == st.d.s.op == st.d.r.op
  {
    EndToEnd(st);
    ReachableInv(st);
    OpsAgree(st.d);
    assert CI.Inactive(st.c.r);
  }

  /** Messages have the size of the buffers. */
  lemma SizeOfFirst(st: State)
    requires Reachable(st) && Quiet(st)
    ensures |st.sent| >= 1 && |st.sent[0]| == |st.d.s.buf|
  {
    ReachableInv(st);
    SizeOfLog(st.c);
  }

  lemma SizeOfLog(c: C.State)
    requires CI.Inv(c) && Ready(c, Sender)
    ensures |c.s.log| == 1 && |c.s.log[0]| == |c.s.buf|
  {}

  lemma NextRemote(d: D.State) returns (e: D.Event)
    requires DI.Inv(d) && DL.Unfinished(d)
    ensures DL.IsProgram(e) && D.Enabled(d, e)
    ensures var d' := D.Apply(d, e);
      DI.Inv(d') && DL.Measure(d') < DL.Measure(d) && d'.s.op == d.s.op && d'.r.op == d.r.op
  {
    hide DI.Inv, DL.Measure, D.Enabled, D.Apply, DL.Unfinished;
    DL.StepEnabled(d);
    e :| DL.IsProgram(e) && D.Enabled(d, e);
    DI.StepInv(d, e);
    DL.StepDecreases(d, e);
    OpsStayInStep(d, e);
  }

  /** An operation that both sides have started can be completed by the network, the library and Wait. */
  lemma {:induction false} CompletesRemote(d: D.State) returns (es: seq<D.Event>)
    requires DI.Inv(d) && d.s.op == d.r.op
    ensures D.Runs(d, es) && DL.AllProgram(es)
    ensures D.Exec(d, es).s.pc.Idle? && D.Exec(d, es).r.pc.Idle?
    decreases DL.Measure(d)
  {
    hide DI.Inv, DL.Measure, D.Enabled, D.Apply, DL.IsProgram;
    es := [];
    if DL.Unfinished(d) {
      var e := NextRemote(d);
      var rest := CompletesRemote(D.Apply(d, e));
      es := [e] + rest;
      assert es[1..] == rest;
    }
  }

  lemma OpsStayInStep(d: D.State, e: D.Event)
    requires D.Enabled(d, e) && DL.IsProgram(e)
    ensures D.Apply(d, e).s.op == d.s.op && D.Apply(d, e).r.op == d.r.op
  {}

  lemma RemoteSpares(st: State, e: D.Event)
    requires Connected(st) && D.Enabled(st.d, e) && DL.IsProgram(e)
    ensures Enabled(st, Remote(e))
    ensures var st' := Apply(st, Remote(e)); st'.d == D.Apply(st.d, e) && Connected(st') && st'.sent == st.sent
  {
    hide D.Apply, D.Enabled;
  }

  /** Once both sides are connected, a run of the RDMA system without a Start is one of the pair. */
  lemma {:induction false} LiftRemote(st: State, ds: seq<D.Event>) returns (es: seq<Event>)
    requires Connected(st) && D.Runs(st.d, ds) && DL.AllProgram(ds)
    ensures Runs(st, es) && Exec(st, es).d == D.Exec(st.d, ds) && Connected(Exec(st, es))
    ensures Exec(st, es).sent == st.sent
    decreases |ds|
  {
    es := [];
    if ds != [] {
      assert DL.IsProgram(ds[0]) && DL.AllProgram(ds[1..]);
      RemoteSpares(st, ds[0]);
      hide Apply, D.Apply, D.Enabled, Enabled, DL.AllProgram, Connected;
      var rest := LiftRemote(Apply(st, Remote(ds[0])), ds[1..]);
      es := [Remote(ds[0])] + rest;
      assert es[1..] == rest;
    }
  }

  /** The user rewrites the buffer and both sides start. */
  lemma StartsBoth(st: State, data: Buffer) returns (st': State)
    requires Reachable(st) && Quiet(st) && |data| == |st.d.s.buf|
    ensures Reachable(st') && Connected(st') && st'.sent == st.sent + [data]
    ensures st'.d.s.op == st.d.s.op + 1 && st'.d.r.op == st.d.r.op + 1
  {
    hide Reachable;
    ReachableStep(st, UserWrite(Sender, data));
    var st1 := Apply(st, UserWrite(Sender, data));
    ReachableStep(st1, Remote(D.Start(Sender)));
    var st2 := Apply(st1, Remote(D.Start(Sender)));
    ReachableStep(st2, Remote(D.Start(Receiver)));
    st' := Apply(st2, Remote(D.Start(Receiver)));
  }

  /**
    From every reachable state in which both sides are in RDMA mode and inactive, for all data: the user
    can write it, both sides can start, and both Waits can return, the receiver's with this data.
   */
  lemma AnotherOperation(st: State, data: Buffer) returns (st': State)
    requires Reachable(st) && Quiet(st) && |data| == |st.d.s.buf|
    ensures Reachable(st') && Quiet(st')
    ensures st'.sent == st'.received == st.sent + [data] == st.received + [data]
  {
    AllDelivered(st);
    var st1 := StartsBoth(st, data);
    ReachableInv(st1);
    hide Reachable, CI.Inv, DI.Inv, D.Exec, D.Runs;
    var ds := CompletesRemote(st1.d);
    var es := LiftRemote(st1, ds);
    ReachableExec(st1, es);
    st' := Exec(st1, es);
    AllDelivered(st');
  }

  /** Any sequence of buffers of one size can be delivered, the first by message and the others by RDMA. */
  lemma {:induction false} DeliversAny(st0: State, datas: seq<Buffer>) returns (st: State)
    requires Initial(st0) && datas != [] && datas[0] == st0.c.s.buf
    requires forall k | 0 <= k < |datas| :: |datas[k]| == |datas[0]|
    ensures Reachable(st) && Quiet(st) && st.sent == st.received == datas
    decreases |datas|
  {
    var n := |datas| - 1;
    if n == 0 {
      st := FirstOperation(st0);
      assert datas == [datas[0]];
    } else {
      hide Initial, Reachable, Quiet;
      assert datas[..n][0] == datas[0];
      st := DeliversAny(st0, datas[..n]);
      SizeOfFirst(st);
      st := AnotherOperation(st, datas[n]);
      assert datas == datas[..n] + [datas[n]];
    }
  }
}
