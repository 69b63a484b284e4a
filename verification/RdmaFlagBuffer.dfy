/**
  Where the assumption that a flag put carries the value it had when issued is needed: the one field
  `flag_buffer` holds the value of every put, and is overwritten without waiting for earlier puts.
 */
module RdmaFlagBuffer {
  import opened Common
  import opened RdmaMachine
  import opened RdmaInvariant
  import opened RdmaTheorems

  /** The next statement stores a new value into `flag_buffer`; `b_send` does so before it puts the data. */
  predicate Overwrites(role: Role, pc: Pc) {
    pc.Announce? || (pc.Transfer? && (pc.stage.IssueFlag? || (role.Sender? && pc.stage.IssueData?)))
  }

  ghost predicate PutPending(x: Side) {
    exists k :: k in x.net && x.net[k].Put?
  }

  /**
    It is overwritten while an earlier put is in flight exactly in the progress engine, when the flush
    of the own announcement has not completed, which the code could test before it stores.
   */
  lemma OverwrittenExactly(st: State, role: Role)
    requires Reachable(st) && Overwrites(role, st.Get(role).pc)
    ensures var x := st.Get(role);
      PutPending(x) <==> x.pc.ctx.InProgress? && x.flagXfer.Some? && !Flushed(x.net, x.flagXfer.value)
  {
    ReachableInv(st);
    PeerOk(st, role);
    var x := st.Get(role);
    if x.pc.ctx.InProgress? {
      assert InFlight(x, x.annId) ==> x.annId.value in x.net && x.net[x.annId.value].Put?;
    }
  }

  // ---- what goes wrong if the value is read at delivery ----

  /** The content of `flag_buffer`: the value of the put that was issued last. */
  function LateValue(x: Side): int {
    if x.finId.Some? then DoneFlag(x.op) else ReadyFlag(x.op)
  }

  /** A put issued by `role` lands, but its value is only read now. */
  function LateDeliver(st: State, role: Role, k: nat): State
    requires k in st.Get(role).net
  {
    var x := st.Get(role);
    var y := st.Get(role.Peer());
    st.Set(role, x.(net := x.net - {k})).Set(role.Peer(), y.(flag := LateValue(x)))
  }

  /** An inactive side that has completed operation 1. */
  function Inactive(b: Buffer): Side {
    Side(Idle, 1, 0, b, None, None, map[], 0, 0, None, None, None, [])
  }

  /** Both have announced operation 2; the sender's announcement has landed, the receiver's has not. */
  function Announced(b: Buffer, c: Buffer): State {
    State(Side(Started, 2, 0, b, Some(1), None, map[], 1, 0, Some(0), None, None, [b]),
          Side(Started, 2, 5, c, Some(1), None, map[0 := Put(0, 5)], 1, 0, Some(0), None, None, []),
          [])
  }

  /** Then the progress engine has pulled for the receiver. */
  function Pulled(b: Buffer, c: Buffer): State {
    State(Side(Started, 2, 0, b, Some(1), None, map[], 1, 0, Some(0), None, None, [b]),
          Side(Started, 2, 6, c, Some(1), Some(3),
               map[0 := Put(0, 5), 1 := Copy(0, map[], {}), 2 := Put(1, 6)], 3, 1, Some(0), Some(1), Some(2), []),
          [Move(2, Receiver)])
  }

  lemma InitReachable(st: State)
    requires Init(st)
    ensures Reachable(st)
  {
    assert Runs(st, []) && Exec(st, []) == st;
  }

  /** Start on a side whose flag is still 0, up to its return. */
  lemma AnnouncingStart(st: State, role: Role) returns (st': State)
    requires Reachable(st) && InitSide(st.Get(role))
    ensures Reachable(st') && st'.Get(role.Peer()) == st.Get(role.Peer()) && st'.moves == st.moves
    ensures st'.Get(role) == Side(Started, 2, 0, st.Get(role).buf, Some(1), None, map[0 := Put(0, 5)], 1, 0,
                                  Some(0), None, None, if role.Sender? then [st.Get(role).buf] else [])
  {
    hide Reachable;
    ReachableStep(st, Start(role));
    var st1 := Apply(st, Start(role));
    ReachableStep(st1, Run(role));
    var st2 := Apply(st1, Run(role));
    ReachableStep(st2, Run(role));
    var st3 := Apply(st2, Run(role));
    ReachableStep(st3, Run(role));
    st' := Apply(st3, Run(role));
  }

  lemma AnnouncedReachable(b: Buffer, c: Buffer)
    requires |b| == |c|
    ensures Reachable(Announced(b, c))
  {
    hide Reachable;
    var st := State(Inactive(b), Inactive(c), []);
    InitReachable(st);
    st := AnnouncingStart(st, Receiver);
    st := AnnouncingStart(st, Sender);
    ReachableStep(st, Deliver(Sender, 0));
    assert Apply(st, Deliver(Sender, 0)) == Announced(b, c);
  }

  /** The progress engine, up to the point where it overwrites `flag_buffer`. */
  lemma PullByProgress(b: Buffer, c: Buffer) returns (st: State)
    requires |b| == |c|
    ensures Reachable(st) && st.s == Announced(b, c).s && st.moves == [Move(2, Receiver)]
    ensures st.r == Side(Transfer(InProgress(true), IssueFlag), 2, 6, c, Some(1), None,
                         map[0 := Put(0, 5), 1 := Copy(0, map[], {})], 2, 1, Some(0), Some(1), None, [])
  {
    AnnouncedReachable(b, c);
    hide Reachable;
    var st0 := Announced(b, c);
    ReachableStep(st0, Progress);
    var st1 := Apply(st0, Progress);
    ReachableStep(st1, Run(Receiver));
    var st2 := Apply(st1, Run(Receiver));
    ReachableStep(st2, Run(Receiver));
    var st3 := Apply(st2, Run(Receiver));
    ReachableStep(st3, Run(Receiver));
    var st4 := Apply(st3, Run(Receiver));
    ReachableStep(st4, Run(Receiver));
    st := Apply(st4, Run(Receiver));
  }

  /** Such an overwrite does happen. */
  lemma UnsafeInProgress(b: Buffer, c: Buffer) returns (st: State)
    requires |b| == |c|
    ensures Reachable(st) && Overwrites(Receiver, st.r.pc) && st.r.pc.ctx.InProgress? && PutPending(st.r)
  {
    st := PullByProgress(b, c);
    assert 0 in st.r.net && st.r.net[0].Put?;
  }

  lemma PulledReachable(b: Buffer, c: Buffer)
    requires |b| == |c|
    ensures Reachable(Pulled(b, c))
  {
    var st := PullByProgress(b, c);
    hide Reachable;
    ReachableStep(st, Run(Receiver));
    var st1 := Apply(st, Run(Receiver));
    ReachableStep(st1, Run(Receiver));
    assert Apply(st1, Run(Receiver)) == Pulled(b, c);
  }

  /** `es` leads from `st` to `st'`. */
  predicate Leads(st: State, es: seq<Event>, st': State) {
    Runs(st, es) && Exec(st, es) == st'
  }

  lemma OneMore(st: State, es: seq<Event>, st': State, e: Event) returns (more: seq<Event>)
    requires Leads(st, es, st') && Enabled(st', e)
    ensures Leads(st, more, Apply(st', e))
  {
    Snoc(st, es, e);
    more := es + [e];
  }

  /** The sender's Wait has returned although the receiver still has to fetch the data. */
  function Released(b: Buffer, c: Buffer): State {
    var st := Pulled(b, c);
    State(Side(Idle, 2, 6, b, None, None, map[], 1, 0, Some(0), None, None, [b]),
          st.r.(net := map[1 := Copy(0, map[], {}), 2 := Put(1, 6)]), st.moves)
  }

  lemma LateReleases(b: Buffer, c: Buffer) returns (es: seq<Event>)
    ensures Leads(LateDeliver(Pulled(b, c), Receiver, 0), es, Released(b, c))
  {
    var st := LateDeliver(Pulled(b, c), Receiver, 0);
    es := [];
    var cur := st;
    hide Leads, Runs, Exec;
    assert Leads(st, es, cur) by {
      EmptyLeads(st);
    }
    es := OneMore(st, es, cur, CallWait(Sender)); cur := Apply(cur, CallWait(Sender));
    es := OneMore(st, es, cur, Run(Sender)); cur := Apply(cur, Run(Sender));
    es := OneMore(st, es, cur, Run(Sender)); cur := Apply(cur, Run(Sender));
    es := OneMore(st, es, cur, Run(Sender)); cur := Apply(cur, Run(Sender));
    assert cur == Released(b, c);
  }

  lemma EmptyLeads(st: State)
    ensures Leads(st, [], st)
  {}

  /** The user rewrites the buffer, and the receiver fetches the new byte. */
  function Fetched(): State {
    var st := Released([0], [7]);
    State(st.s.(buf := [1]), st.r.(net := map[1 := Copy(0, map[0 := 1], {}), 2 := Put(1, 6)]), st.moves)
  }

  lemma FetchesNewByte() returns (es: seq<Event>)
    ensures Leads(Released([0], [7]), es, Fetched())
  {
    var st := Released([0], [7]);
    es := [];
    var cur := st;
    hide Leads, Runs, Exec;
    EmptyLeads(st);
    es := OneMore(st, es, cur, Write(Sender, [1])); cur := Apply(cur, Write(Sender, [1]));
    es := OneMore(st, es, cur, Fetch(Receiver, 1, 0)); cur := Apply(cur, Fetch(Receiver, 1, 0));
    assert cur == Fetched();
  }

  function Corrupted(): State {
    var st := Fetched();
    State(st.s, st.r.(buf := [1], net := map[2 := Put(1, 6)]), st.moves)
  }

  lemma StoresNewByte() returns (es: seq<Event>)
    ensures Leads(Fetched(), es, Corrupted())
  {
    var st := Fetched();
    es := [];
    var cur := st;
    hide Leads, Runs, Exec;
    EmptyLeads(st);
    es := OneMore(st, es, cur, StoreByte(Receiver, 1, 0)); cur := Apply(cur, StoreByte(Receiver, 1, 0));
    es := OneMore(st, es, cur, Retire(Receiver, 1)); cur := Apply(cur, Retire(Receiver, 1));
    assert cur == Corrupted();
  }

  /** The receiver's Wait returns with a byte the sender did not have at its Start. */
  lemma ReturnsCorrupted() returns (es: seq<Event>, end: State)
    ensures Leads(Corrupted(), es, end) && end.r.pc.Idle? && end.r.log == [[1]] && end.s.log == [[0]]
  {
    var st := Corrupted();
    es := [];
    end := st;
    hide Leads, Runs, Exec;
    EmptyLeads(st);
    es := OneMore(st, es, end, Deliver(Receiver, 2)); end := Apply(end, Deliver(Receiver, 2));
    es := OneMore(st, es, end, CallWait(Receiver)); end := Apply(end, CallWait(Receiver));
    es := OneMore(st, es, end, Run(Receiver)); end := Apply(end, Run(Receiver));
    es := OneMore(st, es, end, Run(Receiver)); end := Apply(end, Run(Receiver));
    es := OneMore(st, es, end, Run(Receiver)); end := Apply(end, Run(Receiver));
    es := OneMore(st, es, end, Run(Receiver)); end := Apply(end, Run(Receiver));
  }

  lemma {:induction false} LeadsTrans(st: State, es: seq<Event>, st': State, es': seq<Event>, st'': State)
    requires Leads(st, es, st') && Leads(st', es', st'')
    ensures Leads(st, es + es', st'')
    decreases |es|
  {
    if es == [] {
      assert es + es' == es';
    } else {
      LeadsTrans(Apply(st, es[0]), es[1..], st', es', st'');
      assert (es + es')[1..] == es[1..] + es';
    }
  }

  /**
    One put that is delivered with a value read late breaks integrity: from a reachable state, the
    receiver's announcement arrives as "finished", the sender's Wait returns while the receiver still
    fetches, the user rewrites the buffer, and the receiver's Wait returns with the new byte.
   */
  lemma LateReadBreaksIntegrity() returns (st: State, es: seq<Event>)
    ensures Reachable(st) && Deliverable(st.r.net, 0) && st.r.net[0] == Put(0, ReadyFlag(2))
    ensures Runs(LateDeliver(st, Receiver, 0), es)
    ensures var end := Exec(LateDeliver(st, Receiver, 0), es); end.r.pc.Idle? && end.r.log != end.s.log == [[0]]
  {
    st := Pulled([0], [7]);
    PulledReachable([0], [7]);
    var late := LateDeliver(st, Receiver, 0);
    var es1 := LateReleases([0], [7]);
    var es2 := FetchesNewByte();
    var es3 := StoresNewByte();
    var es4, end := ReturnsCorrupted();
    hide Reachable;
    LeadsTrans(late, es1, Released([0], [7]), es2, Fetched());
    LeadsTrans(late, es1 + es2, Fetched(), es3, Corrupted());
    LeadsTrans(late, es1 + es2 + es3, Corrupted(), es4, end);
    es := es1 + es2 + es3 + es4;
  }
}
