/** The inductive invariant of the RDMA phase, and the proof that every event keeps it. */
module RdmaInvariant {
  import opened Common
  import opened RdmaMachine

  /** The last operation whose data transfer has been issued; 1 before the first. */
  function LastMoved(moves: seq<Move>): nat {
    |moves| + 1
  }

  predicate MovedBy(moves: seq<Move>, role: Role) {
    moves != [] && moves[|moves| - 1].mover == role
  }

  /** The flag of a side once operation n is over and nothing has happened since. */
  function RestFlag(n: nat): int {
    if n <= 1 then 0 else DoneFlag(n)
  }

  predicate InFlight(x: Side, id: Option<nat>) {
    id.Some? && id.value in x.net
  }

  /** Issued and delivered. */
  predicate Landed(x: Side, id: Option<nat>) {
    id.Some? && id.value !in x.net
  }

  // ---- one side on its own ----

  predicate NetOk(x: Side) {
    && (forall k | k in x.net :: Some(k) == x.annId || Some(k) == x.dataId || Some(k) == x.finId)
    && (x.annId.Some? ==> x.annId.value < x.issued)
    && (x.dataId.Some? ==> x.dataId.value < x.issued)
    && (x.finId.Some? ==> x.finId.value < x.issued)
    && (x.annId.Some? && x.dataId.Some? ==> x.annId.value < x.dataId.value)
    && (x.finId.Some? ==> x.dataId.Some? && x.dataId.value < x.finId.value)
    && (InFlight(x, x.annId) ==> x.net[x.annId.value].Put? && x.net[x.annId.value].value == ReadyFlag(x.op))
    && (InFlight(x, x.dataId) ==> x.net[x.dataId.value].Copy?)
    && (InFlight(x, x.finId) ==> x.net[x.finId.value].Put? && x.net[x.finId.value].value == DoneFlag(x.op))
    && (forall k | k in x.net :: x.net[k].epoch <= x.epoch)
    && (InFlight(x, x.annId) && InFlight(x, x.dataId) ==>
          x.net[x.annId.value].epoch <= x.net[x.dataId.value].epoch)
    && (InFlight(x, x.finId) ==>
          forall k | k in x.net && k != x.finId.value :: x.net[k].epoch < x.net[x.finId.value].epoch)
    // the fence: once the closing put has landed, so has everything else
    && (Landed(x, x.finId) ==> x.net == map[])
    && (x.pc.Transfer? && x.pc.stage.IssueFlag? ==> forall k | k in x.net :: x.net[k].epoch < x.epoch)
  }

  /** How far this operation's issues have come, given the program counter. */
  predicate PcOk(role: Role, x: Side) {
    && (x.annId.Some? && x.dataId.Some? ==> role.Receiver?)
    && match x.pc
       case Idle =>
         && x.net == map[] && x.flagXfer == None && x.dataXfer == None
         && (x.dataId.Some? <==> x.finId.Some?)
       case Check(ctx) =>
         && x.dataId == None && x.finId == None && x.dataXfer == None && x.flagXfer == None
         && x.net == map[]
         && (ctx.InStart? || (ctx.InWait? && role.Receiver?))
         && (ctx.InStart? <==> x.annId == None)
       case Transfer(ctx, stage) =>
         && x.dataXfer == None
         && (ctx.InStart? <==> x.annId == None)
         && (ctx.InProgress? <==> x.flagXfer.Some?)
         && (ctx.InProgress? ==> ctx.active && role.Receiver? && x.annId.Some? && x.annId.value < x.flagXfer.value)
         && (x.flagXfer.Some? && x.dataId.Some? ==> x.flagXfer.value <= x.dataId.value)
         && (x.flagXfer.Some? ==> x.flagXfer.value <= x.issued)
         && (ctx.InWait? ==> role.Receiver? && !InFlight(x, x.annId))
         && (stage.Load? || stage.Store? || stage.IssueData? <==> x.dataId == None)
         && (stage.Flush? <==> x.finId.Some?)
       case Announce(ctx) =>
         && ctx.InStart? && x.annId == None && x.dataId == None && x.finId == None
         && x.dataXfer == None && x.flagXfer == None && x.net == map[]
       case AnnounceFlush(ctx) =>
         && ctx.InStart? && x.annId.Some? && x.dataId == None && x.finId == None
         && x.dataXfer == None && x.flagXfer == None
       case Started => HandlesOk(x)
       case WaitFlag => HandlesOk(x)
       case WaitData =>
         && x.flagXfer == None && !InFlight(x, x.annId)
         && (x.annId.Some? || x.dataId.Some?)
         && (x.dataId.Some? <==> x.finId.Some?)
         && (x.dataId.Some? <==> x.dataXfer.Some?)
         && (x.dataXfer.Some? ==> x.finId.value < x.dataXfer.value)
       case Spin =>
         && x.flagXfer == None && x.dataXfer == None && x.net == map[]
         && (x.annId.Some? || x.dataId.Some?)
         && (x.dataId.Some? <==> x.finId.Some?)
       case CrossTest =>
         && role.Receiver? && ReadyFlag(x.op) <= x.flag
         && x.flagXfer == None && x.dataXfer == None && x.net == map[]
         && (x.annId.Some? || x.dataId.Some?)
         && (x.dataId.Some? <==> x.finId.Some?)
       case CrossWait =>
         && role.Receiver? && x.flagXfer == None && x.finId.Some? && x.dataXfer.Some?
         && x.finId.value < x.dataXfer.value
  }

  /** The handles between Start and Wait. */
  predicate HandlesOk(x: Side) {
    && (x.annId.Some? || x.dataId.Some?)
    && (x.dataId.Some? <==> x.finId.Some?)
    && (x.annId.Some? <==> x.flagXfer.Some?)
    && (x.dataId.Some? <==> x.dataXfer.Some?)
    && (x.flagXfer.Some? ==> x.annId.value < x.flagXfer.value <= x.issued)
    && (x.flagXfer.Some? && x.dataId.Some? ==> x.flagXfer.value <= x.dataId.value)
    && (x.dataXfer.Some? ==> x.finId.value < x.dataXfer.value)
  }

  predicate SideOk(role: Role, x: Side) {
    NetOk(x) && PcOk(role, x)
  }

  // ---- one side seen with its peer ----

  predicate AboutToMove(x: Side) {
    x.pc.Transfer? && (x.pc.stage.Load? || x.pc.stage.Store? || x.pc.stage.IssueData?)
  }

  predicate PhaseOk(role: Role, x: Side, y: Side, moves: seq<Move>) {
    var m := LastMoved(moves);
    && m <= x.op <= m + 1
    && (x.pc.Idle? ==> x.op == m)
    && (x.op == 1 ==> x.annId == None)
    && ((x.pc.Check? || x.pc.Announce?) ==> x.op == m + 1)
    && (x.pc.Check? && x.pc.ctx.InWait? ==> x.flag == ReadyFlag(x.op))
    && (AboutToMove(x) ==> x.op == m + 1 && y.op == m + 1 && Landed(y, y.annId))
    && (x.pc.Transfer? && x.pc.stage.Store? ==> x.pc.stage.loaded == ReadyFlag(x.op))
    && (x.dataId.Some? <==> x.op == m && MovedBy(moves, role))
    // the side that did not move operation m had announced it
    && (x.op == m && m >= 2 && !MovedBy(moves, role) ==> Landed(x, x.annId))
    // a side that is past operation m has seen the peer close it
    && ((x.pc.Idle? || x.op == m + 1) && m >= 2 && !MovedBy(moves, role) && y.op == m ==> Landed(y, y.finId))
  }

  /** What the flag of `x` holds, as a function of what its peer has issued and what has landed. */
  function FlagValue(role: Role, x: Side, y: Side, moves: seq<Move>): int {
    var m := LastMoved(moves);
    if y.op == m + 1 && y.annId.Some? then
      if InFlight(y, y.annId) then RestFlag(m)
      else if x.op == m + 1 && x.pc.Transfer? && x.pc.stage.IssueData? then DoneFlag(m + 1)
      else ReadyFlag(m + 1)
    else if MovedBy(moves, role) || y.op == m + 1 || m == 1 || Landed(y, y.finId) then RestFlag(m)
    else if Landed(y, y.annId) then ReadyFlag(m)
    else RestFlag(m - 1)
  }

  predicate MovesOk(moves: seq<Move>) {
    forall k | 0 <= k < |moves| :: moves[k].op == k + 2
  }

  // ---- the data ----

  predicate LogsOk(st: State) {
    && |st.s.buf| == |st.r.buf|
    && |st.s.log| == st.s.op - 1
    && |st.r.log| == (if st.r.pc.Idle? then st.r.op - 1 else st.r.op - 2)
    && |st.r.log| <= |st.s.log|
    && (forall k | 0 <= k < |st.r.log| :: st.r.log[k] == st.s.log[k])
    && (forall k | 0 <= k < |st.s.log| :: |st.s.log[k]| == |st.s.buf|)
    && (!st.s.pc.Idle? ==> st.s.op >= 2 && st.s.buf == st.s.log[st.s.op - 2])
  }

  /** A copy in flight has so far moved bytes of `payload` only. */
  predicate CopyOk(c: Flight, payload: Buffer, target: Buffer)
    requires c.Copy?
  {
    && |payload| == |target|
    && (forall i | i in c.wire :: i < |payload| && c.wire[i] == payload[i])
    && (forall i | i in c.done :: i in c.wire && target[i] == payload[i])
  }

  /** The transfer of the last moved operation, issued by `x`. */
  predicate DataOk(role: Role, x: Side, st: State) {
    var m := LastMoved(st.moves);
    MovedBy(st.moves, role) && |st.s.log| >= m - 1 >= 1 ==>
      var payload := st.s.log[m - 2];
      if x.op == m && InFlight(x, x.dataId) then
        && st.s.op == m && !st.s.pc.Idle? && st.r.op == m && !st.r.pc.Idle?
        && x.net[x.dataId.value].Copy?
        && CopyOk(x.net[x.dataId.value], payload, st.r.buf)
      else
        st.r.op == m && !st.r.pc.Idle? ==> st.r.buf == payload
  }

  /** Everything about side `x`, seen with its peer `y`, except the buffers. */
  predicate HalfOk(role: Role, x: Side, y: Side, moves: seq<Move>) {
    SideOk(role, x) && PhaseOk(role, x, y, moves) && x.flag == FlagValue(role, x, y, moves)
  }

  predicate PairOk(role: Role, x: Side, y: Side, moves: seq<Move>) {
    HalfOk(role, x, y, moves) && HalfOk(role.Peer(), y, x, moves)
  }

  /** The part of the invariant that does not speak of buffers. */
  predicate Protocol(st: State) {
    MovesOk(st.moves) && PairOk(Sender, st.s, st.r, st.moves)
  }

  predicate DataInv(st: State) {
    LogsOk(st) && DataOk(Sender, st.s, st) && DataOk(Receiver, st.r, st)
  }

  predicate Inv(st: State) {
    Protocol(st) && DataInv(st)
  }

  lemma InitInv(st: State)
    requires Init(st)
    ensures Inv(st)
  {}

  // ---- the protocol part, event by event: `x` acts, `y` is its peer ----

  /** What a side's own half of the invariant says about its peer. */
  predicate SameForPeer(x: Side, x': Side) {
    && x'.op == x.op && x'.annId == x.annId && x'.finId == x.finId
    && (InFlight(x', x.annId) <==> InFlight(x, x.annId))
    && (InFlight(x', x.finId) <==> InFlight(x, x.finId))
  }

  lemma PeerFrame(role: Role, y: Side, x: Side, x': Side, moves: seq<Move>)
    requires HalfOk(role, y, x, moves) && SameForPeer(x, x')
    ensures HalfOk(role, y, x', moves)
  {
    hide NetOk, PcOk;
  }

  lemma StartPair(role: Role, x: Side, y: Side, moves: seq<Move>)
    requires PairOk(role, x, y, moves) && x.pc.Idle?
    ensures PairOk(role, StartOp(role, x), y, moves)
  {}

  lemma WriteHalf(role: Role, x: Side, y: Side, moves: seq<Move>, data: Buffer)
    requires HalfOk(role, x, y, moves)
    ensures HalfOk(role, x.(buf := data), y, moves) && HalfOk(role, x, y.(buf := data), moves)
  {
    var x', y' := x.(buf := data), y.(buf := data);
    assert SideOk(role, x') by {
      hide PhaseOk, FlagValue;
      assert NetOk(x');
      assert PcOk(role, x');
    }
    assert PhaseOk(role, x', y, moves) && PhaseOk(role, x, y', moves) by {
      hide NetOk, PcOk;
    }
    hide NetOk, PcOk, PhaseOk;
  }

  lemma WritePair(role: Role, x: Side, y: Side, moves: seq<Move>, data: Buffer)
    requires PairOk(role, x, y, moves)
    ensures PairOk(role, x.(buf := data), y, moves)
  {
    hide HalfOk;
    WriteHalf(role, x, y, moves, data);
    WriteHalf(role.Peer(), y, x, moves, data);
  }

  lemma CallWaitActor(role: Role, x: Side, y: Side, moves: seq<Move>)
    requires PairOk(role, x, y, moves) && x.pc.Started?
    ensures HalfOk(role, x.(pc := WaitFlag), y, moves)
  {}

  lemma CallWaitPair(role: Role, x: Side, y: Side, moves: seq<Move>)
    requires PairOk(role, x, y, moves) && x.pc.Started?
    ensures PairOk(role, x.(pc := WaitFlag), y, moves)
  {
    hide HalfOk;
    CallWaitActor(role, x, y, moves);
    PeerFrame(role.Peer(), y, x, x.(pc := WaitFlag), moves);
  }

  lemma ProgressPair(x: Side, y: Side, moves: seq<Move>)
    requires PairOk(Receiver, x, y, moves)
    requires (x.pc.Idle? || x.pc.Started?) && x.flag == ReadyFlag(x.op)
    ensures x.pc.Started?
    ensures PairOk(Receiver, x.(pc := Transfer(InProgress(x.pc.Started?), Load)), y, moves)
  {}

  lemma CopyStepActor(role: Role, x: Side, y: Side, moves: seq<Move>, k: nat, c: Flight)
    requires PairOk(role, x, y, moves) && k in x.net && x.net[k].Copy? && c.Copy? && c.epoch == x.net[k].epoch
    ensures HalfOk(role, x.(net := x.net[k := c]), y, moves)
  {}

  lemma CopyStepPair(role: Role, x: Side, y: Side, moves: seq<Move>, k: nat, c: Flight)
    requires PairOk(role, x, y, moves) && k in x.net && x.net[k].Copy? && c.Copy? && c.epoch == x.net[k].epoch
    ensures PairOk(role, x.(net := x.net[k := c]), y, moves)
  {
    hide HalfOk;
    CopyStepActor(role, x, y, moves, k, c);
    PeerFrame(role.Peer(), y, x, x.(net := x.net[k := c]), moves);
  }

  lemma RetirePair(role: Role, x: Side, y: Side, moves: seq<Move>, k: nat)
    requires PairOk(role, x, y, moves) && Deliverable(x.net, k) && x.net[k].Copy?
    ensures PairOk(role, x.(net := x.net - {k}), y, moves)
  {}

  lemma PutKinds(role: Role, x: Side, k: nat)
    requires SideOk(role, x) && k in x.net && x.net[k].Put?
    ensures (Some(k) == x.annId && x.net[k].value == ReadyFlag(x.op))
         || (Some(k) == x.finId && x.net[k].value == DoneFlag(x.op))
  {}

  lemma DeliverPair(role: Role, x: Side, y: Side, moves: seq<Move>, k: nat)
    requires PairOk(role, x, y, moves) && Deliverable(x.net, k) && x.net[k].Put?
    ensures PairOk(role, x.(net := x.net - {k}), y.(flag := x.net[k].value), moves)
  {
    hide NetOk, PcOk, PhaseOk, FlagValue;
    PutKinds(role, x, k);
    if Some(k) == x.annId && x.net[k].value == ReadyFlag(x.op) {
      DeliverAnnouncementPair(role, x, y, moves, k);
    } else {
      DeliverClosingPair(role, x, y, moves, k);
    }
  }

  lemma DeliverAnnouncementActor(role: Role, x: Side, y: Side, moves: seq<Move>, k: nat)
    requires PairOk(role, x, y, moves) && k in x.net && Some(k) == x.annId
    ensures HalfOk(role, x.(net := x.net - {k}), y.(flag := ReadyFlag(x.op)), moves)
  {}

  lemma DeliverAnnouncementPeer(role: Role, x: Side, y: Side, moves: seq<Move>, k: nat)
    requires PairOk(role, x, y, moves) && k in x.net && Some(k) == x.annId
    ensures HalfOk(role.Peer(), y.(flag := ReadyFlag(x.op)), x.(net := x.net - {k}), moves)
  {}

  lemma DeliverAnnouncementPair(role: Role, x: Side, y: Side, moves: seq<Move>, k: nat)
    requires PairOk(role, x, y, moves) && k in x.net && Some(k) == x.annId
    ensures PairOk(role, x.(net := x.net - {k}), y.(flag := ReadyFlag(x.op)), moves)
  {
    hide HalfOk;
    DeliverAnnouncementActor(role, x, y, moves, k);
    DeliverAnnouncementPeer(role, x, y, moves, k);
  }

  lemma DeliverClosingPair(role: Role, x: Side, y: Side, moves: seq<Move>, k: nat)
    requires PairOk(role, x, y, moves) && Deliverable(x.net, k) && Some(k) == x.finId
    ensures PairOk(role, x.(net := x.net - {k}), y.(flag := DoneFlag(x.op)), moves)
  {
    assert forall j | j in x.net :: j == k;
    assert x.net - {k} == map[];
  }

  lemma RunCheckPair(role: Role, x: Side, y: Side, moves: seq<Move>)
    requires PairOk(role, x, y, moves) && x.pc.Check?
    ensures PairOk(role, Advance(role, x), y, moves)
  {}

  lemma RunAnnouncePair(role: Role, x: Side, y: Side, moves: seq<Move>)
    requires PairOk(role, x, y, moves) && (x.pc.Announce? || x.pc.AnnounceFlush?)
    ensures PairOk(role, Advance(role, x), y, moves)
  {}

  lemma RunLoadStorePair(role: Role, x: Side, y: Side, moves: seq<Move>)
    requires PairOk(role, x, y, moves) && x.pc.Transfer? && (x.pc.stage.Load? || x.pc.stage.Store?)
    ensures PairOk(role, Advance(role, x), y, moves)
  {}

  lemma RunFencePair(role: Role, x: Side, y: Side, moves: seq<Move>)
    requires PairOk(role, x, y, moves) && x.pc.Transfer? && x.pc.stage.Fence?
    ensures PairOk(role, Advance(role, x), y, moves)
  {}

  lemma RunIssueFlagPair(role: Role, x: Side, y: Side, moves: seq<Move>)
    requires PairOk(role, x, y, moves) && x.pc.Transfer? && x.pc.stage.IssueFlag?
    ensures PairOk(role, Advance(role, x), y, moves)
  {}

  lemma RunFlushPair(role: Role, x: Side, y: Side, moves: seq<Move>)
    requires PairOk(role, x, y, moves) && x.pc.Transfer? && x.pc.stage.Flush?
    ensures PairOk(role, Advance(role, x), y, moves)
  {}

  lemma RunIssueDataPair(role: Role, x: Side, y: Side, moves: seq<Move>)
    requires PairOk(role, x, y, moves) && x.pc.Transfer? && x.pc.stage.IssueData? && MovesOk(moves)
    ensures PairOk(role, Advance(role, x), y, moves + [Move(x.op, role)])
    ensures MovesOk(moves + [Move(x.op, role)])
  {}

  lemma RunWaitFlagActor(role: Role, x: Side, y: Side, moves: seq<Move>)
    requires PairOk(role, x, y, moves) && x.pc.WaitFlag?
    ensures HalfOk(role, Advance(role, x), y, moves)
  {}

  lemma RunWaitFlagPair(role: Role, x: Side, y: Side, moves: seq<Move>)
    requires PairOk(role, x, y, moves) && x.pc.WaitFlag?
    ensures PairOk(role, Advance(role, x), y, moves)
  {
    hide HalfOk;
    RunWaitFlagActor(role, x, y, moves);
    PeerFrame(role.Peer(), y, x, Advance(role, x), moves);
  }

  lemma RunWaitDataActor(role: Role, x: Side, y: Side, moves: seq<Move>)
    requires PairOk(role, x, y, moves) && x.pc.WaitData?
    ensures HalfOk(role, Advance(role, x), y, moves)
  {}

  lemma RunWaitDataPair(role: Role, x: Side, y: Side, moves: seq<Move>)
    requires PairOk(role, x, y, moves) && x.pc.WaitData?
    ensures PairOk(role, Advance(role, x), y, moves)
  {
    hide HalfOk;
    RunWaitDataActor(role, x, y, moves);
    PeerFrame(role.Peer(), y, x, Advance(role, x), moves);
  }

  lemma RunSpinActor(role: Role, x: Side, y: Side, moves: seq<Move>)
    requires PairOk(role, x, y, moves) && x.pc.Spin?
    ensures HalfOk(role, Advance(role, x), y, moves)
  {}

  lemma RunSpinPair(role: Role, x: Side, y: Side, moves: seq<Move>)
    requires PairOk(role, x, y, moves) && x.pc.Spin?
    ensures PairOk(role, Advance(role, x), y, moves)
  {
    hide HalfOk;
    RunSpinActor(role, x, y, moves);
    PeerFrame(role.Peer(), y, x, Advance(role, x), moves);
  }

  lemma RunCrossActor(role: Role, x: Side, y: Side, moves: seq<Move>)
    requires PairOk(role, x, y, moves) && (x.pc.CrossTest? || x.pc.CrossWait?)
    ensures HalfOk(role, Advance(role, x), y, moves)
  {}

  lemma RunCrossPair(role: Role, x: Side, y: Side, moves: seq<Move>)
    requires PairOk(role, x, y, moves) && (x.pc.CrossTest? || x.pc.CrossWait?)
    ensures PairOk(role, Advance(role, x), y, moves)
  {
    hide HalfOk;
    RunCrossActor(role, x, y, moves);
    PeerFrame(role.Peer(), y, x, Advance(role, x), moves);
  }

  /** A copy in flight is that of the last moved operation, issued by the side that moved it. */
  lemma CopyMeansMoved(role: Role, x: Side, y: Side, moves: seq<Move>, k: nat)
    requires PairOk(role, x, y, moves) && k in x.net && x.net[k].Copy?
    ensures Some(k) == x.dataId && MovedBy(moves, role) && x.op == LastMoved(moves) >= 2
  {}

  lemma CopyFacts(st: State, role: Role, k: nat)
    requires Inv(st) && k in st.Get(role).net && st.Get(role).net[k].Copy?
    ensures var x := st.Get(role);
      Some(k) == x.dataId && MovedBy(st.moves, role) && x.op == LastMoved(st.moves) >= 2
  {
    hide DataInv, HalfOk;
    CopyMeansMoved(role, st.Get(role), st.Get(role.Peer()), st.moves, k);
  }

  lemma PutIsNotCopy(st: State, role: Role, k: nat)
    requires Inv(st) && k in st.Get(role).net && st.Get(role).net[k].Put?
    ensures InFlight(st.Get(role), st.Get(role).dataId) ==> Some(k) != st.Get(role).dataId
  {
    assert NetOk(st.Get(role));
    hide DataInv, PcOk, PhaseOk, FlagValue;
  }

  lemma StartData(st: State, role: Role)
    requires Inv(st) && Enabled(st, Start(role))
    ensures DataInv(Apply(st, Start(role)))
  {}

  lemma CallWaitData(st: State, role: Role)
    requires Inv(st) && Enabled(st, CallWait(role))
    ensures DataInv(Apply(st, CallWait(role)))
  {
    hide Protocol;
    FrameData(st, role, st.Get(role).(pc := WaitFlag));
  }

  lemma WriteData(st: State, role: Role, data: Buffer)
    requires Inv(st) && Enabled(st, Write(role, data))
    ensures DataInv(Apply(st, Write(role, data)))
  {}

  lemma ProgressData(st: State)
    requires Inv(st) && Enabled(st, Progress)
    ensures DataInv(Apply(st, Progress))
  {
    ProgressPair(st.r, st.s, st.moves);
    hide Protocol, HalfOk;
    FrameData(st, Receiver, st.r.(pc := Transfer(InProgress(true), Load)));
  }

  lemma DeliverData(st: State, role: Role, k: nat)
    requires Inv(st) && Enabled(st, Deliver(role, k))
    ensures DataInv(Apply(st, Deliver(role, k)))
  {
    PutIsNotCopy(st, role, k);
    hide Protocol, DataInv;
    var x, y := st.Get(role), st.Get(role.Peer());
    var st' := st.Set(role, x.(net := x.net - {k}));
    FrameData(st, role, x.(net := x.net - {k}));
    FrameData(st', role.Peer(), y.(flag := x.net[k].value));
  }

  lemma FetchData(st: State, role: Role, k: nat, i: nat)
    requires Inv(st) && Enabled(st, Fetch(role, k, i))
    ensures DataInv(Apply(st, Fetch(role, k, i)))
  {
    CopyFacts(st, role, k);
    hide Protocol, HalfOk;
  }

  lemma CopyStored(c: Flight, payload: Buffer, target: Buffer, i: nat)
    requires c.Copy? && CopyOk(c, payload, target) && i in c.wire
    ensures CopyOk(c.(done := c.done + {i}), payload, target[i := c.wire[i]])
  {}

  lemma StoreData(st: State, role: Role, k: nat, i: nat)
    requires Inv(st) && Enabled(st, StoreByte(role, k, i))
    ensures DataInv(Apply(st, StoreByte(role, k, i)))
  {
    CopyFacts(st, role, k);
    var c := st.Get(role).net[k];
    assert CopyOk(c, st.s.log[LastMoved(st.moves) - 2], st.r.buf) by {
      hide Protocol, HalfOk;
    }
    CopyStored(c, st.s.log[LastMoved(st.moves) - 2], st.r.buf, i);
    hide Protocol, HalfOk, CopyOk;
  }

  lemma RetireData(st: State, role: Role, k: nat)
    requires Inv(st) && Enabled(st, Retire(role, k))
    ensures DataInv(Apply(st, Retire(role, k)))
  {
    CopyFacts(st, role, k);
    hide Protocol, HalfOk;
  }

  lemma RunIssueDataData(st: State, role: Role)
    requires Inv(st) && Enabled(st, Run(role)) && st.Get(role).pc.Transfer? && st.Get(role).pc.stage.IssueData?
    ensures DataInv(Apply(st, Run(role)))
  {}

  lemma SenderReturnData(st: State)
    requires Inv(st) && Enabled(st, Run(Sender)) && st.s.pc.Spin?
    ensures DataInv(Apply(st, Run(Sender)))
  {}

  lemma ReceiverSpinData(st: State)
    requires Inv(st) && Enabled(st, Run(Receiver)) && st.r.pc.Spin?
    ensures DataInv(Apply(st, Run(Receiver)))
  {}

  lemma CrossTestData(st: State)
    requires Inv(st) && Enabled(st, Run(Receiver)) && st.r.pc.CrossTest?
    ensures DataInv(Apply(st, Run(Receiver)))
  {}

  lemma CrossWaitData(st: State)
    requires Inv(st) && Enabled(st, Run(Receiver)) && st.r.pc.CrossWait?
    ensures DataInv(Apply(st, Run(Receiver)))
  {}

  lemma ReceiverReturnData(st: State)
    requires Inv(st) && Enabled(st, Run(Receiver)) && (st.r.pc.CrossTest? || st.r.pc.CrossWait?)
    ensures DataInv(Apply(st, Run(Receiver)))
  {
    hide Inv, DataInv, Apply;
    if st.r.pc.CrossTest? {
      CrossTestData(st);
    } else {
      CrossWaitData(st);
    }
  }

  lemma OnlyReceiverCrosses(role: Role, x: Side)
    requires SideOk(role, x) && (x.pc.CrossTest? || x.pc.CrossWait?)
    ensures role.Receiver?
  {}

  lemma RunReturnData(st: State, role: Role)
    requires Inv(st) && Enabled(st, Run(role))
    requires st.Get(role).pc.Spin? || st.Get(role).pc.CrossTest? || st.Get(role).pc.CrossWait?
    ensures DataInv(Apply(st, Run(role)))
  {
    hide NetOk, PcOk, PhaseOk, FlagValue, DataInv, Advance;
    if st.Get(role).pc.Spin? {
      if role.Sender? {
        SenderReturnData(st);
      } else {
        ReceiverSpinData(st);
      }
    } else {
      OnlyReceiverCrosses(role, st.Get(role));
      ReceiverReturnData(st);
    }
  }

  /** A step of one side that leaves its buffer, its log and its copy in flight alone. */
  lemma FrameData(st: State, role: Role, x': Side)
    requires DataInv(st)
    requires var x := st.Get(role);
      && x'.op == x.op && x'.buf == x.buf && x'.log == x.log && x'.dataId == x.dataId
      && (x'.pc.Idle? <==> x.pc.Idle?)
      && (InFlight(x, x.dataId) <==> InFlight(x', x.dataId))
      && (InFlight(x, x.dataId) ==> x'.net[x.dataId.value] == x.net[x.dataId.value])
    ensures DataInv(st.Set(role, x'))
  {}

  lemma RunOtherData(st: State, role: Role)
    requires Inv(st) && Enabled(st, Run(role))
    requires !(st.Get(role).pc.Transfer? && st.Get(role).pc.stage.IssueData?)
    requires !(st.Get(role).pc.Spin? || st.Get(role).pc.CrossTest? || st.Get(role).pc.CrossWait?)
    ensures DataInv(Apply(st, Run(role)))
  {
    var x := st.Get(role);
    assert SideOk(role, x);
    FrameData(st, role, Advance(role, x));
  }

  // ---- the invariant over whole runs ----

  lemma RunProtocol(st: State, role: Role)
    requires Protocol(st) && Enabled(st, Run(role))
    ensures Protocol(Apply(st, Run(role)))
  {
    hide HalfOk;
    var x, y := st.Get(role), st.Get(role.Peer());
    assert PairOk(role, x, y, st.moves);
    match x.pc {
      case Check(_) => RunCheckPair(role, x, y, st.moves);
      case Announce(_) => RunAnnouncePair(role, x, y, st.moves);
      case AnnounceFlush(_) => RunAnnouncePair(role, x, y, st.moves);
      case WaitFlag => RunWaitFlagPair(role, x, y, st.moves);
      case WaitData => RunWaitDataPair(role, x, y, st.moves);
      case Spin => RunSpinPair(role, x, y, st.moves);
      case CrossTest => RunCrossPair(role, x, y, st.moves);
      case CrossWait => RunCrossPair(role, x, y, st.moves);
      case Transfer(_, stage) =>
        match stage {
          case Load => RunLoadStorePair(role, x, y, st.moves);
          case Store(_) => RunLoadStorePair(role, x, y, st.moves);
          case IssueData => RunIssueDataPair(role, x, y, st.moves);
          case Fence => RunFencePair(role, x, y, st.moves);
          case IssueFlag => RunIssueFlagPair(role, x, y, st.moves);
          case Flush => RunFlushPair(role, x, y, st.moves);
        }
    }
  }

  lemma StepProtocol(st: State, e: Event)
    requires Protocol(st) && Enabled(st, e)
    ensures Protocol(Apply(st, e))
  {
    hide HalfOk;
    var role := if e.Progress? then Receiver else e.role;
    var x, y := st.Get(role), st.Get(role.Peer());
    assert PairOk(role, x, y, st.moves);
    match e {
      case Start(_) => StartPair(role, x, y, st.moves);
      case CallWait(_) => CallWaitPair(role, x, y, st.moves);
      case Write(_, data) => WritePair(role, x, y, st.moves, data);
      case Run(_) => RunProtocol(st, role);
      case Progress => ProgressPair(x, y, st.moves);
      case Deliver(_, k) => DeliverPair(role, x, y, st.moves, k);
      case Fetch(_, k, i) =>
        CopyStepPair(role, x, y, st.moves, k, x.net[k].(wire := x.net[k].wire[i := st.s.buf[i]]));
      case StoreByte(_, k, i) =>
        var c := x.net[k];
        var x' := x.(net := x.net[k := c.(done := c.done + {i})]);
        CopyStepPair(role, x, y, st.moves, k, c.(done := c.done + {i}));
        if role.Sender? {
          WritePair(Receiver, y, x', st.moves, y.buf[i := c.wire[i]]);
        } else {
          WritePair(Receiver, x', y, st.moves, x.buf[i := c.wire[i]]);
        }
      case Retire(_, k) => RetirePair(role, x, y, st.moves, k);
    }
  }

  lemma StepData(st: State, e: Event)
    requires Inv(st) && Enabled(st, e)
    ensures DataInv(Apply(st, e))
  {
    hide Protocol, DataInv;
    match e {
      case Start(role) => StartData(st, role);
      case CallWait(role) => CallWaitData(st, role);
      case Write(role, data) => WriteData(st, role, data);
      case Progress => ProgressData(st);
      case Deliver(role, k) => DeliverData(st, role, k);
      case Fetch(role, k, i) => FetchData(st, role, k, i);
      case StoreByte(role, k, i) => StoreData(st, role, k, i);
      case Retire(role, k) => RetireData(st, role, k);
      case Run(role) =>
        var x := st.Get(role);
        if x.pc.Transfer? && x.pc.stage.IssueData? {
          RunIssueDataData(st, role);
        } else if x.pc.Spin? || x.pc.CrossTest? || x.pc.CrossWait? {
          RunReturnData(st, role);
        } else {
          RunOtherData(st, role);
        }
    }
  }

  /** Every event keeps the invariant. */
  lemma StepInv(st: State, e: Event)
    requires Inv(st) && Enabled(st, e)
    ensures Inv(Apply(st, e))
  {
    StepProtocol(st, e);
    StepData(st, e);
  }

  /** Every run keeps the invariant. */
  lemma {:induction false} ExecInv(st: State, es: seq<Event>)
    requires Inv(st) && Runs(st, es)
    ensures Inv(Exec(st, es))
    decreases |es|
  {
    if es != [] {
      StepInv(st, es[0]);
      ExecInv(Apply(st, es[0]), es[1..]);
    }
  }

  lemma ReachableInv(st: State)
    requires Reachable(st)
    ensures Inv(st)
  {
    var st0, es :| Init(st0) && Runs(st0, es) && st == Exec(st0, es);
    InitInv(st0);
    ExecInv(st0, es);
  }

  lemma {:induction false} Snoc(st: State, es: seq<Event>, e: Event)
    requires Runs(st, es) && Enabled(Exec(st, es), e)
    ensures Runs(st, es + [e]) && Exec(st, es + [e]) == Apply(Exec(st, es), e)
    decreases |es|
  {
    if es == [] {
      assert Runs(Apply(st, e), []) && ([] + [e])[1..] == [];
    } else {
      Snoc(Apply(st, es[0]), es[1..], e);
      assert (es + [e])[1..] == es[1..] + [e];
    }
  }

  lemma ReachableStep(st: State, e: Event)
    requires Reachable(st) && Enabled(st, e)
    ensures Reachable(Apply(st, e))
  {
    var st0, es :| Init(st0) && Runs(st0, es) && st == Exec(st0, es);
    Snoc(st0, es, e);
  }
}
