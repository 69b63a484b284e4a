/** What the RDMA phase guarantees in every reachable state, i.e. over every interleaving. */
module RdmaTheorems {
  import opened Common
  import opened RdmaMachine
  import opened RdmaInvariant

  /** How many operations a side has completed, counting operation 1. */
  function Completed(x: Side): int {
    if x.pc.Idle? then x.op else x.op - 1
  }

  /** How many transfers of operation n were issued. */
  function TransfersOf(moves: seq<Move>, n: nat): nat {
    if moves == [] then 0
    else TransfersOf(moves[..|moves| - 1], n) + (if moves[|moves| - 1].op == n then 1 else 0)
  }

  // ---- data integrity ----

  /**
    The receiver has logged one buffer for each operation it has completed (from operation 2 on), and
    each equals the buffer the sender had at its Start of that operation.
   */
  lemma Integrity(st: State)
    requires Reachable(st)
    ensures |st.r.log| == Completed(st.r) - 1 && |st.s.log| == st.s.op - 1
    ensures |st.r.log| <= |st.s.log|
    ensures forall k | 0 <= k < |st.r.log| :: st.r.log[k] == st.s.log[k]
  {
    ReachableInv(st);
  }

  /** When a receiver's Wait returns from operation n, its buffer is the sender's at Start of n. */
  lemma ReturnDelivers(st: State)
    requires Reachable(st) && Enabled(st, Run(Receiver)) && Apply(st, Run(Receiver)).r.pc.Idle?
    ensures var st' := Apply(st, Run(Receiver));
      && 2 <= st.r.op <= |st.s.log| + 1
      && st'.r.buf == st.s.log[st.r.op - 2]
  {
    ReachableInv(st);
    StepInv(st, Run(Receiver));
    hide Reachable, Protocol, DataOk;
  }

  /** The sender's log is what it says: Start appends the buffer, nothing else touches the log. */
  lemma SenderLogStep(st: State, e: Event)
    requires Enabled(st, e)
    ensures Apply(st, e).s.log == if e == Start(Sender) then st.s.log + [st.s.buf] else st.s.log
  {}

  // ---- exactly one transfer ----

  lemma {:induction false} TransfersByPosition(moves: seq<Move>, n: nat)
    requires MovesOk(moves)
    ensures TransfersOf(moves, n) == if 2 <= n <= |moves| + 1 then 1 else 0
  {
    if moves != [] {
      assert moves[|moves| - 1].op == |moves| + 1;
      TransfersByPosition(moves[..|moves| - 1], n);
    }
  }

  /**
    No operation is transferred twice, by either side or by both; every operation that some side has
    completed was transferred exactly once, and so was every operation both have completed.
   */
  lemma ExactlyOneTransfer(st: State, n: nat)
    requires Reachable(st) && n >= 2
    ensures TransfersOf(st.moves, n) <= 1
    ensures forall role: Role :: n <= Completed(st.Get(role)) ==> TransfersOf(st.moves, n) == 1
    ensures st.s.op < n || st.r.op < n ==> TransfersOf(st.moves, n) == 0
  {
    ReachableInv(st);
    TransfersByPosition(st.moves, n);
  }

  // ---- the flags ----

  /**
    While a side is inside `flag++`, no put to its flag is in flight, the flag is 2n+1 and, once
    loaded, still has the loaded value when the increment is stored.
   */
  lemma NoLostUpdate(st: State, role: Role)
    requires Reachable(st)
    requires var pc := st.Get(role).pc; pc.Transfer? && (pc.stage.Load? || pc.stage.Store?)
    ensures var x, y := st.Get(role), st.Get(role.Peer());
      && (forall k | k in y.net :: !y.net[k].Put?)
      && x.flag == ReadyFlag(x.op)
      && (x.pc.stage.Store? ==> x.pc.stage.loaded == x.flag)
  {
    ReachableInv(st);
    var x, y := st.Get(role), st.Get(role.Peer());
    assert PairOk(role, x, y, st.moves);
  }

  lemma PeerOk(st: State, role: Role)
    requires Protocol(st)
    ensures PairOk(role, st.Get(role), st.Get(role.Peer()), st.moves)
  {
    hide HalfOk;
  }

  lemma DeliverRaisesFlag(role: Role, x: Side, y: Side, moves: seq<Move>, k: nat)
    requires PairOk(role, x, y, moves) && Deliverable(x.net, k) && x.net[k].Put?
    ensures y.flag < x.net[k].value
  {
    PutKinds(role, x, k);
  }

  lemma OtherFlagsStay(st: State, e: Event, role: Role)
    requires Enabled(st, e) && e != Run(role) && !(e.Deliver? && role == e.role.Peer())
    ensures Apply(st, e).Get(role).flag == st.Get(role).flag
  {}

  /** No event ever lowers a flag. */
  lemma FlagMonotone(st: State, e: Event, role: Role)
    requires Reachable(st) && Enabled(st, e)
    ensures st.Get(role).flag <= Apply(st, e).Get(role).flag
  {
    if e.Deliver? && role == e.role.Peer() {
      ReachableInv(st);
      hide Reachable, HalfOk, DataInv;
      PeerOk(st, e.role);
      DeliverRaisesFlag(e.role, st.Get(e.role), st.Get(role), st.moves, e.k);
    } else if e == Run(role) {
      StoreRaisesFlag(st, role);
      hide Reachable, Advance;
    } else {
      OtherFlagsStay(st, e, role);
    }
  }

  lemma StoreRaisesFlag(st: State, role: Role)
    requires Reachable(st) && Enabled(st, Run(role))
    ensures st.Get(role).flag <= Advance(role, st.Get(role)).flag
  {
    var x := st.Get(role);
    if x.pc.Transfer? && x.pc.stage.Store? {
      NoLostUpdate(st, role);
    }
  }

  /**
    The operation numbers differ by at most one, and a side in operation n neither holds a flag above
    2n+3 nor has one in flight to it.
   */
  lemma BoundedSkew(st: State, role: Role)
    requires Reachable(st)
    ensures var x, y := st.Get(role), st.Get(role.Peer());
      && -1 <= x.op - y.op <= 1
      && 0 <= x.flag <= ReadyFlag(x.op + 1)
      && forall k | k in y.net && y.net[k].Put? :: y.net[k].value <= ReadyFlag(x.op + 1)
  {
    ReachableInv(st);
    PeerOk(st, role);
    SkewOfPair(role, st.Get(role), st.Get(role.Peer()), st.moves);
  }

  lemma SkewOfPair(role: Role, x: Side, y: Side, moves: seq<Move>)
    requires PairOk(role, x, y, moves)
    ensures -1 <= x.op - y.op <= 1
    ensures 0 <= x.flag <= ReadyFlag(x.op + 1)
    ensures forall k | k in y.net && y.net[k].Put? :: y.net[k].value <= ReadyFlag(x.op + 1)
  {}

  // ---- buffers and handles ----

  /**
    An inactive side has no transfer outstanding: both handles are null, nothing it issued is in
    flight, and no copy is in flight anywhere, so no remote operation touches its data buffer.
   */
  lemma Quiescence(st: State, role: Role)
    requires Reachable(st) && st.Get(role).pc.Idle?
    ensures var x, y := st.Get(role), st.Get(role.Peer());
      && x.flagXfer == None && x.dataXfer == None && x.net == map[]
      && forall k | k in y.net :: y.net[k].Put?
  {
    ReachableInv(st);
    var x, y := st.Get(role), st.Get(role.Peer());
    PeerOk(st, role);
    forall k | k in y.net ensures y.net[k].Put? {
      if y.net[k].Copy? {
        CopyMeansMoved(role.Peer(), y, x, st.moves, k);
        assert false;
      }
    }
  }

  /** No remote operation reaches an inactive request: the progress engine leaves it alone. */
  lemma ProgressIgnoresInactive(st: State)
    requires Reachable(st) && st.r.pc.Idle?
    ensures !Enabled(st, Progress)
  {
    ReachableInv(st);
    assert PhaseOk(Receiver, st.r, st.s, st.moves);
  }

  /**
    The asserts of the RDMA code hold: the flag after `flag++`, the null handle before each flush is
    started (including the one the progress engine does not check), and both handles at free.
   */
  predicate AssertsHold(x: Side) {
    match x.pc
    case Transfer(_, stage) =>
      (stage.IssueData? ==> x.flag == DoneFlag(x.op)) && (stage.Flush? ==> x.dataXfer == None)
    case AnnounceFlush(_) => x.flagXfer == None
    case Idle => x.flagXfer == None && x.dataXfer == None
    case _ => true
  }

  lemma AssertsNeverFail(st: State, role: Role)
    requires Reachable(st)
    ensures AssertsHold(st.Get(role))
  {
    ReachableInv(st);
    PeerOk(st, role);
  }
}
