/**
  Who moves the data of an operation: what Start does, over every run, as a function of the flag it
  tests. A side that finds its flag at 2n+1 moves the data, sender and receiver alike; a side that does
  not announces itself and leaves the data to its peer.
 */
module RdmaDecision {
  import opened Common
  import opened RdmaMachine
  import opened RdmaInvariant
  import opened RdmaTheorems
  import F = RdmaFlagBuffer

  /** Between the test of the flag and the return from Start, `role` is not called for anything else. */
  predicate OneStart(role: Role, es: seq<Event>) {
    forall k | 0 <= k < |es| :: es[k] != Start(role) && es[k] != CallWait(role) && !es[k].Progress?
  }

  lemma Split(role: Role, es: seq<Event>)
    requires OneStart(role, es) && es != []
    ensures OneStart(role, [es[0]]) && OneStart(role, es[1..])
  {}

  /** How far a Start that moves the data has come, since the test in `st0`. */
  predicate Moving(role: Role, st0: State, st: State) {
    var x0, x := st0.Get(role), st.Get(role);
    && x.op == x0.op && x.annId == None && x.flagXfer == None
    && (x.pc.Started? || (x.pc.Transfer? && x.pc.ctx.InStart?))
    && if AboutToMove(x) then
         && st.moves == st0.moves && x.issued == x0.issued && x.epoch == x0.epoch
       else
         && st.moves == st0.moves + [Move(x.op, role)]
         && x.dataId == Some(x0.issued)
         && (if x.pc.Started? || x.pc.stage.Flush? then x.issued == x0.issued + 2 && x.finId == Some(x0.issued + 1)
             else x.issued == x0.issued + 1)
         && (x.pc.Started? ==> x.dataXfer == Some(x.issued) && x.epoch == x0.epoch + 1)
         && (x.pc.Transfer? && !x.pc.stage.Fence? ==> x.epoch == x0.epoch + 1)
         && (x.pc.Transfer? && x.pc.stage.Fence? ==> x.epoch == x0.epoch)
  }

  /** ... and one that announces itself; the peer may then move the data. */
  predicate Announcing(role: Role, st0: State, st: State) {
    var x0, x := st0.Get(role), st.Get(role);
    && x.op == x0.op && x.dataId == None && x.finId == None && x.dataXfer == None && x.epoch == x0.epoch
    && (st.moves == st0.moves || st.moves == st0.moves + [Move(x.op, role.Peer())])
    && (x.pc == Announce(InStart) || x.pc == AnnounceFlush(InStart) || x.pc.Started?)
    && (if x.pc.Announce? then x.issued == x0.issued && x.annId == None
        else x.issued == x0.issued + 1 && x.annId == Some(x0.issued))
    && (x.pc.Started? ==> x.flagXfer == Some(x.issued))
  }

  /** A side that issues its data transfer now. */
  predicate Issues(x: Side) {
    x.pc.Transfer? && x.pc.stage.IssueData?
  }

  lemma PeerStepKeepsSide(st: State, role: Role, e: Event)
    requires Enabled(st, e) && e != Run(role) && e != Start(role) && e != CallWait(role) && !e.Progress?
    ensures var x, x' := st.Get(role), Apply(st, e).Get(role);
      x' == x.(flag := x'.flag, buf := x'.buf, net := x'.net)
    ensures var y, moves := st.Get(role.Peer()), Apply(st, e).moves;
      moves == st.moves || (Issues(y) && moves == st.moves + [Move(y.op, role.Peer())])
  {}

  /** The peer cannot move the data while `role` does, nor for another operation while `role` waits for it. */
  lemma PeerMoves(st: State, role: Role)
    requires Inv(st) && Issues(st.Get(role.Peer()))
    ensures var x, y := st.Get(role), st.Get(role.Peer());
      x.annId.Some? && x.annId.value !in x.net && x.op == y.op == |st.moves| + 2
  {
    hide DataInv, HalfOk;
    PeerOk(st, role.Peer());
    PeerMovesHalf(role.Peer(), st.Get(role.Peer()), st.Get(role), st.moves);
  }

  lemma PeerMovesHalf(role: Role, x: Side, y: Side, moves: seq<Move>)
    requires HalfOk(role, x, y, moves) && Issues(x)
    ensures y.annId.Some? && y.annId.value !in y.net && y.op == x.op == |moves| + 2
  {}

  lemma MovingOwnStep(role: Role, st0: State, st: State)
    requires Moving(role, st0, st) && Enabled(st, Run(role))
    ensures Moving(role, st0, Apply(st, Run(role)))
  {}

  lemma MovingStep(role: Role, st0: State, st: State, e: Event)
    requires Inv(st) && Moving(role, st0, st) && Enabled(st, e) && OneStart(role, [e])
    ensures Moving(role, st0, Apply(st, e))
  {
    hide Inv;
    assert [e][0] == e;
    if e == Run(role) {
      MovingOwnStep(role, st0, st);
    } else {
      PeerStepKeepsSide(st, role, e);
      if Issues(st.Get(role.Peer())) {
        PeerMoves(st, role);
      }
      hide Apply;
    }
  }

  lemma AnnouncingOwnStep(role: Role, st0: State, st: State)
    requires Announcing(role, st0, st) && Enabled(st, Run(role))
    ensures Announcing(role, st0, Apply(st, Run(role)))
  {}

  lemma AnnouncingStep(role: Role, st0: State, st: State, e: Event)
    requires Inv(st) && Announcing(role, st0, st) && Enabled(st, e) && OneStart(role, [e])
    requires st0.Get(role).op == |st0.moves| + 2
    ensures Announcing(role, st0, Apply(st, e))
  {
    hide Inv;
    assert [e][0] == e;
    if e == Run(role) {
      AnnouncingOwnStep(role, st0, st);
    } else {
      PeerStepKeepsSide(st, role, e);
      if Issues(st.Get(role.Peer())) {
        PeerMoves(st, role);
      }
      hide Apply;
    }
  }

  lemma {:induction false} MovingRun(role: Role, st0: State, st: State, es: seq<Event>)
    requires Inv(st) && Moving(role, st0, st) && Runs(st, es) && OneStart(role, es)
    ensures Inv(Exec(st, es)) && Moving(role, st0, Exec(st, es))
    decreases |es|
  {
    if es != [] {
      hide Inv, Moving, Apply, Enabled, OneStart;
      Split(role, es);
      StepInv(st, es[0]);
      MovingStep(role, st0, st, es[0]);
      MovingRun(role, st0, Apply(st, es[0]), es[1..]);
    }
  }

  lemma {:induction false} AnnouncingRun(role: Role, st0: State, st: State, es: seq<Event>)
    requires Inv(st) && Announcing(role, st0, st) && Runs(st, es) && OneStart(role, es)
    requires st0.Get(role).op == |st0.moves| + 2
    ensures Inv(Exec(st, es)) && Announcing(role, st0, Exec(st, es))
    decreases |es|
  {
    if es != [] {
      hide Inv, Announcing, Apply, Enabled, OneStart;
      Split(role, es);
      StepInv(st, es[0]);
      AnnouncingStep(role, st0, st, es[0]);
      AnnouncingRun(role, st0, Apply(st, es[0]), es[1..]);
    }
  }

  lemma CheckFacts(st: State, role: Role)
    requires Inv(st) && st.Get(role).pc == Check(InStart)
    ensures var x := st.Get(role);
      && x.op == |st.moves| + 2 && x.annId == None && x.dataId == None && x.finId == None
      && x.flagXfer == None && x.dataXfer == None
  {
    hide DataInv, HalfOk;
    PeerOk(st, role);
    CheckHalf(role, st.Get(role), st.Get(role.Peer()), st.moves);
  }

  lemma CheckHalf(role: Role, x: Side, y: Side, moves: seq<Move>)
    requires HalfOk(role, x, y, moves) && x.pc == Check(InStart)
    ensures x.op == |moves| + 2 && x.annId == None && x.dataId == None && x.finId == None
    ensures x.flagXfer == None && x.dataXfer == None
  {}

  /** The flag of a side that has moved operation n is 2n+2, unless its peer has gone on to n+1. */
  lemma FlagAfterMove(st: State, role: Role)
    requires Inv(st) && st.Get(role).pc.Started? && st.Get(role).dataId.Some?
    ensures var x, y := st.Get(role), st.Get(role.Peer()); x.flag == DoneFlag(x.op) || y.op == x.op + 1
  {
    hide DataInv, HalfOk;
    PeerOk(st, role);
    MovedHalf(role, st.Get(role), st.Get(role.Peer()), st.moves);
  }

  lemma MovedHalf(role: Role, x: Side, y: Side, moves: seq<Move>)
    requires PairOk(role, x, y, moves) && x.pc.Started? && x.dataId.Some?
    ensures x.flag == DoneFlag(x.op) || y.op == x.op + 1
  {}

  /**
    Since the test of the flag in `st`, the side has moved the data of operation n: a copy and, after a
    fence, a put have been issued, and its flag is 2n+2, until the peer announces n+1.
   */
  predicate HasMoved(role: Role, st: State, end: State) {
    var x, x', y' := st.Get(role), end.Get(role), end.Get(role.Peer());
    && end.moves == st.moves + [Move(x.op, role)]
    && x'.issued == x.issued + 2 && x'.epoch == x.epoch + 1
    && x'.dataId == Some(x.issued) && x'.finId == Some(x.issued + 1) && x'.annId == None
    && x'.dataXfer == Some(x'.issued) && x'.flagXfer == None
    && (x'.flag == 2 * x.op + 2 || y'.op == x.op + 1)
  }

  /** It has issued one put, no data, and at most the peer has moved the data. */
  predicate HasAnnounced(role: Role, st: State, end: State) {
    var x, x' := st.Get(role), end.Get(role);
    && (end.moves == st.moves || end.moves == st.moves + [Move(x.op, role.Peer())])
    && x'.issued == x.issued + 1 && x'.epoch == x.epoch
    && x'.annId == Some(x.issued) && x'.dataId == None && x'.finId == None
    && x'.flagXfer == Some(x'.issued) && x'.dataXfer == None
  }

  /**
    Start of operation n on either side, whatever happens meanwhile. The state `st` is the one in which
    it tests its flag: if that is 2n+1, the side has moved the data when Start returns, otherwise it has
    announced itself.
   */
  lemma StartDecides(st: State, role: Role, es: seq<Event>)
    requires Reachable(st) && st.Get(role).pc == Check(InStart)
    requires es != [] && es[0] == Run(role) && Runs(st, es) && OneStart(role, es)
    requires Exec(st, es).Get(role).pc.Started?
    ensures Exec(st, es).Get(role).op == st.Get(role).op == |st.moves| + 2
    ensures if st.Get(role).flag == 2 * st.Get(role).op + 1 then HasMoved(role, st, Exec(st, es))
            else HasAnnounced(role, st, Exec(st, es))
  {
    ReachableInv(st);
    CheckFacts(st, role);
    TestLeads(st, role);
    Split(role, es);
    StepInv(st, Run(role));
    hide Inv, Reachable, Enabled, Apply, OneStart, Moving, Announcing, HasMoved, HasAnnounced;
    var st1 := Apply(st, Run(role));
    var end := Exec(st1, es[1..]);
    assert end == Exec(st, es) && Runs(st1, es[1..]);
    hide Exec, Runs;
    if st.Get(role).flag == 2 * st.Get(role).op + 1 {
      MovingRun(role, st, st1, es[1..]);
      EndOfMove(st, role, end);
    } else {
      AnnouncingRun(role, st, st1, es[1..]);
      EndOfAnnouncement(st, role, end);
    }
  }

  lemma EndOfMove(st: State, role: Role, end: State)
    requires Inv(end) && Moving(role, st, end) && end.Get(role).pc.Started?
    ensures HasMoved(role, st, end) && end.Get(role).op == st.Get(role).op
  {
    FlagAfterMove(end, role);
    hide Inv;
  }

  lemma EndOfAnnouncement(st: State, role: Role, end: State)
    requires Announcing(role, st, end) && end.Get(role).pc.Started?
    ensures HasAnnounced(role, st, end) && end.Get(role).op == st.Get(role).op
  {}

  lemma TestLeads(st: State, role: Role)
    requires Inv(st) && st.Get(role).pc == Check(InStart) && Enabled(st, Run(role))
    ensures if st.Get(role).flag == 2 * st.Get(role).op + 1 then Moving(role, st, Apply(st, Run(role)))
            else Announcing(role, st, Apply(st, Run(role)))
  {
    CheckFacts(st, role);
    hide Inv;
  }

  // ---- both sides do move data ----

  /** For all buffers, a run in which the receiver starts operation 2 first and the sender pushes. */
  lemma SenderPushes(b: Buffer, c: Buffer) returns (st: State)
    requires |b| == |c|
    ensures Reachable(st) && st.moves == [Move(2, Sender)] && st.s.pc.Started? && st.s.flag == 6
  {
    hide Reachable;
    st := State(F.Inactive(b), F.Inactive(c), []);
    F.InitReachable(st);
    st := F.AnnouncingStart(st, Receiver);
    ReachableStep(st, Deliver(Receiver, 0));
    st := Apply(st, Deliver(Receiver, 0));
    ReachableStep(st, Start(Sender));
    st := Apply(st, Start(Sender));
    st := PushAll(st);
  }

  lemma PushAll(st: State) returns (st': State)
    requires Reachable(st) && st.s.pc == Check(InStart) && st.s.flag == 5 && st.s.op == 2 && st.moves == []
    ensures Reachable(st') && st'.moves == [Move(2, Sender)] && st'.s.pc.Started? && st'.s.flag == 6
  {
    hide Reachable;
    ReachableStep(st, Run(Sender));
    var st1 := Apply(st, Run(Sender));
    ReachableStep(st1, Run(Sender));
    var st2 := Apply(st1, Run(Sender));
    ReachableStep(st2, Run(Sender));
    var st3 := Apply(st2, Run(Sender));
    ReachableStep(st3, Run(Sender));
    var st4 := Apply(st3, Run(Sender));
    ReachableStep(st4, Run(Sender));
    var st5 := Apply(st4, Run(Sender));
    ReachableStep(st5, Run(Sender));
    var st6 := Apply(st5, Run(Sender));
    ReachableStep(st6, Run(Sender));
    st' := Apply(st6, Run(Sender));
  }
}
