/**
  Operation 1 of a persistent pair, and every later operation of a pair that fell back, as a step
  system: the handshake on its two communicators, the payload messages, and what Start, Wait and the
  progress engine do with them. Each `Run` is one statement of one side.

  What is assumed of MPI (version 3.1 of the standard):
  - a synchronous send completes only after it has been matched (section 3.4);
  - payload messages and posted receives match in order (section 3.5), and a probe reports the
    message the next posted receive would get;
  - a message carries the buffer its send was given, and a standard-mode send may complete at once;
  - how long a message takes to become visible is arbitrary.
  A request is not progressed while it is itself being started or waited on.
 */
module ConnectionMachine {
  import opened Common

  /** A side's own handshake message. */
  datatype Handshake = Unsent | Travelling | Visible | Matched

  /** From where `progress_request_waiting_for_rdma` was entered. */
  datatype Site = FromIdle | FromStarted | AtStart | AtWait

  datatype Pc =
    | Absent                     // before init
    | Idle
    | Probe(site: Site)          // progress_request_waiting_for_rdma: is the peer's handshake there?
    | ReceiveInfo(site: Site)    // receive_rdma_info: receive it
    | AwaitOwn(site: Site)       // ... until the own handshake has been matched
    | PostCheck(site: Site)      // an active receiver with a connection posts its receive
    | StartPost                  // the rest of Start
    | Started
    | NoteMode | TestSend | DecideSend                              // sender's Wait
    | LoopTest | LoopProbe | PostIfNeeded | DecideRecv | TestRecv   // receiver's Wait
    | MpiWait                                                       // Wait in fallback mode

  /** `addr`: the peer's address is known. `seen`: the payload flag of the receiver's Wait loop. */
  datatype Side = Side(pc: Pc, op: nat, kind: Kind, addr: bool, hs: Handshake, backup: Option<nat>,
                       seen: bool, buf: Buffer, log: seq<Buffer>)

  /**
    Messages sent, and how many have become visible, had a receive posted, been matched, landed.
    `early` is history: the receiver's Start saw the payload but no handshake and posted its receive.
   */
  datatype State = State(s: Side, r: Side, sent: seq<Buffer>, arrived: nat, posted: nat, matched: nat, landed: nat,
                         early: bool) {
    function Get(role: Role): Side {
      if role.Sender? then s else r
    }

    function Set(role: Role, x: Side): State {
      if role.Sender? then this.(s := x) else this.(r := x)
    }

    /** MPI_Iprobe on the payload communicator. */
    predicate PayloadProbe() { posted < arrived }

    /** MPI_Irecv of the next payload. */
    function PostReceive(): State {
      this.(r := r.(backup := Some(posted)), posted := posted + 1)
    }
  }

  function AfterProgress(role: Role, site: Site): Pc {
    match site
    case FromIdle => Idle
    case FromStarted => Started
    case AtStart => StartPost
    case AtWait => if role.Sender? then NoteMode else LoopTest
  }

  /** Would MPI_Test or MPI_Wait find the backup request complete? */
  predicate BackupDone(st: State, role: Role) {
    match st.Get(role).backup
    case None => true
    case Some(i) => if role.Sender? then i > 0 || st.matched > 0 else st.landed > i
  }

  predicate CanRun(st: State, role: Role) {
    var x := st.Get(role);
    match x.pc
    case Absent => false
    case Idle => false
    case Started => false
    case ReceiveInfo(_) => st.Get(role.Peer()).hs.Visible?
    case AwaitOwn(_) => x.hs.Matched?
    case MpiWait => BackupDone(st, role)
    case _ => true
  }

  function Return(role: Role, x: Side): Side {
    x.(pc := Idle, backup := None, log := if role.Receiver? then x.log + [x.buf] else x.log)
  }

  function RunStep(st: State, role: Role): State
    requires CanRun(st, role)
  {
    var x := st.Get(role);
    match x.pc
    case Probe(site) =>
      st.Set(role, x.(pc := if !x.addr && st.Get(role.Peer()).hs.Visible? then ReceiveInfo(site) else PostCheck(site)))
    case ReceiveInfo(site) =>
      st.Set(role, x.(pc := AwaitOwn(site), addr := true))
        .Set(role.Peer(), st.Get(role.Peer()).(hs := Matched))
    case AwaitOwn(site) => st.Set(role, x.(pc := PostCheck(site)))
    case PostCheck(site) =>
      var st' := st.Set(role, x.(pc := AfterProgress(role, site)));
      if x.addr && role.Receiver? && x.kind.Searching? && x.backup == None && x.op == 1 then st'.PostReceive() else st'
    case StartPost =>
      if role.Sender? then
        st.(s := x.(pc := Started, backup := Some(|st.sent|)), sent := st.sent + [x.buf])
      else
        var st' := st.(r := x.(pc := Started));
        if x.addr then
          if x.backup == None then st'.PostReceive() else st'
        else
          if st.PayloadProbe() then st'.PostReceive().(early := true) else st'
    case NoteMode => st.Set(role, x.(pc := TestSend, kind := if x.addr then Rdma else x.kind))
    case TestSend =>
      if BackupDone(st, role) then st.Set(role, x.(pc := DecideSend, backup := None))
      else st.Set(role, x.(pc := Probe(AtWait)))
    case DecideSend => st.Set(role, Return(role, x.(kind := if x.kind.Rdma? then Rdma else Fallback)))
    case LoopTest => st.Set(role, x.(pc := if !x.addr && !x.seen then LoopProbe else PostIfNeeded))
    case LoopProbe => st.Set(role, x.(pc := Probe(AtWait), seen := st.PayloadProbe()))
    case PostIfNeeded =>
      var st' := st.Set(role, x.(pc := DecideRecv));
      if x.backup == None && role.Receiver? then st'.PostReceive() else st'
    case DecideRecv => st.Set(role, x.(pc := TestRecv, kind := if x.addr then Rdma else Fallback))
    case TestRecv => if BackupDone(st, role) then st.Set(role, Return(role, x)) else st
    case MpiWait => st.Set(role, Return(role, x))
  }

  datatype Event =
    | Init(role: Role)                   // init_request: the handshake is sent
    | HandshakeArrives(role: Role)       // the handshake sent by `role` becomes visible
    | PayloadArrives
    | Match                              // the oldest unmatched receive meets the oldest unmatched message
    | Land                               // ... and its data reaches the receive buffer
    | Start(role: Role)
    | CallWait(role: Role)
    | Write(role: Role, data: Buffer)    // the user rewrites an inactive buffer
    | Progress(role: Role)               // progress_request, called for another request's sake
    | Run(role: Role)

  predicate Enabled(st: State, e: Event) {
    match e
    case Init(role) => st.Get(role).pc.Absent?
    case HandshakeArrives(role) => st.Get(role).hs.Travelling?
    case PayloadArrives => st.arrived < |st.sent|
    case Match => st.matched < st.posted && st.matched < st.arrived
    case Land => st.landed < st.matched && st.landed < |st.sent|
    case Start(role) => st.Get(role).pc.Idle? && !st.Get(role).kind.Rdma?
    case CallWait(role) => st.Get(role).pc.Started?
    case Write(role, data) => st.Get(role).pc.Idle? && |data| == |st.Get(role).buf|
    case Progress(role) =>
      var x := st.Get(role);
      && (x.pc.Idle? || x.pc.Started?)
      && (x.kind.Searching? || (x.kind.Fallback? && x.backup.Some? && BackupDone(st, role)))
    case Run(role) => CanRun(st, role)
  }

  function StartStep(st: State, role: Role): State {
    var x := st.Get(role).(op := st.Get(role).op + 1,
                           log := if role.Sender? then st.Get(role).log + [st.Get(role).buf] else st.Get(role).log);
    if x.kind.Searching? then st.Set(role, x.(pc := Probe(AtStart)))
    else if role.Sender? then st.(s := x.(pc := Started, backup := Some(|st.sent|)), sent := st.sent + [x.buf])
    else st.(r := x.(pc := Started)).PostReceive()
  }

  function Apply(st: State, e: Event): State
    requires Enabled(st, e)
  {
    match e
    case Init(role) => st.Set(role, st.Get(role).(pc := Idle, hs := Travelling))
    case HandshakeArrives(role) => st.Set(role, st.Get(role).(hs := Visible))
    case PayloadArrives => st.(arrived := st.arrived + 1)
    case Match => st.(matched := st.matched + 1)
    case Land => st.(r := st.r.(buf := st.sent[st.landed]), landed := st.landed + 1)
    case Start(role) => StartStep(st, role)
    case CallWait(role) =>
      var x := st.Get(role);
      st.Set(role, x.(seen := false, pc := if x.kind.Fallback? then MpiWait
                                           else if role.Sender? then Probe(AtWait) else LoopTest))
    case Write(role, data) => st.Set(role, st.Get(role).(buf := data))
    case Progress(role) =>
      var x := st.Get(role);
      if x.kind.Searching? then st.Set(role, x.(pc := Probe(if x.pc.Idle? then FromIdle else FromStarted)))
      else st.Set(role, x.(backup := None))
    case Run(role) => RunStep(st, role)
  }

  predicate InitSide(x: Side) {
    x == Side(Absent, 0, Searching, false, Unsent, None, false, x.buf, [])
  }

  predicate Initial(st: State) {
    && InitSide(st.s) && InitSide(st.r) && |st.s.buf| == |st.r.buf|
    && st == State(st.s, st.r, [], 0, 0, 0, 0, false)
  }

  predicate Runs(st: State, es: seq<Event>)
    decreases |es|
  {
    es == [] || (Enabled(st, es[0]) && Runs(Apply(st, es[0]), es[1..]))
  }

  function Exec(st: State, es: seq<Event>): State
    requires Runs(st, es)
    decreases |es|
  {
    if es == [] then st else Exec(Apply(st, es[0]), es[1..])
  }

  ghost predicate Reachable(st: State) {
    exists st0, es :: Initial(st0) && Runs(st0, es) && st == Exec(st0, es)
  }

  /**
    The further assumption that the sender's handshake is visible before its first payload, although
    the two travel on different communicators. Used only where a statement names it.
   */
  predicate HandshakeFirst(st: State, e: Event) {
    e.PayloadArrives? ==> st.s.hs.Visible? || st.s.hs.Matched?
  }

  predicate OrderedRuns(st: State, es: seq<Event>)
    decreases |es|
  {
    es == [] || (Enabled(st, es[0]) && HandshakeFirst(st, es[0]) && OrderedRuns(Apply(st, es[0]), es[1..]))
  }

  ghost predicate OrderedReachable(st: State) {
    exists st0, es :: Initial(st0) && OrderedRuns(st0, es) && Runs(st0, es) && st == Exec(st0, es)
  }
}
