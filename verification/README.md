# Verification of the persistent point-to-point optimisation

This project models, in Dafny 4.11, the library that replaces persistent MPI point-to-point operations by
RDMA operations, the compiler pass that decides and performs the replacement, and the rank arithmetic of the
benchmark that measures it, and proves properties of the model. Check everything with

    dafny verify dfyconfig.toml

## What is modelled

**The two-sided rendezvous** (`openmpi-patch/one-sided-persistent_two_sided_rendezvous.c`), the core. A sender and
a receiver share a persistent request pair. Each side has an integer flag that the other one writes remotely:
`2n+1` means "ready in operation n", `2n+2` means "operation n is finished". Whoever starts second moves the
data, or the progress engine does for the receiver, or, if both announced themselves, the receiver in Wait.

- `RdmaMachine` is that protocol (operations from the second on) as a step system, one memory access or one
  library call a step; `RdmaInvariant` holds the inductive invariant, `RdmaTheorems` what follows from it,
  `RdmaLiveness` deadlock freedom with a measure, `RdmaDecision` which side moves the data, `RdmaFlagBuffer` where
  the value a put carries matters.
- `RdmaRequest` is the request object with the functions that update it in place. Its methods are shown to do
  what the step system does (`Start`, `ProgressRecv`, `ESend`, `ERecv`), whatever happens outside before each of
  their statements, and `CallIsRun` shows that this is a run of the step system, so the theorems apply to the code.
- `ConnectionMachine`, `ConnectionInvariant`, `ConnectionTheorems` and `ConnectionRequest` do the same for the
  handshake, operation 1 and the fallback mode; `ConnectionLiveness` says when operation 1 can be completed,
  `ConnectionFallback` when the receiver's first Wait ends in fallback mode.
- `PairMachine` puts both together: `Projection` shows that each of the two systems runs as if it were alone, and
  `EndToEnd` is the resulting statement about the pair. `PairDelivery` is the converse: whatever is to be sent, the
  pair can deliver it.
- `RdmaInfo` is the byte format of the handshake message, `ProgressEngine` the mutual recursion of the progress
  engine, `RequestLists` the two linked lists of requests and the release of their resources.

**The eager receive path** (`openmpi-patch/one-sided-persistent.c`, built with USE_EAGER): `EagerQueue`.

**The compiler pass**: `ConflictWalk` (the worklist search for a conflicting call) and `Replacement` (the rewriting).

**The benchmark**: `Async` (which ranks take part, who is whose partner, and the barrier that stands in for
MPI_Barrier when EXTRA_BARRIER is switched on; it is off as the file is checked in).

## Assumptions

They are part of the step systems and are stated at the top of each module.

- RDMA: a flag put carries the value it had when issued. Operations are delivered in any order, except that a
  fence orders all earlier ones before all later ones. A flush completes when everything issued before it on the
  endpoint has. A data transfer reads and writes single bytes in any order. Both buffers have the same size.
  `RdmaFlagBuffer` says when the field the value comes from is overwritten while a put is in flight, and what would
  go wrong if the value were read at delivery.
- MPI 3.1: a synchronous send completes only after it has been matched (section 3.4); messages on one communicator
  do not overtake (section 3.5).
- There is one pair for a peer and a tag, and a request is not progressed while it is itself being started or
  waited on. Only `ProgressEngine` is about several requests.
- The handshake travels on another communicator than the payload. That it becomes visible first, as the comments
  at lines 671-672 and 793-795 say, is a separate assumption (`HandshakeFirst`) that only `OrderedMeansRdma`,
  `OnlyEarlyPostMisleads`, `EarlyPostHangs` and `ConnectionLiveness` use.
- The eager path: the messages of one sender arrive in order.
- The compiler pass: blocks end in their only terminator, the search has an ending, the call graph has no recursion,
  and the operands of calls have the types of the called functions.

## Where the code does less than it says

- The comments at lines 671-672 promise that the probe for the handshake succeeds before the probe for the
  payload. The receiver's Start probes for the handshake first, so both may arrive between its two probes. Then it
  posts its receive, the sender's Wait can find its send complete before it has seen the receiver's handshake and
  fall back, and the receiver waits for its own handshake for ever: `EarlyPostHangs` gives the run and
  `OrphanedForever` shows that nothing ends it. `CompletesExactly` says when operation 1 can be completed: as long as
  the sender has not missed the handshake (`Missed`: it has fallen back, or its Wait is between a vain probe and the
  test of a send that has been matched), and it can miss it only after such an early post; `MissesExactly` of
  `ConnectionLiveness` says in which states that can still happen.
- The comment at line 1052 says that a request that is not in RDMA mode has acquired nothing but its buffer. But init
  maps both memory handles of every request, and the handshake unpacks both keys. `ReleasedExactlyIfRdma` says that
  what a freed request acquired is released if and only if it was in RDMA mode; `FallbackLeaks` is an example.
- The comment above `check_call_for_conflict` says that true means no conflict; the code returns true for a
  conflict. The model follows the code.
- The walk counts a block as checked when a function returns into the middle of it, and then no longer enters it
  at its start. `ConflictIsMissed` is a program with the whole walk on it: it runs out of work (where the code asserts
  false), and a reachable conflict has not been visited. `MissesExactly` says for which programs some walk loses a
  block, and `ExhaustedMeansClear` that on all others nothing is missed.

## Model

| member | source | states |
|---|---|---|
| RdmaInvariant.StepInv | openmpi-patch/one-sided-persistent_two_sided_rendezvous.c:150-454 | Every step of either side, of the network or of the user keeps the protocol and data invariant. |
| RdmaInvariant.ExecInv | openmpi-patch/one-sided-persistent_two_sided_rendezvous.c:150-454 | ... and so does every run. |
| RdmaInvariant.ReachableInv | openmpi-patch/one-sided-persistent_two_sided_rendezvous.c:150-454 | The invariant holds in every state the RDMA phase can reach, under any interleaving. |
| RdmaTheorems.Integrity | openmpi-patch/one-sided-persistent_two_sided_rendezvous.c:150-454 | Each buffer the receiver's Wait has returned with equals the sender's buffer at Start of the same operation, in every interleaving, whoever moved it. |
| RdmaTheorems.SenderLogStep | openmpi-patch/one-sided-persistent_two_sided_rendezvous.c:677-682 | The sender's log, which the other statements compare with, is appended its buffer at each Start and changed by nothing else. |
| RdmaTheorems.ReturnDelivers | openmpi-patch/one-sided-persistent_two_sided_rendezvous.c:399-454 | At the very step with which `e_recv` returns from operation n, the receive buffer is the sender's buffer at its Start of n. |
| RdmaTheorems.ExactlyOneTransfer | openmpi-patch/one-sided-persistent_two_sided_rendezvous.c:150-182 | No operation is transferred twice, by either side or both; each one that a side has completed was transferred exactly once, and none before both have started it. |
| RdmaTheorems.TransfersByPosition | openmpi-patch/one-sided-persistent_two_sided_rendezvous.c:271-309 | Counting the transfers of operation n: one if n is among the operations moved so far, else none. |
| RdmaTheorems.NoLostUpdate | openmpi-patch/one-sided-persistent_two_sided_rendezvous.c:153-157 | While a side is inside the non-atomic `flag++` no remote put to its flag is in flight, and the flag still has the value that was loaded. |
| RdmaTheorems.FlagMonotone | openmpi-patch/one-sided-persistent_two_sided_rendezvous.c:267-277 | No step, local or remote, ever lowers a flag. |
| RdmaTheorems.BoundedSkew | openmpi-patch/one-sided-persistent_two_sided_rendezvous.c:267-309 | The operation numbers differ by at most one; a side in operation n neither holds a flag above 2n+3 nor has one in flight to it. |
| RdmaTheorems.Quiescence | openmpi-patch/one-sided-persistent_two_sided_rendezvous.c:311-347 | Between Wait and Start both handles are null, the side has nothing in flight, and no transfer by the peer can touch its buffer. |
| RdmaTheorems.ProgressIgnoresInactive | openmpi-patch/one-sided-persistent_two_sided_rendezvous.c:150-153 | The progress engine never starts a transfer for a receiver that is not inside an operation. |
| RdmaTheorems.AssertsNeverFail | openmpi-patch/one-sided-persistent_two_sided_rendezvous.c:290-303 | The asserts on the flag after `flag++`, on null handles before a flush and at free hold in every reachable state. |
| RdmaLiveness.StepEnabled | openmpi-patch/one-sided-persistent_two_sided_rendezvous.c:311-454 | While a side is in an operation its peer has also started, some step of the library or the network is enabled; crosstalk included. |
| RdmaLiveness.StepDecreases | openmpi-patch/one-sided-persistent_two_sided_rendezvous.c:311-454 | Every step that is not a vain spin decreases a measure. |
| RdmaLiveness.RunsAreBounded | openmpi-patch/one-sided-persistent_two_sided_rendezvous.c:311-454 | A run without a new Start is at most as long as the measure. |
| RdmaLiveness.WaitsReturn | openmpi-patch/one-sided-persistent_two_sided_rendezvous.c:311-454 | Any schedule is finite, and when it cannot go on no side is left in an operation that its peer has started. |
| RdmaLiveness.BothWaitsReturn | openmpi-patch/one-sided-persistent_two_sided_rendezvous.c:311-454 | When both sides have started operation n, both Waits return from it. |
| RdmaDecision.StartDecides | openmpi-patch/one-sided-persistent_two_sided_rendezvous.c:271-309 | Over every run from the test of the flag to the return from Start of operation n, for either side: if the flag was 2n+1, the history has grown by the move of n by this side, a copy and after a fence a put have been issued, and its flag is 2n+2 until the peer starts n+1; otherwise only the announcement has been issued, and at most the peer has moved n. |
| RdmaDecision.SenderPushes | openmpi-patch/one-sided-persistent_two_sided_rendezvous.c:273-294 | For all buffers, a run in which the receiver starts first and the sender moves the data. |
| RdmaFlagBuffer.OverwrittenExactly | openmpi-patch/one-sided-persistent_two_sided_rendezvous.c:175-178 | `flag_buffer` is overwritten while an earlier flag put is in flight exactly when the progress engine does it before the flush of the own announcement has completed; Start and Wait never do. |
| RdmaFlagBuffer.UnsafeInProgress | openmpi-patch/one-sided-persistent_two_sided_rendezvous.c:150-178 | The progress engine does reach such a state, for all buffers. |
| RdmaFlagBuffer.LateReadBreaksIntegrity | openmpi-patch/one-sided-persistent_two_sided_rendezvous.c:150-178 | If that put were delivered with a value read late, the sender's Wait would return while the receiver still fetches, and the receiver's Wait would return with a byte the sender did not have at Start: a run. |
| RdmaRequest.Request.constructor | openmpi-patch/one-sided-persistent_two_sided_rendezvous.c:885-924 | A request enters the RDMA phase with flag 0, operation 1, null handles and nothing issued. |
| RdmaRequest.Request.MoveData | openmpi-patch/one-sided-persistent_two_sided_rendezvous.c:273-295 | The transfer branch does the two halves of `flag++`, the data transfer, the fence, the put of 2n+2 and the flush, as the step system's statements in that order, whatever happens outside before each of them. |
| RdmaRequest.Request.Begin | openmpi-patch/one-sided-persistent_two_sided_rendezvous.c:271-309 | `b_send` and `b_recv`: transfer if the flag is 2n+1, else announce 2n+1, under any outside steps. |
| RdmaRequest.Request.Start | openmpi-patch/one-sided-persistent_two_sided_rendezvous.c:677-710 | Start in RDMA mode, under any outside steps: what the step system does from Start to its return; and, with n the new operation, if the flag tested is 2n+1, two operations with a fence between them and the flush of the data have been issued, otherwise the announcement and its flush. |
| RdmaRequest.StartIssues | openmpi-patch/one-sided-persistent_two_sided_rendezvous.c:271-309 | The same of the step system, whatever the outside steps: the flag in the first answer alone decides. |
| RdmaRequest.Request.ProgressRecv | openmpi-patch/one-sided-persistent_two_sided_rendezvous.c:150-185 | The receiver pulls if and only if the sender is ready, under any outside steps; otherwise nothing changes. |
| RdmaRequest.Request.AwaitHandles | openmpi-patch/one-sided-persistent_two_sided_rendezvous.c:399-410 | The two blocking waits end at the first test at which everything issued before the flush has completed, and null the handles. |
| RdmaRequest.Request.ESend | openmpi-patch/one-sided-persistent_two_sided_rendezvous.c:311-347 | The sender's Wait does what the step system does under any outside steps, and returns exactly when that is inactive. |
| RdmaRequest.Request.ResolveCrosstalk | openmpi-patch/one-sided-persistent_two_sided_rendezvous.c:429-441 | When both sides announced, the receiver fetches the data and waits for the flush. |
| RdmaRequest.Request.ERecv | openmpi-patch/one-sided-persistent_two_sided_rendezvous.c:399-454 | The receiver's Wait does what the step system does under any outside steps, crosstalk included. |
| RdmaRequest.CallIsRun | openmpi-patch/one-sided-persistent_two_sided_rendezvous.c:150-454 | What these methods compute is a run of the step system, when the outside steps are brought about by its events. |
| RdmaRequest.WaitDelivers | openmpi-patch/one-sided-persistent_two_sided_rendezvous.c:399-454 | So a receiver's Wait that returns has delivered the sender's buffer at its Start of that operation. |
| ConnectionInvariant.StepInv | openmpi-patch/one-sided-persistent_two_sided_rendezvous.c:550-849 | Every step of the handshake, of operation 1 and of fallback operations keeps the invariant. |
| ConnectionInvariant.ExecInv | openmpi-patch/one-sided-persistent_two_sided_rendezvous.c:550-849 | ... and so does every run. |
| ConnectionTheorems.HandshakeAgreement | openmpi-patch/one-sided-persistent_two_sided_rendezvous.c:739-815 | No reachable state has one side in RDMA mode and the other in fallback mode; after operation 1 both have chosen, and the same. |
| ConnectionTheorems.OnePayloadReceive | openmpi-patch/one-sided-persistent_two_sided_rendezvous.c:187-219 | In every order of handshake, payload, Start, progress and Wait exactly one payload receive is posted for operation 1, and one for each fallback operation. |
| ConnectionTheorems.MessageIntegrity | openmpi-patch/one-sided-persistent_two_sided_rendezvous.c:630-673 | The n-th buffer returned by Wait in operation 1 and in fallback mode is the sender's at its n-th Start. |
| ConnectionTheorems.AssertsNeverFail | openmpi-patch/one-sided-persistent_two_sided_rendezvous.c:632-660 | The asserts on the operation number, on the request types and on unused backup requests hold. |
| ConnectionTheorems.OrderedMeansRdma | openmpi-patch/one-sided-persistent_two_sided_rendezvous.c:772-805 | If the handshake is visible before the payload, the receiver never falls back, and both sides end operation 1 in RDMA mode. |
| ConnectionTheorems.OnlyEarlyPostMisleads | openmpi-patch/one-sided-persistent_two_sided_rendezvous.c:645-661 | Under the same assumption neither side falls back unless the receiver's Start found the payload after it had missed the handshake. |
| ConnectionLiveness.CompletesExactly | openmpi-patch/one-sided-persistent_two_sided_rendezvous.c:739-815 | Handshake first and both sides started: both first Waits can return if and only if the sender has not missed the receiver's handshake; if it has, the receiver's never returns, and its Start had posted early. Once the sender's Wait has returned that is: if and only if the sender has not fallen back. |
| ConnectionLiveness.Completes | openmpi-patch/one-sided-persistent_two_sided_rendezvous.c:739-815 | Then they return in a bounded number of steps of the network and the library, without another Start. |
| ConnectionLiveness.MissedForever | openmpi-patch/one-sided-persistent_two_sided_rendezvous.c:755-764 | Once the sender has missed the handshake, no run undoes it. |
| ConnectionLiveness.FallbackComesLater | openmpi-patch/one-sided-persistent_two_sided_rendezvous.c:746-764 | It is missed before the sender falls back: for all buffers a run to a state without fallback that cannot complete. |
| ConnectionLiveness.MissesExactly | openmpi-patch/one-sided-persistent_two_sided_rendezvous.c:642-669 | Handshake first and both sides started: the sender can still miss the handshake if and only if it has no address, has just probed in vain or still can while the handshake travels, and the receiver has posted early or its Start still can. |
| ConnectionLiveness.EndsBadly | openmpi-patch/one-sided-persistent_two_sided_rendezvous.c:642-669 | From each such state a run to a state in which it has been missed. |
| ConnectionTheorems.OrphanedForever | openmpi-patch/one-sided-persistent_two_sided_rendezvous.c:606-616 | A side that waits for its handshake to be matched by a peer that has fallen back never leaves that operation. |
| ConnectionTheorems.EarlyPostHangs | openmpi-patch/one-sided-persistent_two_sided_rendezvous.c:645-661 | For all buffers there is a run, handshake first, that reaches such a state. |
| ConnectionRequest.Request.constructor | openmpi-patch/one-sided-persistent_two_sided_rendezvous.c:885-951 | Init clears the request and sends the handshake. |
| ConnectionRequest.Request.ReceiveInfo | openmpi-patch/one-sided-persistent_two_sided_rendezvous.c:550-616 | Receive the peer's handshake, then wait until the own one has been matched, as the step system's statements. |
| ConnectionRequest.Request.ProgressWaiting | openmpi-patch/one-sided-persistent_two_sided_rendezvous.c:187-219 | Probe, receive the handshake if it is there, and post the receive of an active receiver once. |
| ConnectionRequest.Request.StartSearching | openmpi-patch/one-sided-persistent_two_sided_rendezvous.c:630-673 | The first Start of either side, whatever MPI and the peer do before each of its statements. |
| ConnectionRequest.Request.StartFallback | openmpi-patch/one-sided-persistent_two_sided_rendezvous.c:687-717 | Start in fallback mode sends or posts the next payload. |
| ConnectionRequest.Request.WaitSend | openmpi-patch/one-sided-persistent_two_sided_rendezvous.c:739-770 | The sender's first Wait and its choice of the mode. |
| ConnectionRequest.Request.SearchLoop | openmpi-patch/one-sided-persistent_two_sided_rendezvous.c:778-785 | The receiver's loop ends exactly with the handshake received or the payload seen. |
| ConnectionRequest.Request.WaitRecv | openmpi-patch/one-sided-persistent_two_sided_rendezvous.c:772-815 | The receiver's first Wait: search, post if needed, choose the mode, await the payload. |
| ConnectionRequest.Request.WaitFallback | openmpi-patch/one-sided-persistent_two_sided_rendezvous.c:827-847 | Wait in fallback mode blocks until the message has been sent or received. |
| ConnectionRequest.CallIsRun | openmpi-patch/one-sided-persistent_two_sided_rendezvous.c:630-815 | What these methods compute is a run of the step system, when the answers are brought about by its other events. |
| ConnectionFallback.WaitFallsBackExactly | openmpi-patch/one-sided-persistent_two_sided_rendezvous.c:772-805 | A receiver in the loop of its first Wait while the handshake travels can leave Wait by itself if and only if a payload is visible that no posted receive will take, and then returns it in fallback mode; whatever else happens, Wait returns only after such a payload has become visible, in fallback mode, with the sender's first buffer. |
| ConnectionFallback.ConnectedHasPosted | openmpi-patch/one-sided-persistent_two_sided_rendezvous.c:208-219 | Once a progress call, Start or the loop of Wait has connected a receiver in operation 1, its receive is posted; the later posting in Start is dead code. |
| ConnectionFallback.ProbeConnects | openmpi-patch/one-sided-persistent_two_sided_rendezvous.c:187-206 | A call that probes while the handshake is there, also one by the progress engine, connects before it probes again or returns, whatever happens meanwhile. |
| ConnectionFallback.FallbackRun | openmpi-patch/one-sided-persistent_two_sided_rendezvous.c:739-849 | For all buffers, a run in which both sides end operation 1 in fallback mode and operation 2 delivers the buffer written in between. |
| PairMachine.StepInv | openmpi-patch/one-sided-persistent_two_sided_rendezvous.c:677-849 | Every step of a pair, by message or by RDMA, keeps both invariants and the links between the two. |
| PairMachine.Projection | openmpi-patch/one-sided-persistent_two_sided_rendezvous.c:677-849 | In every run of a pair each of the two systems makes a run of its own, so all theorems about them hold of the pair. |
| PairMachine.EndToEnd | openmpi-patch/one-sided-persistent_two_sided_rendezvous.c:677-849 | From init on, over every run, the n-th completed receive holds exactly the sender's buffer at its n-th Start, and there are as many as completed operations. |
| PairDelivery.FirstOperation | openmpi-patch/one-sided-persistent_two_sided_rendezvous.c:630-815 | From every initial state operation 1 can be completed with both sides in RDMA mode, and the sender's buffer received. |
| PairDelivery.AnotherOperation | openmpi-patch/one-sided-persistent_two_sided_rendezvous.c:677-726 | From every reachable state with both sides inactive in RDMA mode, for all data: the user can write it, both sides start, both Waits return, and it has been received. |
| PairDelivery.DeliversAny | openmpi-patch/one-sided-persistent_two_sided_rendezvous.c:630-849 | So any sequence of buffers of one size can be delivered. |
| RdmaInfo.FromToBytes | openmpi-patch/one-sided-persistent_two_sided_rendezvous.c:516-523 | A word that is written as eight bytes is read back. |
| RdmaInfo.ToFromBytes | openmpi-patch/one-sided-persistent_two_sided_rendezvous.c:586-593 | Any eight bytes are the word they are read as. |
| RdmaInfo.HeaderBytes | openmpi-patch/one-sided-persistent_two_sided_rendezvous.c:510-523 | Byte by byte, where the two key lengths and the two addresses stand, least significant byte first. |
| RdmaInfo.RoundTrip | openmpi-patch/one-sided-persistent_two_sided_rendezvous.c:510-535 | For all addresses and keys, reading the written message returns them and consumes exactly the declared length. |
| RdmaInfo.ReadImpliesWritten | openmpi-patch/one-sided-persistent_two_sided_rendezvous.c:583-602 | A message that is read as some info is the one written for it, if and only if the skipped words are zero. |
| RdmaInfo.SendRdmaInfo | openmpi-patch/one-sided-persistent_two_sided_rendezvous.c:510-535 | The cursor fills the zeroed buffer with exactly the message and ends at its end. |
| RdmaInfo.ReceiveRdmaInfo | openmpi-patch/one-sided-persistent_two_sided_rendezvous.c:583-602 | The cursor reads what the format says, or the closing assert fails. |
| ProgressEngine.Receive | openmpi-patch/one-sided-persistent_two_sided_rendezvous.c:550-616 | Sets the address, only fills in further ones, nests no deeper than there are listed requests that search and have no address, and does not return before a test of the own handshake has succeeded, unless the answers run out. |
| ProgressEngine.AwaitOwn | openmpi-patch/one-sided-persistent_two_sided_rendezvous.c:606-616 | The wait for the own handshake keeps that bound, whatever the tests answer; it consumes a prefix of the answers, the last of which, unless they run out, is a test that succeeded. |
| ProgressEngine.Others | openmpi-patch/one-sided-persistent_two_sided_rendezvous.c:245-256 | Progressing the other requests ends and nests at most as deep as there are listed requests that search and have no address. |
| ProgressEngine.QuietWalk | openmpi-patch/one-sided-persistent_two_sided_rendezvous.c:245-256 | A walk in which no probe succeeds asks each seeking request other than the current one exactly once and changes no address. |
| ProgressEngine.NestingIsReached | openmpi-patch/one-sided-persistent_two_sided_rendezvous.c:187-256 | The bound is tight for any list and any addresses: some answers reach it, unless the current request is the only one seeking, when nothing nests. |
| ProgressEngine.Engine.ReceiveRdmaInfo | openmpi-patch/one-sided-persistent_two_sided_rendezvous.c:550-616 | The loop with its nested calls computes that result and depth; unless the answers run out, the last one it consumed is a successful test. |
| ProgressEngine.Engine.ProgressOtherRequests | openmpi-patch/one-sided-persistent_two_sided_rendezvous.c:245-256 | The walk over the list computes that result, and the nesting counter stays within the bound. |
| RequestLists.DoKeepsConsistent | openmpi-patch/one-sided-persistent_two_sided_rendezvous.c:128-148 | After each init, connection or free every request is on exactly one of the two lists, once. |
| RequestLists.DoKeepsAccounted | openmpi-patch/one-sided-persistent_two_sided_rendezvous.c:953-1007 | Each operation keeps the account: everything owned was acquired once, the data part of freed RDMA requests was released once, nothing else was. |
| RequestLists.Conservation | openmpi-patch/one-sided-persistent_two_sided_rendezvous.c:128-148 | Both hold over every sequence of inits, handshakes, connections and frees. |
| RequestLists.FinalCounts | openmpi-patch/one-sided-persistent_two_sided_rendezvous.c:1043-1063 | FINALIZE releases the memory and the info buffer of each freed request once, and the flag part of exactly the RDMA requests once. |
| RequestLists.ReleasedExactlyIfRdma | openmpi-patch/one-sided-persistent_two_sided_rendezvous.c:972-983 | For a freed request everything it acquired has been released exactly once after FINALIZE if and only if it was in RDMA mode. |
| RequestLists.NeverReleasedTwice | openmpi-patch/one-sided-persistent_two_sided_rendezvous.c:1043-1063 | Nothing is ever released that was not acquired, nor twice; the request's memory always is. |
| RequestLists.NeverUsedAfterFree | openmpi-patch/one-sided-persistent_two_sided_rendezvous.c:1043-1063 | Over every sequence of operations and FINALIZE, in the order of the log: a request's memory is acquired before and released after everything else of it, each release comes after its acquisition, and nothing happens twice. |
| RequestLists.RdmaLife | openmpi-patch/one-sided-persistent_two_sided_rendezvous.c:972-983 | The whole log of a request that is initialised, connected by RDMA, freed and finalised. |
| RequestLists.FallbackLeaks | openmpi-patch/one-sided-persistent_two_sided_rendezvous.c:1051-1058 | A request that falls back leaves both its memory handles mapped. |
| RequestLists.AllFreedMeansEmpty | openmpi-patch/one-sided-persistent_two_sided_rendezvous.c:1032 | The empty-list assert holds if and only if every request was freed. |
| RequestLists.RequestList.Add | openmpi-patch/one-sided-persistent_two_sided_rendezvous.c:128-134 | The linked list gets the request at its front. |
| RequestLists.RequestList.Remove | openmpi-patch/one-sided-persistent_two_sided_rendezvous.c:136-148 | The linked list loses the first occurrence of the request and keeps the order of the others; for a request that is not listed it stops at the assert. |
| RequestLists.Library.InitRequest | openmpi-patch/one-sided-persistent_two_sided_rendezvous.c:885-924 | Maps both memory handles, fills the info buffer and lists the request. |
| RequestLists.Library.FreeRequest | openmpi-patch/one-sided-persistent_two_sided_rendezvous.c:953-1007 | Moves the request between the lists and releases the data part of an RDMA request; stops exactly where the asserts on the list and on null handles fail. |
| RequestLists.Library.Finalize | openmpi-patch/one-sided-persistent_two_sided_rendezvous.c:1030-1063 | Says whether the live list is empty and releases what `FinalReleases` says, walking the to-free list. |
| EagerQueue.ExecFifo | openmpi-patch/one-sided-persistent.c:226-247 | The queue invariant holds over every interleaving of handler, Start and Wait. |
| EagerQueue.ArrivedInOrder | openmpi-patch/one-sided-persistent.c:226-247 | The history of arrivals is the sequence of handler calls. |
| EagerQueue.KthReceiveIsKthMessage | openmpi-patch/one-sided-persistent.c:350-415 | The k-th completed receive holds the k-th message. |
| EagerQueue.ListIsRest | openmpi-patch/one-sided-persistent.c:123-159 | The list is exactly the messages not yet taken, in order, and is empty while the ready bit is set. |
| EagerQueue.HandlerSparesInactive | openmpi-patch/one-sided-persistent.c:229-242 | The handler never writes the buffer of an inactive request. |
| EagerQueue.RecvRequest.AddToList | openmpi-patch/one-sided-persistent.c:123-150 | Walking to the tail and patching it appends to the abstract queue. |
| EagerQueue.RecvRequest.DequeueFromList | openmpi-patch/one-sided-persistent.c:152-159 | Moves the head of the abstract queue to the user buffer. |
| EagerQueue.RecvRequest.Handler | openmpi-patch/one-sided-persistent.c:226-247 | Refines the arrival of a message; its assert holds. |
| EagerQueue.RecvRequest.BRecv | openmpi-patch/one-sided-persistent.c:350-365 | Refines the start of a receive after the arrivals of its progress call. |
| EagerQueue.RecvRequest.ERecv | openmpi-patch/one-sided-persistent.c:391-415 | Refines the return of a receive after the arrivals of its progress calls; its own dequeue is never needed. |
| ConflictWalk.PredecessorEdges | mpi_compiler_assistance_matching_pass/conflict_detection.cpp:48-50 | The predecessors of a block are the blocks with an edge to it. |
| ConflictWalk.GuardIsSound | mpi_compiler_assistance_matching_pass/conflict_detection.cpp:45-68 | If a guard is found, every edge into the block takes that side of a branch on it. |
| ConflictWalk.GuardExactly | mpi_compiler_assistance_matching_pass/conflict_detection.cpp:45-68 | A guard is found if and only if the block has a single entry, and that is one side of a conditional branch. |
| ConflictWalk.GuardIsFollowed | mpi_compiler_assistance_matching_pass/conflict_detection.cpp:172-198 | Then the branch into the block is followed into it, every other branch on the same condition to the same side, and all other terminators to all their successors. |
| ConflictWalk.UnguardedFollowsAll | mpi_compiler_assistance_matching_pass/conflict_detection.cpp:172-198 | Without a guard all terminators are followed to all their successors. |
| ConflictWalk.PassesOnlyHarmless | mpi_compiler_assistance_matching_pass/conflict_detection.cpp:111-164 | A walk passes no call that conflicts, may conflict, is unknown, or ends the scope. |
| ConflictWalk.PopDecreases | mpi_compiler_assistance_matching_pass/conflict_detection.cpp:235-247 | Taking a position from the worklist lowers the termination measure, re-inserted return points included. |
| ConflictWalk.WalksKeepInv | mpi_compiler_assistance_matching_pass/conflict_detection.cpp:108-248 | In every walk, whatever it takes from the worklist: what is visited is clear, all that is known is reached through visited positions, followed edges lead to known positions or checked blocks, and a checked block is known at its start or was returned into along a path that never branches to it. |
| ConflictWalk.Expand | mpi_compiler_assistance_matching_pass/conflict_detection.cpp:166-233 | One iteration goes on in the block or adds the followed successors that are not checked and all return points, and keeps the measure from growing. |
| ConflictWalk.CheckCallForConflict | mpi_compiler_assistance_matching_pass/conflict_detection.cpp:71-256 | It ends, and its run is a walk: true inside the loop means that the walk is at a conflict, to which a path of followed branch and return edges without scope ending or finalize leads; false that it is at a scope ending or finalize; else it has run out of work. |
| ConflictWalk.MissesExactly | mpi_compiler_assistance_matching_pass/conflict_detection.cpp:182-247 | Some walk loses a block whose start a clear path reaches if and only if the program has a block whose start is reached and into whose middle a path of clear positions returns that never branches to its start. |
| ConflictWalk.LostStays | mpi_compiler_assistance_matching_pass/conflict_detection.cpp:182-247 | A lost block stays lost: its start is never visited. |
| ConflictWalk.ExhaustedMeansClear | mpi_compiler_assistance_matching_pass/conflict_detection.cpp:250-255 | If there is no such block, a walk that runs out of work has visited all that clear paths reach, and none of it is a conflict or ends the search. |
| ConflictWalk.ConflictIsMissed | mpi_compiler_assistance_matching_pass/conflict_detection.cpp:235-246 | Otherwise it can miss a conflict: the whole walk on a program with a loop that has a conflicting call before a call of the function that holds the init call. |
| ConflictWalk.ConflictIsFound | mpi_compiler_assistance_matching_pass/conflict_detection.cpp:172-232 | The whole walk on a program where the conflict lies behind the guard, a switch and a jump: it is met. |
| Replacement.SupportedExactly | mpi_compiler_assistance_matching_pass/replacement.cpp:105-160 | The pass succeeds if and only if every call with a converted request among its operands is one of the five functions, and every other use of one is a bitcast for lifetime markers. |
| Replacement.AllFiveReplaced | mpi_compiler_assistance_matching_pass/replacement.cpp:186-206 | On a program with requests of both kinds all five functions are replaced, and the calls of a third request are not. |
| Replacement.AllOrNothing | mpi_compiler_assistance_matching_pass/replacement.cpp:162-207 | After a rewrite a converted request, also one that several inits share, is the request of optimised calls only, and no other request becomes half converted. |
| Replacement.IrModule.ReplaceCall | mpi_compiler_assistance_matching_pass/replacement.cpp:85-103 | The new call has the same operands in the same order, and no other call changes. |
| Replacement.IrModule.GetUsageOfRequest | mpi_compiler_assistance_matching_pass/replacement.cpp:120-160 | Yields exactly the calls that use the request, or stops exactly at the unsupported uses. |
| Replacement.IrModule.GatherCalls | mpi_compiler_assistance_matching_pass/replacement.cpp:165-185 | The gathered set is the calls that use the request of some init. |
| Replacement.IrModule.ReplaceCommunicationCalls | mpi_compiler_assistance_matching_pass/replacement.cpp:162-207 | Succeeds exactly on supported programs; then each call that uses a converted request is its optimised version, all other calls and all operands are unchanged, the operands have the types the called functions demand (the assert of `replace_call`), and a value is the request of both an original and an optimised call only if it was before and is not converted. |
| Async.SetStride | IMB-ASYNC/src_cpp/ASYNC/async.cpp:105-115 | Accepts exactly the ranks of complete blocks of two groups, for any stride, 0 and negative ones included. |
| Async.PairingIsInvolution | IMB-ASYNC/src_cpp/ASYNC/async.cpp:462-493 | On active ranks the partner exists, is active, is another rank of the other parity, and has this rank as its partner. |
| Async.SomeRankIsActive | IMB-ASYNC/src_cpp/ASYNC/async.cpp:107-110 | Someone takes part exactly when the stride is positive and at most half the size. |
| Async.WholeBlockExists | IMB-ASYNC/src_cpp/ASYNC/async.cpp:109-113 | A rank takes part exactly when all ranks of its block exist. |
| Async.DefaultStrideIsLargest | IMB-ASYNC/src_cpp/ASYNC/async.cpp:107-108 | The stride that stands for 0 lets someone take part whenever there are two ranks, and is the largest that does. |
| Async.Barrier | IMB-ASYNC/src_cpp/ASYNC/async.cpp:549-558 | The loop performs exactly the exchanges of the dissemination schedule. |
| Async.RoundsAre | IMB-ASYNC/src_cpp/ASYNC/async.cpp:549-558 | There is one round for every power of two below the number of ranks, to the rank that far ahead and from the one that far behind. |
| Async.ExchangesMatch | IMB-ASYNC/src_cpp/ASYNC/async.cpp:553-557 | In every round each send has the receive that expects it. |
| Async.DestinationsDiffer | IMB-ASYNC/src_cpp/ASYNC/async.cpp:552-557 | No two rounds send between the same ranks, so that one tag for all rounds does no harm. |
| Async.HeardStep | IMB-ASYNC/src_cpp/ASYNC/async.cpp:552-558 | Each completed exchange doubles the stretch of ranks a rank has heard from. |
| Async.NobodyLeavesEarly | IMB-ASYNC/src_cpp/ASYNC/async.cpp:552-558 | In every run, for any number of ranks, nobody leaves the barrier before all have entered it. |
| Async.SomeoneProceeds | IMB-ASYNC/src_cpp/ASYNC/async.cpp:552-558 | Once all have entered, some exchange can complete until all have left. |
| Async.RunsEnd | IMB-ASYNC/src_cpp/ASYNC/async.cpp:552-558 | Every run of the barrier has at most one entry and as many exchanges as rounds for each rank. |

## Left out

- UCX and Open MPI below the calls listed under the assumptions: memory mapping, key packing, endpoints, worker progress.
- A network that reads `flag_buffer` only when a put is delivered, except for the run in `RdmaFlagBuffer`.
- A request that is progressed, through another one, while it is itself being started or waited on.
- Buffers of different sizes, and a peer that is not a persistent request.
- Liveness of fallback operations after the first; of operation 1 it is stated that and when it can be completed, not that every schedule does.
- Wrap-around of the flags after 2^30 operations: flags and operation numbers are unbounded.
- RdmaRequest.Request.ESend: the progress of other requests inside its second loop appears as outside steps only.
- RdmaRequest.Request.ERecv: the same, and the optional random sleep after crosstalk is not modelled; the model stops before the crosstalk transfer when fewer answers are left than that has statements.
- ProgressEngine.Receive: addresses that the peers announce are assumed not to be NULL; a NULL address would let a request search again.
- RequestLists.Library.FreeRequest: requests are identified by their addresses, and whether a transfer handle is null is an input.
- MPIOPT_Test (not implemented in the source), statistics, BUFFER_CONTENT_CHECKING, USE_LOCKING.
- In `openmpi-patch/one-sided-persistent.c`: the USE_RENDEZVOUS receive path, `progress_recv_request` and the handshake by MPI_Test; the sender.
- ConflictWalk.CheckCallForConflict: false promises nothing about other paths, because the walk stops at the first scope ending or finalize it meets; recursion is excluded, because return points are re-inserted without a test; invoke terminators and PHI nodes are not modelled.
- The classification of calls by the pass (`are_calls_conflicting`, scalar evolution, scope endings, function metadata): an input of the walk.
- Replacement.AllOrNothing: requests are identified with operand values, so aliases are not seen; the insertion of init and finalize is not modelled.
- Async.Barrier: the int overflow of `mask` beyond 2^30 ranks is not modelled.
- Timing, calibration, option parsing and the registries of the benchmark, plotting, build and job scripts.
