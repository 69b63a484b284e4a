/**
  The eager receive path: a message handler, run by any call of the UCX progress function, and the
  receiver's Start and Wait share a ready bit, a heap-allocated list of early messages and the user
  buffer. Messages of one sender are assumed to arrive in order.
 */
module EagerQueue {
  import opened Common

  // ---- specification ----

  /**
    One receive request. History: `active` from Start to the return from Wait, all messages that have
    arrived, and the buffer at every return from Wait.
   */
  datatype Recv = Recv(ready: bool, queue: seq<Buffer>, buf: Buffer,
                       active: bool, arrived: seq<Buffer>, log: seq<Buffer>)

  datatype Event =
    | Arrives(msg: Buffer)
    | Start
    | Return
    | UserWrite(data: Buffer)

  predicate Enabled(v: Recv, e: Event) {
    match e
    case Arrives(_) => true
    case Start => !v.active
    case Return => v.active && !v.ready
    case UserWrite(_) => !v.active
  }

  function Apply(v: Recv, e: Event): Recv {
    match e
    case Arrives(m) =>
      if v.ready then v.(ready := false, buf := m, arrived := v.arrived + [m])
      else v.(queue := v.queue + [m], arrived := v.arrived + [m])
    case Start =>
      if v.queue != [] then v.(active := true, buf := v.queue[0], queue := v.queue[1..])
      else v.(active := true, ready := true)
    case Return => v.(active := false, log := v.log + [v.buf])
    case UserWrite(data) => v.(buf := data)
  }

  /** How many receives have been started. */
  function Started(v: Recv): nat {
    |v.log| + if v.active then 1 else 0
  }

  /** How many messages have been moved to the user buffer. */
  function Taken(v: Recv): nat {
    if v.ready && Started(v) > 0 then Started(v) - 1 else Started(v)
  }

  predicate Fifo(v: Recv) {
    && (v.ready ==> v.active && v.queue == [])
    && Taken(v) <= |v.arrived|
    && v.queue == v.arrived[Taken(v)..]
    && (forall k | 0 <= k < |v.log| :: v.log[k] == v.arrived[k])
    && (v.active && !v.ready ==> v.buf == v.arrived[|v.log|])
  }

  lemma StepFifo(v: Recv, e: Event)
    requires Fifo(v) && Enabled(v, e)
    ensures Fifo(Apply(v, e))
  {}

  predicate Runs(v: Recv, es: seq<Event>)
    decreases |es|
  {
    es == [] || (Enabled(v, es[0]) && Runs(Apply(v, es[0]), es[1..]))
  }

  function Exec(v: Recv, es: seq<Event>): Recv
    decreases |es|
  {
    if es == [] then v else Exec(Apply(v, es[0]), es[1..])
  }

  function Fresh(buf: Buffer): Recv {
    Recv(false, [], buf, false, [], [])
  }

  lemma {:induction false} ExecFifo(v: Recv, es: seq<Event>)
    requires Fifo(v) && Runs(v, es)
    ensures Fifo(Exec(v, es))
    decreases |es|
  {
    if es != [] {
      StepFifo(v, es[0]);
      ExecFifo(Apply(v, es[0]), es[1..]);
    }
  }

  function Messages(es: seq<Event>): seq<Buffer> {
    if es == [] then [] else (if es[0].Arrives? then [es[0].msg] else []) + Messages(es[1..])
  }

  lemma {:induction false} ArrivedInOrder(v: Recv, es: seq<Event>)
    ensures Exec(v, es).arrived == v.arrived + Messages(es)
    decreases |es|
  {
    if es == [] {
      assert v.arrived + [] == v.arrived;
    } else {
      var v', first := Apply(v, es[0]), if es[0].Arrives? then [es[0].msg] else [];
      assert v'.arrived == v.arrived + first;
      hide Apply;
      ArrivedInOrder(v', es[1..]);
      assert v.arrived + (first + Messages(es[1..])) == (v.arrived + first) + Messages(es[1..]);
    }
  }

  lemma FreshFifo(buf: Buffer)
    ensures Fifo(Fresh(buf))
  {
    var none: seq<Buffer> := [];
    assert none[0..] == none;
  }

  lemma {:induction false} FreshRun(buf: Buffer, es: seq<Event>)
    requires Runs(Fresh(buf), es)
    ensures Fifo(Exec(Fresh(buf), es)) && Exec(Fresh(buf), es).arrived == Messages(es)
  {
    hide Exec, Runs, Apply, Messages, Fifo;
    FreshFifo(buf);
    ExecFifo(Fresh(buf), es);
    ArrivedInOrder(Fresh(buf), es);
    assert Fresh(buf).arrived + Messages(es) == Messages(es);
  }

  /** In every interleaving, the k-th completed receive holds the k-th message that arrived. */
  lemma {:induction false} KthReceiveIsKthMessage(buf: Buffer, es: seq<Event>)
    requires Runs(Fresh(buf), es)
    ensures var log, msgs := Exec(Fresh(buf), es).log, Messages(es);
      |log| <= |msgs| && forall k | 0 <= k < |log| :: log[k] == msgs[k]
  {
    FreshRun(buf, es);
    hide Exec, Runs, Apply, Messages;
  }

  /** ... and what has arrived but is not yet in a buffer is exactly the list, in order. */
  lemma {:induction false} ListIsRest(buf: Buffer, es: seq<Event>)
    requires Runs(Fresh(buf), es)
    ensures var v := Exec(Fresh(buf), es);
      && Taken(v) <= |Messages(es)| && v.queue == Messages(es)[Taken(v)..]
      && (v.ready ==> v.queue == [])
  {
    FreshRun(buf, es);
    hide Exec, Runs, Apply, Messages;
  }

  /** The handler never writes the buffer of an inactive request. */
  lemma HandlerSparesInactive(buf: Buffer, es: seq<Event>, msg: Buffer)
    requires Runs(Fresh(buf), es) && !Exec(Fresh(buf), es).active
    ensures var v := Exec(Fresh(buf), es);
      Apply(v, Arrives(msg)).buf == v.buf && !Apply(v, Arrives(msg)).active
  {
    ExecFifo(Fresh(buf), es);
    hide Exec, Runs;
  }

  // ---- the code ----

  function ArriveAll(v: Recv, msgs: seq<Buffer>): Recv
    decreases |msgs|
  {
    if msgs == [] then v else ArriveAll(Apply(v, Arrives(msgs[0])), msgs[1..])
  }

  lemma {:induction false} ArriveAllFifo(v: Recv, msgs: seq<Buffer>)
    requires Fifo(v)
    ensures Fifo(ArriveAll(v, msgs)) && ArriveAll(v, msgs).active == v.active
    decreases |msgs|
  {
    if msgs != [] {
      StepFifo(v, Arrives(msgs[0]));
      ArriveAllFifo(Apply(v, Arrives(msgs[0])), msgs[1..]);
    }
  }

  lemma {:induction false} ArriveAllSnoc(v: Recv, msgs: seq<Buffer>, m: Buffer)
    ensures ArriveAll(v, msgs + [m]) == Apply(ArriveAll(v, msgs), Arrives(m))
    decreases |msgs|
  {
    if msgs == [] {
      assert ([] + [m])[1..] == [];
    } else {
      ArriveAllSnoc(Apply(v, Arrives(msgs[0])), msgs[1..], m);
      assert (msgs + [m])[1..] == msgs[1..] + [m];
    }
  }

  lemma {:induction false} ArriveAllConcat(v: Recv, a: seq<Buffer>, b: seq<Buffer>)
    ensures ArriveAll(v, a + b) == ArriveAll(ArriveAll(v, a), b)
    decreases |a|
  {
    if a == [] {
      assert a + b == b;
    } else {
      ArriveAllConcat(Apply(v, Arrives(a[0])), a[1..], b);
      assert (a + b)[1..] == a[1..] + b;
    }
  }

  function Flatten(batches: seq<seq<Buffer>>): seq<Buffer> {
    if batches == [] then [] else batches[0] + Flatten(batches[1..])
  }

  /** A buffered message: the link, then the data. */
  class Elem {
    const data: Buffer
    var next: Elem?

    constructor (data: Buffer)
      ensures this.data == data && next == null
    {
      this.data := data;
      next := null;
    }
  }

  class RecvRequest {
    var ready: bool
    var pending: Elem?
    var buf: Buffer
    ghost var elems: seq<Elem>
    ghost var active: bool
    ghost var arrived: seq<Buffer>
    ghost var log: seq<Buffer>

    /** `elems` are the elements of the list that starts at `pending`. */
    ghost predicate ListOk()
      reads this, elems
    {
      && pending == (if elems == [] then null else elems[0])
      && (forall i, j | 0 <= i < j < |elems| :: elems[i] != elems[j])
      && (forall i | 0 <= i < |elems| - 1 :: elems[i].next == elems[i + 1])
      && (elems != [] ==> elems[|elems| - 1].next == null)
    }

    ghost function Queue(): seq<Buffer>
      reads this
    {
      seq(|elems|, i requires 0 <= i < |elems| reads this => elems[i].data)
    }

    ghost function View(): Recv
      reads this
    {
      Recv(ready, Queue(), buf, active, arrived, log)
    }

    ghost predicate Valid()
      reads this, elems
    {
      ListOk() && Fifo(View())
    }

    constructor (buf: Buffer)
      ensures Valid() && View() == Fresh(buf) && elems == []
    {
      ready, pending, this.buf := false, null, buf;
      elems, active, arrived, log := [], false, [], [];
      new;
      FreshFifo(buf);
      hide Fifo;
      assert View() == Fresh(buf);
    }

    /** `add_to_list_of_incoming_msg`: walks to the tail and patches it. */
    method AddToList(data: Buffer)
      requires ListOk()
      modifies this`pending, this`elems, elems
      ensures ListOk() && Queue() == old(Queue()) + [data]
      ensures forall i | 0 <= i < |elems| :: elems[i] in old(elems) || fresh(elems[i])
    {
      var newElem := new Elem(data);
      if pending == null {
        pending := newElem;
      } else {
        var cur := pending;
        var nxt := cur.next;
        ghost var k := 0;
        assert |elems| > 1 ==> elems[0].next == elems[0 + 1];
        while nxt != null
          invariant 0 <= k < |elems| && cur == elems[k]
          invariant nxt == if k + 1 < |elems| then elems[k + 1] else null
          invariant ListOk()
          decreases |elems| - k
        {
          cur := nxt;
          nxt := cur.next;
          k := k + 1;
          assert k + 1 < |elems| ==> elems[k].next == elems[k + 1];
        }
        cur.next := newElem;
      }
      elems := elems + [newElem];
    }

    /** `dequeue_from_list_of_incoming_msg`. */
    method DequeueFromList()
      requires ListOk() && pending != null
      modifies this`pending, this`elems, this`buf
      ensures ListOk() && old(Queue()) == [buf] + Queue()
      ensures forall i | 0 <= i < |elems| :: elems[i] in old(elems)
    {
      var cur := pending;
      var nxt := cur.next;
      pending := nxt;
      buf := cur.data;
      assert |elems| > 1 ==> elems[0].next == elems[0 + 1];
      elems := elems[1..];
    }

    /** `incoming_am_msg_handler`; its assert says the list is empty when the ready bit is set. */
    method Handler(data: Buffer)
      requires Valid()
      ensures old(ready) ==> old(pending) == null
      modifies this, elems
      ensures Valid() && View() == Apply(old(View()), Arrives(data))
      ensures forall i | 0 <= i < |elems| :: elems[i] in old(elems) || fresh(elems[i])
    {
      StepFifo(View(), Arrives(data));
      hide Fifo;
      if !ready {
        AddToList(data);
        assert Queue() == old(Queue()) + [data];
      } else {
        ready, buf := false, data;
      }
      arrived := arrived + [data];
      assert View() == Apply(old(View()), Arrives(data));
    }

    /** A call of the progress function in which `batch` arrives. */
    method WorkerProgress(batch: seq<Buffer>)
      requires Valid()
      modifies this, elems
      ensures Valid() && View() == ArriveAll(old(View()), batch)
      ensures forall i | 0 <= i < |elems| :: elems[i] in old(elems) || fresh(elems[i])
    {
      for k := 0 to |batch|
        invariant Valid() && View() == ArriveAll(old(View()), batch[..k])
        invariant forall i | 0 <= i < |elems| :: elems[i] in old(elems) || fresh(elems[i])
      {
        ArriveAllSnoc(old(View()), batch[..k], batch[k]);
        assert batch[..k + 1] == batch[..k] + [batch[k]];
        Handler(batch[k]);
      }
      assert batch[..|batch|] == batch;
    }

    /** `b_recv`, where `batch` arrives in its call of the progress function. */
    method BRecv(batch: seq<Buffer>)
      requires Valid() && !active
      modifies this, elems
      ensures Valid() && View() == Apply(ArriveAll(old(View()), batch), Start)
    {
      ArriveAllFifo(View(), batch);
      WorkerProgress(batch);
      StepFifo(View(), Start);
      if pending != null {
        DequeueFromList();
      } else {
        ready := true;
      }
      active := true;
    }

    /** The loop of `e_recv`, in whose calls of the progress function the batches arrive, in order. */
    method AwaitMessage(batches: seq<seq<Buffer>>) returns (used: nat)
      requires Valid()
      modifies this, elems
      ensures Valid() && used <= |batches| && View() == ArriveAll(old(View()), Flatten(batches[..used]))
      ensures ready && pending == null ==> used == |batches|
    {
      NothingArrives(View());
      hide ArriveAll, Flatten, Fifo;
      used := 0;
      while ready && pending == null && used < |batches|
        invariant 0 <= used <= |batches|
        invariant Valid() && View() == ArriveAll(old(View()), Flatten(batches[..used]))
        invariant forall i | 0 <= i < |elems| :: elems[i] in old(elems) || fresh(elems[i])
      {
        assert batches[..used + 1] == batches[..used] + [batches[used]];
        NextBatch(old(View()), batches[..used], batches[used]);
        WorkerProgress(batches[used]);
        used := used + 1;
      }
    }

    /**
      `e_recv`. It returns when a message has been taken; `finished` is false if the batches run out first.
     */
    method ERecv(batches: seq<seq<Buffer>>) returns (finished: bool, used: nat)
      requires Valid() && active
      modifies this, elems
      ensures Valid() && used <= |batches|
      ensures finished ==> View() == Apply(ArriveAll(old(View()), Flatten(batches[..used])), Return)
      ensures !finished ==> used == |batches| && ready && View() == ArriveAll(old(View()), Flatten(batches))
    {
      used := AwaitMessage(batches);
      ArriveAllFifo(old(View()), Flatten(batches[..used]));
      hide ArriveAll, Flatten;
      if ready && pending != null {
        // Here the code would dequeue, but the list is empty while the ready bit is set.
        assert false;
      }
      finished := !ready;
      if finished {
        StepFifo(View(), Return);
        hide Fifo;
        active := false;
        log := log + [buf];
      } else {
        assert batches[..used] == batches;
      }
    }
  }

  lemma NothingArrives(v: Recv)
    ensures ArriveAll(v, Flatten([])) == v
  {}

  lemma NextBatch(v: Recv, batches: seq<seq<Buffer>>, b: seq<Buffer>)
    ensures ArriveAll(v, Flatten(batches + [b])) == ArriveAll(ArriveAll(v, Flatten(batches)), b)
  {
    FlattenSnoc(batches, b);
    ArriveAllConcat(v, Flatten(batches), b);
  }

  lemma {:induction false} FlattenSnoc(batches: seq<seq<Buffer>>, b: seq<Buffer>)
    ensures Flatten(batches + [b]) == Flatten(batches) + b
  {
    if batches == [] {
      assert ([] + [b])[1..] == [];
    } else {
      FlattenSnoc(batches[1..], b);
      assert (batches + [b])[1..] == batches[1..] + [b];
    }
  }
}
