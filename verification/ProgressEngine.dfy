/**
  The mutually recursive progress engine: a request that waits for its own handshake to be matched
  progresses all other listed requests, and one of those may enter the same wait in turn.

  What the probes and tests of MPI answer is an input, consumed in order; a run stops short when the
  answers run out. Addresses the peers announce are not NULL.
 */
module ProgressEngine {

  /** The answer to one MPI_Iprobe or MPI_Test; for a probe that succeeds, the address it announces. */
  datatype Answer = Answer(flag: bool, dataAddr: nat)

  predicate NonNull(script: seq<Answer>) {
    forall a | a in script :: a.dataAddr != 0
  }

  function Max(a: nat, b: nat): nat {
    if a < b then b else a
  }

  lemma {:induction false} SmallerSet<T>(a: set<T>, b: set<T>)
    requires a <= b
    ensures |a| <= |b|
    decreases |a|
  {
    if x :| x in a {
      SmallerSet(a - {x}, b - {x});
    }
  }

  // ---- specification ----

  /** The list of requests, and those of them whose type is still a searching one. */
  datatype Requests = Requests(list: seq<nat>, searching: set<nat>)

  /** `remote_data_addr` of every request, 0 standing for NULL. */
  type Addresses = map<nat, nat>

  /** `depth`: how many calls of `receive_rdma_info` were active at once, at most. */
  datatype Outcome = Outcome(addr: Addresses, rest: seq<Answer>, depth: nat)

  function DeeperOf(depth: nat, o: Outcome): Outcome {
    o.(depth := Max(depth, o.depth))
  }

  /** The listed requests that are searching and have no remote address. */
  function Seeking(c: Requests, addr: Addresses): set<nat> {
    set q | q in c.list && q in c.searching && q in addr && addr[q] == 0
  }

  predicate Listed(c: Requests, addr: Addresses) {
    forall q | q in c.list :: q in addr
  }

  /** What is left after a prefix of the answers has been consumed. */
  predicate Suffix(rest: seq<Answer>, script: seq<Answer>) {
    |rest| <= |script| && rest == script[|script| - |rest|..]
  }

  lemma SuffixTrans(a: seq<Answer>, b: seq<Answer>, c: seq<Answer>)
    requires Suffix(b, c) && Suffix(a, b)
    ensures Suffix(a, c)
  {
    assert c[|c| - |b|..][|b| - |a|..] == c[|c| - |a|..];
  }

  /** Unless the answers have run out, the last one consumed was a test that succeeded. */
  predicate Succeeded(script: seq<Answer>, rest: seq<Answer>) {
    Suffix(rest, script) && (rest != [] ==> |rest| < |script| && script[|script| - |rest| - 1].flag)
  }

  lemma SucceededLater(a: seq<Answer>, b: seq<Answer>, c: seq<Answer>)
    requires Suffix(b, c) && Succeeded(b, a)
    ensures Succeeded(c, a)
  {
    SuffixTrans(a, b, c);
  }

  /**
    What every call guarantees: addresses are only ever filled in, and the calls of
    `receive_rdma_info` nest no deeper than there are listed requests that search and have no address.
   */
  predicate Bounded(c: Requests, addr: Addresses, script: seq<Answer>, o: Outcome) {
    && Listed(c, o.addr) && NonNull(o.rest) && |o.rest| <= |script| && Suffix(o.rest, script)
    && Seeking(c, o.addr) <= Seeking(c, addr)
    && (forall q | q in c.list && q in addr && addr[q] != 0 :: o.addr[q] == addr[q])
    && o.depth <= |Seeking(c, addr)|
  }

  /** `receive_rdma_info` after a probe that announced `dataAddr`. */
  function Receive(c: Requests, addr: Addresses, r: nat, dataAddr: nat, script: seq<Answer>): (o: Outcome)
    requires Listed(c, addr) && r in Seeking(c, addr) && dataAddr != 0 && NonNull(script)
    ensures Bounded(c, addr, script, o) && o.addr[r] == dataAddr && o.depth > 0
    ensures Succeeded(script, o.rest)
    decreases |Seeking(c, addr)|, 0, 0
  {
    assert Seeking(c, addr[r := dataAddr]) == Seeking(c, addr) - {r};
    var o := AwaitOwn(c, addr[r := dataAddr], r, script);
    o.(depth := o.depth + 1)
  }

  /** Its wait for the own handshake. */
  function AwaitOwn(c: Requests, addr: Addresses, r: nat, script: seq<Answer>): (o: Outcome)
    requires Listed(c, addr) && NonNull(script)
    ensures Bounded(c, addr, script, o) && Succeeded(script, o.rest)
    decreases |Seeking(c, addr)|, 4, |script|
  {
    if script == [] then Outcome(addr, [], 0)
    else if script[0].flag then Outcome(addr, script[1..], 0)
    else
      var o := Others(c, addr, r, 0, script[1..]);
      SmallerSet(Seeking(c, o.addr), Seeking(c, addr));
      var p := AwaitOwn(c, o.addr, r, o.rest);
      SucceededLater(p.rest, o.rest, script[1..]);
      SucceededLater(p.rest, script[1..], script);
      DeeperOf(o.depth, p)
  }

  /** `progress_other_requests` from position `k` of the list on. */
  function Others(c: Requests, addr: Addresses, current: nat, k: nat, script: seq<Answer>): (o: Outcome)
    requires Listed(c, addr) && NonNull(script) && k <= |c.list|
    ensures Bounded(c, addr, script, o)
    decreases |Seeking(c, addr)|, 3, |c.list| - k
  {
    if k == |c.list| then Outcome(addr, script, 0)
    else if c.list[k] == current then Others(c, addr, current, k + 1, script)
    else
      var o := One(c, addr, c.list[k], script);
      SmallerSet(Seeking(c, o.addr), Seeking(c, addr));
      var p := Others(c, o.addr, current, k + 1, o.rest);
      SuffixTrans(p.rest, o.rest, script);
      DeeperOf(o.depth, p)
  }

  /** `progress_request`, as far as it can nest: only a request that is still searching probes. */
  function One(c: Requests, addr: Addresses, r: nat, script: seq<Answer>): (o: Outcome)
    requires Listed(c, addr) && r in c.list && NonNull(script)
    ensures Bounded(c, addr, script, o)
    ensures o.addr[r] == if r in Seeking(c, addr) && script != [] && script[0].flag then script[0].dataAddr else addr[r]
    decreases |Seeking(c, addr)|, 2, 0
  {
    if r !in c.searching || addr[r] != 0 || script == [] then Outcome(addr, script, 0)
    else if !script[0].flag then Outcome(addr, script[1..], 0)
    else
      var o := Receive(c, addr, r, script[0].dataAddr, script[1..]);
      SuffixTrans(o.rest, script[1..], script);
      o
  }

  // ---- every request is asked ----

  predicate AllFalse(script: seq<Answer>) {
    forall a | a in script :: !a.flag
  }

  /** How many listed requests from position `k` on, other than the current one, seek their connection. */
  function ToAsk(c: Requests, addr: Addresses, current: nat, k: nat): nat
    requires k <= |c.list|
    decreases |c.list| - k
  {
    if k == |c.list| then 0
    else (if c.list[k] in Seeking(c, addr) && c.list[k] != current then 1 else 0) + ToAsk(c, addr, current, k + 1)
  }

  /** A walk in which no probe succeeds asks each of them once and changes no address. */
  lemma {:induction false} QuietWalk(c: Requests, addr: Addresses, current: nat, k: nat, script: seq<Answer>)
    requires Listed(c, addr) && NonNull(script) && AllFalse(script) && k <= |c.list|
    ensures var n := ToAsk(c, addr, current, k);
      Others(c, addr, current, k, script) == Outcome(addr, if n <= |script| then script[n..] else [], 0)
    decreases |c.list| - k
  {
    if k < |c.list| {
      if c.list[k] in Seeking(c, addr) && c.list[k] != current && script != [] {
        assert script[0] in script;
        QuietWalk(c, addr, current, k + 1, script[1..]);
      } else {
        QuietWalk(c, addr, current, k + 1, script);
      }
    }
  }

  // ---- the bound is tight ----

  /** Every probe succeeds, and no request finds its own handshake matched. */
  function Worst(n: nat): (script: seq<Answer>)
    ensures NonNull(script)
  {
    if n == 0 then [] else [Answer(true, 1), Answer(false, 1)] + Worst(n - 1)
  }

  lemma PassesOverOne(c: Requests, addr: Addresses, current: nat, k: nat, script: seq<Answer>)
    requires Listed(c, addr) && NonNull(script) && k < |c.list|
    requires c.list[k] in Seeking(c, addr) ==> c.list[k] == current
    ensures Others(c, addr, current, k, script) == Others(c, addr, current, k + 1, script)
  {
    assert c.list[k] != current ==> One(c, addr, c.list[k], script) == Outcome(addr, script, 0);
    hide One, Bounded, Suffix, Succeeded;
  }

  /** Requests that do not search, or have an address, or are the current one, are passed over. */
  lemma {:induction false} PassesOver(c: Requests, addr: Addresses, current: nat, k: nat, j: nat, script: seq<Answer>)
    requires Listed(c, addr) && NonNull(script) && k <= j <= |c.list|
    requires forall i | k <= i < j :: c.list[i] in Seeking(c, addr) ==> c.list[i] == current
    ensures Others(c, addr, current, k, script) == Others(c, addr, current, j, script)
    decreases j - k
  {
    hide Others, One, Bounded, Seeking, Listed, NonNull;
    if k < j {
      PassesOverOne(c, addr, current, k, script);
      PassesOver(c, addr, current, k + 1, j, script);
    }
  }

  /** The first request of the list that the walk does not pass over. */
  lemma {:induction false} FirstSeeking(c: Requests, addr: Addresses, current: nat, k: nat) returns (j: nat)
    requires Listed(c, addr) && k <= |c.list|
    requires exists i :: k <= i < |c.list| && c.list[i] in Seeking(c, addr) && c.list[i] != current
    ensures k <= j < |c.list| && c.list[j] in Seeking(c, addr) && c.list[j] != current
    ensures forall i | k <= i < j :: c.list[i] in Seeking(c, addr) ==> c.list[i] == current
    decreases |c.list| - k
  {
    if c.list[k] in Seeking(c, addr) && c.list[k] != current {
      j := k;
    } else {
      j := FirstSeeking(c, addr, current, k + 1);
    }
  }

  lemma SeekingWithout(c: Requests, addr: Addresses, r: nat, a: nat)
    requires Listed(c, addr) && r in Seeking(c, addr) && a != 0
    ensures Listed(c, addr[r := a]) && Seeking(c, addr[r := a]) == Seeking(c, addr) - {r}
  {}

  lemma {:induction false} NestsAll(c: Requests, addr: Addresses, current: nat)
    requires Listed(c, addr) && (Seeking(c, addr) - {current} == {} ==> Seeking(c, addr) == {})
    ensures Others(c, addr, current, 0, Worst(|Seeking(c, addr)|)).depth >= |Seeking(c, addr)|
    decreases |Seeking(c, addr)|
  {
    hide Others, One, Bounded;
    var n := |Seeking(c, addr)|;
    if n > 0 {
      var q :| q in Seeking(c, addr) - {current};
      var i :| 0 <= i < |c.list| && c.list[i] == q;
      var j := FirstSeeking(c, addr, current, 0);
      var r := c.list[j];
      PassesOver(c, addr, current, 0, j, Worst(n));
      SeekingWithout(c, addr, r, 1);
      hide Seeking;
      NestsAll(c, addr[r := 1], r);
      EntersWait(c, addr, r, Worst(n - 1));
      HeadCounts(c, addr, current, j, Worst(n));
    }
  }

  /** A request that is found and then waits nests one deeper than what it progresses meanwhile. */
  lemma EntersWait(c: Requests, addr: Addresses, r: nat, rest: seq<Answer>)
    requires Listed(c, addr) && r in Seeking(c, addr) && NonNull(rest)
    ensures One(c, addr, r, [Answer(true, 1), Answer(false, 1)] + rest).depth
          > Others(c, addr[r := 1], r, 0, rest).depth
  {
    hide Others, Bounded;
    var script := [Answer(true, 1), Answer(false, 1)] + rest;
    assert script[1..][1..] == rest;
    assert One(c, addr, r, script) == Receive(c, addr, r, 1, script[1..]);
    assert AwaitOwn(c, addr[r := 1], r, script[1..]).depth >= Others(c, addr[r := 1], r, 0, rest).depth;
  }

  lemma HeadCounts(c: Requests, addr: Addresses, current: nat, k: nat, script: seq<Answer>)
    requires Listed(c, addr) && NonNull(script) && k < |c.list| && c.list[k] != current
    ensures Others(c, addr, current, k, script).depth >= One(c, addr, c.list[k], script).depth
  {
    hide One;
  }

  /**
    For any list and any addresses the bound is reached by some answers, with one exception: when the
    current request is the only one that is seeking, nothing nests whatever the answers are.
   */
  lemma NestingIsReached(c: Requests, addr: Addresses, current: nat)
    requires Listed(c, addr)
    ensures Seeking(c, addr) != {current} ==>
      Others(c, addr, current, 0, Worst(|Seeking(c, addr)|)).depth == |Seeking(c, addr)|
    ensures Seeking(c, addr) == {current} ==>
      forall script | NonNull(script) :: Others(c, addr, current, 0, script).depth == 0
  {
    if Seeking(c, addr) != {current} {
      OtherThan(Seeking(c, addr), current);
      NestsAll(c, addr, current);
    } else {
      forall script | NonNull(script) ensures Others(c, addr, current, 0, script).depth == 0 {
        PassesOver(c, addr, current, 0, |c.list|, script);
      }
    }
  }

  lemma OtherThan(s: set<nat>, x: nat)
    requires s != {x}
    ensures s - {x} == {} ==> s == {}
  {
    if x in s {
      assert s == (s - {x}) + {x};
    } else {
      assert s == s - {x};
    }
  }

  // ---- the code ----

  /** Instrumentation: the calls of `receive_rdma_info` that are active, and the largest number so far. */
  class Engine {
    const c: Requests
    var addr: Addresses
    var active: nat
    var reached: nat

    constructor (c: Requests)
      ensures this.c == c && Valid() && active == 0 && reached == 0
      ensures Seeking(c, addr) == set q | q in c.list && q in c.searching
    {
      this.c := c;
      active, reached := 0, 0;
      addr := map q | q in c.list :: 0;
    }

    predicate Valid()
      reads this
    {
      Listed(c, addr) && active <= reached
    }

    /** The new state is that of `o`, and `reached` accounts for its depth. */
    twostate predicate Became(o: Outcome)
      reads this
    {
      Valid() && addr == o.addr && active == old(active) && reached == Max(old(reached), active + o.depth)
    }

    /** `receive_rdma_info`, after a probe that announced `dataAddr`. */
    method ReceiveRdmaInfo(r: nat, dataAddr: nat, script: seq<Answer>) returns (rest: seq<Answer>)
      requires Valid() && r in Seeking(c, addr) && dataAddr != 0 && NonNull(script)
      modifies this`addr, this`active, this`reached
      ensures Became(Receive(c, old(addr), r, dataAddr, script))
      ensures rest == Receive(c, old(addr), r, dataAddr, script).rest
      ensures Succeeded(script, rest)
      decreases |Seeking(c, addr)|, 0
    {
      hide Succeeded, Suffix, Others;
      SeekingWithout(c, addr, r, dataAddr);
      active := active + 1;
      reached := Max(reached, active);
      addr := addr[r := dataAddr];
      ghost var goal := AwaitOwn(c, addr, r, script);
      ghost var depth := 0;
      rest := script;
      var matched := false;
      while !matched && rest != []
        invariant Valid() && NonNull(rest) && active == old(active) + 1
        invariant Seeking(c, addr) <= Seeking(c, old(addr)) - {r}
        invariant reached == Max(old(reached), active + depth)
        invariant !matched ==> goal == DeeperOf(depth, AwaitOwn(c, addr, r, rest))
        invariant matched ==> goal == Outcome(addr, rest, depth)
        decreases |rest|
      {
        matched := rest[0].flag;
        rest := rest[1..];
        if !matched {
          SmallerSet(Seeking(c, addr), Seeking(c, old(addr)) - {r});
          ghost var o := Others(c, addr, r, 0, rest);
          rest := ProgressOtherRequests(r, rest);
          depth := Max(depth, o.depth);
        }
      }
      active := active - 1;
    }

    /** `progress_request_waiting_for_rdma`, as far as it can nest. */
    method ProgressWaiting(r: nat, script: seq<Answer>) returns (rest: seq<Answer>)
      requires Valid() && r in c.list && r in c.searching && NonNull(script)
      modifies this`addr, this`active, this`reached
      ensures Became(One(c, old(addr), r, script)) && rest == One(c, old(addr), r, script).rest
      decreases |Seeking(c, addr)|, 1
    {
      rest := script;
      if addr[r] == 0 && rest != [] {
        var found := rest[0];
        rest := rest[1..];
        if found.flag {
          rest := ReceiveRdmaInfo(r, found.dataAddr, rest);
        }
      }
    }

    /** `progress_request`. */
    method ProgressRequest(r: nat, script: seq<Answer>) returns (rest: seq<Answer>)
      requires Valid() && r in c.list && NonNull(script)
      modifies this`addr, this`active, this`reached
      ensures Became(One(c, old(addr), r, script)) && rest == One(c, old(addr), r, script).rest
      decreases |Seeking(c, addr)|, 2
    {
      rest := script;
      if r in c.searching {
        rest := ProgressWaiting(r, script);
      }
    }

    /**
      `progress_other_requests`: at most as many calls of `receive_rdma_info` become active on top of
      those already active as there are listed requests without a remote address.
     */
    method ProgressOtherRequests(current: nat, script: seq<Answer>) returns (rest: seq<Answer>)
      requires Valid() && NonNull(script)
      modifies this`addr, this`active, this`reached
      ensures Became(Others(c, old(addr), current, 0, script))
      ensures rest == Others(c, old(addr), current, 0, script).rest
      ensures old(reached) <= reached <= Max(old(reached), active + |Seeking(c, old(addr))|)
      decreases |Seeking(c, addr)|, 3
    {
      hide Succeeded, Suffix, One;
      rest := script;
      ghost var goal := Others(c, addr, current, 0, script);
      ghost var depth := 0;
      for k := 0 to |c.list|
        invariant Valid() && NonNull(rest) && active == old(active)
        invariant Seeking(c, addr) <= Seeking(c, old(addr))
        invariant reached == Max(old(reached), active + depth)
        invariant goal == DeeperOf(depth, Others(c, addr, current, k, rest))
      {
        if c.list[k] != current {
          SmallerSet(Seeking(c, addr), Seeking(c, old(addr)));
          ghost var o := One(c, addr, c.list[k], rest);
          rest := ProgressRequest(c.list[k], rest);
          depth := Max(depth, o.depth);
        }
      }
    }
  }
}
