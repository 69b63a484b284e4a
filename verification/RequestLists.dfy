/**
  The two linked lists of requests, live and to be freed at the end, and the resources of a request:
  which it acquires, at init and with the peer's handshake, and when the library releases them. The
  data part is released when the request is freed, the flag part, which the peer may still write to,
  only at FINALIZE, and both only if the request has reached RDMA mode.
 */
module RequestLists {
  import opened Common

  // ---- specification ----

  /** Memory handles are mapped at init, keys are unpacked from the peer's handshake. */
  datatype Resource = DataHandle | FlagHandle | DataKey | FlagKey | InfoBuffer | Memory

  datatype Entry = Acquire(what: Resource, req: nat) | Release(what: Resource, req: nat)

  /** Requests are identified by their addresses. `keys`: those that have received the peer's handshake. */
  datatype Book = Book(live: seq<nat>, toFree: seq<nat>, kind: map<nat, Kind>, keys: set<nat>, log: seq<Entry>)

  function RemoveFirst(s: seq<nat>, x: nat): seq<nat> {
    if s == [] then [] else if s[0] == x then s[1..] else [s[0]] + RemoveFirst(s[1..], x)
  }

  predicate IsRdma(kind: map<nat, Kind>, x: nat) {
    x in kind && kind[x].Rdma?
  }

  function InitAcquires(x: nat): seq<Entry> {
    [Acquire(Memory, x), Acquire(DataHandle, x), Acquire(FlagHandle, x), Acquire(InfoBuffer, x)]
  }

  function ReceiveAcquires(x: nat): seq<Entry> {
    [Acquire(DataKey, x), Acquire(FlagKey, x)]
  }

  function FreeReleases(kind: map<nat, Kind>, x: nat): seq<Entry> {
    if IsRdma(kind, x) then [Release(DataHandle, x), Release(DataKey, x)] else []
  }

  function FinalReleasesOf(x: nat, kind: map<nat, Kind>): seq<Entry> {
    [Release(InfoBuffer, x)] + (if IsRdma(kind, x) then [Release(FlagHandle, x), Release(FlagKey, x)] else [])
    + [Release(Memory, x)]
  }

  /** What FINALIZE releases for the requests on the to-free list, in list order. */
  function FinalReleases(toFree: seq<nat>, kind: map<nat, Kind>): seq<Entry> {
    if toFree == [] then [] else FinalReleasesOf(toFree[0], kind) + FinalReleases(toFree[1..], kind)
  }

  datatype Op = Init(req: nat) | Receive(req: nat) | Connect(req: nat, kind: Kind) | Free(req: nat)

  /**
    Init yields a fresh address. A live request that is searching receives the handshake once, and gets
    its mode: RDMA if and only if it has received the handshake. A request is freed while it is live.
   */
  predicate Possible(b: Book, op: Op) {
    match op
    case Init(x) => x !in b.kind
    case Receive(x) => x in b.live && x in b.kind && b.kind[x].Searching? && x !in b.keys
    case Connect(x, k) =>
      x in b.live && x in b.kind && b.kind[x].Searching? && k == if x in b.keys then Rdma else Fallback
    case Free(x) => x in b.live && x in b.kind
  }

  function Do(b: Book, op: Op): Book
    requires Possible(b, op)
  {
    match op
    case Init(x) => b.(live := [x] + b.live, kind := b.kind[x := Searching], log := b.log + InitAcquires(x))
    case Receive(x) => b.(keys := b.keys + {x}, log := b.log + ReceiveAcquires(x))
    case Connect(x, k) => b.(kind := b.kind[x := k])
    case Free(x) =>
      b.(live := RemoveFirst(b.live, x), toFree := [x] + b.toFree, log := b.log + FreeReleases(b.kind, x))
  }

  predicate Distinct(s: seq<nat>) {
    forall i, j | 0 <= i < j < |s| :: s[i] != s[j]
  }

  /** Every request ever initialised is on exactly one list, and only once. */
  ghost predicate Consistent(b: Book) {
    && Distinct(b.live) && Distinct(b.toFree)
    && (forall x :: x in b.kind <==> x in b.live || x in b.toFree)
    && (forall x | x in b.live :: x !in b.toFree)
    && (forall x | x in b.keys :: x in b.kind)
    && (forall x | x in b.kind && b.kind[x].Rdma? :: x in b.keys)
  }

  /** How often an entry is in the log. */
  function Times(log: seq<Entry>, e: Entry): nat {
    if log == [] then 0 else (if log[0] == e then 1 else 0) + Times(log[1..], e)
  }

  lemma {:induction false} TimesConcat(a: seq<Entry>, b: seq<Entry>, e: Entry)
    ensures Times(a + b, e) == Times(a, e) + Times(b, e)
  {
    if a == [] {
      assert a + b == b;
    } else {
      TimesConcat(a[1..], b, e);
      assert (a + b)[1..] == a[1..] + b;
    }
  }

  lemma {:induction false} TimesDistinct(log: seq<Entry>, e: Entry)
    requires forall i, j | 0 <= i < j < |log| :: log[i] != log[j]
    ensures Times(log, e) == if e in log then 1 else 0
  {
    if log != [] {
      TimesDistinct(log[1..], e);
      assert log == [log[0]] + log[1..];
    }
  }

  /** The resources of a request that has been initialised. */
  predicate Owns(b: Book, what: Resource, x: nat) {
    x in b.kind && (what.DataKey? || what.FlagKey? ==> x in b.keys)
  }

  /** Released by free. */
  predicate DataPart(what: Resource) {
    what.DataHandle? || what.DataKey?
  }

  predicate FlagPart(what: Resource) {
    what.FlagHandle? || what.FlagKey?
  }

  /**
    The log so far: everything owned was acquired once, the data part of freed RDMA requests has been
    released once, and nothing else has been acquired or released.
   */
  ghost predicate Accounted(b: Book) {
    && (forall what, x :: Times(b.log, Acquire(what, x)) == if Owns(b, what, x) then 1 else 0)
    && (forall what, x ::
          Times(b.log, Release(what, x)) == if DataPart(what) && x in b.toFree && IsRdma(b.kind, x) then 1 else 0)
  }

  lemma {:induction false} RemoveFirstDistinct(s: seq<nat>, x: nat)
    requires x in s && Distinct(s)
    ensures Distinct(RemoveFirst(s, x))
    ensures forall y :: y in RemoveFirst(s, x) <==> y in s && y != x
  {
    assert forall y :: y in s <==> y == s[0] || y in s[1..];
    assert s[0] !in s[1..];
    if s[0] != x {
      RemoveFirstDistinct(s[1..], x);
      var r := RemoveFirst(s[1..], x);
      assert forall i | 0 <= i < |r| :: r[i] in r && r[i] != s[0];
    }
  }

  lemma {:induction false} RemoveFirstAt(s: seq<nat>, x: nat, k: nat)
    requires k < |s| && s[k] == x && x !in s[..k]
    ensures RemoveFirst(s, x) == s[..k] + s[k + 1..]
  {
    if k > 0 {
      assert s[..k] == [s[0]] + s[1..][..k - 1];
      RemoveFirstAt(s[1..], x, k - 1);
    }
  }

  lemma DoKeepsConsistent(b: Book, op: Op)
    requires Consistent(b) && Possible(b, op)
    ensures Consistent(Do(b, op))
  {
    if op.Free? {
      RemoveFirstDistinct(b.live, op.req);
    }
  }

  /** What one operation adds to the log. */
  function Added(b: Book, op: Op): seq<Entry>
    requires Possible(b, op)
  {
    match op
    case Init(x) => InitAcquires(x)
    case Receive(x) => ReceiveAcquires(x)
    case Connect(_, _) => []
    case Free(x) => FreeReleases(b.kind, x)
  }

  lemma DoLog(b: Book, op: Op, e: Entry)
    requires Possible(b, op)
    ensures Times(Do(b, op).log, e) == Times(b.log, e) + if e in Added(b, op) then 1 else 0
  {
    assert b.log + [] == b.log;
    TimesConcat(b.log, Added(b, op), e);
    TimesDistinct(Added(b, op), e);
  }

  lemma DoKeepsAccounted(b: Book, op: Op)
    requires Consistent(b) && Accounted(b) && Possible(b, op)
    ensures Accounted(Do(b, op))
  {
    var b' := Do(b, op);
    forall what, x
      ensures Times(b'.log, Acquire(what, x)) == if Owns(b', what, x) then 1 else 0
    {
      DoLog(b, op, Acquire(what, x));
    }
    forall what, x
      ensures Times(b'.log, Release(what, x)) == if DataPart(what) && x in b'.toFree && IsRdma(b'.kind, x) then 1 else 0
    {
      DoLog(b, op, Release(what, x));
    }
  }

  predicate AllPossible(b: Book, ops: seq<Op>)
    decreases |ops|
  {
    ops == [] || (Possible(b, ops[0]) && AllPossible(Do(b, ops[0]), ops[1..]))
  }

  function DoAll(b: Book, ops: seq<Op>): Book
    requires AllPossible(b, ops)
    decreases |ops|
  {
    if ops == [] then b else DoAll(Do(b, ops[0]), ops[1..])
  }

  const EMPTY := Book([], [], map[], {}, [])

  lemma {:induction false} DoAllKeeps(b: Book, ops: seq<Op>)
    requires Consistent(b) && Accounted(b) && AllPossible(b, ops)
    ensures Consistent(DoAll(b, ops)) && Accounted(DoAll(b, ops))
    decreases |ops|
  {
    if ops != [] {
      DoKeepsConsistent(b, ops[0]);
      DoKeepsAccounted(b, ops[0]);
      DoAllKeeps(Do(b, ops[0]), ops[1..]);
    }
  }

  /**
    Over any sequence of inits, handshakes, connections and frees: each request is on exactly one of
    the two lists, and the log is as `Accounted` says.
   */
  lemma Conservation(ops: seq<Op>)
    requires AllPossible(EMPTY, ops)
    ensures Consistent(DoAll(EMPTY, ops)) && Accounted(DoAll(EMPTY, ops))
  {
    DoAllKeeps(EMPTY, ops);
  }

  lemma {:induction false} FinalCounts(toFree: seq<nat>, kind: map<nat, Kind>, what: Resource, x: nat)
    requires Distinct(toFree)
    ensures Times(FinalReleases(toFree, kind), Release(what, x)) ==
      if x in toFree && (what.Memory? || what.InfoBuffer? || (FlagPart(what) && IsRdma(kind, x))) then 1 else 0
    ensures Times(FinalReleases(toFree, kind), Acquire(what, x)) == 0
  {
    if toFree != [] {
      var y := toFree[0];
      FinalCounts(toFree[1..], kind, what, x);
      TimesConcat(FinalReleasesOf(y, kind), FinalReleases(toFree[1..], kind), Release(what, x));
      TimesConcat(FinalReleasesOf(y, kind), FinalReleases(toFree[1..], kind), Acquire(what, x));
      CountsOfOne(y, kind, what, x);
      hide FinalReleasesOf, Times, IsRdma;
      assert toFree == [y] + toFree[1..];
    }
  }

  lemma CountsOfOne(y: nat, kind: map<nat, Kind>, what: Resource, x: nat)
    ensures Times(FinalReleasesOf(y, kind), Release(what, x)) ==
      if x == y && (what.Memory? || what.InfoBuffer? || (FlagPart(what) && IsRdma(kind, x))) then 1 else 0
    ensures Times(FinalReleasesOf(y, kind), Acquire(what, x)) == 0
  {
    TimesDistinct(FinalReleasesOf(y, kind), Release(what, x));
    TimesDistinct(FinalReleasesOf(y, kind), Acquire(what, x));
  }

  lemma ReleaseHead(toFree: seq<nat>, k: nat, kind: map<nat, Kind>)
    requires k < |toFree|
    ensures FinalReleases(toFree[k..], kind) == FinalReleasesOf(toFree[k], kind) + FinalReleases(toFree[k + 1..], kind)
  {
    assert toFree[k..][1..] == toFree[k + 1..];
  }

  lemma NothingLeft(kind: map<nat, Kind>)
    ensures FinalReleases([], kind) == []
  {}

  lemma SomeMember(s: seq<nat>)
    ensures s == [] || exists y :: y in s
  {
    if s != [] {
      assert s[0] in s;
    }
  }

  /** The log after FINALIZE. */
  function FinalLog(b: Book): seq<Entry> {
    b.log + FinalReleases(b.toFree, b.kind)
  }

  lemma FinalTimes(ops: seq<Op>, what: Resource, x: nat)
    requires AllPossible(EMPTY, ops) && x in DoAll(EMPTY, ops).toFree
    ensures var b := DoAll(EMPTY, ops);
      && Times(FinalLog(b), Acquire(what, x)) == (if Owns(b, what, x) then 1 else 0)
      && Times(FinalLog(b), Release(what, x)) ==
           if what.Memory? || what.InfoBuffer? || IsRdma(b.kind, x) then 1 else 0
  {
    var b := DoAll(EMPTY, ops);
    Conservation(ops);
    TimesConcat(b.log, FinalReleases(b.toFree, b.kind), Acquire(what, x));
    TimesConcat(b.log, FinalReleases(b.toFree, b.kind), Release(what, x));
    FinalCounts(b.toFree, b.kind, what, x);
  }

  /** After FINALIZE everything the request acquired has been released exactly once. */
  ghost predicate Balanced(b: Book, x: nat) {
    forall what :: Times(FinalLog(b), Release(what, x)) == Times(FinalLog(b), Acquire(what, x)) <= 1
  }

  /** For a freed request, everything it acquired is released exactly once if and only if it was in RDMA mode. */
  lemma ReleasedExactlyIfRdma(ops: seq<Op>, x: nat)
    requires AllPossible(EMPTY, ops) && x in DoAll(EMPTY, ops).toFree
    ensures var b := DoAll(EMPTY, ops); Balanced(b, x) <==> IsRdma(b.kind, x)
  {
    var b := DoAll(EMPTY, ops);
    Conservation(ops);
    forall what
      ensures Times(FinalLog(b), Acquire(what, x)) == (if Owns(b, what, x) then 1 else 0)
      ensures Times(FinalLog(b), Release(what, x)) ==
        if what.Memory? || what.InfoBuffer? || IsRdma(b.kind, x) then 1 else 0
    {
      FinalTimes(ops, what, x);
    }
    hide FinalLog, Accounted;
    if !IsRdma(b.kind, x) {
      assert Times(FinalLog(b), Acquire(DataHandle, x)) == 1 && Times(FinalLog(b), Release(DataHandle, x)) == 0;
    }
  }

  /** Nothing is released that was not acquired, nor twice; the memory of a freed request always is. */
  lemma NeverReleasedTwice(ops: seq<Op>, what: Resource, x: nat)
    requires AllPossible(EMPTY, ops) && x in DoAll(EMPTY, ops).toFree
    ensures var b := DoAll(EMPTY, ops);
      && Times(FinalLog(b), Release(what, x)) <= Times(FinalLog(b), Acquire(what, x)) <= 1
      && Times(FinalLog(b), Release(Memory, x)) == 1
  {
    Conservation(ops);
    FinalTimes(ops, what, x);
    FinalTimes(ops, Memory, x);
  }

  /** A life in RDMA mode, with everything released: the data part at free, the rest at FINALIZE. */
  lemma RdmaLife()
    ensures var ops := [Init(5), Receive(5), Connect(5, Rdma), Free(5)];
      && AllPossible(EMPTY, ops)
      && FinalLog(DoAll(EMPTY, ops)) ==
           [Acquire(Memory, 5), Acquire(DataHandle, 5), Acquire(FlagHandle, 5), Acquire(InfoBuffer, 5),
            Acquire(DataKey, 5), Acquire(FlagKey, 5), Release(DataHandle, 5), Release(DataKey, 5),
            Release(InfoBuffer, 5), Release(FlagHandle, 5), Release(FlagKey, 5), Release(Memory, 5)]
  {
    var ops := [Init(5), Receive(5), Connect(5, Rdma), Free(5)];
    var b1 := Do(EMPTY, ops[0]);
    assert b1 == Book([5], [], map[5 := Searching], {}, InitAcquires(5));
    var b2 := Do(b1, ops[1]);
    assert b2 == Book([5], [], map[5 := Searching], {5}, InitAcquires(5) + ReceiveAcquires(5));
    var b3 := Do(b2, ops[2]);
    assert b3 == Book([5], [], map[5 := Rdma], {5}, InitAcquires(5) + ReceiveAcquires(5));
    var b4 := Do(b3, ops[3]);
    assert b4.toFree == [5] && b4.kind == map[5 := Rdma];
    assert ops[1..][1..][1..] == [Free(5)] && ops[1..][1..][1..][1..] == [];
    assert DoAll(b4, []) == b4 && AllPossible(b4, []);
    assert AllPossible(b3, [Free(5)]) && DoAll(b3, [Free(5)]) == b4;
    assert ops[1..][1..] == [Connect(5, Rdma), Free(5)];
    assert AllPossible(b2, ops[1..][1..]) && DoAll(b2, ops[1..][1..]) == b4;
    assert AllPossible(b1, ops[1..]) && DoAll(b1, ops[1..]) == b4;
    assert FinalReleases([5], b4.kind) == FinalReleasesOf(5, b4.kind) + FinalReleases([], b4.kind);
  }

  /** The leak: both memory handles of a request that falls back are mapped at init and never unmapped. */
  lemma FallbackLeaks()
    ensures var ops := [Init(5), Connect(5, Fallback), Free(5)];
      && AllPossible(EMPTY, ops) && 5 in DoAll(EMPTY, ops).toFree
      && var log := FinalLog(DoAll(EMPTY, ops));
         && Times(log, Acquire(DataHandle, 5)) == Times(log, Acquire(FlagHandle, 5)) == 1
         && Times(log, Release(DataHandle, 5)) == Times(log, Release(FlagHandle, 5)) == 0
  {
    var ops := [Init(5), Connect(5, Fallback), Free(5)];
    var b := Book([], [5], map[5 := Fallback], {}, InitAcquires(5));
    FallbackRun();
    FinalTimes(ops, DataHandle, 5);
    FinalTimes(ops, FlagHandle, 5);
  }

  lemma FallbackRun()
    ensures var ops := [Init(5), Connect(5, Fallback), Free(5)];
      && AllPossible(EMPTY, ops)
      && DoAll(EMPTY, ops) == Book([], [5], map[5 := Fallback], {}, InitAcquires(5))
  {
    var ops := [Init(5), Connect(5, Fallback), Free(5)];
    var b1 := Do(EMPTY, ops[0]);
    assert b1.live == [5] && b1.kind == map[5 := Searching] && b1.log == InitAcquires(5);
    var b2 := Do(b1, ops[1]);
    assert b2.kind == map[5 := Fallback];
    var b3 := Do(b2, ops[2]);
    assert b3.toFree == [5] && b3.log == InitAcquires(5);
    assert ops[1..] == [Connect(5, Fallback), Free(5)] && ops[1..][1..] == [Free(5)] && ops[1..][1..][1..] == [];
    assert DoAll(b3, []) == b3 && AllPossible(b3, []);
    assert AllPossible(b2, [Free(5)]) && DoAll(b2, [Free(5)]) == b3;
    assert AllPossible(b1, ops[1..]) && DoAll(b1, ops[1..]) == b3;
  }

  /** If every request was freed, the live list is empty at FINALIZE. */
  lemma AllFreedMeansEmpty(ops: seq<Op>)
    requires AllPossible(EMPTY, ops)
    ensures var b := DoAll(EMPTY, ops); b.live == [] <==> forall y | y in b.kind :: y in b.toFree
  {
    Conservation(ops);
    SomeMember(DoAll(EMPTY, ops).live);
  }

  // ---- in which order ----

  /**
    An entry that may follow `before`: a request's memory is acquired before anything else of it and
    released after everything else; what is released has been acquired; nothing happens twice.
   */
  predicate Permitted(before: seq<Entry>, e: Entry) {
    && e !in before && Release(Memory, e.req) !in before
    && match e
       case Acquire(Memory, x) => forall f | f in before :: f.req != x
       case Acquire(_, x) => Acquire(Memory, x) in before
       case Release(what, x) => Acquire(what, x) in before
  }

  predicate WellOrdered(log: seq<Entry>) {
    forall j | 0 <= j < |log| :: Permitted(log[..j], log[j])
  }

  lemma OrderedAppend(log: seq<Entry>, e: Entry)
    requires WellOrdered(log) && Permitted(log, e)
    ensures WellOrdered(log + [e])
  {
    hide Permitted;
    var log' := log + [e];
    forall j | 0 <= j < |log'| ensures Permitted(log'[..j], log'[j]) {
      assert log'[..j] == log[..j];
    }
  }

  lemma {:induction false} TimesIn(log: seq<Entry>, e: Entry)
    ensures Times(log, e) > 0 <==> e in log
  {
    if log != [] {
      TimesIn(log[1..], e);
      assert log == [log[0]] + log[1..];
    }
  }

  lemma InitOrdered(log: seq<Entry>, x: nat)
    requires WellOrdered(log) && forall f | f in log :: f.req != x
    ensures WellOrdered(log + InitAcquires(x))
  {
    hide WellOrdered;
    var l1 := log + [Acquire(Memory, x)];
    OrderedAppend(log, Acquire(Memory, x));
    var l2 := l1 + [Acquire(DataHandle, x)];
    OrderedAppend(l1, Acquire(DataHandle, x));
    var l3 := l2 + [Acquire(FlagHandle, x)];
    OrderedAppend(l2, Acquire(FlagHandle, x));
    OrderedAppend(l3, Acquire(InfoBuffer, x));
    assert log + InitAcquires(x) == l3 + [Acquire(InfoBuffer, x)];
  }

  lemma PairOrdered(log: seq<Entry>, e: Entry, f: Entry)
    requires WellOrdered(log) && Permitted(log, e) && Permitted(log, f)
    requires e != f && e.req == f.req && e.Acquire? == f.Acquire?
    requires e != Release(Memory, e.req) && f != Acquire(Memory, f.req)
    ensures WellOrdered(log + [e, f])
  {
    hide WellOrdered;
    OrderedAppend(log, e);
    OrderedAppend(log + [e], f);
    assert log + [e, f] == (log + [e]) + [f];
  }

  /** How the log of a consistent book speaks about a request. */
  lemma LogOf(b: Book, what: Resource, x: nat)
    requires Accounted(b)
    ensures Acquire(what, x) in b.log <==> Owns(b, what, x)
    ensures Release(what, x) in b.log <==> DataPart(what) && x in b.toFree && IsRdma(b.kind, x)
  {
    TimesIn(b.log, Acquire(what, x));
    TimesIn(b.log, Release(what, x));
  }

  lemma Unheard(b: Book, x: nat)
    requires Consistent(b) && Accounted(b) && x !in b.kind
    ensures forall f | f in b.log :: f.req != x
  {
    forall f | f in b.log ensures f.req != x {
      LogOf(b, f.what, f.req);
    }
  }

  lemma DoKeepsOrder(b: Book, op: Op)
    requires Consistent(b) && Accounted(b) && WellOrdered(b.log) && Possible(b, op)
    ensures WellOrdered(Do(b, op).log)
  {
    var x := op.req;
    LogOf(b, Memory, x);
    match op
    case Init(_) =>
      Unheard(b, x);
      InitOrdered(b.log, x);
    case Receive(_) =>
      LogOf(b, DataKey, x);
      LogOf(b, FlagKey, x);
      PairOrdered(b.log, Acquire(DataKey, x), Acquire(FlagKey, x));
    case Connect(_, _) =>
    case Free(_) =>
      LogOf(b, DataHandle, x);
      LogOf(b, DataKey, x);
      if IsRdma(b.kind, x) {
        PairOrdered(b.log, Release(DataHandle, x), Release(DataKey, x));
      } else {
        assert b.log + [] == b.log;
      }
  }

  lemma {:induction false} DoAllKeepsOrder(b: Book, ops: seq<Op>)
    requires Consistent(b) && Accounted(b) && WellOrdered(b.log) && AllPossible(b, ops)
    ensures WellOrdered(DoAll(b, ops).log)
    decreases |ops|
  {
    if ops != [] {
      DoKeepsConsistent(b, ops[0]);
      DoKeepsAccounted(b, ops[0]);
      DoKeepsOrder(b, ops[0]);
      hide Consistent, Accounted, WellOrdered, Possible, Do;
      DoAllKeepsOrder(Do(b, ops[0]), ops[1..]);
    }
  }

  /** What FINALIZE is about to release has been acquired and not yet released. */
  predicate Ready(log: seq<Entry>, kind: map<nat, Kind>, x: nat) {
    && Permitted(log, Release(Memory, x)) && Permitted(log, Release(InfoBuffer, x))
    && (IsRdma(kind, x) ==> Permitted(log, Release(FlagHandle, x)) && Permitted(log, Release(FlagKey, x)))
  }

  lemma OneReleasedInOrder(log: seq<Entry>, kind: map<nat, Kind>, x: nat)
    requires WellOrdered(log) && Ready(log, kind, x)
    ensures WellOrdered(log + FinalReleasesOf(x, kind))
  {
    hide WellOrdered;
    var l1 := log + [Release(InfoBuffer, x)];
    OrderedAppend(log, Release(InfoBuffer, x));
    if IsRdma(kind, x) {
      PairOrdered(l1, Release(FlagHandle, x), Release(FlagKey, x));
      var l2 := l1 + [Release(FlagHandle, x), Release(FlagKey, x)];
      OrderedAppend(l2, Release(Memory, x));
      assert log + FinalReleasesOf(x, kind) == l2 + [Release(Memory, x)];
    } else {
      OrderedAppend(l1, Release(Memory, x));
      assert log + FinalReleasesOf(x, kind) == l1 + [Release(Memory, x)];
    }
  }

  lemma OthersStayReady(log: seq<Entry>, kind: map<nat, Kind>, x: nat, y: nat)
    requires Ready(log, kind, y) && x != y
    ensures Ready(log + FinalReleasesOf(x, kind), kind, y)
  {}

  lemma {:induction false} ReleasedInOrder(log: seq<Entry>, toFree: seq<nat>, kind: map<nat, Kind>)
    requires WellOrdered(log) && Distinct(toFree) && forall x | x in toFree :: Ready(log, kind, x)
    ensures WellOrdered(log + FinalReleases(toFree, kind))
    decreases |toFree|
  {
    hide WellOrdered, Ready, FinalReleasesOf;
    if toFree == [] {
      assert log + [] == log;
    } else {
      var x := toFree[0];
      OneReleasedInOrder(log, kind, x);
      forall y | y in toFree[1..] ensures Ready(log + FinalReleasesOf(x, kind), kind, y) {
        OthersStayReady(log, kind, x, y);
      }
      ReleasedInOrder(log + FinalReleasesOf(x, kind), toFree[1..], kind);
      assert log + FinalReleases(toFree, kind)
          == log + FinalReleasesOf(x, kind) + FinalReleases(toFree[1..], kind);
    }
  }

  lemma FreedIsReady(b: Book, x: nat)
    requires Consistent(b) && Accounted(b) && x in b.toFree
    ensures Ready(b.log, b.kind, x)
  {
    LogOf(b, Memory, x);
    LogOf(b, InfoBuffer, x);
    LogOf(b, FlagHandle, x);
    LogOf(b, FlagKey, x);
    hide Accounted;
  }

  /**
    The order over a whole life of the library, FINALIZE included: no request is used before its memory
    is acquired or after it is released, and nothing is released before it is acquired, nor twice.
   */
  lemma NeverUsedAfterFree(ops: seq<Op>)
    requires AllPossible(EMPTY, ops)
    ensures WellOrdered(FinalLog(DoAll(EMPTY, ops)))
  {
    var b := DoAll(EMPTY, ops);
    Conservation(ops);
    DoAllKeepsOrder(EMPTY, ops);
    forall x | x in b.toFree ensures Ready(b.log, b.kind, x) {
      FreedIsReady(b, x);
    }
    hide Accounted, WellOrdered, Ready;
    ReleasedInOrder(b.log, b.toFree, b.kind);
  }

  // ---- the code ----

  class Node {
    var elem: nat
    var next: Node?

    constructor (elem: nat, next: Node?)
      ensures this.elem == elem && this.next == next
    {
      this.elem, this.next := elem, next;
    }
  }

  /** A singly linked list behind a head element that holds no request. */
  class RequestList {
    const head: Node
    ghost var nodes: seq<Node>
    ghost var contents: seq<nat>

    ghost predicate Valid()
      reads this, nodes
    {
      && nodes != [] && nodes[0] == head && |contents| == |nodes| - 1
      && (forall i, j | 0 <= i < j < |nodes| :: nodes[i] != nodes[j])
      && (forall i | 0 <= i < |nodes| - 1 :: nodes[i].next == nodes[i + 1])
      && nodes[|nodes| - 1].next == null
      && (forall i | 0 <= i < |contents| :: contents[i] == nodes[i + 1].elem)
    }

    constructor ()
      ensures Valid() && fresh(nodes) && contents == []
    {
      head := new Node(0, null);
      contents := [];
      new;
      nodes := [head];
    }

    /** `add_request_to_list`. */
    method Add(x: nat)
      requires Valid()
      modifies this, nodes
      ensures Valid() && forall i | 0 <= i < |nodes| :: nodes[i] in old(nodes) || fresh(nodes[i])
      ensures contents == [x] + old(contents)
    {
      var n := new Node(x, head.next);
      head.next := n;
      nodes := [head, n] + nodes[1..];
      contents := [x] + contents;
    }

    /** `remove_request_from_list`; `ok` is false where it asserts. */
    method Remove(x: nat) returns (ok: bool)
      requires Valid()
      modifies this, nodes
      ensures Valid() && forall i | 0 <= i < |nodes| :: nodes[i] in old(nodes)
      ensures ok <==> x in old(contents)
      ensures contents == if ok then RemoveFirst(old(contents), x) else old(contents)
    {
      hide RemoveFirst;
      var previous := head;
      var current := head.next;
      ghost var k := 0;
      assert |nodes| > 1 ==> nodes[0].next == nodes[0 + 1];
      while current != null && current.elem != x
        invariant 0 <= k <= |contents| && previous == nodes[k]
        invariant current == if k < |contents| then nodes[k + 1] else null
        invariant x !in contents[..k]
        decreases |contents| - k
      {
        assert contents[..k + 1] == contents[..k] + [contents[k]];
        previous := current;
        current := previous.next;
        k := k + 1;
        assert k < |contents| ==> nodes[k].next == nodes[k + 1];
      }
      ok := current != null;
      if ok {
        RemoveFirstAt(contents, x, k);
        Unlink(previous, current, k);
      } else {
        assert contents[..k] == contents;
      }
    }

    /** `previous_elem->next = current_elem->next`. */
    method Unlink(previous: Node, current: Node, ghost k: nat)
      requires Valid() && k < |contents| && previous == nodes[k] && current == nodes[k + 1]
      modifies this, nodes
      ensures Valid() && forall i | 0 <= i < |nodes| :: nodes[i] in old(nodes)
      ensures contents == old(contents)[..k] + old(contents)[k + 1..]
    {
      previous.next := current.next;
      nodes := nodes[..k + 1] + nodes[k + 2..];
      contents := contents[..k] + contents[k + 1..];
    }
  }

  /** The globals of the library. */
  class Library {
    const live: RequestList
    const toFree: RequestList
    var kind: map<nat, Kind>
    var keys: set<nat>
    var log: seq<Entry>

    ghost predicate Valid()
      reads this, live, toFree, live.nodes, toFree.nodes
    {
      && live != toFree && live.Valid() && toFree.Valid()
      && (forall i, j | 0 <= i < |live.nodes| && 0 <= j < |toFree.nodes| :: live.nodes[i] != toFree.nodes[j])
    }

    ghost function View(): Book
      reads this, live, toFree
    {
      Book(live.contents, toFree.contents, kind, keys, log)
    }

    /** MPIOPT_INIT. */
    constructor ()
      ensures Valid() && View() == EMPTY
    {
      live := new RequestList();
      toFree := new RequestList();
      kind, keys, log := map[], {}, [];
    }

    /** `init_request`, for the request allocated at `x`. */
    method InitRequest(x: nat)
      requires Valid() && Possible(View(), Init(x))
      modifies this, live, live.nodes
      ensures Valid() && View() == Do(old(View()), Init(x))
    {
      kind := kind[x := Searching];
      log := log + [Acquire(Memory, x), Acquire(DataHandle, x), Acquire(FlagHandle, x), Acquire(InfoBuffer, x)];
      live.Add(x);
    }

    /** `receive_rdma_info` unpacks both keys. */
    method ReceiveKeys(x: nat)
      requires Valid() && Possible(View(), Receive(x))
      modifies this
      ensures Valid() && View() == Do(old(View()), Receive(x))
    {
      keys := keys + {x};
      log := log + [Acquire(DataKey, x), Acquire(FlagKey, x)];
    }

    /** The end of operation 1, where a request gets its mode. */
    method ConnectRequest(x: nat)
      requires Valid() && x in live.contents && x in kind && kind[x].Searching?
      modifies this
      ensures Valid() && View() == Do(old(View()), Connect(x, if x in old(keys) then Rdma else Fallback))
    {
      kind := kind[x := if x in keys then Rdma else Fallback];
    }

    /**
      MPIOPT_Request_free_internal; `ok` is false where it asserts, that is if the request is not on the
      list of live requests or, in RDMA mode, one of its transfer handles is not NULL.
     */
    method FreeRequest(x: nat, handlesNull: bool) returns (ok: bool)
      requires Valid() && x in kind
      modifies this`log, live, live.nodes, toFree, toFree.nodes
      ensures ok <==> x in old(live.contents) && (IsRdma(kind, x) ==> handlesNull)
      ensures ok ==> Valid() && View() == Do(old(View()), Free(x))
    {
      hide RemoveFirst, FreeReleases, IsRdma;
      ok := Unlist(x);
      if ok {
        ok := ReleaseData(x, handlesNull);
        if ok {
          DeferFree(x);
        }
      }
    }

    /** It leaves the list of live requests. */
    method Unlist(x: nat) returns (ok: bool)
      requires Valid()
      modifies live, live.nodes
      ensures Valid() && ok == (x in old(live.contents)) && toFree.contents == old(toFree.contents)
      ensures toFree.nodes == old(toFree.nodes) && forall i | 0 <= i < |live.nodes| :: live.nodes[i] in old(live.nodes)
      ensures ok ==> live.contents == RemoveFirst(old(live.contents), x)
    {
      hide RemoveFirst;
      ok := live.Remove(x);
    }

    /** It enters the list of requests to free at the end. */
    method DeferFree(x: nat)
      requires Valid()
      modifies toFree, toFree.nodes
      ensures Valid() && toFree.contents == [x] + old(toFree.contents) && live.contents == old(live.contents)
    {
      toFree.Add(x);
    }

    /** The part of it that concerns requests in RDMA mode. */
    method ReleaseData(x: nat, handlesNull: bool) returns (ok: bool)
      requires x in kind
      modifies this`log
      ensures ok <==> (IsRdma(kind, x) ==> handlesNull)
      ensures ok ==> log == old(log) + FreeReleases(kind, x)
    {
      ok := true;
      if kind[x].Rdma? {
        ok := handlesNull;
        if ok {
          log := log + [Release(DataHandle, x), Release(DataKey, x)];
        }
      }
    }

    /** One request of the to-free list. */
    method ReleaseRequest(req: nat)
      requires req in kind
      modifies this`log
      ensures log == old(log) + FinalReleasesOf(req, kind)
    {
      log := log + [Release(InfoBuffer, req)];
      if kind[req].Rdma? {
        log := log + [Release(FlagHandle, req), Release(FlagKey, req)];
      }
      log := log + [Release(Memory, req)];
    }

    /** MPIOPT_FINALIZE: whether its assert holds, and the releases in its walk over the to-free list. */
    method Finalize() returns (empty: bool)
      requires Valid() && Consistent(View())
      modifies this`log
      ensures empty <==> View().live == []
      ensures log == FinalLog(old(View()))
    {
      hide FinalReleases, FinalReleasesOf, Distinct;
      empty := live.head.next == null;
      assert |live.nodes| > 1 ==> live.nodes[0].next == live.nodes[0 + 1];
      ghost var freed, k := toFree.contents, 0;
      var elem := toFree.head.next;
      while elem != null
        invariant 0 <= k <= |freed|
        invariant elem == (if k < |freed| then toFree.nodes[k + 1] else null)
        invariant log + FinalReleases(freed[k..], kind) == old(log) + FinalReleases(freed, kind)
        decreases |freed| - k
      {
        ReleaseHead(freed, k, kind);
        ReleaseRequest(elem.elem);
        elem := elem.next;
        k := k + 1;
      }
      assert freed[k..] == [];
      NothingLeft(kind);
    }
  }
}
