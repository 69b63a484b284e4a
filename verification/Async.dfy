/**
  The rank arithmetic of the asynchronous benchmarks: which ranks are active and who is whose partner,
  and the dissemination barrier that stands in for MPI_Barrier when EXTRA_BARRIER is on.
 */
module Async {
  import opened Common

  // ---- arithmetic ----

  lemma Twice(q: int, d: int)
    ensures q * (2 * d) == (2 * q) * d && (2 * q + 1) * d == q * (2 * d) + d
  {}

  lemma QuotientIs(x: nat, d: nat, q: nat)
    requires 0 < d && q * d <= x < q * d + d
    ensures x / d == q && x % d == x - q * d
  {
    assert x == (x / d) * d + x % d;
    MulLess(x / d, q, d);
    MulLess(q, x / d, d);
  }

  /** The rank `d` places before `r` in the ring of `n` ranks. */
  function Back(r: int, d: int, n: nat): (b: nat)
    requires 0 < n
    ensures b < n
  {
    (r - d) % n
  }

  /** A multiple of the modulus does not change the remainder. */
  lemma ModPlusMultiple(x: int, q: int, n: nat)
    requires 0 < n
    ensures (x + q * n) % n == x % n
  {
    var p := x / n;
    var p' := (x + q * n) / n;
    var m := q + p - p';
    assert (x + q * n) % n - x % n == m * n by {
      assert x == p * n + x % n;
      assert x + q * n == p' * n + (x + q * n) % n;
      assert m * n == q * n + p * n - p' * n;
    }
    MulLess(0, m, n);
    MulLess(m, 0, n);
  }

  lemma BackBack(r: int, d: int, e: int, n: nat)
    requires 0 < n
    ensures Back(Back(r, d, n), e, n) == Back(r, d + e, n)
  {
    var x := r - d;
    ModPlusMultiple(x % n - e, x / n, n);
    assert x % n - e + (x / n) * n == r - (d + e);
  }

  lemma BackZero(r: nat, n: nat)
    requires r < n
    ensures Back(r, 0, n) == r
  {
    QuotientIs(r, n, 0);
  }

  /** Going round the ring takes a full turn. */
  lemma BackDiffers(r: int, d: int, e: int, n: nat)
    requires 0 < n && 0 < e - d < n
    ensures Back(r, d, n) != Back(r, e, n)
  {
    var x, y := r - d, r - e;
    var m := x / n - y / n;
    if x % n == y % n {
      assert x == (x / n) * n + x % n && y == (y / n) * n + y % n;
      assert m * n == e - d;
      MulLess(0, m, n);
      MulLess(m, 1, n);
      assert false;
    }
  }

  // ---- pairing ----

  function Effective(stride: int, size: nat): int {
    if stride == 0 then size / 2 else stride
  }

  /** The number of complete blocks of two groups. */
  function Blocks(size: nat, stride: nat): int
    requires 0 < stride
  {
    size / (2 * stride)
  }

  /** The ranks form blocks of two groups of `stride` ranks; the ranks of complete blocks take part. */
  predicate Active(rank: nat, size: nat, stride: int) {
    0 < stride && rank < Blocks(size, stride) * (2 * stride)
  }

  function Group(rank: nat, stride: nat): nat
    requires 0 < stride
  {
    rank / stride
  }

  method SetStride(rank: nat, size: nat, stride: int, group: int) returns (active: bool, stride': int, group': int)
    requires rank < size
    ensures stride' == Effective(stride, size)
    ensures active <==> Active(rank, size, stride')
    ensures group' == if 0 < stride' && 2 * stride' <= size then Group(rank, stride') else group
  {
    stride', group' := stride, group;
    if stride' == 0 {
      stride' := size / 2;
    }
    if stride' <= 0 || stride' > size / 2 {
      if stride' > 0 {
        QuotientIs(size, 2 * stride', 0);
      }
      return false, stride', group';
    }
    group' := rank / stride';
    IncompleteBlock(rank, size, stride');
    if group' / 2 == size / (2 * stride') && size % (2 * stride') != 0 {
      return false, stride', group';
    }
    active := true;
  }

  /** The rank at position `r` of block `q`. */
  function RankAt(q: nat, r: nat, stride: nat): (rank: nat)
    requires r < 2 * stride
  {
    assert 0 <= q * (2 * stride);
    q * (2 * stride) + r
  }

  lemma EveryRankHasABlock(rank: nat, stride: nat) returns (q: nat, r: nat)
    requires 0 < stride
    ensures r < 2 * stride && rank == RankAt(q, r, stride)
  {
    q, r := rank / (2 * stride), rank % (2 * stride);
    assert rank == q * (2 * stride) + r;
  }

  lemma GroupAt(q: nat, r: nat, stride: nat)
    requires r < 2 * stride
    ensures Group(RankAt(q, r, stride), stride) == if r < stride then 2 * q else 2 * q + 1
  {
    Twice(q, stride);
    QuotientIs(RankAt(q, r, stride), stride, if r < stride then 2 * q else 2 * q + 1);
  }

  /** A rank is active exactly when its block is complete. */
  lemma ActiveAt(q: nat, r: nat, size: nat, stride: nat)
    requires r < 2 * stride
    ensures Active(RankAt(q, r, stride), size, stride) <==> q < Blocks(size, stride)
    ensures Active(RankAt(q, r, stride), size, stride) ==> RankAt(q, r, stride) < size
  {
    var c := Blocks(size, stride);
    MulLess(q, c, 2 * stride);
    MulLess(c, q, 2 * stride);
    assert size == c * (2 * stride) + size % (2 * stride);
  }

  lemma BlockOfRank(q: nat, r: nat, size: nat, stride: nat)
    requires r < 2 * stride && RankAt(q, r, stride) < size
    ensures q <= Blocks(size, stride)
    ensures size % (2 * stride) == 0 ==> q < Blocks(size, stride)
  {
    var c := Blocks(size, stride);
    MulLess(c, q, 2 * stride);
    assert size == c * (2 * stride) + size % (2 * stride);
  }

  lemma IncompleteBlock(rank: nat, size: nat, stride: nat)
    requires 0 < stride && rank < size
    ensures Active(rank, size, stride) <==>
              !(Group(rank, stride) / 2 == Blocks(size, stride) && size % (2 * stride) != 0)
  {
    var q, r := EveryRankHasABlock(rank, stride);
    hide RankAt, Group, Active, Blocks;
    GroupAt(q, r, stride);
    assert Group(rank, stride) / 2 == q;
    ActiveAt(q, r, size, stride);
    BlockOfRank(q, r, size, stride);
  }

  lemma BlockFits(q: nat, size: nat, d: nat)
    requires 0 < d
    ensures q < size / d <==> q * d + d <= size
  {
    var c := size / d;
    assert size == c * d + size % d;
    MulLess(q, c, d);
    MulLess(c, q + 1, d);
  }

  /** A rank takes part exactly when all ranks of its block exist. */
  lemma WholeBlockExists(rank: nat, size: nat, stride: int)
    ensures Active(rank, size, stride) <==>
      0 < stride && rank / (2 * stride) * (2 * stride) + 2 * stride <= size
  {
    if 0 < stride {
      var q, r := EveryRankHasABlock(rank, stride);
      ActiveAt(q, r, size, stride);
      BlockFits(q, size, 2 * stride);
      QuotientIs(rank, 2 * stride, q);
      hide Active;
    }
  }

  /** The partner of a rank in the persistent benchmark. */
  function Pair(rank: nat, stride: int): int
    requires 0 < stride
  {
    if Group(rank, stride) % 2 == 0 then rank + stride else rank - stride
  }

  /** Pairing swaps the two halves of a block. */
  lemma PairAt(q: nat, r: nat, stride: nat)
    requires r < 2 * stride
    ensures Pair(RankAt(q, r, stride), stride) == RankAt(q, if r < stride then r + stride else r - stride, stride)
  {
    GroupAt(q, r, stride);
    hide Group;
  }

  /** Pairing is a total involution on the active ranks, always between an even and an odd group. */
  lemma PairingIsInvolution(rank: nat, size: nat, stride: int)
    requires Active(rank, size, stride)
    ensures var p := Pair(rank, stride);
      && 0 <= p < size && p != rank
      && Active(p, size, stride)
      && Group(p, stride) % 2 != Group(rank, stride) % 2
      && Pair(p, stride) == rank
  {
    var q, r := EveryRankHasABlock(rank, stride);
    var r' := if r < stride then r + stride else r - stride;
    assert RankAt(q, r, stride) != RankAt(q, r', stride);
    hide RankAt, Group, Active, Blocks, Pair;
    PairAt(q, r, stride);
    PairAt(q, r', stride);
    GroupAt(q, r, stride);
    GroupAt(q, r', stride);
    ActiveAt(q, r, size, stride);
    ActiveAt(q, r', size, stride);
  }

  /** Someone takes part exactly when one block fits. */
  lemma SomeRankIsActive(size: nat, stride: int)
    ensures (exists rank: nat :: rank < size && Active(rank, size, stride)) <==> 0 < stride && 2 * stride <= size
  {
    if 0 < stride {
      var c := Blocks(size, stride);
      assert size == c * (2 * stride) + size % (2 * stride);
      if 2 * stride <= size {
        MulLess(0, c, 2 * stride);
        assert c > 0;
        assert Active(0, size, stride);
      } else {
        QuotientIs(size, 2 * stride, 0);
      }
    }
  }

  /** The stride that stands for 0 is the largest with which someone takes part, if any is. */
  lemma DefaultStrideIsLargest(size: nat, stride: int)
    ensures (exists rank: nat :: rank < size && Active(rank, size, Effective(0, size))) <==> 2 <= size
    ensures (exists rank: nat :: rank < size && Active(rank, size, stride)) ==> stride <= Effective(0, size)
  {
    SomeRankIsActive(size, Effective(0, size));
    SomeRankIsActive(size, stride);
    hide Active;
  }

  // ---- dissemination barrier ----

  datatype Exchange = Exchange(dst: nat, src: nat)

  function Pow2(k: nat): (p: int)
    ensures p > k
  {
    if k == 0 then 1 else 2 * Pow2(k - 1)
  }

  lemma {:induction false} Pow2Grows(j: nat, k: nat)
    requires j < k
    ensures Pow2(j) < Pow2(k)
  {
    if j < k - 1 {
      Pow2Grows(j, k - 1);
    }
  }

  /** The number of rounds among `np` ranks from round `k` on. */
  function RoundsFrom(k: nat, np: nat): (n: nat)
    ensures Pow2(n) >= np && n >= k && (n > k ==> Pow2(n - 1) < np)
    decreases np - Pow2(k)
  {
    if Pow2(k) >= np then k else RoundsFrom(k + 1, np)
  }

  function Rounds(np: nat): nat {
    RoundsFrom(0, np)
  }

  lemma RoundIsShort(k: nat, np: nat)
    requires k < Rounds(np)
    ensures Pow2(k) < np
  {
    if k < Rounds(np) - 1 {
      Pow2Grows(k, Rounds(np) - 1);
    }
  }

  function Dst(rank: nat, k: nat, np: nat): (d: nat)
    requires rank < np
    ensures d < np
  {
    Back(rank, -Pow2(k), np)
  }

  function Src(rank: nat, k: nat, np: nat): (s: nat)
    requires rank < np
    ensures s < np
  {
    Back(rank, Pow2(k), np)
  }

  function Schedule(rank: nat, np: nat): seq<Exchange>
    requires rank < np
  {
    seq(Rounds(np), k requires 0 <= k => Exchange(Dst(rank, k, np), Src(rank, k, np)))
  }

  /** The exchanges one rank performs, in order. */
  method Barrier(rank: nat, np: nat) returns (exchanges: seq<Exchange>)
    requires rank < np
    ensures exchanges == Schedule(rank, np)
  {
    exchanges := [];
    var mask := 1;
    while mask < np
      invariant mask == Pow2(|exchanges|)
      invariant RoundsFrom(|exchanges|, np) == Rounds(np)
      invariant forall k | 0 <= k < |exchanges| :: exchanges[k] == Exchange(Dst(rank, k, np), Src(rank, k, np))
      decreases np - mask
    {
      var dst := (rank + mask) % np;
      var src := (rank - mask + np) % np;
      MaskedRanks(rank, mask, np);
      assert src == Src(rank, |exchanges|, np) && dst == Dst(rank, |exchanges|, np);
      exchanges := exchanges + [Exchange(dst, src)];
      mask := mask * 2;
    }
  }

  lemma MaskedRanks(rank: nat, mask: int, np: nat)
    requires rank < np && 0 < mask < np
    ensures (rank + mask) % np == Back(rank, -mask, np)
    ensures (rank - mask + np) % np == Back(rank, mask, np)
  {
    ModPlusMultiple(rank - mask, 1, np);
    assert rank - mask + 1 * np == rank - mask + np;
  }

  /** One round for every power of two below `np`: to the rank that far ahead and from the one that far behind. */
  lemma RoundsAre(rank: nat, np: nat, k: nat)
    requires rank < np
    ensures k < |Schedule(rank, np)| <==> Pow2(k) < np
    ensures k < |Schedule(rank, np)| ==>
      Schedule(rank, np)[k] == Exchange((rank + Pow2(k)) % np, (rank - Pow2(k) + np) % np)
  {
    var n := Rounds(np);
    if k < n {
      RoundIsShort(k, np);
      MaskedRanks(rank, Pow2(k), np);
    } else if n < k {
      Pow2Grows(n, k);
    }
  }

  /** In every round the rank a message is sent to is the one that receives from the sender. */
  lemma ExchangesMatch(rank: nat, k: nat, np: nat)
    requires rank < np
    ensures Src(Dst(rank, k, np), k, np) == rank && Dst(Src(rank, k, np), k, np) == rank
  {
    BackBack(rank, -Pow2(k), Pow2(k), np);
    BackBack(rank, Pow2(k), -Pow2(k), np);
    BackZero(rank, np);
  }

  /** No rank sends twice to the same rank, so the tag that all rounds share cannot mix them up. */
  lemma DestinationsDiffer(rank: nat, j: nat, k: nat, np: nat)
    requires rank < np && j < k < Rounds(np)
    ensures Dst(rank, j, np) != Dst(rank, k, np)
  {
    Pow2Grows(j, k);
    RoundIsShort(k, np);
    BackDiffers(rank, -Pow2(k), -Pow2(j), np);
  }

  // ---- runs of the barrier ----

  /** Per rank: `None` before it calls the barrier, else the number of exchanges it has completed. */
  type Progress = seq<Option<nat>>

  datatype Step = Enter(rank: nat) | Complete(rank: nat)

  /** `from` has issued a send to `to`: it issues that of its current round along with the receive. */
  ghost predicate Sent(s: Progress, from: nat, to: nat, np: nat)
    requires |s| == np && from < np && to < np
  {
    s[from].Some? && exists j | 0 <= j <= s[from].value && j < Rounds(np) :: Schedule(from, np)[j].dst == to
  }

  ghost predicate Enabled(s: Progress, e: Step, np: nat)
    requires |s| == np
  {
    && e.rank < np
    && match e
       case Enter(r) => s[r].None?
       case Complete(r) =>
         && s[r].Some? && s[r].value < Rounds(np)
         && Sent(s, Schedule(r, np)[s[r].value].src, r, np)
  }

  function Apply(s: Progress, e: Step): Progress
    requires e.rank < |s|
    requires e.Complete? ==> s[e.rank].Some?
  {
    match e
    case Enter(r) => s[r := Some(0)]
    case Complete(r) => s[r := Some(s[r].value + 1)]
  }

  ghost predicate Reaches(np: nat, events: seq<Step>, s: Progress)
    decreases |events|
  {
    if events == [] then
      s == seq(np, _ => None)
    else
      exists p: Progress ::
        && |p| == np && Reaches(np, events[..|events| - 1], p)
        && Enabled(p, events[|events| - 1], np) && s == Apply(p, events[|events| - 1])
  }

  /** The ranks at distance less than 2^k before a rank that completed k rounds have called the barrier. */
  ghost predicate HeardFrom(s: Progress, np: nat) {
    && |s| == np
    && forall r, d | 0 <= r < np && s[r].Some? && 0 <= d < Pow2(s[r].value) :: s[Back(r, d, np)].Some?
  }

  /** A receive in round k can only complete once its source is in round k. */
  lemma ReceivesInRound(s: Progress, e: Step, np: nat)
    requires |s| == np && Enabled(s, e, np)
    ensures e.Complete? ==>
      var k := s[e.rank].value;
      var src := Src(e.rank, k, np); s[src].Some? && s[src].value >= k
  {
    if e.Complete? {
      var r, k := e.rank, s[e.rank].value;
      var src := Src(r, k, np);
      var j :| 0 <= j <= s[src].value && j < Rounds(np) && Dst(src, j, np) == r;
      ExchangesMatch(r, k, np);
      if j < k {
        DestinationsDiffer(src, j, k, np);
      }
    }
  }

  lemma HeardStep(s: Progress, e: Step, np: nat)
    requires HeardFrom(s, np) && Enabled(s, e, np)
    ensures HeardFrom(Apply(s, e), np)
  {
    var t := Apply(s, e);
    forall r, d | 0 <= r < np && t[r].Some? && 0 <= d < Pow2(t[r].value) ensures t[Back(r, d, np)].Some? {
      if r != e.rank {
        assert s[Back(r, d, np)].Some?;
      } else if e.Enter? {
        BackZero(r, np);
      } else {
        HeardInRound(s, e, d, np);
      }
    }
  }

  lemma HeardInRound(s: Progress, e: Step, d: nat, np: nat)
    requires HeardFrom(s, np) && Enabled(s, e, np)
    ensures e.Complete? && d < Pow2(s[e.rank].value + 1) ==> s[Back(e.rank, d, np)].Some?
  {
    if e.Complete? && Pow2(s[e.rank].value) <= d < Pow2(s[e.rank].value + 1) {
      var r, k := e.rank, s[e.rank].value;
      var src := Src(r, k, np);
      ReceivesInRound(s, e, np);
      if k < s[src].value {
        Pow2Grows(k, s[src].value);
      }
      BackBack(r, Pow2(k), d - Pow2(k), np);
      assert s[Back(src, d - Pow2(k), np)].Some?;
    }
  }

  lemma {:induction false} HeardAlways(np: nat, events: seq<Step>, s: Progress)
    requires Reaches(np, events, s)
    ensures HeardFrom(s, np)
    decreases |events|
  {
    if events != [] {
      var e := events[|events| - 1];
      var p: Progress :| |p| == np && Reaches(np, events[..|events| - 1], p) && Enabled(p, e, np) && s == Apply(p, e);
      HeardAlways(np, events[..|events| - 1], p);
      HeardStep(p, e, np);
    }
  }

  /** Every rank is reached from every other by going back less than a full turn. */
  lemma RingDistance(r: nat, q: nat, np: nat)
    requires r < np && q < np
    ensures Back(r, Back(r, q, np), np) == q
  {
    var m := (r - q) / np;
    assert r - q == m * np + Back(r, q, np);
    ModPlusMultiple(q, m, np);
    BackZero(q, np);
  }

  /** In every run, for any number of ranks: when one rank has left the barrier, all have entered it. */
  lemma NobodyLeavesEarly(np: nat, events: seq<Step>, s: Progress, r: nat)
    requires Reaches(np, events, s) && r < np && |s| == np && s[r].Some? && s[r].value >= Rounds(np)
    ensures forall q | 0 <= q < np :: s[q].Some?
  {
    HeardAlways(np, events, s);
    if Rounds(np) < s[r].value {
      Pow2Grows(Rounds(np), s[r].value);
    }
    forall q | 0 <= q < np ensures s[q].Some? {
      RingDistance(r, q, np);
    }
  }

  /** A rank that has completed the fewest rounds. */
  lemma {:induction false} Slowest(s: Progress, n: nat) returns (r: nat)
    requires 0 < n <= |s| && forall q | 0 <= q < n :: s[q].Some?
    ensures r < n && forall q | 0 <= q < n :: s[r].value <= s[q].value
  {
    if n == 1 {
      r := 0;
    } else {
      r := Slowest(s, n - 1);
      if s[n - 1].value < s[r].value {
        r := n - 1;
      }
    }
  }

  /** While some rank has not left and all have entered, some exchange can complete. */
  lemma SomeoneProceeds(s: Progress, np: nat, waiting: nat) returns (r: nat)
    requires |s| == np && waiting < np && forall q | 0 <= q < np :: s[q].Some?
    requires s[waiting].value < Rounds(np)
    ensures Enabled(s, Complete(r), np)
  {
    r := Slowest(s, np);
    var k := s[r].value;
    var src := Src(r, k, np);
    ExchangesMatch(r, k, np);
    assert Schedule(src, np)[k].dst == r && k <= s[src].value;
  }

  function Steps(s: Progress): nat {
    if s == [] then 0 else (if s[|s| - 1].None? then 0 else s[|s| - 1].value + 1) + Steps(s[..|s| - 1])
  }

  lemma {:induction false} StepCounts(s: Progress, i: nat, v: Option<nat>)
    requires i < |s|
    ensures Steps(s[i := v]) - Steps(s)
         == (if v.None? then 0 else v.value + 1) - (if s[i].None? then 0 else s[i].value + 1)
  {
    var last := |s| - 1;
    if i == last {
      assert s[i := v][..last] == s[..last];
    } else {
      assert s[i := v][..last] == s[..last][i := v];
      StepCounts(s[..last], i, v);
    }
  }

  lemma {:induction false} StepsBounded(s: Progress, bound: nat)
    requires forall i | 0 <= i < |s| :: s[i].Some? ==> s[i].value <= bound
    ensures Steps(s) <= |s| * (bound + 1)
  {
    if s != [] {
      StepsBounded(s[..|s| - 1], bound);
      assert |s| * (bound + 1) == (|s| - 1) * (bound + 1) + (bound + 1);
    }
  }

  lemma {:induction false} NoneStarted(s: Progress)
    requires forall i | 0 <= i < |s| :: s[i].None?
    ensures Steps(s) == 0
  {
    if s != [] {
      NoneStarted(s[..|s| - 1]);
    }
  }

  /** Every run ends: it has at most one entry and `Rounds(np)` exchanges for each rank. */
  lemma {:induction false} RunsEnd(np: nat, events: seq<Step>, s: Progress)
    requires Reaches(np, events, s)
    ensures |s| == np && |events| == Steps(s) <= np * (Rounds(np) + 1)
    decreases |events|
  {
    RoundsBounded(np, events, s);
    if events == [] {
      NoneStarted(s);
    } else {
      var e := events[|events| - 1];
      var p: Progress :| |p| == np && Reaches(np, events[..|events| - 1], p) && Enabled(p, e, np) && s == Apply(p, e);
      RunsEnd(np, events[..|events| - 1], p);
      OneStep(p, e, np) by {
        hide Steps, Reaches;
      }
    }
    StepsBounded(s, Rounds(np));
  }

  lemma OneStep(p: Progress, e: Step, np: nat)
    requires |p| == np && Enabled(p, e, np)
    ensures Steps(Apply(p, e)) == Steps(p) + 1
  {
    StepCounts(p, e.rank, Apply(p, e)[e.rank]);
  }

  lemma {:induction false} RoundsBounded(np: nat, events: seq<Step>, s: Progress)
    requires Reaches(np, events, s)
    ensures |s| == np && forall r | 0 <= r < np :: s[r].Some? ==> s[r].value <= Rounds(np)
    decreases |events|
  {
    if events != [] {
      var e := events[|events| - 1];
      var p: Progress :| |p| == np && Reaches(np, events[..|events| - 1], p) && Enabled(p, e, np) && s == Apply(p, e);
      RoundsBounded(np, events[..|events| - 1], p);
    }
  }
}
