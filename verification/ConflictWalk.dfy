/**
  The compiler pass's search for a conflicting call: a worklist walk over the control-flow graph from
  an init call, including the edges from a return to after every call of the returning function.

  Which calls end the scope, conflict or may conflict is decided elsewhere in the pass; here every call
  instruction carries that answer. Blocks are given without their PHI nodes.
 */
module ConflictWalk {
  import opened Common

  /** What the pass knows about a call, in the order in which the walk asks. */
  datatype CallClass =
    | Finalize | ScopeEnding                 // MPI calls that end the search
    | ConflictingMpi | OtherMpi              // other MPI calls
    | MayConflict | Unknown | Harmless       // calls of other functions

  datatype Inst =
    | Call(callee: Option<nat>, class_: CallClass)
    | Plain
    | CondBranch(cond: nat, ifTrue: nat, ifFalse: nat)
    | Jump(target: nat)
    | Switch(targets: seq<nat>)
    | Return
    | Unreachable
  {
    predicate IsTerminator() {
      !Call? && !Plain?
    }

    predicate TargetsBelow(n: nat) {
      forall t | t in Successors() :: t < n
    }

    function Successors(): seq<nat> {
      match this
      case CondBranch(_, t, f) => [t, f]
      case Jump(t) => [t]
      case Switch(ts) => ts
      case _ => []
    }
  }

  datatype Block = Block(func: nat, insts: seq<Inst>)

  datatype Pos = Pos(block: nat, idx: nat) {
    function Next(): Pos { Pos(block, idx + 1) }
  }

  /** `callSites[f]` are the calls of function `f`. */
  datatype Program = Program(blocks: seq<Block>, callSites: seq<seq<Pos>>) {
    predicate Has(p: Pos) {
      p.block < |blocks| && p.idx < |blocks[p.block].insts|
    }

    function At(p: Pos): Inst
      requires Has(p)
    {
      blocks[p.block].insts[p.idx]
    }

    function Func(p: Pos): nat
      requires Has(p)
    {
      blocks[p.block].func
    }

    /** Blocks end with their only terminator, edges stay inside, and the call sites are right. */
    ghost predicate WellFormed() {
      && (forall b | 0 <= b < |blocks| ::
            && blocks[b].insts != [] && blocks[b].func < |callSites|
            && (forall i | 0 <= i < |blocks[b].insts| ::
                  blocks[b].insts[i].IsTerminator() <==> i == |blocks[b].insts| - 1)
            && blocks[b].insts[|blocks[b].insts| - 1].TargetsBelow(|blocks|))
      && (forall f, p | 0 <= f < |callSites| && p in callSites[f] ::
            Has(p) && At(p).Call? && At(p).callee == Some(f))
    }

    /** Every call of a function with a body is one of its call sites. */
    ghost predicate SitesComplete() {
      forall p | Has(p) && At(p).Call? && At(p).callee.Some? && At(p).callee.value < |callSites| ::
        p in callSites[At(p).callee.value]
    }

    /** The code asserts that the search has an ending. */
    ghost predicate HasEnding() {
      exists p :: Has(p) && EndsSearch(At(p))
    }

    /** No recursion: callers are strictly above callees. */
    ghost predicate Acyclic(depth: seq<nat>)
      requires WellFormed()
    {
      && |depth| == |callSites|
      && forall f, p | 0 <= f < |callSites| && p in callSites[f] :: depth[Func(p)] < depth[f]
    }
  }

  // ---- the guard of a block ----

  datatype Guard = NoGuard | Guard(cond: nat, way: bool)

  /** How many edges lead from block `a` to block `b`. */
  function EdgeCount(succs: seq<nat>, b: nat): nat {
    if succs == [] then 0 else (if succs[0] == b then 1 else 0) + EdgeCount(succs[1..], b)
  }

  function Terminator(prog: Program, b: nat): Inst
    requires b < |prog.blocks| && prog.blocks[b].insts != []
  {
    prog.blocks[b].insts[|prog.blocks[b].insts| - 1]
  }

  /** The sources of the edges into `b` among the first `n` blocks, one entry an edge. */
  function Predecessors(prog: Program, b: nat, n: nat): seq<nat>
    requires n <= |prog.blocks| && forall k | 0 <= k < n :: prog.blocks[k].insts != []
  {
    if n == 0 then []
    else Predecessors(prog, b, n - 1) + seq(EdgeCount(Terminator(prog, n - 1).Successors(), b), _ => n - 1)
  }

  lemma {:induction false} CountedEdge(succs: seq<nat>, b: nat)
    ensures EdgeCount(succs, b) > 0 <==> b in succs
  {
    if succs != [] {
      CountedEdge(succs[1..], b);
      assert b in succs <==> b == succs[0] || b in succs[1..];
    }
  }

  lemma {:induction false} PredecessorEdges(prog: Program, b: nat, n: nat, a: nat)
    requires n <= |prog.blocks| && forall k | 0 <= k < |prog.blocks| :: prog.blocks[k].insts != []
    ensures a in Predecessors(prog, b, n) <==> a < n && b in Terminator(prog, a).Successors()
  {
    if n > 0 {
      PredecessorEdges(prog, b, n - 1, a);
      CountedEdge(Terminator(prog, n - 1).Successors(), b);
      var new_ := seq(EdgeCount(Terminator(prog, n - 1).Successors(), b), _ => n - 1);
      assert n - 1 in new_ <==> EdgeCount(Terminator(prog, n - 1).Successors(), b) > 0 by {
        if EdgeCount(Terminator(prog, n - 1).Successors(), b) > 0 {
          assert new_[0] == n - 1;
        }
      }
      assert a in Predecessors(prog, b, n) <==> a in Predecessors(prog, b, n - 1) || a in new_;
    }
  }

  /** `get_guarding_compare`. */
  function GuardingCompare(prog: Program, bb: nat): Guard
    requires prog.WellFormed()
  {
    var preds := Predecessors(prog, bb, |prog.blocks|);
    if |preds| == 1 && preds[0] < |prog.blocks| && Terminator(prog, preds[0]).CondBranch? then
      var t := Terminator(prog, preds[0]);
      Guard(t.cond, t.ifTrue == bb)
    else NoGuard
  }

  /**
    When a guard is found, the block is entered by one edge only, the `way` edge of a branch on that
    condition: every way into the block takes that side of the guard.
   */
  lemma GuardIsSound(prog: Program, bb: nat)
    requires prog.WellFormed() && GuardingCompare(prog, bb).Guard?
    ensures var g := GuardingCompare(prog, bb);
      forall a | 0 <= a < |prog.blocks| && bb in Terminator(prog, a).Successors() ::
        var t := Terminator(prog, a);
        t.CondBranch? && t.cond == g.cond && bb == (if g.way then t.ifTrue else t.ifFalse) && t.ifTrue != t.ifFalse
  {
    var g, preds := GuardingCompare(prog, bb), Predecessors(prog, bb, |prog.blocks|);
    forall a | 0 <= a < |prog.blocks| && bb in Terminator(prog, a).Successors()
      ensures var t := Terminator(prog, a);
        t.CondBranch? && t.cond == g.cond && bb == (if g.way then t.ifTrue else t.ifFalse) && t.ifTrue != t.ifFalse
    {
      PredecessorEdges(prog, bb, |prog.blocks|, a);
      PredecessorsHold(prog, bb, |prog.blocks|, a);
      assert a == preds[0];
      TwoTargets(Terminator(prog, a).ifTrue, Terminator(prog, a).ifFalse, bb);
    }
  }

  /** `bb` is entered by one edge only, one side of the branch at the end of block `a`. */
  ghost predicate EnteredOnlyBy(prog: Program, a: nat, bb: nat)
    requires forall k | 0 <= k < |prog.blocks| :: prog.blocks[k].insts != []
  {
    && a < |prog.blocks| && Terminator(prog, a).CondBranch?
    && (Terminator(prog, a).ifTrue == bb) != (Terminator(prog, a).ifFalse == bb)
    && forall c: nat | c < |prog.blocks| && c != a :: bb !in Terminator(prog, c).Successors()
  }

  lemma OnlyEdge(prog: Program, a: nat, bb: nat, c: nat)
    requires forall k | 0 <= k < |prog.blocks| :: prog.blocks[k].insts != []
    requires EnteredOnlyBy(prog, a, bb) && c < |prog.blocks|
    ensures EdgeCount(Terminator(prog, c).Successors(), bb) == if c == a then 1 else 0
  {
    var t := Terminator(prog, c);
    if c == a {
      TwoTargets(t.ifTrue, t.ifFalse, bb);
    } else {
      CountedEdge(t.Successors(), bb);
    }
  }

  lemma CountPredecessors(prog: Program, b: nat, n: nat)
    requires n <= |prog.blocks| && forall k | 0 <= k < |prog.blocks| :: prog.blocks[k].insts != []
    ensures |Predecessors(prog, b, n)| ==
      if n == 0 then 0 else |Predecessors(prog, b, n - 1)| + EdgeCount(Terminator(prog, n - 1).Successors(), b)
  {
    hide EdgeCount, Terminator;
  }

  lemma {:induction false} OnePredecessor(prog: Program, a: nat, bb: nat, n: nat)
    requires forall k | 0 <= k < |prog.blocks| :: prog.blocks[k].insts != []
    requires EnteredOnlyBy(prog, a, bb) && n <= |prog.blocks|
    ensures |Predecessors(prog, bb, n)| == if a < n then 1 else 0
  {
    hide Predecessors, EdgeCount, Terminator, EnteredOnlyBy;
    CountPredecessors(prog, bb, n);
    if n > 0 {
      OnePredecessor(prog, a, bb, n - 1);
      OnlyEdge(prog, a, bb, n - 1);
    }
  }

  lemma SinglePredecessor(prog: Program, bb: nat)
    requires prog.WellFormed() && GuardingCompare(prog, bb).Guard?
    ensures exists a :: EnteredOnlyBy(prog, a, bb)
  {
    var preds := Predecessors(prog, bb, |prog.blocks|);
    var a := preds[0];
    GuardIsSound(prog, bb);
    hide prog.WellFormed, Predecessors;
    PredecessorEdges(prog, bb, |prog.blocks|, a);
    forall c: nat | c < |prog.blocks| && c != a ensures bb !in Terminator(prog, c).Successors() {
      PredecessorEdges(prog, bb, |prog.blocks|, c);
    }
    assert EnteredOnlyBy(prog, a, bb);
  }

  /** A guard is found exactly when the block has one entry and that is one side of a conditional branch. */
  lemma GuardExactly(prog: Program, bb: nat)
    requires prog.WellFormed()
    ensures GuardingCompare(prog, bb).Guard? <==> exists a :: EnteredOnlyBy(prog, a, bb)
  {
    if GuardingCompare(prog, bb).Guard? {
      SinglePredecessor(prog, bb);
    }
    if a :| EnteredOnlyBy(prog, a, bb) {
      var preds := Predecessors(prog, bb, |prog.blocks|);
      OnePredecessor(prog, a, bb, |prog.blocks|);
      PredecessorEdges(prog, bb, |prog.blocks|, preds[0]);
    }
  }

  lemma TwoTargets(x: nat, y: nat, b: nat)
    ensures EdgeCount([x, y], b) == (if x == b then 1 else 0) + (if y == b then 1 else 0)
  {
    assert [x, y][1..] == [y] && [y][1..] == [];
    assert EdgeCount([y], b) == (if y == b then 1 else 0) + EdgeCount([], b);
  }

  lemma {:induction false} PredecessorsHold(prog: Program, b: nat, n: nat, a: nat)
    requires n <= |prog.blocks| && forall k | 0 <= k < |prog.blocks| :: prog.blocks[k].insts != []
    requires a < n && b in Terminator(prog, a).Successors()
    ensures 1 <= EdgeCount(Terminator(prog, a).Successors(), b) <= |Predecessors(prog, b, n)|
  {
    CountedEdge(Terminator(prog, a).Successors(), b);
    if a < n - 1 {
      PredecessorsHold(prog, b, n - 1, a);
    }
  }

  // ---- paths ----

  /** The successors the walk follows: only one side of a branch on the guard. */
  function Followed(inst: Inst, guard: Guard): seq<nat> {
    if inst.CondBranch? && guard.Guard? && inst.cond == guard.cond
    then [if guard.way then inst.ifTrue else inst.ifFalse]
    else inst.Successors()
  }

  /**
    If the block of the init call is entered through the guard, the branch into it is followed into it,
    and every other branch on the same condition to the same side; all other terminators are followed to
    all their successors.
   */
  lemma GuardIsFollowed(prog: Program, a: nat, bb: nat)
    requires prog.WellFormed() && EnteredOnlyBy(prog, a, bb)
    ensures var g, t := GuardingCompare(prog, bb), Terminator(prog, a);
      && Followed(t, g) == [bb]
      && forall inst: Inst :: Followed(inst, g) ==
           if inst.CondBranch? && inst.cond == t.cond then [if bb == t.ifTrue then inst.ifTrue else inst.ifFalse]
           else inst.Successors()
  {
    GuardExactly(prog, bb);
    GuardIsSound(prog, bb);
    assert bb in Terminator(prog, a).Successors();
  }

  /** Without a guard, all terminators are followed to all their successors. */
  lemma UnguardedFollowsAll(prog: Program, bb: nat)
    requires prog.WellFormed() && forall a :: !EnteredOnlyBy(prog, a, bb)
    ensures forall inst: Inst :: Followed(inst, GuardingCompare(prog, bb)) == inst.Successors()
  {
    GuardExactly(prog, bb);
  }

  predicate Calls(inst: Inst, f: nat) {
    inst.Call? && inst.callee == Some(f)
  }

  /** Fall through, follow a branch, or return to after a call of the returning function. */
  ghost predicate Edge(prog: Program, guard: Guard, p: Pos, q: Pos) {
    && prog.Has(p) && prog.Has(q)
    && (|| (q == p.Next() && !prog.At(p).IsTerminator() && !prog.At(q).Unreachable?)
        || (q.idx == 0 && q.block in Followed(prog.At(p), guard))
        || (prog.At(p).Return? && q.idx > 0 && Calls(prog.At(Pos(q.block, q.idx - 1)), prog.Func(p))))
  }

  predicate EndsSearch(inst: Inst) {
    inst.Call? && (inst.class_.Finalize? || inst.class_.ScopeEnding?)
  }

  predicate IsConflict(inst: Inst) {
    inst.Call? && (inst.class_.ConflictingMpi? || inst.class_.MayConflict? || inst.class_.Unknown?)
  }

  /** A path of followed edges from `from` to `to` with nothing on it, before `to`, that ends the search. */
  ghost predicate ClearPath(prog: Program, guard: Guard, from: Pos, to: Pos, path: seq<Pos>) {
    && path != [] && path[0] == from && path[|path| - 1] == to
    && (forall k | 0 <= k < |path| :: prog.Has(path[k]))
    && (forall k | 0 <= k < |path| - 1 :: Edge(prog, guard, path[k], path[k + 1]) && !EndsSearch(prog.At(path[k])))
  }

  ghost predicate Reaches(prog: Program, guard: Guard, from: Pos, to: Pos) {
    exists path :: ClearPath(prog, guard, from, to, path)
  }

  lemma ReachesItself(prog: Program, guard: Guard, p: Pos)
    requires prog.Has(p)
    ensures Reaches(prog, guard, p, p)
  {
    assert ClearPath(prog, guard, p, p, [p]);
  }

  lemma ReachesNext(prog: Program, guard: Guard, from: Pos, p: Pos, q: Pos)
    requires Reaches(prog, guard, from, p) && Edge(prog, guard, p, q) && !EndsSearch(prog.At(p))
    ensures Reaches(prog, guard, from, q)
  {
    var path :| ClearPath(prog, guard, from, p, path);
    assert ClearPath(prog, guard, from, q, path + [q]);
  }

  // ---- the termination measure ----

  /** An upper bound on the segments that a pending return point in function `f` can cause. */
  ghost function FuncWeight(prog: Program, depth: seq<nat>, f: nat): nat
    requires prog.WellFormed() && prog.Acyclic(depth) && f < |prog.callSites|
    decreases depth[f], 1, 0
  {
    1 + CallersWeight(prog, depth, f, |prog.callSites[f]|)
  }

  ghost function CallersWeight(prog: Program, depth: seq<nat>, f: nat, n: nat): nat
    requires prog.WellFormed() && prog.Acyclic(depth) && f < |prog.callSites| && n <= |prog.callSites[f]|
    decreases depth[f], 0, n
  {
    if n == 0 then 0
    else
      var p := prog.callSites[f][n - 1];
      CallersWeight(prog, depth, f, n - 1) + FuncWeight(prog, depth, prog.Func(p))
  }

  ghost function PosWeight(prog: Program, depth: seq<nat>, p: Pos): nat
    requires prog.WellFormed() && prog.Acyclic(depth)
  {
    if prog.Has(p) && p.idx > 0 then FuncWeight(prog, depth, prog.Func(p)) else 0
  }

  ghost function PendingWeight(prog: Program, depth: seq<nat>, s: set<Pos>): nat
    requires prog.WellFormed() && prog.Acyclic(depth)
    decreases |s|
  {
    if s == {} then 0 else
      var p :| p in s;
      PosWeight(prog, depth, p) + PendingWeight(prog, depth, s - {p})
  }

  lemma {:induction false} PendingWithout(prog: Program, depth: seq<nat>, s: set<Pos>, p: Pos)
    requires prog.WellFormed() && prog.Acyclic(depth) && p in s
    ensures PendingWeight(prog, depth, s) == PosWeight(prog, depth, p) + PendingWeight(prog, depth, s - {p})
    decreases |s|
  {
    var q :| q in s && PendingWeight(prog, depth, s) == PosWeight(prog, depth, q) + PendingWeight(prog, depth, s - {q});
    if q != p {
      PendingWithout(prog, depth, s - {q}, p);
      PendingWithout(prog, depth, s - {p}, q);
      assert s - {q} - {p} == s - {p} - {q};
    }
  }

  lemma PendingInsert(prog: Program, depth: seq<nat>, s: set<Pos>, p: Pos)
    requires prog.WellFormed() && prog.Acyclic(depth)
    ensures PendingWeight(prog, depth, s + {p}) <= PendingWeight(prog, depth, s) + PosWeight(prog, depth, p)
  {
    if p in s {
      assert s + {p} == s;
    } else {
      PendingWithout(prog, depth, s + {p}, p);
      assert s + {p} - {p} == s;
    }
  }

  /** Blocks that can still be entered at their start. */
  ghost function Enterable(prog: Program, toCheck: set<Pos>, checked: set<nat>): set<nat> {
    set b | 0 <= b < |prog.blocks| && (b !in checked || Pos(b, 0) in toCheck)
  }

  /** What the segment in progress can still add to the pending return points. */
  ghost function CurrentWeight(prog: Program, depth: seq<nat>, next: Option<Pos>): nat
    requires prog.WellFormed() && prog.Acyclic(depth)
  {
    if next.Some? && prog.Has(next.value) then FuncWeight(prog, depth, prog.Func(next.value)) - 1 else 0
  }

  ghost function Left(prog: Program, next: Option<Pos>): nat {
    if next.Some? && prog.Has(next.value) then |prog.blocks[next.value.block].insts| - next.value.idx else 0
  }

  // ---- the walk as a step system ----

  /** Where the walk is, what is pending, which blocks count as checked; history: what it has visited. */
  datatype Walk = Walk(next: Option<Pos>, toCheck: set<Pos>, checked: set<nat>, visited: set<Pos>)

  predicate IsClear(prog: Program, p: Pos) {
    prog.Has(p) && !EndsSearch(prog.At(p)) && !IsConflict(prog.At(p))
  }

  function BlockStarts(inst: Inst, guard: Guard, checked: set<nat>): set<Pos> {
    set t | t in Followed(inst, guard) && t !in checked :: Pos(t, 0)
  }

  function ReturnPoints(sites: seq<Pos>): set<Pos> {
    set c | c in sites :: c.Next()
  }

  /** Where the walk goes on in the block. */
  function Onward(prog: Program, p: Pos): Option<Pos>
    requires prog.WellFormed() && prog.Has(p)
  {
    if prog.At(p).IsTerminator() || prog.At(p.Next()).Unreachable? then None else Some(p.Next())
  }

  /** What it adds to the worklist. */
  function Added(prog: Program, guard: Guard, p: Pos, checked: set<nat>): set<Pos>
    requires prog.WellFormed() && prog.Has(p)
  {
    if prog.At(p).Return? then ReturnPoints(prog.callSites[prog.Func(p)])
    else BlockStarts(prog.At(p), guard, checked)
  }

  /** The walk passes the instruction at `next`. */
  function Visit(prog: Program, guard: Guard, w: Walk): Walk
    requires prog.WellFormed() && w.next.Some? && prog.Has(w.next.value)
  {
    var p := w.next.value;
    Walk(Onward(prog, p), w.toCheck + Added(prog, guard, p, w.checked), w.checked, w.visited + {p})
  }

  /** It takes a position from the worklist, whichever. */
  function Pop(w: Walk, q: Pos): Walk {
    Walk(Some(q), w.toCheck - {q}, w.checked + {q.block}, w.visited)
  }

  ghost predicate Step(prog: Program, guard: Guard, w: Walk, w': Walk)
    requires prog.WellFormed()
  {
    match w.next
    case Some(p) => IsClear(prog, p) && w' == Visit(prog, guard, w)
    case None => exists q :: q in w.toCheck && w' == Pop(w, q)
  }

  function Begin(start: Pos): Walk {
    Walk(Some(start), {}, {}, {})
  }

  /** `ws` are the states of a walk so far. */
  ghost predicate IsWalk(prog: Program, guard: Guard, start: Pos, ws: seq<Walk>)
    requires prog.WellFormed()
  {
    ws != [] && ws[0] == Begin(start) && forall k | 0 <= k < |ws| - 1 :: Step(prog, guard, ws[k], ws[k + 1])
  }

  function Last(ws: seq<Walk>): Walk
    requires ws != []
  {
    ws[|ws| - 1]
  }

  lemma WalkOn(prog: Program, guard: Guard, start: Pos, ws: seq<Walk>, w: Walk)
    requires prog.WellFormed() && IsWalk(prog, guard, start, ws) && Step(prog, guard, Last(ws), w)
    ensures IsWalk(prog, guard, start, ws + [w])
  {
    hide Step;
  }

  /** The block counts as checked, and its start can no longer be visited. */
  predicate Lost(w: Walk, b: nat) {
    b in w.checked && !Known(w, Pos(b, 0))
  }

  predicate Known(w: Walk, p: Pos) {
    p in w.visited || p in w.toCheck || w.next == Some(p)
  }

  // ---- what holds of every walk ----

  /** A return leads to `p`, the instruction after a call of the returning function. */
  predicate IsReturnTo(prog: Program, r: Pos, p: Pos) {
    && prog.Has(r) && prog.At(r).Return?
    && p.idx > 0 && prog.Has(Pos(p.block, p.idx - 1)) && Calls(prog.At(Pos(p.block, p.idx - 1)), prog.Func(r))
  }

  /** A path of followed edges whose positions are in `visited`, except perhaps the last. */
  ghost predicate PathIn(prog: Program, guard: Guard, start: Pos, visited: set<Pos>, to: Pos, path: seq<Pos>) {
    && path != [] && path[0] == start && path[|path| - 1] == to
    && forall k | 0 <= k < |path| - 1 :: path[k] in visited && Edge(prog, guard, path[k], path[k + 1])
  }

  ghost predicate Via(prog: Program, guard: Guard, start: Pos, visited: set<Pos>, to: Pos) {
    exists path :: PathIn(prog, guard, start, visited, to, path)
  }

  /** Clear positions from `start` on, none of which branches to block `b`, that end with a return into it. */
  ghost predicate AvoidingPath(prog: Program, guard: Guard, start: Pos, b: nat, path: seq<Pos>) {
    && path != [] && path[0] == start
    && (forall k | 0 <= k < |path| :: IsClear(prog, path[k]) && b !in Followed(prog.At(path[k]), guard))
    && (forall k | 0 <= k < |path| - 1 :: Edge(prog, guard, path[k], path[k + 1]))
  }

  ghost predicate ReturnsInto(prog: Program, guard: Guard, start: Pos, b: nat) {
    exists path: seq<Pos>, r: Pos ::
      AvoidingPath(prog, guard, start, b, path) && r.block == b && IsReturnTo(prog, path[|path| - 1], r)
  }

  /** The edges out of `p` lead to what the walk knows, or to blocks that count as checked. */
  ghost predicate Covers(prog: Program, guard: Guard, w: Walk, p: Pos) {
    forall q | Edge(prog, guard, p, q) :: Known(w, q) || (q.idx == 0 && q.block in w.checked)
  }

  ghost predicate WalkInv(prog: Program, guard: Guard, start: Pos, w: Walk) {
    && Known(w, start)
    && (forall p | p in w.visited :: IsClear(prog, p) && Covers(prog, guard, w, p))
    && (forall p | Known(w, p) :: prog.Has(p) && Via(prog, guard, start, w.visited, p))
    && (forall q | q in w.toCheck :: q.idx == 0 || exists p :: p in w.visited && IsReturnTo(prog, p, q))
    && (forall b | b in w.checked :: Known(w, Pos(b, 0)) || ReturnsInto(prog, guard, start, b))
  }

  lemma BeginInv(prog: Program, guard: Guard, start: Pos)
    requires prog.Has(start)
    ensures WalkInv(prog, guard, start, Begin(start))
  {
    assert PathIn(prog, guard, start, {}, start, [start]);
  }

  lemma ViaMore(prog: Program, guard: Guard, start: Pos, visited: set<Pos>, more: set<Pos>, p: Pos)
    requires Via(prog, guard, start, visited, p) && visited <= more
    ensures Via(prog, guard, start, more, p)
  {
    hide Edge;
    var path :| PathIn(prog, guard, start, visited, p, path);
    assert PathIn(prog, guard, start, more, p, path);
  }

  lemma ViaNext(prog: Program, guard: Guard, start: Pos, visited: set<Pos>, p: Pos, q: Pos)
    requires Via(prog, guard, start, visited, p) && p in visited && Edge(prog, guard, p, q)
    ensures Via(prog, guard, start, visited, q)
  {
    hide Edge;
    var path :| PathIn(prog, guard, start, visited, p, path);
    assert PathIn(prog, guard, start, visited, q, path + [q]);
  }

  /** The edges out of a position, when it is passed. */
  lemma VisitEdges(prog: Program, guard: Guard, p: Pos, checked: set<nat>, q: Pos)
    requires prog.WellFormed() && prog.SitesComplete() && prog.Has(p)
    ensures Onward(prog, p) == Some(q) || q in Added(prog, guard, p, checked) ==> Edge(prog, guard, p, q)
    ensures Edge(prog, guard, p, q) ==>
      Onward(prog, p) == Some(q) || q in Added(prog, guard, p, checked) || (q.idx == 0 && q.block in checked)
    ensures q in Added(prog, guard, p, checked) ==> q.idx == 0 || IsReturnTo(prog, p, q)
  {
    if prog.At(p).Return? {
      ReturnEdges(prog, guard, p, q);
    } else {
      BranchEdges(prog, guard, p, checked, q);
    }
  }

  lemma ReturnEdges(prog: Program, guard: Guard, p: Pos, q: Pos)
    requires prog.WellFormed() && prog.SitesComplete() && prog.Has(p) && prog.At(p).Return?
    ensures q in ReturnPoints(prog.callSites[prog.Func(p)]) <==> Edge(prog, guard, p, q)
    ensures Edge(prog, guard, p, q) <==> IsReturnTo(prog, p, q)
  {
    var sites := prog.callSites[prog.Func(p)];
    if c :| c in sites && c.Next() == q {
      assert !prog.At(c).IsTerminator() && prog.Has(q);
    }
    if IsReturnTo(prog, p, q) {
      var c := Pos(q.block, q.idx - 1);
      assert prog.Has(c) && c in sites && q == c.Next();
    }
  }

  lemma BranchEdges(prog: Program, guard: Guard, p: Pos, checked: set<nat>, q: Pos)
    requires prog.WellFormed() && prog.Has(p) && !prog.At(p).Return?
    ensures Onward(prog, p) == Some(q) || q in BlockStarts(prog.At(p), guard, checked) ==> Edge(prog, guard, p, q)
    ensures Edge(prog, guard, p, q) ==>
      || Onward(prog, p) == Some(q) || q in BlockStarts(prog.At(p), guard, checked)
      || (q.idx == 0 && q.block in checked)
  {
    if q in BlockStarts(prog.At(p), guard, checked) {
      assert q.block in prog.At(p).Successors() && prog.At(p).TargetsBelow(|prog.blocks|);
    }
  }

  lemma VisitInv(prog: Program, guard: Guard, start: Pos, w: Walk)
    requires prog.WellFormed() && prog.SitesComplete() && WalkInv(prog, guard, start, w)
    requires w.next.Some? && IsClear(prog, w.next.value)
    ensures WalkInv(prog, guard, start, Visit(prog, guard, w))
  {
    var p, w' := w.next.value, Visit(prog, guard, w);
    forall q
      ensures Onward(prog, p) == Some(q) || q in Added(prog, guard, p, w.checked) ==> Edge(prog, guard, p, q)
      ensures Edge(prog, guard, p, q) ==>
        Onward(prog, p) == Some(q) || q in Added(prog, guard, p, w.checked) || (q.idx == 0 && q.block in w.checked)
      ensures q in Added(prog, guard, p, w.checked) ==> q.idx == 0 || IsReturnTo(prog, p, q)
    {
      VisitEdges(prog, guard, p, w.checked, q);
    }
    hide Edge, Added, Onward, IsReturnTo, IsClear, ReturnsInto, prog.WellFormed, prog.SitesComplete;
    assert forall q | Known(w, q) :: Known(w', q);
    forall q | Known(w', q) ensures prog.Has(q) && Via(prog, guard, start, w'.visited, q) {
      ViaMore(prog, guard, start, w.visited, w'.visited, p);
      if Known(w, q) {
        ViaMore(prog, guard, start, w.visited, w'.visited, q);
      } else {
        EdgeEnds(prog, guard, p, q);
        ViaNext(prog, guard, start, w'.visited, p, q);
      }
    }
    forall q | q in w'.visited ensures IsClear(prog, q) && Covers(prog, guard, w', q) {
      if q != p {
        assert Covers(prog, guard, w, q);
      }
    }
    hide Via;
  }

  lemma EdgeEnds(prog: Program, guard: Guard, p: Pos, q: Pos)
    requires Edge(prog, guard, p, q)
    ensures prog.Has(p) && prog.Has(q)
  {}

  /** While a block is neither checked nor known at its start, nothing visited branches to it. */
  lemma VisitedAvoids(prog: Program, guard: Guard, start: Pos, w: Walk, p: Pos, b: nat)
    requires prog.WellFormed() && WalkInv(prog, guard, start, w) && p in w.visited
    requires b !in w.checked && !Known(w, Pos(b, 0))
    ensures IsClear(prog, p) && b !in Followed(prog.At(p), guard)
  {
    assert IsClear(prog, p) && Covers(prog, guard, w, p);
    hide WalkInv;
    if b in Followed(prog.At(p), guard) {
      BranchEdge(prog, guard, p, b);
      assert false;
    }
  }

  /** A block that gets checked although its start is unknown: the walk has returned into it. */
  lemma PopReturnsInto(prog: Program, guard: Guard, start: Pos, w: Walk, q: Pos)
    requires prog.WellFormed() && WalkInv(prog, guard, start, w) && q in w.toCheck
    requires q.idx > 0 && q.block !in w.checked && !Known(w, Pos(q.block, 0))
    ensures ReturnsInto(prog, guard, start, q.block)
  {
    var p :| p in w.visited && IsReturnTo(prog, p, q);
    assert Known(w, p);
    var path :| PathIn(prog, guard, start, w.visited, p, path);
    hide Edge, WalkInv, IsReturnTo, prog.WellFormed, Known;
    forall k | 0 <= k < |path| ensures IsClear(prog, path[k]) && q.block !in Followed(prog.At(path[k]), guard) {
      assert path[k] in w.visited;
      VisitedAvoids(prog, guard, start, w, path[k], q.block);
    }
    assert AvoidingPath(prog, guard, start, q.block, path);
  }

  lemma BranchEdge(prog: Program, guard: Guard, p: Pos, t: nat)
    requires prog.WellFormed() && prog.Has(p) && t in Followed(prog.At(p), guard)
    ensures Edge(prog, guard, p, Pos(t, 0))
  {
    assert prog.At(p).IsTerminator() && p.idx == |prog.blocks[p.block].insts| - 1;
    assert t in prog.At(p).Successors() && prog.At(p).TargetsBelow(|prog.blocks|);
  }

  lemma PopChecked(prog: Program, guard: Guard, start: Pos, w: Walk, q: Pos, b: nat)
    requires prog.WellFormed() && WalkInv(prog, guard, start, w) && w.next == None && q in w.toCheck
    requires b in w.checked || b == q.block
    ensures Known(w, Pos(b, 0)) || ReturnsInto(prog, guard, start, b)
  {
    assert q == Pos(q.block, q.idx);
    if b !in w.checked && !Known(w, Pos(b, 0)) {
      PopReturnsInto(prog, guard, start, w, q);
    }
  }

  lemma PopInv(prog: Program, guard: Guard, start: Pos, w: Walk, q: Pos)
    requires prog.WellFormed() && WalkInv(prog, guard, start, w) && w.next == None && q in w.toCheck
    ensures WalkInv(prog, guard, start, Pop(w, q))
  {
    hide Edge, Via, IsReturnTo, IsClear, ReturnsInto, Covers, Known, prog.WellFormed;
    PopKnows(w, q);
    forall p | p in w.visited ensures Covers(prog, guard, Pop(w, q), p) {
      PopCovers(prog, guard, w, q, p);
    }
    forall b | b in Pop(w, q).checked ensures Known(w, Pos(b, 0)) || ReturnsInto(prog, guard, start, b) {
      PopChecked(prog, guard, start, w, q, b);
    }
  }

  lemma PopKnows(w: Walk, q: Pos)
    requires w.next == None && q in w.toCheck
    ensures forall p :: Known(Pop(w, q), p) <==> Known(w, p)
    ensures Known(w, q)
  {}

  lemma PopCovers(prog: Program, guard: Guard, w: Walk, q: Pos, p: Pos)
    requires w.next == None && q in w.toCheck && Covers(prog, guard, w, p)
    ensures Covers(prog, guard, Pop(w, q), p)
  {
    PopKnows(w, q);
    hide Edge, Known;
  }

  lemma {:induction false} WalksKeepInv(prog: Program, guard: Guard, start: Pos, ws: seq<Walk>)
    requires prog.WellFormed() && prog.SitesComplete() && prog.Has(start) && IsWalk(prog, guard, start, ws)
    ensures WalkInv(prog, guard, start, Last(ws))
    decreases |ws|
  {
    hide WalkInv, prog.WellFormed, prog.SitesComplete;
    if |ws| == 1 {
      BeginInv(prog, guard, start);
    } else {
      var front := ws[..|ws| - 1];
      WalksKeepInv(prog, guard, start, front);
      var w := Last(front);
      assert Step(prog, guard, ws[|ws| - 2], ws[|ws| - 2 + 1]);
      if w.next.Some? {
        VisitInv(prog, guard, start, w);
      } else {
        var q :| q in w.toCheck && Last(ws) == Pop(w, q);
        PopInv(prog, guard, start, w, q);
      }
    }
  }

  lemma OneState(prog: Program, guard: Guard, start: Pos)
    requires prog.WellFormed()
    ensures IsWalk(prog, guard, start, [Begin(start)])
  {}

  /** The walk is where a clear path leads. */
  lemma WalkReaches(prog: Program, guard: Guard, start: Pos, ws: seq<Walk>)
    requires prog.WellFormed() && prog.SitesComplete() && prog.Has(start) && IsWalk(prog, guard, start, ws)
    requires Last(ws).next.Some?
    ensures prog.Has(Last(ws).next.value) && Reaches(prog, guard, start, Last(ws).next.value)
  {
    WalksKeepInv(prog, guard, start, ws);
    var w := Last(ws);
    assert Known(w, w.next.value);
    ViaReaches(prog, guard, start, w, w.next.value);
  }

  lemma ViaReaches(prog: Program, guard: Guard, start: Pos, w: Walk, p: Pos)
    requires WalkInv(prog, guard, start, w) && Known(w, p)
    ensures Reaches(prog, guard, start, p)
  {
    var path :| PathIn(prog, guard, start, w.visited, p, path);
    hide Edge;
    forall k | 0 <= k < |path| ensures prog.Has(path[k]) {
      if k < |path| - 1 {
        assert Known(w, path[k]);
      }
    }
    forall k | 0 <= k < |path| - 1 ensures !EndsSearch(prog.At(path[k])) {
      assert path[k] in w.visited && IsClear(prog, path[k]);
    }
    assert ClearPath(prog, guard, start, p, path);
  }

  /** What a walk passes: of the calls, only harmless ones and MPI calls that neither conflict nor end the scope. */
  lemma PassesOnlyHarmless(prog: Program, guard: Guard, start: Pos, ws: seq<Walk>)
    requires prog.WellFormed() && prog.SitesComplete() && prog.Has(start) && IsWalk(prog, guard, start, ws)
    ensures forall p | p in Last(ws).visited ::
      prog.Has(p) && (prog.At(p).Call? ==> prog.At(p).class_ in {OtherMpi, Harmless})
  {
    WalksKeepInv(prog, guard, start, ws);
    hide IsWalk, prog.WellFormed, prog.SitesComplete;
    forall p | p in Last(ws).visited
      ensures prog.Has(p) && (prog.At(p).Call? ==> prog.At(p).class_ in {OtherMpi, Harmless})
    {
      assert IsClear(prog, p);
    }
  }

  lemma PendingHas(prog: Program, guard: Guard, start: Pos, ws: seq<Walk>, q: Pos)
    requires prog.WellFormed() && prog.SitesComplete() && prog.Has(start) && IsWalk(prog, guard, start, ws)
    requires q in Last(ws).toCheck
    ensures prog.Has(q)
  {
    WalksKeepInv(prog, guard, start, ws);
    assert Known(Last(ws), q);
  }

  // ---- exactly when a walk can miss something ----

  predicate Distinct(path: seq<Pos>) {
    forall i, j | 0 <= i < j < |path| :: path[i] != path[j]
  }

  lemma Splice(prog: Program, guard: Guard, start: Pos, b: nat, path: seq<Pos>, i: nat, j: nat)
    requires AvoidingPath(prog, guard, start, b, path) && i < j < |path| && path[i] == path[j]
    ensures AvoidingPath(prog, guard, start, b, path[..i] + path[j..])
  {
    hide Edge, Followed;
    var short := path[..i] + path[j..];
    forall k | 0 <= k < |short|
      ensures IsClear(prog, short[k]) && b !in Followed(prog.At(short[k]), guard)
    {
      assert short[k] == path[if k < i then k else k + (j - i)];
    }
    forall k | 0 <= k < |short| - 1 ensures Edge(prog, guard, short[k], short[k + 1]) {
      var at := if k < i then k else k + (j - i);
      assert Edge(prog, guard, path[at], path[at + 1]);
    }
  }

  lemma {:induction false} WithoutRepeats(prog: Program, guard: Guard, start: Pos, b: nat, path: seq<Pos>)
    returns (short: seq<Pos>)
    requires AvoidingPath(prog, guard, start, b, path)
    ensures AvoidingPath(prog, guard, start, b, short) && Distinct(short)
    ensures short[|short| - 1] == path[|path| - 1]
    decreases |path|
  {
    if i, j :| 0 <= i < j < |path| && path[i] == path[j] {
      Splice(prog, guard, start, b, path, i, j);
      short := WithoutRepeats(prog, guard, start, b, path[..i] + path[j..]);
    } else {
      short := path;
    }
  }

  /** Some position of the path branches to the block. */
  ghost predicate BranchesTo(prog: Program, guard: Guard, path: seq<Pos>, t: nat) {
    exists p :: p in path && prog.Has(p) && t in Followed(prog.At(p), guard)
  }

  /** The walk has passed the positions of the path, and nothing else. */
  ghost predicate HasFollowed(prog: Program, guard: Guard, path: seq<Pos>, w: Walk) {
    && (forall p :: p in w.visited <==> p in path)
    && (forall q | q in w.toCheck && q.idx == 0 :: BranchesTo(prog, guard, path, q.block))
  }

  lemma FollowVisit(prog: Program, guard: Guard, path: seq<Pos>, w: Walk)
    requires prog.WellFormed() && prog.SitesComplete() && HasFollowed(prog, guard, path, w)
    requires w.next.Some? && prog.Has(w.next.value)
    ensures HasFollowed(prog, guard, path + [w.next.value], Visit(prog, guard, w))
  {
    var p, w' := w.next.value, Visit(prog, guard, w);
    var longer := path + [p];
    assert forall x :: x in longer <==> x in path || x == p;
    forall q | q in w'.toCheck && q.idx == 0 ensures BranchesTo(prog, guard, longer, q.block) {
      if q in w.toCheck {
        assert BranchesTo(prog, guard, path, q.block);
      } else {
        assert q.block in Followed(prog.At(p), guard);
      }
    }
  }

  lemma FollowPop(prog: Program, guard: Guard, path: seq<Pos>, w: Walk, q: Pos)
    requires HasFollowed(prog, guard, path, w)
    ensures HasFollowed(prog, guard, path, Pop(w, q))
  {
    hide BranchesTo;
  }

  /** An edge in the middle of a block is the only one. */
  lemma OnwardOnly(prog: Program, guard: Guard, p: Pos, q: Pos)
    requires prog.WellFormed() && Edge(prog, guard, p, q)
    ensures !prog.At(p).IsTerminator() ==> Onward(prog, p) == Some(q)
    ensures q.idx == 0 ==> q.block in Followed(prog.At(p), guard)
  {}

  /** A walk that tries to go on along an edge succeeds, or the block the edge leads to is lost. */
  lemma FollowEdge(prog: Program, guard: Guard, start: Pos, ws: seq<Walk>, path: seq<Pos>, q: Pos)
    returns (more: seq<Walk>, lost: Option<nat>)
    requires prog.WellFormed() && prog.SitesComplete() && IsWalk(prog, guard, start, ws)
    requires HasFollowed(prog, guard, path, Last(ws)) && Last(ws).next.Some?
    requires var p := Last(ws).next.value; IsClear(prog, p) && Edge(prog, guard, p, q) && q !in path + [p]
    ensures IsWalk(prog, guard, start, more)
    ensures match lost
      case Some(t) => q == Pos(t, 0) && Lost(Last(more), t)
      case None => Last(more).next == Some(q) && HasFollowed(prog, guard, path + [Last(ws).next.value], Last(more))
  {
    var w := Last(ws);
    var p := w.next.value;
    var w' := Visit(prog, guard, w);
    FollowVisit(prog, guard, path, w);
    VisitEdges(prog, guard, p, w.checked, q);
    OnwardOnly(prog, guard, p, q);
    hide Edge, Added, HasFollowed, prog.WellFormed, prog.SitesComplete, Followed;
    WalkOn(prog, guard, start, ws, w');
    more, lost := ws + [w'], None;
    if Onward(prog, p) != Some(q) {
      assert w'.next == None;
      NotVisited(prog, guard, path + [p], w', q);
      if q in w'.toCheck {
        FollowPop(prog, guard, path + [p], w', q);
        WalkOn(prog, guard, start, more, Pop(w', q));
        more := more + [Pop(w', q)];
      } else {
        lost := Some(q.block);
        assert q == Pos(q.block, 0);
      }
    }
  }

  lemma NotVisited(prog: Program, guard: Guard, path: seq<Pos>, w: Walk, q: Pos)
    requires HasFollowed(prog, guard, path, w) && q !in path
    ensures q !in w.visited
  {}

  /** Following a path without repetitions for `n` edges: it can be done, unless a reachable block is lost. */
  lemma {:induction false} Follow(prog: Program, guard: Guard, start: Pos, b: nat, path: seq<Pos>, n: nat)
    returns (ws: seq<Walk>, lost: Option<nat>)
    requires prog.WellFormed() && prog.SitesComplete() && AvoidingPath(prog, guard, start, b, path) && Distinct(path)
    requires n < |path|
    ensures IsWalk(prog, guard, start, ws)
    ensures match lost
      case Some(t) => Lost(Last(ws), t) && Reaches(prog, guard, start, Pos(t, 0))
      case None => Last(ws).next == Some(path[n]) && HasFollowed(prog, guard, path[..n], Last(ws))
  {
    hide Edge, IsWalk, HasFollowed, prog.WellFormed, prog.SitesComplete, Followed, Reaches, Lost, IsClear;
    if n == 0 {
      ws, lost := [Begin(start)], None;
      OneState(prog, guard, start);
      NothingFollowed(prog, guard, start);
      assert path[..0] == [];
    } else {
      ws, lost := Follow(prog, guard, start, b, path, n - 1);
      if lost == None {
        assert path[..n] == path[..n - 1] + [path[n - 1]];
        assert Edge(prog, guard, path[n - 1], path[n - 1 + 1]);
        ws, lost := FollowEdge(prog, guard, start, ws, path[..n - 1], path[n]);
        PrefixReaches(prog, guard, start, b, path, n);
      }
    }
  }

  lemma NothingFollowed(prog: Program, guard: Guard, start: Pos)
    ensures HasFollowed(prog, guard, [], Begin(start))
  {}

  lemma PrefixReaches(prog: Program, guard: Guard, start: Pos, b: nat, path: seq<Pos>, n: nat)
    requires AvoidingPath(prog, guard, start, b, path) && n < |path|
    ensures Reaches(prog, guard, start, path[n])
  {
    hide Edge;
    forall k | 0 <= k < |path| ensures prog.Has(path[k]) && !EndsSearch(prog.At(path[k])) {
      assert IsClear(prog, path[k]);
    }
    assert ClearPath(prog, guard, start, path[n], path[..n + 1]);
  }

  lemma NoBranchTo(prog: Program, guard: Guard, start: Pos, b: nat, path: seq<Pos>)
    requires prog.WellFormed() && AvoidingPath(prog, guard, start, b, path) && start.idx > 0
    ensures !BranchesTo(prog, guard, path, b) && Pos(b, 0) !in path
  {
    forall k | 0 <= k < |path| ensures path[k] != Pos(b, 0) {
      if k > 0 && path[k] == Pos(b, 0) {
        assert Edge(prog, guard, path[k - 1], path[k - 1 + 1]);
        OnwardOnly(prog, guard, path[k - 1], path[k]);
        assert false;
      }
    }
  }

  /** A return into block `b` along a path that never branches to it loses `b`, if nothing was lost before. */
  lemma ReturnLoses(prog: Program, guard: Guard, start: Pos, b: nat, path: seq<Pos>, r: Pos)
    returns (ws: seq<Walk>, lost: nat)
    requires prog.WellFormed() && prog.SitesComplete() && start.idx > 0
    requires AvoidingPath(prog, guard, start, b, path) && Distinct(path)
    requires r.block == b && IsReturnTo(prog, path[|path| - 1], r) && Reaches(prog, guard, start, Pos(b, 0))
    ensures IsWalk(prog, guard, start, ws) && Lost(Last(ws), lost) && Reaches(prog, guard, start, Pos(lost, 0))
  {
    var n := |path| - 1;
    var gone;
    ws, gone := Follow(prog, guard, start, b, path, n);
    if gone.Some? {
      lost := gone.value;
    } else {
      lost := b;
      ws := ReturnInto(prog, guard, start, ws, path, r);
      assert path[..n] + [path[n]] == path;
      NoBranchTo(prog, guard, start, b, path);
    }
  }

  lemma ReturnInto(prog: Program, guard: Guard, start: Pos, ws: seq<Walk>, path: seq<Pos>, r: Pos)
    returns (more: seq<Walk>)
    requires prog.WellFormed() && prog.SitesComplete() && IsWalk(prog, guard, start, ws) && path != []
    requires var p := path[|path| - 1];
      && Last(ws).next == Some(p) && HasFollowed(prog, guard, path[..|path| - 1], Last(ws))
      && IsClear(prog, p) && IsReturnTo(prog, p, r)
    ensures IsWalk(prog, guard, start, more) && HasFollowed(prog, guard, path, Last(more))
    ensures Last(more).next == Some(r) && r.block in Last(more).checked
  {
    var w := Last(ws);
    var p := w.next.value;
    var w' := Visit(prog, guard, w);
    FollowVisit(prog, guard, path[..|path| - 1], w);
    assert path == path[..|path| - 1] + [p];
    ReturnEdges(prog, guard, p, r);
    hide HasFollowed, Edge, prog.SitesComplete;
    WalkOn(prog, guard, start, ws, w');
    FollowPop(prog, guard, path, w', r);
    WalkOn(prog, guard, start, ws + [w'], Pop(w', r));
    more := ws + [w'] + [Pop(w', r)];
  }

  /** A block that can be reached at its start, but that the walk can lose. */
  ghost predicate CanMiss(prog: Program, guard: Guard, start: Pos)
    requires prog.WellFormed()
  {
    exists ws, c :: IsWalk(prog, guard, start, ws) && Lost(Last(ws), c) && Reaches(prog, guard, start, Pos(c, 0))
  }

  /**
    Some walk loses a block whose start a clear path reaches if and only if there is a block whose start
    is reached and into which a path returns that never branches to it.
   */
  lemma MissesExactly(prog: Program, guard: Guard, start: Pos)
    requires prog.WellFormed() && prog.SitesComplete() && prog.Has(start) && start.idx > 0
    ensures CanMiss(prog, guard, start) <==>
              exists b :: Reaches(prog, guard, start, Pos(b, 0)) && ReturnsInto(prog, guard, start, b)
  {
    hide Lost, Reaches, ReturnsInto, Step, prog.SitesComplete;
    if CanMiss(prog, guard, start) {
      var ws, c :| IsWalk(prog, guard, start, ws) && Lost(Last(ws), c) && Reaches(prog, guard, start, Pos(c, 0));
      LostWasReturnedInto(prog, guard, start, ws, c);
    }
    if b :| Reaches(prog, guard, start, Pos(b, 0)) && ReturnsInto(prog, guard, start, b) {
      var ws, c := LosesSome(prog, guard, start, b);
    }
  }

  lemma LostWasReturnedInto(prog: Program, guard: Guard, start: Pos, ws: seq<Walk>, c: nat)
    requires prog.WellFormed() && prog.SitesComplete() && prog.Has(start)
    requires IsWalk(prog, guard, start, ws) && Lost(Last(ws), c)
    ensures ReturnsInto(prog, guard, start, c)
  {
    WalksKeepInv(prog, guard, start, ws);
  }

  lemma LosesSome(prog: Program, guard: Guard, start: Pos, b: nat) returns (ws: seq<Walk>, lost: nat)
    requires prog.WellFormed() && prog.SitesComplete() && start.idx > 0
    requires Reaches(prog, guard, start, Pos(b, 0)) && ReturnsInto(prog, guard, start, b)
    ensures IsWalk(prog, guard, start, ws) && Lost(Last(ws), lost) && Reaches(prog, guard, start, Pos(lost, 0))
  {
    var path: seq<Pos>, r: Pos :|
      AvoidingPath(prog, guard, start, b, path) && r.block == b && IsReturnTo(prog, path[|path| - 1], r);
    var short := WithoutRepeats(prog, guard, start, b, path);
    ws, lost := ReturnLoses(prog, guard, start, b, short, r);
  }

  /** What is lost stays lost, so a walk that goes on never visits the start of the block. */
  lemma LostStays(prog: Program, guard: Guard, w: Walk, w': Walk, c: nat)
    requires prog.WellFormed() && Step(prog, guard, w, w') && Lost(w, c)
    ensures Lost(w', c)
  {
    assert w.next.Some? && IsClear(prog, w.next.value) ==> Pos(c, 0) !in Added(prog, guard, w.next.value, w.checked);
  }

  /** The final state of a walk that has lost nothing reachable is closed under followed edges. */
  lemma FinalEdge(prog: Program, guard: Guard, start: Pos, ws: seq<Walk>, p: Pos, q: Pos)
    requires prog.WellFormed() && prog.SitesComplete() && prog.Has(start) && !CanMiss(prog, guard, start)
    requires IsWalk(prog, guard, start, ws) && Last(ws).next == None && Last(ws).toCheck == {}
    requires p in Last(ws).visited && Edge(prog, guard, p, q) && Reaches(prog, guard, start, q)
    ensures q in Last(ws).visited
  {
    WalksKeepInv(prog, guard, start, ws);
    var w := Last(ws);
    assert Covers(prog, guard, w, p);
    hide WalkInv, Edge, Reaches, IsWalk, prog.WellFormed, prog.SitesComplete;
    assert q.idx == 0 ==> q == Pos(q.block, 0);
    assert q in w.visited || Lost(w, q.block);
  }

  lemma {:induction false} FinalVisits(prog: Program, guard: Guard, start: Pos, ws: seq<Walk>, to: Pos, path: seq<Pos>)
    requires prog.WellFormed() && prog.SitesComplete() && prog.Has(start) && !CanMiss(prog, guard, start)
    requires IsWalk(prog, guard, start, ws) && Last(ws).next == None && Last(ws).toCheck == {}
    requires ClearPath(prog, guard, start, to, path)
    ensures to in Last(ws).visited
    decreases |path|
  {
    hide Edge, WalkInv, CanMiss, prog.WellFormed, prog.SitesComplete;
    if |path| > 1 {
      var p, front := path[|path| - 2], path[..|path| - 1];
      assert ClearPath(prog, guard, start, p, front);
      FinalVisits(prog, guard, start, ws, p, front);
      assert Edge(prog, guard, path[|path| - 2], path[|path| - 2 + 1]);
      FinalEdge(prog, guard, start, ws, p, to);
    } else {
      StartVisited(prog, guard, start, ws);
    }
  }

  lemma StartVisited(prog: Program, guard: Guard, start: Pos, ws: seq<Walk>)
    requires prog.WellFormed() && prog.SitesComplete() && prog.Has(start)
    requires IsWalk(prog, guard, start, ws) && Last(ws).next == None && Last(ws).toCheck == {}
    ensures start in Last(ws).visited
  {
    WalksKeepInv(prog, guard, start, ws);
  }

  /**
    If no walk can miss a block, a walk that runs out of work has visited all that clear paths reach,
    so no conflict and no end of the search can be reached.
   */
  lemma ExhaustedMeansClear(prog: Program, guard: Guard, start: Pos, ws: seq<Walk>, to: Pos)
    requires prog.WellFormed() && prog.SitesComplete() && prog.Has(start) && start.idx > 0
    requires IsWalk(prog, guard, start, ws) && Last(ws).next == None && Last(ws).toCheck == {}
    requires forall b | Reaches(prog, guard, start, Pos(b, 0)) :: !ReturnsInto(prog, guard, start, b)
    requires Reaches(prog, guard, start, to)
    ensures to in Last(ws).visited && IsClear(prog, to)
  {
    MissesExactly(prog, guard, start);
    WalksKeepInv(prog, guard, start, ws);
    var path :| ClearPath(prog, guard, start, to, path);
    hide IsWalk, ReturnsInto, Edge;
    FinalVisits(prog, guard, start, ws, to, path);
  }

  // ---- an input on which the walk misses a conflict ----

  /** A loop of function 0 (block 1) with a conflicting call and a call of function 1 (block 3). */
  const ENTRY := Block(0, [CondBranch(0, 1, 2)])
  const LOOP := Block(0, [Call(None, ConflictingMpi), Call(Some(1), MayConflict), Jump(1)])
  const EXIT := Block(0, [Call(None, Finalize), Return])
  const CALLEE := Block(1, [Call(None, OtherMpi), Return])
  const MISSING := Program([ENTRY, LOOP, EXIT, CALLEE], [[], [Pos(1, 1)]])

  /** The only walk from the init call in block 3: the return, the jump back, and nothing is left. */
  function MissingWalk(): seq<Walk> {
    [Walk(Some(Pos(3, 1)), {}, {}, {}),
     Walk(None, {Pos(1, 2)}, {}, {Pos(3, 1)}),
     Walk(Some(Pos(1, 2)), {}, {1}, {Pos(3, 1)}),
     Walk(None, {}, {1}, {Pos(3, 1), Pos(1, 2)})]
  }

  lemma MissingIsWellFormed()
    ensures MISSING.WellFormed()
  {}

  lemma MissingCalls()
    requires MISSING.WellFormed()
    ensures MISSING.SitesComplete() && MISSING.Acyclic([0, 1]) && MISSING.HasEnding()
  {
    hide MISSING.WellFormed;
    assert MISSING.Has(Pos(2, 0));
  }

  lemma MissingGuard()
    requires MISSING.WellFormed()
    ensures GuardingCompare(MISSING, 3) == NoGuard
  {
    var preds := Predecessors(MISSING, 3, 4);
    assert preds == [] || preds[0] in preds;
    if preds != [] {
      PredecessorEdges(MISSING, 3, 4, preds[0]);
      assert false;
    }
  }

  lemma MissingFirst()
    requires MISSING.WellFormed()
    ensures var w := MissingWalk(); Visit(MISSING, NoGuard, w[0]) == w[1] && IsClear(MISSING, Pos(3, 1))
  {
    assert MISSING.callSites[1] == [Pos(1, 1)];
    assert Pos(1, 1) in [Pos(1, 1)] && Pos(1, 1).Next() == Pos(1, 2);
    assert ReturnPoints([Pos(1, 1)]) == {Pos(1, 2)};
  }

  lemma MissingSecond()
    requires MISSING.WellFormed()
    ensures var w := MissingWalk();
      Pop(w[1], Pos(1, 2)) == w[2] && Visit(MISSING, NoGuard, w[2]) == w[3] && IsClear(MISSING, Pos(1, 2))
  {}

  lemma MissingReach()
    ensures Reaches(MISSING, NoGuard, Pos(3, 1), Pos(1, 0)) && MISSING.Has(Pos(1, 0))
  {
    hide Reaches;
    var start := Pos(3, 1);
    ReachesItself(MISSING, NoGuard, start);
    ReachesNext(MISSING, NoGuard, start, start, Pos(1, 2));
    ReachesNext(MISSING, NoGuard, start, Pos(1, 2), Pos(1, 0));
  }

  /**
    The walk returns into block 1 behind the conflict, counts the block as checked and does not follow
    the jump back to its start: it runs out of work, but the conflict is reachable.
   */
  lemma ConflictIsMissed()
    ensures MISSING.WellFormed() && MISSING.SitesComplete() && MISSING.Acyclic([0, 1]) && MISSING.HasEnding()
    ensures GuardingCompare(MISSING, 3) == NoGuard && IsWalk(MISSING, NoGuard, Pos(3, 1), MissingWalk())
    ensures Last(MissingWalk()).next == None && Last(MissingWalk()).toCheck == {}
    ensures Reaches(MISSING, NoGuard, Pos(3, 1), Pos(1, 0)) && IsConflict(MISSING.At(Pos(1, 0)))
    ensures Pos(1, 0) !in Last(MissingWalk()).visited
  {
    MissingIsWellFormed();
    MissingCalls();
    MissingGuard();
    MissingReach();
    MissingFirst();
    MissingSecond();
    hide Reaches, IsClear, Visit, MISSING.WellFormed, MISSING.SitesComplete, MISSING.Acyclic, MISSING.HasEnding;
  }

  // ---- an input on which it is found ----

  /** The init call is at the start of block 1, behind a branch on condition 0 that block 1 repeats. */
  const BEFORE := Block(0, [CondBranch(0, 1, 2)])
  const GUARDED := Block(0, [Call(None, OtherMpi), Call(None, Harmless), CondBranch(0, 3, 4)])
  const OTHERWISE := Block(0, [Jump(4)])
  const SAME_SIDE := Block(0, [Plain, Switch([5])])
  const ENDING := Block(0, [Call(None, Finalize), Return])
  const BETWEEN := Block(0, [Jump(6)])
  const SECOND := Block(0, [Call(None, ConflictingMpi), Return])
  const FINDING := Program([BEFORE, GUARDED, OTHERWISE, SAME_SIDE, ENDING, BETWEEN, SECOND], [[]])

  /** The only walk: on the same side of the repeated branch it meets a conflict, on the other it would end. */
  function FindingWalk(): seq<Walk> {
    var a, b, c, d := {Pos(1, 1)}, {Pos(1, 1), Pos(1, 2)}, {Pos(1, 1), Pos(1, 2), Pos(3, 0)},
      {Pos(1, 1), Pos(1, 2), Pos(3, 0), Pos(3, 1)};
    [Walk(Some(Pos(1, 1)), {}, {}, {}),
     Walk(Some(Pos(1, 2)), {}, {}, a),
     Walk(None, {Pos(3, 0)}, {}, b),
     Walk(Some(Pos(3, 0)), {}, {3}, b),
     Walk(Some(Pos(3, 1)), {}, {3}, c),
     Walk(None, {Pos(5, 0)}, {3}, d),
     Walk(Some(Pos(5, 0)), {}, {3, 5}, d),
     Walk(None, {Pos(6, 0)}, {3, 5}, d + {Pos(5, 0)}),
     Walk(Some(Pos(6, 0)), {}, {3, 5, 6}, d + {Pos(5, 0)})]
  }

  lemma FindingIsWellFormed()
    ensures FINDING.WellFormed()
  {}

  lemma FindingCalls()
    requires FINDING.WellFormed()
    ensures FINDING.SitesComplete() && FINDING.Acyclic([0]) && FINDING.HasEnding()
  {
    hide FINDING.WellFormed;
    assert FINDING.Has(Pos(4, 0));
  }

  lemma FindingGuard()
    requires FINDING.WellFormed()
    ensures GuardingCompare(FINDING, 1) == Guard(0, true)
  {
    assert EnteredOnlyBy(FINDING, 0, 1);
    GuardExactly(FINDING, 1);
    GuardIsSound(FINDING, 1);
    assert 1 in Terminator(FINDING, 0).Successors();
  }

  lemma FindingVisit(k: nat)
    requires FINDING.WellFormed() && k in {0, 1, 3, 4, 6}
    ensures var w := FindingWalk();
      IsClear(FINDING, w[k].next.value) && Visit(FINDING, Guard(0, true), w[k]) == w[k + 1]
  {
    hide FINDING.WellFormed;
    assert BlockStarts(FINDING.At(FindingWalk()[k].next.value), Guard(0, true), FindingWalk()[k].checked)
        == FindingWalk()[k + 1].toCheck;
  }

  lemma FindingPop(k: nat)
    requires k in {2, 5, 7}
    ensures var w := FindingWalk(); exists q :: q in w[k].toCheck && Pop(w[k], q) == w[k + 1]
  {
    var q := if k == 2 then Pos(3, 0) else if k == 5 then Pos(5, 0) else Pos(6, 0);
    assert q in FindingWalk()[k].toCheck && Pop(FindingWalk()[k], q) == FindingWalk()[k + 1];
  }

  /** The search returns true: behind the guard, along fall-through, jump and switch, a conflict is met. */
  lemma ConflictIsFound()
    ensures FINDING.WellFormed() && FINDING.SitesComplete() && FINDING.Acyclic([0]) && FINDING.HasEnding()
    ensures IsWalk(FINDING, GuardingCompare(FINDING, 1), Pos(1, 1), FindingWalk())
    ensures Last(FindingWalk()).next == Some(Pos(6, 0)) && Last(FindingWalk()).toCheck == {}
    ensures FINDING.At(Pos(6, 0)) == Call(None, ConflictingMpi)
  {
    FindingIsWellFormed();
    FindingCalls();
    FindingGuard();
    hide Visit, IsClear, FINDING.WellFormed, FINDING.SitesComplete, FINDING.Acyclic, FINDING.HasEnding, Pop;
    forall k | 0 <= k < 8 ensures Step(FINDING, Guard(0, true), FindingWalk()[k], FindingWalk()[k + 1]) {
      if k in {2, 5, 7} {
        FindingPop(k);
      } else {
        FindingVisit(k);
      }
    }
  }

  // ---- the code ----

  datatype Verdict =
    | Conflict(at: Pos)         // returns true inside the loop
    | Stopped(at: Pos)          // returns false at a finalize or a scope ending
    | Exhausted                 // leaves the loop, where the code asserts false

  /** `next_block->getFirstNonPHI()` of every followed successor that is not already checked. */
  method AddSuccessors(prog: Program, guard: Guard, p: Pos, toCheck: set<Pos>, checked: set<nat>)
    returns (result: set<Pos>)
    requires prog.WellFormed() && prog.Has(p)
    ensures result == toCheck + BlockStarts(prog.At(p), guard, checked)
  {
    result := toCheck;
    var succs := Followed(prog.At(p), guard);
    for i := 0 to |succs|
      invariant result == toCheck + set t | t in succs[..i] && t !in checked :: Pos(t, 0)
    {
      if succs[i] !in checked {
        result := result + {Pos(succs[i], 0)};
      }
      assert succs[..i + 1] == succs[..i] + [succs[i]];
    }
    assert succs[..|succs|] == succs;
  }

  lemma {:induction false} ReturnPointsWeight(prog: Program, depth: seq<nat>, f: nat, n: nat, s: set<Pos>)
    requires prog.WellFormed() && prog.Acyclic(depth) && f < |prog.callSites| && n <= |prog.callSites[f]|
    ensures PendingWeight(prog, depth, s + ReturnPoints(prog.callSites[f][..n]))
         <= PendingWeight(prog, depth, s) + CallersWeight(prog, depth, f, n)
  {
    hide PendingWeight, FuncWeight;
    var sites := prog.callSites[f];
    if n == 0 {
      assert s + ReturnPoints(sites[..0]) == s;
    } else {
      ReturnPointsWeight(prog, depth, f, n - 1, s);
      var p := sites[n - 1].Next();
      assert sites[..n] == sites[..n - 1] + [sites[n - 1]];
      assert s + ReturnPoints(sites[..n]) == s + ReturnPoints(sites[..n - 1]) + {p};
      PendingInsert(prog, depth, s + ReturnPoints(sites[..n - 1]), p);
    }
  }

  /** The instruction after every call of the returning function, already checked or not. */
  method AddReturnPoints(prog: Program, p: Pos, toCheck: set<Pos>) returns (result: set<Pos>)
    requires prog.WellFormed() && prog.Has(p)
    ensures result == toCheck + ReturnPoints(prog.callSites[prog.Func(p)])
  {
    result := toCheck;
    var sites := prog.callSites[prog.Func(p)];
    for i := 0 to |sites|
      invariant result == toCheck + ReturnPoints(sites[..i])
    {
      result := result + {sites[i].Next()};
      assert sites[..i + 1] == sites[..i] + [sites[i]];
    }
    assert sites[..|sites|] == sites;
  }

  lemma {:induction false} BlockStartsWeightless(prog: Program, depth: seq<nat>, s: set<Pos>, starts: set<Pos>)
    requires prog.WellFormed() && prog.Acyclic(depth) && forall q | q in starts :: q.idx == 0
    ensures PendingWeight(prog, depth, s + starts) <= PendingWeight(prog, depth, s)
    decreases |starts|
  {
    if starts == {} {
      assert s + starts == s;
    } else {
      var q :| q in starts;
      BlockStartsWeightless(prog, depth, s, starts - {q});
      PendingInsert(prog, depth, s + (starts - {q}), q);
      assert s + (starts - {q}) + {q} == s + starts;
    }
  }

  /** One iteration's worth of successors: where the walk goes on, and what is pending afterwards. */
  method Expand(prog: Program, guard: Guard, p: Pos, toCheck: set<Pos>, checked: set<nat>, ghost depth: seq<nat>)
    returns (next: Option<Pos>, result: set<Pos>)
    requires prog.WellFormed() && prog.Acyclic(depth) && prog.Has(p)
    ensures next == Onward(prog, p) && result == toCheck + Added(prog, guard, p, checked)
    ensures next.Some? ==> next.value == p.Next() && prog.Has(p.Next()) && result == toCheck
    ensures Enterable(prog, result, checked) <= Enterable(prog, toCheck, checked)
    ensures next == None ==>
      PendingWeight(prog, depth, result) <= PendingWeight(prog, depth, toCheck) + CurrentWeight(prog, depth, Some(p))
  {
    hide PendingWeight, prog.Acyclic;
    var inst := prog.At(p);
    result, next := toCheck, None;
    if inst.Return? {
      result := AddReturnPoints(prog, p, toCheck);
      var sites := prog.callSites[prog.Func(p)];
      ReturnPointsWeight(prog, depth, prog.Func(p), |sites|, toCheck);
      assert sites[..|sites|] == sites;
    } else if inst.IsTerminator() {
      result := AddSuccessors(prog, guard, p, toCheck, checked);
      BlockStartsWeightless(prog, depth, toCheck, BlockStarts(inst, guard, checked));
    } else {
      assert BlockStarts(inst, guard, checked) == {};
      if !prog.At(p.Next()).Unreachable? {
        next := Some(p.Next());
      }
    }
  }

  /** Taking a position from the worklist lowers one of the first two components of the measure. */
  lemma PopDecreases(prog: Program, depth: seq<nat>, toCheck: set<Pos>, checked: set<nat>, q: Pos)
    requires prog.WellFormed() && prog.Acyclic(depth) && q in toCheck && prog.Has(q)
    ensures var rest, checked' := toCheck - {q}, checked + {q.block};
      && Enterable(prog, rest, checked') <= Enterable(prog, toCheck, checked)
      && (Enterable(prog, rest, checked') < Enterable(prog, toCheck, checked)
          || PendingWeight(prog, depth, rest) + CurrentWeight(prog, depth, Some(q))
             < PendingWeight(prog, depth, toCheck))
  {
    PendingWithout(prog, depth, toCheck, q);
    hide PendingWeight;
    if q.idx == 0 {
      assert q.block in Enterable(prog, toCheck, checked);
      assert q.block !in Enterable(prog, toCheck - {q}, checked + {q.block});
    }
  }

  lemma NothingPending(prog: Program, depth: seq<nat>)
    requires prog.WellFormed() && prog.Acyclic(depth)
    ensures PendingWeight(prog, depth, {}) == 0
  {}

  /**
    `check_call_for_conflict`. It ends on every program without recursion. Its run is a walk: if it
    returns true inside its loop, the walk is at a conflict, if it returns false, at a finalize or a
    scope ending, and otherwise it has run out of work. What it has visited is clear, and a clear path of
    followed edges leads from the init call to where it is.
   */
  method CheckCallForConflict(prog: Program, call: Pos, ghost depth: seq<nat>)
    returns (v: Verdict, ghost ws: seq<Walk>)
    requires prog.WellFormed() && prog.SitesComplete() && prog.Acyclic(depth) && prog.HasEnding()
    requires prog.Has(call) && prog.At(call).Call?
    ensures IsWalk(prog, GuardingCompare(prog, call.block), call.Next(), ws)
    ensures Last(ws).next == if v.Exhausted? then None else Some(v.at)
    ensures v.Exhausted? ==> Last(ws).toCheck == {}
    ensures !v.Exhausted? ==> prog.Has(v.at) && Reaches(prog, GuardingCompare(prog, call.block), call.Next(), v.at)
    ensures v.Conflict? ==> prog.At(v.at).Call? && prog.At(v.at).class_ in {ConflictingMpi, MayConflict, Unknown}
    ensures v.Stopped? ==> prog.At(v.at).Call? && prog.At(v.at).class_ in {Finalize, ScopeEnding}
  {
    hide Reaches, PendingWeight, prog.Acyclic, prog.SitesComplete, prog.HasEnding, Enterable, IsWalk, Onward, Added;
    var guard := GuardingCompare(prog, call.block);
    var start := call.Next();
    NothingPending(prog, depth);
    var next, toCheck: set<Pos>, checked: set<nat> := Some(start), {}, {};
    ghost var visited: set<Pos> := {};
    ws := [Begin(start)];
    OneState(prog, guard, start);
    while next.Some?
      invariant ws != [] && IsWalk(prog, guard, start, ws) && Last(ws) == Walk(next, toCheck, checked, visited)
      invariant next == None ==> toCheck == {}
      decreases Enterable(prog, toCheck, checked),
                PendingWeight(prog, depth, toCheck) + CurrentWeight(prog, depth, next),
                Left(prog, next)
    {
      var p := next.value;
      WalkReaches(prog, guard, start, ws);
      match prog.At(p) {
        case Call(_, class_) =>
          if class_.Finalize? || class_.ScopeEnding? {
            return Stopped(p), ws;
          } else if class_.ConflictingMpi? || class_.MayConflict? || class_.Unknown? {
            return Conflict(p), ws;
          }
        case _ =>
      }
      next, toCheck := Expand(prog, guard, p, toCheck, checked, depth);
      visited := visited + {p};
      WalkOn(prog, guard, start, ws, Walk(next, toCheck, checked, visited));
      ws := ws + [Walk(next, toCheck, checked, visited)];
      if next == None && toCheck != {} {
        var q :| q in toCheck;
        PendingHas(prog, guard, start, ws, q);
        PopDecreases(prog, depth, toCheck, checked, q);
        WalkOn(prog, guard, start, ws, Pop(Last(ws), q));
        ws := ws + [Pop(Last(ws), q)];
        toCheck := toCheck - {q};
        checked := checked + {q.block};
        next := Some(q);
      }
    }
    v := Exhausted;
  }
}
