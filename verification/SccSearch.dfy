/** The invariant of the executor's search for strongly connected components, and what each step of
    the search does to it. Everything here is about values: the instance space, the stack and the
    log of executed instances. */
module SccSearch {
  import opened State
  import opened Sequences
  import opened Traces
  import opened DepGraph
  import opened Options
  import opened EpaxosTypes

  // ---------------------------------------------------------------- agreement with the graph

  /** The committed instances of a replica carry the attributes that g gives them. */
  ghost predicate Agrees(g: Graph, t: Times, n: nat, space: Space) {
    forall id :: id in space ==>
      && id in t && t[id] == space[id].proposeTime
      && (Decided(space[id]) && space[id].cmds.Some? ==>
            id in g && g[id] == AttrsOf(space[id]) && |space[id].deps| == n && AllWellFormed(g[id].cmds))
  }

  /** Only Status, Index and Lowlink differ, and a status only moves from COMMITTED to EXECUTED. */
  ghost predicate SearchFrame(before: Space, after: Space) {
    && before.Keys == after.Keys
    && forall id :: id in before ==> SameInstance(before[id], after[id])
  }

  ghost predicate SameInstance(a: Instance, b: Instance) {
    && b == a.(status := b.status, index := b.index, lowlink := b.lowlink)
    && (a.status == b.status || (a.status == COMMITTED && b.status == EXECUTED))
  }

  lemma AgreesFrame(g: Graph, t: Times, n: nat, before: Space, after: Space)
    requires Agrees(g, t, n, before) && SearchFrame(before, after)
    ensures Agrees(g, t, n, after)
  {
    forall id | id in after
      ensures id in t && t[id] == after[id].proposeTime
      ensures Decided(after[id]) && after[id].cmds.Some? ==>
              id in g && g[id] == AttrsOf(after[id]) && |after[id].deps| == n && AllWellFormed(g[id].cmds)
    {
      assert SameInstance(before[id], after[id]);
    }
  }

  // ---------------------------------------------------------------- the invariant

  ghost predicate OnStack(space: Space, stack: seq<Id>, next: int) {
    && Distinct(stack)
    && (forall i :: 0 <= i < |stack| ==> stack[i] in space && space[stack[i]].status == COMMITTED
                                         && 1 <= space[stack[i]].index < next)
    && (forall i, j :: 0 <= i < j < |stack| ==> space[stack[i]].index < space[stack[j]].index)
    && (forall id :: id in space && space[id].index != 0 && space[id].status != EXECUTED ==> id in stack)
  }

  ghost predicate LogIsExecuted(space: Space, log: seq<Id>) {
    && (forall id :: id in log ==> id in space && space[id].cmds.Some?)
    && forall id :: id in space ==> (space[id].status == EXECUTED <==> id in log)
  }

  /** What stays true even when the search gives up. */
  ghost predicate Stable(g: Graph, t: Times, n: nat, space: Space, stack: seq<Id>, log: seq<Id>, next: int) {
    && Agrees(g, t, n, space)
    && OnStack(space, stack, next)
    && LogIsExecuted(space, log)
    && ValidLog(g, t, log)
    && next >= 1
  }

  /** The gray instances are the ones whose strongconnect is still running. */
  ghost predicate FinishedEdges(g: Graph, stack: seq<Id>, log: seq<Id>, gray: set<Id>) {
    forall x, y :: x in stack && x !in gray && Edge(g, x, y) ==> y in stack || y in log
  }

  ghost predicate GrayReachesUp(g: Graph, stack: seq<Id>, gray: set<Id>) {
    forall i, j :: 0 <= i <= j < |stack| && stack[i] in gray ==> Reach(g, stack[i], stack[j])
  }

  ghost predicate ReachesGray(g: Graph, stack: seq<Id>, gray: set<Id>, j: nat)
    requires j < |stack|
  {
    exists i :: 0 <= i <= j && stack[i] in gray && Reach(g, stack[j], stack[i])
  }

  ghost predicate AllReachGray(g: Graph, stack: seq<Id>, gray: set<Id>) {
    forall j :: 0 <= j < |stack| ==> ReachesGray(g, stack, gray, j)
  }

  ghost predicate Tree(g: Graph, stack: seq<Id>, log: seq<Id>, gray: set<Id>) {
    && (forall x :: x in gray ==> x in stack)
    && FinishedEdges(g, stack, log, gray)
    && GrayReachesUp(g, stack, gray)
    && AllReachGray(g, stack, gray)
  }

  // ---------------------------------------------------------------- the tree of gray instances

  /** Starting strongconnect on an instance that every gray instance reaches. */
  lemma PushTree(g: Graph, stack: seq<Id>, log: seq<Id>, gray: set<Id>, v: Id)
    requires Tree(g, stack, log, gray) && v !in stack
    requires forall x :: x in gray ==> Reach(g, x, v)
    ensures Tree(g, stack + [v], log, gray + {v})
  {
    var stack', gray' := stack + [v], gray + {v};
    ReachRefl(g, v);
    forall i, j | 0 <= i <= j < |stack'| && stack'[i] in gray' ensures Reach(g, stack'[i], stack'[j]) {
      if j < |stack| {
        assert Reach(g, stack[i], stack[j]);
      }
    }
    forall j | 0 <= j < |stack'| ensures ReachesGray(g, stack', gray', j) {
      if j < |stack| {
        assert ReachesGray(g, stack, gray, j);
        var i :| 0 <= i <= j && stack[i] in gray && Reach(g, stack[j], stack[i]);
        assert stack'[i] in gray' && Reach(g, stack'[j], stack'[i]);
      } else {
        assert stack'[j] in gray' && Reach(g, stack'[j], stack'[j]);
      }
    }
  }

  /** Where v stands on the stack while its strongconnect runs. */
  ghost predicate Rooted(stack0: seq<Id>, stack: seq<Id>, gray: set<Id>, v: Id) {
    && Distinct(stack)
    && stack0 + [v] <= stack
    && (forall x :: x in gray ==> x in stack0)
  }

  ghost predicate EdgesStay(g: Graph, x: Id, stack: seq<Id>, log: seq<Id>) {
    forall y :: Edge(g, x, y) ==> y in stack || y in log
  }

  /** strongconnect of v ends, and v reaches an older instance of the stack: v stays on the stack. */
  lemma FinishTree(g: Graph, stack0: seq<Id>, stack: seq<Id>, log: seq<Id>, gray: set<Id>, v: Id, k: nat)
    requires Rooted(stack0, stack, gray, v) && Tree(g, stack, log, gray + {v})
    requires EdgesStay(g, v, stack, log)
    requires k < |stack0| && Reach(g, v, stack0[k])
    ensures Tree(g, stack, log, gray)
  {
    assert stack[|stack0|] == v;
    assert forall i :: 0 <= i < |stack0| ==> stack[i] == stack0[i];
    forall j | 0 <= j < |stack| ensures ReachesGray(g, stack, gray, j) {
      assert ReachesGray(g, stack, gray + {v}, j);
      var i :| 0 <= i <= j && stack[i] in gray + {v} && Reach(g, stack[j], stack[i]);
      if stack[i] !in gray {
        assert i == |stack0|;
        assert ReachesGray(g, stack, gray + {v}, k);
        var i' :| 0 <= i' <= k && stack[i'] in gray + {v} && Reach(g, stack[k], stack[i']);
        ReachTrans(g, v, stack[k], stack[i']);
        ReachTrans(g, stack[j], v, stack[i']);
        assert stack[i'] in gray;
      }
    }
  }

  /** strongconnect of v ends, and nothing from v upwards has an edge to an older instance of the
      stack: what stands from v upwards is one whole component. */
  lemma PopTree(g: Graph, stack0: seq<Id>, stack: seq<Id>, log: seq<Id>, gray: set<Id>, v: Id)
    requires Rooted(stack0, stack, gray, v) && Tree(g, stack, log, gray + {v})
    requires EdgesStay(g, v, stack, log) && Closed(g, Elems(log))
    requires forall x :: x in stack ==> x in g && x !in log
    requires forall x, y :: x in stack[|stack0|..] && Edge(g, x, y) ==> y !in stack0
    ensures NextComponent(g, log, stack[|stack0|..])
    ensures Tree(g, stack0, log + stack[|stack0|..], gray)
  {
    var block := stack[|stack0|..];
    assert stack == stack0 + block && block[0] == v;
    assert forall i :: 0 <= i < |block| ==> block[i] == stack[|stack0| + i];
    BlockClosed(g, stack0, stack, log, gray, v);
    forall y | y in block ensures Reach(g, v, y) && Reach(g, y, v) {
      var j :| 0 <= j < |block| && block[j] == y;
      assert stack[|stack0|] in gray + {v};
      BlockReachesRoot(g, stack0, stack, log, gray, v, |stack0| + j);
    }
    forall x, y | x in block && y in block ensures Reach(g, x, y) {
      ReachTrans(g, x, v, y);
    }
    TreePrefix(g, stack0, stack, log, gray, v);
  }

  lemma BlockClosed(g: Graph, stack0: seq<Id>, stack: seq<Id>, log: seq<Id>, gray: set<Id>, v: Id)
    requires Rooted(stack0, stack, gray, v) && FinishedEdges(g, stack, log, gray + {v})
    requires EdgesStay(g, v, stack, log) && Closed(g, Elems(log))
    requires forall x :: x in stack ==> x in g
    requires forall x, y :: x in stack[|stack0|..] && Edge(g, x, y) ==> y !in stack0
    ensures Closed(g, Elems(log) + Elems(stack[|stack0|..]))
  {
    var block := stack[|stack0|..];
    assert stack == stack0 + block;
    forall x, y | x in block && Edge(g, x, y) ensures y in Elems(log) + Elems(block) {
      assert x in stack;
      if x != v {
        var i :| 0 <= i < |block| && block[i] == x;
        assert stack[|stack0| + i] == x && stack[|stack0|] == v;
        assert x !in stack0 by {
          assert forall j :: 0 <= j < |stack0| ==> stack[j] == stack0[j];
        }
      }
    }
  }

  lemma BlockReachesRoot(g: Graph, stack0: seq<Id>, stack: seq<Id>, log: seq<Id>, gray: set<Id>, v: Id, j: nat)
    requires Rooted(stack0, stack, gray, v) && AllReachGray(g, stack, gray + {v})
    requires Closed(g, Elems(log) + Elems(stack[|stack0|..]))
    requires forall x :: x in stack ==> x !in log
    requires |stack0| <= j < |stack|
    ensures Reach(g, stack[j], v)
  {
    var block := stack[|stack0|..];
    assert ReachesGray(g, stack, gray + {v}, j);
    var i :| 0 <= i <= j && stack[i] in gray + {v} && Reach(g, stack[j], stack[i]);
    assert stack[j] == block[j - |stack0|];
    ClosedReach(g, Elems(log) + Elems(block), stack[j], stack[i]);
    assert stack[i] in stack && stack[i] in block;
    var m :| 0 <= m < |block| && block[m] == stack[i];
    assert stack[|stack0| + m] == stack[i];
    assert stack[i] !in gray by {
      assert forall a :: 0 <= a < |stack0| ==> stack[a] == stack0[a];
    }
  }

  lemma TreePrefix(g: Graph, stack0: seq<Id>, stack: seq<Id>, log: seq<Id>, gray: set<Id>, v: Id)
    requires Rooted(stack0, stack, gray, v) && Tree(g, stack, log, gray + {v})
    ensures Tree(g, stack0, log + stack[|stack0|..], gray)
  {
    var block := stack[|stack0|..];
    assert stack == stack0 + block && stack[|stack0|] == v;
    assert forall i :: 0 <= i < |stack0| ==> stack[i] == stack0[i];
    forall j | 0 <= j < |stack0| ensures ReachesGray(g, stack0, gray, j) {
      assert ReachesGray(g, stack, gray + {v}, j);
      var i :| 0 <= i <= j && stack[i] in gray + {v} && Reach(g, stack[j], stack[i]);
      assert stack0[i] in gray && Reach(g, stack0[j], stack0[i]);
    }
  }

  // ---------------------------------------------------------------- the fields the search writes

  function Visit(space: Space, v: Id, next: int): Space
    requires v in space
  {
    space[v := space[v].(index := next, lowlink := next)]
  }

  function SetLow(space: Space, v: Id, low: int): Space
    requires v in space
  {
    space[v := space[v].(lowlink := low)]
  }

  function MarkExecuted(space: Space, block: seq<Id>): Space {
    map id | id in space :: if id in block then space[id].(status := EXECUTED) else space[id]
  }

  lemma VisitStable(g: Graph, t: Times, n: nat, space: Space, stack: seq<Id>, log: seq<Id>, next: int, v: Id)
    requires Stable(g, t, n, space, stack, log, next)
    requires v in space && space[v].status == COMMITTED && space[v].index == 0
    ensures v !in stack && v !in log
    ensures Stable(g, t, n, Visit(space, v, next), stack + [v], log, next + 1)
    ensures SearchFrame(space, Visit(space, v, next))
  {
    assert v !in stack by {
      assert forall i :: 0 <= i < |stack| ==> space[stack[i]].index >= 1;
    }
    AgreesFrame(g, t, n, space, Visit(space, v, next));
  }

  lemma SetLowStable(g: Graph, t: Times, n: nat, space: Space, stack: seq<Id>, log: seq<Id>, next: int, v: Id, low: int)
    requires Stable(g, t, n, space, stack, log, next) && v in space
    ensures Stable(g, t, n, SetLow(space, v, low), stack, log, next)
    ensures SearchFrame(space, SetLow(space, v, low))
  {
    AgreesFrame(g, t, n, space, SetLow(space, v, low));
  }

  /** Executing a whole component in sorted order and popping it. */
  lemma PopStable(g: Graph, t: Times, n: nat, space: Space, stack0: seq<Id>, block: seq<Id>, sorted: seq<Id>,
                  log: seq<Id>, next: int)
    requires Stable(g, t, n, space, stack0 + block, log, next)
    requires NextComponent(g, log, block) && SortedByLess(g, t, sorted)
    requires AllHaveCmds(space, stack0 + block)
    requires multiset(sorted) == multiset(block)
    ensures Stable(g, t, n, MarkExecuted(space, block), stack0, log + sorted, next)
    ensures SearchFrame(space, MarkExecuted(space, block))
  {
    SameMembers(sorted, block);
    AppendComponent(g, t, log, sorted);
    PopOnStack(space, stack0, block, log, sorted, next);
    AgreesFrame(g, t, n, space, MarkExecuted(space, block));
  }

  lemma PopOnStack(space: Space, stack0: seq<Id>, block: seq<Id>, log: seq<Id>, sorted: seq<Id>, next: int)
    requires OnStack(space, stack0 + block, next) && LogIsExecuted(space, log)
    requires AllHaveCmds(space, stack0 + block)
    requires forall x :: x in sorted <==> x in block
    ensures SearchFrame(space, MarkExecuted(space, block))
    ensures OnStack(MarkExecuted(space, block), stack0, next)
    ensures LogIsExecuted(MarkExecuted(space, block), log + sorted)
  {
    var stack := stack0 + block;
    assert forall i :: 0 <= i < |block| ==> stack[|stack0| + i] == block[i];
    assert forall i :: 0 <= i < |stack0| ==> stack[i] == stack0[i];
    assert forall x :: x in block ==> x in stack;
    assert forall x :: x in stack0 ==> x !in block;
  }

  lemma SameMembers(xs: seq<Id>, ys: seq<Id>)
    requires multiset(xs) == multiset(ys)
    ensures forall x :: x in xs <==> x in ys
    ensures Elems(xs) == Elems(ys)
    ensures Distinct(ys) ==> Distinct(xs)
  {
    forall x ensures x in xs <==> x in ys {
      assert x in xs <==> multiset(xs)[x] > 0;
      assert x in ys <==> multiset(ys)[x] > 0;
    }
    if Distinct(ys) {
      DistinctOnce(ys);
      forall i, j | 0 <= i < j < |xs| ensures xs[i] != xs[j] {
        assert xs == xs[..i] + [xs[i]] + xs[i + 1..j] + [xs[j]] + xs[j + 1..];
        assert multiset(xs)[xs[i]] <= 1;
      }
    }
  }

  lemma {:induction false} DistinctOnce(ys: seq<Id>)
    requires Distinct(ys)
    ensures forall y :: multiset(ys)[y] <= 1
  {
    if ys != [] {
      assert ys == [ys[0]] + ys[1..];
      DistinctOnce(ys[1..]);
      assert ys[0] !in multiset(ys[1..]);
    }
  }

  // ---------------------------------------------------------------- scanning the dependencies of v

  ghost predicate Bounded(g: Graph, space: Space, stack0: seq<Id>, xs: seq<Id>, low: int) {
    forall x, y :: x in xs && y in stack0 && y in space && Edge(g, x, y) ==> low <= space[y].index
  }

  /** lowlink is the index of v itself or of an older instance of the stack that v reaches. */
  ghost predicate LowSource(g: Graph, space: Space, stack0: seq<Id>, v: Id, low: int) {
    v in space
    && (low == space[v].index
        || (low < space[v].index && exists k :: PointsTo(g, space, stack0, v, low, k)))
  }

  ghost predicate PointsTo(g: Graph, space: Space, stack0: seq<Id>, v: Id, low: int, k: int) {
    0 <= k < |stack0| && stack0[k] in space && low == space[stack0[k]].index && Reach(g, v, stack0[k])
  }

  /** The part of v's dependency ranges that comes before instance i of column q. */
  ghost predicate Scanned(g: Graph, space: Space, stack0: seq<Id>, stack: seq<Id>, log: seq<Id>,
                          v: Id, low: int, q: int, i: int)
  {
    forall y :: Edge(g, v, y) && (y.replica < q || (y.replica == q && y.instance < i)) ==>
                  Accounted(space, stack0, stack, log, low, y)
  }

  ghost predicate Accounted(space: Space, stack0: seq<Id>, stack: seq<Id>, log: seq<Id>, low: int, y: Id) {
    y in log || (y in stack && (y in stack0 ==> y in space && low <= space[y].index))
  }

  ghost predicate Visiting(g: Graph, space: Space, stack0: seq<Id>, stack: seq<Id>, log: seq<Id>,
                           gray: set<Id>, v: Id, q: int, i: int)
  {
    && Rooted(stack0, stack, gray, v)
    && v in space
    && Tree(g, stack, log, gray + {v})
    && LowSource(g, space, stack0, v, space[v].lowlink)
    && Bounded(g, space, stack0, stack[|stack0| + 1..], space[v].lowlink)
    && Scanned(g, space, stack0, stack, log, v, space[v].lowlink, q, i)
  }

  ghost predicate AllHaveCmds(space: Space, stack: seq<Id>) {
    forall x :: x in stack ==> x in space && space[x].cmds.Some?
  }

  /** What a successful strongconnect on v has done. */
  ghost predicate Connected(g: Graph, space0: Space, stack0: seq<Id>, log0: seq<Id>,
                            space: Space, stack: seq<Id>, log: seq<Id>, gray: set<Id>, v: Id, next0: int)
  {
    && SearchFrame(space0, space)
    && stack0 <= stack && log0 <= log
    && Tree(g, stack, log, gray)
    && (forall x :: x in stack0 ==> x in space && x in space0 && space[x] == space0[x])
    && AllHaveCmds(space, stack)
    && v in space && space[v].index >= next0
    && (v in log || (v in stack && exists k :: PointsTo(g, space, stack0, v, space[v].lowlink, k)))
    && (v in log ==> stack == stack0 && space[v].lowlink == space[v].index)
    && Bounded(g, space, stack0, stack[|stack0|..], space[v].lowlink)
  }

  lemma StartVisit(g: Graph, space: Space, stack: seq<Id>, log: seq<Id>, gray: set<Id>, v: Id, next: int)
    requires v in space && v !in stack && Distinct(stack) && Tree(g, stack, log, gray)
    requires forall x :: x in gray ==> Reach(g, x, v)
    ensures Visiting(g, Visit(space, v, next), stack, stack + [v], log, gray, v, 0, 0)
  {
    PushTree(g, stack, log, gray, v);
    assert (stack + [v])[|stack| + 1..] == [];
  }

  /** An executed dependency needs nothing. */
  lemma ScanExecuted(g: Graph, space: Space, stack0: seq<Id>, stack: seq<Id>, log: seq<Id>,
                     gray: set<Id>, v: Id, w: Id)
    requires Visiting(g, space, stack0, stack, log, gray, v, w.replica, w.instance) && w in log
    ensures Visiting(g, space, stack0, stack, log, gray, v, w.replica, w.instance + 1)
  {
    forall y | Edge(g, v, y) && (y.replica < w.replica || (y.replica == w.replica && y.instance < w.instance + 1))
      ensures Accounted(space, stack0, stack, log, space[v].lowlink, y)
    {
      assert y.replica == w.replica && y.instance == w.instance ==> y == w;
    }
  }

  function Min(a: int, b: int): int {
    if a < b then a else b
  }

  /** A dependency that is on the stack lowers the lowlink to its index. */
  lemma ScanOnStack(g: Graph, space: Space, stack0: seq<Id>, stack: seq<Id>, log: seq<Id>,
                    gray: set<Id>, v: Id, w: Id, next: int)
    requires Visiting(g, space, stack0, stack, log, gray, v, w.replica, w.instance)
    requires OnStack(space, stack, next) && w in stack && Edge(g, v, w)
    ensures Visiting(g, SetLow(space, v, Min(space[v].lowlink, space[w].index)), stack0, stack, log, gray, v,
                     w.replica, w.instance + 1)
  {
    var low := Min(space[v].lowlink, space[w].index);
    var after := SetLow(space, v, low);
    ReachEdge(g, v, w);
    OlderIsBelow(space, stack0, stack, gray, v, w, next);
    assert LowSource(g, after, stack0, v, low) by {
      if space[w].index < space[v].lowlink {
        var k :| 0 <= k < |stack0| && stack0[k] == w;
        assert PointsTo(g, after, stack0, v, low, k);
      } else if space[v].lowlink < space[v].index {
        var k :| PointsTo(g, space, stack0, v, space[v].lowlink, k);
        assert PointsTo(g, after, stack0, v, low, k);
      }
    }
    LowerAccounted(g, space, stack0, stack, log, v, low, w.replica, w.instance);
    forall y | Edge(g, v, y) && (y.replica < w.replica || (y.replica == w.replica && y.instance < w.instance + 1))
      ensures Accounted(after, stack0, stack, log, low, y)
    {
      if y.replica == w.replica && y.instance == w.instance {
        assert y == w;
      } else {
        assert Accounted(after, stack0, stack, log, low, y);
      }
    }
  }

  /** An instance of the stack with a smaller index than v is older than v. */
  lemma OlderIsBelow(space: Space, stack0: seq<Id>, stack: seq<Id>, gray: set<Id>, v: Id, w: Id, next: int)
    requires Rooted(stack0, stack, gray, v) && OnStack(space, stack, next) && w in stack
    ensures v in space && w in space && (space[w].index < space[v].index ==> w in stack0)
    ensures w in stack0 ==> w != v
  {
    assert stack[|stack0|] == v;
    assert forall a :: 0 <= a < |stack0| ==> stack[a] == stack0[a];
    var j :| 0 <= j < |stack| && stack[j] == w;
    assert j < |stack0| || space[w].index >= space[v].index;
  }

  lemma LowerAccounted(g: Graph, space: Space, stack0: seq<Id>, stack: seq<Id>, log: seq<Id>,
                       v: Id, low: int, q: int, i: int)
    requires v in space && low <= space[v].lowlink
    requires Scanned(g, space, stack0, stack, log, v, space[v].lowlink, q, i)
    ensures Scanned(g, SetLow(space, v, low), stack0, stack, log, v, low, q, i)
  {
    forall y | Edge(g, v, y) && (y.replica < q || (y.replica == q && y.instance < i))
      ensures Accounted(SetLow(space, v, low), stack0, stack, log, low, y)
    {
      assert Accounted(space, stack0, stack, log, space[v].lowlink, y);
    }
  }

  // ---------------------------------------------------------------- after a recursive call

  /** The call for dependency w has returned: what was known about v is still known. */
  lemma ScanChild(g: Graph, spaceB: Space, stack0: seq<Id>, stackB: seq<Id>, logB: seq<Id>,
                  space: Space, stack: seq<Id>, log: seq<Id>, gray: set<Id>, v: Id, w: Id, nextB: int, next: int)
    requires Visiting(g, spaceB, stack0, stackB, logB, gray, v, w.replica, w.instance)
    requires OnStack(spaceB, stackB, nextB) && OnStack(space, stack, next)
    requires w !in stackB && Edge(g, v, w)
    requires Connected(g, spaceB, stackB, logB, space, stack, log, gray + {v}, w, nextB)
    ensures v in space && w in space
    ensures Visiting(g, SetLow(space, v, Min(space[v].lowlink, space[w].lowlink)), stack0, stack, log, gray, v,
                     w.replica, w.instance + 1)
  {
    RootedMembers(stack0, stackB, stack, gray, v);
    ChildLowSource(g, spaceB, stack0, stackB, space, stack, log, gray, v, w, nextB);
    ChildBounded(g, spaceB, stack0, stackB, space, stack, v, w);
    ChildScanned(g, spaceB, stack0, stackB, logB, space, stack, log, v, w);
  }

  lemma RootedMembers(stack0: seq<Id>, stackB: seq<Id>, stack: seq<Id>, gray: set<Id>, v: Id)
    requires Rooted(stack0, stackB, gray, v) && stackB <= stack && Distinct(stack)
    ensures v in stackB && Rooted(stack0, stack, gray, v)
    ensures forall x :: x in stack0 ==> x in stackB
  {
    assert stackB[|stack0|] == v;
    assert forall a :: 0 <= a < |stack0| ==> stackB[a] == stack0[a];
  }

  lemma ChildScanned(g: Graph, spaceB: Space, stack0: seq<Id>, stackB: seq<Id>, logB: seq<Id>,
                     space: Space, stack: seq<Id>, log: seq<Id>, v: Id, w: Id)
    requires v in spaceB && v in space && w in space && spaceB[v] == space[v]
    requires Scanned(g, spaceB, stack0, stackB, logB, v, spaceB[v].lowlink, w.replica, w.instance)
    requires stackB <= stack && logB <= log && w !in stackB && (w in log || w in stack)
    requires forall x :: x in stack0 ==> x in stackB && x in spaceB && x in space && space[x] == spaceB[x]
    ensures var low := Min(space[v].lowlink, space[w].lowlink);
            Scanned(g, SetLow(space, v, low), stack0, stack, log, v, low, w.replica, w.instance + 1)
  {
    var low := Min(space[v].lowlink, space[w].lowlink);
    forall y | Edge(g, v, y) && (y.replica < w.replica || (y.replica == w.replica && y.instance < w.instance + 1))
      ensures Accounted(SetLow(space, v, low), stack0, stack, log, low, y)
    {
      if y.replica == w.replica && y.instance == w.instance {
        assert y == w;
      } else {
        assert Accounted(spaceB, stack0, stackB, logB, spaceB[v].lowlink, y);
        assert y in logB ==> y in log;
        assert y in stackB ==> y in stack;
      }
    }
  }

  lemma ChildLowSource(g: Graph, spaceB: Space, stack0: seq<Id>, stackB: seq<Id>, space: Space, stack: seq<Id>,
                       log: seq<Id>, gray: set<Id>, v: Id, w: Id, nextB: int)
    requires Rooted(stack0, stackB, gray, v) && OnStack(spaceB, stackB, nextB)
    requires v in spaceB && LowSource(g, spaceB, stack0, v, spaceB[v].lowlink) && Edge(g, v, w)
    requires forall x :: x in stackB ==> x in spaceB && x in space && space[x] == spaceB[x]
    requires v in space && space[v] == spaceB[v] && space[v].index < nextB
    requires w in space && space[w].index >= nextB
    requires w in log ==> space[w].lowlink == space[w].index
    requires w in log || exists k :: PointsTo(g, space, stackB, w, space[w].lowlink, k)
    ensures var low := Min(space[v].lowlink, space[w].lowlink);
            LowSource(g, SetLow(space, v, low), stack0, v, low)
  {
    var low := Min(space[v].lowlink, space[w].lowlink);
    var after := SetLow(space, v, low);
    assert forall a :: 0 <= a < |stack0| ==> stackB[a] == stack0[a];
    if space[w].lowlink < space[v].lowlink {
      var k :| PointsTo(g, space, stackB, w, space[w].lowlink, k);
      OlderIsBelow(spaceB, stack0, stackB, gray, v, stackB[k], nextB);
      assert stackB[k] in stackB;
      var k' :| 0 <= k' < |stack0| && stack0[k'] == stackB[k];
      ReachEdge(g, v, w);
      ReachTrans(g, v, w, stackB[k]);
      assert PointsTo(g, after, stack0, v, low, k');
    } else if space[v].lowlink < space[v].index {
      var k :| PointsTo(g, spaceB, stack0, v, spaceB[v].lowlink, k);
      assert stackB[k] in stackB;
      assert PointsTo(g, after, stack0, v, low, k);
    }
  }

  lemma ChildBounded(g: Graph, spaceB: Space, stack0: seq<Id>, stackB: seq<Id>, space: Space, stack: seq<Id>,
                     v: Id, w: Id)
    requires stack0 + [v] <= stackB <= stack
    requires forall x :: x in stackB ==> x in spaceB && x in space && space[x] == spaceB[x]
    requires v in spaceB && v in space && w in space
    requires Bounded(g, spaceB, stack0, stackB[|stack0| + 1..], spaceB[v].lowlink)
    requires spaceB[v] == space[v]
    requires Bounded(g, space, stackB, stack[|stackB|..], space[w].lowlink)
    requires forall x :: x in stack0 ==> x in stackB
    ensures var low := Min(space[v].lowlink, space[w].lowlink);
            Bounded(g, SetLow(space, v, low), stack0, stack[|stack0| + 1..], low)
  {
    var low := Min(space[v].lowlink, space[w].lowlink);
    forall x, y | x in stack[|stack0| + 1..] && y in stack0 && y in space && Edge(g, x, y)
      ensures low <= SetLow(space, v, low)[y].index
    {
      var i :| |stack0| + 1 <= i < |stack| && stack[i] == x;
      if i < |stackB| {
        assert stackB[i] == x && stackB[|stack0| + 1..][i - (|stack0| + 1)] == x;
      } else {
        assert stack[|stackB|..][i - |stackB|] == x;
      }
    }
  }

  /** All dependencies of v are accounted for. */
  lemma ScannedAll(g: Graph, space: Space, stack0: seq<Id>, stack: seq<Id>, log: seq<Id>,
                   gray: set<Id>, v: Id, n: nat)
    requires Visiting(g, space, stack0, stack, log, gray, v, n, 0)
    requires v in g && |g[v].deps| == n
    requires forall x :: x in stack ==> x !in log
    ensures EdgesStay(g, v, stack, log)
    ensures Bounded(g, space, stack0, stack[|stack0|..], space[v].lowlink)
  {
    var low := space[v].lowlink;
    assert forall y :: Edge(g, v, y) ==> Accounted(space, stack0, stack, log, low, y);
    assert stack[|stack0|..] == [v] + stack[|stack0| + 1..];
    BoundedRoot(g, space, stack0, stack, log, v, low);
  }

  lemma BoundedRoot(g: Graph, space: Space, stack0: seq<Id>, stack: seq<Id>, log: seq<Id>, v: Id, low: int)
    requires stack0 + [v] <= stack && stack[|stack0|..] == [v] + stack[|stack0| + 1..]
    requires forall y :: Edge(g, v, y) ==> Accounted(space, stack0, stack, log, low, y)
    requires forall x :: x in stack ==> x !in log
    requires Bounded(g, space, stack0, stack[|stack0| + 1..], low)
    ensures Bounded(g, space, stack0, stack[|stack0|..], low)
  {
    forall y | y in stack0 && y in space && Edge(g, v, y) ensures low <= space[y].index {
      assert Accounted(space, stack0, stack, log, low, y);
      var a :| 0 <= a < |stack0| && stack0[a] == y;
      assert stack[a] == y;
    }
  }

  /** v keeps a lowlink below its index: it stays on the stack. */
  lemma StayOnStack(g: Graph, space0: Space, stack0: seq<Id>, log0: seq<Id>, space: Space, stack: seq<Id>,
                    log: seq<Id>, gray: set<Id>, v: Id, n: nat, next0: int)
    requires Visiting(g, space, stack0, stack, log, gray, v, n, 0)
    requires v in g && |g[v].deps| == n && space[v].lowlink != space[v].index && space[v].index >= next0
    requires SearchFrame(space0, space) && log0 <= log
    requires AllHaveCmds(space, stack) && forall x :: x in stack ==> x !in log
    requires forall x :: x in stack0 ==> x in space && x in space0 && space[x] == space0[x]
    ensures Connected(g, space0, stack0, log0, space, stack, log, gray, v, next0)
  {
    ScannedAll(g, space, stack0, stack, log, gray, v, n);
    var k :| PointsTo(g, space, stack0, v, space[v].lowlink, k);
    FinishTree(g, stack0, stack, log, gray, v, k);
    assert stack[|stack0|] == v;
  }

  /** v keeps the lowlink it started with: what stands from v upwards is a whole component. */
  lemma RootOfComponent(g: Graph, t: Times, space: Space, stack0: seq<Id>, stack: seq<Id>, log: seq<Id>,
                        gray: set<Id>, v: Id, n: nat, next: int)
    requires Visiting(g, space, stack0, stack, log, gray, v, n, 0)
    requires Stable(g, t, n, space, stack, log, next) && space[v].lowlink == space[v].index
    requires AllHaveCmds(space, stack)
    ensures NextComponent(g, log, stack[|stack0|..])
    ensures Tree(g, stack0, log + stack[|stack0|..], gray)
  {
    assert stack[|stack0|] == v;
    assert forall x :: x in stack ==> x in g && x !in log;
    ScannedAll(g, space, stack0, stack, log, gray, v, n);
    assert forall a :: 0 <= a < |stack0| ==> stack[a] == stack0[a];
    PopTree(g, stack0, stack, log, gray, v);
  }

  /** The state after the component of v was executed. */
  lemma PopConnected(g: Graph, space0: Space, stack0: seq<Id>, log0: seq<Id>, space: Space, stack: seq<Id>,
                     log: seq<Id>, sorted: seq<Id>, gray: set<Id>, v: Id, next0: int)
    requires stack0 + [v] <= stack && Distinct(stack)
    requires SearchFrame(space0, space) && log0 <= log
    requires SearchFrame(space, MarkExecuted(space, stack[|stack0|..]))
    requires forall x :: x in stack0 ==> x in space && x in space0 && space[x] == space0[x]
    requires Tree(g, stack0, log + stack[|stack0|..], gray)
    requires multiset(sorted) == multiset(stack[|stack0|..])
    requires v in space && space[v].index >= next0 && space[v].lowlink == space[v].index
    requires AllHaveCmds(space, stack) && forall x :: x in stack ==> x !in log
    ensures Connected(g, space0, stack0, log0, MarkExecuted(space, stack[|stack0|..]), stack0, log + sorted, gray, v, next0)
  {
    var block := stack[|stack0|..];
    SameMembers(sorted, block);
    assert stack == stack0 + block && block[0] == v;
    forall x | x in stack0 ensures x !in block {
      var i :| 0 <= i < |stack0| && stack0[i] == x;
      assert stack[i] == x;
      assert forall j :: 0 <= j < |block| ==> stack[|stack0| + j] == block[j];
    }
    FrameTrans(space0, space, MarkExecuted(space, block));
    assert Tree(g, stack0, log + sorted, gray);
  }

  lemma FrameTrans(a: Space, b: Space, c: Space)
    requires SearchFrame(a, b) && SearchFrame(b, c)
    ensures SearchFrame(a, c)
  {
    forall id | id in a ensures SameInstance(a[id], c[id]) {
      assert SameInstance(a[id], b[id]) && SameInstance(b[id], c[id]);
    }
  }

  /** Every gray instance reaches what the running one depends on. */
  lemma GrayReachesDep(g: Graph, stack0: seq<Id>, stack: seq<Id>, log: seq<Id>, gray: set<Id>, v: Id, w: Id)
    requires Rooted(stack0, stack, gray, v) && Tree(g, stack, log, gray + {v}) && Edge(g, v, w)
    ensures forall x :: x in gray + {v} ==> Reach(g, x, w)
  {
    assert stack[|stack0|] == v;
    ReachEdge(g, v, w);
    forall x | x in gray + {v} ensures Reach(g, x, w) {
      if x in gray {
        var i :| 0 <= i < |stack0| && stack0[i] == x;
        assert stack[i] == x;
        assert Reach(g, stack[i], stack[|stack0|]);
        ReachTrans(g, x, v, w);
      }
    }
  }

  /** The range of the next column starts after the instances that are known to be executed. */
  lemma SkipExecuted(g: Graph, space: Space, stack0: seq<Id>, stack: seq<Id>, log: seq<Id>,
                     gray: set<Id>, v: Id, q: nat, upTo: int)
    requires Visiting(g, space, stack0, stack, log, gray, v, q, 0)
    requires forall i :: 0 <= i <= upTo ==> Id(q, i) in log
    ensures Visiting(g, space, stack0, stack, log, gray, v, q, upTo + 1)
  {
    forall y | Edge(g, v, y) && (y.replica < q || (y.replica == q && y.instance < upTo + 1))
      ensures Accounted(space, stack0, stack, log, space[v].lowlink, y)
    {
      assert y.replica == q ==> y == Id(q, y.instance);
    }
  }

  /** The end of a range is the end of its column. */
  lemma NextColumn(g: Graph, space: Space, stack0: seq<Id>, stack: seq<Id>, log: seq<Id>,
                   gray: set<Id>, v: Id, q: nat, i: int)
    requires Visiting(g, space, stack0, stack, log, gray, v, q, i)
    requires v in g && q < |g[v].deps| && g[v].deps[q] < i
    ensures Visiting(g, space, stack0, stack, log, gray, v, q + 1, 0)
  {
  }

  /** A search starts with an empty stack. */
  lemma StartSearch(g: Graph, t: Times, n: nat, space: Space, log: seq<Id>)
    requires Agrees(g, t, n, space) && LogIsExecuted(space, log) && ValidLog(g, t, log) && AllUnvisited(space)
    ensures Stable(g, t, n, space, [], log, 1) && Tree(g, [], log, {})
  {
  }

  /** What the search leaves unexecuted has Index 0 again. */
  lemma ResetStable(g: Graph, t: Times, n: nat, space: Space, stack: seq<Id>, log: seq<Id>, next: int, after: Space)
    requires Stable(g, t, n, space, stack, log, next)
    requires after == ResetAll(space, stack)
    ensures SearchFrame(space, after) && Agrees(g, t, n, after) && LogIsExecuted(after, log) && ValidLog(g, t, log)
    ensures AllUnvisited(after)
  {
    AgreesFrame(g, t, n, space, after);
  }

  ghost predicate AllUnvisited(space: Space) {
    forall id :: id in space && space[id].status != EXECUTED ==> space[id].index == 0
  }

  function ResetAll(space: Space, stack: seq<Id>): Space {
    map id | id in space :: if id in stack then space[id].(index := 0) else space[id]
  }

  /** What stability says about one instance. */
  lemma StableAt(g: Graph, t: Times, n: nat, space: Space, stack: seq<Id>, log: seq<Id>, next: int, v: Id)
    requires Stable(g, t, n, space, stack, log, next) && v in space && space[v].cmds.Some?
    ensures space[v].status == EXECUTED ==> v in log
    ensures space[v].status == COMMITTED ==>
              v !in log && v in g && g[v] == AttrsOf(space[v]) && |g[v].deps| == n
  {
  }

  lemma StackNotExecuted(g: Graph, t: Times, n: nat, space: Space, stack: seq<Id>, log: seq<Id>, next: int)
    requires Stable(g, t, n, space, stack, log, next)
    ensures Distinct(stack)
    ensures forall x :: x in stack ==> x in space && space[x].status == COMMITTED && x !in log
  {
  }

  // ---------------------------------------------------------------- when the search gives up

  /** The search can pass an instance only when it is committed and its commands are known. */
  ghost predicate Ready(space: Space, w: Id) {
    w in space && Decided(space[w]) && space[w].cmds.Some?
  }

  /** Something that x depends on, at any distance, is not ready. */
  ghost predicate Blocked(g: Graph, space: Space, x: Id) {
    exists w :: Reach(g, x, w) && !Ready(space, w)
  }

  lemma BlockedSelf(g: Graph, space: Space, x: Id)
    requires !Ready(space, x)
    ensures Blocked(g, space, x)
  {
    ReachRefl(g, x);
  }

  lemma BlockedDep(g: Graph, space: Space, x: Id, y: Id)
    requires Edge(g, x, y) && Blocked(g, space, y)
    ensures Blocked(g, space, x)
  {
    var w :| Reach(g, y, w) && !Ready(space, w);
    ReachEdge(g, x, y);
    ReachTrans(g, x, y, w);
  }

  /** The search itself makes nothing ready or unready. */
  lemma BlockedFrame(g: Graph, before: Space, after: Space, x: Id)
    requires SearchFrame(before, after)
    ensures Blocked(g, before, x) <==> Blocked(g, after, x)
  {
    assert forall w :: Ready(before, w) <==> Ready(after, w) by {
      assert forall w :: w in before ==> SameInstance(before[w], after[w]);
    }
  }

  /** Nothing that was executed is blocked. */
  lemma ExecutedNotBlocked(g: Graph, t: Times, n: nat, space: Space, log: seq<Id>, x: Id)
    requires Agrees(g, t, n, space) && LogIsExecuted(space, log) && ValidLog(g, t, log)
    requires x in log
    ensures !Blocked(g, space, x)
  {
    forall w | Reach(g, x, w) ensures Ready(space, w) {
      assert x in Elems(log);
      ClosedReach(g, Elems(log), x, w);
    }
  }

  /** An instance that the executor need not come back to before something else is committed. */
  ghost predicate Settled(g: Graph, space: Space, log: seq<Id>, x: Id) {
    x in log || Blocked(g, space, x)
  }

  /** In column q, up to instance last and up to the first instance that is not ready, everything is
      executed or waits for something that is not ready. */
  ghost predicate ColumnSettled(g: Graph, space: Space, log: seq<Id>, q: nat, last: int) {
    forall i :: 0 <= i <= last ==> BehindGap(space, q, i) || Settled(g, space, log, Id(q, i))
  }

  ghost predicate BehindGap(space: Space, q: nat, i: nat) {
    exists j :: 0 <= j <= i && !Ready(space, Id(q, j))
  }

  lemma NotReady(space: Space, id: Id)
    requires id !in space || Rank(space[id].status) < Rank(COMMITTED) || space[id].cmds.None?
    ensures !Ready(space, id)
  {
  }

  lemma FrameRefl(space: Space)
    ensures SearchFrame(space, space)
  {
  }

  lemma SettledFrame(g: Graph, before: Space, after: Space, logB: seq<Id>, log: seq<Id>)
    requires SearchFrame(before, after) && logB <= log
    ensures forall x :: Settled(g, before, logB, x) ==> Settled(g, after, log, x)
    ensures forall x :: Blocked(g, before, x) == Blocked(g, after, x)
    ensures forall q, i {:trigger BehindGap(before, q, i)} {:trigger BehindGap(after, q, i)} ::
              BehindGap(before, q, i) == BehindGap(after, q, i)
  {
    assert forall w :: Ready(before, w) <==> Ready(after, w) by {
      assert forall w :: w in before ==> SameInstance(before[w], after[w]);
    }
    forall x ensures Blocked(g, before, x) == Blocked(g, after, x) {
      BlockedFrame(g, before, after, x);
    }
    assert forall x :: x in logB ==> x in log;
  }
}
