/** The EPaxos executor (epaxos/exec.go and executeCommands in epaxos/epaxos.go). */
module EpaxosExec {
  import opened State
  import opened Sequences
  import opened Traces
  import opened DepGraph
  import opened Options
  import opened EpaxosTypes
  import opened EpaxosReplica
  import opened SccSearch
  import opened Replay
  import Semantics

  /** nodeArray.Less, on the fields of the instances. */
  predicate NodeLess(space: Space, x: Id, y: Id)
    requires x in space && y in space
  {
    KeyLess(SortKey(space[x].seqno, x.replica, space[x].proposeTime), SortKey(space[y].seqno, y.replica, space[y].proposeTime))
  }

  ghost predicate NodesSorted(space: Space, list: seq<Id>)
    requires forall x :: x in list ==> x in space
  {
    forall i, j :: 0 <= i < j < |list| ==> !NodeLess(space, list[j], list[i])
  }

  /** sort.Sort(nodeArray(list)). */
  method SortNodes(space: Space, list: seq<Id>) returns (sorted: seq<Id>)
    requires forall x :: x in list ==> x in space
    ensures multiset(sorted) == multiset(list)
    ensures forall x :: x in sorted ==> x in space
    ensures NodesSorted(space, sorted)
  {
    sorted := [];
    for k := 0 to |list|
      invariant multiset(sorted) == multiset(list[..k])
      invariant forall x :: x in sorted ==> x in space
      invariant NodesSorted(space, sorted)
    {
      sorted := InsertNode(space, sorted, list[k]);
      assert list[..k + 1] == list[..k] + [list[k]];
    }
    assert list[..|list|] == list;
  }

  method InsertNode(space: Space, list: seq<Id>, x: Id) returns (longer: seq<Id>)
    requires x in space && forall y :: y in list ==> y in space
    requires NodesSorted(space, list)
    ensures multiset(longer) == multiset(list) + multiset{x}
    ensures forall y :: y in longer ==> y in space
    ensures NodesSorted(space, longer)
  {
    var k := |list|;
    while k > 0 && NodeLess(space, x, list[k - 1])
      invariant 0 <= k <= |list|
      invariant forall j :: k <= j < |list| ==> NodeLess(space, x, list[j])
    {
      k := k - 1;
    }
    assert list == list[..k] + list[k..];
    longer := list[..k] + [x] + list[k..];
    InsertedSorted(space, list, x, k);
  }

  lemma NotLessTrans(space: Space, x: Id, y: Id, z: Id)
    requires x in space && y in space && z in space
    requires !NodeLess(space, x, y) && !NodeLess(space, y, z)
    ensures !NodeLess(space, x, z)
  {
  }

  lemma InsertedSorted(space: Space, list: seq<Id>, x: Id, k: nat)
    requires x in space && (forall y :: y in list ==> y in space) && k <= |list|
    requires NodesSorted(space, list)
    requires forall j :: k <= j < |list| ==> NodeLess(space, x, list[j])
    requires k > 0 ==> !NodeLess(space, x, list[k - 1])
    ensures forall y :: y in list[..k] + [x] + list[k..] ==> y in space
    ensures NodesSorted(space, list[..k] + [x] + list[k..])
  {
    var longer := list[..k] + [x] + list[k..];
    forall j | 0 <= j < k ensures !NodeLess(space, x, list[j]) {
      if j < k - 1 {
        NotLessTrans(space, x, list[k - 1], list[j]);
      }
    }
    forall i, j | 0 <= i < j < |longer| ensures !NodeLess(space, longer[j], longer[i]) {
      var a := if i <= k then i else i - 1;
      var b := if j <= k then j else j - 1;
      assert i != k ==> longer[i] == list[a];
      assert j != k ==> longer[j] == list[b];
      assert i == k ==> NodeLess(space, x, list[b]);
    }
  }

  lemma SortedInGraph(g: Graph, t: Times, n: nat, space: Space, list: seq<Id>)
    requires Agrees(g, t, n, space)
    requires forall x :: x in list ==> x in space && Decided(space[x]) && space[x].cmds.Some?
    requires NodesSorted(space, list)
    ensures SortedByLess(g, t, list)
  {
    assert forall i :: 0 <= i < |list| ==> list[i] in list;
  }

  ghost function Unvisited(space: Space): set<Id> {
    set id | id in space && space[id].index == 0
  }

  lemma SetLowSame(space: Space, v: Id)
    requires v in space
    ensures SetLow(space, v, space[v].lowlink) == space
  {
  }

  lemma ExecutedIsInLog(space: Space, log: seq<Id>, id: Id)
    requires LogIsExecuted(space, log)
    ensures id in space && space[id].status == EXECUTED ==> id in log
  {
  }

  /** inStack never answers false where it is called. */
  lemma VisitedIsOnStack(g: Graph, t: Times, n: nat, space: Space, stack: seq<Id>, log: seq<Id>, next: int, w: Id)
    requires Stable(g, t, n, space, stack, log, next)
    requires w in space && space[w].status == COMMITTED && space[w].index != 0
    ensures w in stack
  {
  }

  lemma KeepsRoot(stack0: seq<Id>, stackB: seq<Id>, gray: set<Id>, v: Id)
    requires Rooted(stack0, stackB, gray, v)
    ensures v in stackB && v !in stack0
    ensures forall x :: x in stack0 ==> x in stackB
  {
    assert stackB[|stack0|] == v;
    assert forall k :: 0 <= k < |stack0| ==> stackB[k] == stack0[k];
  }

  lemma NoAnswers(id: Id, cmds: seq<Command>, vals: seq<Value>)
    requires |cmds| == |vals|
    ensures AnswersAll([], id, cmds, vals, false)
  {
  }

  lemma VisitCounts(g: Graph, t: Times, n: nat, space: Space, stack: seq<Id>, log: seq<Id>, v: Id, index: int)
    requires Stable(g, t, n, space, stack, log, index) && v in space && space[v].index == 0
    ensures Unvisited(Visit(space, v, index)) < Unvisited(space)
  {
    hide Agrees, OnStack, LogIsExecuted, ValidLog;
    assert v in Unvisited(space) && v !in Unvisited(Visit(space, v, index));
  }

  lemma VisitComplete(space: Space, v: Id, index: int, dreply: bool, replies: seq<ClientReply>, log: seq<Id>)
    requires v in space && RepliesComplete(space, dreply, replies, log)
    ensures RepliesComplete(Visit(space, v, index), dreply, replies, log)
  {
    hide RepliesComplete;
    FrameComplete(space, Visit(space, v, index), dreply, replies, log);
  }

  class Exec {
    const r: Replica
    var stack: seq<Id>
    /** The instances executed so far, in order. */
    ghost var log: seq<Id>
    /** The store the replica started with. */
    ghost const init: Store

    constructor (r: Replica)
      requires |r.ExecedUpTo| == r.N
      ensures this.r == r && stack == [] && log == [] && init == r.State.Store
    {
      this.r := r;
      stack, log := [], [];
      init := r.State.Store;
    }

    ghost predicate ExecedIsExecuted()
      reads this`log, r`ExecedUpTo
    {
      && |r.ExecedUpTo| == r.N
      && (forall q :: 0 <= q < r.N ==> -1 <= r.ExecedUpTo[q])
      && forall q, i :: 0 <= q < r.N && 0 <= i <= r.ExecedUpTo[q] ==> Id(q, i) in log
    }

    /** Execution so far is the replay of the log, and every waiting client has been answered once. */
    ghost predicate Replayed(g: Graph)
      reads this`log, r`clientReplies, r`InstanceSpace, r.State
    {
      ReplayOk(init, g, r.State.Store, r.clientReplies, log)
      && RepliesComplete(r.InstanceSpace, r.Dreply, r.clientReplies, log)
    }

    /** What holds between calls: the log is a valid execution order of the committed graph g and
        nothing that is not executed has been visited. */
    ghost predicate Valid(g: Graph, t: Times)
      reads this, r, r.State
    {
      && Agrees(g, t, r.N, r.InstanceSpace)
      && LogIsExecuted(r.InstanceSpace, log)
      && ValidLog(g, t, log)
      && AllUnvisited(r.InstanceSpace)
      && ExecedIsExecuted()
      && Replayed(g)
    }

    /** Executes the commands of one instance: all of them if a client waits, otherwise only PUTs. */
    method ExecuteInstance(id: Id)
      requires id in r.InstanceSpace && r.InstanceSpace[id].cmds.Some?
      requires AllWellFormed(r.InstanceSpace[id].cmds.value)
      modifies r.State, r`clientReplies
      ensures var cmds := r.InstanceSpace[id].cmds.value;
              var lb := r.InstanceSpace[id].lb;
              && r.State.Store == ApplyBatch(old(r.State.Store), cmds)
              && r.clientReplies == old(r.clientReplies)
                 + (if r.Dreply && lb.Some? && lb.value.clientProposals
                    then ClientReplies(id, cmds, ReplyBatch(old(r.State.Store), cmds), |cmds|) else [])
              && AnswersAll(r.clientReplies[|old(r.clientReplies)|..], id, cmds, ReplyBatch(old(r.State.Store), cmds),
                            r.Dreply && Waits(r.InstanceSpace[id]))
    {
      hide ReplyBatch, ScanFrom, Reply, Apply;
      var cmds := r.InstanceSpace[id].cmds.value;
      var lb := r.InstanceSpace[id].lb;
      var shouldRespond := r.Dreply && lb.Some? && lb.value.clientProposals;
      ghost var store0, replies0 := r.State.Store, r.clientReplies;
      ghost var vals := ReplyBatch(store0, cmds);
      for idx := 0 to |cmds|
        invariant r.State.Store == ApplyBatch(store0, cmds[..idx])
        invariant r.clientReplies == replies0 + (if shouldRespond then ClientReplies(id, cmds, vals, idx) else [])
      {
        Semantics.BatchStep(store0, cmds, idx);
        Semantics.ReplyAt(store0, cmds, idx);
        OnlyPutWrites(r.State.Store, cmds[idx]);
        if cmds[idx].op == NONE {
        } else if shouldRespond {
          var val := r.State.Execute(cmds[idx]);
          r.clientReplies := r.clientReplies + [ClientReply(id, idx, val)];
        } else if cmds[idx].op == PUT {
          var _ := r.State.Execute(cmds[idx]);
        }
      }
      assert cmds[..|cmds|] == cmds && vals[..|cmds|] == vals;
      ClientRepliesAnswerAll(id, cmds, vals, |cmds|);
      NoAnswers(id, cmds, vals);
    }

    /** Executes one sorted component and marks it. */
    method ExecuteComponent(ghost g: Graph, ghost t: Times, list: seq<Id>)
      requires Agrees(g, t, r.N, r.InstanceSpace) && Replayed(g) && Distinct(list)
      requires forall x :: x in list ==>
                 x in r.InstanceSpace && r.InstanceSpace[x].status == COMMITTED && r.InstanceSpace[x].cmds.Some?
                 && x !in log
      modifies r.State, r`clientReplies, r`InstanceSpace, this`log
      ensures r.InstanceSpace == MarkExecuted(old(r.InstanceSpace), list)
      ensures log == old(log) + list && Replayed(g)
    {
      hide ReplayOk, ApplyBatch, ReplyBatch, Conflict, RepliesComplete, AnswersAll;
      ghost var space0, log0 := r.InstanceSpace, log;
      assert MarkExecuted(space0, []) == space0;
      for k := 0 to |list|
        invariant r.InstanceSpace == MarkExecuted(space0, list[..k])
        invariant log == log0 + list[..k] && Replayed(g)
      {
        var w := list[k];
        assert w in list && w !in list[..k];
        assert list[..k + 1] == list[..k] + [w];
        assert r.InstanceSpace[w] == space0[w];
        ghost var store, replies := r.State.Store, r.clientReplies;
        ExecuteInstance(w);
        ReplayStep(init, g, store, replies, log, w, r.clientReplies[|replies|..]);
        CompleteStep(r.InstanceSpace, r.Dreply, replies, log, w, r.clientReplies[|replies|..],
                     ReplyBatch(store, r.InstanceSpace[w].cmds.value));
        assert r.clientReplies == replies + r.clientReplies[|replies|..];
        ghost var spaceB := r.InstanceSpace;
        r.InstanceSpace := r.InstanceSpace[w := r.InstanceSpace[w].(status := EXECUTED)];
        FrameComplete(spaceB, r.InstanceSpace, r.Dreply, r.clientReplies, log + [w]);
        log := log + [w];
      }
      assert list[..|list|] == list;
    }
  
    method InStack(w: Id) returns (found: bool)
      ensures found <==> w in stack
    {
      for k := 0 to |stack|
        invariant w !in stack[..k]
      {
        if stack[k] == w {
          return true;
        }
      }
      return false;
    }

    /** The state between two steps of the search inside strongconnect of v. */
    ghost predicate Searching(g: Graph, t: Times, gray: set<Id>, v: Id, space0: Space, stack0: seq<Id>,
                              log0: seq<Id>, next0: int, next: int)
      reads this, r, r.State
    {
      && Stable(g, t, r.N, r.InstanceSpace, stack, log, next)
      && SearchFrame(space0, r.InstanceSpace) && log0 <= log && next0 < next
      && (forall x :: x in stack0 ==> x in r.InstanceSpace && x in space0 && r.InstanceSpace[x] == space0[x])
      && v in r.InstanceSpace && r.InstanceSpace[v].index == next0
      && r.InstanceSpace[v].status == COMMITTED && r.InstanceSpace[v].cmds.Some?
      && AllHaveCmds(r.InstanceSpace, stack)
      && ExecedIsExecuted() && Replayed(g)
    }

    /** One call of strongconnect; index is passed by reference in the source. It returns false as
        soon as a dependency is unknown or not committed. */
    method StrongConnect(ghost g: Graph, ghost t: Times, ghost gray: set<Id>, v: Id, index: int)
      returns (ok: bool, next: int)
      requires Stable(g, t, r.N, r.InstanceSpace, stack, log, index)
      requires Tree(g, stack, log, gray) && AllHaveCmds(r.InstanceSpace, stack)
      requires v in r.InstanceSpace && r.InstanceSpace[v].status == COMMITTED && r.InstanceSpace[v].index == 0
      requires forall x :: x in gray ==> Reach(g, x, v)
      requires ExecedIsExecuted() && Replayed(g)
      modifies r.State, r`clientReplies, r`InstanceSpace, this`stack, this`log
      ensures Stable(g, t, r.N, r.InstanceSpace, stack, log, next)
      ensures ExecedIsExecuted() && Replayed(g)
      ensures SearchFrame(old(r.InstanceSpace), r.InstanceSpace) && old(log) <= log
      ensures ok ==> Connected(g, old(r.InstanceSpace), old(stack), old(log), r.InstanceSpace, stack, log, gray, v, index)
      ensures !ok ==> Blocked(g, r.InstanceSpace, v)
      ensures index < next
      ensures Unvisited(r.InstanceSpace) < Unvisited(old(r.InstanceSpace))
      decreases Unvisited(r.InstanceSpace), 0
    {
      hide Visiting, Stable, Unvisited, ValidLog, ReplayOk, RepliesComplete, Tree, LowSource, Bounded, Scanned, Agrees, OnStack, LogIsExecuted, Connected, Reach;
      ghost var space0, stack0, log0 := r.InstanceSpace, stack, log;
      var l := |stack|;
      StackNotExecuted(g, t, r.N, r.InstanceSpace, stack, log, index);
      VisitStable(g, t, r.N, r.InstanceSpace, stack, log, index, v);
      StartVisit(g, r.InstanceSpace, stack, log, gray, v, index);
      VisitCounts(g, t, r.N, r.InstanceSpace, stack, log, v, index);
      VisitComplete(r.InstanceSpace, v, index, r.Dreply, r.clientReplies, log);
      r.InstanceSpace := Visit(r.InstanceSpace, v, index);
      next := index + 1;
      stack := stack + [v];
      if r.InstanceSpace[v].cmds.None? {
        BlockedSelf(g, r.InstanceSpace, v);
        return false, next;
      }
      var q := 0;
      while q < r.N
        invariant q <= r.N
        invariant Searching(g, t, gray, v, space0, stack0, log0, index, next)
        invariant Visiting(g, r.InstanceSpace, stack0, stack, log, gray, v, q, 0)
        invariant Unvisited(r.InstanceSpace) < Unvisited(space0)
      {
        ok, next := ScanColumn(g, t, gray, v, q, next, space0, stack0, log0, index);
        if !ok {
          return;
        }
        q := q + 1;
      }
      ok := true;
      PopIfRoot(g, t, gray, v, next, space0, stack0, log0, index, l);
    }

    /** The inner loop of strongconnect: the instances of column q that v depends on. */
    method ScanColumn(ghost g: Graph, ghost t: Times, ghost gray: set<Id>, v: Id, q: nat, index: int,
                      ghost space0: Space, ghost stack0: seq<Id>, ghost log0: seq<Id>, ghost next0: int)
      returns (ok: bool, next: int)
      requires q < r.N
      requires Searching(g, t, gray, v, space0, stack0, log0, next0, index)
      requires Visiting(g, r.InstanceSpace, stack0, stack, log, gray, v, q, 0)
      modifies r.State, r`clientReplies, r`InstanceSpace, this`stack, this`log
      ensures Stable(g, t, r.N, r.InstanceSpace, stack, log, next)
      ensures ExecedIsExecuted() && Replayed(g)
      ensures SearchFrame(space0, r.InstanceSpace) && log0 <= log && next0 < next
      ensures Unvisited(r.InstanceSpace) <= Unvisited(old(r.InstanceSpace))
      ensures !ok ==> Blocked(g, r.InstanceSpace, v)
      ensures ok ==> Searching(g, t, gray, v, space0, stack0, log0, next0, next)
      ensures ok ==> Visiting(g, r.InstanceSpace, stack0, stack, log, gray, v, q + 1, 0)
      decreases Unvisited(r.InstanceSpace), 2
    {
      hide ValidLog, Tree, ReplayOk, RepliesComplete, LowSource, Bounded, Scanned, OnStack, Agrees, LogIsExecuted, SearchFrame;
      next := index;
      ghost var unvisited := Unvisited(r.InstanceSpace);
      StableAt(g, t, r.N, r.InstanceSpace, stack, log, next, v);
      SkipExecuted(g, r.InstanceSpace, stack0, stack, log, gray, v, q, r.ExecedUpTo[q]);
      var inst := r.InstanceSpace[v].deps[q];
      var i := r.ExecedUpTo[q] + 1;
      while i <= inst
        invariant 0 <= i
        invariant Searching(g, t, gray, v, space0, stack0, log0, next0, next)
        invariant Visiting(g, r.InstanceSpace, stack0, stack, log, gray, v, q, i)
        invariant Unvisited(r.InstanceSpace) <= unvisited
      {
        var w := Id(q, i);
        if w !in r.InstanceSpace || r.InstanceSpace[w].cmds.None? {
          BlockedSelf(g, r.InstanceSpace, w);
          BlockedDep(g, r.InstanceSpace, v, w);
          return false, next;
        }
        StableAt(g, t, r.N, r.InstanceSpace, stack, log, next, w);
        if r.InstanceSpace[w].status == EXECUTED {
          ScanExecuted(g, r.InstanceSpace, stack0, stack, log, gray, v, w);
        } else if r.InstanceSpace[w].status != COMMITTED {
          BlockedSelf(g, r.InstanceSpace, w);
          BlockedDep(g, r.InstanceSpace, v, w);
          return false, next;
        } else if r.InstanceSpace[w].index == 0 {
          ok, next := VisitDep(g, t, gray, v, w, next, space0, stack0, log0, next0);
          if !ok {
            return;
          }
        } else {
          KeepsRoot(stack0, stack, gray, v);
          VisitedIsOnStack(g, t, r.N, r.InstanceSpace, stack, log, next, w);
          var found := InStack(w);
          ScanOnStack(g, r.InstanceSpace, stack0, stack, log, gray, v, w, next);
          if found && r.InstanceSpace[w].index < r.InstanceSpace[v].lowlink {
            LowerLink(g, t, gray, v, r.InstanceSpace[w].index, next, space0, stack0, log0, next0);
          } else {
            SetLowSame(r.InstanceSpace, v);
          }
        }
        i := i + 1;
      }
      NextColumn(g, r.InstanceSpace, stack0, stack, log, gray, v, q, i);
      ok := true;
    }

    /** v.Lowlink = low. */
    method LowerLink(ghost g: Graph, ghost t: Times, ghost gray: set<Id>, v: Id, low: int, ghost next: int,
                     ghost space0: Space, ghost stack0: seq<Id>, ghost log0: seq<Id>, ghost next0: int)
      requires Searching(g, t, gray, v, space0, stack0, log0, next0, next) && v !in stack0
      modifies r`InstanceSpace
      ensures r.InstanceSpace == SetLow(old(r.InstanceSpace), v, low)
      ensures Searching(g, t, gray, v, space0, stack0, log0, next0, next)
      ensures Unvisited(r.InstanceSpace) == Unvisited(old(r.InstanceSpace))
    {
      SetLowStable(g, t, r.N, r.InstanceSpace, stack, log, next, v, low);
      FrameTrans(space0, r.InstanceSpace, SetLow(r.InstanceSpace, v, low));
      FrameComplete(r.InstanceSpace, SetLow(r.InstanceSpace, v, low), r.Dreply, r.clientReplies, log);
      r.InstanceSpace := SetLow(r.InstanceSpace, v, low);
    }

    /** The recursive call for a dependency that has not been visited. */
    method VisitDep(ghost g: Graph, ghost t: Times, ghost gray: set<Id>, v: Id, w: Id, index: int,
                    ghost space0: Space, ghost stack0: seq<Id>, ghost log0: seq<Id>, ghost next0: int)
      returns (ok: bool, next: int)
      requires Searching(g, t, gray, v, space0, stack0, log0, next0, index)
      requires Visiting(g, r.InstanceSpace, stack0, stack, log, gray, v, w.replica, w.instance)
      requires w in r.InstanceSpace && r.InstanceSpace[w].status == COMMITTED && r.InstanceSpace[w].index == 0
      requires Edge(g, v, w)
      modifies r.State, r`clientReplies, r`InstanceSpace, this`stack, this`log
      ensures Stable(g, t, r.N, r.InstanceSpace, stack, log, next)
      ensures ExecedIsExecuted() && Replayed(g)
      ensures SearchFrame(space0, r.InstanceSpace) && log0 <= log && next0 < next
      ensures Unvisited(r.InstanceSpace) <= Unvisited(old(r.InstanceSpace))
      ensures !ok ==> Blocked(g, r.InstanceSpace, v)
      ensures ok ==> Searching(g, t, gray, v, space0, stack0, log0, next0, next)
      ensures ok ==> Visiting(g, r.InstanceSpace, stack0, stack, log, gray, v, w.replica, w.instance + 1)
      decreases Unvisited(r.InstanceSpace), 1
    {
      hide ValidLog, Tree, ReplayOk, RepliesComplete, LogIsExecuted, LowSource, Bounded, Scanned, Agrees, Edge, Closed, Reach;
      ghost var spaceB, stackB, logB := r.InstanceSpace, stack, log;
      GrayReachesDep(g, stack0, stack, log, gray, v, w);
      ok, next := StrongConnect(g, t, gray + {v}, w, index);
      FrameTrans(space0, spaceB, r.InstanceSpace);
      if !ok {
        BlockedDep(g, r.InstanceSpace, v, w);
        return;
      }
      ScanChild(g, spaceB, stack0, stackB, logB, r.InstanceSpace, stack, log, gray, v, w, index, next);
      KeepsRoot(stack0, stackB, gray, v);
      if r.InstanceSpace[w].lowlink < r.InstanceSpace[v].lowlink {
        LowerLink(g, t, gray, v, r.InstanceSpace[w].lowlink, next, space0, stack0, log0, next0);
      } else {
        SetLowSame(r.InstanceSpace, v);
      }
    }

    /** The end of strongconnect: if v is the root of its component, execute and pop it. */
    method PopIfRoot(ghost g: Graph, ghost t: Times, ghost gray: set<Id>, v: Id, ghost next: int,
                     ghost space0: Space, ghost stack0: seq<Id>, ghost log0: seq<Id>, ghost next0: int, l: nat)
      requires l == |stack0|
      requires Searching(g, t, gray, v, space0, stack0, log0, next0, next)
      requires Visiting(g, r.InstanceSpace, stack0, stack, log, gray, v, r.N, 0)
      modifies r.State, r`clientReplies, r`InstanceSpace, this`stack, this`log
      ensures Stable(g, t, r.N, r.InstanceSpace, stack, log, next)
      ensures ExecedIsExecuted() && Replayed(g)
      ensures SearchFrame(space0, r.InstanceSpace) && log0 <= log
      ensures Connected(g, space0, stack0, log0, r.InstanceSpace, stack, log, gray, v, next0)
      ensures Unvisited(r.InstanceSpace) == Unvisited(old(r.InstanceSpace))
    {
      hide ValidLog, Tree, ReplayOk, RepliesComplete, LowSource, Bounded, Scanned, Closed, Reach, NextComponent, SortedByLess;
      hide LogIsExecuted, SearchFrame, OnStack, Agrees;
      ghost var spaceB, stackB, logB := r.InstanceSpace, stack, log;
      StableAt(g, t, r.N, r.InstanceSpace, stack, log, next, v);
      StackNotExecuted(g, t, r.N, r.InstanceSpace, stack, log, next);
      if r.InstanceSpace[v].lowlink == r.InstanceSpace[v].index {
        var list := stack[l..];
        assert stack == stack0 + list && stack[..l] == stack0;
        RootOfComponent(g, t, r.InstanceSpace, stack0, stack, log, gray, v, r.N, next);
        var sorted := ExecuteRoot(g, t, list, stack0, next);
        stack := stack[..l];
        PopConnected(g, space0, stack0, log0, spaceB, stackB, logB, sorted, gray, v, next0);
      } else {
        StayOnStack(g, space0, stack0, log0, r.InstanceSpace, stack, log, gray, v, r.N, next0);
      }
    }

    /** Sorts the component on top of the stack and executes it. */
    method ExecuteRoot(ghost g: Graph, ghost t: Times, list: seq<Id>, ghost stack0: seq<Id>, ghost next: int)
      returns (sorted: seq<Id>)
      requires Stable(g, t, r.N, r.InstanceSpace, stack0 + list, log, next)
      requires AllHaveCmds(r.InstanceSpace, stack0 + list) && NextComponent(g, log, list)
      requires Replayed(g)
      modifies r.State, r`clientReplies, r`InstanceSpace, this`log
      ensures multiset(sorted) == multiset(list)
      ensures r.InstanceSpace == MarkExecuted(old(r.InstanceSpace), list) && log == old(log) + sorted
      ensures Stable(g, t, r.N, r.InstanceSpace, stack0, log, next) && Replayed(g)
      ensures SearchFrame(old(r.InstanceSpace), r.InstanceSpace)
      ensures Unvisited(r.InstanceSpace) == Unvisited(old(r.InstanceSpace))
    {
      hide ValidLog, ReplayOk, RepliesComplete, SortedByLess, LogIsExecuted, SearchFrame, OnStack, Closed;
      ghost var spaceB := r.InstanceSpace;
      StackNotExecuted(g, t, r.N, r.InstanceSpace, stack0 + list, log, next);
      assert forall x :: x in list ==> x in stack0 + list;
      sorted := SortNodes(r.InstanceSpace, list);
      SameMembers(sorted, list);
      SortedInGraph(g, t, r.N, r.InstanceSpace, sorted);
      PopStable(g, t, r.N, r.InstanceSpace, stack0, list, sorted, log, next);
      ExecuteComponent(g, t, sorted);
      assert r.InstanceSpace == MarkExecuted(spaceB, list);
    }

    /** Index = 0 for what the search has left on the stack. */
    method ResetIndexes(ghost g: Graph, ghost t: Times, ghost next: int)
      requires Stable(g, t, r.N, r.InstanceSpace, stack, log, next)
      requires forall x :: x in stack ==> x in r.InstanceSpace
      requires ExecedIsExecuted() && Replayed(g)
      modifies r`InstanceSpace
      ensures Valid(g, t)
      ensures SearchFrame(old(r.InstanceSpace), r.InstanceSpace)
    {
      hide Stable, ReplayOk, RepliesComplete;
      ghost var space0 := r.InstanceSpace;
      assert ResetAll(space0, []) == space0;
      for j := 0 to |stack|
        invariant r.InstanceSpace == ResetAll(space0, stack[..j])
      {
        assert stack[j] in space0;
        r.InstanceSpace := r.InstanceSpace[stack[j] := r.InstanceSpace[stack[j]].(index := 0)];
        assert stack[..j + 1] == stack[..j] + [stack[j]];
      }
      assert stack[..|stack|] == stack;
      ResetStable(g, t, r.N, space0, stack, log, next, r.InstanceSpace);
      FrameComplete(space0, r.InstanceSpace, r.Dreply, r.clientReplies, log);
    }

    /** The search from one committed instance. */
    method FindSCC(ghost g: Graph, ghost t: Times, root: Id) returns (ok: bool)
      requires Valid(g, t)
      requires root in r.InstanceSpace && r.InstanceSpace[root].status == COMMITTED
      modifies r.State, r`clientReplies, r`InstanceSpace, this`stack, this`log
      ensures Valid(g, t)
      ensures SearchFrame(old(r.InstanceSpace), r.InstanceSpace) && old(log) <= log
      ensures ok <==> root in log
      ensures ok <==> !Blocked(g, old(r.InstanceSpace), root)
    {
      hide ValidLog, ReplayOk, RepliesComplete, Agrees, Tree, Blocked, SearchFrame, OnStack, LogIsExecuted;
      stack := [];
      ghost var space0 := r.InstanceSpace;
      StartSearch(g, t, r.N, r.InstanceSpace, log);
      var next;
      ok, next := StrongConnect(g, t, {}, root, 1);
      ghost var space1 := r.InstanceSpace;
      StackNotExecuted(g, t, r.N, r.InstanceSpace, stack, log, next);
      ResetIndexes(g, t, next);
      FrameTrans(space0, space1, r.InstanceSpace);
      BlockedFrame(g, space0, space1, root);
      BlockedFrame(g, space0, r.InstanceSpace, root);
      if root in log {
        ExecutedNotBlocked(g, t, r.N, r.InstanceSpace, log, root);
      }
    }

    /** Executes one instance and everything it depends on, if all of that is committed. */
    method ExecuteCommand(ghost g: Graph, ghost t: Times, id: Id) returns (ok: bool)
      requires Valid(g, t)
      modifies r.State, r`clientReplies, r`InstanceSpace, this`stack, this`log
      ensures Valid(g, t)
      ensures SearchFrame(old(r.InstanceSpace), r.InstanceSpace) && old(log) <= log
      ensures ok <==> id in log
      ensures ok <==> !Blocked(g, old(r.InstanceSpace), id)
    {
      hide ValidLog, ReplayOk, RepliesComplete, Agrees, Reach;
      if id !in r.InstanceSpace {
        BlockedSelf(g, r.InstanceSpace, id);
        return false;
      }
      if r.InstanceSpace[id].status == EXECUTED {
        ExecutedNotBlocked(g, t, r.N, r.InstanceSpace, log, id);
        return true;
      }
      if r.InstanceSpace[id].status != COMMITTED {
        BlockedSelf(g, r.InstanceSpace, id);
        return false;
      }
      ok := FindSCC(g, t, id);
    }

    /** One round of the endless loop of executeCommands over all columns. */
    method ExecuteCommands(ghost g: Graph, ghost t: Times) returns (executed: bool)
      requires Valid(g, t) && |r.crtInstance| == r.N
      modifies r.State, r`clientReplies, r`InstanceSpace, r`ExecedUpTo, this`stack, this`log
      ensures Valid(g, t)
      ensures SearchFrame(old(r.InstanceSpace), r.InstanceSpace) && old(log) <= log
      ensures r.Abs() == old(r.Abs()).(space := r.InstanceSpace)
      ensures forall q :: 0 <= q < r.N ==> ColumnSettled(g, r.InstanceSpace, log, q, r.crtInstance[q])
    {
      hide ValidLog, ReplayOk, RepliesComplete, Agrees, Blocked, LogIsExecuted, Ready, SearchFrame;
      FrameRefl(r.InstanceSpace);
      executed := false;
      var q := 0;
      while q < r.N
        invariant 0 <= q <= r.N
        invariant Valid(g, t) && |r.crtInstance| == r.N
        invariant SearchFrame(old(r.InstanceSpace), r.InstanceSpace) && old(log) <= log
        invariant forall c :: 0 <= c < q ==> ColumnSettled(g, r.InstanceSpace, log, c, r.crtInstance[c])
      {
        var inst := r.ExecedUpTo[q] + 1;
        while inst <= r.crtInstance[q]
          invariant Valid(g, t) && |r.crtInstance| == r.N && inst >= 0
          invariant SearchFrame(old(r.InstanceSpace), r.InstanceSpace) && old(log) <= log
          invariant forall c :: 0 <= c < q ==> ColumnSettled(g, r.InstanceSpace, log, c, r.crtInstance[c])
          invariant forall i :: 0 <= i < inst ==> Settled(g, r.InstanceSpace, log, Id(q, i))
        {
          var id := Id(q, inst);
          ghost var before, logB := r.InstanceSpace, log;
          if id in r.InstanceSpace && r.InstanceSpace[id].status == EXECUTED {
            ExecutedIsInLog(r.InstanceSpace, log, id);
            AdvanceExeced(g, t, id);
          } else if id !in r.InstanceSpace || Rank(r.InstanceSpace[id].status) < Rank(COMMITTED)
                    || r.InstanceSpace[id].cmds.None? {
            NotReady(r.InstanceSpace, id);
            break;
          } else {
            var ok := ExecuteCommand(g, t, id);
            FrameTrans(old(r.InstanceSpace), before, r.InstanceSpace);
            SettledFrame(g, before, r.InstanceSpace, logB, log);
            if ok {
              executed := true;
              AdvanceExeced(g, t, id);
            }
          }
          inst := inst + 1;
        }
        assert ColumnSettled(g, r.InstanceSpace, log, q, r.crtInstance[q]);
        q := q + 1;
      }
    }

    /** ExecedUpTo moves on when id is the next instance of its column. */
    method AdvanceExeced(ghost g: Graph, ghost t: Times, id: Id)
      requires Valid(g, t) && id in log && id.replica < r.N
      modifies r`ExecedUpTo
      ensures Valid(g, t)
      ensures r.ExecedUpTo == if id.instance == old(r.ExecedUpTo)[id.replica] + 1
                              then old(r.ExecedUpTo)[id.replica := id.instance] else old(r.ExecedUpTo)
    {
      hide ValidLog, ReplayOk, RepliesComplete, Agrees, LogIsExecuted;
      if id.instance == r.ExecedUpTo[id.replica] + 1 {
        r.ExecedUpTo := r.ExecedUpTo[id.replica := id.instance];
        assert forall i :: 0 <= i <= id.instance ==> Id(id.replica, i) in log;
      }
    }
  }
}
