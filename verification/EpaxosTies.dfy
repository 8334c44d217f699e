/** Why the order of interfering instances must not rest on clock readings: two valid executions of one
    committed graph, by replicas whose clocks differ, end in different stores. */
module EpaxosTies {
  import opened State
  import opened Sequences
  import opened Traces
  import opened DepGraph
  import opened EpaxosTypes
  import opened EpaxosVotes
  import opened EpaxosTheorems

  const X := Id(0, 0)
  const Y := Id(0, 1)
  const Z := Id(1, 0)

  /** Replica 0 proposes two PUTs on a key while replica 1 proposes a GET of it. Replica 1 has seen the GET
      first and gives both PUTs the same Seq; replica 0 has seen both PUTs when it sees the GET. */
  function TiedGraph(): Graph {
    map[X := Attrs([Command(PUT, 0, [1])], 1, [-1, 0, -1]),
        Y := Attrs([Command(PUT, 0, [2])], 1, [0, 0, -1]),
        Z := Attrs([Command(GET, 0, [])], 2, [1, -1, -1])]
  }

  /** All three are in one component. */
  lemma OneComponent(a: Id, b: Id)
    requires a in TiedGraph() && b in TiedGraph()
    ensures Reach(TiedGraph(), a, b)
  {
    var g := TiedGraph();
    assert Edge(g, X, Z) && Edge(g, Z, Y) && Edge(g, Y, X);
    ReachEdge(g, X, Z);
    ReachEdge(g, Z, Y);
    ReachEdge(g, Y, X);
    ReachRefl(g, a);
    ReachTrans(g, X, Z, Y);
    ReachTrans(g, Z, Y, X);
    ReachTrans(g, Y, X, Z);
  }

  lemma OneComponentIsValid(g: Graph, t: Times, log: seq<Id>)
    requires Distinct(log) && AllInKeys(g, t, log) && Closed(g, Elems(log)) && SortedByLess(g, t, log)
    requires forall i, j :: 0 <= i < |log| && 0 <= j < |log| ==> Reach(g, log[i], log[j])
    ensures ValidLog(g, t, log)
  {
    hide Reach, Closed;
  }

  lemma TiedGraphIsClosed(all: set<Id>)
    requires all == {X, Y, Z}
    ensures Closed(TiedGraph(), all)
  {
    var g := TiedGraph();
    forall v, w | v in all && Edge(g, v, w) ensures w in all {
      assert w.replica == 0 || w.replica == 1 || w.replica == 2;
    }
  }

  lemma TiedLogIsSorted(t: Times, first: Id, second: Id)
    requires (first == X && second == Y) || (first == Y && second == X)
    requires X in t && Y in t && Z in t && t[first] < t[second]
    ensures SortedByLess(TiedGraph(), t, [first, second, Z])
  {
    var g := TiedGraph();
    assert g[X].seqno == 1 && g[Y].seqno == 1 && g[Z].seqno == 2;
    hide TiedGraph;
  }

  lemma TiedKeys()
    ensures TiedGraph().Keys == {X, Y, Z}
  {
  }

  lemma ThreeElems(first: Id, second: Id)
    requires (first == X && second == Y) || (first == Y && second == X)
    ensures Elems([first, second, Z]) == {X, Y, Z} && Distinct([first, second, Z])
  {
  }

  lemma TiedLogIsValid(t: Times, first: Id, second: Id)
    requires (first == X && second == Y) || (first == Y && second == X)
    requires X in t && Y in t && Z in t && t[first] < t[second]
    ensures ValidLog(TiedGraph(), t, [first, second, Z])
  {
    hide TiedGraph, Reach, Closed, SortedByLess, ValidLog;
    var g, log := TiedGraph(), [first, second, Z];
    TiedKeys();
    ThreeElems(first, second);
    TiedGraphIsClosed(Elems(log));
    TiedLogIsSorted(t, first, second);
    forall i, j | 0 <= i < |log| && 0 <= j < |log| ensures Reach(g, log[i], log[j]) {
      OneComponent(log[i], log[j]);
    }
    OneComponentIsValid(g, t, log);
  }

  /** The graph links its interfering instances, as every reachable one does, and yet two replicas that
      execute it in the order that their own clocks give end in different stores. */
  lemma TieSplitsStores(init: Store)
    ensures var g, log1, log2 := TiedGraph(), [X, Y, Z], [Y, X, Z];
      && (exists t :: ValidLog(g, t, log1)) && (exists t :: ValidLog(g, t, log2))
      && SingleCommands(g, log1) && LinkedLog(g, log1) && !NoConflictTies(g, log1)
      && Runnable(BatchesOf(g), log1) && Runnable(BatchesOf(g), log2)
      && Final(init, BatchesOf(g), log1) != Final(init, BatchesOf(g), log2)
  {
    hide TiedGraph, ValidLog, Final, LinkedLog, NoConflictTies, SingleCommands, Reach;
    var t1, t2: Times := map[X := 1, Y := 2, Z := 3], map[X := 3, Y := 2, Z := 4];
    TiedLogIsValid(t1, X, Y);
    TiedLogIsValid(t2, Y, X);
    TiedLogIsLinked();
    Stores(init);
  }

  lemma TiedLogIsLinked()
    ensures var g, log := TiedGraph(), [X, Y, Z];
      SingleCommands(g, log) && LinkedLog(g, log) && !NoConflictTies(g, log)
  {
    var g, log := TiedGraph(), [X, Y, Z];
    OneComponent(X, Y);
    OneComponent(Y, X);
    hide Reach;
    assert Tied(g, X, Y);
    assert X in log && Y in log;
    assert Interfere(g[X].cmds[0], g[Y].cmds[0]);
    assert Edge(g, Y, X) && Edge(g, X, Z) && Edge(g, Y, Z);
  }

  lemma Stores(init: Store)
    ensures var c := BatchesOf(TiedGraph());
      Runnable(c, [X, Y, Z]) && Runnable(c, [Y, X, Z])
      && 0 in Final(init, c, [X, Y, Z]) && Final(init, c, [X, Y, Z])[0] == [2]
      && 0 in Final(init, c, [Y, X, Z]) && Final(init, c, [Y, X, Z])[0] == [1]
  {
    var c := BatchesOf(TiedGraph());
    assert c[X] == [Command(PUT, 0, [1])] && c[Y] == [Command(PUT, 0, [2])] && c[Z] == [Command(GET, 0, [])];
    hide TiedGraph, BatchesOf, Final;
    RunThree(init, c, X, Y, Z);
    RunThree(init, c, Y, X, Z);
  }

  lemma RunThree(s: Store, c: Batches<Id>, a: Id, b: Id, d: Id)
    requires a in c && b in c && d in c && AllWellFormed(c[a]) && AllWellFormed(c[b]) && AllWellFormed(c[d])
    requires |c[a]| == |c[b]| == |c[d]| == 1
    ensures Runnable(c, [a, b, d])
    ensures Final(s, c, [a, b, d]) == Apply(Apply(Apply(s, c[a][0]), c[b][0]), c[d][0])
  {
    assert [a, b, d][1..] == [b, d] && [b, d][1..] == [d] && [d][1..] == [];
    RunOne(s, c[a]);
    RunOne(Apply(s, c[a][0]), c[b]);
    RunOne(Apply(Apply(s, c[a][0]), c[b][0]), c[d]);
    hide ApplyBatch, Apply;
    assert Final(s, c, [a, b, d]) == Final(ApplyBatch(s, c[a]), c, [b, d]);
    assert Final(ApplyBatch(s, c[a]), c, [b, d]) == Final(ApplyBatch(ApplyBatch(s, c[a]), c[b]), c, [d]);
  }

  lemma RunOne(s: Store, batch: seq<Command>)
    requires |batch| == 1
    ensures ApplyBatch(s, batch) == Apply(s, batch[0])
  {
    assert batch[1..] == [];
  }
}
