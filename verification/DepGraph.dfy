/** The graph of committed instances and the execution orders it admits.
    An edge is a range: Deps[q] = d makes an instance depend on every instance of column q up to d. */
module DepGraph {
  import opened State
  import opened Sequences
  import opened Traces

  /** InstanceSpace[replica][instance]. */
  datatype Id = Id(replica: nat, instance: nat)

  /** What a commit fixes about an instance. */
  datatype Attrs = Attrs(cmds: seq<Command>, seqno: int, deps: seq<int>)

  type Graph = map<Id, Attrs>

  // ---------------------------------------------------------------- reachability

  ghost predicate Edge(g: Graph, v: Id, w: Id) {
    v in g && w.replica < |g[v].deps| && w.instance <= g[v].deps[w.replica]
  }

  ghost predicate IsPath(g: Graph, p: seq<Id>) {
    p != [] && forall i :: 0 <= i < |p| - 1 ==> Edge(g, p[i], p[i + 1])
  }

  ghost predicate Reach(g: Graph, x: Id, y: Id) {
    exists p :: IsPath(g, p) && p[0] == x && p[|p| - 1] == y
  }

  /** x and y lie in one strongly connected component. */
  ghost predicate Mutual(g: Graph, x: Id, y: Id) {
    Reach(g, x, y) && Reach(g, y, x)
  }

  ghost predicate Closed(g: Graph, s: set<Id>) {
    s <= g.Keys && forall v, w :: v in s && Edge(g, v, w) ==> w in s
  }

  lemma ReachRefl(g: Graph, x: Id)
    ensures Reach(g, x, x)
  {
    assert IsPath(g, [x]);
  }

  lemma ReachEdge(g: Graph, x: Id, y: Id)
    requires Edge(g, x, y)
    ensures Reach(g, x, y)
  {
    assert IsPath(g, [x, y]);
  }

  lemma ReachTrans(g: Graph, x: Id, y: Id, z: Id)
    requires Reach(g, x, y) && Reach(g, y, z)
    ensures Reach(g, x, z)
  {
    var p :| IsPath(g, p) && p[0] == x && p[|p| - 1] == y;
    var q :| IsPath(g, q) && q[0] == y && q[|q| - 1] == z;
    var r := p + q[1..];
    forall i | 0 <= i < |r| - 1 ensures Edge(g, r[i], r[i + 1]) {
      if i >= |p| - 1 {
        assert Edge(g, q[i - (|p| - 1)], q[i - (|p| - 1) + 1]);
      }
    }
    assert IsPath(g, r);
  }

  /** Nothing outside a closed set can be reached from inside. */
  lemma ClosedReach(g: Graph, s: set<Id>, x: Id, y: Id)
    requires Closed(g, s) && x in s && Reach(g, x, y)
    ensures y in s
  {
    var p :| IsPath(g, p) && p[0] == x && p[|p| - 1] == y;
    PathStays(g, s, p);
  }

  lemma {:induction false} PathStays(g: Graph, s: set<Id>, p: seq<Id>)
    requires Closed(g, s) && IsPath(g, p) && p[0] in s
    ensures forall i :: 0 <= i < |p| ==> p[i] in s
  {
    if |p| > 1 {
      assert Edge(g, p[0], p[1]);
      assert IsPath(g, p[1..]);
      PathStays(g, s, p[1..]);
      assert forall i :: 1 <= i < |p| ==> p[i] == p[1..][i - 1];
    }
  }

  /** Graphs that agree on a set closed in both have the same reachability inside it. */
  lemma ReachTransfer(g1: Graph, g2: Graph, s: set<Id>, x: Id, y: Id)
    requires Closed(g1, s) && s <= g2.Keys
    requires forall v :: v in s ==> g1[v] == g2[v]
    requires x in s && Reach(g1, x, y)
    ensures Reach(g2, x, y)
  {
    var p :| IsPath(g1, p) && p[0] == x && p[|p| - 1] == y;
    PathStays(g1, s, p);
    assert forall i :: 0 <= i < |p| - 1 ==> Edge(g1, p[i], p[i + 1]) && p[i] in s;
    assert IsPath(g2, p);
  }

  // ---------------------------------------------------------------- execution order

  /** The local clock reading at which a replica created an instance. */
  type Times = map<Id, int>

  /** What nodeArray compares: Seq, then the replica, then the local clock reading. */
  datatype SortKey = SortKey(seqno: int, replica: nat, proposeTime: int)

  predicate KeyLess(a: SortKey, b: SortKey) {
    a.seqno < b.seqno
    || (a.seqno == b.seqno && a.replica < b.replica)
    || (a.seqno == b.seqno && a.replica == b.replica && a.proposeTime < b.proposeTime)
  }

  /** The order that one component is sorted by. */
  predicate Less(g: Graph, t: Times, x: Id, y: Id)
    requires x in g && y in g && x in t && y in t
  {
    KeyLess(SortKey(g[x].seqno, x.replica, t[x]), SortKey(g[y].seqno, y.replica, t[y]))
  }

  ghost function Elems(log: seq<Id>): set<Id> {
    set x | x in log
  }

  /** Each component stands after everything it reaches. */
  ghost predicate Topological(g: Graph, log: seq<Id>) {
    forall i, j :: 0 <= i < j < |log| && Reach(g, log[i], log[j]) ==> Reach(g, log[j], log[i])
  }

  /** No instance of another component stands between two instances of one component. */
  ghost predicate Contiguous(g: Graph, log: seq<Id>) {
    forall i, k, j :: 0 <= i < k < j < |log| && Mutual(g, log[i], log[j]) ==> Mutual(g, log[i], log[k])
  }

  ghost predicate ComponentsSorted(g: Graph, t: Times, log: seq<Id>)
    requires AllInKeys(g, t, log)
  {
    forall i, j :: 0 <= i < j < |log| && Mutual(g, log[i], log[j]) ==> !Less(g, t, log[j], log[i])
  }

  /** The orders in which the executor may have executed the instances of log: a closed set of
      instances, component by component, each component after everything it reaches, and each
      component in the order of Less. */
  ghost predicate ValidLog(g: Graph, t: Times, log: seq<Id>) {
    && Distinct(log)
    && AllInKeys(g, t, log)
    && Closed(g, Elems(log))
    && Topological(g, log)
    && Contiguous(g, log)
    && ComponentsSorted(g, t, log)
  }

  ghost predicate AllInKeys(g: Graph, t: Times, log: seq<Id>) {
    forall i :: 0 <= i < |log| ==> log[i] in g && log[i] in t
  }

  /** Sorted the way sort.Sort leaves a component. */
  ghost predicate SortedByLess(g: Graph, t: Times, xs: seq<Id>) {
    && AllInKeys(g, t, xs)
    && forall i, j :: 0 <= i < j < |xs| ==> !Less(g, t, xs[j], xs[i])
  }

  /** One whole component, all of whose outside successors have been executed. */
  ghost predicate NextComponent(g: Graph, log: seq<Id>, block: seq<Id>) {
    && Distinct(block)
    && (forall x :: x in block ==> x !in log)
    && Closed(g, Elems(log) + Elems(block))
    && forall x, y :: x in block && y in block ==> Reach(g, x, y)
  }

  /** Executing the next component, sorted, keeps the log valid. */
  lemma AppendComponent(g: Graph, t: Times, log: seq<Id>, block: seq<Id>)
    requires ValidLog(g, t, log) && NextComponent(g, log, block) && SortedByLess(g, t, block)
    ensures ValidLog(g, t, log + block)
  {
    assert Elems(log + block) == Elems(log) + Elems(block);
    forall i, j | 0 <= i < |log| && 0 <= j < |block| ensures !Reach(g, log[i], block[j]) {
      OutOfReach(g, log, block, i, j);
    }
    AppendTopological(g, log, block);
    AppendContiguous(g, log, block);
    AppendSorted(g, t, log, block);
  }

  lemma OutOfReach(g: Graph, log: seq<Id>, block: seq<Id>, i: nat, j: nat)
    requires Closed(g, Elems(log)) && NextComponent(g, log, block)
    requires i < |log| && j < |block|
    ensures !Reach(g, log[i], block[j])
  {
    assert log[i] in Elems(log) && block[j] in block;
    if Reach(g, log[i], block[j]) {
      ClosedReach(g, Elems(log), log[i], block[j]);
      assert false;
    }
  }

  ghost predicate Separate(g: Graph, log: seq<Id>, block: seq<Id>) {
    && (forall i, j :: 0 <= i < |log| && 0 <= j < |block| ==> !Reach(g, log[i], block[j]))
    && (forall i, j :: 0 <= i < |block| && 0 <= j < |block| ==> Reach(g, block[i], block[j]))
  }

  lemma Unreachable(g: Graph, log: seq<Id>, block: seq<Id>)
    requires Separate(g, log, block)
    ensures forall i, j :: 0 <= i < |log| <= j < |log + block| ==> !Reach(g, (log + block)[i], (log + block)[j])
  {
    var all := log + block;
    forall i, j | 0 <= i < |log| <= j < |all| ensures !Reach(g, all[i], all[j]) {
      assert all[i] == log[i] && all[j] == block[j - |log|];
    }
  }

  lemma AppendTopological(g: Graph, log: seq<Id>, block: seq<Id>)
    requires Topological(g, log) && Separate(g, log, block)
    ensures Topological(g, log + block)
  {
    Unreachable(g, log, block);
  }

  lemma AppendContiguous(g: Graph, log: seq<Id>, block: seq<Id>)
    requires Contiguous(g, log) && Separate(g, log, block)
    ensures Contiguous(g, log + block)
  {
    Unreachable(g, log, block);
  }

  lemma AppendSorted(g: Graph, t: Times, log: seq<Id>, block: seq<Id>)
    requires AllInKeys(g, t, log) && ComponentsSorted(g, t, log)
    requires SortedByLess(g, t, block) && Separate(g, log, block)
    ensures AllInKeys(g, t, log + block) && ComponentsSorted(g, t, log + block)
  {
    Unreachable(g, log, block);
  }

  ghost predicate SameReachability(g1: Graph, g2: Graph, log: seq<Id>) {
    forall i, j :: 0 <= i < |log| && 0 <= j < |log| ==> Reach(g1, log[i], log[j]) == Reach(g2, log[i], log[j])
  }

  lemma OrderTransfer(g1: Graph, g2: Graph, t: Times, log: seq<Id>)
    requires SameReachability(g1, g2, log)
    requires AllInKeys(g1, t, log) && AllInKeys(g2, t, log)
    requires forall i :: 0 <= i < |log| ==> g1[log[i]] == g2[log[i]]
    requires Topological(g1, log) && Contiguous(g1, log) && ComponentsSorted(g1, t, log)
    ensures Topological(g2, log) && Contiguous(g2, log) && ComponentsSorted(g2, t, log)
  {
  }

  /** A log depends only on what the graph says about its own instances. */
  lemma ValidLogTransfer(g1: Graph, g2: Graph, t: Times, log: seq<Id>)
    requires ValidLog(g1, t, log) && Elems(log) <= g2.Keys
    requires forall v :: v in log ==> g1[v] == g2[v]
    ensures ValidLog(g2, t, log)
  {
    AgreeClosed(g1, g2, Elems(log));
    forall i, j | 0 <= i < |log| && 0 <= j < |log|
      ensures Reach(g1, log[i], log[j]) == Reach(g2, log[i], log[j])
    {
      assert log[i] in Elems(log);
      BothWays(g1, g2, Elems(log), log[i], log[j]);
    }
    assert forall i :: 0 <= i < |log| ==> log[i] in Elems(log);
    OrderTransfer(g1, g2, t, log);
  }

  lemma AgreeClosed(g1: Graph, g2: Graph, s: set<Id>)
    requires Closed(g1, s) && s <= g2.Keys
    requires forall v :: v in s ==> g1[v] == g2[v]
    ensures Closed(g2, s)
  {
    forall v, w | v in s && Edge(g2, v, w) ensures w in s {
      assert Edge(g1, v, w);
    }
  }

  lemma BothWays(g1: Graph, g2: Graph, s: set<Id>, x: Id, y: Id)
    requires Closed(g1, s) && Closed(g2, s)
    requires forall v :: v in s ==> g1[v] == g2[v]
    requires x in s
    ensures Reach(g1, x, y) == Reach(g2, x, y)
  {
    if Reach(g1, x, y) {
      ReachTransfer(g1, g2, s, x, y);
    }
    if Reach(g2, x, y) {
      ReachTransfer(g2, g1, s, x, y);
    }
  }

  // ---------------------------------------------------------------- determinism

  ghost predicate Before(log: seq<Id>, x: Id, y: Id) {
    exists i, j :: 0 <= i < j < |log| && log[i] == x && log[j] == y
  }

  lemma BeforeTotal(log: seq<Id>, x: Id, y: Id)
    requires x in log && y in log && x != y && Distinct(log)
    ensures Before(log, x, y) != Before(log, y, x)
  {
    var i :| 0 <= i < |log| && log[i] == x;
    var j :| 0 <= j < |log| && log[j] == y;
    if i < j {
      assert Before(log, x, y);
    } else {
      assert Before(log, y, x);
    }
  }

  /** x and y are in one component and only their local clock readings tell them apart. */
  ghost predicate Tied(g: Graph, x: Id, y: Id) {
    x in g && y in g && x != y && Mutual(g, x, y) && g[x].seqno == g[y].seqno && x.replica == y.replica
  }

  /** The order of two dependency-connected instances in a valid log, read off the graph alone. */
  ghost predicate GoesFirst(g: Graph, x: Id, y: Id)
    requires x in g && y in g
  {
    if Reach(g, x, y) && Reach(g, y, x) then
      g[x].seqno < g[y].seqno || (g[x].seqno == g[y].seqno && x.replica < y.replica)
    else
      Reach(g, y, x)
  }

  lemma OrderFromGraph(g: Graph, t: Times, log: seq<Id>, x: Id, y: Id)
    requires ValidLog(g, t, log) && x in log && y in log && x != y
    requires Reach(g, x, y) || Reach(g, y, x)
    requires !Tied(g, x, y)
    ensures x in g && y in g && (Before(log, x, y) <==> GoesFirst(g, x, y))
  {
    assert x in Elems(log) && y in Elems(log);
    BeforeTotal(log, x, y);
    if Before(log, x, y) {
      var i, j :| 0 <= i < j < |log| && log[i] == x && log[j] == y;
    } else {
      var i, j :| 0 <= i < j < |log| && log[i] == y && log[j] == x;
    }
  }

  /** Two replicas that agree on the attributes of the instances they have both executed put every
      dependency-connected pair of them in the same order, unless the pair is tied. */
  lemma SameOrder(g1: Graph, t1: Times, log1: seq<Id>, g2: Graph, t2: Times, log2: seq<Id>, x: Id, y: Id)
    requires ValidLog(g1, t1, log1) && ValidLog(g2, t2, log2)
    requires forall v :: v in log1 && v in log2 ==> g1[v] == g2[v]
    requires x in log1 && x in log2 && y in log1 && y in log2 && x != y
    requires Reach(g1, x, y) || Reach(g1, y, x)
    requires !Tied(g1, x, y)
    ensures Before(log1, x, y) <==> Before(log2, x, y)
  {
    var s := Elems(log1) * Elems(log2);
    IntersectionClosed(g1, Elems(log1), g2, Elems(log2));
    assert x in s && y in s;
    BothWays(g1, g2, s, x, y);
    BothWays(g1, g2, s, y, x);
    OrderFromGraph(g1, t1, log1, x, y);
    OrderFromGraph(g2, t2, log2, x, y);
  }

  lemma IntersectionClosed(g1: Graph, s1: set<Id>, g2: Graph, s2: set<Id>)
    requires Closed(g1, s1) && Closed(g2, s2)
    requires forall v :: v in s1 && v in s2 ==> g1[v] == g2[v]
    ensures Closed(g1, s1 * s2) && Closed(g2, s1 * s2)
  {
    forall v, w | v in s1 * s2 && (Edge(g1, v, w) || Edge(g2, v, w)) ensures w in s1 * s2 {
      assert Edge(g1, v, w) && Edge(g2, v, w);
    }
  }

  // ---------------------------------------------------------------- ties

  /** other puts every dependency-connected pair in the order that log does. */
  ghost predicate Follows(g: Graph, log: seq<Id>, other: seq<Id>) {
    forall x, y | (Reach(g, x, y) || Reach(g, y, x)) && Before(log, x, y) :: Before(other, x, y)
  }

  /** Every replica that executes the instances of log, whatever its clock says, follows log. */
  ghost predicate OrderForced(g: Graph, log: seq<Id>) {
    forall t, other | ValidLog(g, t, other) && Elems(other) == Elems(log) :: Follows(g, log, other)
  }

  ghost predicate NoTies(g: Graph, log: seq<Id>) {
    forall x, y :: x in log && y in log ==> !Tied(g, x, y)
  }

  /** The graph forces the order of its dependency-connected pairs exactly when it has no tie: the
      last comparison of Less reads a local clock, so a tie lets two replicas diverge. */
  lemma OrderForcedIffNoTies(g: Graph, t: Times, log: seq<Id>)
    requires ValidLog(g, t, log)
    ensures OrderForced(g, log) <==> NoTies(g, log)
  {
    if NoTies(g, log) {
      forall t', other | ValidLog(g, t', other) && Elems(other) == Elems(log) ensures Follows(g, log, other) {
        NoTiesFollows(g, t, log, t', other);
      }
    } else {
      var x, y :| x in log && y in log && Tied(g, x, y);
      TieDiverges(g, t, log, x, y);
    }
  }

  lemma NoTiesFollows(g: Graph, t: Times, log: seq<Id>, t': Times, other: seq<Id>)
    requires ValidLog(g, t, log) && ValidLog(g, t', other) && Elems(other) == Elems(log) && NoTies(g, log)
    ensures Follows(g, log, other)
  {
    forall x, y | (Reach(g, x, y) || Reach(g, y, x)) && Before(log, x, y) ensures Before(other, x, y) {
      BeforeIn(log, x, y);
      assert x in Elems(other) && y in Elems(other);
      SameOrder(g, t, log, g, t', other, x, y);
    }
  }

  lemma BeforeIn(log: seq<Id>, x: Id, y: Id)
    requires Before(log, x, y)
    ensures x in log && y in log && x in Elems(log) && y in Elems(log)
    ensures Distinct(log) ==> x != y
  {
  }

  lemma TieDiverges(g: Graph, t: Times, log: seq<Id>, x: Id, y: Id)
    requires ValidLog(g, t, log) && x in log && y in log && Tied(g, x, y)
    ensures !OrderForced(g, log)
  {
    var i :| 0 <= i < |log| && log[i] == x;
    var j :| 0 <= j < |log| && log[j] == y;
    var a, b := if i < j then i else j, if i < j then j else i;
    var t', other := SwapTied(g, t, log, a, b);
    assert Before(log, log[a], log[b]);
    assert !Follows(g, log, other);
  }

  ghost function Position(log: seq<Id>, x: Id): (i: nat)
    requires x in log
    ensures i < |log| && log[i] == x
  {
    var i :| 0 <= i < |log| && log[i] == x;
    i
  }

  /** A replica with other clock readings executes a tied pair the other way round. */
  lemma SwapTied(g: Graph, t: Times, log: seq<Id>, i: nat, j: nat) returns (t': Times, other: seq<Id>)
    requires ValidLog(g, t, log) && i < j < |log| && Tied(g, log[i], log[j])
    ensures ValidLog(g, t', other) && Elems(other) == Elems(log)
    ensures Before(other, log[j], log[i]) && !Before(other, log[i], log[j])
  {
    other := log[i := log[j]][j := log[i]];
    SwapElems(log, i, j);
    t' := PositionClock(other);
    SwapReach(g, log, i, j);
    SwapKeys(g, log, i, j);
    SwapOrder(g, t, log, t', other);
    SwapBefore(log, other, i, j);
  }

  lemma SwapBefore(log: seq<Id>, other: seq<Id>, i: nat, j: nat)
    requires i < j < |log| == |other| && Distinct(other)
    requires other[i] == log[j] && other[j] == log[i]
    ensures Before(other, log[j], log[i]) && !Before(other, log[i], log[j])
  {
    assert Before(other, other[i], other[j]);
    BeforeTotal(other, other[i], other[j]);
  }

  /** A clock that reads the position in log. */
  ghost function PositionClock(log: seq<Id>): (t: Times)
    requires Distinct(log)
    ensures forall a :: 0 <= a < |log| ==> log[a] in t && t[log[a]] == a
  {
    map x | x in Elems(log) :: Position(log, x)
  }

  lemma SwapElems(log: seq<Id>, i: nat, j: nat)
    requires i < j < |log| && Distinct(log)
    ensures var other := log[i := log[j]][j := log[i]]; Elems(other) == Elems(log) && Distinct(other)
  {
    var other := log[i := log[j]][j := log[i]];
    forall x | x in log ensures x in other {
      var k :| 0 <= k < |log| && log[k] == x;
      assert other[if k == i then j else if k == j then i else k] == x;
    }
  }

  /** Position by position, the two sequences have the same reachability. */
  ghost predicate Congruent(g: Graph, log: seq<Id>, other: seq<Id>) {
    |other| == |log| && forall a, b :: 0 <= a < |log| && 0 <= b < |log| ==>
                          Reach(g, other[a], other[b]) == Reach(g, log[a], log[b])
  }

  /** Position by position, the two sequences have the same shared sort keys. */
  ghost predicate SameKeys(g: Graph, log: seq<Id>, other: seq<Id>) {
    |other| == |log| && forall a :: 0 <= a < |log| ==>
                          other[a] in g && log[a] in g && g[other[a]].seqno == g[log[a]].seqno
                          && other[a].replica == log[a].replica
  }

  lemma SwapKeys(g: Graph, log: seq<Id>, i: nat, j: nat)
    requires i < j < |log| && (forall a :: 0 <= a < |log| ==> log[a] in g)
    requires g[log[i]].seqno == g[log[j]].seqno && log[i].replica == log[j].replica
    ensures SameKeys(g, log, log[i := log[j]][j := log[i]])
  {
  }

  lemma SwapReach(g: Graph, log: seq<Id>, i: nat, j: nat)
    requires i < j < |log| && Mutual(g, log[i], log[j])
    ensures Congruent(g, log, log[i := log[j]][j := log[i]])
  {
    var other := log[i := log[j]][j := log[i]];
    forall a | 0 <= a < |log| ensures Mutual(g, log[a], other[a]) {
      ReachRefl(g, log[a]);
    }
    forall a, b | 0 <= a < |log| && 0 <= b < |log|
      ensures Reach(g, other[a], other[b]) == Reach(g, log[a], log[b])
    {
      SameReach(g, log[a], other[a], log[b], other[b]);
    }
  }

  /** Two sequences with the same sort keys and the same reachability, position by position; the
      clock t' follows the second. */
  lemma SwapOrder(g: Graph, t: Times, log: seq<Id>, t': Times, other: seq<Id>)
    requires ValidLog(g, t, log) && Distinct(other) && Elems(other) == Elems(log)
    requires SameKeys(g, log, other) && Congruent(g, log, other)
    requires forall a :: 0 <= a < |other| ==> other[a] in t' && t'[other[a]] == a
    ensures ValidLog(g, t', other)
  {
    assert Topological(g, other);
    assert Contiguous(g, other);
    forall a, b | 0 <= a < b < |other| && Mutual(g, other[a], other[b])
      ensures !Less(g, t', other[b], other[a])
    {
      assert Mutual(g, log[a], log[b]);
      assert !Less(g, t, log[b], log[a]);
    }
  }

  lemma SameReach(g: Graph, a: Id, a': Id, b: Id, b': Id)
    requires Mutual(g, a, a') && Mutual(g, b, b')
    ensures Reach(g, a, b) == Reach(g, a', b')
  {
    if Reach(g, a, b) {
      ReachTrans(g, a', a, b);
      ReachTrans(g, a', b, b');
    }
    if Reach(g, a', b') {
      ReachTrans(g, a, a', b');
      ReachTrans(g, a, b', b);
    }
  }

  // ---------------------------------------------------------------- the order, written out

  /** In a valid log, two instances of one component stand in the order of Seq, then of their replicas, then of
      the clock readings; instances of different components stand in the order of dependency. */
  lemma OrderInLog(g: Graph, t: Times, log: seq<Id>, i: nat, j: nat)
    requires ValidLog(g, t, log) && i < j < |log|
    ensures log[i] in g && log[j] in g && log[i] in t && log[j] in t
    ensures Reach(g, log[i], log[j]) ==>
      var x, y := log[i], log[j];
      && Reach(g, y, x)
      && g[x].seqno <= g[y].seqno
      && (g[x].seqno == g[y].seqno ==> x.replica <= y.replica)
      && (g[x].seqno == g[y].seqno && x.replica == y.replica ==> t[x] <= t[y])
  {
    hide Reach, Closed;
    assert log[i] in log && log[j] in log;
    assert Mutual(g, log[i], log[j]) ==> !Less(g, t, log[j], log[i]);
  }
}
