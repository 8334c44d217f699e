/** State machine replication: in every failure-free run, conflicting committed instances are linked,
    replicas agree on what is committed, and replicas that executed the same instances hold equal
    stores. */
module EpaxosTheorems {
  import opened State
  import opened Sequences
  import opened Sets
  import opened Traces
  import opened DepGraph
  import opened Options
  import opened EpaxosTypes
  import opened EpaxosSpec
  import opened EpaxosProtocol
  import opened EpaxosBasic
  import opened EpaxosRounds
  import opened EpaxosVotes
  import opened EpaxosExecution
  import opened EpaxosSafety
  import opened SccSearch
  import opened Replay

  // ---------------------------------------------------------------- quorums

  /** Any two fast quorums of N = 2F + 1 replicas share a replica. */
  lemma FastQuorumsIntersect(f: nat, a: set<nat>, b: set<nat>) returns (s: nat)
    requires f >= 1 && a <= Range(2 * f + 1) && b <= Range(2 * f + 1)
    requires |a| >= FastQuorumSize(f) && |b| >= FastQuorumSize(f)
    ensures s in a && s in b
  {
    SubsetCardinality(a + b, Range(2 * f + 1));
    assert |a + b| == |a| + |b| - |a * b|;
    s :| s in a * b;
  }

  /** The leader and the peers whose replies it counted. */
  ghost function Voters(g: Global, id: Id): set<nat> {
    {id.replica} + Counted(g, id)
  }

  lemma VotersAreAQuorum(g: Global, id: Id)
    requires Inv(g) && Started(g, id) && Fixed(Lb(g, id))
    ensures |Voters(g, id)| >= FastQuorumSize(g.f) && Voters(g, id) <= Range(2 * g.f + 1) && g.f >= 1
  {
    hide EntryOk, LeaderOk, Local, Votes, Executions;
    assert RoundOk(g, id);
    forall a | a in Counted(g, id) ensures a < g.n && a != id.replica {
      var p :| p in g.sent && p !in g.net && IsReply(p, id) && p.src == a;
      assert PacketOk(g, p);
    }
  }

  /** What the leader fixed is at least what each voter contributed. */
  lemma VoteCounted(g: Global, id: Id, s: nat) returns (deps: seq<int>)
    requires Inv(g) && Started(g, id) && s in Voters(g, id)
    ensures Vote(g, s, id, deps) && GeDeps(Lb(g, id).deps, deps)
  {
    hide EntryOk, PacketOk, Local, Votes, Executions, RepliesOk, PendingOk, TallyCounts, AcceptsOk;
    if s == id.replica {
      deps := Lb(g, id).originalDeps;
    } else {
      var p :| p in g.sent && p !in g.net && IsReply(p, id) && p.src == s;
      assert RoundOk(g, id);
      deps := p.msg.deps;
      assert ReplySent(g.sent, s, id, deps);
    }
  }

  /** Instances whose leaders have decided are linked if they interfere. */
  lemma DecidedLinked(g: Global, x: Id, y: Id)
    requires Inv(g) && x != y && Started(g, x) && Started(g, y) && Fixed(Lb(g, x)) && Fixed(Lb(g, y))
    requires Interfere(Cmd(g, x), Cmd(g, y))
    ensures Covers(Lb(g, x).deps, y) || Covers(Lb(g, y).deps, x)
  {
    hide Basic, Rounds, Vote, Executions, Interfere, Started;
    var s := x.replica;
    if x.replica != y.replica {
      VotersAreAQuorum(g, x);
      VotersAreAQuorum(g, y);
      s := FastQuorumsIntersect(g.f, Voters(g, x), Voters(g, y));
    }
    var dx := VoteCounted(g, x, s);
    var dy := VoteCounted(g, y, s);
    assert Comparable(s, x, y);
    assert Covers(dx, y) || Covers(dy, x);
  }

  // ---------------------------------------------------------------- committed instances

  ghost predicate CommittedAt(g: Global, s: nat, id: Id) {
    s < |g.nodes| && id in Sp(g, s) && Decided(Sp(g, s)[id])
  }

  /** A committed entry is what its leader decided. */
  lemma CommittedIsDecided(g: Global, s: nat, id: Id)
    requires Inv(g) && CommittedAt(g, s, id)
    ensures Started(g, id) && Fixed(Lb(g, id)) && Lb(g, id).status == COMMITTED && Lb(g, id).cmds == [Cmd(g, id)]
    ensures Sp(g, s)[id].cmds.Some?
    ensures AttrsOf(Sp(g, s)[id]) == Attrs(Lb(g, id).cmds, Lb(g, id).seqno, Lb(g, id).deps)
    ensures |Sp(g, s)[id].deps| == g.n && WellFormed(Cmd(g, id))
  {
    hide Inv, EntryOk, LeaderOk, Started;
    EntryHolds(g, s, id);
    EntryDecided(g, s, id);
    LeaderDecided(g.n, id, Sp(g, id.replica)[id]);
  }

  lemma EntryHolds(g: Global, s: nat, id: Id)
    requires Inv(g) && s < |g.nodes| && id in Sp(g, s)
    ensures EntryOk(g, s, id) && id.replica < |g.nodes| && id in Sp(g, id.replica)
    ensures LeaderOk(g.n, id, Sp(g, id.replica)[id])
  {
    hide LeaderOk, EntryOk, PacketOk, Local, Rounds, Votes, Executions;
    assert EntryOk(g, s, id);
    StartedAt(g, s, id);
  }

  lemma EntryDecided(g: Global, s: nat, id: Id)
    requires CommittedAt(g, s, id) && EntryOk(g, s, id)
    ensures Started(g, id) && Lb(g, id).status == COMMITTED && |Lb(g, id).cmds| == 1
    ensures Sp(g, s)[id].cmds == Some(Lb(g, id).cmds) && Sp(g, s)[id].seqno == Lb(g, id).seqno
    ensures Sp(g, s)[id].deps == Lb(g, id).deps && Lb(g, id) == Sp(g, id.replica)[id].lb.value
  {
    hide Indexed;
  }

  lemma LeaderDecided(n: nat, id: Id, inst: Instance)
    requires LeaderOk(n, id, inst)
    ensures inst.lb.Some? && |inst.lb.value.deps| == n && |inst.lb.value.cmds| == 1
    ensures WellFormed(inst.lb.value.cmds[0])
  {
  }

  /** Two committed instances with conflicting commands, PUT or GET: one lies in the other's Deps. */
  lemma ConflictsAreLinked(run: seq<Global>, steps: seq<Step>, i: nat, r: nat, x: Id, s: nat, y: Id)
    requires IsRun(run, steps) && i < |run| && x != y
    requires CommittedAt(run[i], r, x) && CommittedAt(run[i], s, y)
    requires var c, d := Sp(run[i], r)[x].cmds, Sp(run[i], s)[y].cmds;
      c.Some? && d.Some? && |c.value| == |d.value| == 1 && Interfere(c.value[0], d.value[0])
    ensures Covers(Sp(run[i], r)[x].deps, y) || Covers(Sp(run[i], s)[y].deps, x)
  {
    hide Inv, NextStep, Interfere, Covers;
    RunInv(run, steps, i);
    CommittedIsDecided(run[i], r, x);
    CommittedIsDecided(run[i], s, y);
    DecidedLinked(run[i], x, y);
  }

  /** A committed instance has the same commands, Seq and Deps at every replica, and keeps them. */
  lemma CommittedAgree(run: seq<Global>, steps: seq<Step>, i: nat, r: nat, j: nat, s: nat, id: Id)
    requires IsRun(run, steps) && i < |run| && j < |run|
    requires CommittedAt(run[i], r, id) && CommittedAt(run[j], s, id)
    ensures Sp(run[i], r)[id].cmds.Some? && Sp(run[j], s)[id].cmds.Some?
    ensures AttrsOf(Sp(run[i], r)[id]) == AttrsOf(Sp(run[j], s)[id])
  {
    hide Inv, NextStep;
    RunInv(run, steps, i);
    RunInv(run, steps, j);
    CommittedIsDecided(run[i], r, id);
    CommittedIsDecided(run[j], s, id);
    if i <= j {
      RunEvolves(run, steps, i, j);
    } else {
      RunEvolves(run, steps, j, i);
    }
  }

  /** What a step takes away from no replica: committed entries and executed instances. */
  ghost predicate Keeps(g: Global, g': Global) {
    && |g'.nodes| == |g.nodes|
    && (forall s, id :: CommittedAt(g, s, id) ==> CommittedAt(g', s, id))
    && forall s :: 0 <= s < |g.nodes| ==> g.nodes[s].ex.log <= g'.nodes[s].ex.log
  }

  lemma TouchKeeps(g: Global, g': Global, s: nat, id: Id)
    requires Touch(g, g', s, id) && EntryKept(Sp(g, s), Sp(g', s), id)
    ensures Keeps(g, g')
  {
    hide Local, IndexGrows;
    forall r, x | CommittedAt(g, r, x) ensures CommittedAt(g', r, x) {
      if r == s && x != id {
        assert Sp(g', s)[x] == Sp(g, s)[x];
      }
    }
  }

  lemma StepKeeps(g: Global, g': Global, step: Step)
    requires Inv(g) && NextStep(g, g', step)
    ensures Keeps(g, g')
  {
    hide Basic, Rounds, Votes, Executions, Evolves, DeliverStep, Touch, ProposeStep, EntryKept, Keeps, ExecuteStep;
    match step {
      case Proposing(s, c, waits, now, targets) =>
        ProposeInRange(g, g', s, c, waits, now, targets);
        BasicPropose(g, g', s, c, waits, now, targets);
        ExecutionsPropose(g, g', s, c, waits, now, targets);
        TouchKeeps(g, g', s, NextId(g.nodes[s].rs));
      case Delivering(p, now, targets) =>
        DeliverTouches(g, g', p, now, targets);
        ExecutionsDeliver(g, g', p, now, targets);
        TouchKeeps(g, g', p.dst, p.msg.id);
      case Executing(s, space, ex) =>
        ExecuteStepKeeps(g, g', s, space, ex);
    }
  }

  lemma ExecuteStepKeeps(g: Global, g': Global, s: nat, space: Space, ex: Execution)
    requires ExecuteStep(g, g', s, space, ex)
    ensures Keeps(g, g')
  {
    hide ExecutionOk;
    forall r, x | CommittedAt(g, r, x) ensures CommittedAt(g', r, x) {
      assert r == s ==> SameInstance(Sp(g, s)[x], space[x]);
    }
  }

  /** Nothing that is committed or executed is ever taken back. */
  lemma {:induction false} RunKeeps(run: seq<Global>, steps: seq<Step>, i: nat, j: nat)
    requires IsRun(run, steps) && i <= j < |run|
    ensures Keeps(run[i], run[j])
    decreases j - i
  {
    hide Inv, NextStep, CommittedAt;
    if i < j {
      RunKeeps(run, steps, i, j - 1);
      RunInv(run, steps, j - 1);
      StepKeeps(run[j - 1], run[j], steps[j - 1]);
    }
  }

  // ---------------------------------------------------------------- equal stores

  /** Scans write nothing, and the conflict index does not order them: leave them out. */
  function SansScan<T>(c: Batches<T>): Batches<T> {
    map x | x in c :: if |c[x]| == 1 && c[x][0].op == SCAN then [] else c[x]
  }

  lemma {:induction false} SansScanRun<T(!new)>(s: Store, c: Batches<T>, xs: seq<T>)
    requires Runnable(c, xs)
    ensures Runnable(SansScan(c), xs) && Final(s, SansScan(c), xs) == Final(s, c, xs)
    ensures forall x :: x in xs && SansScan(c)[x] == c[x] ==> Replies(s, SansScan(c), xs)[x] == Replies(s, c, xs)[x]
    decreases |xs|
  {
    if xs != [] {
      assert ApplyBatch(s, c[xs[0]]) == ApplyBatch(s, SansScan(c)[xs[0]]);
      SansScanRun(ApplyBatch(s, c[xs[0]]), c, xs[1..]);
    }
  }

  ghost predicate SingleCommands(g: Graph, log: seq<Id>) {
    forall x :: x in log ==> x in g && |g[x].cmds| == 1
  }

  /** Any two interfering instances of the log are linked by an edge. */
  ghost predicate LinkedLog(g: Graph, log: seq<Id>)
    requires SingleCommands(g, log)
  {
    forall x, y | x in log && y in log && x != y && Interfere(g[x].cmds[0], g[y].cmds[0]) :: Edge(g, x, y) || Edge(g, y, x)
  }

  /** The order of interfering instances never rests on the clock reading. */
  ghost predicate NoConflictTies(g: Graph, log: seq<Id>)
    requires SingleCommands(g, log)
  {
    forall x, y | x in log && y in log && Interfere(g[x].cmds[0], g[y].cmds[0]) :: !Tied(g, x, y)
  }

  ghost predicate AgreeOn(g1: Graph, g2: Graph, log: seq<Id>) {
    forall x :: x in log ==> x in g1 && x in g2 && g1[x] == g2[x]
  }

  lemma LogsOrderConflicts(g1: Graph, t1: Times, log1: seq<Id>, g2: Graph, t2: Times, log2: seq<Id>)
    requires ValidLog(g1, t1, log1) && ValidLog(g2, t2, log2) && AgreeOn(g1, g2, log1)
    requires SingleCommands(g1, log1) && LinkedLog(g1, log1) && NoConflictTies(g1, log1)
    requires forall x :: x in log1 <==> x in log2
    requires Runnable(SansScan(BatchesOf(g1)), log1)
    ensures SameConflictOrder(SansScan(BatchesOf(g1)), log1, log2)
  {
    hide ValidLog, Runnable, Edge, Conflict;
    var c := SansScan(BatchesOf(g1));
    forall i, j, k, l | 0 <= i < j < |log1| && 0 <= k < |log2| && 0 <= l < |log2|
      && log1[i] == log2[l] && log1[j] == log2[k] && ConflictBatch(c[log1[i]], c[log1[j]])
      ensures l < k
    {
      var x, y := log1[i], log1[j];
      ValidDistinct(g1, t1, log1);
      ValidDistinct(g2, t2, log2);
      ConflictInterfere(g1, log1, x, y);
      if Edge(g1, x, y) {
        ReachEdge(g1, x, y);
      } else {
        ReachEdge(g1, y, x);
      }
      assert Before(log1, x, y);
      SameOrder(g1, t1, log1, g2, t2, log2, x, y);
    }
  }

  lemma ValidDistinct(g: Graph, t: Times, log: seq<Id>)
    requires ValidLog(g, t, log)
    ensures Distinct(log)
  {
  }

  lemma ConflictInterfere(g: Graph, log: seq<Id>, x: Id, y: Id)
    requires SingleCommands(g, log) && x in log && y in log
    requires AllWellFormed(SansScan(BatchesOf(g))[x]) && AllWellFormed(SansScan(BatchesOf(g))[y])
    requires ConflictBatch(SansScan(BatchesOf(g))[x], SansScan(BatchesOf(g))[y])
    ensures Interfere(g[x].cmds[0], g[y].cmds[0])
  {
  }

  /** Whatever its clock says, a replica that executes the instances of log keeps its interfering pairs in the
      order of log. */
  ghost predicate ConflictOrderForced(g: Graph, log: seq<Id>)
    requires SingleCommands(g, log)
  {
    forall t, other | ValidLog(g, t, other) && Elems(other) == Elems(log) :: KeepsConflicts(g, log, other)
  }

  ghost predicate KeepsConflicts(g: Graph, log: seq<Id>, other: seq<Id>)
    requires SingleCommands(g, log)
  {
    forall x, y | x in log && y in log && Interfere(g[x].cmds[0], g[y].cmds[0]) && Before(log, x, y) :: Before(other, x, y)
  }

  /** A linked graph forces the order of its interfering instances exactly when none of them tie. */
  lemma ConflictOrderForcedIff(g: Graph, t: Times, log: seq<Id>)
    requires ValidLog(g, t, log) && SingleCommands(g, log) && LinkedLog(g, log)
    ensures ConflictOrderForced(g, log) <==> NoConflictTies(g, log)
  {
    hide ValidLog, LinkedLog, NoConflictTies, Interfere;
    if NoConflictTies(g, log) {
      forall t', other | ValidLog(g, t', other) && Elems(other) == Elems(log) ensures KeepsConflicts(g, log, other) {
        NoTiesKeepConflicts(g, t, log, t', other);
      }
    } else {
      ConflictTieDiverges(g, t, log);
    }
  }

  lemma NoTiesKeepConflicts(g: Graph, t: Times, log: seq<Id>, t': Times, other: seq<Id>)
    requires ValidLog(g, t, log) && ValidLog(g, t', other) && Elems(other) == Elems(log)
    requires SingleCommands(g, log) && LinkedLog(g, log) && NoConflictTies(g, log)
    ensures KeepsConflicts(g, log, other)
  {
    hide ValidLog, Interfere, Edge;
    ValidDistinct(g, t, log);
    forall x, y | x in log && y in log && Interfere(g[x].cmds[0], g[y].cmds[0]) && Before(log, x, y)
      ensures Before(other, x, y)
    {
      BeforeIn(log, x, y);
      assert x in Elems(other) && y in Elems(other);
      if Edge(g, x, y) {
        ReachEdge(g, x, y);
      } else {
        ReachEdge(g, y, x);
      }
      SameOrder(g, t, log, g, t', other, x, y);
    }
  }

  lemma ConflictTieDiverges(g: Graph, t: Times, log: seq<Id>)
    requires ValidLog(g, t, log) && SingleCommands(g, log) && !NoConflictTies(g, log)
    ensures !ConflictOrderForced(g, log)
  {
    hide ValidLog, Interfere, Tied;
    var x, y :| x in log && y in log && Interfere(g[x].cmds[0], g[y].cmds[0]) && Tied(g, x, y);
    InterfereBothWays(g[x].cmds[0], g[y].cmds[0]);
    TiedBothWays(g, x, y);
    var i :| 0 <= i < |log| && log[i] == x;
    var j :| 0 <= j < |log| && log[j] == y;
    var a, b := if i < j then i else j, if i < j then j else i;
    var t', other := SwapTied(g, t, log, a, b);
    assert Before(log, log[a], log[b]);
    assert !KeepsConflicts(g, log, other);
  }

  lemma InterfereBothWays(c: Command, d: Command)
    requires Interfere(c, d)
    ensures Interfere(d, c)
  {
  }

  lemma TiedBothWays(g: Graph, x: Id, y: Id)
    requires Tied(g, x, y)
    ensures Tied(g, y, x) && x != y
  {
  }

  /** Two replicas that executed the same instances, in valid orders of graphs that agree on them. */
  lemma SameExecution(init: Store, g1: Graph, t1: Times, log1: seq<Id>, g2: Graph, t2: Times, log2: seq<Id>)
    requires ValidLog(g1, t1, log1) && ValidLog(g2, t2, log2) && AgreeOn(g1, g2, log1)
    requires SingleCommands(g1, log1) && LinkedLog(g1, log1) && NoConflictTies(g1, log1)
    requires Elems(log1) == Elems(log2)
    requires Runnable(BatchesOf(g1), log1) && Runnable(BatchesOf(g2), log2)
    ensures Final(init, BatchesOf(g1), log1) == Final(init, BatchesOf(g2), log2)
    ensures forall x :: x in log1 && g1[x].cmds[0].op != SCAN ==>
              x in log2 && Replies(init, BatchesOf(g1), log1)[x] == Replies(init, BatchesOf(g2), log2)[x]
  {
    hide ValidLog, LinkedLog, NoConflictTies;
    assert forall x :: x in log1 <==> x in Elems(log1);
    assert forall x :: x in log2 <==> x in Elems(log2);
    var c := BatchesOf(g1);
    SansScanRun(init, c, log1);
    ValidDistinct(g1, t1, log1);
    ValidDistinct(g2, t2, log2);
    LogsOrderConflicts(g1, t1, log1, g2, t2, log2);
    OrdersAgree(init, SansScan(c), log1, log2);
    SansScanRun(init, c, log2);
    FinalTransfer(init, c, BatchesOf(g2), log2);
  }

  // ---------------------------------------------------------------- whole runs

  ghost function LogOf(g: Global, s: nat): seq<Id>
    requires s < |g.nodes|
  {
    g.nodes[s].ex.log
  }

  ghost function CommittedGraph(g: Global, s: nat): Graph
    requires s < |g.nodes|
  {
    GraphOf(Sp(g, s))
  }

  lemma ExecutedAreCommitted(g: Global, s: nat)
    requires Inv(g) && s < |g.nodes|
    ensures forall x :: x in LogOf(g, s) ==> CommittedAt(g, s, x)
    ensures SingleCommands(CommittedGraph(g, s), LogOf(g, s))
  {
    hide Inv, Started, GraphOf;
    forall x | x in LogOf(g, s)
      ensures CommittedAt(g, s, x) && x in CommittedGraph(g, s) && |CommittedGraph(g, s)[x].cmds| == 1
    {
      InLogCommitted(g, s, x);
      CommittedIsDecided(g, s, x);
      GraphAt(g, s, x);
    }
  }

  lemma InLogCommitted(g: Global, s: nat, x: Id)
    requires Inv(g) && s < |g.nodes| && x in LogOf(g, s)
    ensures CommittedAt(g, s, x)
  {
    hide Basic, Rounds, Votes, ValidLog, ReplayOk;
    assert ExecutionOk(g.init, Sp(g, s), g.nodes[s].ex);
  }

  lemma GraphAt(g: Global, s: nat, x: Id)
    requires CommittedAt(g, s, x) && Sp(g, s)[x].cmds.Some?
    ensures x in CommittedGraph(g, s) && CommittedGraph(g, s)[x] == AttrsOf(Sp(g, s)[x])
  {
  }

  lemma ExecutedAreLinked(g: Global, s: nat)
    requires Inv(g) && s < |g.nodes| && SingleCommands(CommittedGraph(g, s), LogOf(g, s))
    ensures LinkedLog(CommittedGraph(g, s), LogOf(g, s))
  {
    hide Inv, Started, GraphOf, Interfere, CommittedAt, CommittedGraph, LogOf, Sp, Lb, Cmd;
    var gr, log := CommittedGraph(g, s), LogOf(g, s);
    forall x, y | x in log && y in log && x != y && Interfere(gr[x].cmds[0], gr[y].cmds[0])
      ensures Edge(gr, x, y) || Edge(gr, y, x)
    {
      ExecutedAttrs(g, s, x);
      ExecutedAttrs(g, s, y);
      DecidedLinked(g, x, y);
    }
  }

  lemma ExecutedAttrs(g: Global, s: nat, x: Id)
    requires Inv(g) && s < |g.nodes| && x in LogOf(g, s)
    ensures Started(g, x) && Fixed(Lb(g, x))
    ensures x in CommittedGraph(g, s) && CommittedGraph(g, s)[x] == Attrs([Cmd(g, x)], Lb(g, x).seqno, Lb(g, x).deps)
  {
    hide Inv, Started, GraphOf, Cmd, Lb;
    InLogCommitted(g, s, x);
    CommittedIsDecided(g, s, x);
    GraphAt(g, s, x);
  }

  /** No two interfering instances that replica s executed are in one component with the same Seq and
      the same replica. */
  ghost predicate ClocksDoNotMatter(g: Global, s: nat)
    requires s < |g.nodes|
  {
    SingleCommands(CommittedGraph(g, s), LogOf(g, s)) ==> NoConflictTies(CommittedGraph(g, s), LogOf(g, s))
  }

  /** Every reply that replica r sent for a command other than a SCAN is the one that the execution
      of replica s gives. */
  ghost predicate RepliesMatch(a: Global, r: nat, b: Global, s: nat)
    requires r < |a.nodes| && s < |b.nodes|
  {
    && Runnable(BatchesOf(CommittedGraph(b, s)), LogOf(b, s))
    && var replies := Replies(b.init, BatchesOf(CommittedGraph(b, s)), LogOf(b, s));
       forall k :: 0 <= k < |a.nodes[r].ex.replies| ==>
         ReplyMatches(CommittedGraph(a, r), replies, a.nodes[r].ex.replies[k])
  }

  ghost predicate ReplyMatches(gr: Graph, replies: map<Id, seq<Value>>, reply: ClientReply) {
    && reply.id in gr && |gr[reply.id].cmds| == 1
    && (gr[reply.id].cmds[0].op != SCAN ==>
          reply.id in replies && reply.idx < |replies[reply.id]| && reply.value == replies[reply.id][reply.idx])
  }

  /** The hypothesis below is exact: it holds if and only if every replica that executes the same committed
      graph, whatever its clock says, keeps the order of the interfering instances. */
  lemma ClocksDoNotMatterIff(run: seq<Global>, steps: seq<Step>, i: nat, r: nat)
    requires IsRun(run, steps) && i < |run| && r < |run[i].nodes|
    ensures SingleCommands(CommittedGraph(run[i], r), LogOf(run[i], r))
    ensures ClocksDoNotMatter(run[i], r) <==> ConflictOrderForced(CommittedGraph(run[i], r), LogOf(run[i], r))
  {
    hide Inv, NextStep, Interfere, ValidLog, Started, CommittedGraph, LogOf, CommittedAt, LinkedLog, NoConflictTies,
      IsRun, Sp, ReplayOk, Final, Replies, Runnable, ConflictOrderForced;
    RunInv(run, steps, i);
    ExecutedAreCommitted(run[i], r);
    ExecutedAreLinked(run[i], r);
    ExecutionHolds(run[i], r);
    ConflictOrderForcedIff(CommittedGraph(run[i], r), TimesOf(Sp(run[i], r)), LogOf(run[i], r));
  }

  /** State machine replication: if replica r at moment i and replica s at moment j have executed the
      same instances, then they hold the same store and agree on every reply. */
  lemma StateMachineReplication(run: seq<Global>, steps: seq<Step>, i: nat, r: nat, j: nat, s: nat)
    requires IsRun(run, steps) && i < |run| && j < |run| && r < |run[i].nodes| && s < |run[j].nodes|
    requires Elems(LogOf(run[i], r)) == Elems(LogOf(run[j], s))
    requires ClocksDoNotMatter(run[i], r)
    ensures run[i].nodes[r].ex.store == run[j].nodes[s].ex.store
    ensures RepliesMatch(run[i], r, run[j], s)
  {
    var a, b := run[i], run[j];
    hide Inv, NextStep, Interfere, ValidLog, Started, CommittedGraph, LogOf, CommittedAt, LinkedLog, NoConflictTies,
      IsRun, Sp, ReplayOk, Final, Replies, Runnable, RepliesMatch;
    RunInv(run, steps, i);
    RunInv(run, steps, j);
    SameInit(run, steps, i, j);
    ExecutedAreCommitted(a, r);
    ExecutedAreLinked(a, r);
    ExecutionHolds(a, r);
    ExecutionHolds(b, s);
    LogsAgree(run, steps, i, r, j, s);
    SameExecution(a.init, CommittedGraph(a, r), TimesOf(Sp(a, r)), LogOf(a, r),
                  CommittedGraph(b, s), TimesOf(Sp(b, s)), LogOf(b, s));
    MatchReplies(a, r, b, s);
  }

  lemma LogsAgree(run: seq<Global>, steps: seq<Step>, i: nat, r: nat, j: nat, s: nat)
    requires IsRun(run, steps) && i < |run| && j < |run| && r < |run[i].nodes| && s < |run[j].nodes|
    requires Elems(LogOf(run[i], r)) == Elems(LogOf(run[j], s))
    ensures AgreeOn(CommittedGraph(run[i], r), CommittedGraph(run[j], s), LogOf(run[i], r))
  {
    var a, b := run[i], run[j];
    hide Inv, IsRun, CommittedGraph, LogOf, CommittedAt;
    forall x | x in LogOf(a, r)
      ensures x in CommittedGraph(a, r) && x in CommittedGraph(b, s) && CommittedGraph(a, r)[x] == CommittedGraph(b, s)[x]
    {
      assert x in Elems(LogOf(a, r)) && x in Elems(LogOf(b, s)) && x in LogOf(b, s);
      RunInv(run, steps, i);
      RunInv(run, steps, j);
      InLogCommitted(a, r, x);
      InLogCommitted(b, s, x);
      CommittedAgree(run, steps, i, r, j, s, x);
      GraphAt(a, r, x);
      GraphAt(b, s, x);
    }
  }

  lemma ExecutionHolds(g: Global, s: nat)
    requires Inv(g) && s < |g.nodes|
    ensures ValidLog(CommittedGraph(g, s), TimesOf(Sp(g, s)), LogOf(g, s))
    ensures ReplayOk(g.init, CommittedGraph(g, s), g.nodes[s].ex.store, g.nodes[s].ex.replies, LogOf(g, s))
    ensures Runnable(BatchesOf(CommittedGraph(g, s)), LogOf(g, s))
    ensures g.nodes[s].ex.store == Final(g.init, BatchesOf(CommittedGraph(g, s)), LogOf(g, s))
  {
    hide Basic, Rounds, Votes, ValidLog, ReplyOk;
    assert ExecutionOk(g.init, Sp(g, s), g.nodes[s].ex);
  }

  lemma MatchReplies(a: Global, r: nat, b: Global, s: nat)
    requires r < |a.nodes| && s < |b.nodes| && a.init == b.init
    requires ReplayOk(a.init, CommittedGraph(a, r), a.nodes[r].ex.store, a.nodes[r].ex.replies, LogOf(a, r))
    requires SingleCommands(CommittedGraph(a, r), LogOf(a, r))
    requires Runnable(BatchesOf(CommittedGraph(a, r)), LogOf(a, r))
    requires Runnable(BatchesOf(CommittedGraph(b, s)), LogOf(b, s))
    requires forall x :: x in LogOf(a, r) && CommittedGraph(a, r)[x].cmds[0].op != SCAN ==>
               x in LogOf(b, s) && Replies(a.init, BatchesOf(CommittedGraph(a, r)), LogOf(a, r))[x]
                                == Replies(b.init, BatchesOf(CommittedGraph(b, s)), LogOf(b, s))[x]
    ensures RepliesMatch(a, r, b, s)
  {
    hide CommittedGraph, Runnable, Final;
    forall k | 0 <= k < |a.nodes[r].ex.replies|
      ensures ReplyMatches(CommittedGraph(a, r), Replies(b.init, BatchesOf(CommittedGraph(b, s)), LogOf(b, s)),
                           a.nodes[r].ex.replies[k])
    {
      assert ReplyOk(a.init, CommittedGraph(a, r), a.nodes[r].ex.replies[k], LogOf(a, r));
    }
  }

  lemma SameInit(run: seq<Global>, steps: seq<Step>, i: nat, j: nat)
    requires IsRun(run, steps) && i < |run| && j < |run|
    ensures run[i].init == run[j].init
  {
    hide NextStep;
    RunEvolves(run, steps, 0, i);
    RunEvolves(run, steps, 0, j);
  }
}
