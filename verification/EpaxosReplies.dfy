/** Clients of EPaxos, over whole runs: every command that a client waits for is answered exactly once, by the
    replica that it was sent to, with what the execution so far makes of it. */
module EpaxosReplies {
  import opened State
  import opened Sequences
  import opened Traces
  import opened Semantics
  import opened DepGraph
  import opened Options
  import opened EpaxosTypes
  import opened EpaxosSpec
  import opened EpaxosProtocol
  import opened EpaxosBasic
  import opened EpaxosRounds
  import opened EpaxosVotes
  import opened EpaxosExecution
  import opened EpaxosSafety
  import opened EpaxosTheorems
  import opened SccSearch
  import opened Replay

  lemma ProposedFor(g: Global, g': Global, s: nat, c: Command, waits: bool, now: int, targets: seq<nat>)
    requires Inv(g) && ProposeStep(g, g', s, c, waits, now, targets)
    ensures s < |g.nodes| && Local(g.nodes[s].rs)
    ensures Started(g', NextId(g.nodes[s].rs))
    ensures Lb(g', NextId(g.nodes[s].rs)).cmds == [c] && Lb(g', NextId(g.nodes[s].rs)).clientProposals == waits
  {
    hide Inv, Propose, ConflictsKnown;
    NodeHasId(g, s);
    NewLb(g.nodes[s].rs, c, waits, now, targets);
  }

  lemma NewLb(st: RState, c: Command, waits: bool, now: int, targets: seq<nat>)
    requires Local(st)
    ensures var o, id := Propose(st, [c], waits, now, targets), NextId(st);
      id in o.st.space && o.st.space[id].lb.Some? && o.st.space[id].lb.value.cmds == [c]
      && o.st.space[id].lb.value.clientProposals == waits
  {
    hide ConflictsKnown, UpdateAttributes;
  }

  lemma NodeHasId(g: Global, s: nat)
    requires Inv(g) && s < |g.nodes|
    ensures g.nodes[s].rs.id == s
  {
    hide Leaders, Entries, Packets, Rounds, Votes, Executions, Local;
  }

  /** Who waits for an instance, at any replica that has it. */
  lemma WhoWaits(g: Global, r: nat, id: Id)
    requires Inv(g) && r < |g.nodes| && id in Sp(g, r) && Decided(Sp(g, r)[id])
    ensures Started(g, id) && Sp(g, r)[id].cmds == Some(Lb(g, id).cmds)
    ensures Waits(Sp(g, r)[id]) <==> r == id.replica && Lb(g, id).clientProposals
  {
    hide Rounds, Votes, Executions, Packets, LeaderOk, Indexed, Local;
    assert EntryOk(g, r, id);
  }

  lemma AnswersOf(g: Global, r: nat, id: Id, idx: nat)
    requires Inv(g) && r < |g.nodes| && Started(g, id)
    ensures Answered(g.nodes[r].ex.replies, id, idx) <==>
              id in LogOf(g, r) && r == id.replica && Lb(g, id).clientProposals
              && idx < |Lb(g, id).cmds| && Lb(g, id).cmds[idx].op != NONE
    ensures NoneTwice(g.nodes[r].ex.replies)
  {
    hide Basic, Rounds, Votes, Answered, NoneTwice, ValidLog, ReplayOk;
    assert ExecutionOk(g.init, Sp(g, r), g.nodes[r].ex);
    if id in LogOf(g, r) {
      WhoWaits(g, r, id);
    }
  }

  /** In every run: the command c of a proposal with a waiting client is answered by the replica that took the
      proposal once it has executed the instance, unless it is a no-op; there is never a second answer, no other
      replica answers, and no answer goes to a client that does not wait. */
  lemma EveryClientIsAnsweredOnce(run: seq<Global>, steps: seq<Step>, j: nat, i: nat, r: nat, idx: nat)
    requires IsRun(run, steps) && j < |steps| && steps[j].Proposing? && j < i < |run| && r < |run[i].nodes|
    ensures steps[j].s < |run[j].nodes| && Local(run[j].nodes[steps[j].s].rs)
    ensures var id := NextId(run[j].nodes[steps[j].s].rs);
      Answered(run[i].nodes[r].ex.replies, id, idx) <==>
        id in LogOf(run[i], r) && r == steps[j].s && steps[j].waits && idx == 0 && steps[j].c.op != NONE
    ensures NoneTwice(run[i].nodes[r].ex.replies)
  {
    hide Inv, Answered, NoneTwice, Started, Lb, LogOf, Evolves, ProposeStep, DeliverStep, ExecuteStep, ConflictsKnown, Init;
    var step := steps[j];
    assert NextStep(run[j], run[j + 1], step);
    RunInv(run, steps, j);
    RunInv(run, steps, i);
    ProposedFor(run[j], run[j + 1], step.s, step.c, step.waits, step.now, step.targets);
    var id := NextId(run[j].nodes[step.s].rs);
    NodeHasId(run[j], step.s);
    RunEvolves(run, steps, j + 1, i);
    StaysProposed(run[j + 1], run[i], id);
    AnswersOf(run[i], r, id, idx);
  }

  lemma StaysProposed(g: Global, g': Global, id: Id)
    requires Evolves(g, g') && Started(g, id)
    ensures Started(g', id) && Lb(g', id).cmds == Lb(g, id).cmds && Lb(g', id).clientProposals == Lb(g, id).clientProposals
  {
  }

  /** In every run, an answer carries what its command gives at its place in the sequence of all commands that
      the replica has executed: for a GET the last value put before it. */
  lemma EveryAnswerIsRight(run: seq<Global>, steps: seq<Step>, i: nat, r: nat, k: nat) returns (j: nat)
    requires IsRun(run, steps) && i < |run| && r < |run[i].nodes| && k < |run[i].nodes[r].ex.replies|
    ensures Runnable(BatchesOf(CommittedGraph(run[i], r)), LogOf(run[i], r))
    ensures var c, log, reply := BatchesOf(CommittedGraph(run[i], r)), LogOf(run[i], r), run[i].nodes[r].ex.replies[k];
      && j < |log| && log[j] == reply.id && reply.idx < |c[log[j]]|
      && Start(c, log, j) + reply.idx < |Flat(c, log)| && AllWellFormed(Flat(c, log))
      && Flat(c, log)[Start(c, log, j) + reply.idx] == c[log[j]][reply.idx]
      && RepliesRight(run[i].init, Flat(c, log), Start(c, log, j) + reply.idx, reply.value)
  {
    hide IsRun, Inv, ValidLog, Final, RepliesRight, CommittedGraph, BatchesOf, Replies, AllWellFormed;
    RunInv(run, steps, i);
    ExecutionHolds(run[i], r);
    var c, log, reply := BatchesOf(CommittedGraph(run[i], r)), LogOf(run[i], r), run[i].nodes[r].ex.replies[k];
    ValidDistinct(CommittedGraph(run[i], r), TimesOf(Sp(run[i], r)), log);
    assert ReplyOk(run[i].init, CommittedGraph(run[i], r), reply, log);
    j :| 0 <= j < |log| && log[j] == reply.id;
    ReplyLengths(run[i].init, c, log, j);
    InstancesAreCommands(run[i].init, c, log, j, reply.idx);
    RepliesAreRight(run[i].init, Flat(c, log), Start(c, log, j) + reply.idx);
  }

  lemma {:induction false} ReplyLengths(s: Store, c: Batches<Id>, log: seq<Id>, j: nat)
    requires Runnable(c, log) && j < |log|
    ensures |Replies(s, c, log)[log[j]]| == |c[log[j]]|
    decreases |log|
  {
    if log[j] != log[0] {
      ReplyLengths(ApplyBatch(s, c[log[0]]), c, log[1..], j - 1);
      assert log[1..][j - 1] == log[j];
    }
  }

  /** The store of a replica holds, for every key, the last value put by the commands it has executed. */
  lemma StoreIsLastPuts(run: seq<Global>, steps: seq<Step>, i: nat, r: nat, k: Key)
    requires IsRun(run, steps) && i < |run| && r < |run[i].nodes|
    ensures var c, log := BatchesOf(CommittedGraph(run[i], r)), LogOf(run[i], r);
      Runnable(c, log) && Holds(run[i].init, Flat(c, log), |Flat(c, log)|, k, At(run[i].nodes[r].ex.store, k))
  {
    hide IsRun, Inv, ValidLog, Final, CommittedGraph, BatchesOf, Holds;
    RunInv(run, steps, i);
    ExecutionHolds(run[i], r);
    var c, log := BatchesOf(CommittedGraph(run[i], r)), LogOf(run[i], r);
    FlatRun(run[i].init, c, log);
    StoreHolds(run[i].init, Flat(c, log), |Flat(c, log)|, k);
    assert Flat(c, log)[..|Flat(c, log)|] == Flat(c, log);
  }
}
