/** CommittedUpTo of every replica names, at every moment, exactly the committed prefix of each column. */
module EpaxosColumns {
  import opened State
  import opened Sequences
  import opened Traces
  import opened DepGraph
  import opened Options
  import opened EpaxosTypes
  import opened EpaxosSpec
  import opened EpaxosProtocol
  import opened EpaxosBasic
  import opened EpaxosRounds
  import opened EpaxosVotes
  import opened EpaxosExecution
  import opened EpaxosSafety
  import opened EpaxosTheorems
  import opened EpaxosQuiet
  import opened SccSearch

  /** Everything up to u is committed, and the next instance is not. */
  ghost predicate Prefix(space: Space, q: nat, u: int) {
    && u >= -1
    && (forall i: nat :: i <= u ==> DecidedAt(space, Id(q, i)))
    && !DecidedAt(space, Id(q, u + 1))
  }

  ghost predicate ColumnsOk(rs: RState) {
    |rs.committedUpTo| == rs.n && forall q: nat :: q < rs.n ==> Prefix(rs.space, q, rs.committedUpTo[q])
  }

  /** Nothing is committed that was not before. */
  ghost predicate SameDecided(a: RState, b: RState) {
    && b.n == a.n && b.committedUpTo == a.committedUpTo
    && forall id :: DecidedAt(b.space, id) <==> DecidedAt(a.space, id)
  }

  lemma SameColumns(a: RState, b: RState)
    requires ColumnsOk(a) && SameDecided(a, b)
    ensures ColumnsOk(b)
  {
    hide DecidedAt;
    forall q: nat | q < b.n ensures Prefix(b.space, q, b.committedUpTo[q]) {
      assert Prefix(a.space, q, a.committedUpTo[q]);
    }
  }

  /** One instance is committed, and its column moves on. */
  lemma OneCommitted(a: RState, b: RState, id: Id)
    requires ColumnsOk(a) && b.n == a.n && b.committedUpTo == a.committedUpTo && id.replica < a.n
    requires DecidedAt(b.space, id) && forall x :: x != id ==> (DecidedAt(b.space, x) <==> DecidedAt(a.space, x))
    ensures ColumnsOk(UpdateCommitted(b, id.replica))
  {
    hide DecidedAt;
    var c := UpdateCommitted(b, id.replica);
    forall q: nat | q < a.n ensures Prefix(c.space, q, c.committedUpTo[q]) {
      assert Prefix(a.space, q, a.committedUpTo[q]);
    }
  }

  // ---------------------------------------------------------------- the handlers

  lemma PreAcceptColumnsOk(st: RState, m: Msg, now: int)
    requires CanHandle(st, m) && m.PreAccept?
    ensures SameDecided(st, HandlePreAccept(st, m, now).st)
  {
    hide ConflictsKnown, UpdateAttributes;
  }

  lemma AcceptColumnsOk(st: RState, m: Msg, now: int)
    requires CanHandle(st, m) && m.Accept?
    ensures SameDecided(st, HandleAccept(st, m, now).st)
  {
    hide ConflictsKnown;
  }

  lemma CommitColumnsOk(st: RState, m: Msg, now: int)
    requires CanHandle(st, m) && m.Commit? && ColumnsOk(st)
    ensures ColumnsOk(HandleCommit(st, m, now).st)
  {
    hide ColumnsOk, UpdateCommitted;
    var st1 := Notice(st, m.id, m.ballot);
    var inst := Lookup(st1, m.id, now);
    var st2 := st1.(space := st1.space[m.id := inst]);
    if Rank(inst.status) >= Rank(COMMITTED) || m.ballot < inst.bal {
      SameColumns(st, st2);
    } else {
      var inst1 := inst.(bal := m.ballot, vbal := m.ballot, cmds := Some(m.command), seqno := m.seqno,
                         deps := m.deps, status := COMMITTED);
      OneCommitted(st, UpdateConflicts(st2.(space := st2.space[m.id := inst1]), m.command, m.id, m.seqno), m.id);
    }
  }

  lemma ReplyColumnsOk(st: RState, m: Msg, targets: seq<nat>)
    requires CanHandle(st, m) && m.PreAcceptReply? && LeaderOk(st.n, m.id, st.space[m.id]) && ColumnsOk(st)
    ensures ColumnsOk(HandlePreAcceptReply(st, m, targets).st)
  {
    hide ConflictsKnown, ColumnsOk, UpdateCommitted, Tally;
    var inst := st.space[m.id];
    var lb, st1 := inst.lb.value, st.(maxRecvBallot := Max(st.maxRecvBallot, m.ballot));
    SameColumns(st, st1);
    if Open(lb) {
      var (lb1, allCommitted) := Tally(st1, inst, lb, m);
      DecideColumnsOk(st1, m.id, lb1, allCommitted, targets);
    }
    var st2 := HandlePreAcceptReply(st, m, targets).st;
    if lb.lastTriedBallot < m.ballot {
      SameColumns(st, st2);
    }
  }

  lemma DecideColumnsOk(st: RState, id: Id, lb: LeaderBookkeeping, allCommitted: bool, targets: seq<nat>)
    requires id in st.space && id.replica < st.n && ColumnsOk(st) && !Decided(st.space[id])
    requires id.replica < |st.committedUpTo| && st.committedUpTo[id.replica] >= -1
    ensures ColumnsOk(Decide(st, id, lb, allCommitted, targets).st)
  {
    hide ColumnsOk, UpdateCommitted;
    var inst := st.space[id];
    if lb.preAcceptOKs >= FastQuorumSize(st.f) - 1 {
      if lb.allEqual && allCommitted && lb.lastTriedBallot == id.replica {
        OneCommitted(st, st.(space := st.space[id := Settle(inst, lb.(status := COMMITTED))]), id);
      } else {
        SameColumns(st, st.(space := st.space[id := Settle(inst, lb.(status := ACCEPTED))]));
      }
    } else {
      SameColumns(st, st.(space := st.space[id := inst.(lb := Some(lb))]));
    }
  }

  lemma AcceptReplyColumnsOk(st: RState, m: Msg, targets: seq<nat>)
    requires CanHandle(st, m) && m.AcceptReply? && ColumnsOk(st)
    ensures ColumnsOk(HandleAcceptReply(st, m, targets).st)
  {
    hide ConflictsKnown, ColumnsOk, UpdateCommitted;
    var inst := st.space[m.id];
    var lb, st1 := inst.lb.value, st.(maxRecvBallot := Max(st.maxRecvBallot, m.ballot));
    SameColumns(st, st1);
    if lb.status == ACCEPTED && lb.lastTriedBallot == m.ballot {
      var lb1 := lb.(acceptOKs := lb.acceptOKs + 1);
      if lb1.acceptOKs + 1 > st.n / 2 {
        OneCommitted(st, st1.(space := st1.space[m.id := inst.(lb := Some(lb1.(status := COMMITTED)), status := COMMITTED)]), m.id);
      } else {
        SameColumns(st, st1.(space := st1.space[m.id := inst.(lb := Some(lb1))]));
      }
    }
  }

  // ---------------------------------------------------------------- runs

  ghost predicate AllColumnsOk(g: Global) {
    forall s :: 0 <= s < |g.nodes| ==> ColumnsOk(g.nodes[s].rs)
  }

  lemma ColumnsDeliver(g: Global, g': Global, p: Packet, now: int, targets: seq<nat>)
    requires Inv(g) && AllColumnsOk(g) && DeliverStep(g, g', p, now, targets)
    ensures AllColumnsOk(g')
  {
    hide Inv, ColumnsOk, Local, HandlePreAccept, HandlePreAcceptReply, HandleAccept, HandleAcceptReply, HandleCommit;
    var rs, m := g.nodes[p.dst].rs, p.msg;
    EntryAt(g, p);
    match m {
      case PreAccept(_, _, _, _, _, _) =>
        PreAcceptColumnsOk(rs, m, now);
        SameColumns(rs, HandlePreAccept(rs, m, now).st);
      case PreAcceptReply(_, _, _, _, _, _, _) => ReplyColumnsOk(rs, m, targets);
      case Accept(_, _, _, _, _) =>
        AcceptColumnsOk(rs, m, now);
        SameColumns(rs, HandleAccept(rs, m, now).st);
      case AcceptReply(_, _) => AcceptReplyColumnsOk(rs, m, targets);
      case Commit(_, _, _, _, _, _) => CommitColumnsOk(rs, m, now);
    }
  }

  lemma EntryAt(g: Global, p: Packet)
    requires Inv(g) && p in g.net && p.dst < |g.nodes|
    ensures p.msg.PreAcceptReply? ==> p.msg.id in Sp(g, p.dst) && LeaderOk(g.nodes[p.dst].rs.n, p.msg.id, Sp(g, p.dst)[p.msg.id])
  {
    hide Rounds, Votes, Executions, Leaders, Entries, LeaderOk, Local;
    LeaderAt(g, p);
  }

  lemma ColumnsPropose(g: Global, g': Global, s: nat, c: Command, waits: bool, now: int, targets: seq<nat>)
    requires Inv(g) && AllColumnsOk(g) && ProposeStep(g, g', s, c, waits, now, targets)
    ensures AllColumnsOk(g')
  {
    ProposeFacts(g, g', s, c, waits, now, targets);
    NewIsUndecided(g.nodes[s].rs, c, waits, now, targets);
    hide Inv, Propose, ColumnsOk, Touch, LeaderOk, Indexed, Local;
    SameColumns(g.nodes[s].rs, g'.nodes[s].rs);
  }

  lemma NewIsUndecided(st: RState, c: Command, waits: bool, now: int, targets: seq<nat>)
    requires Local(st) && NextId(st) !in st.space
    ensures SameDecided(st, Propose(st, [c], waits, now, targets).st)
  {
    hide ConflictsKnown, UpdateAttributes;
  }

  lemma ColumnsExecute(g: Global, g': Global, s: nat, space: Space, ex: Execution)
    requires AllColumnsOk(g) && ExecuteStep(g, g', s, space, ex)
    ensures AllColumnsOk(g')
  {
    hide ColumnsOk, ExecutionOk;
    assert forall id :: id in space ==> SameInstance(Sp(g, s)[id], space[id]);
    SameColumns(g.nodes[s].rs, g'.nodes[s].rs);
  }

  lemma {:induction false} RunColumns(run: seq<Global>, steps: seq<Step>, i: nat)
    requires IsRun(run, steps) && i < |run|
    ensures AllColumnsOk(run[i])
  {
    hide Inv, NextStep, AllColumnsOk;
    if i == 0 {
      NothingDecided(run[0]);
    } else {
      RunInv(run, steps, i - 1);
      RunColumns(run, steps, i - 1);
      StepColumns(run[i - 1], run[i], steps[i - 1]);
    }
  }

  lemma NothingDecided(g: Global)
    requires Init(g)
    ensures AllColumnsOk(g)
  {
  }

  lemma StepColumns(g: Global, g': Global, step: Step)
    requires Inv(g) && AllColumnsOk(g) && NextStep(g, g', step)
    ensures AllColumnsOk(g')
  {
    hide Inv, AllColumnsOk, DeliverStep, ProposeStep, ExecuteStep;
    match step {
      case Proposing(s, c, waits, now, targets) => ColumnsPropose(g, g', s, c, waits, now, targets);
      case Delivering(p, now, targets) => ColumnsDeliver(g, g', p, now, targets);
      case Executing(s, space, ex) => ColumnsExecute(g, g', s, space, ex);
    }
  }

  /** In every run, at every replica, CommittedUpTo of a column is the last instance before the first one that is
      not committed there. */
  lemma CommittedUpToIsExact(run: seq<Global>, steps: seq<Step>, i: nat, s: nat, q: nat)
    requires IsRun(run, steps) && i < |run| && s < |run[i].nodes| && q < run[i].n
    ensures q < |run[i].nodes[s].rs.committedUpTo| && run[i].nodes[s].rs.committedUpTo[q] >= -1
    ensures forall j: nat :: j <= run[i].nodes[s].rs.committedUpTo[q] ==> CommittedAt(run[i], s, Id(q, j))
    ensures !CommittedAt(run[i], s, Id(q, run[i].nodes[s].rs.committedUpTo[q] + 1))
  {
    hide IsRun, Inv;
    RunInv(run, steps, i);
    RunColumns(run, steps, i);
    NodeIs(run[i], s);
    assert ColumnsOk(run[i].nodes[s].rs);
    assert Prefix(run[i].nodes[s].rs.space, q, run[i].nodes[s].rs.committedUpTo[q]);
  }

  lemma NodeIs(g: Global, s: nat)
    requires Inv(g) && s < |g.nodes|
    ensures g.nodes[s].rs.n == g.n
  {
    hide Leaders, Entries, Packets, Rounds, Votes, Executions, Local;
  }
}
