/** What every replica has executed stays a valid execution of its committed graph, whatever the
    message handlers do meanwhile. */
module EpaxosExecution {
  import opened State
  import opened Sequences
  import opened Traces
  import opened DepGraph
  import opened Options
  import opened EpaxosTypes
  import opened EpaxosSpec
  import opened EpaxosProtocol
  import opened EpaxosBasic
  import opened EpaxosRounds
  import opened SccSearch
  import opened Replay

  /** A decided entry keeps everything the executor reads, and only the executor sets EXECUTED. */
  ghost predicate EntryKept(a: Space, b: Space, id: Id) {
    && (id in a && Decided(a[id]) ==>
          id in b && b[id].status == a[id].status && b[id].cmds == a[id].cmds && b[id].seqno == a[id].seqno
          && b[id].deps == a[id].deps && b[id].proposeTime == a[id].proposeTime && Waits(b[id]) == Waits(a[id]))
    && (id in b && b[id].status == EXECUTED ==> id in a && a[id].status == EXECUTED)
    && (id in b && b[id].index != 0 ==> id in a && a[id].index == b[id].index)
  }

  ghost predicate Executions(g: Global) {
    forall s :: 0 <= s < |g.nodes| ==> ExecutionOk(g.init, Sp(g, s), g.nodes[s].ex)
  }

  lemma TimesTransfer(g: Graph, t1: Times, t2: Times, log: seq<Id>)
    requires ValidLog(g, t1, log)
    requires forall x :: x in log ==> x in t2 && x in t1 && t2[x] == t1[x]
    ensures ValidLog(g, t2, log)
  {
    hide Closed, Topological, Contiguous, Reach;
  }

  lemma ReplayTransfer(init: Store, g1: Graph, g2: Graph, store: Store, replies: seq<ClientReply>, log: seq<Id>)
    requires ReplayOk(init, g1, store, replies, log)
    requires forall x :: x in log ==> x in g1 && x in g2 && g2[x].cmds == g1[x].cmds
    ensures ReplayOk(init, g2, store, replies, log)
  {
    FinalTransfer(init, BatchesOf(g1), BatchesOf(g2), log);
    forall k | 0 <= k < |replies| ensures ReplyOk(init, g2, replies[k], log) {
      assert ReplyOk(init, g1, replies[k], log);
    }
  }

  /** Handlers do not disturb an execution. */
  lemma ExecutionKept(init: Store, a: Space, b: Space, ex: Execution)
    requires ExecutionOk(init, a, ex) && (forall id :: EntryKept(a, b, id))
    ensures ExecutionOk(init, b, ex)
  {
    hide ValidLog, ReplayOk, RepliesComplete;
    var log := ex.log;
    forall x | x in log
      ensures x in GraphOf(a) && x in GraphOf(b) && GraphOf(b)[x] == GraphOf(a)[x]
      ensures x in TimesOf(a) && x in TimesOf(b) && TimesOf(b)[x] == TimesOf(a)[x]
    {
      assert EntryKept(a, b, x);
    }
    assert Elems(log) <= GraphOf(b).Keys;
    ValidLogTransfer(GraphOf(a), GraphOf(b), TimesOf(a), log);
    TimesTransfer(GraphOf(b), TimesOf(a), TimesOf(b), log);
    ReplayTransfer(init, GraphOf(a), GraphOf(b), ex.store, ex.replies, log);
    forall id | id in log ensures id in a && id in b && b[id].cmds == a[id].cmds && Waits(b[id]) == Waits(a[id]) {
      assert EntryKept(a, b, id);
    }
    CompleteTransfer(a, b, true, ex.replies, log);
    forall id ensures id in b ==> (b[id].status == EXECUTED <==> id in log) {
      assert EntryKept(a, b, id);
    }
    forall id | id in b && b[id].status != EXECUTED ensures b[id].index == 0 {
      assert EntryKept(a, b, id);
    }
  }

  lemma TouchExecutions(g: Global, g': Global, s: nat, id: Id)
    requires Executions(g) && Touch(g, g', s, id) && EntryKept(Sp(g, s), Sp(g', s), id)
    ensures Executions(g')
  {
    hide ExecutionOk;
    OtherSpaces(g, g', s, id);
    forall r | 0 <= r < |g'.nodes| ensures ExecutionOk(g'.init, Sp(g', r), g'.nodes[r].ex) {
      if r == s {
        assert forall x :: x != id ==> EntryKept(Sp(g, s), Sp(g', s), x);
        ExecutionKept(g.init, Sp(g, s), Sp(g', s), g.nodes[s].ex);
      } else {
        assert ExecutionOk(g.init, Sp(g, r), g.nodes[r].ex);
      }
    }
  }

  // ---------------------------------------------------------------- the handlers

  lemma PeerEntryKept(st: RState, m: Msg, now: int)
    requires CanHandle(st, m)
    ensures m.Accept? ==> EntryKept(st.space, HandleAccept(st, m, now).st.space, m.id)
    ensures m.Commit? ==> EntryKept(st.space, HandleCommit(st, m, now).st.space, m.id)
  {
  }

  lemma LeaderEntryKept(st: RState, m: Msg, targets: seq<nat>)
    requires CanHandle(st, m) && m.id in st.space && LeaderOk(st.n, m.id, st.space[m.id])
    ensures m.AcceptReply? ==> EntryKept(st.space, HandleAcceptReply(st, m, targets).st.space, m.id)
    ensures m.PreAcceptReply? ==> EntryKept(st.space, HandlePreAcceptReply(st, m, targets).st.space, m.id)
  {
  }

  lemma ExecutionsPropose(g: Global, g': Global, s: nat, c: Command, waits: bool, now: int, targets: seq<nat>)
    requires Basic(g) && Executions(g) && ProposeStep(g, g', s, c, waits, now, targets)
    ensures Executions(g') && EntryKept(Sp(g, s), Sp(g', s), NextId(g.nodes[s].rs))
  {
    var rs := g.nodes[s].rs;
    hide Evolves, EntryOk, Local, Propose, IndexGrows, ConflictsKnown, Executions, Touch;
    BasicPropose(g, g', s, c, waits, now, targets);
    NextIdIsNew(g, s);
    ProposeLocal(rs, c, waits, now, targets);
    TouchExecutions(g, g', s, NextId(rs));
  }

  lemma ExecutionsDeliver(g: Global, g': Global, p: Packet, now: int, targets: seq<nat>)
    requires Basic(g) && Rounds(g) && Executions(g) && DeliverStep(g, g', p, now, targets)
    requires Touch(g, g', p.dst, p.msg.id)
    ensures Executions(g') && EntryKept(Sp(g, p.dst), Sp(g', p.dst), p.msg.id)
  {
    var rs, m := g.nodes[p.dst].rs, p.msg;
    hide EntryOk, LeaderOk, Local, IndexGrows, ConflictsKnown, Executions, Touch, EntryKept, Rounds,
      HandlePreAccept, HandleAccept, HandleCommit, HandlePreAcceptReply, HandleAcceptReply, PreAcceptResult;
    LeaderAt(g, p);
    match m {
      case PreAccept(_, _, _, _, _, _) =>
        NewEntryKept(g, p, now);
      case PreAcceptReply(_, _, _, _, _, _, _) =>
        LeaderEntryKept(rs, m, targets);
      case AcceptReply(_, _) =>
        LeaderEntryKept(rs, m, targets);
      case Accept(_, _, _, _, _) =>
        PeerEntryKept(rs, m, now);
      case Commit(_, _, _, _, _, _) =>
        PeerEntryKept(rs, m, now);
    }
    TouchExecutions(g, g', p.dst, m.id);
  }

  lemma NewEntryKept(g: Global, p: Packet, now: int)
    requires Basic(g) && Rounds(g) && p in g.net && p.msg.PreAccept? && p.dst < |g.nodes|
    requires CanHandle(g.nodes[p.dst].rs, p.msg)
    ensures EntryKept(Sp(g, p.dst), HandlePreAccept(g.nodes[p.dst].rs, p.msg, now).st.space, p.msg.id)
  {
    hide EntryOk, LeaderOk, UpdateAttributes, HandlePreAccept, Local, ConflictsKnown, Rounds, IndexGrows;
    PendingAt(g, p);
    LeaderAt(g, p);
    PreAcceptIsOne(g, p);
    PreAcceptLocal(g.nodes[p.dst].rs, p.msg, now);
  }

  lemma PreAcceptIsOne(g: Global, p: Packet)
    requires Basic(g) && p in g.net && p.msg.PreAccept?
    ensures |p.msg.command| == 1 && p.msg.ballot >= 0 && p.msg.id.replica != p.dst
  {
    hide EntryOk, Local;
    LeaderAt(g, p);
  }

  lemma ExecutionsExecute(g: Global, g': Global, s: nat, space: Space, ex: Execution)
    requires Executions(g) && ExecuteStep(g, g', s, space, ex)
    ensures Executions(g')
  {
    hide ExecutionOk;
    forall r | 0 <= r < |g'.nodes| ensures ExecutionOk(g'.init, Sp(g', r), g'.nodes[r].ex) {
      if r != s {
        assert ExecutionOk(g.init, Sp(g, r), g.nodes[r].ex);
      }
    }
  }
}
