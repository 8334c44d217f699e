/** A running replica takes the steps of the protocol: whatever Replica and Exec do to their fields is
    a step of EpaxosProtocol, so the theorems about runs speak about them. */
module EpaxosNode {
  import opened State
  import opened Sequences
  import opened Traces
  import opened DepGraph
  import opened Options
  import opened EpaxosTypes
  import opened EpaxosSpec
  import opened EpaxosReplica
  import opened EpaxosExec
  import opened EpaxosProtocol
  import opened EpaxosBasic
  import opened EpaxosRounds
  import opened EpaxosVotes
  import opened EpaxosExecution
  import opened EpaxosSafety
  import opened EpaxosTheorems
  import opened EpaxosQuiet
  import opened EpaxosLive
  import opened SccSearch
  import opened Replay

  /** e and its replica are node s of g. */
  ghost predicate Runs(e: Exec, g: Global, s: nat)
    reads e, e.r, e.r.State
  {
    && s < |g.nodes| && e.r.Id == s && e.r.PeersOk() && e.init == g.init && e.r.Dreply
    && e.r.Abs() == g.nodes[s].rs
    && Execution(e.log, e.r.State.Store, e.r.clientReplies) == g.nodes[s].ex
    && e.ExecedIsExecuted()
  }

  /** A new replica is a node of the initial state. */
  method StartNode(ghost g: Global, id: nat, f: nat, st: KVState) returns (e: Exec)
    requires Init(g) && f == g.f && id < 2 * f + 1 && st.Store == g.init
    ensures Runs(e, g, id) && Inv(g) && fresh(e) && fresh(e.r) && e.r.State == st
  {
    InitInv(g);
    hide Inv;
    var r := new Replica(id, f, st);
    e := new Exec(r);
  }

  lemma NodeIsLocal(g: Global, s: nat)
    requires Inv(g) && s < |g.nodes|
    ensures Local(g.nodes[s].rs) && g.nodes[s].rs.f == g.f && g.f >= 1 && g.nodes[s].rs.n == g.n == |g.nodes|
    ensures g.nodes[s].rs.id == s
  {
    hide Leaders, Entries, Packets, Rounds, Votes, Executions, Local;
  }

  lemma NodeIsValid(e: Exec, g: Global, s: nat)
    requires Inv(g) && Runs(e, g, s)
    ensures s < |g.nodes| && e.r.Id == s && e.r.PeersOk() && e.init == g.init && e.r.Abs() == g.nodes[s].rs && e.r.Dreply
    ensures Execution(e.log, e.r.State.Store, e.r.clientReplies) == g.nodes[s].ex && e.ExecedIsExecuted()
    ensures e.r.Valid() && Local(g.nodes[s].rs) && g.nodes[s].rs.f == g.f == e.r.F && g.f >= 1
    ensures g.nodes[s].rs.n == g.n == e.r.N && e.r.InstanceSpace == Sp(g, s) && |e.r.crtInstance| == e.r.N
    ensures g.nodes[s].rs.id == s
  {
    hide Inv, Local;
    NodeIsLocal(g, s);
    CrtLength(g.nodes[s].rs);
  }

  lemma CrtLength(st: RState)
    requires Local(st)
    ensures |st.crtInstance| == st.n
  {
  }

  /** A proposal of one command. */
  method TakeProposal(e: Exec, ghost g: Global, s: nat, c: Command, waits: bool, now: int)
    returns (ghost g': Global, ghost step: Step)
    requires Inv(g) && Runs(e, g, s) && WellFormed(c)
    modifies e.r`InstanceSpace, e.r`crtInstance, e.r`conflicts, e.r`maxSeqPerKey, e.r`maxSeq, e.r`sent
    ensures NextStep(g, g', step) && Inv(g') && Runs(e, g', s)
    ensures forall p :: p in e.r.sent ==> p in old(e.r.sent) || p in g'.net
    ensures Enabled(g, step) && (e.r.AllAlive() ==> Full(g, step))
  {
    hide *;
    NodeIsValid(e, g, s);
    ghost var targets := e.r.HandlePropose([c], waits, now);
    g', step := ProposalIsStep(g, s, c, waits, now, targets);
    ProposalIsFull(g, s, c, waits, now, targets);
    StillRuns(e, g, g', s);
  }

  lemma ProposalIsFull(g: Global, s: nat, c: Command, waits: bool, now: int, targets: seq<nat>)
    requires s < |g.nodes| && Local(g.nodes[s].rs) && WellFormed(c)
    requires TargetsOk(g.nodes[s].rs, FastQuorumSize(g.f) - 1, targets)
    ensures Enabled(g, Proposing(s, c, waits, now, targets))
    ensures |targets| == FastQuorumSize(g.f) - 1 ==> Full(g, Proposing(s, c, waits, now, targets))
  {
  }

  lemma ProposalIsStep(g: Global, s: nat, c: Command, waits: bool, now: int, targets: seq<nat>)
    returns (g': Global, step: Step)
    requires Inv(g) && s < |g.nodes| && Local(g.nodes[s].rs) && WellFormed(c)
    requires TargetsOk(g.nodes[s].rs, FastQuorumSize(g.f) - 1, targets)
    ensures step == Proposing(s, c, waits, now, targets)
    ensures NextStep(g, g', step) && Inv(g') && |g'.nodes| == |g.nodes| && g'.init == g.init
    ensures var o := Propose(g.nodes[s].rs, [c], waits, now, targets);
      g'.nodes[s] == g.nodes[s].(rs := o.st) && forall p :: p in o.out ==> p in g'.net
  {
    hide Inv, Propose, Local, TargetsOk;
    var o := Propose(g.nodes[s].rs, [c], waits, now, targets);
    step := Proposing(s, c, waits, now, targets);
    g' := g.(nodes := g.nodes[s := g.nodes[s].(rs := o.st)], net := g.net + SetOf(o.out), sent := g.sent + SetOf(o.out));
    StepInv(g, g', step);
  }

  lemma StillRuns(e: Exec, g: Global, g': Global, s: nat)
    requires s < |g.nodes| == |g'.nodes| && g'.init == g.init
    requires e.r.Id == s && e.r.PeersOk() && e.init == g.init && e.ExecedIsExecuted() && e.r.Dreply
    requires e.r.Abs() == g'.nodes[s].rs
    requires Execution(e.log, e.r.State.Store, e.r.clientReplies) == g'.nodes[s].ex
    ensures Runs(e, g', s)
  {
  }

  /** The handler of one message: the cases of the event loop of run. */
  method HandleMessage(r: Replica, m: Msg, now: int) returns (ghost targets: seq<nat>)
    requires r.Valid() && r.F >= 1 && CanHandle(r.Abs(), m)
    modifies r`InstanceSpace, r`crtInstance, r`CommittedUpTo, r`conflicts, r`maxSeqPerKey, r`maxSeq,
      r`maxRecvBallot, r`sent
    ensures TargetsOk(old(r.Abs()), r.N, targets)
    ensures var o := Handle(old(r.Abs()), m, now, targets);
      r.Abs() == o.st && r.sent == old(r.sent) + o.out
    ensures r.AllAlive() && (m.AcceptReply? || (m.PreAcceptReply? && PreAccepted(m.status))) ==>
              EnoughFor(old(r.Abs()), r.Abs(), m.id, targets)
  {
    hide EnoughFor, HandlePreAccept, HandlePreAcceptReply, HandleAccept, HandleAcceptReply, HandleCommit, ConflictsKnown;
    targets := [];
    match m
    case PreAccept(_, _, _, _, _, _) =>
      r.HandlePreAccept(m, now);
    case PreAcceptReply(_, _, _, _, _, _, _) =>
      targets := r.HandlePreAcceptReply(m);
    case Accept(_, _, _, _, _) =>
      r.HandleAccept(m, now);
    case AcceptReply(_, _) =>
      targets := r.HandleAcceptReply(m);
    case Commit(_, _, _, _, _, _) =>
      r.HandleCommit(m, now);
  }

  lemma MessageCanBeHandled(g: Global, p: Packet)
    requires Inv(g) && p in g.net
    ensures p.dst < |g.nodes| && CanHandle(g.nodes[p.dst].rs, p.msg)
  {
    hide EntryOk, Rounds, Votes, Executions, Local;
    LeaderAt(g, p);
  }

  /** A message arrives. */
  method TakeMessage(e: Exec, ghost g: Global, ghost p: Packet, m: Msg, now: int)
    returns (ghost g': Global, ghost step: Step)
    requires Inv(g) && p in g.net && p.msg == m && Runs(e, g, p.dst)
    modifies e.r`InstanceSpace, e.r`crtInstance, e.r`CommittedUpTo, e.r`conflicts, e.r`maxSeqPerKey, e.r`maxSeq,
      e.r`maxRecvBallot, e.r`sent
    ensures NextStep(g, g', step) && Inv(g') && Runs(e, g', p.dst)
    ensures forall q :: q in e.r.sent ==> q in old(e.r.sent) || q in g'.net
    ensures Enabled(g, step) && (e.r.AllAlive() ==> Full(g, step))
  {
    hide *;
    NodeIsValid(e, g, p.dst);
    MessageCanBeHandled(g, p);
    ghost var targets := HandleMessage(e.r, m, now);
    g', step := DeliveryIsStep(g, p, now, targets);
    DeliveryIsFull(g, p, now, targets);
    StillRuns(e, g, g', p.dst);
  }

  lemma DeliveryIsFull(g: Global, p: Packet, now: int, targets: seq<nat>)
    requires Inv(g) && p in g.net && p.dst < |g.nodes| && CanHandle(g.nodes[p.dst].rs, p.msg)
    requires TargetsOk(g.nodes[p.dst].rs, g.n, targets)
    ensures Enabled(g, Delivering(p, now, targets))
    ensures (p.msg.AcceptReply? || (p.msg.PreAcceptReply? && PreAccepted(p.msg.status)) ==>
               EnoughFor(g.nodes[p.dst].rs, Handle(g.nodes[p.dst].rs, p.msg, now, targets).st, p.msg.id, targets))
            ==> Full(g, Delivering(p, now, targets))
  {
    hide Rounds, Votes, Executions, Leaders, Entries, Local, EnoughFor, Handle, CanHandle, TargetsOk;
    assert PacketOk(g, p);
  }

  lemma DeliveryIsStep(g: Global, p: Packet, now: int, targets: seq<nat>) returns (g': Global, step: Step)
    requires Inv(g) && p in g.net && p.dst < |g.nodes| && CanHandle(g.nodes[p.dst].rs, p.msg)
    requires TargetsOk(g.nodes[p.dst].rs, g.n, targets)
    ensures step == Delivering(p, now, targets)
    ensures NextStep(g, g', step) && Inv(g') && |g'.nodes| == |g.nodes| && g'.init == g.init
    ensures var o := Handle(g.nodes[p.dst].rs, p.msg, now, targets);
      g'.nodes[p.dst] == g.nodes[p.dst].(rs := o.st) && forall q :: q in o.out ==> q in g'.net
  {
    hide Inv, Handle, CanHandle, TargetsOk;
    var o := Handle(g.nodes[p.dst].rs, p.msg, now, targets);
    step := Delivering(p, now, targets);
    g' := g.(nodes := g.nodes[p.dst := g.nodes[p.dst].(rs := o.st)],
             net := g.net - {p} + SetOf(o.out), sent := g.sent + SetOf(o.out));
    StepInv(g, g', step);
  }

  /** The executor makes a round over all columns. */
  method TakeExecution(e: Exec, ghost g: Global, s: nat) returns (ghost g': Global, ghost step: Step)
    requires Inv(g) && Runs(e, g, s)
    modifies e.r.State, e.r`clientReplies, e.r`InstanceSpace, e.r`ExecedUpTo, e`stack, e`log
    ensures NextStep(g, g', step) && Inv(g') && Runs(e, g', s)
    ensures Enabled(g, step) && Full(g, step)
    ensures s < |g'.nodes| && RoundMade(g', s)
  {
    hide *;
    NodeIsValid(e, g, s);
    ghost var gr, t := CommittedGraph(g, s), TimesOf(Sp(g, s));
    CanExecute(e, g, s);
    var _ := e.ExecuteCommands(gr, t);
    ghost var ex := Execution(e.log, e.r.State.Store, e.r.clientReplies);
    AfterExecution(e, gr, t);
    g', step := ExecutionIsStep(g, s, e.r.InstanceSpace, ex);
    StillRuns(e, g, g', s);
    ExecutionIsFull(g, step);
    MadeRound(e, g', s, gr);
  }

  lemma CanExecute(e: Exec, g: Global, s: nat)
    requires Inv(g) && Runs(e, g, s)
    ensures s < |g.nodes| && e.Valid(CommittedGraph(g, s), TimesOf(Sp(g, s)))
  {
    hide Inv, Agrees, LogIsExecuted, AllUnvisited, ValidLog, ReplayOk, RepliesComplete, GraphOf, TimesOf;
    NodeIsValid(e, g, s);
    ReadyToExecute(g, s);
  }

  lemma AfterExecution(e: Exec, gr: Graph, t: Times)
    requires e.Valid(gr, t)
    ensures LogIsExecuted(e.r.InstanceSpace, e.log) && AllUnvisited(e.r.InstanceSpace) && ValidLog(gr, t, e.log)
    ensures ReplayOk(e.init, gr, e.r.State.Store, e.r.clientReplies, e.log)
    ensures RepliesComplete(e.r.InstanceSpace, e.r.Dreply, e.r.clientReplies, e.log)
    ensures e.ExecedIsExecuted()
  {
  }

  lemma ExecutionIsStep(g: Global, s: nat, space: Space, ex: Execution) returns (g': Global, step: Step)
    requires Inv(g) && s < |g.nodes| && SearchFrame(Sp(g, s), space) && g.nodes[s].ex.log <= ex.log
    requires LogIsExecuted(space, ex.log) && AllUnvisited(space)
    requires ValidLog(CommittedGraph(g, s), TimesOf(Sp(g, s)), ex.log)
    requires ReplayOk(g.init, CommittedGraph(g, s), ex.store, ex.replies, ex.log)
    requires RepliesComplete(space, true, ex.replies, ex.log)
    ensures step.Executing?
    ensures NextStep(g, g', step) && Inv(g') && |g'.nodes| == |g.nodes| && g'.init == g.init
    ensures g'.nodes[s] == Node(g.nodes[s].rs.(space := space), ex) && CommittedGraph(g', s) == CommittedGraph(g, s)
  {
    hide Inv, SearchFrame, LogIsExecuted, AllUnvisited, ValidLog, ReplayOk, RepliesComplete, GraphOf, TimesOf;
    SameGraph(Sp(g, s), space);
    step := Executing(s, space, ex);
    g' := g.(nodes := g.nodes[s := Node(g.nodes[s].rs.(space := space), ex)]);
    StepInv(g, g', step);
  }

  lemma ExecutionIsFull(g: Global, step: Step)
    requires step.Executing?
    ensures Enabled(g, step) && Full(g, step)
  {
  }

  lemma MadeRound(e: Exec, g: Global, s: nat, gr: Graph)
    requires Runs(e, g, s) && Inv(g) && gr == CommittedGraph(g, s)
    requires |e.r.crtInstance| == e.r.N
    requires forall q :: 0 <= q < e.r.N ==> ColumnSettled(gr, e.r.InstanceSpace, e.log, q, e.r.crtInstance[q])
    ensures RoundMade(g, s)
  {
    hide Inv, ColumnSettled, CommittedGraph;
  }

  lemma SameGraph(a: Space, b: Space)
    requires SearchFrame(a, b)
    ensures GraphOf(b) == GraphOf(a) && TimesOf(b) == TimesOf(a)
  {
    assert forall id :: id in a ==> SameInstance(a[id], b[id]);
  }

  lemma ReadyToExecute(g: Global, s: nat)
    requires Inv(g) && s < |g.nodes|
    ensures Agrees(CommittedGraph(g, s), TimesOf(Sp(g, s)), g.n, Sp(g, s))
    ensures LogIsExecuted(Sp(g, s), g.nodes[s].ex.log) && AllUnvisited(Sp(g, s))
    ensures ValidLog(CommittedGraph(g, s), TimesOf(Sp(g, s)), g.nodes[s].ex.log)
    ensures ReplayOk(g.init, CommittedGraph(g, s), g.nodes[s].ex.store, g.nodes[s].ex.replies, g.nodes[s].ex.log)
    ensures RepliesComplete(Sp(g, s), true, g.nodes[s].ex.replies, g.nodes[s].ex.log)
  {
    assert ExecutionOk(g.init, Sp(g, s), g.nodes[s].ex);
    hide Inv, ValidLog, ReplayOk, RepliesComplete, Started, LogIsExecuted, AllUnvisited, Lb;
    forall id | id in Sp(g, s) && Decided(Sp(g, s)[id])
      ensures |Sp(g, s)[id].deps| == g.n && Sp(g, s)[id].cmds.Some? && AllWellFormed(Sp(g, s)[id].cmds.value)
    {
      CommittedIsDecided(g, s, id);
    }
  }
}
