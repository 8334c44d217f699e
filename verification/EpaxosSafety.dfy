/** Safety of failure-free EPaxos over whole runs: what is committed is linked and agreed on. */
module EpaxosSafety {
  import opened State
  import opened Sequences
  import opened Traces
  import opened DepGraph
  import opened Options
  import opened EpaxosTypes
  import opened EpaxosSpec
  import opened EpaxosProtocol
  import opened EpaxosBasic
  import opened EpaxosRounds
  import opened EpaxosVotes
  import opened EpaxosExecution
  import opened SccSearch
  import opened Replay

  ghost predicate Inv(g: Global) {
    Basic(g) && Rounds(g) && Votes(g) && Executions(g)
  }

  // ---------------------------------------------------------------- the invariant holds in every run

  lemma InitInv(g: Global)
    requires Init(g)
    ensures Inv(g)
  {
    assert forall id :: !Started(g, id);
    forall s | 0 <= s < |g.nodes| ensures ExecutionOk(g.init, Sp(g, s), g.nodes[s].ex) {
      assert Elems([]) == {};
    }
  }

  lemma DeliverTouches(g: Global, g': Global, p: Packet, now: int, targets: seq<nat>)
    requires Inv(g) && DeliverStep(g, g', p, now, targets)
    ensures p.dst < |g.nodes| && Touch(g, g', p.dst, p.msg.id)
    ensures Basic(g') && Rounds(g') && Evolves(g, g')
  {
    hide Basic, Rounds, Votes, Executions, Evolves, DeliverStep, Touch;
    DeliverFacts(g, g', p, now, targets);
    match p.msg {
      case PreAccept(_, _, _, _, _, _) => RoundsPreAccept(g, g', p, now, targets);
      case PreAcceptReply(_, _, _, _, _, _, _) => RoundsReply(g, g', p, now, targets);
      case Accept(_, _, _, _, _) => RoundsAccept(g, g', p, now, targets);
      case AcceptReply(_, _) => RoundsAcceptReply(g, g', p, now, targets);
      case Commit(_, _, _, _, _, _) => RoundsCommit(g, g', p, now, targets);
    }
  }

  lemma DeliverInv(g: Global, g': Global, p: Packet, now: int, targets: seq<nat>)
    requires Inv(g) && DeliverStep(g, g', p, now, targets)
    ensures Inv(g') && Evolves(g, g')
  {
    hide Basic, Rounds, Votes, Executions, Evolves, DeliverStep, Touch;
    DeliverTouches(g, g', p, now, targets);
    if p.msg.PreAccept? {
      VotesPreAccept(g, g', p, now, targets);
    } else {
      VotesLater(g, g', p, now, targets);
    }
    ExecutionsDeliver(g, g', p, now, targets);
  }

  /** Only a PreAccept makes a peer vote. */
  lemma VotesLater(g: Global, g': Global, p: Packet, now: int, targets: seq<nat>)
    requires Basic(g) && Votes(g) && Basic(g') && Evolves(g, g') && DeliverStep(g, g', p, now, targets)
    requires Touch(g, g', p.dst, p.msg.id) && !p.msg.PreAccept?
    ensures Votes(g')
  {
    hide Basic, Votes, Evolves, Touch, DeliverStep;
    TouchIndexes(g, g', p.dst, p.msg.id);
    NoNewReplies(g, g', p, now, targets);
    NothingStarted(g, g', p.dst, p.msg.id);
    QuietVotes(g, g', p.dst, p.msg.id);
  }

  lemma NoNewReplies(g: Global, g': Global, p: Packet, now: int, targets: seq<nat>)
    requires Basic(g) && DeliverStep(g, g', p, now, targets) && !p.msg.PreAccept?
    ensures forall q :: q in g'.sent && q.msg.PreAcceptReply? ==> q in g.sent
    ensures Started(g, p.msg.id)
  {
    hide Local, LeaderOk, EntryOk, Tally, UpdateConflicts, UpdateCommitted;
    LeaderAt(g, p);
  }

  lemma NothingStarted(g: Global, g': Global, s: nat, id: Id)
    requires Touch(g, g', s, id) && Started(g, id)
    ensures forall x :: Started(g', x) ==> Started(g, x)
  {
    hide Local, IndexGrows;
    forall x | Started(g', x) ensures Started(g, x) {
      if x != id {
        OtherStays(g, g', s, id, x);
      }
    }
  }

  lemma VotesExecute(g: Global, g': Global, s: nat, space: Space, ex: Execution)
    requires Basic(g) && Votes(g) && ExecuteStep(g, g', s, space, ex)
    ensures Votes(g')
  {
    hide Basic, Votes, Evolves, ExecutionOk;
    ExecuteKeeps(g, g', s, space, ex);
    SameIndexes(g, g');
    QuietVotes(g, g', s, Id(0, 0));
  }

  lemma SameIndexes(g: Global, g': Global)
    requires |g'.nodes| == |g.nodes|
    requires forall r :: 0 <= r < |g.nodes| ==> g'.nodes[r].rs == g.nodes[r].rs.(space := Sp(g', r))
    ensures IndexesGrow(g, g')
  {
  }

  lemma StepInv(g: Global, g': Global, step: Step)
    requires Inv(g) && NextStep(g, g', step)
    ensures Inv(g') && Evolves(g, g')
  {
    hide Basic, Rounds, Votes, Executions, Evolves, DeliverStep, Touch, ProposeStep, ExecuteStep;
    match step {
      case Proposing(s, c, waits, now, targets) =>
        ProposeInRange(g, g', s, c, waits, now, targets);
        BasicPropose(g, g', s, c, waits, now, targets);
        RoundsPropose(g, g', s, c, waits, now, targets);
        VotesPropose(g, g', s, c, waits, now, targets);
        ExecutionsPropose(g, g', s, c, waits, now, targets);
      case Delivering(p, now, targets) =>
        DeliverInv(g, g', p, now, targets);
      case Executing(s, space, ex) =>
        RoundsExecute(g, g', s, space, ex);
        VotesExecute(g, g', s, space, ex);
        ExecutionsExecute(g, g', s, space, ex);
    }
  }

  lemma ProposeInRange(g: Global, g': Global, s: nat, c: Command, waits: bool, now: int, targets: seq<nat>)
    requires ProposeStep(g, g', s, c, waits, now, targets)
    ensures s < |g.nodes| && Local(g.nodes[s].rs)
  {
  }

  lemma {:induction false} RunInv(run: seq<Global>, steps: seq<Step>, i: nat)
    requires IsRun(run, steps) && i < |run|
    ensures Inv(run[i])
  {
    hide Inv, NextStep;
    if i == 0 {
      InitInv(run[0]);
    } else {
      RunInv(run, steps, i - 1);
      StepInv(run[i - 1], run[i], steps[i - 1]);
    }
  }

  lemma {:induction false} RunEvolves(run: seq<Global>, steps: seq<Step>, i: nat, j: nat)
    requires IsRun(run, steps) && i <= j < |run|
    ensures Evolves(run[i], run[j])
    decreases j - i
  {
    hide Inv, NextStep, Evolves;
    if i == j {
      EvolvesRefl(run[i]);
    } else {
      RunEvolves(run, steps, i, j - 1);
      RunInv(run, steps, j - 1);
      StepInv(run[j - 1], run[j], steps[j - 1]);
      EvolvesTrans(run[i], run[j - 1], run[j]);
    }
  }

  lemma EvolvesRefl(g: Global)
    ensures Evolves(g, g)
  {
  }

  lemma EvolvesTrans(a: Global, b: Global, c: Global)
    requires Evolves(a, b) && Evolves(b, c)
    ensures Evolves(a, c)
  {
  }

  // ---------------------------------------------------------------- no panic, no message sent twice

  /** No handler dereferences nil or indexes out of range: every message in flight can be handled. */
  lemma EveryMessageCanBeHandled(run: seq<Global>, steps: seq<Step>, i: nat, p: Packet)
    requires IsRun(run, steps) && i < |run| && p in run[i].net
    ensures p.dst < |run[i].nodes| && CanHandle(run[i].nodes[p.dst].rs, p.msg)
  {
    hide EntryOk, Rounds, Votes, Executions, Local, NextStep, IsRun;
    RunInv(run, steps, i);
    LeaderAt(run[i], p);
  }

  ghost predicate Enabled(g: Global, step: Step) {
    match step
    case Proposing(s, c, waits, now, targets) =>
      s < |g.nodes| && Local(g.nodes[s].rs) && WellFormed(c) && TargetsOk(g.nodes[s].rs, FastQuorumSize(g.f) - 1, targets)
    case Delivering(p, now, targets) =>
      p in g.net && p.dst < |g.nodes| && CanHandle(g.nodes[p.dst].rs, p.msg) && TargetsOk(g.nodes[p.dst].rs, g.n, targets)
    case Executing(s, space, ex) => true
  }

  /** The messages a step sends. */
  ghost function Emitted(g: Global, step: Step): seq<Packet>
    requires Enabled(g, step)
  {
    match step
    case Proposing(s, c, waits, now, targets) => Propose(g.nodes[s].rs, [c], waits, now, targets).out
    case Delivering(p, now, targets) => Handle(g.nodes[p.dst].rs, p.msg, now, targets).out
    case Executing(s, space, ex) => []
  }

  lemma BroadcastDistinct(st: RState, limit: int, targets: seq<nat>, m: Msg)
    requires TargetsOk(st, limit, targets)
    ensures Distinct(Broadcast(st.id, targets, m))
  {
  }

  /** No step sends one message twice, or a message that was sent before: sets of messages lose nothing. */
  lemma NothingSentTwice(run: seq<Global>, steps: seq<Step>, i: nat)
    requires IsRun(run, steps) && i < |steps|
    ensures Enabled(run[i], steps[i])
    ensures run[i + 1].sent == run[i].sent + SetOf(Emitted(run[i], steps[i]))
    ensures Distinct(Emitted(run[i], steps[i]))
    ensures forall p :: p in Emitted(run[i], steps[i]) ==> p !in run[i].sent
  {
    hide Inv;
    var g, g' := run[i], run[i + 1];
    RunInv(run, steps, i);
    assert NextStep(g, g', steps[i]);
    hide IsRun;
    match steps[i] {
      case Proposing(s, c, waits, now, targets) =>
        ProposalIsNew(g, g', s, c, waits, now, targets);
      case Delivering(p, now, targets) =>
        AnswerIsNew(g, g', p, now, targets);
      case Executing(s, space, ex) =>
    }
  }

  lemma ProposalIsNew(g: Global, g': Global, s: nat, c: Command, waits: bool, now: int, targets: seq<nat>)
    requires Inv(g) && ProposeStep(g, g', s, c, waits, now, targets)
    ensures Distinct(Propose(g.nodes[s].rs, [c], waits, now, targets).out)
    ensures forall p :: p in Propose(g.nodes[s].rs, [c], waits, now, targets).out ==> p !in g.sent
  {
    var rs := g.nodes[s].rs;
    hide Rounds, Votes, Executions, EntryOk, LeaderOk, PacketOk, Local, Propose;
    NextIdIsNew(g, s);
    ProposeLocal(rs, c, waits, now, targets);
    Unknown(g, NextId(rs));
    var o := Propose(rs, [c], waits, now, targets);
    var m := PreAccept(NextId(rs), rs.id, rs.id, [c], -1, o.st.space[NextId(rs)].lb.value.originalDeps);
    BroadcastDistinct(rs, FastQuorumSize(g.f) - 1, targets, m);
  }

  lemma AnswerIsNew(g: Global, g': Global, p: Packet, now: int, targets: seq<nat>)
    requires Inv(g) && DeliverStep(g, g', p, now, targets)
    ensures var out := Handle(g.nodes[p.dst].rs, p.msg, now, targets).out;
      Distinct(out) && forall q :: q in out ==> q !in g.sent
  {
    var rs, m := g.nodes[p.dst].rs, p.msg;
    hide Inv, DeliverStep, CanHandle, TargetsOk,
      HandlePreAccept, HandleAcceptReply, HandlePreAcceptReply, HandleAccept, HandleCommit;
    DeliverFacts(g, g', p, now, targets);
    match m {
      case PreAccept(_, _, _, _, _, _) =>
        PreAcceptAnswerIsNew(g, g', p, now, targets);
      case PreAcceptReply(_, _, _, _, _, _, _) =>
        DecisionIsNew(g, g', p, now, targets);
      case Accept(_, _, _, _, _) =>
        AcceptAnswerIsNew(g, g', p, now, targets);
      case AcceptReply(_, _) =>
        DecisionIsNew(g, g', p, now, targets);
      case Commit(_, _, _, _, _, _) =>
        CommitUnanswered(rs, m, now);
    }
  }

  lemma DeliverFacts(g: Global, g': Global, p: Packet, now: int, targets: seq<nat>)
    requires DeliverStep(g, g', p, now, targets)
    ensures p in g.net && p.dst < |g.nodes| && CanHandle(g.nodes[p.dst].rs, p.msg)
    ensures TargetsOk(g.nodes[p.dst].rs, g.n, targets)
  {
  }

  lemma CommitUnanswered(st: RState, m: Msg, now: int)
    requires CanHandle(st, m) && m.Commit?
    ensures HandleCommit(st, m, now).out == []
  {
    hide UpdateCommitted, UpdateConflicts;
  }

  lemma PreAcceptAnswerIsNew(g: Global, g': Global, p: Packet, now: int, targets: seq<nat>)
    requires Inv(g) && DeliverStep(g, g', p, now, targets) && p.msg.PreAccept? && p.dst < |g.nodes|
    requires CanHandle(g.nodes[p.dst].rs, p.msg)
    ensures var out := HandlePreAccept(g.nodes[p.dst].rs, p.msg, now).out;
      Distinct(out) && forall q :: q in out ==> q !in g.sent
  {
    hide Rounds, Votes, Executions, Basic, HandlePreAccept, DeliverStep, Evolves, Touch, PreAcceptResult, CanHandle;
    DeliverFacts(g, g', p, now, targets);
    PendingAt(g, p);
    RoundsPreAccept(g, g', p, now, targets);
    PeerSays(g, p, now, HandlePreAccept(g.nodes[p.dst].rs, p.msg, now));
  }

  lemma AcceptAnswerIsNew(g: Global, g': Global, p: Packet, now: int, targets: seq<nat>)
    requires Inv(g) && DeliverStep(g, g', p, now, targets) && p.msg.Accept? && p.dst < |g.nodes|
    requires CanHandle(g.nodes[p.dst].rs, p.msg)
    ensures var out := HandleAccept(g.nodes[p.dst].rs, p.msg, now).out;
      Distinct(out) && forall q :: q in out ==> q !in g.sent
  {
    hide Rounds, Votes, Executions, Basic, DeliverStep, Evolves, Touch, EntryOk, LeaderOk, PacketOk;
    DeliverFacts(g, g', p, now, targets);
    NotAnsweredYet(g, p);
    LeaderAt(g, p);
  }

  lemma DecisionIsNew(g: Global, g': Global, p: Packet, now: int, targets: seq<nat>)
    requires Inv(g) && DeliverStep(g, g', p, now, targets) && p.dst < |g.nodes| && CanHandle(g.nodes[p.dst].rs, p.msg)
    ensures p.msg.PreAcceptReply? ==>
      var out := HandlePreAcceptReply(g.nodes[p.dst].rs, p.msg, targets).out;
      Distinct(out) && forall q :: q in out ==> q !in g.sent
    ensures p.msg.AcceptReply? ==>
      var out := HandleAcceptReply(g.nodes[p.dst].rs, p.msg, targets).out;
      Distinct(out) && forall q :: q in out ==> q !in g.sent
  {
    hide Rounds, Votes, Executions, Basic, DeliverStep, Evolves, Touch, Distinct, CanHandle, TargetsOk,
      HandleAcceptReply, HandlePreAcceptReply, ReplyOutcome;
    DeliverFacts(g, g', p, now, targets);
    ReplyDistinct(g.nodes[p.dst].rs, p.msg, targets, g.n);
    if p.msg.PreAcceptReply? {
      BasicReply(g, g', p, now, targets);
    } else if p.msg.AcceptReply? {
      BasicAcceptReply(g, g', p, now, targets);
    }
  }

  lemma ReplyDistinct(st: RState, m: Msg, targets: seq<nat>, limit: int)
    requires CanHandle(st, m) && TargetsOk(st, limit, targets)
    ensures m.PreAcceptReply? ==> Distinct(HandlePreAcceptReply(st, m, targets).out)
    ensures m.AcceptReply? ==> Distinct(HandleAcceptReply(st, m, targets).out)
  {
    hide Local, UpdateCommitted, Tally;
  }
}
