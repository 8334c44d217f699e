/** What Seq means in EPaxos when it is given: it exceeds the Seq of everything that the replica makes the
    instance depend on. */
module EpaxosSeq {
  import opened State
  import opened Sequences
  import opened Traces
  import opened DepGraph
  import opened Options
  import opened EpaxosTypes
  import opened EpaxosSpec
  import opened EpaxosProtocol
  import opened EpaxosBasic
  import opened EpaxosRounds
  import opened EpaxosVotes
  import opened EpaxosExecution
  import opened EpaxosSafety
  import opened EpaxosTheorems
  import opened EpaxosQuiet
  import opened EpaxosPaths
  import opened EpaxosBatch
  import opened SccSearch

  /** seqno exceeds what st knows of the Seq of every dependency that deps adds to before, and of the key of c. */
  ghost predicate Exceeds(st: RState, c: Command, seqno: int, before: seq<int>, deps: seq<int>) {
    && |before| == |deps|
    && (forall q: nat :: q < |deps| && deps[q] != before[q] ==>
          deps[q] > before[q] && deps[q] >= 0 && SeqOf(st.space, Id(q, deps[q])) < seqno)
    && (c.k in st.maxSeqPerKey ==> st.maxSeqPerKey[c.k] < seqno)
  }

  lemma AttributesExceed(st: RState, c: Command, seqno: int, deps: seq<int>, replica: nat)
    requires ConflictsKnown(st) && |deps| == st.n && AtLeastNil(deps)
    ensures var a := UpdateAttributes(st, [c], seqno, deps, replica);
      Exceeds(st, c, a.seqno, deps, a.deps) && a.seqno >= seqno
      && (a.changed <==> a.seqno != seqno || a.deps != deps)
  {
    var a := UpdateAttributes(st, [c], seqno, deps, replica);
    AttributesExact(st, [c], seqno, deps, replica);
    ChangesAreRaises(st, c, seqno, deps, replica);
    hide ConflictsKnown, UpdateAttributes, SkippedColumn, SeqOf;
    assert [c][0].k in st.maxSeqPerKey ==> a.seqno > st.maxSeqPerKey[[c][0].k];
  }

  lemma ChangesAreRaises(st: RState, c: Command, seqno: int, deps: seq<int>, replica: nat)
    requires ConflictsKnown(st) && |deps| == st.n && AtLeastNil(deps)
    ensures var a := UpdateAttributes(st, [c], seqno, deps, replica);
      forall q: nat :: q < |deps| && a.deps[q] != deps[q] ==> Raised(st, replica, deps, a, q)
  {
    var b := UpdateDeps(st, [c], seqno, deps, replica, st.n);
    forall q: nat | q < |deps| && b.deps[q] != deps[q] ensures Raised(st, replica, deps, b, q) {
      assert !SkippedColumn(st, replica, q) && FirstRaise(st.conflicts[q], [c], deps[q], 0).Some?;
    }
  }

  lemma ProposalExceeds(st: RState, c: Command, waits: bool, now: int, targets: seq<nat>)
    requires Local(st) && NextId(st) !in st.space
    ensures var o, id := Propose(st, [c], waits, now, targets), NextId(st);
      id in o.st.space && o.st.space[id].seqno >= 0 && Exceeds(st, c, o.st.space[id].seqno, NilDeps(st.n), o.st.space[id].deps)
  {
    var st1 := st.(crtInstance := st.crtInstance[st.id := st.crtInstance[st.id] + 1]);
    AttributesExceed(st1, c, 0, NilDeps(st.n), st.id);
    hide ConflictsKnown, UpdateAttributes, SeqOf;
  }

  /** In every run, when a replica proposes a command, the Seq of the new instance exceeds that of every instance
      that it depends on and the largest one recorded for the key. */
  lemma ProposalsExceedTheirDeps(run: seq<Global>, steps: seq<Step>, i: nat)
    requires IsRun(run, steps) && i < |steps| && steps[i].Proposing?
    ensures var s := steps[i].s;
      && s < |run[i].nodes| && s < |run[i + 1].nodes| && Local(run[i].nodes[s].rs)
      && var id := NextId(run[i].nodes[s].rs);
         id in Sp(run[i + 1], s)
         && Exceeds(run[i].nodes[s].rs, steps[i].c, Sp(run[i + 1], s)[id].seqno, NilDeps(run[i].n), Sp(run[i + 1], s)[id].deps)
  {
    hide Inv, Evolves, LeaderOk, Indexed, Touch, ConflictsKnown, Propose, DeliverStep, ExecuteStep, Exceeds;
    var step := steps[i];
    assert NextStep(run[i], run[i + 1], step);
    RunInv(run, steps, i);
    InvParts(run[i]);
    ProposeFacts(run[i], run[i + 1], step.s, step.c, step.waits, step.now, step.targets);
    ProposalExceeds(run[i].nodes[step.s].rs, step.c, step.waits, step.now, step.targets);
  }

  /** The answer to a PreAccept of an instance that the replica does not know yet. */
  lemma AnswerExceeds(st: RState, m: Msg, now: int)
    requires CanHandle(st, m) && m.PreAccept? && m.id !in st.space && m.id.replica != st.id && |m.command| == 1 && m.ballot >= 0
    ensures var o := HandlePreAccept(st, m, now);
      |o.out| == 1 && o.out[0].msg.PreAcceptReply?
      && var r := o.out[0].msg;
         && Exceeds(st, m.command[0], r.seqno, m.deps, r.deps) && r.seqno >= m.seqno
         && (r.status == PREACCEPTED_EQ <==> r.seqno == m.seqno && r.deps == m.deps)
         && r.committedDeps == st.committedUpTo
  {
    var st2 := PreAcceptState(st, m, now);
    LargerSpaceLocal(st, st2);
    PreAcceptUnfolds(st, m, now);
    assert m.command == [m.command[0]];
    AttributesExceed(st2, m.command[0], m.seqno, m.deps, m.id.replica);
    NotItself(st, st2, m, now);
    hide HandlePreAccept, UpdateAttributes, PreAcceptState, ConflictsKnown, RecordCommands, RecordSeqs, SeqOf;
  }

  /** The new entry itself is no dependency yet. */
  lemma NotItself(st: RState, st2: RState, m: Msg, now: int)
    requires Local(st) && ConflictsKnown(st2) && m.PreAccept? && m.id !in st.space && m.id.replica != st.id
    requires st2.space == st.space[m.id := DefaultInstance(now)] && st2.conflicts == st.conflicts && st2.n == st.n && st2.id == st.id
    requires |m.deps| == st.n && AtLeastNil(m.deps)
    ensures var a := UpdateAttributes(st2, m.command, m.seqno, m.deps, m.id.replica);
      forall q: nat :: q < |m.deps| && a.deps[q] != m.deps[q] ==> Id(q, a.deps[q]) != m.id
  {
    hide Local, ConflictsKnown;
    assert SkippedColumn(st2, m.id.replica, m.id.replica);
  }

  /** In every run, the answer to a PreAccept exceeds in Seq what the replica knows of every dependency that it
      adds, says whether it changed anything, and says which columns are committed there. */
  lemma AnswersExceedTheirDeps(run: seq<Global>, steps: seq<Step>, i: nat) returns (q: Packet)
    requires IsRun(run, steps) && i < |steps| && steps[i].Delivering? && steps[i].p.msg.PreAccept?
    ensures var p := steps[i].p;
      && p.dst < |run[i].nodes| && |p.msg.command| == 1
      && q in run[i + 1].sent && q !in run[i].sent && q.src == p.dst && q.msg.PreAcceptReply? && q.msg.id == p.msg.id
      && Exceeds(run[i].nodes[p.dst].rs, p.msg.command[0], q.msg.seqno, p.msg.deps, q.msg.deps) && q.msg.seqno >= p.msg.seqno
      && (q.msg.status == PREACCEPTED_EQ <==> q.msg.seqno == p.msg.seqno && q.msg.deps == p.msg.deps)
      && q.msg.committedDeps == run[i].nodes[p.dst].rs.committedUpTo
  {
    assert |run| == |steps| + 1;
    hide *;
    var g, g', step := run[i], run[i + 1], steps[i];
    RunInv(run, steps, i);
    TheStep(run, steps, i);
    InvParts(g);
    PreAcceptStep(g, g', step.p, step.now, step.targets);
    FreshAtPeer(g, step.p);
    AnswerExceeds(g.nodes[step.p.dst].rs, step.p.msg, step.now);
    RoundsPreAccept(g, g', step.p, step.now, step.targets);
    PeerSays(g, step.p, step.now, HandlePreAccept(g.nodes[step.p.dst].rs, step.p.msg, step.now));
    PreAcceptExchange(g, g', step.p, step.now, step.targets);
    q := HandlePreAccept(g.nodes[step.p.dst].rs, step.p.msg, step.now).out[0];
    ReplyMeans(q, step.p.msg.id);
    NewInExchange(g, g', step.p, q);
  }

  lemma NewInExchange(g: Global, g': Global, p: Packet, q: Packet)
    requires Exchange(g, g', p, {q})
    ensures q in g'.sent && q !in g.sent
  {
  }

  lemma FreshAtPeer(g: Global, p: Packet)
    requires Basic(g) && Rounds(g) && p in g.net && p.msg.PreAccept? && p.dst < |g.nodes|
    ensures p.msg.id !in g.nodes[p.dst].rs.space && p.msg.id.replica != p.dst && g.nodes[p.dst].rs.id == p.dst
    ensures |p.msg.command| == 1 && p.msg.ballot >= 0
  {
    hide Leaders, Entries, Local, RoundOk, Rounds;
    PendingAt(g, p);
    LeaderAt(g, p);
  }
}
