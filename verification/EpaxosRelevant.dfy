/** No EPaxos dependency is spurious: each names an instance on the same key, and a GET never depends on a GET. */
module EpaxosRelevant {
  import opened State
  import opened Sequences
  import opened Traces
  import opened DepGraph
  import opened Options
  import opened EpaxosTypes
  import opened EpaxosSpec
  import opened EpaxosProtocol
  import opened EpaxosBasic
  import opened EpaxosRounds
  import opened EpaxosVotes
  import opened EpaxosExecution
  import opened EpaxosSafety
  import opened EpaxosTheorems
  import opened EpaxosQuiet
  import opened EpaxosPaths
  import opened SccSearch

  /** What the conflict index relates: one key, and not two GETs. */
  predicate Related(c: Command, d: Command) {
    c.k == d.k && (c.op != GET || d.op != GET)
  }

  /** An entry of the index names proposed instances on its key, and as a write one that is not a GET. */
  ghost predicate PairReal(g: Global, q: nat, k: Key, p: InstPair) {
    && (p.last >= 0 ==> Started(g, Id(q, p.last)) && Cmd(g, Id(q, p.last)).k == k)
    && (p.lastWrite >= 0 ==> Started(g, Id(q, p.lastWrite)) && Cmd(g, Id(q, p.lastWrite)).k == k
                             && Cmd(g, Id(q, p.lastWrite)).op != GET)
  }

  ghost predicate IndexReal(g: Global, rs: RState) {
    forall q, k :: 0 <= q < |rs.conflicts| && k in rs.conflicts[q] ==> PairReal(g, q, k, rs.conflicts[q][k])
  }

  /** Every dependency of a command c names a proposed instance that c is related to. */
  ghost predicate DepsReal(g: Global, c: Command, deps: seq<int>) {
    forall q :: 0 <= q < |deps| && deps[q] >= 0 ==> DepReal(g, c, Id(q, deps[q]))
  }

  ghost predicate DepReal(g: Global, c: Command, x: Id) {
    Started(g, x) && Related(c, Cmd(g, x))
  }

  ghost predicate Real(g: Global) {
    && (forall s :: 0 <= s < |g.nodes| ==> IndexReal(g, g.nodes[s].rs))
    && (forall id :: Started(g, id) ==> DepsReal(g, Cmd(g, id), Lb(g, id).originalDeps))
    && forall p :: p in g.sent && p.msg.PreAcceptReply? ==> DepsReal(g, Cmd(g, p.msg.id), p.msg.deps)
  }

  // ---------------------------------------------------------------- what stays

  lemma CmdStays(g: Global, g': Global, x: Id)
    requires Evolves(g, g') && Started(g, x)
    ensures Started(g', x) && Cmd(g', x) == Cmd(g, x)
  {
  }

  lemma IndexStays(g: Global, g': Global, rs: RState)
    requires Evolves(g, g') && IndexReal(g, rs)
    ensures IndexReal(g', rs)
  {
    hide Evolves, Started, Cmd;
    forall q, k | 0 <= q < |rs.conflicts| && k in rs.conflicts[q] ensures PairReal(g', q, k, rs.conflicts[q][k]) {
      var p := rs.conflicts[q][k];
      assert PairReal(g, q, k, p);
      if p.last >= 0 {
        CmdStays(g, g', Id(q, p.last));
      }
      if p.lastWrite >= 0 {
        CmdStays(g, g', Id(q, p.lastWrite));
      }
    }
  }

  lemma DepsStay(g: Global, g': Global, c: Command, deps: seq<int>)
    requires Evolves(g, g') && DepsReal(g, c, deps)
    ensures DepsReal(g', c, deps)
  {
    hide Evolves, Started, Cmd;
    forall q | 0 <= q < |deps| && deps[q] >= 0 ensures DepReal(g', c, Id(q, deps[q])) {
      assert DepReal(g, c, Id(q, deps[q]));
      CmdStays(g, g', Id(q, deps[q]));
    }
  }

  /** The index of a replica stays, or records command c of instance id. */
  ghost predicate RecordsOnly(a: RState, b: RState, id: Id, c: Command) {
    || b.conflicts == a.conflicts
    || (id.replica < |a.conflicts|
        && b.conflicts == a.conflicts[id.replica := RecordCommand(a.conflicts[id.replica], c, id.instance)])
  }

  lemma RecordedIsReal(g: Global, a: RState, b: RState, id: Id)
    requires IndexReal(g, a) && Started(g, id) && RecordsOnly(a, b, id, Cmd(g, id))
    ensures IndexReal(g, b)
  {
    hide Started, Cmd;
    forall q, k | 0 <= q < |b.conflicts| && k in b.conflicts[q] ensures PairReal(g, q, k, b.conflicts[q][k]) {
      if k in a.conflicts[q] {
        assert PairReal(g, q, k, a.conflicts[q][k]);
      }
    }
  }

  /** A step that touches replica s, and sends no reply to a PreAccept but with real dependencies. */
  lemma TouchReal(g: Global, g': Global, s: nat, id: Id)
    requires Real(g) && Evolves(g, g') && |g'.nodes| == |g.nodes| && s < |g.nodes| && Started(g', id)
    requires Basic(g)
    requires forall r :: 0 <= r < |g.nodes| && r != s ==> g'.nodes[r] == g.nodes[r]
    requires RecordsOnly(g.nodes[s].rs, g'.nodes[s].rs, id, Cmd(g', id))
    requires forall x :: Started(g', x) && !Started(g, x) ==> DepsReal(g', Cmd(g', x), Lb(g', x).originalDeps)
    requires forall p :: p in g'.sent && p !in g.sent && p.msg.PreAcceptReply? ==> DepsReal(g', Cmd(g', p.msg.id), p.msg.deps)
    ensures Real(g')
  {
    hide IndexReal, DepsReal, Started, Cmd, RecordsOnly, Basic;
    forall r | 0 <= r < |g'.nodes| ensures IndexReal(g', g'.nodes[r].rs) {
      IndexStays(g, g', g.nodes[r].rs);
      if r == s {
        RecordedIsReal(g', g.nodes[s].rs, g'.nodes[s].rs, id);
      }
    }
    forall x | Started(g', x) ensures DepsReal(g', Cmd(g', x), Lb(g', x).originalDeps) {
      if Started(g, x) {
        CmdStays(g, g', x);
        DepsStay(g, g', Cmd(g, x), Lb(g, x).originalDeps);
        SameOriginal(g, g', x);
      }
    }
    forall p | p in g'.sent && p.msg.PreAcceptReply? ensures DepsReal(g', Cmd(g', p.msg.id), p.msg.deps) {
      if p in g.sent {
        AboutStarted(g, p);
        CmdStays(g, g', p.msg.id);
        DepsStay(g, g', Cmd(g, p.msg.id), p.msg.deps);
      }
    }
  }

  lemma SameOriginal(g: Global, g': Global, x: Id)
    requires Evolves(g, g') && Started(g, x)
    ensures Started(g', x) && Lb(g', x).originalDeps == Lb(g, x).originalDeps
  {
  }

  lemma AboutStarted(g: Global, p: Packet)
    requires Basic(g) && p in g.sent
    ensures Started(g, p.msg.id)
  {
    hide Leaders, Entries, Local;
    assert PacketOk(g, p);
  }

  // ---------------------------------------------------------------- where dependencies come from

  /** Each column keeps the dependency it had or takes one from the index. */
  ghost predicate FromIndex(st: RState, c: Command, before: seq<int>, after: seq<int>) {
    |before| == |after| == |st.conflicts|
    && forall q :: 0 <= q < |after| && after[q] != before[q] ==>
         c.k in st.conflicts[q] && after[q] == LastConflict(st.conflicts[q], c)
  }

  lemma AttributesFromIndex(st: RState, c: Command, seqno: int, deps: seq<int>, replica: nat)
    requires ConflictsKnown(st) && |deps| == st.n && AtLeastNil(deps)
    ensures FromIndex(st, c, deps, UpdateAttributes(st, [c], seqno, deps, replica).deps)
  {
    var a := UpdateDeps(st, [c], seqno, deps, replica, st.n);
    forall q | 0 <= q < |deps| && a.deps[q] != deps[q] ensures c.k in st.conflicts[q] && a.deps[q] == LastConflict(st.conflicts[q], c) {
      var d := FirstRaise(st.conflicts[q], [c], deps[q], 0);
      assert !SkippedColumn(st, replica, q) && d.Some?;
    }
  }

  lemma FromIndexReal(g: Global, st: RState, c: Command, before: seq<int>, after: seq<int>)
    requires IndexReal(g, st) && FromIndex(st, c, before, after) && DepsReal(g, c, before)
    ensures DepsReal(g, c, after)
  {
    hide Started, Cmd;
    forall q | 0 <= q < |after| && after[q] >= 0 ensures DepReal(g, c, Id(q, after[q])) {
      if after[q] != before[q] {
        assert PairReal(g, q, c.k, st.conflicts[q][c.k]);
      } else {
        assert DepReal(g, c, Id(q, before[q]));
      }
    }
  }

  // ---------------------------------------------------------------- the handlers

  lemma ProposalIndex(st: RState, c: Command, waits: bool, now: int, targets: seq<nat>)
    requires Local(st) && st.id < |st.conflicts|
    ensures var o, id := Propose(st, [c], waits, now, targets), NextId(st);
      id in o.st.space && o.st.space[id].lb.Some? && RecordsOnly(st, o.st, id, c)
      && FromIndex(st, c, NilDeps(st.n), o.st.space[id].lb.value.originalDeps)
  {
    hide ConflictsKnown, UpdateAttributes, RecordCommand, RecordCommands, RecordSeqs;
    var st1 := st.(crtInstance := st.crtInstance[st.id := st.crtInstance[st.id] + 1]);
    var id := NextId(st);
    SameIndex(st, st1);
    AttributesFromIndex(st1, c, 0, NilDeps(st.n), st.id);
    var a := UpdateAttributes(st1, [c], 0, NilDeps(st.n), st.id);
    var inst := Instance(Some([c]), st.id, st.id, PREACCEPTED, a.seqno, a.deps,
                         Some(NewLeaderBookkeeping(waits, st.n, a.deps, st.id, [c])), 0, 0, now);
    RecordOne(st1.(space := st1.space[id := inst]), c, id, a.seqno);
  }

  lemma SameIndex(st: RState, st1: RState)
    requires Local(st) && st1 == st.(crtInstance := st1.crtInstance)
    ensures ConflictsKnown(st1)
  {
  }

  lemma PreAcceptIndex(st: RState, m: Msg, now: int)
    requires CanHandle(st, m) && m.PreAccept? && m.id !in st.space && m.id.replica != st.id && |m.command| == 1 && m.ballot >= 0
    ensures var o := HandlePreAccept(st, m, now);
      RecordsOnly(st, o.st, m.id, m.command[0]) && m.id in o.st.space
      && FromIndex(st, m.command[0], m.deps, o.st.space[m.id].deps)
  {
    var st2 := PreAcceptState(st, m, now);
    LargerSpaceLocal(st, st2);
    PreAcceptUnfolds(st, m, now);
    hide HandlePreAccept, UpdateAttributes, RecordCommand, RecordCommands, RecordSeqs, PreAcceptState, ConflictsKnown;
    assert m.command == [m.command[0]];
    AttributesFromIndex(st2, m.command[0], m.seqno, m.deps, m.id.replica);
    IndexLength(st);
    RecordOne(st2.(space := st2.space[m.id := PreAcceptedInstance(st2, m)]), m.command[0], m.id, m.seqno);
  }

  lemma IndexLength(st: RState)
    requires ConflictsKnown(st)
    ensures |st.conflicts| == st.n
  {
  }

  lemma CommitIndex(st: RState, m: Msg, now: int)
    requires CanHandle(st, m) && m.Commit? && |m.command| == 1
    requires m.id in st.space ==> st.space[m.id].bal <= m.ballot
    requires m.ballot >= 0
    ensures RecordsOnly(st, HandleCommit(st, m, now).st, m.id, m.command[0])
  {
    IndexLength(st);
    if CommitIgnored(st, m) {
      hide ConflictsKnown;
    } else {
      CommitOutcome(st, m, now);
      hide HandleCommit, ConflictsKnown, RecordCommand, RecordCommands, RecordSeqs;
      var inst1 := Lookup(st, m.id, now).(bal := m.ballot, vbal := m.ballot, cmds := Some(m.command),
                     seqno := m.seqno, deps := m.deps, status := COMMITTED);
      var st3 := Notice(st, m.id, m.ballot).(space := st.space[m.id := inst1]);
      assert m.command == [m.command[0]];
      RecordOne(st3, m.command[0], m.id, m.seqno);
    }
  }

  lemma LeaderIndex(st: RState, m: Msg, now: int, targets: seq<nat>)
    requires CanHandle(st, m) && !m.PreAccept? && !m.Commit?
    ensures Handle(st, m, now, targets).st.conflicts == st.conflicts
  {
    hide ConflictsKnown, Tally;
  }

  // ---------------------------------------------------------------- steps

  lemma RealPropose(g: Global, g': Global, s: nat, c: Command, waits: bool, now: int, targets: seq<nat>)
    requires Inv(g) && Real(g) && ProposeStep(g, g', s, c, waits, now, targets)
    ensures Real(g')
  {
    InvParts(g);
    ProposeFacts(g, g', s, c, waits, now, targets);
    var rs, id := g.nodes[s].rs, NextId(g.nodes[s].rs);
    IndexLength(rs);
    ProposalIndex(rs, c, waits, now, targets);
    hide Inv, Basic, ProposeStep, Touch, Evolves, Propose, Local, LeaderOk, Indexed, RecordsOnly, IndexReal, DepsReal, FromIndex,
      TargetsOk, Broadcast, SetOf, Real;
    BasicPropose(g, g', s, c, waits, now, targets);
    NewLeaderStarted(g', s, id, c);
    OtherSpaces(g, g', s, id);
    OnlyOneStarts(g, g', s, id);
    IndexAt(g, s);
    IndexStays(g, g', rs);
    NilIsReal(g', c, rs.n);
    FromIndexReal(g', rs, c, NilDeps(rs.n), Lb(g', id).originalDeps);
    NoReplySent(g, g', s, targets, PreAccept(id, s, s, [c], -1, FirstDeps(g', s, id)));
    OtherNodes(g, g', s, id);
    TouchReal(g, g', s, id);
  }

  ghost function FirstDeps(g: Global, s: nat, id: Id): seq<int>
    requires s < |g.nodes| && id in Sp(g, s) && Sp(g, s)[id].lb.Some?
  {
    Sp(g, s)[id].lb.value.originalDeps
  }

  lemma IndexAt(g: Global, s: nat)
    requires Real(g) && s < |g.nodes|
    ensures IndexReal(g, g.nodes[s].rs)
  {
  }

  lemma NilIsReal(g: Global, c: Command, n: nat)
    ensures DepsReal(g, c, NilDeps(n))
  {
  }

  lemma OnlyOneStarts(g: Global, g': Global, s: nat, id: Id)
    requires Touch(g, g', s, id)
    ensures forall x :: Started(g', x) && !Started(g, x) ==> x == id
  {
  }

  lemma OtherNodes(g: Global, g': Global, s: nat, id: Id)
    requires Touch(g, g', s, id)
    ensures forall r :: 0 <= r < |g.nodes| && r != s ==> g'.nodes[r] == g.nodes[r]
    ensures |g'.nodes| == |g.nodes| && s < |g.nodes|
  {
  }

  lemma NoReplySent(g: Global, g': Global, s: nat, targets: seq<nat>, m: Msg)
    requires m.PreAccept? && g'.sent == g.sent + SetOf(Broadcast(s, targets, m))
    ensures forall p :: p in g'.sent && p !in g.sent ==> !p.msg.PreAcceptReply?
  {
  }

  lemma RealPreAccept(g: Global, g': Global, p: Packet, now: int, targets: seq<nat>)
    requires Inv(g) && Real(g) && DeliverStep(g, g', p, now, targets) && p.msg.PreAccept?
    ensures Real(g')
  {
    hide *;
    InvParts(g);
    PreAcceptStep(g, g', p, now, targets);
    var rs, id := g.nodes[p.dst].rs, p.msg.id;
    RoundsPreAccept(g, g', p, now, targets);
    var q := PreAcceptAnswer(g, g', p, now, targets);
    PreAcceptIs(g, p);
    PreAcceptIndex(rs, p.msg, now);
    IndexAt(g, p.dst);
    IndexStays(g, g', rs);
    CmdStays(g, g', id);
    DepsStay(g, g', Cmd(g, id), p.msg.deps);
    FromIndexReal(g', rs, Cmd(g, id), p.msg.deps, q.msg.deps);
    OnlyThisSent(g, g', p, q);
    NothingStarted(g, g', p.dst, id);
    OtherNodes(g, g', p.dst, id);
    TouchReal(g, g', p.dst, id);
  }

  lemma OnlyThisSent(g: Global, g': Global, p: Packet, q: Packet)
    requires Exchange(g, g', p, {q})
    ensures forall x :: x in g'.sent && x !in g.sent ==> x == q
  {
  }

  /** A PreAccept carries the leader's first dependencies, which are real. */
  lemma PreAcceptIs(g: Global, p: Packet)
    requires Basic(g) && Rounds(g) && Real(g) && p in g.net && p.msg.PreAccept? && p.dst < |g.nodes|
    ensures Started(g, p.msg.id) && p.msg.command == [Cmd(g, p.msg.id)] && p.msg.ballot >= 0
    ensures DepsReal(g, Cmd(g, p.msg.id), p.msg.deps)
    ensures p.msg.id !in g.nodes[p.dst].rs.space && p.msg.id.replica != p.dst && g.nodes[p.dst].rs.id == p.dst
  {
    hide Leaders, Entries, Local, RoundOk, Rounds, IndexReal, DepsReal;
    PendingAt(g, p);
    LeaderAt(g, p);
  }

  /** Messages that neither are PreAccepts nor cause replies. */
  lemma RealLater(g: Global, g': Global, p: Packet, now: int, targets: seq<nat>)
    requires Inv(g) && Real(g) && DeliverStep(g, g', p, now, targets) && !p.msg.PreAccept?
    ensures Real(g')
  {
    hide *;
    InvParts(g);
    DeliverTouches(g, g', p, now, targets);
    NoNewReplies(g, g', p, now, targets);
    LaterIndex(g, g', p, now, targets);
    NothingStarted(g, g', p.dst, p.msg.id);
    OtherNodes(g, g', p.dst, p.msg.id);
    CmdStays(g, g', p.msg.id);
    TouchReal(g, g', p.dst, p.msg.id);
  }

  lemma LaterIndex(g: Global, g': Global, p: Packet, now: int, targets: seq<nat>)
    requires Basic(g) && DeliverStep(g, g', p, now, targets) && !p.msg.PreAccept? && Evolves(g, g') && Started(g, p.msg.id)
    ensures RecordsOnly(g.nodes[p.dst].rs, g'.nodes[p.dst].rs, p.msg.id, Cmd(g', p.msg.id))
  {
    hide Local, Leaders, Entries, Indexed, Evolves, HandleCommit, HandlePreAccept, HandlePreAcceptReply, HandleAccept, HandleAcceptReply, Started;
    LeaderAt(g, p);
    CmdStays(g, g', p.msg.id);
    if p.msg.Commit? {
      CommitCarries(g, p);
      CommitIndex(g.nodes[p.dst].rs, p.msg, now);
    } else {
      LeaderIndex(g.nodes[p.dst].rs, p.msg, now, targets);
    }
  }

  lemma CommitCarries(g: Global, p: Packet)
    requires Basic(g) && p in g.net && p.msg.Commit? && p.dst < |g.nodes|
    ensures p.msg.command == [Cmd(g, p.msg.id)] && p.msg.ballot >= 0
    ensures p.msg.id in Sp(g, p.dst) ==> Sp(g, p.dst)[p.msg.id].bal <= p.msg.ballot
  {
    hide Leaders, Entries, Local, Indexed;
    LeaderAt(g, p);
  }

  lemma RealExecute(g: Global, g': Global, s: nat, space: Space, ex: Execution)
    requires Inv(g) && Real(g) && ExecuteStep(g, g', s, space, ex)
    ensures Real(g')
  {
    InvParts(g);
    ExecuteKeeps(g, g', s, space, ex);
    hide Inv, Basic, ExecutionOk, Evolves, IndexReal, DepsReal, Cmd;
    forall r | 0 <= r < |g'.nodes| ensures IndexReal(g', g'.nodes[r].rs) {
      IndexStays(g, g', g.nodes[r].rs);
      SameIndexReal(g', g.nodes[r].rs, g'.nodes[r].rs);
    }
    forall x | Started(g', x) ensures DepsReal(g', Cmd(g', x), Lb(g', x).originalDeps) {
      CmdStays(g, g', x);
      DepsStay(g, g', Cmd(g, x), Lb(g, x).originalDeps);
    }
    forall p | p in g'.sent && p.msg.PreAcceptReply? ensures DepsReal(g', Cmd(g', p.msg.id), p.msg.deps) {
      AboutStarted(g, p);
      CmdStays(g, g', p.msg.id);
      DepsStay(g, g', Cmd(g, p.msg.id), p.msg.deps);
    }
  }

  lemma SameIndexReal(g: Global, a: RState, b: RState)
    requires IndexReal(g, a) && b.conflicts == a.conflicts
    ensures IndexReal(g, b)
  {
  }

  lemma {:induction false} RunReal(run: seq<Global>, steps: seq<Step>, i: nat)
    requires IsRun(run, steps) && i < |run|
    ensures Inv(run[i]) && Real(run[i])
  {
    hide Inv, NextStep, Real;
    RunInv(run, steps, i);
    if i == 0 {
      StartReal(run[0]);
    } else {
      RunReal(run, steps, i - 1);
      StepReal(run[i - 1], run[i], steps[i - 1]);
    }
  }

  lemma StartReal(g: Global)
    requires Init(g)
    ensures Real(g)
  {
    assert forall id :: !Started(g, id);
  }

  lemma StepReal(g: Global, g': Global, step: Step)
    requires Inv(g) && Real(g) && NextStep(g, g', step)
    ensures Real(g')
  {
    hide Inv, Real, DeliverStep, ProposeStep, ExecuteStep;
    match step {
      case Proposing(s, c, waits, now, targets) => RealPropose(g, g', s, c, waits, now, targets);
      case Delivering(p, now, targets) =>
        if p.msg.PreAccept? {
          RealPreAccept(g, g', p, now, targets);
        } else {
          RealLater(g, g', p, now, targets);
        }
      case Executing(s, space, ex) => RealExecute(g, g', s, space, ex);
    }
  }

  // ---------------------------------------------------------------- the theorem

  /** In every run: where the committed Deps of an instance end in a column, there is a proposed instance on the
      same key, and one of the two commands is not a GET. */
  lemma NoSpuriousDependencies(run: seq<Global>, steps: seq<Step>, i: nat, s: nat, id: Id, q: nat)
    requires IsRun(run, steps) && i < |run| && CommittedAt(run[i], s, id)
    requires q < |Sp(run[i], s)[id].deps| && Sp(run[i], s)[id].deps[q] >= 0
    ensures Started(run[i], id)
    ensures DepReal(run[i], Cmd(run[i], id), Id(q, Sp(run[i], s)[id].deps[q]))
  {
    hide *;
    RunReal(run, steps, i);
    PathOfCommitted(run, steps, i, s, id);
    DepsAreReal(run[i], id, Lb(run[i], id).seqno, Lb(run[i], id).deps, q);
  }

  lemma PathOfCommitted(run: seq<Global>, steps: seq<Step>, i: nat, s: nat, id: Id)
    requires IsRun(run, steps) && i < |run| && CommittedAt(run[i], s, id)
    ensures Started(run[i], id) && MergedExactly(run[i], id, Lb(run[i], id).seqno, Lb(run[i], id).deps)
    ensures s < |run[i].nodes| && id in Sp(run[i], s) && Sp(run[i], s)[id].deps == Lb(run[i], id).deps
  {
    hide IsRun, Inv, MergedExactly, Started, Fast, Slow, Unanimous, Covered, Uncovered, NoAccept, AcceptCounted, Counted;
    RunInv(run, steps, i);
    CommittedIsDecided(run[i], s, id);
    PathTaken(run, steps, i, id);
  }

  lemma DepsAreReal(g: Global, id: Id, seqno: int, deps: seq<int>, q: nat)
    requires Real(g) && Started(g, id) && MergedExactly(g, id, seqno, deps) && q < |deps| && deps[q] >= 0
    ensures DepReal(g, Cmd(g, id), Id(q, deps[q]))
  {
    hide Started, Cmd, DepReal, IndexReal;
    assert AttainedAt(g, id, q, deps[q]);
    var p :| Counts(g, id, p) && q < |p.msg.deps| && p.msg.deps[q] == deps[q];
    assert DepsReal(g, Cmd(g, p.msg.id), p.msg.deps);
  }
}
