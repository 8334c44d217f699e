/** When nothing is in flight, nothing blocks the executor: one round at each replica executes every
    proposed instance, and all stores are equal. */
module EpaxosLive {
  import opened State
  import opened Sequences
  import opened Traces
  import opened DepGraph
  import opened Options
  import opened EpaxosTypes
  import opened EpaxosSpec
  import opened EpaxosProtocol
  import opened EpaxosBasic
  import opened EpaxosRounds
  import opened EpaxosVotes
  import opened EpaxosExecution
  import opened EpaxosSafety
  import opened EpaxosTheorems
  import opened EpaxosQuiet
  import opened SccSearch
  import opened Replay

  /** A replica has proposed all its instances up to crtInstance. */
  ghost predicate Dense(g: Global) {
    forall s, i :: 0 <= s < |g.nodes| && 0 <= i <= CrtInstance(g, s) ==> Started(g, Id(s, i))
  }

  /** crtInstance covers every instance that a replica has heard of. */
  ghost predicate Covered(g: Global) {
    forall s, id :: 0 <= s < |g.nodes| && id in Sp(g, s) ==> InCrt(g.nodes[s].rs, id)
  }

  ghost predicate InCrt(rs: RState, id: Id) {
    id.replica < |rs.crtInstance| && id.instance <= rs.crtInstance[id.replica]
  }

  /** Dependencies name proposed instances. */
  ghost predicate DepsKnown(g: Global, deps: seq<int>) {
    forall q :: 0 <= q < |deps| && deps[q] >= 0 ==> Started(g, Id(q, deps[q]))
  }

  ghost predicate LeaderDepsKnown(g: Global, id: Id)
    requires Started(g, id)
  {
    DepsKnown(g, Lb(g, id).originalDeps) && DepsKnown(g, Lb(g, id).deps)
  }

  ghost predicate AllDepsKnown(g: Global) {
    && (forall id :: Started(g, id) ==> LeaderDepsKnown(g, id))
    && forall p :: p in g.sent && p.msg.PreAcceptReply? ==> DepsKnown(g, p.msg.deps)
  }

  ghost predicate Live(g: Global) {
    Dense(g) && Covered(g) && AllDepsKnown(g)
  }

  // ---------------------------------------------------------------- nothing blocks

  /** What a proposed instance depends on has been proposed. */
  lemma EdgesStay(g: Global, s: nat, x: Id, y: Id)
    requires Inv(g) && Live(g) && CommittedAt(g, s, x) && Edge(CommittedGraph(g, s), x, y)
    ensures Started(g, y)
  {
    hide Rounds, Votes, Executions, PacketOk, Local, EntryOk, LeaderOk, Covered;
    CommittedIsDecided(g, s, x);
    GraphAt(g, s, x);
    assert LeaderDepsKnown(g, x);
    var d := Lb(g, x).deps[y.replica];
    assert Started(g, Id(y.replica, d));
    assert y.replica < |g.nodes| && Id(y.replica, d) in Sp(g, y.replica);
    assert d <= CrtInstance(g, y.replica);
    assert Started(g, Id(y.replica, y.instance));
  }

  /** Everything that has been proposed is committed at s. */
  ghost predicate AllCommitted(g: Global, s: nat) {
    forall id :: Started(g, id) ==> CommittedAt(g, s, id)
  }

  lemma NothingBlocked(g: Global, s: nat, x: Id)
    requires Inv(g) && Live(g) && s < |g.nodes| && AllCommitted(g, s) && Started(g, x)
    ensures !Blocked(CommittedGraph(g, s), Sp(g, s), x)
  {
    hide Inv, Live, Started, CommittedAt, Edge;
    var gr := CommittedGraph(g, s);
    forall w | Reach(gr, x, w) ensures Ready(Sp(g, s), w) {
      var p :| IsPath(gr, p) && p[0] == x && p[|p| - 1] == w;
      PathIsStarted(g, s, p, |p| - 1);
      StartedIsReady(g, s, w);
    }
  }

  lemma {:induction false} PathIsStarted(g: Global, s: nat, p: seq<Id>, k: nat)
    requires Inv(g) && Live(g) && s < |g.nodes| && AllCommitted(g, s)
    requires IsPath(CommittedGraph(g, s), p) && Started(g, p[0]) && k < |p|
    ensures Started(g, p[k])
  {
    hide Inv, Live, Started, CommittedAt, Edge;
    if k > 0 {
      PathIsStarted(g, s, p, k - 1);
      assert Edge(CommittedGraph(g, s), p[k - 1], p[k - 1 + 1]);
      EdgesStay(g, s, p[k - 1], p[k]);
    }
  }

  lemma StartedIsReady(g: Global, s: nat, w: Id)
    requires Inv(g) && AllCommitted(g, s) && Started(g, w)
    ensures Ready(Sp(g, s), w)
  {
    hide Inv, Started;
    CommittedIsDecided(g, s, w);
  }

  // ---------------------------------------------------------------- one executor round

  /** The executor of s has made a round since its graph last changed: what TakeExecution ensures. */
  ghost predicate RoundMade(g: Global, s: nat)
    requires s < |g.nodes|
  {
    forall q :: 0 <= q < |g.nodes[s].rs.crtInstance| ==>
      ColumnSettled(CommittedGraph(g, s), Sp(g, s), LogOf(g, s), q, g.nodes[s].rs.crtInstance[q])
  }

  /** After a round everything is executed. */
  lemma EverythingExecuted(g: Global, s: nat, x: Id)
    requires Inv(g) && Live(g) && s < |g.nodes| && AllCommitted(g, s) && RoundMade(g, s) && Started(g, x)
    ensures x in LogOf(g, s)
  {
    var q, i := x.replica, x.instance;
    CoveredAt(g, s, x);
    assert ColumnSettled(CommittedGraph(g, s), Sp(g, s), LogOf(g, s), q, g.nodes[s].rs.crtInstance[q]);
    assert BehindGap(Sp(g, s), q, i) || Settled(CommittedGraph(g, s), Sp(g, s), LogOf(g, s), Id(q, i));
    hide Inv, Live, Started, CommittedAt, RoundMade, ColumnSettled, Blocked, Ready, CommittedGraph;
    NothingBlocked(g, s, x);
    forall j: nat | j <= i ensures Ready(Sp(g, s), Id(q, j)) {
      EarlierStarted(g, x, j);
      StartedIsReady(g, s, Id(q, j));
    }
  }

  lemma CoveredAt(g: Global, s: nat, x: Id)
    requires Live(g) && s < |g.nodes| && AllCommitted(g, s) && Started(g, x)
    ensures InCrt(g.nodes[s].rs, x)
  {
    hide Dense, AllDepsKnown;
  }

  lemma EarlierStarted(g: Global, x: Id, j: nat)
    requires Inv(g) && Live(g) && Started(g, x) && j <= x.instance
    ensures Started(g, Id(x.replica, j))
  {
    hide Rounds, Votes, Executions, PacketOk, Local, EntryOk, LeaderOk, Covered, AllDepsKnown;
    assert x.instance <= CrtInstance(g, x.replica);
  }

  lemma ExecutedIsStarted(g: Global, s: nat, x: Id)
    requires Inv(g) && s < |g.nodes| && x in LogOf(g, s)
    ensures Started(g, x)
  {
    InLogCommitted(g, s, x);
    CommittedIsDecided(g, s, x);
  }

  // ---------------------------------------------------------------- the invariant is kept

  lemma DepsKnownStill(g: Global, g': Global, deps: seq<int>)
    requires DepsKnown(g, deps) && Evolves(g, g')
    ensures DepsKnown(g', deps)
  {
    hide LbLe;
  }

  /** crtInstance only grows, and covers the instance of the step. */
  ghost predicate CrtGrows(st: RState, st': RState, id: Id) {
    && |st'.crtInstance| == |st.crtInstance| && InCrt(st', id)
    && forall q :: 0 <= q < |st.crtInstance| ==> st.crtInstance[q] <= st'.crtInstance[q]
  }

  lemma TouchCovered(g: Global, g': Global, s: nat, id: Id)
    requires Covered(g) && Touch(g, g', s, id) && CrtGrows(g.nodes[s].rs, g'.nodes[s].rs, id)
    ensures Covered(g')
  {
    hide Local, IndexGrows;
    forall r, x | 0 <= r < |g'.nodes| && x in Sp(g', r) ensures InCrt(g'.nodes[r].rs, x) {
      if r == s && x != id {
        assert InCrt(g.nodes[s].rs, x);
      } else if r != s {
        assert InCrt(g.nodes[r].rs, x);
      }
    }
  }

  lemma TouchDense(g: Global, g': Global, s: nat, id: Id)
    requires Dense(g) && Touch(g, g', s, id) && Evolves(g, g')
    requires CrtInstance(g', s) == CrtInstance(g, s)
             || (CrtInstance(g', s) == CrtInstance(g, s) + 1 && id.replica == s && id.instance == CrtInstance(g', s)
                 && Started(g', id))
    ensures Dense(g')
  {
    hide Local, IndexGrows, LbLe;
    forall r, i | 0 <= r < |g'.nodes| && 0 <= i <= CrtInstance(g', r) ensures Started(g', Id(r, i)) {
      if r != s {
        assert CrtInstance(g', r) == CrtInstance(g, r);
      }
      if r != s || i <= CrtInstance(g, s) {
        assert Started(g, Id(r, i));
      }
    }
  }

  lemma TouchDeps(g: Global, g': Global, s: nat, id: Id)
    requires AllDepsKnown(g) && Touch(g, g', s, id) && Evolves(g, g')
    requires Started(g', id) ==> LeaderDepsKnown(g', id)
    requires forall p :: p in g'.sent && p !in g.sent && p.msg.PreAcceptReply? ==> DepsKnown(g', p.msg.deps)
    ensures AllDepsKnown(g')
  {
    hide Touch, Evolves, DepsKnown;
    forall x | Started(g', x) ensures LeaderDepsKnown(g', x) {
      if x != id {
        OtherStays(g, g', s, id, x);
        assert LeaderDepsKnown(g, x);
        DepsKnownStill(g, g', Lb(g, x).originalDeps);
        DepsKnownStill(g, g', Lb(g, x).deps);
      }
    }
    forall p | p in g'.sent && p.msg.PreAcceptReply? ensures DepsKnown(g', p.msg.deps) {
      if p in g.sent {
        DepsKnownStill(g, g', p.msg.deps);
      }
    }
  }

  // ---------------------------------------------------------------- dependencies

  /** updateAttributes takes dependencies from the index, which names instances of the space. */
  lemma AttributesKnown(st: RState, cmds: seq<Command>, seqno: int, deps: seq<int>, replica: nat)
    requires ConflictsKnown(st) && |deps| == st.n && AtLeastNil(deps)
    ensures var a := UpdateAttributes(st, cmds, seqno, deps, replica);
      forall q :: 0 <= q < st.n ==> a.deps[q] == deps[q] || (a.deps[q] >= 0 && Id(q, a.deps[q]) in st.space)
  {
    var a := UpdateDeps(st, cmds, seqno, deps, replica, st.n);
    forall q | 0 <= q < st.n ensures a.deps[q] == deps[q] || (a.deps[q] >= 0 && Id(q, a.deps[q]) in st.space) {
      if !SkippedColumn(st, replica, q) && FirstRaise(st.conflicts[q], cmds, deps[q], 0).Some? {
        var d := FirstRaise(st.conflicts[q], cmds, deps[q], 0).value;
        var j :| 0 <= j < |cmds| && cmds[j].k in st.conflicts[q] && d == LastConflict(st.conflicts[q], cmds[j]);
        assert PairKnown(st.space, q, st.conflicts[q][cmds[j].k]);
      }
    }
  }

  lemma SpaceIsStarted(g: Global, s: nat, id: Id)
    requires Basic(g) && s < |g.nodes| && id in Sp(g, s)
    ensures Started(g, id)
  {
    hide LeaderOk, PacketOk, Local, Indexed;
    assert EntryOk(g, s, id);
  }

  /** Every dependency is an old one or an instance of the space of s. */
  ghost predicate FromSpace(g: Global, s: nat, before: seq<int>, after: seq<int>)
    requires s < |g.nodes|
  {
    |before| == |after|
    && forall q :: 0 <= q < |after| && after[q] >= 0 ==> after[q] == before[q] || Id(q, after[q]) in Sp(g, s)
  }

  lemma FromSpaceKnown(g: Global, s: nat, before: seq<int>, after: seq<int>)
    requires Basic(g) && s < |g.nodes| && DepsKnown(g, before) && FromSpace(g, s, before, after)
    ensures DepsKnown(g, after)
  {
    hide Basic, Started;
    forall q | 0 <= q < |after| && after[q] >= 0 ensures Started(g, Id(q, after[q])) {
      if after[q] == before[q] {
        assert Started(g, Id(q, before[q]));
      } else {
        SpaceIsStarted(g, s, Id(q, after[q]));
      }
    }
  }

  // ---------------------------------------------------------------- steps

  lemma ProposalDeps(g: Global, s: nat, c: Command, waits: bool, now: int, targets: seq<nat>)
    requires s < |g.nodes| && Local(g.nodes[s].rs) && WellFormed(c)
    ensures var rs := g.nodes[s].rs; var o, id := Propose(rs, [c], waits, now, targets), NextId(rs);
      id in o.st.space && o.st.space[id].lb.Some?
      && FromSpace(g, s, NilDeps(rs.n), o.st.space[id].lb.value.originalDeps)
      && o.st.space[id].lb.value.deps == o.st.space[id].lb.value.originalDeps
      && CrtGrows(rs, o.st, id)
  {
    var rs := g.nodes[s].rs;
    var st1 := rs.(crtInstance := rs.crtInstance[rs.id := rs.crtInstance[rs.id] + 1]);
    AttributesKnown(st1, [c], 0, NilDeps(rs.n), rs.id);
    hide UpdateAttributes;
  }

  lemma LivePropose(g: Global, g': Global, s: nat, c: Command, waits: bool, now: int, targets: seq<nat>)
    requires Inv(g) && Live(g) && ProposeStep(g, g', s, c, waits, now, targets)
    ensures Live(g')
  {
    InvParts(g);
    ProposeFacts(g, g', s, c, waits, now, targets);
    ProposalDeps(g, s, c, waits, now, targets);
    hide Inv, Basic, ProposeStep, Touch, Evolves, Propose, Local, Covered, Dense, AllDepsKnown, CrtGrows, Started, Indexed, LeaderOk,
      FromSpace, TargetsOk, Broadcast, Open, SetOf;
    BasicPropose(g, g', s, c, waits, now, targets);
    var rs, id := g.nodes[s].rs, NextId(g.nodes[s].rs);
    NewLeaderStarted(g', s, id, c);
    var deps := Lb(g', id).originalDeps;
    FromSpaceKnown(g, s, NilDeps(rs.n), deps);
    DepsKnownStill(g, g', deps);
    TouchCovered(g, g', s, id);
    CrtUpOne(g, g', s);
    TouchDense(g, g', s, id);
    OnlyPreAcceptsSent(g, g', s, targets, PreAccept(id, s, s, [c], -1, deps));
    TouchDeps(g, g', s, id);
  }

  lemma CrtUpOne(g: Global, g': Global, s: nat)
    requires s < |g.nodes| == |g'.nodes| && Local(g.nodes[s].rs) && g.nodes[s].rs.id == s
    requires g'.nodes[s].rs.crtInstance == g.nodes[s].rs.crtInstance[s := g.nodes[s].rs.crtInstance[s] + 1]
    ensures CrtInstance(g', s) == CrtInstance(g, s) + 1
    ensures NextId(g.nodes[s].rs).replica == s && NextId(g.nodes[s].rs).instance == CrtInstance(g', s)
  {
  }

  lemma OnlyPreAcceptsSent(g: Global, g': Global, s: nat, targets: seq<nat>, m: Msg)
    requires m.PreAccept? && g'.sent == g.sent + SetOf(Broadcast(s, targets, m))
    ensures forall p :: p in g'.sent && p.msg.PreAcceptReply? ==> p in g.sent
  {
  }

  // ---------------------------------------------------------------- messages

  /** What the handlers do to crtInstance. */
  lemma CrtAtPeer(st: RState, m: Msg, now: int)
    requires CanHandle(st, m) && m.id.replica != st.id
    ensures m.Accept? ==> CrtGrows(st, HandleAccept(st, m, now).st, m.id) && CrtAt(HandleAccept(st, m, now).st) == CrtAt(st)
    ensures m.Commit? ==> CrtGrows(st, HandleCommit(st, m, now).st, m.id) && CrtAt(HandleCommit(st, m, now).st) == CrtAt(st)
  {
    hide ConflictsKnown;
  }

  lemma CrtAtPreAccept(st: RState, m: Msg, now: int)
    requires CanHandle(st, m) && m.PreAccept? && m.id.replica != st.id && m.id !in st.space && m.ballot >= 0
    ensures CrtGrows(st, HandlePreAccept(st, m, now).st, m.id) && CrtAt(HandlePreAccept(st, m, now).st) == CrtAt(st)
  {
    hide UpdateAttributes, ConflictsKnown;
  }

  lemma CrtAtLeader(st: RState, m: Msg, targets: seq<nat>)
    requires CanHandle(st, m)
    ensures m.PreAcceptReply? ==> HandlePreAcceptReply(st, m, targets).st.crtInstance == st.crtInstance
    ensures m.AcceptReply? ==> HandleAcceptReply(st, m, targets).st.crtInstance == st.crtInstance
  {
    hide ConflictsKnown, Tally;
  }

  /** At a peer of the leader: the leader's dependencies do not change. */
  lemma PeerLive(g: Global, g': Global, s: nat, id: Id)
    requires Basic(g) && Live(g) && Touch(g, g', s, id) && Evolves(g, g') && id.replica != s && Started(g, id)
    requires CrtGrows(g.nodes[s].rs, g'.nodes[s].rs, id) && CrtInstance(g', s) == CrtInstance(g, s)
    requires forall p :: p in g'.sent && p !in g.sent && p.msg.PreAcceptReply? ==> DepsKnown(g', p.msg.deps)
    ensures Live(g')
  {
    hide Basic, Touch, Evolves, Covered, Dense, DepsKnown, Started, CrtGrows;
    LeaderUntouched(g, g', s, id);
    assert LeaderDepsKnown(g, id);
    DepsKnownStill(g, g', Lb(g, id).originalDeps);
    DepsKnownStill(g, g', Lb(g, id).deps);
    TouchCovered(g, g', s, id);
    TouchDense(g, g', s, id);
    TouchDeps(g, g', s, id);
  }

  lemma PreAcceptDeps(st: RState, m: Msg, now: int)
    requires CanHandle(st, m) && m.PreAccept? && PreAcceptResult(st, m, now, HandlePreAccept(st, m, now))
    ensures var o := HandlePreAccept(st, m, now);
      m.id in o.st.space && |o.st.space[m.id].deps| == |m.deps|
      && forall q :: 0 <= q < |m.deps| ==>
           var d := o.st.space[m.id].deps[q];
           d == m.deps[q] || (d >= 0 && Id(q, d) in PreAcceptState(st, m, now).space)
  {
    AttributesKnown(PreAcceptState(st, m, now), m.command, m.seqno, m.deps, m.id.replica);
    hide UpdateAttributes, HandlePreAccept, ConflictsKnown, Local;
  }

  lemma PreAcceptSpace(g: Global, g': Global, p: Packet, now: int)
    requires Touch(g, g', p.dst, p.msg.id) && p.msg.PreAccept? && CanHandle(g.nodes[p.dst].rs, p.msg)
    requires PreAcceptResult(g.nodes[p.dst].rs, p.msg, now, HandlePreAccept(g.nodes[p.dst].rs, p.msg, now))
    requires g'.nodes[p.dst].rs == HandlePreAccept(g.nodes[p.dst].rs, p.msg, now).st
    ensures p.msg.id in Sp(g', p.dst) && FromSpace(g', p.dst, p.msg.deps, Sp(g', p.dst)[p.msg.id].deps)
  {
    hide HandlePreAccept, Local, ConflictsKnown, IndexGrows, UpdateAttributes, PreAcceptResult;
    PreAcceptDeps(g.nodes[p.dst].rs, p.msg, now);
  }

  lemma PreAcceptKnown(g: Global, g': Global, p: Packet, now: int, targets: seq<nat>)
    requires Inv(g) && Live(g) && DeliverStep(g, g', p, now, targets) && p.msg.PreAccept?
    ensures p.msg.id in Sp(g', p.dst) && DepsKnown(g', Sp(g', p.dst)[p.msg.id].deps)
    ensures CrtGrows(g.nodes[p.dst].rs, g'.nodes[p.dst].rs, p.msg.id) && CrtInstance(g', p.dst) == CrtInstance(g, p.dst)
  {
    InvParts(g);
    PreAcceptStep(g, g', p, now, targets);
    hide Inv, Basic, DeliverStep, Touch, Evolves, HandlePreAccept, Covered, Dense, CrtGrows, Started, FromSpace, PreAcceptResult,
      Rounds, LeaderDepsKnown, DepsKnown, ConflictsKnown;
    RoundsPreAccept(g, g', p, now, targets);
    PreAcceptSpace(g, g', p, now);
    PreAcceptCarries(g, p);
    DepsKnownStill(g, g', p.msg.deps);
    FromSpaceKnown(g', p.dst, p.msg.deps, Sp(g', p.dst)[p.msg.id].deps);
    CrtAtPreAccept(g.nodes[p.dst].rs, p.msg, now);
    CrtInstanceIs(g, g', p.dst);
  }

  /** The one message that a PreAccept causes carries the dependencies of the new entry. */
  lemma AnswerCarries(g: Global, g': Global, p: Packet, q: Packet)
    requires Exchange(g, g', p, {q}) && p.dst < |g'.nodes| && p.msg.id in Sp(g', p.dst)
    requires q.msg.PreAcceptReply? && q.msg.deps == Sp(g', p.dst)[p.msg.id].deps
    ensures forall x :: x in g'.sent && x !in g.sent ==> x.msg.PreAcceptReply? && x.msg.deps == Sp(g', p.dst)[p.msg.id].deps
  {
  }

  lemma LivePreAccept(g: Global, g': Global, p: Packet, now: int, targets: seq<nat>)
    requires Inv(g) && Live(g) && DeliverStep(g, g', p, now, targets) && p.msg.PreAccept?
    ensures Live(g')
  {
    hide *;
    InvParts(g);
    RoundsPreAccept(g, g', p, now, targets);
    PreAcceptKnown(g, g', p, now, targets);
    var q := PreAcceptAnswer(g, g', p, now, targets);
    AnswerCarries(g, g', p, q);
    PeerLive(g, g', p.dst, p.msg.id);
  }

  /** A PreAccept carries the leader's first dependencies. */
  lemma PreAcceptCarries(g: Global, p: Packet)
    requires Basic(g) && Rounds(g) && AllDepsKnown(g) && p in g.net && p.msg.PreAccept?
    ensures DepsKnown(g, p.msg.deps) && p.msg.ballot >= 0 && p.dst < |g.nodes| && p.msg.id !in Sp(g, p.dst)
    ensures g.nodes[p.dst].rs.id == p.dst
  {
    hide Leaders, Entries, Local, Rounds;
    PendingAt(g, p);
    LeaderAt(g, p);
    assert LeaderDepsKnown(g, p.msg.id);
  }

  lemma CrtInstanceIs(g: Global, g': Global, s: nat)
    requires s < |g.nodes| == |g'.nodes| && g.nodes[s].rs.id == s && g'.nodes[s].rs.id == s
    ensures CrtInstance(g, s) == CrtAt(g.nodes[s].rs) && CrtInstance(g', s) == CrtAt(g'.nodes[s].rs)
  {
  }

  lemma LiveAtPeer(g: Global, g': Global, p: Packet, now: int, targets: seq<nat>)
    requires Inv(g) && Live(g) && DeliverStep(g, g', p, now, targets) && (p.msg.Accept? || p.msg.Commit?)
    ensures Live(g')
  {
    hide Rounds, Votes, Executions, Leaders, Entries, Local, Touch, Evolves, Covered, Dense, AllDepsKnown, CrtGrows, Started, DepsKnown,
      HandleAccept, HandleCommit, ConflictsKnown;
    DeliverTouches(g, g', p, now, targets);
    LeaderAt(g, p);
    CrtAtPeer(g.nodes[p.dst].rs, p.msg, now);
    NoNewReplies(g, g', p, now, targets);
    NodeInRange(g, p.dst);
    NodeInRange(g', p.dst);
    CrtInstanceIs(g, g', p.dst);
    PeerLive(g, g', p.dst, p.msg.id);
  }

  // ---------------------------------------------------------------- replies

  lemma TallyDeps(st: RState, inst: Instance, lb: LeaderBookkeeping, m: Msg)
    requires m.PreAcceptReply? && |lb.deps| == |m.deps| == st.n == |st.committedUpTo|
    requires |lb.committedDeps| == |m.committedDeps| == |inst.deps| == st.n
    ensures var lb' := Tally(st, inst, lb, m).0;
      |lb'.deps| == st.n && lb'.originalDeps == lb.originalDeps
      && forall q :: 0 <= q < st.n ==> lb'.deps[q] == lb.deps[q] || lb'.deps[q] == m.deps[q]
  {
  }

  lemma DecideDeps(st: RState, id: Id, lb: LeaderBookkeeping, allCommitted: bool, targets: seq<nat>)
    requires id in st.space && id.replica < |st.committedUpTo| && st.committedUpTo[id.replica] >= -1
    ensures var o := Decide(st, id, lb, allCommitted, targets);
      id in o.st.space && o.st.space[id].lb.Some? && o.st.space[id].lb.value == lb.(status := o.st.space[id].lb.value.status)
  {
  }

  ghost predicate DepsFrom(before: seq<int>, msg: seq<int>, after: seq<int>) {
    |after| == |before| == |msg| && forall q :: 0 <= q < |after| ==> after[q] == before[q] || after[q] == msg[q]
  }

  lemma ReplyDeps(st: RState, m: Msg, targets: seq<nat>)
    requires CanHandle(st, m) && m.PreAcceptReply? && LeaderOk(st.n, m.id, st.space[m.id])
    ensures var o := HandlePreAcceptReply(st, m, targets);
      m.id in o.st.space && o.st.space[m.id].lb.Some?
      && o.st.space[m.id].lb.value.originalDeps == st.space[m.id].lb.value.originalDeps
      && DepsFrom(st.space[m.id].lb.value.deps, m.deps, o.st.space[m.id].lb.value.deps)
  {
    hide ConflictsKnown, Tally, Decide, LeaderOk;
    var inst, lb := st.space[m.id], st.space[m.id].lb.value;
    var st1 := st.(maxRecvBallot := Max(st.maxRecvBallot, m.ballot));
    TallyDeps(st1, inst, lb, m);
    var (lb1, allCommitted) := Tally(st1, inst, lb, m);
    DecideDeps(st1, m.id, lb1, allCommitted, targets);
  }

  lemma DepsFromKnown(g: Global, before: seq<int>, msg: seq<int>, after: seq<int>)
    requires DepsFrom(before, msg, after) && DepsKnown(g, before) && DepsKnown(g, msg)
    ensures DepsKnown(g, after)
  {
  }

  /** At the leader: crtInstance stays, and only dependencies change. */
  lemma LeaderLive(g: Global, g': Global, s: nat, id: Id)
    requires Basic(g) && Basic(g') && Live(g) && Touch(g, g', s, id) && Evolves(g, g') && id.replica == s && Started(g, id)
    requires g'.nodes[s].rs.crtInstance == g.nodes[s].rs.crtInstance
    requires Started(g', id) ==> LeaderDepsKnown(g', id)
    requires forall p :: p in g'.sent && p.msg.PreAcceptReply? ==> p in g.sent
    ensures Live(g')
  {
    hide Basic, Touch, Evolves, DepsKnown, LeaderDepsKnown;
    OtherSpaces(g, g', s, id);
    assert InCrt(g.nodes[s].rs, id);
    TouchCovered(g, g', s, id);
    CrtSame(g, g', s);
    TouchDense(g, g', s, id);
    TouchDeps(g, g', s, id);
  }

  lemma CrtSame(g: Global, g': Global, s: nat)
    requires s < |g.nodes| && s < |g'.nodes| && g'.nodes[s].rs.crtInstance == g.nodes[s].rs.crtInstance
    ensures CrtInstance(g', s) == CrtInstance(g, s)
  {
  }

  lemma LiveReply(g: Global, g': Global, p: Packet, now: int, targets: seq<nat>)
    requires Inv(g) && Live(g) && DeliverStep(g, g', p, now, targets) && p.msg.PreAcceptReply?
    ensures Live(g')
  {
    hide Rounds, Votes, Executions, Leaders, Entries, Local, Touch, Evolves, Covered, Dense, CrtGrows, DepsKnown, HandlePreAcceptReply,
      LeaderOk, DepsFrom, ConflictsKnown;
    var id := p.msg.id;
    DeliverTouches(g, g', p, now, targets);
    LeaderAt(g, p);
    ReplyDeps(g.nodes[p.dst].rs, p.msg, targets);
    CrtAtLeader(g.nodes[p.dst].rs, p.msg, targets);
    NoNewReplies(g, g', p, now, targets);
    assert LeaderDepsKnown(g, id);
    DepsFromKnown(g, Lb(g, id).deps, p.msg.deps, Sp(g', p.dst)[id].lb.value.deps);
    DepsKnownStill(g, g', Sp(g', p.dst)[id].lb.value.deps);
    DepsKnownStill(g, g', Lb(g, id).originalDeps);
    LeaderLive(g, g', p.dst, id);
  }

  lemma LiveAcceptReply(g: Global, g': Global, p: Packet, now: int, targets: seq<nat>)
    requires Inv(g) && Live(g) && DeliverStep(g, g', p, now, targets) && p.msg.AcceptReply?
    ensures Live(g')
  {
    hide Rounds, Votes, Executions, Leaders, Entries, Local, Touch, Covered, Dense, CrtGrows, DepsKnown, HandleAcceptReply,
      LeaderOk, ConflictsKnown;
    var id := p.msg.id;
    BasicAcceptReply(g, g', p, now, targets);
    LeaderAt(g, p);
    CrtAtLeader(g.nodes[p.dst].rs, p.msg, targets);
    NoNewReplies(g, g', p, now, targets);
    assert LeaderDepsKnown(g, id);
    DepsKnownStill(g, g', Lb(g, id).deps);
    DepsKnownStill(g, g', Lb(g, id).originalDeps);
    LeaderLive(g, g', p.dst, id);
  }

  lemma LiveExecute(g: Global, g': Global, s: nat, space: Space, ex: Execution)
    requires Inv(g) && Live(g) && ExecuteStep(g, g', s, space, ex)
    ensures Live(g')
  {
    hide Rounds, Votes, Executions, Leaders, Entries, Packets, Local, ExecutionOk, Started, LbLe;
    ExecuteKeeps(g, g', s, space, ex);
    forall r, id | 0 <= r < |g'.nodes| && id in Sp(g', r) ensures InCrt(g'.nodes[r].rs, id) {
      assert InCrt(g.nodes[r].rs, id);
    }
    forall id | Started(g', id) ensures LeaderDepsKnown(g', id) {
      assert LeaderDepsKnown(g, id);
    }
  }

  lemma StepLive(g: Global, g': Global, step: Step)
    requires Inv(g) && Live(g) && NextStep(g, g', step)
    ensures Live(g')
  {
    hide Inv, Live, DeliverStep, ProposeStep, ExecuteStep;
    match step {
      case Proposing(s, c, waits, now, targets) =>
        LivePropose(g, g', s, c, waits, now, targets);
      case Delivering(p, now, targets) =>
        match p.msg {
          case PreAccept(_, _, _, _, _, _) => LivePreAccept(g, g', p, now, targets);
          case PreAcceptReply(_, _, _, _, _, _, _) => LiveReply(g, g', p, now, targets);
          case Accept(_, _, _, _, _) => LiveAtPeer(g, g', p, now, targets);
          case AcceptReply(_, _) => LiveAcceptReply(g, g', p, now, targets);
          case Commit(_, _, _, _, _, _) => LiveAtPeer(g, g', p, now, targets);
        }
      case Executing(s, space, ex) =>
        LiveExecute(g, g', s, space, ex);
    }
  }

  lemma {:induction false} RunLive(run: seq<Global>, steps: seq<Step>, i: nat)
    requires IsRun(run, steps) && i < |run|
    ensures Live(run[i])
  {
    hide Inv, NextStep, Live;
    if i == 0 {
      LiveAtFirst(run[0]);
    } else {
      RunLive(run, steps, i - 1);
      RunInv(run, steps, i - 1);
      StepLive(run[i - 1], run[i], steps[i - 1]);
    }
  }

  lemma LiveAtFirst(g: Global)
    requires Init(g)
    ensures Live(g)
  {
  }

  // ---------------------------------------------------------------- the end of a run

  /** Replica s has executed the proposed instances and no others. */
  ghost predicate ExecutedExactly(g: Global, s: nat)
    requires s < |g.nodes|
  {
    forall x :: x in LogOf(g, s) <==> Started(g, x)
  }

  /** Nothing is in flight and the executors of r and s have made a round: both have executed exactly the
      proposed instances, and, unless the order of interfering instances rests on clock readings, they
      hold the same store. */
  lemma QuietReplicasAgree(run: seq<Global>, steps: seq<Step>, r: nat, s: nat)
    requires FullRun(run, steps) && |run| >= 1 && run[|run| - 1].net == {}
    requires r < run[|run| - 1].n == |run[|run| - 1].nodes| && s < run[|run| - 1].n
    requires RoundMade(run[|run| - 1], r) && RoundMade(run[|run| - 1], s)
    ensures ExecutedExactly(run[|run| - 1], r) && ExecutedExactly(run[|run| - 1], s)
    ensures Elems(LogOf(run[|run| - 1], r)) == Elems(LogOf(run[|run| - 1], s))
    ensures ClocksDoNotMatter(run[|run| - 1], r) ==> run[|run| - 1].nodes[r].ex.store == run[|run| - 1].nodes[s].ex.store
  {
    hide Inv, NextStep, Full, Enabled, Started, FullRun, IsRun, Live, RoundMade, LogOf, ClocksDoNotMatter, RepliesMatch;
    var k, g := |run| - 1, run[|run| - 1];
    QuietExecutesAll(run, steps, r);
    QuietExecutesAll(run, steps, s);
    assert Elems(LogOf(g, r)) == Elems(LogOf(g, s));
    if ClocksDoNotMatter(g, r) {
      FullIsRun(run, steps);
      StateMachineReplication(run, steps, k, r, k, s);
    }
  }

  lemma FullIsRun(run: seq<Global>, steps: seq<Step>)
    requires FullRun(run, steps)
    ensures IsRun(run, steps) && |run| >= 1
  {
  }

  lemma QuietExecutesAll(run: seq<Global>, steps: seq<Step>, s: nat)
    requires FullRun(run, steps) && |run| >= 1 && run[|run| - 1].net == {}
    requires s < run[|run| - 1].n == |run[|run| - 1].nodes| && RoundMade(run[|run| - 1], s)
    ensures ExecutedExactly(run[|run| - 1], s)
  {
    hide Inv, NextStep, FullRun, Started, Live, RoundMade, LogOf, IsRun, CommittedAt;
    FullIsRun(run, steps);
    var k, g := |run| - 1, run[|run| - 1];
    RunInv(run, steps, k);
    RunLive(run, steps, k);
    forall id | Started(g, id) ensures CommittedAt(g, s, id) {
      QuietRunsCommitEverything(run, steps, id, s);
    }
    forall x ensures x in LogOf(g, s) <==> Started(g, x) {
      if Started(g, x) {
        EverythingExecuted(g, s, x);
      }
      if x in LogOf(g, s) {
        ExecutedIsStarted(g, s, x);
      }
    }
  }
}
